# Customer churn prediction: the prediction pipeline

This project models the core of a Streamlit churn-prediction page. The page
builds a one-row pandas frame from the nineteen answers of its form. It
encodes the fifteen categorical answers with hand-written lookup dicts,
scales the row, and asks a fitted logistic-regression model for a label and
class probabilities. It shows the probability of the predicted class as the
confidence. When the label is churn, it also lists the churn drivers and the
retention offers. Each of those lists comes from the same chain of eight
rules, evaluated on the raw answers.

Modules:

- `Cells` (`cells.dfy`) defines the frame's cell values and column labels.
- `Customer` (`customer.dfy`) defines the form record, the widget option
  lists and the dict built from the answers, in the feature order.
- `Frames` (`frame.dfy`) defines the frame (a `class` whose row is updated in
  place) and `Series.map(dict)` applied to one cell.
- `Encoding` (`encoding.dfy`) defines the fifteen lookup tables and the
  encoder. The encoder copies the frame, then overwrites the categorical
  columns one after the other.
- `Rules` (`rules.dfy`) defines the eight conditions and the two chains that
  append driver texts and offer texts.
- `Prediction` (`prediction.dfy`) defines the whole pipeline and the choice
  of confidence.

The fitted scaler and the classifier are parameters of `Prediction.Predict`:
`scale`, `predict` and `predictProba` are fixed functions of the row.

Three behaviours of the code are worth spelling out, because the model
follows them exactly:

- An unknown categorical answer is not rejected. Each column goes through
  `Series.map(dict)`, which writes NaN for an answer its dict does not know
  and raises nothing. `Frames.MapCell` is defined that way: a code for a key
  of the dict, NaN for anything else. `Encoding.UnknownAnswerIsNaN` proves
  that a categorical cell is NaN exactly when its table does not know the
  answer. `Encoding.WidgetRecordIsNumeric` proves this never happens for
  answers the widgets can give.
- No number is range-checked. Only the widgets bound the numbers, and
  `Customer.FromWidgets` states those bounds as an assumption about the form.
- The code shows `proba[1]` when `prediction[0] == 1` and `proba[0]`
  otherwise. `Prediction.Confidence` does the same. For the labels 0 and 1,
  this is the probability of the predicted class.

Three functions are plain definitions, and lemmas state what they do:

- `Frames.MapCell` is `Series.map(dict)` on one cell.
- `Frames.Overwritten` is the row after `df[name] = df[name].map(dict)`.
  `Encoding.ApplyCells` and `Encoding.EncodedColumns` state its effect cell by
  cell.
- `Rules.Select` takes the texts of a list of rules.
  `Rules.AppendedIsSelected`, `Rules.FiredSpec` and
  `Rules.DriversAndOffersAligned` state what it picks.

A few lemmas only split a proof into parts the verifier handles cheaply. They
have no counterpart in the program: `Encoding.StepsSpelledOut`,
`Encoding.ChainFirst`, `Encoding.ChainSecond`, `Encoding.ChainThird` and
`Encoding.FeatureOrderHasStepColumns`.

## Model

| member | source | states |
|---|---|---|
| Customer.Data | app.py:181-190 | the dict has one entry per feature, with the columns in the training order, each carrying its form answer |
| Customer.FeatureOrderDistinct | app.py:181-188 | no column of the dict appears twice, and no two column labels are spelt the same |
| Frames.Frame.constructor | app.py:190 | the new frame has the dict's keys as columns and its values as the row |
| Frames.Frame.Copy | app.py:193 | the copy is a fresh frame with the same columns and row |
| Frames.Frame.MapColumn | app.py:194-210 | overwriting one existing column in place sets the row to the old row with that column mapped; the columns are fixed |
| Encoding.EncodeFrame | app.py:193-210 | the encoder returns a fresh frame with the input's column order, whose row is the input's row on entry after the fifteen overwrites in source order; the input frame is left alone |
| Encoding.StepColumnsPresent | app.py:194-210 | a frame has the fifteen columns the encoder reads exactly when it has the column of every encoding step |
| Encoding.EncodeChain | app.py:194-210 | fifteen successive rows, each the previous one with the next column overwritten in source order, end in the encoded row |
| Encoding.StepNamesDistinct | app.py:194-210 | no column is overwritten twice |
| Encoding.ApplyCells | app.py:194-210 | after the first k overwrites with distinct column names, a cell of a column named among them holds its old value mapped by that column's table, and a cell of a column none of them names is unchanged |
| Encoding.PositionsMatchSteps | app.py:181-210 | the j-th step overwrites the j-th categorical position, no step touches the four numeric columns, and every column is one or the other |
| Encoding.EncodedColumns | app.py:194-210 | encoding a row in feature order maps exactly the fifteen categorical cells and passes the four numeric cells through |
| Encoding.DataCells | app.py:181-188 | the dict holds the j-th categorical answer as text at the j-th categorical position and a number at each numeric position |
| Encoding.GenderTable | app.py:194 | the gender dict's keys are exactly the gender widget's options, and it codes them densely and one to one as 0..1 |
| Encoding.NoYesTable | app.py:195-197 | the Yes/No dict's keys are exactly the Yes/No widget's options, coded densely and one to one as 0..1 |
| Encoding.MultipleLinesTable | app.py:198 | the MultipleLines dict's keys are exactly the widget's options, coded densely and one to one as 0..2 |
| Encoding.InternetServiceTable | app.py:199 | the InternetService dict's keys are exactly the widget's options, coded densely and one to one as 0..2 |
| Encoding.AddOnTable | app.py:200-205 | the add-on dict's keys are exactly the six add-on widgets' options, coded densely and one to one as 0..2 |
| Encoding.ContractTable | app.py:206 | the Contract dict's keys are exactly the widget's options, coded densely and one to one as 0..2 |
| Encoding.PaymentMethodTable | app.py:208-210 | the PaymentMethod dict's keys are exactly the widget's options, coded densely and one to one as 0..3 |
| Encoding.StepTablesMatchWidgets | app.py:155-210 | for every encoding step, the step's table fits the widget that feeds its column |
| Encoding.StepTableMatchesWidget | app.py:155-210 | the j-th step's table fits the j-th categorical widget |
| Encoding.WidgetAnswersAreOptions | app.py:155-171 | every categorical answer the widgets can give is one of its own widget's options |
| Encoding.CodesFromOrder | app.py:194-210 | a dict that gives the i-th of a list of distinct keys the code i, and has no other key, codes its keys densely and one to one |
| Encoding.RecordCells | app.py:181-210 | the encoded row of a record holds each categorical answer mapped by its table and each number unchanged |
| Encoding.UnknownAnswerIsNaN | app.py:194-210 | a categorical cell is NaN if and only if its table does not know the answer; otherwise it holds the table's code |
| Encoding.UnknownInternetServiceIsNaN | app.py:199 | the answer "InvalidValue" for InternetService leaves NaN in the InternetService cell of the encoded row |
| Encoding.WidgetRecordIsNumeric | app.py:155-210 | for answers the widgets can give, every encoded cell is a number, and each categorical code lies in 0..k-1 for its widget's k options |
| Encoding.EncodingIsInjective | app.py:155-210 | two form records with the same encoded row are the same record: encoding loses nothing |
| Encoding.SameCategoricalAnswers | app.py:194-210 | for form records, equal encoded rows mean equal categorical answers |
| Encoding.CodeDeterminesAnswer | app.py:194-210 | within a table that fits its widget, an option's code determines the option |
| Encoding.SameNumbers | app.py:181-210 | equal encoded rows mean equal senior-citizen flag, tenure and charges |
| Rules.FiredUpToSpec | app.py:231-247 | among the first n rules, a rule is listed if and only if its condition holds, each at most once, in increasing rule order |
| Rules.FiredUpToCount | app.py:231-247 | the list of fired rules is as long as the set of rules whose condition holds |
| Rules.FiredSpec | app.py:231-247 | over all eight rules: membership if and only if the condition holds, fixed order, one entry per holding rule, and an empty list exactly when no condition holds |
| Rules.AppendedIsSelected | app.py:231-270 | what a chain appends is the text of each fired rule, in rule order |
| Rules.ChurnDrivers | app.py:231-247 | the drivers are the texts the chain appends: each holding condition, evaluated in source order, appends its driver text |
| Rules.Recommendations | app.py:254-270 | the offers are the texts the chain appends: the same conditions in the same order, each appending its offer text |
| Rules.TextsDistinct | app.py:231-270 | there are eight driver texts and eight offer texts, and no two rules share a text in either list |
| Rules.DriversAndOffersAligned | app.py:231-270 | the driver and offer lists have equal length, and the i-th offer belongs to the rule whose driver is the i-th driver, a rule that holds |
| Rules.TenureThresholdIsStrict | app.py:234 | a tenure of 12 months does not fire the loyalty rule; 11 months does |
| Rules.ChargeThresholdIsStrict | app.py:240 | monthly charges of exactly 85.0 do not fire the expenditure rule; anything above 85.0 does |
| Rules.ContractMatchIsExact | app.py:232 | the contract rule fires if and only if the contract is spelt exactly "Month-to-month"; "month-to-month" does not fire it |
| Rules.AllRulesFire | app.py:231-270 | a customer meeting all eight conditions gets all eight drivers and all eight offers, in rule order |
| Rules.AllHoldUpTo | app.py:231-247 | when each of the first n conditions holds, the fired rules are exactly 0..n-1 in order |
| Rules.NoRuleFires | app.py:231-270 | a customer meeting none of the conditions gets no driver and no offer |
| Prediction.Confidence | app.py:219-276 | the confidence is the probability of the predicted class for the labels 0 and 1, and the stay probability for any label other than 1 |
| Prediction.ConfidenceBounds | app.py:216-276 | for well-formed probabilities, the confidence lies in [0, 1]; when the label is the more probable class, it is at least one half and is the larger probability |
| Prediction.DataHasEncodedColumns | app.py:181-190 | the frame built from the dict has the feature order, so every column the encoder overwrites is present |
| Prediction.Predict | app.py:180-276 | the label is the classifier's on the scaled encoded row; churn is shown exactly when the label is 1; the confidence is the probability of the shown class; the drivers and offers are the chains' texts for churn, and empty for stay |
| Prediction.ChurnOutcomeTexts | app.py:231-270 | the drivers and offers of a churn outcome match the fired rules one to one, as long as each other, each rule's condition holding |

## Left out

- The page layout, CSS, headings and rendering of the result cards and lists (`st.markdown`, `st.subheader`, the loops that print each driver and offer) are not modelled. They only display the values the model computes.
- The spinner and the 1.5-second `time.sleep` are not modelled. They have no effect on any value.
- Loading `model.pkl` and `scaler.pkl` with pickle, and the handling of a missing file, are not modelled. They are startup I/O. The fitted objects enter only as the parameters of `Prediction.Predict`.
- `scaler.transform`, `model.predict` and `model.predict_proba` are not modelled. They are the fitted scikit-learn objects' own code. They become the function parameters `scale`, `predict` and `predictProba`. Their behaviour on a NaN cell is therefore not modelled either.
- `train_model.py` (data cleaning, fitting, saving the artifacts) is not part of this model.
- There is no error for an unknown answer or an out-of-range number, because the code raises none. An unknown answer becomes NaN (see above).
- Prediction.Predict: it returns an outcome for every record, including one whose encoded row holds NaN. The page shows no result for such a record, because scikit-learn's `LogisticRegression.predict` raises a `ValueError` on NaN input. That exception is not modelled, since the classifier is a parameter.
- Floating point is not modelled: monthly and total charges are reals. The comparison `monthly_charges > 85` is exact, as in the code.
- The confidence's percentage formatting (`*100`, two decimals) is not modelled. It is display only.
- Prediction.ConfidenceBounds: the claim that the confidence is at least one half rests on the assumption that the label is the more probable class (`Prediction.MostProbable`). That is how a fitted logistic regression behaves, but the code does not check it.
- Customer.FromWidgets: the widget bounds (options, the 1..72 tenure slider, the charge ranges) are stated as an assumption about the form's answers. The widgets themselves are not modelled.
