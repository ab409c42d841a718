/** The prediction pipeline behind the "Predict Churn Risk" button: build a
    one-row frame from the form, encode it, scale it, classify it, and, for a
    customer predicted to churn, list the churn drivers and retention
    offers. The fitted scaler and classifier are parameters: the model
    treats them as fixed functions of the encoded row. */
module Prediction {
  import opened Cells
  import opened Customer
  import opened Frames
  import opened Encoding
  import opened Rules

  /** The class probabilities for one row: [stay, churn]. */
  type ClassProbabilities = p: seq<real> | |p| == 2 witness [0.0, 1.0]

  /** What the page shows. The drivers and offers are empty for a customer
      predicted to stay. */
  datatype Outcome = Outcome(churn: bool, confidence: real, drivers: seq<string>, offers: seq<string>)

  /** The confidence shown: the churn probability when the predicted class is 1, and
      the stay probability for any other class. */
  function Confidence(predicted: int, proba: ClassProbabilities): (c: real)
    ensures predicted == 0 || predicted == 1 ==> c == proba[predicted]
    ensures predicted != 1 ==> c == proba[0]
  {
    if predicted == 1 then proba[1] else proba[0]
  }

  /** Two probabilities that are non-negative and add up to one. */
  predicate WellFormed(proba: ClassProbabilities)
  {
    0.0 <= proba[0] && 0.0 <= proba[1] && proba[0] + proba[1] == 1.0
  }

  /** A predicted class that is the more probable class, ties going to stay. */
  predicate MostProbable(predicted: int, proba: ClassProbabilities)
  {
    predicted == (if proba[1] > proba[0] then 1 else 0)
  }

  /** The confidence is a probability, and when the predicted class is the more
      probable class it is at least one half. */
  lemma ConfidenceBounds(predicted: int, proba: ClassProbabilities)
    requires WellFormed(proba)
    ensures 0.0 <= Confidence(predicted, proba) <= 1.0
    ensures MostProbable(predicted, proba) ==> Confidence(predicted, proba) >= 0.5
    ensures MostProbable(predicted, proba) ==> Confidence(predicted, proba) == (if proba[0] < proba[1] then proba[1] else proba[0])
  {
  }

  /** The frame built from the form has the feature order, so every
      categorical column the encoder overwrites is in it. */
  lemma DataHasEncodedColumns(r: Record)
    ensures Keys(Data(r)) == FeatureOrder
    ensures HasStepColumns(Keys(Data(r)))
  {
    assert Keys(Data(r)) == FeatureOrder;
    FeatureOrderHasStepColumns();
  }

  /** The whole pipeline on one form submission. The predicted class is the
      classifier's on the scaled, encoded row; the confidence is the
      probability of the shown class; the rule chains run only for a
      customer predicted to churn. */
  method Predict(r: Record, scale: seq<Value> -> seq<real>, predict: seq<real> -> int,
                 predictProba: seq<real> -> ClassProbabilities)
    returns (o: Outcome)
    ensures var x := scale(EncodedRecord(r));
      && (o.churn <==> predict(x) == 1)
      && o.confidence == Confidence(predict(x), predictProba(x))
    ensures o.churn ==> o.drivers == Appended(r, RuleCount, DriverTexts) && o.offers == Appended(r, RuleCount, OfferTexts)
    ensures !o.churn ==> o.drivers == [] && o.offers == []
  {
    var input := new Frame(Data(r));
    DataHasEncodedColumns(r);
    var encoded := EncodeFrame(input);
    var scaled := scale(encoded.row);
    var predicted := predict(scaled);
    var proba := predictProba(scaled);
    if predicted == 1 {
      var drivers := ChurnDrivers(r);
      var offers := Recommendations(r);
      o := Outcome(true, proba[1], drivers, offers);
    } else {
      o := Outcome(false, proba[0], [], []);
    }
  }

  /** The drivers and offers of a churn prediction are the texts of the rules
      that hold, in rule order, matched one to one. */
  lemma ChurnOutcomeTexts(r: Record, o: Outcome)
    requires o.churn
    requires o.drivers == Appended(r, RuleCount, DriverTexts) && o.offers == Appended(r, RuleCount, OfferTexts)
    ensures |o.drivers| == |o.offers| == |Fired(r)|
    ensures forall i :: 0 <= i < |Fired(r)| ==>
      RuleHolds(Fired(r)[i], r) && o.drivers[i] == DriverTexts[Fired(r)[i]] && o.offers[i] == OfferTexts[Fired(r)[i]]
  {
    AppendedIsSelected(r, RuleCount, DriverTexts);
    AppendedIsSelected(r, RuleCount, OfferTexts);
    FiredSpec(r);
    forall i | 0 <= i < |Fired(r)| ensures RuleHolds(Fired(r)[i], r) {
      assert Fired(r)[i] in Fired(r);
    }
  }
}
