/** The feature encoder: the hand-written lookup tables and the column-by-column
    overwrite of a copy of the input frame. */
module Encoding {
  import opened Cells
  import opened Customer
  import opened Frames

  // The lookup tables, as written beside each column.
  const GenderCodes: map<string, int> := map["Female" := 0, "Male" := 1]
  const NoYesCodes: map<string, int> := map["No" := 0, "Yes" := 1]
  const MultipleLinesCodes: map<string, int> := map["No phone service" := 0, "No" := 1, "Yes" := 2]
  const InternetServiceCodes: map<string, int> := map["DSL" := 0, "Fiber optic" := 1, "No" := 2]
  const AddOnCodes: map<string, int> := map["No internet service" := 0, "No" := 1, "Yes" := 2]
  const ContractCodes: map<string, int> := map["Month-to-month" := 0, "One year" := 1, "Two year" := 2]
  const PaymentMethodCodes: map<string, int> := map[
    "Bank transfer (automatic)" := 0, "Credit card (automatic)" := 1,
    "Electronic check" := 2, "Mailed check" := 3]

  /** The categorical columns, each with its table, in the order the encoder
      overwrites them. The columns that are not named here keep the values the
      form gave them. */
  const EncodingSteps: seq<(Column, map<string, int>)> := [
    (Gender, GenderCodes),
    (Partner, NoYesCodes),
    (Dependents, NoYesCodes),
    (PhoneService, NoYesCodes),
    (MultipleLines, MultipleLinesCodes),
    (InternetService, InternetServiceCodes),
    (OnlineSecurity, AddOnCodes),
    (OnlineBackup, AddOnCodes),
    (DeviceProtection, AddOnCodes),
    (TechSupport, AddOnCodes),
    (StreamingTV, AddOnCodes),
    (StreamingMovies, AddOnCodes),
    (Contract, ContractCodes),
    (PaperlessBilling, NoYesCodes),
    (PaymentMethod, PaymentMethodCodes)]

  /** The names of the overwritten columns. */
  function StepNames(steps: seq<(Column, map<string, int>)>): seq<Column>
  {
    seq(|steps|, j requires 0 <= j < |steps| => steps[j].0)
  }

  /** The row after the first k of the given overwrites, applied first to last. */
  function Apply(columns: seq<Column>, row: seq<Value>, steps: seq<(Column, map<string, int>)>, k: nat): seq<Value>
    requires |columns| == |row| && k <= |steps|
    ensures |Apply(columns, row, steps, k)| == |row|
  {
    if k == 0 then row
    else Overwritten(columns, Apply(columns, row, steps, k - 1), steps[k - 1].0, steps[k - 1].1)
  }

  /** The encoded row: the result of all fifteen overwrites. */
  function Encoded(columns: seq<Column>, row: seq<Value>): seq<Value>
    requires |columns| == |row|
  {
    Apply(columns, row, EncodingSteps, |EncodingSteps|)
  }

  /** The encoded row of a customer record. */
  function EncodedRecord(r: Record): (e: seq<Value>)
    ensures |e| == |FeatureOrder|
  {
    Encoded(FeatureOrder, Values(Data(r)))
  }

  /** The encoder: copy the input frame and overwrite the fifteen categorical
      columns one after the other, each with its own table. The column order is
      kept and the result is the encoded row; the input frame is not touched
      (the method may modify nothing that existed before it). */
  method EncodeFrame(input: Frame) returns (encoded: Frame)
    requires input.Valid()
    requires HasStepColumns(input.columns)
    ensures fresh(encoded) && encoded.Valid()
    ensures encoded.columns == input.columns
    ensures encoded.row == Encoded(input.columns, old(input.row))
  {
    encoded := input.Copy();
    ghost var r0 := encoded.row;
    encoded.MapColumn(Gender, GenderCodes);
    ghost var r1 := encoded.row;
    encoded.MapColumn(Partner, NoYesCodes);
    ghost var r2 := encoded.row;
    encoded.MapColumn(Dependents, NoYesCodes);
    ghost var r3 := encoded.row;
    encoded.MapColumn(PhoneService, NoYesCodes);
    ghost var r4 := encoded.row;
    encoded.MapColumn(MultipleLines, MultipleLinesCodes);
    ghost var r5 := encoded.row;
    encoded.MapColumn(InternetService, InternetServiceCodes);
    ghost var r6 := encoded.row;
    encoded.MapColumn(OnlineSecurity, AddOnCodes);
    ghost var r7 := encoded.row;
    encoded.MapColumn(OnlineBackup, AddOnCodes);
    ghost var r8 := encoded.row;
    encoded.MapColumn(DeviceProtection, AddOnCodes);
    ghost var r9 := encoded.row;
    encoded.MapColumn(TechSupport, AddOnCodes);
    ghost var r10 := encoded.row;
    encoded.MapColumn(StreamingTV, AddOnCodes);
    ghost var r11 := encoded.row;
    encoded.MapColumn(StreamingMovies, AddOnCodes);
    ghost var r12 := encoded.row;
    encoded.MapColumn(Contract, ContractCodes);
    ghost var r13 := encoded.row;
    encoded.MapColumn(PaperlessBilling, NoYesCodes);
    ghost var r14 := encoded.row;
    encoded.MapColumn(PaymentMethod, PaymentMethodCodes);
    EncodeChain(input.columns, r0, r1, r2, r3, r4, r5, r6, r7, r8, r9, r10, r11, r12, r13, r14, encoded.row);
  }


  /** Every column the encoder overwrites is a column of the frame. This is
      the precondition of the encoder's fifteen `df[name]` reads, written out
      column by column so that each call's requirement is one conjunct;
      StepColumnsPresent shows it says the same as the step list. */
  predicate HasStepColumns(columns: seq<Column>)
  {
    && Gender in columns && Partner in columns && Dependents in columns
    && PhoneService in columns && MultipleLines in columns && InternetService in columns
    && OnlineSecurity in columns && OnlineBackup in columns && DeviceProtection in columns
    && TechSupport in columns && StreamingTV in columns && StreamingMovies in columns
    && Contract in columns && PaperlessBilling in columns && PaymentMethod in columns
  }
  /** The feature order holds every column the encoder overwrites. */
  lemma FeatureOrderHasStepColumns()
    ensures HasStepColumns(FeatureOrder)
  {
  }


  /** A frame has the encoder's columns exactly when it has the column of
      every encoding step. */
  lemma StepColumnsPresent(columns: seq<Column>)
    ensures HasStepColumns(columns) <==> forall j :: 0 <= j < |EncodingSteps| ==> EncodingSteps[j].0 in columns
  {
    assert EncodingSteps[0].0 == Gender;
    assert EncodingSteps[1].0 == Partner;
    assert EncodingSteps[2].0 == Dependents;
    assert EncodingSteps[3].0 == PhoneService;
    assert EncodingSteps[4].0 == MultipleLines;
    assert EncodingSteps[5].0 == InternetService;
    assert EncodingSteps[6].0 == OnlineSecurity;
    assert EncodingSteps[7].0 == OnlineBackup;
    assert EncodingSteps[8].0 == DeviceProtection;
    assert EncodingSteps[9].0 == TechSupport;
    assert EncodingSteps[10].0 == StreamingTV;
    assert EncodingSteps[11].0 == StreamingMovies;
    assert EncodingSteps[12].0 == Contract;
    assert EncodingSteps[13].0 == PaperlessBilling;
    assert EncodingSteps[14].0 == PaymentMethod;
  }

  /** The encoding steps one by one. A proof device with no counterpart in
      the program: it spares the proofs below from looking up the step list
      entry by entry. */
  lemma StepsSpelledOut()
    ensures |EncodingSteps| == 15
    ensures EncodingSteps[0] == (Gender, GenderCodes)
    ensures EncodingSteps[1] == (Partner, NoYesCodes)
    ensures EncodingSteps[2] == (Dependents, NoYesCodes)
    ensures EncodingSteps[3] == (PhoneService, NoYesCodes)
    ensures EncodingSteps[4] == (MultipleLines, MultipleLinesCodes)
    ensures EncodingSteps[5] == (InternetService, InternetServiceCodes)
    ensures EncodingSteps[6] == (OnlineSecurity, AddOnCodes)
    ensures EncodingSteps[7] == (OnlineBackup, AddOnCodes)
    ensures EncodingSteps[8] == (DeviceProtection, AddOnCodes)
    ensures EncodingSteps[9] == (TechSupport, AddOnCodes)
    ensures EncodingSteps[10] == (StreamingTV, AddOnCodes)
    ensures EncodingSteps[11] == (StreamingMovies, AddOnCodes)
    ensures EncodingSteps[12] == (Contract, ContractCodes)
    ensures EncodingSteps[13] == (PaperlessBilling, NoYesCodes)
    ensures EncodingSteps[14] == (PaymentMethod, PaymentMethodCodes)
  {
  }

  /** Fifteen rows, each the previous one with the next categorical column
      overwritten in the encoder's order, end in the encoded row. The rows are
      the states of the encoder's frame between its fifteen assignments; the
      lemma is how the encoder's result is tied to Encoded. */
  lemma EncodeChain(columns: seq<Column>,
                    r0: seq<Value>, r1: seq<Value>, r2: seq<Value>, r3: seq<Value>,
                    r4: seq<Value>, r5: seq<Value>, r6: seq<Value>, r7: seq<Value>,
                    r8: seq<Value>, r9: seq<Value>, r10: seq<Value>, r11: seq<Value>,
                    r12: seq<Value>, r13: seq<Value>, r14: seq<Value>, r15: seq<Value>)
    requires |columns| == |r0|
    requires r1 == Overwritten(columns, r0, Gender, GenderCodes)
    requires r2 == Overwritten(columns, r1, Partner, NoYesCodes)
    requires r3 == Overwritten(columns, r2, Dependents, NoYesCodes)
    requires r4 == Overwritten(columns, r3, PhoneService, NoYesCodes)
    requires r5 == Overwritten(columns, r4, MultipleLines, MultipleLinesCodes)
    requires r6 == Overwritten(columns, r5, InternetService, InternetServiceCodes)
    requires r7 == Overwritten(columns, r6, OnlineSecurity, AddOnCodes)
    requires r8 == Overwritten(columns, r7, OnlineBackup, AddOnCodes)
    requires r9 == Overwritten(columns, r8, DeviceProtection, AddOnCodes)
    requires r10 == Overwritten(columns, r9, TechSupport, AddOnCodes)
    requires r11 == Overwritten(columns, r10, StreamingTV, AddOnCodes)
    requires r12 == Overwritten(columns, r11, StreamingMovies, AddOnCodes)
    requires r13 == Overwritten(columns, r12, Contract, ContractCodes)
    requires r14 == Overwritten(columns, r13, PaperlessBilling, NoYesCodes)
    requires r15 == Overwritten(columns, r14, PaymentMethod, PaymentMethodCodes)
    ensures Encoded(columns, r0) == r15
  {
    ChainFirst(columns, r0, r1, r2, r3, r4, r5);
    ChainSecond(columns, r0, r5, r6, r7, r8, r9, r10);
    ChainThird(columns, r0, r10, r11, r12, r13, r14, r15);
  }

  /** The first five overwrites. EncodeChain is split in three only to keep
      each proof small; the program has no such grouping. */
  lemma ChainFirst(columns: seq<Column>, r0: seq<Value>, r1: seq<Value>, r2: seq<Value>, r3: seq<Value>, r4: seq<Value>, r5: seq<Value>)
    requires |columns| == |r0|
    requires r1 == Overwritten(columns, r0, Gender, GenderCodes)
    requires r2 == Overwritten(columns, r1, Partner, NoYesCodes)
    requires r3 == Overwritten(columns, r2, Dependents, NoYesCodes)
    requires r4 == Overwritten(columns, r3, PhoneService, NoYesCodes)
    requires r5 == Overwritten(columns, r4, MultipleLines, MultipleLinesCodes)
    ensures Apply(columns, r0, EncodingSteps, 5) == r5
  {
    StepsSpelledOut();
    assert Apply(columns, r0, EncodingSteps, 1) == r1;
    assert Apply(columns, r0, EncodingSteps, 2) == r2;
    assert Apply(columns, r0, EncodingSteps, 3) == r3;
    assert Apply(columns, r0, EncodingSteps, 4) == r4;
    assert Apply(columns, r0, EncodingSteps, 5) == r5;
  }

  /** The next five overwrites. */
  lemma ChainSecond(columns: seq<Column>, r0: seq<Value>, r5: seq<Value>, r6: seq<Value>, r7: seq<Value>, r8: seq<Value>, r9: seq<Value>, r10: seq<Value>)
    requires |columns| == |r0| && Apply(columns, r0, EncodingSteps, 5) == r5
    requires r6 == Overwritten(columns, r5, InternetService, InternetServiceCodes)
    requires r7 == Overwritten(columns, r6, OnlineSecurity, AddOnCodes)
    requires r8 == Overwritten(columns, r7, OnlineBackup, AddOnCodes)
    requires r9 == Overwritten(columns, r8, DeviceProtection, AddOnCodes)
    requires r10 == Overwritten(columns, r9, TechSupport, AddOnCodes)
    ensures Apply(columns, r0, EncodingSteps, 10) == r10
  {
    StepsSpelledOut();
    assert Apply(columns, r0, EncodingSteps, 6) == r6;
    assert Apply(columns, r0, EncodingSteps, 7) == r7;
    assert Apply(columns, r0, EncodingSteps, 8) == r8;
    assert Apply(columns, r0, EncodingSteps, 9) == r9;
    assert Apply(columns, r0, EncodingSteps, 10) == r10;
  }

  /** The last five overwrites. */
  lemma ChainThird(columns: seq<Column>, r0: seq<Value>, r10: seq<Value>, r11: seq<Value>, r12: seq<Value>, r13: seq<Value>, r14: seq<Value>, r15: seq<Value>)
    requires |columns| == |r0| && Apply(columns, r0, EncodingSteps, 10) == r10
    requires r11 == Overwritten(columns, r10, StreamingTV, AddOnCodes)
    requires r12 == Overwritten(columns, r11, StreamingMovies, AddOnCodes)
    requires r13 == Overwritten(columns, r12, Contract, ContractCodes)
    requires r14 == Overwritten(columns, r13, PaperlessBilling, NoYesCodes)
    requires r15 == Overwritten(columns, r14, PaymentMethod, PaymentMethodCodes)
    ensures Encoded(columns, r0) == r15
  {
    StepsSpelledOut();
    assert Apply(columns, r0, EncodingSteps, 11) == r11;
    assert Apply(columns, r0, EncodingSteps, 12) == r12;
    assert Apply(columns, r0, EncodingSteps, 13) == r13;
    assert Apply(columns, r0, EncodingSteps, 14) == r14;
    assert Apply(columns, r0, EncodingSteps, 15) == r15;
  }

  /** No column is overwritten twice. */
  lemma StepNamesDistinct()
    ensures Distinct(StepNames(EncodingSteps))
  {
  }

  /** What the first k of a list of overwrites with distinct column names do
      to a row: a cell of a column named by one of them holds the code of its
      old value under that column's table, and a cell of a column no step
      names is unchanged. */
  lemma {:induction false} ApplyCells(columns: seq<Column>, row: seq<Value>, steps: seq<(Column, map<string, int>)>, k: nat)
    requires |columns| == |row| && k <= |steps| && Distinct(StepNames(steps))
    ensures forall i, j :: 0 <= i < |row| && 0 <= j < k && columns[i] == steps[j].0 ==>
      Apply(columns, row, steps, k)[i] == MapCell(steps[j].1, row[i])
    ensures forall i :: 0 <= i < |row| && columns[i] !in StepNames(steps)[..k] ==>
      Apply(columns, row, steps, k)[i] == row[i]
  {
    if k > 0 {
      var names := StepNames(steps);
      ApplyCells(columns, row, steps, k - 1);
      assert names[..k] == names[..k - 1] + [steps[k - 1].0];
      forall i, j | 0 <= i < |row| && 0 <= j < k && columns[i] == steps[j].0
        ensures Apply(columns, row, steps, k)[i] == MapCell(steps[j].1, row[i])
      {
        if j < k - 1 {
          assert names[j] != names[k - 1];
        } else {
          var earlier := names[..k - 1];
          forall l | 0 <= l < |earlier| ensures earlier[l] != columns[i] {
            assert earlier[l] == names[l] != names[j];
          }
        }
      }
    }
  }

  /** A position in the feature order. */
  type FeatureIndex = i: nat | i < |FeatureOrder|

  /** Where the categorical columns sit in the feature order, in the
      encoder's order, and where the numeric ones sit. */
  const CategoricalPositions: seq<FeatureIndex> := [0, 2, 3, 5, 6, 7, 8, 9, 10, 11, 12, 13, 14, 15, 16]
  const NumericPositions: seq<FeatureIndex> := [1, 4, 17, 18]

  /** The j-th encoding step overwrites the column at CategoricalPositions[j];
      no step overwrites a numeric column; every column is one or the other. */
  lemma PositionsMatchSteps()
    ensures |CategoricalPositions| == |EncodingSteps|
    ensures forall j :: 0 <= j < |EncodingSteps| ==>
      CategoricalPositions[j] < |FeatureOrder| && FeatureOrder[CategoricalPositions[j]] == EncodingSteps[j].0
    ensures forall k :: 0 <= k < |NumericPositions| ==>
      NumericPositions[k] < |FeatureOrder| && FeatureOrder[NumericPositions[k]] !in StepNames(EncodingSteps)
    ensures forall i :: 0 <= i < |FeatureOrder| ==> i in CategoricalPositions || i in NumericPositions
  {
  }

  /** Encoding a row in the feature order overwrites exactly the fifteen
      categorical columns, each with the codes of its own table, and leaves
      the four numeric columns as they were. */
  lemma EncodedColumns(row: seq<Value>)
    requires |row| == |FeatureOrder|
    ensures |Encoded(FeatureOrder, row)| == |row|
    ensures forall j :: 0 <= j < |EncodingSteps| ==>
      Encoded(FeatureOrder, row)[CategoricalPositions[j]] == MapCell(EncodingSteps[j].1, row[CategoricalPositions[j]])
    ensures forall k :: 0 <= k < |NumericPositions| ==>
      Encoded(FeatureOrder, row)[NumericPositions[k]] == row[NumericPositions[k]]
  {
    StepNamesDistinct();
    PositionsMatchSteps();
    ApplyCells(FeatureOrder, row, EncodingSteps, |EncodingSteps|);
    assert StepNames(EncodingSteps)[..|EncodingSteps|] == StepNames(EncodingSteps);
  }

  /** The categorical answers of a record, in the encoder's order. */
  function CategoricalAnswers(r: Record): seq<string>
  {
    [r.gender, r.partner, r.dependents, r.phoneService, r.multipleLines, r.internetService,
     r.onlineSecurity, r.onlineBackup, r.deviceProtection, r.techSupport, r.streamingTV,
     r.streamingMovies, r.contract, r.paperlessBilling, r.paymentMethod]
  }

  /** The option tuple of the widget behind each encoding step. */
  const StepOptions: seq<seq<string>> := [
    GenderOptions, YesNoOptions, YesNoOptions, YesNoOptions, MultipleLinesOptions,
    InternetServiceOptions, AddOnOptions, AddOnOptions, AddOnOptions, AddOnOptions,
    AddOnOptions, AddOnOptions, ContractOptions, YesNoOptions, PaymentMethodOptions]

  /** The dict puts the j-th categorical answer at CategoricalPositions[j] and
      a number at each numeric position. */
  lemma DataCells(r: Record)
    ensures |CategoricalAnswers(r)| == |CategoricalPositions|
    ensures forall j :: 0 <= j < |CategoricalPositions| ==>
      CategoricalPositions[j] < |Data(r)| && Values(Data(r))[CategoricalPositions[j]] == Text(CategoricalAnswers(r)[j])
    ensures forall k :: 0 <= k < |NumericPositions| ==>
      NumericPositions[k] < |Data(r)| && IsNumber(Values(Data(r))[NumericPositions[k]])
  {
  }

  /** A table that gives its k keys the codes 0 .. k-1, each code to one key. */
  ghost predicate CodesZeroTo(table: map<string, int>, k: nat)
  {
    && |table| == k
    && (forall c :: 0 <= c < k ==> c in table.Values)
    && (forall v :: v in table.Values ==> 0 <= v < k)
    && (forall a, b :: a in table && b in table && table[a] == table[b] ==> a == b)
  }

  /** A table fits a widget when its keys are exactly the widget's options and
      it codes them 0 .. k-1. */
  ghost predicate FitsWidget(table: map<string, int>, options: seq<string>)
  {
    table.Keys == (set o | o in options) && CodesZeroTo(table, |options|)
  }

  /** The table of gender: its keys are the widget's options and it codes them 0 .. k-1. */
  lemma GenderTable()
    ensures FitsWidget(GenderCodes, GenderOptions)
  {
    CodesFromOrder(GenderCodes, ["Female", "Male"]);
  }

  /** The table of Partner, Dependents, PhoneService and PaperlessBilling: its keys are the widget's options and it codes them 0 .. k-1. */
  lemma NoYesTable()
    ensures FitsWidget(NoYesCodes, YesNoOptions)
  {
    CodesFromOrder(NoYesCodes, ["No", "Yes"]);
  }

  /** The table of MultipleLines: its keys are the widget's options and it codes them 0 .. k-1. */
  lemma MultipleLinesTable()
    ensures FitsWidget(MultipleLinesCodes, MultipleLinesOptions)
  {
    CodesFromOrder(MultipleLinesCodes, ["No phone service", "No", "Yes"]);
  }

  /** The table of InternetService: its keys are the widget's options and it codes them 0 .. k-1. */
  lemma InternetServiceTable()
    ensures FitsWidget(InternetServiceCodes, InternetServiceOptions)
  {
    CodesFromOrder(InternetServiceCodes, ["DSL", "Fiber optic", "No"]);
  }

  /** The table of the six internet add-on columns: its keys are the widget's options and it codes them 0 .. k-1. */
  lemma AddOnTable()
    ensures FitsWidget(AddOnCodes, AddOnOptions)
  {
    CodesFromOrder(AddOnCodes, ["No internet service", "No", "Yes"]);
  }

  /** The table of Contract: its keys are the widget's options and it codes them 0 .. k-1. */
  lemma ContractTable()
    ensures FitsWidget(ContractCodes, ContractOptions)
  {
    CodesFromOrder(ContractCodes, ["Month-to-month", "One year", "Two year"]);
  }

  /** The table of PaymentMethod: its keys are the widget's options and it codes them 0 .. k-1. */
  lemma PaymentMethodTable()
    ensures FitsWidget(PaymentMethodCodes, PaymentMethodOptions)
  {
    var keys := ["Bank transfer (automatic)", "Credit card (automatic)", "Electronic check", "Mailed check"];
    PaymentMethodOrder(keys);
    CodesFromOrder(PaymentMethodCodes, keys);
    assert PaymentMethodCodes.Keys == set o | o in PaymentMethodOptions;
  }

  /** The payment methods in code order are distinct and are the table's keys. */
  lemma PaymentMethodOrder(keys: seq<string>)
    requires keys == ["Bank transfer (automatic)", "Credit card (automatic)", "Electronic check", "Mailed check"]
    ensures Distinct(keys)
    ensures PaymentMethodCodes.Keys == set k | k in keys
    ensures forall i :: 0 <= i < |keys| ==> PaymentMethodCodes[keys[i]] == i
  {
  }

  /** Step by step: the j-th step's table has one key per option of its
      widget and no other key, and codes them 0 .. k-1. */
  lemma StepTablesMatchWidgets()
    ensures |StepOptions| == |EncodingSteps|
    ensures forall j :: 0 <= j < |EncodingSteps| ==>
      FitsWidget(EncodingSteps[j].1, StepOptions[j])
  {
    forall j | 0 <= j < |EncodingSteps| ensures FitsWidget(EncodingSteps[j].1, StepOptions[j]) {
      StepTableMatchesWidget(j);
    }
  }

  /** The j-th step's table fits the j-th widget. */
  lemma StepTableMatchesWidget(j: nat)
    requires j < |EncodingSteps|
    ensures FitsWidget(EncodingSteps[j].1, StepOptions[j])
  {
    match j
    case 0 => GenderTable();
    case 1 => NoYesTable();
    case 2 => NoYesTable();
    case 3 => NoYesTable();
    case 4 => MultipleLinesTable();
    case 5 => InternetServiceTable();
    case 6 => AddOnTable();
    case 7 => AddOnTable();
    case 8 => AddOnTable();
    case 9 => AddOnTable();
    case 10 => AddOnTable();
    case 11 => AddOnTable();
    case 12 => ContractTable();
    case 13 => NoYesTable();
    case _ => PaymentMethodTable();
  }

  /** Every answer the widgets can give is one of its column's options. */
  lemma WidgetAnswersAreOptions(r: Record)
    requires FromWidgets(r)
    ensures forall j :: 0 <= j < |StepOptions| ==> CategoricalAnswers(r)[j] in StepOptions[j]
  {
  }

  /** A table that gives the i-th of a list of distinct keys the code i, and
      has no other key, codes its keys densely. */
  lemma CodesFromOrder(table: map<string, int>, keys: seq<string>)
    requires Distinct(keys)
    requires table.Keys == set k | k in keys
    requires forall i :: 0 <= i < |keys| ==> table[keys[i]] == i
    ensures CodesZeroTo(table, |keys|)
  {
    DistinctCardinality(keys);
    assert |table| == |table.Keys|;
    forall c | 0 <= c < |keys| ensures c in table.Values {
      assert table[keys[c]] == c;
    }
    forall v | v in table.Values ensures 0 <= v < |keys| {
      var k :| k in table && table[k] == v;
      var i :| 0 <= i < |keys| && keys[i] == k;
    }
    forall a, b | a in table && b in table && table[a] == table[b] ensures a == b {
      var i :| 0 <= i < |keys| && keys[i] == a;
      var j :| 0 <= j < |keys| && keys[j] == b;
    }
  }

  /** A list of distinct keys has as many members as entries. */
  lemma {:induction false} DistinctCardinality(keys: seq<string>)
    requires Distinct(keys)
    ensures |set k | k in keys| == |keys|
  {
    if keys != [] {
      var rest := keys[1..];
      assert Distinct(rest) by {
        forall i, j | 0 <= i < j < |rest| ensures rest[i] != rest[j] {
          assert rest[i] == keys[i + 1] && rest[j] == keys[j + 1];
        }
      }
      DistinctCardinality(rest);
      assert keys[0] !in rest by {
        forall i | 0 <= i < |rest| ensures rest[i] != keys[0] {
          assert rest[i] == keys[i + 1];
        }
      }
      assert (set k | k in keys) == (set k | k in rest) + {keys[0]};
    }
  }

  /** The encoded row of a record, cell by cell: the j-th categorical answer
      becomes its code under the j-th table, or NaN when that table does not
      know it, and the four numbers are passed through. */
  lemma RecordCells(r: Record)
    ensures |EncodedRecord(r)| == |FeatureOrder|
    ensures forall j :: 0 <= j < |EncodingSteps| ==>
      EncodedRecord(r)[CategoricalPositions[j]] == MapCell(EncodingSteps[j].1, Text(CategoricalAnswers(r)[j]))
    ensures forall k :: 0 <= k < |NumericPositions| ==>
      EncodedRecord(r)[NumericPositions[k]] == Values(Data(r))[NumericPositions[k]]
  {
    EncodedColumns(Values(Data(r)));
    DataCells(r);
  }

  /** A categorical cell is NaN exactly when its table does not know the
      answer, and otherwise holds the table's code for it. */
  lemma UnknownAnswerIsNaN(r: Record)
    ensures forall j :: 0 <= j < |EncodingSteps| ==>
      (EncodedRecord(r)[CategoricalPositions[j]] == NaN <==> CategoricalAnswers(r)[j] !in EncodingSteps[j].1)
    ensures forall j :: 0 <= j < |EncodingSteps| && CategoricalAnswers(r)[j] in EncodingSteps[j].1 ==>
      EncodedRecord(r)[CategoricalPositions[j]] == Int(EncodingSteps[j].1[CategoricalAnswers(r)[j]])
  {
    RecordCells(r);
    DataCells(r);
    PositionsMatchSteps();
  }

  /** A record the form can produce encodes to numbers only: every
      categorical answer is a key of its table, so its cell holds a code from
      0 to one less than the number of options, and the numeric cells stay
      numbers. */
  lemma WidgetRecordIsNumeric(r: Record)
    requires FromWidgets(r)
    ensures |EncodedRecord(r)| == |FeatureOrder|
    ensures forall i :: 0 <= i < |EncodedRecord(r)| ==> IsNumber(EncodedRecord(r)[i])
    ensures forall j :: 0 <= j < |EncodingSteps| ==>
      && EncodedRecord(r)[CategoricalPositions[j]].Int?
      && 0 <= EncodedRecord(r)[CategoricalPositions[j]].i < |StepOptions[j]|
  {
    RecordCells(r);
    DataCells(r);
    PositionsMatchSteps();
    StepTablesMatchWidgets();
    WidgetAnswersAreOptions(r);
    forall j | 0 <= j < |EncodingSteps|
      ensures && EncodedRecord(r)[CategoricalPositions[j]].Int?
              && 0 <= EncodedRecord(r)[CategoricalPositions[j]].i < |StepOptions[j]|
    {
      var table, answer := EncodingSteps[j].1, CategoricalAnswers(r)[j];
      assert answer in table.Keys;
      assert table[answer] in table.Values;
    }
    forall i | 0 <= i < |EncodedRecord(r)| ensures IsNumber(EncodedRecord(r)[i]) {
      if i in CategoricalPositions {
        var j :| 0 <= j < |CategoricalPositions| && CategoricalPositions[j] == i;
      } else {
        var k :| 0 <= k < |NumericPositions| && NumericPositions[k] == i;
      }
    }
  }

  /** An answer the InternetService table does not know, such as
      "InvalidValue", leaves NaN in the InternetService cell. */
  lemma UnknownInternetServiceIsNaN(r: Record)
    requires r.internetService == "InvalidValue"
    ensures EncodedRecord(r)[7] == NaN
  {
    UnknownAnswerIsNaN(r);
    assert CategoricalPositions[5] == 7 && CategoricalAnswers(r)[5] == r.internetService;
  }

  /** Encoding loses nothing the form can say: two records from the form
      with the same encoded row are the same record. */
  lemma EncodingIsInjective(r1: Record, r2: Record)
    requires FromWidgets(r1) && FromWidgets(r2)
    requires EncodedRecord(r1) == EncodedRecord(r2)
    ensures r1 == r2
  {
    SameCategoricalAnswers(r1, r2);
    SameAnswers(r1, r2);
    SameNumbers(r1, r2);
  }

  /** Two records from the form with the same encoded row gave the same
      categorical answers. */
  lemma SameCategoricalAnswers(r1: Record, r2: Record)
    requires FromWidgets(r1) && FromWidgets(r2)
    requires EncodedRecord(r1) == EncodedRecord(r2)
    ensures forall j :: 0 <= j < |EncodingSteps| ==> CategoricalAnswers(r1)[j] == CategoricalAnswers(r2)[j]
  {
    RecordCells(r1);
    RecordCells(r2);
    StepTablesMatchWidgets();
    WidgetAnswersAreOptions(r1);
    WidgetAnswersAreOptions(r2);
    forall j | 0 <= j < |EncodingSteps| ensures CategoricalAnswers(r1)[j] == CategoricalAnswers(r2)[j] {
      CodeDeterminesAnswer(EncodingSteps[j].1, StepOptions[j], CategoricalAnswers(r1)[j], CategoricalAnswers(r2)[j]);
    }
  }

  /** Within a table that fits its widget, the code of an option tells which
      option it was. */
  lemma CodeDeterminesAnswer(table: map<string, int>, options: seq<string>, a: string, b: string)
    requires FitsWidget(table, options) && a in options && b in options
    requires MapCell(table, Text(a)) == MapCell(table, Text(b))
    ensures a == b
  {
    assert a in table && b in table;
  }

  /** Two records with the same encoded row have the same four numbers. */
  lemma SameNumbers(r1: Record, r2: Record)
    requires EncodedRecord(r1) == EncodedRecord(r2)
    ensures r1.seniorCitizen == r2.seniorCitizen && r1.tenure == r2.tenure
    ensures r1.monthlyCharges == r2.monthlyCharges && r1.totalCharges == r2.totalCharges
  {
    RecordCells(r1);
    RecordCells(r2);
    assert NumericPositions[0] == 1 && NumericPositions[1] == 4;
    assert NumericPositions[2] == 17 && NumericPositions[3] == 18;
    assert Values(Data(r1))[1] == Values(Data(r2))[1];
    assert Values(Data(r1))[4] == Values(Data(r2))[4];
    assert Values(Data(r1))[17] == Values(Data(r2))[17];
    assert Values(Data(r1))[18] == Values(Data(r2))[18];
  }

  /** The same fifteen categorical answers mean the same categorical fields. */
  lemma SameAnswers(r1: Record, r2: Record)
    requires forall j :: 0 <= j < |EncodingSteps| ==> CategoricalAnswers(r1)[j] == CategoricalAnswers(r2)[j]
    ensures r1.gender == r2.gender && r1.partner == r2.partner && r1.dependents == r2.dependents
    ensures r1.phoneService == r2.phoneService && r1.multipleLines == r2.multipleLines
    ensures r1.internetService == r2.internetService && r1.onlineSecurity == r2.onlineSecurity
    ensures r1.onlineBackup == r2.onlineBackup && r1.deviceProtection == r2.deviceProtection
    ensures r1.techSupport == r2.techSupport && r1.streamingTV == r2.streamingTV
    ensures r1.streamingMovies == r2.streamingMovies && r1.contract == r2.contract
    ensures r1.paperlessBilling == r2.paperlessBilling && r1.paymentMethod == r2.paymentMethod
  {
    assert CategoricalAnswers(r1)[0] == CategoricalAnswers(r2)[0];
    assert CategoricalAnswers(r1)[1] == CategoricalAnswers(r2)[1];
    assert CategoricalAnswers(r1)[2] == CategoricalAnswers(r2)[2];
    assert CategoricalAnswers(r1)[3] == CategoricalAnswers(r2)[3];
    assert CategoricalAnswers(r1)[4] == CategoricalAnswers(r2)[4];
    assert CategoricalAnswers(r1)[5] == CategoricalAnswers(r2)[5];
    assert CategoricalAnswers(r1)[6] == CategoricalAnswers(r2)[6];
    assert CategoricalAnswers(r1)[7] == CategoricalAnswers(r2)[7];
    assert CategoricalAnswers(r1)[8] == CategoricalAnswers(r2)[8];
    assert CategoricalAnswers(r1)[9] == CategoricalAnswers(r2)[9];
    assert CategoricalAnswers(r1)[10] == CategoricalAnswers(r2)[10];
    assert CategoricalAnswers(r1)[11] == CategoricalAnswers(r2)[11];
    assert CategoricalAnswers(r1)[12] == CategoricalAnswers(r2)[12];
    assert CategoricalAnswers(r1)[13] == CategoricalAnswers(r2)[13];
    assert CategoricalAnswers(r1)[14] == CategoricalAnswers(r2)[14];
  }
}
