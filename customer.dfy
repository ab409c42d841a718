/** The customer record entered on the prediction form and the dict built from it. */
module Customer {
  import opened Cells

  /** The nineteen answers of the form, one per feature, as the widgets return them. */
  datatype Record = Record(
    gender: string,
    seniorCitizen: int,
    partner: string,
    dependents: string,
    tenure: int,
    phoneService: string,
    multipleLines: string,
    internetService: string,
    onlineSecurity: string,
    onlineBackup: string,
    deviceProtection: string,
    techSupport: string,
    streamingTV: string,
    streamingMovies: string,
    contract: string,
    paperlessBilling: string,
    paymentMethod: string,
    monthlyCharges: real,
    totalCharges: real)

  /** The column order of the training table, which the scaler and the classifier were fitted on. */
  const FeatureOrder: seq<Column> := [
    Gender, SeniorCitizen, Partner, Dependents, Tenure, PhoneService,
    MultipleLines, InternetService, OnlineSecurity, OnlineBackup,
    DeviceProtection, TechSupport, StreamingTV, StreamingMovies, Contract,
    PaperlessBilling, PaymentMethod, MonthlyCharges, TotalCharges]

  // The option tuples of the select boxes, in the order the widgets show them.
  const GenderOptions: seq<string> := ["Male", "Female"]
  const YesNoOptions: seq<string> := ["Yes", "No"]
  const MultipleLinesOptions: seq<string> := ["No phone service", "No", "Yes"]
  const InternetServiceOptions: seq<string> := ["DSL", "Fiber optic", "No"]
  const AddOnOptions: seq<string> := ["No internet service", "No", "Yes"]
  const ContractOptions: seq<string> := ["Month-to-month", "One year", "Two year"]
  const PaymentMethodOptions: seq<string> :=
    ["Electronic check", "Mailed check", "Bank transfer (automatic)", "Credit card (automatic)"]

  /** A record the form's widgets can produce: every select box answer is one of
      its options, the senior flag is 0 or 1, the tenure slider runs over 1..72
      and the two number inputs are bounded. */
  predicate FromWidgets(r: Record)
  {
    && r.gender in GenderOptions
    && r.seniorCitizen in [0, 1]
    && r.partner in YesNoOptions
    && r.dependents in YesNoOptions
    && 1 <= r.tenure <= 72
    && r.phoneService in YesNoOptions
    && r.multipleLines in MultipleLinesOptions
    && r.internetService in InternetServiceOptions
    && r.onlineSecurity in AddOnOptions
    && r.onlineBackup in AddOnOptions
    && r.deviceProtection in AddOnOptions
    && r.techSupport in AddOnOptions
    && r.streamingTV in AddOnOptions
    && r.streamingMovies in AddOnOptions
    && r.contract in ContractOptions
    && r.paperlessBilling in YesNoOptions
    && r.paymentMethod in PaymentMethodOptions
    && 18.0 <= r.monthlyCharges <= 120.0
    && 18.0 <= r.totalCharges <= 9000.0
  }

  /** The dict handed to the frame constructor, as (key, value) pairs in insertion order. */
  function Data(r: Record): (d: seq<(Column, Value)>)
    ensures |d| == |FeatureOrder|
    ensures forall i :: 0 <= i < |d| ==> d[i].0 == FeatureOrder[i]
  {
    [(Gender, Text(r.gender)), (SeniorCitizen, Int(r.seniorCitizen)),
     (Partner, Text(r.partner)), (Dependents, Text(r.dependents)),
     (Tenure, Int(r.tenure)), (PhoneService, Text(r.phoneService)),
     (MultipleLines, Text(r.multipleLines)), (InternetService, Text(r.internetService)),
     (OnlineSecurity, Text(r.onlineSecurity)), (OnlineBackup, Text(r.onlineBackup)),
     (DeviceProtection, Text(r.deviceProtection)), (TechSupport, Text(r.techSupport)),
     (StreamingTV, Text(r.streamingTV)), (StreamingMovies, Text(r.streamingMovies)),
     (Contract, Text(r.contract)), (PaperlessBilling, Text(r.paperlessBilling)),
     (PaymentMethod, Text(r.paymentMethod)), (MonthlyCharges, Real(r.monthlyCharges)),
     (TotalCharges, Real(r.totalCharges))]
  }

  /** The keys of the dict are distinct, and so are their spellings. */
  lemma FeatureOrderDistinct()
    ensures Distinct(FeatureOrder)
    ensures forall i, j :: 0 <= i < j < |FeatureOrder| ==> FeatureOrder[i].Label() != FeatureOrder[j].Label()
  {
  }
}
