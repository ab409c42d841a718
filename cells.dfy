/** The cells of the one-row table that the prediction form builds. */
module Cells {

  /** One cell of a one-row pandas frame. A categorical answer is Text, the
      senior-citizen flag and the tenure are Int, the two charges are Real.
      NaN is what `Series.map(dict)` writes for a value that is not a key of
      the dict. */
  datatype Value = Text(s: string) | Int(i: int) | Real(x: real) | NaN

  /** The column labels of the frame. The source spells them as string keys of
      a dict; Label gives that spelling. */
  datatype Column =
    | Gender | SeniorCitizen | Partner | Dependents | Tenure | PhoneService
    | MultipleLines | InternetService | OnlineSecurity | OnlineBackup
    | DeviceProtection | TechSupport | StreamingTV | StreamingMovies | Contract
    | PaperlessBilling | PaymentMethod | MonthlyCharges | TotalCharges
  {
    function Label(): string
    {
      match this
        case Gender => "gender"
        case SeniorCitizen => "SeniorCitizen"
        case Partner => "Partner"
        case Dependents => "Dependents"
        case Tenure => "tenure"
        case PhoneService => "PhoneService"
        case MultipleLines => "MultipleLines"
        case InternetService => "InternetService"
        case OnlineSecurity => "OnlineSecurity"
        case OnlineBackup => "OnlineBackup"
        case DeviceProtection => "DeviceProtection"
        case TechSupport => "TechSupport"
        case StreamingTV => "StreamingTV"
        case StreamingMovies => "StreamingMovies"
        case Contract => "Contract"
        case PaperlessBilling => "PaperlessBilling"
        case PaymentMethod => "PaymentMethod"
        case MonthlyCharges => "MonthlyCharges"
        case TotalCharges => "TotalCharges"
    }
  }

  /** True when the cell holds a number the scaler can read. */
  predicate IsNumber(v: Value)
  {
    v.Int? || v.Real?
  }

  /** No two entries of `s` are equal (the keys of a dict, the columns of a frame). */
  predicate Distinct<T(==)>(s: seq<T>)
  {
    forall i, j :: 0 <= i < j < |s| ==> s[i] != s[j]
  }
}
