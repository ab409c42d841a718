/** The two rule chains shown beside a churn prediction: the churn drivers
    and the retention offers. Both read the raw answers of the form, not the
    encoded row, and both evaluate the same eight conditions in the same order,
    each appending one fixed text when its condition holds. */
module Rules {
  import opened Customer

  /** The number of rules in each chain. */
  const RuleCount: nat := 8

  /** The k-th condition. Thresholds are strict and the answers are compared
      for exact equality. */
  predicate RuleHolds(k: nat, r: Record)
  {
    if k == 0 then r.contract == "Month-to-month"
    else if k == 1 then r.tenure < 12
    else if k == 2 then r.techSupport == "No"
    else if k == 3 then r.onlineSecurity == "No"
    else if k == 4 then r.monthlyCharges > 85.0
    else if k == 5 then r.internetService == "Fiber optic"
    else if k == 6 then r.paymentMethod == "Electronic check"
    else if k == 7 then r.paperlessBilling == "Yes"
    else false
  }

  /** The driver text of each rule. */
  const DriverTexts: seq<string> := [
    "Unstable short-term contract (Month-to-month)",
    "Low customer loyalty (new user under 1 year)",
    "Poor customer experience - No technical support available",
    "Lack of online security services",
    "High monthly expenditure compared to average user",
    "High-cost Fiber Optic plan without added value",
    "Outdated payment method leading to low satisfaction",
    "Digital-only interaction \U{2013} lower engagement with company"]

  /** The retention offer of each rule. */
  const OfferTexts: seq<string> := [
    "\U{1F381} Offer 15% discount for upgrading to annual contract.",
    "\U{1F389} Provide loyalty bonus or cashback for customers under 1 year.",
    "\U{1F6E0}\U{FE0F} Give 6-month free tech support to improve satisfaction.",
    "\U{1F6E1}\U{FE0F} Provide free Online Security for 3 months as retention incentive.",
    "\U{1F4B0} Suggest downgrade plan or loyalty-based discount.",
    "\U{1F4E6} Offer bundle package (TV + Internet) for better value.",
    "\U{1F4B3} Encourage switch to auto-pay using credit card or bank transfer.",
    "\U{1F4E8} Send personalized digital engagement campaigns to increase retention."]

  /** The rules among the first n whose conditions hold, in rule order. */
  function FiredUpTo(r: Record, n: nat): seq<nat>
    requires n <= RuleCount
  {
    if n == 0 then []
    else FiredUpTo(r, n - 1) + (if RuleHolds(n - 1, r) then [n - 1] else [])
  }

  /** The rules whose conditions hold, in rule order. */
  function Fired(r: Record): seq<nat>
  {
    FiredUpTo(r, RuleCount)
  }

  /** The rules among the first n whose conditions hold, as a set. */
  ghost function HoldingUpTo(r: Record, n: nat): set<nat>
  {
    set k: nat | k < n && RuleHolds(k, r)
  }

  /** Every rule number in `ks` has a text in `texts`. */
  predicate InRange(ks: seq<nat>, texts: seq<string>)
  {
    forall i :: 0 <= i < |ks| ==> ks[i] < |texts|
  }

  /** The texts of the given rules, in the given order. */
  function Select(ks: seq<nat>, texts: seq<string>): (out: seq<string>)
    requires InRange(ks, texts)
    ensures |out| == |ks|
    ensures forall i :: 0 <= i < |ks| ==> out[i] == texts[ks[i]]
  {
    seq(|ks|, i requires 0 <= i < |ks| => texts[ks[i]])
  }

  /** The rule chain itself: the rule numbers are exactly those below n that
      hold, each once, in increasing order. */
  lemma {:induction false} FiredUpToSpec(r: Record, n: nat)
    requires n <= RuleCount
    ensures forall k: nat :: k in FiredUpTo(r, n) <==> k < n && RuleHolds(k, r)
    ensures forall i, j :: 0 <= i < j < |FiredUpTo(r, n)| ==> FiredUpTo(r, n)[i] < FiredUpTo(r, n)[j]
    ensures forall i :: 0 <= i < |FiredUpTo(r, n)| ==> FiredUpTo(r, n)[i] < n
  {
    if n > 0 {
      FiredUpToSpec(r, n - 1);
    }
  }

  /** One rule fires per condition that holds: the list is as long as the
      set of holding rules is large. */
  lemma {:induction false} FiredUpToCount(r: Record, n: nat)
    requires n <= RuleCount
    ensures |FiredUpTo(r, n)| == |HoldingUpTo(r, n)|
  {
    if n == 0 {
      assert HoldingUpTo(r, 0) == {};
    } else {
      FiredUpToCount(r, n - 1);
      if RuleHolds(n - 1, r) {
        assert HoldingUpTo(r, n) == HoldingUpTo(r, n - 1) + {n - 1};
      } else {
        assert HoldingUpTo(r, n) == HoldingUpTo(r, n - 1);
      }
    }
  }

  /** All eight rules together: a rule is listed if and only if its
      condition holds, the rules come in their fixed order, the list has
      one entry per holding rule, and it is empty exactly when no
      condition holds. */
  lemma FiredSpec(r: Record)
    ensures InRange(Fired(r), DriverTexts) && InRange(Fired(r), OfferTexts)
    ensures forall k: nat :: k in Fired(r) <==> k < RuleCount && RuleHolds(k, r)
    ensures forall i, j :: 0 <= i < j < |Fired(r)| ==> Fired(r)[i] < Fired(r)[j]
    ensures |Fired(r)| == |HoldingUpTo(r, RuleCount)|
    ensures Fired(r) == [] <==> forall k: nat :: k < RuleCount ==> !RuleHolds(k, r)
  {
    FiredUpToSpec(r, RuleCount);
    FiredUpToCount(r, RuleCount);
    if Fired(r) != [] {
      assert Fired(r)[0] in Fired(r);
    }
  }

  /** The texts a chain has appended once it has evaluated its first n rules:
      the text of each rule that holds, in rule order. */
  function Appended(r: Record, n: nat, texts: seq<string>): seq<string>
    requires n <= |texts|
  {
    if n == 0 then []
    else Appended(r, n - 1, texts) + (if RuleHolds(n - 1, r) then [texts[n - 1]] else [])
  }

  /** Selecting the texts of one more rule appends its text. */
  lemma SelectSnoc(ks: seq<nat>, k: nat, texts: seq<string>)
    requires InRange(ks, texts) && k < |texts|
    ensures InRange(ks + [k], texts)
    ensures Select(ks + [k], texts) == Select(ks, texts) + [texts[k]]
  {
  }

  /** What a chain appends is the texts of the rules that fired. */
  lemma {:induction false} AppendedIsSelected(r: Record, n: nat, texts: seq<string>)
    requires n <= RuleCount && n <= |texts|
    ensures InRange(FiredUpTo(r, n), texts)
    ensures Appended(r, n, texts) == Select(FiredUpTo(r, n), texts)
  {
    FiredUpToSpec(r, n);
    if n > 0 {
      AppendedIsSelected(r, n - 1, texts);
      if RuleHolds(n - 1, r) {
        SelectSnoc(FiredUpTo(r, n - 1), n - 1, texts);
      }
    }
  }

  /** The churn drivers: the eight conditions evaluated in order, each one that
      holds appending its driver text. */
  method ChurnDrivers(r: Record) returns (drivers: seq<string>)
    ensures drivers == Appended(r, RuleCount, DriverTexts)
  {
    drivers := [];
    assert drivers == Appended(r, 0, DriverTexts);
    if r.contract == "Month-to-month" {
      drivers := drivers + [DriverTexts[0]];
    }
    assert drivers == Appended(r, 1, DriverTexts);
    if r.tenure < 12 {
      drivers := drivers + [DriverTexts[1]];
    }
    assert drivers == Appended(r, 2, DriverTexts);
    if r.techSupport == "No" {
      drivers := drivers + [DriverTexts[2]];
    }
    assert drivers == Appended(r, 3, DriverTexts);
    if r.onlineSecurity == "No" {
      drivers := drivers + [DriverTexts[3]];
    }
    assert drivers == Appended(r, 4, DriverTexts);
    if r.monthlyCharges > 85.0 {
      drivers := drivers + [DriverTexts[4]];
    }
    assert drivers == Appended(r, 5, DriverTexts);
    if r.internetService == "Fiber optic" {
      drivers := drivers + [DriverTexts[5]];
    }
    assert drivers == Appended(r, 6, DriverTexts);
    if r.paymentMethod == "Electronic check" {
      drivers := drivers + [DriverTexts[6]];
    }
    assert drivers == Appended(r, 7, DriverTexts);
    if r.paperlessBilling == "Yes" {
      drivers := drivers + [DriverTexts[7]];
    }
  }

  /** The retention offers: the same eight conditions in the same order,
      each one that holds appending its offer text. */
  method Recommendations(r: Record) returns (offers: seq<string>)
    ensures offers == Appended(r, RuleCount, OfferTexts)
  {
    offers := [];
    assert offers == Appended(r, 0, OfferTexts);
    if r.contract == "Month-to-month" {
      offers := offers + [OfferTexts[0]];
    }
    assert offers == Appended(r, 1, OfferTexts);
    if r.tenure < 12 {
      offers := offers + [OfferTexts[1]];
    }
    assert offers == Appended(r, 2, OfferTexts);
    if r.techSupport == "No" {
      offers := offers + [OfferTexts[2]];
    }
    assert offers == Appended(r, 3, OfferTexts);
    if r.onlineSecurity == "No" {
      offers := offers + [OfferTexts[3]];
    }
    assert offers == Appended(r, 4, OfferTexts);
    if r.monthlyCharges > 85.0 {
      offers := offers + [OfferTexts[4]];
    }
    assert offers == Appended(r, 5, OfferTexts);
    if r.internetService == "Fiber optic" {
      offers := offers + [OfferTexts[5]];
    }
    assert offers == Appended(r, 6, OfferTexts);
    if r.paymentMethod == "Electronic check" {
      offers := offers + [OfferTexts[6]];
    }
    assert offers == Appended(r, 7, OfferTexts);
    if r.paperlessBilling == "Yes" {
      offers := offers + [OfferTexts[7]];
    }
  }

  /** No two rules share a driver text, and no two share an offer text. */
  lemma TextsDistinct()
    ensures |DriverTexts| == |OfferTexts| == RuleCount
    ensures forall k, l :: 0 <= k < l < RuleCount ==> DriverTexts[k] != DriverTexts[l]
    ensures forall k, l :: 0 <= k < l < RuleCount ==> OfferTexts[k] != OfferTexts[l]
  {
  }

  /** The two lists are aligned: as long as each other, and the i-th offer is
      the offer of the rule whose driver is the i-th driver. */
  lemma DriversAndOffersAligned(r: Record)
    ensures InRange(Fired(r), DriverTexts) && InRange(Fired(r), OfferTexts)
    ensures |Select(Fired(r), DriverTexts)| == |Select(Fired(r), OfferTexts)|
    ensures forall i, k :: 0 <= i < |Fired(r)| && 0 <= k < RuleCount && Select(Fired(r), DriverTexts)[i] == DriverTexts[k] ==>
      RuleHolds(k, r) && Select(Fired(r), OfferTexts)[i] == OfferTexts[k]
  {
    FiredSpec(r);
    TextsDistinct();
    forall i, k | 0 <= i < |Fired(r)| && 0 <= k < RuleCount && Select(Fired(r), DriverTexts)[i] == DriverTexts[k]
      ensures RuleHolds(k, r) && Select(Fired(r), OfferTexts)[i] == OfferTexts[k]
    {
      var l := Fired(r)[i];
      assert l in Fired(r);
      assert DriverTexts[l] == DriverTexts[k];
    }
  }

  /** The tenure threshold is strict: a customer of exactly twelve months is
      not a new user, one of eleven months is. */
  lemma TenureThresholdIsStrict(r: Record)
    ensures r.tenure == 12 ==> 1 !in Fired(r)
    ensures r.tenure == 11 ==> 1 in Fired(r)
  {
    FiredSpec(r);
  }

  /** The charge threshold is strict: exactly 85.0 a month is not high, any
      amount above it is. */
  lemma ChargeThresholdIsStrict(r: Record)
    ensures r.monthlyCharges == 85.0 ==> 4 !in Fired(r)
    ensures r.monthlyCharges > 85.0 ==> 4 in Fired(r)
  {
    FiredSpec(r);
  }

  /** Answers are matched exactly: the contract rule fires for the spelling
      "Month-to-month" and for no other, so a differently spelt contract such
      as "month-to-month" does not fire it. */
  lemma ContractMatchIsExact(r: Record)
    ensures 0 in Fired(r) <==> r.contract == "Month-to-month"
    ensures r.contract == "month-to-month" ==> 0 !in Fired(r)
  {
    FiredSpec(r);
  }

  /** A customer on every risky answer gets all eight drivers and all eight
      offers, in rule order. */
  lemma AllRulesFire(r: Record)
    requires r.contract == "Month-to-month" && r.tenure < 12 && r.techSupport == "No"
    requires r.onlineSecurity == "No" && r.monthlyCharges > 85.0 && r.internetService == "Fiber optic"
    requires r.paymentMethod == "Electronic check" && r.paperlessBilling == "Yes"
    ensures Fired(r) == [0, 1, 2, 3, 4, 5, 6, 7]
    ensures InRange(Fired(r), DriverTexts) && InRange(Fired(r), OfferTexts)
    ensures Select(Fired(r), DriverTexts) == DriverTexts
    ensures Select(Fired(r), OfferTexts) == OfferTexts
  {
    forall k: nat | k < RuleCount ensures RuleHolds(k, r) {
    }
    AllHoldUpTo(r, RuleCount);
  }

  /** When each of the first n rules holds, all of them fire, in order. */
  lemma {:induction false} AllHoldUpTo(r: Record, n: nat)
    requires n <= RuleCount
    requires forall k: nat :: k < n ==> RuleHolds(k, r)
    ensures FiredUpTo(r, n) == seq(n, k => k)
  {
    if n > 0 {
      AllHoldUpTo(r, n - 1);
    }
  }

  /** A customer meeting none of the eight conditions gets no driver and no
      offer. */
  lemma NoRuleFires(r: Record)
    requires r.contract != "Month-to-month" && r.tenure >= 12 && r.techSupport != "No"
    requires r.onlineSecurity != "No" && r.monthlyCharges <= 85.0 && r.internetService != "Fiber optic"
    requires r.paymentMethod != "Electronic check" && r.paperlessBilling != "Yes"
    ensures Fired(r) == []
    ensures InRange(Fired(r), DriverTexts) && InRange(Fired(r), OfferTexts)
    ensures Select(Fired(r), DriverTexts) == [] && Select(Fired(r), OfferTexts) == []
  {
    FiredSpec(r);
  }
}
