/**
  The routed eligibility page (`pages/EligibilityChecker.tsx`). It refuses to
  check anything until the name and the age are filled in, then evaluates every
  scheme of its five-scheme catalogue. Age is checked for every scheme; the other
  criteria are checked only when the farmer answered them, a land size or income
  that does not parse is ignored, and the bank account and Kisan Credit Card
  criteria fail only on an explicit "no".
 */
module LenientEligibility {
  import opened Optional
  import opened Text
  import opened NumParse
  import opened Lists
  import opened EligibilityForm

  /** A scheme of this page: an inclusive age range plus optional criteria. */
  datatype Scheme = Scheme(name: string, minAge: int, maxAge: int, req: Requirements)

  /** The page's per-scheme answer; `ageEligible` is reported separately from
      `isEligible` and feeds the "age-eligible" count. */
  datatype SchemeResult = SchemeResult(
    schemeName: string,
    isEligible: bool,
    missingCriteria: seq<Reason>,
    ageEligible: bool)

  const Owned := "owned"

  const Catalogue: seq<Scheme> := [
    Scheme("PM-KISAN Samman Nidhi", 18, 75,
      Requirements(Some(5.0), Some(Owned), Some(200000.0), None, true, false)),
    Scheme("Pradhan Mantri Kisan Maan Dhan Yojana", 18, 40,
      Requirements(Some(2.0), Some(Owned), None, None, true, false)),
    Scheme("PM Kisan Credit Card", 18, 75,
      Requirements(None, Some(Owned), None, None, true, false)),
    Scheme("Pradhan Mantri Fasal Bima Yojana", 18, 70,
      Requirements(None, None, None, Some(["seasonal", "perennial"]), true, true)),
    Scheme("Soil Health Card Scheme", 18, 80,
      Requirements(None, Some(Owned), None, Some(["seasonal", "perennial", "organic"]), false, false))
  ]

  /** The page reports reasons in the order age, land, ownership, income,
      farming type, bank account, Kisan Credit Card. */
  function Rank(r: Reason): nat
  {
    match r
    case AgeOutOfRange(_, _) => 0
    case LandTooLarge(_) => 1
    case OwnershipRequired(_) => 2
    case IncomeTooHigh(_) => 3
    case FarmingTypeRequired(_) => 4
    case BankAccountRequired => 5
    case KisanCardRequired => 6
  }

  /** The criteria a scheme fails for a form whose numbers read as `n`, stated
      one reason at a time. A JavaScript comparison with `NaN` is false, so an
      age or amount that does not parse violates nothing. */
  predicate ViolatedGiven(s: Scheme, f: Form, n: Numbers, x: Reason)
  {
    match x
    case AgeOutOfRange(lo, hi) =>
      lo == s.minAge && hi == s.maxAge && n.age.Some? && !(lo <= n.age.value <= hi)
    case LandTooLarge(m) =>
      s.req.landMax == Some(m) && n.land.Some? && n.land.value > m
    case OwnershipRequired(o) =>
      s.req.ownership == Some(o) && f.landOwnership != "" && f.landOwnership != o
    case IncomeTooHigh(m) =>
      s.req.incomeMax == Some(m) && n.income.Some? && n.income.value > m
    case FarmingTypeRequired(ts) =>
      s.req.farmingTypes == Some(ts) && f.farmingType != "" && f.farmingType !in ts
    case BankAccountRequired => s.req.bankAccount && f.bankAccount == "no"
    case KisanCardRequired => s.req.kisanCard && f.hasKisanCard == "no"
  }

  /** The criteria a scheme fails for a form. */
  predicate Violated(s: Scheme, f: Form, x: Reason)
  {
    ViolatedGiven(s, f, ReadNumbers(f), x)
  }

  /** The page's numeric guard: checked only for a non-empty answer, and only
      when the answer parses (`!isNaN`). */
  predicate Exceeds(bound: Option<real>, answer: string, v: Option<real>)
  {
    bound.Some? && answer != "" && v.Some? && v.value > bound.value
  }

  predicate AgeFails(s: Scheme, n: Numbers)
  {
    n.age.Some? && (n.age.value < s.minAge || n.age.value > s.maxAge)
  }

  predicate OwnershipFails(s: Scheme, f: Form)
  {
    s.req.ownership.Some? && f.landOwnership != "" && f.landOwnership != s.req.ownership.value
  }

  predicate FarmingTypeFails(s: Scheme, f: Form)
  {
    s.req.farmingTypes.Some? && f.farmingType != "" && f.farmingType !in s.req.farmingTypes.value
  }

  /** The page's criteria in the order it checks them: whether criterion `k`
      fails ... */
  predicate Fails(s: Scheme, f: Form, n: Numbers, k: nat)
  {
    if k == 0 then AgeFails(s, n)
    else if k == 1 then Exceeds(s.req.landMax, f.landSize, n.land)
    else if k == 2 then OwnershipFails(s, f)
    else if k == 3 then Exceeds(s.req.incomeMax, f.annualIncome, n.income)
    else if k == 4 then FarmingTypeFails(s, f)
    else if k == 5 then s.req.bankAccount && f.bankAccount == "no"
    else if k == 6 then s.req.kisanCard && f.hasKisanCard == "no"
    else false
  }

  /** ... and the reason it pushes then. */
  function ReasonAt(s: Scheme, k: nat): Reason
  {
    if k == 0 then AgeOutOfRange(s.minAge, s.maxAge)
    else if k == 1 then LandTooLarge(s.req.landMax.GetOr(0.0))
    else if k == 2 then OwnershipRequired(s.req.ownership.GetOr(""))
    else if k == 3 then IncomeTooHigh(s.req.incomeMax.GetOr(0.0))
    else if k == 4 then FarmingTypeRequired(s.req.farmingTypes.GetOr([]))
    else if k == 5 then BankAccountRequired
    else KisanCardRequired
  }

  const CriteriaCount := 7

  /** The reasons pushed by the page, one `if` after another. */
  function Missing(s: Scheme, f: Form, n: Numbers): seq<Reason>
  {
    Pushes((k: nat) => Fails(s, f, n, k), (k: nat) => ReasonAt(s, k), CriteriaCount)
  }

  /** The page's `isEligible` flag: set, then cleared by every failing check. */
  predicate Passes(s: Scheme, f: Form, n: Numbers)
  {
    !AgeFails(s, n) && !Exceeds(s.req.landMax, f.landSize, n.land) && !OwnershipFails(s, f)
    && !Exceeds(s.req.incomeMax, f.annualIncome, n.income) && !FarmingTypeFails(s, f)
    && !(s.req.bankAccount && f.bankAccount == "no") && !(s.req.kisanCard && f.hasKisanCard == "no")
  }

  lemma PassesAll(s: Scheme, f: Form, n: Numbers)
    ensures Passes(s, f, n) <==> forall k :: 0 <= k < CriteriaCount ==> !Fails(s, f, n, k)
  {
    if !Passes(s, f, n) {
      assert exists k :: 0 <= k < CriteriaCount && Fails(s, f, n, k) by {
        if AgeFails(s, n) { assert Fails(s, f, n, 0); }
        else if Exceeds(s.req.landMax, f.landSize, n.land) { assert Fails(s, f, n, 1); }
        else if OwnershipFails(s, f) { assert Fails(s, f, n, 2); }
        else if Exceeds(s.req.incomeMax, f.annualIncome, n.income) { assert Fails(s, f, n, 3); }
        else if FarmingTypeFails(s, f) { assert Fails(s, f, n, 4); }
        else if s.req.bankAccount && f.bankAccount == "no" { assert Fails(s, f, n, 5); }
        else { assert Fails(s, f, n, 6); }
      }
    }
  }

  /** One scheme evaluated against the form, as the page's `schemes.map`
      callback does it: the flag `isEligible` is cleared alongside every push. */
  function Evaluate(s: Scheme, f: Form): (r: SchemeResult)
    ensures r.schemeName == s.name
    ensures r.isEligible <==> r.missingCriteria == []
    ensures r.ageEligible <==> ParseInt(f.age).Some? && s.minAge <= ParseInt(f.age).value <= s.maxAge
  {
    var n := ReadNumbers(f);
    PassesAll(s, f, n);
    SchemeResult(
      s.name,
      Passes(s, f, n),
      Missing(s, f, n),
      n.age.Some? && n.age.value >= s.minAge && n.age.value <= s.maxAge)
  }

  /** Each reason is violated exactly when the criterion of its rank fails
      and it is the reason that criterion pushes. */
  lemma CriteriaMatchReasons(s: Scheme, f: Form, n: Numbers)
    requires f.landSize == "" ==> n.land == None
    requires f.annualIncome == "" ==> n.income == None
    ensures forall k :: 0 <= k < CriteriaCount ==> Rank(ReasonAt(s, k)) == k
    ensures forall y :: Rank(y) < CriteriaCount ==>
      (ViolatedGiven(s, f, n, y) <==> Fails(s, f, n, Rank(y)) && y == ReasonAt(s, Rank(y)))
  {
  }

  /** The pushes produce the violated criteria, in rank order, for any numbers
      that are `NaN` for empty answers. */
  lemma MissingMatchesViolations(s: Scheme, f: Form, n: Numbers)
    requires f.landSize == "" ==> n.land == None
    requires f.annualIncome == "" ==> n.income == None
    ensures RankedBy(Missing(s, f, n), Rank)
    ensures forall x :: x in Missing(s, f, n) <==> ViolatedGiven(s, f, n, x)
  {
    CriteriaMatchReasons(s, f, n);
    PushesExact((k: nat) => Fails(s, f, n, k), (k: nat) => ReasonAt(s, k), Rank, y => ViolatedGiven(s, f, n, y), CriteriaCount);
  }

  /** Monotonic tightening on the form's side: a parsed land size above the
      bound that is replaced by one within it removes exactly the land
      reason, and no other reason changes. */
  lemma LandNowWithinBound(s: Scheme, f: Form, n: Numbers, v: real)
    requires f.landSize == "" ==> n.land == None
    requires f.annualIncome == "" ==> n.income == None
    requires s.req.landMax.Some? && n.land.Some? && n.land.value > s.req.landMax.value
    requires v <= s.req.landMax.value
    ensures LandTooLarge(s.req.landMax.value) in Missing(s, f, n)
    ensures LandTooLarge(s.req.landMax.value) !in Missing(s, f, n.(land := Some(v)))
    ensures forall x :: x in Missing(s, f, n.(land := Some(v))) <==> x in Missing(s, f, n) && !x.LandTooLarge?
  {
    MissingMatchesViolations(s, f, n);
    MissingMatchesViolations(s, f, n.(land := Some(v)));
  }

  /** The same for the income bound: meeting it removes exactly the income reason. */
  lemma IncomeNowWithinBound(s: Scheme, f: Form, n: Numbers, v: real)
    requires f.landSize == "" ==> n.land == None
    requires f.annualIncome == "" ==> n.income == None
    requires s.req.incomeMax.Some? && n.income.Some? && n.income.value > s.req.incomeMax.value
    requires v <= s.req.incomeMax.value
    ensures IncomeTooHigh(s.req.incomeMax.value) in Missing(s, f, n)
    ensures IncomeTooHigh(s.req.incomeMax.value) !in Missing(s, f, n.(income := Some(v)))
    ensures forall x :: x in Missing(s, f, n.(income := Some(v))) <==> x in Missing(s, f, n) && !x.IncomeTooHigh?
  {
    MissingMatchesViolations(s, f, n);
    MissingMatchesViolations(s, f, n.(income := Some(v)));
  }

  /** The reasons reported are exactly the violated criteria, each once, in
      the order age, land, ownership, income, farming type, bank, card. */
  lemma ReasonsMatchViolations(s: Scheme, f: Form)
    ensures RankedBy(Evaluate(s, f).missingCriteria, Rank)
    ensures forall x :: x in Evaluate(s, f).missingCriteria <==> Violated(s, f, x)
  {
    MissingMatchesViolations(s, f, ReadNumbers(f));
  }

  /** The results for a list of schemes, one per scheme, in order. */
  function EvaluateAll(schemes: seq<Scheme>, f: Form): (rs: seq<SchemeResult>)
    ensures |rs| == |schemes|
    ensures forall i :: 0 <= i < |rs| ==> rs[i] == Evaluate(schemes[i], f)
  {
    if schemes == [] then [] else [Evaluate(schemes[0], f)] + EvaluateAll(schemes[1..], f)
  }

  /** The "Check Eligibility" action: `None` when the name or the age is empty
      (only a warning is shown, no evaluation happens); otherwise one result per
      catalogue scheme, in catalogue order, each echoing the scheme's name. */
  function Check(f: Form): (r: Option<seq<SchemeResult>>)
    ensures r == None <==> f.name == "" || f.age == ""
    ensures r.Some? ==> |r.value| == |Catalogue|
    ensures r.Some? ==> forall i :: 0 <= i < |Catalogue| ==>
      r.value[i].schemeName == Catalogue[i].name && r.value[i] == Evaluate(Catalogue[i], f)
  {
    if f.age == "" || f.name == "" then None else Some(EvaluateAll(Catalogue, f))
  }

  function EligibleCount(rs: seq<SchemeResult>): nat
  {
    Count(rs, (r: SchemeResult) => r.isEligible)
  }

  function AgeEligibleCount(rs: seq<SchemeResult>): nat
  {
    Count(rs, (r: SchemeResult) => r.ageEligible)
  }

  /** The reason list is the only list the page could report: the failing
      criteria, each once, in the fixed order. */
  lemma ReasonsDetermined(s: Scheme, f: Form, rs: seq<Reason>)
    requires RankedBy(rs, Rank)
    requires forall x :: x in rs <==> Violated(s, f, x)
    ensures Evaluate(s, f).missingCriteria == rs
  {
    ReasonsMatchViolations(s, f);
    RankedListsEqual(Evaluate(s, f).missingCriteria, rs, Rank);
  }

  /** Answers left blank are never held against the farmer: with only the age
      answered, a scheme is fully eligible exactly when it is age-eligible. */
  lemma BlankAnswersLeaveOnlyAge(s: Scheme, f: Form)
    requires ParseInt(f.age).Some?
    requires f.landSize == "" && f.landOwnership == "" && f.annualIncome == ""
    requires f.farmingType == "" && f.bankAccount == "" && f.hasKisanCard == ""
    ensures Evaluate(s, f).isEligible == Evaluate(s, f).ageEligible
  {
    var r := Evaluate(s, f);
    ReasonsMatchViolations(s, f);
    if !r.ageEligible {
      assert Violated(s, f, AgeOutOfRange(s.minAge, s.maxAge));
    }
  }

  /** Once the age parses, a fully eligible scheme is always age-eligible. */
  lemma EligibleImpliesAgeEligible(s: Scheme, f: Form)
    requires ParseInt(f.age).Some?
    ensures Evaluate(s, f).isEligible ==> Evaluate(s, f).ageEligible
  {
    if !Evaluate(s, f).ageEligible {
      ReasonsMatchViolations(s, f);
      assert Violated(s, f, AgeOutOfRange(s.minAge, s.maxAge));
    }
  }

  /** The completion message's counts: with a parsed age, the fully eligible
      count never exceeds the age-eligible count. */
  lemma EligibleCountBounded(f: Form)
    requires f.name != "" && ParseInt(f.age).Some?
    ensures Check(f).Some?
    ensures EligibleCount(Check(f).value) <= AgeEligibleCount(Check(f).value)
  {
    assert f.age != "" by {
      if f.age == "" { BlankIsNaN(f.age); }
    }
    var rs := Check(f).value;
    forall i | 0 <= i < |rs|
      ensures rs[i].isEligible ==> rs[i].ageEligible
    {
      EligibleImpliesAgeEligible(Catalogue[i], f);
    }
    CountMonotonic(rs, (r: SchemeResult) => r.isEligible, (r: SchemeResult) => r.ageEligible);
  }

  /** An age that does not parse ("abc") adds no age reason, yet the scheme is
      not age-eligible: without a parsed age, "eligible implies age-eligible"
      fails. */
  lemma UnparsedAgeCounterexample()
    ensures var f := BlankForm.(name := "Ravi", age := "abc");
      Evaluate(Catalogue[0], f).isEligible && !Evaluate(Catalogue[0], f).ageEligible
  {
    var f := BlankForm.(name := "Ravi", age := "abc");
    assert !IsWhitespace(f.age[0]);
    assert TrimStart(f.age) == f.age;
    assert LeadingDigits(f.age) == [];
    assert ParseInt(f.age) == None;
  }
}
