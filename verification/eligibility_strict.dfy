/**
  The embedded eligibility checker (`components/EligibilityChecker.tsx`). Its
  four-scheme catalogue declares only some criteria per scheme, and every
  declared criterion must be met: an amount or age that is missing or does not
  parse fails, and the bank account and Kisan Credit Card criteria pass only on
  an explicit "yes".
 */
module StrictEligibility {
  import opened Optional
  import opened NumParse
  import opened Lists
  import opened EligibilityForm

  datatype AgeRange = AgeRange(min: int, max: int)

  /** A scheme of this component: an optional inclusive age range plus optional criteria. */
  datatype Scheme = Scheme(name: string, age: Option<AgeRange>, req: Requirements)

  datatype SchemeResult = SchemeResult(schemeName: string, isEligible: bool, missingCriteria: seq<Reason>)

  const Owned := "owned"
  const Yes := "yes"

  const Catalogue: seq<Scheme> := [
    Scheme("PM-KISAN Samman Nidhi", None,
      Requirements(Some(5.0), Some(Owned), Some(200000.0), None, true, false)),
    Scheme("Pradhan Mantri Fasal Bima Yojana", None,
      Requirements(None, None, None, Some(["seasonal", "perennial"]), true, true)),
    Scheme("Soil Health Card Scheme", None,
      Requirements(None, Some(Owned), None, Some(["seasonal", "perennial", "organic"]), false, false)),
    Scheme("PM Kisan Credit Card", Some(AgeRange(18, 75)),
      Requirements(None, Some(Owned), None, None, true, false))
  ]

  /** The component reports reasons in the order land, ownership, income,
      farming type, age, bank account, Kisan Credit Card. */
  function Rank(r: Reason): nat
  {
    match r
    case LandTooLarge(_) => 0
    case OwnershipRequired(_) => 1
    case IncomeTooHigh(_) => 2
    case FarmingTypeRequired(_) => 3
    case AgeOutOfRange(_, _) => 4
    case BankAccountRequired => 5
    case KisanCardRequired => 6
  }

  /** The declared criteria a scheme fails for a form whose numbers read as
      `n`, one reason at a time. A missing number fails its criterion. */
  predicate ViolatedGiven(s: Scheme, f: Form, n: Numbers, x: Reason)
  {
    match x
    case LandTooLarge(m) =>
      s.req.landMax == Some(m) && (n.land == None || n.land.value > m)
    case OwnershipRequired(o) =>
      s.req.ownership == Some(o) && f.landOwnership != o
    case IncomeTooHigh(m) =>
      s.req.incomeMax == Some(m) && (n.income == None || n.income.value > m)
    case FarmingTypeRequired(ts) =>
      s.req.farmingTypes == Some(ts) && f.farmingType !in ts
    case AgeOutOfRange(lo, hi) =>
      s.age == Some(AgeRange(lo, hi)) && (n.age == None || !(lo <= n.age.value <= hi))
    case BankAccountRequired => s.req.bankAccount && f.bankAccount != Yes
    case KisanCardRequired => s.req.kisanCard && f.hasKisanCard != Yes
  }

  /** The declared criteria a scheme fails for a form. */
  predicate Violated(s: Scheme, f: Form, x: Reason)
  {
    ViolatedGiven(s, f, ReadNumbers(f), x)
  }

  /** A declared maximum is failed by a number that is `NaN` or above it. */
  predicate Above(bound: Option<real>, v: Option<real>)
  {
    bound.Some? && (v.None? || v.value > bound.value)
  }

  predicate AgeFails(s: Scheme, n: Numbers)
  {
    s.age.Some? && (n.age.None? || n.age.value < s.age.value.min || n.age.value > s.age.value.max)
  }

  /** Whether criterion `k`, in the component's order, fails ... */
  predicate Fails(s: Scheme, f: Form, n: Numbers, k: nat)
  {
    if k == 0 then Above(s.req.landMax, n.land)
    else if k == 1 then s.req.ownership.Some? && f.landOwnership != s.req.ownership.value
    else if k == 2 then Above(s.req.incomeMax, n.income)
    else if k == 3 then s.req.farmingTypes.Some? && f.farmingType !in s.req.farmingTypes.value
    else if k == 4 then AgeFails(s, n)
    else if k == 5 then s.req.bankAccount && f.bankAccount != Yes
    else if k == 6 then s.req.kisanCard && f.hasKisanCard != Yes
    else false
  }

  /** ... and the reason it pushes then. */
  function ReasonAt(s: Scheme, k: nat): Reason
  {
    if k == 0 then LandTooLarge(s.req.landMax.GetOr(0.0))
    else if k == 1 then OwnershipRequired(s.req.ownership.GetOr(""))
    else if k == 2 then IncomeTooHigh(s.req.incomeMax.GetOr(0.0))
    else if k == 3 then FarmingTypeRequired(s.req.farmingTypes.GetOr([]))
    else if k == 4 then AgeOutOfRange(s.age.GetOr(AgeRange(0, 0)).min, s.age.GetOr(AgeRange(0, 0)).max)
    else if k == 5 then BankAccountRequired
    else KisanCardRequired
  }

  const CriteriaCount := 7

  /** The `isEligible` flag: set, then cleared by every failing check. */
  predicate Passes(s: Scheme, f: Form, n: Numbers)
  {
    !Above(s.req.landMax, n.land)
    && !(s.req.ownership.Some? && f.landOwnership != s.req.ownership.value)
    && !Above(s.req.incomeMax, n.income)
    && !(s.req.farmingTypes.Some? && f.farmingType !in s.req.farmingTypes.value)
    && !AgeFails(s, n)
    && !(s.req.bankAccount && f.bankAccount != Yes) && !(s.req.kisanCard && f.hasKisanCard != Yes)
  }

  lemma PassesAll(s: Scheme, f: Form, n: Numbers)
    ensures Passes(s, f, n) <==> forall k :: 0 <= k < CriteriaCount ==> !Fails(s, f, n, k)
  {
    if !Passes(s, f, n) {
      assert exists k :: 0 <= k < CriteriaCount && Fails(s, f, n, k) by {
        if Above(s.req.landMax, n.land) { assert Fails(s, f, n, 0); }
        else if s.req.ownership.Some? && f.landOwnership != s.req.ownership.value { assert Fails(s, f, n, 1); }
        else if Above(s.req.incomeMax, n.income) { assert Fails(s, f, n, 2); }
        else if s.req.farmingTypes.Some? && f.farmingType !in s.req.farmingTypes.value { assert Fails(s, f, n, 3); }
        else if AgeFails(s, n) { assert Fails(s, f, n, 4); }
        else if s.req.bankAccount && f.bankAccount != Yes { assert Fails(s, f, n, 5); }
        else { assert Fails(s, f, n, 6); }
      }
    }
  }

  /** The reasons pushed by the component, one `if` after another. */
  function Missing(s: Scheme, f: Form, n: Numbers): seq<Reason>
  {
    Pushes((k: nat) => Fails(s, f, n, k), (k: nat) => ReasonAt(s, k), CriteriaCount)
  }

  /** One scheme evaluated against the form, as the `schemes.map` callback does it. */
  function Evaluate(s: Scheme, f: Form): (r: SchemeResult)
    ensures r.schemeName == s.name
    ensures r.isEligible <==> r.missingCriteria == []
  {
    var n := ReadNumbers(f);
    PassesAll(s, f, n);
    SchemeResult(s.name, Passes(s, f, n), Missing(s, f, n))
  }

  /** Each reason is violated exactly when the criterion of its rank fails
      and it is the reason that criterion pushes. */
  lemma CriteriaMatchReasons(s: Scheme, f: Form, n: Numbers)
    ensures forall k :: 0 <= k < CriteriaCount ==> Rank(ReasonAt(s, k)) == k
    ensures forall y :: Rank(y) < CriteriaCount ==>
      (ViolatedGiven(s, f, n, y) <==> Fails(s, f, n, Rank(y)) && y == ReasonAt(s, Rank(y)))
  {
  }

  /** The pushes produce the violated criteria in rank order, whatever numbers were read. */
  lemma MissingMatchesViolations(s: Scheme, f: Form, n: Numbers)
    ensures RankedBy(Missing(s, f, n), Rank)
    ensures forall x :: x in Missing(s, f, n) <==> ViolatedGiven(s, f, n, x)
  {
    CriteriaMatchReasons(s, f, n);
    PushesExact((k: nat) => Fails(s, f, n, k), (k: nat) => ReasonAt(s, k), Rank, y => ViolatedGiven(s, f, n, y), CriteriaCount);
  }

  /** Monotonic tightening on the form's side: a land size that failed the
      declared bound (too large, or not a number) and now lies within it
      removes exactly the land reason, and no other reason changes. */
  lemma LandNowWithinBound(s: Scheme, f: Form, n: Numbers, v: real)
    requires s.req.landMax.Some? && Above(s.req.landMax, n.land) && v <= s.req.landMax.value
    ensures LandTooLarge(s.req.landMax.value) in Missing(s, f, n)
    ensures LandTooLarge(s.req.landMax.value) !in Missing(s, f, n.(land := Some(v)))
    ensures forall x :: x in Missing(s, f, n.(land := Some(v))) <==> x in Missing(s, f, n) && !x.LandTooLarge?
  {
    MissingMatchesViolations(s, f, n);
    MissingMatchesViolations(s, f, n.(land := Some(v)));
  }

  /** The same for the income bound: meeting it removes exactly the income reason. */
  lemma IncomeNowWithinBound(s: Scheme, f: Form, n: Numbers, v: real)
    requires s.req.incomeMax.Some? && Above(s.req.incomeMax, n.income) && v <= s.req.incomeMax.value
    ensures IncomeTooHigh(s.req.incomeMax.value) in Missing(s, f, n)
    ensures IncomeTooHigh(s.req.incomeMax.value) !in Missing(s, f, n.(income := Some(v)))
    ensures forall x :: x in Missing(s, f, n.(income := Some(v))) <==> x in Missing(s, f, n) && !x.IncomeTooHigh?
  {
    MissingMatchesViolations(s, f, n);
    MissingMatchesViolations(s, f, n.(income := Some(v)));
  }

  /** The reasons reported are exactly the violated declared criteria, each
      once, in the order land, ownership, income, farming type, age, bank, card. */
  lemma ReasonsMatchViolations(s: Scheme, f: Form)
    ensures RankedBy(Evaluate(s, f).missingCriteria, Rank)
    ensures forall x :: x in Evaluate(s, f).missingCriteria <==> Violated(s, f, x)
  {
    MissingMatchesViolations(s, f, ReadNumbers(f));
  }

  /** The reason list is the only list the component could report. */
  lemma ReasonsDetermined(s: Scheme, f: Form, rs: seq<Reason>)
    requires RankedBy(rs, Rank)
    requires forall x :: x in rs <==> Violated(s, f, x)
    ensures Evaluate(s, f).missingCriteria == rs
  {
    ReasonsMatchViolations(s, f);
    RankedListsEqual(Evaluate(s, f).missingCriteria, rs, Rank);
  }

  /** The results for a list of schemes, one per scheme, in order. */
  function EvaluateAll(schemes: seq<Scheme>, f: Form): (rs: seq<SchemeResult>)
    ensures |rs| == |schemes|
    ensures forall i :: 0 <= i < |rs| ==> rs[i] == Evaluate(schemes[i], f)
  {
    if schemes == [] then [] else [Evaluate(schemes[0], f)] + EvaluateAll(schemes[1..], f)
  }

  /** The "Check Eligibility" action: one result per catalogue scheme, in
      catalogue order; there is no required field. */
  function Check(f: Form): (rs: seq<SchemeResult>)
    ensures |rs| == |Catalogue|
    ensures forall i :: 0 <= i < |Catalogue| ==> rs[i].schemeName == Catalogue[i].name && rs[i] == Evaluate(Catalogue[i], f)
  {
    EvaluateAll(Catalogue, f)
  }

  /** The count in the completion message. */
  function EligibleCount(rs: seq<SchemeResult>): nat
  {
    Count(rs, (r: SchemeResult) => r.isEligible)
  }

  /** A scheme that declares no criterion accepts every form. */
  lemma NoCriteriaAcceptsAll(s: Scheme, f: Form)
    requires s.age == None
    requires s.req == Requirements(None, None, None, None, false, false)
    ensures Evaluate(s, f).isEligible && Evaluate(s, f).missingCriteria == []
  {
  }

  /** When every scheme rejects the form, the completion message counts none. */
  lemma NoneEligible(schemes: seq<Scheme>, f: Form)
    requires forall s :: s in schemes ==> !Evaluate(s, f).isEligible
    ensures EligibleCount(EvaluateAll(schemes, f)) == 0
  {
    var rs := EvaluateAll(schemes, f);
    forall i | 0 <= i < |rs|
      ensures !rs[i].isEligible
    {
      assert schemes[i] in schemes;
    }
  }

  /** A declared bank account or ownership criterion left unanswered fails. */
  lemma UnansweredFails(s: Scheme, f: Form)
    requires (s.req.bankAccount && f.bankAccount == "") || (s.req.ownership == Some(Owned) && f.landOwnership == "")
    ensures !Evaluate(s, f).isEligible
  {
  }

  /** Every scheme of the catalogue declares a bank account or an ownership
      criterion, so a form that answers neither (the untouched form, say) is
      eligible for nothing. */
  lemma UnansweredEligibleForNone(f: Form)
    requires f.bankAccount == "" && f.landOwnership == ""
    ensures EligibleCount(Check(f)) == 0
  {
    forall s | s in Catalogue
      ensures !Evaluate(s, f).isEligible
    {
      UnansweredFails(s, f);
    }
    NoneEligible(Catalogue, f);
  }

  /** The form as first shown, with nothing filled in, qualifies for none of the four schemes. */
  lemma BlankFormEligibleForNone()
    ensures EligibleCount(Check(BlankForm)) == 0
  {
    UnansweredEligibleForNone(BlankForm);
  }

  /** Answering "yes" is the only way to meet the bank account criterion:
      where the scheme requires an account, any other answer is ineligible. */
  lemma BankAccountNeedsYes(s: Scheme, f: Form, answer: string)
    requires s.req.bankAccount
    ensures !Evaluate(s, f.(bankAccount := answer)).isEligible || answer == Yes
  {
    if answer != Yes {
      ReasonsMatchViolations(s, f.(bankAccount := answer));
      assert Violated(s, f.(bankAccount := answer), BankAccountRequired);
    }
  }

  /** The scheme `s` with the Kisan Credit Card criterion declared as well. */
  function Tightened(s: Scheme): Scheme
  {
    s.(req := s.req.(kisanCard := true))
  }

  /** Tightening adds exactly the card criterion to the violated ones. */
  lemma TightenedViolations(s: Scheme, f: Form, n: Numbers, x: Reason)
    requires !s.req.kisanCard
    ensures ViolatedGiven(Tightened(s), f, n, x) <==>
      ViolatedGiven(s, f, n, x) || (x == KisanCardRequired && f.hasKisanCard != Yes)
  {
  }

  /** Declaring one more criterion (tightening) never turns an ineligible
      verdict into an eligible one: the reasons of the looser scheme are
      still reported, and the only reason that can be added is the card. */
  lemma TighteningKeepsReasons(s: Scheme, f: Form)
    requires !s.req.kisanCard
    ensures forall x :: x in Evaluate(s, f).missingCriteria ==> x in Evaluate(Tightened(s), f).missingCriteria
    ensures forall x :: x in Evaluate(Tightened(s), f).missingCriteria ==>
      x in Evaluate(s, f).missingCriteria || x == KisanCardRequired
    ensures KisanCardRequired in Evaluate(Tightened(s), f).missingCriteria <==> f.hasKisanCard != Yes
  {
    ReasonsMatchViolations(s, f);
    ReasonsMatchViolations(Tightened(s), f);
    TightenedLists(s, f, ReadNumbers(f), Evaluate(s, f).missingCriteria, Evaluate(Tightened(s), f).missingCriteria);
  }

  /** Tightening at the level of any two lists holding exactly the violations. */
  lemma TightenedLists(s: Scheme, f: Form, n: Numbers, rs: seq<Reason>, rt: seq<Reason>)
    requires !s.req.kisanCard
    requires forall x :: x in rs <==> ViolatedGiven(s, f, n, x)
    requires forall x :: x in rt <==> ViolatedGiven(Tightened(s), f, n, x)
    ensures forall x :: x in rs ==> x in rt
    ensures forall x :: x in rt ==> x in rs || x == KisanCardRequired
    ensures KisanCardRequired in rt <==> f.hasKisanCard != Yes
  {
    forall x
      ensures ViolatedGiven(Tightened(s), f, n, x) <==>
        ViolatedGiven(s, f, n, x) || (x == KisanCardRequired && f.hasKisanCard != Yes)
    {
      TightenedViolations(s, f, n, x);
    }
  }

}
