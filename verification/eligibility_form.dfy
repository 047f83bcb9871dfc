/**
  The data shared by the two eligibility checkers: the farmer's form (every
  field is the raw text of an input or select, "" when untouched), the
  requirements a scheme may declare, and the reasons a check can report.
 */
module EligibilityForm {
  import opened Optional
  import opened Text
  import opened NumParse

  datatype Form = Form(
    name: string,
    age: string,
    landSize: string,
    landOwnership: string,
    annualIncome: string,
    farmingType: string,
    state: string,
    hasKisanCard: string,
    bankAccount: string)

  /** The form as first shown: every field empty. */
  const BlankForm := Form("", "", "", "", "", "", "", "", "")

  /** The numbers read from the form: `parseInt` of the age, `parseFloat` of
      the land size and of the income (`None` for `NaN`). */
  datatype Numbers = Numbers(age: Option<int>, land: Option<real>, income: Option<real>)

  function ReadNumbers(f: Form): (n: Numbers)
    ensures n.age == ParseInt(f.age)
    ensures n.land == ParseFloat(f.landSize) && n.income == ParseFloat(f.annualIncome)
    ensures f.landSize == "" ==> n.land == None
    ensures f.annualIncome == "" ==> n.income == None
  {
    BlankIsNaN(f.landSize);
    BlankIsNaN(f.annualIncome);
    Numbers(ParseInt(f.age), ParseFloat(f.landSize), ParseFloat(f.annualIncome))
  }

  /** The optional criteria of a scheme; `None` / `false` means not declared. */
  datatype Requirements = Requirements(
    landMax: Option<real>,             // hectares
    ownership: Option<string>,
    incomeMax: Option<real>,           // rupees per year
    farmingTypes: Option<seq<string>>,
    bankAccount: bool,
    kisanCard: bool)

  /** One unmet criterion. The text shown for it is a rendering of these
      parameters and is not modelled. */
  datatype Reason =
    | AgeOutOfRange(min: int, max: int)
    | LandTooLarge(maxHectares: real)
    | OwnershipRequired(required: string)
    | IncomeTooHigh(maxIncome: real)
    | FarmingTypeRequired(allowed: seq<string>)
    | BankAccountRequired
    | KisanCardRequired

  /** The reasons appear in strictly increasing order of `rank`. */
  predicate RankedBy(rs: seq<Reason>, rank: Reason -> nat)
  {
    forall i, j :: 0 <= i < j < |rs| ==> rank(rs[i]) < rank(rs[j])
  }

  /** `missingCriteria.push(x)` when `cond` holds. */
  function PushIf(rs: seq<Reason>, cond: bool, x: Reason): (r: seq<Reason>)
    ensures forall y :: y in r <==> y in rs || (cond && y == x)
    ensures |r| == |rs| + (if cond then 1 else 0)
  {
    if cond then rs + [x] else rs
  }

  /** Ranked, and every rank is below `n`. */
  predicate RankedBelow(rs: seq<Reason>, rank: Reason -> nat, n: nat)
  {
    RankedBy(rs, rank) && forall i :: 0 <= i < |rs| ==> rank(rs[i]) < n
  }

  /** Pushing reasons in increasing rank keeps the list ranked, and a push
      guarded by exactly the violation of rank `n` extends a list holding the
      violations of lower rank to one holding those of rank up to `n`. */
  lemma PushIfExact(rs: seq<Reason>, cond: bool, x: Reason, rank: Reason -> nat, v: Reason -> bool, n: nat)
    requires RankedBelow(rs, rank, n) && rank(x) == n
    requires forall y :: y in rs <==> v(y) && rank(y) < n
    requires forall y :: rank(y) == n ==> (v(y) <==> cond && y == x)
    ensures RankedBelow(PushIf(rs, cond, x), rank, n + 1)
    ensures forall y :: y in PushIf(rs, cond, x) <==> v(y) && rank(y) < n + 1
  {
  }

  /** The reasons pushed by criteria `0 .. k-1`, checked in that order:
      criterion `j` pushes `reasonAt(j)` when `fails(j)`. */
  function Pushes(fails: nat -> bool, reasonAt: nat -> Reason, k: nat): (r: seq<Reason>)
    ensures r == [] <==> forall j :: 0 <= j < k ==> !fails(j)
  {
    if k == 0 then [] else PushIf(Pushes(fails, reasonAt, k - 1), fails(k - 1), reasonAt(k - 1))
  }

  /** When criterion `j` reports the reason of rank `j`, and a reason of rank
      below `k` is violated exactly when its criterion fails, the pushes of the
      first `k` criteria are the violated reasons of rank below `k`, in rank order. */
  lemma {:induction false} PushesExact(fails: nat -> bool, reasonAt: nat -> Reason, rank: Reason -> nat, v: Reason -> bool, k: nat)
    requires forall j :: 0 <= j < k ==> rank(reasonAt(j)) == j
    requires forall y :: rank(y) < k ==> (v(y) <==> fails(rank(y)) && y == reasonAt(rank(y)))
    ensures RankedBelow(Pushes(fails, reasonAt, k), rank, k)
    ensures forall y :: y in Pushes(fails, reasonAt, k) <==> v(y) && rank(y) < k
  {
    if k > 0 {
      PushesExact(fails, reasonAt, rank, v, k - 1);
      PushIfExact(Pushes(fails, reasonAt, k - 1), fails(k - 1), reasonAt(k - 1), rank, v, k - 1);
    }
  }

  /** The first reason of a ranked list has the smallest rank in it. */
  lemma HeadIsLeast(a: seq<Reason>, rank: Reason -> nat, x: Reason)
    requires RankedBy(a, rank) && x in a && x != a[0]
    ensures rank(a[0]) < rank(x) && x in a[1..]
  {
    var j :| 0 <= j < |a| && a[j] == x;
    assert j > 0;
    assert a[1..][j - 1] == x;
  }

  lemma BothEmptyOrNeither(a: seq<Reason>, b: seq<Reason>)
    requires forall x :: x in a <==> x in b
    ensures a == [] <==> b == []
  {
    if a != [] {
      assert a[0] in a;
    }
    if b != [] {
      assert b[0] in b;
    }
  }

  /** Two lists ordered strictly by the same rank and holding the same reasons
      are the same list: an evaluator's reason list is fully determined by which
      criteria fail and by the fixed reporting order. */
  lemma {:induction false} RankedListsEqual(a: seq<Reason>, b: seq<Reason>, rank: Reason -> nat)
    requires RankedBy(a, rank) && RankedBy(b, rank)
    requires forall x :: x in a <==> x in b
    ensures a == b
    decreases |a|
  {
    BothEmptyOrNeither(a, b);
    if a != [] {
      assert b[0] in a && a[0] in b;
      if a[0] != b[0] {
        HeadIsLeast(a, rank, b[0]);
        HeadIsLeast(b, rank, a[0]);
        assert false;
      }
      forall x
        ensures x in a[1..] <==> x in b[1..]
      {
        if x in a[1..] {
          assert x in a && x in b;
          HeadIsLeast(a, rank, x);
          HeadIsLeast(b, rank, x);
        }
        if x in b[1..] {
          assert x in b && x in a;
          HeadIsLeast(b, rank, x);
          HeadIsLeast(a, rank, x);
        }
      }
      RankedListsEqual(a[1..], b[1..], rank);
      assert a == [a[0]] + a[1..];
      assert b == [b[0]] + b[1..];
    }
  }
}
