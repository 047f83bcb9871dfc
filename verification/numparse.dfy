/**
  The prefix grammar of the JavaScript global functions `parseInt(s)` (radix 10)
  and `parseFloat(s)`: leading white space is skipped, an optional sign is read,
  then the longest run of decimal digits (for `parseFloat`, optionally followed
  by a point and more digits). Without a digit the answer is `NaN`, here `None`.
  Trailing text after the number is ignored, so `parseInt("30 years")` is 30.
 */
module NumParse {
  import opened Optional
  import opened Text

  predicate IsDigit(c: char) { '0' <= c <= '9' }

  function DigitValue(c: char): (d: nat)
    requires IsDigit(c)
    ensures d < 10
  {
    c as int - '0' as int
  }

  /** The longest prefix of `s` made of decimal digits. */
  function LeadingDigits(s: string): (r: string)
    ensures |r| <= |s| && r == s[..|r|]
    ensures forall i :: 0 <= i < |r| ==> IsDigit(r[i])
    ensures |r| < |s| ==> !IsDigit(s[|r|])
  {
    if s != [] && IsDigit(s[0]) then [s[0]] + LeadingDigits(s[1..]) else []
  }

  /** The value of a run of decimal digits, most significant first. */
  function DigitsValue(ds: string): nat
    requires forall i :: 0 <= i < |ds| ==> IsDigit(ds[i])
  {
    if ds == [] then 0 else DigitsValue(ds[..|ds| - 1]) * 10 + DigitValue(ds[|ds| - 1])
  }

  function Pow10(k: nat): (p: nat)
    ensures p >= 1
  {
    if k == 0 then 1 else 10 * Pow10(k - 1)
  }

  /** Whether a minus sign follows the leading white space, and the text after the sign. */
  function SignAndRest(s: string): (bool, string)
  {
    var t := TrimStart(s);
    if t != [] && t[0] == '-' then (true, t[1..])
    else if t != [] && t[0] == '+' then (false, t[1..])
    else (false, t)
  }

  /** The digits after a leading decimal point, if `s` starts with one. */
  function FractionDigits(s: string): (r: string)
    ensures forall i :: 0 <= i < |r| ==> IsDigit(r[i])
  {
    if s != [] && s[0] == '.' then LeadingDigits(s[1..]) else []
  }

  /** The value of `whole.frac` for two runs of decimal digits. */
  function DecimalValue(whole: string, frac: string): (v: real)
    requires forall i :: 0 <= i < |whole| ==> IsDigit(whole[i])
    requires forall i :: 0 <= i < |frac| ==> IsDigit(frac[i])
    ensures v >= DigitsValue(whole) as real >= 0.0
  {
    var p := Pow10(|frac|) as real;
    var q := DigitsValue(frac) as real / p;
    assert q >= 0.0;
    DigitsValue(whole) as real + q
  }

  /** `parseFloat(s)` without exponents or `Infinity`; `None` stands for `NaN`.
      A number read after a minus sign is never positive, one read without
      it never negative. */
  function ParseFloat(s: string): (r: Option<real>)
    ensures r.Some? && SignAndRest(s).0 ==> r.value <= 0.0
    ensures r.Some? && !SignAndRest(s).0 ==> r.value >= 0.0
  {
    var (negative, rest) := SignAndRest(s);
    var whole := LeadingDigits(rest);
    var frac := FractionDigits(rest[|whole|..]);
    if whole == [] && frac == [] then None
    else if negative then Some(-DecimalValue(whole, frac))
    else Some(DecimalValue(whole, frac))
  }

  /** `i` is `Math.trunc(x)`: `x` with its fraction dropped towards zero. */
  predicate Truncates(x: real, i: int)
  {
    (i >= 0 && i as real <= x < i as real + 1.0) || (i <= 0 && i as real - 1.0 < x <= i as real)
  }

  /** A run of `k` digits is worth less than `10^k`. */
  lemma {:induction false} DigitsValueBound(ds: string)
    requires forall i :: 0 <= i < |ds| ==> IsDigit(ds[i])
    ensures DigitsValue(ds) < Pow10(|ds|)
  {
    if ds != [] {
      var init := ds[..|ds| - 1];
      DigitsValueBound(init);
      assert DigitsValue(init) + 1 <= Pow10(|init|);
      assert DigitsValue(init) * 10 + 10 <= Pow10(|init|) * 10;
    }
  }

  /** The fraction digits add less than one. */
  lemma FractionBelowOne(whole: string, frac: string)
    requires forall i :: 0 <= i < |whole| ==> IsDigit(whole[i])
    requires forall i :: 0 <= i < |frac| ==> IsDigit(frac[i])
    ensures DigitsValue(whole) as real <= DecimalValue(whole, frac) < DigitsValue(whole) as real + 1.0
  {
    DigitsValueBound(frac);
    var p := Pow10(|frac|) as real;
    assert DigitsValue(frac) as real < p;
    assert DigitsValue(frac) as real / p < 1.0;
  }

  /** `parseInt(s)` in radix 10; `None` stands for `NaN`. Whenever it reads a
      number, `parseFloat` reads one too, and the integer is that number
      truncated towards zero (`parseInt("-2.7")` is -2). */
  function ParseInt(s: string): (r: Option<int>)
    ensures r.Some? ==> ParseFloat(s).Some? && Truncates(ParseFloat(s).value, r.value)
  {
    var (negative, rest) := SignAndRest(s);
    var ds := LeadingDigits(rest);
    if ds == [] then None
    else
      FractionBelowOne(ds, FractionDigits(rest[|ds|..]));
      var v: int := DigitsValue(ds);
      if negative then Some(-v) else Some(v)
  }

  /** White space alone parses to `NaN` (`None`): a blank field never yields a number. */
  lemma BlankIsNaN(s: string)
    ensures IsBlank(s) ==> ParseInt(s) == None && ParseFloat(s) == None
  {
    if IsBlank(s) {
      var t := TrimStart(s);
      assert t == [];
    }
  }

  lemma {:induction false} DigitsOfNat(n: nat)
    ensures forall i :: 0 <= i < |NatToString(n)| ==> IsDigit(NatToString(n)[i])
    ensures DigitsValue(NatToString(n)) == n
  {
    if n >= 10 {
      DigitsOfNat(n / 10);
      var s := NatToString(n / 10) + [DigitChar(n % 10)];
      assert s[..|s| - 1] == NatToString(n / 10);
    }
  }

  lemma {:induction false} LeadingDigitsOfDigits(s: string)
    requires forall i :: 0 <= i < |s| ==> IsDigit(s[i])
    ensures LeadingDigits(s) == s
  {
    if s != [] {
      LeadingDigitsOfDigits(s[1..]);
      assert [s[0]] + s[1..] == s;
    }
  }

  lemma {:induction false} LeadingDigitsOfConcat(ds: string, t: string)
    requires forall i :: 0 <= i < |ds| ==> IsDigit(ds[i])
    requires t == [] || !IsDigit(t[0])
    ensures LeadingDigits(ds + t) == ds
  {
    if ds != [] {
      assert (ds + t)[1..] == ds[1..] + t;
      LeadingDigitsOfConcat(ds[1..], t);
      assert [ds[0]] + ds[1..] == ds;
    } else {
      assert ds + t == t;
    }
  }

  /** A non-empty run of digits followed by text that does not continue it
      (as in "30 years"): no white space or sign is read, and exactly the
      digits are. */
  lemma DigitPrefixShape(ds: string, t: string)
    requires ds != [] && forall i :: 0 <= i < |ds| ==> IsDigit(ds[i])
    requires t == [] || (!IsDigit(t[0]) && t[0] != '.')
    ensures SignAndRest(ds + t) == (false, ds + t)
    ensures LeadingDigits(ds + t) == ds
    ensures FractionDigits((ds + t)[|ds|..]) == []
  {
    LeadingDigitsOfConcat(ds, t);
    assert (ds + t)[0] == ds[0];
    assert !IsWhitespace((ds + t)[0]);
    assert TrimStart(ds + t) == ds + t;
    assert (ds + t)[|ds|..] == t;
  }

  /** The same for the decimal rendering of a natural number. */
  lemma RenderedPrefixShape(n: nat, t: string)
    requires t == [] || (!IsDigit(t[0]) && t[0] != '.')
    ensures SignAndRest(NatToString(n) + t) == (false, NatToString(n) + t)
    ensures LeadingDigits(NatToString(n) + t) == NatToString(n)
    ensures FractionDigits((NatToString(n) + t)[|NatToString(n)|..]) == []
    ensures DigitsValue(NatToString(n)) == n
  {
    DigitsOfNat(n);
    DigitPrefixShape(NatToString(n), t);
  }

  /** Reading back the decimal rendering of a natural number gives the number
      itself, both as an integer and as a real, whatever non-numeric text
      follows it. */
  lemma ParseRendered(n: nat, t: string)
    requires t == [] || (!IsDigit(t[0]) && t[0] != '.')
    ensures ParseInt(NatToString(n) + t) == Some(n)
    ensures ParseFloat(NatToString(n) + t) == Some(n as real)
  {
    RenderedPrefixShape(n, t);
    var s := NatToString(n);
    var e: string := [];
    assert DecimalValue(s, e) == n as real;
  }
}
