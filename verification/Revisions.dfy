/**
 Snapshot revisions are strings. Two of them can be ordered only when both are
 decimal numerals; the comparison works on the text, so it is not limited to the
 width of a machine integer.
 */
module Revisions {
  import opened Prelude

  // ----- Text helpers -------------------------------------------------------

  predicate IsDigit(c: char) {
    '0' <= c <= '9'
  }

  predicate AllDigits(s: string) {
    forall i | 0 <= i < |s| :: IsDigit(s[i])
  }

  function TrimZeros(s: string): string {
    if s != "" && s[0] == '0' then TrimZeros(s[1..]) else s
  }

  /** Three-way comparison of strings by their characters, left to right. */
  function CompareText(a: string, b: string): int {
    if a == "" && b == "" then 0
    else if a == "" then -1
    else if b == "" then 1
    else if a[0] < b[0] then -1
    else if a[0] > b[0] then 1
    else CompareText(a[1..], b[1..])
  }

  // ----- The comparison -----------------------------------------------------

  /** None when the two revisions cannot be ordered. */
  function Compare(candidate: string, current: string): Option<int> {
    var a, b := Trim(candidate), Trim(current);
    if a == "" || b == "" then None
    else if !AllDigits(a) || !AllDigits(b) then None
    else
      var a', b' := Significant(a), Significant(b);
      if |a'| < |b'| then Some(-1)
      else if |a'| > |b'| then Some(1)
      else Some(CompareText(a', b'))
  }

  function Significant(digits: string): string {
    var t := TrimZeros(digits);
    if t == "" then "0" else t
  }

  // ----- What it means ------------------------------------------------------

  predicate IsDecimal(revision: string) {
    Trim(revision) != "" && AllDigits(Trim(revision))
  }

  function Pow10(n: nat): nat {
    if n == 0 then 1 else 10 * Pow10(n - 1)
  }

  function Digit(c: char): nat
    requires IsDigit(c)
  {
    c as int - '0' as int
  }

  /** Positional value of a digit string. */
  function Numeral(s: string): nat
    requires AllDigits(s)
  {
    if s == "" then 0 else Digit(s[0]) * Pow10(|s| - 1) + Numeral(s[1..])
  }

  /** The number a decimal revision denotes. */
  function Value(revision: string): nat
    requires IsDecimal(revision)
  {
    Numeral(Trim(revision))
  }

  lemma ScaleOrder(d: nat, e: nat, p: nat)
    requires d < e
    ensures d * p + p <= e * p
  {
    assert e * p - d * p == (e - d) * p;
    assert (e - d - 1) * p >= 0;
  }

  lemma {:induction false} NumeralBounds(s: string)
    requires AllDigits(s)
    ensures Numeral(s) < Pow10(|s|)
    ensures s != "" && s[0] != '0' ==> Pow10(|s| - 1) <= Numeral(s)
  {
    if s != "" {
      NumeralBounds(s[1..]);
      var d, p := Digit(s[0]), Pow10(|s| - 1);
      ScaleOrder(d, 10, p);
      if s[0] != '0' { ScaleOrder(0, d, p); }
    }
  }

  lemma {:induction false} TrimZerosKeepsValue(s: string)
    requires AllDigits(s)
    ensures AllDigits(TrimZeros(s)) && Numeral(TrimZeros(s)) == Numeral(s)
    ensures TrimZeros(s) == "" || TrimZeros(s)[0] != '0'
  {
    if s != "" && s[0] == '0' {
      TrimZerosKeepsValue(s[1..]);
      assert Digit(s[0]) * Pow10(|s| - 1) == 0;
    }
  }

  lemma {:induction false} TextOrderIsNumericOrder(a: string, b: string)
    requires AllDigits(a) && AllDigits(b) && |a| == |b|
    ensures CompareText(a, b) == Sign(Numeral(a) - Numeral(b))
  {
    if a != "" {
      TextOrderIsNumericOrder(a[1..], b[1..]);
      NumeralBounds(a[1..]);
      NumeralBounds(b[1..]);
      var p, d, e := Pow10(|a| - 1), Digit(a[0]), Digit(b[0]);
      if d < e {
        ScaleOrder(d, e, p);
      } else if d > e {
        ScaleOrder(e, d, p);
      }
    }
  }

  lemma {:induction false} PowersGrow(m: nat, n: nat)
    requires m <= n
    ensures Pow10(m) <= Pow10(n)
  {
    if m < n { PowersGrow(m, n - 1); }
  }

  lemma SignificantKeepsValue(s: string)
    requires s != "" && AllDigits(s)
    ensures var t := Significant(s);
            && AllDigits(t) && t != "" && Numeral(t) == Numeral(s)
            && (t[0] != '0' || t == "0")
  {
    TrimZerosKeepsValue(s);
    assert Numeral("0") == 0;
  }

  lemma LongerIsLarger(a: string, b: string)
    requires AllDigits(a) && AllDigits(b) && a != "" && |a| < |b| && b[0] != '0'
    ensures Numeral(a) < Numeral(b)
  {
    NumeralBounds(a);
    NumeralBounds(b);
    PowersGrow(|a|, |b| - 1);
  }

  /** The comparison is defined exactly on decimal revisions, where it is the
      comparison of the numbers they denote. */
  lemma CompareIsNumeric(candidate: string, current: string)
    ensures Compare(candidate, current).Some? <==> IsDecimal(candidate) && IsDecimal(current)
    ensures IsDecimal(candidate) && IsDecimal(current) ==>
              Compare(candidate, current) == Some(Sign(Value(candidate) - Value(current)))
  {
    if IsDecimal(candidate) && IsDecimal(current) {
      var a, b := Trim(candidate), Trim(current);
      SignificantKeepsValue(a);
      SignificantKeepsValue(b);
      var a', b' := Significant(a), Significant(b);
      if |a'| < |b'| {
        LongerIsLarger(a', b');
      } else if |a'| > |b'| {
        LongerIsLarger(b', a');
      } else {
        TextOrderIsNumericOrder(a', b');
      }
    }
  }

  predicate AtMost(a: string, b: string) {
    Compare(a, b).Some? && Compare(a, b).value <= 0
  }

  /** On decimal revisions the comparison is a total preorder whose ties are
      exactly the spellings of one number. */
  lemma CompareIsTotalPreorder(a: string, b: string, c: string)
    requires IsDecimal(a) && IsDecimal(b) && IsDecimal(c)
    ensures AtMost(a, b) || AtMost(b, a)
    ensures AtMost(a, b) && AtMost(b, c) ==> AtMost(a, c)
    ensures AtMost(a, b) && AtMost(b, a) <==> Value(a) == Value(b)
    ensures Compare(a, b).value == -Compare(b, a).value
  {
    CompareIsNumeric(a, b);
    CompareIsNumeric(b, a);
    CompareIsNumeric(b, c);
    CompareIsNumeric(a, c);
  }
}
