/**
 * The few JavaScript string operations the chat client relies on:
 * `String.prototype.trim`, the ordering behind `b.localeCompare(a)`
 * (modelled as plain lexicographic order on characters) and the decimal
 * rendering of a number inside a template literal.
 */
module JsString {

  /** ECMAScript WhiteSpace and LineTerminator code points, which `trim` strips. */
  predicate IsTrimmable(c: char) {
    c == '\t' || c == '\n' || c == '\U{B}' || c == '\U{C}' || c == '\r' || c == ' '
    || c == '\U{A0}' || c == '\U{1680}' || ('\U{2000}' <= c <= '\U{200A}')
    || c == '\U{2028}' || c == '\U{2029}' || c == '\U{202F}' || c == '\U{205F}'
    || c == '\U{3000}' || c == '\U{FEFF}'
  }

  /** Drops leading trimmable characters. */
  function TrimStart(s: string): (r: string)
    ensures |r| <= |s| && r == s[|s| - |r|..]
    ensures forall i :: 0 <= i < |s| - |r| ==> IsTrimmable(s[i])
    ensures r == [] || !IsTrimmable(r[0])
  {
    if s == [] || !IsTrimmable(s[0]) then s else TrimStart(s[1..])
  }

  /** Drops trailing trimmable characters. */
  function TrimEnd(s: string): (r: string)
    ensures |r| <= |s| && r == s[..|r|]
    ensures forall i :: |r| <= i < |s| ==> IsTrimmable(s[i])
    ensures r == [] || !IsTrimmable(r[|r| - 1])
  {
    if s == [] || !IsTrimmable(s[|s| - 1]) then s else TrimEnd(s[..|s| - 1])
  }

  /** `s.trim()`. */
  function Trim(s: string): string
  {
    TrimEnd(TrimStart(s))
  }

  /** What `trim` returns neither starts nor ends with whitespace. */
  lemma TrimEdges(s: string)
    ensures Trim(s) == [] || (!IsTrimmable(Trim(s)[0]) && !IsTrimmable(Trim(s)[|Trim(s)| - 1]))
  {
    var t := TrimStart(s);
    assert Trim(s) != [] ==> Trim(s)[0] == t[0];
  }

  /**
   * `trim` keeps the contiguous slice `s[lo..hi]` of the input, where `lo` is
   * the length of the leading whitespace; everything before `lo` is whitespace.
   */
  lemma TrimIsSlice(s: string)
    ensures var lo := |s| - |TrimStart(s)|;
            0 <= lo <= lo + |Trim(s)| <= |s| && Trim(s) == s[lo..lo + |Trim(s)|]
            && forall i :: 0 <= i < lo ==> IsTrimmable(s[i])
  {
    var t := TrimStart(s);
    var lo := |s| - |t|;
    assert t == s[lo..];
  }

  /** Everything after the slice `trim` keeps is whitespace too. */
  lemma TrimCutsTrailing(s: string)
    ensures forall i :: |s| - |TrimStart(s)| + |Trim(s)| <= i < |s| ==> IsTrimmable(s[i])
  {
    var t := TrimStart(s);
    WhitespaceTailShifts(s, |s| - |t|, t, |TrimEnd(t)|);
  }

  /** Whitespace at the end of the suffix `s[lo..]` is whitespace at the end of `s`. */
  lemma WhitespaceTailShifts(s: string, lo: nat, t: string, n: nat)
    requires lo <= |s| && t == s[lo..] && n <= |t|
    requires forall j :: n <= j < |t| ==> IsTrimmable(t[j])
    ensures forall i :: lo + n <= i < |s| ==> IsTrimmable(s[i])
  {
    forall i | lo + n <= i < |s|
      ensures IsTrimmable(s[i])
    {
      assert s[i] == t[i - lo];
    }
  }

  /** A string made only of trimmable characters trims to nothing at the front. */
  lemma {:induction false} TrimStartAllTrimmable(s: string)
    requires forall i :: 0 <= i < |s| ==> IsTrimmable(s[i])
    ensures TrimStart(s) == []
  {
    if s != [] { TrimStartAllTrimmable(s[1..]); }
  }

  /** `s.trim()` is empty exactly when every character of `s` is trimmable. */
  lemma TrimEmptyIff(s: string)
    ensures Trim(s) == [] <==> forall i :: 0 <= i < |s| ==> IsTrimmable(s[i])
  {
    var t := TrimStart(s);
    if Trim(s) == [] {
      // TrimEnd(t) == [] makes every character of t trimmable, and t does not start with one.
      assert t == [];
    }
    if forall i :: 0 <= i < |s| ==> IsTrimmable(s[i]) {
      TrimStartAllTrimmable(s);
    }
  }

  /** Lexicographic order on character codes: `a` sorts strictly before `b`. */
  predicate Less(a: string, b: string) {
    if a == [] then b != []
    else if b == [] then false
    else if a[0] != b[0] then a[0] < b[0]
    else Less(a[1..], b[1..])
  }

  lemma {:induction false} LessIrreflexive(a: string)
    ensures !Less(a, a)
  {
    if a != [] { LessIrreflexive(a[1..]); }
  }

  lemma {:induction false} LessTransitive(a: string, b: string, c: string)
    requires Less(a, b) && Less(b, c)
    ensures Less(a, c)
  {
    if a != [] && b != [] && c != [] && a[0] == b[0] == c[0] {
      LessTransitive(a[1..], b[1..], c[1..]);
    }
  }

  lemma {:induction false} LessTotal(a: string, b: string)
    requires a != b
    ensures Less(a, b) || Less(b, a)
  {
    if a != [] && b != [] && a[0] == b[0] {
      assert a == [a[0]] + a[1..] && b == [b[0]] + b[1..];
      LessTotal(a[1..], b[1..]);
    }
  }

  /** The decimal digits of `n`, as a template literal renders a non-negative integer. */
  function Decimal(n: nat): (r: string)
    ensures |r| > 0
    ensures forall i :: 0 <= i < |r| ==> '0' <= r[i] <= '9'
    ensures r[0] == '0' ==> n == 0
    decreases n
  {
    var digit := ['0' + (n % 10) as char];
    if n < 10 then digit
    else
      var high := Decimal(n / 10);
      assert (high + digit)[..|high|] == high;
      high + digit
  }

  /** The number a string of decimal digits denotes. */
  function DigitsValue(s: string): int {
    if s == [] then 0 else DigitsValue(s[..|s| - 1]) * 10 + (s[|s| - 1] as int - '0' as int)
  }

  /** The rendering of `n` denotes `n`. */
  lemma {:induction false} DecimalValue(n: nat)
    ensures DigitsValue(Decimal(n)) == n
    decreases n
  {
    if n >= 10 {
      DecimalValue(n / 10);
      var high := Decimal(n / 10);
      var r := high + ['0' + (n % 10) as char];
      assert r[..|r| - 1] == high;
    }
  }

  /** Different numbers render differently. */
  lemma DecimalInjective(m: nat, n: nat)
    requires Decimal(m) == Decimal(n)
    ensures m == n
  {
    DecimalValue(m);
    DecimalValue(n);
  }
}
