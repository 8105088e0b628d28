/**
 * String and number helpers with the semantics of the Java library calls the
 * RID Guard core relies on: String.trim, String.split on a character class,
 * String.equalsIgnoreCase, Integer.parseInt, String.valueOf(long) / "%d", and
 * the fixed-point "%.Nf" rendering used by the audit log.
 */
module Text {

  datatype Option<+T> = None | Some(value: T)

  // ---------------------------------------------------------------------------
  // String.trim: drops every leading and trailing character at or below U+0020.

  predicate IsTrimmable(c: char) {
    c <= ' '
  }

  /** Every character of `r` is a character of `s`. */
  ghost predicate CharsFrom(r: string, s: string) {
    forall c :: c in r ==> c in s
  }

  function TrimStart(s: string): (r: string)
    ensures |r| <= |s| && r == s[|s| - |r|..]
    ensures r == [] || !IsTrimmable(r[0])
  {
    if s == [] || !IsTrimmable(s[0]) then s else TrimStart(s[1..])
  }

  function TrimEnd(s: string): (r: string)
    ensures |r| <= |s| && r == s[..|r|]
    ensures r == [] || !IsTrimmable(r[|r| - 1])
  {
    if s == [] || !IsTrimmable(s[|s| - 1]) then s else TrimEnd(s[..|s| - 1])
  }

  /** TrimStart removes only characters at or below U+0020. */
  lemma {:induction false} TrimStartCutsBlanks(s: string)
    ensures forall k :: 0 <= k < |s| - |TrimStart(s)| ==> IsTrimmable(s[k])
  {
    if s != [] && IsTrimmable(s[0]) {
      TrimStartCutsBlanks(s[1..]);
      forall k | 1 <= k < |s| - |TrimStart(s)|
        ensures IsTrimmable(s[k])
      {
        assert s[k] == s[1..][k - 1];
      }
    }
  }

  /** TrimEnd removes only characters at or below U+0020. */
  lemma {:induction false} TrimEndCutsBlanks(s: string)
    ensures forall k :: |TrimEnd(s)| <= k < |s| ==> IsTrimmable(s[k])
  {
    if s != [] && IsTrimmable(s[|s| - 1]) {
      TrimEndCutsBlanks(s[..|s| - 1]);
      forall k | |TrimEnd(s)| <= k < |s| - 1
        ensures IsTrimmable(s[k])
      {
        assert s[k] == s[..|s| - 1][k];
      }
    }
  }

  /** `r` is s[i..j], and everything of `s` outside [i, j) is at or below U+0020. */
  ghost predicate SliceBetweenBlanks(r: string, s: string, i: int, j: int) {
    0 <= i <= j <= |s| && r == s[i..j] &&
    (forall k :: 0 <= k < i ==> IsTrimmable(s[k])) &&
    (forall k :: j <= k < |s| ==> IsTrimmable(s[k]))
  }

  /** String.trim: drop characters at or below U+0020 from both ends. */
  function Trim(s: string): (r: string)
    ensures r == [] || (!IsTrimmable(r[0]) && !IsTrimmable(r[|r| - 1]))
    ensures CharsFrom(r, s)
  {
    var t := TrimStart(s);
    var r := TrimEnd(t);
    assert forall c :: c in r ==> c in t;
    r
  }

  /**
   * The trim is a slice of the input, and only characters at or below U+0020
   * are cut off on either side of it.
   */
  lemma TrimIsSliceBetweenBlanks(s: string)
    ensures exists i, j :: SliceBetweenBlanks(Trim(s), s, i, j)
  {
    var t := TrimStart(s);
    var r := TrimEnd(t);
    var i := |s| - |t|;
    var j := i + |r|;
    TrimStartCutsBlanks(s);
    TrimEndCutsBlanks(t);
    assert r == s[i..j] by {
      assert t == s[i..];
      assert r == t[..|r|];
    }
    forall k | j <= k < |s|
      ensures IsTrimmable(s[k])
    {
      assert s[k] == t[k - i];
    }
    assert SliceBetweenBlanks(r, s, i, j);
    assert Trim(s) == r;
  }

  /** A string that already starts and ends with a visible character is its own trim. */
  lemma TrimOfTrimmed(s: string)
    requires s == [] || (!IsTrimmable(s[0]) && !IsTrimmable(s[|s| - 1]))
    ensures Trim(s) == s
  {
  }

  // ---------------------------------------------------------------------------
  // String.split on a one-character class such as "[,\\n]", keeping every piece.
  // Java additionally drops trailing empty pieces; every caller in the core
  // discards empty pieces anyway, so the two agree on what the callers keep.

  /** No character of `s` is a delimiter. */
  ghost predicate Avoids(s: string, delims: set<char>) {
    forall c :: c in s ==> c !in delims
  }

  function Split(s: string, delims: set<char>): (r: seq<string>)
    ensures |r| >= 1
    ensures forall i :: 0 <= i < |r| ==> Avoids(r[i], delims)
  {
    if s == [] then [[]]
    else
      var rest := Split(s[1..], delims);
      if s[0] in delims then [[]] + rest
      else [[s[0]] + rest[0]] + rest[1..]
  }

  /** Every piece is made of characters of the input. */
  lemma {:induction false} SplitCharsFrom(s: string, delims: set<char>)
    ensures forall i :: 0 <= i < |Split(s, delims)| ==> CharsFrom(Split(s, delims)[i], s)
  {
    if s != [] {
      var r := Split(s, delims);
      var rest := Split(s[1..], delims);
      SplitCharsFrom(s[1..], delims);
      forall i | 0 <= i < |r|
        ensures CharsFrom(r[i], s)
      {
        forall c | c in r[i]
          ensures c in s
        {
          if s[0] !in delims && i == 0 {
            assert r[0] == [s[0]] + rest[0];
            if c != s[0] {
              assert c in rest[0];
            }
          } else {
            var k := if s[0] in delims then i - 1 else i;
            assert r[i] == rest[k];
          }
          assert c in s[1..] ==> c in s;
        }
      }
    }
  }

  /** The inverse of Split for a single separator. */
  function Join(parts: seq<string>, sep: char): string
    requires |parts| >= 1
  {
    if |parts| == 1 then parts[0] else parts[0] + [sep] + Join(parts[1..], sep)
  }

  lemma {:induction false} SplitOfAvoiding(p: string, delims: set<char>)
    requires Avoids(p, delims)
    ensures Split(p, delims) == [p]
  {
    if p != [] {
      assert p[0] !in delims;
      assert forall c :: c in p[1..] ==> c in p;
      SplitOfAvoiding(p[1..], delims);
      assert [p[0]] + p[1..] == p;
    }
  }

  lemma {:induction false} SplitAfterPiece(p: string, c: char, t: string, delims: set<char>)
    requires Avoids(p, delims) && c in delims
    ensures Split(p + [c] + t, delims) == [p] + Split(t, delims)
  {
    var s := p + [c] + t;
    if p == [] {
      assert s[1..] == t;
    } else {
      assert s[1..] == p[1..] + [c] + t;
      SplitAfterPiece(p[1..], c, t, delims);
      assert [p[0]] + p[1..] == p;
    }
  }

  /** Splitting a joined list on its separator gives the list back. */
  lemma {:induction false} SplitJoin(parts: seq<string>, sep: char, delims: set<char>)
    requires |parts| >= 1 && sep in delims
    requires forall i :: 0 <= i < |parts| ==> Avoids(parts[i], delims)
    ensures Split(Join(parts, sep), delims) == parts
  {
    if |parts| == 1 {
      SplitOfAvoiding(parts[0], delims);
    } else {
      SplitJoin(parts[1..], sep, delims);
      SplitAfterPiece(parts[0], sep, Join(parts[1..], sep), delims);
    }
  }

  // ---------------------------------------------------------------------------
  // String.equalsIgnoreCase, with ASCII case folding.

  function AsciiLower(c: char): char {
    if 'A' <= c <= 'Z' then (c as int + 32) as char else c
  }

  predicate EqualsIgnoreCase(a: string, b: string): (r: bool)
    ensures a == b ==> r
    ensures r ==> (|a| == |b| &&
      forall i :: 0 <= i < |a| ==> a[i] == b[i] || a[i] == AsciiLower(b[i]) || AsciiLower(a[i]) == b[i])
    ensures r <==> (|a| == |b| && forall i :: 0 <= i < |a| ==> AsciiLower(a[i]) == AsciiLower(b[i]))
  {
    |a| == |b| && forall i :: 0 <= i < |a| ==> AsciiLower(a[i]) == AsciiLower(b[i])
  }

  /** The string with every ASCII capital replaced by its small letter. */
  function Lowered(s: string): (r: string)
    ensures |r| == |s|
    ensures forall i :: 0 <= i < |s| ==> r[i] == AsciiLower(s[i])
  {
    if s == [] then [] else [AsciiLower(s[0])] + Lowered(s[1..])
  }

  /** Two strings match ignoring case exactly when their lowered forms are equal. */
  lemma EqualsIgnoreCaseIffLowered(a: string, b: string)
    ensures EqualsIgnoreCase(a, b) <==> Lowered(a) == Lowered(b)
  {
  }

  /** "ABC-1" and "abc-1" match: case variants of each other are equal ignoring case. */
  lemma CaseVariantsMatch(a: string)
    ensures EqualsIgnoreCase(a, Lowered(a)) && EqualsIgnoreCase(Lowered(a), a)
  {
  }

  // ---------------------------------------------------------------------------
  // Decimal integers: String.valueOf(long) and "%d" render, Integer.parseInt reads.

  const MinInt: int := -0x8000_0000
  const MaxInt: int := 0x7fff_ffff

  predicate IsDigit(c: char) {
    '0' <= c <= '9'
  }

  predicate AllDigits(s: string) {
    forall i :: 0 <= i < |s| ==> IsDigit(s[i])
  }

  function DigitChar(d: nat): (c: char)
    requires d < 10
    ensures IsDigit(c)
  {
    ('0' as int + d) as char
  }

  function NatToString(n: nat): (r: string)
    ensures |r| >= 1 && AllDigits(r)
    decreases n
  {
    if n < 10 then [DigitChar(n)] else NatToString(n / 10) + [DigitChar(n % 10)]
  }

  function IntToString(n: int): (r: string)
    ensures |r| >= 1
  {
    if n < 0 then "-" + NatToString(-n) else NatToString(n)
  }

  /** The value of a string of decimal digits, most significant first. */
  function DigitsValue(s: string): nat
    requires AllDigits(s)
  {
    if s == [] then 0 else 10 * DigitsValue(s[..|s| - 1]) + (s[|s| - 1] as int - '0' as int)
  }

  /**
   * Integer.parseInt: an optional '+' or '-', then one or more decimal digits,
   * and the value must fit in a 32-bit int; anything else is a
   * NumberFormatException, here None.
   */
  function ParseInt(s: string): (r: Option<int>)
    ensures r.Some? ==> MinInt <= r.value <= MaxInt
    ensures r.Some? ==> s != [] && (IsDigit(s[0]) || s[0] == '-' || s[0] == '+')
  {
    if s == [] then None
    else
      var signed := s[0] == '-' || s[0] == '+';
      var digits := if signed then s[1..] else s;
      if digits == [] || !AllDigits(digits) then None
      else
        var magnitude: int := DigitsValue(digits);
        var v: int := if s[0] == '-' then -magnitude else magnitude;
        if MinInt <= v <= MaxInt then Some(v) else None
  }

  lemma {:induction false} DigitsValueOfNatToString(n: nat)
    ensures DigitsValue(NatToString(n)) == n
  {
    if n >= 10 {
      var s := NatToString(n);
      assert s[..|s| - 1] == NatToString(n / 10);
      DigitsValueOfNatToString(n / 10);
    }
  }

  /** Every 32-bit int reads back from its own decimal rendering. */
  lemma ParseIntToString(n: int)
    requires MinInt <= n <= MaxInt
    ensures ParseInt(IntToString(n)) == Some(n)
  {
    if n < 0 {
      var s := IntToString(n);
      var digits := NatToString(-n);
      assert s[0] == '-' && s[1..] == digits;
      DigitsValueOfNatToString(-n);
      assert DigitsValue(digits) == -n;
    } else {
      var digits := NatToString(n);
      assert !(digits[0] == '-' || digits[0] == '+');
      DigitsValueOfNatToString(n);
    }
  }

  // ---------------------------------------------------------------------------
  // Fixed-point rendering "%.Nf" (Locale.US): rounded half up at the last kept
  // decimal, '-' for a negative value, '.' before the decimals.

  function Pow10(k: nat): (r: nat)
    ensures r >= 1
  {
    if k == 0 then 1 else 10 * Pow10(k - 1)
  }

  function PadLeft(s: string, width: nat): (r: string)
    requires Numeral(s)
    ensures Numeral(r) && |r| >= |s|
    decreases width - |s|
  {
    if |s| >= width then s else PadLeft("0" + s, width)
  }

  /** Characters a rendered number may contain. */
  predicate IsNumeral(c: char) {
    IsDigit(c) || c == '-' || c == '.'
  }

  predicate Numeral(s: string) {
    forall i :: 0 <= i < |s| ==> IsNumeral(s[i])
  }

  /** Round a non-negative value half up to a whole number. */
  function RoundHalfUp(y: real): nat
    requires y >= 0.0
  {
    (y + 0.5).Floor
  }

  // Quotient and Remainder wrap `/` and `%` so that the nonlinear arithmetic
  // stays out of sight of the solver wherever only their types matter.

  function Quotient(a: nat, b: nat): nat
    requires b > 0
  {
    a / b
  }

  function Remainder(a: nat, b: nat): nat
    requires b > 0
  {
    a % b
  }

  /** A count of 1/10^places units, as digits with `places` decimals. */
  function FixedUnits(units: nat, places: nat): (r: string)
    ensures r != [] && Numeral(r)
  {
    var scale := Pow10(places);
    var whole := NatToString(Quotient(units, scale));
    DigitsAreNumeral(whole);
    if places == 0 then whole
    else
      var fraction := NatToString(Remainder(units, scale));
      DigitsAreNumeral(fraction);
      NumeralConcat(whole, ".");
      NumeralConcat(whole + ".", PadLeft(fraction, places));
      whole + "." + PadLeft(fraction, places)
  }

  lemma DigitsAreNumeral(s: string)
    requires AllDigits(s)
    ensures Numeral(s)
  {
  }

  lemma NumeralConcat(a: string, b: string)
    requires Numeral(a) && Numeral(b)
    ensures Numeral(a + b)
  {
    forall i | 0 <= i < |a + b|
      ensures IsNumeral((a + b)[i])
    {
      if i < |a| { assert (a + b)[i] == a[i]; } else { assert (a + b)[i] == b[i - |a|]; }
    }
  }

  function Fixed(x: real, places: nat): (r: string)
    ensures r != [] && Numeral(r)
  {
    var magnitude := if x < 0.0 then -x else x;
    var units := RoundHalfUp(magnitude * Pow10(places) as real);
    var sign := if x < 0.0 then "-" else "";
    NumeralConcat(sign, FixedUnits(units, places));
    sign + FixedUnits(units, places)
  }
}
