/** The two string-to-integer conversions applied to the text after the last
    ':' of a roll line: C++ `std::stoi` (base 10, C locale) in the loader of
    the main program, and Python's `int(...)` in the plotting script. */
module IntParsing {
  import opened Wrappers
  import opened Decimal

  // ---------------------------------------------------------------------
  // std::stoi

  /** `isspace` in the C locale. */
  predicate IsCSpace(c: char) {
    c == ' ' || c == '\t' || c == '\n' || c == '\U{000B}' || c == '\U{000C}' || c == '\r'
  }

  function SkipCSpace(s: string): (r: string)
    ensures |r| <= |s| && r == s[|s| - |r|..]
    ensures r != [] ==> !IsCSpace(r[0])
  {
    if s != [] && IsCSpace(s[0]) then SkipCSpace(s[1..]) else s
  }

  /** The longest run of digits that starts `s`. */
  function LeadingDigits(s: string): (r: string)
    ensures r <= s && AllDigits(r)
    ensures |r| < |s| ==> !IsDigit(s[|r|])
  {
    if s != [] && IsDigit(s[0]) then [s[0]] + LeadingDigits(s[1..]) else []
  }

  /** Drops one leading sign character, if there is one. */
  function DropSign(t: string): string {
    if t != [] && (t[0] == '-' || t[0] == '+') then t[1..] else t
  }

  /** `std::stoi(s)`: leading white space is skipped, an optional sign and a
      non-empty run of digits are read and anything after them is ignored.
      `None` is the exception it throws: `invalid_argument` when no digit
      follows, `out_of_range` when the value does not fit an `int`. */
  function Stoi(s: string): Option<Int32> {
    SignedDecimal(SkipCSpace(s))
  }

  /** What `stoi` reads once the white space is skipped. */
  function SignedDecimal(t: string): Option<Int32> {
    var ds := LeadingDigits(DropSign(t));
    if ds == [] then None
    else
      var v: int := if t[0] == '-' then 0 - DigitsValue(ds) else DigitsValue(ds);
      if MinInt32 <= v <= MaxInt32 then Some(v) else None
  }

  lemma {:induction false} SkipCSpacePrefix(pre: string, x: string)
    requires forall i :: 0 <= i < |pre| ==> IsCSpace(pre[i])
    requires x != [] && !IsCSpace(x[0])
    ensures SkipCSpace(pre + x) == x
    decreases |pre|
  {
    if pre != [] {
      assert (pre + x)[1..] == pre[1..] + x;
      SkipCSpacePrefix(pre[1..], x);
    }
  }

  lemma {:induction false} LeadingDigitsOfDigits(ds: string, post: string)
    requires AllDigits(ds)
    requires post == [] || !IsDigit(post[0])
    ensures LeadingDigits(ds + post) == ds
    decreases |ds|
  {
    if ds != [] {
      assert (ds + post)[1..] == ds[1..] + post;
      LeadingDigitsOfDigits(ds[1..], post);
    }
  }

  /** `stoi` skips the white space in front of what it reads. */
  lemma {:induction false} StoiSkipsSpace(pre: string, x: string)
    requires forall i :: 0 <= i < |pre| ==> IsCSpace(pre[i])
    requires x != [] && !IsCSpace(x[0])
    ensures Stoi(pre + x) == SignedDecimal(x)
  {
    SkipCSpacePrefix(pre, x);
  }

  lemma {:induction false} SignedDecimalOfDigits(ds: string, post: string)
    requires ds != [] && AllDigits(ds)
    requires post == [] || !IsDigit(post[0])
    ensures SignedDecimal(ds + post)
      == if DigitsValue(ds) <= MaxInt32 then Some(DigitsValue(ds)) else None
  {
    LeadingDigitsOfDigits(ds, post);
  }

  lemma {:induction false} DropMinus(rest: string)
    ensures DropSign(['-'] + rest) == rest
  {
  }

  lemma {:induction false} SignedDecimalOfNegatedDigits(ds: string, post: string)
    requires ds != [] && AllDigits(ds)
    requires post == [] || !IsDigit(post[0])
    ensures SignedDecimal(['-'] + (ds + post))
      == if MinInt32 <= 0 - DigitsValue(ds) then Some(0 - DigitsValue(ds)) else None
  {
    DropMinus(ds + post);
    LeadingDigitsOfDigits(ds, post);
  }

  lemma {:induction false} IntToStringNegative(v: int, n: nat)
    requires v < 0 && n == -v
    ensures IntToString(v) == "-" + NatToString(n)
  {
  }

  lemma {:induction false} SignedDecimalOfIntToString(v: Int32, post: string)
    requires post == [] || !IsDigit(post[0])
    ensures SignedDecimal(IntToString(v) + post) == Some(v)
  {
    if v < 0 {
      var n: nat := 0 - v;
      IntToStringNegative(v, n);
      DigitsValueOfNatToString(n);
      assert IntToString(v) + post == ['-'] + (NatToString(n) + post);
      SignedDecimalOfNegatedDigits(NatToString(n), post);
    } else {
      DigitsValueOfNatToString(v);
      SignedDecimalOfDigits(NatToString(v), post);
    }
  }

  /** `stoi` reads back what `<<` wrote for an `int`, past any leading white
      space and before anything that does not start with a digit. */
  lemma {:induction false} StoiOfIntToString(pre: string, v: Int32, post: string)
    requires forall i :: 0 <= i < |pre| ==> IsCSpace(pre[i])
    requires post == [] || !IsDigit(post[0])
    ensures Stoi(pre + IntToString(v) + post) == Some(v)
  {
    var x := IntToString(v) + post;
    assert pre + IntToString(v) + post == pre + x;
    IntToStringChars(v);
    StoiSkipsSpace(pre, x);
    SignedDecimalOfIntToString(v, post);
  }

  /** Without a digit `stoi` always throws. */
  lemma StoiNeedsDigit(s: string)
    requires forall i :: 0 <= i < |s| ==> !IsDigit(s[i])
    ensures Stoi(s) == None
  {
    var t := SkipCSpace(s);
    var u := DropSign(t);
    if u != [] {
      var d := |s| - |t|;
      assert t[0] == s[d];
      if t != [] && (t[0] == '-' || t[0] == '+') {
        assert u[0] == t[1] == s[d + 1];
      } else {
        assert u[0] == s[d];
      }
    }
    assert LeadingDigits(u) == [];
  }

  // ---------------------------------------------------------------------
  // Python int()

  /** `str.isspace()`: the characters `str.strip()` and `int()` remove. */
  predicate IsPySpace(c: char) {
    ('\t' <= c <= '\r') || ('\U{001C}' <= c <= ' ') || c == '\U{0085}' || c == '\U{00A0}'
    || c == '\U{1680}' || ('\U{2000}' <= c <= '\U{200A}') || c == '\U{2028}' || c == '\U{2029}'
    || c == '\U{202F}' || c == '\U{205F}' || c == '\U{3000}'
  }

  function PyLStrip(s: string): (r: string)
    ensures |r| <= |s| && r == s[|s| - |r|..]
    ensures r != [] ==> !IsPySpace(r[0])
  {
    if s != [] && IsPySpace(s[0]) then PyLStrip(s[1..]) else s
  }

  function PyRStrip(s: string): (r: string)
    ensures r <= s
    ensures r != [] ==> !IsPySpace(r[|r| - 1])
  {
    if s != [] && IsPySpace(s[|s| - 1]) then PyRStrip(s[..|s| - 1]) else s
  }

  /** `s.strip()`. */
  function PyStrip(s: string): (r: string)
    ensures r != [] ==> !IsPySpace(r[0]) && !IsPySpace(r[|r| - 1])
  {
    PyRStrip(PyLStrip(s))
  }

  /** Digits, with single underscores allowed between two digits: the body of
      a base-10 integer literal that `int()` accepts. */
  predicate DigitGroups(u: string) {
    u != [] && IsDigit(u[0]) && IsDigit(u[|u| - 1]) &&
    (forall i :: 0 <= i < |u| ==> IsDigit(u[i]) || u[i] == '_') &&
    (forall i :: 0 <= i < |u| - 1 ==> IsDigit(u[i]) || IsDigit(u[i + 1]))
  }

  function WithoutUnderscores(u: string): (r: string)
    requires forall i :: 0 <= i < |u| ==> IsDigit(u[i]) || u[i] == '_'
    ensures AllDigits(r)
    ensures AllDigits(u) ==> r == u
  {
    if u == [] then []
    else (if u[0] == '_' then [] else [u[0]]) + WithoutUnderscores(u[1..])
  }

  /** `sys.int_max_str_digits` at its default: `int()` on a decimal `str`
      raises `ValueError` when the literal has more digits than this
      (underscores not counted, leading zeros counted). The limit holds from
      Python 3.11 and from the 3.7.14, 3.8.14, 3.9.14 and 3.10.7 releases. */
  const PyMaxStrDigits: nat := 4300

  /** `int(s)` on a `str`: surrounding white space is ignored, then the whole
      rest must be an optionally signed run of digit groups of at most
      `PyMaxStrDigits` digits; `None` is the `ValueError`. Within that limit
      the value is not bounded. */
  function PyInt(s: string): Option<int> {
    PyIntLiteral(PyStrip(s))
  }

  /** What `int()` accepts once the white space is stripped. */
  function PyIntLiteral(t: string): Option<int> {
    var u := DropSign(t);
    if !DigitGroups(u) || |WithoutUnderscores(u)| > PyMaxStrDigits then None
    else
      var n: int := DigitsValue(WithoutUnderscores(u));
      Some(if t[0] == '-' then 0 - n else n)
  }

  lemma {:induction false} PyLStripPrefix(pre: string, x: string)
    requires forall i :: 0 <= i < |pre| ==> IsPySpace(pre[i])
    requires x != [] && !IsPySpace(x[0])
    ensures PyLStrip(pre + x) == x
    decreases |pre|
  {
    if pre != [] {
      assert (pre + x)[1..] == pre[1..] + x;
      PyLStripPrefix(pre[1..], x);
    }
  }

  lemma {:induction false} PyRStripSuffix(x: string, post: string)
    requires forall i :: 0 <= i < |post| ==> IsPySpace(post[i])
    requires x != [] && !IsPySpace(x[|x| - 1])
    ensures PyRStrip(x + post) == x
    decreases |post|
  {
    if post != [] {
      assert (x + post)[..|x + post| - 1] == x + post[..|post| - 1];
      PyRStripSuffix(x, post[..|post| - 1]);
    } else {
      assert x + post == x;
    }
  }

  lemma {:induction false} PyStripPadded(pre: string, x: string, post: string)
    requires forall i :: 0 <= i < |pre| ==> IsPySpace(pre[i])
    requires forall i :: 0 <= i < |post| ==> IsPySpace(post[i])
    requires x != [] && !IsPySpace(x[0]) && !IsPySpace(x[|x| - 1])
    ensures PyStrip(pre + x + post) == x
  {
    assert pre + x + post == pre + (x + post);
    PyLStripPrefix(pre, x + post);
    PyRStripSuffix(x, post);
  }

  lemma {:induction false} PyStripUnpadded(x: string)
    requires x != [] && !IsPySpace(x[0]) && !IsPySpace(x[|x| - 1])
    ensures PyStrip(x) == x
  {
  }

  lemma {:induction false} PyIntOfDigits(ds: string)
    requires ds != [] && AllDigits(ds) && |ds| <= PyMaxStrDigits
    ensures PyInt(ds) == Some(DigitsValue(ds))
  {
    PyStripUnpadded(ds);
    assert DropSign(ds) == ds;
    assert PyIntLiteral(ds) == Some(DigitsValue(ds));
  }

  lemma {:induction false} PyIntOfNegatedDigits(ds: string)
    requires ds != [] && AllDigits(ds) && |ds| <= PyMaxStrDigits
    ensures PyInt("-" + ds) == Some(0 - DigitsValue(ds))
  {
    var x := "-" + ds;
    assert x[|x| - 1] == ds[|ds| - 1];
    PyStripUnpadded(x);
    assert DropSign(x) == ds;
    assert PyIntLiteral(x) == Some(0 - DigitsValue(ds));
  }

  /** `int()` reads back what `<<` wrote for an integer of at most
      `PyMaxStrDigits` digits. */
  lemma {:induction false} PyIntOfIntToString(v: int)
    requires |NatToString(if v < 0 then -v else v)| <= PyMaxStrDigits
    ensures PyInt(IntToString(v)) == Some(v)
  {
    if v < 0 {
      var n: nat := 0 - v;
      IntToStringNegative(v, n);
      DigitsValueOfNatToString(n);
      PyIntOfNegatedDigits(NatToString(n));
    } else {
      DigitsValueOfNatToString(v);
      PyIntOfDigits(NatToString(v));
    }
  }

  /** `int(s.strip())` reads back what `<<` wrote for a C++ `int`, between
      any white space. */
  lemma {:induction false} PyIntOfPaddedIntToString(pre: string, v: Int32, post: string)
    requires forall i :: 0 <= i < |pre| ==> IsPySpace(pre[i])
    requires forall i :: 0 <= i < |post| ==> IsPySpace(post[i])
    ensures PyInt(PyStrip(pre + IntToString(v) + post)) == Some(v)
  {
    var x := IntToString(v);
    IntToStringChars(v);
    PyStripPadded(pre, x, post);
    Int32DigitCount(v);
    PyIntOfIntToString(v);
  }

  /** A decimal literal over the digit limit is rejected, whatever its value. */
  lemma {:induction false} PyIntRejectsLongLiteral(pre: string, ds: string, post: string)
    requires forall i :: 0 <= i < |pre| ==> IsPySpace(pre[i])
    requires forall i :: 0 <= i < |post| ==> IsPySpace(post[i])
    requires AllDigits(ds) && |ds| > PyMaxStrDigits
    ensures PyInt(PyStrip(pre + ds + post)) == None
  {
    var x := pre + ds + post;
    StripPaddedDigits(pre, ds, post);
    assert PyStrip(x) == ds;
    LongDigitsRejected(ds);
    assert PyInt(PyStrip(x)) == PyInt(ds);
  }

  lemma {:induction false} StripPaddedDigits(pre: string, ds: string, post: string)
    requires forall i :: 0 <= i < |pre| ==> IsPySpace(pre[i])
    requires forall i :: 0 <= i < |post| ==> IsPySpace(post[i])
    requires ds != [] && AllDigits(ds)
    ensures PyStrip(pre + ds + post) == ds
  {
    assert IsDigit(ds[0]) && IsDigit(ds[|ds| - 1]);
    PyStripPadded(pre, ds, post);
  }

  lemma {:induction false} LongDigitsRejected(ds: string)
    requires AllDigits(ds) && |ds| > PyMaxStrDigits
    ensures PyIntLiteral(ds) == None
    ensures PyInt(ds) == None
  {
    assert IsDigit(ds[0]) && IsDigit(ds[|ds| - 1]);
    PyStripUnpadded(ds);
    assert ds[0] != '-' && ds[0] != '+';
    assert DropSign(ds) == ds;
    assert WithoutUnderscores(ds) == ds;
  }

  /** The decimal text of a C++ `int` has at most 10 digits. */
  lemma {:induction false} Int32DigitCount(v: Int32)
    ensures |NatToString(if v < 0 then 0 - v as int else v)| <= 10
  {
    var n: nat := if v < 0 then 0 - v as int else v;
    assert n < Pow10(10);
    NatToStringLength(n, 10);
  }
}
