/** The two searches the parsers perform on a line: substring presence
    (`std::string::find` / Python `in`) and the last occurrence of a
    character (`find_last_of`). */
module Strings {
  import opened Wrappers

  /** `pat` occurs somewhere in `s`. */
  predicate Contains(s: string, pat: string)
    decreases |s|
  {
    pat <= s || (s != [] && Contains(s[1..], pat))
  }

  /** The index of the last `c` in `s`, if any. */
  function LastIndexOf(s: string, c: char): (r: Option<nat>)
    ensures r.Some? ==> r.value < |s| && s[r.value] == c && c !in s[r.value + 1..]
    ensures r.None? <==> c !in s
  {
    if s == [] then None
    else if s[|s| - 1] == c then Some(|s| - 1)
    else
      assert s == s[..|s| - 1] + [s[|s| - 1]];
      LastIndexOf(s[..|s| - 1], c)
  }

  /** The text after the last `c` of `s` (what `substr(find_last_of(c) + 1)`
      and Python's `split(c)[-1]` both give), or all of `s` if there is none. */
  function AfterLast(s: string, c: char): (r: string)
    ensures c !in r
    ensures c in s ==> |r| < |s| && s == s[..|s| - |r| - 1] + [c] + r
  {
    match LastIndexOf(s, c)
    case None => s
    case Some(p) => s[p + 1..]
  }

  lemma {:induction false} PrefixContained(s: string, pat: string)
    requires pat <= s
    ensures Contains(s, pat)
  {
  }

  /** A pattern whose first character is absent from `s` does not occur in it. */
  lemma {:induction false} FirstCharAbsent(s: string, pat: string)
    requires pat != [] && pat[0] !in s
    ensures !Contains(s, pat)
    decreases |s|
  {
    if s != [] {
      assert forall c :: c in s[1..] ==> c in s;
      FirstCharAbsent(s[1..], pat);
    }
  }

  lemma {:induction false} TooShortAbsent(s: string, pat: string)
    requires |s| < |pat|
    ensures !Contains(s, pat)
    decreases |s|
  {
    if s != [] {
      TooShortAbsent(s[1..], pat);
    }
  }

  /** The last `c` of `a + [c] + b`, when `b` holds no `c`, ends `a`. */
  lemma {:induction false} AfterLastOfJoin(a: string, c: char, b: string)
    requires c !in b
    ensures AfterLast(a + [c] + b, c) == b
  {
    var s := a + [c] + b;
    assert s[|a|] == c;
    var p := LastIndexOf(s, c).value;
    assert p == |a|;
  }
}
