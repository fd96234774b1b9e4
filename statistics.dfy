/** The arithmetic the main program does on rolls: the mean of
    `calcularMedia`, the concatenation of every session that
    `atualizarMediaTotal` builds, the per-value counts of
    `calcularDistribuicaoNormal` and their conversion to percentages.
    `double` arithmetic is modelled by exact `real` arithmetic. */
module Statistics {
  import opened Sequences

  function Sum(s: seq<int>): int {
    if s == [] then 0 else Sum(s[..|s| - 1]) + s[|s| - 1]
  }

  /** All rolls of all sessions, session after session, in order. */
  function Flatten(h: seq<seq<int>>): seq<int> {
    if h == [] then [] else Flatten(h[..|h| - 1]) + h[|h| - 1]
  }

  /** `calcularMedia`: 0 for no rolls, otherwise the sum over the count. */
  function Mean(s: seq<int>): real {
    if s == [] then 0.0 else Sum(s) as real / |s| as real
  }

  /** The number of rolls in `s` equal to `k`. */
  function Count(s: seq<int>, k: int): nat {
    if s == [] then 0 else Count(s[..|s| - 1], k) + (if s[|s| - 1] == k then 1 else 0)
  }

  /** `Count(s, lo) + ... + Count(s, hi)`. */
  function CountsBetween(s: seq<int>, lo: int, hi: int): nat
    decreases hi - lo
  {
    if hi < lo then 0 else CountsBetween(s, lo, hi - 1) + Count(s, hi)
  }

  /** The entry of `calcularDistribuicaoNormal` for a value seen `c` times
      among `total` rolls: a percentage when there are rolls, the raw count
      (necessarily 0) otherwise. */
  function Percentage(c: nat, total: int): real {
    if total > 0 then (c as real / total as real) * 100.0 else c as real
  }

  // ---------------------------------------------------------------------
  // The loops of `calcularMedia`

  /** The accumulating loop of `calcularMedia`. */
  method ComputeMean(s: seq<int>) returns (m: real)
    ensures m == Mean(s)
  {
    if s == [] {
      return 0.0;
    }
    var sum := 0;
    var i := 0;
    while i < |s|
      invariant 0 <= i <= |s|
      invariant sum == Sum(s[..i])
    {
      assert s[..i + 1][..i] == s[..i];
      sum := sum + s[i];
      i := i + 1;
    }
    assert s[..i] == s;
    m := sum as real / |s| as real;
  }

  // ---------------------------------------------------------------------
  // Lemmas

  lemma {:induction false} SumAppend(a: seq<int>, b: seq<int>)
    ensures Sum(a + b) == Sum(a) + Sum(b)
    decreases |b|
  {
    if b != [] {
      var init := b[..|b| - 1];
      SumAppend(a, init);
      SnocSplit(a, b);
    } else {
      assert a + b == a;
    }
  }

  lemma {:induction false} FlattenLength(h: seq<seq<int>>)
    ensures |Flatten(h)| == SizesSum(h)
  {
    if h != [] {
      FlattenLength(h[..|h| - 1]);
    }
  }

  /** `|h[0]| + ... + |h[|h| - 1]|`. */
  function SizesSum(h: seq<seq<int>>): nat {
    if h == [] then 0 else SizesSum(h[..|h| - 1]) + |h[|h| - 1]|
  }

  /** Appending a session adds its sum and its size to those of the
      concatenation, so the total mean weighs every roll once. */
  lemma {:induction false} SumOfAppendedSession(h: seq<seq<int>>, r: seq<int>)
    ensures Sum(Flatten(h + [r])) == Sum(Flatten(h)) + Sum(r)
    ensures |Flatten(h + [r])| == |Flatten(h)| + |r|
  {
    assert (h + [r])[..|h|] == h;
    SumAppend(Flatten(h), r);
  }

  lemma {:induction false} SumBounds(s: seq<int>, lo: int, hi: int)
    requires forall i :: 0 <= i < |s| ==> lo <= s[i] <= hi
    ensures lo * |s| <= Sum(s) <= hi * |s|
  {
    if s != [] {
      var init := s[..|s| - 1];
      assert forall i :: 0 <= i < |init| ==> init[i] == s[i];
      SumBounds(init, lo, hi);
    }
  }

  /** The mean of rolls that lie between `lo` and `hi` lies between them too. */
  lemma {:induction false} MeanBounds(s: seq<int>, lo: int, hi: int)
    requires s != []
    requires forall i :: 0 <= i < |s| ==> lo <= s[i] <= hi
    ensures lo as real <= Mean(s) <= hi as real
  {
    SumBounds(s, lo, hi);
    CastProduct(lo, |s|);
    CastProduct(hi, |s|);
    QuotientBounds(lo as real, hi as real, Sum(s) as real, |s| as real);
  }

  lemma CastProduct(a: int, b: int)
    ensures (a * b) as real == a as real * b as real
  {
  }

  lemma QuotientBounds(lo: real, hi: real, x: real, n: real)
    requires n > 0.0 && lo * n <= x <= hi * n
    ensures lo <= x / n <= hi
  {
  }

  /** `Count` is the multiplicity of `k` in the rolls. */
  lemma {:induction false} CountIsMultiplicity(s: seq<int>, k: int)
    ensures Count(s, k) == multiset(s)[k]
  {
    if s != [] {
      var init := s[..|s| - 1];
      CountIsMultiplicity(init, k);
      assert s == init + [s[|s| - 1]];
    }
  }

  lemma CountSnoc(s: seq<int>, x: int, k: int)
    ensures Count(s + [x], k) == Count(s, k) + (if x == k then 1 else 0)
  {
    assert (s + [x])[..|s|] == s;
  }

  /** One more roll adds one to the counts of the range it falls in. */
  lemma {:induction false} CountsBetweenSnoc(s: seq<int>, x: int, lo: int, hi: int)
    ensures CountsBetween(s + [x], lo, hi) == CountsBetween(s, lo, hi) + (if lo <= x <= hi then 1 else 0)
    decreases hi - lo
  {
    if lo <= hi {
      CountsBetweenSnoc(s, x, lo, hi - 1);
      CountSnoc(s, x, hi);
    }
  }

  /** When every roll lies in `lo..hi`, the counts of the values `lo..hi`
      add up to the number of rolls. */
  lemma {:induction false} CountsCoverAllRolls(s: seq<int>, lo: int, hi: int)
    requires forall i :: 0 <= i < |s| ==> lo <= s[i] <= hi
    ensures CountsBetween(s, lo, hi) == |s|
  {
    if s == [] {
      CountsOfEmpty(lo, hi);
    } else {
      var init := s[..|s| - 1];
      assert forall i :: 0 <= i < |init| ==> init[i] == s[i];
      CountsCoverAllRolls(init, lo, hi);
      assert s == init + [s[|s| - 1]];
      CountsBetweenSnoc(init, s[|s| - 1], lo, hi);
    }
  }

  lemma {:induction false} CountsOfEmpty(lo: int, hi: int)
    ensures CountsBetween([], lo, hi) == 0
    decreases hi - lo
  {
    if lo <= hi {
      CountsOfEmpty(lo, hi - 1);
    }
  }

  /** `Percentage(c_lo) + ... + Percentage(c_hi)`. */
  function PercentagesBetween(s: seq<int>, lo: int, hi: int): real
    decreases hi - lo
  {
    if hi < lo then 0.0 else PercentagesBetween(s, lo, hi - 1) + Percentage(Count(s, hi), |s|)
  }

  lemma {:induction false} PercentagesScaleCounts(s: seq<int>, lo: int, hi: int)
    requires s != []
    ensures PercentagesBetween(s, lo, hi) == (CountsBetween(s, lo, hi) as real / |s| as real) * 100.0
    decreases hi - lo
  {
    if lo <= hi {
      PercentagesScaleCounts(s, lo, hi - 1);
      var x := CountsBetween(s, lo, hi - 1);
      var c := Count(s, hi);
      assert (x + c) as real == x as real + c as real;
      AddPercentages(x as real, c as real, |s| as real);
    }
  }

  lemma AddPercentages(x: real, y: real, n: real)
    requires n > 0.0
    ensures (x / n) * 100.0 + (y / n) * 100.0 == ((x + y) / n) * 100.0
  {
  }

  /** When there are rolls and all lie in `lo..hi`, the percentages of the
      values `lo..hi` add up to 100. */
  lemma {:induction false} PercentagesAddUpTo100(s: seq<int>, lo: int, hi: int)
    requires s != []
    requires forall i :: 0 <= i < |s| ==> lo <= s[i] <= hi
    ensures PercentagesBetween(s, lo, hi) == 100.0
  {
    PercentagesScaleCounts(s, lo, hi);
    CountsCoverAllRolls(s, lo, hi);
    WholeIsHundredPercent(|s| as real);
  }

  lemma WholeIsHundredPercent(n: real)
    requires n > 0.0
    ensures (n / n) * 100.0 == 100.0
  {
  }
}
