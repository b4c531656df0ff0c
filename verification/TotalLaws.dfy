/** How far a total is from the exact overlap-weighted sum, and what cutting a window in two does. */
module TotalLaws {
  import opened Counts
  import opened Regrid
  import opened Totals

  datatype Field = Down | Up | UDown | UUp

  function Pick(c: Counts, f: Field): int {
    match f
    case Down => c.down
    case Up => c.up
    case UDown => c.uDown
    case UUp => c.uUp
  }

  /** The sample covers the window and more at both ends. */
  predicate StrictlyContains(s: Sample, w: Window) {
    s.start < w.start && s.end > w.end
  }

  predicate Partial(s: Sample, w: Window) {
    Counted(s, w) && !Inside(s, w)
  }

  /** The part of a count that belongs to the window if it is spread evenly over the sample. */
  function Exact(s: Sample, w: Window, x: int): real {
    var from := if s.start > w.start then s.start else w.start;
    var to := if s.end < w.end then s.end else w.end;
    if Inside(s, w) then x as real
    else if from < to && s.start < s.end then (x * (to - from)) as real / (s.end - s.start) as real
    else 0.0
  }

  /** At most one half apart for each of n numbers rounded. */
  predicate WithinHalves(a: int, b: real, n: int) {
    -0.5 * n as real <= a as real - b <= 0.5 * n as real
  }

  predicate WithinHalf(a: int, b: real) {
    WithinHalves(a, b, 1)
  }

  lemma CastBounds(lo: int, n: int, d: int)
    requires 2 * lo <= 2 * n + d <= 2 * lo + 2 * d
    ensures 2.0 * lo as real <= 2.0 * n as real + d as real <= 2.0 * lo as real + 2.0 * d as real
  {
    assert (2 * n + d) as real == 2.0 * n as real + d as real;
    assert (2 * lo + 2 * d) as real == 2.0 * lo as real + 2.0 * d as real;
  }

  lemma Close(q: real, v: real, l: real, ql: real, vl: real)
    requires l > 0.0 && ql == q * l && vl == v * l
    requires 2.0 * ql <= 2.0 * vl + l <= 2.0 * ql + 2.0 * l
    ensures -0.5 <= q - v <= 0.5
  {
    var e := q - v;
    assert e * l == ql - vl;
    assert e > 0.5 ==> e * l > 0.5 * l;
    assert e < -0.5 ==> e * l < -0.5 * l;
  }

  lemma RoundDivClose(n: int, d: int)
    requires d > 0
    ensures WithinHalf(RoundDiv(n, d), n as real / d as real)
  {
    hide RoundDiv;
    RoundDivBounds(n, d);
    var q, l, v := RoundDiv(n, d), d as real, n as real / d as real;
    var lo := q * d;
    assert q * (2 * d) == 2 * lo && (q + 1) * (2 * d) == 2 * lo + 2 * d;
    assert 2 * lo <= 2 * n + d <= 2 * lo + 2 * d;
    ProductAsReal(q, d);
    assert v * l == n as real;
    CastBounds(lo, n, d);
    Close(q as real, v, l, lo as real, n as real);
  }

  /**
    A sample that does not cover the window at both ends is counted within one half of its exact
    share, and exactly if it lies inside or outside; one that does is not counted at all.
   */
  lemma ShareError(s: Sample, w: Window, x: int)
    ensures if StrictlyContains(s, w) then Weighted(s, w, x) == 0
            else if Partial(s, w) then WithinHalf(Weighted(s, w, x), Exact(s, w, x))
            else Weighted(s, w, x) as real == Exact(s, w, x)
  {
    hide RoundDiv;
    hide WithinHalf;
    if Partial(s, w) {
      RoundDivClose(x * (s.end - w.start), s.end - s.start);
      RoundDivClose(x * (w.end - s.start), s.end - s.start);
    }
  }

  lemma WholeSeconds(len: int, k: int)
    requires len > 0
    ensures (len * k) as real / len as real == k as real
  {
    ProductAsReal(len, k);
  }

  /** Being within one half of the exact share for every count fails exactly for those samples. */
  lemma IgnoredExactly(s: Sample, w: Window)
    ensures (forall x: int :: WithinHalf(Weighted(s, w, x), Exact(s, w, x))) <==>
            !(StrictlyContains(s, w) && w.start < w.end)
  {
    if StrictlyContains(s, w) && w.start < w.end {
      var len := s.end - s.start;
      ShareError(s, w, len);
      WholeSeconds(len, w.end - w.start);
      assert !WithinHalf(Weighted(s, w, len), Exact(s, w, len));
    } else {
      forall x: int
        ensures WithinHalf(Weighted(s, w, x), Exact(s, w, x))
      {
        ShareError(s, w, x);
      }
    }
  }

  /** Half a minute of traffic leaves nothing in the ten seconds in its middle, where a third belongs. */
  lemma IgnoredExample()
    ensures var s, w := Sample(0, 0, 0, 30, Counts(30, 0, 0, 0)), Window(10, 20);
            StrictlyContains(s, w) && Weighted(s, w, 30) == 0 && Exact(s, w, 30) == 10.0
  {
    WholeSeconds(30, 10);
  }

  // ---------- sums ----------

  function ExactSum(xs: seq<Sample>, w: Window, trust: nat, f: Field): real {
    if xs == [] then 0.0
    else
      var last := xs[|xs| - 1];
      ExactSum(xs[..|xs| - 1], w, trust, f) + if last.trust == trust then Exact(last, w, Pick(last.counts, f)) else 0.0
  }

  /** The exact shares of the samples covering the window at both ends. */
  function IgnoredSum(xs: seq<Sample>, w: Window, trust: nat, f: Field): real {
    if xs == [] then 0.0
    else
      var last := xs[|xs| - 1];
      IgnoredSum(xs[..|xs| - 1], w, trust, f) +
      if last.trust == trust && StrictlyContains(last, w) then Exact(last, w, Pick(last.counts, f)) else 0.0
  }

  function Partials(xs: seq<Sample>, w: Window, trust: nat): nat {
    if xs == [] then 0
    else
      var last := xs[|xs| - 1];
      Partials(xs[..|xs| - 1], w, trust) + if last.trust == trust && Partial(last, w) then 1 else 0
  }

  lemma TotalUnfolds(xs: seq<Sample>, w: Window, trust: nat)
    requires xs != []
    ensures TotalOf(xs, w, trust) ==
            Plus(TotalOf(xs[..|xs| - 1], w, trust),
                 if xs[|xs| - 1].trust == trust then WeightedCounts(xs[|xs| - 1], w) else ZERO)
  {
    hide WeightedCounts;
  }

  lemma PickPlus(a: Counts, b: Counts, f: Field)
    ensures Pick(Plus(a, b), f) == Pick(a, f) + Pick(b, f)
  {
  }

  lemma PickTotal(xs: seq<Sample>, w: Window, trust: nat, f: Field)
    requires xs != []
    ensures var last := xs[|xs| - 1];
            Pick(TotalOf(xs, w, trust), f) ==
            Pick(TotalOf(xs[..|xs| - 1], w, trust), f) +
            if last.trust == trust then Weighted(last, w, Pick(last.counts, f)) else 0
  {
    hide Weighted;
    hide TotalOf;
    var last := xs[|xs| - 1];
    TotalUnfolds(xs, w, trust);
    PickPlus(TotalOf(xs[..|xs| - 1], w, trust), if last.trust == trust then WeightedCounts(last, w) else ZERO, f);
    hide Plus;
  }

  lemma EmptyTotal(w: Window, trust: nat)
    ensures TotalOf([], w, trust) == ZERO
  {
  }

  lemma ContainsIsNotPartial(s: Sample, w: Window)
    ensures StrictlyContains(s, w) ==> !Partial(s, w)
  {
  }

  /**
    For every trust level and field, the total is within half a byte per partly overlapping record
    of the exact weighted sum, less exactly the shares of the records covering the window and more.
   */
  lemma {:induction false} TotalError(xs: seq<Sample>, w: Window, trust: nat, f: Field)
    ensures WithinHalves(Pick(TotalOf(xs, w, trust), f), ExactSum(xs, w, trust, f) - IgnoredSum(xs, w, trust, f),
                         Partials(xs, w, trust))
  {
    hide Weighted;
    hide Exact;
    hide Partial;
    hide TotalOf;
    if xs == [] {
      EmptyTotal(w, trust);
    } else {
      var last := xs[|xs| - 1];
      TotalError(xs[..|xs| - 1], w, trust, f);
      PickTotal(xs, w, trust, f);
      ShareError(last, w, Pick(last.counts, f));
      ContainsIsNotPartial(last, w);
    }
  }

  lemma {:induction false} NoneIgnored(xs: seq<Sample>, w: Window, trust: nat, f: Field)
    requires forall i :: 0 <= i < |xs| ==> !StrictlyContains(xs[i], w)
    ensures IgnoredSum(xs, w, trust, f) == 0.0
  {
    if xs == [] {
    } else {
      NoneIgnored(xs[..|xs| - 1], w, trust, f);
    }
  }

  // ---------- cutting a window ----------

  predicate Crosses(s: Sample, b: int) {
    s.start < b < s.end
  }

  function Crossing(xs: seq<Sample>, b: int, trust: nat): nat {
    if xs == [] then 0
    else
      var last := xs[|xs| - 1];
      Crossing(xs[..|xs| - 1], b, trust) + if last.trust == trust && Crosses(last, b) then 1 else 0
  }

  /** Rounding two parts of a count separately gains at most one. */
  lemma RoundedParts(x: int, p: int, q: int, d: int)
    requires d > 0 && p + q == d
    ensures 0 <= RoundDiv(x * p, d) + RoundDiv(x * q, d) - x <= 1
  {
    var a, b := RoundDiv(x * p, d), RoundDiv(x * q, d);
    RoundDivBounds(x * p, d);
    RoundDivBounds(x * q, d);
    hide RoundDiv;
    assert x * p + x * q == x * d;
    assert a * (2 * d) + b * (2 * d) == (a + b) * (2 * d);
    assert (a + 1) * (2 * d) == a * (2 * d) + 2 * d && (b + 1) * (2 * d) == b * (2 * d) + 2 * d;
    var e := a + b - x;
    assert (a + b) * (2 * d) == x * (2 * d) + e * (2 * d);
    assert x * (2 * d) == 2 * (x * d);
    assert e >= 2 ==> e * (2 * d) >= 4 * d;
    assert e <= -1 ==> e * (2 * d) <= -2 * d;
  }

  lemma CutOne(s: Sample, a: int, b: int, c: int, x: int)
    requires a <= s.start < s.end <= c && a <= b <= c
    ensures var gain := Weighted(s, Window(a, b), x) + Weighted(s, Window(b, c), x) - Weighted(s, Window(a, c), x);
            if Crosses(s, b) then 0 <= gain <= 1 else gain == 0
  {
    hide RoundDiv;
    if Crosses(s, b) {
      RoundedParts(x, b - s.start, s.end - b, s.end - s.start);
    }
  }

  /**
    When all records are non-empty and inside a window, cutting the window in two adds to every
    field of the total at least nothing and at most one for each record crossing the cut.
   */
  lemma {:induction false} CutWindow(xs: seq<Sample>, a: int, b: int, c: int, trust: nat, f: Field)
    requires a <= b <= c && forall i :: 0 <= i < |xs| ==> a <= xs[i].start < xs[i].end <= c
    ensures var gain := Pick(TotalOf(xs, Window(a, b), trust), f) + Pick(TotalOf(xs, Window(b, c), trust), f)
                        - Pick(TotalOf(xs, Window(a, c), trust), f);
            0 <= gain <= Crossing(xs, b, trust)
  {
    hide Weighted;
    hide TotalOf;
    if xs == [] {
      EmptyTotal(Window(a, b), trust);
      EmptyTotal(Window(b, c), trust);
      EmptyTotal(Window(a, c), trust);
    } else {
      var last := xs[|xs| - 1];
      CutWindow(xs[..|xs| - 1], a, b, c, trust, f);
      PickTotal(xs, Window(a, b), trust, f);
      PickTotal(xs, Window(b, c), trust, f);
      PickTotal(xs, Window(a, c), trust, f);
      CutOne(last, a, b, c, Pick(last.counts, f));
    }
  }
}
