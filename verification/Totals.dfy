/** total of dinemeter.DataRecord: usage inside a window, records that straddle an end weighted by overlap. */
module Totals {
  import opened Counts
  import opened Regrid
  import opened Options
  import opened Records

  /** Math.round of n / d. */
  function RoundDiv(n: int, d: int): int
    requires d > 0
  {
    (2 * n + d) / (2 * d)
  }

  function Round(x: real): int {
    (x + 0.5).Floor
  }

  /** Halves are rounded up, below zero too. */
  lemma RoundsHalvesUp(n: int)
    ensures Round(n as real + 0.5) == n + 1 && RoundDiv(2 * n + 1, 2) == n + 1
  {
  }

  datatype Window = Window(start: int, end: int)

  predicate Inside(s: Sample, w: Window) {
    s.start >= w.start && s.end <= w.end
  }

  predicate CutLeft(s: Sample, w: Window) {
    !Inside(s, w) && s.end > w.start && s.end <= w.end
  }

  predicate CutRight(s: Sample, w: Window) {
    !Inside(s, w) && !CutLeft(s, w) && s.start >= w.start && s.start < w.end
  }

  predicate Counted(s: Sample, w: Window) {
    Inside(s, w) || CutLeft(s, w) || CutRight(s, w)
  }

  /** A sample counts if it lies in the window, or ends in it after its start, or starts in it before its end. */
  lemma CountedIs(s: Sample, w: Window)
    ensures Counted(s, w) <==>
            || (w.start <= s.start && s.end <= w.end)
            || w.start < s.end <= w.end
            || w.start <= s.start < w.end
  {
  }

  /** What a count x of a sample adds to the total of a window. */
  function Weighted(s: Sample, w: Window, x: int): int {
    if Inside(s, w) then x
    else if CutLeft(s, w) then RoundDiv(x * (s.end - w.start), s.end - s.start)
    else if CutRight(s, w) then RoundDiv(x * (w.end - s.start), s.end - s.start)
    else 0
  }

  function WeightedCounts(s: Sample, w: Window): Counts {
    Counts(Weighted(s, w, s.counts.down), Weighted(s, w, s.counts.up),
           Weighted(s, w, s.counts.uDown), Weighted(s, w, s.counts.uUp))
  }

  /** The total of a trust level. */
  function TotalOf(xs: seq<Sample>, w: Window, trust: nat): Counts {
    if xs == [] then ZERO
    else
      var last := xs[|xs| - 1];
      Plus(TotalOf(xs[..|xs| - 1], w, trust), if last.trust == trust then WeightedCounts(last, w) else ZERO)
  }

  /** Some sample of the trust level counts at all. */
  predicate AnyCounted(xs: seq<Sample>, w: Window, trust: nat) {
    exists i :: 0 <= i < |xs| && xs[i].trust == trust && Counted(xs[i], w)
  }

  lemma QuotientScaled(x: real, len: real, ov: real)
    requires len > 0.0 && ov > 0.0
    ensures len / ov > 0.0
    ensures x / (len / ov) * len == x * ov
  {
    var p := len / ov;
    assert p * ov == len;
    var v := x / p;
    assert v * p == x;
    assert v * (p * ov) == (v * p) * ov;
  }

  lemma RoundDivBounds(n: int, len: int)
    requires len > 0
    ensures var d := RoundDiv(n, len); d * (2 * len) <= 2 * n + len < (d + 1) * (2 * len)
  {
  }

  lemma ProductAsReal(a: int, b: int)
    ensures (a * b) as real == a as real * b as real
  {
  }

  lemma FloorFrom(v: real, l: real, d: int, b: real, m: real)
    requires l > 0.0 && b == 2.0 * l && m == 2.0 * (v * l) + l
    requires d as real * b <= m < (d + 1) as real * b
    ensures (v + 0.5).Floor == d
  {
    var u := v + 0.5;
    assert m == u * b;
    assert u < d as real ==> u * b < d as real * b;
    assert u >= (d + 1) as real ==> u * b >= (d + 1) as real * b;
    assert d as real <= u < (d + 1) as real;
  }

  /** Rounding the number v with v * len == n is rounding n / len. */
  lemma RoundScaled(v: real, n: int, len: int)
    requires len > 0 && v * len as real == n as real
    ensures Round(v) == RoundDiv(n, len)
  {
    hide RoundDiv;
    var d, l, b := RoundDiv(n, len), len as real, (2 * len) as real;
    RoundDivBounds(n, len);
    ProductAsReal(d, 2 * len);
    ProductAsReal(d + 1, 2 * len);
    assert b == 2.0 * l;
    var m := 2 * n + len;
    assert m as real == 2.0 * (v * l) + l;
    assert d as real * b <= m as real < (d + 1) as real * b;
    FloorFrom(v, l, d, b, m as real);
  }

  lemma RoundOfQuotient(x: int, len: int, ov: int)
    requires len > 0 && ov > 0
    ensures len as real / ov as real != 0.0
    ensures Round(x as real / (len as real / ov as real)) == RoundDiv(x * ov, len)
  {
    QuotientScaled(x as real, len as real, ov as real);
    ProductAsReal(x, ov);
    RoundScaled(x as real / (len as real / ov as real), x * ov, len);
  }

  // ---------- the method ----------

  /** The per-trust-level records of total. */
  ghost predicate Summed(xs: seq<Sample>, w: Window, sort: map<nat, DataRecord>, only: Option<nat>)
    reads sort.Values
  {
    && (forall t :: t in sort <==> AnyCounted(xs, w, t) && (only.Some? ==> t == only.value))
    && (forall t :: t in sort ==> sort[t].trust == t && sort[t].start == w.start && sort[t].end == w.end
                                  && sort[t].CountsOf() == TotalOf(xs, w, t))
  }

  lemma UncountedIsZero(s: Sample, w: Window)
    ensures !Counted(s, w) ==> WeightedCounts(s, w) == ZERO
  {
  }

  lemma OneMore(xs: seq<Sample>, n: nat, w: Window, trust: nat)
    requires n < |xs|
    ensures AnyCounted(xs[..n + 1], w, trust) <==>
            AnyCounted(xs[..n], w, trust) || (xs[n].trust == trust && Counted(xs[n], w))
    ensures TotalOf(xs[..n + 1], w, trust) ==
            Plus(TotalOf(xs[..n], w, trust), if xs[n].trust == trust then WeightedCounts(xs[n], w) else ZERO)
  {
    var ys := xs[..n + 1];
    assert ys[..n] == xs[..n] && ys[n] == xs[n];
    if AnyCounted(xs[..n], w, trust) {
      var i :| 0 <= i < n && xs[..n][i].trust == trust && Counted(xs[..n][i], w);
      assert ys[i] == xs[..n][i];
    }
    if AnyCounted(ys, w, trust) {
      var i :| 0 <= i < |ys| && ys[i].trust == trust && Counted(ys[i], w);
      assert i < n ==> xs[..n][i] == ys[i];
    }
  }

  lemma {:induction false} NoneCounted(xs: seq<Sample>, w: Window, trust: nat)
    requires !AnyCounted(xs, w, trust)
    ensures TotalOf(xs, w, trust) == ZERO
  {
    hide AnyCounted;
    hide Counted;
    hide WeightedCounts;
    hide Plus;
    if xs == [] {
    } else {
      var n := |xs| - 1;
      assert xs[..n + 1] == xs;
      OneMore(xs, n, w, trust);
      NoneCounted(xs[..n], w, trust);
      UncountedIsZero(xs[n], w);
      PlusZero(ZERO);
    }
  }

  /** The record of a trust level, made on first use. */
  method RecordFor(sort0: map<nat, DataRecord>, trust: nat, w: Window)
    returns (sort: map<nat, DataRecord>, r: DataRecord)
    ensures sort.Keys == sort0.Keys + {trust} && sort[trust] == r
    ensures forall t :: t in sort0 ==> sort[t] == sort0[t]
    ensures trust !in sort0 ==>
              fresh(r) && r.trust == trust && r.start == w.start && r.end == w.end && r.CountsOf() == ZERO
  {
    sort := sort0;
    if trust in sort {
      r := sort[trust];
    } else {
      r := new DataRecord();
      r.start := w.start;
      r.end := w.end;
      r.trust := trust;
      sort := sort[trust := r];
    }
  }

  /** What a sample adds, by the source's quotient of lengths. */
  method WeightedOf(sample: DataRecord, w: Window) returns (down: int, up: int, uDown: int, uUp: int)
    requires Counted(sample.Value(), w)
    ensures Counts(down, up, uDown, uUp) == WeightedCounts(sample.Value(), w)
  {
    ghost var s := sample.Value();
    hide Round;
    hide RoundDiv;
    if sample.start >= w.start && sample.end <= w.end {
      return sample.down, sample.up, sample.uDown, sample.uUp;
    }
    ghost var len := s.end - s.start;
    var p;
    ghost var ov;
    if sample.end > w.start && sample.end <= w.end {
      ov := s.end - w.start;
      RoundOfQuotient(0, len, ov);
      p := (sample.end - sample.start) as real / (sample.end - w.start) as real;
    } else {
      ov := w.end - s.start;
      RoundOfQuotient(0, len, ov);
      p := (sample.end - sample.start) as real / (w.end - sample.start) as real;
    }
    RoundOfQuotient(s.counts.down, len, ov);
    RoundOfQuotient(s.counts.up, len, ov);
    RoundOfQuotient(s.counts.uDown, len, ov);
    RoundOfQuotient(s.counts.uUp, len, ov);
    down := Round(sample.down as real / p);
    up := Round(sample.up as real / p);
    uDown := Round(sample.uDown as real / p);
    uUp := Round(sample.uUp as real / p);
  }

  /** One sample of the loop of total. */
  method Count(sample: DataRecord, w: Window, only: Option<nat>, sort0: map<nat, DataRecord>,
               ghost xs: seq<Sample>, ghost n: nat)
    returns (sort: map<nat, DataRecord>)
    requires n < |xs| && sample.Value() == xs[n] && sample !in sort0.Values
    requires Summed(xs[..n], w, sort0, only)
    modifies sort0.Values
    ensures Summed(xs[..n + 1], w, sort, only)
    ensures fresh(sort.Values - sort0.Values)
  {
    hide WeightedCounts;
    hide TotalOf;
    hide AnyCounted;
    hide Plus;
    ghost var s := xs[n];
    sort := sort0;
    forall t
      ensures AnyCounted(xs[..n + 1], w, t) <==> AnyCounted(xs[..n], w, t) || (s.trust == t && Counted(s, w))
      ensures TotalOf(xs[..n + 1], w, t) ==
              Plus(TotalOf(xs[..n], w, t), if s.trust == t then WeightedCounts(s, w) else ZERO)
      ensures Plus(TotalOf(xs[..n], w, t), ZERO) == TotalOf(xs[..n], w, t)
      ensures !AnyCounted(xs[..n], w, t) ==> TotalOf(xs[..n], w, t) == ZERO
    {
      OneMore(xs, n, w, t);
      PlusZero(TotalOf(xs[..n], w, t));
      if !AnyCounted(xs[..n], w, t) {
        NoneCounted(xs[..n], w, t);
      }
    }
    UncountedIsZero(s, w);
    if only.Some? && only.value != sample.trust {
      return;
    }
    if Counted(Sample(sample.trust, sample.userId, sample.start, sample.end, ZERO), w) {
      var r;
      sort, r := RecordFor(sort0, sample.trust, w);
      var down, up, uDown, uUp := WeightedOf(sample, w);
      AddTo(r, down, up, uDown, uUp);
    }
  }

  method Least(ts: set<nat>) returns (least: nat)
    requires ts != {}
    ensures least in ts && forall t :: t in ts ==> least <= t
  {
    least :| least in ts;
    var rest := ts - {least};
    while rest != {}
      invariant rest <= ts && least in ts
      invariant forall t :: t in ts && t !in rest ==> least <= t
      decreases rest
    {
      var t :| t in rest;
      rest := rest - {t};
      if t < least {
        least := t;
      }
    }
  }

  /**
    total: for one trust level its record, or nothing if no sample of it counts; for no trust level
    the record of the lowest one that has any, or an empty record.
   */
  method Total(current: seq<DataRecord>, start: int, end: int, trustLevel: Option<nat>) returns (out: DataRecord?)
    ensures var xs, w := Values(current), Window(start, end);
            match trustLevel
            case Some(t) =>
              if AnyCounted(xs, w, t) then
                && out != null && fresh(out) && out.trust == t && out.start == start && out.end == end
                && out.CountsOf() == TotalOf(xs, w, t)
              else out == null
            case None =>
              out != null && fresh(out) &&
              if exists t :: AnyCounted(xs, w, t) then
                && AnyCounted(xs, w, out.trust) && (forall t :: AnyCounted(xs, w, t) ==> out.trust <= t)
                && out.start == start && out.end == end && out.CountsOf() == TotalOf(xs, w, out.trust)
              else out.CountsOf() == ZERO
  {
    var w := Window(start, end);
    ghost var xs := Values(current);
    var sort: map<nat, DataRecord> := map[];
    for n := 0 to |current|
      invariant Summed(xs[..n], w, sort, trustLevel)
      invariant fresh(sort.Values)
      invariant Values(current) == xs
    {
      sort := Count(current[n], w, trustLevel, sort, xs, n);
    }
    assert xs[..|current|] == xs;
    match trustLevel {
      case Some(t) =>
        out := if t in sort then sort[t] else null;
      case None =>
        if sort.Keys == {} {
          assert forall t :: AnyCounted(xs, w, t) ==> t in sort;
          out := new DataRecord();
        } else {
          assert forall t :: t in sort ==> AnyCounted(xs, w, t);
          var t := Least(sort.Keys);
          out := sort[t];
          assert sort[t] in sort.Values;
        }
    }
  }
}
