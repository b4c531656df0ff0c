/** How far rounding moves the pieces of a cut sample from their exact shares. */
module Rounding {
  import opened Bits
  import opened Counts
  import opened Regrid
  import opened RegridLaws

  /** Seconds of the sample before a touched slot. */
  function Before(g: Grid, s: Sample, slot: int): int {
    if slot == First(g, s) then 0 else slot - s.start
  }

  /** Number of touched slots before this one. */
  function Index(g: Grid, s: Sample, slot: int): int {
    (slot - First(g, s)) / g.step
  }

  lemma FloorBounds(x: int, w: int, len: int)
    requires len > 0
    ensures x * w / len * len <= x * w < (x * w / len + 1) * len
  {
  }

  lemma IndexStep(g: Grid, s: Sample, slot: int)
    requires Touches(g, s, slot) && slot != First(g, s)
    ensures Touches(g, s, slot - g.step) && Index(g, s, slot) == Index(g, s, slot - g.step) + 1
    ensures Before(g, s, slot) == Before(g, s, slot - g.step) + Overlap(g, s, slot - g.step)
  {
    var last := slot - g.step;
    hide FloorTo;
    FloorOnGrid(g, s.start);
    FloorOnGrid(g, s.end - 1);
    GridStep(g, First(g, s), slot);
    GridStep(g, slot, slot);
    GridStep(g, First(g, s), last);
    InsideSlot(g, s, last);
    var q := Index(g, s, last);
    ModUnique(slot - First(g, s), g.step, q + 1, (last - First(g, s)) % g.step);
  }

  lemma GivenNext(g: Grid, s: Sample, x: int, slot: int)
    requires s.start < s.end && slot > First(g, s)
    ensures Given(g, s, x, slot) == Given(g, s, x, slot - g.step) + Floored(g, s, x, slot - g.step)
    ensures var len, w, floored := s.end - s.start, Overlap(g, s, slot - g.step), Floored(g, s, x, slot - g.step);
            floored * len <= x * w < (floored + 1) * len
  {
    FloorBounds(x, Overlap(g, s, slot - g.step), s.end - s.start);
  }

  lemma IndexOfFirst(g: Grid, s: Sample)
    ensures Index(g, s, First(g, s)) == 0
  {
  }

  lemma GivenFirst(g: Grid, s: Sample, x: int, len: int)
    requires s.start != s.end
    ensures Given(g, s, x, First(g, s)) * len == 0 && x * Before(g, s, First(g, s)) == 0
    ensures Index(g, s, First(g, s)) * len == 0
  {
    IndexOfFirst(g, s);
  }

  lemma BoundsAdd(x: int, b: int, w: int, i: int, given: int, floored: int, len: int)
    requires x * b - i * len <= given * len <= x * b
    requires floored * len <= x * w < (floored + 1) * len
    ensures x * (b + w) - (i + 1) * len <= (given + floored) * len <= x * (b + w)
  {
    assert x * (b + w) == x * b + x * w;
    assert (given + floored) * len == given * len + floored * len;
    assert (i + 1) * len == i * len + len;
  }

  /** The slots before a touched one get at most their exact share, and less than one per slot too little. */
  lemma {:induction false} GivenBounds(g: Grid, s: Sample, x: int, slot: int)
    requires s.start < s.end && Touches(g, s, slot)
    ensures var len := s.end - s.start;
            x * Before(g, s, slot) - Index(g, s, slot) * len <= Given(g, s, x, slot) * len <= x * Before(g, s, slot)
    decreases slot - First(g, s)
  {
    hide FloorTo;
    hide Given;
    hide Floored;
    hide Overlap;
    hide Index;
    hide Before;
    var len := s.end - s.start;
    if slot == First(g, s) {
      GivenFirst(g, s, x, len);
    } else {
      var last := slot - g.step;
      IndexStep(g, s, slot);
      GivenBounds(g, s, x, last);
      GivenNext(g, s, x, slot);
      BoundsAdd(x, Before(g, s, last), Overlap(g, s, last), Index(g, s, last), Given(g, s, x, last),
                Floored(g, s, x, last), len);
    }
  }

  /** The seconds before the last slot and those in it are the whole length. */
  lemma LastOverlap(g: Grid, s: Sample)
    requires s.start < s.end
    ensures First(g, s) <= Last(g, s) && Touches(g, s, Last(g, s))
    ensures Before(g, s, Last(g, s)) + Overlap(g, s, Last(g, s)) == s.end - s.start
  {
    hide FloorTo;
    FloorMonotone(g, s.start, s.end - 1);
    FloorOnGrid(g, s.start);
    FloorOnGrid(g, s.end - 1);
    if First(g, s) < Last(g, s) {
      GridStep(g, First(g, s), Last(g, s));
    }
  }

  lemma FlooredBounds(g: Grid, s: Sample, x: int, slot: int)
    requires s.start < s.end
    ensures var len, exact, floored := s.end - s.start, x * Overlap(g, s, slot), Floored(g, s, x, slot);
            exact - len < floored * len <= exact
  {
    hide Overlap;
    var len, floored := s.end - s.start, Floored(g, s, x, slot);
    FloorBounds(x, Overlap(g, s, slot), len);
    assert (floored + 1) * len == floored * len + len;
  }

  /** What is left of x after the seconds before the last slot were given their parts. */
  lemma Remainder(x: int, before: int, w: int, len: int, given: int, index: int)
    requires before + w == len && x * before - index * len <= given * len <= x * before
    ensures x * w <= (x - given) * len <= x * w + index * len
  {
    assert x * len == x * before + x * w;
    assert (x - given) * len == x * len - given * len;
  }

  /**
    Every slot but the last gets its exact share of a count rounded down; the last gets at least its
    exact share and at most one more for every other slot. Exact shares are scaled by the length.
   */
  lemma ShareBounds(g: Grid, s: Sample, x: int, slot: int)
    requires s.start < s.end && Touches(g, s, slot)
    ensures var len, exact, share := s.end - s.start, x * Overlap(g, s, slot), Share(g, s, x, slot);
            if slot < Last(g, s) then exact - len < share * len <= exact
            else exact <= share * len <= exact + Index(g, s, slot) * len
  {
    hide FloorTo;
    hide Overlap;
    hide Given;
    hide Before;
    hide Index;
    hide Floored;
    if slot < Last(g, s) {
      FlooredBounds(g, s, x, slot);
    } else {
      GivenBounds(g, s, x, slot);
      LastOverlap(g, s);
      Remainder(x, Before(g, s, slot), Overlap(g, s, slot), s.end - s.start, Given(g, s, x, slot), Index(g, s, slot));
    }
  }

  lemma SignOfShare(x: int, w: int, share: int, len: int)
    requires x >= 0 && w > 0 && len > 0
    ensures x * w - len < share * len ==> share >= 0
    ensures x > 0 && x * w <= share * len ==> share > 0
  {
    assert x * w >= 0;
    assert x > 0 ==> x * w > 0;
    assert share <= -1 ==> share * len <= -len;
    assert share == 0 ==> share * len == 0;
  }

  lemma OverlapPositive(g: Grid, s: Sample, slot: int)
    requires s.start < s.end && Touches(g, s, slot)
    ensures Overlap(g, s, slot) > 0
  {
    hide FloorTo;
    FloorOnGrid(g, s.start);
    FloorOnGrid(g, s.end - 1);
    if First(g, s) < slot {
      GridStep(g, First(g, s), slot);
    }
    if slot < Last(g, s) {
      GridStep(g, slot, Last(g, s));
    }
  }

  /** Of a non-negative count no slot gets less than nothing, and of a positive one the last gets something. */
  lemma SharesNonNegative(g: Grid, s: Sample, x: int, slot: int)
    requires s.start != s.end && Touches(g, s, slot) && x >= 0
    ensures Share(g, s, x, slot) >= 0
    ensures slot == Last(g, s) && x > 0 ==> Share(g, s, x, slot) > 0
  {
    if s.start < s.end {
      ShareBounds(g, s, x, slot);
      OverlapPositive(g, s, slot);
      hide FloorTo;
      hide Share;
      hide Overlap;
      SignOfShare(x, Overlap(g, s, slot), Share(g, s, x, slot), s.end - s.start);
    } else {
      FloorMonotone(g, s.end - 1, s.start);
      assert slot == First(g, s) == Last(g, s);
    }
  }

  lemma PartNonNegative(g: Grid, s: Sample, k: Key)
    requires NonNegative(s.counts)
    ensures NonNegative(Part(g, s, k))
    ensures k in Slots(g, s) && k.slot == Last(g, Bumped(s)) && s.counts != ZERO ==> Part(g, s, k) != ZERO
  {
    if k in Slots(g, s) {
      var b := Bumped(s);
      SharesNonNegative(g, b, s.counts.down, k.slot);
      SharesNonNegative(g, b, s.counts.up, k.slot);
      SharesNonNegative(g, b, s.counts.uDown, k.slot);
      SharesNonNegative(g, b, s.counts.uUp, k.slot);
    }
  }

  lemma {:induction false} TotalNonNegative(g: Grid, xs: seq<Sample>, k: Key)
    requires forall i :: 0 <= i < |xs| ==> NonNegative(xs[i].counts)
    ensures NonNegative(Total(g, xs, k))
  {
    hide Part;
    if xs == [] {
    } else {
      TotalNonNegative(g, xs[..|xs| - 1], k);
      PartNonNegative(g, xs[|xs| - 1], k);
    }
  }

  lemma BackwardTouchesNothing(g: Grid, s: Sample)
    requires !Forward(g, s)
    ensures Slots(g, s) == {}
  {
  }

  /** What the window loses of a sample is what the slots outside it got, or all of it if it runs backwards. */
  lemma LostIsOutside(g: Grid, end: int, s: Sample)
    ensures Lost(g, end, s) ==
            if Forward(g, s) then Sum(Slots(g, s) - WindowSlots(g, end, s), PartAt(g, s)) else s.counts
  {
    hide Slots;
    hide Forward;
    hide Plus;
    hide Minus;
    hide Sum;
    PiecesAreWhole(g, s);
    var inside, all := WindowSlots(g, end, s), Slots(g, s);
    assert inside + (all - inside) == all;
    SumUnion(inside, all - inside, PartAt(g, s));
    MinusOfPlus(Kept(g, end, s), Sum(all - inside, PartAt(g, s)));
    if !Forward(g, s) {
      BackwardTouchesNothing(g, s);
      assert inside == {};
      SumOfZeros(inside, PartAt(g, s));
      MinusOfPlus(s.counts, ZERO);
    }
  }

  lemma LastSlot(g: Grid, s: Sample)
    requires Forward(g, s)
    ensures Key(s.trust, s.user, Last(g, Bumped(s))) in Slots(g, s)
  {
    FloorOnGrid(g, Bumped(s).end - 1);
  }

  lemma OriginIsFirst(g: Grid, s: Sample)
    requires s.start >= g.origin
    ensures First(g, Bumped(s)) >= g.origin
  {
    FloorMonotone(g, g.origin, s.start);
  }

  /** Outside the window are slots after it only, and among them the last if there are any. */
  lemma OutsideWindow(g: Grid, end: int, s: Sample)
    requires Forward(g, s) && s.start >= g.origin
    ensures Key(s.trust, s.user, Last(g, Bumped(s))) in Slots(g, s)
    ensures if Last(g, Bumped(s)) + g.step <= end then Slots(g, s) - WindowSlots(g, end, s) == {}
            else Key(s.trust, s.user, Last(g, Bumped(s))) in Slots(g, s) - WindowSlots(g, end, s)
  {
    LastSlot(g, s);
    OriginIsFirst(g, s);
  }

  lemma {:induction false} GivenOfNothing(g: Grid, s: Sample, slot: int)
    requires s.start != s.end
    ensures Given(g, s, 0, slot) == 0
    decreases slot - First(g, s)
  {
    hide FloorTo;
    hide Overlap;
    if slot <= First(g, s) {
    } else {
      GivenOfNothing(g, s, slot - g.step);
    }
  }

  lemma PartOfNothing(g: Grid, s: Sample, k: Key)
    requires s.counts == ZERO
    ensures Part(g, s, k) == ZERO
  {
    if k in Slots(g, s) {
      GivenOfNothing(g, Bumped(s), k.slot);
    }
  }

  /**
    A window reaching back to before the sample loses nothing of it exactly when the sample has
    nothing, or runs forward and its last slot is in the window.
   */
  lemma LostNothing(g: Grid, end: int, s: Sample)
    requires NonNegative(s.counts) && s.start >= g.origin
    ensures NonNegative(Lost(g, end, s))
    ensures Lost(g, end, s) == ZERO <==>
            s.counts == ZERO || (Forward(g, s) && Last(g, Bumped(s)) + g.step <= end)
  {
    hide Part;
    hide Forward;
    hide Slots;
    hide WindowSlots;
    hide Last;
    hide Lost;
    hide NonNegative;
    hide Sum;
    LostIsOutside(g, end, s);
    if Forward(g, s) {
      var outside, key := Slots(g, s) - WindowSlots(g, end, s), Key(s.trust, s.user, Last(g, Bumped(s)));
      OutsideWindow(g, end, s);
      forall k
        ensures NonNegative(PartAt(g, s)(k))
      {
        PartNonNegative(g, s, k);
      }
      SumNonNegative(outside, PartAt(g, s));
      if s.counts == ZERO {
        forall k
          ensures PartAt(g, s)(k) == ZERO
        {
          PartOfNothing(g, s, k);
        }
        SumOfZeros(outside, PartAt(g, s));
      } else if Last(g, Bumped(s)) + g.step <= end {
        SumOfZeros(outside, PartAt(g, s));
      } else {
        PartNonNegative(g, s, key);
        assert key in outside && PartAt(g, s)(key) != ZERO;
      }
    }
  }
}
