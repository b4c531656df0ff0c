/** What a window of a grid holds and loses, told from its ends and the times of the samples. */
module WindowLaws {
  import opened Counts
  import opened Regrid
  import opened RegridLaws
  import opened Rounding

  /** A slot of the grid starts a whole number of steps from the origin. */
  lemma SlotsOfGrid(g: Grid, t: int)
    ensures OnGrid(g, t) <==> exists i :: t == g.origin + i * g.step
  {
    if OnGrid(g, t) {
      var i := SlotIndex(g, t);
    }
    if exists i :: t == g.origin + i * g.step {
      var i :| t == g.origin + i * g.step;
      IndexOnGrid(g, t, i);
    }
  }

  /** A sample that does not run backwards has a part in the slots it overlaps, an empty one counting as a second. */
  lemma SlotsAreOverlapped(g: Grid, s: Sample, k: Key)
    requires s.start <= s.end
    ensures k in Slots(g, s) <==>
            && k.trust == s.trust && k.user == s.user && OnGrid(g, k.slot)
            && k.slot < (if s.start == s.end then s.start + 1 else s.end) && s.start < k.slot + g.step
  {
    hide FloorTo;
    hide OnGrid;
    var b := Bumped(s);
    FloorOnGrid(g, b.start);
    FloorOnGrid(g, b.end - 1);
    if OnGrid(g, k.slot) {
      GridStep(g, k.slot, First(g, b));
      GridStep(g, Last(g, b), k.slot);
    }
  }

  lemma OneSecond(g: Grid, s: Sample)
    requires s.start == s.end
    ensures First(g, Bumped(s)) == Last(g, Bumped(s))
    ensures forall k :: k in Slots(g, s) ==>
              k == Key(s.trust, s.user, First(g, Bumped(s))) && Part(g, s, k) == s.counts
  {
    hide FloorTo;
    hide OnGrid;
  }

  /** All of an empty sample is in the slot of its start. */
  lemma EmptyIsWhole(g: Grid, s: Sample, k: Key)
    requires s.start == s.end && OnGrid(g, k.slot)
    ensures Part(g, s, k) ==
            if k.trust == s.trust && k.user == s.user && k.slot <= s.start < k.slot + g.step then s.counts else ZERO
  {
    SlotsAreOverlapped(g, s, k);
    if k in Slots(g, s) {
      OneSecond(g, s);
      hide Slots;
      hide Part;
      hide FloorTo;
    }
  }

  /** The cells are the touched slots that lie between the ends of the window, both included. */
  lemma CellsAre(g: Grid, end: int, xs: seq<Sample>, k: Key)
    ensures k in Regridded(g, end, xs) <==> k in Touched(g, xs) && g.origin <= k.slot && k.slot + g.step <= end
    ensures k in Regridded(g, end, xs) ==> Regridded(g, end, xs)[k] == Total(g, xs, k)
  {
    hide Touched;
    hide Total;
  }

  /** Every block of a result lies between the ends of the window and fills one slot of the grid. */
  lemma BlocksInWindow(g: Grid, end: int, xs: seq<Sample>, blocks: seq<Sample>)
    requires Lists(g, blocks, Regridded(g, end, xs))
    ensures forall i :: 0 <= i < |blocks| ==>
              && g.origin <= blocks[i].start && blocks[i].end <= end
              && blocks[i].end == blocks[i].start + g.step && (blocks[i].start - g.origin) % g.step == 0
  {
    hide Touched;
    hide Total;
    CellsAligned(g, end, xs, blocks);
    forall i | 0 <= i < |blocks|
      ensures Aligned(g, blocks[i]) && g.origin <= blocks[i].start && blocks[i].end <= end
    {
      CellsAre(g, end, xs, KeyOf(blocks[i]));
    }
  }

  // ---------- losses at both ends ----------

  ghost function SlotsAfter(g: Grid, end: int, s: Sample): set<Key> {
    set k | k in Slots(g, s) && k.slot >= g.origin && k.slot + g.step > end
  }

  /** A window loses of a sample what the slots before its origin and those ending after it got, and nothing else. */
  lemma LostAtEnds(g: Grid, end: int, s: Sample)
    requires Forward(g, s)
    ensures Lost(g, end, s) ==
            Plus(Sum(SlotsBefore(g, s, g.origin), PartAt(g, s)), Sum(SlotsAfter(g, end, s), PartAt(g, s)))
  {
    hide Sum;
    hide Slots;
    hide Forward;
    LostIsOutside(g, end, s);
    var before, after := SlotsBefore(g, s, g.origin), SlotsAfter(g, end, s);
    assert Slots(g, s) - WindowSlots(g, end, s) == before + after;
    SumUnion(before, after, PartAt(g, s));
  }

  lemma OriginOnGrid(g: Grid)
    ensures OnGrid(g, g.origin)
  {
  }

  ghost predicate GivenIsClose(g: Grid, s: Sample, x: int)
    requires s.start < g.origin < s.end
  {
    var len, exact, slots := s.end - s.start, x * (g.origin - s.start), (g.origin - First(g, s)) / g.step;
    exact - slots * len <= Given(g, s, x, g.origin) * len <= exact
  }

  /**
    A sample that starts in a slot before the origin and ends in one from it on loses at that end what
    the earlier slots were given: at most the exact part of its seconds before the origin, and less by
    at most one for every slot.
   */
  lemma LostBeforeOrigin(g: Grid, s: Sample)
    requires s.start < g.origin < s.end
    ensures Sum(SlotsBefore(g, s, g.origin), PartAt(g, s)) == GivenCounts(g, s, g.origin)
    ensures forall x :: GivenIsClose(g, s, x)
  {
    hide Given;
    hide Sum;
    hide Part;
    hide FloorTo;
    OriginOnGrid(g);
    FloorOnGrid(g, s.start);
    FloorOnGrid(g, s.end - 1);
    GridStep(g, First(g, s), g.origin);
    GridStep(g, Last(g, s), g.origin);
    assert Bumped(s) == s && Touches(g, s, g.origin);
    SumOfGiven(g, s, g.origin);
    forall x
      ensures GivenIsClose(g, s, x)
    {
      GivenBounds(g, s, x, g.origin);
    }
  }
}
