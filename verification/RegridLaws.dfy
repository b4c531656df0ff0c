/** Laws of regridding: nothing is lost but what falls outside the window, and lists combine. */
module RegridLaws {
  import opened Counts
  import opened Regrid

  // ---------- lists combine ----------

  lemma {:induction false} TotalOfConcat(g: Grid, xs: seq<Sample>, ys: seq<Sample>, k: Key)
    ensures Total(g, xs + ys, k) == Plus(Total(g, xs, k), Total(g, ys, k))
  {
    hide Part;
    hide Plus;
    if ys == [] {
      assert xs + ys == xs;
      PlusZero(Total(g, xs, k));
    } else {
      var n := |ys| - 1;
      TotalOfConcat(g, xs, ys[..n], k);
      assert (xs + ys)[..|xs + ys| - 1] == xs + ys[..n];
      PlusAssociative(Total(g, xs, k), Total(g, ys[..n], k), Part(g, ys[n], k));
    }
  }

  lemma {:induction false} TouchedOfConcat(g: Grid, xs: seq<Sample>, ys: seq<Sample>)
    ensures Touched(g, xs + ys) == Touched(g, xs) + Touched(g, ys)
  {
    hide Slots;
    if ys == [] {
      assert xs + ys == xs;
    } else {
      var n := |ys| - 1;
      TouchedOfConcat(g, xs, ys[..n]);
      assert (xs + ys)[..|xs + ys| - 1] == xs + ys[..n];
    }
  }

  /** A block is one slot of its own; a list of blocks touches their keys and totals their counts. */
  lemma {:induction false} BlocksAreCells(g: Grid, blocks: seq<Sample>, k: Key)
    requires Distinct(KeysOf(blocks))
    requires forall i :: 0 <= i < |blocks| ==> Aligned(g, blocks[i])
    ensures k in Touched(g, blocks) <==> k in KeysOf(blocks)
    ensures forall i :: 0 <= i < |blocks| && KeyOf(blocks[i]) == k ==> Total(g, blocks, k) == blocks[i].counts
  {
    if blocks == [] {
    } else {
      var n := |blocks| - 1;
      var rest, last := blocks[..n], blocks[n];
      assert KeysOf(rest) == KeysOf(blocks)[..n];
      BlocksAreCells(g, rest, k);
      AlignedPart(g, last, k);
      assert KeysOf(blocks) == KeysOf(rest) + [KeyOf(last)];
      if k == KeyOf(last) {
        TotalOutside(g, rest, k);
      }
      forall i | 0 <= i < |blocks| && KeyOf(blocks[i]) == k
        ensures Total(g, blocks, k) == blocks[i].counts
      {
        if i < n {
          assert KeysOf(blocks)[i] != KeysOf(blocks)[n];
          assert Total(g, rest, k) == rest[i].counts;
        }
      }
    }
  }

  lemma {:induction false} TouchedOnGrid(g: Grid, xs: seq<Sample>, k: Key)
    requires k in Touched(g, xs)
    ensures OnGrid(g, k.slot)
  {
    if k !in Slots(g, xs[|xs| - 1]) {
      TouchedOnGrid(g, xs[..|xs| - 1], k);
    }
  }

  /** A block of a regridded list fills one slot. */
  lemma CellsAligned(g: Grid, end: int, xs: seq<Sample>, blocks: seq<Sample>)
    requires Lists(g, blocks, Regridded(g, end, xs))
    ensures forall i :: 0 <= i < |blocks| ==> Aligned(g, blocks[i])
  {
    forall i | 0 <= i < |blocks|
      ensures Aligned(g, blocks[i])
    {
      TouchedOnGrid(g, xs, KeyOf(blocks[i]));
    }
  }

  lemma ListedBlock(g: Grid, blocks: seq<Sample>, cells: map<Key, Counts>, k: Key) returns (i: nat)
    requires Lists(g, blocks, cells) && k in cells
    ensures i < |blocks| && KeyOf(blocks[i]) == k && blocks[i].counts == cells[k]
  {
    assert k in Elements(KeysOf(blocks));
    i :| 0 <= i < |blocks| && KeysOf(blocks)[i] == k;
  }

  /** In the window, the blocks of a regridded list total the same as the list itself. */
  lemma BlocksTotal(g: Grid, end: int, xs: seq<Sample>, blocks: seq<Sample>, k: Key)
    requires Lists(g, blocks, Regridded(g, end, xs))
    ensures InWindow(g, end, k) ==> Total(g, blocks, k) == Total(g, xs, k)
    ensures k in Touched(g, blocks) <==> k in Touched(g, xs) && InWindow(g, end, k)
  {
    hide Total;
    hide Touched;
    CellsAligned(g, end, xs, blocks);
    BlocksAreCells(g, blocks, k);
    if k in Regridded(g, end, xs) {
      var i := ListedBlock(g, blocks, Regridded(g, end, xs), k);
    } else {
      assert k !in KeysOf(blocks) by {
        assert k !in Elements(KeysOf(blocks));
      }
      TotalOutside(g, blocks, k);
      if InWindow(g, end, k) {
        TotalOutside(g, xs, k);
      }
    }
  }

  /**
    Regridding is incremental: refactoring an earlier result together with new samples gives, slot by
    slot, what refactoring all the samples gives.
   */
  lemma Incremental(g: Grid, end: int, xs: seq<Sample>, blocks: seq<Sample>, ys: seq<Sample>)
    requires Lists(g, blocks, Regridded(g, end, xs))
    ensures Regridded(g, end, blocks + ys) == Regridded(g, end, xs + ys)
  {
    hide Total;
    hide Touched;
    hide Plus;
    hide InWindow;
    TouchedOfConcat(g, blocks, ys);
    TouchedOfConcat(g, xs, ys);
    forall k
      ensures k in Touched(g, blocks + ys) && InWindow(g, end, k) <==>
              k in Touched(g, xs + ys) && InWindow(g, end, k)
      ensures InWindow(g, end, k) ==> Total(g, blocks + ys, k) == Total(g, xs + ys, k)
    {
      BlocksTotal(g, end, xs, blocks, k);
      TotalOfConcat(g, blocks, ys, k);
      TotalOfConcat(g, xs, ys, k);
    }
  }

  /** Refactoring a result again, for the same window and grid, changes nothing. */
  lemma Idempotent(g: Grid, end: int, xs: seq<Sample>, blocks: seq<Sample>)
    requires Lists(g, blocks, Regridded(g, end, xs))
    ensures Regridded(g, end, blocks) == Regridded(g, end, xs)
  {
    Incremental(g, end, xs, blocks, []);
    assert blocks + [] == blocks && xs + [] == xs;
  }

  lemma OneLess<T>(a: multiset<T>, b: multiset<T>, s: T)
    requires a + multiset{s} == b + multiset{s}
    ensures a == b
  {
    assert a == a + multiset{s} - multiset{s};
    assert b == b + multiset{s} - multiset{s};
  }

  lemma OneMoreSample(g: Grid, a: seq<Sample>, s: Sample, k: Key)
    ensures Total(g, a + [s], k) == Plus(Total(g, a, k), Part(g, s, k))
    ensures Touched(g, a + [s]) == Touched(g, a) + Slots(g, s)
  {
    hide Part;
    hide Slots;
    hide Plus;
    assert (a + [s])[..|a|] == a;
  }

  lemma TotalOfMiddle(g: Grid, a: seq<Sample>, s: Sample, b: seq<Sample>, k: Key)
    ensures Total(g, a + [s] + b, k) == Plus(Total(g, a + b, k), Part(g, s, k))
    ensures Touched(g, a + [s] + b) == Touched(g, a + b) + Slots(g, s)
  {
    hide Part;
    hide Slots;
    hide Total;
    hide Touched;
    hide Plus;
    TotalOfConcat(g, a + [s], b, k);
    TotalOfConcat(g, a, b, k);
    TouchedOfConcat(g, a + [s], b);
    TouchedOfConcat(g, a, b);
    OneMoreSample(g, a, s, k);
    var total, part, rest := Total(g, a, k), Part(g, s, k), Total(g, b, k);
    PlusAssociative(total, part, rest);
    PlusAssociative(total, rest, part);
    PlusCommutes(part, rest);
  }

  lemma {:induction false} TotalOfPermutation(g: Grid, xs: seq<Sample>, ys: seq<Sample>, k: Key)
    requires multiset(xs) == multiset(ys)
    ensures Total(g, xs, k) == Total(g, ys, k)
    ensures k in Touched(g, xs) <==> k in Touched(g, ys)
    decreases |xs|
  {
    hide Part;
    hide Slots;
    hide Plus;
    if xs == [] {
      assert |ys| == |multiset(ys)| == 0;
    } else {
      var n := |xs| - 1;
      var s := xs[n];
      assert xs == xs[..n] + [s];
      assert s in multiset(xs);
      assert s in ys;
      var i :| 0 <= i < |ys| && ys[i] == s;
      var a, b := ys[..i], ys[i + 1..];
      assert ys == a + [s] + b;
      assert multiset(xs) == multiset(xs[..n]) + multiset{s};
      assert multiset(ys) == multiset(a + b) + multiset{s};
      OneLess(multiset(xs[..n]), multiset(a + b), s);
      TotalOfPermutation(g, xs[..n], a + b, k);
      TotalOfMiddle(g, a, s, b, k);
    }
  }

  /** The order of the samples is irrelevant. */
  lemma OrderIrrelevant(g: Grid, end: int, xs: seq<Sample>, ys: seq<Sample>)
    requires multiset(xs) == multiset(ys)
    ensures Regridded(g, end, xs) == Regridded(g, end, ys)
  {
    hide Total;
    hide Touched;
    forall k
      ensures Total(g, xs, k) == Total(g, ys, k)
      ensures k in Touched(g, xs) <==> k in Touched(g, ys)
    {
      TotalOfPermutation(g, xs, ys, k);
    }
  }

  // ---------- one sample is shared out completely ----------

  /** The sample does not run backwards over a slot boundary. */
  predicate Forward(g: Grid, s: Sample) {
    First(g, Bumped(s)) <= Last(g, Bumped(s))
  }

  lemma FloorMonotone(g: Grid, a: int, b: int)
    requires a <= b
    ensures FloorTo(g, a) <= FloorTo(g, b)
  {
    hide FloorTo;
    hide OnGrid;
    FloorOnGrid(g, a);
    FloorOnGrid(g, b);
    if FloorTo(g, b) < FloorTo(g, a) {
      GridStep(g, FloorTo(g, b), FloorTo(g, a));
    }
  }

  lemma OrderedIsForward(g: Grid, s: Sample)
    requires s.start <= s.end
    ensures Forward(g, s)
  {
    FloorMonotone(g, s.start, Bumped(s).end - 1);
  }

  function PartAt(g: Grid, s: Sample): Key -> Counts {
    (k: Key) => Part(g, s, k)
  }

  function GivenCounts(g: Grid, s: Sample, slot: int): Counts
    requires s.start != s.end
  {
    Counts(Given(g, s, s.counts.down, slot), Given(g, s, s.counts.up, slot),
           Given(g, s, s.counts.uDown, slot), Given(g, s, s.counts.uUp, slot))
  }

  lemma GivenStep(g: Grid, s: Sample, slot: int)
    requires Touches(g, Bumped(s), slot) && slot != First(g, Bumped(s))
    ensures Touches(g, Bumped(s), slot - g.step)
    ensures GivenCounts(g, Bumped(s), slot) ==
            Plus(Part(g, s, Key(s.trust, s.user, slot - g.step)), GivenCounts(g, Bumped(s), slot - g.step))
  {
    hide Floored;
    hide FloorTo;
    var b := Bumped(s);
    FloorOnGrid(g, b.start);
    GridStep(g, First(g, b), slot);
    GridStep(g, slot, slot);
    assert Key(s.trust, s.user, slot - g.step) in Slots(g, s);
  }

  lemma KeyNotBefore(g: Grid, s: Sample, k: Key)
    ensures k !in SlotsBefore(g, s, k.slot)
  {
  }

  /** The slots before a touched one hold what they were given. */
  lemma {:induction false} SumOfGiven(g: Grid, s: Sample, slot: int)
    requires Touches(g, Bumped(s), slot)
    ensures Sum(SlotsBefore(g, s, slot), PartAt(g, s)) == GivenCounts(g, Bumped(s), slot)
    decreases slot - First(g, Bumped(s))
  {
    hide Part;
    hide FloorTo;
    var b := Bumped(s);
    if slot == First(g, b) {
      assert SlotsBefore(g, s, slot) == {};
    } else {
      var last := slot - g.step;
      var key := Key(s.trust, s.user, last);
      GivenStep(g, s, slot);
      SumOfGiven(g, s, last);
      SlotsBeforeStep(g, s, last);
      hide SlotsBefore;
      hide GivenCounts;
      hide Plus;
      assert key in SlotsBefore(g, s, slot);
      KeyNotBefore(g, s, key);
      assert SlotsBefore(g, s, slot) - {key} == SlotsBefore(g, s, last);
      SumRemove(SlotsBefore(g, s, slot), PartAt(g, s), key);
    }
  }

  /** All pieces of a sample together are the sample. */
  lemma PiecesAreWhole(g: Grid, s: Sample)
    ensures Sum(Slots(g, s), PartAt(g, s)) == if Forward(g, s) then s.counts else ZERO
  {
    var b := Bumped(s);
    if Forward(g, s) {
      var last := Last(g, b);
      var key := Key(s.trust, s.user, last);
      FloorOnGrid(g, b.end - 1);
      SumOfGiven(g, s, last);
      assert key in Slots(g, s) && Slots(g, s) - {key} == SlotsBefore(g, s, last) by {
        forall k | k in Slots(g, s)
          ensures k == key || k.slot < last
        {
          assert k == Key(k.trust, k.user, k.slot);
        }
      }
      SumRemove(Slots(g, s), PartAt(g, s), key);
    } else {
      assert Slots(g, s) == {};
    }
  }

  // ---------- what a window keeps and loses ----------

  ghost function WindowSlots(g: Grid, end: int, s: Sample): set<Key> {
    set k | k in Slots(g, s) && InWindow(g, end, k)
  }

  /** What the blocks inside the window get of a sample. */
  ghost function Kept(g: Grid, end: int, s: Sample): Counts {
    Sum(WindowSlots(g, end, s), PartAt(g, s))
  }

  ghost function Lost(g: Grid, end: int, s: Sample): Counts {
    Minus(s.counts, Kept(g, end, s))
  }

  function For(s: Sample, trust: nat, user: nat): bool {
    s.trust == trust && s.user == user
  }

  function UserTotal(xs: seq<Sample>, trust: nat, user: nat): Counts {
    if xs == [] then ZERO
    else Plus(UserTotal(xs[..|xs| - 1], trust, user),
              if For(xs[|xs| - 1], trust, user) then xs[|xs| - 1].counts else ZERO)
  }

  ghost function UserKept(g: Grid, end: int, xs: seq<Sample>, trust: nat, user: nat): Counts {
    if xs == [] then ZERO
    else Plus(UserKept(g, end, xs[..|xs| - 1], trust, user),
              if For(xs[|xs| - 1], trust, user) then Kept(g, end, xs[|xs| - 1]) else ZERO)
  }

  ghost function UserLost(g: Grid, end: int, xs: seq<Sample>, trust: nat, user: nat): Counts {
    if xs == [] then ZERO
    else Plus(UserLost(g, end, xs[..|xs| - 1], trust, user),
              if For(xs[|xs| - 1], trust, user) then Lost(g, end, xs[|xs| - 1]) else ZERO)
  }

  lemma {:induction false} KeptAndLost(g: Grid, end: int, xs: seq<Sample>, trust: nat, user: nat)
    ensures UserTotal(xs, trust, user) == Plus(UserKept(g, end, xs, trust, user), UserLost(g, end, xs, trust, user))
  {
    hide Kept;
    hide Plus;
    hide Minus;
    PlusZero(ZERO);
    if xs == [] {
    } else {
      var rest, s := xs[..|xs| - 1], xs[|xs| - 1];
      KeptAndLost(g, end, rest, trust, user);
      MinusCancels(s.counts, Kept(g, end, s));
      var mine := For(s, trust, user);
      PlusFour(UserKept(g, end, rest, trust, user), UserLost(g, end, rest, trust, user),
               if mine then Kept(g, end, s) else ZERO, if mine then Lost(g, end, s) else ZERO);
    }
  }

  /** The total of a slot where it belongs to the user at the trust level. */
  function TotalAt(g: Grid, xs: seq<Sample>, trust: nat, user: nat): Key -> Counts {
    (k: Key) => if k.trust == trust && k.user == user then Total(g, xs, k) else ZERO
  }

  function CellAt(cells: map<Key, Counts>, trust: nat, user: nat): Key -> Counts {
    (k: Key) => if k.trust == trust && k.user == user then Get(cells, k) else ZERO
  }

  function PartFor(g: Grid, s: Sample, trust: nat, user: nat): Key -> Counts {
    (k: Key) => if k.trust == trust && k.user == user then Part(g, s, k) else ZERO
  }

  lemma NoTotals(g: Grid, trust: nat, user: nat)
    ensures forall k :: TotalAt(g, [], trust, user)(k) == ZERO
  {
  }

  lemma TotalUnfolds(g: Grid, xs: seq<Sample>, k: Key)
    requires xs != []
    ensures Total(g, xs, k) == Plus(Total(g, xs[..|xs| - 1], k), Part(g, xs[|xs| - 1], k))
  {
  }

  lemma TotalAtStep(g: Grid, xs: seq<Sample>, trust: nat, user: nat)
    requires xs != []
    ensures forall k :: TotalAt(g, xs, trust, user)(k) ==
              Plus(TotalAt(g, xs[..|xs| - 1], trust, user)(k), PartFor(g, xs[|xs| - 1], trust, user)(k))
  {
    hide Part;
    hide Plus;
    hide Total;
    PlusZero(ZERO);
    forall k
      ensures Total(g, xs, k) == Plus(Total(g, xs[..|xs| - 1], k), Part(g, xs[|xs| - 1], k))
    {
      TotalUnfolds(g, xs, k);
    }
  }

  lemma SumOfPart(g: Grid, end: int, s: Sample, trust: nat, user: nat, w: set<Key>)
    requires forall k :: k in w ==> InWindow(g, end, k)
    requires forall k :: k in Slots(g, s) && InWindow(g, end, k) ==> k in w
    ensures Sum(w, PartFor(g, s, trust, user)) == if For(s, trust, user) then Kept(g, end, s) else ZERO
  {
    var part := WindowSlots(g, end, s);
    if For(s, trust, user) {
      SumPart(w, part, PartFor(g, s, trust, user));
      SumEqual(part, PartFor(g, s, trust, user), PartAt(g, s));
    } else {
      SumOfZeros(w, PartFor(g, s, trust, user));
    }
  }

  /** Summing the slots of a window over all samples is summing what the window keeps of each. */
  lemma {:induction false} SumOfTotals(g: Grid, end: int, xs: seq<Sample>, trust: nat, user: nat, w: set<Key>)
    requires forall k :: k in w ==> InWindow(g, end, k)
    requires forall k :: k in Touched(g, xs) && InWindow(g, end, k) ==> k in w
    ensures Sum(w, TotalAt(g, xs, trust, user)) == UserKept(g, end, xs, trust, user)
  {
    if xs == [] {
      NoTotals(g, trust, user);
      SumOfZeros(w, TotalAt(g, xs, trust, user));
    } else {
      var rest, s := xs[..|xs| - 1], xs[|xs| - 1];
      SumOfTotals(g, end, rest, trust, user, w);
      SumOfPart(g, end, s, trust, user, w);
      TotalAtStep(g, xs, trust, user);
      hide Plus;
      hide Kept;
      SumPlus(w, TotalAt(g, rest, trust, user), PartFor(g, s, trust, user), TotalAt(g, xs, trust, user));
    }
  }

  lemma {:induction false} TotalOfBlocks(blocks: seq<Sample>, cells: map<Key, Counts>, trust: nat, user: nat)
    requires forall i :: 0 <= i < |blocks| ==> KeyOf(blocks[i]) in cells && blocks[i].counts == cells[KeyOf(blocks[i])]
    ensures UserTotal(blocks, trust, user) == SeqSum(KeysOf(blocks), CellAt(cells, trust, user))
  {
    if blocks == [] {
    } else {
      var n := |blocks| - 1;
      TotalOfBlocks(blocks[..n], cells, trust, user);
      assert KeysOf(blocks)[..n] == KeysOf(blocks[..n]);
    }
  }

  /**
    Conservation: for every trust level and user, the input totals are the output totals and exactly
    what the samples had outside the window.
   */
  lemma Conservation(g: Grid, end: int, xs: seq<Sample>, blocks: seq<Sample>, trust: nat, user: nat)
    requires Lists(g, blocks, Regridded(g, end, xs))
    ensures UserTotal(blocks, trust, user) == UserKept(g, end, xs, trust, user)
    ensures UserTotal(xs, trust, user) == Plus(UserTotal(blocks, trust, user), UserLost(g, end, xs, trust, user))
  {
    hide Total;
    hide Touched;
    var cells := Regridded(g, end, xs);
    TotalOfBlocks(blocks, cells, trust, user);
    SeqSumIsSum(KeysOf(blocks), CellAt(cells, trust, user));
    SumEqual(cells.Keys, CellAt(cells, trust, user), TotalAt(g, xs, trust, user));
    SumOfTotals(g, end, xs, trust, user, cells.Keys);
    KeptAndLost(g, end, xs, trust, user);
  }

  /** The total of the samples that are cut at all. */
  function ForwardTotal(g: Grid, xs: seq<Sample>, trust: nat, user: nat): Counts {
    if xs == [] then ZERO
    else Plus(ForwardTotal(g, xs[..|xs| - 1], trust, user),
              if For(xs[|xs| - 1], trust, user) && Forward(g, xs[|xs| - 1]) then xs[|xs| - 1].counts else ZERO)
  }

  lemma {:induction false} AllForward(g: Grid, xs: seq<Sample>, trust: nat, user: nat)
    requires forall i :: 0 <= i < |xs| ==> xs[i].start <= xs[i].end
    ensures ForwardTotal(g, xs, trust, user) == UserTotal(xs, trust, user)
  {
    hide Forward;
    if xs == [] {
    } else {
      AllForward(g, xs[..|xs| - 1], trust, user);
      OrderedIsForward(g, xs[|xs| - 1]);
    }
  }

  lemma WholePart(g: Grid, s: Sample, trust: nat, user: nat, w: set<Key>)
    requires Slots(g, s) <= w
    ensures Sum(w, PartFor(g, s, trust, user)) == if For(s, trust, user) && Forward(g, s) then s.counts else ZERO
  {
    if For(s, trust, user) {
      SumPart(w, Slots(g, s), PartFor(g, s, trust, user));
      SumEqual(Slots(g, s), PartFor(g, s, trust, user), PartAt(g, s));
      PiecesAreWhole(g, s);
    } else {
      SumOfZeros(w, PartFor(g, s, trust, user));
    }
  }

  lemma {:induction false} WholeTable(g: Grid, xs: seq<Sample>, trust: nat, user: nat, w: set<Key>)
    requires Touched(g, xs) <= w
    ensures Sum(w, TotalAt(g, xs, trust, user)) == ForwardTotal(g, xs, trust, user)
  {
    if xs == [] {
      NoTotals(g, trust, user);
      SumOfZeros(w, TotalAt(g, xs, trust, user));
    } else {
      var rest, s := xs[..|xs| - 1], xs[|xs| - 1];
      WholeTable(g, rest, trust, user, w);
      WholePart(g, s, trust, user, w);
      TotalAtStep(g, xs, trust, user);
      hide Plus;
      hide Forward;
      SumPlus(w, TotalAt(g, rest, trust, user), PartFor(g, s, trust, user), TotalAt(g, xs, trust, user));
    }
  }

  /**
    The whole table, before the window is applied, holds exactly the totals of the samples that run
    forward; a sample ending in an earlier slot than it starts in vanishes.
   */
  lemma TableConservation(g: Grid, xs: seq<Sample>, trust: nat, user: nat)
    ensures Sum(Touched(g, xs), TotalAt(g, xs, trust, user)) == ForwardTotal(g, xs, trust, user)
    ensures (forall i :: 0 <= i < |xs| ==> xs[i].start <= xs[i].end) ==>
              ForwardTotal(g, xs, trust, user) == UserTotal(xs, trust, user)
  {
    WholeTable(g, xs, trust, user, Touched(g, xs));
    if forall i :: 0 <= i < |xs| ==> xs[i].start <= xs[i].end {
      AllForward(g, xs, trust, user);
    }
  }
}
