/**
  What cutting usage samples onto a fixed grid means: how one sample is shared out over the slots it
  touches, and what a list of samples adds up to in each slot of a window.
 */
module Regrid {
  import opened Bits
  import opened Counts

  datatype Sample = Sample(trust: nat, user: nat, start: int, end: int, counts: Counts)

  datatype Key = Key(trust: nat, user: nat, slot: int)

  datatype Raster = Raster(origin: int, step: int)

  /** Slots of step seconds, one of them starting at the origin. */
  type Grid = g: Raster | g.step > 0 witness Raster(0, 1)

  function FloorTo(g: Grid, t: int): int {
    (t - g.origin) / g.step * g.step + g.origin
  }

  predicate OnGrid(g: Grid, t: int) {
    (t - g.origin) % g.step == 0
  }

  /** An empty sample counts as one second long. */
  function Bumped(s: Sample): Sample {
    if s.end == s.start then s.(end := s.end + 1) else s
  }

  function First(g: Grid, s: Sample): int {
    FloorTo(g, s.start)
  }

  function Last(g: Grid, s: Sample): int {
    FloorTo(g, s.end - 1)
  }

  predicate Touches(g: Grid, s: Sample, slot: int) {
    OnGrid(g, slot) && First(g, s) <= slot <= Last(g, s)
  }

  /** Seconds that a sample and a slot have in common. */
  function Overlap(g: Grid, s: Sample, slot: int): int {
    var from := if s.start > slot then s.start else slot;
    var to := if s.end < slot + g.step then s.end else slot + g.step;
    to - from
  }

  /** The part of a count x that falls into a slot, rounded down. */
  function Floored(g: Grid, s: Sample, x: int, slot: int): int
    requires s.start != s.end
  {
    x * Overlap(g, s, slot) / (s.end - s.start)
  }

  /** What the touched slots before this one were given of a count x. */
  function Given(g: Grid, s: Sample, x: int, slot: int): int
    requires s.start != s.end
    decreases slot - First(g, s)
  {
    if slot <= First(g, s) then 0
    else Given(g, s, x, slot - g.step) + Floored(g, s, x, slot - g.step)
  }

  /** The last touched slot gets what the others left. */
  function Share(g: Grid, s: Sample, x: int, slot: int): int
    requires s.start != s.end
  {
    if slot == Last(g, s) then x - Given(g, s, x, slot) else Floored(g, s, x, slot)
  }

  /** What a non-empty sample adds to a slot it touches. */
  function Piece(g: Grid, s: Sample, slot: int): Counts
    requires s.start != s.end
  {
    Counts(Share(g, s, s.counts.down, slot), Share(g, s, s.counts.up, slot),
           Share(g, s, s.counts.uDown, slot), Share(g, s, s.counts.uUp, slot))
  }

  predicate Owns(s: Sample, k: Key) {
    s.trust == k.trust && s.user == k.user
  }

  /** The slots a sample touches. */
  function Slots(g: Grid, s: Sample): (ks: set<Key>)
    ensures forall k :: k in ks <==> Owns(s, k) && Touches(g, Bumped(s), k.slot)
  {
    var b := Bumped(s);
    set slot | First(g, b) <= slot <= Last(g, b) && OnGrid(g, slot) :: Key(s.trust, s.user, slot)
  }

  /** What a sample adds to a slot of a user at a trust level. */
  function Part(g: Grid, s: Sample, k: Key): Counts {
    if k in Slots(g, s) then Piece(g, Bumped(s), k.slot) else ZERO
  }

  /** The parts of all samples. */
  function Total(g: Grid, xs: seq<Sample>, k: Key): Counts {
    if xs == [] then ZERO else Plus(Total(g, xs[..|xs| - 1], k), Part(g, xs[|xs| - 1], k))
  }

  function Touched(g: Grid, xs: seq<Sample>): set<Key> {
    if xs == [] then {} else Touched(g, xs[..|xs| - 1]) + Slots(g, xs[|xs| - 1])
  }

  predicate InWindow(g: Grid, end: int, k: Key) {
    k.slot + g.step <= end && k.slot >= g.origin
  }

  /** The specification of refactor: the touched slots inside the window, with their totals. */
  function Regridded(g: Grid, end: int, xs: seq<Sample>): map<Key, Counts> {
    map k | k in Touched(g, xs) && InWindow(g, end, k) :: Total(g, xs, k)
  }

  /** A sample that fills exactly one slot. */
  predicate Aligned(g: Grid, s: Sample) {
    s.end - s.start == g.step && OnGrid(g, s.start)
  }

  function KeyOf(s: Sample): Key {
    Key(s.trust, s.user, s.start)
  }

  lemma AlignedPart(g: Grid, s: Sample, k: Key)
    requires Aligned(g, s)
    ensures Slots(g, s) == {KeyOf(s)} && Bumped(s) == s
    ensures First(g, s) == Last(g, s) == s.start
    ensures Part(g, s, k) == if k == KeyOf(s) then s.counts else ZERO
  {
    var q := (s.start - g.origin) / g.step;
    assert s.start == q * g.step + g.origin;
    ModUnique(s.end - 1 - g.origin, g.step, q, g.step - 1);
    assert First(g, s) == Last(g, s) == s.start;
  }

  /** Slots are multiples of step apart. */
  lemma FloorOnGrid(g: Grid, t: int)
    ensures OnGrid(g, FloorTo(g, t)) && FloorTo(g, t) <= t < FloorTo(g, t) + g.step
  {
    ModUnique(FloorTo(g, t) - g.origin, g.step, (t - g.origin) / g.step, 0);
  }

  lemma SlotIndex(g: Grid, t: int) returns (i: int)
    requires OnGrid(g, t)
    ensures t == g.origin + i * g.step
  {
    i := (t - g.origin) / g.step;
  }

  lemma IndexOnGrid(g: Grid, t: int, i: int)
    requires t == g.origin + i * g.step
    ensures OnGrid(g, t)
  {
    ModUnique(t - g.origin, g.step, i, 0);
  }

  lemma MultiplesApart(i: int, j: int, step: int)
    requires step > 0
    ensures i * step < j * step ==> (i + 1) * step <= j * step
    ensures (i + 1) * step == i * step + step && (i - 1) * step == i * step - step
  {
    var d := j - i;
    assert j * step == i * step + d * step;
    assert d >= 1 ==> d * step >= step;
    assert d <= 0 ==> d * step <= 0;
  }

  lemma GridStep(g: Grid, a: int, b: int)
    requires OnGrid(g, a) && OnGrid(g, b)
    ensures OnGrid(g, a + g.step) && OnGrid(g, a - g.step)
    ensures a < b ==> a + g.step <= b
  {
    hide OnGrid;
    var i := SlotIndex(g, a);
    var j := SlotIndex(g, b);
    IndexOnGrid(g, a + g.step, i + 1);
    IndexOnGrid(g, a - g.step, i - 1);
    MultiplesApart(i, j, g.step);
  }

  /** The slots that a sample touches before a time. */
  ghost function SlotsBefore(g: Grid, s: Sample, slot: int): set<Key> {
    set k | k in Slots(g, s) && k.slot < slot
  }

  lemma SlotsBeforeStep(g: Grid, s: Sample, slot: int)
    requires Touches(g, Bumped(s), slot)
    ensures SlotsBefore(g, s, slot + g.step) == SlotsBefore(g, s, slot) + {Key(s.trust, s.user, slot)}
  {
    var next, key := slot + g.step, Key(s.trust, s.user, slot);
    forall k | k in Slots(g, s)
      ensures k.slot < next <==> k.slot < slot || k == key
    {
      GridStep(g, slot, k.slot);
      assert k == Key(k.trust, k.user, k.slot);
    }
  }

  lemma TouchedIsOnGrid(g: Grid, s: Sample, slot: int)
    requires Touches(g, s, slot)
    ensures OnGrid(g, slot) && First(g, s) <= slot <= Last(g, s)
  {
  }

  /** A slot before the last ends inside the sample. */
  lemma InsideSlot(g: Grid, s: Sample, slot: int)
    requires Touches(g, s, slot) && slot < Last(g, s)
    ensures s.start < slot + g.step <= s.end
  {
    hide Touches;
    hide FloorTo;
    FloorOnGrid(g, s.start);
    FloorOnGrid(g, s.end - 1);
    TouchedIsOnGrid(g, s, slot);
    GridStep(g, slot, Last(g, s));
  }

  // ---------- totals, sample by sample ----------

  function TotalsOf(g: Grid, xs: seq<Sample>): map<Key, Counts> {
    map k | k in Touched(g, xs) :: Total(g, xs, k)
  }

  function Get(totals: map<Key, Counts>, k: Key): Counts {
    if k in totals then totals[k] else ZERO
  }

  /** Totals with the parts of one more sample. */
  function AddSample(g: Grid, totals: map<Key, Counts>, s: Sample): map<Key, Counts> {
    map k | k in totals.Keys + Slots(g, s) :: Plus(Get(totals, k), Part(g, s, k))
  }

  lemma PartOutside(g: Grid, s: Sample, k: Key)
    requires k !in Slots(g, s)
    ensures Part(g, s, k) == ZERO
  {
  }

  lemma {:induction false} TotalOutside(g: Grid, xs: seq<Sample>, k: Key)
    requires k !in Touched(g, xs)
    ensures Total(g, xs, k) == ZERO
  {
    hide Plus;
    PlusZero(ZERO);
    if xs == [] {
    } else {
      TotalOutside(g, xs[..|xs| - 1], k);
      PartOutside(g, xs[|xs| - 1], k);
    }
  }

  lemma GetTotal(g: Grid, xs: seq<Sample>, k: Key)
    ensures Get(TotalsOf(g, xs), k) == Total(g, xs, k)
  {
    if k !in Touched(g, xs) {
      TotalOutside(g, xs, k);
    }
  }

  lemma TotalsStep(g: Grid, xs: seq<Sample>, i: nat)
    requires i < |xs|
    ensures TotalsOf(g, xs[..i + 1]) == AddSample(g, TotalsOf(g, xs[..i]), xs[i])
  {
    hide Slots;
    hide Part;
    hide Plus;
    hide Get;
    var ys, zs := xs[..i + 1], xs[..i];
    assert ys[..i] == zs && ys[i] == xs[i];
    forall k | k in Touched(g, ys)
      ensures TotalsOf(g, ys)[k] == AddSample(g, TotalsOf(g, zs), xs[i])[k]
    {
      GetTotal(g, zs, k);
    }
  }

  lemma BumpedSame(g: Grid, totals: map<Key, Counts>, s: Sample)
    ensures AddSample(g, totals, Bumped(s)) == AddSample(g, totals, s)
  {
    assert Slots(g, Bumped(s)) == Slots(g, s);
  }

  lemma GetIn(totals: map<Key, Counts>)
    ensures forall k :: k in totals ==> Get(totals, k) == totals[k]
  {
  }

  lemma AlignedSample(g: Grid, totals: map<Key, Counts>, s: Sample)
    requires Aligned(g, s)
    ensures AddSample(g, totals, s) == totals[KeyOf(s) := Plus(Get(totals, KeyOf(s)), s.counts)]
  {
    hide Slots;
    hide Part;
    hide Plus;
    hide Get;
    forall k
      ensures Slots(g, s) == {KeyOf(s)}
      ensures Part(g, s, k) == if k == KeyOf(s) then s.counts else ZERO
      ensures Plus(Get(totals, k), ZERO) == Get(totals, k)
    {
      AlignedPart(g, s, k);
      PlusZero(Get(totals, k));
    }
    assert forall k :: k in totals ==> Get(totals, k) == totals[k] by { GetIn(totals); }
  }

  // ---------- lists of blocks ----------

  function KeysOf(xs: seq<Sample>): (ks: seq<Key>)
    ensures |ks| == |xs| && forall i :: 0 <= i < |xs| ==> ks[i] == KeyOf(xs[i])
  {
    seq(|xs|, i requires 0 <= i < |xs| => KeyOf(xs[i]))
  }

  function BlockOf(g: Grid, k: Key, c: Counts): Sample {
    Sample(k.trust, k.user, k.slot, k.slot + g.step, c)
  }

  /** The blocks of a list are the cells, one for each, in some order. */
  ghost predicate Lists(g: Grid, blocks: seq<Sample>, cells: map<Key, Counts>) {
    && Distinct(KeysOf(blocks)) && Elements(KeysOf(blocks)) == cells.Keys
    && forall i :: 0 <= i < |blocks| ==>
         KeyOf(blocks[i]) in cells && blocks[i] == BlockOf(g, KeyOf(blocks[i]), cells[KeyOf(blocks[i])])
  }
}
