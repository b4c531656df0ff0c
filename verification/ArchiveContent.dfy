/**
  What each slot of the archive holds: over every run, sums of the parts of the samples archived so
  far, so that when and how often the archive ran makes no difference.
 */
module ArchiveContent {
  import opened Bits
  import opened Counts
  import opened Regrid
  import opened RegridLaws
  import opened Archive

  function ContentAt(rows: Rows, level: int, k: Key): nat -> Counts {
    (id: nat) =>
      if id in rows && rows[id].archived == level && KeyOf(rows[id].sample) == k then rows[id].sample.counts else ZERO
  }

  /** The bytes of a level for a slot of a user at a trust level. */
  ghost function Content(rows: Rows, level: int, k: Key): Counts {
    Sum(rows.Keys, ContentAt(rows, level, k))
  }

  function PartAtRow(rows: Rows, g: Grid, k: Key): nat -> Counts {
    (id: nat) => if id in rows then Part(g, rows[id].sample, k) else ZERO
  }

  // ---------- one phase ----------

  lemma {:induction false} PartsOfRows(rows: Rows, ids: seq<nat>, g: Grid, k: Key)
    requires Elements(ids) <= rows.Keys
    ensures SeqSum(ids, PartAtRow(rows, g, k)) == Total(g, SamplesAt(rows, ids), k)
  {
    hide Part;
    hide Plus;
    if ids == [] {
    } else {
      var n := |ids| - 1;
      assert ids[n] in Elements(ids);
      assert Elements(ids[..n]) <= Elements(ids) by {
        assert forall i :: 0 <= i < n ==> ids[..n][i] == ids[i];
      }
      PartsOfRows(rows, ids[..n], g, k);
      assert SamplesAt(rows, ids)[..n] == SamplesAt(rows, ids[..n]);
    }
  }

  /** A cell where the key is k, and nothing elsewhere. */
  function OnlyAt(cells: map<Key, Counts>, k: Key): Key -> Counts {
    (j: Key) => if j == k then Get(cells, j) else ZERO
  }

  lemma {:induction false} ContentOfBlocks(rows: Rows, news: seq<nat>, blocks: seq<Sample>, level: int,
                                           cells: map<Key, Counts>, k: Key)
    requires |news| == |blocks|
    requires forall i :: 0 <= i < |news| ==> news[i] in rows && rows[news[i]] == Row(blocks[i], level)
    requires forall i :: 0 <= i < |blocks| ==> KeyOf(blocks[i]) in cells && blocks[i].counts == cells[KeyOf(blocks[i])]
    ensures SeqSum(news, ContentAt(rows, level, k)) == SeqSum(KeysOf(blocks), OnlyAt(cells, k))
  {
    hide Plus;
    if news == [] {
    } else {
      var n := |news| - 1;
      ContentOfBlocks(rows, news[..n], blocks[..n], level, cells, k);
      assert KeysOf(blocks)[..n] == KeysOf(blocks[..n]);
    }
  }

  /** The keys of a listing are all different, so each cell is in it once. */
  lemma ListedOnce(g: Grid, blocks: seq<Sample>, cells: map<Key, Counts>, k: Key)
    requires Lists(g, blocks, cells)
    ensures SeqSum(KeysOf(blocks), OnlyAt(cells, k)) == Get(cells, k)
  {
    hide Plus;
    SeqSumIsSum(KeysOf(blocks), OnlyAt(cells, k));
    if k in cells {
      SumPart(cells.Keys, {k}, OnlyAt(cells, k));
      SumRemove({k}, OnlyAt(cells, k), k);
      assert {k} - {k} == {};
      PlusZero(cells[k]);
    } else {
      SumOfZeros(cells.Keys, OnlyAt(cells, k));
    }
  }

  lemma CellOfPhase(g: Grid, end: int, xs: seq<Sample>, k: Key)
    ensures Get(NonZero(Regridded(g, end, xs)), k) == if InWindow(g, end, k) then Total(g, xs, k) else ZERO
  {
    hide Total;
    hide Touched;
    if k !in Touched(g, xs) {
      TotalOutside(g, xs, k);
    }
  }

  /** The level after a phase is what the phase inserted, if it took all that was there. */
  lemma OnlyNews(pre: Rows, post: Rows, ids: seq<nat>, news: seq<nat>, cut: int, g: Grid, level: int, k: Key)
    requires PhaseStep(pre, post, ids, news, cut, g, level)
    requires forall id :: id in pre && pre[id].archived == level ==> id in Taken(pre, cut, level)
    ensures Content(post, level, k) == SeqSum(news, ContentAt(post, level, k))
  {
    hide Sum;
    hide Plus;
    hide Lists;
    hide SelectedForArc;
    var rest := pre.Keys - Elements(ids);
    forall id | id in rest
      ensures ContentAt(post, level, k)(id) == ZERO
    {
      assert post[id] == pre[id];
    }
    SumUnion(rest, Elements(news), ContentAt(post, level, k));
    SumOfZeros(rest, ContentAt(post, level, k));
    SeqSumIsSum(news, ContentAt(post, level, k));
    PlusZero(Sum(Elements(news), ContentAt(post, level, k)));
  }

  lemma NewsAreBlocks(pre: Rows, post: Rows, ids: seq<nat>, news: seq<nat>, cut: int, g: Grid, level: int, i: nat)
    requires PhaseStep(pre, post, ids, news, cut, g, level) && i < |news|
    ensures news[i] in post && post[news[i]] == Row(SamplesAt(post, news)[i], level)
  {
    hide Lists;
    assert news[i] in Elements(news);
  }

  /** What a phase leaves at its level, if it takes all that was there: the parts of what it takes. */
  lemma PhaseContent(pre: Rows, post: Rows, ids: seq<nat>, news: seq<nat>, cut: int, g: Grid, level: int, k: Key)
    requires PhaseStep(pre, post, ids, news, cut, g, level)
    requires forall id :: id in pre && pre[id].archived == level ==> id in Taken(pre, cut, level)
    ensures Content(post, level, k) ==
            if InWindow(g, cut + g.step, k) then Sum(Taken(pre, cut, level), PartAtRow(pre, g, k)) else ZERO
  {
    hide Sum;
    hide SeqSum;
    hide Content;
    hide ContentAt;
    hide OnlyAt;
    hide PartAtRow;
    hide Get;
    hide Total;
    hide Regridded;
    hide NonZero;
    hide InWindow;
    hide Taken;
    var xs, blocks := SamplesAt(pre, ids), SamplesAt(post, news);
    var cells := NonZero(Regridded(g, cut + g.step, xs));
    OnlyNews(pre, post, ids, news, cut, g, level, k);
    forall i | 0 <= i < |news|
      ensures news[i] in post && post[news[i]] == Row(blocks[i], level)
    {
      NewsAreBlocks(pre, post, ids, news, cut, g, level, i);
    }
    ContentOfBlocks(post, news, blocks, level, cells, k);
    ListedOnce(g, blocks, cells, k);
    CellOfPhase(g, cut + g.step, xs, k);
    PartsOfRows(pre, ids, g, k);
    SeqSumIsSum(ids, PartAtRow(pre, g, k));
    assert Elements(ids) == Taken(pre, cut, level);
    hide PhaseStep;
  }

  /** What a phase leaves at another level: what it does not take. */
  lemma PhaseLeaves(pre: Rows, post: Rows, ids: seq<nat>, news: seq<nat>, cut: int, g: Grid, level: int, other: int,
                    k: Key)
    requires PhaseStep(pre, post, ids, news, cut, g, level) && other != level
    ensures Content(post, other, k) == Sum(pre.Keys - Taken(pre, cut, level), ContentAt(pre, other, k))
  {
    hide Sum;
    hide Plus;
    hide SelectedForArc;
    hide Lists;
    var rest := pre.Keys - Elements(ids);
    SumUnion(rest, Elements(news), ContentAt(post, other, k));
    SumOfZeros(Elements(news), ContentAt(post, other, k));
    SumEqual(rest, ContentAt(pre, other, k), ContentAt(post, other, k));
    PlusZero(Sum(rest, ContentAt(post, other, k)));
  }

  // ---------- the first phase ----------

  /** The records that an archive run takes for the first time. */
  ghost function Fresh(rows: Rows, now: int): set<nat> {
    set id | id in Taken(rows, now - L1_DELAY, 1) && rows[id].archived == 0
  }

  /** What an archive run newly adds to a slot of the fine grid. */
  ghost function Arriving(rows: Rows, now: int, k: Key): Counts {
    if InWindow(GRID1, now - L1_DELAY + 1200, k) then Sum(Fresh(rows, now), PartAtRow(rows, GRID1, k)) else ZERO
  }

  ghost function AtLevel(rows: Rows, level: int): set<nat> {
    set id | id in rows && rows[id].archived == level
  }

  lemma ContentOfLevel(rows: Rows, level: int, k: Key)
    ensures Content(rows, level, k) == Sum(AtLevel(rows, level), ContentAt(rows, level, k))
  {
    hide Sum;
    SumPart(rows.Keys, AtLevel(rows, level), ContentAt(rows, level, k));
  }

  /** Fine blocks are parts of themselves only. */
  lemma LevelParts(rows: Rows, level: int, g: Grid, k: Key)
    requires forall id :: id in rows && rows[id].archived == level ==> Aligned(g, rows[id].sample)
    ensures Sum(AtLevel(rows, level), PartAtRow(rows, g, k)) == Content(rows, level, k)
  {
    hide Sum;
    hide Part;
    hide Aligned;
    ContentOfLevel(rows, level, k);
    forall id | id in AtLevel(rows, level)
      ensures PartAtRow(rows, g, k)(id) == ContentAt(rows, level, k)(id)
    {
      AlignedPart(g, rows[id].sample, k);
    }
    SumEqual(AtLevel(rows, level), PartAtRow(rows, g, k), ContentAt(rows, level, k));
  }

  lemma TakenFirst(rows: Rows, last: int, now: int)
    requires Inv(rows, last) && last <= now
    ensures Taken(rows, now - L1_DELAY, 1) == Fresh(rows, now) + AtLevel(rows, 1)
    ensures Fresh(rows, now) !! AtLevel(rows, 1)
  {
    hide Aligned;
    forall id | id in rows
      ensures rows[id].archived >= 0 && (rows[id].archived == 1 ==> id in Taken(rows, now - L1_DELAY, 1))
    {
      assert RowOk(rows[id], last);
    }
  }

  lemma OnGrids(rows: Rows, last: int)
    requires Inv(rows, last)
    ensures forall id :: id in rows && rows[id].archived == 1 ==> Aligned(GRID1, rows[id].sample)
    ensures forall id :: id in rows && rows[id].archived == 2 ==> Aligned(GRID2, rows[id].sample)
  {
    hide Aligned;
    forall id | id in rows
      ensures RowOk(rows[id], last)
    {
    }
  }

  lemma OutsideFine(rows: Rows, last: int, now: int, k: Key)
    requires Inv(rows, last) && last <= now && !InWindow(GRID1, now - L1_DELAY + 1200, k)
    ensures Content(rows, 1, k) == ZERO
  {
    hide Aligned;
    hide Sum;
    forall id | id in rows
      ensures ContentAt(rows, 1, k)(id) == ZERO
    {
      assert RowOk(rows[id], last);
    }
    SumOfZeros(rows.Keys, ContentAt(rows, 1, k));
  }

  lemma SecondUntaken(pre: Rows, cut: int, k: Key)
    ensures Sum(pre.Keys - Taken(pre, cut, 1), ContentAt(pre, 2, k)) == Content(pre, 2, k)
  {
    hide Sum;
    SumPart(pre.Keys, pre.Keys - Taken(pre, cut, 1), ContentAt(pre, 2, k));
  }

  /** The first phase adds to each fine slot what arrives, and leaves the coarse slots alone. */
  lemma FirstContent(pre: Rows, mid: Rows, last: int, now: int, k: Key)
    requires Inv(pre, last) && last <= now && Level1(pre, mid, now)
    ensures Content(mid, 1, k) == Plus(Content(pre, 1, k), Arriving(pre, now, k))
    ensures Content(mid, 2, k) == Content(pre, 2, k)
  {
    hide PhaseStep;
    hide Sum;
    hide Plus;
    hide Taken;
    hide Fresh;
    hide PartAtRow;
    hide Aligned;
    var cut := now - L1_DELAY;
    var ids, news :| PhaseStep(pre, mid, ids, news, cut, GRID1, 1);
    TakenFirst(pre, last, now);
    PhaseContent(pre, mid, ids, news, cut, GRID1, 1, k);
    SumUnion(Fresh(pre, now), AtLevel(pre, 1), PartAtRow(pre, GRID1, k));
    OnGrids(pre, last);
    LevelParts(pre, 1, GRID1, k);
    if !InWindow(GRID1, cut + 1200, k) {
      OutsideFine(pre, last, now, k);
      PlusZero(ZERO);
    } else {
      PlusCommutes(Content(pre, 1, k), Arriving(pre, now, k));
    }
    PhaseLeaves(pre, mid, ids, news, cut, GRID1, 1, 2, k);
    SecondUntaken(pre, cut, k);
  }

  // ---------- the second phase ----------

  /** The fine slots of a coarse one. */
  function FineKey(k: Key, j: nat): Key {
    Key(k.trust, k.user, k.slot + 1200 * j)
  }

  /** The sum of the first n fine slots that start at or before the cut. */
  ghost function FineSum(k: Key, n: nat, cut: int, f: Key -> Counts): Counts {
    if n == 0 then ZERO
    else Plus(FineSum(k, n - 1, cut, f), if FineKey(k, n - 1).slot <= cut then f(FineKey(k, n - 1)) else ZERO)
  }

  ghost function ContentFrom(rows: Rows, level: int): Key -> Counts {
    (k: Key) => Content(rows, level, k)
  }

  /** A fine block that lies in the first n fine slots of a coarse one and starts at or before the cut. */
  predicate LiesIn(row: Row, k: Key, n: nat, cut: int) {
    && row.archived == 1 && For(row.sample, k.trust, k.user)
    && k.slot <= row.sample.start < k.slot + 1200 * n && row.sample.start <= cut
  }

  function LyingIn(rows: Rows, k: Key, n: nat, cut: int): nat -> Counts {
    (id: nat) => if id in rows && LiesIn(rows[id], k, n, cut) then rows[id].sample.counts else ZERO
  }

  function ContentUpTo(rows: Rows, k: Key, cut: int): nat -> Counts {
    (id: nat) =>
      if id in rows && rows[id].archived == 1 && KeyOf(rows[id].sample) == k && k.slot <= cut
      then rows[id].sample.counts else ZERO
  }

  lemma NextSlot(start: int, slot: int, n: nat)
    requires start % 1200 == 0 && slot % 7200 == 0
    ensures slot <= start < slot + 1200 * (n + 1) <==> slot <= start < slot + 1200 * n || start == slot + 1200 * n
  {
    var q, r := start / 1200, slot / 7200;
    assert start == 1200 * q && slot == 7200 * r;
  }

  lemma OneMoreSlot(rows: Rows, k: Key, n: nat, cut: int, id: nat)
    requires OnGrid(GRID2, k.slot) && id in rows && (rows[id].archived == 1 ==> Aligned(GRID1, rows[id].sample))
    ensures LyingIn(rows, k, n + 1, cut)(id) ==
            Plus(LyingIn(rows, k, n, cut)(id), ContentUpTo(rows, FineKey(k, n), cut)(id))
  {
    hide Plus;
    var s := rows[id].sample;
    PlusZero(s.counts);
    PlusZero(ZERO);
    if rows[id].archived == 1 {
      NextSlot(s.start, k.slot, n);
      hide OnGrid;
      hide Aligned;
      assert LiesIn(rows[id], k, n + 1, cut) <==>
             LiesIn(rows[id], k, n, cut) || (KeyOf(s) == FineKey(k, n) && s.start <= cut);
      assert !(LiesIn(rows[id], k, n, cut) && KeyOf(s) == FineKey(k, n));
    }
  }

  /** Adding up the blocks in a coarse slot is adding up its fine slots. */
  lemma {:induction false} FineBlocks(rows: Rows, k: Key, n: nat, cut: int)
    requires OnGrid(GRID2, k.slot)
    requires forall id :: id in rows && rows[id].archived == 1 ==> Aligned(GRID1, rows[id].sample)
    ensures Sum(rows.Keys, LyingIn(rows, k, n, cut)) == FineSum(k, n, cut, ContentFrom(rows, 1))
  {
    hide Sum;
    hide Plus;
    hide Aligned;
    hide OnGrid;
    if n == 0 {
      SumOfZeros(rows.Keys, LyingIn(rows, k, 0, cut));
    } else {
      var fine := FineKey(k, n - 1);
      FineBlocks(rows, k, n - 1, cut);
      forall id | id in rows.Keys
        ensures LyingIn(rows, k, n, cut)(id) == Plus(LyingIn(rows, k, n - 1, cut)(id), ContentUpTo(rows, fine, cut)(id))
      {
        OneMoreSlot(rows, k, n - 1, cut, id);
      }
      SumPlus(rows.Keys, LyingIn(rows, k, n - 1, cut), ContentUpTo(rows, fine, cut), LyingIn(rows, k, n, cut));
      if fine.slot <= cut {
        SumEqual(rows.Keys, ContentUpTo(rows, fine, cut), ContentAt(rows, 1, fine));
      } else {
        SumOfZeros(rows.Keys, ContentUpTo(rows, fine, cut));
      }
    }
  }

  /** What the second phase takes: the coarse blocks, and the fine ones that are old enough. */
  lemma TakenSecond(rows: Rows, now: int, id: nat)
    requires Inv(rows, now) && Reached(rows, now - L1_DELAY, 1) && id in rows
    ensures id in Taken(rows, now - L2_DELAY, 2) <==>
            rows[id].archived == 2 || (rows[id].archived == 1 && rows[id].sample.start <= now - L2_DELAY)
  {
    hide Aligned;
    assert RowOk(rows[id], now);
  }

  lemma CoarseSlot(s: Sample, slot: int)
    requires slot % 7200 == 0
    ensures First(GRID2, s) == slot <==> slot <= s.start < slot + 7200
    ensures Aligned(GRID2, s) ==> First(GRID2, s) == s.start
  {
    var r := slot / 7200;
    assert slot == 7200 * r;
    if slot <= s.start < slot + 7200 {
      ModUnique(s.start, 7200, r, s.start - slot);
    }
  }

  /** A record taken by the second phase is part of the coarse slot that it lies in. */
  lemma CoarsePart(rows: Rows, now: int, k: Key, id: nat)
    requires Inv(rows, now) && Reached(rows, now - L1_DELAY, 1) && id in rows && id in Taken(rows, now - L2_DELAY, 2)
    requires OnGrid(GRID2, k.slot)
    ensures PartAtRow(rows, GRID2, k)(id) ==
            Plus(ContentAt(rows, 2, k)(id), LyingIn(rows, k, 6, now - L2_DELAY)(id))
  {
    hide Part;
    hide Slots;
    hide Plus;
    hide Taken;
    var s := rows[id].sample;
    OnGrids(rows, now);
    TakenSecond(rows, now, id);
    BlockInOneSlot(s);
    CoarseSlot(s, k.slot);
    hide Aligned;
    hide OnGrid;
    hide FloorTo;
    PlusZero(s.counts);
    PlusZero(ZERO);
    if k != Key(s.trust, s.user, First(GRID2, s)) {
      PartOutside(GRID2, s, k);
    }
  }

  lemma CoarseTaken(mid: Rows, now: int)
    requires Inv(mid, now) && Reached(mid, now - L1_DELAY, 1)
    ensures Taken(mid, now - L2_DELAY, 2) <= mid.Keys
    ensures forall id :: id in mid && mid[id].archived == 2 ==> id in Taken(mid, now - L2_DELAY, 2)
  {
    forall id | id in mid && mid[id].archived == 2
      ensures id in Taken(mid, now - L2_DELAY, 2)
    {
      TakenSecond(mid, now, id);
    }
  }

  lemma NotTaken(mid: Rows, now: int, k: Key)
    requires Inv(mid, now) && Reached(mid, now - L1_DELAY, 1)
    ensures forall id :: id in mid.Keys - Taken(mid, now - L2_DELAY, 2) ==>
              ContentAt(mid, 2, k)(id) == ZERO && LyingIn(mid, k, 6, now - L2_DELAY)(id) == ZERO
  {
    hide Taken;
    hide Inv;
    hide Reached;
    forall id | id in mid.Keys - Taken(mid, now - L2_DELAY, 2)
      ensures ContentAt(mid, 2, k)(id) == ZERO && LyingIn(mid, k, 6, now - L2_DELAY)(id) == ZERO
    {
      TakenSecond(mid, now, id);
    }
  }

  lemma {:induction false} NoFineSlots(k: Key, n: nat, cut: int, f: Key -> Counts)
    requires k.slot > cut
    ensures FineSum(k, n, cut, f) == ZERO
  {
    hide Plus;
    PlusZero(ZERO);
    if n == 0 {
    } else {
      NoFineSlots(k, n - 1, cut, f);
    }
  }

  /** Beyond the cut there is nothing coarse, and nothing fine old enough. */
  lemma NothingThere(mid: Rows, now: int, k: Key)
    requires Inv(mid, now) && k.slot > now - L2_DELAY
    ensures Content(mid, 2, k) == ZERO
    ensures FineSum(k, 6, now - L2_DELAY, ContentFrom(mid, 1)) == ZERO
  {
    hide Sum;
    hide Aligned;
    forall id | id in mid
      ensures ContentAt(mid, 2, k)(id) == ZERO
    {
      assert RowOk(mid[id], now);
    }
    SumOfZeros(mid.Keys, ContentAt(mid, 2, k));
    NoFineSlots(k, 6, now - L2_DELAY, ContentFrom(mid, 1));
  }

  /** The coarse content after the second phase: what was there, and the fine slots that are old enough. */
  lemma SecondContent(mid: Rows, post: Rows, now: int, k: Key)
    requires Inv(mid, now) && Reached(mid, now - L1_DELAY, 1) && Level2(mid, post, now)
    requires OnGrid(GRID2, k.slot) && k.slot >= 0
    ensures Content(post, 2, k) == Plus(Content(mid, 2, k), FineSum(k, 6, now - L2_DELAY, ContentFrom(mid, 1)))
  {
    hide PhaseStep;
    hide Sum;
    hide Plus;
    hide Taken;
    hide PartAtRow;
    hide LyingIn;
    hide OnGrid;
    hide Inv;
    hide Reached;
    var cut := now - L2_DELAY;
    var ids: seq<nat>, news: seq<nat> :| PhaseStep(mid, post, ids, news, cut, GRID2, 2);
    var taken := Taken(mid, cut, 2);
    CoarseTaken(mid, now);
    PhaseContent(mid, post, ids, news, cut, GRID2, 2, k);
    OnGrids(mid, now);
    FineBlocks(mid, k, 6, cut);
    NotTaken(mid, now, k);
    SumPart(mid.Keys, taken, ContentAt(mid, 2, k));
    SumPart(mid.Keys, taken, LyingIn(mid, k, 6, cut));
    if k.slot <= cut {
      forall id | id in taken
        ensures PartAtRow(mid, GRID2, k)(id) == Plus(ContentAt(mid, 2, k)(id), LyingIn(mid, k, 6, cut)(id))
      {
        CoarsePart(mid, now, k, id);
      }
      SumPlus(taken, ContentAt(mid, 2, k), LyingIn(mid, k, 6, cut), PartAtRow(mid, GRID2, k));
    } else {
      NothingThere(mid, now, k);
      PlusZero(ZERO);
    }
  }

  /** The second phase empties the fine slots that are old enough and leaves the others alone. */
  lemma SecondLeaves(mid: Rows, post: Rows, now: int, k: Key)
    requires Inv(mid, now) && Reached(mid, now - L1_DELAY, 1) && Level2(mid, post, now)
    ensures Content(post, 1, k) == if k.slot <= now - L2_DELAY then ZERO else Content(mid, 1, k)
  {
    hide PhaseStep;
    hide Sum;
    hide Taken;
    hide Inv;
    hide Reached;
    var cut := now - L2_DELAY;
    var ids: seq<nat>, news: seq<nat> :| PhaseStep(mid, post, ids, news, cut, GRID2, 2);
    var rest := mid.Keys - Taken(mid, cut, 2);
    PhaseLeaves(mid, post, ids, news, cut, GRID2, 2, 1, k);
    forall id | id in mid
      ensures id in rest && k.slot <= cut ==> ContentAt(mid, 1, k)(id) == ZERO
      ensures id !in rest && k.slot > cut ==> ContentAt(mid, 1, k)(id) == ZERO
    {
      TakenSecond(mid, now, id);
    }
    if k.slot <= cut {
      SumOfZeros(rest, ContentAt(mid, 1, k));
    } else {
      SumPart(mid.Keys, rest, ContentAt(mid, 1, k));
    }
  }

  // ---------- whole runs ----------

  /** What the archive runs among the first i operations have added to a fine slot. */
  ghost function Arrived(states: seq<State>, ops: seq<Op>, i: nat, k: Key): Counts
    requires |states| == |ops| + 1 && i <= |ops|
  {
    if i == 0 then ZERO
    else Plus(Arrived(states, ops, i - 1, k),
              if ops[i - 1].Run? then Arriving(states[i - 1].rows, ops[i - 1].now, k) else ZERO)
  }

  ghost function ArrivedFrom(states: seq<State>, ops: seq<Op>, i: nat): Key -> Counts
    requires |states| == |ops| + 1 && i <= |ops|
  {
    (k: Key) => Arrived(states, ops, i, k)
  }

  ghost predicate CoarseSettled(rows: Rows, cut: int, arrived: Key -> Counts, k: Key) {
    OnGrid(GRID2, k.slot) && k.slot >= 0 ==> Content(rows, 2, k) == FineSum(k, 6, cut, arrived)
  }

  /** Fine slots hold what has arrived until they are old enough for the coarse slots, which then hold it. */
  ghost predicate Settled(rows: Rows, cut: int, arrived: Key -> Counts) {
    && (forall k: Key :: Content(rows, 1, k) == if k.slot <= cut then ZERO else arrived(k))
    && (forall k: Key :: CoarseSettled(rows, cut, arrived, k))
  }

  /** An insertion is in no slot of the archive yet. */
  lemma InsertContent(rows: Rows, id: nat, s: Sample, level: int, k: Key)
    requires id !in rows && level != 0
    ensures Content(rows[id := Row(s, 0)], level, k) == Content(rows, level, k)
  {
    hide Sum;
    var after := rows[id := Row(s, 0)];
    SumPart(after.Keys, rows.Keys, ContentAt(after, level, k));
    SumEqual(rows.Keys, ContentAt(rows, level, k), ContentAt(after, level, k));
  }

  /** Fine slots that newly became old enough join those that already were. */
  lemma {:induction false} FineJoin(k: Key, n: nat, cut: int, later: int, old1: Key -> Counts, mid: Key -> Counts,
                                    new1: Key -> Counts, arriving: Key -> Counts)
    requires cut <= later
    requires forall j: Key :: mid(j) == Plus(if j.slot <= cut then ZERO else old1(j), arriving(j))
    requires forall j: Key :: new1(j) == Plus(old1(j), arriving(j))
    ensures Plus(FineSum(k, n, cut, old1), FineSum(k, n, later, mid)) == FineSum(k, n, later, new1)
  {
    hide Plus;
    PlusZero(ZERO);
    if n == 0 {
    } else {
      var j := FineKey(k, n - 1);
      FineJoin(k, n - 1, cut, later, old1, mid, new1, arriving);
      var a := if j.slot <= cut then old1(j) else ZERO;
      var b := if j.slot <= later then mid(j) else ZERO;
      PlusFour(FineSum(k, n - 1, cut, old1), a, FineSum(k, n - 1, later, mid), b);
      PlusZero(arriving(j));
      PlusZero(mid(j));
      assert Plus(a, b) == if j.slot <= later then new1(j) else ZERO;
    }
  }

  ghost function ArrivingFrom(rows: Rows, now: int): Key -> Counts {
    (k: Key) => Arriving(rows, now, k)
  }

  lemma FirstKeepsInv(pre: Rows, mid: Rows, last: int, now: int)
    requires Inv(pre, last) && last <= now && Level1(pre, mid, now)
    ensures Inv(mid, now) && Reached(mid, now - L1_DELAY, 1)
  {
    hide PhaseStep;
    Later(pre, last, now);
    var ids, news :| PhaseStep(pre, mid, ids, news, now - L1_DELAY, GRID1, 1);
    PhaseKeepsInv(pre, mid, now, ids, news, now - L1_DELAY, GRID1, 1);
  }

  /** An archive run settles the slots, with what arrives added to what had. */
  lemma RunSettles(pre: Rows, post: Rows, last: int, now: int, arrived: Key -> Counts, after: Key -> Counts)
    requires Inv(pre, last) && last <= now && ArchiveStep(pre, post, now)
    requires Settled(pre, last - L2_DELAY, arrived)
    requires forall k: Key :: after(k) == Plus(arrived(k), Arriving(pre, now, k))
    ensures Settled(post, now - L2_DELAY, after)
  {
    hide PhaseStep;
    hide Level1;
    hide Level2;
    hide Inv;
    hide Reached;
    hide Content;
    hide Arriving;
    hide Plus;
    hide FineSum;
    hide OnGrid;
    var mid :| Level1(pre, mid, now) && Level2(mid, post, now);
    FirstKeepsInv(pre, mid, last, now);
    forall k: Key
      ensures ContentFrom(mid, 1)(k) ==
              Plus(if k.slot <= last - L2_DELAY then ZERO else arrived(k), ArrivingFrom(pre, now)(k))
      ensures Content(mid, 2, k) == Content(pre, 2, k)
    {
      FirstContent(pre, mid, last, now, k);
    }
    var cut := now - L2_DELAY;
    forall k: Key
      ensures Content(post, 1, k) == if k.slot <= cut then ZERO else after(k)
    {
      SecondLeaves(mid, post, now, k);
      assert ContentFrom(mid, 1)(k) == Content(mid, 1, k);
    }
    forall k: Key
      ensures CoarseSettled(post, cut, after, k)
    {
      if OnGrid(GRID2, k.slot) && k.slot >= 0 {
        assert CoarseSettled(pre, last - L2_DELAY, arrived, k);
        SecondContent(mid, post, now, k);
        FineJoin(k, 6, last - L2_DELAY, now - L2_DELAY, arrived, ContentFrom(mid, 1), after, ArrivingFrom(pre, now));
      }
    }
  }

  lemma InsertSettles(rows: Rows, id: nat, s: Sample, cut: int, arrived: Key -> Counts)
    requires id !in rows && Settled(rows, cut, arrived)
    ensures Settled(rows[id := Row(s, 0)], cut, arrived)
  {
    hide Content;
    hide FineSum;
    var after := rows[id := Row(s, 0)];
    forall k: Key
      ensures Content(after, 1, k) == Content(rows, 1, k)
      ensures Content(after, 2, k) == Content(rows, 2, k)
    {
      InsertContent(rows, id, s, 1, k);
      InsertContent(rows, id, s, 2, k);
    }
    forall k: Key
      ensures CoarseSettled(after, cut, arrived, k)
    {
      assert CoarseSettled(rows, cut, arrived, k);
    }
  }

  lemma {:induction false} ZeroFineSlots(k: Key, n: nat, cut: int, f: Key -> Counts)
    requires forall j: Key :: f(j) == ZERO
    ensures FineSum(k, n, cut, f) == ZERO
  {
    hide Plus;
    PlusZero(ZERO);
    if n == 0 {
    } else {
      ZeroFineSlots(k, n - 1, cut, f);
    }
  }

  lemma NothingSettled(cut: int, arrived: Key -> Counts)
    requires forall k: Key :: arrived(k) == ZERO
    ensures Settled(map[], cut, arrived)
  {
    var none: Rows := map[];
    assert none.Keys == {};
    forall k: Key
      ensures Content(none, 1, k) == ZERO
      ensures CoarseSettled(none, cut, arrived, k)
    {
      ZeroFineSlots(k, 6, cut, arrived);
    }
  }

  lemma ArrivedStep(states: seq<State>, ops: seq<Op>, i: nat)
    requires |states| == |ops| + 1 && i < |ops|
    ensures forall k: Key :: ArrivedFrom(states, ops, i + 1)(k) ==
              if ops[i].Run? then Plus(ArrivedFrom(states, ops, i)(k), Arriving(states[i].rows, ops[i].now, k))
              else ArrivedFrom(states, ops, i)(k)
  {
    hide Arriving;
    hide Plus;
    forall k: Key
      ensures ArrivedFrom(states, ops, i + 1)(k) ==
              if ops[i].Run? then Plus(ArrivedFrom(states, ops, i)(k), Arriving(states[i].rows, ops[i].now, k))
              else ArrivedFrom(states, ops, i)(k)
    {
      PlusZero(Arrived(states, ops, i, k));
    }
  }

  lemma {:induction false} SameFineSums(k: Key, n: nat, cut: int, f: Key -> Counts, h: Key -> Counts)
    requires forall j: Key :: f(j) == h(j)
    ensures FineSum(k, n, cut, f) == FineSum(k, n, cut, h)
  {
    if n == 0 {
    } else {
      SameFineSums(k, n - 1, cut, f, h);
    }
  }

  lemma SameArrived(rows: Rows, cut: int, f: Key -> Counts, h: Key -> Counts)
    requires Settled(rows, cut, f) && forall j: Key :: h(j) == f(j)
    ensures Settled(rows, cut, h)
  {
    hide Content;
    hide FineSum;
    forall k: Key
      ensures CoarseSettled(rows, cut, h, k)
    {
      assert CoarseSettled(rows, cut, f, k);
      SameFineSums(k, 6, cut, f, h);
    }
  }

  /**
    Over every run, every slot of the archive holds exactly what the archive runs have added: a fine
    slot its own arrivals until the coarse level takes over, a coarse slot those of its fine slots
    that are old enough. How the runs were spread over time leaves no other trace.
   */
  lemma {:induction false} ContentOverRun(states: seq<State>, ops: seq<Op>, i: nat)
    requires IsRun(states, ops) && i <= |ops|
    ensures Settled(states[i].rows, states[i].now - L2_DELAY, ArrivedFrom(states, ops, i))
  {
    hide Settled;
    hide ArchiveStep;
    hide Inv;
    hide Arriving;
    hide Plus;
    if i == 0 {
      NothingSettled(states[0].now - L2_DELAY, ArrivedFrom(states, ops, 0));
    } else {
      ContentOverRun(states, ops, i - 1);
      var pre, op, post := states[i - 1], ops[i - 1], states[i];
      assert Step(pre, op, post);
      EveryRun(states, ops, i - 1);
      ArrivedStep(states, ops, i - 1);
      match op
      case Insert(id, s) =>
        InsertSettles(pre.rows, id, s, pre.now - L2_DELAY, ArrivedFrom(states, ops, i - 1));
        SameArrived(post.rows, post.now - L2_DELAY, ArrivedFrom(states, ops, i - 1), ArrivedFrom(states, ops, i));
      case Run(now) =>
        RunSettles(pre.rows, post.rows, pre.now, now, ArrivedFrom(states, ops, i - 1), ArrivedFrom(states, ops, i));
    }
  }
}
