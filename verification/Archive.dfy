/** The two archive levels of StoredConnection over a store of records, and what they keep over whole runs. */
module Archive {
  import opened Bits
  import opened Counts
  import opened Regrid
  import opened RegridLaws
  import opened Rounding
  import opened Options

  datatype Row = Row(sample: Sample, archived: int)

  type Rows = map<nat, Row>

  const L1_SIZE := 20 * 60
  const L2_SIZE := 2 * 60 * 60
  const L1_DELAY := 15 * 60
  const L2_DELAY := 2 * 24 * 60 * 60

  const GRID1: Grid := Raster(0, 20 * 60)
  const GRID2: Grid := Raster(0, 2 * 60 * 60)

  // ---------- selections: DataRecordManager ----------

  /** The condition of getDataForArc; a missing user and a negative state restrict nothing. */
  predicate SelectedForArc(row: Row, begining: int, end: int, user: Option<nat>, nextState: int) {
    && row.sample.end >= begining && row.sample.start <= end
    && (user.Some? ==> row.sample.user == user.value)
    && (nextState >= 0 ==> row.archived <= nextState)
  }

  /** The condition of getData. */
  predicate Selected(row: Row, begining: int, end: int, user: Option<nat>, state: int) {
    && row.sample.end >= begining && row.sample.start <= end
    && (user.Some? ==> row.sample.user == user.value)
    && (state >= 0 ==> row.archived == state)
  }

  /** The records a phase takes, and their samples in the order the database returns them. */
  ghost function Taken(rows: Rows, cut: int, level: int): set<nat> {
    set id | id in rows && SelectedForArc(rows[id], 0, cut, None, level)
  }

  /** The records of a user that a span reaches, both ends included, whatever their level. */
  ghost function OfUserBetween(rows: Rows, user: nat, first: int, last: int): set<nat> {
    set id | id in rows && rows[id].sample.user == user
             && first <= rows[id].sample.end && rows[id].sample.start <= last
  }

  ghost function SamplesAt(rows: Rows, ids: seq<nat>): (xs: seq<Sample>)
    requires Elements(ids) <= rows.Keys
    ensures |xs| == |ids| && forall i :: 0 <= i < |ids| ==> ids[i] in rows && xs[i] == rows[ids[i]].sample
  {
    assert forall i :: 0 <= i < |ids| ==> ids[i] in Elements(ids);
    seq(|ids|, i requires 0 <= i < |ids| => rows[ids[i]].sample)
  }

  /** Cells with something in them. */
  ghost function NonZero(cells: map<Key, Counts>): map<Key, Counts> {
    map k | k in cells && cells[k] != ZERO :: cells[k]
  }

  /**
    What one phase does to the store: the taken records, listed by ids, are replaced by new records,
    listed by news, for the non-empty cells of the regridded samples; all others stay as they are.
   */
  ghost predicate PhaseStep(pre: Rows, post: Rows, ids: seq<nat>, news: seq<nat>, cut: int, g: Grid, level: int) {
    && Distinct(ids) && Elements(ids) == Taken(pre, cut, level)
    && Distinct(news) && Elements(news) !! (pre.Keys - Elements(ids))
    && post.Keys == (pre.Keys - Elements(ids)) + Elements(news)
    && (forall id :: id in pre.Keys - Elements(ids) ==> post[id] == pre[id])
    && (forall id :: id in Elements(news) ==> post[id].archived == level)
    && Lists(g, SamplesAt(post, news), NonZero(Regridded(g, cut + g.step, SamplesAt(pre, ids))))
  }

  ghost predicate Phase(pre: Rows, post: Rows, cut: int, g: Grid, level: int) {
    exists ids, news :: PhaseStep(pre, post, ids, news, cut, g, level)
  }

  ghost predicate Level1(pre: Rows, post: Rows, now: int) {
    Phase(pre, post, now - L1_DELAY, GRID1, 1)
  }

  ghost predicate Level2(pre: Rows, post: Rows, now: int) {
    Phase(pre, post, now - L2_DELAY, GRID2, 2)
  }

  /** refactorArchive at a time: level 1, then level 2. */
  ghost predicate ArchiveStep(pre: Rows, post: Rows, now: int) {
    exists mid :: Level1(pre, mid, now) && Level2(mid, post, now)
  }

  // ---------- bytes ----------

  function RowAt(rows: Rows, trust: nat, user: nat): nat -> Counts {
    (id: nat) => if id in rows && For(rows[id].sample, trust, user) then rows[id].sample.counts else ZERO
  }

  /** The bytes the store holds for a user at a trust level. */
  ghost function Stored(rows: Rows, trust: nat, user: nat): Counts {
    Sum(rows.Keys, RowAt(rows, trust, user))
  }

  lemma {:induction false} SeqSumOfRows(rows: Rows, ids: seq<nat>, trust: nat, user: nat)
    requires Elements(ids) <= rows.Keys
    ensures SeqSum(ids, RowAt(rows, trust, user)) == UserTotal(SamplesAt(rows, ids), trust, user)
  {
    if ids == [] {
    } else {
      var n := |ids| - 1;
      assert ids[n] in Elements(ids);
      assert Elements(ids[..n]) <= Elements(ids) by {
        assert forall i :: 0 <= i < n ==> ids[..n][i] == ids[i];
      }
      SeqSumOfRows(rows, ids[..n], trust, user);
      assert SamplesAt(rows, ids)[..n] == SamplesAt(rows, ids[..n]);
    }
  }

  /** The store's bytes are those of the listed records and those of the rest. */
  lemma StoredSplit(rows: Rows, rest: set<nat>, ids: seq<nat>, trust: nat, user: nat)
    requires Distinct(ids) && rest !! Elements(ids) && rows.Keys == rest + Elements(ids)
    ensures Stored(rows, trust, user) ==
            Plus(Sum(rest, RowAt(rows, trust, user)), UserTotal(SamplesAt(rows, ids), trust, user))
  {
    SumUnion(rest, Elements(ids), RowAt(rows, trust, user));
    SeqSumIsSum(ids, RowAt(rows, trust, user));
    SeqSumOfRows(rows, ids, trust, user);
  }

  /** Leaving out empty cells leaves the bytes as they are. */
  lemma ConservationNonZero(g: Grid, end: int, xs: seq<Sample>, blocks: seq<Sample>, trust: nat, user: nat)
    requires Lists(g, blocks, NonZero(Regridded(g, end, xs)))
    ensures UserTotal(blocks, trust, user) == UserKept(g, end, xs, trust, user)
  {
    hide Total;
    hide Touched;
    var cells := Regridded(g, end, xs);
    var some := NonZero(cells);
    TotalOfBlocks(blocks, some, trust, user);
    SeqSumIsSum(KeysOf(blocks), CellAt(some, trust, user));
    SumEqual(some.Keys, CellAt(some, trust, user), CellAt(cells, trust, user));
    SumPart(cells.Keys, some.Keys, CellAt(cells, trust, user));
    SumEqual(cells.Keys, CellAt(cells, trust, user), TotalAt(g, xs, trust, user));
    SumOfTotals(g, end, xs, trust, user, cells.Keys);
  }

  // ---------- bytes lost ----------

  ghost function LostOf(rows: Rows, g: Grid, end: int, trust: nat, user: nat): nat -> Counts {
    (id: nat) => if id in rows && For(rows[id].sample, trust, user) then Lost(g, end, rows[id].sample) else ZERO
  }

  /** What the records that a phase takes of a user have outside its window. */
  ghost function LostBy(rows: Rows, cut: int, g: Grid, level: int, trust: nat, user: nat): Counts {
    Sum(Taken(rows, cut, level), LostOf(rows, g, cut + g.step, trust, user))
  }

  lemma {:induction false} LostIsListed(rows: Rows, ids: seq<nat>, g: Grid, end: int, trust: nat, user: nat)
    requires Elements(ids) <= rows.Keys
    ensures SeqSum(ids, LostOf(rows, g, end, trust, user)) == UserLost(g, end, SamplesAt(rows, ids), trust, user)
  {
    hide Lost;
    hide Plus;
    if ids == [] {
    } else {
      var n := |ids| - 1;
      assert ids[n] in Elements(ids);
      assert Elements(ids[..n]) <= Elements(ids) by {
        assert forall i :: 0 <= i < n ==> ids[..n][i] == ids[i];
      }
      LostIsListed(rows, ids[..n], g, end, trust, user);
      assert SamplesAt(rows, ids)[..n] == SamplesAt(rows, ids[..n]);
    }
  }

  lemma StepConservation(pre: Rows, post: Rows, ids: seq<nat>, news: seq<nat>, cut: int, g: Grid, level: int,
                         trust: nat, user: nat)
    requires PhaseStep(pre, post, ids, news, cut, g, level)
    ensures Stored(pre, trust, user) ==
            Plus(Stored(post, trust, user), UserLost(g, cut + g.step, SamplesAt(pre, ids), trust, user))
  {
    hide Regridded;
    hide NonZero;
    hide Plus;
    hide Sum;
    hide UserLost;
    hide UserKept;
    hide UserTotal;
    hide Lists;
    var rest, xs := pre.Keys - Elements(ids), SamplesAt(pre, ids);
    StoredSplit(pre, rest, ids, trust, user);
    StoredSplit(post, rest, news, trust, user);
    SumEqual(rest, RowAt(pre, trust, user), RowAt(post, trust, user));
    ConservationNonZero(g, cut + g.step, xs, SamplesAt(post, news), trust, user);
    KeptAndLost(g, cut + g.step, xs, trust, user);
    PlusAssociative(Sum(rest, RowAt(pre, trust, user)), UserKept(g, cut + g.step, xs, trust, user),
                    UserLost(g, cut + g.step, xs, trust, user));
  }

  /** A phase keeps every byte of every user at every trust level but what its samples have outside its window. */
  lemma PhaseConservation(pre: Rows, post: Rows, cut: int, g: Grid, level: int, trust: nat, user: nat)
    requires Phase(pre, post, cut, g, level)
    ensures Stored(pre, trust, user) == Plus(Stored(post, trust, user), LostBy(pre, cut, g, level, trust, user))
  {
    hide Regridded;
    hide Lists;
    hide Stored;
    hide UserLost;
    hide Plus;
    hide Sum;
    var ids, news :| PhaseStep(pre, post, ids, news, cut, g, level);
    StepConservation(pre, post, ids, news, cut, g, level, trust, user);
    LostIsListed(pre, ids, g, cut + g.step, trust, user);
    SeqSumIsSum(ids, LostOf(pre, g, cut + g.step, trust, user));
  }

  lemma ZeroNonNegative()
    ensures NonNegative(ZERO)
  {
  }

  // ---------- the invariant of the store ----------

  /** A record of the store when the archive was last run at a time. */
  ghost predicate RowOk(row: Row, now: int) {
    && 0 <= row.archived <= 2 && NonNegative(row.sample.counts)
    && row.sample.start >= 0 && row.sample.end >= 0 && (row.archived >= 1 ==> row.sample.counts != ZERO)
    && (row.archived == 1 ==> Aligned(GRID1, row.sample) && row.sample.start <= now - L1_DELAY)
    && (row.archived == 2 ==> Aligned(GRID2, row.sample) && row.sample.start <= now - L2_DELAY)
  }

  /** No two archived records of a level, trust level and user share a slot. */
  ghost predicate Unshared(rows: Rows) {
    forall i, j ::
      (i in rows && j in rows && rows[i].archived == rows[j].archived && rows[i].archived >= 1
      && KeyOf(rows[i].sample) == KeyOf(rows[j].sample)) ==> i == j
  }

  ghost predicate Inv(rows: Rows, now: int) {
    (forall id :: id in rows ==> RowOk(rows[id], now)) && Unshared(rows)
  }

  /** Records starting at or before cut have reached a level. */
  ghost predicate Reached(rows: Rows, cut: int, level: int) {
    forall id :: id in rows && rows[id].sample.start <= cut ==> rows[id].archived >= level
  }

  lemma Later(rows: Rows, now: int, later: int)
    requires Inv(rows, now) && now <= later
    ensures Inv(rows, later)
  {
  }

  /** The records a phase makes: aligned, in the window, not negative, one for each cell. */
  lemma NewRows(pre: Rows, post: Rows, ids: seq<nat>, news: seq<nat>, cut: int, g: Grid, level: int, id: nat)
    requires PhaseStep(pre, post, ids, news, cut, g, level) && g.origin == 0
    requires forall i :: i in pre ==> NonNegative(pre[i].sample.counts)
    requires id in Elements(news)
    ensures id in post && post[id].archived == level && Aligned(g, post[id].sample)
    ensures 0 <= post[id].sample.start <= cut && NonNegative(post[id].sample.counts)
    ensures post[id].sample.end >= 0 && post[id].sample.counts != ZERO
  {
    hide Total;
    hide Touched;
    var xs, blocks := SamplesAt(pre, ids), SamplesAt(post, news);
    var i :| 0 <= i < |news| && news[i] == id;
    var k := KeyOf(blocks[i]);
    assert k in Regridded(g, cut + g.step, xs);
    TouchedOnGrid(g, xs, k);
    TotalNonNegative(g, xs, k);
  }

  /** New records of a phase do not share slots. */
  lemma NewUnshared(pre: Rows, post: Rows, ids: seq<nat>, news: seq<nat>, cut: int, g: Grid, level: int, a: nat, b: nat)
    requires PhaseStep(pre, post, ids, news, cut, g, level)
    requires a in Elements(news) && b in Elements(news) && KeyOf(post[a].sample) == KeyOf(post[b].sample)
    ensures a == b
  {
    hide Regridded;
    hide NonZero;
    var blocks := SamplesAt(post, news);
    var i :| 0 <= i < |news| && news[i] == a;
    var j :| 0 <= j < |news| && news[j] == b;
    assert KeysOf(blocks)[i] == KeysOf(blocks)[j];
  }

  /** What is true of every record after a phase, from what was true before. */
  lemma PhaseKeepsInv(pre: Rows, post: Rows, now: int, ids: seq<nat>, news: seq<nat>, cut: int, g: Grid, level: int)
    requires Inv(pre, now) && PhaseStep(pre, post, ids, news, cut, g, level)
    requires (level == 1 && g == GRID1 && cut == now - L1_DELAY) || (level == 2 && g == GRID2 && cut == now - L2_DELAY)
    requires level == 2 ==> Reached(pre, now - L1_DELAY, 1)
    ensures Inv(post, now)
    ensures Reached(post, now - L1_DELAY, 1)
    ensures level == 2 ==> Reached(post, cut, 2)
  {
    hide Lists;
    hide Aligned;
    forall id | id in post
      ensures RowOk(post[id], now)
      ensures id in Elements(news) <==> post[id].archived == level
      ensures post[id].sample.start <= cut ==> post[id].archived >= level
    {
      if id in Elements(news) {
        NewRows(pre, post, ids, news, cut, g, level, id);
      } else {
        assert RowOk(pre[id], now) && id !in Taken(pre, cut, level);
      }
    }
    forall i, j | i in post && j in post && post[i].archived == post[j].archived && post[i].archived >= 1
                  && KeyOf(post[i].sample) == KeyOf(post[j].sample)
      ensures i == j
    {
      if i in Elements(news) {
        NewUnshared(pre, post, ids, news, cut, g, level, i, j);
      } else {
        assert i in pre && j in pre && pre[i] == post[i] && pre[j] == post[j];
      }
    }
  }

  /** After the archive has run, everything old enough is on its grid. */
  lemma ArchiveSettles(pre: Rows, post: Rows, now: int)
    requires Inv(pre, now) && ArchiveStep(pre, post, now)
    ensures Inv(post, now)
    ensures Reached(post, now - L1_DELAY, 1) && Reached(post, now - L2_DELAY, 2)
  {
    hide PhaseStep;
    var mid :| Level1(pre, mid, now) && Level2(mid, post, now);
    var ids1, news1 :| PhaseStep(pre, mid, ids1, news1, now - L1_DELAY, GRID1, 1);
    PhaseKeepsInv(pre, mid, now, ids1, news1, now - L1_DELAY, GRID1, 1);
    var ids2, news2 :| PhaseStep(mid, post, ids2, news2, now - L2_DELAY, GRID2, 2);
    PhaseKeepsInv(mid, post, now, ids2, news2, now - L2_DELAY, GRID2, 2);
  }

  // ---------- exactly what is conserved ----------

  /** The coarse slot of a fine slot, and of its last second. */
  lemma FineInCoarse(q: int)
    ensures 1200 * q / 7200 == q / 6 && (1200 * q + 1199) / 7200 == q / 6
  {
    var r := q % 6;
    ModUnique(1200 * q, 7200, q / 6, 1200 * r);
    ModUnique(1200 * q + 1199, 7200, q / 6, 1200 * r + 1199);
  }

  /** A sample that touches one slot only is added to it whole. */
  lemma OneSlotGetsAll(g: Grid, s: Sample)
    requires s.start != s.end && First(g, s) == Last(g, s)
    ensures Slots(g, s) == {Key(s.trust, s.user, First(g, s))}
    ensures Part(g, s, Key(s.trust, s.user, First(g, s))) == s.counts
  {
    FloorOnGrid(g, s.start);
    hide FloorTo;
    hide OnGrid;
    var slot := First(g, s);
    forall k
      ensures k in Slots(g, s) <==> k == Key(s.trust, s.user, slot)
    {
      assert k == Key(k.trust, k.user, k.slot);
    }
  }

  lemma FineBlockInOneSlot(s: Sample)
    requires Aligned(GRID1, s)
    ensures First(GRID2, s) == Last(GRID2, s)
  {
    var q := s.start / 1200;
    assert s.start == 1200 * q;
    FineInCoarse(q);
  }

  /** A block of either grid lies in one slot of the coarse grid, which gets all of it: nothing is rounded. */
  lemma BlockInOneSlot(s: Sample)
    requires Aligned(GRID1, s) || Aligned(GRID2, s)
    ensures Bumped(s) == s && First(GRID2, s) == Last(GRID2, s)
    ensures Slots(GRID2, s) == {Key(s.trust, s.user, First(GRID2, s))}
    ensures Part(GRID2, s, Key(s.trust, s.user, First(GRID2, s))) == s.counts
  {
    hide Slots;
    hide Part;
    hide FloorTo;
    if Aligned(GRID1, s) {
      FineBlockInOneSlot(s);
    } else {
      AlignedPart(GRID2, s, KeyOf(s));
    }
    OneSlotGetsAll(GRID2, s);
  }

  lemma PlusCancels(a: Counts, b: Counts)
    ensures Plus(a, b) == a <==> b == ZERO
  {
    if Plus(a, b) == a {
      assert b == Counts(0, 0, 0, 0);
    }
  }

  /** What the first phase takes and its window reaches: the last slot starts at or before the cut. */
  predicate Safe(s: Sample, cut: int) {
    s.counts == ZERO || (Forward(GRID1, s) && Last(GRID1, Bumped(s)) <= cut)
  }

  /** The records of a user the first phase would lose bytes of. */
  ghost predicate Loses(rows: Rows, now: int, trust: nat, user: nat) {
    exists id :: id in Taken(rows, now - L1_DELAY, 1) && For(rows[id].sample, trust, user)
                 && !Safe(rows[id].sample, now - L1_DELAY)
  }

  /** No field of a loss is negative, and it is nothing only if each record taken of the user loses nothing. */
  lemma LossSign(rows: Rows, now: int, cut: int, g: Grid, level: int, trust: nat, user: nat)
    requires Inv(rows, now) && g.origin == 0
    ensures NonNegative(LostBy(rows, cut, g, level, trust, user))
    ensures LostBy(rows, cut, g, level, trust, user) == ZERO <==>
            forall id :: id in Taken(rows, cut, level) && For(rows[id].sample, trust, user) ==>
              Lost(g, cut + g.step, rows[id].sample) == ZERO
  {
    hide Lost;
    hide Sum;
    hide NonNegative;
    hide Aligned;
    var taken, lost := Taken(rows, cut, level), LostOf(rows, g, cut + g.step, trust, user);
    ZeroNonNegative();
    forall id | id in taken
      ensures NonNegative(lost(id))
    {
      assert RowOk(rows[id], now);
      LostNothing(g, cut + g.step, rows[id].sample);
    }
    SumNonNegative(taken, lost);
    if forall id :: id in taken ==> lost(id) == ZERO {
      SumOfZeros(taken, lost);
    } else {
      var id :| id in taken && lost(id) != ZERO;
      assert For(rows[id].sample, trust, user);
    }
    forall id | id in taken && For(rows[id].sample, trust, user)
      ensures lost(id) == Lost(g, cut + g.step, rows[id].sample)
    {
    }
  }

  /** What an archive run loses of a user's bytes: all of it in the first phase. */
  ghost function LostAt(rows: Rows, now: int, trust: nat, user: nat): Counts {
    LostBy(rows, now - L1_DELAY, GRID1, 1, trust, user)
  }

  lemma SafeLosesNothing(s: Sample, cut: int)
    requires NonNegative(s.counts) && s.start >= 0
    ensures Lost(GRID1, cut + 1200, s) == ZERO <==> Safe(s, cut)
  {
    hide Lost;
    hide Forward;
    LostNothing(GRID1, cut + 1200, s);
  }

  /** The first phase loses bytes of a user exactly if it takes a record that is not safe. */
  lemma LosesExactly(rows: Rows, now: int, trust: nat, user: nat)
    requires Inv(rows, now)
    ensures NonNegative(LostAt(rows, now, trust, user))
    ensures LostAt(rows, now, trust, user) == ZERO <==> !Loses(rows, now, trust, user)
  {
    hide Lost;
    hide Sum;
    hide Safe;
    hide Aligned;
    hide NonNegative;
    var cut := now - L1_DELAY;
    LossSign(rows, now, cut, GRID1, 1, trust, user);
    forall id | id in Taken(rows, cut, 1)
      ensures Lost(GRID1, cut + 1200, rows[id].sample) == ZERO <==> Safe(rows[id].sample, cut)
    {
      assert RowOk(rows[id], now);
      SafeLosesNothing(rows[id].sample, cut);
    }
  }

  /**
    The first phase keeps a user's bytes at a trust level exactly unless one of the records it takes
    has bytes and reaches into a slot that starts after the cut (or ends in a slot before its first).
   */
  lemma Level1Conserves(pre: Rows, post: Rows, now: int, trust: nat, user: nat)
    requires Inv(pre, now) && Level1(pre, post, now)
    ensures Stored(pre, trust, user) == Stored(post, trust, user) <==> !Loses(pre, now, trust, user)
  {
    hide Phase;
    hide LostBy;
    hide Loses;
    hide Plus;
    hide Stored;
    PhaseConservation(pre, post, now - L1_DELAY, GRID1, 1, trust, user);
    PlusCancels(Stored(post, trust, user), LostAt(pre, now, trust, user));
    LosesExactly(pre, now, trust, user);
  }

  lemma BlockLosesNothing(s: Sample, cut: int)
    requires Aligned(GRID1, s) || Aligned(GRID2, s)
    requires NonNegative(s.counts) && 0 <= s.start <= cut
    ensures Lost(GRID2, cut + 7200, s) == ZERO
  {
    hide Lost;
    hide Slots;
    hide Part;
    hide Aligned;
    BlockInOneSlot(s);
    FloorOnGrid(GRID2, s.start);
    LostNothing(GRID2, cut + 7200, s);
  }

  /** The second phase, run after the first, keeps every byte. */
  lemma Level2Conserves(pre: Rows, post: Rows, now: int, trust: nat, user: nat)
    requires Inv(pre, now) && Reached(pre, now - L1_DELAY, 1) && Level2(pre, post, now)
    ensures Stored(pre, trust, user) == Stored(post, trust, user)
  {
    hide Phase;
    hide Lost;
    hide Sum;
    hide Aligned;
    hide Plus;
    hide Stored;
    var cut := now - L2_DELAY;
    forall id | id in Taken(pre, cut, 2)
      ensures Lost(GRID2, cut + 7200, pre[id].sample) == ZERO
    {
      assert RowOk(pre[id], now);
      BlockLosesNothing(pre[id].sample, cut);
    }
    LossSign(pre, now, cut, GRID2, 2, trust, user);
    PhaseConservation(pre, post, cut, GRID2, 2, trust, user);
    PlusZero(Stored(post, trust, user));
  }

  /** The ledger of an archive run: what was stored is what still is and what the first phase lost. */
  lemma ArchiveLedger(pre: Rows, post: Rows, now: int, trust: nat, user: nat)
    requires Inv(pre, now) && ArchiveStep(pre, post, now)
    ensures Stored(pre, trust, user) == Plus(Stored(post, trust, user), LostAt(pre, now, trust, user))
  {
    hide PhaseStep;
    hide LostBy;
    hide Stored;
    hide Plus;
    var mid :| Level1(pre, mid, now) && Level2(mid, post, now);
    var ids, news :| PhaseStep(pre, mid, ids, news, now - L1_DELAY, GRID1, 1);
    PhaseKeepsInv(pre, mid, now, ids, news, now - L1_DELAY, GRID1, 1);
    PhaseConservation(pre, mid, now - L1_DELAY, GRID1, 1, trust, user);
    Level2Conserves(mid, post, now, trust, user);
  }

  /** An archive run adds no bytes in any field, and conserves a user's bytes exactly when its first phase does. */
  lemma ArchiveConserves(pre: Rows, post: Rows, now: int, trust: nat, user: nat)
    requires Inv(pre, now) && ArchiveStep(pre, post, now)
    ensures AtMost(Stored(post, trust, user), Stored(pre, trust, user))
    ensures Stored(pre, trust, user) == Stored(post, trust, user) <==> !Loses(pre, now, trust, user)
  {
    hide ArchiveStep;
    hide LostAt;
    hide Stored;
    hide Loses;
    hide AtMost;
    hide Plus;
    ArchiveLedger(pre, post, now, trust, user);
    LosesExactly(pre, now, trust, user);
    AtMostPlus(Stored(post, trust, user), ZERO, LostAt(pre, now, trust, user));
    PlusCancels(Stored(post, trust, user), LostAt(pre, now, trust, user));
  }

  /** A five-minute record that straddles the last slot boundary before the cut is one of those losing bytes. */
  lemma LosingExample(trust: nat, user: nat)
    ensures var rows := map[0 := Row(Sample(trust, user, 1000, 1300, Counts(300, 0, 0, 0)), 0)];
            Inv(rows, 2000) && Loses(rows, 2000, trust, user)
  {
    var rows := map[0 := Row(Sample(trust, user, 1000, 1300, Counts(300, 0, 0, 0)), 0)];
    assert 0 in Taken(rows, 1100, 1) && !Safe(rows[0].sample, 1100);
  }

  // ---------- whole runs ----------

  /** The store, and the time the archive last ran. */
  datatype State = State(rows: Rows, now: int)

  datatype Op = Insert(id: nat, sample: Sample) | Run(now: int)

  ghost predicate Step(pre: State, op: Op, post: State) {
    match op
    case Insert(id, s) =>
      && id !in pre.rows && s.start >= 0 && s.end >= 0 && NonNegative(s.counts)
      && post == State(pre.rows[id := Row(s, 0)], pre.now)
    case Run(now) =>
      pre.now <= now == post.now && ArchiveStep(pre.rows, post.rows, now)
  }

  ghost predicate IsRun(states: seq<State>, ops: seq<Op>) {
    && |states| == |ops| + 1 && states[0].rows == map[]
    && forall i :: 0 <= i < |ops| ==> Step(states[i], ops[i], states[i + 1])
  }

  /**
    In every run of inserts and archive runs at non-decreasing times, archived records lie on their
    grid and share no slot, and right after an archive run nothing old enough is below its level.
   */
  lemma {:induction false} EveryRun(states: seq<State>, ops: seq<Op>, i: nat)
    requires IsRun(states, ops) && i <= |ops|
    ensures Inv(states[i].rows, states[i].now)
    ensures i > 0 && ops[i - 1].Run? ==>
              && Reached(states[i].rows, states[i].now - L1_DELAY, 1)
              && Reached(states[i].rows, states[i].now - L2_DELAY, 2)
  {
    hide ArchiveStep;
    if i == 0 {
    } else {
      EveryRun(states, ops, i - 1);
      assert Step(states[i - 1], ops[i - 1], states[i]);
      if ops[i - 1].Run? {
        Later(states[i - 1].rows, states[i - 1].now, states[i].now);
        ArchiveSettles(states[i - 1].rows, states[i].rows, states[i].now);
      }
    }
  }

  ghost predicate LevelByAge(row: Row, now: int) {
    var age, s := now - row.sample.start, row.sample;
    && row.archived == (if age >= 172800 then 2 else if age >= 900 then 1 else 0)
    && (row.archived == 1 ==> s.start % 1200 == 0 && s.end == s.start + 1200)
    && (row.archived == 2 ==> s.start % 7200 == 0 && s.end == s.start + 7200)
    && (row.archived >= 1 ==> s.counts != ZERO)
  }

  /**
    The same in seconds. Right after an archive run the age of a record's start tells its level: above
    15 minutes it is archived, above two days at level 2. Records of level 1 fill a slot of twenty
    minutes and those of level 2 one of two hours, and each holds something.
   */
  lemma AfterRun(states: seq<State>, ops: seq<Op>, i: nat)
    requires IsRun(states, ops) && 0 < i <= |ops| && ops[i - 1].Run?
    ensures forall id :: id in states[i].rows ==> LevelByAge(states[i].rows[id], states[i].now)
  {
    hide Step;
    EveryRun(states, ops, i);
    forall id | id in states[i].rows
      ensures LevelByAge(states[i].rows[id], states[i].now)
    {
      assert RowOk(states[i].rows[id], states[i].now);
    }
  }

  /** An archive run leaves every record younger than 15 minutes alone. */
  lemma YoungUntouched(pre: Rows, post: Rows, now: int, id: nat)
    requires ArchiveStep(pre, post, now) && id in pre && now - pre[id].sample.start < 900
    ensures id in post && post[id] == pre[id]
  {
    hide Lists;
    var mid :| Level1(pre, mid, now) && Level2(mid, post, now);
    var ids1, news1 :| PhaseStep(pre, mid, ids1, news1, now - L1_DELAY, GRID1, 1);
    var ids2, news2 :| PhaseStep(mid, post, ids2, news2, now - L2_DELAY, GRID2, 2);
    assert mid[id] == pre[id];
  }

  /** What an operation inserts for a user at a trust level. */
  ghost function InsertedBy(op: Op, trust: nat, user: nat): Counts {
    if op.Insert? && For(op.sample, trust, user) then op.sample.counts else ZERO
  }

  /** The bytes that a run has inserted for a user at a trust level. */
  ghost function Inserted(ops: seq<Op>, trust: nat, user: nat): Counts {
    if ops == [] then ZERO else
      var last := ops[|ops| - 1];
      Plus(Inserted(ops[..|ops| - 1], trust, user), InsertedBy(last, trust, user))
  }

  lemma StoredAfterInsert(rows: Rows, id: nat, s: Sample, trust: nat, user: nat)
    requires id !in rows
    ensures Stored(rows[id := Row(s, 0)], trust, user) ==
            Plus(Stored(rows, trust, user), if For(s, trust, user) then s.counts else ZERO)
  {
    hide Sum;
    hide Plus;
    var after := rows[id := Row(s, 0)];
    assert after.Keys - {id} == rows.Keys;
    SumRemove(after.Keys, RowAt(after, trust, user), id);
    SumEqual(rows.Keys, RowAt(rows, trust, user), RowAt(after, trust, user));
    PlusCommutes(Stored(rows, trust, user), if For(s, trust, user) then s.counts else ZERO);
  }

  /** No archive run among the first i operations met a record of the user that it lost bytes of. */
  ghost predicate NoneLost(states: seq<State>, ops: seq<Op>, i: nat, trust: nat, user: nat)
    requires |states| == |ops| + 1 && i <= |ops|
  {
    forall j :: 0 <= j < i && ops[j].Run? ==> !Loses(states[j].rows, ops[j].now, trust, user)
  }

  /** What the archive runs among the first i operations have lost of a user's bytes. */
  ghost function LostSoFar(states: seq<State>, ops: seq<Op>, i: nat, trust: nat, user: nat): Counts
    requires |states| == |ops| + 1 && i <= |ops|
  {
    if i == 0 then ZERO
    else Plus(LostSoFar(states, ops, i - 1, trust, user),
              if ops[i - 1].Run? then LostAt(states[i - 1].rows, ops[i - 1].now, trust, user) else ZERO)
  }

  lemma NothingStored(trust: nat, user: nat)
    ensures Stored(map[], trust, user) == ZERO
  {
    var none: Rows := map[];
    assert none.Keys == {};
  }

  lemma {:induction false} Ledger(states: seq<State>, ops: seq<Op>, i: nat, trust: nat, user: nat)
    requires IsRun(states, ops) && i <= |ops|
    ensures Inserted(ops[..i], trust, user) ==
            Plus(Stored(states[i].rows, trust, user), LostSoFar(states, ops, i, trust, user))
  {
    hide ArchiveStep;
    hide LostAt;
    hide Stored;
    hide Plus;
    hide Inv;
    PlusZero(ZERO);
    if i == 0 {
      NothingStored(trust, user);
    } else {
      var pre, op, post := states[i - 1], ops[i - 1], states[i];
      var held, lost := Stored(pre.rows, trust, user), LostSoFar(states, ops, i - 1, trust, user);
      Ledger(states, ops, i - 1, trust, user);
      assert Step(pre, op, post);
      EveryRun(states, ops, i - 1);
      assert ops[..i][..i - 1] == ops[..i - 1];
      PlusZero(lost);
      PlusZero(Plus(held, lost));
      match op
      case Insert(id, s) =>
        StoredAfterInsert(pre.rows, id, s, trust, user);
        PlusMiddle(held, InsertedBy(op, trust, user), lost);
      case Run(now) =>
        Later(pre.rows, pre.now, now);
        ArchiveLedger(pre.rows, post.rows, now, trust, user);
        PlusMiddle(Stored(post.rows, trust, user), LostAt(pre.rows, now, trust, user), lost);
        PlusAssociative(Stored(post.rows, trust, user), lost, LostAt(pre.rows, now, trust, user));
    }
  }

  lemma {:induction false} LossOverRun(states: seq<State>, ops: seq<Op>, i: nat, trust: nat, user: nat)
    requires IsRun(states, ops) && i <= |ops|
    ensures NonNegative(LostSoFar(states, ops, i, trust, user))
    ensures LostSoFar(states, ops, i, trust, user) == ZERO <==> NoneLost(states, ops, i, trust, user)
  {
    hide ArchiveStep;
    hide LostAt;
    hide Loses;
    hide Inv;
    hide NonNegative;
    hide Plus;
    ZeroNonNegative();
    PlusZero(ZERO);
    if i == 0 {
    } else {
      var pre, op := states[i - 1], ops[i - 1];
      var lost, more := LostSoFar(states, ops, i - 1, trust, user),
                        if op.Run? then LostAt(pre.rows, op.now, trust, user) else ZERO;
      LossOverRun(states, ops, i - 1, trust, user);
      EveryRun(states, ops, i - 1);
      assert Step(pre, op, states[i]);
      if op.Run? {
        Later(pre.rows, pre.now, op.now);
        LosesExactly(pre.rows, op.now, trust, user);
      }
      PlusNonNegative(lost, more);
    }
  }

  /**
    Over a whole run what was inserted is what is stored and what archive runs have lost, exactly. So
    no field of what is stored exceeds what was inserted, and the two are equal exactly as long as no
    archive run has lost anything: lost bytes never come back.
   */
  lemma BytesOverRun(states: seq<State>, ops: seq<Op>, i: nat, trust: nat, user: nat)
    requires IsRun(states, ops) && i <= |ops|
    ensures Inserted(ops[..i], trust, user) ==
            Plus(Stored(states[i].rows, trust, user), LostSoFar(states, ops, i, trust, user))
    ensures AtMost(Stored(states[i].rows, trust, user), Inserted(ops[..i], trust, user))
    ensures Stored(states[i].rows, trust, user) == Inserted(ops[..i], trust, user) <==>
            NoneLost(states, ops, i, trust, user)
  {
    Ledger(states, ops, i, trust, user);
    LossOverRun(states, ops, i, trust, user);
    hide IsRun;
    hide NoneLost;
    hide LostSoFar;
    hide Stored;
    hide Inserted;
    hide AtMost;
    hide Plus;
    var held, lost := Stored(states[i].rows, trust, user), LostSoFar(states, ops, i, trust, user);
    AtMostPlus(held, ZERO, lost);
    PlusCancels(held, lost);
  }
}
