/**
  Where the bytes of each slot of the archive come from, told from the operations of a run alone: every
  inserted sample adds its part to the slots that the archive run that first takes it can reach.
 */
module ArchiveOrigin {
  import opened Counts
  import opened Options
  import opened Regrid
  import opened Archive
  import opened ArchiveContent
  import opened ArchiveTiming

  /** The cut of the first archive run from operation j on, and before operation i, that takes a sample. */
  function FirstCut(ops: seq<Op>, j: nat, i: nat, s: Sample): Option<int>
    requires j <= i <= |ops|
    decreases i - j
  {
    if j == i then None
    else if ops[j].Run? && s.start <= ops[j].now - L1_DELAY then Some(ops[j].now - L1_DELAY)
    else FirstCut(ops, j + 1, i, s)
  }

  lemma {:induction false} FirstCutStep(ops: seq<Op>, j: nat, i: nat, s: Sample)
    requires j <= i < |ops|
    ensures FirstCut(ops, j, i + 1, s) ==
            if FirstCut(ops, j, i, s).Some? then FirstCut(ops, j, i, s)
            else if ops[i].Run? && s.start <= ops[i].now - L1_DELAY then Some(ops[i].now - L1_DELAY)
            else None
    decreases i - j
  {
    if j == i {
      assert FirstCut(ops, i + 1, i + 1, s) == None;
    } else {
      FirstCutStep(ops, j + 1, i, s);
    }
  }

  /** What a sample adds to a fine slot when the archive run with this cut takes it. */
  function Addition(s: Sample, cut: int, k: Key): Counts {
    if InWindow(GRID1, cut + 1200, k) then Part(GRID1, s, k) else ZERO
  }

  /** What the sample inserted by operation j has added to a fine slot before operation i. */
  function Added(ops: seq<Op>, j: nat, i: nat, k: Key): Counts
    requires j < i <= |ops|
  {
    if ops[j].Insert? then
      match FirstCut(ops, j + 1, i, ops[j].sample)
      case None => ZERO
      case Some(cut) => Addition(ops[j].sample, cut, k)
    else ZERO
  }

  /** What the first n operations have added before operation i. */
  function AllAdded(ops: seq<Op>, n: nat, i: nat, k: Key): Counts
    requires n <= i <= |ops|
  {
    if n == 0 then ZERO else Plus(AllAdded(ops, n - 1, i, k), Added(ops, n - 1, i, k))
  }

  /** The sum of f over the samples that the first n operations inserted and no run before operation i has taken. */
  function Waiting(ops: seq<Op>, n: nat, i: nat, f: Sample -> Counts): Counts
    requires n <= i <= |ops|
  {
    if n == 0 then ZERO
    else Plus(Waiting(ops, n - 1, i, f),
              if ops[n - 1].Insert? && FirstCut(ops, n, i, ops[n - 1].sample) == None
              then f(ops[n - 1].sample) else ZERO)
  }

  /** f for the samples that an archive run with this cut does not take, or those that it takes. */
  function Untaken(f: Sample -> Counts, cut: int): Sample -> Counts {
    (s: Sample) => if s.start <= cut then ZERO else f(s)
  }

  function AdditionTo(cut: int, k: Key): Sample -> Counts {
    (s: Sample) => if s.start <= cut then Addition(s, cut, k) else ZERO
  }

  // ---------- one more operation ----------

  lemma {:induction false} WaitingOverInsert(ops: seq<Op>, n: nat, i: nat, f: Sample -> Counts)
    requires n <= i < |ops| && ops[i].Insert?
    ensures Waiting(ops, n, i + 1, f) == Waiting(ops, n, i, f)
  {
    hide Plus;
    if n == 0 {
    } else {
      WaitingOverInsert(ops, n - 1, i, f);
      if ops[n - 1].Insert? {
        FirstCutStep(ops, n, i, ops[n - 1].sample);
      }
    }
  }

  lemma {:induction false} WaitingOverRun(ops: seq<Op>, n: nat, i: nat, f: Sample -> Counts)
    requires n <= i < |ops| && ops[i].Run?
    ensures Waiting(ops, n, i + 1, f) == Waiting(ops, n, i, Untaken(f, ops[i].now - L1_DELAY))
  {
    hide Plus;
    if n == 0 {
    } else {
      WaitingOverRun(ops, n - 1, i, f);
      if ops[n - 1].Insert? {
        FirstCutStep(ops, n, i, ops[n - 1].sample);
      }
    }
  }

  lemma {:induction false} AddedOverInsert(ops: seq<Op>, n: nat, i: nat, k: Key)
    requires n <= i < |ops| && ops[i].Insert?
    ensures AllAdded(ops, n, i + 1, k) == AllAdded(ops, n, i, k)
  {
    hide Plus;
    hide Addition;
    if n == 0 {
    } else {
      AddedOverInsert(ops, n - 1, i, k);
      if ops[n - 1].Insert? {
        FirstCutStep(ops, n, i, ops[n - 1].sample);
      }
    }
  }

  lemma AddedOneOverRun(ops: seq<Op>, j: nat, i: nat, k: Key)
    requires j < i < |ops| && ops[i].Run?
    ensures Added(ops, j, i + 1, k) ==
            Plus(Added(ops, j, i, k),
                 if ops[j].Insert? && FirstCut(ops, j + 1, i, ops[j].sample) == None
                 then AdditionTo(ops[i].now - L1_DELAY, k)(ops[j].sample) else ZERO)
  {
    hide Plus;
    hide Addition;
    PlusZero(Added(ops, j, i, k));
    PlusZero(Added(ops, j, i + 1, k));
    if ops[j].Insert? {
      FirstCutStep(ops, j + 1, i, ops[j].sample);
    }
  }

  lemma {:induction false} AddedOverRun(ops: seq<Op>, n: nat, i: nat, k: Key)
    requires n <= i < |ops| && ops[i].Run?
    ensures AllAdded(ops, n, i + 1, k) ==
            Plus(AllAdded(ops, n, i, k), Waiting(ops, n, i, AdditionTo(ops[i].now - L1_DELAY, k)))
  {
    hide Plus;
    hide Addition;
    PlusZero(ZERO);
    if n == 0 {
    } else {
      var f := AdditionTo(ops[i].now - L1_DELAY, k);
      AddedOverRun(ops, n - 1, i, k);
      AddedOneOverRun(ops, n - 1, i, k);
      PlusFour(AllAdded(ops, n - 1, i, k), Waiting(ops, n - 1, i, f), Added(ops, n - 1, i, k),
               if ops[n - 1].Insert? && FirstCut(ops, n, i, ops[n - 1].sample) == None
               then f(ops[n - 1].sample) else ZERO);
    }
  }

  // ---------- the records that wait are the samples not yet taken ----------

  function OfSample(rows: Rows, f: Sample -> Counts): nat -> Counts {
    (id: nat) => if id in rows then f(rows[id].sample) else ZERO
  }

  ghost function WaitingRows(rows: Rows, f: Sample -> Counts): Counts {
    Sum(AtLevel(rows, 0), OfSample(rows, f))
  }

  lemma WaitingAfterInsert(rows: Rows, id: nat, s: Sample, f: Sample -> Counts)
    requires id !in rows
    ensures WaitingRows(rows[id := Row(s, 0)], f) == Plus(WaitingRows(rows, f), f(s))
  {
    hide Sum;
    hide Plus;
    var after := rows[id := Row(s, 0)];
    assert AtLevel(after, 0) - {id} == AtLevel(rows, 0);
    SumRemove(AtLevel(after, 0), OfSample(after, f), id);
    SumEqual(AtLevel(rows, 0), OfSample(rows, f), OfSample(after, f));
    PlusCommutes(WaitingRows(rows, f), f(s));
  }

  lemma FreshIsOld(rows: Rows, last: int, now: int, id: nat)
    requires Inv(rows, last) && id in AtLevel(rows, 0)
    ensures id in Fresh(rows, now) <==> rows[id].sample.start <= now - L1_DELAY
  {
    hide Aligned;
    assert RowOk(rows[id], last);
  }

  lemma WaitingAfterRun(pre: Rows, post: Rows, last: int, now: int, f: Sample -> Counts)
    requires Inv(pre, last) && last <= now && ArchiveStep(pre, post, now)
    ensures WaitingRows(post, f) == WaitingRows(pre, Untaken(f, now - L1_DELAY))
  {
    hide Sum;
    hide Inv;
    hide ArchiveStep;
    hide Fresh;
    var g, left := Untaken(f, now - L1_DELAY), AtLevel(post, 0);
    StillPending(pre, post, last, now);
    forall id | id in AtLevel(pre, 0)
      ensures id in left ==> OfSample(post, f)(id) == OfSample(pre, g)(id)
      ensures id !in left ==> OfSample(pre, g)(id) == ZERO
    {
      FreshIsOld(pre, last, now, id);
    }
    SumPart(AtLevel(pre, 0), left, OfSample(pre, g));
    SumEqual(left, OfSample(post, f), OfSample(pre, g));
  }

  lemma FreshWaits(rows: Rows, now: int)
    ensures Fresh(rows, now) <= AtLevel(rows, 0)
  {
  }

  /** What arrives with an archive run are the additions of the records that wait. */
  lemma ArrivingWaits(rows: Rows, last: int, now: int, k: Key)
    requires Inv(rows, last)
    ensures Arriving(rows, now, k) == WaitingRows(rows, AdditionTo(now - L1_DELAY, k))
  {
    hide Sum;
    hide Inv;
    hide Part;
    hide InWindow;
    hide Taken;
    var f, fresh0 := AdditionTo(now - L1_DELAY, k), Fresh(rows, now);
    assert fresh0 <= AtLevel(rows, 0) by { FreshWaits(rows, now); }
    hide Fresh;
    forall id | id in AtLevel(rows, 0)
      ensures OfSample(rows, f)(id) ==
              if id in fresh0 && InWindow(GRID1, now - L1_DELAY + 1200, k) then PartAtRow(rows, GRID1, k)(id) else ZERO
    {
      FreshIsOld(rows, last, now, id);
    }
    SumPart(AtLevel(rows, 0), fresh0, OfSample(rows, f));
    if InWindow(GRID1, now - L1_DELAY + 1200, k) {
      SumEqual(fresh0, OfSample(rows, f), PartAtRow(rows, GRID1, k));
    } else {
      SumOfZeros(fresh0, OfSample(rows, f));
    }
  }

  // ---------- whole runs ----------

  lemma NoneWaits(f: Sample -> Counts)
    ensures WaitingRows(map[], f) == ZERO
  {
    var none: Rows := map[];
    assert AtLevel(none, 0) == {};
  }

  lemma {:induction false} WaitingInRun(states: seq<State>, ops: seq<Op>, i: nat, f: Sample -> Counts)
    requires IsRun(states, ops) && i <= |ops|
    ensures WaitingRows(states[i].rows, f) == Waiting(ops, i, i, f)
  {
    hide ArchiveStep;
    hide Inv;
    hide WaitingRows;
    hide Plus;
    if i == 0 {
      NoneWaits(f);
    } else {
      var pre, op, post := states[i - 1], ops[i - 1], states[i];
      assert Step(pre, op, post);
      EveryRun(states, ops, i - 1);
      match op
      case Insert(id, s) =>
        WaitingInRun(states, ops, i - 1, f);
        WaitingAfterInsert(pre.rows, id, s, f);
        WaitingOverInsert(ops, i - 1, i - 1, f);
        assert FirstCut(ops, i, i, s) == None;
      case Run(now) =>
        var g := Untaken(f, now - L1_DELAY);
        WaitingInRun(states, ops, i - 1, g);
        WaitingAfterRun(pre.rows, post.rows, pre.now, now, f);
        WaitingOverRun(ops, i - 1, i - 1, f);
        PlusZero(Waiting(ops, i - 1, i, f));
    }
  }

  lemma AddedLast(ops: seq<Op>, i: nat, k: Key)
    requires 0 < i <= |ops|
    ensures Added(ops, i - 1, i, k) == ZERO
  {
  }

  /**
    Over every run, losses or not, what has arrived in a fine slot is told by the operations alone: the
    parts of the samples inserted, each for a slot starting at or before the first cut that took it.
   */
  lemma {:induction false} ArrivedFromOps(states: seq<State>, ops: seq<Op>, i: nat, k: Key)
    requires IsRun(states, ops) && i <= |ops|
    ensures Arrived(states, ops, i, k) == AllAdded(ops, i, i, k)
  {
    hide ArchiveStep;
    hide Inv;
    hide Arriving;
    hide WaitingRows;
    hide Addition;
    hide Plus;
    if i == 0 {
    } else {
      var pre, op := states[i - 1], ops[i - 1];
      ArrivedFromOps(states, ops, i - 1, k);
      assert Step(pre, op, states[i]);
      EveryRun(states, ops, i - 1);
      PlusZero(AllAdded(ops, i - 1, i, k));
      if op.Run? {
        ArrivingWaits(pre.rows, pre.now, op.now, k);
        WaitingInRun(states, ops, i - 1, AdditionTo(op.now - L1_DELAY, k));
        AddedOverRun(ops, i - 1, i - 1, k);
      } else {
        AddedOverInsert(ops, i - 1, i - 1, k);
        assert FirstCut(ops, i, i, op.sample) == None;
        AddedLast(ops, i, k);
      }
    }
  }

  ghost function AddedBy(ops: seq<Op>, i: nat): Key -> Counts
    requires i <= |ops|
  {
    (k: Key) => AllAdded(ops, i, i, k)
  }

  /** So the operations alone tell the content of every slot of the archive after every run. */
  lemma ContentFromOps(states: seq<State>, ops: seq<Op>, i: nat)
    requires IsRun(states, ops) && i <= |ops|
    ensures Settled(states[i].rows, states[i].now - L2_DELAY, AddedBy(ops, i))
  {
    hide Settled;
    hide AllAdded;
    hide Arrived;
    ContentOverRun(states, ops, i);
    forall k: Key
      ensures AddedBy(ops, i)(k) == ArrivedFrom(states, ops, i)(k)
    {
      ArrivedFromOps(states, ops, i, k);
    }
    SameArrived(states[i].rows, states[i].now - L2_DELAY, ArrivedFrom(states, ops, i), AddedBy(ops, i));
  }
}
