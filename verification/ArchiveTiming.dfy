/** The archive's content as a sum over the samples inserted: when the archive ran makes no difference. */
module ArchiveTiming {
  import opened Counts
  import opened Regrid
  import opened RegridLaws
  import opened Rounding
  import opened Archive
  import opened ArchiveContent

  // ---------- what arrives is what was inserted ----------

  /** The parts that the records not yet archived have in a fine slot. */
  ghost function Pending(rows: Rows, k: Key): Counts {
    Sum(AtLevel(rows, 0), PartAtRow(rows, GRID1, k))
  }

  /** The samples inserted by the first i operations. */
  function Samples(ops: seq<Op>): seq<Sample> {
    if ops == [] then []
    else Samples(ops[..|ops| - 1]) + if ops[|ops| - 1].Insert? then [ops[|ops| - 1].sample] else []
  }

  lemma PartOutsideWindow(s: Sample, cut: int, k: Key)
    requires s.start >= 0 && (For(s, k.trust, k.user) ==> Safe(s, cut))
    requires !InWindow(GRID1, cut + 1200, k)
    ensures Part(GRID1, s, k) == ZERO
  {
    if s.counts == ZERO {
      PartOfNothing(GRID1, s, k);
    } else {
      assert First(GRID1, Bumped(s)) >= 0;
      hide FloorTo;
      assert k !in Slots(GRID1, s);
    }
  }

  /** An archive run that loses nothing of the user adds to each slot all parts of what it takes. */
  lemma AllArrives(rows: Rows, last: int, now: int, k: Key)
    requires Inv(rows, last) && !Loses(rows, now, k.trust, k.user)
    ensures Arriving(rows, now, k) == Sum(Fresh(rows, now), PartAtRow(rows, GRID1, k))
  {
    hide Sum;
    hide Safe;
    hide Part;
    hide Aligned;
    hide InWindow;
    if !InWindow(GRID1, now - L1_DELAY + 1200, k) {
      forall id | id in Fresh(rows, now)
        ensures PartAtRow(rows, GRID1, k)(id) == ZERO
      {
        assert RowOk(rows[id], last) && id in Taken(rows, now - L1_DELAY, 1);
        PartOutsideWindow(rows[id].sample, now - L1_DELAY, k);
      }
      SumOfZeros(Fresh(rows, now), PartAtRow(rows, GRID1, k));
    }
  }

  lemma PhasePending(pre: Rows, post: Rows, ids: seq<nat>, news: seq<nat>, cut: int, g: Grid, level: int)
    requires PhaseStep(pre, post, ids, news, cut, g, level) && level != 0
    ensures AtLevel(post, 0) == AtLevel(pre, 0) - Taken(pre, cut, level)
    ensures forall id :: id in AtLevel(post, 0) ==> id in pre && post[id] == pre[id]
  {
    hide Lists;
    hide Taken;
  }

  /** What an archive run does not take stays pending, unchanged. */
  lemma StillPending(pre: Rows, post: Rows, last: int, now: int)
    requires Inv(pre, last) && last <= now && ArchiveStep(pre, post, now)
    ensures AtLevel(post, 0) == AtLevel(pre, 0) - Fresh(pre, now)
    ensures forall id :: id in AtLevel(post, 0) ==> id in pre && post[id] == pre[id]
  {
    hide PhaseStep;
    hide Inv;
    hide Reached;
    hide SelectedForArc;
    var mid: Rows :| Level1(pre, mid, now) && Level2(mid, post, now);
    FirstKeepsInv(pre, mid, last, now);
    var ids1, news1 :| PhaseStep(pre, mid, ids1, news1, now - L1_DELAY, GRID1, 1);
    var ids2, news2 :| PhaseStep(mid, post, ids2, news2, now - L2_DELAY, GRID2, 2);
    PhasePending(pre, mid, ids1, news1, now - L1_DELAY, GRID1, 1);
    PhasePending(mid, post, ids2, news2, now - L2_DELAY, GRID2, 2);
    forall id | id in AtLevel(mid, 0)
      ensures id !in Taken(mid, now - L2_DELAY, 2)
    {
      TakenSecond(mid, now, id);
    }
    assert AtLevel(mid, 0) - Taken(mid, now - L2_DELAY, 2) == AtLevel(mid, 0);
    assert AtLevel(pre, 0) - Taken(pre, now - L1_DELAY, 1) == AtLevel(pre, 0) - Fresh(pre, now);
  }

  /** What an archive run adds to a slot it takes from what was pending for it. */
  lemma PendingArrives(pre: Rows, post: Rows, last: int, now: int, k: Key)
    requires Inv(pre, last) && last <= now && ArchiveStep(pre, post, now) && !Loses(pre, now, k.trust, k.user)
    ensures Pending(pre, k) == Plus(Arriving(pre, now, k), Pending(post, k))
  {
    hide Sum;
    hide Part;
    hide SelectedForArc;
    hide Inv;
    hide ArchiveStep;
    hide Loses;
    hide Arriving;
    AllArrives(pre, last, now, k);
    StillPending(pre, post, last, now);
    var fresh0, left := Fresh(pre, now), AtLevel(post, 0);
    assert AtLevel(pre, 0) == fresh0 + left;
    SumUnion(fresh0, left, PartAtRow(pre, GRID1, k));
    SumEqual(left, PartAtRow(pre, GRID1, k), PartAtRow(post, GRID1, k));
  }

  lemma PendingInsert(rows: Rows, id: nat, s: Sample, k: Key)
    requires id !in rows
    ensures Pending(rows[id := Row(s, 0)], k) == Plus(Pending(rows, k), Part(GRID1, s, k))
  {
    hide Sum;
    hide Part;
    hide Plus;
    var after := rows[id := Row(s, 0)];
    assert AtLevel(after, 0) - {id} == AtLevel(rows, 0);
    SumRemove(AtLevel(after, 0), PartAtRow(after, GRID1, k), id);
    SumEqual(AtLevel(rows, 0), PartAtRow(rows, GRID1, k), PartAtRow(after, GRID1, k));
    PlusCommutes(Pending(rows, k), Part(GRID1, s, k));
  }

  lemma ArrivedOverStep(pre: State, op: Op, post: State, arrived: Counts, xs: seq<Sample>, k: Key)
    requires Step(pre, op, post) && Inv(pre.rows, pre.now)
    requires op.Run? ==> !Loses(pre.rows, op.now, k.trust, k.user)
    requires Plus(arrived, Pending(pre.rows, k)) == Total(GRID1, xs, k)
    ensures Plus(Plus(arrived, if op.Run? then Arriving(pre.rows, op.now, k) else ZERO), Pending(post.rows, k)) ==
            Total(GRID1, xs + if op.Insert? then [op.sample] else [], k)
  {
    hide ArchiveStep;
    hide Inv;
    hide Arriving;
    hide Pending;
    hide Loses;
    hide Part;
    hide Plus;
    hide Total;
    PlusZero(arrived);
    match op
    case Insert(id, s) =>
      PendingInsert(pre.rows, id, s, k);
      PlusAssociative(arrived, Pending(pre.rows, k), Part(GRID1, s, k));
      TotalUnfolds(GRID1, xs + [s], k);
      assert (xs + [s])[..|xs|] == xs;
    case Run(now) =>
      PendingArrives(pre.rows, post.rows, pre.now, now, k);
      PlusAssociative(arrived, Arriving(pre.rows, now, k), Pending(post.rows, k));
      assert xs + [] == xs;
  }

  lemma NoTotal(k: Key)
    ensures Total(GRID1, [], k) == ZERO
  {
  }

  lemma NothingPending(k: Key)
    ensures Pending(map[], k) == ZERO
  {
    var none: Rows := map[];
    assert AtLevel(none, 0) == {};
  }

  /**
    As long as no archive run loses anything of the user, what has arrived in a slot and what is
    still pending for it are together the parts of all samples inserted.
   */
  lemma {:induction false} ArrivedOverRun(states: seq<State>, ops: seq<Op>, i: nat, k: Key)
    requires IsRun(states, ops) && i <= |ops| && NoneLost(states, ops, i, k.trust, k.user)
    ensures Plus(Arrived(states, ops, i, k), Pending(states[i].rows, k)) == Total(GRID1, Samples(ops[..i]), k)
  {
    hide Step;
    hide Inv;
    hide Arriving;
    hide Pending;
    hide Loses;
    hide Total;
    hide Plus;
    if i == 0 {
      NothingPending(k);
      NoTotal(k);
      PlusZero(ZERO);
    } else {
      ArrivedOverRun(states, ops, i - 1, k);
      assert Step(states[i - 1], ops[i - 1], states[i]);
      EveryRun(states, ops, i - 1);
      assert ops[..i][..i - 1] == ops[..i - 1];
      ArrivedOverStep(states[i - 1], ops[i - 1], states[i], Arrived(states, ops, i - 1, k), Samples(ops[..i - 1]), k);
    }
  }

  /** Nothing of a user waits to be archived. */
  ghost predicate AllArchived(rows: Rows, trust: nat, user: nat) {
    forall id :: id in rows && rows[id].archived == 0 ==> !For(rows[id].sample, trust, user)
  }

  lemma NonePending(rows: Rows, k: Key)
    requires AllArchived(rows, k.trust, k.user)
    ensures Pending(rows, k) == ZERO
  {
    hide Sum;
    forall id | id in AtLevel(rows, 0)
      ensures PartAtRow(rows, GRID1, k)(id) == ZERO
    {
      PartOutside(GRID1, rows[id].sample, k);
    }
    SumOfZeros(AtLevel(rows, 0), PartAtRow(rows, GRID1, k));
  }

  /** Once all of a user is archived without loss, every slot has received the parts of the user's samples. */
  lemma ArrivedIsTotal(states: seq<State>, ops: seq<Op>, k: Key)
    requires IsRun(states, ops) && NoneLost(states, ops, |ops|, k.trust, k.user)
    requires AllArchived(states[|ops|].rows, k.trust, k.user)
    ensures Arrived(states, ops, |ops|, k) == Total(GRID1, Samples(ops), k)
  {
    hide Pending;
    hide Arrived;
    hide Total;
    hide Plus;
    hide AllArchived;
    hide NoneLost;
    ArrivedOverRun(states, ops, |ops|, k);
    assert ops[..|ops|] == ops;
    NonePending(states[|ops|].rows, k);
    PlusZero(Arrived(states, ops, |ops|, k));
  }

  lemma {:induction false} UserFineSums(k: Key, n: nat, cut: int, f: Key -> Counts, h: Key -> Counts)
    requires forall j: Key :: j.trust == k.trust && j.user == k.user ==> f(j) == h(j)
    ensures FineSum(k, n, cut, f) == FineSum(k, n, cut, h)
  {
    if n == 0 {
    } else {
      UserFineSums(k, n - 1, cut, f, h);
    }
  }

  /**
    When the archive ran does not matter: two runs that inserted the same samples, in whatever order,
    and end at one time with all of a user archived and nothing of it lost, hold the same in every slot.
   */
  lemma TimingIrrelevant(states: seq<State>, ops: seq<Op>, others: seq<State>, acts: seq<Op>, k: Key)
    requires IsRun(states, ops) && NoneLost(states, ops, |ops|, k.trust, k.user)
    requires IsRun(others, acts) && NoneLost(others, acts, |acts|, k.trust, k.user)
    requires AllArchived(states[|ops|].rows, k.trust, k.user) && AllArchived(others[|acts|].rows, k.trust, k.user)
    requires multiset(Samples(ops)) == multiset(Samples(acts)) && states[|ops|].now == others[|acts|].now
    ensures Content(states[|ops|].rows, 1, k) == Content(others[|acts|].rows, 1, k)
    ensures OnGrid(GRID2, k.slot) && k.slot >= 0 ==>
              Content(states[|ops|].rows, 2, k) == Content(others[|acts|].rows, 2, k)
  {
    hide Step;
    hide NoneLost;
    hide AllArchived;
    hide Content;
    hide Arrived;
    hide OnGrid;
    var cut := states[|ops|].now - L2_DELAY;
    var f, h := ArrivedFrom(states, ops, |ops|), ArrivedFrom(others, acts, |acts|);
    ContentOverRun(states, ops, |ops|);
    ContentOverRun(others, acts, |acts|);
    forall j: Key | j.trust == k.trust && j.user == k.user
      ensures f(j) == h(j)
    {
      ArrivedIsTotal(states, ops, j);
      ArrivedIsTotal(others, acts, j);
      TotalOfPermutation(GRID1, Samples(ops), Samples(acts), j);
    }
    assert CoarseSettled(states[|ops|].rows, cut, f, k) && CoarseSettled(others[|acts|].rows, cut, h, k);
    UserFineSums(k, 6, cut, f, h);
  }
}
