/** What an upload keeps: the invariant of the store, and its bytes but for rounding. */
module UploadLaws {
  import opened Counts
  import opened Regrid
  import opened Options
  import opened Totals
  import opened TotalLaws
  import opened Archive
  import opened ArchiveStore
  import opened Sharing
  import opened Controller

  /** Counts that are not negative, at times that are not negative. */
  ghost predicate Proper(xs: seq<Sample>) {
    forall i :: 0 <= i < |xs| ==> NonNegative(xs[i].counts) && xs[i].start >= 0 && xs[i].end >= 0
  }

  ghost predicate ProperUsers(users: seq<User>) {
    users != [] && forall i :: 0 <= i < |users| ==> users[i].downQuota >= 0.0 && users[i].upQuota >= 0.0
  }

  // ---------- shares are not negative ----------

  lemma RoundDivNonNegative(n: int, d: int)
    requires n >= 0 && d > 0
    ensures RoundDiv(n, d) >= 0
  {
  }

  lemma WeightedNonNegative(s: Sample, w: Window, x: int)
    requires x >= 0
    ensures Weighted(s, w, x) >= 0
  {
    hide RoundDiv;
    if CutLeft(s, w) {
      RoundDivNonNegative(x * (s.end - w.start), s.end - s.start);
    } else if CutRight(s, w) {
      RoundDivNonNegative(x * (w.end - s.start), s.end - s.start);
    }
  }

  lemma {:induction false} TotalOfNonNegative(xs: seq<Sample>, w: Window, trust: nat)
    requires Proper(xs)
    ensures NonNegative(TotalOf(xs, w, trust))
  {
    hide Weighted;
    if xs == [] {
    } else {
      var n := |xs| - 1;
      var c := xs[n].counts;
      TotalOfNonNegative(xs[..n], w, trust);
      WeightedNonNegative(xs[n], w, c.down);
      WeightedNonNegative(xs[n], w, c.up);
      WeightedNonNegative(xs[n], w, c.uDown);
      WeightedNonNegative(xs[n], w, c.uUp);
    }
  }

  lemma UsedNonNegative(lists: seq<seq<Sample>>, w: Window)
    requires forall i :: 0 <= i < |lists| ==> Proper(lists[i])
    ensures forall i :: 0 <= i < |lists| ==> NonNegative(Useds(lists, w)[i])
  {
    hide Proper;
    hide LowestTrust;
    hide TotalOf;
    forall i | 0 <= i < |lists|
      ensures NonNegative(Useds(lists, w)[i])
    {
      var lowest := LowestTrust(lists[i], w);
      if lowest.Some? {
        TotalOfNonNegative(lists[i], w, lowest.value);
      }
    }
  }

  lemma RoundNonNegative(x: real)
    requires x >= 0.0
    ensures Round(x) >= 0
  {
  }

  lemma ProportionalNonNegative(x: int, whole: real, part: real)
    requires x >= 0 && whole >= 0.0 && part >= 0.0
    ensures Proportional(x, whole, part) >= 0
  {
    hide Round;
    if part > 0.0 && whole > 0.0 {
      var p := whole / part;
      assert p > 0.0;
      RoundNonNegative(x as real / p);
    }
  }

  lemma SharesNotNegative(c: Counts, users: seq<User>, useds: seq<Counts>, i: nat)
    requires Sensible(users, useds) && NonNegative(c) && i < |users|
    ensures NonNegative(AllShares(c, users, useds)[i])
  {
    hide Round;
    hide Proportional;
    hide RealSum;
    hide CountsSum;
    var b := BasisFor(users, useds, i);
    SumSign(DownQuotas(users));
    SumSign(UpQuotas(users));
    CountsSumNonNegative(useds);
    var n := |users| as real;
    RoundNonNegative(c.down as real / n);
    RoundNonNegative(c.up as real / n);
    RoundNonNegative(c.uDown as real / n);
    RoundNonNegative(c.uUp as real / n);
    ProportionalNonNegative(c.down, b.limitDown, b.user.downQuota);
    ProportionalNonNegative(c.up, b.limitUp, b.user.upQuota);
    ProportionalNonNegative(c.down, b.grand.down as real, b.used.down as real);
    ProportionalNonNegative(c.up, b.grand.up as real, b.used.up as real);
    ProportionalNonNegative(c.uDown, b.grand.uDown as real, b.used.uDown as real);
    ProportionalNonNegative(c.uUp, b.grand.uUp as real, b.used.uUp as real);
  }

  lemma {:induction false} PutIsProper(users: seq<User>, lists: seq<seq<Sample>>, ds: seq<Sample>, trust: nat)
    requires ProperUsers(users) && |lists| == |users| && Proper(ds)
    requires |users| > 1 ==> forall i :: 0 <= i < |lists| ==> Proper(lists[i])
    ensures Proper(PutSamples(users, lists, ds, trust))
  {
    hide AllShares;
    hide NonNegative;
    if ds == [] {
    } else {
      var n := |ds| - 1;
      PutIsProper(users, lists, ds[..n], trust);
      if |users| > 1 {
        var useds := Useds(lists, Window(ds[n].start, ds[n].end));
        UsedNonNegative(lists, Window(ds[n].start, ds[n].end));
        forall i | 0 <= i < |users|
          ensures NonNegative(AllShares(ds[n].counts, users, useds)[i])
        {
          SharesNotNegative(ds[n].counts, users, useds, i);
        }
      }
    }
  }

  // ---------- the invariant ----------

  lemma AddedKeepsInv(before: Rows, after: Rows, ids: seq<nat>, xs: seq<Sample>, now: int)
    requires Inv(before, now) && AddedRows(before, after, ids, xs, 0) && Proper(xs)
    ensures Inv(after, now)
  {
    hide Aligned;
    forall id | id in after
      ensures RowOk(after[id], now)
      ensures id !in before ==> after[id].archived == 0
    {
      if id in before {
        assert RowOk(before[id], now);
      } else {
        assert id in Elements(ids);
        var i :| 0 <= i < |ids| && ids[i] == id;
      }
    }
  }

  lemma FetchedIsProper(rows: Rows, now: int, user: nat, first: int, last: int, xs: seq<Sample>)
    requires Inv(rows, now) && HasRecords(rows, user, first, last, xs)
    ensures Proper(xs)
  {
    hide Aligned;
    var ids: seq<nat> :| && Distinct(ids) && Elements(ids) == OfUserBetween(rows, user, first, last)
      && xs == SamplesAt(rows, ids);
    forall i | 0 <= i < |xs|
      ensures RowOk(rows[ids[i]], now)
    {
      assert ids[i] in Elements(ids);
    }
  }

  /** Storing an upload keeps the invariant. */
  lemma PutKeepsInv(before: Rows, mid: Rows, users: seq<User>, lists: seq<seq<Sample>>, ds: seq<Sample>, trust: nat,
                    last: int, ids: seq<nat>)
    requires Inv(before, last) && ProperUsers(users) && Proper(ds) && PutFrom(before, mid, users, ds, trust, lists)
    requires AddedRows(before, mid, ids, PutSamples(users, lists, ds, trust), 0)
    ensures Inv(mid, last)
  {
    hide AddedRows;
    hide Inv;
    hide HasRecords;
    hide Proper;
    if |users| > 1 {
      forall i | 0 <= i < |lists|
        ensures Proper(lists[i])
      {
        FetchedIsProper(before, last, users[i].id, Earliest(ds), Latest(ds), lists[i]);
      }
    }
    PutIsProper(users, lists, ds, trust);
    AddedKeepsInv(before, mid, ids, PutSamples(users, lists, ds, trust), last);
  }

  /**
    Every upload leaves the archive settled: at whatever level the store was, afterwards archived
    records lie alone in their slots and nothing old enough is below its level.
   */
  lemma UploadSettles(before: Rows, after: Rows, users: seq<User>, ds: seq<Sample>, trust: nat, last: int, now: int)
    requires Inv(before, last) && last <= now && ProperUsers(users) && Proper(ds)
    requires Uploaded(before, after, users, ds, trust, now)
    ensures Inv(after, now)
    ensures Reached(after, now - L1_DELAY, 1) && Reached(after, now - L2_DELAY, 2)
  {
    hide ArchiveStep;
    hide AddedRows;
    hide Inv;
    hide HasRecords;
    hide Proper;
    hide Reached;
    var mid :| Put(before, mid, users, ds, trust) && ArchiveStep(mid, after, now);
    var lists :| PutFrom(before, mid, users, ds, trust, lists);
    var ids :| AddedRows(before, mid, ids, PutSamples(users, lists, ds, trust), 0);
    PutKeepsInv(before, mid, users, lists, ds, trust, last, ids);
    Later(mid, last, now);
    ArchiveSettles(mid, after, now);
  }

  // ---------- bytes ----------

  function BytesAt(rows: Rows): nat -> Counts {
    (id: nat) => if id in rows then rows[id].sample.counts else ZERO
  }

  /** All bytes of the store. */
  ghost function Held(rows: Rows): Counts {
    Sum(rows.Keys, BytesAt(rows))
  }

  function CountsIn(xs: seq<Sample>): (cs: seq<Counts>)
    ensures |cs| == |xs| && forall i :: 0 <= i < |xs| ==> cs[i] == xs[i].counts
  {
    seq(|xs|, i requires 0 <= i < |xs| => xs[i].counts)
  }

  /** All bytes of some samples. */
  function AllOf(xs: seq<Sample>): Counts {
    CountsSum(CountsIn(xs))
  }

  lemma AllOfConcat(xs: seq<Sample>, ys: seq<Sample>)
    ensures AllOf(xs + ys) == Plus(AllOf(xs), AllOf(ys))
  {
    hide CountsSum;
    assert CountsIn(xs + ys) == CountsIn(xs) + CountsIn(ys);
    CountsSumOfConcat(CountsIn(xs), CountsIn(ys));
  }

  lemma AllOfUnfolds(xs: seq<Sample>)
    requires xs != []
    ensures AllOf(xs) == Plus(AllOf(xs[..|xs| - 1]), xs[|xs| - 1].counts)
  {
    hide Plus;
    assert CountsIn(xs)[..|xs| - 1] == CountsIn(xs[..|xs| - 1]);
  }

  lemma {:induction false} BytesOfNew(after: Rows, ids: seq<nat>, xs: seq<Sample>)
    requires |ids| == |xs| && forall i :: 0 <= i < |ids| ==> ids[i] in after && after[ids[i]].sample == xs[i]
    ensures SeqSum(ids, BytesAt(after)) == AllOf(xs)
  {
    hide Plus;
    if ids == [] {
    } else {
      AllOfUnfolds(xs);
      BytesOfNew(after, ids[..|ids| - 1], xs[..|xs| - 1]);
    }
  }

  lemma AddedBytes(before: Rows, after: Rows, ids: seq<nat>, xs: seq<Sample>)
    requires AddedRows(before, after, ids, xs, 0)
    ensures Held(after) == Plus(Held(before), AllOf(xs))
  {
    SumUnion(before.Keys, Elements(ids), BytesAt(after));
    SumEqual(before.Keys, BytesAt(before), BytesAt(after));
    SeqSumIsSum(ids, BytesAt(after));
    BytesOfNew(after, ids, xs);
  }

  /** A field of an uploaded record, or nothing if its uploads vanish. */
  ghost function Survives(users: seq<User>, lists: seq<seq<Sample>>, d: Sample, f: Field): int {
    if f == Up && UploadsVanish(users, Useds(lists, Window(d.start, d.end))) then 0 else Pick(d.counts, f)
  }

  ghost function Surviving(users: seq<User>, lists: seq<seq<Sample>>, ds: seq<Sample>, f: Field): int {
    if ds == [] then 0
    else Surviving(users, lists, ds[..|ds| - 1], f) + Survives(users, lists, ds[|ds| - 1], f)
  }

  lemma OneSplit(users: seq<User>, lists: seq<seq<Sample>>, d: Sample, trust: nat, f: Field)
    requires |lists| == |users| && ProperUsers(users)
    requires forall i :: 0 <= i < |lists| ==> Proper(lists[i])
    ensures WithinHalfEach(Pick(AllOf(SplitSamples(users, lists, d, trust)), f), Survives(users, lists, d, f), |users|)
  {
    hide UploadsVanish;
    hide AllShares;
    hide Proper;
    var useds := Useds(lists, Window(d.start, d.end));
    UsedNonNegative(lists, Window(d.start, d.end));
    SplitBounds(d.counts, users, useds, f);
    var shares := AllShares(d.counts, users, useds);
    assert CountsIn(SplitSamples(users, lists, d, trust)) == shares;
    PickSum(shares, f);
  }

  lemma NoBytes(f: Field)
    ensures Pick(AllOf([]), f) == 0
  {
  }

  /** What several users are stored sums to within half a byte per user and record of what survives. */
  lemma {:induction false} SplitKeepsBytes(users: seq<User>, lists: seq<seq<Sample>>, ds: seq<Sample>, trust: nat,
                                           f: Field)
    requires |users| > 1 && |lists| == |users| && ProperUsers(users)
    requires forall i :: 0 <= i < |lists| ==> Proper(lists[i])
    ensures WithinHalfEach(Pick(AllOf(PutSamples(users, lists, ds, trust)), f), Surviving(users, lists, ds, f),
                           |users| * |ds|)
  {
    hide Survives;
    hide SplitSamples;
    hide Proper;
    hide ProperUsers;
    hide Plus;
    hide Pick;
    if ds == [] {
      NoBytes(f);
    } else {
      var n := |ds| - 1;
      SplitKeepsBytes(users, lists, ds[..n], trust, f);
      OneSplit(users, lists, ds[n], trust, f);
      var kept, split := PutSamples(users, lists, ds[..n], trust), SplitSamples(users, lists, ds[n], trust);
      assert PutSamples(users, lists, ds, trust) == kept + split;
      AllOfConcat(kept, split);
      PickPlus(AllOf(kept), AllOf(split), f);
      assert |users| * |ds| == |users| * n + |users|;
    }
  }

  lemma {:induction false} OneUserKeepsBytes(users: seq<User>, lists: seq<seq<Sample>>, ds: seq<Sample>, trust: nat)
    requires |lists| == |users| == 1
    ensures AllOf(PutSamples(users, lists, ds, trust)) == AllOf(ds)
  {
    hide AllOf;
    hide Plus;
    if ds == [] {
    } else {
      AllOfUnfolds(ds);
      AllOfUnfolds(PutSamples(users, lists, ds, trust));
      OneUserKeepsBytes(users, lists, ds[..|ds| - 1], trust);
    }
  }

  /**
    What an upload adds to the bytes of the store: exactly its own for a single user; for several,
    in every field what survives of it, to half a byte per user and record.
   */
  lemma {:induction false} UploadBytes(before: Rows, mid: Rows, users: seq<User>, ds: seq<Sample>, trust: nat,
                                       last: int)
    requires Inv(before, last) && ProperUsers(users) && Put(before, mid, users, ds, trust)
    ensures |users| == 1 ==> Held(mid) == Plus(Held(before), AllOf(ds))
    ensures |users| > 1 ==>
              exists lists :: PutFrom(before, mid, users, ds, trust, lists) &&
                forall f :: WithinHalfEach(Pick(Held(mid), f) - Pick(Held(before), f),
                                           Surviving(users, lists, ds, f), |users| * |ds|)
  {
    hide AddedRows;
    hide Inv;
    hide HasRecords;
    hide Proper;
    hide Held;
    hide Surviving;
    hide AllOf;
    hide PutSamples;
    var lists :| PutFrom(before, mid, users, ds, trust, lists);
    var added := PutSamples(users, lists, ds, trust);
    var ids :| AddedRows(before, mid, ids, added, 0);
    AddedBytes(before, mid, ids, added);
    if |users| == 1 {
      OneUserKeepsBytes(users, lists, ds, trust);
    } else {
      forall i | 0 <= i < |lists|
        ensures Proper(lists[i])
      {
        FetchedIsProper(before, last, users[i].id, Earliest(ds), Latest(ds), lists[i]);
      }
      forall f: Field
        ensures WithinHalfEach(Pick(Held(mid), f) - Pick(Held(before), f),
                               Surviving(users, lists, ds, f), |users| * |ds|)
      {
        SplitKeepsBytes(users, lists, ds, trust, f);
      }
    }
  }

  // ---------- an upload that vanishes ----------

  function ExampleUsers(): seq<User> {
    [User(0, 0.0, 1.0), User(1, 0.0, 1.0)]
  }

  function ExampleLists(): seq<seq<Sample>> {
    [[Sample(0, 0, 0, 10, Counts(100, 0, 0, 0))], []]
  }

  lemma UsedAlone(s: Sample, w: Window)
    requires Inside(s, w)
    ensures UsedIn([s], w) == s.counts
  {
    hide Plus;
    assert [s][..0] == [];
    assert LowestTrust([], w) == None;
    assert LowestTrust([s], w) == Some(s.trust);
    assert TotalOf([s], w, s.trust) == Plus(TotalOf([], w, s.trust), WeightedCounts(s, w));
    PlusZero(WeightedCounts(s, w));
  }

  lemma UnusedIsZero(w: Window)
    ensures UsedIn([], w) == ZERO
  {
  }

  lemma ExampleUsed()
    ensures Useds(ExampleLists(), Window(0, 10)) == [Counts(100, 0, 0, 0), ZERO]
  {
    hide UsedIn;
    var lists, w := ExampleLists(), Window(0, 10);
    UsedAlone(lists[0][0], w);
    UnusedIsZero(w);
    assert lists[0] == [lists[0][0]];
  }

  lemma SumOfPair(a: Counts, b: Counts)
    ensures CountsSum([a, b]) == Plus(a, b)
  {
    hide Plus;
    assert [a, b][..1] == [a] && [a][..0] == [];
    assert CountsSum([]) == ZERO;
    PlusZero(a);
  }

  lemma ExampleSums()
    ensures CountsSum([Counts(100, 0, 0, 0), ZERO]) == Counts(100, 0, 0, 0)
    ensures RealSum(UpQuotas(ExampleUsers())) == 2.0
  {
    hide Plus;
    SumOfPair(Counts(100, 0, 0, 0), ZERO);
    PlusZero(Counts(100, 0, 0, 0));
    assert UpQuotas(ExampleUsers()) == [1.0, 1.0];
    assert [1.0, 1.0][..1] == [1.0] && [1.0][..0] == [];
  }

  /** Two users with upload quotas, one of whom has only downloaded: an upload of 100 bytes is stored as none. */
  lemma VanishingExample()
    ensures var d := Sample(0, 0, 0, 10, Counts(0, 100, 0, 0));
            var useds := Useds(ExampleLists(), Window(0, 10));
            && Sensible(ExampleUsers(), useds) && UploadsVanish(ExampleUsers(), useds)
            && AllOf(SplitSamples(ExampleUsers(), ExampleLists(), d, 0)).up == 0
  {
    hide Useds;
    hide UsedIn;
    hide AllShares;
    hide CountsSum;
    hide RealSum;
    var users, d := ExampleUsers(), Sample(0, 0, 0, 10, Counts(0, 100, 0, 0));
    var useds := Useds(ExampleLists(), Window(0, 10));
    ExampleUsed();
    ExampleSums();
    SplitBounds(d.counts, users, useds, Up);
    var shares := AllShares(d.counts, users, useds);
    assert CountsIn(SplitSamples(users, ExampleLists(), d, 0)) == shares;
    PickSum(shares, Up);
  }
}
