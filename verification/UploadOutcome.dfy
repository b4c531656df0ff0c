/** What an upload leaves stored for each user once the archive has run. */
module UploadOutcome {
  import opened Counts
  import opened Regrid
  import opened RegridLaws
  import opened Totals
  import opened TotalLaws
  import opened Archive
  import opened ArchiveStore
  import opened Sharing
  import opened Controller
  import opened UploadLaws

  // ---------- from the inserts through the archive ----------

  lemma AddedStored(before: Rows, after: Rows, ids: seq<nat>, xs: seq<Sample>, trust: nat, user: nat)
    requires AddedRows(before, after, ids, xs, 0)
    ensures Stored(after, trust, user) == Plus(Stored(before, trust, user), UserTotal(xs, trust, user))
  {
    hide UserTotal;
    hide Plus;
    hide Sum;
    StoredSplit(after, before.Keys, ids, trust, user);
    SumEqual(before.Keys, RowAt(before, trust, user), RowAt(after, trust, user));
    assert SamplesAt(after, ids) == xs;
  }

  predicate LosesOne(s: Sample, now: int, trust: nat, user: nat) {
    For(s, trust, user) && s.end >= 0 && s.start <= now - L1_DELAY && !Safe(s, now - L1_DELAY)
  }

  /** A new record of the user that the archive takes and loses bytes of. */
  ghost predicate LosesNew(xs: seq<Sample>, now: int, trust: nat, user: nat) {
    exists i :: 0 <= i < |xs| && LosesOne(xs[i], now, trust, user)
  }

  lemma AddedLoses(before: Rows, after: Rows, ids: seq<nat>, xs: seq<Sample>, now: int, trust: nat, user: nat)
    requires AddedRows(before, after, ids, xs, 0)
    ensures Loses(after, now, trust, user) <==> Loses(before, now, trust, user) || LosesNew(xs, now, trust, user)
  {
    hide Safe;
    if Loses(after, now, trust, user) {
      var id :| id in Taken(after, now - L1_DELAY, 1) && For(after[id].sample, trust, user)
                && !Safe(after[id].sample, now - L1_DELAY);
      if id in before {
        assert id in Taken(before, now - L1_DELAY, 1);
      } else {
        assert id in Elements(ids);
        var i :| 0 <= i < |ids| && ids[i] == id;
        assert LosesOne(xs[i], now, trust, user);
      }
    }
    if Loses(before, now, trust, user) {
      var id :| id in Taken(before, now - L1_DELAY, 1) && For(before[id].sample, trust, user)
                && !Safe(before[id].sample, now - L1_DELAY);
      assert id in Taken(after, now - L1_DELAY, 1);
    }
    if LosesNew(xs, now, trust, user) {
      var i :| 0 <= i < |xs| && LosesOne(xs[i], now, trust, user);
      assert ids[i] in Taken(after, now - L1_DELAY, 1);
    }
  }

  /**
    After an upload and the archive run that ends it, a user has at a trust level at most what was
    stored before and what the upload brings, field by field, less what the archive lost; and exactly
    that unless it took a record of the user, old or new, that reaches past its cut.
   */
  lemma UploadLeaves(before: Rows, mid: Rows, after: Rows, users: seq<User>, lists: seq<seq<Sample>>, ds: seq<Sample>,
                     level: nat, last: int, now: int, trust: nat, user: nat)
    requires Inv(before, last) && last <= now && ProperUsers(users) && Proper(ds)
    requires PutFrom(before, mid, users, ds, level, lists) && ArchiveStep(mid, after, now)
    ensures var added := PutSamples(users, lists, ds, level);
            var due := Plus(Stored(before, trust, user), UserTotal(added, trust, user));
            && due == Plus(Stored(after, trust, user), LostAt(mid, now, trust, user))
            && AtMost(Stored(after, trust, user), due)
            && (Stored(after, trust, user) == due <==>
                !Loses(before, now, trust, user) && !LosesNew(added, now, trust, user))
  {
    hide ArchiveStep;
    hide AddedRows;
    hide Stored;
    hide UserTotal;
    hide LostAt;
    hide Loses;
    hide LosesNew;
    hide Plus;
    hide AtMost;
    var ids :| AddedRows(before, mid, ids, PutSamples(users, lists, ds, level), 0);
    PutKeepsInv(before, mid, users, lists, ds, level, last, ids);
    Later(mid, last, now);
    AddedStored(before, mid, ids, PutSamples(users, lists, ds, level), trust, user);
    AddedLoses(before, mid, ids, PutSamples(users, lists, ds, level), now, trust, user);
    ArchiveConserves(mid, after, now, trust, user);
    ArchiveLedger(mid, after, now, trust, user);
  }

  // ---------- what the upload brings each user ----------

  lemma {:induction false} UserTotalOfConcat(xs: seq<Sample>, ys: seq<Sample>, trust: nat, user: nat)
    ensures UserTotal(xs + ys, trust, user) == Plus(UserTotal(xs, trust, user), UserTotal(ys, trust, user))
  {
    hide Plus;
    if ys == [] {
      assert xs + ys == xs;
      PlusZero(UserTotal(xs, trust, user));
    } else {
      var n := |ys| - 1;
      var last := if For(ys[n], trust, user) then ys[n].counts else ZERO;
      UserTotalOfConcat(xs, ys[..n], trust, user);
      assert (xs + ys)[..|xs + ys| - 1] == xs + ys[..n];
      assert UserTotal(xs + ys, trust, user) == Plus(UserTotal(xs + ys[..n], trust, user), last);
      PlusAssociative(UserTotal(xs, trust, user), UserTotal(ys[..n], trust, user), last);
    }
  }

  lemma {:induction false} OneUserSamples(users: seq<User>, lists: seq<seq<Sample>>, ds: seq<Sample>, level: nat)
    requires |lists| == |users| == 1
    ensures forall s :: s in PutSamples(users, lists, ds, level) ==> For(s, level, users[0].id)
  {
    if ds == [] {
    } else {
      OneUserSamples(users, lists, ds[..|ds| - 1], level);
    }
  }

  lemma {:induction false} AllFor(xs: seq<Sample>, trust: nat, user: nat)
    requires forall s :: s in xs ==> For(s, trust, user)
    ensures UserTotal(xs, trust, user) == AllOf(xs)
  {
    hide Plus;
    if xs == [] {
    } else {
      AllOfUnfolds(xs);
      AllFor(xs[..|xs| - 1], trust, user);
    }
  }

  lemma {:induction false} NoneFor(xs: seq<Sample>, trust: nat, user: nat)
    requires forall j :: 0 <= j < |xs| ==> !For(xs[j], trust, user)
    ensures UserTotal(xs, trust, user) == ZERO
  {
    hide Plus;
    if xs == [] {
    } else {
      NoneFor(xs[..|xs| - 1], trust, user);
      PlusZero(ZERO);
    }
  }

  /** A single user is brought exactly the upload. */
  lemma BroughtToOne(users: seq<User>, lists: seq<seq<Sample>>, ds: seq<Sample>, level: nat, trust: nat, user: nat)
    requires |lists| == |users| == 1
    ensures UserTotal(PutSamples(users, lists, ds, level), trust, user) ==
            if trust == level && user == users[0].id then AllOf(ds) else ZERO
  {
    hide PutSamples;
    hide UserTotal;
    hide AllOf;
    var xs := PutSamples(users, lists, ds, level);
    OneUserSamples(users, lists, ds, level);
    OneUserKeepsBytes(users, lists, ds, level);
    if trust == level && user == users[0].id {
      AllFor(xs, trust, user);
    } else {
      forall j | 0 <= j < |xs|
        ensures !For(xs[j], trust, user)
      {
        assert xs[j] in xs;
      }
      NoneFor(xs, trust, user);
    }
  }

  /** The exact part of a field of a record that is due to the user named i-th; nothing where uploads vanish. */
  ghost function DuePart(users: seq<User>, lists: seq<seq<Sample>>, d: Sample, i: nat, f: Field): real
    requires i < |users| == |lists|
  {
    var useds := Useds(lists, Window(d.start, d.end));
    var q := FractionOf(BasisFor(users, useds, i), f);
    if (f == Up && UploadsVanish(users, useds)) || q.whole == 0.0 then 0.0
    else ExactPart(Pick(d.counts, f), q.part, q.whole)
  }

  /** How often a user is among the first n named. */
  function Naming(users: seq<User>, user: nat, n: nat): nat
    requires n <= |users|
  {
    if n == 0 then 0 else Naming(users, user, n - 1) + if users[n - 1].id == user then 1 else 0
  }

  /** What is due to a user of a record for all the times that it is among the first n named. */
  ghost function DueOf(users: seq<User>, lists: seq<seq<Sample>>, d: Sample, user: nat, f: Field, n: nat): real
    requires n <= |users| == |lists|
  {
    if n == 0 then 0.0
    else DueOf(users, lists, d, user, f, n - 1) +
         if users[n - 1].id == user then DuePart(users, lists, d, n - 1, f) else 0.0
  }

  ghost function Due(users: seq<User>, lists: seq<seq<Sample>>, ds: seq<Sample>, user: nat, f: Field): real
    requires |users| == |lists|
  {
    if ds == [] then 0.0
    else Due(users, lists, ds[..|ds| - 1], user, f) + DueOf(users, lists, ds[|ds| - 1], user, f, |users|)
  }

  /** Each share is the due part to half a byte. */
  lemma ShareIsDue(users: seq<User>, lists: seq<seq<Sample>>, d: Sample, level: nat, i: nat, f: Field)
    requires i < |users| == |lists| && ProperUsers(users)
    requires forall j :: 0 <= j < |lists| ==> Proper(lists[j])
    ensures WithinHalf(Pick(SplitSamples(users, lists, d, level)[i].counts, f), DuePart(users, lists, d, i, f))
  {
    hide UploadsVanish;
    hide AllShares;
    hide Proper;
    hide ExactPart;
    hide FractionOf;
    var useds := Useds(lists, Window(d.start, d.end));
    UsedNonNegative(lists, Window(d.start, d.end));
    if f == Up && UploadsVanish(users, useds) {
      VanishedShare(d.counts, users, useds, i);
    } else {
      EachShare(d.counts, users, useds, i, f);
    }
  }

  lemma NothingPicked(f: Field)
    ensures Pick(ZERO, f) == 0
  {
  }

  lemma {:induction false} BroughtByOne(users: seq<User>, lists: seq<seq<Sample>>, d: Sample, level: nat, user: nat,
                                        f: Field, n: nat)
    requires n <= |users| == |lists| && ProperUsers(users)
    requires forall j :: 0 <= j < |lists| ==> Proper(lists[j])
    ensures WithinHalves(Pick(UserTotal(SplitSamples(users, lists, d, level)[..n], level, user), f),
                         DueOf(users, lists, d, user, f, n), Naming(users, user, n))
  {
    hide DuePart;
    hide Proper;
    hide ProperUsers;
    hide Pick;
    hide Plus;
    hide AllShares;
    var xs := SplitSamples(users, lists, d, level);
    if n == 0 {
      NothingPicked(f);
    } else {
      var s := xs[n - 1];
      BroughtByOne(users, lists, d, level, user, f, n - 1);
      ShareIsDue(users, lists, d, level, n - 1, f);
      assert xs[..n][..n - 1] == xs[..n - 1];
      PickPlus(UserTotal(xs[..n - 1], level, user), if For(s, level, user) then s.counts else ZERO, f);
      NothingPicked(f);
    }
  }

  lemma TimesMore(m: nat, n: nat)
    ensures m * n + m == m * (n + 1)
  {
  }

  /**
    Each of several users is brought, in every field, the due part of the upload to half a byte for
    every uploaded record and every time that the user is named.
   */
  lemma {:induction false} BroughtToEach(users: seq<User>, lists: seq<seq<Sample>>, ds: seq<Sample>, level: nat,
                                         user: nat, f: Field)
    requires |users| > 1 && |users| == |lists| && ProperUsers(users)
    requires forall j :: 0 <= j < |lists| ==> Proper(lists[j])
    ensures WithinHalves(Pick(UserTotal(PutSamples(users, lists, ds, level), level, user), f),
                         Due(users, lists, ds, user, f), Naming(users, user, |users|) * |ds|)
  {
    hide DueOf;
    hide Naming;
    hide SplitSamples;
    hide Proper;
    hide ProperUsers;
    hide Plus;
    hide UserTotal;
    hide Pick;
    if ds == [] {
      NoneFor([], level, user);
      NothingPicked(f);
    } else {
      var n := |ds| - 1;
      BroughtToEach(users, lists, ds[..n], level, user, f);
      BroughtByOne(users, lists, ds[n], level, user, f, |users|);
      var kept, split := PutSamples(users, lists, ds[..n], level), SplitSamples(users, lists, ds[n], level);
      assert split[..|users|] == split;
      assert PutSamples(users, lists, ds, level) == kept + split;
      UserTotalOfConcat(kept, split, level, user);
      PickPlus(UserTotal(kept, level, user), UserTotal(split, level, user), f);
      TimesMore(Naming(users, user, |users|), n);
    }
  }
}
