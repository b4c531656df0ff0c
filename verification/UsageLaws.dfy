/** What putData takes a user to have used, told from all the records of the user in the store. */
module UsageLaws {
  import opened Counts
  import opened Regrid
  import opened Totals
  import opened Archive
  import opened Sharing
  import opened Controller

  /** All records of a user, in some order. */
  ghost predicate ListsAll(rows: Rows, user: nat, ys: seq<Sample>) {
    exists ids: seq<nat> ::
      && Distinct(ids) && Elements(ids) == (set id | id in rows && rows[id].sample.user == user)
      && ys == SamplesAt(rows, ids)
  }

  function WeightAt(rows: Rows, w: Window, trust: nat): nat -> Counts {
    (id: nat) => if id in rows && rows[id].sample.trust == trust then WeightedCounts(rows[id].sample, w) else ZERO
  }

  lemma {:induction false} TotalOfRows(rows: Rows, ids: seq<nat>, w: Window, trust: nat)
    requires Elements(ids) <= rows.Keys
    ensures TotalOf(SamplesAt(rows, ids), w, trust) == SeqSum(ids, WeightAt(rows, w, trust))
  {
    hide WeightedCounts;
    hide Plus;
    if ids == [] {
    } else {
      var n := |ids| - 1;
      assert ids[n] in Elements(ids);
      assert Elements(ids[..n]) <= Elements(ids) by {
        assert forall i :: 0 <= i < n ==> ids[..n][i] == ids[i];
      }
      TotalOfRows(rows, ids[..n], w, trust);
      assert SamplesAt(rows, ids)[..n] == SamplesAt(rows, ids[..n]);
    }
  }

  lemma CountedRows(rows: Rows, ids: seq<nat>, w: Window, trust: nat)
    requires Elements(ids) <= rows.Keys
    ensures AnyCounted(SamplesAt(rows, ids), w, trust) <==>
            exists id :: id in Elements(ids) && rows[id].sample.trust == trust && Counted(rows[id].sample, w)
  {
    hide Counted;
    var xs := SamplesAt(rows, ids);
    if AnyCounted(xs, w, trust) {
      var i :| 0 <= i < |xs| && xs[i].trust == trust && Counted(xs[i], w);
      assert ids[i] in Elements(ids);
    }
    if exists id :: id in Elements(ids) && rows[id].sample.trust == trust && Counted(rows[id].sample, w) {
      var id :| id in Elements(ids) && rows[id].sample.trust == trust && Counted(rows[id].sample, w);
      var i :| 0 <= i < |ids| && ids[i] == id;
      assert Counted(xs[i], w);
    }
  }

  /** A record that runs forward and that a span does not reach counts for nothing in a window within the span. */
  lemma BeyondSpan(s: Sample, w: Window, first: int, last: int)
    requires s.start <= s.end && first <= w.start && w.end <= last && (s.end < first || s.start > last)
    ensures !Counted(s, w) && WeightedCounts(s, w) == ZERO
  {
  }

  lemma SameLowest(xs: seq<Sample>, ys: seq<Sample>, w: Window)
    requires forall t :: AnyCounted(xs, w, t) <==> AnyCounted(ys, w, t)
    ensures LowestTrust(xs, w) == LowestTrust(ys, w)
  {
    hide AnyCounted;
    LowestTrustIs(xs, w);
    LowestTrustIs(ys, w);
    hide LowestTrust;
    var a, b := LowestTrust(xs, w), LowestTrust(ys, w);
    assert a.Some? ==> AnyCounted(ys, w, a.value);
    assert b.Some? ==> AnyCounted(xs, w, b.value);
  }

  /** Two listings of records of which the one leaves out only records that count for nothing show the same use. */
  lemma SameUse(rows: Rows, some: seq<nat>, all: seq<nat>, w: Window)
    requires Distinct(some) && Distinct(all) && Elements(some) <= Elements(all) <= rows.Keys
    requires forall id :: id in Elements(all) - Elements(some) ==>
               !Counted(rows[id].sample, w) && WeightedCounts(rows[id].sample, w) == ZERO
    ensures UsedIn(SamplesAt(rows, some), w) == UsedIn(SamplesAt(rows, all), w)
  {
    hide Counted;
    hide WeightedCounts;
    hide AnyCounted;
    hide TotalOf;
    hide Sum;
    hide LowestTrust;
    var xs, ys := SamplesAt(rows, some), SamplesAt(rows, all);
    forall t: nat
      ensures TotalOf(xs, w, t) == TotalOf(ys, w, t)
      ensures AnyCounted(xs, w, t) <==> AnyCounted(ys, w, t)
    {
      TotalOfRows(rows, some, w, t);
      TotalOfRows(rows, all, w, t);
      SeqSumIsSum(some, WeightAt(rows, w, t));
      SeqSumIsSum(all, WeightAt(rows, w, t));
      SumPart(Elements(all), Elements(some), WeightAt(rows, w, t));
      CountedRows(rows, some, w, t);
      CountedRows(rows, all, w, t);
    }
    SameLowest(xs, ys, w);
  }

  /** The earliest start and the latest end enclose every record of an upload, and are those of some. */
  lemma {:induction false} SpanEncloses(ds: seq<Sample>)
    requires ds != []
    ensures forall i :: 0 <= i < |ds| ==> Earliest(ds) <= ds[i].start && ds[i].end <= Latest(ds)
    ensures exists i :: 0 <= i < |ds| && ds[i].start == Earliest(ds)
    ensures exists i :: 0 <= i < |ds| && ds[i].end == Latest(ds)
  {
    var n := |ds| - 1;
    if n == 0 {
    } else {
      SpanEncloses(ds[..n]);
      var a :| 0 <= a < n && ds[..n][a].start == Earliest(ds[..n]);
      var b :| 0 <= b < n && ds[..n][b].end == Latest(ds[..n]);
      assert ds[a].start == Earliest(ds[..n]) && ds[b].end == Latest(ds[..n]);
      assert ds[n].start == Earliest(ds) || ds[a].start == Earliest(ds);
      assert ds[n].end == Latest(ds) || ds[b].end == Latest(ds);
    }
  }

  /** What a span fetches of a user shows the use in a window within it as all records of the user do. */
  lemma FetchedUse(rows: Rows, user: nat, first: int, last: int, xs: seq<Sample>, ys: seq<Sample>, w: Window)
    requires HasRecords(rows, user, first, last, xs) && ListsAll(rows, user, ys)
    requires forall id :: id in rows ==> rows[id].sample.start <= rows[id].sample.end
    requires first <= w.start && w.end <= last
    ensures UsedIn(xs, w) == UsedIn(ys, w)
  {
    hide Counted;
    hide WeightedCounts;
    hide UsedIn;
    var some: seq<nat> :| && Distinct(some) && Elements(some) == OfUserBetween(rows, user, first, last)
      && xs == SamplesAt(rows, some);
    var all: seq<nat> :| && Distinct(all) && Elements(all) == (set id | id in rows && rows[id].sample.user == user)
      && ys == SamplesAt(rows, all);
    forall id | id in Elements(all) - Elements(some)
      ensures !Counted(rows[id].sample, w) && WeightedCounts(rows[id].sample, w) == ZERO
    {
      BeyondSpan(rows[id].sample, w, first, last);
    }
    SameUse(rows, some, all, w);
  }

  /**
    For every uploaded record every user is taken to have used what all records of the user in the
    store show for the time of the record, though only those that the upload's span reaches are fetched.
   */
  lemma UseIsOfAllRecords(before: Rows, after: Rows, users: seq<User>, ds: seq<Sample>, trust: nat,
                          lists: seq<seq<Sample>>, i: nat, j: nat, ys: seq<Sample>)
    requires |users| > 1 && PutFrom(before, after, users, ds, trust, lists) && i < |users| && j < |ds|
    requires forall id :: id in before ==> before[id].sample.start <= before[id].sample.end
    requires ListsAll(before, users[i].id, ys)
    ensures Useds(lists, Window(ds[j].start, ds[j].end))[i] == UsedIn(ys, Window(ds[j].start, ds[j].end))
  {
    hide UsedIn;
    hide HasRecords;
    hide ListsAll;
    SpanEncloses(ds);
    FetchedUse(before, users[i].id, Earliest(ds), Latest(ds), lists[i], ys, Window(ds[j].start, ds[j].end));
  }

  // ---------- what is stored of an upload ----------

  lemma {:induction false} TimesMonotone(j: nat, n: nat, m: nat)
    requires j < n
    ensures j * m + m <= n * m
    decreases n
  {
    assert n * m == (n - 1) * m + m;
    if j == n - 1 {
    } else {
      TimesMonotone(j, n - 1, m);
    }
  }

  lemma InBlocks(n: nat, m: nat, j: nat, i: nat)
    requires j <= n && i < m
    ensures n * m + m == (n + 1) * m && 0 <= j * m + i < (n + 1) * m && (j < n ==> j * m + i < n * m)
  {
    TimesMonotone(j, n + 1, m);
    if j < n {
      TimesMonotone(j, n, m);
    }
  }

  lemma {:induction false} PutLength(users: seq<User>, lists: seq<seq<Sample>>, ds: seq<Sample>, trust: nat)
    requires |users| == |lists| > 0
    ensures |PutSamples(users, lists, ds, trust)| == |ds| * |users|
  {
    hide SplitSamples;
    if ds == [] {
    } else {
      PutLength(users, lists, ds[..|ds| - 1], trust);
      InBlocks(|ds| - 1, |users|, 0, 0);
    }
  }

  /** Every uploaded record is stored once for every user named, in order, with its times. */
  lemma {:induction false} StoredTimes(users: seq<User>, lists: seq<seq<Sample>>, ds: seq<Sample>, trust: nat,
                                       j: nat, i: nat)
    requires |users| == |lists| > 0 && j < |ds| && i < |users|
    ensures |PutSamples(users, lists, ds, trust)| == |ds| * |users|
    ensures 0 <= j * |users| + i < |ds| * |users|
    ensures var s := PutSamples(users, lists, ds, trust)[j * |users| + i];
            s.trust == trust && s.user == users[i].id && s.start == ds[j].start && s.end == ds[j].end
  {
    hide AllShares;
    var n, m := |ds| - 1, |users|;
    var kept := PutSamples(users, lists, ds[..n], trust);
    PutLength(users, lists, ds[..n], trust);
    InBlocks(n, m, j, i);
    if j < n {
      StoredTimes(users, lists, ds[..n], trust, j, i);
    }
  }
}
