/** putData of dinemeter.master.backend.Controller: uploaded records stored for one user or split among several. */
module Controller {
  import opened Counts
  import opened Regrid
  import opened Options
  import opened Records
  import opened Totals
  import opened Archive
  import opened ArchiveStore
  import opened Sharing

  // ---------- specification ----------

  /** The lowest trust level of which something counts in the window. */
  function LowestTrust(xs: seq<Sample>, w: Window): Option<nat> {
    if xs == [] then None
    else
      var rest, last := LowestTrust(xs[..|xs| - 1], w), xs[|xs| - 1];
      if Counted(last, w) && (rest == None || last.trust < rest.value) then Some(last.trust) else rest
  }

  lemma {:induction false} LowestTrustIs(xs: seq<Sample>, w: Window)
    ensures match LowestTrust(xs, w)
            case None => forall t :: !AnyCounted(xs, w, t)
            case Some(t) => AnyCounted(xs, w, t) && forall u :: AnyCounted(xs, w, u) ==> t <= u
  {
    hide Counted;
    if xs == [] {
    } else {
      var n := |xs| - 1;
      LowestTrustIs(xs[..n], w);
      forall t
        ensures AnyCounted(xs, w, t) <==> AnyCounted(xs[..n], w, t) || (xs[n].trust == t && Counted(xs[n], w))
      {
        OneMore(xs, n, w, t);
        assert xs[..n + 1] == xs;
      }
    }
  }

  /** What a user is taken to have used in a window. */
  function UsedIn(xs: seq<Sample>, w: Window): Counts {
    match LowestTrust(xs, w)
    case None => ZERO
    case Some(t) => TotalOf(xs, w, t)
  }

  function Useds(lists: seq<seq<Sample>>, w: Window): (cs: seq<Counts>)
    ensures |cs| == |lists| && forall i :: 0 <= i < |lists| ==> cs[i] == UsedIn(lists[i], w)
  {
    seq(|lists|, i requires 0 <= i < |lists| => UsedIn(lists[i], w))
  }

  /** The records stored for one uploaded record split among users. */
  function SplitSamples(users: seq<User>, lists: seq<seq<Sample>>, d: Sample, trust: nat): (xs: seq<Sample>)
    requires |users| == |lists|
    ensures |xs| == |users|
  {
    var shares := AllShares(d.counts, users, Useds(lists, Window(d.start, d.end)));
    seq(|users|, i requires 0 <= i < |users| => Sample(trust, users[i].id, d.start, d.end, shares[i]))
  }

  /** The records stored for a whole upload; lists holds what the store had of every user. */
  function PutSamples(users: seq<User>, lists: seq<seq<Sample>>, ds: seq<Sample>, trust: nat): seq<Sample>
    requires |users| == |lists| > 0
  {
    if ds == [] then []
    else
      var rest, d := PutSamples(users, lists, ds[..|ds| - 1], trust), ds[|ds| - 1];
      rest + if |users| > 1 then SplitSamples(users, lists, d, trust)
             else [Sample(trust, users[0].id, d.start, d.end, d.counts)]
  }

  function Earliest(ds: seq<Sample>): int
    requires ds != []
  {
    if |ds| == 1 then ds[0].start
    else var e := Earliest(ds[..|ds| - 1]); if ds[|ds| - 1].start < e then ds[|ds| - 1].start else e
  }

  function Latest(ds: seq<Sample>): int
    requires ds != []
  {
    if |ds| == 1 then ds[0].end
    else var l := Latest(ds[..|ds| - 1]); if ds[|ds| - 1].end > l then ds[|ds| - 1].end else l
  }

  /** xs are the records of a user that the span of the upload reaches, in some order. */
  ghost predicate HasRecords(rows: Rows, user: nat, first: int, last: int, xs: seq<Sample>) {
    exists ids: seq<nat> ::
      && Distinct(ids) && Elements(ids) == OfUserBetween(rows, user, first, last)
      && xs == SamplesAt(rows, ids)
  }

  ghost predicate PutFrom(before: Rows, after: Rows, users: seq<User>, ds: seq<Sample>, trust: nat,
                          lists: seq<seq<Sample>>)
    requires users != []
  {
    && |lists| == |users|
    && (|users| > 1 ==> ds != [] && forall i :: 0 <= i < |users| ==>
          HasRecords(before, users[i].id, Earliest(ds), Latest(ds), lists[i]))
    && exists ids :: AddedRows(before, after, ids, PutSamples(users, lists, ds, trust), 0)
  }

  /** What storing an upload does to the rows. */
  ghost predicate Put(before: Rows, after: Rows, users: seq<User>, ds: seq<Sample>, trust: nat)
    requires users != []
  {
    exists lists :: PutFrom(before, after, users, ds, trust, lists)
  }

  /** The whole of putData: the upload is stored, then the archive runs. */
  ghost predicate Uploaded(before: Rows, after: Rows, users: seq<User>, ds: seq<Sample>, trust: nat, now: int)
    requires users != []
  {
    exists mid :: Put(before, mid, users, ds, trust) && ArchiveStep(mid, after, now)
  }

  // ---------- the method ----------

  lemma LatestIsLast(ds: seq<Sample>)
    requires ds != []
    ensures Latest(ds) >= ds[|ds| - 1].end
  {
  }

  method Span(data: seq<DataRecord>) returns (first: int, last: int)
    requires data != []
    ensures first == Earliest(Values(data)) && last == Latest(Values(data))
  {
    first, last := data[0].start, data[|data| - 1].end;
    ghost var ds := Values(data);
    for n := 0 to |data|
      invariant first == if n == 0 then ds[0].start else Earliest(ds[..n])
      invariant last >= (if n == 0 then ds[|ds| - 1].end else Latest(ds[..n]))
      invariant last == ds[|ds| - 1].end || (n > 0 && last == Latest(ds[..n]))
    {
      assert ds[..n + 1][..n] == ds[..n];
      if data[n].start < first {
        first := data[n].start;
      }
      if data[n].end > last {
        last := data[n].end;
      }
    }
    assert ds[..|ds|] == ds;
    LatestIsLast(ds);
  }

  lemma UsedByTotal(xs: seq<Sample>, w: Window, out: DataRecord)
    requires if exists t :: AnyCounted(xs, w, t) then
               && AnyCounted(xs, w, out.trust) && (forall t :: AnyCounted(xs, w, t) ==> out.trust <= t)
               && out.CountsOf() == TotalOf(xs, w, out.trust)
             else out.CountsOf() == ZERO
    ensures out.CountsOf() == UsedIn(xs, w)
  {
    hide AnyCounted;
    hide TotalOf;
    LowestTrustIs(xs, w);
  }

  method UsedBy(records: seq<DataRecord>, w: Window) returns (used: Counts)
    ensures used == UsedIn(Values(records), w)
  {
    hide UsedIn;
    hide Counted;
    hide AnyCounted;
    hide TotalOf;
    ghost var xs := Values(records);
    var dR := Totals.Total(records, w.start, w.end, None);
    UsedByTotal(xs, w, dR);
    used := dR.CountsOf();
  }

  /** The usage of every user in the window of a record, and its sums. */
  method Usage(records: seq<seq<DataRecord>>, users: seq<User>, w: Window, ghost lists: seq<seq<Sample>>)
    returns (totals: seq<Counts>, grandTotal: Counts, limitDown: real, limitUp: real)
    requires |records| == |users| == |lists|
    requires forall i :: 0 <= i < |records| ==> Values(records[i]) == lists[i]
    ensures totals == Useds(lists, w) && grandTotal == CountsSum(totals)
    ensures limitDown == RealSum(DownQuotas(users)) && limitUp == RealSum(UpQuotas(users))
  {
    hide UsedIn;
    hide Plus;
    totals, grandTotal, limitDown, limitUp := [], ZERO, 0.0, 0.0;
    for i := 0 to |users|
      invariant totals == Useds(lists, w)[..i] && grandTotal == CountsSum(totals)
      invariant limitDown == RealSum(DownQuotas(users)[..i]) && limitUp == RealSum(UpQuotas(users)[..i])
    {
      var used := UsedBy(records[i], w);
      assert (totals + [used])[..i] == totals;
      totals := totals + [used];
      grandTotal := Plus(grandTotal, used);
      assert DownQuotas(users)[..i + 1][..i] == DownQuotas(users)[..i];
      assert UpQuotas(users)[..i + 1][..i] == UpQuotas(users)[..i];
      limitDown := limitDown + users[i].downQuota;
      limitUp := limitUp + users[i].upQuota;
    }
    assert Useds(lists, w)[..|users|] == Useds(lists, w);
    assert DownQuotas(users)[..|users|] == DownQuotas(users) && UpQuotas(users)[..|users|] == UpQuotas(users);
  }

  /** The records of every user that the span of an upload reaches. */
  method Fetch(store: Store, users: seq<User>, first: int, last: int)
    returns (records: seq<seq<DataRecord>>, ghost lists: seq<seq<Sample>>)
    ensures |records| == |lists| == |users|
    ensures forall i :: 0 <= i < |users| ==>
              Values(records[i]) == lists[i] && HasRecords(store.rows, users[i].id, first, last, lists[i])
  {
    records, lists := [], [];
    for n := 0 to |users|
      invariant |records| == |lists| == n
      invariant forall i :: 0 <= i < n ==>
                  Values(records[i]) == lists[i] && HasRecords(store.rows, users[i].id, first, last, lists[i])
    {
      var list, ids := store.GetData(first, last, users[n].id);
      ghost var xs := Values(list);
      assert forall i :: 0 <= i < |ids| ==> ids[i] in Elements(ids);
      assert xs == SamplesAt(store.rows, ids);
      records, lists := records + [list], lists + [xs];
    }
  }

  /** A new stored record with given values. */
  method InsertNew(store: Store, trust: nat, user: nat, start: int, end: int, c: Counts,
                   ghost before: Rows, ghost news: seq<nat>, ghost xs: seq<Sample>)
    returns (ghost more: seq<nat>)
    requires store.Valid() && AddedRows(before, store.rows, news, xs, 0)
    modifies store
    ensures store.Valid() && AddedRows(before, store.rows, more, xs + [Sample(trust, user, start, end, c)], 0)
  {
    hide AddedRows;
    var dR := new DataRecord();
    dR.down, dR.up, dR.uDown, dR.uUp := c.down, c.up, c.uDown, c.uUp;
    dR.start, dR.end, dR.trust, dR.userId := start, end, trust, user;
    AddedOne(before, store.rows, news, xs, 0, store.nextId, dR.Value());
    more := news + [store.nextId];
    store.Insert(dR);
  }

  /** One uploaded record, split by what the users have used while it lasted. */
  method Split(store: Store, users: seq<User>, records: seq<seq<DataRecord>>, d: DataRecord, trust: nat,
               ghost lists: seq<seq<Sample>>, ghost before: Rows, ghost news: seq<nat>, ghost xs: seq<Sample>)
    returns (ghost more: seq<nat>)
    requires |records| == |users| == |lists|
    requires forall i :: 0 <= i < |records| ==> Values(records[i]) == lists[i]
    requires store.Valid() && AddedRows(before, store.rows, news, xs, 0)
    modifies store
    ensures store.Valid()
    ensures AddedRows(before, store.rows, more, xs + SplitSamples(users, lists, d.Value(), trust), 0)
  {
    hide AddedRows;
    hide SharesOf;
    hide UsedIn;
    var totals, grandTotal, limitDown, limitUp := Usage(records, users, Window(d.start, d.end), lists);
    ghost var added := SplitSamples(users, lists, d.Value(), trust);
    more := news;
    assert xs + added[..0] == xs;
    for i := 0 to |users|
      invariant store.Valid() && AddedRows(before, store.rows, more, xs + added[..i], 0)
    {
      var share := SharesOf(d.CountsOf(), Basis(|users|, limitDown, limitUp, grandTotal, users[i], totals[i]));
      more := InsertNew(store, trust, users[i].id, d.start, d.end, share, before, more, xs + added[..i]);
      assert xs + added[..i] + [added[i]] == xs + added[..i + 1];
    }
    assert added[..|users|] == added;
  }

  lemma NothingAdded(rows: Rows)
    ensures AddedRows(rows, rows, [], [], 0)
  {
    assert Elements<nat>([]) == {};
  }

  /** putData for users that exist, with an upload that could be read; it ends by running the archive. */
  method PutData(store: Store, users: seq<User>, data: seq<DataRecord>, trust: nat, now: int)
    requires store.Valid() && users != []
    requires |users| > 1 ==> data != []
    modifies store
    ensures store.Valid() && Uploaded(old(store.rows), store.rows, users, Values(data), trust, now)
  {
    hide AddedRows;
    hide HasRecords;
    hide SplitSamples;
    hide ArchiveStep;
    hide Earliest;
    hide Latest;
    ghost var before, ds := store.rows, Values(data);
    var records: seq<seq<DataRecord>> := seq(|users|, _ => []);
    ghost var lists: seq<seq<Sample>> := seq(|users|, _ => []);
    if |users| > 1 {
      var first, last := Span(data);
      records, lists := Fetch(store, users, first, last);
    }
    ghost var news := [];
    ghost var xs: seq<Sample> := [];
    NothingAdded(before);
    for n := 0 to |data|
      invariant store.Valid() && xs == PutSamples(users, lists, ds[..n], trust)
      invariant AddedRows(before, store.rows, news, xs, 0)
      invariant |records| == |users| && Values(data) == ds
      invariant forall i :: 0 <= i < |records| ==> Values(records[i]) == lists[i]
    {
      assert ds[..n + 1][..n] == ds[..n];
      if |users| > 1 {
        news := Split(store, users, records, data[n], trust, lists, before, news, xs);
      } else {
        news := InsertNew(store, trust, users[0].id, data[n].start, data[n].end, data[n].CountsOf(), before, news, xs);
      }
      xs := PutSamples(users, lists, ds[..n + 1], trust);
    }
    assert ds[..|data|] == ds;
    assert PutFrom(before, store.rows, users, ds, trust, lists);
    ghost var mid := store.rows;
    store.RefactorArchive(now);
    assert Put(before, mid, users, ds, trust) && ArchiveStep(mid, store.rows, now);
  }
}
