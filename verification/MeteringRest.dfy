/**
  The daemon's threads come to rest: every step of a thread brings them closer to waiting for a packet
  or a timer, and from every state everything handled can still be sent.
 */
module MeteringRest {
  import opened Counts
  import opened Options
  import opened Metering

  // ---------- how far the threads are from rest ----------

  /** A handler that may yet add an address to the table also counts the steps this costs realtime. */
  function HandlerRank(h: Handler): nat {
    match h
    case HIdle => 0
    case HDone => 1
    case HUpLoaded(_, _) => 2
    case HUp(_) => 3
    case HAbsent(_) => 4
    case HDownLoaded(_, _) => 4
    case HDown(_) => 5
    case HLocked(_) => 6
    case HCalled(_) => 7
  }

  function HandlersRank(hs: seq<Handler>): nat {
    if hs == [] then 0 else HandlersRank(hs[..|hs| - 1]) + HandlerRank(hs[|hs| - 1])
  }

  /** Realtime has two steps to go for every address of its table. */
  function RealtimeRank(s: State): nat
    requires s.vals < |s.tables|
  {
    match s.realtime
    case RIdle => 0
    case RAdding(_, n) => if n <= 4 then 9 - 2 * n else 0
    case RLoaded(_, n, _) => if n <= 4 then 8 - 2 * n else 0
    case RSummed(_) => 10
    case RTally(_, keys, _) => 11 + 2 * |keys|
    case RHalf(_, keys, _, _) => 12 + 2 * |keys|
    case RReplaced(t) => if t < |s.tables| then 12 + 2 * |s.tables[t]| else 0
    case RTaken(_) => 13 + 2 * |s.tables[s.vals]|
    case RLocked => 14 + 2 * |s.tables[s.vals]|
    case RAwake => 15 + 2 * |s.tables[s.vals]|
  }

  function OutputRank(o: Output): nat {
    match o
    case OIdle => 0
    case OCopied(_) => 1
    case OCopying(_, _, n) => if n <= 4 then 6 - n else 0
    case OEnded(_) => 7
    case OStarted(_) => 8
    case OZeroed(_) => 9
    case OTaken(_) => 10
    case OLocked => 11
    case OAwake => 12
  }

  function Rank(s: State): nat
    requires s.vals < |s.tables|
  {
    HandlersRank(s.handlers) + RealtimeRank(s) + OutputRank(s.output)
  }

  predicate IsThreadStep(a: Action) {
    a.StepHandler? || a.StepRealtime? || a.StepOutput?
  }

  lemma {:induction false} HandlersRankStep(hs: seq<Handler>, i: nat, h: Handler)
    requires i < |hs|
    ensures HandlersRank(hs[i := h]) == HandlersRank(hs) - HandlerRank(hs[i]) + HandlerRank(h)
  {
    hide HandlerRank;
    var n := |hs| - 1;
    if i == n {
      assert hs[i := h][..n] == hs[..n];
    } else {
      HandlersRankStep(hs[..n], i, h);
      assert hs[i := h][..n] == hs[..n][i := h];
    }
  }

  lemma KeysOfSet(table: Table, k: int, t: Traffic)
    ensures |table[k := t]| == |table| + if k in table then 0 else 1
  {
    assert table[k := t].Keys == table.Keys + {k};
    assert |table[k := t]| == |table[k := t].Keys| && |table| == |table.Keys|;
  }

  /** A handler's step brings it closer to rest by more than it adds to what realtime has to visit. */
  lemma HandlerCloser(s: State, i: nat, t: State)
    requires s.vals < |s.tables| && i < |s.handlers| && HandlerNext(s, i) == Some(t)
    requires HandlerOk(s.handlers[i], i, s.valsMutex, s.tables[s.vals])
    ensures |t.tables| == |s.tables| && |t.handlers| == |s.handlers|
    ensures HandlerRank(t.handlers[i]) + 2 * |t.tables[s.vals]| < HandlerRank(s.handlers[i]) + 2 * |s.tables[s.vals]|
    ensures HandlerRank(t.handlers[i]) < HandlerRank(s.handlers[i])
  {
    var table := s.tables[s.vals];
    match s.handlers[i]
    case HAbsent(p) => KeysOfSet(table, p.address, Traffic(p.down, p.up));
    case HDownLoaded(p, x) => KeysOfSet(table, p.address, Traffic(x + p.down, table[p.address].up));
    case HUpLoaded(p, x) => KeysOfSet(table, p.address, Traffic(table[p.address].down, x + p.up));
    case _ =>
  }

  lemma HandlerFalls(s: State, i: nat, t: State)
    requires Disciplined(s) && i < |s.handlers| && HandlerNext(s, i) == Some(t)
    ensures t.vals < |t.tables| && Rank(t) < Rank(s)
  {
    HandlerIsOk(s.handlers, i, s.valsMutex, s.tables[s.vals]);
    HandlerStep(s, i, t);
    HandlerCloser(s, i, t);
    HandlersRankStep(s.handlers, i, t.handlers[i]);
    hide HandlersOk;
    hide HandlerOk;
    hide HandlerNext;
    hide HandlerRank;
    hide HandlersRank;
  }

  lemma RealtimeFalls(free: int -> bool, s: State, key: int, t: State)
    requires Disciplined(s) && RealtimeNext(free, s, key) == Some(t)
    ensures t.vals < |t.tables| && Rank(t) < Rank(s)
  {
    hide HandlersOk;
    hide MutexesOk;
    hide OutputKnows;
    hide HandlersRank;
    hide OutputRank;
    hide Split;
    hide Plus;
    hide Nth;
    hide WithNth;
    RealtimeExcludes(free, s, key, t);
    if s.realtime.RReplaced? {
      assert |s.tables[s.realtime.t].Keys| == |s.tables[s.realtime.t]|;
    }
  }

  lemma SameRealtimeRank(s: State, t: State)
    requires s.vals < |s.tables| && t.vals == s.vals && t.tables == s.tables && t.realtime == s.realtime
    ensures RealtimeRank(t) == RealtimeRank(s)
  {
  }

  lemma OutputFalls(s: State, t: State)
    requires Disciplined(s) && OutputNext(s) == Some(t)
    ensures t.vals < |t.tables| && Rank(t) < Rank(s)
  {
    hide HandlersOk;
    hide MutexesOk;
    hide RealtimeKnows;
    hide RealtimeRank;
    hide HandlersRank;
    hide Plus;
    hide Nth;
    hide WithNth;
    hide From;
    SameRealtimeRank(s, t);
  }

  /** Every step of a thread brings the daemon closer to rest. */
  lemma RankFalls(free: int -> bool, s: State, a: Action, t: State)
    requires Disciplined(s) && IsThreadStep(a) && Next(free, s, a) == Some(t)
    ensures t.vals < |t.tables| && Rank(t) < Rank(s)
  {
    hide Disciplined;
    hide HandlerNext;
    hide RealtimeNext;
    hide OutputNext;
    hide Rank;
    match a
    case StepHandler(i) => HandlerFalls(s, i, t);
    case StepRealtime(key) => RealtimeFalls(free, s, key, t);
    case StepOutput => OutputFalls(s, t);
  }

  // ---------- continuations ----------

  /** The actions lead from one state to another. */
  ghost predicate Leads(free: int -> bool, s: State, actions: seq<Action>, t: State)
    decreases |actions|
  {
    if actions == [] then s == t
    else
      && s.vals < |s.tables| && s.totals < |s.sums| && Next(free, s, actions[0]).Some?
      && Leads(free, Next(free, s, actions[0]).value, actions[1..], t)
  }

  ghost predicate OnlySteps(actions: seq<Action>) {
    forall i :: 0 <= i < |actions| ==> IsThreadStep(actions[i])
  }

  /** No step of a thread takes more steps than the rank. */
  lemma {:induction false} StepsAreBounded(free: int -> bool, s: State, actions: seq<Action>, t: State)
    requires Disciplined(s) && Leads(free, s, actions, t) && OnlySteps(actions)
    ensures |actions| <= Rank(s)
    decreases |actions|
  {
    hide Disciplined;
    hide Next;
    hide Rank;
    if actions == [] {
    } else {
      var next := Next(free, s, actions[0]).value;
      Disciplines(free, s, actions[0], next);
      RankFalls(free, s, actions[0], next);
      StepsAreBounded(free, next, actions[1..], t);
    }
  }

  lemma {:induction false} LeadsOn(free: int -> bool, s: State, a: seq<Action>, t: State, b: seq<Action>, u: State)
    requires Leads(free, s, a, t) && Leads(free, t, b, u)
    ensures Leads(free, s, a + b, u)
    decreases |a|
  {
    if a == [] {
      assert a + b == b;
    } else {
      LeadsOn(free, Next(free, s, a[0]).value, a[1..], t, b, u);
      assert (a + b)[1..] == a[1..] + b;
    }
  }

  ghost predicate KeptBy(free: int -> bool, inv: State -> bool, s: State, a: Action) {
    Disciplined(s) && inv(s) && IsThreadStep(a) && Next(free, s, a).Some? ==> inv(Next(free, s, a).value)
  }

  /** The steps of threads keep a property. */
  ghost predicate Kept(free: int -> bool, inv: State -> bool) {
    forall s: State, a: Action :: KeptBy(free, inv, s, a)
  }

  /** From every state the threads can come to rest by their own steps. */
  lemma ComesToRest(free: int -> bool, s: State, inv: State -> bool) returns (actions: seq<Action>, t: State)
    requires Disciplined(s) && Conserved(free, s) && inv(s) && Kept(free, inv)
    ensures Leads(free, s, actions, t) && OnlySteps(actions)
    ensures Quiet(t) && Disciplined(t) && Conserved(free, t) && inv(t)
    decreases Rank(s)
  {
    hide HandlersOk;
    hide MutexesOk;
    hide RealtimeKnows;
    hide OutputKnows;
    hide Conserved;
    hide Next;
    hide Quiet;
    hide Rank;
    if Quiet(s) {
      actions, t := [], s;
    } else {
      NeverStuck(free, s);
      var a: Action :| IsThreadStep(a) && Next(free, s, a).Some?;
      var next := Next(free, s, a).value;
      StepConserves(free, s, a, next);
      RankFalls(free, s, a, next);
      assert KeptBy(free, inv, s, a);
      var rest;
      rest, t := ComesToRest(free, next, inv);
      actions := [a] + rest;
    }
  }

  // ---------- everything is sent ----------

  /** The bytes of the packets that handlers have been called with and not begun. */
  ghost function Called(free: int -> bool, hs: seq<Handler>): Counts {
    if hs == [] then ZERO else Plus(Called(free, hs[..|hs| - 1]), Began(free, hs[|hs| - 1]))
  }

  /** The bytes of all packets that have arrived. */
  ghost function Owed(free: int -> bool, s: State): Counts {
    Plus(Handled(free, s.begun), Called(free, s.handlers))
  }

  lemma {:induction false} CalledStep(free: int -> bool, hs: seq<Handler>, i: nat, h: Handler)
    requires i < |hs| && !h.HCalled?
    ensures Called(free, hs) == Plus(Began(free, hs[i]), Called(free, hs[i := h]))
  {
    hide Plus;
    hide Split;
    var n := |hs| - 1;
    var rest, last := Called(free, hs[..n]), Began(free, hs[n]);
    if i == n {
      assert hs[i := h][..n] == hs[..n];
      PlusZero(rest);
      PlusCommutes(last, rest);
    } else {
      CalledStep(free, hs[..n], i, h);
      assert hs[i := h][..n] == hs[..n][i := h];
      PlusAssociative(Began(free, hs[i]), Called(free, hs[..n][i := h]), last);
    }
  }

  lemma {:induction false} NoneCalled(free: int -> bool, hs: seq<Handler>)
    requires forall i :: 0 <= i < |hs| ==> hs[i] == HIdle
    ensures Called(free, hs) == ZERO
  {
    hide Plus;
    PlusZero(ZERO);
    if hs == [] {
    } else {
      NoneCalled(free, hs[..|hs| - 1]);
    }
  }

  lemma NeverCalledAgain(s: State, i: nat, t: State)
    requires s.vals < |s.tables| && i < |s.handlers| && HandlerNext(s, i) == Some(t)
    ensures |t.handlers| == |s.handlers| && !t.handlers[i].HCalled?
  {
  }

  lemma HandlerOwes(free: int -> bool, s: State, i: nat, t: State)
    requires Disciplined(s) && i < |s.handlers| && HandlerNext(s, i) == Some(t)
    ensures Owed(free, t) == Owed(free, s)
  {
    hide HandlersOk;
    hide HandlerOk;
    hide HandlerNext;
    hide Handled;
    hide Called;
    hide Began;
    hide Plus;
    HandlerIsOk(s.handlers, i, s.valsMutex, s.tables[s.vals]);
    HandlerStep(s, i, t);
    HandlerBegins(free, s, i, t);
    NeverCalledAgain(s, i, t);
    CalledStep(free, s.handlers, i, t.handlers[i]);
    PlusAssociative(Handled(free, s.begun), Began(free, s.handlers[i]), Called(free, t.handlers));
  }

  lemma SameOwed(free: int -> bool, s: State, t: State)
    requires t.begun == s.begun && t.handlers == s.handlers
    ensures Owed(free, t) == Owed(free, s)
  {
  }

  lemma StepOwes(free: int -> bool, s: State, a: Action, t: State)
    requires Disciplined(s) && IsThreadStep(a) && Next(free, s, a) == Some(t)
    ensures Owed(free, t) == Owed(free, s)
  {
    hide HandlersOk;
    hide OutputKnows;
    hide Owed;
    hide HandlerNext;
    match a
    case StepHandler(i) => HandlerOwes(free, s, i, t);
    case StepRealtime(key) =>
      RealtimeExcludes(free, s, key, t);
      SameOwed(free, s, t);
    case StepOutput => SameOwed(free, s, t);
  }

  /** Nothing but realtime is awake, which will find nothing more to take once it has taken the table. */
  ghost predicate RealtimeAlone(s: State) {
    && s.vals < |s.tables| && s.output == OIdle && (forall i :: 0 <= i < |s.handlers| ==> s.handlers[i] == HIdle)
    && (s.realtime.RAwake? || s.realtime.RLocked? || s.realtime.RTaken? || s.tables[s.vals] == map[])
  }

  ghost predicate OutputAlone(s: State) {
    && s.vals < |s.tables| && s.totals < |s.sums| && s.realtime == RIdle && s.tables[s.vals] == map[]
    && (forall i :: 0 <= i < |s.handlers| ==> s.handlers[i] == HIdle)
    && (s.output.OAwake? || s.output.OLocked? || s.output.OTaken? || s.sums[s.totals] == ZERO)
  }

  ghost function Owing(free: int -> bool, all: Counts): State -> bool {
    (s: State) => Owed(free, s) == all
  }

  ghost function OwingRealtime(free: int -> bool, all: Counts): State -> bool {
    (s: State) => Owed(free, s) == all && RealtimeAlone(s)
  }

  ghost function OwingOutput(free: int -> bool, all: Counts): State -> bool {
    (s: State) => Owed(free, s) == all && OutputAlone(s)
  }

  lemma OwingKept(free: int -> bool, all: Counts)
    ensures Kept(free, Owing(free, all))
  {
    hide HandlersOk;
    hide MutexesOk;
    hide RealtimeKnows;
    hide OutputKnows;
    hide Owed;
    hide Next;
    forall s: State, a: Action
      ensures KeptBy(free, Owing(free, all), s, a)
    {
      if Disciplined(s) && IsThreadStep(a) && Next(free, s, a).Some? {
        StepOwes(free, s, a, Next(free, s, a).value);
      }
    }
  }

  lemma RealtimeStaysAlone(free: int -> bool, s: State, a: Action, t: State)
    requires Disciplined(s) && RealtimeAlone(s) && IsThreadStep(a) && Next(free, s, a) == Some(t)
    ensures RealtimeAlone(t)
  {
    hide HandlersOk;
    hide MutexesOk;
    hide OutputKnows;
    hide Split;
    hide Plus;
    hide Nth;
    hide WithNth;
    assert a.StepRealtime?;
    RealtimeExcludes(free, s, a.key, t);
  }

  lemma OutputStaysAlone(free: int -> bool, s: State, a: Action, t: State)
    requires Disciplined(s) && OutputAlone(s) && IsThreadStep(a) && Next(free, s, a) == Some(t)
    ensures OutputAlone(t)
  {
    hide HandlersOk;
    hide MutexesOk;
    hide RealtimeKnows;
    hide Nth;
    hide WithNth;
    hide From;
    assert a.StepOutput?;
  }

  lemma RealtimeKept(free: int -> bool, all: Counts)
    ensures Kept(free, OwingRealtime(free, all))
  {
    hide HandlersOk;
    hide MutexesOk;
    hide RealtimeKnows;
    hide OutputKnows;
    hide Owed;
    hide RealtimeAlone;
    hide Next;
    forall s: State, a: Action
      ensures KeptBy(free, OwingRealtime(free, all), s, a)
    {
      if Disciplined(s) && RealtimeAlone(s) && IsThreadStep(a) && Next(free, s, a).Some? {
        StepOwes(free, s, a, Next(free, s, a).value);
        RealtimeStaysAlone(free, s, a, Next(free, s, a).value);
      }
    }
  }

  lemma OutputKept(free: int -> bool, all: Counts)
    ensures Kept(free, OwingOutput(free, all))
  {
    hide HandlersOk;
    hide MutexesOk;
    hide RealtimeKnows;
    hide OutputKnows;
    hide Owed;
    hide OutputAlone;
    hide Next;
    forall s: State, a: Action
      ensures KeptBy(free, OwingOutput(free, all), s, a)
    {
      if Disciplined(s) && OutputAlone(s) && IsThreadStep(a) && Next(free, s, a).Some? {
        StepOwes(free, s, a, Next(free, s, a).value);
        OutputStaysAlone(free, s, a, Next(free, s, a).value);
      }
    }
  }

  /** No packet arrives and the clock is not set. */
  predicate NoArrivals(actions: seq<Action>) {
    forall i :: 0 <= i < |actions| ==>
      IsThreadStep(actions[i]) || actions[i] == WakeRealtime || actions[i] == WakeOutput
  }

  /** A timer fires for a thread at rest. */
  lemma Wakes(free: int -> bool, s: State, a: Action) returns (t: State)
    requires Disciplined(s) && Conserved(free, s) && Quiet(s) && (a == WakeRealtime || a == WakeOutput)
    ensures Leads(free, s, [a], t) && Disciplined(t) && Conserved(free, t) && Owed(free, t) == Owed(free, s)
    ensures t == if a == WakeRealtime then s.(realtime := RAwake) else s.(output := OAwake)
  {
    hide HandlersOk;
    hide Conserved;
    hide Owed;
    t := Next(free, s, a).value;
    StepConserves(free, s, a, t);
    SameOwed(free, s, t);
  }

  lemma Bounds(s: State)
    requires Disciplined(s)
    ensures s.vals < |s.tables| && s.totals < |s.sums|
  {
  }

  lemma QuietOwes(free: int -> bool, s: State)
    requires Quiet(s)
    ensures Owed(free, s) == Handled(free, s.begun)
  {
    NoneCalled(free, s.handlers);
    hide Plus;
    PlusZero(Handled(free, s.begun));
  }

  /** From every state there is a way on without arrivals on which every packet that has arrived is sent. */
  lemma EverythingCanBeSent(free: int -> bool, s: State) returns (actions: seq<Action>, t: State)
    requires Disciplined(s) && Conserved(free, s)
    ensures Leads(free, s, actions, t) && NoArrivals(actions)
    ensures Quiet(t) && Sent(t.sent) == Handled(free, t.begun) == Owed(free, s)
  {
    hide Disciplined;
    hide Conserved;
    hide Leads;
    hide Kept;
    hide Owed;
    hide Handled;
    hide Sent;
    var all := Owed(free, s);
    OwingKept(free, all);
    RealtimeKept(free, all);
    OutputKept(free, all);
    var a1, s1 := ComesToRest(free, s, Owing(free, all));
    var w1 := Wakes(free, s1, WakeRealtime);
    Bounds(s1);
    var a2, s2 := ComesToRest(free, w1, OwingRealtime(free, all));
    var w2 := Wakes(free, s2, WakeOutput);
    Bounds(s2);
    var a3, s3 := ComesToRest(free, w2, OwingOutput(free, all));
    LeadsOn(free, s, a1, s1, [WakeRealtime], w1);
    LeadsOn(free, s, a1 + [WakeRealtime], w1, a2, s2);
    LeadsOn(free, s, a1 + [WakeRealtime] + a2, s2, [WakeOutput], w2);
    LeadsOn(free, s, a1 + [WakeRealtime] + a2 + [WakeOutput], w2, a3, s3);
    actions, t := a1 + [WakeRealtime] + a2 + [WakeOutput] + a3, s3;
    Bounds(t);
    RestSends(free, t);
    QuietOwes(free, t);
  }

  /** In particular from every state of every run. */
  lemma EveryRunCanBeSent(free: int -> bool, n: nat, boot: int, states: seq<State>, actions: seq<Action>, i: nat)
    returns (more: seq<Action>, t: State)
    requires IsRun(free, n, boot, states, actions) && i <= |actions|
    ensures Leads(free, states[i], more, t) && NoArrivals(more)
    ensures Quiet(t) && Sent(t.sent) == Handled(free, t.begun) == Owed(free, states[i])
  {
    EveryState(free, n, boot, states, actions, i);
    more, t := EverythingCanBeSent(free, states[i]);
  }
}
