/**
  The threads of dinemeter.daemon.Daemon that account for traffic: packet handlers, realtime and
  output, interleaved step by step. Tables and totals are objects that the static variables refer to,
  so handing them over is swapping a reference.
 */
module Metering {
  import opened Counts
  import opened Options

  datatype Traffic = Traffic(down: int, up: int)
  datatype Packet = Packet(down: int, up: int, address: int)
  type Table = map<int, Traffic>

  /** A record sent to the backend. */
  datatype Report = Report(start: int, end: int, counts: Counts)

  /** Who holds a mutex. */
  datatype Owner = Free | OfHandler(i: nat) | OfRealtime | OfOutput

  /** Where a packet handler stands; an addition is a load and a store. */
  datatype Handler =
    | HIdle
    | HCalled(p: Packet)
    | HLocked(p: Packet)
    | HAbsent(p: Packet)
    | HDown(p: Packet)
    | HDownLoaded(p: Packet, x: int)
    | HUp(p: Packet)
    | HUpLoaded(p: Packet, x: int)
    | HDone

  /** t is the table taken, keys the addresses still to visit, v the sums, n the next field to add. */
  datatype Realtime =
    | RIdle
    | RAwake
    | RLocked
    | RTaken(t: nat)
    | RReplaced(t: nat)
    | RTally(t: nat, keys: set<int>, v: Counts)
    | RHalf(t: nat, keys: set<int>, key: int, v: Counts)
    | RSummed(v: Counts)
    | RAdding(v: Counts, n: nat)
    | RLoaded(v: Counts, n: nat, x: int)

  /** r is the totals object taken, c the counts copied so far, n the next field to copy. */
  datatype Output =
    | OIdle
    | OAwake
    | OLocked
    | OTaken(r: nat)
    | OZeroed(r: nat)
    | OStarted(r: nat)
    | OEnded(r: nat)
    | OCopying(r: nat, c: Counts, n: nat)
    | OCopied(c: Counts)

  datatype State = State(
    tables: seq<Table>, vals: nat, valsMutex: Owner,
    sums: seq<Counts>, totals: nat, totalsMutex: Owner,
    start: int, end: int, clock: int,
    handlers: seq<Handler>, realtime: Realtime, output: Output,
    begun: seq<Packet>, sent: seq<Report>)

  /** What happens next: a packet arrives, a timer fires, the clock is set, or a thread takes a step. */
  datatype Action =
    | Arrive(i: nat, p: Packet)
    | WakeRealtime
    | WakeOutput
    | Tick(now: int)
    | StepHandler(i: nat)
    | StepRealtime(key: int)
    | StepOutput

  // ---------- fields of a count by number ----------

  function Nth(c: Counts, n: nat): int {
    if n == 0 then c.down else if n == 1 then c.up else if n == 2 then c.uDown else c.uUp
  }

  function WithNth(c: Counts, n: nat, x: int): Counts {
    if n == 0 then c.(down := x) else if n == 1 then c.(up := x)
    else if n == 2 then c.(uDown := x) else c.(uUp := x)
  }

  /** The fields from n on. */
  function From(c: Counts, n: nat): Counts {
    Counts(if n <= 0 then c.down else 0, if n <= 1 then c.up else 0,
           if n <= 2 then c.uDown else 0, if n <= 3 then c.uUp else 0)
  }

  lemma NthMoves(a: Counts, v: Counts, n: nat)
    requires n < 4
    ensures Plus(WithNth(a, n, Nth(a, n) + Nth(v, n)), From(v, n + 1)) == Plus(a, From(v, n))
  {
  }

  lemma FromAll(v: Counts)
    ensures From(v, 0) == v && From(v, 4) == ZERO
  {
  }

  // ---------- the steps ----------

  /** Traffic of an address as counts, by whether the address is unmetered. */
  function Split(free: int -> bool, address: int, t: Traffic): Counts {
    if free(address) then Counts(0, 0, t.down, t.up) else Counts(t.down, t.up, 0, 0)
  }

  function Initial(n: nat, boot: int): State {
    State([map[]], 0, Free, [ZERO], 0, Free, boot, boot, boot, seq(n, _ => HIdle), RIdle, OIdle, [], [])
  }

  /** The table that vals refers to, replaced. */
  function Stored(s: State, i: nat, h: Handler, table: Table): State
    requires s.vals < |s.tables| && i < |s.handlers|
  {
    s.(tables := s.tables[s.vals := table], handlers := s.handlers[i := h])
  }

  function HandlerNext(s: State, i: nat): Option<State>
    requires s.vals < |s.tables| && i < |s.handlers|
  {
    var table := s.tables[s.vals];
    match s.handlers[i]
    case HIdle => None
    case HCalled(p) =>
      if s.valsMutex != Free then None
      else Some(s.(valsMutex := OfHandler(i), handlers := s.handlers[i := HLocked(p)], begun := s.begun + [p]))
    case HLocked(p) =>
      Some(s.(handlers := s.handlers[i := if p.address in table then HDown(p) else HAbsent(p)]))
    case HAbsent(p) =>
      Some(Stored(s, i, HDone, table[p.address := Traffic(p.down, p.up)]))
    case HDown(p) =>
      if p.address !in table then None
      else Some(s.(handlers := s.handlers[i := HDownLoaded(p, table[p.address].down)]))
    case HDownLoaded(p, x) =>
      if p.address !in table then None
      else Some(Stored(s, i, HUp(p), table[p.address := Traffic(x + p.down, table[p.address].up)]))
    case HUp(p) =>
      if p.address !in table then None
      else Some(s.(handlers := s.handlers[i := HUpLoaded(p, table[p.address].up)]))
    case HUpLoaded(p, x) =>
      if p.address !in table then None
      else Some(Stored(s, i, HDone, table[p.address := Traffic(table[p.address].down, x + p.up)]))
    case HDone =>
      Some(s.(valsMutex := Free, handlers := s.handlers[i := HIdle]))
  }

  function RealtimeNext(free: int -> bool, s: State, key: int): Option<State>
    requires s.totals < |s.sums|
  {
    match s.realtime
    case RIdle => None
    case RAwake =>
      if s.valsMutex != Free then None else Some(s.(valsMutex := OfRealtime, realtime := RLocked))
    case RLocked => Some(s.(realtime := RTaken(s.vals)))
    case RTaken(t) =>
      Some(s.(tables := s.tables + [map[]], vals := |s.tables|, realtime := RReplaced(t)))
    case RReplaced(t) =>
      if t >= |s.tables| then None
      else Some(s.(valsMutex := Free, realtime := RTally(t, s.tables[t].Keys, ZERO)))
    case RTally(t, keys, v) =>
      if keys == {} then Some(s.(realtime := RSummed(v)))
      else if key !in keys || t >= |s.tables| || key !in s.tables[t] then None
      else Some(s.(realtime := RHalf(t, keys - {key}, key,
                                     Plus(v, Split(free, key, Traffic(s.tables[t][key].down, 0))))))
    case RHalf(t, keys, k, v) =>
      if t >= |s.tables| || k !in s.tables[t] then None
      else Some(s.(realtime := RTally(t, keys, Plus(v, Split(free, k, Traffic(0, s.tables[t][k].up))))))
    case RSummed(v) =>
      if s.totalsMutex != Free then None else Some(s.(totalsMutex := OfRealtime, realtime := RAdding(v, 0)))
    case RAdding(v, n) =>
      if n >= 4 then Some(s.(totalsMutex := Free, realtime := RIdle))
      else Some(s.(realtime := RLoaded(v, n, Nth(s.sums[s.totals], n))))
    case RLoaded(v, n, x) =>
      Some(s.(sums := s.sums[s.totals := WithNth(s.sums[s.totals], n, x + Nth(v, n))], realtime := RAdding(v, n + 1)))
  }

  function OutputNext(s: State): Option<State> {
    match s.output
    case OIdle => None
    case OAwake =>
      if s.totalsMutex != Free then None else Some(s.(totalsMutex := OfOutput, output := OLocked))
    case OLocked => Some(s.(output := OTaken(s.totals)))
    case OTaken(r) => Some(s.(sums := s.sums + [ZERO], totals := |s.sums|, output := OZeroed(r)))
    case OZeroed(r) => Some(s.(start := s.end, output := OStarted(r)))
    case OStarted(r) => Some(s.(end := s.clock, output := OEnded(r)))
    case OEnded(r) => Some(s.(totalsMutex := Free, output := OCopying(r, ZERO, 0)))
    case OCopying(r, c, n) =>
      if n >= 4 then Some(s.(output := OCopied(c)))
      else if r >= |s.sums| then None
      else Some(s.(output := OCopying(r, WithNth(c, n, Nth(s.sums[r], n)), n + 1)))
    case OCopied(c) => Some(s.(sent := s.sent + [Report(s.start, s.end, c)], output := OIdle))
  }

  function Next(free: int -> bool, s: State, a: Action): Option<State>
    requires s.vals < |s.tables| && s.totals < |s.sums|
  {
    match a
    case Arrive(i, p) =>
      if i < |s.handlers| && s.handlers[i] == HIdle then Some(s.(handlers := s.handlers[i := HCalled(p)])) else None
    case WakeRealtime => if s.realtime == RIdle then Some(s.(realtime := RAwake)) else None
    case WakeOutput => if s.output == OIdle then Some(s.(output := OAwake)) else None
    case Tick(now) => Some(s.(clock := now))
    case StepHandler(i) => if i < |s.handlers| then HandlerNext(s, i) else None
    case StepRealtime(key) => RealtimeNext(free, s, key)
    case StepOutput => OutputNext(s)
  }

  // ---------- the discipline of the mutexes ----------

  predicate HandlerHolds(h: Handler) {
    !h.HIdle? && !h.HCalled?
  }

  predicate RealtimeHoldsVals(r: Realtime) {
    r.RLocked? || r.RTaken? || r.RReplaced?
  }

  predicate RealtimeHoldsTotals(r: Realtime) {
    r.RAdding? || r.RLoaded?
  }

  predicate OutputHolds(o: Output) {
    o.OLocked? || o.OTaken? || o.OZeroed? || o.OStarted? || o.OEnded?
  }

  /** What a handler knows of the table while it holds the mutex. */
  predicate HandlerKnows(h: Handler, table: Table) {
    match h
    case HAbsent(p) => p.address !in table
    case HDown(p) => p.address in table
    case HDownLoaded(p, x) => p.address in table && x == table[p.address].down
    case HUp(p) => p.address in table
    case HUpLoaded(p, x) => p.address in table && x == table[p.address].up
    case _ => true
  }

  /** The table that realtime works on is the current one until it is replaced, and never again after. */
  predicate RealtimeKnows(s: State)
    requires s.totals < |s.sums|
  {
    match s.realtime
    case RTaken(t) => t == s.vals
    case RReplaced(t) => t < |s.tables| && t != s.vals
    case RTally(t, keys, v) => t < |s.tables| && t != s.vals && keys <= s.tables[t].Keys
    case RHalf(t, keys, key, v) =>
      t < |s.tables| && t != s.vals && keys <= s.tables[t].Keys && key in s.tables[t] && key !in keys
    case RAdding(v, n) => n <= 4
    case RLoaded(v, n, x) => n < 4 && x == Nth(s.sums[s.totals], n)
    case _ => true
  }

  predicate OutputKnows(s: State) {
    match s.output
    case OTaken(r) => r == s.totals
    case OZeroed(r) => r < |s.sums| && r != s.totals
    case OStarted(r) => r < |s.sums| && r != s.totals
    case OEnded(r) => r < |s.sums| && r != s.totals
    case OCopying(r, c, n) => r < |s.sums| && r != s.totals && n <= 4 && From(c, n) == ZERO
    case _ => true
  }

  predicate HandlerOk(h: Handler, i: nat, mutex: Owner, table: Table) {
    (HandlerHolds(h) <==> mutex == OfHandler(i)) && HandlerKnows(h, table)
  }

  ghost predicate HandlersOk(handlers: seq<Handler>, mutex: Owner, table: Table) {
    && (forall i: nat :: i < |handlers| ==> HandlerOk(handlers[i], i, mutex, table))
    && (mutex.OfHandler? ==> mutex.i < |handlers|)
  }

  predicate MutexesOk(s: State) {
    && (RealtimeHoldsVals(s.realtime) <==> s.valsMutex == OfRealtime)
    && (RealtimeHoldsTotals(s.realtime) <==> s.totalsMutex == OfRealtime)
    && (OutputHolds(s.output) <==> s.totalsMutex == OfOutput)
    && s.valsMutex != OfOutput && !s.totalsMutex.OfHandler?
  }

  ghost predicate Disciplined(s: State) {
    && s.vals < |s.tables| && s.totals < |s.sums|
    && HandlersOk(s.handlers, s.valsMutex, s.tables[s.vals])
    && MutexesOk(s) && RealtimeKnows(s) && OutputKnows(s)
  }

  /** While no handler has the mutex, the table may change. */
  lemma HandlersOut(handlers: seq<Handler>, m: Owner, n: Owner, table: Table, other: Table)
    requires HandlersOk(handlers, m, table) && !m.OfHandler? && !n.OfHandler?
    ensures HandlersOk(handlers, n, other)
  {
    forall i: nat | i < |handlers|
      ensures HandlerOk(handlers[i], i, n, other)
    {
      assert HandlerOk(handlers[i], i, m, table);
    }
  }

  /** A handler that has or may get the mutex moves on, and all others stay outside. */
  lemma HandlerMoves(handlers: seq<Handler>, i: nat, h: Handler, m: Owner, n: Owner, table: Table, other: Table)
    requires HandlersOk(handlers, m, table) && i < |handlers| && HandlerOk(h, i, n, other)
    requires if m == OfHandler(i) || n == OfHandler(i) then {m, n} <= {OfHandler(i), Free} else m == n && table == other
    ensures HandlersOk(handlers[i := h], n, other)
  {
    forall j: nat | j < |handlers| && j != i
      ensures HandlerOk(handlers[j], j, n, other)
    {
      assert HandlerOk(handlers[j], j, m, table);
    }
  }

  /** A step of a handler changes the current table, its own place and its own mutex, and nothing else. */
  lemma HandlerStep(s: State, i: nat, t: State)
    requires s.vals < |s.tables| && i < |s.handlers| && HandlerNext(s, i) == Some(t)
    requires HandlerOk(s.handlers[i], i, s.valsMutex, s.tables[s.vals])
    ensures |t.tables| == |s.tables| && |t.handlers| == |s.handlers|
    ensures t == s.(tables := s.tables[s.vals := t.tables[s.vals]], handlers := s.handlers[i := t.handlers[i]],
                    valsMutex := t.valsMutex, begun := t.begun)
    ensures HandlerOk(t.handlers[i], i, t.valsMutex, t.tables[s.vals])
    ensures s.valsMutex in {Free, OfHandler(i)} && t.valsMutex in {Free, OfHandler(i)}
    ensures OfHandler(i) in {s.valsMutex, t.valsMutex}
  {
    assert s.tables[s.vals := s.tables[s.vals]] == s.tables;
  }

  lemma HandlerIsOk(handlers: seq<Handler>, i: nat, m: Owner, table: Table)
    requires HandlersOk(handlers, m, table) && i < |handlers|
    ensures HandlerOk(handlers[i], i, m, table)
  {
  }

  lemma HandlerDisciplined(s: State, i: nat, t: State)
    requires Disciplined(s) && i < |s.handlers| && HandlerNext(s, i) == Some(t)
    ensures Disciplined(t)
  {
    hide HandlersOk;
    hide HandlerNext;
    hide HandlerOk;
    HandlerIsOk(s.handlers, i, s.valsMutex, s.tables[s.vals]);
    HandlerStep(s, i, t);
    HandlerMoves(s.handlers, i, t.handlers[i], s.valsMutex, t.valsMutex, s.tables[s.vals], t.tables[s.vals]);
  }

  /** A step of realtime keeps the mutexes right, and the current table while a handler is at it. */
  lemma RealtimeExcludes(free: int -> bool, s: State, key: int, t: State)
    requires s.totals < |s.sums| && s.vals < |s.tables| && MutexesOk(s) && RealtimeNext(free, s, key) == Some(t)
    ensures MutexesOk(t) && t.handlers == s.handlers && t.totals == s.totals && t.output == s.output
    ensures t.begun == s.begun && t.sent == s.sent
    ensures |t.sums| == |s.sums| && t.totals < |t.sums| && t.vals < |t.tables|
    ensures if s.valsMutex.OfHandler? then t.valsMutex == s.valsMutex && t.vals == s.vals && t.tables == s.tables
            else !t.valsMutex.OfHandler?
  {
    hide Split;
    hide Plus;
    hide Nth;
    hide WithNth;
  }

  lemma RealtimeLearns(free: int -> bool, s: State, key: int, t: State)
    requires s.totals < |s.sums| && s.vals < |s.tables| && RealtimeKnows(s) && RealtimeNext(free, s, key) == Some(t)
    ensures t.totals < |t.sums| && RealtimeKnows(t)
  {
    hide Split;
    hide Plus;
    hide Nth;
    hide WithNth;
  }

  lemma OutputStillKnows(s: State, t: State)
    requires OutputKnows(s) && t.output == s.output && t.totals == s.totals && |t.sums| == |s.sums|
    ensures OutputKnows(t)
  {
  }

  lemma RealtimeDisciplined(free: int -> bool, s: State, key: int, t: State)
    requires Disciplined(s) && RealtimeNext(free, s, key) == Some(t)
    ensures Disciplined(t)
  {
    hide HandlersOk;
    hide RealtimeNext;
    hide MutexesOk;
    hide RealtimeKnows;
    hide OutputKnows;
    RealtimeExcludes(free, s, key, t);
    RealtimeLearns(free, s, key, t);
    OutputStillKnows(s, t);
    if !s.valsMutex.OfHandler? {
      HandlersOut(s.handlers, s.valsMutex, t.valsMutex, s.tables[s.vals], t.tables[t.vals]);
    }
  }

  lemma CopyMoves(c: Counts, v: Counts, n: nat)
    requires n < 4 && From(c, n) == ZERO
    ensures Plus(WithNth(c, n, Nth(v, n)), From(v, n + 1)) == Plus(c, From(v, n))
    ensures From(WithNth(c, n, Nth(v, n)), n + 1) == ZERO
  {
    assert Nth(c, n) == Nth(From(c, n), n);
    NthMoves(c, v, n);
  }

  lemma OutputDisciplined(s: State, t: State)
    requires Disciplined(s) && OutputNext(s) == Some(t)
    ensures Disciplined(t)
  {
    hide HandlersOk;
    hide Plus;
    if s.output.OCopying? && s.output.n < 4 && s.output.r < |s.sums| {
      CopyMoves(s.output.c, s.sums[s.output.r], s.output.n);
    }
    hide Nth;
    hide WithNth;
    hide From;
  }

  lemma Disciplines(free: int -> bool, s: State, a: Action, t: State)
    requires Disciplined(s) && Next(free, s, a) == Some(t)
    ensures Disciplined(t)
  {
    hide HandlersOk;
    hide HandlerNext;
    hide RealtimeNext;
    hide OutputNext;
    match a
    case Arrive(i, p) =>
      HandlerIsOk(s.handlers, i, s.valsMutex, s.tables[s.vals]);
      HandlerMoves(s.handlers, i, HCalled(p), s.valsMutex, s.valsMutex, s.tables[s.vals], s.tables[s.vals]);
    case StepHandler(i) => HandlerDisciplined(s, i, t);
    case StepRealtime(key) => RealtimeDisciplined(free, s, key, t);
    case StepOutput => OutputDisciplined(s, t);
    case _ =>
  }

  // ---------- where the bytes are ----------

  function EntryOf(free: int -> bool, table: Table): int -> Counts {
    (k: int) => if k in table then Split(free, k, table[k]) else ZERO
  }

  /** The bytes that a table holds for some of its addresses. */
  ghost function Tallied(free: int -> bool, table: Table, keys: set<int>): Counts {
    Sum(keys, EntryOf(free, table))
  }

  ghost function AllTallied(free: int -> bool, table: Table): Counts {
    Tallied(free, table, table.Keys)
  }

  /** What a handler has still to write. */
  function Unwritten(free: int -> bool, h: Handler): Counts {
    match h
    case HLocked(p) => Split(free, p.address, Traffic(p.down, p.up))
    case HAbsent(p) => Split(free, p.address, Traffic(p.down, p.up))
    case HDown(p) => Split(free, p.address, Traffic(p.down, p.up))
    case HDownLoaded(p, _) => Split(free, p.address, Traffic(p.down, p.up))
    case HUp(p) => Split(free, p.address, Traffic(0, p.up))
    case HUpLoaded(p, _) => Split(free, p.address, Traffic(0, p.up))
    case _ => ZERO
  }

  /** Of the handlers, only the one with the mutex has anything half written. */
  ghost function InHandlers(free: int -> bool, s: State): Counts {
    if s.valsMutex.OfHandler? && s.valsMutex.i < |s.handlers| then Unwritten(free, s.handlers[s.valsMutex.i]) else ZERO
  }

  ghost function InRealtime(free: int -> bool, s: State): Counts
    requires s.totals < |s.sums| && RealtimeKnows(s)
  {
    match s.realtime
    case RReplaced(t) => AllTallied(free, s.tables[t])
    case RTally(t, keys, v) => Plus(v, Tallied(free, s.tables[t], keys))
    case RHalf(t, keys, key, v) =>
      Plus(Plus(v, Split(free, key, Traffic(0, s.tables[t][key].up))), Tallied(free, s.tables[t], keys))
    case RSummed(v) => v
    case RAdding(v, n) => From(v, n)
    case RLoaded(v, n, _) => From(v, n)
    case _ => ZERO
  }

  ghost function InOutput(s: State): Counts
    requires OutputKnows(s)
  {
    match s.output
    case OZeroed(r) => s.sums[r]
    case OStarted(r) => s.sums[r]
    case OEnded(r) => s.sums[r]
    case OCopying(r, c, n) => Plus(c, From(s.sums[r], n))
    case OCopied(c) => c
    case _ => ZERO
  }

  ghost function Sent(reports: seq<Report>): Counts {
    if reports == [] then ZERO else Plus(Sent(reports[..|reports| - 1]), reports[|reports| - 1].counts)
  }

  /** The bytes of packets, metered and unmetered. */
  ghost function Handled(free: int -> bool, packets: seq<Packet>): Counts {
    if packets == [] then ZERO
    else
      var p := packets[|packets| - 1];
      Plus(Handled(free, packets[..|packets| - 1]), Split(free, p.address, Traffic(p.down, p.up)))
  }

  function DownAt(table: Table): int -> int {
    (k: int) => if k in table then table[k].down else 0
  }

  function UpAt(table: Table): int -> int {
    (k: int) => if k in table then table[k].up else 0
  }

  /** Field by field, a table holds the traffic of its free addresses as unmetered and that of the others as metered. */
  lemma TalliedByField(free: int -> bool, table: Table)
    ensures var counts, frees := AllTallied(free, table), set k | k in table && free(k);
            && counts.uDown == IntSumOver(frees, DownAt(table)) && counts.uUp == IntSumOver(frees, UpAt(table))
            && counts.down == IntSumOver(table.Keys - frees, DownAt(table))
            && counts.up == IntSumOver(table.Keys - frees, UpAt(table))
  {
    hide IntSumOver;
    hide Sum;
    var frees := set k | k in table && free(k);
    SumByField(table.Keys, frees, EntryOf(free, table), DownAt(table), UpAt(table));
  }

  function PacketSum(packets: seq<Packet>, f: Packet -> int): int {
    if packets == [] then 0 else PacketSum(packets[..|packets| - 1], f) + f(packets[|packets| - 1])
  }

  /** Field by field, packets of free addresses are unmetered and the others metered. */
  ghost predicate CountsByField(free: int -> bool, packets: seq<Packet>, c: Counts) {
    && c.down == PacketSum(packets, (p: Packet) => if free(p.address) then 0 else p.down)
    && c.up == PacketSum(packets, (p: Packet) => if free(p.address) then 0 else p.up)
    && c.uDown == PacketSum(packets, (p: Packet) => if free(p.address) then p.down else 0)
    && c.uUp == PacketSum(packets, (p: Packet) => if free(p.address) then p.up else 0)
  }

  lemma {:induction false} HandledByField(free: int -> bool, packets: seq<Packet>)
    ensures CountsByField(free, packets, Handled(free, packets))
  {
    if packets == [] {
    } else {
      HandledByField(free, packets[..|packets| - 1]);
    }
  }

  /** Bytes in the current table, with realtime, or in the current totals. */
  ghost function Nearby(free: int -> bool, s: State): Counts
    requires Disciplined(s)
  {
    Plus(Plus(AllTallied(free, s.tables[s.vals]), InRealtime(free, s)), s.sums[s.totals])
  }

  /** Every byte of every packet whose handling has begun is in exactly one place. */
  ghost predicate Conserved(free: int -> bool, s: State)
    requires Disciplined(s)
  {
    Handled(free, s.begun) == Plus(Plus(InHandlers(free, s), Nearby(free, s)), Plus(InOutput(s), Sent(s.sent)))
  }

  // ---------- every step conserves ----------

  /** Adding traffic to the entry of an address adds as much to what the table holds. */
  lemma TalliedAdd(free: int -> bool, table: Table, k: int, was: Traffic, more: Traffic)
    requires was == if k in table then table[k] else Traffic(0, 0)
    ensures AllTallied(free, table[k := Traffic(was.down + more.down, was.up + more.up)]) ==
            Plus(AllTallied(free, table), Split(free, k, more))
  {
    var after := table[k := Traffic(was.down + more.down, was.up + more.up)];
    SumRemove(after.Keys, EntryOf(free, after), k);
    SumEqual(after.Keys - {k}, EntryOf(free, table), EntryOf(free, after));
    if k in table {
      SumRemove(table.Keys, EntryOf(free, table), k);
      assert after.Keys == table.Keys;
    } else {
      assert after.Keys - {k} == table.Keys;
    }
  }

  lemma SplitPlus(free: int -> bool, k: int, down: int, up: int)
    ensures Plus(Split(free, k, Traffic(down, 0)), Split(free, k, Traffic(0, up))) == Split(free, k, Traffic(down, up))
  {
  }

  /** The bytes whose handling begins with the handler's next step. */
  function Began(free: int -> bool, h: Handler): Counts {
    if h.HCalled? then Split(free, h.p.address, Traffic(h.p.down, h.p.up)) else ZERO
  }

  lemma BegunStep(s: State, i: nat, t: State)
    requires s.vals < |s.tables| && i < |s.handlers| && HandlerNext(s, i) == Some(t)
    ensures t.begun == s.begun + if s.handlers[i].HCalled? then [s.handlers[i].p] else []
  {
  }

  lemma HandledMore(free: int -> bool, packets: seq<Packet>, p: Packet)
    ensures Handled(free, packets + [p]) ==
            Plus(Handled(free, packets), Split(free, p.address, Traffic(p.down, p.up)))
  {
    hide Plus;
    hide Split;
    assert (packets + [p])[..|packets|] == packets;
  }

  lemma HandlerBegins(free: int -> bool, s: State, i: nat, t: State)
    requires s.vals < |s.tables| && i < |s.handlers| && HandlerNext(s, i) == Some(t)
    ensures Handled(free, t.begun) == Plus(Handled(free, s.begun), Began(free, s.handlers[i]))
  {
    hide HandlerNext;
    hide Handled;
    hide Split;
    hide Plus;
    BegunStep(s, i, t);
    PlusZero(Handled(free, s.begun));
    if s.handlers[i].HCalled? {
      HandledMore(free, s.begun, s.handlers[i].p);
    } else {
      assert s.begun + [] == s.begun;
    }
  }

  /** What a handler's step takes from what is unwritten it writes to the table. */
  lemma HandlerWrites(free: int -> bool, s: State, i: nat, t: State)
    requires s.vals < |s.tables| && i < |s.handlers| && HandlerNext(s, i) == Some(t)
    requires HandlerOk(s.handlers[i], i, s.valsMutex, s.tables[s.vals])
    ensures |t.handlers| == |s.handlers| && |t.tables| == |s.tables|
    ensures Plus(Plus(Unwritten(free, s.handlers[i]), AllTallied(free, s.tables[s.vals])),
                 Began(free, s.handlers[i])) ==
            Plus(Unwritten(free, t.handlers[i]), AllTallied(free, t.tables[s.vals]))
  {
    hide AllTallied;
    hide Split;
    var table := s.tables[s.vals];
    match s.handlers[i]
    case HAbsent(p) => TalliedAdd(free, table, p.address, Traffic(0, 0), Traffic(p.down, p.up));
    case HDownLoaded(p, x) =>
      TalliedAdd(free, table, p.address, table[p.address], Traffic(p.down, 0));
      SplitPlus(free, p.address, p.down, p.up);
    case HUpLoaded(p, x) => TalliedAdd(free, table, p.address, table[p.address], Traffic(0, p.up));
    case _ =>
  }

  lemma NothingTallied(free: int -> bool)
    ensures AllTallied(free, map[]) == ZERO
  {
    var none: Table := map[];
    assert none.Keys == {};
  }

  lemma TalliedOne(free: int -> bool, table: Table, keys: set<int>, key: int)
    requires key in keys && key in table
    ensures Tallied(free, table, keys) ==
            Plus(Plus(Split(free, key, Traffic(table[key].down, 0)), Split(free, key, Traffic(0, table[key].up))),
                 Tallied(free, table, keys - {key}))
  {
    SumRemove(keys, EntryOf(free, table), key);
    SplitPlus(free, key, table[key].down, table[key].up);
  }

  lemma NoneTallied(free: int -> bool, table: Table)
    ensures Tallied(free, table, {}) == ZERO
  {
  }

  lemma AllIsTallied(free: int -> bool, table: Table)
    ensures AllTallied(free, table) == Tallied(free, table, table.Keys)
  {
  }

  lemma Regroup(v: Counts, a: Counts, b: Counts, c: Counts)
    ensures Plus(v, Plus(Plus(a, b), c)) == Plus(Plus(Plus(v, a), b), c)
  {
  }

  lemma RealtimeMoves(free: int -> bool, s: State, key: int, t: State)
    requires Disciplined(s) && Disciplined(t) && RealtimeNext(free, s, key) == Some(t)
    ensures Nearby(free, s) == Nearby(free, t)
  {
    hide HandlersOk;
    hide MutexesOk;
    hide OutputKnows;
    hide AllTallied;
    hide Tallied;
    hide Split;
    hide Plus;
    hide From;
    hide Nth;
    hide WithNth;
    match s.realtime
    case RTaken(r) =>
      NothingTallied(free);
      PlusZero(AllTallied(free, s.tables[r]));
    case RReplaced(r) =>
      AllIsTallied(free, s.tables[r]);
      PlusZero(AllTallied(free, s.tables[r]));
    case RTally(r, keys, v) =>
      if keys == {} {
        NoneTallied(free, s.tables[r]);
        PlusZero(v);
      } else {
        var x := s.tables[r][key];
        TalliedOne(free, s.tables[r], keys, key);
        Regroup(v, Split(free, key, Traffic(x.down, 0)), Split(free, key, Traffic(0, x.up)),
                Tallied(free, s.tables[r], keys - {key}));
      }
    case RSummed(v) => FromAll(v);
    case RAdding(v, n) =>
      FromAll(v);
    case RLoaded(v, n, x) =>
      var sum, table := s.sums[s.totals], AllTallied(free, s.tables[s.vals]);
      NthMoves(sum, v, n);
      PlusSwap(table, From(v, n), sum);
      PlusSwap(table, From(v, n + 1), WithNth(sum, n, Nth(sum, n) + Nth(v, n)));
      PlusCommutes(From(v, n), sum);
      PlusCommutes(From(v, n + 1), WithNth(sum, n, Nth(sum, n) + Nth(v, n)));
    case _ =>
  }

  lemma OutputMoves(s: State, t: State)
    requires Disciplined(s) && OutputNext(s) == Some(t)
    ensures Disciplined(t)
    ensures Plus(s.sums[s.totals], Plus(InOutput(s), Sent(s.sent))) ==
            Plus(t.sums[t.totals], Plus(InOutput(t), Sent(t.sent)))
  {
    OutputDisciplined(s, t);
    hide HandlersOk;
    hide MutexesOk;
    hide RealtimeKnows;
    hide Plus;
    hide From;
    hide Nth;
    hide WithNth;
    match s.output
    case OTaken(r) =>
      PlusZero(Sent(s.sent));
      PlusZero(Plus(s.sums[r], Sent(s.sent)));
    case OEnded(r) =>
      FromAll(s.sums[r]);
      PlusZero(s.sums[r]);
    case OCopying(r, c, n) =>
      if n < 4 {
        CopyMoves(c, s.sums[r], n);
      } else {
        FromAll(s.sums[r]);
        PlusZero(c);
      }
    case OCopied(c) =>
      PlusZero(Plus(Sent(s.sent), c));
      PlusCommutes(Sent(s.sent), c);
    case _ =>
  }

  lemma Reckon(all: Counts, u: Counts, a: Counts, began: Counts, u1: Counts, a1: Counts,
               r: Counts, sum: Counts, out: Counts)
    requires all == Plus(Plus(u, Plus(Plus(a, r), sum)), out)
    requires Plus(Plus(u, a), began) == Plus(u1, a1)
    ensures Plus(all, began) == Plus(Plus(u1, Plus(Plus(a1, r), sum)), out)
  {
  }

  lemma InHandler(free: int -> bool, s: State, i: nat)
    requires i < |s.handlers|
    requires HandlerOk(s.handlers[i], i, s.valsMutex, if s.vals < |s.tables| then s.tables[s.vals] else map[])
    requires s.valsMutex in {Free, OfHandler(i)}
    ensures InHandlers(free, s) == Unwritten(free, s.handlers[i])
  {
  }

  lemma HandlerMovesBytes(free: int -> bool, s: State, i: nat, t: State)
    requires Disciplined(s) && Disciplined(t) && i < |s.handlers| && HandlerNext(s, i) == Some(t)
    requires Conserved(free, s)
    ensures Conserved(free, t)
  {
    hide HandlersOk;
    hide MutexesOk;
    hide AllTallied;
    hide Tallied;
    hide Split;
    hide Plus;
    hide From;
    HandlerIsOk(s.handlers, i, s.valsMutex, s.tables[s.vals]);
    HandlerStep(s, i, t);
    HandlerWrites(free, s, i, t);
    HandlerBegins(free, s, i, t);
    InHandler(free, s, i);
    InHandler(free, t, i);
    hide HandlerOk;
    hide HandlerNext;
    assert InRealtime(free, t) == InRealtime(free, s);
    hide InRealtime;
    Reckon(Handled(free, s.begun), Unwritten(free, s.handlers[i]), AllTallied(free, s.tables[s.vals]),
           Began(free, s.handlers[i]), Unwritten(free, t.handlers[i]), AllTallied(free, t.tables[s.vals]),
           InRealtime(free, s), s.sums[s.totals], Plus(InOutput(s), Sent(s.sent)));
  }

  lemma Move(h: Counts, x: Counts, y: Counts, sum: Counts, out: Counts, sum1: Counts, out1: Counts)
    requires Plus(sum, out) == Plus(sum1, out1)
    ensures Plus(Plus(h, Plus(Plus(x, y), sum)), out) == Plus(Plus(h, Plus(Plus(x, y), sum1)), out1)
  {
  }

  /** Bytes in places that the realtime thread never touches stay there. */
  lemma RealtimeFrame(free: int -> bool, s: State, key: int, t: State)
    requires Disciplined(s) && Disciplined(t) && RealtimeNext(free, s, key) == Some(t)
    ensures InHandlers(free, t) == InHandlers(free, s) && InOutput(t) == InOutput(s)
    ensures t.sent == s.sent && t.begun == s.begun
  {
    RealtimeExcludes(free, s, key, t);
    hide HandlersOk;
    hide HandlerKnows;
    hide MutexesOk;
    hide AllTallied;
    hide Tallied;
    hide Unwritten;
    hide From;
    hide Plus;
    hide WithNth;
    hide Nth;
    hide Split;
  }

  lemma RealtimeMovesBytes(free: int -> bool, s: State, key: int, t: State)
    requires Disciplined(s) && Disciplined(t) && RealtimeNext(free, s, key) == Some(t)
    requires Conserved(free, s)
    ensures Conserved(free, t)
  {
    RealtimeMoves(free, s, key, t);
    RealtimeFrame(free, s, key, t);
    hide RealtimeNext;
  }

  lemma OutputFrame(free: int -> bool, s: State, t: State)
    requires Disciplined(s) && Disciplined(t) && OutputNext(s) == Some(t)
    ensures InHandlers(free, t) == InHandlers(free, s) && InRealtime(free, t) == InRealtime(free, s)
    ensures t.vals == s.vals && t.tables == s.tables && t.begun == s.begun
  {
    hide HandlersOk;
    hide MutexesOk;
    hide AllTallied;
    hide Tallied;
    hide Unwritten;
    hide From;
    hide Plus;
    hide WithNth;
    hide Nth;
    hide Split;
  }

  lemma ConservedIs(free: int -> bool, s: State)
    requires Disciplined(s)
    ensures Conserved(free, s) <==>
            Handled(free, s.begun) ==
            Plus(Plus(InHandlers(free, s),
                      Plus(Plus(AllTallied(free, s.tables[s.vals]), InRealtime(free, s)), s.sums[s.totals])),
                 Plus(InOutput(s), Sent(s.sent)))
  {
  }

  lemma OutputMovesBytes(free: int -> bool, s: State, t: State)
    requires Disciplined(s) && Disciplined(t) && OutputNext(s) == Some(t)
    requires Conserved(free, s)
    ensures Conserved(free, t)
  {
    OutputMoves(s, t);
    OutputFrame(free, s, t);
    ConservedIs(free, s);
    ConservedIs(free, t);
    Move(InHandlers(free, s), AllTallied(free, s.tables[s.vals]), InRealtime(free, s),
         s.sums[s.totals], Plus(InOutput(s), Sent(s.sent)), t.sums[t.totals], Plus(InOutput(t), Sent(t.sent)));
  }

  lemma StepConserves(free: int -> bool, s: State, a: Action, t: State)
    requires Disciplined(s) && Conserved(free, s) && Next(free, s, a) == Some(t)
    ensures Disciplined(t) && Conserved(free, t)
  {
    Disciplines(free, s, a, t);
    hide HandlersOk;
    hide HandlerNext;
    hide RealtimeNext;
    hide OutputNext;
    hide Plus;
    hide Handled;
    match a
    case StepHandler(i) => HandlerMovesBytes(free, s, i, t);
    case StepRealtime(key) => RealtimeMovesBytes(free, s, key, t);
    case StepOutput => OutputMovesBytes(free, s, t);
    case _ =>
  }

  // ---------- the reports tile time ----------

  /** The time up to which reports have been, or are being, made. */
  function Mark(s: State): int {
    match s.output
    case OStarted(_) => s.start
    case OEnded(_) => s.start
    case OCopying(_, _, _) => s.start
    case OCopied(_) => s.start
    case _ => s.end
  }

  /** Reports that follow on each other from one time to another. */
  predicate Tiles(from: int, reports: seq<Report>, to: int) {
    if reports == [] then from == to
    else
      var last := reports[|reports| - 1];
      last.end == to && Tiles(from, reports[..|reports| - 1], last.start)
  }

  ghost predicate Timely(boot: int, s: State) {
    Tiles(boot, s.sent, Mark(s))
  }

  /** No report runs backwards, and none will if the clock does not go back. */
  ghost predicate Ordered(s: State) {
    Mark(s) <= s.end <= s.clock && forall i :: 0 <= i < |s.sent| ==> s.sent[i].start <= s.sent[i].end
  }

  lemma UntimedSteps(free: int -> bool, s: State, a: Action, t: State)
    requires Disciplined(s) && Next(free, s, a) == Some(t)
    requires a.StepHandler? || a.StepRealtime?
    ensures t.sent == s.sent && t.output == s.output && t.start == s.start && t.end == s.end && t.clock == s.clock
  {
    hide HandlersOk;
    hide RealtimeKnows;
    hide OutputKnows;
  }

  lemma StepIsTimely(boot: int, free: int -> bool, s: State, a: Action, t: State)
    requires Disciplined(s) && Timely(boot, s) && Next(free, s, a) == Some(t)
    ensures Timely(boot, t)
  {
    hide HandlersOk;
    hide RealtimeKnows;
    hide MutexesOk;
    hide HandlerNext;
    hide RealtimeNext;
    if a.StepHandler? || a.StepRealtime? {
      UntimedSteps(free, s, a, t);
    }
    if a.StepOutput? && s.output.OCopied? {
      assert t.sent[..|s.sent|] == s.sent;
    }
  }

  lemma StepIsOrdered(free: int -> bool, s: State, a: Action, t: State)
    requires Disciplined(s) && Ordered(s) && Next(free, s, a) == Some(t)
    requires a.Tick? ==> a.now >= s.clock
    ensures Ordered(t)
  {
    hide HandlersOk;
    hide RealtimeKnows;
    hide MutexesOk;
    hide HandlerNext;
    hide RealtimeNext;
    if a.StepHandler? || a.StepRealtime? {
      UntimedSteps(free, s, a, t);
    }
  }

  lemma {:induction false} TilesFollow(boot: int, reports: seq<Report>, to: int)
    requires Tiles(boot, reports, to)
    ensures reports != [] ==> reports[0].start == boot && reports[|reports| - 1].end == to
    ensures forall i :: 0 <= i < |reports| - 1 ==> reports[i].end == reports[i + 1].start
  {
    if reports == [] {
    } else {
      var n := |reports| - 1;
      TilesFollow(boot, reports[..n], reports[n].start);
    }
  }

  // ---------- whole runs ----------

  ghost predicate Running(free: int -> bool, boot: int, s: State) {
    Disciplined(s) && Conserved(free, s) && Timely(boot, s)
  }

  ghost predicate IsRun(free: int -> bool, n: nat, boot: int, states: seq<State>, actions: seq<Action>) {
    && |states| == |actions| + 1 && states[0] == Initial(n, boot)
    && forall i :: 0 <= i < |actions| ==>
         && states[i].vals < |states[i].tables| && states[i].totals < |states[i].sums|
         && Next(free, states[i], actions[i]) == Some(states[i + 1])
  }

  lemma OnlySent(h: Counts, a: Counts, r: Counts, sum: Counts, out: Counts, sent: Counts)
    requires h == a == r == sum == out == ZERO
    ensures Plus(Plus(h, Plus(Plus(a, r), sum)), Plus(out, sent)) == sent
  {
    hide Plus;
    PlusZero(ZERO);
    PlusZero(sent);
  }

  lemma StartsConserved(free: int -> bool, n: nat, boot: int)
    requires Disciplined(Initial(n, boot))
    ensures Conserved(free, Initial(n, boot))
  {
    hide HandlersOk;
    hide MutexesOk;
    hide Conserved;
    hide AllTallied;
    hide Plus;
    ConservedIs(free, Initial(n, boot));
    NothingTallied(free);
    OnlySent(ZERO, ZERO, ZERO, ZERO, ZERO, ZERO);
  }

  lemma StartsDisciplined(n: nat, boot: int)
    ensures Disciplined(Initial(n, boot))
  {
    assert HandlersOk(seq(n, _ => HIdle), Free, map[]);
    hide HandlersOk;
  }

  lemma Starts(free: int -> bool, n: nat, boot: int)
    ensures Running(free, boot, Initial(n, boot))
  {
    var s := Initial(n, boot);
    hide Disciplined;
    hide Conserved;
    StartsDisciplined(n, boot);
    StartsConserved(free, n, boot);
  }

  lemma {:induction false} EveryState(free: int -> bool, n: nat, boot: int, states: seq<State>, actions: seq<Action>,
                                      i: nat)
    requires IsRun(free, n, boot, states, actions) && i <= |actions|
    ensures Running(free, boot, states[i])
  {
    hide Next;
    hide Disciplined;
    hide Conserved;
    hide Timely;
    if i == 0 {
      Starts(free, n, boot);
    } else {
      EveryState(free, n, boot, states, actions, i - 1);
      StepConserves(free, states[i - 1], actions[i - 1], states[i]);
      StepIsTimely(boot, free, states[i - 1], actions[i - 1], states[i]);
    }
  }

  /** In the first i actions the clock does not go back. */
  ghost predicate ClockAdvances(states: seq<State>, actions: seq<Action>, i: nat)
    requires |states| == |actions| + 1 && i <= |actions|
  {
    forall j :: 0 <= j < i && actions[j].Tick? ==> actions[j].now >= states[j].clock
  }

  /** As long as the clock does not go back, no report ends before it starts. */
  lemma {:induction false} ReportsOrdered(free: int -> bool, n: nat, boot: int, states: seq<State>,
                                          actions: seq<Action>, i: nat)
    requires IsRun(free, n, boot, states, actions) && i <= |actions|
    requires ClockAdvances(states, actions, i)
    ensures Ordered(states[i])
  {
    hide Next;
    hide Disciplined;
    hide Conserved;
    hide Timely;
    if i == 0 {
    } else {
      ReportsOrdered(free, n, boot, states, actions, i - 1);
      EveryState(free, n, boot, states, actions, i - 1);
      StepIsOrdered(free, states[i - 1], actions[i - 1], states[i]);
    }
  }

  /** Before state i the clock showed a time while output was about to end its j-th pass. */
  ghost predicate ClockShown(states: seq<State>, i: nat, j: nat, time: int)
    requires i < |states|
  {
    exists m :: 0 <= m < i && states[m].output.OStarted? && |states[m].sent| == j && states[m].clock == time
  }

  /** Each report sent, and the one being made, ends at a time that the clock showed during its own pass. */
  ghost predicate EndsRead(states: seq<State>, i: nat)
    requires i < |states|
  {
    var s := states[i];
    && (forall j :: 0 <= j < |s.sent| ==> ClockShown(states, i, j, s.sent[j].end))
    && (s.output.OEnded? || s.output.OCopying? || s.output.OCopied? ==> ClockShown(states, i, |s.sent|, s.end))
  }

  lemma ShownBefore(states: seq<State>, i: nat, j: nat, time: int)
    requires i + 1 < |states| && ClockShown(states, i, j, time)
    ensures ClockShown(states, i + 1, j, time)
  {
  }

  lemma ShownNow(states: seq<State>, i: nat)
    requires i + 1 < |states| && states[i].output.OStarted?
    ensures ClockShown(states, i + 1, |states[i].sent|, states[i].clock)
  {
  }

  lemma EndsStep(free: int -> bool, states: seq<State>, a: Action, i: nat)
    requires i + 1 < |states| && Disciplined(states[i]) && Next(free, states[i], a) == Some(states[i + 1])
    requires EndsRead(states, i)
    ensures EndsRead(states, i + 1)
  {
    hide HandlersOk;
    hide RealtimeKnows;
    hide MutexesOk;
    hide HandlerNext;
    hide RealtimeNext;
    hide ClockShown;
    var s, t := states[i], states[i + 1];
    if a.StepHandler? || a.StepRealtime? {
      UntimedSteps(free, s, a, t);
    }
    forall j, time | ClockShown(states, i, j, time)
      ensures ClockShown(states, i + 1, j, time)
    {
      ShownBefore(states, i, j, time);
    }
    if a.StepOutput? && s.output.OStarted? {
      ShownNow(states, i);
    }
  }

  lemma {:induction false} EndsAreRead(free: int -> bool, n: nat, boot: int, states: seq<State>, actions: seq<Action>,
                                       i: nat)
    requires IsRun(free, n, boot, states, actions) && i <= |actions|
    ensures EndsRead(states, i)
  {
    hide Next;
    hide Disciplined;
    hide Conserved;
    hide Timely;
    if i == 0 {
    } else {
      EndsAreRead(free, n, boot, states, actions, i - 1);
      EveryState(free, n, boot, states, actions, i - 1);
      EndsStep(free, states, actions[i - 1], i - 1);
    }
  }

  /**
    Over every interleaving: no two threads are inside sections of one mutex; every byte handled is
    unwritten in a handler, in the current table, with realtime, in the totals, with output, or sent,
    metered and unmetered apart; and the reports sent tile time, whatever the clock shows, and run
    forward as long as it does not go back.
   */
  lemma EveryRun(free: int -> bool, n: nat, boot: int, states: seq<State>, actions: seq<Action>, i: nat)
    requires IsRun(free, n, boot, states, actions) && i <= |actions|
    ensures var s := states[i];
            && Disciplined(s)
            && (forall j: nat, k: nat | j < |s.handlers| && k < |s.handlers| ::
                  (HandlerHolds(s.handlers[j]) && HandlerHolds(s.handlers[k])) ==> j == k)
            && (forall j: nat :: j < |s.handlers| && HandlerHolds(s.handlers[j]) ==> !RealtimeHoldsVals(s.realtime))
            && !(RealtimeHoldsTotals(s.realtime) && OutputHolds(s.output))
            && Handled(free, s.begun) ==
               Plus(Plus(InHandlers(free, s),
                         Plus(Plus(AllTallied(free, s.tables[s.vals]), InRealtime(free, s)), s.sums[s.totals])),
                    Plus(InOutput(s), Sent(s.sent)))
            && CountsByField(free, s.begun, Handled(free, s.begun))
            && (s.sent != [] ==> s.sent[0].start == boot)
            && (forall j :: 0 <= j < |s.sent| - 1 ==> s.sent[j].end == s.sent[j + 1].start)
            && (forall j :: 0 <= j < |s.sent| ==> ClockShown(states, i, j, s.sent[j].end))
            && (ClockAdvances(states, actions, i) ==>
                  forall j :: 0 <= j < |s.sent| ==> s.sent[j].start <= s.sent[j].end)
  {
    hide Next;
    hide ClockAdvances;
    hide ClockShown;
    hide CountsByField;
    var s := states[i];
    HandledByField(free, s.begun);
    EndsAreRead(free, n, boot, states, actions, i);
    EveryState(free, n, boot, states, actions, i);
    TilesFollow(boot, s.sent, Mark(s));
    if ClockAdvances(states, actions, i) {
      ReportsOrdered(free, n, boot, states, actions, i);
    }
    hide IsRun;
    assert forall j: nat :: j < |s.handlers| ==> HandlerOk(s.handlers[j], j, s.valsMutex, s.tables[s.vals]);
  }

  ghost function OneOf<T(!new)>(ts: set<T>): (t: T)
    requires ts != {}
    ensures t in ts
  {
    var t :| t in ts;
    t
  }

  /** All threads wait for a packet or a timer. */
  predicate Quiet(s: State) {
    s.realtime == RIdle && s.output == OIdle && forall i :: 0 <= i < |s.handlers| ==> s.handlers[i] == HIdle
  }

  /** Unless all threads wait for a packet or a timer, one of them can take a step: the mutexes cannot deadlock. */
  lemma NeverStuck(free: int -> bool, s: State)
    requires Disciplined(s) && !Quiet(s)
    ensures exists a: Action :: (a.StepHandler? || a.StepRealtime? || a.StepOutput?) && Next(free, s, a).Some?
  {
    if s.valsMutex.OfHandler? {
      HandlerIsOk(s.handlers, s.valsMutex.i, s.valsMutex, s.tables[s.vals]);
      assert Next(free, s, StepHandler(s.valsMutex.i)).Some?;
    } else if s.valsMutex == OfRealtime || s.totalsMutex == OfRealtime {
      assert Next(free, s, StepRealtime(0)).Some?;
    } else if s.totalsMutex == OfOutput || s.output != OIdle {
      assert Next(free, s, StepOutput).Some?;
    } else if s.realtime != RIdle {
      var key := if s.realtime.RTally? && s.realtime.keys != {} then OneOf(s.realtime.keys) else 0;
      assert Next(free, s, StepRealtime(key)).Some?;
    } else {
      var i :| 0 <= i < |s.handlers| && s.handlers[i] != HIdle;
      HandlerIsOk(s.handlers, i, s.valsMutex, s.tables[s.vals]);
      assert Next(free, s, StepHandler(i)).Some?;
    }
  }

  lemma NoneInHandlers(free: int -> bool, s: State)
    requires Disciplined(s) && Quiet(s)
    ensures InHandlers(free, s) == ZERO
  {
    if s.valsMutex.OfHandler? {
      HandlerIsOk(s.handlers, s.valsMutex.i, s.valsMutex, s.tables[s.vals]);
    }
  }

  lemma RestSends(free: int -> bool, s: State)
    requires Disciplined(s) && Conserved(free, s)
    requires Quiet(s) && s.tables[s.vals] == map[] && s.sums[s.totals] == ZERO
    ensures Handled(free, s.begun) == Sent(s.sent)
  {
    hide HandlersOk;
    hide MutexesOk;
    hide Conserved;
    hide AllTallied;
    hide Handled;
    hide Sent;
    hide InHandlers;
    hide Plus;
    ConservedIs(free, s);
    NothingTallied(free);
    NoneInHandlers(free, s);
    OnlySent(InHandlers(free, s), AllTallied(free, s.tables[s.vals]), InRealtime(free, s), s.sums[s.totals],
             InOutput(s), Sent(s.sent));
  }

  /** At rest with an empty table and nothing in the totals, everything handled has been sent. */
  lemma AllSent(free: int -> bool, n: nat, boot: int, states: seq<State>, actions: seq<Action>, i: nat)
    requires IsRun(free, n, boot, states, actions) && i <= |actions|
    ensures var s := states[i];
            && s.vals < |s.tables| && s.totals < |s.sums|
            && (Quiet(s) && s.tables[s.vals] == map[] && s.sums[s.totals] == ZERO ==>
                  Handled(free, s.begun) == Sent(s.sent))
  {
    var s := states[i];
    EveryState(free, n, boot, states, actions, i);
    hide IsRun;
    hide Timely;
    hide Conserved;
    hide HandlersOk;
    if Quiet(s) && s.tables[s.vals] == map[] && s.sums[s.totals] == ZERO {
      RestSends(free, s);
    }
  }
}
