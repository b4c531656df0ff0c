/** The address filter of the daemon: a four-level linked structure read from a list, and its search. */
module IpFilter {
  import opened Bits

  /**
    Filter.hx. The two ghost fields say where a node stands: its level, and the index of the line it
    was made for.
   */
  class Filter {
    var min: int
    var max: int
    var child: Filter?
    var next: Filter?
    ghost var level: nat
    ghost var born: nat

    constructor (ghost l: nat, ghost b: nat)
      ensures min == 0 && max == 0 && child == null && next == null
      ensures level == l && born == b
    {
      min, max, child, next := 0, 0, null, null;
      level, born := l, b;
    }
  }

  /** A parsed line: four octets of up to three digits, and a prefix length that may be missing. */
  datatype Prefix = Missing | Length(p: nat)
  datatype Line = Line(i1: nat, i2: nat, i3: nat, i4: nat, prefix: Prefix)

  function PrefixLength(line: Line): nat {
    match line.prefix
    case Missing => 32
    case Length(p) => if p == 0 then 32 else p
  }

  /** Math.floor(Math.pow(2, 32 - p)). */
  function Span(p: nat): nat {
    if p <= 32 then Pow2(32 - p) else 0
  }

  datatype Octets = Octets(a: int, b: int, c: int, d: int)

  /** An address is packed with its first octet in the lowest byte. */
  function SplitIp(ip: int): Octets {
    Octets(ip % 256, ip / 0x100 % 256, ip / 0x1_0000 % 256, ip / 0x100_0000 % 256)
  }

  function OctetAt(o: Octets, level: nat): int {
    if level == 0 then o.a else if level == 1 then o.b else if level == 2 then o.c else o.d
  }

  /** Bounds of the node that a line asks for at a level. */
  function Min(line: Line, level: nat): int {
    if level == 0 then line.i1 else if level == 1 then line.i2 else if level == 2 then line.i3 else line.i4
  }

  function Max(line: Line, level: nat): int {
    if level < 3 then Min(line, level) else line.i4 + Span(PrefixLength(line)) - 1
  }

  predicate Hit(line: Line, level: nat, o: Octets) {
    Min(line, level) <= OctetAt(o, level) <= Max(line, level)
  }

  /** What a line covers: the octets must agree in all but the last, which lies in a range. */
  predicate Covers(line: Line, o: Octets) {
    && o.a == line.i1 && o.b == line.i2 && o.c == line.i3
    && line.i4 <= o.d <= line.i4 + Span(PrefixLength(line)) - 1
  }

  /**
    What a line says of a packed address, as it is written: a missing prefix or one of 0 names one
    address, and one of p bits the 2^(32 - p) values of the last octet from the one written.
   */
  predicate Names(line: Line, ip: int) {
    && ip % 256 == line.i1 && ip / 0x100 % 256 == line.i2 && ip / 0x1_0000 % 256 == line.i3
    && var last := ip / 0x100_0000 % 256;
       match line.prefix
       case Missing => last == line.i4
       case Length(p) =>
         if p == 0 then last == line.i4 else p <= 32 && line.i4 <= last < line.i4 + Pow2(32 - p)
  }

  lemma CoversAsWritten(line: Line, ip: int)
    ensures Covers(line, SplitIp(ip)) <==> Names(line, ip)
  {
    assert Pow2(0) == 1;
  }

  /** The octets of an address in the order of its notation, for negative integers too. */
  lemma SplitExample()
    ensures SplitIp(0x0403_0201) == Octets(1, 2, 3, 4) && SplitIp(-2) == Octets(254, 255, 255, 255)
  {
  }

  lemma CoversIsHits(line: Line, o: Octets)
    ensures Covers(line, o) <==> forall level: nat :: level < 4 ==> Hit(line, level, o)
  {
    if forall level: nat :: level < 4 ==> Hit(line, level, o) {
      assert Hit(line, 0, o) && Hit(line, 1, o) && Hit(line, 2, o) && Hit(line, 3, o);
    }
  }

  // ---------- the shape of the structure ----------

  /** Line i shares its node of this level with the line before it. */
  predicate Same(lines: seq<Line>, level: nat, i: nat)
    requires i < |lines|
  {
    && i > 0 && level < 3
    && lines[i].i1 == lines[i - 1].i1
    && (level >= 1 ==> lines[i].i2 == lines[i - 1].i2)
    && (level >= 2 ==> lines[i].i3 == lines[i - 1].i3)
  }

  /** Line i's node of this level is in the same list as the node of the line before it. */
  predicate Linked(lines: seq<Line>, level: nat, i: nat)
    requires i < |lines|
  {
    level == 0 || Same(lines, level - 1, i)
  }

  /** First line of the run of lines sharing line i's node. */
  function Start(lines: seq<Line>, level: nat, i: nat): (s: nat)
    requires i < |lines|
    ensures s <= i && !Same(lines, level, s)
    ensures forall j :: s < j <= i ==> Same(lines, level, j)
  {
    if Same(lines, level, i) then Start(lines, level, i - 1) else i
  }

  /** First line after that run. */
  function RunEnd(lines: seq<Line>, level: nat, i: nat): (e: nat)
    requires i < |lines|
    ensures i < e <= |lines|
    ensures e < |lines| ==> !Same(lines, level, e)
    ensures forall j :: i < j < e ==> Same(lines, level, j)
    decreases |lines| - i
  {
    if i + 1 == |lines| || !Same(lines, level, i + 1) then i + 1 else RunEnd(lines, level, i + 1)
  }

  /** nodes[level][i] is the node of line i at a level. */
  type Nodes = seq<seq<Filter>>

  /** The fields of a node, as a value. */
  datatype Fields = Fields(min: int, max: int, child: Filter?, next: Filter?, level: nat, born: nat)

  ghost function FieldsOf(n: Filter): Fields
    reads n
  {
    Fields(n.min, n.max, n.child, n.next, n.level, n.born)
  }

  /** v are the fields that line i's node of a level has when the structure stands for k lines. */
  ghost predicate Fits(lines: seq<Line>, k: nat, level: nat, nodes: Nodes, i: nat, v: Fields)
    requires i < k <= |lines| && level < 4 && |nodes| == 4 && forall l :: 0 <= l < 4 ==> |nodes[l]| == k
  {
    && v.level == level && v.born == Start(lines, level, i)
    && v.min == Min(lines[i], level) && v.max == Max(lines[i], level)
    && (Same(lines, level, i) ==> nodes[level][i] == nodes[level][i - 1])
    && (!Same(lines, level, i) && level < 3 ==> v.child == nodes[level + 1][i])
    && (i + 1 == k ==> v.next == null)
    && (i + 1 < k && !Same(lines, level, i + 1) ==>
          v.next == if Linked(lines, level, i + 1) then nodes[level][i + 1] else null)
  }

  ghost predicate NodeFits(lines: seq<Line>, k: nat, level: nat, nodes: Nodes, i: nat)
    requires i < k <= |lines| && level < 4 && |nodes| == 4 && forall l :: 0 <= l < 4 ==> |nodes[l]| == k
    reads nodes[level]
  {
    Fits(lines, k, level, nodes, i, FieldsOf(nodes[level][i]))
  }

  ghost function NodeSet(nodes: Nodes): set<Filter> {
    set l, i | 0 <= l < |nodes| && 0 <= i < |nodes[l]| :: nodes[l][i]
  }

  /** The structure stands for the first k lines. */
  ghost predicate Built(lines: seq<Line>, k: nat, nodes: Nodes)
    reads NodeSet(nodes)
  {
    && k <= |lines| && |nodes| == 4 && (forall l :: 0 <= l < 4 ==> |nodes[l]| == k)
    && forall l: nat, i: nat :: l < 4 && i < k ==> NodeFits(lines, k, l, nodes, i)
  }

  // ---------- the search ----------

  /** All lines of a run share one node. */
  lemma {:induction false} RunShares(lines: seq<Line>, nodes: Nodes, level: nat, i: nat, j: nat)
    requires Built(lines, |lines|, nodes) && level < 4 && i <= j < |lines|
    requires forall m :: i < m <= j ==> Same(lines, level, m)
    ensures nodes[level][j] == nodes[level][i]
  {
    if i < j {
      RunShares(lines, nodes, level, i, j - 1);
      assert NodeFits(lines, |lines|, level, nodes, j);
    }
  }

  /** The successor of a node heads the next run of its list, or is null at the end of the list. */
  lemma NextOfRun(lines: seq<Line>, nodes: Nodes, level: nat, i: nat, e: nat)
    requires Built(lines, |lines|, nodes) && level < 4 && i < e <= |lines|
    requires forall m :: i < m < e ==> Same(lines, level, m)
    requires e < |lines| ==> !Same(lines, level, e)
    ensures nodes[level][i].next ==
            if e < |lines| && Linked(lines, level, e) then nodes[level][e] else null
  {
    RunShares(lines, nodes, level, i, e - 1);
    assert NodeFits(lines, |lines|, level, nodes, e - 1);
  }

  /** Agreeing with one line of a run at a level above its own is agreeing with all of them. */
  lemma {:induction false} RunAgrees(lines: seq<Line>, level: nat, i: nat, j: nat, o: Octets)
    requires level < 3 && i <= j < |lines|
    requires forall m :: i < m <= j ==> Same(lines, level, m)
    ensures Hit(lines[i], level, o) <==> Hit(lines[j], level, o)
  {
    if i < j {
      RunAgrees(lines, level, i, j - 1, o);
      assert Same(lines, level, j);
    }
  }

  ghost predicate NoneBefore(lines: seq<Line>, pos: nat, o: Octets)
    requires pos <= |lines|
  {
    forall i :: 0 <= i < pos ==> !Covers(lines[i], o)
  }

  /** Every level above holds the successor of line pos's node there, and agrees with the address. */
  ghost predicate Above(lines: seq<Line>, nodes: Nodes, f: seq<Filter?>, level: int, pos: nat, o: Octets)
    requires Built(lines, |lines|, nodes) && |f| == 4 && level <= 4 && pos < |lines|
    reads NodeSet(nodes)
  {
    forall m: nat :: m < level ==> f[m] == nodes[m][pos].next && Hit(lines[pos], m, o)
  }

  /** The search is at the node of line pos, whose run starts there; all earlier lines miss. */
  ghost predicate Standing(lines: seq<Line>, nodes: Nodes, f: seq<Filter?>, level: int, pos: nat, o: Octets)
    requires Built(lines, |lines|, nodes) && |f| == 4
    reads NodeSet(nodes)
  {
    && 0 <= level < 4 && pos < |lines| && !Same(lines, level, pos)
    && f[level] == nodes[level][pos]
    && Above(lines, nodes, f, level, pos, o)
    && NoneBefore(lines, pos, o)
  }

  /** The search is past the node of line pos: the lines up to e, where its run ends, all miss. */
  ghost predicate Exhausted(lines: seq<Line>, nodes: Nodes, f: seq<Filter?>, level: int, pos: nat, e: nat, o: Octets)
    requires Built(lines, |lines|, nodes) && |f| == 4
    reads NodeSet(nodes)
  {
    && -1 <= level < 4 && pos < e <= |lines| && NoneBefore(lines, e, o)
    && if level == -1 then e == |lines| else
      && (forall j :: pos < j < e ==> Same(lines, level, j))
      && (e < |lines| ==> !Same(lines, level, e))
      && f[level] == nodes[level][pos].next
      && Above(lines, nodes, f, level, pos, o)
  }

  lemma Descend(lines: seq<Line>, nodes: Nodes, f: seq<Filter?>, level: int, pos: nat, o: Octets)
    requires Built(lines, |lines|, nodes) && |f| == 4 && Standing(lines, nodes, f, level, pos, o)
    requires level < 3 && Hit(lines[pos], level, o)
    ensures var n := nodes[level][pos];
            Standing(lines, nodes, f[level + 1 := n.child][level := n.next], level + 1, pos, o)
  {
    assert NodeFits(lines, |lines|, level, nodes, pos);
  }

  lemma Skip(lines: seq<Line>, nodes: Nodes, f: seq<Filter?>, level: int, pos: nat, o: Octets)
    requires Built(lines, |lines|, nodes) && |f| == 4 && Standing(lines, nodes, f, level, pos, o)
    requires !Hit(lines[pos], level, o)
    ensures var e := RunEnd(lines, level, pos);
            Exhausted(lines, nodes, f[level := nodes[level][pos].next], level, pos, e, o)
  {
    var e := RunEnd(lines, level, pos);
    forall j | pos <= j < e
      ensures !Covers(lines[j], o)
    {
      if level < 3 {
        RunAgrees(lines, level, pos, j, o);
      }
      CoversIsHits(lines[j], o);
    }
  }

  lemma Pop(lines: seq<Line>, nodes: Nodes, f: seq<Filter?>, level: int, pos: nat, e: nat, o: Octets)
    requires Built(lines, |lines|, nodes) && |f| == 4 && Exhausted(lines, nodes, f, level, pos, e, o)
    requires level >= 0 && f[level] == null
    ensures Exhausted(lines, nodes, f, level - 1, pos, e, o)
  {
    NextOfRun(lines, nodes, level, pos, e);
    if level > 0 {
      var up := level - 1;
      forall j | pos < j < e
        ensures Same(lines, up, j)
      {
        assert Same(lines, level, j);
      }
      assert e < |lines| ==> !Linked(lines, level, e);
    }
  }

  lemma Resume(lines: seq<Line>, nodes: Nodes, f: seq<Filter?>, level: int, pos: nat, e: nat, o: Octets)
    requires Built(lines, |lines|, nodes) && |f| == 4 && Exhausted(lines, nodes, f, level, pos, e, o)
    requires level >= 0 && f[level] != null
    ensures Standing(lines, nodes, f, level, e, o)
  {
    NextOfRun(lines, nodes, level, pos, e);
    forall m: nat | m < level
      ensures f[m] == nodes[m][e].next && Hit(lines[e], m, o)
    {
      forall j | pos < j <= e
        ensures Same(lines, m, j)
      {
        assert if j < e then Same(lines, level, j) else Linked(lines, level, e);
      }
      RunShares(lines, nodes, m, pos, e);
      RunAgrees(lines, m, pos, e, o);
    }
  }

  /** The entry point: the first line's top node, or a node without links when there are no lines. */
  ghost predicate HeadOf(head: Filter, lines: seq<Line>, nodes: Nodes)
    requires Built(lines, |lines|, nodes)
    reads head, NodeSet(nodes)
  {
    if lines == [] then head.child == null && head.next == null else head == nodes[0][0]
  }

  lemma Begin(lines: seq<Line>, nodes: Nodes, f: seq<Filter?>, head: Filter, o: Octets)
    requires Built(lines, |lines|, nodes) && HeadOf(head, lines, nodes) && lines != []
    requires |f| == 4 && f[0] == head
    ensures Standing(lines, nodes, f, 0, 0, o)
  {
  }

  /** The node stood at has the bounds that line pos asks for, and above the last level a child. */
  lemma StandingAt(lines: seq<Line>, nodes: Nodes, f: seq<Filter?>, level: int, pos: nat, o: Octets)
    requires Built(lines, |lines|, nodes) && |f| == 4 && Standing(lines, nodes, f, level, pos, o)
    ensures 0 <= level < 4 && pos < |lines|
    ensures f[level] != null && f[level] == nodes[level][pos]
    ensures f[level].min <= OctetAt(o, level) <= f[level].max <==> Hit(lines[pos], level, o)
    ensures level < 3 ==> f[level].child != null
    ensures level == 3 && Hit(lines[pos], level, o) ==> Covers(lines[pos], o)
  {
    assert NodeFits(lines, |lines|, level, nodes, pos);
    CoversIsHits(lines[pos], o);
  }

  lemma ExhaustedAt(lines: seq<Line>, nodes: Nodes, f: seq<Filter?>, level: int, pos: nat, e: nat, o: Octets)
    requires Built(lines, |lines|, nodes) && |f| == 4 && Exhausted(lines, nodes, f, level, pos, e, o)
    ensures -1 <= level < 4 && pos < e <= |lines|
    ensures level == -1 ==> e == |lines| && NoneBefore(lines, e, o)
  {
  }

  /** match, on the structure built from a list of lines: whether some line covers the address. */
  method Match(filter: Filter?, ip: int, ghost lines: seq<Line>, ghost nodes: Nodes) returns (found: bool)
    requires filter != null ==> Built(lines, |lines|, nodes) && HeadOf(filter, lines, nodes)
    ensures found <==> filter != null && exists k :: 0 <= k < |lines| && Covers(lines[k], SplitIp(ip))
  {
    hide NodeFits;
    hide Standing;
    hide Exhausted;
    hide Above;
    hide Hit;
    hide Covers;
    hide RunEnd;
    hide SplitIp;
    var part := SplitIp(ip);
    var i := [part.a, part.b, part.c, part.d];
    if filter == null {
      return false;
    }
    var f: seq<Filter?> := [filter, null, null, null];
    var level := 0;
    ghost var pos := 0;
    if lines != [] {
      Begin(lines, nodes, f, filter, part);
    }
    while level != -1
      invariant -1 <= level < |f| == 4 && pos <= |lines|
      invariant lines == [] && level >= 0 ==> level == 0 && f[0] == filter
      invariant lines != [] && level >= 0 ==> Standing(lines, nodes, f, level, pos, part)
      invariant level == -1 ==> pos == |lines| && NoneBefore(lines, |lines|, part)
      decreases if level == -1 then 0 else |lines| - pos + 1, 4 - level
    {
      ghost var e, missed, depth := |lines|, true, level;
      if lines != [] {
        StandingAt(lines, nodes, f, level, pos, part);
      }
      if f[level].min <= i[level] && f[level].max >= i[level] {
        if level == 3 {
          return true;
        }
        if lines != [] {
          Descend(lines, nodes, f, level, pos, part);
          missed := false;
        }
        f := f[level + 1 := f[level].child];
        f := f[level := f[level].next];
        level := level + 1;
      } else {
        if lines != [] {
          assert !Hit(lines[pos], level, part);
          Skip(lines, nodes, f, level, pos, part);
          e := RunEnd(lines, level, pos);
        }
        f := f[level := f[level].next];
      }
      while level > -1 && f[level] == null
        invariant -1 <= level < |f| == 4
        invariant lines == [] ==> forall m :: 0 <= m <= level ==> f[m] == null
        invariant lines != [] && missed ==> Exhausted(lines, nodes, f, level, pos, e, part)
        invariant lines != [] && !missed ==>
            level == depth + 1 && f[level] != null && Standing(lines, nodes, f, level, pos, part)
      {
        if lines != [] {
          Pop(lines, nodes, f, level, pos, e, part);
        }
        level := level - 1;
      }
      if lines != [] && missed {
        ExhaustedAt(lines, nodes, f, level, pos, e, part);
        if level >= 0 {
          Resume(lines, nodes, f, level, pos, e, part);
        }
        pos := e;
      }
    }
    return false;
  }

  // ---------- the reader ----------

  /** The first level at which line k needs a node of its own. */
  function Branch(lines: seq<Line>, k: nat): (d: nat)
    requires k < |lines|
    ensures d < 4
    ensures forall level: nat :: level < 4 ==> (Same(lines, level, k) <==> level < d)
  {
    if !Same(lines, 0, k) then 0 else if !Same(lines, 1, k) then 1 else if !Same(lines, 2, k) then 2 else 3
  }

  ghost function Appended(nodes: Nodes, f: seq<Filter>): Nodes
    requires |nodes| == |f| == 4
  {
    [nodes[0] + [f[0]], nodes[1] + [f[1]], nodes[2] + [f[2]], nodes[3] + [f[3]]]
  }

  ghost predicate Shaped(lines: seq<Line>, k: nat, nodes: Nodes) {
    k <= |lines| && |nodes| == 4 && forall l :: 0 <= l < 4 ==> |nodes[l]| == k
  }

  /** The nodes of the structure had the fields was, fitting k lines. */
  ghost predicate Fitted(lines: seq<Line>, k: nat, nodes: Nodes, was: map<Filter, Fields>) {
    && Shaped(lines, k, nodes)
    && forall l: nat, i: nat :: l < 4 && i < k ==>
         nodes[l][i] in was && Fits(lines, k, l, nodes, i, was[nodes[l][i]])
  }

  function NewFields(line: Line, k: nat, level: nat, child: Filter?): Fields {
    Fields(Min(line, level), Max(line, level), child, null, level, k)
  }

  /** Node l of f is as made for line k, with the next of f below it. */
  ghost predicate NewAt(line: Line, k: nat, l: nat, f: seq<Filter>)
    requires l < |f| == 4
    reads f
  {
    FieldsOf(f[l]) == NewFields(line, k, l, if l < 3 then f[l + 1] else null)
  }

  /**
    What line k changes: from level Branch on there are new nodes f, hung below each other, and the
    first of them follows the last node of its level. No other link of the structure changes.
   */
  ghost predicate Grown(lines: seq<Line>, k: nat, nodes: Nodes, was: map<Filter, Fields>, f: seq<Filter>)
    requires 0 < k < |lines| && Fitted(lines, k, nodes, was) && |f| == 4
    reads was.Keys, f
  {
    var d := Branch(lines, k);
    && (forall n :: n in was ==> FieldsOf(n) == if n == nodes[d][k - 1] then was[n].(next := f[d]) else was[n])
    && (forall l :: 0 <= l < d ==> f[l] == nodes[l][k - 1])
    && (forall l: nat :: d <= l < 4 ==> NewAt(lines[k], k, l, f))
  }

  /** The fields of an earlier node now: only the last node of level Branch has a new successor. */
  lemma FieldsNow(lines: seq<Line>, k: nat, nodes: Nodes, was: map<Filter, Fields>, f: seq<Filter>, l: nat, i: nat)
    requires 0 < k < |lines| && Fitted(lines, k, nodes, was) && |f| == 4
    requires Grown(lines, k, nodes, was, f) && l < 4 && i < k
    ensures nodes[l][i] in was && Fits(lines, k, l, nodes, i, was[nodes[l][i]])
    ensures l == Branch(lines, k) && (i == k - 1 || Start(lines, l, i) == Start(lines, l, k - 1)) ==>
              FieldsOf(nodes[l][i]) == if nodes[l][i] == nodes[l][k - 1] then was[nodes[l][i]].(next := f[l])
                                       else was[nodes[l][i]]
    ensures l != Branch(lines, k) || Start(lines, l, i) != Start(lines, l, k - 1) ==>
              FieldsOf(nodes[l][i]) == was[nodes[l][i]]
  {
    hide Min;
    hide Max;
    hide Start;
    var d := Branch(lines, k);
    assert Fits(lines, k, l, nodes, i, was[nodes[l][i]]);
    assert Fits(lines, k, d, nodes, k - 1, was[nodes[d][k - 1]]);
  }

  lemma StartOfSame(lines: seq<Line>, l: nat, k: nat)
    requires k < |lines| && Same(lines, l, k)
    ensures Start(lines, l, k) == Start(lines, l, k - 1)
  {
  }

  lemma SameBounds(lines: seq<Line>, l: nat, k: nat)
    requires k < |lines| && Same(lines, l, k)
    ensures Min(lines[k], l) == Min(lines[k - 1], l) && Max(lines[k], l) == Max(lines[k - 1], l)
  {
  }

  lemma LineFits(lines: seq<Line>, k: nat, nodes: Nodes, was: map<Filter, Fields>, f: seq<Filter>, l: nat)
    requires 0 < k < |lines| && Shaped(lines, k, nodes) && Fitted(lines, k, nodes, was) && |f| == 4
    requires Grown(lines, k, nodes, was, f) && l < 4
    ensures NodeFits(lines, k + 1, l, Appended(nodes, f), k)
  {
    hide Min;
    hide Max;
    hide Fitted;
    var d := Branch(lines, k);
    FieldsNow(lines, k, nodes, was, f, l, k - 1);
    assert Same(lines, l, k) <==> l < d;
    if l < d {
      SameBounds(lines, l, k);
      StartOfSame(lines, l, k);
    } else {
      assert NewAt(lines[k], k, l, f);
    }
  }

  lemma LineBeforeFits(lines: seq<Line>, k: nat, nodes: Nodes, was: map<Filter, Fields>, f: seq<Filter>, l: nat)
    requires 0 < k < |lines| && Shaped(lines, k, nodes) && Fitted(lines, k, nodes, was) && |f| == 4
    requires Grown(lines, k, nodes, was, f) && l < 4
    ensures NodeFits(lines, k + 1, l, Appended(nodes, f), k - 1)
  {
    hide Min;
    hide Max;
    hide Start;
    hide Fitted;
    hide Grown;
    var d := Branch(lines, k);
    FieldsNow(lines, k, nodes, was, f, l, k - 1);
    assert Same(lines, l, k) <==> l < d;
    assert l > 0 ==> (Same(lines, l - 1, k) <==> l - 1 < d);
  }

  lemma EarlierLineFits(lines: seq<Line>, k: nat, nodes: Nodes, was: map<Filter, Fields>, f: seq<Filter>, l: nat,
                        i: nat)
    requires 0 < k < |lines| && Shaped(lines, k, nodes) && Fitted(lines, k, nodes, was) && |f| == 4
    requires Grown(lines, k, nodes, was, f) && l < 4 && i < k - 1
    ensures NodeFits(lines, k + 1, l, Appended(nodes, f), i)
  {
    hide Min;
    hide Max;
    hide Start;
    hide Fitted;
    hide Grown;
    FieldsNow(lines, k, nodes, was, f, l, i);
    assert !Same(lines, l, i + 1) ==> Start(lines, l, k - 1) >= i + 1 > Start(lines, l, i);
  }

  lemma GrownFits(lines: seq<Line>, k: nat, nodes: Nodes, was: map<Filter, Fields>, f: seq<Filter>, l: nat, i: nat)
    requires 0 < k < |lines| && Fitted(lines, k, nodes, was) && |f| == 4
    requires Grown(lines, k, nodes, was, f) && l < 4 && i <= k
    ensures NodeFits(lines, k + 1, l, Appended(nodes, f), i)
  {
    hide NodeFits;
    if i == k {
      LineFits(lines, k, nodes, was, f, l);
    } else if i == k - 1 {
      LineBeforeFits(lines, k, nodes, was, f, l);
    } else {
      EarlierLineFits(lines, k, nodes, was, f, l, i);
    }
  }

  lemma GrownIsBuilt(lines: seq<Line>, k: nat, nodes: Nodes, was: map<Filter, Fields>, f: seq<Filter>)
    requires 0 < k < |lines| && Fitted(lines, k, nodes, was) && |f| == 4
    requires Grown(lines, k, nodes, was, f)
    ensures Built(lines, k + 1, Appended(nodes, f))
  {
    var after, n := Appended(nodes, f), k + 1;
    forall l: nat, i: nat | l < 4 && i < n
      ensures NodeFits(lines, n, l, after, i)
    {
      GrownFits(lines, k, nodes, was, f, l, i);
    }
  }

  /** A node for one octet. */
  method NewOctet(octet: nat, ghost level: nat, ghost k: nat) returns (f: Filter)
    ensures fresh(f) && FieldsOf(f) == Fields(octet, octet, null, null, level, k)
  {
    f := new Filter(level, k);
    f.min := octet;
    f.max := octet;
  }

  /** The nodes of the first line. */
  method FirstLine(line: Line, f4: Filter) returns (f1: Filter, f2: Filter, f3: Filter)
    ensures fresh({f1, f2, f3})
    ensures FieldsOf(f1) == NewFields(line, 0, 0, f2)
    ensures FieldsOf(f2) == NewFields(line, 0, 1, f3)
    ensures FieldsOf(f3) == NewFields(line, 0, 2, f4)
  {
    f1 := NewOctet(line.i1, 0, 0);
    f2 := NewOctet(line.i2, 1, 0);
    f3 := NewOctet(line.i3, 2, 0);
    f1.child := f2;
    f2.child := f3;
    f3.child := f4;
  }

  /** The first level whose octet differs from that of the line before, and the last level if none does. */
  function Depth(line: Line, c1: nat, c2: nat, c3: nat): (d: nat)
    ensures d < 4
  {
    if line.i1 != c1 then 0 else if line.i2 != c2 then 1 else if line.i3 != c3 then 2 else 3
  }

  /** A node is as it was, but for a new successor. */
  ghost predicate Follows(n: Filter, was: Fields, changed: bool, next: Filter)
    reads n
  {
    FieldsOf(n) == if changed then was.(next := next) else was
  }

  /** From level d on the nodes f are new; node d follows the last one of its level; was holds the old fields. */
  ghost predicate Hung(line: Line, k: nat, d: nat, last: seq<Filter>, f: seq<Filter>, was: seq<Fields>)
    requires |last| == |f| == |was| == 4 && d < 4
    reads last, f
  {
    && Follows(last[0], was[0], d == 0, f[0]) && Follows(last[1], was[1], d == 1, f[1])
    && Follows(last[2], was[2], d == 2, f[2]) && Follows(last[3], was[3], d == 3, f[3])
    && (if d > 0 then f[0] == last[0] else NewAt(line, k, 0, f))
    && (if d > 1 then f[1] == last[1] else NewAt(line, k, 1, f))
    && (if d > 2 then f[2] == last[2] else NewAt(line, k, 2, f))
    && NewAt(line, k, 3, f)
  }

  /** The nodes of a later line, hung below and behind those of the line before it. */
  method NextLine(line: Line, k: nat, of1: Filter, of2: Filter, of3: Filter, of4: Filter, c1: nat, c2: nat, c3: nat,
                  f4: Filter)
    returns (f1: Filter, f2: Filter, f3: Filter)
    requires of1.level == 0 && of2.level == 1 && of3.level == 2 && of4.level == 3
    requires of1.next == null && of2.next == null && of3.next == null && of4.next == null
    requires f4 != of4 && FieldsOf(f4) == NewFields(line, k, 3, null)
    modifies of1, of2, of3, of4, f4
    ensures (f1 == of1 || fresh(f1)) && (f2 == of2 || fresh(f2)) && (f3 == of3 || fresh(f3))
    ensures var d := Depth(line, c1, c2, c3);
            && Follows(of1, old(FieldsOf(of1)), d == 0, f1) && Follows(of2, old(FieldsOf(of2)), d == 1, f2)
            && Follows(of3, old(FieldsOf(of3)), d == 2, f3) && Follows(of4, old(FieldsOf(of4)), d == 3, f4)
            && (if d > 0 then f1 == of1 else FieldsOf(f1) == NewFields(line, k, 0, f2))
            && (if d > 1 then f2 == of2 else FieldsOf(f2) == NewFields(line, k, 1, f3))
            && (if d > 2 then f3 == of3 else FieldsOf(f3) == NewFields(line, k, 2, f4))
            && FieldsOf(f4) == NewFields(line, k, 3, null)
  {
    f1, f2, f3 := of1, of2, of3;
    if line.i1 == c1 {
      if line.i2 == c2 {
        if line.i3 == c3 {
          of4.next := f4;
          f4.child := null;
        } else {
          f3 := NewOctet(line.i3, 2, k);
          of3.next := f3;
          of4.next := null;
          f3.child := f4;
        }
      } else {
        f2 := NewOctet(line.i2, 1, k);
        f3 := NewOctet(line.i3, 2, k);
        of2.next := f2;
        of3.next := null;
        of4.next := null;
        f2.child := f3;
        f3.child := f4;
      }
    } else {
      f1 := NewOctet(line.i1, 0, k);
      f2 := NewOctet(line.i2, 1, k);
      f3 := NewOctet(line.i3, 2, k);
      of1.next := f1;
      of2.next := null;
      of3.next := null;
      of4.next := null;
      f1.child := f2;
      f2.child := f3;
      f3.child := f4;
    }
  }

  ghost function Snapshot(nodes: Nodes): (was: map<Filter, Fields>)
    reads NodeSet(nodes)
    ensures was.Keys == NodeSet(nodes)
    ensures forall n :: n in was ==> was[n] == FieldsOf(n)
  {
    map n | n in NodeSet(nodes) :: FieldsOf(n)
  }

  lemma FirstIsBuilt(lines: seq<Line>, f1: Filter, f2: Filter, f3: Filter, f4: Filter)
    requires lines != []
    requires FieldsOf(f1) == NewFields(lines[0], 0, 0, f2) && FieldsOf(f2) == NewFields(lines[0], 0, 1, f3)
    requires FieldsOf(f3) == NewFields(lines[0], 0, 2, f4) && FieldsOf(f4) == NewFields(lines[0], 0, 3, null)
    ensures Built(lines, 1, [[f1], [f2], [f3], [f4]])
  {
  }

  ghost predicate LastOf(k: nat, nodes: Nodes, last: seq<Filter>) {
    |nodes| == |last| == 4 && forall l :: 0 <= l < 4 ==> k > 0 && |nodes[l]| == k && last[l] == nodes[l][k - 1]
  }

  lemma SnapshotFits(lines: seq<Line>, k: nat, nodes: Nodes)
    requires Built(lines, k, nodes)
    ensures Fitted(lines, k, nodes, Snapshot(nodes))
  {
    forall l: nat, i: nat | l < 4 && i < k
      ensures nodes[l][i] in Snapshot(nodes) && Fits(lines, k, l, nodes, i, Snapshot(nodes)[nodes[l][i]])
    {
      assert NodeFits(lines, k, l, nodes, i);
    }
  }

  lemma LevelOf(lines: seq<Line>, k: nat, nodes: Nodes, was: map<Filter, Fields>, l: nat)
    requires 0 < k <= |lines| && Fitted(lines, k, nodes, was) && l < 4
    ensures nodes[l][k - 1] in was && was[nodes[l][k - 1]].level == l
  {
    assert Fits(lines, k, l, nodes, k - 1, was[nodes[l][k - 1]]);
  }

  lemma HungIsGrown(lines: seq<Line>, k: nat, nodes: Nodes, was: map<Filter, Fields>, last: seq<Filter>, f: seq<Filter>)
    requires 0 < k < |lines| && Fitted(lines, k, nodes, was) && LastOf(k, nodes, last) && |f| == 4
    requires forall l :: 0 <= l < 4 ==> last[l] in was
    requires Hung(lines[k], k, Branch(lines, k), last, f, [was[last[0]], was[last[1]], was[last[2]], was[last[3]]])
    requires forall n :: n in was && n !in last ==> FieldsOf(n) == was[n]
    ensures Grown(lines, k, nodes, was, f)
  {
    hide Fits;
    var d := Branch(lines, k);
    assert forall l :: 0 <= l < 4 ==> Fits(lines, k, l, nodes, k - 1, was[last[l]]);
    forall n | n in was
      ensures FieldsOf(n) == if n == nodes[d][k - 1] then was[n].(next := f[d]) else was[n]
    {
      if n in last {
        var l :| 0 <= l < 4 && n == last[l];
        LevelOf(lines, k, nodes, was, l);
        LevelOf(lines, k, nodes, was, d);
      }
    }
  }

  lemma DepthIsBranch(lines: seq<Line>, k: nat, c1: nat, c2: nat, c3: nat)
    requires 0 < k < |lines|
    requires c1 == lines[k - 1].i1 && c2 == lines[k - 1].i2 && c3 == lines[k - 1].i3
    ensures Depth(lines[k], c1, c2, c3) == Branch(lines, k)
  {
  }

  /** The last node of each level, which the next line may be hung behind. */
  lemma LastWas(lines: seq<Line>, k: nat, nodes: Nodes, was: map<Filter, Fields>, last: seq<Filter>)
    requires 0 < k <= |lines| && Fitted(lines, k, nodes, was) && LastOf(k, nodes, last)
    ensures last[0] in was && was[last[0]].level == 0 && was[last[0]].next == null
    ensures last[1] in was && was[last[1]].level == 1 && was[last[1]].next == null
    ensures last[2] in was && was[last[2]].level == 2 && was[last[2]].next == null
    ensures last[3] in was && was[last[3]].level == 3 && was[last[3]].next == null
  {
    hide Min;
    hide Max;
    hide Start;
    var i := k - 1;
    assert Fits(lines, k, 0, nodes, i, was[nodes[0][i]]) && Fits(lines, k, 1, nodes, i, was[nodes[1][i]]);
    assert Fits(lines, k, 2, nodes, i, was[nodes[2][i]]) && Fits(lines, k, 3, nodes, i, was[nodes[3][i]]);
  }

  /** The same, seen from the whole structure, whose nodes had the fields was. */
  method LaterLineFrom(lines: seq<Line>, k: nat, ghost nodes: Nodes, of1: Filter, of2: Filter, of3: Filter,
                       of4: Filter, c1: nat, c2: nat, c3: nat, f4: Filter, ghost was: map<Filter, Fields>)
    returns (f1: Filter, f2: Filter, f3: Filter)
    requires 0 < k < |lines| && Shaped(lines, k, nodes) && Fitted(lines, k, nodes, was)
    requires LastOf(k, nodes, [of1, of2, of3, of4])
    requires c1 == lines[k - 1].i1 && c2 == lines[k - 1].i2 && c3 == lines[k - 1].i3
    requires forall n :: n in was ==> FieldsOf(n) == was[n]
    requires f4 !in was && FieldsOf(f4) == NewFields(lines[k], k, 3, null)
    modifies of1, of2, of3, of4, f4
    ensures (f1 == of1 || fresh(f1)) && (f2 == of2 || fresh(f2)) && (f3 == of3 || fresh(f3))
    ensures Grown(lines, k, nodes, was, [f1, f2, f3, f4])
  {
    hide Grown;
    hide Fitted;
    hide Branch;
    hide Depth;
    hide Same;
    hide NewFields;
    ghost var last := [of1, of2, of3, of4];
    DepthIsBranch(lines, k, c1, c2, c3);
    LastWas(lines, k, nodes, was, last);
    f1, f2, f3 := NextLine(lines[k], k, of1, of2, of3, of4, c1, c2, c3, f4);
    HungIsGrown(lines, k, nodes, was, last, [f1, f2, f3, f4]);
  }

  method LaterLine(lines: seq<Line>, k: nat, ghost nodes: Nodes, of1: Filter, of2: Filter, of3: Filter, of4: Filter,
                   c1: nat, c2: nat, c3: nat, f4: Filter)
    returns (f1: Filter, f2: Filter, f3: Filter)
    requires 0 < k < |lines| && Built(lines, k, nodes) && LastOf(k, nodes, [of1, of2, of3, of4])
    requires c1 == lines[k - 1].i1 && c2 == lines[k - 1].i2 && c3 == lines[k - 1].i3
    requires f4 !in NodeSet(nodes) && FieldsOf(f4) == NewFields(lines[k], k, 3, null)
    modifies of1, of2, of3, of4, f4
    ensures (f1 == of1 || fresh(f1)) && (f2 == of2 || fresh(f2)) && (f3 == of3 || fresh(f3))
    ensures Built(lines, k + 1, Appended(nodes, [f1, f2, f3, f4]))
  {
    hide NodeFits;
    hide Grown;
    hide Fitted;
    hide NewFields;
    ghost var was := Snapshot(nodes);
    SnapshotFits(lines, k, nodes);
    f1, f2, f3 := LaterLineFrom(lines, k, nodes, of1, of2, of3, of4, c1, c2, c3, f4, was);
    GrownIsBuilt(lines, k, nodes, was, [f1, f2, f3, f4]);
  }

  method NewLeaf(line: Line, ghost k: nat) returns (f4: Filter)
    ensures fresh(f4) && FieldsOf(f4) == NewFields(line, k, 3, null)
  {
    f4 := new Filter(3, k);
    f4.min := line.i4;
    f4.max := line.i4 + Span(PrefixLength(line)) - 1;
  }

  lemma NodesAppended(nodes: Nodes, f: seq<Filter>)
    requires |nodes| == |f| == 4
    ensures NodeSet(Appended(nodes, f)) == NodeSet(nodes) + {f[0], f[1], f[2], f[3]}
  {
    var after := Appended(nodes, f);
    forall n | n in NodeSet(nodes) + {f[0], f[1], f[2], f[3]}
      ensures n in NodeSet(after)
    {
      if n in NodeSet(nodes) {
        var l, i :| 0 <= l < 4 && 0 <= i < |nodes[l]| && nodes[l][i] == n;
        assert after[l][i] == n;
      } else {
        assert after[0][|nodes[0]|] == f[0] && after[1][|nodes[1]|] == f[1];
        assert after[2][|nodes[2]|] == f[2] && after[3][|nodes[3]|] == f[3];
      }
    }
  }

  lemma NoNodes()
    ensures NodeSet([[], [], [], []]) == {}
  {
  }

  lemma FirstNodes(f1: Filter, f2: Filter, f3: Filter, f4: Filter)
    ensures NodeSet([[f1], [f2], [f3], [f4]]) == {f1, f2, f3, f4}
  {
    NodesAppended([[], [], [], []], [f1, f2, f3, f4]);
    var none: seq<Filter> := [];
    assert none + [f1] == [f1] && none + [f2] == [f2] && none + [f3] == [f3] && none + [f4] == [f4];
    NoNodes();
  }

  lemma LastOfAppended(lines: seq<Line>, k: nat, nodes: Nodes, f: seq<Filter>)
    requires Shaped(lines, k, nodes) && |f| == 4
    ensures LastOf(k + 1, Appended(nodes, f), f)
    ensures k > 0 ==> Appended(nodes, f)[0][0] == nodes[0][0]
  {
  }

  lemma FirstLast(f1: Filter, f2: Filter, f3: Filter, f4: Filter)
    ensures LastOf(1, [[f1], [f2], [f3], [f4]], [f1, f2, f3, f4])
  {
  }

  method EndLists(of1: Filter, of2: Filter, of3: Filter, of4: Filter, ghost was: map<Filter, Fields>)
    requires forall n :: n in was ==> FieldsOf(n) == was[n]
    requires forall n :: n in was && n in {of1, of2, of3, of4} ==> was[n].next == null
    modifies of1`next, of2`next, of3`next, of4`next
    ensures forall n :: n in was ==> FieldsOf(n) == was[n]
  {
    of1.next := null;
    of2.next := null;
    of3.next := null;
    of4.next := null;
  }

  lemma UnchangedIsBuilt(lines: seq<Line>, k: nat, nodes: Nodes, was: map<Filter, Fields>)
    requires Fitted(lines, k, nodes, was)
    requires forall n :: n in was ==> FieldsOf(n) == was[n]
    ensures Built(lines, k, nodes)
  {
    forall l: nat, i: nat | l < 4 && i < k
      ensures NodeFits(lines, k, l, nodes, i)
    {
      assert Fits(lines, k, l, nodes, i, was[nodes[l][i]]);
    }
  }

  /** Ends the last list of every level, which has no successor yet anyway. */
  method FinishLists(lines: seq<Line>, ghost nodes: Nodes, of1: Filter, of2: Filter, of3: Filter, of4: Filter)
    requires Built(lines, |lines|, nodes)
    requires if lines == [] then true else LastOf(|lines|, nodes, [of1, of2, of3, of4])
    modifies of1`next, of2`next, of3`next, of4`next
    ensures Built(lines, |lines|, nodes)
  {
    hide NodeFits;
    hide Fitted;
    ghost var was := Snapshot(nodes);
    SnapshotFits(lines, |lines|, nodes);
    if lines != [] {
      LastWas(lines, |lines|, nodes, was, [of1, of2, of3, of4]);
    }
    EndLists(of1, of2, of3, of4, was);
    UnchangedIsBuilt(lines, |lines|, nodes, was);
  }

  /** readIpList, from the lines that its pattern matches; also tells which node serves which line. */
  method ReadIpList(lines: seq<Line>) returns (head: Filter, ghost nodes: Nodes)
    ensures Built(lines, |lines|, nodes) && HeadOf(head, lines, nodes)
    ensures fresh(head) && fresh(NodeSet(nodes))
  {
    hide NodeFits;
    hide NewFields;
    hide NodeSet;
    hide LastOf;
    hide Appended;
    NoNodes();
    var c1, c2, c3 := 0, 0, 0;
    var of1 := new Filter(0, 0);
    var of2 := new Filter(0, 0);
    var of3 := new Filter(0, 0);
    var of4 := new Filter(0, 0);
    head := new Filter(0, 0);
    nodes := [[], [], [], []];
    ghost var made := {head, of1, of2, of3, of4};
    for i := 0 to |lines|
      invariant Built(lines, i, nodes) && fresh(made)
      invariant NodeSet(nodes) <= made
      invariant {head, of1, of2, of3, of4} <= made
      invariant if i == 0 then head.child == null && head.next == null && head !in {of1, of2, of3, of4}
                else head == nodes[0][0] && LastOf(i, nodes, [of1, of2, of3, of4])
      invariant i > 0 ==> c1 == lines[i - 1].i1 && c2 == lines[i - 1].i2 && c3 == lines[i - 1].i3
    {
      var line := lines[i];
      var f4 := NewLeaf(line, i);
      var f1, f2, f3;
      if i == 0 {
        f1, f2, f3 := FirstLine(line, f4);
        FirstIsBuilt(lines, f1, f2, f3, f4);
        FirstNodes(f1, f2, f3, f4);
        FirstLast(f1, f2, f3, f4);
        head := f1;
        nodes := [[f1], [f2], [f3], [f4]];
      } else {
        f1, f2, f3 := LaterLine(lines, i, nodes, of1, of2, of3, of4, c1, c2, c3, f4);
        NodesAppended(nodes, [f1, f2, f3, f4]);
        LastOfAppended(lines, i, nodes, [f1, f2, f3, f4]);
        nodes := Appended(nodes, [f1, f2, f3, f4]);
      }
      made := made + {f1, f2, f3, f4};
      of1, of2, of3, of4 := f1, f2, f3, f4;
      c1, c2, c3 := line.i1, line.i2, line.i3;
    }
    FinishLists(lines, nodes, of1, of2, of3, of4);
  }

  /** Reading a list and searching it agrees with a plain scan of the list, in any order and with repeats. */
  method MatchList(lines: seq<Line>, ip: int) returns (found: bool)
    ensures found <==> exists k :: 0 <= k < |lines| && Covers(lines[k], SplitIp(ip))
    ensures found <==> exists k :: 0 <= k < |lines| && Names(lines[k], ip)
  {
    hide Built;
    hide HeadOf;
    hide Covers;
    hide Names;
    var head, nodes := ReadIpList(lines);
    found := Match(head, ip, lines, nodes);
    forall k | 0 <= k < |lines|
      ensures Covers(lines[k], SplitIp(ip)) <==> Names(lines[k], ip)
    {
      CoversAsWritten(lines[k], ip);
    }
  }
}
