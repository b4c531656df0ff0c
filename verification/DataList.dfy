/** refactor of dinemeter.DataList: samples cut onto a grid, in place. */
module DataList {
  import opened Counts
  import opened Regrid
  import opened Records
  import WindowLaws

  /** The nested table of refactor, by trust level, user and slot. */
  type Table = map<Key, DataRecord>

  /** Every block stands under its own key. */
  ghost predicate Keyed(g: Grid, table: Table)
    reads table.Values
  {
    forall k :: k in table ==>
      && table[k].trust == k.trust && table[k].userId == k.user
      && table[k].start == k.slot && table[k].end == k.slot + g.step
  }

  /** The blocks hold exactly these totals. */
  ghost predicate Holds(table: Table, totals: map<Key, Counts>)
    reads table.Values
  {
    table.Keys == totals.Keys && forall k :: k in table ==> table[k].CountsOf() == totals[k]
  }

  lemma HeldKeys(table: Table, totals: map<Key, Counts>)
    requires Holds(table, totals)
    ensures table.Keys == totals.Keys
  {
  }

  function Add(totals: map<Key, Counts>, k: Key, c: Counts): map<Key, Counts> {
    totals[k := Plus(Get(totals, k), c)]
  }

  predicate Extends(table0: Table, table: Table) {
    forall k :: k in table0 ==> k in table && table[k] == table0[k]
  }

  lemma ShareOfReal(x: int, res: int, len: int, w: int)
    requires res > 0 && len > 0
    ensures len as real / res as real != 0.0
    ensures (x as real / (len as real / res as real) * (w as real / res as real)).Floor == x * w / len
  {
    var r, l, a, b := res as real, len as real, x as real, w as real;
    assert l / r > 0.0;
    assert a / (l / r) * (b / r) == a * b / l by {
      var q := l / r;
      assert q * r == l;
      assert (a / q) * q == a;
      assert (b / r) * r == b;
      assert (a / q * (b / r)) * l == (a / q * q) * (b / r * r);
    }
    var n, d := x * w, x * w / len;
    assert d * len <= n < (d + 1) * len;
    assert (a * b) == n as real;
    var v := a * b / l;
    assert v * l == n as real;
    assert d as real * l <= v * l < (d + 1) as real * l;
    assert d as real <= v < (d + 1) as real;
  }

  /** The floored part of a count in a slot before the last, from per-slot rates as the source computes it. */
  lemma FlooredByRate(g: Grid, s: Sample, x: int, slot: int, len: int, w: int)
    requires s.end - s.start == len && w == (if slot <= s.start then slot + g.step - s.start else g.step)
    requires s.start < slot + g.step <= s.end
    ensures len as real / g.step as real != 0.0 && s.start != s.end
    ensures (x as real / (len as real / g.step as real) * (w as real / g.step as real)).Floor == Floored(g, s, x, slot)
  {
    ShareOfReal(x, g.step, len, w);
  }

  /** An exactly aligned sample goes into its slot whole; the first one there becomes the block itself. */
  method AddAligned(sample: DataRecord, g: Grid, table0: Table, ghost totals: map<Key, Counts>) returns (table: Table)
    requires Keyed(g, table0) && Aligned(g, sample.Value())
    requires sample in table0.Values ==> KeyOf(sample.Value()) in table0 && table0[KeyOf(sample.Value())] == sample
    requires Holds(table0, totals)
    modifies table0.Values`down, table0.Values`up, table0.Values`uDown, table0.Values`uUp
    ensures Keyed(g, table) && Extends(table0, table)
    ensures Holds(table, Add(totals, KeyOf(sample.Value()), old(sample.CountsOf())))
    ensures KeyOf(sample.Value()) !in table0 ==>
              table == table0[KeyOf(sample.Value()) := sample] && sample.CountsOf() == old(sample.CountsOf())
    ensures KeyOf(sample.Value()) in table0 ==> table == table0
  {
    var k := Key(sample.trust, sample.userId, sample.start);
    table := table0;
    if k in table {
      AddTo(table[k], sample.down, sample.up, sample.uDown, sample.uUp);
    } else {
      table := table[k := sample];
    }
  }

  /** A new block for a slot. */
  method NewBlock(trust: nat, user: nat, slot: int, end: int) returns (block: DataRecord)
    ensures fresh(block) && block.Value() == Sample(trust, user, slot, end, ZERO)
  {
    block := new DataRecord();
    block.start := slot;
    block.end := end;
    block.trust := trust;
    block.userId := user;
  }

  /** Adds to the block of a slot, which is made on first use. */
  method AddPiece(sample: DataRecord, g: Grid, table0: Table, ghost totals: map<Key, Counts>, cT: int,
                  down: int, up: int, uDown: int, uUp: int)
    returns (table: Table)
    requires Keyed(g, table0) && sample !in table0.Values && Holds(table0, totals)
    modifies table0.Values`down, table0.Values`up, table0.Values`uDown, table0.Values`uUp
    ensures Keyed(g, table) && Extends(table0, table) && sample !in table.Values
    ensures Holds(table, Add(totals, Key(sample.trust, sample.userId, cT), Counts(down, up, uDown, uUp)))
    ensures fresh(table.Values - table0.Values)
  {
    var k := Key(sample.trust, sample.userId, cT);
    var block;
    table := table0;
    if k in table {
      block := table[k];
    } else {
      block := NewBlock(sample.trust, sample.userId, cT, cT + g.step);
      table := table[k := block];
    }
    AddTo(block, down, up, uDown, uUp);
  }

  /** What one slot gets of the four counters, at the rates dX per slot and with tX already given. */
  method Amounts(sample: DataRecord, g: Grid, cT: int, lT: int, dT: real, cP: real,
                 tD: int, tU: int, tUD: int, tUU: int)
    returns (down: int, up: int, uDown: int, uUp: int)
    requires sample.start != sample.end && Touches(g, sample.Value(), cT) && lT == Last(g, sample.Value())
    requires dT == (sample.end - sample.start) as real / g.step as real
    requires cP == (if cT <= sample.start then cT + g.step - sample.start else g.step) as real / g.step as real
    requires tD == Given(g, sample.Value(), sample.down, cT) && tU == Given(g, sample.Value(), sample.up, cT)
    requires tUD == Given(g, sample.Value(), sample.uDown, cT) && tUU == Given(g, sample.Value(), sample.uUp, cT)
    ensures Counts(down, up, uDown, uUp) == Piece(g, sample.Value(), cT)
    ensures cT < lT ==>
              var s := sample.Value();
              && tD + down == Given(g, s, s.counts.down, cT + g.step)
              && tU + up == Given(g, s, s.counts.up, cT + g.step)
              && tUD + uDown == Given(g, s, s.counts.uDown, cT + g.step)
              && tUU + uUp == Given(g, s, s.counts.uUp, cT + g.step)
  {
    ghost var s := sample.Value();
    if cT == lT {
      return sample.down - tD, sample.up - tU, sample.uDown - tUD, sample.uUp - tUU;
    }
    ghost var len, w := s.end - s.start, if cT <= s.start then cT + g.step - s.start else g.step;
    InsideSlot(g, s, cT);
    FlooredByRate(g, s, s.counts.down, cT, len, w);
    FlooredByRate(g, s, s.counts.up, cT, len, w);
    FlooredByRate(g, s, s.counts.uDown, cT, len, w);
    FlooredByRate(g, s, s.counts.uUp, cT, len, w);
    hide Floored;
    var dD, dU := sample.down as real / dT, sample.up as real / dT;
    var dUD, dUU := sample.uDown as real / dT, sample.uUp as real / dT;
    down := (dD * cP).Floor;
    up := (dU * cP).Floor;
    uDown := (dUD * cP).Floor;
    uUp := (dUU * cP).Floor;
  }

  /** The totals once the slots of a sample before cT have been given their pieces. */
  ghost function Upto(g: Grid, s: Sample, totals: map<Key, Counts>, cT: int): map<Key, Counts> {
    map k | k in totals.Keys + SlotsBefore(g, s, cT) ::
      if k in SlotsBefore(g, s, cT) then Plus(Get(totals, k), Part(g, s, k)) else Get(totals, k)
  }

  lemma UptoStep(g: Grid, s: Sample, totals: map<Key, Counts>, cT: int)
    requires s.start != s.end && Touches(g, s, cT)
    ensures Upto(g, s, totals, cT + g.step) ==
            Add(Upto(g, s, totals, cT), Key(s.trust, s.user, cT), Piece(g, s, cT))
  {
    hide Piece;
    var key, next := Key(s.trust, s.user, cT), cT + g.step;
    SlotsBeforeStep(g, s, cT);
    assert Part(g, s, key) == Piece(g, s, cT);
  }

  lemma UptoFirst(g: Grid, s: Sample, totals: map<Key, Counts>)
    requires s.start != s.end
    ensures Upto(g, s, totals, First(g, s)) == totals
  {
    hide Part;
    assert SlotsBefore(g, s, First(g, s)) == {};
  }

  lemma AllSlots(g: Grid, s: Sample, cT: int)
    requires s.start != s.end && cT > Last(g, s)
    ensures SlotsBefore(g, s, cT) == Slots(g, s)
  {
  }

  lemma UptoLast(g: Grid, s: Sample, totals: map<Key, Counts>, cT: int)
    requires s.start != s.end && cT > Last(g, s)
    ensures Upto(g, s, totals, cT) == AddSample(g, totals, s)
  {
    hide Part;
    hide SlotsBefore;
    hide Plus;
    hide Get;
    hide Slots;
    AllSlots(g, s, cT);
    forall k | k in totals.Keys + Slots(g, s)
      ensures Upto(g, s, totals, cT)[k] == AddSample(g, totals, s)[k]
    {
      if k !in Slots(g, s) {
        PartOutside(g, s, k);
        PlusZero(Get(totals, k));
      }
    }
  }

  lemma ExtendsBoth(a: Table, b: Table, c: Table)
    ensures Extends(a, a) && (Extends(a, b) && Extends(b, c) ==> Extends(a, c))
  {
  }

  lemma GivenNone(g: Grid, s: Sample)
    requires s.start != s.end
    ensures Given(g, s, s.counts.down, First(g, s)) == 0 && Given(g, s, s.counts.up, First(g, s)) == 0
    ensures Given(g, s, s.counts.uDown, First(g, s)) == 0 && Given(g, s, s.counts.uUp, First(g, s)) == 0
  {
  }

  lemma FullSlot(g: Grid)
    ensures g.step as real / g.step as real == 1.0
  {
  }

  /** A sample is cut at the slot boundaries; the last slot gets what rounding left over. */
  method CutSample(sample: DataRecord, g: Grid, table0: Table, ghost totals: map<Key, Counts>) returns (table: Table)
    requires Keyed(g, table0) && sample !in table0.Values && sample.start != sample.end && Holds(table0, totals)
    modifies table0.Values`down, table0.Values`up, table0.Values`uDown, table0.Values`uUp
    ensures Keyed(g, table) && Extends(table0, table)
    ensures Holds(table, AddSample(g, totals, sample.Value()))
    ensures fresh(table.Values - table0.Values)
  {
    hide Piece;
    hide Part;
    hide Given;
    hide Upto;
    hide AddSample;
    hide FloorTo;
    hide OnGrid;
    hide Add;
    hide Keyed;
    hide Holds;
    hide Extends;
    ghost var s := sample.Value();
    var sT := FloorTo(g, sample.start);
    var cT := sT;
    var lT := FloorTo(g, sample.end - 1);
    var dT := (sample.end - sample.start) as real / g.step as real;
    var cP := (cT + g.step - sample.start) as real / g.step as real;
    var tD, tU, tUD, tUU := 0, 0, 0, 0;
    table := table0;
    FloorOnGrid(g, s.start);
    FloorOnGrid(g, s.end - 1);
    UptoFirst(g, s, totals);
    GivenNone(g, s);
    ExtendsBoth(table0, table0, table0);
    while cT <= lT
      invariant OnGrid(g, cT) && sT <= cT && sample.Value() == s
      invariant cT <= lT ==> cP == (if cT <= s.start then cT + g.step - s.start else g.step) as real / g.step as real
      invariant cT <= lT ==>
          && tD == Given(g, s, s.counts.down, cT) && tU == Given(g, s, s.counts.up, cT)
          && tUD == Given(g, s, s.counts.uDown, cT) && tUU == Given(g, s, s.counts.uUp, cT)
      invariant Keyed(g, table) && sample !in table.Values && Extends(table0, table)
      invariant Holds(table, Upto(g, s, totals, cT))
      invariant fresh(table.Values - table0.Values)
      decreases lT + g.step - cT
    {
      UptoStep(g, s, totals, cT);
      GridStep(g, cT, lT);
      var down, up, uDown, uUp := Amounts(sample, g, cT, lT, dT, cP, tD, tU, tUD, tUU);
      if cT != lT {
        tD, tU, tUD, tUU := tD + down, tU + up, tUD + uDown, tUU + uUp;
      }
      ghost var before := table;
      table := AddPiece(sample, g, table, Upto(g, s, totals, cT), cT, down, up, uDown, uUp);
      ExtendsBoth(table0, before, table);
      FullSlot(g);
      assert cT + g.step > s.start;
      cT := cT + g.step;
      cP := 1.0;
    }
    UptoLast(g, s, totals, cT);
  }

  // ---------- the whole list ----------

  /** An input that becomes a block of the table: it is aligned and no input before it touches its slot. */
  predicate Adopted(g: Grid, xs: seq<Sample>, i: nat)
    requires i < |xs|
  {
    Aligned(g, Bumped(xs[i])) && KeyOf(xs[i]) !in Touched(g, xs[..i])
  }

  /** What is left in input i: an empty one is a second longer, and an adopted one holds its slot's total. */
  function Leftover(g: Grid, xs: seq<Sample>, i: nat): Sample
    requires i < |xs|
  {
    if Adopted(g, xs, i) then Bumped(xs[i]).(counts := Total(g, xs, KeyOf(xs[i]))) else Bumped(xs[i])
  }

  /** Where an input object stands first in the list. */
  ghost function FirstAt(list: seq<DataRecord>, i: nat): (j: nat)
    requires i < |list|
    ensures j <= i && list[j] == list[i] && list[j] !in list[..j]
  {
    if list[i] !in list[..i] then i
    else
      var m :| 0 <= m < i && list[m] == list[i];
      FirstAt(list, m)
  }

  ghost function SeenAt(g: Grid, list: seq<DataRecord>, xs: seq<Sample>, n: nat): Sample
    requires n < |xs| == |list|
    decreases n, 1
  {
    var j := FirstAt(list, n);
    if j == n then xs[n] else Leftover(g, Seen(g, list, xs, n), j)
  }

  /**
    The values that the first n inputs have when the loop comes to them. An object met again has the
    value that was left in it before.
   */
  ghost function Seen(g: Grid, list: seq<DataRecord>, xs: seq<Sample>, n: nat): (seen: seq<Sample>)
    requires n <= |xs| == |list|
    ensures |seen| == n
    decreases n, 0
  {
    if n == 0 then [] else Seen(g, list, xs, n - 1) + [SeenAt(g, list, xs, n - 1)]
  }

  lemma {:induction false} SeenDistinct(g: Grid, list: seq<DataRecord>, xs: seq<Sample>, n: nat)
    requires n <= |xs| == |list| && Distinct(list)
    ensures Seen(g, list, xs, n) == xs[..n]
  {
    if n == 0 {
    } else {
      SeenDistinct(g, list, xs, n - 1);
      assert FirstAt(list, n - 1) == n - 1;
    }
  }

  lemma BumpedTwice(g: Grid, s: Sample, t: Sample)
    requires t == Bumped(s).(counts := t.counts)
    ensures Bumped(t) == t && KeyOf(t) == KeyOf(s) && (Aligned(g, Bumped(t)) <==> Aligned(g, Bumped(s)))
  {
  }

  /** An adopted object that is met again is added to itself: the total of its slot doubles. */
  lemma MetAgainDoubles(g: Grid, list: seq<DataRecord>, xs: seq<Sample>, n: nat)
    requires n < |xs| == |list| && FirstAt(list, n) < n && Adopted(g, Seen(g, list, xs, n), FirstAt(list, n))
    ensures var seen, all := Seen(g, list, xs, n), Seen(g, list, xs, n + 1);
            var k := KeyOf(seen[FirstAt(list, n)]);
            Total(g, all, k) == Plus(Total(g, seen, k), Total(g, seen, k))
  {
    hide Slots;
    hide Part;
    hide Plus;
    var seen, v := Seen(g, list, xs, n), SeenAt(g, list, xs, n);
    var first := seen[FirstAt(list, n)];
    BumpedTwice(g, first, v);
    AlignedPart(g, v, KeyOf(first));
    assert (seen + [v])[..n] == seen;
  }

  /** An input is left as the specification says, and is a block of the table exactly if it was adopted. */
  ghost predicate Placed(g: Grid, r: DataRecord, seen: seq<Sample>, i: nat, table: Table)
    requires i < |seen|
    reads r
  {
    && r.Value() == Leftover(g, seen, i)
    && (r in table.Values <==> Adopted(g, seen, i))
    && (Adopted(g, seen, i) ==> KeyOf(seen[i]) in table && table[KeyOf(seen[i])] == r)
  }

  /** The state of refactor after n samples, which had the values seen. */
  ghost predicate Progress(g: Grid, list: seq<DataRecord>, xs: seq<Sample>, seen: seq<Sample>, table: Table)
    requires |seen| <= |xs| == |list|
    reads list, table.Values
  {
    var n := |seen|;
    && Keyed(g, table) && Holds(table, TotalsOf(g, seen))
    && (forall i :: 0 <= i < |list| && list[i] !in list[..n] ==> list[i].Value() == xs[i] && list[i] !in table.Values)
    && (forall i :: 0 <= i < n && list[i] !in list[..i] ==> Placed(g, list[i], seen, i, table))
  }

  lemma AlignedBlock(g: Grid, s: Sample)
    requires Aligned(g, Bumped(s))
    ensures forall c :: BlockOf(g, KeyOf(s), c) == Bumped(s).(counts := c)
  {
  }

  lemma TouchedKeys(g: Grid, xs: seq<Sample>)
    ensures TotalsOf(g, xs).Keys == Touched(g, xs)
  {
  }

  lemma SlotsOfBumped(g: Grid, s: Sample)
    ensures Slots(g, Bumped(s)) == Slots(g, s)
  {
  }

  /** An aligned sample touches its slot. */
  lemma {:induction false} TouchesItsSlot(g: Grid, xs: seq<Sample>, i: nat)
    requires i < |xs| && Aligned(g, Bumped(xs[i]))
    ensures KeyOf(xs[i]) in Touched(g, xs)
  {
    hide Slots;
    var n := |xs| - 1;
    if i == n {
      AlignedPart(g, Bumped(xs[i]), KeyOf(xs[i]));
      SlotsOfBumped(g, xs[i]);
    } else {
      TouchesItsSlot(g, xs[..n], i);
    }
  }

  /** The value of the next input is the one that the specification sees. */
  lemma NextSeen(g: Grid, list: seq<DataRecord>, xs: seq<Sample>, n: nat, table: Table)
    requires n < |xs| == |list| && Progress(g, list, xs, Seen(g, list, xs, n), table)
    ensures list[n].Value() == SeenAt(g, list, xs, n)
    ensures list[n] !in list[..n] ==> list[n] !in table.Values
    ensures list[n] in list[..n] ==> Bumped(list[n].Value()) == list[n].Value()
    ensures list[n] in table.Values ==>
              var k := KeyOf(list[n].Value());
              Aligned(g, Bumped(list[n].Value())) && k in table && table[k] == list[n]
    ensures list[n] in list[..n] && Aligned(g, Bumped(list[n].Value())) ==> KeyOf(list[n].Value()) in table
  {
    hide Total;
    hide Touched;
    hide Aligned;
    hide Keyed;
    var seen, j := Seen(g, list, xs, n), FirstAt(list, n);
    if j == n {
    } else {
      assert list[n] in list[..n] by { assert list[..n][j] == list[n]; }
      assert Placed(g, list[j], seen, j, table);
      BumpedTwice(g, seen[j], list[n].Value());
      if Aligned(g, Bumped(seen[j])) {
        TouchesItsSlot(g, seen, j);
        TouchedKeys(g, seen);
      }
    }
  }

  /** What was true of an earlier input stays true, if the table only grew and holds the new totals. */
  lemma StillPlaced(g: Grid, r: DataRecord, seen: seq<Sample>, s: Sample, i: nat, before: Table, table: Table)
    requires i < |seen| && Keyed(g, table) && Holds(table, TotalsOf(g, seen + [s])) && Extends(before, table)
    requires r in before.Values <==> Adopted(g, seen, i)
    requires Adopted(g, seen, i) ==> KeyOf(seen[i]) in before && before[KeyOf(seen[i])] == r
    requires r in table.Values <==> r in before.Values
    requires !Adopted(g, seen, i) ==> r.Value() == Leftover(g, seen, i)
    ensures Placed(g, r, seen + [s], i, table)
  {
    hide Total;
    hide Touched;
    var all := seen + [s];
    assert all[..i] == seen[..i];
    if Adopted(g, seen, i) {
      var k := KeyOf(seen[i]);
      assert table[k] == r && k in TotalsOf(g, all);
      assert r.Value() == BlockOf(g, k, Total(g, all, k));
      AlignedBlock(g, seen[i]);
    }
  }

  /** The input just met for the first time. */
  lemma NowPlaced(g: Grid, r: DataRecord, seen: seq<Sample>, s: Sample, before: Table, table: Table)
    requires Keyed(g, table) && Holds(table, TotalsOf(g, seen + [s])) && before.Keys == Touched(g, seen)
    requires r !in before.Values
    requires if Aligned(g, Bumped(s)) && KeyOf(s) !in before then table == before[KeyOf(s) := r]
             else r !in table.Values && r.Value() == Bumped(s)
    ensures Placed(g, r, seen + [s], |seen|, table)
  {
    hide Total;
    hide Touched;
    var all := seen + [s];
    assert all[..|seen|] == seen;
    if Adopted(g, all, |seen|) {
      var k := KeyOf(s);
      assert table[k] == r && k in TotalsOf(g, all);
      assert r.Value() == BlockOf(g, k, Total(g, all, k));
      AlignedBlock(g, s);
    }
  }

  /** Inputs that have not been met are not the one met now either. */
  lemma NotMet(list: seq<DataRecord>, n: nat)
    requires n < |list|
    ensures forall r :: r in list[..n + 1] <==> r in list[..n] || r == list[n]
  {
    assert list[..n + 1] == list[..n] + [list[n]];
  }

  /** What the table and the inputs met so far have in common. */
  ghost predicate Earlier(g: Grid, list: seq<DataRecord>, seen: seq<Sample>, before: Table, i: nat)
    requires i < |seen| <= |list|
  {
    && (list[i] in before.Values <==> Adopted(g, seen, i))
    && (Adopted(g, seen, i) ==> KeyOf(seen[i]) in before && before[KeyOf(seen[i])] == list[i])
  }

  lemma SeenOnce(g: Grid, list: seq<DataRecord>, xs: seq<Sample>, n: nat)
    requires n < |xs| == |list|
    ensures Seen(g, list, xs, n + 1) == Seen(g, list, xs, n) + [SeenAt(g, list, xs, n)]
  {
  }

  lemma StepDone(g: Grid, list: seq<DataRecord>, xs: seq<Sample>, n: nat, seen: seq<Sample>, v: Sample,
                 before: Table, table: Table)
    requires n < |xs| == |list| && |seen| == n
    requires Keyed(g, table) && Holds(table, TotalsOf(g, seen + [v])) && Extends(before, table)
    requires before.Keys == Touched(g, seen)
    requires forall i :: 0 <= i < |list| && list[i] !in list[..n + 1] ==>
               list[i].Value() == xs[i] && list[i] !in table.Values
    requires forall i :: 0 <= i < n && list[i] !in list[..i] ==>
               && Earlier(g, list, seen, before, i)
               && (list[i] in table.Values <==> list[i] in before.Values)
               && (!Adopted(g, seen, i) ==> list[i].Value() == Leftover(g, seen, i))
    requires list[n] !in list[..n] ==>
               && list[n] !in before.Values
               && if Aligned(g, Bumped(v)) && KeyOf(v) !in before then table == before[KeyOf(v) := list[n]]
                  else list[n] !in table.Values && list[n].Value() == Bumped(v)
    ensures Progress(g, list, xs, seen + [v], table)
  {
    hide Total;
    hide Touched;
    hide TotalsOf;
    hide Keyed;
    hide Holds;
    hide Adopted;
    hide Aligned;
    forall i | 0 <= i < n + 1 && list[i] !in list[..i]
      ensures Placed(g, list[i], seen + [v], i, table)
    {
      if i < n {
        StillPlaced(g, list[i], seen, v, i, before, table);
      } else {
        NowPlaced(g, list[n], seen, v, before, table);
      }
    }
  }

  lemma SoFar(g: Grid, list: seq<DataRecord>, xs: seq<Sample>, seen: seq<Sample>, table: Table)
    requires |seen| <= |xs| == |list| && Progress(g, list, xs, seen, table)
    ensures Keyed(g, table) && Holds(table, TotalsOf(g, seen))
    ensures forall i :: 0 <= i < |list| && list[i] !in list[..|seen|] ==>
              list[i].Value() == xs[i] && list[i] !in table.Values
    ensures forall i :: 0 <= i < |seen| && list[i] !in list[..i] ==>
              Earlier(g, list, seen, table, i) && list[i].Value() == Leftover(g, seen, i)
  {
    hide Keyed;
    hide Holds;
    hide Leftover;
    hide Adopted;
    forall i | 0 <= i < |seen| && list[i] !in list[..i]
      ensures Placed(g, list[i], seen, i, table)
    {
    }
  }

  /** One sample of the loop of refactor. */
  method Place(sample: DataRecord, g: Grid, table0: Table, ghost list: seq<DataRecord>, ghost xs: seq<Sample>,
               ghost n: nat)
    returns (table: Table)
    requires n < |xs| == |list| && Progress(g, list, xs, Seen(g, list, xs, n), table0) && sample == list[n]
    modifies sample`end
    modifies table0.Values`down, table0.Values`up, table0.Values`uDown, table0.Values`uUp
    ensures Progress(g, list, xs, Seen(g, list, xs, n + 1), table)
    ensures sample.end == old(sample.end) + if old(sample.end) == old(sample.start) then 1 else 0
    ensures fresh(table.Values - table0.Values - {sample})
  {
    hide Total;
    hide TotalsOf;
    hide AddSample;
    hide Slots;
    hide Plus;
    hide OnGrid;
    hide Keyed;
    hide Holds;
    hide Piece;
    hide Seen;
    hide SeenAt;
    hide Leftover;
    hide Adopted;
    ghost var seen, v := Seen(g, list, xs, n), SeenAt(g, list, xs, n);
    NextSeen(g, list, xs, n, table0);
    SoFar(g, list, xs, seen, table0);
    hide Progress;
    SeenOnce(g, list, xs, n);
    TouchedKeys(g, seen);
    ghost var totals := TotalsOf(g, seen);
    assert (seen + [v])[..n] == seen && (seen + [v])[..n + 1] == seen + [v];
    TotalsStep(g, seen + [v], n);
    BumpedSame(g, totals, v);
    HeldKeys(table0, totals);
    if sample.end == sample.start {
      sample.end := sample.end + 1;
    }
    ghost var s := sample.Value();
    assert s == Bumped(v);
    NotMet(list, n);
    if sample.end - sample.start == g.step && OnGrid(g, sample.start) {
      AlignedSample(g, totals, s);
      table := AddAligned(sample, g, table0, totals);
    } else {
      table := CutSample(sample, g, table0, totals);
    }
    StepDone(g, list, xs, n, seen, v, table0, table);
  }

  /** The blocks of the table that lie inside the window, in no particular order within the table. */
  method SelectBlocks(table: Table, g: Grid, end: int) returns (out: seq<DataRecord>, ghost keys: seq<Key>)
    requires Keyed(g, table)
    ensures |out| == |keys| && Distinct(keys)
    ensures forall k :: k in Elements(keys) <==> k in table && InWindow(g, end, k)
    ensures forall i :: 0 <= i < |out| ==> keys[i] in table && out[i] == table[keys[i]]
  {
    out, keys := [], [];
    var rest := table.Keys;
    while rest != {}
      invariant rest <= table.Keys
      invariant |out| == |keys| && Distinct(keys)
      invariant forall i :: 0 <= i < |keys| ==>
          keys[i] in table && keys[i] !in rest && InWindow(g, end, keys[i]) && out[i] == table[keys[i]]
      invariant forall k :: k in table && k !in rest && InWindow(g, end, k) ==> k in keys
      decreases rest
    {
      var k :| k in rest;
      rest := rest - {k};
      var block := table[k];
      if block.end <= end && block.start >= g.origin {
        out := out + [block];
        keys := keys + [k];
      }
    }
  }

  lemma StartProgress(g: Grid, list: seq<DataRecord>, xs: seq<Sample>)
    requires Values(list) == xs
    ensures Progress(g, list, xs, Seen(g, list, xs, 0), map[])
  {
  }

  lemma ListsSelected(g: Grid, end: int, xs: seq<Sample>, table: Table, out: seq<DataRecord>, keys: seq<Key>)
    requires Keyed(g, table) && Holds(table, TotalsOf(g, xs))
    requires |out| == |keys| && Distinct(keys)
    requires forall k :: k in Elements(keys) <==> k in table && InWindow(g, end, k)
    requires forall i :: 0 <= i < |out| ==> keys[i] in table && out[i] == table[keys[i]]
    ensures Lists(g, Values(out), Regridded(g, end, xs)) && Distinct(out)
  {
    hide Total;
    hide Touched;
    hide InWindow;
    var blocks, cells := Values(out), Regridded(g, end, xs);
    assert KeysOf(blocks) == keys;
    forall i | 0 <= i < |blocks|
      ensures keys[i] in cells && blocks[i] == BlockOf(g, keys[i], cells[keys[i]])
    {
      assert keys[i] in Elements(keys);
    }
    assert Elements(keys) == cells.Keys;
  }

  lemma EndProgress(g: Grid, list: seq<DataRecord>, xs: seq<Sample>, seen: seq<Sample>, table: Table)
    requires |seen| == |xs| == |list| && Progress(g, list, xs, seen, table)
    ensures Keyed(g, table) && Holds(table, TotalsOf(g, seen))
    ensures forall i :: 0 <= i < |list| && list[i] !in list[..i] ==>
              list[i].Value() == Leftover(g, seen, i) && Placed(g, list[i], seen, i, table)
  {
    hide Keyed;
    hide Holds;
    hide Leftover;
    hide Adopted;
    forall i | 0 <= i < |list| && list[i] !in list[..i]
      ensures Placed(g, list[i], seen, i, table)
    {
    }
  }

  /** Which inputs are blocks of the result themselves: those adopted whose slot is in the window. */
  lemma AdoptedReturned(g: Grid, end: int, list: seq<DataRecord>, seen: seq<Sample>, i: nat, table: Table,
                        out: seq<DataRecord>, keys: seq<Key>)
    requires i < |seen| == |list| && Placed(g, list[i], seen, i, table) && Keyed(g, table)
    requires |out| == |keys| && forall j :: 0 <= j < |out| ==> keys[j] in table && out[j] == table[keys[j]]
    requires forall k :: k in Elements(keys) <==> k in table && InWindow(g, end, k)
    ensures list[i] in out <==> Adopted(g, seen, i) && InWindow(g, end, KeyOf(seen[i]))
  {
    hide Adopted;
    hide Leftover;
    hide InWindow;
    var r := list[i];
    if r in out {
      var j :| 0 <= j < |out| && out[j] == r;
      assert keys[j] in Elements(keys) && r in table.Values;
      assert keys[j] == Key(r.trust, r.userId, r.start);
    }
    if Adopted(g, seen, i) && InWindow(g, end, KeyOf(seen[i])) {
      assert KeyOf(seen[i]) in Elements(keys);
      var j :| 0 <= j < |keys| && keys[j] == KeyOf(seen[i]);
      assert out[j] == r;
    }
  }

  lemma {:induction false} TouchedBySome(g: Grid, xs: seq<Sample>, n: nat, k: Key)
    requires n <= |xs|
    ensures k in Touched(g, xs[..n]) <==> exists j :: 0 <= j < n && k in Slots(g, xs[j])
  {
    hide Slots;
    if n == 0 {
    } else {
      TouchedBySome(g, xs, n - 1, k);
      assert xs[..n][..n - 1] == xs[..n - 1];
    }
  }

  /** An input is adopted if it fills a slot exactly, once an empty one is a second long, and none before touched it. */
  lemma AdoptedIs(g: Grid, xs: seq<Sample>, i: nat)
    requires i < |xs|
    ensures var s := xs[i];
            var length := if s.start == s.end then 1 else s.end - s.start;
            Adopted(g, xs, i) <==>
              && length == g.step && (s.start - g.origin) % g.step == 0
              && forall j :: 0 <= j < i ==> Key(s.trust, s.user, s.start) !in Slots(g, xs[j])
  {
    TouchedBySome(g, xs, i, KeyOf(xs[i]));
    hide Touched;
    hide Slots;
  }

  /** A block between two times that fills one of the slots counted from the first. */
  predicate FillsSlot(r: DataRecord, start: int, end: int, resolution: int)
    requires resolution > 0
    reads r
  {
    && start <= r.start && r.end <= end && r.end == r.start + resolution
    && (r.start - start) % resolution == 0
  }

  lemma ResultInWindow(g: Grid, end: int, seen: seq<Sample>, out: seq<DataRecord>)
    requires Lists(g, Values(out), Regridded(g, end, seen))
    ensures forall r :: r in out ==> FillsSlot(r, g.origin, end, g.step)
  {
    hide Lists;
    var blocks := Values(out);
    WindowLaws.BlocksInWindow(g, end, seen, blocks);
    forall r | r in out
      ensures FillsSlot(r, g.origin, end, g.step)
    {
      var i :| 0 <= i < |out| && out[i] == r;
      assert blocks[i].start == r.start && blocks[i].end == r.end;
    }
  }

  /**
    What refactor leaves in the inputs, and which of them it returns: those adopted whose slot lies
    between the ends of the window.
   */
  ghost predicate InputsLeft(g: Grid, end: int, list: seq<DataRecord>, xs: seq<Sample>, seen: seq<Sample>,
                             out: seq<DataRecord>)
    requires |list| == |xs| == |seen|
    reads list
  {
    && (forall i :: 0 <= i < |list| && list[i] !in list[..i] ==>
          && list[i].Value() == Leftover(g, seen, i)
          && (list[i] in out <==> Adopted(g, seen, i) && g.origin <= seen[i].start <= end - g.step))
    && (forall i :: 0 <= i < |list| ==> list[i].end == xs[i].end + if xs[i].start == xs[i].end then 1 else 0)
  }

  lemma InputsAreLeft(g: Grid, end: int, list: seq<DataRecord>, xs: seq<Sample>, seen: seq<Sample>, table: Table,
                      out: seq<DataRecord>, keys: seq<Key>)
    requires |list| == |xs| == |seen| && Keyed(g, table)
    requires forall i :: 0 <= i < |list| && list[i] !in list[..i] ==> Placed(g, list[i], seen, i, table)
    requires forall i :: 0 <= i < |list| ==> list[i].end == Bumped(xs[i]).end
    requires |out| == |keys| && forall j :: 0 <= j < |out| ==> keys[j] in table && out[j] == table[keys[j]]
    requires forall k :: k in Elements(keys) <==> k in table && InWindow(g, end, k)
    ensures InputsLeft(g, end, list, xs, seen, out)
  {
    hide Leftover;
    hide Adopted;
    hide Keyed;
    forall i | 0 <= i < |list| && list[i] !in list[..i]
      ensures list[i].Value() == Leftover(g, seen, i)
      ensures list[i] in out <==> Adopted(g, seen, i) && g.origin <= seen[i].start <= end - g.step
    {
      AdoptedReturned(g, end, list, seen, i, table, out, keys);
    }
  }

  /** The loop of refactor over all samples. */
  method BuildTable(list: seq<DataRecord>, g: Grid, ghost xs: seq<Sample>) returns (table: Table)
    requires Values(list) == xs
    modifies list`end, list`down, list`up, list`uDown, list`uUp
    ensures Progress(g, list, xs, Seen(g, list, xs, |list|), table)
    ensures forall r :: r in table.Values ==> r in list || fresh(r)
    ensures forall i :: 0 <= i < |list| ==> list[i].end == Bumped(xs[i]).end
  {
    hide Progress;
    hide Seen;
    table := map[];
    StartProgress(g, list, xs);
    for n := 0 to |list|
      invariant Progress(g, list, xs, Seen(g, list, xs, n), table)
      invariant forall r :: r in table.Values ==> r in list || fresh(r)
      invariant forall i :: 0 <= i < |list| ==> list[i].start == xs[i].start
      invariant forall i :: 0 <= i < |list| ==>
                  list[i].end == if list[i] in list[..n] then Bumped(xs[i]).end else xs[i].end
    {
      table := Place(list[n], g, table, list, xs, n);
      NotMet(list, n);
    }
  }

  lemma SeenIfDistinct(g: Grid, list: seq<DataRecord>, xs: seq<Sample>)
    requires |xs| == |list|
    ensures Distinct(list) ==> Seen(g, list, xs, |list|) == xs
  {
    if Distinct(list) {
      SeenDistinct(g, list, xs, |list|);
      assert xs[..|list|] == xs;
    }
  }

  /**
    refactor. The result lists the cells of the specification for the values seen, which are the given
    ones unless the list holds an object twice. A record of the result is new or one of the inputs; of
    the inputs, empty ones end a second later, adopted ones hold the total of their slot, and nothing
    else has changed. Every block fills one slot of the grid between start and end.
   */
  method Refactor(list: seq<DataRecord>, start: int, end: int, resolution: int) returns (out: seq<DataRecord>)
    requires resolution > 0
    modifies list`end, list`down, list`up, list`uDown, list`uUp
    ensures var g := Raster(start, resolution);
            var xs := old(Values(list));
            var seen := Seen(g, list, xs, |list|);
            && Lists(g, Values(out), Regridded(g, end, seen))
            && InputsLeft(g, end, list, xs, seen, out)
            && (Distinct(list) ==> seen == xs)
    ensures forall r :: r in out ==> FillsSlot(r, start, end, resolution) && (r in list || fresh(r))
    ensures Distinct(out)
  {
    hide Progress;
    hide Seen;
    hide Leftover;
    hide Adopted;
    hide Keyed;
    hide Holds;
    hide Lists;
    hide Placed;
    hide Regridded;
    hide InputsLeft;
    hide FillsSlot;
    hide Distinct;
    hide Elements;
    var g: Grid := Raster(start, resolution);
    ghost var xs := Values(list);
    var table := BuildTable(list, g, xs);
    ghost var seen, keys := Seen(g, list, xs, |list|), [];
    EndProgress(g, list, xs, seen, table);
    out, keys := SelectBlocks(table, g, end);
    ListsSelected(g, end, seen, table, out, keys);
    InputsAreLeft(g, end, list, xs, seen, table, out, keys);
    ResultInWindow(g, end, seen, out);
    SeenIfDistinct(g, list, xs);
  }
}
