/** dinemeter.daemon.Daemon run by one thread at a time: each method is one pass between two waits. */
module Daemon {
  import opened Counts
  import opened Records
  import opened IpFilter
  import opened Metering

  /** Addresses that some line of the unmetered list covers. */
  ghost function FreeBy(lines: seq<Line>): int -> bool {
    (ip: int) => exists k :: 0 <= k < |lines| && Covers(lines[k], SplitIp(ip))
  }

  lemma PlusIs(a: Counts, b: Counts)
    ensures Plus(a, b) == Counts(a.down + b.down, a.up + b.up, a.uDown + b.uDown, a.uUp + b.uUp)
  {
  }

  /** The addresses of a table that some line of the unmetered list names. */
  ghost function Unmetered(lines: seq<Line>, table: map<int, Traffic>): set<int> {
    set ip | ip in table && exists k :: 0 <= k < |lines| && Names(lines[k], ip)
  }

  /** Field by field, traffic of named addresses counts as unmetered and that of the others as metered. */
  ghost predicate SplitByList(lines: seq<Line>, table: map<int, Traffic>, v: Counts) {
    var named := Unmetered(lines, table);
    && v.uDown == IntSumOver(named, DownAt(table)) && v.uUp == IntSumOver(named, UpAt(table))
    && v.down == IntSumOver(table.Keys - named, DownAt(table))
    && v.up == IntSumOver(table.Keys - named, UpAt(table))
  }

  lemma FreeAsWritten(lines: seq<Line>, ip: int)
    ensures FreeBy(lines)(ip) <==> exists k :: 0 <= k < |lines| && Names(lines[k], ip)
  {
    hide Covers;
    hide Names;
    forall k | 0 <= k < |lines|
      ensures Covers(lines[k], SplitIp(ip)) <==> Names(lines[k], ip)
    {
      CoversAsWritten(lines[k], ip);
    }
  }

  lemma TalliedByList(lines: seq<Line>, table: map<int, Traffic>)
    ensures SplitByList(lines, table, AllTallied(FreeBy(lines), table))
  {
    hide Covers;
    hide Names;
    var free := FreeBy(lines);
    forall ip: int
      ensures free(ip) <==> exists k :: 0 <= k < |lines| && Names(lines[k], ip)
    {
      FreeAsWritten(lines, ip);
    }
    TalliedByField(free, table);
    assert Unmetered(lines, table) == set k | k in table && free(k);
  }

  class Meter {
    var vals: map<int, Traffic>
    var totals: Counts
    var start: int
    var end: int
    var unmetered: Filter?
    ghost var lines: seq<Line>
    ghost var nodes: Nodes

    /** The filter stands for the list read; before one is read nothing is unmetered. */
    ghost predicate Valid()
      reads this, NodeSet(nodes), if unmetered == null then {} else {unmetered}
    {
      if unmetered == null then lines == []
      else Built(lines, |lines|, nodes) && HeadOf(unmetered, lines, nodes)
    }

    /** The bytes not yet sent, metered and unmetered. */
    ghost function Unsent(): Counts
      reads this
    {
      Plus(AllTallied(FreeBy(lines), vals), totals)
    }

    constructor (now: int)
      ensures Valid() && lines == [] && end == now && Unsent() == ZERO
    {
      vals, totals, start, end, unmetered := map[], ZERO, now, now, null;
      lines, nodes := [], [];
      new;
      hide AllTallied;
      NothingTallied(FreeBy(lines));
      PlusZero(ZERO);
    }

    method ReadUnmetered(list: seq<Line>)
      requires vals == map[]
      modifies this`unmetered, this`lines, this`nodes
      ensures Valid() && lines == list && unmetered != null
    {
      hide Built;
      hide HeadOf;
      unmetered, nodes := ReadIpList(list);
      lines := list;
    }

    /** handler: a packet. */
    method Handler(down: int, up: int, add: int)
      requires Valid()
      modifies this`vals
      ensures Valid() && vals.Keys == old(vals).Keys + {add}
      ensures forall k :: k in old(vals) && k != add ==> vals[k] == old(vals)[k]
      ensures vals[add] == (if add in old(vals) then Traffic(old(vals)[add].down + down, old(vals)[add].up + up)
                            else Traffic(down, up))
      ensures Unsent() == Plus(old(Unsent()), Split(FreeBy(lines), add, Traffic(down, up)))
    {
      hide NodeFits;
      hide Split;
      hide AllTallied;
      hide Plus;
      ghost var was, sum := if add in vals then vals[add] else Traffic(0, 0), AllTallied(FreeBy(lines), vals);
      TalliedAdd(FreeBy(lines), vals, add, was, Traffic(down, up));
      if add !in vals {
        vals := vals[add := Traffic(down, up)];
      } else {
        vals := vals[add := vals[add].(down := vals[add].down + down)];
        vals := vals[add := vals[add].(up := vals[add].up + up)];
      }
      assert vals == old(vals)[add := Traffic(was.down + down, was.up + up)];
      PlusMiddle(sum, Split(FreeBy(lines), add, Traffic(down, up)), totals);
    }

    /** realtime: the table is emptied, and its traffic added to the totals by what the filter says. */
    method Realtime() returns (v: Counts)
      requires Valid()
      modifies this`vals, this`totals
      ensures Valid() && vals == map[]
      ensures v == AllTallied(FreeBy(lines), old(vals)) && totals == Plus(old(totals), v)
      ensures SplitByList(lines, old(vals), v)
      ensures Unsent() == old(Unsent())
    {
      hide NodeFits;
      hide NodeSet;
      hide Split;
      hide Plus;
      hide Tallied;
      var taken := vals;
      vals := map[];
      v := Tally(taken);
      TalliedByList(lines, taken);
      totals := totals.(down := totals.down + v.down);
      totals := totals.(up := totals.up + v.up);
      totals := totals.(uDown := totals.uDown + v.uDown);
      totals := totals.(uUp := totals.uUp + v.uUp);
      PlusIs(old(totals), v);
      NothingTallied(FreeBy(lines));
      PlusZero(totals);
      PlusCommutes(old(totals), v);
    }

    method Tally(taken: map<int, Traffic>) returns (v: Counts)
      requires Valid()
      ensures v == AllTallied(FreeBy(lines), taken) && SplitByList(lines, taken, v)
    {
      TalliedByList(lines, taken);
      hide SplitByList;
      hide NodeFits;
      hide NodeSet;
      hide Covers;
      hide Tallied;
      v := ZERO;
      var keys := taken.Keys;
      ghost var free, done: set<int> := FreeBy(lines), {};
      NoneTallied(free, taken);
      while keys != {}
        invariant keys !! done && keys + done == taken.Keys
        invariant v == Tallied(free, taken, done)
        decreases keys
      {
        ghost var some := OneOf(keys);
        var key :| key in keys;
        keys := keys - {key};
        var found := Match(unmetered, key, lines, nodes);
        assert found == free(key);
        assert done + {key} - {key} == done;
        done := done + {key};
        TalliedOne(free, taken, done, key);
        if found {
          v := v.(uDown := v.uDown + taken[key].down);
          v := v.(uUp := v.uUp + taken[key].up);
        } else {
          v := v.(down := v.down + taken[key].down);
          v := v.(up := v.up + taken[key].up);
        }
      }
      assert done == taken.Keys;
    }

    /** output: the totals of the time since the last pass, as the record to send. */
    method Output(now: int) returns (dR: DataRecord)
      requires Valid()
      modifies this`totals, this`start, this`end
      ensures Valid() && fresh(dR)
      ensures dR.CountsOf() == old(totals) && totals == Counts(0, 0, 0, 0)
      ensures dR.down == old(totals).down && dR.up == old(totals).up
      ensures dR.uDown == old(totals).uDown && dR.uUp == old(totals).uUp
      ensures dR.start == old(end) && dR.end == now == end && dR.start == start
      ensures Plus(Unsent(), dR.CountsOf()) == old(Unsent())
    {
      hide AllTallied;
      hide Plus;
      var v := totals;
      totals := ZERO;
      start := end;
      end := now;
      dR := new DataRecord();
      dR.down := v.down;
      dR.up := v.up;
      dR.uDown := v.uDown;
      dR.uUp := v.uUp;
      dR.start := start;
      dR.end := end;
      PlusZero(AllTallied(FreeBy(lines), vals));
    }
  }
}
