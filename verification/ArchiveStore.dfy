/** The record table of the backend, with the phases of refactorArchive run on it. */
module ArchiveStore {
  import opened Counts
  import opened Regrid
  import opened Options
  import opened Records
  import opened Archive
  import opened DataList

  ghost function NonZeroBlocks(blocks: seq<Sample>): seq<Sample> {
    if blocks == [] then []
    else
      var rest, last := NonZeroBlocks(blocks[..|blocks| - 1]), blocks[|blocks| - 1];
      if last.counts == ZERO then rest else rest + [last]
  }

  /** The store before, with records under the ids news added for the given samples. */
  ghost predicate AddedRows(before: Rows, rows: Rows, news: seq<nat>, samples: seq<Sample>, level: int) {
    && Distinct(news) && |news| == |samples| && Elements(news) !! before.Keys
    && rows.Keys == before.Keys + Elements(news)
    && (forall id :: id in before ==> rows[id] == before[id])
    && (forall i :: 0 <= i < |news| ==> news[i] in rows && rows[news[i]] == Row(samples[i], level))
  }

  lemma ElementsOfAppend<K(!new)>(ks: seq<K>, k: K)
    ensures Elements(ks + [k]) == Elements(ks) + {k}
  {
    assert forall i :: 0 <= i < |ks| ==> (ks + [k])[i] == ks[i];
    assert (ks + [k])[|ks|] == k;
  }

  lemma AddedOne(before: Rows, rows: Rows, news: seq<nat>, samples: seq<Sample>, level: int, id: nat, s: Sample)
    requires AddedRows(before, rows, news, samples, level) && id !in rows
    ensures AddedRows(before, rows[id := Row(s, level)], news + [id], samples + [s], level)
  {
    ElementsOfAppend(news, id);
    forall i | 0 <= i < |news|
      ensures news[i] != id
    {
      assert news[i] in Elements(news);
    }
  }

  lemma {:induction false} NonZeroIn(blocks: seq<Sample>)
    ensures forall s :: s in NonZeroBlocks(blocks) <==> s in blocks && s.counts != ZERO
  {
    if blocks == [] {
    } else {
      var n := |blocks| - 1;
      NonZeroIn(blocks[..n]);
      assert blocks == blocks[..n] + [blocks[n]];
    }
  }

  lemma {:induction false} NonZeroListed(blocks: seq<Sample>)
    requires Distinct(KeysOf(blocks))
    ensures Distinct(KeysOf(NonZeroBlocks(blocks)))
  {
    if blocks == [] {
    } else {
      var n := |blocks| - 1;
      var rest, last, some := blocks[..n], blocks[n], NonZeroBlocks(blocks[..n]);
      assert KeysOf(blocks)[..n] == KeysOf(rest);
      NonZeroListed(rest);
      NonZeroIn(rest);
      forall i | 0 <= i < |some|
        ensures KeyOf(some[i]) != KeyOf(last)
      {
        assert some[i] in rest;
        var j :| 0 <= j < n && rest[j] == some[i];
        assert KeysOf(blocks)[j] != KeysOf(blocks)[n];
      }
      assert KeysOf(some + [last]) == KeysOf(some) + [KeyOf(last)];
    }
  }

  /** The blocks that hold something are the cells that do. */
  lemma NonZeroLists(g: Grid, blocks: seq<Sample>, cells: map<Key, Counts>)
    requires Lists(g, blocks, cells)
    ensures Lists(g, NonZeroBlocks(blocks), NonZero(cells))
  {
    NonZeroIn(blocks);
    NonZeroListed(blocks);
    var some := NonZeroBlocks(blocks);
    forall i | 0 <= i < |some|
      ensures KeyOf(some[i]) in NonZero(cells)
      ensures some[i] == BlockOf(g, KeyOf(some[i]), NonZero(cells)[KeyOf(some[i])])
    {
      assert some[i] in blocks;
      var j :| 0 <= j < |blocks| && blocks[j] == some[i];
    }
    forall k | k in NonZero(cells)
      ensures k in Elements(KeysOf(some))
    {
      assert k in Elements(KeysOf(blocks));
      var j :| 0 <= j < |blocks| && KeysOf(blocks)[j] == k;
      assert blocks[j] in some;
      var i :| 0 <= i < |some| && some[i] == blocks[j];
      assert KeysOf(some)[i] == k;
    }
  }

  lemma PhaseDone(pre: Rows, post: Rows, ids: seq<nat>, news: seq<nat>, cut: int, g: Grid, level: int,
                  xs: seq<Sample>, blocks: seq<Sample>)
    requires Distinct(ids) && |xs| == |ids|
    requires forall id :: id in Elements(ids) <==> id in pre && SelectedForArc(pre[id], 0, cut, None, level)
    requires forall i :: 0 <= i < |ids| ==> ids[i] in pre && xs[i] == pre[ids[i]].sample
    requires Lists(g, blocks, Regridded(g, cut + g.step, xs))
    requires AddedRows(pre - Elements(ids), post, news, NonZeroBlocks(blocks), level)
    ensures Phase(pre, post, cut, g, level)
  {
    hide Regridded;
    assert Elements(ids) == Taken(pre, cut, level);
    assert SamplesAt(pre, ids) == xs;
    assert (pre - Elements(ids)).Keys == pre.Keys - Elements(ids);
    NonZeroLists(g, blocks, Regridded(g, cut + g.step, xs));
    assert SamplesAt(post, news) == NonZeroBlocks(blocks);
    assert PhaseStep(pre, post, ids, news, cut, g, level);
  }

  method LoadRecord(id: nat, row: Row) returns (record: DataRecord)
    ensures fresh(record) && record.id == Some(id) && record.Value() == row.sample && record.archived == row.archived
  {
    record := new DataRecord();
    record.id := Some(id);
    record.trust := row.sample.trust;
    record.userId := row.sample.user;
    record.start := row.sample.start;
    record.end := row.sample.end;
    record.down := row.sample.counts.down;
    record.up := row.sample.counts.up;
    record.uDown := row.sample.counts.uDown;
    record.uUp := row.sample.counts.uUp;
    record.archived := row.archived;
  }

  class Store {
    var rows: Rows
    var nextId: nat

    ghost predicate Valid()
      reads this
    {
      forall id :: id in rows ==> id < nextId
    }

    constructor ()
      ensures Valid() && rows == map[]
    {
      rows, nextId := map[], 0;
    }

    /** A record object for every row meeting a condition, in no particular order. */
    method Select(condition: Row -> bool) returns (list: seq<DataRecord>, ghost ids: seq<nat>)
      ensures Fetched(list, ids)
      ensures forall id :: id in Elements(ids) <==> id in rows && condition(rows[id])
    {
      list, ids := [], [];
      var rest := rows.Keys;
      while rest != {}
        invariant rest <= rows.Keys && Fetched(list, ids)
        invariant forall i :: 0 <= i < |ids| ==> ids[i] !in rest && condition(rows[ids[i]])
        invariant forall id :: id in rows && id !in rest && condition(rows[id]) ==> id in ids
        decreases rest
      {
        var id :| id in rest;
        rest := rest - {id};
        if condition(rows[id]) {
          var record := LoadRecord(id, rows[id]);
          list := list + [record];
          ids := ids + [id];
        }
      }
    }

    /** Distinct new objects, each with the id and the values of its row. */
    twostate predicate Fetched(new list: seq<DataRecord>, ids: seq<nat>)
      reads this, list
    {
      && |list| == |ids| && Distinct(list) && Distinct(ids)
      && forall i :: 0 <= i < |list| ==>
           && fresh(list[i]) && ids[i] in rows && list[i].id == Some(ids[i])
           && list[i].Value() == rows[ids[i]].sample && list[i].archived == rows[ids[i]].archived
    }

    /** getDataForArc for all users. */
    method GetDataForArc(begining: int, end: int, nextState: int) returns (list: seq<DataRecord>, ghost ids: seq<nat>)
      ensures Fetched(list, ids)
      ensures forall id :: id in Elements(ids) <==>
                             && id in rows && begining <= rows[id].sample.end && rows[id].sample.start <= end
                             && (nextState >= 0 ==> rows[id].archived <= nextState)
    {
      list, ids := Select(row => SelectedForArc(row, begining, end, None, nextState));
    }

    /** getData of a user, in every archive state. */
    method GetData(begining: int, end: int, user: nat) returns (list: seq<DataRecord>, ghost ids: seq<nat>)
      ensures Fetched(list, ids)
      ensures Elements(ids) == OfUserBetween(rows, user, begining, end)
    {
      list, ids := Select(row => Selected(row, begining, end, Some(user), -1));
    }

    /**
      getData of a user at a resolution: the records as they are for a resolution of 0, and otherwise
      regridded from the start of the span, without what lies outside it.
     */
    method GetUserData(begining: int, end: int, user: nat, resolution: nat)
      returns (out: seq<DataRecord>, ghost ids: seq<nat>)
      ensures Distinct(ids) && Elements(ids) == OfUserBetween(rows, user, begining, end)
      ensures var xs := SamplesAt(rows, ids);
              if resolution == 0 then Values(out) == xs
              else Lists(Raster(begining, resolution), Values(out), Regridded(Raster(begining, resolution), end, xs))
      ensures resolution > 0 ==> forall r :: r in out ==> FillsSlot(r, begining, end, resolution)
    {
      hide Lists;
      hide Regridded;
      hide Seen;
      hide InputsLeft;
      hide FillsSlot;
      var list;
      list, ids := GetData(begining, end, user);
      assert forall i :: 0 <= i < |ids| ==> ids[i] in Elements(ids);
      assert Values(list) == SamplesAt(rows, ids);
      if resolution == 0 {
        return list, ids;
      }
      out := Refactor(list, begining, end, resolution);
    }

    /** delete, for every record of a list that was read from the table. */
    method DeleteAll(list: seq<DataRecord>, ghost ids: seq<nat>)
      requires Valid() && |list| == |ids| && forall i :: 0 <= i < |list| ==> list[i].id == Some(ids[i])
      modifies this`rows
      ensures Valid() && rows == old(rows) - Elements(ids)
    {
      for n := 0 to |list|
        invariant Valid() && rows == old(rows) - Elements(ids[..n])
      {
        assert Elements(ids[..n + 1]) == Elements(ids[..n]) + {ids[n]} by {
          assert forall i :: 0 <= i < n ==> ids[..n + 1][i] == ids[..n][i];
          assert ids[..n + 1][n] == ids[n];
        }
        rows := rows - {list[n].id.value};
      }
      assert ids[..|list|] == ids;
    }

    /** insert, under a new id. */
    method Insert(record: DataRecord)
      requires Valid()
      modifies this, record`id
      ensures Valid() && rows == old(rows)[old(nextId) := Row(record.Value(), record.archived)]
      ensures nextId == old(nextId) + 1 && old(nextId) !in old(rows)
    {
      rows := rows[nextId := Row(record.Value(), record.archived)];
      record.id := Some(nextId);
      nextId := nextId + 1;
    }

    /** Stores the records that hold something, as archived at a level. */
    method InsertBlocks(list: seq<DataRecord>, level: int, ghost blocks: seq<Sample>) returns (ghost news: seq<nat>)
      requires Valid() && Distinct(list) && |list| == |blocks|
      requires forall i :: 0 <= i < |list| ==> list[i].Value() == blocks[i]
      modifies this, list`id, list`archived
      ensures Valid() && AddedRows(old(rows), rows, news, NonZeroBlocks(blocks), level)
    {
      news := [];
      ghost var before := rows;
      for n := 0 to |list|
        invariant Valid() && AddedRows(before, rows, news, NonZeroBlocks(blocks[..n]), level)
        invariant forall i :: 0 <= i < |list| ==> list[i].Value() == blocks[i]
      {
        var record := list[n];
        assert blocks[..n + 1][..n] == blocks[..n];
        if record.down == 0 && record.up == 0 && record.uDown == 0 && record.uUp == 0 {
          continue;
        }
        record.archived := level;
        AddedOne(before, rows, news, NonZeroBlocks(blocks[..n]), level, nextId, record.Value());
        news := news + [nextId];
        Insert(record);
      }
      assert blocks[..|list|] == blocks;
    }

    /** One phase: the records due for a level are replaced by their regridded sum. */
    method ArchiveLevel(cut: int, size: int, level: int)
      requires Valid() && size > 0
      modifies this
      ensures Valid() && Phase(old(rows), rows, cut, Raster(0, size), level)
    {
      hide Regridded;
      hide Lists;
      hide NonZeroBlocks;
      hide Phase;
      hide AddedRows;
      hide Leftover;
      hide Seen;
      ghost var g: Grid := Raster(0, size);
      var oldData, ids := GetDataForArc(0, cut, level);
      ghost var pre, xs := rows, Values(oldData);
      assert forall i :: 0 <= i < |ids| ==> ids[i] in pre && xs[i] == pre[ids[i]].sample;
      var newData := Refactor(oldData, 0, cut + size, size);
      ghost var blocks := Values(newData);
      forall i | 0 <= i < |newData|
        ensures fresh(newData[i])
      {
        assert newData[i] in newData;
        if newData[i] in oldData {
          var j :| 0 <= j < |oldData| && oldData[j] == newData[i];
        }
      }
      DeleteAll(oldData, ids);
      ghost var news := InsertBlocks(newData, level, blocks);
      PhaseDone(pre, rows, ids, news, cut, g, level, xs, blocks);
    }

    /** refactorArchive at a time. */
    method RefactorArchive(now: int)
      requires Valid()
      modifies this
      ensures Valid() && ArchiveStep(old(rows), rows, now)
    {
      hide Phase;
      ghost var pre := rows;
      ArchiveLevel(now - L1_DELAY, L1_SIZE, 1);
      ghost var mid := rows;
      assert Level1(pre, mid, now);
      ArchiveLevel(now - L2_DELAY, L2_SIZE, 2);
      assert Level2(mid, rows, now);
    }
  }
}
