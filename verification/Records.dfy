/** The mutable usage record that requests carry and the database stores. */
module Records {
  import opened Counts
  import opened Regrid
  import opened Options

  class DataRecord {
    var id: Option<nat>
    var trust: nat
    var archived: int
    var down: int
    var up: int
    var uDown: int
    var uUp: int
    var start: int
    var end: int
    var userId: nat

    constructor ()
      ensures id == None && archived == 0 && down == 0 && up == 0 && uDown == 0 && uUp == 0
    {
      id, archived, down, up, uDown, uUp := None, 0, 0, 0, 0, 0;
      trust, userId, start, end := 0, 0, 0, 0;
    }

    function CountsOf(): (c: Counts)
      reads this
      ensures c.down == down && c.up == up && c.uDown == uDown && c.uUp == uUp
    {
      Counts(down, up, uDown, uUp)
    }

    function Value(): Sample
      reads this
    {
      Sample(trust, userId, start, end, CountsOf())
    }
  }

  ghost function Values(list: seq<DataRecord>): (xs: seq<Sample>)
    reads list
    ensures |xs| == |list| && forall i :: 0 <= i < |list| ==> xs[i] == list[i].Value()
  {
    seq(|list|, i requires 0 <= i < |list| reads list => list[i].Value())
  }

  /** Adds to the four counters of a block. */
  method AddTo(block: DataRecord, down: int, up: int, uDown: int, uUp: int)
    modifies block`down, block`up, block`uDown, block`uUp
    ensures block.CountsOf() == Plus(old(block.CountsOf()), Counts(down, up, uDown, uUp))
  {
    block.down := block.down + down;
    block.up := block.up + up;
    block.uDown := block.uDown + uDown;
    block.uUp := block.uUp + uUp;
  }
}
