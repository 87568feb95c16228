/**
 * The icon position store: the file holds a sequence of (identity key,
 * top-left point) records; reading it back builds a map in which the last
 * record for a key wins.
 */
module Positions {
  import opened Qt

  /** One record of the position file: a file path and the icon's top-left corner. */
  datatype Record = Record(key: string, pos: Point)

  /** The map the read loop builds: later records overwrite earlier ones with the same key. */
  function LastWins(rs: seq<Record>): map<string, Point> {
    if |rs| == 0 then map[]
    else LastWins(rs[..|rs| - 1])[rs[|rs| - 1].key := rs[|rs| - 1].pos]
  }

  /** A key is in the map exactly when some record carries it. */
  lemma {:induction false} LastWinsDomain(rs: seq<Record>, k: string)
    ensures k in LastWins(rs) <==> exists i :: 0 <= i < |rs| && rs[i].key == k
  {
    if |rs| > 0 {
      var init := rs[..|rs| - 1];
      LastWinsDomain(init, k);
      if k in LastWins(init) {
        var i :| 0 <= i < |init| && init[i].key == k;
        assert rs[i].key == k;
      }
      if exists i :: 0 <= i < |rs| && rs[i].key == k {
        var i :| 0 <= i < |rs| && rs[i].key == k;
        if i < |init| {
          assert init[i].key == k;
        }
      }
    }
  }

  /** The value of a key is the point of the last record carrying it. */
  lemma {:induction false} LastWinsValue(rs: seq<Record>, i: int)
    requires 0 <= i < |rs|
    requires forall j :: i < j < |rs| ==> rs[j].key != rs[i].key
    ensures rs[i].key in LastWins(rs) && LastWins(rs)[rs[i].key] == rs[i].pos
  {
    if i < |rs| - 1 {
      var init := rs[..|rs| - 1];
      assert init[i] == rs[i];
      LastWinsValue(init, i);
    }
  }

  /** The contents of the position file. */
  class PositionFile {
    var records: seq<Record>

    constructor (records: seq<Record>)
      ensures this.records == records
    {
      this.records := records;
    }
  }

  /**
   * The read loop of restorePositions: every record of the file, in order,
   * into the map; a file that could not be opened (`readable` false) gives
   * an empty map.
   */
  method ReadPositions(file: PositionFile, readable: bool) returns (positions: map<string, Point>)
    ensures positions == (if readable then LastWins(file.records) else map[])
  {
    positions := map[];
    if readable {
      var rs := file.records;
      var i := 0;
      while i < |rs|
        invariant 0 <= i <= |rs|
        invariant positions == LastWins(rs[..i])
      {
        assert rs[..i + 1][..i] == rs[..i];
        positions := positions[rs[i].key := rs[i].pos];
        i := i + 1;
      }
      assert rs[..i] == rs;
    }
  }
}
