/** The road file as a stream of records, and the loop that hands every
    `read()` result to a callback. Decoding the binary file is not modelled:
    a source is opened on the sequence of geometries the file holds. */
module ShapeStream {
  import opened Geo

  /** The result of one `source.read()`: `{done, value}`. */
  datatype ReadResult = ReadResult(done: bool, value: Option<Geometry>)

  /** An opened shapefile source with its read cursor. */
  class Source {
    const records: seq<Geometry>
    var cursor: nat

    ghost predicate Valid()
      reads this
    {
      cursor <= |records|
    }

    /** `shapefile.open(fpath)`: a fresh cursor at the first record. */
    constructor Open(records: seq<Geometry>)
      ensures Valid() && this.records == records && cursor == 0
    {
      this.records := records;
      cursor := 0;
    }

    /** `source.read()`: the next record, or `done` with no value once
        every record has been read; reading past the end stays done. */
    method Read() returns (r: ReadResult)
      requires Valid()
      modifies this`cursor
      ensures Valid()
      ensures old(cursor) < |records| ==>
        r == ReadResult(false, Some(records[old(cursor)])) && cursor == old(cursor) + 1
      ensures old(cursor) == |records| ==> r == ReadResult(true, None) && cursor == old(cursor)
    {
      if cursor < |records| {
        r := ReadResult(false, Some(records[cursor]));
        cursor := cursor + 1;
      } else {
        r := ReadResult(true, None);
      }
    }
  }

  /** Every record, as the callback receives it. */
  function Records(rs: seq<Geometry>): seq<Option<Geometry>>
  {
    seq(|rs|, i requires 0 <= i < |rs| => Some(rs[i]))
  }

  /** What `readShapeFile` passes to its callback, call by call: each record
      in file order, then the `undefined` value of the final `done` result. */
  function Delivered(rs: seq<Geometry>): seq<Option<Geometry>>
  {
    Records(rs) + [None]
  }

  /** `readShapeFile`: opens a fresh source and calls `onResult(result.value)`
      after every read, including the one that reports `done`. The callback
      arguments are returned in call order. */
  method ReadShapeFile(records: seq<Geometry>) returns (values: seq<Option<Geometry>>)
    ensures values == Delivered(records)
  {
    var source := new Source.Open(records);
    var result: Option<ReadResult> := None;
    values := [];
    while result.None? || !result.value.done
      invariant source.Valid() && source.records == records
      invariant result.Some? && result.value.done ==> source.cursor == |records|
      invariant values == Records(records[..source.cursor]) + (if result.Some? && result.value.done then [None] else [])
      decreases |records| - source.cursor, if result.Some? && result.value.done then 0 else 1
    {
      ghost var before := source.cursor;
      var r := source.Read();
      result := Some(r);
      values := values + [r.value];
      if !r.done {
        assert records[..source.cursor] == records[..before] + [records[before]];
      }
    }
    assert records[..|records|] == records;
  }
}
