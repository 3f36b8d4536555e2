/**
 * The two output streams of a segment: the shared index blob (a byte
 * stream whose file pointer is its length) and the metadata stream, a
 * sequence of typed writes with one row per field and an end marker.
 */
module Streams {
  import opened Wrappers

  newtype byte = x: int | 0 <= x < 256

  /** Offset and length of each of the three sub-indexes of one field. */
  datatype Placement = Placement(
    cagraOffset: nat, cagraLength: nat,
    bruteForceOffset: nat, bruteForceLength: nat,
    hnswOffset: nat, hnswLength: nat)
  {
    /** Bytes the field occupies in the index blob. */
    function TotalLength(): nat
    {
      cagraLength + bruteForceLength + hnswLength
    }

    /** The three sub-indexes lie back to back, in writing order, from cagraOffset on. */
    predicate Tiles()
    {
      && bruteForceOffset == cagraOffset + cagraLength
      && hnswOffset == bruteForceOffset + bruteForceLength
    }
  }

  /** The placement written for a field without vectors. */
  const EMPTY_PLACEMENT := Placement(0, 0, 0, 0, 0, 0)

  /** One field's metadata row. */
  datatype Row = Row(
    field: nat, encoding: int, similarity: int, dimension: nat, count: nat,
    placement: Placement)

  /** One call on the metadata IndexOutput; Header and Footer stand for CodecUtil's bytes. */
  datatype MetaWrite = Header | Int32(i: int) | VLong(n: nat) | Footer

  /** The field number that marks the end of the rows. */
  const END_OF_FIELDS: int := -1

  /** Number of writes in one row: five ints, then six variable-length longs. */
  const ROW_WRITES: nat := 11

  /** writeMeta: the writes of one row, in order. */
  function RowWrites(r: Row): (ws: seq<MetaWrite>)
    ensures |ws| == ROW_WRITES
  {
    var p := r.placement;
    [ Int32(r.field), Int32(r.encoding), Int32(r.similarity), Int32(r.dimension), Int32(r.count),
      VLong(p.cagraOffset), VLong(p.cagraLength),
      VLong(p.bruteForceOffset), VLong(p.bruteForceLength),
      VLong(p.hnswOffset), VLong(p.hnswLength) ]
  }

  /** The writes of several rows, one after the other. */
  function RowsWrites(rows: seq<Row>): (ws: seq<MetaWrite>)
    ensures |ws| == ROW_WRITES * |rows|
  {
    if rows == [] then [] else RowWrites(rows[0]) + RowsWrites(rows[1..])
  }

  /** The reading side of one row: five ints and six longs, or None. */
  function ReadRow(ws: seq<MetaWrite>): Option<Row>
  {
    if |ws| < ROW_WRITES then None
    else if && ws[0].Int32? && ws[0].i >= 0 && ws[1].Int32? && ws[2].Int32?
            && ws[3].Int32? && ws[3].i >= 0 && ws[4].Int32? && ws[4].i >= 0
            && ws[5].VLong? && ws[6].VLong? && ws[7].VLong?
            && ws[8].VLong? && ws[9].VLong? && ws[10].VLong?
    then
      Some(Row(ws[0].i, ws[1].i, ws[2].i, ws[3].i, ws[4].i,
               Placement(ws[5].n, ws[6].n, ws[7].n, ws[8].n, ws[9].n, ws[10].n)))
    else None
  }

  /** The reading side of the metadata stream: rows up to the end marker. */
  function ReadRows(ws: seq<MetaWrite>): Option<seq<Row>>
    decreases |ws|
  {
    if |ws| == 0 then None
    else if ws[0] == Int32(END_OF_FIELDS) then Some([])
    else match ReadRow(ws)
      case None => None
      case Some(r) =>
        match ReadRows(ws[ROW_WRITES..])
        case None => None
        case Some(rs) => Some([r] + rs)
  }

  /** Rows written and closed by the end marker read back exactly, whatever follows. */
  lemma {:induction false} ReadRowsInverse(rows: seq<Row>, tail: seq<MetaWrite>)
    ensures ReadRows(RowsWrites(rows) + [Int32(END_OF_FIELDS)] + tail) == Some(rows)
  {
    var ws := RowsWrites(rows) + [Int32(END_OF_FIELDS)] + tail;
    if rows != [] {
      var rest := RowsWrites(rows[1..]) + [Int32(END_OF_FIELDS)] + tail;
      assert ws == RowWrites(rows[0]) + rest;
      assert ws[ROW_WRITES..] == rest;
      assert ReadRow(ws) == Some(rows[0]);
      ReadRowsInverse(rows[1..], tail);
      assert [rows[0]] + rows[1..] == rows;
    }
  }
}
