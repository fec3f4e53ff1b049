/** A chunk: a 3-D array of cell materials, or a placeholder for a chunk
    whose remote fetch has not completed (Chunk in pkg/common/planet.go). */
module Chunks {
  import opened Wrappers
  import opened Grid

  /** `cells[lon][lat][alt]` is the material code of one array slot. Cells
      are pointers in the source; here an edit builds a new chunk value. */
  datatype Chunk = Chunk(waitingForData: bool, cells: seq<seq<seq<int>>>)

  /** `&Chunk{WaitingForData: true}`: installed while a fetch is in flight. */
  const Placeholder: Chunk := Chunk(true, [])

  /** The cell array is exactly lon x lat x alt. */
  predicate HasShape(c: Chunk, lon: int, lat: int, alt: int) {
    && |c.cells| == lon
    && (forall i :: 0 <= i < |c.cells| ==> |c.cells[i]| == lat)
    && (forall i, j :: 0 <= i < |c.cells| && 0 <= j < |c.cells[i]| ==> |c.cells[i][j]| == alt)
  }

  /** The slot exists in the array (Go indexing does not panic). */
  predicate HasSlot(c: Chunk, l: LocalIndex) {
    && 0 <= l.lon < |c.cells|
    && 0 <= l.lat < |c.cells[l.lon]|
    && 0 <= l.alt < |c.cells[l.lon][l.lat]|
  }

  /** `chunk.Cells[lon][lat][alt]`, or None where Go would panic. */
  function CellAt(c: Chunk, l: LocalIndex): (m: Option<int>)
    ensures m.Some? <==> HasSlot(c, l)
  {
    if HasSlot(c, l) then Some(c.cells[l.lon][l.lat][l.alt]) else None
  }

  /** `cell.Material = m` through the slot's pointer. */
  function WriteCell(c: Chunk, l: LocalIndex, m: int): (r: Chunk)
    requires HasSlot(c, l)
    ensures r.waitingForData == c.waitingForData
    ensures |r.cells| == |c.cells|
    ensures forall i :: 0 <= i < |c.cells| ==> |r.cells[i]| == |c.cells[i]|
    ensures forall i, j :: 0 <= i < |c.cells| && 0 <= j < |c.cells[i]| ==> |r.cells[i][j]| == |c.cells[i][j]|
  {
    var row := c.cells[l.lon];
    var column := row[l.lat];
    Chunk(c.waitingForData, c.cells[l.lon := row[l.lat := column[l.alt := m]]])
  }

  /** A write is seen by a read of the same slot and by no other slot, and
      keeps the array's shape. */
  lemma ReadAfterWrite(c: Chunk, l: LocalIndex, m: int, l2: LocalIndex)
    requires HasSlot(c, l)
    ensures HasSlot(WriteCell(c, l, m), l2) <==> HasSlot(c, l2)
    ensures CellAt(WriteCell(c, l, m), l2) == if l2 == l then Some(m) else CellAt(c, l2)
  {
  }

  /** Writing the material a slot already holds changes nothing. */
  lemma WriteSameIsIdentity(c: Chunk, l: LocalIndex)
    requires HasSlot(c, l)
    ensures WriteCell(c, l, c.cells[l.lon][l.lat][l.alt]) == c
  {
    var row := c.cells[l.lon];
    var column := row[l.lat];
    assert column[l.alt := column[l.alt]] == column;
    assert row[l.lat := column] == row;
    assert c.cells[l.lon := row] == c.cells;
  }

  lemma WriteKeepsShape(c: Chunk, l: LocalIndex, m: int, lon: int, lat: int, alt: int)
    requires HasSlot(c, l) && HasShape(c, lon, lat, alt)
    ensures HasShape(WriteCell(c, l, m), lon, lat, alt)
  {
  }
}
