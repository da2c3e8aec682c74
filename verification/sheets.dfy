/** The row-to-artist conversion of `getArtistsData`: the values of the
    range `Artists!A1:E` arrive as rows of cells, the first row is the
    header, and every other row becomes one artist record whose fields are
    read from columns A to E. */
module Sheets {
  import opened Wrappers

  /** One row of the range as the API returns it: its cells from column A
      on. Trailing empty cells are not sent, so a row can be shorter than
      five cells. */
  type Row = seq<string>

  /** The record built for one data row; a field is None (`undefined`) when
      its column is past the end of the row. */
  datatype Artist = Artist(
    name: Option<string>,
    specialty: Option<string>,
    location: Option<string>,
    schedule: Option<string>,
    notes: Option<string>)

  /** The number of columns read from a row. */
  const Columns := 5

  /** `row[i]`: `undefined` past the end of the row. */
  function Cell(row: Row, i: nat): Option<string> {
    if i < |row| then Some(row[i]) else None
  }

  /** The object literal built for one row: field i holds the row's cell i,
      and is undefined exactly when the row has at most i cells. */
  function RowToArtist(row: Row): (a: Artist)
    ensures forall i :: 0 <= i < Columns ==> (Fields(a)[i].None? <==> |row| <= i)
    ensures forall i :: 0 <= i < Columns && i < |row| ==> Fields(a)[i] == Some(row[i])
  {
    Artist(Cell(row, 0), Cell(row, 1), Cell(row, 2), Cell(row, 3), Cell(row, 4))
  }

  /** The fields of an artist in column order, A to E. */
  function Fields(a: Artist): (fs: seq<Option<string>>)
    ensures |fs| == Columns
  {
    [a.name, a.specialty, a.location, a.schedule, a.notes]
  }

  /** The leading defined fields, as the row they could have come from. */
  function DefinedPrefix(fs: seq<Option<string>>): (cells: seq<string>)
    ensures |cells| <= |fs|
    ensures forall k :: 0 <= k < |cells| ==> fs[k] == Some(cells[k])
    ensures |cells| < |fs| ==> fs[|cells|].None?
    decreases |fs|
  {
    if |fs| == 0 || fs[0].None? then [] else [fs[0].value] + DefinedPrefix(fs[1..])
  }

  /** Reading a row of at most five cells into a record loses nothing: the
      row can be rebuilt from the record. */
  lemma {:induction false} RowRoundTrip(row: Row)
    requires |row| <= Columns
    ensures DefinedPrefix(Fields(RowToArtist(row))) == row
  {
    var fs := Fields(RowToArtist(row));
    var cells := DefinedPrefix(fs);
    if |row| < Columns {
      assert fs[|row|].None?;
    }
    assert |cells| == |row|;
    assert forall k :: 0 <= k < |row| ==> cells[k] == row[k];
  }

  /** Cells past column E are never read. */
  lemma ExtraCellsIgnored(row: Row)
    requires |row| > Columns
    ensures RowToArtist(row) == RowToArtist(row[..Columns])
  {
  }

  /** `rows.map(row => ...)`: one record per row, in the same order. */
  function MapRows(rows: seq<Row>): (artists: seq<Artist>)
    ensures |artists| == |rows|
    ensures forall i :: 0 <= i < |rows| ==> artists[i] == RowToArtist(rows[i])
    decreases |rows|
  {
    if |rows| == 0 then [] else [RowToArtist(rows[0])] + MapRows(rows[1..])
  }

  /** Mapping a concatenation maps each part in turn: the order of the rows
      is the order of the records. */
  lemma {:induction false} MapRowsAppend(a: seq<Row>, b: seq<Row>)
    ensures MapRows(a + b) == MapRows(a) + MapRows(b)
    decreases |a|
  {
    if |a| > 0 {
      assert (a + b)[1..] == a[1..] + b;
      MapRowsAppend(a[1..], b);
    }
  }

  /** The conversion in `getArtistsData`: no rows at all, or an empty list
      of rows, gives no artists; otherwise the header row is skipped and
      every data row becomes a record. `None` is a response without values. */
  function ArtistsFromRows(rows: Option<seq<Row>>): (artists: seq<Artist>)
    ensures rows.None? || rows.value == [] ==> artists == []
    ensures rows.Some? && rows.value != [] ==>
              && |artists| == |rows.value| - 1
              && forall i :: 0 <= i < |artists| ==> artists[i] == RowToArtist(rows.value[i + 1])
  {
    if rows.None? || |rows.value| == 0 then [] else MapRows(rows.value[1..])
  }

  /** The header row never becomes a record, whatever it holds, and data
      rows added below the table become records added at the end. */
  lemma HeaderSkippedRowsAppended(header: Row, data: seq<Row>, more: seq<Row>)
    ensures ArtistsFromRows(Some([header])) == []
    ensures ArtistsFromRows(Some([header] + data + more))
            == ArtistsFromRows(Some([header] + data)) + MapRows(more)
  {
    assert ([header] + data + more)[1..] == data + more;
    assert ([header] + data)[1..] == data;
    MapRowsAppend(data, more);
  }
}
