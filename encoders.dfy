/** The two encoders: `generate_xlsx` writes the header row and the data
    rows into worksheet cells, `generate_csv` writes them as CSV records. */
module Encoders {

  import opened Wrappers
  import opened Values

  /** The data rows start below the header row when there is one. */
  function RowOffset(headers: seq<string>): nat
  {
    if headers == [] then 0 else 1
  }

  /** A position that lies in the header row. */
  predicate IsHeaderCell(headers: seq<string>, key: (int, int))
  {
    headers != [] && key.0 == 0 && 0 <= key.1 < |headers|
  }

  /** A position that lies in the data block below the header row. */
  predicate IsDataCell(headers: seq<string>, data: seq<seq<Value>>, key: (int, int))
  {
    var r := key.0 - RowOffset(headers);
    0 <= r < |data| && 0 <= key.1 < |data[r]|
  }

  /** What the worksheet `generate_xlsx` fills holds at a position: the
      header there, the data value there, or nothing when no cell is
      written. */
  function Cell(headers: seq<string>, data: seq<seq<Value>>, key: (int, int)): Option<Value>
  {
    if IsHeaderCell(headers, key) then Some(Str(headers[key.1]))
    else if IsDataCell(headers, data, key) then Some(data[key.0 - RowOffset(headers)][key.1])
    else None
  }

  /** The worksheet holds each header in row 0 when there are headers, each
      data value at its row shifted by the header offset, and nothing
      elsewhere; no header shares a position with a data value, so neither
      overwrites the other. */
  lemma SheetLayout(headers: seq<string>, data: seq<seq<Value>>)
    ensures forall key :: !(IsHeaderCell(headers, key) && IsDataCell(headers, data, key))
    ensures forall c :: 0 <= c < |headers| ==> Cell(headers, data, (0, c)) == Some(Str(headers[c]))
    ensures forall r, c :: 0 <= r < |data| && 0 <= c < |data[r]| ==>
              Cell(headers, data, (r + RowOffset(headers), c)) == Some(data[r][c])
    ensures forall key :: Cell(headers, data, key).Some? <==> IsHeaderCell(headers, key) || IsDataCell(headers, data, key)
  {
  }

  /** `generate_xlsx(data, headers)`: writes each header into row 0 when
      there are headers, then each data value into its cell below; the
      worksheet is a map from (row, column) to the cell's value. */
  method GenerateXlsx(headers: seq<string>, data: seq<seq<Value>>) returns (sheet: map<(int, int), Value>)
    ensures forall key :: key in sheet <==> Cell(headers, data, key).Some?
    ensures forall key :: key in sheet ==> sheet[key] == Cell(headers, data, key).value
  {
    sheet := map[];
    var rowOffset := 0;
    if headers != [] {
      rowOffset := 1;
      var c := 0;
      while c < |headers|
        invariant 0 <= c <= |headers|
        invariant forall key :: key in sheet <==> IsHeaderCell(headers, key) && key.1 < c
        invariant forall key :: key in sheet ==> sheet[key] == Str(headers[key.1])
      {
        sheet := sheet[(0, c) := Str(headers[c])];
        c := c + 1;
      }
    }
    assert rowOffset == RowOffset(headers);
    var r := 0;
    while r < |data|
      invariant 0 <= r <= |data|
      invariant forall key :: key in sheet <==>
                  IsHeaderCell(headers, key) || (IsDataCell(headers, data, key) && key.0 < r + rowOffset)
      invariant forall key :: key in sheet ==> sheet[key] == Cell(headers, data, key).value
    {
      var c := 0;
      while c < |data[r]|
        invariant 0 <= c <= |data[r]|
        invariant forall key :: key in sheet <==>
                    IsHeaderCell(headers, key) || (IsDataCell(headers, data, key) && key.0 < r + rowOffset)
                    || (key.0 == r + rowOffset && 0 <= key.1 < c)
        invariant forall key :: key in sheet ==> sheet[key] == Cell(headers, data, key).value
      {
        assert Cell(headers, data, (r + rowOffset, c)) == Some(data[r][c]);
        sheet := sheet[(r + rowOffset, c) := data[r][c]];
        c := c + 1;
      }
      r := r + 1;
    }
  }

  /** A data row as the text values `unicode(s)` gives. */
  function RowText(row: seq<Value>): (r: seq<string>)
  {
    seq(|row|, c requires 0 <= c < |row| => ToText(row[c]))
  }

  /** The records `generate_csv` writes, before CSV quoting and encoding: the
      header record when there are headers, then one record per data row. */
  function CsvRecords(headers: seq<string>, data: seq<seq<Value>>): seq<seq<string>>
  {
    HeaderRecord(headers) + DataRecords(data)
  }

  /** The header record, present only when there are headers. */
  function HeaderRecord(headers: seq<string>): seq<seq<string>>
  {
    if headers == [] then [] else [headers]
  }

  /** One text record per data row. */
  function DataRecords(data: seq<seq<Value>>): seq<seq<string>>
  {
    seq(|data|, r requires 0 <= r < |data| => RowText(data[r]))
  }

  /** The CSV output has one record per data row plus the header record when
      there are headers; record r + offset holds the text of each value of
      data row r, in order. */
  lemma CsvLayout(headers: seq<string>, data: seq<seq<Value>>)
    ensures |CsvRecords(headers, data)| == |data| + RowOffset(headers)
    ensures headers != [] ==> CsvRecords(headers, data)[0] == headers
    ensures forall r :: 0 <= r < |data| ==>
              |CsvRecords(headers, data)[r + RowOffset(headers)]| == |data[r]| &&
              forall c :: 0 <= c < |data[r]| ==> CsvRecords(headers, data)[r + RowOffset(headers)][c] == ToText(data[r][c])
  {
  }

  /** The two encoders lay out the same grid: a position holds a worksheet
      cell exactly when the CSV output has a field there, and the field is
      the cell's value as text. */
  lemma {:induction false} EncodersAgree(headers: seq<string>, data: seq<seq<Value>>, row: int, col: int)
    ensures var records := CsvRecords(headers, data);
            Cell(headers, data, (row, col)).Some? <==> 0 <= row < |records| && 0 <= col < |records[row]|
    ensures var records := CsvRecords(headers, data);
            Cell(headers, data, (row, col)).Some? ==> ToText(Cell(headers, data, (row, col)).value) == records[row][col]
  {
    CsvLayout(headers, data);
    var offset := RowOffset(headers);
    if !IsHeaderCell(headers, (row, col)) && offset <= row < offset + |data| {
      assert CsvRecords(headers, data)[(row - offset) + offset] == RowText(data[row - offset]);
    }
  }

  /** `generate_csv(data, headers)`: writes the header record when there are
      headers, then one record per data row. */
  method GenerateCsv(headers: seq<string>, data: seq<seq<Value>>) returns (records: seq<seq<string>>)
    ensures records == CsvRecords(headers, data)
  {
    records := [];
    if headers != [] {
      records := records + [headers];
    }
    assert data[..0] == [];
    var r := 0;
    while r < |data|
      invariant 0 <= r <= |data|
      invariant records == HeaderRecord(headers) + DataRecords(data[..r])
    {
      var line := [];
      var c := 0;
      while c < |data[r]|
        invariant 0 <= c <= |data[r]|
        invariant line == seq(c, k requires 0 <= k < c => ToText(data[r][k]))
      {
        line := line + [ToText(data[r][c])];
        c := c + 1;
      }
      assert DataRecords(data[..r + 1]) == DataRecords(data[..r]) + [line];
      records := records + [line];
      r := r + 1;
    }
    assert data[..r] == data;
  }
}
