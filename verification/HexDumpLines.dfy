/** The dump character by character: what stands at each place of each line. */
module HexDumpLines {
  import opened Bytes
  import opened HexDump

  /** The character at place m of the line that shows the given bytes: a margin of three, three characters a byte,
      blanks up to place 60, the text, and a line end. */
  function LineChar(row: seq<Byte>, m: nat): char
    requires m < 61 + |row|
  {
    if 3 <= m < 3 + 3 * |row| then
      (match (m - 3) % 3
       case 0 => ' '
       case 1 => "0123456789ABCDEF"[row[(m - 3) / 3] / 16]
       case _ => "0123456789ABCDEF"[row[(m - 3) / 3] % 16])
    else if m < 60 then ' '
    else if m == 60 + |row| then '\n'
    else if 32 <= row[m - 60] <= 128 then row[m - 60] as char
    else '.'
  }

  lemma {:induction false} TextAt(row: seq<Byte>, k: nat)
    requires k < |row|
    ensures TextColumn(row)[k] == if 32 <= row[k] <= 128 then row[k] as char else '.'
  {
    if k < |row| - 1 {
      TextAt(row[..|row| - 1], k);
    }
  }

  lemma HexAt(b: Byte)
    ensures Hex(b) == [' ', "0123456789ABCDEF"[b / 16], "0123456789ABCDEF"[b % 16]]
  {
  }

  lemma ColumnAt(row: seq<Byte>, m: nat)
    requires m < 3 * |row|
    ensures HexColumns(row)[m] == Hex(row[m / 3])[m % 3]
  {
    hide Hex, HexColumns;
    var k := m / 3;
    HexColumnsAt(row, k);
    assert HexColumns(row)[3 * k..3 * k + 3][m - 3 * k] == HexColumns(row)[m];
  }

  /** Where the parts of a row stand. */
  lemma RowParts(row: seq<Byte>, m: nat)
    requires |row| <= 16 && m < 61 + |row|
    ensures |Row(row)| == 61 + |row|
    ensures Row(row)[m] ==
              if 3 <= m < 3 + 3 * |row| then HexColumns(row)[m - 3]
              else if m < 60 then ' '
              else if m < 60 + |row| then TextColumn(row)[m - 60]
              else '\n'
  {
    hide HexColumns, TextColumn, Spaces;
    var start, end := RowStart(row), RowEnd(row);
    assert |start| == 3 + 3 * |row|;
    if m < |start| {
      assert Row(row)[m] == start[m];
    } else {
      assert Row(row)[m] == end[m - |start|];
    }
  }

  lemma RowCharacters(row: seq<Byte>, m: nat)
    requires |row| <= 16 && m < 61 + |row|
    ensures |Row(row)| == 61 + |row| && Row(row)[m] == LineChar(row, m)
  {
    hide Row, HexColumns, TextColumn, Hex;
    RowParts(row, m);
    if 3 <= m < 3 + 3 * |row| {
      ColumnAt(row, m - 3);
      HexAt(row[(m - 3) / 3]);
    } else if 60 <= m < 60 + |row| {
      TextAt(row, m - 60);
    }
  }

  /** The bytes on line r. */
  function LineBytes(data: seq<Byte>, r: nat): (row: seq<Byte>)
    requires 16 * r < |data|
    ensures 0 < |row| <= 16
  {
    if |data| < 16 * r + 16 then data[16 * r..] else data[16 * r..16 * r + 16]
  }

  lemma RowLength(row: seq<Byte>)
    requires |row| <= 16
    ensures |Row(row)| == 61 + |row|
  {
    RowParts(row, 0);
  }

  /** Line r of the dump begins at place 77 * r and shows bytes 16 * r and the up to fifteen after it. */
  lemma {:induction false} LayoutLines(data: seq<Byte>, r: nat)
    requires 16 * r < |data|
    ensures
      var end := 77 * r + 61 + |LineBytes(data, r)|;
      end <= |Layout(data)| && Layout(data)[77 * r..end] == Row(LineBytes(data, r))
    decreases r
  {
    hide Row, Layout;
    LayoutStep(data);
    if r > 0 {
      var first, rest := data[..16], data[16..];
      LayoutLines(rest, r - 1);
      RowLength(first);
      assert LineBytes(rest, r - 1) == LineBytes(data, r);
      Behind(Row(first), Layout(rest), 77 * (r - 1), 77 * (r - 1) + 61 + |LineBytes(data, r)|);
    } else {
      RowLength(LineBytes(data, 0));
      assert |data| >= 16 ==> LineBytes(data, 0) == data[..16];
      assert |data| < 16 ==> LineBytes(data, 0) == data;
    }
  }

  lemma Behind(a: string, b: string, i: nat, j: nat)
    requires i <= j <= |b|
    ensures (a + b)[|a| + i..|a| + j] == b[i..j]
  {
  }

  lemma LayoutStep(data: seq<Byte>)
    ensures |data| >= 16 ==> Layout(data) == Row(data[..16]) + Layout(data[16..])
    ensures 0 < |data| < 16 ==> Layout(data) == Row(data)
    ensures data == [] ==> Layout(data) == ""
  {
    if |data| >= 16 {
      LayoutFirst(data);
    }
  }

  /** And there is nothing else in it. */
  lemma {:induction false} LayoutLength(data: seq<Byte>)
    ensures |Layout(data)| == 61 * ((|data| + 15) / 16) + |data|
    decreases |data|
  {
    hide Row, Layout;
    LayoutStep(data);
    if |data| >= 16 {
      LayoutLength(data[16..]);
      RowLength(data[..16]);
    } else if data != [] {
      RowLength(data);
    }
  }

  /** Every character of the dump. */
  lemma LayoutCharacters(data: seq<Byte>, r: nat, m: nat)
    requires 16 * r < |data| && m < 61 + |LineBytes(data, r)|
    ensures |Layout(data)| == 61 * ((|data| + 15) / 16) + |data|
    ensures 77 * r + m < |Layout(data)| && Layout(data)[77 * r + m] == LineChar(LineBytes(data, r), m)
  {
    hide Row, Layout, LineChar;
    var row := LineBytes(data, r);
    LayoutLength(data);
    LayoutLines(data, r);
    RowCharacters(row, m);
    assert Layout(data)[77 * r..77 * r + 61 + |row|][m] == Layout(data)[77 * r + m];
  }
}
