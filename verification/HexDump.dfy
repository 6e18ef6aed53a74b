/** PrintData of packet_sniffer.c: sixteen bytes a row in hexadecimal, padding, and the same bytes as text. */
module HexDump {
  import opened Bytes
  import opened Strings

  const DIGITS := "0123456789ABCDEF"

  /** " %02X" */
  function Hex(b: Byte): string { [' ', DIGITS[b / 16], DIGITS[b % 16]] }

  function Spaces(n: nat): (s: string)
    ensures |s| == n && forall k | 0 <= k < n :: s[k] == ' '
  {
    if n == 0 then "" else Spaces(n - 1) + " "
  }

  /** The text column shows codes 32 to 128 and a dot for the rest. */
  function Shown(b: Byte): char { if 32 <= b <= 128 then b as char else '.' }

  function HexColumns(row: seq<Byte>): (s: string)
    ensures |s| == 3 * |row|
  {
    if row == [] then "" else HexColumns(row[..|row| - 1]) + Hex(row[|row| - 1])
  }

  function TextColumn(row: seq<Byte>): (s: string)
    ensures |s| == |row|
  {
    if row == [] then "" else TextColumn(row[..|row| - 1]) + [Shown(row[|row| - 1])]
  }

  /** Margin and hex columns. */
  function RowStart(row: seq<Byte>): string { Spaces(3) + HexColumns(row) }

  /** A short row is padded to sixteen columns; then comes the text column. */
  function RowEnd(row: seq<Byte>): string
    requires |row| <= 16
  {
    Spaces(3 * (16 - |row|)) + (Spaces(9) + (TextColumn(row) + "\n"))
  }

  function Row(row: seq<Byte>): string
    requires |row| <= 16
  {
    RowStart(row) + RowEnd(row)
  }

  /** The layout: full rows of sixteen, then what is left. */
  function Layout(data: seq<Byte>): string
    decreases |data|
  {
    if data == [] then ""
    else if |data| <= 16 then Row(data)
    else Row(data[..16]) + Layout(data[16..])
  }

  lemma {:induction false} LayoutAppend(data: seq<Byte>, row: seq<Byte>)
    requires |data| % 16 == 0 && 0 < |row| <= 16
    ensures Layout(data + row) == Layout(data) + Row(row)
    decreases |data|
  {
    if data == [] {
      assert data + row == row;
    } else {
      var first, rest := data[..16], data[16..];
      assert (data + row)[..16] == first && (data + row)[16..] == rest + row;
      LayoutAppend(rest, row);
      LayoutFirst(data);
      LayoutFirst(data + row);
      Assoc(Row(first), Layout(rest), Row(row));
    }
  }

  lemma LayoutFirst(data: seq<Byte>)
    requires |data| >= 16
    ensures Layout(data) == Row(data[..16]) + Layout(data[16..])
  {
    hide Row;
    if |data| == 16 {
      assert data[..16] == data && data[16..] == [];
    }
  }

  /** What is printed when the row that starts at r has its hex columns up to byte i but no text yet. */
  function Open(data: seq<Byte>, r: nat, i: nat): string
    requires r <= i <= |data|
  {
    Layout(data[..r]) + RowStart(data[r..i])
  }

  lemma OneMoreByte(data: seq<Byte>, r: nat, i: nat)
    requires r <= i < |data|
    ensures Open(data, r, i + 1) == Open(data, r, i) + Hex(data[i])
  {
    var row := data[r..i];
    assert data[r..i + 1] == row + [data[i]];
    assert (row + [data[i]])[..|row|] == row;
    Assoc(Spaces(3), HexColumns(row), Hex(data[i]));
    Assoc(Layout(data[..r]), RowStart(row), Hex(data[i]));
  }

  /** Padding, text column and newline complete an open row. */
  lemma CloseRow(data: seq<Byte>, r: nat, i: nat)
    requires r < i <= |data| && i <= r + 16 && r % 16 == 0
    ensures Open(data, r, i) + RowEnd(data[r..i]) == Layout(data[..i])
  {
    assert data[..r] + data[r..i] == data[..i];
    LayoutAppend(data[..r], data[r..i]);
    Assoc(Layout(data[..r]), RowStart(data[r..i]), RowEnd(data[r..i]));
  }

  // ----- the printing loop

  class Sniffer {
    var logfile: string
    var i: int
    var j: int

    method Print(s: string)
      modifies this`logfile
      ensures logfile == old(logfile) + s
    {
      logfile := logfile + s;
    }

    /** The loop that prints bytes lo..hi as text. */
    method PrintText(data: seq<Byte>, lo: nat, hi: nat)
      requires lo <= hi <= |data|
      modifies this`logfile, this`j
      ensures logfile == old(logfile) + TextColumn(data[lo..hi])
    {
      j := lo;
      while j < hi
        invariant lo <= j <= hi
        invariant logfile == old(logfile) + TextColumn(data[lo..j])
      {
        assert data[lo..j + 1][..j - lo] == data[lo..j];
        if data[j] >= 32 && data[j] <= 128 {
          Print([data[j] as char]);
        } else {
          Print(".");
        }
        j := j + 1;
      }
    }

    method PrintPadding(n: nat)
      modifies this`logfile, this`j
      ensures logfile == old(logfile) + Spaces(3 * n)
    {
      j := 0;
      while j < n
        invariant 0 <= j <= n
        invariant logfile == old(logfile) + Spaces(3 * j)
      {
        assert Spaces(3 * (j + 1)) == Spaces(3 * j) + "   ";
        Print("   ");
        j := j + 1;
      }
    }

    /** What ends a row: padding, nine spaces, the text and a newline. */
    method PrintRowEnd(data: seq<Byte>, lo: nat, hi: nat)
      requires lo <= hi <= |data| && hi - lo <= 16
      modifies this`logfile, this`j
      ensures logfile == old(logfile) + RowEnd(data[lo..hi])
    {
      hide Spaces, TextColumn;
      ghost var row := data[lo..hi];
      ghost var pad, text := Spaces(3 * (16 - |row|)), TextColumn(row);
      PrintPadding(16 - (hi - lo));
      Print(Spaces(9));
      PrintText(data, lo, hi);
      Print("\n");
      Assoc(old(logfile) + pad + Spaces(9), text, "\n");
      Assoc(old(logfile) + pad, Spaces(9), text + "\n");
      Assoc(old(logfile), pad, Spaces(9) + (text + "\n"));
    }

    /** The log grows by exactly the row-by-row layout of the first size bytes. */
    method PrintData(data: seq<Byte>, size: int)
      requires size <= |data|
      modifies this
      ensures logfile == old(logfile) + if size <= 0 then "" else Layout(data[..size])
    {
      hide Open, Layout;
      i := 0;
      while i < size
        invariant 0 <= i && (i <= size || i == 0)
        invariant logfile == old(logfile) + Printed(data, size, i)
      {
        PrintRowBreak(data, size, old(logfile));
        PrintByte(data, size, old(logfile));
        i := i + 1;
      }
    }

    /** The start of the loop body.  Whatever row the bytes so far left open, after it the row of byte i is open:
        a full row has been ended, and a new one has its margin. */
    method PrintRowBreak(data: seq<Byte>, size: int, ghost before: string)
      requires 0 <= i < size <= |data| && logfile == before + Printed(data, size, i)
      modifies this`logfile, this`j
      ensures logfile == before + Open(data, i - i % 16, i)
    {
      hide RowEnd, Open, Printed;
      ghost var out := Printed(data, size, i);
      BreakOpensRow(data, size, i);
      Assoc(before, out, RowBreak(data, i));
      if i != 0 && i % 16 == 0 {
        PrintRowEnd(data, i - 16, i);
      }
      if i % 16 == 0 {
        Print("   ");
      }
      BreakParts(data, i, before + out);
    }

    /** The rest of the loop body.  The byte joins the open row, which is ended if it is the last one. */
    method PrintByte(data: seq<Byte>, size: int, ghost before: string)
      requires 0 <= i < size <= |data| && logfile == before + Open(data, i - i % 16, i)
      modifies this`logfile, this`j
      ensures logfile == before + Printed(data, size, i + 1)
    {
      hide Hex, RowEnd, Open, Printed;
      ghost var out := Open(data, i - i % 16, i);
      ByteExtendsRow(data, size, i);
      Assoc(before, out, ByteAndEnd(data, size, i));
      Print(Hex(data[i]));
      if i == size - 1 {
        PrintRowEnd(data, i - i % 16, i + 1);
      }
      ByteParts(data, size, i, before + out);
    }
  }

  lemma BreakParts(data: seq<Byte>, i: nat, out: string)
    requires i < |data|
    ensures
      var ended := if i != 0 && i % 16 == 0 then out + RowEnd(data[i - 16..i]) else out;
      out + RowBreak(data, i) == if i % 16 == 0 then ended + "   " else ended
  {
    hide RowEnd;
    assert Spaces(3) == "   ";
    assert "" + "" == "" && out + "" == out && "" + "   " == "   ";
    if i != 0 && i % 16 == 0 {
      Assoc(out, RowEnd(data[i - 16..i]), "   ");
    }
  }

  lemma ByteParts(data: seq<Byte>, size: nat, i: nat, out: string)
    requires i < size <= |data|
    ensures
      var longer := out + Hex(data[i]);
      out + ByteAndEnd(data, size, i) == if i == size - 1 then longer + RowEnd(data[i - i % 16..i + 1]) else longer
  {
    hide Hex, RowEnd;
    assert Hex(data[i]) + "" == Hex(data[i]);
    if i == size - 1 {
      Assoc(out, Hex(data[i]), RowEnd(data[i - i % 16..i + 1]));
    }
  }

  ghost function RowBreak(data: seq<Byte>, i: nat): string
    requires i < |data|
  {
    (if i != 0 && i % 16 == 0 then RowEnd(data[i - 16..i]) else "") + if i % 16 == 0 then Spaces(3) else ""
  }

  ghost function ByteAndEnd(data: seq<Byte>, size: nat, i: nat): string
    requires i < size <= |data|
  {
    Hex(data[i]) + if i == size - 1 then RowEnd(data[i - i % 16..i + 1]) else ""
  }

  /** The start of the row that byte i - 1 is on. */
  function OpenRow(i: nat): (r: nat)
    requires i > 0
    ensures r < i <= r + 16 && r % 16 == 0
  {
    if i % 16 == 0 then i - 16 else i - i % 16
  }

  /** What PrintData has printed when i bytes are out: a full row stays open until the next byte comes. */
  ghost function Printed(data: seq<Byte>, size: int, i: nat): string
    requires i == 0 || i <= size <= |data|
  {
    if i == 0 then "" else if i == size then Layout(data[..size]) else Open(data, OpenRow(i), i)
  }

  /** The margin alone opens a row. */
  lemma NewRow(data: seq<Byte>, i: nat)
    requires i <= |data|
    ensures Open(data, i, i) == Layout(data[..i]) + Spaces(3)
    ensures i == 0 ==> Layout(data[..i]) == ""
  {
    assert data[i..i] == [] && Spaces(3) + "" == Spaces(3);
  }

  lemma BreakOpensRow(data: seq<Byte>, size: nat, i: nat)
    requires i < size <= |data|
    ensures Printed(data, size, i) + RowBreak(data, i) == Open(data, i - i % 16, i)
  {
    hide Layout, RowEnd, Hex, Open;
    if i % 16 == 0 {
      NewRow(data, i);
      if i == 0 {
        assert "" + ("" + Spaces(3)) == Spaces(3);
      } else {
        var end := RowEnd(data[i - 16..i]);
        CloseRow(data, i - 16, i);
        Assoc(Printed(data, size, i), end, Spaces(3));
      }
    }
  }

  lemma ByteExtendsRow(data: seq<Byte>, size: nat, i: nat)
    requires i < size <= |data|
    ensures Open(data, i - i % 16, i) + ByteAndEnd(data, size, i) == Printed(data, size, i + 1)
  {
    hide Hex, RowEnd, Layout, Open;
    var r := i - i % 16;
    assert OpenRow(i + 1) == r;
    OneMoreByte(data, r, i);
    if i == size - 1 {
      CloseRow(data, r, i + 1);
      Assoc(Open(data, r, i), Hex(data[i]), RowEnd(data[r..i + 1]));
    } else {
      assert Hex(data[i]) + "" == Hex(data[i]);
    }
  }

  // ----- reading the hex columns back

  function DigitValue(c: char): (d: nat)
    ensures d < 16
  {
    if '0' <= c <= '9' then c as int - '0' as int
    else if 'A' <= c <= 'F' then c as int - 'A' as int + 10
    else 0
  }

  lemma DigitRead(d: nat)
    requires d < 16
    ensures DIGITS[d] != ' ' && DigitValue(DIGITS[d]) == d
  {
    assert DIGITS == ['0', '1', '2', '3', '4', '5', '6', '7', '8', '9', 'A', 'B', 'C', 'D', 'E', 'F'];
  }

  lemma HexRead(b: Byte)
    ensures Hex(b)[1] != ' ' && 16 * DigitValue(Hex(b)[1]) + DigitValue(Hex(b)[2]) == b
  {
    DigitRead(b / 16);
    DigitRead(b % 16);
  }

  /** The bytes in hex columns k to 15 of a line: a blank column ends them. The text column is not looked at. */
  function DecodeRow(line: string, k: nat): (row: seq<Byte>)
    requires k <= 16 && |line| >= 51
    ensures |row| <= 16 - k
    decreases 16 - k
  {
    if k == 16 || line[3 * k + 4] == ' ' then []
    else [16 * DigitValue(line[3 * k + 4]) + DigitValue(line[3 * k + 5])] + DecodeRow(line, k + 1)
  }

  /** A row of n bytes is 61 + n characters long. */
  function Decode(log: string): seq<Byte>
    decreases |log|
  {
    if |log| < 51 then []
    else
      var row := DecodeRow(log, 0);
      if |log| < 61 + |row| then row else row + Decode(log[61 + |row|..])
  }

  lemma {:induction false} HexColumnsAt(row: seq<Byte>, k: nat)
    requires k < |row|
    ensures HexColumns(row)[3 * k..3 * k + 3] == Hex(row[k])
  {
    hide Hex;
    var n := |row| - 1;
    assert HexColumns(row) == HexColumns(row[..n]) + Hex(row[n]);
    if k < n {
      HexColumnsAt(row[..n], k);
      assert HexColumns(row)[3 * k..3 * k + 3] == HexColumns(row[..n])[3 * k..3 * k + 3];
    }
  }

  /** Column k of a row holds byte k, or blanks once the bytes have run out. */
  lemma RowAt(row: seq<Byte>, rest: string, k: nat)
    requires |row| <= 16 && k < 16
    ensures |Row(row)| == 61 + |row|
    ensures k < |row| ==> (Row(row) + rest)[3 * k + 3..3 * k + 6] == Hex(row[k])
    ensures k >= |row| ==> (Row(row) + rest)[3 * k + 4] == ' '
  {
    hide Hex, HexColumns, TextColumn;
    var line := Row(row) + rest;
    var pad := Spaces(3 * (16 - |row|));
    var left := Spaces(3) + HexColumns(row);
    assert line[..3 + 3 * |row|] == left;
    assert line[3 + 3 * |row|..51] == pad;
    if k < |row| {
      HexColumnsAt(row, k);
      assert left[3 * k + 3..3 * k + 6] == HexColumns(row)[3 * k..3 * k + 3];
      assert line[3 * k + 3..3 * k + 6] == left[3 * k + 3..3 * k + 6];
    } else {
      assert line[3 * k + 4] == pad[3 * k + 4 - (3 + 3 * |row|)];
    }
  }

  lemma {:induction false} DecodeOneRow(row: seq<Byte>, rest: string, k: nat)
    requires k <= |row| <= 16
    ensures |Row(row)| == 61 + |row|
    ensures DecodeRow(Row(row) + rest, k) == row[k..]
    decreases 16 - k
  {
    hide Hex, Row;
    var line := Row(row) + rest;
    RowAt(row, rest, if k < 16 then k else 0);
    if k < |row| {
      HexRead(row[k]);
      var column := line[3 * k + 3..3 * k + 6];
      assert column[1] == line[3 * k + 4] && column[2] == line[3 * k + 5];
      DecodeOneRow(row, rest, k + 1);
    }
  }

  /** The hex columns alone give every byte back, for every length. */
  lemma {:induction false} DecodeLayout(data: seq<Byte>)
    ensures Decode(Layout(data)) == data
    decreases |data|
  {
    hide Row, DecodeRow;
    if data != [] {
      var n := if |data| <= 16 then |data| else 16;
      var row, rest := data[..n], data[n..];
      assert |data| <= 16 ==> data[..n] == data;
      assert Layout(data) == Row(row) + Layout(rest) by {
        if |data| <= 16 { assert Layout(rest) == "" && Row(row) + "" == Row(row); }
      }
      DecodeOneRow(row, Layout(rest), 0);
      assert Layout(data)[61 + n..] == Layout(rest);
      DecodeLayout(rest);
      assert row + rest == data;
    }
  }

  /** So no two inputs print alike, although the text column shows many bytes as a dot. */
  lemma LayoutInjective(a: seq<Byte>, b: seq<Byte>)
    requires Layout(a) == Layout(b)
    ensures a == b
  {
    DecodeLayout(a);
    DecodeLayout(b);
  }
}
