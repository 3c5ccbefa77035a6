/**
 The hex dump the gate device writes to its log for every frame it is sent:
 one text row per 16 bytes, each row holding the offset, a fixed-width hex
 column and an ASCII column.

 `RowText` and `DumpText` say what the text is; the method `HexDump` builds
 it the way the device does, by appending to a string in nested loops;
 `Undump` reads a dump back into the bytes it shows.
 */
module HexDumping {
  import opened HexFormat

  const BytesPerLine: nat := 16

  /** Dumps up to this size keep every row offset within six hex digits. */
  const MaxSixDigitSize: nat := 0x100_0000

  /** The number of rows: one per started group of 16 bytes. */
  function NumRows(size: nat): nat
  {
    (size + 15) / 16
  }

  /** How many of the positions `k` to `end - 1` lie inside data of length `size`. */
  function Span(size: nat, k: nat, end: nat): nat
    requires k <= end
  {
    if k >= size then 0 else if end <= size then end - k else size - k
  }

  /** The bytes of `d` at the positions `k` to `end - 1` that exist. */
  function Window(d: seq<Byte>, k: nat, end: nat): (w: seq<Byte>)
    requires k <= end
    ensures |w| == Span(|d|, k, end)
  {
    if k >= |d| then [] else d[k..if end <= |d| then end else |d|]
  }

  /** `std::isprint` in the classic locale: the ASCII range 0x20 to 0x7E. */
  predicate IsPrintable(b: Byte)
  {
    0x20 <= b <= 0x7E
  }

  /** The ASCII-column character of a byte: the byte itself if printable, else `.`. */
  function AsciiChar(b: Byte): (c: char)
    ensures IsPrintable(b) ==> c as int == b
    ensures !IsPrintable(b) ==> c == '.'
    ensures c != '\n'
  {
    if IsPrintable(b) then b as char else '.'
  }

  /** The hex-column cell of position `k`: two digits and a space, or three spaces past the end. */
  function HexCell(d: seq<Byte>, k: nat): (c: string)
    ensures |c| == 3
  {
    if k < |d| then HexByte(d[k]) + " " else "   "
  }

  /** The hex cells of positions `k` to `end - 1`: always three characters per position. */
  function HexCells(d: seq<Byte>, k: nat, end: nat): (s: string)
    requires k <= end
    ensures |s| == 3 * (end - k)
    decreases end - k
  {
    if k == end then "" else HexCell(d, k) + HexCells(d, k + 1, end)
  }

  /** The ASCII-column text of position `k`: one character, or nothing past the end. */
  function AsciiCell(d: seq<Byte>, k: nat): string
  {
    if k < |d| then [AsciiChar(d[k])] else ""
  }

  /** The ASCII text of positions `k` to `end - 1`: one character per existing byte, no padding. */
  function AsciiCells(d: seq<Byte>, k: nat, end: nat): (s: string)
    requires k <= end
    ensures |s| == Span(|d|, k, end)
    decreases end - k
  {
    if k == end then "" else AsciiCell(d, k) + AsciiCells(d, k + 1, end)
  }

  /** The row that starts at byte `start`: offset, ": ", hex column, a space, ASCII column, newline. */
  function RowText(d: seq<Byte>, start: nat): string
  {
    Offset(start) + ": " + HexCells(d, start, start + 16) + " "
    + AsciiCells(d, start, start + 16) + "\n"
  }

  /** Strings one after another. */
  function Join(parts: seq<string>): string
  {
    if parts == [] then "" else parts[0] + Join(parts[1..])
  }

  /** The rows of the dump of `d` from byte `start` on: one for every 16 bytes, the last possibly shorter. */
  function RowsFrom(d: seq<Byte>, start: nat): seq<string>
    decreases |d| - start
  {
    if start >= |d| then [] else [RowText(d, start)] + RowsFrom(d, start + 16)
  }

  /** The whole dump of `d`. */
  function DumpText(d: seq<Byte>): string
  {
    Join(RowsFrom(d, 0))
  }

  /**
   Builds the dump of the first `size` bytes of `data` as the device does: for
   every row, appends the offset, the hex column, a space, the ASCII column and
   a newline.
   */
  method HexDump(data: array<Byte>, size: nat) returns (out: string)
    requires size <= data.Length
    ensures out == DumpText(data[..size])
  {
    ghost var d := data[..size];
    out := "";
    var rowStart := 0;
    while rowStart < size
      invariant out + Join(RowsFrom(d, rowStart)) == DumpText(d)
      decreases size - rowStart
    {
      ghost var done := out;
      out := AppendRow(data, size, rowStart, out);
      JoinRowsFrom(d, rowStart);
      AppendAssoc(done, RowText(d, rowStart), Join(RowsFrom(d, rowStart + BytesPerLine)));
      rowStart := rowStart + BytesPerLine;
    }
  }

  /** Appends one row: its offset, ": ", the hex column, a space, the ASCII column and a newline. */
  method AppendRow(data: array<Byte>, size: nat, rowStart: nat, out: string) returns (res: string)
    requires size <= data.Length
    ensures res == out + RowText(data[..size], rowStart)
  {
    ghost var d := data[..size];
    var head := Offset(rowStart) + ": ";
    res := out + head;
    res := AppendHexColumn(data, size, rowStart, res);
    res := res + " ";
    res := AppendAsciiColumn(data, size, rowStart, res);
    res := res + "\n";
    RowAppended(out, head, HexCells(d, rowStart, rowStart + 16), AsciiCells(d, rowStart, rowStart + 16));
  }

  /** Appends the hex column of the row at `rowStart`: one cell for each of the 16 positions. */
  method AppendHexColumn(data: array<Byte>, size: nat, rowStart: nat, out: string) returns (res: string)
    requires size <= data.Length
    ensures res == out + HexCells(data[..size], rowStart, rowStart + 16)
  {
    ghost var d := data[..size];
    res := out;
    var i := 0;
    while i < BytesPerLine
      invariant i <= BytesPerLine
      invariant res == out + HexCells(d, rowStart, rowStart + i)
    {
      ghost var cell := HexCell(d, rowStart + i);
      if rowStart + i < size {
        res := res + (HexByte(data[rowStart + i]) + " ");
      } else {
        res := res + "   ";
      }
      HexCellsSnoc(d, rowStart, rowStart + i);
      AppendAssoc(out, HexCells(d, rowStart, rowStart + i), cell);
      i := i + 1;
    }
  }

  /** Appends the ASCII column of the row at `rowStart`: one character per existing byte, no padding. */
  method AppendAsciiColumn(data: array<Byte>, size: nat, rowStart: nat, out: string) returns (res: string)
    requires size <= data.Length
    ensures res == out + AsciiCells(data[..size], rowStart, rowStart + 16)
  {
    ghost var d := data[..size];
    res := out;
    var i := 0;
    while i < BytesPerLine
      invariant i <= BytesPerLine
      invariant res == out + AsciiCells(d, rowStart, rowStart + i)
    {
      ghost var cell := AsciiCell(d, rowStart + i);
      if rowStart + i < size {
        res := res + [AsciiChar(data[rowStart + i])];
      } else {
        assert res + cell == res;
      }
      AsciiCellsSnoc(d, rowStart, rowStart + i);
      AppendAssoc(out, AsciiCells(d, rowStart, rowStart + i), cell);
      i := i + 1;
    }
  }

  lemma {:induction false} HexCellsSnoc(d: seq<Byte>, k: nat, end: nat)
    requires k <= end
    ensures HexCells(d, k, end + 1) == HexCells(d, k, end) + HexCell(d, end)
    decreases end - k
  {
    if k < end {
      HexCellsSnoc(d, k + 1, end);
    }
  }

  lemma {:induction false} AsciiCellsSnoc(d: seq<Byte>, k: nat, end: nat)
    requires k <= end
    ensures AsciiCells(d, k, end + 1) == AsciiCells(d, k, end) + AsciiCell(d, end)
    decreases end - k
  {
    if k < end {
      AsciiCellsSnoc(d, k + 1, end);
    }
  }

  /** The rows from `start` on are the row at `start` followed by the rows from `start + 16` on. */
  lemma JoinRowsFrom(d: seq<Byte>, start: nat)
    requires start < |d|
    ensures Join(RowsFrom(d, start)) == RowText(d, start) + Join(RowsFrom(d, start + 16))
  {
    var rows := RowsFrom(d, start);
    assert rows[0] == RowText(d, start);
    assert rows[1..] == RowsFrom(d, start + 16);
  }

  lemma AppendAssoc(a: string, b: string, c: string)
    ensures a + b + c == a + (b + c)
  {
  }

  /** Appending the pieces of a row one by one appends the row. */
  lemma RowAppended(done: string, head: string, hex: string, ascii: string)
    ensures done + head + hex + " " + ascii + "\n" == done + (head + hex + " " + ascii + "\n")
  {
  }

  /** The dump of no bytes is the empty string. */
  lemma EmptyDump()
    ensures DumpText([]) == ""
  {
  }

  /** There is one row per started group of 16 bytes. */
  lemma {:induction false} RowsFromCount(d: seq<Byte>, start: nat)
    ensures |RowsFrom(d, start)| == if start < |d| then NumRows(|d| - start) else 0
    decreases |d| - start
  {
    if start < |d| {
      RowsFromCount(d, start + 16);
    }
  }

  // ---------------------------------------------------------------------------
  // Layout of one row

  /** Where the pieces of a row sit, for a six-character offset and a 48-character hex column. */
  lemma RowShape(offset: string, hex: string, ascii: string)
    requires |offset| == 6 && |hex| == 48
    ensures var t := offset + ": " + hex + " " + ascii + "\n";
      && |t| == 58 + |ascii|
      && t[..6] == offset
      && t[6..8] == ": "
      && t[8..56] == hex
      && t[56] == ' '
      && t[57..57 + |ascii|] == ascii
      && t[57 + |ascii|] == '\n'
  {
  }

  /**
   The pieces of the row at `start` at their columns: characters 0-5 are the
   offset, 6-7 are ": ", 8-55 the hex column, 56 a space, then the ASCII column
   and a newline.
   */
  lemma RowParts(d: seq<Byte>, start: nat)
    requires start < MaxSixDigitSize
    ensures var t := RowText(d, start);
      var n := Span(|d|, start, start + 16);
      && |t| == 58 + n
      && t[..6] == Offset(start)
      && t[6..8] == ": "
      && t[8..56] == HexCells(d, start, start + 16)
      && t[56] == ' '
      && t[57..57 + n] == AsciiCells(d, start, start + 16)
      && t[57 + n] == '\n'
  {
    RowShape(Offset(start), HexCells(d, start, start + 16), AsciiCells(d, start, start + 16));
  }

  /**
   The row at byte `start` of data below 16 MiB: six offset digits reading
   back as `start`, then ": ", the 48-character hex column, one space, one
   ASCII character per byte of the row and a final newline; a full row is 74
   characters long.
   */
  lemma RowLayout(d: seq<Byte>, start: nat)
    requires start < |d| <= MaxSixDigitSize
    ensures var t := RowText(d, start);
      var n := Span(|d|, start, start + 16);
      && |t| == 58 + n
      && AllHexDigits(t[..6]) && HexValue(t[..6]) == start
      && t[6..8] == ": "
      && t[56] == ' '
      && t[|t| - 1] == '\n'
      && (n == 16 <==> |t| == 74)
  {
    RowParts(d, start);
  }

  /** Cell `j` of a hex column is the `j`-th three characters of it. */
  lemma HexCellsAt(d: seq<Byte>, k: nat, end: nat, j: nat)
    requires k + j < end
    ensures HexCells(d, k, end)[3 * j..3 * j + 3] == HexCell(d, k + j)
  {
    HexCellsSplit(d, k, k + j, end);
    var before, from := HexCells(d, k, k + j), HexCells(d, k + j, end);
    assert from == HexCell(d, k + j) + HexCells(d, k + j + 1, end);
    CellAfterPrefix(before, HexCell(d, k + j), HexCells(d, k + j + 1, end));
  }

  /** A hex column splits at any position into the columns on either side. */
  lemma {:induction false} HexCellsSplit(d: seq<Byte>, k: nat, m: nat, end: nat)
    requires k <= m <= end
    ensures HexCells(d, k, end) == HexCells(d, k, m) + HexCells(d, m, end)
    decreases m - k
  {
    if k < m {
      HexCellsSplit(d, k + 1, m, end);
      AppendAssoc(HexCell(d, k), HexCells(d, k + 1, m), HexCells(d, m, end));
    } else {
      assert HexCells(d, k, m) == [];
    }
  }

  /** The three characters of a cell that follows a prefix sit right after the prefix. */
  lemma CellAfterPrefix(before: string, cell: string, rest: string)
    requires |cell| == 3
    ensures (before + (cell + rest))[|before|..|before| + 3] == cell
  {
  }

  lemma SliceOfSlice(t: string, a: nat, b: nat, i: nat, j: nat)
    requires a <= b <= |t| && i <= j <= b - a
    ensures t[a..b][i..j] == t[a + i..a + j]
  {
    forall k | 0 <= k < j - i
      ensures t[a..b][i..j][k] == t[a + i..a + j][k]
    {
    }
  }

  /**
   Cell `j` of the hex column of the row at `start`: two lower-case digits
   reading back as byte `start + j` and a space when that byte exists, three
   spaces otherwise.
   */
  lemma RowHexCell(d: seq<Byte>, start: nat, j: nat)
    requires start < |d| <= MaxSixDigitSize && j < 16
    ensures var cell := RowText(d, start)[8 + 3 * j..11 + 3 * j];
      var k := start + j;
      && (k < |d| ==> IsHexDigit(cell[0]) && IsHexDigit(cell[1]) && cell[2] == ' '
                      && 16 * DigitValue(cell[0]) + DigitValue(cell[1]) == d[k])
      && (k >= |d| ==> cell == "   ")
  {
    RowCell(d, start, j);
    CellShowsByte(d, start + j);
  }

  /** Characters 8 + 3·j to 10 + 3·j of the row at `start` are the hex cell of byte `start + j`. */
  lemma RowCell(d: seq<Byte>, start: nat, j: nat)
    requires start < MaxSixDigitSize && j < 16
    ensures RowText(d, start)[8 + 3 * j..11 + 3 * j] == HexCell(d, start + j)
  {
    RowParts(d, start);
    HexCellsAt(d, start, start + 16, j);
    SliceOfSlice(RowText(d, start), 8, 56, 3 * j, 3 * j + 3);
  }

  /** A hex cell is two digits reading back as the byte and a space, or three spaces past the end. */
  lemma CellShowsByte(d: seq<Byte>, k: nat)
    ensures var cell := HexCell(d, k);
      && (k < |d| ==> |cell| == 3 && IsHexDigit(cell[0]) && IsHexDigit(cell[1]) && cell[2] == ' '
                      && 16 * DigitValue(cell[0]) + DigitValue(cell[1]) == d[k])
      && (k >= |d| ==> cell == "   ")
  {
    if k < |d| {
      var digits := HexByte(d[k]);
      assert HexCell(d, k) == digits + " ";
      assert HexCell(d, k)[0] == digits[0] && HexCell(d, k)[1] == digits[1];
    }
  }

  /** Character `i` of an ASCII column is the ASCII character of byte `k + i`. */
  lemma {:induction false} AsciiCellsAt(d: seq<Byte>, k: nat, end: nat, i: nat)
    requires k <= end && i < Span(|d|, k, end)
    ensures AsciiCells(d, k, end)[i] == AsciiChar(d[k + i])
    decreases end - k
  {
    if i > 0 {
      AsciiCellsAt(d, k + 1, end, i - 1);
    }
  }

  /** Character `i` of the ASCII column of the row at `start` shows byte `start + i`: itself if printable, else `.`. */
  lemma RowAsciiChar(d: seq<Byte>, start: nat, i: nat)
    requires |d| <= MaxSixDigitSize
    requires i < Span(|d|, start, start + 16)
    ensures var c := RowText(d, start)[57 + i];
      var b := d[start + i];
      (IsPrintable(b) ==> c as int == b) && (!IsPrintable(b) ==> c == '.')
  {
    var n := Span(|d|, start, start + 16);
    RowParts(d, start);
    AsciiCellsAt(d, start, start + 16, i);
    assert RowText(d, start)[57 + i] == RowText(d, start)[57..57 + n][i];
  }

  // ---------------------------------------------------------------------------
  // Newlines: one per row

  function CountChar(s: string, c: char): nat
  {
    if s == [] then 0 else (if s[0] == c then 1 else 0) + CountChar(s[1..], c)
  }

  lemma {:induction false} CountCharConcat(a: string, b: string, c: char)
    ensures CountChar(a + b, c) == CountChar(a, c) + CountChar(b, c)
  {
    if a != [] {
      CountCharConcat(a[1..], b, c);
      assert (a + b)[1..] == a[1..] + b;
    } else {
      assert a + b == b;
    }
  }

  lemma {:induction false} CountCharAbsent(s: string, c: char)
    requires c !in s
    ensures CountChar(s, c) == 0
  {
    if s != [] {
      assert s == [s[0]] + s[1..];
      CountCharAbsent(s[1..], c);
    }
  }

  lemma {:induction false} NoNewlineInHexCells(d: seq<Byte>, k: nat, end: nat)
    requires k <= end
    ensures '\n' !in HexCells(d, k, end)
    decreases end - k
  {
    if k < end {
      NoNewlineInHexCells(d, k + 1, end);
    }
  }

  lemma {:induction false} NoNewlineInAsciiCells(d: seq<Byte>, k: nat, end: nat)
    requires k <= end
    ensures '\n' !in AsciiCells(d, k, end)
    decreases end - k
  {
    if k < end {
      NoNewlineInAsciiCells(d, k + 1, end);
    }
  }

  /** Every row ends in a newline and holds no other. */
  lemma RowNewline(d: seq<Byte>, start: nat)
    ensures var t := RowText(d, start);
      |t| > 0 && t[|t| - 1] == '\n' && '\n' !in t[..|t| - 1] && CountChar(t, '\n') == 1
  {
    var offset := Offset(start);
    var hex, ascii := HexCells(d, start, start + 16), AsciiCells(d, start, start + 16);
    NoNewlineInHexCells(d, start, start + 16);
    NoNewlineInAsciiCells(d, start, start + 16);
    NoNewlineInBody(offset, hex, ascii);
    var body := offset + ": " + hex + " " + ascii;
    assert RowText(d, start) == body + "\n";
    NewlineTerminated(body);
  }

  /** A row without its final newline holds none: hex digits, separators and cells. */
  lemma NoNewlineInBody(offset: string, hex: string, ascii: string)
    requires AllHexDigits(offset) && '\n' !in hex && '\n' !in ascii
    ensures '\n' !in offset + ": " + hex + " " + ascii
  {
    assert '\n' !in offset by {
      assert forall i :: 0 <= i < |offset| ==> IsHexDigit(offset[i]);
    }
  }

  /** A newline-free text followed by one newline ends in it and holds no other. */
  lemma NewlineTerminated(body: string)
    requires '\n' !in body
    ensures var t := body + "\n";
      |t| > 0 && t[|t| - 1] == '\n' && '\n' !in t[..|t| - 1] && CountChar(t, '\n') == 1
  {
    var t := body + "\n";
    assert t[..|t| - 1] == body;
    CountCharAbsent(body, '\n');
    CountCharConcat(body, "\n", '\n');
  }

  /** The rows from `start` on hold one newline each and end in one. */
  lemma {:induction false} RowsFromNewlines(d: seq<Byte>, start: nat)
    ensures var text := Join(RowsFrom(d, start));
      && CountChar(text, '\n') == |RowsFrom(d, start)|
      && (start < |d| ==> |text| > 0 && text[|text| - 1] == '\n')
    decreases |d| - start
  {
    if start < |d| {
      var row := RowText(d, start);
      var rest := Join(RowsFrom(d, start + 16));
      RowsFromNewlines(d, start + 16);
      JoinRowsFrom(d, start);
      RowNewline(d, start);
      CountCharConcat(row, rest, '\n');
      if start + 16 < |d| {
        assert (row + rest)[|row + rest| - 1] == rest[|rest| - 1];
      } else {
        assert rest == "";
        assert row + rest == row;
      }
    }
  }

  /** A dump holds exactly ceil(size / 16) newlines, one per row, and ends in one unless empty. */
  lemma DumpNewlines(d: seq<Byte>)
    ensures CountChar(DumpText(d), '\n') == NumRows(|d|)
    ensures |d| > 0 ==> DumpText(d)[|DumpText(d)| - 1] == '\n'
  {
    RowsFromNewlines(d, 0);
    RowsFromCount(d, 0);
  }

  // ---------------------------------------------------------------------------
  // Reading a dump back

  /** Reads hex cells (two digits and a separator) until a cell does not start with two digits. */
  function DecodeCells(col: string): seq<Byte>
  {
    if |col| < 3 || !IsHexDigit(col[0]) || !IsHexDigit(col[1]) then []
    else [16 * DigitValue(col[0]) + DigitValue(col[1])] + DecodeCells(col[3..])
  }

  /**
   Reads a dump with six-digit offsets back into bytes: each row gives the
   bytes of its hex column (characters 8 to 55), and the row's length, 58
   characters plus one ASCII character per byte, follows from their count.
   */
  function Undump(s: string): seq<Byte>
    decreases |s|
  {
    if |s| < 58 then []
    else
      var bytes := DecodeCells(s[8..56]);
      if |s| < 58 + |bytes| then []
      else bytes + Undump(s[58 + |bytes|..])
  }

  lemma DecodeCellsCons(cell: string, rest: string)
    requires |cell| == 3 && IsHexDigit(cell[0]) && IsHexDigit(cell[1])
    ensures DecodeCells(cell + rest) == [16 * DigitValue(cell[0]) + DigitValue(cell[1])] + DecodeCells(rest)
  {
    assert (cell + rest)[3..] == rest;
  }

  /** Reading the hex cells back gives the bytes they show, and nothing for the padding. */
  lemma {:induction false} DecodeHexCells(d: seq<Byte>, k: nat, end: nat)
    requires k <= end
    ensures DecodeCells(HexCells(d, k, end)) == Window(d, k, end)
    decreases end - k
  {
    if k < end {
      if k < |d| {
        assert HexCells(d, k, end) == HexCell(d, k) + HexCells(d, k + 1, end);
        DecodeHexCells(d, k + 1, end);
        CellShowsByte(d, k);
        DecodeCellsCons(HexCell(d, k), HexCells(d, k + 1, end));
        WindowCons(d, k, end);
      } else {
        var col := HexCells(d, k, end);
        assert col == HexCell(d, k) + HexCells(d, k + 1, end);
        assert HexCell(d, k) == "   ";
        assert !IsHexDigit(col[0]);
      }
    }
  }

  lemma WindowCons(d: seq<Byte>, k: nat, end: nat)
    requires k < end && k < |d|
    ensures Window(d, k, end) == [d[k]] + Window(d, k + 1, end)
  {
  }

  /** A row of text that `Undump` reads as the bytes `shown`. */
  predicate Shows(t: string, shown: seq<Byte>)
  {
    |t| == 58 + |shown| && DecodeCells(t[8..56]) == shown
  }

  /** The row at `start` shows the bytes of that row. */
  lemma RowShows(d: seq<Byte>, start: nat)
    requires start < MaxSixDigitSize
    ensures Shows(RowText(d, start), Window(d, start, start + 16))
  {
    RowParts(d, start);
    DecodeHexCells(d, start, start + 16);
  }

  lemma UndumpPrefix(t: string, rest: string, shown: seq<Byte>)
    requires Shows(t, shown)
    ensures Undump(t + rest) == shown + Undump(rest)
  {
    var s := t + rest;
    assert s[8..56] == t[8..56];
    assert s[58 + |shown|..] == rest;
  }

  /** Reading back the rows from `start` on gives the bytes from `start` on. */
  lemma {:induction false} UndumpRowsFrom(d: seq<Byte>, start: nat)
    requires |d| <= MaxSixDigitSize
    ensures Undump(Join(RowsFrom(d, start))) == if start < |d| then d[start..] else []
    decreases |d| - start
  {
    if start < |d| {
      UndumpRowsFrom(d, start + 16);
      JoinRowsFrom(d, start);
      RowShows(d, start);
      UndumpPrefix(RowText(d, start), Join(RowsFrom(d, start + 16)), Window(d, start, start + 16));
      DropWindow(d, start);
    }
  }

  lemma DropWindow(d: seq<Byte>, start: nat)
    requires start < |d|
    ensures d[start..] == Window(d, start, start + 16) + if start + 16 < |d| then d[start + 16..] else []
  {
  }

  /** Reading a dump of at most 16 MiB back through its hex columns gives the dumped bytes. */
  lemma UndumpDump(d: seq<Byte>)
    requires |d| <= MaxSixDigitSize
    ensures Undump(DumpText(d)) == d
  {
    UndumpRowsFrom(d, 0);
  }
}
