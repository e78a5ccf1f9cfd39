/** Rendering (src/counter.rs:6-12, 106-208): the `print_field!` cell, the
    rows of `print_files_results` and the single row of
    `print_stdin_results`, built as strings instead of written to a sink. */
module Render {
  import opened Types
  import opened Decimal
  import opened Totals
  import opened Results

  function Spaces(n: nat): (s: string)
    ensures |s| == n
    ensures forall i :: 0 <= i < n ==> s[i] == ' '
  {
    if n == 0 then "" else " " + Spaces(n - 1)
  }

  /** `{:>width$}`: right-justified in `width` characters, never truncated. */
  function PadLeft(s: string, width: nat): (r: string)
    ensures |r| == Max(|s|, width)
    ensures r[|r| - |s|..] == s
    ensures forall i :: 0 <= i < |r| - |s| ==> r[i] == ' '
  {
    if |s| >= width then s else Spaces(width - |s|) + s
  }

  /** `print_field!`: an enabled count right-justified to `width`, then one
      space; nothing at all for a disabled field. */
  function Cell(value: nat, enabled: bool, width: nat): (c: string)
    ensures !enabled ==> c == ""
    ensures enabled ==> |c| == Max(DigitLen(value), width) + 1 && c[|c| - 1] == ' '
  {
    if enabled then PadLeft(NatToString(value), width) + " " else ""
  }

  /** The numeric part of a row, in the fixed order lines, words, bytes, chars. */
  function Columns(c: Counts, flags: Flags, w: Widths): string
  {
    Cell(c.lines, flags.lines, w.lines) + Cell(c.words, flags.words, w.words)
    + Cell(c.bytes, flags.bytes, w.bytes) + Cell(c.chars, flags.chars, w.chars)
  }

  /** Every enabled count of `c` fits its column. */
  predicate Fits(c: Counts, flags: Flags, w: Widths)
  {
    forall f :: Enabled(flags, f) ==> DigitLen(Get(c, f)) <= WidthOf(w, f)
  }

  function CellWidth(enabled: bool, width: nat): nat
  {
    if enabled then width + 1 else 0
  }

  /** The length of the numeric part of every row whose counts fit. */
  function RowWidth(flags: Flags, w: Widths): nat
  {
    CellWidth(flags.lines, w.lines) + CellWidth(flags.words, w.words)
    + CellWidth(flags.bytes, w.bytes) + CellWidth(flags.chars, w.chars)
  }

  /** `c` with the disabled fields zeroed: what a row shows of `c`. */
  function Shown(c: Counts, flags: Flags): Counts
  {
    Counts(if flags.lines then c.lines else 0, if flags.words then c.words else 0,
           if flags.bytes then c.bytes else 0, if flags.chars then c.chars else 0)
  }

  // ---------------------------------------------------------------------
  // Reading a row back, column by column

  function TrimLeadingSpaces(s: string): (r: string)
    ensures |r| <= |s|
  {
    if |s| > 0 && s[0] == ' ' then TrimLeadingSpaces(s[1..]) else s
  }

  /** Reads one cell of width `width` off the front of `text`: blanks, a
      numeral, and the separating space, `width + 1` characters in all.
      Anything else is not a cell. A disabled field takes nothing. */
  function TakeCell(text: string, enabled: bool, width: nat): Option<(nat, string)>
  {
    if !enabled then Some((0, text))
    else if |text| < width + 1 || text[width] != ' ' then None
    else
      var numeral := TrimLeadingSpaces(text[..width]);
      if IsNumeral(numeral) then Some((ParseDigits(numeral), text[width + 1..])) else None
  }

  /** Reads the numeric part of a row laid out with widths `w`, returning the
      counts and the text after them. */
  function ReadColumns(text: string, flags: Flags, w: Widths): Option<(Counts, string)>
  {
    var r1 := TakeCell(text, flags.lines, w.lines);
    if r1.None? then None else
    var r2 := TakeCell(r1.value.1, flags.words, w.words);
    if r2.None? then None else
    var r3 := TakeCell(r2.value.1, flags.bytes, w.bytes);
    if r3.None? then None else
    var r4 := TakeCell(r3.value.1, flags.chars, w.chars);
    if r4.None? then None else
    Some((Counts(r1.value.0, r2.value.0, r3.value.0, r4.value.0), r4.value.1))
  }

  /** `ReadColumns` succeeds when each of its four cells reads in turn. */
  lemma ReadColumnsOfCells(text: string, flags: Flags, w: Widths, t1: string, t2: string, t3: string,
                           t4: string, v1: nat, v2: nat, v3: nat, v4: nat)
    requires TakeCell(text, flags.lines, w.lines) == Some((v1, t1))
    requires TakeCell(t1, flags.words, w.words) == Some((v2, t2))
    requires TakeCell(t2, flags.bytes, w.bytes) == Some((v3, t3))
    requires TakeCell(t3, flags.chars, w.chars) == Some((v4, t4))
    ensures ReadColumns(text, flags, w) == Some((Counts(v1, v2, v3, v4), t4))
  {
  }

  /** The converse of `ReadColumnsOfCells`: a successful `ReadColumns` read
      its four counts as four cells in turn. */
  lemma CellsOfReadColumns(text: string, flags: Flags, w: Widths, c: Counts, rest: string)
      returns (t1: string, t2: string, t3: string)
    requires ReadColumns(text, flags, w) == Some((c, rest))
    ensures TakeCell(text, flags.lines, w.lines) == Some((c.lines, t1))
    ensures TakeCell(t1, flags.words, w.words) == Some((c.words, t2))
    ensures TakeCell(t2, flags.bytes, w.bytes) == Some((c.bytes, t3))
    ensures TakeCell(t3, flags.chars, w.chars) == Some((c.chars, rest))
  {
    t1 := TakeCell(text, flags.lines, w.lines).value.1;
    t2 := TakeCell(t1, flags.words, w.words).value.1;
    t3 := TakeCell(t2, flags.bytes, w.bytes).value.1;
  }

  lemma {:induction false} TrimSpaces(k: nat, digits: string)
    requires |digits| > 0 && digits[0] != ' '
    ensures TrimLeadingSpaces(Spaces(k) + digits) == digits
    decreases k
  {
    if k > 0 {
      assert (Spaces(k) + digits)[1..] == Spaces(k - 1) + digits;
      TrimSpaces(k - 1, digits);
    } else {
      assert Spaces(k) + digits == digits;
    }
  }

  /** A cell whose count fits is exactly `width + 1` characters and reads
      back as its count. */
  lemma CellRoundTrip(v: nat, enabled: bool, width: nat, rest: string)
    requires enabled ==> DigitLen(v) <= width
    ensures |Cell(v, enabled, width)| == CellWidth(enabled, width)
    ensures TakeCell(Cell(v, enabled, width) + rest, enabled, width) == Some((if enabled then v else 0, rest))
  {
    if enabled {
      var ds := NatToString(v);
      var cell := Cell(v, enabled, width);
      var padded := PadLeft(ds, width);
      assert padded == Spaces(width - |ds|) + ds;
      assert (cell + rest)[..width] == padded;
      assert (cell + rest)[width] == ' ';
      assert (cell + rest)[width + 1..] == rest;
      TrimSpaces(width - |ds|, ds);
      ParseNatToString(v);
    } else {
      assert Cell(v, enabled, width) + rest == rest;
    }
  }

  /** What trimming took off is blanks. */
  lemma {:induction false} TrimmedIsBlanks(s: string)
    ensures s == Spaces(|s| - |TrimLeadingSpaces(s)|) + TrimLeadingSpaces(s)
    decreases |s|
  {
    if |s| > 0 && s[0] == ' ' {
      TrimmedIsBlanks(s[1..]);
      assert s == [' '] + s[1..];
    } else {
      assert s == Spaces(0) + s;
    }
  }

  /** The converse of `CellRoundTrip`: whatever `TakeCell` accepts is exactly
      the cell of the value it reads (blanks, the numeral, one space), and
      that value fits the width. */
  lemma TakeCellReadsOnlyCells(text: string, enabled: bool, width: nat, v: nat, rest: string)
    requires TakeCell(text, enabled, width) == Some((v, rest))
    ensures text == Cell(v, enabled, width) + rest
    ensures enabled ==> DigitLen(v) <= width
  {
    if enabled {
      var numeral := TrimLeadingSpaces(text[..width]);
      NumeralRoundTrip(numeral);
      TrimmedIsBlanks(text[..width]);
      assert text == text[..width] + [' '] + text[width + 1..];
    } else {
      assert text == "" + text;
    }
  }

  /** Columns whose counts fit are `RowWidth` characters wide. */
  lemma ColumnsWidth(c: Counts, flags: Flags, w: Widths)
    requires Fits(c, flags, w)
    ensures |Columns(c, flags, w)| == RowWidth(flags, w)
  {
    assert Enabled(flags, Lines) == flags.lines && Enabled(flags, Words) == flags.words;
    assert Enabled(flags, Bytes) == flags.bytes && Enabled(flags, Chars) == flags.chars;
    CellLength(c.lines, flags.lines, w.lines);
    CellLength(c.words, flags.words, w.words);
    CellLength(c.bytes, flags.bytes, w.bytes);
    CellLength(c.chars, flags.chars, w.chars);
  }

  /** A cell whose value fits is exactly `width + 1` characters. */
  lemma CellLength(v: nat, enabled: bool, width: nat)
    requires enabled ==> DigitLen(v) <= width
    ensures |Cell(v, enabled, width)| == CellWidth(enabled, width)
  {
  }

  /** Columns whose counts fit are `RowWidth` characters wide and read back
      as the counts shown. */
  lemma ColumnsRoundTrip(c: Counts, flags: Flags, w: Widths, rest: string)
    requires Fits(c, flags, w)
    ensures |Columns(c, flags, w)| == RowWidth(flags, w)
    ensures ReadColumns(Columns(c, flags, w) + rest, flags, w) == Some((Shown(c, flags), rest))
  {
    ColumnsWidth(c, flags, w);
    assert Enabled(flags, Lines) == flags.lines && Enabled(flags, Words) == flags.words;
    assert Enabled(flags, Bytes) == flags.bytes && Enabled(flags, Chars) == flags.chars;
    var l := Cell(c.lines, flags.lines, w.lines);
    var wd := Cell(c.words, flags.words, w.words);
    var b := Cell(c.bytes, flags.bytes, w.bytes);
    var ch := Cell(c.chars, flags.chars, w.chars);
    var t3 := ch + rest;
    var t2 := b + t3;
    var t1 := wd + t2;
    var shown := Shown(c, flags);
    CellRoundTrip(c.lines, flags.lines, w.lines, t1);
    CellRoundTrip(c.words, flags.words, w.words, t2);
    CellRoundTrip(c.bytes, flags.bytes, w.bytes, t3);
    CellRoundTrip(c.chars, flags.chars, w.chars, rest);
    ReadColumnsOfCells(l + t1, flags, w, t1, t2, t3, rest, shown.lines, shown.words, shown.bytes, shown.chars);
    Regroup(l, wd, b, ch, rest);
  }

  /** Four cells and what follows, regrouped from the left to the right. */
  lemma Regroup(a: string, b: string, c: string, d: string, e: string)
    ensures (((a + b) + c) + d) + e == a + (b + (c + (d + e)))
  {
  }

  /** The value a cell reads fits the cell's width. */
  lemma TakeCellFits(text: string, width: nat, v: nat, rest: string)
    requires TakeCell(text, true, width) == Some((v, rest))
    ensures DigitLen(v) <= width
  {
    NumeralRoundTrip(TrimLeadingSpaces(text[..width]));
  }

  /** A cell read of a disabled field takes nothing and reads zero. */
  lemma TakeDisabled(text: string, width: nat, v: nat, rest: string)
    requires TakeCell(text, false, width) == Some((v, rest))
    ensures v == 0 && rest == text
  {
  }

  /** The converse of `ColumnsRoundTrip`: text that reads as columns is
      exactly the columns of the counts read. */
  lemma ReadColumnsReadsOnlyColumns(text: string, flags: Flags, w: Widths, c: Counts, rest: string)
    requires ReadColumns(text, flags, w) == Some((c, rest))
    ensures text == Columns(c, flags, w) + rest
  {
    var t1, t2, t3 := CellsOfReadColumns(text, flags, w, c, rest);
    TakeCellReadsOnlyCells(text, flags.lines, w.lines, c.lines, t1);
    TakeCellReadsOnlyCells(t1, flags.words, w.words, c.words, t2);
    TakeCellReadsOnlyCells(t2, flags.bytes, w.bytes, c.bytes, t3);
    TakeCellReadsOnlyCells(t3, flags.chars, w.chars, c.chars, rest);
    Regroup(Cell(c.lines, flags.lines, w.lines), Cell(c.words, flags.words, w.words),
            Cell(c.bytes, flags.bytes, w.bytes), Cell(c.chars, flags.chars, w.chars), rest);
  }

  /** The counts that text reads as fit their columns. */
  lemma ReadCountsFit(text: string, flags: Flags, w: Widths, c: Counts, rest: string)
    requires ReadColumns(text, flags, w) == Some((c, rest))
    ensures Fits(c, flags, w)
  {
    var t1, t2, t3 := CellsOfReadColumns(text, flags, w, c, rest);
    if flags.lines { TakeCellFits(text, w.lines, c.lines, t1); }
    if flags.words { TakeCellFits(t1, w.words, c.words, t2); }
    if flags.bytes { TakeCellFits(t2, w.bytes, c.bytes, t3); }
    if flags.chars { TakeCellFits(t3, w.chars, c.chars, rest); }
    assert Enabled(flags, Lines) == flags.lines && Enabled(flags, Words) == flags.words;
    assert Enabled(flags, Bytes) == flags.bytes && Enabled(flags, Chars) == flags.chars;
  }

  /** The counts that text reads as are zero in the disabled fields. */
  lemma ReadCountsShown(text: string, flags: Flags, w: Widths, c: Counts, rest: string)
    requires ReadColumns(text, flags, w) == Some((c, rest))
    ensures Shown(c, flags) == c
  {
    var t1, t2, t3 := CellsOfReadColumns(text, flags, w, c, rest);
    if !flags.lines { TakeDisabled(text, w.lines, c.lines, t1); }
    if !flags.words { TakeDisabled(t1, w.words, c.words, t2); }
    if !flags.bytes { TakeDisabled(t2, w.bytes, c.bytes, t3); }
    if !flags.chars { TakeDisabled(t3, w.chars, c.chars, rest); }
  }

  // ---------------------------------------------------------------------
  // The rows

  /** The line for a path whose counting failed (note the trailing space). */
  function ErrorLine(path: string, msg: string): string
  {
    ToolName + ": " + path + ": " + msg + " \n"
  }

  function ResultLine(r: FileResult, flags: Flags, w: Widths): string
  {
    match r
    case Err(path, msg) => ErrorLine(path, msg)
    case Ok(path, c) => Columns(c, flags, w) + (path + "\n")
  }

  /** `print_files_results`, line by line: one line per result in input
      order, then a total row when there is more than one result. */
  function FilesLines(results: seq<FileResult>, flags: Flags): (lines: seq<string>)
    ensures |lines| == |results| + (if |results| > 1 then 1 else 0)
  {
    var w := FileWidths(results, flags);
    seq(|results|, i requires 0 <= i < |results| => ResultLine(results[i], flags, w))
    + (if |results| > 1 then [Columns(SumOk(results), flags, w) + "total\n"] else [])
  }

  function Join(lines: seq<string>): string
  {
    if |lines| == 0 then "" else lines[0] + Join(lines[1..])
  }

  /** Everything `print_files_results` writes. */
  function FilesOutput(results: seq<FileResult>, flags: Flags): string
  {
    Join(FilesLines(results, flags))
  }

  lemma LineOf(results: seq<FileResult>, flags: Flags, i: nat)
    requires i < |results|
    ensures FilesLines(results, flags)[i] == ResultLine(results[i], flags, FileWidths(results, flags))
  {
  }

  /** The row of a failed path is exactly the diagnostic line. */
  lemma ErrorRow(results: seq<FileResult>, flags: Flags, i: nat)
    requires i < |results| && results[i].Err?
    ensures FilesLines(results, flags)[i] == "rswc: " + results[i].path + ": " + results[i].msg + " \n"
  {
    LineOf(results, flags, i);
  }

  /** The row of a successful path: its numeric part has the same width as
      every other successful row, reads back as the enabled counts, and is
      followed by the path. */
  lemma OkRow(results: seq<FileResult>, flags: Flags, i: nat)
    requires i < |results| && results[i].Ok?
    ensures |FilesLines(results, flags)[i]| == RowWidth(flags, FileWidths(results, flags)) + |results[i].path| + 1
    ensures ReadColumns(FilesLines(results, flags)[i], flags, FileWidths(results, flags))
         == Some((Shown(results[i].counts, flags), results[i].path + "\n"))
  {
    var w := FileWidths(results, flags);
    var c := results[i].counts;
    assert Fits(c, flags, w);
    ColumnsRoundTrip(c, flags, w, results[i].path + "\n");
    LineOf(results, flags, i);
  }

  /** A total row exists exactly when there is more than one result, failed
      ones included; it shows the sums over the successful results only. */
  lemma TotalRow(results: seq<FileResult>, flags: Flags)
    ensures |FilesLines(results, flags)| > |results| <==> |results| > 1
    ensures |results| > 1 ==>
      FilesLines(results, flags)[|results|]
        == Columns(SumOk(OkOnly(results)), flags, FileWidths(results, flags)) + "total\n"
  {
    ErrorsAddNothing(results);
  }

  /** Widths come from the largest per-file value, not from the total, so
      the total row can be wider than the other rows: two files of `v`
      lines each, `v` a 7-digit number whose double has 8 digits (9999999,
      say), give a 7-wide column and an 8-digit total. */
  lemma TotalCanOverflowItsColumn(v: nat)
    requires 1000000 <= v < 10000000 <= 2 * v
    ensures var results := [Ok("a", Counts(v, 0, 0, 0)), Ok("b", Counts(v, 0, 0, 0))];
            var flags := Flags(true, false, false, false);
            var w := FileWidths(results, flags);
            w.lines == MaxWidth
            && |Columns(Counts(v, 0, 0, 0), flags, w)| == RowWidth(flags, w)
            && |Columns(SumOk(results), flags, w)| == RowWidth(flags, w) + 1
  {
    var c := Counts(v, 0, 0, 0);
    var results := [Ok("a", c), Ok("b", c)];
    var flags := Flags(true, false, false, false);
    var first := [Ok("a", c)];
    assert results[..|results| - 1] == first && first[..|first| - 1] == [];
    assert MaxOk(first, flags, Lines) == v;
    assert MaxOk(results, flags, Lines) == v;
    assert SumOk(first) == Plus(NoCounts, c);
    assert SumOk(results) == Counts(2 * v, 0, 0, 0);
    assert Pow10(6) == 1000000 && Pow10(7) == 10000000 && Pow10(8) == 100000000;
    DigitLenBound(v, 6);
    DigitLenBound(v, 7);
    DigitLenBound(2 * v, 7);
    DigitLenBound(2 * v, 8);
    assert DigitLen(v) == 7 && DigitLen(2 * v) == 8;
  }

  // ---------------------------------------------------------------------
  // Standard input

  /** Each column of the stdin row is as wide as its own value needs, and
      at least 7. */
  function StdinWidths(c: Counts): Widths
  {
    Widths(ColumnWidth(c.lines), ColumnWidth(c.words), ColumnWidth(c.bytes), ColumnWidth(c.chars))
  }

  /** `print_stdin_results`: one row labelled `-`, never a total. */
  function StdinOutput(c: Counts, flags: Flags): (out: string)
    ensures |out| == RowWidth(flags, StdinWidths(c)) + 2
    ensures out[|out| - 2..] == "-\n"
  {
    assert Fits(c, flags, StdinWidths(c));
    ColumnsRoundTrip(c, flags, StdinWidths(c), "-\n");
    Columns(c, flags, StdinWidths(c)) + "-\n"
  }

  /** The stdin row reads back as the enabled counts followed by `-`. */
  lemma StdinRow(c: Counts, flags: Flags)
    ensures ReadColumns(StdinOutput(c, flags), flags, StdinWidths(c)) == Some((Shown(c, flags), "-\n"))
  {
    assert Fits(c, flags, StdinWidths(c));
    ColumnsRoundTrip(c, flags, StdinWidths(c), "-\n");
  }

  /** The stdin row is the row a single file named `-` would get, and a
      single file gets no total row. */
  lemma StdinIsSingleFileRow(c: Counts, flags: Flags)
    ensures FilesLines([Ok("-", c)], flags) == [StdinOutput(c, flags)]
    ensures FilesOutput([Ok("-", c)], flags) == StdinOutput(c, flags)
  {
    SingleFileLines(c, flags, "-");
    SingleFileColumns(c, flags, "-");
    assert "-" + "\n" == "-\n";
    var lines := FilesLines([Ok("-", c)], flags);
    assert lines == [StdinOutput(c, flags)];
    assert Join(lines) == lines[0] + Join([]);
  }

  /** A single file gets its own row and no total row. */
  lemma SingleFileLines(c: Counts, flags: Flags, path: string)
    ensures FilesLines([Ok(path, c)], flags)
         == [Columns(c, flags, FileWidths([Ok(path, c)], flags)) + (path + "\n")]
  {
    var results := [Ok(path, c)];
    var lines := FilesLines(results, flags);
    assert |lines| == 1;
    assert lines[0] == ResultLine(results[0], flags, FileWidths(results, flags));
  }

  /** A single file's columns are laid out as the stdin row's. */
  lemma SingleFileColumns(c: Counts, flags: Flags, path: string)
    ensures Columns(c, flags, FileWidths([Ok(path, c)], flags)) == Columns(c, flags, StdinWidths(c))
  {
    var results := [Ok(path, c)];
    assert results[..0] == [];
    var w := FileWidths(results, flags);
    var sw := StdinWidths(c);
    assert MaxOk(results, flags, Lines) == if flags.lines then c.lines else 0;
    assert MaxOk(results, flags, Words) == if flags.words then c.words else 0;
    assert MaxOk(results, flags, Bytes) == if flags.bytes then c.bytes else 0;
    assert MaxOk(results, flags, Chars) == if flags.chars then c.chars else 0;
    assert Cell(c.lines, flags.lines, w.lines) == Cell(c.lines, flags.lines, sw.lines);
    assert Cell(c.words, flags.words, w.words) == Cell(c.words, flags.words, sw.words);
    assert Cell(c.bytes, flags.bytes, w.bytes) == Cell(c.bytes, flags.bytes, sw.bytes);
    assert Cell(c.chars, flags.chars, w.chars) == Cell(c.chars, flags.chars, sw.chars);
  }
}
