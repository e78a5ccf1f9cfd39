/** The expected outputs of the rendering unit tests
    (src/counter.rs:211-281), checked against the model. */
module RenderExamples {
  import opened Types
  import opened Decimal
  import opened Totals
  import opened Render

  const Big: Counts := Counts(2143500000, 17449200000, 102657000000, 0)
  const NoChars: Flags := Flags(true, true, true, false)

  /** Rendering a numeral one digit at a time. */
  lemma AppendDigit(n: nat, prefix: string, d: nat)
    requires n >= 10 && NatToString(n / 10) == prefix && d == n % 10
    ensures NatToString(n) == prefix + [DigitChar(d)]
  {
  }

  lemma Numeral2143500000()
    ensures NatToString(2143500000) == "2143500000"
  {
    assert NatToString(2) == "2";
    AppendDigit(21, "2", 1);
    AppendDigit(214, "21", 4);
    AppendDigit(2143, "214", 3);
    AppendDigit(21435, "2143", 5);
    AppendDigit(214350, "21435", 0);
    AppendDigit(2143500, "214350", 0);
    AppendDigit(21435000, "2143500", 0);
    AppendDigit(214350000, "21435000", 0);
    AppendDigit(2143500000, "214350000", 0);
  }

  lemma Numeral17449200000()
    ensures NatToString(17449200000) == "17449200000"
  {
    assert NatToString(1) == "1";
    AppendDigit(17, "1", 7);
    AppendDigit(174, "17", 4);
    AppendDigit(1744, "174", 4);
    AppendDigit(17449, "1744", 9);
    AppendDigit(174492, "17449", 2);
    AppendDigit(1744920, "174492", 0);
    AppendDigit(17449200, "1744920", 0);
    AppendDigit(174492000, "17449200", 0);
    AppendDigit(1744920000, "174492000", 0);
    AppendDigit(17449200000, "1744920000", 0);
  }

  lemma Numeral102657000000()
    ensures NatToString(102657000000) == "102657000000"
  {
    assert NatToString(1) == "1";
    AppendDigit(10, "1", 0);
    AppendDigit(102, "10", 2);
    AppendDigit(1026, "102", 6);
    AppendDigit(10265, "1026", 5);
    AppendDigit(102657, "10265", 7);
    AppendDigit(1026570, "102657", 0);
    AppendDigit(10265700, "1026570", 0);
    AppendDigit(102657000, "10265700", 0);
    AppendDigit(1026570000, "102657000", 0);
    AppendDigit(10265700000, "1026570000", 0);
    AppendDigit(102657000000, "10265700000", 0);
  }

  lemma Numeral4287000000()
    ensures NatToString(4287000000) == "4287000000"
  {
    assert NatToString(4) == "4";
    AppendDigit(42, "4", 2);
    AppendDigit(428, "42", 8);
    AppendDigit(4287, "428", 7);
    AppendDigit(42870, "4287", 0);
    AppendDigit(428700, "42870", 0);
    AppendDigit(4287000, "428700", 0);
    AppendDigit(42870000, "4287000", 0);
    AppendDigit(428700000, "42870000", 0);
    AppendDigit(4287000000, "428700000", 0);
  }

  lemma Numeral34898400000()
    ensures NatToString(34898400000) == "34898400000"
  {
    assert NatToString(3) == "3";
    AppendDigit(34, "3", 4);
    AppendDigit(348, "34", 8);
    AppendDigit(3489, "348", 9);
    AppendDigit(34898, "3489", 8);
    AppendDigit(348984, "34898", 4);
    AppendDigit(3489840, "348984", 0);
    AppendDigit(34898400, "3489840", 0);
    AppendDigit(348984000, "34898400", 0);
    AppendDigit(3489840000, "348984000", 0);
    AppendDigit(34898400000, "3489840000", 0);
  }

  lemma Numeral205314000000()
    ensures NatToString(205314000000) == "205314000000"
  {
    assert NatToString(2) == "2";
    AppendDigit(20, "2", 0);
    AppendDigit(205, "20", 5);
    AppendDigit(2053, "205", 3);
    AppendDigit(20531, "2053", 1);
    AppendDigit(205314, "20531", 4);
    AppendDigit(2053140, "205314", 0);
    AppendDigit(20531400, "2053140", 0);
    AppendDigit(205314000, "20531400", 0);
    AppendDigit(2053140000, "205314000", 0);
    AppendDigit(20531400000, "2053140000", 0);
    AppendDigit(205314000000, "20531400000", 0);
  }

  /** A row of three enabled columns whose numerals fill their widths. */
  lemma FullWidthRow(c: Counts, w: Widths, l: string, wd: string, b: string)
    requires NatToString(c.lines) == l && |l| == w.lines
    requires NatToString(c.words) == wd && |wd| == w.words
    requires NatToString(c.bytes) == b && |b| == w.bytes
    ensures Columns(c, NoChars, w) == l + " " + (wd + " ") + (b + " ")
  {
  }

  /** The aggregates of a two-result call. */
  lemma Pair(r0: FileResult, r1: FileResult, flags: Flags)
    ensures forall f :: MaxOk([r0, r1], flags, f) == Max(MaxCandidate(r0, flags, f), MaxCandidate(r1, flags, f))
    ensures SumOk([r0, r1]) == if r0.Ok? && r1.Ok? then Plus(Plus(NoCounts, r0.counts), r1.counts)
                               else if r0.Ok? then Plus(NoCounts, r0.counts)
                               else if r1.Ok? then Plus(NoCounts, r1.counts)
                               else NoCounts
  {
    var rs := [r0, r1];
    assert rs[..1] == [r0] && [r0][..0] == [];
    forall f
      ensures MaxOk(rs, flags, f) == Max(MaxCandidate(r0, flags, f), MaxCandidate(r1, flags, f))
    {
      assert MaxOk([r0], flags, f) == Max(MaxOk([], flags, f), MaxCandidate(r0, flags, f));
    }
    assert SumOk([r0]) == if r0.Ok? then Plus(SumOk([]), r0.counts) else SumOk([]);
  }

  const TwoFiles: seq<FileResult> := [Ok("file1.txt", Big), Ok("file2.txt", Big)]

  lemma TwoFilesAggregates()
    ensures FileWidths(TwoFiles, NoChars) == Widths(10, 11, 12, 7)
    ensures SumOk(TwoFiles) == Counts(4287000000, 34898400000, 205314000000, 0)
  {
    Pair(TwoFiles[0], TwoFiles[1], NoChars);
    TwoFilesColumns();
  }

  lemma TwoFilesColumns()
    ensures ColumnWidths(TwoFiles, NoChars) == Widths(10, 11, 12, 7)
  {
    Numeral2143500000();
    Numeral17449200000();
    Numeral102657000000();
    Pair(TwoFiles[0], TwoFiles[1], NoChars);
  }

  lemma BigRow(path: string)
    ensures ResultLine(Ok(path, Big), NoChars, Widths(10, 11, 12, 7))
         == "2143500000" + " " + ("17449200000" + " ") + ("102657000000" + " ") + (path + "\n")
  {
    Numeral2143500000();
    Numeral17449200000();
    Numeral102657000000();
    FullWidthRow(Big, Widths(10, 11, 12, 7), "2143500000", "17449200000", "102657000000");
  }

  lemma TwoFilesTotalRow()
    ensures |FilesLines(TwoFiles, NoChars)| == 3
    ensures FilesLines(TwoFiles, NoChars)[2]
         == "4287000000" + " " + ("34898400000" + " ") + ("205314000000" + " ") + "total\n"
  {
    assert |TwoFiles| == 2;
    TwoFilesAggregates();
    Numeral4287000000();
    Numeral34898400000();
    Numeral205314000000();
    FullWidthRow(SumOk(TwoFiles), FileWidths(TwoFiles, NoChars), "4287000000", "34898400000", "205314000000");
  }

  /** Two files with ten-, eleven- and twelve-digit counts: the columns are
      exactly as wide as the numbers and the total row follows. */
  lemma LargeNumbersTwoFiles()
    ensures var lines := FilesLines(TwoFiles, NoChars);
            && |lines| == 3
            && lines[0] == "2143500000" + " " + ("17449200000" + " ") + ("102657000000" + " ") + ("file1.txt" + "\n")
            && lines[1] == "2143500000" + " " + ("17449200000" + " ") + ("102657000000" + " ") + ("file2.txt" + "\n")
            && lines[2] == "4287000000" + " " + ("34898400000" + " ") + ("205314000000" + " ") + "total\n"
  {
    TwoFilesAggregates();
    LineOf(TwoFiles, NoChars, 0);
    LineOf(TwoFiles, NoChars, 1);
    BigRow("file1.txt");
    BigRow("file2.txt");
    TwoFilesTotalRow();
  }

  /** The whole output of the two-file test, as the one string it expects. */
  lemma LargeNumbersTwoFilesOutput()
    ensures FilesOutput(TwoFiles, NoChars) == FirstRow + SecondRow + TotalLine
  {
    FileRowsAsWritten();
    TotalLineAsWritten();
    JoinThree(FilesLines(TwoFiles, NoChars));
  }

  lemma FileRowsAsWritten()
    ensures FilesLines(TwoFiles, NoChars)[0] == FirstRow
    ensures FilesLines(TwoFiles, NoChars)[1] == SecondRow
  {
    TwoFileRow(0);
    TwoFileRow(1);
    FileNameLines();
  }

  lemma FileNameLines()
    ensures FirstRow == BigCells + ("file1.txt" + "\n")
    ensures SecondRow == BigCells + ("file2.txt" + "\n")
  {
    assert "file1.txt" + "\n" == "file1.txt\n" && "file2.txt" + "\n" == "file2.txt\n";
  }

  lemma TwoFileRow(i: nat)
    requires i < 2
    ensures |FilesLines(TwoFiles, NoChars)| == 3
    ensures FilesLines(TwoFiles, NoChars)[i] == BigCells + (TwoFiles[i].path + "\n")
  {
    TwoFileLine(i);
    BothBig(i);
    BigRowAsWritten(TwoFiles[i].path);
  }

  /** Both files of the test carry the same counts. */
  lemma BothBig(i: nat)
    requires i < 2
    ensures TwoFiles[i] == Ok(TwoFiles[i].path, Big)
  {
    if i == 0 {
      assert TwoFiles[0] == Ok("file1.txt", Big);
    } else {
      assert TwoFiles[1] == Ok("file2.txt", Big);
    }
  }

  lemma TwoFileLine(i: nat)
    requires i < 2
    ensures |FilesLines(TwoFiles, NoChars)| == 3
    ensures FilesLines(TwoFiles, NoChars)[i] == ResultLine(TwoFiles[i], NoChars, Widths(10, 11, 12, 7))
  {
    TwoFilesAggregates();
    LineOf(TwoFiles, NoChars, i);
  }

  lemma BigRowAsWritten(path: string)
    ensures ResultLine(Ok(path, Big), NoChars, Widths(10, 11, 12, 7)) == BigCells + (path + "\n")
  {
    BigRow(path);
    BigCellsPieces();
  }

  lemma TotalLineAsWritten()
    ensures FilesLines(TwoFiles, NoChars)[2] == TotalLine
  {
    LargeNumbersTwoFiles();
    TotalLinePieces();
  }

  /** The numeric part both file rows of the test share. */
  const BigCells := "2143500000 17449200000 102657000000 "
  const FirstRow := BigCells + "file1.txt\n"
  const SecondRow := BigCells + "file2.txt\n"
  const TotalLine := "4287000000 34898400000 205314000000 total\n"

  /** The test's expected text, cell by cell. */
  lemma BigCellsPieces()
    ensures BigCells == "2143500000" + " " + ("17449200000" + " ") + ("102657000000" + " ")
  {
  }

  lemma TotalLinePieces()
    ensures TotalLine == "4287000000" + " " + ("34898400000" + " ") + ("205314000000" + " ") + "total\n"
  {
  }

  /** Joining three lines is writing them one after another. */
  lemma JoinThree(lines: seq<string>)
    requires |lines| == 3
    ensures Join(lines) == lines[0] + lines[1] + lines[2]
  {
    assert lines[1..][1..][1..] == [];
    assert Join(lines[1..][1..]) == lines[2] + "";
  }

  /** The same counts read from standard input: one row labelled `-`. */
  lemma LargeNumbersStdin()
    ensures StdinOutput(Big, NoChars) == "2143500000" + " " + ("17449200000" + " ") + ("102657000000" + " ") + "-\n"
  {
    Numeral2143500000();
    Numeral17449200000();
    Numeral102657000000();
    var w := StdinWidths(Big);
    assert w == Widths(10, 11, 12, 7);
    FullWidthRow(Big, w, "2143500000", "17449200000", "102657000000");
  }

  /** Small counts are padded to the minimum width of 7. */
  lemma SmallCountsPadded()
    ensures StdinOutput(Counts(1, 2, 3, 0), NoChars) == "      1 " + "      2 " + "      3 " + "-\n"
  {
    var c := Counts(1, 2, 3, 0);
    var w := StdinWidths(c);
    assert w == Widths(7, 7, 7, 7);
    assert NatToString(1) == "1" && NatToString(2) == "2" && NatToString(3) == "3";
    assert Cell(1, true, 7) == "      1 ";
    assert Cell(2, true, 7) == "      2 ";
    assert Cell(3, true, 7) == "      3 ";
    assert Columns(c, NoChars, w) == "      1 " + "      2 " + "      3 " + "";
  }
}
