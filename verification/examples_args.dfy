/** The argument-parsing unit tests (src/args.rs:55-129), checked against
    the model, and cases they do not cover. */
module ArgsExamples {
  import opened Results
  import opened Args

  const TestFlags: seq<string> := ["-l", "-c", "-w", "-m", "--lines", "--bytes", "--words", "--chars"]

  // Token shapes

  lemma PlainToken(arg: string)
    requires |arg| > 0 && arg[0] != '-'
    ensures IsPathToken(arg)
  {
  }

  lemma ShortToken(arg: string)
    requires |arg| == 2 && arg[0] == '-' && arg[1] != '-' && (arg[1] as int) < 0x80
    ensures !IsPathToken(arg) && !IsCluster(arg)
  {
    assert arg[..1] == "-";
    assert Utf8Len(arg) == 2 by {
      assert arg[1..][1..] == [];
    }
  }

  lemma LongToken(arg: string)
    requires |arg| > 2 && arg[0] == '-' && arg[1] == '-'
    ensures !IsPathToken(arg) && !IsCluster(arg)
  {
    assert arg[..1] == "-";
    assert arg[..2] == "--";
  }

  lemma ClusterToken(arg: string)
    requires |arg| > 2 && arg[0] == '-' && arg[1] != '-'
    ensures IsCluster(arg)
  {
    assert arg[..1] == "-";
    assert arg[..2] != "--" by { assert arg[..2][1] == arg[1]; }
  }

  lemma ParseCons(arg: string, rest: seq<string>, custom: seq<string>)
    ensures Parse([arg] + rest, custom)
         == match Classify(arg, custom)
            case Failure(e) => Failure(e)
            case Success(tok) =>
              match Parse(rest, custom)
              case Failure(e) => Failure(e)
              case Success(a) =>
                match tok
                case PathArg(p) => Success(ArgSet(a.flags, [p] + a.filePaths))
                case FlagArgs(fs) => Success(ArgSet(fs + a.flags, a.filePaths))
  {
    assert ([arg] + rest)[0] == arg && ([arg] + rest)[1..] == rest;
  }

  /** Parsing past one path token. */
  lemma PathStep(arg: string, rest: seq<string>, custom: seq<string>, a: ArgSet)
    requires IsPathToken(arg) && Parse(rest, custom) == Success(a)
    ensures Parse([arg] + rest, custom) == Success(ArgSet(a.flags, [arg] + a.filePaths))
  {
    ParseCons(arg, rest, custom);
  }

  /** Parsing past one token that yields the flags `fs`. */
  lemma FlagStep(arg: string, fs: seq<string>, rest: seq<string>, custom: seq<string>, a: ArgSet)
    requires Classify(arg, custom) == Success(FlagArgs(fs)) && Parse(rest, custom) == Success(a)
    ensures Parse([arg] + rest, custom) == Success(ArgSet(fs + a.flags, a.filePaths))
  {
    ParseCons(arg, rest, custom);
  }

  /** Expanding past one accepted cluster letter. */
  lemma LetterStep(c: char, rest: string, custom: seq<string>, fs: seq<string>)
    requires Short(c) in custom && ExpandCluster(rest, custom) == Success(fs)
    ensures ExpandCluster([c] + rest, custom) == Success([Short(c)] + fs)
  {
    assert ([c] + rest)[0] == c && ([c] + rest)[1..] == rest;
  }

  /** A single accepted flag token. */
  lemma AcceptedFlag(arg: string, custom: seq<string>)
    requires !IsPathToken(arg) && !IsCluster(arg) && arg in custom
    ensures Classify(arg, custom) == Success(FlagArgs([arg]))
  {
  }

  /** A two-character string whose second character is none of the test
      flags' letters is not a test flag. */
  lemma NotATestFlag(s: string)
    requires |s| == 2 && s[1] != 'l' && s[1] != 'c' && s[1] != 'w' && s[1] != 'm' && s[1] != '-'
    ensures s !in TestFlags
  {
    forall i | 0 <= i < |TestFlags|
      ensures TestFlags[i] != s
    {
      assert |TestFlags[i]| != 2 || TestFlags[i][1] != s[1];
    }
  }

  // The unit tests

  lemma SingleFlagAndFile()
    ensures Parse(["-l", "file.txt"], TestFlags) == Success(ArgSet(["-l"], ["file.txt"]))
  {
    ShortToken("-l");
    PlainToken("file.txt");
    AcceptedFlag("-l", TestFlags);
    assert Parse([], TestFlags) == Success(ArgSet([], []));
    PathStep("file.txt", [], TestFlags, ArgSet([], []));
    assert ["file.txt"] + [] == ["file.txt"];
    FlagStep("-l", ["-l"], ["file.txt"], TestFlags, ArgSet([], ["file.txt"]));
    assert ["-l"] + ["file.txt"] == ["-l", "file.txt"];
    assert ["-l"] + [] == ["-l"];
  }

  /** A cluster is split into one flag per letter, in order. */
  lemma ClusterSplit()
    ensures Parse(["-lc", "file.txt"], TestFlags) == Success(ArgSet(["-l", "-c"], ["file.txt"]))
  {
    ClusterLc();
    PlainToken("file.txt");
    assert Parse([], TestFlags) == Success(ArgSet([], []));
    PathStep("file.txt", [], TestFlags, ArgSet([], []));
    assert ["file.txt"] + [] == ["file.txt"];
    FlagStep("-lc", ["-l", "-c"], ["file.txt"], TestFlags, ArgSet([], ["file.txt"]));
    assert ["-lc"] + ["file.txt"] == ["-lc", "file.txt"];
    assert ["-l", "-c"] + [] == ["-l", "-c"];
  }

  /** `-lc` is a cluster standing for `-l` then `-c`. */
  lemma ClusterLc()
    ensures Classify("-lc", TestFlags) == Success(FlagArgs(["-l", "-c"]))
  {
    ClusterToken("-lc");
    assert "-lc"[1..] == "lc" && "lc"[0] == 'l' && "lc"[1..] == "c" && "c"[0] == 'c' && "c"[1..] == "";
    assert Short('l') == "-l" && Short('c') == "-c";
    assert "-l" in TestFlags && "-c" in TestFlags;
    assert ExpandCluster("", TestFlags) == Success([]);
    LetterStep('c', "", TestFlags, []);
    assert ['c'] + "" == "c" && ["-c"] + [] == ["-c"];
    LetterStep('l', "c", TestFlags, ["-c"]);
    assert ['l'] + "c" == "lc" && ["-l"] + ["-c"] == ["-l", "-c"];
  }

  /** A cluster with a letter that is not accepted names that letter. */
  lemma ClusterWithUnknownLetter()
    ensures Parse(["-lz"], TestFlags) == Failure("rswc: invalid option -z")
  {
    ClusterToken("-lz");
    assert "-lz"[1..] == "lz" && "lz"[1..] == "z";
    assert Short('l') == "-l" && Short('z') == "-z";
    assert "-z" !in TestFlags;
    assert ExpandCluster("lz", TestFlags) == Failure("rswc: invalid option -z");
    ParseCons("-lz", [], TestFlags);
  }

  lemma UnknownShortFlag()
    ensures Parse(["-z"], TestFlags) == Failure("rswc: unrecognized option -z")
  {
    ShortToken("-z");
    assert "-z" !in TestFlags;
    ParseCons("-z", [], TestFlags);
  }

  lemma SeveralFiles()
    ensures Parse(["-l", "file1.txt", "file2.txt"], TestFlags)
         == Success(ArgSet(["-l"], ["file1.txt", "file2.txt"]))
  {
    ShortToken("-l");
    PlainToken("file1.txt");
    PlainToken("file2.txt");
    AcceptedFlag("-l", TestFlags);
    assert Parse([], TestFlags) == Success(ArgSet([], []));
    PathStep("file2.txt", [], TestFlags, ArgSet([], []));
    assert ["file2.txt"] + [] == ["file2.txt"];
    PathStep("file1.txt", ["file2.txt"], TestFlags, ArgSet([], ["file2.txt"]));
    assert ["file1.txt"] + ["file2.txt"] == ["file1.txt", "file2.txt"];
    FlagStep("-l", ["-l"], ["file1.txt", "file2.txt"], TestFlags, ArgSet([], ["file1.txt", "file2.txt"]));
    assert ["-l"] + ["file1.txt", "file2.txt"] == ["-l", "file1.txt", "file2.txt"];
    assert ["-l"] + [] == ["-l"];
  }

  lemma LongFlags()
    ensures Parse(["--lines", "--bytes", "--chars", "--words", "file1.txt", "file2.txt"], TestFlags)
         == Success(ArgSet(["--lines", "--bytes", "--chars", "--words"], ["file1.txt", "file2.txt"]))
  {
    LongFlagsThenFiles();
    assert LongFour + TwoPaths == ["--lines", "--bytes", "--chars", "--words", "file1.txt", "file2.txt"];
  }

  const LongFour: seq<string> := ["--lines", "--bytes", "--chars", "--words"]
  const TwoPaths: seq<string> := ["file1.txt", "file2.txt"]

  lemma LongFlagsThenFiles()
    ensures Parse(LongFour + TwoPaths, TestFlags) == Success(ArgSet(LongFour, TwoPaths))
  {
    TwoFiles("file1.txt", "file2.txt");
    LongTestFlags(LongFour);
    FlagsThenRest(LongFour, TwoPaths, TestFlags, ArgSet([], TwoPaths));
    assert LongFour + [] == LongFour;
  }

  lemma LongTestFlags(fs: seq<string>)
    requires forall i :: 0 <= i < |fs| ==> fs[i] in TestFlags && |fs[i]| > 2 && fs[i][..2] == "--"
    ensures forall i :: 0 <= i < |fs| ==> !IsPathToken(fs[i]) && !IsCluster(fs[i]) && fs[i] in TestFlags
  {
    forall i | 0 <= i < |fs|
      ensures !IsPathToken(fs[i]) && !IsCluster(fs[i])
    {
      assert fs[i][0] == fs[i][..2][0] && fs[i][1] == fs[i][..2][1];
      LongToken(fs[i]);
    }
  }

  lemma TwoFiles(p1: string, p2: string)
    requires |p1| > 0 && p1[0] != '-' && |p2| > 0 && p2[0] != '-'
    ensures Parse([p1, p2], TestFlags) == Success(ArgSet([], [p1, p2]))
  {
    PlainToken(p1);
    PlainToken(p2);
    assert Parse([], TestFlags) == Success(ArgSet([], []));
    PathStep(p2, [], TestFlags, ArgSet([], []));
    assert [p2] + [] == [p2];
    PathStep(p1, [p2], TestFlags, ArgSet([], [p2]));
    assert [p1] + [p2] == [p1, p2];
  }

  /** A run of plain accepted flags in front of `rest` adds those flags, in
      order, in front of the flags of `rest`. */
  lemma {:induction false} FlagsThenRest(fs: seq<string>, rest: seq<string>, custom: seq<string>, a: ArgSet)
    requires forall i :: 0 <= i < |fs| ==> !IsPathToken(fs[i]) && !IsCluster(fs[i]) && fs[i] in custom
    requires Parse(rest, custom) == Success(a)
    ensures Parse(fs + rest, custom) == Success(ArgSet(fs + a.flags, a.filePaths))
    decreases |fs|
  {
    if |fs| == 0 {
      assert fs + rest == rest && fs + a.flags == a.flags;
    } else {
      FlagsThenRest(fs[1..], rest, custom, a);
      AcceptedFlag(fs[0], custom);
      FlagStep(fs[0], [fs[0]], fs[1..] + rest, custom, ArgSet(fs[1..] + a.flags, a.filePaths));
      HeadThenTail(fs, rest);
      HeadThenTail(fs, a.flags);
    }
  }

  lemma HeadThenTail(xs: seq<string>, ys: seq<string>)
    requires |xs| > 0
    ensures [xs[0]] + (xs[1..] + ys) == xs + ys
  {
    assert xs == [xs[0]] + xs[1..];
  }

  /** Long flags must match exactly: a prefix is not enough. */
  lemma LongFlagPrefixRejected()
    ensures Parse(["--byte"], TestFlags) == Failure("rswc: unrecognized option --byte")
  {
    LongToken("--byte");
    assert "--byte" !in TestFlags;
    ParseCons("--byte", [], TestFlags);
  }

  // Beyond the unit tests

  /** A lone `-` is a path, even among flags. */
  lemma DashIsPath()
    ensures Parse(["-", "-w"], TestFlags) == Success(ArgSet(["-w"], ["-"]))
  {
    ShortToken("-w");
    assert "-w" in TestFlags;
    assert Classify("-w", TestFlags) == Success(FlagArgs(["-w"]));
    ParseCons("-w", [], TestFlags);
    assert ["-w"] + [] == ["-w"];
    assert Parse([], TestFlags) == Success(ArgSet([], []));
    assert Parse(["-w"], TestFlags) == Success(ArgSet(["-w"], []));
    assert IsPathToken("-");
    assert Classify("-", TestFlags) == Success(PathArg("-"));
    ParseCons("-", ["-w"], TestFlags);
    assert ["-", "-w"] == ["-"] + ["-w"];
    assert ["-"] + [] == ["-"];
  }

  /** The length test counts bytes: `-é` is three bytes long, so it is read
      as a cluster and rejected as an invalid option rather than an
      unrecognized one. */
  lemma MultiByteLetterIsCluster()
    ensures Parse(["-é"], TestFlags) == Failure("rswc: invalid option -é")
  {
    var arg := "-é";
    assert arg[..1] == "-";
    assert Utf8Len(arg) == 3 by {
      assert arg[1..] == "é" && "é"[1..] == "";
    }
    assert arg[1..] == "é";
    NotATestFlag(Short('é'));
    ParseCons(arg, [], TestFlags);
  }
}
