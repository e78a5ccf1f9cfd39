/** The driver (src/main.rs): parse the arguments against the tool's own
    flag list, turn the parsed flags into counters to run, fall back to
    lines, words and bytes when none is asked for, and count either
    standard input or the named files. */
module Cli {
  import opened Types
  import opened Results
  import opened Args
  import Counter
  import Process
  import Render

  /** The flags the tool accepts, in the order it lists them. */
  const MainFlags: seq<string> := ["-c", "--bytes", "-l", "--lines", "-w", "--words", "-m", "--chars", "--help"]

  /** The help text, one line per entry, each followed by a newline. */
  const HelpLines: seq<string> := [
    "Usage: rswc [OPTION]... [FILE]...",
    "  -c, --bytes    print the byte counts",
    "  -l, --lines    print the line counts",
    "  -w, --words    print the word counts",
    "  -m, --chars    print the character counts",
    "      --help     display help and exit"
  ]

  /** A counter is asked for by its long or its short spelling. */
  predicate Requested(a: ArgSet, long: string, letter: char)
  {
    Has(a, long) || Has(a, Short(letter))
  }

  /** The counters the arguments ask for, before any default applies. */
  function ExplicitFlags(a: ArgSet): Flags
  {
    Flags(lines := Has(a, "--lines") || Has(a, "-l"),
          words := Has(a, "--words") || Has(a, "-w"),
          bytes := Has(a, "--bytes") || Has(a, "-c"),
          chars := Has(a, "--chars") || Has(a, "-m"))
  }

  predicate AnyEnabled(f: Flags)
  {
    f.lines || f.words || f.bytes || f.chars
  }

  /** With no counter asked for, count lines, words and bytes. Defaulting
      only ever switches counters on, never the character counter, and
      leaves an explicit choice alone. */
  function WithDefaults(f: Flags): (r: Flags)
    ensures AnyEnabled(r)
    ensures f.lines ==> r.lines
    ensures f.words ==> r.words
    ensures f.bytes ==> r.bytes
    ensures r.chars == f.chars
    ensures AnyEnabled(f) <==> r == f
    ensures !AnyEnabled(f) ==> r == Flags(lines := true, words := true, bytes := true, chars := false)
  {
    if !AnyEnabled(f) then Flags(lines := true, words := true, bytes := true, chars := false) else f
  }

  /** What `main` goes on to do once the arguments are known. */
  datatype Action =
    | UsageError(msg: string)
    | ShowHelp
    | CountStdin(flags: Flags)
    | CountFiles(paths: seq<string>, flags: Flags)

  /** A usage error exactly when the arguments do not parse; otherwise at
      least one counter is on, and the files counted are the path
      arguments, standard input being counted when there are none. */
  function Plan(args: seq<string>): (r: Action)
    ensures r.UsageError? <==> Parse(args, MainFlags).Failure?
    ensures r.UsageError? ==> r.msg == Parse(args, MainFlags).error
    ensures r.CountStdin? || r.CountFiles? ==> AnyEnabled(r.flags)
    ensures r.CountStdin? ==> Parse(args, MainFlags).value.filePaths == []
    ensures r.CountFiles? ==> r.paths == Parse(args, MainFlags).value.filePaths && |r.paths| > 0
  {
    match Parse(args, MainFlags)
    case Failure(e) => UsageError(e)
    case Success(a) =>
      var asked := ExplicitFlags(a);
      if Has(a, "-h") || Has(a, "--help") then ShowHelp
      else
        var flags := WithDefaults(asked);
        if |a.filePaths| == 0 then CountStdin(flags) else CountFiles(a.filePaths, flags)
  }

  /** What the process writes and the status it exits with. */
  datatype Exit = Exit(out: string, err: string, status: nat)

  function HelpText(lines: seq<string>): string
    decreases |lines|
  {
    if |lines| == 0 then "" else lines[0] + "\n" + HelpText(lines[1..])
  }

  /** The whole program: `stdin` is what standard input yields, and `open`
      what opening each path yields. */
  function Run(args: seq<string>, stdin: seq<Counter.ReadResult>, open: string -> Process.Opened): (x: Exit)
    ensures x.status == 0 <==> Plan(args).CountFiles? || (Plan(args).CountStdin? && Counter.CountReader(stdin, Plan(args).flags).Success?)
    ensures Parse(args, MainFlags).Failure? ==> x == Exit("", Parse(args, MainFlags).error + "\n", 1)
    ensures x.status == 0 ==> x.err == ""
    ensures Plan(args).CountStdin? && Counter.CountReader(stdin, Plan(args).flags).Success? ==>
              x.out == Render.StdinOutput(Counter.CountReader(stdin, Plan(args).flags).value, Plan(args).flags)
  {
    match Plan(args)
    case UsageError(e) => Exit("", e + "\n", 1)
    case ShowHelp => Exit(HelpText(HelpLines), "", 1)
    case CountStdin(flags) =>
      (match Counter.CountReader(stdin, flags)
       case Failure(e) => Exit("", "Error: " + e + "\n", 1)
       case Success(c) => Exit(Render.StdinOutput(c, flags), "", 0))
    case CountFiles(paths, flags) =>
      Exit(Render.FilesOutput(Process.ProcessFiles(paths, open, flags), flags), "", 0)
  }

  // ---------------------------------------------------------------------
  // Properties

  /** A token asks for a counter when it is the long spelling, the short
      spelling, or a cluster holding the counter's letter. */
  predicate Asks(token: string, long: string, letter: char)
  {
    token == long || token == Short(letter) || (IsCluster(token) && letter in token[1..])
  }

  lemma PiecesAsk(t: string, long: string, letter: char)
    requires |long| > 2 && StartsWith(long, "--")
    ensures (!IsPathToken(t) && (long in Pieces(t) || Short(letter) in Pieces(t))) <==> Asks(t, long, letter)
  {
    assert long[..1] == "-" by { assert long[..2][..1] == long[..1]; }
    assert !IsPathToken(long);
    assert !IsPathToken(Short(letter)) by { assert Short(letter)[..1] == "-"; }
    if IsCluster(t) {
      ShortsMembers(t[1..], letter);
      assert long !in Pieces(t);
      assert t != long;
      if t == Short(letter) {
        assert t[1..] == [letter];
      }
    }
  }

  /** After a successful parse, a counter is asked for exactly when some
      argument asks for it. */
  lemma {:induction false} RequestedIff(args: seq<string>, long: string, letter: char)
    requires Parse(args, MainFlags).Success?
    requires |long| > 2 && StartsWith(long, "--")
    ensures Requested(Parse(args, MainFlags).value, long, letter) <==> exists t :: t in args && Asks(t, long, letter)
  {
    HasIff(args, MainFlags, long);
    HasIff(args, MainFlags, Short(letter));
    forall t
      ensures (!IsPathToken(t) && (long in Pieces(t) || Short(letter) in Pieces(t))) <==> Asks(t, long, letter)
    {
      PiecesAsk(t, long, letter);
    }
  }

  /** Each counter of the parsed flags is on exactly when an argument asks
      for it: `-c`/`--bytes`, `-l`/`--lines`, `-w`/`--words`, `-m`/`--chars`,
      or a cluster holding the letter. */
  lemma ExplicitFlagsMeaning(args: seq<string>)
    requires Parse(args, MainFlags).Success?
    ensures ExplicitFlags(Parse(args, MainFlags).value).bytes <==> exists t :: t in args && Asks(t, "--bytes", 'c')
    ensures ExplicitFlags(Parse(args, MainFlags).value).lines <==> exists t :: t in args && Asks(t, "--lines", 'l')
    ensures ExplicitFlags(Parse(args, MainFlags).value).words <==> exists t :: t in args && Asks(t, "--words", 'w')
    ensures ExplicitFlags(Parse(args, MainFlags).value).chars <==> exists t :: t in args && Asks(t, "--chars", 'm')
  {
    assert "--bytes"[..2] == "--" && "--lines"[..2] == "--" && "--words"[..2] == "--" && "--chars"[..2] == "--";
    assert Short('l') == "-l" && Short('w') == "-w" && Short('c') == "-c" && Short('m') == "-m";
    RequestedIff(args, "--bytes", 'c');
    RequestedIff(args, "--lines", 'l');
    RequestedIff(args, "--words", 'w');
    RequestedIff(args, "--chars", 'm');
  }

  /** `-h` is not an accepted flag, so a parsed argument set never holds it:
      the `-h` half of the help test can never fire. */
  lemma ShortHelpUnreachable(args: seq<string>)
    requires Parse(args, MainFlags).Success?
    ensures !Has(Parse(args, MainFlags).value, "-h")
  {
    ParsedFlagsAreAccepted(args, MainFlags);
    assert "-h" !in MainFlags;
  }

  /** Only the `--help` token itself stands for `--help`: a cluster's
      flags are all two characters long. */
  lemma HelpPieces(t: string)
    ensures !IsPathToken(t) && "--help" in Pieces(t) <==> t == "--help"
  {
    if IsCluster(t) {
      ShortsMembers(t[1..], 'h');
      assert "--help" !in Pieces(t);
    }
    assert "--help"[..1] == "-" && "--help"[..2] == "--";
  }

  /** Help is shown exactly when the arguments parse and one of them is
      `--help`; `-h` is rejected as an unrecognised option instead. */
  lemma HelpIff(args: seq<string>)
    ensures Plan(args) == ShowHelp <==> Parse(args, MainFlags).Success? && "--help" in args
  {
    if Parse(args, MainFlags).Success? {
      ShortHelpUnreachable(args);
      HasIff(args, MainFlags, "--help");
      forall t
        ensures !IsPathToken(t) && "--help" in Pieces(t) <==> t == "--help"
      {
        HelpPieces(t);
      }
    }
  }

  /** Once neither parsing fails nor help is asked for, standard input is
      counted exactly when no path was given, and otherwise the paths are
      the path arguments in order; the counters are the ones asked for,
      or lines, words and bytes when none is. */
  lemma PlanDispatch(args: seq<string>)
    requires Parse(args, MainFlags).Success? && "--help" !in args
    ensures Plan(args).CountStdin? <==> PathTokens(args) == []
    ensures Plan(args).CountFiles? <==> PathTokens(args) != []
    ensures Plan(args).CountFiles? ==> Plan(args).paths == PathTokens(args)
    ensures Plan(args).CountStdin? || Plan(args).CountFiles?
    ensures Plan(args).flags == WithDefaults(ExplicitFlags(Parse(args, MainFlags).value))
  {
    HelpIff(args);
    ParseSplitsTokens(args, MainFlags);
  }

  /** Counting files always exits with status 0, even when no file could
      be read: per-file errors go to standard output as rows. */
  lemma FilesAlwaysSucceed(args: seq<string>, stdin: seq<Counter.ReadResult>, open: string -> Process.Opened)
    requires Parse(args, MainFlags).Success? && "--help" !in args && PathTokens(args) != []
    ensures Run(args, stdin, open).status == 0 && Run(args, stdin, open).err == ""
    ensures Run(args, stdin, open).out
         == Render.FilesOutput(Process.ProcessFiles(PathTokens(args), open, Plan(args).flags), Plan(args).flags)
  {
    PlanDispatch(args);
  }

  // ---------------------------------------------------------------------
  // Examples

  /** A bare path counts lines, words and bytes of that file. */
  lemma PathOnlyUsesDefaults()
    ensures Plan(["notes.txt"]) == CountFiles(["notes.txt"], Flags(lines := true, words := true, bytes := true, chars := false))
  {
    assert Parse([], MainFlags) == Success(ArgSet([], []));
    assert "notes.txt"[..1] == "n" && IsPathToken("notes.txt");
    assert Classify("notes.txt", MainFlags) == Success(PathArg("notes.txt"));
    assert ["notes.txt"][0] == "notes.txt" && ["notes.txt"][1..] == [];
    assert ["notes.txt"] + [] == ["notes.txt"];
    assert Parse(["notes.txt"], MainFlags) == Success(ArgSet([], ["notes.txt"]));
  }

  /** `-m` alone counts only characters, from standard input. */
  lemma CharsOnlyFromStdin()
    ensures Plan(["-m"]) == CountStdin(Flags(lines := false, words := false, bytes := false, chars := true))
  {
    var a := ArgSet(["-m"], []);
    assert Parse([], MainFlags) == Success(ArgSet([], []));
    assert "-m"[..1] == "-" && !IsPathToken("-m");
    assert Utf8Len("-m") == 2 by { assert "-m"[1..][1..] == []; }
    assert "-m" in MainFlags;
    assert !IsCluster("-m");
    assert Classify("-m", MainFlags) == Success(FlagArgs(["-m"]));
    assert ["-m"][0] == "-m" && ["-m"][1..] == [];
    assert ["-m"] + [] == ["-m"];
    assert Parse(["-m"], MainFlags) == Success(a);
    assert Has(a, "-m") && !Has(a, "-h") && !Has(a, "--help");
    assert !Has(a, "--lines") && !Has(a, "-l") && !Has(a, "--words") && !Has(a, "-w");
    assert !Has(a, "--bytes") && !Has(a, "-c");
  }

  /** `-h` is not a flag of this tool. */
  lemma ShortHelpRejected()
    ensures Plan(["-h"]) == UsageError("rswc: unrecognized option -h")
  {
    assert "-h"[..1] == "-" && !IsPathToken("-h");
    assert Utf8Len("-h") == 2 by { assert "-h"[1..][1..] == []; }
    assert "-h" !in MainFlags;
    assert ["-h"][0] == "-h";
  }
}
