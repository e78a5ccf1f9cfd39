/** Argument parsing, `ArgSet` (src/args.rs): every token is either a path
    or one or more flags that must appear in the caller's list of accepted
    flags; the first token that is neither aborts parsing with a message. */
module Args {
  import opened Results

  /** The accepted flags in order of appearance, and the paths. */
  datatype ArgSet = ArgSet(flags: seq<string>, filePaths: seq<string>)

  function AnyEqual(xs: seq<string>, name: string): (r: bool)
    ensures r <==> exists i :: 0 <= i < |xs| && xs[i] == name
    decreases |xs|
  {
    |xs| > 0 && (xs[0] == name || AnyEqual(xs[1..], name))
  }

  /** `ArgSet::has`: some accepted flag is exactly `name`. */
  function Has(a: ArgSet, name: string): (r: bool)
    ensures r <==> exists i :: 0 <= i < |a.flags| && a.flags[i] == name
  {
    AnyEqual(a.flags, name)
  }

  // ---------------------------------------------------------------------
  // Token classification

  predicate StartsWith(s: string, prefix: string)
  {
    |prefix| <= |s| && s[..|prefix|] == prefix
  }

  /** The number of bytes `c` takes in UTF-8. */
  function EncodedLength(c: char): nat
  {
    var v := c as int;
    if v < 0x80 then 1 else if v < 0x800 then 2 else if v < 0x10000 then 3 else 4
  }

  /** Rust's `str::len`: the length of `s` in UTF-8 bytes, not characters. */
  function Utf8Len(s: string): (n: nat)
    ensures |s| <= n <= 4 * |s|
    decreases |s|
  {
    if |s| == 0 then 0 else EncodedLength(s[0]) + Utf8Len(s[1..])
  }

  /** A token that names a file: a lone `-`, or anything not starting with `-`. */
  predicate IsPathToken(arg: string)
  {
    !StartsWith(arg, "-") || arg == "-"
  }

  /** A cluster of single-letter flags such as `-lc`: more than two bytes
      long, starting with `-` but not with `--`. */
  predicate IsCluster(arg: string)
  {
    !IsPathToken(arg) && Utf8Len(arg) > 2 && !StartsWith(arg, "--")
  }

  /** The flag a cluster letter stands for: `-` followed by the letter. */
  function Short(letter: char): string
  {
    "-" + [letter]
  }

  /** The inner loop over the letters of a cluster: each letter becomes a
      flag, and the first letter that is not accepted is an error. */
  function ExpandCluster(letters: string, custom: seq<string>): (r: Result<seq<string>>)
    ensures r.Success? ==> |r.value| == |letters|
    ensures r.Success? ==> forall i :: 0 <= i < |letters| ==> r.value[i] == Short(letters[i]) && r.value[i] in custom
    ensures r.Failure? ==> exists i :: 0 <= i < |letters| && Short(letters[i]) !in custom
                                       && r.error == "rswc: invalid option -" + [letters[i]]
    decreases |letters|
  {
    if |letters| == 0 then Success([])
    else if Short(letters[0]) in custom then
      match ExpandCluster(letters[1..], custom)
      case Success(rest) => Success([Short(letters[0])] + rest)
      case Failure(e) => Failure(e)
    else Failure("rswc: invalid option -" + [letters[0]])
  }

  /** What one token contributes on success. */
  datatype Token = PathArg(path: string) | FlagArgs(flags: seq<string>)

  /** One iteration of the loop over the tokens. */
  function Classify(arg: string, custom: seq<string>): (r: Result<Token>)
    ensures IsPathToken(arg) ==> r == Success(PathArg(arg))
    ensures r.Success? && r.value.PathArg? ==> IsPathToken(arg)
    ensures r.Success? && r.value.FlagArgs? ==> |r.value.flags| >= 1
    ensures r.Success? && r.value.FlagArgs? ==> forall f :: f in r.value.flags ==> f in custom
  {
    if IsPathToken(arg) then Success(PathArg(arg))
    else if IsCluster(arg) then
      match ExpandCluster(arg[1..], custom)
      case Success(fs) => Success(FlagArgs(fs))
      case Failure(e) => Failure(e)
    else if arg in custom then Success(FlagArgs([arg]))
    else Failure("rswc: unrecognized option " + arg)
  }

  /** `ArgSet::try_from((args, custom_flags))`. */
  function Parse(args: seq<string>, custom: seq<string>): (r: Result<ArgSet>)
    ensures r.Success? ==> forall f :: f in r.value.flags ==> f in custom
    ensures r.Success? ==> forall p :: p in r.value.filePaths ==> p in args && IsPathToken(p)
    ensures r.Success? ==> |r.value.filePaths| <= |args| <= |r.value.flags| + |r.value.filePaths|
    decreases |args|
  {
    if |args| == 0 then Success(ArgSet([], []))
    else match Classify(args[0], custom)
      case Failure(e) => Failure(e)
      case Success(tok) =>
        match Parse(args[1..], custom)
        case Failure(e) => Failure(e)
        case Success(rest) =>
          match tok
          case PathArg(p) => Success(ArgSet(rest.flags, [p] + rest.filePaths))
          case FlagArgs(fs) => Success(ArgSet(fs + rest.flags, rest.filePaths))
  }

  // ---------------------------------------------------------------------
  // Reference definitions

  /** One short flag per letter, whether or not it is accepted. */
  function Shorts(letters: string): (r: seq<string>)
    ensures |r| == |letters|
    ensures forall i :: 0 <= i < |letters| ==> r[i] == Short(letters[i])
    decreases |letters|
  {
    if |letters| == 0 then [] else [Short(letters[0])] + Shorts(letters[1..])
  }

  /** The flags a non-path token stands for, whether or not they are accepted. */
  function Pieces(arg: string): seq<string>
  {
    if IsCluster(arg) then Shorts(arg[1..]) else [arg]
  }

  /** The index of the first letter whose flag is not accepted, or `|letters|`. */
  function FirstMissing(letters: string, custom: seq<string>): (k: nat)
    ensures k <= |letters|
    ensures forall j :: 0 <= j < k ==> Short(letters[j]) in custom
    ensures k < |letters| ==> Short(letters[k]) !in custom
    decreases |letters|
  {
    if |letters| == 0 || Short(letters[0]) !in custom then 0
    else 1 + FirstMissing(letters[1..], custom)
  }

  /** The token is a path, or every flag it stands for is accepted. */
  predicate Accepted(arg: string, custom: seq<string>)
  {
    IsPathToken(arg) || forall p :: p in Pieces(arg) ==> p in custom
  }

  /** The message for a token that is not accepted. */
  function Rejection(arg: string, custom: seq<string>): string
  {
    if IsCluster(arg) && FirstMissing(arg[1..], custom) < |arg| - 1 then
      "rswc: invalid option -" + [arg[1 + FirstMissing(arg[1..], custom)]]
    else "rswc: unrecognized option " + arg
  }

  function PathTokens(args: seq<string>): seq<string>
    decreases |args|
  {
    if |args| == 0 then [] else (if IsPathToken(args[0]) then [args[0]] else []) + PathTokens(args[1..])
  }

  function FlagTokens(args: seq<string>): seq<string>
    decreases |args|
  {
    if |args| == 0 then [] else (if IsPathToken(args[0]) then [] else [args[0]]) + FlagTokens(args[1..])
  }

  /** The flags of the flag tokens, clusters expanded in place. */
  function ExpandAll(tokens: seq<string>): seq<string>
    decreases |tokens|
  {
    if |tokens| == 0 then [] else Pieces(tokens[0]) + ExpandAll(tokens[1..])
  }

  // ---------------------------------------------------------------------
  // Properties

  lemma {:induction false} ExpandClusterMeaning(letters: string, custom: seq<string>)
    ensures ExpandCluster(letters, custom).Success? <==> FirstMissing(letters, custom) == |letters|
    ensures ExpandCluster(letters, custom).Success? ==>
              ExpandCluster(letters, custom).value == Shorts(letters)
    ensures ExpandCluster(letters, custom).Failure? ==>
              ExpandCluster(letters, custom).error == "rswc: invalid option -" + [letters[FirstMissing(letters, custom)]]
    decreases |letters|
  {
    if |letters| > 0 && Short(letters[0]) in custom {
      ExpandClusterMeaning(letters[1..], custom);
      if ExpandCluster(letters[1..], custom).Failure? {
        assert letters[1..][FirstMissing(letters[1..], custom)] == letters[FirstMissing(letters, custom)];
      }
    }
  }

  /** One token: it is accepted exactly when classification succeeds, a path
      token becomes a path, any other token becomes its flags, and a
      rejected token gets its message. */
  lemma ClassifyMeaning(arg: string, custom: seq<string>)
    ensures Classify(arg, custom).Success? <==> Accepted(arg, custom)
    ensures Classify(arg, custom).Success? ==>
              Classify(arg, custom).value == if IsPathToken(arg) then PathArg(arg) else FlagArgs(Pieces(arg))
    ensures Classify(arg, custom).Failure? ==> Classify(arg, custom).error == Rejection(arg, custom)
  {
    if !IsPathToken(arg) && IsCluster(arg) {
      var letters := arg[1..];
      ExpandClusterMeaning(letters, custom);
      var k := FirstMissing(letters, custom);
      var ps := Pieces(arg);
      assert |ps| == |letters|;
      assert forall i :: 0 <= i < |ps| ==> ps[i] == Short(letters[i]);
      if k < |letters| {
        assert ps[k] !in custom;
      } else {
        assert forall p :: p in ps ==> p in custom;
      }
    }
  }

  /** Parsing succeeds exactly when every token is accepted. */
  lemma {:induction false} ParseSucceedsIff(args: seq<string>, custom: seq<string>)
    ensures Parse(args, custom).Success? <==> forall i :: 0 <= i < |args| ==> Accepted(args[i], custom)
    decreases |args|
  {
    if |args| > 0 {
      ClassifyMeaning(args[0], custom);
      ParseSucceedsIff(args[1..], custom);
      assert forall i :: 1 <= i < |args| ==> args[i] == args[1..][i - 1];
    }
  }

  /** On success the paths are the path tokens in order, and the flags are
      the other tokens' flags in order of appearance, clusters expanded in
      place: each token goes to exactly one side. */
  lemma {:induction false} ParseSplitsTokens(args: seq<string>, custom: seq<string>)
    requires Parse(args, custom).Success?
    ensures Parse(args, custom).value.filePaths == PathTokens(args)
    ensures Parse(args, custom).value.flags == ExpandAll(FlagTokens(args))
    ensures |PathTokens(args)| + |FlagTokens(args)| == |args|
    decreases |args|
  {
    if |args| > 0 {
      ClassifyMeaning(args[0], custom);
      ParseSplitsTokens(args[1..], custom);
      if !IsPathToken(args[0]) {
        assert FlagTokens(args) == [args[0]] + FlagTokens(args[1..]);
        assert ([args[0]] + FlagTokens(args[1..]))[1..] == FlagTokens(args[1..]);
      } else {
        assert FlagTokens(args) == [] + FlagTokens(args[1..]) == FlagTokens(args[1..]);
      }
    }
  }

  /** On failure the message is that of the first token not accepted. */
  lemma {:induction false} ParseFailsAtFirstRejected(args: seq<string>, custom: seq<string>)
    requires Parse(args, custom).Failure?
    ensures exists i :: 0 <= i < |args| && !Accepted(args[i], custom)
              && (forall j :: 0 <= j < i ==> Accepted(args[j], custom))
              && Parse(args, custom).error == Rejection(args[i], custom)
    decreases |args|
  {
    ClassifyMeaning(args[0], custom);
    if Classify(args[0], custom).Success? {
      ParseFailsAtFirstRejected(args[1..], custom);
      var i :| 0 <= i < |args[1..]| && !Accepted(args[1..][i], custom)
              && (forall j :: 0 <= j < i ==> Accepted(args[1..][j], custom))
              && Parse(args[1..], custom).error == Rejection(args[1..][i], custom);
      assert forall j :: 1 <= j < i + 1 ==> args[j] == args[1..][j - 1];
      assert args[i + 1] == args[1..][i];
    } else {
      assert !Accepted(args[0], custom);
    }
  }

  lemma {:induction false} ExpandAllAccepted(tokens: seq<string>, custom: seq<string>)
    requires forall i :: 0 <= i < |tokens| ==> Accepted(tokens[i], custom) && !IsPathToken(tokens[i])
    ensures forall f :: f in ExpandAll(tokens) ==> f in custom
    decreases |tokens|
  {
    if |tokens| > 0 {
      ExpandAllAccepted(tokens[1..], custom);
    }
  }

  lemma {:induction false} FlagTokensAreFlags(args: seq<string>)
    ensures forall i :: 0 <= i < |FlagTokens(args)| ==>
              !IsPathToken(FlagTokens(args)[i]) && FlagTokens(args)[i] in args
    decreases |args|
  {
    if |args| > 0 {
      FlagTokensAreFlags(args[1..]);
    }
  }

  /** Every flag in a parsed `ArgSet` is one of the accepted flags. */
  lemma ParsedFlagsAreAccepted(args: seq<string>, custom: seq<string>)
    requires Parse(args, custom).Success?
    ensures forall f :: f in Parse(args, custom).value.flags ==> f in custom
  {
    ParseSucceedsIff(args, custom);
    ParseSplitsTokens(args, custom);
    FlagTokensAreFlags(args);
    ExpandAllAccepted(FlagTokens(args), custom);
  }

  // ---------------------------------------------------------------------
  // Which flags a parse yields, token by token

  lemma {:induction false} ShortsMembers(letters: string, c: char)
    ensures Short(c) in Shorts(letters) <==> c in letters
    ensures forall f :: f in Shorts(letters) ==> |f| == 2
    decreases |letters|
  {
    if |letters| > 0 {
      ShortsMembers(letters[1..], c);
      assert Shorts(letters) == [Short(letters[0])] + Shorts(letters[1..]);
      assert Short(c) == Short(letters[0]) ==> c == letters[0] by {
        assert Short(c)[1] == c && Short(letters[0])[1] == letters[0];
      }
      assert letters == [letters[0]] + letters[1..];
    }
  }

  lemma {:induction false} FlagTokensMembers(args: seq<string>, t: string)
    ensures t in FlagTokens(args) <==> t in args && !IsPathToken(t)
    decreases |args|
  {
    if |args| > 0 {
      FlagTokensMembers(args[1..], t);
      assert args == [args[0]] + args[1..];
    }
  }

  lemma {:induction false} ExpandAllMembers(tokens: seq<string>, f: string)
    ensures f in ExpandAll(tokens) <==> exists t :: t in tokens && f in Pieces(t)
    decreases |tokens|
  {
    if |tokens| > 0 {
      ExpandAllMembers(tokens[1..], f);
      assert tokens == [tokens[0]] + tokens[1..];
    }
  }

  /** After a successful parse, `name` is among the flags exactly when some
      non-path argument stands for it. */
  lemma HasIff(args: seq<string>, custom: seq<string>, name: string)
    requires Parse(args, custom).Success?
    ensures Has(Parse(args, custom).value, name)
        <==> exists t :: t in args && !IsPathToken(t) && name in Pieces(t)
  {
    ParseSplitsTokens(args, custom);
    ExpandAllMembers(FlagTokens(args), name);
    forall t
      ensures t in FlagTokens(args) <==> t in args && !IsPathToken(t)
    {
      FlagTokensMembers(args, t);
    }
  }
}
