/** The streaming counter, `count_reader` (src/counter.rs:32-76): one pass
    over the chunks a reader delivers, counting bytes, line feeds and words,
    with the "inside a word" flag carried across chunk boundaries, and
    optionally decoding each chunk on its own as UTF-8 to count characters. */
module Counter {
  import opened Types
  import opened Results
  import Utf8

  const LineFeed: Byte := 0x0A

  /** Rust's `u8::is_ascii_whitespace`: space, tab, line feed, form feed and
      carriage return. These are the bytes C's `isspace` accepts in the C
      locale, except vertical tab (0x0B). */
  predicate IsAsciiWhitespace(b: Byte): (r: bool)
    ensures r <==> (0x09 <= b <= 0x0D || b == 0x20) && b != 0x0B
  {
    b == 0x20 || b == 0x09 || b == 0x0A || b == 0x0C || b == 0x0D
  }

  /** The byte-scanning part of the loop state: lines, words and `in_word`. */
  datatype Scan = Scan(lines: nat, words: nat, inWord: bool)

  const Fresh: Scan := Scan(0, 0, false)

  /** The loop state carried from one read to the next. */
  datatype Acc = Acc(bytes: nat, chars: nat, scan: Scan)

  const Initial: Acc := Acc(0, 0, Fresh)

  function ToCounts(acc: Acc): Counts
  {
    Counts(acc.scan.lines, acc.scan.words, acc.bytes, acc.chars)
  }

  /** One iteration of the inner `while i < n` loop. */
  function StepByte(st: Scan, b: Byte): Scan
  {
    var lines := if b == LineFeed then st.lines + 1 else st.lines;
    if IsAsciiWhitespace(b) then Scan(lines, st.words, false)
    else if !st.inWord then Scan(lines, st.words + 1, true)
    else Scan(lines, st.words, true)
  }

  /** The inner loop over one buffer of bytes. */
  function ScanBytes(st: Scan, s: seq<Byte>): Scan
    decreases |s|
  {
    if |s| == 0 then st else ScanBytes(StepByte(st, s[0]), s[1..])
  }

  /** What `flags.chars` adds for one chunk, decoded on its own. */
  function ChunkChars(chunk: seq<Byte>, flags: Flags): nat
  {
    if flags.chars then Utf8.DecodedCount(chunk) else 0
  }

  /** One iteration of the outer loop, for a read that returned `chunk`. */
  function AbsorbChunk(acc: Acc, chunk: seq<Byte>, flags: Flags): Acc
  {
    Acc(acc.bytes + |chunk|, acc.chars + ChunkChars(chunk, flags), ScanBytes(acc.scan, chunk))
  }

  /** The outer loop over a sequence of chunks. */
  function FoldChunks(acc: Acc, chunks: seq<seq<Byte>>, flags: Flags): Acc
    decreases |chunks|
  {
    if |chunks| == 0 then acc else FoldChunks(AbsorbChunk(acc, chunks[0], flags), chunks[1..], flags)
  }

  // ---------------------------------------------------------------------
  // Reference definitions over the concatenated stream

  /** The bytes of all chunks, in order. */
  function Concat(chunks: seq<seq<Byte>>): seq<Byte>
  {
    if |chunks| == 0 then [] else chunks[0] + Concat(chunks[1..])
  }

  /** The number of 0x0A bytes in `s`. */
  function NewlineCount(s: seq<Byte>): (n: nat)
    ensures n <= |s|
  {
    if |s| == 0 then 0
    else NewlineCount(s[..|s| - 1]) + (if s[|s| - 1] == LineFeed then 1 else 0)
  }

  /** Position `i` begins a maximal run of non-whitespace bytes. */
  predicate StartsWord(s: seq<Byte>, i: nat)
    requires i < |s|
  {
    !IsAsciiWhitespace(s[i]) && (i == 0 || IsAsciiWhitespace(s[i - 1]))
  }

  /** The number of maximal runs of non-whitespace bytes in `s`. */
  function WordCount(s: seq<Byte>): (n: nat)
    ensures n <= |s|
  {
    if |s| == 0 then 0
    else WordCount(s[..|s| - 1]) + (if StartsWord(s, |s| - 1) then 1 else 0)
  }

  /** `s` ends inside a word. */
  predicate EndsInWord(s: seq<Byte>)
  {
    |s| > 0 && !IsAsciiWhitespace(s[|s| - 1])
  }

  /** The characters counted when every chunk is decoded on its own. */
  function CharsPerChunk(chunks: seq<seq<Byte>>): (n: nat)
    ensures n <= |Concat(chunks)|
  {
    if |chunks| == 0 then 0 else Utf8.DecodedCount(chunks[0]) + CharsPerChunk(chunks[1..])
  }

  // ---------------------------------------------------------------------
  // The scan is a fold over the concatenated stream

  lemma {:induction false} ScanBytesAppend(st: Scan, a: seq<Byte>, b: seq<Byte>)
    ensures ScanBytes(st, a + b) == ScanBytes(ScanBytes(st, a), b)
    decreases |a|
  {
    if |a| == 0 {
      assert a + b == b;
    } else {
      assert (a + b)[0] == a[0];
      assert (a + b)[1..] == a[1..] + b;
      ScanBytesAppend(StepByte(st, a[0]), a[1..], b);
    }
  }

  /** Scanning from the fresh state yields exactly the reference counts. */
  lemma {:induction false} ScanBytesMeaning(s: seq<Byte>)
    ensures ScanBytes(Fresh, s) == Scan(NewlineCount(s), WordCount(s), EndsInWord(s))
    decreases |s|
  {
    if |s| > 0 {
      var init, last := s[..|s| - 1], s[|s| - 1];
      assert s == init + [last];
      ScanBytesAppend(Fresh, init, [last]);
      ScanBytesMeaning(init);
      assert ScanBytes(Fresh, s) == StepByte(ScanBytes(Fresh, init), last);
      if |init| > 0 {
        assert init[|init| - 1] == s[|s| - 2];
      }
    }
  }

  lemma {:induction false} FoldChunksMeaning(acc: Acc, chunks: seq<seq<Byte>>, flags: Flags)
    ensures FoldChunks(acc, chunks, flags).bytes == acc.bytes + |Concat(chunks)|
    ensures FoldChunks(acc, chunks, flags).chars
         == acc.chars + (if flags.chars then CharsPerChunk(chunks) else 0)
    ensures FoldChunks(acc, chunks, flags).scan == ScanBytes(acc.scan, Concat(chunks))
    decreases |chunks|
  {
    if |chunks| > 0 {
      FoldChunksMeaning(AbsorbChunk(acc, chunks[0], flags), chunks[1..], flags);
      ScanBytesAppend(acc.scan, chunks[0], Concat(chunks[1..]));
    }
  }

  /** The counts of a stream delivered as `chunks`, in terms of the
      concatenated bytes: bytes, lines and words depend only on the bytes,
      chars on how the bytes were chunked. */
  function CountChunks(chunks: seq<seq<Byte>>, flags: Flags): (c: Counts)
    ensures c.bytes == |Concat(chunks)|
    ensures c.lines == NewlineCount(Concat(chunks))
    ensures c.words == WordCount(Concat(chunks))
    ensures c.chars == if flags.chars then CharsPerChunk(chunks) else 0
    ensures c.words <= c.bytes && c.lines <= c.bytes && c.chars <= c.bytes
  {
    FoldChunksMeaning(Initial, chunks, flags);
    ScanBytesMeaning(Concat(chunks));
    ToCounts(FoldChunks(Initial, chunks, flags))
  }

  // ---------------------------------------------------------------------
  // The reader

  /** What one `reader.read(&mut buf)` returns: some bytes (none at end of
      stream) or an I/O error, kept as its text. */
  datatype ReadResult = Data(bytes: seq<Byte>) | Failed(msg: string)

  /** The outer `loop`: stop at the first empty read (or when the script of
      stream runs out), propagate the first error with `?`. */
  function ReadLoop(acc: Acc, stream: seq<ReadResult>, flags: Flags): Result<Acc>
    decreases |stream|
  {
    if |stream| == 0 then Success(acc)
    else match stream[0]
      case Failed(m) => Failure(m)
      case Data(chunk) =>
        if |chunk| == 0 then Success(acc)
        else ReadLoop(AbsorbChunk(acc, chunk, flags), stream[1..], flags)
  }

  /** The chunks a reader delivers before end of stream or an error. */
  function Delivered(stream: seq<ReadResult>): seq<seq<Byte>>
  {
    if |stream| == 0 then []
    else match stream[0]
      case Failed(_) => []
      case Data(chunk) => if |chunk| == 0 then [] else [chunk] + Delivered(stream[1..])
  }

  /** The error that ends the stream, if one comes before end of stream. */
  function FirstFailure(stream: seq<ReadResult>): Option<string>
  {
    if |stream| == 0 then None
    else match stream[0]
      case Failed(m) => Some(m)
      case Data(chunk) => if |chunk| == 0 then None else FirstFailure(stream[1..])
  }

  lemma {:induction false} ReadLoopMeaning(acc: Acc, stream: seq<ReadResult>, flags: Flags)
    ensures FirstFailure(stream).Some? ==> ReadLoop(acc, stream, flags) == Failure(FirstFailure(stream).value)
    ensures FirstFailure(stream).None? ==> ReadLoop(acc, stream, flags) == Success(FoldChunks(acc, Delivered(stream), flags))
    decreases |stream|
  {
    if |stream| > 0 && stream[0].Data? && |stream[0].bytes| > 0 {
      var chunk := stream[0].bytes;
      ReadLoopMeaning(AbsorbChunk(acc, chunk, flags), stream[1..], flags);
      assert ([chunk] + Delivered(stream[1..]))[1..] == Delivered(stream[1..]);
    }
  }

  /** `count_reader`: an I/O error before end of stream fails the whole call
      and no partial counts survive; otherwise the counts are those of the
      chunks delivered before end of stream. */
  function CountReader(stream: seq<ReadResult>, flags: Flags): (r: Result<Counts>)
    ensures FirstFailure(stream).Some? ==> r == Failure(FirstFailure(stream).value)
    ensures FirstFailure(stream).None? ==> r == Success(CountChunks(Delivered(stream), flags))
  {
    ReadLoopMeaning(Initial, stream, flags);
    match ReadLoop(Initial, stream, flags)
    case Success(acc) => Success(ToCounts(acc))
    case Failure(m) => Failure(m)
  }

  /** The loop of `count_reader` as written: an outer loop over reads and an
      inner loop over the bytes of each chunk. */
  method CountReaderLoop(stream: seq<ReadResult>, flags: Flags) returns (r: Result<Counts>)
    ensures FirstFailure(stream).Some? ==> r == Failure(FirstFailure(stream).value)
    ensures FirstFailure(stream).None? ==> r.Success?
    ensures r.Success? ==> r.value.bytes == |Concat(Delivered(stream))|
    ensures r.Success? ==> r.value.lines == NewlineCount(Concat(Delivered(stream)))
    ensures r.Success? ==> r.value.words == WordCount(Concat(Delivered(stream)))
    ensures r.Success? ==> r.value.chars == if flags.chars then CharsPerChunk(Delivered(stream)) else 0
  {
    ReadLoopMeaning(Initial, stream, flags);
    var lines: nat, words: nat, bytes: nat, chars: nat := 0, 0, 0, 0;
    var inWord := false;
    var k := 0;
    while k < |stream|
      invariant k <= |stream|
      invariant ReadLoop(Acc(bytes, chars, Scan(lines, words, inWord)), stream[k..], flags)
             == ReadLoop(Initial, stream, flags)
    {
      match stream[k]
      case Failed(m) =>
        return Failure(m);
      case Data(chunk) =>
        if |chunk| == 0 {
          break;
        }
        ghost var before := Scan(lines, words, inWord);
        bytes := bytes + |chunk|;
        var i := 0;
        while i < |chunk|
          invariant i <= |chunk|
          invariant Scan(lines, words, inWord) == ScanBytes(before, chunk[..i])
        {
          var b := chunk[i];
          if b == LineFeed {
            lines := lines + 1;
          }
          if IsAsciiWhitespace(b) {
            inWord := false;
          } else if !inWord {
            words := words + 1;
            inWord := true;
          }
          ScanBytesAppend(before, chunk[..i], [b]);
          assert chunk[..i + 1] == chunk[..i] + [b];
          i := i + 1;
        }
        assert chunk[..i] == chunk;
        if flags.chars {
          chars := chars + Utf8.DecodedCount(chunk);
        }
        assert stream[k..][1..] == stream[k + 1..];
        k := k + 1;
    }
    assert ReadLoop(Acc(bytes, chars, Scan(lines, words, inWord)), stream[k..], flags)
        == Success(Acc(bytes, chars, Scan(lines, words, inWord)));
    r := Success(Counts(lines, words, bytes, chars));
    assert r == CountReader(stream, flags);
  }

  // ---------------------------------------------------------------------
  // Properties of the counter

  /** Bytes, lines and words do not depend on how the reader chunks the
      stream, nor on the option set. */
  lemma ChunkingInvariant(c1: seq<seq<Byte>>, c2: seq<seq<Byte>>, f1: Flags, f2: Flags)
    requires Concat(c1) == Concat(c2)
    ensures CountChunks(c1, f1).bytes == CountChunks(c2, f2).bytes
    ensures CountChunks(c1, f1).lines == CountChunks(c2, f2).lines
    ensures CountChunks(c1, f1).words == CountChunks(c2, f2).words
  {
  }

  /** A word split across two reads is counted once: "abc" then "def ". */
  lemma SplitWordCountedOnce(flags: Flags)
    ensures CountChunks([[0x61, 0x62, 0x63], [0x64, 0x65, 0x66, 0x20]], flags).words == 1
    ensures CountChunks([[0x61, 0x62, 0x63], [0x64, 0x65, 0x66, 0x20]], flags).bytes == 7
  {
    var a: seq<Byte>, b: seq<Byte> := [0x61, 0x62, 0x63], [0x64, 0x65, 0x66, 0x20];
    var chunks: seq<seq<Byte>> := [a, b];
    assert chunks[1..] == [b] && [b][1..] == [];
    assert Concat([b]) == b + Concat([]) == b;
    assert Concat(chunks) == a + Concat([b]);
    ScanBytesMeaning(a + b);
    ScanBytesAppend(Fresh, a, b);
    assert a[1..] == [0x62, 0x63] && a[1..][1..] == [0x63];
    assert ScanBytes(Fresh, a) == Scan(0, 1, true);
    assert b[1..] == [0x65, 0x66, 0x20] && b[1..][1..] == [0x66, 0x20] && b[1..][1..][1..] == [0x20];
    assert ScanBytes(Scan(0, 1, true), b) == Scan(0, 1, false);
  }

  /** A vertical tab is not whitespace, so it does not separate words. */
  lemma VerticalTabJoinsWords()
    ensures WordCount([0x61, 0x0B, 0x62]) == 1
    ensures WordCount([0x61, 0x0C, 0x62]) == 2
  {
    var s: seq<Byte> := [0x61, 0x0B, 0x62];
    assert s[..2] == [0x61, 0x0B] && s[..2][..1] == [0x61];
    var t: seq<Byte> := [0x61, 0x0C, 0x62];
    assert t[..2] == [0x61, 0x0C] && t[..2][..1] == [0x61];
  }

  /** An empty stream, or one that ends at its first read, counts nothing. */
  lemma EmptyStreamCountsNothing(flags: Flags)
    ensures CountReader([], flags) == Success(NoCounts)
    ensures CountReader([Data([])], flags) == Success(NoCounts)
  {
  }

  /** When every chunk is well-formed on its own, the whole stream is
      well-formed and the per-chunk decoding counts exactly the characters
      that decoding the whole stream at once would give. */
  lemma {:induction false} CharsExactWhenChunksWellFormed(chunks: seq<seq<Byte>>)
    requires forall i :: 0 <= i < |chunks| ==> Utf8.WellFormed(chunks[i])
    ensures Utf8.WellFormed(Concat(chunks))
    ensures CharsPerChunk(chunks) == Utf8.NonTailCount(Concat(chunks))
    ensures CharsPerChunk(chunks) == Utf8.DecodedCount(Concat(chunks))
    decreases |chunks|
  {
    if |chunks| > 0 {
      CharsExactWhenChunksWellFormed(chunks[1..]);
      Utf8.NonTailAppend(chunks[0], Concat(chunks[1..]));
      Utf8.WellFormedAppend(chunks[0], Concat(chunks[1..]));
    }
  }

  /** A two-byte character split across two reads is not counted at all:
      each half is ill-formed on its own, so each chunk adds 0. */
  lemma SplitCharacterUndercounts(flags: Flags)
    requires flags.chars
    ensures Utf8.WellFormed([0xC3, 0xA9])
    ensures CountChunks([[0xC3, 0xA9]], flags).chars == 1
    ensures CountChunks([[0xC3], [0xA9]], flags).chars == 0
  {
    var whole: seq<Byte> := [0xC3, 0xA9];
    assert whole[2..] == [];
    assert Utf8.WellFormed(whole);
    var tail: seq<Byte> := [0xA9];
    assert Utf8.LeadLength(tail) == 0;
    assert !Utf8.WellFormed([0xC3]);
  }
}
