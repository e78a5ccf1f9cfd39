/** The counter's shared vocabulary (src/counter.rs): bytes, the four
    tallies, the option set and the per-file outcome. */
module Types {

  /** An octet as read from a stream (Rust's `u8`). */
  type Byte = b: int | 0 <= b < 256

  /** The four tallies of one stream. `usize` is modelled as `nat`. */
  datatype Counts = Counts(lines: nat, words: nat, bytes: nat, chars: nat)

  const NoCounts: Counts := Counts(0, 0, 0, 0)

  /** Which tallies are computed (chars) and printed (all four). */
  datatype Flags = Flags(lines: bool, words: bool, bytes: bool, chars: bool)

  /** The four columns, declared in the order they are printed. */
  datatype Field = Lines | Words | Bytes | Chars

  function Get(c: Counts, f: Field): nat
  {
    match f
    case Lines => c.lines
    case Words => c.words
    case Bytes => c.bytes
    case Chars => c.chars
  }

  predicate Enabled(flags: Flags, f: Field)
  {
    match f
    case Lines => flags.lines
    case Words => flags.words
    case Bytes => flags.bytes
    case Chars => flags.chars
  }

  /** Field-wise sum of two tallies. */
  function Plus(a: Counts, b: Counts): (r: Counts)
    ensures forall f :: Get(r, f) == Get(a, f) + Get(b, f)
  {
    Counts(a.lines + b.lines, a.words + b.words, a.bytes + b.bytes, a.chars + b.chars)
  }

  /** The outcome of counting one path: its tallies, or the error text. */
  datatype FileResult = Ok(path: string, counts: Counts) | Err(path: string, msg: string)

  /** The source's `MAX_WIDTH`: despite its name, the MINIMUM column width. */
  const MaxWidth: nat := 7

  /** The program name that prefixes every diagnostic. */
  const ToolName: string := "rswc"
}
