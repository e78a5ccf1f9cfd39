# rswc in Dafny

`rswc` is a small `wc` clone. This project models its three pure pieces and
proves what they compute:

- **The streaming counter** (`count_reader`). One pass over the chunks a
  reader delivers. It keeps a byte count, a line count (`0x0A` bytes), and a
  word count driven by an `in_word` flag that carries across chunk
  boundaries. An optional character count decodes each chunk *on its own* as
  UTF-8, and a chunk that is not well-formed adds 0.
- **Aggregation and rendering** (`process_files`, `print_files_results`,
  `print_stdin_results`, the `print_field!` macro):
  - one outcome per path, in order;
  - a per-field maximum over the successful files, and a total;
  - column widths of `max(digits, 7)`;
  - right-justified cells followed by one space, in the order lines, words,
    bytes, chars;
  - error rows;
  - a `total` row when there is more than one result.
- **Argument parsing and flag resolution** (`ArgSet::try_from`,
  `ArgSet::has`, and the flag derivation, defaulting and dispatch in `main`).
  A lone `-` and anything not starting with `-` is a path. `-x` and `--x` must
  match an accepted flag exactly. `-abc` clusters are split into one flag per
  letter. The first bad token aborts parsing with an exact message.

## Layout

| file | module | contents |
|---|---|---|
| results.dfy | `Results` | `Result` and `Option` |
| types.dfy | `Types` | `Counts`, `Flags`, `FileResult`, the `Field` selector, `MaxWidth` (7) |
| utf8.dfy | `Utf8` | well-formedness per section 4 of RFC 3629; the scalar count of a chunk |
| counter.dfy | `Counter` | the chunk fold, the reader loop as a function and as a method with loops, reference definitions (newlines, words as maximal runs) |
| process.dfy | `Process` | `count_file` and `process_files` over an abstract `open` function |
| decimal.dfy | `Decimal` | decimal rendering of a `nat`, its digit length, and reading it back |
| totals.dfy | `Totals` | the maxima and total loop, and the column widths |
| render.dfy | `Render` | cells, rows, the files output and the stdin output, and a reader that recovers the numbers from a row |
| args.dfy | `Args` | `ArgSet`, `has`, and the token classifier |
| cli.dfy | `Cli` | the tool's flag list, flag derivation, defaulting, help check, stdin/files dispatch, and the whole run |
| examples_render.dfy, examples_args.dfy | `RenderExamples`, `ArgsExamples` | the repository's rendering and argument-parsing unit tests, restated as lemmas, plus a few cases they do not cover |

### How the model reads the source

- **Readers.** A reader is a script of read outcomes, `seq<ReadResult>`:
  - `Data(bytes)` is a successful read;
  - an empty `Data` is the source's `n == 0` end of stream, and so is the end
    of the script;
  - `Failed(msg)` is an I/O error. It aborts the whole count, with no partial
    result, as the `?` does.
- **Opening files.** Opening a path is a parameter `open: string -> Opened`.
  It yields a reader script or an opening error.
- **Characters.** Dafny `char`s are Unicode scalar values, so Rust's `str::len`
  (a byte length) is modelled by `Args.Utf8Len`. As a result `-é` (three
  bytes) is read as a cluster and rejected as `rswc: invalid option -é`, not as
  an unrecognised option (`ArgsExamples.MultiByteLetterIsCluster`).
- **The `-h` help test is dead.** `main` tests `has("-h")` for help, but `-h`
  is not among the flags it accepts, so parsing rejects `-h` before that test.
  Only `--help` shows help (`Cli.ShortHelpUnreachable`, `Cli.HelpIff`).
- **The total row can overflow its column.** Column widths come from the
  per-file maxima, not from the total. So the total row can be wider than its
  column, and then it is not aligned (`Render.TotalCanOverflowItsColumn`).
  This is modelled as written.
- **Split characters are undercounted.** A multi-byte character split across
  two chunks makes both chunks ill-formed, so neither adds to `chars`
  (`Counter.SplitCharacterUndercounts`). When every chunk is well-formed on
  its own, the whole stream is well-formed and `chars` equals its scalar
  count (`Counter.CharsExactWhenChunksWellFormed`).
- **Vertical tab joins words.** `u8::is_ascii_whitespace` does not include
  `0x0B`, unlike C's `isspace`, so `a<VT>b` is one word
  (`Counter.VerticalTabJoinsWords`).
- **Reading rows back.** To state what a row shows, the model pairs the
  renderer with a strict reader, `Render.ReadColumns`. It accepts a cell only
  as blanks, a numeral without leading zeros, and one space, `width + 1`
  characters in all. The round trip is proved in both directions: a row reads
  back as its counts, and whatever reads as a row is exactly the row of the
  counts read.

## Model

| member | source | states |
|---|---|---|
| `Utf8.DecodedCount` | src/counter.rs:67-72 | a chunk adds its scalar count (its non-continuation bytes) when it is well-formed UTF-8, and 0 otherwise; never more than its length |
| `Utf8.WellFormedAppend` | src/counter.rs:67-72 | two well-formed byte strings concatenate to a well-formed one, so chunks that decode on their own decode together |
| `Utf8.ScalarCountIsNonTailCount` | src/counter.rs:68-71 | decoding a well-formed chunk yields one character per non-continuation byte |
| `Counter.IsAsciiWhitespace` | src/counter.rs:57 | a separator is one of the bytes C's `isspace` accepts, 0x09 to 0x0D and 0x20, except vertical tab 0x0B |
| `Counter.ScanBytesMeaning` | src/counter.rs:50-65 | `ScanBytes`, the inner loop, started from a fresh state counts exactly the `0x0A` bytes and the maximal runs of non-whitespace bytes, and ends inside a word exactly when the last byte is not whitespace |
| `Counter.ScanBytesAppend` | src/counter.rs:40-62 | scanning `a + b` is scanning `b` from the state left by `a`, because `in_word` carries over |
| `Counter.FoldChunksMeaning` | src/counter.rs:42-73 | `FoldChunks`, the outer loop over read chunks, adds the total length to bytes, adds the per-chunk character counts, and scans the concatenation |
| `Counter.CountChunks` | src/counter.rs:32-76 | bytes is the concatenated length; lines and words are the newlines and the maximal non-whitespace runs of the concatenation; chars is the per-chunk sum when enabled and 0 otherwise; words, lines and chars never exceed bytes |
| `Counter.ReadLoopMeaning` | src/counter.rs:42-47 | `ReadLoop`, the read loop, fails with the first error before end of stream, and otherwise folds exactly the chunks delivered before it |
| `Counter.CountReader` | src/counter.rs:32-76 | a stream with an error before its end gives that error; otherwise the counts of the delivered chunks |
| `Counter.CountReaderLoop` | src/counter.rs:32-76 | the two nested loops compute the same result as the chunk fold: the error, or the byte, line, word and char counts of the delivered chunks |
| `Counter.ChunkingInvariant` | src/counter.rs:40-62 | any two chunkings of the same bytes give the same bytes, lines and words, whatever the flags |
| `Counter.SplitWordCountedOnce` | src/counter.rs:57-62 | chunks `abc` and `def ` make one word, not two |
| `Counter.VerticalTabJoinsWords` | src/counter.rs:57 | `0x0B` is not a word separator while `0x0C` is |
| `Counter.EmptyStreamCountsNothing` | src/counter.rs:34-46 | a stream that ends at once yields all four counts 0 |
| `Counter.CharsExactWhenChunksWellFormed` | src/counter.rs:67-72 | when every chunk is well-formed, the whole stream is well-formed UTF-8 and chars equals its decoded scalar count (its number of non-continuation bytes) |
| `Counter.SplitCharacterUndercounts` | src/counter.rs:67-72 | `é` in one chunk counts 1; split over two chunks it counts 0 |
| `Process.CountFile` | src/counter.rs:78-82 | a path counts exactly when it opens and its reader ends without an error, and then gives the counts of the chunks read; otherwise the open error, or else the read error |
| `Process.ProcessFiles` | src/counter.rs:96-104 | one result per path, in order, carrying its path; `Ok` with the counts exactly when counting succeeded, otherwise `Err` with the error text |
| `Process.ProcessFilesSplits` | src/counter.rs:96-104 | processing `a + b` is processing `a` then `b`: the map is order-preserving and element-wise |
| `Process.FailureIsIsolated` | src/counter.rs:99-102 | a file's result depends only on that file, so another file's failure does not change it |
| `Decimal.NatToString` | src/counter.rs:145-148 | `to_string` gives at least one digit, all digits, and no leading zero except for 0 itself |
| `Decimal.ParseNatToString` | src/counter.rs:145-148 | reading the decimal text back gives the number |
| `Decimal.NumeralRoundTrip` | src/counter.rs:145-148 | every numeral without a leading zero is the `to_string` of its value, so rendering is onto the numerals |
| `Decimal.DigitLenBound` | src/counter.rs:145-148 | a number has at most `k` digits exactly when it is below `10^k` |
| `Totals.MaxOkIsMaximum` | src/counter.rs:123-136 | `MaxOk`, a field's maximum over the results, bounds that field of every `Ok` result, is reached by one of them (or is 0), and is 0 when the field is disabled |
| `Totals.SumOkAppend` | src/counter.rs:123-143 | `SumOk`, the total over the `Ok` results, sums field-wise: the total over `a + b` is the sum of the two totals |
| `Totals.OkBelowTotal` | src/counter.rs:138-141 | every `Ok` result's field is at most the total's |
| `Totals.ErrorsAddNothing` | src/counter.rs:123-143 | the total over all results equals the total over the `Ok` results alone |
| `Totals.ColumnWidth` | src/counter.rs:145-148 | a width is at least 7 and at least the digit length, and is one of the two |
| `Totals.ColumnWidthOfMax` | src/counter.rs:123-148 | a column's width fits that field of every `Ok` result, and is 7 or the digit length of one of them |
| `Totals.FileWidths` | src/counter.rs:145-148 | every column is at least 7 wide, every enabled field of every `Ok` result fits its column, and a column wider than 7 is exactly as wide as one of those fields needs |
| `Totals.Aggregate` | src/counter.rs:111-143 | the loop over the results leaves each maximum equal to the reference maximum and the total equal to the reference sum |
| `Render.PadLeft` | src/counter.rs:9 | right-justifying gives `max(length, width)` characters, spaces then the text |
| `Render.Cell` | src/counter.rs:6-12 | a disabled field prints nothing; an enabled one prints `max(digits, width) + 1` characters, the last a space |
| `Render.CellRoundTrip` | src/counter.rs:6-12 | a cell whose value fits is its width plus one, and the strict reader reads it as blanks, the value's numeral and one space, giving the value and the rest; a disabled cell is empty |
| `Render.TakeCellReadsOnlyCells` | src/counter.rs:6-12 | the converse: any text the strict reader accepts as a cell is exactly the cell of the value read followed by the rest, and that value fits the width |
| `Render.ColumnsRoundTrip` | src/counter.rs:156-159 | `Columns`, the cells of a row, have the summed width, and reading them back gives the enabled fields, in the order lines, words, bytes, chars |
| `Render.ReadColumnsReadsOnlyColumns` | src/counter.rs:156-159 | the converse: text that reads as columns is exactly the columns of the counts read, followed by the rest |
| `Render.ReadCountsFit` | src/counter.rs:156-159 | counts read from columns fit those columns |
| `Render.ReadCountsShown` | src/counter.rs:156-159 | counts read from columns are zero in the disabled fields |
| `Render.FilesLines` | src/counter.rs:150-171 | one line per result plus one total line exactly when there is more than one result |
| `Render.ErrorRow` | src/counter.rs:152-154 | an `Err` result renders as `rswc: <path>: <msg> ` followed by a newline |
| `Render.OkRow` | src/counter.rs:155-161 | `ResultLine` on an `Ok` result gives the cells, then the path and a newline, and reading it back gives the enabled counts and the path |
| `Render.TotalRow` | src/counter.rs:165-171 | a total row is present exactly when there is more than one result; it is the total of the `Ok` results under the same widths, labelled `total` |
| `Render.TotalCanOverflowItsColumn` | src/counter.rs:145-171 | two files whose line count `v` has 7 digits while `2v` has 8 (9999999, say) get a 7-wide column but an 8-digit total, one character wider than the other rows |
| `Render.StdinOutput` | src/counter.rs:176-208 | the stdin output has the row width of its own column widths plus two, and ends in `-` and a newline |
| `Render.StdinRow` | src/counter.rs:176-208 | each stdin cell is the width of its own value (at least 7), and reading the output back gives the enabled counts followed by `-` and a newline |
| `Render.StdinIsSingleFileRow` | src/counter.rs:176-208 | the stdin output equals the files output for a single result named `-`, so it never has a total row |
| `RenderExamples.TwoFilesAggregates` | src/counter.rs:224-243 | the two large-number files give widths 10, 11 and 12 and the expected totals |
| `RenderExamples.LargeNumbersTwoFiles` | src/counter.rs:216-256 | the two large-number files render as the three expected lines |
| `RenderExamples.LargeNumbersTwoFilesOutput` | src/counter.rs:244-255 | the whole output for the two large-number files is the test's single expected string |
| `RenderExamples.LargeNumbersStdin` | src/counter.rs:259-283 | the large-number stdin counts render as the expected line |
| `RenderExamples.SmallCountsPadded` | src/counter.rs:181-205 | small counts are right-justified to 7 columns |
| `Args.Has` | src/args.rs:10-12 | true exactly when some flag equals the name |
| `Args.ExpandCluster` | src/args.rs:30-38 | on success, one flag per letter, each `-` and the letter and each accepted; on failure, the message names a letter whose flag is not accepted |
| `Args.ExpandClusterMeaning` | src/args.rs:30-38 | a cluster expands to one short flag per letter when every one is accepted, and otherwise fails naming the first letter that is not |
| `Args.Classify` | src/args.rs:27-46 | a path token is always a path; only a path token becomes a path; a flag token yields at least one flag, all accepted |
| `Args.ClassifyMeaning` | src/args.rs:27-46 | a token is accepted exactly when it is a path or all its flags are accepted; a path stays a path, a flag token yields its flags, a rejected token gets its message |
| `Args.Parse` | src/args.rs:22-50 | on success every flag is accepted, every path is a path argument, and no argument is lost: there are at most as many paths as arguments and at least as many flags and paths together |
| `Args.ParseSucceedsIff` | src/args.rs:26-49 | parsing succeeds exactly when every token is accepted |
| `Args.ParseSplitsTokens` | src/args.rs:26-49 | on success the paths are the path tokens in order, the flags are the other tokens' flags in order with clusters expanded in place, and every token goes to exactly one side |
| `Args.ParseFailsAtFirstRejected` | src/args.rs:26-49 | on failure the message is that of the first token not accepted |
| `Args.ParsedFlagsAreAccepted` | src/args.rs:33-40 | every parsed flag is one of the accepted flags |
| `Args.HasIff` | src/args.rs:10-49 | after a successful parse, `has(name)` holds exactly when some non-path argument stands for `name` |
| `ArgsExamples.SingleFlagAndFile` | src/args.rs:61-67 | `-l file.txt` gives flag `-l` and path `file.txt` |
| `ArgsExamples.ClusterSplit` | src/args.rs:69-75 | `-lc` gives `-l`, `-c` |
| `ArgsExamples.ClusterWithUnknownLetter` | src/args.rs:77-82 | `-lz` fails with `rswc: invalid option -z` |
| `ArgsExamples.UnknownShortFlag` | src/args.rs:84-89 | `-z` fails with `rswc: unrecognized option -z` |
| `ArgsExamples.SeveralFiles` | src/args.rs:91-100 | paths are kept in order |
| `ArgsExamples.LongFlags` | src/args.rs:102-121 | long flags are kept in order of appearance |
| `ArgsExamples.LongFlagPrefixRejected` | src/args.rs:123-128 | `--byte` fails with `rswc: unrecognized option --byte` |
| `ArgsExamples.DashIsPath` | src/args.rs:29 | a lone `-` is a path |
| `ArgsExamples.MultiByteLetterIsCluster` | src/args.rs:30-36 | `-é` is a cluster because its byte length is 3 |
| `Cli.ExplicitFlagsMeaning` | src/main.rs:36-39 | `ExplicitFlags`: after parsing, each counter is on exactly when some argument is its long flag, its short flag, or a cluster holding its letter |
| `Cli.WithDefaults` | src/main.rs:46-50 | afterwards some counter is on; an explicit choice is left unchanged; with none, lines, words and bytes are on; chars is never switched on |
| `Cli.Plan` | src/main.rs:29-60 | a usage error exactly when parsing fails, with its message; when counting, some counter is on, stdin is counted only with no paths, and files are the parsed paths, at least one |
| `Cli.ShortHelpUnreachable` | src/main.rs:41 | a parsed argument set never holds `-h` |
| `Cli.HelpIff` | src/main.rs:41-44 | help is chosen exactly when parsing succeeds and some argument is `--help` |
| `Cli.PlanDispatch` | src/main.rs:36-60 | without help, stdin is counted exactly when no path argument was given, otherwise the path arguments in order, with the defaulted flags |
| `Cli.Run` | src/main.rs:29-62 | the run exits with status 0 exactly when files are counted or stdin is counted without error; a parse error goes to standard error with status 1; a successful stdin count prints exactly the stdin row of its counts |
| `Cli.FilesAlwaysSucceed` | src/main.rs:52-62 | counting files exits 0 with nothing on standard error, even when files fail: their errors are rows of the output |
| `Cli.PathOnlyUsesDefaults` | src/main.rs:46-58 | a bare path counts lines, words and bytes of that file |
| `Cli.CharsOnlyFromStdin` | src/main.rs:36-56 | `-m` alone counts only characters, from standard input |
| `Cli.ShortHelpRejected` | src/main.rs:16-18 | `-h` is not an accepted flag, so it fails as an unrecognised option |

## Left out

- File opening, `BufReader`, the stdin lock and the 512 KiB buffer size. A reader is any script of read outcomes, so buffer size and chunk boundaries are arbitrary.
- Rayon's `par_iter`. Only its order-preserving `collect` is observable, so `process_files` is a sequential map.
- The text of OS error messages (`e.to_string()`). Error texts are opaque strings supplied by the reader or the `open` function.
- Write failures on the output. Rendering is pure string construction.
- `usize` overflow. Counts are unbounded `nat`s; on 64-bit targets the source's `usize` additions would only overflow past 2^64 - 1. On a 32-bit target, `counts.bytes += n` (src/counter.rs:48) overflows once a stream passes 4 GiB; that overflow is not modelled, and the large-number unit tests already assume 64 bits.
- `path.display()`. Paths are strings and are printed as they are.
- Cli.Run: the report that the Rust runtime prints when `main` returns an I/O error is modelled as `Error: ` followed by the opaque message; its exact `Debug` formatting is not modelled.
- Cli.Run: the help text is modelled as the six lines, each followed by a newline; `print_help` and `process::exit` themselves are I/O.
- The unit tests `test_count_file` (src/counter.rs:286-304) and `test_process_files_mixed_ok_and_err` (src/counter.rs:310-350). They read testdata/test.txt, whose contents are not part of this model; `Process.CountFile` and `Process.ProcessFiles` state what those tests check for any reader.
- The iterator over `std::env::args()` and the skipping of the program name. The model starts from the argument list after the program name.
