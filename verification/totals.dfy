/** The first loop of `print_files_results` (src/counter.rs:106-148): over
    the successful results only, the per-field maximum of every enabled
    field and the field-wise total, and the column widths derived from the
    maxima. */
module Totals {
  import opened Types
  import opened Decimal

  /** What result `r` contributes to the maximum of field `f`. */
  function MaxCandidate(r: FileResult, flags: Flags, f: Field): nat
  {
    if r.Ok? && Enabled(flags, f) then Get(r.counts, f) else 0
  }

  function Max(a: nat, b: nat): nat
  {
    if a >= b then a else b
  }

  /** The largest value of field `f` over the successful results, or 0 when
      the field is disabled or there is no successful result. */
  function MaxOk(results: seq<FileResult>, flags: Flags, f: Field): nat
    decreases |results|
  {
    if |results| == 0 then 0
    else Max(MaxOk(results[..|results| - 1], flags, f), MaxCandidate(results[|results| - 1], flags, f))
  }

  /** `MaxOk` bounds every successful result's enabled field, is reached by
      one of them (or is 0), and is 0 for a disabled field. */
  lemma {:induction false} MaxOkIsMaximum(results: seq<FileResult>, flags: Flags, f: Field)
    ensures forall i :: 0 <= i < |results| && results[i].Ok? && Enabled(flags, f) ==>
              Get(results[i].counts, f) <= MaxOk(results, flags, f)
    ensures MaxOk(results, flags, f) == 0
         || exists i :: 0 <= i < |results| && results[i].Ok? && Get(results[i].counts, f) == MaxOk(results, flags, f)
    ensures !Enabled(flags, f) ==> MaxOk(results, flags, f) == 0
    decreases |results|
  {
    if |results| > 0 {
      var prior := results[..|results| - 1];
      MaxOkIsMaximum(prior, flags, f);
      assert forall i :: 0 <= i < |prior| ==> prior[i] == results[i];
    }
  }

  /** The field-wise sum of the counts of the successful results. */
  function SumOk(results: seq<FileResult>): Counts
    decreases |results|
  {
    if |results| == 0 then NoCounts
    else
      var last := results[|results| - 1];
      var prior := SumOk(results[..|results| - 1]);
      if last.Ok? then Plus(prior, last.counts) else prior
  }

  /** The successful results, in order. */
  function OkOnly(results: seq<FileResult>): (oks: seq<FileResult>)
    ensures forall i :: 0 <= i < |oks| ==> oks[i].Ok?
    decreases |results|
  {
    if |results| == 0 then []
    else OkOnly(results[..|results| - 1]) + (if results[|results| - 1].Ok? then [results[|results| - 1]] else [])
  }

  lemma {:induction false} SumOkAppend(a: seq<FileResult>, b: seq<FileResult>)
    ensures SumOk(a + b) == Plus(SumOk(a), SumOk(b))
    decreases |b|
  {
    if |b| == 0 {
      assert a + b == a;
    } else {
      var ab, b' := a + b, b[..|b| - 1];
      assert ab[|ab| - 1] == b[|b| - 1];
      assert ab[..|ab| - 1] == a + b';
      SumOkAppend(a, b');
      assert SumOk(ab[..|ab| - 1]) == Plus(SumOk(a), SumOk(b'));
    }
  }

  /** Each successful result's count is at most the total of its field. */
  lemma {:induction false} OkBelowTotal(results: seq<FileResult>, i: nat, f: Field)
    requires i < |results| && results[i].Ok?
    ensures Get(results[i].counts, f) <= Get(SumOk(results), f)
    decreases |results|
  {
    if i < |results| - 1 {
      OkBelowTotal(results[..|results| - 1], i, f);
    }
  }

  /** Failed results contribute nothing to the total. */
  lemma {:induction false} ErrorsAddNothing(results: seq<FileResult>)
    ensures SumOk(results) == SumOk(OkOnly(results))
    decreases |results|
  {
    if |results| > 0 {
      var prior, last := results[..|results| - 1], results[|results| - 1];
      ErrorsAddNothing(prior);
      if last.Ok? {
        SumOkAppend(OkOnly(prior), [last]);
        assert [last][..0] == [];
      } else {
        assert OkOnly(results) == OkOnly(prior) + [];
        assert OkOnly(prior) + [] == OkOnly(prior);
      }
    }
  }

  /** Column width: the digit length of the column's maximum, at least 7. */
  function ColumnWidth(m: nat): (w: nat)
    ensures w >= MaxWidth && w >= DigitLen(m)
    ensures w == MaxWidth || w == DigitLen(m)
  {
    Max(DigitLen(m), MaxWidth)
  }

  /** The widths of the four columns. */
  datatype Widths = Widths(lines: nat, words: nat, bytes: nat, chars: nat)

  function WidthOf(w: Widths, f: Field): nat
  {
    match f
    case Lines => w.lines
    case Words => w.words
    case Bytes => w.bytes
    case Chars => w.chars
  }

  /** The widths `print_files_results` uses for every row of one call:
      each column is as wide as its widest successful value needs, and at
      least `MaxWidth`. */
  function FileWidths(results: seq<FileResult>, flags: Flags): (w: Widths)
    ensures forall f :: WidthOf(w, f) >= MaxWidth
    ensures forall i, f :: 0 <= i < |results| && results[i].Ok? && Enabled(flags, f) ==>
              DigitLen(Get(results[i].counts, f)) <= WidthOf(w, f)
    ensures forall f :: WidthOf(w, f) == MaxWidth
              || exists i :: 0 <= i < |results| && results[i].Ok? && Enabled(flags, f)
                             && WidthOf(w, f) == DigitLen(Get(results[i].counts, f))
  {
    var w := ColumnWidths(results, flags);
    forall f {
      ColumnWidthOfMax(results, flags, f);
    }
    w
  }

  /** Each column's width, from its own largest successful value. */
  function ColumnWidths(results: seq<FileResult>, flags: Flags): (w: Widths)
    ensures forall f :: WidthOf(w, f) == ColumnWidth(MaxOk(results, flags, f))
  {
    Widths(ColumnWidth(MaxOk(results, flags, Lines)), ColumnWidth(MaxOk(results, flags, Words)),
           ColumnWidth(MaxOk(results, flags, Bytes)), ColumnWidth(MaxOk(results, flags, Chars)))
  }

  /** The width of one column, from its largest successful value: it fits
      every successful value, and is `MaxWidth` or the width of one of them. */
  lemma ColumnWidthOfMax(results: seq<FileResult>, flags: Flags, f: Field)
    ensures forall i :: 0 <= i < |results| && results[i].Ok? && Enabled(flags, f) ==>
              DigitLen(Get(results[i].counts, f)) <= ColumnWidth(MaxOk(results, flags, f))
    ensures ColumnWidth(MaxOk(results, flags, f)) == MaxWidth
         || exists i :: 0 <= i < |results| && results[i].Ok? && Enabled(flags, f)
                        && ColumnWidth(MaxOk(results, flags, f)) == DigitLen(Get(results[i].counts, f))
  {
    MaxOkIsMaximum(results, flags, f);
    forall i | 0 <= i < |results| && results[i].Ok? && Enabled(flags, f)
      ensures DigitLen(Get(results[i].counts, f)) <= ColumnWidth(MaxOk(results, flags, f))
    {
      DigitLenMonotone(Get(results[i].counts, f), MaxOk(results, flags, f));
    }
    assert DigitLen(0) == 1;
  }

  lemma PrefixStep(results: seq<FileResult>, i: nat, flags: Flags)
    requires i < |results|
    ensures forall f :: MaxOk(results[..i + 1], flags, f)
                     == Max(MaxOk(results[..i], flags, f), MaxCandidate(results[i], flags, f))
    ensures SumOk(results[..i + 1])
         == if results[i].Ok? then Plus(SumOk(results[..i]), results[i].counts) else SumOk(results[..i])
  {
    assert results[..i + 1][..i] == results[..i];
  }

  /** The loop as written: one pass keeping the four maxima and the total. */
  method Aggregate(results: seq<FileResult>, flags: Flags) returns (maxima: Counts, total: Counts)
    ensures forall f :: Get(maxima, f) == MaxOk(results, flags, f)
    ensures total == SumOk(results)
  {
    var maxLines: nat, maxWords: nat, maxBytes: nat, maxChars: nat := 0, 0, 0, 0;
    total := NoCounts;
    var i := 0;
    while i < |results|
      invariant i <= |results|
      invariant maxLines == MaxOk(results[..i], flags, Lines)
      invariant maxWords == MaxOk(results[..i], flags, Words)
      invariant maxBytes == MaxOk(results[..i], flags, Bytes)
      invariant maxChars == MaxOk(results[..i], flags, Chars)
      invariant total == SumOk(results[..i])
    {
      var r := results[i];
      PrefixStep(results, i, flags);
      if r.Ok? {
        var c := r.counts;
        if flags.lines {
          maxLines := Max(maxLines, c.lines);
        }
        if flags.words {
          maxWords := Max(maxWords, c.words);
        }
        if flags.bytes {
          maxBytes := Max(maxBytes, c.bytes);
        }
        if flags.chars {
          maxChars := Max(maxChars, c.chars);
        }
        total := Counts(total.lines + c.lines, total.words + c.words,
                        total.bytes + c.bytes, total.chars + c.chars);
      }
      i := i + 1;
    }
    assert results[..i] == results;
    maxima := Counts(maxLines, maxWords, maxBytes, maxChars);
  }
}
