/** UTF-8 well-formedness as given by the `UTF8-octets` grammar of section 4
    of RFC 3629, and the number of scalar values a well-formed sequence
    decodes to. This is what `std::str::from_utf8(..)` accepts and what
    `.chars().count()` returns on success. */
module Utf8 {
  import opened Types

  /** A continuation byte (`UTF8-tail`, `%x80-BF`). */
  predicate IsTail(b: Byte)
  {
    0x80 <= b <= 0xBF
  }

  /** The length of the one `UTF8-char` that `s` starts with, or 0 when no
      well-formed character starts `s`. */
  function LeadLength(s: seq<Byte>): (n: nat)
    requires |s| > 0
    ensures n <= 4 && n <= |s|
    ensures n > 0 ==> !IsTail(s[0])
    ensures forall k :: 1 <= k < n ==> IsTail(s[k])
  {
    var b := s[0];
    if b <= 0x7F then 1
    else if 0xC2 <= b <= 0xDF then
      if |s| >= 2 && IsTail(s[1]) then 2 else 0
    else if 0xE0 <= b <= 0xEF then
      // E0 needs A0-BF next (no overlongs), ED needs 80-9F (no surrogates)
      var lo := if b == 0xE0 then 0xA0 else 0x80;
      var hi := if b == 0xED then 0x9F else 0xBF;
      if |s| >= 3 && lo <= s[1] <= hi && IsTail(s[2]) then 3 else 0
    else if 0xF0 <= b <= 0xF4 then
      // F0 needs 90-BF next (no overlongs), F4 needs 80-8F (at most U+10FFFF)
      var lo := if b == 0xF0 then 0x90 else 0x80;
      var hi := if b == 0xF4 then 0x8F else 0xBF;
      if |s| >= 4 && lo <= s[1] <= hi && IsTail(s[2]) && IsTail(s[3]) then 4 else 0
    else 0
  }

  /** `s` is a concatenation of well-formed `UTF8-char`s. */
  predicate WellFormed(s: seq<Byte>)
    decreases |s|
  {
    |s| == 0 || (LeadLength(s) > 0 && WellFormed(s[LeadLength(s)..]))
  }

  /** The character a sequence starts with is found the same way whatever
      follows it. */
  lemma LeadLengthAppend(a: seq<Byte>, b: seq<Byte>)
    requires |a| > 0 && LeadLength(a) > 0
    ensures LeadLength(a + b) == LeadLength(a)
  {
    var n := LeadLength(a);
    assert forall k :: 0 <= k < |a| ==> (a + b)[k] == a[k];
  }

  /** Well-formed sequences concatenate to a well-formed sequence. */
  lemma {:induction false} WellFormedAppend(a: seq<Byte>, b: seq<Byte>)
    requires WellFormed(a) && WellFormed(b)
    ensures WellFormed(a + b)
    decreases |a|
  {
    if |a| == 0 {
      assert a + b == b;
    } else {
      var n := LeadLength(a);
      LeadLengthAppend(a, b);
      assert (a + b)[n..] == a[n..] + b;
      WellFormedAppend(a[n..], b);
    }
  }

  /** The number of scalar values a well-formed sequence decodes to. */
  function ScalarCount(s: seq<Byte>): (n: nat)
    requires WellFormed(s)
    decreases |s|
    ensures n <= |s|
    ensures n == 0 <==> |s| == 0
  {
    if |s| == 0 then 0 else 1 + ScalarCount(s[LeadLength(s)..])
  }

  /** Reference count: the bytes that are not continuation bytes. */
  function NonTailCount(s: seq<Byte>): (n: nat)
    ensures n <= |s|
  {
    if |s| == 0 then 0 else (if IsTail(s[0]) then 0 else 1) + NonTailCount(s[1..])
  }

  lemma {:induction false} NonTailAppend(a: seq<Byte>, b: seq<Byte>)
    ensures NonTailCount(a + b) == NonTailCount(a) + NonTailCount(b)
  {
    if |a| > 0 {
      assert (a + b)[1..] == a[1..] + b;
      NonTailAppend(a[1..], b);
    } else {
      assert a + b == b;
    }
  }

  lemma {:induction false} NonTailOfTails(s: seq<Byte>)
    requires forall k :: 0 <= k < |s| ==> IsTail(s[k])
    ensures NonTailCount(s) == 0
  {
    if |s| > 0 {
      NonTailOfTails(s[1..]);
    }
  }

  /** Each well-formed character contributes exactly one non-continuation
      byte, so the decoded scalar count is the number of lead bytes. */
  lemma {:induction false} ScalarCountIsNonTailCount(s: seq<Byte>)
    requires WellFormed(s)
    ensures ScalarCount(s) == NonTailCount(s)
    decreases |s|
  {
    if |s| > 0 {
      var n := LeadLength(s);
      assert s == s[..n] + s[n..];
      NonTailAppend(s[..n], s[n..]);
      NonTailOfTails(s[1..n]);
      assert s[..n][1..] == s[1..n];
      ScalarCountIsNonTailCount(s[n..]);
    }
  }

  /** `from_utf8(chunk).unwrap_or_default().chars().count()`: the scalar
      count of a well-formed chunk, and 0 for an ill-formed one. */
  function DecodedCount(chunk: seq<Byte>): (n: nat)
    ensures n <= |chunk|
    ensures WellFormed(chunk) ==> n == NonTailCount(chunk)
    ensures !WellFormed(chunk) ==> n == 0
  {
    if WellFormed(chunk) then
      ScalarCountIsNonTailCount(chunk);
      ScalarCount(chunk)
    else 0
  }
}
