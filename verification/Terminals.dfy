/** The window of output a terminal keeps: trimmed chunk by chunk, on character boundaries. */
module Terminals {
  import opened Wrappers

  type Bytes = seq<bv8>

  /** A positive number of bytes: a whole one, or one strictly between `bytes` and `bytes + 1`. */
  datatype Limit = Whole(bytes: nat) | Between(bytes: nat)

  /** A limit that is absent or not positive is no limit. */
  function LimitOf(number: Option<real>): Option<Limit> {
    if number.None? || number.value <= 0.0 then None
    else if number.value.Floor as real == number.value then Some(Whole(number.value.Floor))
    else Some(Between(number.value.Floor))
  }

  /** Every limit but no bytes at all comes from some number. */
  lemma LimitsOfNumbers(limit: Limit)
    ensures limit != Whole(0) <==> exists number: real :: LimitOf(Some(number)) == Some(limit)
  {
    if limit != Whole(0) {
      var number := limit.bytes as real + if limit.Whole? then 0.0 else 0.5;
      assert number.Floor == limit.bytes;
      assert LimitOf(Some(number)) == Some(limit);
    }
  }

  /** A byte that continues a character, by its range; `MaskTest` ties it to the mask the trimming loop tests. */
  predicate Continuation(b: bv8) {
    0x80 <= b <= 0xBF
  }

  lemma MaskTest(b: bv8)
    ensures b & 0xc0 == 0x80 <==> Continuation(b)
  {
  }

  // ---------- Trimming ----------

  /** The first index from `start` on that is not a continuation byte. */
  function Skip(buffer: Bytes, start: nat): (k: nat)
    requires start <= |buffer|
    ensures start <= k <= |buffer|
    ensures forall i :: start <= i < k ==> Continuation(buffer[i])
    ensures k < |buffer| ==> !Continuation(buffer[k])
    decreases |buffer| - start
  {
    if start < |buffer| && Continuation(buffer[start]) then Skip(buffer, start + 1) else start
  }

  function Trimmed(buffer: Bytes, limit: nat): Bytes {
    if |buffer| <= limit then buffer else buffer[Skip(buffer, |buffer| - limit)..]
  }

  /** Counting back a broken number of bytes lands between two bytes: no byte is there to be skipped, and the cut is rounded down. */
  function Cut(buffer: Bytes, limit: Limit): Bytes {
    match limit
    case Whole(n) => Trimmed(buffer, n)
    case Between(n) => if |buffer| <= n then buffer else buffer[|buffer| - n - 1..]
  }

  method TrimToLimit(buffer: Bytes, limit: Limit) returns (trimmed: Bytes)
    ensures trimmed == Cut(buffer, limit)
  {
    if |buffer| <= limit.bytes {
      return buffer;
    }
    if limit.Between? {
      return buffer[|buffer| - limit.bytes - 1..];
    }
    var start := |buffer| - limit.bytes;
    while start < |buffer| && buffer[start] & 0xc0 == 0x80
      invariant |buffer| - limit.bytes <= start <= |buffer|
      invariant Skip(buffer, |buffer| - limit.bytes) == Skip(buffer, start)
    {
      MaskTest(buffer[start]);
      start := start + 1;
    }
    if start < |buffer| { MaskTest(buffer[start]); }
    trimmed := buffer[start..];
  }

  /** What a record holds of its output. */
  datatype Window = Window(output: Bytes, truncated: bool)

  function Append(w: Window, data: Bytes, limit: Option<Limit>): Window {
    var combined := w.output + data;
    if limit.None? then Window(combined, w.truncated)
    else
      var trimmed := Cut(combined, limit.value);
      Window(trimmed, w.truncated || |trimmed| < |combined|)
  }

  function Fold(chunks: seq<Bytes>, limit: Option<Limit>): Window
    decreases |chunks|
  {
    if chunks == [] then Window([], false)
    else Append(Fold(chunks[..|chunks| - 1], limit), chunks[|chunks| - 1], limit)
  }

  function Concat(chunks: seq<Bytes>): Bytes
    decreases |chunks|
  {
    if chunks == [] then [] else Concat(chunks[..|chunks| - 1]) + chunks[|chunks| - 1]
  }

  class TerminalRecord {
    const byteLimit: Option<Limit>
    var output: Bytes
    var truncated: bool
    ghost var chunks: seq<Bytes>  // everything ever appended

    /** The window is what folding the appended chunks gives. */
    ghost predicate Valid()
      reads this
    {
      Window(output, truncated) == Fold(chunks, byteLimit)
    }

    constructor (outputByteLimit: Option<real>)
      ensures Valid() && chunks == [] && byteLimit == LimitOf(outputByteLimit)
    {
      byteLimit := LimitOf(outputByteLimit);
      output, truncated, chunks := [], false, [];
    }

    method AppendChunk(data: Bytes)
      requires Valid()
      modifies this
      ensures Valid() && chunks == old(chunks) + [data]
    {
      var combined := output + data;
      chunks := chunks + [data];
      assert chunks[..|chunks| - 1] == old(chunks);
      if byteLimit.None? {
        output := combined;
        return;
      }
      var trimmed := TrimToLimit(combined, byteLimit.value);
      if |trimmed| < |combined| {
        truncated := true;
      }
      output := trimmed;
    }

    /** After the command: an adapter that streamed nothing reports its output only now. */
    method Finish(combined: Bytes)
      requires Valid()
      modifies this
      ensures Valid()
      ensures chunks == old(chunks) + if old(output) == [] && combined != [] then [combined] else []
    {
      if |output| == 0 && |combined| > 0 {
        AppendChunk(combined);
      }
    }
  }

  // ---------- Valid streams: section 4 of RFC 3629 ----------

  predicate Utf8Char(c: Bytes) {
    || (|c| == 1 && c[0] <= 0x7F)
    || (|c| == 2 && 0xC2 <= c[0] <= 0xDF && Continuation(c[1]))
    || (|c| == 3 && Continuation(c[2]) &&
        ((c[0] == 0xE0 && 0xA0 <= c[1] <= 0xBF) || (0xE1 <= c[0] <= 0xEC && Continuation(c[1])) ||
         (c[0] == 0xED && 0x80 <= c[1] <= 0x9F) || (0xEE <= c[0] <= 0xEF && Continuation(c[1]))))
    || (|c| == 4 && Continuation(c[2]) && Continuation(c[3]) &&
        ((c[0] == 0xF0 && 0x90 <= c[1] <= 0xBF) || (0xF1 <= c[0] <= 0xF3 && Continuation(c[1])) ||
         (c[0] == 0xF4 && 0x80 <= c[1] <= 0x8F)))
  }

  ghost predicate AllChars(chars: seq<Bytes>) {
    forall i :: 0 <= i < |chars| ==> Utf8Char(chars[i])
  }

  /** Some beginning of a valid stream: the last character may still be on its way. */
  ghost predicate Utf8Prefix(s: Bytes) {
    exists chars :: AllChars(chars) && s <= Concat(chars)
  }

  /** Only the first byte of a character is not a continuation byte. */
  lemma CharShape(c: Bytes)
    requires Utf8Char(c)
    ensures 1 <= |c| <= 4 && !Continuation(c[0])
    ensures forall i :: 1 <= i < |c| ==> Continuation(c[i])
  {
  }

  /** `at` is where a character starts, or the end. */
  ghost predicate Boundary(chars: seq<Bytes>, at: nat) {
    exists k :: 0 <= k <= |chars| && |Concat(chars[..k])| == at
  }

  lemma {:induction false} LeadIsBoundary(chars: seq<Bytes>, at: nat)
    requires AllChars(chars) && at < |Concat(chars)| && !Continuation(Concat(chars)[at])
    ensures Boundary(chars, at)
    decreases |chars|
  {
    var init, last := chars[..|chars| - 1], chars[|chars| - 1];
    CharShape(last);
    if at < |Concat(init)| {
      LeadIsBoundary(init, at);
      var k :| 0 <= k <= |init| && |Concat(init[..k])| == at;
      assert chars[..k] == init[..k];
    } else {
      assert Concat(chars)[at] == last[at - |Concat(init)|];
      assert at == |Concat(chars[..|chars| - 1])|;
    }
  }

  ghost predicate RunOfFour(s: Bytes, i: nat) {
    i + 3 < |s| && Continuation(s[i]) && Continuation(s[i + 1]) && Continuation(s[i + 2]) && Continuation(s[i + 3])
  }

  /** Four continuation bytes never follow one another. */
  ghost predicate ShortRuns(s: Bytes) {
    forall i: nat :: !RunOfFour(s, i)
  }

  lemma {:induction false} CharsShortRuns(chars: seq<Bytes>)
    requires AllChars(chars)
    ensures ShortRuns(Concat(chars))
    decreases |chars|
  {
    if chars != [] {
      var init, last := chars[..|chars| - 1], chars[|chars| - 1];
      CharsShortRuns(init);
      CharShape(last);
      var s, head := Concat(chars), Concat(init);
      assert !Continuation(s[|head|]);
      forall i: nat
        ensures !RunOfFour(s, i)
      {
        if i + 3 < |head| && RunOfFour(s, i) { PrefixRun(head, s, i); }
      }
    }
  }

  /** More than `limit` continuation bytes in a row, from `i` on. */
  ghost predicate LongRun(s: Bytes, i: nat, limit: nat) {
    i + limit < |s| && forall j :: i <= j <= i + limit ==> Continuation(s[j])
  }

  /** No such run, save one that opens the stream. */
  ghost predicate RunsWithin(s: Bytes, limit: nat) {
    forall i: nat :: 1 <= i ==> !LongRun(s, i, limit)
  }

  lemma ShortRunsWithin(s: Bytes, limit: nat)
    requires ShortRuns(s) && 3 <= limit
    ensures RunsWithin(s, limit)
  {
    forall i: nat | 1 <= i ensures !LongRun(s, i, limit) { assert !RunOfFour(s, i); }
  }

  lemma RunsWithinPrefix(s: Bytes, t: Bytes, limit: nat)
    requires s <= t && RunsWithin(t, limit)
    ensures RunsWithin(s, limit)
  {
    forall i: nat | 1 <= i ensures !LongRun(s, i, limit) {
      assert !LongRun(t, i, limit);
      assert forall j :: 0 <= j < |s| ==> s[j] == t[j];
    }
  }

  lemma PrefixRun(s: Bytes, whole: Bytes, i: nat)
    requires s <= whole && i + 3 < |s| && RunOfFour(whole, i)
    ensures RunOfFour(s, i)
  {
    assert s[i] == whole[i] && s[i + 1] == whole[i + 1] && s[i + 2] == whole[i + 2] && s[i + 3] == whole[i + 3];
  }

  lemma Utf8ShortRuns(s: Bytes)
    requires Utf8Prefix(s)
    ensures ShortRuns(s)
  {
    var chars :| AllChars(chars) && s <= Concat(chars);
    CharsShortRuns(chars);
    forall i: nat
      ensures !RunOfFour(s, i)
    {
      var whole := Concat(chars);
      assert !RunOfFour(whole, i);
      assert i + 3 < |s| ==>
        s[i] == whole[i] && s[i + 1] == whole[i + 1] && s[i + 2] == whole[i + 2] && s[i + 3] == whole[i + 3];
    }
  }

  // ---------- Incremental equals batch ----------

  lemma {:induction false} SkipOver(buffer: Bytes, a: nat, b: nat)
    requires a <= b <= |buffer| && forall i :: a <= i < b ==> Continuation(buffer[i])
    ensures Skip(buffer, a) == Skip(buffer, b)
    decreases b - a
  {
    if a < b { SkipOver(buffer, a + 1, b); }
  }

  lemma {:induction false} SkipShift(buffer: Bytes, s: nat, k: nat)
    requires s + k <= |buffer|
    ensures s + Skip(buffer[s..], k) == Skip(buffer, s + k)
    decreases |buffer| - k
  {
    if s + k < |buffer| && Continuation(buffer[s + k]) { SkipShift(buffer, s, k + 1); }
  }

  /** The chunk still fits behind a trimmed window: the window keeps its start, and so does the whole. */
  lemma KeepsStart(s: Bytes, c: Bytes, limit: nat)
    requires limit < |s| && RunsWithin(s + c, limit)
    requires |s| - Skip(s, |s| - limit) + |c| <= limit
    ensures |s + c| > limit ==> Skip(s + c, |s + c| - limit) == Skip(s, |s| - limit)
  {
    var t, start := s + c, Skip(s, |s| - limit);
    assert forall i :: |s| - limit <= i < start ==> t[i] == s[i];
    SkipOver(t, |t| - limit, start);
    if start == |s| && c != [] {
      assert !LongRun(t, |s| - limit, limit);
      assert !Continuation(t[|s|]);
    } else if start < |s| {
      assert t[start] == s[start];
    }
  }

  lemma Sliced(t: Bytes, start: nat, k: nat)
    requires start + k <= |t|
    ensures t[start..][k..] == t[start + k..]
  {
  }

  /** It does not fit: the cut falls in what is new of the window and in the whole alike. */
  lemma CutsAlike(t: Bytes, start: nat, limit: nat)
    requires start <= |t| && |t[start..]| > limit
    ensures Trimmed(t[start..], limit) == Trimmed(t, limit)
  {
    var w := t[start..];
    SkipShift(t, start, |w| - limit);
    var k := Skip(w, |w| - limit);
    assert start + k == Skip(t, |t| - limit);
    Sliced(t, start, k);
  }

  /** Trimming what was already trimmed, with more behind it, is trimming the whole. */
  lemma TrimAgain(s: Bytes, c: Bytes, limit: nat)
    requires RunsWithin(s + c, limit)
    ensures Trimmed(Trimmed(s, limit) + c, limit) == Trimmed(s + c, limit)
  {
    if |s| > limit {
      var start := Skip(s, |s| - limit);
      assert s[start..] + c == (s + c)[start..];
      if |s| - start + |c| <= limit {
        KeepsStart(s, c, limit);
      } else {
        CutsAlike(s + c, start, limit);
      }
    }
  }

  lemma {:induction false} FoldTrimsWithin(chunks: seq<Bytes>, limit: nat)
    requires RunsWithin(Concat(chunks), limit)
    ensures Fold(chunks, Some(Whole(limit))).output == Trimmed(Concat(chunks), limit)
    decreases |chunks|
  {
    if chunks != [] {
      var init, last := chunks[..|chunks| - 1], chunks[|chunks| - 1];
      RunsWithinPrefix(Concat(init), Concat(chunks), limit);
      FoldTrimsWithin(init, limit);
      TrimAgain(Concat(init), last, limit);
    }
  }

  lemma FoldTrims(chunks: seq<Bytes>, limit: nat)
    requires 3 <= limit && Utf8Prefix(Concat(chunks))
    ensures Fold(chunks, Some(Whole(limit))).output == Trimmed(Concat(chunks), limit)
  {
    Utf8ShortRuns(Concat(chunks));
    ShortRunsWithin(Concat(chunks), limit);
    FoldTrimsWithin(chunks, limit);
  }

  /** Without a limit nothing is dropped. */
  lemma {:induction false} NoLimitKeepsEverything(chunks: seq<Bytes>)
    ensures Fold(chunks, None) == Window(Concat(chunks), false)
    decreases |chunks|
  {
    if chunks != [] { NoLimitKeepsEverything(chunks[..|chunks| - 1]); }
  }

  /** The window is the whole stream trimmed once. */
  ghost predicate AgreesOn(chunks: seq<Bytes>, limit: Limit) {
    Fold(chunks, Some(limit)).output == Cut(Concat(chunks), limit)
  }

  /** The last `count` bytes, or all if there are no more. */
  function LastBytes(s: Bytes, count: nat): Bytes {
    if |s| <= count then s else s[|s| - count..]
  }

  lemma LastAgain(s: Bytes, c: Bytes, count: nat)
    ensures LastBytes(LastBytes(s, count) + c, count) == LastBytes(s + c, count)
  {
    if |s| > count { assert LastBytes(s, count) + c == (s + c)[|s| - count..]; }
  }

  lemma CutBetween(s: Bytes, bytes: nat)
    ensures Cut(s, Between(bytes)) == LastBytes(s, bytes + 1)
  {
  }

  /** With a limit that is no whole number the window is the last bytes, one more than fit, wherever a character starts. */
  lemma {:induction false} BrokenLimitExceeds(chunks: seq<Bytes>, bytes: nat)
    ensures Fold(chunks, Some(Between(bytes))).output == LastBytes(Concat(chunks), bytes + 1)
    decreases |chunks|
  {
    if chunks != [] {
      var init, last := chunks[..|chunks| - 1], chunks[|chunks| - 1];
      BrokenLimitExceeds(init, bytes);
      CutBetween(Fold(init, Some(Between(bytes))).output + last, bytes);
      LastAgain(Concat(init), last, bytes + 1);
    }
  }

  /** So at such a limit the window always is the whole stream trimmed once. */
  lemma BrokenLimitAgrees(chunks: seq<Bytes>, bytes: nat)
    ensures AgreesOn(chunks, Between(bytes))
  {
    BrokenLimitExceeds(chunks, bytes);
    CutBetween(Concat(chunks), bytes);
  }

  lemma TwoChunks(a: Bytes, b: Bytes, limit: nat)
    ensures Concat([a, b]) == a + b
    ensures Fold([a, b], Some(Whole(limit))).output == Trimmed(Trimmed(a, limit) + b, limit)
  {
    assert [a, b][..1] == [a] && [a][..0] == [];
    assert Concat([a]) == [] + a == a;
    assert Fold([a], Some(Whole(limit))).output == Trimmed([] + a, limit);
    assert [] + a == a;
  }

  /** With one byte of room, a three-byte character split after its second byte leaves a stray continuation byte. */
  lemma DisagreesAtOne() returns (chunks: seq<Bytes>)
    ensures Utf8Prefix(Concat(chunks)) && !AgreesOn(chunks, Whole(1))
  {
    var a: Bytes, b: Bytes := [0xE2, 0x82], [0xAC];
    chunks := [a, b];
    TwoChunks(a, b, 1);
    OneChar(a + b);
    assert Skip(a, 1) == 2 && a[2..] == [];
    assert Trimmed(a, 1) + b == b;
    assert Skip(a + b, 2) == 3;
  }

  /** With two, a four-byte character split after its third. */
  lemma DisagreesAtTwo() returns (chunks: seq<Bytes>)
    ensures Utf8Prefix(Concat(chunks)) && !AgreesOn(chunks, Whole(2))
  {
    var a: Bytes, b: Bytes := [0xF0, 0x9F, 0x98], [0x80];
    chunks := [a, b];
    TwoChunks(a, b, 2);
    OneChar(a + b);
    assert Skip(a, 1) == Skip(a, 2) == 3 && a[3..] == [];
    assert Trimmed(a, 2) + b == b;
    assert Skip(a + b, 2) == Skip(a + b, 3) == 4;
  }

  lemma OneChar(c: Bytes)
    requires Utf8Char(c)
    ensures Utf8Prefix(c)
  {
    assert Concat([c]) == Concat([]) + c == c;
    assert AllChars([c]) && c <= Concat([c]);
  }

  /** Keeping a window chunk by chunk equals trimming the whole stream once, for every valid stream and chunking, exactly at whole
      limits from three on and at all limits that are not whole. */
  lemma IncrementalIsBatchFromThree(limit: Limit)
    requires limit != Whole(0)
    ensures (forall chunks :: Utf8Prefix(Concat(chunks)) ==> AgreesOn(chunks, limit)) <==> limit.Between? || limit.bytes >= 3
  {
    if limit == Whole(1) {
      var one := DisagreesAtOne();
    } else if limit == Whole(2) {
      var two := DisagreesAtTwo();
    } else {
      forall chunks | Utf8Prefix(Concat(chunks))
        ensures AgreesOn(chunks, limit)
      {
        if limit.Whole? { FoldTrims(chunks, limit.bytes); } else { BrokenLimitAgrees(chunks, limit.bytes); }
      }
    }
  }

  // ---------- What the window is ----------

  /** Skipping stops within three bytes unless the buffer ends first. */
  lemma SkipsAtMostThree(s: Bytes, start: nat)
    requires ShortRuns(s) && start <= |s|
    ensures Skip(s, start) <= start + 3
  {
    assert !RunOfFour(s, start);
  }

  /** Where skipping stops a character starts, even if it stops because the stream so far ends there. */
  lemma BoundaryAfterSkip(chars: seq<Bytes>, from: nat, at: nat)
    requires AllChars(chars) && from <= at <= |Concat(chars)|
    requires forall i :: from <= i < at ==> Continuation(Concat(chars)[i])
    requires at == |Concat(chars)| || !Continuation(Concat(chars)[at]) || from + 3 <= at
    ensures Boundary(chars, at)
  {
    if at == |Concat(chars)| {
      assert chars[..|chars|] == chars;
    } else {
      CharsShortRuns(chars);
      assert from + 3 <= at ==> !RunOfFour(Concat(chars), at - 3);
      LeadIsBoundary(chars, at);
    }
  }

  lemma SkippedInWhole(s: Bytes, whole: Bytes, from: nat)
    requires s <= whole && from <= |s|
    ensures forall i :: from <= i < Skip(s, from) ==> Continuation(whole[i])
    ensures Skip(s, from) < |s| ==> !Continuation(whole[Skip(s, from)])
  {
    assert forall i :: 0 <= i < |s| ==> whole[i] == s[i];
  }

  lemma SkipsToBoundary(s: Bytes, chars: seq<Bytes>, from: nat)
    requires AllChars(chars) && s <= Concat(chars) && from + 3 <= |s|
    ensures Skip(s, from) <= from + 3 && Boundary(chars, Skip(s, from))
  {
    Utf8ShortRuns(s);
    SkipsAtMostThree(s, from);
    SkippedInWhole(s, Concat(chars), from);
    BoundaryAfterSkip(chars, from, Skip(s, from));
  }

  /** Past a whole limit, the window is the stream from a character boundary on, at most three bytes short of full. */
  lemma WindowOnBoundary(chunks: seq<Bytes>, limit: nat, chars: seq<Bytes>)
    requires 3 <= limit && AllChars(chars) && Concat(chunks) <= Concat(chars)
    ensures var all, window := Concat(chunks), Fold(chunks, Some(Whole(limit))).output;
      if |all| <= limit then window == all
      else limit - 3 <= |window| <= limit && window == all[|all| - |window|..] && Boundary(chars, |all| - |window|)
  {
    assert Utf8Prefix(Concat(chunks));
    FoldTrims(chunks, limit);
    TrimmedOnBoundary(Concat(chunks), limit, chars);
  }

  lemma TrimmedOnBoundary(all: Bytes, limit: nat, chars: seq<Bytes>)
    requires 3 <= limit && AllChars(chars) && all <= Concat(chars)
    ensures var window := Trimmed(all, limit);
      if |all| <= limit then window == all
      else limit - 3 <= |window| <= limit && window == all[|all| - |window|..] && Boundary(chars, |all| - |window|)
  {
    if |all| > limit { SkipsToBoundary(all, chars, |all| - limit); }
  }

  lemma {:induction false} LeadOf(chars: seq<Bytes>, k: nat)
    requires AllChars(chars) && k < |chars|
    ensures |Concat(chars[..k])| < |Concat(chars)| && !Continuation(Concat(chars)[|Concat(chars[..k])|])
    decreases |chars|
  {
    var n := |chars| - 1;
    CharShape(chars[n]);
    if k < n {
      LeadOf(chars[..n], k);
      assert chars[..n][..k] == chars[..k];
    }
  }

  /** Every reading of the stream as the beginning of a text has the window start where a character does, or at the end. */
  ghost predicate StartsOnBoundary(chunks: seq<Bytes>, limit: Limit) {
    forall chars :: AllChars(chars) && Concat(chunks) <= Concat(chars) ==>
      |Fold(chunks, Some(limit)).output| <= |Concat(chunks)| && Boundary(chars, |Concat(chunks)| - |Fold(chunks, Some(limit)).output|)
  }

  lemma MidCharacter(chunks: seq<Bytes>, limit: Limit, chars: seq<Bytes>, at: nat)
    requires AllChars(chars) && Concat(chunks) <= Concat(chars)
    requires at + |Fold(chunks, Some(limit)).output| == |Concat(chunks)| && at < |Concat(chars)| && Continuation(Concat(chars)[at])
    ensures !StartsOnBoundary(chunks, limit)
  {
    assert chars[..|chars|] == chars;
    if k :| 0 <= k < |chars| && |Concat(chars[..k])| == at { LeadOf(chars, k); }
  }

  lemma BoundaryAtStart(chars: seq<Bytes>)
    ensures Boundary(chars, 0)
  {
    assert |Concat(chars[..0])| == 0;
  }

  lemma WholeStartsOnBoundary(chunks: seq<Bytes>, limit: nat)
    requires 3 <= limit
    ensures StartsOnBoundary(chunks, Whole(limit))
  {
    forall chars | AllChars(chars) && Concat(chunks) <= Concat(chars)
      ensures |Fold(chunks, Some(Whole(limit))).output| <= |Concat(chunks)|
      ensures Boundary(chars, |Concat(chunks)| - |Fold(chunks, Some(Whole(limit))).output|)
    {
      WindowOnBoundary(chunks, limit, chars);
      BoundaryAtStart(chars);
    }
  }

  /** With one byte of room the split three-byte character leaves its last byte, with two the split four-byte character does. */
  lemma StrayAtOne() returns (chunks: seq<Bytes>)
    ensures !StartsOnBoundary(chunks, Whole(1))
  {
    var a: Bytes, b: Bytes := [0xE2, 0x82], [0xAC];
    chunks := [a, b];
    TwoChunks(a, b, 1);
    assert Skip(a, 1) == 2 && Trimmed(a, 1) + b == b;
    assert Concat([a + b]) == a + b by { assert [a + b][..0] == [] && [] + (a + b) == a + b; }
    MidCharacter(chunks, Whole(1), [a + b], 2);
  }

  lemma StrayAtTwo() returns (chunks: seq<Bytes>)
    ensures !StartsOnBoundary(chunks, Whole(2))
  {
    var a: Bytes, b: Bytes := [0xF0, 0x9F, 0x98], [0x80];
    chunks := [a, b];
    TwoChunks(a, b, 2);
    assert Skip(a, 1) == Skip(a, 2) == 3 && Trimmed(a, 2) + b == b;
    assert Concat([a + b]) == a + b by { assert [a + b][..0] == [] && [] + (a + b) == a + b; }
    MidCharacter(chunks, Whole(2), [a + b], 3);
  }

  /** A two-byte character and `n` one-byte ones. */
  function TwoAndOnes(n: nat): (chars: seq<Bytes>)
    ensures |Concat(chars)| == n + 2 && Continuation(Concat(chars)[1]) && AllChars(chars)
  {
    if n == 0 then
      assert Concat([[0xC3, 0xA9]]) == [0xC3, 0xA9] by { assert [[0xC3, 0xA9]][..0] == []; }
      [[0xC3, 0xA9]]
    else
      var more := TwoAndOnes(n - 1) + [[0x41]];
      assert more[..|more| - 1] == TwoAndOnes(n - 1);
      more
  }

  lemma StrayAtBroken(bytes: nat) returns (chunks: seq<Bytes>)
    ensures !StartsOnBoundary(chunks, Between(bytes))
  {
    var chars := TwoAndOnes(bytes);
    chunks := [Concat(chars)];
    OneChunk(Concat(chars), Between(bytes));
    MidCharacter(chunks, Between(bytes), chars, 1);
  }

  /** That the window never starts inside a character, as the comment on trimming says, holds for all text and chunkings exactly at
      whole limits from three on. */
  lemma BoundaryFromThree(limit: Limit)
    requires limit != Whole(0)
    ensures (forall chunks :: StartsOnBoundary(chunks, limit)) <==> limit.Whole? && limit.bytes >= 3
  {
    if limit == Whole(1) {
      var chunks := StrayAtOne();
    } else if limit == Whole(2) {
      var chunks := StrayAtTwo();
    } else if limit.Whole? {
      forall chunks ensures StartsOnBoundary(chunks, limit) { WholeStartsOnBoundary(chunks, limit.bytes); }
    } else {
      var chunks := StrayAtBroken(limit.bytes);
    }
  }

  /** `truncated` tells exactly whether more bytes arrived than the window may keep: at a limit that is not whole, one more than fit. */
  lemma {:induction false} TruncatedIffOver(chunks: seq<Bytes>, limit: Limit)
    ensures Fold(chunks, Some(limit)).truncated <==> |Concat(chunks)| > limit.bytes + if limit.Whole? then 0 else 1
    ensures !Fold(chunks, Some(limit)).truncated ==> Fold(chunks, Some(limit)).output == Concat(chunks)
    decreases |chunks|
  {
    if chunks != [] {
      TruncatedIffOver(chunks[..|chunks| - 1], limit);
      if limit.Between? { BrokenLimitExceeds(chunks[..|chunks| - 1], limit.bytes); }
    }
  }

  /** The flag is set exactly if more bytes arrived than the limit; a whole number of them is over a broken limit exactly if it is over `bytes`. */
  ghost predicate FlagExact(chunks: seq<Bytes>, limit: Limit) {
    Fold(chunks, Some(limit)).truncated <==> |Concat(chunks)| > limit.bytes
  }

  ghost predicate Fits(chunks: seq<Bytes>, limit: Limit) {
    |Fold(chunks, Some(limit)).output| <= limit.bytes
  }

  /** At a broken limit the flag is wrong for exactly the streams of one byte more than fit, and the window too long for exactly those
      and all longer ones. */
  lemma BrokenLimitMisses(chunks: seq<Bytes>, bytes: nat)
    ensures FlagExact(chunks, Between(bytes)) <==> |Concat(chunks)| != bytes + 1
    ensures Fits(chunks, Between(bytes)) <==> |Concat(chunks)| <= bytes
  {
    TruncatedIffOver(chunks, Between(bytes));
    BrokenLimitExceeds(chunks, bytes);
  }

  /** Three bytes at a limit of two and a half are all kept, and not reported as truncated. */
  lemma ThreeBytesAtTwoAndAHalf(a: bv8, b: bv8, c: bv8)
    ensures LimitOf(Some(2.5)) == Some(Between(2))
    ensures Fold([[a, b, c]], LimitOf(Some(2.5))) == Window([a, b, c], false)
    ensures !FlagExact([[a, b, c]], Between(2)) && !Fits([[a, b, c]], Between(2))
  {
    var s := [a, b, c];
    assert 2.5.Floor == 2;
    assert Concat([s]) == s by { assert [s][..0] == [] && [] + s == s; }
    TruncatedIffOver([s], Between(2));
    BrokenLimitMisses([s], 2);
  }

  lemma {:induction false} WholeLimitFits(chunks: seq<Bytes>, limit: nat)
    ensures Fits(chunks, Whole(limit))
  {
    if chunks != [] { WholeLimitFits(chunks[..|chunks| - 1], limit); }
  }

  /** `truncated` means more bytes than the limit, and the window keeps to the limit, for every stream exactly if the limit is whole. */
  lemma LimitKeptIffWhole(limit: Limit)
    ensures (forall chunks :: FlagExact(chunks, limit)) <==> limit.Whole?
    ensures (forall chunks :: Fits(chunks, limit)) <==> limit.Whole?
  {
    if limit.Whole? {
      forall chunks ensures FlagExact(chunks, limit) && Fits(chunks, limit) {
        TruncatedIffOver(chunks, limit);
        WholeLimitFits(chunks, limit.bytes);
      }
    } else {
      var s: Bytes := seq(limit.bytes + 1, i => 0x41);
      OneChunk(s, limit);
      BrokenLimitMisses([s], limit.bytes);
    }
  }

  ghost predicate EmptyOnlyAtFirst(chunks: seq<Bytes>, limit: Limit) {
    Fold(chunks, Some(limit)).output == [] <==> Concat(chunks) == []
  }

  lemma AllSkipped(c: Bytes, start: nat)
    requires Utf8Char(c) && 1 <= start <= |c|
    ensures Skip(c, start) == |c|
  {
    CharShape(c);
  }

  /** A four-byte character is trimmed away whole when at most three bytes fit. */
  lemma EmptiedBelowFour(limit: nat) returns (chunks: seq<Bytes>)
    requires 0 < limit <= 3
    ensures Utf8Prefix(Concat(chunks)) && !EmptyOnlyAtFirst(chunks, Whole(limit))
  {
    var c: Bytes := [0xF0, 0x9F, 0x98, 0x80];
    chunks := [c];
    assert Concat(chunks) == Concat(chunks[..0]) + c == c;
    OneChar(c);
    assert Fold(chunks, Some(Whole(limit))).output == Trimmed(Fold(chunks[..0], Some(Whole(limit))).output + c, limit);
    assert [] + c == c;
    AllSkipped(c, 4 - limit);
  }

  /** A window that keeps one byte more than fits is never empty again. */
  lemma BrokenLimitNeverEmpty(chunks: seq<Bytes>, bytes: nat)
    ensures EmptyOnlyAtFirst(chunks, Between(bytes))
  {
    BrokenLimitExceeds(chunks, bytes);
  }

  /** An empty window means that nothing was streamed, as the fallback in `Finish` assumes, exactly at whole limits from four on and at
      all limits that are not whole. */
  lemma EmptyMeansNothingFromFour(limit: Limit)
    requires limit != Whole(0)
    ensures (forall chunks :: Utf8Prefix(Concat(chunks)) ==> EmptyOnlyAtFirst(chunks, limit)) <==> limit.Between? || limit.bytes >= 4
  {
    if limit.Between? {
      forall chunks ensures EmptyOnlyAtFirst(chunks, limit) { BrokenLimitNeverEmpty(chunks, limit.bytes); }
    } else if limit.bytes >= 4 {
      forall chunks | Utf8Prefix(Concat(chunks))
        ensures EmptyOnlyAtFirst(chunks, limit)
      {
        var chars :| AllChars(chars) && Concat(chunks) <= Concat(chars);
        WindowOnBoundary(chunks, limit.bytes, chars);
      }
    } else {
      var chunks := EmptiedBelowFour(limit.bytes);
    }
  }

  // ---------- Streams that are not text ----------

  predicate AllContinuation(s: Bytes) {
    forall i :: 0 <= i < |s| ==> Continuation(s[i])
  }

  /** The last `limit` bytes are all continuation bytes, and there are more bytes than those. */
  predicate EndsInRun(s: Bytes, limit: nat) {
    |s| > limit && AllContinuation(s[|s| - limit..])
  }

  lemma TrimmedEmpty(s: Bytes, limit: nat)
    requires limit > 0
    ensures Trimmed(s, limit) == [] <==> s == [] || EndsInRun(s, limit)
  {
    if |s| > limit {
      var k := Skip(s, |s| - limit);
      if EndsInRun(s, limit) {
        forall i | |s| - limit <= i < |s| ensures Continuation(s[i]) { assert s[|s| - limit..][i - (|s| - limit)] == s[i]; }
      }
    }
  }

  lemma TailOfTail(s: Bytes, w: Bytes, limit: nat)
    requires |w| <= |s| && w == s[|s| - |w|..] && |w| > limit
    ensures EndsInRun(w, limit) <==> EndsInRun(s, limit)
  {
    assert w[|w| - limit..] == s[|s| - limit..];
  }

  lemma TailPlus(t: Bytes, w: Bytes, data: Bytes)
    requires |w| <= |t| && w == t[|t| - |w|..]
    ensures w + data == (t + data)[|t + data| - |w + data|..]
  {
  }

  lemma TrimmedOfTail(t: Bytes, c: Bytes, limit: nat)
    requires |c| <= |t| && c == t[|t| - |c|..]
    ensures var u := Trimmed(c, limit); |u| <= |t| && u == t[|t| - |u|..]
  {
    if |c| > limit { Sliced(t, |t| - |c|, Skip(c, |c| - limit)); }
  }

  lemma TrimmedIsTail(t: Bytes, w: Bytes, data: Bytes, limit: nat)
    requires |w| <= |t| && w == t[|t| - |w|..]
    ensures var u := Trimmed(w + data, limit); |u| <= |t + data| && u == (t + data)[|t + data| - |u|..]
  {
    TailPlus(t, w, data);
    TrimmedOfTail(t + data, w + data, limit);
  }

  lemma {:induction false} WindowIsTail(chunks: seq<Bytes>, limit: nat)
    ensures var s, w := Concat(chunks), Fold(chunks, Some(Whole(limit))).output; |w| <= |s| && w == s[|s| - |w|..]
    decreases |chunks|
  {
    if chunks != [] {
      var init, last := chunks[..|chunks| - 1], chunks[|chunks| - 1];
      WindowIsTail(init, limit);
      TrimmedIsTail(Concat(init), Fold(init, Some(Whole(limit))).output, last, limit);
    }
  }

  /** At a whole limit an append empties the window exactly if window and chunk together do not fit and the stream ends in a full window's worth of continuation bytes. */
  lemma AppendEmpties(chunks: seq<Bytes>, data: Bytes, limit: nat)
    requires limit > 0 && data != []
    ensures Fold(chunks + [data], Some(Whole(limit))).output == [] <==>
      |Fold(chunks, Some(Whole(limit))).output| + |data| > limit && EndsInRun(Concat(chunks + [data]), limit)
  {
    var w := Fold(chunks, Some(Whole(limit))).output;
    FoldSnoc(chunks, data, limit);
    WindowIsTail(chunks, limit);
    TrimmedEmpty(w + data, limit);
    var s := Concat(chunks) + data;
    if |w + data| > limit {
      TailPlus(Concat(chunks), w, data);
      TailOfTail(s, w + data, limit);
    }
  }

  lemma FoldSnoc(chunks: seq<Bytes>, data: Bytes, limit: nat)
    ensures Concat(chunks + [data]) == Concat(chunks) + data
    ensures Fold(chunks + [data], Some(Whole(limit))).output == Trimmed(Fold(chunks, Some(Whole(limit))).output + data, limit)
  {
    assert (chunks + [data])[..|chunks|] == chunks;
  }

  lemma {:induction false} EmptiedByRun(chunks: seq<Bytes>, limit: nat)
    requires limit > 0 && Fold(chunks, Some(Whole(limit))).output == []
    ensures Concat(chunks) == [] || EndsInRun(Concat(chunks), limit)
    decreases |chunks|
  {
    if chunks != [] {
      var init, last := chunks[..|chunks| - 1], chunks[|chunks| - 1];
      assert init + [last] == chunks;
      if last == [] {
        TrimmedEmpty(Fold(init, Some(Whole(limit))).output + last, limit);
        WindowIsTail(init, limit);
        var w := Fold(init, Some(Whole(limit))).output;
        assert w + last == w && Concat(init) + last == Concat(init);
        if w == [] { EmptiedByRun(init, limit); } else { TailOfTail(Concat(init), w, limit); }
      } else {
        AppendEmpties(init, last, limit);
      }
    }
  }

  lemma OneChunk(s: Bytes, limit: Limit)
    ensures Concat([s]) == s && Fold([s], Some(limit)).output == Cut(s, limit)
  {
    assert [s][..0] == [];
    assert [] + s == s;
  }

  /** Which streams of bytes, text or not, can leave the window empty at a whole limit: besides the empty one, exactly those that are longer
      than the limit and end in that many continuation bytes. */
  lemma CanEmptyIffEndsInRun(s: Bytes, limit: nat)
    requires limit > 0
    ensures (exists chunks :: Concat(chunks) == s && Fold(chunks, Some(Whole(limit))).output == []) <==> s == [] || EndsInRun(s, limit)
  {
    if chunks :| Concat(chunks) == s && Fold(chunks, Some(Whole(limit))).output == [] { EmptiedByRun(chunks, limit); }
    OneChunk(s, Whole(limit));
    TrimmedEmpty(s, limit);
  }

  /** So at no whole limit does an empty window mean that nothing was streamed, or is the window the whole stream trimmed, when the
      output is not text. */
  lemma NoWholeLimitForBytes(limit: nat) returns (some: seq<Bytes>, more: seq<Bytes>)
    requires limit > 0
    ensures !EmptyOnlyAtFirst(some, Whole(limit)) && !AgreesOn(more, Whole(limit))
  {
    var run: Bytes := seq(limit + 1, i => 0x80);
    some := [run];
    OneChunk(run, Whole(limit));
    TrimmedEmpty(run, limit);
    more := RunDisagrees(run + [0x80], 1, limit);
  }

  /** For all streams of bytes both hold exactly at the limits that are not whole. */
  lemma ForBytesIffBroken(limit: Limit)
    requires limit != Whole(0)
    ensures (forall chunks :: EmptyOnlyAtFirst(chunks, limit)) <==> limit.Between?
    ensures (forall chunks :: AgreesOn(chunks, limit)) <==> limit.Between?
  {
    if limit.Between? {
      forall chunks ensures EmptyOnlyAtFirst(chunks, limit) && AgreesOn(chunks, limit) {
        BrokenLimitNeverEmpty(chunks, limit.bytes);
        BrokenLimitAgrees(chunks, limit.bytes);
      }
    } else {
      var some, more := NoWholeLimitForBytes(limit.bytes);
    }
  }

  lemma EndsHere(s: Bytes, k: nat, limit: nat)
    requires limit < k <= |s| && forall j :: k - limit <= j < k ==> Continuation(s[j])
    ensures EndsInRun(s[..k], limit)
  {
    var tail := s[..k][k - limit..];
    assert forall j {:trigger tail[j]} :: 0 <= j < limit ==> tail[j] == s[k - limit + j];
  }

  /** Emptied after the first chunk, the window takes the one byte after it that a single trim drops. */
  lemma EmptiedBetween(a: Bytes, b: Bytes, limit: nat)
    requires limit > 0 && |b| == 1 && EndsInRun(a, limit) && EndsInRun(a + b, limit)
    ensures Concat([a, b]) == a + b && !AgreesOn([a, b], Whole(limit))
  {
    TwoChunks(a, b, limit);
    TrimmedEmpty(a, limit);
    TrimmedEmpty(a + b, limit);
    assert [] + b == b;
  }

  /** A run of more than `limit` continuation bytes that does not open the stream, cut before its last byte. */
  lemma RunDisagrees(s: Bytes, i: nat, limit: nat) returns (chunks: seq<Bytes>)
    requires limit > 0 && i >= 1 && LongRun(s, i, limit)
    ensures Concat(chunks) <= s && !AgreesOn(chunks, Whole(limit))
  {
    var a, b := s[..i + limit], s[i + limit..i + limit + 1];
    chunks := [a, b];
    assert a + b == s[..i + limit + 1];
    EndsHere(s, i + limit, limit);
    EndsHere(s, i + limit + 1, limit);
    EmptiedBetween(a, b, limit);
  }

  /** For any bytes and a whole limit: every way of chunking every beginning of the stream gives the stream trimmed once, exactly if no run of
      more than `limit` continuation bytes stands in it after its first byte. */
  lemma AgreesIffRunsWithin(s: Bytes, limit: nat)
    requires limit > 0
    ensures (forall chunks :: Concat(chunks) <= s ==> AgreesOn(chunks, Whole(limit))) <==> RunsWithin(s, limit)
  {
    if RunsWithin(s, limit) {
      forall chunks | Concat(chunks) <= s ensures AgreesOn(chunks, Whole(limit)) {
        RunsWithinPrefix(Concat(chunks), s, limit);
        FoldTrimsWithin(chunks, limit);
      }
    } else {
      var i: nat :| 1 <= i && LongRun(s, i, limit);
      var chunks := RunDisagrees(s, i, limit);
    }
  }
}
