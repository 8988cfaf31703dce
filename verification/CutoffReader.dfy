/** The backward chunked reader of a rollout's cutoff record
    (src/codex-transcript.ts, lines 675-716). */
module CutoffReader {
  import opened Options

  type Byte = b: int | 0 <= b < 256

  const NEWLINE: Byte := 10

  predicate IsJsonWhitespace(b: Byte) {
    b == 32 || b == 9 || b == 10 || b == 13
  }

  // ---- the forward definition ------------------------------------------------

  /** The length of the first end bytes without trailing JSON whitespace. */
  function Trimmed(bytes: seq<Byte>, end: nat): (trimmed: nat)
    requires end <= |bytes|
    ensures trimmed <= end
  {
    if end == 0 || !IsJsonWhitespace(bytes[end - 1]) then end else Trimmed(bytes, end - 1)
  }

  function TrimmedEnd(bytes: seq<Byte>): (end: nat)
    ensures end <= |bytes|
  {
    Trimmed(bytes, |bytes|)
  }

  /** Where the line that ends at end starts: after the last newline before it. */
  function LineStart(bytes: seq<Byte>, end: nat): (start: nat)
    requires end <= |bytes|
    ensures start <= end
  {
    if end == 0 || bytes[end - 1] == NEWLINE then end else LineStart(bytes, end - 1)
  }

  /** The last non-blank line, or nothing in an all-blank text. */
  function LastLine(bytes: seq<Byte>): Option<seq<Byte>> {
    var end := TrimmedEnd(bytes);
    if end == 0 then None else Some(bytes[LineStart(bytes, end)..end])
  }

  function LastOrdinal(bytes: seq<Byte>, parse: seq<Byte> -> Option<nat>): Option<nat> {
    match LastLine(bytes)
    case None => None
    case Some(line) => parse(line)
  }

  /** The last non-blank line together with the blanks after it. */
  function TailLength(bytes: seq<Byte>): (n: nat)
    ensures n <= |bytes|
  {
    var end := TrimmedEnd(bytes);
    if end == 0 then |bytes| else |bytes| - LineStart(bytes, end)
  }

  /** The first chunk boundary past the record limit. */
  function GiveUpAt(chunk: nat, limit: nat): nat
    requires chunk > 0
  {
    (limit / chunk + 1) * chunk
  }

  /** The last non-blank line, with the blanks after it, reaches the first chunk boundary
      past the record limit before the text is used up. */
  predicate FillsWindow(bytes: seq<Byte>, chunk: nat, limit: nat)
    requires chunk > 0
  {
    GiveUpAt(chunk, limit) <= TailLength(bytes) && GiveUpAt(chunk, limit) < |bytes|
  }

  // ---- what the definition finds ----------------------------------------------

  /** A line that does not end with a tab, a carriage return or a space. */
  predicate IsLine(line: seq<Byte>) {
    line != [] && 10 !in line && line[|line| - 1] !in [9, 13, 32]
  }

  predicate AllBlank(bytes: seq<Byte>) {
    forall b <- bytes :: b in [9, 10, 13, 32]
  }

  lemma {:induction false} TrimmedDropsBlanks(bytes: seq<Byte>, from: nat, end: nat)
    requires from <= end <= |bytes| && forall k :: from <= k < end ==> IsJsonWhitespace(bytes[k])
    ensures Trimmed(bytes, end) == Trimmed(bytes, from)
    decreases end
  {
    if from < end {
      TrimmedDropsBlanks(bytes, from, end - 1);
    }
  }

  lemma {:induction false} LineStartSkipsLine(bytes: seq<Byte>, start: nat, end: nat)
    requires start <= end <= |bytes| && forall k :: start <= k < end ==> bytes[k] != NEWLINE
    requires start == 0 || bytes[start - 1] == NEWLINE
    ensures LineStart(bytes, end) == start
    decreases end
  {
    if start < end {
      LineStartSkipsLine(bytes, start, end - 1);
    }
  }

  /** Whatever whole lines come before it and blanks after it, the last line is found. */
  lemma LastLineFound(before: seq<Byte>, line: seq<Byte>, blanks: seq<Byte>)
    requires before == [] || before[|before| - 1] == NEWLINE
    requires IsLine(line) && AllBlank(blanks)
    ensures LastLine(before + line + blanks) == Some(line)
    ensures TailLength(before + line + blanks) == |line| + |blanks|
  {
    var all, start, end := before + line + blanks, |before|, |before + line|;
    forall k | end <= k < |all| ensures IsJsonWhitespace(all[k]) { assert all[k] in blanks; }
    TrimmedDropsBlanks(all, end, |all|);
    assert all[end - 1] == line[|line| - 1];
    LineStartSkipsLine(all, start, end);
    assert all[start..end] == line;
  }

  lemma NoLineInBlanks(blanks: seq<Byte>)
    requires AllBlank(blanks)
    ensures LastLine(blanks) == None && TailLength(blanks) == |blanks|
  {
    forall k | 0 <= k < |blanks| ensures IsJsonWhitespace(blanks[k]) { assert blanks[k] in blanks; }
    TrimmedDropsBlanks(blanks, 0, |blanks|);
  }

  // ---- a suffix decides once it holds the start of the line -----------------------

  lemma {:induction false} TrimmedSuffix(pre: seq<Byte>, tail: seq<Byte>, end: nat)
    requires end <= |tail|
    ensures Trimmed(tail, end) > 0 ==> Trimmed(pre + tail, |pre| + end) == |pre| + Trimmed(tail, end)
    ensures Trimmed(tail, end) == 0 ==> Trimmed(pre + tail, |pre| + end) == Trimmed(pre, |pre|)
    decreases end
  {
    if end == 0 {
      TrimmedPrefix(pre, tail, |pre|);
    } else if IsJsonWhitespace(tail[end - 1]) {
      TrimmedSuffix(pre, tail, end - 1);
    }
  }

  lemma {:induction false} TrimmedPrefix(pre: seq<Byte>, tail: seq<Byte>, end: nat)
    requires end <= |pre|
    ensures Trimmed(pre + tail, end) == Trimmed(pre, end)
  {
    if end > 0 && IsJsonWhitespace(pre[end - 1]) {
      TrimmedPrefix(pre, tail, end - 1);
    }
  }

  lemma {:induction false} LineStartSuffix(pre: seq<Byte>, tail: seq<Byte>, end: nat)
    requires end <= |tail|
    ensures LineStart(tail, end) > 0 ==> LineStart(pre + tail, |pre| + end) == |pre| + LineStart(tail, end)
    ensures LineStart(tail, end) == 0 ==> LineStart(pre + tail, |pre| + end) <= |pre|
    ensures LineStart(tail, end) > 0 ==> tail[LineStart(tail, end) - 1] == NEWLINE
    decreases end
  {
    if end == 0 {
      assert LineStart(pre + tail, |pre|) <= |pre|;
    } else if tail[end - 1] != NEWLINE {
      LineStartSuffix(pre, tail, end - 1);
    }
  }

  /** A suffix in which the last line starts after a newline has the same last line. */
  lemma SuffixDecides(pre: seq<Byte>, tail: seq<Byte>)
    requires TrimmedEnd(tail) > 0 && LineStart(tail, TrimmedEnd(tail)) > 0
    ensures LastLine(pre + tail) == LastLine(tail)
    ensures TailLength(pre + tail) < |tail|
  {
    var end := TrimmedEnd(tail);
    var start := LineStart(tail, end);
    var all, start', end' := pre + tail, |pre| + start, |pre| + end;
    assert TrimmedEnd(all) == end' by { TrimmedSuffix(pre, tail, |tail|); }
    assert LineStart(all, end') == start' by { LineStartSuffix(pre, tail, end); }
    assert all[start'..end'] == tail[start..end] by { SliceOfSuffix(pre, tail, start, end); }
    SameLine(all, start', end', tail, start, end);
  }

  lemma SameLine(a: seq<Byte>, start: nat, end: nat, b: seq<Byte>, start': nat, end': nat)
    requires start <= end <= |a| && start' <= end' <= |b| && a[start..end] == b[start'..end']
    requires TrimmedEnd(a) == end && end > 0 && LineStart(a, end) == start
    requires TrimmedEnd(b) == end' && end' > 0 && LineStart(b, end') == start'
    ensures LastLine(a) == LastLine(b) && TailLength(a) == |a| - start
  {
    LastLineAt(a, start, end);
    LastLineAt(b, start', end');
  }

  lemma LastLineAt(bytes: seq<Byte>, start: nat, end: nat)
    requires TrimmedEnd(bytes) == end && end > 0 && LineStart(bytes, end) == start
    ensures LastLine(bytes) == Some(bytes[start..end]) && TailLength(bytes) == |bytes| - start
  {
  }

  lemma SliceOfSuffix(pre: seq<Byte>, tail: seq<Byte>, start: nat, end: nat)
    requires start <= end <= |tail|
    ensures (pre + tail)[|pre| + start..|pre| + end] == tail[start..end]
  {
  }

  lemma SuffixUndecided(pre: seq<Byte>, tail: seq<Byte>)
    requires TrimmedEnd(tail) == 0 || LineStart(tail, TrimmedEnd(tail)) == 0
    ensures |tail| <= TailLength(pre + tail)
  {
    var end := TrimmedEnd(tail);
    TrimmedSuffix(pre, tail, |tail|);
    if end > 0 {
      LineStartSuffix(pre, tail, end);
    } else if TrimmedEnd(pre) > 0 {
      assert LineStart(pre + tail, TrimmedEnd(pre)) <= TrimmedEnd(pre);
    }
  }

  lemma SmallMultiples(k: nat, chunk: nat, limit: nat)
    requires chunk > 0 && k <= limit / chunk
    ensures k * chunk <= limit
    ensures (k + 1) * chunk <= GiveUpAt(chunk, limit)
  {
    assert k * chunk <= (limit / chunk) * chunk;
    assert (k + 1) * chunk <= (limit / chunk + 1) * chunk;
  }

  // ---- the reader ------------------------------------------------------------------

  /** For every chunk size the reader answers the forward definition, except that it
      gives up, answering nothing, when the line with its trailing blanks fills the
      first chunk boundary past the record limit. */
  method ReadCutoffOrdinal(file: seq<Byte>, endByte: nat, chunkBytes: nat, limit: nat, parse: seq<Byte> -> Option<nat>)
    returns (r: Option<nat>)
    requires endByte <= |file| && chunkBytes > 0
    ensures r == if FillsWindow(file[..endByte], chunkBytes, limit) then None else LastOrdinal(file[..endByte], parse)
  {
    ghost var text := file[..endByte];
    var tail: seq<Byte> := [];
    var position: nat := endByte;
    ghost var k: nat := 0;
    while true
      invariant position <= endByte && tail == file[position..endByte]
      invariant position > 0 ==> |tail| == k * chunkBytes
      invariant |tail| <= GiveUpAt(chunkBytes, limit)
      decreases position
    {
      assert text == file[..position] + tail;
      var end := FindEnd(tail);
      var start := FindLineStart(tail, end);
      if (end > 0 && start > 0) || position == 0 {
        if position == 0 { assert tail == text; } else { SuffixDecides(file[..position], tail); }
        assert !FillsWindow(text, chunkBytes, limit) && LastLine(text) == LastLine(tail);
        if end == 0 { return None; }
        LastLineAt(tail, start, end);
        return parse(tail[start..end]);
      }
      SuffixUndecided(file[..position], tail);
      if |tail| > limit {
        PastLimit(k, chunkBytes, limit);
        assert |tail| == GiveUpAt(chunkBytes, limit);
        assert FillsWindow(text, chunkBytes, limit);
        return None;
      }
      WithinLimit(k, chunkBytes, limit);
      SmallMultiples(k, chunkBytes, limit);
      var length := if chunkBytes < position then chunkBytes else position;
      position := position - length;
      tail := file[position..position + length] + tail;
      k := k + 1;
    }
  }

  /** A record that fits the limit is always found, and no other ordinal ever is. */
  lemma FitsIsRead(bytes: seq<Byte>, chunk: nat, limit: nat)
    requires chunk > 0 && TailLength(bytes) <= limit
    ensures !FillsWindow(bytes, chunk, limit)
  {
    BoundaryPastLimit(chunk, limit);
  }

  lemma PastLimit(k: nat, chunk: nat, limit: nat)
    requires chunk > 0 && limit < k * chunk <= GiveUpAt(chunk, limit)
    ensures k * chunk == GiveUpAt(chunk, limit)
  {
    if k <= limit / chunk {
      SmallMultiples(k, chunk, limit);
    } else {
      assert (limit / chunk + 1) * chunk <= k * chunk;
    }
  }

  lemma WithinLimit(k: nat, chunk: nat, limit: nat)
    requires chunk > 0 && k * chunk <= limit
    ensures k <= limit / chunk
  {
    if limit / chunk < k {
      assert (limit / chunk + 1) * chunk <= k * chunk;
      BoundaryPastLimit(chunk, limit);
    }
  }

  lemma BoundaryPastLimit(chunk: nat, limit: nat)
    requires chunk > 0
    ensures GiveUpAt(chunk, limit) > limit
  {
    assert limit == (limit / chunk) * chunk + limit % chunk;
  }

  method FindEnd(tail: seq<Byte>) returns (end: nat)
    ensures end == TrimmedEnd(tail)
  {
    end := |tail|;
    while end > 0 && IsJsonWhitespace(tail[end - 1])
      invariant end <= |tail| && Trimmed(tail, end) == TrimmedEnd(tail)
    {
      end := end - 1;
    }
  }

  method FindLineStart(tail: seq<Byte>, end: nat) returns (start: nat)
    requires end <= |tail|
    ensures start == LineStart(tail, end)
  {
    start := end;
    while start > 0 && tail[start - 1] != NEWLINE
      invariant start <= end && LineStart(tail, start) == LineStart(tail, end)
    {
      start := start - 1;
    }
  }
}
