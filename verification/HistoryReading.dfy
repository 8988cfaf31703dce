/** What a live verdict over several files says of their lines (src/codex-transcript.ts, lines
    795-868). */
module HistoryReading {
  import opened TextLines
  import opened Json
  import opened LiveScan
  import opened LiveMeaning
  import opened HistoryWindow
  import opened HistoryVerdict

  /** The lines of a kept range; a clipped range starts inside a line, which does not count. */
  function LinesOf(decode: Decoder, segment: Segment): seq<string> {
    var lines := Lines(Decode(decode, segment.file.bytes[segment.start..segment.endByte]));
    if segment.start == 0 then lines else lines[1..]
  }

  /** The lines of all of them, the oldest first. */
  function LinesRead(decode: Decoder, segments: seq<Segment>): seq<string> {
    if segments == [] then [] else LinesOf(decode, segments[0]) + LinesRead(decode, segments[1..])
  }

  lemma {:induction false} LinesAfterFirst(raw: string)
    ensures if |Lines(raw)| == 1 then AfterFirstLine(raw) == "" else Lines(AfterFirstLine(raw)) == Lines(raw)[1..]
  {
    if raw != "" && raw[0] != TextLines.NEWLINE {
      LinesAfterFirst(raw[1..]);
    }
  }

  lemma {:induction false} ScanOfRange(decode: Decoder, segment: Segment, live: bool, effect: LineScan)
    requires effect("") == Inert
    ensures LiveText(SegmentText(decode, segment), live, effect) == Scan(LinesOf(decode, segment), live, effect)
  {
    var raw := Decode(decode, segment.file.bytes[segment.start..segment.endByte]);
    LinesAfterFirst(raw);
    assert [""][..0] == [];
    assert Scan([""], live, effect) == Step(Scan([""][..0], live, effect), effect(""));
  }

  lemma {:induction false} ScanOfRanges(decode: Decoder, segments: seq<Segment>, live: bool, effect: LineScan)
    requires effect("") == Inert
    ensures LiveTexts(Texts(decode, segments), live, effect) == Scan(LinesRead(decode, segments), live, effect)
    decreases |segments|
  {
    if segments != [] {
      ScanOfRange(decode, segments[0], live, effect);
      var next := Scan(LinesOf(decode, segments[0]), live, effect);
      ScanOfRanges(decode, segments[1..], next, effect);
      ScanConcat(LinesOf(decode, segments[0]), LinesRead(decode, segments[1..]), live, effect);
      assert Texts(decode, segments)[1..] == Texts(decode, segments[1..]);
    }
  }

  /** From the given range on all files can be read, and not the one before it. */
  ghost predicate ReadableFrom(segments: seq<Segment>, oldest: nat) {
    && oldest <= |segments|
    && (forall i :: oldest <= i < |segments| ==> segments[i].file.readable)
    && (oldest > 0 ==> !segments[oldest - 1].file.readable)
  }

  lemma {:induction false} OldestIsWhereItStops(segments: seq<Segment>, end: nat, oldest: nat)
    requires oldest <= end <= |segments| && ReadableFrom(segments[..end], oldest)
    ensures OldestReadable(segments, end) == oldest
    decreases end
  {
    if oldest < end {
      assert segments[..end][end - 1].file.readable;
      assert segments[..end][..end - 1] == segments[..end - 1];
      OldestIsWhereItStops(segments, end - 1, oldest);
    }
  }

  /** The verdict on a history is live exactly when, in the lines of the newest ranges that
      could all be read, some developer message restores the context and no later line
      drops it. */
  lemma {:induction false} VerdictMeansRestored(w: World, segments: seq<Segment>, oldest: nat)
    requires ReadableFrom(segments, oldest)
    ensures Verdict(w, segments) <==> Restored(LinesRead(w.decode, segments[oldest..]), w.parse)
  {
    assert segments[..|segments|] == segments;
    OldestIsWhereItStops(segments, |segments|, oldest);
    ScanOfRanges(w.decode, segments[oldest..], false, EffectOf(w.parse));
    LineTests(w.parse);
    ScanMeansRestored(LinesRead(w.decode, segments[oldest..]), EffectOf(w.parse), Restores(w.parse), Drops(w.parse));
  }
}
