/** Reading the kept ranges and the verdict on them: truncation never over-claims
    (src/codex-transcript.ts, lines 795-868). */
module HistoryVerdict {
  import opened Options
  import opened TextLines
  import opened Json
  import opened LiveScan
  import opened CutoffReader
  import opened HistoryWindow
  import opened Sequences

  // ---- texts of ranges -----------------------------------------------------------------

  /** The text after the first newline; nothing when there is none. */
  function AfterFirstLine(raw: string): string {
    if raw == "" then "" else if raw[0] == TextLines.NEWLINE then raw[1..] else AfterFirstLine(raw[1..])
  }

  function RangeText(decode: Decoder, bytes: seq<Byte>, clipped: bool): string {
    if clipped then AfterFirstLine(Decode(decode, bytes)) else Decode(decode, bytes)
  }

  function SegmentText(decode: Decoder, segment: Segment): string
  {
    RangeText(decode, segment.file.bytes[segment.start..segment.endByte], segment.start > 0)
  }

  lemma {:induction false} AfterNewline(a: string, b: string)
    requires TextLines.NEWLINE !in a
    ensures AfterFirstLine(a + [TextLines.NEWLINE] + b) == b
  {
    if a != "" {
      assert (a + [TextLines.NEWLINE] + b)[1..] == a[1..] + [TextLines.NEWLINE] + b;
      AfterNewline(a[1..], b);
    }
  }

  lemma {:induction false} NothingAfterLine(a: string)
    requires TextLines.NEWLINE !in a
    ensures AfterFirstLine(a) == ""
  {
    if a != "" {
      NothingAfterLine(a[1..]);
    }
  }

  method ReadSegmentText(decode: Decoder, segment: Segment) returns (text: string)
    ensures text == SegmentText(decode, segment)
  {
    var raw := Decode(decode, segment.file.bytes[segment.start..segment.endByte]);
    if segment.start == 0 { return raw; }
    var newline := 0;
    while newline < |raw| && raw[newline] != TextLines.NEWLINE
      invariant newline <= |raw| && TextLines.NEWLINE !in raw[..newline]
    {
      newline := newline + 1;
    }
    if newline == |raw| {
      assert raw[..newline] == raw;
      NothingAfterLine(raw);
      return "";
    }
    AfterNewline(raw[..newline], raw[newline + 1..]);
    assert raw == raw[..newline] + [TextLines.NEWLINE] + raw[newline + 1..];
    return raw[newline + 1..];
  }

  // ---- scanning several texts -----------------------------------------------------------

  ghost predicate LiveTexts(texts: seq<string>, live: bool, effect: LineScan) {
    if texts == [] then live else LiveTexts(texts[1..], LiveText(texts[0], live, effect), effect)
  }

  lemma {:induction false} LiveTextsConcat(a: seq<string>, b: seq<string>, live: bool, effect: LineScan)
    ensures LiveTexts(a + b, live, effect) == LiveTexts(b, LiveTexts(a, live, effect), effect)
  {
    if a == [] {
      assert a + b == b;
    } else {
      assert (a + b)[1..] == a[1..] + b;
      LiveTextsConcat(a[1..], b, LiveText(a[0], live, effect), effect);
    }
  }

  lemma {:induction false} LiveTextsMonotone(texts: seq<string>, before: bool, after: bool, effect: LineScan)
    requires before ==> after
    ensures LiveTexts(texts, before, effect) ==> LiveTexts(texts, after, effect)
  {
    if texts != [] {
      LiveTextMonotone(texts[0], before, after, effect);
      LiveTextsMonotone(texts[1..], LiveText(texts[0], before, effect), LiveText(texts[0], after, effect), effect);
    }
  }

  // ---- the verdict -----------------------------------------------------------------------

  /** Where the run of readable files that ends before end starts. */
  function OldestReadable(segments: seq<Segment>, end: nat): (index: nat)
    requires end <= |segments|
    ensures index <= end
  {
    if end == 0 || !segments[end - 1].file.readable then end else OldestReadable(segments, end - 1)
  }

  /** The newest ranges whose files could all be read. */
  function ReadableSuffix(segments: seq<Segment>): seq<Segment> {
    segments[OldestReadable(segments, |segments|)..]
  }

  function Texts(decode: Decoder, segments: seq<Segment>): (texts: seq<string>) {
    if segments == [] then [] else [SegmentText(decode, segments[0])] + Texts(decode, segments[1..])
  }

  lemma {:induction false} TextsOfConcat(decode: Decoder, a: seq<Segment>, b: seq<Segment>)
    ensures Texts(decode, a + b) == Texts(decode, a) + Texts(decode, b)
  {
    if a == [] {
      assert a + b == b;
    } else {
      assert (a + b)[1..] == a[1..] + b;
      TextsOfConcat(decode, a[1..], b);
    }
  }

  ghost predicate Verdict(w: World, segments: seq<Segment>) {
    LiveTexts(Texts(w.decode, ReadableSuffix(segments)), false, EffectOf(w.parse))
  }

  lemma TextsFrom(decode: Decoder, segments: seq<Segment>, i: nat)
    requires i < |segments|
    ensures Texts(decode, segments[i..]) == [SegmentText(decode, segments[i])] + Texts(decode, segments[i + 1..])
  {
    assert segments[i..][1..] == segments[i + 1..];
  }

  method ReadTexts(w: World, segments: seq<Segment>) returns (texts: seq<string>)
    requires segments != [] && segments[|segments| - 1].file.readable
    ensures texts == Texts(w.decode, ReadableSuffix(segments))
  {
    var index: nat := |segments| - 1;
    TextsFrom(w.decode, segments, index);
    var text := ReadSegmentText(w.decode, segments[index]);
    texts := [text];
    while index > 0 && segments[index - 1].file.readable
      invariant index < |segments|
      invariant texts == Texts(w.decode, segments[index..])
      invariant OldestReadable(segments, |segments|) == OldestReadable(segments, index)
    {
      index := index - 1;
      text := ReadSegmentText(w.decode, segments[index]);
      TextsFrom(w.decode, segments, index);
      texts := [text] + texts;
    }
  }

  lemma LiveTextsSnoc(texts: seq<string>, i: nat, effect: LineScan)
    requires i < |texts|
    ensures LiveTexts(texts[..i + 1], false, effect) == LiveText(texts[i], LiveTexts(texts[..i], false, effect), effect)
  {
    assert texts[..i + 1] == texts[..i] + [texts[i]];
    LiveTextsConcat(texts[..i], [texts[i]], false, effect);
  }

  method ScanTexts(texts: seq<string>, parse: Parser) returns (live: bool)
    ensures live == LiveTexts(texts, false, EffectOf(parse))
  {
    live := false;
    for i := 0 to |texts|
      invariant live == LiveTexts(texts[..i], false, EffectOf(parse))
    {
      LiveTextsSnoc(texts, i, EffectOf(parse));
      live := ScanLiveCodexRestoration(texts[i], live, parse);
    }
    assert texts[..|texts|] == texts;
  }

  /** The newest range is read first, and its read error propagates; an ancestor that
      cannot be read ends the walk. */
  method ScanHistorySegments(w: World, segments: seq<Segment>) returns (live: Option<bool>)
    requires segments != []
    ensures live == if segments[|segments| - 1].file.readable then Some(Verdict(w, segments)) else None
  {
    if !segments[|segments| - 1].file.readable { return None; }
    var texts := ReadTexts(w, segments);
    var verdict := ScanTexts(texts, w.parse);
    return Some(verdict);
  }

  // ---- truncation never over-claims ------------------------------------------------------

  lemma {:induction false} NewlineIsFirst(bytes: seq<Byte>, cut: nat)
    requires cut < |bytes| && bytes[cut] == CutoffReader.NEWLINE
    ensures Newline(bytes) <= cut
  {
    if bytes[0] != CutoffReader.NEWLINE {
      NewlineIsFirst(bytes[1..], cut - 1);
    }
  }

  lemma {:induction false} NewlineOfConcat(a: seq<Byte>, b: seq<Byte>)
    ensures Newline(a + [CutoffReader.NEWLINE] + b) == Newline(a)
  {
    var all := a + [CutoffReader.NEWLINE] + b;
    if a != [] && a[0] != CutoffReader.NEWLINE {
      assert all[1..] == a[1..] + [CutoffReader.NEWLINE] + b;
      NewlineOfConcat(a[1..], b);
    }
  }

  lemma {:induction false} DecodeOfConcat(decode: Decoder, a: seq<Byte>, b: seq<Byte>)
    ensures Decode(decode, a + [CutoffReader.NEWLINE] + b)
      == Decode(decode, a) + [TextLines.NEWLINE] + Decode(decode, b)
    decreases |a|
  {
    var all, n := a + [CutoffReader.NEWLINE] + b, Newline(a);
    NewlineOfConcat(a, b);
    CutAround(a, CutoffReader.NEWLINE, b, n);
    if n == |a| {
      assert a[..n] == a;
    } else {
      var rest := a[n + 1..];
      DecodeOfConcat(decode, rest, b);
      JoinedTwice(decode(a[..n]), Decode(decode, rest), Decode(decode, b));
    }
  }

  lemma JoinedTwice(x: string, y: string, z: string)
    ensures x + [TextLines.NEWLINE] + (y + [TextLines.NEWLINE] + z) == (x + [TextLines.NEWLINE] + y) + [TextLines.NEWLINE] + z
  {
  }

  /** What dropping the first partial line of bytes leaves. */
  lemma AfterFirstLineOf(decode: Decoder, bytes: seq<Byte>)
    ensures AfterFirstLine(Decode(decode, bytes))
      == if Newline(bytes) < |bytes| then Decode(decode, bytes[Newline(bytes) + 1..]) else ""
  {
    var n := Newline(bytes);
    if n < |bytes| {
      AfterNewline(decode(bytes[..n]), Decode(decode, bytes[n + 1..]));
    } else {
      NothingAfterLine(decode(bytes));
    }
  }

  lemma EmptyTextProvesNothing(effect: LineScan)
    requires effect("") == Inert
    ensures !LiveText("", false, effect)
  {
    assert Lines("") == [""] && !Scan([""][..0], false, effect);
    assert Scan([""], false, effect) == Step(Scan([""][..0], false, effect), effect(""));
  }

  lemma DecodeSplit(decode: Decoder, bytes: seq<Byte>, from: nat, cut: nat)
    requires from <= cut < |bytes| && bytes[cut] == CutoffReader.NEWLINE
    ensures Decode(decode, bytes[from..])
      == Decode(decode, bytes[from..cut]) + [TextLines.NEWLINE] + Decode(decode, bytes[cut + 1..])
  {
    assert bytes[from..] == bytes[from..cut] + [CutoffReader.NEWLINE] + bytes[cut + 1..];
    DecodeOfConcat(decode, bytes[from..cut], bytes[cut + 1..]);
  }

  /** A text with whole lines before it, if any. */
  function After(before: Option<string>, text: string): string {
    match before
    case None => text
    case Some(lines) => lines + [TextLines.NEWLINE] + text
  }

  lemma RangeEnds(decode: Decoder, bytes: seq<Byte>, cut: nat, late: string, clipped: bool)
    returns (before: Option<string>)
    requires cut < |bytes| && bytes[cut] == CutoffReader.NEWLINE && late == Decode(decode, bytes[cut + 1..])
    ensures RangeText(decode, bytes, clipped) == After(before, late)
  {
    var from := if clipped then Newline(bytes) + 1 else 0;
    NewlineIsFirst(bytes, cut);
    RangeRest(decode, bytes, clipped, from);
    before := RestEnds(decode, bytes, from, cut, late);
  }

  lemma RangeRest(decode: Decoder, bytes: seq<Byte>, clipped: bool, from: nat)
    requires from == (if clipped then Newline(bytes) + 1 else 0) && (clipped ==> from <= |bytes|)
    ensures RangeText(decode, bytes, clipped) == Decode(decode, bytes[from..])
  {
    if clipped {
      AfterFirstLineOf(decode, bytes);
    } else {
      assert bytes[0..] == bytes;
    }
  }

  lemma RestEnds(decode: Decoder, bytes: seq<Byte>, from: nat, cut: nat, late: string)
    returns (before: Option<string>)
    requires from <= cut + 1 <= |bytes| && bytes[cut] == CutoffReader.NEWLINE && late == Decode(decode, bytes[cut + 1..])
    ensures Decode(decode, bytes[from..]) == After(before, late)
  {
    before := None;
    if from <= cut {
      DecodeSplit(decode, bytes, from, cut);
      before := Some(Decode(decode, bytes[from..cut]));
    }
  }

  /** What a clipped range keeps, if anything, ends the text of any range with the same
      end that starts earlier. */
  lemma LongerRangeEnds(decode: Decoder, bytes: seq<Byte>, shift: nat, late: string, clipped: bool)
    returns (before: Option<string>)
    requires shift <= |bytes| && late == RangeText(decode, bytes[shift..], true)
    ensures late == "" || RangeText(decode, bytes, clipped) == After(before, late)
  {
    before := None;
    if late != "" {
      var cut := ClippedText(decode, bytes, shift, late);
      before := RangeEnds(decode, bytes, cut, late, clipped);
    }
  }

  lemma ClippedText(decode: Decoder, bytes: seq<Byte>, shift: nat, late: string) returns (cut: nat)
    requires shift <= |bytes| && late == AfterFirstLine(Decode(decode, bytes[shift..])) && late != ""
    ensures cut < |bytes| && bytes[cut] == CutoffReader.NEWLINE && late == Decode(decode, bytes[cut + 1..])
  {
    var tail := bytes[shift..];
    var n := Newline(tail);
    AfterFirstLineOf(decode, tail);
    cut := shift + n;
    assert bytes[cut + 1..] == tail[n + 1..] by { DropDrop(bytes, shift, n + 1); }
  }

  lemma LaterLinesClaim(before: Option<string>, text: string, live: bool, effect: LineScan)
    requires LiveText(text, false, effect)
    ensures LiveText(After(before, text), live, effect)
  {
    match before
    case None => LiveTextMonotone(text, false, live, effect);
    case Some(lines) => SuffixLinesClaim(lines, text, live, effect);
  }

  /** Of two ranges with the same end the longer one claims at least as much. */
  lemma EarlierStartClaims(decode: Decoder, late: Segment, early: Segment, live: bool, effect: LineScan)
    requires effect("") == Inert
    requires late.file == early.file && late.endByte == early.endByte
    requires early.start <= late.start
    requires LiveText(SegmentText(decode, late), false, effect)
    ensures LiveText(SegmentText(decode, early), live, effect)
  {
    EmptyTextProvesNothing(effect);
    var before := None;
    if early.start < late.start {
      var bytes := late.file.bytes[early.start..late.endByte];
      var shift := late.start - early.start;
      assert bytes[shift..] == late.file.bytes[late.start..late.endByte];
      before := LongerRangeEnds(decode, bytes, shift, SegmentText(decode, late), early.start > 0);
    }
    LaterLinesClaim(before, SegmentText(decode, late), live, effect);
  }

  // ---- whole histories ----------------------------------------------------------------

  /** More texts before the ones that prove keep the proof. */
  lemma OlderTextsClaim(older: seq<string>, newer: seq<string>, effect: LineScan)
    requires LiveTexts(newer, false, effect)
    ensures LiveTexts(older + newer, false, effect)
  {
    LiveTextsConcat(older, newer, false, effect);
    LiveTextsMonotone(newer, false, LiveTexts(older, false, effect), effect);
  }

  predicate ClaimsMore(early: string, late: string, effect: LineScan) {
    LiveText(late, false, effect) ==> LiveText(early, false, effect) && LiveText(early, true, effect)
  }

  /** Older texts and a better oldest text keep a proof. */
  lemma TextsClaim(older: seq<string>, early: string, late: string, newer: seq<string>, effect: LineScan)
    requires ClaimsMore(early, late, effect)
    ensures LiveTexts([late] + newer, false, effect) ==> LiveTexts(older + ([early] + newer), false, effect)
  {
    var live := LiveTexts(older, false, effect);
    LiveTextsConcat(older, [early] + newer, false, effect);
    assert ([early] + newer)[1..] == newer && ([late] + newer)[1..] == newer;
    LiveTextsMonotone(newer, LiveText(late, false, effect), LiveText(early, live, effect), effect);
  }

  /** One window reaches at least as far back as another with the same newest ranges. */
  ghost predicate ReachesFurther(more: seq<Segment>, kept: seq<Segment>) {
    0 < |kept| <= |more|
    && var k := |more| - |kept|;
       more[k + 1..] == kept[1..] && more[k].file == kept[0].file
       && more[k].endByte == kept[0].endByte && more[k].start <= kept[0].start
  }

  lemma {:induction false} OldestReadableFurther(more: seq<Segment>, kept: seq<Segment>, end: nat)
    requires ReachesFurther(more, kept) && 0 < end <= |kept|
    ensures
      var k, oldest := |more| - |kept|, OldestReadable(kept, end);
      if oldest > 0 then OldestReadable(more, k + end) == k + oldest else OldestReadable(more, k + end) <= k
    decreases end
  {
    var k := |more| - |kept|;
    assert more[k + end - 1].file == kept[end - 1].file by {
      if end > 1 { assert more[k + 1..][end - 2] == kept[1..][end - 2]; }
    }
    if kept[end - 1].file.readable && end > 1 {
      OldestReadableFurther(more, kept, end - 1);
    }
  }

  lemma EarlierStartText(decode: Decoder, late: Segment, early: Segment, effect: LineScan)
    requires effect("") == Inert
    requires late.file == early.file && late.endByte == early.endByte
    requires early.start <= late.start
    ensures ClaimsMore(SegmentText(decode, early), SegmentText(decode, late), effect)
  {
    if LiveText(SegmentText(decode, late), false, effect) {
      EarlierStartClaims(decode, late, early, false, effect);
      EarlierStartClaims(decode, late, early, true, effect);
    }
  }

  lemma FurtherTextsClaim(w: World, older: seq<Segment>, early: Segment, late: Segment, newer: seq<Segment>)
    requires late.file == early.file && late.endByte == early.endByte && early.start <= late.start
    ensures LiveTexts(Texts(w.decode, [late] + newer), false, EffectOf(w.parse))
      ==> LiveTexts(Texts(w.decode, older + ([early] + newer)), false, EffectOf(w.parse))
  {
    TextsOfConcat(w.decode, older, [early] + newer);
    assert ([early] + newer)[1..] == newer && ([late] + newer)[1..] == newer;
    EarlierStartText(w.decode, late, early, EffectOf(w.parse));
    TextsClaim(Texts(w.decode, older), SegmentText(w.decode, early), SegmentText(w.decode, late),
               Texts(w.decode, newer), EffectOf(w.parse));
  }

  lemma SplitAround(more: seq<Segment>, from: nat, k: nat)
    requires from <= k < |more|
    ensures more[from..] == more[from..k] + ([more[k]] + more[k + 1..])
  {
  }

  lemma WholeWindowClaims(w: World, more: seq<Segment>, kept: seq<Segment>, from: nat)
    requires ReachesFurther(more, kept) && from <= |more| - |kept|
    ensures LiveTexts(Texts(w.decode, kept), false, EffectOf(w.parse)) ==> LiveTexts(Texts(w.decode, more[from..]), false, EffectOf(w.parse))
  {
    var k := |more| - |kept|;
    assert kept == [kept[0]] + kept[1..];
    assert more[from..] == more[from..k] + ([more[k]] + kept[1..]) by { SplitAround(more, from, k); }
    FurtherTextsClaim(w, more[from..k], more[k], kept[0], kept[1..]);
  }

  lemma PartWindowSame(more: seq<Segment>, kept: seq<Segment>, oldest: nat)
    requires ReachesFurther(more, kept) && 0 < oldest <= |kept|
    ensures more[|more| - |kept| + oldest..] == kept[oldest..]
  {
    var k := |more| - |kept|;
    DropDrop(more, k + 1, oldest - 1);
    DropDrop(kept, 1, oldest - 1);
  }

  lemma PartVerdict(w: World, more: seq<Segment>, kept: seq<Segment>, oldest: nat)
    requires ReachesFurther(more, kept) && 0 < oldest <= |kept|
    requires OldestReadable(kept, |kept|) == oldest && OldestReadable(more, |more|) == |more| - |kept| + oldest
    ensures Verdict(w, kept) == Verdict(w, more)
  {
    assert ReadableSuffix(more) == ReadableSuffix(kept) by { PartWindowSame(more, kept, oldest); }
  }

  lemma WholeVerdict(w: World, more: seq<Segment>, kept: seq<Segment>, from: nat)
    requires ReachesFurther(more, kept) && from <= |more| - |kept|
    requires OldestReadable(kept, |kept|) == 0 && OldestReadable(more, |more|) == from
    ensures Verdict(w, kept) ==> Verdict(w, more)
  {
    assert ReadableSuffix(kept) == kept;
    WholeWindowClaims(w, more, kept, from);
  }

  /** A window that reaches further back claims at least as much. */
  lemma FurtherClaimsMore(w: World, more: seq<Segment>, kept: seq<Segment>)
    requires ReachesFurther(more, kept)
    ensures Verdict(w, kept) ==> Verdict(w, more)
  {
    var oldest, from := OldestReadable(kept, |kept|), OldestReadable(more, |more|);
    OldestReadableFurther(more, kept, |kept|);
    if oldest > 0 {
      PartVerdict(w, more, kept, oldest);
    } else {
      WholeVerdict(w, more, kept, from);
    }
  }
}
