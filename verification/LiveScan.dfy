/** The three-valued line scan that proves a restoration is live in the model context
    (src/codex-transcript.ts, lines 441-503). */
module LiveScan {
  import opened Options
  import opened TextLines
  import opened Json

  const LCM_RESTORATION_MARKER := "<!-- lcm-restoration -->"

  datatype Effect = Reset | Prove | Inert

  /** After leading whitespace, the marker alone on its first line. */
  predicate StartsWithMarkerLine(text: string) {
    var trimmed := TrimStart(text);
    LCM_RESTORATION_MARKER <= trimmed
    && var rest := trimmed[|LCM_RESTORATION_MARKER|..];
       rest == "" || "\n" <= rest || "\r\n" <= rest
  }

  function TextFields(items: seq<Json>): seq<string> {
    seq(|items|, i requires 0 <= i < |items| =>
      match Field(items[i], "text")
      case Some(String(text)) => text
      case _ => "")
  }

  function MessageText(content: Option<Json>): string {
    match content
    case Some(Array(items)) => Join(TextFields(items))
    case _ => ""
  }

  /** What one parsed line does to the proof. */
  function RecordEffect(record: Json): Effect {
    var payload := match Field(record, "payload") case Some(Record(fields)) => Record(fields) case _ => Record(map[]);
    if HasText(record, "type", "compacted") then Reset
    else if HasText(record, "type", "event_msg") && HasText(payload, "type", "thread_rolled_back") then Reset
    else if HasText(record, "type", "response_item") && HasText(payload, "type", "message")
      && HasText(payload, "role", "developer") && StartsWithMarkerLine(MessageText(Field(payload, "content")))
    then Prove
    else Inert
  }

  function LineEffect(line: string, parse: Parser): Effect {
    if Trim(line) == "" then Inert else ParsedEffect(parse(Trim(line)))
  }

  /** A malformed line may hide a compaction or a rollback. */
  function ParsedEffect(parsed: Option<Json>): Effect {
    match parsed
    case None => Reset
    case Some(record) => RecordEffect(record)
  }

  /** What each line does to the proof. */
  type LineScan = string -> Effect

  function EffectOf(parse: Parser): LineScan {
    line => LineEffect(line, parse)
  }

  function Step(live: bool, effect: Effect): bool {
    match effect { case Reset => false case Prove => true case Inert => live }
  }

  function Scan(lines: seq<string>, initial: bool, effect: LineScan): bool {
    if lines == [] then initial
    else Step(Scan(lines[..|lines| - 1], initial, effect), effect(lines[|lines| - 1]))
  }

  function LiveText(raw: string, initial: bool, effect: LineScan): bool {
    Scan(Lines(raw), initial, effect)
  }

  // ---- the meaning of the scan ---------------------------------------------------

  ghost predicate NoReset(lines: seq<string>, from: nat, effect: LineScan) {
    forall k :: from <= k < |lines| ==> effect(lines[k]) != Reset
  }

  /** A proof that no later line resets: a marker of this text, or the one carried in. */
  ghost predicate Live(lines: seq<string>, initial: bool, effect: LineScan) {
    (exists k :: 0 <= k < |lines| && effect(lines[k]) == Prove && NoReset(lines, k, effect))
    || (initial && NoReset(lines, 0, effect))
  }

  lemma LiveSnoc(lines: seq<string>, last: string, initial: bool, effect: LineScan)
    ensures Live(lines + [last], initial, effect) == Step(Live(lines, initial, effect), effect(last))
  {
    var all, n := lines + [last], |lines|;
    assert all[n] == last;
    match effect(last)
    case Reset =>
    case Prove => assert NoReset(all, n, effect);
    case Inert =>
      forall from: nat | from <= n ensures NoReset(all, from, effect) == NoReset(lines, from, effect) {
        assert forall k :: from <= k < n ==> all[k] == lines[k];
      }
      if k :| 0 <= k < n && effect(lines[k]) == Prove && NoReset(lines, k, effect) {
        assert effect(all[k]) == Prove && NoReset(all, k, effect);
      }
      if k :| 0 <= k < |all| && effect(all[k]) == Prove && NoReset(all, k, effect) {
        assert effect(lines[k]) == Prove && NoReset(lines, k, effect);
      }
  }

  /** The scan answers that meaning. */
  lemma {:induction false} ScanMeansLive(lines: seq<string>, initial: bool, effect: LineScan)
    ensures Scan(lines, initial, effect) == Live(lines, initial, effect)
  {
    if lines != [] {
      var init, last := lines[..|lines| - 1], lines[|lines| - 1];
      assert lines == init + [last];
      ScanMeansLive(init, initial, effect);
      LiveSnoc(init, last, initial, effect);
    }
  }

  /** Scanning one text after another is scanning them as one. */
  lemma {:induction false} ScanConcat(a: seq<string>, b: seq<string>, initial: bool, effect: LineScan)
    ensures Scan(a + b, initial, effect) == Scan(b, Scan(a, initial, effect), effect)
    decreases |b|
  {
    if b == [] {
      assert a + b == a;
    } else {
      assert (a + b)[..|a + b| - 1] == a + b[..|b| - 1];
      ScanConcat(a, b[..|b| - 1], initial, effect);
    }
  }

  /** The step of every line is monotone, so a scan can only gain from a better start. */
  lemma {:induction false} ScanMonotone(lines: seq<string>, before: bool, after: bool, effect: LineScan)
    requires before ==> after
    ensures Scan(lines, before, effect) ==> Scan(lines, after, effect)
  {
    if lines != [] {
      ScanMonotone(lines[..|lines| - 1], before, after, effect);
    }
  }

  /** A text that proves on its own proves for every longer text it ends. */
  lemma SuffixLinesClaim(before: string, text: string, live: bool, effect: LineScan)
    requires LiveText(text, false, effect)
    ensures LiveText(before + [NEWLINE] + text, live, effect)
  {
    LinesOfConcat(before, text);
    ScanConcat(Lines(before), Lines(text), live, effect);
    ScanMonotone(Lines(text), false, Scan(Lines(before), live, effect), effect);
  }

  lemma LiveTextMonotone(raw: string, before: bool, after: bool, effect: LineScan)
    requires before ==> after
    ensures LiveText(raw, before, effect) ==> LiveText(raw, after, effect)
  {
    ScanMonotone(Lines(raw), before, after, effect);
  }

  // ---- the scan -------------------------------------------------------------------

  lemma ScanStep(lines: seq<string>, i: nat, initial: bool, parse: Parser)
    requires i < |lines|
    ensures Scan(lines[..i + 1], initial, EffectOf(parse))
      == Step(Scan(lines[..i], initial, EffectOf(parse)), LineEffect(lines[i], parse))
  {
    assert lines[..i + 1][..i] == lines[..i];
  }

  /** The branches on one parsed line. */
  method ScanRecord(record: Json, before: bool) returns (live: bool)
    ensures live == Step(before, RecordEffect(record))
  {
    live := before;
    if !record.Record? { return; }
    var field := Field(record, "payload");
    var payload := if field.Some? && field.value.Record? then field.value else Record(map[]);
    if HasText(record, "type", "compacted") {
      live := false;
    } else if HasText(record, "type", "event_msg") && HasText(payload, "type", "thread_rolled_back") {
      live := false;
    } else if HasText(record, "type", "response_item") && HasText(payload, "type", "message")
      && HasText(payload, "role", "developer") {
      var marked := StartsWithMarkerLine(MessageText(Field(payload, "content")));
      if marked {
        live := true;
      }
    }
  }

  method ScanLiveCodexRestoration(raw: string, initialLive: bool, parse: Parser) returns (live: bool)
    ensures live == LiveText(raw, initialLive, EffectOf(parse))
  {
    live := initialLive;
    var lines := Lines(raw);
    for i := 0 to |lines|
      invariant live == Scan(lines[..i], initialLive, EffectOf(parse))
    {
      ScanStep(lines, i, initialLive, parse);
      var trimmed := Trim(lines[i]);
      if trimmed == "" { continue; }
      var parsed := parse(trimmed);
      if parsed.None? {
        live := false;
        continue;
      }
      live := ScanRecord(parsed.value, live);
    }
    assert lines[..|lines|] == lines;
  }
}
