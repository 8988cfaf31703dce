/** What a live verdict says of the records of a rollout (src/codex-transcript.ts, lines
    446-503). */
module LiveMeaning {
  import opened Options
  import opened TextLines
  import opened Json
  import opened LiveScan

  /** A compaction or a rollback. */
  predicate DropsContext(record: map<string, Json>) {
    && "type" in record
    && (record["type"] == String("compacted")
        || (record["type"] == String("event_msg") && "payload" in record && record["payload"].Record?
            && "type" in record["payload"].fields
            && record["payload"].fields["type"] == String("thread_rolled_back")))
  }

  /** A developer message whose text opens, after white space, with the marker alone on its
      line. */
  predicate RestoresContext(record: map<string, Json>) {
    && "type" in record && record["type"] == String("response_item")
    && "payload" in record && record["payload"].Record?
    && IsMarked(record["payload"].fields)
  }

  predicate IsMarked(payload: map<string, Json>) {
    && "type" in payload && payload["type"] == String("message")
    && "role" in payload && payload["role"] == String("developer")
    && "content" in payload && payload["content"].Array?
    && OpensWithMarker(Join(TextFields(payload["content"].items)))
  }

  predicate OpensWithMarker(text: string) {
    IsMarkerLine(text) || (text != "" && IsSpace(text[0]) && OpensWithMarker(text[1..]))
  }

  predicate IsMarkerLine(text: string) {
    var n := |LCM_RESTORATION_MARKER|;
    && |text| >= n && text[..n] == "<!-- lcm-restoration -->"
    && (|text| == n || text[n] == '\n' || (|text| > n + 1 && text[n] == '\r' && text[n + 1] == '\n'))
  }

  lemma MarkerLineIff(trimmed: string)
    ensures
      IsMarkerLine(trimmed)
      <==> LCM_RESTORATION_MARKER <= trimmed
           && var rest := trimmed[|LCM_RESTORATION_MARKER|..];
              rest == "" || "\n" <= rest || "\r\n" <= rest
  {
  }

  lemma {:induction false} MarkerOpens(text: string)
    ensures StartsWithMarkerLine(text) <==> OpensWithMarker(text)
  {
    MarkerLineIff(TrimStart(text));
    if text != "" && IsSpace(text[0]) {
      MarkerOpens(text[1..]);
      MarkerStarts(text);
    }
  }

  lemma MarkerStarts(text: string)
    ensures IsMarkerLine(text) ==> text != "" && text[0] == '<'
  {
    if IsMarkerLine(text) { assert text[..|LCM_RESTORATION_MARKER|][0] == text[0]; }
  }

  lemma PayloadMeans(payload: map<string, Json>)
    ensures
      (HasText(Record(payload), "type", "message") && HasText(Record(payload), "role", "developer")
       && StartsWithMarkerLine(MessageText(Field(Record(payload), "content")))) <==> IsMarked(payload)
  {
    MarkerOpens(MessageText(Field(Record(payload), "content")));
  }

  lemma RecordMeans(record: map<string, Json>)
    ensures RecordEffect(Record(record)) == Reset <==> DropsContext(record)
    ensures RecordEffect(Record(record)) == Prove <==> RestoresContext(record)
  {
    match Field(Record(record), "payload")
    case Some(Record(payload)) => PayloadMeans(payload);
    case _ => assert !HasText(Record(map[]), "type", "message");
  }

  /** What a line drops: it is malformed and may hide anything, or its record does. */
  predicate ParsedDrops(parsed: Option<Json>) {
    match parsed
    case None => true
    case Some(Record(record)) => DropsContext(record)
    case Some(_) => false
  }

  predicate ParsedRestores(parsed: Option<Json>) {
    match parsed
    case Some(Record(record)) => RestoresContext(record)
    case _ => false
  }

  predicate LineDrops(line: string, parse: Parser) {
    Trim(line) != "" && ParsedDrops(parse(Trim(line)))
  }

  predicate LineRestores(line: string, parse: Parser) {
    Trim(line) != "" && ParsedRestores(parse(Trim(line)))
  }

  lemma {:induction false} ParsedMeans(parsed: Option<Json>)
    ensures ParsedEffect(parsed) == Reset <==> ParsedDrops(parsed)
    ensures ParsedEffect(parsed) == Prove <==> ParsedRestores(parsed)
  {
    match parsed
    case Some(Record(record)) => RecordMeans(record);
    case _ =>
  }

  lemma {:induction false} LineMeans(line: string, parse: Parser)
    ensures LineEffect(line, parse) == Reset <==> LineDrops(line, parse)
    ensures LineEffect(line, parse) == Prove <==> LineRestores(line, parse)
  {
    ParsedMeans(parse(Trim(line)));
  }

  type LineTest = string -> bool

  function Drops(parse: Parser): LineTest {
    line => LineDrops(line, parse)
  }

  function Restores(parse: Parser): LineTest {
    line => LineRestores(line, parse)
  }

  /** Line k restores the context and no later line drops it. */
  ghost predicate RestoredAt(lines: seq<string>, k: nat, restores: LineTest, drops: LineTest) {
    k < |lines| && restores(lines[k]) && forall j :: k < j < |lines| ==> !drops(lines[j])
  }

  lemma {:induction false} ScanMeansRestored(lines: seq<string>, effect: LineScan, restores: LineTest, drops: LineTest)
    requires forall line :: (effect(line) == Reset <==> drops(line)) && (effect(line) == Prove <==> restores(line))
    ensures Scan(lines, false, effect) <==> exists k: nat :: RestoredAt(lines, k, restores, drops)
  {
    ScanMeansLive(lines, false, effect);
    if k: nat :| RestoredAt(lines, k, restores, drops) {
      assert effect(lines[k]) == Prove && NoReset(lines, k, effect);
    }
    if k :| 0 <= k < |lines| && effect(lines[k]) == Prove && NoReset(lines, k, effect) {
      assert RestoredAt(lines, k, restores, drops);
    }
  }

  lemma {:induction false} TestsOfLine(line: string, parse: Parser)
    ensures EffectOf(parse)(line) == LineEffect(line, parse)
    ensures Drops(parse)(line) == LineDrops(line, parse) && Restores(parse)(line) == LineRestores(line, parse)
  {
  }

  lemma {:induction false} LineTests(parse: Parser)
    ensures forall line :: (EffectOf(parse)(line) == Reset <==> Drops(parse)(line))
                           && (EffectOf(parse)(line) == Prove <==> Restores(parse)(line))
  {
    forall line: string
      ensures (EffectOf(parse)(line) == Reset <==> Drops(parse)(line))
              && (EffectOf(parse)(line) == Prove <==> Restores(parse)(line))
    {
      LineMeans(line, parse);
      TestsOfLine(line, parse);
    }
  }

  ghost predicate Restored(lines: seq<string>, parse: Parser) {
    exists k: nat :: RestoredAt(lines, k, Restores(parse), Drops(parse))
  }

  /** A rollout is live exactly when some developer message restores the context and no later
      line drops it. */
  lemma {:induction false} LiveMeansRestored(raw: string, lines: seq<string>, parse: Parser)
    requires lines == Lines(raw)
    ensures LiveText(raw, false, EffectOf(parse)) <==> Restored(lines, parse)
  {
    LineTests(parse);
    ScanMeansRestored(lines, EffectOf(parse), Restores(parse), Drops(parse));
  }
}
