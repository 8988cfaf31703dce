/** The parsers of a rollout's text and its inherited-history boundary
    (src/codex-transcript.ts, lines 70-372). */
module RolloutParse {
  import opened Options
  import opened TextLines
  import opened Json

  // ---- the lines the native reader counts -------------------------------------------

  function Utf8Length(line: string): nat {
    if line == "" then 0 else
      var code := line[0] as int;
      (if code < 0x80 then 1 else if code < 0x800 then 2 else if code < 0x10000 then 3 else 4) + Utf8Length(line[1..])
  }

  function Utf16Length(line: string): nat {
    if line == "" then 0 else (if (line[0] as int) < 0x10000 then 1 else 2) + Utf16Length(line[1..])
  }

  predicate IsOversized(line: string) {
    Utf8Length(line) > NATIVE_RECORD_BYTE_LIMIT
  }

  /** The cheap length test in front of the byte count never changes the answer. */
  lemma {:induction false} CheapTestIsSafe(line: string)
    ensures Utf8Length(line) <= Utf16Length(line) * 3
  {
    if line != "" {
      CheapTestIsSafe(line[1..]);
    }
  }

  /** Every character is a tab, a carriage return or a space. */
  predicate IsNativeBlank(line: string) {
    forall c <- line :: c == '\t' || c == '\r' || c == ' '
  }

  predicate IsCounted(line: string) {
    IsOversized(line) || !IsNativeBlank(line)
  }

  /** The counted lines; the index of one is its native source ordinal. */
  function Counted(lines: seq<string>): seq<string> {
    if lines == [] then []
    else if IsCounted(lines[0]) then [lines[0]] + Counted(lines[1..])
    else Counted(lines[1..])
  }

  lemma {:induction false} CountedOfConcat(a: seq<string>, b: seq<string>)
    ensures Counted(a + b) == Counted(a) + Counted(b)
  {
    if a == [] {
      assert a + b == b;
    } else {
      assert (a + b)[1..] == a[1..] + b;
      CountedOfConcat(a[1..], b);
    }
  }

  datatype SourceLine = SourceLine(position: nat, line: string, oversized: bool)

  ghost predicate AreSourceLines(source: seq<SourceLine>, counted: seq<string>) {
    |source| == |counted|
    && forall i :: 0 <= i < |source| ==> source[i] == SourceLine(i, counted[i], IsOversized(counted[i]))
  }

  method NativeSourceLines(raw: string) returns (source: seq<SourceLine>)
    ensures AreSourceLines(source, Counted(Lines(raw)))
  {
    source := [];
    var position := 0;
    var lines := Lines(raw);
    for i := 0 to |lines|
      invariant position == |source| && AreSourceLines(source, Counted(lines[..i]))
    {
      var line := lines[i];
      assert lines[..i + 1] == lines[..i] + [line];
      CountedOfConcat(lines[..i], [line]);
      CheapTestIsSafe(line);
      var oversized := Utf16Length(line) * 3 > NATIVE_RECORD_BYTE_LIMIT && Utf8Length(line) > NATIVE_RECORD_BYTE_LIMIT;
      if !oversized && IsNativeBlank(line) { continue; }
      source := source + [SourceLine(position, line, oversized)];
      position := position + 1;
    }
    assert lines[..|lines|] == lines;
  }

  /** One counted line as JSON; a byte order mark is dropped first. */
  function NativeRecord(line: string, parse: Parser): Option<Json> {
    if IsOversized(line) then None
    else if line != "" && line[0] == BYTE_ORDER_MARK then parse(line[1..])
    else parse(line)
  }

  // ---- where the inherited history ends -----------------------------------------------

  datatype Boundary =
    | NoBoundary
    | OrdinalBoundary(start: nat, paginated: bool)
    | CopiedFork(startRecord: nat)
    | PendingFork

  /** The payload of a record, when it is a record itself. */
  function PayloadOf(record: Json): Option<Json> {
    var payload := Field(record, "payload");
    if payload.Some? && payload.value.Record? then payload else None
  }

  function SessionMeta(record: Option<Json>): Option<Json> {
    if record.Some? && HasText(record.value, "type", "session_meta") then PayloadOf(record.value) else None
  }

  /** The payload of the first line that is not blank, when that is a session_meta. */
  function FirstMeta(lines: seq<string>, parse: Parser): Option<Json> {
    if lines == [] then None
    else if Trim(lines[0]) == "" then FirstMeta(lines[1..], parse)
    else SessionMeta(parse(Trim(lines[0])))
  }

  function NonEmptyText(value: Option<Json>): Option<string> {
    match value
    case Some(String(text)) => if text == "" then None else Some(text)
    case _ => None
  }

  /** The fork's own thread, when the record is the session_meta of a copied fork. */
  function ForkThread(record: Option<Json>): Option<string> {
    match SessionMeta(record)
    case None => None
    case Some(meta) =>
      var id, forkedFrom, base := NonEmptyText(Field(meta, "id")), NonEmptyText(Field(meta, "forked_from_id")), Field(meta, "history_base");
      if id.None? || forkedFrom.None? || forkedFrom == id || (base.Some? && base != Some(Null)) then None else id
  }

  /** A settings event: its thread, or that it names none. */
  function SettingsThread(record: Option<Json>): Option<Option<string>> {
    if record.Some? && HasText(record.value, "type", "event_msg") then
      var payload := PayloadOf(record.value);
      if payload.Some? && HasText(payload.value, "type", "thread_settings_applied")
      then Some(NonEmptyText(Field(payload.value, "thread_id"))) else None
    else None
  }

  /** From a counted line on: the first settings event that names no thread or the own one. */
  function ForkFrom(counted: seq<string>, position: nat, thread: string, parse: Parser): Boundary
    requires position <= |counted|
    decreases |counted| - position
  {
    if position == |counted| then PendingFork
    else match SettingsThread(NativeRecord(counted[position], parse))
      case Some(None) => NoBoundary
      case Some(Some(named)) =>
        if named == thread then CopiedFork(position) else ForkFrom(counted, position + 1, thread, parse)
      case None => ForkFrom(counted, position + 1, thread, parse)
  }

  function CopiedBoundary(counted: seq<string>, parse: Parser): Boundary {
    if counted == [] then NoBoundary
    else match ForkThread(NativeRecord(counted[0], parse))
      case None => NoBoundary
      case Some(thread) => ForkFrom(counted, 1, thread, parse)
  }

  function InheritedBoundary(lines: seq<string>, parse: Parser): Boundary {
    var meta := FirstMeta(lines, parse);
    if meta.Some? && Ordinal(Field(meta.value, "subagent_history_start_ordinal")).Some? then
      OrdinalBoundary(Ordinal(Field(meta.value, "subagent_history_start_ordinal")).value,
                      HasText(meta.value, "history_mode", "paginated"))
    else CopiedBoundary(Counted(lines), parse)
  }

  method FirstSessionMetaPayload(raw: string, parse: Parser) returns (payload: Option<Json>)
    ensures payload == FirstMeta(Lines(raw), parse)
  {
    var lines := Lines(raw);
    for i := 0 to |lines|
      invariant FirstMeta(lines[i..], parse) == FirstMeta(lines, parse)
    {
      assert lines[i..][1..] == lines[i + 1..];
      var trimmed := Trim(lines[i]);
      if trimmed == "" { continue; }
      return SessionMeta(parse(trimmed));
    }
    return None;
  }

  method ReadCopiedForkBoundary(raw: string, parse: Parser) returns (boundary: Boundary)
    ensures boundary == CopiedBoundary(Counted(Lines(raw)), parse)
  {
    var source := NativeSourceLines(raw);
    ghost var counted := Counted(Lines(raw));
    var threadId := None;
    for position := 0 to |source|
      invariant threadId.None? <==> position == 0
      invariant position > 0 ==> threadId == ForkThread(NativeRecord(counted[0], parse))
      invariant position > 0 ==> ForkFrom(counted, position, threadId.value, parse) == CopiedBoundary(counted, parse)
    {
      var line := source[position];
      var record := if line.oversized then None else NativeRecord(line.line, parse);
      if line.position == 0 {
        threadId := ForkThread(record);
        if threadId.None? { return NoBoundary; }
        continue;
      }
      var settings := SettingsThread(record);
      if settings.None? { continue; }
      if settings.value.None? { return NoBoundary; }
      if settings.value == threadId { return CopiedFork(line.position); }
    }
    return if threadId.None? then NoBoundary else PendingFork;
  }

  method ReadCodexInheritedBoundary(raw: string, parse: Parser) returns (boundary: Boundary)
    ensures boundary == InheritedBoundary(Lines(raw), parse)
  {
    var payload := FirstSessionMetaPayload(raw, parse);
    if payload.Some? {
      var start := Ordinal(Field(payload.value, "subagent_history_start_ordinal"));
      if start.Some? {
        return OrdinalBoundary(start.value, HasText(payload.value, "history_mode", "paginated"));
      }
    }
    boundary := ReadCopiedForkBoundary(raw, parse);
  }

  // ---- inherited records --------------------------------------------------------------

  predicate IsInheritedByOrdinal(record: Json, start: nat, paginated: bool) {
    match Ordinal(Field(record, "ordinal"))
    case Some(ordinal) => ordinal < start
    case None => paginated
  }

  predicate IsInherited(record: Json, boundary: Boundary, position: nat) {
    match boundary
    case NoBoundary => false
    case OrdinalBoundary(start, paginated) => IsInheritedByOrdinal(record, start, paginated)
    case CopiedFork(startRecord) => position < startRecord
    case PendingFork => true
  }

  // ---- messages --------------------------------------------------------------------------

  datatype Message = Message(role: string, content: string, tokenCount: nat)

  /** What one line gives: nothing, a message, or an exception that ends the parse. */
  datatype LineResult = Skipped | Found(message: Message) | Thrown

  function TranscriptTokens(text: string): nat {
    var count := (Utf16Length(text) + 3) / 4;
    if count == 0 then 1 else count
  }

  function BlockText(block: Json): string {
    if HasText(block, "type", "input_text") || HasText(block, "type", "output_text") || HasText(block, "type", "text") then
      match Field(block, "text") case Some(String(text)) => text case _ => ""
    else ""
  }

  function BlockTexts(items: seq<Json>): seq<string> {
    if items == [] then []
    else if BlockText(items[0]) == "" then BlockTexts(items[1..])
    else [BlockText(items[0])] + BlockTexts(items[1..])
  }

  /** The text of a content; reading the type of a null block throws. */
  function ExtractCodexText(content: Option<Json>): Option<string> {
    match content
    case Some(String(text)) => Some(Trim(text))
    case Some(Array(items)) => if Null in items then None else Some(Trim(Join(BlockTexts(items))))
    case _ => Some("")
  }

  /** The user or assistant message a response_item carries, if any. */
  function MessageOf(record: Json): LineResult {
    var payload := PayloadOf(record);
    if payload.None? || !HasText(payload.value, "type", "message") then Skipped
    else Spoken(NonEmptyText(Field(payload.value, "role")), ExtractCodexText(Field(payload.value, "content")))
  }

  /** A message of a role; a content that cannot be read throws. */
  function Spoken(role: Option<string>, content: Option<string>): LineResult {
    if role != Some("user") && role != Some("assistant") then Skipped
    else if content.None? then Thrown
    else if Trim(content.value) == "" then Skipped
    else Found(Message(role.value, content.value, TranscriptTokens(content.value)))
  }

  /** A line of the plain parse. */
  function PlainLine(line: string, boundary: Boundary, parse: Parser): LineResult {
    var trimmed := Trim(line);
    if trimmed == "" then Skipped
    else match parse(trimmed)
      case None => Skipped
      case Some(record) => PlainRecord(record, boundary)
  }

  /** The JSON null has no type to read. */
  function PlainRecord(record: Json, boundary: Boundary): LineResult {
    if record == Null then Thrown
    else if !HasText(record, "type", "response_item") then Skipped
    else if boundary.OrdinalBoundary? && IsInheritedByOrdinal(record, boundary.start, boundary.paginated) then Skipped
    else MessageOf(record)
  }

  /** A counted line of a copied fork's parse. */
  function ForkLine(line: string, position: nat, boundary: Boundary, parse: Parser): LineResult {
    if IsInherited(Null, boundary, position) then Skipped
    else match NativeRecord(line, parse)
      case Some(Record(fields)) =>
        if HasText(Record(fields), "type", "response_item") then MessageOf(Record(fields)) else Skipped
      case _ => Skipped
  }

  datatype Parsed = Parsed(messages: seq<Message>) | Threw

  /** The messages of line results in order, unless a line throws. */
  function Collect(results: seq<LineResult>): Parsed {
    if results == [] then Parsed([])
    else
      var rest, last := Collect(results[..|results| - 1]), results[|results| - 1];
      if rest == Threw || last == Thrown then Threw
      else if last == Skipped then rest
      else Parsed(rest.messages + [last.message])
  }

  function PlainResults(lines: seq<string>, boundary: Boundary, parse: Parser): seq<LineResult> {
    MapLines(line => PlainLine(line, boundary, parse), lines)
  }

  function ForkResults(counted: seq<string>, boundary: Boundary, parse: Parser): seq<LineResult> {
    seq(|counted|, i requires 0 <= i < |counted| => ForkLine(counted[i], i, boundary, parse))
  }

  function Parse(lines: seq<string>, boundary: Boundary, parse: Parser): Parsed {
    if boundary.CopiedFork? || boundary.PendingFork? then Collect(ForkResults(Counted(lines), boundary, parse))
    else Collect(PlainResults(lines, boundary, parse))
  }

  function ParseText(raw: string, excludeInherited: bool, parse: Parser): Parsed {
    var lines := Lines(raw);
    Parse(lines, if excludeInherited then InheritedBoundary(lines, parse) else NoBoundary, parse)
  }

  lemma {:induction false} ThrownStays(results: seq<LineResult>, i: nat)
    requires i <= |results| && Collect(results[..i]) == Threw
    ensures Collect(results) == Threw
    decreases |results|
  {
    if i == |results| {
      assert results[..i] == results;
    } else {
      assert results[..|results| - 1][..i] == results[..i];
      ThrownStays(results[..|results| - 1], i);
    }
  }

  /** One more result. */
  lemma CollectNext(results: seq<LineResult>, i: nat, messages: seq<Message>)
    requires i < |results| && Collect(results[..i]) == Parsed(messages)
    ensures results[i] == Thrown ==> Collect(results) == Threw
    ensures results[i] == Skipped ==> Collect(results[..i + 1]) == Parsed(messages)
    ensures results[i].Found? ==> Collect(results[..i + 1]) == Parsed(messages + [results[i].message])
  {
    assert results[..i + 1][..i] == results[..i];
    if results[i] == Thrown {
      ThrownStays(results, i + 1);
    }
  }

  method ReadForkLine(line: SourceLine, boundary: Boundary, parse: Parser) returns (result: LineResult)
    requires line.oversized == IsOversized(line.line)
    ensures result == ForkLine(line.line, line.position, boundary, parse)
  {
    if IsInherited(Null, boundary, line.position) { return Skipped; }
    var record := if line.oversized then None else NativeRecord(line.line, parse);
    if record.None? || !record.value.Record? { return Skipped; }
    if !HasText(record.value, "type", "response_item") { return Skipped; }
    return MessageOf(record.value);
  }

  method ParseCodexCopiedForkMessages(raw: string, boundary: Boundary, parse: Parser) returns (parsed: Parsed)
    requires boundary.CopiedFork? || boundary.PendingFork?
    ensures parsed == Parse(Lines(raw), boundary, parse)
  {
    var messages: seq<Message> := [];
    var source := NativeSourceLines(raw);
    ghost var results := ForkResults(Counted(Lines(raw)), boundary, parse);
    for i := 0 to |source|
      invariant Collect(results[..i]) == Parsed(messages)
    {
      var result := ReadForkLine(source[i], boundary, parse);
      assert results[i] == result;
      CollectNext(results, i, messages);
      if result.Thrown? { return Threw; }
      if result.Found? { messages := messages + [result.message]; }
    }
    assert results[..|source|] == results;
    return Parsed(messages);
  }

  method ReadPlainLine(line: string, boundary: Boundary, parse: Parser) returns (result: LineResult)
    ensures result == PlainLine(line, boundary, parse)
  {
    var trimmed := Trim(line);
    if trimmed == "" { return Skipped; }
    var record := parse(trimmed);
    if record.None? { return Skipped; }
    if record.value == Null { return Thrown; }
    if !HasText(record.value, "type", "response_item") { return Skipped; }
    if boundary.OrdinalBoundary? {
      if IsInheritedByOrdinal(record.value, boundary.start, boundary.paginated) { return Skipped; }
    }
    return MessageOf(record.value);
  }

  method ParseCodexTranscriptText(raw: string, excludeInherited: bool, parse: Parser) returns (parsed: Parsed)
    ensures parsed == ParseText(raw, excludeInherited, parse)
  {
    var messages: seq<Message> := [];
    var boundary := NoBoundary;
    if excludeInherited { boundary := ReadCodexInheritedBoundary(raw, parse); }
    if boundary.CopiedFork? || boundary.PendingFork? {
      parsed := ParseCodexCopiedForkMessages(raw, boundary, parse);
      return;
    }
    var lines := Lines(raw);
    ghost var results := PlainResults(lines, boundary, parse);
    for i := 0 to |lines|
      invariant Collect(results[..i]) == Parsed(messages)
    {
      var result := ReadPlainLine(lines[i], boundary, parse);
      assert results[i] == result;
      CollectNext(results, i, messages);
      if result.Thrown? { return Threw; }
      if result.Found? { messages := messages + [result.message]; }
    }
    assert results[..|lines|] == results;
    return Parsed(messages);
  }
}
