/** A growing rollout: appended lines only append messages, and a fork boundary that was
    determined never moves (src/codex-transcript.ts, lines 155-163, 178-234, 325-372). */
module RolloutGrowth {
  import opened Options
  import opened TextLines
  import opened Json
  import opened RolloutParse
  import opened Sequences

  // ---- lists of lines ------------------------------------------------------------------

  predicate Terminated(raw: string) {
    raw == "" || raw[|raw| - 1] == NEWLINE
  }

  /** The lines a terminated text gives to every longer text. */
  function Whole(raw: string): seq<string> {
    Lines(raw)[..|Lines(raw)| - 1]
  }

  lemma TerminatedLines(raw: string, more: string)
    requires Terminated(raw)
    ensures Lines(raw) == Whole(raw) + [""] && Lines(raw + more) == Whole(raw) + Lines(more)
  {
    if raw == "" {
      assert raw + more == more;
      assert Whole(raw) == [];
    } else {
      var body := raw[..|raw| - 1];
      assert raw == body + [NEWLINE] + "" && raw + more == body + [NEWLINE] + more;
      LinesOfConcat(body, "");
      LinesOfConcat(body, more);
      assert Whole(raw) == Lines(body);
    }
  }

  lemma EmptyLineIsBlank()
    ensures Trim("") == "" && !IsCounted("") && Counted([""]) == []
  {
    assert Utf8Length("") == 0;
  }

  // ---- the boundary ------------------------------------------------------------------------

  predicate NoneVisible(lines: seq<string>) {
    forall line <- lines :: Trim(line) == ""
  }

  lemma {:induction false} FirstMetaOfConcat(a: seq<string>, b: seq<string>, parse: Parser)
    ensures FirstMeta(a + b, parse) == if NoneVisible(a) then FirstMeta(b, parse) else FirstMeta(a, parse)
  {
    if a == [] {
      assert a + b == b;
    } else {
      assert (a + b)[1..] == a[1..] + b;
      assert a == [a[0]] + a[1..];
      if Trim(a[0]) == "" {
        FirstMetaOfConcat(a[1..], b, parse);
      }
    }
  }

  /** How a fork's boundary may change when more lines are counted. */
  predicate Advances(before: Boundary, after: Boundary, counted: nat) {
    match before
    case PendingFork => after == PendingFork || after == NoBoundary || (after.CopiedFork? && counted <= after.startRecord)
    case _ => after == before
  }

  lemma {:induction false} ForkFromAdvances(a: seq<string>, b: seq<string>, position: nat, thread: string, parse: Parser)
    requires position <= |a|
    ensures Advances(ForkFrom(a, position, thread, parse), ForkFrom(a + b, position, thread, parse), |a|)
    decreases |a| - position
  {
    if position < |a| {
      assert (a + b)[position] == a[position];
      ForkFromAdvances(a, b, position + 1, thread, parse);
    } else {
      ForkFromStartsLate(a + b, position, thread, parse);
    }
  }

  lemma {:induction false} ForkFromStartsLate(counted: seq<string>, position: nat, thread: string, parse: Parser)
    requires position <= |counted|
    ensures
      var boundary := ForkFrom(counted, position, thread, parse);
      boundary == PendingFork || boundary == NoBoundary
      || (boundary.CopiedFork? && position <= boundary.startRecord < |counted|)
    decreases |counted| - position
  {
    if position < |counted| {
      ForkFromStartsLate(counted, position + 1, thread, parse);
    }
  }

  lemma CopiedAdvances(a: seq<string>, b: seq<string>, parse: Parser)
    requires a != []
    ensures Advances(CopiedBoundary(a, parse), CopiedBoundary(a + b, parse), |a|)
  {
    assert (a + b)[0] == a[0];
    var thread := ForkThread(NativeRecord(a[0], parse));
    if thread.Some? {
      ForkFromAdvances(a, b, 1, thread.value, parse);
    }
  }

  lemma {:induction false} TrimStartOfNativeBlank(line: string)
    requires IsNativeBlank(line)
    ensures TrimStart(line) == ""
  {
    if line != "" {
      assert IsNativeBlank(line[1..]) by {
        forall c <- line[1..] ensures c == '\t' || c == '\r' || c == ' ' { assert c in line; }
      }
      assert line[0] in line && IsSpace(line[0]);
      TrimStartOfNativeBlank(line[1..]);
    }
  }

  /** A line that is not blank is counted, since the native reader calls fewer lines blank. */
  lemma VisibleIsCounted(line: string)
    requires Trim(line) != ""
    ensures IsCounted(line)
  {
    if IsNativeBlank(line) {
      TrimStartOfNativeBlank(line);
    }
  }

  lemma {:induction false} VisibleLineCounted(lines: seq<string>)
    requires !NoneVisible(lines)
    ensures Counted(lines) != []
  {
    assert lines == [lines[0]] + lines[1..];
    if Trim(lines[0]) != "" {
      VisibleIsCounted(lines[0]);
    } else {
      VisibleLineCounted(lines[1..]);
    }
  }

  /** Once a line shows, lines that follow only resolve a pending fork. */
  lemma BoundaryAdvances(a: seq<string>, b: seq<string>, parse: Parser)
    requires !NoneVisible(a)
    ensures Advances(InheritedBoundary(a, parse), InheritedBoundary(a + b, parse), |Counted(a)|)
  {
    FirstMetaOfConcat(a, b, parse);
    VisibleLineCounted(a);
    CountedOfConcat(a, b);
    CopiedAdvances(Counted(a), Counted(b), parse);
  }

  /** White space alone is no JSON text. */
  ghost predicate BlankIsNotJson(parse: Parser) {
    forall text: string | Trim(text) == "" :: parse(text) == None
  }

  lemma {:induction false} TrimStartBlank(line: string)
    requires TrimStart(line) == ""
    ensures forall c <- line :: IsSpace(c)
  {
    if line != "" {
      TrimStartBlank(line[1..]);
    }
  }

  lemma {:induction false} SpacesTrimAway(line: string)
    requires forall c <- line :: IsSpace(c)
    ensures Trim(line) == ""
  {
    if line != "" {
      assert line[0] in line;
      assert forall c <- line[1..] :: c in line;
      SpacesTrimAway(line[1..]);
    }
  }

  lemma {:induction false} TrimEndBlank(line: string)
    requires TrimEnd(line) == ""
    ensures forall c <- line :: IsSpace(c)
  {
    if line != "" {
      TrimEndBlank(line[..|line| - 1]);
    }
  }

  lemma BlankHasNoRecord(line: string, parse: Parser)
    requires BlankIsNotJson(parse) && Trim(line) == ""
    ensures NativeRecord(line, parse) == None
  {
    var t := TrimStart(line);
    assert t == "" by {
      if t != "" {
        assert t[0] in t;
        TrimEndBlank(t);
      }
    }
    TrimStartBlank(line);
    if line != "" {
      assert forall c <- line[1..] :: c in line;
      SpacesTrimAway(line[1..]);
    }
  }

  lemma {:induction false} CountedOfBlank(lines: seq<string>)
    requires NoneVisible(lines)
    ensures NoneVisible(Counted(lines))
  {
    if lines != [] {
      CountedOfBlank(lines[1..]);
    }
  }

  lemma {:induction false} BlankHasNoMeta(lines: seq<string>, parse: Parser)
    requires NoneVisible(lines)
    ensures FirstMeta(lines, parse) == None
  {
    if lines != [] {
      BlankHasNoMeta(lines[1..], parse);
    }
  }

  lemma BlankHasNoBoundary(lines: seq<string>, parse: Parser)
    requires BlankIsNotJson(parse) && NoneVisible(lines)
    ensures InheritedBoundary(lines, parse) == NoBoundary
  {
    BlankHasNoMeta(lines, parse);
    assert NoneVisible(Counted(lines)) by { CountedOfBlank(lines); }
    BlankHasNoFork(Counted(lines), parse);
  }

  lemma BlankHasNoFork(counted: seq<string>, parse: Parser)
    requires BlankIsNotJson(parse) && NoneVisible(counted)
    ensures CopiedBoundary(counted, parse) == NoBoundary
  {
    if counted != [] {
      assert NativeRecord(counted[0], parse) == None by { BlankHasNoRecord(counted[0], parse); }
    }
  }

  lemma EmptyLineKeepsBoundary(whole: seq<string>, parse: Parser)
    ensures InheritedBoundary(whole + [""], parse) == InheritedBoundary(whole, parse)
  {
    assert Counted(whole + [""]) == Counted(whole) by {
      EmptyLineIsBlank();
      CountedOfConcat(whole, [""]);
    }
    assert FirstMeta(whole + [""], parse) == FirstMeta(whole, parse) by {
      EmptyLineIsBlank();
      FirstMetaOfConcat(whole, [""], parse);
      BlankHasNoMeta([""], parse);
      if NoneVisible(whole) { BlankHasNoMeta(whole, parse); }
    }
  }

  /** The boundary of a terminated text against that of any longer text: a determined one
      stays, a pending one resolves beyond the text or turns out not to be a fork. */
  lemma DeterminedBoundaryStays(raw: string, more: string, parse: Parser)
    requires Terminated(raw) && BlankIsNotJson(parse)
    ensures
      NoneVisible(Lines(raw))
      || Advances(InheritedBoundary(Lines(raw), parse), InheritedBoundary(Lines(raw + more), parse), |Counted(Lines(raw))|)
    ensures NoneVisible(Lines(raw)) ==> InheritedBoundary(Lines(raw), parse) == NoBoundary
  {
    var whole := Whole(raw);
    TerminatedLines(raw, more);
    EmptyLineIsBlank();
    EmptyLineKeepsBoundary(whole, parse);
    CountedOfConcat(whole, [""]);
    if NoneVisible(whole) {
      BlankHasNoBoundary(whole, parse);
    } else {
      BoundaryAdvances(whole, Lines(more), parse);
    }
  }

  // ---- the messages -------------------------------------------------------------------------

  /** A parse extends another: it threw, or it has the other's messages and then its own. */
  predicate ExtendsParse(longer: Parsed, shorter: Parsed) {
    longer == Threw || (shorter.Parsed? && shorter.messages <= longer.messages)
  }

  lemma {:induction false} CollectExtends(short: seq<LineResult>, long: seq<LineResult>)
    requires |short| <= |long| && long[..|short|] == short
    ensures ExtendsParse(Collect(long), Collect(short))
    decreases |long|
  {
    if |short| == |long| {
      assert long == short;
    } else {
      assert Init(long)[..|short|] == short;
      CollectExtends(short, Init(long));
    }
  }

  lemma {:induction false} CollectSkipped(results: seq<LineResult>)
    requires forall i :: 0 <= i < |results| ==> results[i] == Skipped
    ensures Collect(results) == Parsed([])
  {
    if results != [] {
      CollectSkipped(results[..|results| - 1]);
    }
  }

  lemma ForkExtends(a: seq<string>, b: seq<string>, boundary: Boundary, parse: Parser)
    ensures ExtendsParse(Collect(ForkResults(a + b, boundary, parse)), Collect(ForkResults(a, boundary, parse)))
  {
    var short, long := ForkResults(a, boundary, parse), ForkResults(a + b, boundary, parse);
    forall i | 0 <= i < |a| ensures long[i] == short[i] {
      assert (a + b)[i] == a[i];
    }
    CollectExtends(short, long);
  }

  lemma PlainExtends(a: seq<string>, b: seq<string>, boundary: Boundary, parse: Parser)
    ensures ExtendsParse(Collect(PlainResults(a + b, boundary, parse)), Collect(PlainResults(a, boundary, parse)))
  {
    MapOfConcat(line => PlainLine(line, boundary, parse), a, b);
    CollectExtends(PlainResults(a, boundary, parse), PlainResults(a + b, boundary, parse));
  }

  lemma SameBoundaryExtends(a: seq<string>, b: seq<string>, boundary: Boundary, parse: Parser)
    ensures ExtendsParse(Parse(a + b, boundary, parse), Parse(a, boundary, parse))
  {
    CountedOfConcat(a, b);
    ForkExtends(Counted(a), Counted(b), boundary, parse);
    PlainExtends(a, b, boundary, parse);
  }

  lemma EmptyLineKeepsParse(whole: seq<string>, boundary: Boundary, parse: Parser)
    ensures Parse(whole + [""], boundary, parse) == Parse(whole, boundary, parse)
  {
    EmptyLineIsBlank();
    if boundary.CopiedFork? || boundary.PendingFork? {
      CountedOfConcat(whole, [""]);
      assert Counted(whole) + [] == Counted(whole);
    } else {
      var results := PlainResults(whole, boundary, parse);
      assert PlainResults(whole + [""], boundary, parse) == results + [Skipped];
      assert (results + [Skipped])[..|results|] == results;
    }
  }

  lemma PendingGivesNothing(lines: seq<string>, parse: Parser)
    ensures Parse(lines, PendingFork, parse) == Parsed([])
  {
    CollectSkipped(ForkResults(Counted(lines), PendingFork, parse));
  }

  lemma BlankGivesNothing(lines: seq<string>, parse: Parser)
    requires NoneVisible(lines)
    ensures Parse(lines, NoBoundary, parse) == Parsed([])
  {
    CollectSkipped(PlainResults(lines, NoBoundary, parse));
  }

  lemma LongerExtends(raw: string, more: string, excludeInherited: bool, parse: Parser)
    requires Terminated(raw) && BlankIsNotJson(parse)
    ensures ExtendsParse(ParseText(raw + more, excludeInherited, parse), ParseText(raw, excludeInherited, parse))
  {
    var whole := Whole(raw);
    TerminatedLines(raw, more);
    var before, after := BoundaryOf(raw, excludeInherited, parse), BoundaryOf(raw + more, excludeInherited, parse);
    DeterminedBoundaryStays(raw, more, parse);
    if before == PendingFork {
      PendingGivesNothing(Lines(raw), parse);
    } else if before != after {
      BlankGivesNothing(Lines(raw), parse);
    } else {
      EmptyLineKeepsParse(whole, before, parse);
      SameBoundaryExtends(whole, Lines(more), before, parse);
    }
  }

  /** The boundary a parse applies. */
  function BoundaryOf(raw: string, excludeInherited: bool, parse: Parser): Boundary {
    if excludeInherited then InheritedBoundary(Lines(raw), parse) else NoBoundary
  }

  // ---- when the parse throws ------------------------------------------------------------------

  /** A value whose fields the parse cannot read: the JSON null, or a user or assistant
      message with a null among its content blocks. */
  predicate HasNull(record: Json) {
    record == Null
    || (HasText(record, "type", "response_item") && PayloadOf(record).Some? && HasNullBlock(PayloadOf(record).value))
  }

  predicate HasNullBlock(payload: Json) {
    var content := Field(payload, "content");
    HasText(payload, "type", "message") && (HasText(payload, "role", "user") || HasText(payload, "role", "assistant"))
    && content.Some? && content.value.Array? && Null in content.value.items
  }

  lemma MessageThrows(record: Json)
    ensures MessageOf(record) == Thrown <==> PayloadOf(record).Some? && HasNullBlock(PayloadOf(record).value)
  {
    var payload := PayloadOf(record);
    if payload.Some? {
      RoleText(payload.value, "user");
      RoleText(payload.value, "assistant");
      ExtractThrows(Field(payload.value, "content"));
    }
  }

  lemma RoleText(payload: Json, role: string)
    requires role != ""
    ensures NonEmptyText(Field(payload, "role")) == Some(role) <==> HasText(payload, "role", role)
  {
  }

  lemma ExtractThrows(content: Option<Json>)
    ensures ExtractCodexText(content) == None <==> content.Some? && content.value.Array? && Null in content.value.items
  {
  }

  /** The value is such a one, and it is not skipped as inherited by its ordinal; the JSON
      null has no ordinal that could be read. */
  predicate StopsParse(record: Json, boundary: Boundary) {
    HasNull(record)
    && (boundary.OrdinalBoundary? && record != Null ==>
          !IsInheritedByOrdinal(record, boundary.start, boundary.paginated))
  }

  predicate LineHasNull(line: string, boundary: Boundary, parse: Parser) {
    var trimmed := Trim(line);
    trimmed != "" && parse(trimmed).Some? && StopsParse(parse(trimmed).value, boundary)
  }

  /** The counted line is a record with a null block; other values are skipped. */
  predicate CountedHasNull(line: string, parse: Parser) {
    var record := NativeRecord(line, parse);
    record.Some? && record.value.Record? && HasNull(record.value)
  }

  /** Some line stops the parse. */
  predicate Unreadable(lines: seq<string>, boundary: Boundary, parse: Parser) {
    match boundary
    case CopiedFork(start) => exists i :: start <= i < |Counted(lines)| && CountedHasNull(Counted(lines)[i], parse)
    case PendingFork => false
    case _ => exists line <- lines :: LineHasNull(line, boundary, parse)
  }

  lemma PlainRecordThrows(record: Json, boundary: Boundary)
    ensures PlainRecord(record, boundary) == Thrown <==> StopsParse(record, boundary)
  {
    MessageThrows(record);
  }

  lemma PlainLineThrows(line: string, boundary: Boundary, parse: Parser)
    ensures PlainLine(line, boundary, parse) == Thrown <==> LineHasNull(line, boundary, parse)
  {
    var record := parse(Trim(line));
    if record.Some? {
      PlainRecordThrows(record.value, boundary);
    }
  }

  lemma ForkLineThrows(line: string, position: nat, start: nat, parse: Parser)
    ensures ForkLine(line, position, CopiedFork(start), parse) == Thrown <==> start <= position && CountedHasNull(line, parse)
  {
    var record := NativeRecord(line, parse);
    if record.Some? {
      MessageThrows(record.value);
    }
  }

  lemma {:induction false} CollectThrows(results: seq<LineResult>)
    ensures Collect(results) == Threw <==> Thrown in results
    decreases |results|
  {
    if results != [] {
      CollectThrows(results[..|results| - 1]);
      assert results == results[..|results| - 1] + [results[|results| - 1]];
    }
  }

  lemma PlainThrows(lines: seq<string>, boundary: Boundary, parse: Parser)
    ensures Thrown in PlainResults(lines, boundary, parse) <==> exists line <- lines :: LineHasNull(line, boundary, parse)
  {
    var results := PlainResults(lines, boundary, parse);
    forall i | 0 <= i < |lines| ensures results[i] == Thrown <==> LineHasNull(lines[i], boundary, parse) {
      PlainLineThrows(lines[i], boundary, parse);
    }
  }

  lemma ForkThrows(counted: seq<string>, start: nat, parse: Parser)
    ensures
      Thrown in ForkResults(counted, CopiedFork(start), parse)
      <==> exists i :: start <= i < |counted| && CountedHasNull(counted[i], parse)
  {
    var results := ForkResults(counted, CopiedFork(start), parse);
    forall i | 0 <= i < |counted| ensures results[i] == Thrown <==> start <= i && CountedHasNull(counted[i], parse) {
      ForkLineThrows(counted[i], i, start, parse);
    }
  }

  /** Exactly when a parse throws, for every boundary. */
  lemma ParseThrows(lines: seq<string>, boundary: Boundary, parse: Parser)
    ensures Parse(lines, boundary, parse) == Threw <==> Unreadable(lines, boundary, parse)
  {
    match boundary
    case CopiedFork(start) =>
      CollectThrows(ForkResults(Counted(lines), boundary, parse));
      ForkThrows(Counted(lines), start, parse);
    case PendingFork =>
      PendingGivesNothing(lines, parse);
    case _ =>
      CollectThrows(PlainResults(lines, boundary, parse));
      PlainThrows(lines, boundary, parse);
  }

  /** Whatever is appended to a terminated rollout only appends messages, with and without
      its inherited history, except that a line no parse can read ends the parse. */
  lemma AppendOnly(raw: string, more: string, excludeInherited: bool, parse: Parser)
    requires Terminated(raw) && BlankIsNotJson(parse)
    ensures
      var shorter, longer := ParseText(raw, excludeInherited, parse), ParseText(raw + more, excludeInherited, parse);
      if Unreadable(Lines(raw + more), BoundaryOf(raw + more, excludeInherited, parse), parse) then longer == Threw
      else shorter.Parsed? && longer.Parsed? && shorter.messages <= longer.messages
  {
    LongerExtends(raw, more, excludeInherited, parse);
    ParseThrows(Lines(raw + more), BoundaryOf(raw + more, excludeInherited, parse), parse);
  }

  /** The parse is documented to give no messages on any parse error, yet a line that is
      the JSON null throws. */
  lemma NullLineThrows(parse: Parser)
    requires parse("null") == Some(Null)
    ensures ParseText("null", false, parse) == Threw
  {
    LinesOfOneLine("null");
    assert Trim("null") == "null" by {
      assert !IsSpace("null"[0]) && !IsSpace("null"[3]);
    }
    assert LineHasNull(Lines("null")[0], NoBoundary, parse);
    ParseThrows(Lines("null"), NoBoundary, parse);
  }
}
