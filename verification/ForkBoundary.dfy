/** Where a copied fork's own history begins (src/codex-transcript.ts, lines 140-232). */
module ForkBoundary {
  import opened Options
  import opened TextLines
  import opened Json
  import opened RolloutParse

  predicate Says(fields: map<string, Json>, name: string, text: string) {
    name in fields && fields[name] == String(text)
  }

  predicate IsNonEmptyText(value: Json) {
    match value case String(text) => text != "" case _ => false
  }

  /** The first record of a fork that copied another thread into its own rollout. */
  predicate IsFork(record: map<string, Json>, thread: string) {
    && Says(record, "type", "session_meta") && "payload" in record && record["payload"].Record?
    && var meta := record["payload"].fields;
       && thread != "" && Says(meta, "id", thread)
       && "forked_from_id" in meta && IsNonEmptyText(meta["forked_from_id"]) && meta["forked_from_id"] != String(thread)
       && ("history_base" in meta ==> meta["history_base"] == Null)
  }

  /** The settings of a thread were applied. */
  predicate IsSettings(record: map<string, Json>) {
    && Says(record, "type", "event_msg") && "payload" in record && record["payload"].Record?
    && Says(record["payload"].fields, "type", "thread_settings_applied")
  }

  predicate NamesThread(record: map<string, Json>) {
    && IsSettings(record)
    && "thread_id" in record["payload"].fields && IsNonEmptyText(record["payload"].fields["thread_id"])
  }

  predicate Names(record: map<string, Json>, thread: string) {
    NamesThread(record) && record["payload"].fields["thread_id"] == String(thread)
  }

  // ---- what a line is -------------------------------------------------------------------

  predicate OpensFork(line: string, thread: string, parse: Parser) {
    match NativeRecord(line, parse) case Some(Record(record)) => IsFork(record, thread) case _ => false
  }

  predicate OpensOwn(line: string, thread: string, parse: Parser) {
    match NativeRecord(line, parse) case Some(Record(record)) => Names(record, thread) case _ => false
  }

  /** A settings event without a thread leaves the fork in doubt. */
  predicate Doubts(line: string, parse: Parser) {
    match NativeRecord(line, parse) case Some(Record(record)) => IsSettings(record) && !NamesThread(record) case _ => false
  }

  lemma {:induction false} ForkThreadIs(record: Option<Json>, thread: string)
    ensures ForkThread(record) == Some(thread)
        <==> match record case Some(Record(fields)) => IsFork(fields, thread) case _ => false
  {
    match record
    case Some(Record(fields)) =>
      if "payload" in fields && fields["payload"].Record? { assert PayloadOf(Record(fields)) == Some(fields["payload"]); }
    case _ =>
  }

  lemma {:induction false} SettingsAre(record: Option<Json>, thread: string)
    ensures SettingsThread(record) == Some(Some(thread))
        <==> match record case Some(Record(fields)) => Names(fields, thread) case _ => false
    ensures SettingsThread(record) == Some(None)
        <==> match record case Some(Record(fields)) => IsSettings(fields) && !NamesThread(fields) case _ => false
  {
    match record
    case Some(Record(fields)) =>
      if "payload" in fields && fields["payload"].Record? { assert PayloadOf(Record(fields)) == Some(fields["payload"]); }
    case _ =>
  }

  // ---- where the own history begins ---------------------------------------------------------

  /** No line before the given one, the first aside, decides. */
  predicate Undecided(counted: seq<string>, from: nat, end: nat, thread: string, parse: Parser) {
    end <= |counted| && forall k :: from <= k < end ==> !OpensOwn(counted[k], thread, parse) && !Doubts(counted[k], parse)
  }

  /** The first deciding line from a position on: the own thread's, one in doubt, or none. */
  predicate Decides(boundary: Boundary, counted: seq<string>, from: nat, thread: string, parse: Parser) {
    match boundary
    case CopiedFork(k) => from <= k < |counted| && OpensOwn(counted[k], thread, parse) && Undecided(counted, from, k, thread, parse)
    case PendingFork => Undecided(counted, from, |counted|, thread, parse)
    case NoBoundary =>
      exists k :: from <= k < |counted| && Doubts(counted[k], parse) && Undecided(counted, from, k, thread, parse)
    case OrdinalBoundary(_, _) => false
  }

  lemma {:induction false} ForkFromDecides(counted: seq<string>, from: nat, thread: string, parse: Parser)
    requires from <= |counted|
    ensures Decides(ForkFrom(counted, from, thread, parse), counted, from, thread, parse)
    decreases |counted| - from
  {
    if from < |counted| {
      var record := NativeRecord(counted[from], parse);
      SettingsAre(record, thread);
      if SettingsThread(record).Some? && SettingsThread(record).value.Some? {
        SettingsAre(record, SettingsThread(record).value.value);
      }
      if SettingsThread(record) == Some(None) {
        assert Undecided(counted, from, from, thread, parse);
      } else if SettingsThread(record) != Some(Some(thread)) {
        ForkFromDecides(counted, from + 1, thread, parse);
        LaterDecides(ForkFrom(counted, from + 1, thread, parse), counted, from, thread, parse);
      }
    }
  }

  lemma {:induction false} LaterDecides(boundary: Boundary, counted: seq<string>, from: nat, thread: string, parse: Parser)
    requires from < |counted| && Decides(boundary, counted, from + 1, thread, parse)
    requires !OpensOwn(counted[from], thread, parse) && !Doubts(counted[from], parse)
    ensures Decides(boundary, counted, from, thread, parse)
  {
    if boundary == NoBoundary {
      var k :| from + 1 <= k < |counted| && Doubts(counted[k], parse) && Undecided(counted, from + 1, k, thread, parse);
      assert Undecided(counted, from, k, thread, parse);
    }
  }

  /** Only one boundary decides. */
  lemma {:induction false} DecidesOnce(a: Boundary, b: Boundary, counted: seq<string>, from: nat, thread: string, parse: Parser)
    requires Decides(a, counted, from, thread, parse) && Decides(b, counted, from, thread, parse)
    ensures a == b
  {
  }

  /** A fork's own history begins at the first line that applies its own settings, provided
      no settings without a thread come before; until such a line is there all is inherited. */
  lemma {:induction false} ForkBoundaryIs(counted: seq<string>, thread: string, parse: Parser)
    requires counted != [] && OpensFork(counted[0], thread, parse)
    ensures Decides(CopiedBoundary(counted, parse), counted, 1, thread, parse)
    ensures forall other | Decides(other, counted, 1, thread, parse) :: other == CopiedBoundary(counted, parse)
  {
    ForkThreadIs(NativeRecord(counted[0], parse), thread);
    ForkFromDecides(counted, 1, thread, parse);
    forall other | Decides(other, counted, 1, thread, parse) ensures other == CopiedBoundary(counted, parse) {
      DecidesOnce(other, CopiedBoundary(counted, parse), counted, 1, thread, parse);
    }
  }

  /** Any other rollout is no copied fork. */
  lemma {:induction false} NoForkNoBoundary(counted: seq<string>, parse: Parser)
    requires counted == [] || forall thread: string :: !OpensFork(counted[0], thread, parse)
    ensures CopiedBoundary(counted, parse) == NoBoundary
  {
    if counted != [] && ForkThread(NativeRecord(counted[0], parse)).Some? {
      var thread := ForkThread(NativeRecord(counted[0], parse)).value;
      ForkThreadIs(NativeRecord(counted[0], parse), thread);
      assert OpensFork(counted[0], thread, parse);
    }
  }

  /** Of a fork the items before the boundary are inherited and the others are its own. */
  lemma {:induction false} OwnItemsCount(line: string, position: nat, start: nat, record: map<string, Json>, parse: Parser)
    requires NativeRecord(line, parse) == Some(Record(record)) && Says(record, "type", "response_item")
    ensures ForkLine(line, position, CopiedFork(start), parse) == if position < start then Skipped else MessageOf(Record(record))
    ensures ForkLine(line, position, PendingFork, parse) == Skipped
  {
  }

  // ---- the ordinal of a subagent ----------------------------------------------------------------

  /** The first record of a subagent that starts at an ordinal. */
  predicate IsSubagent(record: map<string, Json>, start: nat, paginated: bool) {
    && Says(record, "type", "session_meta") && "payload" in record && record["payload"].Record?
    && var meta := record["payload"].fields;
       && "subagent_history_start_ordinal" in meta && meta["subagent_history_start_ordinal"] == Number(start as real)
       && start <= 9007199254740991 && paginated == Says(meta, "history_mode", "paginated")
  }

  predicate FirstIs(lines: seq<string>, k: nat) {
    k < |lines| && Trim(lines[k]) != "" && forall i :: 0 <= i < k ==> Trim(lines[i]) == ""
  }

  lemma {:induction false} FirstMetaIs(lines: seq<string>, k: nat, parse: Parser)
    requires FirstIs(lines, k)
    ensures FirstMeta(lines, parse) == SessionMeta(parse(Trim(lines[k])))
  {
    if k > 0 {
      assert FirstIs(lines[1..], k - 1);
      FirstMetaIs(lines[1..], k - 1, parse);
    }
  }

  lemma {:induction false} SubagentMeta(record: map<string, Json>, start: nat, paginated: bool)
    ensures
      var meta := SessionMeta(Some(Record(record)));
      IsSubagent(record, start, paginated)
      <==> meta.Some? && Ordinal(Field(meta.value, "subagent_history_start_ordinal")) == Some(start)
           && paginated == HasText(meta.value, "history_mode", "paginated")
  {
  }

  /** An ordinal in the first record that is not blank is the boundary and wins over a copied
      fork; without one the boundary is that of a copied fork. */
  lemma {:induction false} SubagentBoundaryIs(lines: seq<string>, k: nat, record: map<string, Json>, start: nat, paginated: bool,
                                              parse: Parser)
    requires FirstIs(lines, k) && parse(Trim(lines[k])) == Some(Record(record))
    ensures InheritedBoundary(lines, parse) == OrdinalBoundary(start, paginated) <==> IsSubagent(record, start, paginated)
    ensures InheritedBoundary(lines, parse).OrdinalBoundary? || InheritedBoundary(lines, parse) == CopiedBoundary(Counted(lines), parse)
  {
    FirstMetaIs(lines, k, parse);
    CopiedIsNoOrdinal(Counted(lines), parse);
    SubagentMeta(record, start, paginated);
  }

  lemma {:induction false} CopiedIsNoOrdinal(counted: seq<string>, parse: Parser)
    ensures !CopiedBoundary(counted, parse).OrdinalBoundary?
  {
    if counted != [] && ForkThread(NativeRecord(counted[0], parse)).Some? {
      ForkFromDecides(counted, 1, ForkThread(NativeRecord(counted[0], parse)).value, parse);
    }
  }
}
