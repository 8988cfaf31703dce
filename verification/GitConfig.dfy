/** The Git config reader (src/git-project.ts, lines 793-896). */
module GitConfig {
  import opened Options
  import opened TextLines
  import opened GitBoolean
  import opened GitConfigLines
  import opened GitConfigValue
  import opened GitConfigSection

  datatype Values = Values(
    section: Option<string>,
    sectionBase: Option<string>,
    coreWorktree: Option<string>,
    hasCoreWorktree: bool,
    valid: bool,
    worktreeConfig: bool,
    worktreeConfigInvalid: bool)

  const NO_VALUES := Values(None, None, None, false, true, false, false)

  datatype Config = Config(coreWorktree: Option<string>, hasCoreWorktree: bool, valid: bool, worktreeConfig: bool)

  /** The value after a key: none at all, one that cannot be read, or a text. */
  datatype Given = Implicit | Malformed | Explicit(text: string)

  predicate AtEnd(line: string, cursor: nat) {
    cursor >= |line| || StartsComment(line[cursor])
  }

  lemma SectionEnds(line: string, start: nat)
    requires start < |line|
    ensures SectionAt(line, start).Some? ==> start < SectionAt(line, start).value.next <= |line|
  {
    CloseInRange(line, start + 1, false, false);
  }

  function Enter(v: Values, section: Section): Values {
    v.(section := if section.plain then Some(section.baseName) else None, sectionBase := Some(section.baseName))
  }

  function Leave(v: Values): Values {
    v.(valid := false, section := None, sectionBase := None)
  }

  /** The headers at the start of a line, and where the rest of the line starts. */
  function Headers(line: string, cursor: nat, v: Values): (Option<nat>, Values)
    requires cursor <= |line|
    decreases |line| - cursor
  {
    if cursor == |line| || line[cursor] != '[' then (Some(cursor), v)
    else
      SectionEnds(line, cursor);
      match SectionAt(line, cursor)
      case None => (None, Leave(v))
      case Some(section) => Headers(line, SkipBlank(line, section.next), Enter(v, section))
  }

  function Assign(v: Values, key: string, given: Given): Values {
    var worktree := v.section == Some("core") && key == "worktree";
    var extension := v.section == Some("extensions") && key == "worktreeconfig";
    match given
    case Malformed =>
      v.(valid := false, hasCoreWorktree := v.hasCoreWorktree || worktree,
         worktreeConfigInvalid := v.worktreeConfigInvalid || extension)
    case Implicit =>
      if worktree then v.(hasCoreWorktree := true, valid := false)
      else if extension then v.(worktreeConfig := true) else v
    case Explicit(text) =>
      if worktree then v.(hasCoreWorktree := true, coreWorktree := Some(text))
      else if extension then
        match Truth(text)
        case None => v.(worktreeConfigInvalid := true, valid := false)
        case Some(truth) => v.(worktreeConfig := truth)
      else v
  }

  function GivenAt(line: string, cursor: nat): Given
    requires cursor < |line|
  {
    match ConfigValue(line[cursor + 1..])
    case None => Malformed
    case Some(text) => Explicit(text)
  }

  /** A key and its value at the cursor. */
  function ReadEntry(v: Values, line: string, start: nat): Values
    requires start < |line|
  {
    if !IsLetter(line[start]) then v.(valid := false)
    else
      var keyEnd := SkipName(line, start);
      var key := AsciiLower(line[start..keyEnd]);
      var cursor := SkipBlank(line, keyEnd);
      if key == "path" && v.sectionBase in {Some("include"), Some("includeif")} then v.(valid := false)
      else if cursor == |line| then Assign(v, key, Implicit)
      else if line[cursor] != '=' then
        v.(valid := false, worktreeConfigInvalid := v.worktreeConfigInvalid || v.section == Some("extensions"))
      else Assign(v, key, GivenAt(line, cursor))
  }

  function ReadLine(v: Values, line: string): Values {
    var cursor := SkipBlank(line, 0);
    if AtEnd(line, cursor) then v
    else
      var headers := Headers(line, cursor, v);
      if headers.0.None? || AtEnd(line, headers.0.value) then headers.1
      else ReadEntry(headers.1, line, headers.0.value)
  }

  function ReadLines(lines: seq<string>, v: Values): Values {
    if lines == [] then v else ReadLine(ReadLines(lines[..|lines| - 1], v), lines[|lines| - 1])
  }

  function Result(v: Values, wellFormed: bool): Config {
    Config(v.coreWorktree, v.hasCoreWorktree, v.valid && wellFormed, !v.worktreeConfigInvalid && v.worktreeConfig)
  }

  function WithoutMark(config: string): string {
    if config != "" && config[0] == BYTE_ORDER_MARK then config[1..] else config
  }

  function GitConfigOf(config: string): Config {
    var logical := LogicalLines(WithoutMark(config));
    Result(ReadLines(logical.0, NO_VALUES), logical.1)
  }

  // ---- the reader --------------------------------------------------------------------------

  method ReadHeaders(line: string, start: nat, before: Values) returns (at: Option<nat>, v: Values)
    requires start <= |line|
    ensures (at, v) == Headers(line, start, before)
  {
    var cursor := start;
    v := before;
    while cursor < |line| && line[cursor] == '['
      invariant cursor <= |line| && Headers(line, cursor, v) == Headers(line, start, before)
      decreases |line| - cursor
    {
      SectionEnds(line, cursor);
      var parsedSection := ParseSectionName(line, cursor);
      if parsedSection.None? { return None, Leave(v); }
      v := Enter(v, parsedSection.value);
      cursor := SkipBlanks(line, parsedSection.value.next);
    }
    return Some(cursor), v;
  }

  method AssignValue(before: Values, key: string, given: Given) returns (v: Values)
    ensures v == Assign(before, key, given)
  {
    v := before;
    var relevant := (v.section == Some("core") && key == "worktree") || (v.section == Some("extensions") && key == "worktreeconfig");
    if given.Malformed? {
      v := v.(valid := false);
      if v.section == Some("core") && key == "worktree" { v := v.(hasCoreWorktree := true); }
      if v.section == Some("extensions") && key == "worktreeconfig" { v := v.(worktreeConfigInvalid := true); }
      return;
    }
    if !relevant { return; }
    if v.section == Some("core") {
      v := v.(hasCoreWorktree := true);
      if given.Implicit? {
        v := v.(valid := false);
      } else {
        v := v.(coreWorktree := Some(given.text));
      }
      return;
    }
    if given.Implicit? {
      v := v.(worktreeConfig := true);
      return;
    }
    var truth := ParseGitBoolean(given.text);
    if truth.None? {
      v := v.(worktreeConfigInvalid := true, valid := false);
    } else {
      v := v.(worktreeConfig := truth.value);
    }
  }

  method ParseEntry(before: Values, line: string, start: nat) returns (v: Values)
    requires start < |line|
    ensures v == ReadEntry(before, line, start)
  {
    v := before;
    if !IsLetter(line[start]) { return v.(valid := false); }
    var cursor := SkipNameChars(line, start);
    var key := AsciiLower(line[start..cursor]);
    if key == "path" && (v.sectionBase == Some("include") || v.sectionBase == Some("includeif")) {
      return v.(valid := false);
    }
    cursor := SkipBlanks(line, cursor);
    if cursor == |line| {
      v := AssignValue(before, key, Implicit);
    } else if line[cursor] == '=' {
      var parsed := ParseConfigValue(line[cursor + 1..]);
      v := AssignValue(before, key, if parsed.None? then Malformed else Explicit(parsed.value));
    } else {
      v := v.(valid := false);
      if v.section == Some("extensions") { v := v.(worktreeConfigInvalid := true); }
    }
  }

  method ParseLine(before: Values, line: string) returns (v: Values)
    ensures v == ReadLine(before, line)
  {
    v := before;
    var cursor := SkipBlanks(line, 0);
    if AtEnd(line, cursor) { return; }
    var at: Option<nat>;
    at, v := ReadHeaders(line, cursor, before);
    if at.None? || AtEnd(line, at.value) { return; }
    v := ParseEntry(v, line, at.value);
  }

  method ParseGitConfig(config: string) returns (parsed: Config)
    ensures parsed == GitConfigOf(config)
  {
    var lines, wellFormed := LogicalConfigLines(WithoutMark(config));
    var v := NO_VALUES;
    for i := 0 to |lines|
      invariant v == ReadLines(lines[..i], NO_VALUES)
    {
      assert lines[..i + 1][..i] == lines[..i];
      v := ParseLine(v, lines[i]);
    }
    assert lines[..|lines|] == lines;
    return Result(v, wellFormed);
  }
}
