/** Which entries of a whole file decide its core.worktree, and that a flaw anywhere in it
    stays (src/git-project.ts, lines 855-896). */
module GitConfigWorktree {
  import opened Options
  import opened GitConfigLines
  import opened GitConfigSection
  import opened GitConfigValue
  import opened GitBoolean
  import opened GitConfig

  /** What a line gives to core.worktree, when it is an entry of that key. */
  function WorktreeEntry(v: Values, line: string): Option<Given> {
    var cursor := SkipBlank(line, 0);
    if AtEnd(line, cursor) then None
    else
      var headers := Headers(line, cursor, v);
      if headers.0.None? || AtEnd(line, headers.0.value) then None
      else KeyEntry(headers.1, line, headers.0.value)
  }

  function KeyEntry(v: Values, line: string, start: nat): Option<Given>
    requires start < |line|
  {
    var keyEnd := SkipName(line, start);
    var cursor := SkipBlank(line, keyEnd);
    if v.section != Some("core") || !IsLetter(line[start]) || AsciiLower(line[start..keyEnd]) != "worktree" then None
    else if cursor == |line| then Some(Implicit)
    else if line[cursor] == '=' then Some(GivenAt(line, cursor))
    else None
  }

  /** What each line gives to core.worktree, in a file read from v on. */
  function Entries(lines: seq<string>, v: Values): (entries: seq<Option<Given>>)
    ensures |entries| == |lines|
  {
    if lines == [] then []
    else
      var init := lines[..|lines| - 1];
      Entries(init, v) + [WorktreeEntry(ReadLines(init, v), lines[|lines| - 1])]
  }

  /** The text of the last entry that has one. */
  function LastText(entries: seq<Option<Given>>): Option<string> {
    if entries == [] then None
    else match entries[|entries| - 1]
      case Some(Explicit(text)) => Some(text)
      case _ => LastText(entries[..|entries| - 1])
  }

  /** An entry of another key that can be read changes nothing; one that cannot be read
      only makes the file invalid. */
  lemma OtherKeys(v: Values, key: string, given: Given)
    requires !(v.section == Some("core") && key == "worktree")
    requires !(v.section == Some("extensions") && key == "worktreeconfig")
    ensures Assign(v, key, given) == if given.Malformed? then v.(valid := false) else v
  {
  }

  /** The flags that no later line takes back. */
  predicate Keeps(before: Values, after: Values) {
    && (!before.valid ==> !after.valid)
    && (before.hasCoreWorktree ==> after.hasCoreWorktree)
    && (before.worktreeConfigInvalid ==> after.worktreeConfigInvalid)
  }

  lemma {:induction false} HeadersKeep(line: string, cursor: nat, v: Values)
    requires cursor <= |line|
    ensures
      var after := Headers(line, cursor, v).1;
      Keeps(v, after) && after.coreWorktree == v.coreWorktree && after.hasCoreWorktree == v.hasCoreWorktree
    decreases |line| - cursor
  {
    if cursor < |line| && line[cursor] == '[' {
      SectionEnds(line, cursor);
      var section := SectionAt(line, cursor);
      if section.Some? {
        HeadersKeep(line, SkipBlank(line, section.value.next), Enter(v, section.value));
      }
    }
  }

  /** What one line does to the worktree: nothing unless it is an entry of it. */
  lemma LineKeeps(v: Values, line: string)
    ensures
      var after, entry := ReadLine(v, line), WorktreeEntry(v, line);
      && Keeps(v, after)
      && after.hasCoreWorktree == (v.hasCoreWorktree || entry.Some?)
      && after.coreWorktree == match entry { case Some(Explicit(text)) => Some(text) case _ => v.coreWorktree }
  {
    var cursor := SkipBlank(line, 0);
    if !AtEnd(line, cursor) {
      HeadersKeep(line, cursor, v);
      var headers := Headers(line, cursor, v);
      if headers.0.Some? && !AtEnd(line, headers.0.value) {
        EntryKeeps(headers.1, line, headers.0.value);
      }
    }
  }

  lemma AssignKeeps(v: Values, key: string, given: Given)
    ensures
      var after, entry := Assign(v, key, given), v.section == Some("core") && key == "worktree";
      && Keeps(v, after)
      && after.hasCoreWorktree == (v.hasCoreWorktree || entry)
      && after.coreWorktree == if entry && given.Explicit? then Some(given.text) else v.coreWorktree
  {
  }

  lemma EntryKeeps(v: Values, line: string, start: nat)
    requires start < |line|
    ensures
      var after, entry := ReadEntry(v, line, start), KeyEntry(v, line, start);
      && Keeps(v, after)
      && after.hasCoreWorktree == (v.hasCoreWorktree || entry.Some?)
      && after.coreWorktree == match entry { case Some(Explicit(text)) => Some(text) case _ => v.coreWorktree }
  {
    var keyEnd := SkipName(line, start);
    var key, cursor := AsciiLower(line[start..keyEnd]), SkipBlank(line, keyEnd);
    if IsLetter(line[start]) {
      AssignKeeps(v, key, if cursor < |line| then GivenAt(line, cursor) else Implicit);
    }
  }

  /** A file that a line made invalid stays invalid, and a worktree key once seen, or an
      extension once unreadable, stays so. */
  lemma {:induction false} FlawsStay(lines: seq<string>, v: Values, i: nat)
    requires i <= |lines|
    ensures Keeps(ReadLines(lines[..i], v), ReadLines(lines, v))
    decreases |lines|
  {
    if i == |lines| {
      assert lines[..i] == lines;
    } else {
      var init := lines[..|lines| - 1];
      assert init[..i] == lines[..i];
      FlawsStay(init, v, i);
      LineKeeps(ReadLines(init, v), lines[|lines| - 1]);
    }
  }

  /** A worktree is seen exactly when some line is an entry of core.worktree, and its value
      is the text of the last such entry that has one. */
  lemma {:induction false} WorktreeOfLines(lines: seq<string>, v: Values)
    ensures
      var after, entries := ReadLines(lines, v), Entries(lines, v);
      && after.hasCoreWorktree == (v.hasCoreWorktree || exists e <- entries :: e.Some?)
      && after.coreWorktree == if LastText(entries).Some? then LastText(entries) else v.coreWorktree
    decreases |lines|
  {
    if lines != [] {
      var init, last := lines[..|lines| - 1], lines[|lines| - 1];
      WorktreeOfLines(init, v);
      LineKeeps(ReadLines(init, v), last);
      AnotherEntry(Entries(init, v), WorktreeEntry(ReadLines(init, v), last));
    }
  }

  lemma AnotherEntry(entries: seq<Option<Given>>, entry: Option<Given>)
    ensures
      var all := entries + [entry];
      && ((exists e <- all :: e.Some?) <==> entry.Some? || exists e <- entries :: e.Some?)
      && LastText(all) == match entry { case Some(Explicit(text)) => Some(text) case _ => LastText(entries) }
  {
    var all := entries + [entry];
    assert all[..|all| - 1] == entries && all[|all| - 1] == entry;
    assert entry in all;
    forall e | e in entries ensures e in all {}
  }

  lemma WorktreeOfFile(config: string)
    ensures
      var entries := Entries(LogicalLines(WithoutMark(config)).0, NO_VALUES);
      && GitConfigOf(config).hasCoreWorktree == (exists e <- entries :: e.Some?)
      && GitConfigOf(config).coreWorktree == LastText(entries)
  {
    WorktreeOfLines(LogicalLines(WithoutMark(config)).0, NO_VALUES);
  }
}
