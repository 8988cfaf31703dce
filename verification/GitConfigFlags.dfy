/** Which entries of a whole file decide extensions.worktreeConfig, and what makes a file
    invalid, include.path among it (src/git-project.ts, lines 793-896). */
module GitConfigFlags {
  import opened Options
  import opened GitBoolean
  import opened GitConfigLines
  import opened GitConfigSection
  import opened GitConfigValue
  import opened GitConfig

  // ---- what a line says --------------------------------------------------------------------

  /** After a key: the end of the line, something that is no value, or a value. */
  datatype Tail = Ends | Stray | HasValue(given: Given)

  /** A line without an entry, one with a header that cannot be read, one whose entry does
      not start with a letter, or a key under a section. */
  datatype Content = Nothing | BadHeader | NoKey | Entry(section: Option<string>, base: Option<string>, key: string, tail: Tail)

  function EntryOf(v: Values, line: string, start: nat): Content
    requires start < |line|
  {
    if !IsLetter(line[start]) then NoKey
    else
      var keyEnd := SkipName(line, start);
      var cursor := SkipBlank(line, keyEnd);
      Entry(v.section, v.sectionBase, AsciiLower(line[start..keyEnd]),
            if cursor == |line| then Ends
            else if line[cursor] != '=' then Stray
            else HasValue(GivenAt(line, cursor)))
  }

  function ContentOf(v: Values, line: string): Content {
    var cursor := SkipBlank(line, 0);
    if AtEnd(line, cursor) then Nothing
    else
      var headers := Headers(line, cursor, v);
      if headers.0.None? then BadHeader
      else if AtEnd(line, headers.0.value) then Nothing
      else EntryOf(headers.1, line, headers.0.value)
  }

  predicate IsInclude(c: Content) {
    c.Entry? && c.key == "path" && (c.base == Some("include") || c.base == Some("includeif"))
  }

  /** A line no valid file holds: a header or key that cannot be read, an include, a key
      without a value sign, a value that cannot be read, a worktree without a value, or a
      worktreeConfig that is no boolean. */
  predicate IsFault(c: Content) {
    match c
    case Nothing => false
    case BadHeader => true
    case NoKey => true
    case Entry(section, _, key, tail) =>
      || IsInclude(c)
      || tail.Stray?
      || (tail.HasValue? && tail.given.Malformed?)
      || (section == Some("core") && key == "worktree" && tail.Ends?)
      || (section == Some("extensions") && key == "worktreeconfig" && tail.HasValue? && tail.given.Explicit?
          && Truth(tail.given.text) == None)
  }

  /** What a line says of extensions.worktreeConfig. */
  datatype Switch = Silent | Garbled | Turned(on: bool)

  function SwitchOf(c: Content): Switch {
    if !c.Entry? || c.section != Some("extensions") then Silent
    else match c.tail
      case Stray => Garbled
      case Ends => if c.key == "worktreeconfig" then Turned(true) else Silent
      case HasValue(given) =>
        if c.key != "worktreeconfig" then Silent
        else match given
          case Explicit(text) => (match Truth(text) case Some(on) => Turned(on) case None => Garbled)
          case _ => Garbled
  }

  // ---- one line ----------------------------------------------------------------------------

  /** The flags after a line. */
  predicate Flags(before: Values, c: Content, after: Values) {
    && after.valid == (before.valid && !IsFault(c))
    && after.worktreeConfigInvalid == (before.worktreeConfigInvalid || SwitchOf(c) == Garbled)
    && after.worktreeConfig == (match SwitchOf(c) case Turned(on) => on case _ => before.worktreeConfig)
  }

  /** The base name of a plain section is the section. */
  predicate Consistent(v: Values) {
    v.section.Some? ==> v.sectionBase == v.section
  }

  lemma {:induction false} HeadersKeepFlags(line: string, cursor: nat, v: Values)
    requires cursor <= |line| && Consistent(v)
    ensures
      var headers := Headers(line, cursor, v);
      && headers.1.worktreeConfigInvalid == v.worktreeConfigInvalid && headers.1.worktreeConfig == v.worktreeConfig
      && headers.1.valid == (v.valid && headers.0.Some?) && Consistent(headers.1)
    decreases |line| - cursor
  {
    if cursor < |line| && line[cursor] == '[' {
      SectionEnds(line, cursor);
      var section := SectionAt(line, cursor);
      if section.Some? {
        HeadersKeepFlags(line, SkipBlank(line, section.value.next), Enter(v, section.value));
      }
    }
  }

  lemma {:induction false} EntryFlags(v: Values, line: string, start: nat)
    requires start < |line| && Consistent(v)
    ensures Flags(v, EntryOf(v, line, start), ReadEntry(v, line, start)) && Consistent(ReadEntry(v, line, start))
  {
    var keyEnd := SkipName(line, start);
    var key, cursor := AsciiLower(line[start..keyEnd]), SkipBlank(line, keyEnd);
    if IsLetter(line[start]) && cursor < |line| && line[cursor] == '=' {
      AssignFlags(v, key, GivenAt(line, cursor));
    } else if IsLetter(line[start]) && cursor == |line| {
      ImplicitFlags(v, key);
    }
  }

  lemma AssignFlags(v: Values, key: string, given: Given)
    requires Consistent(v) && !given.Implicit?
    ensures
      var c := Entry(v.section, v.sectionBase, key, HasValue(given));
      !IsInclude(c) ==> Flags(v, c, Assign(v, key, given)) && Consistent(Assign(v, key, given))
  {
  }

  lemma ImplicitFlags(v: Values, key: string)
    requires Consistent(v)
    ensures
      var c := Entry(v.section, v.sectionBase, key, Ends);
      !IsInclude(c) ==> Flags(v, c, Assign(v, key, Implicit)) && Consistent(Assign(v, key, Implicit))
  {
  }

  lemma {:induction false} LineFlags(v: Values, line: string)
    requires Consistent(v)
    ensures Flags(v, ContentOf(v, line), ReadLine(v, line)) && Consistent(ReadLine(v, line))
  {
    var cursor := SkipBlank(line, 0);
    if !AtEnd(line, cursor) {
      HeadersKeepFlags(line, cursor, v);
      var headers := Headers(line, cursor, v);
      if headers.0.Some? && !AtEnd(line, headers.0.value) {
        EntryFlags(headers.1, line, headers.0.value);
      }
    }
  }

  // ---- whole files ---------------------------------------------------------------------------

  /** What each line of a file says. */
  function Contents(lines: seq<string>, v: Values): (contents: seq<Content>)
    ensures |contents| == |lines|
  {
    if lines == [] then []
    else
      var init := lines[..|lines| - 1];
      Contents(init, v) + [ContentOf(ReadLines(init, v), lines[|lines| - 1])]
  }

  predicate AnyFault(contents: seq<Content>) {
    contents != [] && (AnyFault(contents[..|contents| - 1]) || IsFault(contents[|contents| - 1]))
  }

  predicate AnyGarbled(contents: seq<Content>) {
    contents != [] && (AnyGarbled(contents[..|contents| - 1]) || SwitchOf(contents[|contents| - 1]) == Garbled)
  }

  /** The last setting of the switch. */
  function LastTurn(contents: seq<Content>, default: bool): bool {
    if contents == [] then default
    else match SwitchOf(contents[|contents| - 1])
      case Turned(on) => on
      case _ => LastTurn(contents[..|contents| - 1], default)
  }

  lemma {:induction false} FlagsOfLines(lines: seq<string>, v: Values)
    requires Consistent(v)
    ensures
      var after, contents := ReadLines(lines, v), Contents(lines, v);
      && Consistent(after)
      && after.valid == (v.valid && !AnyFault(contents))
      && after.worktreeConfigInvalid == (v.worktreeConfigInvalid || AnyGarbled(contents))
      && after.worktreeConfig == LastTurn(contents, v.worktreeConfig)
    decreases |lines|
  {
    if lines != [] {
      var init, last := lines[..|lines| - 1], lines[|lines| - 1];
      FlagsOfLines(init, v);
      LineFlags(ReadLines(init, v), last);
      var contents := Contents(lines, v);
      assert contents[..|contents| - 1] == Contents(init, v);
    }
  }

  lemma {:induction false} FaultAnywhere(contents: seq<Content>)
    ensures AnyFault(contents) <==> exists c <- contents :: IsFault(c)
    ensures AnyGarbled(contents) <==> exists c <- contents :: SwitchOf(c) == Garbled
    decreases |contents|
  {
    if contents != [] {
      var init, last := contents[..|contents| - 1], contents[|contents| - 1];
      FaultAnywhere(init);
      assert contents == init + [last];
      assert last in contents && forall c <- init :: c in contents;
    }
  }

  /** A file is valid exactly when its lines are well formed and none is a fault; an include
      anywhere is one.  The extension is on exactly when its last setting says so and no
      setting is garbled. */
  lemma {:induction false} FlagsOfFile(config: string)
    ensures
      var logical := LogicalLines(WithoutMark(config));
      var contents, parsed := Contents(logical.0, NO_VALUES), GitConfigOf(config);
      && parsed.valid == (logical.1 && forall c <- contents :: !IsFault(c))
      && parsed.worktreeConfig == (LastTurn(contents, false) && forall c <- contents :: SwitchOf(c) != Garbled)
      && ((exists c <- contents :: IsInclude(c)) ==> !parsed.valid)
  {
    var logical := LogicalLines(WithoutMark(config));
    FlagsOfLines(logical.0, NO_VALUES);
    FaultAnywhere(Contents(logical.0, NO_VALUES));
  }
}
