/** Rendering a path under core.worktree and reading the file gives the path back, with
    continuations anywhere outside an escape (src/git-project.ts, lines 603-896). */
module GitConfigRoundTrip {
  import opened Options
  import opened TextLines
  import opened GitBoolean
  import opened GitConfigLines
  import opened GitConfigValue
  import opened GitConfigSection
  import opened GitConfig
  import opened Sequences

  /** A complete line that neither continues nor ends in a carriage return, and the start
      of a line up to the opening quote of its value, which opens no section. */
  ghost predicate Opens(line: string, start: string) {
    NEWLINE !in line && NEWLINE !in start
    && At(line, Text(false, false)) == Text(false, false) && StripCarriageReturn(line) == line
    && At(start, Text(false, false)) == Text(true, false) && StripCarriageReturn(start) == start
    && SkipBlank(start, 0) < |start| && start[SkipBlank(start, 0)] != '['
  }

  /** The file up to the first character of the quoted value. */
  function Opening(line: string, start: string): string {
    line + [NEWLINE] + start
  }

  const CLOSING := [QUOTE, NEWLINE]

  /** The escaped pieces of a value with a backslash and a newline between them. */
  function Spliced(pieces: seq<string>): string
    requires pieces != []
  {
    if |pieces| == 1 then Escape(pieces[0]) else Escape(pieces[0]) + [BACKSLASH, NEWLINE] + Spliced(pieces[1..])
  }

  // ---- the lines of a rendered file ------------------------------------------------------------

  lemma {:induction false} EscapeOfConcat(a: string, b: string)
    ensures Escape(a + b) == Escape(a) + Escape(b)
    decreases |b|
  {
    if b == "" {
      assert a + b == a;
    } else {
      assert (a + b)[..|a + b| - 1] == a + b[..|b| - 1];
      EscapeOfConcat(a, b[..|b| - 1]);
      Associates(Escape(a), Escape(b[..|b| - 1]), EscapeChar(b[|b| - 1]));
    }
  }

  lemma {:induction false} EscapeHasNoNewline(text: string)
    ensures NEWLINE !in Escape(text)
  {
    if text != "" {
      EscapeHasNoNewline(text[..|text| - 1]);
    }
  }

  lemma AtEscapedChar(c: char)
    ensures At(EscapeChar(c), Text(true, false)) == Text(true, false)
  {
    var inside, escape := Text(true, false), EscapeChar(c);
    assert escape[..0] == "";
    if |escape| == 2 {
      assert escape[..1] == [escape[0]] && [escape[0]][..0] == "";
      assert At(escape[..1], inside) == Advance(At([escape[0]][..0], inside), escape[0]);
    }
  }

  lemma {:induction false} AtEscaped(text: string)
    ensures At(Escape(text), Text(true, false)) == Text(true, false)
  {
    if text != "" {
      var init, last := text[..|text| - 1], text[|text| - 1];
      AtEscaped(init);
      PlaceOfConcat(Escape(init), EscapeChar(last), Text(true, false));
      AtEscapedChar(last);
    }
  }

  lemma LinesOfOpening(line: string, start: string, text: string)
    requires Opens(line, start) && NEWLINE !in text
    ensures Lines(Opening(line, start) + text) == [line, start + text]
  {
    assert Opening(line, start) + text == line + [NEWLINE] + (start + text);
    LinesOfConcat(line, start + text);
    LinesOfOneLine(line);
    LinesOfOneLine(start + text);
  }

  lemma FirstLineJoins(line: string)
    requires At(line, Text(false, false)) == Text(false, false) && StripCarriageReturn(line) == line
    ensures JoinAll([line], NOTHING_JOINED) == Joined([line], true, "", false, false)
  {
    assert [line][..0] == [];
    assert JoinAll([line], NOTHING_JOINED) == JoinLine(JoinAll([line][..0], NOTHING_JOINED), line);
    assert "" + line == line && [] + [line] == [line];
  }

  /** After any escaped text the value is open: inside the quotes, outside an escape. */
  lemma ValueIsOpen(line: string, start: string, text: string)
    requires Opens(line, start)
    ensures
      var before := Opening(line, start) + Escape(text);
      LastLine(before) == start + Escape(text)
      && Before(before) == Joined([line], true, "", false, false)
      && PlaceAfter(before) == Text(true, false)
  {
    var before := Opening(line, start) + Escape(text);
    EscapeHasNoNewline(text);
    LinesOfOpening(line, start, Escape(text));
    assert Lines(before)[..1] == [line];
    FirstLineJoins(line);
    PlaceOfConcat(start, Escape(text), Text(false, false));
    AtEscaped(text);
  }

  lemma {:induction false} SkipBlankPrefix(start: string, rest: string, cursor: nat)
    requires cursor <= |start| && SkipBlank(start, cursor) < |start|
    ensures SkipBlank(start + rest, cursor) == SkipBlank(start, cursor)
    decreases |start| - cursor
  {
    if cursor < |start| && IsBlank(start[cursor]) {
      SkipBlankPrefix(start, rest, cursor + 1);
    }
  }

  lemma StartIsNoSection(line: string, start: string, rest: string)
    requires Opens(line, start)
    ensures !OpensSection(StripCarriageReturn(start + rest))
  {
    assert rest == "" ==> start == "" || start[|start| - 1] != '\r';
    StripOfConcat(start, rest);
    SkipBlankPrefix(start, StripCarriageReturn(rest), 0);
  }

  lemma SplicedStart(pieces: seq<string>, closing: string)
    requires pieces != [] && closing != "" && closing[0] != NEWLINE
    ensures Spliced(pieces) + closing != "" && (Spliced(pieces) + closing)[0] != NEWLINE
  {
    var first := Escape(pieces[0]);
    EscapeHasNoNewline(pieces[0]);
    if first != "" {
      assert first[0] in first;
      assert (Spliced(pieces) + closing)[0] == first[0];
    } else if |pieces| > 1 {
      assert (Spliced(pieces) + closing)[0] == BACKSLASH;
    } else {
      assert (Spliced(pieces) + closing)[0] == closing[0];
    }
  }

  /** One continuation in an open value changes no logical line. */
  lemma SpliceInValue(line: string, start: string, text: string, after: string)
    requires Opens(line, start) && after != "" && after[0] != NEWLINE
    ensures LogicalLines(Opening(line, start) + Escape(text) + [BACKSLASH, NEWLINE] + after)
      == LogicalLines(Opening(line, start) + Escape(text) + after)
  {
    var before := Opening(line, start) + Escape(text);
    ValueIsOpen(line, start, text);
    assert FirstLine(after) != "";
    assert !OpensSection(StripCarriageReturn(LastLine(before) + FirstLine(after))) by {
      StartIsNoSection(line, start, Escape(text) + FirstLine(after));
      Associates(start, Escape(text), FirstLine(after));
    }
    SpliceKeepsLines(before, after);
  }

  /** The file with an escaped value. */
  function Rendered(line: string, start: string, text: string): string {
    Opening(line, start) + Escape(text) + CLOSING
  }

  lemma Reassociate(a: string, b: string, c: string, d: string, e: string)
    ensures a + b + (c + d + e) == a + (b + c) + d + e
    ensures a + b + (c + d) == a + (b + c) + d
  {
  }

  /** Continuations between the pieces of a value change no logical line. */
  lemma {:induction false} SplicesVanish(line: string, start: string, text: string, pieces: seq<string>)
    requires Opens(line, start) && pieces != []
    ensures LogicalLines(Opening(line, start) + Escape(text) + (Spliced(pieces) + CLOSING))
      == LogicalLines(Rendered(line, start, text + Concat(pieces)))
    decreases |pieces|
  {
    var first, rest := pieces[0], pieces[1..];
    EscapeOfConcat(text, first);
    if |pieces| == 1 {
      assert Concat(pieces) == first;
      Reassociate(Opening(line, start), Escape(text), Escape(first), CLOSING, "");
    } else {
      var after := Spliced(rest) + CLOSING;
      SplicedStart(rest, CLOSING);
      SplicedCons(pieces);
      Reassociate(Opening(line, start), Escape(text), Escape(first), [BACKSLASH, NEWLINE], after);
      SpliceInValue(line, start, text + first, after);
      SplicesVanish(line, start, text + first, rest);
      Associates(text, first, Concat(rest));
    }
  }

  lemma SplicedCons(pieces: seq<string>)
    requires |pieces| > 1
    ensures Spliced(pieces) + CLOSING == Escape(pieces[0]) + [BACKSLASH, NEWLINE] + (Spliced(pieces[1..]) + CLOSING)
  {
  }

  // ---- reading the rendered file -----------------------------------------------------------------

  lemma LinesOfTwo(a: string, b: string)
    requires NEWLINE !in a && NEWLINE !in b
    ensures Lines(a + [NEWLINE] + (b + [NEWLINE] + "")) == [a, b, ""]
  {
    LinesOfConcat(a, b + [NEWLINE] + "");
    LinesOfConcat(b, "");
    LinesOfOneLine(a);
    LinesOfOneLine(b);
  }

  lemma LinesOfRendered(line: string, start: string, text: string)
    requires Opens(line, start)
    ensures Lines(Rendered(line, start, text)) == [line, start + Escape(text) + [QUOTE], ""]
  {
    var value := start + Escape(text) + [QUOTE];
    EscapeHasNoNewline(text);
    assert Rendered(line, start, text) == line + [NEWLINE] + (value + [NEWLINE] + "");
    LinesOfTwo(line, value);
  }

  lemma ValueLineJoins(s: Joined, start: string, text: string)
    requires !s.continued && s.waiting == "" && !s.quoted
    requires At(start, Text(false, false)) == Text(true, false)
    ensures
      var value := start + Escape(text) + [QUOTE];
      JoinLine(s, value) == Joined(s.lines + [value], s.valid, "", false, false)
  {
    var value := start + Escape(text) + [QUOTE];
    PlaceOfConcat(start, Escape(text), Text(false, false));
    AtEscaped(text);
    assert value[..|value| - 1] == start + Escape(text);
    assert "" + value == value;
  }

  lemma JoinThreeLines(a: string, b: string, s: Joined)
    ensures JoinAll([a, b, ""], s) == JoinLine(JoinLine(JoinAll([a], s), b), "")
  {
    assert [a, b, ""][..2] == [a, b] && [a, b][..1] == [a];
  }

  lemma EmptyLineJoins(lines: seq<string>)
    ensures JoinLine(Joined(lines, true, "", false, false), "") == Joined(lines + [""], true, "", false, false)
  {
    assert "" + "" == "";
  }

  lemma ThreeLines(a: string, b: string)
    ensures [a] + [b] + [""] == [a, b, ""]
  {
  }

  lemma {:induction false} LogicalLinesOfRendered(line: string, start: string, text: string)
    requires Opens(line, start)
    ensures LogicalLines(Rendered(line, start, text)) == ([line, start + Escape(text) + [QUOTE], ""], true)
  {
    var value := start + Escape(text) + [QUOTE];
    LinesOfRendered(line, start, text);
    JoinThreeLines(line, value, NOTHING_JOINED);
    FirstLineJoins(line);
    ValueLineJoins(Joined([line], true, "", false, false), start, text);
    EmptyLineJoins([line] + [value]);
    ThreeLines(line, value);
  }

  lemma {:induction false} LowerStays(text: string)
    requires forall i :: 0 <= i < |text| ==> !('A' <= text[i] <= 'Z')
    ensures AsciiLower(text) == text
  {
    if text != "" {
      LowerStays(text[1..]);
    }
  }

  lemma HeaderLineRead(v: Values, name: string)
    requires IsName(name) && AsciiLower(name) == name
    ensures ReadLine(v, "[" + name + "]") == v.(section := Some(name), sectionBase := Some(name))
  {
    var line := "[" + name + "]";
    assert line + "" == line;
    PlainHeaderRead(name, "");
    assert line[0] == '[' && SkipBlank(line, 0) == 0;
    assert Headers(line, |line|, Enter(v, Section(name, true, |line|))).0 == Some(|line|);
  }

  lemma EntryParts(key: string, rest: string)
    requires IsName(key)
    ensures
      var line, n := "\t" + key + " = " + rest, |key|;
      SkipBlank(line, 0) == 1 && line[1] == key[0]
      && SkipName(line, 1) == n + 1 && line[1..n + 1] == key
      && SkipBlank(line, n + 1) == n + 2 && line[n + 2] == '=' && line[n + 3..] == " " + rest
  {
    var line, n := "\t" + key + " = " + rest, |key|;
    assert line[0] == '\t' && line[1] == key[0];
    forall i | 1 <= i < n + 1 ensures IsNameChar(line[i]) {
      assert line[i] == key[i - 1];
    }
    assert line[n + 1] == ' ' && line[n + 2] == '=';
    SkipNameStops(line, 1, n + 1);
  }

  lemma {:induction false} EntryLineRead(v: Values, key: string, path: string)
    requires IsName(key) && IsLetter(key[0]) && AsciiLower(key) == key && key != "path"
    ensures ReadLine(v, "\t" + key + " = " + Quoted(path)) == Assign(v, key, Explicit(path))
  {
    var line, n := "\t" + key + " = " + Quoted(path), |key|;
    EntryParts(key, Quoted(path));
    QuotedRoundTrip(" ", path);
    assert GivenAt(line, n + 2) == Explicit(path);
    assert ReadEntry(v, line, 1) == Assign(v, key, Explicit(path));
  }

  lemma EntryOpens(name: string, key: string)
    requires IsName(name) && IsName(key)
    ensures Opens("[" + name + "]", "\t" + key + " = " + [QUOTE])
  {
    var line, start := "[" + name + "]", "\t" + key + " = " + [QUOTE];
    forall i | 0 <= i < |line| ensures line[i] == '[' || line[i] == ']' || IsNameChar(line[i]) {
      if 0 < i < |line| - 1 { assert line[i] == name[i - 1]; }
    }
    AtNothingSpecial(line, false);
    var plain := "\t" + key + " = ";
    forall i | 0 <= i < |plain| ensures IsBlank(plain[i]) || plain[i] == '=' || IsNameChar(plain[i]) {
      if 0 < i < |key| + 1 { assert plain[i] == key[i - 1]; }
    }
    AtNothingSpecial(plain, false);
    assert start[..|start| - 1] == plain;
    assert start[0] == '\t' && start[1] == key[0];
    assert SkipBlank(start, 0) == 1;
  }

  predicate NothingSpecial(text: string) {
    forall i :: 0 <= i < |text| ==> text[i] != BACKSLASH && text[i] != QUOTE && !StartsComment(text[i])
  }

  lemma {:induction false} AtNothingSpecial(text: string, quoted: bool)
    requires NothingSpecial(text)
    ensures At(text, Text(quoted, false)) == Text(quoted, false)
  {
    if text != "" {
      AtNothingSpecial(text[..|text| - 1], quoted);
    }
  }

  /** A file with one section and one quoted entry, split by continuations anywhere between
      the escaped characters of its value. */
  function SplicedConfig(name: string, key: string, pieces: seq<string>): string
    requires pieces != []
  {
    Opening("[" + name + "]", "\t" + key + " = " + [QUOTE]) + Spliced(pieces) + CLOSING
  }

  lemma SplicedLines(line: string, start: string, pieces: seq<string>)
    requires Opens(line, start) && pieces != []
    ensures LogicalLines(Opening(line, start) + Spliced(pieces) + CLOSING)
      == ([line, start + Escape(Concat(pieces)) + [QUOTE], ""], true)
  {
    SplicesVanish(line, start, "", pieces);
    assert "" + Concat(pieces) == Concat(pieces);
    Associates(Opening(line, start), Spliced(pieces), CLOSING);
    assert Opening(line, start) + Escape("") == Opening(line, start);
    LogicalLinesOfRendered(line, start, Concat(pieces));
  }

  lemma SplicedConfigRead(name: string, key: string, pieces: seq<string>)
    requires pieces != [] && IsName(name) && AsciiLower(name) == name
    requires IsName(key) && IsLetter(key[0]) && AsciiLower(key) == key && key != "path"
    ensures
      var v := NO_VALUES.(section := Some(name), sectionBase := Some(name));
      GitConfigOf(SplicedConfig(name, key, pieces)) == Result(Assign(v, key, Explicit(Concat(pieces))), true)
  {
    var line, start, path := "[" + name + "]", "\t" + key + " = " + [QUOTE], Concat(pieces);
    var v := NO_VALUES.(section := Some(name), sectionBase := Some(name));
    var value := "\t" + key + " = " + Quoted(path);
    assert LogicalLines(SplicedConfig(name, key, pieces)) == ([line, value, ""], true) by {
      EntryOpens(name, key);
      SplicedLines(line, start, pieces);
      QuotedParts("\t" + key + " = ", path);
    }
    HeaderLineRead(NO_VALUES, name);
    EntryLineRead(v, key, path);
    ReadThreeLines(line, value, NO_VALUES);
    assert SplicedConfig(name, key, pieces)[0] == '[';
  }

  lemma QuotedParts(before: string, path: string)
    ensures before + Quoted(path) == before + [QUOTE] + Escape(path) + [QUOTE]
  {
  }

  lemma ReadThreeLines(a: string, b: string, v: Values)
    ensures ReadLines([a, b, ""], v) == ReadLine(ReadLine(v, a), b)
  {
    assert [a, b, ""][..2] == [a, b] && [a, b][..1] == [a] && [a][..0] == [];
    assert ReadLines([a], v) == ReadLine(ReadLines([a][..0], v), a);
  }

  /** Any path under core.worktree comes back, whatever characters it holds and wherever
      its value is continued. */
  lemma WorktreeRoundTrip(pieces: seq<string>)
    requires pieces != []
    ensures GitConfigOf(SplicedConfig("core", "worktree", pieces)) == Config(Some(Concat(pieces)), true, true, false)
  {
    NamedRoundTrip("core", "worktree", pieces);
  }

  lemma NamedRoundTrip(name: string, key: string, pieces: seq<string>)
    requires pieces != [] && name == "core" && key == "worktree"
    ensures GitConfigOf(SplicedConfig(name, key, pieces)) == Config(Some(Concat(pieces)), true, true, false)
  {
    CoreWorktreeNames();
    SplicedConfigRead(name, key, pieces);
    WorktreeAssigned(NO_VALUES.(section := Some(name), sectionBase := Some(name)), key, Concat(pieces));
  }

  lemma WorktreeAssigned(v: Values, key: string, text: string)
    requires v.section == Some("core") && key == "worktree"
    ensures Assign(v, key, Explicit(text)) == v.(hasCoreWorktree := true, coreWorktree := Some(text))
  {
  }

  lemma CoreWorktreeNames()
    ensures IsName("core") && AsciiLower("core") == "core"
    ensures IsName("worktree") && AsciiLower("worktree") == "worktree" && IsLetter("worktree"[0])
  {
    LowerStays("core");
    LowerStays("worktree");
  }
}
