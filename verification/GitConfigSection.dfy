/** Section headers of a Git config file (src/git-project.ts, lines 502-526, 661-744). */
module GitConfigSection {
  import opened Options
  import opened GitBoolean
  import opened GitConfigLines

  predicate IsNameChar(c: char) {
    '0' <= c <= '9' || 'A' <= c <= 'Z' || 'a' <= c <= 'z' || c == '-'
  }

  predicate IsLetter(c: char) {
    'A' <= c <= 'Z' || 'a' <= c <= 'z'
  }

  function SkipName(line: string, cursor: nat): (next: nat)
    requires cursor <= |line|
    ensures cursor <= next <= |line|
    ensures next < |line| ==> !IsNameChar(line[next])
    ensures forall i :: cursor <= i < next ==> IsNameChar(line[i])
    decreases |line| - cursor
  {
    if cursor < |line| && IsNameChar(line[cursor]) then SkipName(line, cursor + 1) else cursor
  }

  method SkipNameChars(line: string, start: nat) returns (cursor: nat)
    requires start <= |line|
    ensures cursor == SkipName(line, start)
  {
    cursor := start;
    while cursor < |line| && IsNameChar(line[cursor])
      invariant start <= cursor <= |line| && SkipName(line, cursor) == SkipName(line, start)
    {
      cursor := cursor + 1;
    }
  }

  method SkipBlanks(line: string, start: nat) returns (cursor: nat)
    requires start <= |line|
    ensures cursor == SkipBlank(line, start)
  {
    cursor := start;
    while cursor < |line| && IsBlank(line[cursor])
      invariant start <= cursor <= |line| && SkipBlank(line, cursor) == SkipBlank(line, start)
    {
      cursor := cursor + 1;
    }
  }

  // ---- the closing bracket -----------------------------------------------------------------

  /** The bracket that closes a header, or nothing when the line ends first; one inside
      quotes does not count. */
  function Close(line: string, index: nat, quoted: bool, escaped: bool): Option<nat>
    requires index <= |line|
    decreases |line| - index
  {
    if index == |line| then None
    else
      var c := line[index];
      if escaped then Close(line, index + 1, quoted, false)
      else if c == BACKSLASH && quoted then Close(line, index + 1, quoted, true)
      else if c == QUOTE then Close(line, index + 1, !quoted, false)
      else if c == ']' && !quoted then Some(index)
      else Close(line, index + 1, quoted, false)
  }

  /** The quote that closes a subsection, or nothing; a backslash takes the next character
      with it. */
  function CloseQuote(header: string, index: nat, escaped: bool): Option<nat>
    requires index <= |header|
    decreases |header| - index
  {
    if index == |header| then None
    else if escaped then CloseQuote(header, index + 1, false)
    else if header[index] == BACKSLASH then CloseQuote(header, index + 1, true)
    else if header[index] == QUOTE then Some(index)
    else CloseQuote(header, index + 1, false)
  }

  predicate IsDotted(header: string, start: nat) {
    start < |header| && forall i :: start <= i < |header| ==> IsNameChar(header[i]) || header[i] == '.'
  }

  /** A section: its lower-case name, whether it has a subsection, and where it ends. */
  datatype Section = Section(baseName: string, plain: bool, next: nat)

  /** The section a header between brackets names. */
  function Header(header: string, next: nat): Option<Section> {
    var nameEnd := SkipName(header, 0);
    var name := AsciiLower(header[..nameEnd]);
    if nameEnd == 0 then None
    else if nameEnd == |header| then Some(Section(name, true, next))
    else if header[nameEnd] == '.' then
      if IsDotted(header, nameEnd + 1) then Some(Section(name, false, next)) else None
    else if !IsBlank(header[nameEnd]) then None
    else
      var open := SkipBlank(header, nameEnd);
      if open < |header| && header[open] == QUOTE && CloseQuote(header, open + 1, false) == Some(|header| - 1)
      then Some(Section(name, false, next)) else None
  }

  function SectionAt(line: string, start: nat): Option<Section>
    requires start < |line|
  {
    CloseInRange(line, start + 1, false, false);
    var close := Close(line, start + 1, false, false);
    if close.None? then None else Header(line[start + 1..close.value], close.value + 1)
  }

  lemma {:induction false} CloseInRange(line: string, index: nat, quoted: bool, escaped: bool)
    requires index <= |line|
    ensures
      var close := Close(line, index, quoted, escaped);
      close.Some? ==> index <= close.value < |line|
    decreases |line| - index
  {
    if index < |line| {
      CloseInRange(line, index + 1, quoted, false);
      CloseInRange(line, index + 1, quoted, true);
      CloseInRange(line, index + 1, !quoted, false);
    }
  }

  method FindClose(line: string, start: nat) returns (close: Option<nat>)
    requires start < |line|
    ensures close == Close(line, start + 1, false, false)
    ensures close.Some? ==> start < close.value < |line|
  {
    var quoted, escaped := false, false;
    var index := start + 1;
    while index < |line|
      invariant start < index <= |line|
      invariant Close(line, index, quoted, escaped) == Close(line, start + 1, false, false)
    {
      var c := line[index];
      if escaped {
        escaped := false;
      } else if c == BACKSLASH && quoted {
        escaped := true;
      } else if c == QUOTE {
        quoted := !quoted;
      } else if c == ']' && !quoted {
        return Some(index);
      }
      index := index + 1;
    }
    return None;
  }

  method ReadHeader(header: string, next: nat) returns (section: Option<Section>)
    ensures section == Header(header, next)
  {
    var nameEnd := SkipNameChars(header, 0);
    if nameEnd == 0 { return None; }
    var name := AsciiLower(header[..nameEnd]);
    if nameEnd == |header| { return Some(Section(name, true, next)); }
    var remainder := nameEnd;
    if header[remainder] == '.' {
      remainder := remainder + 1;
      var subsectionStart := remainder;
      while remainder < |header| && (IsNameChar(header[remainder]) || header[remainder] == '.')
        invariant subsectionStart <= remainder <= |header|
        invariant forall i :: subsectionStart <= i < remainder ==> IsNameChar(header[i]) || header[i] == '.'
      {
        remainder := remainder + 1;
      }
      return if remainder > subsectionStart && remainder == |header| then Some(Section(name, false, next)) else None;
    }
    if !IsBlank(header[remainder]) { return None; }
    remainder := SkipBlanks(header, remainder);
    if remainder == |header| || header[remainder] != QUOTE { return None; }
    var quoted, escaped := true, false;
    remainder := remainder + 1;
    ghost var open := remainder;
    while remainder < |header|
      invariant open <= remainder <= |header| && quoted
      invariant CloseQuote(header, remainder, escaped) == CloseQuote(header, open, false)
    {
      var c := header[remainder];
      if escaped {
        escaped := false;
      } else if c == BACKSLASH {
        escaped := true;
      } else if c == QUOTE {
        quoted := false;
        remainder := remainder + 1;
        break;
      }
      remainder := remainder + 1;
    }
    return if !quoted && !escaped && remainder == |header| then Some(Section(name, false, next)) else None;
  }

  method ParseSectionName(line: string, start: nat) returns (section: Option<Section>)
    requires start < |line|
    ensures section == SectionAt(line, start)
  {
    var close := FindClose(line, start);
    if close.None? { return None; }
    section := ReadHeader(line[start + 1..close.value], close.value + 1);
  }

  // ---- rendered headers ------------------------------------------------------------------------

  /** A subsection inside quotes; only quotes and backslashes need an escape. */
  function EscapeSubsection(text: string): string {
    if text == "" then ""
    else (if text[0] == QUOTE || text[0] == BACKSLASH then [BACKSLASH, text[0]] else [text[0]]) + EscapeSubsection(text[1..])
  }

  predicate IsAt(part: string, line: string, index: nat) {
    index + |part| <= |line| && line[index..index + |part|] == part
  }

  lemma PartsAt(a: string, b: string, line: string, index: nat)
    requires IsAt(a + b, line, index)
    ensures IsAt(a, line, index) && IsAt(b, line, index + |a|)
  {
    var whole := line[index..index + |a + b|];
    assert whole[..|a|] == a && whole[|a|..] == b;
  }

  lemma {:induction false} QuotesSpanSubsection(line: string, index: nat, text: string)
    requires IsAt(EscapeSubsection(text), line, index)
    ensures
      var end := index + |EscapeSubsection(text)|;
      Close(line, index, true, false) == Close(line, end, true, false)
      && CloseQuote(line, index, false) == CloseQuote(line, end, false)
    decreases |text|
  {
    if text != "" {
      var first := if text[0] == QUOTE || text[0] == BACKSLASH then [BACKSLASH, text[0]] else [text[0]];
      PartsAt(first, EscapeSubsection(text[1..]), line, index);
      assert line[index..index + |first|][0] == first[0] && line[index] == first[0];
      if |first| == 2 { assert line[index..index + |first|][1] == line[index + 1] == text[0]; }
      QuotesSpanSubsection(line, index + |first|, text[1..]);
    }
  }

  lemma {:induction false} CloseSkips(line: string, index: nat, end: nat)
    requires index <= end <= |line|
    requires forall i :: index <= i < end ==> line[i] != QUOTE && line[i] != ']'
    ensures Close(line, index, false, false) == Close(line, end, false, false)
    decreases end - index
  {
    if index < end {
      CloseSkips(line, index + 1, end);
    }
  }

  lemma {:induction false} SkipNameStops(line: string, index: nat, end: nat)
    requires index <= end <= |line|
    requires (forall i :: index <= i < end ==> IsNameChar(line[i])) && (end < |line| ==> !IsNameChar(line[end]))
    ensures SkipName(line, index) == end
    decreases end - index
  {
    if index < end {
      SkipNameStops(line, index + 1, end);
    }
  }

  predicate IsName(name: string) {
    name != "" && forall i :: 0 <= i < |name| ==> IsNameChar(name[i])
  }

  /** A plain header names its section. */
  lemma PlainHeaderRead(name: string, rest: string)
    requires IsName(name)
    ensures SectionAt("[" + name + "]" + rest, 0) == Some(Section(AsciiLower(name), true, |name| + 2))
  {
    var line := "[" + name + "]" + rest;
    forall i | 1 <= i < |name| + 1 ensures line[i] != QUOTE && line[i] != ']' {
      assert line[i] == name[i - 1];
    }
    CloseSkips(line, 1, |name| + 1);
    assert line[|name| + 1] == ']' && line[1..|name| + 1] == name;
    SkipNameStops(name, 0, |name|);
    assert name[..|name|] == name;
  }

  /** A header with a dotted subsection is one header and names no plain section. */
  lemma DottedHeaderRead(name: string, dotted: string, header: string, rest: string)
    requires IsName(name) && dotted != "" && (forall c <- dotted :: c == '.' || IsName([c]))
    requires header == name + ("." + dotted)
    ensures SectionAt("[" + header + "]" + rest, 0) == Some(Section(AsciiLower(name), false, |header| + 2))
  {
    var line, n := "[" + header + "]" + rest, |name|;
    forall i | 0 <= i < |dotted| ensures dotted[i] == '.' || IsNameChar(dotted[i]) {
      assert dotted[i] == '.' || [dotted[i]][0] == dotted[i];
    }
    forall i | 1 <= i < |header| + 1 ensures line[i] != QUOTE && line[i] != ']' {
      assert line[i] == (if i < n + 1 then name[i - 1] else if i == n + 1 then '.' else dotted[i - n - 2]);
    }
    CloseSkips(line, 1, |header| + 1);
    assert line[|header| + 1] == ']';
    HeaderName(name, "." + dotted);
    assert IsDotted(header, n + 1) by {
      forall i | n + 1 <= i < |header| ensures IsNameChar(header[i]) || header[i] == '.' { assert header[i] == dotted[i - n - 1]; }
    }
    BracketedHeader(header, rest, Some(Section(AsciiLower(name), false, |header| + 2)));
  }

  function SubsectionHeader(name: string, subsection: string): string {
    name + (" " + ([QUOTE] + EscapeSubsection(subsection) + [QUOTE]))
  }

  lemma SubsectionCloses(name: string, subsection: string, rest: string)
    requires IsName(name)
    ensures
      var header := SubsectionHeader(name, subsection);
      Close("[" + header + "]" + rest, 1, false, false) == Some(|header| + 1)
  {
    var header := SubsectionHeader(name, subsection);
    var line := "[" + header + "]" + rest;
    var open := |name| + 2;
    forall i | 1 <= i < open ensures line[i] != QUOTE && line[i] != ']' {
      assert line[i] == (if i < |name| + 1 then name[i - 1] else ' ');
    }
    CloseSkips(line, 1, open);
    assert line[open] == QUOTE;
    assert line[open + 1..open + 1 + |EscapeSubsection(subsection)|] == EscapeSubsection(subsection);
    QuotesSpanSubsection(line, open + 1, subsection);
    assert line[|header|] == QUOTE && line[|header| + 1] == ']';
  }

  lemma HeaderName(name: string, rest: string)
    requires IsName(name) && rest != "" && !IsNameChar(rest[0])
    ensures SkipName(name + rest, 0) == |name| && (name + rest)[..|name|] == name && (name + rest)[|name|] == rest[0]
  {
    var header := name + rest;
    forall i | 0 <= i < |name| ensures IsNameChar(header[i]) {
      assert header[i] == name[i];
    }
    SkipNameStops(header, 0, |name|);
  }

  lemma HeaderQuotes(header: string, open: nat, subsection: string)
    requires open < |header| && header[open] == QUOTE
    requires header[open + 1..] == EscapeSubsection(subsection) + [QUOTE]
    ensures CloseQuote(header, open + 1, false) == Some(|header| - 1)
  {
    var escaped := EscapeSubsection(subsection);
    assert header[open + 1..open + 1 + |escaped|] == header[open + 1..][..|escaped|] == escaped;
    QuotesSpanSubsection(header, open + 1, subsection);
    assert header[|header| - 1] == header[open + 1..][|escaped|] == QUOTE;
  }

  lemma AfterOpenQuote(name: string, escaped: string)
    ensures
      var header := name + (" " + ([QUOTE] + escaped + [QUOTE]));
      header[|name| + 1] == QUOTE && header[|name| + 2..] == escaped + [QUOTE]
  {
    var quoted := [QUOTE] + escaped + [QUOTE];
    var header := name + (" " + quoted);
    assert header[|name| + 1..] == quoted && quoted[1..] == escaped + [QUOTE];
    assert header[|name| + 2..] == header[|name| + 1..][1..];
  }

  lemma SubsectionNamed(name: string, subsection: string, next: nat)
    requires IsName(name)
    ensures Header(SubsectionHeader(name, subsection), next) == Some(Section(AsciiLower(name), false, next))
  {
    var header := SubsectionHeader(name, subsection);
    var n := |name|;
    HeaderName(name, " " + ([QUOTE] + EscapeSubsection(subsection) + [QUOTE]));
    AfterOpenQuote(name, EscapeSubsection(subsection));
    assert SkipBlank(header, n) == n + 1;
    HeaderQuotes(header, n + 1, subsection);
    QuotedHeader(header, n, next);
  }

  lemma QuotedHeader(header: string, nameEnd: nat, next: nat)
    requires 0 < nameEnd == SkipName(header, 0) < |header| && IsBlank(header[nameEnd])
    requires
      var open := SkipBlank(header, nameEnd);
      open < |header| && header[open] == QUOTE && CloseQuote(header, open + 1, false) == Some(|header| - 1)
    ensures Header(header, next) == Some(Section(AsciiLower(header[..nameEnd]), false, next))
  {
  }

  /** A header that closes where its bracket stands. */
  lemma BracketedHeader(header: string, rest: string, section: Option<Section>)
    requires Close("[" + header + "]" + rest, 1, false, false) == Some(|header| + 1)
    requires Header(header, |header| + 2) == section
    ensures SectionAt("[" + header + "]" + rest, 0) == section
  {
    var line := "[" + header + "]" + rest;
    assert line[1..|header| + 1] == header;
    assert line[0 + 1..|header| + 1] == line[1..|header| + 1];
  }

  /** A header with any subsection is one header, however many brackets, quotes and
      backslashes the subsection holds, and does not name a plain section. */
  lemma SubsectionHeaderRead(name: string, subsection: string, header: string, rest: string)
    requires IsName(name) && header == SubsectionHeader(name, subsection)
    ensures SectionAt("[" + header + "]" + rest, 0) == Some(Section(AsciiLower(name), false, |header| + 2))
  {
    SubsectionCloses(name, subsection, rest);
    SubsectionNamed(name, subsection, |header| + 2);
    BracketedHeader(header, rest, Some(Section(AsciiLower(name), false, |header| + 2)));
  }
}
