/** Logical lines of a Git config file: continuations, quotes and comments
    (src/git-project.ts, lines 498-500, 603-659). */
module GitConfigLines {
  import opened TextLines
  import opened Sequences

  const BACKSLASH: char := '\\'
  const QUOTE: char := '"'

  predicate IsBlank(c: char) {
    c == ' ' || c == '\t'
  }

  predicate StartsComment(c: char) {
    c == '#' || c == ';'
  }

  // ---- one physical line -----------------------------------------------------------------

  /** Where a scan stands: inside the text, or past the start of a comment. */
  datatype Place = Text(quoted: bool, escaped: bool) | Comment(quoted: bool)

  function Advance(place: Place, c: char): Place {
    if place.Comment? then place
    else if place.escaped then Text(place.quoted, false)
    else if c == BACKSLASH then Text(place.quoted, true)
    else if c == QUOTE then Text(!place.quoted, false)
    else if !place.quoted && StartsComment(c) then Comment(false)
    else place
  }

  function At(line: string, start: Place): Place {
    if line == "" then start else Advance(At(line[..|line| - 1], start), line[|line| - 1])
  }

  lemma {:induction false} PlaceOfConcat(a: string, b: string, start: Place)
    ensures At(a + b, start) == At(b, At(a, start))
    decreases |b|
  {
    if b == "" {
      assert a + b == a;
    } else {
      assert (a + b)[..|a + b| - 1] == a + b[..|b| - 1];
      PlaceOfConcat(a, b[..|b| - 1], start);
    }
  }

  lemma {:induction false} CommentStays(line: string, start: Place)
    requires start.Comment?
    ensures At(line, start) == start
  {
    if line != "" {
      CommentStays(line[..|line| - 1], start);
    }
  }

  predicate Continues(place: Place) {
    place.Text? && place.escaped
  }

  method ScanPhysicalConfigLine(line: string, initialQuoted: bool) returns (continues: bool, quoted: bool)
    ensures
      var end := At(line, Text(initialQuoted, false));
      continues == Continues(end) && quoted == end.quoted
  {
    quoted := initialQuoted;
    var escaped := false;
    ghost var start := Text(initialQuoted, false);
    for i := 0 to |line|
      invariant At(line[..i], start) == Text(quoted, escaped)
    {
      assert line[..i + 1][..i] == line[..i];
      var c := line[i];
      if escaped {
        escaped := false;
        continue;
      }
      if c == BACKSLASH {
        escaped := true;
        continue;
      }
      if c == QUOTE {
        quoted := !quoted;
        continue;
      }
      if !quoted && StartsComment(c) {
        assert line == line[..i + 1] + line[i + 1..];
        PlaceOfConcat(line[..i + 1], line[i + 1..], start);
        CommentStays(line[i + 1..], Comment(false));
        return false, quoted;
      }
    }
    assert line[..|line|] == line;
    continues := escaped;
  }

  // ---- logical lines ---------------------------------------------------------------------

  function StripCarriageReturn(raw: string): string {
    if raw != "" && raw[|raw| - 1] == '\r' then raw[..|raw| - 1] else raw
  }

  function SkipBlank(line: string, cursor: nat): (next: nat)
    requires cursor <= |line|
    ensures cursor <= next <= |line|
    ensures next < |line| ==> !IsBlank(line[next])
    decreases |line| - cursor
  {
    if cursor < |line| && IsBlank(line[cursor]) then SkipBlank(line, cursor + 1) else cursor
  }

  predicate OpensSection(line: string) {
    var cursor := SkipBlank(line, 0);
    cursor < |line| && line[cursor] == '['
  }

  /** The logical lines so far, and the physical lines waiting for their continuation. */
  datatype Joined = Joined(lines: seq<string>, valid: bool, waiting: string, quoted: bool, continued: bool)

  const NOTHING_JOINED := Joined([], true, "", false, false)

  function JoinLine(s: Joined, raw: string): Joined {
    JoinStripped(s, StripCarriageReturn(raw))
  }

  function JoinStripped(s: Joined, line: string): Joined {
    var end := At(line, Text(s.quoted, false));
    if Continues(end) then
      ContinuesHasBackslash(line, s.quoted);
      s.(waiting := s.waiting + line[..|line| - 1], quoted := end.quoted, continued := true)
    else
      var logical := s.waiting + line;
      Joined(s.lines + [logical], s.valid && !(s.continued && OpensSection(logical)), "", false, false)
  }

  function JoinAll(raws: seq<string>, s: Joined): Joined {
    if raws == [] then s else JoinLine(JoinAll(raws[..|raws| - 1], s), raws[|raws| - 1])
  }

  /** The logical lines of a config, and whether they are well formed: no line is left
      waiting, and no continued line opens a section. */
  function LogicalLines(config: string): (seq<string>, bool) {
    var s := JoinAll(Lines(config), NOTHING_JOINED);
    (s.lines, s.valid && !s.continued)
  }

  lemma ContinuesHasBackslash(line: string, quoted: bool)
    requires Continues(At(line, Text(quoted, false)))
    ensures line != "" && line[|line| - 1] == BACKSLASH
  {
  }

  method ScanForSection(line: string) returns (opens: bool)
    ensures opens == OpensSection(line)
  {
    var cursor: nat := 0;
    while cursor < |line| && IsBlank(line[cursor])
      invariant cursor <= |line| && SkipBlank(line, cursor) == SkipBlank(line, 0)
    {
      cursor := cursor + 1;
    }
    opens := cursor < |line| && line[cursor] == '[';
  }

  lemma {:induction false} JoinNext(raws: seq<string>, i: nat, s: Joined)
    requires i < |raws|
    ensures JoinAll(raws[..i + 1], s) == JoinLine(JoinAll(raws[..i], s), raws[i])
  {
    assert raws[..i + 1][..i] == raws[..i];
  }

  method LogicalConfigLines(config: string) returns (lines: seq<string>, valid: bool)
    ensures (lines, valid) == LogicalLines(config)
  {
    lines := [];
    var waiting := "";
    var pieces: nat := 0;
    var continuedQuote := false;
    valid := true;
    var raws := Lines(config);
    for i := 0 to |raws|
      invariant JoinAll(raws[..i], NOTHING_JOINED) == Joined(lines, valid, waiting, continuedQuote, pieces > 0)
      invariant pieces == 0 ==> waiting == ""
    {
      JoinNext(raws, i, NOTHING_JOINED);
      var line := StripCarriageReturn(raws[i]);
      var continues, quoted := ScanPhysicalConfigLine(line, continuedQuote);
      if continues {
        ContinuesHasBackslash(line, continuedQuote);
        waiting := waiting + line[..|line| - 1];
        pieces := pieces + 1;
        continuedQuote := quoted;
        continue;
      }
      var logicalLine := waiting + line;
      if pieces > 0 {
        var opens := ScanForSection(logicalLine);
        if opens { valid := false; }
      }
      lines := lines + [logicalLine];
      waiting := "";
      pieces := 0;
      continuedQuote := false;
    }
    assert raws[..|raws|] == raws;
    valid := valid && pieces == 0;
  }

  // ---- a continuation inserted anywhere outside an escape and a comment ---------------------

  lemma {:induction false} JoinAllOfConcat(a: seq<string>, b: seq<string>, s: Joined)
    ensures JoinAll(a + b, s) == JoinAll(b, JoinAll(a, s))
    decreases |b|
  {
    if b == [] {
      assert a + b == a;
    } else {
      assert (a + b)[..|a + b| - 1] == a + b[..|b| - 1];
      JoinAllOfConcat(a, b[..|b| - 1], s);
    }
  }

  lemma {:induction false} InvalidStays(raws: seq<string>, s: Joined)
    ensures JoinAll(raws, s.(valid := false)) == JoinAll(raws, s).(valid := false)
  {
    if raws != [] {
      InvalidStays(raws[..|raws| - 1], s);
    }
  }

  /** The state before the line that the text ends in. */
  function Before(text: string): Joined {
    JoinAll(Lines(text)[..|Lines(text)| - 1], NOTHING_JOINED)
  }

  function LastLine(text: string): string {
    Lines(text)[|Lines(text)| - 1]
  }

  function PlaceAfter(text: string): Place {
    At(LastLine(text), Text(Before(text).quoted, false))
  }

  /** Between two characters of a line, outside an escape and a comment, and not where a
      carriage return ends the line. */
  predicate MaySplice(before: string, after: string) {
    PlaceAfter(before).Text? && !PlaceAfter(before).escaped
    && (FirstLine(after) == "" ==> LastLine(before) == "" || LastLine(before)[|LastLine(before)| - 1] != '\r')
  }

  /** Whether the line around a splice is one physical line that opens a section. */
  predicate SplicesSection(before: string, after: string) {
    var s, line := Before(before), StripCarriageReturn(LastLine(before) + FirstLine(after));
    !s.continued && !Continues(At(line, Text(s.quoted, false))) && OpensSection(line)
  }

  lemma StripOfConcat(a: string, b: string)
    requires b == "" ==> a == "" || a[|a| - 1] != '\r'
    ensures StripCarriageReturn(a + b) == a + StripCarriageReturn(b)
  {
    if b == "" {
      assert a + b == a;
    } else if b[|b| - 1] == '\r' {
      assert (a + b)[..|a + b| - 1] == a + b[..|b| - 1];
    }
  }

  lemma JoinFirstHalf(s: Joined, a: string)
    requires At(a, Text(s.quoted, false)).Text? && !At(a, Text(s.quoted, false)).escaped
    ensures JoinLine(s, a + [BACKSLASH])
      == s.(waiting := s.waiting + a, quoted := At(a, Text(s.quoted, false)).quoted, continued := true)
  {
    var split := a + [BACKSLASH];
    assert StripCarriageReturn(split) == split && split[..|split| - 1] == a;
  }

  /** What a line that starts after some text joins to. */
  lemma JoinRest(s: Joined, half: Joined, a: string, rest: string)
    requires half == s.(waiting := s.waiting + a, quoted := half.quoted, continued := true)
    requires At(a, Text(s.quoted, false)) == Text(half.quoted, false)
    ensures JoinStripped(half, rest)
      == if Continues(At(a + rest, Text(s.quoted, false))) then JoinStripped(s, a + rest)
         else JoinStripped(s, a + rest).(valid := s.valid && !OpensSection(s.waiting + a + rest))
  {
    var start := Text(s.quoted, false);
    assert At(a + rest, start) == At(rest, Text(half.quoted, false)) by { PlaceOfConcat(a, rest, start); }
    if Continues(At(rest, Text(half.quoted, false))) {
      ContinuesHasBackslash(rest, half.quoted);
      assert (a + rest)[..|a + rest| - 1] == a + rest[..|rest| - 1];
      assert s.waiting + (a + rest[..|rest| - 1]) == (s.waiting + a) + rest[..|rest| - 1];
    } else {
      assert s.waiting + (a + rest) == (s.waiting + a) + rest;
    }
  }

  /** Joining a line in two halves is joining it at once, but for a section opened by it. */
  lemma JoinHalves(s: Joined, a: string, b: string)
    requires b == "" ==> a == "" || a[|a| - 1] != '\r'
    requires At(a, Text(s.quoted, false)).Text? && !At(a, Text(s.quoted, false)).escaped
    requires !s.continued ==> s.waiting == ""
    ensures
      var line, whole, halves := StripCarriageReturn(a + b), JoinLine(s, a + b), JoinLine(JoinLine(s, a + [BACKSLASH]), b);
      halves == if !s.continued && !Continues(At(line, Text(s.quoted, false))) && OpensSection(line)
                then whole.(valid := false) else whole
  {
    var half, rest := JoinLine(s, a + [BACKSLASH]), StripCarriageReturn(b);
    JoinFirstHalf(s, a);
    StripOfConcat(a, b);
    JoinRest(s, half, a, rest);
    Associates(s.waiting, a, rest);
    if s.waiting == "" { assert s.waiting + (a + rest) == a + rest; }
  }

  /** Two lists of lines, the last of the first and the first of the second made one. */
  function JoinEnds(x: seq<string>, y: seq<string>): seq<string>
    requires x != [] && y != []
  {
    if |x| == 1 then [x[0] + y[0]] + y[1..] else [x[0]] + JoinEnds(x[1..], y)
  }

  lemma {:induction false} JoinEndsIs(x: seq<string>, y: seq<string>)
    requires x != [] && y != []
    ensures JoinEnds(x, y) == x[..|x| - 1] + [x[|x| - 1] + y[0]] + y[1..]
  {
    if |x| > 1 {
      JoinEndsIs(x[1..], y);
      assert x[..|x| - 1] == [x[0]] + x[1..][..|x[1..]| - 1];
    }
  }

  lemma JoinEndsOfLonger(c: char, x: seq<string>, y: seq<string>)
    requires x != [] && y != []
    ensures
      var z := JoinEnds(x, y);
      z != [] && JoinEnds([[c] + x[0]] + x[1..], y) == [[c] + z[0]] + z[1..]
  {
    var longer := [[c] + x[0]] + x[1..];
    assert longer[1..] == x[1..];
    if |x| == 1 {
      assert [c] + x[0] + y[0] == [c] + (x[0] + y[0]);
    }
  }

  lemma {:induction false} LinesOfBoth(a: string, b: string)
    ensures Lines(a + b) == JoinEnds(Lines(a), Lines(b))
  {
    if a == "" {
      assert a + b == b && "" + Lines(b)[0] == Lines(b)[0];
    } else {
      assert (a + b)[0] == a[0] && (a + b)[1..] == a[1..] + b;
      LinesOfBoth(a[1..], b);
      if a[0] == NEWLINE {
        assert Lines(a)[1..] == Lines(a[1..]);
      } else {
        JoinEndsOfLonger(a[0], Lines(a[1..]), Lines(b));
      }
    }
  }

  lemma LinesOfHalves(a: string, b: string)
    ensures Lines(a + b) == Lines(a)[..|Lines(a)| - 1] + [LastLine(a) + FirstLine(b)] + Lines(b)[1..]
  {
    LinesOfBoth(a, b);
    JoinEndsIs(Lines(a), Lines(b));
  }

  lemma {:induction false} NothingWaits(raws: seq<string>)
    ensures var s := JoinAll(raws, NOTHING_JOINED); !s.continued ==> s.waiting == ""
  {
    if raws != [] {
      NothingWaits(raws[..|raws| - 1]);
    }
  }

  lemma JoinAllAround(p: seq<string>, line: string, q: seq<string>)
    ensures JoinAll(p + [line] + q, NOTHING_JOINED) == JoinAll(q, JoinLine(JoinAll(p, NOTHING_JOINED), line))
  {
    JoinAllOfConcat(p + [line], q, NOTHING_JOINED);
    assert (p + [line])[..|p|] == p;
  }

  lemma LinesOfSplice(before: string, after: string)
    ensures Lines(before + [BACKSLASH, NEWLINE] + after)
      == Lines(before)[..|Lines(before)| - 1] + [LastLine(before) + [BACKSLASH]] + Lines(after)
  {
    assert before + [BACKSLASH, NEWLINE] + after == before + [BACKSLASH] + [NEWLINE] + after;
    LinesOfConcat(before + [BACKSLASH], after);
    LinesOfHalves(before, [BACKSLASH]);
    LinesOfOneLine([BACKSLASH]);
  }

  /** A backslash and a newline inserted outside an escape and a comment leave every logical
      line as it was, and the file as well formed as it was unless they continue a line
      that opens a section. */
  lemma SpliceKeepsLines(before: string, after: string)
    requires MaySplice(before, after)
    ensures LogicalLines(before + [BACKSLASH, NEWLINE] + after)
      == (LogicalLines(before + after).0, LogicalLines(before + after).1 && !SplicesSection(before, after))
  {
    var p, q := Lines(before)[..|Lines(before)| - 1], Lines(after)[1..];
    var a, b := LastLine(before), FirstLine(after);
    var s := Before(before);
    NothingWaits(p);
    WholeJoins(before, after);
    SpliceJoins(before, after);
    JoinHalves(s, a, b);
    InvalidStays(q, JoinLine(s, a + b));
  }

  lemma WholeJoins(before: string, after: string)
    ensures JoinAll(Lines(before + after), NOTHING_JOINED)
      == JoinAll(Lines(after)[1..], JoinLine(Before(before), LastLine(before) + FirstLine(after)))
  {
    LinesOfHalves(before, after);
    JoinAllAround(Lines(before)[..|Lines(before)| - 1], LastLine(before) + FirstLine(after), Lines(after)[1..]);
  }

  lemma SpliceJoins(before: string, after: string)
    ensures JoinAll(Lines(before + [BACKSLASH, NEWLINE] + after), NOTHING_JOINED)
      == JoinAll(Lines(after)[1..], JoinLine(JoinLine(Before(before), LastLine(before) + [BACKSLASH]), FirstLine(after)))
  {
    LinesOfSplice(before, after);
    SpliceLines(Lines(before)[..|Lines(before)| - 1], LastLine(before) + [BACKSLASH], FirstLine(after),
                Lines(after)[1..], Lines(after));
  }

  lemma SpliceLines(p: seq<string>, half: string, b: string, q: seq<string>, rest: seq<string>)
    requires rest != [] && rest[0] == b && rest[1..] == q
    ensures JoinAll(p + [half] + rest, NOTHING_JOINED) == JoinAll(q, JoinLine(JoinLine(JoinAll(p, NOTHING_JOINED), half), b))
  {
    assert p + [half] + rest == (p + [half]) + [b] + q;
    JoinAllAround(p + [half], b, q);
    assert (p + [half])[..|p|] == p;
  }
}
