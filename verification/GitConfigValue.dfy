/** Values of a Git config file: quotes, escapes, comments and outer white space
    (src/git-project.ts, lines 746-791). */
module GitConfigValue {
  import opened Options
  import opened GitConfigLines

  /** What the reader has of a value; invalid after an unknown escape, done at a comment. */
  datatype Reading =
    | Reading(value: string, escaped: bool, quoted: bool, started: bool, trailing: nat)
    | Done(value: string, trailing: nat)
    | Invalid

  const NOTHING_READ := Reading("", false, false, false, 0)

  function Unescape(c: char): Option<char> {
    match c
    case 'n' => Some('\n')
    case 't' => Some('\t')
    case 'b' => Some('\U{0008}')
    case _ => if c == BACKSLASH || c == QUOTE then Some(c) else None
  }

  function ReadChar(r: Reading, c: char): Reading {
    if !r.Reading? then r
    else if r.escaped then
      match Unescape(c)
      case None => Invalid
      case Some(decoded) => Reading(r.value + [decoded], false, r.quoted, true, 0)
    else if c == BACKSLASH then r.(escaped := true)
    else if c == QUOTE then r.(quoted := !r.quoted, started := true, trailing := 0)
    else if !r.quoted && StartsComment(c) then Done(r.value, r.trailing)
    else if !r.quoted && IsBlank(c) then
      if !r.started then r else r.(value := r.value + [c], trailing := r.trailing + 1)
    else Reading(r.value + [c], false, r.quoted, true, 0)
  }

  function Read(raw: string, r: Reading): Reading {
    if raw == "" then r else ReadChar(Read(raw[..|raw| - 1], r), raw[|raw| - 1])
  }

  /** The value without the unquoted white space after it. */
  function Finish(r: Reading): Option<string> {
    match r
    case Invalid => None
    case Done(value, trailing) => if trailing <= |value| then Some(value[..|value| - trailing]) else None
    case Reading(value, escaped, quoted, started, trailing) =>
      if escaped || quoted || trailing > |value| then None else Some(value[..|value| - trailing])
  }

  function ConfigValue(raw: string): Option<string> {
    Finish(Read(raw, NOTHING_READ))
  }

  lemma {:induction false} ReadOfConcat(a: string, b: string, r: Reading)
    ensures Read(a + b, r) == Read(b, Read(a, r))
    decreases |b|
  {
    if b == "" {
      assert a + b == a;
    } else {
      assert (a + b)[..|a + b| - 1] == a + b[..|b| - 1];
      ReadOfConcat(a, b[..|b| - 1], r);
    }
  }

  lemma {:induction false} ReadingOver(raw: string, r: Reading)
    requires !r.Reading?
    ensures Read(raw, r) == r
  {
    if raw != "" {
      ReadingOver(raw[..|raw| - 1], r);
    }
  }

  lemma ReadAll(raw: string, i: nat, r: Reading)
    requires i <= |raw|
    ensures !Read(raw[..i], r).Reading? ==> Read(raw, r) == Read(raw[..i], r)
    ensures i < |raw| ==> Read(raw[..i + 1], r) == ReadChar(Read(raw[..i], r), raw[i])
  {
    assert raw == raw[..i] + raw[i..];
    ReadOfConcat(raw[..i], raw[i..], r);
    if !Read(raw[..i], r).Reading? { ReadingOver(raw[i..], Read(raw[..i], r)); }
    if i < |raw| { assert raw[..i + 1][..i] == raw[..i]; }
  }

  method ParseConfigValue(raw: string) returns (parsed: Option<string>)
    ensures parsed == ConfigValue(raw)
  {
    var value := "";
    var escaped, quoted, started := false, false, false;
    var trailing: nat := 0;
    var index: nat := 0;
    while index < |raw|
      invariant index <= |raw| && trailing <= |value|
      invariant Read(raw[..index], NOTHING_READ) == Reading(value, escaped, quoted, started, trailing)
    {
      ReadAll(raw, index, NOTHING_READ);
      ReadAll(raw, index + 1, NOTHING_READ);
      var c := raw[index];
      index := index + 1;
      if escaped {
        var decoded := Unescape(c);
        if decoded.None? { return None; }
        value := value + [decoded.value];
        started := true;
        trailing := 0;
        escaped := false;
        continue;
      }
      if c == BACKSLASH {
        escaped := true;
        continue;
      }
      if c == QUOTE {
        quoted := !quoted;
        started := true;
        trailing := 0;
        continue;
      }
      if !quoted && StartsComment(c) { return Some(value[..|value| - trailing]); }
      if !quoted && IsBlank(c) {
        if !started { continue; }
        value := value + [c];
        trailing := trailing + 1;
        continue;
      }
      value := value + [c];
      started := true;
      trailing := 0;
    }
    assert raw[..index] == raw;
    if escaped || quoted { return None; }
    return Some(value[..|value| - trailing]);
  }

  // ---- rendering and reading back ------------------------------------------------------------

  /** One character inside quotes; a newline, a quote and a backslash must be escaped. */
  function EscapeChar(c: char): string {
    if c == '\n' then [BACKSLASH, 'n']
    else if c == '\t' then [BACKSLASH, 't']
    else if c == '\U{0008}' then [BACKSLASH, 'b']
    else if c == BACKSLASH || c == QUOTE then [BACKSLASH, c]
    else [c]
  }

  function Escape(text: string): string {
    if text == "" then "" else Escape(text[..|text| - 1]) + EscapeChar(text[|text| - 1])
  }

  function Quoted(text: string): string {
    [QUOTE] + Escape(text) + [QUOTE]
  }

  lemma ReadOne(c: char, r: Reading)
    ensures Read([c], r) == ReadChar(r, c)
  {
    assert [c][..0] == "";
    assert Read([c], r) == ReadChar(Read([c][..0], r), c);
  }

  lemma ReadEscapedChar(c: char, value: string)
    ensures Read(EscapeChar(c), Reading(value, false, true, true, 0)) == Reading(value + [c], false, true, true, 0)
  {
    var r := Reading(value, false, true, true, 0);
    var escape := EscapeChar(c);
    ReadOne(escape[0], r);
    if |escape| == 2 {
      assert escape == [BACKSLASH] + [escape[1]];
      ReadOfConcat([BACKSLASH], [escape[1]], r);
      ReadOne(escape[1], r.(escaped := true));
    }
  }

  lemma {:induction false} ReadEscaped(text: string, value: string)
    ensures Read(Escape(text), Reading(value, false, true, true, 0)) == Reading(value + text, false, true, true, 0)
  {
    var r := Reading(value, false, true, true, 0);
    if text == "" {
      assert value + text == value;
    } else {
      var init, last := text[..|text| - 1], text[|text| - 1];
      assert value + init + [last] == value + text;
      assert Read(Escape(init), r) == Reading(value + init, false, true, true, 0) by { ReadEscaped(init, value); }
      ReadEscapedChar(last, value + init);
      ReadOfConcat(Escape(init), EscapeChar(last), r);
    }
  }

  predicate IsWhite(text: string) {
    forall i :: 0 <= i < |text| ==> text[i] == ' ' || text[i] == '\t'
  }

  lemma {:induction false} ReadBlanksBefore(blanks: string)
    requires IsWhite(blanks)
    ensures Read(blanks, NOTHING_READ) == NOTHING_READ
  {
    if blanks != "" {
      ReadBlanksBefore(blanks[..|blanks| - 1]);
    }
  }

  lemma {:induction false} ReadQuoted(text: string)
    ensures Read(Quoted(text), NOTHING_READ) == Reading(text, false, false, true, 0)
  {
    var inside := Reading("", false, true, true, 0);
    ReadOne(QUOTE, NOTHING_READ);
    assert Quoted(text) == [QUOTE] + (Escape(text) + [QUOTE]);
    ReadOfConcat([QUOTE], Escape(text) + [QUOTE], NOTHING_READ);
    ReadOfConcat(Escape(text), [QUOTE], inside);
    ReadEscaped(text, "");
    assert "" + text == text;
    ReadOne(QUOTE, Reading(text, false, true, true, 0));
  }

  /** Any text in quotes, with white space before it, is read back. */
  lemma {:induction false} QuotedRoundTrip(blanks: string, text: string)
    requires IsWhite(blanks)
    ensures ConfigValue(blanks + Quoted(text)) == Some(text)
  {
    ReadBlanksBefore(blanks);
    ReadOfConcat(blanks, Quoted(text), NOTHING_READ);
    ReadQuoted(text);
    assert text[..|text| - 0] == text;
  }

  /** A text that needs no quotes: nothing special in it, and no white space around it. */
  predicate IsPlain(text: string) {
    text != "" && !IsWhite(text[..1]) && !IsWhite(text[|text| - 1..])
    && forall c <- text :: c != '\\' && c != '"' && c != '#' && c != ';'
  }

  function Trailing(text: string): (n: nat)
    ensures n <= |text|
  {
    if text == "" || !IsBlank(text[|text| - 1]) then 0 else Trailing(text[..|text| - 1]) + 1
  }

  lemma {:induction false} ReadPlain(text: string)
    requires text != "" && !IsBlank(text[0])
    requires forall c <- text :: c != BACKSLASH && c != QUOTE && !StartsComment(c)
    ensures Read(text, NOTHING_READ) == Reading(text, false, false, true, Trailing(text))
  {
    var init, last := text[..|text| - 1], text[|text| - 1];
    assert last in text && text == init + [last];
    if init == "" {
      assert Read(init, NOTHING_READ) == NOTHING_READ;
      assert Trailing(text) == 0;
    } else {
      assert forall c <- init :: c in text;
      ReadPlain(init);
    }
  }

  lemma {:induction false} TrailingOf(text: string, blanks: string)
    requires text != "" && !IsBlank(text[|text| - 1]) && forall c <- blanks :: IsBlank(c)
    ensures Trailing(text + blanks) == |blanks|
  {
    if blanks == "" {
      assert text + blanks == text;
    } else {
      assert blanks[|blanks| - 1] in blanks;
      assert forall c <- blanks[..|blanks| - 1] :: c in blanks;
      assert (text + blanks)[..|text + blanks| - 1] == text + blanks[..|blanks| - 1];
      TrailingOf(text, blanks[..|blanks| - 1]);
    }
  }

  /** A comment ends the value. */
  lemma ReadComment(comment: string, shown: string, trailing: nat)
    requires comment != "" && StartsComment(comment[0])
    ensures Read(comment, Reading(shown, false, false, true, trailing)) == Done(shown, trailing)
  {
    var r := Reading(shown, false, false, true, trailing);
    assert comment == [comment[0]] + comment[1..];
    ReadOfConcat([comment[0]], comment[1..], r);
    ReadOne(comment[0], r);
    ReadingOver(comment[1..], Done(shown, trailing));
  }

  /** A plain text is read back without the white space around it and a comment after it. */
  lemma {:induction false} PlainRoundTrip(before: string, text: string, after: string, comment: string)
    requires IsWhite(before) && IsWhite(after) && IsPlain(text)
    requires comment == "" || comment[0] == '#' || comment[0] == ';'
    ensures ConfigValue(before + (text + after) + comment) == Some(text)
  {
    var shown := text + after;
    ReadBlanksBefore(before);
    ReadOfConcat(before, shown, NOTHING_READ);
    forall c <- shown ensures c != BACKSLASH && c != QUOTE && !StartsComment(c) {
      assert c in text || c in after;
    }
    ReadPlain(shown);
    TrailingOf(text, after);
    ReadOfConcat(before + shown, comment, NOTHING_READ);
    if comment != "" { ReadComment(comment, shown, |after|); }
    assert shown[..|shown| - |after|] == text;
  }
}
