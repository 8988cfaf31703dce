/** String operations of ECMAScript the rollout readers rest on: splitting at newlines,
    trimming, joining. */
module TextLines {

  const NEWLINE: char := '\n'
  const BYTE_ORDER_MARK: char := '\U{FEFF}'

  /** The largest line a native transcript reader accepts. */
  const NATIVE_RECORD_BYTE_LIMIT: nat := 10 * 1024 * 1024

  /** raw.split("\n"): one line more than there are newlines. */
  function Lines(raw: string): (lines: seq<string>)
    ensures |lines| >= 1
  {
    if raw == "" then [""]
    else if raw[0] == NEWLINE then [""] + Lines(raw[1..])
    else
      var rest := Lines(raw[1..]);
      [[raw[0]] + rest[0]] + rest[1..]
  }

  /** The text before the first newline, if there is one. */
  function FirstLine(raw: string): string {
    Lines(raw)[0]
  }

  function Join(lines: seq<string>): string {
    if lines == [] then "" else if |lines| == 1 then lines[0] else lines[0] + [NEWLINE] + Join(lines[1..])
  }

  function MapLines<T>(f: string -> T, lines: seq<string>): (mapped: seq<T>)
    ensures |mapped| == |lines| && forall i :: 0 <= i < |lines| ==> mapped[i] == f(lines[i])
  {
    seq(|lines|, i requires 0 <= i < |lines| => f(lines[i]))
  }

  lemma MapOfConcat<T>(f: string -> T, a: seq<string>, b: seq<string>)
    ensures MapLines(f, a + b) == MapLines(f, a) + MapLines(f, b)
  {
  }

  lemma {:induction false} LinesOfConcat(a: string, b: string)
    ensures Lines(a + [NEWLINE] + b) == Lines(a) + Lines(b)
  {
    var all := a + [NEWLINE] + b;
    if a == "" {
      assert all[1..] == b;
    } else {
      assert all[1..] == a[1..] + [NEWLINE] + b;
      LinesOfConcat(a[1..], b);
    }
  }

  lemma {:induction false} LinesOfOneLine(a: string)
    requires NEWLINE !in a
    ensures Lines(a) == [a]
  {
    if a != "" {
      assert a[0] in a;
      LinesOfOneLine(a[1..]);
      assert [a[0]] + a[1..] == a;
    }
  }

  /** No line holds a newline, and joining the lines gives the text back. */
  lemma {:induction false} JoinOfLines(raw: string)
    ensures Join(Lines(raw)) == raw
    ensures forall line <- Lines(raw) :: NEWLINE !in line
  {
    if raw != "" {
      JoinOfLines(raw[1..]);
      var rest := Lines(raw[1..]);
      if raw[0] == NEWLINE {
        assert Lines(raw)[1..] == rest;
      } else {
        assert Lines(raw)[1..] == rest[1..];
      }
    }
  }

  // ---- trimming ------------------------------------------------------------------

  /** WhiteSpace and LineTerminator of sections 12.2 and 12.3 of ECMA-262. */
  predicate IsSpace(c: char) {
    var code := c as int;
    9 <= code <= 13 || code == 0x20 || code == 0xA0 || code == 0x1680 || 0x2000 <= code <= 0x200A
    || code == 0x2028 || code == 0x2029 || code == 0x202F || code == 0x205F || code == 0x3000 || code == 0xFEFF
  }

  function TrimStart(s: string): (t: string)
    ensures |t| <= |s| && s[|s| - |t|..] == t
    ensures t == "" || !IsSpace(t[0])
  {
    if s == "" || !IsSpace(s[0]) then s else TrimStart(s[1..])
  }

  function TrimEnd(s: string): (t: string)
    ensures |t| <= |s| && s[..|t|] == t
    ensures t == "" || !IsSpace(t[|t| - 1])
  {
    if s == "" || !IsSpace(s[|s| - 1]) then s else TrimEnd(s[..|s| - 1])
  }

  function Trim(s: string): string {
    TrimEnd(TrimStart(s))
  }
}
