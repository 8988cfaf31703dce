/** Messages of a rollout come back: a record that holds a message is parsed as that message
    (src/codex-transcript.ts, lines 70-135 and 236-372). */
module RolloutMessages {
  import opened Options
  import opened TextLines
  import opened Json
  import opened RolloutParse
  import opened Sequences

  datatype Block = Block(kind: string, text: string)

  predicate IsTextBlock(block: Block) {
    block.kind == "input_text" || block.kind == "output_text" || block.kind == "text"
  }

  /** The texts a reader sees, in order: blocks of the three kinds that are not empty. */
  function Shown(blocks: seq<Block>): seq<string> {
    if blocks == [] then []
    else (if IsTextBlock(blocks[0]) && blocks[0].text != "" then [blocks[0].text] else []) + Shown(blocks[1..])
  }

  predicate HoldsBlock(item: Json, block: Block) {
    HasText(item, "type", block.kind) && HasText(item, "text", block.text)
  }

  predicate HoldsBlocks(items: seq<Json>, blocks: seq<Block>) {
    |items| == |blocks| && (items == [] || (HoldsBlock(items[0], blocks[0]) && HoldsBlocks(items[1..], blocks[1..])))
  }

  /** A response item with a message of the role and the blocks. */
  predicate HoldsMessage(record: Json, role: string, blocks: seq<Block>) {
    HasText(record, "type", "response_item")
    && match PayloadOf(record)
       case None => false
       case Some(payload) =>
         && HasText(payload, "type", "message") && HasText(payload, "role", role)
         && match Field(payload, "content")
            case Some(Array(items)) => HoldsBlocks(items, blocks)
            case _ => false
  }

  /** A quarter of the code units, rounded up, and at least one. */
  predicate IsEstimate(count: nat, text: string) {
    var units := Utf16Length(text);
    if units == 0 then count == 1 else 4 * (count - 1) < units <= 4 * count
  }

  /** The message of a role with a text. */
  predicate IsMessage(message: Message, role: string, text: string) {
    message.role == role && message.content == text && IsEstimate(message.tokenCount, text)
  }

  lemma {:induction false} BlockComesBack(item: Json, block: Block)
    requires HoldsBlock(item, block)
    ensures item != Null && BlockText(item) == if IsTextBlock(block) then block.text else ""
  {
  }

  lemma {:induction false} ShownTexts(items: seq<Json>, blocks: seq<Block>)
    requires HoldsBlocks(items, blocks)
    ensures BlockTexts(items) == Shown(blocks) && Null !in items
    decreases |blocks|
  {
    if blocks != [] {
      BlockComesBack(items[0], blocks[0]);
      ShownTexts(items[1..], blocks[1..]);
      assert items == [items[0]] + items[1..];
    }
  }

  lemma {:induction false} TokensAreEstimate(text: string)
    ensures IsEstimate(TranscriptTokens(text), text)
  {
  }

  /** What a reader is shown of a message. */
  function TextOf(blocks: seq<Block>): string {
    Trim(Join(Shown(blocks)))
  }

  lemma {:induction false} ContentComesBack(content: Option<Json>, items: seq<Json>, blocks: seq<Block>)
    requires content == Some(Array(items)) && HoldsBlocks(items, blocks)
    ensures ExtractCodexText(content) == Some(TextOf(blocks))
  {
    ShownTexts(items, blocks);
  }

  predicate IsSpeaker(role: string) {
    role == "user" || role == "assistant"
  }

  lemma {:induction false} RoleComesBack(payload: Json, role: string)
    requires HasText(payload, "role", role)
    ensures NonEmptyText(Field(payload, "role")) == if role == "" then None else Some(role)
  {
  }

  lemma {:induction false} SpokenComesBack(role: string, shown: string)
    requires Trim(shown) == shown
    ensures ComesBack(Spoken(if role == "" then None else Some(role), Some(shown)), role, shown)
  {
    TokensAreEstimate(shown);
  }

  lemma {:induction false} TrimTwice(text: string)
    ensures Trim(Trim(text)) == Trim(text)
  {
    var s := TrimStart(text);
    var t := TrimEnd(s);
    if t != "" {
      assert s[..|t|][0] == s[0];
      StartsClean(t);
      EndsClean(t);
    }
  }

  lemma {:induction false} StartsClean(t: string)
    requires t != "" && !IsSpace(t[0])
    ensures TrimStart(t) == t
  {
  }

  lemma {:induction false} EndsClean(t: string)
    requires t != "" && !IsSpace(t[|t| - 1])
    ensures TrimEnd(t) == t
  {
  }

  /** What a record that holds a message is parsed as: that message, if a user or the
      assistant says something in it, and nothing otherwise. */
  predicate ComesBack(result: LineResult, role: string, shown: string) {
    if IsSpeaker(role) && shown != "" then result.Found? && IsMessage(result.message, role, shown) else result == Skipped
  }

  lemma {:induction false} MessageComesBack(record: Json, role: string, blocks: seq<Block>)
    requires HoldsMessage(record, role, blocks)
    ensures ComesBack(MessageOf(record), role, TextOf(blocks))
  {
    var payload := PayloadOf(record).value;
    ContentComesBack(Field(payload, "content"), Field(payload, "content").value.items, blocks);
    TrimTwice(Join(Shown(blocks)));
    RoleComesBack(payload, role);
    SpokenComesBack(role, TextOf(blocks));
  }

  /** Before the ordinal boundary an item is inherited, from it on it counts; without an
      ordinal it is inherited in a paginated history. */
  lemma {:induction false} OrdinalDecides(record: Json, start: nat, paginated: bool)
    requires HasText(record, "type", "response_item")
    ensures
      var inherited := match Field(record, "ordinal")
                       case Some(Number(n)) => if 0.0 <= n <= 9007199254740991.0 && n == n.Floor as real then n < start as real else paginated
                       case _ => paginated;
      PlainRecord(record, OrdinalBoundary(start, paginated)) == if inherited then Skipped else MessageOf(record)
  {
    match Field(record, "ordinal")
    case Some(Number(n)) => if n == n.Floor as real { FloorBelow(n, start); }
    case _ =>
  }

  lemma FloorBelow(n: real, start: nat)
    requires n == n.Floor as real
    ensures n < start as real <==> n.Floor < start
  {
  }

  // ---- whole rollouts ---------------------------------------------------------------------

  datatype Said = Said(role: string, blocks: seq<Block>)

  predicate HoldsSaid(parsed: Option<Json>, said: Said) {
    parsed.Some? && HoldsMessage(parsed.value, said.role, said.blocks)
  }

  /** Each line holds a message. */
  predicate AreWritten(lines: seq<string>, said: seq<Said>, parse: Parser) {
    |lines| == |said|
    && (lines == []
        || (AreWritten(Init(lines), Init(said), parse) && Trim(Last(lines)) != "" && HoldsSaid(parse(Trim(Last(lines))), Last(said))))
  }

  /** The messages in which somebody says something, in order. */
  predicate AreMessages(messages: seq<Message>, said: seq<Said>) {
    if said == [] then messages == []
    else if IsSpeaker(Last(said).role) && TextOf(Last(said).blocks) != "" then
      messages != [] && IsMessage(Last(messages), Last(said).role, TextOf(Last(said).blocks))
      && AreMessages(Init(messages), Init(said))
    else AreMessages(messages, Init(said))
  }

  lemma {:induction false} LineComesBack(line: string, said: Said, parse: Parser)
    requires Trim(line) != "" && HoldsSaid(parse(Trim(line)), said)
    ensures ComesBack(PlainLine(line, NoBoundary, parse), said.role, TextOf(said.blocks))
  {
    var record := parse(Trim(line)).value;
    MessageComesBack(record, said.role, said.blocks);
    ItemIsRead(record);
  }

  lemma {:induction false} ItemIsRead(record: Json)
    requires HasText(record, "type", "response_item")
    ensures PlainRecord(record, NoBoundary) == MessageOf(record)
  {
  }

  lemma {:induction false} ResultsSplit(lines: seq<string>, parse: Parser)
    requires lines != []
    ensures
      var results := PlainResults(lines, NoBoundary, parse);
      && results != [] && Last(results) == PlainLine(Last(lines), NoBoundary, parse)
      && Init(results) == PlainResults(Init(lines), NoBoundary, parse)
  {
    MapInit(line => PlainLine(line, NoBoundary, parse), lines);
  }

  lemma MapInit<T>(f: string -> T, lines: seq<string>)
    requires lines != []
    ensures MapLines(f, lines) != [] && Last(MapLines(f, lines)) == f(Last(lines))
    ensures Init(MapLines(f, lines)) == MapLines(f, Init(lines))
  {
  }

  lemma {:induction false} LastComesBack(lines: seq<string>, said: seq<Said>, parse: Parser)
    requires AreWritten(lines, said, parse) && lines != []
    ensures said != [] && AreWritten(Init(lines), Init(said), parse)
    ensures ComesBack(PlainLine(Last(lines), NoBoundary, parse), Last(said).role, TextOf(Last(said).blocks))
  {
    LineComesBack(Last(lines), Last(said), parse);
  }

  /** What was written comes back, every message in order. */
  lemma {:induction false} RolloutComesBack(lines: seq<string>, said: seq<Said>, parse: Parser)
    requires AreWritten(lines, said, parse)
    ensures
      var parsed := Collect(PlainResults(lines, NoBoundary, parse));
      parsed.Parsed? && AreMessages(parsed.messages, said)
    decreases |lines|
  {
    if lines != [] {
      LastComesBack(lines, said, parse);
      RolloutComesBack(Init(lines), Init(said), parse);
      ResultsSplit(lines, parse);
      ResultAdds(PlainResults(lines, NoBoundary, parse), Last(said), Init(said), said);
    }
  }

  lemma {:induction false} ResultAdds(results: seq<LineResult>, said: Said, before: seq<Said>, all: seq<Said>)
    requires all != [] && before == Init(all) && said == Last(all)
    requires results != [] && ComesBack(Last(results), said.role, TextOf(said.blocks))
    requires Collect(Init(results)).Parsed? && AreMessages(Collect(Init(results)).messages, before)
    ensures Collect(results).Parsed? && AreMessages(Collect(results).messages, all)
  {
    var last, messages := Last(results), Collect(Init(results)).messages;
    CollectLast(results);
    if last.Found? { MessageAdds(messages, last.message, said, before, all); }
  }

  lemma {:induction false} CollectLast(results: seq<LineResult>)
    requires results != [] && Collect(Init(results)).Parsed?
    ensures
      var messages := Collect(Init(results)).messages;
      match Last(results)
      case Skipped => Collect(results) == Parsed(messages)
      case Found(message) => Collect(results) == Parsed(messages + [message])
      case Thrown => Collect(results) == Threw
  {
  }

  lemma {:induction false} MessageAdds(messages: seq<Message>, message: Message, said: Said, before: seq<Said>, all: seq<Said>)
    requires all != [] && before == Init(all) && said == Last(all) && AreMessages(messages, before)
    requires IsSpeaker(said.role) && TextOf(said.blocks) != "" && IsMessage(message, said.role, TextOf(said.blocks))
    ensures AreMessages(messages + [message], all)
  {
    InitOfSnoc(messages, message);
  }
}
