/** The text of a summary (src/compaction.ts, lines 1137-1191, 1219-1239 and 1312-1347): the
    sources of a chunk as one text, and the three levels of summarising it. */
module CompactionSummary {
  import opened TextLines
  import opened Numerals
  import opened CompactionStore

  /** What the environment answers when a pass asks: an abort or a failing store, the header
      in front of a source, the scrubber, the summariser in its normal and its aggressive
      mode, and the id made for a text. */
  datatype Answer = Answer(
    aborts: bool, header: Ref -> string, scrub: string -> string, summarize: (string, bool) -> string,
    newId: string -> SummaryId)

  type Environment = (Database, nat) -> Answer

  datatype Escalation = Normal | Aggressive | Fallback

  const FALLBACK_MAX_CHARS := 2048

  // ---- the text to summarise --------------------------------------------------------

  function Content(db: Database, ref: Ref): string {
    match ref
    case MessageRef(m) => if m in db.messages then db.messages[m].content else ""
    case SummaryRef(s) => if s in db.summaries then db.summaries[s].content else ""
  }

  function Blocks(db: Database, header: Ref -> string, refs: seq<Ref>): (blocks: seq<string>)
    ensures |blocks| == |refs|
    ensures forall i | 0 <= i < |refs| :: blocks[i] == header(refs[i]) + "\n" + Content(db, refs[i])
  {
    seq(|refs|, i requires 0 <= i < |refs| => header(refs[i]) + "\n" + Content(db, refs[i]))
  }

  lemma BlocksSnoc(db: Database, header: Ref -> string, refs: seq<Ref>, ref: Ref)
    ensures Blocks(db, header, refs + [ref]) == Blocks(db, header, refs) + [header(ref) + "\n" + Content(db, ref)]
  {
  }

  /** blocks.join("\n\n") */
  function Paragraphs(blocks: seq<string>): string {
    if blocks == [] then "" else if |blocks| == 1 then blocks[0] else blocks[0] + "\n\n" + Paragraphs(blocks[1..])
  }

  /** The sources of a chunk, in order, each under its header. */
  function SourceText(db: Database, answer: Answer, refs: seq<Ref>): string {
    answer.scrub(Trim(Paragraphs(Blocks(db, answer.header, refs))))
  }

  // ---- the summary ---------------------------------------------------------------------

  /** The summariser made the text shorter, in tokens. */
  predicate Shortens(answer: Answer, source: string, aggressive: bool) {
    EstimateTokens(answer.summarize(source, aggressive)) < EstimateTokens(source)
  }

  /** The start of the source, with a mark. */
  function Truncated(source: string): string {
    (if |source| > FALLBACK_MAX_CHARS then source[..FALLBACK_MAX_CHARS] else source)
    + "\n[Truncated from " + Numeral(EstimateTokens(source), 10) + " tokens]"
  }

  /** Three levels: the normal summary if it is shorter than its source, otherwise the
      aggressive one if that is, otherwise the start of the source. */
  ghost predicate IsSummaryOf(answer: Answer, source: string, content: string, level: Escalation) {
    match level
    case Normal => source != "" && Shortens(answer, source, false) && content == answer.summarize(source, false)
    case Aggressive =>
      && source != "" && !Shortens(answer, source, false)
      && Shortens(answer, source, true) && content == answer.summarize(source, true)
    case Fallback =>
      if source == "" then content == "[Truncated from 0 tokens]"
      else !Shortens(answer, source, false) && !Shortens(answer, source, true) && content == Truncated(source)
  }

  /** How a summary came about: when the environment was asked, what it answered, and the
      level that was reached. */
  datatype Writing = Writing(asked: nat, answer: Answer, level: Escalation)

  /** The summary of a chunk holds the text its sources were summarised to, with its own
      token count, under the id made for that text. */
  ghost predicate Writes(db: Database, refs: seq<Ref>, w: Writing, id: SummaryId, s: Summary) {
    && IsSummaryOf(w.answer, SourceText(db, w.answer, refs), s.content, w.level)
    && s.tokenCount == EstimateTokens(s.content)
    && id == w.answer.newId(s.content)
  }

  /** Stores that agree on the sources give the same text. */
  lemma SameSources(a: Database, b: Database, refs: seq<Ref>, w: Writing, id: SummaryId, s: Summary)
    requires forall r <- refs :: Content(a, r) == Content(b, r)
    requires Writes(a, refs, w, id, s)
    ensures Writes(b, refs, w, id, s)
  {
    assert Blocks(a, w.answer.header, refs) == Blocks(b, w.answer.header, refs) by {
      forall i | 0 <= i < |refs| ensures Content(a, refs[i]) == Content(b, refs[i]) { assert refs[i] in refs; }
    }
  }
}
