/** The counters a summary carries over its sources (src/compaction.ts, lines 1241-1263 and
    1375-1398). */
module CompactionTotals {
  import opened CompactionStore
  import opened CompactionPass
  import opened CompactionChoice

  /** Summaries below a chunk, their tokens, and the tokens of the messages below it. */
  datatype ChunkTotals = ChunkTotals(descendants: nat, descendantTokens: nat, sourceTokens: nat) {
    function Plus(s: Summary): ChunkTotals {
      ChunkTotals(descendants + s.descendantCount + 1,
                  descendantTokens + s.tokenCount + s.descendantTokenCount,
                  sourceTokens + s.sourceMessageTokenCount)
    }
  }

  ghost function Totals(db: Database, refs: seq<Ref>): ChunkTotals
    requires Stratified(db) && AllResolve(db, refs)
  {
    ChunkTotals(|NodesAll(db, refs)|, NodeTokens(db, NodesAll(db, refs)), SourceTokens(db, ExpandAll(db, refs)))
  }

  // ---- the totals of a chunk --------------------------------------------------------

  lemma LeafTotals(db: Database, refs: seq<Ref>, r: Ref)
    requires Stratified(db) && AllResolve(db, refs) && Resolves(db, r) && r.MessageRef?
    ensures AllResolve(db, refs + [r])
    ensures NodesAll(db, refs + [r]) == NodesAll(db, refs)
    ensures ExpandAll(db, refs + [r]) == ExpandAll(db, refs) + [r.messageId]
    ensures SourceTokens(db, ExpandAll(db, refs + [r])) == SourceTokens(db, ExpandAll(db, refs)) + Weight(db, r)
  {
    ExpandAllConcat(db, refs, [r]);
    ExpandAllSingle(db, r);
    TokensConcat(db, ExpandAll(db, refs), [r.messageId]);
    assert [r.messageId][1..] == [];
  }

  lemma CondensedTotals(db: Database, refs: seq<Ref>, id: SummaryId)
    requires Stratified(db) && AllResolve(db, refs) && id in db.summaries && CountsAreTrue(db, id)
    ensures AllResolve(db, refs + [SummaryRef(id)])
    ensures Totals(db, refs + [SummaryRef(id)]) == Totals(db, refs).Plus(db.summaries[id])
  {
    var r := SummaryRef(id);
    ExpandAllConcat(db, refs, [r]);
    ExpandAllSingle(db, r);
    TokensConcat(db, ExpandAll(db, refs), Expand(db, r));
    NodeTokensConcat(db, NodesAll(db, refs), Nodes(db, r));
    NodeTotals(db, id);
  }

  lemma NodeTotals(db: Database, id: SummaryId)
    requires Stratified(db) && id in db.summaries && CountsAreTrue(db, id)
    ensures
      var s, r := db.summaries[id], SummaryRef(id);
      && |Nodes(db, r)| == s.descendantCount + 1
      && NodeTokens(db, Nodes(db, r)) == s.tokenCount + s.descendantTokenCount
      && SourceTokens(db, Expand(db, r)) == s.sourceMessageTokenCount
  {
    ExpandSummary(db, id);
    NodeTokensConcat(db, [id], NodesAll(db, Sources(db, id)));
    assert [id][1..] == [];
  }

  lemma IdsSnoc(refs: seq<Ref>, r: Ref)
    ensures MessageIds(refs + [r]) == MessageIds(refs) + if r.MessageRef? then [r.messageId] else []
    ensures SummaryIds(refs + [r]) == SummaryIds(refs) + if r.SummaryRef? then [r.summaryId] else []
    decreases |refs|
  {
    if refs == [] {
      assert refs + [r] == [r] && [r][1..] == [];
    } else {
      assert (refs + [r])[0] == refs[0] && (refs + [r])[1..] == refs[1..] + [r];
      IdsSnoc(refs[1..], r);
    }
  }
}
