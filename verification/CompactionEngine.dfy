/** The compaction engine (src/compaction.ts, lines 198-1420): select the oldest
    chunk outside the fresh tail, replace it by a summary, repeat. */
module CompactionEngine {
  import opened Options
  import opened CompactionStore
  import opened CompactionPass
  import opened CompactionChoice
  import opened CompactionRuns
  import opened CompactionSummary
  import TextLines
  import opened Numerals
  import opened CompactionTotals
  import opened FreshTail
  import opened OldestRun
  import opened Sequences

  // ---- the engine -------------------------------------------------------------------

  /** One round of a phase: nothing to do, cut by an abort or a failed transaction, or
      one pass with the token counts around it. */
  datatype Round = Nothing | Cut | Ran(before: nat, after: nat)

  datatype PassResult = Passed(summaryId: SummaryId, level: Escalation) | Interrupted

  datatype SweepResult =
    | Completed(actionTaken: bool, tokensBefore: nat, tokensAfter: nat, condensed: bool)
    | Aborted

  /** No abort, and every id is new to the store. */
  ghost predicate Helps(answer: Answer, db: Database) {
    !answer.aborts && forall text: string :: answer.newId(text) !in db.summaries
  }

  class Engine {
    const config: Config
    const environment: Environment
    var db: Store
    var clock: nat

    constructor (config: Config, environment: Environment, db: Store)
      ensures this.config == config && this.environment == environment && this.db == db
    {
      this.config, this.environment, this.db, this.clock := config, environment, db, 0;
    }

    /** Nothing is ever aborted, and every id is new. */
    ghost predicate Calm() {
      forall d: Store, t: nat :: Helps(environment(d, t), d)
    }

    method Ask() returns (answer: Answer)
      modifies this`clock
      ensures answer == environment(db, old(clock))
      ensures Calm() ==> Helps(answer, db)
    {
      answer := environment(db, clock);
      clock := clock + 1;
    }

    ghost function Boundary(): (t: nat)
      reads this`db
      ensures t <= |db.context|
    {
      TailStart(Refs(db.context), config.freshTailCount)
    }

    method CountRawTokensOutsideFreshTail() returns (rawTokens: nat)
      ensures rawTokens == RawTokens(db, Outside(db, config.freshTailCount))
    {
      var tail := FreshTailOrdinal(db.context, config.freshTailCount);
      Aspects(db);
      ProtectedByOrdinal(db.context, config.freshTailCount);
      rawTokens := SumRawTokens(db, db.context, tail, Boundary());
    }

    static method SumRawTokens(db: Database, items: seq<ContextItem>, tail: Option<nat>, ghost end: nat)
      returns (rawTokens: nat)
      requires end <= |items| && forall i | 0 <= i < |items| :: i >= end <==> Protected(tail, items[i])
      ensures rawTokens == RawTokens(db, items[..end])
    {
      rawTokens := 0;
      var i: nat := 0;
      while i < |items| && !Protected(tail, items[i])
        invariant i <= end && rawTokens == RawTokens(db, items[..i])
      {
        assert items[..i + 1][..i] == items[..i];
        if items[i].ref.MessageRef? {
          rawTokens := rawTokens + Weight(db, items[i].ref);
        }
        i := i + 1;
      }
    }

    /** The oldest contiguous raw-message chunk outside the fresh tail. */
    method SelectOldestLeafChunk() returns (chunk: seq<ContextItem>, tokens: nat, ghost lo: nat)
      ensures chunk == LeafChunk(db, Outside(db, config.freshTailCount), config.LeafChunkTokens())
      ensures lo + |chunk| <= Boundary() && chunk == db.context[lo..lo + |chunk|]
      ensures IsLeafChunk(db, Outside(db, config.freshTailCount), config.LeafChunkTokens(),
                          Found(lo, lo + |chunk|, tokens))
    {
      var tail := FreshTailOrdinal(db.context, config.freshTailCount);
      ghost var outside := Outside(db, config.freshTailCount);
      ghost var flags, w := MessageFlags(outside), Weights(db, outside);
      ScansOutside(db, config.freshTailCount, flags, w);
      chunk, tokens, lo := ScanLeafChunk(db, db.context, tail, config.LeafChunkTokens(), flags, w);
      FoundLeafChunk(db, config.freshTailCount, config.LeafChunkTokens(), Found(lo, lo + |chunk|, tokens), chunk);
    }

    static method ScanLeafChunk(db: Database, items: seq<ContextItem>, tail: Option<nat>, threshold: nat,
                                ghost flags: seq<bool>, ghost w: seq<nat>)
      returns (chunk: seq<ContextItem>, chunkTokens: nat, ghost lo: nat)
      requires |flags| == |w| <= |items|
      requires forall i | 0 <= i < |items| :: i >= |w| <==> Protected(tail, items[i])
      requires forall i | 0 <= i < |w| :: flags[i] == items[i].ref.MessageRef? && w[i] == Weight(db, items[i].ref)
      ensures lo + |chunk| <= |w| && chunk == items[lo..lo + |chunk|]
      ensures Found(lo, lo + |chunk|, chunkTokens) == Find(flags, w, threshold, 0, 0, 0)
    {
      chunk, chunkTokens, lo := [], 0, 0;
      var i: nat := 0;
      ghost var run := Find(flags, w, threshold, 0, 0, 0);
      while i < |items| && !Protected(tail, items[i])
        invariant i <= |w| && lo + |chunk| == i && chunk == items[lo..i]
        invariant run == Find(flags, w, threshold, lo, i, chunkTokens)
        invariant chunk == [] ==> chunkTokens == 0
      {
        var item := items[i];
        if !item.ref.MessageRef? {
          if |chunk| > 0 {
            break;
          }
          lo, i := i + 1, i + 1;
          continue;
        }
        var messageTokens := Weight(db, item.ref);
        if |chunk| > 0 && chunkTokens + messageTokens > threshold {
          break;
        }
        SliceGrows(items, lo, i);
        chunk := chunk + [item];
        chunkTokens := chunkTokens + messageTokens;
        i := i + 1;
        if chunkTokens >= threshold {
          break;
        }
      }
    }

    /** The oldest contiguous run of summaries at one depth outside the fresh tail. */
    method SelectOldestChunkAtDepth(targetDepth: nat) returns (chunk: seq<ContextItem>, tokens: nat, ghost lo: nat)
      ensures chunk == DepthChunk(db, Outside(db, config.freshTailCount), targetDepth, config.LeafChunkTokens())
      ensures lo + |chunk| <= Boundary() && chunk == db.context[lo..lo + |chunk|]
      ensures IsDepthChunk(db, Outside(db, config.freshTailCount), targetDepth, config.LeafChunkTokens(),
                           Found(lo, lo + |chunk|, tokens))
    {
      var tail := FreshTailOrdinal(db.context, config.freshTailCount);
      ghost var outside := Outside(db, config.freshTailCount);
      ghost var flags, w := DepthFlags(db, outside, targetDepth), Weights(db, outside);
      ScansOutside(db, config.freshTailCount, flags, w);
      chunk, tokens, lo := ScanChunkAtDepth(db, db.context, tail, targetDepth, config.LeafChunkTokens(), flags, w);
      FoundDepthChunk(db, config.freshTailCount, targetDepth, config.LeafChunkTokens(), Found(lo, lo + |chunk|, tokens), chunk);
    }

    static method ScanChunkAtDepth(db: Database, items: seq<ContextItem>, tail: Option<nat>, targetDepth: nat,
                                   budget: nat, ghost flags: seq<bool>, ghost w: seq<nat>)
      returns (chunk: seq<ContextItem>, tokens: nat, ghost lo: nat)
      requires |flags| == |w| <= |items|
      requires forall i | 0 <= i < |items| :: i >= |w| <==> Protected(tail, items[i])
      requires forall i | 0 <= i < |w| ::
        flags[i] == AtDepth(db, items[i].ref, targetDepth) && w[i] == Weight(db, items[i].ref)
      ensures lo + |chunk| <= |w| && chunk == items[lo..lo + |chunk|]
      ensures Found(lo, lo + |chunk|, tokens) == Find(flags, w, budget, 0, 0, 0)
    {
      chunk, tokens, lo := [], 0, 0;
      var i: nat := 0;
      ghost var run := Find(flags, w, budget, 0, 0, 0);
      while i < |items| && !Protected(tail, items[i])
        invariant i <= |w| && lo + |chunk| == i && chunk == items[lo..i]
        invariant run == Find(flags, w, budget, lo, i, tokens)
        invariant chunk == [] ==> tokens == 0
      {
        var item := items[i];
        if !AtDepth(db, item.ref, targetDepth) {
          if |chunk| > 0 {
            break;
          }
          lo, i := i + 1, i + 1;
          continue;
        }
        var tokenCount := Weight(db, item.ref);
        if |chunk| > 0 && tokens + tokenCount > budget {
          break;
        }
        SliceGrows(items, lo, i);
        chunk := chunk + [item];
        tokens := tokens + tokenCount;
        i := i + 1;
        if tokens >= budget {
          break;
        }
      }
    }

    /** Three-level escalation: the first summary that is shorter than its source, or else
        the start of the source. */
    method SummarizeWithEscalation(answer: Answer, text: string) returns (content: string, level: Escalation)
      ensures IsSummaryOf(answer, answer.scrub(TextLines.Trim(text)), content, level)
    {
      var sourceText := answer.scrub(TextLines.Trim(text));
      if sourceText == "" {
        return "[Truncated from 0 tokens]", Fallback;
      }
      var inputTokens := EstimateTokens(sourceText);
      content, level := answer.summarize(sourceText, false), Normal;
      if EstimateTokens(content) >= inputTokens {
        content, level := answer.summarize(sourceText, true), Aggressive;
        if EstimateTokens(content) >= inputTokens {
          var truncated := if |sourceText| > FALLBACK_MAX_CHARS then sourceText[..FALLBACK_MAX_CHARS] else sourceText;
          content, level := truncated + "\n[Truncated from " + Numeral(inputTokens, 10) + " tokens]", Fallback;
        }
      }
    }

    /** The durable transaction of a pass: it commits unless the id is taken. */
    method CommitPass(chunk: seq<ContextItem>, depth: nat, id: SummaryId, s: Summary,
                      messageIds: seq<MessageId>, parentIds: seq<SummaryId>, ghost lo: nat, ghost refs: seq<Ref>,
                      ghost w: Writing)
      returns (ok: bool, ghost pass: Pass)
      requires chunk != [] && lo + |chunk| <= Boundary() && chunk == db.context[lo..lo + |chunk|]
      requires refs == Refs(db.context)[lo..lo + |chunk|]
      requires Drafted(db, refs, depth, id, s, w)
      requires messageIds == MessageIds(refs) && parentIds == SummaryIds(refs)
      modifies this`db
      ensures Did(pass, old(db), db, config.freshTailCount)
      ensures ok == pass.PassRecord? == (id !in old(db).summaries)
      ensures ok ==> pass.lo == lo && pass.hi == lo + |chunk| && pass.depth == depth && pass.id == id && pass.summary == s
      ensures ok ==> pass.writing == w
    {
      var start, end := chunk[0].ordinal, chunk[|chunk| - 1].ordinal;
      ghost var hi := lo + |chunk|;
      SliceEnds(db.context, lo, hi, chunk);
      var committed := Commit(db, id, s, messageIds, parentIds, start, end);
      if committed.None? {
        return false, NoPass;
      }
      pass := RangeCommits(db, lo, hi, start, end, refs, depth, id, s, w, committed, config.freshTailCount);
      db := committed.value;
      ok := true;
    }

    /** Replace a chunk of unprotected messages by a leaf summary. */
    method LeafPass(chunk: seq<ContextItem>, ghost lo: nat) returns (r: PassResult, ghost pass: Pass)
      requires chunk != [] && lo + |chunk| <= Boundary() && chunk == db.context[lo..lo + |chunk|]
      requires forall item <- chunk :: item.ref.MessageRef?
      modifies this`db, this`clock
      ensures Did(pass, old(db), db, config.freshTailCount) && r.Passed? == pass.PassRecord?
      ensures Calm() ==> r.Passed?
      ensures r.Passed? ==>
        && pass.lo == lo && pass.hi == lo + |chunk| && pass.depth == 0 && pass.id == r.summaryId
        && Answered(pass, environment) && pass.writing.asked == old(clock) && pass.writing.level == r.level
    {
      ghost var refs := ContextChunk(db, chunk, lo, 0);
      ghost var asked := clock;
      var answer := Ask();
      if answer.aborts { return Interrupted, NoPass; }
      var ids, sourceTokens, blocks := LeafSources(chunk, answer.header, refs);
      var content, level := SummarizeWithEscalation(answer, Paragraphs(blocks));
      var id := answer.newId(content);
      var s := Summary(0, content, EstimateTokens(content), 0, 0, sourceTokens);
      var ok;
      Duties(db, refs, 0, id, s, Writing(asked, answer, level));
      ok, pass := CommitPass(chunk, 0, id, s, ids, [], lo, refs, Writing(asked, answer, level));
      r := if ok then Passed(id, level) else Interrupted;
    }

    method LeafSources(chunk: seq<ContextItem>, header: Ref -> string, ghost refs: seq<Ref>)
      returns (ids: seq<MessageId>, sourceTokens: nat, blocks: seq<string>)
      requires refs == Refs(chunk) && IsChunk(db, refs, 0)
      ensures ids == MessageIds(refs) && SummaryIds(refs) == []
      ensures Stratified(db)
      ensures NodesAll(db, refs) == [] && sourceTokens == SourceTokens(db, ExpandAll(db, refs))
      ensures blocks == Blocks(db, header, refs)
    {
      ids, sourceTokens, blocks := [], 0, [];
      Aspects(db);
      ChunkIds(refs, true);
      for i := 0 to |chunk|
        invariant AllResolve(db, refs[..i])
        invariant ids == MessageIds(refs[..i]) && NodesAll(db, refs[..i]) == []
        invariant sourceTokens == SourceTokens(db, ExpandAll(db, refs[..i]))
        invariant blocks == Blocks(db, header, refs[..i])
      {
        var ref := chunk[i].ref;
        PrefixGrows(refs, i);
        assert refs[i] == ref;
        IdsSnoc(refs[..i], ref);
        LeafTotals(db, refs[..i], ref);
        BlocksSnoc(db, header, refs[..i], ref);
        blocks := blocks + [header(ref) + "\n" + Content(db, ref)];
        ids := ids + [ref.messageId];
        sourceTokens := sourceTokens + Weight(db, ref);
      }
      assert refs[..|chunk|] == refs;
    }

    /** Replace a chunk of unprotected summaries at one depth by a summary one deeper. */
    method CondensedPass(chunk: seq<ContextItem>, targetDepth: nat, ghost lo: nat) returns (r: PassResult, ghost pass: Pass)
      requires chunk != [] && lo + |chunk| <= Boundary() && chunk == db.context[lo..lo + |chunk|]
      requires forall item <- chunk :: AtDepth(db, item.ref, targetDepth)
      modifies this`db, this`clock
      ensures Did(pass, old(db), db, config.freshTailCount) && r.Passed? == pass.PassRecord?
      ensures Calm() ==> r.Passed?
      ensures r.Passed? ==>
        && pass.lo == lo && pass.hi == lo + |chunk| && pass.depth == targetDepth + 1 && pass.id == r.summaryId
        && Answered(pass, environment) && pass.writing.asked == old(clock) && pass.writing.level == r.level
    {
      ghost var refs := ContextChunk(db, chunk, lo, targetDepth + 1);
      ghost var asked := clock;
      var answer := Ask();
      if answer.aborts { return Interrupted, NoPass; }
      var ids, totals, blocks := CondensedSources(chunk, answer.header, targetDepth, refs);
      var content, level := SummarizeWithEscalation(answer, Paragraphs(blocks));
      var id := answer.newId(content);
      var s := Summary(targetDepth + 1, content, EstimateTokens(content),
                       totals.descendants, totals.descendantTokens, totals.sourceTokens);
      var ok;
      Duties(db, refs, targetDepth + 1, id, s, Writing(asked, answer, level));
      ok, pass := CommitPass(chunk, targetDepth + 1, id, s, [], ids, lo, refs, Writing(asked, answer, level));
      r := if ok then Passed(id, level) else Interrupted;
    }

    method CondensedSources(chunk: seq<ContextItem>, header: Ref -> string, targetDepth: nat, ghost refs: seq<Ref>)
      returns (ids: seq<SummaryId>, totals: ChunkTotals, blocks: seq<string>)
      requires refs == Refs(chunk) && IsChunk(db, refs, targetDepth + 1)
      ensures ids == SummaryIds(refs) && MessageIds(refs) == []
      ensures Stratified(db) && totals == Totals(db, refs) && blocks == Blocks(db, header, refs)
    {
      ids, totals, blocks := [], ChunkTotals(0, 0, 0), [];
      Aspects(db);
      ChunkIds(refs, false);
      for i := 0 to |chunk|
        invariant AllResolve(db, refs[..i]) && ids == SummaryIds(refs[..i])
        invariant totals == Totals(db, refs[..i]) && blocks == Blocks(db, header, refs[..i])
      {
        var ref := chunk[i].ref;
        PrefixGrows(refs, i);
        assert refs[i] == ref;
        assert Fits(db, targetDepth + 1, ref);
        IdsSnoc(refs[..i], ref);
        CondensedTotals(db, refs[..i], ref.summaryId);
        BlocksSnoc(db, header, refs[..i], ref);
        blocks := blocks + [header(ref) + "\n" + Content(db, ref)];
        ids := ids + [ref.summaryId];
        totals := totals.Plus(db.summaries[ref.summaryId]);
      }
      assert refs[..|chunk|] == refs;
    }

    /** The shallowest depth with an eligible run, if any. */
    method SelectShallowestCondensationCandidate(hard: bool)
      returns (depth: Option<nat>, chunk: seq<ContextItem>, ghost lo: nat)
      ensures depth.Some? ==>
        && lo + |chunk| <= Boundary() && chunk == db.context[lo..lo + |chunk|]
        && chunk != [] && (forall item <- chunk :: AtDepth(db, item.ref, depth.value))
      ensures depth.Some? ==>
        chunk == DepthChunk(db, Outside(db, config.freshTailCount), depth.value, config.LeafChunkTokens())
      ensures depth.Some? ==> Eligible(db, Outside(db, config.freshTailCount), config, depth.value, hard)
      ensures depth.Some? ==> ShallowestFrom(db, Outside(db, config.freshTailCount), config, hard, depth.value)
      ensures depth.None? ==> NoCandidate(db, Outside(db, config.freshTailCount), config, hard)
    {
      ghost var outside := Outside(db, config.freshTailCount);
      var depths := DepthLevels();
      var i: nat := 0;
      while i < |depths|
        invariant NoneBefore(db, outside, config, hard, depths, i)
      {
        var ok;
        ok, chunk, lo := CandidateAt(depths[i], hard);
        if ok {
          ShallowerNotEligible(db, outside, config, hard, depths, i);
          return Some(depths[i]), chunk, lo;
        }
        NoneBeforeNext(db, outside, config, hard, depths, i);
        i := i + 1;
      }
      ShallowerNotEligible(db, outside, config, hard, depths, i);
      return None, [], 0;
    }

    /** The oldest run at one depth, when it is eligible. */
    method CandidateAt(targetDepth: nat, hard: bool) returns (ok: bool, chunk: seq<ContextItem>, ghost lo: nat)
      ensures ok == Eligible(db, Outside(db, config.freshTailCount), config, targetDepth, hard)
      ensures chunk == DepthChunk(db, Outside(db, config.freshTailCount), targetDepth, config.LeafChunkTokens())
      ensures lo + |chunk| <= Boundary() && chunk == db.context[lo..lo + |chunk|]
      ensures ok ==> chunk != []
      ensures forall item <- chunk :: AtDepth(db, item.ref, targetDepth)
    {
      var tokens;
      chunk, tokens, lo := SelectOldestChunkAtDepth(targetDepth);
      CandidateIff(db, config, targetDepth, hard, Found(lo, lo + |chunk|, tokens), chunk);
      ok := |chunk| >= config.Fanout(targetDepth, hard) && tokens >= config.MinCondensedTokens();
    }

    /** getDistinctDepthsInContext before the fresh tail. */
    method DepthLevels() returns (depths: seq<nat>)
      ensures depths == DepthsBelow(db, Outside(db, config.freshTailCount), DepthLimit(db, Outside(db, config.freshTailCount)))
    {
      var outside := db.context[..TailStart(Refs(db.context), config.freshTailCount)];
      depths := DepthsBelow(db, outside, DepthLimit(db, outside));
    }

    method LeafRound() returns (round: Round, ghost pass: Pass)
      modifies this`db, this`clock
      ensures Did(pass, old(db), db, config.freshTailCount) && round.Ran? == pass.PassRecord?
      ensures round.Ran? ==> Answered(pass, environment)
      ensures round.Ran? ==> round.before == Tokens(old(db)) && round.after == Tokens(db) && TookLeaf(pass, config)
      ensures round.Nothing? ==> NoRawItems(Outside(db, config.freshTailCount))
      ensures Calm() ==> !round.Cut?
    {
      ghost var outside := Outside(db, config.freshTailCount);
      var answer := Ask();
      if answer.aborts { return Cut, NoPass; }
      var chunk, tokens, lo := SelectOldestLeafChunk();
      PrefixLeafItems(db, db.context, Boundary(), config.LeafChunkTokens(), Found(lo, lo + |chunk|, tokens), chunk);
      if |chunk| == 0 {
        return Nothing, NoPass;
      }
      var before := Tokens(db);
      var result;
      result, pass := LeafPass(chunk, lo);
      if result.Interrupted? { return Cut, pass; }
      PassTookLeaf(pass, config, chunk, lo);
      round := Ran(before, Tokens(db));
    }

    method CondensedRound(hard: bool) returns (round: Round, ghost pass: Pass)
      modifies this`db, this`clock
      ensures Did(pass, old(db), db, config.freshTailCount) && round.Ran? == pass.PassRecord?
      ensures round.Ran? ==> Answered(pass, environment)
      ensures round.Ran? ==> round.before == Tokens(old(db)) && round.after == Tokens(db)
      ensures round.Ran? ==> TookShallowest(pass, config, hard)
      ensures round.Nothing? ==> NoCandidate(db, Outside(db, config.freshTailCount), config, hard)
      ensures Calm() ==> !round.Cut?
    {
      var answer := Ask();
      if answer.aborts { return Cut, NoPass; }
      var candidate, chunk, lo := SelectShallowestCondensationCandidate(hard);
      if candidate.None? {
        return Nothing, NoPass;
      }
      var before := Tokens(db);
      var result;
      result, pass := CondensedPass(chunk, candidate.value, lo);
      if result.Passed? { PassTookDepth(pass, config, candidate.value, hard, chunk, lo); }
      round := if result.Passed? then Ran(before, Tokens(db)) else Cut;
    }

    /** One round of phase 1, added to the phase so far. */
    method LeafStep(ghost phase: Phase) returns (round: Round, ghost run: Phase)
      requires phase.after == db && phase.config == config && phase.environment == environment && phase.kind == Leaves && phase.improving
      modifies this`db, this`clock
      ensures run.after == db && run.Continues(phase) && Stepped(phase, run, round, old(db), db)
      ensures round.Nothing? ==> NoRawItems(Outside(db, config.freshTailCount))
      ensures Calm() ==> !round.Cut?
    {
      ghost var pass: Pass;
      round, pass := LeafRound();
      run := phase;
      if round.Ran? {
        run := StepGrows(phase, pass, round);
      }
    }

    /** One round of phase 2. */
    method CondensedStep(hard: bool, ghost phase: Phase) returns (round: Round, ghost run: Phase)
      requires phase.after == db && phase.config == config && phase.environment == environment && phase.kind == Shallowest(hard) && phase.improving
      modifies this`db, this`clock
      ensures run.after == db && run.Continues(phase) && Stepped(phase, run, round, old(db), db)
      ensures round.Nothing? ==> NoCandidate(db, Outside(db, config.freshTailCount), config, hard)
      ensures Calm() ==> !round.Cut?
    {
      ghost var pass: Pass;
      round, pass := CondensedRound(hard);
      run := phase;
      if round.Ran? {
        run := StepGrows(phase, pass, round);
      }
    }

    /** One pass of a climb, when the depth is eligible. */
    method ClimbStep(targetDepth: nat, ghost phase: Phase) returns (round: Round, ghost run: Phase)
      requires phase.after == db && phase.config == config && phase.environment == environment && phase.kind == Climb && phase.improving
      requires targetDepth == |phase.passes|
      modifies this`db, this`clock
      ensures run.after == db && run.Continues(phase) && Stepped(phase, run, round, old(db), db)
      ensures round.Nothing? ==> !Eligible(db, Outside(db, config.freshTailCount), config, targetDepth, false)
      ensures Calm() ==> !round.Cut?
    {
      ghost var pass;
      round, pass := ClimbRound(targetDepth);
      run := phase;
      if round.Ran? { run := StepGrows(phase, pass, round); }
    }

    method ClimbRound(targetDepth: nat) returns (round: Round, ghost pass: Pass)
      modifies this`db, this`clock
      ensures Did(pass, old(db), db, config.freshTailCount) && round.Ran? == pass.PassRecord?
      ensures round.Ran? ==> Answered(pass, environment)
      ensures round.Ran? ==> round.before == Tokens(old(db)) && round.after == Tokens(db)
      ensures round.Ran? ==> TookDepth(pass, config, targetDepth, false)
      ensures round.Nothing? ==> !Eligible(db, Outside(db, config.freshTailCount), config, targetDepth, false)
      ensures Calm() ==> !round.Cut?
    {
      var ok, chunk, lo := CandidateAt(targetDepth, false);
      if !ok { return Nothing, NoPass; }
      var passTokensBefore := Tokens(db);
      var result;
      result, pass := CondensedPass(chunk, targetDepth, lo);
      if result.Interrupted? { return Cut, pass; }
      PassTookDepth(pass, config, targetDepth, false, chunk, lo);
      round := Ran(passTokensBefore, Tokens(db));
    }

    /** Phase 1: leaf passes until nothing is left or a pass does not lower the count. */
    method LeafPhase() returns (done: bool, acted: bool, previousTokens: nat, ghost run: Phase)
      modifies this`db, this`clock
      ensures run.config == config && run.environment == environment && run.kind == Leaves && run.accepted == Tokens(old(db))
      ensures run.before == old(db) && run.after == db
      ensures acted == (run.passes != [])
      ensures done ==> previousTokens == run.count
      ensures done ==> NoRawItems(Outside(db, config.freshTailCount)) || !run.improving
      ensures Calm() ==> done
    {
      done, acted, previousTokens := false, false, Tokens(db);
      run := Begin(config, environment, Leaves, Tokens(db), db);
      while true
        invariant run.config == config && run.environment == environment && run.kind == Leaves && run.accepted == Tokens(old(db))
        invariant run.before == old(db) && run.after == db && run.improving
        invariant acted == (run.passes != []) && previousTokens == Tokens(db) == run.count
        invariant !acted ==> run.accepted == Tokens(db)
        decreases previousTokens
      {
        var round;
        round, run := LeafStep(run);
        if !round.Ran? {
          done := round.Nothing?;
          return;
        }
        acted := true;
        var answer := Ask();
        if answer.aborts { return; }
        if round.after >= round.before || round.after >= previousTokens {
          done := true;
          return;
        }
        previousTokens := round.after;
      }
    }

    /** Phase 2: condensed passes, shallowest depth first, until no candidate is left or
        a pass does not get below the count before it and the last count accepted. */
    method CondensedPhase(hard: bool, accepted: nat) returns (done: bool, condensed: bool, ghost run: Phase)
      modifies this`db, this`clock
      ensures run.config == config && run.environment == environment && run.kind == Shallowest(hard) && run.accepted == accepted
      ensures run.before == old(db) && run.after == db
      ensures condensed == (run.passes != [])
      ensures done ==> NoCandidate(db, Outside(db, config.freshTailCount), config, hard) || !run.improving
      ensures Calm() ==> done
    {
      var previousTokens := accepted;
      done, condensed := false, false;
      run := Begin(config, environment, Shallowest(hard), accepted, db);
      while true
        invariant run.config == config && run.environment == environment && run.kind == Shallowest(hard) && run.accepted == accepted
        invariant run.before == old(db) && run.after == db && run.improving
        invariant condensed == (run.passes != [])
        invariant previousTokens == if condensed then Tokens(db) else accepted
        decreases previousTokens
      {
        var round;
        round, run := CondensedStep(hard, run);
        if !round.Ran? {
          done := round.Nothing?;
          return;
        }
        condensed := true;
        var answer := Ask();
        if answer.aborts { return; }
        if round.after >= round.before || round.after >= previousTokens {
          done := true;
          return;
        }
        previousTokens := round.after;
      }
    }

    /** A full sweep.  Every return, also one cut short by an abort or a failed
        transaction, leaves a store reached by whole passes. */
    method CompactFullSweep(threshold: int, force: bool, hardTrigger: bool) returns (r: SweepResult, ghost sweep: SweepRecord)
      modifies this`db, this`clock
      ensures sweep.leaves.before == old(db) && sweep.condensed.after == db && IsSweep(sweep, config, environment, hardTrigger)
      ensures !NeedsSweep(old(db), config, threshold, force) || old(db).context == [] ==> !sweep.Acted()
      ensures r.Completed? ==> r.tokensBefore == Tokens(old(db)) && r.tokensAfter == Tokens(db)
      ensures r.Completed? ==> r.actionTaken == sweep.Acted() && r.condensed == (sweep.condensed.passes != [])
      ensures r.Completed? && NeedsSweep(old(db), config, threshold, force) && old(db).context != [] ==>
        Finished(sweep, config, hardTrigger)
      ensures Calm() ==> r.Completed?
    {
      ghost var leaves := Begin(config, environment, Leaves, Tokens(db), db);
      ghost var condensedRun := Begin(config, environment, Shallowest(hardTrigger), Tokens(db), db);
      sweep := SweepRecord(leaves, condensedRun);
      var answer := Ask();
      if answer.aborts { return Aborted, sweep; }
      var tokensBefore := Tokens(db);
      var rawTokens := CountRawTokensOutsideFreshTail();
      if !force && tokensBefore <= threshold && rawTokens < config.LeafChunkTokens() {
        return Completed(false, tokensBefore, tokensBefore, false), sweep;
      }
      if |db.context| == 0 {
        return Completed(false, tokensBefore, tokensBefore, false), sweep;
      }
      var done, acted, previousTokens;
      done, acted, previousTokens, leaves := LeafPhase();
      condensedRun := Begin(config, environment, Shallowest(hardTrigger), leaves.count, db);
      sweep := SweepRecord(leaves, condensedRun);
      if !done { return Aborted, sweep; }
      var condensed;
      done, condensed, condensedRun := CondensedPhase(hardTrigger, previousTokens);
      sweep := SweepRecord(leaves, condensedRun);
      if !done { return Aborted, sweep; }
      r := Completed(acted || condensed, tokensBefore, Tokens(db), condensed);
    }

    /** One leaf pass, then one condensed pass per depth up to the configured depth
        (a negative setting means every depth) while each lowers the count. */
    method CompactLeaf(threshold: int, force: bool) returns (r: SweepResult, ghost leaf: Phase, ghost climb: Phase)
      modifies this`db, this`clock
      ensures leaf.config == config && leaf.environment == environment && leaf.kind == Leaves && leaf.before == old(db) && |leaf.passes| <= 1
      ensures climb.config == config && climb.environment == environment && climb.kind == Climb && climb.before == leaf.after && climb.after == db
      ensures climb.accepted == Tokens(climb.before) && (climb.passes != [] ==> leaf.passes != [])
      ensures !NeedsSweep(old(db), config, threshold, force) ==> leaf.passes == []
      ensures r.Completed? ==> r.tokensBefore == Tokens(old(db)) && r.tokensAfter == Tokens(db)
      ensures r.Completed? ==> r.actionTaken == (leaf.passes != []) && r.condensed == (climb.passes != [])
      ensures r.Completed? && leaf.passes == [] && NeedsSweep(old(db), config, threshold, force) ==>
        NoRawItems(Outside(db, config.freshTailCount))
      ensures r.Completed? && leaf.passes != [] ==> ClimbEnds(climb)
      ensures Calm() ==> r.Completed?
    {
      leaf := Begin(config, environment, Leaves, Tokens(db), db);
      climb := Begin(config, environment, Climb, Tokens(db), db);
      var answer := Ask();
      if answer.aborts { return Aborted, leaf, climb; }
      var tokensBefore := Tokens(db);
      var rawTokens := CountRawTokensOutsideFreshTail();
      if !force && tokensBefore <= threshold && rawTokens < config.LeafChunkTokens() {
        return Completed(false, tokensBefore, tokensBefore, false), leaf, climb;
      }
      var round;
      round, leaf := LeafStep(leaf);
      climb := Begin(config, environment, Climb, Tokens(db), db);
      if round.Nothing? {
        return Completed(false, tokensBefore, tokensBefore, false), leaf, climb;
      }
      if round.Cut? { return Aborted, leaf, climb; }
      answer := Ask();
      if answer.aborts { return Aborted, leaf, climb; }
      var done, condensed;
      done, condensed, climb := CondenseIncrementally();
      r := if done then Completed(true, tokensBefore, Tokens(db), condensed) else Aborted;
    }

    method CondenseIncrementally() returns (done: bool, condensed: bool, ghost climb: Phase)
      modifies this`db, this`clock
      ensures climb.config == config && climb.environment == environment && climb.kind == Climb && climb.accepted == Tokens(old(db))
      ensures climb.before == old(db) && climb.after == db
      ensures condensed == (climb.passes != [])
      ensures done ==> ClimbEnds(climb)
      ensures Calm() ==> done
    {
      done, condensed := false, false;
      climb := Begin(config, environment, Climb, Tokens(db), db);
      var targetDepth: nat := 0;
      while config.incrementalMaxDepth < 0 || targetDepth < config.incrementalMaxDepth
        invariant climb.config == config && climb.environment == environment && climb.kind == Climb && climb.accepted == Tokens(old(db))
        invariant climb.before == old(db) && climb.after == db && climb.improving
        invariant condensed == (climb.passes != []) && targetDepth == |climb.passes|
        invariant !condensed ==> db == old(db)
        decreases Tokens(db)
      {
        var answer := Ask();
        if answer.aborts { return; }
        var round;
        round, climb := ClimbStep(targetDepth, climb);
        if round.Nothing? { break; }
        if round.Cut? { return; }
        condensed := true;
        answer := Ask();
        if answer.aborts { return; }
        if round.after >= round.before { break; }
        targetDepth := targetDepth + 1;
      }
      done := true;
    }

    /** Compact until the target is met. */
    method CompactUntilUnder(tokenBudget: nat, target: int, current: int, threshold: int)
      returns (r: Option<UntilResult>, ghost sweeps: seq<SweepRecord>)
      modifies this`db, this`clock
      ensures Sweeps(old(db), sweeps, db, config, environment)
      ensures r.Some? ==>
        UntilUnder(r.value, config, if target > 0 then target else tokenBudget,
                   if current > Tokens(old(db)) then current else Tokens(old(db)), sweeps, Tokens(db))
      ensures Calm() ==> r.Some?
    {
      sweeps := [];
      var answer := Ask();
      if answer.aborts { return None, sweeps; }
      var targetTokens := if target > 0 then target else tokenBudget;
      var lastTokens := Tokens(db);
      if current > lastTokens { lastTokens := current; }
      if lastTokens < targetTokens {
        return Some(UntilResult(true, 0, lastTokens)), sweeps;
      }
      var over;
      over, sweeps := SweepRounds(targetTokens, lastTokens, threshold);
      r := over.result;
    }

    /** The rounds of sweeps, from a token count that is not below the target. */
    method SweepRounds(targetTokens: int, observed: nat, threshold: int)
      returns (r: Progress, ghost sweeps: seq<SweepRecord>)
      requires observed >= targetTokens
      modifies this`db, this`clock
      ensures Sweeps(old(db), sweeps, db, config, environment) && r.Over?
      ensures r.result.Some? ==> UntilUnder(r.result.value, config, targetTokens, observed, sweeps, Tokens(db))
      ensures Calm() ==> r.result.Some?
    {
      sweeps := [];
      var lastTokens := observed;
      var round := 1;
      while round <= config.maxRounds
        invariant Sweeps(old(db), sweeps, db, config, environment) && StillOver(sweeps, observed, targetTokens, config)
        invariant round == |sweeps| + 1 && |sweeps| <= (if config.maxRounds > 0 then config.maxRounds else 0)
        invariant lastTokens == if sweeps == [] then observed else Tokens(db)
        decreases config.maxRounds - round
      {
        r, sweeps := SweepRound(round, targetTokens, observed, lastTokens, threshold, old(db), sweeps);
        if r.Over? { return; }
        lastTokens := r.tokens;
        round := round + 1;
      }
      var answer := Ask();
      r := if answer.aborts then Over(None) else Over(Some(UntilResult(Tokens(db) <= targetTokens, config.maxRounds, Tokens(db))));
    }

    /** One round: over with a result or an abort, or to be continued from the new count. */
    method SweepRound(round: nat, targetTokens: int, ghost observed: nat, lastTokens: nat, threshold: int,
                      ghost first: Database, ghost before: seq<SweepRecord>)
      returns (r: Progress, ghost sweeps: seq<SweepRecord>)
      requires Sweeps(first, before, db, config, environment) && StillOver(before, observed, targetTokens, config)
      requires round == |before| + 1 <= config.maxRounds && observed >= targetTokens
      requires lastTokens == if before == [] then observed else Tokens(db)
      modifies this`db, this`clock
      ensures Sweeps(first, sweeps, db, config, environment)
      ensures r.Over? && r.result.Some? ==> UntilUnder(r.result.value, config, targetTokens, observed, sweeps, Tokens(db))
      ensures r.Further? ==> StillOver(sweeps, observed, targetTokens, config) && |sweeps| == round && r.tokens == Tokens(db)
      ensures Calm() ==> !(r.Over? && r.result.None?)
    {
      sweeps := before;
      var answer := Ask();
      if answer.aborts { return Over(None), sweeps; }
      var result;
      result, sweeps := SweepOnce(threshold, first, before);
      if result.Aborted? {
        r := Over(None);
      } else if result.tokensAfter <= targetTokens {
        r := Over(Some(UntilResult(true, round, result.tokensAfter)));
      } else if !result.actionTaken || result.tokensAfter >= lastTokens {
        r := Over(Some(UntilResult(false, round, result.tokensAfter)));
      } else {
        r := Further(result.tokensAfter);
      }
    }

    method SweepOnce(threshold: int, ghost first: Database, ghost before: seq<SweepRecord>)
      returns (result: SweepResult, ghost sweeps: seq<SweepRecord>)
      requires Sweeps(first, before, db, config, environment)
      modifies this`db, this`clock
      ensures Sweeps(first, sweeps, db, config, environment) && |sweeps| == |before| + 1 && Init(sweeps) == before
      ensures Last(sweeps).leaves.before == old(db) && Last(sweeps).condensed.after == db
      ensures result.Completed? ==> result.tokensAfter == Tokens(db) && result.actionTaken == Last(sweeps).Acted()
      ensures result.Completed? ==> Ended(Last(sweeps), config)
      ensures Calm() ==> result.Completed?
    {
      ghost var sweep: SweepRecord;
      result, sweep := CompactFullSweep(threshold, true, false);
      SweepsSnoc(first, before, sweep, config, environment);
      InitOfSnoc(before, sweep);
      sweeps := before + [sweep];
    }
  }

  datatype UntilResult = UntilResult(success: bool, rounds: int, finalTokens: nat)

  datatype Progress = Over(result: Option<UntilResult>) | Further(tokens: nat)

  /** Below the target from the start nothing is done; otherwise the flag says whether the
      stored count meets the target, every sweep ended, all but the last made progress and
      stayed over it, and only the last round or a sweep without progress ends in failure. */
  ghost predicate UntilUnder(r: UntilResult, config: Config, target: int, observed: nat, sweeps: seq<SweepRecord>, tokens: nat) {
    if observed < target then r == UntilResult(true, 0, observed) && sweeps == []
    else
      && r.finalTokens == tokens && (r.success <==> tokens <= target)
      && r.rounds == (if config.maxRounds > 0 then |sweeps| else config.maxRounds)
      && (config.maxRounds > 0 ==> 1 <= |sweeps| <= config.maxRounds)
      && (config.maxRounds <= 0 ==> sweeps == [])
      && (sweeps != [] ==> Ended(Last(sweeps), config) && StillOver(Init(sweeps), observed, target, config))
      && (!r.success ==> r.rounds == config.maxRounds || !Progresses(sweeps, observed))
  }

  /** The climb stopped at the depth limit, at a depth with nothing eligible, or at a pass
      that did not lower the count. */
  ghost predicate ClimbEnds(climb: PhaseRecord) {
    var config, after := climb.config, climb.after;
    || (config.incrementalMaxDepth >= 0 && |climb.passes| >= config.incrementalMaxDepth)
    || !Eligible(after, Outside(after, config.freshTailCount), config, |climb.passes|, false)
    || !climb.improving
  }

  /** What one round did to a phase in which every pass lowered the count. */
  ghost predicate Stepped(before: PhaseRecord, run: PhaseRecord, round: Round, db: Database, db': Database) {
    match round
    case Ran(tokens, tokens') =>
      && |run.passes| == |before.passes| + 1 && tokens == Tokens(db) && tokens' == Tokens(db')
      && run.improving == BringsDown(tokens, tokens', before.passes == [], before.accepted)
      && run.count == if run.improving then tokens' else if before.passes == [] then before.accepted else tokens
    case Nothing => run == before && db' == db
    case Cut => run == before && db' == db
  }

  /** The phase with the pass of a round. */
  lemma {:induction false} StepGrows(phase: Phase, pass: Pass, round: Round) returns (run: Phase)
    requires phase.improving && pass.PassRecord? && pass.before == phase.after && pass.count == phase.config.freshTailCount
    requires Took(pass, phase.config, phase.kind, |phase.passes|) && Answered(pass, phase.environment)
    requires round == Ran(Tokens(pass.before), Tokens(pass.after))
    ensures run.after == pass.after && run.Continues(phase) && Stepped(phase, run, round, pass.before, pass.after)
  {
    run := Grow(phase, pass);
  }

  lemma {:induction false} CandidateIff(db: Store, config: Config, depth: nat, hard: bool, r: Found, chunk: seq<ContextItem>)
    requires IsDepthChunk(db, Outside(db, config.freshTailCount), depth, config.LeafChunkTokens(), r)
    requires r.lo <= r.hi <= |Outside(db, config.freshTailCount)| && chunk == db.context[r.lo..r.hi]
    ensures Eligible(db, Outside(db, config.freshTailCount), config, depth, hard) <==> Worthwhile(config, depth, hard, r)
    ensures forall item <- chunk :: AtDepth(db, item.ref, depth)
  {
    EligibleIff(db, Outside(db, config.freshTailCount), config, depth, hard, r);
    PrefixChunkItems(db, db.context, TailStart(Refs(db.context), config.freshTailCount), depth, config.LeafChunkTokens(), r, chunk);
  }

  /** The items a scan reaches are those outside the tail. */
  lemma {:induction false} ScansOutside(db: Store, count: int, flags: seq<bool>, w: seq<nat>)
    requires |flags| == |w| == |Outside(db, count)|
    ensures |w| <= |db.context|
    ensures forall i | 0 <= i < |db.context| :: i >= |w| <==> Protected(FreshTailOrdinal(db.context, count), db.context[i])
  {
    Aspects(db);
    ProtectedByOrdinal(db.context, count);
  }

  lemma {:induction false} FoundLeafChunk(db: Store, count: int, budget: nat, r: Found, chunk: seq<ContextItem>)
    requires r.lo <= r.hi <= |Outside(db, count)| && chunk == db.context[r.lo..r.hi]
    requires r == Find(MessageFlags(Outside(db, count)), Weights(db, Outside(db, count)), budget, 0, 0, 0)
    ensures chunk == LeafChunk(db, Outside(db, count), budget)
    ensures IsLeafChunk(db, Outside(db, count), budget, r)
  {
    FindsLeafChunk(db, Outside(db, count), budget, r);
    PrefixSlice(db.context, |Outside(db, count)|, r.lo, r.hi);
  }

  lemma {:induction false} FoundDepthChunk(db: Store, count: int, depth: nat, budget: nat, r: Found, chunk: seq<ContextItem>)
    requires r.lo <= r.hi <= |Outside(db, count)| && chunk == db.context[r.lo..r.hi]
    requires r == Find(DepthFlags(db, Outside(db, count), depth), Weights(db, Outside(db, count)), budget, 0, 0, 0)
    ensures chunk == DepthChunk(db, Outside(db, count), depth, budget)
    ensures IsDepthChunk(db, Outside(db, count), depth, budget, r)
  {
    FindsDepthChunk(db, Outside(db, count), depth, budget, r);
    PrefixSlice(db.context, |Outside(db, count)|, r.lo, r.hi);
  }

  /** A selected run of messages, or of summaries at one depth, is a chunk for a pass. */
  lemma ContextChunk(db: Store, chunk: seq<ContextItem>, lo: nat, depth: nat) returns (refs: seq<Ref>)
    requires chunk != [] && lo + |chunk| <= |db.context| && chunk == db.context[lo..lo + |chunk|]
    requires forall item <- chunk :: if depth == 0 then item.ref.MessageRef? else AtDepth(db, item.ref, depth - 1)
    ensures refs == Refs(chunk) == Refs(db.context)[lo..lo + |chunk|] && IsChunk(db, refs, depth)
  {
    refs := Refs(chunk);
    Aspects(db);
    forall r <- refs ensures Fits(db, depth, r) {
      var k :| 0 <= k < |chunk| && refs[k] == r;
      assert chunk[k] in chunk;
      assert Refs(db.context)[lo + k] == r && r in Refs(db.context);
    }
  }
}
