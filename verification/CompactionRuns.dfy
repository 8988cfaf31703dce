/** Runs of compaction passes (src/compaction.ts, lines 448-620 and 1193-1420): what every
    run keeps, and how the passes of a sweep follow each other. */
module CompactionRuns {
  import opened Options
  import opened CompactionStore
  import opened CompactionPass
  import opened FreshTail
  import opened Sequences
  import opened CompactionChoice
  import opened CompactionSummary

  // ---- runs of passes -------------------------------------------------------------

  /** A store whose links, counters and context agree. */
  type Store = d: Database | Valid(d) witness Database(map[], map[], map[], map[], [])

  const EMPTY_STORE := Database(map[], map[], map[], map[], [])

  /** What one pass did: nothing, or it replaced the items lo..hi before the fresh
      tail (of the configured message count) by the new summary id. */
  datatype PassRecord =
    | NoPass
    | PassRecord(before: Database, after: Database, lo: nat, hi: nat, depth: nat, id: SummaryId, summary: Summary,
                 count: int, writing: Writing)

  /** What a new summary owes its chunk: to be made of a chunk, to count it truly, and to
      hold its text. */
  datatype Duty = OfChunk | OfTotals | OfText

  ghost predicate Fulfils(duty: Duty, db: Database, refs: seq<Ref>, depth: nat, id: SummaryId, s: Summary, w: Writing) {
    match duty
    case OfChunk => IsChunk(db, refs, depth)
    case OfTotals => IsChunk(db, refs, depth) && Describes(db, s, refs, depth)
    case OfText => Writes(db, refs, w, id, s)
  }

  ghost predicate Drafted(db: Database, refs: seq<Ref>, depth: nat, id: SummaryId, s: Summary, w: Writing) {
    forall duty :: Fulfils(duty, db, refs, depth, id, s, w)
  }

  /** A draft spelled out. */
  lemma Duties(db: Database, refs: seq<Ref>, depth: nat, id: SummaryId, s: Summary, w: Writing)
    ensures Drafted(db, refs, depth, id, s, w)
        <==> IsChunk(db, refs, depth) && Describes(db, s, refs, depth) && Writes(db, refs, w, id, s)
  {
    if Drafted(db, refs, depth, id, s, w) {
      assert Fulfils(OfTotals, db, refs, depth, id, s, w) && Fulfils(OfText, db, refs, depth, id, s, w);
    }
  }

  /** What a pass between two stores did: the change it committed, and the chunk it took
      with the summary it made of it. */
  datatype Facet = Change | Chunk

  ghost predicate Shows(p: PassRecord, facet: Facet)
    requires p.PassRecord?
  {
    match facet
    case Change => Committed(p.before, p.after, p.lo, p.hi, p.id, p.summary)
    case Chunk =>
      && p.lo <= p.hi <= TailStart(Refs(p.before.context), p.count)
      && Drafted(p.before, Refs(p.before.context)[p.lo..p.hi], p.depth, p.id, p.summary, p.writing)
  }

  ghost predicate IsPass(p: PassRecord) {
    p.PassRecord? ==> Valid(p.before) && Valid(p.after) && forall facet :: Shows(p, facet)
  }

  type Pass = p: PassRecord | IsPass(p) witness NoPass

  /** The passes of run, each of which committed, lead from store a to store b. */
  ghost predicate Leads(a: Database, run: seq<PassRecord>, b: Database, count: int) {
    if run == [] then a == b
    else
      var last := Last(run);
      last.PassRecord? && IsPass(last) && last.after == b && last.count == count && Leads(a, Init(run), last.before, count)
  }

  /** What every run keeps, wherever it is cut: the conversation, the messages, every
      earlier summary with its links, and the fresh tail. */
  ghost predicate Kept(a: Store, b: Store, count: int) {
    && Extends(a, b)
    && b.messages == a.messages
    && Conversation(b) == Conversation(a)
    && Tail(Refs(b.context), count) == Tail(Refs(a.context), count)
  }

  lemma ExtendsTransitive(a: Database, b: Database, c: Database)
    requires Extends(a, b) && Extends(b, c)
    ensures Extends(a, c)
  {}

  lemma KeptTransitive(a: Store, b: Store, c: Store, count: int)
    requires Kept(a, b, count) && Kept(b, c, count)
    ensures Kept(a, c, count)
  {
    ExtendsTransitive(a, b, c);
  }

  lemma PassKeeps(p: Pass)
    requires p.PassRecord?
    ensures Kept(p.before, p.after, p.count)
  {
    assert IsPass(p) && Shows(p, Change) && Shows(p, Chunk);
    Duties(p.before, Refs(p.before.context)[p.lo..p.hi], p.depth, p.id, p.summary, p.writing);
    CommitKeepsValid(p.before, p.after, p.lo, p.hi, p.depth, p.id, p.summary);
    ReplacementKeepsTail(Refs(p.before.context), p.count, p.lo, p.hi, p.id);
  }

  /** Losslessness over whole runs. */
  lemma {:induction false} RunKeeps(a: Store, run: seq<PassRecord>, b: Store, count: int)
    requires Leads(a, run, b, count)
    ensures Kept(a, b, count)
    decreases |run|
  {
    if run != [] {
      var last := Last(run);
      RunKeeps(a, Init(run), last.before, count);
      PassKeeps(last);
      KeptTransitive(a, last.before, b, count);
    }
  }

  lemma {:induction false} LeadsConcat(a: Database, u: seq<PassRecord>, mid: Database, v: seq<PassRecord>, b: Database, count: int)
    requires Leads(a, u, mid, count) && Leads(mid, v, b, count)
    ensures Leads(a, u + v, b, count)
    decreases |v|
  {
    if v == [] {
      assert u + v == u;
    } else {
      InitOfConcat(u, v);
      LeadsConcat(a, u, mid, Init(v), Last(v).before, count);
    }
  }

  /** The step from one store to the next that a recorded pass stands for. */
  ghost predicate Did(p: Pass, a: Database, b: Database, count: int) {
    if p.NoPass? then a == b else p.before == a && p.after == b && p.count == count
  }

  lemma LeadsSnoc(a: Database, run: seq<PassRecord>, mid: Database, p: Pass, b: Database, count: int)
    requires Leads(a, run, mid, count) && Did(p, mid, b, count) && p.PassRecord?
    ensures Leads(a, run + [p], b, count)
  {
    InitOfSnoc(run, p);
  }

  /** The transaction over a chunk before the fresh tail is a pass. */
  lemma {:induction false} RangeCommits(db: Store, lo: nat, hi: nat, start: nat, end: nat, refs: seq<Ref>, depth: nat, id: SummaryId,
                     s: Summary, w: Writing, committed: Option<Database>, count: int) returns (pass: Pass)
    requires id !in db.summaries && lo < hi <= TailStart(Refs(db.context), count)
    requires start == db.context[lo].ordinal && end == db.context[hi - 1].ordinal
    requires refs == Refs(db.context)[lo..hi] && Drafted(db, refs, depth, id, s, w)
    requires committed == Commit(db, id, s, MessageIds(refs), SummaryIds(refs), start, end)
    ensures pass.PassRecord? && pass.before == db && pass.lo == lo && pass.hi == hi && pass.depth == depth
    ensures pass.id == id && pass.summary == s && pass.count == count && pass.writing == w
    ensures committed == Some(pass.after)
  {
    Duties(db, refs, depth, id, s, w);
    CommitReplacesChunk(db, lo, hi, depth, id, s);
    CommitKeepsValid(db, committed.value, lo, hi, depth, id, s);
    pass := PassRecord(db, committed.value, lo, hi, depth, id, s, count, w);
  }

  // ---- what the passes of a sweep took ----------------------------------------------

  /** The context items a pass replaced. */
  ghost function Taken(p: PassRecord): seq<ContextItem> {
    if p.PassRecord? && p.lo <= p.hi <= |p.before.context| then p.before.context[p.lo..p.hi] else []
  }

  /** A leaf pass took the oldest run of raw messages outside the tail. */
  ghost predicate TookLeaf(p: PassRecord, config: Config) {
    p.PassRecord? && p.depth == 0
    && Taken(p) == LeafChunk(p.before, Outside(p.before, config.freshTailCount), config.LeafChunkTokens())
  }

  lemma PassTookLeaf(p: PassRecord, config: Config, chunk: seq<ContextItem>, lo: nat)
    requires p.PassRecord? && p.lo == lo && p.hi == lo + |chunk| && p.depth == 0
    requires lo + |chunk| <= |p.before.context| && chunk == p.before.context[lo..lo + |chunk|]
    requires chunk == LeafChunk(p.before, Outside(p.before, config.freshTailCount), config.LeafChunkTokens())
    ensures TookLeaf(p, config)
  {
  }

  /** A condensed pass took the oldest run at a depth, which was eligible. */
  ghost predicate TookDepth(p: PassRecord, config: Config, depth: nat, hard: bool) {
    p.PassRecord? && p.depth == depth + 1
    && Taken(p) == DepthChunk(p.before, Outside(p.before, config.freshTailCount), depth, config.LeafChunkTokens())
    && Eligible(p.before, Outside(p.before, config.freshTailCount), config, depth, hard)
  }

  lemma PassTookDepth(p: PassRecord, config: Config, depth: nat, hard: bool, chunk: seq<ContextItem>, lo: nat)
    requires p.PassRecord? && p.lo == lo && p.hi == lo + |chunk| && p.depth == depth + 1
    requires lo + |chunk| <= |p.before.context| && chunk == p.before.context[lo..lo + |chunk|]
    requires chunk == DepthChunk(p.before, Outside(p.before, config.freshTailCount), depth, config.LeafChunkTokens())
    requires Eligible(p.before, Outside(p.before, config.freshTailCount), config, depth, hard)
    ensures TookDepth(p, config, depth, hard)
  {
  }

  /** It did so at the shallowest depth that was eligible. */
  ghost predicate TookShallowest(p: PassRecord, config: Config, hard: bool) {
    p.PassRecord? && p.depth > 0 && TookDepth(p, config, p.depth - 1, hard)
    && ShallowestFrom(p.before, Outside(p.before, config.freshTailCount), config, hard, p.depth - 1)
  }

  /** Which chunks the passes of a phase take; a climb goes one depth higher each time. */
  datatype Kind = Leaves | Shallowest(hard: bool) | Climb

  ghost predicate Took(p: PassRecord, config: Config, kind: Kind, index: nat) {
    match kind
    case Leaves => TookLeaf(p, config)
    case Shallowest(hard) => TookShallowest(p, config, hard)
    case Climb => TookDepth(p, config, index, false)
  }

  ghost predicate AllTook(run: seq<PassRecord>, config: Config, kind: Kind) {
    run == [] || (Took(Last(run), config, kind, |run| - 1) && AllTook(Init(run), config, kind))
  }

  /** The environment gave the answer a pass worked with, and it was no abort. */
  ghost predicate Answered(p: PassRecord, environment: Environment) {
    p.PassRecord? && p.writing.answer == environment(p.before, p.writing.asked) && !p.writing.answer.aborts
  }

  ghost predicate AllAnswered(run: seq<PassRecord>, environment: Environment) {
    run == [] || (Answered(Last(run), environment) && AllAnswered(Init(run), environment))
  }

  lemma {:induction false} EachAnswered(run: seq<PassRecord>, environment: Environment, i: nat)
    requires AllAnswered(run, environment) && i < |run|
    ensures Answered(run[i], environment)
    decreases |run|
  {
    if i < |run| - 1 {
      InitIndex(run, i);
      EachAnswered(Init(run), environment, i);
    }
  }

  // ---- token counts along a run --------------------------------------------------------

  ghost predicate Lowers(p: PassRecord) {
    p.PassRecord? && Tokens(p.after) < Tokens(p.before)
  }

  /** The last pass lowered the token count, a first pass also below the count accepted
      before the run. */
  ghost predicate Improves(run: seq<PassRecord>, accepted: nat) {
    run != [] && Lowers(Last(run)) && (|run| == 1 ==> Tokens(run[0].after) < accepted)
  }

  ghost predicate AllImprove(run: seq<PassRecord>, accepted: nat) {
    run == [] || (Improves(run, accepted) && AllImprove(Init(run), accepted))
  }

  /** Every pass but possibly the last one does. */
  ghost predicate StepsDown(run: seq<PassRecord>, accepted: nat) {
    run == [] || AllImprove(Init(run), accepted)
  }

  ghost predicate LastFails(run: seq<PassRecord>, accepted: nat) {
    run != [] && !Improves(run, accepted)
  }

  /** The last count a phase accepted. */
  ghost function Accepted(run: seq<PassRecord>, accepted: nat): nat {
    if Improves(run, accepted) then Tokens(Last(run).after)
    else if |run| <= 1 || Last(run).NoPass? then accepted
    else Tokens(Last(run).before)
  }

  /** What stepping down means for each pass, and for the first one. */
  lemma {:induction false} EachLowers(run: seq<PassRecord>, accepted: nat, i: nat)
    requires AllImprove(run, accepted) && i < |run|
    ensures Lowers(run[i])
    decreases |run|
  {
    if i < |run| - 1 {
      InitIndex(run, i);
      EachLowers(Init(run), accepted, i);
    }
  }

  lemma {:induction false} FirstIsBelow(run: seq<PassRecord>, accepted: nat)
    requires AllImprove(run, accepted) && run != []
    ensures run[0].PassRecord? && Tokens(run[0].after) < accepted
    decreases |run|
  {
    if |run| > 1 {
      InitIndex(run, 0);
      FirstIsBelow(Init(run), accepted);
    }
  }

  // ---- phases -------------------------------------------------------------------------------

  /** The passes of one phase of a sweep, with the count accepted before it and the last
      one it accepted, and whether every pass lowered the count. */
  datatype PhaseRecord = PhaseRecord(
    config: Config, environment: Environment, kind: Kind, accepted: nat, before: Database, passes: seq<PassRecord>,
    after: Database, count: nat, improving: bool)
  {
    /** The same phase so far. */
    ghost predicate Continues(earlier: PhaseRecord) {
      config == earlier.config && environment == earlier.environment && kind == earlier.kind && accepted == earlier.accepted && before == earlier.before
    }
  }

  /** The passes lead from the first store to the last, each took the chunk of its kind and
      stored what the environment made of it, and every one but possibly the last lowered the count. */
  ghost predicate IsPhase(r: PhaseRecord) {
    && Leads(r.before, r.passes, r.after, r.config.freshTailCount)
    && AllTook(r.passes, r.config, r.kind) && AllAnswered(r.passes, r.environment)
    && Counted(r.passes, r.accepted, r.count, r.improving)
  }

  /** Every pass but possibly the last lowered the count, improving says whether it did
      too, and count is the last one accepted. */
  ghost predicate Counted(run: seq<PassRecord>, accepted: nat, count: nat, improving: bool) {
    && (if improving then AllImprove(run, accepted) else StepsDown(run, accepted) && LastFails(run, accepted))
    && count == Accepted(run, accepted)
  }

  type Phase = r: PhaseRecord | IsPhase(r)
    ghost witness PhaseRecord(Config(0, 0, 0, 0, 0, 0, 0, 0), (_, _) => Answer(true, _ => "", s => s, (s, _) => s, s => s), Leaves, 0, EMPTY_STORE, [], EMPTY_STORE, 0, true)

  lemma Begin(config: Config, environment: Environment, kind: Kind, accepted: nat, db: Database) returns (r: Phase)
    ensures r == PhaseRecord(config, environment, kind, accepted, db, [], db, accepted, true)
  {
    r := PhaseRecord(config, environment, kind, accepted, db, [], db, accepted, true);
  }

  lemma TookSnoc(run: seq<PassRecord>, p: PassRecord, config: Config, environment: Environment, kind: Kind)
    requires AllTook(run, config, kind) && Took(p, config, kind, |run|)
    requires AllAnswered(run, environment) && Answered(p, environment)
    ensures AllTook(run + [p], config, kind) && AllAnswered(run + [p], environment)
  {
    InitOfSnoc(run, p);
  }

  /** Whether one more pass improves on a run in which every pass did. */
  predicate BringsDown(before: nat, after: nat, first: bool, accepted: nat) {
    after < before && (first ==> after < accepted)
  }

  lemma CountsSnoc(run: seq<PassRecord>, p: PassRecord, accepted: nat, improves: bool)
    requires AllImprove(run, accepted) && p.PassRecord?
    requires improves == BringsDown(Tokens(p.before), Tokens(p.after), run == [], accepted)
    ensures Counted(run + [p], accepted, CountAfter(p, improves, run == [], accepted), improves)
  {
    InitOfSnoc(run, p);
  }

  function CountAfter(p: PassRecord, improves: bool, first: bool, accepted: nat): nat
    requires p.PassRecord?
  {
    if improves then Tokens(p.after) else if first then accepted else Tokens(p.before)
  }

  lemma {:induction false} PassesSnoc(r: Phase, p: Pass, improves: bool)
    requires r.improving && p.PassRecord? && p.before == r.after && p.count == r.config.freshTailCount
    requires Took(p, r.config, r.kind, |r.passes|) && Answered(p, r.environment)
    requires improves == BringsDown(Tokens(p.before), Tokens(p.after), r.passes == [], r.accepted)
    ensures Leads(r.before, r.passes + [p], p.after, r.config.freshTailCount)
    ensures AllTook(r.passes + [p], r.config, r.kind) && AllAnswered(r.passes + [p], r.environment)
    ensures Counted(r.passes + [p], r.accepted, CountAfter(p, improves, r.passes == [], r.accepted), improves)
  {
    assert IsPhase(r);
    LeadsSnoc(r.before, r.passes, r.after, p, p.after, p.count);
    TookSnoc(r.passes, p, r.config, r.environment, r.kind);
    CountsSnoc(r.passes, p, r.accepted, improves);
  }

  /** One more pass after a phase in which every pass lowered the count. */
  lemma {:induction false} Grow(r: Phase, p: Pass) returns (longer: Phase)
    requires r.improving && p.PassRecord? && p.before == r.after && p.count == r.config.freshTailCount
    requires Took(p, r.config, r.kind, |r.passes|) && Answered(p, r.environment)
    ensures
      var improves := BringsDown(Tokens(p.before), Tokens(p.after), r.passes == [], r.accepted);
      longer == r.(passes := r.passes + [p], after := p.after, improving := improves,
                   count := CountAfter(p, improves, r.passes == [], r.accepted))
  {
    var improves := BringsDown(Tokens(p.before), Tokens(p.after), r.passes == [], r.accepted);
    PassesSnoc(r, p, improves);
    longer := PhaseOf(r.config, r.environment, r.kind, r.accepted, r.before, r.passes + [p], p.after,
                      CountAfter(p, improves, r.passes == [], r.accepted), improves);
  }

  lemma {:induction false} PhaseOf(config: Config, environment: Environment, kind: Kind, accepted: nat, before: Database,
                                   passes: seq<PassRecord>, after: Database, count: nat, improving: bool) returns (r: Phase)
    requires Leads(before, passes, after, config.freshTailCount) && AllTook(passes, config, kind)
    requires AllAnswered(passes, environment)
    requires Counted(passes, accepted, count, improving)
    ensures r == PhaseRecord(config, environment, kind, accepted, before, passes, after, count, improving)
  {
    r := PhaseRecord(config, environment, kind, accepted, before, passes, after, count, improving);
  }

  /** A phase keeps what every run keeps. */
  lemma PhaseKeeps(r: Phase)
    requires Valid(r.before) && Valid(r.after)
    ensures Kept(r.before, r.after, r.config.freshTailCount)
  {
    RunKeeps(r.before, r.passes, r.after, r.config.freshTailCount);
  }

  // ---- sweeps ------------------------------------------------------------------------------

  /** A full sweep: leaf passes, then condensed passes that must get below the count the
      first phase accepted. */
  datatype SweepRecord = SweepRecord(leaves: Phase, condensed: Phase)
  {
    predicate Acted() {
      |leaves.passes| > 0 || |condensed.passes| > 0
    }

    function Run(): seq<PassRecord> {
      leaves.passes + condensed.passes
    }
  }

  ghost predicate IsSweep(s: SweepRecord, config: Config, environment: Environment, hard: bool) {
    && s.leaves.environment == environment && s.condensed.environment == environment
    && s.leaves.config == config && s.leaves.kind == Leaves && s.leaves.accepted == Tokens(s.leaves.before)
    && s.condensed.config == config && s.condensed.kind == Shallowest(hard) && s.condensed.accepted == s.leaves.count
    && s.condensed.before == s.leaves.after
  }

  /** Each phase ran out of work or stopped at a pass that failed to lower the count. */
  ghost predicate Finished(s: SweepRecord, config: Config, hard: bool) {
    && (NoRawItems(Outside(s.leaves.after, config.freshTailCount)) || !s.leaves.improving)
    && (NoCandidate(s.condensed.after, Outside(s.condensed.after, config.freshTailCount), config, hard)
        || !s.condensed.improving)
  }

  /** Sweeps one after another. */
  ghost predicate Sweeps(a: Database, sweeps: seq<SweepRecord>, b: Database, config: Config,
                         environment: Environment) {
    if sweeps == [] then a == b
    else
      var last := Last(sweeps);
      last.condensed.after == b && IsSweep(last, config, environment, false) && Sweeps(a, Init(sweeps), last.leaves.before, config, environment)
  }

  lemma SweepsSnoc(a: Database, sweeps: seq<SweepRecord>, s: SweepRecord, config: Config, environment: Environment)
    requires Sweeps(a, sweeps, s.leaves.before, config, environment) && IsSweep(s, config, environment, false)
    ensures Sweeps(a, sweeps + [s], s.condensed.after, config, environment)
  {
    InitOfSnoc(sweeps, s);
  }

  ghost function RunOf(sweeps: seq<SweepRecord>): seq<PassRecord> {
    if sweeps == [] then [] else RunOf(Init(sweeps)) + Last(sweeps).Run()
  }

  /** Sweeps are runs of passes, so they keep what every run keeps. */
  lemma {:induction false} SweepsLead(a: Database, sweeps: seq<SweepRecord>, b: Database, config: Config,
                         environment: Environment)
    requires Sweeps(a, sweeps, b, config, environment)
    ensures Leads(a, RunOf(sweeps), b, config.freshTailCount)
    decreases |sweeps|
  {
    if sweeps != [] {
      var last := Last(sweeps);
      SweepsLead(a, Init(sweeps), last.leaves.before, config, environment);
      SweepLeads(last, config, environment);
      LeadsConcat(a, RunOf(Init(sweeps)), last.leaves.before, last.Run(), b, config.freshTailCount);
    }
  }

  lemma SweepLeads(s: SweepRecord, config: Config, environment: Environment)
    requires IsSweep(s, config, environment, false)
    ensures Leads(s.leaves.before, s.Run(), s.condensed.after, config.freshTailCount)
  {
    assert IsPhase(s.leaves) && IsPhase(s.condensed);
    LeadsConcat(s.leaves.before, s.leaves.passes, s.leaves.after, s.condensed.passes, s.condensed.after, config.freshTailCount);
  }

  /** The last sweep acted and brought the count below the one before it, the first sweep
      below the count first observed. */
  ghost predicate Progresses(sweeps: seq<SweepRecord>, first: nat) {
    sweeps != []
    && var last := Last(sweeps);
       last.Acted() && Tokens(last.condensed.after) < if |sweeps| == 1 then first else Tokens(last.leaves.before)
  }

  /** A sweep that was not cut: the context was empty or both phases finished. */
  ghost predicate Ended(s: SweepRecord, config: Config) {
    s.leaves.before.context == [] || Finished(s, config, false)
  }

  /** Every sweep ended, made progress and stayed over the target. */
  ghost predicate StillOver(sweeps: seq<SweepRecord>, first: nat, target: int, config: Config) {
    sweeps == []
    || (Ended(Last(sweeps), config) && Progresses(sweeps, first) && Tokens(Last(sweeps).condensed.after) > target
        && StillOver(Init(sweeps), first, target, config))
  }
}
