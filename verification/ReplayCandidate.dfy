/** The replay discovery predicate (src/batch-compact.ts, lines 209-243) and its
    agreement with the engine's own candidate selection. */
module ReplayCandidate {
  import opened Options
  import opened CompactionStore
  import opened CompactionPass
  import opened FreshTail
  import opened OldestRun
  import opened CompactionChoice
  import opened CompactionRuns

  const FRESH_TAIL_COUNT := 8
  const LEAF_MIN_FANOUT := 3
  const CONDENSED_MIN_FANOUT := 2
  const SUMMARY_CHUNK_TOKENS := 20_000
  const MIN_CONDENSED_TOKENS := 2_000

  datatype Row = Row(ordinal: nat, isMessage: bool, depth: Option<nat>, tokenCount: nat)

  function MessageOrdinals(rows: seq<Row>): seq<nat> {
    if rows == [] then []
    else (if rows[0].isMessage then [rows[0].ordinal] else []) + MessageOrdinals(rows[1..])
  }

  function TailOrdinal(rows: seq<Row>): Option<nat> {
    var raw := MessageOrdinals(rows);
    if raw == [] then None
    else Some(raw[if |raw| - FRESH_TAIL_COUNT > 0 then |raw| - FRESH_TAIL_COUNT else 0])
  }

  predicate Beyond(tail: Option<nat>, row: Row) {
    tail.Some? && row.ordinal >= tail.value
  }

  function Unprotected(rows: seq<Row>, tail: Option<nat>): seq<Row> {
    if rows == [] || Beyond(tail, rows[0]) then []
    else [rows[0]] + Unprotected(rows[1..], tail)
  }

  ghost predicate IsUnprotected(rows: seq<Row>, tail: Option<nat>, outside: seq<Row>) {
    && |outside| <= |rows|
    && (|outside| < |rows| ==> Beyond(tail, rows[|outside|]))
    && forall k | 0 <= k < |outside| :: outside[k] == rows[k] && !Beyond(tail, rows[k])
  }

  lemma {:induction false} UnprotectedIs(rows: seq<Row>, tail: Option<nat>)
    ensures IsUnprotected(rows, tail, Unprotected(rows, tail))
    decreases |rows|
  {
    if rows != [] && !Beyond(tail, rows[0]) {
      var rest := Unprotected(rows[1..], tail);
      UnprotectedIs(rows[1..], tail);
      assert forall k | 0 < k <= |rest| :: Unprotected(rows, tail)[k] == rest[k - 1] == rows[1..][k - 1] == rows[k];
    }
  }

  function RowFlags(rows: seq<Row>, depth: nat): (r: seq<bool>)
    ensures |r| == |rows| && forall i | 0 <= i < |r| :: r[i] == (!rows[i].isMessage && rows[i].depth == Some(depth))
  {
    seq(|rows|, i requires 0 <= i < |rows| => !rows[i].isMessage && rows[i].depth == Some(depth))
  }

  function RowWeights(rows: seq<Row>): (r: seq<nat>)
    ensures |r| == |rows| && forall i | 0 <= i < |r| :: r[i] == rows[i].tokenCount
  {
    seq(|rows|, i requires 0 <= i < |rows| => rows[i].tokenCount)
  }

  function RunAt(rows: seq<Row>, depth: nat): Found {
    Find(RowFlags(rows, depth), RowWeights(rows), SUMMARY_CHUNK_TOKENS, 0, 0, 0)
  }

  predicate WorthReplay(depth: nat, count: int, tokens: nat) {
    count >= (if depth == 0 then LEAF_MIN_FANOUT else CONDENSED_MIN_FANOUT) && tokens >= MIN_CONDENSED_TOKENS
  }

  predicate CandidateDepth(rows: seq<Row>, depth: nat) {
    var r := RunAt(Unprotected(rows, TailOrdinal(rows)), depth);
    WorthReplay(depth, r.hi - r.lo, r.tokens)
  }

  function RowDepths(rows: seq<Row>, limit: nat): (r: seq<nat>)
    ensures forall d: nat :: d in r <==> d < limit && true in RowFlags(rows, d)
  {
    if limit == 0 then []
    else RowDepths(rows, limit - 1) + if true in RowFlags(rows, limit - 1) then [limit - 1] else []
  }

  function RowDepthLimit(rows: seq<Row>): (l: nat)
    ensures forall i | 0 <= i < |rows| && rows[i].depth.Some? :: rows[i].depth.value < l
  {
    if rows == [] then 0
    else
      var last := rows[|rows| - 1];
      var rest := RowDepthLimit(rows[..|rows| - 1]);
      if last.depth.Some? && last.depth.value >= rest then last.depth.value + 1 else rest
  }

  /** The scan of one depth. */
  method ScanDepth(rows: seq<Row>, tail: Option<nat>, depth: nat, ghost outside: seq<Row>)
    returns (count: nat, tokens: nat)
    requires IsUnprotected(rows, tail, outside)
    ensures
      var r := RunAt(outside, depth);
      count == r.hi - r.lo && tokens == r.tokens
  {
    ghost var flags, w := RowFlags(outside, depth), RowWeights(outside);
    ghost var lo: nat := 0;
    count, tokens := 0, 0;
    var started, i: nat := false, 0;
    while i < |rows| && !Beyond(tail, rows[i])
      invariant i <= |outside| && lo + count == i && started == (count > 0)
      invariant RunAt(outside, depth) == Find(flags, w, SUMMARY_CHUNK_TOKENS, lo, i, tokens)
      invariant !started ==> tokens == 0
    {
      var item := rows[i];
      if item.isMessage || item.depth != Some(depth) {
        if started { return; }
        lo, i := i + 1, i + 1;
        continue;
      }
      if started && tokens + item.tokenCount > SUMMARY_CHUNK_TOKENS { return; }
      started := true;
      count := count + 1;
      tokens := tokens + item.tokenCount;
      i := i + 1;
      if tokens >= SUMMARY_CHUNK_TOKENS { return; }
    }
  }

  lemma NoRunAt(rows: seq<Row>, depth: nat)
    requires true !in RowFlags(rows, depth)
    ensures !WorthReplay(depth, RunAt(rows, depth).hi - RunAt(rows, depth).lo, RunAt(rows, depth).tokens)
  {
    var flags, w, n := RowFlags(rows, depth), RowWeights(rows), |rows|;
    FindsOldestRun(flags, w, SUMMARY_CHUNK_TOKENS, 0, 0, 0);
    var r := RunAt(rows, depth);
    assert forall k | 0 <= k < n :: !flags[k];
    assert r.lo == r.hi;
  }

  method HasReplayCondensationCandidate(rows: seq<Row>) returns (b: bool)
    ensures b <==> exists d: nat :: CandidateDepth(rows, d)
  {
    var tail := TailOrdinal(rows);
    var outside := Unprotected(rows, tail);
    UnprotectedIs(rows, tail);
    var depths := RowDepths(outside, RowDepthLimit(outside));
    for i := 0 to |depths|
      invariant forall k | 0 <= k < i :: !CandidateDepth(rows, depths[k])
    {
      var count, tokens := ScanDepth(rows, tail, depths[i], outside);
      if WorthReplay(depths[i], count, tokens) {
        assert CandidateDepth(rows, depths[i]);
        return true;
      }
    }
    OnlyListedDepths(rows, depths);
    return false;
  }

  lemma OnlyListedDepths(rows: seq<Row>, depths: seq<nat>)
    requires
      var outside := Unprotected(rows, TailOrdinal(rows));
      depths == RowDepths(outside, RowDepthLimit(outside))
    requires forall k | 0 <= k < |depths| :: !CandidateDepth(rows, depths[k])
    ensures !exists d: nat :: CandidateDepth(rows, d)
  {
    var outside := Unprotected(rows, TailOrdinal(rows));
    forall d: nat ensures !CandidateDepth(rows, d) {
      if d in depths {
        var k :| 0 <= k < |depths| && depths[k] == d;
      } else {
        assert true !in RowFlags(outside, d);
        NoRunAt(outside, d);
      }
    }
  }

  // ---- agreement with the engine -------------------------------------------------

  /** The rows discovery builds from a stored context. */
  function RowOf(db: Database, item: ContextItem): Row {
    match item.ref
    case MessageRef(_) => Row(item.ordinal, true, None, 0)
    case SummaryRef(s) =>
      if s in db.summaries then Row(item.ordinal, false, Some(db.summaries[s].depth), SummaryTokens(db.summaries[s]))
      else Row(item.ordinal, false, None, 0)
  }

  function RowsOf(db: Database, items: seq<ContextItem>): (r: seq<Row>)
    ensures |r| == |items| && forall i | 0 <= i < |r| :: r[i] == RowOf(db, items[i])
  {
    seq(|items|, i requires 0 <= i < |items| => RowOf(db, items[i]))
  }

  lemma {:induction false} SameOrdinals(db: Database, items: seq<ContextItem>)
    ensures MessageOrdinals(RowsOf(db, items)) == RawOrdinals(items)
    decreases |items|
  {
    if items != [] {
      SameOrdinals(db, items[1..]);
      assert RowsOf(db, items)[1..] == RowsOf(db, items[1..]);
    }
  }

  lemma {:induction false} SameOutside(db: Database, items: seq<ContextItem>, tail: Option<nat>, t: nat)
    requires t <= |items|
    requires forall i | 0 <= i < |items| :: i >= t <==> Protected(tail, items[i])
    ensures Unprotected(RowsOf(db, items), tail) == RowsOf(db, items[..t])
    decreases |items|
  {
    var rows := RowsOf(db, items);
    if items != [] {
      if t == 0 {
        assert Beyond(tail, rows[0]);
      } else {
        assert !Protected(tail, items[0]);
        forall i | 0 <= i < |items| - 1 ensures i >= t - 1 <==> Protected(tail, items[1..][i]) {
          assert items[1..][i] == items[i + 1];
        }
        SameOutside(db, items[1..], tail, t - 1);
        assert rows[1..] == RowsOf(db, items[1..]);
        assert items[1..][..t - 1] == items[..t][1..];
        assert RowsOf(db, items[..t]) == [rows[0]] + RowsOf(db, items[..t][1..]);
      }
    }
  }

  /** Only the weights of eligible items matter to a scan. */
  lemma {:induction false} FindIgnoresOthers(flags: seq<bool>, w: seq<nat>, w': seq<nat>, budget: nat, lo: nat, i: nat, tokens: nat)
    requires |flags| == |w| == |w'| && lo <= i <= |w|
    requires forall k | 0 <= k < |w| && flags[k] :: w[k] == w'[k]
    ensures Find(flags, w, budget, lo, i, tokens) == Find(flags, w', budget, lo, i, tokens)
    decreases |w| - i
  {
    if i < |w| {
      if !flags[i] {
        if lo == i { FindIgnoresOthers(flags, w, w', budget, i + 1, i + 1, 0); }
      } else if tokens + w[i] < budget {
        FindIgnoresOthers(flags, w, w', budget, lo, i + 1, tokens + w[i]);
      }
    }
  }

  /** The settings of an explicit manual compaction. */
  ghost predicate ManualConfig(config: Config) {
    && config.freshTailCount == FRESH_TAIL_COUNT
    && config.LeafChunkTokens() == SUMMARY_CHUNK_TOKENS
    && config.leafMinFanout == LEAF_MIN_FANOUT
    && config.condensedMinFanout == CONDENSED_MIN_FANOUT
    && config.condensedTargetTokens <= MIN_CONDENSED_TOKENS
  }

  lemma SameRun(db: Database, items: seq<ContextItem>, depth: nat)
    ensures RunAt(RowsOf(db, items), depth)
         == Find(DepthFlags(db, items, depth), Weights(db, items), SUMMARY_CHUNK_TOKENS, 0, 0, 0)
  {
    var rows := RowsOf(db, items);
    assert RowFlags(rows, depth) == DepthFlags(db, items, depth);
    FindIgnoresOthers(RowFlags(rows, depth), RowWeights(rows), Weights(db, items), SUMMARY_CHUNK_TOKENS, 0, 0, 0);
  }

  /** Discovery offers a conversation exactly when the engine's own selection, run with
      the manual settings and no hard trigger, finds a candidate. */
  lemma ReplayAgreesWithEngine(db: Store, config: Config)
    requires ManualConfig(config)
    ensures (exists d: nat :: CandidateDepth(RowsOf(db, db.context), d))
       <==> !NoCandidate(db, Outside(db, config.freshTailCount), config, false)
  {
    forall d: nat
      ensures CandidateDepth(RowsOf(db, db.context), d)
         <==> Eligible(db, Outside(db, config.freshTailCount), config, d, false)
    {
      DepthAgrees(db, config, d);
    }
  }

  lemma SameWorth(config: Config, depth: nat, r: Found)
    requires ManualConfig(config)
    ensures WorthReplay(depth, r.hi - r.lo, r.tokens) <==> Worthwhile(config, depth, false, r)
  {}

  lemma RowsAgree(db: Store, d: nat)
    ensures
      var outside := Outside(db, FRESH_TAIL_COUNT);
      var r := RunAt(RowsOf(db, outside), d);
      && Unprotected(RowsOf(db, db.context), TailOrdinal(RowsOf(db, db.context))) == RowsOf(db, outside)
      && IsDepthChunk(db, outside, d, SUMMARY_CHUNK_TOKENS, r)
  {
    Aspects(db);
    var outside := Outside(db, FRESH_TAIL_COUNT);
    ProtectedByOrdinal(db.context, FRESH_TAIL_COUNT);
    SameOrdinals(db, db.context);
    SameOutside(db, db.context, FreshTailOrdinal(db.context, FRESH_TAIL_COUNT), |outside|);
    SameRun(db, outside, d);
    FindsDepthChunk(db, outside, d, SUMMARY_CHUNK_TOKENS, RunAt(RowsOf(db, outside), d));
  }

  lemma DepthAgrees(db: Store, config: Config, d: nat)
    requires ManualConfig(config)
    ensures CandidateDepth(RowsOf(db, db.context), d)
       <==> Eligible(db, Outside(db, config.freshTailCount), config, d, false)
  {
    var outside := Outside(db, FRESH_TAIL_COUNT);
    RowsAgree(db, d);
    var r := RunAt(RowsOf(db, outside), d);
    SameWorth(config, d, r);
    EligibleIff(db, outside, config, d, false, r);
  }
}
