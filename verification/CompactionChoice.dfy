/** What the compaction engine may choose (src/compaction.ts, lines 705-846 and 965-1085):
    the oldest chunk of messages or of summaries at one depth outside the fresh tail. */
module CompactionChoice {
  import opened Options
  import opened CompactionStore
  import opened FreshTail
  import opened OldestRun
  import opened Sequences

  /** Settings; a value that is not positive stands for a missing or unusable one. */
  datatype Config = Config(
    freshTailCount: int,
    leafChunkTokens: int,
    leafMinFanout: int,
    condensedMinFanout: int,
    condensedMinFanoutHard: int,
    incrementalMaxDepth: int,
    condensedTargetTokens: int,
    maxRounds: int)
  {
    function LeafChunkTokens(): nat { if leafChunkTokens > 0 then leafChunkTokens else 20_000 }

    function Fanout(depth: nat, hard: bool): (r: nat)
      ensures r > 0
    {
      if hard then (if condensedMinFanoutHard > 0 then condensedMinFanoutHard else 2)
      else if depth == 0 then (if leafMinFanout > 0 then leafMinFanout else 8)
      else (if condensedMinFanout > 0 then condensedMinFanout else 4)
    }

    function MinCondensedTokens(): int {
      if condensedTargetTokens > LeafChunkTokens() / 10 then condensedTargetTokens else LeafChunkTokens() / 10
    }
  }

  // ---- what the selectors look at ---------------------------------------------

  function MessageFlags(items: seq<ContextItem>): (r: seq<bool>)
    ensures |r| == |items| && forall i | 0 <= i < |r| :: r[i] == items[i].ref.MessageRef?
  {
    seq(|items|, i requires 0 <= i < |items| => items[i].ref.MessageRef?)
  }

  predicate AtDepth(db: Database, ref: Ref, depth: nat) {
    ref.SummaryRef? && ref.summaryId in db.summaries && db.summaries[ref.summaryId].depth == depth
  }

  function DepthFlags(db: Database, items: seq<ContextItem>, depth: nat): (r: seq<bool>)
    ensures |r| == |items| && forall i | 0 <= i < |r| :: r[i] == AtDepth(db, items[i].ref, depth)
  {
    seq(|items|, i requires 0 <= i < |items| => AtDepth(db, items[i].ref, depth))
  }

  /** The token count a selector charges for an item. */
  function Weight(db: Database, ref: Ref): nat {
    match ref
    case MessageRef(m) => if m in db.messages then MessageTokens(db.messages[m]) else 0
    case SummaryRef(s) => if s in db.summaries then SummaryTokens(db.summaries[s]) else 0
  }

  function Weights(db: Database, items: seq<ContextItem>): (r: seq<nat>)
    ensures |r| == |items| && forall i | 0 <= i < |r| :: r[i] == Weight(db, items[i].ref)
  {
    seq(|items|, i requires 0 <= i < |items| => Weight(db, items[i].ref))
  }

  /** The items a pass may touch. */
  function Outside(db: Database, count: int): seq<ContextItem> {
    db.context[..TailStart(Refs(db.context), count)]
  }

  function RawTokens(db: Database, items: seq<ContextItem>): nat {
    if items == [] then 0
    else
      var last := items[|items| - 1];
      RawTokens(db, items[..|items| - 1]) + if last.ref.MessageRef? then Weight(db, last.ref) else 0
  }

  predicate Protected(tail: Option<nat>, item: ContextItem) {
    tail.Some? && item.ordinal >= tail.value
  }

  /** items[lo..hi] is the oldest run of raw messages within the budget. */
  ghost predicate IsLeafChunk(db: Database, items: seq<ContextItem>, budget: nat, r: Found) {
    match r
    case Found(lo, hi, _) => IsOldestRun(MessageFlags(items), Weights(db, items), budget, lo, hi)
  }

  /** The oldest run of summaries at one depth, with its tokens. */
  ghost predicate IsDepthChunk(db: Database, items: seq<ContextItem>, depth: nat, budget: nat, r: Found) {
    match r
    case Found(lo, hi, tokens) =>
      && IsOldestRun(DepthFlags(db, items, depth), Weights(db, items), budget, lo, hi)
      && tokens == Sum(Weights(db, items), lo, hi)
  }

  lemma FindsLeafChunk(db: Database, items: seq<ContextItem>, budget: nat, r: Found)
    requires r == Find(MessageFlags(items), Weights(db, items), budget, 0, 0, 0)
    ensures IsLeafChunk(db, items, budget, r)
  {
    FindsOldestRun(MessageFlags(items), Weights(db, items), budget, 0, 0, 0);
  }

  lemma FindsDepthChunk(db: Database, items: seq<ContextItem>, depth: nat, budget: nat, r: Found)
    requires r == Find(DepthFlags(db, items, depth), Weights(db, items), budget, 0, 0, 0)
    ensures IsDepthChunk(db, items, depth, budget, r)
  {
    FindsOldestRun(DepthFlags(db, items, depth), Weights(db, items), budget, 0, 0, 0);
  }

  /** The items of the oldest run, with or without any. */
  function LeafChunk(db: Database, items: seq<ContextItem>, budget: nat): seq<ContextItem> {
    var r := Find(MessageFlags(items), Weights(db, items), budget, 0, 0, 0);
    FindsLeafChunk(db, items, budget, r);
    items[r.lo..r.hi]
  }

  function DepthChunk(db: Database, items: seq<ContextItem>, depth: nat, budget: nat): seq<ContextItem> {
    var r := Find(DepthFlags(db, items, depth), Weights(db, items), budget, 0, 0, 0);
    FindsDepthChunk(db, items, depth, budget, r);
    items[r.lo..r.hi]
  }

  // ---- condensation candidates ----------------------------------------------------

  /** The depths present among the items, ascending and without repetition. */
  function DepthsBelow(db: Database, items: seq<ContextItem>, limit: nat): (r: seq<nat>)
    ensures forall d: nat :: d in r <==> d < limit && Present(db, items, d)
    ensures forall i, j | 0 <= i < j < |r| :: r[i] < r[j]
  {
    if limit == 0 then []
    else
      var shallower := DepthsBelow(db, items, limit - 1);
      assert forall i | 0 <= i < |shallower| :: shallower[i] in shallower;
      shallower + if Present(db, items, limit - 1) then [limit - 1] else []
  }

  predicate Present(db: Database, items: seq<ContextItem>, depth: nat) {
    exists i | 0 <= i < |items| :: AtDepth(db, items[i].ref, depth)
  }

  function DepthLimit(db: Database, items: seq<ContextItem>): (l: nat)
    ensures forall d: nat | Present(db, items, d) :: d < l
  {
    if items == [] then 0
    else
      var rest := DepthLimit(db, items[1..]);
      var r := items[0].ref;
      var own := if r.SummaryRef? && r.summaryId in db.summaries then db.summaries[r.summaryId].depth + 1 else 0;
      assert forall d: nat | Present(db, items, d) :: AtDepth(db, r, d) || Present(db, items[1..], d) by {
        forall d: nat | Present(db, items, d) ensures AtDepth(db, r, d) || Present(db, items[1..], d) {
          var i :| 0 <= i < |items| && AtDepth(db, items[i].ref, d);
          if i > 0 { assert items[1..][i - 1] == items[i]; }
        }
      }
      if own > rest then own else rest
  }

  /** The oldest run at a depth is wide enough and worth condensing. */
  ghost predicate Eligible(db: Database, items: seq<ContextItem>, config: Config, depth: nat, hard: bool) {
    exists r :: IsDepthChunk(db, items, depth, config.LeafChunkTokens(), r) && Worthwhile(config, depth, hard, r)
  }

  ghost predicate NoCandidate(db: Database, items: seq<ContextItem>, config: Config, hard: bool) {
    forall d: nat :: !Eligible(db, items, config, d, hard)
  }

  predicate Worthwhile(config: Config, depth: nat, hard: bool, r: Found) {
    r.hi - r.lo >= config.Fanout(depth, hard) && r.tokens >= config.MinCondensedTokens()
  }

  lemma DepthChunkUnique(db: Database, items: seq<ContextItem>, depth: nat, budget: nat, r: Found, r': Found)
    requires IsDepthChunk(db, items, depth, budget, r) && IsDepthChunk(db, items, depth, budget, r')
    ensures r == r'
  {
    OldestRunUnique(DepthFlags(db, items, depth), Weights(db, items), budget, r.lo, r.hi, r'.lo, r'.hi);
  }

  lemma NotEligible(db: Database, items: seq<ContextItem>, config: Config, depth: nat, hard: bool, r: Found)
    requires IsDepthChunk(db, items, depth, config.LeafChunkTokens(), r) && !Worthwhile(config, depth, hard, r)
    ensures !Eligible(db, items, config, depth, hard)
  {
    if Eligible(db, items, config, depth, hard) {
      var r' :| IsDepthChunk(db, items, depth, config.LeafChunkTokens(), r') && Worthwhile(config, depth, hard, r');
      DepthChunkUnique(db, items, depth, config.LeafChunkTokens(), r, r');
    }
  }

  /** A depth is eligible exactly when its oldest run is worth a pass. */
  lemma {:induction false} EligibleIff(db: Database, items: seq<ContextItem>, config: Config, depth: nat, hard: bool, r: Found)
    requires IsDepthChunk(db, items, depth, config.LeafChunkTokens(), r)
    ensures Eligible(db, items, config, depth, hard) <==> Worthwhile(config, depth, hard, r)
  {
    if !Worthwhile(config, depth, hard, r) { NotEligible(db, items, config, depth, hard, r); }
  }

  lemma AbsentNotEligible(db: Database, items: seq<ContextItem>, config: Config, depth: nat, hard: bool)
    requires !Present(db, items, depth)
    ensures !Eligible(db, items, config, depth, hard)
  {
    var n := |items|;
    assert IsDepthChunk(db, items, depth, config.LeafChunkTokens(), Found(n, n, 0));
    NotEligible(db, items, config, depth, hard, Found(n, n, 0));
  }

  /** The gate of a sweep: forced, over the threshold, or a full raw chunk outside the tail. */
  predicate NeedsSweep(db: Database, config: Config, threshold: int, force: bool) {
    || force
    || Tokens(db) > threshold
    || RawTokens(db, Outside(db, config.freshTailCount)) >= config.LeafChunkTokens()
  }

  ghost predicate NoRawItems(items: seq<ContextItem>) {
    forall item <- items :: item.ref.SummaryRef?
  }

  function Tokens(db: Database): nat {
    ContextTokens(db, db.context)
  }

  lemma LeafChunkItems(db: Database, items: seq<ContextItem>, budget: nat, r: Found)
    requires IsLeafChunk(db, items, budget, r)
    ensures r.lo <= r.hi <= |items| && forall item <- items[r.lo..r.hi] :: item.ref.MessageRef?
    ensures r.lo == r.hi ==> NoRawItems(items)
  {
    if r.lo == r.hi {
      forall item <- items ensures item.ref.SummaryRef? {
        var k :| 0 <= k < |items| && items[k] == item;
        assert !MessageFlags(items)[k];
      }
    }
    forall item <- items[r.lo..r.hi] ensures item.ref.MessageRef? {
      var k :| r.lo <= k < r.hi && items[k] == item;
      assert MessageFlags(items)[k];
    }
  }

  lemma {:induction false} PrefixLeafItems(db: Database, items: seq<ContextItem>, end: nat, budget: nat, r: Found,
                                           chunk: seq<ContextItem>)
    requires end <= |items| && IsLeafChunk(db, items[..end], budget, r)
    requires r.lo <= r.hi <= end && chunk == items[r.lo..r.hi]
    ensures forall item <- chunk :: item.ref.MessageRef?
    ensures chunk == [] ==> NoRawItems(items[..end])
  {
    LeafChunkItems(db, items[..end], budget, r);
    PrefixSlice(items, end, r.lo, r.hi);
  }

  lemma {:induction false} PrefixChunkItems(db: Database, items: seq<ContextItem>, end: nat, depth: nat, budget: nat,
                                            r: Found, chunk: seq<ContextItem>)
    requires end <= |items| && IsDepthChunk(db, items[..end], depth, budget, r)
    requires r.lo <= r.hi <= end && chunk == items[r.lo..r.hi]
    ensures forall item <- chunk :: AtDepth(db, item.ref, depth)
  {
    DepthChunkItems(db, items[..end], depth, budget, r);
    PrefixSlice(items, end, r.lo, r.hi);
  }

  lemma DepthChunkItems(db: Database, items: seq<ContextItem>, depth: nat, budget: nat, r: Found)
    requires IsDepthChunk(db, items, depth, budget, r)
    ensures r.lo <= r.hi <= |items| && forall item <- items[r.lo..r.hi] :: AtDepth(db, item.ref, depth)
  {
    forall item <- items[r.lo..r.hi] ensures AtDepth(db, item.ref, depth) {
      var k :| r.lo <= k < r.hi && items[k] == item;
      assert DepthFlags(db, items, depth)[k];
    }
  }

  /** No depth before the given one is eligible. */
  ghost predicate ShallowestFrom(db: Database, items: seq<ContextItem>, config: Config, hard: bool, depth: nat) {
    forall d: nat | d < depth :: !Eligible(db, items, config, d, hard)
  }

  ghost predicate NoneBefore(db: Database, items: seq<ContextItem>, config: Config, hard: bool, depths: seq<nat>, i: nat) {
    i <= |depths| && forall k | 0 <= k < i :: !Eligible(db, items, config, depths[k], hard)
  }

  lemma NoneBeforeNext(db: Database, items: seq<ContextItem>, config: Config, hard: bool, depths: seq<nat>, i: nat)
    requires NoneBefore(db, items, config, hard, depths, i) && i < |depths|
    requires !Eligible(db, items, config, depths[i], hard)
    ensures NoneBefore(db, items, config, hard, depths, i + 1)
  {}

  lemma ShallowerNotEligible(db: Database, items: seq<ContextItem>, config: Config, hard: bool, depths: seq<nat>, i: nat)
    requires depths == DepthsBelow(db, items, DepthLimit(db, items))
    requires NoneBefore(db, items, config, hard, depths, i)
    ensures i < |depths| ==> ShallowestFrom(db, items, config, hard, depths[i])
    ensures i == |depths| ==> NoCandidate(db, items, config, hard)
  {
    forall d: nat | i == |depths| || d < depths[i] ensures !Eligible(db, items, config, d, hard) {
      if d in depths {
        var k :| 0 <= k < |depths| && depths[k] == d;
        assert k < i;
      } else {
        AbsentNotEligible(db, items, config, d, hard);
      }
    }
  }
}
