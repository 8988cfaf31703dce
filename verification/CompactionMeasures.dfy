/** What the engine measures: its settings, the tokens it counts, and what a pass changes of
    them (src/compaction.ts, lines 705-980). */
module CompactionMeasures {
  import opened CompactionStore
  import opened CompactionPass
  import opened CompactionChoice
  import opened CompactionRuns
  import opened Sequences

  // ---- settings ------------------------------------------------------------------------

  /** A condensed pass needs the configured target and a tenth of a leaf chunk, rounded down. */
  lemma CondensedMinimum(config: Config)
    ensures
      var minimum, chunk := config.MinCondensedTokens(), if config.leafChunkTokens > 0 then config.leafChunkTokens else 20_000;
      minimum >= config.condensedTargetTokens && 10 * minimum > chunk - 10
      && (minimum == config.condensedTargetTokens || 10 * minimum <= chunk)
  {
  }

  /** Settings that are not usable are 20,000 tokens and fanouts of 8, 4 and, forced, 2; a
      usable one counts as it is. */
  lemma FanoutsAre(config: Config, depth: nat)
    ensures config.Fanout(depth, true) in {2, config.condensedMinFanoutHard}
    ensures config.Fanout(0, false) in {8, config.leafMinFanout}
    ensures config.Fanout(depth + 1, false) in {4, config.condensedMinFanout}
    ensures config.condensedMinFanoutHard > 0 ==> config.Fanout(depth, true) == config.condensedMinFanoutHard
    ensures config.leafMinFanout > 0 ==> config.Fanout(0, false) == config.leafMinFanout
    ensures config.condensedMinFanout > 0 ==> config.Fanout(depth + 1, false) == config.condensedMinFanout
  {
  }

  // ---- tokens -----------------------------------------------------------------------------

  /** A quarter of the characters, rounded up; a message's own count goes before it. */
  lemma MessageTokensAre(m: Message)
    ensures
      var tokens := MessageTokens(m);
      if m.tokenCount > 0 then tokens == m.tokenCount else 4 * tokens - 4 < |m.content| <= 4 * tokens
  {
  }

  lemma {:induction false} TokensOfLast(db: Database, ids: seq<MessageId>, id: MessageId)
    requires id in db.messages
    ensures SourceTokens(db, ids + [id]) == SourceTokens(db, ids) + MessageTokens(db.messages[id])
  {
    TokensConcat(db, ids, [id]);
    assert [id][1..] == [];
  }

  lemma {:induction false} IdsOfLast(refs: seq<Ref>, r: Ref)
    ensures MessageIds(refs + [r]) == MessageIds(refs) + IdOf(r)
    decreases |refs|
  {
    if refs == [] {
      assert ([] + [r])[1..] == [] && refs + [r] == [r];
    } else {
      var all := refs + [r];
      assert all[1..] == refs[1..] + [r] && all[0] == refs[0];
      IdsOfLast(refs[1..], r);
      assert MessageIds(all) == IdOf(all[0]) + MessageIds(all[1..]);
    }
  }

  function IdOf(r: Ref): seq<MessageId> {
    match r
    case MessageRef(m) => [m]
    case SummaryRef(_) => []
  }

  /** The raw tokens of items are the tokens of the messages among them. */
  lemma {:induction false} RawTokensAre(db: Database, items: seq<ContextItem>)
    requires AllResolve(db, Refs(items))
    ensures RawTokens(db, items) == SourceTokens(db, MessageIds(Refs(items)))
    decreases |items|
  {
    if items != [] {
      var init, last := Init(items), Last(items);
      assert Refs(items) == Refs(init) + [last.ref];
      assert Resolves(db, last.ref);
      RawTokensAre(db, init);
      IdsOfLast(Refs(init), last.ref);
      if last.ref.MessageRef? {
        TokensOfLast(db, MessageIds(Refs(init)), last.ref.messageId);
        assert MessageIds(Refs(items)) == MessageIds(Refs(init)) + [last.ref.messageId];
        assert RawTokens(db, items) == RawTokens(db, init) + Weight(db, last.ref);
      } else {
        assert MessageIds(Refs(items)) == MessageIds(Refs(init));
      }
    }
  }

  /** A sweep is needed when it is forced, when the stored tokens exceed the threshold, or when
      the messages outside the fresh tail fill a leaf chunk. */
  lemma {:induction false} SweepIsNeeded(db: Store, config: Config, threshold: int, force: bool)
    ensures
      var outside := MessageIds(Refs(Outside(db, config.freshTailCount)));
      NeedsSweep(db, config, threshold, force)
      <==> force || ContextTokens(db, db.context) > threshold
           || SourceTokens(db, outside) >= if config.leafChunkTokens > 0 then config.leafChunkTokens else 20_000
  {
    Aspects(db);
    var outside := Outside(db, config.freshTailCount);
    forall r <- Refs(outside) ensures Resolves(db, r) { assert r in Refs(db.context); }
    RawTokensAre(db, outside);
  }

  // ---- what a pass changes --------------------------------------------------------------------

  /** The stored counts of references. */
  function CountOf(db: Database, refs: seq<Ref>): nat {
    if refs == [] then 0 else StoredTokens(db, refs[0]) + CountOf(db, refs[1..])
  }

  lemma {:induction false} CountOfContext(db: Database, items: seq<ContextItem>)
    ensures ContextTokens(db, items) == CountOf(db, Refs(items))
    decreases |items|
  {
    if items != [] {
      CountOfContext(db, items[1..]);
      assert Refs(items)[1..] == Refs(items[1..]);
    }
  }

  lemma {:induction false} CountOfConcat(db: Database, a: seq<Ref>, b: seq<Ref>)
    ensures CountOf(db, a + b) == CountOf(db, a) + CountOf(db, b)
    decreases |a|
  {
    if a == [] {
      assert a + b == b;
    } else {
      assert (a + b)[1..] == a[1..] + b;
      CountOfConcat(db, a[1..], b);
    }
  }

  lemma {:induction false} CountStays(db: Database, db': Database, refs: seq<Ref>)
    requires Extends(db, db') && AllResolve(db, refs)
    ensures CountOf(db', refs) == CountOf(db, refs)
    decreases |refs|
  {
    if refs != [] {
      assert Resolves(db, refs[0]);
      CountStays(db, db', refs[1..]);
    }
  }

  lemma {:induction false} CountOfParts(db: Database, pre: seq<Ref>, mid: seq<Ref>, post: seq<Ref>)
    ensures CountOf(db, pre + mid + post) == CountOf(db, pre) + CountOf(db, mid) + CountOf(db, post)
  {
    CountOfConcat(db, pre + mid, post);
    CountOfConcat(db, pre, mid);
  }

  lemma {:induction false} CountAround(db: Database, db': Database, pre: seq<Ref>, chunk: seq<Ref>, post: seq<Ref>, id: SummaryId)
    requires Extends(db, db') && AllResolve(db, pre) && AllResolve(db, post) && id in db'.summaries
    ensures CountOf(db', pre + [SummaryRef(id)] + post) + CountOf(db, chunk)
         == CountOf(db, pre + chunk + post) + db'.summaries[id].tokenCount
  {
    CountStays(db, db', pre);
    CountStays(db, db', post);
    CountOfParts(db, pre, chunk, post);
    CountOfParts(db', pre, [SummaryRef(id)], post);
    assert [SummaryRef(id)][1..] == [];
  }

  /** A pass takes the counts of its chunk from the stored tokens and adds that of its
      summary. */
  lemma {:induction false} PassChangesTokens(p: Pass)
    requires p.PassRecord?
    ensures p.lo <= p.hi <= |p.before.context|
    ensures Tokens(p.after) + CountOf(p.before, Refs(p.before.context)[p.lo..p.hi]) == Tokens(p.before) + p.summary.tokenCount
  {
    assert Shows(p, Change);
    Aspects(p.before);
    CommitKeepsStore(p.before, p.after, p.lo, p.hi, p.id, p.summary);
    var refs := Refs(p.before.context);
    var pre, chunk, post := refs[..p.lo], refs[p.lo..p.hi], refs[p.hi..];
    assert pre + chunk + post == refs;
    CountAround(p.before, p.after, pre, chunk, post, p.id);
    CountOfContext(p.before, p.before.context);
    CountOfContext(p.after, p.after.context);
  }

  /** So a pass lowers the stored tokens exactly when its summary counts less than its
      chunk. */
  lemma {:induction false} LowersIff(p: Pass)
    requires p.PassRecord?
    ensures p.lo <= p.hi <= |p.before.context|
    ensures Lowers(p) <==> p.summary.tokenCount < CountOf(p.before, Refs(p.before.context)[p.lo..p.hi])
  {
    PassChangesTokens(p);
  }
}
