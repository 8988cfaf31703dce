/** Messages that arrive while a pass waits for its summary: the chunk was chosen before
    them, and the transaction commits after them (src/compaction.ts, lines 1193-1282 and
    1290-1417). */
module CompactionArrivals {
  import opened Options
  import opened CompactionStore
  import opened CompactionPass
  import opened FreshTail
  import opened CompactionRuns
  import opened CompactionHistory
  import opened Sequences
  import opened CompactionSummary

  lemma {:induction false} NthMessageOfSnoc(refs: seq<Ref>, r: Ref, k: nat)
    requires r.MessageRef? && k <= MessageCount(refs)
    ensures MessageCount(refs + [r]) == MessageCount(refs) + 1
    ensures NthMessage(refs + [r], k) == if k < MessageCount(refs) then NthMessage(refs, k) else |refs|
    decreases |refs|
  {
    if refs != [] {
      assert (refs + [r])[0] == refs[0] && (refs + [r])[1..] == refs[1..] + [r];
      if !(refs[0].MessageRef? && k == 0) {
        NthMessageOfSnoc(refs[1..], r, if refs[0].MessageRef? then k - 1 else k);
      }
      MessageCountConcat(refs, [r]);
    }
  }

  lemma {:induction false} NthMessageMonotone(refs: seq<Ref>, j: nat, k: nat)
    requires j <= k < MessageCount(refs)
    ensures NthMessage(refs, j) <= NthMessage(refs, k)
    decreases |refs|
  {
    if !(refs[0].MessageRef? && j == 0) {
      var d := if refs[0].MessageRef? then 1 else 0;
      NthMessageMonotone(refs[1..], j - d, k - d);
    }
  }

  /** The fresh tail never starts earlier after one more message. */
  lemma TailStartAdvances(refs: seq<Ref>, r: Ref, count: int)
    requires r.MessageRef?
    ensures TailStart(refs, count) <= TailStart(refs + [r], count)
  {
    var n := MessageCount(refs);
    var k := if n + 1 - count > 0 then n + 1 - count else 0;
    NthMessageOfSnoc(refs, r, 0);
    if count > 0 && n > 0 {
      var j := if n - count > 0 then n - count else 0;
      NthMessageOfSnoc(refs, r, k);
      if k < n { NthMessageMonotone(refs, j, k); }
    }
  }

  /** Only messages arrived between the two stores. */
  ghost predicate Arrived(a: Store, events: seq<Event>, b: Store, count: int) {
    Happened(a, events, b, count) && forall e <- events :: e.Arrived?
  }

  /** What arrivals leave as it was. */
  ghost predicate Undisturbed(a: Store, b: Store, count: int) {
    && Extends(a, b) && b.summaries == a.summaries
    && |a.context| <= |b.context| && b.context[..|a.context|] == a.context
    && TailStart(Refs(a.context), count) <= TailStart(Refs(b.context), count)
  }

  lemma ArrivalUndisturbed(a: Store, mid: Store, id: MessageId, m: Message, count: int)
    requires Undisturbed(a, mid, count) && id !in mid.messages
    requires Valid(Ingest(mid, id, m))
    ensures Undisturbed(a, Ingest(mid, id, m), count)
  {
    var b := Ingest(mid, id, m);
    Aspects(mid);
    IngestExtends(mid, id, m);
    ExtendsTransitive(a, mid, b);
    assert Refs(b.context) == Refs(mid.context) + [MessageRef(id)];
    TailStartAdvances(Refs(mid.context), MessageRef(id), count);
    assert b.context[..|a.context|] == mid.context[..|a.context|];
  }

  lemma {:induction false} ArrivalsUndisturbed(a: Store, events: seq<Event>, b: Store, count: int)
    requires Arrived(a, events, b, count)
    ensures Undisturbed(a, b, count)
    decreases |events|
  {
    if events != [] {
      var init, last := events[..|events| - 1], events[|events| - 1];
      var mid: Store :| Happened(a, init, mid, count) && Follows(mid, last, b, count);
      ArrivalsUndisturbed(a, init, mid, count);
      ArrivalUndisturbed(a, mid, last.id, last.message, count);
    }
  }

  lemma ChunkUndisturbed(a: Store, b: Store, refs: seq<Ref>, depth: nat, s: Summary)
    requires Extends(a, b) && IsChunk(a, refs, depth) && Describes(a, s, refs, depth)
    ensures IsChunk(b, refs, depth) && Describes(b, s, refs, depth)
  {
    Aspects(a);
    Aspects(b);
    forall r <- refs ensures Fits(b, depth, r) { StillFits(a, b, depth, r); }
    ExtendsExpandAll(a, b, refs);
    ContextStored(a, refs);
    ExtendsTokens(a, b, ExpandAll(a, refs));
    ExtendsNodeTokens(a, b, NodesAll(a, refs));
  }

  lemma SameItems(a: seq<ContextItem>, b: seq<ContextItem>, lo: nat, hi: nat)
    requires |a| <= |b| && b[..|a|] == a && lo < hi <= |a|
    ensures Refs(b)[lo..hi] == Refs(a)[lo..hi] && b[lo] == a[lo] && b[hi - 1] == a[hi - 1]
  {
    forall i | 0 <= i < |a| ensures b[i] == a[i] { assert b[..|a|][i] == b[i]; }
  }

  /** A chunk selected and summarised in store a still commits, by the ordinals it had
      there, as a whole pass over the same items of store b, whatever arrived meanwhile. */
  lemma CommitAfterArrivals(a: Store, events: seq<Event>, b: Store, count: int,
                            lo: nat, hi: nat, depth: nat, id: SummaryId, s: Summary, w: Writing) returns (pass: Pass)
    requires Arrived(a, events, b, count) && id !in a.summaries
    requires lo < hi <= TailStart(Refs(a.context), count)
    requires IsChunk(a, Refs(a.context)[lo..hi], depth) && Describes(a, s, Refs(a.context)[lo..hi], depth)
    requires Writes(a, Refs(a.context)[lo..hi], w, id, s)
    ensures pass.PassRecord? && pass.before == b && pass.lo == lo && pass.hi == hi && pass.depth == depth
    ensures pass.id == id && pass.summary == s && pass.count == count && pass.writing == w
    ensures
      var refs := Refs(a.context)[lo..hi];
      Commit(b, id, s, MessageIds(refs), SummaryIds(refs), a.context[lo].ordinal, a.context[hi - 1].ordinal)
      == Some(pass.after)
    ensures Conversation(pass.after) == Conversation(a) + Arrivals(events)
  {
    ArrivalsUndisturbed(a, events, b, count);
    var refs := Refs(a.context)[lo..hi];
    SameItems(a.context, b.context, lo, hi);
    ChunkUndisturbed(a, b, refs, depth, s);
    forall r <- refs ensures Content(a, r) == Content(b, r) { assert Fits(a, depth, r); }
    SameSources(a, b, refs, w, id, s);
    Aspects(b);
    CommitReplacesChunk(b, lo, hi, depth, id, s);
    Duties(b, refs, depth, id, s, w);
    var start, end := a.context[lo].ordinal, a.context[hi - 1].ordinal;
    pass := RangeCommits(b, lo, hi, start, end, refs, depth, id, s, w,
                         Commit(b, id, s, MessageIds(refs), SummaryIds(refs), start, end), count);
    PassKeeps(pass);
    HistoryIsLossless(a, events, b, count);
  }
}
