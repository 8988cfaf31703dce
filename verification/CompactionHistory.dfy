/** Whole histories of a conversation: messages arrive, compaction passes run in
    between, in any order and number (src/compaction.ts with appendContextMessage,
    src/store/summary-store.ts, lines 601-617). */
module CompactionHistory {
  import opened CompactionStore
  import opened CompactionPass
  import opened CompactionChoice
  import opened CompactionRuns
  import opened CompactionTotals

  function NextOrdinal(items: seq<ContextItem>): nat {
    if items == [] then 0 else items[|items| - 1].ordinal + 1
  }

  /** A new message is stored and appended to the context. */
  function Ingest(db: Database, id: MessageId, m: Message): Database {
    db.(messages := db.messages[id := m],
        context := db.context + [ContextItem(NextOrdinal(db.context), MessageRef(id))])
  }

  lemma IngestExtends(db: Database, id: MessageId, m: Message)
    requires Stratified(db) && id !in db.messages
    ensures Extends(db, Ingest(db, id, m)) && Stratified(Ingest(db, id, m))
  {
    var db' := Ingest(db, id, m);
    forall x <- db'.summaries ensures SourcesFit(db', x) {
      PriorSourcesFit(db, db', x);
    }
  }

  lemma IngestKeepsCounts(db: Store, id: MessageId, m: Message, x: SummaryId)
    requires id !in db.messages && x in db.summaries
    ensures Stratified(Ingest(db, id, m)) && CountsAreTrue(Ingest(db, id, m), x)
  {
    Aspects(db);
    var db', sources := Ingest(db, id, m), Sources(db, x);
    IngestExtends(db, id, m);
    SourcesResolve(db, x);
    ExtendsExpandAll(db, db', sources);
    ContextStored(db, sources);
    ExtendsTokens(db, db', ExpandAll(db, sources));
    ExtendsNodeTokens(db, db', NodesAll(db, sources));
    assert CountsAreTrue(db, x);
  }

  lemma IngestContext(db: Store, id: MessageId, m: Message)
    requires id !in db.messages
    ensures
      var db' := Ingest(db, id, m);
      && Stratified(db) && AllResolve(db, Refs(db.context))
      && Stratified(db') && AllResolve(db', Refs(db'.context))
      && ExpandAll(db', Refs(db'.context)) == Conversation(db) + [id]
      && NodesAll(db', Refs(db'.context)) == NodesAll(db, Refs(db.context))
  {
    Aspects(db);
    var db', refs := Ingest(db, id, m), Refs(db.context);
    IngestExtends(db, id, m);
    ExtendsExpandAll(db, db', refs);
    assert Refs(db'.context) == refs + [MessageRef(id)];
    ExpandAllSingle(db', MessageRef(id));
    ExpandAllConcat(db', refs, [MessageRef(id)]);
  }

  /** Appending a message keeps the invariant and appends it to the conversation. */
  lemma IngestKeepsValid(db: Store, id: MessageId, m: Message)
    requires id !in db.messages
    ensures Valid(Ingest(db, id, m)) && Conversation(Ingest(db, id, m)) == Conversation(db) + [id]
  {
    Aspects(db);
    var db' := Ingest(db, id, m);
    IngestContext(db, id, m);
    forall x <- db'.summaries ensures CountsAreTrue(db', x) { IngestKeepsCounts(db, id, m, x); }
    ContextStored(db, Refs(db.context));
    DistinctSnoc(Conversation(db), id);
    Aspects(db');
  }

  lemma DistinctSnoc<T>(s: seq<T>, x: T)
    requires Distinct(s) && x !in s
    ensures Distinct(s + [x])
  {}

  // ---- histories -------------------------------------------------------------------

  datatype Event = Arrived(id: MessageId, message: Message) | Compacted(run: seq<PassRecord>)

  ghost predicate Happened(a: Store, events: seq<Event>, b: Store, count: int) {
    if events == [] then a == b
    else
      var init, last := events[..|events| - 1], events[|events| - 1];
      exists mid: Store :: Happened(a, init, mid, count) && Follows(mid, last, b, count)
  }

  ghost predicate Follows(mid: Store, e: Event, b: Store, count: int) {
    match e
    case Arrived(id, m) => id !in mid.messages && b == Ingest(mid, id, m)
    case Compacted(run) => Leads(mid, run, b, count)
  }

  function Arrivals(events: seq<Event>): seq<MessageId> {
    if events == [] then []
    else
      var last := events[|events| - 1];
      Arrivals(events[..|events| - 1]) + if last.Arrived? then [last.id] else []
  }

  /** Nothing is lost, duplicated or reordered: whatever was compacted in between, the
      context always expands to the first conversation followed by every arrival. */
  lemma {:induction false} HistoryIsLossless(a: Store, events: seq<Event>, b: Store, count: int)
    requires Happened(a, events, b, count)
    ensures Conversation(b) == Conversation(a) + Arrivals(events)
    ensures Distinct(Conversation(b))
    decreases |events|
  {
    Aspects(b);
    if events == [] {
      assert Conversation(a) + [] == Conversation(a);
    } else {
      var init, last := events[..|events| - 1], events[|events| - 1];
      var mid: Store :| Happened(a, init, mid, count) && Follows(mid, last, b, count);
      HistoryIsLossless(a, init, mid, count);
      match last
      case Arrived(id, m) => IngestKeepsValid(mid, id, m);
      case Compacted(run) => RunKeeps(mid, run, b, count);
    }
  }

  /** The source tokens of the context: raw messages by themselves, summaries by their counter. */
  ghost function ContextSourceTokens(db: Database, refs: seq<Ref>): nat {
    if refs == [] then 0
    else
      (match refs[0]
       case MessageRef(m) => Weight(db, refs[0])
       case SummaryRef(s) => if s in db.summaries then db.summaries[s].sourceMessageTokenCount else 0)
      + ContextSourceTokens(db, refs[1..])
  }

  lemma {:induction false} SourceTokensOfContext(db: Database, refs: seq<Ref>)
    requires Stratified(db) && AllResolve(db, refs) && forall id <- db.summaries :: CountsAreTrue(db, id)
    ensures ContextSourceTokens(db, refs) == SourceTokens(db, ExpandAll(db, refs))
    decreases |refs|
  {
    if refs != [] {
      var r := refs[0];
      assert r in refs;
      SourceTokensOfContext(db, refs[1..]);
      TokensConcat(db, Expand(db, r), ExpandAll(db, refs[1..]));
      if r.SummaryRef? {
        assert CountsAreTrue(db, r.summaryId);
        NodeTotals(db, r.summaryId);
      } else {
        assert [r.messageId][1..] == [];
        assert SourceTokens(db, [r.messageId]) == Weight(db, r);
      }
    }
  }

  /** Compaction conserves the source tokens accounted for by the context. */
  lemma RunConservesSourceTokens(a: Store, run: seq<PassRecord>, b: Store, count: int)
    requires Leads(a, run, b, count)
    ensures ContextSourceTokens(b, Refs(b.context)) == ContextSourceTokens(a, Refs(a.context))
  {
    RunKeeps(a, run, b, count);
    Aspects(a);
    Aspects(b);
    SourceTokensOfContext(a, Refs(a.context));
    SourceTokensOfContext(b, Refs(b.context));
    ContextStored(a, Refs(a.context));
    ExtendsTokens(a, b, Conversation(a));
  }
}
