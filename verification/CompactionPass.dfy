/** One durable compaction transaction -- insert a summary, link it to its
    sources, replace a context range by it -- and what it preserves
    (src/compaction.ts, lines 1265-1282 and 1400-1417; the store contract is
    src/store/summary-store.ts, lines 413-441 and 653-711). */
module CompactionPass {
  import opened CompactionStore
  import opened OrderedOutcomes
  import opened Options
  import opened Sequences

  // ---- the store's operations -----------------------------------------------

  function InsertSummary(db: Database, id: SummaryId, s: Summary): Option<Database> {
    if id in db.summaries then None else Some(db.(summaries := db.summaries[id := s]))
  }

  /** Links keep their order; a repeated link is ignored. */
  function LinkToMessages(db: Database, id: SummaryId, ids: seq<MessageId>): Database {
    if ids == [] then db
    else db.(messageLinks := db.messageLinks[id := Merge(if id in db.messageLinks then db.messageLinks[id] else [], ids)])
  }

  function LinkToParents(db: Database, id: SummaryId, ids: seq<SummaryId>): Database {
    if ids == [] then db
    else db.(parentLinks := db.parentLinks[id := Merge(if id in db.parentLinks then db.parentLinks[id] else [], ids)])
  }

  function Below(items: seq<ContextItem>, ordinal: nat): seq<Ref> {
    if items == [] then []
    else (if items[0].ordinal < ordinal then [items[0].ref] else []) + Below(items[1..], ordinal)
  }

  function Above(items: seq<ContextItem>, ordinal: nat): seq<Ref> {
    if items == [] then []
    else (if items[0].ordinal > ordinal then [items[0].ref] else []) + Above(items[1..], ordinal)
  }

  /** After a replacement all ordinals are renumbered from zero. */
  function Resequence(refs: seq<Ref>): (r: seq<ContextItem>)
    ensures Refs(r) == refs && Increasing(r)
  {
    seq(|refs|, i requires 0 <= i < |refs| => ContextItem(i, refs[i]))
  }

  function ReplaceRange(db: Database, start: nat, end: nat, id: SummaryId): Database {
    db.(context := Resequence(Below(db.context, start) + [SummaryRef(id)] + Above(db.context, end)))
  }

  /** The transaction; inserting an existing id fails it and rolls everything back. */
  function Commit(db: Database, id: SummaryId, s: Summary, messageIds: seq<MessageId>, parentIds: seq<SummaryId>,
                  start: nat, end: nat): Option<Database> {
    match InsertSummary(db, id, s)
    case None => None
    case Some(inserted) =>
      Some(ReplaceRange(LinkToParents(LinkToMessages(inserted, id, messageIds), id, parentIds), start, end, id))
  }

  // ---- the invariant -----------------------------------------------------------

  predicate Increasing(items: seq<ContextItem>) {
    forall i, j | 0 <= i < j < |items| :: items[i].ordinal < items[j].ordinal
  }

  /** The counters of a summary are the true totals of what lies below it. */
  ghost predicate CountsAreTrue(db: Database, id: SummaryId)
    requires Stratified(db) && id in db.summaries
  {
    SourcesResolve(db, id);
    var s, below := db.summaries[id], NodesAll(db, Sources(db, id));
    && s.descendantCount == |below|
    && s.descendantTokenCount == NodeTokens(db, below)
    && s.sourceMessageTokenCount == SourceTokens(db, ExpandAll(db, Sources(db, id)))
  }

  /** What the invariant is about: the keys of the links, the nodes below the summaries,
      the counters, the ordinals and what the context expands to. */
  datatype Aspect = LinkKeys | Strata | Counters | Positions | Expansion

  ghost predicate Holds(db: Database, aspect: Aspect) {
    match aspect
    case LinkKeys => db.messageLinks.Keys <= db.summaries.Keys && db.parentLinks.Keys <= db.summaries.Keys
    case Strata => Stratified(db)
    case Counters => Stratified(db) && forall id <- db.summaries :: CountsAreTrue(db, id)
    case Positions => Increasing(db.context)
    case Expansion =>
      && Stratified(db) && AllResolve(db, Refs(db.context))
      && Distinct(NodesAll(db, Refs(db.context)))
      && Distinct(ExpandAll(db, Refs(db.context)))
  }

  ghost predicate Valid(db: Database) {
    forall aspect :: Holds(db, aspect)
  }

  ghost predicate Coherent(db: Database) {
    && db.messageLinks.Keys <= db.summaries.Keys
    && db.parentLinks.Keys <= db.summaries.Keys
    && Stratified(db)
    && (forall id <- db.summaries :: CountsAreTrue(db, id))
    && Increasing(db.context)
    && AllResolve(db, Refs(db.context))
    && Distinct(NodesAll(db, Refs(db.context)))
    && Distinct(ExpandAll(db, Refs(db.context)))
  }

  /** The invariant spelled out. */
  lemma Aspects(db: Database)
    ensures Valid(db) <==> Coherent(db)
  {
    if Valid(db) {
      assert Holds(db, LinkKeys) && Holds(db, Strata) && Holds(db, Counters) && Holds(db, Positions) && Holds(db, Expansion);
    }
  }

  /** The conversation the context stands for. */
  ghost function Conversation(db: Database): seq<MessageId>
    requires Valid(db)
  {
    Aspects(db);
    ExpandAll(db, Refs(db.context))
  }

  // ---- context ranges ------------------------------------------------------------

  lemma {:induction false} BelowIsPrefix(items: seq<ContextItem>, lo: nat)
    requires Increasing(items) && lo < |items|
    ensures Below(items, items[lo].ordinal) == Refs(items[..lo])
    decreases |items|
  {
    if lo == 0 {
      BelowNone(items, items[0].ordinal);
    } else {
      BelowIsPrefix(items[1..], lo - 1);
      assert items[1..][lo - 1] == items[lo];
      assert Refs(items[..lo]) == [items[0].ref] + Refs(items[1..][..lo - 1]);
    }
  }

  lemma {:induction false} BelowNone(items: seq<ContextItem>, ordinal: nat)
    requires forall i | 0 <= i < |items| :: items[i].ordinal >= ordinal
    ensures Below(items, ordinal) == []
    decreases |items|
  {
    if items != [] { BelowNone(items[1..], ordinal); }
  }

  lemma {:induction false} AboveIsSuffix(items: seq<ContextItem>, hi: nat)
    requires Increasing(items) && 0 < hi <= |items|
    ensures Above(items, items[hi - 1].ordinal) == Refs(items[hi..])
    decreases |items|
  {
    if hi == 1 {
      AboveAll(items[1..], items[0].ordinal);
    } else {
      AboveIsSuffix(items[1..], hi - 1);
      assert items[1..][hi - 2] == items[hi - 1];
      assert items[1..][hi - 1..] == items[hi..];
    }
  }

  lemma {:induction false} AboveAll(items: seq<ContextItem>, ordinal: nat)
    requires forall i | 0 <= i < |items| :: items[i].ordinal > ordinal
    ensures Above(items, ordinal) == Refs(items)
    decreases |items|
  {
    if items != [] {
      AboveAll(items[1..], ordinal);
      assert Refs(items) == [items[0].ref] + Refs(items[1..]);
    }
  }

  lemma {:induction false} MergeDistinct<T>(acc: seq<T>, xs: seq<T>)
    requires Distinct(acc + xs)
    ensures Merge(acc, xs) == acc + xs
    decreases |xs|
  {
    if xs != [] {
      assert (acc + xs)[|acc|] == xs[0];
      assert forall i | 0 <= i < |acc| :: (acc + xs)[i] == acc[i];
      assert xs[0] !in acc;
      assert acc + xs == (acc + [xs[0]]) + xs[1..];
      MergeDistinct(acc + [xs[0]], xs[1..]);
    }
  }

  // ---- the sources of a chunk --------------------------------------------------

  /** The chunk of a pass: messages for a leaf, or summaries of one depth. */
  ghost predicate IsChunk(db: Database, chunk: seq<Ref>, depth: nat) {
    && chunk != []
    && forall r <- chunk :: Fits(db, depth, r)
  }

  /** The record of a new summary carries its depth and the true totals of its chunk. */
  ghost predicate Describes(db: Database, s: Summary, chunk: seq<Ref>, depth: nat)
    requires IsChunk(db, chunk, depth)
  {
    && Stratified(db)
    && s.depth == depth
    && s.descendantCount == |NodesAll(db, chunk)|
    && s.descendantTokenCount == NodeTokens(db, NodesAll(db, chunk))
    && s.sourceMessageTokenCount == SourceTokens(db, ExpandAll(db, chunk))
  }

  function MessageIds(refs: seq<Ref>): seq<MessageId> {
    if refs == [] then []
    else (if refs[0].MessageRef? then [refs[0].messageId] else []) + MessageIds(refs[1..])
  }

  function SummaryIds(refs: seq<Ref>): seq<SummaryId> {
    if refs == [] then []
    else (if refs[0].SummaryRef? then [refs[0].summaryId] else []) + SummaryIds(refs[1..])
  }

  lemma {:induction false} ChunkIds(refs: seq<Ref>, messages: bool)
    requires forall r <- refs :: r.MessageRef? == messages
    ensures messages ==> MessageRefs(MessageIds(refs)) == refs && SummaryIds(refs) == []
    ensures !messages ==> SummaryRefs(SummaryIds(refs)) == refs && MessageIds(refs) == []
    decreases |refs|
  {
    if refs != [] {
      assert refs == [refs[0]] + refs[1..];
      assert refs[0] in refs;
      ChunkIds(refs[1..], messages);
      if messages {
        assert MessageRefs(MessageIds(refs)) == [refs[0]] + MessageRefs(MessageIds(refs[1..]));
      } else {
        assert SummaryRefs(SummaryIds(refs)) == [refs[0]] + SummaryRefs(SummaryIds(refs[1..]));
      }
    }
  }

  lemma DistinctParts<T>(xs: seq<T>, ys: seq<T>)
    requires Distinct(xs + ys)
    ensures Distinct(xs) && Distinct(ys)
    ensures forall x <- xs :: x !in ys
  {
    var all := xs + ys;
    assert forall i | 0 <= i < |xs| :: all[i] == xs[i];
    assert forall j | 0 <= j < |ys| :: all[|xs| + j] == ys[j];
  }

  lemma {:induction false} SummaryIdsAmongNodes(db: Database, refs: seq<Ref>)
    requires Stratified(db) && AllResolve(db, refs)
    ensures forall id <- SummaryIds(refs) :: id in NodesAll(db, refs)
    decreases |refs|
  {
    if refs != [] {
      assert refs[0] in refs;
      SummaryIdsAmongNodes(db, refs[1..]);
      if refs[0].SummaryRef? { ExpandSummary(db, refs[0].summaryId); }
    }
  }

  lemma {:induction false} DistinctSummaryIds(db: Database, refs: seq<Ref>)
    requires Stratified(db) && AllResolve(db, refs) && Distinct(NodesAll(db, refs))
    ensures Distinct(SummaryIds(refs))
    decreases |refs|
  {
    if refs != [] {
      assert refs[0] in refs;
      DistinctParts(Nodes(db, refs[0]), NodesAll(db, refs[1..]));
      DistinctSummaryIds(db, refs[1..]);
      SummaryIdsAmongNodes(db, refs[1..]);
      if refs[0].SummaryRef? {
        ExpandSummary(db, refs[0].summaryId);
        assert refs[0].summaryId in Nodes(db, refs[0]);
      }
    }
  }

  lemma {:induction false} MessageIdsExpanded(db: Database, refs: seq<Ref>)
    requires Stratified(db) && AllResolve(db, refs) && forall r <- refs :: r.MessageRef?
    ensures ExpandAll(db, refs) == MessageIds(refs) && NodesAll(db, refs) == []
    decreases |refs|
  {
    if refs != [] {
      assert refs[0] in refs;
      MessageIdsExpanded(db, refs[1..]);
    }
  }

  lemma SplitContext(refs: seq<Ref>, lo: nat, hi: nat)
    requires lo <= hi <= |refs|
    ensures refs == refs[..lo] + (refs[lo..hi] + refs[hi..])
  {}

  lemma ResolveParts(db: Database, refs: seq<Ref>, lo: nat, hi: nat)
    requires AllResolve(db, refs) && lo <= hi <= |refs|
    ensures AllResolve(db, refs[..lo]) && AllResolve(db, refs[lo..hi]) && AllResolve(db, refs[hi..])
  {}

  lemma ExpandSplit(db: Database, refs: seq<Ref>, lo: nat, hi: nat)
    requires Stratified(db) && AllResolve(db, refs) && lo <= hi <= |refs|
    ensures AllResolve(db, refs[..lo]) && AllResolve(db, refs[lo..hi]) && AllResolve(db, refs[hi..])
    ensures ExpandAll(db, refs)
         == ExpandAll(db, refs[..lo]) + (ExpandAll(db, refs[lo..hi]) + ExpandAll(db, refs[hi..]))
    ensures NodesAll(db, refs)
         == NodesAll(db, refs[..lo]) + (NodesAll(db, refs[lo..hi]) + NodesAll(db, refs[hi..]))
  {
    SplitContext(refs, lo, hi);
    ResolveParts(db, refs, lo, hi);
    ExpandAllConcat(db, refs[lo..hi], refs[hi..]);
    ExpandAllConcat(db, refs[..lo], refs[lo..hi] + refs[hi..]);
  }

  // ---- what a transaction does -----------------------------------------------------

  /** db' is db after summary id has replaced context items lo..hi. */
  ghost predicate Committed(db: Database, db': Database, lo: nat, hi: nat, id: SummaryId, s: Summary) {
    && lo < hi <= |db.context|
    && id !in db.summaries
    && db'.messages == db.messages
    && db'.summaries == db.summaries[id := s]
    && db'.messageLinks.Keys <= db'.summaries.Keys && db'.parentLinks.Keys <= db'.summaries.Keys
    && Sources(db', id) == Refs(db.context)[lo..hi]
    && (forall prior <- db.summaries :: Sources(db', prior) == Sources(db, prior))
    && Refs(db'.context) == Refs(db.context)[..lo] + [SummaryRef(id)] + Refs(db.context)[hi..]
    && Increasing(db'.context)
  }

  lemma {:induction false} ChunkIsLinked(db: Database, lo: nat, hi: nat, depth: nat)
    requires Stratified(db) && AllResolve(db, Refs(db.context)) && lo < hi <= |db.context|
    requires Distinct(NodesAll(db, Refs(db.context))) && Distinct(ExpandAll(db, Refs(db.context)))
    requires IsChunk(db, Refs(db.context)[lo..hi], depth)
    ensures
      var chunk := Refs(db.context)[lo..hi];
      && Merge([], MessageIds(chunk)) == MessageIds(chunk)
      && Merge([], SummaryIds(chunk)) == SummaryIds(chunk)
      && MessageRefs(MessageIds(chunk)) + SummaryRefs(SummaryIds(chunk)) == chunk
  {
    var chunk := Refs(db.context)[lo..hi];
    DistinctMiddle(db, Refs(db.context), lo, hi);
    DistinctIds(db, chunk, depth);
    ChunkIds(chunk, depth == 0);
    MergeSelf(MessageIds(chunk));
    MergeSelf(SummaryIds(chunk));
  }

  lemma MergeSelf<T>(xs: seq<T>)
    requires Distinct(xs)
    ensures Merge([], xs) == xs
  {
    assert [] + xs == xs;
    MergeDistinct([], xs);
  }

  lemma {:induction false} DistinctIds(db: Database, chunk: seq<Ref>, depth: nat)
    requires Stratified(db) && AllResolve(db, chunk) && IsChunk(db, chunk, depth)
    requires Distinct(NodesAll(db, chunk)) && Distinct(ExpandAll(db, chunk))
    ensures Distinct(MessageIds(chunk)) && Distinct(SummaryIds(chunk))
  {
    DistinctSummaryIds(db, chunk);
    if depth == 0 { MessageIdsExpanded(db, chunk); } else { ChunkIds(chunk, false); }
  }

  lemma DistinctMiddle(db: Database, refs: seq<Ref>, lo: nat, hi: nat)
    requires Stratified(db) && AllResolve(db, refs) && lo <= hi <= |refs|
    requires Distinct(NodesAll(db, refs)) && Distinct(ExpandAll(db, refs))
    ensures AllResolve(db, refs[lo..hi])
    ensures Distinct(NodesAll(db, refs[lo..hi])) && Distinct(ExpandAll(db, refs[lo..hi]))
  {
    ExpandSplit(db, refs, lo, hi);
    DistinctParts(ExpandAll(db, refs[..lo]), ExpandAll(db, refs[lo..hi]) + ExpandAll(db, refs[hi..]));
    DistinctParts(ExpandAll(db, refs[lo..hi]), ExpandAll(db, refs[hi..]));
    DistinctParts(NodesAll(db, refs[..lo]), NodesAll(db, refs[lo..hi]) + NodesAll(db, refs[hi..]));
    DistinctParts(NodesAll(db, refs[lo..hi]), NodesAll(db, refs[hi..]));
  }

  function Linked(db: Database, id: SummaryId, s: Summary, ms: seq<MessageId>, ps: seq<SummaryId>): Database {
    LinkToParents(LinkToMessages(db.(summaries := db.summaries[id := s]), id, ms), id, ps)
  }

  /** linked is db with the summary id inserted and linked to its sources. */
  ghost predicate IsLinked(db: Database, linked: Database, id: SummaryId, s: Summary, sources: seq<Ref>) {
    && linked == db.(summaries := db.summaries[id := s], messageLinks := linked.messageLinks, parentLinks := linked.parentLinks)
    && linked.messageLinks.Keys <= linked.summaries.Keys && linked.parentLinks.Keys <= linked.summaries.Keys
    && Sources(linked, id) == sources
    && forall x | x != id :: Sources(linked, x) == Sources(db, x)
  }

  lemma LinkedSources(db: Database, id: SummaryId, s: Summary, ms: seq<MessageId>, ps: seq<SummaryId>)
    requires id !in db.summaries
    requires db.messageLinks.Keys <= db.summaries.Keys && db.parentLinks.Keys <= db.summaries.Keys
    requires Merge([], ms) == ms && Merge([], ps) == ps
    ensures IsLinked(db, Linked(db, id, s, ms, ps), id, s, MessageRefs(ms) + SummaryRefs(ps))
  {}

  /** The transaction over the ordinals of a chunk replaces exactly that chunk. */
  lemma CommitReplacesChunk(db: Database, lo: nat, hi: nat, depth: nat, id: SummaryId, s: Summary)
    requires Valid(db) && lo < hi <= |db.context| && id !in db.summaries
    requires IsChunk(db, Refs(db.context)[lo..hi], depth)
    ensures
      var chunk := Refs(db.context)[lo..hi];
      var r := Commit(db, id, s, MessageIds(chunk), SummaryIds(chunk),
                      db.context[lo].ordinal, db.context[hi - 1].ordinal);
      r.Some? && Committed(db, r.value, lo, hi, id, s)
  {
    Aspects(db);
    var chunk := Refs(db.context)[lo..hi];
    ChunkIsLinked(db, lo, hi, depth);
    CommitOfLinkedChunk(db, lo, hi, id, s, MessageIds(chunk), SummaryIds(chunk));
  }

  lemma CommitOfLinkedChunk(db: Database, lo: nat, hi: nat, id: SummaryId, s: Summary,
                            ms: seq<MessageId>, ps: seq<SummaryId>)
    requires lo < hi <= |db.context| && id !in db.summaries && Increasing(db.context)
    requires db.messageLinks.Keys <= db.summaries.Keys && db.parentLinks.Keys <= db.summaries.Keys
    requires Merge([], ms) == ms && Merge([], ps) == ps
    requires MessageRefs(ms) + SummaryRefs(ps) == Refs(db.context)[lo..hi]
    ensures
      var r := Commit(db, id, s, ms, ps, db.context[lo].ordinal, db.context[hi - 1].ordinal);
      r.Some? && Committed(db, r.value, lo, hi, id, s)
  {
    LinkedSources(db, id, s, ms, ps);
    var linked := Linked(db, id, s, ms, ps);
    RangeReplaced(linked, lo, hi, id);
    ReplacedIsCommitted(db, linked, ReplaceRange(linked, db.context[lo].ordinal, db.context[hi - 1].ordinal, id), lo, hi, id, s);
  }

  lemma ReplacedIsCommitted(db: Database, linked: Database, db': Database, lo: nat, hi: nat, id: SummaryId, s: Summary)
    requires lo < hi <= |db.context| && id !in db.summaries
    requires linked.messages == db.messages && linked.summaries == db.summaries[id := s]
    requires linked.messageLinks.Keys <= db.summaries.Keys + {id} && linked.parentLinks.Keys <= db.summaries.Keys + {id}
    requires Sources(linked, id) == Refs(db.context)[lo..hi]
    requires forall x | x != id :: Sources(linked, x) == Sources(db, x)
    requires db' == linked.(context := db'.context) && Increasing(db'.context)
    requires Refs(db'.context) == Refs(db.context)[..lo] + [SummaryRef(id)] + Refs(db.context)[hi..]
    ensures Committed(db, db', lo, hi, id, s)
  {
    forall x ensures Sources(db', x) == Sources(linked, x) {}
  }

  lemma RangeReplaced(db: Database, lo: nat, hi: nat, id: SummaryId)
    requires lo < hi <= |db.context| && Increasing(db.context)
    ensures
      var db' := ReplaceRange(db, db.context[lo].ordinal, db.context[hi - 1].ordinal, id);
      && Refs(db'.context) == Refs(db.context)[..lo] + [SummaryRef(id)] + Refs(db.context)[hi..]
      && Increasing(db'.context)
  {
    BelowIsPrefix(db.context, lo);
    AboveIsSuffix(db.context, hi);
    assert Refs(db.context[..lo]) == Refs(db.context)[..lo];
    assert Refs(db.context[hi..]) == Refs(db.context)[hi..];
  }

  lemma CommitExtends(db: Database, db': Database, lo: nat, hi: nat, depth: nat, id: SummaryId, s: Summary)
    requires Stratified(db) && AllResolve(db, Refs(db.context)) && Committed(db, db', lo, hi, id, s)
    requires IsChunk(db, Refs(db.context)[lo..hi], depth) && s.depth == depth
    ensures Extends(db, db') && Stratified(db') && AllResolve(db', Refs(db'.context))
  {
    CommitKeepsStore(db, db', lo, hi, id, s);
    NewNodeStratified(db, db', Refs(db.context)[lo..hi], depth, id);
    ContextResolves(db, db', lo, hi, id);
  }

  lemma CommitKeepsStore(db: Database, db': Database, lo: nat, hi: nat, id: SummaryId, s: Summary)
    requires Committed(db, db', lo, hi, id, s)
    ensures Extends(db, db') && db'.summaries.Keys == db.summaries.Keys + {id}
  {}

  lemma NewNodeStratified(db: Database, db': Database, chunk: seq<Ref>, depth: nat, id: SummaryId)
    requires Stratified(db) && Extends(db, db') && IsChunk(db, chunk, depth)
    requires id !in db.summaries && db'.summaries.Keys == db.summaries.Keys + {id}
    requires db'.summaries[id].depth == depth && Sources(db', id) == chunk
    ensures Stratified(db')
  {
    forall x <- db'.summaries ensures SourcesFit(db', x) {
      if x == id {
        forall r <- chunk ensures Fits(db', depth, r) { StillFits(db, db', depth, r); }
      } else {
        PriorSourcesFit(db, db', x);
      }
    }
  }

  lemma PriorSourcesFit(db: Database, db': Database, x: SummaryId)
    requires Stratified(db) && Extends(db, db') && x in db.summaries
    ensures x in db'.summaries && SourcesFit(db', x)
  {
    assert SourcesFit(db, x);
    forall r <- Sources(db', x) ensures Fits(db', db'.summaries[x].depth, r) {
      StillFits(db, db', db.summaries[x].depth, r);
    }
  }

  lemma StillFits(db: Database, db': Database, depth: nat, r: Ref)
    requires Extends(db, db') && Fits(db, depth, r)
    ensures Fits(db', depth, r)
  {
    StillResolves(db, db', r);
  }

  lemma ContextResolves(db: Database, db': Database, lo: nat, hi: nat, id: SummaryId)
    requires AllResolve(db, Refs(db.context)) && Extends(db, db') && lo < hi <= |db.context|
    requires id in db'.summaries
    requires Refs(db'.context) == Refs(db.context)[..lo] + [SummaryRef(id)] + Refs(db.context)[hi..]
    ensures AllResolve(db', Refs(db'.context))
  {
    forall r <- Refs(db'.context) ensures Resolves(db', r) {
      if r != SummaryRef(id) {
        assert r in Refs(db.context)[..lo] || r in Refs(db.context)[hi..];
        StillResolves(db, db', r);
      }
    }
  }

  lemma StillResolves(db: Database, db': Database, r: Ref)
    requires Extends(db, db')
    ensures Resolves(db, r) ==> Resolves(db', r) && Level(db', r) == Level(db, r)
  {}

  lemma CommitKeepsConversation(db: Database, db': Database, lo: nat, hi: nat, depth: nat, id: SummaryId, s: Summary)
    requires Stratified(db) && AllResolve(db, Refs(db.context)) && Committed(db, db', lo, hi, id, s)
    requires IsChunk(db, Refs(db.context)[lo..hi], depth) && s.depth == depth
    requires Distinct(NodesAll(db, Refs(db.context)))
    ensures Stratified(db') && AllResolve(db', Refs(db'.context))
    ensures ExpandAll(db', Refs(db'.context)) == ExpandAll(db, Refs(db.context))
    ensures Distinct(NodesAll(db', Refs(db'.context)))
  {
    CommitExtends(db, db', lo, hi, depth, id, s);
    var refs := Refs(db.context);
    var pre, chunk, post := refs[..lo], refs[lo..hi], refs[hi..];
    ExpandSplit(db, refs, lo, hi);
    NewContext(db, db', pre, chunk, post, id);
    ContextStored(db, refs);
    InsertDistinct(NodesAll(db, pre), id, NodesAll(db, chunk), NodesAll(db, post));
  }

  lemma NewContext(db: Database, db': Database, pre: seq<Ref>, chunk: seq<Ref>, post: seq<Ref>, id: SummaryId)
    requires Stratified(db) && Stratified(db') && Extends(db, db')
    requires AllResolve(db, pre) && AllResolve(db, chunk) && AllResolve(db, post)
    requires id in db'.summaries && Sources(db', id) == chunk
    ensures AllResolve(db', pre + [SummaryRef(id)] + post)
    ensures ExpandAll(db', pre + [SummaryRef(id)] + post)
         == ExpandAll(db, pre) + (ExpandAll(db, chunk) + ExpandAll(db, post))
    ensures NodesAll(db', pre + [SummaryRef(id)] + post)
         == (NodesAll(db, pre) + ([id] + NodesAll(db, chunk))) + NodesAll(db, post)
  {
    ExtendsExpandAll(db, db', pre);
    ExtendsExpandAll(db, db', chunk);
    ExtendsExpandAll(db, db', post);
    AroundNode(db', pre, id, post);
  }

  lemma {:induction false} AroundNode(db: Database, pre: seq<Ref>, id: SummaryId, post: seq<Ref>)
    requires Stratified(db) && AllResolve(db, pre) && AllResolve(db, post) && id in db.summaries
    ensures AllResolve(db, pre + [SummaryRef(id)] + post) && AllResolve(db, Sources(db, id))
    ensures ExpandAll(db, pre + [SummaryRef(id)] + post)
         == ExpandAll(db, pre) + (ExpandAll(db, Sources(db, id)) + ExpandAll(db, post))
    ensures NodesAll(db, pre + [SummaryRef(id)] + post)
         == (NodesAll(db, pre) + ([id] + NodesAll(db, Sources(db, id)))) + NodesAll(db, post)
  {
    ExpandSummary(db, id);
    AroundRef(db, pre, SummaryRef(id), post);
    Associates(ExpandAll(db, pre), ExpandAll(db, Sources(db, id)), ExpandAll(db, post));
  }

  lemma {:induction false} AroundRef(db: Database, pre: seq<Ref>, r: Ref, post: seq<Ref>)
    requires Stratified(db) && AllResolve(db, pre) && AllResolve(db, post) && Resolves(db, r)
    ensures AllResolve(db, pre + [r] + post)
    ensures ExpandAll(db, pre + [r] + post) == (ExpandAll(db, pre) + Expand(db, r)) + ExpandAll(db, post)
    ensures NodesAll(db, pre + [r] + post) == (NodesAll(db, pre) + Nodes(db, r)) + NodesAll(db, post)
  {
    ExpandAllSingle(db, r);
    ExpandAllConcat(db, pre, [r]);
    ExpandAllConcat(db, pre + [r], post);
  }

  lemma {:induction false} InsertDistinct<T>(pre: seq<T>, x: T, mid: seq<T>, post: seq<T>)
    requires Distinct(pre + (mid + post)) && x !in pre + (mid + post)
    ensures Distinct((pre + ([x] + mid)) + post)
  {
    var all, prior := (pre + ([x] + mid)) + post, pre + (mid + post);
    assert forall i | 0 <= i < |pre| :: all[i] == prior[i];
    assert forall i | |pre| < i < |all| :: all[i] == prior[i - 1];
    assert all[|pre|] == x;
  }

  /** Losslessness and true accounting: the transaction keeps the invariant, and
      expanding the new context gives back the same conversation. */
  lemma CommitKeepsValid(db: Database, db': Database, lo: nat, hi: nat, depth: nat, id: SummaryId, s: Summary)
    requires Valid(db) && Committed(db, db', lo, hi, id, s)
    requires IsChunk(db, Refs(db.context)[lo..hi], depth) && Describes(db, s, Refs(db.context)[lo..hi], depth)
    ensures Valid(db') && Extends(db, db') && Conversation(db') == Conversation(db)
  {
    Aspects(db);
    CommitExtends(db, db', lo, hi, depth, id, s);
    CommitKeepsConversation(db, db', lo, hi, depth, id, s);
    forall x <- db'.summaries ensures CountsAreTrue(db', x) {
      var sources := Sources(db', x);
      if x == id { ResolveParts(db, Refs(db.context), lo, hi); } else { SourcesResolve(db, x); }
      assert AllResolve(db, sources);
      ExtendsExpandAll(db, db', sources);
      ContextStored(db, sources);
      ExtendsTokens(db, db', ExpandAll(db, sources));
      ExtendsNodeTokens(db, db', NodesAll(db, sources));
      if x != id { assert CountsAreTrue(db, x); }
    }
    Aspects(db');
  }
}
