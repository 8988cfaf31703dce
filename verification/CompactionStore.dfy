/** The stored state the compaction engine works on: messages, summaries with
    their links, and the ordered context (src/compaction.ts and the contract of
    src/store/summary-store.ts). */
module CompactionStore {
  import opened Sequences

  type MessageId = nat
  type SummaryId = string

  datatype Message = Message(tokenCount: nat, content: string)

  datatype Summary = Summary(
    depth: nat,
    content: string,
    tokenCount: nat,
    descendantCount: nat,
    descendantTokenCount: nat,
    sourceMessageTokenCount: nat)

  datatype Ref = MessageRef(messageId: MessageId) | SummaryRef(summaryId: SummaryId)

  datatype ContextItem = ContextItem(ordinal: nat, ref: Ref)

  datatype Database = Database(
    messages: map<MessageId, Message>,
    summaries: map<SummaryId, Summary>,
    messageLinks: map<SummaryId, seq<MessageId>>,
    parentLinks: map<SummaryId, seq<SummaryId>>,
    context: seq<ContextItem>)

  // ---- token counts -------------------------------------------------------

  function EstimateTokens(content: string): nat {
    (|content| + 3) / 4
  }

  /** A message's own count, or an estimate from its content when it has none. */
  function MessageTokens(m: Message): nat {
    if m.tokenCount > 0 then m.tokenCount else EstimateTokens(m.content)
  }

  function SummaryTokens(s: Summary): nat {
    if s.tokenCount > 0 then s.tokenCount else EstimateTokens(s.content)
  }

  function StoredTokens(db: Database, ref: Ref): nat {
    match ref
    case MessageRef(m) => if m in db.messages then db.messages[m].tokenCount else 0
    case SummaryRef(s) => if s in db.summaries then db.summaries[s].tokenCount else 0
  }

  /** getContextTokenCount: the stored counts of everything in the context. */
  function ContextTokens(db: Database, items: seq<ContextItem>): nat {
    if items == [] then 0 else StoredTokens(db, items[0].ref) + ContextTokens(db, items[1..])
  }

  // ---- the summary DAG ------------------------------------------------------

  ghost predicate Resolves(db: Database, ref: Ref) {
    match ref
    case MessageRef(m) => m in db.messages
    case SummaryRef(s) => s in db.summaries
  }

  function MessageRefs(ids: seq<MessageId>): (r: seq<Ref>)
    ensures |r| == |ids| && forall i | 0 <= i < |r| :: r[i] == MessageRef(ids[i])
  {
    seq(|ids|, i requires 0 <= i < |ids| => MessageRef(ids[i]))
  }

  function SummaryRefs(ids: seq<SummaryId>): (r: seq<Ref>)
    ensures |r| == |ids| && forall i | 0 <= i < |r| :: r[i] == SummaryRef(ids[i])
  {
    seq(|ids|, i requires 0 <= i < |ids| => SummaryRef(ids[i]))
  }

  function LinkedRefs(messageLinks: map<SummaryId, seq<MessageId>>, parentLinks: map<SummaryId, seq<SummaryId>>,
                      id: SummaryId): seq<Ref> {
    (if id in messageLinks then MessageRefs(messageLinks[id]) else [])
    + (if id in parentLinks then SummaryRefs(parentLinks[id]) else [])
  }

  /** What a summary was made from: messages for a leaf, shallower summaries otherwise. */
  function Sources(db: Database, id: SummaryId): seq<Ref> {
    LinkedRefs(db.messageLinks, db.parentLinks, id)
  }

  function Level(db: Database, ref: Ref): nat {
    if ref.SummaryRef? && ref.summaryId in db.summaries then 1 + db.summaries[ref.summaryId].depth else 0
  }

  /** A leaf has only messages below it, and a summary at depth d + 1 only summaries at depth d. */
  ghost predicate Fits(db: Database, depth: nat, r: Ref) {
    Resolves(db, r) && r.MessageRef? == (depth == 0) && Level(db, r) == depth
  }

  ghost predicate SourcesFit(db: Database, id: SummaryId)
    requires id in db.summaries
  {
    forall r <- Sources(db, id) :: Fits(db, db.summaries[id].depth, r)
  }

  ghost predicate Stratified(db: Database) {
    forall id <- db.summaries :: SourcesFit(db, id)
  }

  lemma SourceFits(db: Database, id: SummaryId, i: nat)
    requires Stratified(db) && id in db.summaries && i < |Sources(db, id)|
    ensures Fits(db, db.summaries[id].depth, Sources(db, id)[i])
  {
    assert SourcesFit(db, id);
    assert Sources(db, id)[i] in Sources(db, id);
  }

  /** The messages a reference stands for, every summary recursively expanded. */
  ghost function Expand(db: Database, ref: Ref): seq<MessageId>
    requires Stratified(db) && Resolves(db, ref)
    decreases Level(db, ref)
  {
    match ref
    case MessageRef(m) => [m]
    case SummaryRef(id) =>
      var rs := Sources(db, id);
      Concat(seq(|rs|, i requires 0 <= i < |rs| => SourceFits(db, id, i); Expand(db, rs[i])))
  }

  /** The summaries a reference stands for: itself, if it is one, and everything below. */
  ghost function Nodes(db: Database, ref: Ref): seq<SummaryId>
    requires Stratified(db) && Resolves(db, ref)
    decreases Level(db, ref)
  {
    match ref
    case MessageRef(m) => []
    case SummaryRef(id) =>
      var rs := Sources(db, id);
      [id] + Concat(seq(|rs|, i requires 0 <= i < |rs| => SourceFits(db, id, i); Nodes(db, rs[i])))
  }

  ghost predicate AllResolve(db: Database, refs: seq<Ref>) {
    forall r <- refs :: Resolves(db, r)
  }

  ghost function ExpandAll(db: Database, refs: seq<Ref>): seq<MessageId>
    requires Stratified(db) && AllResolve(db, refs)
  {
    if refs == [] then [] else Expand(db, refs[0]) + ExpandAll(db, refs[1..])
  }

  ghost function NodesAll(db: Database, refs: seq<Ref>): seq<SummaryId>
    requires Stratified(db) && AllResolve(db, refs)
  {
    if refs == [] then [] else Nodes(db, refs[0]) + NodesAll(db, refs[1..])
  }

  /** The tokens of a list of messages, and of a list of summaries. */
  ghost function SourceTokens(db: Database, ids: seq<MessageId>): nat {
    if ids == [] then 0
    else (if ids[0] in db.messages then MessageTokens(db.messages[ids[0]]) else 0) + SourceTokens(db, ids[1..])
  }

  ghost function NodeTokens(db: Database, ids: seq<SummaryId>): nat {
    if ids == [] then 0
    else (if ids[0] in db.summaries then db.summaries[ids[0]].tokenCount else 0) + NodeTokens(db, ids[1..])
  }

  ghost predicate Distinct<T>(s: seq<T>) {
    forall i, j | 0 <= i < j < |s| :: s[i] != s[j]
  }

  function Refs(items: seq<ContextItem>): (r: seq<Ref>)
    ensures |r| == |items| && forall i | 0 <= i < |r| :: r[i] == items[i].ref
  {
    seq(|items|, i requires 0 <= i < |items| => items[i].ref)
  }

  // ---- unfolding ------------------------------------------------------------

  lemma {:induction false} ConcatIsExpandAll(db: Database, refs: seq<Ref>, parts: seq<seq<MessageId>>)
    requires Stratified(db) && AllResolve(db, refs) && |parts| == |refs|
    requires forall i | 0 <= i < |refs| :: assert refs[i] in refs; parts[i] == Expand(db, refs[i])
    ensures Concat(parts) == ExpandAll(db, refs)
    decreases |refs|
  {
    if refs != [] {
      assert forall i | 0 <= i < |refs| - 1 :: refs[1..][i] == refs[i + 1] && parts[1..][i] == parts[i + 1];
      ConcatIsExpandAll(db, refs[1..], parts[1..]);
    }
  }

  lemma {:induction false} ConcatIsNodesAll(db: Database, refs: seq<Ref>, parts: seq<seq<SummaryId>>)
    requires Stratified(db) && AllResolve(db, refs) && |parts| == |refs|
    requires forall i | 0 <= i < |refs| :: assert refs[i] in refs; parts[i] == Nodes(db, refs[i])
    ensures Concat(parts) == NodesAll(db, refs)
    decreases |refs|
  {
    if refs != [] {
      assert forall i | 0 <= i < |refs| - 1 :: refs[1..][i] == refs[i + 1] && parts[1..][i] == parts[i + 1];
      ConcatIsNodesAll(db, refs[1..], parts[1..]);
    }
  }

  lemma SourcesResolve(db: Database, id: SummaryId)
    requires Stratified(db) && id in db.summaries
    ensures AllResolve(db, Sources(db, id))
    ensures forall r <- Sources(db, id) :: Level(db, r) == db.summaries[id].depth
  {
    assert SourcesFit(db, id);
    assert forall r <- Sources(db, id) :: Fits(db, db.summaries[id].depth, r);
  }

  lemma ExpandSummary(db: Database, id: SummaryId)
    requires Stratified(db) && id in db.summaries
    ensures AllResolve(db, Sources(db, id))
    ensures forall r <- Sources(db, id) :: Level(db, r) == db.summaries[id].depth
    ensures Expand(db, SummaryRef(id)) == ExpandAll(db, Sources(db, id))
    ensures Nodes(db, SummaryRef(id)) == [id] + NodesAll(db, Sources(db, id))
  {
    SourcesResolve(db, id);
    var rs := Sources(db, id);
    ConcatIsExpandAll(db, rs, seq(|rs|, i requires 0 <= i < |rs| => assert rs[i] in rs; Expand(db, rs[i])));
    ConcatIsNodesAll(db, rs, seq(|rs|, i requires 0 <= i < |rs| => assert rs[i] in rs; Nodes(db, rs[i])));
  }

  lemma {:induction false} ExpandAllConcat(db: Database, xs: seq<Ref>, ys: seq<Ref>)
    requires Stratified(db) && AllResolve(db, xs) && AllResolve(db, ys)
    ensures AllResolve(db, xs + ys)
    ensures ExpandAll(db, xs + ys) == ExpandAll(db, xs) + ExpandAll(db, ys)
    ensures NodesAll(db, xs + ys) == NodesAll(db, xs) + NodesAll(db, ys)
    decreases |xs|
  {
    if xs == [] {
      assert xs + ys == ys;
    } else {
      assert (xs + ys)[0] == xs[0] && (xs + ys)[1..] == xs[1..] + ys;
      ExpandAllConcat(db, xs[1..], ys);
    }
  }

  lemma ExpandAllSingle(db: Database, r: Ref)
    requires Stratified(db) && Resolves(db, r)
    ensures ExpandAll(db, [r]) == Expand(db, r) && NodesAll(db, [r]) == Nodes(db, r)
  {
    assert [r][1..] == [];
    assert ExpandAll(db, [r]) == Expand(db, r) + ExpandAll(db, []);
    assert NodesAll(db, [r]) == Nodes(db, r) + NodesAll(db, []);
  }

  /** Everything reached from a resolving reference is stored. */
  lemma {:induction false} ExpandStored(db: Database, ref: Ref)
    requires Stratified(db) && Resolves(db, ref)
    ensures forall m <- Expand(db, ref) :: m in db.messages
    ensures forall s <- Nodes(db, ref) :: s in db.summaries
    decreases Level(db, ref), 0
  {
    if ref.SummaryRef? {
      ExpandSummary(db, ref.summaryId);
      ExpandAllStored(db, Sources(db, ref.summaryId), db.summaries[ref.summaryId].depth);
    }
  }

  lemma {:induction false} ExpandAllStored(db: Database, refs: seq<Ref>, level: nat)
    requires Stratified(db) && AllResolve(db, refs) && forall r <- refs :: Level(db, r) <= level
    ensures forall m <- ExpandAll(db, refs) :: m in db.messages
    ensures forall s <- NodesAll(db, refs) :: s in db.summaries
    decreases level, 1 + |refs|
  {
    if refs != [] {
      assert refs[0] in refs;
      ExpandStored(db, refs[0]);
      ExpandAllStored(db, refs[1..], level);
    }
  }

  lemma ContextStored(db: Database, refs: seq<Ref>)
    requires Stratified(db) && AllResolve(db, refs)
    ensures forall m <- ExpandAll(db, refs) :: m in db.messages
    ensures forall s <- NodesAll(db, refs) :: s in db.summaries
  {
    var level := MaxLevel(db, refs);
    ExpandAllStored(db, refs, level);
  }

  ghost function MaxLevel(db: Database, refs: seq<Ref>): (l: nat)
    ensures forall r <- refs :: Level(db, r) <= l
  {
    if refs == [] then 0
    else
      var rest := MaxLevel(db, refs[1..]);
      assert refs == [refs[0]] + refs[1..];
      if Level(db, refs[0]) > rest then Level(db, refs[0]) else rest
  }

  lemma {:induction false} TokensConcat(db: Database, xs: seq<MessageId>, ys: seq<MessageId>)
    ensures SourceTokens(db, xs + ys) == SourceTokens(db, xs) + SourceTokens(db, ys)
    decreases |xs|
  {
    if xs == [] {
      assert xs + ys == ys;
    } else {
      assert (xs + ys)[0] == xs[0] && (xs + ys)[1..] == xs[1..] + ys;
      TokensConcat(db, xs[1..], ys);
    }
  }

  lemma {:induction false} NodeTokensConcat(db: Database, xs: seq<SummaryId>, ys: seq<SummaryId>)
    ensures NodeTokens(db, xs + ys) == NodeTokens(db, xs) + NodeTokens(db, ys)
    decreases |xs|
  {
    if xs == [] {
      assert xs + ys == ys;
    } else {
      assert (xs + ys)[0] == xs[0] && (xs + ys)[1..] == xs[1..] + ys;
      NodeTokensConcat(db, xs[1..], ys);
    }
  }

  // ---- growing the store ------------------------------------------------------

  /** Everything stored before is still stored, unchanged and with the same links. */
  ghost predicate Extends(db: Database, db': Database) {
    && (forall m <- db.messages :: m in db'.messages && db'.messages[m] == db.messages[m])
    && (forall id <- db.summaries ::
          id in db'.summaries && db'.summaries[id] == db.summaries[id] && Sources(db', id) == Sources(db, id))
  }

  lemma {:induction false} ExtendsExpand(db: Database, db': Database, ref: Ref)
    requires Stratified(db) && Stratified(db') && Extends(db, db') && Resolves(db, ref)
    ensures Resolves(db', ref)
    ensures Expand(db', ref) == Expand(db, ref) && Nodes(db', ref) == Nodes(db, ref)
    decreases Level(db, ref), 0
  {
    if ref.SummaryRef? {
      ExpandSummary(db, ref.summaryId);
      ExpandSummary(db', ref.summaryId);
      ExtendsExpandLevel(db, db', Sources(db, ref.summaryId), db.summaries[ref.summaryId].depth);
    }
  }

  lemma {:induction false} ExtendsExpandLevel(db: Database, db': Database, refs: seq<Ref>, level: nat)
    requires Stratified(db) && Stratified(db') && Extends(db, db') && AllResolve(db, refs)
    requires forall r <- refs :: Level(db, r) <= level
    ensures AllResolve(db', refs)
    ensures ExpandAll(db', refs) == ExpandAll(db, refs) && NodesAll(db', refs) == NodesAll(db, refs)
    decreases level, 1 + |refs|
  {
    if refs != [] {
      assert refs[0] in refs;
      ExtendsExpand(db, db', refs[0]);
      ExtendsExpandLevel(db, db', refs[1..], level);
      assert refs == [refs[0]] + refs[1..];
    }
  }

  lemma ExtendsExpandAll(db: Database, db': Database, refs: seq<Ref>)
    requires Stratified(db) && Stratified(db') && Extends(db, db') && AllResolve(db, refs)
    ensures AllResolve(db', refs)
    ensures ExpandAll(db', refs) == ExpandAll(db, refs) && NodesAll(db', refs) == NodesAll(db, refs)
  {
    ExtendsExpandLevel(db, db', refs, MaxLevel(db, refs));
  }

  lemma {:induction false} ExtendsTokens(db: Database, db': Database, ms: seq<MessageId>)
    requires Extends(db, db') && forall m <- ms :: m in db.messages
    ensures SourceTokens(db', ms) == SourceTokens(db, ms)
    decreases |ms|
  {
    if ms != [] {
      assert ms[0] in ms;
      ExtendsTokens(db, db', ms[1..]);
    }
  }

  lemma {:induction false} ExtendsNodeTokens(db: Database, db': Database, ids: seq<SummaryId>)
    requires Extends(db, db') && forall s <- ids :: s in db.summaries
    ensures NodeTokens(db', ids) == NodeTokens(db, ids)
    decreases |ids|
  {
    if ids != [] {
      assert ids[0] in ids;
      ExtendsNodeTokens(db, db', ids[1..]);
    }
  }
}
