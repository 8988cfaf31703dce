/** The bounded walk over a rollout's referenced history and the verdict on what it kept
    (src/codex-transcript.ts, lines 675-868). */
module HistoryWindow {
  import opened Options
  import opened TextLines
  import opened Json
  import opened LiveScan
  import opened CutoffReader

  const MAX_REFERENCED_HISTORY_FILES := 4
  const CUTOFF_CHUNK_BYTES: nat := 64 * 1024

  type Positive = n: nat | n >= 1 witness 1

  datatype BaseRead =
    | NoBase
    | Headless
    | Invalid
    | Base(rolloutId: string, endOrdinal: Positive, endByte: Positive)

  /** An opened rollout file. A read of it may fail while its link is checked, or later
      while its text is read. */
  datatype Rollout = Rollout(bytes: seq<Byte>, identity: (nat, nat), checkable: bool, readable: bool)

  /** A located and safely opened file, and what is left of the directory budget. */
  datatype Located = Located(file: Option<Rollout>, budget: nat)

  /** Bytes [start, endByte) of a file. */
  datatype Range = Range(file: Rollout, start: nat, endByte: nat)

  type Segment = r: Range | r.start <= r.endByte <= |r.file.bytes|
    witness Range(Rollout([], (0, 0), false, false), 0, 0)

  /** The text of one line of bytes. UTF-8 decoding works line by line: a newline byte
      ends any sequence before it, and no other byte decodes to a newline. */
  type Line = text: string | TextLines.NEWLINE !in text

  type Decoder = seq<Byte> -> Line

  function Newline(bytes: seq<Byte>): (index: nat)
    ensures index <= |bytes|
    ensures index < |bytes| ==> bytes[index] == CutoffReader.NEWLINE
  {
    if bytes == [] || bytes[0] == CutoffReader.NEWLINE then 0 else 1 + Newline(bytes[1..])
  }

  function Decode(decode: Decoder, bytes: seq<Byte>): string {
    var n := Newline(bytes);
    if n == |bytes| then decode(bytes) else decode(bytes[..n]) + [TextLines.NEWLINE] + Decode(decode, bytes[n + 1..])
  }

  /** What the file system and the decoders answer. */
  datatype World = World(
    baseOf: seq<Byte> -> BaseRead,
    locate: (string, nat) -> Located,
    ordinalOf: seq<Byte> -> Option<nat>,
    decode: Decoder,
    parse: Parser)

  // ---- one link ---------------------------------------------------------------------

  function CutoffOrdinal(w: World, bytes: seq<Byte>): Option<nat> {
    if FillsWindow(bytes, CUTOFF_CHUNK_BYTES, NATIVE_RECORD_BYTE_LIMIT) then None else LastOrdinal(bytes, w.ordinalOf)
  }

  /** A link to a parent holds when the parent is new, long enough, has a session_meta,
      and its last record before the cutoff carries the ordinal just before the end. */
  predicate LinkHolds(w: World, parent: Rollout, endByte: nat, endOrdinal: Positive) {
    parent.checkable && endByte <= |parent.bytes| && w.baseOf(parent.bytes) != Headless
    && CutoffOrdinal(w, parent.bytes[..endByte]) == Some(endOrdinal - 1)
  }

  method ValidateAncestor(w: World, parent: Rollout, endByte: nat, endOrdinal: Positive, repeated: bool)
    returns (read: Option<BaseRead>)
    ensures read == if !repeated && LinkHolds(w, parent, endByte, endOrdinal) then Some(w.baseOf(parent.bytes)) else None
  {
    if repeated || endByte > |parent.bytes| { return None; }
    if !parent.checkable { return None; }
    var parentRead := w.baseOf(parent.bytes);
    if parentRead == Headless { return None; }
    var ordinal := ReadCutoffOrdinal(parent.bytes, endByte, CUTOFF_CHUNK_BYTES, NATIVE_RECORD_BYTE_LIMIT, w.ordinalOf);
    if ordinal != Some(endOrdinal - 1) { return None; }
    return Some(parentRead);
  }

  // ---- the walk ---------------------------------------------------------------------

  datatype Walker = Walker(
    segments: seq<Segment>,
    remaining: nat,
    seenIds: set<string>,
    seenFiles: set<(nat, nat)>,
    budget: nat,
    read: BaseRead)
  {
    /** The newest bytes of the file's range that the byte budget still covers. */
    function Keep(file: Rollout, end: nat): Walker
      requires end <= |file.bytes|
    {
      var take := if end < remaining then end else remaining;
      this.(segments := [Range(file, end - take, end)] + segments, remaining := remaining - take)
    }
  }

  function Start(w: World, own: Rollout, maxBytes: nat, maxDirectoryEntries: nat): Walker {
    Walker([], maxBytes, {}, {own.identity}, maxDirectoryEntries, w.baseOf(own.bytes)).Keep(own, |own.bytes|)
  }

  predicate MayStep(s: Walker) {
    s.read.Base? && s.remaining > 0 && |s.segments| < MAX_REFERENCED_HISTORY_FILES && s.read.rolloutId !in s.seenIds
  }

  /** The parent of the oldest range, when the walk may go on and the link to it holds. */
  function Parent(w: World, s: Walker): Option<Rollout> {
    if !MayStep(s) then None
    else match w.locate(s.read.rolloutId, s.budget).file
      case Some(parent) =>
        if parent.identity !in s.seenFiles && LinkHolds(w, parent, s.read.endByte, s.read.endOrdinal)
        then Some(parent) else None
      case None => None
  }

  function Next(w: World, s: Walker, parent: Rollout): Walker
    requires s.read.Base? && s.read.endByte <= |parent.bytes|
  {
    s.(seenIds := s.seenIds + {s.read.rolloutId}, seenFiles := s.seenFiles + {parent.identity},
       budget := w.locate(s.read.rolloutId, s.budget).budget, read := w.baseOf(parent.bytes))
    .Keep(parent, s.read.endByte)
  }

  function Walk(w: World, s: Walker): seq<Segment>
    decreases MAX_REFERENCED_HISTORY_FILES - |s.segments|
  {
    match Parent(w, s)
    case None => s.segments
    case Some(parent) => Walk(w, Next(w, s, parent))
  }

  method ResolveHistorySegments(w: World, own: Rollout, maxBytes: nat, maxDirectoryEntries: nat)
    returns (segments: seq<Segment>)
    ensures segments == Walk(w, Start(w, own, maxBytes, maxDirectoryEntries))
  {
    var take := if |own.bytes| < maxBytes then |own.bytes| else maxBytes;
    segments := [Range(own, |own.bytes| - take, |own.bytes|)];
    var remaining: nat := maxBytes - take;
    var seenIds: set<string>, seenFiles: set<(nat, nat)> := {}, {own.identity};
    var budget := maxDirectoryEntries;
    var read := w.baseOf(own.bytes);
    assert Start(w, own, maxBytes, maxDirectoryEntries)
      == Walker(segments, remaining, seenIds, seenFiles, budget, read);
    while read.Base? && remaining > 0 && |segments| < MAX_REFERENCED_HISTORY_FILES && read.rolloutId !in seenIds
      invariant Walk(w, Walker(segments, remaining, seenIds, seenFiles, budget, read))
        == Walk(w, Start(w, own, maxBytes, maxDirectoryEntries))
      decreases MAX_REFERENCED_HISTORY_FILES - |segments|
    {
      var rolloutId, endOrdinal, endByte := read.rolloutId, read.endOrdinal, read.endByte;
      ghost var before := Walker(segments, remaining, seenIds, seenFiles, budget, read);
      seenIds := seenIds + {rolloutId};
      var located := w.locate(rolloutId, budget);
      budget := located.budget;
      if located.file.None? { break; }
      var parent := located.file.value;
      var parentRead := ValidateAncestor(w, parent, endByte, endOrdinal, parent.identity in seenFiles);
      if parentRead.None? { break; }
      seenFiles := seenFiles + {parent.identity};
      take := if endByte < remaining then endByte else remaining;
      var oldest: Segment := Range(parent, endByte - take, endByte);
      segments := [oldest] + segments;
      remaining := remaining - take;
      read := parentRead.value;
      assert Walker(segments, remaining, seenIds, seenFiles, budget, read) == Next(w, before, parent);
    }
  }

  // ---- the shape of what is kept ------------------------------------------------------

  function TotalBytes(segments: seq<Segment>): int {
    if segments == [] then 0 else segments[0].endByte - segments[0].start + TotalBytes(segments[1..])
  }

  /** Each range but the newest is the prefix its successor's session_meta refers to. */
  ghost predicate Linked(w: World, older: Segment, newer: Segment) {
    var base := w.baseOf(newer.file.bytes);
    base.Base? && older.endByte == base.endByte
    && older.file.checkable && w.baseOf(older.file.bytes) != Headless
    && CutoffOrdinal(w, older.file.bytes[..older.endByte]) == Some(base.endOrdinal - 1)
    && exists budget: nat :: w.locate(base.rolloutId, budget).file == Some(older.file)
  }

  ghost predicate Chained(w: World, segments: seq<Segment>) {
    && (forall i :: 0 <= i < |segments| - 1 ==> Linked(w, segments[i], segments[i + 1]))
    && (forall i :: 0 < i < |segments| ==> segments[i].start == 0)
    && (forall i, j :: 0 <= i < j < |segments| ==> segments[i].file.identity != segments[j].file.identity)
  }

  ghost predicate IsWindow(w: World, own: Rollout, segments: seq<Segment>) {
    && 0 < |segments| <= MAX_REFERENCED_HISTORY_FILES
    && segments[|segments| - 1].file == own && segments[|segments| - 1].endByte == |own.bytes|
    && Chained(w, segments)
  }

  ghost predicate Walking(w: World, own: Rollout, maxBytes: nat, s: Walker) {
    && IsWindow(w, own, s.segments)
    && TotalBytes(s.segments) + s.remaining == maxBytes
    && (s.remaining > 0 ==> s.segments[0].start == 0)
    && s.read == w.baseOf(s.segments[0].file.bytes)
    && forall i :: 0 <= i < |s.segments| ==> s.segments[i].file.identity in s.seenFiles
  }

  lemma StartWalks(w: World, own: Rollout, maxBytes: nat, maxDirectoryEntries: nat)
    ensures Walking(w, own, maxBytes, Start(w, own, maxBytes, maxDirectoryEntries))
  {
  }

  lemma NextWalks(w: World, own: Rollout, maxBytes: nat, s: Walker, parent: Rollout)
    requires Walking(w, own, maxBytes, s) && Parent(w, s) == Some(parent)
    ensures Walking(w, own, maxBytes, Next(w, s, parent))
  {
    var next := Next(w, s, parent);
    var head := next.segments[0];
    assert next.segments == [head] + s.segments && next.segments[1..] == s.segments;
    assert Linked(w, head, s.segments[0]);
    forall i | 0 <= i < |next.segments| - 1 ensures Linked(w, next.segments[i], next.segments[i + 1]) {
      if i > 0 { assert Linked(w, s.segments[i - 1], s.segments[i]); }
    }
  }

  lemma {:induction false} WalkKeepsShape(w: World, own: Rollout, maxBytes: nat, s: Walker)
    requires Walking(w, own, maxBytes, s)
    ensures IsWindow(w, own, Walk(w, s)) && TotalBytes(Walk(w, s)) <= maxBytes
    ensures Walk(w, s)[0].start > 0 ==> TotalBytes(Walk(w, s)) == maxBytes
    decreases MAX_REFERENCED_HISTORY_FILES - |s.segments|
  {
    var parent := Parent(w, s);
    if parent.Some? {
      NextWalks(w, own, maxBytes, s, parent.value);
      WalkKeepsShape(w, own, maxBytes, Next(w, s, parent.value));
    }
  }

  /** The kept ranges are a contiguous newest suffix of the history, ending with the whole
      end of the rollout itself, within the byte budget and the file limit; only the oldest
      may start part way through its file, and only when the budget is used up. */
  lemma KeptIsNewestSuffix(w: World, own: Rollout, maxBytes: nat, maxDirectoryEntries: nat)
    ensures
      var kept := Walk(w, Start(w, own, maxBytes, maxDirectoryEntries));
      IsWindow(w, own, kept) && TotalBytes(kept) <= maxBytes && (kept[0].start > 0 ==> TotalBytes(kept) == maxBytes)
  {
    StartWalks(w, own, maxBytes, maxDirectoryEntries);
    WalkKeepsShape(w, own, maxBytes, Start(w, own, maxBytes, maxDirectoryEntries));
  }
}
