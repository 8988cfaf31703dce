/** Why the walk over a rollout's history stops where it does (src/codex-transcript.ts, lines
    718-792). */
module HistoryStops {
  import opened Options
  import opened HistoryWindow

  // ---- what the kept ranges tell of the walk ---------------------------------------------

  /** The directory budget after the parents of all kept ranges but the oldest were located. */
  function LeftBudget(w: World, kept: seq<Segment>, entries: nat): nat {
    if |kept| <= 1 then entries
    else match w.baseOf(kept[1].file.bytes)
      case Base(id, _, _) => w.locate(id, LeftBudget(w, kept[1..], entries)).budget
      case _ => entries
  }

  /** The ids by which those parents were located. */
  function IdsOf(w: World, kept: seq<Segment>): set<string> {
    if |kept| <= 1 then {}
    else match w.baseOf(kept[1].file.bytes)
      case Base(id, _, _) => IdsOf(w, kept[1..]) + {id}
      case _ => IdsOf(w, kept[1..])
  }

  function FilesOf(kept: seq<Segment>): set<(nat, nat)> {
    if kept == [] then {} else FilesOf(kept[1..]) + {kept[0].file.identity}
  }

  ghost predicate Tracks(w: World, entries: nat, maxBytes: nat, s: Walker) {
    && s.segments != [] && s.read == w.baseOf(s.segments[0].file.bytes)
    && s.budget == LeftBudget(w, s.segments, entries)
    && s.seenIds == IdsOf(w, s.segments) && s.seenFiles == FilesOf(s.segments)
    && TotalBytes(s.segments) + s.remaining == maxBytes
  }

  lemma {:induction false} StartTracks(w: World, own: Rollout, maxBytes: nat, entries: nat)
    ensures Tracks(w, entries, maxBytes, Start(w, own, maxBytes, entries))
  {
    var s := Start(w, own, maxBytes, entries);
    assert s.segments[1..] == [];
    assert FilesOf(s.segments[1..]) == {};
  }

  lemma {:induction false} NextTracks(w: World, entries: nat, maxBytes: nat, s: Walker, parent: Rollout)
    requires Tracks(w, entries, maxBytes, s) && Parent(w, s) == Some(parent)
    ensures Tracks(w, entries, maxBytes, Next(w, s, parent))
  {
    var next := Next(w, s, parent);
    assert next.segments[1..] == s.segments && next.segments[1] == s.segments[0];
  }

  /** The state in which a walk ends. */
  lemma {:induction false} WalkEnds(w: World, entries: nat, maxBytes: nat, s: Walker) returns (end: Walker)
    requires Tracks(w, entries, maxBytes, s)
    ensures Tracks(w, entries, maxBytes, end) && end.segments == Walk(w, s) && Parent(w, end) == None
    decreases MAX_REFERENCED_HISTORY_FILES - |s.segments|
  {
    match Parent(w, s)
    case None => end := s;
    case Some(parent) =>
      NextTracks(w, entries, maxBytes, s, parent);
      end := WalkEnds(w, entries, maxBytes, Next(w, s, parent));
  }

  // ---- the reasons -------------------------------------------------------------------------

  /** The parent does not carry the link to it: it is kept already, shorter than the cutoff,
      without a session_meta, unreadable, or its last record before the cutoff does not carry
      the ordinal just before the end. */
  predicate LinkFails(w: World, kept: seq<Segment>, parent: Rollout, endOrdinal: nat, endByte: nat) {
    || parent.identity in FilesOf(kept) || !parent.checkable || endByte > |parent.bytes|
    || w.baseOf(parent.bytes) == Headless || CutoffOrdinal(w, parent.bytes[..endByte]) != Some(endOrdinal - 1)
  }

  /** The walk goes no further only without a parent to go to, with the byte budget or the
      file limit used up, at a repeated id, where no file is located, or at a link that
      fails. */
  lemma {:induction false} StopsForAReason(w: World, own: Rollout, maxBytes: nat, entries: nat)
    ensures
      var kept := Walk(w, Start(w, own, maxBytes, entries));
      kept != []
      && match w.baseOf(kept[0].file.bytes)
         case Base(id, endOrdinal, endByte) =>
           || TotalBytes(kept) == maxBytes || |kept| >= 4 || id in IdsOf(w, kept)
           || (match w.locate(id, LeftBudget(w, kept, entries)).file
               case None => true
               case Some(parent) => LinkFails(w, kept, parent, endOrdinal, endByte))
         case _ => true
  {
    StartTracks(w, own, maxBytes, entries);
    var end := WalkEnds(w, entries, maxBytes, Start(w, own, maxBytes, entries));
  }
}
