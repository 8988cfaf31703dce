/** Truncated history never over-claims (src/codex-transcript.ts, lines 732-868). */
module HistorySafety {
  import opened Options
  import opened Json
  import opened LiveScan
  import opened HistoryWindow
  import opened HistoryVerdict

  const MAX_LIVE_RESTORATION_WINDOW_BYTES: nat := 64 * 1024 * 1024
  const MAX_ROLLOUT_DIRECTORY_ENTRIES: nat := 20000

  method ReadLiveCodexRestoration(w: World, found: Option<Rollout>, maxBytes: nat, maxDirectoryEntries: nat)
    returns (live: bool)
    ensures live <==>
      found.Some? && found.value.checkable && found.value.readable
      && Verdict(w, Walk(w, Start(w, found.value, maxBytes, maxDirectoryEntries)))
  {
    if found.None? { return false; }
    var own := found.value;
    if !own.checkable { return false; }
    var segments := ResolveHistorySegments(w, own, maxBytes, maxDirectoryEntries);
    KeptIsNewestSuffix(w, own, maxBytes, maxDirectoryEntries);
    var verdict := ScanHistorySegments(w, segments);
    return verdict == Some(true);
  }

  // ---- against the whole history ----------------------------------------------------------

  /** The kept files with their whole ranges. */
  ghost function Unclipped(kept: seq<Segment>): seq<Segment>
    requires kept != []
  {
    [Range(kept[0].file, 0, kept[0].endByte)] + kept[1..]
  }

  lemma OlderRangesClaim(w: World, older: seq<Segment>, newer: seq<Segment>)
    ensures LiveTexts(Texts(w.decode, newer), false, EffectOf(w.parse)) ==> LiveTexts(Texts(w.decode, older + newer), false, EffectOf(w.parse))
  {
    TextsOfConcat(w.decode, older, newer);
    if LiveTexts(Texts(w.decode, newer), false, EffectOf(w.parse)) {
      OlderTextsClaim(Texts(w.decode, older), Texts(w.decode, newer), EffectOf(w.parse));
    }
  }

  lemma UnclippedClaims(w: World, kept: seq<Segment>, oldest: nat)
    requires kept != [] && oldest == OldestReadable(kept, |kept|)
    ensures Verdict(w, kept) ==> LiveTexts(Texts(w.decode, Unclipped(kept)), false, EffectOf(w.parse))
  {
    if oldest > 0 {
      PartUnclipped(w, kept, oldest);
    } else {
      assert ReadableSuffix(kept) == kept;
      WholeUnclipped(w, kept);
    }
  }

  lemma PartUnclipped(w: World, kept: seq<Segment>, oldest: nat)
    requires 0 < oldest <= |kept|
    ensures LiveTexts(Texts(w.decode, kept[oldest..]), false, EffectOf(w.parse))
      ==> LiveTexts(Texts(w.decode, Unclipped(kept)), false, EffectOf(w.parse))
  {
    var whole := Unclipped(kept);
    assert whole[..oldest] + kept[oldest..] == whole by { PartWindowSame(whole, kept, oldest); }
    OlderRangesClaim(w, whole[..oldest], kept[oldest..]);
  }

  lemma WholeUnclipped(w: World, kept: seq<Segment>)
    requires kept != []
    ensures LiveTexts(Texts(w.decode, kept), false, EffectOf(w.parse))
      ==> LiveTexts(Texts(w.decode, Unclipped(kept)), false, EffectOf(w.parse))
  {
    var whole := Unclipped(kept);
    assert whole[0..] == whole;
    WholeWindowClaims(w, whole, kept, 0);
  }

  /** Whatever older history the walk did not keep, could not read or clipped, a live
      verdict holds of the whole history as well. */
  lemma NeverOverclaims(w: World, own: Rollout, maxBytes: nat, maxDirectoryEntries: nat, older: seq<string>)
    ensures
      var kept := Walk(w, Start(w, own, maxBytes, maxDirectoryEntries));
      kept != []
      && (Verdict(w, kept) ==> LiveTexts(older + Texts(w.decode, Unclipped(kept)), false, EffectOf(w.parse)))
  {
    KeptIsNewestSuffix(w, own, maxBytes, maxDirectoryEntries);
    var kept := Walk(w, Start(w, own, maxBytes, maxDirectoryEntries));
    UnclippedClaims(w, kept, OldestReadable(kept, |kept|));
    if Verdict(w, kept) {
      OlderTextsClaim(older, Texts(w.decode, Unclipped(kept)), EffectOf(w.parse));
    }
  }

  // ---- a larger budget ---------------------------------------------------------------------

  lemma {:induction false} WalkKeepsNewer(w: World, s: Walker)
    ensures
      var walked := Walk(w, s);
      |s.segments| <= |walked| && walked[|walked| - |s.segments|..] == s.segments
    decreases MAX_REFERENCED_HISTORY_FILES - |s.segments|
  {
    var parent := Parent(w, s);
    if parent.Some? {
      var next := Next(w, s, parent.value);
      WalkKeepsNewer(w, next);
      assert next.segments[1..] == s.segments;
      var walked := Walk(w, next);
      assert walked[|walked| - |next.segments|..][1..] == walked[|walked| - |s.segments|..];
    }
  }

  lemma KeptHead(w: World, s: Walker)
    requires s.segments != []
    ensures
      var walked := Walk(w, s);
      |s.segments| <= |walked| && walked[|walked| - |s.segments|] == s.segments[0]
      && walked[|walked| - |s.segments| + 1..] == s.segments[1..]
  {
    WalkKeepsNewer(w, s);
    var walked := Walk(w, s);
    var k := |walked| - |s.segments|;
    assert walked[k..][0] == walked[k] && walked[k..][1..] == walked[k + 1..];
  }

  /** Walkers that differ in the byte budget only. */
  predicate Richer(rich: Walker, poor: Walker) {
    poor.segments != [] && poor.remaining <= rich.remaining && rich.(remaining := poor.remaining) == poor
  }

  lemma {:induction false} RicherWalkReachesFurther(w: World, rich: Walker, poor: Walker)
    requires Richer(rich, poor)
    ensures ReachesFurther(Walk(w, rich), Walk(w, poor))
    decreases MAX_REFERENCED_HISTORY_FILES - |poor.segments|, 0
  {
    KeptHead(w, rich);
    var parent := Parent(w, poor);
    if parent.Some? {
      assert Parent(w, rich) == parent;
      KeepRicher(w, Next(w, rich, parent.value), Next(w, poor, parent.value));
    }
  }

  /** After one more range was kept: the poorer walker clipped it and stops, or both kept
      it whole and go on. */
  lemma {:induction false} KeepRicher(w: World, rich: Walker, poor: Walker)
    requires rich.segments != [] && poor.segments != []
    requires rich.segments[1..] == poor.segments[1..]
    requires rich.segments[0].file == poor.segments[0].file && rich.segments[0].endByte == poor.segments[0].endByte
    requires rich.segments[0].start <= poor.segments[0].start
    requires poor.remaining == 0 || Richer(rich, poor)
    ensures ReachesFurther(Walk(w, rich), Walk(w, poor))
    decreases MAX_REFERENCED_HISTORY_FILES - |poor.segments|, 1
  {
    if poor.remaining == 0 {
      KeptHead(w, rich);
    } else {
      RicherWalkReachesFurther(w, rich, poor);
    }
  }

  /** A larger byte budget keeps at least as much and claims at least as much. */
  lemma LargerBudgetClaimsMore(w: World, own: Rollout, maxBytes: nat, more: nat, maxDirectoryEntries: nat)
    requires maxBytes <= more
    ensures
      var poor, rich := Walk(w, Start(w, own, maxBytes, maxDirectoryEntries)), Walk(w, Start(w, own, more, maxDirectoryEntries));
      ReachesFurther(rich, poor) && (Verdict(w, poor) ==> Verdict(w, rich))
  {
    var poor, rich := Start(w, own, maxBytes, maxDirectoryEntries), Start(w, own, more, maxDirectoryEntries);
    KeepRicher(w, rich, poor);
    FurtherClaimsMore(w, Walk(w, rich), Walk(w, poor));
  }
}
