/** ASCII case folding, and what it means for a text to hold a keyword
    (scripts/update-gitleaks-patterns.ts, lines 35-37 and 193). */
module KeywordFolding {
  import opened Sequences
  import opened AsciiCase
  import opened KeywordAutomaton

  /** The symbol that stands for every non-ASCII character. */
  const OTHER := '\U{0080}'

  predicate IsAscii(c: char) { c as int < 128 }

  predicate AllAscii(s: string) { forall i | 0 <= i < |s| :: IsAscii(s[i]) }

  function Fold(s: string): string { seq(|s|, i requires 0 <= i < |s| => LowerChar(s[i])) }

  /** What the analysis sees of a character: ASCII folded, everything else one symbol. */
  function Abstract(s: string): string {
    seq(|s|, i requires 0 <= i < |s| => if IsAscii(s[i]) then LowerChar(s[i]) else OTHER)
  }

  function FoldAll(keywords: seq<string>): (r: seq<string>)
    ensures |r| == |keywords| && forall i | 0 <= i < |r| :: r[i] == Fold(keywords[i])
  {
    seq(|keywords|, i requires 0 <= i < |keywords| => Fold(keywords[i]))
  }

  predicate OccursAt(k: string, t: string, i: nat) {
    i + |k| <= |t| && t[i..i + |k|] == k
  }

  ghost predicate Occurs(k: string, t: string) {
    exists i: nat :: OccursAt(k, t, i)
  }

  // ---- keywords in a text ----------------------------------------------------

  /** The keyword stands at i in lower case. */
  predicate SpelledAt(keyword: string, w: string, i: nat) {
    i + |keyword| <= |w| && forall x | 0 <= x < |keyword| :: IsLowerOf(w[i + x], keyword[x])
  }

  ghost predicate HoldsKeyword(keywords: seq<string>, w: string) {
    exists m: nat, i: nat | m < |keywords| :: SpelledAt(keywords[m], w, i)
  }

  lemma SpelledIsFolded(keyword: string, w: string, i: nat)
    ensures SpelledAt(keyword, w, i) <==> i + |keyword| <= |w| && EndsWith(w[..i + |keyword|], Fold(keyword))
  {
    if i + |keyword| <= |w| {
      var head := w[..i + |keyword|];
      var tail := head[|head| - |keyword|..];
      assert forall x | 0 <= x < |keyword| :: tail[x] == w[i + x] && Fold(keyword)[x] == LowerChar(keyword[x]);
      if SpelledAt(keyword, w, i) {
        assert tail == Fold(keyword);
      }
      if tail == Fold(keyword) {
        assert forall x | 0 <= x < |keyword| :: w[i + x] == tail[x];
      }
    }
  }

  /** What the folded word list stands for: a text holds one of its words exactly when it
      holds a keyword in lower case. */
  lemma HoldsKeywordIff(keywords: seq<string>, w: string)
    ensures HoldsKeyword(keywords, w) <==> ContainsWord(FoldAll(keywords), w)
  {
    if m: nat, i: nat :| m < |keywords| && SpelledAt(keywords[m], w, i) {
      SpelledIsFolded(keywords[m], w, i);
      assert EndsWith(w[..i + |keywords[m]|], FoldAll(keywords)[m]);
      assert EndsWithWord(FoldAll(keywords), w[..i + |keywords[m]|]);
    }
    if n: nat :| n <= |w| && EndsWithWord(FoldAll(keywords), w[..n]) {
      var m: nat :| m < |keywords| && EndsWith(w[..n], FoldAll(keywords)[m]);
      SpelledIsFolded(keywords[m], w, n - |keywords[m]|);
    }
  }
}
