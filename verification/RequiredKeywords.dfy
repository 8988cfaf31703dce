/** The whole analysis of one rule, and what its verdict means for a text:
    analyzeRequiredKeywords (scripts/update-gitleaks-patterns.ts, lines 182-260)
    and the prefilter that relies on it (src/scrub.ts, lines 608-618). */
module RequiredKeywords {
  import opened Options
  import opened KeywordAutomaton
  import opened KeywordFolding
  import opened AsciiCase
  import opened RegexLanguage
  import opened AnalysisWork
  import opened KeywordAnalysis
  import opened Sequences

  datatype Verdict = Verified | MayOmit | Unknown(reason: string)

  predicate SupportedKeywords(keywords: seq<string>) {
    && 0 < |keywords| <= MAX_KEYWORDS
    && forall k | k in keywords :: k != "" && AllAscii(k)
  }

  // ---- the automaton of a keyword list --------------------------------------

  ghost function ProperPrefixes(words: seq<string>): set<string> {
    {""} + set k, n | k in words && 0 <= n < |k| :: k[..n]
  }

  lemma PrefixCount(words: seq<string>, k: string)
    requires k in words
    ensures |k| <= |ProperPrefixes(words)|
  {
    PrefixSetSize(k, |k|);
    SubsetSize(set n | 0 <= n < |k| :: k[..n], ProperPrefixes(words));
  }

  lemma {:induction false} PrefixSetSize(k: string, m: nat)
    requires m <= |k|
    ensures |set n | 0 <= n < m :: k[..n]| == m
  {
    var all := set n | 0 <= n < m :: k[..n];
    if m == 0 {
      assert all == {};
    } else {
      var fewer := set n | 0 <= n < m - 1 :: k[..n];
      PrefixSetSize(k, m - 1);
      assert forall p | p in fewer :: |p| < m - 1;
      assert k[..m - 1] !in fewer;
      assert all == fewer + {k[..m - 1]};
    }
  }

  lemma {:induction false} SubsetSize<T>(s: set<T>, t: set<T>)
    requires s <= t
    ensures |s| <= |t|
  {
    assert t == s + (t - s);
    assert |s + (t - s)| == |s| + |t - s|;
  }

  /** The prefix table, or no automaton exactly when it would have too many states. */
  method BuildAutomaton(words: seq<string>) returns (r: Outcome<Automaton>)
    requires forall k | k in words :: k != ""
    ensures r.Done? ==> r.value.Valid() && r.value == Automaton(words, ProperPrefixes(words))
    ensures r.Done? <==> |ProperPrefixes(words)| <= MAX_STATES
  {
    var prefixes: set<string> := {""};
    for i := 0 to |words|
      invariant prefixes == ProperPrefixes(words[..i])
      invariant |prefixes| <= MAX_STATES
    {
      var word := words[i];
      ExtendPrefixes(words, i);
      if |word| > MAX_STATES {
        PrefixCount(words, word);
        return Unsupported("keyword length limit");
      }
      var extended := AddPrefixes(prefixes, word);
      if extended.Unsupported? {
        return Unsupported(extended.reason);
      }
      prefixes := extended.value;
    }
    assert words[..|words|] == words;
    PrefixesAreProper(words);
    return Done(Automaton(words, prefixes));
  }

  lemma ExtendPrefixes(words: seq<string>, i: nat)
    requires i < |words|
    ensures ProperPrefixes(words[..i + 1])
         == ProperPrefixes(words[..i]) + set n | 0 <= n < |words[i]| :: words[i][..n]
    ensures |ProperPrefixes(words[..i + 1])| <= |ProperPrefixes(words)|
  {
    assert words[..i + 1] == words[..i] + [words[i]];
    SubsetSize(ProperPrefixes(words[..i + 1]), ProperPrefixes(words));
  }

  lemma PrefixesAreProper(words: seq<string>)
    requires forall k | k in words :: k != ""
    ensures Automaton(words, ProperPrefixes(words)).Valid()
  {
    forall p | p == "" || IsProperPrefix(words, p) ensures p in ProperPrefixes(words) {
      if p != "" {
        var k :| k in words && p < k;
        assert k[..|p|] == p;
      }
    }
    forall p | p in ProperPrefixes(words) && p != "" ensures IsProperPrefix(words, p) {
      var k, n :| k in words && 0 <= n < |k| && k[..n] == p;
      assert p < k;
    }
  }

  method AddPrefixes(prefixes: set<string>, word: string) returns (r: Outcome<set<string>>)
    requires "" in prefixes && |prefixes| <= MAX_STATES
    ensures
      var all := prefixes + set n | 0 <= n < |word| :: word[..n];
      if |all| <= MAX_STATES then r == Done(all) else r.Unsupported?
  {
    var result := prefixes;
    ghost var all := prefixes + set n | 0 <= n < |word| :: word[..n];
    if word == "" {
      assert all == prefixes;
      return Done(result);
    }
    assert word[..0] == "";
    for end := 1 to |word|
      invariant |result| <= MAX_STATES
      invariant result == prefixes + set n | 0 <= n < end :: word[..n]
    {
      result := result + {word[..end]};
      if |result| > MAX_STATES {
        SubsetSize(result, all);
        return Unsupported("automaton state limit");
      }
    }
    return Done(result);
  }

  function WithoutRepeats(words: seq<string>): (r: seq<string>)
    ensures forall k :: k in r <==> k in words
  {
    if words == [] then []
    else
      var init := words[..|words| - 1];
      var last := words[|words| - 1];
      assert words == init + [last];
      if last in init then WithoutRepeats(init) else WithoutRepeats(init) + [last]
  }

  // ---- the analysis ---------------------------------------------------------

  /** The automaton of a keyword list. */
  ghost function AutomatonOf(keywords: seq<string>): Automaton {
    Automaton(WithoutRepeats(FoldAll(keywords)), ProperPrefixes(FoldAll(keywords)))
  }

  /** The limits of the analysis: supported keywords, the states of their automaton, and
      the work the tree takes on it. */
  ghost predicate WithinLimits(root: Node, keywords: seq<string>) {
    && SupportedKeywords(keywords)
    && |AutomatonOf(keywords).prefixes| <= MAX_STATES
    && Work(AutomatonOf(keywords), root, {""}) <= MAX_WORK
  }

  /** A verdict is given exactly within the limits.  Verified means every word of the
      language holds a keyword in lower case, MayOmit that some word holds none. */
  method Analyze(root: Node, keywords: seq<string>) returns (v: Verdict)
    requires root.WellFormed()
    ensures v.Unknown? <==> !WithinLimits(root, keywords)
    ensures v == Verified ==> forall w | w in Lang(root) :: HoldsKeyword(keywords, w)
    ensures v == MayOmit ==> exists w :: w in Lang(root) && !HoldsKeyword(keywords, w)
  {
    if |keywords| == 0 || |keywords| > MAX_KEYWORDS {
      return Unknown("keyword count limit");
    }
    if exists k | k in keywords :: k == "" || !AllAscii(k) {
      return Unknown("keywords must be nonempty ASCII strings");
    }
    FoldedSupport(keywords);
    var words := WithoutRepeats(FoldAll(keywords));
    var built := BuildAutomaton(words);
    SamePrefixes(words, FoldAll(keywords));
    if built.Unsupported? {
      return Unknown(built.reason);
    }
    var analyzer := new Analyzer(built.value);
    var final := analyzer.Evaluate(root, {""});
    if final.Unsupported? {
      return Unknown(final.reason);
    }
    EmptyImageMeansRequired(built.value, Lang(root));
    forall w ensures ContainsWord(words, w) <==> HoldsKeyword(keywords, w) {
      HoldsKeywordIff(keywords, w);
      SameWords(words, FoldAll(keywords), w);
      SameWords(FoldAll(keywords), words, w);
    }
    v := if final.value == {} then Verified else MayOmit;
  }

  /** A keyword in any spelling is required by the tree of its lower-case text. */
  lemma SpellingIsRequired(k: string, spelling: string)
    requires k != "" && AllAscii(k) && IsSpellingOf(spelling, k)
    ensures SupportedKeywords([spelling]) && ContainsWord(FoldAll([spelling]), k)
    ensures forall w | w in Lang(Spell(k)) :: HoldsKeyword([spelling], w)
  {
    assert SpelledAt([spelling][0], k, 0);
    HoldsKeywordIff([spelling], k);
    LangOfSpell(k);
  }

  /** The tree that spells a text, character by character. */
  function Spell(text: string): Node {
    Sequence(seq(|text|, i requires 0 <= i < |text| => Chars([text[i]])))
  }

  lemma {:induction false} LangOfSpell(text: string)
    ensures Lang(Spell(text)) == iset{text}
    decreases |text|
  {
    var children := Spell(text).children;
    if text != "" {
      LangOfSpell(text[1..]);
      assert children[1..] == Spell(text[1..]).children;
      assert Lang(children[0]) == iset{[text[0]]};
      CatenationOfSingles([text[0]], text[1..]);
      assert [text[0]] + text[1..] == text;
    }
  }

  lemma CatenationOfSingles(a: string, b: string)
    ensures Catenation(iset{a}, iset{b}) == iset{a + b}
  {
    assert (a + b)[..|a|] == a && (a + b)[|a|..] == b;
    forall w | w in Catenation(iset{a}, iset{b}) ensures w == a + b {
      var k :| 0 <= k <= |w| && w[..k] in iset{a} && w[k..] in iset{b};
      assert w[..k] + w[k..] == w;
    }
  }

  lemma FoldedSupport(keywords: seq<string>)
    requires SupportedKeywords(keywords)
    ensures forall k | k in FoldAll(keywords) :: k != "" && AllAscii(k)
  {
    forall m | 0 <= m < |keywords| ensures FoldAll(keywords)[m] != "" && AllAscii(FoldAll(keywords)[m]) {
      assert keywords[m] in keywords;
    }
  }

  lemma SamePrefixes(words: seq<string>, words': seq<string>)
    requires forall k :: k in words <==> k in words'
    ensures ProperPrefixes(words) == ProperPrefixes(words')
  {}

  lemma SameWords(words: seq<string>, words': seq<string>, w: string)
    requires forall k :: k in words ==> k in words'
    ensures ContainsWord(words, w) ==> ContainsWord(words', w)
  {
    if n :| 0 <= n <= |w| && EndsWithWord(words, w[..n]) {
      var i :| 0 <= i < |words| && EndsWith(w[..n], words[i]);
      assert words[i] in words';
      var j :| 0 <= j < |words'| && words'[j] == words[i];
      assert EndsWithWord(words', w[..n]);
    }
  }

  /** No state survives exactly when no word of the language avoids all keywords. */
  lemma EmptyImageMeansRequired(a: Automaton, l: Language)
    requires a.Valid()
    ensures Image(a, l, {""}) == {} <==> forall w | w in l :: ContainsWord(a.words, w)
  {
    forall w | w in l ensures ContainsWord(a.words, w) || Image(a, l, {""}) != {} {
      RunTracksText(a, w);
      if !ContainsWord(a.words, w) {
        var t := Fallback(a.prefixes, w);
        assert Reaches(a, l, "", t);
        assert t in Image(a, l, {""});
      }
    }
    if t :| t in Image(a, l, {""}) {
      assert Reaches(a, l, "", t);
      var w :| w in l && Run(a, "", w) == Some(t);
      RunTracksText(a, w);
    }
  }

  // ---- what a verdict means for a text ---------------------------------------

  /** A keyword found in the abstraction of a piece of text is in the folded text. */
  lemma AbstractOccurrence(words: seq<string>, text: string, i: nat, j: nat)
    requires i <= j <= |text| && ContainsWord(words, Abstract(text[i..j]))
    requires forall k | k in words :: AllAscii(k)
    ensures exists k :: k in words && Occurs(k, Fold(text))
  {
    var piece := Abstract(text[i..j]);
    var n :| 0 <= n <= |piece| && EndsWithWord(words, piece[..n]);
    var m :| 0 <= m < |words| && EndsWith(piece[..n], words[m]);
    var k := words[m];
    assert k in words;
    var at := i + n - |k|;
    forall x | 0 <= x < |k| ensures Fold(text)[at + x] == k[x] {
      assert k[x] == piece[..n][n - |k|..][x] == piece[n - |k| + x];
      assert text[i..j][n - |k| + x] == text[at + x];
    }
    assert OccursAt(k, Fold(text), at);
  }

  /** String.toLowerCase, known only on ASCII characters. */
  ghost predicate LowersAscii(lower: char -> string) {
    forall c :: IsAscii(c) ==> |lower(c)| == 1 && IsLowerOf(lower(c)[0], c)
  }

  function Lowered(text: string, lower: char -> string): string {
    if text == "" then "" else lower(text[0]) + Lowered(text[1..], lower)
  }

  lemma {:induction false} LoweredConcat(a: string, b: string, lower: char -> string)
    ensures Lowered(a + b, lower) == Lowered(a, lower) + Lowered(b, lower)
  {
    if a == "" {
      assert a + b == b;
    } else {
      assert (a + b)[0] == a[0] && (a + b)[1..] == a[1..] + b;
      LoweredConcat(a[1..], b, lower);
    }
  }

  lemma {:induction false} LoweredAscii(k: string, lower: char -> string)
    requires LowersAscii(lower) && AllAscii(k)
    ensures Lowered(k, lower) == Fold(k)
  {
    if k != "" {
      LoweredAscii(k[1..], lower);
      assert lower(k[0]) == [LowerChar(k[0])];
      assert Fold(k) == [LowerChar(k[0])] + Fold(k[1..]);
    }
  }

  lemma FoldedPiece(k: string, piece: string)
    requires AllAscii(k) && |piece| == |k| && Fold(piece) == k
    ensures AllAscii(piece)
  {
    forall x | 0 <= x < |piece| ensures IsAscii(piece[x]) {
      assert k[x] == LowerChar(piece[x]);
    }
  }

  lemma LoweredAround(a: string, b: string, c: string, lower: char -> string)
    ensures Lowered(a + (b + c), lower) == Lowered(a, lower) + (Lowered(b, lower) + Lowered(c, lower))
  {
    LoweredConcat(a, b + c, lower);
    LoweredConcat(b, c, lower);
  }

  lemma PieceOccurs(k: string, before: string, after: string)
    ensures Occurs(k, before + (k + after))
  {
    assert OccursAt(k, before + (k + after), |before|);
  }

  lemma OccurrenceSurvivesLowering(k: string, text: string, lower: char -> string)
    requires LowersAscii(lower) && AllAscii(k) && Occurs(k, Fold(text))
    ensures Occurs(k, Lowered(text, lower))
  {
    var i: nat :| OccursAt(k, Fold(text), i);
    var before, piece, after := text[..i], text[i..i + |k|], text[i + |k|..];
    assert Fold(piece) == Fold(text)[i..i + |k|];
    FoldedPiece(k, piece);
    assert Lowered(piece, lower) == k by { LoweredAscii(piece, lower); }
    assert text == before + (piece + after);
    LoweredAround(before, piece, after, lower);
    PieceOccurs(k, Lowered(before, lower), Lowered(after, lower));
  }

  /** The prefilter skips a pattern when no keyword occurs in the lowered text. */
  ghost predicate Skips(keywords: seq<string>, text: string, lower: char -> string) {
    forall k | k in keywords :: !Occurs(Lowered(k, lower), Lowered(text, lower))
  }

  /** Under a Verified verdict the prefilter never skips a text in which some
      substring belongs to the analysed language. */
  lemma PrefilterNeverSkipsAMatch(
      root: Node, keywords: seq<string>, text: string, i: nat, j: nat, lower: char -> string)
    requires SupportedKeywords(keywords) && LowersAscii(lower)
    requires forall w | w in Lang(root) :: HoldsKeyword(keywords, w)
    requires i <= j <= |text| && Abstract(text[i..j]) in Lang(root)
    ensures !Skips(keywords, text, lower)
  {
    var words := FoldAll(keywords);
    FoldedSupport(keywords);
    HoldsKeywordIff(keywords, Abstract(text[i..j]));
    AbstractOccurrence(words, text, i, j);
    var k :| k in words && Occurs(k, Fold(text));
    var m :| 0 <= m < |words| && words[m] == k;
    var keyword := keywords[m];
    assert keyword in keywords;
    LoweredAscii(keyword, lower);
    OccurrenceSurvivesLowering(k, text, lower);
  }
}
