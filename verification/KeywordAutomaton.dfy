/** The on-the-fly keyword automaton of the required-keyword analysis
    (scripts/update-gitleaks-patterns.ts, lines 193-222).

    States are proper keyword prefixes.  Reading a character either lands in a
    longer or shorter prefix, or ends a keyword and disappears into the sink
    (None). */
module KeywordAutomaton {

  import opened Options
  import opened Sequences

  datatype Automaton = Automaton(words: seq<string>, prefixes: set<string>) {
    /** The prefix set is exactly the empty string and every proper prefix of a word. */
    ghost predicate Valid() {
      && (forall k :: k in words ==> k != "")
      && (forall p :: p in prefixes <==> p == "" || IsProperPrefix(words, p))
    }
  }

  /** An automaton whose prefix table is complete. */
  type Machine = a: Automaton | a.Valid() ghost witness Automaton([], {""})

  predicate EndsWithWord(words: seq<string>, t: string) {
    exists i | 0 <= i < |words| :: EndsWith(t, words[i])
  }

  ghost predicate IsProperPrefix(words: seq<string>, p: string) {
    exists k :: k in words && p < k
  }

  /** Some word occurs somewhere in t. */
  ghost predicate ContainsWord(words: seq<string>, t: string) {
    exists n :: 0 <= n <= |t| && EndsWithWord(words, t[..n])
  }

  /** The fallback of a state: drop characters from the front until a prefix is left. */
  function Fallback(prefixes: set<string>, t: string): (r: string)
    requires "" in prefixes
    ensures r in prefixes && EndsWith(t, r)
  {
    if t in prefixes then t else Fallback(prefixes, t[1..])
  }

  function Delta(a: Automaton, state: string, c: char): (r: Option<string>)
    requires "" in a.prefixes
    ensures r.Some? ==> r.value in a.prefixes
  {
    var next := state + [c];
    if EndsWithWord(a.words, next) then None else Some(Fallback(a.prefixes, next))
  }

  function Run(a: Automaton, state: string, w: string): (r: Option<string>)
    requires "" in a.prefixes
    ensures r.Some? && state in a.prefixes ==> r.value in a.prefixes
    decreases |w|
  {
    if w == "" then Some(state)
    else match Delta(a, state, w[0])
      case None => None
      case Some(next) => Run(a, next, w[1..])
  }

  lemma {:induction false} RunConcat(a: Automaton, state: string, u: string, v: string)
    requires "" in a.prefixes
    ensures Run(a, state, u + v) == match Run(a, state, u) case None => None case Some(t) => Run(a, t, v)
    decreases |u|
  {
    if u == "" {
      assert u + v == v;
    } else {
      assert (u + v)[0] == u[0] && (u + v)[1..] == u[1..] + v;
      match Delta(a, state, u[0])
      case None =>
      case Some(next) => RunConcat(a, next, u[1..], v);
    }
  }

  lemma {:induction false} SuffixOfSuffix(t: string, s: string, p: string)
    requires EndsWith(t, s) && EndsWith(t, p) && |p| <= |s|
    ensures EndsWith(s, p)
  {
    assert s[|s| - |p|..] == t[|t| - |s|..][|s| - |p|..] == t[|t| - |p|..];
  }

  /** Fallback finds the longest suffix that is a keyword prefix. */
  lemma {:induction false} FallbackIsLongest(prefixes: set<string>, t: string, p: string)
    requires "" in prefixes && p in prefixes && EndsWith(t, p)
    ensures |p| <= |Fallback(prefixes, t)|
  {
    if t !in prefixes {
      assert |p| < |t|;
      SuffixOfSuffix(t, t[1..], p);
      FallbackIsLongest(prefixes, t[1..], p);
    }
  }

  /** Whether a word ends at t + [c] depends on t only through its fallback. */
  lemma HitStep(a: Machine, t: string, c: char)
    ensures EndsWithWord(a.words, t + [c]) <==> EndsWithWord(a.words, Fallback(a.prefixes, t) + [c])
  {
    assert a.Valid();
    var s := Fallback(a.prefixes, t);
    ShorterSuffix(t, s, c);
    forall i | 0 <= i < |a.words| && EndsWith(t + [c], a.words[i])
      ensures EndsWith(s + [c], a.words[i])
    {
      assert a.words[i] in a.words;
      PrefixStep(a, t, c, a.words[i]);
    }
    forall i | 0 <= i < |a.words| && EndsWith(s + [c], a.words[i])
      ensures EndsWith(t + [c], a.words[i])
    {
      SuffixTrans(t + [c], s + [c], a.words[i]);
    }
  }

  /** So does the next fallback. */
  lemma FallbackStep(a: Machine, t: string, c: char)
    ensures Fallback(a.prefixes, t + [c]) == Fallback(a.prefixes, Fallback(a.prefixes, t) + [c])
  {
    assert a.Valid();
    var s := Fallback(a.prefixes, t);
    ShorterSuffix(t, s, c);
    var long, short := Fallback(a.prefixes, t + [c]), Fallback(a.prefixes, s + [c]);
    SuffixTrans(t + [c], s + [c], short);
    FallbackIsLongest(a.prefixes, t + [c], short);
    if long != "" {
      PrefixStep(a, t, c, long);
    }
    FallbackIsLongest(a.prefixes, s + [c], long);
    SuffixOfSuffix(t + [c], long, short);
  }

  lemma ShorterSuffix(t: string, s: string, c: char)
    requires EndsWith(t, s)
    ensures EndsWith(t + [c], s + [c])
  {
    assert (t + [c])[|t| - |s|..] == t[|t| - |s|..] + [c];
  }

  lemma SuffixTrans(t: string, s: string, p: string)
    requires EndsWith(t, s) && EndsWith(s, p)
    ensures EndsWith(t, p)
  {
    assert t[|t| - |p|..] == t[|t| - |s|..][|s| - |p|..];
  }

  /** A word or a prefix ending at t + [c] already ends at Fallback(t) + [c]. */
  lemma PrefixStep(a: Machine, t: string, c: char, k: string)
    requires k != "" && EndsWith(t + [c], k)
    requires k in a.words || k in a.prefixes
    ensures EndsWith(Fallback(a.prefixes, t) + [c], k)
  {
    assert a.Valid();
    var p := k[..|k| - 1];
    var word :| word in a.words && k <= word;
    assert p < word;
    assert (t + [c])[|t| + 1 - |k|..][..|k| - 1] == t[|t| - |p|..];
    assert EndsWith(t, p);
    assert p in a.prefixes;
    var s := Fallback(a.prefixes, t);
    FallbackIsLongest(a.prefixes, t, p);
    ShorterSuffix(t, s, c);
    SuffixOfSuffix(t + [c], s + [c], k);
  }

  /** The state after a text is the longest suffix that is a proper keyword
      prefix, and the sink is entered exactly when a keyword has ended. */
  lemma {:induction false} RunTracksText(a: Machine, t: string)
    ensures Run(a, "", t) == if ContainsWord(a.words, t) then None else Some(Fallback(a.prefixes, t))
  {
    assert a.Valid();
    if t == "" {
      assert !EndsWithWord(a.words, "") by {
        assert forall i | 0 <= i < |a.words| :: a.words[i] in a.words;
      }
      assert t[..0] == "";
    } else {
      var u, c := t[..|t| - 1], t[|t| - 1];
      assert t == u + [c];
      RunTracksText(a, u);
      RunSnoc(a, "", u, c);
      HitStep(a, u, c);
      FallbackStep(a, u, c);
      ContainsWordStep(a.words, u, c);
    }
  }

  lemma RunSnoc(a: Automaton, state: string, u: string, c: char)
    requires "" in a.prefixes
    ensures Run(a, state, u + [c]) == match Run(a, state, u) case None => None case Some(t) => Delta(a, t, c)
  {
    RunConcat(a, state, u, [c]);
    if Run(a, state, u).Some? {
      var t := Run(a, state, u).value;
      assert Run(a, t, [c]) == Delta(a, t, c) by {
        if Delta(a, t, c).Some? {
          assert [c][1..] == "";
          assert Run(a, Delta(a, t, c).value, "") == Delta(a, t, c);
        }
      }
    }
  }

  lemma ContainsWordStep(words: seq<string>, u: string, c: char)
    ensures ContainsWord(words, u + [c]) <==> ContainsWord(words, u) || EndsWithWord(words, u + [c])
  {
    var t := u + [c];
    if ContainsWord(words, u) {
      var n :| 0 <= n <= |u| && EndsWithWord(words, u[..n]);
      assert t[..n] == u[..n];
    }
    if ContainsWord(words, t) {
      var n :| 0 <= n <= |t| && EndsWithWord(words, t[..n]);
      if n <= |u| { assert t[..n] == u[..n]; } else { assert t[..n] == t; }
    }
    assert t[..|t|] == t;
  }
}
