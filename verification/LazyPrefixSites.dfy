/** Where collapseRedundantLazyPrefixes rewrites a regex, and what that saves
    (scripts/update-gitleaks-patterns.ts, lines 467-486). */
module LazyPrefixSites {
  import opened RegexLanguage
  import opened Sequences
  import opened LazyPrefixCollapse
  import opened LazyPrefixProof

  /** Every site is rewritten, whatever follows its inner prefix, stands beside it in the
      group, quantifies the group or comes after it. */
  lemma SiteIsRewritten(outer: string, inner: string, a: nat, b: nat, rest: seq<Term>, others: seq<Alternative>,
                        q: Quantifier, tail: seq<Term>)
    requires EndsWith(outer, inner)
    ensures Collapse(Site(outer, inner, a, b, rest, others, q, tail))
         == Rewritten(outer, a + b, Collapse(rest), CollapseEach(others), q, Collapse(tail))
  {
    var ts := Site(outer, inner, a, b, rest, others, q, tail);
    var first := ts[1].alternatives[0].terms;
    assert first == [LazyClass(inner, b)] + rest && first[1..] == rest;
    assert ts[1].alternatives[1..] == others && ts[2..] == tail;
  }

  ghost predicate StartsWithSite(ts: seq<Term>) {
    exists outer, inner, a, b, rest, others, q, tail ::
      ts == Site(outer, inner, a, b, rest, others, q, tail) && EndsWith(outer, inner)
  }

  lemma {:induction false} RedundantStartsSite(ts: seq<Term>)
    requires Redundant(ts)
    ensures StartsWithSite(ts)
  {
    var g := ts[1];
    var first := g.alternatives[0].terms;
    var outer, inner, others := ts[0].source, first[0].source, g.alternatives[1..];
    assert first == [LazyClass(inner, first[0].max)] + first[1..];
    assert g == Group(NonCapturing, [Alternative([LazyClass(inner, first[0].max)] + first[1..])] + others, g.quantifier);
    assert ts == Site(outer, inner, ts[0].max, first[0].max, first[1..], others, g.quantifier, ts[2..]);
  }

  /** A term that starts no site passes through, rewritten inside. */
  lemma {:induction false} OtherTermsPass(ts: seq<Term>)
    requires ts != [] && !StartsWithSite(ts)
    ensures Collapse(ts) == [CollapseTerm(ts[0])] + Collapse(ts[1..])
  {
    if Redundant(ts) { RedundantStartsSite(ts); }
  }

  /** The inside of a group of any kind is rewritten alternative by alternative, and nothing
      else of a term changes. */
  lemma InsideIsRewritten(t: Term)
    ensures
      match t
      case Group(kind, alternatives, q) =>
        var t' := CollapseTerm(t);
        && t'.Group? && t'.kind == kind && t'.quantifier == q && |t'.alternatives| == |alternatives|
        && forall i | 0 <= i < |alternatives| :: t'.alternatives[i].terms == Collapse(alternatives[i].terms)
      case _ => CollapseTerm(t) == t
  {
    if t.Group? { EachIsRewritten(t.alternatives); }
  }

  lemma {:induction false} EachIsRewritten(alternatives: seq<Alternative>)
    ensures forall i | 0 <= i < |alternatives| :: CollapseEach(alternatives)[i].terms == Collapse(alternatives[i].terms)
  {
    if alternatives != [] {
      EachIsRewritten(alternatives[1..]);
      forall i | 0 < i < |alternatives|
        ensures CollapseEach(alternatives)[i].terms == Collapse(alternatives[i].terms)
      {
        assert alternatives[1..][i - 1] == alternatives[i];
      }
    }
  }

  function CollapseTerms(ts: seq<Term>): (r: seq<Term>)
    ensures |r| == |ts|
  {
    if ts == [] then [] else [CollapseTerm(ts[0])] + CollapseTerms(ts[1..])
  }

  /** A site is rewritten at any position, after terms that start no site themselves. */
  lemma {:induction false} SiteIsRewrittenAfter(before: seq<Term>, outer: string, inner: string, a: nat, b: nat,
                             rest: seq<Term>, others: seq<Alternative>, q: Quantifier, tail: seq<Term>)
    requires EndsWith(outer, inner)
    requires
      var site := Site(outer, inner, a, b, rest, others, q, tail);
      forall i | 0 <= i < |before| :: !StartsWithSite(before[i..] + site)
    ensures Collapse(before + Site(outer, inner, a, b, rest, others, q, tail))
         == CollapseTerms(before) + Rewritten(outer, a + b, Collapse(rest), CollapseEach(others), q, Collapse(tail))
    decreases |before|
  {
    var site := Site(outer, inner, a, b, rest, others, q, tail);
    SiteIsRewritten(outer, inner, a, b, rest, others, q, tail);
    if before == [] {
      assert before + site == site;
    } else {
      assert before[0..] == before;
      OtherTermsPass(before + site);
      assert (before + site)[1..] == before[1..] + site;
      forall i | 0 <= i < |before[1..]| ensures !StartsWithSite(before[1..][i..] + site) {
        assert before[1..][i..] == before[i + 1..];
      }
      SiteIsRewrittenAfter(before[1..], outer, inner, a, b, rest, others, q, tail);
    }
  }

  /** The states the group is tried from, by the prefix before it and the one that opens it. */
  function Attempts(env: Env, site: seq<Term>, s: State): seq<State>
    requires |site| >= 2 && site[1].Group? && site[1].alternatives != []
  {
    var body, starts := site[1].alternatives[0].terms, TermOut(env, site[0], s);
    if body != [] && body[0].LazyClass? then NestedOut(env, body[0].source, body[0].max, starts) else starts
  }

  /** A rewritten site whose rest opens with no prefix itself makes at most A+B+1 attempts
      where it made up to (A+1)(B+1), and inside a run of the class exactly so many. */
  lemma AttemptsDrop(env: Env, outer: string, inner: string, a: nat, b: nat, rest: seq<Term>, others: seq<Alternative>,
                     q: Quantifier, tail: seq<Term>, s: State)
    requires EndsWith(outer, inner) && (Collapse(rest) == [] || !Collapse(rest)[0].LazyClass?)
    ensures
      var site := Site(outer, inner, a, b, rest, others, q, tail);
      && |Attempts(env, site, s)| <= (a + 1) * (b + 1)
      && |Attempts(env, Collapse(site), s)| <= a + b + 1
      && (InRun(env, outer, s.pos, a + b) && SameClass(env.inClass, outer, inner) ==>
            |Attempts(env, site, s)| == (a + 1) * (b + 1) && |Attempts(env, Collapse(site), s)| == a + b + 1)
  {
    SiteIsRewritten(outer, inner, a, b, rest, others, q, tail);
    var site := Site(outer, inner, a, b, rest, others, q, tail);
    var starts := LazyOut(env, outer, a, s);
    NestedAttempts(env, inner, b, starts);
    AtMost(|starts|, a + 1, b + 1);
    assert site[1].alternatives[0].terms[0] == LazyClass(inner, b);
    assert Collapse(site)[1].alternatives[0].terms == Collapse(rest);
    if InRun(env, outer, s.pos, a + b) && SameClass(env.inClass, outer, inner) {
      SameClassNested(env, outer, inner, b, starts);
      AttemptCounts(env, outer, a, b, s);
    }
  }

  lemma AtMost(n: nat, m: nat, k: nat)
    requires n <= m
    ensures n * k <= m * k
  {
  }
}
