/** The rewrite of LazyPrefixCollapse keeps every match and its backtracking
    order exactly where Safe holds. */
module LazyPrefixProof {
  import opened OrderedOutcomes
  import opened RegexLanguage
  import opened LazyPrefixCollapse

  // ---- one lazy prefix --------------------------------------------------------

  /** Every state reachable through an outer and then an inner prefix, in order. */
  function NestedOut(env: Env, source: string, b: nat, states: seq<State>): seq<State>
    decreases |states|
  {
    if states == [] then [] else LazyOut(env, source, b, states[0]) + NestedOut(env, source, b, states[1..])
  }

  lemma {:induction false} LazyPrefixOf(env: Env, source: string, b: nat, c: nat, s: State)
    requires b <= c
    ensures LazyOut(env, source, b, s) <= LazyOut(env, source, c, s)
  {
    if b > 0 && s.pos < |env.text| && env.inClass(source, env.text[s.pos]) {
      LazyPrefixOf(env, source, b - 1, c - 1, s.(pos := s.pos + 1));
    }
  }

  lemma PrefixTriedAgain(s: State, p: seq<State>, nested: seq<State>, y: seq<State>)
    requires p <= y && Same(nested, y)
    ensures Same(([s] + p) + nested, [s] + y)
  {
    assert p + y[|p|..] == y;
    TriedAgain([s], p, y[|p|..]);
    SameConcat([s] + p, [s] + p, nested, y);
  }

  /** After s itself a lazy prefix tries states that a longer one tries from t on. */
  lemma FirstTries(env: Env, source: string, b: nat, c: nat, s: State, t: State) returns (p: seq<State>)
    requires b <= c + 1 && s.pos < |env.text| && env.inClass(source, env.text[s.pos]) && t == s.(pos := s.pos + 1)
    ensures LazyOut(env, source, b, s) == [s] + p && p <= LazyOut(env, source, c, t)
  {
    p := if b > 0 then LazyOut(env, source, b - 1, t) else [];
    if b > 0 { LazyPrefixOf(env, source, b - 1, c, t); }
  }

  /** X{0,A}?X{0,B}? tries the same states in the same first-occurrence order as X{0,A+B}?. */
  lemma {:induction false} SplitPrefix(env: Env, source: string, a: nat, b: nat, s: State)
    ensures Same(NestedOut(env, source, b, LazyOut(env, source, a, s)), LazyOut(env, source, a + b, s))
    decreases a
  {
    var outer := LazyOut(env, source, a, s);
    assert outer[0] == s;
    if a > 0 && s.pos < |env.text| && env.inClass(source, env.text[s.pos]) {
      var t := s.(pos := s.pos + 1);
      var nested := NestedOut(env, source, b, LazyOut(env, source, a - 1, t));
      var y := LazyOut(env, source, a - 1 + b, t);
      SplitPrefix(env, source, a - 1, b, t);
      var p := FirstTries(env, source, b, a - 1 + b, s, t);
      assert outer[1..] == LazyOut(env, source, a - 1, t);
      PrefixTriedAgain(s, p, nested, y);
    } else {
      assert outer == [s] && outer[1..] == [];
      assert NestedOut(env, source, b, outer) == LazyOut(env, source, b, s);
    }
  }

  /** The attempts drop from up to (A+1)(B+1) to at most A+B+1. */
  lemma {:induction false} NestedAttempts(env: Env, source: string, b: nat, states: seq<State>)
    ensures |NestedOut(env, source, b, states)| <= |states| * (b + 1)
    decreases |states|
  {
    if states != [] {
      NestedAttempts(env, source, b, states[1..]);
      OneMore(|states|, b + 1);
    }
  }

  lemma OneMore(n: nat, m: nat)
    requires n > 0
    ensures n * m == (n - 1) * m + m
  {
  }

  ghost predicate InRun(env: Env, source: string, from: nat, count: nat) {
    from + count <= |env.text| && forall i | from <= i < from + count :: env.inClass(source, env.text[i])
  }

  lemma {:induction false} LazyInRun(env: Env, source: string, max: nat, s: State)
    requires InRun(env, source, s.pos, max)
    ensures |LazyOut(env, source, max, s)| == max + 1
    ensures forall i | 0 <= i <= max :: LazyOut(env, source, max, s)[i] == s.(pos := s.pos + i)
    decreases max
  {
    if max > 0 { LazyInRun(env, source, max - 1, s.(pos := s.pos + 1)); }
  }

  /** Inside a run of the class both bounds are attained. */
  lemma AttemptCounts(env: Env, source: string, a: nat, b: nat, s: State)
    requires InRun(env, source, s.pos, a + b)
    ensures |NestedOut(env, source, b, LazyOut(env, source, a, s))| == (a + 1) * (b + 1)
    ensures |LazyOut(env, source, a + b, s)| == a + b + 1
  {
    LazyInRun(env, source, a + b, s);
    LazyInRun(env, source, a, s);
    var outer := LazyOut(env, source, a, s);
    forall i | 0 <= i < |outer| ensures |LazyOut(env, source, b, outer[i])| == b + 1 {
      LazyInRun(env, source, b, outer[i]);
    }
    NestedCount(env, source, b, outer);
  }

  lemma {:induction false} NestedCount(env: Env, source: string, b: nat, states: seq<State>)
    requires forall i | 0 <= i < |states| :: |LazyOut(env, source, b, states[i])| == b + 1
    ensures |NestedOut(env, source, b, states)| == |states| * (b + 1)
    decreases |states|
  {
    if states != [] {
      assert forall i | 0 <= i < |states| - 1 :: states[1..][i] == states[i + 1];
      NestedCount(env, source, b, states[1..]);
      OneMore(|states|, b + 1);
    }
  }

  // ---- congruence ---------------------------------------------------------------

  lemma {:induction false} ThenIsFlatMap(env: Env, ts: seq<Term>, states: seq<State>, f: State -> seq<State>)
    requires forall o :: f(o) == SequenceOut(env, ts, o)
    ensures Then(env, ts, states) == FlatMap(states, f)
    decreases |states|
  {
    if states != [] { ThenIsFlatMap(env, ts, states[1..], f); }
  }

  lemma ThenSame(env: Env, ts: seq<Term>, ts': seq<Term>, states: seq<State>, states': seq<State>)
    requires Same(states, states')
    requires forall o :: Same(SequenceOut(env, ts, o), SequenceOut(env, ts', o))
    ensures Same(Then(env, ts, states), Then(env, ts', states'))
  {
    var f := (o: State) => SequenceOut(env, ts, o);
    var g := (o: State) => SequenceOut(env, ts', o);
    ThenIsFlatMap(env, ts, states, f);
    ThenIsFlatMap(env, ts', states', g);
    FlatMapSame(states, states', f, g);
  }

  function Record(kind: Kind, start: State, o: State): State {
    if kind.NonCapturing? then o else o.(captures := o.captures[kind.index := (start.pos, o.pos)])
  }

  lemma {:induction false} CapturedIsFlatMap(kind: Kind, start: State, outs: seq<State>, f: State -> seq<State>)
    requires forall o :: f(o) == [Record(kind, start, o)]
    ensures Captured(kind, start, outs) == FlatMap(outs, f)
    decreases |outs|
  {
    if outs != [] {
      CapturedIsFlatMap(kind, start, outs[1..], f);
      assert kind.NonCapturing? ==> outs == [outs[0]] + outs[1..];
    }
  }

  lemma CapturedSame(kind: Kind, start: State, outs: seq<State>, outs': seq<State>)
    requires Same(outs, outs')
    ensures Same(Captured(kind, start, outs), Captured(kind, start, outs'))
  {
    var f := (o: State) => [Record(kind, start, o)];
    CapturedIsFlatMap(kind, start, outs, f);
    CapturedIsFlatMap(kind, start, outs', f);
    FlatMapSame(outs, outs', f, f);
  }

  /** What follows one iteration that ended in y. */
  function Iteration(env: Env, kind: Kind, alts: seq<Alternative>,
                     min: nat, max: Bound, greedy: bool, clears: set<nat>, x: State, y: State): seq<State>
    requires max != Finite(0)
  {
    if min == 0 && !(x.pos < y.pos <= |env.text|) then []
    else RepeatOut(env, kind, alts, if min == 0 then 0 else min - 1, Less(max), greedy, clears, y)
  }

  lemma {:induction false} ThenRepeatIsFlatMap(env: Env, kind: Kind, alts: seq<Alternative>,
      min: nat, max: Bound, greedy: bool, clears: set<nat>, x: State, body: seq<State>, f: State -> seq<State>)
    requires max != Finite(0)
    requires forall y :: f(y) == Iteration(env, kind, alts, min, max, greedy, clears, x, y)
    ensures ThenRepeat(env, kind, alts, min, max, greedy, clears, x, body) == FlatMap(body, f)
    decreases |body|
  {
    if body != [] {
      ThenRepeatIsFlatMap(env, kind, alts, min, max, greedy, clears, x, body[1..], f);
      assert f(body[0]) == Iteration(env, kind, alts, min, max, greedy, clears, x, body[0]);
    }
  }

  ghost predicate SameAlternatives(env: Env, alts: seq<Alternative>, alts': seq<Alternative>) {
    forall o :: Same(AlternativesOut(env, alts, o), AlternativesOut(env, alts', o))
  }

  /** Replacing a quantified body by an equivalent one keeps every repetition. */
  lemma {:induction false} RepeatSame(env: Env, kind: Kind, alts: seq<Alternative>, alts': seq<Alternative>,
      min: nat, max: Bound, greedy: bool, clears: set<nat>, x: State)
    requires SameAlternatives(env, alts, alts')
    ensures Same(RepeatOut(env, kind, alts, min, max, greedy, clears, x),
                 RepeatOut(env, kind, alts', min, max, greedy, clears, x))
    decreases min, Rest(env, x)
  {
    if max != Finite(0) {
      var x' := x.(captures := x.captures - clears);
      var body, body' := AlternativesOut(env, alts, x'), AlternativesOut(env, alts', x');
      CapturedSame(kind, x, body, body');
      var outs, outs' := Captured(kind, x, body), Captured(kind, x, body');
      var f := (y: State) => Iteration(env, kind, alts, min, max, greedy, clears, x, y);
      var g := (y: State) => Iteration(env, kind, alts', min, max, greedy, clears, x, y);
      ThenRepeatIsFlatMap(env, kind, alts, min, max, greedy, clears, x, outs, f);
      ThenRepeatIsFlatMap(env, kind, alts', min, max, greedy, clears, x, outs', g);
      forall y | y in outs ensures Same(f(y), g(y)) {
        if !(min == 0 && !(x.pos < y.pos <= |env.text|)) {
          RepeatSame(env, kind, alts, alts', if min == 0 then 0 else min - 1, Less(max), greedy, clears, y);
        }
      }
      FlatMapSame(outs, outs', f, g);
      SameConcat(FlatMap(outs, f), FlatMap(outs', g), [x], [x]);
      SameConcat([x], [x], FlatMap(outs, f), FlatMap(outs', g));
    }
  }

  lemma GroupSame(env: Env, kind: Kind, alts: seq<Alternative>, alts': seq<Alternative>, q: Quantifier, s: State)
    requires SameAlternatives(env, alts, alts')
    ensures Same(TermOut(env, Group(kind, alts, q), s), TermOut(env, Group(kind, alts', q), s))
  {
    match q
    case Once => CapturedSame(kind, s, AlternativesOut(env, alts, s), AlternativesOut(env, alts', s));
    case Times(min, max, greedy, clears) => RepeatSame(env, kind, alts, alts', min, max, greedy, clears, s);
  }

  // ---- one rewritten site -----------------------------------------------------

  function Clear(q: Quantifier, s: State): State {
    if q.Once? then s else s.(captures := s.captures - q.clears)
  }

  function ClearAll(q: Quantifier, states: seq<State>): (r: seq<State>)
    ensures |r| == |states|
  {
    if states == [] then [] else [Clear(q, states[0])] + ClearAll(q, states[1..])
  }

  lemma {:induction false} ClearLazy(env: Env, source: string, max: nat, q: Quantifier, s: State)
    ensures ClearAll(q, LazyOut(env, source, max, s)) == LazyOut(env, source, max, Clear(q, s))
    decreases max
  {
    if max > 0 && s.pos < |env.text| && env.inClass(source, env.text[s.pos]) {
      ClearLazy(env, source, max - 1, q, s.(pos := s.pos + 1));
    }
  }

  lemma {:induction false} ThenConcat(env: Env, ts: seq<Term>, xs: seq<State>, ys: seq<State>)
    ensures Then(env, ts, xs + ys) == Then(env, ts, xs) + Then(env, ts, ys)
    decreases |xs|
  {
    if xs == [] {
      assert xs + ys == ys;
    } else {
      assert (xs + ys)[0] == xs[0] && (xs + ys)[1..] == xs[1..] + ys;
      ThenConcat(env, ts, xs[1..], ys);
    }
  }

  lemma ThenSingle(env: Env, ts: seq<Term>, s: State)
    ensures Then(env, ts, [s]) == SequenceOut(env, ts, s)
  {
    assert [s][1..] == [];
    assert Then(env, ts, [s]) == SequenceOut(env, ts, s) + Then(env, ts, []);
  }

  lemma {:induction false} ThenNothing(env: Env, states: seq<State>)
    ensures Then(env, [], states) == states
    decreases |states|
  {
    if states != [] {
      ThenNothing(env, states[1..]);
      assert states == [states[0]] + states[1..];
    }
  }

  /** A group that runs exactly once is its body. */
  lemma OnceGroup(env: Env, body: seq<Term>, q: Quantifier, s: State)
    requires RunsOnce(q)
    ensures TermOut(env, Group(NonCapturing, [Alternative(body)], q), s) == SequenceOut(env, body, Clear(q, s))
  {
    var alts := [Alternative(body)];
    var x := Clear(q, s);
    var outs := SequenceOut(env, body, x);
    assert alts[1..] == [];
    assert AlternativesOut(env, alts, x) == outs + AlternativesOut(env, [], x) == outs;
    if q.Times? {
      OnceRepeat(env, alts, q.greedy, q.clears, s, outs);
    }
  }

  lemma {:induction false} OnceRepeat(env: Env, alts: seq<Alternative>, greedy: bool, clears: set<nat>, x: State,
                                      body: seq<State>)
    ensures ThenRepeat(env, NonCapturing, alts, 1, Finite(1), greedy, clears, x, body) == body
    decreases |body|
  {
    if body != [] {
      OnceRepeat(env, alts, greedy, clears, x, body[1..]);
      assert body == [body[0]] + body[1..];
      assert RepeatOut(env, NonCapturing, alts, 0, Finite(0), greedy, clears, body[0]) == [body[0]];
    }
  }

  function Site(outer: string, inner: string, a: nat, b: nat, rest: seq<Term>, others: seq<Alternative>,
                q: Quantifier, tail: seq<Term>): seq<Term> {
    [LazyClass(outer, a), Group(NonCapturing, [Alternative([LazyClass(inner, b)] + rest)] + others, q)] + tail
  }

  function Rewritten(outer: string, max: nat, rest: seq<Term>, others: seq<Alternative>,
                     q: Quantifier, tail: seq<Term>): seq<Term> {
    [LazyClass(outer, max), Group(NonCapturing, [Alternative(rest)] + others, q)] + tail
  }

  lemma SiteOut(env: Env, source: string, max: nat, g: Term, tail: seq<Term>, s: State)
    ensures SequenceOut(env, [LazyClass(source, max), g] + tail, s)
         == Then(env, [g] + tail, LazyOut(env, source, max, s))
  {
    var ts := [LazyClass(source, max), g] + tail;
    assert ts[1..] == [g] + tail;
  }

  lemma GroupThen(env: Env, g: Term, tail: seq<Term>, s: State)
    ensures SequenceOut(env, [g] + tail, s) == Then(env, tail, TermOut(env, g, s))
  {
    assert ([g] + tail)[1..] == tail;
  }

  lemma {:induction false} NestedThen(env: Env, inner: string, b: nat, rest: seq<Term>, q: Quantifier, tail: seq<Term>,
                                      states: seq<State>)
    requires RunsOnce(q)
    ensures
      var g := Group(NonCapturing, [Alternative([LazyClass(inner, b)] + rest)], q);
      Then(env, [g] + tail, states) == Then(env, tail, Then(env, rest, NestedOut(env, inner, b, ClearAll(q, states))))
    decreases |states|
  {
    if states != [] {
      var body := [LazyClass(inner, b)] + rest;
      var g := Group(NonCapturing, [Alternative(body)], q);
      var s := states[0];
      NestedThen(env, inner, b, rest, q, tail, states[1..]);
      GroupThen(env, g, tail, s);
      OnceGroup(env, body, q, s);
      assert body[1..] == rest;
      var first := LazyOut(env, inner, b, Clear(q, s));
      var more := NestedOut(env, inner, b, ClearAll(q, states[1..]));
      ThenConcat(env, rest, first, more);
      ThenConcat(env, tail, Then(env, rest, first), Then(env, rest, more));
      assert ClearAll(q, states)[1..] == ClearAll(q, states[1..]);
    }
  }

  lemma {:induction false} PlainThen(env: Env, rest: seq<Term>, q: Quantifier, tail: seq<Term>, states: seq<State>)
    requires RunsOnce(q)
    ensures
      var g := Group(NonCapturing, [Alternative(rest)], q);
      Then(env, [g] + tail, states) == Then(env, tail, Then(env, rest, ClearAll(q, states)))
    decreases |states|
  {
    if states != [] {
      var g := Group(NonCapturing, [Alternative(rest)], q);
      var s := states[0];
      PlainThen(env, rest, q, tail, states[1..]);
      GroupThen(env, g, tail, s);
      OnceGroup(env, rest, q, s);
      var more := ClearAll(q, states[1..]);
      ThenSingle(env, rest, Clear(q, s));
      ThenConcat(env, rest, [Clear(q, s)], more);
      ThenConcat(env, tail, SequenceOut(env, rest, Clear(q, s)), Then(env, rest, more));
    }
  }

  ghost predicate SameSequence(env: Env, ts: seq<Term>, ts': seq<Term>) {
    forall o :: Same(SequenceOut(env, ts, o), SequenceOut(env, ts', o))
  }

  /** Texts of the same class make the same prefix. */
  lemma {:induction false} SameClassOut(env: Env, outer: string, inner: string, max: nat, s: State)
    requires SameClass(env.inClass, outer, inner)
    ensures LazyOut(env, inner, max, s) == LazyOut(env, outer, max, s)
    decreases max
  {
    if max > 0 && s.pos < |env.text| {
      SameClassOut(env, outer, inner, max - 1, s.(pos := s.pos + 1));
    }
  }

  lemma {:induction false} SameClassNested(env: Env, outer: string, inner: string, b: nat, states: seq<State>)
    requires SameClass(env.inClass, outer, inner)
    ensures NestedOut(env, inner, b, states) == NestedOut(env, outer, b, states)
    decreases |states|
  {
    if states != [] {
      SameClassOut(env, outer, inner, b, states[0]);
      SameClassNested(env, outer, inner, b, states[1..]);
    }
  }

  lemma OnceSiteOut(env: Env, outer: string, inner: string, a: nat, b: nat, rest: seq<Term>, q: Quantifier,
                    tail: seq<Term>, s: State)
    requires RunsOnce(q) && SameClass(env.inClass, outer, inner)
    ensures SequenceOut(env, Site(outer, inner, a, b, rest, [], q, tail), s)
         == Then(env, tail, Then(env, rest, NestedOut(env, outer, b, LazyOut(env, outer, a, Clear(q, s)))))
  {
    var body := [LazyClass(inner, b)] + rest;
    assert [Alternative(body)] + [] == [Alternative(body)];
    SiteOut(env, outer, a, Group(NonCapturing, [Alternative(body)], q), tail, s);
    NestedThen(env, inner, b, rest, q, tail, LazyOut(env, outer, a, s));
    ClearLazy(env, outer, a, q, s);
    SameClassNested(env, outer, inner, b, LazyOut(env, outer, a, Clear(q, s)));
  }

  lemma RewrittenOut(env: Env, source: string, max: nat, rest: seq<Term>, q: Quantifier, tail: seq<Term>, s: State)
    requires RunsOnce(q)
    ensures SequenceOut(env, Rewritten(source, max, rest, [], q, tail), s)
         == Then(env, tail, Then(env, rest, LazyOut(env, source, max, Clear(q, s))))
  {
    assert [Alternative(rest)] + [] == [Alternative(rest)];
    SiteOut(env, source, max, Group(NonCapturing, [Alternative(rest)], q), tail, s);
    PlainThen(env, rest, q, tail, LazyOut(env, source, max, s));
    ClearLazy(env, source, max, q, s);
  }

  /** The rewritten site, with its rest and tail rewritten too, tries the same
      outcomes in the same order. */
  lemma OnceSiteSame(env: Env, outer: string, inner: string, a: nat, b: nat, rest: seq<Term>, rest': seq<Term>,
                     q: Quantifier, tail: seq<Term>, tail': seq<Term>, s: State)
    requires RunsOnce(q) && SameClass(env.inClass, outer, inner)
    requires SameSequence(env, rest, rest') && SameSequence(env, tail, tail')
    ensures Same(SequenceOut(env, Site(outer, inner, a, b, rest, [], q, tail), s),
                 SequenceOut(env, Rewritten(outer, a + b, rest', [], q, tail'), s))
  {
    OnceSiteOut(env, outer, inner, a, b, rest, q, tail, s);
    RewrittenOut(env, outer, a + b, rest', q, tail', s);
    var nested := NestedOut(env, outer, b, LazyOut(env, outer, a, Clear(q, s)));
    var flat := LazyOut(env, outer, a + b, Clear(q, s));
    SplitPrefix(env, outer, a, b, Clear(q, s));
    ThenSame(env, rest, rest', nested, flat);
    ThenSame(env, tail, tail', Then(env, rest, nested), Then(env, rest', flat));
  }

  /** A prefix that can take no character. */
  lemma PrefixTakesNothing(env: Env, source: string, max: nat, s: State)
    requires max == 0 || NoMembers(env.inClass, source)
    ensures LazyOut(env, source, max, s) == [s]
  {
  }

  /** An inner prefix that consumes nothing -- its bound is zero or its class empty -- may
      go, whatever its surroundings. */
  lemma EmptyGroupSame(env: Env, inner: string, b: nat, rest: seq<Term>, rest': seq<Term>,
                       others: seq<Alternative>, others': seq<Alternative>,
                       q: Quantifier, tail: seq<Term>, tail': seq<Term>)
    requires b == 0 || NoMembers(env.inClass, inner)
    requires SameSequence(env, rest, rest') && SameSequence(env, tail, tail')
    requires SameAlternatives(env, others, others')
    ensures
      SameSequence(env, [Group(NonCapturing, [Alternative([LazyClass(inner, b)] + rest)] + others, q)] + tail,
                   [Group(NonCapturing, [Alternative(rest')] + others', q)] + tail')
  {
    var body := [LazyClass(inner, b)] + rest;
    var alts, alts' := [Alternative(body)] + others, [Alternative(rest')] + others';
    forall o ensures Same(AlternativesOut(env, alts, o), AlternativesOut(env, alts', o)) {
      assert body[1..] == rest && alts[1..] == others && alts'[1..] == others';
      ThenSingle(env, rest, o);
      PrefixTakesNothing(env, inner, b, o);
      assert SequenceOut(env, body, o) == Then(env, rest, LazyOut(env, inner, b, o)) == SequenceOut(env, rest, o);
      assert AlternativesOut(env, alts, o) == SequenceOut(env, body, o) + AlternativesOut(env, others, o);
      assert AlternativesOut(env, alts', o) == SequenceOut(env, rest', o) + AlternativesOut(env, others', o);
      SameConcat(SequenceOut(env, rest, o), SequenceOut(env, rest', o),
                 AlternativesOut(env, others, o), AlternativesOut(env, others', o));
    }
    GroupStep(env, Group(NonCapturing, alts, q), Group(NonCapturing, alts', q), tail, tail');
  }

  /** A prefix {0,0}? consumes nothing, whatever its class and surroundings. */
  lemma EmptySiteSame(env: Env, outer: string, inner: string, a: nat, rest: seq<Term>, rest': seq<Term>,
                      others: seq<Alternative>, others': seq<Alternative>,
                      q: Quantifier, tail: seq<Term>, tail': seq<Term>, s: State)
    requires SameSequence(env, rest, rest') && SameSequence(env, tail, tail')
    requires SameAlternatives(env, others, others')
    ensures Same(SequenceOut(env, Site(outer, inner, a, 0, rest, others, q, tail), s),
                 SequenceOut(env, Rewritten(outer, a, rest', others', q, tail'), s))
  {
    var g := Group(NonCapturing, [Alternative([LazyClass(inner, 0)] + rest)] + others, q);
    var g' := Group(NonCapturing, [Alternative(rest')] + others', q);
    EmptyGroupSame(env, inner, 0, rest, rest', others, others', q, tail, tail');
    SiteOut(env, outer, a, g, tail, s);
    SiteOut(env, outer, a, g', tail', s);
    ThenSame(env, [g] + tail, [g'] + tail', LazyOut(env, outer, a, s), LazyOut(env, outer, a, s));
  }

  /** A site whose prefixes can take no character, or whose group never runs after a prefix
      that can take none. */
  lemma NoMembersSiteSame(env: Env, outer: string, inner: string, a: nat, b: nat, rest: seq<Term>, rest': seq<Term>,
                          others: seq<Alternative>, others': seq<Alternative>,
                          q: Quantifier, tail: seq<Term>, tail': seq<Term>, s: State)
    requires NoMembers(env.inClass, outer) && (NoMembers(env.inClass, inner) || NeverRuns(q))
    requires SameSequence(env, rest, rest') && SameSequence(env, tail, tail')
    requires SameAlternatives(env, others, others')
    ensures Same(SequenceOut(env, Site(outer, inner, a, b, rest, others, q, tail), s),
                 SequenceOut(env, Rewritten(outer, a + b, rest', others', q, tail'), s))
  {
    var g := Group(NonCapturing, [Alternative([LazyClass(inner, b)] + rest)] + others, q);
    var g' := Group(NonCapturing, [Alternative(rest')] + others', q);
    NoPrefix(env, outer, a, g, tail, s);
    NoPrefix(env, outer, a + b, g', tail', s);
    if NeverRuns(q) {
      GroupThen(env, g, tail, s);
      GroupThen(env, g', tail', s);
      ThenSame(env, tail, tail', [s], [s]);
    } else {
      EmptyGroupSame(env, inner, b, rest, rest', others, others', q, tail, tail');
    }
  }

  lemma NoPrefix(env: Env, source: string, max: nat, g: Term, tail: seq<Term>, s: State)
    requires NoMembers(env.inClass, source)
    ensures SequenceOut(env, [LazyClass(source, max), g] + tail, s) == SequenceOut(env, [g] + tail, s)
  {
    SiteOut(env, source, max, g, tail, s);
    PrefixTakesNothing(env, source, max, s);
    ThenSingle(env, [g] + tail, s);
  }

  lemma GroupStep(env: Env, g: Term, g': Term, tail: seq<Term>, tail': seq<Term>)
    requires g.Group? && g'.Group? && g.kind == g'.kind && g.quantifier == g'.quantifier
    requires SameAlternatives(env, g.alternatives, g'.alternatives) && SameSequence(env, tail, tail')
    ensures SameSequence(env, [g] + tail, [g'] + tail')
  {
    forall o ensures Same(SequenceOut(env, [g] + tail, o), SequenceOut(env, [g'] + tail', o)) {
      GroupSame(env, g.kind, g.alternatives, g'.alternatives, g.quantifier, o);
      GroupThen(env, g, tail, o);
      GroupThen(env, g', tail', o);
      ThenSame(env, tail, tail', TermOut(env, g, o), TermOut(env, g', o));
    }
  }

  // ---- the whole rewrite ---------------------------------------------------------

  /** On a safe regex the rewrite keeps all outcomes and their order, from every state. */
  lemma {:induction false} CollapseKeepsOutcomes(env: Env, ts: seq<Term>)
    requires Safe(env.inClass, ts)
    ensures SameSequence(env, ts, Collapse(ts))
    decreases ts, 1
  {
    if ts == [] {
    } else if Redundant(ts) {
      RedundantKept(env, ts);
    } else {
      CollapseKeepsOutcomes(env, ts[1..]);
      var t, t' := ts[0], CollapseTerm(ts[0]);
      assert ts == [t] + ts[1..];
      if t.Group? {
        CollapseEachKeepsOutcomes(env, t.alternatives);
        GroupStep(env, t, t', ts[1..], Collapse(ts[1..]));
      } else {
        forall o ensures Same(SequenceOut(env, ts, o), SequenceOut(env, [t] + Collapse(ts[1..]), o)) {
          GroupThen(env, t, Collapse(ts[1..]), o);
          ThenSame(env, ts[1..], Collapse(ts[1..]), TermOut(env, t, o), TermOut(env, t, o));
        }
      }
    }
  }

  lemma {:induction false} RedundantKept(env: Env, ts: seq<Term>)
    requires Safe(env.inClass, ts) && Redundant(ts)
    ensures SameSequence(env, ts, Collapse(ts))
    decreases ts, 0
  {
    var g := ts[1];
    var first := g.alternatives[0].terms;
    var outer, inner, a, b := ts[0].source, first[0].source, ts[0].max, first[0].max;
    var rest, others, tail := first[1..], g.alternatives[1..], ts[2..];
    CollapseKeepsOutcomes(env, rest);
    CollapseKeepsOutcomes(env, tail);
    CollapseEachKeepsOutcomes(env, others);
    assert first == [LazyClass(inner, b)] + rest;
    assert g.alternatives == [Alternative(first)] + others;
    assert ts == Site(outer, inner, a, b, rest, others, g.quantifier, tail);
    assert Collapse(ts)
        == Rewritten(outer, a + b, Collapse(rest), CollapseEach(others), g.quantifier, Collapse(tail));
    forall o ensures Same(SequenceOut(env, ts, o), SequenceOut(env, Collapse(ts), o)) {
      if b == 0 {
        EmptySiteSame(env, outer, inner, a, rest, Collapse(rest), others, CollapseEach(others),
                      g.quantifier, tail, Collapse(tail), o);
      } else if NoMembers(env.inClass, outer) && (NoMembers(env.inClass, inner) || NeverRuns(g.quantifier)) {
        NoMembersSiteSame(env, outer, inner, a, b, rest, Collapse(rest), others, CollapseEach(others),
                          g.quantifier, tail, Collapse(tail), o);
      } else {
        assert others == [] && CollapseEach(others) == [];
        OnceSiteSame(env, outer, inner, a, b, rest, Collapse(rest), g.quantifier, tail, Collapse(tail), o);
      }
    }
  }

  lemma {:induction false} CollapseEachKeepsOutcomes(env: Env, alts: seq<Alternative>)
    requires SafeEach(env.inClass, alts)
    ensures SameAlternatives(env, alts, CollapseEach(alts))
    decreases alts, 0
  {
    if alts != [] {
      CollapseKeepsOutcomes(env, alts[0].terms);
      CollapseEachKeepsOutcomes(env, alts[1..]);
      forall o ensures Same(AlternativesOut(env, alts, o), AlternativesOut(env, CollapseEach(alts), o)) {
        assert CollapseEach(alts)[1..] == CollapseEach(alts[1..]);
        SameConcat(SequenceOut(env, alts[0].terms, o), SequenceOut(env, Collapse(alts[0].terms), o),
                   AlternativesOut(env, alts[1..], o), AlternativesOut(env, CollapseEach(alts[1..]), o));
      }
    }
  }

  /** On a safe regex every search returns the same match before and after. */
  lemma {:induction false} CollapseKeepsEveryMatch(env: Env, ts: seq<Term>, from: nat)
    requires Safe(env.inClass, ts) && from <= |env.text|
    ensures Exec(env, Collapse(ts), from) == Exec(env, ts, from)
    decreases |env.text| - from
  {
    CollapseKeepsOutcomes(env, ts);
    var start := State(from, map[]);
    SameHead(SequenceOut(env, ts, start), SequenceOut(env, Collapse(ts), start));
    if from < |env.text| { CollapseKeepsEveryMatch(env, ts, from + 1); }
  }
}
