/** Where collapseRedundantLazyPrefixes is not sound: whatever the classes mean, at every
    site that Sound leaves out there are a text and a reading of the other terms on which
    the rewrite changes the outcomes. */
module LazyPrefixLimits {
  import opened OrderedOutcomes
  import opened RegexLanguage
  import opened LazyPrefixCollapse
  import opened LazyPrefixProof
  import opened Sequences

  const REST: seq<Term> := [Opaque(0)]

  /** k further alternatives of the group. */
  function Others(k: nat): (r: seq<Alternative>)
    ensures |r| == k
  {
    if k == 0 then [] else [Alternative([Opaque(1)])] + Others(k - 1)
  }

  function Original(outer: string, inner: string, a: nat, b: nat, k: nat, q: Quantifier): seq<Term> {
    Site(outer, inner, a, b, REST, Others(k), q, [])
  }

  lemma {:induction false} OthersStay(k: nat)
    ensures CollapseEach(Others(k)) == Others(k)
  {
    if k > 0 {
      OthersStay(k - 1);
      var t := [Opaque(1)];
      assert t[1..] == [] && Collapse(t) == [CollapseTerm(t[0])] + Collapse(t[1..]) == t;
      assert Others(k)[1..] == Others(k - 1);
    }
  }

  lemma CollapsedSite(outer: string, inner: string, a: nat, b: nat, k: nat, q: Quantifier)
    requires EndsWith(outer, inner)
    ensures Collapse(Original(outer, inner, a, b, k, q)) == Rewritten(outer, a + b, REST, Others(k), q, [])
  {
    OthersStay(k);
    var ts := Original(outer, inner, a, b, k, q);
    var first := ts[1].alternatives[0].terms;
    assert first == [LazyClass(inner, b)] + REST && first[1..] == REST;
    assert REST[1..] == [] && Collapse(REST) == [CollapseTerm(REST[0])] + Collapse(REST[1..]) == REST;
    assert ts[1].alternatives[1..] == Others(k) && ts[2..] == [];
  }

  lemma OpaqueOut(env: Env, id: nat, s: State)
    ensures SequenceOut(env, [Opaque(id)], s) == env.matcher(id, s)
  {
    assert [Opaque(id)][1..] == [];
    ThenNothing(env, env.matcher(id, s));
  }

  lemma {:induction false} ThenMember(env: Env, ts: seq<Term>, states: seq<State>, o: State, e: State)
    requires o in states && e in SequenceOut(env, ts, o)
    ensures e in Then(env, ts, states)
    decreases |states|
  {
    assert states == [states[0]] + states[1..];
    if o != states[0] { ThenMember(env, ts, states[1..], o, e); }
  }

  lemma {:induction false} ThenSource(env: Env, ts: seq<Term>, states: seq<State>, e: State) returns (o: State)
    requires e in Then(env, ts, states)
    ensures o in states && e in SequenceOut(env, ts, o)
    decreases |states|
  {
    assert states == [states[0]] + states[1..];
    if e in SequenceOut(env, ts, states[0]) {
      o := states[0];
    } else {
      o := ThenSource(env, ts, states[1..], e);
    }
  }

  /** Outcomes of a prefix followed by a group are outcomes of the group. */
  lemma PrefixedMember(env: Env, source: string, max: nat, g: Term, s: State, o: State, e: State)
    requires o in LazyOut(env, source, max, s) && e in TermOut(env, g, o)
    ensures e in SequenceOut(env, [LazyClass(source, max), g] + [], s)
  {
    SiteOut(env, source, max, g, [], s);
    GroupThen(env, g, [], o);
    ThenNothing(env, TermOut(env, g, o));
    ThenMember(env, [g] + [], LazyOut(env, source, max, s), o, e);
  }

  lemma PrefixedSource(env: Env, source: string, max: nat, g: Term, s: State, e: State) returns (o: State)
    requires e in SequenceOut(env, [LazyClass(source, max), g] + [], s)
    ensures o in LazyOut(env, source, max, s) && e in TermOut(env, g, o)
  {
    SiteOut(env, source, max, g, [], s);
    o := ThenSource(env, [g] + [], LazyOut(env, source, max, s), e);
    GroupThen(env, g, [], o);
    ThenNothing(env, TermOut(env, g, o));
  }

  lemma {:induction false} IterationMember(env: Env, alts: seq<Alternative>, min: nat, max: Bound, greedy: bool,
      clears: set<nat>, x: State, body: seq<State>, y: State, e: State)
    requires max != Finite(0) && y in body
    requires e in Iteration(env, NonCapturing, alts, min, max, greedy, clears, x, y)
    ensures e in ThenRepeat(env, NonCapturing, alts, min, max, greedy, clears, x, body)
    decreases |body|
  {
    assert body == [body[0]] + body[1..];
    if y != body[0] { IterationMember(env, alts, min, max, greedy, clears, x, body[1..], y, e); }
  }

  lemma BodyOut(env: Env, inner: string, b: nat, others: seq<Alternative>, x: State)
    ensures AlternativesOut(env, [Alternative([LazyClass(inner, b)] + REST)] + others, x)
         == Then(env, REST, LazyOut(env, inner, b, x)) + AlternativesOut(env, others, x)
  {
    var body := [LazyClass(inner, b)] + REST;
    var alts := [Alternative(body)] + others;
    assert body[1..] == REST && alts[1..] == others;
    assert SequenceOut(env, body, x) == Then(env, REST, LazyOut(env, inner, b, x));
    assert AlternativesOut(env, alts, x) == SequenceOut(env, body, x) + AlternativesOut(env, others, x);
  }

  /** A body that fails leaves only the state before it. */
  lemma FailingBody(env: Env, alts: seq<Alternative>, min: nat, max: Bound, greedy: bool, clears: set<nat>,
                    x: State, e: State)
    requires AlternativesOut(env, alts, x.(captures := x.captures - clears)) == []
    requires e in RepeatOut(env, NonCapturing, alts, min, max, greedy, clears, x)
    ensures e == x
  {
    if max != Finite(0) {
      assert ThenRepeat(env, NonCapturing, alts, min, max, greedy, clears, x, []) == [];
    }
  }

  lemma {:induction false} LazyReach(env: Env, source: string, max: nat, s: State, o: State)
    requires o in LazyOut(env, source, max, s)
    ensures o.pos <= s.pos + max
    decreases max
  {
    if max > 0 && o != s {
      LazyReach(env, source, max - 1, s.(pos := s.pos + 1), o);
    }
  }

  lemma OneCharacter(env: Env, source: string, max: nat, s: State)
    requires max > 0 && s.pos < |env.text| && env.inClass(source, env.text[s.pos])
    ensures s.(pos := s.pos + 1) in LazyOut(env, source, max, s)
  {
    var t := s.(pos := s.pos + 1);
    assert LazyOut(env, source, max, s) == [s] + LazyOut(env, source, max - 1, t);
    assert LazyOut(env, source, max - 1, t)[0] == t;
  }

  lemma {:induction false} OthersFail(env: Env, k: nat, o: State)
    requires env.matcher(1, o) == []
    ensures AlternativesOut(env, Others(k), o) == []
  {
    if k > 0 {
      OpaqueOut(env, 1, o);
      assert Others(k)[1..] == Others(k - 1);
      OthersFail(env, k - 1, o);
    }
  }

  lemma {:induction false} ThenFails(env: Env, states: seq<State>)
    requires forall o | o in states :: env.matcher(0, o) == []
    ensures Then(env, REST, states) == []
    decreases |states|
  {
    if states != [] {
      assert states == [states[0]] + states[1..];
      OpaqueOut(env, 0, states[0]);
      ThenFails(env, states[1..]);
    }
  }

  /** The group of the site, before and after the rewrite. */
  function Body(inner: string, b: nat, k: nat): seq<Alternative> {
    [Alternative([LazyClass(inner, b)] + REST)] + Others(k)
  }

  function BareBody(k: nat): seq<Alternative> {
    [Alternative(REST)] + Others(k)
  }

  lemma BareBodyOut(env: Env, k: nat, o: State)
    ensures AlternativesOut(env, BareBody(k), o) == env.matcher(0, o) + AlternativesOut(env, Others(k), o)
  {
    assert BareBody(k)[1..] == Others(k);
    OpaqueOut(env, 0, o);
  }

  // ---- a prefix that reaches one character too far -----------------------------

  /** a + 1 times the character c; the term numbered good matches at their end. */
  function FarEnv(classes: Classes, c: char, a: nat, good: nat): Env {
    Env(seq(a + 1, _ => c),
        (id, s: State) => if id == good && s.pos == a + 1 then [s] else [],
        classes)
  }

  lemma LazyReaches(classes: Classes, c: char, outer: string, a: nat, good: nat, max: nat)
    requires a + 1 <= max && classes(outer, c)
    ensures State(a + 1, map[]) in LazyOut(FarEnv(classes, c, a, good), outer, max, State(0, map[]))
  {
    var env, s := FarEnv(classes, c, a, good), State(0, map[]);
    LazyInRun(env, outer, a + 1, s);
    LazyPrefixOf(env, outer, a + 1, max, s);
    assert LazyOut(env, outer, max, s)[a + 1] == State(a + 1, map[]);
  }

  /** Up to position a no alternative of the original group matches. */
  lemma GroupFailsEarly(classes: Classes, c: char, inner: string, a: nat, b: nat, k: nat, good: nat, o: State)
    requires o.pos <= a && (good == 0 ==> !classes(inner, c))
    ensures AlternativesOut(FarEnv(classes, c, a, good), Body(inner, b, k), o) == []
  {
    var env := FarEnv(classes, c, a, good);
    OthersFail(env, k, o);
    var starts := LazyOut(env, inner, b, o);
    if good == 0 { assert starts == [o]; }
    ThenFails(env, starts);
    BodyOut(env, inner, b, Others(k), o);
  }

  lemma OriginalStaysEarly(classes: Classes, c: char, outer: string, inner: string, a: nat, b: nat, k: nat,
                           q: Quantifier, good: nat, e: State)
    requires good == 0 ==> !classes(inner, c)
    requires e in SequenceOut(FarEnv(classes, c, a, good), Original(outer, inner, a, b, k, q), State(0, map[]))
    ensures e.pos <= a
  {
    var env := FarEnv(classes, c, a, good);
    var o := PrefixedSource(env, outer, a, Group(NonCapturing, Body(inner, b, k), q), State(0, map[]), e);
    LazyReach(env, outer, a, State(0, map[]), o);
    GroupFailsEarly(classes, c, inner, a, b, k, good, o);
    if q.Times? {
      GroupFailsEarly(classes, c, inner, a, b, k, good, o.(captures := o.captures - q.clears));
      FailingBody(env, Body(inner, b, k), q.min, q.max, q.greedy, q.clears, o, e);
    }
  }

  /** At the end of the text the rewritten group matches. */
  lemma RewrittenMatchesLate(classes: Classes, c: char, a: nat, k: nat, good: nat, o: State)
    requires o.pos == a + 1 && (good == 0 || (good == 1 && k > 0))
    ensures o in AlternativesOut(FarEnv(classes, c, a, good), BareBody(k), o)
  {
    var env := FarEnv(classes, c, a, good);
    BareBodyOut(env, k, o);
    OpaqueOut(env, 1, o);
  }

  lemma {:induction false} RepeatReachesLate(classes: Classes, c: char, a: nat, k: nat, good: nat,
      min: nat, max: Bound, greedy: bool, clears: set<nat>, x: State) returns (e: State)
    requires x.pos == a + 1 && (min > 0 ==> good == 0 || (good == 1 && k > 0))
    ensures e.pos == a + 1
    ensures e in RepeatOut(FarEnv(classes, c, a, good), NonCapturing, BareBody(k), min, max, greedy, clears, x)
    decreases min
  {
    var env := FarEnv(classes, c, a, good);
    if min == 0 || max == Finite(0) {
      e := x;
    } else {
      var y := x.(captures := x.captures - clears);
      RewrittenMatchesLate(classes, c, a, k, good, y);
      e := RepeatReachesLate(classes, c, a, k, good, min - 1, Less(max), greedy, clears, y);
      IterationMember(env, BareBody(k), min, max, greedy, clears, x, AlternativesOut(env, BareBody(k), y), y, e);
    }
  }

  lemma RewrittenGoesFar(classes: Classes, c: char, outer: string, max: nat, a: nat, k: nat, q: Quantifier, good: nat)
    returns (e: State)
    requires a + 1 <= max && classes(outer, c)
    requires (q.Once? || q.min > 0) ==> good == 0 || (good == 1 && k > 0)
    ensures e.pos == a + 1
    ensures e in SequenceOut(FarEnv(classes, c, a, good), Rewritten(outer, max, REST, Others(k), q, []), State(0, map[]))
  {
    var env := FarEnv(classes, c, a, good);
    var o := State(a + 1, map[]);
    LazyReaches(classes, c, outer, a, good, max);
    if q.Once? {
      RewrittenMatchesLate(classes, c, a, k, good, o);
      e := o;
    } else {
      e := RepeatReachesLate(classes, c, a, k, good, q.min, q.max, q.greedy, q.clears, o);
    }
    PrefixedMember(env, outer, max, Group(NonCapturing, BareBody(k), q), State(0, map[]), o, e);
  }

  // ---- a character only the inner prefix takes ----------------------------------

  /** The character c alone; the rest matches behind it. */
  function NearEnv(classes: Classes, c: char): Env {
    Env([c], (id, s: State) => if id == 0 && s.pos == 1 then [s] else [], classes)
  }

  lemma NearBody(classes: Classes, c: char, inner: string, b: nat, k: nat, x: State)
    requires b > 0 && classes(inner, c) && x.pos <= 1
    ensures x.(pos := 1) in AlternativesOut(NearEnv(classes, c), Body(inner, b, k), x)
  {
    var env, mid := NearEnv(classes, c), x.(pos := 1);
    BodyOut(env, inner, b, Others(k), x);
    if x.pos == 0 { OneCharacter(env, inner, b, x); }
    OpaqueOut(env, 0, mid);
    ThenMember(env, REST, LazyOut(env, inner, b, x), mid, mid);
  }

  lemma {:induction false} NearRepeat(classes: Classes, c: char, inner: string, b: nat, k: nat,
      min: nat, max: Bound, greedy: bool, clears: set<nat>, x: State) returns (e: State)
    requires b > 0 && classes(inner, c) && x.pos <= 1 && max.Allows(min)
    requires x.pos == 0 ==> max != Finite(0)
    ensures e.pos == 1
    ensures e in RepeatOut(NearEnv(classes, c), NonCapturing, Body(inner, b, k), min, max, greedy, clears, x)
    decreases min, 1 - x.pos
  {
    if min == 0 && x.pos == 1 {
      e := x;
    } else {
      var env, x' := NearEnv(classes, c), x.(captures := x.captures - clears);
      var y := x'.(pos := 1);
      NearBody(classes, c, inner, b, k, x');
      e := NearRepeat(classes, c, inner, b, k, if min == 0 then 0 else min - 1, Less(max), greedy, clears, y);
      IterationMember(env, Body(inner, b, k), min, max, greedy, clears, x, AlternativesOut(env, Body(inner, b, k), x'), y, e);
    }
  }

  lemma OriginalPassesNear(classes: Classes, c: char, outer: string, inner: string, a: nat, b: nat, k: nat, q: Quantifier)
    returns (e: State)
    requires b > 0 && classes(inner, c) && !NeverRuns(q) && (q.Times? ==> q.max.Allows(q.min))
    ensures e.pos == 1
    ensures e in SequenceOut(NearEnv(classes, c), Original(outer, inner, a, b, k, q), State(0, map[]))
  {
    var env, s := NearEnv(classes, c), State(0, map[]);
    if q.Once? {
      e := s.(pos := 1);
      NearBody(classes, c, inner, b, k, s);
    } else {
      e := NearRepeat(classes, c, inner, b, k, q.min, q.max, q.greedy, q.clears, s);
    }
    assert LazyOut(env, outer, a, s)[0] == s;
    PrefixedMember(env, outer, a, Group(NonCapturing, Body(inner, b, k), q), s, s, e);
  }

  lemma RewrittenStaysNear(classes: Classes, c: char, outer: string, max: nat, k: nat, q: Quantifier, e: State)
    requires !classes(outer, c)
    requires e in SequenceOut(NearEnv(classes, c), Rewritten(outer, max, REST, Others(k), q, []), State(0, map[]))
    ensures e.pos == 0
  {
    var env, s := NearEnv(classes, c), State(0, map[]);
    var o := PrefixedSource(env, outer, max, Group(NonCapturing, BareBody(k), q), s, e);
    assert LazyOut(env, outer, max, s) == [s] && o == s;
    OthersFail(env, k, o);
    BareBodyOut(env, k, o);
    if q.Times? {
      var o' := o.(captures := o.captures - q.clears);
      OthersFail(env, k, o');
      BareBodyOut(env, k, o');
      FailingBody(env, BareBody(k), q.min, q.max, q.greedy, q.clears, o, e);
    }
  }

  // ---- a prefix that a repetition needs again ----------------------------------

  /** The character c only; behind an odd position the rest takes j characters. */
  function JumpEnv(classes: Classes, c: char, size: nat, j: nat): Env {
    Env(seq(size, _ => c),
        (id, s: State) => if s.pos % 2 == 1 then [s.(pos := s.pos + j)] else [],
        classes)
  }

  lemma JumpIteration(classes: Classes, c: char, size: nat, j: nat, inner: string, b: nat, x: State)
    requires b > 0 && classes(inner, c) && x.pos % 2 == 0 && x.pos < size
    ensures x.(pos := x.pos + 1 + j) in AlternativesOut(JumpEnv(classes, c, size, j), Body(inner, b, 0), x)
  {
    var env, mid := JumpEnv(classes, c, size, j), x.(pos := x.pos + 1);
    BodyOut(env, inner, b, Others(0), x);
    OneCharacter(env, inner, b, x);
    OpaqueOut(env, 0, mid);
    ThenMember(env, REST, LazyOut(env, inner, b, x), mid, x.(pos := x.pos + 1 + j));
  }

  function Total(rounds: nat, length: nat): nat {
    if rounds == 0 then 0 else length + Total(rounds - 1, length)
  }

  lemma {:induction false} JumpsAreRead(classes: Classes, c: char, size: nat, j: nat, inner: string, b: nat, rounds: nat,
      min: nat, max: Bound, greedy: bool, clears: set<nat>, x: State) returns (e: State)
    requires b > 0 && classes(inner, c) && j % 2 == 1 && x.pos % 2 == 0
    requires x.pos + Total(rounds, j + 1) == size && min <= rounds && max.Allows(rounds)
    ensures e.pos == size
    ensures e in RepeatOut(JumpEnv(classes, c, size, j), NonCapturing, Body(inner, b, 0), min, max, greedy, clears, x)
    decreases rounds
  {
    if rounds == 0 {
      e := x;
    } else {
      var env, x' := JumpEnv(classes, c, size, j), x.(captures := x.captures - clears);
      var y := x'.(pos := x.pos + 1 + j);
      JumpIteration(classes, c, size, j, inner, b, x');
      e := JumpsAreRead(classes, c, size, j, inner, b, rounds - 1, if min == 0 then 0 else min - 1, Less(max), greedy, clears, y);
      IterationMember(env, Body(inner, b, 0), min, max, greedy, clears, x, AlternativesOut(env, Body(inner, b, 0), x'), y, e);
    }
  }

  lemma BareJump(env: Env, x: State)
    ensures AlternativesOut(env, BareBody(0), x) == env.matcher(0, x)
  {
    BareBodyOut(env, 0, x);
  }

  /** Without the inner prefix the repetition stops after its first round. */
  lemma BareRepeatStops(classes: Classes, c: char, size: nat, j: nat, min: nat, max: Bound, greedy: bool,
                        clears: set<nat>, x: State, e: State)
    requires j % 2 == 1 && min > 0
    requires e in RepeatOut(JumpEnv(classes, c, size, j), NonCapturing, BareBody(0), min, max, greedy, clears, x)
    ensures e.pos <= x.pos + j
  {
    var env, x' := JumpEnv(classes, c, size, j), x.(captures := x.captures - clears);
    if max != Finite(0) {
      BareJump(env, x');
      if x.pos % 2 == 1 {
        OneJump(env, min, max, greedy, clears, x, x'.(pos := x.pos + j), e);
      } else {
        assert false;
      }
    }
  }

  /** One round that leads to a state where the body fails. */
  lemma OneJump(env: Env, min: nat, max: Bound, greedy: bool, clears: set<nat>, x: State, y: State, e: State)
    requires min > 0 && max != Finite(0)
    requires AlternativesOut(env, BareBody(0), x.(captures := x.captures - clears)) == [y]
    requires env.matcher(0, y.(captures := y.captures - clears)) == []
    requires e in RepeatOut(env, NonCapturing, BareBody(0), min, max, greedy, clears, x)
    ensures e == y
  {
    var alts := BareBody(0);
    assert [y][1..] == [];
    var after := RepeatOut(env, NonCapturing, alts, min - 1, Less(max), greedy, clears, y);
    assert ThenRepeat(env, NonCapturing, alts, min, max, greedy, clears, x, []) == [];
    assert ThenRepeat(env, NonCapturing, alts, min, max, greedy, clears, x, [y]) == after + [];
    BareJump(env, y.(captures := y.captures - clears));
    FailingBody(env, alts, min - 1, Less(max), greedy, clears, y, e);
  }

  // ---- the verdict -----------------------------------------------------------------

  /** At every site that is not sound some text tells the rewritten regex from the
      original, whatever the classes mean.  With CollapseKeepsOutcomes: the rewrite of a
      site keeps the outcomes on all inputs exactly when the site is sound. */
  lemma UnsoundSiteDiffers(classes: Classes, outer: string, inner: string, a: nat, b: nat, k: nat, q: Quantifier)
    returns (env: Env, s: State)
    requires EndsWith(outer, inner) && (q.Times? ==> q.max.Allows(q.min))
    requires !Sound(classes, outer, inner, b, k, q)
    ensures env.inClass == classes
    ensures
      var ts := Original(outer, inner, a, b, k, q);
      !Same(SequenceOut(env, ts, s), SequenceOut(env, Collapse(ts), s))
  {
    CollapsedSite(outer, inner, a, b, k, q);
    if c: char :| classes(outer, c) && !classes(inner, c) {
      env, s := FarSiteDiffers(classes, c, outer, inner, a, b, k, q);
    } else if c: char :| classes(inner, c) && !classes(outer, c) && !NeverRuns(q) {
      env, s := NearSiteDiffers(classes, c, outer, inner, a, b, k, q);
    } else {
      var c: char :| classes(outer, c);
      if (q.Times? && q.min == 0) || k > 0 {
        env, s := FarSiteDiffers(classes, c, outer, inner, a, b, k, q);
      } else {
        env, s := RepeatedSiteDiffers(classes, c, outer, inner, a, b, q);
      }
    }
  }

  lemma {:induction false} OthersSafe(classes: Classes, k: nat)
    ensures SafeEach(classes, Others(k))
    decreases k
  {
    if k > 0 {
      OthersSafe(classes, k - 1);
      assert Others(k)[1..] == Others(k - 1);
      var t := [Opaque(1)];
      assert t[1..] == [] && Safe(classes, t[1..]);
      assert Safe(classes, t);
    }
  }

  lemma SoundSiteSafe(classes: Classes, outer: string, inner: string, a: nat, b: nat, k: nat, q: Quantifier)
    requires EndsWith(outer, inner) && Sound(classes, outer, inner, b, k, q)
    ensures Safe(classes, Original(outer, inner, a, b, k, q))
  {
    OthersSafe(classes, k);
    var ts := Original(outer, inner, a, b, k, q);
    var first := ts[1].alternatives[0].terms;
    assert first == [LazyClass(inner, b)] + REST && first[1..] == REST;
    assert REST[1..] == [] && Safe(classes, REST[1..]);
    assert Safe(classes, REST);
    assert ts[1].alternatives[1..] == Others(k) && ts[2..] == [];
  }

  /** A site may be rewritten, for every text and every reading of the other terms, if and
      only if it is sound. */
  lemma SoundExactly(classes: Classes, outer: string, inner: string, a: nat, b: nat, k: nat, q: Quantifier)
    requires EndsWith(outer, inner) && (q.Times? ==> q.max.Allows(q.min))
    ensures
      var ts := Original(outer, inner, a, b, k, q);
      Sound(classes, outer, inner, b, k, q)
      <==> forall env: Env, s | env.inClass == classes :: Same(SequenceOut(env, ts, s), SequenceOut(env, Collapse(ts), s))
  {
    var ts := Original(outer, inner, a, b, k, q);
    if Sound(classes, outer, inner, b, k, q) {
      SoundSiteSafe(classes, outer, inner, a, b, k, q);
      forall env: Env, s | env.inClass == classes ensures Same(SequenceOut(env, ts, s), SequenceOut(env, Collapse(ts), s)) {
        CollapseKeepsOutcomes(env, ts);
      }
    } else {
      var env, s := UnsoundSiteDiffers(classes, outer, inner, a, b, k, q);
    }
  }

  /** c is a character of the outer class; text c ... c is matched farther. */
  lemma FarSiteDiffers(classes: Classes, c: char, outer: string, inner: string, a: nat, b: nat, k: nat, q: Quantifier)
    returns (env: Env, s: State)
    requires b > 0 && classes(outer, c) && ((q.Times? && q.min == 0) || !classes(inner, c) || k > 0)
    ensures env.inClass == classes
    ensures !Same(SequenceOut(env, Original(outer, inner, a, b, k, q), s),
                  SequenceOut(env, Rewritten(outer, a + b, REST, Others(k), q, []), s))
  {
    var good := if q.Times? && q.min == 0 then 2 else if !classes(inner, c) then 0 else 1;
    env, s := FarEnv(classes, c, a, good), State(0, map[]);
    var outs := SequenceOut(env, Original(outer, inner, a, b, k, q), s);
    var outs' := SequenceOut(env, Rewritten(outer, a + b, REST, Others(k), q, []), s);
    var e := RewrittenGoesFar(classes, c, outer, a + b, a, k, q, good);
    if Same(outs, outs') {
      SameMembers(outs, outs', e);
      OriginalStaysEarly(classes, c, outer, inner, a, b, k, q, good, e);
    }
  }

  /** c is a character of the inner class only; the text c before the rest is lost. */
  lemma NearSiteDiffers(classes: Classes, c: char, outer: string, inner: string, a: nat, b: nat, k: nat, q: Quantifier)
    returns (env: Env, s: State)
    requires b > 0 && classes(inner, c) && !classes(outer, c)
    requires !NeverRuns(q) && (q.Times? ==> q.max.Allows(q.min))
    ensures env.inClass == classes
    ensures !Same(SequenceOut(env, Original(outer, inner, a, b, k, q), s),
                  SequenceOut(env, Rewritten(outer, a + b, REST, Others(k), q, []), s))
  {
    env, s := NearEnv(classes, c), State(0, map[]);
    var outs := SequenceOut(env, Original(outer, inner, a, b, k, q), s);
    var outs' := SequenceOut(env, Rewritten(outer, a + b, REST, Others(k), q, []), s);
    var e := OriginalPassesNear(classes, c, outer, inner, a, b, k, q);
    if Same(outs, outs') {
      SameMembers(outs, outs', e);
      RewrittenStaysNear(classes, c, outer, a + b, k, q, e);
    }
  }

  /** c is a character of both classes; a group that runs again needs the inner prefix. */
  lemma {:induction false} RepeatedSiteDiffers(classes: Classes, c: char, outer: string, inner: string, a: nat, b: nat, q: Quantifier)
    returns (env: Env, s: State)
    requires b > 0 && classes(outer, c) && classes(inner, c)
    requires q.Times? && q.min > 0 && q.max.Allows(q.min) && !RunsOnce(q)
    ensures env.inClass == classes
    ensures !Same(SequenceOut(env, Original(outer, inner, a, b, 0, q), s),
                  SequenceOut(env, Rewritten(outer, a + b, REST, Others(0), q, []), s))
  {
    var n, j := if q.min < 2 then 2 else q.min, 2 * (a + b) + 1;
    var size := Total(n, j + 1);
    assert size == j + 1 + Total(n - 1, j + 1) && Total(n - 1, j + 1) >= j + 1;
    env, s := JumpEnv(classes, c, size, j), State(0, map[]);
    var outs := SequenceOut(env, Original(outer, inner, a, b, 0, q), s);
    var outs' := SequenceOut(env, Rewritten(outer, a + b, REST, Others(0), q, []), s);
    var e := JumpsAreRead(classes, c, size, j, inner, b, n, q.min, q.max, q.greedy, q.clears, s);
    assert LazyOut(env, outer, a, s)[0] == s;
    PrefixedMember(env, outer, a, Group(NonCapturing, Body(inner, b, 0), q), s, s, e);
    if Same(outs, outs') {
      SameMembers(outs, outs', e);
      BareSiteStops(classes, c, size, j, outer, a + b, q, e);
    }
  }

  lemma BareSiteStops(classes: Classes, c: char, size: nat, j: nat, outer: string, max: nat, q: Quantifier, e: State)
    requires j % 2 == 1 && q.Times? && q.min > 0
    requires e in SequenceOut(JumpEnv(classes, c, size, j), Rewritten(outer, max, REST, Others(0), q, []), State(0, map[]))
    ensures e.pos <= max + j
  {
    var env, s := JumpEnv(classes, c, size, j), State(0, map[]);
    var o := PrefixedSource(env, outer, max, Group(NonCapturing, BareBody(0), q), s, e);
    LazyReach(env, outer, max, s, o);
    BareRepeatStops(classes, c, size, j, q.min, q.max, q.greedy, q.clears, o, e);
  }
}
