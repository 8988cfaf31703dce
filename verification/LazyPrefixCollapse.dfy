/** collapseRedundantLazyPrefixes (scripts/update-gitleaks-patterns.ts, lines
    456-486) on regex terms: X{0,A}?(?:X{0,B}?R) becomes X{0,A+B}?(?:R).

    Terms denote the list of their outcomes in backtracking order, as the
    matchers of section 22.2.2 of ECMA-262 try them. */
module LazyPrefixCollapse {
  import opened OrderedOutcomes
  import opened RegexLanguage
  import opened Sequences

  type Captures = map<nat, (nat, nat)>

  datatype State = State(pos: nat, captures: Captures)

  datatype Kind = NonCapturing | Capturing(index: nat)

  /** The quantifier after a group, if any, with the captures an iteration clears. */
  datatype Quantifier = Once | Times(min: nat, max: Bound, greedy: bool, clears: set<nat>)

  datatype Term =
    /** Any other matcher: a literal, a class, an assertion, a backreference. */
    | Opaque(id: nat)
    /** A bracketed class, by its source text, under the quantifier {0,max}? */
    | LazyClass(source: string, max: nat)
    | Group(kind: Kind, alternatives: seq<Alternative>, quantifier: Quantifier)

  datatype Alternative = Alternative(terms: seq<Term>)

  /** What the class texts mean; the same text always means the same class. */
  type Classes = (string, char) -> bool

  datatype Env = Env(text: string, matcher: (nat, State) -> seq<State>, inClass: Classes)

  // ---- outcomes -------------------------------------------------------------

  /** X{0,max}? from s: the continuation first, then one more character. */
  function LazyOut(env: Env, source: string, max: nat, s: State): (r: seq<State>)
    ensures r != [] && |r| <= max + 1
  {
    if max > 0 && s.pos < |env.text| && env.inClass(source, env.text[s.pos])
    then [s] + LazyOut(env, source, max - 1, s.(pos := s.pos + 1))
    else [s]
  }

  /** A sequence of terms from s, and from each state of a list in turn. */
  function SequenceOut(env: Env, ts: seq<Term>, s: State): seq<State>
    decreases ts, 1, 0, 0, 0, 0
  {
    if ts == [] then [s] else Then(env, ts[1..], TermOut(env, ts[0], s))
  }

  function Then(env: Env, ts: seq<Term>, states: seq<State>): seq<State>
    decreases ts, 2, 0, 0, 0, |states|
  {
    if states == [] then [] else SequenceOut(env, ts, states[0]) + Then(env, ts, states[1..])
  }

  function TermOut(env: Env, t: Term, s: State): seq<State>
    decreases t, 0, 0, 0, 0, 0
  {
    match t
    case Opaque(id) => env.matcher(id, s)
    case LazyClass(source, max) => LazyOut(env, source, max, s)
    case Group(kind, alternatives, quantifier) =>
      match quantifier
      case Once => Captured(kind, s, AlternativesOut(env, alternatives, s))
      case Times(min, max, greedy, clears) =>
        RepeatOut(env, kind, alternatives, min, max, greedy, clears, s)
  }

  function AlternativesOut(env: Env, alternatives: seq<Alternative>, s: State): seq<State>
    decreases alternatives, 0, 0, 0, 0, 0
  {
    if alternatives == [] then []
    else SequenceOut(env, alternatives[0].terms, s) + AlternativesOut(env, alternatives[1..], s)
  }

  /** A capturing group records the span it matched. */
  function Captured(kind: Kind, start: State, outs: seq<State>): (r: seq<State>)
    ensures |r| == |outs|
  {
    if outs == [] || kind.NonCapturing? then outs
    else
      [outs[0].(captures := outs[0].captures[kind.index := (start.pos, outs[0].pos)])]
      + Captured(kind, start, outs[1..])
  }

  /** RepeatMatcher, section 22.2.2.3.1 of ECMA-262: once min is met an iteration
      that does not advance fails, each iteration starts with its captures
      cleared, and laziness tries the continuation first. */
  function RepeatOut(env: Env, kind: Kind, alternatives: seq<Alternative>,
                     min: nat, max: Bound, greedy: bool, clears: set<nat>, x: State): seq<State>
    decreases alternatives, 1, min, Rest(env, x), 1, 0
  {
    if max == Finite(0) then [x]
    else
      var body := Captured(kind, x, AlternativesOut(env, alternatives, x.(captures := x.captures - clears)));
      var inner := ThenRepeat(env, kind, alternatives, min, max, greedy, clears, x, body);
      if min > 0 then inner
      else if greedy then inner + [x]
      else [x] + inner
  }

  function Rest(env: Env, s: State): nat {
    if s.pos <= |env.text| then |env.text| - s.pos else 0
  }

  function ThenRepeat(env: Env, kind: Kind, alternatives: seq<Alternative>,
                      min: nat, max: Bound, greedy: bool, clears: set<nat>, x: State, body: seq<State>): seq<State>
    requires max != Finite(0)
    decreases alternatives, 1, min, Rest(env, x), 0, |body|
  {
    if body == [] then []
    else
      var y := body[0];
      (if min == 0 && !(x.pos < y.pos <= |env.text|) then []
       else RepeatOut(env, kind, alternatives, if min == 0 then 0 else min - 1, Less(max), greedy, clears, y))
      + ThenRepeat(env, kind, alternatives, min, max, greedy, clears, x, body[1..])
  }

  function Less(max: Bound): Bound
    requires max != Finite(0)
  {
    match max case Infinity => Infinity case Finite(n) => Finite(n - 1)
  }

  /** RegExp.exec: the first outcome at the leftmost start that has one. */
  function Exec(env: Env, ts: seq<Term>, from: nat): (r: seq<State>)
    requires from <= |env.text|
    decreases |env.text| - from
  {
    var outs := SequenceOut(env, ts, State(from, map[]));
    if outs != [] then [State(from, map[]), outs[0]]
    else if from == |env.text| then []
    else Exec(env, ts, from + 1)
  }

  // ---- the rewrite ------------------------------------------------------------

  /** The textual pattern: the class text before {0,A}? ends with the class text
      that opens the non-capturing group right after it. */
  predicate Redundant(ts: seq<Term>) {
    && |ts| >= 2
    && ts[0].LazyClass? && ts[1].Group? && ts[1].kind == NonCapturing
    && ts[1].alternatives != [] && ts[1].alternatives[0].terms != []
    && ts[1].alternatives[0].terms[0].LazyClass?
    && EndsWith(ts[0].source, ts[1].alternatives[0].terms[0].source)
  }

  function Collapse(ts: seq<Term>): seq<Term>
    decreases ts, 1
  {
    if ts == [] then []
    else if Redundant(ts) then
      var g := ts[1];
      var first := g.alternatives[0].terms;
      [LazyClass(ts[0].source, ts[0].max + first[0].max),
       Group(NonCapturing, [Alternative(Collapse(first[1..]))] + CollapseEach(g.alternatives[1..]), g.quantifier)]
      + Collapse(ts[2..])
    else [CollapseTerm(ts[0])] + Collapse(ts[1..])
  }

  function CollapseTerm(t: Term): Term
    decreases t, 0
  {
    match t
    case Group(kind, alternatives, quantifier) => Group(kind, CollapseEach(alternatives), quantifier)
    case _ => t
  }

  function CollapseEach(alternatives: seq<Alternative>): (r: seq<Alternative>)
    ensures |r| == |alternatives|
    decreases alternatives, 0
  {
    if alternatives == [] then []
    else [Alternative(Collapse(alternatives[0].terms))] + CollapseEach(alternatives[1..])
  }

  /** Both texts denote the same characters. */
  ghost predicate SameClass(classes: Classes, outer: string, inner: string) {
    forall c: char :: classes(outer, c) <==> classes(inner, c)
  }

  ghost predicate NoMembers(classes: Classes, source: string) {
    forall c: char :: !classes(source, c)
  }

  predicate RunsOnce(q: Quantifier) {
    q.Once? || (q.min == 1 && q.max == Finite(1))
  }

  predicate NeverRuns(q: Quantifier) {
    q.Times? && q.max == Finite(0)
  }

  /** Where the rewrite is sound: the same class, one alternative, and no quantifier but
      {1}; or an inner prefix {0,0}? that is no prefix at all; or an outer class without
      members before an inner one without members or a group that never runs. */
  ghost predicate Sound(classes: Classes, outer: string, inner: string, b: nat, others: nat, q: Quantifier) {
    || b == 0
    || (SameClass(classes, outer, inner) && others == 0 && RunsOnce(q))
    || (NoMembers(classes, outer) && (NoMembers(classes, inner) || NeverRuns(q)))
  }

  /** Every site the rewrite touches is a sound one. */
  ghost predicate Safe(classes: Classes, ts: seq<Term>)
    decreases ts, 1
  {
    if ts == [] then true
    else if Redundant(ts) then
      var g := ts[1];
      var first := g.alternatives[0].terms;
      && Sound(classes, ts[0].source, first[0].source, first[0].max, |g.alternatives| - 1, g.quantifier)
      && Safe(classes, first[1..]) && SafeEach(classes, g.alternatives[1..]) && Safe(classes, ts[2..])
    else
      && (ts[0].Group? ==> SafeEach(classes, ts[0].alternatives))
      && Safe(classes, ts[1..])
  }

  ghost predicate SafeEach(classes: Classes, alternatives: seq<Alternative>)
    decreases alternatives, 0
  {
    if alternatives == [] then true
    else Safe(classes, alternatives[0].terms) && SafeEach(classes, alternatives[1..])
  }
}
