/** The work of the required-keyword analysis (scripts/update-gitleaks-patterns.ts, lines
    203-254): one unit for every visit of a node and for every transition asked for.  The
    unit of a transition is counted before the memo table is looked up, so the work is a
    function of the tree and the states alone. */
module AnalysisWork {
  import opened KeywordAutomaton
  import opened RegexLanguage

  ghost function Work(a: Automaton, node: Node, states: set<string>): nat
    requires "" in a.prefixes && states <= a.prefixes
    decreases node, 1, 0
  {
    if states == {} then 1
    else
      1 + match node
          case Empty => 0
          case Chars(values) => |states| * |values|
          case Sequence(children) => SequenceWork(a, children, states)
          case Choice(children) => ChoiceWork(a, children, states)
          case Repeat(child, min, max) =>
            RepeatedWork(a, child, min, states)
            + OptionalWork(a, child, min, max, Iterate(a, Lang(child), min, states))
  }

  ghost function SequenceWork(a: Automaton, children: seq<Node>, states: set<string>): nat
    requires "" in a.prefixes && states <= a.prefixes
    decreases children, 0, 0
  {
    if children == [] then 0
    else Work(a, children[0], states) + SequenceWork(a, children[1..], Image(a, Lang(children[0]), states))
  }

  ghost function ChoiceWork(a: Automaton, children: seq<Node>, states: set<string>): nat
    requires "" in a.prefixes && states <= a.prefixes
    decreases children, 0, 0
  {
    if children == [] then 0 else Work(a, children[0], states) + ChoiceWork(a, children[1..], states)
  }

  /** The mandatory rounds; one that changes nothing is the last. */
  ghost function RepeatedWork(a: Automaton, child: Node, rounds: nat, states: set<string>): nat
    requires "" in a.prefixes && states <= a.prefixes
    decreases child, 2, rounds
  {
    if rounds == 0 then 0
    else
      var next := Image(a, Lang(child), states);
      Work(a, child, states) + if next == states then 0 else RepeatedWork(a, child, rounds - 1, next)
  }

  /** The optional rounds; one that adds nothing is the last. */
  ghost function OptionalWork(a: Automaton, child: Node, count: nat, max: Bound, states: set<string>): nat
    requires "" in a.prefixes && states <= a.prefixes
    decreases child, 2, |a.prefixes - states|
  {
    if max.Finite? && count >= max.n then 0
    else
      var next := Image(a, Lang(child), states);
      Work(a, child, states)
      + if next <= states then 0
        else
          Fewer(a.prefixes, states, next);
          OptionalWork(a, child, count + 1, max, states + next)
  }

  lemma Fewer(all: set<string>, states: set<string>, next: set<string>)
    requires states <= all && next <= all && !(next <= states)
    ensures |all - (states + next)| < |all - states|
  {
    var added := next - states;
    assert all - states == (all - (states + next)) + added;
    assert |all - states| == |all - (states + next)| + |added|;
  }

  // ---- the loops of the analysis ------------------------------------------------------

  /** The states still to do take the rest of the total. */
  ghost predicate CharsLeft(used: nat, todo: set<string>, values: nat, total: nat) {
    used + |todo| * values == total
  }

  lemma CharsStep(used: nat, todo: set<string>, values: nat, total: nat, state: string)
    requires CharsLeft(used, todo, values, total) && state in todo
    ensures used + values <= total && CharsLeft(used + values, todo - {state}, values, total)
  {
    assert |todo - {state}| == |todo| - 1;
    assert |todo| * values == (|todo| - 1) * values + values;
  }

  /** The two loops of a repetition: over the mandatory and over the optional rounds. */
  datatype Phase = Mandatory | Optional(max: Bound)

  /** Inside a loop after count rounds in all: the states so far and the work of the loop. */
  ghost predicate InLoop(a: Automaton, child: Node, min: nat, phase: Phase, start: set<string>,
                         count: nat, states: set<string>, work: nat) {
    match phase
    case Mandatory =>
      && "" in a.prefixes && start <= a.prefixes && count <= min
      && states == Iterate(a, Lang(child), count, start)
      && work + RepeatedWork(a, child, min - count, states) == PhaseWork(a, child, min, phase, start)
    case Optional(max) =>
      && "" in a.prefixes && start <= a.prefixes && min <= count && max.Allows(count)
      && states == Rounds(a, Lang(child), min, count, start)
      && work + OptionalWork(a, child, count, max, states) == PhaseWork(a, child, min, phase, start)
  }

  ghost function PhaseWork(a: Automaton, child: Node, min: nat, phase: Phase, start: set<string>): nat
    requires "" in a.prefixes && start <= a.prefixes
  {
    match phase
    case Mandatory => RepeatedWork(a, child, min, start)
    case Optional(max) => OptionalWork(a, child, min, max, Iterate(a, Lang(child), min, start))
  }

  /** What the loop computes. */
  ghost function PhaseResult(a: Automaton, child: Node, min: nat, phase: Phase, start: set<string>): set<string>
    requires "" in a.prefixes && start <= a.prefixes
  {
    match phase
    case Mandatory => Iterate(a, Lang(child), min, start)
    case Optional(max) => Image(a, Lang(Repeat(child, min, max)), start)
  }

  predicate Continues(min: nat, phase: Phase, count: nat) {
    match phase
    case Mandatory => count < min
    case Optional(max) => max == Infinity || count < max.n
  }

  lemma LoopCost(a: Automaton, child: Node, min: nat, phase: Phase, start: set<string>,
                 count: nat, states: set<string>, work: nat)
    requires InLoop(a, child, min, phase, start, count, states, work) && Continues(min, phase, count)
    ensures work + Work(a, child, states) <= PhaseWork(a, child, min, phase, start)
  {
  }

  lemma RepeatedStep(a: Automaton, child: Node, min: nat, start: set<string>,
                     count: nat, states: set<string>, work: nat, count': nat, states': set<string>, work': nat)
    requires InLoop(a, child, min, Mandatory, start, count, states, work) && count < min
    requires count' == count + 1 && states' == Image(a, Lang(child), states) && work' == work + Work(a, child, states)
    ensures states' != states ==> InLoop(a, child, min, Mandatory, start, count', states', work')
    ensures states' == states ==> work' == PhaseWork(a, child, min, Mandatory, start)
    ensures states' == states ==> states == PhaseResult(a, child, min, Mandatory, start)
  {
    if states' == states { IterateStable(a, Lang(child), count, min, start); }
  }

  lemma OptionalStep(a: Automaton, child: Node, min: nat, max: Bound, start: set<string>,
                     count: nat, states: set<string>, work: nat, count': nat, next: set<string>, work': nat)
    requires InLoop(a, child, min, Optional(max), start, count, states, work) && Continues(min, Optional(max), count)
    requires next == Image(a, Lang(child), states) && !(next <= states)
    requires count' == count + 1 && work' == work + Work(a, child, states)
    ensures InLoop(a, child, min, Optional(max), start, count', states + next, work')
    ensures |a.prefixes - (states + next)| < |a.prefixes - states|
  {
    RoundsStep(a, Lang(child), min, count, start);
    Fewer(a.prefixes, states, next);
  }

  /** A round that adds nothing is the last. */
  lemma OptionalStop(a: Automaton, child: Node, min: nat, max: Bound, start: set<string>,
                     count: nat, states: set<string>, work: nat, work': nat)
    requires InLoop(a, child, min, Optional(max), start, count, states, work) && Continues(min, Optional(max), count)
    requires Image(a, Lang(child), states) <= states && work' == work + Work(a, child, states)
    ensures work' == PhaseWork(a, child, min, Optional(max), start)
    ensures states == PhaseResult(a, child, min, Optional(max), start)
  {
    RoundsAreImage(a, child, min, max, count, start);
  }

  lemma LoopEnd(a: Automaton, child: Node, min: nat, phase: Phase, start: set<string>,
                count: nat, states: set<string>, work: nat)
    requires InLoop(a, child, min, phase, start, count, states, work) && !Continues(min, phase, count)
    ensures work == PhaseWork(a, child, min, phase, start)
    ensures states == PhaseResult(a, child, min, phase, start)
  {
    match phase
    case Mandatory =>
    case Optional(max) => RoundsAreImage(a, child, min, max, count, start);
  }
}
