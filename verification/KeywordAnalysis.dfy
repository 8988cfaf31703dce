/** The required-keyword analysis (scripts/update-gitleaks-patterns.ts, lines
    171-260): run the regex tree as a set transformer over the keyword
    automaton, with a memo table and a work limit. */
module KeywordAnalysis {
  import opened Options
  import opened KeywordAutomaton
  import opened RegexLanguage
  import opened AnalysisWork
  import opened Sequences

  const MAX_STATES := 4096
  const MAX_WORK := 2_000_000
  const MAX_KEYWORDS := 256

  /** The analysis ends early, without a verdict, when a limit is exceeded. */
  datatype Outcome<+T> = Done(value: T) | Unsupported(reason: string) {
    predicate IsFailure() { Unsupported? }
    function PropagateFailure<U>(): Outcome<U> requires Unsupported? { Unsupported(reason) }
    function Extract(): T requires Done? { value }
  }

  /** The memo key of a transition: state, NUL, character. */
  function Key(state: string, c: char): string {
    state + ['\0'] + [c]
  }

  lemma KeyInjective(s: string, c: char, s': string, c': char)
    requires Key(s, c) == Key(s', c')
    ensures s == s' && c == c'
  {
    var k := Key(s, c);
    assert k[..|k| - 2] == s && k[|k| - 1] == c;
    assert Key(s', c')[..|k| - 2] == s';
    assert Key(s', c')[|k| - 1] == c';
  }

  ghost predicate AreTargets(a: Automaton, state: string, values: seq<char>, targets: set<string>)
    requires "" in a.prefixes
  {
    forall t :: t in targets <==> exists c :: c in values && Delta(a, state, c) == Some(t)
  }

  lemma OneMoreTarget(a: Automaton, state: string, values: seq<char>, c: char, targets: set<string>)
    requires "" in a.prefixes && AreTargets(a, state, values, targets)
    ensures
      match Delta(a, state, c)
      case None => AreTargets(a, state, values + [c], targets)
      case Some(next) => AreTargets(a, state, values + [c], targets + {next})
  {
    forall t ensures (exists d :: d in values + [c] && Delta(a, state, d) == Some(t)) <==> t in targets || Delta(a, state, c) == Some(t) {
      assert c in values + [c];
      if d :| d in values && Delta(a, state, d) == Some(t) { assert d in values + [c]; }
    }
  }

  class Analyzer {
    const automaton: Automaton
    var work: nat
    var transitions: map<string, Option<string>>

    /** Every memoised transition is the automaton's own. */
    ghost predicate Valid()
      reads this
    {
      && "" in automaton.prefixes
      && forall s, c {:trigger Key(s, c)} :: Key(s, c) in transitions ==> transitions[Key(s, c)] == Delta(automaton, s, c)
    }

    constructor (a: Automaton)
      requires "" in a.prefixes
      ensures Valid() && automaton == a && work == 0 && transitions == map[]
    {
      automaton, work, transitions := a, 0, map[];
    }

    method Tick() returns (r: Outcome<()>)
      modifies this`work
      ensures work == old(work) + 1 && r.Done? == (work <= MAX_WORK)
    {
      work := work + 1;
      r := if work > MAX_WORK then Unsupported("analysis work limit exceeded") else Done(());
    }

    /** The memo table never changes a transition. */
    method Transition(state: string, c: char) returns (r: Outcome<Option<string>>)
      requires Valid()
      modifies this
      ensures Valid() && work == old(work) + 1
      ensures r.Done? == (work <= MAX_WORK)
      ensures r.Done? ==> r.value == Delta(automaton, state, c)
    {
      var _ :- Tick();
      var key := Key(state, c);
      if key in transitions {
        return Done(transitions[key]);
      }
      var next := state + [c];
      if EndsWithWord(automaton.words, next) {
        Memoise(state, c, None);
        return Done(None);
      }
      ghost var start := next;
      while next !in automaton.prefixes
        invariant Fallback(automaton.prefixes, next) == Fallback(automaton.prefixes, start)
        invariant Valid() && work == old(work) + 1
        decreases |next|
      {
        assert next != "";
        next := next[1..];
      }
      Memoise(state, c, Some(next));
      return Done(Some(next));
    }

    method Memoise(state: string, c: char, target: Option<string>)
      requires Valid() && target == Delta(automaton, state, c)
      modifies this`transitions
      ensures Valid()
    {
      forall s, d | Key(s, d) == Key(state, c) { KeyInjective(s, d, state, c); }
      transitions := transitions[Key(state, c) := target];
    }

    /** The work so far, after a step of the given amount. */
    twostate predicate Worked(amount: nat, done: bool)
      reads this`work
    {
      done == (old(work) + amount <= MAX_WORK) && (done ==> work == old(work) + amount)
    }

    /** Exactness: the states returned are precisely those that words of the node's
        language lead to without hitting a keyword, and the work is the tree's own. */
    method Evaluate(node: Node, states: set<string>) returns (r: Outcome<set<string>>)
      requires Valid() && node.WellFormed() && states <= automaton.prefixes
      modifies this
      ensures Valid() && Worked(Work(automaton, node, states), r.Done?)
      ensures r.Done? ==> r.value == Image(automaton, Lang(node), states)
      decreases node, 1
    {
      var _ :- Tick();
      if states == {} {
        ImageOfNothing(automaton, Lang(node));
        return Done(states);
      }
      match node
      case Empty =>
        ImageEpsilon(automaton, states);
        return Done(states);
      case Chars(values) =>
        r := EvaluateChars(values, states);
      case Sequence(children) =>
        r := EvaluateSequence(children, states);
      case Choice(children) =>
        r := EvaluateChoice(children, states);
      case Repeat(child, min, max) =>
        r := EvaluateRepeat(child, min, max, states);
    }

    method EvaluateChars(values: seq<char>, states: set<string>) returns (r: Outcome<set<string>>)
      requires Valid() && work <= MAX_WORK && states <= automaton.prefixes
      modifies this
      ensures Valid() && Worked(|states| * |values|, r.Done?)
      ensures r.Done? ==> r.value == Image(automaton, Lang(Chars(values)), states)
    {
      var result: set<string> := {};
      var todo := states;
      ghost var used: nat := 0;
      while todo != {}
        invariant Valid() && todo <= states && result <= automaton.prefixes
        invariant work == old(work) + used <= MAX_WORK && CharsLeft(used, todo, |values|, |states| * |values|)
        invariant forall t ::
          t in result <==> exists s, c :: s in states - todo && c in values && Delta(automaton, s, c) == Some(t)
        decreases |todo|
      {
        var state :| state in todo;
        CharsStep(used, todo, |values|, |states| * |values|, state);
        var targets :- Targets(state, values);
        used := used + |values|;
        todo := todo - {state};
        result := result + targets;
      }
      forall t { ImageChars(automaton, values, states, t); }
      return Done(result);
    }

    /** The inner loop of the character case: all targets of one state. */
    method Targets(state: string, values: seq<char>) returns (r: Outcome<set<string>>)
      requires Valid() && work <= MAX_WORK
      modifies this
      ensures Valid() && Worked(|values|, r.Done?)
      ensures r.Done? ==> r.value <= automaton.prefixes && AreTargets(automaton, state, values, r.value)
    {
      var result: set<string> := {};
      ghost var read: seq<char> := [];
      for i := 0 to |values|
        invariant Valid() && work == old(work) + i <= MAX_WORK && result <= automaton.prefixes
        invariant read == values[..i] && AreTargets(automaton, state, read, result)
      {
        var next :- Transition(state, values[i]);
        OneMoreTarget(automaton, state, read, values[i], result);
        read := read + [values[i]];
        if next.Some? {
          result := result + {next.value};
        }
      }
      assert read == values;
      return Done(result);
    }

    method EvaluateSequence(children: seq<Node>, states: set<string>) returns (r: Outcome<set<string>>)
      requires Valid() && work <= MAX_WORK && states <= automaton.prefixes && forall c | c in children :: c.WellFormed()
      modifies this
      ensures Valid() && Worked(SequenceWork(automaton, children, states), r.Done?)
      ensures r.Done? ==> r.value == Image(automaton, LangSequence(children), states)
      decreases children, 0
    {
      var current := states;
      for i := 0 to |children|
        invariant Valid() && work <= MAX_WORK && current <= automaton.prefixes
        invariant work + SequenceWork(automaton, children[i..], current)
               == old(work) + SequenceWork(automaton, children, states)
        invariant Image(automaton, LangSequence(children[i..]), current)
               == Image(automaton, LangSequence(children), states)
      {
        assert children[i..][0] == children[i] && children[i..][1..] == children[i + 1..];
        ImageConcat(automaton, Lang(children[i]), LangSequence(children[i + 1..]), current);
        current :- Evaluate(children[i], current);
      }
      ImageEpsilon(automaton, current);
      return Done(current);
    }

    method EvaluateChoice(children: seq<Node>, states: set<string>) returns (r: Outcome<set<string>>)
      requires Valid() && work <= MAX_WORK && states <= automaton.prefixes && forall c | c in children :: c.WellFormed()
      modifies this
      ensures Valid() && Worked(ChoiceWork(automaton, children, states), r.Done?)
      ensures r.Done? ==> r.value == Image(automaton, Lang(Choice(children)), states)
      decreases children, 0
    {
      var result: set<string> := {};
      ImageOfNoLanguage(automaton, states);
      for i := 0 to |children|
        invariant Valid() && work <= MAX_WORK
        invariant work + ChoiceWork(automaton, children[i..], states) == old(work) + ChoiceWork(automaton, children, states)
        invariant result == Image(automaton, Lang(Choice(children[..i])), states)
      {
        assert children[i..][0] == children[i] && children[i..][1..] == children[i + 1..];
        var part :- Evaluate(children[i], states);
        result := result + part;
        ImageChoiceStep(automaton, children[..i], children[i], states);
        assert children[..i] + [children[i]] == children[..i + 1];
      }
      assert children[..|children|] == children;
      return Done(result);
    }

    method EvaluateRepeat(child: Node, min: nat, max: Bound, states: set<string>) returns (r: Outcome<set<string>>)
      requires Valid() && work <= MAX_WORK && states <= automaton.prefixes && child.WellFormed() && max.Allows(min)
      modifies this
      ensures Valid()
      ensures Worked(PhaseWork(automaton, child, min, Mandatory, states)
                     + PhaseWork(automaton, child, min, Optional(max), states), r.Done?)
      ensures r.Done? ==> r.value == Image(automaton, Lang(Repeat(child, min, max)), states)
      decreases child, 3
    {
      var current :- RepeatExactly(child, min, states);
      r := RepeatUpTo(child, min, max, states, current);
    }

    /** The mandatory rounds, left early at a fixpoint. */
    method RepeatExactly(child: Node, min: nat, states: set<string>) returns (r: Outcome<set<string>>)
      requires Valid() && work <= MAX_WORK && states <= automaton.prefixes && child.WellFormed()
      modifies this
      ensures Valid() && Worked(PhaseWork(automaton, child, min, Mandatory, states), r.Done?)
      ensures r.Done? ==> r.value == Iterate(automaton, Lang(child), min, states)
      decreases child, 2
    {
      var current := states;
      ghost var used: nat := 0;
      var count: nat := 0;
      while count < min
        invariant Valid() && work == old(work) + used <= MAX_WORK && current <= automaton.prefixes
        invariant InLoop(automaton, child, min, Mandatory, states, count, current, used)
      {
        var evaluated := Evaluate(child, current);
        LoopCost(automaton, child, min, Mandatory, states, count, current, used);
        var next :- evaluated;
        ghost var count', used' := count, used;
        count, used := count + 1, used + Work(automaton, child, current);
        RepeatedStep(automaton, child, min, states, count', current, used', count, next, used);
        if next == current {
          return Done(current);
        }
        current := next;
      }
      LoopEnd(automaton, child, min, Mandatory, states, count, current, used);
      return Done(current);
    }

    /** The optional rounds: the result grows inside the finite prefix set. */
    method RepeatUpTo(child: Node, min: nat, max: Bound, ghost states: set<string>, current: set<string>)
      returns (r: Outcome<set<string>>)
      requires Valid() && work <= MAX_WORK && states <= automaton.prefixes && child.WellFormed() && max.Allows(min)
      requires current == Iterate(automaton, Lang(child), min, states)
      modifies this
      ensures Valid() && Worked(PhaseWork(automaton, child, min, Optional(max), states), r.Done?)
      ensures r.Done? ==> r.value == Image(automaton, Lang(Repeat(child, min, max)), states)
      decreases child, 2
    {
      var result := current;
      var count: nat := min;
      ghost var used: nat := 0;
      while max == Infinity || count < max.n
        invariant Valid() && work == old(work) + used <= MAX_WORK && result <= automaton.prefixes
        invariant InLoop(automaton, child, min, Optional(max), states, count, result, used)
        decreases |automaton.prefixes - result|, if max == Infinity then 0 else max.n - count
      {
        var evaluated := Evaluate(child, result);
        LoopCost(automaton, child, min, Optional(max), states, count, result, used);
        var next :- evaluated;
        ghost var count', used' := count, used;
        used := used + Work(automaton, child, result);
        if next <= result {
          OptionalStop(automaton, child, min, max, states, count, result, used', used);
          return Done(result);
        }
        count := count + 1;
        OptionalStep(automaton, child, min, max, states, count', result, used', count, next, used);
        result := result + next;
      }
      LoopEnd(automaton, child, min, Optional(max), states, count, result, used);
      return Done(result);
    }
  }
}
