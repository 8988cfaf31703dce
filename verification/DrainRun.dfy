/** The retry loop that drains an invocation, and the managed restarts it admits
    (bin/lcm.ts, lines 641-921, 931-946). */
module DrainRun {
  import opened Options
  import opened Invocation
  import opened DrainRound
  import opened Sequences

  // ---- the managed restarts of a run --------------------------------------------------------

  /** A restart was started, or the last one was seen to settle, with a value or without. */
  datatype RestartEvent = Started | Seen(succeeded: bool)

  function Unsettled(events: seq<RestartEvent>): int {
    if events == [] then 0
    else Unsettled(events[..|events| - 1]) + (if events[|events| - 1].Started? then 1 else -1)
  }

  predicate Succeeded(events: seq<RestartEvent>) {
    Seen(true) in events
  }

  /** Every restart was started while none was unsettled and none had succeeded. */
  predicate Lawful(events: seq<RestartEvent>) {
    events == []
    || (var before, last := events[..|events| - 1], events[|events| - 1];
        Lawful(before)
        && (if last.Started? then Unsettled(before) == 0 && !Succeeded(before) else Unsettled(before) == 1))
  }

  /** At every moment of a lawful run at most one managed restart is unsettled. */
  lemma {:induction false} AtMostOneUnsettled(events: seq<RestartEvent>, i: nat)
    requires Lawful(events) && i <= |events|
    ensures Lawful(events[..i]) && 0 <= Unsettled(events[..i]) <= 1
    decreases |events|, i
  {
    if i < |events| {
      assert events[..|events| - 1][..i] == events[..i];
      AtMostOneUnsettled(events[..|events| - 1], i);
    } else {
      assert events[..i] == events;
      if events != [] {
        var before := events[..|events| - 1];
        AtMostOneUnsettled(before, |before|);
        assert before[..|before|] == before;
      }
    }
  }

  /** Once a restart succeeded there is nothing more: none is started and none is awaited. */
  lemma {:induction false} SuccessIsLast(events: seq<RestartEvent>, i: nat)
    requires Lawful(events) && i < |events| && events[i] == Seen(true)
    ensures i == |events| - 1
    decreases |events|
  {
    var before := events[..|events| - 1];
    if i < |before| {
      assert before[i] == Seen(true) && Succeeded(before);
      SuccessIsLast(before, i);
    }
  }

  // ---- a run of rounds ---------------------------------------------------------------------------

  /** What carries over between rounds. */
  datatype Standing = Standing(start: Start, session: Session)

  /** A round begins after any reply to the start that arrived meanwhile. */
  function Begin(options: DrainOptions, standing: Standing, round: Round): Standing {
    standing.(start := standing.start.Receive(round.startReply, options.target))
  }

  function StandingAfter(options: DrainOptions, standing: Standing, rounds: seq<Round>): Standing {
    if rounds == [] then standing
    else
      var last := rounds[|rounds| - 1];
      var begin := Begin(options, StandingAfter(options, standing, rounds[..|rounds| - 1]), last);
      Standing(begin.start, NextSession(options, begin.start, begin.session, last))
  }

  predicate ProvedAt(options: DrainOptions, standing: Standing, rounds: seq<Round>, i: nat)
    requires i < |rounds|
  {
    var begin := Begin(options, StandingAfter(options, standing, rounds[..i]), rounds[i]);
    Proved(options, begin.start, begin.session, rounds[i])
  }

  /** The first round that proves the invocation drained. */
  function FirstProved(options: DrainOptions, standing: Standing, rounds: seq<Round>): Option<nat> {
    FirstProvedFrom(options, standing, rounds, 0)
  }

  function FirstProvedFrom(options: DrainOptions, standing: Standing, rounds: seq<Round>, i: nat): Option<nat>
    requires i <= |rounds|
    decreases |rounds| - i
  {
    if i == |rounds| then None
    else if ProvedAt(options, standing, rounds, i) then Some(i)
    else FirstProvedFrom(options, standing, rounds, i + 1)
  }

  lemma {:induction false} FirstProvedHolds(options: DrainOptions, standing: Standing, rounds: seq<Round>, i: nat)
    requires i <= |rounds|
    ensures
      var last := FirstProvedFrom(options, standing, rounds, i);
      last.Some? ==> i <= last.value < |rounds| && ProvedAt(options, standing, rounds, last.value)
    decreases |rounds| - i
  {
    if i < |rounds| && !ProvedAt(options, standing, rounds, i) {
      FirstProvedHolds(options, standing, rounds, i + 1);
    }
  }

  lemma {:induction false} CoherentAfter(options: DrainOptions, standing: Standing, rounds: seq<Round>)
    requires Coherent(standing.session)
    ensures Coherent(StandingAfter(options, standing, rounds).session)
  {
    if rounds != [] {
      var init, last := rounds[..|rounds| - 1], rounds[|rounds| - 1];
      CoherentAfter(options, standing, init);
      var begin := Begin(options, StandingAfter(options, standing, init), last);
      StaysCoherent(options, begin.start, begin.session, last);
    }
  }

  /** A drain returns only on the evidence of its final round. */
  lemma ReturnsOnEvidence(options: DrainOptions, standing: Standing, rounds: seq<Round>)
    requires Coherent(standing.session) && FirstProved(options, standing, rounds).Some?
    ensures
      var last := FirstProved(options, standing, rounds).value;
      last < |rounds|
      && var begin := Begin(options, StandingAfter(options, standing, rounds[..last]), rounds[last]);
         Evidence(options, begin.start, begin.session, rounds[last])
  {
    FirstProvedHolds(options, standing, rounds, 0);
    var last := FirstProved(options, standing, rounds).value;
    var begin := Begin(options, StandingAfter(options, standing, rounds[..last]), rounds[last]);
    CoherentAfter(options, standing, rounds[..last]);
    ProvedHasEvidence(options, begin.start, begin.session, rounds[last]);
  }

  /** A start that was sent stays possibly registered whatever replies arrive. */
  lemma {:induction false} SentStaysRegistered(options: DrainOptions, standing: Standing, rounds: seq<Round>)
    requires standing.start.PossiblyRegistered()
    ensures StandingAfter(options, standing, rounds).start.PossiblyRegistered()
  {
    if rounds != [] {
      SentStaysRegistered(options, standing, rounds[..|rounds| - 1]);
    }
  }

  // ---- the log of a run ------------------------------------------------------------------------

  /** What waiting for a restart adds to the log. */
  function SeenOf(reply: Outcome<Option<Restart>>): seq<RestartEvent> {
    match reply
    case Settled(value) => [Seen(value.Some?)]
    case Failed(_) => [Seen(false)]
    case TimedOut => []
  }

  function RoundEvents(options: DrainOptions, standing: Standing, round: Round): seq<RestartEvent> {
    if StartsRestart(options, standing.start, standing.session, round) then [Started] + SeenOf(round.restart)
    else if AwaitsRestart(options, standing.start, standing.session, round) then SeenOf(round.restart)
    else []
  }

  /** How many restarts a log starts. */
  function Starts(events: seq<RestartEvent>): nat {
    if events == [] then 0 else (if events[0].Started? then 1 else 0) + Starts(events[1..])
  }

  lemma {:induction false} StartsConcat(a: seq<RestartEvent>, b: seq<RestartEvent>)
    ensures Starts(a + b) == Starts(a) + Starts(b)
    decreases |a|
  {
    if a == [] {
      assert a + b == b;
    } else {
      assert (a + b)[1..] == a[1..] + b;
      StartsConcat(a[1..], b);
    }
  }

  lemma RoundStarts(options: DrainOptions, standing: Standing, round: Round)
    ensures Starts(RoundEvents(options, standing, round))
         == if StartsRestart(options, standing.start, standing.session, round) then 1 else 0
  {
    var seen := SeenOf(round.restart);
    assert Starts(seen) == 0;
    assert ([Started] + seen)[1..] == seen;
  }

  /** The log of a run, each round begun with the replies that arrived meanwhile. */
  function EventsOf(options: DrainOptions, standing: Standing, rounds: seq<Round>): seq<RestartEvent> {
    if rounds == [] then []
    else
      var init, last := rounds[..|rounds| - 1], rounds[|rounds| - 1];
      EventsOf(options, standing, init)
      + RoundEvents(options, Begin(options, StandingAfter(options, standing, init), last), last)
  }

  /** While the original daemon answers in time and healthy, no round of a run restarts it. */
  lemma {:induction false} HealthyIsNeverRestarted(options: DrainOptions, standing: Standing, rounds: seq<Round>)
    requires forall round <- rounds :: OriginalAnswers(options, round)
    ensures Starts(EventsOf(options, standing, rounds)) == 0
    decreases |rounds|
  {
    if rounds != [] {
      var init, last := rounds[..|rounds| - 1], rounds[|rounds| - 1];
      HealthyIsNeverRestarted(options, standing, init);
      var begin := Begin(options, StandingAfter(options, standing, init), last);
      OriginalIsNotRestarted(options, begin.start, begin.session, last);
      RoundStarts(options, begin, last);
      StartsConcat(EventsOf(options, standing, init), RoundEvents(options, begin, last));
    }
  }

  // ---- the session ----------------------------------------------------------------------------

  class Drain {
    const options: DrainOptions
    const lifecycle: Lifecycle
    var restartAttempted: bool
    var restartPending: bool
    var restart: Option<Restart>
    ghost var events: seq<RestartEvent>

    ghost predicate Valid()
      reads this
    {
      Lawful(events) && options.target == lifecycle.target
      && Unsettled(events) == (if restartPending then 1 else 0)
      && (Succeeded(events) <==> restart.Some?)
      && (restartAttempted <==> restartPending || restart.Some?)
      && !(restartPending && restart.Some?)
    }

    constructor (options: DrainOptions, lifecycle: Lifecycle)
      requires options.target == lifecycle.target
      ensures Valid() && this.options == options && this.lifecycle == lifecycle && events == []
    {
      this.options := options;
      this.lifecycle := lifecycle;
      restartAttempted, restartPending, restart := false, false, None;
      events := [];
    }

    function CurrentSession(): Session
      reads this
    {
      Session(restartAttempted, restartPending, restart)
    }

    function CurrentStart(): Start
      reads this, lifecycle
    {
      Start(lifecycle.startState, lifecycle.deadline)
    }

    /** Wait for the pending restart, bounded. A restart that settled without a value no
        longer owns admission. */
    method AwaitRestart(reply: Outcome<Option<Restart>>) returns (settled: Option<Restart>)
      requires Valid() && restartPending
      modifies this
      ensures Valid() && events == old(events) + SeenOf(reply)
      ensures CurrentSession() == AfterRestart(reply) && settled == restart
    {
      settled := None;
      if reply.Settled? && reply.value.Some? {
        Grow(events, Seen(true));
        restart := reply.value;
        restartPending := false;
        settled := restart;
        events := events + [Seen(true)];
      } else if !reply.TimedOut? {
        Grow(events, Seen(false));
        restartAttempted := false;
        restartPending := false;
        events := events + [Seen(false)];
      }
    }

    /** Start a managed restart, at once the only unsettled one, and wait for it. */
    method StartRestart(reply: Outcome<Option<Restart>>) returns (settled: Option<Restart>)
      requires Valid() && !restartAttempted
      modifies this
      ensures Valid() && events == old(events) + ([Started] + SeenOf(reply))
      ensures CurrentSession() == AfterRestart(reply) && settled == restart
    {
      Grow(events, Started);
      restartAttempted := true;
      restartPending := true;
      events := events + [Started];
      settled := AwaitRestart(reply);
    }

    /** One round. */
    method CancelAndDrain(round: Round) returns (result: Result)
      requires Valid() && lifecycle.Valid()
      modifies this
      ensures Valid()
      ensures events == old(events) + RoundEvents(options, Standing(old(CurrentStart()), old(CurrentSession())), round)
      ensures OriginalAnswers(options, round) ==> Starts(events) == Starts(old(events))
      ensures
        (round.onTime && !OriginalAnswers(options, round) && options.mayRestart && !old(restartAttempted)
         && !(result.daemonZero && result.localSettled)) ==> Starts(events) == Starts(old(events)) + 1
      ensures CurrentSession() == NextSession(options, old(CurrentStart()), old(CurrentSession()), round)
      ensures result.daemonZero && result.localSettled <==> Proved(options, old(CurrentStart()), old(CurrentSession()), round)
      ensures result.restartAttempted <==>
        StartsRestart(options, old(CurrentStart()), old(CurrentSession()), round)
        || (TurnsToRestart(options, old(CurrentStart()), round) && old(restartAttempted))
      ensures result.replacementVerified <==> ProvesReplaced(options, old(CurrentStart()), old(CurrentSession()), round)
    {
      ghost var standing := Standing(CurrentStart(), CurrentSession());
      RoundStarts(options, standing, round);
      StartsConcat(events, RoundEvents(options, standing, round));
      if !lifecycle.possiblyRegistered { return Result(true, true, false, false); }
      var start := CurrentStart();
      var localSettled := LocalSettled(round);
      var daemonZero := ZeroOnCancel(options, round);
      var originalReachable;
      daemonZero, originalReachable := RetryOnSameInstance(options, start, round, daemonZero);
      var attempted, verified := false, false;
      if (!daemonZero || !localSettled) && restartAttempted {
        attempted := true;
        var candidate := restart;
        if restart.None? && restartPending { candidate := AwaitRestart(round.restart); }
        if candidate.Some? {
          verified := ProveReplacement(options, round, candidate.value);
          if verified { daemonZero := true; }
        }
      } else if (!daemonZero || !localSettled) && options.mayRestart && !originalReachable && !restartAttempted {
        attempted := true;
        var candidate := StartRestart(round.restart);
        if candidate.Some? {
          verified := ProveReplacement(options, round, candidate.value);
          if verified { daemonZero := true; }
        }
      }
      return Result(daemonZero, localSettled, attempted, verified);
    }

    /** One round after the reply to the start that arrived meanwhile, if any. */
    method NextRound(round: Round) returns (proved: bool)
      requires Valid() && lifecycle.Valid()
      modifies this, lifecycle
      ensures Valid() && lifecycle.Valid()
      ensures
        var begin := Begin(options, Standing(old(CurrentStart()), old(CurrentSession())), round);
        && CurrentStart() == begin.start
        && CurrentSession() == NextSession(options, begin.start, begin.session, round)
        && events == old(events) + RoundEvents(options, begin, round)
        && proved == Proved(options, begin.start, begin.session, round)
    {
      if lifecycle.startState == Sent && round.startReply.Some? {
        lifecycle.Receive(round.startReply.value);
      }
      var result := CancelAndDrain(round);
      proved := result.daemonZero && result.localSettled;
    }

    /** Rounds until one proves the invocation drained, over any finite run of replies: the
        number of the round that returned, or nothing while the run goes on. */
    method DrainUntilProved(rounds: seq<Round>) returns (last: Option<nat>)
      requires Valid() && lifecycle.Valid()
      modifies this, lifecycle
      ensures Valid() && lifecycle.Valid()
      ensures last == FirstProved(options, Standing(old(CurrentStart()), old(CurrentSession())), rounds)
      ensures events
           == old(events) + EventsOf(options, Standing(old(CurrentStart()), old(CurrentSession())), Through(rounds, last))
    {
      ghost var standing, before := Standing(CurrentStart(), CurrentSession()), events;
      ghost var done: seq<Round>, log: seq<RestartEvent> := [], [];
      var i: nat := 0;
      while i < |rounds|
        invariant Valid() && lifecycle.Valid() && i <= |rounds| && done == rounds[..i]
        invariant events == before + log && log == EventsOf(options, standing, done)
        invariant Standing(CurrentStart(), CurrentSession()) == StandingAfter(options, standing, done)
        invariant FirstProved(options, standing, rounds) == FirstProvedFrom(options, standing, rounds, i)
      {
        var round := rounds[i];
        ghost var added := RoundAdds(options, standing, done, round);
        var proved := NextRound(round);
        Associates(before, log, added);
        log := log + added;
        ghost var i', done' := i, done;
        i, done := i + 1, done + [round];
        FirstProvedNext(options, standing, rounds, i', i, done', done);
        if proved { return Some(i - 1); }
      }
      assert done == rounds;
      return None;
    }
  }

  /** The rounds up to the one that returned. */
  function Through(rounds: seq<Round>, last: Option<nat>): seq<Round> {
    if last.Some? && last.value < |rounds| then rounds[..last.value + 1] else rounds
  }

  lemma RoundAdds(options: DrainOptions, standing: Standing, rounds: seq<Round>, round: Round)
    returns (added: seq<RestartEvent>)
    ensures
      var begin := Begin(options, StandingAfter(options, standing, rounds), round);
      && added == RoundEvents(options, begin, round)
      && StandingAfter(options, standing, rounds + [round])
         == Standing(begin.start, NextSession(options, begin.start, begin.session, round))
      && EventsOf(options, standing, rounds + [round])
         == EventsOf(options, standing, rounds) + added
  {
    added := RoundEvents(options, Begin(options, StandingAfter(options, standing, rounds), round), round);
    assert (rounds + [round])[..|rounds|] == rounds;
  }

  lemma FirstProvedNext(options: DrainOptions, standing: Standing, rounds: seq<Round>, i: nat, i': nat,
                        done: seq<Round>, done': seq<Round>)
    requires i < |rounds| && i' == i + 1 && done == rounds[..i] && done' == done + [rounds[i]]
    ensures done' == rounds[..i'] == Through(rounds, Some(i))
    ensures
      var begin := Begin(options, StandingAfter(options, standing, done), rounds[i]);
      if Proved(options, begin.start, begin.session, rounds[i]) then FirstProvedFrom(options, standing, rounds, i) == Some(i)
      else FirstProvedFrom(options, standing, rounds, i) == FirstProvedFrom(options, standing, rounds, i')
  {
  }

  lemma Grow(events: seq<RestartEvent>, event: RestartEvent)
    ensures
      var longer := events + [event];
      Unsettled(longer) == Unsettled(events) + (if event.Started? then 1 else -1)
      && (Succeeded(longer) <==> Succeeded(events) || event == Seen(true))
      && (Lawful(longer) <==>
        Lawful(events)
        && (if event.Started? then Unsettled(events) == 0 && !Succeeded(events) else Unsettled(events) == 1))
  {
    var longer := events + [event];
    assert longer[..|longer| - 1] == events;
  }
}
