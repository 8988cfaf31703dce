/** The bounded worker pool (src/batch-compact.ts, lines 120-180), run against every
    interleaving of worker completions, callbacks that throw, and an abort. */
module WorkerPool {
  import opened Json
  import opened Sequences
  import opened PoolHistory

  datatype PoolResult = InvalidConcurrency | CallbackFailed | Settled(completions: seq<Completion>)

  function Indexes(cs: seq<Completion>): set<nat> {
    set c | c in cs :: c.index
  }

  ghost predicate DistinctIndexes(cs: seq<Completion>) {
    forall i, j | 0 <= i < j < |cs| :: cs[i].index != cs[j].index
  }

  /** Where every claimed index is: its worker runs; its completion is recorded while
      its task still counts as active; completed; or its onClaim threw. */
  datatype Tasks = Tasks(
    nextIndex: nat, running: set<nat>, finishing: set<nat>, completed: set<nat>, unclaimed: set<nat>)
  {
    function Active(): nat { |running| + |finishing| }

    function Start(): Tasks { this.(nextIndex := nextIndex + 1, running := running + {nextIndex}) }

    function Refuse(): Tasks { this.(nextIndex := nextIndex + 1, unclaimed := unclaimed + {nextIndex}) }

    function Settle(i: nat): Tasks {
      this.(running := running - {i}, finishing := finishing + {i}, completed := completed + {i})
    }

    function Retire(i: nat): Tasks { this.(finishing := finishing - {i}) }
  }

  // ---- where the claimed indexes are ----------------------------------------------------

  /** What holds of the tasks: claimed indexes are exactly the running, completed and refused
      ones; an index is refused exactly when its onClaim throws; and an error is kept
      exactly when an index was refused or the onResult of a completion threw. */
  datatype Account = Partition | Refusals | Errors

  ghost predicate Holds(account: Account, e: Environment, t: Tasks, callbackError: bool) {
    match account
    case Partition =>
      && t.running !! t.completed && t.unclaimed !! t.completed && t.running !! t.unclaimed
      && t.finishing <= t.completed
      && forall i: nat :: i < t.nextIndex <==> i in t.running || i in t.completed || i in t.unclaimed
    case Refusals => forall i: nat | i < t.nextIndex :: i in t.unclaimed <==> e.claimThrows(i)
    case Errors => callbackError <==> t.unclaimed != {} || exists i <- t.completed :: e.resultThrows(i)
  }

  ghost predicate Accounted(e: Environment, t: Tasks, callbackError: bool) {
    forall account :: Holds(account, e, t, callbackError)
  }

  lemma NothingClaimed(e: Environment)
    ensures Accounted(e, Tasks(0, {}, {}, {}, {}), false)
  {
  }

  lemma StartAccounted(e: Environment, t: Tasks, callbackError: bool)
    requires Accounted(e, t, callbackError) && !e.claimThrows(t.nextIndex)
    ensures Accounted(e, t.Start(), callbackError) && t.Start().Active() == t.Active() + 1
  {
    assert Holds(Partition, e, t, callbackError) && Holds(Refusals, e, t, callbackError) && Holds(Errors, e, t, callbackError);
    var i, next := t.nextIndex, t.Start();
    assert i !in t.running && i !in t.completed && i !in t.unclaimed;
    assert Holds(Partition, e, next, callbackError);
    assert Holds(Refusals, e, next, callbackError);
    assert Holds(Errors, e, next, callbackError);
  }

  lemma NextIsNew(e: Environment, t: Tasks, callbackError: bool)
    requires Accounted(e, t, callbackError)
    ensures t.nextIndex !in t.running
  {
    assert Holds(Partition, e, t, callbackError);
  }

  lemma RefuseAccounted(e: Environment, t: Tasks, callbackError: bool)
    requires Accounted(e, t, callbackError) && e.claimThrows(t.nextIndex)
    ensures Accounted(e, t.Refuse(), true)
  {
    assert Holds(Partition, e, t, callbackError) && Holds(Refusals, e, t, callbackError);
    var i, next := t.nextIndex, t.Refuse();
    assert i !in t.running && i !in t.completed && i !in t.unclaimed && i in next.unclaimed;
    assert Holds(Partition, e, next, true);
    assert Holds(Refusals, e, next, true);
    assert Holds(Errors, e, next, true);
  }

  lemma {:induction false} SettleAccounted(e: Environment, t: Tasks, i: nat, callbackError: bool, error: bool)
    requires Accounted(e, t, callbackError) && i in t.running && error == (callbackError || e.resultThrows(i))
    ensures Accounted(e, t.Settle(i), error) && i !in t.completed && t.Settle(i).Active() == t.Active()
    ensures |t.Settle(i).running| == |t.running| - 1 && |t.Settle(i).finishing| == |t.finishing| + 1
  {
    assert Holds(Partition, e, t, callbackError) && Holds(Refusals, e, t, callbackError) && Holds(Errors, e, t, callbackError);
    assert i !in t.finishing;
    assert i in t.Settle(i).completed;
    assert forall j | j in t.completed :: j in t.Settle(i).completed;
  }

  lemma RetireAccounted(e: Environment, t: Tasks, i: nat, callbackError: bool)
    requires Accounted(e, t, callbackError) && i in t.finishing
    ensures Accounted(e, t.Retire(i), callbackError) && |t.Retire(i).finishing| == |t.finishing| - 1
  {
    assert Holds(Partition, e, t, callbackError) && Holds(Refusals, e, t, callbackError) && Holds(Errors, e, t, callbackError);
  }

  /** With nothing active every claimed index has called back. */
  lemma IdleAccounted(e: Environment, t: Tasks, callbackError: bool)
    requires Accounted(e, t, callbackError) && t.running == {}
    ensures callbackError <==> e.Throws(t.nextIndex)
    ensures !callbackError ==> forall i: nat :: i in t.completed <==> i < t.nextIndex
  {
    assert Holds(Partition, e, t, callbackError) && Holds(Refusals, e, t, callbackError) && Holds(Errors, e, t, callbackError);
    if callbackError {
      if i :| i in t.unclaimed {
        assert i < t.nextIndex && e.claimThrows(i);
      } else {
        var i :| i in t.completed && e.resultThrows(i);
        assert i < t.nextIndex;
      }
    }
    if i: nat :| i < t.nextIndex && (e.claimThrows(i) || e.resultThrows(i)) {
      assert i in t.completed || i in t.unclaimed;
    }
  }

  /** The completions are those of a set, each index once and with its worker's outcome. */
  ghost predicate Recorded(e: Environment, cs: seq<Completion>, completed: set<nat>) {
    if cs == [] then completed == {}
    else
      var last := Last(cs);
      last.index in completed && last.failed == e.workerFails(last.index)
      && Recorded(e, Init(cs), completed - {last.index})
  }

  lemma RecordCompletion(e: Environment, cs: seq<Completion>, completed: set<nat>, c: Completion)
    requires Recorded(e, cs, completed) && c.index !in completed && c.failed == e.workerFails(c.index)
    ensures Recorded(e, cs + [c], completed + {c.index})
  {
    InitOfSnoc(cs, c);
    assert (completed + {c.index}) - {c.index} == completed;
  }

  lemma {:induction false} RecordedMeans(e: Environment, cs: seq<Completion>, completed: set<nat>)
    requires Recorded(e, cs, completed)
    ensures DistinctIndexes(cs) && Indexes(cs) == completed && |cs| == |completed|
    decreases |cs|
  {
    if cs != [] {
      var init, last := Init(cs), Last(cs);
      RecordedMeans(e, init, completed - {last.index});
      assert (completed - {last.index}) + {last.index} == completed;
      assert init + [last] == cs;
      AnotherIndex(init, last);
    }
  }

  lemma {:induction false} RecordedOutcome(e: Environment, cs: seq<Completion>, completed: set<nat>, c: Completion)
    requires Recorded(e, cs, completed) && c in cs
    ensures c.failed == e.workerFails(c.index)
    decreases |cs|
  {
    if c != Last(cs) { RecordedOutcome(e, Init(cs), completed - {Last(cs).index}, c); }
  }

  lemma AnotherIndex(cs: seq<Completion>, c: Completion)
    requires DistinctIndexes(cs) && c.index !in Indexes(cs)
    ensures DistinctIndexes(cs + [c]) && Indexes(cs + [c]) == Indexes(cs) + {c.index}
  {
    var all := cs + [c];
    assert forall x | x in cs :: x in all && x.index in Indexes(cs);
    assert c in all;
    assert forall i | 0 <= i < |cs| :: all[i] in cs;
  }

  /** In a calm environment nothing ever stops the pool. */
  lemma CalmGoesOn(e: Environment, claimed: nat, steps: nat)
    ensures e.Calm() ==> !e.Aborted(claimed, steps) && !e.Throws(claimed)
  {
    SomeBelow(e.claimAborts, claimed);
    SomeBelow(e.abortsAt, steps);
  }

  // ---- the history of a pool ------------------------------------------------------------

  /** What a history tells of the pool: that it is lawful, how far it got, where the tasks
      are, and what came out. */
  datatype Aspect = Law | Counts | Places | Outcome

  ghost predicate Tells(aspect: Aspect, e: Environment, total: nat, limit: int, h: seq<PoolEvent>,
                        t: Tasks, cs: seq<Completion>, steps: nat, error: bool) {
    match aspect
    case Law => Lawful(e, total, limit, h)
    case Counts => Claims(h) == t.nextIndex && InFlight(h) == t.Active() && Steps(h) == steps
    case Places => Running(h) == t.running && Finishing(h) == t.finishing
    case Outcome => CompletionsOf(e, h) == cs && Failed(e, h) == error && Recorded(e, cs, t.completed)
  }

  ghost predicate Logged(e: Environment, total: nat, limit: int, h: seq<PoolEvent>,
                         t: Tasks, cs: seq<Completion>, steps: nat, error: bool) {
    forall aspect: Aspect :: Tells(aspect, e, total, limit, h, t, cs, steps, error)
  }

  lemma NothingLogged(e: Environment, total: nat, limit: int)
    ensures Logged(e, total, limit, [], Tasks(0, {}, {}, {}, {}), [], 0, false)
  {
  }

  lemma LogMeans(e: Environment, total: nat, limit: int, h: seq<PoolEvent>,
                 t: Tasks, cs: seq<Completion>, steps: nat, error: bool)
    ensures Logged(e, total, limit, h, t, cs, steps, error)
        <==> Lawful(e, total, limit, h) && Claims(h) == t.nextIndex && InFlight(h) == t.Active() && Steps(h) == steps
             && Running(h) == t.running && Finishing(h) == t.finishing
             && CompletionsOf(e, h) == cs && Failed(e, h) == error && Recorded(e, cs, t.completed)
  {
    if Logged(e, total, limit, h, t, cs, steps, error) {
      assert Tells(Law, e, total, limit, h, t, cs, steps, error) && Tells(Counts, e, total, limit, h, t, cs, steps, error);
      assert Tells(Places, e, total, limit, h, t, cs, steps, error) && Tells(Outcome, e, total, limit, h, t, cs, steps, error);
    }
  }

  /** One more claim, taken or refused. */
  lemma LogClaim(e: Environment, total: nat, limit: int, h: seq<PoolEvent>, t: Tasks, cs: seq<Completion>, steps: nat, error: bool)
    returns (h': seq<PoolEvent>)
    requires Logged(e, total, limit, h, t, cs, steps, error) && t.nextIndex < total && t.Active() < limit
    requires !e.Aborted(t.nextIndex, steps) && !error && t.nextIndex !in t.running
    ensures h <= h' && |h'| == |h| + 1
    ensures if e.claimThrows(t.nextIndex) then Logged(e, total, limit, h', t.Refuse(), cs, steps, true)
            else Logged(e, total, limit, h', t.Start(), cs, steps, error)
  {
    LogMeans(e, total, limit, h, t, cs, steps, error);
    var event := if e.claimThrows(t.nextIndex) then Refused(t.nextIndex) else Claimed(t.nextIndex);
    h' := h + [event];
    InitOfSnoc(h, event);
    if e.claimThrows(t.nextIndex) {
      LogMeans(e, total, limit, h', t.Refuse(), cs, steps, true);
    } else {
      LogMeans(e, total, limit, h', t.Start(), cs, steps, error);
    }
  }

  lemma LogWait(e: Environment, total: nat, limit: int, h: seq<PoolEvent>, t: Tasks, cs: seq<Completion>, steps: nat, error: bool)
    returns (h': seq<PoolEvent>)
    requires Logged(e, total, limit, h, t, cs, steps, error) && t.Active() > 0
    requires t.nextIndex >= total || t.Active() >= limit || e.Aborted(t.nextIndex, steps) || error
    ensures Logged(e, total, limit, h', t, cs, steps, error) && InTransit(h')
  {
    LogMeans(e, total, limit, h, t, cs, steps, error);
    h' := h + [Waiting];
    InitOfSnoc(h, Waiting);
    LogMeans(e, total, limit, h', t, cs, steps, error);
  }

  /** Nothing was claimed since the pool began to wait. */
  predicate InTransit(h: seq<PoolEvent>) {
    h != [] && !Last(h).Claimed? && !Last(h).Refused?
  }

  lemma LogFinish(e: Environment, total: nat, limit: int, h: seq<PoolEvent>, t: Tasks, cs: seq<Completion>, steps: nat, error: bool,
                  i: nat, error': bool, steps': nat) returns (h': seq<PoolEvent>)
    requires Logged(e, total, limit, h, t, cs, steps, error) && i in t.running && i !in t.completed && InTransit(h)
    requires t.Settle(i).Active() == t.Active() && error' == (error || e.resultThrows(i)) && steps' == steps + 1
    ensures Logged(e, total, limit, h', t.Settle(i), cs + [Completion(i, e.workerFails(i))], steps', error')
    ensures InTransit(h')
  {
    LogMeans(e, total, limit, h, t, cs, steps, error);
    h' := h + [Finished(i)];
    InitOfSnoc(h, Finished(i));
    RecordCompletion(e, cs, t.completed, Completion(i, e.workerFails(i)));
    LogMeans(e, total, limit, h', t.Settle(i), cs + [Completion(i, e.workerFails(i))], steps', error');
  }

  lemma {:induction false} SettleStep(e: Environment, total: nat, limit: int, h: seq<PoolEvent>, t: Tasks, cs: seq<Completion>,
      steps: nat, error: bool, i: nat, t': Tasks, cs': seq<Completion>, steps': nat, error': bool) returns (h': seq<PoolEvent>)
    requires Accounted(e, t, error) && Logged(e, total, limit, h, t, cs, steps, error) && i in t.running && InTransit(h)
    requires t' == t.Settle(i) && cs' == cs + [Completion(i, e.workerFails(i))]
    requires steps' == steps + 1 && error' == (error || e.resultThrows(i))
    ensures Accounted(e, t', error') && Logged(e, total, limit, h', t', cs', steps', error') && InTransit(h')
    ensures t'.nextIndex == t.nextIndex && |t'.running| == |t.running| - 1 && |t'.finishing| == |t.finishing| + 1
  {
    SettleAccounted(e, t, i, error, error');
    h' := LogFinish(e, total, limit, h, t, cs, steps, error, i, error', steps');
  }

  lemma LogRetire(e: Environment, total: nat, limit: int, h: seq<PoolEvent>, t: Tasks, cs: seq<Completion>, steps: nat, error: bool,
                  i: nat, steps': nat) returns (h': seq<PoolEvent>)
    requires Logged(e, total, limit, h, t, cs, steps, error) && i in t.finishing && InTransit(h) && steps' == steps + 1
    ensures Logged(e, total, limit, h', t.Retire(i), cs, steps', error) && InTransit(h')
  {
    LogMeans(e, total, limit, h, t, cs, steps, error);
    h' := h + [Retired(i)];
    InitOfSnoc(h, Retired(i));
    LogMeans(e, total, limit, h', t.Retire(i), cs, steps', error);
  }

  // ---- the pool ------------------------------------------------------------------------

  class Pool {
    const total: nat            // items are discovery indexes 0..total
    const maxConcurrency: int
    const environment: Environment
    var tasks: Tasks
    var completions: seq<Completion>
    var steps: nat
    var aborted: bool
    var callbackError: bool
    ghost var history: seq<PoolEvent>

    ghost predicate Stopped()
      reads this
    {
      aborted || callbackError
    }

    ghost predicate Valid()
      reads this
    {
      && tasks.nextIndex <= total && 1 <= maxConcurrency
      && Accounted(environment, tasks, callbackError)
      && Logged(environment, total, maxConcurrency, history, tasks, completions, steps, callbackError)
      && aborted == environment.Aborted(tasks.nextIndex, steps)
    }

    constructor (total: nat, maxConcurrency: int, environment: Environment)
      requires maxConcurrency >= 1
      ensures Valid() && tasks == Tasks(0, {}, {}, {}, {}) && completions == [] && !callbackError
      ensures aborted == environment.abortedBefore
      ensures this.total == total && this.maxConcurrency == maxConcurrency && this.environment == environment
    {
      this.total, this.maxConcurrency, this.environment := total, maxConcurrency, environment;
      NothingClaimed(environment);
      NothingLogged(environment, total, maxConcurrency);
      tasks, completions, steps := Tasks(0, {}, {}, {}, {}), [], 0;
      aborted, callbackError, history := environment.abortedBefore, false, [];
    }

    ghost function Measure(): nat
      reads this
      requires tasks.nextIndex <= total
    {
      3 * (total - tasks.nextIndex) + 2 * |tasks.running| + |tasks.finishing|
    }

    /** Claim the next indexes in order while there is room and nothing has stopped the pool. */
    method Claim()
      requires Valid()
      modifies this
      ensures Valid() && old(tasks).nextIndex <= tasks.nextIndex
      ensures completions == old(completions) && tasks.finishing == old(tasks).finishing
      ensures old(Stopped()) ==> Stopped() && tasks == old(tasks)
      ensures tasks.nextIndex < total && !Stopped() ==> tasks.Active() >= maxConcurrency
      ensures !old(Stopped()) && old(tasks).Active() < maxConcurrency && old(tasks).nextIndex < total ==>
        tasks.nextIndex > old(tasks).nextIndex
      ensures Measure() <= old(Measure())
    {
      while tasks.Active() < maxConcurrency && tasks.nextIndex < total && !aborted && !callbackError
        invariant Valid() && old(tasks).nextIndex <= tasks.nextIndex
        invariant completions == old(completions) && tasks.finishing == old(tasks).finishing
        invariant old(Stopped()) ==> Stopped() && tasks == old(tasks)
        invariant tasks.nextIndex == old(tasks).nextIndex ==> tasks == old(tasks) && Stopped() == old(Stopped())
        invariant Measure() <= old(Measure())
        decreases total - tasks.nextIndex
      {
        ClaimNext();
      }
    }

    /** onClaim runs for the next index; if it throws, the index never becomes active. */
    method ClaimNext()
      requires Valid() && tasks.Active() < maxConcurrency && tasks.nextIndex < total && !Stopped()
      modifies this
      ensures Valid() && completions == old(completions) && steps == old(steps)
      ensures
        if environment.claimThrows(old(tasks).nextIndex) then tasks == old(tasks).Refuse() && callbackError
        else tasks == old(tasks).Start()
      ensures Measure() < old(Measure())
    {
      var index := tasks.nextIndex;
      NextIsNew(environment, tasks, callbackError);
      history := LogClaim(environment, total, maxConcurrency, history, tasks, completions, steps, callbackError);
      if environment.claimThrows(index) {
        RefuseAccounted(environment, tasks, callbackError);
        tasks, callbackError := tasks.Refuse(), true;
      } else {
        StartAccounted(environment, tasks, callbackError);
        tasks := tasks.Start();
      }
      aborted := environment.claimAborts(index);
    }

    /** A worker settles, its completion is recorded, and onResult may throw, of which only
        the first error is kept; the signal may abort meanwhile. */
    method Settle(index: nat)
      requires Valid() && index in tasks.running && InTransit(history)
      modifies this
      ensures Valid() && tasks == old(tasks).Settle(index) && InTransit(history)
      ensures completions == old(completions) + [Completion(index, environment.workerFails(index))]
      ensures callbackError == (old(callbackError) || environment.resultThrows(index))
      ensures steps == old(steps) + 1 && aborted == (old(aborted) || environment.abortsAt(old(steps)))
      ensures Measure() < old(Measure())
    {
      var completion, error := Completion(index, environment.workerFails(index)), callbackError || environment.resultThrows(index);
      var settled, steps' := tasks.Settle(index), steps + 1;
      history := SettleStep(environment, total, maxConcurrency, history, tasks, completions, steps, callbackError,
                            index, settled, completions + [completion], steps', error);
      aborted := aborted || environment.abortsAt(steps);
      completions, tasks, callbackError, steps := completions + [completion], settled, error, steps';
    }

    /** The settled task leaves the active set. */
    method Retire(index: nat)
      requires Valid() && index in tasks.finishing && InTransit(history)
      modifies this
      ensures Valid() && tasks == old(tasks).Retire(index) && completions == old(completions) && InTransit(history)
      ensures callbackError == old(callbackError)
      ensures steps == old(steps) + 1 && aborted == (old(aborted) || environment.abortsAt(old(steps)))
      ensures Measure() < old(Measure())
    {
      RetireAccounted(environment, tasks, index, callbackError);
      aborted := aborted || environment.abortsAt(steps);
      ghost var steps' := steps;
      steps := steps + 1;
      history := LogRetire(environment, total, maxConcurrency, history, tasks, completions, steps', callbackError, index, steps);
      tasks := tasks.Retire(index);
    }

    /** One step of some active task. */
    method Step() returns (retired: bool)
      requires Valid() && tasks.Active() > 0 && InTransit(history)
      modifies this
      ensures Valid() && tasks.nextIndex == old(tasks).nextIndex && InTransit(history)
      ensures old(Stopped()) ==> Stopped()
      ensures !retired ==> tasks.Active() > 0
      ensures Measure() < old(Measure())
    {
      var settle: bool := *;
      if tasks.running != {} && (settle || tasks.finishing == {}) {
        var index :| index in tasks.running;
        Settle(index);
        assert index in tasks.finishing;
        retired := false;
      } else {
        assert tasks.finishing != {};
        var index :| index in tasks.finishing;
        Retire(index);
        retired := true;
      }
    }

    /** Any interleaving of steps in which at least one task leaves the active set. */
    method AwaitRace()
      requires Valid() && tasks.Active() > 0
      requires tasks.nextIndex < total && !Stopped() ==> tasks.Active() >= maxConcurrency
      modifies this
      ensures Valid() && tasks.nextIndex == old(tasks).nextIndex
      ensures old(Stopped()) ==> Stopped()
      ensures Measure() < old(Measure())
    {
      history := LogWait(environment, total, maxConcurrency, history, tasks, completions, steps, callbackError);
      var retired := Step();
      while !retired
        invariant Valid() && tasks.nextIndex == old(tasks).nextIndex && Measure() < old(Measure()) && InTransit(history)
        invariant old(Stopped()) ==> Stopped()
        invariant !retired ==> tasks.Active() > 0
        decreases Measure()
      {
        retired := Step();
      }
      var more: bool := *;
      while more && tasks.Active() > 0
        invariant Valid() && tasks.nextIndex == old(tasks).nextIndex && Measure() < old(Measure()) && InTransit(history)
        invariant old(Stopped()) ==> Stopped()
        decreases Measure()
      {
        var _ := Step();
        more := *;
      }
    }

    method Drain()
      requires Valid() && tasks.Active() == 0
      modifies this
      ensures Valid() && tasks.Active() == 0
      ensures tasks.nextIndex < total ==> Stopped()
      ensures old(Stopped()) ==> tasks.nextIndex == old(tasks).nextIndex
      ensures !old(Stopped()) && old(tasks).nextIndex < total ==> tasks.nextIndex > old(tasks).nextIndex
    {
      Claim();
      ghost var first := tasks.nextIndex;
      while tasks.Active() > 0
        invariant Valid() && first <= tasks.nextIndex
        invariant old(Stopped()) ==> Stopped() && tasks.nextIndex == old(tasks).nextIndex
        invariant tasks.nextIndex < total && !Stopped() ==> tasks.Active() >= maxConcurrency
        decreases Measure()
      {
        AwaitRace();
        Claim();
      }
    }
  }

  predicate SafeConcurrency(maxConcurrency: int) {
    1 <= maxConcurrency <= MAX_SAFE_INTEGER
  }

  /** The pool settles only when nothing is active.  It fails exactly when a callback of a
      claimed index threw; otherwise the completions are exactly the claimed prefix, which
      is everything unless the signal aborted.  In whatever order the tasks take their
      steps, its history is lawful: never more tasks in flight than the limit, and never
      fewer while it waits with items left and nothing has stopped it. */
  method RunBatchWorkerPool(total: nat, maxConcurrency: int, environment: Environment)
    returns (r: PoolResult, claimed: nat, steps: nat, ghost history: seq<PoolEvent>)
    ensures r.InvalidConcurrency? <==> !SafeConcurrency(maxConcurrency)
    ensures !r.InvalidConcurrency? ==> Lawful(environment, total, maxConcurrency, history) && InFlight(history) == 0
    ensures !r.InvalidConcurrency? ==> claimed == Claims(history) && steps == Steps(history)
    ensures r.CallbackFailed? <==> Failed(environment, history)
    ensures r.Settled? ==> r.completions == CompletionsOf(environment, history)
    ensures !r.InvalidConcurrency? ==> (r.CallbackFailed? <==> environment.Throws(claimed))
    ensures !r.InvalidConcurrency? && claimed < total ==> environment.Throws(claimed) || environment.Aborted(claimed, steps)
    ensures environment.abortedBefore ==> claimed == 0
    ensures !r.InvalidConcurrency? && !environment.abortedBefore && total > 0 ==> claimed > 0
    ensures SafeConcurrency(maxConcurrency) && environment.Calm() ==> r.Settled? && claimed == total
    ensures r.Settled? ==> DistinctIndexes(r.completions) && |r.completions| == claimed
    ensures r.Settled? ==> forall i: nat :: i in Indexes(r.completions) <==> i < claimed
    ensures r.Settled? ==> forall c <- r.completions :: c.failed == environment.workerFails(c.index)
  {
    claimed, steps, history := 0, 0, [];
    if !(1 <= maxConcurrency <= MAX_SAFE_INTEGER) {
      return InvalidConcurrency, claimed, steps, history;
    }
    var pool := new Pool(total, maxConcurrency, environment);
    pool.Drain();
    IdleAccounted(environment, pool.tasks, pool.callbackError);
    claimed, steps, history := pool.tasks.nextIndex, pool.steps, pool.history;
    LogMeans(environment, total, maxConcurrency, history, pool.tasks, pool.completions, steps, pool.callbackError);
    CalmGoesOn(environment, claimed, steps);
    if pool.callbackError {
      return CallbackFailed, claimed, steps, history;
    }
    RecordedMeans(environment, pool.completions, pool.tasks.completed);
    CountUpTo(Indexes(pool.completions), pool.tasks.nextIndex);
    forall c <- pool.completions ensures c.failed == environment.workerFails(c.index) {
      RecordedOutcome(environment, pool.completions, pool.tasks.completed, c);
    }
    r := Settled(pool.completions);
  }

  lemma {:induction false} CountUpTo(s: set<nat>, n: nat)
    requires forall i: nat :: i in s <==> i < n
    ensures |s| == n
  {
    if n == 0 {
      assert s == {};
    } else {
      CountUpTo(s - {n - 1}, n - 1);
    }
  }
}
