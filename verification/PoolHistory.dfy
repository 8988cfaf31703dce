/** What happens in a worker pool, moment by moment, and which histories are lawful
    (src/batch-compact.ts, lines 120-180). */
module PoolHistory {
  import opened Sequences

  datatype Completion = Completion(index: nat, failed: bool)

  // ---- the environment ---------------------------------------------------------------

  /** Some number below n satisfies p. */
  predicate Some(p: nat -> bool, n: nat) {
    n > 0 && (p(n - 1) || Some(p, n - 1))
  }

  lemma {:induction false} SomeBelow(p: nat -> bool, n: nat)
    ensures Some(p, n) <==> exists i: nat :: i < n && p(i)
  {
    if n > 0 { SomeBelow(p, n - 1); }
  }

  /** What the callbacks, the workers and the signal do: whether the signal has aborted
      before the call, which calls of onClaim throw or abort, which workers fail, for which
      completions onResult throws, and at which steps the signal aborts.  The order of the
      steps is not fixed: a pool may take any. */
  datatype Environment = Environment(
    abortedBefore: bool, claimThrows: nat -> bool, claimAborts: nat -> bool,
    workerFails: nat -> bool, resultThrows: nat -> bool, abortsAt: nat -> bool)
  {
    /** The signal has aborted when so many indexes are claimed and steps taken. */
    ghost predicate Aborted(claimed: nat, steps: nat) {
      abortedBefore || Some(claimAborts, claimed) || Some(abortsAt, steps)
    }

    /** Some callback for the claimed indexes throws. */
    ghost predicate Throws(claimed: nat) {
      exists i: nat :: i < claimed && (claimThrows(i) || resultThrows(i))
    }

    ghost predicate Calm() {
      !abortedBefore && forall i: nat :: !claimThrows(i) && !claimAborts(i) && !resultThrows(i) && !abortsAt(i)
    }
  }

  // ---- histories -----------------------------------------------------------------------

  /** An index was claimed, or claimed and refused because its onClaim threw; the pool began
      to wait for a task; a worker finished and its completion was recorded; its task left
      the active set. */
  datatype PoolEvent = Claimed(index: nat) | Refused(index: nat) | Waiting | Finished(index: nat) | Retired(index: nat)

  function Claims(h: seq<PoolEvent>): nat {
    if h == [] then 0 else Claims(Init(h)) + (if Last(h).Claimed? || Last(h).Refused? then 1 else 0)
  }

  /** The tasks in flight: claimed, not refused and not retired. */
  function InFlight(h: seq<PoolEvent>): int {
    if h == [] then 0
    else InFlight(Init(h)) + (match Last(h) case Claimed(_) => 1 case Retired(_) => -1 case _ => 0)
  }

  function Steps(h: seq<PoolEvent>): nat {
    if h == [] then 0 else Steps(Init(h)) + (if Last(h).Finished? || Last(h).Retired? then 1 else 0)
  }

  function Running(h: seq<PoolEvent>): set<nat> {
    if h == [] then {}
    else match Last(h)
      case Claimed(i) => Running(Init(h)) + {i}
      case Finished(i) => Running(Init(h)) - {i}
      case _ => Running(Init(h))
  }

  function Finishing(h: seq<PoolEvent>): set<nat> {
    if h == [] then {}
    else match Last(h)
      case Finished(i) => Finishing(Init(h)) + {i}
      case Retired(i) => Finishing(Init(h)) - {i}
      case _ => Finishing(Init(h))
  }

  function CompletionsOf(e: Environment, h: seq<PoolEvent>): seq<Completion> {
    if h == [] then []
    else match Last(h)
      case Finished(i) => CompletionsOf(e, Init(h)) + [Completion(i, e.workerFails(i))]
      case _ => CompletionsOf(e, Init(h))
  }

  /** A callback threw. */
  predicate Failed(e: Environment, h: seq<PoolEvent>) {
    h != [] && (Failed(e, Init(h)) || Last(h).Refused? || (Last(h).Finished? && e.resultThrows(Last(h).index)))
  }

  ghost predicate StoppedBy(e: Environment, h: seq<PoolEvent>) {
    e.Aborted(Claims(h), Steps(h)) || Failed(e, h)
  }

  ghost predicate CanClaim(e: Environment, total: nat, limit: int, h: seq<PoolEvent>) {
    Claims(h) < total && InFlight(h) < limit && !StoppedBy(e, h)
  }

  /** Indexes are claimed in order while there is room and nothing has stopped the pool; it
      waits exactly when nothing can be claimed; and tasks move on only while it waits. */
  ghost predicate Allowed(e: Environment, total: nat, limit: int, before: seq<PoolEvent>, event: PoolEvent) {
    match event
    case Claimed(i) => CanClaim(e, total, limit, before) && i == Claims(before) && !e.claimThrows(i)
    case Refused(i) => CanClaim(e, total, limit, before) && i == Claims(before) && e.claimThrows(i)
    case Waiting => InFlight(before) > 0 && !CanClaim(e, total, limit, before)
    case Finished(i) => before != [] && !Last(before).Claimed? && !Last(before).Refused? && i in Running(before)
    case Retired(i) => before != [] && !Last(before).Claimed? && !Last(before).Refused? && i in Finishing(before)
  }

  ghost predicate Lawful(e: Environment, total: nat, limit: int, h: seq<PoolEvent>) {
    h == [] || (Lawful(e, total, limit, Init(h)) && Allowed(e, total, limit, Init(h), Last(h)))
  }

  /** At no moment are more tasks in flight than the limit. */
  lemma {:induction false} NeverOverLimit(e: Environment, total: nat, limit: int, h: seq<PoolEvent>, i: nat)
    requires Lawful(e, total, limit, h) && limit >= 0 && i <= |h|
    ensures Lawful(e, total, limit, h[..i]) && InFlight(h[..i]) <= limit
    decreases |h|, i
  {
    if i < |h| {
      assert Init(h)[..i] == h[..i];
      NeverOverLimit(e, total, limit, Init(h), i);
    } else {
      assert h[..i] == h;
      if h != [] {
        NeverOverLimit(e, total, limit, Init(h), |h| - 1);
        assert Init(h)[..|h| - 1] == Init(h);
      }
    }
  }

  /** Whenever the pool waits, the limit is reached, or no item is left, or it was stopped. */
  lemma {:induction false} FullWhileWaiting(e: Environment, total: nat, limit: int, h: seq<PoolEvent>, i: nat)
    requires Lawful(e, total, limit, h) && limit >= 0 && i < |h| && h[i] == Waiting
    ensures InFlight(h[..i]) == limit || Claims(h[..i]) >= total || StoppedBy(e, h[..i])
  {
    NeverOverLimit(e, total, limit, h, i + 1);
    NeverOverLimit(e, total, limit, h, i);
    assert Init(h[..i + 1]) == h[..i];
  }
}
