/** One daemon invocation: its control snapshots, the latched start of its lifecycle, and
    the command's signal state (bin/lcm.ts, lines 262-411, 478-551). */
module Invocation {
  import opened Options

  /** What a request came back with before its deadline, if it came back. */
  datatype Outcome<+T> = Settled(value: T) | Failed(unknownInvocation: bool) | TimedOut

  datatype Target = Target(invocationId: string, command: string, daemonInstanceId: string)

  datatype State = Active | Cancelling | Cancelled | Finished

  /** A control reply as it arrived; any field may be missing, and it may be no object. */
  datatype Snapshot =
    | NoObject
    | Snapshot(
        invocationId: Option<string>,
        command: Option<string>,
        daemonInstanceId: Option<string>,
        state: Option<State>,
        activeCount: Option<int>,
        workCount: Option<int>,
        commitCount: Option<int>)

  predicate BoundTo(snapshot: Snapshot, target: Target) {
    snapshot.Snapshot?
    && snapshot.invocationId == Some(target.invocationId)
    && snapshot.command == Some(target.command)
    && snapshot.daemonInstanceId == Some(target.daemonInstanceId)
  }

  predicate IsStrict(snapshot: Snapshot, target: Target, state: State) {
    BoundTo(snapshot, target) && snapshot.state == Some(state)
    && snapshot.activeCount == Some(0) && snapshot.workCount == Some(0) && snapshot.commitCount == Some(0)
  }

  predicate IsStrictTerminal(snapshot: Snapshot, target: Target) {
    IsStrict(snapshot, target, Cancelled) || IsStrict(snapshot, target, Finished)
  }

  predicate IsActiveReply(snapshot: Snapshot, target: Target) {
    BoundTo(snapshot, target) && snapshot.state == Some(Active)
    && snapshot.activeCount.Some? && snapshot.workCount.Some? && snapshot.commitCount.Some?
  }

  // ---- the start of an invocation --------------------------------------------------------

  datatype StartState = Unsent | Sent | Confirmed | ResponseLost

  const UNCERTAINTY_MS := 30000

  class Lifecycle {
    const target: Target
    const startTimeoutMs: nat
    var started: bool
    var possiblyRegistered: bool
    var startState: StartState
    var deadline: Option<int>

    ghost predicate Valid()
      reads this
    {
      (possiblyRegistered <==> startState != Unsent) && (started <==> startState == Confirmed)
      && (deadline.Some? <==> possiblyRegistered)
    }

    constructor (target: Target, startTimeoutMs: nat)
      ensures Valid() && startState == Unsent && this.target == target && this.startTimeoutMs == startTimeoutMs
    {
      this.target := target;
      this.startTimeoutMs := startTimeoutMs;
      started, possiblyRegistered, startState, deadline := false, false, Unsent, None;
    }

    /** The first half of a start: the invocation counts as possibly registered before the
        request leaves. */
    method Send(now: int)
      requires Valid() && !started
      modifies this
      ensures Valid() && startState == Sent && deadline == Some(now + startTimeoutMs + UNCERTAINTY_MS)
    {
      possiblyRegistered := true;
      startState := Sent;
      deadline := Some(now + startTimeoutMs + UNCERTAINTY_MS);
    }

    /** The second half: only an active snapshot bound to the target confirms; a reply of
        any other kind, or none, leaves the invocation possibly registered. */
    method Receive(reply: Outcome<Snapshot>)
      requires Valid() && startState == Sent
      modifies this
      ensures Valid() && deadline == old(deadline)
      ensures startState == if reply.Settled? && IsActiveReply(reply.value, target) then Confirmed else ResponseLost
    {
      if reply.Settled? && IsActiveReply(reply.value, target) {
        startState := Confirmed;
        started := true;
      } else {
        startState := ResponseLost;
      }
    }

    function UncertaintyDeadline(): Option<int>
      reads this
    {
      if startState == ResponseLost then deadline else None
    }
  }

  // ---- signals ------------------------------------------------------------------------------

  datatype Event = Interrupt | Terminate | Automatic

  function StatusOf(event: Event): Option<nat> {
    match event case Interrupt => Some(130) case Terminate => Some(143) case Automatic => None
  }

  /** The status of the first signal among the events. */
  function FirstStatus(events: seq<Event>): Option<nat> {
    if events == [] then None
    else if FirstStatus(events[..|events| - 1]).Some? then FirstStatus(events[..|events| - 1])
    else StatusOf(events[|events| - 1])
  }

  class SignalHandlers {
    var status: Option<nat>
    var draining: bool
    var aborted: bool
    var drains: nat

    constructor ()
      ensures status == None && !draining && !aborted && drains == 0
    {
      status, draining, aborted, drains := None, false, false, 0;
    }

    method BeginDrain(event: Event)
      modifies this
      ensures draining && drains == old(drains) + (if old(draining) then 0 else 1)
      ensures aborted == (old(aborted) || !old(draining))
      ensures status == if old(draining) || event == Automatic then old(status) else StatusOf(event)
    {
      if draining { return; }
      draining := true;
      if event != Automatic { status := StatusOf(event); }
      aborted := true;
      drains := drains + 1;
    }

    method Receive(event: Event)
      requires event != Automatic
      modifies this
      ensures draining && drains == old(drains) + (if old(draining) then 0 else 1)
      ensures aborted == (old(aborted) || !old(draining))
      ensures status == if old(draining) && old(status).Some? then old(status) else StatusOf(event)
    {
      if draining {
        if status.None? { status := StatusOf(event); }
        return;
      }
      BeginDrain(event);
    }
  }

  /** Over any sequence of signals and automatic drains, one drain is begun, the command is
      aborted once there was an event, and the first signal's status stays latched. */
  method HandleAll(events: seq<Event>) returns (handlers: SignalHandlers)
    ensures fresh(handlers)
    ensures handlers.draining == (events != []) && handlers.aborted == (events != [])
    ensures handlers.drains == if events == [] then 0 else 1
    ensures handlers.status == FirstStatus(events)
  {
    handlers := new SignalHandlers();
    for i := 0 to |events|
      invariant fresh(handlers)
      invariant handlers.draining == (i > 0) && handlers.aborted == (i > 0) && handlers.drains == if i > 0 then 1 else 0
      invariant handlers.status == FirstStatus(events[..i])
    {
      assert events[..i + 1][..i] == events[..i];
      if i == 0 { assert events[..0] == []; }
      if events[i] == Automatic {
        handlers.BeginDrain(Automatic);
      } else {
        handlers.Receive(events[i]);
      }
    }
    assert events[..|events|] == events;
  }
}
