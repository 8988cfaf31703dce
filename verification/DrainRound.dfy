/** One round of cancelling and draining an invocation against an adversarial daemon
    (bin/lcm.ts, lines 641-921). */
module DrainRound {
  import opened Options
  import opened Invocation

  datatype Health = Health(daemonInstanceId: Option<string>, healthy: bool, storageBackend: string, runtimeDigest: Option<string>)

  datatype Restart = Restart(restarted: bool, stoppedPid: Option<nat>)

  /** The options of a drain that stay the same over its rounds. */
  datatype DrainOptions = DrainOptions(
    target: Target,
    originalHealth: Option<Health>,
    probesProvider: bool,
    probesOldInstance: bool,
    mayRestart: bool,
    expectedStorageBackend: Option<string>,
    expectedRuntimeDigest: Option<string>)

  /** What the command knows of its own start when a round begins. */
  datatype Start = Start(state: StartState, deadline: Option<int>)
  {
    predicate PossiblyRegistered() {
      state != Unsent
    }

    function UncertaintyDeadline(): Option<int> {
      if state == ResponseLost then deadline else None
    }

    /** A start request that is still out may be answered, or fail, at any time. */
    function Receive(reply: Option<Outcome<Snapshot>>, target: Target): Start {
      if state != Sent || reply.None? then this
      else if reply.value.Settled? && IsActiveReply(reply.value.value, target) then Start(Confirmed, deadline)
      else Start(ResponseLost, deadline)
    }
  }

  /** Everything the environment answers in one round, in any combination. */
  datatype Round = Round(
    startReply: Option<Outcome<Snapshot>>,
    localWorkDispatched: bool,
    firstCancel: Outcome<Option<Snapshot>>,
    firstProvider: Outcome<bool>,
    local: Outcome<()>,
    onTime: bool,
    health: Outcome<Option<Health>>,
    retryCancel: Outcome<Option<Snapshot>>,
    retryProvider: Outcome<bool>,
    clockAfterRetry: int,
    restart: Outcome<Option<Restart>>,
    oldInstanceGone: Outcome<bool>,
    replacedProvider: Outcome<bool>,
    replacementHealth: Outcome<Option<Health>>)

  /** What is left of a managed restart between rounds. */
  datatype Session = Session(restartAttempted: bool, pending: bool, restart: Option<Restart>)

  datatype Result = Result(daemonZero: bool, localSettled: bool, restartAttempted: bool, replacementVerified: bool)

  // ---- proofs ------------------------------------------------------------------------------

  predicate CancelProves(cancel: Outcome<Option<Snapshot>>, target: Target) {
    cancel.Settled? && cancel.value.Some? && IsStrictTerminal(cancel.value.value, target)
  }

  /** A probe that was not given proves nothing. */
  predicate ProbeProves(given: bool, probe: Outcome<bool>) {
    given && probe == Settled(true)
  }

  predicate IsUnknown(cancel: Outcome<Option<Snapshot>>) {
    cancel.Failed? && cancel.unknownInvocation
  }

  function OriginalId(options: DrainOptions): Option<string> {
    if options.originalHealth.Some? then options.originalHealth.value.daemonInstanceId else None
  }

  predicate SameInstance(options: DrainOptions, health: Outcome<Option<Health>>) {
    health.Settled? && health.value.Some? && OriginalId(options).Some?
    && health.value.value.daemonInstanceId == OriginalId(options) && health.value.value.healthy
  }

  predicate UncertainStart(options: DrainOptions, start: Start, round: Round) {
    start.state == ResponseLost && !round.localWorkDispatched && start.UncertaintyDeadline().Some?
    && OriginalId(options).Some?
  }

  predicate LocalSettled(round: Round) {
    round.local.Settled?
  }

  predicate OldInstanceGone(options: DrainOptions, round: Round, restart: Restart) {
    if options.probesOldInstance then round.oldInstanceGone == Settled(true)
    else restart.restarted && restart.stoppedPid.Some?
  }

  /** A healthy daemon with another instance id, the expected storage and the invoking
      command's runtime. */
  predicate IsReplacement(options: DrainOptions, health: Outcome<Option<Health>>) {
    health.Settled? && health.value.Some?
    && var daemon := health.value.value;
       daemon.daemonInstanceId.Some? && daemon.daemonInstanceId != OriginalId(options) && daemon.healthy
       && (options.expectedStorageBackend.Some? ==> options.expectedStorageBackend == Some(daemon.storageBackend))
       && options.expectedRuntimeDigest.Some? && options.expectedRuntimeDigest.value != ""
       && daemon.runtimeDigest == options.expectedRuntimeDigest
  }

  predicate ReplacementProved(options: DrainOptions, round: Round, restart: Restart) {
    OldInstanceGone(options, round, restart) && ProbeProves(options.probesProvider, round.replacedProvider)
    && IsReplacement(options, round.replacementHealth)
  }

  // ---- what may end a drain -------------------------------------------------------------------

  /** The target's own terminal zero snapshot, with the provider witnesses gone. */
  predicate ZeroOnCancel(options: DrainOptions, round: Round) {
    CancelProves(round.firstCancel, options.target) && ProbeProves(options.probesProvider, round.firstProvider)
  }

  predicate ZeroOnRetry(options: DrainOptions, round: Round) {
    SameInstance(options, round.health)
    && CancelProves(round.retryCancel, options.target) && ProbeProves(options.probesProvider, round.retryProvider)
  }

  /** An expired uncertain start without local work that the same instance twice does not
      know, with the provider witnesses gone. */
  predicate StartNeverArrived(options: DrainOptions, start: Start, round: Round) {
    UncertainStart(options, start, round) && start.UncertaintyDeadline().value <= round.clockAfterRetry
    && IsUnknown(round.firstCancel) && SameInstance(options, round.health) && IsUnknown(round.retryCancel)
    && ProbeProves(options.probesProvider, round.retryProvider)
  }

  /** A managed restart that succeeded, before or in this round, and was proved now. */
  predicate Replaced(options: DrainOptions, session: Session, round: Round) {
    (session.restart.Some? && ReplacementProved(options, round, session.restart.value))
    || (session.restart.None? && round.restart.Settled? && round.restart.value.Some?
        && ReplacementProved(options, round, round.restart.value.value))
  }

  /** The evidence of one round that the invocation holds nothing any more. */
  predicate Evidence(options: DrainOptions, start: Start, session: Session, round: Round) {
    !start.PossiblyRegistered()
    || (LocalSettled(round)
        && (ZeroOnCancel(options, round) || ZeroOnRetry(options, round)
            || StartNeverArrived(options, start, round) || Replaced(options, session, round)))
  }

  // ---- what a round computes --------------------------------------------------------------------

  /** Whether the round asks for health and finds the original daemon. */
  predicate FindsOriginal(options: DrainOptions, start: Start, round: Round) {
    !(ZeroOnCancel(options, round) && LocalSettled(round))
    && (round.onTime || (UncertainStart(options, start, round) && IsUnknown(round.firstCancel)))
    && SameInstance(options, round.health)
  }

  predicate ZeroWithoutRestart(options: DrainOptions, start: Start, round: Round) {
    if FindsOriginal(options, start, round) then ZeroOnRetry(options, round) || StartNeverArrived(options, start, round)
    else ZeroOnCancel(options, round)
  }

  /** Whether the round goes on to the managed restart, and whether it may start one. */
  predicate TurnsToRestart(options: DrainOptions, start: Start, round: Round) {
    start.PossiblyRegistered() && !(ZeroWithoutRestart(options, start, round) && LocalSettled(round))
  }

  predicate StartsRestart(options: DrainOptions, start: Start, session: Session, round: Round) {
    TurnsToRestart(options, start, round) && !session.restartAttempted && options.mayRestart
    && !FindsOriginal(options, start, round)
  }

  predicate AwaitsRestart(options: DrainOptions, start: Start, session: Session, round: Round) {
    TurnsToRestart(options, start, round) && session.restartAttempted && session.restart.None? && session.pending
  }

  /** The session after a restart was waited for: its value, or that it is still out, or
      that it ended without a value and a later round may start another. */
  function AfterRestart(reply: Outcome<Option<Restart>>): Session {
    match reply
    case Settled(value) => Session(value.Some?, false, value)
    case Failed(_) => Session(false, false, None)
    case TimedOut => Session(true, true, None)
  }

  function NextSession(options: DrainOptions, start: Start, session: Session, round: Round): Session {
    if StartsRestart(options, start, session, round) || AwaitsRestart(options, start, session, round)
    then AfterRestart(round.restart) else session
  }

  /** The round proves the original daemon replaced. */
  predicate ProvesReplaced(options: DrainOptions, start: Start, session: Session, round: Round) {
    var restart := NextSession(options, start, session, round).restart;
    TurnsToRestart(options, start, round) && restart.Some? && ReplacementProved(options, round, restart.value)
  }

  predicate Proved(options: DrainOptions, start: Start, session: Session, round: Round) {
    !start.PossiblyRegistered()
    || (LocalSettled(round)
        && (ZeroWithoutRestart(options, start, round) || ProvesReplaced(options, start, session, round)))
  }

  /** A restart was attempted exactly when it is pending or succeeded, and not both. */
  predicate Coherent(session: Session) {
    (session.restartAttempted <==> session.pending || session.restart.Some?) && !(session.pending && session.restart.Some?)
  }

  lemma StaysCoherent(options: DrainOptions, start: Start, session: Session, round: Round)
    requires Coherent(session)
    ensures Coherent(NextSession(options, start, session, round))
  {
  }

  /** A round that reports the invocation drained holds evidence of its own, never of an
      earlier round. */
  lemma ProvedHasEvidence(options: DrainOptions, start: Start, session: Session, round: Round)
    requires Coherent(session) && Proved(options, start, session, round)
    ensures Evidence(options, start, session, round)
  {
  }

  /** Evidence is not overlooked: the target's zero snapshot ends the drain at once, and the
      original daemon's own answers do when there was time to ask. */
  lemma EvidenceIsSeen(options: DrainOptions, start: Start, session: Session, round: Round)
    requires LocalSettled(round)
    requires ZeroOnCancel(options, round)
      || ((round.onTime || StartNeverArrived(options, start, round))
          && (ZeroOnRetry(options, round) || StartNeverArrived(options, start, round)))
    ensures Proved(options, start, session, round)
  {
  }

  // ---- when a restart starts ---------------------------------------------------------------------

  /** The health of the daemon first seen, in the fields of the reply. */
  predicate IsOriginal(options: DrainOptions, health: Outcome<Option<Health>>) {
    match health
    case Settled(Some(Health(Some(id), true, _, _))) =>
      (match options.originalHealth case Some(original) => original.daemonInstanceId == Some(id) case None => false)
    case _ => false
  }

  /** The health reply came in time and names the original instance as healthy. */
  predicate OriginalAnswers(options: DrainOptions, round: Round) {
    round.onTime && IsOriginal(options, round.health)
  }

  /** A healthy original daemon that answers in time is never restarted. */
  lemma OriginalIsNotRestarted(options: DrainOptions, start: Start, session: Session, round: Round)
    requires OriginalAnswers(options, round)
    ensures !StartsRestart(options, start, session, round)
  {
  }

  /** A round that is asked in time and stays unproved starts a restart, where one is allowed
      and none was attempted, exactly when the original daemon did not answer. */
  lemma UnprovedStartsRestart(options: DrainOptions, start: Start, session: Session, round: Round)
    requires round.onTime && Coherent(session) && !Proved(options, start, session, round)
    ensures StartsRestart(options, start, session, round)
        <==> options.mayRestart && !session.restartAttempted && !OriginalAnswers(options, round)
  {
  }

  /** Out of time the original daemon is asked only for an uncertain start that the daemon
      did not know, so without one the restart starts whatever health would say. */
  lemma LateStartsRestart(options: DrainOptions, start: Start, session: Session, round: Round)
    requires !round.onTime && Coherent(session) && !Proved(options, start, session, round)
    requires start.state != ResponseLost || !(round.firstCancel.Failed? && round.firstCancel.unknownInvocation)
    ensures StartsRestart(options, start, session, round) <==> options.mayRestart && !session.restartAttempted
  {
  }

  // ---- the steps of a round ---------------------------------------------------------------------

  /** Health and a second cancellation, when the first left something open. */
  method RetryOnSameInstance(options: DrainOptions, start: Start, round: Round, zero: bool)
    returns (daemonZero: bool, originalReachable: bool)
    requires zero == ZeroOnCancel(options, round)
    ensures originalReachable == FindsOriginal(options, start, round)
    ensures daemonZero == ZeroWithoutRestart(options, start, round)
  {
    daemonZero, originalReachable := zero, false;
    var localSettled := LocalSettled(round);
    var uncertainStart := UncertainStart(options, start, round);
    var unknownFirstCancel := IsUnknown(round.firstCancel);
    if (!daemonZero || !localSettled) && (round.onTime || (uncertainStart && unknownFirstCancel)) {
      var sameInstance := SameInstance(options, round.health);
      if sameInstance {
        originalReachable := true;
        var strictRetry := CancelProves(round.retryCancel, options.target);
        var retryProviderGone := ProbeProves(options.probesProvider, round.retryProvider);
        daemonZero := strictRetry && retryProviderGone;
        if !daemonZero && uncertainStart && round.clockAfterRetry >= start.UncertaintyDeadline().value
          && unknownFirstCancel && IsUnknown(round.retryCancel) && retryProviderGone {
          daemonZero := true;
        }
      }
    }
  }

  method ProveReplacement(options: DrainOptions, round: Round, restart: Restart) returns (replacementVerified: bool)
    ensures replacementVerified == ReplacementProved(options, round, restart)
  {
    var oldGone := if options.probesOldInstance then round.oldInstanceGone == Settled(true)
                   else restart.restarted && restart.stoppedPid.Some?;
    var providersGone := ProbeProves(options.probesProvider, round.replacedProvider);
    if !oldGone || !providersGone { return false; }
    if !round.replacementHealth.Settled? || round.replacementHealth.value.None? { return false; }
    var replacement := round.replacementHealth.value.value;
    var identity := replacement.daemonInstanceId.Some?
      && replacement.daemonInstanceId != OriginalId(options)
      && (options.expectedStorageBackend.None? || replacement.storageBackend == options.expectedStorageBackend.value)
      && replacement.healthy;
    var digestAvailable := options.expectedRuntimeDigest.Some? && options.expectedRuntimeDigest.value != "";
    replacementVerified := identity && digestAvailable && replacement.runtimeDigest == options.expectedRuntimeDigest;
  }
}
