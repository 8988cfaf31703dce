/** What a drain takes for an answer, in the fields of the replies (bin/lcm.ts, lines 262-411
    and 641-847). */
module DrainReplies {
  import opened Options
  import opened Invocation
  import opened DrainRound

  function Bound(target: Target, state: State, active: int, work: int, commit: int): Snapshot {
    Snapshot(Some(target.invocationId), Some(target.command), Some(target.daemonInstanceId), Some(state),
             Some(active), Some(work), Some(commit))
  }

  /** A cancellation proves the drain with one of two replies and with no other. */
  lemma ZeroRepliesAre(cancel: Outcome<Option<Snapshot>>, target: Target)
    ensures CancelProves(cancel, target)
        <==> cancel == Settled(Some(Bound(target, Cancelled, 0, 0, 0)))
             || cancel == Settled(Some(Bound(target, Finished, 0, 0, 0)))
  {
  }

  /** A start is confirmed by the target's own active snapshot, with any counts. */
  lemma ActiveRepliesAre(reply: Snapshot, target: Target)
    ensures IsActiveReply(reply, target)
        <==> exists active, work, commit :: reply == Bound(target, Active, active, work, commit)
  {
    if IsActiveReply(reply, target) {
      var counts := (reply.activeCount.value, reply.workCount.value, reply.commitCount.value);
      assert reply == Bound(target, Active, counts.0, counts.1, counts.2);
    }
  }

  /** The health of a daemon that replaces the original one. */
  predicate Replaces(options: DrainOptions, daemon: Health) {
    match daemon
    case Health(Some(id), healthy, storage, Some(digest)) =>
      && healthy && digest != "" && options.expectedRuntimeDigest == Some(digest)
      && (options.expectedStorageBackend == None || options.expectedStorageBackend == Some(storage))
      && (match options.originalHealth case Some(original) => original.daemonInstanceId != Some(id) case None => true)
    case _ => false
  }

  /** A replacement is proved by the old process and its providers gone and such a daemon. */
  lemma ReplacementsAre(options: DrainOptions, round: Round, restart: Restart)
    ensures ReplacementProved(options, round, restart)
        <==> (if options.probesOldInstance then round.oldInstanceGone == Settled(true)
              else restart.restarted && restart.stoppedPid != None)
             && options.probesProvider && round.replacedProvider == Settled(true)
             && (match round.replacementHealth case Settled(Some(daemon)) => Replaces(options, daemon) case _ => false)
  {
  }

  /** A start never arrived: its reply was lost and no work of it was dispatched here, its
      deadline has passed, and the original daemon twice answers that it does not know it. */
  lemma LostStartsAre(options: DrainOptions, start: Start, round: Round)
    ensures StartNeverArrived(options, start, round)
        <==> start.state == ResponseLost && !round.localWorkDispatched
             && (match start.deadline case Some(deadline) => deadline <= round.clockAfterRetry case None => false)
             && round.firstCancel == Failed(true) && round.retryCancel == Failed(true)
             && IsOriginal(options, round.health)
             && options.probesProvider && round.retryProvider == Settled(true)
  {
  }
}
