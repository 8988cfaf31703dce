/** What the counters of a batch add up, in the fields of the answers (src/batch-compact.ts,
    lines 804-984). */
module BatchTotals {
  import opened Options
  import opened BatchResult

  // ---- which answer counts as what ----------------------------------------------------

  predicate IsFailure(dryRun: bool, r: Result) {
    match r.answer
    case Rejected => true
    case Replied(reply) =>
      !dryRun && !reply.skipped && reply.actionTaken == None && reply.tokensBefore == None && reply.tokensAfter == None
  }

  predicate IsDryRun(dryRun: bool, r: Result) {
    dryRun && r.answer.Replied?
  }

  predicate IsSkipped(dryRun: bool, r: Result) {
    !dryRun && r.answer.Replied? && r.answer.response.skipped
  }

  predicate IsUntouched(dryRun: bool, r: Result) {
    !dryRun && r.answer.Replied? && !r.answer.response.skipped && r.answer.response.actionTaken == Some(false)
  }

  /** A compaction took place: the daemon says so, or an older one reports tokens only. */
  predicate IsCompacted(dryRun: bool, r: Result) {
    match r.answer
    case Rejected => false
    case Replied(reply) =>
      && !dryRun && !reply.skipped && reply.actionTaken != Some(false)
      && ((reply.actionTaken.Some? && reply.actionTaken.value) || reply.tokensBefore.Some? || reply.tokensAfter.Some?)
  }

  /** Reported tokens, or the session's own. */
  function TokensGoingIn(r: Result): nat {
    match r.answer
    case Replied(Response(_, _, Some(tokens), _)) => tokens
    case _ => r.session.tokens
  }

  /** Reported tokens, or as many as went in. */
  function TokensComingOut(r: Result): nat {
    match r.answer
    case Replied(Response(_, _, _, Some(tokens))) => tokens
    case _ => TokensGoingIn(r)
  }

  // ---- counts and sums ------------------------------------------------------------------

  function Count(rs: seq<Result>, counts: Result -> bool): nat {
    if rs == [] then 0 else (if counts(rs[0]) then 1 else 0) + Count(rs[1..], counts)
  }

  function Total(rs: seq<Result>, counts: Result -> bool, amount: Result -> nat): nat {
    if rs == [] then 0 else (if counts(rs[0]) then amount(rs[0]) else 0) + Total(rs[1..], counts, amount)
  }

  /** The tally with what the results count and sum to. */
  ghost predicate Adds(dryRun: bool, before: Tally, rs: seq<Result>, after: Tally) {
    var compacts := (r: Result) => IsCompacted(dryRun, r);
    && after.failures == before.failures + Count(rs, (r: Result) => IsFailure(dryRun, r))
    && after.dryRuns == before.dryRuns + Count(rs, (r: Result) => IsDryRun(dryRun, r))
    && after.skipped == before.skipped + Count(rs, (r: Result) => IsSkipped(dryRun, r))
    && after.untouched == before.untouched + Count(rs, (r: Result) => IsUntouched(dryRun, r))
    && after.compacted == before.compacted + Count(rs, compacts)
    && after.messagesIn == before.messagesIn + Total(rs, compacts, (r: Result) => r.session.messages)
    && after.tokensIn == before.tokensIn + Total(rs, compacts, (r: Result) => TokensGoingIn(r))
    && after.tokensOut == before.tokensOut + Total(rs, compacts, (r: Result) => TokensComingOut(r))
  }

  /** One answer moves exactly the counter it belongs to. */
  lemma OneAdds(dryRun: bool, t: Tally, r: Result)
    ensures
      var after := Account(dryRun, t, r);
      && after.failures == t.failures + (if IsFailure(dryRun, r) then 1 else 0)
      && after.dryRuns == t.dryRuns + (if IsDryRun(dryRun, r) then 1 else 0)
      && after.skipped == t.skipped + (if IsSkipped(dryRun, r) then 1 else 0)
      && after.untouched == t.untouched + (if IsUntouched(dryRun, r) then 1 else 0)
      && after.compacted == t.compacted + (if IsCompacted(dryRun, r) then 1 else 0)
      && after.messagesIn == t.messagesIn + (if IsCompacted(dryRun, r) then r.session.messages else 0)
      && after.tokensIn == t.tokensIn + (if IsCompacted(dryRun, r) then TokensGoingIn(r) else 0)
      && after.tokensOut == t.tokensOut + (if IsCompacted(dryRun, r) then TokensComingOut(r) else 0)
  {
  }

  /** The counters and sums of a whole batch. */
  lemma {:induction false} TallyAdds(dryRun: bool, t: Tally, rs: seq<Result>)
    ensures Adds(dryRun, t, rs, AccountAll(dryRun, t, rs))
    decreases |rs|
  {
    if rs != [] {
      OneAdds(dryRun, t, rs[0]);
      TallyAdds(dryRun, Account(dryRun, t, rs[0]), rs[1..]);
    }
  }
}
