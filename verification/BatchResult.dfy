/** The accounting of a batch (src/batch-compact.ts, lines 737-984 and 989-1005):
    its result does not depend on the order in which sessions complete. */
module BatchResult {
  import opened Options

  type Project = string

  /** What the daemon answered for one session. */
  datatype Response = Response(
    skipped: bool,
    actionTaken: Option<bool>,
    tokensBefore: Option<nat>,
    tokensAfter: Option<nat>)

  datatype Answer = Rejected | Replied(response: Response)

  datatype Session = Session(project: Project, messages: nat, tokens: nat)

  datatype Result = Result(index: nat, session: Session, answer: Answer)

  datatype Outcome = Failed | DryRun | Skipped | Unchanged | Compacted

  /** A successful reply says so, or carries token counters (older daemons). */
  predicate IsCompactResponse(r: Response) {
    r.skipped || r.actionTaken.Some? || r.tokensBefore.Some? || r.tokensAfter.Some?
  }

  function Classify(dryRun: bool, a: Answer): Outcome {
    match a
    case Rejected => Failed
    case Replied(r) =>
      if !dryRun && !IsCompactResponse(r) then Failed
      else if dryRun then DryRun
      else if r.skipped then Skipped
      else if r.actionTaken == Some(false) then Unchanged
      else Compacted
  }

  datatype Tally = Tally(
    compacted: nat, untouched: nat, skipped: nat, dryRuns: nat, failures: nat,
    messagesIn: nat, tokensIn: nat, tokensOut: nat,
    projects: map<Project, nat>)

  const EMPTY := Tally(0, 0, 0, 0, 0, 0, 0, 0, map[])

  function TokensBefore(r: Result): nat
    requires r.answer.Replied?
  {
    if r.answer.response.tokensBefore.Some? then r.answer.response.tokensBefore.value else r.session.tokens
  }

  function TokensAfter(r: Result): nat
    requires r.answer.Replied?
  {
    if r.answer.response.tokensAfter.Some? then r.answer.response.tokensAfter.value else TokensBefore(r)
  }

  /** The project map keeps the smallest discovery index of a compacted session. */
  function Earliest(m: map<Project, nat>, p: Project, index: nat): map<Project, nat> {
    if p !in m || index < m[p] then m[p := index] else m
  }

  function Account(dryRun: bool, t: Tally, r: Result): Tally {
    match Classify(dryRun, r.answer)
    case Failed => t.(failures := t.failures + 1)
    case DryRun => t.(dryRuns := t.dryRuns + 1)
    case Skipped => t.(skipped := t.skipped + 1)
    case Unchanged => t.(untouched := t.untouched + 1)
    case Compacted =>
      t.(compacted := t.compacted + 1,
         messagesIn := t.messagesIn + r.session.messages,
         tokensIn := t.tokensIn + TokensBefore(r),
         tokensOut := t.tokensOut + TokensAfter(r),
         projects := Earliest(t.projects, r.session.project, r.index))
  }

  function AccountAll(dryRun: bool, t: Tally, rs: seq<Result>): Tally
    decreases |rs|
  {
    if rs == [] then t else AccountAll(dryRun, Account(dryRun, t, rs[0]), rs[1..])
  }

  /** The counters a batch updates as results arrive. */
  class Batch {
    const dryRun: bool
    var compacted: nat
    var untouched: nat
    var skipped: nat
    var completed: nat
    var errors: nat
    var messagesIn: nat
    var tokensIn: nat
    var tokensOut: nat
    var compactedProjectIndexes: map<Project, nat>
    ghost var dryRuns: nat

    ghost function View(): Tally
      reads this
    {
      Tally(compacted, untouched, skipped, dryRuns, errors, messagesIn, tokensIn, tokensOut, compactedProjectIndexes)
    }

    /** The completed counter is the number of results that did not fail. */
    ghost predicate Valid()
      reads this
    {
      completed == compacted + untouched + skipped + dryRuns
    }

    constructor (dryRun: bool)
      ensures Valid() && View() == EMPTY && this.dryRun == dryRun
    {
      this.dryRun := dryRun;
      compacted, untouched, skipped, completed, errors, dryRuns := 0, 0, 0, 0, 0, 0;
      messagesIn, tokensIn, tokensOut, compactedProjectIndexes := 0, 0, 0, map[];
    }

    method OnResult(r: Result)
      requires Valid()
      modifies this
      ensures Valid() && View() == Account(dryRun, old(View()), r)
    {
      if r.answer.Rejected? {
        errors := errors + 1;
        return;
      }
      var data := r.answer.response;
      if !dryRun && !IsCompactResponse(data) {
        errors := errors + 1;
        return;
      }
      if dryRun {
        completed, dryRuns := completed + 1, dryRuns + 1;
      } else if data.skipped {
        skipped, completed := skipped + 1, completed + 1;
      } else if data.actionTaken == Some(false) {
        untouched, completed := untouched + 1, completed + 1;
      } else {
        var before := TokensBefore(r);
        var after := TokensAfter(r);
        compacted, completed := compacted + 1, completed + 1;
        var project := r.session.project;
        if project !in compactedProjectIndexes || r.index < compactedProjectIndexes[project] {
          compactedProjectIndexes := compactedProjectIndexes[project := r.index];
        }
        messagesIn := messagesIn + r.session.messages;
        tokensIn, tokensOut := tokensIn + before, tokensOut + after;
      }
    }

    /** The projects in the order of their first compacted session. */
    method CompactedProjects() returns (projects: seq<Project>)
      requires Injective(compactedProjectIndexes)
      ensures IsOrdered(projects, compactedProjectIndexes)
    {
      var rest := compactedProjectIndexes.Keys;
      projects := [];
      while rest != {}
        invariant rest <= compactedProjectIndexes.Keys
        invariant forall p :: p in projects <==> p in compactedProjectIndexes.Keys - rest
        invariant Ascending(projects, compactedProjectIndexes)
        invariant forall p, q | p in projects && q in rest :: compactedProjectIndexes[p] < compactedProjectIndexes[q]
        decreases |rest|
      {
        var first := FirstOf(rest, compactedProjectIndexes);
        rest := rest - {first};
        projects := projects + [first];
      }
    }
  }

  ghost predicate Injective(m: map<Project, nat>) {
    forall p, q | p in m && q in m && m[p] == m[q] :: p == q
  }

  ghost predicate Ascending(ps: seq<Project>, m: map<Project, nat>) {
    && (forall p <- ps :: p in m)
    && forall i, j | 0 <= i < j < |ps| :: m[ps[i]] < m[ps[j]]
  }

  ghost predicate IsOrdered(ps: seq<Project>, m: map<Project, nat>) {
    Ascending(ps, m) && forall p :: p in ps <==> p in m
  }

  method FirstOf(s: set<Project>, m: map<Project, nat>) returns (first: Project)
    requires s != {} && s <= m.Keys && Injective(m)
    ensures first in s && forall q | q in s && q != first :: m[first] < m[q]
  {
    var rest := s;
    first :| first in rest;
    rest := rest - {first};
    while rest != {}
      invariant rest <= s && first in s - rest
      invariant forall q | q in s - rest && q != first :: m[first] < m[q]
      decreases |rest|
    {
      var q :| q in rest;
      if m[q] < m[first] { first := q; }
      rest := rest - {q};
    }
  }

  // ---- order independence ------------------------------------------------------

  ghost predicate DistinctIndexes(rs: seq<Result>) {
    forall i, j | 0 <= i < j < |rs| :: rs[i].index != rs[j].index
  }

  lemma AccountCommutes(dryRun: bool, t: Tally, r: Result, s: Result)
    ensures Account(dryRun, Account(dryRun, t, r), s) == Account(dryRun, Account(dryRun, t, s), r)
  {
    if Classify(dryRun, r.answer).Compacted? && Classify(dryRun, s.answer).Compacted? {
      var p, q := r.session.project, s.session.project;
      assert Earliest(Earliest(t.projects, p, r.index), q, s.index)
          == Earliest(Earliest(t.projects, q, s.index), p, r.index);
    }
  }

  lemma {:induction false} AccountLater(dryRun: bool, t: Tally, rs: seq<Result>, r: Result)
    ensures AccountAll(dryRun, Account(dryRun, t, r), rs) == AccountAll(dryRun, t, rs + [r])
    decreases |rs|
  {
    if rs == [] {
      assert [] + [r] == [r] && [r][1..] == [];
      assert AccountAll(dryRun, t, [r]) == AccountAll(dryRun, Account(dryRun, t, r), []);
    } else {
      AccountCommutes(dryRun, t, r, rs[0]);
      AccountLater(dryRun, Account(dryRun, t, rs[0]), rs[1..], r);
      assert (rs + [r])[0] == rs[0] && (rs + [r])[1..] == rs[1..] + [r];
    }
  }

  lemma {:induction false} AccountConcat(dryRun: bool, t: Tally, xs: seq<Result>, ys: seq<Result>)
    ensures AccountAll(dryRun, t, xs + ys) == AccountAll(dryRun, AccountAll(dryRun, t, xs), ys)
    decreases |xs|
  {
    if xs == [] {
      assert xs + ys == ys;
    } else {
      assert (xs + ys)[0] == xs[0] && (xs + ys)[1..] == xs[1..] + ys;
      AccountConcat(dryRun, Account(dryRun, t, xs[0]), xs[1..], ys);
    }
  }

  /** The final counters and project map are the same for every completion order. */
  lemma {:induction false} TallyIgnoresOrder(dryRun: bool, t: Tally, rs: seq<Result>, rs': seq<Result>)
    requires multiset(rs) == multiset(rs')
    ensures AccountAll(dryRun, t, rs) == AccountAll(dryRun, t, rs')
    decreases |rs|
  {
    if rs == [] {
      assert |multiset(rs')| == 0;
    } else {
      var r, rest := rs[0], rs[1..];
      assert rs == [r] + rest;
      assert r in multiset(rs');
      var k :| 0 <= k < |rs'| && rs'[k] == r;
      var pre, post := rs'[..k], rs'[k + 1..];
      assert rs' == pre + ([r] + post);
      assert multiset(rest) == multiset(rs) - multiset{r};
      assert multiset(pre + post) == multiset(rs') - multiset{r};
      TallyIgnoresOrder(dryRun, Account(dryRun, t, r), rest, pre + post);
      MoveToFront(dryRun, t, pre, r, post);
    }
  }

  lemma MoveToFront(dryRun: bool, t: Tally, pre: seq<Result>, r: Result, post: seq<Result>)
    ensures AccountAll(dryRun, t, pre + ([r] + post)) == AccountAll(dryRun, Account(dryRun, t, r), pre + post)
  {
    AccountConcat(dryRun, t, pre + [r], post);
    assert pre + ([r] + post) == (pre + [r]) + post;
    AccountLater(dryRun, t, pre, r);
    AccountConcat(dryRun, Account(dryRun, t, r), pre, post);
  }

  /** The counters partition the completions. */
  lemma {:induction false} CountersPartition(dryRun: bool, t: Tally, rs: seq<Result>)
    ensures
      var u := AccountAll(dryRun, t, rs);
      u.compacted + u.untouched + u.skipped + u.dryRuns + u.failures
      == t.compacted + t.untouched + t.skipped + t.dryRuns + t.failures + |rs|
    decreases |rs|
  {
    if rs != [] { CountersPartition(dryRun, Account(dryRun, t, rs[0]), rs[1..]); }
  }

  /** A session of the project that was compacted. */
  ghost predicate CompactedAt(dryRun: bool, rs: seq<Result>, p: Project, index: nat) {
    exists r :: r in rs && IsCompactedAt(dryRun, r, p, index)
  }

  predicate IsCompactedAt(dryRun: bool, r: Result, p: Project, index: nat) {
    r.index == index && r.session.project == p && Classify(dryRun, r.answer).Compacted?
  }

  /** The map holds exactly the projects with a compacted session, each with the
      smallest discovery index of such a session. */
  lemma {:induction false} ProjectsAreEarliest(dryRun: bool, rs: seq<Result>, p: Project)
    ensures
      var m := AccountAll(dryRun, EMPTY, rs).projects;
      && (p in m <==> exists i: nat :: CompactedAt(dryRun, rs, p, i))
      && (p in m ==> CompactedAt(dryRun, rs, p, m[p]) && forall i: nat | CompactedAt(dryRun, rs, p, i) :: m[p] <= i)
    decreases |rs|
  {
    if rs != [] {
      var init, last := rs[..|rs| - 1], rs[|rs| - 1];
      assert rs == init + [last];
      ProjectsAreEarliest(dryRun, init, p);
      AccountConcat(dryRun, EMPTY, init, [last]);
      assert [last][1..] == [];
      assert AccountAll(dryRun, EMPTY, rs) == Account(dryRun, AccountAll(dryRun, EMPTY, init), last);
      forall i: nat { CompactedAtSnoc(dryRun, init, last, p, i); }
      if IsCompactedAt(dryRun, last, p, last.index) { assert CompactedAt(dryRun, rs, p, last.index); }
      if p in AccountAll(dryRun, EMPTY, init).projects {
        assert CompactedAt(dryRun, rs, p, AccountAll(dryRun, EMPTY, init).projects[p]);
      }
    }
  }

  lemma CompactedAtSnoc(dryRun: bool, rs: seq<Result>, last: Result, p: Project, i: nat)
    ensures CompactedAt(dryRun, rs + [last], p, i)
       <==> CompactedAt(dryRun, rs, p, i) || IsCompactedAt(dryRun, last, p, i)
  {
    if CompactedAt(dryRun, rs, p, i) {
      var r :| r in rs && IsCompactedAt(dryRun, r, p, i);
      assert r in rs + [last];
    }
    if IsCompactedAt(dryRun, last, p, i) { assert last in rs + [last]; }
  }

  lemma ProjectsInjective(dryRun: bool, rs: seq<Result>)
    requires DistinctIndexes(rs)
    ensures Injective(AccountAll(dryRun, EMPTY, rs).projects)
  {
    var m := AccountAll(dryRun, EMPTY, rs).projects;
    forall p, q | p in m && q in m && m[p] == m[q] ensures p == q {
      ProjectsAreEarliest(dryRun, rs, p);
      ProjectsAreEarliest(dryRun, rs, q);
      var r :| r in rs && IsCompactedAt(dryRun, r, p, m[p]);
      var s :| s in rs && IsCompactedAt(dryRun, s, q, m[q]);
    }
  }

  lemma HasMember<T>(s: seq<T>)
    ensures s == [] || exists x :: x in s
  {
    if s != [] { assert s[0] in s; }
  }

  lemma {:induction false} OrderedUnique(ps: seq<Project>, qs: seq<Project>, m: map<Project, nat>)
    requires Ascending(ps, m) && Ascending(qs, m) && forall p :: p in ps <==> p in qs
    ensures ps == qs
    decreases |ps|
  {
    if ps == [] {
      HasMember(qs);
    } else {
      assert ps[0] in qs;
      assert qs[0] in ps;
      assert ps[0] == qs[0];
      var ps', qs' := ps[1..], qs[1..];
      assert ps == [ps[0]] + ps' && qs == [qs[0]] + qs';
      assert forall i | 0 <= i < |ps'| :: ps'[i] == ps[i + 1];
      assert forall i | 0 <= i < |qs'| :: qs'[i] == qs[i + 1];
      forall p ensures p in ps' <==> p in qs' {
        assert p in ps' <==> p in ps && p != ps[0];
        assert p in qs' <==> p in qs && p != qs[0];
      }
      OrderedUnique(ps', qs', m);
    }
  }

  /** The batch result is a function of what completed, not of when. */
  lemma ResultIgnoresOrder(dryRun: bool, rs: seq<Result>, rs': seq<Result>, ps: seq<Project>, ps': seq<Project>)
    requires multiset(rs) == multiset(rs')
    requires IsOrdered(ps, AccountAll(dryRun, EMPTY, rs).projects)
    requires IsOrdered(ps', AccountAll(dryRun, EMPTY, rs').projects)
    ensures AccountAll(dryRun, EMPTY, rs) == AccountAll(dryRun, EMPTY, rs') && ps == ps'
  {
    TallyIgnoresOrder(dryRun, EMPTY, rs, rs');
    OrderedUnique(ps, ps', AccountAll(dryRun, EMPTY, rs).projects);
  }
}
