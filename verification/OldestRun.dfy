/** The oldest contiguous run of eligible items within a token budget: the rule
    shared by the chunk selectors of src/compaction.ts and by the replay
    discovery of src/batch-compact.ts. */
module OldestRun {

  function Sum(w: seq<nat>, lo: nat, hi: nat): nat
    requires lo <= hi <= |w|
    decreases hi
  {
    if lo == hi then 0 else Sum(w, lo, hi - 1) + w[hi - 1]
  }

  /** lo..i is a start of the run: nothing eligible before it, no gap inside it,
      and every item after the first was taken below the budget. */
  ghost predicate IsRunPrefix(eligible: seq<bool>, w: seq<nat>, budget: nat, lo: nat, i: nat)
    requires |eligible| == |w|
  {
    && lo <= i <= |w|
    && (forall k | 0 <= k < lo :: !eligible[k])
    && (forall k | lo <= k < i :: eligible[k])
    && (forall j | lo < j < i :: FitsNext(w, budget, lo, j))
  }

  /** After lo..j the budget is not reached, and item j stays within it. */
  ghost predicate FitsNext(w: seq<nat>, budget: nat, lo: nat, j: nat)
    requires lo <= j < |w|
  {
    Sum(w, lo, j) < budget && Sum(w, lo, j) + w[j] <= budget
  }

  /** The run cannot be longer: the items end, a gap follows, or the budget is reached. */
  ghost predicate Stops(eligible: seq<bool>, w: seq<nat>, budget: nat, lo: nat, hi: nat)
    requires |eligible| == |w| && lo <= hi <= |w|
  {
    || hi == |w|
    || (lo < hi && (!eligible[hi] || Sum(w, lo, hi) >= budget || Sum(w, lo, hi) + w[hi] > budget))
  }

  ghost predicate IsOldestRun(eligible: seq<bool>, w: seq<nat>, budget: nat, lo: nat, hi: nat)
    requires |eligible| == |w|
  {
    IsRunPrefix(eligible, w, budget, lo, hi) && Stops(eligible, w, budget, lo, hi)
  }

  /** There is only one oldest run. */
  lemma OldestRunUnique(eligible: seq<bool>, w: seq<nat>, budget: nat, lo: nat, hi: nat, lo': nat, hi': nat)
    requires |eligible| == |w|
    requires IsOldestRun(eligible, w, budget, lo, hi) && IsOldestRun(eligible, w, budget, lo', hi')
    ensures lo == lo' && hi == hi'
  {
    if lo < hi { assert eligible[lo]; }
    if lo' < hi' { assert eligible[lo']; }
    assert lo == lo';
    assert lo < hi < hi' ==> FitsNext(w, budget, lo, hi);
    assert lo < hi' < hi ==> FitsNext(w, budget, lo, hi');
  }

  datatype Found = Found(lo: nat, hi: nat, tokens: nat)

  /** Where a scan that has taken lo..i, worth tokens, ends. */
  function Find(eligible: seq<bool>, w: seq<nat>, budget: nat, lo: nat, i: nat, tokens: nat): Found
    requires |eligible| == |w| && lo <= i <= |w|
    decreases |w| - i
  {
    if i == |w| then Found(lo, i, tokens)
    else if !eligible[i] then
      if lo < i then Found(lo, i, tokens) else Find(eligible, w, budget, i + 1, i + 1, 0)
    else if lo < i && tokens + w[i] > budget then Found(lo, i, tokens)
    else if tokens + w[i] >= budget then Found(lo, i + 1, tokens + w[i])
    else Find(eligible, w, budget, lo, i + 1, tokens + w[i])
  }

  lemma {:induction false} FindsOldestRun(eligible: seq<bool>, w: seq<nat>, budget: nat, lo: nat, i: nat, tokens: nat)
    requires |eligible| == |w| && IsRunPrefix(eligible, w, budget, lo, i)
    requires tokens == Sum(w, lo, i) && (lo < i ==> tokens < budget)
    ensures
      var r := Find(eligible, w, budget, lo, i, tokens);
      IsOldestRun(eligible, w, budget, r.lo, r.hi) && r.tokens == Sum(w, r.lo, r.hi)
    decreases |w| - i
  {
    if i == |w| {
    } else if !eligible[i] {
      if lo == i { FindsOldestRun(eligible, w, budget, i + 1, i + 1, 0); }
    } else if !(lo < i && tokens + w[i] > budget) {
      assert Sum(w, lo, i + 1) == tokens + w[i];
      assert IsRunPrefix(eligible, w, budget, lo, i + 1);
      if tokens + w[i] < budget { FindsOldestRun(eligible, w, budget, lo, i + 1, tokens + w[i]); }
    }
  }

  lemma SliceGrows<T>(items: seq<T>, lo: nat, i: nat)
    requires lo <= i < |items|
    ensures items[lo..i] + [items[i]] == items[lo..i + 1]
  {}

  lemma PrefixGrows<T>(items: seq<T>, i: nat)
    requires i < |items|
    ensures items[..i + 1] == items[..i] + [items[i]] && items[i] in items
  {}
}
