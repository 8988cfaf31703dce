/** The protected fresh tail of a context (src/compaction.ts, lines 726-748). */
module FreshTail {
  import opened Options
  import opened CompactionStore
  import opened CompactionPass

  function MessageCount(refs: seq<Ref>): nat {
    if refs == [] then 0 else (if refs[0].MessageRef? then 1 else 0) + MessageCount(refs[1..])
  }

  lemma {:induction false} MessageCountConcat(xs: seq<Ref>, ys: seq<Ref>)
    ensures MessageCount(xs + ys) == MessageCount(xs) + MessageCount(ys)
    decreases |xs|
  {
    if xs == [] {
      assert xs + ys == ys;
    } else {
      assert (xs + ys)[0] == xs[0] && (xs + ys)[1..] == xs[1..] + ys;
      MessageCountConcat(xs[1..], ys);
    }
  }

  /** The ordinals of the raw messages, in context order. */
  function RawOrdinals(items: seq<ContextItem>): (r: seq<nat>)
    ensures |r| == MessageCount(Refs(items))
  {
    if items == [] then []
    else
      assert Refs(items)[1..] == Refs(items[1..]);
      (if items[0].ref.MessageRef? then [items[0].ordinal] else []) + RawOrdinals(items[1..])
  }

  /** The first protected ordinal; None protects nothing. */
  function FreshTailOrdinal(items: seq<ContextItem>, count: int): Option<nat> {
    if count <= 0 then None
    else
      var raw := RawOrdinals(items);
      if raw == [] then None
      else Some(raw[if |raw| - count > 0 then |raw| - count else 0])
  }

  // ---- the tail as a suffix of the context -------------------------------------

  /** The tail starts at the count-th message from the end, or at the first message. */
  ghost predicate IsTailStart(refs: seq<Ref>, count: int, t: nat) {
    && t <= |refs|
    && if count <= 0 || MessageCount(refs) == 0 then t == |refs|
       else
         && t < |refs| && refs[t].MessageRef?
         && (MessageCount(refs[t..]) == count
             || (MessageCount(refs[t..]) < count && MessageCount(refs[..t]) == 0))
  }

  lemma {:induction false} RawOrdinalAt(items: seq<ContextItem>, k: nat) returns (i: nat)
    requires k < |RawOrdinals(items)|
    ensures i < |items| && items[i].ref.MessageRef? && RawOrdinals(items)[k] == items[i].ordinal
    ensures MessageCount(Refs(items)[..i]) == k
    decreases |items|
  {
    var refs := Refs(items);
    assert refs[1..] == Refs(items[1..]);
    if items[0].ref.MessageRef? && k == 0 {
      i := 0;
    } else {
      var j := RawOrdinalAt(items[1..], if items[0].ref.MessageRef? then k - 1 else k);
      i := j + 1;
      assert refs[..i][1..] == refs[1..][..j];
    }
  }

  function TailStart(refs: seq<Ref>, count: int): (t: nat)
    ensures t <= |refs|
  {
    if count <= 0 || MessageCount(refs) == 0 then |refs|
    else NthMessage(refs, if MessageCount(refs) - count > 0 then MessageCount(refs) - count else 0)
  }

  function NthMessage(refs: seq<Ref>, k: nat): (i: nat)
    requires k < MessageCount(refs)
    ensures i < |refs|
  {
    if refs[0].MessageRef? && k == 0 then 0
    else 1 + NthMessage(refs[1..], if refs[0].MessageRef? then k - 1 else k)
  }

  lemma {:induction false} NthMessageAt(refs: seq<Ref>, k: nat)
    requires k < MessageCount(refs)
    ensures
      var i := NthMessage(refs, k);
      refs[i].MessageRef? && MessageCount(refs[..i]) == k && MessageCount(refs[i..]) == MessageCount(refs) - k
    decreases |refs|
  {
    if refs[0].MessageRef? && k == 0 {
    } else {
      var k' := if refs[0].MessageRef? then k - 1 else k;
      var i := NthMessage(refs[1..], k');
      NthMessageAt(refs[1..], k');
      assert refs[..i + 1][1..] == refs[1..][..i];
      assert refs[1..][i..] == refs[i + 1..];
    }
  }

  lemma TailStartIs(refs: seq<Ref>, count: int)
    ensures IsTailStart(refs, count, TailStart(refs, count))
  {
    if count > 0 && MessageCount(refs) > 0 {
      NthMessageAt(refs, if MessageCount(refs) - count > 0 then MessageCount(refs) - count else 0);
    }
  }

  lemma {:induction false} SuffixCount(refs: seq<Ref>, t: nat, u: nat)
    requires t < u <= |refs| && refs[t].MessageRef?
    ensures MessageCount(refs[t..]) > MessageCount(refs[u..]) && MessageCount(refs[..u]) > 0
  {
    assert refs[t..] == refs[t..u] + refs[u..];
    MessageCountConcat(refs[t..u], refs[u..]);
    assert refs[..u] == refs[..t] + refs[t..u];
    MessageCountConcat(refs[..t], refs[t..u]);
    assert refs[t..u][0] == refs[t];
  }

  lemma TailStartUnique(refs: seq<Ref>, count: int, t: nat, u: nat)
    requires IsTailStart(refs, count, t) && IsTailStart(refs, count, u)
    ensures t == u
  {
    if t < u && u < |refs| { SuffixCount(refs, t, u); }
    if u < t && t < |refs| { SuffixCount(refs, u, t); }
  }

  /** An item is protected by its ordinal exactly when it lies in the tail suffix. */
  lemma {:induction false} ProtectedByOrdinal(items: seq<ContextItem>, count: int)
    requires Increasing(items)
    ensures
      var tail := FreshTailOrdinal(items, count);
      forall i | 0 <= i < |items| ::
        i >= TailStart(Refs(items), count) <==> tail.Some? && items[i].ordinal >= tail.value
  {
    var refs, raw := Refs(items), RawOrdinals(items);
    assert |raw| == MessageCount(refs) && |refs| == |items|;
    if count > 0 && raw != [] {
      TailStartOrdinal(items, count);
    }
  }

  lemma {:induction false} TailStartOrdinal(items: seq<ContextItem>, count: int)
    requires count > 0 && RawOrdinals(items) != []
    ensures
      var t := TailStart(Refs(items), count);
      t < |items| && FreshTailOrdinal(items, count) == Some(items[t].ordinal)
  {
    var refs, raw := Refs(items), RawOrdinals(items);
    var i := RawOrdinalAt(items, if |raw| - count > 0 then |raw| - count else 0);
    assert refs == refs[..i] + refs[i..];
    MessageCountConcat(refs[..i], refs[i..]);
    TailStartIs(refs, count);
    TailStartUnique(refs, count, TailStart(refs, count), i);
  }

  // ---- replacing unprotected items ------------------------------------------------

  function Tail(refs: seq<Ref>, count: int): seq<Ref> {
    refs[TailStart(refs, count)..]
  }

  lemma {:induction false} MiddleCount(pre: seq<Ref>, mid: seq<Ref>, post: seq<Ref>)
    ensures MessageCount(pre + mid + post) == MessageCount(pre) + MessageCount(mid) + MessageCount(post)
  {
    MessageCountConcat(pre + mid, post);
    MessageCountConcat(pre, mid);
  }

  lemma ThreeParts(refs: seq<Ref>, lo: nat, hi: nat, t: nat)
    requires lo <= hi <= t <= |refs|
    ensures refs[..lo] + refs[lo..hi] + refs[hi..t] == refs[..t]
  {
  }

  lemma {:induction false} HeadCount(refs: seq<Ref>, lo: nat, hi: nat, t: nat, id: SummaryId)
    requires lo < hi <= t <= |refs|
    ensures MessageCount(refs[..lo] + [SummaryRef(id)] + refs[hi..t]) <= MessageCount(refs[..t])
  {
    MiddleCount(refs[..lo], refs[lo..hi], refs[hi..t]);
    ThreeParts(refs, lo, hi, t);
    MiddleCount(refs[..lo], [SummaryRef(id)], refs[hi..t]);
    assert MessageCount([SummaryRef(id)]) == 0;
  }

  lemma {:induction false} UnprotectedCounts(refs: seq<Ref>, lo: nat, hi: nat, t: nat, id: SummaryId)
    requires lo < hi <= t <= |refs|
    ensures
      var head := refs[..lo] + [SummaryRef(id)] + refs[hi..t];
      && MessageCount(head) <= MessageCount(refs[..t])
      && MessageCount(refs) == MessageCount(refs[..t]) + MessageCount(refs[t..])
      && MessageCount(head + refs[t..]) == MessageCount(head) + MessageCount(refs[t..])
  {
    HeadCount(refs, lo, hi, t, id);
    MessageCountConcat(refs[..t], refs[t..]);
    assert refs[..t] + refs[t..] == refs;
    MessageCountConcat(refs[..lo] + [SummaryRef(id)] + refs[hi..t], refs[t..]);
  }

  /** Replacing unprotected items by one summary moves the boundary but not the tail. */
  lemma ReplacementKeepsTail(refs: seq<Ref>, count: int, lo: nat, hi: nat, id: SummaryId)
    requires lo < hi <= TailStart(refs, count)
    ensures Tail(refs[..lo] + [SummaryRef(id)] + refs[hi..], count) == Tail(refs, count)
  {
    var t := TailStart(refs, count);
    var head := refs[..lo] + [SummaryRef(id)] + refs[hi..t];
    var refs' := refs[..lo] + [SummaryRef(id)] + refs[hi..];
    assert refs' == head + refs[t..];
    UnprotectedCounts(refs, lo, hi, t, id);
    TailStartIs(refs, count);
    TailStartIs(refs', count);
    assert refs'[..|head|] == head && refs'[|head|..] == refs[t..];
    assert IsTailStart(refs', count, |head|) by {
      if t < |refs| { assert refs'[|head|] == refs[t]; }
    }
    TailStartUnique(refs', count, |head|, TailStart(refs', count));
  }
}
