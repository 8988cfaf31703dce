/** Facts about sequences that do not depend on what they hold. */
module Sequences {

  function Init<T>(s: seq<T>): seq<T>
    requires s != []
  {
    s[..|s| - 1]
  }

  function Last<T>(s: seq<T>): T
    requires s != []
  {
    s[|s| - 1]
  }

  lemma InitOfSnoc<T>(s: seq<T>, x: T)
    ensures Init(s + [x]) == s && Last(s + [x]) == x
  {
  }

  lemma InitOfConcat<T>(a: seq<T>, b: seq<T>)
    requires b != []
    ensures Init(a + b) == a + Init(b) && Last(a + b) == Last(b)
  {
  }

  lemma InitIndex<T>(s: seq<T>, i: nat)
    requires i < |s| - 1
    ensures Init(s)[i] == s[i]
  {
  }

  lemma PrefixSlice<T>(items: seq<T>, end: nat, lo: nat, hi: nat)
    requires lo <= hi <= end <= |items|
    ensures items[..end][lo..hi] == items[lo..hi]
  {
  }

  function Concat<T>(parts: seq<seq<T>>): seq<T> {
    if parts == [] then [] else parts[0] + Concat(parts[1..])
  }

  predicate EndsWith<T(==)>(t: seq<T>, s: seq<T>) {
    |s| <= |t| && t[|t| - |s|..] == s
  }

  lemma Associates<T>(a: seq<T>, b: seq<T>, c: seq<T>)
    ensures (a + b) + c == a + (b + c)
  {
  }

  /** Cutting a + [x] + b at or before x. */
  lemma CutAround<T>(a: seq<T>, x: T, b: seq<T>, n: nat)
    requires n <= |a|
    ensures (a + [x] + b)[..n] == a[..n] && (a + [x] + b)[n + 1..] == if n == |a| then b else a[n + 1..] + [x] + b
  {
  }

  lemma DropDrop<T>(s: seq<T>, a: nat, b: nat)
    requires a + b <= |s|
    ensures s[a..][b..] == s[a + b..]
    ensures b > 0 ==> s[a..][b - 1] == s[a + b - 1]
  {
  }

  lemma SliceEnds<T>(s: seq<T>, lo: nat, hi: nat, part: seq<T>)
    requires lo < hi <= |s| && part == s[lo..hi]
    ensures part[0] == s[lo] && part[|part| - 1] == s[hi - 1]
  {
  }
}
