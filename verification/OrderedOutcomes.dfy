/** Lists of match outcomes compared by first-occurrence order: a backtracking
    matcher tries outcomes in list order, and trying one a second time can
    never succeed where the first try failed. */
module OrderedOutcomes {

  function Add<T(==)>(acc: seq<T>, x: T): seq<T> {
    if x in acc then acc else acc + [x]
  }

  /** acc, then the elements of xs that are new, in order. */
  function Merge<T(==)>(acc: seq<T>, xs: seq<T>): seq<T>
    decreases |xs|
  {
    if xs == [] then acc else Merge(Add(acc, xs[0]), xs[1..])
  }

  ghost predicate Same<T>(xs: seq<T>, ys: seq<T>) {
    Merge([], xs) == Merge([], ys)
  }

  lemma {:induction false} MergeConcat<T>(acc: seq<T>, xs: seq<T>, ys: seq<T>)
    ensures Merge(acc, xs + ys) == Merge(Merge(acc, xs), ys)
    decreases |xs|
  {
    if xs == [] {
      assert xs + ys == ys;
    } else {
      assert (xs + ys)[0] == xs[0] && (xs + ys)[1..] == xs[1..] + ys;
      MergeConcat(Add(acc, xs[0]), xs[1..], ys);
    }
  }

  lemma MergeSnoc<T>(acc: seq<T>, xs: seq<T>, x: T)
    ensures Merge(acc, xs + [x]) == Add(Merge(acc, xs), x)
  {
    MergeConcat(acc, xs, [x]);
    var m := Merge(acc, xs);
    assert [x][1..] == [];
    assert Merge(m, [x]) == Merge(Add(m, x), []);
  }

  lemma {:induction false} MergeMembers<T>(acc: seq<T>, xs: seq<T>, e: T)
    ensures e in Merge(acc, xs) <==> e in acc || e in xs
    decreases |xs|
  {
    if xs != [] {
      MergeMembers(Add(acc, xs[0]), xs[1..], e);
      assert xs == [xs[0]] + xs[1..];
    }
  }

  lemma {:induction false} MergeAbsorbs<T>(acc: seq<T>, xs: seq<T>)
    requires forall e | e in xs :: e in acc
    ensures Merge(acc, xs) == acc
    decreases |xs|
  {
    if xs != [] {
      assert xs[0] in xs;
      MergeAbsorbs(acc, xs[1..]);
    }
  }

  lemma {:induction false} MergeOfMerge<T>(acc: seq<T>, xs: seq<T>)
    ensures Merge(acc, Merge([], xs)) == Merge(acc, xs)
    decreases |xs|
  {
    if xs != [] {
      var u, x := xs[..|xs| - 1], xs[|xs| - 1];
      assert xs == u + [x];
      MergeOfMerge(acc, u);
      MergeSnoc([], u, x);
      MergeSnoc(acc, u, x);
      MergeMembers([], u, x);
      MergeMembers(acc, u, x);
      if x !in u {
        MergeSnoc(acc, Merge([], u), x);
      }
    }
  }

  lemma SameMembers<T>(xs: seq<T>, ys: seq<T>, e: T)
    requires Same(xs, ys)
    ensures e in xs <==> e in ys
  {
    MergeMembers([], xs, e);
    MergeMembers([], ys, e);
  }

  lemma SameConcat<T>(xs: seq<T>, xs': seq<T>, ys: seq<T>, ys': seq<T>)
    requires Same(xs, xs') && Same(ys, ys')
    ensures Same(xs + ys, xs' + ys')
  {
    MergeConcat([], xs, ys);
    MergeConcat([], xs', ys');
    var m := Merge([], xs);
    MergeOfMerge(m, ys);
    MergeOfMerge(m, ys');
  }

  lemma {:induction false} MergeKeepsPrefix<T>(acc: seq<T>, xs: seq<T>)
    ensures acc <= Merge(acc, xs)
    decreases |xs|
  {
    if xs != [] { MergeKeepsPrefix(Add(acc, xs[0]), xs[1..]); }
  }

  /** Equivalent lists have the same first outcome, so the same match. */
  lemma SameHead<T>(xs: seq<T>, ys: seq<T>)
    requires Same(xs, ys)
    ensures xs == [] <==> ys == []
    ensures xs != [] ==> xs[0] == ys[0]
  {
    if xs != [] { assert Add([], xs[0]) == [xs[0]]; MergeKeepsPrefix([xs[0]], xs[1..]); }
    if ys != [] { assert Add([], ys[0]) == [ys[0]]; MergeKeepsPrefix([ys[0]], ys[1..]); }
  }

  /** The first outcome the rest of the pattern accepts. */
  function Filtered<T>(xs: seq<T>, accept: T -> bool): seq<T> {
    if xs == [] then []
    else (if accept(xs[0]) then [xs[0]] else []) + Filtered(xs[1..], accept)
  }

  lemma {:induction false} FilteredMerge<T>(acc: seq<T>, xs: seq<T>, accept: T -> bool)
    ensures Filtered(Merge(acc, xs), accept) == Merge(Filtered(acc, accept), Filtered(xs, accept))
    decreases |xs|
  {
    if xs != [] {
      var x, rest := xs[0], xs[1..];
      FilteredMerge(Add(acc, x), rest, accept);
      FilteredSnoc(acc, x, accept);
      FilteredMembers(acc, x, accept);
      var head := if accept(x) then [x] else [];
      MergeConcat(Filtered(acc, accept), head, Filtered(rest, accept));
      assert Merge(Filtered(acc, accept), head) == Filtered(Add(acc, x), accept) by {
        if accept(x) {
          assert [x][1..] == [];
          assert Merge(Filtered(acc, accept), [x]) == Add(Filtered(acc, accept), x);
        }
      }
    }
  }

  lemma {:induction false} FilteredSnoc<T>(xs: seq<T>, x: T, accept: T -> bool)
    ensures Filtered(xs + [x], accept) == Filtered(xs, accept) + if accept(x) then [x] else []
    decreases |xs|
  {
    if xs == [] {
      assert xs + [x] == [x];
      assert [x][1..] == [];
    } else {
      assert (xs + [x])[0] == xs[0] && (xs + [x])[1..] == xs[1..] + [x];
      FilteredSnoc(xs[1..], x, accept);
    }
  }

  lemma {:induction false} FilteredMembers<T>(xs: seq<T>, e: T, accept: T -> bool)
    ensures e in Filtered(xs, accept) <==> e in xs && accept(e)
    decreases |xs|
  {
    if xs != [] {
      FilteredMembers(xs[1..], e, accept);
      assert xs == [xs[0]] + xs[1..];
    }
  }

  /** Whatever the continuation accepts, equivalent lists succeed on the same outcome. */
  lemma SameUnderContinuation<T>(xs: seq<T>, ys: seq<T>, accept: T -> bool)
    requires Same(xs, ys)
    ensures Same(Filtered(xs, accept), Filtered(ys, accept))
  {
    FilteredMerge([], xs, accept);
    FilteredMerge([], ys, accept);
  }

  // ---- concatenating the outcomes of every element ---------------------------

  function FlatMap<T, U>(xs: seq<T>, f: T -> seq<U>): seq<U>
    decreases |xs|
  {
    if xs == [] then [] else f(xs[0]) + FlatMap(xs[1..], f)
  }

  lemma {:induction false} FlatMapConcat<T, U>(xs: seq<T>, ys: seq<T>, f: T -> seq<U>)
    ensures FlatMap(xs + ys, f) == FlatMap(xs, f) + FlatMap(ys, f)
    decreases |xs|
  {
    if xs == [] {
      assert xs + ys == ys;
    } else {
      assert (xs + ys)[0] == xs[0] && (xs + ys)[1..] == xs[1..] + ys;
      FlatMapConcat(xs[1..], ys, f);
    }
  }

  lemma FlatMapSingle<T, U>(x: T, f: T -> seq<U>)
    ensures FlatMap([x], f) == f(x)
  {
    assert [x][1..] == [];
    assert FlatMap([x], f) == f(x) + FlatMap<T, U>([], f);
  }

  lemma {:induction false} FlatMapMembers<T, U>(xs: seq<T>, f: T -> seq<U>, x: T, e: U)
    requires x in xs && e in f(x)
    ensures e in FlatMap(xs, f)
    decreases |xs|
  {
    assert xs == [xs[0]] + xs[1..];
    if x != xs[0] { FlatMapMembers(xs[1..], f, x, e); }
  }

  lemma {:induction false} FlatMapPointwise<T, U>(xs: seq<T>, f: T -> seq<U>, g: T -> seq<U>)
    requires forall x | x in xs :: Same(f(x), g(x))
    ensures Same(FlatMap(xs, f), FlatMap(xs, g))
    decreases |xs|
  {
    if xs != [] {
      assert xs == [xs[0]] + xs[1..];
      FlatMapPointwise(xs[1..], f, g);
      SameConcat(f(xs[0]), g(xs[0]), FlatMap(xs[1..], f), FlatMap(xs[1..], g));
    }
  }

  lemma {:induction false} FlatMapOfMerge<T, U>(xs: seq<T>, f: T -> seq<U>)
    ensures Same(FlatMap(xs, f), FlatMap(Merge([], xs), f))
    decreases |xs|
  {
    if xs != [] {
      var u, x := xs[..|xs| - 1], xs[|xs| - 1];
      assert xs == u + [x];
      FlatMapOfMerge(u, f);
      MergeSnoc([], u, x);
      MergeMembers([], u, x);
      FlatMapConcat(u, [x], f);
      FlatMapSingle(x, f);
      if x in u {
        AbsorbImage(u, f, x);
      } else {
        FlatMapConcat(Merge([], u), [x], f);
        SameConcat(FlatMap(u, f), FlatMap(Merge([], u), f), f(x), f(x));
      }
    }
  }

  lemma AbsorbImage<T, U>(u: seq<T>, f: T -> seq<U>, x: T)
    requires x in u
    ensures Same(FlatMap(u, f) + f(x), FlatMap(u, f))
  {
    var all := FlatMap(u, f);
    MergeConcat([], all, f(x));
    forall e | e in f(x) ensures e in Merge([], all) {
      FlatMapMembers(u, f, x, e);
      MergeMembers([], all, e);
    }
    MergeAbsorbs(Merge([], all), f(x));
  }

  /** Equivalent lists continued in equivalent ways are equivalent. */
  lemma FlatMapSame<T, U>(xs: seq<T>, ys: seq<T>, f: T -> seq<U>, g: T -> seq<U>)
    requires Same(xs, ys) && forall x | x in xs :: Same(f(x), g(x))
    ensures Same(FlatMap(xs, f), FlatMap(ys, g))
  {
    FlatMapPointwise(xs, f, g);
    FlatMapOfMerge(xs, g);
    FlatMapOfMerge(ys, g);
  }

  lemma {:induction false} MergeSeen<T>(m: seq<T>, p: seq<T>, q: seq<T>)
    requires forall e | e in p :: e in m
    ensures Merge(m, p + q) == Merge(m, q)
  {
    MergeConcat(m, p, q);
    MergeAbsorbs(m, p);
  }

  lemma {:induction false} MergeHolds<T>(h: seq<T>, p: seq<T>)
    ensures forall e | e in p :: e in Merge([], h + p)
  {
    forall e | e in p ensures e in Merge([], h + p) { MergeMembers([], h + p, e); }
  }

  /** Trying again what was tried just before changes nothing. */
  lemma {:induction false} TriedAgain<T>(h: seq<T>, p: seq<T>, q: seq<T>)
    ensures Same((h + p) + (p + q), h + (p + q))
  {
    MergeHolds(h, p);
    MergeConcat([], h + p, p + q);
    MergeSeen(Merge([], h + p), p, q);
    assert h + (p + q) == (h + p) + q;
    MergeConcat([], h + p, q);
  }
}
