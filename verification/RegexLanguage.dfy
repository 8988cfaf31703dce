/** The regex tree of the required-keyword analysis
    (scripts/update-gitleaks-patterns.ts, lines 42-46), the language it stands
    for, and the effect a language has on a set of automaton states. */
module RegexLanguage {
  import opened Options
  import opened KeywordAutomaton

  datatype Bound = Finite(n: nat) | Infinity {
    predicate Allows(count: nat) {
      this == Infinity || count <= this.n
    }
  }

  datatype Node =
    | Empty
    | Chars(values: seq<char>)
    | Sequence(children: seq<Node>)
    | Choice(children: seq<Node>)
    | Repeat(child: Node, min: nat, max: Bound)
  {
    /** Every quantifier has min <= max: RegExp itself rejects the others before parsing. */
    ghost predicate WellFormed() {
      match this
      case Empty => true
      case Chars(_) => true
      case Sequence(children) => forall c | c in children :: c.WellFormed()
      case Choice(children) => forall c | c in children :: c.WellFormed()
      case Repeat(child, min, max) => max.Allows(min) && child.WellFormed()
    }
  }

  type Language = iset<string>

  ghost function Catenation(l: Language, m: Language): Language {
    iset w, k | 0 <= k <= |w| && w[..k] in l && w[k..] in m :: w
  }

  ghost function Power(l: Language, n: nat): Language {
    if n == 0 then iset{""} else Catenation(l, Power(l, n - 1))
  }

  ghost function Lang(node: Node): Language
    decreases node
  {
    match node
    case Empty => iset{""}
    case Chars(values) => iset c | c in values :: [c]
    case Sequence(children) => LangSequence(children)
    case Choice(children) => iset i, w | 0 <= i < |children| && w in Lang(children[i]) :: w
    case Repeat(child, min, max) =>
      var l := Lang(child);
      iset n: nat, w | min <= n && max.Allows(n) && w in Power(l, n) :: w
  }

  ghost function LangSequence(children: seq<Node>): Language
    decreases children
  {
    if children == [] then iset{""} else Catenation(Lang(children[0]), LangSequence(children[1..]))
  }

  // ---- the states a language leads to -------------------------------------

  ghost predicate Reaches(a: Automaton, l: Language, s: string, t: string)
    requires "" in a.prefixes
  {
    exists w :: w in l && Run(a, s, w) == Some(t)
  }

  /** The states reached from S by words of l that hit no keyword. */
  ghost function Image(a: Automaton, l: Language, S: set<string>): (r: set<string>)
    requires "" in a.prefixes
    ensures r <= a.prefixes
  {
    set t | t in a.prefixes && exists s :: s in S && Reaches(a, l, s, t)
  }

  lemma ReachesConcat(a: Automaton, l: Language, m: Language, s: string, t: string)
    requires "" in a.prefixes && s in a.prefixes
    ensures Reaches(a, Catenation(l, m), s, t)
       <==> exists mid :: mid in a.prefixes && Reaches(a, l, s, mid) && Reaches(a, m, mid, t)
  {
    if Reaches(a, Catenation(l, m), s, t) {
      var w :| w in Catenation(l, m) && Run(a, s, w) == Some(t);
      var k :| 0 <= k <= |w| && w[..k] in l && w[k..] in m;
      RunConcat(a, s, w[..k], w[k..]);
      assert w[..k] + w[k..] == w;
      var mid := Run(a, s, w[..k]).value;
      assert Reaches(a, l, s, mid) && Reaches(a, m, mid, t);
    }
    if exists mid :: mid in a.prefixes && Reaches(a, l, s, mid) && Reaches(a, m, mid, t) {
      var mid :| mid in a.prefixes && Reaches(a, l, s, mid) && Reaches(a, m, mid, t);
      var u :| u in l && Run(a, s, u) == Some(mid);
      var v :| v in m && Run(a, mid, v) == Some(t);
      RunConcat(a, s, u, v);
      var w := u + v;
      assert w[..|u|] == u && w[|u|..] == v;
      assert w in Catenation(l, m);
    }
  }

  /** Reading a concatenation is reading one language after the other. */
  lemma ImageConcat(a: Automaton, l: Language, m: Language, S: set<string>)
    requires "" in a.prefixes && S <= a.prefixes
    ensures Image(a, Catenation(l, m), S) == Image(a, m, Image(a, l, S))
  {
    forall t | t in a.prefixes
      ensures t in Image(a, Catenation(l, m), S) <==> t in Image(a, m, Image(a, l, S))
    {
      forall s | s in S { ReachesConcat(a, l, m, s, t); }
    }
  }

  lemma ImageEpsilon(a: Automaton, S: set<string>)
    requires "" in a.prefixes && S <= a.prefixes
    ensures Image(a, iset{""}, S) == S
  {
    forall s | s in S ensures Reaches(a, iset{""}, s, s) { assert Run(a, s, "") == Some(s); }
    forall t | t in Image(a, iset{""}, S) ensures t in S {
      var s :| s in S && Reaches(a, iset{""}, s, t);
    }
  }

  lemma ImageUnion(a: Automaton, l: Language, S: set<string>, T: set<string>)
    requires "" in a.prefixes
    ensures Image(a, l, S + T) == Image(a, l, S) + Image(a, l, T)
  {}

  lemma ImageOfNothing(a: Automaton, l: Language)
    requires "" in a.prefixes
    ensures Image(a, l, {}) == {}
  {}

  // ---- repetition ---------------------------------------------------------

  ghost function Iterate(a: Automaton, l: Language, n: nat, S: set<string>): (r: set<string>)
    requires "" in a.prefixes && S <= a.prefixes
    ensures r <= a.prefixes
  {
    if n == 0 then S else Image(a, l, Iterate(a, l, n - 1, S))
  }

  lemma {:induction false} IterateShift(a: Automaton, l: Language, n: nat, S: set<string>)
    requires "" in a.prefixes && S <= a.prefixes
    ensures Iterate(a, l, n + 1, S) == Iterate(a, l, n, Image(a, l, S))
  {
    if n == 0 {
      assert Iterate(a, l, 1, S) == Image(a, l, Iterate(a, l, 0, S));
    } else {
      IterateShift(a, l, n - 1, S);
    }
  }

  lemma {:induction false} ImagePower(a: Automaton, l: Language, n: nat, S: set<string>)
    requires "" in a.prefixes && S <= a.prefixes
    ensures Image(a, Power(l, n), S) == Iterate(a, l, n, S)
  {
    if n == 0 {
      ImageEpsilon(a, S);
    } else {
      ImageConcat(a, l, Power(l, n - 1), S);
      ImagePower(a, l, n - 1, Image(a, l, S));
      IterateShift(a, l, n - 1, S);
    }
  }

  /** Once one more round changes nothing, no further round does. */
  lemma {:induction false} IterateStable(a: Automaton, l: Language, k: nat, n: nat, S: set<string>)
    requires "" in a.prefixes && S <= a.prefixes && k <= n
    requires Iterate(a, l, k + 1, S) == Iterate(a, l, k, S)
    ensures Iterate(a, l, n, S) == Iterate(a, l, k, S)
    decreases n - k
  {
    if k < n {
      assert Iterate(a, l, k + 2, S) == Image(a, l, Iterate(a, l, k + 1, S)) == Iterate(a, l, k + 1, S);
      IterateStable(a, l, k + 1, n, S);
    }
  }

  /** The states after between lo and hi rounds. */
  ghost function Rounds(a: Automaton, l: Language, lo: nat, hi: nat, S: set<string>): (r: set<string>)
    requires "" in a.prefixes && S <= a.prefixes && lo <= hi
    ensures r <= a.prefixes
    decreases hi
  {
    if lo == hi then Iterate(a, l, lo, S)
    else Rounds(a, l, lo, hi - 1, S) + Iterate(a, l, hi, S)
  }

  lemma {:induction false} RoundsContain(a: Automaton, l: Language, lo: nat, hi: nat, n: nat, S: set<string>)
    requires "" in a.prefixes && S <= a.prefixes && lo <= n <= hi
    ensures Iterate(a, l, n, S) <= Rounds(a, l, lo, hi, S)
    decreases hi
  {
    if n < hi { RoundsContain(a, l, lo, hi - 1, n, S); }
  }

  lemma {:induction false} RoundsWitness(a: Automaton, l: Language, lo: nat, hi: nat, S: set<string>, t: string)
    returns (n: nat)
    requires "" in a.prefixes && S <= a.prefixes && lo <= hi && t in Rounds(a, l, lo, hi, S)
    ensures lo <= n <= hi && t in Iterate(a, l, n, S)
    decreases hi
  {
    if lo < hi && t !in Iterate(a, l, hi, S) {
      n := RoundsWitness(a, l, lo, hi - 1, S, t);
    } else {
      n := hi;
    }
  }

  /** One step of the union loop: adding the image of everything so far adds one round. */
  lemma {:induction false} RoundsStep(a: Automaton, l: Language, lo: nat, hi: nat, S: set<string>)
    requires "" in a.prefixes && S <= a.prefixes && lo <= hi
    ensures Rounds(a, l, lo, hi, S) + Image(a, l, Rounds(a, l, lo, hi, S)) == Rounds(a, l, lo, hi + 1, S)
    decreases hi
  {
    if lo < hi {
      var prev, last := Rounds(a, l, lo, hi - 1, S), Iterate(a, l, hi, S);
      var all, next := Rounds(a, l, lo, hi, S), Iterate(a, l, hi + 1, S);
      assert prev + Image(a, l, prev) == all by { RoundsStep(a, l, lo, hi - 1, S); }
      assert Image(a, l, all) == Image(a, l, prev) + next by { ImageUnion(a, l, prev, last); }
      assert Rounds(a, l, lo, hi + 1, S) == all + next;
    }
  }

  /** A round that adds nothing has reached the limit of the unbounded union. */
  lemma {:induction false} RoundsClosed(a: Automaton, l: Language, lo: nat, hi: nat, n: nat, S: set<string>)
    requires "" in a.prefixes && S <= a.prefixes && lo <= hi && lo <= n
    requires Image(a, l, Rounds(a, l, lo, hi, S)) <= Rounds(a, l, lo, hi, S)
    ensures Iterate(a, l, n, S) <= Rounds(a, l, lo, hi, S)
    decreases n
  {
    if n == lo {
      RoundsContain(a, l, lo, hi, lo, S);
    } else {
      RoundsClosed(a, l, lo, hi, n - 1, S);
      var all := Rounds(a, l, lo, hi, S);
      ImageUnion(a, l, all, Iterate(a, l, n - 1, S));
      assert all + Iterate(a, l, n - 1, S) == all;
    }
  }

  /** The image of a repetition is the union of its rounds. */
  lemma ImageRepeat(a: Automaton, child: Node, min: nat, max: Bound, S: set<string>, t: string)
    requires "" in a.prefixes && S <= a.prefixes
    ensures t in Image(a, Lang(Repeat(child, min, max)), S)
       <==> exists n: nat :: min <= n && max.Allows(n) && t in Iterate(a, Lang(child), n, S)
  {
    var l, r := Lang(child), Lang(Repeat(child, min, max));
    assert forall n: nat, w | min <= n && max.Allows(n) && w in Power(l, n) :: w in r;
    assert forall w | w in r :: exists n: nat :: min <= n && max.Allows(n) && w in Power(l, n);
    ImageOfUnion(a, l, r, min, max, S, t);
  }

  lemma ImageOfUnion(a: Automaton, l: Language, r: Language, min: nat, max: Bound, S: set<string>, t: string)
    requires "" in a.prefixes && S <= a.prefixes
    requires forall n: nat, w | min <= n && max.Allows(n) && w in Power(l, n) :: w in r
    requires forall w | w in r :: exists n: nat :: min <= n && max.Allows(n) && w in Power(l, n)
    ensures t in Image(a, r, S) <==> exists n: nat :: min <= n && max.Allows(n) && t in Iterate(a, l, n, S)
  {
    if t in Image(a, r, S) {
      var s :| s in S && Reaches(a, r, s, t);
      var w :| w in r && Run(a, s, w) == Some(t);
      var n: nat :| min <= n && max.Allows(n) && w in Power(l, n);
      assert Reaches(a, Power(l, n), s, t);
      ImagePower(a, l, n, S);
    }
    if n: nat :| min <= n && max.Allows(n) && t in Iterate(a, l, n, S) {
      ImagePower(a, l, n, S);
      var s :| s in S && Reaches(a, Power(l, n), s, t);
      var w :| w in Power(l, n) && Run(a, s, w) == Some(t);
      assert Reaches(a, r, s, t);
    }
  }

  /** The rounds collected so far are the image of the repetition as soon as the
      count has reached max or a round has added nothing. */
  lemma RoundsAreImage(a: Automaton, child: Node, min: nat, max: Bound, hi: nat, S: set<string>)
    requires "" in a.prefixes && S <= a.prefixes && min <= hi && max.Allows(hi)
    requires
      var all := Rounds(a, Lang(child), min, hi, S);
      max == Finite(hi) || Image(a, Lang(child), all) <= all
    ensures Rounds(a, Lang(child), min, hi, S) == Image(a, Lang(Repeat(child, min, max)), S)
  {
    var l := Lang(child);
    var all, image := Rounds(a, l, min, hi, S), Image(a, Lang(Repeat(child, min, max)), S);
    forall t | t in all ensures t in image {
      var n := RoundsWitness(a, l, min, hi, S, t);
      ImageRepeat(a, child, min, max, S, t);
    }
    forall t | t in image ensures t in all {
      ImageRepeat(a, child, min, max, S, t);
      var n: nat :| min <= n && max.Allows(n) && t in Iterate(a, l, n, S);
      if n <= hi { RoundsContain(a, l, min, hi, n, S); } else { RoundsClosed(a, l, min, hi, n, S); }
    }
  }

  lemma ImageChoiceStep(a: Automaton, children: seq<Node>, last: Node, S: set<string>)
    requires "" in a.prefixes
    ensures Image(a, Lang(Choice(children + [last])), S)
         == Image(a, Lang(Choice(children)), S) + Image(a, Lang(last), S)
  {
    var all, l, r := children + [last], Lang(Choice(children)), Lang(Choice(children + [last]));
    assert forall i | 0 <= i < |children| :: all[i] == children[i];
    assert all[|children|] == last;
    assert r == l + Lang(last);
    ImageOfSum(a, l, Lang(last), S);
  }

  lemma ImageOfSum(a: Automaton, l: Language, m: Language, S: set<string>)
    requires "" in a.prefixes
    ensures Image(a, l + m, S) == Image(a, l, S) + Image(a, m, S)
  {
    forall s, t ensures Reaches(a, l + m, s, t) <==> Reaches(a, l, s, t) || Reaches(a, m, s, t) {
      if w :| w in l && Run(a, s, w) == Some(t) { assert w in l + m; }
      if w :| w in m && Run(a, s, w) == Some(t) { assert w in l + m; }
    }
  }

  lemma ImageOfNoLanguage(a: Automaton, S: set<string>)
    requires "" in a.prefixes
    ensures Image(a, Lang(Choice([])), S) == {}
  {}

  lemma ImageChars(a: Automaton, values: seq<char>, S: set<string>, t: string)
    requires "" in a.prefixes
    ensures t in Image(a, Lang(Chars(values)), S)
       <==> exists s, c :: s in S && c in values && Delta(a, s, c) == Some(t)
  {
    var r := Lang(Chars(values));
    forall s, c ensures Run(a, s, [c]) == Delta(a, s, c) { RunSnoc(a, s, "", c); assert "" + [c] == [c]; }
    if t in Image(a, r, S) {
      var s :| s in S && Reaches(a, r, s, t);
      var w :| w in r && Run(a, s, w) == Some(t);
    }
    if s, c :| s in S && c in values && Delta(a, s, c) == Some(t) {
      assert [c] in r && Run(a, s, [c]) == Some(t);
      assert Reaches(a, r, s, t);
    }
  }
}
