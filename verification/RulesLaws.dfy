/** What the condition evaluator guarantees: against plain Boolean evaluation, between the two
    short-circuit modes, and under reordering of children. */
module RulesLaws {
  import opened Rules

  // ---------------------------------------------------------------- Boolean reference

  /** Plain Boolean reading of a tree; a leaf that errs reads as false. */
  predicate Truth<L(!new)>(n: Node<L>, ask: L -> LeafOutcome) {
    match n
    case All(cs) => forall i :: 0 <= i < |cs| ==> Truth(cs[i], ask)
    case Any(cs) => exists i :: 0 <= i < |cs| && Truth(cs[i], ask)
    case Not(c) => !Truth(c, ask)
    case Leaf(l) => ask(l) == Matches
  }

  predicate NotFree<L(!new)>(n: Node<L>) {
    match n
    case All(cs) => forall i :: 0 <= i < |cs| ==> NotFree(cs[i])
    case Any(cs) => forall i :: 0 <= i < |cs| ==> NotFree(cs[i])
    case Not(_) => false
    case Leaf(_) => true
  }

  predicate NoLeafErrs<L(!new)>(n: Node<L>, ask: L -> LeafOutcome) {
    match n
    case All(cs) => forall i :: 0 <= i < |cs| ==> NoLeafErrs(cs[i], ask)
    case Any(cs) => forall i :: 0 <= i < |cs| ==> NoLeafErrs(cs[i], ask)
    case Not(c) => NoLeafErrs(c, ask)
    case Leaf(l) => !ask(l).Errs?
  }

  /** A result with errors is never matched. */
  predicate Sound(v: Verdict) {
    v.errors == [] || !v.matched
  }

  lemma {:induction false} AllMatched(vs: seq<Verdict>, shortCircuit: bool)
    ensures AllOf(vs, shortCircuit).matched == forall i :: 0 <= i < |vs| ==> Good(vs[i])
    ensures Sound(AllOf(vs, shortCircuit))
  {
    if vs != [] {
      AllMatched(vs[1..], shortCircuit);
      assert forall i :: 0 < i < |vs| ==> vs[i] == vs[1..][i - 1];
    }
  }

  lemma {:induction false} AnyMatched(vs: seq<Verdict>, shortCircuit: bool)
    ensures AnyOf(vs, shortCircuit).matched == exists i :: 0 <= i < |vs| && Good(vs[i])
    ensures Sound(AnyOf(vs, shortCircuit))
  {
    if vs != [] {
      AnyMatched(vs[1..], shortCircuit);
      assert forall i :: 0 < i < |vs| ==> vs[i] == vs[1..][i - 1];
      if i :| 0 <= i < |vs[1..]| && Good(vs[1..][i]) {
        assert Good(vs[i + 1]);
      }
    }
  }

  lemma GroupMatched(vs: seq<Verdict>, shortCircuit: bool)
    ensures AllOf(vs, shortCircuit).matched == forall i :: 0 <= i < |vs| ==> Good(vs[i])
    ensures AnyOf(vs, shortCircuit).matched == exists i :: 0 <= i < |vs| && Good(vs[i])
    ensures Sound(AllOf(vs, shortCircuit)) && Sound(AnyOf(vs, shortCircuit))
  {
    AllMatched(vs, shortCircuit);
    AnyMatched(vs, shortCircuit);
  }

  lemma {:induction false} GroupErrorFree(vs: seq<Verdict>, shortCircuit: bool)
    requires forall i :: 0 <= i < |vs| ==> vs[i].errors == []
    ensures AllOf(vs, shortCircuit).errors == [] && AnyOf(vs, shortCircuit).errors == []
  {
    if vs != [] {
      GroupErrorFree(vs[1..], shortCircuit);
    }
  }

  lemma {:induction false} ErrorsNeverMatch<L(!new)>(n: Node<L>, o: Options<L>)
    ensures Sound(Evaluate(n, o))
  {
    match n
    case All(cs) => GroupMatched(EvaluateEach(cs, o), o.shortCircuit);
    case Any(cs) => GroupMatched(EvaluateEach(cs, o), o.shortCircuit);
    case Not(c) => ErrorsNeverMatch(c, o);
    case Leaf(_) =>
  }

  /** On trees without `not`, and on trees whose leaves never err, either mode computes the
      Boolean reading; without leaf errors there are none in the result. */
  lemma {:induction false} MatchesTruth<L(!new)>(n: Node<L>, o: Options<L>)
    requires NotFree(n) || NoLeafErrs(n, o.ask)
    ensures Evaluate(n, o).matched == Truth(n, o.ask)
    ensures NoLeafErrs(n, o.ask) ==> Evaluate(n, o).errors == []
    decreases n, 1
  {
    match n
    case All(cs) => ChildrenMatchTruth(n, o);
    case Any(cs) => ChildrenMatchTruth(n, o);
    case Not(c) => MatchesTruth(c, o);
    case Leaf(_) =>
  }

  lemma {:induction false} ChildrenMatchTruth<L(!new)>(n: Node<L>, o: Options<L>)
    requires n.All? || n.Any?
    requires NotFree(n) || NoLeafErrs(n, o.ask)
    ensures Evaluate(n, o).matched == Truth(n, o.ask)
    ensures NoLeafErrs(n, o.ask) ==> Evaluate(n, o).errors == []
    decreases n, 0
  {
    var vs := EvaluateEach(n.children, o);
    forall i | 0 <= i < |vs|
      ensures Good(vs[i]) == Truth(n.children[i], o.ask)
      ensures NoLeafErrs(n, o.ask) ==> vs[i].errors == []
    {
      MatchesTruth(n.children[i], o);
      ErrorsNeverMatch(n.children[i], o);
    }
    GroupMatched(vs, o.shortCircuit);
    if NoLeafErrs(n, o.ask) {
      GroupErrorFree(vs, o.shortCircuit);
    }
    if n.Any? && Truth(n, o.ask) {
      var i :| 0 <= i < |vs| && Truth(n.children[i], o.ask);
      assert Good(vs[i]);
    }
  }

  // ---------------------------------------------------------------- three-valued reading

  datatype Reading = Yes | No | Wrong

  /** What a verdict says. */
  function Said(v: Verdict): Reading {
    if v.errors != [] then Wrong else if v.matched then Yes else No
  }

  function Negated(r: Reading): Reading {
    match r
    case Yes => No
    case No => Yes
    case Wrong => Wrong
  }

  function LeafReading(o: LeafOutcome): Reading {
    match o
    case Matches => Yes
    case Differs => No
    case Errs(_) => Wrong
  }

  /** `any`: one yes is enough, and otherwise one error spoils it. */
  function AnyReading(rs: seq<Reading>): Reading {
    if Yes in rs then Yes else if Wrong in rs then Wrong else No
  }

  /** `all` looking at every child: one error spoils it. */
  function AllFully(rs: seq<Reading>): Reading {
    if Wrong in rs then Wrong else if No in rs then No else Yes
  }

  /** `all` looking no further than its first child that is not a yes. */
  function AllInTurn(rs: seq<Reading>): (r: Reading)
    ensures r == Yes <==> forall i :: 0 <= i < |rs| ==> rs[i] == Yes
    ensures r != Yes ==> exists k :: 0 <= k < |rs| && rs[k] == r && forall j :: 0 <= j < k ==> rs[j] == Yes
  {
    if rs == [] then Yes else if rs[0] != Yes then rs[0] else
      var r := AllInTurn(rs[1..]);
      assert r != Yes ==> exists k :: 0 <= k < |rs[1..]| && rs[1..][k] == r && forall j :: 0 <= j < k ==> rs[1..][j] == Yes;
      assert forall k :: 0 <= k < |rs[1..]| ==> rs[1..][k] == rs[k + 1];
      r
  }

  /** The tree read with every child looked at. */
  function Fully<L(!new)>(n: Node<L>, ask: L -> LeafOutcome): Reading {
    match n
    case All(cs) => AllFully(seq(|cs|, i requires 0 <= i < |cs| => Fully(cs[i], ask)))
    case Any(cs) => AnyReading(seq(|cs|, i requires 0 <= i < |cs| => Fully(cs[i], ask)))
    case Not(c) => Negated(Fully(c, ask))
    case Leaf(l) => LeafReading(ask(l))
  }

  /** The tree read with each `all` looking no further than it must. */
  function InTurn<L(!new)>(n: Node<L>, ask: L -> LeafOutcome): Reading {
    match n
    case All(cs) => AllInTurn(seq(|cs|, i requires 0 <= i < |cs| => InTurn(cs[i], ask)))
    case Any(cs) => AnyReading(seq(|cs|, i requires 0 <= i < |cs| => InTurn(cs[i], ask)))
    case Not(c) => Negated(InTurn(c, ask))
    case Leaf(l) => LeafReading(ask(l))
  }

  function SaidEach(vs: seq<Verdict>): (rs: seq<Reading>)
    ensures |rs| == |vs| && forall i :: 0 <= i < |vs| ==> rs[i] == Said(vs[i])
  {
    seq(|vs|, i requires 0 <= i < |vs| => Said(vs[i]))
  }

  lemma SaidCons(vs: seq<Verdict>)
    requires vs != []
    ensures SaidEach(vs) == [Said(vs[0])] + SaidEach(vs[1..]) && SaidEach(vs)[1..] == SaidEach(vs[1..])
  {
  }

  lemma {:induction false} SaidAllFully(vs: seq<Verdict>)
    ensures Said(AllOf(vs, false)) == AllFully(SaidEach(vs))
  {
    if vs != [] {
      SaidAllFully(vs[1..]);
      SaidCons(vs);
      AllMatched(vs[1..], false);
    }
  }

  lemma {:induction false} SaidAllInTurn(vs: seq<Verdict>)
    ensures Said(AllOf(vs, true)) == AllInTurn(SaidEach(vs))
  {
    if vs != [] {
      SaidAllInTurn(vs[1..]);
      SaidCons(vs);
    }
  }

  lemma {:induction false} SaidAny(vs: seq<Verdict>, shortCircuit: bool)
    ensures Said(AnyOf(vs, shortCircuit)) == AnyReading(SaidEach(vs))
  {
    if vs != [] {
      SaidAny(vs[1..], shortCircuit);
      SaidCons(vs);
    }
  }

  /** Each mode computes its reading of the tree. */
  lemma {:induction false} EvaluateReads<L(!new)>(n: Node<L>, o: Options<L>)
    ensures Said(Evaluate(n, o)) == if o.shortCircuit then InTurn(n, o.ask) else Fully(n, o.ask)
  {
    if n.All? || n.Any? {
      var vs := EvaluateEach(n.children, o);
      forall i | 0 <= i < |vs|
        ensures Said(vs[i]) == if o.shortCircuit then InTurn(n.children[i], o.ask) else Fully(n.children[i], o.ask)
      {
        EvaluateReads(n.children[i], o);
      }
      var cs := n.children;
      if o.shortCircuit {
        assert SaidEach(vs) == seq(|cs|, i requires 0 <= i < |cs| => InTurn(cs[i], o.ask));
      } else {
        assert SaidEach(vs) == seq(|cs|, i requires 0 <= i < |cs| => Fully(cs[i], o.ask));
      }
      SaidAllFully(vs);
      SaidAllInTurn(vs);
      SaidAny(vs, o.shortCircuit);
    } else if n.Not? {
      EvaluateReads(n.inner, o);
      ErrorsNeverMatch(n.inner, o);
    }
  }

  // ---------------------------------------------------------------- short-circuiting

  /** A full reading without error is also the reading in turn. */
  lemma {:induction false} InTurnFollows<L(!new)>(n: Node<L>, ask: L -> LeafOutcome)
    ensures Fully(n, ask) != Wrong ==> InTurn(n, ask) == Fully(n, ask)
  {
    if n.All? || n.Any? {
      var cs := n.children;
      forall i | 0 <= i < |cs| ensures Fully(cs[i], ask) != Wrong ==> InTurn(cs[i], ask) == Fully(cs[i], ask) {
        InTurnFollows(cs[i], ask);
      }
      GroupFollows(seq(|cs|, i requires 0 <= i < |cs| => Fully(cs[i], ask)),
                   seq(|cs|, i requires 0 <= i < |cs| => InTurn(cs[i], ask)));
    } else if n.Not? {
      InTurnFollows(n.inner, ask);
    }
  }

  lemma GroupFollows(full: seq<Reading>, turn: seq<Reading>)
    requires |full| == |turn| && forall i :: 0 <= i < |full| ==> full[i] == Wrong || turn[i] == full[i]
    ensures AllFully(full) != Wrong ==> AllInTurn(turn) == AllFully(full)
    ensures AnyReading(full) != Wrong ==> AnyReading(turn) == AnyReading(full)
  {
    if Wrong !in full {
      assert turn == full;
    } else if Yes in full {
      var i :| 0 <= i < |full| && full[i] == Yes;
      assert turn[i] == Yes;
    }
  }

  /** No `all` with several children. */
  predicate NarrowAlls<L(!new)>(n: Node<L>) {
    match n
    case All(cs) => |cs| <= 1 && forall i :: 0 <= i < |cs| ==> NarrowAlls(cs[i])
    case Any(cs) => forall i :: 0 <= i < |cs| ==> NarrowAlls(cs[i])
    case Not(c) => NarrowAlls(c)
    case Leaf(_) => true
  }

  /** No `not` above an `all` with several children. */
  predicate NotsAreNarrow<L(!new)>(n: Node<L>) {
    match n
    case All(cs) => forall i :: 0 <= i < |cs| ==> NotsAreNarrow(cs[i])
    case Any(cs) => forall i :: 0 <= i < |cs| ==> NotsAreNarrow(cs[i])
    case Not(c) => NarrowAlls(c)
    case Leaf(_) => true
  }

  lemma {:induction false} NarrowReadsAlike<L(!new)>(n: Node<L>, ask: L -> LeafOutcome)
    requires NarrowAlls(n)
    ensures InTurn(n, ask) == Fully(n, ask)
  {
    if n.All? || n.Any? {
      var cs := n.children;
      forall i | 0 <= i < |cs| ensures InTurn(cs[i], ask) == Fully(cs[i], ask) {
        NarrowReadsAlike(cs[i], ask);
      }
      var full, turn := seq(|cs|, i requires 0 <= i < |cs| => Fully(cs[i], ask)), seq(|cs|, i requires 0 <= i < |cs| => InTurn(cs[i], ask));
      assert full == turn;
      if |cs| == 1 {
        assert AllInTurn(turn) == AllFully(turn) == turn[0];
      }
    } else if n.Not? {
      NarrowReadsAlike(n.inner, ask);
    }
  }

  /** With narrow `not`s the readings say yes to the same trees. */
  lemma {:induction false} NarrowNotsAgree<L(!new)>(n: Node<L>, ask: L -> LeafOutcome)
    requires NotsAreNarrow(n)
    ensures InTurn(n, ask) == Yes <==> Fully(n, ask) == Yes
  {
    if n.All? || n.Any? {
      var cs := n.children;
      forall i | 0 <= i < |cs| ensures InTurn(cs[i], ask) == Yes <==> Fully(cs[i], ask) == Yes {
        NarrowNotsAgree(cs[i], ask);
      }
      SameYes(seq(|cs|, i requires 0 <= i < |cs| => Fully(cs[i], ask)),
              seq(|cs|, i requires 0 <= i < |cs| => InTurn(cs[i], ask)));
    } else if n.Not? {
      NarrowReadsAlike(n.inner, ask);
    }
  }

  lemma SameYes(full: seq<Reading>, turn: seq<Reading>)
    requires |full| == |turn| && forall i :: 0 <= i < |full| ==> (turn[i] == Yes <==> full[i] == Yes)
    ensures AllInTurn(turn) == Yes <==> AllFully(full) == Yes
    ensures AnyReading(turn) == Yes <==> AnyReading(full) == Yes
  {
    AllYes(full);
    if Yes in full {
      var i :| 0 <= i < |full| && full[i] == Yes;
      assert turn[i] == Yes;
    }
  }

  lemma AllYes(rs: seq<Reading>)
    ensures AllFully(rs) == Yes <==> forall i :: 0 <= i < |rs| ==> rs[i] == Yes
  {
    if AllFully(rs) == Yes {
      forall i | 0 <= i < |rs| ensures rs[i] == Yes {
        assert rs[i] in rs;
      }
    }
  }

  /** The modes give different answers exactly when the tree, read fully, errs, and, read with
      each `all` in turn, says yes; so short-circuiting can only turn an error into a match. It
      changes no answer, whatever the leaves say, if no `not` is above an `all` with several
      children. Without `not`, or without erring leaves, both answers are the Boolean reading. */
  lemma ShortCircuit<L(!new)>(n: Node<L>, o: Options<L>)
    ensures var off, on := Evaluate(n, o.(shortCircuit := false)), Evaluate(n, o.(shortCircuit := true));
      && (off.matched != on.matched <==> Fully(n, o.ask) == Wrong && InTurn(n, o.ask) == Yes)
      && (off.matched ==> on.matched)
      && (Fully(n, o.ask) != Wrong ==> on.errors == off.errors == [] && on.matched == off.matched)
      && (NotsAreNarrow(n) ==> on.matched == off.matched)
      && (NotFree(n) || NoLeafErrs(n, o.ask) ==> on.matched == off.matched == Truth(n, o.ask))
  {
    var off, on := o.(shortCircuit := false), o.(shortCircuit := true);
    EvaluateReads(n, off);
    EvaluateReads(n, on);
    ErrorsNeverMatch(n, off);
    ErrorsNeverMatch(n, on);
    InTurnFollows(n, o.ask);
    if NotsAreNarrow(n) {
      NarrowNotsAgree(n, o.ask);
    }
    if NotFree(n) || NoLeafErrs(n, o.ask) {
      MatchesTruth(n, off);
      MatchesTruth(n, on);
    }
  }

  /** A `not` over an `all` whose first child differs and whose second errs: the modes do
      differ, and so do two orders of the same children when short-circuiting. */
  lemma ModesDiffer() returns (n: Node<LeafOutcome>, m: Node<LeafOutcome>, off: Options<LeafOutcome>)
    ensures !off.shortCircuit && Shuffled(n, m)
    ensures !Evaluate(n, off).matched
    ensures Evaluate(n, off.(shortCircuit := true)).matched && !Evaluate(m, off.(shortCircuit := true)).matched
  {
    var a, b := Leaf(Differs), Leaf(Errs("?"));
    n, m := Not(All([a, b])), Not(All([b, a]));
    off := Options((l: LeafOutcome) => l, false, 1);
    var on := off.(shortCircuit := true);
    GroupOfTwo(Verdict(false, 0, []), Verdict(false, 0, ["?"]));
    assert EvaluateEach([a, b], off) == EvaluateEach([a, b], on) == [Verdict(false, 0, []), Verdict(false, 0, ["?"])];
    assert EvaluateEach([b, a], on) == [Verdict(false, 0, ["?"]), Verdict(false, 0, [])];
    assert ShuffledEach([a, b], [a, b]);
    assert multiset([a, b]) == multiset([b, a]);
    assert Shuffled(All([a, b]), All([b, a]));
    assert Shuffled(n, m);
  }

  lemma GroupOfTwo(v: Verdict, w: Verdict)
    requires !v.matched && !w.matched
    ensures AllOf([v, w], true) == Verdict(false, 0, v.errors)
    ensures AllOf([w, v], true) == Verdict(false, 0, w.errors)
    ensures AllOf([v, w], false).errors == v.errors + w.errors
  {
    assert [v, w][1..] == [w];
    assert AllOf([w], false).errors == w.errors;
  }

  // ---------------------------------------------------------------- order of children

  /** `b` is `a` with the children of every group permuted, at any depth. */
  ghost predicate Shuffled<L(!new)>(a: Node<L>, b: Node<L>)
    decreases a
  {
    match a
    case All(cs) => b.All? && exists mid: seq<Node<L>> :: ShuffledEach(cs, mid) && multiset(mid) == multiset(b.children)
    case Any(cs) => b.Any? && exists mid: seq<Node<L>> :: ShuffledEach(cs, mid) && multiset(mid) == multiset(b.children)
    case Not(c) => b.Not? && Shuffled(c, b.inner)
    case Leaf(l) => b == a
  }

  ghost predicate ShuffledEach<L(!new)>(ns: seq<Node<L>>, ms: seq<Node<L>>)
    decreases ns
  {
    |ns| == |ms| && forall i :: 0 <= i < |ns| ==> Shuffled(ns[i], ms[i])
  }

  /** Equal but for the order of the errors. */
  predicate Alike(v: Verdict, w: Verdict) {
    v.matched == w.matched && v.score == w.score && multiset(v.errors) == multiset(w.errors)
  }

  function Group(all: bool, vs: seq<Verdict>): Verdict {
    if all then AllOf(vs, false) else AnyOf(vs, false)
  }

  /** A group's verdict from its first child's verdict and that of the others. */
  function Cons(all: bool, v: Verdict, rest: Verdict): Verdict {
    var matched := if all then Good(v) && rest.matched else Good(v) || rest.matched;
    Verdict(matched, (if Good(v) then v.score else 0) + rest.score,
            if !all && matched then [] else v.errors + rest.errors)
  }

  lemma GroupCons(all: bool, v: Verdict, vs: seq<Verdict>)
    ensures Group(all, [v] + vs) == Cons(all, v, Group(all, vs))
  {
    assert ([v] + vs)[1..] == vs;
  }

  lemma ConsAlike(all: bool, v: Verdict, w: Verdict, a: Verdict, b: Verdict)
    requires Alike(v, w) && Alike(a, b)
    ensures Alike(Cons(all, v, a), Cons(all, w, b))
  {
    AlikeErrors(v, w);
  }

  lemma ConsCommutes(all: bool, v: Verdict, w: Verdict, r: Verdict)
    ensures Alike(Cons(all, v, Cons(all, w, r)), Cons(all, w, Cons(all, v, r)))
  {
  }

  lemma {:induction false} GroupAlike(all: bool, vs: seq<Verdict>, ws: seq<Verdict>)
    requires |vs| == |ws| && forall i :: 0 <= i < |vs| ==> Alike(vs[i], ws[i])
    ensures Alike(Group(all, vs), Group(all, ws))
    decreases vs
  {
    if vs != [] {
      GroupAlike(all, vs[1..], ws[1..]);
      ConsAlike(all, vs[0], ws[0], Group(all, vs[1..]), Group(all, ws[1..]));
    }
  }

  lemma AlikeErrors(v: Verdict, w: Verdict)
    requires Alike(v, w)
    ensures (v.errors == []) == (w.errors == [])
  {
    assert |multiset(v.errors)| == |v.errors|;
    assert |multiset(w.errors)| == |w.errors|;
  }

  function Without<T>(s: seq<T>, j: nat): seq<T>
    requires j < |s|
  {
    s[..j] + s[j + 1..]
  }

  lemma {:induction false} GroupPull(all: bool, vs: seq<Verdict>, j: nat)
    requires j < |vs|
    ensures Alike(Group(all, vs), Group(all, [vs[j]] + Without(vs, j)))
    decreases j
  {
    if j == 0 {
      assert [vs[0]] + Without(vs, 0) == vs;
    } else {
      GroupPull(all, vs[1..], j - 1);
      var rest := Without(vs[1..], j - 1);
      assert Without(vs, j) == [vs[0]] + rest && vs == [vs[0]] + vs[1..];
      GroupCons(all, vs[0], vs[1..]);
      GroupCons(all, vs[j], rest);
      GroupCons(all, vs[j], [vs[0]] + rest);
      GroupCons(all, vs[0], rest);
      ConsAlike(all, vs[0], vs[0], Group(all, vs[1..]), Group(all, [vs[j]] + rest));
      ConsCommutes(all, vs[0], vs[j], Group(all, rest));
    }
  }

  lemma {:induction false} GroupPermuted(all: bool, vs: seq<Verdict>, ws: seq<Verdict>)
    requires multiset(vs) == multiset(ws)
    ensures Alike(Group(all, vs), Group(all, ws))
    decreases vs
  {
    if vs == [] {
      assert |multiset(ws)| == 0;
    } else {
      var j := Find(vs, ws);
      GroupPull(all, ws, j);
      GroupPermuted(all, vs[1..], Without(ws, j));
      GroupCons(all, ws[j], Without(ws, j));
      ConsAlike(all, vs[0], vs[0], Group(all, vs[1..]), Group(all, Without(ws, j)));
    }
  }

  lemma Pulled<T>(t: seq<T>, j: nat)
    requires j < |t|
    ensures multiset(t) == multiset{t[j]} + multiset(Without(t, j))
    ensures multiset(Without(t, j)) == multiset(t) - multiset{t[j]}
  {
    assert t == t[..j] + [t[j]] + t[j + 1..];
  }

  /** Where the first element of one list sits in a permutation of it. */
  lemma Find<T>(s: seq<T>, t: seq<T>) returns (j: nat)
    requires s != [] && multiset(s) == multiset(t)
    ensures j < |t| && t[j] == s[0] && multiset(s[1..]) == multiset(Without(t, j))
  {
    assert s[0] in multiset(s);
    assert s[0] in t;
    j :| 0 <= j < |t| && t[j] == s[0];
    Pulled(s, 0);
    assert Without(s, 0) == s[1..];
    Pulled(t, j);
  }

  lemma {:induction false} EachPermuted<L>(ns: seq<Node<L>>, ms: seq<Node<L>>, o: Options<L>)
    requires multiset(ns) == multiset(ms)
    ensures multiset(EvaluateEach(ns, o)) == multiset(EvaluateEach(ms, o))
    decreases ns
  {
    if ns == [] {
      assert |multiset(ms)| == |ms| == 0;
    } else {
      var j := Find(ns, ms);
      EachPermuted(ns[1..], Without(ms, j), o);
      var vs, ws := EvaluateEach(ns, o), EvaluateEach(ms, o);
      assert vs[0] == ws[j];
      assert EvaluateEach(Without(ms, j), o) == Without(ws, j);
      Pulled(ws, j);
      Pulled(vs, 0);
      assert Without(vs, 0) == EvaluateEach(ns[1..], o);
    }
  }

  /** Without short-circuiting the order of children never matters. */
  lemma {:induction false} OrderIrrelevant<L(!new)>(a: Node<L>, b: Node<L>, o: Options<L>)
    requires Shuffled(a, b) && !o.shortCircuit
    ensures Alike(Evaluate(a, o), Evaluate(b, o))
    ensures (Evaluate(a, o).errors == []) == (Evaluate(b, o).errors == [])
    decreases a
  {
    if a.All? || a.Any? {
      var mid: seq<Node<L>> :| ShuffledEach(a.children, mid) && multiset(mid) == multiset(b.children);
      forall i | 0 <= i < |mid| ensures Alike(Evaluate(a.children[i], o), Evaluate(mid[i], o)) {
        OrderIrrelevant(a.children[i], mid[i], o);
      }
      GroupAlike(a.All?, EvaluateEach(a.children, o), EvaluateEach(mid, o));
      EachPermuted(mid, b.children, o);
      GroupPermuted(a.All?, EvaluateEach(mid, o), EvaluateEach(b.children, o));
    } else if a.Not? {
      OrderIrrelevant(a.inner, b.inner, o);
    }
    AlikeErrors(Evaluate(a, o), Evaluate(b, o));
  }
}
