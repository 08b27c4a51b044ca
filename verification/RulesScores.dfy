/** Score and errors of an evaluation, told by the leaves and by which children are looked at. */
module RulesScores {
  import opened Rules
  import opened RulesLaws

  /** How many children are looked at: all of them or, when short-circuiting, none after the
      first that settles the group. */
  function Seen(all: bool, rs: seq<Reading>, shortCircuit: bool): (k: nat)
    ensures k <= |rs|
    ensures !shortCircuit ==> k == |rs|
    ensures shortCircuit ==> forall i :: 0 <= i < k - 1 ==> (rs[i] == Yes <==> all)
    ensures shortCircuit && k < |rs| ==> k > 0 && (rs[k - 1] == Yes <==> !all)
  {
    if rs == [] then 0
    else if shortCircuit && (rs[0] == Yes <==> !all) then 1
    else 1 + Seen(all, rs[1..], shortCircuit)
  }

  /** Sum of the scores of the children that say yes. */
  function SumYes(rs: seq<Reading>, scores: seq<int>): int
    requires |rs| == |scores|
  {
    if rs == [] then 0 else (if rs[0] == Yes then scores[0] else 0) + SumYes(rs[1..], scores[1..])
  }

  function Flatten(lists: seq<seq<string>>): seq<string> {
    if lists == [] then [] else lists[0] + Flatten(lists[1..])
  }

  function ReadingOf<L(!new)>(n: Node<L>, o: Options<L>): Reading {
    if o.shortCircuit then InTurn(n, o.ask) else Fully(n, o.ask)
  }

  function ReadEach<L(!new)>(cs: seq<Node<L>>, o: Options<L>): (rs: seq<Reading>)
    ensures |rs| == |cs| && forall i :: 0 <= i < |cs| ==> rs[i] == ReadingOf(cs[i], o)
  {
    seq(|cs|, i requires 0 <= i < |cs| => ReadingOf(cs[i], o))
  }

  /** A match scores; a group scores what its children that were looked at and said yes score. */
  function Points<L(!new)>(n: Node<L>, o: Options<L>): int {
    match n
    case All(cs) =>
      var k := Seen(true, ReadEach(cs, o), o.shortCircuit);
      SumYes(ReadEach(cs, o)[..k], seq(k, i requires 0 <= i < k => Points(cs[i], o)))
    case Any(cs) =>
      var k := Seen(false, ReadEach(cs, o), o.shortCircuit);
      SumYes(ReadEach(cs, o)[..k], seq(k, i requires 0 <= i < k => Points(cs[i], o)))
    case Not(_) => if ReadingOf(n, o) == Yes then o.matchScore else 0
    case Leaf(l) => if o.ask(l) == Matches then o.matchScore else 0
  }

  /** The errors of the children looked at, in order; an `any` that says yes drops them. */
  function Complaints<L(!new)>(n: Node<L>, o: Options<L>): seq<string> {
    match n
    case All(cs) =>
      var k := Seen(true, ReadEach(cs, o), o.shortCircuit);
      Flatten(seq(k, i requires 0 <= i < k => Complaints(cs[i], o)))
    case Any(cs) =>
      if ReadingOf(n, o) == Yes then [] else Flatten(seq(|cs|, i requires 0 <= i < |cs| => Complaints(cs[i], o)))
    case Not(c) => Complaints(c, o)
    case Leaf(l) => if o.ask(l).Errs? then [o.ask(l).message] else []
  }

  // ---------------------------------------------------------------- groups

  function Scores(vs: seq<Verdict>): (r: seq<int>)
    ensures |r| == |vs| && forall i :: 0 <= i < |vs| ==> r[i] == vs[i].score
  {
    seq(|vs|, i requires 0 <= i < |vs| => vs[i].score)
  }

  function Errors(vs: seq<Verdict>): (r: seq<seq<string>>)
    ensures |r| == |vs| && forall i :: 0 <= i < |vs| ==> r[i] == vs[i].errors
  {
    seq(|vs|, i requires 0 <= i < |vs| => vs[i].errors)
  }

  lemma TakeRest<T>(s: seq<T>, k: nat)
    requires 0 < k <= |s|
    ensures s[..k] == [s[0]] + s[1..][..k - 1] && s[..k][1..] == s[1..][..k - 1]
  {
  }

  /** The parts of a group's lists after its first child. */
  lemma Rests(vs: seq<Verdict>)
    requires vs != []
    ensures SaidEach(vs)[1..] == SaidEach(vs[1..]) && Scores(vs)[1..] == Scores(vs[1..]) && Errors(vs)[1..] == Errors(vs[1..])
  {
  }

  lemma {:induction false} GroupScores(all: bool, vs: seq<Verdict>, shortCircuit: bool)
    ensures var k := Seen(all, SaidEach(vs), shortCircuit);
      (if all then AllOf(vs, shortCircuit) else AnyOf(vs, shortCircuit)).score == SumYes(SaidEach(vs)[..k], Scores(vs)[..k])
  {
    if vs != [] {
      GroupScores(all, vs[1..], shortCircuit);
      Rests(vs);
      var k := Seen(all, SaidEach(vs), shortCircuit);
      TakeRest(SaidEach(vs), k);
      TakeRest(Scores(vs), k);
    }
  }

  lemma {:induction false} AllErrors(vs: seq<Verdict>, shortCircuit: bool)
    ensures var k := Seen(true, SaidEach(vs), shortCircuit);
      AllOf(vs, shortCircuit).errors == Flatten(Errors(vs)[..k])
  {
    if vs != [] {
      AllErrors(vs[1..], shortCircuit);
      Rests(vs);
      var k := Seen(true, SaidEach(vs), shortCircuit);
      TakeRest(Errors(vs), k);
      if k == 1 {
        assert Errors(vs)[..1][1..] == [];
      }
    }
  }

  lemma {:induction false} AnyErrors(vs: seq<Verdict>, shortCircuit: bool)
    ensures AnyOf(vs, shortCircuit).errors == if AnyOf(vs, shortCircuit).matched then [] else Flatten(Errors(vs))
  {
    if vs != [] {
      AnyErrors(vs[1..], shortCircuit);
      Rests(vs);
    }
  }

  // ---------------------------------------------------------------- trees

  /** The children's verdicts are what the leaves say. */
  ghost predicate Told<L(!new)>(cs: seq<Node<L>>, o: Options<L>, vs: seq<Verdict>) {
    |vs| == |cs| && forall i :: 0 <= i < |cs| ==>
      vs[i].score == Points(cs[i], o) && vs[i].errors == Complaints(cs[i], o) && Said(vs[i]) == ReadingOf(cs[i], o)
  }

  lemma AllTold<L(!new)>(cs: seq<Node<L>>, o: Options<L>, vs: seq<Verdict>)
    requires Told(cs, o, vs)
    ensures var v := AllOf(vs, o.shortCircuit);
      v.score == Points(All(cs), o) && v.errors == Complaints(All(cs), o)
  {
    assert SaidEach(vs) == ReadEach(cs, o);
    var k := Seen(true, ReadEach(cs, o), o.shortCircuit);
    GroupScores(true, vs, o.shortCircuit);
    AllErrors(vs, o.shortCircuit);
    assert Scores(vs)[..k] == seq(k, i requires 0 <= i < k => Points(cs[i], o));
    assert Errors(vs)[..k] == seq(k, i requires 0 <= i < k => Complaints(cs[i], o));
  }

  lemma AnyTold<L(!new)>(cs: seq<Node<L>>, o: Options<L>, vs: seq<Verdict>)
    requires Told(cs, o, vs) && (AnyOf(vs, o.shortCircuit).matched <==> ReadingOf(Any(cs), o) == Yes)
    ensures var v := AnyOf(vs, o.shortCircuit);
      v.score == Points(Any(cs), o) && v.errors == Complaints(Any(cs), o)
  {
    assert SaidEach(vs) == ReadEach(cs, o);
    var k := Seen(false, ReadEach(cs, o), o.shortCircuit);
    GroupScores(false, vs, o.shortCircuit);
    AnyErrors(vs, o.shortCircuit);
    assert Scores(vs)[..k] == seq(k, i requires 0 <= i < k => Points(cs[i], o));
    assert Errors(vs) == seq(|cs|, i requires 0 <= i < |cs| => Complaints(cs[i], o));
  }

  lemma Reads<L(!new)>(n: Node<L>, o: Options<L>)
    ensures Said(Evaluate(n, o)) == ReadingOf(n, o)
    ensures Evaluate(n, o).matched <==> ReadingOf(n, o) == Yes
  {
    EvaluateReads(n, o);
    ErrorsNeverMatch(n, o);
  }

  /** Evaluation gives the reading of the tree, its points and its complaints. */
  lemma {:induction false} EvaluateIs<L(!new)>(n: Node<L>, o: Options<L>)
    ensures Evaluate(n, o) == Verdict(ReadingOf(n, o) == Yes, Points(n, o), Complaints(n, o))
  {
    Reads(n, o);
    if n.All? || n.Any? {
      var cs, vs := n.children, EvaluateEach(n.children, o);
      forall i | 0 <= i < |cs|
        ensures vs[i].score == Points(cs[i], o) && vs[i].errors == Complaints(cs[i], o) && Said(vs[i]) == ReadingOf(cs[i], o)
      {
        EvaluateIs(cs[i], o);
        Reads(cs[i], o);
      }
      if n.All? {
        AllTold(cs, o, vs);
      } else {
        AnyTold(cs, o, vs);
      }
    } else if n.Not? {
      EvaluateIs(n.inner, o);
      Reads(n.inner, o);
    }
  }
}
