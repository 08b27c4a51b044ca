/** The condition evaluator: trees of `all`, `any` and `not` over leaves that match, differ
    or raise an error, with short-circuiting on or off. Leaf operators are abstract. */
module Rules {
  datatype Node<L> = All(children: seq<Node<L>>) | Any(children: seq<Node<L>>) | Not(inner: Node<L>) | Leaf(leaf: L)

  datatype LeafOutcome = Matches | Differs | Errs(message: string)

  datatype Verdict = Verdict(matched: bool, score: int, errors: seq<string>)

  /** How to evaluate: the leaves' answers, the flag and the score of a match. */
  datatype Options<!L> = Options(ask: L -> LeafOutcome, shortCircuit: bool, matchScore: int)

  predicate Good(v: Verdict) {
    v.matched && v.errors == []
  }

  // ---------------------------------------------------------------- specification

  function LeafVerdict(o: LeafOutcome, matchScore: int): Verdict {
    match o
    case Matches => Verdict(true, matchScore, [])
    case Differs => Verdict(false, 0, [])
    case Errs(m) => Verdict(false, 0, [m])
  }

  /** Verdict of an `all` group over the verdicts of its children. */
  function AllOf(vs: seq<Verdict>, shortCircuit: bool): Verdict {
    if vs == [] then Verdict(true, 0, [])
    else if !Good(vs[0]) && shortCircuit then Verdict(false, 0, vs[0].errors) else
      var rest := AllOf(vs[1..], shortCircuit);
      Verdict(Good(vs[0]) && rest.matched,
              (if Good(vs[0]) then vs[0].score else 0) + rest.score,
              vs[0].errors + rest.errors)
  }

  /** Verdict of an `any` group: a match discards the errors of the other children. */
  function AnyOf(vs: seq<Verdict>, shortCircuit: bool): Verdict {
    if vs == [] then Verdict(false, 0, [])
    else if Good(vs[0]) && shortCircuit then Verdict(true, vs[0].score, []) else
      var rest := AnyOf(vs[1..], shortCircuit);
      var matched := Good(vs[0]) || rest.matched;
      Verdict(matched,
              (if Good(vs[0]) then vs[0].score else 0) + rest.score,
              if matched then [] else vs[0].errors + rest.errors)
  }

  function Evaluate<L>(n: Node<L>, o: Options<L>): Verdict
    decreases n, 1
  {
    match n
    case All(cs) => AllOf(EvaluateEach(cs, o), o.shortCircuit)
    case Any(cs) => AnyOf(EvaluateEach(cs, o), o.shortCircuit)
    case Not(c) =>
      var v := Evaluate(c, o);
      var matched := v.errors == [] && !v.matched;
      Verdict(matched, if matched then o.matchScore else 0, v.errors)
    case Leaf(l) => LeafVerdict(o.ask(l), o.matchScore)
  }

  function EvaluateEach<L>(ns: seq<Node<L>>, o: Options<L>): (vs: seq<Verdict>)
    ensures |vs| == |ns| && forall i :: 0 <= i < |ns| ==> vs[i] == Evaluate(ns[i], o)
    decreases ns, 0
  {
    if ns == [] then [] else [Evaluate(ns[0], o)] + EvaluateEach(ns[1..], o)
  }

  // ---------------------------------------------------------------- the evaluator

  method EvaluateNode<L>(n: Node<L>, o: Options<L>) returns (v: Verdict)
    ensures v == Evaluate(n, o)
    decreases n, 1
  {
    match n {
      case All(cs) =>
        v := EvaluateGroup(true, cs, o);
        FinishAll(Tally(0, [], 0, false), EvaluateEach(cs, o), o.shortCircuit);
      case Any(cs) =>
        v := EvaluateGroup(false, cs, o);
        FinishAny(Tally(0, [], 0, false), EvaluateEach(cs, o), o.shortCircuit);
      case Not(c) =>
        var inner := EvaluateNode(c, o);
        var matched := inner.errors == [] && !inner.matched;
        v := Verdict(matched, if matched then o.matchScore else 0, inner.errors);
      case Leaf(l) =>
        v := LeafVerdict(o.ask(l), o.matchScore);
    }
  }

  /** Accumulators of the group loop. */
  datatype Tally = Tally(score: int, errors: seq<string>, matchedCount: nat, failed: bool)

  datatype Control = Return(verdict: Verdict) | Continue(tally: Tally)

  /** One turn of the group loop. */
  function Turn(all: bool, t: Tally, r: Verdict, shortCircuit: bool): Control {
    var u := t.(errors := t.errors + r.errors);
    if Good(r) then
      var w := u.(score := u.score + r.score, matchedCount := u.matchedCount + 1);
      if !all && shortCircuit then Return(Verdict(true, w.score, [])) else Continue(w)
    else if all && shortCircuit then Return(Verdict(false, u.score, u.errors))
    else Continue(u.(failed := u.failed || all))
  }

  /** What the group loop returns when it still has the children with verdicts `vs` to go. */
  function Finish(all: bool, t: Tally, vs: seq<Verdict>, shortCircuit: bool): Verdict
    decreases vs
  {
    if vs == [] then
      if all then Verdict(!t.failed && t.errors == [], t.score, t.errors)
      else Verdict(t.matchedCount > 0, t.score, if t.matchedCount > 0 then [] else t.errors)
    else
      match Turn(all, t, vs[0], shortCircuit)
      case Return(v) => v
      case Continue(u) => Finish(all, u, vs[1..], shortCircuit)
  }

  lemma FinishTurn(all: bool, t: Tally, vs: seq<Verdict>, i: nat, shortCircuit: bool)
    requires i < |vs|
    ensures Finish(all, t, vs[i..], shortCircuit) ==
      match Turn(all, t, vs[i], shortCircuit)
      case Return(v) => v
      case Continue(u) => Finish(all, u, vs[i + 1..], shortCircuit)
  {
    assert vs[i..][0] == vs[i] && vs[i..][1..] == vs[i + 1..];
  }

  lemma {:induction false} FinishAll(t: Tally, vs: seq<Verdict>, shortCircuit: bool)
    requires (t.errors != [] ==> t.failed) && (t.failed ==> !shortCircuit)
    ensures var rest := AllOf(vs, shortCircuit);
      Finish(true, t, vs, shortCircuit) == Verdict(!t.failed && rest.matched, t.score + rest.score, t.errors + rest.errors)
    decreases vs
  {
    if vs != [] {
      var u := t.(errors := t.errors + vs[0].errors);
      if Good(vs[0]) {
        FinishAll(u.(score := u.score + vs[0].score, matchedCount := u.matchedCount + 1), vs[1..], shortCircuit);
      } else if !shortCircuit {
        FinishAll(u.(failed := true), vs[1..], shortCircuit);
      }
    }
  }

  lemma {:induction false} FinishAny(t: Tally, vs: seq<Verdict>, shortCircuit: bool)
    ensures var rest := AnyOf(vs, shortCircuit); var matched := t.matchedCount > 0 || rest.matched;
      Finish(false, t, vs, shortCircuit) ==
      Verdict(matched, t.score + rest.score, if matched then [] else t.errors + rest.errors)
    decreases vs
  {
    if vs != [] {
      var u := t.(errors := t.errors + vs[0].errors);
      FinishAny(if Good(vs[0]) then u.(score := u.score + vs[0].score, matchedCount := u.matchedCount + 1) else u,
                vs[1..], shortCircuit);
    }
  }

  /** The group loop with its accumulators. */
  method EvaluateGroup<L>(all: bool, children: seq<Node<L>>, o: Options<L>) returns (v: Verdict)
    ensures v == Finish(all, Tally(0, [], 0, false), EvaluateEach(children, o), o.shortCircuit)
    decreases children, 0
  {
    if |children| == 0 {
      return Verdict(all, 0, []);
    }
    var score, errors, matchedCount: nat, failed := 0, [], 0, false;
    ghost var vs, start := EvaluateEach(children, o), Tally(0, [], 0, false);
    for i := 0 to |children|
      invariant Finish(all, Tally(score, errors, matchedCount, failed), vs[i..], o.shortCircuit)
             == Finish(all, start, vs, o.shortCircuit)
    {
      var r := EvaluateNode(children[i], o);
      ghost var t := Tally(score, errors, matchedCount, failed);
      ghost var turn := Turn(all, t, r, o.shortCircuit);
      FinishTurn(all, t, vs, i, o.shortCircuit);
      if |r.errors| != 0 {
        errors := errors + r.errors;
      }
      assert errors == t.errors + r.errors;
      if all {
        if |r.errors| != 0 || !r.matched {
          failed := true;
          if o.shortCircuit {
            return Verdict(false, score, errors);
          }
        } else {
          score := score + r.score;
          matchedCount := matchedCount + 1;
        }
      } else if r.matched && |r.errors| == 0 {
        matchedCount := matchedCount + 1;
        score := score + r.score;
        if o.shortCircuit {
          return Verdict(true, score, []);
        }
      }
      assert turn == Continue(Tally(score, errors, matchedCount, failed));
    }
    if all {
      return Verdict(!failed && errors == [], score, errors);
    }
    return Verdict(matchedCount > 0, score, if matchedCount > 0 then [] else errors);
  }
}
