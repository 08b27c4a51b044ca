/** Refresh tokens with rotation and reuse detection. A token is known by its index in the
    table, which stands for its secret; a family is known by the index of its first token.
    Operations do not overlap. */
module RefreshTokens {
  import opened Totals

  datatype Status = Active | Rotated | Revoked | Expired

  datatype Token = Token(user: nat, family: nat, status: Status, expiresAt: int, replacedBy: Option<nat>)

  type Tokens = seq<Token>

  datatype Outcome = Issued | Invalid | Reused | TooOld | Denied

  // ---------------------------------------------------------------- specification

  function Opened(ts: Tokens, user: nat, expiresAt: int): Tokens {
    ts + [Token(user, |ts|, Active, expiresAt, None)]
  }

  function RevokedIf(ts: Tokens, which: Token -> bool): (r: Tokens)
    ensures |r| == |ts|
    ensures forall i :: 0 <= i < |ts| ==>
      r[i] == if ts[i].status == Active && which(ts[i]) then ts[i].(status := Revoked) else ts[i]
  {
    seq(|ts|, i requires 0 <= i < |ts| =>
      if ts[i].status == Active && which(ts[i]) then ts[i].(status := Revoked) else ts[i])
  }

  function FamilyRevoked(ts: Tokens, family: nat): (r: Tokens)
    ensures |r| == |ts|
    ensures forall i :: 0 <= i < |ts| ==>
      r[i] == if ts[i].status == Active && ts[i].family == family then ts[i].(status := Revoked) else ts[i]
  {
    RevokedIf(ts, (t: Token) => t.family == family)
  }

  function UserRevoked(ts: Tokens, user: nat): (r: Tokens)
    ensures |r| == |ts|
    ensures forall i :: 0 <= i < |ts| ==>
      r[i] == if ts[i].status == Active && ts[i].user == user then ts[i].(status := Revoked) else ts[i]
  {
    RevokedIf(ts, (t: Token) => t.user == user)
  }

  /** A successor for token `id`. */
  function Successor(ts: Tokens, id: nat, expiresAt: int): Tokens
    requires id < |ts|
  {
    (ts + [Token(ts[id].user, ts[id].family, Active, expiresAt, None)])
    [id := ts[id].(status := Rotated, replacedBy := Some(|ts|))]
  }

  /** Presenting a token for a new one; `None` is a secret that is not on record. */
  function Refreshed(ts: Tokens, id: Option<nat>, userOk: bool, now: int, expiresAt: int): (Tokens, Outcome) {
    if id.None? || id.value >= |ts| then (ts, Invalid) else
      var t := ts[id.value];
      if t.status == Rotated || t.status == Revoked then (FamilyRevoked(ts, t.family), Reused)
      else if t.status != Active || t.expiresAt <= now then (ts, TooOld)
      else if !userOk then (ts, Denied)
      else (Successor(ts, id.value, expiresAt), Issued)
  }

  function LoggedOut(ts: Tokens, user: nat, id: Option<nat>): Tokens {
    if id.Some? && id.value < |ts| && ts[id.value].user == user then ts[id.value := ts[id.value].(status := Revoked)] else ts
  }

  // ---------------------------------------------------------------- the table

  class RefreshTokenRepository {
    var tokens: Tokens

    constructor ()
      ensures tokens == []
    {
      tokens := [];
    }

    method Create(user: nat, family: nat, expiresAt: int) returns (id: nat)
      modifies this
      ensures id == |old(tokens)| && tokens == old(tokens) + [Token(user, family, Active, expiresAt, None)]
    {
      id := |tokens|;
      tokens := tokens + [Token(user, family, Active, expiresAt, None)];
    }

    method Revoke(id: nat)
      requires id < |tokens|
      modifies this
      ensures tokens == old(tokens)[id := old(tokens)[id].(status := Revoked)]
    {
      tokens := tokens[id := tokens[id].(status := Revoked)];
    }

    method Rotate(id: nat, replacedBy: nat)
      requires id < |tokens|
      modifies this
      ensures tokens == old(tokens)[id := old(tokens)[id].(status := Rotated, replacedBy := Some(replacedBy))]
    {
      tokens := tokens[id := tokens[id].(status := Rotated, replacedBy := Some(replacedBy))];
    }

    method RevokeFamily(family: nat)
      modifies this
      ensures tokens == FamilyRevoked(old(tokens), family)
    {
      RevokeWhere((t: Token) => t.family == family);
    }

    method RevokeAllForUser(user: nat)
      modifies this
      ensures tokens == UserRevoked(old(tokens), user)
    {
      RevokeWhere((t: Token) => t.user == user);
    }

    /** Bulk update of the active tokens that satisfy a condition. */
    method RevokeWhere(which: Token -> bool)
      modifies this
      ensures tokens == RevokedIf(old(tokens), which)
    {
      for i := 0 to |tokens|
        invariant |tokens| == |old(tokens)|
        invariant forall k :: 0 <= k < i ==> tokens[k] == RevokedIf(old(tokens), which)[k]
        invariant forall k :: i <= k < |tokens| ==> tokens[k] == old(tokens)[k]
      {
        if tokens[i].status == Active && which(tokens[i]) {
          tokens := tokens[i := tokens[i].(status := Revoked)];
        }
      }
    }
  }

  // ---------------------------------------------------------------- the service

  class AuthService {
    const repository: RefreshTokenRepository

    constructor (repository: RefreshTokenRepository)
      ensures this.repository == repository
    {
      this.repository := repository;
    }

    /** A login starts a family of its own. */
    method CreateRefreshPair(user: nat, expiresAt: int) returns (id: nat)
      modifies repository
      ensures id == |old(repository.tokens)| && repository.tokens == Opened(old(repository.tokens), user, expiresAt)
    {
      id := repository.Create(user, |repository.tokens|, expiresAt);
    }

    method Refresh(presented: Option<nat>, userOk: bool, now: int, expiresAt: int) returns (outcome: Outcome)
      modifies repository
      ensures (repository.tokens, outcome) == Refreshed(old(repository.tokens), presented, userOk, now, expiresAt)
    {
      if presented.None? || presented.value >= |repository.tokens| {
        return Invalid;
      }
      var id := presented.value;
      var stored := repository.tokens[id];
      if stored.status == Rotated || stored.status == Revoked {
        repository.RevokeFamily(stored.family);
        return Reused;
      }
      if stored.status != Active || stored.expiresAt <= now {
        return TooOld;
      }
      if !userOk {
        return Denied;
      }
      var newId := repository.Create(stored.user, stored.family, expiresAt);
      repository.Rotate(id, newId);
      return Issued;
    }

    method Logout(user: nat, presented: Option<nat>)
      modifies repository
      ensures repository.tokens == LoggedOut(old(repository.tokens), user, presented)
    {
      if presented.Some? && presented.value < |repository.tokens| {
        if repository.tokens[presented.value].user == user {
          repository.Revoke(presented.value);
        }
      }
    }

    /** `verified` tells whether the current password was right and the new one strong enough. */
    method ChangePassword(user: nat, verified: bool)
      modifies repository
      ensures repository.tokens == if verified then UserRevoked(old(repository.tokens), user) else old(repository.tokens)
    {
      if verified {
        repository.RevokeAllForUser(user);
      }
    }
  }

  // ---------------------------------------------------------------- runs

  datatype Op =
    | Login(user: nat, expiresAt: int)
    | Refresh(presented: Option<nat>, userOk: bool, now: int, expiresAt: int)
    | Logout(user: nat, presented: Option<nat>)
    | ChangePassword(user: nat, verified: bool)

  function Step(ts: Tokens, op: Op): Tokens {
    match op
    case Login(user, expiresAt) => Opened(ts, user, expiresAt)
    case Refresh(presented, userOk, now, expiresAt) => Refreshed(ts, presented, userOk, now, expiresAt).0
    case Logout(user, presented) => LoggedOut(ts, user, presented)
    case ChangePassword(user, verified) => if verified then UserRevoked(ts, user) else ts
  }

  function Run(ts: Tokens, ops: seq<Op>): Tokens
    decreases ops
  {
    if ops == [] then ts else Run(Step(ts, ops[0]), ops[1..])
  }

  // ---------------------------------------------------------------- invariant

  /** Token `j` is the next one issued in the family of token `i`. */
  predicate Follows(ts: Tokens, i: nat, j: nat) {
    i < j < |ts| && ts[j].family == ts[i].family && forall k :: i < k < j ==> ts[k].family != ts[i].family
  }

  predicate Newest(ts: Tokens, i: nat) {
    i < |ts| && forall k :: i < k < |ts| ==> ts[k].family != ts[i].family
  }

  predicate Linked(ts: Tokens, i: nat)
    requires i < |ts|
  {
    && ts[i].family <= i && ts[ts[i].family].family == ts[i].family && ts[ts[i].family].user == ts[i].user
    && (if ts[i].replacedBy.None? then Newest(ts, i) else Follows(ts, i, ts[i].replacedBy.value))
    && (ts[i].status == Active ==> ts[i].replacedBy.None?)
    && (ts[i].status == Rotated ==> ts[i].replacedBy.Some?)
  }

  predicate Inv(ts: Tokens) {
    forall i :: 0 <= i < |ts| ==> Linked(ts, i)
  }

  /** Same table but for statuses that became revoked. */
  predicate OnlyRevokes(ts: Tokens, us: Tokens) {
    |us| == |ts| && forall i :: 0 <= i < |ts| ==> us[i] == ts[i] || us[i] == ts[i].(status := Revoked)
  }

  lemma RevokesKeep(ts: Tokens, us: Tokens)
    requires Inv(ts) && OnlyRevokes(ts, us)
    ensures Inv(us)
  {
    forall i | 0 <= i < |us| ensures Linked(us, i) {
      assert Linked(ts, i);
    }
  }

  lemma OpenedKeeps(ts: Tokens, user: nat, expiresAt: int)
    requires Inv(ts)
    ensures Inv(Opened(ts, user, expiresAt))
  {
    var us := Opened(ts, user, expiresAt);
    forall i | 0 <= i < |us| ensures Linked(us, i) {
      assert i < |ts| ==> Linked(ts, i);
    }
  }

  lemma SuccessorKeeps(ts: Tokens, id: nat, expiresAt: int)
    requires Inv(ts) && id < |ts| && ts[id].status == Active
    ensures Inv(Successor(ts, id, expiresAt))
  {
    var us := Successor(ts, id, expiresAt);
    assert Linked(ts, id);
    forall i | 0 <= i < |us| ensures Linked(us, i) {
      if i < |ts| {
        assert Linked(ts, i);
        if i != id && ts[i].family == ts[id].family {
          assert ts[i].replacedBy.Some?;
        }
      }
    }
  }

  lemma StepKeeps(ts: Tokens, op: Op)
    requires Inv(ts)
    ensures Inv(Step(ts, op))
  {
    var us := Step(ts, op);
    match op
    case Login(user, expiresAt) => OpenedKeeps(ts, user, expiresAt);
    case Refresh(presented, userOk, now, expiresAt) =>
      if Refreshed(ts, presented, userOk, now, expiresAt).1 == Issued {
        SuccessorKeeps(ts, presented.value, expiresAt);
      } else {
        RevokesKeep(ts, us);
      }
    case Logout(_, _) => RevokesKeep(ts, us);
    case ChangePassword(_, _) => RevokesKeep(ts, us);
  }

  lemma {:induction false} RunKeeps(ts: Tokens, ops: seq<Op>)
    requires Inv(ts)
    ensures Inv(Run(ts, ops))
    decreases ops
  {
    if ops != [] {
      StepKeeps(ts, ops[0]);
      RunKeeps(Step(ts, ops[0]), ops[1..]);
    }
  }

  // ---------------------------------------------------------------- what runs guarantee

  predicate Dead(ts: Tokens, family: nat) {
    forall i :: 0 <= i < |ts| && ts[i].family == family ==> ts[i].status != Active
  }

  /** Tokens reached from `i` by following `n` replacement links. */
  function Follow(ts: Tokens, i: nat, n: nat): Option<nat>
    decreases n
  {
    if n == 0 then Some(i)
    else if i >= |ts| || ts[i].replacedBy.None? then None
    else Follow(ts, ts[i].replacedBy.value, n - 1)
  }

  /** Links reach every later token of the family. */
  lemma {:induction false} ChainReaches(ts: Tokens, i: nat, j: nat) returns (n: nat)
    requires Inv(ts) && i <= j < |ts| && ts[i].family == ts[j].family
    ensures Follow(ts, i, n) == Some(j)
    decreases j - i
  {
    if i == j {
      n := 0;
    } else {
      assert Linked(ts, i);
      var m := ChainReaches(ts, ts[i].replacedBy.value, j);
      n := m + 1;
    }
  }

  /** Links stay in the family and only go forward, so they never return. */
  lemma {:induction false} ChainForward(ts: Tokens, i: nat, n: nat)
    requires Inv(ts) && i < |ts| && Follow(ts, i, n).Some?
    ensures var j := Follow(ts, i, n).value; i + n <= j < |ts| && ts[j].family == ts[i].family
    decreases n
  {
    if n > 0 {
      assert Linked(ts, i);
      ChainForward(ts, ts[i].replacedBy.value, n - 1);
    }
  }

  /** After every run, of any two tokens of a family: same owner, and not both active. */
  lemma OneActive(ops: seq<Op>, i: nat, j: nat)
    requires i < |Run([], ops)| && j < |Run([], ops)| && Run([], ops)[i].family == Run([], ops)[j].family
    ensures var ts := Run([], ops);
      ts[i].user == ts[j].user && (ts[i].status == Active && ts[j].status == Active ==> i == j)
  {
    RunKeeps([], ops);
    var ts := Run([], ops);
    assert Linked(ts, i) && Linked(ts, j);
  }

  /** After every run, of every token: the links lead to it from its family's first token and
      end with the newest, they never return, and only the newest can be active. */
  lemma OneChain(ops: seq<Op>, i: nat)
    requires i < |Run([], ops)|
    ensures var ts := Run([], ops);
      && (exists n: nat :: Follow(ts, ts[i].family, n) == Some(i))
      && (forall n: nat :: n > 0 ==> Follow(ts, i, n) != Some(i))
      && (ts[i].replacedBy.None? <==> Newest(ts, i))
      && (ts[i].status == Active ==> Newest(ts, i))
  {
    RunKeeps([], ops);
    var ts := Run([], ops);
    assert Linked(ts, i);
    var m := ChainReaches(ts, ts[i].family, i);
    forall n: nat | n > 0 ensures Follow(ts, i, n) != Some(i) {
      if Follow(ts, i, n).Some? {
        ChainForward(ts, i, n);
      }
    }
  }

  /** Presenting a rotated or revoked token leaves its family without an active one. */
  lemma ReuseKillsFamily(ts: Tokens, id: nat, userOk: bool, now: int, expiresAt: int)
    requires id < |ts| && (ts[id].status == Rotated || ts[id].status == Revoked)
    ensures var r := Refreshed(ts, Some(id), userOk, now, expiresAt);
      && r.1 == Reused && Dead(r.0, ts[id].family) && |r.0| == |ts|
      && forall i :: 0 <= i < |ts| ==>
           r.0[i] == if ts[i].family == ts[id].family && ts[i].status == Active then ts[i].(status := Revoked) else ts[i]
  {
  }

  /** A token is exchanged exactly when it is its family's active one, unexpired, and its
      user may sign in; then the successor is the family's only active token. */
  lemma RefreshLaw(ts: Tokens, id: nat, userOk: bool, now: int, expiresAt: int)
    requires Inv(ts) && id < |ts|
    ensures var r := Refreshed(ts, Some(id), userOk, now, expiresAt);
      && (r.1 == Issued <==> ts[id].status == Active && now < ts[id].expiresAt && userOk)
      && (r.1 == Reused <==> ts[id].status == Rotated || ts[id].status == Revoked)
      && (r.1 == TooOld <==> ts[id].status == Expired || (ts[id].status == Active && ts[id].expiresAt <= now))
      && (r.1 == Denied <==> ts[id].status == Active && now < ts[id].expiresAt && !userOk)
      && (r.1 == TooOld || r.1 == Denied ==> r.0 == ts)
      && (r.1 == Issued ==>
            && |r.0| == |ts| + 1 && r.0[|ts|] == Token(ts[id].user, ts[id].family, Active, expiresAt, None)
            && r.0[id] == ts[id].(status := Rotated, replacedBy := Some(|ts|))
            && (forall i :: 0 <= i < |ts| && i != id ==> r.0[i] == ts[i])
            && forall i :: 0 <= i < |r.0| && r.0[i].family == ts[id].family ==> (r.0[i].status == Active <==> i == |ts|))
  {
    OnlyActive(ts, id);
  }

  lemma OnlyActive(ts: Tokens, id: nat)
    requires Inv(ts) && id < |ts|
    ensures ts[id].status == Active ==>
      forall i :: 0 <= i < |ts| && ts[i].family == ts[id].family && i != id ==> ts[i].status != Active
  {
    forall i | 0 <= i < |ts| && ts[i].family == ts[id].family && i != id && ts[id].status == Active
      ensures ts[i].status != Active
    {
      assert Linked(ts, i) && Linked(ts, id);
    }
  }

  /** A login adds one active token, in a family that no token had; a secret that is not on
      record changes nothing; a change of password leaves the user no active token and touches
      nothing else. */
  lemma OtherSteps(ts: Tokens, user: nat, expiresAt: int, id: Option<nat>, userOk: bool, now: int)
    requires Inv(ts)
    ensures var us := Opened(ts, user, expiresAt);
      && |us| == |ts| + 1 && us[..|ts|] == ts && us[|ts|].user == user && us[|ts|].status == Active
      && us[|ts|].expiresAt == expiresAt && us[|ts|].replacedBy == None
      && forall i :: 0 <= i < |ts| ==> us[i].family != us[|ts|].family
    ensures id.None? || id.value >= |ts| ==> Refreshed(ts, id, userOk, now, expiresAt) == (ts, Invalid)
    ensures var us := UserRevoked(ts, user);
      forall i :: 0 <= i < |ts| ==>
        us[i] == if ts[i].user == user && ts[i].status == Active then ts[i].(status := Revoked) else ts[i]
  {
    var us := Opened(ts, user, expiresAt);
    assert us[..|ts|] == ts;
    forall i | 0 <= i < |ts| ensures us[i].family != us[|ts|].family {
      assert Linked(ts, i);
    }
  }

  lemma StepKeepsDead(ts: Tokens, op: Op, family: nat)
    requires Inv(ts) && family < |ts| && Dead(ts, family)
    ensures |ts| <= |Step(ts, op)| && Dead(Step(ts, op), family)
  {
  }

  /** A family that has no active token never has one again. */
  lemma {:induction false} DeadForever(ts: Tokens, ops: seq<Op>, family: nat)
    requires Inv(ts) && family < |ts| && Dead(ts, family)
    ensures Dead(Run(ts, ops), family)
    decreases ops
  {
    if ops != [] {
      StepKeeps(ts, ops[0]);
      StepKeepsDead(ts, ops[0], family);
      DeadForever(Step(ts, ops[0]), ops[1..], family);
    }
  }

  /** Logging out ends the family exactly when the active token (or one of a dead family)
      is presented: with a superseded token, the successor stays usable. */
  lemma LogoutLaw(ts: Tokens, user: nat, id: nat)
    requires Inv(ts) && id < |ts| && ts[id].user == user
    ensures LoggedOut(ts, user, Some(id)) == ts[id := ts[id].(status := Revoked)]
    ensures forall stranger :: stranger != user ==> LoggedOut(ts, stranger, Some(id)) == ts
    ensures Dead(LoggedOut(ts, user, Some(id)), ts[id].family)
       <==> ts[id].status == Active || Dead(ts, ts[id].family)
  {
    OnlyActive(ts, id);
    var us := LoggedOut(ts, user, Some(id));
    if !Dead(ts, ts[id].family) && ts[id].status != Active {
      var i :| 0 <= i < |ts| && ts[i].family == ts[id].family && ts[i].status == Active;
      assert us[i] == ts[i];
    }
  }

  /** Log in, refresh, and log out with the first token: the second one still works. */
  lemma SupersededLogout()
    ensures var ts := Run([], [Login(7, 10), Refresh(Some(0), true, 0, 20), Logout(7, Some(0))]);
      && |ts| == 2 && ts[0].status == Revoked && ts[1].status == Active
      && Refreshed(ts, Some(1), true, 5, 30).1 == Issued
  {
    var login, refresh, logout := Login(7, 10), Refresh(Some(0), true, 0, 20), Logout(7, Some(0));
    var t0, t1 := Token(7, 0, Active, 10, None), Token(7, 0, Active, 20, None);
    assert Step([], login) == [t0];
    assert Step([t0], refresh) == [t0.(status := Rotated, replacedBy := Some(1)), t1];
    var end := Step([t0.(status := Rotated, replacedBy := Some(1)), t1], logout);
    assert [login, refresh, logout][1..] == [refresh, logout] && [refresh, logout][1..] == [logout] && [logout][1..] == [];
    assert Run(end, []) == end;
    assert Run([t0], [refresh, logout]) == end;
  }
}
