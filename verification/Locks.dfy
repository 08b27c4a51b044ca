/** The Redis lock: any number of clients acquiring, extending, releasing and crashing
    while time passes, and the polling loop of `acquire`. */
module Locks {
  import opened Totals

  type Key = nat
  type Token = nat

  datatype Entry = Entry(token: Token, expiresAt: int)

  /** A grant: the key it is for and the moment until which it was last extended. Grants
      are only removed by a release; a crashed client's grant simply expires. */
  datatype Lease = Lease(key: Key, until: int)

  datatype State = State(now: int, store: map<Key, Entry>, leases: map<Token, Lease>, used: set<Token>)

  /** What Redis answers for a key: an expired entry is gone. */
  function Stored(s: State, key: Key): Option<Token> {
    if key in s.store && s.now < s.store[key].expiresAt then Some(s.store[key].token) else None
  }

  datatype Event =
    | Acquire(key: Key, token: Token, ttlMs: int)     // one SET NX PX
    | Release(key: Key, token: Token)                 // compare and delete
    | Extend(key: Key, token: Token, ttlMs: int)      // compare and expire
    | Tick(ms: nat)

  /** Tokens are random, hence not granted before; a refused try changes nothing and may be
      repeated with the same token. A client releases or extends whenever it likes, even long
      after its lock expired or with the wrong token. */
  ghost predicate Next(s: State, e: Event, s': State) {
    match e
    case Acquire(key, token, ttlMs) =>
      && token !in s.used
      && s' == if Stored(s, key).None?
               then s.(store := s.store[key := Entry(token, s.now + ttlMs)],
                       leases := s.leases[token := Lease(key, s.now + ttlMs)],
                       used := s.used + {token})
               else s
    case Release(key, token) =>
      s' == if Stored(s, key) == Some(token)
            then s.(store := s.store - {key}, leases := s.leases - {token})
            else s
    case Extend(key, token, ttlMs) =>
      s' == if Stored(s, key) == Some(token)
            then s.(store := s.store[key := Entry(token, s.now + ttlMs)],
                    leases := s.leases[token := Lease(key, s.now + ttlMs)])
            else s
    case Tick(ms) =>
      s' == s.(now := s.now + ms)
  }

  predicate Holds(s: State, token: Token, key: Key) {
    token in s.leases && s.leases[token].key == key && s.now < s.leases[token].until
  }

  /** A live lease is what the store says about its key; a live entry is a lease. */
  ghost predicate Inv(s: State) {
    && s.leases.Keys <= s.used
    && (forall t :: t in s.leases && s.now < s.leases[t].until ==>
          s.leases[t].key in s.store && s.store[s.leases[t].key] == Entry(t, s.leases[t].until))
    && (forall k :: k in s.store ==> s.store[k].token in s.used)
    && (forall k :: k in s.store && s.now < s.store[k].expiresAt ==>
          s.store[k].token in s.leases && s.leases[s.store[k].token] == Lease(k, s.store[k].expiresAt))
  }

  lemma NextKeeps(s: State, e: Event, s': State)
    requires Inv(s) && Next(s, e, s')
    ensures Inv(s')
  {
  }

  ghost predicate IsRun(states: seq<State>, events: seq<Event>) {
    && |states| == |events| + 1
    && states[0] == State(states[0].now, map[], map[], {})
    && forall i :: 0 <= i < |events| ==> Next(states[i], events[i], states[i + 1])
  }

  lemma {:induction false} RunInv(states: seq<State>, events: seq<Event>, n: nat)
    requires IsRun(states, events) && n < |states|
    ensures Inv(states[n])
    decreases n
  {
    if n > 0 {
      RunInv(states, events, n - 1);
      NextKeeps(states[n - 1], events[n - 1], states[n]);
    }
  }

  /** In every run, at no moment do two unexpired holders of one key coexist. */
  lemma MutualExclusion(states: seq<State>, events: seq<Event>, n: nat, key: Key, a: Token, b: Token)
    requires IsRun(states, events) && n < |states|
    requires Holds(states[n], a, key) && Holds(states[n], b, key)
    ensures a == b
  {
    RunInv(states, events, n);
  }

  /** In every run, a try is granted exactly when no unexpired holder is on record, and then the
      caller holds the key; otherwise nothing changes and the call may try again. */
  lemma TryLaw(states: seq<State>, events: seq<Event>, n: nat)
    requires IsRun(states, events) && n < |events| && events[n].Acquire? && events[n].ttlMs > 0
    ensures var s, s', e := states[n], states[n + 1], events[n];
      && (Holds(s', e.token, e.key) <==> Stored(s, e.key).None?)
      && (Stored(s, e.key).None? <==> forall t :: !Holds(s, t, e.key))
      && (Holds(s', e.token, e.key) ==> s'.leases[e.token] == Lease(e.key, s.now + e.ttlMs))
      && (forall t: Token, k: Key :: (t, k) != (e.token, e.key) ==> (Holds(s', t, k) <==> Holds(s, t, k)))
      && (!Holds(s', e.token, e.key) ==> s' == s && e.token !in s'.used)
  {
    RunInv(states, events, n);
    assert Next(states[n], events[n], states[n + 1]);
    var s, key := states[n], events[n].key;
    if Stored(s, key).Some? {
      assert Holds(s, s.store[key].token, key);
    }
  }

  /** In every run, a holder that releases its key leaves it without a holder, so that the next
      try is granted; no other key is affected. */
  lemma ReleaseLaw(states: seq<State>, events: seq<Event>, n: nat)
    requires IsRun(states, events) && n < |events| && events[n].Release?
    requires Holds(states[n], events[n].token, events[n].key)
    ensures var s, s', e := states[n], states[n + 1], events[n];
      && Stored(s', e.key).None? && (forall t :: !Holds(s', t, e.key))
      && (forall t, k :: k != e.key ==> (Holds(s', t, k) <==> Holds(s, t, k)) && Stored(s', k) == Stored(s, k))
  {
    RunInv(states, events, n);
    RunInv(states, events, n + 1);
    assert Next(states[n], events[n], states[n + 1]);
    var s, s', e := states[n], states[n + 1], events[n];
    forall t, k | k != e.key ensures Holds(s', t, k) <==> Holds(s, t, k) {
      if Holds(s, t, k) {
        assert t != e.token;
      }
    }
  }

  /** Releasing and trying again: the lock changes hands at once. */
  lemma HandedOver(states: seq<State>, events: seq<Event>, n: nat)
    requires IsRun(states, events) && n + 1 < |events| && events[n].Release? && events[n + 1].Acquire?
    requires Holds(states[n], events[n].token, events[n].key)
    requires events[n + 1].key == events[n].key && events[n + 1].ttlMs > 0
    ensures Holds(states[n + 2], events[n + 1].token, events[n].key)
  {
    ReleaseLaw(states, events, n);
    TryLaw(states, events, n + 1);
  }

  /** In every run, a holder that extends holds its key until exactly the new moment. */
  lemma ExtendLaw(states: seq<State>, events: seq<Event>, n: nat)
    requires IsRun(states, events) && n < |events| && events[n].Extend? && events[n].ttlMs > 0
    requires Holds(states[n], events[n].token, events[n].key)
    ensures var s, s', e := states[n], states[n + 1], events[n];
      && Holds(s', e.token, e.key) && s'.leases[e.token] == Lease(e.key, s.now + e.ttlMs)
      && s'.now == s.now
      && (forall t, k :: Holds(s', t, k) <==> Holds(s, t, k))
  {
    RunInv(states, events, n);
    assert Next(states[n], events[n], states[n + 1]);
  }

  /** In every run, time alone ends a lock at exactly the moment it was taken for. */
  lemma ExpiryLaw(states: seq<State>, events: seq<Event>, n: nat, token: Token, key: Key)
    requires IsRun(states, events) && n < |events| && events[n].Tick? && Holds(states[n], token, key)
    ensures var s, s' := states[n], states[n + 1];
      && (Holds(s', token, key) <==> s.now + events[n].ms < s.leases[token].until)
      && (Holds(s', token, key) <==> Stored(s', key) == Some(token))
  {
    RunInv(states, events, n);
    RunInv(states, events, n + 1);
    assert Next(states[n], events[n], states[n + 1]);
  }

  /** In every run, a release or extend, however late, never touches another holder's lock:
      it stays held until the same moment, and nothing changes unless the caller is itself
      an unexpired holder of that key. */
  lemma OthersUntouched(states: seq<State>, events: seq<Event>, n: nat, other: Token, key: Key)
    requires IsRun(states, events) && n < |events|
    requires events[n].Release? || events[n].Extend?
    requires other != events[n].token && Holds(states[n], other, key)
    ensures Holds(states[n + 1], other, key) && states[n + 1].leases[other] == states[n].leases[other]
    ensures !Holds(states[n], events[n].token, events[n].key) ==> states[n + 1] == states[n]
  {
    RunInv(states, events, n);
    assert Next(states[n], events[n], states[n + 1]);
  }

  // ---------------------------------------------------------------- acquire

  function CeilDiv(a: nat, b: nat): (q: nat)
    requires 0 < b
    ensures (q - 1) * b < a <= q * b
  {
    (a + b - 1) / b
  }

  /** The timer waits at least a millisecond, whatever it is asked for. */
  function Pause(retryMs: nat): (ms: nat)
    ensures 1 <= ms && retryMs <= ms
  {
    if retryMs == 0 then 1 else retryMs
  }

  /** The polling loop. `free(k)` says whether the k-th try is granted and `clock(k)` is the
      time read after it; every sleep lasts at least as long as the timer promises. */
  method AcquireLoop(startedAt: int, waitMs: nat, retryMs: nat, free: nat -> bool, clock: nat -> int)
    returns (acquired: bool, tries: nat)
    requires startedAt <= clock(0) && forall k: nat :: clock(k) + Pause(retryMs) <= clock(k + 1)
    ensures 1 <= tries <= CeilDiv(waitMs, Pause(retryMs)) + 1
    ensures acquired == free(tries - 1) && forall k: nat :: k < tries - 1 ==> !free(k)
    ensures !acquired ==> startedAt + waitMs <= clock(tries - 1)
  {
    var deadline := startedAt + waitMs;
    ghost var pause := Pause(retryMs);
    tries := 0;
    while true
      invariant tries <= CeilDiv(waitMs, pause)
      invariant startedAt + tries * pause <= clock(tries)
      invariant 0 < tries ==> clock(tries - 1) < deadline
      invariant forall k: nat :: k < tries ==> !free(k)
      decreases CeilDiv(waitMs, pause) + 1 - tries
    {
      if free(tries) {
        return true, tries + 1;
      }
      if clock(tries) >= deadline {
        return false, tries + 1;
      }
      assert tries * pause < waitMs;
      BelowCeiling(tries, waitMs, pause);
      assert clock(tries) + pause <= clock(tries + 1);
      tries := tries + 1;
    }
  }

  lemma BelowCeiling(n: nat, a: nat, b: nat)
    requires 0 < b && n * b < a
    ensures n < CeilDiv(a, b)
  {
    var q := CeilDiv(a, b);
    assert 0 < (q - n) * b;
  }
}
