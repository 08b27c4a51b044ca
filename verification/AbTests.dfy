/** A/B exposure: a customer's bucket is a hash modulo 100, and a loop over cumulative weights
    picks the variant. Strings are sequences of UTF-16 code units. */
module AbTests {
  import opened Totals

  type CodeUnit = c: int | 0 <= c < 0x1_0000

  // ---------------------------------------------------------------- hashing

  /** The polynomial hash without wrap-around. */
  function Poly(input: seq<CodeUnit>): int {
    if input == [] then 0 else Poly(input[..|input| - 1]) * 31 + input[|input| - 1]
  }

  function Power(n: nat): nat {
    if n == 0 then 1 else 31 * Power(n - 1)
  }

  /** Every code unit times 31 to the number of units after it. */
  function Weighted(input: seq<CodeUnit>): int {
    if input == [] then 0 else input[0] * Power(|input| - 1) + Weighted(input[1..])
  }

  lemma {:induction false} WeightedAppend(input: seq<CodeUnit>, c: CodeUnit)
    ensures Weighted(input + [c]) == Weighted(input) * 31 + c
  {
    var all := input + [c];
    if input == [] {
      assert all[1..] == [];
    } else {
      WeightedAppend(input[1..], c);
      assert all[1..] == input[1..] + [c];
      assert Power(|input|) == 31 * Power(|input| - 1);
    }
  }

  /** The hash before wrap-around is the weighted sum of the code units. */
  lemma {:induction false} PolyIsWeighted(input: seq<CodeUnit>)
    ensures Poly(input) == Weighted(input)
  {
    if input != [] {
      var front := input[..|input| - 1];
      PolyIsWeighted(front);
      WeightedAppend(front, input[|input| - 1]);
      assert front + [input[|input| - 1]] == input;
    }
  }

  lemma ModStep(h: int, p: int, c: int)
    requires h == p % 0x1_0000_0000
    ensures (h * 31 + c) % 0x1_0000_0000 == (p * 31 + c) % 0x1_0000_0000
  {
    var q := p / 0x1_0000_0000;
    assert p * 31 + c == h * 31 + c + 0x1_0000_0000 * (q * 31);
  }

  /** Wrapping at every step equals wrapping once, every intermediate value is an integer
      a double holds exactly, and the result is a bucket. */
  method HashPercent(input: seq<CodeUnit>) returns (bucket: int)
    ensures 0 <= bucket < 100
    ensures bucket == Poly(input) % 0x1_0000_0000 % 100
  {
    var h: int := 0;
    for i := 0 to |input|
      invariant 0 <= h < 0x1_0000_0000
      invariant h == Poly(input[..i]) % 0x1_0000_0000
    {
      assert h * 31 + input[i] < 0x20_0000_0000_0000;
      ModStep(h, Poly(input[..i]), input[i]);
      h := (h * 31 + input[i]) % 0x1_0000_0000;
      assert input[..i + 1][..i] == input[..i];
    }
    assert input[..|input|] == input;
    bucket := h % 100;
  }

  // ---------------------------------------------------------------- choosing a variant

  /** Sum of the first `k` weights. */
  function Prefix(weights: seq<nat>, k: nat): nat
    requires k <= |weights|
  {
    if k == 0 then 0 else Prefix(weights, k - 1) + weights[k - 1]
  }

  /** Variant `v` is the one the cumulative weights assign to the bucket; a bucket beyond all
      weights falls back to the first variant. */
  predicate Owns(weights: seq<nat>, v: nat, bucket: int)
    requires v < |weights|
  {
    || Prefix(weights, v) <= bucket < Prefix(weights, v + 1)
    || (v == 0 && Prefix(weights, |weights|) <= bucket)
  }

  /** The choice made by `expose`; without variants there is none. */
  method Expose(weights: seq<nat>, customer: seq<CodeUnit>, test: seq<CodeUnit>) returns (chosen: Option<nat>)
    ensures chosen.None? <==> weights == []
    ensures chosen.Some? ==>
      chosen.value < |weights| && Owns(weights, chosen.value, Poly(customer + test) % 0x1_0000_0000 % 100)
  {
    if |weights| == 0 {
      return None;
    }
    var bucket := HashPercent(customer + test);
    var v := Choose(weights, bucket);
    return Some(v);
  }

  method Choose(weights: seq<nat>, bucket: nat) returns (chosen: nat)
    requires weights != []
    ensures chosen < |weights| && Owns(weights, chosen, bucket)
  {
    var cursor := 0;
    chosen := 0;
    for v := 0 to |weights|
      invariant cursor == Prefix(weights, v) <= bucket
    {
      cursor := cursor + weights[v];
      if bucket < cursor {
        return v;
      }
    }
  }

  lemma {:induction false} PrefixGrows(weights: seq<nat>, j: nat, k: nat)
    requires j <= k <= |weights|
    ensures Prefix(weights, j) <= Prefix(weights, k)
    decreases k
  {
    if j < k {
      PrefixGrows(weights, j, k - 1);
    }
  }

  /** Every bucket belongs to exactly one variant. */
  lemma OneOwner(weights: seq<nat>, bucket: nat, v: nat, w: nat)
    requires v < |weights| && w < |weights| && Owns(weights, v, bucket) && Owns(weights, w, bucket)
    ensures v == w
  {
    PrefixGrows(weights, v + 1, |weights|);
    PrefixGrows(weights, w + 1, |weights|);
    if v < w {
      PrefixGrows(weights, v + 1, w);
    } else if w < v {
      PrefixGrows(weights, w + 1, v);
    }
  }

  lemma SomeOwner(weights: seq<nat>, bucket: nat) returns (v: nat)
    requires weights != []
    ensures v < |weights| && Owns(weights, v, bucket)
  {
    v := 0;
    while v < |weights| && Prefix(weights, v + 1) <= bucket
      invariant v <= |weights| && Prefix(weights, v) <= bucket
    {
      v := v + 1;
    }
    if v == |weights| {
      v := 0;
    }
  }

  // ---------------------------------------------------------------- shares

  /** The buckets a variant owns. */
  ghost function Buckets(weights: seq<nat>, v: nat): (s: set<int>)
    requires v < |weights|
    ensures forall b :: b in s <==> 0 <= b < 100 && Owns(weights, v, b)
  {
    set b: int | 0 <= b < 100 && Owns(weights, v, b)
  }

  function Clip(n: int): int {
    Min(n, 100)
  }

  /** How many buckets a variant owns, for any weights. */
  lemma Share(weights: seq<nat>, v: nat)
    requires v < |weights|
    ensures |Buckets(weights, v)| == Clip(Prefix(weights, v + 1)) - Clip(Prefix(weights, v))
                                     + (if v == 0 then 100 - Clip(Prefix(weights, |weights|)) else 0)
  {
    var lo, hi := Clip(Prefix(weights, v)), Clip(Prefix(weights, v + 1));
    var end := Clip(Prefix(weights, |weights|));
    PrefixGrows(weights, v, v + 1);
    PrefixGrows(weights, v + 1, |weights|);
    IntervalSize(lo, hi);
    IntervalSize(end, 100);
    if v == 0 {
      assert Buckets(weights, v) == Interval(lo, hi) + Interval(end, 100);
      assert Interval(lo, hi) !! Interval(end, 100);
    } else {
      assert Buckets(weights, v) == Interval(lo, hi);
    }
  }

  ghost predicate Fair(weights: seq<nat>) {
    forall v :: 0 <= v < |weights| ==> |Buckets(weights, v)| == weights[v]
  }

  /** If every variant has its share, the weights up to `k` are accounted for. */
  lemma {:induction false} FairPrefix(weights: seq<nat>, k: nat)
    requires Fair(weights) && 0 < k <= |weights|
    ensures Prefix(weights, k) == Clip(Prefix(weights, k)) + 100 - Clip(Prefix(weights, |weights|))
  {
    if k > 1 {
      FairPrefix(weights, k - 1);
    }
    Share(weights, k - 1);
    assert Prefix(weights, k) == Prefix(weights, k - 1) + weights[k - 1];
  }

  /** Every variant owns exactly as many of the hundred buckets as its weight says if, and
      only if, the weights sum to 100. */
  lemma SharesExact(weights: seq<nat>)
    requires weights != []
    ensures Fair(weights) <==> Prefix(weights, |weights|) == 100
  {
    if Fair(weights) {
      FairPrefix(weights, |weights|);
    }
    if Prefix(weights, |weights|) == 100 {
      forall v | 0 <= v < |weights| ensures |Buckets(weights, v)| == weights[v] {
        Share(weights, v);
        PrefixGrows(weights, v + 1, |weights|);
      }
    }
  }

  /** Weights of 50 and 30: the first variant gets the twenty buckets nobody claims. */
  lemma UnclaimedBuckets()
    ensures !Fair([50, 30]) && |Buckets([50, 30], 0)| == 70
  {
    var weights: seq<nat> := [50, 30];
    assert Prefix(weights, 0) == 0 && Prefix(weights, 1) == 50 && Prefix(weights, 2) == 80;
    SharesExact(weights);
    Share(weights, 0);
  }
}
