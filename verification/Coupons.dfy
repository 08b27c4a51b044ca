/** Coupon eligibility: coupon columns and rules are compiled to a condition tree, which is
    then evaluated over the facts of a cart. */
module Coupons {
  import opened Totals
  import opened Rules
  import opened RulesLaws

  type Id = nat

  /** What the compiled leaves ask of the facts: `gte` and `lte` on the total and on the
      current time, and `contains` on the two id lists. */
  datatype Probe =
    | TotalAtLeast(amount: real)
    | NowAtLeast(time: int)
    | NowAtMost(time: int)
    | HasBrand(brand: Id)
    | HasCategory(category: Id)

  datatype Facts = Facts(total: real, now: int, brandIds: seq<Id>, categoryIds: seq<Id>)

  function Ask(f: Facts): Probe -> LeafOutcome {
    (p: Probe) => if Holds(p, f) then Matches else Differs
  }

  predicate Holds(p: Probe, f: Facts) {
    match p
    case TotalAtLeast(v) => f.total >= v
    case NowAtLeast(t) => f.now >= t
    case NowAtMost(t) => f.now <= t
    case HasBrand(b) => b in f.brandIds
    case HasCategory(c) => c in f.categoryIds
  }

  /** Input of the compiler. */
  datatype Terms = Terms(
    minCartValue: Option<real>,
    startsAt: Option<int>,
    expiresAt: Option<int>,
    brandIds: seq<Id>,
    categoryIds: seq<Id>,
    extra: Option<Node<Probe>>)

  // ---------------------------------------------------------------- direct reading

  predicate SomeIn(wanted: seq<Id>, present: seq<Id>) {
    exists i :: 0 <= i < |wanted| && wanted[i] in present
  }

  /** The coupon's terms read directly, without a tree. */
  predicate Satisfied(t: Terms, f: Facts) {
    && (t.minCartValue.Some? ==> t.minCartValue.value <= f.total)
    && (t.startsAt.Some? ==> t.startsAt.value <= f.now)
    && (t.expiresAt.Some? ==> f.now <= t.expiresAt.value)
    && (t.brandIds != [] ==> SomeIn(t.brandIds, f.brandIds))
    && (t.categoryIds != [] ==> SomeIn(t.categoryIds, f.categoryIds))
    && (t.extra.Some? ==> Truth(t.extra.value, Ask(f)))
  }

  predicate IsCouponActive(status: string, startsAt: Option<int>, expiresAt: Option<int>, now: int) {
    if status != "active" then false
    else if startsAt.Some? && startsAt.value > now then false
    else if expiresAt.Some? && expiresAt.value < now then false
    else true
  }

  // ---------------------------------------------------------------- compiler

  function AnyBrand(ids: seq<Id>): Node<Probe> {
    Any(seq(|ids|, i requires 0 <= i < |ids| => Leaf(HasBrand(ids[i]))))
  }

  function AnyCategory(ids: seq<Id>): Node<Probe> {
    Any(seq(|ids|, i requires 0 <= i < |ids| => Leaf(HasCategory(ids[i]))))
  }

  /** The part for an optional bound. */
  function Bound<T>(bound: Option<T>, probe: T -> Probe): seq<Node<Probe>> {
    if bound.Some? then [Leaf(probe(bound.value))] else []
  }

  function PartIf(present: bool, part: Node<Probe>): seq<Node<Probe>> {
    if present then [part] else []
  }

  /** One node for a list of conjuncts. */
  function Wrap(parts: seq<Node<Probe>>): Node<Probe> {
    if |parts| == 1 then parts[0] else All(parts)
  }

  function Restrictions(brands: seq<Id>, categories: seq<Id>): seq<Node<Probe>> {
    PartIf(brands != [], AnyBrand(brands)) + PartIf(categories != [], AnyCategory(categories))
  }

  function Bounds(t: Terms): seq<Node<Probe>> {
    Bound(t.minCartValue, v => TotalAtLeast(v)) + Bound(t.startsAt, v => NowAtLeast(v)) + Bound(t.expiresAt, v => NowAtMost(v))
  }

  function Parts(t: Terms): seq<Node<Probe>> {
    Bounds(t) + Restrictions(t.brandIds, t.categoryIds) + (if t.extra.Some? then [t.extra.value] else [])
  }

  method BuildCouponConditions(t: Terms) returns (n: Node<Probe>)
    ensures n == Wrap(Parts(t))
  {
    var parts := [];
    if t.minCartValue.Some? {
      parts := parts + [Leaf(TotalAtLeast(t.minCartValue.value))];
    }
    if t.startsAt.Some? {
      parts := parts + [Leaf(NowAtLeast(t.startsAt.value))];
    }
    if t.expiresAt.Some? {
      parts := parts + [Leaf(NowAtMost(t.expiresAt.value))];
    }
    assert parts == Bounds(t);
    ghost var bounds := parts;
    if |t.brandIds| > 0 {
      parts := parts + [AnyBrand(t.brandIds)];
    }
    if |t.categoryIds| > 0 {
      parts := parts + [AnyCategory(t.categoryIds)];
    }
    assert parts == bounds + Restrictions(t.brandIds, t.categoryIds);
    if t.extra.Some? {
      parts := parts + [t.extra.value];
    }
    assert parts == Parts(t);
    if |parts| == 0 {
      return All([]);
    }
    if |parts| == 1 {
      return parts[0];
    }
    return All(parts);
  }

  method RestrictionNode(brands: seq<Id>, categories: seq<Id>) returns (n: Option<Node<Probe>>)
    ensures n == RestrictionOf(brands, categories)
  {
    var parts := [];
    if |brands| > 0 {
      parts := parts + [AnyBrand(brands)];
    }
    if |categories| > 0 {
      parts := parts + [AnyCategory(categories)];
    }
    assert parts == Restrictions(brands, categories);
    if |parts| == 0 {
      return None;
    }
    return Some(if |parts| == 1 then parts[0] else All(parts));
  }

  function RestrictionOf(brands: seq<Id>, categories: seq<Id>): Option<Node<Probe>> {
    var parts := Restrictions(brands, categories);
    if parts == [] then None else Some(Wrap(parts))
  }

  // ---------------------------------------------------------------- meaning

  lemma {:induction false} AskNeverErrs(n: Node<Probe>, f: Facts)
    ensures NoLeafErrs(n, Ask(f))
  {
    match n
    case All(cs) => forall i | 0 <= i < |cs| ensures NoLeafErrs(cs[i], Ask(f)) { AskNeverErrs(cs[i], f); }
    case Any(cs) => forall i | 0 <= i < |cs| ensures NoLeafErrs(cs[i], Ask(f)) { AskNeverErrs(cs[i], f); }
    case Not(c) => AskNeverErrs(c, f);
    case Leaf(_) =>
  }

  predicate AllTrue(parts: seq<Node<Probe>>, f: Facts) {
    forall i :: 0 <= i < |parts| ==> Truth(parts[i], Ask(f))
  }

  lemma AllTrueConcat(a: seq<Node<Probe>>, b: seq<Node<Probe>>, f: Facts)
    ensures AllTrue(a + b, f) == (AllTrue(a, f) && AllTrue(b, f))
  {
    if AllTrue(a + b, f) {
      forall i | 0 <= i < |a| ensures Truth(a[i], Ask(f)) { assert (a + b)[i] == a[i]; }
      forall i | 0 <= i < |b| ensures Truth(b[i], Ask(f)) { assert (a + b)[|a| + i] == b[i]; }
    }
  }

  lemma AllTrueOne(n: Node<Probe>, f: Facts)
    ensures AllTrue([n], f) == Truth(n, Ask(f))
  {
    assert [n][0] == n;
  }

  lemma BoundTrue<T>(bound: Option<T>, probe: T -> Probe, f: Facts)
    ensures AllTrue(Bound(bound, probe), f) == (bound.Some? ==> Holds(probe(bound.value), f))
  {
    if bound.Some? {
      AllTrueOne(Leaf(probe(bound.value)), f);
    }
  }

  lemma AnyTrue(ids: seq<Id>, f: Facts)
    ensures Truth(AnyBrand(ids), Ask(f)) == SomeIn(ids, f.brandIds)
    ensures Truth(AnyCategory(ids), Ask(f)) == SomeIn(ids, f.categoryIds)
  {
    if i :| 0 <= i < |ids| && ids[i] in f.brandIds {
      assert Truth(AnyBrand(ids).children[i], Ask(f));
    }
    if i :| 0 <= i < |ids| && ids[i] in f.categoryIds {
      assert Truth(AnyCategory(ids).children[i], Ask(f));
    }
  }

  lemma RestrictionsTrue(brands: seq<Id>, categories: seq<Id>, f: Facts)
    ensures AllTrue(Restrictions(brands, categories), f) ==
      ((brands != [] ==> SomeIn(brands, f.brandIds)) && (categories != [] ==> SomeIn(categories, f.categoryIds)))
  {
    AllTrueConcat(PartIf(brands != [], AnyBrand(brands)), PartIf(categories != [], AnyCategory(categories)), f);
    AllTrueOne(AnyBrand(brands), f);
    AllTrueOne(AnyCategory(categories), f);
    AnyTrue(brands, f);
    AnyTrue(categories, f);
  }

  lemma BoundsTrue(t: Terms, f: Facts)
    ensures AllTrue(Bounds(t), f) == Satisfied(t.(brandIds := [], categoryIds := [], extra := None), f)
  {
    var a, b, c := Bound(t.minCartValue, v => TotalAtLeast(v)), Bound(t.startsAt, v => NowAtLeast(v)), Bound(t.expiresAt, v => NowAtMost(v));
    AllTrueConcat(a, b, f);
    AllTrueConcat(a + b, c, f);
    BoundTrue(t.minCartValue, v => TotalAtLeast(v), f);
    BoundTrue(t.startsAt, v => NowAtLeast(v), f);
    BoundTrue(t.expiresAt, v => NowAtMost(v), f);
  }

  lemma PartsTrue(t: Terms, f: Facts)
    ensures AllTrue(Parts(t), f) == Satisfied(t, f)
  {
    var d := Restrictions(t.brandIds, t.categoryIds);
    var e := if t.extra.Some? then [t.extra.value] else [];
    AllTrueConcat(Bounds(t), d, f);
    AllTrueConcat(Bounds(t) + d, e, f);
    BoundsTrue(t, f);
    RestrictionsTrue(t.brandIds, t.categoryIds, f);
    if t.extra.Some? {
      AllTrueOne(t.extra.value, f);
    }
  }

  /** Evaluating the compiled tree decides exactly the terms read directly, in both modes,
      for any extra node and any number of parts, and never reports an error. */
  lemma CompiledMeaning(t: Terms, f: Facts, shortCircuit: bool, matchScore: int)
    ensures var v := Evaluate(Wrap(Parts(t)), Options(Ask(f), shortCircuit, matchScore));
      v.matched == Satisfied(t, f) && v.errors == []
  {
    var n := Wrap(Parts(t));
    AskNeverErrs(n, f);
    MatchesTruth(n, Options(Ask(f), shortCircuit, matchScore));
    PartsTrue(t, f);
    assert Truth(n, Ask(f)) == AllTrue(Parts(t), f);
  }

  /** Restrictions may arrive as lists or folded into the extra node: same verdict. */
  lemma RestrictionsEitherWay(t: Terms, f: Facts, shortCircuit: bool, matchScore: int)
    requires t.extra == None
    ensures var o := Options(Ask(f), shortCircuit, matchScore);
      var folded := t.(brandIds := [], categoryIds := [], extra := RestrictionOf(t.brandIds, t.categoryIds));
      Evaluate(Wrap(Parts(t)), o).matched == Evaluate(Wrap(Parts(folded)), o).matched == Satisfied(t, f)
  {
    var folded := t.(brandIds := [], categoryIds := [], extra := RestrictionOf(t.brandIds, t.categoryIds));
    CompiledMeaning(t, f, shortCircuit, matchScore);
    CompiledMeaning(folded, f, shortCircuit, matchScore);
    RestrictionsTrue(t.brandIds, t.categoryIds, f);
    var parts := Restrictions(t.brandIds, t.categoryIds);
    assert parts != [] ==> Truth(Wrap(parts), Ask(f)) == AllTrue(parts, f);
  }

  /** The date leaves accept exactly the times at which an active coupon is active. */
  lemma DatesAgree(startsAt: Option<int>, expiresAt: Option<int>, f: Facts, shortCircuit: bool, matchScore: int)
    ensures Evaluate(Wrap(Parts(Terms(None, startsAt, expiresAt, [], [], None))),
                     Options(Ask(f), shortCircuit, matchScore)).matched
         == IsCouponActive("active", startsAt, expiresAt, f.now)
  {
    CompiledMeaning(Terms(None, startsAt, expiresAt, [], [], None), f, shortCircuit, matchScore);
  }

  // ---------------------------------------------------------------- eligibility

  datatype RuleType = MinCartRule | BrandRule | CategoryRule | OtherRule

  datatype CouponRule = CouponRule(
    ruleType: RuleType, ruleValue: Option<real>, brandId: Option<Id>, categoryId: Option<Id>)

  datatype Coupon = Coupon(
    minCartValue: Option<real>,
    startsAt: Option<int>,
    expiresAt: Option<int>,
    rules: seq<CouponRule>,
    usageLimit: Option<int>,
    perUserLimit: Option<int>)

  function RestrictedBrands(rules: seq<CouponRule>): (ids: seq<Id>)
    ensures forall b :: b in ids <==> exists r :: r in rules && r.ruleType.BrandRule? && r.brandId == Some(b)
  {
    if rules == [] then [] else
      assert rules == [rules[0]] + rules[1..];
      (if rules[0].ruleType.BrandRule? && rules[0].brandId.Some? then [rules[0].brandId.value] else [])
      + RestrictedBrands(rules[1..])
  }

  function RestrictedCategories(rules: seq<CouponRule>): (ids: seq<Id>)
    ensures forall c :: c in ids <==> exists r :: r in rules && r.ruleType.CategoryRule? && r.categoryId == Some(c)
  {
    if rules == [] then [] else
      assert rules == [rules[0]] + rules[1..];
      (if rules[0].ruleType.CategoryRule? && rules[0].categoryId.Some? then [rules[0].categoryId.value] else [])
      + RestrictedCategories(rules[1..])
  }

  /** Value of the first minimum-cart rule: later ones do not count, even when it has none. */
  function FirstMinCartRule(rules: seq<CouponRule>): Option<real> {
    if rules == [] then None
    else if rules[0].ruleType.MinCartRule? then rules[0].ruleValue
    else FirstMinCartRule(rules[1..])
  }

  function MinCart(c: Coupon): Option<real> {
    if c.minCartValue.Some? then c.minCartValue else FirstMinCartRule(c.rules)
  }

  predicate IsFirstMinCartRule(rules: seq<CouponRule>, k: int) {
    0 <= k < |rules| && rules[k].ruleType.MinCartRule? && forall j :: 0 <= j < k ==> !rules[j].ruleType.MinCartRule?
  }

  /** The minimum comes from the column if that is set, and otherwise from the first minimum-cart
      rule, even if that one has no value. */
  lemma {:induction false} MinCartIs(c: Coupon)
    ensures c.minCartValue.Some? ==> MinCart(c) == c.minCartValue
    ensures forall k :: c.minCartValue.None? && IsFirstMinCartRule(c.rules, k) ==> MinCart(c) == c.rules[k].ruleValue
    ensures c.minCartValue.None? && (forall j :: 0 <= j < |c.rules| ==> !c.rules[j].ruleType.MinCartRule?) ==> MinCart(c) == None
  {
    forall k | IsFirstMinCartRule(c.rules, k)
      ensures FirstMinCartRule(c.rules) == c.rules[k].ruleValue
    {
      FirstMinCartRuleAt(c.rules, k);
    }
    if forall j :: 0 <= j < |c.rules| ==> !c.rules[j].ruleType.MinCartRule? {
      FirstMinCartRuleAt(c.rules, |c.rules|);
    }
  }

  lemma {:induction false} FirstMinCartRuleAt(rules: seq<CouponRule>, k: nat)
    requires k <= |rules| && forall j :: 0 <= j < k ==> !rules[j].ruleType.MinCartRule?
    requires k < |rules| ==> rules[k].ruleType.MinCartRule?
    ensures FirstMinCartRule(rules) == if k < |rules| then rules[k].ruleValue else None
    decreases k
  {
    if k > 0 {
      FirstMinCartRuleAt(rules[1..], k - 1);
    }
  }

  /** Some cart item meets the restrictions of one kind, or there are none. */
  predicate BrandsAllow(c: Coupon, f: Facts) {
    (exists r :: r in c.rules && r.ruleType.BrandRule? && r.brandId.Some?) ==>
    exists r :: r in c.rules && r.ruleType.BrandRule? && r.brandId.Some? && r.brandId.value in f.brandIds
  }

  predicate CategoriesAllow(c: Coupon, f: Facts) {
    (exists r :: r in c.rules && r.ruleType.CategoryRule? && r.categoryId.Some?) ==>
    exists r :: r in c.rules && r.ruleType.CategoryRule? && r.categoryId.Some? && r.categoryId.value in f.categoryIds
  }

  predicate Eligible(c: Coupon, f: Facts, customer: Option<Id>, used: nat, usedByCustomer: nat) {
    && (MinCart(c).Some? ==> MinCart(c).value <= f.total)
    && IsCouponActive("active", c.startsAt, c.expiresAt, f.now)
    && BrandsAllow(c, f)
    && CategoriesAllow(c, f)
    && (c.usageLimit.Some? ==> used < c.usageLimit.value)
    && (c.perUserLimit.Some? && customer.Some? ==> usedByCustomer < c.perUserLimit.value)
  }

  lemma RestrictionsOfRules(c: Coupon, f: Facts)
    ensures BrandsAllow(c, f) ==
      (RestrictedBrands(c.rules) != [] ==> SomeIn(RestrictedBrands(c.rules), f.brandIds))
    ensures CategoriesAllow(c, f) ==
      (RestrictedCategories(c.rules) != [] ==> SomeIn(RestrictedCategories(c.rules), f.categoryIds))
  {
    BrandsOfRules(c, f);
    CategoriesOfRules(c, f);
  }

  lemma BrandsOfRules(c: Coupon, f: Facts)
    ensures BrandsAllow(c, f) ==
      (RestrictedBrands(c.rules) != [] ==> SomeIn(RestrictedBrands(c.rules), f.brandIds))
  {
    var ids := RestrictedBrands(c.rules);
    if ids != [] {
      assert ids[0] in ids;
      if i :| 0 <= i < |ids| && ids[i] in f.brandIds {
        assert ids[i] in ids;
      }
    }
    if r :| r in c.rules && r.ruleType.BrandRule? && r.brandId.Some? {
      assert r.brandId.value in ids;
    }
    if r :| r in c.rules && r.ruleType.BrandRule? && r.brandId.Some? && r.brandId.value in f.brandIds {
      assert r.brandId.value in ids;
      var i :| 0 <= i < |ids| && ids[i] == r.brandId.value;
    }
  }

  lemma CategoriesOfRules(c: Coupon, f: Facts)
    ensures CategoriesAllow(c, f) ==
      (RestrictedCategories(c.rules) != [] ==> SomeIn(RestrictedCategories(c.rules), f.categoryIds))
  {
    var ids := RestrictedCategories(c.rules);
    if ids != [] {
      assert ids[0] in ids;
      if i :| 0 <= i < |ids| && ids[i] in f.categoryIds {
        assert ids[i] in ids;
      }
    }
    if r :| r in c.rules && r.ruleType.CategoryRule? && r.categoryId.Some? {
      assert r.categoryId.value in ids;
    }
    if r :| r in c.rules && r.ruleType.CategoryRule? && r.categoryId.Some? && r.categoryId.value in f.categoryIds {
      assert r.categoryId.value in ids;
      var i :| 0 <= i < |ids| && ids[i] == r.categoryId.value;
    }
  }

  /** Compile, evaluate with the default options, then check the usage limits. */
  method EvaluateEligibility(c: Coupon, f: Facts, customer: Option<Id>, used: nat, usedByCustomer: nat)
    returns (eligible: bool)
    ensures eligible == Eligible(c, f, customer, used, usedByCustomer)
  {
    var brands, categories := RestrictedBrands(c.rules), RestrictedCategories(c.rules);
    var extra := RestrictionNode(brands, categories);
    var n := BuildCouponConditions(Terms(MinCart(c), c.startsAt, c.expiresAt, [], [], extra));
    var v := EvaluateNode(n, Options(Ask(f), true, 1));
    ghost var lists := Terms(MinCart(c), c.startsAt, c.expiresAt, brands, categories, None);
    RestrictionsEitherWay(lists, f, true, 1);
    CompiledMeaning(Terms(MinCart(c), c.startsAt, c.expiresAt, [], [], extra), f, true, 1);
    RestrictionsOfRules(c, f);
    if !v.matched || |v.errors| > 0 {
      return false;
    }
    if c.usageLimit.Some? && used >= c.usageLimit.value {
      return false;
    }
    if c.perUserLimit.Some? && customer.Some? && usedByCustomer >= c.perUserLimit.value {
      return false;
    }
    return true;
  }
}
