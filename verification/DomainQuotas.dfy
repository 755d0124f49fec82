/**
 Largest-remainder quotas over exact rationals (src/live_mcp/domain_allocation.py:47-109): a share
 is kept as its integer quotient and remainder by the total weight.
 */
module DomainQuotas {
  import opened Common

  /** A domain name; the number is its rank in string order. */
  type Domain = nat

  datatype Refusal = NegativeTarget | DuplicateDomains | FloorExceedsTarget
  datatype Allocation = Allocated(quotas: map<Domain, nat>) | Refused(reason: Refusal)

  function Max(a: int, b: int): int { if a < b then b else a }

  function Capacity(capacities: map<Domain, int>, d: Domain): int {
    if d in capacities then capacities[d] else 0
  }

  predicate Covers(f: map<Domain, nat>, s: seq<Domain>) {
    forall d :: d in s ==> d in f
  }

  function Total(s: seq<Domain>, f: map<Domain, nat>): nat
    requires Covers(f, s)
  {
    if s == [] then 0 else Total(s[..|s| - 1], f) + f[s[|s| - 1]]
  }

  function Constant(s: seq<Domain>, v: nat): map<Domain, nat> {
    map d | d in s :: v
  }

  function Clamped(s: seq<Domain>, capacities: map<Domain, int>): map<Domain, nat> {
    map d | d in s :: Max(0, Capacity(capacities, d))
  }

  /** Capacities below zero count as zero; when nothing is left every domain weighs the same. */
  function Weights(s: seq<Domain>, capacities: map<Domain, int>): map<Domain, nat> {
    var clamped := Clamped(s, capacities);
    if Total(s, clamped) == 0 then Constant(s, 1) else clamped
  }

  /** One exact share, weight * remainder / total, as whole part and numerator of the fraction. */
  function Whole(weight: nat, remainder: nat, total: nat): nat
    requires total > 0
  {
    NonNegativeProduct(remainder, weight);
    remainder * weight / total
  }

  function Fraction(weight: nat, remainder: nat, total: nat): nat
    requires total > 0
  {
    remainder * weight % total
  }

  lemma NonNegativeProduct(a: nat, b: nat)
    ensures a * b >= 0
  {
  }

  /** The two parts make up the share. */
  lemma ShareParts(weight: nat, remainder: nat, total: nat)
    requires total > 0
    ensures remainder * weight == total * Whole(weight, remainder, total) + Fraction(weight, remainder, total)
    ensures Fraction(weight, remainder, total) < total
  {
  }

  function Wholes(weights: map<Domain, nat>, remainder: nat, total: nat): map<Domain, nat>
    requires total > 0
  {
    map d | d in weights :: Whole(weights[d], remainder, total)
  }

  function Fractions(weights: map<Domain, nat>, remainder: nat, total: nat): map<Domain, nat>
    requires total > 0
  {
    map d | d in weights :: Fraction(weights[d], remainder, total)
  }

  /** The sort key: larger fraction first, then the name. */
  predicate Before(f: map<Domain, nat>, d: Domain, e: Domain)
    requires d in f && e in f
  {
    f[d] > f[e] || (f[d] == f[e] && d < e)
  }

  function Insert(d: Domain, s: seq<Domain>, f: map<Domain, nat>): (r: seq<Domain>)
    requires d in f && Covers(f, s)
    ensures multiset(r) == multiset{d} + multiset(s)
  {
    if s == [] then [d]
    else if Before(f, s[0], d) then
      assert s == [s[0]] + s[1..];
      [s[0]] + Insert(d, s[1..], f)
    else [d] + s
  }

  /** `sorted(domains, key=...)`. */
  function Order(s: seq<Domain>, f: map<Domain, nat>): (r: seq<Domain>)
    requires Covers(f, s)
    ensures multiset(r) == multiset(s)
  {
    if s == [] then []
    else
      assert s == [s[0]] + s[1..];
      var rest := Order(s[1..], f);
      SameMembers(rest, s[1..]);
      Insert(s[0], rest, f)
  }

  lemma SameMembers<T>(a: seq<T>, b: seq<T>)
    requires multiset(a) == multiset(b)
    ensures forall x :: x in a <==> x in b
    ensures |a| == |b|
  {
    forall x ensures x in a <==> x in b {
      assert x in a <==> x in multiset(a);
      assert x in b <==> x in multiset(b);
    }
    assert |multiset(a)| == |a| && |multiset(b)| == |b|;
  }

  /** One more for each listed domain, one after the other. */
  function Bumped(quotas: map<Domain, nat>, s: seq<Domain>): (r: map<Domain, nat>)
    requires Covers(quotas, s)
    ensures r.Keys == quotas.Keys
  {
    if s == [] then quotas
    else
      var k := |s| - 1;
      var q := Bumped(quotas, s[..k]);
      q[s[k] := q[s[k]] + 1]
  }

  /** The floor plus the whole part of every share. */
  function Base(s: seq<Domain>, floor: nat, wholes: map<Domain, nat>): map<Domain, nat>
    requires Covers(wholes, s)
  {
    map d | d in s :: floor + wholes[d]
  }

  function Floor(target: int, n: nat, minimum: Option<int>): nat
    requires n > 0
  {
    var chosen := if minimum.Some? then minimum.value else if target >= n then Max(1, target / (2 * n)) else 0;
    Max(0, chosen)
  }

  /** What the whole shares leave over. */
  function Leftover(s: seq<Domain>, remainder: nat, weights: map<Domain, nat>): (r: nat)
    requires Covers(weights, s) && Total(s, weights) > 0
    ensures r < |s|
  {
    LeftoverFits(s, weights, remainder);
    remainder - Total(s, Wholes(weights, remainder, Total(s, weights)))
  }

  /** The domains that get one more than their whole share. */
  function Lucky(s: seq<Domain>, remainder: nat, weights: map<Domain, nat>): seq<Domain>
    requires weights.Keys == Elems(s) && Total(s, weights) > 0
  {
    var order := Order(s, Fractions(weights, remainder, Total(s, weights)));
    SameMembers(order, s);
    order[..Leftover(s, remainder, weights)]
  }

  /** The quotas of one weighting: base shares, then one more for the largest fractions. */
  function Shares(s: seq<Domain>, floor: nat, remainder: nat, weights: map<Domain, nat>): map<Domain, nat>
    requires weights.Keys == Elems(s) && Total(s, weights) > 0
  {
    LuckyAreMembers(s, remainder, weights);
    Bumped(Base(s, floor, Wholes(weights, remainder, Total(s, weights))), Lucky(s, remainder, weights))
  }

  lemma LuckyAreMembers(s: seq<Domain>, remainder: nat, weights: map<Domain, nat>)
    requires weights.Keys == Elems(s) && Total(s, weights) > 0
    ensures forall d :: d in Lucky(s, remainder, weights) ==> d in s
    ensures |Lucky(s, remainder, weights)| == Leftover(s, remainder, weights)
  {
    hide Total, Order, Leftover;
    SameMembers(Order(s, Fractions(weights, remainder, Total(s, weights))), s);
  }

  lemma WeightsFit(s: seq<Domain>, capacities: map<Domain, int>)
    requires s != []
    ensures var w := Weights(s, capacities); w.Keys == Elems(s) && Total(s, w) > 0
  {
    if Total(s, Clamped(s, capacities)) == 0 { ConstantTotal(s, s, 1); }
  }

  lemma {:induction false} ConstantTotal(s: seq<Domain>, t: seq<Domain>, v: nat)
    requires forall d :: d in t ==> d in s
    ensures Total(t, Constant(s, v)) == |t| * v
  {
    if t != [] { ConstantTotal(s, t[..|t| - 1], v); }
  }

  /** Dividing every share by the total loses exactly the fractions. */
  lemma {:induction false} SplitTotal(s: seq<Domain>, weights: map<Domain, nat>, remainder: nat, total: nat)
    requires Covers(weights, s) && total > 0
    ensures remainder * Total(s, weights)
            == total * Total(s, Wholes(weights, remainder, total)) + Total(s, Fractions(weights, remainder, total))
  {
    hide Whole, Fraction;
    if s != [] {
      var k := |s| - 1;
      SplitTotal(s[..k], weights, remainder, total);
      ShareParts(weights[s[k]], remainder, total);
      Distribute(remainder, Total(s[..k], weights), weights[s[k]]);
      Distribute(total, Total(s[..k], Wholes(weights, remainder, total)), Whole(weights[s[k]], remainder, total));
    }
  }

  lemma Distribute(a: int, b: int, c: int)
    ensures a * (b + c) == a * b + a * c
  {
  }

  lemma {:induction false} FractionsBelow(s: seq<Domain>, f: map<Domain, nat>, total: nat)
    requires Covers(f, s) && forall d :: d in s ==> f[d] < total
    ensures Total(s, f) <= |s| * total
    ensures s != [] ==> Total(s, f) < |s| * total
  {
    if s != [] {
      FractionsBelow(s[..|s| - 1], f, total);
      assert |s| * total == (|s| - 1) * total + total;
    }
  }

  lemma LeftoverFits(s: seq<Domain>, weights: map<Domain, nat>, remainder: nat)
    requires Covers(weights, s) && Total(s, weights) > 0
    ensures var total := Total(s, weights);
            var leftover := remainder - Total(s, Wholes(weights, remainder, total));
            0 <= leftover < |s|
            && leftover * total == Total(s, Fractions(weights, remainder, total))
  {
    hide Total, Whole, Fraction;
    var total := Total(s, weights);
    var fractions := Fractions(weights, remainder, total);
    var whole := Total(s, Wholes(weights, remainder, total));
    SplitTotal(s, weights, remainder, total);
    PositiveTotal(s, weights);
    forall d | d in s ensures fractions[d] < total { ShareParts(weights[d], remainder, total); }
    FractionsBelow(s, fractions, total);
    Quotient(remainder, whole, total, |s|, Total(s, fractions));
  }

  lemma Quotient(remainder: nat, whole: nat, total: nat, n: nat, fractions: nat)
    requires remainder * total == total * whole + fractions && fractions < n * total && total > 0
    ensures 0 <= remainder - whole < n && (remainder - whole) * total == fractions
  {
    Distribute(total, whole, remainder - whole);
    var leftover := remainder - whole;
    assert leftover * total == fractions;
    if leftover < 0 { NegativeProduct(leftover, total); }
    if leftover >= n { ProductOrder(n, leftover, total); }
  }

  lemma PositiveTotal(s: seq<Domain>, f: map<Domain, nat>)
    requires Covers(f, s) && Total(s, f) > 0
    ensures s != []
  {
  }

  lemma NegativeProduct(a: int, b: int)
    requires a < 0 < b
    ensures a * b < 0
  {
  }

  lemma ProductOrder(a: int, b: int, c: int)
    requires a <= b && 0 <= c
    ensures a * c <= b * c
  {
  }

  // ---------------------------------------------------------------- the shares

  ghost predicate Sorted(s: seq<Domain>, f: map<Domain, nat>)
    requires Covers(f, s)
  {
    forall i, j :: 0 <= i < j < |s| ==> Before(f, s[i], s[j])
  }

  lemma InsertMembers(d: Domain, s: seq<Domain>, f: map<Domain, nat>)
    requires d in f && Covers(f, s)
    ensures forall x :: x in Insert(d, s, f) <==> x == d || x in s
  {
    hide Insert, Before;
    assert multiset([d] + s) == multiset{d} + multiset(s);
    SameMembers(Insert(d, s, f), [d] + s);
  }

  lemma {:induction false} InsertSorts(d: Domain, s: seq<Domain>, f: map<Domain, nat>)
    requires d in f && Covers(f, s) && Sorted(s, f) && d !in s
    ensures Covers(f, Insert(d, s, f)) && Sorted(Insert(d, s, f), f)
  {
    InsertMembers(d, s, f);
    if s != [] && Before(f, s[0], d) {
      InsertSorts(d, s[1..], f);
      InsertMembers(d, s[1..], f);
      var rest := Insert(d, s[1..], f);
      forall j | 0 <= j < |rest| ensures Before(f, s[0], rest[j]) {
        assert rest[j] == d || rest[j] in s[1..];
      }
    } else {
      forall j | 0 <= j < |s| ensures Before(f, d, s[j]) {
        if j > 0 { assert Before(f, s[0], s[j]); }
      }
    }
  }

  lemma {:induction false} OrderSorts(s: seq<Domain>, f: map<Domain, nat>)
    requires Covers(f, s) && Distinct(s)
    ensures Covers(f, Order(s, f)) && Sorted(Order(s, f), f)
    ensures forall d :: d in Order(s, f) <==> d in s
    ensures |Order(s, f)| == |s|
  {
    SameMembers(Order(s, f), s);
    if s != [] {
      OrderSorts(s[1..], f);
      InsertSorts(s[0], Order(s[1..], f), f);
    }
  }

  lemma {:induction false} TotalSplit(a: seq<Domain>, b: seq<Domain>, f: map<Domain, nat>)
    requires Covers(f, a) && Covers(f, b)
    ensures Covers(f, a + b) && Total(a + b, f) == Total(a, f) + Total(b, f)
  {
    if b == [] {
      assert a + b == a;
    } else {
      var k := |b| - 1;
      TotalSplit(a, b[..k], f);
      assert (a + b)[..|a + b| - 1] == a + b[..k];
    }
  }

  lemma WithoutOne<T>(s: seq<T>, i: nat)
    requires i < |s|
    ensures multiset(s[..i] + s[i + 1..]) == multiset(s) - multiset{s[i]}
  {
    assert s == s[..i] + [s[i]] + s[i + 1..];
  }

  lemma TotalWithout(s: seq<Domain>, i: nat, f: map<Domain, nat>)
    requires Covers(f, s) && i < |s|
    ensures Covers(f, s[..i] + s[i + 1..])
    ensures Total(s, f) == Total(s[..i] + s[i + 1..], f) + f[s[i]]
  {
    hide Total;
    TotalSplit(s[..i], s[i + 1..], f);
    assert s == s[..i + 1] + s[i + 1..];
    TotalSplit(s[..i + 1], s[i + 1..], f);
    NextTotal(s, i, f);
  }

  /** The total does not depend on the order of the list. */
  lemma {:induction false} TotalOfPermutation(a: seq<Domain>, b: seq<Domain>, f: map<Domain, nat>)
    requires Covers(f, a) && Covers(f, b) && multiset(a) == multiset(b)
    ensures Total(a, f) == Total(b, f)
    decreases |a|
  {
    hide Total;
    SameMembers(a, b);
    if a == [] {
      assert a == b;
    } else {
      assert a[0] in b;
      var i :| 0 <= i < |b| && b[i] == a[0];
      WithoutOne(a, 0);
      WithoutOne(b, i);
      TotalWithout(a, 0, f);
      TotalWithout(b, i, f);
      TotalOfPermutation(a[..0] + a[1..], b[..i] + b[i + 1..], f);
    }
  }

  lemma {:induction false} BumpedAt(quotas: map<Domain, nat>, s: seq<Domain>, d: Domain)
    requires Covers(quotas, s) && Distinct(s) && d in quotas
    ensures Bumped(quotas, s)[d] == quotas[d] + if d in s then 1 else 0
  {
    if s != [] {
      var k := |s| - 1;
      BumpedAt(quotas, s[..k], d);
      assert s == s[..k] + [s[k]];
      assert s[k] !in s[..k];
    }
  }

  lemma {:induction false} TotalAfterOneMore(s: seq<Domain>, f: map<Domain, nat>, d: Domain)
    requires Covers(f, s) && d in f && Distinct(s)
    ensures Total(s, f[d := f[d] + 1]) == Total(s, f) + if d in s then 1 else 0
  {
    if s != [] {
      var k := |s| - 1;
      TotalAfterOneMore(s[..k], f, d);
      assert s == s[..k] + [s[k]];
      assert s[k] !in s[..k];
    }
  }

  lemma {:induction false} TotalBumped(s: seq<Domain>, quotas: map<Domain, nat>, b: seq<Domain>)
    requires Covers(quotas, s) && Distinct(s) && forall d :: d in b ==> d in s
    ensures Total(s, Bumped(quotas, b)) == Total(s, quotas) + |b|
  {
    if b != [] {
      var k := |b| - 1;
      TotalBumped(s, quotas, b[..k]);
      TotalAfterOneMore(s, Bumped(quotas, b[..k]), b[k]);
    }
  }

  lemma {:induction false} TotalBase(s: seq<Domain>, t: seq<Domain>, floor: nat, wholes: map<Domain, nat>)
    requires Covers(wholes, s) && forall d :: d in t ==> d in s
    ensures Total(t, Base(s, floor, wholes)) == floor * |t| + Total(t, wholes)
  {
    if t != [] {
      TotalBase(s, t[..|t| - 1], floor, wholes);
      Distribute(floor, |t| - 1, 1);
    }
  }

  /** The quotas add up to the floors and the whole remainder. */
  lemma SharesTotal(s: seq<Domain>, floor: nat, remainder: nat, weights: map<Domain, nat>)
    requires weights.Keys == Elems(s) && Total(s, weights) > 0 && Distinct(s)
    ensures Covers(Shares(s, floor, remainder, weights), s)
    ensures Total(s, Shares(s, floor, remainder, weights)) == floor * |s| + remainder
  {
    hide Total, Order, Lucky;
    var wholes := Wholes(weights, remainder, Total(s, weights));
    LuckyAreMembers(s, remainder, weights);
    TotalBase(s, s, floor, wholes);
    TotalBumped(s, Base(s, floor, wholes), Lucky(s, remainder, weights));
  }

  lemma LuckyDistinct(s: seq<Domain>, remainder: nat, weights: map<Domain, nat>)
    requires weights.Keys == Elems(s) && Total(s, weights) > 0 && Distinct(s)
    ensures Distinct(Lucky(s, remainder, weights))
  {
    hide Total, Order, Leftover, Whole, Fraction;
    var f := Fractions(weights, remainder, Total(s, weights));
    OrderSorts(s, f);
    SortedDistinct(Order(s, f), f);
  }

  lemma ShareOf(s: seq<Domain>, floor: nat, remainder: nat, weights: map<Domain, nat>, d: Domain)
    requires weights.Keys == Elems(s) && Total(s, weights) > 0 && Distinct(s) && d in s
    ensures d in Shares(s, floor, remainder, weights)
    ensures Shares(s, floor, remainder, weights)[d]
            == floor + Whole(weights[d], remainder, Total(s, weights)) + if d in Lucky(s, remainder, weights) then 1
            else 0
  {
    hide Total, Lucky, Whole;
    LuckyAreMembers(s, remainder, weights);
    LuckyDistinct(s, remainder, weights);
    BumpedAt(Base(s, floor, Wholes(weights, remainder, Total(s, weights))), Lucky(s, remainder, weights), d);
  }

  lemma SortedDistinct(s: seq<Domain>, f: map<Domain, nat>)
    requires Covers(f, s) && Sorted(s, f)
    ensures Distinct(s)
  {
  }

  /** Whoever comes before a lucky domain is lucky. */
  lemma LuckyFirst(s: seq<Domain>, remainder: nat, weights: map<Domain, nat>, d: Domain, e: Domain)
    requires weights.Keys == Elems(s) && Total(s, weights) > 0 && Distinct(s) && d in s && e in s
    requires Before(Fractions(weights, remainder, Total(s, weights)), d, e) && e in Lucky(s, remainder, weights)
    ensures d in Lucky(s, remainder, weights)
  {
    hide Total, Order, Whole, Fraction, Leftover;
    var f := Fractions(weights, remainder, Total(s, weights));
    var order := Order(s, f);
    OrderSorts(s, f);
    var lucky := Lucky(s, remainder, weights);
    var i :| 0 <= i < |order| && order[i] == d;
    var j :| 0 <= j < |lucky| && lucky[j] == e;
    if i >= |lucky| { assert false; }
    assert lucky[i] == d;
  }

  lemma LuckyIndex(s: seq<Domain>, remainder: nat, weights: map<Domain, nat>, d: Domain) returns (i: nat)
    requires weights.Keys == Elems(s) && Total(s, weights) > 0 && Distinct(s) && d in Lucky(s, remainder, weights)
    ensures var total := Total(s, weights);
            var f := Fractions(weights, remainder, total);
            && i < |Order(s, f)| && Order(s, f)[i] == d
            && (i + 1) * total <= Total(s, f)
  {
    hide Total, Order, Whole, Fraction, Leftover;
    LuckyAreMembers(s, remainder, weights);
    var lucky := Lucky(s, remainder, weights);
    i :| 0 <= i < |lucky| && lucky[i] == d;
    SameMembers(Order(s, Fractions(weights, remainder, Total(s, weights))), s);
    LeftoverTotal(s, remainder, weights);
    ProductOrder(i + 1, |lucky|, Total(s, weights));
  }

  lemma LeftoverTotal(s: seq<Domain>, remainder: nat, weights: map<Domain, nat>)
    requires Covers(weights, s) && Total(s, weights) > 0
    ensures Leftover(s, remainder, weights) * Total(s, weights)
            == Total(s, Fractions(weights, remainder, Total(s, weights)))
  {
    hide Total, Whole, Fraction;
    LeftoverFits(s, weights, remainder);
  }

  /** Only a domain whose exact share is not whole gets one more. */
  lemma LuckyHasFraction(s: seq<Domain>, remainder: nat, weights: map<Domain, nat>, d: Domain)
    requires weights.Keys == Elems(s) && Total(s, weights) > 0 && Distinct(s) && d in s
    requires d in Lucky(s, remainder, weights)
    ensures Fraction(weights[d], remainder, Total(s, weights)) > 0
  {
    hide Total, Order, Whole, Fraction, Lucky;
    var total := Total(s, weights);
    var f := Fractions(weights, remainder, total);
    OrderSorts(s, f);
    if f[d] == 0 {
      var i := LuckyIndex(s, remainder, weights, d);
      TotalOfPermutation(Order(s, f), s, f);
      forall e | e in Order(s, f) ensures f[e] < total { ShareParts(weights[e], remainder, total); }
      FractionsBeforeZero(Order(s, f), f, i, total);
      assert false;
    }
  }

  /** Largest first, the fractions before the first zero are all of them. */
  lemma FractionsBeforeZero(order: seq<Domain>, f: map<Domain, nat>, i: nat, total: nat)
    requires Covers(f, order) && Sorted(order, f) && i < |order| && f[order[i]] == 0
    requires forall d :: d in order ==> f[d] < total
    ensures Total(order, f) < (i + 1) * total
  {
    hide Total;
    forall j | i <= j < |order| ensures f[order[j]] == 0 {
      if i < j { assert Before(f, order[i], order[j]); }
    }
    assert order == order[..i] + order[i..];
    TotalSplit(order[..i], order[i..], f);
    ZeroTotal(order[i..], f);
    FractionsBelow(order[..i], f, total);
    Distribute(total, i, 1);
    assert total > 0;
  }

  lemma {:induction false} ZeroTotal(s: seq<Domain>, f: map<Domain, nat>)
    requires Covers(f, s) && forall d :: d in s ==> f[d] == 0
    ensures Total(s, f) == 0
  {
    if s != [] { ZeroTotal(s[..|s| - 1], f); }
  }

  // ---------------------------------------------------------------- properties of the shares

  /** Strictly less than one away from the exact share, weight * remainder / total; equal to it when
      it is whole. */
  predicate NearExact(above: int, weight: nat, remainder: nat, total: nat)
    requires total > 0
  {
    && 0 - total < above * total - remainder * weight < total
    && (remainder * weight % total == 0 ==> above * total == remainder * weight)
  }

  lemma RoundedIsNear(weight: nat, remainder: nat, total: nat, bonus: nat)
    requires total > 0 && bonus <= 1 && (bonus == 1 ==> Fraction(weight, remainder, total) > 0)
    ensures NearExact(Whole(weight, remainder, total) + bonus, weight, remainder, total)
  {
    hide Whole;
    var whole := Whole(weight, remainder, total);
    ShareParts(weight, remainder, total);
    Distribute(total, whole, bonus);
  }

  /** Each domain gets at least the floor, and what it gets above the floor is near its exact share. */
  lemma WithinOneOfExact(s: seq<Domain>, floor: nat, remainder: nat, weights: map<Domain, nat>, d: Domain)
    requires weights.Keys == Elems(s) && Total(s, weights) > 0 && Distinct(s) && d in s
    ensures d in Shares(s, floor, remainder, weights)
    ensures Shares(s, floor, remainder, weights)[d] >= floor
    ensures NearExact(Shares(s, floor, remainder, weights)[d] - floor, weights[d], remainder, Total(s, weights))
  {
    hide Shares, Lucky, Whole, Fraction, Total, NearExact;
    var total := Total(s, weights);
    ShareOf(s, floor, remainder, weights, d);
    var bonus := if d in Lucky(s, remainder, weights) then 1 else 0;
    if bonus == 1 { LuckyHasFraction(s, remainder, weights, d); }
    RoundedIsNear(weights[d], remainder, total, bonus);
  }

  lemma LargerShare(a: nat, b: nat, remainder: nat, total: nat)
    requires total > 0 && remainder > 0 && a < b
    ensures Whole(a, remainder, total) <= Whole(b, remainder, total)
    ensures Whole(a, remainder, total) == Whole(b, remainder, total) ==>
              Fraction(a, remainder, total) < Fraction(b, remainder, total)
  {
    hide Whole, Fraction;
    ShareParts(a, remainder, total);
    ShareParts(b, remainder, total);
    var p := Whole(a, remainder, total);
    var q := Whole(b, remainder, total);
    Distribute(remainder, a, b - a);
    StrictProduct(remainder, b - a);
    if q < p {
      ProductOrder(q + 1, p, total);
      Distribute(total, q, 1);
    }
  }

  lemma StrictProduct(a: int, b: int)
    requires a > 0 && b > 0
    ensures a * b > 0
  {
  }

  /** A strictly larger weight never gets fewer. */
  lemma LargerWeightNeverFewer(s: seq<Domain>, floor: nat, remainder: nat, weights: map<Domain, nat>, d: Domain,
                               e: Domain)
    requires weights.Keys == Elems(s) && Total(s, weights) > 0 && Distinct(s) && d in s && e in s
    requires weights[d] < weights[e]
    ensures d in Shares(s, floor, remainder, weights) && e in Shares(s, floor, remainder, weights)
    ensures Shares(s, floor, remainder, weights)[d] <= Shares(s, floor, remainder, weights)[e]
  {
    hide Shares, Lucky, Whole, Fraction;
    var total := Total(s, weights);
    ShareOf(s, floor, remainder, weights, d);
    ShareOf(s, floor, remainder, weights, e);
    if remainder > 0 {
      LargerShare(weights[d], weights[e], remainder, total);
      if d in Lucky(s, remainder, weights) &&
         Whole(weights[d], remainder, total) == Whole(weights[e], remainder, total) {
        LuckyFirst(s, remainder, weights, e, d);
      }
    } else {
      NothingToShare(s, weights, d);
      NothingToShare(s, weights, e);
    }
  }

  lemma NothingToShare(s: seq<Domain>, weights: map<Domain, nat>, d: Domain)
    requires weights.Keys == Elems(s) && Total(s, weights) > 0 && Distinct(s) && d in s
    ensures Whole(weights[d], 0, Total(s, weights)) == 0 && d !in Lucky(s, 0, weights)
  {
    hide Total, Lucky;
    ZeroShare(weights[d], Total(s, weights));
    if d in Lucky(s, 0, weights) { LuckyHasFraction(s, 0, weights, d); }
  }

  lemma ZeroShare(weight: nat, total: nat)
    requires total > 0
    ensures Whole(weight, 0, total) == 0 && Fraction(weight, 0, total) == 0
    ensures Whole(0, weight, total) == 0 && Fraction(0, weight, total) == 0
  {
    assert 0 * weight == 0 && weight * 0 == 0;
  }

  // ---------------------------------------------------------------- the allocation

  /** `capacity_weighted_domain_quotas` as a function of its inputs. */
  function Allocate(target: int, domains: seq<Domain>, capacities: map<Domain, int>, minimum: Option<int>): Allocation {
    if domains == [] then Allocated(map[])
    else if target < 0 then Refused(NegativeTarget)
    else if !Distinct(domains) then Refused(DuplicateDomains)
    else
      var floor := Floor(target, |domains|, minimum);
      if floor * |domains| > target then Refused(FloorExceedsTarget)
      else
        WeightsFit(domains, capacities);
        Allocated(Shares(domains, floor, target - floor * |domains|, Weights(domains, capacities)))
  }

  method CapacityWeightedQuotas(target: int, domains: seq<Domain>, capacities: map<Domain, int>, minimum: Option<int>)
    returns (r: Allocation)
    ensures r == Allocate(target, domains, capacities, minimum)
  {
    hide Total, Shares;
    if domains == [] { return Allocated(map[]); }
    if target < 0 { return Refused(NegativeTarget); }
    if !Distinct(domains) { return Refused(DuplicateDomains); }
    var floor := Floor(target, |domains|, minimum);
    if floor * |domains| > target { return Refused(FloorExceedsTarget); }
    var remainder := target - floor * |domains|;
    var weights := Weights(domains, capacities);
    WeightsFit(domains, capacities);
    if remainder == 0 {
      NothingAbove(domains, floor, weights);
      return Allocated(Constant(domains, floor));
    }
    var quotas := DistributeRemainder(domains, floor, remainder, weights);
    r := Allocated(quotas);
  }

  /** The two loops: whole shares for everyone, then one more down the list. */
  method DistributeRemainder(domains: seq<Domain>, floor: nat, remainder: nat, weights: map<Domain, nat>)
    returns (quotas: map<Domain, nat>)
    requires weights.Keys == Elems(domains) && Total(domains, weights) > 0
    requires Distinct(domains)
    ensures quotas == Shares(domains, floor, remainder, weights)
  {
    hide Total, Order, Whole, Fraction;
    var total := Total(domains, weights);
    var wholes := Wholes(weights, remainder, total);
    var handedOut;
    quotas, handedOut := AddWholes(domains, Constant(domains, floor), floor, wholes);
    LeftoverFits(domains, weights, remainder);
    var order := Order(domains, Fractions(weights, remainder, total));
    SameMembers(order, domains);
    quotas := AddOnes(order[..remainder - handedOut], quotas);
  }

  method AddWholes(domains: seq<Domain>, start: map<Domain, nat>, floor: nat, wholes: map<Domain, nat>)
    returns (quotas: map<Domain, nat>, handedOut: nat)
    requires Distinct(domains) && Covers(wholes, domains) && start == Constant(domains, floor)
    ensures quotas == Base(domains, floor, wholes)
    ensures handedOut == Total(domains, wholes)
  {
    hide Total;
    quotas := start;
    handedOut := 0;
    EmptyTotal(wholes);
    assert domains[..0] == [];
    var i := 0;
    while i < |domains|
      invariant 0 <= i <= |domains|
      invariant quotas.Keys == Elems(domains) && handedOut == Total(domains[..i], wholes)
      invariant forall k :: 0 <= k < |domains| ==> quotas[domains[k]] == floor + if k < i then wholes[domains[k]] else 0
    {
      NextTotal(domains, i, wholes);
      quotas := quotas[domains[i] := quotas[domains[i]] + wholes[domains[i]]];
      handedOut := handedOut + wholes[domains[i]];
      i := i + 1;
    }
    assert domains[..i] == domains;
  }

  method AddOnes(winners: seq<Domain>, start: map<Domain, nat>) returns (quotas: map<Domain, nat>)
    requires Covers(start, winners)
    ensures quotas == Bumped(start, winners)
  {
    quotas := start;
    var i := 0;
    while i < |winners|
      invariant 0 <= i <= |winners|
      invariant quotas == Bumped(start, winners[..i])
    {
      assert winners[..i + 1][..i] == winners[..i];
      quotas := quotas[winners[i] := quotas[winners[i]] + 1];
      i := i + 1;
    }
    assert winners[..i] == winners;
  }

  lemma EmptyTotal(f: map<Domain, nat>)
    ensures Total([], f) == 0
  {
  }

  lemma NextTotal(s: seq<Domain>, i: nat, f: map<Domain, nat>)
    requires Covers(f, s) && i < |s|
    ensures Total(s[..i + 1], f) == Total(s[..i], f) + f[s[i]]
  {
    assert s[..i + 1][..i] == s[..i];
  }

  lemma NothingAbove(s: seq<Domain>, floor: nat, weights: map<Domain, nat>)
    requires weights.Keys == Elems(s) && Total(s, weights) > 0 && Distinct(s)
    ensures Shares(s, floor, 0, weights) == Constant(s, floor)
  {
    hide Total, Lucky;
    SharesKeys(s, floor, 0, weights);
    forall d | d in s ensures d in Shares(s, floor, 0, weights) && Shares(s, floor, 0, weights)[d] == floor {
      hide Shares;
      ShareOf(s, floor, 0, weights, d);
      NothingToShare(s, weights, d);
    }
  }

  lemma SharesKeys(s: seq<Domain>, floor: nat, remainder: nat, weights: map<Domain, nat>)
    requires weights.Keys == Elems(s) && Total(s, weights) > 0
    ensures Shares(s, floor, remainder, weights).Keys == Elems(s)
  {
    hide Total, Order;
  }

  // ---------------------------------------------------------------- properties of the allocation

  /** Every accepted request hands out the whole target, at least the floor to each domain, and above
      the floor a near-exact share of what the floors leave. */
  lemma AllocationIsProportional(target: int, domains: seq<Domain>, capacities: map<Domain, int>, minimum: Option<int>)
    requires domains != [] && Allocate(target, domains, capacities, minimum).Allocated?
    ensures var quotas := Allocate(target, domains, capacities, minimum).quotas;
            quotas.Keys == Elems(domains) && Total(domains, quotas) == target
    ensures var quotas := Allocate(target, domains, capacities, minimum).quotas;
            var floor := Floor(target, |domains|, minimum);
            var weights := Weights(domains, capacities);
            forall d :: d in domains ==>
              && Total(domains, weights) > 0
              && quotas[d] >= floor
              && NearExact(quotas[d] - floor, weights[d], target - floor * |domains|, Total(domains, weights))
  {
    hide Total, Shares, Floor, NearExact, Weights;
    var floor := Floor(target, |domains|, minimum);
    var remainder := target - floor * |domains|;
    var weights := Weights(domains, capacities);
    WeightsFit(domains, capacities);
    SharesKeys(domains, floor, remainder, weights);
    SharesTotal(domains, floor, remainder, weights);
    forall d | d in domains
      ensures var q := Shares(domains, floor, remainder, weights)[d];
              q >= floor && NearExact(q - floor, weights[d], remainder, Total(domains, weights))
    {
      WithinOneOfExact(domains, floor, remainder, weights, d);
    }
  }

  /** When some domain has capacity, a domain without any gets exactly the floor. */
  lemma NoCapacityGetsFloor(target: int, domains: seq<Domain>, capacities: map<Domain, int>, minimum: Option<int>,
                            d: Domain, e: Domain)
    requires d in domains && e in domains && Allocate(target, domains, capacities, minimum).Allocated?
    requires Capacity(capacities, d) <= 0 < Capacity(capacities, e)
    ensures d in Allocate(target, domains, capacities, minimum).quotas
    ensures Allocate(target, domains, capacities, minimum).quotas[d] == Floor(target, |domains|, minimum)
  {
    hide Total, Shares, Lucky, Whole, Fraction;
    var floor := Floor(target, |domains|, minimum);
    var remainder := target - floor * |domains|;
    var weights := Weights(domains, capacities);
    MemberOfTotal(domains, Clamped(domains, capacities), e);
    WeightsFit(domains, capacities);
    ShareOf(domains, floor, remainder, weights, d);
    ZeroShare(remainder, Total(domains, weights));
    if d in Lucky(domains, remainder, weights) { LuckyHasFraction(domains, remainder, weights, d); }
  }

  lemma {:induction false} MemberOfTotal(s: seq<Domain>, f: map<Domain, nat>, d: Domain)
    requires Covers(f, s) && d in s
    ensures Total(s, f) >= f[d]
  {
    var k := |s| - 1;
    if s[k] != d { MemberOfTotal(s[..k], f, d); }
  }

  /** A strictly larger capacity never gets fewer. */
  ghost predicate LargerNeverFewer(target: int, domains: seq<Domain>, capacities: map<Domain, int>,
                                   minimum: Option<int>) {
    var r := Allocate(target, domains, capacities, minimum);
    r.Allocated? ==>
      forall d, e | d in domains && e in domains && Capacity(capacities, d) < Capacity(capacities, e) ::
        d in r.quotas && e in r.quotas && r.quotas[d] <= r.quotas[e]
  }

  /** Some domain has capacity, or no domain has less capacity than one named after it. */
  ghost predicate CapacitiesAgree(domains: seq<Domain>, capacities: map<Domain, int>) {
    || (exists d :: d in domains && Capacity(capacities, d) > 0)
    || (forall d, e :: d in domains && e in domains && d < e ==> Capacity(capacities, d) >= Capacity(capacities, e))
  }

  /** For every target and floor a strictly larger capacity never gets fewer, exactly when the
      capacities agree: negative ones tie with zero, and ties go by name. */
  lemma LargerNeverFewerExactly(domains: seq<Domain>, capacities: map<Domain, int>)
    requires Distinct(domains)
    ensures (forall target, minimum :: LargerNeverFewer(target, domains, capacities, minimum)) <==>
              CapacitiesAgree(domains, capacities)
  {
    hide LargerNeverFewer, Allocate;
    if CapacitiesAgree(domains, capacities) {
      forall target, minimum ensures LargerNeverFewer(target, domains, capacities, minimum) {
        AgreementSuffices(target, domains, capacities, minimum);
      }
    } else {
      var d, e :| d in domains && e in domains && d < e && Capacity(capacities, d) < Capacity(capacities, e);
      var target := DisagreementShows(domains, capacities, d, e);
      assert !LargerNeverFewer(target, domains, capacities, Some(0));
    }
  }

  lemma AgreementSuffices(target: int, domains: seq<Domain>, capacities: map<Domain, int>, minimum: Option<int>)
    requires Distinct(domains) && CapacitiesAgree(domains, capacities)
    ensures LargerNeverFewer(target, domains, capacities, minimum)
  {
    hide Total, Shares;
    var r := Allocate(target, domains, capacities, minimum);
    if r.Allocated? && domains != [] {
      var floor := Floor(target, |domains|, minimum);
      var remainder := target - floor * |domains|;
      var weights := Weights(domains, capacities);
      WeightsFit(domains, capacities);
      SharesKeys(domains, floor, remainder, weights);
      forall d, e | d in domains && e in domains && Capacity(capacities, d) < Capacity(capacities, e)
        ensures d in r.quotas && e in r.quotas && r.quotas[d] <= r.quotas[e]
      {
        if Total(domains, Clamped(domains, capacities)) == 0 {
          NothingClamped(domains, capacities);
          assert e < d;
          EqualWeightsByName(domains, floor, remainder, weights, e, d);
        } else if weights[d] < weights[e] {
          LargerWeightNeverFewer(domains, floor, remainder, weights, d, e);
        } else {
          var x := SomeCapacity(domains, capacities);
          NoCapacityGetsFloor(target, domains, capacities, minimum, d, x);
          NoCapacityGetsFloor(target, domains, capacities, minimum, e, x);
        }
      }
    }
  }

  lemma NothingClamped(s: seq<Domain>, capacities: map<Domain, int>)
    requires Total(s, Clamped(s, capacities)) == 0
    ensures forall d :: d in s ==> Capacity(capacities, d) <= 0
  {
    forall d | d in s ensures Capacity(capacities, d) <= 0 { MemberOfTotal(s, Clamped(s, capacities), d); }
  }

  lemma SomeCapacity(s: seq<Domain>, capacities: map<Domain, int>) returns (d: Domain)
    requires Total(s, Clamped(s, capacities)) > 0
    ensures d in s && Capacity(capacities, d) > 0
  {
    if forall x :: x in s ==> Capacity(capacities, x) <= 0 {
      ZeroTotal(s, Clamped(s, capacities));
    }
    d :| d in s && Capacity(capacities, d) > 0;
  }

  /** With equal weights an earlier name never gets fewer. */
  lemma EqualWeightsByName(s: seq<Domain>, floor: nat, remainder: nat, weights: map<Domain, nat>, d: Domain, e: Domain)
    requires weights.Keys == Elems(s) && Total(s, weights) > 0 && Distinct(s) && d in s && e in s
    requires d < e && weights[d] == weights[e]
    ensures d in Shares(s, floor, remainder, weights) && e in Shares(s, floor, remainder, weights)
    ensures Shares(s, floor, remainder, weights)[d] >= Shares(s, floor, remainder, weights)[e]
  {
    hide Total, Shares, Lucky, Whole, Fraction;
    ShareOf(s, floor, remainder, weights, d);
    ShareOf(s, floor, remainder, weights, e);
    if e in Lucky(s, remainder, weights) { LuckyFirst(s, remainder, weights, d, e); }
  }

  lemma {:induction false} SameKeyInsert(d: Domain, s: seq<Domain>, f: map<Domain, nat>, g: map<Domain, nat>)
    requires d in f && d in g && Covers(f, s) && Covers(g, s)
    requires forall x, y :: x in [d] + s && y in [d] + s ==> (Before(f, x, y) <==> Before(g, x, y))
    ensures Insert(d, s, f) == Insert(d, s, g)
  {
    if s != [] {
      assert s[0] in [d] + s && d in [d] + s;
      assert forall x :: x in [d] + s[1..] ==> x in [d] + s;
      if Before(f, s[0], d) { SameKeyInsert(d, s[1..], f, g); }
    }
  }

  /** Equal fractions are sorted by name, whatever they are. */
  lemma {:induction false} SameOrder(s: seq<Domain>, a: map<Domain, nat>, b: map<Domain, nat>)
    requires Covers(a, s) && Covers(b, s)
    requires forall x, y :: x in s && y in s ==> a[x] == a[y] && b[x] == b[y]
    ensures Order(s, a) == Order(s, b)
  {
    if s != [] {
      SameOrder(s[1..], a, b);
      var rest := Order(s[1..], a);
      SameMembers(rest, s[1..]);
      assert forall x :: x in [s[0]] + rest ==> x in s;
      SameKeyInsert(s[0], rest, a, b);
    }
  }

  /** A target that serves the earlier name and stops before the later one. */
  lemma DisagreementShows(domains: seq<Domain>, capacities: map<Domain, int>, d: Domain, e: Domain)
      returns (target: nat)
    requires Distinct(domains) && d in domains && e in domains && d < e
    requires forall x :: x in domains ==> Capacity(capacities, x) <= 0
    requires Capacity(capacities, d) < Capacity(capacities, e)
    ensures !LargerNeverFewer(target, domains, capacities, Some(0))
  {
    hide Total, Order, Shares, Lucky, Whole, Fraction, LargerNeverFewer;
    ZeroTotal(domains, Clamped(domains, capacities));
    target := CutBetween(domains, d, e);
    ConstantTotal(domains, domains, 1);
    LuckyAmongEquals(domains, target);
    ShareOf(domains, 0, target, Constant(domains, 1), d);
    ShareOf(domains, 0, target, Constant(domains, 1), e);
    FewerShown(target, domains, capacities, d, e);
  }

  lemma FewerShown(target: nat, domains: seq<Domain>, capacities: map<Domain, int>, d: Domain, e: Domain)
    requires Distinct(domains) && d in domains && e in domains && Capacity(capacities, d) < Capacity(capacities, e)
    requires Total(domains, Clamped(domains, capacities)) == 0 && Total(domains, Constant(domains, 1)) > 0
    requires var quotas := Shares(domains, 0, target, Constant(domains, 1));
             d in quotas && e in quotas && quotas[d] > quotas[e]
    ensures !LargerNeverFewer(target, domains, capacities, Some(0))
  {
    hide Total, Shares;
    assert Floor(target, |domains|, Some(0)) == 0;
  }

  /** Among equal weights, serving up to the earlier of two names leaves the later one out. */
  lemma CutBetween(domains: seq<Domain>, d: Domain, e: Domain) returns (cut: nat)
    requires Distinct(domains) && d in domains && e in domains && d < e
    ensures cut < |domains| && |Order(domains, Constant(domains, 1))| == |domains|
    ensures d in Order(domains, Constant(domains, 1))[..cut] && e !in Order(domains, Constant(domains, 1))[..cut]
  {
    hide Order;
    var ones := Constant(domains, 1);
    OrderSorts(domains, ones);
    var order := Order(domains, ones);
    var i :| 0 <= i < |order| && order[i] == d;
    var j :| 0 <= j < |order| && order[j] == e;
    if j < i { assert false; }
    SortedDistinct(order, ones);
    cut := i + 1;
    assert order[..cut][i] == d;
  }

  lemma LuckyAmongEquals(s: seq<Domain>, remainder: nat)
    requires remainder < |s|
    ensures var ones := Constant(s, 1);
            && Total(s, ones) == |s|
            && |Order(s, ones)| == |s|
            && Lucky(s, remainder, ones) == Order(s, ones)[..remainder]
            && forall d :: d in s ==> Whole(1, remainder, |s|) == 0
  {
    hide Order, Total;
    var ones := Constant(s, 1);
    ConstantTotal(s, s, 1);
    SmallShare(remainder, |s|);
    ZeroTotal(s, Wholes(ones, remainder, |s|));
    SameOrder(s, Fractions(ones, remainder, |s|), ones);
    SameMembers(Order(s, ones), s);
  }

  lemma SmallShare(remainder: nat, total: nat)
    requires remainder < total
    ensures Whole(1, remainder, total) == 0
  {
    assert remainder * 1 == remainder;
  }

  // ---------------------------------------------------------------- the quotas, of the capacities alone

  /** What every domain gets at least: the given minimum, if it is positive; or else half of an even share of the
      target, rounded down but at least one, and nothing when there are more domains than the target. */
  lemma FloorExactly(target: int, n: nat, minimum: Option<int>)
    requires n > 0
    ensures var floor := Floor(target, n, minimum);
            && (minimum.Some? ==> floor == if minimum.value > 0 then minimum.value else 0)
            && (minimum.None? && target < n ==> floor == 0)
            && (minimum.None? && target >= n ==>
                  floor >= 1 && (floor == 1 || 2 * n * floor <= target) && target < 2 * n * (floor + 1))
  {
    if minimum.None? && target >= n {
      var k := target / (2 * n);
      Divided(target, 2 * n, k);
      if k == 0 { assert 2 * n * 1 <= 2 * n * 2; }
    }
  }

  lemma Divided(a: nat, b: nat, k: nat)
    requires b > 0 && k == a / b
    ensures b * k <= a < b * (k + 1)
  {
    Distribute(b, k, 1);
    assert a == b * (a / b) + a % b;
  }

  /** The sum of the positive capacities. */
  function PositiveSum(s: seq<Domain>, capacities: map<Domain, int>): nat {
    if s == [] then 0
    else (if Capacity(capacities, s[0]) > 0 then Capacity(capacities, s[0]) else 0) + PositiveSum(s[1..], capacities)
  }

  /** What a domain counts for: its capacity, if that is positive; the same as any other, if none is. */
  function Counts(s: seq<Domain>, capacities: map<Domain, int>, d: Domain): nat {
    if PositiveSum(s, capacities) == 0 then 1 else if Capacity(capacities, d) > 0 then Capacity(capacities, d) else 0
  }

  function CountsTotal(s: seq<Domain>, capacities: map<Domain, int>): nat {
    if PositiveSum(s, capacities) == 0 then |s| else PositiveSum(s, capacities)
  }

  lemma {:induction false} ClampedTotal(t: seq<Domain>, s: seq<Domain>, capacities: map<Domain, int>)
    requires forall d :: d in t ==> d in s
    ensures Total(t, Clamped(s, capacities)) == PositiveSum(t, capacities)
  {
    if t != [] {
      ClampedTotal(t[1..], s, capacities);
      TotalSplit([t[0]], t[1..], Clamped(s, capacities));
      assert t == [t[0]] + t[1..] && [t[0]][..0] == [];
    }
  }

  lemma WeightsExactly(s: seq<Domain>, capacities: map<Domain, int>)
    ensures var w := Weights(s, capacities);
            && w.Keys == Elems(s) && Total(s, w) == CountsTotal(s, capacities)
            && forall d :: d in s ==> w[d] == Counts(s, capacities, d)
  {
    hide Total;
    ClampedTotal(s, s, capacities);
    ConstantTotal(s, s, 1);
  }

  /** A request is refused exactly for a negative target, a domain named twice, or floors beyond the target. */
  lemma RefusedExactly(target: int, domains: seq<Domain>, capacities: map<Domain, int>, minimum: Option<int>)
    requires domains != []
    ensures var r := Allocate(target, domains, capacities, minimum);
            && (r == Refused(NegativeTarget) <==> target < 0)
            && (r == Refused(DuplicateDomains) <==> target >= 0 && !Distinct(domains))
            && (r == Refused(FloorExceedsTarget) <==>
                  target >= 0 && Distinct(domains) && Floor(target, |domains|, minimum) * |domains| > target)
  {
    hide Shares, Floor, Weights;
  }

  /** How far, in parts of the total, a quota is above the exact share of what the floors leave. */
  function Over(target: int, domains: seq<Domain>, capacities: map<Domain, int>, floor: int, q: int, d: Domain): int {
    CountsTotal(domains, capacities) * (q - floor)
    - (target - floor * |domains|) * Counts(domains, capacities, d)
  }

  lemma SharesAre(target: int, domains: seq<Domain>, capacities: map<Domain, int>, minimum: Option<int>)
    requires domains != [] && Allocate(target, domains, capacities, minimum).Allocated?
    ensures Distinct(domains) && target >= Floor(target, |domains|, minimum) * |domains|
    ensures var weights := Weights(domains, capacities);
            weights.Keys == Elems(domains) && Total(domains, weights) > 0
    ensures var floor := Floor(target, |domains|, minimum);
            Allocate(target, domains, capacities, minimum).quotas
            == Shares(domains, floor, target - floor * |domains|, Weights(domains, capacities))
  {
    hide Shares, Floor, Weights;
    WeightsFit(domains, capacities);
  }

  /** Every quota is the exact share rounded down or up, up only if the share is not whole; and the shares rounded up
      are those with the largest fractions, a tie going by name. */
  lemma LargestFractionsRoundUp(target: int, domains: seq<Domain>, capacities: map<Domain, int>, minimum: Option<int>,
                                d: Domain, e: Domain)
    requires domains != [] && Allocate(target, domains, capacities, minimum).Allocated? && d in domains && e in domains
    ensures var quotas, floor := Allocate(target, domains, capacities, minimum).quotas,
                                 Floor(target, |domains|, minimum);
            && d in quotas && e in quotas && quotas[d] >= floor
            && var total := CountsTotal(domains, capacities);
               var over, other := Over(target, domains, capacities, floor, quotas[d], d),
                                  Over(target, domains, capacities, floor, quotas[e], e);
               && 0 - total < over < total
               && (over > 0 && other <= 0 ==> total - over > 0 - other || (total - over == 0 - other && d < e))
  {
    hide Total, Shares, Lucky, Whole, Fraction, Weights, Counts, CountsTotal, Floor, Allocate;
    SharesAre(target, domains, capacities, minimum);
    WeightsExactly(domains, capacities);
    var floor, weights := Floor(target, |domains|, minimum), Weights(domains, capacities);
    var remainder, total := target - floor * |domains|, Total(domains, weights);
    ShareOf(domains, floor, remainder, weights, d);
    ShareOf(domains, floor, remainder, weights, e);
    OverIs(floor, remainder, weights[d], total, d in Lucky(domains, remainder, weights));
    OverIs(floor, remainder, weights[e], total, e in Lucky(domains, remainder, weights));
    if d in Lucky(domains, remainder, weights) { LuckyHasFraction(domains, remainder, weights, d); }
    ShareParts(weights[d], remainder, total);
    ShareParts(weights[e], remainder, total);
    if d in Lucky(domains, remainder, weights) && e !in Lucky(domains, remainder, weights) {
      if Before(Fractions(weights, remainder, total), e, d) { LuckyFirst(domains, remainder, weights, e, d); }
    }
    if e in Lucky(domains, remainder, weights) { LuckyHasFraction(domains, remainder, weights, e); }
  }

  lemma OverIs(floor: nat, remainder: nat, weight: nat, total: nat, bonus: bool)
    requires total > 0
    ensures var q := floor + Whole(weight, remainder, total) + if bonus then 1 else 0;
            total * (q - floor) - remainder * weight
            == (if bonus then total else 0) - Fraction(weight, remainder, total)
  {
    hide Whole, Fraction;
    ShareParts(weight, remainder, total);
    Distribute(total, Whole(weight, remainder, total), if bonus then 1 else 0);
  }
}
