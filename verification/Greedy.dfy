/** The slot split of PerformanceSet on family sizes alone: one slot for every
    family, then each next slot to the family with the largest quotient
    size / (2 * slots + 1), the first such family in order, never past a
    family's size. Comparisons are cross-multiplied integers, as in the source;
    the proofs compare the reciprocal of the quotient, the price of a family's
    next slot, through a function of family and slots held. */
module Greedy {

  function Sum(s: seq<nat>): nat {
    if s == [] then 0 else s[0] + Sum(s[1..])
  }

  lemma {:induction false} SumUpdate(s: seq<nat>, i: nat, v: nat)
    requires i < |s|
    ensures Sum(s[i := v]) == Sum(s) - s[i] + v
  {
    if i == 0 {
      assert s[0 := v][1..] == s[1..];
    } else {
      SumUpdate(s[1..], i - 1, v);
      assert s[i := v][1..] == s[1..][i - 1 := v];
    }
  }

  predicate Positive(sizes: seq<nat>) {
    forall i :: 0 <= i < |sizes| ==> sizes[i] >= 1
  }

  /** A split that respects the floor of one and each family's size. */
  predicate Feasible(sizes: seq<nat>, slots: seq<nat>) {
    && |slots| == |sizes|
    && forall i :: 0 <= i < |sizes| ==> 1 <= slots[i] <= sizes[i]
  }

  /** Whether a family a holding qa slots deserves the next slot over a family
      b holding qb. */
  type Rule = (int, nat, int, nat) -> bool

  /** The inner scan: the family the next slot goes to among the first n, -1
      when all of them are full. */
  function Best(rule: Rule, sizes: seq<nat>, slots: seq<nat>, n: nat): (b: int)
    requires |sizes| == |slots| && n <= |sizes|
    ensures -1 <= b < n
    ensures b >= 0 ==> slots[b] != sizes[b]
    ensures b == -1 ==> forall i :: 0 <= i < n ==> slots[i] == sizes[i]
  {
    if n == 0 then -1
    else
      var b := Best(rule, sizes, slots, n - 1);
      if slots[n - 1] == sizes[n - 1] then b
      else if b == -1 || rule(n - 1, slots[n - 1], b, slots[b]) then n - 1
      else b
  }

  /** The split after k slots beyond the first of every family. */
  function Split(rule: Rule, sizes: seq<nat>, k: nat): (s: seq<nat>)
    ensures |s| == |sizes|
  {
    if k == 0 then seq(|sizes|, i => 1)
    else
      var s := Split(rule, sizes, k - 1);
      var b := Best(rule, sizes, s, |s|);
      if b == -1 then s else s[b := s[b] + 1]
  }

  lemma {:induction false} SumOnes(n: nat)
    ensures Sum(seq(n, i => 1)) == n
  {
    if n > 0 {
      assert seq(n, i => 1)[1..] == seq(n - 1, i => 1);
      SumOnes(n - 1);
    }
  }

  /** Every slot is handed out, and none past a family's size. */
  lemma {:induction false} SplitFeasible(rule: Rule, sizes: seq<nat>, k: nat)
    requires Positive(sizes) && |sizes| + k <= Sum(sizes)
    ensures Feasible(sizes, Split(rule, sizes, k))
    ensures Sum(Split(rule, sizes, k)) == |sizes| + k
    ensures k > 0 ==> Best(rule, sizes, Split(rule, sizes, k - 1), |sizes|) >= 0
  {
    if k == 0 {
      SumOnes(|sizes|);
    } else {
      SplitFeasible(rule, sizes, k - 1);
      var s := Split(rule, sizes, k - 1);
      var b := Best(rule, sizes, s, |s|);
      assert b == -1 ==> s == sizes;
      if b >= 0 {
        SumUpdate(s, b, s[b] + 1);
      }
    }
  }

  /** House monotone: one more slot changes one family, by one. */
  lemma {:induction false} SplitStep(rule: Rule, sizes: seq<nat>, k: nat) returns (b: nat)
    requires Positive(sizes) && |sizes| + k + 1 <= Sum(sizes)
    ensures b < |sizes| && Split(rule, sizes, k)[b] < sizes[b]
    ensures Split(rule, sizes, k + 1) == Split(rule, sizes, k)[b := Split(rule, sizes, k)[b] + 1]
  {
    SplitFeasible(rule, sizes, k + 1);
    b := Best(rule, sizes, Split(rule, sizes, k), |sizes|);
    assert Split(rule, sizes, k + 1)[b] <= sizes[b];
  }

  // --- The price of the next slot --------------------------------------

  /** The price of a family's next slot by family and slots held. */
  type Pricing = (int, nat) -> real

  /** rule favours the family whose next slot is strictly cheaper. */
  ghost predicate Follows(rule: Rule, m: Pricing, families: nat) {
    forall a, qa: nat, b, qb: nat {:trigger rule(a, qa, b, qb)} :: 0 <= a < families && 0 <= b < families ==>
      (rule(a, qa, b, qb) <==> m(a, qa) < m(b, qb))
  }

  /** A family's next slot never gets cheaper. */
  ghost predicate Rising(m: Pricing, families: nat) {
    forall a, q: nat, r: nat {:trigger m(a, q), m(a, r)} :: 0 <= a < families && q <= r ==> m(a, q) <= m(a, r)
  }

  /** The next slot of b is the cheapest among the first n families that are
      not full, and strictly cheaper than that of every such family before b. */
  ghost predicate Cheapest(m: Pricing, sizes: seq<nat>, slots: seq<nat>, n: nat, b: int)
    requires |sizes| == |slots| && n <= |sizes|
  {
    && 0 <= b < n && slots[b] != sizes[b]
    && forall i :: 0 <= i < n && slots[i] != sizes[i] ==>
         && m(b, slots[b]) <= m(i, slots[i])
         && (i < b ==> m(b, slots[b]) < m(i, slots[i]))
  }

  lemma {:induction false} BestIsCheapest(rule: Rule, m: Pricing, sizes: seq<nat>, slots: seq<nat>, n: nat)
    requires |sizes| == |slots| && n <= |sizes| && Follows(rule, m, |sizes|)
    requires Best(rule, sizes, slots, n) >= 0
    ensures Cheapest(m, sizes, slots, n, Best(rule, sizes, slots, n))
  {
    var c := Best(rule, sizes, slots, n - 1);
    if c >= 0 {
      BestIsCheapest(rule, m, sizes, slots, n - 1);
      assert rule(n - 1, slots[n - 1], c, slots[c]) <==> m(n - 1, slots[n - 1]) < m(c, slots[c]);
    }
  }

  /** No slot would be cheaper in another family. */
  ghost predicate Stable(m: Pricing, sizes: seq<nat>, s: seq<nat>)
    requires |sizes| == |s|
  {
    forall a, b :: 0 <= a < |s| && 0 <= b < |s| && s[a] < sizes[a] && s[b] > 1
      ==> m(b, s[b] - 1) <= m(a, s[a])
  }

  lemma {:induction false} StableStep(m: Pricing, sizes: seq<nat>, s: seq<nat>, p: nat)
    requires |sizes| == |s| && Feasible(sizes, s) && Rising(m, |sizes|)
    requires Stable(m, sizes, s) && Cheapest(m, sizes, s, |s|, p)
    ensures Stable(m, sizes, s[p := s[p] + 1])
  {
    var t := s[p := s[p] + 1];
    forall a, b | 0 <= a < |t| && 0 <= b < |t| && t[a] < sizes[a] && t[b] > 1
      ensures m(b, t[b] - 1) <= m(a, t[a])
    {
      assert m(a, s[a]) <= m(a, t[a]);
      if b != p {
        assert m(b, s[b] - 1) <= m(a, s[a]);
      }
    }
  }

  lemma {:induction false} OnesStable(rule: Rule, m: Pricing, sizes: seq<nat>)
    ensures Stable(m, sizes, Split(rule, sizes, 0))
  {
  }

  lemma {:induction false} SplitStableStep(rule: Rule, m: Pricing, sizes: seq<nat>, k: nat)
    requires Positive(sizes) && 0 < k && |sizes| + k <= Sum(sizes)
    requires Follows(rule, m, |sizes|) && Rising(m, |sizes|)
    requires Stable(m, sizes, Split(rule, sizes, k - 1))
    ensures Stable(m, sizes, Split(rule, sizes, k))
  {
    hide Stable, Follows, Rising, Cheapest, Feasible, Sum, Best;
    var s := Split(rule, sizes, k - 1);
    SplitFeasible(rule, sizes, k - 1);
    SplitFeasible(rule, sizes, k);
    BestIsCheapest(rule, m, sizes, s, |s|);
    StableStep(m, sizes, s, Best(rule, sizes, s, |s|));
  }

  lemma {:induction false} SplitStable(rule: Rule, m: Pricing, sizes: seq<nat>, k: nat)
    requires Positive(sizes) && |sizes| + k <= Sum(sizes)
    requires Follows(rule, m, |sizes|) && Rising(m, |sizes|)
    ensures Stable(m, sizes, Split(rule, sizes, k))
  {
    hide Stable, Follows, Rising, Split;
    if k == 0 {
      OnesStable(rule, m, sizes);
    } else {
      SplitStable(rule, m, sizes, k - 1);
      SplitStableStep(rule, m, sizes, k);
    }
  }

  // --- Optimality ------------------------------------------------------

  /** What n slots of family i cost in all. */
  ghost function FamilyCost(m: Pricing, i: int, n: nat): real {
    if n == 0 then 0.0 else FamilyCost(m, i, n - 1) + m(i, n - 1)
  }

  /** What the slots of the first n families cost in all. */
  ghost function TotalCost(m: Pricing, s: seq<nat>, n: nat): real
    requires n <= |s|
  {
    if n == 0 then 0.0 else TotalCost(m, s, n - 1) + FamilyCost(m, n - 1, s[n - 1])
  }

  /** m with p off the price of every slot. */
  function Discount(m: Pricing, p: real): Pricing {
    (i, q: nat) => m(i, q) - p
  }

  /** p times n, added up one p at a time. */
  ghost function Times(p: real, n: nat): real {
    if n == 0 then 0.0 else Times(p, n - 1) + p
  }

  lemma {:induction false} TimesAdds(p: real, a: nat, b: nat)
    ensures Times(p, a + b) == Times(p, a) + Times(p, b)
  {
    if b > 0 { TimesAdds(p, a, b - 1); }
  }

  lemma {:induction false} TimesMultiplies(p: real, n: nat)
    ensures Times(p, n) == p * n as real
  {
    if n > 0 {
      TimesMultiplies(p, n - 1);
      Distribute(p, (n - 1) as real, 1.0);
    }
  }

  lemma {:induction false} Distribute(p: real, x: real, y: real)
    ensures p * (x + y) == p * x + p * y
  {}

  lemma {:induction false} FamilyDiscount(m: Pricing, p: real, i: int, n: nat)
    ensures FamilyCost(Discount(m, p), i, n) == FamilyCost(m, i, n) - Times(p, n)
  {
    if n > 0 {
      FamilyDiscount(m, p, i, n - 1);
    }
  }

  lemma {:induction false} TotalDiscount(m: Pricing, p: real, s: seq<nat>, n: nat)
    requires n <= |s|
    ensures TotalCost(Discount(m, p), s, n) == TotalCost(m, s, n) - Times(p, Sum(s[..n]))
  {
    if n > 0 {
      TotalDiscount(m, p, s, n - 1);
      FamilyDiscount(m, p, n - 1, s[n - 1]);
      SumPrefix(s, n);
      TimesAdds(p, Sum(s[..n - 1]), s[n - 1]);
    }
  }

  lemma {:induction false} SumPrefix(s: seq<nat>, n: nat)
    requires 0 < n <= |s|
    ensures Sum(s[..n]) == Sum(s[..n - 1]) + s[n - 1]
  {
    if n > 1 {
      SumPrefix(s[1..], n - 1);
      assert s[..n][1..] == s[1..][..n - 1] && s[..n - 1][1..] == s[1..][..n - 2];
    } else {
      assert s[..1][1..] == [] && s[..0] == [];
    }
  }

  /** n slots cost least when the last of them is no loss and one more is no
      gain. */
  lemma {:induction false} FamilyLeast(m: Pricing, families: nat, i: int, n: nat, x: nat)
    requires 0 <= i < families && Rising(m, families)
    requires x < n ==> m(i, n - 1) <= 0.0
    requires x > n ==> 0.0 <= m(i, n)
    ensures FamilyCost(m, i, n) <= FamilyCost(m, i, x)
    decreases if x < n then n - x else x - n
  {
    if x < n {
      FamilyLeast(m, families, i, n, x + 1);
      assert m(i, x) <= m(i, n - 1);
    } else if x > n {
      FamilyLeast(m, families, i, n, x - 1);
      assert m(i, n) <= m(i, x - 1);
    }
  }

  lemma {:induction false} TotalLeast(m: Pricing, sizes: seq<nat>, s: seq<nat>, x: seq<nat>, n: nat)
    requires |s| == |x| == |sizes| && n <= |s| && Rising(m, |sizes|)
    requires forall i :: 0 <= i < |s| ==> (x[i] < s[i] ==> m(i, s[i] - 1) <= 0.0) && (x[i] > s[i] ==> 0.0 <= m(i, s[i]))
    ensures TotalCost(m, s, n) <= TotalCost(m, x, n)
  {
    if n > 0 {
      TotalLeast(m, sizes, s, x, n - 1);
      FamilyLeast(m, |sizes|, n - 1, s[n - 1], x[n - 1]);
    }
  }

  /** The dearest slot given to the first n families, -1 when every one of
      them has its first slot only. */
  lemma {:induction false} DearestSlot(m: Pricing, s: seq<nat>, n: nat) returns (b: int)
    requires n <= |s|
    ensures -1 <= b < n
    ensures b >= 0 ==> s[b] > 1
    ensures forall i :: 0 <= i < n && s[i] > 1 ==> b >= 0 && m(i, s[i] - 1) <= m(b, s[b] - 1)
  {
    b := -1;
    if n > 0 {
      b := DearestSlot(m, s, n - 1);
      if s[n - 1] > 1 && (b == -1 || m(b, s[b] - 1) < m(n - 1, s[n - 1] - 1)) {
        b := n - 1;
      }
    }
  }

  lemma {:induction false} AllOnes(s: seq<nat>, x: seq<nat>)
    requires |s| == |x| && forall i :: 0 <= i < |s| ==> s[i] <= x[i]
    ensures Sum(s) <= Sum(x)
    ensures Sum(s) == Sum(x) ==> s == x
  {
    if s != [] {
      AllOnes(s[1..], x[1..]);
      assert s == [s[0]] + s[1..] && x == [x[0]] + x[1..];
    }
  }

  /** A stable split is cheapest among all splits with its total and the same
      bounds. */
  lemma {:induction false} StableIsCheapest(m: Pricing, sizes: seq<nat>, s: seq<nat>, x: seq<nat>)
    requires Rising(m, |sizes|) && Feasible(sizes, s) && Feasible(sizes, x)
    requires Stable(m, sizes, s) && Sum(x) == Sum(s)
    ensures TotalCost(m, s, |s|) <= TotalCost(m, x, |x|)
  {
    var b := DearestSlot(m, s, |s|);
    if b == -1 {
      AllOnes(s, x);
    } else {
      var p := m(b, s[b] - 1);
      TotalLeast(Discount(m, p), sizes, s, x, |s|);
      DiscountKeepsOrder(m, p, s, x);
    }
  }

  lemma {:induction false} DiscountKeepsOrder(m: Pricing, p: real, s: seq<nat>, x: seq<nat>)
    requires Sum(x) == Sum(s)
    requires TotalCost(Discount(m, p), s, |s|) <= TotalCost(Discount(m, p), x, |x|)
    ensures TotalCost(m, s, |s|) <= TotalCost(m, x, |x|)
  {
    assert s[..|s|] == s && x[..|x|] == x;
    TotalDiscount(m, p, s, |s|);
    TotalDiscount(m, p, x, |x|);
  }

  // --- Distance from the proportional share -----------------------------

  /** (2 q + 1) / size, what slot q + 1 adds to slots squared over size. */
  function SlotPrice(sizes: seq<nat>): Pricing {
    (i, q: nat) => if 0 <= i < |sizes| && sizes[i] > 0 then (2 * q + 1) as real / sizes[i] as real else 0.0
  }

  /** The strict quotient comparison na / (2 qa + 1) > nb / (2 qb + 1). */
  predicate DeservesNextSlot(na: nat, qa: nat, nb: nat, qb: nat) {
    na * (2 * qb + 1) > nb * (2 * qa + 1)
  }

  /** The rule of PerformanceSet for families of these sizes. */
  function QuotientRule(sizes: seq<nat>): Rule {
    (a: int, qa: nat, b: int, qb: nat) =>
      0 <= a < |sizes| && 0 <= b < |sizes| && DeservesNextSlot(sizes[a], qa, sizes[b], qb)
  }

  /** Cross multiplication compares the quotients exactly. */
  lemma {:induction false} CrossMultiplied(na: nat, qa: nat, nb: nat, qb: nat)
    requires na > 0 && nb > 0
    ensures DeservesNextSlot(na, qa, nb, qb)
       <==> (2 * qa + 1) as real / na as real < (2 * qb + 1) as real / nb as real
  {
    Fractions((2 * qa + 1) as real, na as real, (2 * qb + 1) as real, nb as real);
    assert (na * (2 * qb + 1)) as real == na as real * (2 * qb + 1) as real;
    assert (nb * (2 * qa + 1)) as real == nb as real * (2 * qa + 1) as real;
  }

  lemma {:induction false} Fractions(x: real, a: real, y: real, b: real)
    requires a > 0.0 && b > 0.0
    ensures a * y > b * x <==> x / a < y / b
  {
    var u, v := x / a, y / b;
    assert u * a == x && v * b == y;
    assert b * x == u * (a * b) && a * y == v * (a * b);
    Scale(u, v, a * b);
  }

  lemma {:induction false} Scale(u: real, v: real, k: real)
    requires k > 0.0
    ensures u < v <==> u * k < v * k
  {}

  lemma {:induction false} SlotPriceFollowed(sizes: seq<nat>)
    requires Positive(sizes)
    ensures Follows(QuotientRule(sizes), SlotPrice(sizes), |sizes|)
    ensures Rising(SlotPrice(sizes), |sizes|)
  {
    var m, rule := SlotPrice(sizes), QuotientRule(sizes);
    forall a, qa: nat, b, qb: nat | 0 <= a < |sizes| && 0 <= b < |sizes|
      ensures rule(a, qa, b, qb) <==> m(a, qa) < m(b, qb)
    {
      CrossMultiplied(sizes[a], qa, sizes[b], qb);
    }
    forall a, q: nat, r: nat | 0 <= a < |sizes| && q <= r ensures m(a, q) <= m(a, r) {
      Divided((2 * q + 1) as real, (2 * r + 1) as real, sizes[a] as real);
    }
  }

  lemma {:induction false} Divided(x: real, y: real, n: real)
    requires n > 0.0 && x <= y
    ensures x / n <= y / n
  {}

  /** How far s is from giving every family the share q of its nodes: the sum
      over families of (slots - q * size) squared over size. */
  function Distance(sizes: seq<nat>, s: seq<nat>, q: real, n: nat): real
    requires |sizes| == |s| && Positive(sizes) && n <= |s|
  {
    if n == 0 then 0.0
    else Distance(sizes, s, q, n - 1) + Deviation(sizes[n - 1] as real, s[n - 1] as real, q)
  }

  function Deviation(n: real, s: real, q: real): real
    requires n > 0.0
  {
    (s - q * n) * (s - q * n) / n
  }

  lemma {:induction false} DeviationExpanded(n: real, s: real, q: real)
    requires n > 0.0
    ensures Deviation(n, s, q) == s * s / n + (- 2.0 * q * s + q * q * n)
  {
    calc {
      (s - q * n) * (s - q * n) / n;
      (s * s + (q * q * n - 2.0 * q * s) * n) / n;
      s * s / n + (q * q * n - 2.0 * q * s) * n / n;
    }
  }

  lemma {:induction false} SquareOverSize(sizes: seq<nat>, i: int, n: nat)
    requires 0 <= i < |sizes| && Positive(sizes)
    ensures FamilyCost(SlotPrice(sizes), i, n) == n as real * n as real / sizes[i] as real
  {
    if n > 0 {
      SquareOverSize(sizes, i, n - 1);
      SquareStep(n as real, sizes[i] as real);
    }
  }

  lemma {:induction false} SquareStep(x: real, n: real)
    requires n > 0.0
    ensures x * x / n == (x - 1.0) * (x - 1.0) / n + (2.0 * (x - 1.0) + 1.0) / n
  {
    assert x * x == (x - 1.0) * (x - 1.0) + (2.0 * (x - 1.0) + 1.0);
  }

  lemma {:induction false} DeviationIsCost(sizes: seq<nat>, i: int, n: nat, q: real)
    requires 0 <= i < |sizes| && Positive(sizes)
    ensures Deviation(sizes[i] as real, n as real, q)
         == FamilyCost(SlotPrice(sizes), i, n) - Times(2.0 * q, n) + Times(q * q, sizes[i])
  {
    SquareOverSize(sizes, i, n);
    DeviationExpanded(sizes[i] as real, n as real, q);
    TimesMultiplies(2.0 * q, n);
    TimesMultiplies(q * q, sizes[i]);
  }

  /** Distance as cost, less two terms that a split's total decides. */
  lemma {:induction false} DistanceIsCost(sizes: seq<nat>, s: seq<nat>, q: real, n: nat)
    requires |sizes| == |s| && Positive(sizes) && n <= |s|
    ensures Distance(sizes, s, q, n) == TotalCost(SlotPrice(sizes), s, n)
              - Times(2.0 * q, Sum(s[..n])) + Times(q * q, Sum(sizes[..n]))
  {
    if n > 0 {
      DistanceIsCost(sizes, s, q, n - 1);
      DeviationIsCost(sizes, n - 1, s[n - 1], q);
      SumPrefix(s, n);
      SumPrefix(sizes, n);
      TimesAdds(2.0 * q, Sum(s[..n - 1]), s[n - 1]);
      TimesAdds(q * q, Sum(sizes[..n - 1]), sizes[n - 1]);
    }
  }

  lemma {:induction false} SplitIsCheapest(sizes: seq<nat>, k: nat, x: seq<nat>)
    requires Positive(sizes) && |sizes| + k <= Sum(sizes)
    requires Feasible(sizes, x) && Sum(x) == |sizes| + k
    ensures TotalCost(SlotPrice(sizes), Split(QuotientRule(sizes), sizes, k), |sizes|)
         <= TotalCost(SlotPrice(sizes), x, |sizes|)
  {
    SlotPriceFollowed(sizes);
    SplitFeasible(QuotientRule(sizes), sizes, k);
    SplitStable(QuotientRule(sizes), SlotPrice(sizes), sizes, k);
    StableIsCheapest(SlotPrice(sizes), sizes, Split(QuotientRule(sizes), sizes, k), x);
  }

  /** Greedy optimality: the split of k further slots is closest to giving
      every family the same share q of its nodes, among all splits with that
      total, at least one slot per family and none past a family's size. */
  lemma {:induction false} SplitIsClosest(sizes: seq<nat>, k: nat, x: seq<nat>, q: real)
    requires Positive(sizes) && |sizes| + k <= Sum(sizes)
    requires Feasible(sizes, x) && Sum(x) == |sizes| + k
    ensures Distance(sizes, Split(QuotientRule(sizes), sizes, k), q, |sizes|) <= Distance(sizes, x, q, |sizes|)
  {
    SplitIsCheapest(sizes, k, x);
    SplitFeasible(QuotientRule(sizes), sizes, k);
    ClosestIfCheapest(sizes, Split(QuotientRule(sizes), sizes, k), x, q);
  }

  lemma {:induction false} ClosestIfCheapest(sizes: seq<nat>, s: seq<nat>, x: seq<nat>, q: real)
    requires Positive(sizes) && |s| == |x| == |sizes| && Sum(s) == Sum(x)
    requires TotalCost(SlotPrice(sizes), s, |sizes|) <= TotalCost(SlotPrice(sizes), x, |sizes|)
    ensures Distance(sizes, s, q, |sizes|) <= Distance(sizes, x, q, |sizes|)
  {
    assert s[..|s|] == s && x[..|x|] == x && sizes[..|sizes|] == sizes;
    DistanceIsCost(sizes, s, q, |s|);
    DistanceIsCost(sizes, x, q, |x|);
  }
}
