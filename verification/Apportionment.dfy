/** performance_set of experiments/kwok-cluster/pool_load.py, and
    PerformanceSet of pkg/controller/policy, which also keeps the nodes
    labelled performance first (labelled; empty in the Python copy). */
module Apportionment {
  import opened Greedy
  import Order

  datatype Node = Node(name: string, family: string, vendor: string, gpuCount: nat, cores: real)

  // --- Families and their members ---------------------------------------

  /** The families of nodes, in the order they first appear. */
  function Families(nodes: seq<Node>): (fs: seq<string>)
    ensures |fs| <= |nodes|
  {
    if nodes == [] then []
    else
      var n := |nodes| - 1;
      var fs := Families(nodes[..n]);
      if nodes[n].family in fs then fs else fs + [nodes[n].family]
  }

  /** The names of the nodes of one family, in order. */
  function Names(nodes: seq<Node>, family: string): (s: seq<string>) {
    if nodes == [] then []
    else
      var n := |nodes| - 1;
      Names(nodes[..n], family) + (if nodes[n].family == family then [nodes[n].name] else [])
  }

  predicate Distinct(s: seq<string>) {
    forall i, j :: 0 <= i < j < |s| ==> s[i] != s[j]
  }

  /** The families in name order. */
  function FamilyList(nodes: seq<Node>): seq<string> {
    Order.Sort({}, Families(nodes))
  }

  /** The nodes of one family in the order slots fill: labelled first. */
  function Ranked(nodes: seq<Node>, labelled: set<string>, family: string): seq<string> {
    Order.Sort(labelled, Names(nodes, family))
  }

  function Sizes(nodes: seq<Node>, families: seq<string>): seq<nat> {
    seq(|families|, i requires 0 <= i < |families| => |Names(nodes, families[i])|)
  }

  function Clamp(v: int, lo: int, hi: int): int {
    var raised := if v > lo then v else lo;
    if raised < hi then raised else hi
  }

  /** The slots of families of these sizes: the count raised to one each and
      cut to the number of nodes, then split. */
  function SlotsFor(sizes: seq<nat>, count: int, total: nat): (slots: seq<nat>)
    requires |sizes| <= total
    ensures |slots| == |sizes|
  {
    Split(QuotientRule(sizes), sizes, Clamp(count, |sizes|, total) - |sizes|)
  }

  /** The slots of every family, in family order. */
  function Slots(nodes: seq<Node>, count: int): (slots: seq<nat>)
    ensures |slots| == |FamilyList(nodes)|
  {
    Order.SortPermutes({}, Families(nodes));
    SlotsFor(Sizes(nodes, FamilyList(nodes)), count, |nodes|)
  }

  /** The members of every family, in the order slots fill. */
  function Lists(nodes: seq<Node>, labelled: set<string>): seq<seq<string>> {
    var families := FamilyList(nodes);
    seq(|families|, i requires 0 <= i < |families| => Ranked(nodes, labelled, families[i]))
  }

  /** The first slots of every list. */
  function FirstOf(lists: seq<seq<string>>, slots: seq<nat>): set<string>
    requires |slots| == |lists|
  {
    set i, j | 0 <= i < |lists| && 0 <= j < |lists[i]| && j < slots[i] :: lists[i][j]
  }

  /** The performance nodes: the first slots of every family. */
  function PerformanceNodes(nodes: seq<Node>, labelled: set<string>, count: int): set<string> {
    FirstOf(Lists(nodes, labelled), Slots(nodes, count))
  }

  // --- Sizes ------------------------------------------------------------

  lemma {:induction false} MultiplicityOfDistinct(s: seq<string>, x: string)
    requires Distinct(s)
    ensures multiset(s)[x] == if x in s then 1 else 0
  {
    if s != [] {
      assert s == [s[0]] + s[1..];
      MultiplicityOfDistinct(s[1..], x);
    }
  }

  lemma {:induction false} TwiceIn(t: seq<string>, i: nat, j: nat)
    requires i < j < |t| && t[i] == t[j]
    ensures multiset(t)[t[i]] >= 2
  {
    assert t == t[..j] + [t[j]] + t[j + 1..];
    assert t[i] in multiset(t[..j]) by { assert t[i] == t[..j][i]; }
  }

  lemma {:induction false} DistinctPermuted(s: seq<string>, t: seq<string>)
    requires Distinct(s) && multiset(s) == multiset(t)
    ensures Distinct(t)
  {
    forall i, j | 0 <= i < j < |t| ensures t[i] != t[j] {
      MultiplicityOfDistinct(s, t[i]);
      if t[i] == t[j] { TwiceIn(t, i, j); }
    }
  }

  lemma {:induction false} FamiliesListed(nodes: seq<Node>)
    ensures Distinct(Families(nodes)) && |Families(nodes)| <= |nodes|
    ensures forall i :: 0 <= i < |nodes| ==> nodes[i].family in Families(nodes)
    ensures forall f :: f in Families(nodes) ==> exists i :: 0 <= i < |nodes| && nodes[i].family == f
  {
    if nodes != [] {
      var n := |nodes| - 1;
      FamiliesListed(nodes[..n]);
      forall f | f in Families(nodes) ensures exists i :: 0 <= i < |nodes| && nodes[i].family == f {
        if f != nodes[n].family {
          var i :| 0 <= i < n && nodes[..n][i].family == f;
          assert nodes[i].family == f;
        }
      }
      forall i | 0 <= i < |nodes| ensures nodes[i].family in Families(nodes) {
        if i < n { assert nodes[..n][i] == nodes[i]; }
      }
    }
  }

  lemma {:induction false} FamilyListed(nodes: seq<Node>)
    ensures Distinct(FamilyList(nodes))
    ensures |FamilyList(nodes)| == |Families(nodes)| <= |nodes|
    ensures forall f :: f in FamilyList(nodes) <==> f in Families(nodes)
  {
    FamiliesListed(nodes);
    Order.SortPermutes({}, Families(nodes));
    DistinctPermuted(Families(nodes), FamilyList(nodes));
    forall f ensures f in FamilyList(nodes) <==> f in Families(nodes) {
      assert f in FamilyList(nodes) <==> f in multiset(FamilyList(nodes));
      assert f in Families(nodes) <==> f in multiset(Families(nodes));
    }
  }

  /** Every node belongs to exactly one listed family. */
  lemma {:induction false} SizesSum(nodes: seq<Node>, families: seq<string>)
    requires Distinct(families)
    requires forall i :: 0 <= i < |nodes| ==> nodes[i].family in families
    ensures Sum(Sizes(nodes, families)) == |nodes|
  {
    if nodes == [] {
      SumZeros(Sizes(nodes, families));
    } else {
      var n := |nodes| - 1;
      SizesSum(nodes[..n], families);
      var j :| 0 <= j < |families| && families[j] == nodes[n].family;
      var before := Sizes(nodes[..n], families);
      assert Sizes(nodes, families) == before[j := before[j] + 1];
      SumUpdate(before, j, before[j] + 1);
    }
  }

  lemma {:induction false} SumZeros(s: seq<nat>)
    requires forall i :: 0 <= i < |s| ==> s[i] == 0
    ensures Sum(s) == 0
  {
    if s != [] { SumZeros(s[1..]); }
  }

  lemma {:induction false} NamesCount(nodes: seq<Node>, family: string)
    ensures |Names(nodes, family)| <= |nodes|
    ensures forall x :: x in Names(nodes, family) <==>
      exists i :: 0 <= i < |nodes| && nodes[i].family == family && nodes[i].name == x
  {
    if nodes != [] {
      var n := |nodes| - 1;
      NamesCount(nodes[..n], family);
      assert nodes == nodes[..n] + [nodes[n]];
      forall x | exists i :: 0 <= i < |nodes| && nodes[i].family == family && nodes[i].name == x
        ensures x in Names(nodes, family)
      {
        var i :| 0 <= i < |nodes| && nodes[i].family == family && nodes[i].name == x;
        if i < n { assert nodes[..n][i] == nodes[i]; }
      }
    }
  }

  /** The facts the split relies on: families are non-empty and hold every
      node, and the clamped count lies between one slot each and every node. */
  lemma {:induction false} SplitSetting(nodes: seq<Node>, count: int)
    ensures var families := FamilyList(nodes);
      && |families| <= Clamp(count, |families|, |nodes|) <= |nodes|
      && Positive(Sizes(nodes, families)) && Sum(Sizes(nodes, families)) == |nodes|
  {
    var families := FamilyList(nodes);
    FamiliesListed(nodes);
    FamilyListed(nodes);
    SizesSum(nodes, families);
    forall i | 0 <= i < |families| ensures Sizes(nodes, families)[i] >= 1 {
      assert families[i] in Families(nodes);
      var j :| 0 <= j < |nodes| && nodes[j].family == families[i];
      NamesCount(nodes, families[i]);
      assert nodes[j].name in Names(nodes, families[i]);
    }
  }

  // --- What the slots are -------------------------------------------------

  /** The slots sum to the clamped count, lie between one and the family's
      size, and no other such split is closer to the families' shares of the
      nodes, whatever the share is measured against. */
  lemma {:induction false} SlotsForProportional(sizes: seq<nat>, count: int, total: nat, other: seq<nat>, share: real)
    requires Positive(sizes) && Sum(sizes) == total && |sizes| <= total
    ensures Feasible(sizes, SlotsFor(sizes, count, total))
    ensures Sum(SlotsFor(sizes, count, total)) == Clamp(count, |sizes|, total)
    ensures Feasible(sizes, other) && Sum(other) == Clamp(count, |sizes|, total) ==>
      Distance(sizes, SlotsFor(sizes, count, total), share, |sizes|) <= Distance(sizes, other, share, |sizes|)
  {
    var k := Clamp(count, |sizes|, total) - |sizes|;
    SplitFeasible(QuotientRule(sizes), sizes, k);
    if Feasible(sizes, other) && Sum(other) == |sizes| + k {
      SplitIsClosest(sizes, k, other, share);
    }
  }

  lemma {:induction false} SlotsAreProportional(nodes: seq<Node>, count: int, other: seq<nat>, share: real)
    ensures var sizes := Sizes(nodes, FamilyList(nodes)); var slots := Slots(nodes, count);
      && Positive(sizes) && Feasible(sizes, slots)
      && Sum(slots) == Clamp(count, |sizes|, |nodes|)
      && (Feasible(sizes, other) && Sum(other) == Sum(slots) ==>
            Distance(sizes, slots, share, |sizes|) <= Distance(sizes, other, share, |sizes|))
  {
    SplitSetting(nodes, count);
    SlotsForProportional(Sizes(nodes, FamilyList(nodes)), count, |nodes|, other, share);
  }

  /** One more node: the slots stay, or one family gets one more. */
  lemma {:induction false} SlotsForStep(sizes: seq<nat>, count: int, total: nat) returns (b: int)
    requires Positive(sizes) && Sum(sizes) == total && |sizes| <= total
    ensures var slots := SlotsFor(sizes, count, total); var more := SlotsFor(sizes, count + 1, total);
      if |sizes| <= count < total
      then 0 <= b < |slots| && slots[b] < sizes[b] && more == slots[b := slots[b] + 1]
      else more == slots
  {
    b := 0;
    if |sizes| <= count < total {
      b := SplitStep(QuotientRule(sizes), sizes, count - |sizes|);
    }
  }

  /** Nesting: the performance nodes for one count are among those for the
      next. */
  lemma {:induction false} Nested(nodes: seq<Node>, labelled: set<string>, count: int)
    ensures PerformanceNodes(nodes, labelled, count) <= PerformanceNodes(nodes, labelled, count + 1)
  {
    SplitSetting(nodes, count);
    var b := SlotsForStep(Sizes(nodes, FamilyList(nodes)), count, |nodes|);
    FirstOfMonotone(Lists(nodes, labelled), Slots(nodes, count), Slots(nodes, count + 1));
  }

  lemma {:induction false} FirstOfMonotone(lists: seq<seq<string>>, slots: seq<nat>, more: seq<nat>)
    requires |slots| == |more| == |lists|
    requires forall i :: 0 <= i < |slots| ==> slots[i] <= more[i]
    ensures FirstOf(lists, slots) <= FirstOf(lists, more)
  {}

  lemma {:induction false} NestedBetween(nodes: seq<Node>, labelled: set<string>, count: int, more: int)
    requires count <= more
    ensures PerformanceNodes(nodes, labelled, count) <= PerformanceNodes(nodes, labelled, more)
    decreases more - count
  {
    if count < more {
      NestedBetween(nodes, labelled, count, more - 1);
      Nested(nodes, labelled, more - 1);
    }
  }

  // --- The loops ----------------------------------------------------------

  lemma {:induction false} NoNames(nodes: seq<Node>, f: string)
    ensures f !in Families(nodes) ==> Names(nodes, f) == []
  {
    if nodes != [] { NoNames(nodes[..|nodes| - 1], f); }
  }

  lemma {:induction false} NamesOfOther(nodes: seq<Node>, n: nat, f: string)
    requires n < |nodes|
    ensures Names(nodes[..n + 1], f) == Names(nodes[..n], f) + (if nodes[n].family == f then [nodes[n].name] else [])
    ensures Families(nodes[..n + 1])
         == if nodes[n].family in Families(nodes[..n]) then Families(nodes[..n]) else Families(nodes[..n]) + [nodes[n].family]
  {
    assert nodes[..n + 1][..n] == nodes[..n];
  }

  /** The dictionary of members by family, and its keys as first seen. */
  method Group(nodes: seq<Node>) returns (members: map<string, seq<string>>, keys: seq<string>)
    ensures keys == Families(nodes)
    ensures forall f :: f in members <==> f in keys
    ensures forall f :: f in members ==> members[f] == Names(nodes, f)
  {
    members, keys := map[], [];
    for n := 0 to |nodes|
      invariant keys == Families(nodes[..n])
      invariant forall f :: f in members <==> f in keys
      invariant forall f :: f in members ==> members[f] == Names(nodes[..n], f)
    {
      var f := nodes[n].family;
      forall g ensures Names(nodes[..n + 1], g) == Names(nodes[..n], g) + (if f == g then [nodes[n].name] else []) {
        NamesOfOther(nodes, n, g);
      }
      NamesOfOther(nodes, n, f);
      NoNames(nodes[..n], f);
      if f !in members {
        members := members[f := []];
        keys := keys + [f];
      }
      members := members[f := members[f] + [nodes[n].name]];
    }
    assert nodes[..|nodes|] == nodes;
  }

  /** The inner scan, over the families in name order. */
  method NextFamily(sizes: seq<nat>, slots: seq<nat>) returns (next: int)
    requires |sizes| == |slots|
    ensures next == Best(QuotientRule(sizes), sizes, slots, |sizes|)
  {
    next := -1;
    for a := 0 to |sizes|
      invariant -1 <= next < a
      invariant next == Best(QuotientRule(sizes), sizes, slots, a)
    {
      if slots[a] == sizes[a] {
        continue;
      }
      if next == -1 || DeservesNextSlot(sizes[a], slots[a], sizes[next], slots[next]) {
        next := a;
      }
    }
  }

  /** The slot loop: one slot each, then the others one at a time. */
  method FillSlots(sizes: seq<nat>, count: int, total: nat) returns (slots: seq<nat>)
    requires Positive(sizes) && Sum(sizes) == total && |sizes| <= total
    ensures slots == SlotsFor(sizes, count, total)
  {
    ghost var rule := QuotientRule(sizes);
    slots := seq(|sizes|, i => 1);
    for left := 0 to Clamp(count, |sizes|, total) - |sizes|
      invariant slots == Split(rule, sizes, left)
    {
      SplitFeasible(rule, sizes, left + 1);
      var next := NextFamily(sizes, slots);
      slots := slots[next := slots[next] + 1];
    }
  }

  method TakeFirst(lists: seq<seq<string>>, slots: seq<nat>) returns (taken: set<string>)
    requires |slots| == |lists| && forall i :: 0 <= i < |lists| ==> slots[i] <= |lists[i]|
    ensures taken == FirstOf(lists, slots)
  {
    taken := {};
    for i := 0 to |lists|
      invariant taken == FirstOf(lists[..i], slots[..i])
    {
      ghost var before := taken;
      for j := 0 to slots[i]
        invariant forall x :: x in taken <==> x in before || exists l :: 0 <= l < j && x == lists[i][l]
      {
        taken := taken + {lists[i][j]};
      }
      FirstOfPrefix(lists, slots, i);
    }
    assert lists[..|lists|] == lists && slots[..|lists|] == slots;
  }

  lemma {:induction false} FirstOfPrefix(lists: seq<seq<string>>, slots: seq<nat>, i: nat)
    requires |slots| == |lists| && i < |lists| && slots[i] <= |lists[i]|
    ensures forall x :: x in FirstOf(lists[..i + 1], slots[..i + 1])
               <==> x in FirstOf(lists[..i], slots[..i]) || exists l :: 0 <= l < slots[i] && x == lists[i][l]
  {
    var a, b := lists[..i], slots[..i];
    var a', b' := lists[..i + 1], slots[..i + 1];
    forall x | x in FirstOf(a', b') ensures x in FirstOf(a, b) || exists l :: 0 <= l < slots[i] && x == lists[i][l] {
      var k, j :| 0 <= k < |a'| && 0 <= j < |a'[k]| && j < b'[k] && a'[k][j] == x;
      if k < i { assert a[k] == a'[k] && b[k] == b'[k]; }
    }
    forall x | x in FirstOf(a, b) ensures x in FirstOf(a', b') {
      var k, j :| 0 <= k < |a| && 0 <= j < |a[k]| && j < b[k] && a[k][j] == x;
      assert a[k] == a'[k] && b[k] == b'[k];
    }
    forall l | 0 <= l < slots[i] ensures lists[i][l] in FirstOf(a', b') {
      assert a'[i] == lists[i] && b'[i] == slots[i];
    }
  }

  method RankFamilies(nodes: seq<Node>, labelled: set<string>) returns (ranked: seq<seq<string>>)
    ensures ranked == Lists(nodes, labelled)
  {
    var members, keys := Group(nodes);
    var fams := Order.Sort({}, keys);
    FamilyListed(nodes);
    ranked := [];
    for i := 0 to |fams|
      invariant |ranked| == i
      invariant forall k :: 0 <= k < i ==> ranked[k] == Ranked(nodes, labelled, fams[k])
    {
      ranked := ranked + [Order.Sort(labelled, members[fams[i]])];
    }
  }

  function Lengths(lists: seq<seq<string>>): seq<nat> {
    seq(|lists|, i requires 0 <= i < |lists| => |lists[i]|)
  }

  method PerformanceSet(nodes: seq<Node>, labelled: set<string>, count: int) returns (perf: set<string>)
    ensures perf == PerformanceNodes(nodes, labelled, count)
  {
    var ranked := RankFamilies(nodes, labelled);
    var sizes := Lengths(ranked);
    ListSizes(nodes, labelled);
    SplitSetting(nodes, count);
    SlotsForProportional(sizes, count, |nodes|, [], 0.0);
    var slots := FillSlots(sizes, count, |nodes|);
    perf := TakeFirst(ranked, slots);
  }

  lemma {:induction false} ListSizes(nodes: seq<Node>, labelled: set<string>)
    ensures Lengths(Lists(nodes, labelled)) == Sizes(nodes, FamilyList(nodes))
  {
    var families := FamilyList(nodes);
    forall i | 0 <= i < |families| ensures |Ranked(nodes, labelled, families[i])| == |Names(nodes, families[i])| {
      Order.SortPermutes(labelled, Names(nodes, families[i]));
    }
  }
}
