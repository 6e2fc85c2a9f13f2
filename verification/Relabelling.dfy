/** What PerformanceSet promises from one reconcile to the next: the result does
    not depend on the order of the nodes, a reconcile at constant demand moves
    nothing, and a change of the count moves as few nodes as it can. */
module Relabelling {
  import opened Greedy
  import opened Apportionment
  import Order

  // --- Independence of the input order -----------------------------------

  lemma {:induction false} NamesConcat(a: seq<Node>, b: seq<Node>, f: string)
    ensures Names(a + b, f) == Names(a, f) + Names(b, f)
  {
    if b == [] {
      assert a + b == a;
    } else {
      var n := |b| - 1;
      NamesConcat(a, b[..n], f);
      assert (a + b)[..|a| + n] == a + b[..n];
    }
  }

  lemma {:induction false} NamesWithout(a: seq<Node>, x: Node, b: seq<Node>, f: string)
    ensures multiset(Names(a + [x] + b, f)) == multiset(Names(a + b, f)) + multiset(Names([x], f))
  {
    NamesConcat(a + [x], b, f);
    NamesConcat(a, [x], f);
    NamesConcat(a, b, f);
  }

  lemma {:induction false} Removed<T>(s: seq<T>, x: T) returns (a: seq<T>, b: seq<T>)
    requires x in multiset(s)
    ensures s == a + [x] + b && multiset(a + b) == multiset(s) - multiset([x])
  {
    var i :| 0 <= i < |s| && s[i] == x;
    a, b := s[..i], s[i + 1..];
    assert s == a + [x] + b;
  }

  lemma {:induction false} NamesPermuted(nodes: seq<Node>, other: seq<Node>, f: string)
    requires multiset(nodes) == multiset(other)
    ensures multiset(Names(nodes, f)) == multiset(Names(other, f))
  {
    assert |nodes| == |multiset(nodes)| == |multiset(other)| == |other|;
    if nodes != [] {
      var n := |nodes| - 1;
      var x := nodes[n];
      assert nodes == nodes[..n] + [x];
      var a, b := Removed(other, x);
      NamesPermuted(nodes[..n], a + b, f);
      NamesWithout(a, x, b, f);
      NamesConcat(nodes[..n], [x], f);
    }
  }

  lemma {:induction false} FamiliesPermuted(nodes: seq<Node>, other: seq<Node>)
    requires multiset(nodes) == multiset(other)
    ensures multiset(Families(nodes)) == multiset(Families(other))
  {
    FamiliesListed(nodes);
    FamiliesListed(other);
    forall f ensures multiset(Families(nodes))[f] == multiset(Families(other))[f] {
      MultiplicityOfDistinct(Families(nodes), f);
      MultiplicityOfDistinct(Families(other), f);
      FamilyIn(nodes, other, f);
      FamilyIn(other, nodes, f);
    }
  }

  lemma {:induction false} FamilyIn(nodes: seq<Node>, other: seq<Node>, f: string)
    requires multiset(nodes) == multiset(other)
    ensures f in Families(nodes) ==> f in Families(other)
  {
    FamiliesListed(nodes);
    FamiliesListed(other);
    if f in Families(nodes) {
      var i :| 0 <= i < |nodes| && nodes[i].family == f;
      assert nodes[i] in multiset(other);
    }
  }

  lemma {:induction false} SortCanonical(labelled: set<string>, s: seq<string>, t: seq<string>)
    requires multiset(s) == multiset(t)
    ensures Order.Sort(labelled, s) == Order.Sort(labelled, t)
  {
    Order.SortPermutes(labelled, s);
    Order.SortPermutes(labelled, t);
    Order.SortSorted(labelled, s);
    Order.SortSorted(labelled, t);
    Order.SortedUnique(labelled, Order.Sort(labelled, s), Order.Sort(labelled, t));
  }

  /** The result does not depend on the order of the node list. */
  lemma {:induction false} InputOrderIrrelevant(nodes: seq<Node>, other: seq<Node>, labelled: set<string>, count: int)
    requires multiset(nodes) == multiset(other)
    ensures PerformanceNodes(nodes, labelled, count) == PerformanceNodes(other, labelled, count)
  {
    assert |nodes| == |multiset(nodes)| == |multiset(other)| == |other|;
    FamiliesPermuted(nodes, other);
    SortCanonical({}, Families(nodes), Families(other));
    var families := FamilyList(nodes);
    forall i | 0 <= i < |families|
      ensures Ranked(nodes, labelled, families[i]) == Ranked(other, labelled, families[i])
      ensures |Names(nodes, families[i])| == |Names(other, families[i])|
    {
      NamesPermuted(nodes, other, families[i]);
      SortCanonical(labelled, Names(nodes, families[i]), Names(other, families[i]));
      assert |Names(nodes, families[i])| == |multiset(Names(nodes, families[i]))|;
      assert |Names(other, families[i])| == |multiset(Names(other, families[i]))|;
    }
    assert Lists(nodes, labelled) == Lists(other, labelled);
    assert Sizes(nodes, families) == Sizes(other, families);
  }

  // --- Labelled nodes come first ------------------------------------------

  /** How many of s are labelled. */
  function Count(labelled: set<string>, s: seq<string>): nat {
    if s == [] then 0 else (if s[0] in labelled then 1 else 0) + Count(labelled, s[1..])
  }

  lemma {:induction false} CountInsert(labelled: set<string>, rank: set<string>, x: string, s: seq<string>)
    ensures Count(labelled, Order.Insert(rank, x, s)) == Count(labelled, [x] + s)
  {
    assert ([x] + s)[1..] == s;
    if s != [] && !Order.Before(rank, x, s[0]) {
      CountInsert(labelled, rank, x, s[1..]);
      assert ([x] + s[1..])[1..] == s[1..];
    }
  }

  lemma {:induction false} CountSort(labelled: set<string>, rank: set<string>, s: seq<string>)
    ensures Count(labelled, Order.Sort(rank, s)) == Count(labelled, s)
  {
    if s != [] {
      CountSort(labelled, rank, s[1..]);
      CountInsert(labelled, rank, s[0], Order.Sort(rank, s[1..]));
      assert ([s[0]] + Order.Sort(rank, s[1..]))[1..] == Order.Sort(rank, s[1..]);
    }
  }

  lemma {:induction false} CountPrefix(labelled: set<string>, s: seq<string>, n: nat)
    requires n <= |s| && forall j :: 0 <= j < |s| ==> (s[j] in labelled <==> j < n)
    ensures Count(labelled, s) == n
  {
    if s != [] {
      CountPrefix(labelled, s[1..], if n == 0 then 0 else n - 1);
    }
  }

  lemma {:induction false} LabelledFirst(labelled: set<string>, s: seq<string>, j: nat)
    requires Order.Sorted(labelled, s) && j < |s|
    ensures s[j] in labelled <==> j < Count(labelled, s)
  {
    if s[0] in labelled {
      if j > 0 { LabelledFirst(labelled, s[1..], j - 1); }
    } else {
      assert forall k :: 0 <= k < |s| ==> s[k] !in labelled;
      CountPrefix(labelled, s, 0);
    }
  }

  // --- Unique names ---------------------------------------------------------

  /** No two nodes share a name. */
  ghost predicate UniqueNames(nodes: seq<Node>) {
    forall i, j :: 0 <= i < |nodes| && 0 <= j < |nodes| && nodes[i].name == nodes[j].name ==> i == j
  }

  lemma {:induction false} NamesDistinct(nodes: seq<Node>, f: string)
    requires UniqueNames(nodes)
    ensures Distinct(Names(nodes, f))
  {
    if nodes != [] {
      var n := |nodes| - 1;
      NamesDistinct(nodes[..n], f);
      NamesCount(nodes[..n], f);
      forall x | x in Names(nodes[..n], f) ensures x != nodes[n].name {
        var i :| 0 <= i < n && nodes[..n][i].family == f && nodes[..n][i].name == x;
        assert nodes[i].name == x;
      }
      var before := Names(nodes[..n], f);
      assert forall j :: 0 <= j < |before| ==> before[j] in before;
    }
  }

  /** Lists of names no two of which share a name, in one list or two. */
  ghost predicate AllDistinct(lists: seq<seq<string>>) {
    forall i, j, k, l :: (0 <= i < |lists| && 0 <= j < |lists| && 0 <= k < |lists[i]| && 0 <= l < |lists[j]|
      && lists[i][k] == lists[j][l]) ==> i == j && k == l
  }

  lemma {:induction false} ListsDistinct(nodes: seq<Node>, labelled: set<string>)
    requires UniqueNames(nodes)
    ensures AllDistinct(Lists(nodes, labelled))
  {
    var lists, families := Lists(nodes, labelled), FamilyList(nodes);
    FamilyListed(nodes);
    forall i, j, k, l | 0 <= i < |lists| && 0 <= j < |lists| && 0 <= k < |lists[i]| && 0 <= l < |lists[j]|
      && lists[i][k] == lists[j][l] ensures i == j && k == l
    {
      ListedNode(nodes, labelled, families[i], k);
      ListedNode(nodes, labelled, families[j], l);
      if i == j {
        NamesDistinct(nodes, families[i]);
        Order.SortPermutes(labelled, Names(nodes, families[i]));
        DistinctPermuted(Names(nodes, families[i]), lists[i]);
      }
    }
  }

  lemma {:induction false} ListedNode(nodes: seq<Node>, labelled: set<string>, f: string, k: nat)
    requires k < |Ranked(nodes, labelled, f)|
    ensures exists n :: 0 <= n < |nodes| && nodes[n].family == f && nodes[n].name == Ranked(nodes, labelled, f)[k]
  {
    NamesCount(nodes, f);
    Order.SortPermutes(labelled, Names(nodes, f));
    assert Ranked(nodes, labelled, f)[k] in multiset(Names(nodes, f));
    assert Ranked(nodes, labelled, f)[k] in Names(nodes, f);
  }

  // --- Size -----------------------------------------------------------------

  lemma {:induction false} FirstOfSize(lists: seq<seq<string>>, slots: seq<nat>, n: nat)
    requires |slots| == |lists| && n <= |lists| && AllDistinct(lists)
    requires forall i :: 0 <= i < |lists| ==> slots[i] <= |lists[i]|
    ensures |FirstOf(lists[..n], slots[..n])| == Sum(slots[..n])
  {
    if n > 0 {
      FirstOfSize(lists, slots, n - 1);
      SumPrefix(slots, n);
      PrefixSize(lists[n - 1], slots[n - 1]);
      FirstOfAdds(lists, slots, n - 1);
    }
  }

  lemma {:induction false} FirstOfAdds(lists: seq<seq<string>>, slots: seq<nat>, n: nat)
    requires |slots| == |lists| && n < |lists| && AllDistinct(lists) && slots[n] <= |lists[n]|
    ensures FirstOf(lists[..n + 1], slots[..n + 1]) == FirstOf(lists[..n], slots[..n]) + Prefix(lists[n], slots[n])
    ensures FirstOf(lists[..n], slots[..n]) !! Prefix(lists[n], slots[n])
  {
    FirstOfPrefix(lists, slots, n);
    forall x | x in FirstOf(lists[..n], slots[..n]) ensures x !in Prefix(lists[n], slots[n]) {
      var k, j :| 0 <= k < n && 0 <= j < |lists[..n][k]| && j < slots[..n][k] && lists[..n][k][j] == x;
      assert lists[k][j] == x;
    }
  }

  ghost function Prefix(s: seq<string>, n: nat): set<string>
    requires n <= |s|
  {
    set l | 0 <= l < n :: s[l]
  }

  lemma {:induction false} PrefixStep(s: seq<string>, n: nat)
    requires n < |s| && Distinct(s)
    ensures Prefix(s, n + 1) == Prefix(s, n) + {s[n]} && s[n] !in Prefix(s, n)
  {
  }

  lemma {:induction false} PrefixSize(s: seq<string>, n: nat)
    requires n <= |s| && Distinct(s)
    ensures |Prefix(s, n)| == n
  {
    if n > 0 {
      PrefixSize(s, n - 1);
      PrefixStep(s, n - 1);
      hide Prefix;
    }
  }

  lemma {:induction false} ClampedCount(nodes: seq<Node>, labelled: set<string>, count: int)
    requires UniqueNames(nodes)
    ensures |PerformanceNodes(nodes, labelled, count)| == Clamp(count, |Families(nodes)|, |nodes|)
    ensures |Families(nodes)| <= |nodes|
  {
    var lists, slots := Lists(nodes, labelled), Slots(nodes, count);
    FamilyListed(nodes);
    ListsDistinct(nodes, labelled);
    ListSizes(nodes, labelled);
    SlotsAreProportional(nodes, count, [], 0.0);
    assert forall i :: 0 <= i < |lists| ==> slots[i] <= Lengths(lists)[i];
    FirstOfSize(lists, slots, |lists|);
    assert lists[..|lists|] == lists && slots[..|lists|] == slots;
  }

  /** As many nodes run at performance as the count says, but at least one of each
      family, and at most all. */
  lemma {:induction false} PerformanceCount(nodes: seq<Node>, labelled: set<string>, count: int)
    requires UniqueNames(nodes)
    ensures |Families(nodes)| <= |nodes|
    ensures |PerformanceNodes(nodes, labelled, count)| ==
      if count < |Families(nodes)| then |Families(nodes)| else if count > |nodes| then |nodes| else count
  {
    ClampedCount(nodes, labelled, count);
  }

  // --- Moving from one count to another --------------------------------------

  lemma {:induction false} SlotsMonotone(nodes: seq<Node>, count: int, more: int)
    requires count <= more
    ensures forall i :: 0 <= i < |FamilyList(nodes)| ==> Slots(nodes, count)[i] <= Slots(nodes, more)[i]
    decreases more - count
  {
    if count < more {
      SlotsMonotone(nodes, count, more - 1);
      SplitSetting(nodes, more);
      var b := SlotsForStep(Sizes(nodes, FamilyList(nodes)), more - 1, |nodes|);
    }
  }

  /** A family's performance nodes are the first slots of its list. */
  lemma {:induction false} PrefixTaken(nodes: seq<Node>, prior: set<string>, count: int, i: nat)
    requires UniqueNames(nodes) && i < |FamilyList(nodes)|
    ensures var list, slots := Ranked(nodes, prior, FamilyList(nodes)[i]), Slots(nodes, count)[i];
      slots <= |list| && forall k :: 0 <= k < |list| ==> (list[k] in PerformanceNodes(nodes, prior, count) <==> k < slots)
  {
    var list := Ranked(nodes, prior, FamilyList(nodes)[i]);
    ListsDistinct(nodes, prior);
    ListSizes(nodes, prior);
    SlotsAreProportional(nodes, count, [], 0.0);
    assert Lists(nodes, prior)[i] == list && Lengths(Lists(nodes, prior))[i] == |list|;
    forall k | 0 <= k < |list| && list[k] in PerformanceNodes(nodes, prior, count) ensures k < Slots(nodes, count)[i] {
      var i', k' :| 0 <= i' < |Lists(nodes, prior)| && 0 <= k' < |Lists(nodes, prior)[i']| && k' < Slots(nodes, count)[i']
        && Lists(nodes, prior)[i'][k'] == list[k];
    }
  }

  lemma {:induction false} NamesHold(nodes: seq<Node>, a: nat)
    requires a < |nodes|
    ensures nodes[a].name in Names(nodes, nodes[a].family)
  {
    var n := |nodes| - 1;
    if a < n {
      NamesHold(nodes[..n], a);
    }
  }

  /** Of two nodes of one family, of which only a runs at performance, a was
      labelled so and b was not, or both were, or neither, and a's name comes
      first: at the first character that differs, or as a prefix. */
  lemma {:induction false} TakenByName(nodes: seq<Node>, labelled: set<string>, count: int, a: nat, b: nat)
    requires UniqueNames(nodes) && a < |nodes| && b < |nodes| && nodes[a].family == nodes[b].family
    requires nodes[a].name in PerformanceNodes(nodes, labelled, count)
    requires nodes[b].name !in PerformanceNodes(nodes, labelled, count)
    ensures var x, y := nodes[a].name, nodes[b].name;
      if x in labelled <==> y in labelled then
        x <= y || exists k :: 0 <= k < |x| && k < |y| && x[..k] == y[..k] && x[k] < y[k]
      else x in labelled
  {
    var f := nodes[a].family;
    var i := FamilyIndex(nodes, a);
    var j := RankOf(nodes, labelled, a);
    var k := RankOf(nodes, labelled, b);
    PrefixTaken(nodes, labelled, count, i);
    Order.SortSorted(labelled, Names(nodes, f));
    hide PerformanceNodes, Slots, Names, FamilyList, Order.Sort, Order.Sorted, Order.Before, Order.Leq, UniqueNames;
    SortedMeans(labelled, Ranked(nodes, labelled, f), j, k);
  }

  lemma {:induction false} FamilyIndex(nodes: seq<Node>, a: nat) returns (i: nat)
    requires a < |nodes|
    ensures i < |FamilyList(nodes)| && FamilyList(nodes)[i] == nodes[a].family
  {
    FamiliesListed(nodes);
    Order.SortPermutes({}, Families(nodes));
    assert nodes[a].family in multiset(FamilyList(nodes));
    i :| 0 <= i < |FamilyList(nodes)| && FamilyList(nodes)[i] == nodes[a].family;
  }

  lemma {:induction false} RankOf(nodes: seq<Node>, labelled: set<string>, a: nat) returns (j: nat)
    requires a < |nodes|
    ensures var list := Ranked(nodes, labelled, nodes[a].family); j < |list| && list[j] == nodes[a].name
  {
    var list := Ranked(nodes, labelled, nodes[a].family);
    NamesHold(nodes, a);
    Order.SortPermutes(labelled, Names(nodes, nodes[a].family));
    assert nodes[a].name in multiset(list);
    j :| 0 <= j < |list| && list[j] == nodes[a].name;
  }

  lemma {:induction false} SortedMeans(labelled: set<string>, list: seq<string>, j: nat, k: nat)
    requires Order.Sorted(labelled, list) && j < k < |list|
    ensures var x, y := list[j], list[k];
      if x in labelled <==> y in labelled then
        x <= y || exists k :: 0 <= k < |x| && k < |y| && x[..k] == y[..k] && x[k] < y[k]
      else x in labelled
  {
    assert Order.Before(labelled, list[j], list[k]);
    Order.LeqIsLexicographic(list[j], list[k]);
  }

  /** When the performance nodes are labelled so, each family's list starts
      with exactly its own performance nodes. */
  lemma {:induction false} LabelsLead(nodes: seq<Node>, prior: set<string>, count: int, i: nat, j: nat)
    requires UniqueNames(nodes) && i < |FamilyList(nodes)|
    requires j < |Ranked(nodes, PerformanceNodes(nodes, prior, count), FamilyList(nodes)[i])|
    ensures var now := PerformanceNodes(nodes, prior, count);
      Ranked(nodes, now, FamilyList(nodes)[i])[j] in now <==> j < Slots(nodes, count)[i]
  {
    var now := PerformanceNodes(nodes, prior, count);
    var f := FamilyList(nodes)[i];
    var names := Names(nodes, f);
    var before := Ranked(nodes, prior, f);
    PrefixTaken(nodes, prior, count, i);
    CountPrefix(now, before, Slots(nodes, count)[i]);
    CountSort(now, prior, names);
    CountSort(now, now, names);
    Order.SortSorted(now, names);
    LabelledFirst(now, Order.Sort(now, names), j);
  }

  /** A larger count keeps every performance node, a smaller one adds none. */
  lemma {:induction false} MovesOneWay(nodes: seq<Node>, prior: set<string>, count: int, next: int)
    requires UniqueNames(nodes)
    ensures var now := PerformanceNodes(nodes, prior, count); var after := PerformanceNodes(nodes, now, next);
      (count <= next ==> now <= after) && (next <= count ==> after <= now)
  {
    var now := PerformanceNodes(nodes, prior, count);
    var lists, families := Lists(nodes, now), FamilyList(nodes);
    if next <= count {
      SlotsMonotone(nodes, next, count);
      forall x | x in PerformanceNodes(nodes, now, next) ensures x in now {
        var i, j :| 0 <= i < |lists| && 0 <= j < |lists[i]| && j < Slots(nodes, next)[i] && lists[i][j] == x;
        LabelsLead(nodes, prior, count, i, j);
      }
    }
    if count <= next {
      SlotsMonotone(nodes, count, next);
      forall x | x in now ensures x in PerformanceNodes(nodes, now, next) {
        var i, k :| 0 <= i < |families| && 0 <= k < |Lists(nodes, prior)[i]| && k < Slots(nodes, count)[i]
          && Lists(nodes, prior)[i][k] == x;
        Order.SortPermutes(prior, Names(nodes, families[i]));
        Order.SortPermutes(now, Names(nodes, families[i]));
        assert x in multiset(Ranked(nodes, now, families[i]));
        var j :| 0 <= j < |lists[i]| && lists[i][j] == x;
        LabelsLead(nodes, prior, count, i, j);
      }
    }
  }

  /** A reconcile at constant demand moves nothing, and one that moves the
      count changes the profile of exactly as many nodes as the clamped counts
      differ by. */
  lemma {:induction false} MovesLeast(nodes: seq<Node>, prior: set<string>, count: int, next: int)
    requires UniqueNames(nodes)
    ensures var now := PerformanceNodes(nodes, prior, count); var after := PerformanceNodes(nodes, now, next);
      var families := |Families(nodes)|;
      && (count == next ==> after == now)
      && |after - now| + |now - after|
         == if count <= next then Clamp(next, families, |nodes|) - Clamp(count, families, |nodes|)
            else Clamp(count, families, |nodes|) - Clamp(next, families, |nodes|)
  {
    var now := PerformanceNodes(nodes, prior, count);
    var after := PerformanceNodes(nodes, now, next);
    MovesOneWay(nodes, prior, count, next);
    ClampedCount(nodes, prior, count);
    ClampedCount(nodes, now, next);
    if count <= next {
      assert now - after == {} && after == now + (after - now);
    } else {
      assert after - now == {} && now == after + (now - after);
    }
  }
}
