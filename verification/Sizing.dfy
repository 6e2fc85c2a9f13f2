/** The sizing arithmetic of experiments/kwok-cluster/pool_load.py: the capacity
    performance nodes give each pool, the smallest count whose capacity holds a
    sample's demand (need), and how many samples a list of counts holds. */
module Sizing {
  import opened Apportionment

  function PoolOf(n: Node): string {
    if n.gpuCount > 0 then n.vendor else "cpu"
  }

  function Weight(n: Node): real {
    if n.gpuCount > 0 then n.gpuCount as real else n.cores
  }

  /** No node has a negative number of cores. */
  predicate Sound(nodes: seq<Node>) {
    forall i :: 0 <= i < |nodes| ==> nodes[i].cores >= 0.0
  }

  /** What the named nodes add up to in one pool. */
  function Capacity(nodes: seq<Node>, names: set<string>, pool: string): real {
    if nodes == [] then 0.0
    else
      var n := nodes[|nodes| - 1];
      Capacity(nodes[..|nodes| - 1], names, pool)
        + (if n.name in names && PoolOf(n) == pool then Weight(n) else 0.0)
  }

  function Get(cap: map<string, real>, pool: string): real {
    if pool in cap then cap[pool] else 0.0
  }

  method CapacityOf(nodes: seq<Node>, names: set<string>) returns (cap: map<string, real>)
    ensures forall pool :: Get(cap, pool) == Capacity(nodes, names, pool)
    ensures forall pool :: pool in cap <==> exists i :: 0 <= i < |nodes| && nodes[i].name in names && PoolOf(nodes[i]) == pool
  {
    cap := map[];
    for i := 0 to |nodes|
      invariant forall pool :: Get(cap, pool) == Capacity(nodes[..i], names, pool)
      invariant forall pool :: pool in cap <==> exists k :: 0 <= k < i && nodes[k].name in names && PoolOf(nodes[k]) == pool
    {
      var n := nodes[i];
      assert nodes[..i + 1][..i] == nodes[..i];
      if n.name in names {
        cap := cap[PoolOf(n) := Get(cap, PoolOf(n)) + Weight(n)];
      }
    }
    assert nodes[..|nodes|] == nodes;
  }

  /** Capacity adds up over the inventory. A node counts in one pool only: its GPUs
      in its vendor's, or without GPUs its cores in "cpu". */
  lemma {:induction false} CapacityAdds(before: seq<Node>, n: Node, after: seq<Node>, names: set<string>, pool: string)
    ensures Capacity(before + [n] + after, names, pool) == Capacity(before + after, names, pool) + (
      if n.name !in names then 0.0
      else if n.gpuCount > 0 then if n.vendor == pool then n.gpuCount as real else 0.0
      else if pool == "cpu" then n.cores else 0.0)
    decreases |after|
  {
    if after == [] {
      assert before + [n] + [] == before + [n] && before + [] == before && (before + [n])[..|before|] == before;
    } else {
      var k := |after| - 1;
      CapacityAdds(before, n, after[..k], names, pool);
      assert (before + [n] + after)[..|before| + 1 + k] == before + [n] + after[..k];
      assert (before + after)[..|before| + k] == before + after[..k];
    }
  }

  lemma {:induction false} CapacityMonotone(nodes: seq<Node>, names: set<string>, more: set<string>, pool: string)
    requires Sound(nodes) && names <= more
    ensures Capacity(nodes, names, pool) <= Capacity(nodes, more, pool)
  {
    if nodes != [] {
      CapacityMonotone(nodes[..|nodes| - 1], names, more, pool);
    }
  }

  /** The performance capacity of a pool at a count. */
  function PerformanceCapacity(nodes: seq<Node>, count: int, pool: string): real {
    Capacity(nodes, PerformanceNodes(nodes, {}, count), pool)
  }

  /** A higher count never takes performance capacity from a pool. */
  lemma {:induction false} PerformanceCapacityMonotone(nodes: seq<Node>, count: int, more: int, pool: string)
    requires Sound(nodes) && count <= more
    ensures PerformanceCapacity(nodes, count, pool) <= PerformanceCapacity(nodes, more, pool)
  {
    NestedBetween(nodes, {}, count, more);
    CapacityMonotone(nodes, PerformanceNodes(nodes, {}, count), PerformanceNodes(nodes, {}, more), pool);
  }

  /** The demand of one sample, by pool. */
  type Demand = map<string, real>

  /** The performance capacity at a count holds every pool's demand. */
  predicate HoldsAt(nodes: seq<Node>, demand: Demand, count: int) {
    forall pool :: pool in demand ==> PerformanceCapacity(nodes, count, pool) >= demand[pool]
  }

  /** The search over counts k to n for the first that holds, n when none
      does. */
  function FirstFrom(holds: nat -> bool, n: nat, k: nat): nat
    requires k <= n + 1
    decreases n + 1 - k
  {
    if k == n + 1 then n else if holds(k) then k else FirstFrom(holds, n, k + 1)
  }

  /** The smallest count from 0 to N that holds the demand, N when none does. */
  function Need(nodes: seq<Node>, demand: Demand): nat {
    FirstFrom(k => HoldsAt(nodes, demand, k), |nodes|, 0)
  }

  lemma {:induction false} FirstFromIsFirst(holds: nat -> bool, n: nat, k: nat)
    requires k <= n + 1
    ensures var need := FirstFrom(holds, n, k);
      need <= n && (holds(need) || need == n) && forall j: nat :: k <= j < need ==> !holds(j)
    decreases n + 1 - k
  {
    if k <= n && !holds(k) {
      FirstFromIsFirst(holds, n, k + 1);
    }
  }

  lemma {:induction false} NeedIsFirst(nodes: seq<Node>, demand: Demand)
    ensures var need := Need(nodes, demand);
      && need <= |nodes|
      && (HoldsAt(nodes, demand, need) || need == |nodes|)
      && forall j: nat :: j < need ==> !HoldsAt(nodes, demand, j)
  {
    var holds: nat -> bool := k => HoldsAt(nodes, demand, k);
    FirstFromIsFirst(holds, |nodes|, 0);
    forall j: nat | j < Need(nodes, demand) ensures !HoldsAt(nodes, demand, j) {
      assert !holds(j);
    }
  }

  lemma {:induction false} HoldsAtMonotone(nodes: seq<Node>, demand: Demand, count: int, more: int)
    requires Sound(nodes) && count <= more && HoldsAt(nodes, demand, count)
    ensures HoldsAt(nodes, demand, more)
  {
    forall pool | pool in demand ensures PerformanceCapacity(nodes, more, pool) >= demand[pool] {
      PerformanceCapacityMonotone(nodes, count, more, pool);
    }
  }

  lemma {:induction false} NeedDecides(nodes: seq<Node>, demand: Demand, k: nat)
    requires Sound(nodes) && HoldsAt(nodes, demand, |nodes|)
    ensures Need(nodes, demand) <= k <==> HoldsAt(nodes, demand, k)
  {
    NeedIsFirst(nodes, demand);
    if Need(nodes, demand) <= k {
      HoldsAtMonotone(nodes, demand, Need(nodes, demand), k);
    }
  }

  /** Comparing a count with need decides whether that count holds the demand,
      for every count, exactly when all the nodes together hold it: without
      that, need is N although N does not hold it. */
  lemma {:induction false} NeedMeansHolding(nodes: seq<Node>, demand: Demand)
    requires Sound(nodes)
    ensures (forall k: nat :: Need(nodes, demand) <= k <==> HoldsAt(nodes, demand, k))
       <==> HoldsAt(nodes, demand, |nodes|)
  {
    if HoldsAt(nodes, demand, |nodes|) {
      forall k: nat ensures Need(nodes, demand) <= k <==> HoldsAt(nodes, demand, k) {
        NeedDecides(nodes, demand, k);
      }
    } else {
      NeedIsFirst(nodes, demand);
    }
  }

  // --- Samples ----------------------------------------------------------------

  function Needs(nodes: seq<Node>, demands: seq<Demand>): seq<nat> {
    seq(|demands|, i requires 0 <= i < |demands| => Need(nodes, demands[i]))
  }

  /** The samples whose need is within the count the policy had then. */
  function Holds(needs: seq<nat>, counts: seq<int>): nat
    requires |needs| == |counts|
  {
    if needs == [] then 0
    else
      var n := |needs| - 1;
      Holds(needs[..n], counts[..n]) + (if needs[n] <= counts[n] then 1 else 0)
  }

  /** The samples whose demand the count holds. */
  ghost function HeldSamples(nodes: seq<Node>, demands: seq<Demand>, counts: seq<int>): nat
    requires |demands| == |counts|
  {
    if demands == [] then 0
    else
      var n := |demands| - 1;
      HeldSamples(nodes, demands[..n], counts[..n]) + (if HoldsAt(nodes, demands[n], counts[n]) then 1 else 0)
  }

  /** holds counts the samples held, on a cluster that can hold each of them. */
  lemma {:induction false} HoldsCountsHeldSamples(nodes: seq<Node>, demands: seq<Demand>, counts: seq<int>)
    requires Sound(nodes) && |demands| == |counts|
    requires forall i :: 0 <= i < |demands| ==> counts[i] >= 0 && HoldsAt(nodes, demands[i], |nodes|)
    ensures Holds(Needs(nodes, demands), counts) == HeldSamples(nodes, demands, counts)
  {
    if demands != [] {
      var n := |demands| - 1;
      HoldsCountsHeldSamples(nodes, demands[..n], counts[..n]);
      assert Needs(nodes, demands)[..n] == Needs(nodes, demands[..n]);
      NeedDecides(nodes, demands[n], counts[n]);
    }
  }

  /** The smallest fixed count that holds every sample is the largest need. */
  lemma {:induction false} LargestNeedHoldsAll(nodes: seq<Node>, demands: seq<Demand>, count: nat)
    requires Sound(nodes)
    requires forall i :: 0 <= i < |demands| ==> HoldsAt(nodes, demands[i], |nodes|)
    ensures (forall i :: 0 <= i < |demands| ==> Needs(nodes, demands)[i] <= count)
       <==> (forall i :: 0 <= i < |demands| ==> HoldsAt(nodes, demands[i], count))
  {
    forall i | 0 <= i < |demands| ensures Needs(nodes, demands)[i] <= count <==> HoldsAt(nodes, demands[i], count) {
      NeedDecides(nodes, demands[i], count);
    }
  }
}
