/** The CPU governor baseline: baseline() groups the discovered policies by
    state and stores each group's policy list as text; cpuBaselineGroups reads
    it back against the policies present now. */
module CpuBaseline {
  import opened CpuList
  import GoStrings

  /** A governor, an energy-performance preference and a boost state. */
  datatype Setting = Setting(governor: string, epp: string, boost: string)

  datatype Policy = Policy(id: int, setting: Setting)

  /** One stored group: the policies as a list in text. */
  datatype StoredGroup = StoredGroup(policies: string, setting: Setting)

  /** One group read back. */
  datatype Group = Group(policies: seq<int>, setting: Setting)

  // --- Storing ---------------------------------------------------------------

  /** The states of the policies, each once, in the order they first appear. */
  function Order(states: seq<Policy>): seq<Setting> {
    if states == [] then []
    else
      var n := |states| - 1;
      var order := Order(states[..n]);
      if states[n].setting in order then order else order + [states[n].setting]
  }

  function Members(states: seq<Policy>, k: Setting): seq<int> {
    if states == [] then []
    else
      var n := |states| - 1;
      Members(states[..n], k) + (if states[n].setting == k then [states[n].id] else [])
  }

  function Baseline(states: seq<Policy>): seq<StoredGroup> {
    var order := Order(states);
    seq(|order|, i requires 0 <= i < |order| => StoredGroup(Format(Members(states, order[i])), order[i]))
  }

  method CollectMembers(states: seq<Policy>) returns (order: seq<Setting>, members: map<Setting, seq<int>>)
    ensures order == Order(states)
    ensures forall k :: k in members <==> k in order
    ensures forall k :: k in members ==> members[k] == Members(states, k)
  {
    order, members := [], map[];
    for n := 0 to |states|
      invariant order == Order(states[..n])
      invariant forall k :: k in members <==> k in order
      invariant forall k :: k in members ==> members[k] == Members(states[..n], k)
    {
      var k := states[n].setting;
      assert states[..n + 1][..n] == states[..n];
      NoMembers(states[..n], k);
      if k !in members {
        order := order + [k];
        members := members[k := []];
      }
      members := members[k := members[k] + [states[n].id]];
    }
    assert states[..|states|] == states;
  }

  lemma {:induction false} NoMembers(states: seq<Policy>, k: Setting)
    ensures k !in Order(states) ==> Members(states, k) == []
  {
    if states != [] { NoMembers(states[..|states| - 1], k); }
  }

  method RecordBaseline(states: seq<Policy>) returns (groups: seq<StoredGroup>)
    ensures groups == Baseline(states)
  {
    hide Format;
    var order, members := CollectMembers(states);
    groups := [];
    for i := 0 to |order|
      invariant |groups| == i
      invariant forall k :: 0 <= k < i ==> groups[k] == StoredGroup(Format(Members(states, order[k])), order[k])
    {
      var text := FormatCPUList(members[order[i]]);
      groups := groups + [StoredGroup(text, order[i])];
    }
  }

  // --- Reading back ------------------------------------------------------------

  /** The present policies a stored list holds, in order. */
  function Held(present: seq<int>, list: string): seq<int> {
    if present == [] then []
    else
      var n := |present| - 1;
      Held(present[..n], list) + (if ListHas(list, present[n]) then [present[n]] else [])
  }

  function ReadGroups(present: seq<int>, stored: seq<StoredGroup>): seq<Group> {
    if stored == [] then []
    else
      var n := |stored| - 1;
      var held := Held(present, stored[n].policies);
      ReadGroups(present, stored[..n]) + (if held == [] then [] else [Group(held, stored[n].setting)])
  }

  method CpuBaselineGroups(present: seq<int>, stored: seq<StoredGroup>) returns (groups: seq<Group>)
    ensures groups == ReadGroups(present, stored)
  {
    groups := [];
    for n := 0 to |stored|
      invariant groups == ReadGroups(present, stored[..n])
    {
      assert stored[..n + 1][..n] == stored[..n];
      var held: seq<int> := [];
      for i := 0 to |present|
        invariant held == Held(present[..i], stored[n].policies)
      {
        assert present[..i + 1][..i] == present[..i];
        var has := CpuListHas(stored[n].policies, present[i]);
        if has {
          held := held + [present[i]];
        }
      }
      assert present[..|present|] == present;
      if |held| > 0 {
        groups := groups + [Group(held, stored[n].setting)];
      }
    }
    assert stored[..|stored|] == stored;
  }

  // --- The round trip -----------------------------------------------------------

  /** Policy numbers as discovery finds them: distinct and not negative. */
  ghost predicate PolicyIds(states: seq<Policy>) {
    && (forall i :: 0 <= i < |states| ==> 0 <= states[i].id <= GoStrings.MAX_INT)
    && (forall i, j :: 0 <= i < j < |states| ==> states[i].id != states[j].id)
  }

  lemma {:induction false} MembersHold(states: seq<Policy>, k: Setting, id: int)
    ensures id in Members(states, k) <==> Policy(id, k) in states
  {
    if states != [] {
      var n := |states| - 1;
      MembersHold(states[..n], k, id);
      assert states == states[..n] + [states[n]];
    }
  }

  lemma {:induction false} MembersNonNegative(states: seq<Policy>, k: Setting)
    requires PolicyIds(states)
    ensures AllInts(Members(states, k)) && NoneNegative(Members(states, k))
  {
    if states != [] { MembersNonNegative(states[..|states| - 1], k); }
  }

  lemma {:induction false} OrderComplete(states: seq<Policy>)
    ensures forall i :: 0 <= i < |states| ==> states[i].setting in Order(states)
    ensures forall i, j :: 0 <= i < j < |Order(states)| ==> Order(states)[i] != Order(states)[j]
  {
    if states != [] {
      var n := |states| - 1;
      OrderComplete(states[..n]);
      forall i | 0 <= i < |states| ensures states[i].setting in Order(states) {
        if i < n { assert states[..n][i] == states[i]; }
      }
    }
  }

  /** A stored group with this setting lists the policy. */
  predicate Stores(groups: seq<StoredGroup>, id: int, k: Setting) {
    exists g :: 0 <= g < |groups| && groups[g].setting == k && ListHas(groups[g].policies, id)
  }

  /** The stored groups say exactly which policy was in which state. */
  lemma {:induction false} BaselineStores(states: seq<Policy>, id: int, k: Setting)
    requires PolicyIds(states)
    ensures Stores(Baseline(states), id, k) <==> Policy(id, k) in states
  {
    hide ListHas, Format;
    var order := Order(states);
    OrderComplete(states);
    MembersHold(states, k, id);
    forall g | 0 <= g < |order| ensures ListHas(Baseline(states)[g].policies, id) <==> id in Members(states, order[g]) {
      MembersNonNegative(states, order[g]);
      NonNegativeRoundTrip(Members(states, order[g]), id);
    }
    if Policy(id, k) in states {
      var g :| 0 <= g < |order| && order[g] == k;
      assert Baseline(states)[g].setting == k;
    }
  }

  lemma {:induction false} HeldHolds(present: seq<int>, list: string, id: int)
    ensures id in Held(present, list) <==> id in present && ListHas(list, id)
  {
    if present != [] {
      var n := |present| - 1;
      HeldHolds(present[..n], list, id);
      assert present == present[..n] + [present[n]];
    }
  }


  ghost predicate DistinctSettings(stored: seq<StoredGroup>) {
    forall g, h :: 0 <= g < h < |stored| ==> stored[g].setting != stored[h].setting
  }

  predicate InGroup(groups: seq<Group>, id: int, k: Setting) {
    exists g :: 0 <= g < |groups| && groups[g].setting == k && id in groups[g].policies
  }

  lemma {:induction false} ReadGroupsHold(present: seq<int>, stored: seq<StoredGroup>, id: int, k: Setting)
    ensures InGroup(ReadGroups(present, stored), id, k) <==> id in present && Stores(stored, id, k)
  {
    hide ListHas, Stores, InGroup;
    NothingStored(id, k);
    if stored != [] {
      var n := |stored| - 1;
      var rest, last := ReadGroups(present, stored[..n]), stored[n];
      var held := Held(present, last.policies);
      ReadGroupsHold(present, stored[..n], id, k);
      HeldHolds(present, last.policies, id);
      StoresLast(stored, id, k);
      InGroupLast(rest, Group(held, last.setting), id, k);
      assert rest + [] == rest;
    }
  }

  lemma {:induction false} NothingStored(id: int, k: Setting)
    ensures !InGroup([], id, k) && !Stores([], id, k)
  {}

  lemma {:induction false} StoresLast(stored: seq<StoredGroup>, id: int, k: Setting)
    requires stored != []
    ensures var n := |stored| - 1;
      Stores(stored, id, k) <==> Stores(stored[..n], id, k) || (stored[n].setting == k && ListHas(stored[n].policies, id))
  {
    hide ListHas;
    var n := |stored| - 1;
    if Stores(stored[..n], id, k) {
      var g :| 0 <= g < n && stored[..n][g].setting == k && ListHas(stored[..n][g].policies, id);
      assert stored[g].setting == k && ListHas(stored[g].policies, id);
    }
    if Stores(stored, id, k) {
      var g :| 0 <= g < |stored| && stored[g].setting == k && ListHas(stored[g].policies, id);
      if g < n { assert stored[..n][g] == stored[g]; }
    }
  }

  lemma {:induction false} InGroupLast(groups: seq<Group>, last: Group, id: int, k: Setting)
    ensures InGroup(groups + [last], id, k) <==> InGroup(groups, id, k) || (last.setting == k && id in last.policies)
  {
    var all := groups + [last];
    assert all[|groups|] == last && forall g :: 0 <= g < |groups| ==> all[g] == groups[g];
  }

  lemma {:induction false} ReadSettings(present: seq<int>, stored: seq<StoredGroup>)
    requires DistinctSettings(stored)
    ensures forall g :: 0 <= g < |ReadGroups(present, stored)| ==>
      exists s :: 0 <= s < |stored| && stored[s].setting == ReadGroups(present, stored)[g].setting
    ensures forall g, h :: 0 <= g < h < |ReadGroups(present, stored)| ==>
      ReadGroups(present, stored)[g].setting != ReadGroups(present, stored)[h].setting
  {
    if stored == [] {
      assert ReadGroups(present, stored) == [];
    } else {
      var n := |stored| - 1;
      ReadSettings(present, stored[..n]);
      var all, rest := ReadGroups(present, stored), ReadGroups(present, stored[..n]);
      forall g | 0 <= g < |rest|
        ensures exists s :: 0 <= s < n && stored[s].setting == rest[g].setting
        ensures rest[g].setting != stored[n].setting
      {
        var s :| 0 <= s < n && stored[..n][s].setting == rest[g].setting;
        assert stored[s].setting == rest[g].setting;
      }
      forall g | 0 <= g < |all| ensures exists s :: 0 <= s < |stored| && stored[s].setting == all[g].setting {
        if g < |rest| {
          var s :| 0 <= s < n && stored[s].setting == rest[g].setting;
          assert stored[s].setting == all[g].setting;
        } else {
          assert stored[n].setting == all[g].setting;
        }
      }
    }
  }

  lemma {:induction false} GroupsAreHeld(present: seq<int>, stored: seq<StoredGroup>)
    ensures forall g :: 0 <= g < |ReadGroups(present, stored)| ==> ReadGroups(present, stored)[g].policies != []
  {
    hide Held;
    if stored != [] {
      GroupsAreHeld(present, stored[..|stored| - 1]);
    }
  }

  /** Baseline round trip: stored as text and read back on any list of present
      policies, the groups have different settings, and a policy is in the
      group of a setting exactly when it is present and had that setting. */
  lemma {:induction false} BaselineRoundTrip(states: seq<Policy>, present: seq<int>)
    requires PolicyIds(states)
    ensures var groups := ReadGroups(present, Baseline(states));
      && (forall g, h :: 0 <= g < h < |groups| ==> groups[g].setting != groups[h].setting)
      && (forall g :: 0 <= g < |groups| ==> groups[g].policies != [])
      && (forall id, k :: InGroup(groups, id, k) <==> id in present && Policy(id, k) in states)
  {
    hide ListHas, Format;
    OrderComplete(states);
    assert DistinctSettings(Baseline(states));
    ReadSettings(present, Baseline(states));
    GroupsAreHeld(present, Baseline(states));
    forall id, k ensures InGroup(ReadGroups(present, Baseline(states)), id, k) <==> id in present && Policy(id, k) in states {
      ReadGroupsHold(present, Baseline(states), id, k);
      BaselineStores(states, id, k);
    }
  }

  ghost predicate Increasing(states: seq<Policy>) {
    forall i, j :: 0 <= i < j < |states| ==> states[i].id < states[j].id
  }

  /** Policies in increasing order are determined by which they are. */
  lemma {:induction false} IncreasingUnique(a: seq<Policy>, b: seq<Policy>)
    requires Increasing(a) && Increasing(b)
    requires forall p :: p in a <==> p in b
    ensures a == b
  {
    assert a == [] <==> b == [] by {
      if b != [] { assert b[0] in b; }
      if a != [] { assert a[0] in a; }
    }
    if a != [] {
      assert a[0] in b && b[0] in a;
      assert a[0] == b[0];
      assert a == [a[0]] + a[1..] && b == [b[0]] + b[1..];
      forall p ensures p in a[1..] <==> p in b[1..] {
        if p in a[1..] { assert p in a && p.id > a[0].id; }
        if p in b[1..] { assert p in b && p.id > b[0].id; }
      }
      IncreasingUnique(a[1..], b[1..]);
    }
  }

  /** Equal stored groups come from equal policy states, so comparing the
      groups, as prepare does, loses no change. */
  lemma {:induction false} EqualGroupsEqualStates(a: seq<Policy>, b: seq<Policy>)
    requires PolicyIds(a) && PolicyIds(b) && Increasing(a) && Increasing(b)
    ensures Baseline(a) == Baseline(b) <==> a == b
  {
    if Baseline(a) == Baseline(b) {
      forall p ensures p in a <==> p in b {
        BaselineStores(a, p.id, p.setting);
        BaselineStores(b, p.id, p.setting);
        assert p == Policy(p.id, p.setting);
      }
      IncreasingUnique(a, b);
    }
  }
}
