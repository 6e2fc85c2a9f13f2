/** restoreCPU: the stored baseline planned on the policies present now
    (PlanCPUGroups) and written back in three phases, governors, then
    preferences, then boost, each phase's writes chosen when it starts. */
module CpuRestore {
  import opened Results
  import opened Sysfs
  import opened CpuBaseline

  // --- The plan ----------------------------------------------------------------

  /** Where boost is set on a node. */
  datatype BoostScope = NoBoostFile | GlobalFile | NoTurboFile | PerPolicy

  /** One write per policy, none when the group leaves the attribute alone. */
  function GroupWrites(policies: seq<int>, attr: int -> Attr, value: string): seq<Write> {
    if value == "" || policies == [] then []
    else
      var n := |policies| - 1;
      GroupWrites(policies[..n], attr, value) + [Write(attr(policies[n]), value)]
  }

  function PlanFor(groups: seq<Group>, attr: int -> Attr, value: Setting -> string): seq<Write> {
    if groups == [] then []
    else
      var n := |groups| - 1;
      PlanFor(groups[..n], attr, value) + GroupWrites(groups[n].policies, attr, value(groups[n].setting))
  }

  const GovernorOf: int -> Attr := (id: int) => Governor(id)
  const PreferenceOf: int -> Attr := (id: int) => Preference(id)
  const BoostOf: int -> Attr := (id: int) => PolicyBoost(id)
  const GovernorWord: Setting -> string := (k: Setting) => k.governor
  const PreferenceWord: Setting -> string := (k: Setting) => k.epp

  function Bit(boost: string, inverted: bool): string {
    if (boost == "on") != inverted then "1" else "0"
  }

  const BoostBit: Setting -> string := (k: Setting) => if k.boost == "" then "" else Bit(k.boost, false)

  /** Boost is per policy, or one file that the first group with a word sets. */
  function BoostPlan(scope: BoostScope, groups: seq<Group>): seq<Write> {
    if scope == PerPolicy then PlanFor(groups, BoostOf, BoostBit)
    else if groups == [] then []
    else if groups[0].setting.boost == "" then BoostPlan(scope, groups[1..])
    else match scope
      case GlobalFile => [Write(GlobalBoost, Bit(groups[0].setting.boost, false))]
      case NoTurboFile => [Write(NoTurbo, Bit(groups[0].setting.boost, true))]
      case _ => []
  }

  method PlanCpuGroups(scope: BoostScope, groups: seq<Group>)
    returns (governors: seq<Write>, epps: seq<Write>, boost: seq<Write>)
    ensures governors == PlanFor(groups, GovernorOf, GovernorWord)
    ensures epps == PlanFor(groups, PreferenceOf, PreferenceWord)
    ensures boost == BoostPlan(scope, groups)
  {
    governors, epps := [], [];
    for g := 0 to |groups|
      invariant governors == PlanFor(groups[..g], GovernorOf, GovernorWord)
      invariant epps == PlanFor(groups[..g], PreferenceOf, PreferenceWord)
    {
      assert groups[..g + 1][..g] == groups[..g];
      var ids, k := groups[g].policies, groups[g].setting;
      ghost var governors0, epps0 := governors, epps;
      for i := 0 to |ids|
        invariant governors == governors0 + GroupWrites(ids[..i], GovernorOf, k.governor)
        invariant epps == epps0 + GroupWrites(ids[..i], PreferenceOf, k.epp)
      {
        assert ids[..i + 1][..i] == ids[..i];
        if k.governor != "" {
          governors := governors + [Write(Governor(ids[i]), k.governor)];
        }
        if k.epp != "" {
          epps := epps + [Write(Preference(ids[i]), k.epp)];
        }
      }
      assert ids[..|ids|] == ids;
    }
    assert groups[..|groups|] == groups;
    boost := PlanBoost(scope, groups);
  }

  /** CPUBoostWrites: what sets the boost word on these policies. */
  method CpuBoostWrites(scope: BoostScope, policies: seq<int>, boost: string) returns (writes: seq<Write>)
    requires boost != ""
    ensures scope == PerPolicy ==> writes == GroupWrites(policies, BoostOf, Bit(boost, false))
    ensures scope == GlobalFile ==> writes == [Write(GlobalBoost, Bit(boost, false))]
    ensures scope == NoTurboFile ==> writes == [Write(NoTurbo, Bit(boost, true))]
    ensures scope == NoBoostFile ==> writes == []
  {
    match scope {
      case GlobalFile => return [Write(GlobalBoost, Bit(boost, false))];
      case NoTurboFile => return [Write(NoTurbo, Bit(boost, true))];
      case NoBoostFile => return [];
      case PerPolicy =>
    }
    writes := [];
    for i := 0 to |policies|
      invariant writes == GroupWrites(policies[..i], BoostOf, Bit(boost, false))
    {
      assert policies[..i + 1][..i] == policies[..i];
      writes := writes + [Write(PolicyBoost(policies[i]), Bit(boost, false))];
    }
    assert policies[..|policies|] == policies;
  }

  /** The boost phase: every group's word on its policies, or the first word in
      the node's one file. */
  method PlanBoost(scope: BoostScope, groups: seq<Group>) returns (boost: seq<Write>)
    ensures boost == BoostPlan(scope, groups)
  {
    boost := [];
    if scope == PerPolicy {
      for g := 0 to |groups|
        invariant boost == PlanFor(groups[..g], BoostOf, BoostBit)
      {
        assert groups[..g + 1][..g] == groups[..g];
        var k := groups[g].setting;
        if k.boost != "" {
          var writes := CpuBoostWrites(scope, groups[g].policies, k.boost);
          boost := boost + writes;
        }
      }
      assert groups[..|groups|] == groups;
      return;
    }
    for g := 0 to |groups|
      invariant boost == [] && BoostPlan(scope, groups) == BoostPlan(scope, groups[g..])
    {
      assert groups[g..][1..] == groups[g + 1..];
      if groups[g].setting.boost != "" {
        boost := CpuBoostWrites(scope, [], groups[g].setting.boost);
        return;
      }
    }
  }

  /** cpuBaselineBoostWrites before it drops what already reads its value: the
      baseline's boost, then the global file the agent turned on for a
      per-policy boost. */
  function BaselineBoostPlan(scope: BoostScope, groups: seq<Group>, globalSeen: string): seq<Write> {
    BoostPlan(scope, groups)
      + (if globalSeen != "" && scope == PerPolicy then [Write(GlobalBoost, globalSeen)] else [])
  }

  // --- The phases ----------------------------------------------------------------

  datatype PhaseRun = PhaseRun(wrote: nat, failure: Option<Result>, end: HostState, issued: seq<Write>)

  /** A phase writes what differs when it starts; after a failure, nothing. */
  function NextPhase(driver: Driver, r: PhaseRun, plan: seq<Write>): PhaseRun {
    if r.failure.Some? then r
    else
      var writes := Differing(r.end.contents, plan);
      var v := Verify(driver, r.end, writes);
      PhaseRun(r.wrote + v.wrote, v.failure, v.end, r.issued + IssuedBy(driver, r.end, writes))
  }

  /** The first n phases. */
  function RunPhases(driver: Driver, s: HostState, phases: seq<seq<Write>>, n: nat): PhaseRun
    requires n <= |phases|
  {
    if n == 0 then PhaseRun(0, None, s, []) else NextPhase(driver, RunPhases(driver, s, phases, n - 1), phases[n - 1])
  }

  function Plan(scope: BoostScope, groups: seq<Group>, boostOwed: bool, globalSeen: string): seq<seq<Write>> {
    [PlanFor(groups, GovernorOf, GovernorWord), PlanFor(groups, PreferenceOf, PreferenceWord),
     if boostOwed then BaselineBoostPlan(scope, groups, globalSeen) else []]
  }

  /** What restoreCPU reports: the result, the writes that reported no error,
      and whether there was anything to do. */
  datatype Outcome = Outcome(result: Result, wrote: nat, attempted: bool)

  function RestoreOutcome(r: PhaseRun): Outcome {
    match r.failure
    case Some(f) => Outcome(f, r.wrote, true)
    case None => Outcome(Restored, r.wrote, r.wrote > 0)
  }

  method WritePhase(host: Host, plan: seq<Write>, before: nat, ghost issued: seq<Write>)
    returns (total: nat, failure: Option<Result>, ghost all: seq<Write>)
    requires host.Valid()
    modifies host
    ensures host.Valid()
    ensures PhaseRun(total, failure, host.State(), all)
         == NextPhase(host.driver, PhaseRun(before, None, old(host.State()), issued), plan)
    ensures issued <= all && host.events == old(host.events) + Wrotes(all[|issued|..])
  {
    var writes := host.DifferingWrites(plan);
    IssuedPrefix(host.driver, host.State(), writes);
    all := issued + IssuedBy(host.driver, host.State(), writes);
    var wrote, taken;
    ghost var news;
    wrote, taken, failure, news := host.WriteVerified(writes);
    total := before + wrote;
  }

  method RestoreCPU(host: Host, scope: BoostScope, present: seq<int>, baseline: Option<seq<StoredGroup>>,
                    boostWritten: bool, globalSeen: string) returns (out: Outcome)
    requires host.Valid()
    modifies host
    ensures host.Valid()
    ensures baseline.None? ==>
      out == Outcome(Error, 0, false) && host.State() == old(host.State()) && host.events == old(host.events)
    ensures baseline.Some? ==>
      var phases := Plan(scope, ReadGroups(present, baseline.value), boostWritten || globalSeen != "", globalSeen);
      var r := RunPhases(host.driver, old(host.State()), phases, 3);
      out == RestoreOutcome(r) && host.State() == r.end && host.events == old(host.events) + Wrotes(r.issued)
  {
    hide NextPhase, Verify, PlanFor, BoostPlan, ReadGroups;
    if baseline.None? {
      return Outcome(Error, 0, false);
    }
    var groups := CpuBaselineGroups(present, baseline.value);
    var governors, epps, boost := PlanCpuGroups(scope, groups);
    var boostOwed := boostWritten || globalSeen != "";
    ghost var phases := Plan(scope, groups, boostOwed, globalSeen);
    ghost var start := host.State();
    var total := 0;
    ghost var issued: seq<Write> := [];
    for p := 0 to 3
      invariant host.Valid() && PhaseRun(total, None, host.State(), issued) == RunPhases(host.driver, start, phases, p)
      invariant host.events == old(host.events) + Wrotes(issued)
    {
      var plan := if p == 0 then governors else if p == 1 then epps else if !boostOwed then []
                  else boost + (if globalSeen != "" && scope == PerPolicy then [Write(GlobalBoost, globalSeen)] else []);
      assert phases[p] == plan;
      ghost var before := issued;
      var failure;
      total, failure, issued := WritePhase(host, plan, total, issued);
      assert Wrotes(issued) == Wrotes(before) + Wrotes(issued[|before|..]);
      if failure.Some? {
        FailureStays(host.driver, start, phases, p + 1, 3);
        return Outcome(failure.value, total, true);
      }
    }
    return Outcome(Restored, total, total > 0);
  }

  lemma {:induction false} FailureStays(driver: Driver, s: HostState, phases: seq<seq<Write>>, n: nat, m: nat)
    requires n <= m <= |phases|
    ensures RunPhases(driver, s, phases, n).failure.Some? ==> RunPhases(driver, s, phases, m) == RunPhases(driver, s, phases, n)
  {
    hide Verify, Differing;
    if n < m { FailureStays(driver, s, phases, n, m - 1); }
  }

  /** Only an attribute that differs is written: every write issued was planned
      for a phase, and read otherwise when that phase started. */
  lemma {:induction false} OnlyDifferencesWritten(driver: Driver, s: HostState, phases: seq<seq<Write>>, n: nat,
                                                  w: Write)
    requires n <= |phases| && w in RunPhases(driver, s, phases, n).issued
    ensures exists p :: 0 <= p < n && w in phases[p] && Read(RunPhases(driver, s, phases, p).end.contents, w.attr) != w.value
  {
    if n > 0 {
      var r := RunPhases(driver, s, phases, n - 1);
      if w in r.issued {
        OnlyDifferencesWritten(driver, s, phases, n - 1, w);
      } else {
        var writes := Differing(r.end.contents, phases[n - 1]);
        IssuedPrefix(driver, r.end, writes);
        assert w in writes;
        DifferingIn(r.end.contents, phases[n - 1], w);
      }
    }
  }

  /** A failure is never reported as restored, so the report tells which it was. */
  lemma {:induction false} ReportTellsSuccess(driver: Driver, s: HostState, phases: seq<seq<Write>>, n: nat)
    requires n <= |phases|
    ensures var r := RunPhases(driver, s, phases, n);
      RestoreOutcome(r).result == Restored <==> r.failure.None?
  {
    if n > 0 {
      ReportTellsSuccess(driver, s, phases, n - 1);
      var r := RunPhases(driver, s, phases, n - 1);
      FailuresAreFailures(driver, r.end, Differing(r.end.contents, phases[n - 1]));
      hide Verify, Differing, IssuedBy;
    }
  }

  /** A failure other than a failed readback is an error of the driver's, for a
      write that was issued and is not counted. */
  function Uncounted(failure: Option<Result>): nat {
    if failure.Some? && failure.value != NotApplied then 1 else 0
  }

  lemma {:induction false} VerifyCounts(driver: Driver, s: HostState, writes: seq<Write>)
    ensures var r := Verify(driver, s, writes); r.wrote + Uncounted(r.failure) == |IssuedBy(driver, s, writes)|
    decreases |writes|
  {
    if writes != [] {
      VerifyCounts(driver, After(driver, s, writes[0]), writes[1..]);
    }
  }

  predicate Counted(r: PhaseRun) {
    r.wrote + Uncounted(r.failure) == |r.issued|
  }

  lemma {:induction false} PhaseCounts(driver: Driver, r: PhaseRun, plan: seq<Write>)
    requires Counted(r)
    ensures Counted(NextPhase(driver, r, plan))
  {
    VerifyCounts(driver, r.end, Differing(r.end.contents, plan));
    hide Verify, Differing, IssuedBy;
  }

  lemma {:induction false} RunsCount(driver: Driver, s: HostState, phases: seq<seq<Write>>, n: nat)
    requires n <= |phases|
    ensures Counted(RunPhases(driver, s, phases, n))
  {
    if n > 0 {
      RunsCount(driver, s, phases, n - 1);
      PhaseCounts(driver, RunPhases(driver, s, phases, n - 1), phases[n - 1]);
      hide NextPhase, Counted;
    }
  }

  /** The count reported is that of the writes issued, less one the driver refused,
      and the restore is called attempted when one was issued, or failed. */
  lemma {:induction false} WritesCounted(driver: Driver, s: HostState, phases: seq<seq<Write>>, n: nat)
    requires n <= |phases|
    ensures var r := RunPhases(driver, s, phases, n); var out := RestoreOutcome(r);
      && out.wrote + (if r.failure.Some? && r.failure.value != NotApplied then 1 else 0) == |r.issued|
      && (out.attempted <==> r.failure.Some? || r.issued != [])
  {
    RunsCount(driver, s, phases, n);
    hide RunPhases;
  }

  // --- What a restore leaves behind -------------------------------------------------

  const IsGovernor: Attr -> bool := (a: Attr) => a.Governor?
  const IsPreference: Attr -> bool := (a: Attr) => a.Preference?
  const IsBoost: Attr -> bool := (a: Attr) => a.PolicyBoost? || a.GlobalBoost? || a.NoTurbo?

  /** A write of a governor leaves the other policies' governors alone, and may
      change any preference; a preference or boost write leaves governors and
      the other preferences alone. */
  ghost predicate CpufreqDriver(driver: Driver) {
    && Leaves(driver, IsGovernor, IsGovernor)
    && Leaves(driver, IsPreference, IsPreference) && Leaves(driver, IsPreference, IsGovernor)
    && Leaves(driver, IsBoost, IsPreference) && Leaves(driver, IsBoost, IsGovernor)
  }

  lemma {:induction false} GroupWritesIn(policies: seq<int>, attr: int -> Attr, value: string, w: Write)
    ensures w in GroupWrites(policies, attr, value)
       <==> (value != "" && w.value == value && exists i :: 0 <= i < |policies| && w.attr == attr(policies[i]))
  {
    if value == "" || policies == [] {
      assert GroupWrites(policies, attr, value) == [];
    } else {
      var n := |policies| - 1;
      var rest, last := GroupWrites(policies[..n], attr, value), Write(attr(policies[n]), value);
      GroupWritesIn(policies[..n], attr, value, w);
      if i :| 0 <= i < n && w.attr == attr(policies[..n][i]) {
        assert w.attr == attr(policies[i]);
      }
      if i :| 0 <= i < |policies| && w.value == value && w.attr == attr(policies[i]) {
        assert i < n ==> w.attr == attr(policies[..n][i]);
        assert i == n ==> w == last;
      }
    }
  }

  predicate Names(groups: seq<Group>, attr: int -> Attr, value: Setting -> string, w: Write, g: int, i: int) {
    && 0 <= g < |groups| && 0 <= i < |groups[g].policies|
    && w == Write(attr(groups[g].policies[i]), value(groups[g].setting))
  }

  /** What the plan writes: exactly the non-empty words of the groups. */
  lemma {:induction false} PlanForIn(groups: seq<Group>, attr: int -> Attr, value: Setting -> string, w: Write)
    ensures w in PlanFor(groups, attr, value) <==> w.value != "" && exists g, i :: Names(groups, attr, value, w, g, i)
  {
    if groups == [] {
      assert PlanFor(groups, attr, value) == [];
    } else {
      var n := |groups| - 1;
      assert PlanFor(groups, attr, value)
          == PlanFor(groups[..n], attr, value) + GroupWrites(groups[n].policies, attr, value(groups[n].setting));
      hide GroupWrites, PlanFor;
      PlanForIn(groups[..n], attr, value, w);
      var last := groups[n];
      GroupWritesIn(last.policies, attr, value(last.setting), w);
      if i :| 0 <= i < |last.policies| && w.attr == attr(last.policies[i]) && w.value == value(last.setting) {
        assert Names(groups, attr, value, w, n, i);
      }
      if g, i :| Names(groups[..n], attr, value, w, g, i) {
        assert Names(groups, attr, value, w, g, i);
      }
      if g, i :| Names(groups, attr, value, w, g, i) {
        assert g < n ==> Names(groups[..n], attr, value, w, g, i);
      }
    }
  }

  ghost predicate Injective(attr: int -> Attr) {
    forall a, b {:trigger attr(a), attr(b)} :: attr(a) == attr(b) ==> a == b
  }

  /** On a baseline read back, the plan gives every present policy its stored
      word, and nothing else. */
  lemma {:induction false} PlanIsBaseline(states: seq<Policy>, present: seq<int>, attr: int -> Attr,
                                          value: Setting -> string, w: Write)
    requires PolicyIds(states) && Injective(attr)
    ensures w in PlanFor(ReadGroups(present, Baseline(states)), attr, value)
       <==> w.value != "" && exists p :: p in states && p.id in present && w == Write(attr(p.id), value(p.setting))
  {
    var groups := ReadGroups(present, Baseline(states));
    BaselineRoundTrip(states, present);
    PlanForIn(groups, attr, value, w);
    if p :| p in states && p.id in present && w == Write(attr(p.id), value(p.setting)) {
      assert Policy(p.id, p.setting) == p && InGroup(groups, p.id, p.setting);
      var g :| 0 <= g < |groups| && groups[g].setting == p.setting && p.id in groups[g].policies;
      var i :| 0 <= i < |groups[g].policies| && groups[g].policies[i] == p.id;
      assert Names(groups, attr, value, w, g, i);
    }
    if g, i :| Names(groups, attr, value, w, g, i) {
      var p := Policy(groups[g].policies[i], groups[g].setting);
      assert InGroup(groups, p.id, p.setting);
      assert p in states;
    }
  }

  lemma {:induction false} PlanConsistent(states: seq<Policy>, present: seq<int>, attr: int -> Attr,
                                          value: Setting -> string)
    requires PolicyIds(states) && Injective(attr)
    ensures Consistent(PlanFor(ReadGroups(present, Baseline(states)), attr, value))
  {
    var plan := PlanFor(ReadGroups(present, Baseline(states)), attr, value);
    forall i, j | 0 <= i < |plan| && 0 <= j < |plan| && plan[i].attr == plan[j].attr ensures plan[i] == plan[j] {
      PlanIsBaseline(states, present, attr, value, plan[i]);
      PlanIsBaseline(states, present, attr, value, plan[j]);
      var p :| p in states && p.id in present && plan[i] == Write(attr(p.id), value(p.setting));
      var q :| q in states && q.id in present && plan[j] == Write(attr(q.id), value(q.setting));
      assert p.id == q.id;
    }
  }

  /** Phased restore: whatever the agent and the driver did since, when
      restoreCPU reports the baseline restored, every policy that is still
      present runs the governor and the preference it had when the baseline
      was recorded. */
  lemma {:induction false} RestoredIsBaseline(driver: Driver, s: HostState, states: seq<Policy>, present: seq<int>,
                                              scope: BoostScope, boostOwed: bool, globalSeen: string, p: Policy)
    requires CpufreqDriver(driver) && PolicyIds(states) && p in states && p.id in present
    ensures var r := RunPhases(driver, s, Plan(scope, ReadGroups(present, Baseline(states)), boostOwed, globalSeen), 3);
      RestoreOutcome(r).result == Restored ==>
        && (p.setting.governor != "" ==> Read(r.end.contents, Governor(p.id)) == p.setting.governor)
        && (p.setting.epp != "" ==> Read(r.end.contents, Preference(p.id)) == p.setting.epp)
  {
    var groups := ReadGroups(present, Baseline(states));
    var phases := Plan(scope, groups, boostOwed, globalSeen);
    var r1 := Verify(driver, s, Differing(s.contents, phases[0]));
    var r2 := Verify(driver, r1.end, Differing(r1.end.contents, phases[1]));
    var r3 := Verify(driver, r2.end, Differing(r2.end.contents, phases[2]));
    ThreePhases(driver, s, phases);
    PlanKinds(scope, groups, boostOwed, globalSeen);
    ReportTellsSuccess(driver, s, phases, 3);
    if RunPhases(driver, s, phases, 3).failure.None? {
      if p.setting.governor != "" {
        WordRestored(driver, s, states, present, GovernorOf, GovernorWord, IsGovernor, p);
        PhaseLeaves(driver, IsPreference, IsGovernor, r1.end, phases[1], Governor(p.id));
        PhaseLeaves(driver, IsBoost, IsGovernor, r2.end, phases[2], Governor(p.id));
      }
      if p.setting.epp != "" {
        WordRestored(driver, r1.end, states, present, PreferenceOf, PreferenceWord, IsPreference, p);
        PhaseLeaves(driver, IsBoost, IsPreference, r2.end, phases[2], Preference(p.id));
      }
    }
  }

  lemma {:induction false} ThreePhases(driver: Driver, s: HostState, phases: seq<seq<Write>>)
    requires |phases| == 3
    ensures var r1 := Verify(driver, s, Differing(s.contents, phases[0]));
      var r2 := Verify(driver, r1.end, Differing(r1.end.contents, phases[1]));
      var r3 := Verify(driver, r2.end, Differing(r2.end.contents, phases[2]));
      RunPhases(driver, s, phases, 3).failure.None? ==>
        r1.failure.None? && r2.failure.None? && r3.failure.None? && RunPhases(driver, s, phases, 3).end == r3.end
  {
    hide Verify, Differing;
    assert RunPhases(driver, s, phases, 0) == PhaseRun(0, None, s, []);
    assert RunPhases(driver, s, phases, 2) == NextPhase(driver, RunPhases(driver, s, phases, 1), phases[1]);
  }

  lemma {:induction false} WordRestored(driver: Driver, s: HostState, states: seq<Policy>, present: seq<int>,
                                        attr: int -> Attr, value: Setting -> string, of: Attr -> bool, p: Policy)
    requires PolicyIds(states) && Injective(attr) && p in states && p.id in present && value(p.setting) != ""
    requires Leaves(driver, of, of) && forall id :: of(attr(id))
    ensures var plan := PlanFor(ReadGroups(present, Baseline(states)), attr, value);
      var r := Verify(driver, s, Differing(s.contents, plan));
      r.failure.None? ==> Read(r.end.contents, attr(p.id)) == value(p.setting)
  {
    var plan := PlanFor(ReadGroups(present, Baseline(states)), attr, value);
    if Verify(driver, s, Differing(s.contents, plan)).failure.None? {
      var w := Write(attr(p.id), value(p.setting));
      PlanConsistent(states, present, attr, value);
      PlanIsBaseline(states, present, attr, value, w);
      forall i | 0 <= i < |plan| ensures of(plan[i].attr) {
        PlanIsBaseline(states, present, attr, value, plan[i]);
      }
      PhaseRestores(driver, of, s, plan, w);
    }
  }

  lemma {:induction false} PhaseLeaves(driver: Driver, of: Attr -> bool, those: Attr -> bool, s: HostState,
                                       plan: seq<Write>, a: Attr)
    requires Leaves(driver, of, those) && those(a) && !of(a)
    requires forall i :: 0 <= i < |plan| ==> of(plan[i].attr)
    ensures Read(Verify(driver, s, Differing(s.contents, plan)).end.contents, a) == Read(s.contents, a)
  {
    var writes := Differing(s.contents, plan);
    forall i | 0 <= i < |writes| ensures of(writes[i].attr) {
      DifferingIn(s.contents, plan, writes[i]);
    }
    VerifyLeaves(driver, of, those, s, writes, a);
  }

  lemma {:induction false} PlanKinds(scope: BoostScope, groups: seq<Group>, boostOwed: bool, globalSeen: string)
    ensures var phases := Plan(scope, groups, boostOwed, globalSeen);
      && (forall i :: 0 <= i < |phases[1]| ==> IsPreference(phases[1][i].attr))
      && (forall i :: 0 <= i < |phases[2]| ==> IsBoost(phases[2][i].attr))
  {
    var epps := PlanFor(groups, PreferenceOf, PreferenceWord);
    forall i | 0 <= i < |epps| ensures IsPreference(epps[i].attr) {
      PlanForIn(groups, PreferenceOf, PreferenceWord, epps[i]);
    }
    BoostPlanIsBoost(scope, groups);
  }

  lemma {:induction false} BoostPlanIsBoost(scope: BoostScope, groups: seq<Group>)
    ensures forall i :: 0 <= i < |BoostPlan(scope, groups)| ==> IsBoost(BoostPlan(scope, groups)[i].attr)
  {
    if scope == PerPolicy {
      forall i | 0 <= i < |BoostPlan(scope, groups)| ensures IsBoost(BoostPlan(scope, groups)[i].attr) {
        PlanForIn(groups, BoostOf, BoostBit, BoostPlan(scope, groups)[i]);
      }
    } else if groups != [] {
      BoostPlanIsBoost(scope, groups[1..]);
    }
  }

  /** A driver that takes every write, and resets the preference of policy 0
      with its governor. */
  const ResettingDriver: Driver := (t: nat, w: Write, m: Contents) =>
    if w.attr == Governor(0) then Reaction(None, m[w.attr := w.value][Preference(0) := "balance_power"])
    else Reaction(None, m[w.attr := w.value])

  lemma {:induction false} ResettingDriverIsCpufreq()
    ensures CpufreqDriver(ResettingDriver)
  {}

  lemma {:induction false} VerifyOne(driver: Driver, s: HostState, w: Write)
    requires driver(s.time, w, s.contents).error.None? && Read(After(driver, s, w).contents, w.attr) == w.value
    ensures Verify(driver, s, [w]) == Run(1, [w], None, After(driver, s, w))
  {
    assert [w][1..] == [];
  }

  lemma {:induction false} DifferingOne(m: Contents, w: Write)
    ensures Differing(m, [w]) == if Read(m, w.attr) != w.value then [w] else []
  {
    assert [w][..0] == [];
  }

  /** Why each phase is chosen when it starts: with both chosen at once, a
      driver of this kind can take every write and still end at another
      preference than the baseline's. */
  lemma {:induction false} EagerPlanLosesPreference() returns (driver: Driver, s: HostState, governor: Write, epp: Write)
    ensures CpufreqDriver(driver) && governor.attr.Governor? && epp.attr.Preference?
    ensures var r1 := Verify(driver, s, Differing(s.contents, [governor]));
      var r2 := Verify(driver, r1.end, Differing(s.contents, [epp]));
      r1.failure.None? && r2.failure.None? && Read(r2.end.contents, epp.attr) != epp.value
  {
    hide Verify, Differing, CpufreqDriver;
    driver := ResettingDriver;
    s := HostState(map[Governor(0) := "powersave", Preference(0) := "power"], 0);
    governor, epp := Write(Governor(0), "performance"), Write(Preference(0), "power");
    ResettingDriverIsCpufreq();
    DifferingOne(s.contents, governor);
    DifferingOne(s.contents, epp);
    VerifyOne(driver, s, governor);
    VerifyNone(driver, After(driver, s, governor));
  }

  lemma {:induction false} VerifyNone(driver: Driver, s: HostState)
    ensures Verify(driver, s, []) == Run(0, [], None, s)
  {}
}
