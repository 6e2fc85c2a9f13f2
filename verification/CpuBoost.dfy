/** What restoreCPU does with boost: nothing unless the agent wrote it, else every
    file ends at the word the baseline recorded. */
module CpuBoost {
  import opened Results
  import opened Sysfs
  import opened CpuBaseline
  import opened CpuRestore

  /** Boost the agent did not write is left alone, whatever else is restored. */
  lemma {:induction false} BoostLeftAlone(driver: Driver, s: HostState, scope: BoostScope, groups: seq<Group>,
                                          globalSeen: string, n: nat, w: Write)
    requires n <= 3 && w in RunPhases(driver, s, Plan(scope, groups, false, globalSeen), n).issued
    ensures !IsBoost(w.attr)
  {
    var phases := Plan(scope, groups, false, globalSeen);
    OnlyDifferencesWritten(driver, s, phases, n, w);
    var p :| 0 <= p < n && w in phases[p];
    hide RunPhases, PlanFor;
    PlanForIn(groups, GovernorOf, GovernorWord, w);
    PlanForIn(groups, PreferenceOf, PreferenceWord, w);
  }

  // --- The boost phase of a baseline ------------------------------------------------------

  /** The present policies that recorded a boost word all recorded this one. */
  ghost predicate OneWord(states: seq<Policy>, present: seq<int>, boost: string) {
    forall q :: q in states && q.id in present ==> q.setting.boost == "" || q.setting.boost == boost
  }

  ghost predicate OneGroupWord(groups: seq<Group>, boost: string) {
    forall g :: 0 <= g < |groups| ==> groups[g].setting.boost == "" || groups[g].setting.boost == boost
  }

  lemma {:induction false} WordsOfGroups(states: seq<Policy>, present: seq<int>, boost: string)
    requires PolicyIds(states) && OneWord(states, present, boost)
    ensures OneGroupWord(ReadGroups(present, Baseline(states)), boost)
  {
    var groups := ReadGroups(present, Baseline(states));
    BaselineRoundTrip(states, present);
    forall g | 0 <= g < |groups| ensures groups[g].setting.boost == "" || groups[g].setting.boost == boost {
      var q := Policy(groups[g].policies[0], groups[g].setting);
      assert InGroup(groups, q.id, q.setting);
      assert q in states && q.id in present;
    }
  }

  /** With one boost file it is written once, with the word recorded. */
  lemma {:induction false} OneFilePlan(scope: BoostScope, groups: seq<Group>, boost: string)
    requires scope == GlobalFile || scope == NoTurboFile
    requires boost != "" && OneGroupWord(groups, boost) && exists g :: 0 <= g < |groups| && groups[g].setting.boost == boost
    ensures BoostPlan(scope, groups) ==
      [if scope == GlobalFile then Write(GlobalBoost, if boost == "on" then "1" else "0")
       else Write(NoTurbo, if boost == "on" then "0" else "1")]
  {
    if groups[0].setting.boost == "" {
      var g :| 0 <= g < |groups| && groups[g].setting.boost == boost;
      assert groups[1..][g - 1].setting.boost == boost;
      OneFilePlan(scope, groups[1..], boost);
    }
  }

  /** The words the boost files must end at. */
  predicate BoostRestored(scope: BoostScope, m: Contents, id: int, boost: string, globalSeen: string) {
    match scope
    case PerPolicy =>
      Read(m, PolicyBoost(id)) == (if boost == "on" then "1" else "0") && (globalSeen != "" ==> Read(m, GlobalBoost) == globalSeen)
    case GlobalFile => Read(m, GlobalBoost) == (if boost == "on" then "1" else "0")
    case NoTurboFile => Read(m, NoTurbo) == (if boost == "on" then "0" else "1")
    case NoBoostFile => true
  }

  lemma {:induction false} WithGlobal(boosts: seq<Write>, tail: seq<Write>)
    requires Consistent(boosts) && forall i :: 0 <= i < |boosts| ==> boosts[i].attr.PolicyBoost?
    requires tail == [] || (|tail| == 1 && tail[0].attr == GlobalBoost)
    ensures Consistent(boosts + tail) && forall i :: 0 <= i < |boosts + tail| ==> IsBoost((boosts + tail)[i].attr)
    ensures forall w :: w in boosts || w in tail ==> w in boosts + tail
  {
  }

  lemma {:induction false} PolicyBoostPlan(states: seq<Policy>, present: seq<int>, globalSeen: string, p: Policy)
    requires PolicyIds(states) && p in states && p.id in present && p.setting.boost != ""
    ensures var plan := BaselineBoostPlan(PerPolicy, ReadGroups(present, Baseline(states)), globalSeen);
      && Consistent(plan) && (forall i :: 0 <= i < |plan| ==> IsBoost(plan[i].attr))
      && Write(PolicyBoost(p.id), if p.setting.boost == "on" then "1" else "0") in plan
      && (globalSeen != "" ==> Write(GlobalBoost, globalSeen) in plan)
  {
    var groups := ReadGroups(present, Baseline(states));
    var boosts, tail := PlanFor(groups, BoostOf, BoostBit), if globalSeen != "" then [Write(GlobalBoost, globalSeen)] else [];
    PlanConsistent(states, present, BoostOf, BoostBit);
    PlanIsBaseline(states, present, BoostOf, BoostBit, Write(BoostOf(p.id), BoostBit(p.setting)));
    forall i | 0 <= i < |boosts| ensures boosts[i].attr.PolicyBoost? {
      PlanForIn(groups, BoostOf, BoostBit, boosts[i]);
    }
    hide PlanFor, ReadGroups, Baseline, PolicyIds, Consistent;
    WithGlobal(boosts, tail);
    assert globalSeen != "" ==> tail[0] in tail;
  }

  lemma {:induction false} OneFileBoostPlan(scope: BoostScope, states: seq<Policy>, present: seq<int>,
                                            globalSeen: string, p: Policy)
    requires PolicyIds(states) && p in states && p.id in present && p.setting.boost != ""
    requires (scope == GlobalFile || scope == NoTurboFile) && OneWord(states, present, p.setting.boost)
    ensures var w := if scope == GlobalFile then Write(GlobalBoost, if p.setting.boost == "on" then "1" else "0")
                     else Write(NoTurbo, if p.setting.boost == "on" then "0" else "1");
      BaselineBoostPlan(scope, ReadGroups(present, Baseline(states)), globalSeen) == [w]
  {
    var groups := ReadGroups(present, Baseline(states));
    BaselineRoundTrip(states, present);
    WordsOfGroups(states, present, p.setting.boost);
    assert Policy(p.id, p.setting) == p && InGroup(groups, p.id, p.setting);
    OneFilePlan(scope, groups, p.setting.boost);
  }

  /** The boost phase alone. */
  lemma {:induction false} BoostPhase(driver: Driver, s: HostState, states: seq<Policy>, present: seq<int>,
                                      scope: BoostScope, globalSeen: string, p: Policy)
    requires Leaves(driver, IsBoost, IsBoost)
    requires PolicyIds(states) && p in states && p.id in present && p.setting.boost != ""
    requires scope != PerPolicy ==> OneWord(states, present, p.setting.boost)
    ensures var plan := BaselineBoostPlan(scope, ReadGroups(present, Baseline(states)), globalSeen);
      var r := Verify(driver, s, Differing(s.contents, plan));
      r.failure.None? ==> BoostRestored(scope, r.end.contents, p.id, p.setting.boost, globalSeen)
  {
    var plan := BaselineBoostPlan(scope, ReadGroups(present, Baseline(states)), globalSeen);
    hide Verify, Differing, ReadGroups, Baseline, BaselineBoostPlan, OneWord, PolicyIds;
    if scope != NoBoostFile && Verify(driver, s, Differing(s.contents, plan)).failure.None? {
      if scope == PerPolicy {
        PolicyBoostPlan(states, present, globalSeen, p);
        PhaseRestores(driver, IsBoost, s, plan, Write(PolicyBoost(p.id), if p.setting.boost == "on" then "1" else "0"));
        if globalSeen != "" {
          PhaseRestores(driver, IsBoost, s, plan, Write(GlobalBoost, globalSeen));
        }
      } else {
        OneFileBoostPlan(scope, states, present, globalSeen, p);
        PhaseRestores(driver, IsBoost, s, plan, plan[0]);
      }
    }
  }

  /** When boost is owed and restoreCPU reports the baseline restored, each policy's
      boost file reads what the policy recorded, and the global file what it read
      before the agent turned it on; a node with one file reads the one word its
      policies recorded. The boost files must not move each other. */
  lemma {:induction false} RestoredBoost(driver: Driver, s: HostState, states: seq<Policy>, present: seq<int>,
                                         scope: BoostScope, globalSeen: string, p: Policy)
    requires Leaves(driver, IsBoost, IsBoost)
    requires PolicyIds(states) && p in states && p.id in present && p.setting.boost != ""
    requires scope != PerPolicy ==> OneWord(states, present, p.setting.boost)
    ensures var r := RunPhases(driver, s, Plan(scope, ReadGroups(present, Baseline(states)), true, globalSeen), 3);
      RestoreOutcome(r).result == Restored ==> BoostRestored(scope, r.end.contents, p.id, p.setting.boost, globalSeen)
  {
    var phases := Plan(scope, ReadGroups(present, Baseline(states)), true, globalSeen);
    var r1 := Verify(driver, s, Differing(s.contents, phases[0]));
    var r2 := Verify(driver, r1.end, Differing(r1.end.contents, phases[1]));
    hide RunPhases, Verify, Differing, ReadGroups, Baseline, BaselineBoostPlan, PlanFor, OneWord, PolicyIds, BoostRestored, Leaves;
    ThreePhases(driver, s, phases);
    ReportTellsSuccess(driver, s, phases, 3);
    BoostPhase(driver, r2.end, states, present, scope, globalSeen, p);
  }
}
