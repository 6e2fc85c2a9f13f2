/** What a reconcile and the exit must do, over every run of the agent: when a
    preset is written, when the baseline goes back, and what a hold reports. */
module ControlDuties {
  import opened Results
  import opened Component
  import opened ComponentDuties
  import opened ComponentRuns
  import opened ComponentStatus
  import opened Control

  /** The component's history before the last reconcile of a run. */
  ghost function History<D>(cfg: Config, ticks: seq<Tick<D>>, lost: D -> D): Ledger
    requires ticks != []
  {
    var n := Restarted<D>();
    Fold(Opening(SeededBy(cfg, n, ticks, lost).changed), Acts(cfg, n, ticks[..|ticks| - 1], lost))
  }

  /** The node as the last reconcile of a run finds it, prepared. */
  function Prepared<D(==)>(cfg: Config, ticks: seq<Tick<D>>, lost: D -> D): Node<D>
    requires ticks != []
  {
    var k := |ticks| - 1;
    PrepareOf(Ticks(cfg, Restarted<D>(), ticks[..k], lost), ticks[k], lost)
  }

  /** What the last reconcile of a run does. */
  function LastActs<D(==)>(cfg: Config, ticks: seq<Tick<D>>, lost: D -> D): seq<Act>
    requires ticks != []
  {
    ReconcileOf(cfg, Prepared(cfg, ticks, lost), ticks[|ticks| - 1]).acts
  }

  lemma {:induction false} RunOfPrefix<D>(cfg: Config, ticks: seq<Tick<D>>, lost: D -> D)
    requires ticks != []
    ensures var k, n := |ticks| - 1, Restarted<D>(); var seeded := SeededBy(cfg, n, ticks, lost);
      var m := Prepared(cfg, ticks, lost);
      m.loaded ==> Run(seeded, Events(cfg, n, ticks[..k], lost)) == Moved(m.c, Acts(cfg, n, ticks[..k], lost))
  {
    var k, n := |ticks| - 1, Restarted<D>();
    TicksRunEvents(cfg, n, ticks[..k], lost);
    SeededStarts(cfg, n, ticks[..k], lost);
    var before := Ticks(cfg, n, ticks[..k], lost);
    hide Events, Acts, Recorded, ReconcileOf, FirstRead;
    if !before.loaded {
      assert Run(SeededBy(cfg, n, ticks[..k], lost), []) == Moved(SeededBy(cfg, n, ticks[..k], lost), []);
      assert Run(SeededBy(cfg, n, ticks, lost), []) == Moved(SeededBy(cfg, n, ticks, lost), []);
    }
  }

  /** The last reconcile is an event of a run of the component. */
  lemma {:induction false} LastEvent<D>(cfg: Config, ticks: seq<Tick<D>>, lost: D -> D) returns (s: State,
                                        events: seq<Event>, n: nat)
    requires ticks != [] && Ordered(ticks) && ProperTicks(ticks) && Prepared(cfg, ticks, lost).loaded
    ensures Started(s) && Orderly(events) && n < |events|
    ensures events[n] == EventOf(cfg, ticks[|ticks| - 1], Prepared(cfg, ticks, lost).c)
    ensures Before(s, events, n) == History(cfg, ticks, lost) && DoneAt(s, events, n) == LastActs(cfg, ticks, lost)
    ensures Run(s, events[..n]).s == Prepared(cfg, ticks, lost).c
  {
    var k, start := |ticks| - 1, Restarted<D>();
    s, events, n := SeededBy(cfg, start, ticks, lost), Events(cfg, start, ticks, lost), |Events(cfg, start, ticks[..k], lost)|;
    SeededStarts(cfg, start, ticks, lost);
    EventsAreOrderly(cfg, start, ticks, lost);
    EventsStep(cfg, start, ticks, lost);
    RunOfPrefix(cfg, ticks, lost);
    assert events[..n] == Events(cfg, start, ticks[..k], lost);
    hide Events, Acts, SeededBy, Orderly, EventOf, Run, Next, PrepareOf, Ticks;
    EventRuns(s, events, n);
  }

  // --- Which event a reconcile is ---------------------------------------------------------

  /** A preset may be written: the switch is on, and the node is there to write. */
  predicate MayWrite<D>(cfg: Config, t: Tick<D>) {
    cfg.writes && !cfg.remote && !t.simulateOnly && !t.http && t.found.Some?
  }

  /** Each reconcile steps, holds or releases, and what it reports or passes on. */
  lemma {:induction false} EventChosen<D>(cfg: Config, t: Tick<D>, c: State)
    ensures var e, i := EventOf(cfg, t, c), IntentOf(t);
      && e.now == t.now && (e.Step? || e.Hold? || e.Release?)
      && (e.Step? <==> i.Some? && MayWrite(cfg, t))
      && (e.Release? <==>
            || i.None?
            || (!cfg.writes && !cfg.remote && !t.simulateOnly && c.changed && !c.contended && !c.refused))
      && (e.Step? ==> e.key == i.value && e.answers == t.answers)
      && (e.Release? ==> e.may == (!t.simulateOnly && !cfg.remote) && e.plannable == t.found.Some? && e.restore == t.restore)
      && (e.Hold? ==> e.st.applied == "" && (e.st.result == if t.simulateOnly || !cfg.writes then Disabled
            else if cfg.remote || t.http then Unsupported else t.missing))
  {
  }

  // --- Every run ----------------------------------------------------------------------------

  lemma {:induction false} ReleaseRestores(l: Ledger, now: nat, may: bool, plannable: bool, out: Outcome,
                                           removable: bool, acts: seq<Act>)
    requires ReleaseDuties(l, now, may, plannable, out, removable, acts)
    ensures Restores(acts) <==> Owing(l, may) && Ready(l, now, plannable)
  {
    hide Owing, Ready, Crowded;
    assert Undid(now, out).Restore?;
  }

  lemma {:induction false} ExitRestores(l: Ledger, now: nat, may: bool, plannable: bool, out: Outcome,
                                        removable: bool, acts: seq<Act>)
    requires ExitDuties(l, now, may, plannable, out, removable, acts)
    ensures Restores(acts) <==> Owing(l, may) && plannable
  {
    if l.owed {
      ReleaseRestores(l.(due := 0), now, may, plannable, out, removable, acts);
      hide ReleaseDuties;
    }
  }

  ghost predicate AppliesNew(acts: seq<Act>) {
    exists a :: a in acts && a.Apply? && a.cause == NewIntent
  }

  lemma {:induction false} StepAppliesNew(l: Ledger, now: nat, key: string, a: Answers, acts: seq<Act>)
    requires Duties(l, now, key, a, acts)
    ensures AppliesNew(acts) <==> !l.refused && key != l.intent
  {
    hide Acting, Failing, Drifting, Reissuing, Checking, InError, LongSince;
    assert Did(now, a.first, NewIntent).cause == NewIntent;
  }

  lemma {:induction false} NoRestore<D>(cfg: Config, t: Tick<D>, c: State, a: Act)
    requires a in Next(c, EventOf(cfg, t, c)).acts && !EventOf(cfg, t, c).Release?
    ensures !a.Restore?
  {
    OnlyStepsApply(c, EventOf(cfg, t, c));
    hide Next;
  }

  /** With no intent, or with GOVERNOR_WRITES false, a reconcile puts the baseline
      back if and only if something the agent wrote is still there, the driver
      never refused, no other writer holds the setting, the agent may write to the
      node, the discovery found it, and no retry is due later. */
  lemma {:induction false} BaselineGoesBack<D>(cfg: Config, ticks: seq<Tick<D>>, lost: D -> D)
    requires ticks != [] && Ordered(ticks) && ProperTicks(ticks)
    requires IntentOf(ticks[|ticks| - 1]).None? || !cfg.writes
    ensures var t, l := ticks[|ticks| - 1], History(cfg, ticks, lost);
      Restores(LastActs(cfg, ticks, lost))
      <==> (&& Prepared(cfg, ticks, lost).loaded && l.owed && !l.refused && !Crowded(l.episodes)
            && !t.simulateOnly && !cfg.remote && t.found.Some? && (l.due == 0 || t.now >= l.due))
  {
    var t, m := ticks[|ticks| - 1], Prepared(cfg, ticks, lost);
    hide Crowded, Prepared, History, Orderly, Next, Current, Shows, ReleaseDuties, Word, WrittenBefore;
    if m.loaded {
      var s, events, n := LastEvent(cfg, ticks, lost);
      BeforeEvent(s, events, n);
      EventChosen(cfg, t, m.c);
      hide EventOf, Run, Before, DoneAt;
      if events[n].Release? {
        EveryRelease(s, events, n);
        ReleaseRestores(Before(s, events, n), t.now, events[n].may, events[n].plannable, t.restore,
                        Removable(WrittenBefore(s, events, n), StatusBefore(s, events, n), events[n].api), DoneAt(s, events, n));
      } else {
        forall a | a in LastActs(cfg, ticks, lost) ensures !a.Restore? {
          NoRestore(cfg, t, m.c, a);
        }
      }
    }
  }

  /** With an intent a reconcile applies it as a new one if and only if the agent
      may write to the node, the driver never refused, and the history acts on
      another intent or on none. */
  lemma {:induction false} NewIntentIsApplied<D>(cfg: Config, ticks: seq<Tick<D>>, lost: D -> D)
    requires ticks != [] && Ordered(ticks) && ProperTicks(ticks) && IntentOf(ticks[|ticks| - 1]).Some?
    ensures var t, l := ticks[|ticks| - 1], History(cfg, ticks, lost);
      AppliesNew(LastActs(cfg, ticks, lost))
      <==> Prepared(cfg, ticks, lost).loaded && MayWrite(cfg, t) && !l.refused && IntentOf(t).value != l.intent
  {
    var t, m := ticks[|ticks| - 1], Prepared(cfg, ticks, lost);
    hide Crowded, Prepared, History, Orderly, Next, Current;
    if m.loaded {
      var s, events, n := LastEvent(cfg, ticks, lost);
      EventChosen(cfg, t, m.c);
      hide EventOf, Run, Before, DoneAt, Duties;
      if events[n].Step? {
        EveryStep(s, events, n);
        StepAppliesNew(Before(s, events, n), t.now, events[n].key, t.answers, DoneAt(s, events, n));
      } else {
        OnlyStepsApply(m.c, EventOf(cfg, t, m.c));
      }
    }
  }

  /** The exit puts the baseline back if and only if the switch is on, and the same
      conditions hold but for the retry, which is not waited for. */
  lemma {:induction false} ExitPutsBack<D>(cfg: Config, ticks: seq<Tick<D>>, lost: D -> D, now: nat, plannable: bool,
                                           restore: Outcome, api: bool)
    requires Ordered(ticks) && ProperTicks(ticks) && (ticks != [] ==> ticks[|ticks| - 1].now <= now)
    ensures var n := Restarted<D>(); var end, seeded := Ticks(cfg, n, ticks, lost), SeededBy(cfg, n, ticks, lost);
      var l := Fold(Opening(seeded.changed), Acts(cfg, n, ticks, lost));
      Restores(Run(end.c, ExitOf(cfg, end, now, plannable, restore, api)).acts)
      <==> cfg.restoreOnExit && end.loaded && l.owed && !l.refused && !Crowded(l.episodes) && !cfg.remote && plannable
  {
    var n := Restarted<D>();
    var end, seeded, events := Ticks(cfg, n, ticks, lost), SeededBy(cfg, n, ticks, lost), Events(cfg, n, ticks, lost);
    var exit := ExitOf(cfg, end, now, plannable, restore, api);
    hide Crowded, Orderly, Next, Ticks, SeededBy, Events, Acts, Fold, FirstRead, FoundWritten, ExitDuties, Word, WrittenBefore, Shows;
    SeededStarts(cfg, n, ticks, lost);
    TicksRunEvents(cfg, n, ticks, lost);
    EventsAreOrderly(cfg, n, ticks, lost);
    assert Run(end.c, []) == Moved(end.c, []);
    if exit != [] {
      var e := Exit(now, !cfg.remote, plannable, restore, api);
      RunStep(end.c, [], e);
      assert [] + [e] == [e] && [] + Next(end.c, e).acts == Next(end.c, e).acts;
      OrderlyStep(events, e);
      var j, all := |events|, events + [e];
      assert all[..j] == events;
      hide Run, DoneAt;
      EveryExit(seeded, all, j);
      EventRuns(seeded, all, j);
      ExitRestores(Before(seeded, all, j), now, !cfg.remote, plannable, restore,
                   Removable(WrittenBefore(seeded, all, j), StatusBefore(seeded, all, j), api), DoneAt(seeded, all, j));
    }
  }
}
