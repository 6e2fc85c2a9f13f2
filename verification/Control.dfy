/** One governor component on its node: the baseline prepare keeps, the event
    reconcile chooses, and what a restart remembers. D is what a discovery finds
    of the component's state: CPU groups, or GPU devices and levels. */
module Control {
  import opened Results
  import opened Component
  import opened ComponentRuns
  import opened ComponentLaws
  import opened ComponentStatus

  datatype Baseline<D> = Baseline(content: D, recordedAt: nat)

  /** The stored NodeHardware: unreadable, missing, or with a baseline or none. */
  datatype Stored<D> = Unreadable | Missing | Found(baseline: Option<Baseline<D>>)

  datatype Config = Config(writes: bool, remote: bool, restoreOnExit: bool)

  /** The desired state's intent for the component, and its last status entry. */
  datatype Desired = Desired(intent: Option<string>, last: Option<Status>)

  /** One reconcile's inputs. found is None when the discovery came back empty,
      and missing the result reported for an intent then. */
  datatype Tick<D> = Tick(
    now: nat, stored: Stored<D>, desired: Option<Desired>, found: Option<D>, missing: Result,
    simulateOnly: bool, http: bool, answers: Answers, restore: Outcome, api: bool)

  datatype Node<D> = Node(loaded: bool, baseline: Option<Baseline<D>>, c: State)

  // --- prepare ---------------------------------------------------------------------

  /** lost is what is recorded of a state that may be the agent's own. */
  function Recorded<D(==)>(b: Option<Baseline<D>>, changed: bool, found: Option<D>, lost: D -> D, now: nat): Option<Baseline<D>> {
    if found.Some? && (b.None? || !changed) then
      var content := if changed then lost(found.value) else found.value;
      if b.None? || b.value.content != content then Some(Baseline(content, now)) else b
    else b
  }

  function Loaded<D>(n: Node<D>, t: Tick<D>): Node<D> {
    if n.loaded || t.stored.Unreadable? then n
    else
      Node(true, if t.stored.Found? then t.stored.baseline else n.baseline,
           if t.desired.Some? then SeedOf(n.c, t.desired.value.last) else n.c)
  }

  function PrepareOf<D(==)>(n: Node<D>, t: Tick<D>, lost: D -> D): Node<D> {
    var m := Loaded(n, t);
    if m.loaded then m.(baseline := Recorded(m.baseline, m.c.changed, t.found, lost, t.now)) else m
  }

  // --- reconcile --------------------------------------------------------------------

  /** The status of an intent the agent will not write. */
  function Blocked<D>(cfg: Config, t: Tick<D>): Option<Status> {
    if t.simulateOnly then Some(Status(Disabled, ""))
    else if !cfg.writes then Some(Status(Disabled, ""))
    else if cfg.remote then Some(Status(Unsupported, ""))
    else if t.http then Some(Status(Unsupported, ""))
    else if t.found.None? then Some(Status(t.missing, ""))
    else None
  }

  predicate RestoreWritesOff<D>(cfg: Config, t: Tick<D>, c: State) {
    !cfg.writes && c.changed && !c.contended && !t.simulateOnly && !cfg.remote && !c.refused
  }

  function IntentOf<D>(t: Tick<D>): Option<string> {
    if t.desired.Some? then t.desired.value.intent else None
  }

  function EventOf<D>(cfg: Config, t: Tick<D>, c: State): Event {
    if IntentOf(t).None? || RestoreWritesOff(cfg, t, c) then
      Release(t.now, !t.simulateOnly && !cfg.remote, t.found.Some?, t.restore, t.api)
    else if Blocked(cfg, t).Some? then Hold(t.now, Blocked(cfg, t).value, t.api)
    else Step(t.now, IntentOf(t).value, t.answers, t.api)
  }

  function ReconcileOf<D>(cfg: Config, n: Node<D>, t: Tick<D>): Moved {
    if n.loaded then Next(n.c, EventOf(cfg, t, n.c)) else Moved(n.c, [])
  }

  function TickOf<D(==)>(cfg: Config, n: Node<D>, t: Tick<D>, lost: D -> D): Node<D> {
    var m := PrepareOf(n, t, lost);
    m.(c := ReconcileOf(cfg, m, t).s)
  }

  function Ticks<D(==)>(cfg: Config, n: Node<D>, ticks: seq<Tick<D>>, lost: D -> D): Node<D> {
    if ticks == [] then n else TickOf(cfg, Ticks(cfg, n, ticks[..|ticks| - 1], lost), ticks[|ticks| - 1], lost)
  }

  // --- The baseline ------------------------------------------------------------------

  /** A recorded baseline gives way exactly to another state found while nothing is
      changed, and takes its time; without one, what is found is recorded, or what
      stands for it when it may be the agent's own. */
  lemma {:induction false} RecordedOnlyOnChange<D>(b: Option<Baseline<D>>, changed: bool, found: Option<D>,
                                                   lost: D -> D, now: nat)
    ensures var r := Recorded(b, changed, found, lost, now);
      && (b.Some? ==> r.Some? && (r != b <==> r.value.content != b.value.content))
      && (b.Some? ==> (r != b <==> !changed && found.Some? && found.value != b.value.content))
      && (b.Some? && r != b ==> r == Some(Baseline(found.value, now)))
      && (b.None? ==> (r.Some? <==> found.Some?))
      && (b.None? && found.Some? ==> r == Some(Baseline(if changed then lost(found.value) else found.value, now)))
  {
  }

  /** Whatever a reconcile writes or puts back is preceded by a recorded baseline,
      and its preconditions: a loaded node, a discovery, no simulate-only, no
      pool mode; for a preset also the switch and the native control mode. */
  lemma {:induction false} WritesArePrepared<D>(cfg: Config, n: Node<D>, t: Tick<D>, lost: D -> D, a: Act)
    requires a in ReconcileOf(cfg, PrepareOf(n, t, lost), t).acts && Writes(a)
    ensures PrepareOf(n, t, lost).loaded && PrepareOf(n, t, lost).baseline.Some?
    ensures t.found.Some? && !t.simulateOnly && !cfg.remote
    ensures a.Apply? ==> cfg.writes && !t.http
  {
    var m := PrepareOf(n, t, lost);
    var e := EventOf(cfg, t, m.c);
    OnlyStepsApply(m.c, e);
    hide Next;
  }

  lemma {:induction false} OnlyStepsApply(s: State, e: Event)
    ensures forall a :: a in Next(s, e).acts && a.Apply? ==> e.Step?
    ensures forall a :: a in Next(s, e).acts && a.Restore? ==> (e.Release? || e.Exit?) && e.may && e.plannable
  {
    if e.Step? {
      StepActs(s, e.now, e.key, e.answers);
    }
    hide StepOf, HoldOf, PublishOf, RestoreOf, QuietOf;
  }

  lemma {:induction false} StepActs(s: State, now: nat, key: string, a: Answers)
    ensures forall act :: act in StepOf(s, now, key, a).acts ==> !act.Restore?
  {
    hide ApplyOf, PassOf, DropOf, DriftOf, StartOf;
  }

  /** While changed stays set, no sequence of discoveries alters the baseline. */
  lemma {:induction false} BaselineFrozen<D>(cfg: Config, n: Node<D>, ticks: seq<Tick<D>>, lost: D -> D)
    requires n.loaded && n.baseline.Some?
    requires forall k :: 0 <= k < |ticks| ==> Ticks(cfg, n, ticks[..k], lost).c.changed
    ensures Ticks(cfg, n, ticks, lost).loaded && Ticks(cfg, n, ticks, lost).baseline == n.baseline
    decreases |ticks|
  {
    if ticks != [] {
      var k := |ticks| - 1;
      forall j | 0 <= j < k ensures Ticks(cfg, n, ticks[..k][..j], lost).c.changed {
        assert ticks[..k][..j] == ticks[..j];
      }
      BaselineFrozen(cfg, n, ticks[..k], lost);
      hide ReconcileOf;
    }
  }

  /** What a restore puts back is what the discovery found in the reconcile of the
      first write, however often the node is discovered afterwards. */
  lemma {:induction false} FirstWriteKeepsFound<D>(cfg: Config, n: Node<D>, t: Tick<D>, ticks: seq<Tick<D>>,
                                                   lost: D -> D)
    requires Loaded(n, t).loaded && !Loaded(n, t).c.changed && t.found.Some?
    requires forall k :: 0 <= k < |ticks| ==> Ticks(cfg, TickOf(cfg, n, t, lost), ticks[..k], lost).c.changed
    ensures var b := Ticks(cfg, TickOf(cfg, n, t, lost), ticks, lost).baseline; b.Some? && b.value.content == t.found.value
  {
    BaselineFrozen(cfg, TickOf(cfg, n, t, lost), ticks, lost);
    hide ReconcileOf, Ticks;
  }

  // --- Restarts ------------------------------------------------------------------------

  /** A new process before its first reconcile. */
  function Restarted<D>(): Node<D> {
    Node(false, None, Fresh0)
  }

  /** The first reconcile after a restart that finds its objects as the run
      before it left them. */
  predicate Resumes<D(==)>(before: Node<D>, t: Tick<D>) {
    t.stored == Found(before.baseline) && t.desired.Some? && t.desired.value.last == Some(before.c.status)
  }

  /** A restart takes the node for changed exactly when the last status is none of
      unset, disabled and restored, and names what is applied if it is unsupported.
      It keeps the baseline exactly then, or when it finds the same again. */
  lemma {:induction false} RestartKeepsBaseline<D>(before: Node<D>, t: Tick<D>, lost: D -> D)
    requires before.baseline.Some? && Resumes(before, t) && t.found.Some?
    ensures var n, st := PrepareOf(Restarted<D>(), t, lost), before.c.status;
      && (n.c.changed <==> st.result !in {Unset, Disabled, Restored} && (st.result == Unsupported ==> st.applied != ""))
      && (n.baseline == before.baseline <==> n.c.changed || t.found.value == before.baseline.value.content)
  {
  }

  /** One empty discovery without a warning is enough to lose it: the hold it
      causes is published as unsupported with nothing applied, and a restart
      then records the agent's own setting as the baseline. */
  lemma {:induction false} EmptyDiscoveryLosesBaseline<D>(cfg: Config, n: Node<D>, t: Tick<D>, resumed: Tick<D>,
                                                          lost: D -> D)
    requires n.loaded && n.c.changed && n.baseline.Some?
    requires cfg.writes && !t.simulateOnly && IntentOf(t).Some? && t.found.None? && t.missing == Unsupported
    requires Resumes(TickOf(cfg, n, t, lost), resumed) && resumed.found.Some?
    ensures TickOf(cfg, n, t, lost).c.changed
    ensures !PrepareOf(Restarted<D>(), resumed, lost).c.changed
    ensures PrepareOf(Restarted<D>(), resumed, lost).baseline.value.content == resumed.found.value
  {
    var m := PrepareOf(n, t, lost);
    assert ReconcileOf(cfg, m, t).s.status == Status(Unsupported, "");
  }

  /** So is an intent the node does not support, without any hold: nothing is
      written for it, and the status it leaves forgets what was written before. */
  lemma {:induction false} UnsupportedIntentLosesBaseline<D>(cfg: Config, n: Node<D>, t: Tick<D>, resumed: Tick<D>,
      lost: D -> D)
    requires n.loaded && n.c.changed && n.baseline.Some? && !n.c.refused
    requires cfg.writes && !cfg.remote && !t.simulateOnly && !t.http && t.found.Some?
    requires IntentOf(t).Some? && IntentOf(t).value != n.c.intent && t.answers.first.status == Status(Unsupported, "")
    requires Resumes(TickOf(cfg, n, t, lost), resumed) && resumed.found.Some?
    ensures TickOf(cfg, n, t, lost).c.changed
    ensures !PrepareOf(Restarted<D>(), resumed, lost).c.changed
    ensures PrepareOf(Restarted<D>(), resumed, lost).baseline.value.content == resumed.found.value
  {
    var m := PrepareOf(n, t, lost);
    assert EventOf(cfg, t, m.c).Step?;
    assert ReconcileOf(cfg, m, t).s.status == Status(Unsupported, "");
  }

  // --- Runs of reconciles -------------------------------------------------------------------

  /** The component as the process took it over. */
  function SeededBy<D(==)>(cfg: Config, n: Node<D>, ticks: seq<Tick<D>>, lost: D -> D): State {
    if ticks == [] then n.c
    else
      var k := |ticks| - 1;
      var before := Ticks(cfg, n, ticks[..k], lost);
      if before.loaded then SeededBy(cfg, n, ticks[..k], lost) else Loaded(before, ticks[k]).c
  }

  /** The events the component sees. */
  function Events<D(==)>(cfg: Config, n: Node<D>, ticks: seq<Tick<D>>, lost: D -> D): seq<Event> {
    if ticks == [] then []
    else
      var k := |ticks| - 1;
      var m := PrepareOf(Ticks(cfg, n, ticks[..k], lost), ticks[k], lost);
      if m.loaded then Events(cfg, n, ticks[..k], lost) + [EventOf(cfg, ticks[k], m.c)] else Events(cfg, n, ticks[..k], lost)
  }

  /** What the component does. */
  function Acts<D(==)>(cfg: Config, n: Node<D>, ticks: seq<Tick<D>>, lost: D -> D): seq<Act> {
    if ticks == [] then []
    else
      var k := |ticks| - 1;
      Acts(cfg, n, ticks[..k], lost)
      + ReconcileOf(cfg, PrepareOf(Ticks(cfg, n, ticks[..k], lost), ticks[k], lost), ticks[k]).acts
  }

  lemma {:induction false} EventsStep<D>(cfg: Config, n: Node<D>, ticks: seq<Tick<D>>, lost: D -> D)
    requires ticks != []
    ensures var k := |ticks| - 1; var m := PrepareOf(Ticks(cfg, n, ticks[..k], lost), ticks[k], lost);
      Events(cfg, n, ticks, lost)
      == if m.loaded then Events(cfg, n, ticks[..k], lost) + [EventOf(cfg, ticks[k], m.c)] else Events(cfg, n, ticks[..k], lost)
  {
  }

  lemma {:induction false} RunStep(s: State, events: seq<Event>, e: Event)
    ensures var m := Run(s, events); var q := Next(m.s, e); Run(s, events + [e]) == Moved(q.s, m.acts + q.acts)
  {
    assert (events + [e])[..|events|] == events;
  }

  /** A run of reconciles is a run of the component from its seeded state. */
  lemma {:induction false} TicksRunEvents<D>(cfg: Config, n: Node<D>, ticks: seq<Tick<D>>, lost: D -> D)
    requires !n.loaded
    ensures Run(SeededBy(cfg, n, ticks, lost), Events(cfg, n, ticks, lost))
         == Moved(Ticks(cfg, n, ticks, lost).c, Acts(cfg, n, ticks, lost))
    ensures !Ticks(cfg, n, ticks, lost).loaded ==> Events(cfg, n, ticks, lost) == []
    decreases |ticks|
  {
    if ticks != [] {
      var k := |ticks| - 1;
      TicksRunEvents(cfg, n, ticks[..k], lost);
      var m := PrepareOf(Ticks(cfg, n, ticks[..k], lost), ticks[k], lost);
      EventsStep(cfg, n, ticks, lost);
      RunStep(SeededBy(cfg, n, ticks, lost), Events(cfg, n, ticks[..k], lost), EventOf(cfg, ticks[k], m.c));
      assert Run(SeededBy(cfg, n, ticks[..k], lost), []) == Moved(SeededBy(cfg, n, ticks[..k], lost), []);
      assert Run(m.c, []) == Moved(m.c, []);
      hide Run, Next, EventOf, Recorded, Events;
    }
  }

  // --- Discovery-only agents -------------------------------------------------------------

  ghost predicate Ordered<D>(ticks: seq<Tick<D>>) {
    forall i, j :: 0 <= i < j < |ticks| ==> ticks[i].now <= ticks[j].now
  }

  /** The keys a reconcile builds are not empty; see ComponentRuns.Proper. */
  ghost predicate ProperTicks<D>(ticks: seq<Tick<D>>) {
    forall i :: 0 <= i < |ticks| ==>
      IntentOf(ticks[i]) != Some("") && (ticks[i].answers.reissue ==> ticks[i].answers.ok)
  }

  lemma {:induction false} EventsAreOrderly<D>(cfg: Config, n: Node<D>, ticks: seq<Tick<D>>, lost: D -> D)
    requires Ordered(ticks) && ProperTicks(ticks)
    ensures Orderly(Events(cfg, n, ticks, lost))
    ensures forall e :: e in Events(cfg, n, ticks, lost) ==> !e.Exit? && ticks != [] && e.now <= ticks[|ticks| - 1].now
    decreases |ticks|
  {
    if ticks != [] {
      var k := |ticks| - 1;
      EventsAreOrderly(cfg, n, ticks[..k], lost);
      EventsStep(cfg, n, ticks, lost);
      assert forall e :: e in Events(cfg, n, ticks[..k], lost) ==> e.now <= ticks[k].now by {
        assert k > 0 ==> ticks[k - 1].now <= ticks[k].now && ticks[..k][k - 1] == ticks[k - 1];
      }
      var m := PrepareOf(Ticks(cfg, n, ticks[..k], lost), ticks[k], lost);
      var before, e := Events(cfg, n, ticks[..k], lost), EventOf(cfg, ticks[k], m.c);
      assert Proper(e) && !e.Exit? && e.now == ticks[k].now;
      hide Events, EventOf, PrepareOf, Ticks, Proper;
      if m.loaded {
        OrderlyStep(before, e);
      }
    }
  }

  /** Whatever happened before it, a restart keeps a changed node's baseline if
      and only if the history told of a write last, or the same is found again. */
  lemma {:induction false} BaselineSurvivesRestart<D>(cfg: Config, ticks: seq<Tick<D>>, resumed: Tick<D>, lost: D -> D)
    requires Ordered(ticks) && ProperTicks(ticks)
    requires var before := Ticks(cfg, Restarted<D>(), ticks, lost);
      before.baseline.Some? && Resumes(before, resumed) && resumed.found.Some?
    ensures var n := Restarted<D>(); var seeded := SeededBy(cfg, n, ticks, lost); var before := Ticks(cfg, n, ticks, lost);
      PrepareOf(n, resumed, lost).baseline == before.baseline
      <==> (TellsOfWrite(Word(Opening(seeded.changed), seeded.status, Acts(cfg, n, ticks, lost)))
            || resumed.found.value == before.baseline.value.content)
  {
    var n := Restarted<D>();
    hide Ticks, Events, Acts, Run, Word, SeededBy, PrepareOf, Orderly, FirstRead, FoundWritten, Started, Ordered, ProperTicks, Resumes;
    SeededStarts(cfg, n, ticks, lost);
    TicksRunEvents(cfg, n, ticks, lost);
    EventsAreOrderly(cfg, n, ticks, lost);
    StatusIsHistory(SeededBy(cfg, n, ticks, lost), Events(cfg, n, ticks, lost));
    RestartKeepsBaseline(Ticks(cfg, n, ticks, lost), resumed, lost);
  }

  lemma {:induction false} AppliesArePrepared<D>(cfg: Config, n: Node<D>, ticks: seq<Tick<D>>, lost: D -> D)
    requires Applies(Acts(cfg, n, ticks, lost))
    ensures Ticks(cfg, n, ticks, lost).loaded && Ticks(cfg, n, ticks, lost).baseline.Some?
    decreases |ticks|
  {
    assert ticks != [];
    var k := |ticks| - 1;
    var before := Ticks(cfg, n, ticks[..k], lost);
    var more := ReconcileOf(cfg, PrepareOf(before, ticks[k], lost), ticks[k]).acts;
    AppliesIn(Acts(cfg, n, ticks[..k], lost), more);
    if Applies(more) {
      var j :| 0 <= j < |more| && more[j].Apply?;
      WritesArePrepared(cfg, before, ticks[k], lost, more[j]);
    } else {
      AppliesArePrepared(cfg, n, ticks[..k], lost);
    }
    hide ReconcileOf;
  }

  /** Act i is the last apply, and the intent it was for is still acted on. */
  ghost predicate LastApply(acts: seq<Act>, i: nat) {
    i < |acts| && acts[i].Apply? && forall k :: i < k < |acts| ==> acts[k].Pass? || acts[k].Drop? || acts[k].Episode?
  }

  lemma {:induction false} AfterLastApply(l: Ledger, acts: seq<Act>, i: nat, n: nat)
    requires LastApply(acts, i) && i < n <= |acts|
    ensures var f, a := Fold(l, acts[..n]), acts[i];
      f.last.Some? && f.last.value.result == a.result && f.last.value.applied == a.applied && (a.wrote ==> f.owed)
    decreases n
  {
    FoldAt(l, acts, n - 1);
    hide Fold;
    if i < n - 1 {
      AfterLastApply(l, acts, i, n - 1);
    }
  }

  lemma {:induction false} LastApplyTells(l: Ledger, start: Status, acts: seq<Act>, i: nat)
    requires LastApply(acts, i) && TellsOfWrite(Status(acts[i].result, acts[i].applied))
    ensures TellsOfWrite(Word(l, start, acts)) && (acts[i].wrote ==> Fold(l, acts).owed)
  {
    assert acts[..|acts|] == acts;
    AfterLastApply(l, acts, i, |acts|);
    IntentTells(Fold(l, acts));
    hide Fold, StatusOf;
    var n := |acts| - 1;
    assert i < n ==> acts[n].Pass? || acts[n].Drop? || acts[n].Episode?;
  }

  lemma {:induction false} ResumedFrom<D>(before: Node<D>, t: Tick<D>, lost: D -> D)
    requires before.baseline.Some? && Resumes(before, t) && TellsOfWrite(before.c.status)
    ensures PrepareOf(Restarted<D>(), t, lost).c.changed && PrepareOf(Restarted<D>(), t, lost).baseline == before.baseline
  {
  }

  /** After any run that ends on an intent whose last apply reported a setting in
      force, or a failure that may have left one, a restart takes the node for
      changed and keeps the baseline, whatever it finds and whatever checks said. */
  lemma {:induction false} WriteSurvivesRestart<D>(cfg: Config, ticks: seq<Tick<D>>, resumed: Tick<D>, lost: D -> D,
                                                   i: nat)
    requires Ordered(ticks) && ProperTicks(ticks) && Resumes(Ticks(cfg, Restarted<D>(), ticks, lost), resumed)
    requires LastApply(Acts(cfg, Restarted<D>(), ticks, lost), i)
    requires var a := Acts(cfg, Restarted<D>(), ticks, lost)[i];
      || a.result in {Applied, AppliedUnverified, Equivalent, NotApplied, Refused, Error}
      || (a.result == Unsupported && a.applied != "")
    ensures var n := Restarted<D>(); var before := Ticks(cfg, n, ticks, lost); var r := PrepareOf(n, resumed, lost);
      && before.baseline.Some? && (Acts(cfg, n, ticks, lost)[i].wrote ==> before.c.changed)
      && r.c.changed && r.baseline == before.baseline
  {
    var n := Restarted<D>();
    var acts, seeded, events := Acts(cfg, n, ticks, lost), SeededBy(cfg, n, ticks, lost), Events(cfg, n, ticks, lost);
    assert TellsOfWrite(Status(acts[i].result, acts[i].applied)) && Applies(acts);
    SeededStarts(cfg, n, ticks, lost);
    TicksRunEvents(cfg, n, ticks, lost);
    EventsAreOrderly(cfg, n, ticks, lost);
    hide Ticks, Events, Acts, Run, Word, Fold, SeededBy, PrepareOf, Orderly, AllAllowed, TellsOfWrite, Applies, Current;
    StatusIsHistory(seeded, events);
    RunsAreAllowed(seeded, events);
    LastApplyTells(Opening(seeded.changed), seeded.status, acts, i);
    AppliesArePrepared(cfg, n, ticks, lost);
    ResumedFrom(Ticks(cfg, n, ticks, lost), resumed, lost);
  }

  /** With GOVERNOR_WRITES false a component only ever sees holds and releases. */
  lemma {:induction false} OnlyHoldsAndReleases<D>(cfg: Config, n: Node<D>, ticks: seq<Tick<D>>, lost: D -> D)
    requires !cfg.writes && Ordered(ticks)
    ensures Orderly(Events(cfg, n, ticks, lost))
    ensures forall e :: e in Events(cfg, n, ticks, lost) ==>
      (e.Hold? || e.Release?) && ticks != [] && e.now <= ticks[|ticks| - 1].now
    decreases |ticks|
  {
    if ticks != [] {
      var k := |ticks| - 1;
      OnlyHoldsAndReleases(cfg, n, ticks[..k], lost);
      EventsStep(cfg, n, ticks, lost);
      assert forall e :: e in Events(cfg, n, ticks[..k], lost) ==> e.now <= ticks[k].now by {
        assert k > 0 ==> ticks[k - 1].now <= ticks[k].now && ticks[..k][k - 1] == ticks[k - 1];
      }
      var m := PrepareOf(Ticks(cfg, n, ticks[..k], lost), ticks[k], lost);
      var before, e := Events(cfg, n, ticks[..k], lost), EventOf(cfg, ticks[k], m.c);
      assert (e.Hold? || e.Release?) && e.now == ticks[k].now;
      hide Events, EventOf, PrepareOf, Ticks;
      if m.loaded {
        OrderlyStep(before, e);
      }
    }
  }

  lemma {:induction false} OrderlyStep(events: seq<Event>, e: Event)
    requires Orderly(events) && Proper(e)
    requires forall x :: x in events ==> !x.Exit? && x.now <= e.now
    ensures Orderly(events + [e])
  {
    forall i | 0 <= i < |events| ensures !events[i].Exit? && events[i].now <= e.now {
      assert events[i] in events;
    }
  }

  lemma {:induction false} NoStepsNoApplies(s: State, events: seq<Event>)
    requires forall e :: e in events ==> !e.Step?
    ensures forall a :: a in Run(s, events).acts ==> !a.Apply?
    decreases |events|
  {
    if events != [] {
      var k := |events| - 1;
      assert events == events[..k] + [events[k]];
      NoStepsNoApplies(s, events[..k]);
      OnlyStepsApply(Run(s, events[..k]).s, events[k]);
      hide Next;
    }
  }

  /** Without steps nothing is applied, so one successful restore is the last,
      and none comes unless one was owed from the start. */
  lemma {:induction false} WithoutSteps(s: State, events: seq<Event>)
    requires Started(s) && Orderly(events) && forall e :: e in events ==> !e.Step?
    ensures DiscoveryOnlyActs(s.changed, Run(s, events).acts)
  {
    var acts := Run(s, events).acts;
    NoStepsNoApplies(s, events);
    assert forall i: int, j: nat :: j <= |acts| ==> !WroteBetween(acts, i, j);
    hide Run, WroteBetween, Orderly;
    forall i, j | 0 <= i < j < |acts| && acts[i].Restore? && acts[i].result == Restored ensures !acts[j].Restore? {
      if acts[j].Restore? {
        RestoresAreOwed(s, events, i, j);
      }
    }
    forall j | 0 <= j < |acts| && !s.changed ensures !acts[j].Restore? {
      if acts[j].Restore? {
        RestoresAreOwed(s, events, -1, j);
      }
    }
  }

  ghost predicate DiscoveryOnlyActs(changed: bool, acts: seq<Act>) {
    && (forall a :: a in acts ==> !a.Apply?)
    && (forall i, j :: 0 <= i < j < |acts| && acts[i].Restore? && acts[i].result == Restored ==> !acts[j].Restore?)
    && (!changed ==> forall a :: a in acts ==> !a.Restore?)
  }

  /** The exit restore, which a switch turns off and which waits for nothing. */
  function ExitOf<D>(cfg: Config, n: Node<D>, now: nat, plannable: bool, restore: Outcome, api: bool): seq<Event> {
    if cfg.restoreOnExit && n.loaded then [Exit(now, !cfg.remote, plannable, restore, api)] else []
  }

  /** An agent that runs discovery only, from its start to its exit: it applies
      nothing, it reports at most one restore as restored, and it attempts none
      unless the status it found says that an earlier run wrote. */
  lemma {:induction false} DiscoveryOnly<D>(cfg: Config, ticks: seq<Tick<D>>, lost: D -> D, now: nat, plannable: bool,
                                            restore: Outcome, api: bool)
    requires !cfg.writes && Ordered(ticks) && (ticks != [] ==> ticks[|ticks| - 1].now <= now)
    ensures var n := Restarted<D>(); var end := Ticks(cfg, n, ticks, lost);
      var events := Events(cfg, n, ticks, lost) + ExitOf(cfg, end, now, plannable, restore, api);
      DiscoveryOnlyActs(FoundWritten(ticks), Run(SeededBy(cfg, n, ticks, lost), events).acts)
  {
    var n := Restarted<D>();
    var seeded, events := SeededBy(cfg, n, ticks, lost), Events(cfg, n, ticks, lost);
    var exit := ExitOf(cfg, Ticks(cfg, n, ticks, lost), now, plannable, restore, api);
    OnlyHoldsAndReleases(cfg, n, ticks, lost);
    SeededStarts(cfg, n, ticks, lost);
    hide Run, Events, SeededBy, Orderly, DiscoveryOnlyActs, FoundWritten, Ticks;
    if exit == [] {
      assert events + exit == events;
    } else {
      OrderlyStep(events, exit[0]);
      assert exit == [exit[0]];
    }
    WithoutSteps(seeded, events + exit);
  }

  // --- What a process takes over ------------------------------------------------------------

  /** The first reconcile that could read NodeHardware: it seeds the component. */
  function FirstRead<D>(ticks: seq<Tick<D>>): Option<Tick<D>> {
    if ticks == [] then None
    else
      var k := |ticks| - 1;
      if FirstRead(ticks[..k]).Some? then FirstRead(ticks[..k])
      else if ticks[k].stored.Unreadable? then None else Some(ticks[k])
  }

  /** Whether the status that reconcile found says that an earlier run wrote. */
  predicate FoundWritten<D>(ticks: seq<Tick<D>>) {
    var t := FirstRead(ticks);
    t.Some? && t.value.desired.Some? && t.value.desired.value.last.Some? && TellsOfWrite(t.value.desired.value.last.value)
  }

  /** The seeded state is that of a component that has just started; it is
      changed exactly when the status found says so. */
  lemma {:induction false} SeededStarts<D>(cfg: Config, n: Node<D>, ticks: seq<Tick<D>>, lost: D -> D)
    requires !n.loaded && n.c == Fresh0
    ensures Started(SeededBy(cfg, n, ticks, lost))
    ensures SeededBy(cfg, n, ticks, lost).changed <==> FoundWritten(ticks)
    ensures Ticks(cfg, n, ticks, lost).loaded <==> FirstRead(ticks).Some?
    ensures !Ticks(cfg, n, ticks, lost).loaded ==>
      Ticks(cfg, n, ticks, lost).c == SeededBy(cfg, n, ticks, lost) == Fresh0
    decreases |ticks|
  {
    if ticks != [] {
      SeededStarts(cfg, n, ticks[..|ticks| - 1], lost);
      hide EventOf, Next, Recorded;
    }
  }
}
