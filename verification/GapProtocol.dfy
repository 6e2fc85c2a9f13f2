/** The agent and the controller manager over one NodeHardware object: the GPU
    presets the agent publishes, and the GPU intent the controller builds on
    them, must survive discoveries that come back empty and agent restarts, so
    that such a discovery never makes the agent put the baseline back. */
module GapProtocol {
  import opened Results
  import opened Component
  import opened Control
  import opened ComponentStatus
  import opened AgentControl

  /** Discovery reports a mechanism and at least one device. */
  predicate Sound(f: Discovery) {
    f.mechanism != "" && f.devices != []
  }

  /** status.gpu.governor of NodeHardware. */
  datatype Block = Block(mechanism: string, presets: seq<string>, baseline: Option<Baseline<Devices>>)

  // --- What the agent publishes ---------------------------------------------------------

  /** A stored baseline without devices counts as none. */
  function StoredBaseline(stored: Option<Block>): Option<Baseline<Devices>> {
    if stored.Some? && stored.value.baseline.Some? && stored.value.baseline.value.content != [] then stored.value.baseline
    else None
  }

  function Or<T>(x: Option<T>, y: Option<T>): Option<T> {
    if x.Some? then x else y
  }

  /** The block of a discovery: this reconcile's or a kept one. */
  function BlockOf(f: Discovery, kept: Option<Baseline<Devices>>): Block {
    Block(f.mechanism, f.presets, Or(kept, Some(Baseline(f.devices, 0))))
  }

  /** The block published: held is the baseline of the governor control. */
  function Published(listed: Option<Discovery>, held: Option<Baseline<Devices>>, stored: Option<Block>): Option<Block> {
    var kept := Or(held, StoredBaseline(stored));
    if listed.Some? then Some(BlockOf(listed.value, kept))
    else if kept.Some? then Some(if stored.Some? then stored.value.(baseline := kept) else Block("", [], kept))
    else None
  }

  /** The GPU block of the status map that addGovernorStatus builds. */
  method AddGovernorStatus(found: Option<Discovery>, kept: Option<Discovery>, held: Option<Baseline<Devices>>,
                           stored: Option<Block>) returns (block: Option<Block>)
    ensures block == Published(Or(found, kept), held, stored)
    ensures found.Some? ==> block.Some? && block.value.presets == found.value.presets
    ensures found.None? && kept.None? && stored.Some? && block.Some? ==> block.value.presets == stored.value.presets
  {
    block := None;
    var storedBaseline := StoredBaseline(stored);
    var g := Or(found, kept);
    if g.Some? {
      var inv := Block(g.value.mechanism, g.value.presets, None);
      inv := inv.(baseline := Or(Or(held, storedBaseline), Some(Baseline(g.value.devices, 0))));
      block := Some(inv);
    } else {
      var keep := Or(held, storedBaseline);
      if keep.Some? {
        var inv := Block("", [], None);
        if stored.Some? {
          inv := stored.value;
        }
        block := Some(inv.(baseline := keep));
      }
    }
  }

  // --- The controller -------------------------------------------------------------------

  /** A model's presets in the configuration; None leaves the default. */
  datatype ModelPresets = ModelPresets(performance: Option<string>, eco: Option<string>, ceiling: Option<real>)

  datatype ControllerConfig = ControllerConfig(
    enabled: bool, performance: string, eco: string, ceiling: real, models: map<string, ModelPresets>,
    sustainedOnlyMultiGpu: bool)

  const SUSTAINED := "sustained"
  const EFFICIENT := "efficient"

  datatype Intent = Intent(preset: string, ceiling: Option<real>)

  /** gpuPresetFor: the first of the keys with an entry, then the defaults. */
  function PresetFor(cfg: ControllerConfig, performance: bool, keys: seq<string>): (string, real) {
    if keys == [] then (if performance then cfg.performance else cfg.eco, cfg.ceiling)
    else if keys[0] == "" || keys[0] !in cfg.models then PresetFor(cfg, performance, keys[1..])
    else
      var m := cfg.models[keys[0]];
      var entry := if performance then m.performance else m.eco;
      var otherwise := if performance then cfg.performance else cfg.eco;
      (if entry.Some? then entry.value else otherwise, if m.ceiling.Some? then m.ceiling.value else cfg.ceiling)
  }

  /** A block in a discovery gap has a baseline and no mechanism. */
  predicate Gap(b: Block) {
    b.mechanism == "" && b.baseline.Some?
  }

  /** The GPU half of governorIntents for a node with GPUs; block is what the
      NodeHardware it reads holds. */
  function GpuIntentOf(cfg: ControllerConfig, performance: bool, keys: seq<string>, multiGpuPod: bool,
                       block: Option<Block>): Option<Intent>
  {
    if !cfg.enabled then None
    else
      var (chosen, ceiling) := PresetFor(cfg, performance, keys);
      var preset := if chosen == SUSTAINED && cfg.sustainedOnlyMultiGpu && !multiGpuPod then "" else chosen;
      if preset == "" then None
      else if block.Some? && (preset in block.value.presets || Gap(block.value)) then
        Some(Intent(preset, if preset == EFFICIENT then Some(ceiling) else None))
      else None
  }

  // --- The protocol -----------------------------------------------------------------------

  /** The agent's GPU component and its last discovery; the blocks NodeHardware has
      held, oldest first, and the one the controller's cache has seen; the intents
      the controller has written, oldest first; what the agent has done. */
  datatype World = World(
    node: Node<Devices>, last: Option<Discovery>, versions: seq<Option<Block>>, view: nat,
    intents: seq<Option<Intent>>, acts: seq<Act>)

  /** The inputs of a reconcile that the protocol does not decide. */
  datatype Inputs = Inputs(
    now: nat, last: Option<Status>, missing: Result, simulateOnly: bool, http: bool,
    answers: Answers, restore: Outcome, api: bool)

  /** Reconcile: the agent prepares, publishes and acts, on whatever it finds and
      on an intent the controller has written, perhaps an old one. Restart: a new
      agent process. Watch: the controller's cache catches up, by some versions.
      Plan: the controller builds and writes the intent. */
  datatype Event =
    | Reconcile(found: Option<Discovery>, readable: bool, seen: nat, inputs: Inputs)
    | Restart
    | Watch(view: nat)
    | Plan

  /** What stays fixed in a run. text is how the ceiling goes into the key. */
  datatype Setup = Setup(
    agent: Config, controller: ControllerConfig, performance: bool, keys: seq<string>, multiGpuPod: bool,
    text: Option<real> -> string)

  function Planned(u: Setup, block: Option<Block>): Option<Intent> {
    GpuIntentOf(u.controller, u.performance, u.keys, u.multiGpuPod, block)
  }

  predicate InRange(w: World) {
    w.versions != [] && w.view < |w.versions| && w.intents != []
  }

  function StoredBlock(w: World): Option<Block>
    requires InRange(w)
  {
    w.versions[|w.versions| - 1]
  }

  function KeyOf(u: Setup, i: Option<Intent>): Option<string> {
    if i.Some? then Some(i.value.preset + "|" + u.text(i.value.ceiling)) else None
  }

  function Seen(w: World, seen: nat): Option<Intent>
    requires InRange(w)
  {
    if seen < |w.intents| then w.intents[seen] else w.intents[|w.intents| - 1]
  }

  /** The reconcile as the governor control sees it. */
  function TickFor(u: Setup, w: World, e: Event): Tick<Devices>
    requires InRange(w) && e.Reconcile?
  {
    var i := e.inputs;
    Tick(i.now, if e.readable then Stored.Found(StoredBaseline(StoredBlock(w))) else Unreadable,
         Some(Desired(KeyOf(u, Seen(w, e.seen)), i.last)), DevicesOf(e.found), i.missing,
         i.simulateOnly, i.http, i.answers, i.restore, i.api)
  }

  function ReconcileWorld(u: Setup, w: World, e: Event): World
    requires InRange(w) && e.Reconcile?
  {
    var t := TickFor(u, w, e);
    var m := PrepareOf(w.node, t, VendorDefault);
    var listed := Or(e.found, KeptOf(m.loaded, w.last, e.found));
    var block := Published(listed, if m.loaded then m.baseline else None, StoredBlock(w));
    var moved := ReconcileOf(u.agent, m, t);
    World(m.(c := moved.s), LastOf(m.loaded, w.last, e.found), w.versions + [block], w.view, w.intents, w.acts + moved.acts)
  }

  function Next(u: Setup, w: World, e: Event): (r: World)
    requires InRange(w)
    ensures InRange(r)
  {
    match e
    case Reconcile(_, _, _, _) => ReconcileWorld(u, w, e)
    case Restart => w.(node := Restarted<Devices>(), last := None)
    case Watch(view) => if w.view <= view < |w.versions| then w.(view := view) else w
    case Plan => w.(intents := w.intents + [Planned(u, w.versions[w.view])])
  }

  function Run(u: Setup, w: World, events: seq<Event>): (r: World)
    requires InRange(w)
    ensures InRange(r)
  {
    if events == [] then w else Next(u, Run(u, w, events[..|events| - 1]), events[|events| - 1])
  }

  // --- The presets published ---------------------------------------------------------------

  predicate Finds(e: Event) {
    e.Reconcile? && e.found.Some?
  }

  /** The last discovery of a run that was not empty. */
  function LastFound(events: seq<Event>): Option<Discovery> {
    if events == [] then None
    else
      var e := events[|events| - 1];
      if Finds(e) then e.found else LastFound(events[..|events| - 1])
  }

  /** Every discovery of the run that is not empty is a sound one. */
  predicate Discoveries(events: seq<Event>) {
    forall i :: 0 <= i < |events| && Finds(events[i]) ==> Sound(events[i].found.value)
  }

  /** What the agent remembers never contradicts what NodeHardware holds. */
  ghost predicate Consistent(w: World) {
    && InRange(w)
    && (w.last.Some? ==> w.node.loaded && Sound(w.last.value) && Publishes(StoredBlock(w), w.last.value))
    && (w.node.baseline.Some? ==> w.node.loaded && w.node.baseline.value.content != [] && StoredBlock(w).Some?)
    && (StoredBlock(w).Some? ==> StoredBaseline(StoredBlock(w)).Some?)
  }

  /** The block carries the discovery's presets. */
  predicate Publishes(b: Option<Block>, f: Discovery) {
    b.Some? && b.value.mechanism == f.mechanism && b.value.presets == f.presets
  }

  predicate SamePresets(b: Option<Block>, c: Option<Block>) {
    b.Some? && c.Some? && b.value.mechanism == c.value.mechanism && b.value.presets == c.value.presets
  }

  lemma {:induction false} VendorDefaultKeepsDevices(devices: Devices)
    ensures |VendorDefault(devices)| == |devices|
  {
    if devices != [] {
      VendorDefaultAt(devices, 0);
    }
  }

  /** What prepare keeps: a baseline with devices, of this node or as stored. */
  lemma {:induction false} PrepareKeeps(n: Node<Devices>, t: Tick<Devices>)
    requires n.baseline.Some? ==> n.loaded && n.baseline.value.content != []
    requires t.stored.Found? && t.stored.baseline.Some? ==> t.stored.baseline.value.content != []
    requires t.found.Some? ==> t.found.value != []
    ensures var m := PrepareOf(n, t, VendorDefault);
      && (m.baseline.Some? ==> m.loaded && m.baseline.value.content != [])
      && (m.baseline.Some? && t.found.None? ==>
            n.baseline.Some? || (!n.loaded && t.stored.Found? && t.stored.baseline.Some?))
      && (n.loaded ==> m.loaded)
  {
    if t.found.Some? {
      VendorDefaultKeepsDevices(t.found.value);
    }
  }

  lemma {:induction false} ReconcileStep(u: Setup, w: World, e: Event)
    requires Consistent(w) && (Finds(e) ==> Sound(e.found.value))
    ensures Consistent(Next(u, w, e))
    ensures Finds(e) ==> Publishes(StoredBlock(Next(u, w, e)), e.found.value)
    ensures !Finds(e) && StoredBlock(w).Some? ==> SamePresets(StoredBlock(w), StoredBlock(Next(u, w, e)))
    ensures !Finds(e) && StoredBlock(w).None? ==> StoredBlock(Next(u, w, e)).None?
  {
    if e.Reconcile? {
      PrepareKeeps(w.node, TickFor(u, w, e));
      hide PrepareOf, ReconcileOf;
    }
  }

  /** Over every run of reconciles, empty or not, of restarts and of controller
      activity, the presets NodeHardware shows are those of the last discovery
      that was not empty; before the first one they stay as they were. */
  lemma {:induction false} PublishedIsLastFound(u: Setup, w: World, events: seq<Event>)
    requires Consistent(w) && Discoveries(events)
    ensures var r := Run(u, w, events);
      && Consistent(r)
      && (LastFound(events).Some? ==> Publishes(StoredBlock(r), LastFound(events).value))
      && (LastFound(events).None? && StoredBlock(w).Some? ==> SamePresets(StoredBlock(w), StoredBlock(r)))
      && (LastFound(events).None? && StoredBlock(w).None? ==> StoredBlock(r).None?)
    decreases |events|
  {
    if events != [] {
      var n := |events| - 1;
      PublishedIsLastFound(u, w, events[..n]);
      ReconcileStep(u, Run(u, w, events[..n]), events[n]);
      hide Consistent, Next;
    }
  }

  // --- The intents built on them ------------------------------------------------------------

  /** The intent a node with this discovery gets. */
  function PlannedFor(u: Setup, f: Discovery): Option<Intent> {
    Planned(u, Some(BlockOf(f, None)))
  }

  lemma {:induction false} SamePresetsSameIntent(u: Setup, b: Option<Block>, c: Option<Block>)
    requires SamePresets(b, c) && StoredBaseline(b).Some? && StoredBaseline(c).Some?
    ensures Planned(u, b) == Planned(u, c)
  {
  }

  /** The plan from what NodeHardware holds is the plan from the last discovery
      that was not empty, whatever presets it lists. */
  lemma {:induction false} PlanIsOfLastFound(u: Setup, w: World, events: seq<Event>)
    requires Consistent(w) && Discoveries(events)
    ensures Planned(u, StoredBlock(Run(u, w, events)))
         == if LastFound(events).Some? then PlannedFor(u, LastFound(events).value) else Planned(u, StoredBlock(w))
  {
    PublishedIsLastFound(u, w, events);
    LastFoundSound(events);
    hide Run, LastFound;
    if LastFound(events).Some? {
      SamePresetsSameIntent(u, Some(BlockOf(LastFound(events).value, None)), StoredBlock(Run(u, w, events)));
    } else if StoredBlock(w).Some? {
      SamePresetsSameIntent(u, StoredBlock(w), StoredBlock(Run(u, w, events)));
    }
  }

  lemma {:induction false} LastFoundSound(events: seq<Event>)
    requires Discoveries(events)
    ensures LastFound(events).Some? ==> Sound(LastFound(events).value)
  {
    if events != [] {
      LastFoundSound(events[..|events| - 1]);
    }
  }

  /** Where an intent can come from: one written before the run, the plan from a
      version then in flight, or the plan from a discovery of the run. */
  ghost predicate From(u: Setup, w: World, events: seq<Event>, x: Option<Intent>)
    requires InRange(w)
  {
    || x in w.intents
    || (exists k :: w.view <= k < |w.versions| && x == Planned(u, w.versions[k]))
    || (exists i :: 0 <= i < |events| && Finds(events[i]) && x == PlannedFor(u, events[i].found.value))
  }

  ghost predicate AllFrom(u: Setup, w: World, events: seq<Event>, r: World)
    requires InRange(w) && InRange(r)
  {
    && (forall x :: x in r.intents ==> From(u, w, events, x))
    && (forall k :: r.view <= k < |r.versions| ==> From(u, w, events, Planned(u, r.versions[k])))
  }

  lemma {:induction false} FromLonger(u: Setup, w: World, events: seq<Event>, e: Event, x: Option<Intent>)
    requires InRange(w) && From(u, w, events, x)
    ensures From(u, w, events + [e], x)
  {
    if i :| 0 <= i < |events| && Finds(events[i]) && x == PlannedFor(u, events[i].found.value) {
      assert (events + [e])[i] == events[i];
    }
  }

  lemma {:induction false} AllFromStep(u: Setup, w: World, events: seq<Event>, r: World, e: Event)
    requires InRange(w) && Consistent(r) && AllFrom(u, w, events, r) && (Finds(e) ==> Sound(e.found.value))
    ensures AllFrom(u, w, events + [e], Next(u, r, e))
  {
    var q := Next(u, r, e);
    ReconcileStep(u, r, e);
    forall x | x in q.intents ensures From(u, w, events + [e], x) {
      if x in r.intents {
        FromLonger(u, w, events, e, x);
      } else {
        FromLonger(u, w, events, e, Planned(u, r.versions[r.view]));
      }
    }
    forall k | q.view <= k < |q.versions| ensures From(u, w, events + [e], Planned(u, q.versions[k])) {
      if k < |r.versions| {
        FromLonger(u, w, events, e, Planned(u, r.versions[k]));
      } else {
        NewVersionFrom(u, w, events, r, e);
      }
    }
  }

  lemma {:induction false} NewVersionFrom(u: Setup, w: World, events: seq<Event>, r: World, e: Event)
    requires InRange(w) && Consistent(r) && AllFrom(u, w, events, r) && e.Reconcile? && (Finds(e) ==> Sound(e.found.value))
    ensures From(u, w, events + [e], Planned(u, StoredBlock(Next(u, r, e))))
  {
    ReconcileStep(u, r, e);
    var block := StoredBlock(Next(u, r, e));
    hide Next;
    if Finds(e) {
      SamePresetsSameIntent(u, Some(BlockOf(e.found.value, None)), block);
      assert (events + [e])[|events|] == e;
    } else {
      if StoredBlock(r).Some? {
        SamePresetsSameIntent(u, StoredBlock(r), block);
      }
      assert Planned(u, r.versions[|r.versions| - 1]) == Planned(u, block);
      FromLonger(u, w, events, e, Planned(u, StoredBlock(r)));
    }
  }

  /** No interleaving, however stale the controller's cache, ever writes an intent
      that does not come from a discovery that was not empty. */
  lemma {:induction false} IntentsComeFromDiscoveries(u: Setup, w: World, events: seq<Event>)
    requires Consistent(w) && Discoveries(events)
    ensures AllFrom(u, w, events, Run(u, w, events))
    decreases |events|
  {
    if events == [] {
      forall k | w.view <= k < |w.versions| ensures From(u, w, events, Planned(u, w.versions[k])) {
      }
    } else {
      var n := |events| - 1;
      IntentsComeFromDiscoveries(u, w, events[..n]);
      PublishedIsLastFound(u, w, events[..n]);
      AllFromStep(u, w, events[..n], Run(u, w, events[..n]), events[n]);
      assert events == events[..n] + [events[n]];
    }
  }

  /** The plans a run starts from and meets. */
  ghost predicate Plans(u: Setup, w: World, events: seq<Event>, accept: Option<Intent> -> bool)
    requires InRange(w)
  {
    && (forall x :: x in w.intents ==> accept(x))
    && (forall k :: w.view <= k < |w.versions| ==> accept(Planned(u, w.versions[k])))
    && (forall i :: 0 <= i < |events| && Finds(events[i]) ==> accept(PlannedFor(u, events[i].found.value)))
  }

  // --- What an intent says -------------------------------------------------------------------

  /** The preset and the ceiling come from the first key that is not empty and has
      an entry, which falls back to the defaults field by field. */
  lemma {:induction false} PresetForFirst(cfg: ControllerConfig, performance: bool, keys: seq<string>) returns (k: nat)
    ensures k <= |keys| && forall j :: 0 <= j < k ==> keys[j] == "" || keys[j] !in cfg.models
    ensures var (preset, ceiling) := PresetFor(cfg, performance, keys);
      if k == |keys| then preset == (if performance then cfg.performance else cfg.eco) && ceiling == cfg.ceiling
      else
        && keys[k] != "" && keys[k] in cfg.models
        && var m := cfg.models[keys[k]];
        && preset == (if performance then m.performance.UnwrapOr(cfg.performance) else m.eco.UnwrapOr(cfg.eco))
        && ceiling == m.ceiling.UnwrapOr(cfg.ceiling)
  {
    k := 0;
    assert keys[0..] == keys;
    while k < |keys| && (keys[k] == "" || keys[k] !in cfg.models)
      invariant k <= |keys| && PresetFor(cfg, performance, keys) == PresetFor(cfg, performance, keys[k..])
      invariant forall j :: 0 <= j < k ==> keys[j] == "" || keys[j] !in cfg.models
    {
      assert keys[k..][1..] == keys[k + 1..];
      k := k + 1;
    }
  }

  /** An intent is planned exactly when governors are enabled, the profile's preset
      is none that is kept for pods with several GPUs, and NodeHardware lists it or
      is in a discovery gap; "efficient" alone carries the ceiling. */
  lemma {:induction false} PlannedExactly(u: Setup, block: Option<Block>)
    ensures var (preset, ceiling) := PresetFor(u.controller, u.performance, u.keys);
      && (Planned(u, block).Some? <==>
            && u.controller.enabled && preset != ""
            && !(preset == "sustained" && u.controller.sustainedOnlyMultiGpu && !u.multiGpuPod)
            && block.Some? && (preset in block.value.presets || (block.value.mechanism == "" && block.value.baseline.Some?)))
      && (Planned(u, block).Some? ==>
            Planned(u, block).value == Intent(preset, if preset == "efficient" then Some(ceiling) else None))
  {
  }

  /** Some discovery of the run lists the preset. */
  ghost predicate Discovered(events: seq<Event>, preset: string) {
    exists i :: 0 <= i < |events| && Finds(events[i]) && preset in events[i].found.value.presets
  }

  /** Over every interleaving an intent written in the run names a preset that a
      discovery of the run listed, or that a version listed, or held through a gap,
      that the controller could still see when the run began. */
  lemma {:induction false} IntentsAreListed(u: Setup, w: World, events: seq<Event>, x: Option<Intent>)
    requires Consistent(w) && Discoveries(events) && x in Run(u, w, events).intents && x !in w.intents && x.Some?
    ensures
      || Discovered(events, x.value.preset)
      || exists k :: w.view <= k < |w.versions| && w.versions[k].Some?
           && (x.value.preset in w.versions[k].value.presets || Gap(w.versions[k].value))
  {
    IntentsComeFromDiscoveries(u, w, events);
    assert From(u, w, events, x);
    hide Run, Consistent, PresetFor;
    if k :| w.view <= k < |w.versions| && x == Planned(u, w.versions[k]) {
      PlannedExactly(u, w.versions[k]);
    } else {
      var i :| 0 <= i < |events| && Finds(events[i]) && x == PlannedFor(u, events[i].found.value);
      PlannedExactly(u, Some(BlockOf(events[i].found.value, None)));
      assert Sound(events[i].found.value);
    }
  }

  /** Two intents have one key exactly when preset and printed ceiling agree, so a
      new ceiling is a new intent to the agent. */
  lemma {:induction false} KeyTells(u: Setup, a: Intent, b: Intent)
    requires '|' !in a.preset && '|' !in b.preset
    ensures KeyOf(u, Some(a)) == KeyOf(u, Some(b)) <==> a.preset == b.preset && u.text(a.ceiling) == u.text(b.ceiling)
  {
    var x, y := a.preset + "|" + u.text(a.ceiling), b.preset + "|" + u.text(b.ceiling);
    if x == y {
      assert x[|a.preset|] == '|' && y[|b.preset|] == '|';
      assert forall i :: 0 <= i < |a.preset| ==> x[i] == a.preset[i];
      assert forall i :: 0 <= i < |b.preset| ==> y[i] == b.preset[i];
      assert |a.preset| == |b.preset|;
      assert x[..|a.preset|] == a.preset && y[..|b.preset|] == b.preset;
      assert x[|a.preset| + 1..] == u.text(a.ceiling) && y[|b.preset| + 1..] == u.text(b.ceiling);
    }
  }

  // --- The baseline published ------------------------------------------------------------------

  /** NodeHardware holds the baseline the agent would put back. */
  ghost predicate Held(w: World)
    requires InRange(w)
  {
    w.node.baseline.Some? ==> StoredBlock(w).Some? && StoredBlock(w).value.baseline == w.node.baseline
  }

  /** Over every interleaving NodeHardware holds the baseline the agent would put
      back, so whatever process comes next can read it. */
  lemma {:induction false} BaselineIsPublished(u: Setup, w: World, events: seq<Event>)
    requires Consistent(w) && Discoveries(events) && Held(w)
    ensures Held(Run(u, w, events))
    decreases |events|
  {
    if events != [] {
      var n := |events| - 1;
      BaselineIsPublished(u, w, events[..n]);
      PublishedIsLastFound(u, w, events[..n]);
      HeldStep(u, Run(u, w, events[..n]), events[n]);
      hide Consistent, Next, Held;
    }
  }

  lemma {:induction false} HeldStep(u: Setup, w: World, e: Event)
    requires Consistent(w) && Held(w) && (Finds(e) ==> Sound(e.found.value))
    ensures Held(Next(u, w, e))
  {
    if e.Reconcile? {
      PrepareKeeps(w.node, TickFor(u, w, e));
      hide PrepareOf, ReconcileOf;
    }
  }

  /** A restart that can read NodeHardware takes that baseline up again, if its
      status tells of a write, whatever the next discovery finds. */
  lemma {:induction false} RestartTakesBaselineUp(u: Setup, w: World, e: Event)
    requires Consistent(w) && Held(w) && w.node.baseline.Some? && e.Reconcile? && e.readable
    requires e.inputs.last.Some? && TellsOfWrite(e.inputs.last.value)
    ensures Next(u, Next(u, w, Restart), e).node.baseline == w.node.baseline
  {
    hide ReconcileOf;
  }

  /** So the intent keeps any property its discoveries give it: empty discoveries
      and restarts never drop it, and never change it. */
  lemma {:induction false} IntentNeverFlaps(u: Setup, w: World, events: seq<Event>, accept: Option<Intent> -> bool)
    requires Consistent(w) && Discoveries(events) && Plans(u, w, events, accept)
    ensures forall x :: x in Run(u, w, events).intents ==> accept(x)
  {
    IntentsComeFromDiscoveries(u, w, events);
    forall x | x in Run(u, w, events).intents ensures accept(x) {
      assert From(u, w, events, x);
    }
  }

  // --- What the agent does about it ------------------------------------------------------------

  /** With an intent and GOVERNOR_WRITES on a reconcile never restores, and on an
      empty discovery it only holds. */
  lemma {:induction false} IntentHeld(cfg: Config, n: Node<Devices>, t: Tick<Devices>)
    requires cfg.writes && IntentOf(t).Some?
    ensures forall a :: a in ReconcileOf(cfg, n, t).acts ==> !a.Restore?
    ensures t.found.None? && n.loaded ==> EventOf(cfg, t, n.c).Hold? && |ReconcileOf(cfg, n, t).acts| == 1
    ensures t.found.None? ==> forall a :: a in ReconcileOf(cfg, n, t).acts ==> a.Held?
  {
    OnlyStepsApply(n.c, EventOf(cfg, t, n.c));
    assert !EventOf(cfg, t, n.c).Release? && !EventOf(cfg, t, n.c).Exit?;
    assert t.found.None? ==> EventOf(cfg, t, n.c).Hold?;
    hide StepOf;
  }

  const Present: Option<Intent> -> bool := (x: Option<Intent>) => x.Some?

  /** The agent restores nothing in the run, and does nothing but hold, if
      anything, on an empty discovery. */
  ghost predicate NeverRestores(u: Setup, w: World, events: seq<Event>)
    requires InRange(w)
  {
    && (forall a :: a in Run(u, w, events).acts ==> a in w.acts || !a.Restore?)
    && (forall n :: 0 <= n < |events| && events[n].Reconcile? && events[n].found.None? ==>
          HoldsOnly(Run(u, w, events[..n]), Next(u, Run(u, w, events[..n]), events[n])))
  }

  predicate HoldsOnly(before: World, after: World) {
    && before.acts <= after.acts
    && (if after.node.loaded then |after.acts| == |before.acts| + 1 && after.acts[|before.acts|].Held?
        else after.acts == before.acts)
  }

  lemma {:induction false} RestoresNothing(u: Setup, w: World, e: Event)
    requires InRange(w) && u.agent.writes && forall x :: x in w.intents ==> x.Some?
    ensures forall a :: a in Next(u, w, e).acts ==> a in w.acts || !a.Restore?
    ensures e.Reconcile? && e.found.None? ==> HoldsOnly(w, Next(u, w, e))
  {
    if e.Reconcile? {
      var t := TickFor(u, w, e);
      assert Seen(w, e.seen) in w.intents;
      var m := PrepareOf(w.node, t, VendorDefault);
      assert IntentOf(t).Some? && DevicesOf(e.found) == t.found;
      IntentHeld(u.agent, m, t);
      hide PrepareOf, ReconcileOf, EventOf, IntentOf, TickFor;
      var acts := ReconcileOf(u.agent, m, t).acts;
      assert Next(u, w, e).acts == w.acts + acts;
      if e.found.None? && !m.loaded {
        NothingUnloaded(u.agent, m, t);
      }
    }
  }

  lemma {:induction false} NothingUnloaded(cfg: Config, n: Node<Devices>, t: Tick<Devices>)
    requires !n.loaded
    ensures ReconcileOf(cfg, n, t).acts == []
  {
  }

  lemma {:induction false} PlansPrefix(u: Setup, w: World, events: seq<Event>, accept: Option<Intent> -> bool, n: nat)
    requires InRange(w) && n <= |events| && Discoveries(events) && Plans(u, w, events, accept)
    ensures Discoveries(events[..n]) && Plans(u, w, events[..n], accept)
  {
    forall i | 0 <= i < n && Finds(events[..n][i])
      ensures Sound(events[..n][i].found.value) && accept(PlannedFor(u, events[..n][i].found.value))
    {
      assert events[..n][i] == events[i];
    }
  }

  /** Event n of a run, among intents that are all there. */
  lemma {:induction false} EventRestoresNothing(u: Setup, w: World, events: seq<Event>, n: nat)
    requires Consistent(w) && Discoveries(events) && u.agent.writes && Plans(u, w, events, Present) && n < |events|
    ensures var r := Run(u, w, events[..n]);
      && (forall a :: a in Next(u, r, events[n]).acts ==> a in r.acts || !a.Restore?)
      && (events[n].Reconcile? && events[n].found.None? ==> HoldsOnly(r, Next(u, r, events[n])))
  {
    assert InRange(w);
    hide Consistent, Plans, Discoveries, HoldsOnly, Next, Run;
    PlansPrefix(u, w, events, Present, n);
    IntentNeverFlaps(u, w, events[..n], Present);
    RestoresNothing(u, Run(u, w, events[..n]), events[n]);
  }

  lemma {:induction false} RunRestoresNothing(u: Setup, w: World, events: seq<Event>, n: nat)
    requires Consistent(w) && Discoveries(events) && u.agent.writes && Plans(u, w, events, Present) && n <= |events|
    ensures forall a :: a in Run(u, w, events[..n]).acts ==> a in w.acts || !a.Restore?
    decreases n
  {
    assert InRange(w);
    hide Consistent, Plans, Discoveries, HoldsOnly, Next;
    if n == 0 {
      assert events[..0] == [];
    } else {
      RunRestoresNothing(u, w, events, n - 1);
      EventRestoresNothing(u, w, events, n - 1);
      assert events[..n][..n - 1] == events[..n - 1];
    }
  }

  /** While every discovery that is not empty plans some intent, an empty discovery
      never makes the agent restore, whatever restarts, stale caches and old
      intents come with it: it is held, and nothing else is done. */
  lemma {:induction false} EmptyDiscoveryNeverRestores(u: Setup, w: World, events: seq<Event>)
    requires Consistent(w) && Discoveries(events) && u.agent.writes && Plans(u, w, events, Present)
    ensures NeverRestores(u, w, events)
  {
    assert InRange(w);
    hide Consistent, Plans, Discoveries, HoldsOnly, Next, Run;
    RunRestoresNothing(u, w, events, |events|);
    assert events[..|events|] == events;
    forall n | 0 <= n < |events| && events[n].Reconcile? && events[n].found.None?
      ensures HoldsOnly(Run(u, w, events[..n]), Next(u, Run(u, w, events[..n]), events[n]))
    {
      EventRestoresNothing(u, w, events, n);
    }
  }

  /** A process that lives on needs no object: the discovery it kept is listed in
      place of an empty one, so a lost object is written anew with its presets. */
  lemma {:induction false} KeptOutlivesObject(u: Setup, w: World, e: Event)
    requires InRange(w) && w.node.loaded && w.last.Some? && e.Reconcile? && e.found.None?
    ensures Publishes(StoredBlock(Next(u, w, e)), w.last.value)
  {
    hide PrepareOf, ReconcileOf;
    assert PrepareOf(w.node, TickFor(u, w, e), VendorDefault).loaded by {
      StaysLoaded(w.node, TickFor(u, w, e));
    }
  }

  lemma {:induction false} StaysLoaded(n: Node<Devices>, t: Tick<Devices>)
    requires n.loaded
    ensures PrepareOf(n, t, VendorDefault).loaded
  {
  }

  // --- Without the object ----------------------------------------------------------------------

  /** Without a stored block the protocol remembers nothing across a restart: if
      the object is lost as well, one empty discovery drops the intent. */
  lemma {:induction false} LostObjectDropsIntent(u: Setup, w: World, readable: bool, seen: nat, inputs: Inputs)
    requires InRange(w) && StoredBlock(w).None? && w.node == Restarted<Devices>() && w.last.None?
    ensures var r := Run(u, w, [Reconcile(None, readable, seen, inputs), Watch(|w.versions|), Plan]);
      r.intents == w.intents + [None]
  {
    var e1, e2 := Reconcile(None, readable, seen, inputs), Watch(|w.versions|);
    var events := [e1, e2, Plan];
    assert events[..2] == [e1, e2] && [e1, e2][..1] == [e1] && [e1][..0] == [];
    assert Run(u, w, []) == w;
    assert Run(u, w, [e1]) == Next(u, w, e1);
    assert Run(u, w, [e1, e2]) == Next(u, Run(u, w, [e1]), e2);
    hide ReconcileOf;
  }
}
