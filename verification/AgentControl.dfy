/** The governor control of one node: prepare, which reads the stored state once
    and keeps the two baselines, and reconcile, which acts on each component. */
module AgentControl {
  import opened Results
  import opened Component
  import opened ComponentRuns
  import opened Control
  import opened CpuBaseline

  datatype Device = Device(bus: string, level: string)

  type Groups = seq<StoredGroup>
  type Devices = seq<Device>

  const UNKNOWN := "unknown"
  const AUTO := "auto"

  /** A CPU state that may be the agent's own is still the best there is. */
  function AsSeen(g: Groups): Groups {
    g
  }

  function DefaultLevel(d: Device): Device {
    if d.level != UNKNOWN then d.(level := AUTO) else d
  }

  /** A GPU level that may be the agent's own gives way to the vendor default. */
  function VendorDefault(devices: Devices): Devices {
    if devices == [] then []
    else VendorDefault(devices[..|devices| - 1]) + [DefaultLevel(devices[|devices| - 1])]
  }

  /** Every device is kept on its bus, at "auto" unless its level is unknown. */
  lemma {:induction false} VendorDefaultAt(devices: Devices, i: nat)
    requires i < |devices|
    ensures |VendorDefault(devices)| == |devices|
    ensures VendorDefault(devices)[i] ==
      Device(devices[i].bus, if devices[i].level == "unknown" then devices[i].level else "auto")
  {
    var n := |devices| - 1;
    if i < n {
      VendorDefaultAt(devices[..n], i);
    } else if n > 0 {
      VendorDefaultAt(devices[..n], 0);
    }
  }

  /** A GPU discovery that was not empty: what NodeHardware lists of it. */
  datatype Discovery = Discovery(mechanism: string, presets: seq<string>, devices: Devices)

  function DevicesOf(found: Option<Discovery>): Option<Devices> {
    if found.Some? then Some(found.value.devices) else None
  }

  /** The latest GPU discovery that was not empty, once the node is loaded. */
  function LastOf(loaded: bool, last: Option<Discovery>, found: Option<Discovery>): Option<Discovery> {
    if loaded && found.Some? then found else last
  }

  /** GPUKept: what is listed in place of an empty discovery. */
  function KeptOf(loaded: bool, last: Option<Discovery>, found: Option<Discovery>): Option<Discovery> {
    if loaded && found.None? then last else None
  }

  class NodeControl {
    const cfg: Config
    const cpu: Governor
    const gpu: Governor
    var loaded: bool
    var cpuBaseline: Option<Baseline<Groups>>
    var gpuBaseline: Option<Baseline<Devices>>
    var lastGpu: Option<Discovery>

    ghost predicate Valid()
      reads this, cpu, cpu.drifts, cpu.drifts.times, gpu, gpu.drifts, gpu.drifts.times
    {
      && cpu != gpu && cpu.drifts != gpu.drifts && cpu.drifts.times != gpu.drifts.times
      && cpu.Valid() && gpu.Valid()
    }

    ghost function CpuNode(): Node<Groups>
      reads this, cpu
    {
      Node(loaded, cpuBaseline, cpu.model)
    }

    ghost function GpuNode(): Node<Devices>
      reads this, gpu
    {
      Node(loaded, gpuBaseline, gpu.model)
    }

    constructor (cfg: Config)
      ensures Valid() && this.cfg == cfg && CpuNode() == Restarted<Groups>() && GpuNode() == Restarted<Devices>()
      ensures lastGpu == None
    {
      this.cfg, loaded, cpuBaseline, gpuBaseline, lastGpu := cfg, false, None, None, None;
      cpu := new Governor();
      gpu := new Governor();
    }

    /** Reads the stored baselines and the last status, once. */
    method Load(t: Tick<Groups>, u: Tick<Devices>)
      requires Valid() && SameRead(t, u)
      modifies this, cpu, gpu
      ensures Valid() && CpuNode() == Loaded(old(CpuNode()), t) && GpuNode() == Loaded(old(GpuNode()), u)
      ensures lastGpu == old(lastGpu)
    {
      if loaded || t.stored.Unreadable? {
        return;
      }
      if t.stored.Found? {
        cpuBaseline, gpuBaseline := t.stored.baseline, u.stored.baseline;
      }
      loaded := true;
      if t.desired.Some? {
        cpu.Seed(t.desired.value.last);
        gpu.Seed(u.desired.value.last);
      }
    }

    method RecordCpu(found: Option<Groups>, now: nat)
      modifies this`cpuBaseline
      ensures cpuBaseline == Recorded(old(cpuBaseline), cpu.changed, found, AsSeen, now)
    {
      if found.Some? && (cpuBaseline.None? || !cpu.changed) {
        if cpuBaseline.None? || found.value != cpuBaseline.value.content {
          cpuBaseline := Some(Baseline(found.value, now));
        }
      }
    }

    method RecordGpu(found: Option<Devices>, now: nat)
      modifies this`gpuBaseline
      ensures gpuBaseline == Recorded(old(gpuBaseline), gpu.changed, found, VendorDefault, now)
    {
      if found.Some? && (gpuBaseline.None? || !gpu.changed) {
        var devices := found.value;
        if gpuBaseline.None? && gpu.changed {
          for i := 0 to |devices|
            invariant |devices| == |found.value| && devices[..i] == VendorDefault(found.value[..i])
            invariant devices[i..] == found.value[i..]
          {
            assert found.value[..i + 1][..i] == found.value[..i];
            assert devices[i] == devices[i..][0] == found.value[i];
            ghost var was := devices;
            if devices[i].level != UNKNOWN {
              devices := devices[i := devices[i].(level := AUTO)];
            }
            assert devices[..i + 1] == was[..i] + [DefaultLevel(was[i])];
            assert devices[i + 1..] == was[i..][1..] == found.value[i..][1..];
          }
          assert devices[..|devices|] == devices && found.value[..|devices|] == found.value;
        }
        if gpuBaseline.None? || devices != gpuBaseline.value.content {
          gpuBaseline := Some(Baseline(devices, now));
        }
      }
    }

    method KeepLast(found: Option<Discovery>) returns (kept: Option<Discovery>)
      modifies this`lastGpu
      ensures lastGpu == LastOf(true, old(lastGpu), found) && kept == KeptOf(true, old(lastGpu), found)
    {
      kept := None;
      if found.Some? {
        lastGpu := found;
      } else if lastGpu.Some? {
        kept := lastGpu;
      }
    }

    /** Runs before NodeHardware is written; kept is the discovery to list for an
        empty one. */
    method Prepare(t: Tick<Groups>, u: Tick<Devices>, found: Option<Discovery>) returns (kept: Option<Discovery>)
      requires Valid() && SameRead(t, u) && u.found == DevicesOf(found)
      modifies this, cpu, gpu
      ensures Valid()
      ensures CpuNode() == PrepareOf(old(CpuNode()), t, AsSeen)
      ensures GpuNode() == PrepareOf(old(GpuNode()), u, VendorDefault)
      ensures lastGpu == LastOf(loaded, old(lastGpu), found) && kept == KeptOf(loaded, old(lastGpu), found)
    {
      hide Recorded, VendorDefault;
      kept := None;
      Load(t, u);
      if !loaded {
        return;
      }
      kept := KeepLast(found);
      assert cpu.changed == cpu.model.changed && gpu.changed == gpu.model.changed;
      RecordCpu(t.found, t.now);
      RecordGpu(u.found, u.now);
    }

    /** reconcileCPU and reconcileGPU, as far as the component is concerned. */
    method ReconcileComponent<D>(c: Governor, ghost n: Node<D>, t: Tick<D>)
      requires c.Valid() && n.c == c.model && n.loaded == loaded
      requires IntentOf(t) != Some("")
      modifies c, c.drifts, c.drifts.times
      ensures c.Valid()
      ensures var m := ReconcileOf(cfg, n, t); c.model == m.s && c.log == old(c.log) + m.acts
    {
      if !loaded {
        return;
      }
      assert c.changed == c.model.changed && c.contended == c.model.contended && c.refused == c.model.refused;
      hide StepOf, HoldOf, PublishOf, ReleaseOf;
      var intent := IntentOf(t);
      if intent.None? || (!cfg.writes && c.changed && !c.contended && !t.simulateOnly && !cfg.remote && !c.refused) {
        c.Release(t.now, !t.simulateOnly && !cfg.remote, t.found.Some?, t.restore, t.api);
        return;
      }
      var blocked := Blocked(cfg, t);
      if blocked.Some? {
        c.Hold(t.now, blocked.value, t.api);
        return;
      }
      c.Step(t.now, intent.value, t.answers, t.api);
    }

    /** The CPU governor, then the GPU governor. */
    method Reconcile(t: Tick<Groups>, u: Tick<Devices>)
      requires Valid() && SameRead(t, u) && IntentOf(t) != Some("") && IntentOf(u) != Some("")
      modifies cpu, cpu.drifts, cpu.drifts.times, gpu, gpu.drifts, gpu.drifts.times
      ensures Valid()
      ensures CpuNode() == old(CpuNode()).(c := ReconcileOf(cfg, old(CpuNode()), t).s)
      ensures GpuNode() == old(GpuNode()).(c := ReconcileOf(cfg, old(GpuNode()), u).s)
    {
      ReconcileComponent(cpu, CpuNode(), t);
      ReconcileComponent(gpu, GpuNode(), u);
    }

    /** One pass of the agent over its governors. */
    method ReconcileOnce(t: Tick<Groups>, u: Tick<Devices>, found: Option<Discovery>) returns (kept: Option<Discovery>)
      requires Valid() && SameRead(t, u) && u.found == DevicesOf(found)
      requires IntentOf(t) != Some("") && IntentOf(u) != Some("")
      modifies this, cpu, cpu.drifts, cpu.drifts.times, gpu, gpu.drifts, gpu.drifts.times
      ensures Valid()
      ensures CpuNode() == TickOf(cfg, old(CpuNode()), t, AsSeen)
      ensures GpuNode() == TickOf(cfg, old(GpuNode()), u, VendorDefault)
      ensures lastGpu == LastOf(loaded, old(lastGpu), found) && kept == KeptOf(loaded, old(lastGpu), found)
    {
      kept := Prepare(t, u, found);
      Reconcile(t, u);
    }

    /** The exit restore of both components; plannable is whether the last
        discovery found them. */
    method RestoreOnExit(now: nat, cpuPlannable: bool, cpuRestore: Outcome, gpuPlannable: bool, gpuRestore: Outcome,
                         api: bool)
      requires Valid()
      modifies cpu, cpu.drifts, gpu, gpu.drifts
      ensures Valid()
      ensures cpu.model == Run(old(cpu.model), ExitOf(cfg, old(CpuNode()), now, cpuPlannable, cpuRestore, api)).s
      ensures gpu.model == Run(old(gpu.model), ExitOf(cfg, old(GpuNode()), now, gpuPlannable, gpuRestore, api)).s
    {
      ExitRuns(cpu.model, ExitOf(cfg, CpuNode(), now, cpuPlannable, cpuRestore, api));
      ExitRuns(gpu.model, ExitOf(cfg, GpuNode(), now, gpuPlannable, gpuRestore, api));
      hide Run, Next;
      if !cfg.restoreOnExit || !loaded {
        return;
      }
      cpu.RestoreOnExit(now, !cfg.remote, cpuPlannable, cpuRestore, api);
      gpu.RestoreOnExit(now, !cfg.remote, gpuPlannable, gpuRestore, api);
    }
  }

  lemma {:induction false} ExitRuns(s: State, exit: seq<Event>)
    requires |exit| <= 1
    ensures Run(s, exit).s == if exit == [] then s else Next(s, exit[0]).s
  {
    assert exit != [] ==> exit[..0] == [];
  }

  /** Both components see one read of NodeHardware and one desired state. */
  ghost predicate SameRead(t: Tick<Groups>, u: Tick<Devices>) {
    && t.now == u.now && t.desired.Some? == u.desired.Some?
    && t.stored.Unreadable? == u.stored.Unreadable? && t.stored.Missing? == u.stored.Missing?
  }
}
