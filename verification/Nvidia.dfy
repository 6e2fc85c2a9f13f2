/** The NVIDIA half of the governor control. A clock lock cannot be read back,
    so the agent keeps a record of the locks it set; runNvidiaPlans and
    undoNvidiaLocks must keep that record equal to the agent's locks in force
    under any pattern of failing commands. */
module Nvidia {
  import opened Results

  datatype Lock = Lock(lo: int, hi: int)

  /** One clock domain of one GPU as the hardware holds it: unlocked, or locked
      by an operator, or by the agent. */
  datatype Held = Free | Operator(lock: Lock) | Agent(lock: Lock)

  datatype Locks = Locks(gpu: Held, mem: Held)

  /** The agent's record of one GPU. */
  datatype Record = Record(gpu: Option<Lock>, mem: Option<Lock>)

  /** -lgc, -lmc, -rgc and -rmc: lock or reset the graphics or memory clock. */
  datatype Command = LockGpu | LockMem | ResetGpu | ResetMem

  datatype Plan = Plan(commands: seq<Command>, gpuLock: Option<Lock>, memLock: Option<Lock>)

  predicate OnGpu(c: Command) {
    c.LockGpu? || c.ResetGpu?
  }

  /** A plan names the lock it sets, and has at most one command per domain,
      the graphics command first. */
  predicate WellFormed(p: Plan) {
    && (LockGpu in p.commands ==> p.gpuLock.Some?) && (LockMem in p.commands ==> p.memLock.Some?)
    && |p.commands| <= 2
    && (|p.commands| == 2 ==> OnGpu(p.commands[0]) && !OnGpu(p.commands[1]))
  }

  // --- PlanNvidia's commands --------------------------------------------------

  /** The locks a preset asks for on one GPU, and whether -lmc works there. */
  datatype Choice = Choice(gpu: Option<Lock>, mem: Option<Lock>, memLockable: bool)

  /** The auto preset, which a restore plans with. */
  function Auto(memLockable: bool): Choice {
    Choice(None, None, memLockable)
  }

  /** A domain the preset locks is locked; one it leaves is reset only when the
      record holds a lock there. */
  function PlanFor(c: Choice, r: Record): (p: Plan)
    ensures WellFormed(p)
  {
    var gpu := if c.gpu.Some? then [LockGpu] else if r.gpu.Some? then [ResetGpu] else [];
    var mem := if c.mem.Some? then [LockMem] else if r.mem.Some? && c.memLockable then [ResetMem] else [];
    Plan(gpu + mem, c.gpu, c.mem)
  }

  /** A domain gets a lock exactly when the preset asks for one, and a reset exactly
      when it does not, the record holds a lock, and a reset works there. */
  lemma {:induction false} CommandsExactly(c: Choice, r: Record)
    ensures var p := PlanFor(c, r);
      && (LockGpu in p.commands <==> c.gpu.Some?) && (LockMem in p.commands <==> c.mem.Some?)
      && (ResetGpu in p.commands <==> c.gpu.None? && r.gpu.Some?)
      && (ResetMem in p.commands <==> c.mem.None? && r.mem.Some? && c.memLockable)
      && p.gpuLock == c.gpu && p.memLock == c.mem
  {
  }

  // --- What commands do -----------------------------------------------------------

  function Effect(c: Command, p: Plan, l: Locks): Locks
    requires (c.LockGpu? ==> p.gpuLock.Some?) && (c.LockMem? ==> p.memLock.Some?)
  {
    match c
    case LockGpu => l.(gpu := Agent(p.gpuLock.value))
    case LockMem => l.(mem := Agent(p.memLock.value))
    case ResetGpu => l.(gpu := Free)
    case ResetMem => l.(mem := Free)
  }

  /** The first k commands of a plan, all successful. */
  function AfterCommands(p: Plan, k: nat, l: Locks): Locks
    requires WellFormed(p) && k <= |p.commands|
  {
    if k == 0 then l else Effect(p.commands[k - 1], p, AfterCommands(p, k - 1, l))
  }

  function LocksOf(hw: map<string, Locks>, bus: string): Locks {
    if bus in hw then hw[bus] else Locks(Free, Free)
  }

  function RecordOf(nv: map<string, Record>, bus: string): Record {
    if bus in nv then nv[bus] else Record(None, None)
  }

  function AgentLock(h: Held): Option<Lock> {
    if h.Agent? then Some(h.lock) else None
  }

  function AgentLocks(l: Locks): Record {
    Record(AgentLock(l.gpu), AgentLock(l.mem))
  }

  /** The record names exactly the agent's locks in force. */
  ghost predicate Refines(nv: map<string, Record>, hw: map<string, Locks>) {
    forall bus {:trigger RecordOf(nv, bus)} {:trigger LocksOf(hw, bus)} :: RecordOf(nv, bus) == AgentLocks(LocksOf(hw, bus))
  }

  /** What a run of nvidia-smi is sorted into. */
  type Ran = r: Result | r == Applied || r == Refused || r == Unsupported || r == Error witness Applied

  /** One run of nvidia-smi, for the record. */
  datatype Issue = Issue(bus: string, command: Command, result: Ran)

  /** nvidia-smi and the GPUs behind it. Which commands succeed is arbitrary; a
      command that fails changes nothing. */
  class Smi {
    var hw: map<string, Locks>
    var time: nat
    const outcome: (nat, string, Command) -> Ran
    ghost var succeeded: nat
    ghost var failed: nat
    ghost var log: seq<Issue>

    /** Every result in the log is the one the GPU gave then. */
    ghost predicate Valid()
      reads this
    {
      time == |log| && forall i :: 0 <= i < |log| ==> log[i].result == outcome(i, log[i].bus, log[i].command)
    }

    constructor (hw: map<string, Locks>, outcome: (nat, string, Command) -> Ran)
      ensures Valid() && this.hw == hw && this.outcome == outcome && succeeded == failed == 0 && log == []
    {
      this.hw, this.outcome, time, succeeded, failed, log := hw, outcome, 0, 0, 0, [];
    }

    method Run(bus: string, c: Command, p: Plan) returns (result: Ran)
      requires Valid() && (c.LockGpu? ==> p.gpuLock.Some?) && (c.LockMem? ==> p.memLock.Some?)
      modifies this
      ensures Valid() && log == old(log) + [Issue(bus, c, result)]
      ensures result == Applied ==>
        hw == old(hw)[bus := Effect(c, p, LocksOf(old(hw), bus))] && succeeded == old(succeeded) + 1 && failed == old(failed)
      ensures result != Applied ==> hw == old(hw) && succeeded == old(succeeded) && failed == old(failed) + 1
    {
      result := outcome(time, bus, c);
      time, log := time + 1, log + [Issue(bus, c, result)];
      if result == Applied {
        hw := hw[bus := Effect(c, p, LocksOf(hw, bus))];
        succeeded := succeeded + 1;
      } else {
        failed := failed + 1;
      }
    }
  }

  /** What the record of a GPU becomes after one successful command. */
  function Recorded(c: Command, p: Plan, r: Record): Record {
    match c
    case LockGpu => r.(gpu := p.gpuLock)
    case LockMem => r.(mem := p.memLock)
    case ResetGpu => r.(gpu := None)
    case ResetMem => r.(mem := None)
  }

  lemma {:induction false} RecordStep(nv: map<string, Record>, hw: map<string, Locks>, bus: string, c: Command, p: Plan)
    requires Refines(nv, hw) && (c.LockGpu? ==> p.gpuLock.Some?) && (c.LockMem? ==> p.memLock.Some?)
    ensures Refines(nv[bus := Recorded(c, p, RecordOf(nv, bus))], hw[bus := Effect(c, p, LocksOf(hw, bus))])
  {
    assert RecordOf(nv, bus) == AgentLocks(LocksOf(hw, bus));
    var nv', hw' := nv[bus := Recorded(c, p, RecordOf(nv, bus))], hw[bus := Effect(c, p, LocksOf(hw, bus))];
    forall b | b != bus ensures RecordOf(nv', b) == AgentLocks(LocksOf(hw', b)) {
      assert RecordOf(nv, b) == AgentLocks(LocksOf(hw, b));
    }
  }

  const NoPlan := Plan([], None, None)

  /** The reset that clears a lock command's lock. */
  function ResetOf(c: Command): Command {
    if OnGpu(c) then ResetGpu else ResetMem
  }

  predicate IsLock(c: Command) {
    c.LockGpu? || c.LockMem?
  }

  /** How many of this plan's locks are still held on its GPU. */
  function Remaining(done: seq<Command>, l: Locks): nat {
    (if LockGpu in done && l.gpu != Free then 1 else 0) + (if LockMem in done && l.mem != Free then 1 else 0)
  }

  /** The locks after the attempt to reset what c locked. */
  function Attempted(c: Command, ok: bool, l: Locks): Locks {
    if ok then Effect(ResetOf(c), NoPlan, l) else l
  }

  lemma {:induction false} UndoStep(p: Plan, done: seq<Command>, i: nat, before: Locks, now: Locks, ok: bool)
    requires WellFormed(p) && done <= p.commands && i < |done| && Undone(done[i + 1..], before, now)
    requires (LockGpu in done ==> before.gpu.Agent?) && (LockMem in done ==> before.mem.Agent?)
    ensures !IsLock(done[i]) ==>
      Undone(done[i..], before, now) && Remaining(done[i..], now) == Remaining(done[i + 1..], now)
    ensures IsLock(done[i]) ==>
      var next := Attempted(done[i], ok, now);
      Undone(done[i..], before, next) && Remaining(done[i..], next) == Remaining(done[i + 1..], now) + (if ok then 0 else 1)
  {
    assert done[i..] == [done[i]] + done[i + 1..];
    assert done[i] in done;
    assert |done[i + 1..]| > 0 ==> i == 0 && done[i + 1..] == [p.commands[1]] && done[0] == p.commands[0];
  }

  /** The resets an undo runs: for every lock, the last first. */
  function Undoing(done: seq<Command>): seq<Command> {
    if done == [] then [] else Undoing(done[1..]) + (if IsLock(done[0]) then [ResetOf(done[0])] else [])
  }

  /** The log shows these commands, run on one GPU, with any results. */
  ghost predicate Calls(log: seq<Issue>, bus: string, commands: seq<Command>) {
    |log| == |commands| && forall i :: 0 <= i < |log| ==> log[i].bus == bus && log[i].command == commands[i]
  }

  lemma {:induction false} OneMoreCall(done: seq<Command>, i: nat, bus: string, log: seq<Issue>, result: Ran)
    requires i < |done| && Calls(log, bus, Undoing(done[i + 1..]))
    ensures if IsLock(done[i]) then Calls(log + [Issue(bus, ResetOf(done[i]), result)], bus, Undoing(done[i..]))
      else Calls(log, bus, Undoing(done[i..]))
  {
    assert done[i..][1..] == done[i + 1..];
  }

  /** The commands of the first g GPUs, and the first c of the next, all applied. */
  ghost function Script(plans: map<string, Plan>, order: seq<string>, g: nat, c: nat): seq<Issue>
    requires forall i :: 0 <= i < |order| ==> order[i] in plans
    requires g < |order| || (g == |order| && c == 0)
    requires g < |order| ==> c <= |plans[order[g]].commands|
    decreases g, c
  {
    if c > 0 then Script(plans, order, g, c - 1) + [Issue(order[g], plans[order[g]].commands[c - 1], Applied)]
    else if g > 0 then Script(plans, order, g - 1, |plans[order[g - 1]].commands|)
    else []
  }

  lemma {:induction false} NoScript(plans: map<string, Plan>, order: seq<string>)
    requires forall i :: 0 <= i < |order| ==> order[i] in plans
    ensures Script(plans, order, 0, 0) == []
  {
  }

  lemma {:induction false} ScriptStep(plans: map<string, Plan>, order: seq<string>, g: nat, c: nat)
    requires forall i :: 0 <= i < |order| ==> order[i] in plans
    requires g < |order| && c < |plans[order[g]].commands|
    ensures Script(plans, order, g, c + 1) == Script(plans, order, g, c) + [Issue(order[g], plans[order[g]].commands[c], Applied)]
  {
  }

  lemma {:induction false} ScriptNext(plans: map<string, Plan>, order: seq<string>, g: nat)
    requires forall i :: 0 <= i < |order| ==> order[i] in plans
    requires g < |order|
    ensures Script(plans, order, g + 1, 0) == Script(plans, order, g, |plans[order[g]].commands|)
  {
  }

  /** What a run reports: a failure is the result of the first command that was
      not applied; without one, every command was. */
  ghost predicate Reports(log: seq<Issue>, from: nat, failure: Option<WriteError>) {
    match failure
    case None => forall i :: from <= i < |log| ==> log[i].result == Applied
    case Some(result) => exists m :: FirstFailure(log, from, m, result)
  }

  /** Command m of the log is the first that failed; only resets on its GPU follow. */
  ghost predicate FirstFailure(log: seq<Issue>, from: nat, m: nat, result: Result) {
    && from <= m < |log| && log[m].result == result != Applied
    && (forall i :: from <= i < m ==> log[i].result == Applied)
    && (forall i :: m < i < |log| ==> log[i].bus == log[m].bus && !IsLock(log[i].command))
  }

  /** What the undo leaves: a domain this plan locked is free, or holds the lock
      still; any other domain is as the commands before the failure left it. */
  predicate Undone(done: seq<Command>, before: Locks, after: Locks) {
    && (if LockGpu in done then after.gpu == Free || after.gpu == before.gpu else after.gpu == before.gpu)
    && (if LockMem in done then after.mem == Free || after.mem == before.mem else after.mem == before.mem)
  }

  class Control {
    var nv: map<string, Record>
    const smi: Smi

    ghost predicate Valid()
      reads this, smi
    {
      Refines(nv, smi.hw) && smi.Valid()
    }

    /** An agent that has set no lock yet. */
    constructor (smi: Smi)
      requires smi.Valid()
      requires forall bus {:trigger LocksOf(smi.hw, bus)} :: !LocksOf(smi.hw, bus).gpu.Agent? && !LocksOf(smi.hw, bus).mem.Agent?
      ensures Valid() && this.smi == smi
    {
      this.smi, nv := smi, map[];
    }

    /** recordNvidia, after one successful command. */
    method RecordCommand(bus: string, c: Command, p: Plan)
      modifies this
      ensures nv == old(nv)[bus := Recorded(c, p, RecordOf(old(nv), bus))]
    {
      var r := RecordOf(nv, bus);
      match c {
        case LockGpu => r := r.(gpu := p.gpuLock);
        case LockMem => r := r.(mem := p.memLock);
        case ResetGpu => r := r.(gpu := None);
        case ResetMem => r := r.(mem := None);
      }
      nv := nv[bus := r];
    }

    method RunAndRecord(bus: string, c: Command, p: Plan) returns (result: Ran)
      requires Valid() && (c.LockGpu? ==> p.gpuLock.Some?) && (c.LockMem? ==> p.memLock.Some?)
      modifies this, smi
      ensures Valid() && smi.log == old(smi.log) + [Issue(bus, c, result)]
      ensures forall b :: b != bus ==> LocksOf(smi.hw, b) == LocksOf(old(smi.hw), b)
      ensures result == Applied ==>
        LocksOf(smi.hw, bus) == Effect(c, p, LocksOf(old(smi.hw), bus))
        && smi.succeeded == old(smi.succeeded) + 1 && smi.failed == old(smi.failed)
      ensures result != Applied ==>
        smi.hw == old(smi.hw) && smi.succeeded == old(smi.succeeded) && smi.failed == old(smi.failed) + 1
    {
      result := smi.Run(bus, c, p);
      if result == Applied {
        RecordStep(nv, old(smi.hw), bus, c, p);
        RecordCommand(bus, c, p);
      }
    }

    /** undoNvidiaLocks: resets, last first, every lock the commands of done
        set on the GPU at bus. */
    method UndoLocks(bus: string, ghost p: Plan, done: seq<Command>)
      returns (undone: nat, kept: bool, ghost resets: seq<Issue>)
      requires Valid() && WellFormed(p) && done <= p.commands
      requires LockGpu in done ==> LocksOf(smi.hw, bus).gpu.Agent?
      requires LockMem in done ==> LocksOf(smi.hw, bus).mem.Agent?
      modifies this, smi
      ensures Valid()
      ensures forall b :: b != bus ==> LocksOf(smi.hw, b) == LocksOf(old(smi.hw), b)
      ensures Undone(done, LocksOf(old(smi.hw), bus), LocksOf(smi.hw, bus))
      ensures undone == smi.succeeded - old(smi.succeeded)
      ensures smi.failed - old(smi.failed) == Remaining(done, LocksOf(smi.hw, bus))
      ensures kept <==> Remaining(done, LocksOf(smi.hw, bus)) > 0
      ensures smi.log == old(smi.log) + resets && Calls(resets, bus, Undoing(done))
    {
      undone, kept, resets := 0, false, [];
      ghost var before := LocksOf(smi.hw, bus);
      assert done[|done|..] == [];
      assert Undone([], before, before) && Remaining([], before) == 0;
      hide Undone, Remaining, Refines, Calls, Undoing;
      for i := |done| downto 0
        invariant Valid()
        invariant forall b :: b != bus ==> LocksOf(smi.hw, b) == LocksOf(old(smi.hw), b)
        invariant Undone(done[i..], before, LocksOf(smi.hw, bus))
        invariant undone == smi.succeeded - old(smi.succeeded)
        invariant smi.failed - old(smi.failed) == Remaining(done[i..], LocksOf(smi.hw, bus))
        invariant kept <==> Remaining(done[i..], LocksOf(smi.hw, bus)) > 0
        invariant smi.log == old(smi.log) + resets && Calls(resets, bus, Undoing(done[i..]))
      {
        ghost var now := LocksOf(smi.hw, bus);
        if !IsLock(done[i]) {
          UndoStep(p, done, i, before, now, false);
          OneMoreCall(done, i, bus, resets, Applied);
          continue;
        }
        var result := RunAndRecord(bus, ResetOf(done[i]), NoPlan);
        OneMoreCall(done, i, bus, resets, result);
        resets := resets + [Issue(bus, ResetOf(done[i]), result)];
        UndoStep(p, done, i, before, now, result == Applied);
        if result != Applied {
          kept := true;
          continue;
        }
        undone := undone + 1;
      }
      assert done[0..] == done;
    }

    /** runNvidiaPlans: every GPU's commands in order; the first that fails
        stops, and the locks this plan already set on that GPU are reset.
        at is the GPU and step the command that failed. */
    method RunPlans(plans: map<string, Plan>, order: seq<string>)
      returns (issued: nat, failure: Option<WriteError>, ghost at: nat, ghost step: nat, ghost resets: seq<Issue>)
      requires Valid()
      requires forall i :: 0 <= i < |order| ==> order[i] in plans && WellFormed(plans[order[i]])
      requires forall i, j :: 0 <= i < j < |order| ==> order[i] != order[j]
      modifies this, smi
      ensures Valid()
      ensures issued == smi.succeeded - old(smi.succeeded)
      ensures at <= |order| && (failure.None? <==> at == |order|)
      ensures forall i :: 0 <= i < at ==>
        LocksOf(smi.hw, order[i]) == AfterCommands(plans[order[i]], |plans[order[i]].commands|, LocksOf(old(smi.hw), order[i]))
      ensures forall i :: at < i < |order| ==> LocksOf(smi.hw, order[i]) == LocksOf(old(smi.hw), order[i])
      ensures forall bus :: bus !in order ==> LocksOf(smi.hw, bus) == LocksOf(old(smi.hw), bus)
      ensures failure.None? ==> smi.failed == old(smi.failed) && smi.log == old(smi.log) + Script(plans, order, at, 0)
      ensures failure.Some? ==>
        var bus := order[at]; var p := plans[bus];
        && step < |p.commands|
        && smi.log == old(smi.log) + Script(plans, order, at, step) + [Issue(bus, p.commands[step], failure.value)] + resets
        && Calls(resets, bus, Undoing(p.commands[..step]))
        && Undone(p.commands[..step], AfterCommands(p, step, LocksOf(old(smi.hw), bus)), LocksOf(smi.hw, bus))
        && smi.failed - old(smi.failed) == 1 + Remaining(p.commands[..step], LocksOf(smi.hw, bus))
    {
      hide AfterCommands, Effect, Undone, Remaining, Refines, Calls, Undoing, Script;
      NoScript(plans, order);
      issued, failure, at, step, resets := 0, None, |order|, 0, [];
      for g := 0 to |order|
        invariant Valid() && failure.None?
        invariant issued == smi.succeeded - old(smi.succeeded) && smi.failed == old(smi.failed)
        invariant forall i :: 0 <= i < g ==>
          LocksOf(smi.hw, order[i]) == AfterCommands(plans[order[i]], |plans[order[i]].commands|, LocksOf(old(smi.hw), order[i]))
        invariant forall i :: g <= i < |order| ==> LocksOf(smi.hw, order[i]) == LocksOf(old(smi.hw), order[i])
        invariant forall bus :: bus !in order ==> LocksOf(smi.hw, bus) == LocksOf(old(smi.hw), bus)
        invariant smi.log == old(smi.log) + Script(plans, order, g, 0)
      {
        var bus := order[g];
        var p := plans[bus];
        var done: seq<Command> := [];
        NoCommand(p, LocksOf(old(smi.hw), bus));
        label Before:
        for c := 0 to |p.commands|
          invariant Valid() && done == p.commands[..c]
          invariant issued == smi.succeeded - old(smi.succeeded) && smi.failed == old(smi.failed)
          invariant LocksOf(smi.hw, bus) == AfterCommands(p, c, LocksOf(old(smi.hw), bus))
          invariant forall b :: b != bus ==> LocksOf(smi.hw, b) == LocksOf(old@Before(smi.hw), b)
          invariant smi.log == old(smi.log) + Script(plans, order, g, c)
        {
          var result := RunAndRecord(bus, p.commands[c], p);
          if result != Applied {
            LocksDone(p, c, LocksOf(old(smi.hw), bus));
            var undone, kept;
            undone, kept, resets := UndoLocks(bus, p, done);
            issued, failure := issued + undone, Some(result);
            at, step := g, c;
            return;
          }
          OneMoreCommand(p, c, LocksOf(old(smi.hw), bus));
          ScriptStep(plans, order, g, c);
          issued := issued + 1;
          done := done + [p.commands[c]];
        }
        ScriptNext(plans, order, g);
      }
    }

    method PlanAll(gpus: seq<string>, choices: map<string, Choice>) returns (plans: map<string, Plan>)
      requires Valid() && forall i :: 0 <= i < |gpus| ==> gpus[i] in choices
      ensures forall i :: 0 <= i < |gpus| ==>
        && gpus[i] in plans && WellFormed(plans[gpus[i]])
        && plans[gpus[i]] == PlanFor(choices[gpus[i]], AgentLocks(LocksOf(smi.hw, gpus[i])))
    {
      plans := map[];
      for i := 0 to |gpus|
        invariant forall j :: 0 <= j < i ==>
          gpus[j] in plans && plans[gpus[j]] == PlanFor(choices[gpus[j]], RecordOf(nv, gpus[j]))
      {
        plans := plans[gpus[i] := PlanFor(choices[gpus[i]], RecordOf(nv, gpus[i]))];
      }
    }

    /** applyNvidia, once every GPU is known to support the preset. */
    method RunChoices(gpus: seq<string>, choices: map<string, Choice>) returns (issued: nat, failure: Option<WriteError>)
      requires Valid()
      requires forall i :: 0 <= i < |gpus| ==> gpus[i] in choices
      requires forall i, j :: 0 <= i < j < |gpus| ==> gpus[i] != gpus[j]
      modifies this, smi
      ensures Valid() && issued == smi.succeeded - old(smi.succeeded)
      ensures old(smi.log) <= smi.log && Reports(smi.log, |old(smi.log)|, failure)
      ensures failure.None? ==>
        forall bus :: bus in gpus ==> Reached(choices[bus], LocksOf(old(smi.hw), bus), LocksOf(smi.hw, bus))
      ensures forall bus :: bus in gpus ==> Spared(choices[bus], LocksOf(old(smi.hw), bus), LocksOf(smi.hw, bus))
      ensures forall bus :: bus !in gpus ==> LocksOf(smi.hw, bus) == LocksOf(old(smi.hw), bus)
    {
      var plans := PlanAll(gpus, choices);
      hide Refines, PlanFor, WellFormed, AfterCommands, Undone, Reached, Spared, Remaining, Script, Reports, Calls, Undoing, AgentLocks;
      ghost var at, step, resets;
      issued, failure, at, step, resets := RunPlans(plans, gpus);
      RunReports(plans, gpus, old(smi.log), at, step, failure, resets);
      forall i | 0 <= i < |gpus|
        ensures Spared(choices[gpus[i]], LocksOf(old(smi.hw), gpus[i]), LocksOf(smi.hw, gpus[i]))
        ensures failure.None? ==> Reached(choices[gpus[i]], LocksOf(old(smi.hw), gpus[i]), LocksOf(smi.hw, gpus[i]))
      {
        var c, before := choices[gpus[i]], LocksOf(old(smi.hw), gpus[i]);
        if i == at {
          OperatorLocksKept(c, before, step, LocksOf(smi.hw, gpus[i]));
        } else if i < at {
          PlanMeans(c, before);
          ReachedSpares(c, before, LocksOf(smi.hw, gpus[i]));
        } else {
          UnchangedSpares(c, before);
        }
      }
    }

    /** applyNvidia: plans every GPU first, and runs nothing when one of them does
        not support the preset (None). */
    method Apply(gpus: seq<string>, choices: map<string, Option<Choice>>) returns (issued: nat,
                 failure: Option<WriteError>)
      requires Valid()
      requires forall i :: 0 <= i < |gpus| ==> gpus[i] in choices
      requires forall i, j :: 0 <= i < j < |gpus| ==> gpus[i] != gpus[j]
      modifies this, smi
      ensures Valid() && issued == smi.succeeded - old(smi.succeeded)
      ensures (forall bus :: bus in gpus ==> choices[bus].Some?) ==>
        old(smi.log) <= smi.log && Reports(smi.log, |old(smi.log)|, failure)
      ensures (exists bus :: bus in gpus && choices[bus].None?) ==>
        issued == 0 && failure == Some(Unsupported) && nv == old(nv) && smi.hw == old(smi.hw) && smi.log == old(smi.log)
        && smi.succeeded == old(smi.succeeded) && smi.failed == old(smi.failed)
      ensures failure.None? ==> forall bus :: bus in gpus ==>
        choices[bus].Some? && Reached(choices[bus].value, LocksOf(old(smi.hw), bus), LocksOf(smi.hw, bus))
      ensures forall bus :: bus in gpus && choices[bus].Some? ==>
        Spared(choices[bus].value, LocksOf(old(smi.hw), bus), LocksOf(smi.hw, bus))
      ensures forall bus :: bus !in gpus ==> LocksOf(smi.hw, bus) == LocksOf(old(smi.hw), bus)
    {
      var planned: map<string, Choice> := map[];
      for i := 0 to |gpus|
        invariant forall j :: 0 <= j < i ==>
          choices[gpus[j]].Some? && gpus[j] in planned && planned[gpus[j]] == choices[gpus[j]].value
      {
        if choices[gpus[i]].None? {
          return 0, Some(Unsupported);
        }
        planned := planned[gpus[i] := choices[gpus[i]].value];
      }
      issued, failure := RunChoices(gpus, planned);
    }

    /** restoreNvidia: resets the agent's locks, and skips a GPU without one. */
    method Restore(gpus: seq<string>, memLockable: map<string, bool>) returns (issued: nat, failure: Option<WriteError>)
      requires Valid()
      requires forall i :: 0 <= i < |gpus| ==> gpus[i] in memLockable
      requires forall i, j :: 0 <= i < j < |gpus| ==> gpus[i] != gpus[j]
      modifies this, smi
      ensures Valid() && issued == smi.succeeded - old(smi.succeeded)
      ensures old(smi.log) <= smi.log && Reports(smi.log, |old(smi.log)|, failure)
      ensures failure.None? ==>
        forall bus :: bus in gpus ==> Reached(Auto(memLockable[bus]), LocksOf(old(smi.hw), bus), LocksOf(smi.hw, bus))
      ensures forall bus {:trigger LocksOf(smi.hw, bus)} ::
        Spared(Auto(true), LocksOf(old(smi.hw), bus), LocksOf(smi.hw, bus))
      ensures forall bus :: bus !in gpus ==> LocksOf(smi.hw, bus) == LocksOf(old(smi.hw), bus)
    {
      assert forall bus {:trigger RecordOf(nv, bus)} :: RecordOf(nv, bus) == AgentLocks(LocksOf(smi.hw, bus));
      hide Reached, Spared, PlanFor, Refines, Reports;
      var order, choices: map<string, Choice> := [], map[];
      for i := 0 to |gpus|
        invariant forall bus :: bus in order ==> bus in gpus[..i] && bus in choices && choices[bus] == Auto(memLockable[bus])
        invariant forall j, k :: 0 <= j < k < |order| ==> order[j] != order[k]
        invariant forall j :: 0 <= j < i && gpus[j] !in order ==>
          PlanFor(Auto(memLockable[gpus[j]]), RecordOf(nv, gpus[j])).commands == []
      {
        var bus := gpus[i];
        var choice := Auto(memLockable[bus]);
        if PlanFor(choice, RecordOf(nv, bus)).commands != [] {
          order, choices := order + [bus], choices[bus := choice];
        }
      }
      ghost var before := nv;
      issued, failure := RunChoices(order, choices);
      forall bus ensures Spared(Auto(true), LocksOf(old(smi.hw), bus), LocksOf(smi.hw, bus)) {
        SparedByAuto(LocksOf(old(smi.hw), bus), LocksOf(smi.hw, bus), if bus in order then memLockable[bus] else true);
      }
      forall bus | bus in gpus && failure.None?
        ensures Reached(Auto(memLockable[bus]), LocksOf(old(smi.hw), bus), LocksOf(smi.hw, bus))
      {
        if bus !in order {
          assert RecordOf(before, bus) == AgentLocks(LocksOf(old(smi.hw), bus));
          NothingToReset(memLockable[bus], LocksOf(old(smi.hw), bus));
        }
      }
    }
  }

  lemma {:induction false} ScriptApplied(plans: map<string, Plan>, order: seq<string>, g: nat, c: nat)
    requires forall i :: 0 <= i < |order| ==> order[i] in plans
    requires g < |order| || (g == |order| && c == 0)
    requires g < |order| ==> c <= |plans[order[g]].commands|
    ensures forall i :: 0 <= i < |Script(plans, order, g, c)| ==> Script(plans, order, g, c)[i].result == Applied
    decreases g, c
  {
    if c > 0 {
      ScriptApplied(plans, order, g, c - 1);
    } else if g > 0 {
      ScriptApplied(plans, order, g - 1, |plans[order[g - 1]].commands|);
    }
  }

  lemma {:induction false} UndoingResets(done: seq<Command>)
    ensures forall i :: 0 <= i < |Undoing(done)| ==> !IsLock(Undoing(done)[i])
  {
    if done != [] {
      UndoingResets(done[1..]);
    }
  }

  lemma {:induction false} RunReports(plans: map<string, Plan>, order: seq<string>, before: seq<Issue>, at: nat,
                                      step: nat, failure: Option<WriteError>, resets: seq<Issue>)
    requires forall i :: 0 <= i < |order| ==> order[i] in plans
    requires at <= |order| && (failure.None? <==> at == |order|)
    requires failure.Some? ==>
      step < |plans[order[at]].commands| && Calls(resets, order[at], Undoing(plans[order[at]].commands[..step]))
    ensures failure.None? ==> Reports(before + Script(plans, order, at, 0), |before|, failure)
    ensures failure.Some? ==>
      Reports(before + Script(plans, order, at, step) + [Issue(order[at], plans[order[at]].commands[step], failure.value)] + resets,
              |before|, failure)
  {
    if failure.None? {
      ScriptApplied(plans, order, at, 0);
    } else {
      var done := plans[order[at]].commands[..step];
      ScriptApplied(plans, order, at, step);
      UndoingResets(done);
      var script, failed := Script(plans, order, at, step), Issue(order[at], plans[order[at]].commands[step], failure.value);
      var log := before + script + [failed] + resets;
      hide Script, Undoing;
      assert log[|before + script|] == failed;
      assert FirstFailure(log, |before|, |before + script|, failure.value);
    }
  }

  lemma {:induction false} SparedByAuto(before: Locks, after: Locks, memLockable: bool)
    requires before == after || Spared(Auto(memLockable), before, after)
    ensures Spared(Auto(true), before, after)
  {
  }

  /** A GPU whose restore has no command already is as the restore leaves it. */
  lemma {:induction false} NothingToReset(memLockable: bool, l: Locks)
    requires PlanFor(Auto(memLockable), AgentLocks(l)).commands == []
    ensures Reached(Auto(memLockable), l, l)
  {
  }

  lemma {:induction false} NoCommand(p: Plan, l: Locks)
    requires WellFormed(p)
    ensures AfterCommands(p, 0, l) == l
  {
  }

  lemma {:induction false} OneMoreCommand(p: Plan, k: nat, l: Locks)
    requires WellFormed(p) && k < |p.commands|
    ensures AfterCommands(p, k + 1, l) == Effect(p.commands[k], p, AfterCommands(p, k, l))
  {
  }

  /** After the first k commands of a plan, its locks among them are in force. */
  lemma {:induction false} LocksDone(p: Plan, k: nat, l: Locks)
    requires WellFormed(p) && k <= |p.commands|
    ensures LockGpu in p.commands[..k] ==> AfterCommands(p, k, l).gpu == Agent(p.gpuLock.value)
    ensures LockMem in p.commands[..k] ==> AfterCommands(p, k, l).mem == Agent(p.memLock.value)
  {
    assert k > 0 ==> AfterCommands(p, 1, l) == Effect(p.commands[0], p, l);
    assert k > 1 ==> AfterCommands(p, 2, l) == Effect(p.commands[1], p, AfterCommands(p, 1, l));
  }

  // --- What a planned run means ---------------------------------------------------

  predicate Reached(c: Choice, before: Locks, after: Locks) {
    && (if c.gpu.Some? then after.gpu == Agent(c.gpu.value)
        else after.gpu == (if before.gpu.Agent? then Free else before.gpu))
    && (if c.mem.Some? then after.mem == Agent(c.mem.value)
        else after.mem == (if before.mem.Agent? && c.memLockable then Free else before.mem))
  }

  /** An operator's lock stays in every domain the preset does not lock. */
  predicate Spared(c: Choice, before: Locks, after: Locks) {
    && (c.gpu.None? && before.gpu.Operator? ==> after.gpu == before.gpu)
    && (c.mem.None? && before.mem.Operator? ==> after.mem == before.mem)
  }

  lemma {:induction false} ReachedSpares(c: Choice, before: Locks, after: Locks)
    requires Reached(c, before, after)
    ensures Spared(c, before, after)
  {
  }

  lemma {:induction false} UnchangedSpares(c: Choice, l: Locks)
    ensures Spared(c, l, l)
  {
  }

  /** A whole plan leaves the preset's locks in force, nothing of the agent's in
      a domain the preset leaves, where a reset takes effect at all, and an
      operator's lock wherever the preset sets none. */
  lemma {:induction false} PlanMeans(c: Choice, l: Locks)
    ensures var p := PlanFor(c, AgentLocks(l)); Reached(c, l, AfterCommands(p, |p.commands|, l))
  {
    var p := PlanFor(c, AgentLocks(l));
    assert |p.commands| > 0 ==> AfterCommands(p, 1, l) == Effect(p.commands[0], p, l);
    assert |p.commands| > 1 ==> AfterCommands(p, 2, l) == Effect(p.commands[1], p, AfterCommands(p, 1, l));
  }

  /** No prefix of a plan, undone or not, ever takes an operator's lock from a
      domain the preset does not lock. */
  lemma {:induction false} OperatorLocksKept(c: Choice, l: Locks, k: nat, after: Locks)
    requires var p := PlanFor(c, AgentLocks(l)); k <= |p.commands| && Undone(p.commands[..k], AfterCommands(p, k, l), after)
    ensures Spared(c, l, after)
  {
    var p := PlanFor(c, AgentLocks(l));
    assert k > 0 ==> AfterCommands(p, 1, l) == Effect(p.commands[0], p, l);
    assert k > 1 ==> AfterCommands(p, 2, l) == Effect(p.commands[1], p, AfterCommands(p, 1, l));
    assert forall x :: x in p.commands[..k] ==> x in p.commands;
  }
}
