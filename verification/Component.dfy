/** The control state of one governor component, CPU or GPU, and the events
    that change it: step, hold, release and the exit restore.

    What a device does under an event (an apply, a check, a restore) is an
    arbitrary input of it. Times are nanoseconds. */
module Component {
  import opened Clock
  import opened Results

  const REAPPLY_EVERY := 5 * MINUTE
  const DRIFT_WINDOW := 30 * MINUTE
  const DRIFT_LIMIT := 3
  const RETRY_AFTER := 30 * MINUTE

  /** A controlStatus entry; applied names what is in force, empty for nothing. */
  datatype Status = Status(result: Result, applied: string)

  const NoStatus := Status(Unset, "")

  /** What one apply did. watches is whether it left attributes or ceilings to
      watch, None when it failed before it recorded any. */
  datatype Outcome = Outcome(status: Status, wrote: nat, watches: Option<bool>)

  /** watched stands for a nonempty expect or od; retryAt is 0, the zero time,
      when nothing is to be tried again. */
  datatype State = State(
    intent: string, watched: bool, changed: bool, verified: bool, drifted: bool, drifts: seq<nat>,
    contended: bool, refused: bool, retryAt: nat, lastApply: nat,
    status: Status, good: Status, statusWritten: bool)

  const Fresh0 := State("", false, false, false, false, [], false, false, 0, 0, NoStatus, NoStatus, false)

  datatype Cause = NewIntent | Retry | AfterError | Reissue | AfterReset | AfterDrift

  /** What an event did, for the record: an apply, a check that passed, failed
      on an unverified write or found a new drift, a restore. */
  datatype Act =
    | Start(at: nat, key: string)
    | Apply(at: nat, result: Result, applied: string, wrote: bool, watches: Option<bool>, cause: Cause)
    | Pass(at: nat, proven: bool)
    | Drop(at: nat)
    | Episode(at: nat)
    | Held(at: nat, st: Status)
    | Restore(at: nat, result: Result, applied: string)
    | Yield(at: nat)
    | Quiet(at: nat, removed: bool)

  datatype Moved = Moved(s: State, acts: seq<Act>)

  /** What the device answers in one step: whether locks are due again, the
      first apply, the check, whether the evidence for locks is complete, and
      an apply the check leads to. */
  datatype Answers = Answers(reissue: bool, first: Outcome, ok: bool, reset: bool, proven: bool, second: Outcome)

  datatype Event =
    | Step(now: nat, key: string, answers: Answers, api: bool)
    | Hold(now: nat, st: Status, api: bool)
    | Release(now: nat, may: bool, plannable: bool, restore: Outcome, api: bool)
    | Exit(now: nat, may: bool, plannable: bool, restore: Outcome, api: bool)

  // --- The events as functions ------------------------------------------------------

  /** The drifts less than the window before now. */
  function Fresh(drifts: seq<nat>, now: nat): (r: seq<nat>)
    ensures |r| <= |drifts|
  {
    if drifts == [] then []
    else
      var n := |drifts| - 1;
      if now - drifts[n] < DRIFT_WINDOW then Fresh(drifts[..n], now) + [drifts[n]] else Fresh(drifts[..n], now)
  }

  lemma {:induction false} FreshStep(drifts: seq<nat>, i: nat, now: nat)
    requires i < |drifts|
    ensures Fresh(drifts[..i + 1], now) ==
      if now - drifts[i] < DRIFT_WINDOW then Fresh(drifts[..i], now) + [drifts[i]] else Fresh(drifts[..i], now)
  {
    assert drifts[..i + 1][..i] == drifts[..i];
  }

  function StartOf(s: State, key: string): State {
    s.(intent := key, watched := false, verified := false, drifted := false, contended := false, drifts := [], retryAt := 0)
  }

  /** The outcome of an apply taken down. */
  function RecordOf(s: State, now: nat, out: Outcome): State {
    var watched := if out.watches.Some? then out.watches.value else s.watched;
    s.(lastApply := now, changed := s.changed || out.wrote > 0, status := out.status, good := out.status,
       watched := watched, verified := !watched, drifted := false, retryAt := 0)
  }

  /** A refusal is final; what the driver did not take is tried again later. */
  function SettleOf(s: State, now: nat): State {
    if s.status.result == Refused then s.(refused := true)
    else if s.status.result == Unsupported || s.status.result == NotApplied then s.(retryAt := now + RETRY_AFTER)
    else s
  }

  function ApplyOf(s: State, now: nat, out: Outcome): State {
    SettleOf(RecordOf(s, now, out), now)
  }

  function Applying(now: nat, out: Outcome, cause: Cause): Act {
    Apply(now, out.status.result, out.status.applied, out.wrote > 0, out.watches, cause)
  }

  function ReapplyOf(s: State, now: nat, out: Outcome, before: seq<Act>): Moved {
    if now - s.lastApply >= REAPPLY_EVERY then Moved(ApplyOf(s, now, out), before + [Applying(now, out, AfterDrift)])
    else Moved(s, before)
  }

  /** A check that passes: nothing watched always passes. */
  function PassOf(s: State, proven: bool): State {
    var status :=
      if proven && s.status.result == AppliedUnverified then s.status.(result := Applied) else s.status;
    var good := if proven && s.status.result == AppliedUnverified then status else s.good;
    s.(verified := true, drifted := false, status := if status.result == Drift then good else status, good := good)
  }

  function DropOf(s: State, now: nat): State {
    s.(status := Status(NotApplied, s.good.applied), retryAt := now + RETRY_AFTER)
  }

  /** A new drift: the third within the window means another writer. */
  function DriftOf(s: State, now: nat): State {
    var drifts := Fresh(s.drifts, now) + [now];
    var contended := |drifts| >= DRIFT_LIMIT;
    s.(drifted := true, drifts := drifts, contended := contended,
       status := Status(if contended then Contended else Drift, s.good.applied))
  }

  function CheckOf(s: State, now: nat, a: Answers): Moved {
    if a.ok || !s.watched then Moved(PassOf(s, a.proven), [Pass(now, a.proven)])
    else if !s.verified then Moved(DropOf(s, now), [Drop(now)])
    else if a.reset then Moved(ApplyOf(s, now, a.second), [Applying(now, a.second, AfterReset)])
    else if !s.drifted then
      var d := DriftOf(s, now);
      if d.contended then Moved(d, [Episode(now)]) else ReapplyOf(d, now, a.second, [Episode(now)])
    else ReapplyOf(s, now, a.second, [])
  }

  /** The status is written to the NodeTwin when the API takes it. */
  function PublishOf(s: State, api: bool): State {
    if api then s.(statusWritten := true) else s
  }

  function StepOf(s: State, now: nat, key: string, a: Answers): Moved {
    if s.refused then Moved(s, [])
    else if key != s.intent then
      Moved(ApplyOf(StartOf(s, key), now, a.first), [Start(now, key), Applying(now, a.first, NewIntent)])
    else if s.contended then Moved(s, [])
    else if s.retryAt != 0 then
      if now >= s.retryAt then Moved(ApplyOf(s, now, a.first), [Applying(now, a.first, Retry)]) else Moved(s, [])
    else if s.status.result == Error then
      if now - s.lastApply >= REAPPLY_EVERY then Moved(ApplyOf(s, now, a.first), [Applying(now, a.first, AfterError)])
      else Moved(s, [])
    else if a.reissue then
      var m := CheckOf(ApplyOf(s, now, a.first), now, a);
      Moved(m.s, [Applying(now, a.first, Reissue)] + m.acts)
    else CheckOf(s, now, a)
  }

  function HoldOf(s: State, st: Status): State {
    s.(intent := "", status := st)
  }

  /** The other writer of a contended component owns the setting now. */
  function YieldOf(s: State): State {
    if s.contended then s.(changed := false, contended := false) else s
  }

  function RestoreOf(s: State, now: nat, out: Outcome): State {
    var restored, refused := out.status.result == Restored, out.status.result == Refused;
    s.(intent := "", watched := false, drifts := [], drifted := false, lastApply := now, status := out.status, good := out.status,
       changed := s.changed && !restored, refused := s.refused || refused,
       retryAt := if restored || refused then 0 else now + RETRY_AFTER)
  }

  function Restoring(now: nat, out: Outcome): Act {
    Restore(now, out.status.result, out.status.applied)
  }

  /** Whether a quiet release removes the status. */
  predicate Removes(s: State, api: bool) {
    s.statusWritten && s.status.result != Restored && api
  }

  function QuietOf(s: State, api: bool): State {
    var q := s.(intent := "", watched := false, retryAt := 0);
    if Removes(s, api) then q.(statusWritten := false, status := NoStatus) else q
  }

  function ReleaseOf(s: State, now: nat, may: bool, plannable: bool, out: Outcome, api: bool): Moved {
    var y := YieldOf(s);
    var before := if s.contended then [Yield(now)] else [];
    if y.changed && may && !y.refused then
      if !plannable || (y.retryAt != 0 && now < y.retryAt) then Moved(y, before)
      else Moved(PublishOf(RestoreOf(y, now, out), api), before + [Restoring(now, out)])
    else Moved(QuietOf(y, api), before + [Quiet(now, Removes(y, api))])
  }

  // --- What a new process takes over -------------------------------------------------

  /** Whether a status means the agent may have changed the node. */
  predicate ResultWrote(s: Status) {
    match s.result
    case Unset => false
    case Disabled => false
    case Restored => false
    case Unsupported => s.applied != ""
    case _ => true
  }

  function SeedOf(s: State, last: Option<Status>): State {
    if last.None? then s
    else s.(status := last.value, statusWritten := true, changed := s.changed || ResultWrote(last.value))
  }

  // --- All events ------------------------------------------------------------------

  function Next(s: State, e: Event): Moved {
    match e
    case Step(now, key, a, api) => var m := StepOf(s, now, key, a); Moved(PublishOf(m.s, api), m.acts)
    case Hold(now, st, api) => Moved(PublishOf(HoldOf(s, st), api), [Held(now, st)])
    case Release(now, may, plannable, out, api) => ReleaseOf(s, now, may, plannable, out, api)
    case Exit(now, may, plannable, out, api) =>
      if s.changed then ReleaseOf(s.(retryAt := 0), now, may, plannable, out, api) else Moved(s, [])
  }

  // --- The component the agent keeps ---------------------------------------------------

  /** The slice of drift times: a backing array, compacted in place, and a length. */
  class Drifts {
    const times: array<nat>
    var count: nat

    ghost predicate Valid()
      reads this
    {
      times.Length == DRIFT_LIMIT && count <= DRIFT_LIMIT
    }

    ghost function Contents(): (c: seq<nat>)
      requires Valid()
      reads this, times
      ensures |c| == count
    {
      times[..count]
    }

    constructor ()
      ensures Valid() && Contents() == [] && fresh(times)
    {
      times, count := new nat[DRIFT_LIMIT], 0;
    }

    method Clear()
      requires Valid()
      modifies this
      ensures Valid() && Contents() == []
    {
      count := 0;
    }

    /** Keeps the drifts still in the window, in place. */
    method Prune(now: nat)
      requires Valid()
      modifies this, times
      ensures Valid() && Contents() == Fresh(old(Contents()), now)
    {
      var kept := 0;
      ghost var was := Contents();
      assert Fresh(was[..0], now) == [] && was[..count] == was;
      hide Fresh;
      for i := 0 to count
        invariant kept <= i <= count == |was| && times[..kept] == Fresh(was[..i], now)
        invariant forall k :: i <= k < count ==> times[k] == was[k]
      {
        FreshStep(was, i, now);
        if now - times[i] < DRIFT_WINDOW {
          Keep(kept, i);
          kept := kept + 1;
        }
      }
      count := kept;
    }

    /** The append to the kept part, which shares the backing array. */
    method Keep(kept: nat, i: nat)
      requires kept <= i < times.Length
      modifies times
      ensures times[..kept + 1] == old(times[..kept]) + [old(times[i])]
      ensures forall k :: kept < k < times.Length ==> times[k] == old(times[k])
    {
      times[kept] := times[i];
    }

    method Add(now: nat)
      requires Valid() && count < DRIFT_LIMIT
      modifies this, times
      ensures Valid() && Contents() == Fresh(old(Contents()), now) + [now]
    {
      Prune(now);
      times[count] := now;
      count := count + 1;
    }
  }

  class Governor {
    var intent: string
    var watched: bool
    var changed: bool
    var verified: bool
    var drifted: bool
    const drifts: Drifts
    var contended: bool
    var refused: bool
    var retryAt: nat
    var lastApply: nat
    var status: Status
    var good: Status
    var statusWritten: bool
    /** The state the fields stand for, and what the component has done. */
    ghost var model: State
    ghost var log: seq<Act>

    ghost predicate Agrees()
      reads this, drifts, drifts.times
    {
      && drifts.Valid() && drifts.Contents() == model.drifts
      && intent == model.intent && watched == model.watched && changed == model.changed && verified == model.verified
      && drifted == model.drifted && contended == model.contended && refused == model.refused
      && retryAt == model.retryAt && lastApply == model.lastApply && status == model.status && good == model.good
      && statusWritten == model.statusWritten
    }

    /** There is room for a drift while the component may still be checked. */
    ghost predicate Valid()
      reads this, drifts, drifts.times
    {
      Agrees() && (intent != "" && !contended ==> drifts.count < DRIFT_LIMIT)
    }

    constructor ()
      ensures Valid() && model == Fresh0 && log == [] && fresh(drifts) && fresh(drifts.times)
    {
      intent, watched, changed, verified, drifted := "", false, false, false, false;
      drifts := new Drifts();
      contended, refused, retryAt, lastApply := false, false, 0, 0;
      status, good, statusWritten := NoStatus, NoStatus, false;
      model, log := Fresh0, [];
    }

    /** Takes what an earlier run left in the NodeTwin status. */
    method Seed(last: Option<Status>)
      requires Valid()
      modifies this
      ensures Valid() && model == SeedOf(old(model), last) && log == old(log)
      ensures last.Some? ==> status == last.value && statusWritten
      ensures changed <==>
        || old(changed)
        || (&& last.Some? && last.value.result !in {Unset, Disabled, Restored}
            && (last.value.result == Unsupported ==> last.value.applied != ""))
    {
      model := SeedOf(model, last);
      if last.Some? {
        status, statusWritten := last.value, true;
        if ResultWrote(last.value) {
          changed := true;
        }
      }
    }

    method StartFields(key: string)
      requires drifts.Valid()
      modifies this`intent, this`watched, this`verified, this`drifted, this`contended, this`retryAt, drifts
      ensures intent == key && !watched && !verified && !drifted && !contended && retryAt == 0
      ensures drifts.Valid() && drifts.Contents() == []
    {
      intent, watched, verified, drifted, contended := key, false, false, false, false;
      drifts.Clear();
      retryAt := 0;
    }

    method StartIntent(now: nat, key: string)
      requires Valid()
      modifies this, drifts
      ensures Valid() && model == StartOf(old(model), key) && log == old(log) + [Start(now, key)]
    {
      model, log := StartOf(model, key), log + [Start(now, key)];
      StartFields(key);
    }

    method ApplyFields(now: nat, out: Outcome)
      modifies this`lastApply, this`changed, this`status, this`good, this`watched, this`verified, this`drifted,
        this`retryAt, this`refused
      ensures lastApply == now && changed == (old(changed) || out.wrote > 0) && status == good == out.status
      ensures watched == (if out.watches.Some? then out.watches.value else old(watched)) && verified == !watched && !drifted
      ensures refused == (old(refused) || out.status.result == Refused)
      ensures retryAt ==
        if out.status.result == Unsupported || out.status.result == NotApplied then now + RETRY_AFTER else 0
    {
      if out.watches.Some? {
        watched := out.watches.value;
      }
      lastApply := now;
      if out.wrote > 0 {
        changed := true;
      }
      status, good, verified, drifted, retryAt := out.status, out.status, !watched, false, 0;
      if out.status.result == Refused {
        refused := true;
      } else if out.status.result == Unsupported || out.status.result == NotApplied {
        retryAt := now + RETRY_AFTER;
      }
    }

    method ApplyNow(now: nat, out: Outcome, ghost cause: Cause)
      requires Valid()
      modifies this
      ensures Valid() && model == ApplyOf(old(model), now, out)
      ensures log == old(log) + [Applying(now, out, cause)]
    {
      model, log := ApplyOf(model, now, out), log + [Applying(now, out, cause)];
      ApplyFields(now, out);
    }

    method DriftFields(now: nat)
      requires drifts.Valid() && drifts.count < DRIFT_LIMIT
      modifies this`drifted, this`contended, this`status, drifts, drifts.times
      ensures drifts.Valid() && drifts.Contents() == Fresh(old(drifts.Contents()), now) + [now] && drifted
      ensures contended == (old(contended) || drifts.count >= DRIFT_LIMIT)
      ensures status == Status(if drifts.count >= DRIFT_LIMIT then Contended else Drift, good.applied)
    {
      drifted := true;
      drifts.Add(now);
      if drifts.count >= DRIFT_LIMIT {
        contended, status := true, Status(Contended, good.applied);
      } else {
        status := Status(Drift, good.applied);
      }
    }

    method PassFields(proven: bool)
      modifies this`status, this`good, this`verified, this`drifted
      ensures verified && !drifted
      ensures proven && old(status).result == AppliedUnverified ==> status == good == old(status).(result := Applied)
      ensures !(proven && old(status).result == AppliedUnverified) ==>
        good == old(good) && status == if old(status).result == Drift then old(good) else old(status)
    {
      if status.result == AppliedUnverified && proven {
        status := status.(result := Applied);
        good := status;
      }
      verified, drifted := true, false;
      if status.result == Drift {
        status := good;
      }
    }

    method Passed(now: nat, proven: bool)
      requires Valid()
      modifies this
      ensures Valid() && model == PassOf(old(model), proven) && log == old(log) + [Pass(now, proven)]
    {
      model, log := PassOf(model, proven), log + [Pass(now, proven)];
      PassFields(proven);
    }

    /** The driver dropped a write that read back right after it. */
    method Dropped(now: nat)
      requires Valid()
      modifies this
      ensures Valid() && model == DropOf(old(model), now) && log == old(log) + [Drop(now)]
    {
      model, log := DropOf(model, now), log + [Drop(now)];
      status, retryAt := Status(NotApplied, good.applied), now + RETRY_AFTER;
    }

    method NoteDrift(now: nat)
      requires Valid() && intent != "" && !contended
      modifies this, drifts, drifts.times
      ensures Valid() && model == DriftOf(old(model), now) && log == old(log) + [Episode(now)]
      ensures contended == model.contended && intent == old(intent)
    {
      hide Fresh;
      model, log := DriftOf(model, now), log + [Episode(now)];
      DriftFields(now);
    }

    /** The end of checkNow: a drift is applied again when the last apply is old
        enough, also when it was noted by an earlier check. */
    method Reapply(now: nat, out: Outcome)
      requires Valid()
      modifies this
      ensures Valid()
      ensures var m := ReapplyOf(old(model), now, out, []); model == m.s && log == old(log) + m.acts
    {
      if now - lastApply >= REAPPLY_EVERY {
        ApplyNow(now, out, AfterDrift);
      }
    }

    method CheckNow(now: nat, a: Answers)
      requires Valid() && intent != "" && !contended
      modifies this, drifts, drifts.times
      ensures Valid()
      ensures var m := CheckOf(old(model), now, a); model == m.s && log == old(log) + m.acts
    {
      assert watched == model.watched && verified == model.verified && drifted == model.drifted;
      hide Valid, ApplyOf, PassOf, DropOf, DriftOf;
      if a.ok || !watched {
        Passed(now, a.proven);
        return;
      } else if !verified {
        Dropped(now);
        return;
      } else if a.reset {
        ApplyNow(now, a.second, AfterReset);
        return;
      } else if !drifted {
        NoteDrift(now);
        if contended {
          return;
        }
      }
      Reapply(now, a.second);
    }

    method Publish(api: bool)
      requires Valid()
      modifies this`statusWritten, this`model
      ensures Valid() && model == PublishOf(old(model), api)
    {
      if api {
        statusWritten := true;
      }
      model := PublishOf(model, api);
    }

    method Step(now: nat, key: string, a: Answers, api: bool)
      requires Valid() && key != ""
      modifies this, drifts, drifts.times
      ensures Valid()
      ensures var m := Next(old(model), Event.Step(now, key, a, api)); model == m.s && log == old(log) + m.acts
    {
      hide StepOf, PublishOf;
      Act(now, key, a);
      Publish(api);
    }

    /** Acts on one intent: applies it when it is new, else checks what was set
        and handles drift, refusals and retries. */
    method Act(now: nat, key: string, a: Answers)
      requires Valid() && key != ""
      modifies this, drifts, drifts.times
      ensures Valid()
      ensures var m := StepOf(old(model), now, key, a); model == m.s && log == old(log) + m.acts
    {
      assert refused == model.refused && intent == model.intent && contended == model.contended && retryAt == model.retryAt
        && status == model.status && lastApply == model.lastApply;
      hide Valid, ApplyOf, CheckOf, StartOf;
      if refused {
      } else if key != intent {
        StartIntent(now, key);
        ApplyNow(now, a.first, NewIntent);
      } else if contended {
      } else if retryAt != 0 {
        if now >= retryAt {
          ApplyNow(now, a.first, Retry);
        }
      } else if status.result == Error {
        if now - lastApply >= REAPPLY_EVERY {
          ApplyNow(now, a.first, AfterError);
        }
      } else if a.reissue {
        ApplyNow(now, a.first, Reissue);
        CheckNow(now, a);
      } else {
        CheckNow(now, a);
      }
    }

    /** Reports an intent the agent will not write. */
    method Hold(now: nat, st: Status, api: bool)
      requires Valid()
      modifies this
      ensures Valid()
      ensures var m := Next(old(model), Event.Hold(now, st, api)); model == m.s && log == old(log) + m.acts
    {
      intent, status := "", st;
      model, log := HoldOf(model, st), log + [Held(now, st)];
      hide HoldOf, PublishOf;
      Publish(api);
    }

    /** The other writer of a contended component owns the setting now. */
    method YieldContended(now: nat)
      requires Agrees()
      modifies this`changed, this`contended, this`model, this`log
      ensures Agrees() && model == YieldOf(old(model))
      ensures log == old(log) + (if old(model.contended) then [Yield(now)] else [])
    {
      if contended {
        changed, contended := false, false;
        log := log + [Yield(now)];
      }
      model := YieldOf(model);
    }

    method RestoreFields(now: nat, out: Outcome)
      requires drifts.Valid()
      modifies this`intent, this`watched, this`drifted, this`lastApply, this`status, this`good, this`retryAt, this`changed,
        this`refused, drifts
      ensures intent == "" && !watched && !drifted && lastApply == now && status == good == out.status
      ensures drifts.Valid() && drifts.Contents() == []
      ensures changed == (old(changed) && out.status.result != Restored)
      ensures refused == (old(refused) || out.status.result == Refused)
      ensures retryAt == if out.status.result == Restored || out.status.result == Refused then 0 else now + RETRY_AFTER
    {
      intent, watched, drifted := "", false, false;
      drifts.Clear();
      lastApply, status, good, retryAt := now, out.status, out.status, 0;
      match out.status.result {
        case Restored => changed := false;
        case Refused => refused := true;
        case _ => retryAt := now + RETRY_AFTER;
      }
    }

    method PutBack(now: nat, out: Outcome)
      requires Valid()
      modifies this, drifts
      ensures Valid() && model == RestoreOf(old(model), now, out)
      ensures log == old(log) + [Restoring(now, out)]
    {
      model, log := RestoreOf(model, now, out), log + [Restoring(now, out)];
      RestoreFields(now, out);
    }

    method QuietFields(api: bool)
      modifies this`intent, this`watched, this`retryAt, this`status, this`statusWritten
      ensures intent == "" && !watched && retryAt == 0
      ensures status == if old(statusWritten) && old(status).result != Restored && api then NoStatus else old(status)
      ensures statusWritten == (old(statusWritten) && !(old(status).result != Restored && api))
    {
      intent, watched, retryAt := "", false, 0;
      if statusWritten && status.result != Restored {
        if !api {
          return;
        }
        statusWritten := false;
        status := NoStatus;
      }
    }

    /** Nothing to restore: a status the agent wrote is removed. */
    method Quieten(now: nat, api: bool)
      requires Agrees()
      modifies this
      ensures Valid() && model == QuietOf(old(model), api) && log == old(log) + [Quiet(now, Removes(old(model), api))]
    {
      model, log := QuietOf(model, api), log + [Quiet(now, Removes(model, api))];
      QuietFields(api);
    }

    /** The intent disappeared: the baseline goes back once when the agent changed
        something; restore is what writing it back would do. */
    method Release(now: nat, may: bool, plannable: bool, restore: Outcome, api: bool)
      requires Valid()
      modifies this, drifts
      ensures Valid()
      ensures var m := ReleaseOf(old(model), now, may, plannable, restore, api); model == m.s && log == old(log) + m.acts
    {
      assert contended == model.contended && drifts.count == |model.drifts|;
      YieldContended(now);
      hide RestoreOf, PublishOf, QuietOf;
      assert changed == model.changed && refused == model.refused && retryAt == model.retryAt;
      if changed && may && !refused {
        if !plannable || (retryAt != 0 && now < retryAt) {
          return;
        }
        PutBack(now, restore);
        Publish(api);
        return;
      }
      Quieten(now, api);
    }

    /** Restores at once when the agent stops, whatever retry was pending. */
    method RestoreOnExit(now: nat, may: bool, plannable: bool, restore: Outcome, api: bool)
      requires Valid()
      modifies this, drifts
      ensures Valid()
      ensures var m := Next(old(model), Exit(now, may, plannable, restore, api)); model == m.s && log == old(log) + m.acts
    {
      if !changed {
        return;
      }
      retryAt, model := 0, model.(retryAt := 0);
      hide ReleaseOf;
      Release(now, may, plannable, restore, api);
    }
  }
}
