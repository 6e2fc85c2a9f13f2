/** The laws of a governor component over every run: how far apart applies are,
    what a drift may cause, how final a refusal is, and how often the baseline
    goes back. */
module ComponentLaws {
  import opened Results
  import opened Component
  import opened ComponentRuns

  /** The intent ends here: a new one, a hold or a release. */
  predicate Breaks(a: Act) {
    a.Start? || a.Held? || a.Restore? || a.Quiet?
  }

  ghost predicate SameIntent(acts: seq<Act>, i: nat, j: nat)
    requires j <= |acts|
  {
    forall k :: i < k < j ==> !Breaks(acts[k])
  }

  predicate Writes(a: Act) {
    a.Apply? || a.Restore?
  }

  // --- Spacing --------------------------------------------------------------------------

  /** The driver did not take it: the next apply is a retry. */
  predicate Waits(a: Act) {
    (a.Apply? && NotTaken(a.result)) || a.Drop?
  }

  ghost predicate PassBetween(acts: seq<Act>, i: nat, j: nat)
    requires j <= |acts|
  {
    exists p :: i < p < j && acts[p].Pass?
  }

  lemma {:induction false} AllowedAt(l: Ledger, acts: seq<Act>, n: nat)
    requires AllAllowed(l, acts) && n < |acts|
    ensures Allowed(Fold(l, acts[..n]), acts[n])
  {
  }

  lemma {:induction false} FoldAt(l: Ledger, acts: seq<Act>, n: nat)
    requires n < |acts|
    ensures Fold(l, acts[..n + 1]) == Read(Fold(l, acts[..n]), acts[n])
  {
    assert acts[..n + 1][..n] == acts[..n];
  }

  /** The last apply came at t or later. */
  predicate Since(f: Ledger, t: nat) {
    f.last.Some? && t <= f.last.value.at <= f.clock
  }

  predicate Passed(f: Ledger) {
    f.last.Some? && f.last.value.passed
  }

  lemma {:induction false} SinceStep(f: Ledger, a: Act, t: nat)
    requires f.clock >= t && Allowed(f, a) && !Breaks(a)
    requires Since(f, t) || a.Apply?
    ensures Since(Read(f, a), t) && Read(f, a).clock >= t
    ensures Passed(Read(f, a)) ==> !a.Apply? && (Passed(f) || a.Pass?)
  {
    hide Crowded;
  }

  /** What the ledger knows, before act n, of an apply i of the same intent. */
  lemma {:induction false} TracksApply(l: Ledger, acts: seq<Act>, i: nat, n: nat)
    requires AllAllowed(l, acts) && i < n <= |acts| && SameIntent(acts, i, n) && acts[i].Apply?
    ensures var f := Fold(l, acts[..n]);
      Since(f, acts[i].at) && f.clock >= acts[i].at && (Passed(f) ==> PassBetween(acts, i, n))
    decreases n
  {
    hide Since, Passed, Fold, Read, AllAllowed, Allowed, Waiting;
    FoldAt(l, acts, n - 1);
    var f := Fold(l, acts[..n - 1]);
    if i == n - 1 {
      AppliedNow(f, acts[i]);
    } else {
      TracksApply(l, acts, i, n - 1);
      AllowedAt(l, acts, n - 1);
      SinceStep(f, acts[n - 1], acts[i].at);
      if PassBetween(acts, i, n - 1) {
        var p :| i < p < n - 1 && acts[p].Pass?;
        assert acts[p].Pass?;
      }
    }
  }

  lemma {:induction false} AppliedNow(f: Ledger, a: Act)
    requires a.Apply?
    ensures Since(Read(f, a), a.at) && Read(f, a).clock == a.at && !Passed(Read(f, a))
    ensures NotTaken(a.result) ==> Waiting(Read(f, a), a.at)
  {
  }

  /** The next apply is a retry interval after t, or the last one was already. */
  predicate Waiting(f: Ledger, t: nat) {
    && f.last.Some? && f.last.value.at <= f.clock && f.clock >= t
    && (|| f.last.value.at >= t + RETRY_AFTER
        || (NotTaken(f.last.value.result) && f.last.value.at >= t)
        || (f.last.value.dropped.Some? && f.last.value.dropped.value >= t))
  }

  lemma {:induction false} WaitingStep(f: Ledger, a: Act, t: nat)
    requires Waiting(f, t) && Allowed(f, a) && !Breaks(a)
    ensures Waiting(Read(f, a), t)
    ensures a.Apply? ==> a.at >= t + RETRY_AFTER
  {
    hide Crowded;
  }

  predicate LastInPast(f: Ledger) {
    f.last.Some? ==> f.last.value.at <= f.clock
  }

  lemma {:induction false} DroppedNow(f: Ledger, a: Act)
    requires a.Drop? && Allowed(f, a) && LastInPast(f)
    ensures Waiting(Read(f, a), a.at)
  {
  }

  lemma {:induction false} TracksWait(l: Ledger, acts: seq<Act>, i: nat, n: nat)
    requires AllAllowed(l, acts) && i < n <= |acts| && SameIntent(acts, i, n) && Waits(acts[i])
    requires LastInPast(Fold(l, acts[..i]))
    ensures Waiting(Fold(l, acts[..n]), acts[i].at)
    decreases n
  {
    hide Fold, AllAllowed, Allowed, LastInPast, Waiting, Read;
    FoldAt(l, acts, n - 1);
    var f := Fold(l, acts[..n - 1]);
    AllowedAt(l, acts, n - 1);
    if i < n - 1 {
      TracksWait(l, acts, i, n - 1);
      WaitingStep(f, acts[n - 1], acts[i].at);
    } else if acts[i].Drop? {
      DroppedNow(f, acts[i]);
    } else {
      AppliedNow(f, acts[i]);
    }
  }

  lemma {:induction false} PastStep(f: Ledger, a: Act)
    requires LastInPast(f) && Allowed(f, a)
    ensures LastInPast(Read(f, a))
  {
  }

  lemma {:induction false} LastIsPast(l: Ledger, acts: seq<Act>, n: nat)
    requires AllAllowed(l, acts) && n <= |acts| && LastInPast(l)
    ensures LastInPast(Fold(l, acts[..n]))
    decreases n
  {
    hide LastInPast, AllAllowed, Read;
    assert acts[..0] == [];
    if n > 0 {
      FoldAt(l, acts, n - 1);
      LastIsPast(l, acts, n - 1);
      AllowedAt(l, acts, n - 1);
      PastStep(Fold(l, acts[..n - 1]), acts[n - 1]);
    }
  }

  /** Two applies of one intent are at least five minutes apart, unless the
      later one puts back a device that was reset; then a check passed between
      them. Locks issued again are not counted here. */
  lemma {:induction false} ApplySpacing(s: State, events: seq<Event>, i: nat, j: nat)
    requires Started(s) && Orderly(events)
    requires i < j < |Run(s, events).acts|
    requires var acts := Run(s, events).acts; acts[i].Apply? && acts[j].Apply? && SameIntent(acts, i, j)
    requires Run(s, events).acts[j].cause != Reissue
    ensures var acts := Run(s, events).acts;
      acts[j].at >= acts[i].at + REAPPLY_EVERY || (acts[j].cause == AfterReset && PassBetween(acts, i, j))
  {
    hide Run, Fold, AllAllowed, Allowed, Since, Passed, Matches, Opening, Orderly;
    var l, acts := Opening(s.changed), Run(s, events).acts;
    RunsAreAllowed(s, events);
    TracksApply(l, acts, i, j);
    AllowedAt(l, acts, j);
    NextApply(Fold(l, acts[..j]), acts[j], acts[i].at);
  }

  /** When the next apply may come after one at t. */
  lemma {:induction false} NextApply(f: Ledger, a: Act, t: nat)
    requires Since(f, t) && Allowed(f, a) && a.Apply? && a.cause != Reissue
    ensures a.at >= t + REAPPLY_EVERY || (a.cause == AfterReset && Passed(f))
  {
    hide Crowded;
  }

  /** After an apply the driver did not take, or a write it dropped later, the
      next apply of the intent is at least thirty minutes away. */
  lemma {:induction false} RetrySpacing(s: State, events: seq<Event>, i: nat, j: nat)
    requires Started(s) && Orderly(events)
    requires i < j < |Run(s, events).acts|
    requires var acts := Run(s, events).acts; Waits(acts[i]) && acts[j].Apply? && SameIntent(acts, i, j)
    ensures var acts := Run(s, events).acts; acts[j].at >= acts[i].at + RETRY_AFTER
  {
    assert LastInPast(Opening(s.changed));
    hide Run, Fold, AllAllowed, Allowed, Waiting, LastInPast, Matches, Opening, Orderly;
    var l, acts := Opening(s.changed), Run(s, events).acts;
    RunsAreAllowed(s, events);
    LastIsPast(l, acts, i);
    TracksWait(l, acts, i, j);
    AllowedAt(l, acts, j);
    WaitingStep(Fold(l, acts[..j]), acts[j], acts[i].at);
  }

  // --- The CPU component: no resets, nothing issued again ----------------------------------

  predicate Plain(e: Event) {
    e.Step? ==> !e.answers.reset && !e.answers.reissue
  }

  predicate PlainAct(a: Act) {
    a.Apply? ==> a.cause != AfterReset && a.cause != Reissue
  }

  lemma {:induction false} PlainStep(s: State, e: Event)
    requires Plain(e)
    ensures forall a :: a in Next(s, e).acts ==> PlainAct(a)
  {
  }

  lemma {:induction false} PlainRun(s: State, events: seq<Event>)
    requires forall i :: 0 <= i < |events| ==> Plain(events[i])
    ensures forall a :: a in Run(s, events).acts ==> PlainAct(a)
    decreases |events|
  {
    if events != [] {
      var n := |events| - 1;
      PlainRun(s, events[..n]);
      PlainStep(Run(s, events[..n]).s, events[n]);
      hide Next;
    }
  }

  /** The CPU component: any two applies of one intent are five minutes apart. */
  lemma {:induction false} CpuApplySpacing(s: State, events: seq<Event>, i: nat, j: nat)
    requires Started(s) && Orderly(events) && forall k :: 0 <= k < |events| ==> Plain(events[k])
    requires i < j < |Run(s, events).acts|
    requires var acts := Run(s, events).acts; acts[i].Apply? && acts[j].Apply? && SameIntent(acts, i, j)
    ensures var acts := Run(s, events).acts; acts[j].at >= acts[i].at + REAPPLY_EVERY
  {
    PlainRun(s, events);
    hide Run, Plain;
    assert Run(s, events).acts[j] in Run(s, events).acts;
    ApplySpacing(s, events, i, j);
  }

  // --- Drift ------------------------------------------------------------------------------

  /** The drifts noted since the intent started. */
  function EpisodesOf(acts: seq<Act>): seq<nat> {
    if acts == [] then []
    else
      var n := |acts| - 1;
      if acts[n].Start? || acts[n].Restore? || acts[n].Yield? then []
      else if acts[n].Episode? then EpisodesOf(acts[..n]) + [acts[n].at]
      else EpisodesOf(acts[..n])
  }

  lemma {:induction false} EpisodesInLedger(l: Ledger, acts: seq<Act>)
    requires l.episodes == []
    ensures Fold(l, acts).episodes == EpisodesOf(acts)
  {
    if acts != [] {
      EpisodesInLedger(l, acts[..|acts| - 1]);
    }
  }

  /** The list pruned in place holds the drifts of the intent that are less than
      thirty minutes older than the last, and the component is contended exactly
      when three drifts of the intent came within thirty minutes. */
  lemma {:induction false} DriftsRefineHistory(s: State, events: seq<Event>)
    requires Started(s) && Orderly(events) && (events == [] || !events[|events| - 1].Exit?)
    ensures var m := Run(s, events); m.s.intent != "" ==>
      && m.s.drifts == Latest(EpisodesOf(m.acts))
      && (m.s.contended <==> Crowded(EpisodesOf(m.acts)))
  {
    RunsAreAllowed(s, events);
    EpisodesInLedger(Opening(s.changed), Run(s, events).acts);
    hide Run, Fold;
  }

  /** The drift that paid for an apply: noted before it, no apply in between. */
  ghost predicate Pays(acts: seq<Act>, i: nat, j: nat)
    requires j <= |acts|
  {
    i < j && acts[i].Episode? && forall k :: i < k < j ==> !acts[k].Apply?
  }

  lemma {:induction false} PendingSince(l: Ledger, acts: seq<Act>, n: nat)
    requires n <= |acts| && !l.pending && Fold(l, acts[..n]).pending
    ensures exists i :: Pays(acts, i, n)
    decreases n
  {
    assert acts[..0] == [];
    if n > 0 {
      FoldAt(l, acts, n - 1);
      if acts[n - 1].Episode? {
        assert Pays(acts, n - 1, n);
      } else {
        PendingSince(l, acts, n - 1);
        var i :| Pays(acts, i, n - 1);
        assert Pays(acts, i, n);
      }
    }
  }

  /** Every apply a drift causes is paid for by a drift of its own: no apply lies
      between the two, so two such applies never share one. */
  lemma {:induction false} DriftAppliesCharged(s: State, events: seq<Event>, j: nat)
    requires Started(s) && Orderly(events)
    requires j < |Run(s, events).acts| && Run(s, events).acts[j].Apply? && Run(s, events).acts[j].cause == AfterDrift
    ensures exists i :: Pays(Run(s, events).acts, i, j)
    ensures forall i, j' :: j < j' < |Run(s, events).acts| && Pays(Run(s, events).acts, i, j') ==> j < i
  {
    var l, acts := Opening(s.changed), Run(s, events).acts;
    hide Run, Fold, AllAllowed, Orderly, Matches, Crowded;
    RunsAreAllowed(s, events);
    AllowedAt(l, acts, j);
    PendingSince(l, acts, j);
    forall i, j' | j < j' < |acts| && Pays(acts, i, j') ensures j < i {
      assert acts[j].Apply? && !acts[j].Episode?;
    }
  }

  // --- Refusal ----------------------------------------------------------------------------

  predicate RefusedAct(a: Act) {
    Writes(a) && a.result == Refused
  }

  lemma {:induction false} RefusedStays(l: Ledger, acts: seq<Act>, i: nat, n: nat)
    requires i < n <= |acts| && RefusedAct(acts[i])
    ensures Fold(l, acts[..n]).refused
    decreases n
  {
    FoldAt(l, acts, n - 1);
    if i < n - 1 {
      RefusedStays(l, acts, i, n - 1);
    }
  }

  /** Once the driver refused, nothing is applied or restored again, whatever
      the events: steps, holds, releases, the exit restore. */
  lemma {:induction false} RefusalIsFinal(s: State, events: seq<Event>, i: nat, j: nat)
    requires Started(s) && Orderly(events)
    requires i < j < |Run(s, events).acts| && RefusedAct(Run(s, events).acts[i])
    ensures !Writes(Run(s, events).acts[j])
  {
    var l, acts := Opening(s.changed), Run(s, events).acts;
    RunsAreAllowed(s, events);
    RefusedStays(l, acts, i, j);
    assert Allowed(Fold(l, acts[..j]), acts[j]);
  }

  // --- Restores ---------------------------------------------------------------------------

  /** Nothing of the agent's own is left to put back: the baseline is back, or
      another writer owns the setting. */
  predicate Settles(a: Act) {
    a.Yield? || (a.Restore? && a.result == Restored)
  }

  ghost predicate WroteBetween(acts: seq<Act>, i: int, j: nat)
    requires j <= |acts|
  {
    exists k :: 0 <= k && i < k < j && acts[k].Apply? && acts[k].wrote
  }

  lemma {:induction false} OwedSince(l: Ledger, acts: seq<Act>, i: int, n: nat)
    requires -1 <= i < n <= |acts| && Fold(l, acts[..n]).owed
    requires if i == -1 then !l.owed else Settles(acts[i])
    ensures WroteBetween(acts, i, n)
    decreases n
  {
    assert acts[..0] == [];
    NothingAllowed(l);
    hide Fold, Read, Settles;
    if n > 0 {
      FoldAt(l, acts, n - 1);
      OwedStep(Fold(l, acts[..n - 1]), acts[n - 1]);
      var a := acts[n - 1];
      if a.Apply? && a.wrote {
        assert acts[n - 1].Apply? && acts[n - 1].wrote;
      } else {
        OwedSince(l, acts, i, n - 1);
        var k :| 0 <= k && i < k < n - 1 && acts[k].Apply? && acts[k].wrote;
        assert acts[k].Apply?;
      }
    }
  }

  lemma {:induction false} OwedStep(f: Ledger, a: Act)
    requires Read(f, a).owed
    ensures (a.Apply? && a.wrote) || (f.owed && !Settles(a))
  {
  }

  /** A restore is owed: an apply wrote something since the last successful
      restore, since the setting was left to another writer, or, for an agent
      whose earlier run owed nothing, since the start. So the baseline goes back
      once per change, and never after contention. */
  lemma {:induction false} RestoresAreOwed(s: State, events: seq<Event>, i: int, j: nat)
    requires Started(s) && Orderly(events)
    requires -1 <= i < j < |Run(s, events).acts| && Run(s, events).acts[j].Restore?
    requires if i == -1 then !s.changed else Settles(Run(s, events).acts[i])
    ensures WroteBetween(Run(s, events).acts, i, j)
  {
    var l, acts := Opening(s.changed), Run(s, events).acts;
    RunsAreAllowed(s, events);
    assert Allowed(Fold(l, acts[..j]), acts[j]);
    OwedSince(l, acts, i, j);
  }

  // --- Contention -------------------------------------------------------------------------

  predicate StepsOrHolds(e: Event, key: string) {
    (e.Step? && e.key == key) || e.Hold?
  }

  ghost predicate HoldThenStep(events: seq<Event>) {
    exists i, j :: 0 <= i < j < |events| && events[i].Hold? && events[j].Step?
  }

  ghost predicate Applies(acts: seq<Act>) {
    exists k :: 0 <= k < |acts| && acts[k].Apply?
  }

  ghost predicate AnyHold(events: seq<Event>) {
    exists i :: 0 <= i < |events| && events[i].Hold?
  }

  predicate Contending(s: State, key: string) {
    s.contended && !s.refused && s.intent == key && key != ""
  }

  predicate Idle(s: State) {
    s.intent == "" && !s.refused
  }

  lemma {:induction false} ContendedStep(s: State, key: string, e: Event)
    requires StepsOrHolds(e, key) && key != ""
    ensures Contending(s, key) && e.Step? ==> Next(s, e).acts == [] && Contending(Next(s, e).s, key)
    ensures (Contending(s, key) || Idle(s)) && e.Hold? ==> Next(s, e).acts == [Held(e.now, e.st)] && Idle(Next(s, e).s)
    ensures Idle(s) && e.Step? ==> |Next(s, e).acts| == 2 && Next(s, e).acts[1].Apply?
  {
  }

  lemma {:induction false} AppliesIn(before: seq<Act>, more: seq<Act>)
    ensures Applies(before + more) <==> Applies(before) || Applies(more)
  {
    if Applies(before) {
      var k :| 0 <= k < |before| && before[k].Apply?;
      assert (before + more)[k].Apply?;
    }
    if Applies(more) {
      var k :| 0 <= k < |more| && more[k].Apply?;
      assert (before + more)[|before| + k].Apply?;
    }
  }

  lemma {:induction false} HoldThenStepIn(events: seq<Event>, key: string)
    requires events != [] && StepsOrHolds(events[|events| - 1], key)
    ensures var n := |events| - 1;
      && (AnyHold(events) <==> AnyHold(events[..n]) || events[n].Hold?)
      && (HoldThenStep(events) <==> HoldThenStep(events[..n]) || (AnyHold(events[..n]) && events[n].Step?))
  {
    var n := |events| - 1;
    if AnyHold(events[..n]) {
      var i :| 0 <= i < n && events[..n][i].Hold?;
      assert events[i].Hold?;
      assert events[n].Step? ==> HoldThenStep(events);
    }
    if HoldThenStep(events[..n]) {
      var i, j :| 0 <= i < j < n && events[..n][i].Hold? && events[..n][j].Step?;
      assert events[i].Hold? && events[j].Step?;
    }
    if HoldThenStep(events) {
      var i, j :| 0 <= i < j < |events| && events[i].Hold? && events[j].Step?;
      assert events[..n][i].Hold?;
      assert j < n ==> events[..n][j].Step?;
    }
  }

  /** A contended component writes nothing for its intent as long as it is not
      held: an apply comes exactly when a step follows a hold, though the intent
      is the same throughout. */
  lemma {:induction false} ContentionLastsUntilHold(s: State, key: string, events: seq<Event>)
    requires Contending(s, key)
    requires forall i :: 0 <= i < |events| ==> StepsOrHolds(events[i], key)
    ensures Applies(Run(s, events).acts) <==> HoldThenStep(events)
    ensures !HoldThenStep(events) ==>
      if AnyHold(events) then Idle(Run(s, events).s) else Run(s, events).acts == [] && Contending(Run(s, events).s, key)
    decreases |events|
  {
    if events != [] {
      var n := |events| - 1;
      ContentionLastsUntilHold(s, key, events[..n]);
      var m := Run(s, events[..n]);
      ContendedStep(m.s, key, events[n]);
      AppliesIn(m.acts, Next(m.s, events[n]).acts);
      HoldThenStepIn(events, key);
      hide Next, HoldThenStep, AnyHold, Contending, Idle;
      assert events[n].Hold? && Next(m.s, events[n]).acts == [Held(events[n].now, events[n].st)] ==>
        !Applies(Next(m.s, events[n]).acts);
    }
  }
}
