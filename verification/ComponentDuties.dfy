/** What an event must do. The laws of ComponentLaws bound what a component may do;
    here every act is emitted if and only if the history and the device's answers
    call for it. */
module ComponentDuties {
  import opened Results
  import opened Component
  import opened ComponentRuns
  import opened ComponentStatus

  // --- Steps ----------------------------------------------------------------------------

  /** The last apply failed with an error, and nothing has been found since. */
  predicate InError(l: Ledger) {
    l.last.Some? && l.last.value.result == Error && !l.pending && l.last.value.dropped.None?
  }

  /** The key is the intent already acted on, and nothing stops its writes. */
  ghost predicate Acting(l: Ledger, key: string) {
    !l.refused && key == l.intent && !Crowded(l.episodes) && l.last.Some?
  }

  /** Locks are due again. */
  ghost predicate Reissuing(l: Ledger, key: string, a: Answers) {
    Acting(l, key) && l.due == 0 && !InError(l) && a.reissue
  }

  /** The device is checked. */
  ghost predicate Checking(l: Ledger, key: string, a: Answers) {
    Acting(l, key) && l.due == 0 && !InError(l) && !a.reissue
  }

  /** The check fails: there is something to watch, and it does not hold. */
  ghost predicate Failing(l: Ledger, key: string, a: Answers) {
    Checking(l, key, a) && !a.ok && l.watched
  }

  /** The check fails on a setting that a check has found in place before. */
  ghost predicate Drifting(l: Ledger, key: string, a: Answers) {
    Failing(l, key, a) && l.last.value.passed && !a.reset
  }

  predicate LongSince(l: Ledger, now: nat) {
    l.last.Some? && now >= l.last.value.at + REAPPLY_EVERY
  }

  /** An apply as the record must show it, and a restore. */
  function Did(now: nat, out: Outcome, cause: Cause): Act {
    Apply(now, out.status.result, out.status.applied, out.wrote > 0, out.watches, cause)
  }

  function Undid(now: nat, out: Outcome): Act {
    Restore(now, out.status.result, out.status.applied)
  }

  /** Every act of a step, exactly when it is due. */
  ghost predicate Duties(l: Ledger, now: nat, key: string, a: Answers, acts: seq<Act>) {
    && (Start(now, key) in acts <==> !l.refused && key != l.intent)
    && (Did(now, a.first, NewIntent) in acts <==> !l.refused && key != l.intent)
    && (Did(now, a.first, Retry) in acts <==> Acting(l, key) && l.due != 0 && now >= l.due)
    && (Did(now, a.first, AfterError) in acts <==> Acting(l, key) && l.due == 0 && InError(l) && LongSince(l, now))
    && (Did(now, a.first, Reissue) in acts <==> Reissuing(l, key, a))
    && (Pass(now, a.proven) in acts <==> Reissuing(l, key, a) || (Checking(l, key, a) && !Failing(l, key, a)))
    && (Drop(now) in acts <==> Failing(l, key, a) && !l.last.value.passed)
    && (Did(now, a.second, AfterReset) in acts <==> Failing(l, key, a) && l.last.value.passed && a.reset)
    && (Episode(now) in acts <==> Drifting(l, key, a) && !l.pending)
    && (Did(now, a.second, AfterDrift) in acts <==>
          Drifting(l, key, a) && (l.pending || !Crowded(l.episodes + [now])) && LongSince(l, now))
    && Only(now, key, a, acts)
  }

  /** And nothing else. */
  predicate Only(now: nat, key: string, a: Answers, acts: seq<Act>) {
    |acts| <= 2
    && forall x :: x in acts ==>
         || x == Start(now, key) || x == Pass(now, a.proven) || x == Drop(now) || x == Episode(now)
         || (x.Apply? && x == Did(now, a.first, x.cause) && x.cause in {NewIntent, Retry, AfterError, Reissue})
         || (x.Apply? && x == Did(now, a.second, x.cause) && x.cause in {AfterReset, AfterDrift})
  }

  /** Five minutes between applies, thirty after what was not taken, and a drift is
      the third within thirty minutes: the numbers behind the duties. */
  lemma {:induction false} Timing()
    ensures REAPPLY_EVERY == 300_000_000_000 && RETRY_AFTER == 1_800_000_000_000
    ensures DRIFT_WINDOW == 1_800_000_000_000 && DRIFT_LIMIT == 3
  {
  }

  lemma {:induction false} ErrorShown(l: Ledger, s: State)
    requires Matches(l, s) && Shows(l, s) && s.intent != "" && !s.contended
    ensures s.status.result == Error <==> InError(l)
  {
    hide Crowded, Latest, Sorted;
  }

  /** The acts of a check, from the history. */
  ghost function CheckActs(l: Ledger, now: nat, key: string, a: Answers): seq<Act>
    requires l.last.Some?
  {
    if !Failing(l, key, a) then [Pass(now, a.proven)]
    else if !l.last.value.passed then [Drop(now)]
    else if a.reset then [Applying(now, a.second, AfterReset)]
    else
      (if l.pending then [] else [Episode(now)])
      + (if (l.pending || !Crowded(l.episodes + [now])) && LongSince(l, now) then [Applying(now, a.second, AfterDrift)] else [])
  }

  /** The acts of a step, from the history. */
  ghost function StepActs(l: Ledger, now: nat, key: string, a: Answers): seq<Act> {
    if l.refused then []
    else if key != l.intent then [Start(now, key), Applying(now, a.first, NewIntent)]
    else if !Acting(l, key) then []
    else if l.due != 0 then if now >= l.due then [Applying(now, a.first, Retry)] else []
    else if InError(l) then if LongSince(l, now) then [Applying(now, a.first, AfterError)] else []
    else if a.reissue then [Applying(now, a.first, Reissue)] + [Pass(now, a.proven)]
    else CheckActs(l, now, key, a)
  }

  lemma {:induction false} CheckActsAre(l: Ledger, s: State, now: nat, key: string, a: Answers)
    requires Matches(l, s) && s.intent == key && key != "" && !s.refused && !s.contended && now >= l.clock
    requires s.retryAt == 0 && !InError(l) && !a.reissue
    ensures CheckOf(s, now, a).acts == CheckActs(l, now, key, a)
  {
    assert Acting(l, key) && Checking(l, key, a);
    if !s.drifted {
      EpisodeStep(l.episodes, now);
      assert DriftOf(s, now).contended <==> Crowded(l.episodes + [now]);
    }
    assert DriftOf(s, now).lastApply == s.lastApply == l.last.value.at;
    hide Crowded, Latest, Sorted, Fresh, ApplyOf, PassOf, DropOf, DriftOf, Applying;
  }

  lemma {:induction false} StepActsAre(l: Ledger, s: State, now: nat, key: string, a: Answers)
    requires Matches(l, s) && Shows(l, s) && key != "" && now >= l.clock && (a.reissue ==> a.ok)
    ensures StepOf(s, now, key, a).acts == StepActs(l, now, key, a)
  {
    if s.intent == key && !s.contended {
      ErrorShown(l, s);
    }
    if a.reissue {
      PassCheck(ApplyOf(s, now, a.first), now, a);
    }
    if s.intent == key && !s.refused && !s.contended && s.retryAt == 0 && !InError(l) && !a.reissue {
      CheckActsAre(l, s, now, key, a);
    }
    hide CheckOf, ApplyOf, StartOf, Crowded, Latest, Sorted, Shows, Applying, CheckActs, InError;
  }

  lemma {:induction false} CheckDuties(l: Ledger, now: nat, key: string, a: Answers)
    requires Checking(l, key, a)
    ensures Duties(l, now, key, a, CheckActs(l, now, key, a))
  {
    hide Crowded;
  }

  lemma {:induction false} ActDuties(l: Ledger, now: nat, key: string, a: Answers)
    requires a.reissue ==> a.ok
    ensures Duties(l, now, key, a, StepActs(l, now, key, a))
  {
    if Checking(l, key, a) {
      CheckDuties(l, now, key, a);
      hide CheckActs, Duties;
    } else {
      hide Crowded, CheckActs;
    }
  }

  lemma {:induction false} StepDuties(l: Ledger, s: State, now: nat, key: string, a: Answers)
    requires Matches(l, s) && Shows(l, s) && key != "" && now >= l.clock && (a.reissue ==> a.ok)
    ensures Duties(l, now, key, a, StepOf(s, now, key, a).acts)
  {
    StepActsAre(l, s, now, key, a);
    ActDuties(l, now, key, a);
    hide StepOf, StepActs, Duties;
  }

  // --- Releases, holds and the exit -----------------------------------------------------

  /** The agent's own setting is still there and may be put back. */
  ghost predicate Owing(l: Ledger, may: bool) {
    l.owed && !l.refused && !Crowded(l.episodes) && may
  }

  /** Nothing stands in the way of a restore that is owed. */
  predicate Ready(l: Ledger, now: nat, plannable: bool) {
    plannable && (l.due == 0 || now >= l.due)
  }

  /** What a release does: removable is whether it takes the status away. */
  ghost predicate ReleaseDuties(l: Ledger, now: nat, may: bool, plannable: bool, out: Outcome, removable: bool, acts: seq<Act>) {
    && (Undid(now, out) in acts <==> Owing(l, may) && Ready(l, now, plannable))
    && (acts == [] <==> Owing(l, may) && !Ready(l, now, plannable))
    && (Yield(now) in acts <==> Crowded(l.episodes))
    && (Quiet(now, removable) in acts <==> !Owing(l, may))
    && forall x :: x in acts ==> x == Undid(now, out) || x == Yield(now) || x == Quiet(now, removable)
  }

  /** A status the agent wrote goes away, unless it says that the baseline is back. */
  predicate Removable(written: bool, st: Status, api: bool) {
    written && st.result != Restored && api
  }

  lemma {:induction false} ReleaseDone(l: Ledger, s: State, now: nat, may: bool, plannable: bool, out: Outcome,
                                       api: bool)
    requires SameDebt(l, s) && l.due == s.retryAt
    ensures var m := ReleaseOf(s, now, may, plannable, out, api);
      && ReleaseDuties(l, now, may, plannable, out, Removable(s.statusWritten, s.status, api), m.acts)
      && (m.acts == [] ==> m.s == s)
  {
    hide Crowded, RestoreOf, QuietOf, PublishOf;
    var y := YieldOf(s);
    var q := Quiet(now, Removes(y, api));
    if s.contended {
      assert [Yield(now)] + [q] == [Yield(now), q];
    } else if s.changed && may && !s.refused {
      assert [] + [Restoring(now, out)] == [Restoring(now, out)];
    } else {
      assert [] + [q] == [q];
    }
  }

  /** What the exit does: it waits for no retry, and does nothing when nothing is owed. */
  ghost predicate ExitDuties(l: Ledger, now: nat, may: bool, plannable: bool, out: Outcome, removable: bool, acts: seq<Act>) {
    if l.owed then ReleaseDuties(l.(due := 0), now, may, plannable, out, removable, acts) else acts == []
  }

  // --- Runs -------------------------------------------------------------------------------

  /** The history before event n, and what the component does at it. */
  ghost function Before(s: State, events: seq<Event>, n: nat): Ledger
    requires n <= |events|
  {
    Fold(Opening(s.changed), Run(s, events[..n]).acts)
  }

  ghost function DoneAt(s: State, events: seq<Event>, n: nat): seq<Act>
    requires n < |events|
  {
    assert events[..n + 1][..n] == events[..n];
    Run(s, events[..n + 1]).acts[|Run(s, events[..n]).acts|..]
  }

  lemma {:induction false} EventRuns(s: State, events: seq<Event>, n: nat)
    requires n < |events|
    ensures var m := Run(s, events[..n]); var q := Next(m.s, events[n]);
      Run(s, events[..n + 1]) == Moved(q.s, m.acts + q.acts) && DoneAt(s, events, n) == q.acts
  {
    assert events[..n + 1][..n] == events[..n];
    hide Next;
  }

  /** The fields before an event say what the history says. */
  lemma {:induction false} BeforeEvent(s: State, events: seq<Event>, n: nat)
    requires Started(s) && Orderly(events) && n < |events|
    ensures var m := Run(s, events[..n]); var l := Before(s, events, n);
      Matches(l, m.s) && Shows(l, m.s) && events[n].now >= l.clock && Proper(events[n])
  {
    assert Orderly(events[..n]);
    assert n > 0 ==> events[..n][n - 1] == events[n - 1] && !events[n - 1].Exit? && events[n - 1].now <= events[n].now;
    hide Run, Fold, Orderly, Matches, Shows, AllAllowed;
    RunsAreAllowed(s, events[..n]);
    StatusShowsHistory(s, events[..n]);
  }

  /** Every step of every run emits every act exactly when the history and the
      device's answers call for it, and no other. */
  lemma {:induction false} EveryStep(s: State, events: seq<Event>, n: nat)
    requires Started(s) && Orderly(events) && n < |events| && events[n].Step?
    ensures var e := events[n]; Duties(Before(s, events, n), e.now, e.key, e.answers, DoneAt(s, events, n))
  {
    hide Run, Orderly, Matches, Shows, StepOf, Duties, Before, DoneAt;
    var e := events[n];
    BeforeEvent(s, events, n);
    EventRuns(s, events, n);
    StepDuties(Before(s, events, n), Run(s, events[..n]).s, e.now, e.key, e.answers);
  }

  /** A hold is recorded, and nothing is done. */
  lemma {:induction false} EveryHold(s: State, events: seq<Event>, n: nat)
    requires n < |events| && events[n].Hold?
    ensures DoneAt(s, events, n) == [Held(events[n].now, events[n].st)]
  {
    EventRuns(s, events, n);
    hide Run, DoneAt;
  }

  /** The status before event n, from the history. */
  ghost function StatusBefore(s: State, events: seq<Event>, n: nat): Status
    requires n <= |events|
  {
    Word(Opening(s.changed), s.status, Run(s, events[..n]).acts)
  }

  ghost predicate Restores(acts: seq<Act>) {
    exists a :: a in acts && a.Restore?
  }

  /** Whether the NodeTwin holds a status of the agent's after an event. */
  ghost predicate WrittenAfter(e: Event, acts: seq<Act>, before: bool) {
    if e.api && (e.Step? || e.Hold? || Restores(acts)) then true
    else if Quiet(e.now, true) in acts then false
    else before
  }

  /** Whether the NodeTwin holds a status of the agent's: the last step, hold or
      restore whose status the API took came after the last removal. */
  ghost function WrittenBefore(s: State, events: seq<Event>, n: nat): bool
    requires n <= |events|
  {
    if n == 0 then s.statusWritten
    else
      WrittenAfter(events[n - 1], DoneAt(s, events, n - 1), WrittenBefore(s, events, n - 1))
  }

  lemma {:induction false} WrittenStep(s: State, e: Event)
    ensures var m := Next(s, e); m.s.statusWritten <==> WrittenAfter(e, m.acts, s.statusWritten)
  {
    match e
    case Step(now, key, a, api) =>
      StepKeepsWritten(s, now, key, a);
      assert Next(s, e) == Moved(PublishOf(StepOf(s, now, key, a).s, api), StepOf(s, now, key, a).acts);
      hide Next, StepOf, Restores;
    case Hold(_, _, _) =>
      hide Restores;
    case Release(now, may, plannable, out, api) =>
      ReleaseWritten(s, now, may, plannable, out, api);
      hide ReleaseOf, Restores;
    case Exit(now, may, plannable, out, api) =>
      ReleaseWritten(s.(retryAt := 0), now, may, plannable, out, api);
      hide ReleaseOf;
  }

  lemma {:induction false} StepKeepsWritten(s: State, now: nat, key: string, a: Answers)
    ensures var m := StepOf(s, now, key, a);
      m.s.statusWritten == s.statusWritten && forall x :: x in m.acts ==> !x.Quiet? && !x.Restore?
  {
    ApplyKeepsWritten(s, now, a.first);
    ApplyKeepsWritten(StartOf(s, key), now, a.first);
    CheckKeepsWritten(s, now, a);
    CheckKeepsWritten(ApplyOf(s, now, a.first), now, a);
    hide CheckOf, ApplyOf;
  }

  lemma {:induction false} ApplyKeepsWritten(s: State, now: nat, out: Outcome)
    ensures ApplyOf(s, now, out).statusWritten == s.statusWritten
  {
  }

  lemma {:induction false} CheckKeepsWritten(s: State, now: nat, a: Answers)
    ensures var m := CheckOf(s, now, a);
      m.s.statusWritten == s.statusWritten && forall x :: x in m.acts ==> !x.Quiet? && !x.Restore?
  {
    ApplyKeepsWritten(s, now, a.second);
    ApplyKeepsWritten(DriftOf(s, now), now, a.second);
    hide Fresh, ApplyOf;
  }

  lemma {:induction false} ReleaseWritten(s: State, now: nat, may: bool, plannable: bool, out: Outcome, api: bool)
    ensures var m := ReleaseOf(s, now, may, plannable, out, api); m.s.statusWritten <==>
      if api && Restores(m.acts) then true
      else if Quiet(now, true) in m.acts then false else s.statusWritten
  {
    var y := YieldOf(s);
    if y.changed && may && !y.refused && plannable && (y.retryAt == 0 || now >= y.retryAt) {
      assert Restoring(now, out) in ReleaseOf(s, now, may, plannable, out, api).acts;
    }
  }

  lemma {:induction false} WrittenIsHistory(s: State, events: seq<Event>, n: nat)
    requires n <= |events|
    ensures Run(s, events[..n]).s.statusWritten == WrittenBefore(s, events, n)
  {
    if n > 0 {
      WrittenIsHistory(s, events, n - 1);
      EventRuns(s, events, n - 1);
      WrittenStep(Run(s, events[..n - 1]).s, events[n - 1]);
      assert WrittenBefore(s, events, n)
          == WrittenAfter(events[n - 1], DoneAt(s, events, n - 1), WrittenBefore(s, events, n - 1));
      hide *;
    }
  }

  /** Every release of every run puts the baseline back if and only if it is owed,
      not refused, not left to another writer, allowed, plannable and not waiting
      for a retry; one that waits changes nothing. */
  lemma {:induction false} EveryRelease(s: State, events: seq<Event>, n: nat)
    requires Started(s) && Orderly(events) && n < |events| && events[n].Release?
    ensures var e, acts := events[n], DoneAt(s, events, n);
      && ReleaseDuties(Before(s, events, n), e.now, e.may, e.plannable, e.restore,
                       Removable(WrittenBefore(s, events, n), StatusBefore(s, events, n), e.api), acts)
      && (acts == [] ==> Run(s, events[..n + 1]) == Run(s, events[..n]))
  {
    assert Orderly(events[..n]);
    var e, m := events[n], Run(s, events[..n]);
    BeforeEvent(s, events, n);
    EventRuns(s, events, n);
    StatusIsHistory(s, events[..n]);
    WrittenIsHistory(s, events, n);
    ReleaseDone(Before(s, events, n), m.s, e.now, e.may, e.plannable, e.restore, e.api);
    hide Run, Orderly, Current, Shows, ReleaseOf, ReleaseDuties, Before, DoneAt, WrittenBefore, Word;
    assert m.acts + [] == m.acts;
  }

  /** And every exit, which waits for no retry. */
  lemma {:induction false} EveryExit(s: State, events: seq<Event>, n: nat)
    requires Started(s) && Orderly(events) && n < |events| && events[n].Exit?
    ensures var e, acts := events[n], DoneAt(s, events, n);
      && ExitDuties(Before(s, events, n), e.now, e.may, e.plannable, e.restore,
                    Removable(WrittenBefore(s, events, n), StatusBefore(s, events, n), e.api), acts)
  {
    assert Orderly(events[..n]);
    var e, m := events[n], Run(s, events[..n]);
    BeforeEvent(s, events, n);
    EventRuns(s, events, n);
    StatusIsHistory(s, events[..n]);
    WrittenIsHistory(s, events, n);
    var l := Before(s, events, n);
    hide Run, Orderly, Current, Shows, ReleaseOf, ReleaseDuties, Before, DoneAt, WrittenBefore, Word;
    if m.s.changed {
      ReleaseDone(l.(due := 0), m.s.(retryAt := 0), e.now, e.may, e.plannable, e.restore, e.api);
    }
  }
}
