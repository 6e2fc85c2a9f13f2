/** How far apart attempts to put the baseline back are. A failed one is tried again
    thirty minutes later, unless the retry is forgotten first. */
module ComponentRestores {
  import opened Results
  import opened Component
  import opened ComponentDuties
  import opened ComponentLaws
  import opened ComponentRuns
  import opened ComponentStatus

  /** The restore failed, and may be tried again. */
  predicate Failed(a: Act) {
    a.Restore? && a.result != Restored && a.result != Refused
  }

  /** A new intent, or a release with nothing to put back, forgets the retry. */
  predicate Forgets(a: Act) {
    a.Start? || a.Quiet?
  }

  /** Restores come when the history says they are due. */
  ghost predicate InTime(l: Ledger, acts: seq<Act>) {
    forall j :: 0 <= j < |acts| && acts[j].Restore? ==> acts[j].at >= Fold(l, acts[..j]).due
  }

  lemma {:induction false} InTimeMore(l: Ledger, acts: seq<Act>, more: seq<Act>)
    requires InTime(l, acts) && InTime(Fold(l, acts), more)
    ensures InTime(l, acts + more)
  {
    var all := acts + more;
    hide Fold;
    forall j | 0 <= j < |all| && all[j].Restore? ensures all[j].at >= Fold(l, all[..j]).due {
      if j < |acts| {
        assert all[..j] == acts[..j];
      } else {
        var k := j - |acts|;
        assert all[..j] == acts + more[..k];
        FoldConcat(l, acts, more[..k]);
        assert more[k].at >= Fold(Fold(l, acts), more[..k]).due;
      }
    }
  }

  lemma {:induction false} ReleaseInTime(l: Ledger, s: State, now: nat, may: bool, plannable: bool, out: Outcome,
                                         api: bool)
    requires SameDebt(l, s) && l.due == s.retryAt
    ensures InTime(l, ReleaseOf(s, now, may, plannable, out, api).acts)
  {
    assert Fold(l, []) == l;
    hide Crowded, RestoreOf, QuietOf, PublishOf, Fold;
    forall acts: seq<Act> | |acts| == 1 ensures acts[..0] == [] {}
  }

  lemma {:induction false} RestoresInTime(s: State, events: seq<Event>)
    requires Started(s) && Orderly(events) && forall k :: 0 <= k < |events| ==> !events[k].Exit?
    ensures InTime(Opening(s.changed), Run(s, events).acts)
    decreases |events|
  {
    if events != [] {
      var n := |events| - 1;
      var before, e, m := events[..n], events[n], Run(s, events[..n]);
      assert Orderly(before);
      RestoresInTime(s, before);
      BeforeEvent(s, events, n);
      var l := Before(s, events, n);
      if e.Release? {
        ReleaseInTime(l, m.s, e.now, e.may, e.plannable, e.restore, e.api);
      } else if e.Step? {
        StepKeepsWritten(m.s, e.now, e.key, e.answers);
      }
      hide Fold, Current, Shows, Orderly, ReleaseOf, StepOf;
      InTimeMore(Opening(s.changed), m.acts, Next(m.s, e).acts);
    }
  }

  /** After a failed restore at t, with nothing forgotten: no intent is acted on,
      and the retry is due after the wait, or a later restore came after it. */
  predicate Retrying(f: Ledger, t: nat) {
    f.intent == "" && f.clock >= t && (f.due == t + RETRY_AFTER || f.clock >= t + RETRY_AFTER)
  }

  lemma {:induction false} RetryingStep(f: Ledger, a: Act, t: nat)
    requires Retrying(f, t) && Allowed(f, a) && !Forgets(a) && (a.Restore? ==> a.at >= f.due)
    ensures Retrying(Read(f, a), t)
  {
    hide Crowded;
  }

  lemma {:induction false} TracksRestore(l: Ledger, acts: seq<Act>, i: nat, n: nat)
    requires AllAllowed(l, acts) && InTime(l, acts) && i < n <= |acts| && Failed(acts[i])
    requires forall k :: i < k < n ==> !Forgets(acts[k])
    ensures Retrying(Fold(l, acts[..n]), acts[i].at)
    decreases n
  {
    hide Fold, Allowed, Retrying, Read;
    FoldAt(l, acts, n - 1);
    AllowedAt(l, acts, n - 1);
    if i < n - 1 {
      TracksRestore(l, acts, i, n - 1);
      RetryingStep(Fold(l, acts[..n - 1]), acts[n - 1], acts[i].at);
    } else {
      FailedNow(Fold(l, acts[..i]), acts[i]);
    }
  }

  lemma {:induction false} FailedNow(f: Ledger, a: Act)
    requires Failed(a)
    ensures Retrying(Read(f, a), a.at)
  {
  }

  /** A restore comes at least thirty minutes after one that failed, as long as no
      intent started and no release found nothing to put back in between. */
  lemma {:induction false} RestoreSpacing(s: State, events: seq<Event>, i: nat, j: nat)
    requires Started(s) && Orderly(events) && forall k :: 0 <= k < |events| ==> !events[k].Exit?
    requires i < j < |Run(s, events).acts|
    requires var acts := Run(s, events).acts;
      Failed(acts[i]) && acts[j].Restore? && forall k :: i < k < j ==> !Forgets(acts[k])
    ensures var acts := Run(s, events).acts; acts[j].at >= acts[i].at + RETRY_AFTER
  {
    hide Run, Fold, AllAllowed, Orderly, Matches, Opening, Forgets;
    var l, acts := Opening(s.changed), Run(s, events).acts;
    RunsAreAllowed(s, events);
    RestoresInTime(s, events);
    TracksRestore(l, acts, i, j);
    RestoreAfter(l, acts, i, j);
  }

  lemma {:induction false} RestoreAfter(l: Ledger, acts: seq<Act>, i: nat, j: nat)
    requires AllAllowed(l, acts) && InTime(l, acts) && i < j < |acts| && acts[j].Restore?
    requires Retrying(Fold(l, acts[..j]), acts[i].at)
    ensures acts[j].at >= acts[i].at + RETRY_AFTER
  {
    AllowedAt(l, acts, j);
    hide Fold, Crowded;
  }

  /** The retry of act i is forgotten, and no apply since waits for one of its own. */
  ghost predicate Forgotten(acts: seq<Act>, i: nat) {
    exists k :: i < k < |acts| && Forgets(acts[k]) && forall m :: k < m < |acts| ==> !Waits(acts[m])
  }

  lemma {:induction false} ForgottenStep(acts: seq<Act>, i: nat, a: Act)
    requires i < |acts|
    ensures Forgotten(acts + [a], i) <==> Forgets(a) || (Forgotten(acts, i) && !Waits(a))
  {
    var n, all := |acts|, acts + [a];
    if Forgets(a) {
      assert Forgets(all[n]);
    }
    if Forgotten(acts, i) && !Waits(a) {
      var k :| i < k < n && Forgets(acts[k]) && forall m :: k < m < n ==> !Waits(acts[m]);
      assert Forgets(all[k]);
    }
    if Forgotten(all, i) && !Forgets(a) {
      var k :| i < k <= n && Forgets(all[k]) && forall m :: k < m <= n ==> !Waits(all[m]);
      assert !Waits(all[n]) && Forgets(acts[k]);
      assert forall m :: k < m < n ==> all[m] == acts[m];
    }
  }

  /** Within the wait after a restore that failed at t, a retry is due exactly when
      none is forgotten, and an intent that waits has its own time to wait for. */
  predicate Early(f: Ledger, t: nat, forgotten: bool) {
    && t <= f.clock < t + RETRY_AFTER && (f.due == 0 <==> forgotten)
    && (f.due != 0 ==> f.due >= t + RETRY_AFTER) && LastInPast(f)
    && (f.last.Some? && f.due != 0 ==> Waiting(f, t))
    && (f.intent != "" && f.last.None? ==> f.due == 0)
  }

  lemma {:induction false} EarlyStep(f: Ledger, a: Act, t: nat, forgotten: bool)
    requires Early(f, t, forgotten) && Allowed(f, a) && !a.Restore? && a.at < t + RETRY_AFTER
    ensures Early(Read(f, a), t, Forgets(a) || (forgotten && !Waits(a)))
  {
    hide Crowded;
  }

  lemma {:induction false} EarlyStart(f: Ledger, a: Act)
    requires Failed(a)
    ensures Early(Read(f, a), a.at, false)
  {
  }

  lemma {:induction false} EarlyMore(f: Ledger, before: seq<Act>, a: Act, i: nat, t: nat)
    requires i < |before| && Allowed(f, a) && !a.Restore? && Read(f, a).clock < t + RETRY_AFTER
    requires Early(f, t, Forgotten(before, i))
    ensures Early(Read(f, a), t, Forgotten(before + [a], i))
  {
    ClockAt(f, a);
    hide Allowed, Early, Read, Forgotten, Forgets, Waits;
    ForgottenStep(before, i, a);
    EarlyStep(f, a, t, Forgotten(before, i));
  }

  lemma {:induction false} EarlyNext(l: Ledger, acts: seq<Act>, i: nat, n: nat)
    requires AllAllowed(l, acts) && i < n < |acts| && !acts[n].Restore?
    requires Fold(l, acts[..n + 1]).clock < acts[i].at + RETRY_AFTER
    requires Early(Fold(l, acts[..n]), acts[i].at, Forgotten(acts[..n], i))
    ensures Early(Fold(l, acts[..n + 1]), acts[i].at, Forgotten(acts[..n + 1], i))
  {
    hide *;
    FoldAt(l, acts, n);
    AllowedAt(l, acts, n);
    assert acts[..n] + [acts[n]] == acts[..n + 1];
    EarlyMore(Fold(l, acts[..n]), acts[..n], acts[n], i, acts[i].at);
  }

  lemma {:induction false} EarlyFirst(l: Ledger, acts: seq<Act>, i: nat)
    requires i < |acts| && Failed(acts[i])
    ensures Early(Fold(l, acts[..i + 1]), acts[i].at, Forgotten(acts[..i + 1], i))
  {
    FoldAt(l, acts, i);
    EarlyStart(Fold(l, acts[..i]), acts[i]);
    NotForgottenYet(acts[..i + 1], i);
  }

  lemma {:induction false} ClockGrows(l: Ledger, acts: seq<Act>, n: nat)
    requires AllAllowed(l, acts) && n < |acts|
    ensures Fold(l, acts[..n]).clock <= Fold(l, acts[..n + 1]).clock
  {
    FoldAt(l, acts, n);
    AllowedAt(l, acts, n);
    ClockAt(Fold(l, acts[..n]), acts[n]);
  }

  lemma {:induction false} TracksEarly(l: Ledger, acts: seq<Act>, i: nat, n: nat)
    requires AllAllowed(l, acts) && i < n <= |acts| && Failed(acts[i])
    requires forall k :: i < k < n ==> !acts[k].Restore?
    requires Fold(l, acts[..n]).clock < acts[i].at + RETRY_AFTER
    ensures Early(Fold(l, acts[..n]), acts[i].at, Forgotten(acts[..n], i))
    decreases n
  {
    hide Fold, Early, AllAllowed, Failed, Forgotten;
    if i < n - 1 {
      ClockGrows(l, acts, n - 1);
      TracksEarly(l, acts, i, n - 1);
      EarlyNext(l, acts, i, n - 1);
    } else {
      EarlyFirst(l, acts, i);
    }
  }

  lemma {:induction false} NotForgottenYet(acts: seq<Act>, i: nat)
    requires |acts| == i + 1
    ensures !Forgotten(acts, i)
  {
  }

  lemma {:induction false} ClockAt(f: Ledger, a: Act)
    requires Allowed(f, a)
    ensures f.clock <= a.at == Read(f, a).clock
  {
  }

  /** Exactly when a release puts the baseline back within thirty minutes of a
      restore that failed: when the retry was forgotten since. */
  lemma {:induction false} EarlyRestore(s: State, events: seq<Event>, n: nat, i: nat)
    requires Started(s) && Orderly(events) && n < |events| && events[n].Release?
    requires i < |Run(s, events[..n]).acts| && Failed(Run(s, events[..n]).acts[i])
    requires forall k :: i < k < |Run(s, events[..n]).acts| ==> !Run(s, events[..n]).acts[k].Restore?
    requires events[n].now < Run(s, events[..n]).acts[i].at + RETRY_AFTER
    ensures var e := events[n];
      Undid(e.now, e.restore) in DoneAt(s, events, n)
      <==> Owing(Before(s, events, n), e.may) && e.plannable && Forgotten(Run(s, events[..n]).acts, i)
  {
    var acts, l, e := Run(s, events[..n]).acts, Before(s, events, n), events[n];
    assert Orderly(events[..n]) && acts[..|acts|] == acts;
    RunsAreAllowed(s, events[..n]);
    BeforeEvent(s, events, n);
    EveryRelease(s, events, n);
    hide Run, Fold, AllAllowed, Orderly, Matches, Shows, DoneAt, Owing, Forgotten, Word, WrittenBefore, Undid;
    TracksEarly(Opening(s.changed), acts, i, |acts|);
  }

  lemma {:induction false} RunOfThree(s: State, a: Event, b: Event, c: Event)
    ensures var x := Next(s, a); var y := Next(x.s, b); var z := Next(y.s, c);
      Run(s, [a, b, c]) == Moved(z.s, x.acts + y.acts + z.acts)
  {
    assert [a, b, c][..2] == [a, b] && [a, b][..1] == [a] && [a][..0] == [];
    assert [] + Next(s, a).acts == Next(s, a).acts;
    hide Next;
    assert Run(s, [a]) == Next(s, a);
    assert Run(s, [a, b]).s == Next(Next(s, a).s, b).s;
  }

  lemma {:induction false} PutBackNow(s: State, now: nat, out: Outcome, api: bool)
    requires s.changed && !s.contended && !s.refused && s.retryAt == 0
    ensures Next(s, Release(now, true, true, out, api)) == Moved(PublishOf(RestoreOf(s, now, out), api), [Restoring(now, out)])
  {
    assert [] + [Restoring(now, out)] == [Restoring(now, out)];
  }

  lemma {:induction false} QuietNow(s: State, now: nat, out: Outcome, api: bool)
    requires !s.contended
    ensures Next(s, Release(now, false, true, out, api)) == Moved(QuietOf(s, api), [Quiet(now, Removes(s, api))])
  {
    assert [] + [Quiet(now, Removes(s, api))] == [Quiet(now, Removes(s, api))];
  }

  /** So two attempts can share one moment: after an intent that came and went, and
      after a release in simulate-only mode. */
  lemma {:induction false} RestoreAtOnce(s: State, now: nat, key: string, a: Answers, out: Outcome, api: bool)
    requires Started(s) && s.changed && key != "" && out.status.result == Error && a.first.status.result == Applied
    ensures var r := Release(now, true, true, out, api);
      && Run(s, [r, Step(now, key, a, api), r]).acts ==
        [Restoring(now, out), Start(now, key), Applying(now, a.first, NewIntent), Restoring(now, out)]
      && Run(s, [r, Release(now, false, true, out, api), r]).acts == [Restoring(now, out), Quiet(now, api), Restoring(now, out)]
  {
    AfterIntent(s, now, key, a, out, api);
    AfterQuiet(s, now, out, api);
    hide Run;
  }

  lemma {:induction false} AfterIntent(s: State, now: nat, key: string, a: Answers, out: Outcome, api: bool)
    requires Started(s) && s.changed && key != "" && out.status.result == Error && a.first.status.result == Applied
    ensures var r := Release(now, true, true, out, api);
      Run(s, [r, Step(now, key, a, api), r]).acts ==
        [Restoring(now, out), Start(now, key), Applying(now, a.first, NewIntent), Restoring(now, out)]
  {
    var r, step, failed := Release(now, true, true, out, api), Step(now, key, a, api), PublishOf(RestoreOf(s, now, out), api);
    RunOfThree(s, r, step, r);
    PutBackNow(s, now, out, api);
    IntentNow(failed, now, key, a, api);
    PutBackNow(Next(failed, step).s, now, out, api);
    hide Run, Next, PublishOf, RestoreOf;
  }

  lemma {:induction false} IntentNow(s: State, now: nat, key: string, a: Answers, api: bool)
    requires s.intent == "" && !s.refused && s.changed && key != "" && a.first.status.result == Applied
    ensures var m := Next(s, Step(now, key, a, api));
      && m.acts == [Start(now, key), Applying(now, a.first, NewIntent)]
      && m.s.changed && !m.s.contended && !m.s.refused && m.s.retryAt == 0
  {
  }

  lemma {:induction false} AfterQuiet(s: State, now: nat, out: Outcome, api: bool)
    requires Started(s) && s.changed && out.status.result == Error
    ensures var r := Release(now, true, true, out, api);
      Run(s, [r, Release(now, false, true, out, api), r]).acts == [Restoring(now, out), Quiet(now, api), Restoring(now, out)]
  {
    var r, quiet := Release(now, true, true, out, api), Release(now, false, true, out, api);
    var failed := PublishOf(RestoreOf(s, now, out), api);
    RunOfThree(s, r, quiet, r);
    PutBackNow(s, now, out, api);
    QuietNow(failed, now, out, api);
    PutBackNow(QuietOf(failed, api), now, out, api);
    hide Run, ReleaseOf;
  }
}
