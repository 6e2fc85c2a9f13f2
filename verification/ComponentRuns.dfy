/** What holds over whole runs of a governor component.

    A ledger is folded over what the component did. Allowed says when an act
    may come next; every act of every run is allowed, and the component's
    fields say what the ledger says. */
module ComponentRuns {
  import opened Results
  import opened Component

  // --- Drift episodes -----------------------------------------------------------------

  ghost predicate Sorted(e: seq<nat>) {
    forall i, j :: 0 <= i < j < |e| ==> e[i] <= e[j]
  }

  /** The episodes within the window of the last one. */
  function Latest(e: seq<nat>): seq<nat> {
    if e == [] then [] else Fresh(e[..|e| - 1], e[|e| - 1]) + [e[|e| - 1]]
  }

  /** Three episodes came within one window. */
  ghost predicate Crowded(e: seq<nat>) {
    exists i :: 0 <= i < |e| - 2 && e[i + 2] - e[i] < DRIFT_WINDOW
  }

  /** Dropping what was stale earlier changes nothing for a later prune. */
  lemma {:induction false} FreshAgain(e: seq<nat>, t: nat, now: nat)
    requires t <= now
    ensures Fresh(Fresh(e, t), now) == Fresh(e, now)
  {
    if e != [] {
      var n := |e| - 1;
      FreshAgain(e[..n], t, now);
      if e[n] + DRIFT_WINDOW > t {
        assert (Fresh(e[..n], t) + [e[n]])[..|Fresh(e[..n], t)|] == Fresh(e[..n], t);
      }
    }
  }

  lemma {:induction false} AllStale(e: seq<nat>, now: nat)
    requires Sorted(e) && (e != [] ==> now - e[|e| - 1] >= DRIFT_WINDOW)
    ensures Fresh(e, now) == []
  {
    if e != [] {
      AllStale(e[..|e| - 1], now);
    }
  }

  /** Two or more fresh episodes are there exactly when the last but one is fresh. */
  lemma {:induction false} TwoFresh(e: seq<nat>, now: nat)
    requires Sorted(e)
    ensures |Fresh(e, now)| >= 2 <==> |e| >= 2 && now - e[|e| - 2] < DRIFT_WINDOW
  {
    if |e| >= 2 {
      var n := |e| - 2;
      assert e[..n + 1][..n] == e[..n];
      if now - e[n] >= DRIFT_WINDOW {
        AllStale(e[..n + 1], now);
      }
    } else if |e| == 1 {
      assert e[..0] == [];
    }
  }

  /** One more episode, as checkNow takes it down. */
  lemma {:induction false} LatestStep(e: seq<nat>, now: nat)
    requires e != [] ==> e[|e| - 1] <= now
    ensures Fresh(Latest(e), now) == Fresh(e, now)
    ensures Latest(e + [now]) == Fresh(e, now) + [now]
  {
    assert (e + [now])[..|e|] == e;
    if e != [] {
      var n := |e| - 1;
      FreshAgain(e[..n], e[n], now);
      assert Latest(e)[..|Latest(e)| - 1] == Fresh(e[..n], e[n]);
    }
  }

  lemma {:induction false} CrowdedStep(e: seq<nat>, now: nat)
    requires Sorted(e) && !Crowded(e)
    ensures Crowded(e + [now]) <==> |Fresh(e, now)| + 1 >= DRIFT_LIMIT
  {
    var f := e + [now];
    TwoFresh(e, now);
    hide Fresh;
    if |e| >= 2 && now - e[|e| - 2] < DRIFT_WINDOW {
      assert f[|e| - 2 + 2] - f[|e| - 2] < DRIFT_WINDOW;
    }
    if Crowded(f) {
      var i :| 0 <= i < |f| - 2 && f[i + 2] - f[i] < DRIFT_WINDOW;
      if i < |e| - 2 {
        assert e[i + 2] - e[i] < DRIFT_WINDOW;
      }
    }
  }

  lemma {:induction false} EpisodeStep(e: seq<nat>, now: nat)
    requires Sorted(e) && !Crowded(e) && (e != [] ==> e[|e| - 1] <= now)
    ensures Sorted(e + [now]) && Latest(e + [now]) == Fresh(Latest(e), now) + [now]
    ensures Crowded(e + [now]) <==> |Fresh(Latest(e), now)| + 1 >= DRIFT_LIMIT
  {
    hide Latest, Fresh, Crowded;
    LatestStep(e, now);
    CrowdedStep(e, now);
    SortedStep(e, now);
  }

  lemma {:induction false} SortedStep(e: seq<nat>, now: nat)
    requires Sorted(e) && (e != [] ==> e[|e| - 1] <= now)
    ensures Sorted(e + [now])
  {
  }

  // --- The ledger --------------------------------------------------------------------

  /** The last apply of the intent, and the checks since: one passed, one found
      the write dropped, one completed the evidence for its locks. */
  datatype Mark = Mark(at: nat, result: Result, applied: string, passed: bool, dropped: Option<nat>, proven: bool)

  /** owed: something written has not been put back. intent: the key acted on, if
      any, and watched whether its applies left something to check. pending: a
      drift no apply and no passed check has answered. episodes: the drifts since
      the intent started. due: when what failed is tried again, 0 for nothing. */
  datatype Ledger = Ledger(
    owed: bool, refused: bool, intent: string, watched: bool, last: Option<Mark>, pending: bool, episodes: seq<nat>,
    due: nat, clock: nat)

  function Opening(changed: bool): Ledger {
    Ledger(changed, false, "", false, None, false, [], 0, 0)
  }

  /** The driver, or the plan, did not take it. */
  predicate NotTaken(r: Result) {
    r == Unsupported || r == NotApplied
  }

  function Read(l: Ledger, a: Act): Ledger {
    match a
    case Start(at, key) =>
      l.(intent := key, watched := false, last := None, pending := false, episodes := [], due := 0, clock := at)
    case Apply(at, result, applied, wrote, watches, _) =>
      l.(owed := l.owed || wrote, refused := l.refused || result == Refused,
         watched := if watches.Some? then watches.value else l.watched,
         last := Some(Mark(at, result, applied, false, None, false)), pending := false,
         due := if NotTaken(result) then at + RETRY_AFTER else 0, clock := at)
    case Pass(at, proven) =>
      l.(last := if l.last.None? then None
                 else Some(l.last.value.(passed := true,
                                         proven := l.last.value.proven || (proven && !l.pending && l.last.value.dropped.None?))),
         pending := false, clock := at)
    case Drop(at) =>
      l.(last := if l.last.None? then None else Some(l.last.value.(dropped := Some(at))), due := at + RETRY_AFTER, clock := at)
    case Episode(at) => l.(pending := true, episodes := l.episodes + [at], clock := at)
    case Held(at, _) => l.(intent := "", last := None, clock := at)
    case Restore(at, result, _) =>
      l.(owed := l.owed && result != Restored, refused := l.refused || result == Refused, intent := "", watched := false,
         last := None, pending := false, episodes := [],
         due := if result == Restored || result == Refused then 0 else at + RETRY_AFTER, clock := at)
    case Yield(at) => l.(owed := false, episodes := [], clock := at)
    case Quiet(at, _) => l.(intent := "", watched := false, last := None, due := 0, clock := at)
  }

  function Fold(l: Ledger, acts: seq<Act>): Ledger {
    if acts == [] then l else Read(Fold(l, acts[..|acts| - 1]), acts[|acts| - 1])
  }

  /** How long an apply must wait after the last one. */
  predicate Spaced(m: Mark, at: nat, cause: Cause) {
    && (NotTaken(m.result) ==> at >= m.at + RETRY_AFTER)
    && (m.dropped.Some? ==> at >= m.dropped.value + RETRY_AFTER)
    && (match cause
        case Reissue => true
        case AfterReset => m.passed
        case _ => at >= m.at + REAPPLY_EVERY)
  }

  ghost predicate Allowed(l: Ledger, a: Act) {
    && a.at >= l.clock
    && (a.Apply? || a.Pass? || a.Drop? || a.Episode? ==> l.intent != "")
    && match a
       case Apply(at, _, _, _, _, cause) =>
         && !l.refused
         && (cause != NewIntent <==> l.last.Some?)
         && (cause != NewIntent ==> !Crowded(l.episodes) && Spaced(l.last.value, at, cause))
         && (cause == AfterDrift ==> l.pending)
       case Restore(_, _, _) => l.owed && !l.refused
       case Episode(_) => !Crowded(l.episodes) && !l.pending
       case Drop(_) => l.last.Some?
       case _ => true
  }

  ghost predicate AllAllowed(l: Ledger, acts: seq<Act>) {
    forall j :: 0 <= j < |acts| ==> Allowed(Fold(l, acts[..j]), acts[j])
  }

  lemma {:induction false} AppendAct(l: Ledger, acts: seq<Act>, a: Act)
    requires AllAllowed(l, acts) && Allowed(Fold(l, acts), a)
    ensures AllAllowed(l, acts + [a]) && Fold(l, acts + [a]) == Read(Fold(l, acts), a)
  {
    var all := acts + [a];
    assert all[..|acts|] == acts;
    forall j | 0 <= j < |all| ensures Allowed(Fold(l, all[..j]), all[j]) {
      if j < |acts| {
        assert all[..j] == acts[..j];
      }
    }
  }

  lemma {:induction false} LastAllowed(l: Ledger, acts: seq<Act>)
    requires AllAllowed(l, acts) && acts != []
    ensures var n := |acts| - 1; AllAllowed(l, acts[..n]) && Allowed(Fold(l, acts[..n]), acts[n])
    ensures Fold(l, acts) == Read(Fold(l, acts[..|acts| - 1]), acts[|acts| - 1])
  {
    hide Allowed, Read;
    PrefixAllowed(l, acts, |acts| - 1);
  }

  lemma {:induction false} PrefixAllowed(l: Ledger, acts: seq<Act>, n: nat)
    requires AllAllowed(l, acts) && n <= |acts|
    ensures AllAllowed(l, acts[..n])
  {
    hide Allowed, Fold;
    forall j | 0 <= j < n ensures Allowed(Fold(l, acts[..n][..j]), acts[..n][j]) {
      assert acts[..n][..j] == acts[..j];
    }
  }

  lemma {:induction false} AppendActs(l: Ledger, acts: seq<Act>, more: seq<Act>)
    requires AllAllowed(l, acts) && AllAllowed(Fold(l, acts), more)
    ensures AllAllowed(l, acts + more) && Fold(l, acts + more) == Fold(Fold(l, acts), more)
    decreases |more|
  {
    NothingAllowed(Fold(l, acts));
    hide Allowed, AllAllowed, Read, Fold;
    if more == [] {
      assert acts + more == acts;
    } else {
      var n := |more| - 1;
      LastAllowed(Fold(l, acts), more);
      AppendActs(l, acts, more[..n]);
      AppendAct(l, acts + more[..n], more[n]);
      assert acts + more == acts + more[..n] + [more[n]];
    }
  }

  // --- The fields say what the ledger says ---------------------------------------------

  ghost predicate SameDebt(l: Ledger, s: State) {
    l.owed == s.changed && l.refused == s.refused && s.contended == Crowded(l.episodes)
  }

  ghost predicate Matches(l: Ledger, s: State) {
    && SameDebt(l, s) && l.intent == s.intent && l.due == s.retryAt
    && (s.intent != "" ==> l.last.Some? && Current(l, l.last.value, s))
  }

  ghost predicate Current(l: Ledger, m: Mark, s: State) {
    && m.at == s.lastApply && m.at <= l.clock
    && l.pending == s.drifted && l.watched == s.watched
    && s.drifts == Latest(l.episodes)
    && Sorted(l.episodes) && (l.episodes != [] ==> l.episodes[|l.episodes| - 1] <= l.clock)
    && (l.due != 0 <==> NotTaken(m.result) || m.dropped.Some?)
    && (m.dropped.Some? ==> l.due == m.dropped.value + RETRY_AFTER && m.dropped.value >= m.at)
    && (m.dropped.None? && NotTaken(m.result) ==> l.due == m.at + RETRY_AFTER)
    && (s.verified <==> m.passed || !l.watched)
  }

  lemma {:induction false} ApplyStep(l: Ledger, s: State, now: nat, out: Outcome, cause: Cause)
    requires Matches(l, s) && s.intent != "" && Allowed(l, Applying(now, out, cause)) && cause != NewIntent
    ensures Matches(Read(l, Applying(now, out, cause)), ApplyOf(s, now, out))
  {
    assert !s.contended;
  }

  lemma {:induction false} NewIntentStep(l: Ledger, s: State, now: nat, key: string, out: Outcome)
    requires Matches(l, s) && now >= l.clock && !s.refused && key != ""
    ensures var acts := [Start(now, key), Applying(now, out, NewIntent)];
      AllAllowed(l, acts) && Matches(Fold(l, acts), ApplyOf(StartOf(s, key), now, out))
  {
    assert !Crowded([]) && Latest([]) == [];
    hide Crowded, Latest, Fold, AllAllowed, SettleOf;
    NothingAllowed(l);
    AppendAct(l, [], Start(now, key));
    AppendAct(l, [Start(now, key)], Applying(now, out, NewIntent));
    assert [] + [Start(now, key)] == [Start(now, key)];
    assert [Start(now, key)] + [Applying(now, out, NewIntent)] == [Start(now, key), Applying(now, out, NewIntent)];
  }

  lemma {:induction false} One(l: Ledger, a: Act)
    requires Allowed(l, a)
    ensures AllAllowed(l, [a]) && Fold(l, [a]) == Read(l, a)
  {
    AppendAct(l, [], a);
    assert [] + [a] == [a];
  }

  lemma {:induction false} ReapplyStep(l: Ledger, s: State, now: nat, out: Outcome)
    requires Matches(l, s) && s.intent != "" && now >= l.clock && !s.refused && !s.contended && s.drifted && s.retryAt == 0
    ensures var m := ReapplyOf(s, now, out, []); AllAllowed(l, m.acts) && Matches(Fold(l, m.acts), m.s)
  {
    if now - s.lastApply >= REAPPLY_EVERY {
      One(l, Applying(now, out, AfterDrift));
      ApplyStep(l, s, now, out, AfterDrift);
      assert [] + [Applying(now, out, AfterDrift)] == [Applying(now, out, AfterDrift)];
    }
  }

  lemma {:induction false} DriftStep(l: Ledger, s: State, now: nat)
    requires Matches(l, s) && s.intent != "" && now >= l.clock && !s.contended && !s.drifted
    ensures Allowed(l, Episode(now)) && Matches(Read(l, Episode(now)), DriftOf(s, now))
  {
    EpisodeStep(l.episodes, now);
  }

  lemma {:induction false} PassStep(l: Ledger, s: State, now: nat, proven: bool)
    requires Matches(l, s) && s.intent != "" && now >= l.clock
    ensures AllAllowed(l, [Pass(now, proven)]) && Matches(Fold(l, [Pass(now, proven)]), PassOf(s, proven))
  {
    One(l, Pass(now, proven));
  }

  lemma {:induction false} ReapplyAfter(s: State, now: nat, out: Outcome, before: seq<Act>)
    ensures var m := ReapplyOf(s, now, out, []); ReapplyOf(s, now, out, before) == Moved(m.s, before + m.acts)
  {
    assert [] + [Applying(now, out, AfterDrift)] == [Applying(now, out, AfterDrift)];
    assert before + [] == before;
  }

  lemma {:induction false} NewDriftStep(l: Ledger, s: State, now: nat, out: Outcome)
    requires Matches(l, s) && s.intent != "" && now >= l.clock && !s.refused && !s.contended && !s.drifted && s.retryAt == 0
    ensures var d := DriftOf(s, now);
      var m := if d.contended then Moved(d, [Episode(now)]) else ReapplyOf(d, now, out, [Episode(now)]);
      AllAllowed(l, m.acts) && Matches(Fold(l, m.acts), m.s)
  {
    var d := DriftOf(s, now);
    DriftStep(l, s, now);
    One(l, Episode(now));
    assert Read(l, Episode(now)).clock == now && d.drifted && d.intent == s.intent && d.retryAt == 0 && !d.refused;
    hide DriftOf, Matches, AllAllowed, Fold, Read;
    if !d.contended {
      ReapplyStep(Read(l, Episode(now)), d, now, out);
      AppendActs(l, [Episode(now)], ReapplyOf(d, now, out, []).acts);
      ReapplyAfter(d, now, out, [Episode(now)]);
    }
  }

  lemma {:induction false} CheckStep(l: Ledger, s: State, now: nat, a: Answers)
    requires Matches(l, s) && s.intent != "" && now >= l.clock && !s.refused && !s.contended && s.retryAt == 0
    ensures var m := CheckOf(s, now, a); AllAllowed(l, m.acts) && Matches(Fold(l, m.acts), m.s)
  {
    if a.ok || !s.watched {
      PassStep(l, s, now, a.proven);
    } else if !s.verified {
      One(l, Drop(now));
    } else if a.reset {
      One(l, Applying(now, a.second, AfterReset));
      ApplyStep(l, s, now, a.second, AfterReset);
    } else if s.drifted {
      ReapplyStep(l, s, now, a.second);
    } else {
      NewDriftStep(l, s, now, a.second);
    }
  }

  // --- Runs -----------------------------------------------------------------------------

  /** Keys are not empty, and a component whose setting is issued again without a
      visible change has a check that always holds, as the NVIDIA one does. */
  predicate Proper(e: Event) {
    e.Step? ==> e.key != "" && (e.answers.reissue ==> e.answers.ok)
  }

  lemma {:induction false} ActStep(l: Ledger, s: State, now: nat, key: string, a: Answers)
    requires Matches(l, s) && now >= l.clock && key != "" && (a.reissue ==> a.ok)
    ensures var m := StepOf(s, now, key, a); AllAllowed(l, m.acts) && Matches(Fold(l, m.acts), m.s)
  {
    hide Current, CheckOf;
    if s.refused {
    } else if key != s.intent {
      NewIntentStep(l, s, now, key, a.first);
    } else if s.contended {
    } else if s.retryAt != 0 {
      if now >= s.retryAt {
        WaitedStep(l, s, now, a.first, Retry);
      }
    } else if s.status.result == Error {
      if now - s.lastApply >= REAPPLY_EVERY {
        WaitedStep(l, s, now, a.first, AfterError);
      }
    } else if a.reissue {
      WaitedStep(l, s, now, a.first, Reissue);
      var act := Applying(now, a.first, Reissue);
      PassStep(Read(l, act), ApplyOf(s, now, a.first), now, a.proven);
      AppendActs(l, [act], [Pass(now, a.proven)]);
      PassCheck(ApplyOf(s, now, a.first), now, a);
    } else {
      CheckStep(l, s, now, a);
    }
  }

  lemma {:induction false} PassCheck(s: State, now: nat, a: Answers)
    requires a.ok
    ensures CheckOf(s, now, a) == Moved(PassOf(s, a.proven), [Pass(now, a.proven)])
  {
  }

  /** An apply whose time has come. */
  lemma {:induction false} WaitedStep(l: Ledger, s: State, now: nat, out: Outcome, cause: Cause)
    requires Matches(l, s) && s.intent != "" && now >= l.clock && !s.refused && !s.contended
    requires match cause
      case Retry => s.retryAt != 0 && now >= s.retryAt
      case AfterError => s.retryAt == 0 && now - s.lastApply >= REAPPLY_EVERY
      case Reissue => s.retryAt == 0
      case _ => false
    ensures var a := Applying(now, out, cause);
      AllAllowed(l, [a]) && Fold(l, [a]) == Read(l, a) && Matches(Read(l, a), ApplyOf(s, now, out))
  {
    ApplyStep(l, s, now, out, cause);
    One(l, Applying(now, out, cause));
  }

  /** No intent is acted on, and the ledger knows the rest. */
  ghost predicate Outside(l: Ledger, s: State) {
    SameDebt(l, s) && l.intent == s.intent == "" && l.due == s.retryAt
  }

  lemma {:induction false} YieldAllowed(l: Ledger, s: State, now: nat, api: bool)
    requires SameDebt(l, s) && now >= l.clock && s.contended
    ensures var acts := [Yield(now)] + [Quiet(now, Removes(YieldOf(s), api))];
      AllAllowed(l, acts) && Outside(Fold(l, acts), QuietOf(YieldOf(s), api))
  {
    One(l, Yield(now));
    One(Read(l, Yield(now)), Quiet(now, Removes(YieldOf(s), api)));
    AppendActs(l, [Yield(now)], [Quiet(now, Removes(YieldOf(s), api))]);
  }

  lemma {:induction false} PutBackAllowed(l: Ledger, s: State, now: nat, out: Outcome, api: bool)
    requires SameDebt(l, s) && now >= l.clock && s.changed && !s.refused && !s.contended
    ensures var acts := [] + [Restoring(now, out)];
      AllAllowed(l, acts) && Outside(Fold(l, acts), PublishOf(RestoreOf(s, now, out), api))
  {
    One(l, Restoring(now, out));
    assert [] + [Restoring(now, out)] == [Restoring(now, out)];
  }

  lemma {:induction false} QuietAllowed(l: Ledger, s: State, now: nat, api: bool)
    requires SameDebt(l, s) && now >= l.clock
    ensures var acts := [] + [Quiet(now, Removes(s, api))]; AllAllowed(l, acts) && Outside(Fold(l, acts), QuietOf(s, api))
  {
    One(l, Quiet(now, Removes(s, api)));
    assert [] + [Quiet(now, Removes(s, api))] == [Quiet(now, Removes(s, api))];
  }

  lemma {:induction false} ReleaseAllowed(l: Ledger, s: State, now: nat, may: bool, plannable: bool, out: Outcome,
                                          api: bool)
    requires SameDebt(l, s) && now >= l.clock
    ensures var m := ReleaseOf(s, now, may, plannable, out, api);
      AllAllowed(l, m.acts) && (m == Moved(s, []) || Outside(Fold(l, m.acts), m.s))
  {
    hide Fold, AllAllowed, SameDebt, Outside, QuietOf, RestoreOf, PublishOf;
    if s.contended {
      YieldAllowed(l, s, now, api);
    } else if s.changed && may && !s.refused {
      if plannable && (s.retryAt == 0 || now >= s.retryAt) {
        PutBackAllowed(l, s, now, out, api);
      } else {
        NothingAllowed(l);
      }
    } else {
      QuietAllowed(l, s, now, api);
    }
  }

  lemma {:induction false} NothingAllowed(l: Ledger)
    ensures AllAllowed(l, []) && Fold(l, []) == l
  {
  }

  lemma {:induction false} HoldStep(l: Ledger, s: State, now: nat, st: Status, api: bool)
    requires Matches(l, s) && now >= l.clock
    ensures AllAllowed(l, [Held(now, st)]) && Matches(Fold(l, [Held(now, st)]), PublishOf(HoldOf(s, st), api))
  {
    One(l, Held(now, st));
  }

  lemma {:induction false} ReleaseStep(l: Ledger, s: State, now: nat, may: bool, plannable: bool, out: Outcome,
                                       api: bool)
    requires Matches(l, s) && now >= l.clock
    ensures var m := ReleaseOf(s, now, may, plannable, out, api); AllAllowed(l, m.acts) && Matches(Fold(l, m.acts), m.s)
  {
    ReleaseAllowed(l, s, now, may, plannable, out, api);
    NothingAllowed(l);
    hide Current, ReleaseOf, Fold, AllAllowed;
  }

  lemma {:induction false} NextStep(l: Ledger, s: State, e: Event)
    requires Matches(l, s) && e.now >= l.clock && Proper(e)
    ensures var m := Next(s, e); AllAllowed(l, m.acts) && (!e.Exit? ==> Matches(Fold(l, m.acts), m.s))
  {
    match e
    case Step(now, key, a, api) =>
      ActStep(l, s, now, key, a);
      hide StepOf, AllAllowed, Fold;
    case Hold(now, st, api) =>
      HoldStep(l, s, now, st, api);
      hide AllAllowed, Fold, Matches;
    case Release(now, may, plannable, out, api) =>
      ReleaseStep(l, s, now, may, plannable, out, api);
      hide AllAllowed, Fold, Matches, ReleaseOf;
    case Exit(now, may, plannable, out, api) =>
      ReleaseAllowed(l, s.(retryAt := 0), now, may, plannable, out, api);
      NothingAllowed(l);
      hide AllAllowed, Fold, Matches, ReleaseOf;
  }

  /** A release either waits and changes nothing, or leaves no intent. */
  lemma {:induction false} IntentGone(s: State, now: nat, may: bool, plannable: bool, out: Outcome, api: bool)
    ensures var m := ReleaseOf(s, now, may, plannable, out, api); m == Moved(s, []) || m.s.intent == ""
  {
  }

  function Run(s: State, events: seq<Event>): Moved {
    if events == [] then Moved(s, [])
    else
      var n := |events| - 1;
      var m := Run(s, events[..n]);
      var q := Next(m.s, events[n]);
      Moved(q.s, m.acts + q.acts)
  }

  /** Time does not run backwards, and nothing follows the exit restore. */
  ghost predicate Orderly(events: seq<Event>) {
    && (forall i :: 0 <= i < |events| ==> Proper(events[i]) && (events[i].Exit? ==> i == |events| - 1))
    && (forall i, j :: 0 <= i < j < |events| ==> events[i].now <= events[j].now)
  }

  /** An agent that has just started; changed and the status may come from an
      earlier run's. */
  predicate Started(s: State) {
    s.intent == "" && !s.refused && !s.contended && s.retryAt == 0
  }

  lemma {:induction false} ClockIs(l: Ledger, acts: seq<Act>)
    ensures Fold(l, acts).clock == if acts == [] then l.clock else acts[|acts| - 1].at
  {
    if acts != [] {
      ClockIs(l, acts[..|acts| - 1]);
    }
  }

  lemma {:induction false} CheckedNow(s: State, now: nat, a: Answers)
    ensures forall act :: act in CheckOf(s, now, a).acts ==> act.at == now
  {
    hide ApplyOf, PassOf, DropOf, Fresh;
  }

  lemma {:induction false} SteppedNow(s: State, now: nat, key: string, a: Answers)
    ensures forall act :: act in StepOf(s, now, key, a).acts ==> act.at == now
  {
    CheckedNow(s, now, a);
    CheckedNow(ApplyOf(s, now, a.first), now, a);
    hide ApplyOf, CheckOf, StartOf;
  }

  lemma {:induction false} ActsAreNow(s: State, e: Event)
    ensures forall a :: a in Next(s, e).acts ==> a.at == e.now
  {
    if e.Step? {
      SteppedNow(s, e.now, e.key, e.answers);
    }
    hide StepOf, PublishOf, HoldOf, RestoreOf, QuietOf;
  }

  /** Every act of every run is allowed, and the fields say what the ledger says. */
  lemma {:induction false} RunsAreAllowed(s: State, events: seq<Event>)
    requires Started(s) && Orderly(events)
    ensures var m := Run(s, events); var l := Opening(s.changed);
      && AllAllowed(l, m.acts)
      && Fold(l, m.acts).clock <= (if events == [] then 0 else events[|events| - 1].now)
      && (events == [] || !events[|events| - 1].Exit? ==> Matches(Fold(l, m.acts), m.s))
    decreases |events|
  {
    if events == [] {
      NothingAllowed(Opening(s.changed));
    } else {
      var n := |events| - 1;
      assert Orderly(events[..n]);
      assert n > 0 ==> events[n - 1].now <= events[n].now && !events[n - 1].Exit?;
      assert Proper(events[n]);
      hide Next, Matches, AllAllowed, Fold, Proper, Orderly;
      RunsAreAllowed(s, events[..n]);
      var l, m := Opening(s.changed), Run(s, events[..n]);
      assert n > 0 ==> events[..n][n - 1] == events[n - 1];
      if n == 0 {
        FreshMatches(s);
      }
      var l1, q := Fold(l, m.acts), Next(m.s, events[n]);
      NextStep(l1, m.s, events[n]);
      ActsAreNow(m.s, events[n]);
      AppendActs(l, m.acts, q.acts);
      ClockIs(l1, q.acts);
    }
  }

  lemma {:induction false} FreshMatches(s: State)
    requires Started(s)
    ensures Matches(Opening(s.changed), s) && Fold(Opening(s.changed), []) == Opening(s.changed)
  {
  }
}
