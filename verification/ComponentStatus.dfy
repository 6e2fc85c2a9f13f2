/** What the status of a component shows of its history: a restarted agent reads
    nothing else. */
module ComponentStatus {
  import opened Results
  import opened Component
  import opened ComponentRuns

  /** The outcome a drift that ends returns to: the last apply's, called applied
      once the evidence for its locks was complete. */
  function GoodOf(m: Mark): Status {
    Status(if m.result == AppliedUnverified && m.proven then Applied else m.result, m.applied)
  }

  /** What an intent's status says: contended and drift exactly while they hold,
      not-applied after a write the driver dropped, else the outcome above. */
  function Shown(m: Mark, contended: bool, drifted: bool): Status {
    Status(if contended then Contended else if drifted then Drift else if m.dropped.Some? then NotApplied
           else GoodOf(m).result, m.applied)
  }

  ghost predicate Shows(l: Ledger, s: State) {
    s.intent != "" && l.last.Some? ==>
      && s.good == GoodOf(l.last.value)
      && s.status == Shown(l.last.value, s.contended, s.drifted)
      && (s.contended ==> s.drifted) && (s.drifted ==> s.verified && l.last.value.dropped.None?)
  }

  lemma {:induction false} FoldOne(l: Ledger, a: Act)
    ensures Fold(l, [a]) == Read(l, a)
  {
    assert [a][..0] == [];
  }

  lemma {:induction false} FoldTwo(l: Ledger, a: Act, b: Act)
    ensures Fold(l, [a] + [b]) == Read(Read(l, a), b)
  {
    FoldOne(l, a);
    assert ([a] + [b])[..1] == [a];
  }

  lemma {:induction false} ShowsApply(l: Ledger, s: State, now: nat, out: Outcome, cause: Cause)
    requires !s.contended
    ensures Shows(Read(l, Applying(now, out, cause)), ApplyOf(s, now, out)) && !ApplyOf(s, now, out).contended
  {
  }

  lemma {:induction false} ShowsPass(l: Ledger, s: State, now: nat, proven: bool)
    requires Shows(l, s) && !s.contended && l.pending == s.drifted
    ensures Shows(Read(l, Pass(now, proven)), PassOf(s, proven))
  {
  }

  lemma {:induction false} ShowsDrop(l: Ledger, s: State, now: nat)
    requires Shows(l, s) && !s.verified
    ensures Shows(Read(l, Drop(now)), DropOf(s, now))
  {
  }

  lemma {:induction false} ShowsDrift(l: Ledger, s: State, now: nat)
    requires Shows(l, s) && s.verified && (l.last.Some? ==> l.last.value.dropped.None?)
    ensures Shows(Read(l, Episode(now)), DriftOf(s, now))
  {
    hide Fresh;
  }

  lemma {:induction false} ShowsReapply(l: Ledger, s: State, now: nat, out: Outcome)
    requires Shows(l, s) && !s.contended
    ensures var m := ReapplyOf(s, now, out, []); Shows(Fold(l, m.acts), m.s)
  {
    if now - s.lastApply >= REAPPLY_EVERY {
      var a := Applying(now, out, AfterDrift);
      FoldOne(l, a);
      ShowsApply(l, s, now, out, AfterDrift);
      assert [] + [a] == [a];
      hide Shows, ApplyOf, Read;
    }
  }

  lemma {:induction false} ShowsNewDrift(l: Ledger, s: State, now: nat, out: Outcome)
    requires Shows(l, s) && s.verified && (l.last.Some? ==> l.last.value.dropped.None?)
    ensures var d := DriftOf(s, now);
      var m := if d.contended then Moved(d, [Episode(now)]) else ReapplyOf(d, now, out, [Episode(now)]);
      Shows(Fold(l, m.acts), m.s)
  {
    ShowsDrift(l, s, now);
    hide Shows, DriftOf, Read, Fold;
    var d, e := DriftOf(s, now), Episode(now);
    FoldOne(l, e);
    if !d.contended {
      var a := Applying(now, out, AfterDrift);
      if now - d.lastApply >= REAPPLY_EVERY {
        FoldTwo(l, e, a);
        ShowsApply(Read(l, e), d, now, out, AfterDrift);
      }
      hide ApplyOf;
    }
  }

  lemma {:induction false} ShowsCheck(l: Ledger, s: State, now: nat, a: Answers)
    requires Matches(l, s) && Shows(l, s) && s.intent != "" && !s.contended && s.retryAt == 0
    ensures var m := CheckOf(s, now, a); Shows(Fold(l, m.acts), m.s)
  {
    assert l.last.Some? && l.last.value.dropped.None? && l.pending == s.drifted by {
      hide Shows;
    }
    hide Shows, Matches, Fold, Read, PassOf, DropOf, DriftOf, ApplyOf;
    if a.ok || !s.watched {
      FoldOne(l, Pass(now, a.proven));
      ShowsPass(l, s, now, a.proven);
    } else if !s.verified {
      FoldOne(l, Drop(now));
      ShowsDrop(l, s, now);
    } else if a.reset {
      FoldOne(l, Applying(now, a.second, AfterReset));
      ShowsApply(l, s, now, a.second, AfterReset);
    } else if s.drifted {
      ShowsReapply(l, s, now, a.second);
    } else {
      ShowsNewDrift(l, s, now, a.second);
    }
  }

  lemma {:induction false} ApplyEndsDrift(l: Ledger, s: State, b: Act, out: Outcome, now: nat)
    requires b.Apply?
    ensures !Read(l, b).pending && !ApplyOf(s, now, out).drifted
  {
  }

  lemma {:induction false} ShowsStep(l: Ledger, s: State, now: nat, key: string, a: Answers)
    requires Matches(l, s) && Shows(l, s) && key != "" && (a.reissue ==> a.ok)
    ensures var m := StepOf(s, now, key, a); Shows(Fold(l, m.acts), m.s)
  {
    assert Fold(l, []) == l;
    hide Shows, Matches, Fold, Read, CheckOf, ApplyOf;
    var b := Applying(now, a.first, if s.retryAt != 0 then Retry else if s.status.result == Error then AfterError else Reissue);
    FoldOne(l, b);
    if !s.contended {
      ShowsApply(l, s, now, a.first, b.cause);
    }
    if s.refused {
    } else if key != s.intent {
      FoldTwo(l, Start(now, key), Applying(now, a.first, NewIntent));
      ShowsApply(Read(l, Start(now, key)), StartOf(s, key), now, a.first, NewIntent);
      assert [Start(now, key)] + [Applying(now, a.first, NewIntent)] == [Start(now, key), Applying(now, a.first, NewIntent)];
    } else if s.contended {
    } else if s.retryAt == 0 && s.status.result != Error {
      if a.reissue {
        PassCheck(ApplyOf(s, now, a.first), now, a);
        FoldTwo(l, b, Pass(now, a.proven));
        ApplyEndsDrift(l, s, b, a.first, now);
        ShowsPass(Read(l, b), ApplyOf(s, now, a.first), now, a.proven);
      } else {
        ShowsCheck(l, s, now, a);
      }
    }
  }

  lemma {:induction false} ShowsNext(l: Ledger, s: State, e: Event)
    requires Matches(l, s) && Shows(l, s) && Proper(e) && !e.Exit?
    ensures var m := Next(s, e); Shows(Fold(l, m.acts), m.s)
  {
    if e.Step? {
      ShowsStep(l, s, e.now, e.key, e.answers);
      hide StepOf, Fold;
    } else if e.Release? {
      IntentGone(s, e.now, e.may, e.plannable, e.restore, e.api);
      assert Fold(l, []) == l;
      hide ReleaseOf, Fold;
    }
  }

  lemma {:induction false} FoldConcat(l: Ledger, xs: seq<Act>, ys: seq<Act>)
    ensures Fold(l, xs + ys) == Fold(Fold(l, xs), ys)
    decreases |ys|
  {
    if ys == [] {
      assert xs + ys == xs;
    } else {
      var n := |ys| - 1;
      FoldConcat(l, xs, ys[..n]);
      assert (xs + ys)[..|xs + ys| - 1] == xs + ys[..n];
    }
  }

  /** Over every run the status shows what the component's history says. */
  lemma {:induction false} StatusShowsHistory(s: State, events: seq<Event>)
    requires Started(s) && Orderly(events) && (events == [] || !events[|events| - 1].Exit?)
    ensures var m := Run(s, events); Shows(Fold(Opening(s.changed), m.acts), m.s)
    decreases |events|
  {
    if events != [] {
      var n := |events| - 1;
      var before, m := events[..n], Run(s, events[..n]);
      assert Orderly(before) && Proper(events[n]) && (n > 0 ==> !before[n - 1].Exit?);
      hide Shows, Orderly, Proper, Next, Fold, Matches, AllAllowed;
      StatusShowsHistory(s, before);
      RunsAreAllowed(s, before);
      var l := Fold(Opening(s.changed), m.acts);
      ShowsNext(l, m.s, events[n]);
      FoldConcat(Opening(s.changed), m.acts, Next(m.s, events[n]).acts);
    }
  }

  // --- The status of every run ------------------------------------------------------------

  /** What the history of an intent says. */
  ghost function StatusOf(l: Ledger): Status {
    if l.last.None? then NoStatus else Shown(l.last.value, Crowded(l.episodes), l.pending)
  }

  /** What the whole history says: a hold or a restore says its own, and a status
      that is removed is gone. */
  ghost function Word(l: Ledger, start: Status, acts: seq<Act>): Status {
    if acts == [] then start
    else
      var n := |acts| - 1;
      match acts[n]
      case Held(_, st) => st
      case Restore(_, result, applied) => Status(result, applied)
      case Quiet(_, removed) => if removed then NoStatus else Word(l, start, acts[..n])
      case Start(_, _) => Word(l, start, acts[..n])
      case Yield(_) => Word(l, start, acts[..n])
      case _ => StatusOf(Fold(l, acts))
  }

  lemma {:induction false} WordInIntent(l: Ledger, s: State)
    requires Matches(l, s) && Shows(l, s) && s.intent != ""
    ensures s.status == StatusOf(l)
  {
    hide Crowded, Latest, Sorted;
  }

  predicate OfIntent(a: Act) {
    a.Apply? || a.Pass? || a.Drop? || a.Episode?
  }

  predicate EndsIn(acts: seq<Act>) {
    acts != [] && OfIntent(acts[|acts| - 1])
  }

  lemma {:induction false} ApplyKeepsIntent(s: State, now: nat, out: Outcome)
    ensures ApplyOf(s, now, out).intent == s.intent
  {
  }

  lemma {:induction false} CheckEnds(s: State, now: nat, a: Answers)
    ensures var m := CheckOf(s, now, a);
      (m == Moved(s, []) || EndsIn(m.acts)) && m.s.intent == s.intent
  {
    hide Fresh;
  }

  /** What a step does ends with an act of its intent, or is nothing at all. */
  lemma {:induction false} StepEnds(s: State, now: nat, key: string, a: Answers)
    requires key != ""
    ensures var m := StepOf(s, now, key, a);
      m == Moved(s, []) || (EndsIn(m.acts) && m.s.intent == key)
  {
    ApplyKeepsIntent(s, now, a.first);
    ApplyKeepsIntent(StartOf(s, key), now, a.first);
    hide CheckOf, ApplyOf;
    if key == s.intent {
      CheckEnds(s, now, a);
      CheckEnds(ApplyOf(s, now, a.first), now, a);
    }
  }

  lemma {:induction false} WordAfter(l: Ledger, start: Status, before: seq<Act>, more: seq<Act>)
    requires more != [] && !more[|more| - 1].Quiet? && !more[|more| - 1].Start? && !more[|more| - 1].Yield?
    ensures Word(l, start, before + more) == match more[|more| - 1]
      case Held(_, st) => st
      case Restore(_, result, applied) => Status(result, applied)
      case _ => StatusOf(Fold(l, before + more))
  {
    assert (before + more)[|before + more| - 1] == more[|more| - 1];
  }

  lemma {:induction false} WordQuiet(l: Ledger, start: Status, before: seq<Act>, leaving: seq<Act>, now: nat,
                                     removed: bool)
    requires leaving == [] || (|leaving| == 1 && leaving[0].Yield?)
    ensures Word(l, start, before + (leaving + [Quiet(now, removed)]))
         == if removed then NoStatus else Word(l, start, before)
  {
    var all := before + (leaving + [Quiet(now, removed)]);
    assert all[..|all| - 1] == before + leaving;
    if leaving != [] {
      assert (before + leaving)[..|before|] == before;
    } else {
      assert before + leaving == before;
    }
  }

  lemma {:induction false} WordRelease(l: Ledger, start: Status, acts: seq<Act>, s: State, now: nat, may: bool,
                                       plannable: bool, out: Outcome, api: bool)
    requires s.status == Word(l, start, acts)
    ensures var m := ReleaseOf(s, now, may, plannable, out, api); m.s.status == Word(l, start, acts + m.acts)
  {
    var y := YieldOf(s);
    var leaving := if s.contended then [Yield(now)] else [];
    hide Word;
    if y.changed && may && !y.refused {
      if !plannable || (y.retryAt != 0 && now < y.retryAt) {
        assert acts + [] == acts;
      } else {
        WordAfter(l, start, acts, [] + [Restoring(now, out)]);
      }
    } else {
      WordQuiet(l, start, acts, leaving, now, Removes(y, api));
    }
  }

  lemma {:induction false} WordStep(l: Ledger, start: Status, acts: seq<Act>, s: State, e: Event)
    requires Matches(Fold(l, acts), s) && Shows(Fold(l, acts), s) && Proper(e) && e.now >= Fold(l, acts).clock && e.Step?
    requires s.status == Word(l, start, acts)
    ensures var m := Next(s, e); m.s.status == Word(l, start, acts + m.acts)
  {
    hide Matches, Shows, StepOf, Word, Fold, AllAllowed, StatusOf;
    var m := Next(s, e);
    NextStep(Fold(l, acts), s, e);
    ShowsNext(Fold(l, acts), s, e);
    FoldConcat(l, acts, m.acts);
    StepEnds(s, e.now, e.key, e.answers);
    if m.acts == [] {
      assert acts + [] == acts;
    } else {
      WordInIntent(Fold(l, acts + m.acts), m.s);
      WordAfter(l, start, acts, m.acts);
    }
  }

  lemma {:induction false} WordNext(l: Ledger, start: Status, acts: seq<Act>, s: State, e: Event)
    requires Matches(Fold(l, acts), s) && Shows(Fold(l, acts), s) && Proper(e) && e.now >= Fold(l, acts).clock
    requires s.status == Word(l, start, acts)
    ensures var m := Next(s, e); m.s.status == Word(l, start, acts + m.acts)
  {
    hide Matches, Shows, Word, Fold, ReleaseOf, StepOf;
    match e
    case Step(_, _, _, _) => WordStep(l, start, acts, s, e);
    case Hold(now, st, api) => WordAfter(l, start, acts, [Held(now, st)]);
    case Release(now, may, plannable, out, api) => WordRelease(l, start, acts, s, now, may, plannable, out, api);
    case Exit(now, may, plannable, out, api) =>
      assert acts + [] == acts;
      WordRelease(l, start, acts, s.(retryAt := 0), now, may, plannable, out, api);
  }

  /** Over every run, holds and the exit included, the status is exactly what the
      history says. */
  lemma {:induction false} StatusIsHistory(s: State, events: seq<Event>)
    requires Started(s) && Orderly(events)
    ensures var m := Run(s, events); m.s.status == Word(Opening(s.changed), s.status, m.acts)
    decreases |events|
  {
    if events != [] {
      var n := |events| - 1;
      var before, m := events[..n], Run(s, events[..n]);
      assert Orderly(before) && Proper(events[n]) && (n > 0 ==> !before[n - 1].Exit? && before[n - 1].now <= events[n].now);
      hide Shows, Orderly, Proper, Next, Fold, Matches, AllAllowed, Word;
      StatusIsHistory(s, before);
      StatusShowsHistory(s, before);
      RunsAreAllowed(s, before);
      WordNext(Opening(s.changed), s.status, m.acts, m.s, events[n]);
    }
  }

  /** What a status tells a restarted agent. */
  predicate TellsOfWrite(st: Status) {
    && st.result != Unset && st.result != Disabled && st.result != Restored
    && (st.result == Unsupported ==> st.applied != "")
  }

  /** A status that shows a drift, a dropped write, or an outcome that wrote tells
      of the write; while an intent is acted on, nothing else does. */
  lemma {:induction false} IntentTells(l: Ledger)
    requires l.last.Some?
    ensures TellsOfWrite(StatusOf(l)) <==>
      || Crowded(l.episodes) || l.pending || l.last.value.dropped.Some?
      || TellsOfWrite(Status(l.last.value.result, l.last.value.applied))
  {
    hide Crowded;
  }

  /** So an agent that starts from the last status takes the component for changed
      if and only if the history tells of a write. */
  lemma {:induction false} StatusTellsOfWrites(s: State, events: seq<Event>)
    requires Started(s) && Orderly(events)
    ensures var m := Run(s, events);
      SeedOf(Fresh0, Some(m.s.status)).changed <==> TellsOfWrite(Word(Opening(s.changed), s.status, m.acts))
  {
    StatusIsHistory(s, events);
    hide Run, Word;
  }
}
