/** writeAMDSteps: the writes of every amdgpu device in lockstep, the first of
    each device, then the second, and so on. Overdrive commands are not read
    back as written; the round waits for every device's table instead. */
module AmdSteps {
  import opened Results
  import opened Sysfs

  predicate IsOverdrive(w: Write) {
    w.attr.Overdrive?
  }

  function Overdrives(writes: seq<Write>): seq<Write> {
    if writes == [] then []
    else
      var n := |writes| - 1;
      if IsOverdrive(writes[n]) then Overdrives(writes[..n]) + [writes[n]] else Overdrives(writes[..n])
  }

  function Others(writes: seq<Write>): seq<Write> {
    if writes == [] then []
    else
      var n := |writes| - 1;
      if IsOverdrive(writes[n]) then Others(writes[..n]) else Others(writes[..n]) + [writes[n]]
  }

  /** Write k of each of the first n devices that has one. */
  function RoundOf(steps: seq<seq<Write>>, k: nat, n: nat): seq<Write>
    requires n <= |steps|
  {
    if n == 0 then []
    else if k < |steps[n - 1]| then RoundOf(steps, k, n - 1) + [steps[n - 1][k]]
    else RoundOf(steps, k, n - 1)
  }

  function Round(steps: seq<seq<Write>>, k: nat): seq<Write> {
    RoundOf(steps, k, |steps|)
  }

  function Longest(steps: seq<seq<Write>>): (n: nat)
    ensures forall i :: 0 <= i < |steps| ==> |steps[i]| <= n
    ensures n > 0 ==> exists i :: 0 <= i < |steps| && |steps[i]| == n
  {
    if steps == [] then 0
    else
      var rest := Longest(steps[1..]);
      if |steps[0]| >= rest then |steps[0]| else rest
  }

  // --- What a complete run does ----------------------------------------------

  function TakenIn(round: seq<Write>): seq<Write> {
    Others(round) + Overdrives(round)
  }

  /** What the first k rounds take: each round's other writes, then its
      overdrive commands once the tables have printed. */
  function Taken(steps: seq<seq<Write>>, k: nat): seq<Write> {
    if k == 0 then [] else Taken(steps, k - 1) + TakenIn(Round(steps, k - 1))
  }

  function Expected(steps: seq<seq<Write>>, k: nat): seq<Write> {
    if k == 0 then [] else Expected(steps, k - 1) + Others(Round(steps, k - 1))
  }

  function Issued(steps: seq<seq<Write>>, k: nat): nat {
    if k == 0 then 0 else Issued(steps, k - 1) + |Round(steps, k - 1)|
  }

  ghost function RoundTrace(round: seq<Write>): seq<Event> {
    Wrotes(round) + (if Overdrives(round) == [] then [] else [Settled(Overdrives(round))])
  }

  /** What the first k rounds do to the host, in order. */
  ghost function Trace(steps: seq<seq<Write>>, k: nat): seq<Event> {
    if k == 0 then [] else Trace(steps, k - 1) + RoundTrace(Round(steps, k - 1))
  }

  // --- The loop -------------------------------------------------------------------

  lemma {:induction false} Appended(a: seq<Write>, w: Write)
    ensures Overdrives(a + [w]) == if IsOverdrive(w) then Overdrives(a) + [w] else Overdrives(a)
    ensures Others(a + [w]) == if IsOverdrive(w) then Others(a) else Others(a) + [w]
    ensures Wrotes(a + [w]) == Wrotes(a) + [Wrote(w)]
  {
    assert (a + [w])[..|a|] == a;
  }

  lemma {:induction false} RoundGrows(steps: seq<seq<Write>>, k: nat, i: nat)
    requires i < |steps|
    ensures var before := RoundOf(steps, k, i); var after := RoundOf(steps, k, i + 1);
      if k < |steps[i]| then
        var w := steps[i][k];
        && after == before + [w] && Wrotes(after) == Wrotes(before) + [Wrote(w)]
        && (if IsOverdrive(w) then Overdrives(after) == Overdrives(before) + [w] && Others(after) == Others(before)
            else Overdrives(after) == Overdrives(before) && Others(after) == Others(before) + [w])
      else after == before
  {
    hide Overdrives, Others, Wrotes;
    if k < |steps[i]| {
      Appended(RoundOf(steps, k, i), steps[i][k]);
    }
  }

  lemma {:induction false} RoundPrefix(steps: seq<seq<Write>>, k: nat, i: nat, n: nat)
    requires i <= n <= |steps|
    ensures RoundOf(steps, k, i) <= RoundOf(steps, k, n)
    ensures Wrotes(RoundOf(steps, k, i)) <= Wrotes(RoundOf(steps, k, n))
    ensures Others(RoundOf(steps, k, i)) <= Others(RoundOf(steps, k, n))
  {
    hide Overdrives, Others, Wrotes, RoundOf;
    if i < n {
      RoundPrefix(steps, k, i, n - 1);
      RoundGrows(steps, k, n - 1);
    }
  }

  lemma {:induction false} TracePrefix(steps: seq<seq<Write>>, k: nat, n: nat)
    requires k <= n
    ensures Trace(steps, k) <= Trace(steps, n) && Taken(steps, k) <= Taken(steps, n) && Expected(steps, k) <= Expected(steps, n)
  {
    hide RoundTrace, TakenIn, Others, Round;
    if k < n { TracePrefix(steps, k, n - 1); }
  }

  lemma {:induction false} RoundEmpty(steps: seq<seq<Write>>, k: nat, n: nat)
    requires n <= |steps|
    ensures RoundOf(steps, k, n) == [] <==> forall i :: 0 <= i < n ==> k >= |steps[i]|
  {
    if n > 0 { RoundEmpty(steps, k, n - 1); }
  }

  /** Partway through round k: everything done so far is the start of what a
      complete run does. */
  lemma {:induction false} PartialRound(steps: seq<seq<Write>>, k: nat, done: seq<Event>, others: seq<Write>)
    requires k < Longest(steps)
    requires done <= Wrotes(Round(steps, k)) && others <= Others(Round(steps, k))
    ensures var n := Longest(steps);
      && Trace(steps, k) + done <= Trace(steps, n)
      && Taken(steps, k) + others <= Taken(steps, n)
      && Expected(steps, k) + others <= Expected(steps, n)
  {
    hide RoundOf, Overdrives, Others, Wrotes;
    TracePrefix(steps, k + 1, Longest(steps));
    var round := Round(steps, k);
    assert done <= RoundTrace(round) && others <= TakenIn(round);
    Prefixes(Trace(steps, k), done, RoundTrace(round));
    Prefixes(Taken(steps, k), others, TakenIn(round));
    Prefixes(Expected(steps, k), others, Others(round));
  }

  lemma {:induction false} Prefixes<T>(a: seq<T>, b: seq<T>, c: seq<T>)
    requires b <= c
    ensures a + b <= a + c
  {
    assert c == b + c[|b|..];
    assert a + c == (a + b) + c[|b|..];
  }

  lemma {:induction false} NothingYet(steps: seq<seq<Write>>, k: nat)
    ensures RoundOf(steps, k, 0) == [] && Overdrives([]) == [] && Others([]) == [] && Wrotes([]) == []
  {}

  // --- What the events of a run say ------------------------------------------------

  /** The writes issued, in order. */
  ghost function WritesIn(events: seq<Event>): seq<Write> {
    if events == [] then []
    else
      var n := |events| - 1;
      if events[n].Wrote? then WritesIn(events[..n]) + [events[n].w] else WritesIn(events[..n])
  }

  /** The overdrive commands whose tables printed again. */
  ghost function SettledIn(events: seq<Event>): seq<Write> {
    if events == [] then []
    else
      var n := |events| - 1;
      if events[n].Settled? then SettledIn(events[..n]) + events[n].commands else SettledIn(events[..n])
  }

  lemma {:induction false} EventsAppend(a: seq<Event>, e: Event)
    ensures WritesIn(a + [e]) == WritesIn(a) + (if e.Wrote? then [e.w] else [])
    ensures SettledIn(a + [e]) == SettledIn(a) + (if e.Settled? then e.commands else [])
  {
    assert (a + [e])[..|a|] == a;
  }

  lemma {:induction false} EventsConcat(a: seq<Event>, b: seq<Event>)
    ensures WritesIn(a + b) == WritesIn(a) + WritesIn(b) && SettledIn(a + b) == SettledIn(a) + SettledIn(b)
    decreases |b|
  {
    NoEvents();
    hide WritesIn, SettledIn;
    if b == [] {
      assert a + b == a;
    } else {
      var n := |b| - 1;
      EventsConcat(a, b[..n]);
      EventsAppend(a + b[..n], b[n]);
      EventsAppend(b[..n], b[n]);
      assert b[..n] + [b[n]] == b && a + b[..n] + [b[n]] == a + b;
    }
  }

  lemma {:induction false} OneEvent(e: Event)
    ensures WritesIn([e]) == (if e.Wrote? then [e.w] else []) && SettledIn([e]) == (if e.Settled? then e.commands else [])
  {
    assert [e][..0] == [];
  }

  lemma {:induction false} WrotesAre(writes: seq<Write>)
    ensures WritesIn(Wrotes(writes)) == writes && SettledIn(Wrotes(writes)) == []
  {
    if writes != [] {
      var n := |writes| - 1;
      WrotesAre(writes[..n]);
      assert Wrotes(writes)[..n] == Wrotes(writes[..n]);
    }
  }

  lemma {:induction false} TraceMeans(steps: seq<seq<Write>>, k: nat)
    ensures Others(WritesIn(Trace(steps, k))) == Expected(steps, k) && |WritesIn(Trace(steps, k))| == Issued(steps, k)
    ensures multiset(Taken(steps, k)) == multiset(Expected(steps, k)) + multiset(SettledIn(Trace(steps, k)))
  {
    hide Round, Wrotes, WritesIn, SettledIn, Others, Overdrives;
    NothingOnBus("");
    NoEvents();
    if k > 0 {
      var round, before := Round(steps, k - 1), Trace(steps, k - 1);
      TraceMeans(steps, k - 1);
      RoundTraceMeans(round);
      EventsConcat(before, RoundTrace(round));
      OthersConcat(WritesIn(before), round);
      hide RoundTrace;
    }
  }

  lemma {:induction false} NoEvents()
    ensures WritesIn([]) == [] && SettledIn([]) == []
  {
  }

  lemma {:induction false} RoundTraceMeans(round: seq<Write>)
    ensures WritesIn(RoundTrace(round)) == round && SettledIn(RoundTrace(round)) == Overdrives(round)
  {
    hide Wrotes, WritesIn, SettledIn, Overdrives;
    WrotesAre(round);
    NoEvents();
    if Overdrives(round) == [] {
      assert Wrotes(round) + [] == Wrotes(round);
    } else {
      OneEvent(Settled(Overdrives(round)));
      EventsConcat(Wrotes(round), [Settled(Overdrives(round))]);
    }
  }

  /** A write that went well: no error, and read back unless it is an overdrive
      command. */
  predicate Fine(e: Event, s: Seen) {
    e.Wrote? ==> s.error.None? && (IsOverdrive(e.w) || Took(e.w, s))
  }

  ghost predicate AllFine(done: seq<Event>, news: seq<Seen>) {
    |news| == |done| && forall i :: 0 <= i < |done| ==> Fine(done[i], news[i])
  }

  lemma {:induction false} FineConcat(a: seq<Event>, b: seq<Seen>, c: seq<Event>, d: seq<Seen>)
    requires AllFine(a, b) && AllFine(c, d)
    ensures AllFine(a + c, b + d)
  {
  }

  /** How a run ends that fails. All went well before the last write. If that one
      did not, the failure is what became of it; else the wait after it ran out.
      expected is every write of the run that is no overdrive command and did not
      fail, in order, and wrote counts the writes without an error. */
  ghost predicate Stopped(done: seq<Event>, news: seq<Seen>, expected: seq<Write>, wrote: nat, failure: Result) {
    && |news| == |done| > 0
    && var n := |done| - 1;
    && AllFine(done[..n], news[..n]) && done[n].Wrote?
    && failure == (if Fine(done[n], news[n]) then Error else ResultOf(news[n]))
    && expected == Others(WritesIn(if Fine(done[n], news[n]) then done else done[..n]))
    && wrote == |WritesIn(done)| - (if news[n].error.Some? then 1 else 0)
  }

  lemma {:induction false} WrotesPrefix(writes: seq<Write>, n: nat)
    requires n <= |writes|
    ensures Wrotes(writes)[..n] == Wrotes(writes[..n]) && |Wrotes(writes)| == |writes|
    ensures forall i :: 0 <= i < |writes| ==> Wrotes(writes)[i] == Wrote(writes[i])
  {
  }

  lemma {:induction false} FinePrefix(done: seq<Event>, news: seq<Seen>, n: nat)
    requires AllFine(done, news) && n <= |done|
    ensures AllFine(done[..n], news[..n])
  {
  }

  lemma {:induction false} StoppedAt(round: seq<Write>, news: seq<Seen>)
    requires round != [] && |news| == |round| && AllFine(Wrotes(round[..|round| - 1]), news[..|round| - 1])
    ensures var n := |round| - 1; var fine := Fine(Wrote(round[n]), news[n]);
      Stopped(Wrotes(round), news, Others(if fine then round else round[..n]), if news[n].error.Some? then n else n + 1,
              if fine then Error else ResultOf(news[n]))
  {
    var n := |round| - 1;
    WrotesPrefix(round, n);
    WrotesAre(round);
    WrotesAre(round[..n]);
    hide Others, Fine, ResultOf, IsOverdrive, WritesIn, SettledIn, Wrotes, AllFine;
  }

  lemma {:induction false} StoppedByWrite(round: seq<Write>, w: Write, news: seq<Seen>, s: Seen)
    requires AllFine(Wrotes(round), news) && !Fine(Wrote(w), s)
    ensures Stopped(Wrotes(round) + [Wrote(w)], news + [s], Others(round), if s.error.None? then |round| + 1 else |round|, ResultOf(s))
  {
    var all, seen, n := round + [w], news + [s], |round|;
    Appended(round, w);
    WrotesPrefix(round, n);
    assert |news| == n;
    hide Others, Overdrives, Fine, Stopped, Wrotes, AllFine, ResultOf;
    assert all[..n] == round && seen[..n] == news && all[n] == w && seen[n] == s && |all| - 1 == n;
    StoppedAt(all, seen);
  }

  lemma {:induction false} StoppedByWait(round: seq<Write>, news: seq<Seen>)
    requires AllFine(Wrotes(round), news) && round != []
    ensures Stopped(Wrotes(round), news, Others(round), |round|, Error)
  {
    var n := |round| - 1;
    WrotesPrefix(round, n);
    FinePrefix(Wrotes(round), news, n);
    assert |news| == n + 1 && Fine(Wrotes(round)[n], news[n]) && news[n].error.None?;
    hide Others, Fine, Stopped, Wrotes, AllFine;
    StoppedAt(round, news);
  }

  /** The same after k whole rounds. */
  lemma {:induction false} StoppedLater(steps: seq<seq<Write>>, k: nat, news: seq<Seen>, part: seq<Event>,
                                        more: seq<Seen>, others: seq<Write>, wrote: nat, failure: Result)
    requires AllFine(Trace(steps, k), news) && Stopped(part, more, others, wrote, failure)
    ensures Stopped(Trace(steps, k) + part, news + more, Expected(steps, k) + others, Issued(steps, k) + wrote, failure)
  {
    var before, n := Trace(steps, k), |part| - 1;
    TraceMeans(steps, k);
    hide Trace, Expected, Issued, Others, WritesIn, Fine, ResultOf;
    EventsConcat(before, part);
    EventsConcat(before, part[..n]);
    OthersConcat(WritesIn(before), WritesIn(part));
    OthersConcat(WritesIn(before), WritesIn(part[..n]));
    FineConcat(before, news, part[..n], more[..n]);
    assert (before + part)[..|before| + n] == before + part[..n];
    assert (news + more)[..|before| + n] == news + more[..n];
  }

  /** What is taken when a run fails in round k. */
  lemma {:induction false} TakenSoFar(steps: seq<seq<Write>>, k: nat, part: seq<Event>, others: seq<Write>)
    requires part <= Wrotes(Round(steps, k))
    ensures multiset(Taken(steps, k) + others)
         == multiset(Expected(steps, k) + others) + multiset(SettledIn(Trace(steps, k) + part))
  {
    TraceMeans(steps, k);
    EventsConcat(Trace(steps, k), part);
    OnlyWrites(part);
  }

  lemma {:induction false} OnlyWrites(part: seq<Event>)
    requires forall i :: 0 <= i < |part| ==> part[i].Wrote?
    ensures SettledIn(part) == []
  {
    if part != [] {
      OnlyWrites(part[..|part| - 1]);
    }
  }

  lemma {:induction false} OneTold(w: Write, news: seq<Seen>, i: nat, failure: Option<Result>)
    requires Tells(news, [w], i, failure) && (if failure.None? then i == 1 else i < 1) && !IsOverdrive(w)
    ensures |news| == 1 && (failure.None? <==> Fine(Wrote(w), news[0])) && (failure.Some? ==> failure.value == ResultOf(news[0]))
    ensures Wrotes([w][..1]) == [Wrote(w)] && [w][..0] == []
  {
  }

  lemma {:induction false} OneFine(done: seq<Event>, news: seq<Seen>, e: Event, s: Seen)
    requires AllFine(done, news) && Fine(e, s)
    ensures AllFine(done + [e], news + [s])
  {
  }

  // --- The loop ---------------------------------------------------------------------

  /** One write of a round: an overdrive command is not read back. */
  method WriteStep(host: Host, w: Write) returns (wrote: nat, failure: Option<Result>, ghost s: Seen)
    requires host.Valid()
    modifies host
    ensures host.Valid()
    ensures host.events == old(host.events) + [Wrote(w)] && host.seen == old(host.seen) + [s]
    ensures failure == (if Fine(Wrote(w), s) then None else Some(ResultOf(s)))
    ensures wrote == (if s.error.None? then 1 else 0) && (failure.None? ==> wrote == 1)
  {
    if IsOverdrive(w) {
      var error := host.WriteAttr(w);
      s := Seen(error, host.contents);
      if error.Some? {
        return 0, error, s;
      }
      return 1, None, s;
    }
    ghost var news;
    var t;
    wrote, t, failure, news := host.WriteVerified([w]);
    OneTold(w, news, |t|, failure);
    s := news[0];
  }

  /** Round k: the k-th write of every device that has one. */
  method RunRound(host: Host, steps: seq<seq<Write>>, k: nat)
    returns (more: bool, od: seq<Write>, others: seq<Write>, wrote: nat, failure: Option<Result>,
             ghost done: seq<Event>, ghost news: seq<Seen>)
    requires host.Valid()
    modifies host
    ensures host.Valid()
    ensures host.events == old(host.events) + done && host.seen == old(host.seen) + news
    ensures failure.None? ==>
      && done == Wrotes(Round(steps, k)) && AllFine(done, news)
      && od == Overdrives(Round(steps, k)) && others == Others(Round(steps, k)) && wrote == |Round(steps, k)|
      && (more <==> Round(steps, k) != [])
    ensures failure.Some? ==>
      && Round(steps, k) != []
      && done <= Wrotes(Round(steps, k)) && others <= Others(Round(steps, k))
      && Stopped(done, news, others, wrote, failure.value)
  {
    hide RoundOf, Overdrives, Others, Wrotes, IsOverdrive, AllFine, Fine, Stopped;
    NothingYet(steps, k);
    NothingFine();
    more, od, others, wrote, failure, done, news := false, [], [], 0, None, [], [];
    for i := 0 to |steps|
      invariant host.Valid() && failure == None
      invariant more <==> RoundOf(steps, k, i) != []
      invariant host.events == old(host.events) + done && host.seen == old(host.seen) + news
      invariant done == Wrotes(RoundOf(steps, k, i)) && AllFine(done, news)
      invariant od == Overdrives(RoundOf(steps, k, i)) && others == Others(RoundOf(steps, k, i))
      invariant wrote == |RoundOf(steps, k, i)|
    {
      RoundGrows(steps, k, i);
      if k >= |steps[i]| {
        continue;
      }
      RoundPrefix(steps, k, i + 1, |steps|);
      RoundPrefix(steps, k, i, |steps|);
      more := true;
      var w, n := steps[i][k], 0;
      ghost var s;
      n, failure, s := WriteStep(host, w);
      wrote := wrote + n;
      if failure.Some? {
        StoppedByWrite(RoundOf(steps, k, i), w, news, s);
        done, news := done + [Wrote(w)], news + [s];
        return;
      }
      OneFine(done, news, Wrote(w), s);
      done, news := done + [Wrote(w)], news + [s];
      if IsOverdrive(w) {
        od := od + [w];
      } else {
        others := others + [w];
      }
    }
  }

  lemma {:induction false} NothingFine()
    ensures AllFine([], [])
  {
  }

  method WriteAmdSteps(host: Host, steps: seq<seq<Write>>)
    returns (expected: seq<Write>, taken: seq<Write>, wrote: nat, failure: Option<Result>,
             ghost done: seq<Event>, ghost news: seq<Seen>)
    requires host.Valid()
    modifies host
    ensures host.Valid()
    ensures host.events == old(host.events) + done && host.seen == old(host.seen) + news
    ensures failure.None? ==>
      && done == Trace(steps, Longest(steps)) && AllFine(done, news)
      && taken == Taken(steps, Longest(steps)) && expected == Expected(steps, Longest(steps))
      && wrote == Issued(steps, Longest(steps))
    ensures failure.Some? ==>
      && done <= Trace(steps, Longest(steps))
      && taken <= Taken(steps, Longest(steps)) && expected <= Expected(steps, Longest(steps))
      && Stopped(done, news, expected, wrote, failure.value)
      && multiset(taken) == multiset(expected) + multiset(SettledIn(done))
  {
    hide Round, Overdrives, Others, Wrotes, Longest, Trace, Taken, Expected, Issued, AllFine, Stopped, SettledIn;
    NoRounds(steps);
    NothingFine();
    expected, taken, wrote, failure, done, news := [], [], 0, None, [], [];
    var k := 0;
    ghost var rounds := Longest(steps);
    while true
      invariant 0 <= k <= rounds && host.Valid()
      invariant host.events == old(host.events) + done && host.seen == old(host.seen) + news
      invariant done == Trace(steps, k) && AllFine(done, news)
      invariant taken == Taken(steps, k) && expected == Expected(steps, k) && wrote == Issued(steps, k)
      decreases rounds - k
    {
      RoundPastEnd(steps, k);
      var more, od, others, n;
      ghost var part, seen;
      more, od, others, n, failure, part, seen := RunRound(host, steps, k);
      wrote := wrote + n;
      expected := expected + others;
      taken := taken + others;
      if failure.Some? {
        Failing(steps, k, news, part, seen, others, n, failure.value);
        done, news := done + part, news + seen;
        return;
      }
      if !more {
        NothingMore(steps, k);
        NoMoreSeen(part, seen);
        return;
      }
      FineConcat(done, news, part, seen);
      ghost var was := news;
      done, news := done + part, news + seen;
      if |od| > 0 {
        var ok := host.WaitReadback(od);
        if !ok {
          StoppedByWait(Round(steps, k), seen);
          Failing(steps, k, was, part, seen, others, n, Error);
          failure := Some(Error);
          return;
        }
        taken := taken + od;
        SettledFine(done, news, od, host.contents);
        done, news := done + [Settled(od)], news + [Seen(None, host.contents)];
      }
      RoundDone(steps, k);
      k := k + 1;
    }
  }

  lemma {:induction false} SettledFine(done: seq<Event>, news: seq<Seen>, od: seq<Write>, contents: Contents)
    requires AllFine(done, news)
    ensures AllFine(done + [Settled(od)], news + [Seen(None, contents)])
  {
  }

  lemma {:induction false} NoMoreSeen(part: seq<Event>, seen: seq<Seen>)
    requires AllFine(part, seen) && part == []
    ensures seen == [] && forall s: seq<Seen> :: s + [] == s
  {
  }

  /** A run that fails in round k: what it did is the start of a complete run, and
      says what it took. */
  lemma {:induction false} Failing(steps: seq<seq<Write>>, k: nat, news: seq<Seen>, part: seq<Event>, more: seq<Seen>,
                                   others: seq<Write>, wrote: nat, failure: Result)
    requires k < Longest(steps) && AllFine(Trace(steps, k), news) && Stopped(part, more, others, wrote, failure)
    requires part <= Wrotes(Round(steps, k)) && others <= Others(Round(steps, k))
    ensures var n, done := Longest(steps), Trace(steps, k) + part;
      var expected, taken := Expected(steps, k) + others, Taken(steps, k) + others;
      && done <= Trace(steps, n) && taken <= Taken(steps, n) && expected <= Expected(steps, n)
      && Stopped(done, news + more, expected, Issued(steps, k) + wrote, failure)
      && multiset(taken) == multiset(expected) + multiset(SettledIn(done))
  {
    hide Trace, Taken, Expected, Issued, Longest, Stopped, AllFine, SettledIn, Round, Others, Wrotes;
    PartialRound(steps, k, part, others);
    StoppedLater(steps, k, news, part, more, others, wrote, failure);
    TakenSoFar(steps, k, part, others);
  }

  lemma {:induction false} NothingMore(steps: seq<seq<Write>>, k: nat)
    requires Round(steps, k) == []
    ensures Others(Round(steps, k)) == [] && Wrotes(Round(steps, k)) == []
    ensures forall s: seq<Write> :: s + [] == s
    ensures forall s: seq<Event> :: s + [] == s
  {}

  lemma {:induction false} RoundDone(steps: seq<seq<Write>>, k: nat)
    ensures var round := Round(steps, k);
      && Trace(steps, k + 1) == (if Overdrives(round) == [] then Trace(steps, k) + Wrotes(round)
            else Trace(steps, k) + Wrotes(round) + [Settled(Overdrives(round))])
      && Taken(steps, k + 1) == Taken(steps, k) + Others(round) + Overdrives(round)
      && Expected(steps, k + 1) == Expected(steps, k) + Others(round)
      && Issued(steps, k + 1) == Issued(steps, k) + |round|
  {
    hide Round, Overdrives, Others, Wrotes;
    var round := Round(steps, k);
    assert Wrotes(round) + [] == Wrotes(round);
  }

  lemma {:induction false} NoRounds(steps: seq<seq<Write>>)
    ensures Trace(steps, 0) == [] && Taken(steps, 0) == [] && Expected(steps, 0) == [] && Issued(steps, 0) == 0
  {}

  lemma {:induction false} RoundPastEnd(steps: seq<seq<Write>>, k: nat)
    ensures Round(steps, k) == [] <==> k >= Longest(steps)
  {
    RoundEmpty(steps, k, |steps|);
  }

  // --- What a complete run amounts to ---------------------------------------------

  lemma {:induction false} SplitsInTwo(writes: seq<Write>)
    ensures multiset(Others(writes) + Overdrives(writes)) == multiset(writes)
  {
    NothingOnBus("");
    hide Others, Overdrives, Wrotes;
    if writes != [] {
      var n := |writes| - 1;
      SplitsInTwo(writes[..n]);
      Appended(writes[..n], writes[n]);
      assert writes == writes[..n] + [writes[n]];
    }
  }

  lemma {:induction false} TakenInPermutes(round: seq<Write>)
    ensures multiset(TakenIn(round)) == multiset(round)
  {
    SplitsInTwo(round);
  }

  function UpTo(writes: seq<Write>, k: nat): seq<Write> {
    if k < |writes| then writes[..k] else writes
  }

  /** The first k writes of each of the first n devices. */
  ghost function FirstWrites(steps: seq<seq<Write>>, k: nat, n: nat): multiset<Write>
    requires n <= |steps|
  {
    if n == 0 then multiset{} else FirstWrites(steps, k, n - 1) + multiset(UpTo(steps[n - 1], k))
  }

  /** Every write of the first n devices. */
  ghost function AllWrites(steps: seq<seq<Write>>, n: nat): multiset<Write>
    requires n <= |steps|
  {
    if n == 0 then multiset{} else AllWrites(steps, n - 1) + multiset(steps[n - 1])
  }

  lemma {:induction false} FirstWritesGrow(steps: seq<seq<Write>>, k: nat, n: nat)
    requires n <= |steps|
    ensures FirstWrites(steps, k + 1, n) == FirstWrites(steps, k, n) + multiset(RoundOf(steps, k, n))
  {
    hide UpTo;
    if n > 0 {
      FirstWritesGrow(steps, k, n - 1);
      OneMore(steps[n - 1], k);
    }
  }

  lemma {:induction false} OneMore(writes: seq<Write>, k: nat)
    ensures multiset(UpTo(writes, k + 1))
         == if k < |writes| then multiset(UpTo(writes, k)) + multiset{writes[k]} else multiset(UpTo(writes, k))
  {
    if k < |writes| {
      assert UpTo(writes, k + 1) == UpTo(writes, k) + [writes[k]];
    }
  }

  lemma {:induction false} NoFirstWrites(steps: seq<seq<Write>>, n: nat)
    requires n <= |steps|
    ensures FirstWrites(steps, 0, n) == multiset{}
  {
    if n > 0 { NoFirstWrites(steps, n - 1); }
  }

  lemma {:induction false} FirstWritesAll(steps: seq<seq<Write>>, k: nat, n: nat)
    requires n <= |steps| && forall i :: 0 <= i < |steps| ==> |steps[i]| <= k
    ensures FirstWrites(steps, k, n) == AllWrites(steps, n)
  {
    if n > 0 { FirstWritesAll(steps, k, n - 1); }
  }

  lemma {:induction false} TakenIsFirstWrites(steps: seq<seq<Write>>, k: nat)
    ensures multiset(Taken(steps, k)) == FirstWrites(steps, k, |steps|)
  {
    hide TakenIn, RoundOf, FirstWrites;
    if k == 0 {
      NoFirstWrites(steps, |steps|);
    } else {
      TakenIsFirstWrites(steps, k - 1);
      TakenInPermutes(Round(steps, k - 1));
      FirstWritesGrow(steps, k - 1, |steps|);
    }
  }

  /** A run without a failure takes every write of every device, once. */
  lemma {:induction false} TakenPermutesSteps(steps: seq<seq<Write>>)
    ensures multiset(Taken(steps, Longest(steps))) == AllWrites(steps, |steps|)
  {
    TakenIsFirstWrites(steps, Longest(steps));
    FirstWritesAll(steps, Longest(steps), |steps|);
  }

  /** expected is taken without the overdrive commands. */
  lemma {:induction false} ExpectedIsTakenOthers(steps: seq<seq<Write>>, k: nat)
    ensures Expected(steps, k) == Others(Taken(steps, k))
  {
    hide Round, TakenIn, Others;
    NothingOnBus("");
    if k > 0 {
      var round := Round(steps, k - 1);
      ExpectedIsTakenOthers(steps, k - 1);
      TakenInOthers(round);
      OthersConcat(Taken(steps, k - 1), TakenIn(round));
    }
  }

  lemma {:induction false} TakenInOthers(round: seq<Write>)
    ensures Others(TakenIn(round)) == Others(round)
  {
    hide Others, Overdrives;
    OthersConcat(Others(round), Overdrives(round));
    OthersTwice(round);
  }

  lemma {:induction false} OthersConcat(a: seq<Write>, b: seq<Write>)
    ensures Others(a + b) == Others(a) + Others(b)
  {
    NothingOnBus("");
    hide Others, Overdrives, Wrotes;
    if b == [] {
      assert a + b == a;
    } else {
      var n := |b| - 1;
      OthersConcat(a, b[..n]);
      Appended(a + b[..n], b[n]);
      Appended(b[..n], b[n]);
      assert b[..n] + [b[n]] == b && a + b[..n] + [b[n]] == a + b;
    }
  }

  lemma {:induction false} OthersTwice(writes: seq<Write>)
    ensures Others(Others(writes)) == Others(writes) && Others(Overdrives(writes)) == []
  {
    hide Others, Overdrives;
    NothingOnBus("");
    if writes != [] {
      var n := |writes| - 1;
      var a, w := writes[..n], writes[n];
      assert writes == a + [w];
      OthersTwice(a);
      Appended(a, w);
      Appended(Others(a), w);
      Appended(Overdrives(a), w);
    }
  }

  // --- One device's writes ----------------------------------------------------------

  function BusOf(w: Write): string {
    match w.attr
    case Level(bus) => bus
    case Overdrive(bus) => bus
    case _ => ""
  }

  /** Device i writes its own files only, and no two devices share a bus. */
  ghost predicate OwnBuses(steps: seq<seq<Write>>, buses: seq<string>) {
    && |buses| == |steps|
    && (forall i, j :: 0 <= i < j < |buses| ==> buses[i] != buses[j])
    && (forall i, k :: 0 <= i < |steps| && 0 <= k < |steps[i]| ==> BusOf(steps[i][k]) == buses[i])
  }

  function OnBus(writes: seq<Write>, bus: string): seq<Write> {
    if writes == [] then []
    else
      var n := |writes| - 1;
      if BusOf(writes[n]) == bus then OnBus(writes[..n], bus) + [writes[n]] else OnBus(writes[..n], bus)
  }

  lemma {:induction false} OnBusConcat(a: seq<Write>, b: seq<Write>, bus: string)
    ensures OnBus(a + b, bus) == OnBus(a, bus) + OnBus(b, bus)
  {
    NothingOnBus(bus);
    hide OnBus, Others, Overdrives, BusOf;
    if b == [] {
      assert a + b == a;
    } else {
      var n := |b| - 1;
      OnBusConcat(a, b[..n], bus);
      AppendedOnBus(a + b[..n], b[n], bus);
      AppendedOnBus(b[..n], b[n], bus);
      assert b[..n] + [b[n]] == b && a + b[..n] + [b[n]] == a + b;
    }
  }

  lemma {:induction false} RoundOnBus(steps: seq<seq<Write>>, buses: seq<string>, d: nat, k: nat, n: nat)
    requires OwnBuses(steps, buses) && d < |steps| && n <= |steps|
    ensures OnBus(RoundOf(steps, k, n), buses[d]) == if d < n && k < |steps[d]| then [steps[d][k]] else []
  {
    hide OnBus, BusOf, RoundOf;
    if n == 0 {
      NothingOnBus(buses[d]);
      NothingYet(steps, k);
    } else {
      RoundOnBus(steps, buses, d, k, n - 1);
      RoundGrows(steps, k, n - 1);
      if k < |steps[n - 1]| {
        AppendedOnBus(RoundOf(steps, k, n - 1), steps[n - 1][k], buses[d]);
        assert BusOf(steps[n - 1][k]) == buses[n - 1];
        assert n - 1 != d ==> buses[n - 1] != buses[d];
        assert [] + [steps[n - 1][k]] == [steps[n - 1][k]];
      }
    }
  }

  lemma {:induction false} AppendedOnBus(a: seq<Write>, w: Write, bus: string)
    ensures OnBus(a + [w], bus) == if BusOf(w) == bus then OnBus(a, bus) + [w] else OnBus(a, bus)
  {
    assert (a + [w])[..|a|] == a;
  }

  lemma {:induction false} NothingOnBus(bus: string)
    ensures OnBus([], bus) == [] && Others([]) == [] && Overdrives([]) == []
  {}

  /** The writes of one bus in a round, by kind. */
  lemma {:induction false} KindsOnBus(round: seq<Write>, bus: string)
    ensures OnBus(Others(round), bus) == Others(OnBus(round, bus))
    ensures OnBus(Overdrives(round), bus) == Overdrives(OnBus(round, bus))
  {
    hide OnBus, Others, Overdrives, BusOf;
    NothingOnBus(bus);
    if round != [] {
      var n := |round| - 1;
      var a, w := round[..n], round[n];
      assert round == a + [w];
      KindsOnBus(a, bus);
      Appended(a, w);
      Appended(OnBus(a, bus), w);
      AppendedOnBus(a, w, bus);
      AppendedOnBus(Others(a), w, bus);
      AppendedOnBus(Overdrives(a), w, bus);
    }
  }

  /** Of at most one write on a bus, reordering a round keeps that one. */
  lemma {:induction false} ReorderedOnBus(round: seq<Write>, bus: string)
    requires |OnBus(round, bus)| <= 1
    ensures OnBus(TakenIn(round), bus) == OnBus(round, bus)
  {
    KindsOnBus(round, bus);
    OnBusConcat(Others(round), Overdrives(round), bus);
    OneKind(OnBus(round, bus));
  }

  lemma {:induction false} OneKind(writes: seq<Write>)
    requires |writes| <= 1
    ensures Others(writes) + Overdrives(writes) == writes
  {
    hide Others, Overdrives;
    NothingOnBus("");
    if writes != [] {
      Appended([], writes[0]);
      assert writes == [] + [writes[0]];
    }
  }

  lemma {:induction false} TakenOnBus(steps: seq<seq<Write>>, buses: seq<string>, d: nat, k: nat)
    requires OwnBuses(steps, buses) && d < |steps|
    ensures OnBus(Taken(steps, k), buses[d]) == if k < |steps[d]| then steps[d][..k] else steps[d]
  {
    hide OnBus, TakenIn, RoundOf;
    if k == 0 {
      NothingOnBus(buses[d]);
    } else {
      TakenOnBus(steps, buses, d, k - 1);
      RoundOnBus(steps, buses, d, k - 1, |steps|);
      ReorderedOnBus(Round(steps, k - 1), buses[d]);
      OnBusConcat(Taken(steps, k - 1), TakenIn(Round(steps, k - 1)), buses[d]);
    }
  }

  /** A run without a failure takes each device's writes in their order. */
  lemma {:induction false} TakenKeepsDeviceOrder(steps: seq<seq<Write>>, buses: seq<string>, d: nat)
    requires OwnBuses(steps, buses) && d < |steps|
    ensures OnBus(Taken(steps, Longest(steps)), buses[d]) == steps[d]
  {
    TakenOnBus(steps, buses, d, Longest(steps));
  }

  /** Lockstep: whatever part of a run has happened, anything after the writes
      of round k comes after the tables of round k's overdrive commands have
      printed again. */
  lemma {:induction false} SettledBetweenRounds(steps: seq<seq<Write>>, k: nat, part: seq<Event>)
    requires k < Longest(steps) && part <= Trace(steps, Longest(steps))
    requires Overdrives(Round(steps, k)) != []
    requires |part| > |Trace(steps, k)| + |Round(steps, k)|
    ensures part[|Trace(steps, k)| + |Round(steps, k)|] == Settled(Overdrives(Round(steps, k)))
  {
    hide Round, Overdrives, Wrotes, Trace, Longest;
    TracePrefix(steps, k + 1, Longest(steps));
    TraceStep(steps, k);
  }

  lemma {:induction false} TraceStep(steps: seq<seq<Write>>, k: nat)
    requires Overdrives(Round(steps, k)) != []
    ensures |Trace(steps, k + 1)| == |Trace(steps, k)| + |Round(steps, k)| + 1
    ensures Trace(steps, k + 1)[|Trace(steps, k)| + |Round(steps, k)|] == Settled(Overdrives(Round(steps, k)))
  {
    hide Round, Overdrives;
    assert |Wrotes(Round(steps, k))| == |Round(steps, k)|;
  }
}
