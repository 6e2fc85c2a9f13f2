/** Sysfs attributes, the driver behind them, and writeVerified: every write is
    read back before the next.

    The driver is adversarial: an arbitrary function of the time, the write and
    the contents, which may report an error, drop the write, or change other
    attributes. */
module Sysfs {
  import opened Results

  datatype Attr =
    | Governor(policy: int) | Preference(policy: int) | PolicyBoost(policy: int)
    | GlobalBoost | NoTurbo
    | Level(bus: string) | Overdrive(bus: string)

  datatype Write = Write(attr: Attr, value: string)

  type Contents = map<Attr, string>

  /** What reading an attribute gives: empty when it cannot be read. */
  function Read(m: Contents, a: Attr): string {
    if a in m then m[a] else ""
  }

  /** error is what write(2)'s error is sorted into, None when it reported none. */
  datatype Reaction = Reaction(error: Option<WriteError>, after: Contents)

  type Driver = (nat, Write, Contents) -> Reaction

  datatype HostState = HostState(contents: Contents, time: nat)

  function After(driver: Driver, s: HostState, w: Write): HostState {
    HostState(driver(s.time, w, s.contents).after, s.time + 1)
  }

  /** What a run of writes did: how many reported no error, those read back as
      written, the result of the one that failed, and the host after it. */
  datatype Run = Run(wrote: nat, taken: seq<Write>, failure: Option<Result>, end: HostState)

  function Verify(driver: Driver, s: HostState, writes: seq<Write>): Run
    decreases |writes|
  {
    if writes == [] then Run(0, [], None, s)
    else
      var w := writes[0];
      var next := After(driver, s, w);
      var error := driver(s.time, w, s.contents).error;
      if error.Some? then Run(0, [], error, next)
      else if Read(next.contents, w.attr) != w.value then Run(1, [], Some(NotApplied), next)
      else Prepend(w, Verify(driver, next, writes[1..]))
  }

  /** The writes a run issues: those taken, and the one that failed. */
  function IssuedBy(driver: Driver, s: HostState, writes: seq<Write>): seq<Write>
    decreases |writes|
  {
    if writes == [] then []
    else
      var w := writes[0];
      var next := After(driver, s, w);
      if driver(s.time, w, s.contents).error.Some? || Read(next.contents, w.attr) != w.value then [w]
      else [w] + IssuedBy(driver, next, writes[1..])
  }

  function Prepend(w: Write, r: Run): Run {
    Run(r.wrote + 1, [w] + r.taken, r.failure, r.end)
  }

  /** The writes whose attribute does not already read the value. */
  function Differing(m: Contents, writes: seq<Write>): seq<Write> {
    if writes == [] then []
    else
      var n := |writes| - 1;
      var w := writes[n];
      Differing(m, writes[..n]) + (if Read(m, w.attr) != w.value then [w] else [])
  }

  /** What the agent did to the host: a write issued, or a wait that ended with
      every overdrive table printed again after these commands. */
  datatype Event = Wrote(w: Write) | Settled(commands: seq<Write>)

  /** What an event left: the error the driver reported, and the contents. */
  datatype Seen = Seen(error: Option<WriteError>, contents: Contents)

  /** The driver reported no error, and the write reads back. */
  predicate Took(w: Write, s: Seen) {
    s.error.None? && Read(s.contents, w.attr) == w.value
  }

  /** The result of a write that was not taken: the driver's error, or none. */
  function ResultOf(s: Seen): Result {
    if s.error.Some? then s.error.value else NotApplied
  }

  /** The first i writes were taken; a failure is what became of the next. */
  ghost predicate Tells(news: seq<Seen>, writes: seq<Write>, i: nat, failure: Option<Result>) {
    && i <= |writes| && |news| == (if failure.None? then i else i + 1)
    && (forall j :: 0 <= j < i ==> Took(writes[j], news[j]))
    && (failure.Some? ==> i < |writes| && !Took(writes[i], news[i]) && failure.value == ResultOf(news[i]))
  }

  ghost function Wrotes(writes: seq<Write>): seq<Event> {
    seq(|writes|, i requires 0 <= i < |writes| => Wrote(writes[i]))
  }

  /** No attribute of these commands still reads its command. */
  ghost predicate PrintedAgain(commands: seq<Write>, m: Contents) {
    forall i :: 0 <= i < |commands| ==> Read(m, commands[i].attr) != commands[i].value
  }

  /** How many of the commands still read back as written. */
  function Pending(commands: seq<Write>, m: Contents): nat {
    if commands == [] then 0
    else
      var n := |commands| - 1;
      Pending(commands[..n], m) + (if Read(m, commands[n].attr) == commands[n].value then 1 else 0)
  }

  lemma {:induction false} NonePending(commands: seq<Write>, m: Contents)
    ensures Pending(commands, m) == 0 <==> PrintedAgain(commands, m)
  {
    if commands != [] {
      var n := |commands| - 1;
      NonePending(commands[..n], m);
      assert commands == commands[..n] + [commands[n]];
      if PrintedAgain(commands, m) {
        assert Read(m, commands[n].attr) != commands[n].value;
      }
    }
  }

  // --- The host as the agent uses it ---------------------------------------

  class Host {
    var contents: Contents
    var time: nat
    const driver: Driver
    /** What the polls of a wait find after the first, until its deadline. */
    const polls: (nat, seq<Write>, Contents) -> seq<Contents>
    /** What was done, and what each of it left. */
    ghost var events: seq<Event>
    ghost var seen: seq<Seen>

    /** A wait that is over left no table unprinted. */
    ghost predicate Valid()
      reads this
    {
      && |seen| == |events|
      && forall i :: 0 <= i < |events| && events[i].Settled? ==> PrintedAgain(events[i].commands, seen[i].contents)
    }

    ghost function State(): HostState
      reads this
    {
      HostState(contents, time)
    }

    constructor (contents: Contents, driver: Driver, polls: (nat, seq<Write>, Contents) -> seq<Contents>)
      ensures Valid()
      ensures this.contents == contents && this.driver == driver && this.polls == polls && time == 0 && events == []
    {
      this.contents, this.driver, this.polls, time, events, seen := contents, driver, polls, 0, [], [];
    }

    method WriteAttr(w: Write) returns (error: Option<WriteError>)
      requires Valid()
      modifies this
      ensures Valid()
      ensures State() == After(driver, old(State()), w)
      ensures error == driver(old(time), w, old(contents)).error
      ensures events == old(events) + [Wrote(w)] && seen == old(seen) + [Seen(error, contents)]
    {
      var r := driver(time, w, contents);
      error, contents, time := r.error, r.after, time + 1;
      events, seen := events + [Wrote(w)], seen + [Seen(error, contents)];
    }

    /** waitODReadback: waits until no overdrive file reads its command. */
    method WaitReadback(commands: seq<Write>) returns (ok: bool)
      requires Valid()
      modifies this
      ensures Valid()
      ensures ok ==>
        && PrintedAgain(commands, contents)
        && events == old(events) + [Settled(commands)] && seen == old(seen) + [Seen(None, contents)]
      ensures !ok ==>
        && events == old(events) && seen == old(seen)
        && !PrintedAgain(commands, old(contents))
        && forall m :: m in polls(old(time), commands, old(contents)) ==> !PrintedAgain(commands, m)
    {
      var later := polls(time, commands, contents);
      time := time + 1;
      for n := 0 to |later| + 1
        invariant Valid() && events == old(events) && seen == old(seen)
        invariant n > 0 ==> !PrintedAgain(commands, old(contents))
        invariant n == 0 ==> contents == old(contents)
        invariant forall k :: 0 <= k < n - 1 ==> !PrintedAgain(commands, later[k])
      {
        if n > 0 {
          contents := later[n - 1];
        }
        var pending := CountPending(commands);
        NonePending(commands, contents);
        if pending == 0 {
          events, seen := events + [Settled(commands)], seen + [Seen(None, contents)];
          return true;
        }
      }
      ok := false;
    }

    method CountPending(commands: seq<Write>) returns (pending: nat)
      ensures pending == Pending(commands, contents)
    {
      pending := 0;
      for i := 0 to |commands|
        invariant pending == Pending(commands[..i], contents)
      {
        assert commands[..i + 1][..i] == commands[..i];
        if ReadAttr(commands[i].attr) == commands[i].value {
          pending := pending + 1;
        }
      }
      assert commands[..|commands|] == commands;
    }

    function ReadAttr(a: Attr): string
      reads this
    {
      Read(contents, a)
    }

    method DifferingWrites(writes: seq<Write>) returns (out: seq<Write>)
      ensures out == Differing(contents, writes)
    {
      out := [];
      for i := 0 to |writes|
        invariant out == Differing(contents, writes[..i])
      {
        assert writes[..i + 1][..i] == writes[..i];
        if ReadAttr(writes[i].attr) != writes[i].value {
          out := out + [writes[i]];
        }
      }
      assert writes[..|writes|] == writes;
    }

    /** One write, and its readback when the driver reports no error. */
    method WriteAndRead(w: Write) returns (wrote: nat, failure: Option<Result>, ghost s: Seen)
      requires Valid()
      modifies this
      ensures Valid() && State() == After(driver, old(State()), w)
      ensures s == Seen(driver(old(time), w, old(contents)).error, contents)
      ensures events == old(events) + [Wrote(w)] && seen == old(seen) + [s]
      ensures wrote == (if s.error.None? then 1 else 0) && (failure.None? ==> wrote == 1)
      ensures failure == if Took(w, s) then None else Some(ResultOf(s))
    {
      var error := WriteAttr(w);
      s := Seen(error, contents);
      if error.Some? {
        return 0, error, s;
      }
      wrote, failure := 1, None;
      if ReadAttr(w.attr) != w.value {
        failure := Some(NotApplied);
      }
    }

    /** Writes in order, each read back before the next, and stops at the
        first the driver refuses or does not take. */
    method WriteVerified(writes: seq<Write>)
      returns (wrote: nat, taken: seq<Write>, failure: Option<Result>, ghost news: seq<Seen>)
      requires Valid()
      modifies this
      ensures Valid()
      ensures Run(wrote, taken, failure, State()) == Verify(driver, old(State()), writes)
      ensures if failure.None? then |taken| == |writes| else |taken| < |writes|
      ensures events == old(events) + Wrotes(writes[..if failure.None? then |taken| else |taken| + 1])
      ensures seen == old(seen) + news && Tells(news, writes, |taken|, failure)
    {
      wrote, taken, failure, news := 0, [], None, [];
      ghost var start := State();
      assert Wrotes(writes[..0]) == [] && Continues(driver, start, writes, 0, start) by {
        assert writes[0..] == writes;
      }
      assert Tells([], writes, 0, None);
      hide Wrotes, PrintedAgain, Took, ResultOf, Tells, Continues, Verify, After;
      for i := 0 to |writes|
        invariant Valid() && wrote == i && taken == writes[..i] && failure == None
        invariant Continues(driver, start, writes, i, State())
        invariant events == old(events) + Wrotes(writes[..i])
        invariant seen == old(seen) + news && Tells(news, writes, i, None)
      {
        ContinueStep(driver, start, writes, i, State());
        WrotesStep(writes, i);
        var n;
        ghost var s;
        n, failure, s := WriteAndRead(writes[i]);
        TellsMore(news, writes, i, s);
        news := news + [s];
        wrote := wrote + n;
        if failure.Some? {
          return;
        }
        taken := taken + [writes[i]];
      }
      ContinueEnd(driver, start, writes, State());
      assert writes[..|writes|] == writes;
    }
  }

  /** A run of the writes from start has taken the first i and got to s. */
  ghost predicate Continues(driver: Driver, start: HostState, writes: seq<Write>, i: nat, s: HostState)
    requires i <= |writes|
  {
    var r := Verify(driver, s, writes[i..]);
    Verify(driver, start, writes) == Run(i + r.wrote, writes[..i] + r.taken, r.failure, r.end)
  }

  lemma {:induction false} ContinueStep(driver: Driver, start: HostState, writes: seq<Write>, i: nat, s: HostState)
    requires i < |writes| && Continues(driver, start, writes, i, s)
    ensures var w, next := writes[i], After(driver, s, writes[i]); var left := Seen(driver(s.time, w, s.contents).error, next.contents);
      if Took(w, left) then Continues(driver, start, writes, i + 1, next)
      else Verify(driver, start, writes) == Run(if left.error.Some? then i else i + 1, writes[..i], Some(ResultOf(left)), next)
  {
    var next := After(driver, s, writes[i]);
    var r := Verify(driver, next, writes[i + 1..]);
    assert writes[i..][1..] == writes[i + 1..] && writes[..i] + [] == writes[..i];
    assert writes[..i] + ([writes[i]] + r.taken) == writes[..i + 1] + r.taken;
  }

  lemma {:induction false} ContinueEnd(driver: Driver, start: HostState, writes: seq<Write>, s: HostState)
    requires Continues(driver, start, writes, |writes|, s)
    ensures Verify(driver, start, writes) == Run(|writes|, writes, None, s)
  {
    assert writes[|writes|..] == [] && writes[..|writes|] + [] == writes;
  }

  lemma {:induction false} WrotesStep(writes: seq<Write>, i: nat)
    requires i < |writes|
    ensures Wrotes(writes[..i + 1]) == Wrotes(writes[..i]) + [Wrote(writes[i])]
  {
  }

  lemma {:induction false} TellsMore(news: seq<Seen>, writes: seq<Write>, i: nat, s: Seen)
    requires i < |writes| && Tells(news, writes, i, None)
    ensures Tells(news + [s], writes, if Took(writes[i], s) then i + 1 else i, if Took(writes[i], s) then None else Some(ResultOf(s)))
  {
  }

  // --- What a run leaves behind ----------------------------------------------

  /** A run has taken a prefix of the writes: all of them, or all before the
      one that failed, which counts as written when only its readback failed. */
  lemma {:induction false} VerifyTakesPrefix(driver: Driver, s: HostState, writes: seq<Write>)
    ensures var r := Verify(driver, s, writes);
      && r.taken <= writes
      && (r.failure.None? <==> r.taken == writes)
      && (r.failure.None? ==> r.wrote == |writes|)
      && (r.failure.Some? ==> r.wrote == |r.taken| + (if DriverFailed(driver, s, writes, |r.taken|) then 0 else 1))
    decreases |writes|
  {
    if writes != [] {
      var next := After(driver, s, writes[0]);
      VerifyTakesPrefix(driver, next, writes[1..]);
      assert writes == [writes[0]] + writes[1..];
    }
  }

  /** What a run issues is what it took and the write that failed. */
  lemma {:induction false} IssuedPrefix(driver: Driver, s: HostState, writes: seq<Write>)
    ensures var r := Verify(driver, s, writes);
      && (if r.failure.None? then |r.taken| == |writes| else |r.taken| < |writes|)
      && IssuedBy(driver, s, writes) == writes[..if r.failure.None? then |r.taken| else |r.taken| + 1]
    decreases |writes|
  {
    if writes != [] {
      IssuedPrefix(driver, After(driver, s, writes[0]), writes[1..]);
      assert writes == [writes[0]] + writes[1..];
    }
  }

  /** A run fails with an error's result or as not applied: never as restored. */
  lemma {:induction false} FailuresAreFailures(driver: Driver, s: HostState, writes: seq<Write>)
    ensures var f := Verify(driver, s, writes).failure;
      f.Some? ==> f.value in {Refused, Unsupported, Error, NotApplied}
    decreases |writes|
  {
    if writes != [] {
      FailuresAreFailures(driver, After(driver, s, writes[0]), writes[1..]);
    }
  }

  /** The driver reported an error for write k, the ones before it taken. */
  ghost predicate DriverFailed(driver: Driver, s: HostState, writes: seq<Write>, k: nat)
    decreases |writes|
  {
    k < |writes| && (
      if k == 0 then driver(s.time, writes[0], s.contents).error.Some?
      else DriverFailed(driver, After(driver, s, writes[0]), writes[1..], k - 1))
  }

  /** A write of any of these attributes leaves those alone. */
  ghost predicate Leaves(driver: Driver, of: Attr -> bool, those: Attr -> bool) {
    forall t, w: Write, m, a {:trigger driver(t, w, m), those(a)} ::
      of(w.attr) && those(a) && a != w.attr ==> Read(driver(t, w, m).after, a) == Read(m, a)
  }

  lemma {:induction false} VerifyLeaves(driver: Driver, of: Attr -> bool, those: Attr -> bool, s: HostState,
                                        writes: seq<Write>, a: Attr)
    requires Leaves(driver, of, those) && those(a)
    requires forall i :: 0 <= i < |writes| ==> of(writes[i].attr) && writes[i].attr != a
    ensures Read(Verify(driver, s, writes).end.contents, a) == Read(s.contents, a)
    decreases |writes|
  {
    if writes != [] {
      VerifyLeaves(driver, of, those, After(driver, s, writes[0]), writes[1..], a);
    }
  }

  /** No two writes give one attribute different values. */
  ghost predicate Consistent(writes: seq<Write>) {
    forall i, j :: 0 <= i < |writes| && 0 <= j < |writes| && writes[i].attr == writes[j].attr ==> writes[i] == writes[j]
  }

  /** When the writes leave each other's attributes alone, a run without a
      failure ends with every attribute at its value. */
  lemma {:induction false} VerifyHolds(driver: Driver, of: Attr -> bool, s: HostState, writes: seq<Write>, a: Attr,
                                       v: string)
    requires Leaves(driver, of, of) && of(a)
    requires forall i :: 0 <= i < |writes| ==> of(writes[i].attr) && (writes[i].attr == a ==> writes[i].value == v)
    requires Verify(driver, s, writes).failure.None?
    requires Read(s.contents, a) == v || Write(a, v) in writes
    ensures Read(Verify(driver, s, writes).end.contents, a) == v
    decreases |writes|
  {
    if writes != [] {
      var w := writes[0];
      assert writes == [w] + writes[1..];
      if Read(After(driver, s, w).contents, a) == v || Write(a, v) in writes[1..] {
        VerifyHolds(driver, of, After(driver, s, w), writes[1..], a, v);
      }
    }
  }

  lemma {:induction false} DifferingIn(m: Contents, writes: seq<Write>, w: Write)
    ensures w in Differing(m, writes) <==> w in writes && Read(m, w.attr) != w.value
  {
    if writes != [] {
      var n := |writes| - 1;
      DifferingIn(m, writes[..n], w);
      assert writes == writes[..n] + [writes[n]];
    }
  }

  /** One phase of a restore: only what differs is written, and without a
      failure everything planned ends at its value. */
  lemma {:induction false} PhaseRestores(driver: Driver, of: Attr -> bool, s: HostState, plan: seq<Write>, w: Write)
    requires Leaves(driver, of, of) && Consistent(plan)
    requires forall i :: 0 <= i < |plan| ==> of(plan[i].attr)
    requires Verify(driver, s, Differing(s.contents, plan)).failure.None?
    requires w in plan
    ensures Read(Verify(driver, s, Differing(s.contents, plan)).end.contents, w.attr) == w.value
  {
    var writes := Differing(s.contents, plan);
    forall i | 0 <= i < |writes| ensures of(writes[i].attr) && (writes[i].attr == w.attr ==> writes[i].value == w.value) {
      DifferingIn(s.contents, plan, writes[i]);
    }
    DifferingIn(s.contents, plan, w);
    VerifyHolds(driver, of, s, writes, w.attr, w.value);
  }
}
