/** The evidence that an NVIDIA lock holds. A clock lock has no getter, so the
    agent samples the clocks of busy GPUs and calls a preset applied only after
    enough good samples in a row on every GPU it locked. */
module NvidiaEvidence {
  import opened Results
  import opened Nvidia

  const SAMPLES := 3
  const TOLERANCE := 1.02

  /** One GPU's row of the clock query; a row that could not be read is left out. */
  datatype Sample = Sample(sm: real, mem: real, busy: bool)

  predicate Locked(r: Record) {
    r.gpu.Some? || r.mem.Some?
  }

  /** Only the ceiling of a graphics lock says something about a busy GPU; a
      memory lock is checked at both ends. */
  predicate Within(r: Record, s: Sample) {
    && (r.gpu.Some? ==> s.sm <= r.gpu.value.hi as real * TOLERANCE)
    && (r.mem.Some? ==> s.mem <= r.mem.value.hi as real * TOLERANCE && s.mem >= r.mem.value.lo as real / TOLERANCE)
  }

  /** One clock query, and the locks it was judged by. */
  datatype Query = Query(nv: map<string, Record>, samples: map<string, Sample>)

  /** What a query says of one GPU: nothing when the GPU is unlocked, idle or
      missing, else whether its clocks sit within its locks. */
  function Judge(q: Query, bus: string): Option<bool> {
    var r := RecordOf(q.nv, bus);
    if bus in q.samples && q.samples[bus].busy && Locked(r) then Some(Within(r, q.samples[bus])) else None
  }

  /** The verdicts a history holds on one GPU, oldest first. */
  function Verdicts(history: seq<Query>, bus: string): seq<bool> {
    if history == [] then []
    else
      var n := |history| - 1;
      match Judge(history[n], bus)
      case None => Verdicts(history[..n], bus)
      case Some(good) => Verdicts(history[..n], bus) + [good]
  }

  /** The last three verdicts on a GPU are good. */
  predicate Proven(history: seq<Query>, bus: string) {
    var v := Verdicts(history, bus);
    |v| >= SAMPLES && forall i :: |v| - SAMPLES <= i < |v| ==> v[i]
  }

  predicate AllProven(nv: map<string, Record>, history: seq<Query>) {
    forall bus :: bus in nv && Locked(nv[bus]) ==> Proven(history, bus)
  }

  // --- The counter kept instead of the history ---------------------------------

  function Tally(count: nat, verdict: Option<bool>): nat {
    match verdict
    case None => count
    case Some(good) => if good then count + 1 else 0
  }

  /** The counter after a history: what nvGood holds. */
  function Streak(history: seq<Query>, bus: string): nat {
    if history == [] then 0
    else var n := |history| - 1; Tally(Streak(history[..n], bus), Judge(history[n], bus))
  }

  lemma {:induction false} StreakIsTrailing(history: seq<Query>, bus: string)
    ensures var v := Verdicts(history, bus); var k := Streak(history, bus);
      && k <= |v|
      && (forall i :: |v| - k <= i < |v| ==> v[i])
      && (k < |v| ==> !v[|v| - k - 1])
  {
    if history != [] {
      StreakIsTrailing(history[..|history| - 1], bus);
    }
  }

  /** Three in the counter are exactly three good verdicts in a row at the end. */
  lemma {:induction false} StreakProves(history: seq<Query>, bus: string)
    ensures Streak(history, bus) >= SAMPLES <==> Proven(history, bus)
    ensures Proven(history, bus) <==>
      var v := Verdicts(history, bus); |v| >= 3 && v[|v| - 1] && v[|v| - 2] && v[|v| - 3]
  {
    StreakIsTrailing(history, bus);
    var v, k := Verdicts(history, bus), Streak(history, bus);
    if k < SAMPLES && k < |v| {
      assert !v[|v| - k - 1];
    }
  }

  lemma {:induction false} StreakStep(history: seq<Query>, q: Query, bus: string)
    ensures Streak(history + [q], bus) == Tally(Streak(history, bus), Judge(q, bus))
  {
    assert (history + [q])[..|history|] == history;
  }

  /** The GPU is locked, and was seen busy. */
  predicate Counts(q: Query, bus: string) {
    var r := RecordOf(q.nv, bus);
    bus in q.samples && q.samples[bus].busy && (r.gpu.Some? || r.mem.Some?)
  }

  /** A sample is good when no clock is more than two per cent above its lock, and
      the memory clock no more than as much below. */
  predicate Good(q: Query, bus: string)
    requires Counts(q, bus)
  {
    var r, s := RecordOf(q.nv, bus), q.samples[bus];
    && (r.gpu.Some? ==> 50.0 * s.sm <= 51.0 * r.gpu.value.hi as real)
    && (r.mem.Some? ==> 50.0 * s.mem <= 51.0 * r.mem.value.hi as real && 51.0 * s.mem >= 50.0 * r.mem.value.lo as real)
  }

  /** What one more query does to the count of a GPU. */
  lemma {:induction false} SampleCounts(history: seq<Query>, q: Query, bus: string)
    ensures Streak(history + [q], bus) ==
      if !Counts(q, bus) then Streak(history, bus) else if Good(q, bus) then Streak(history, bus) + 1 else 0
  {
    StreakStep(history, q, bus);
    if Counts(q, bus) {
      WithinMeans(RecordOf(q.nv, bus), q.samples[bus]);
    }
  }

  lemma {:induction false} WithinMeans(r: Record, s: Sample)
    ensures Within(r, s) <==>
      && (r.gpu.Some? ==> 50.0 * s.sm <= 51.0 * r.gpu.value.hi as real)
      && (r.mem.Some? ==> 50.0 * s.mem <= 51.0 * r.mem.value.hi as real && 51.0 * s.mem >= 50.0 * r.mem.value.lo as real)
  {
  }

  /** A query that counts nothing on a GPU, wherever it comes, neither adds a
      sample nor resets the count. */
  lemma {:induction false} UncountedInvisible(before: seq<Query>, q: Query, after: seq<Query>, bus: string)
    requires !Counts(q, bus)
    ensures Streak(before + [q] + after, bus) == Streak(before + after, bus)
    ensures Proven(before + [q] + after, bus) <==> Proven(before + after, bus)
    decreases |after|
  {
    if after == [] {
      StreakStep(before, q, bus);
      assert before + [q] + [] == before + [q] && before + [] == before;
    } else {
      var n := |after| - 1;
      UncountedInvisible(before, q, after[..n], bus);
      StreakStep(before + [q] + after[..n], after[n], bus);
      StreakStep(before + after[..n], after[n], bus);
      assert before + [q] + after == before + [q] + after[..n] + [after[n]];
      assert before + after == before + after[..n] + [after[n]];
    }
    StreakProves(before + [q] + after, bus);
    StreakProves(before + after, bus);
  }

  function CountOf(good: map<string, nat>, bus: string): nat {
    if bus in good then good[bus] else 0
  }

  // --- The evidence as the agent keeps it -----------------------------------------

  class Evidence {
    var nv: map<string, Record>
    var good: map<string, nat>
    var status: Result
    /** The queries judged since the intent started. */
    ghost var history: seq<Query>

    /** The counters are the history's, and applied is never claimed of a locked
        GPU without proof. */
    ghost predicate Valid()
      reads this
    {
      && (forall bus {:trigger CountOf(good, bus)} {:trigger Streak(history, bus)} ::
            CountOf(good, bus) == Streak(history, bus))
      && (status == Applied ==> AllProven(nv, history))
    }

    /** startIntent on a status that is not yet this intent's, then the apply. */
    method StartIntent(planned: Result, nv: map<string, Record>)
      modifies this
      ensures Valid() && history == [] && this.nv == nv
      ensures planned != Applied ==> status == planned
      ensures planned == Applied ==>
        status == if exists bus :: bus in nv && Locked(nv[bus]) then AppliedUnverified else Applied
    {
      good, history, status := map[], [], Unset;
      Conclude(planned, nv);
      assert forall bus :: !Proven([], bus);
    }

    /** The end of applyNvidia, first or repeated, with the record its commands
        left. */
    method Conclude(planned: Result, nv: map<string, Record>)
      requires forall bus {:trigger CountOf(good, bus)} {:trigger Streak(history, bus)} ::
        CountOf(good, bus) == Streak(history, bus)
      modifies this
      ensures Valid() && history == old(history) && this.nv == nv
      ensures status == if planned == Applied && !AllProven(nv, history) then AppliedUnverified else planned
    {
      this.nv := nv;
      var verified := Verified();
      status := if planned == Applied && !verified then AppliedUnverified else planned;
    }

    /** nvidiaVerified. A map is walked in an arbitrary order. */
    method Verified() returns (ok: bool)
      requires forall bus {:trigger CountOf(good, bus)} {:trigger Streak(history, bus)} ::
        CountOf(good, bus) == Streak(history, bus)
      ensures ok <==> AllProven(nv, history)
    {
      var left := nv.Keys;
      while left != {}
        invariant left <= nv.Keys
        invariant forall bus :: bus in nv && bus !in left && Locked(nv[bus]) ==> Proven(history, bus)
        decreases |left|
      {
        var bus :| bus in left;
        StreakProves(history, bus);
        if Locked(nv[bus]) && CountOf(good, bus) < SAMPLES {
          return false;
        }
        left := left - {bus};
      }
      ok := true;
    }

    /** The sampling loop of verifyNvidia. */
    method CountAll(samples: map<string, Sample>)
      modifies this`good
      ensures forall bus {:trigger CountOf(good, bus)} ::
        CountOf(good, bus) == Tally(CountOf(old(good), bus), Judge(Query(nv, samples), bus))
    {
      var left := nv.Keys;
      while left != {}
        invariant left <= nv.Keys
        invariant forall bus {:trigger CountOf(good, bus)} ::
          CountOf(good, bus)
          == if bus in left then CountOf(old(good), bus) else Tally(CountOf(old(good), bus), Judge(Query(nv, samples), bus))
        decreases |left|
      {
        var bus :| bus in left;
        left := left - {bus};
        var r := nv[bus];
        if bus !in samples || !samples[bus].busy || !Locked(r) {
          continue;
        }
        ghost var was := good;
        good := good[bus := if Within(r, samples[bus]) then CountOf(good, bus) + 1 else 0];
        assert forall b :: b != bus ==> CountOf(good, b) == CountOf(was, b);
      }
    }

    /** verifyNvidia: counts the good samples of every locked GPU, and calls the
        preset applied once all have enough. */
    method Verify(samples: map<string, Sample>)
      requires Valid()
      modifies this
      ensures Valid() && nv == old(nv)
      ensures old(status) != AppliedUnverified ==> status == old(status) && history == old(history)
      ensures old(status) == AppliedUnverified ==>
        && history == old(history) + [Query(nv, samples)]
        && status == if AllProven(nv, history) then Applied else AppliedUnverified
    {
      if status != AppliedUnverified {
        return;
      }
      ghost var q := Query(nv, samples);
      CountAll(samples);
      history := history + [q];
      forall bus {:trigger CountOf(good, bus)} {:trigger Streak(history, bus)}
        ensures CountOf(good, bus) == Streak(history, bus)
      {
        StreakStep(old(history), q, bus);
      }
      var verified := Verified();
      if verified {
        status := Applied;
      }
    }
  }
}
