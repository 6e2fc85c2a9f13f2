/** When the agent writes NodeHardware, and when the controller manager calls it
    stale: the write that skips unchanged state must keep the condition quiet.
    Times are nanoseconds. */
module Publishing {
  import opened Clock
  import opened Results

  const REWRITE_INTERVAL := 5 * MINUTE
  const STALE_AFTER := 3 * REWRITE_INTERVAL

  datatype LastWrite = LastWrite(payload: string, at: int)

  /** Whether a payload is written: it differs from the last one, or that is old. */
  predicate Due(last: Option<LastWrite>, payload: string, now: int) {
    !(last.Some? && last.value.payload == payload && now - last.value.at < REWRITE_INTERVAL)
  }

  class LastWrites {
    var writes: map<string, LastWrite>

    function Last(key: string): Option<LastWrite>
      reads this
    {
      if key in writes then Some(writes[key]) else None
    }

    method ShouldWrite(key: string, payload: string, now: int) returns (due: bool)
      modifies this
      ensures due == Due(old(Last(key)), payload, now)
      ensures due ==> Last(key) == Some(LastWrite(payload, now))
      ensures !due ==> Last(key) == old(Last(key))
      ensures forall k :: k != key ==> Last(k) == old(Last(k))
    {
      if key in writes {
        var lw := writes[key];
        if lw.payload == payload && now - lw.at < REWRITE_INTERVAL {
          return false;
        }
      }
      writes := writes[key := LastWrite(payload, now)];
      due := true;
    }
  }

  /** updatedAt as RFC 3339 shows it, in whole seconds. */
  function WholeSeconds(t: int): int {
    t - t % SECOND
  }

  class NodeHardware {
    var updatedAt: Option<int>

    /** The end of upsertNodeHardwareStatus: payload is the fingerprint of the
        status without its timestamp, lands when that is taken. */
    method Upsert(writes: LastWrites, key: string, payload: string, now: int, lands: int) returns (wrote: bool)
      modifies this, writes
      ensures wrote == Due(old(writes.Last(key)), payload, now)
      ensures wrote ==> updatedAt == Some(WholeSeconds(lands)) && writes.Last(key) == Some(LastWrite(payload, now))
      ensures !wrote ==> updatedAt == old(updatedAt) && writes.Last(key) == old(writes.Last(key))
    {
      wrote := writes.ShouldWrite(key, payload, now);
      if wrote {
        updatedAt := Some(WholeSeconds(lands));
      }
    }
  }

  // --- Passes of one agent over one object ------------------------------------------------

  /** One reconcile: the time it asks whether to write, the fingerprint of the
      status without its timestamp, and the later time the write lands with. */
  datatype Pass = Pass(now: int, payload: string, lands: int)

  /** What the agent remembers and what the object's updatedAt says. */
  datatype Published = Published(last: LastWrite, updatedAt: int)

  function LastOf(p: Option<Published>): Option<LastWrite> {
    if p.Some? then Some(p.value.last) else None
  }

  function Run(passes: seq<Pass>): Option<Published> {
    if passes == [] then None
    else
      var before, p := Run(passes[..|passes| - 1]), passes[|passes| - 1];
      if Due(LastOf(before), p.payload, p.now) then Some(Published(LastWrite(p.payload, p.now), WholeSeconds(p.lands)))
      else before
  }

  predicate Writes(passes: seq<Pass>, i: nat)
    requires i < |passes|
  {
    Due(LastOf(Run(passes[..i])), passes[i].payload, passes[i].now)
  }

  /** From the start of a pass to where the write of the next one lands is at most
      interval. */
  ghost predicate Spaced(passes: seq<Pass>, interval: int) {
    && (forall i :: 0 <= i < |passes| ==> passes[i].now <= passes[i].lands)
    && (forall i :: 0 < i < |passes| ==> passes[i - 1].lands <= passes[i].now && passes[i].lands - passes[i - 1].now <= interval)
  }

  lemma {:induction false} RunStep(passes: seq<Pass>, i: nat)
    requires i < |passes|
    ensures Run(passes[..i + 1]) ==
      if Writes(passes, i) then Some(Published(LastWrite(passes[i].payload, passes[i].now), WholeSeconds(passes[i].lands)))
      else Run(passes[..i])
  {
    assert passes[..i + 1][..i] == passes[..i];
  }

  /** What was published last is less than the rewrite interval old, at every pass. */
  lemma {:induction false} AlwaysRecent(passes: seq<Pass>, n: nat)
    requires 0 < n <= |passes|
    ensures var r := Run(passes[..n]);
      && r.Some? && passes[n - 1].now - r.value.last.at < REWRITE_INTERVAL
      && (exists i :: 0 <= i < n && passes[i].now == r.value.last.at && r.value.updatedAt == WholeSeconds(passes[i].lands))
    decreases n
  {
    assert passes[..0] == [];
    RunStep(passes, n - 1);
    if Writes(passes, n - 1) {
      assert passes[n - 1].now == Run(passes[..n]).value.last.at;
    } else {
      AlwaysRecent(passes, n - 1);
    }
  }

  /** The write of pass i is what is remembered until the next write. */
  lemma {:induction false} Remembered(passes: seq<Pass>, i: nat, n: nat)
    requires i < n <= |passes| && Writes(passes, i) && forall k :: i < k < n ==> !Writes(passes, k)
    ensures LastOf(Run(passes[..n])) == Some(LastWrite(passes[i].payload, passes[i].now))
    decreases n
  {
    RunStep(passes, n - 1);
    if i < n - 1 {
      Remembered(passes, i, n - 1);
    }
  }

  /** Consecutive writes are less than the rewrite interval plus one pass apart,
      and unchanged state is written no sooner than the interval. */
  lemma {:induction false} WriteSpacing(passes: seq<Pass>, interval: int, i: nat, j: nat)
    requires Spaced(passes, interval)
    requires i < j < |passes| && Writes(passes, i) && Writes(passes, j) && forall k :: i < k < j ==> !Writes(passes, k)
    ensures passes[j].now - passes[i].now < REWRITE_INTERVAL + interval
    ensures passes[i].payload == passes[j].payload ==> passes[j].now - passes[i].now >= REWRITE_INTERVAL
  {
    Remembered(passes, i, j);
    AlwaysRecent(passes, j);
  }

  /** Pass i is the last write before pass j. */
  ghost predicate LastBefore(passes: seq<Pass>, i: nat, j: nat)
    requires j <= |passes|
  {
    i < j && Writes(passes, i) && forall k :: i < k < j ==> !Writes(passes, k)
  }

  /** What was not written since is what was written last. */
  lemma {:induction false} SamePayload(passes: seq<Pass>, i: nat, j: nat)
    requires j < |passes| && LastBefore(passes, i, j + 1)
    ensures passes[j].payload == passes[i].payload
  {
    if i < j {
      assert !Writes(passes, j);
      Remembered(passes, i, j);
      SamePayload(passes, i, j - 1);
    }
  }

  /** The first pass writes. A later one writes if and only if its payload differs
      from the one before, or the last write is five minutes old. */
  lemma {:induction false} WritesExactly(passes: seq<Pass>, i: nat, j: nat)
    requires j < |passes| && LastBefore(passes, i, j)
    ensures Writes(passes, 0)
    ensures Writes(passes, j) <==>
      passes[j].payload != passes[j - 1].payload || passes[j].now - passes[i].now >= 5 * 60 * 1_000_000_000
  {
    assert passes[..0] == [];
    Remembered(passes, i, j);
    SamePayload(passes, i, j - 1);
  }

  // --- The condition -----------------------------------------------------------------------

  datatype Reason = NoNodeHardware | NodeHardwareStale | NodeHardwareCurrent

  function AgentReporting(updatedAt: Option<int>, now: int): Reason {
    if updatedAt.None? then NoNodeHardware
    else if now - updatedAt.value > STALE_AFTER then NodeHardwareStale
    else NodeHardwareCurrent
  }

  function UpdatedAt(p: Option<Published>): Option<int> {
    if p.Some? then Some(p.value.updatedAt) else None
  }

  /** The longest pass interval that keeps the condition quiet: ten minutes less
      the second that the timestamp's truncation can cost. */
  const LONGEST := STALE_AFTER - REWRITE_INTERVAL - SECOND + 3

  /** A time the agent is alive at: its last pass has landed, and the next one is
      still in time. */
  ghost predicate Alive(passes: seq<Pass>, interval: int, now: int) {
    passes != [] && passes[|passes| - 1].lands <= now < passes[|passes| - 1].now + interval
  }

  /** While the agent lives, whatever the payloads, the object is current. */
  lemma {:induction false} NeverStale(passes: seq<Pass>, interval: int, now: int)
    requires Spaced(passes, interval) && interval <= LONGEST && Alive(passes, interval, now)
    ensures AgentReporting(UpdatedAt(Run(passes)), now) == NodeHardwareCurrent
  {
    var n := |passes|;
    assert passes[..n] == passes;
    AlwaysRecent(passes, n);
    var r := Run(passes).value;
    var i :| 0 <= i < n && passes[i].now == r.last.at && r.updatedAt == WholeSeconds(passes[i].lands);
  }

  /** One nanosecond more and a quiet node is called stale. */
  lemma {:induction false} StaleBeyond(interval: int) returns (passes: seq<Pass>, now: int)
    requires interval > LONGEST
    ensures Spaced(passes, interval) && Alive(passes, interval, now)
    ensures AgentReporting(UpdatedAt(Run(passes)), now) == NodeHardwareStale
  {
    var t := SECOND - 1;
    var first, second := Pass(t, "", t), Pass(t + REWRITE_INTERVAL - 1, "", t + REWRITE_INTERVAL - 1);
    passes, now := [first, second], t + REWRITE_INTERVAL - 1 + interval - 1;
    assert passes[..1] == [first] && [first][..0] == [];
    assert Run([first]) == Some(Published(LastWrite("", t), 0));
  }

  /** So the condition stays quiet on every schedule exactly up to that interval. */
  lemma {:induction false} QuietExactlyUpTo(interval: int)
    ensures (forall passes, now :: Spaced(passes, interval) && Alive(passes, interval, now) ==>
               AgentReporting(UpdatedAt(Run(passes)), now) == NodeHardwareCurrent)
            <==> interval <= LONGEST
  {
    if interval <= LONGEST {
      forall passes, now | Spaced(passes, interval) && Alive(passes, interval, now)
        ensures AgentReporting(UpdatedAt(Run(passes)), now) == NodeHardwareCurrent
      {
        NeverStale(passes, interval, now);
      }
    } else {
      var passes, now := StaleBeyond(interval);
    }
  }
}
