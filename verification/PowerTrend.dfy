/** The rolling window of power samples behind a node's power trend. Times are
    nanoseconds. */
module PowerTrend {
  import opened Clock

  const WINDOW := 5 * MINUTE

  datatype Sample = Sample(watts: real, at: int)

  // --- The window as a filter of the history -------------------------------------------

  /** The samples of the history after the cutoff. */
  function After(history: seq<Sample>, cutoff: int): seq<Sample> {
    if history == [] then []
    else
      var n := |history| - 1;
      if history[n].at > cutoff then After(history[..n], cutoff) + [history[n]] else After(history[..n], cutoff)
  }

  ghost predicate Ordered(history: seq<Sample>) {
    forall i, j :: 0 <= i < j < |history| ==> history[i].at <= history[j].at
  }

  /** The samples of the last five minutes, as of the last one. */
  function Window(history: seq<Sample>): seq<Sample> {
    if history == [] then [] else After(history, history[|history| - 1].at - WINDOW)
  }

  function Minutes(from: Sample, to: Sample): real {
    (to.at - from.at) as real / MINUTE as real
  }

  /** Watts per minute between the ends of the window; 0 when they are less than
      a tenth of a minute apart. */
  function Slope(window: seq<Sample>): real {
    if |window| < 2 then 0.0
    else
      var oldest, newest := window[0], window[|window| - 1];
      var elapsed := Minutes(oldest, newest);
      if elapsed < 0.1 then 0.0 else (newest.watts - oldest.watts) / elapsed
  }

  // --- The window as it is kept ----------------------------------------------------------

  /** Drops what comes before the first sample after the cutoff. */
  function Trim(samples: seq<Sample>, cutoff: int): seq<Sample> {
    if samples == [] || samples[0].at > cutoff then samples else Trim(samples[1..], cutoff)
  }

  class PowerSamples {
    var samples: map<string, seq<Sample>>

    function Of(node: string): seq<Sample>
      reads this
    {
      if node in samples then samples[node] else []
    }

    /** Drops the samples outside the window. */
    static method DropOld(samples: seq<Sample>, cutoff: int) returns (kept: seq<Sample>)
      requires samples != [] && samples[|samples| - 1].at > cutoff
      ensures kept == Trim(samples, cutoff)
    {
      var firstValid := 0;
      assert samples[0..] == samples;
      for i := 0 to |samples|
        invariant firstValid == 0 && Trim(samples, cutoff) == Trim(samples[i..], cutoff)
        invariant forall k :: 0 <= k < i ==> samples[k].at <= cutoff
      {
        assert samples[i..][1..] == samples[i + 1..];
        if samples[i].at > cutoff {
          firstValid := i;
          break;
        }
      }
      kept := samples[firstValid..];
    }

    method NodePowerTrend(node: string, watts: real, now: int) returns (trend: real)
      modifies this
      ensures Of(node) == Trim(old(Of(node)) + [Sample(watts, now)], now - WINDOW)
      ensures trend == Slope(Of(node))
      ensures forall other :: other != node ==> Of(other) == old(Of(other))
    {
      hide Trim, Minutes;
      var kept := DropOld(Of(node) + [Sample(watts, now)], now - WINDOW);
      samples := samples[node := kept];
      if |kept| < 2 {
        return 0.0;
      }
      var oldest, newest := kept[0], kept[|kept| - 1];
      var elapsed := Minutes(oldest, newest);
      if elapsed < 0.1 {
        return 0.0;
      }
      trend := (newest.watts - oldest.watts) / elapsed;
    }
  }

  // --- The two agree -------------------------------------------------------------------------

  /** What the calls for one node leave stored. */
  function Stored(history: seq<Sample>): seq<Sample> {
    if history == [] then []
    else
      var n := |history| - 1;
      Trim(Stored(history[..n]) + [history[n]], history[n].at - WINDOW)
  }

  lemma {:induction false} AfterIsOrdered(history: seq<Sample>, cutoff: int)
    requires Ordered(history)
    ensures Ordered(After(history, cutoff))
    ensures forall x :: x in After(history, cutoff) ==> x in history && x.at > cutoff
  {
    if history != [] {
      var n := |history| - 1;
      AfterIsOrdered(history[..n], cutoff);
    }
  }

  /** On an ordered sequence trimming is filtering. */
  lemma {:induction false} TrimIsAfter(samples: seq<Sample>, cutoff: int)
    requires Ordered(samples)
    ensures Trim(samples, cutoff) == After(samples, cutoff)
    decreases |samples|
  {
    if samples == [] {
    } else if samples[0].at > cutoff {
      AllAfter(samples, cutoff);
    } else {
      TrimIsAfter(samples[1..], cutoff);
      AfterRest(samples, cutoff);
    }
  }

  lemma {:induction false} AllAfter(samples: seq<Sample>, cutoff: int)
    requires forall i :: 0 <= i < |samples| ==> samples[i].at > cutoff
    ensures After(samples, cutoff) == samples
  {
    if samples != [] {
      AllAfter(samples[..|samples| - 1], cutoff);
    }
  }

  lemma {:induction false} AfterRest(samples: seq<Sample>, cutoff: int)
    requires samples != [] && samples[0].at <= cutoff
    ensures After(samples, cutoff) == After(samples[1..], cutoff)
    decreases |samples|
  {
    var n := |samples| - 1;
    if n == 0 {
      assert samples[..0] == [];
    } else {
      AfterRest(samples[..n], cutoff);
      assert samples[1..][..n - 1] == samples[..n][1..];
    }
  }

  lemma {:induction false} AfterTwice(history: seq<Sample>, early: int, late: int)
    requires early <= late
    ensures After(After(history, early), late) == After(history, late)
  {
    if history != [] {
      var n := |history| - 1;
      AfterTwice(history[..n], early, late);
      if history[n].at > early {
        assert (After(history[..n], early) + [history[n]])[..|After(history[..n], early)|] == After(history[..n], early);
      }
    }
  }

  lemma {:induction false} AfterAppend(history: seq<Sample>, x: Sample, cutoff: int)
    ensures After(history + [x], cutoff) == if x.at > cutoff then After(history, cutoff) + [x] else After(history, cutoff)
  {
    assert (history + [x])[..|history|] == history;
  }

  lemma {:induction false} AppendOrdered(history: seq<Sample>, kept: seq<Sample>, x: Sample)
    requires Ordered(history) && Ordered(kept) && history != [] && history[|history| - 1].at <= x.at
    requires forall y :: y in kept ==> y in history
    ensures Ordered(kept + [x])
  {
    forall i | 0 <= i < |kept| ensures kept[i].at <= x.at {
      assert kept[i] in history;
    }
  }

  /** One more sample, as a call takes it in. */
  lemma {:induction false} WindowStep(before: seq<Sample>, x: Sample)
    requires before != [] && Ordered(before) && before[|before| - 1].at <= x.at
    ensures Trim(Window(before) + [x], x.at - WINDOW) == Window(before + [x])
  {
    var cutoff, earlier := x.at - WINDOW, before[|before| - 1].at - WINDOW;
    assert Window(before) == After(before, earlier) && Window(before + [x]) == After(before + [x], cutoff);
    hide After, Trim, Window, Ordered;
    AfterIsOrdered(before, earlier);
    AfterTwice(before, earlier, cutoff);
    AfterAppend(Window(before), x, cutoff);
    AfterAppend(before, x, cutoff);
    AppendOrdered(before, Window(before), x);
    TrimIsAfter(Window(before) + [x], cutoff);
  }

  /** After any number of calls on a clock that does not run backwards, the stored
      samples are the whole history's last five minutes. */
  lemma {:induction false} StoredIsWindow(history: seq<Sample>)
    requires Ordered(history)
    ensures Stored(history) == Window(history)
    decreases |history|
  {
    if |history| == 1 {
      OneSample(history);
    } else if history != [] {
      var n := |history| - 1;
      assert Stored(history) == Trim(Stored(history[..n]) + [history[n]], history[n].at - WINDOW);
      hide Window, Trim, Stored;
      StoredIsWindow(history[..n]);
      assert history == history[..n] + [history[n]];
      WindowStep(history[..n], history[n]);
    }
  }

  lemma {:induction false} OneSample(history: seq<Sample>)
    requires |history| == 1
    ensures Stored(history) == Window(history) == history
  {
    assert history[..0] == [] && [] + [history[0]] == history;
    AllAfter(history, history[0].at - WINDOW);
  }

  /** The window is the part of the history after the samples that are five minutes
      older than the last one, or more. */
  lemma {:induction false} WindowIsSuffix(history: seq<Sample>) returns (k: nat)
    requires Ordered(history) && history != []
    ensures k < |history| && Window(history) == history[k..]
    ensures var last := history[|history| - 1];
      && (forall i :: 0 <= i < k ==> last.at - history[i].at >= WINDOW)
      && forall i :: k <= i < |history| ==> last.at - history[i].at < WINDOW
  {
    var cutoff := history[|history| - 1].at - WINDOW;
    k := 0;
    assert history[0..] == history;
    while history[k].at <= cutoff
      invariant k < |history| && Trim(history, cutoff) == Trim(history[k..], cutoff)
      invariant forall i :: 0 <= i < k ==> history[i].at <= cutoff
      decreases |history| - k
    {
      assert history[k..][1..] == history[k + 1..];
      k := k + 1;
    }
    TrimIsAfter(history, cutoff);
  }

  /** What the trend means: with k the first sample of the last five minutes, the
      trend times the minutes since is the watts gained since; it is 0 when less
      than six seconds lie between. */
  lemma {:induction false} TrendMeans(history: seq<Sample>) returns (k: nat)
    requires Ordered(history) && history != []
    ensures k < |history|
    ensures var last, first := history[|history| - 1], history[k];
      && (forall i :: 0 <= i < k ==> last.at - history[i].at >= WINDOW) && last.at - first.at < WINDOW
      && (last.at - first.at < 6_000_000_000 ==> Slope(Window(history)) == 0.0)
      && (last.at - first.at >= 6_000_000_000 ==>
            Slope(Window(history)) * ((last.at - first.at) as real / 60_000_000_000.0) == last.watts - first.watts)
  {
    k := WindowIsSuffix(history);
    assert history[k..][0] == history[k] && history[k..][|history| - k - 1] == history[|history| - 1];
    hide Window, Ordered;
  }

  /** The trend a call returns, from the history alone: the slope between the
      first and the last sample of the last five minutes. */
  lemma {:induction false} TrendOfHistory(history: seq<Sample>, x: Sample)
    requires Ordered(history + [x])
    ensures Slope(Trim(Stored(history) + [x], x.at - WINDOW)) == Slope(Window(history + [x]))
  {
    StoredIsWindow(history + [x]);
    assert (history + [x])[..|history|] == history;
  }
}
