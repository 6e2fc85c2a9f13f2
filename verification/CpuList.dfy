/** formatCPUList and cpuListHas: policy numbers in the kernel's list form,
    such as 0-63 or 0,2,4, printed and read back. */
module CpuList {
  import opened GoStrings
  import opened Results

  // --- Printing -----------------------------------------------------------

  /** The last index of the run of consecutive numbers that starts at i. */
  function RunEnd(ids: seq<int>, i: nat): (e: nat)
    requires i < |ids|
    ensures i <= e < |ids|
    decreases |ids| - i
  {
    if i + 1 < |ids| && ids[i + 1] == Wrap(ids[i] + 1) then RunEnd(ids, i + 1) else i
  }

  datatype Run = Run(first: int, last: int, single: bool)

  function RunAt(ids: seq<int>, i: nat): Run
    requires i < |ids|
  {
    Run(ids[i], ids[RunEnd(ids, i)], RunEnd(ids, i) == i)
  }

  /** The runs from index i on. */
  function Runs(ids: seq<int>, i: nat): seq<Run>
    requires i <= |ids|
    decreases |ids| - i
  {
    if i == |ids| then [] else [RunAt(ids, i)] + Runs(ids, RunEnd(ids, i) + 1)
  }

  function Text(run: Run): string {
    if run.single then Itoa(run.first) else Itoa(run.first) + "-" + Itoa(run.last)
  }

  function Texts(runs: seq<Run>): seq<string> {
    seq(|runs|, i requires 0 <= i < |runs| => Text(runs[i]))
  }

  function Format(ids: seq<int>): string {
    Join(Texts(Runs(ids, 0)), ',')
  }

  /** The inner loop: how far the run that starts at i goes. */
  method FindRunEnd(ids: seq<int>, i: nat) returns (j: nat)
    requires i < |ids|
    ensures j == RunEnd(ids, i)
  {
    j := i;
    while j + 1 < |ids| && ids[j + 1] == Wrap(ids[j] + 1)
      invariant i <= j < |ids|
      invariant RunEnd(ids, i) == RunEnd(ids, j)
    {
      j := j + 1;
    }
  }

  method FormatCPUList(ids: seq<int>) returns (s: string)
    ensures s == Format(ids)
  {
    var parts: seq<string> := [];
    ghost var done: seq<Run> := [];
    var i := 0;
    assert [] + Runs(ids, 0) == Runs(ids, 0) && Texts([]) == [];
    hide Runs, Texts;
    while i < |ids|
      invariant 0 <= i <= |ids|
      invariant done + Runs(ids, i) == Runs(ids, 0)
      invariant parts == Texts(done)
    {
      var j := FindRunEnd(ids, i);
      NextRun(done, ids, i);
      done := done + [RunAt(ids, i)];
      var part := if j > i then Itoa(ids[i]) + "-" + Itoa(ids[j]) else Itoa(ids[i]);
      parts := parts + [part];
      i := j + 1;
    }
    NoRuns(done, ids, i);
    s := Join(parts, ',');
  }

  lemma {:induction false} NoRuns(done: seq<Run>, ids: seq<int>, i: nat)
    requires i == |ids|
    ensures done + Runs(ids, i) == done
  {
  }

  lemma {:induction false} NextRun(done: seq<Run>, ids: seq<int>, i: nat)
    requires i < |ids|
    ensures done + Runs(ids, i) == done + [RunAt(ids, i)] + Runs(ids, RunEnd(ids, i) + 1)
    ensures Texts(done + [RunAt(ids, i)]) == Texts(done) + [Text(RunAt(ids, i))]
  {
    assert Runs(ids, i) == [RunAt(ids, i)] + Runs(ids, RunEnd(ids, i) + 1);
    hide *;
    TextsAppend(done, RunAt(ids, i));
    Regroup(done, RunAt(ids, i), Runs(ids, RunEnd(ids, i) + 1));
  }

  lemma {:induction false} Regroup(done: seq<Run>, run: Run, rest: seq<Run>)
    ensures done + ([run] + rest) == done + [run] + rest
  {
  }

  lemma {:induction false} TextsAppend(done: seq<Run>, run: Run)
    ensures Texts(done + [run]) == Texts(done) + [Text(run)]
  {
    hide Text;
  }

  // --- Reading ------------------------------------------------------------

  /** Whether one part, a number or a range, holds id; a part that is neither
      holds nothing. */
  predicate PartHas(part: string, id: int) {
    var (lo, hi, isRange) := Cut(TrimSpace(part), '-');
    match Atoi(lo)
    case None => false
    case Some(a) =>
      if !isRange then a <= id <= a
      else match Atoi(hi) case None => false case Some(b) => a <= id <= b
  }

  predicate AnyHas(parts: seq<string>, id: int) {
    exists i :: 0 <= i < |parts| && PartHas(parts[i], id)
  }

  predicate ListHas(s: string, id: int) {
    AnyHas(Split(s, ','), id)
  }

  method CpuListHas(s: string, id: int) returns (has: bool)
    ensures has == ListHas(s, id)
  {
    var parts := Split(s, ',');
    for i := 0 to |parts|
      invariant forall k :: 0 <= k < i ==> !PartHas(parts[k], id)
    {
      var (lo, hi, isRange) := Cut(TrimSpace(parts[i]), '-');
      var a := Atoi(lo);
      if a.None? {
        continue;
      }
      var b := a;
      if isRange {
        b := Atoi(hi);
        if b.None? {
          continue;
        }
      }
      if a.value <= id <= b.value {
        return true;
      }
    }
    return false;
  }

  /** Whatever the texts, lists joined by a comma hold what either holds: a part that
      cannot be read spoils no other. */
  lemma {:induction false} ListConcat(a: string, b: string, id: int)
    ensures ListHas(a + "," + b, id) <==> ListHas(a, id) || ListHas(b, id)
  {
    SplitConcat(a, b, ',');
    var x, y := Split(a, ','), Split(b, ',');
    hide Split, PartHas;
    if i :| 0 <= i < |x| && PartHas(x[i], id) {
      assert PartHas((x + y)[i], id);
    }
    if i :| 0 <= i < |y| && PartHas(y[i], id) {
      assert PartHas((x + y)[|x| + i], id);
    }
  }

  // --- One run --------------------------------------------------------------

  lemma {:induction false} DigitsRead(n: nat)
    requires IsInt(n)
    ensures TrimSpace(Digits(n)) == Digits(n)
    ensures Cut(Digits(n), '-') == (Digits(n), "", false)
    ensures Atoi(Digits(n)) == Some(n)
  {
    DigitsPlain(n);
    CutAt(Digits(n), '-', "");
    AtoiOfDigits(n);
  }

  lemma {:induction false} RangeRead(a: nat, b: int)
    ensures var s := Digits(a) + "-" + Itoa(b);
      TrimSpace(s) == s && Cut(s, '-') == (Digits(a), Itoa(b), true)
  {
    var t := Itoa(b);
    var s := Digits(a) + "-" + t;
    DigitsPlain(a);
    DigitsPlain(if b < 0 then -b else b);
    CutAt(Digits(a), '-', t);
    assert s[0] == Digits(a)[0] && s[|s| - 1] == t[|t| - 1];
    assert TrimLeft(s) == s && TrimRight(s) == s;
  }

  lemma {:induction false} TrimRightKeepsFirst(s: string)
    requires s != [] && !IsSpace(s[0])
    ensures TrimRight(s) != [] && TrimRight(s)[0] == s[0]
  {
    if IsSpace(s[|s| - 1]) { TrimRightKeepsFirst(s[..|s| - 1]); }
  }

  predicate Readable(run: Run) {
    IsInt(run.first) && IsInt(run.last) && (run.single ==> run.first == run.last)
  }

  /** A printed run of non-negative numbers reads as the range it covers. */
  lemma {:induction false} RunRead(run: Run, id: int)
    requires Readable(run) && run.first >= 0 && run.last >= 0
    ensures PartHas(Text(run), id) <==> run.first <= id <= run.last
  {
    DigitsRead(run.first);
    DigitsRead(run.last);
    if !run.single { RangeRead(run.first, run.last); }
  }

  /** A negative number is in no printed run: a run that starts below zero
      prints with a dash first, so the number before its first dash is empty,
      and no other run reaches below zero. */
  lemma {:induction false} NegativeNotRead(run: Run, id: int)
    requires IsInt(run.first) && id < 0
    ensures !PartHas(Text(run), id)
  {
    if run.first < 0 {
      var s := Text(run);
      assert s[0] == '-' && !IsSpace('-');
      assert TrimLeft(s) == s;
      TrimRightKeepsFirst(s);
      assert Cut(TrimSpace(s), '-').0 == "";
    } else {
      DigitsRead(run.first);
      if !run.single { RangeRead(run.first, run.last); }
    }
  }

  lemma {:induction false} NoCommas(runs: seq<Run>)
    ensures forall k :: 0 <= k < |runs| ==> ',' !in Texts(runs)[k]
  {
    forall k | 0 <= k < |runs| ensures ',' !in Text(runs[k]) {
      DigitsPlain(if runs[k].first < 0 then -runs[k].first else runs[k].first);
      DigitsPlain(if runs[k].last < 0 then -runs[k].last else runs[k].last);
    }
  }

  lemma {:induction false} FormatReads(runs: seq<Run>, id: int)
    ensures ListHas(Join(Texts(runs), ','), id) <==> AnyHas(Texts(runs), id)
  {
    if runs == [] {
      assert !PartHas("", id);
      assert Split("", ',') == [""];
    } else {
      NoCommas(runs);
      SplitOfJoin(Texts(runs), ',');
    }
  }

  // --- All the runs -----------------------------------------------------------

  predicate AllInts(ids: seq<int>) {
    forall j :: 0 <= j < |ids| ==> IsInt(ids[j])
  }

  predicate NoneNegative(ids: seq<int>) {
    forall j :: 0 <= j < |ids| ==> ids[j] >= 0
  }

  /** Without overflow, a run is the numbers from its first to its last. */
  lemma {:induction false} RunIsRange(ids: seq<int>, i: nat, k: nat)
    requires i < |ids| && i <= k <= RunEnd(ids, i) && AllInts(ids) && NoneNegative(ids)
    ensures ids[k] == ids[i] + (k - i)
    decreases k - i
  {
    if i < k {
      RunIsRange(ids, i + 1, k);
    }
  }

  predicate Covered(runs: seq<Run>, id: int) {
    exists k :: 0 <= k < |runs| && runs[k].first <= id <= runs[k].last
  }

  lemma {:induction false} CoveredFirst(run: Run, rest: seq<Run>, id: int)
    ensures Covered([run] + rest, id) <==> run.first <= id <= run.last || Covered(rest, id)
  {
    var runs := [run] + rest;
    assert runs[0] == run && forall k :: 0 <= k < |rest| ==> runs[k + 1] == rest[k];
  }

  /** id is among the numbers from index i to before index j. */
  predicate Within(ids: seq<int>, i: nat, j: nat, id: int)
    requires i <= j <= |ids|
  {
    exists k :: i <= k < j && ids[k] == id
  }

  lemma {:induction false} RunCovers(ids: seq<int>, i: nat, id: int)
    requires i < |ids| && AllInts(ids) && NoneNegative(ids)
    ensures RunAt(ids, i).first <= id <= RunAt(ids, i).last <==> Within(ids, i, RunEnd(ids, i) + 1, id)
  {
    var e := RunEnd(ids, i);
    RunIsRange(ids, i, e);
    if ids[i] <= id <= ids[e] {
      RunIsRange(ids, i, i + (id - ids[i]));
    }
    if Within(ids, i, e + 1, id) {
      var k :| i <= k < e + 1 && ids[k] == id;
      RunIsRange(ids, i, k);
    }
  }

  lemma {:induction false} RunsCover(ids: seq<int>, i: nat, id: int)
    requires i <= |ids| && AllInts(ids) && NoneNegative(ids)
    ensures Covered(Runs(ids, i), id) <==> Within(ids, i, |ids|, id)
    decreases |ids| - i
  {
    if i < |ids| {
      var e := RunEnd(ids, i);
      RunsCover(ids, e + 1, id);
      RunCovers(ids, i, id);
      CoveredFirst(RunAt(ids, i), Runs(ids, e + 1), id);
    }
  }

  lemma {:induction false} RunsAreInts(ids: seq<int>, i: nat)
    requires i <= |ids| && AllInts(ids)
    ensures forall k :: 0 <= k < |Runs(ids, i)| ==> Readable(Runs(ids, i)[k])
    ensures NoneNegative(ids) ==> forall k :: 0 <= k < |Runs(ids, i)| ==> Runs(ids, i)[k].first >= 0 && Runs(ids, i)[k].last >= 0
    decreases |ids| - i
  {
    if i < |ids| { RunsAreInts(ids, RunEnd(ids, i) + 1); }
  }

  lemma {:induction false} RunsRead(runs: seq<Run>, id: int)
    requires forall k :: 0 <= k < |runs| ==> Readable(runs[k]) && runs[k].first >= 0 && runs[k].last >= 0
    ensures AnyHas(Texts(runs), id) <==> Covered(runs, id)
  {
    forall k | 0 <= k < |runs| ensures PartHas(Texts(runs)[k], id) <==> runs[k].first <= id <= runs[k].last {
      RunRead(runs[k], id);
    }
  }

  lemma {:induction false} NonNegativeRoundTrip(ids: seq<int>, id: int)
    requires AllInts(ids) && NoneNegative(ids)
    ensures ListHas(Format(ids), id) <==> id in ids
  {
    RunsAreInts(ids, 0);
    FormatReads(Runs(ids, 0), id);
    RunsRead(Runs(ids, 0), id);
    RunsCover(ids, 0, id);
    assert Within(ids, 0, |ids|, id) <==> id in ids;
  }

  lemma {:induction false} NegativesNotRead(runs: seq<Run>, id: int)
    requires id < 0 && forall k :: 0 <= k < |runs| ==> Readable(runs[k])
    ensures !AnyHas(Texts(runs), id)
  {
    forall k | 0 <= k < |runs| ensures !PartHas(Texts(runs)[k], id) { NegativeNotRead(runs[k], id); }
  }

  /** The list a group of policies is stored as holds exactly those policies,
      for any numbers in any order, if and only if none is negative. */
  lemma {:induction false} PolicyListRoundTrip(ids: seq<int>)
    requires AllInts(ids)
    ensures (forall id :: ListHas(Format(ids), id) <==> id in ids) <==> NoneNegative(ids)
  {
    if NoneNegative(ids) {
      forall id ensures ListHas(Format(ids), id) <==> id in ids { NonNegativeRoundTrip(ids, id); }
    } else {
      var j :| 0 <= j < |ids| && ids[j] < 0;
      RunsAreInts(ids, 0);
      FormatReads(Runs(ids, 0), ids[j]);
      NegativesNotRead(Runs(ids, 0), ids[j]);
      assert ids[j] in ids;
    }
  }
}
