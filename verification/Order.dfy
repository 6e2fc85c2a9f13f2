/** The order nodes and families are taken in: byte-wise by name, and, where a
    set of labelled names is given, the labelled names first. Sorting a list of
    names by it is insertion sort here; SortedUnique shows that any sort gives
    the same list. */
module Order {

  /** Lexicographic order by character, as Go and Python compare strings. */
  predicate Leq(a: string, b: string) {
    a == [] || (b != [] && (a[0] < b[0] || (a[0] == b[0] && Leq(a[1..], b[1..]))))
  }

  lemma {:induction false} LeqTotal(a: string, b: string)
    ensures Leq(a, b) || Leq(b, a)
  {
    if a != [] && b != [] && a[0] == b[0] {
      LeqTotal(a[1..], b[1..]);
    }
  }

  lemma {:induction false} LeqAntisymmetric(a: string, b: string)
    requires Leq(a, b) && Leq(b, a)
    ensures a == b
  {
    if a != [] && b != [] {
      LeqAntisymmetric(a[1..], b[1..]);
      assert a == [a[0]] + a[1..] && b == [b[0]] + b[1..];
    }
  }

  lemma {:induction false} LeqTransitive(a: string, b: string, c: string)
    requires Leq(a, b) && Leq(b, c)
    ensures Leq(a, c)
  {
    if a != [] && a[0] == b[0] == c[0] {
      LeqTransitive(a[1..], b[1..], c[1..]);
    }
  }

  /** The first character that differs decides, and a prefix comes first. */
  lemma {:induction false} LeqIsLexicographic(a: string, b: string)
    ensures Leq(a, b) <==> a <= b || exists k :: 0 <= k < |a| && k < |b| && a[..k] == b[..k] && a[k] < b[k]
  {
    if a != [] && b != [] {
      assert a == [a[0]] + a[1..] && b == [b[0]] + b[1..];
      if a[0] == b[0] {
        LeqIsLexicographic(a[1..], b[1..]);
        FirstDifference(a, b);
      } else if a[0] < b[0] {
        assert a[..0] == b[..0];
      } else {
        forall k | 0 < k < |a| && k < |b| ensures a[..k] != b[..k] {
          assert a[..k][0] == a[0] && b[..k][0] == b[0];
        }
      }
    }
  }

  lemma {:induction false} FirstDifference(a: string, b: string)
    requires a != [] && b != [] && a[0] == b[0]
    ensures a[1..] <= b[1..] <==> a <= b
    ensures (exists k :: 0 <= k < |a[1..]| && k < |b[1..]| && a[1..][..k] == b[1..][..k] && a[1..][k] < b[1..][k])
       <==> (exists k :: 0 <= k < |a| && k < |b| && a[..k] == b[..k] && a[k] < b[k])
  {
    assert a == [a[0]] + a[1..] && b == [b[0]] + b[1..];
    if k :| 0 <= k < |a[1..]| && k < |b[1..]| && a[1..][..k] == b[1..][..k] && a[1..][k] < b[1..][k] {
      assert a[..k + 1] == [a[0]] + a[1..][..k] && b[..k + 1] == [b[0]] + b[1..][..k];
      assert a[k + 1] < b[k + 1];
    }
    if k :| 0 <= k < |a| && k < |b| && a[..k] == b[..k] && a[k] < b[k] {
      assert a[1..][..k - 1] == a[..k][1..] && b[1..][..k - 1] == b[..k][1..];
      assert a[1..][k - 1] < b[1..][k - 1];
    }
  }

  /** Labelled names first, then by name. */
  predicate Before(labelled: set<string>, a: string, b: string) {
    if (a in labelled) != (b in labelled) then a in labelled else Leq(a, b)
  }

  lemma {:induction false} BeforeTotal(labelled: set<string>, a: string, b: string)
    ensures Before(labelled, a, b) || Before(labelled, b, a)
  {
    LeqTotal(a, b);
  }

  lemma {:induction false} BeforeTransitive(labelled: set<string>, a: string, b: string, c: string)
    requires Before(labelled, a, b) && Before(labelled, b, c)
    ensures Before(labelled, a, c)
  {
    if Leq(a, b) && Leq(b, c) {
      LeqTransitive(a, b, c);
    }
  }

  ghost predicate Sorted(labelled: set<string>, s: seq<string>) {
    forall i, j :: 0 <= i < j < |s| ==> Before(labelled, s[i], s[j])
  }

  function Insert(labelled: set<string>, x: string, s: seq<string>): seq<string> {
    if s == [] || Before(labelled, x, s[0]) then [x] + s else [s[0]] + Insert(labelled, x, s[1..])
  }

  lemma {:induction false} InsertPermutes(labelled: set<string>, x: string, s: seq<string>)
    ensures multiset(Insert(labelled, x, s)) == multiset([x]) + multiset(s)
  {
    if s != [] {
      assert s == [s[0]] + s[1..];
      InsertPermutes(labelled, x, s[1..]);
    }
  }

  lemma {:induction false} InsertSorted(labelled: set<string>, x: string, s: seq<string>)
    requires Sorted(labelled, s)
    ensures Sorted(labelled, Insert(labelled, x, s))
  {
    if s == [] {
    } else if Before(labelled, x, s[0]) {
      forall j | 0 <= j < |s| ensures Before(labelled, x, s[j]) {
        if j > 0 { BeforeTransitive(labelled, x, s[0], s[j]); }
      }
    } else {
      InsertSorted(labelled, x, s[1..]);
      InsertPermutes(labelled, x, s[1..]);
      BeforeTotal(labelled, x, s[0]);
      var rest := Insert(labelled, x, s[1..]);
      forall y | y in rest ensures Before(labelled, s[0], y) {
        assert y in multiset(rest);
        if y != x { assert y in s[1..]; }
      }
    }
  }

  function Sort(labelled: set<string>, s: seq<string>): seq<string> {
    if s == [] then [] else Insert(labelled, s[0], Sort(labelled, s[1..]))
  }

  lemma {:induction false} SortPermutes(labelled: set<string>, s: seq<string>)
    ensures multiset(Sort(labelled, s)) == multiset(s)
    ensures |Sort(labelled, s)| == |s|
  {
    if s != [] {
      assert s == [s[0]] + s[1..];
      SortPermutes(labelled, s[1..]);
      InsertPermutes(labelled, s[0], Sort(labelled, s[1..]));
    }
    assert |Sort(labelled, s)| == |multiset(Sort(labelled, s))| && |s| == |multiset(s)|;
  }

  lemma {:induction false} SortSorted(labelled: set<string>, s: seq<string>)
    ensures Sorted(labelled, Sort(labelled, s))
  {
    if s != [] {
      SortSorted(labelled, s[1..]);
      InsertSorted(labelled, s[0], Sort(labelled, s[1..]));
    }
  }

  /** Two sorted arrangements of the same names are the same list. */
  lemma {:induction false} SortedUnique(labelled: set<string>, s: seq<string>, t: seq<string>)
    requires multiset(s) == multiset(t)
    requires Sorted(labelled, s) && Sorted(labelled, t)
    ensures s == t
  {
    assert |s| == |multiset(s)| == |multiset(t)| == |t|;
    if s != [] {
      SameFirst(labelled, s, t);
      assert s == [s[0]] + s[1..] && t == [t[0]] + t[1..];
      assert multiset(s[1..]) == multiset(s) - multiset([s[0]]);
      assert multiset(t[1..]) == multiset(t) - multiset([t[0]]);
      SortedUnique(labelled, s[1..], t[1..]);
    }
  }

  lemma {:induction false} SameFirst(labelled: set<string>, s: seq<string>, t: seq<string>)
    requires multiset(s) == multiset(t) && s != [] && t != []
    requires Sorted(labelled, s) && Sorted(labelled, t)
    ensures s[0] == t[0]
  {
    assert s[0] in multiset(t) && t[0] in multiset(s);
    LeqTotal(s[0], s[0]);
    assert Before(labelled, s[0], t[0]) && Before(labelled, t[0], s[0]);
    LeqAntisymmetric(s[0], t[0]);
  }
}
