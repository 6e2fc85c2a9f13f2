/** The Go string functions the policy list is printed and read with:
    strconv.Itoa and Atoi on 64-bit ints, strings.Split, Join, Cut and
    TrimSpace, with the laws that connect printing and reading. */
module GoStrings {
  import opened Results

  const MAX_INT: int := 0x7fff_ffff_ffff_ffff
  const MIN_INT: int := -0x8000_0000_0000_0000

  predicate IsInt(n: int) {
    MIN_INT <= n <= MAX_INT
  }

  /** What a sum of two ints overflows to. */
  function Wrap(n: int): int {
    (n - MIN_INT) % 0x1_0000_0000_0000_0000 + MIN_INT
  }

  // --- Numbers -------------------------------------------------------------

  predicate IsDigit(c: char) {
    '0' <= c <= '9'
  }

  function DigitOf(n: nat): char
    requires n < 10
  {
    '0' + n as char
  }

  function ValueOf(c: char): nat
    requires IsDigit(c)
  {
    (c - '0') as nat
  }

  predicate AllDigits(s: string) {
    forall i :: 0 <= i < |s| ==> IsDigit(s[i])
  }

  function Digits(n: nat): (s: string)
    ensures |s| > 0 && AllDigits(s)
  {
    if n < 10 then [DigitOf(n)] else Digits(n / 10) + [DigitOf(n % 10)]
  }

  function Number(s: string): nat
    requires AllDigits(s)
  {
    if s == [] then 0 else 10 * Number(s[..|s| - 1]) + ValueOf(s[|s| - 1])
  }

  lemma {:induction false} NumberOfDigits(n: nat)
    ensures Number(Digits(n)) == n
  {
    if n >= 10 {
      NumberOfDigits(n / 10);
      assert Digits(n)[..|Digits(n)| - 1] == Digits(n / 10);
    } else {
      assert Digits(n)[..0] == [];
    }
  }

  function Itoa(n: int): string {
    if n < 0 then "-" + Digits(-n) else Digits(n)
  }

  /** A sign, then digits only; out of range is an error. */
  function Atoi(s: string): Option<int> {
    var digits := if s != [] && (s[0] == '-' || s[0] == '+') then s[1..] else s;
    if digits == [] || !AllDigits(digits) then None
    else
      var n: int := if s[0] == '-' then 0 - Number(digits) else Number(digits);
      if IsInt(n) then Some(n) else None
  }

  lemma {:induction false} AtoiOfDigits(n: nat)
    requires IsInt(n)
    ensures Atoi(Digits(n)) == Some(n)
  {
    NumberOfDigits(n);
    assert IsDigit(Digits(n)[0]);
  }

  // --- Pieces ----------------------------------------------------------------

  function Split(s: string, sep: char): (parts: seq<string>)
    ensures |parts| >= 1
  {
    if s == [] then [""]
    else
      var rest := Split(s[1..], sep);
      if s[0] == sep then [""] + rest else [[s[0]] + rest[0]] + rest[1..]
  }

  function Join(parts: seq<string>, sep: char): string {
    if parts == [] then "" else if |parts| == 1 then parts[0] else parts[0] + [sep] + Join(parts[1..], sep)
  }

  lemma {:induction false} SplitFirst(p: string, rest: string, sep: char)
    requires sep !in p
    ensures Split(p + rest, sep) == [p + Split(rest, sep)[0]] + Split(rest, sep)[1..]
  {
    if p == [] {
      assert p + rest == rest && p + Split(rest, sep)[0] == Split(rest, sep)[0];
    } else {
      assert (p + rest)[1..] == p[1..] + rest;
      SplitFirst(p[1..], rest, sep);
      assert [p[0]] + (p[1..] + Split(rest, sep)[0]) == p + Split(rest, sep)[0];
    }
  }

  lemma {:induction false} SplitConcat(a: string, b: string, sep: char)
    ensures Split(a + [sep] + b, sep) == Split(a, sep) + Split(b, sep)
  {
    if a == [] {
      assert a + [sep] + b == [sep] + b && ([sep] + b)[1..] == b;
    } else {
      assert (a + [sep] + b)[0] == a[0] && (a + [sep] + b)[1..] == a[1..] + [sep] + b;
      SplitConcat(a[1..], b, sep);
      var rest, more := Split(a[1..], sep), Split(b, sep);
      assert (rest + more)[1..] == rest[1..] + more && (rest + more)[0] == rest[0];
      if a[0] == sep {
        assert [""] + (rest + more) == [""] + rest + more;
      } else {
        assert [[a[0]] + rest[0]] + (rest[1..] + more) == [[a[0]] + rest[0]] + rest[1..] + more;
      }
    }
  }

  lemma {:induction false} SplitOfJoin(parts: seq<string>, sep: char)
    requires parts != [] && forall i :: 0 <= i < |parts| ==> sep !in parts[i]
    ensures Split(Join(parts, sep), sep) == parts
  {
    if |parts| == 1 {
      assert parts[0] + "" == parts[0];
      SplitFirst(parts[0], "", sep);
    } else {
      SplitOfJoin(parts[1..], sep);
      var rest := [sep] + Join(parts[1..], sep);
      assert rest[1..] == Join(parts[1..], sep);
      assert parts[0] + [sep] + Join(parts[1..], sep) == parts[0] + rest;
      SplitFirst(parts[0], rest, sep);
      assert parts[0] + "" == parts[0];
      assert parts == [parts[0]] + parts[1..];
    }
  }

  /** What lies before and after the first sep, and whether there is one. */
  function Cut(s: string, sep: char): (string, string, bool) {
    if s == [] then ("", "", false)
    else if s[0] == sep then ("", s[1..], true)
    else
      var (before, after, found) := Cut(s[1..], sep);
      ([s[0]] + before, after, found)
  }

  lemma {:induction false} CutAt(before: string, sep: char, after: string)
    requires sep !in before
    ensures Cut(before + [sep] + after, sep) == (before, after, true)
    ensures Cut(before, sep) == (before, "", false)
  {
    if before == [] {
      assert (before + [sep] + after)[1..] == after;
    } else {
      CutAt(before[1..], sep, after);
      assert (before + [sep] + after)[1..] == before[1..] + [sep] + after;
      assert [before[0]] + before[1..] == before;
    }
  }

  /** unicode.IsSpace. */
  predicate IsSpace(c: char) {
    c in {'\t', '\n', '\U{0b}', '\U{0c}', '\r', ' ', '\U{85}', '\U{a0}', '\U{1680}', '\U{2028}', '\U{2029}', '\U{202f}', '\U{205f}', '\U{3000}'}
    || '\U{2000}' <= c <= '\U{200a}'
  }

  function TrimLeft(s: string): string {
    if s != [] && IsSpace(s[0]) then TrimLeft(s[1..]) else s
  }

  function TrimRight(s: string): string {
    if s != [] && IsSpace(s[|s| - 1]) then TrimRight(s[..|s| - 1]) else s
  }

  function TrimSpace(s: string): string {
    TrimRight(TrimLeft(s))
  }

  lemma {:induction false} DigitsPlain(n: nat)
    ensures '-' !in Digits(n) && ',' !in Digits(n)
    ensures !IsSpace(Digits(n)[0]) && !IsSpace(Digits(n)[|Digits(n)| - 1])
  {
    assert forall c :: c in Digits(n) ==> IsDigit(c);
    assert IsDigit(Digits(n)[0]) && IsDigit(Digits(n)[|Digits(n)| - 1]);
  }
}
