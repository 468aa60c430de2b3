/** Splitting, joining and searching sequences, and decimal text: the string
    vocabulary shared by the components of the model. */
module Sequences {

  /** The position of the first `x`, or the length when there is none. */
  function IndexOf<T(==)>(s: seq<T>, x: T): (i: nat)
    ensures i <= |s|
    ensures x !in s[..i]
    ensures i < |s| ==> s[i] == x
  {
    if s == [] || s[0] == x then 0
    else
      var i := 1 + IndexOf(s[1..], x);
      assert s[..i] == [s[0]] + s[1..][..i - 1];
      i
  }

  /** The position just after the last `x`, or zero when there is none. */
  function AfterLast<T(==)>(s: seq<T>, x: T): (i: nat)
    ensures i <= |s|
    ensures x !in s[i..]
    ensures 0 < i ==> s[i - 1] == x
  {
    if s == [] then 0
    else if s[|s| - 1] == x then |s|
    else
      var i := AfterLast(s[..|s| - 1], x);
      assert s[i..] == s[..|s| - 1][i..] + [s[|s| - 1]];
      i
  }

  /** The text before the first separator determines a cut. */
  lemma CutFirst<T>(a: seq<T>, b: seq<T>, a': seq<T>, b': seq<T>, x: T)
    requires x !in a && x !in a'
    requires a + [x] + b == a' + [x] + b'
    ensures a == a' && b == b'
  {
    var s := a + [x] + b;
    assert s[|a|] == x && s[|a'|] == x;
    assert forall k :: 0 <= k < |a| ==> s[k] == a[k];
    assert forall k :: 0 <= k < |a'| ==> s[k] == a'[k];
    assert |a| == |a'|;
    assert a == s[..|a|] && a' == s[..|a'|];
    assert b == s[|a| + 1..] && b' == s[|a'| + 1..];
  }

  /** The text after the last separator determines a cut. */
  lemma CutLast<T>(a: seq<T>, b: seq<T>, a': seq<T>, b': seq<T>, x: T)
    requires x !in b && x !in b'
    requires a + [x] + b == a' + [x] + b'
    ensures a == a' && b == b'
  {
    var s := a + [x] + b;
    assert s[|a|] == x && s[|a'|] == x;
    assert forall k :: |a| < k < |s| ==> s[k] == b[k - |a| - 1];
    assert forall k :: |a'| < k < |s| ==> s[k] == b'[k - |a'| - 1];
    assert |a| == |a'|;
    assert a == s[..|a|] && a' == s[..|a'|];
    assert b == s[|a| + 1..] && b' == s[|a'| + 1..];
  }

  /** Pieces between separators; always at least one piece. */
  function Split<T(==)>(s: seq<T>, sep: T): (parts: seq<seq<T>>)
    ensures |parts| > 0
    decreases |s|
  {
    var i := IndexOf(s, sep);
    if i == |s| then [s] else [s[..i]] + Split(s[i + 1..], sep)
  }

  function Join<T>(parts: seq<seq<T>>, sep: T): seq<T> {
    if parts == [] then []
    else if |parts| == 1 then parts[0]
    else parts[0] + [sep] + Join(parts[1..], sep)
  }

  ghost predicate Free<T>(parts: seq<seq<T>>, sep: T) {
    forall i :: 0 <= i < |parts| ==> sep !in parts[i]
  }

  lemma {:induction false} SplitOfJoin<T>(parts: seq<seq<T>>, sep: T)
    requires |parts| > 0 && Free(parts, sep)
    ensures Split(Join(parts, sep), sep) == parts
  {
    if |parts| == 1 {
      assert IndexOf(parts[0], sep) == |parts[0]|;
    } else {
      SplitOfJoin(parts[1..], sep);
      SplitHead(parts[0], Join(parts[1..], sep), sep);
      assert parts == [parts[0]] + parts[1..];
    }
  }

  /** Splitting cuts off the text before the first separator. */
  lemma SplitHead<T>(head: seq<T>, rest: seq<T>, sep: T)
    requires sep !in head
    ensures Split(head + [sep] + rest, sep) == [head] + Split(rest, sep)
  {
    var s := head + [sep] + rest;
    FirstSeparator(head, rest, sep);
    assert s[..|head|] == head && s[|head| + 1..] == rest;
  }

  lemma FirstSeparator<T>(head: seq<T>, rest: seq<T>, sep: T)
    requires sep !in head
    ensures IndexOf(head + [sep] + rest, sep) == |head|
  {
    var s := head + [sep] + rest;
    var i := IndexOf(s, sep);
    assert s[|head|] == sep;
    assert forall k :: 0 <= k < |head| ==> s[k] == head[k];
    assert forall k :: 0 <= k < i ==> s[..i][k] == s[k];
  }

  lemma {:induction false} JoinOfSplit<T>(s: seq<T>, sep: T)
    ensures Join(Split(s, sep), sep) == s
    ensures Free(Split(s, sep), sep)
    decreases |s|
  {
    if sep in s {
      var i := SplitAtFirst(s, sep);
      JoinOfSplit(s[i + 1..], sep);
      CutAt(s, i);
      JoinFront(s[..i], Split(s[i + 1..], sep), sep);
    } else {
      SplitWhole(s, sep);
    }
  }

  lemma SplitAtFirst<T>(s: seq<T>, sep: T) returns (i: nat)
    requires sep in s
    ensures i < |s| && s[i] == sep && sep !in s[..i] && Split(s, sep) == [s[..i]] + Split(s[i + 1..], sep)
  {
    i := IndexOf(s, sep);
    assert s[..|s|] == s;
  }

  lemma SplitWhole<T>(s: seq<T>, sep: T)
    requires sep !in s
    ensures Split(s, sep) == [s] && Join([s], sep) == s
  {
  }

  lemma CutAt<T>(s: seq<T>, i: nat)
    requires i < |s|
    ensures s[..i] + [s[i]] + s[i + 1..] == s
  {
  }

  lemma JoinFront<T>(head: seq<T>, rest: seq<seq<T>>, sep: T)
    requires rest != [] && sep !in head && Free(rest, sep)
    ensures Join([head] + rest, sep) == head + [sep] + Join(rest, sep)
    ensures Free([head] + rest, sep)
  {
    var all := [head] + rest;
    assert all[1..] == rest;
    forall i | 0 <= i < |all| ensures sep !in all[i] { assert i > 0 ==> all[i] == rest[i - 1]; }
  }

  /** Separator-free pieces can be read back from the joined text. */
  lemma JoinInjective<T>(a: seq<seq<T>>, b: seq<seq<T>>, sep: T)
    requires |a| > 0 && |b| > 0 && Free(a, sep) && Free(b, sep)
    requires Join(a, sep) == Join(b, sep)
    ensures a == b
  {
    SplitOfJoin(a, sep);
    SplitOfJoin(b, sep);
  }

  lemma {:induction false} JoinAvoids<T>(parts: seq<seq<T>>, sep: T, bad: T)
    requires bad != sep && Free(parts, bad)
    ensures bad !in Join(parts, sep)
  {
    if |parts| > 1 { JoinAvoids(parts[1..], sep, bad); }
  }

  predicate StartsWith<T(==)>(s: seq<T>, prefix: seq<T>) {
    |prefix| <= |s| && s[..|prefix|] == prefix
  }

  predicate EndsWith<T(==)>(s: seq<T>, suffix: seq<T>) {
    |suffix| <= |s| && s[|s| - |suffix|..] == suffix
  }

  function Filter<T(!new)>(s: seq<T>, p: T -> bool): (r: seq<T>)
    ensures forall x :: x in r <==> x in s && p(x)
    ensures |r| <= |s|
  {
    if s == [] then [] else (if p(s[0]) then [s[0]] else []) + Filter(s[1..], p)
  }

  function MapSeq<T, U>(f: T -> U, s: seq<T>): (r: seq<U>)
    ensures |r| == |s|
    ensures forall i :: 0 <= i < |s| ==> r[i] == f(s[i])
  {
    seq(|s|, i requires 0 <= i < |s| => f(s[i]))
  }

  function RemoveAt<T>(s: seq<T>, k: nat): seq<T>
    requires k < |s|
  {
    s[..k] + s[k + 1..]
  }

  lemma RemovedCount<T>(s: seq<T>, k: nat)
    requires k < |s|
    ensures multiset(s) == multiset(RemoveAt(s, k)) + multiset{s[k]}
  {
    assert s == s[..k] + [s[k]] + s[k + 1..];
  }

  lemma MapRemoved<T, U>(f: T -> U, s: seq<T>, k: nat)
    requires k < |s|
    ensures multiset(MapSeq(f, s)) == multiset(MapSeq(f, RemoveAt(s, k))) + multiset{f(s[k])}
  {
    assert MapSeq(f, RemoveAt(s, k)) == RemoveAt(MapSeq(f, s), k);
    RemovedCount(MapSeq(f, s), k);
  }

  /** Mapping keeps rearrangements. */
  lemma {:induction false} MapPermutes<T, U>(f: T -> U, a: seq<T>, b: seq<T>)
    requires multiset(a) == multiset(b)
    ensures multiset(MapSeq(f, a)) == multiset(MapSeq(f, b))
    decreases |a|
  {
    if a == [] {
      assert |multiset(b)| == |multiset(a)| == 0;
    } else {
      assert a[0] in multiset(b);
      var k :| 0 <= k < |b| && b[k] == a[0];
      RemovedCount(a, 0);
      RemovedCount(b, k);
      assert multiset(RemoveAt(a, 0)) == multiset(a) - multiset{a[0]};
      assert multiset(RemoveAt(b, k)) == multiset(b) - multiset{b[k]};
      MapPermutes(f, RemoveAt(a, 0), RemoveAt(b, k));
      MapRemoved(f, a, 0);
      MapRemoved(f, b, k);
    }
  }

  lemma {:induction false} FilterCount<T(!new)>(s: seq<T>, p: T -> bool, x: T)
    ensures multiset(Filter(s, p))[x] == if p(x) then multiset(s)[x] else 0
  {
    if s != [] {
      FilterCount(s[1..], p, x);
      assert s == [s[0]] + s[1..];
    }
  }

  lemma FilterPermutes<T(!new)>(a: seq<T>, b: seq<T>, p: T -> bool)
    requires multiset(a) == multiset(b)
    ensures multiset(Filter(a, p)) == multiset(Filter(b, p))
  {
    forall x ensures multiset(Filter(a, p))[x] == multiset(Filter(b, p))[x] {
      FilterCount(a, p, x);
      FilterCount(b, p, x);
    }
  }

  // -------------------------------------------------------------- white space

  predicate IsSpace(c: char) { c in " \t\n\r\U{0B}\U{0C}" }

  function TrimLeft(s: string): string {
    if s != "" && IsSpace(s[0]) then TrimLeft(s[1..]) else s
  }

  function TrimRight(s: string): string {
    if s != "" && IsSpace(s[|s| - 1]) then TrimRight(s[..|s| - 1]) else s
  }

  function TrimSpace(s: string): string { TrimRight(TrimLeft(s)) }

  lemma {:induction false} TrimLeftEnds(s: string)
    ensures TrimLeft(s) != "" ==> !IsSpace(TrimLeft(s)[0])
  {
    if s != "" && IsSpace(s[0]) { TrimLeftEnds(s[1..]); }
  }

  /** Trimming the right end keeps a first character that is no space. */
  lemma {:induction false} TrimRightKeeps(s: string)
    requires s != "" && !IsSpace(s[0])
    ensures TrimRight(s) != "" && TrimRight(s)[0] == s[0]
  {
    if IsSpace(s[|s| - 1]) { TrimRightKeeps(s[..|s| - 1]); }
  }

  /** Trimmed text that is not empty is not blank. */
  lemma TrimSpaceTwice(s: string)
    ensures TrimSpace(s) != "" ==> TrimSpace(TrimSpace(s)) != ""
  {
    TrimLeftEnds(s);
    if TrimLeft(s) != "" {
      TrimRightKeeps(TrimLeft(s));
      TrimRightKeeps(TrimSpace(s));
    }
  }

  // ---------------------------------------------------------------- decimals

  predicate IsDigit(c: char) { '0' <= c <= '9' }

  function Digit(n: nat): (c: char)
    requires n < 10
    ensures IsDigit(c)
  {
    '0' + n as char
  }

  /** The decimal text of a natural number, without leading zeros. */
  function Decimal(n: nat): (s: string)
    ensures |s| > 0
    ensures forall c :: c in s ==> IsDigit(c)
  {
    if n < 10 then [Digit(n)] else Decimal(n / 10) + [Digit(n % 10)]
  }

  function DecimalValue(s: string): nat
    requires forall c :: c in s ==> IsDigit(c)
  {
    if s == [] then 0
    else
      assert IsDigit(s[|s| - 1]) by { assert s[|s| - 1] in s; }
      10 * DecimalValue(s[..|s| - 1]) + (s[|s| - 1] as int - '0' as int)
  }

  lemma {:induction false} DecimalRoundTrip(n: nat)
    ensures DecimalValue(Decimal(n)) == n
  {
    if n >= 10 {
      var s := Decimal(n);
      assert s[..|s| - 1] == Decimal(n / 10);
      DecimalRoundTrip(n / 10);
    } else {
      assert Decimal(n)[..0] == [];
    }
  }

  lemma DecimalInjective(m: nat, n: nat)
    requires Decimal(m) == Decimal(n)
    ensures m == n
  {
    DecimalRoundTrip(m);
    DecimalRoundTrip(n);
  }

  // ------------------------------------------------------------ pigeonhole

  /** Distinct elements make the set of elements as large as the sequence. */
  lemma {:induction false} DistinctCount<T>(s: seq<T>)
    ensures |set x | x in s| <= |s|
    ensures |set x | x in s| == |s| ==> forall i, j :: 0 <= i < j < |s| ==> s[i] != s[j]
  {
    if s != [] {
      DistinctCount(s[1..]);
      var rest := set x | x in s[1..];
      assert (set x | x in s) == {s[0]} + rest;
      if s[0] in s[1..] {
        assert {s[0]} + rest == rest;
      }
    }
  }
}
