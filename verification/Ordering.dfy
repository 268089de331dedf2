/** Sorting by a strict total order, and why its result does not depend on the order in
    which the elements were listed. */
module Ordering {
  ghost predicate Distinct<T>(s: seq<T>) { forall i, j :: 0 <= i < j < |s| ==> s[i] != s[j] }

  /** `less` orders the elements of `s` strictly and totally. */
  ghost predicate Orders<T>(less: (T, T) -> bool, s: seq<T>) {
    && (forall a :: a in s ==> !less(a, a))
    && (forall a, b :: a in s && b in s && a != b ==> less(a, b) || less(b, a))
    && (forall a, b, c :: a in s && b in s && c in s && less(a, b) && less(b, c) ==> less(a, c))
  }

  ghost predicate Sorted<T>(less: (T, T) -> bool, s: seq<T>) {
    forall i, j :: 0 <= i < j < |s| ==> less(s[i], s[j])
  }

  lemma SameElements<T>(a: seq<T>, b: seq<T>)
    requires multiset(a) == multiset(b)
    ensures |a| == |b| && forall x :: x in a <==> x in b
  {
    forall x ensures x in a <==> x in b {
      assert x in a <==> x in multiset(a);
      assert x in b <==> x in multiset(b);
    }
    assert |multiset(a)| == |a| && |multiset(b)| == |b|;
  }

  lemma MultisetWithout<T>(s: seq<T>, i: nat)
    requires i < |s|
    ensures multiset(s[..i] + s[i + 1..]) == multiset(s) - multiset{s[i]}
  {
    assert s == s[..i] + ([s[i]] + s[i + 1..]);
  }

  lemma {:induction false} DistinctCounts<T>(s: seq<T>)
    ensures Distinct(s) <==> forall x :: multiset(s)[x] <= 1
  {
    if |s| > 0 {
      var last, front := s[|s| - 1], s[..|s| - 1];
      assert s == front + [last];
      DistinctCounts(front);
      assert forall x :: multiset(s)[x] == multiset(front)[x] + (if x == last then 1 else 0);
      assert last in front <==> multiset(front)[last] > 0;
      if Distinct(s) {
        assert Distinct(front);
        assert last !in front;
      }
      if Distinct(front) && last !in front {
        forall i, j | 0 <= i < j < |s| ensures s[i] != s[j] {
          if j == |s| - 1 { assert s[i] in front; } else { assert s[i] == front[i] && s[j] == front[j]; }
        }
      }
    }
  }

  lemma DistinctByMultiset<T>(a: seq<T>, b: seq<T>)
    requires multiset(a) == multiset(b) && Distinct(a)
    ensures Distinct(b)
  {
    DistinctCounts(a);
    DistinctCounts(b);
  }

  lemma SameMultiset<T>(a: seq<T>, b: seq<T>)
    requires Distinct(a) && Distinct(b) && forall x :: x in a <==> x in b
    ensures multiset(a) == multiset(b)
  {
    DistinctCounts(a);
    DistinctCounts(b);
    forall x ensures multiset(a)[x] == multiset(b)[x] {
      assert x in a <==> x in multiset(a);
      assert x in b <==> x in multiset(b);
    }
  }

  lemma OrdersPart<T>(less: (T, T) -> bool, s: seq<T>, t: seq<T>)
    requires Orders(less, s) && forall x :: x in t ==> x in s
    ensures Orders(less, t)
  {
  }

  lemma TailKeeps<T>(less: (T, T) -> bool, s: seq<T>)
    requires |s| > 0 && Sorted(less, s)
    ensures Sorted(less, s[1..]) && forall x :: x in s[1..] ==> x in s
  {
  }

  /** A sorted listing is unique: any two agree, whatever they were sorted from. */
  lemma {:induction false} SortedUnique<T>(less: (T, T) -> bool, a: seq<T>, b: seq<T>)
    requires multiset(a) == multiset(b) && Orders(less, a)
    requires Sorted(less, a) && Sorted(less, b)
    ensures a == b
  {
    SameElements(a, b);
    if |a| > 0 {
      FirstIsLeast(less, a, b);
      assert a == [a[0]] + a[1..] && b == [b[0]] + b[1..];
      assert multiset(a[1..]) == multiset(a) - multiset{a[0]};
      assert multiset(b[1..]) == multiset(b) - multiset{b[0]};
      TailKeeps(less, a);
      TailKeeps(less, b);
      OrdersPart(less, a, a[1..]);
      SortedUnique(less, a[1..], b[1..]);
    }
  }

  lemma FirstIsLeast<T>(less: (T, T) -> bool, a: seq<T>, b: seq<T>)
    requires |a| > 0 && |b| > 0 && Orders(less, a)
    requires forall x :: x in a <==> x in b
    requires Sorted(less, a) && Sorted(less, b)
    ensures a[0] == b[0]
  {
    assert a[0] in b && b[0] in a;
    var i :| 0 <= i < |b| && b[i] == a[0];
    var j :| 0 <= j < |a| && a[j] == b[0];
    var x, y := a[0], b[0];
    assert i == 0 || less(y, x);
    assert j == 0 || less(x, y);
  }

  lemma BelowPosition<T>(less: (T, T) -> bool, s: seq<T>, x: T, k: nat, i: nat)
    requires Orders(less, s + [x]) && Sorted(less, s) && x !in s
    requires i < k <= |s| && !less(x, s[k - 1])
    ensures less(s[i], x)
  {
    var t := s + [x];
    assert t[i] in t && t[k - 1] in t && t[|s|] in t;
    assert s[k - 1] in s;
    assert less(s[k - 1], x);
  }

  lemma InsertSorts<T>(less: (T, T) -> bool, s: seq<T>, x: T, k: nat)
    requires k <= |s| && Sorted(less, s)
    requires forall i :: 0 <= i < k ==> less(s[i], x)
    requires forall i :: k <= i < |s| ==> less(x, s[i])
    ensures Sorted(less, s[..k] + [x] + s[k..])
  {
    var r := s[..k] + [x] + s[k..];
    forall i, j | 0 <= i < j < |r| ensures less(r[i], r[j]) {
      assert r[i] == if i < k then s[i] else if i == k then x else s[i - 1];
      assert r[j] == if j < k then s[j] else if j == k then x else s[j - 1];
    }
  }

  /** Insertion into a sorted sequence. */
  method Insert<T>(less: (T, T) -> bool, s: seq<T>, x: T) returns (r: seq<T>)
    requires Orders(less, s + [x]) && Sorted(less, s) && x !in s
    ensures Sorted(less, r) && multiset(r) == multiset(s) + multiset{x}
  {
    var k := |s|;
    while k > 0 && less(x, s[k - 1])
      invariant 0 <= k <= |s|
      invariant forall i :: k <= i < |s| ==> less(x, s[i])
    {
      k := k - 1;
    }
    forall i | 0 <= i < k ensures less(s[i], x) { BelowPosition(less, s, x, k, i); }
    InsertSorts(less, s, x, k);
    r := s[..k] + [x] + s[k..];
    assert s == s[..k] + s[k..];
  }

  method Sort<T>(less: (T, T) -> bool, s: seq<T>) returns (r: seq<T>)
    requires Orders(less, s) && Distinct(s)
    ensures Sorted(less, r) && multiset(r) == multiset(s)
  {
    r := [];
    for i := 0 to |s|
      invariant Sorted(less, r) && multiset(r) == multiset(s[..i])
    {
      SameElements(r, s[..i]);
      forall y | y in r ensures y in s && y != s[i] {
        var j :| 0 <= j < i && s[..i][j] == y;
        assert s[j] == y;
      }
      assert forall y :: y in r + [s[i]] ==> y in s;
      r := Insert(less, r, s[i]);
      assert s[..i + 1] == s[..i] + [s[i]];
    }
    assert s[..|s|] == s;
  }

  /** The elements of a set in some order. */
  lemma {:induction false} ListOf<T>(a: set<T>) returns (s: seq<T>)
    ensures Distinct(s) && forall x :: x in s <==> x in a
  {
    s := [];
    if a != {} {
      var x :| x in a;
      var t := ListOf(a - {x});
      s := t + [x];
    }
  }

  /** What Sort computes, where only its existence is needed. */
  lemma {:induction false} SortedExists<T>(less: (T, T) -> bool, s: seq<T>) returns (r: seq<T>)
    requires Orders(less, s) && Distinct(s)
    ensures Sorted(less, r) && multiset(r) == multiset(s)
  {
    r := [];
    if |s| > 0 {
      var x, front := s[|s| - 1], s[..|s| - 1];
      assert s == front + [x];
      OrdersPart(less, s, front);
      var t := SortedExists(less, front);
      SameElements(t, front);
      OrdersPart(less, s, t + [x]);
      var k := PositionExists(less, t, x, |t|);
      InsertSorts(less, t, x, k);
      r := t[..k] + [x] + t[k..];
      assert t == t[..k] + t[k..];
    }
  }

  lemma {:induction false} PositionExists<T>(less: (T, T) -> bool, s: seq<T>, x: T, n: nat) returns (k: nat)
    requires Orders(less, s + [x]) && Sorted(less, s) && x !in s && n <= |s|
    requires forall i :: n <= i < |s| ==> less(x, s[i])
    ensures k <= |s|
    ensures (forall i :: 0 <= i < k ==> less(s[i], x)) && (forall i :: k <= i < |s| ==> less(x, s[i]))
  {
    if n > 0 && less(x, s[n - 1]) {
      k := PositionExists(less, s, x, n - 1);
    } else {
      k := n;
      forall i | 0 <= i < k ensures less(s[i], x) { BelowPosition(less, s, x, k, i); }
    }
  }

  // ----- sums that do not depend on the order

  ghost function SumOf<T>(size: T -> int, s: seq<T>): int {
    if |s| == 0 then 0 else SumOf(size, s[..|s| - 1]) + size(s[|s| - 1])
  }

  lemma {:induction false} SumOfConcat<T>(size: T -> int, a: seq<T>, b: seq<T>)
    ensures SumOf(size, a + b) == SumOf(size, a) + SumOf(size, b)
  {
    if |b| == 0 {
      assert a + b == a;
    } else {
      assert (a + b)[..|a + b| - 1] == a + b[..|b| - 1];
      SumOfConcat(size, a, b[..|b| - 1]);
    }
  }

  lemma {:induction false} SumAround<T>(size: T -> int, a: seq<T>, x: T, b: seq<T>)
    ensures SumOf(size, a + [x] + b) == SumOf(size, a + b) + size(x)
  {
    SumOfConcat(size, a + [x], b);
    SumOfConcat(size, a, b);
    assert (a + [x])[..|a|] == a;
  }

  lemma {:induction false} SumWithout<T>(size: T -> int, s: seq<T>, i: nat)
    requires i < |s|
    ensures SumOf(size, s) == SumOf(size, s[..i] + s[i + 1..]) + size(s[i])
  {
    assert s == s[..i] + [s[i]] + s[i + 1..];
    SumAround(size, s[..i], s[i], s[i + 1..]);
  }

  lemma {:induction false} SumIsOrderFree<T>(size: T -> int, a: seq<T>, b: seq<T>)
    requires multiset(a) == multiset(b)
    ensures SumOf(size, a) == SumOf(size, b)
  {
    SameElements(a, b);
    if |a| > 0 {
      var last := |a| - 1;
      assert a[last] in b;
      var i :| 0 <= i < |b| && b[i] == a[last];
      MultisetWithout(a, last);
      MultisetWithout(b, i);
      SumWithout(size, a, last);
      SumWithout(size, b, i);
      SumIsOrderFree(size, a[..last] + a[last + 1..], b[..i] + b[i + 1..]);
    }
  }

  lemma {:induction false} SumIsNatural<T>(size: T -> int, s: seq<T>)
    requires forall i :: 0 <= i < |s| ==> size(s[i]) >= 0
    ensures SumOf(size, s) >= 0
  {
    if |s| > 0 { SumIsNatural(size, s[..|s| - 1]); }
  }

  lemma SumOfPrefix<T>(size: T -> int, s: seq<T>, k: nat)
    requires k <= |s| && forall i :: 0 <= i < |s| ==> size(s[i]) >= 0
    ensures 0 <= SumOf(size, s[..k]) <= SumOf(size, s)
  {
    assert s == s[..k] + s[k..];
    SumOfConcat(size, s[..k], s[k..]);
    SumIsNatural(size, s[..k]);
    SumIsNatural(size, s[k..]);
  }

  /** Of a list that never increases, the first `n` have the largest sum any `n` distinct
      elements can have. */
  lemma {:induction false} PrefixIsLargest<T>(size: T -> int, s: seq<T>, n: nat, chosen: seq<T>)
    requires n <= |s| && |chosen| <= n && Distinct(chosen) && forall x :: x in chosen ==> x in s
    requires forall i :: 0 <= i < |s| ==> size(s[i]) >= 0
    requires forall i, j :: 0 <= i < j < |s| ==> size(s[i]) >= size(s[j])
    ensures SumOf(size, chosen) <= SumOf(size, s[..n])
    decreases |s|
  {
    if |chosen| == 0 {
      SumOfPrefix(size, s, n);
    } else {
      var k := if s[0] in chosen then IndexOf(chosen, s[0]) else 0;
      var rest := chosen[..k] + chosen[k + 1..];
      assert chosen[k] in chosen;
      var i :| 0 <= i < |s| && s[i] == chosen[k];
      SumWithout(size, chosen, k);
      RestAmongTail(s, chosen, k);
      DistinctWithout(chosen, k);
      PrefixIsLargest(size, s[1..], n - 1, rest);
      assert s[..n] == [s[0]] + s[1..][..n - 1];
      SumOfConcat(size, [s[0]], s[1..][..n - 1]);
      assert [s[0]][..0] == [];
    }
  }

  function IndexOf<T(==)>(s: seq<T>, x: T): (k: nat)
    requires x in s
    ensures k < |s| && s[k] == x
  {
    if s[0] == x then 0 else 1 + IndexOf(s[1..], x)
  }

  /** Without the head, or without anything if the head is not among them, they are of the tail. */
  lemma RestAmongTail<T>(s: seq<T>, chosen: seq<T>, k: nat)
    requires |s| > 0 && k < |chosen| && Distinct(chosen) && (forall x :: x in chosen ==> x in s)
    requires s[0] in chosen ==> chosen[k] == s[0]
    ensures forall x :: x in chosen[..k] + chosen[k + 1..] ==> x in s[1..]
  {
    forall x | x in chosen[..k] + chosen[k + 1..] ensures x in s[1..] {
      assert x in chosen && x != s[0];
      var j :| 0 <= j < |s| && s[j] == x;
      assert s[1..][j - 1] == x;
    }
  }

  lemma DistinctWithout<T>(s: seq<T>, k: nat)
    requires k < |s| && Distinct(s)
    ensures Distinct(s[..k] + s[k + 1..])
  {
  }

  // ----- strings, compared as Go compares them

  predicate Less(a: string, b: string) {
    if |b| == 0 then false
    else if |a| == 0 then true
    else if a[0] != b[0] then a[0] < b[0]
    else Less(a[1..], b[1..])
  }

  lemma {:induction false} LessIrreflexive(a: string)
    ensures !Less(a, a)
  {
    if |a| > 0 { LessIrreflexive(a[1..]); }
  }

  lemma {:induction false} LessTotal(a: string, b: string)
    ensures a == b || Less(a, b) || Less(b, a)
  {
    if |a| > 0 && |b| > 0 && a[0] == b[0] {
      LessTotal(a[1..], b[1..]);
      if a[1..] == b[1..] { assert a == [a[0]] + a[1..] && b == [b[0]] + b[1..]; }
    }
  }

  lemma {:induction false} LessTransitive(a: string, b: string, c: string)
    requires Less(a, b) && Less(b, c)
    ensures Less(a, c)
  {
    if |a| > 0 && a[0] == b[0] && b[0] == c[0] {
      LessTransitive(a[1..], b[1..], c[1..]);
    }
  }

  /** Less is the byte order: the first place where the strings differ decides, and a proper
      prefix comes first. */
  lemma {:induction false} LessIff(a: string, b: string)
    ensures Less(a, b) <==>
            exists k :: 0 <= k <= |a| && k < |b| && a[..k] == b[..k] && (k == |a| || a[k] < b[k])
  {
    if |a| > 0 && |b| > 0 && a[0] == b[0] {
      LessIff(a[1..], b[1..]);
      if Less(a, b) {
        var k :| 0 <= k <= |a[1..]| && k < |b[1..]| && a[1..][..k] == b[1..][..k] && (k == |a[1..]| || a[1..][k] < b[1..][k]);
        assert a[..k + 1] == [a[0]] + a[1..][..k] && b[..k + 1] == [b[0]] + b[1..][..k];
      }
      if k :| 0 <= k <= |a| && k < |b| && a[..k] == b[..k] && (k == |a| || a[k] < b[k]) {
        assert k > 0;
        assert a[1..][..k - 1] == a[..k][1..] && b[1..][..k - 1] == b[..k][1..];
      }
    } else if |b| > 0 {
      assert a[..0] == b[..0];
      if |a| > 0 {
        forall k | 0 < k <= |a| && k < |b| ensures a[..k] != b[..k] { assert a[..k][0] == a[0] && b[..k][0] == b[0]; }
      }
    }
  }
}
