/** Stable insertion sort by a comparison, and what the callers need to know about it. */
module Sorting {

  /** x goes behind the last element it does not precede. */
  function Insert<T>(x: T, s: seq<T>, leq: (T, T) -> bool): seq<T> {
    if s == [] || leq(s[|s| - 1], x) then s + [x]
    else Insert(x, s[..|s| - 1], leq) + [s[|s| - 1]]
  }

  function Sort<T>(s: seq<T>, leq: (T, T) -> bool): seq<T> {
    if s == [] then [] else Insert(s[|s| - 1], Sort(s[..|s| - 1], leq), leq)
  }

  ghost predicate TotalPreorder<T(!new)>(leq: (T, T) -> bool) {
    && (forall a, b :: leq(a, b) || leq(b, a))
    && (forall a, b, c :: leq(a, b) && leq(b, c) ==> leq(a, c))
  }

  predicate SortedBy<T>(s: seq<T>, leq: (T, T) -> bool) {
    forall i, j :: 0 <= i < j < |s| ==> leq(s[i], s[j])
  }

  /** Where x ends up. */
  lemma {:induction false} InsertAt<T(!new)>(x: T, s: seq<T>, leq: (T, T) -> bool) returns (k: nat)
    ensures k <= |s| && Insert(x, s, leq) == s[..k] + [x] + s[k..]
    ensures k == 0 || leq(s[k - 1], x)
    ensures forall i :: k <= i < |s| ==> !leq(s[i], x)
  {
    k := |s|;
    if s == [] || leq(s[|s| - 1], x) {
      assert s[..k] + [x] + s[k..] == s + [x];
    } else {
      var n := |s| - 1;
      k := InsertAt(x, s[..n], leq);
      assert s[..n][..k] == s[..k] && s[..n][k..] + [s[n]] == s[k..];
    }
  }

  lemma SplicedSorted<T(!new)>(x: T, s: seq<T>, k: nat, leq: (T, T) -> bool)
    requires SortedBy(s, leq) && k <= |s|
    requires forall i :: 0 <= i < k ==> leq(s[i], x)
    requires forall i :: k <= i < |s| ==> leq(x, s[i])
    ensures SortedBy(s[..k] + [x] + s[k..], leq)
  {
    var r := s[..k] + [x] + s[k..];
    forall i, j | 0 <= i < j < |r| ensures leq(r[i], r[j]) {
      assert r[i] == if i < k then s[i] else if i == k then x else s[i - 1];
      assert r[j] == if j < k then s[j] else if j == k then x else s[j - 1];
    }
  }

  lemma SplicedBag<T>(x: T, s: seq<T>, k: nat)
    requires k <= |s|
    ensures multiset(s[..k] + [x] + s[k..]) == multiset(s) + multiset{x}
  {
    assert s == s[..k] + s[k..];
  }

  lemma InsertSorted<T(!new)>(x: T, s: seq<T>, leq: (T, T) -> bool)
    requires TotalPreorder(leq) && SortedBy(s, leq)
    ensures SortedBy(Insert(x, s, leq), leq)
    ensures multiset(Insert(x, s, leq)) == multiset(s) + multiset{x}
  {
    var k := InsertAt(x, s, leq);
    SplicedBag(x, s, k);
    forall i | 0 <= i < k ensures leq(s[i], x) {
      assert i == k - 1 || leq(s[i], s[k - 1]);
    }
    SplicedSorted(x, s, k, leq);
  }

  lemma {:induction false} SortSorts<T(!new)>(s: seq<T>, leq: (T, T) -> bool)
    requires TotalPreorder(leq)
    ensures SortedBy(Sort(s, leq), leq) && multiset(Sort(s, leq)) == multiset(s)
  {
    if s != [] {
      var n := |s| - 1;
      SortSorts(s[..n], leq);
      InsertSorted(s[n], Sort(s[..n], leq), leq);
      LastInBag(s);
    }
  }

  lemma LastInBag<T>(s: seq<T>)
    requires s != []
    ensures multiset(s) == multiset(s[..|s| - 1]) + multiset{s[|s| - 1]}
  {
    assert s == s[..|s| - 1] + [s[|s| - 1]];
  }

  /** A sorted list stays as it is, ties included. */
  lemma {:induction false} SortedStays<T(!new)>(s: seq<T>, leq: (T, T) -> bool)
    requires SortedBy(s, leq)
    ensures Sort(s, leq) == s
  {
    if s != [] {
      var n := |s| - 1;
      SortedStays(s[..n], leq);
      assert s == s[..n] + [s[n]];
    }
  }

  lemma Repeated<T>(s: seq<T>, i: nat, j: nat)
    requires i < j < |s|
    ensures s[i] == s[j] ==> multiset(s)[s[i]] >= 2
  {
    assert s == s[..j] + [s[j]] + s[j + 1..];
    assert s[i] in s[..j];
  }

  lemma SameElements<T(!new)>(s: seq<T>, leq: (T, T) -> bool)
    requires TotalPreorder(leq)
    ensures forall x :: x in Sort(s, leq) <==> x in s
  {
    SortSorts(s, leq);
    forall x ensures x in Sort(s, leq) <==> x in s {
      assert x in Sort(s, leq) <==> x in multiset(Sort(s, leq));
    }
  }

  ghost predicate Antisymmetric<T(!new)>(leq: (T, T) -> bool) {
    forall a, b :: leq(a, b) && leq(b, a) ==> a == b
  }

  ghost predicate Reflexive<T(!new)>(leq: (T, T) -> bool) { forall x :: leq(x, x) }

  lemma SameSize<T>(a: seq<T>, b: seq<T>)
    requires multiset(a) == multiset(b)
    ensures |a| == |b|
  {
    assert |multiset(a)| == |multiset(b)|;
  }

  lemma SameLast<T(!new)>(a: seq<T>, b: seq<T>, leq: (T, T) -> bool)
    requires Antisymmetric(leq) && Reflexive(leq) && SortedBy(a, leq) && SortedBy(b, leq)
    requires multiset(a) == multiset(b) && a != [] && |a| == |b|
    ensures a[|a| - 1] == b[|b| - 1]
  {
    var x, y := a[|a| - 1], b[|b| - 1];
    assert x in multiset(b) && y in multiset(a);
    assert leq(x, y) && leq(y, x);
  }

  lemma SameFronts<T>(a: seq<T>, b: seq<T>)
    requires multiset(a) == multiset(b) && a != [] && |a| == |b| && a[|a| - 1] == b[|b| - 1]
    ensures multiset(a[..|a| - 1]) == multiset(b[..|b| - 1])
  {
    var n := |a| - 1;
    assert a == a[..n] + [a[n]] && b == b[..n] + [a[n]];
    assert multiset(a[..n]) == multiset(a) - multiset{a[n]};
    assert multiset(b[..n]) == multiset(b) - multiset{a[n]};
  }

  /** Two sorted lists with the same elements are the same list, so the order in which a
      collection is walked before it is sorted does not show. */
  lemma {:induction false} SortedUnique<T(!new)>(a: seq<T>, b: seq<T>, leq: (T, T) -> bool)
    requires Antisymmetric(leq) && Reflexive(leq)
    requires SortedBy(a, leq) && SortedBy(b, leq) && multiset(a) == multiset(b)
    ensures a == b
  {
    SameSize(a, b);
    if a != [] {
      var n := |a| - 1;
      SameLast(a, b, leq);
      SameFronts(a, b);
      SortedUnique(a[..n], b[..n], leq);
      assert a == a[..n] + [a[n]] && b == b[..n] + [b[n]];
    }
  }

  // ---------- counting ----------

  function Sum<T>(f: T -> nat, s: seq<T>): nat {
    if s == [] then 0 else Sum(f, s[..|s| - 1]) + f(s[|s| - 1])
  }

  lemma {:induction false} SumAppend<T>(f: T -> nat, a: seq<T>, b: seq<T>)
    ensures Sum(f, a + b) == Sum(f, a) + Sum(f, b)
  {
    if b == [] {
      assert a + b == a;
    } else {
      var n := |b| - 1;
      SumAppend(f, a, b[..n]);
      assert (a + b)[..|a + b| - 1] == a + b[..n];
    }
  }

  lemma SumOne<T>(f: T -> nat, x: T)
    ensures Sum(f, [x]) == f(x)
  {
    assert [x][..0] == [];
  }

  lemma SumAt<T>(f: T -> nat, s: seq<T>, i: nat)
    requires i < |s|
    ensures Sum(f, s) == Sum(f, s[..i]) + f(s[i]) + Sum(f, s[i + 1..])
  {
    assert s == s[..i] + [s[i]] + s[i + 1..];
    SumAppend(f, s[..i] + [s[i]], s[i + 1..]);
    SumAppend(f, s[..i], [s[i]]);
    SumOne(f, s[i]);
  }

  lemma SumUpdate<T>(f: T -> nat, s: seq<T>, i: nat, x: T)
    requires i < |s|
    ensures Sum(f, s[i := x]) + f(s[i]) == Sum(f, s) + f(x)
  {
    SumAt(f, s, i);
    SumAt(f, s[i := x], i);
    assert s[i := x][..i] == s[..i] && s[i := x][i + 1..] == s[i + 1..];
  }

  /** A count does not depend on the order. */
  lemma {:induction false} SumSorted<T(!new)>(f: T -> nat, s: seq<T>, leq: (T, T) -> bool)
    ensures Sum(f, Sort(s, leq)) == Sum(f, s)
  {
    if s != [] {
      var n := |s| - 1;
      SumSorted(f, s[..n], leq);
      var t := Sort(s[..n], leq);
      var k := InsertAt(s[n], t, leq);
      SumAt(f, Insert(s[n], t, leq), k);
      var r := Insert(s[n], t, leq);
      assert r[..k] == t[..k] && r[k] == s[n] && r[k + 1..] == t[k..];
      SumAppend(f, t[..k], t[k..]);
      assert t == t[..k] + t[k..];
    }
  }

  /** The first element that counts. */
  function Index<T>(f: T -> nat, s: seq<T>): (i: nat)
    requires Sum(f, s) > 0
    ensures i < |s| && f(s[i]) > 0
  {
    var n := |s| - 1;
    if Sum(f, s[..n]) > 0 then Index(f, s[..n]) else n
  }

  lemma SumMember<T>(f: T -> nat, s: seq<T>, x: T)
    requires x in s
    ensures f(x) <= Sum(f, s)
  {
    var i :| 0 <= i < |s| && s[i] == x;
    SumAt(f, s, i);
  }

  lemma {:induction false} SumZero<T>(f: T -> nat, s: seq<T>)
    requires forall x :: x in s ==> f(x) == 0
    ensures Sum(f, s) == 0
  {
    if s != [] {
      SumZero(f, s[..|s| - 1]);
    }
  }

  /** With a count of one there is one element that counts. */
  lemma OnlyOne<T>(f: T -> nat, s: seq<T>, i: nat)
    requires Sum(f, s) == 1 && i < |s| && f(s[i]) > 0
    ensures f(s[i]) == 1 && i == Index(f, s)
  {
    var k := Index(f, s);
    SumAt(f, s, i);
    if k < i {
      SumMember(f, s[..i], s[k]);
    } else if i < k {
      assert s[i + 1..][k - i - 1] == s[k];
      SumMember(f, s[i + 1..], s[k]);
    }
  }
}
