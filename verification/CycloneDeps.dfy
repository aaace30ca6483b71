/** The dependencies of a CycloneDX document: entries and edges are only added, and a list in its
    final form stays as it is. */
module CycloneDeps {
  import opened Common
  import opened Text
  import opened CycloneDx
  import Sorting

  predicate Entered(deps: seq<Dep>, ref: string) { exists i :: 0 <= i < |deps| && deps[i].ref == Some(ref) }

  predicate TiedBy(d: Dep, from: string, to: string) { d.ref == Some(from) && d.on.Some? && to in d.on.value }

  predicate Tied(deps: seq<Dep>, from: string, to: string) { exists i :: 0 <= i < |deps| && TiedBy(deps[i], from, to) }

  /** Nothing that deps says is lost. */
  ghost predicate Grown(deps: seq<Dep>, more: seq<Dep>) {
    && DepsOk(more)
    && (forall ref :: Entered(deps, ref) ==> Entered(more, ref))
    && (forall from, to :: Tied(deps, from, to) ==> Tied(more, from, to))
  }

  lemma GrownTwice(a: seq<Dep>, b: seq<Dep>, c: seq<Dep>)
    requires Grown(a, b) && Grown(b, c)
    ensures Grown(a, c)
  {}

  /** With distinct references there is one entry at most. */
  lemma {:induction false} DepCount(deps: seq<Dep>, ref: string)
    requires DepsOk(deps)
    ensures Sorting.Sum(DepAt(ref), deps) == if Entered(deps, ref) then 1 else 0
  {
    if deps != [] {
      var n := |deps| - 1;
      var front := deps[..n];
      DepCount(front, ref);
      assert forall i :: 0 <= i < n ==> front[i] == deps[i];
      if Entered(front, ref) {
        var i :| 0 <= i < n && front[i].ref == Some(ref);
        assert deps[i].ref == Some(ref) && deps[n].ref != deps[i].ref;
      }
      assert Entered(deps, ref) <==> Entered(front, ref) || deps[n].ref == Some(ref);
    }
  }

  lemma DistinctByCount(deps: seq<Dep>)
    requires forall i :: 0 <= i < |deps| ==> deps[i].ref.Some?
    requires forall ref :: Sorting.Sum(DepAt(ref), deps) <= 1
    ensures DepsOk(deps)
  {
    forall i, j | 0 <= i < j < |deps| ensures deps[i].ref != deps[j].ref {
      if deps[i].ref == deps[j].ref {
        var ref := deps[i].ref.value;
        Sorting.SumMember(DepAt(ref), deps, deps[i]);
        Sorting.OnlyOne(DepAt(ref), deps, i);
        Sorting.OnlyOne(DepAt(ref), deps, j);
      }
    }
  }

  lemma EnterGrows(deps: seq<Dep>, ref: string)
    requires DepsOk(deps)
    ensures Grown(deps, Enter(deps, ref)) && Entered(Enter(deps, ref), ref)
    ensures Entered(deps, ref) ==> Enter(deps, ref) == deps
  {
    DepCount(deps, ref);
    var more := Enter(deps, ref);
    if !Entered(deps, ref) {
      assert more[|deps|].ref == Some(ref);
      forall x | Entered(deps, x) ensures Entered(more, x) {
        var i :| 0 <= i < |deps| && deps[i].ref == Some(x);
        assert more[i] == deps[i];
      }
      forall from, to | Tied(deps, from, to) ensures Tied(more, from, to) {
        var i :| 0 <= i < |deps| && TiedBy(deps[i], from, to);
        assert more[i] == deps[i];
      }
    }
  }

  /** The entry an edge starts from. */
  lemma TieAt(deps: seq<Dep>, from: string, i: nat)
    requires DepsOk(deps) && i < |deps| && deps[i].ref == Some(from)
    ensures Sorting.Sum(DepAt(from), deps) == 1 && Sorting.Index(DepAt(from), deps) == i
  {
    DepCount(deps, from);
    Sorting.OnlyOne(DepAt(from), deps, i);
  }

  lemma TieStays(deps: seq<Dep>, from: string, to: string)
    requires DepsOk(deps) && Tied(deps, from, to)
    ensures Tie(deps, from, to) == Some(deps)
  {
    var i :| 0 <= i < |deps| && TiedBy(deps[i], from, to);
    TieAt(deps, from, i);
  }

  lemma TieGrows(deps: seq<Dep>, from: string, to: string)
    requires DepsOk(deps) && Tie(deps, from, to).Some?
    ensures Grown(deps, Tie(deps, from, to).value) && Tied(Tie(deps, from, to).value, from, to)
  {
    var more := Tie(deps, from, to).value;
    var i := Sorting.Index(DepAt(from), deps);
    assert more[i].ref == Some(from) && TiedBy(more[i], from, to);
    forall x | Entered(deps, x) ensures Entered(more, x) {
      var k :| 0 <= k < |deps| && deps[k].ref == Some(x);
      assert more[k].ref == deps[k].ref;
    }
    forall x, y | Tied(deps, x, y) ensures Tied(more, x, y) {
      var k :| 0 <= k < |deps| && TiedBy(deps[k], x, y);
      assert TiedBy(more[k], x, y);
    }
  }

  lemma EnterTieGrows(deps: seq<Dep>, from: string, to: string)
    requires DepsOk(deps) && EnterTie(deps, from, to).Some?
    ensures var more := EnterTie(deps, from, to).value;
      Grown(deps, more) && Entered(more, to) && Tied(more, from, to)
  {
    EnterGrows(deps, to);
    TieGrows(Enter(deps, to), from, to);
    GrownTwice(deps, Enter(deps, to), EnterTie(deps, from, to).value);
  }

  lemma EnterTieStays(deps: seq<Dep>, from: string, to: string)
    requires DepsOk(deps) && Entered(deps, to) && Tied(deps, from, to)
    ensures EnterTie(deps, from, to) == Some(deps)
  {
    EnterGrows(deps, to);
    TieStays(deps, from, to);
  }

  // ---------- the final form ----------

  predicate Once(s: seq<string>) { forall i, j :: 0 <= i < j < |s| ==> s[i] != s[j] }

  lemma {:induction false} DistinctlyOnce(s: seq<string>)
    ensures Once(Distinctly(s)) && forall x :: x in Distinctly(s) <==> x in s
  {
    if s != [] {
      DistinctlyOnce(s[..|s| - 1]);
      assert s == s[..|s| - 1] + [s[|s| - 1]];
    }
  }

  lemma {:induction false} OnceStays(s: seq<string>)
    requires Once(s)
    ensures Distinctly(s) == s
  {
    if s != [] {
      var n := |s| - 1;
      OnceStays(s[..n]);
      assert s == s[..n] + [s[n]];
    }
  }

  lemma OnceSorted(s: seq<string>)
    requires Once(s)
    ensures Once(Sorting.Sort(s, Leq))
  {
    LeqIsOrder();
    var t := Sorting.Sort(s, Leq);
    Sorting.SortSorts(s, Leq);
    forall i, j | 0 <= i < j < |t| ensures t[i] != t[j] {
      Sorting.Repeated(t, i, j);
      OnceBag(s, t[i]);
    }
  }

  lemma {:induction false} OnceBag(s: seq<string>, x: string)
    requires Once(s)
    ensures multiset(s)[x] <= 1
  {
    if s != [] {
      var n := |s| - 1;
      OnceBag(s[..n], x);
      Sorting.LastInBag(s);
      assert s[n] !in s[..n];
    }
  }

  predicate Neat(d: Dep) { Canonical(d) == d }

  lemma CanonicalNeat(d: Dep)
    ensures Neat(Canonical(d)) && Canonical(d).ref == d.ref
    ensures forall from, to :: TiedBy(d, from, to) ==> TiedBy(Canonical(d), from, to)
  {
    var list := if d.on.Some? then d.on.value else [];
    var short := Distinctly(list);
    LeqIsOrder();
    DistinctlyOnce(list);
    OnceSorted(short);
    Sorting.SortSorts(short, Leq);
    Sorting.SameElements(short, Leq);
    OnceStays(Sorting.Sort(short, Leq));
    Sorting.SortedStays(Sorting.Sort(short, Leq), Leq);
  }

  lemma RefOrder()
    ensures Sorting.TotalPreorder(ByRef)
  {
    LeqIsOrder();
  }

  ghost predicate DepsFinal(deps: seq<Dep>) {
    Sorting.SortedBy(deps, ByRef) && forall d :: d in deps ==> Neat(d)
  }

  lemma CanonicalGrows(deps: seq<Dep>)
    requires DepsOk(deps)
    ensures Grown(deps, CanonicalAll(deps)) && forall d :: d in CanonicalAll(deps) ==> Neat(d)
  {
    var more := CanonicalAll(deps);
    forall i | 0 <= i < |deps|
      ensures Neat(more[i]) && more[i].ref == deps[i].ref
      ensures forall from, to :: TiedBy(deps[i], from, to) ==> TiedBy(more[i], from, to)
    {
      CanonicalNeat(deps[i]);
    }
    forall x | Entered(deps, x) ensures Entered(more, x) {
      var k :| 0 <= k < |deps| && deps[k].ref == Some(x);
      assert more[k].ref == deps[k].ref;
    }
    forall x, y | Tied(deps, x, y) ensures Tied(more, x, y) {
      var k :| 0 <= k < |deps| && TiedBy(deps[k], x, y);
      assert TiedBy(more[k], x, y);
    }
  }

  lemma SortGrows(deps: seq<Dep>)
    requires DepsOk(deps)
    ensures Grown(deps, Sorting.Sort(deps, ByRef))
  {
    var more := Sorting.Sort(deps, ByRef);
    RefOrder();
    Sorting.SameElements(deps, ByRef);
    forall ref ensures Sorting.Sum(DepAt(ref), more) <= 1 {
      Sorting.SumSorted(DepAt(ref), deps, ByRef);
      DepCount(deps, ref);
    }
    forall i | 0 <= i < |more| ensures more[i].ref.Some? {
      assert more[i] in deps;
    }
    DistinctByCount(more);
    forall x | Entered(deps, x) ensures Entered(more, x) {
      var k :| 0 <= k < |deps| && deps[k].ref == Some(x);
      assert deps[k] in more;
    }
    forall x, y | Tied(deps, x, y) ensures Tied(more, x, y) {
      var k :| 0 <= k < |deps| && TiedBy(deps[k], x, y);
      assert deps[k] in more;
    }
  }

  /** The final form of the dependencies. */
  function Finished(deps: seq<Dep>): seq<Dep> { Sorting.Sort(CanonicalAll(deps), ByRef) }

  lemma FinishGrows(deps: seq<Dep>)
    requires DepsOk(deps)
    ensures Grown(deps, Finished(deps)) && DepsFinal(Finished(deps))
  {
    CanonicalGrows(deps);
    SortGrows(CanonicalAll(deps));
    GrownTwice(deps, CanonicalAll(deps), Finished(deps));
    RefOrder();
    Sorting.SortSorts(CanonicalAll(deps), ByRef);
    Sorting.SameElements(CanonicalAll(deps), ByRef);
  }

  lemma FinalStays(deps: seq<Dep>)
    requires DepsFinal(deps)
    ensures Finished(deps) == deps
  {
    forall i | 0 <= i < |deps| ensures Canonical(deps[i]) == deps[i] {
      assert deps[i] in deps;
    }
    assert CanonicalAll(deps) == deps;
    Sorting.SortedStays(deps, ByRef);
  }

  // ---------- the loop over all components ----------

  ghost predicate Linked(parts: seq<Part>, a: nat, application: string, deps: seq<Dep>) {
    forall i :: 0 <= i < |parts| && i != a && Wanted(parts[i]) ==> Tied(deps, application, Ref(parts[i]))
  }

  lemma {:induction false} LinkGrows(parts: seq<Part>, a: nat, application: string, i: nat, deps: seq<Dep>, more: seq<Dep>)
    requires i <= |parts| && DepsOk(deps) && LinkAll(parts, a, application, i, deps) == Some(more)
    ensures Grown(deps, more)
    ensures forall k :: i <= k < |parts| && k != a && Wanted(parts[k]) ==> Tied(more, application, Ref(parts[k]))
    decreases |parts| - i
  {
    if i < |parts| {
      if i != a && Wanted(parts[i]) {
        var next := Tie(deps, application, Ref(parts[i])).value;
        TieGrows(deps, application, Ref(parts[i]));
        LinkGrows(parts, a, application, i + 1, next, more);
        GrownTwice(deps, next, more);
      } else {
        LinkGrows(parts, a, application, i + 1, deps, more);
      }
    }
  }

  lemma {:induction false} LinkStays(parts: seq<Part>, a: nat, application: string, i: nat, deps: seq<Dep>)
    requires i <= |parts| && DepsOk(deps) && Linked(parts, a, application, deps)
    ensures LinkAll(parts, a, application, i, deps) == Some(deps)
    decreases |parts| - i
  {
    if i < |parts| {
      if i != a && Wanted(parts[i]) {
        TieStays(deps, application, Ref(parts[i]));
      }
      LinkStays(parts, a, application, i + 1, deps);
    }
  }
}
