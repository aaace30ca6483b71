/** One run of augment_cyclonedx settles the document. */
module CycloneSettles {
  import opened Common
  import opened SbomRelease
  import opened CycloneDx
  import opened CycloneDeps
  import opened CycloneParts
  import SbomSettles
  import Sorting

  // ---------- the needs ----------

  /** f looks at nothing that a run changes in a component. */
  ghost predicate Steady(f: Part -> nat) { forall p, q :: Alike(p, q) ==> f(p) == f(q) }

  /** A template that is found by its finder and is no binary. */
  ghost predicate NeedOk(r: Release, need: Need) {
    && Steady(need.finder) && need.finder(need.template) == 1 && need.template.ref.Some?
    && (need.binary.Some? ==> Steady(need.binary.value))
    && (forall m :: IsBinary(r, m, need.template) == 0)
  }

  predicate BinaryMet(binary: Part -> nat, purl: string, source: string, parts: seq<Part>, deps: seq<Dep>, j: nat) {
    && j < |parts| && Sorting.Sum(binary, parts) == 1 && binary(parts[j]) > 0
    && HasProperty(parts[j], SOURCE_PURL, purl) && Tidy(parts[j])
    && Entered(deps, Ref(parts[j])) && Tied(deps, Ref(parts[j]), source)
  }

  /** The component of a need stands at i, and the binary it is marked on at j. */
  predicate MetAt(need: Need, application: string, parts: seq<Part>, deps: seq<Dep>, i: nat, j: nat) {
    && i < |parts| && Sorting.Sum(need.finder, parts) == 1 && need.finder(parts[i]) > 0
    && Entered(deps, Ref(parts[i])) && Tied(deps, application, Ref(parts[i]))
    && (need.binary.Some? ==> BinaryMet(need.binary.value, need.purl, Ref(parts[i]), parts, deps, j))
  }

  ghost predicate Met(need: Need, application: string, parts: seq<Part>, deps: seq<Dep>) {
    exists i: nat, j: nat :: MetAt(need, application, parts, deps, i, j)
  }

  lemma MeetStays(need: Need, application: string, st: State)
    requires DepsOk(st.deps) && Met(need, application, st.parts, st.deps)
    ensures Meet(need, application, st) == Some(st)
  {
    var i: nat, j: nat :| MetAt(need, application, st.parts, st.deps, i, j);
    Sorting.OnlyOne(need.finder, st.parts, i);
    EnterTieStays(st.deps, application, Ref(st.parts[i]));
    if need.binary.Some? {
      MarkStays(need.binary.value, need.purl, Ref(st.parts[i]), st, j);
    }
  }

  lemma MarkStays(binary: Part -> nat, purl: string, source: string, st: State, j: nat)
    requires DepsOk(st.deps) && BinaryMet(binary, purl, source, st.parts, st.deps, j)
    ensures MarkBinary(binary, purl, source, st) == Some(st)
  {
    var p := st.parts[j];
    Sorting.OnlyOne(binary, st.parts, j);
    AddPropertyStays(p, SOURCE_PURL, purl);
    assert st.parts[j := p] == st.parts;
    assert Tie(Enter(st.deps, Ref(p)), Ref(p), source) == Some(st.deps) by {
      EnterGrows(st.deps, Ref(p));
      TieStays(st.deps, Ref(p), source);
    }
  }

  ghost predicate AllMet(needs: seq<Need>, application: string, parts: seq<Part>, deps: seq<Dep>) {
    forall k :: 0 <= k < |needs| ==> Met(needs[k], application, parts, deps)
  }

  lemma {:induction false} SupplyStays(needs: seq<Need>, application: string, st: State)
    requires DepsOk(st.deps) && AllMet(needs, application, st.parts, st.deps)
    ensures Supply(needs, application, st) == Some(st)
    decreases |needs|
  {
    if |needs| > 0 {
      MeetStays(needs[0], application, st);
      assert forall k :: 0 <= k < |needs[1..]| ==> needs[1..][k] == needs[k + 1];
      SupplyStays(needs[1..], application, st);
    }
  }

  // ---------- one need ----------

  lemma EnsureDone(parts: seq<Part>, need: Need)
    requires need.finder(need.template) == 1 && Ensure(parts, need).Some?
    ensures var (after, i) := Ensure(parts, need).value;
      && Extends(parts, after) && Sorting.Sum(need.finder, after) == 1 && need.finder(after[i]) > 0
      && after == parts + (if Sorting.Sum(need.finder, parts) == 0 then [need.template] else [])
  {
    var (after, i) := Ensure(parts, need).value;
    if Sorting.Sum(need.finder, parts) == 0 {
      Sorting.SumAppend(need.finder, parts, [need.template]);
      Sorting.SumOne(need.finder, need.template);
      ExtendsAppend(parts, need.template);
    }
  }

  lemma MarkDone(binary: Part -> nat, purl: string, source: string, st: State, next: State) returns (j: nat)
    requires DepsOk(st.deps) && MarkBinary(binary, purl, source, st) == Some(next)
    requires Steady(binary) && Sorting.Sum(binary, st.parts) == 1
    ensures j < |st.parts| && binary(st.parts[j]) > 0 && next.parts == st.parts[j := next.parts[j]]
    ensures Extends(st.parts, next.parts) && Grown(st.deps, next.deps)
    ensures BinaryMet(binary, purl, source, next.parts, next.deps, j)
  {
    j := Sorting.Index(binary, st.parts);
    var p, q := st.parts[j], next.parts[j];
    AddPropertyDone(p, SOURCE_PURL, purl, q);
    MarkLater(p, purl, q);
    ExtendsUpdate(st.parts, j, q);
    Sorting.SumUpdate(binary, st.parts, j, q);
    MarkDeps(st.deps, Ref(p), source, next.deps);
  }

  lemma MarkDeps(deps: seq<Dep>, from: string, to: string, more: seq<Dep>)
    requires DepsOk(deps) && Tie(Enter(deps, from), from, to) == Some(more)
    ensures Grown(deps, more) && Entered(more, from) && Tied(more, from, to)
  {
    EnterGrows(deps, from);
    TieGrows(Enter(deps, from), from, to);
    GrownTwice(deps, Enter(deps, from), more);
  }

  ghost predicate BinaryThere(need: Need, parts: seq<Part>) {
    need.binary.Some? ==> Sorting.Sum(need.binary.value, parts) == 1 && need.binary.value(need.template) == 0
  }

  /** The steps of meeting a need. */
  lemma MeetSteps(need: Need, application: string, st: State, next: State) returns (mid: State, i: nat)
    requires Meet(need, application, st) == Some(next)
    ensures Ensure(st.parts, need) == Some((mid.parts, i)) && i < |mid.parts|
    ensures EnterTie(st.deps, application, Ref(mid.parts[i])) == Some(mid.deps)
    ensures if need.binary.None? then next == mid
      else MarkBinary(need.binary.value, need.purl, Ref(mid.parts[i]), mid) == Some(next)
  {
    var found := Ensure(st.parts, need).value;
    i := found.1;
    mid := State(found.0, EnterTie(st.deps, application, Ref(found.0[i])).value);
  }

  /** What meeting one need does. */
  lemma MeetDone(r: Release, need: Need, application: string, st: State, next: State)
    requires NeedOk(r, need) && DepsOk(st.deps) && BinaryThere(need, st.parts)
    requires Meet(need, application, st) == Some(next)
    ensures Extends(st.parts, next.parts) && Grown(st.deps, next.deps)
    ensures next.parts[|st.parts|..] == if Sorting.Sum(need.finder, st.parts) == 0 then [need.template] else []
    ensures Met(need, application, next.parts, next.deps)
  {
    var mid, i := MeetSteps(need, application, st, next);
    EnsureDone(st.parts, need);
    EnterTieGrows(st.deps, application, Ref(mid.parts[i]));
    if need.binary.None? {
      assert MetAt(need, application, next.parts, next.deps, i, 0);
    } else {
      MeetBinary(need, application, st, mid, i, next);
    }
  }

  lemma MeetBinary(need: Need, application: string, st: State, mid: State, i: nat, next: State)
    requires need.binary.Some? && BinaryThere(need, st.parts) && Steady(need.binary.value) && Steady(need.finder)
    requires Extends(st.parts, mid.parts) && Grown(st.deps, mid.deps)
    requires mid.parts == st.parts + (if Sorting.Sum(need.finder, st.parts) == 0 then [need.template] else [])
    requires i < |mid.parts| && Sorting.Sum(need.finder, mid.parts) == 1 && need.finder(mid.parts[i]) > 0
    requires Entered(mid.deps, Ref(mid.parts[i])) && Tied(mid.deps, application, Ref(mid.parts[i]))
    requires MarkBinary(need.binary.value, need.purl, Ref(mid.parts[i]), mid) == Some(next)
    ensures Extends(st.parts, next.parts) && Grown(st.deps, next.deps)
    ensures next.parts[|st.parts|..] == mid.parts[|st.parts|..]
    ensures Met(need, application, next.parts, next.deps)
  {
    var binary := need.binary.value;
    Sorting.SumAppend(binary, st.parts, [need.template]);
    Sorting.SumOne(binary, need.template);
    assert st.parts + [] == st.parts;
    var j := MarkDone(binary, need.purl, Ref(mid.parts[i]), mid, next);
    assert j < |st.parts|;
    ExtendsTwice(st.parts, mid.parts, next.parts);
    GrownTwice(st.deps, mid.deps, next.deps);
    assert Later(mid.parts[i], next.parts[i]) && Later(mid.parts[j], next.parts[j]);
    Sorting.SumUpdate(need.finder, mid.parts, j, next.parts[j]);
    assert MetAt(need, application, next.parts, next.deps, i, j);
  }

  lemma MetCounts(need: Need, application: string, parts: seq<Part>, deps: seq<Dep>)
    requires Met(need, application, parts, deps)
    ensures Sorting.Sum(need.finder, parts) == 1
    ensures need.binary.Some? ==> Sorting.Sum(need.binary.value, parts) == 1
  {}

  lemma BinaryKept(binary: Part -> nat, purl: string, source: string, parts: seq<Part>, deps: seq<Dep>, j: nat,
                   after: seq<Part>, more: seq<Dep>)
    requires BinaryMet(binary, purl, source, parts, deps, j) && Extends(parts, after) && Grown(deps, more)
    requires Steady(binary) && Sorting.Sum(binary, after) == 1
    ensures BinaryMet(binary, purl, source, after, more, j)
  {
    assert Later(parts[j], after[j]);
  }

  lemma MetKept(r: Release, need: Need, application: string, parts: seq<Part>, deps: seq<Dep>, after: seq<Part>, more: seq<Dep>)
    requires NeedOk(r, need) && Met(need, application, parts, deps) && Extends(parts, after) && Grown(deps, more)
    requires Sorting.Sum(need.finder, after) == 1
    requires need.binary.Some? ==> Sorting.Sum(need.binary.value, after) == 1
    ensures Met(need, application, after, more)
  {
    var i: nat, j: nat :| MetAt(need, application, parts, deps, i, j);
    assert Later(parts[i], after[i]);
    if need.binary.Some? {
      BinaryKept(need.binary.value, need.purl, Ref(parts[i]), parts, deps, j, after, more);
    }
    assert MetAt(need, application, after, more, i, j);
  }

  // ---------- all needs ----------

  /** What the list of needs keeps to. */
  ghost predicate NeedsFit(r: Release, needs: seq<Need>) {
    && (forall k :: 0 <= k < |needs| ==> NeedOk(r, needs[k]))
    && (forall j, k :: 0 <= j < |needs| && 0 <= k < |needs| && needs[k].finder(needs[j].template) > 0 ==>
          needs[k].finder == needs[j].finder)
    && (forall j, k :: 0 <= j < |needs| && 0 <= k < |needs| && needs[k].binary.Some? ==>
          needs[k].binary.value(needs[j].template) == 0)
  }

  ghost predicate BinariesThere(needs: seq<Need>, parts: seq<Part>) {
    forall k :: 0 <= k < |needs| ==> BinaryThere(needs[k], parts)
  }

  lemma FitRest(r: Release, needs: seq<Need>)
    requires NeedsFit(r, needs) && |needs| > 0
    ensures NeedsFit(r, needs[1..]) && NeedOk(r, needs[0])
  {
    var rest := needs[1..];
    assert forall k :: 0 <= k < |rest| ==> rest[k] == needs[k + 1];
  }

  /** One step changes a steady count by the template alone. */
  lemma MeetCounts(r: Release, need: Need, application: string, st: State, next: State, f: Part -> nat)
    requires NeedOk(r, need) && DepsOk(st.deps) && BinaryThere(need, st.parts) && Steady(f)
    requires Meet(need, application, st) == Some(next)
    ensures Sorting.Sum(f, next.parts)
      == Sorting.Sum(f, st.parts) + if Sorting.Sum(need.finder, st.parts) == 0 then f(need.template) else 0
  {
    MeetDone(r, need, application, st, next);
    SumExtends(f, st.parts, next.parts);
    Sorting.SumOne(f, need.template);
  }

  lemma SupplyNext(r: Release, needs: seq<Need>, application: string, st: State) returns (next: State)
    requires NeedsFit(r, needs) && BinariesThere(needs, st.parts) && DepsOk(st.deps)
    requires |needs| > 0 && Supply(needs, application, st).Some?
    ensures Meet(needs[0], application, st) == Some(next)
    ensures Supply(needs, application, st) == Supply(needs[1..], application, next)
    ensures BinariesThere(needs[1..], next.parts) && Extends(st.parts, next.parts) && Grown(st.deps, next.deps)
  {
    next := Meet(needs[0], application, st).value;
    var rest := needs[1..];
    MeetDone(r, needs[0], application, st, next);
    forall k | 0 <= k < |rest| ensures BinaryThere(rest[k], next.parts) {
      assert rest[k] == needs[k + 1] && NeedOk(r, needs[k + 1]) && BinaryThere(needs[k + 1], st.parts);
      if rest[k].binary.Some? {
        MeetCounts(r, needs[0], application, st, next, rest[k].binary.value);
      }
    }
  }

  lemma {:induction false} SupplyExtends(r: Release, needs: seq<Need>, application: string, st: State, after: State)
    requires NeedsFit(r, needs) && BinariesThere(needs, st.parts) && DepsOk(st.deps)
    requires Supply(needs, application, st) == Some(after)
    ensures Extends(st.parts, after.parts) && Grown(st.deps, after.deps)
    decreases |needs|
  {
    if |needs| > 0 {
      var next := SupplyNext(r, needs, application, st);
      FitRest(r, needs);
      SupplyExtends(r, needs[1..], application, next, after);
      ExtendsTwice(st.parts, next.parts, after.parts);
      GrownTwice(st.deps, next.deps, after.deps);
    }
  }

  /** A steady count that no template changes stays. */
  lemma {:induction false} SupplyCounts(
      r: Release, needs: seq<Need>, application: string, st: State, after: State, f: Part -> nat)
    requires NeedsFit(r, needs) && BinariesThere(needs, st.parts) && DepsOk(st.deps) && Steady(f)
    requires Supply(needs, application, st) == Some(after)
    requires forall k :: 0 <= k < |needs| && f(needs[k].template) > 0 ==> needs[k].finder == f
    ensures Sorting.Sum(f, st.parts) > 0 || (forall k :: 0 <= k < |needs| ==> f(needs[k].template) == 0) ==>
      Sorting.Sum(f, after.parts) == Sorting.Sum(f, st.parts)
    decreases |needs|
  {
    if |needs| > 0 {
      var next := SupplyNext(r, needs, application, st);
      var rest := needs[1..];
      FitRest(r, needs);
      MeetCounts(r, needs[0], application, st, next, f);
      assert forall k :: 0 <= k < |rest| ==> rest[k] == needs[k + 1];
      SupplyCounts(r, rest, application, next, after, f);
    }
  }

  /** The first need stays met. */
  lemma SupplyHead(r: Release, needs: seq<Need>, application: string, st: State, next: State, after: State)
    requires NeedsFit(r, needs) && |needs| > 0 && BinaryThere(needs[0], st.parts) && DepsOk(st.deps)
    requires Meet(needs[0], application, st) == Some(next) && BinariesThere(needs[1..], next.parts)
    requires Supply(needs[1..], application, next) == Some(after)
    ensures Met(needs[0], application, after.parts, after.deps)
  {
    MeetDone(r, needs[0], application, st, next);
    HeadStays(r, needs, application, next, after);
  }

  lemma HeadStays(r: Release, needs: seq<Need>, application: string, next: State, after: State)
    requires NeedsFit(r, needs) && |needs| > 0 && DepsOk(next.deps) && BinariesThere(needs[1..], next.parts)
    requires Met(needs[0], application, next.parts, next.deps)
    requires Supply(needs[1..], application, next) == Some(after)
    ensures Met(needs[0], application, after.parts, after.deps)
  {
    var need, rest := needs[0], needs[1..];
    FitRest(r, needs);
    MetCounts(need, application, next.parts, next.deps);
    assert forall k :: 0 <= k < |rest| ==> rest[k] == needs[k + 1];
    SupplyExtends(r, rest, application, next, after);
    SupplyCounts(r, rest, application, next, after, need.finder);
    if need.binary.Some? {
      SupplyCounts(r, rest, application, next, after, need.binary.value);
    }
    MetKept(r, need, application, next.parts, next.deps, after.parts, after.deps);
  }

  /** Every need is met. */
  lemma {:induction false} SupplyMeets(r: Release, needs: seq<Need>, application: string, st: State, after: State, k: nat)
    requires NeedsFit(r, needs) && BinariesThere(needs, st.parts) && DepsOk(st.deps)
    requires Supply(needs, application, st) == Some(after) && k < |needs|
    ensures Met(needs[k], application, after.parts, after.deps)
    decreases |needs|
  {
    var next := SupplyNext(r, needs, application, st);
    if k == 0 {
      SupplyHead(r, needs, application, st, next, after);
    } else {
      FitRest(r, needs);
      SupplyMeets(r, needs[1..], application, next, after, k - 1);
    }
  }

  // ---------- what is added ----------

  /** The need is met by a new component: none was there and no earlier need brought it. */
  predicate Added(needs: seq<Need>, parts: seq<Part>, k: int) {
    && 0 <= k < |needs| && Sorting.Sum(needs[k].finder, parts) == 0
    && forall j :: 0 <= j < k ==> needs[k].finder(needs[j].template) == 0
  }

  lemma AddedNext(r: Release, needs: seq<Need>, application: string, st: State, next: State, k: nat)
    requires NeedsFit(r, needs) && BinariesThere(needs, st.parts) && DepsOk(st.deps)
    requires |needs| > 0 && Meet(needs[0], application, st) == Some(next)
    ensures Added(needs[1..], next.parts, k) <==> Added(needs, st.parts, k + 1)
  {
    if k + 1 < |needs| {
      var f, rest := needs[k + 1].finder, needs[1..];
      assert forall j :: 0 <= j < |rest| ==> rest[j] == needs[j + 1];
      assert NeedOk(r, needs[0]) && NeedOk(r, needs[k + 1]) && BinaryThere(needs[0], st.parts);
      MeetCounts(r, needs[0], application, st, next, f);
      assert Added(rest, next.parts, k) ==> Added(needs, st.parts, k + 1) by {
        assert forall j :: 0 < j < k + 1 ==> needs[j] == rest[j - 1];
      }
    }
  }

  /** p is the template of a need that had no component. */
  predicate Templated(needs: seq<Need>, parts: seq<Part>, p: Part) {
    exists k :: 0 <= k < |needs| && Added(needs, parts, k) && Alike(needs[k].template, p)
  }

  lemma TemplatedNext(r: Release, needs: seq<Need>, application: string, st: State, next: State, p: Part)
    requires NeedsFit(r, needs) && BinariesThere(needs, st.parts) && DepsOk(st.deps)
    requires |needs| > 0 && Meet(needs[0], application, st) == Some(next)
    requires Templated(needs[1..], next.parts, p)
    ensures Templated(needs, st.parts, p)
  {
    var rest := needs[1..];
    var k :| 0 <= k < |rest| && Added(rest, next.parts, k) && Alike(rest[k].template, p);
    AddedNext(r, needs, application, st, next, k);
    assert rest[k] == needs[k + 1];
  }

  lemma AppendedTemplate(st: State, next: State, template: Part, i: nat)
    requires |st.parts| <= |next.parts| && |st.parts| <= i < |next.parts| && (next.parts[|st.parts|..] == [template] || next.parts[|st.parts|..] == [])
    ensures next.parts[|st.parts|..] == [template] && next.parts[i] == template
  {
    assert next.parts[|st.parts|..][i - |st.parts|] == next.parts[i];
  }

  /** What is appended are such templates. */
  lemma {:induction false} SupplyTail(r: Release, needs: seq<Need>, application: string, st: State, after: State, i: nat)
    requires NeedsFit(r, needs) && BinariesThere(needs, st.parts) && DepsOk(st.deps)
    requires Supply(needs, application, st) == Some(after) && |st.parts| <= i < |after.parts|
    ensures Templated(needs, st.parts, after.parts[i])
    decreases |needs|
  {
    var next := SupplyNext(r, needs, application, st);
    FitRest(r, needs);
    MeetDone(r, needs[0], application, st, next);
    if i < |next.parts| {
      SupplyExtends(r, needs[1..], application, next, after);
      AppendedTemplate(st, next, needs[0].template, i);
      assert Later(next.parts[i], after.parts[i]) && Added(needs, st.parts, 0);
    } else {
      SupplyTail(r, needs[1..], application, next, after, i);
      TemplatedNext(r, needs, application, st, next, after.parts[i]);
    }
  }

  lemma AddedFirst(st: State, next: State, after: State, template: Part)
    requires |st.parts| <= |next.parts| && next.parts[|st.parts|..] == [template] && Extends(next.parts, after.parts)
    ensures |st.parts| < |after.parts| && Alike(template, after.parts[|st.parts|])
  {
    var i := |st.parts|;
    AppendedTemplate(st, next, template, i);
    assert Later(next.parts[i], after.parts[i]);
  }

  lemma SupplyAddsFirst(r: Release, needs: seq<Need>, application: string, st: State, after: State)
    requires NeedsFit(r, needs) && BinariesThere(needs, st.parts) && DepsOk(st.deps)
    requires Supply(needs, application, st) == Some(after) && Added(needs, st.parts, 0)
    ensures |st.parts| < |after.parts| && Alike(needs[0].template, after.parts[|st.parts|])
  {
    var next := SupplyNext(r, needs, application, st);
    FitRest(r, needs);
    MeetDone(r, needs[0], application, st, next);
    SupplyExtends(r, needs[1..], application, next, after);
    AddedFirst(st, next, after, needs[0].template);
  }

  /** And all of them. */
  lemma {:induction false} SupplyAdds(r: Release, needs: seq<Need>, application: string, st: State, after: State, k: nat)
    returns (i: nat)
    requires NeedsFit(r, needs) && BinariesThere(needs, st.parts) && DepsOk(st.deps)
    requires Supply(needs, application, st) == Some(after) && Added(needs, st.parts, k)
    ensures i < |after.parts| && Alike(needs[k].template, after.parts[i])
    decreases |needs|
  {
    if k == 0 {
      i := |st.parts|;
      SupplyAddsFirst(r, needs, application, st, after);
    } else {
      var next := SupplyNext(r, needs, application, st);
      FitRest(r, needs);
      var rest := needs[1..];
      assert rest[k - 1] == needs[k];
      AddedNext(r, needs, application, st, next, k - 1);
      i := SupplyAdds(r, rest, application, next, after, k - 1);
    }
  }

  // ---------- the needs of a release ----------

  /** How the needs of a release are made. */
  ghost predicate FromRelease(r: Release, need: Need) {
    && need.finder == WithPurl(NormalizedPurl(need.purl)) && need.template.purl == need.purl && GENERIC <= need.purl
    && need.template.ref.Some? && (need.binary.Some? ==> exists m :: need.binary.value == BinaryOf(r, m))
  }

  lemma NeedsFromRelease(r: Release, parts: seq<Part>, k: nat)
    requires k < |Needs(r, parts)|
    ensures FromRelease(r, Needs(r, parts)[k])
  {
    var debian := DebianNeeds(r, parts);
    if k < |debian| {
      DebianFromRelease(r, r.mappings[k]);
    } else {
      ComponentFromRelease(r, r.components[k - |debian|]);
    }
  }

  lemma DebianFromRelease(r: Release, m: Mapping)
    ensures FromRelease(r, DebianNeed(r, m))
  {
    SbomSettles.SourcePurlStarts(r, m);
  }

  lemma ComponentFromRelease(r: Release, c: Component)
    ensures FromRelease(r, ComponentNeed(r, c))
  {}

  lemma SteadyPurl(key: string)
    ensures Steady(WithPurl(key))
  {}

  lemma SteadyBinary(r: Release, m: Mapping)
    ensures Steady(BinaryOf(r, m))
  {}

  lemma GenericIsNoBinary(r: Release, p: Part)
    requires GENERIC <= p.purl
    ensures forall m :: IsBinary(r, m, p) == 0
  {
    SbomSettles.GenericIsNotDebian(r, p.purl);
  }

  lemma FromReleaseOk(r: Release, need: Need)
    requires FromRelease(r, need)
    ensures NeedOk(r, need)
  {
    SteadyPurl(NormalizedPurl(need.purl));
    GenericIsNoBinary(r, need.template);
    if need.binary.Some? {
      var m :| need.binary.value == BinaryOf(r, m);
      SteadyBinary(r, m);
    }
  }

  lemma SameFinder(r: Release, a: Need, b: Need)
    requires FromRelease(r, a) && FromRelease(r, b) && a.finder(b.template) > 0
    ensures a.finder == b.finder
  {
    assert NormalizedPurl(b.purl) == NormalizedPurl(a.purl);
  }

  lemma NoBinaryTemplate(r: Release, a: Need, b: Need)
    requires FromRelease(r, a) && FromRelease(r, b) && a.binary.Some?
    ensures a.binary.value(b.template) == 0
  {
    var m :| a.binary.value == BinaryOf(r, m);
    GenericIsNoBinary(r, b.template);
  }

  lemma NeedsAreFit(r: Release, parts: seq<Part>)
    ensures NeedsFit(r, Needs(r, parts))
  {
    var needs := Needs(r, parts);
    forall k | 0 <= k < |needs| ensures FromRelease(r, needs[k]) && NeedOk(r, needs[k]) {
      NeedsFromRelease(r, parts, k);
      FromReleaseOk(r, needs[k]);
    }
    forall j, k | 0 <= j < |needs| && 0 <= k < |needs| && needs[k].finder(needs[j].template) > 0
      ensures needs[k].finder == needs[j].finder
    {
      SameFinder(r, needs[k], needs[j]);
    }
    forall j, k | 0 <= j < |needs| && 0 <= k < |needs| && needs[k].binary.Some?
      ensures needs[k].binary.value(needs[j].template) == 0
    {
      NoBinaryTemplate(r, needs[k], needs[j]);
    }
  }

  lemma NeedsThere(r: Release, parts: seq<Part>)
    requires DebianOk(r, parts)
    ensures BinariesThere(Needs(r, parts), parts)
  {
    var debian, needs := DebianNeeds(r, parts), Needs(r, parts);
    forall k | 0 <= k < |needs| ensures BinaryThere(needs[k], parts) {
      if k < |debian| {
        var m := r.mappings[k];
        assert m in r.mappings && needs[k] == DebianNeed(r, m);
        SbomSettles.SourcePurlStarts(r, m);
        GenericIsNoBinary(r, needs[k].template);
      }
    }
  }

  /** The needs look at the document only to see whether the Debian packages are there. */
  lemma SameNeeds(r: Release, a: seq<Part>, b: seq<Part>)
    requires forall m :: m in r.mappings ==> Binaries(r, a, m) == Binaries(r, b, m)
    ensures Needs(r, a) == Needs(r, b) && (DebianOk(r, a) <==> DebianOk(r, b))
  {
    assert HasDebian(r, a) <==> HasDebian(r, b);
  }
}
