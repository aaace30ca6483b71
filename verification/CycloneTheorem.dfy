/** The promises of augment_cyclonedx over a whole run, and when a second run changes nothing. */
module CycloneTheorem {
  import opened Common
  import opened Text
  import opened SbomRelease
  import opened CycloneDx
  import opened CycloneDeps
  import opened CycloneParts
  import opened CycloneSettles
  import opened CycloneFiles
  import opened CycloneRefs
  import SbomSettles
  import Sorting

  // ---------- the steps of a run ----------

  /** A successful run: the components with the application at a, the first edges, the state after
      the packages, the state after the source files and the dependencies at the end. */
  datatype Run = Run(parts: seq<Part>, a: nat, deps: seq<Dep>, st: State, s: State, more: seq<Dep>)

  ghost predicate FirstHalf(r: Release, b: Bom, run: Run) {
    && b.root.Some? && DepsOk(b.deps) && run.a < |run.parts|
    && Identify(r, b.parts) == Some((run.parts, run.a)) && DebianOk(r, run.parts)
    && Tie(Enter(Enter(b.deps, b.root.value), Ref(run.parts[run.a])), b.root.value, Ref(run.parts[run.a])) == Some(run.deps)
    && Supply(Needs(r, run.parts), Ref(run.parts[run.a]), State(run.parts, run.deps)) == Some(run.st)
  }

  ghost predicate SecondHalf(r: Release, b: Bom, run: Run, application: string) {
    && AugmentSources(r, b, application, run.st) == Some(run.s)
    && LinkAll(run.s.parts, run.a, application, 0, run.s.deps) == Some(run.more)
  }

  /** The document before the final sort. */
  function Unordered(b: Bom, run: Run): Bom { b.(parts := run.s.parts, deps := run.more) }

  lemma Steps(r: Release, b: Bom) returns (run: Run)
    requires Augment(r, b).Some?
    ensures Readable(b) && FirstHalf(r, b, run)
    ensures run.a < |run.st.parts| && SecondHalf(r, b, run, Ref(run.st.parts[run.a]))
    ensures Augment(r, b) == Some(Ordered(Unordered(b, run)))
  {
    var identified := Identify(r, b.parts).value;
    var parts, a := identified.0, identified.1;
    var deps := Tie(Enter(Enter(b.deps, b.root.value), Ref(parts[a])), b.root.value, Ref(parts[a])).value;
    var st := Supply(Needs(r, parts), Ref(parts[a]), State(parts, deps)).value;
    assert AugmentParts(r, b) == Some((st, a));
    var s := AugmentSources(r, b, Ref(st.parts[a]), st).value;
    run := Run(parts, a, deps, st, s, LinkAll(s.parts, a, Ref(st.parts[a]), 0, s.deps).value);
  }

  // ---------- the application ----------

  predicate NoConflict(r: Release, parts: seq<Part>) { forall p :: p in parts ==> !Conflicts(r, p) }

  /** The application stands at a and carries the release's fields. */
  predicate IsApplication(r: Release, parts: seq<Part>, a: nat) {
    && a < |parts| && Hits(parts, ApplicationPurl(r)) == 1 && Carries(parts[a], ApplicationPurl(r)) > 0
    && Marked(r, parts[a]) == parts[a]
  }

  lemma IdentifyDone(r: Release, parts: seq<Part>, after: seq<Part>, a: nat)
    requires ReleaseOk(r) && Identify(r, parts) == Some((after, a))
    ensures IsApplication(r, after, a) && NoConflict(r, after)
  {
    if Hits(parts, ApplicationPurl(r)) == 1 {
      ApplicationMarked(r, parts, after, a);
    } else {
      ApplicationAdded(r, parts);
    }
  }

  lemma ApplicationMarked(r: Release, parts: seq<Part>, after: seq<Part>, a: nat)
    requires a < |parts| && Hits(parts, ApplicationPurl(r)) == 1 && Carries(parts[a], ApplicationPurl(r)) > 0
    requires after == parts[a := Marked(r, parts[a])] && NoConflict(r, parts)
    ensures IsApplication(r, after, a) && NoConflict(r, after)
  {
    var key := ApplicationPurl(r);
    Sorting.SumUpdate(WithPurl(key), parts, a, after[a]);
    forall p | p in after ensures !Conflicts(r, p) {
      assert p in parts || p == after[a];
    }
  }

  lemma ApplicationAdded(r: Release, parts: seq<Part>)
    requires ReleaseOk(r) && Hits(parts, ApplicationPurl(r)) == 0 && NoConflict(r, parts)
    ensures var after := parts + [Marked(r, NewApplication(r))];
      IsApplication(r, after, |parts|) && NoConflict(r, after)
  {
    var key, application := ApplicationPurl(r), Marked(r, NewApplication(r));
    SbomSettles.ApplicationPurlIsKey(r);
    assert Carries(application, key) == 1;
    Sorting.SumAppend(WithPurl(key), parts, [application]);
    Sorting.SumOne(WithPurl(key), application);
  }

  lemma IdentifyStays(r: Release, parts: seq<Part>, a: nat)
    requires IsApplication(r, parts, a) && NoConflict(r, parts)
    ensures Identify(r, parts) == Some((parts, a))
  {
    Sorting.OnlyOne(WithPurl(ApplicationPurl(r)), parts, a);
    assert parts[a := parts[a]] == parts;
  }

  lemma ApplicationKept(r: Release, parts: seq<Part>, a: nat, after: seq<Part>)
    requires IsApplication(r, parts, a) && Extends(parts, after) && Hits(after, ApplicationPurl(r)) == 1
    ensures IsApplication(r, after, a) && Ref(after[a]) == Ref(parts[a])
  {
    assert Later(parts[a], after[a]);
  }

  // ---------- a settled document ----------

  ghost predicate Rooted(b: Bom, application: string) {
    && b.root.Some? && DepsOk(b.deps)
    && Entered(b.deps, b.root.value) && Entered(b.deps, application) && Tied(b.deps, b.root.value, application)
  }

  /** What one run establishes. */
  ghost predicate Settled(r: Release, b: Bom, a: nat) {
    && IsApplication(r, b.parts, a) && Rooted(b, Ref(b.parts[a])) && DebianOk(r, b.parts)
    && AllMet(Needs(r, b.parts), Ref(b.parts[a]), b.parts, b.deps)
    && (SourceName(b.rootName) ==> AllDone(r.inventory, Ref(b.parts[a]), b.parts, b.deps))
    && Linked(b.parts, a, Ref(b.parts[a]), b.deps)
  }

  lemma RootStays(b: Bom, application: string)
    requires Rooted(b, application)
    ensures Tie(Enter(Enter(b.deps, b.root.value), application), b.root.value, application) == Some(b.deps)
  {
    EnterGrows(b.deps, b.root.value);
    EnterGrows(b.deps, application);
    TieStays(b.deps, b.root.value, application);
  }

  lemma PartsStay(r: Release, b: Bom, a: nat)
    requires Settled(r, b, a) && NoConflict(r, b.parts)
    ensures AugmentParts(r, b) == Some((State(b.parts, b.deps), a))
  {
    IdentifyStays(r, b.parts, a);
    RootStays(b, Ref(b.parts[a]));
    SupplyStays(Needs(r, b.parts), Ref(b.parts[a]), State(b.parts, b.deps));
  }

  lemma SourcesStay(r: Release, b: Bom, application: string)
    requires DepsOk(b.deps) && (SourceName(b.rootName) ==> AllDone(r.inventory, application, b.parts, b.deps))
    ensures AugmentSources(r, b, application, State(b.parts, b.deps))
      == if SourceName(b.rootName) && !AllLower(r.inventory) then None else Some(State(b.parts, b.deps))
  {
    if SourceName(b.rootName) {
      FilesStay(r, application, r.inventory, State(b.parts, b.deps));
    }
  }

  predicate InOrder(b: Bom) { Sorting.SortedBy(b.parts, ByNameRef) }

  lemma OrderStays(b: Bom)
    requires InOrder(b) && DepsFinal(b.deps)
    ensures Ordered(b) == b
  {
    Sorting.SortedStays(b.parts, ByNameRef);
    FinalStays(b.deps);
    assert Finished(b.deps) == b.deps;
  }

  /** A run of a settled document in order: what it comes to. */
  lemma SettledRun(r: Release, b: Bom, a: nat)
    requires Settled(r, b, a) && InOrder(b) && DepsFinal(b.deps) && b.root.value != ""
    ensures Augment(r, b) == if RefsOk(b.parts) && NoConflict(r, b.parts) && (SourceName(b.rootName) ==> AllLower(r.inventory))
      then Some(b) else None
  {
    if RefsOk(b.parts) {
      if NoConflict(r, b.parts) {
        PartsStay(r, b, a);
        SourcesStay(r, b, Ref(b.parts[a]));
        LinkStays(b.parts, a, Ref(b.parts[a]), 0, b.deps);
        OrderStays(b);
        RunsThrough(r, b, a);
      } else {
        ConflictStops(r, b);
      }
    }
  }

  lemma RunsThrough(r: Release, b: Bom, a: nat)
    requires Readable(b) && a < |b.parts| && AugmentParts(r, b) == Some((State(b.parts, b.deps), a))
    requires AugmentSources(r, b, Ref(b.parts[a]), State(b.parts, b.deps)) in {None, Some(State(b.parts, b.deps))}
    requires LinkAll(b.parts, a, Ref(b.parts[a]), 0, b.deps) == Some(b.deps) && Ordered(b) == b
    ensures Augment(r, b)
      == if AugmentSources(r, b, Ref(b.parts[a]), State(b.parts, b.deps)).Some? then Some(b) else None
  {
    assert b.(parts := b.parts, deps := b.deps) == b;
  }

  lemma ConflictStops(r: Release, b: Bom)
    requires !NoConflict(r, b.parts)
    ensures Augment(r, b) == None
  {
    assert Identify(r, b.parts) == None;
  }

  // ---------- one run settles the document ----------

  lemma NewPartCounts(r: Release, rec: Record, key: string, m: Mapping)
    ensures Carries(NewPart(r, rec), key) == 0 && IsBinary(r, m, NewPart(r, rec)) == 0
  {
    assert Base("") == "";
  }

  lemma RootDone(b: Bom, application: string, deps: seq<Dep>)
    requires b.root.Some? && DepsOk(b.deps)
    requires Tie(Enter(Enter(b.deps, b.root.value), application), b.root.value, application) == Some(deps)
    ensures Rooted(b.(deps := deps), application)
  {
    var one := Enter(b.deps, b.root.value);
    EnterGrows(b.deps, b.root.value);
    EnterGrows(one, application);
    TieGrows(Enter(one, application), b.root.value, application);
  }

  lemma RootKept(b: Bom, application: string, deps: seq<Dep>, more: seq<Dep>)
    requires Rooted(b.(deps := deps), application) && Grown(deps, more)
    ensures Rooted(b.(deps := more), application)
  {}

  /** The state after the packages. */
  ghost predicate PackagesDone(r: Release, b: Bom, run: Run, application: string) {
    && Extends(run.parts, run.st.parts) && Grown(run.deps, run.st.deps)
    && IsApplication(r, run.st.parts, run.a) && Ref(run.st.parts[run.a]) == application
    && Rooted(b.(deps := run.st.deps), application)
    && (forall m :: Binaries(r, run.st.parts, m) == Binaries(r, run.parts, m))
    && AllMet(Needs(r, run.parts), application, run.st.parts, run.st.deps)
  }

  lemma SupplyKeepsCounts(r: Release, parts: seq<Part>, application: string, st: State, after: State)
    requires DebianOk(r, parts) && st.parts == parts && DepsOk(st.deps)
    requires Supply(Needs(r, parts), application, st) == Some(after)
    ensures Hits(parts, ApplicationPurl(r)) == 1 ==> Hits(after.parts, ApplicationPurl(r)) == 1
    ensures forall m :: Binaries(r, after.parts, m) == Binaries(r, parts, m)
  {
    var needs := Needs(r, parts);
    NeedsAreFit(r, parts);
    NeedsThere(r, parts);
    SteadyPurl(ApplicationPurl(r));
    forall k | 0 <= k < |needs| && WithPurl(ApplicationPurl(r))(needs[k].template) > 0
      ensures needs[k].finder == WithPurl(ApplicationPurl(r))
    {
      NeedsFromRelease(r, parts, k);
    }
    SupplyCounts(r, needs, application, st, after, WithPurl(ApplicationPurl(r)));
    forall m ensures Binaries(r, after.parts, m) == Binaries(r, parts, m) {
      SteadyBinary(r, m);
      forall k | 0 <= k < |needs| ensures BinaryOf(r, m)(needs[k].template) == 0 {
        assert NeedOk(r, needs[k]);
      }
      SupplyCounts(r, needs, application, st, after, BinaryOf(r, m));
    }
  }

  lemma PackagesAreDone(r: Release, b: Bom, run: Run)
    requires ReleaseOk(r) && FirstHalf(r, b, run)
    ensures PackagesDone(r, b, run, Ref(run.parts[run.a])) && NoConflict(r, run.parts)
  {
    var application, st := Ref(run.parts[run.a]), State(run.parts, run.deps);
    var needs := Needs(r, run.parts);
    IdentifyDone(r, b.parts, run.parts, run.a);
    RootDone(b, application, run.deps);
    NeedsAreFit(r, run.parts);
    NeedsThere(r, run.parts);
    SupplyExtends(r, needs, application, st, run.st);
    SupplyKeepsCounts(r, run.parts, application, st, run.st);
    ApplicationKept(r, run.parts, run.a, run.st.parts);
    RootKept(b, application, run.deps, run.st.deps);
    forall k | 0 <= k < |needs| ensures Met(needs[k], application, run.st.parts, run.st.deps) {
      SupplyMeets(r, needs, application, st, run.st, k);
    }
  }

  /** The state after the source files. */
  ghost predicate SourcesDone(r: Release, b: Bom, run: Run, application: string) {
    && Extends(run.st.parts, run.s.parts) && Grown(run.st.deps, run.s.deps)
    && (forall key :: Hits(run.s.parts, key) == Hits(run.st.parts, key))
    && (forall m :: Binaries(r, run.s.parts, m) == Binaries(r, run.st.parts, m))
    && (SourceName(b.rootName) ==> AllDone(r.inventory, application, run.s.parts, run.s.deps))
  }

  lemma InventoryFits(r: Release, parts: seq<Part>)
    requires InventoryRead(r)
    ensures AllRead(r.inventory) && DistinctPaths(r.inventory) && TailClear(parts, |parts|, r.inventory)
  {
    assert parts[..|parts|] == parts;
  }

  lemma FilesKeepCounts(r: Release, application: string, st: State, s: State)
    requires InventoryRead(r) && DepsOk(st.deps)
    requires FileAll(r, application, |st.parts|, r.inventory, st) == Some(s)
    ensures forall key :: Hits(s.parts, key) == Hits(st.parts, key)
    ensures forall m :: Binaries(r, s.parts, m) == Binaries(r, st.parts, m)
  {
    InventoryFits(r, st.parts);
    forall key ensures Hits(s.parts, key) == Hits(st.parts, key) {
      SteadyPurl(key);
      FilesCount(r, application, |st.parts|, r.inventory, st, s, WithPurl(key));
    }
    forall m ensures Binaries(r, s.parts, m) == Binaries(r, st.parts, m) {
      SteadyBinary(r, m);
      forall k | 0 <= k < |r.inventory| ensures BinaryOf(r, m)(NewPart(r, r.inventory[k])) == 0 {
        NewPartCounts(r, r.inventory[k], "", m);
      }
      FilesCount(r, application, |st.parts|, r.inventory, st, s, BinaryOf(r, m));
    }
  }

  lemma ExtendsSelf(parts: seq<Part>)
    ensures Extends(parts, parts)
  {}

  lemma SourcesAreDone(r: Release, b: Bom, run: Run, application: string)
    requires InventoryRead(r) && DepsOk(run.st.deps) && AugmentSources(r, b, application, run.st) == Some(run.s)
    ensures SourcesDone(r, b, run, application)
  {
    if SourceName(b.rootName) {
      InventoryFits(r, run.st.parts);
      FilesExtend(r, application, |run.st.parts|, r.inventory, run.st, run.s);
      FilesKeepCounts(r, application, run.st, run.s);
      forall k | 0 <= k < |r.inventory| ensures RecordDone(r.inventory[k], application, run.s.parts, run.s.deps) {
        FilesDone(r, application, |run.st.parts|, r.inventory, run.st, run.s, k);
      }
    } else {
      ExtendsSelf(run.st.parts);
    }
  }

  lemma AllMetKept(r: Release, parts: seq<Part>, application: string, st: State, s: State, more: seq<Dep>)
    requires AllMet(Needs(r, parts), application, st.parts, st.deps)
    requires Extends(st.parts, s.parts) && Grown(st.deps, more)
    requires forall key :: Hits(s.parts, key) == Hits(st.parts, key)
    requires forall m :: Binaries(r, s.parts, m) == Binaries(r, st.parts, m)
    ensures AllMet(Needs(r, parts), application, s.parts, more)
  {
    var needs := Needs(r, parts);
    NeedsAreFit(r, parts);
    forall k | 0 <= k < |needs| ensures Met(needs[k], application, s.parts, more) {
      NeedsFromRelease(r, parts, k);
      SameCounts(r, needs[k], st.parts, s.parts);
      MetCounts(needs[k], application, st.parts, st.deps);
      MetKept(r, needs[k], application, st.parts, st.deps, s.parts, more);
    }
  }

  lemma SameCounts(r: Release, need: Need, a: seq<Part>, b: seq<Part>)
    requires FromRelease(r, need)
    requires forall key :: Hits(b, key) == Hits(a, key)
    requires forall m :: Binaries(r, b, m) == Binaries(r, a, m)
    ensures Sorting.Sum(need.finder, b) == Sorting.Sum(need.finder, a)
    ensures need.binary.Some? ==> Sorting.Sum(need.binary.value, b) == Sorting.Sum(need.binary.value, a)
  {
    assert Hits(b, NormalizedPurl(need.purl)) == Hits(a, NormalizedPurl(need.purl));
    if need.binary.Some? {
      var m :| need.binary.value == BinaryOf(r, m);
      assert Binaries(r, b, m) == Binaries(r, a, m);
    }
  }

  lemma AllDoneKept(records: seq<Record>, application: string, parts: seq<Part>, deps: seq<Dep>, more: seq<Dep>)
    requires AllDone(records, application, parts, deps) && Grown(deps, more)
    ensures AllDone(records, application, parts, more)
  {
    forall k | 0 <= k < |records| ensures RecordDone(records[k], application, parts, more) {
      var i: nat :| RecordAt(records[k], application, parts, deps, i);
      assert RecordAt(records[k], application, parts, more, i);
    }
  }

  /** One run settles the document. */
  lemma RunSettles(r: Release, b: Bom, run: Run)
    requires InventoryRead(r) && FirstHalf(r, b, run) && run.a < |run.st.parts|
    requires SecondHalf(r, b, run, Ref(run.st.parts[run.a]))
    ensures Settled(r, Unordered(b, run), run.a)
  {
    var application := Ref(run.parts[run.a]);
    PackagesAreDone(r, b, run);
    SourcesAreDone(r, b, run, application);
    LinkGrows(run.s.parts, run.a, application, 0, run.s.deps, run.more);
    GrownTwice(run.st.deps, run.s.deps, run.more);
    ApplicationKept(r, run.st.parts, run.a, run.s.parts);
    RootKept(b, application, run.st.deps, run.more);
    AllMetKept(r, run.parts, application, run.st, run.s, run.more);
    SameNeeds(r, run.parts, run.s.parts);
    if SourceName(b.rootName) {
      AllDoneKept(r.inventory, application, run.s.parts, run.s.deps, run.more);
    }
    RunSettled(r, b, run, application);
  }

  lemma RunSettled(r: Release, b: Bom, run: Run, application: string)
    requires IsApplication(r, run.s.parts, run.a) && Ref(run.s.parts[run.a]) == application
    requires Rooted(b.(deps := run.more), application) && DebianOk(r, run.s.parts)
    requires AllMet(Needs(r, run.s.parts), application, run.s.parts, run.more)
    requires SourceName(b.rootName) ==> AllDone(r.inventory, application, run.s.parts, run.more)
    requires Linked(run.s.parts, run.a, application, run.more)
    ensures Settled(r, Unordered(b, run), run.a)
  {}

  // ---------- the final sort ----------

  lemma PartOrder()
    ensures Sorting.TotalPreorder(ByNameRef)
  {
    LeqIsOrder();
  }

  lemma SortedParts(parts: seq<Part>)
    ensures Sorting.SortedBy(Sorting.Sort(parts, ByNameRef), ByNameRef)
    ensures forall p :: p in Sorting.Sort(parts, ByNameRef) <==> p in parts
  {
    PartOrder();
    Sorting.SortSorts(parts, ByNameRef);
    Sorting.SameElements(parts, ByNameRef);
  }

  lemma BinarySorted(binary: Part -> nat, purl: string, source: string, parts: seq<Part>, deps: seq<Dep>, j: nat,
                     more: seq<Dep>) returns (k: nat)
    requires BinaryMet(binary, purl, source, parts, deps, j) && Grown(deps, more)
    ensures BinaryMet(binary, purl, source, Sorting.Sort(parts, ByNameRef), more, k)
  {
    var sorted := Sorting.Sort(parts, ByNameRef);
    SortedParts(parts);
    Sorting.SumSorted(binary, parts, ByNameRef);
    assert parts[j] in sorted;
    k :| 0 <= k < |sorted| && sorted[k] == parts[j];
  }

  lemma MetSorted(need: Need, application: string, parts: seq<Part>, deps: seq<Dep>, more: seq<Dep>)
    requires Met(need, application, parts, deps) && Grown(deps, more)
    ensures Met(need, application, Sorting.Sort(parts, ByNameRef), more)
  {
    var i: nat, j: nat :| MetAt(need, application, parts, deps, i, j);
    var sorted := Sorting.Sort(parts, ByNameRef);
    SortedParts(parts);
    Sorting.SumSorted(need.finder, parts, ByNameRef);
    assert parts[i] in sorted;
    var k :| 0 <= k < |sorted| && sorted[k] == parts[i];
    var l := 0;
    if need.binary.Some? {
      l := BinarySorted(need.binary.value, need.purl, Ref(parts[i]), parts, deps, j, more);
    }
    assert MetAt(need, application, sorted, more, k, l);
  }

  lemma DoneSorted(rec: Record, application: string, parts: seq<Part>, deps: seq<Dep>, more: seq<Dep>)
    requires RecordDone(rec, application, parts, deps) && Grown(deps, more)
    ensures RecordDone(rec, application, Sorting.Sort(parts, ByNameRef), more)
  {
    var i: nat :| RecordAt(rec, application, parts, deps, i);
    var sorted := Sorting.Sort(parts, ByNameRef);
    SortedParts(parts);
    Sorting.SumSorted(AtPath(rec.path), parts, ByNameRef);
    assert parts[i] in sorted;
    var k :| 0 <= k < |sorted| && sorted[k] == parts[i];
    assert RecordAt(rec, application, sorted, more, k);
  }

  lemma LinkedSorted(r: Release, parts: seq<Part>, a: nat, application: string, deps: seq<Dep>, more: seq<Dep>, c: nat)
    requires IsApplication(r, parts, a) && Linked(parts, a, application, deps) && Grown(deps, more)
    requires IsApplication(r, Sorting.Sort(parts, ByNameRef), c) && Sorting.Sort(parts, ByNameRef)[c] == parts[a]
    ensures Linked(Sorting.Sort(parts, ByNameRef), c, application, more)
  {
    var sorted := Sorting.Sort(parts, ByNameRef);
    SortedParts(parts);
    forall i | 0 <= i < |sorted| && i != c && Wanted(sorted[i]) ensures Tied(more, application, Ref(sorted[i])) {
      assert sorted[i] in parts;
      var k :| 0 <= k < |parts| && parts[k] == sorted[i];
      if k == a {
        Sorting.OnlyOne(WithPurl(ApplicationPurl(r)), sorted, i);
        Sorting.OnlyOne(WithPurl(ApplicationPurl(r)), sorted, c);
      }
      assert Tied(deps, application, Ref(parts[k]));
    }
  }

  lemma SettledOrdered(r: Release, u: Bom, a: nat) returns (c: nat)
    requires Settled(r, u, a)
    ensures Settled(r, Ordered(u), c) && InOrder(Ordered(u)) && DepsFinal(Ordered(u).deps)
    ensures Ordered(u).parts[c] == u.parts[a]
  {
    var sorted, more, application := Sorting.Sort(u.parts, ByNameRef), Finished(u.deps), Ref(u.parts[a]);
    SortedParts(u.parts);
    FinishGrows(u.deps);
    assert u.parts[a] in sorted;
    c :| 0 <= c < |sorted| && sorted[c] == u.parts[a];
    Sorting.SumSorted(WithPurl(ApplicationPurl(r)), u.parts, ByNameRef);
    forall m ensures Binaries(r, sorted, m) == Binaries(r, u.parts, m) {
      Sorting.SumSorted(BinaryOf(r, m), u.parts, ByNameRef);
    }
    SameNeeds(r, u.parts, sorted);
    RootKept(u, application, u.deps, more);
    AllMetSorted(Needs(r, u.parts), application, u.parts, u.deps, more);
    if SourceName(u.rootName) {
      AllDoneSorted(r.inventory, application, u.parts, u.deps, more);
    }
    LinkedSorted(r, u.parts, a, application, u.deps, more, c);
    OrderedSettled(r, u, c, application);
  }

  lemma AllMetSorted(needs: seq<Need>, application: string, parts: seq<Part>, deps: seq<Dep>, more: seq<Dep>)
    requires AllMet(needs, application, parts, deps) && Grown(deps, more)
    ensures AllMet(needs, application, Sorting.Sort(parts, ByNameRef), more)
  {
    forall k | 0 <= k < |needs| ensures Met(needs[k], application, Sorting.Sort(parts, ByNameRef), more) {
      MetSorted(needs[k], application, parts, deps, more);
    }
  }

  lemma AllDoneSorted(records: seq<Record>, application: string, parts: seq<Part>, deps: seq<Dep>, more: seq<Dep>)
    requires AllDone(records, application, parts, deps) && Grown(deps, more)
    ensures AllDone(records, application, Sorting.Sort(parts, ByNameRef), more)
  {
    forall k | 0 <= k < |records| ensures RecordDone(records[k], application, Sorting.Sort(parts, ByNameRef), more) {
      DoneSorted(records[k], application, parts, deps, more);
    }
  }

  lemma OrderedSettled(r: Release, u: Bom, c: nat, application: string)
    requires var sorted, more := Sorting.Sort(u.parts, ByNameRef), Finished(u.deps);
      && IsApplication(r, sorted, c) && Ref(sorted[c]) == application
      && Rooted(u.(deps := more), application) && DebianOk(r, sorted)
      && AllMet(Needs(r, sorted), application, sorted, more)
      && (SourceName(u.rootName) ==> AllDone(r.inventory, application, sorted, more))
      && Linked(sorted, c, application, more)
    ensures Settled(r, Ordered(u), c)
  {}

  // ---------- rivals of the application ----------

  /** No component that has to be added passes for the application. */
  predicate NoRival(r: Release, parts: seq<Part>) {
    var needs := Needs(r, parts);
    forall k :: 0 <= k < |needs| && Added(needs, parts, k) ==> !LooksLikeApplication(needs[k].template)
  }

  lemma AlikeConflicts(r: Release, p: Part, q: Part)
    requires Alike(p, q)
    ensures Conflicts(r, p) <==> Conflicts(r, q)
  {}

  /** A new component is not the application. */
  lemma AddedIsOther(r: Release, parts: seq<Part>, k: nat)
    requires Hits(parts, ApplicationPurl(r)) == 1 && Added(Needs(r, parts), parts, k)
    ensures Conflicts(r, Needs(r, parts)[k].template) <==> LooksLikeApplication(Needs(r, parts)[k].template)
  {
    NeedsFromRelease(r, parts, k);
    var need := Needs(r, parts)[k];
    assert Carries(need.template, ApplicationPurl(r)) > 0 ==> need.finder == WithPurl(ApplicationPurl(r));
  }

  lemma NewPartNoConflict(r: Release, rec: Record)
    ensures !Conflicts(r, NewPart(r, rec))
  {
    var p := NewPart(r, rec);
    assert p.name[0] == '/' && APPLICATION_NAME[0] == 'R';
    assert Base("") == "" && NormalizedPurl("") == "";
  }

  /** A rival that is added stays in the document. */
  lemma RivalConflicts(r: Release, b: Bom, run: Run)
    requires ReleaseOk(r) && FirstHalf(r, b, run) && Extends(run.st.parts, run.s.parts) && !NoRival(r, run.parts)
    ensures !NoConflict(r, run.s.parts)
  {
    var needs, st := Needs(r, run.parts), State(run.parts, run.deps);
    var k :| 0 <= k < |needs| && Added(needs, run.parts, k) && LooksLikeApplication(needs[k].template);
    PackagesAreDone(r, b, run);
    IdentifyDone(r, b.parts, run.parts, run.a);
    NeedsAreFit(r, run.parts);
    NeedsThere(r, run.parts);
    RootDone(b, Ref(run.parts[run.a]), run.deps);
    var i := SupplyAdds(r, needs, Ref(run.parts[run.a]), st, run.st, k);
    AddedIsOther(r, run.parts, k);
    assert Later(run.st.parts[i], run.s.parts[i]);
    AlikeConflicts(r, needs[k].template, run.s.parts[i]);
    assert run.s.parts[i] in run.s.parts;
  }

  /** A component of the packages half conflicts only if a rival was added. */
  lemma PackageNoConflict(r: Release, b: Bom, run: Run, i: nat)
    requires ReleaseOk(r) && FirstHalf(r, b, run) && NoRival(r, run.parts) && i < |run.st.parts|
    ensures !Conflicts(r, run.st.parts[i])
  {
    var needs, st := Needs(r, run.parts), State(run.parts, run.deps);
    PackagesAreDone(r, b, run);
    IdentifyDone(r, b.parts, run.parts, run.a);
    if i < |run.parts| {
      assert Later(run.parts[i], run.st.parts[i]) && run.parts[i] in run.parts;
      AlikeConflicts(r, run.parts[i], run.st.parts[i]);
    } else {
      NeedsAreFit(r, run.parts);
      NeedsThere(r, run.parts);
      RootDone(b, Ref(run.parts[run.a]), run.deps);
      SupplyTail(r, needs, Ref(run.parts[run.a]), st, run.st, i);
      var k :| 0 <= k < |needs| && Added(needs, run.parts, k) && Alike(needs[k].template, run.st.parts[i]);
      AlikeConflicts(r, needs[k].template, run.st.parts[i]);
    }
  }

  lemma SourceNoConflict(r: Release, b: Bom, run: Run, application: string, i: nat)
    requires InventoryRead(r) && DepsOk(run.st.deps) && AugmentSources(r, b, application, run.st) == Some(run.s)
    requires |run.st.parts| <= i < |run.s.parts|
    ensures !Conflicts(r, run.s.parts[i])
  {
    InventoryFits(r, run.st.parts);
    FilesTail(r, application, |run.st.parts|, r.inventory, run.st, run.s, i);
    var k :| 0 <= k < |r.inventory| && Alike(NewPart(r, r.inventory[k]), run.s.parts[i]);
    NewPartNoConflict(r, r.inventory[k]);
    AlikeConflicts(r, NewPart(r, r.inventory[k]), run.s.parts[i]);
  }

  lemma ConflictIsRival(r: Release, b: Bom, run: Run)
    requires InventoryRead(r) && FirstHalf(r, b, run) && run.a < |run.st.parts|
    requires SecondHalf(r, b, run, Ref(run.st.parts[run.a]))
    ensures NoConflict(r, run.s.parts) <==> NoRival(r, run.parts)
  {
    var application := Ref(run.st.parts[run.a]);
    PackagesAreDone(r, b, run);
    SourcesAreDone(r, b, run, application);
    if NoRival(r, run.parts) {
      forall i | 0 <= i < |run.s.parts| ensures !Conflicts(r, run.s.parts[i]) {
        if i < |run.st.parts| {
          PackageNoConflict(r, b, run, i);
          assert Later(run.st.parts[i], run.s.parts[i]);
          AlikeConflicts(r, run.st.parts[i], run.s.parts[i]);
        } else {
          SourceNoConflict(r, b, run, application, i);
        }
      }
    } else {
      RivalConflicts(r, b, run);
    }
  }

  // ---------- the second run ----------

  /** What a caller has to check before the first run so that a second one changes nothing: no
      reference that will be handed out is in use or handed out twice, no new component passes for
      the application, and in a source document the hashes of the inventory are in lower case. */
  predicate Stable(r: Release, b: Bom)
    requires Identify(r, b.parts).Some?
  {
    && Distinct(Refs(b.parts) + Issued(r, b)) && NoRival(r, Identify(r, b.parts).value.0)
    && (SourceName(b.rootName) ==> AllLower(r.inventory))
  }

  /** The references at the end of a run. */
  lemma RunRefs(r: Release, b: Bom, run: Run)
    requires InventoryRead(r) && RefsOk(b.parts) && FirstHalf(r, b, run) && run.a < |run.st.parts|
    requires SecondHalf(r, b, run, Ref(run.st.parts[run.a]))
    ensures RefsOk(Sorting.Sort(run.s.parts, ByNameRef)) <==> Distinct(Refs(b.parts) + Issued(r, b))
  {
    var application := Ref(run.parts[run.a]);
    PackagesAreDone(r, b, run);
    RootDone(b, application, run.deps);
    InventoryFits(r, run.st.parts);
    RefsIssued(r, b, run.parts, run.a, application, run.deps, run.st, run.s);
    FreshExact(r, b, run.s.parts);
  }

  /** The second run changes nothing exactly then; otherwise it exits. */
  lemma SecondRunExact(r: Release, b: Bom)
    requires InventoryRead(r) && Augment(r, b).Some?
    ensures Identify(r, b.parts).Some?
    ensures Augment(r, Augment(r, b).value) == if Stable(r, b) then Augment(r, b) else None
  {
    var run := Steps(r, b);
    var u := Unordered(b, run);
    RunSettles(r, b, run);
    var c := SettledOrdered(r, u, run.a);
    ConflictIsRival(r, b, run);
    SortedParts(u.parts);
    RunRefs(r, b, run);
    SettledRun(r, Ordered(u), c);
  }

  // ---------- what every run brings ----------

  /** The application is there once, the document depends on it, and every other component with a
      purl and every runtime file is among its direct dependencies. */
  lemma EveryDependency(r: Release, b: Bom) returns (a: nat)
    requires InventoryRead(r) && Augment(r, b).Some?
    ensures var after := Augment(r, b).value;
      && IsApplication(r, after.parts, a) && Rooted(after, Ref(after.parts[a]))
      && forall i :: 0 <= i < |after.parts| && i != a && Wanted(after.parts[i]) ==>
           Tied(after.deps, Ref(after.parts[a]), Ref(after.parts[i]))
  {
    var run := Steps(r, b);
    RunSettles(r, b, run);
    a := SettledOrdered(r, Unordered(b, run), run.a);
  }

  /** Every Debian source and native component is there once with its edges, and in a source document
      every record of the inventory has its one component, with the hash, the license and the
      properties of the inventory, inside the application. */
  lemma EveryRecord(r: Release, b: Bom) returns (a: nat)
    requires InventoryRead(r) && Augment(r, b).Some?
    ensures var after := Augment(r, b).value;
      && IsApplication(r, after.parts, a)
      && AllMet(Needs(r, after.parts), Ref(after.parts[a]), after.parts, after.deps)
      && (SourceName(b.rootName) ==> AllDone(r.inventory, Ref(after.parts[a]), after.parts, after.deps))
  {
    var run := Steps(r, b);
    RunSettles(r, b, run);
    a := SettledOrdered(r, Unordered(b, run), run.a);
  }

  /** Nothing but the application's name, version and license changes in a component, apart from
      hashes, licenses and properties; no edge is lost, and the lists end sorted and without
      duplicates. */
  lemma NothingLost(r: Release, b: Bom)
    requires InventoryRead(r) && Augment(r, b).Some?
    ensures var after := Augment(r, b).value;
      && InOrder(after) && DepsFinal(after.deps) && Grown(b.deps, after.deps)
      && after.root == b.root && after.rootName == b.rootName
      && forall p :: p in b.parts && Carries(p, ApplicationPurl(r)) == 0 ==>
           exists q :: q in after.parts && Alike(p, q)
  {
    var run := Steps(r, b);
    var u := Unordered(b, run);
    RunSettles(r, b, run);
    var c := SettledOrdered(r, u, run.a);
    EdgesKept(r, b, run);
    forall p | p in b.parts && Carries(p, ApplicationPurl(r)) == 0 ensures exists q :: q in Ordered(u).parts && Alike(p, q) {
      var q := PartKept(r, b, run, p);
      SortedParts(u.parts);
    }
  }

  lemma EdgesKept(r: Release, b: Bom, run: Run)
    requires InventoryRead(r) && FirstHalf(r, b, run) && run.a < |run.st.parts|
    requires SecondHalf(r, b, run, Ref(run.st.parts[run.a]))
    ensures Grown(b.deps, Ordered(Unordered(b, run)).deps)
  {
    var application := Ref(run.st.parts[run.a]);
    PackagesAreDone(r, b, run);
    SourcesAreDone(r, b, run, application);
    LinkGrows(run.s.parts, run.a, application, 0, run.s.deps, run.more);
    FinishGrows(run.more);
    RootGrows(b, Ref(run.parts[run.a]), run.deps);
    GrownTwice(b.deps, run.deps, run.st.deps);
    GrownTwice(b.deps, run.st.deps, run.s.deps);
    GrownTwice(b.deps, run.s.deps, run.more);
    GrownTwice(b.deps, run.more, Finished(run.more));
  }

  lemma RootGrows(b: Bom, application: string, deps: seq<Dep>)
    requires b.root.Some? && DepsOk(b.deps)
    requires Tie(Enter(Enter(b.deps, b.root.value), application), b.root.value, application) == Some(deps)
    ensures Grown(b.deps, deps)
  {
    var one := Enter(b.deps, b.root.value);
    EnterGrows(b.deps, b.root.value);
    EnterGrows(one, application);
    TieGrows(Enter(one, application), b.root.value, application);
    GrownTwice(b.deps, one, Enter(one, application));
    GrownTwice(b.deps, Enter(one, application), deps);
  }

  lemma PartKept(r: Release, b: Bom, run: Run, p: Part) returns (q: Part)
    requires InventoryRead(r) && FirstHalf(r, b, run) && run.a < |run.st.parts|
    requires SecondHalf(r, b, run, Ref(run.st.parts[run.a]))
    requires p in b.parts && Carries(p, ApplicationPurl(r)) == 0
    ensures q in run.s.parts && Alike(p, q)
  {
    var i :| 0 <= i < |b.parts| && b.parts[i] == p;
    PackagesAreDone(r, b, run);
    SourcesAreDone(r, b, run, Ref(run.st.parts[run.a]));
    IdentifyKeeps(r, b.parts, run.parts, run.a, i);
    ExtendsTwice(run.parts, run.st.parts, run.s.parts);
    q := run.s.parts[i];
    assert Later(run.parts[i], q);
  }

  lemma IdentifyKeeps(r: Release, parts: seq<Part>, after: seq<Part>, a: nat, i: nat)
    requires Identify(r, parts) == Some((after, a)) && i < |parts| && Carries(parts[i], ApplicationPurl(r)) == 0
    ensures i < |after| && after[i] == parts[i]
  {}

  // ---------- a document that a second run refuses ----------

  /** Every entry has its list. */
  ghost predicate Complete(deps: seq<Dep>) {
    DepsOk(deps) && forall i :: 0 <= i < |deps| ==> deps[i].on.Some?
  }

  lemma EnterComplete(deps: seq<Dep>, ref: string)
    requires Complete(deps)
    ensures Complete(Enter(deps, ref)) && Entered(Enter(deps, ref), ref) && Grown(deps, Enter(deps, ref))
  {
    EnterGrows(deps, ref);
  }

  /** From an entry with a list an edge can always be drawn. */
  lemma TieComplete(deps: seq<Dep>, from: string, to: string)
    requires Complete(deps) && Entered(deps, from)
    ensures Tie(deps, from, to).Some? && Complete(Tie(deps, from, to).value) && Grown(deps, Tie(deps, from, to).value)
  {
    DepCount(deps, from);
    TieGrows(deps, from, to);
  }

  lemma {:induction false} LinkComplete(parts: seq<Part>, a: nat, application: string, i: nat, deps: seq<Dep>)
    requires i <= |parts| && Complete(deps) && Entered(deps, application)
    ensures LinkAll(parts, a, application, i, deps).Some?
    decreases |parts| - i
  {
    if i < |parts| {
      if i != a && Wanted(parts[i]) {
        TieComplete(deps, application, Ref(parts[i]));
        LinkComplete(parts, a, application, i + 1, Tie(deps, application, Ref(parts[i])).value);
      } else {
        LinkComplete(parts, a, application, i + 1, deps);
      }
    }
  }

  lemma FillNew(r: Release, rec: Record)
    ensures Fill(NewPart(r, rec), rec).Some?
  {
    NamesApart();
    var p := Signed(NewPart(r, rec), rec);
    assert forall name :: Sorting.Sum(Named(name), p.properties) == 0;
    var one := AddNew(p, SOURCE_PATH, rec.path);
    var two := AddNew(one, LICENSE_BASIS, rec.basis);
    var three := AddNew(two, LICENSE_COMMENT, if rec.comment.Some? then rec.comment.value else "");
  }

  lemma AddNew(p: Part, name: string, value: string) returns (q: Part)
    requires Sorting.Sum(Named(name), p.properties) == 0
    ensures AddProperty(p, name, value) == Some(q)
    ensures forall other :: other != name ==>
      Sorting.Sum(Named(other), q.properties) == Sorting.Sum(Named(other), p.properties)
  {
    q := AddProperty(p, name, value).value;
    AddPropertyDone(p, name, value, q);
  }

  /** A component that already carries the reference of a new source file: the first run adds the
      file, and every later run exits because the reference stands there twice. */
  lemma TakenReference(r: Release, b: Bom, rec: Record, p: Part)
    requires InventoryRead(r) && r.components == [] && r.mappings == [] && r.inventory == [rec]
    requires b.root.Some? && b.root.value != "" && SourceName(b.rootName) && b.parts == [p] && b.deps == []
    requires p.ref == Some(URN + r.sourceId(rec.path)) && p.kind == "library" && p.name == "x" && p.purl == ""
    requires p.properties == []
    ensures Augment(r, b).Some? && Augment(r, Augment(r, b).value) == None
  {
    TakenRun(r, b, rec, p);
    SecondRunExact(r, b);
  }

  lemma TakenRun(r: Release, b: Bom, rec: Record, p: Part)
    requires InventoryRead(r) && r.components == [] && r.mappings == [] && r.inventory == [rec]
    requires b.root.Some? && b.root.value != "" && SourceName(b.rootName) && b.parts == [p] && b.deps == []
    requires p.ref == Some(URN + r.sourceId(rec.path)) && p.kind == "library" && p.name == "x" && p.purl == ""
    requires p.properties == []
    ensures Augment(r, b).Some? && Identify(r, b.parts).Some? && !Stable(r, b)
  {
    var application := Marked(r, NewApplication(r));
    var deps := BareParts(r, b, p, application);
    var q := BareNew(r, p, application, rec);
    OneFileRun(r, b, [p, application], 1, deps, rec, q);
    TakenTwice(p, application, q);
    Unstable(r, b);
  }

  lemma BareNew(r: Release, p: Part, application: Part, rec: Record) returns (q: Part)
    requires LicenseRead(rec) && p.kind == "library" && p.properties == [] && p.ref == Some(URN + r.sourceId(rec.path))
    requires application == Marked(r, NewApplication(r))
    ensures Place(r, [p, application], 2, rec) == Some(([p, application] + [q], 2))
    ensures p != q && p.ref == q.ref
  {
    q := BareFile(r, [p, application], rec);
    assert q.kind == "file" && "file"[0] != "library"[0];
  }

  lemma Unstable(r: Release, b: Bom)
    requires InventoryRead(r) && Augment(r, b).Some? && !RefsOk(Augment(r, b).value.parts)
    ensures Identify(r, b.parts).Some? && !Stable(r, b)
  {
    var run := Steps(r, b);
    RunRefs(r, b, run);
  }

  lemma TakenTwice(p: Part, application: Part, q: Part)
    requires p != q && p.ref == q.ref
    ensures !RefsOk(Sorting.Sort([p, application] + [q], ByNameRef))
  {
    var parts := [p, application] + [q];
    SortedParts(parts);
    assert parts[0] == p && parts[2] == q;
    SameReference(Sorting.Sort(parts, ByNameRef), p, q);
  }

  lemma BareParts(r: Release, b: Bom, p: Part, application: Part) returns (deps: seq<Dep>)
    requires r.components == [] && r.mappings == [] && b.root.Some? && b.parts == [p] && b.deps == []
    requires p.purl == "" && p.name == "x" && application == Marked(r, NewApplication(r))
    ensures AugmentParts(r, b) == Some((State([p, application], deps), 1))
    ensures Complete(deps) && Entered(deps, Ref(application))
  {
    BareIdentify(r, p, application);
    deps := BareDeps(b.root.value, Ref(application));
    assert |Needs(r, [p, application])| == 0;
  }

  /** A run that adds one source file. */
  lemma OneFileRun(r: Release, b: Bom, parts: seq<Part>, a: nat, deps: seq<Dep>, rec: Record, q: Part)
    requires Readable(b) && SourceName(b.rootName) && r.inventory == [rec] && a < |parts|
    requires AugmentParts(r, b) == Some((State(parts, deps), a))
    requires Place(r, parts, |parts|, rec) == Some((parts + [q], |parts|))
    requires Complete(deps) && Entered(deps, Ref(parts[a]))
    ensures Augment(r, b).Some? && Augment(r, b).value.parts == Sorting.Sort(parts + [q], ByNameRef)
  {
    var application := Ref(parts[a]);
    EnterComplete(deps, Ref(q));
    TieComplete(Enter(deps, Ref(q)), application, Ref(q));
    var more := EnterTie(deps, application, Ref(q)).value;
    OneFile(r, application, State(parts, deps), rec, q, more);
    assert AugmentSources(r, b, application, State(parts, deps)) == Some(State(parts + [q], more));
    LinkComplete(parts + [q], a, application, 0, more);
    RunOf(r, b, State(parts, deps), a, State(parts + [q], more));
  }

  lemma RunOf(r: Release, b: Bom, st: State, a: nat, s: State)
    requires Readable(b) && AugmentParts(r, b) == Some((st, a)) && a < |st.parts|
    requires AugmentSources(r, b, Ref(st.parts[a]), st) == Some(s)
    requires LinkAll(s.parts, a, Ref(st.parts[a]), 0, s.deps).Some?
    ensures Augment(r, b).Some? && Augment(r, b).value.parts == Sorting.Sort(s.parts, ByNameRef)
  {}

  lemma OneFile(r: Release, application: string, st: State, rec: Record, q: Part, more: seq<Dep>)
    requires Place(r, st.parts, |st.parts|, rec) == Some((st.parts + [q], |st.parts|))
    requires EnterTie(st.deps, application, Ref(q)) == Some(more)
    ensures FileAll(r, application, |st.parts|, [rec], st) == Some(State(st.parts + [q], more))
  {
    assert File(r, application, |st.parts|, rec, st) == Some(State(st.parts + [q], more));
    assert [rec][1..] == [];
  }

  lemma SameReference(parts: seq<Part>, p: Part, q: Part)
    requires p in parts && q in parts && p != q && p.ref == q.ref
    ensures !RefsOk(parts)
  {
    var i :| 0 <= i < |parts| && parts[i] == p;
    var j :| 0 <= j < |parts| && parts[j] == q;
  }

  lemma BareIdentify(r: Release, p: Part, application: Part)
    requires p.purl == "" && p.name == "x" && application == Marked(r, NewApplication(r))
    ensures Identify(r, [p]) == Some(([p, application], 1))
  {
    assert Base("") == "" && NormalizedPurl("") == "";
    Sorting.SumOne(WithPurl(ApplicationPurl(r)), p);
    assert !Conflicts(r, p) && [p] + [application] == [p, application];
  }

  lemma BareDeps(root: string, application: string) returns (deps: seq<Dep>)
    ensures Tie(Enter(Enter([], root), application), root, application) == Some(deps)
    ensures Complete(deps) && Entered(deps, application)
  {
    EnterComplete([], root);
    EnterComplete(Enter([], root), application);
    TieComplete(Enter(Enter([], root), application), root, application);
    deps := Tie(Enter(Enter([], root), application), root, application).value;
  }

  lemma BareFile(r: Release, parts: seq<Part>, rec: Record) returns (q: Part)
    requires |parts| == 2 && forall i :: 0 <= i < 2 ==> parts[i].properties == [] && parts[i].kind != "file"
    requires LicenseRead(rec)
    ensures Place(r, parts, 2, rec) == Some((parts + [q], 2)) && Alike(NewPart(r, rec), q)
  {
    FillNew(r, rec);
    assert parts[..2] == parts;
    assert Sorting.Sum(AtPath(rec.path), parts) == 0 by {
      Sorting.SumZero(AtPath(rec.path), parts);
    }
    q := Fill(NewPart(r, rec), rec).value;
    FillFills(NewPart(r, rec), rec, q);
  }
}
