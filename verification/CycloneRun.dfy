/** augment_cyclonedx as it edits the document in place, with the dictionaries it keeps beside it. */
module CycloneRun {
  import opened Common
  import opened Dictionary
  import opened SbomRelease
  import opened CycloneDx
  import opened CycloneDeps
  import opened CycloneParts
  import opened CycloneSettles
  import opened CycloneTheorem
  import SbomSettles
  import Sorting

  // ---------- references ----------

  /** The references seen so far are there and distinct. */
  method CheckRefs(refs: seq<Option<string>>) returns (ok: bool)
    ensures ok <==> (forall i :: 0 <= i < |refs| ==> refs[i].Some?)
                    && (forall i, j :: 0 <= i < j < |refs| ==> refs[i] != refs[j])
  {
    var seen: set<Option<string>> := {};
    for k := 0 to |refs|
      invariant forall x :: x in seen <==> x in refs[..k]
      invariant forall i :: 0 <= i < k ==> refs[i].Some?
      invariant forall i, j :: 0 <= i < j < k ==> refs[i] != refs[j]
    {
      if refs[k].None? {
        return false;
      }
      if refs[k] in seen {
        assert refs[k] in refs[..k];
        return false;
      }
      assert refs[..k + 1] == refs[..k] + [refs[k]];
      seen := seen + {refs[k]};
    }
    return true;
  }

  /** dependencies_by_ref holds the place of every entry. */
  ghost predicate DepsIndexed(byRef: map<string, nat>, deps: seq<Dep>) {
    && DepsOk(deps)
    && (forall ref :: ref in byRef ==> byRef[ref] < |deps| && deps[byRef[ref]].ref == Some(ref))
    && (forall i :: 0 <= i < |deps| ==> deps[i].ref.Some? && deps[i].ref.value in byRef)
  }

  lemma IndexedEntry(byRef: map<string, nat>, deps: seq<Dep>, ref: string)
    requires DepsIndexed(byRef, deps)
    ensures ref in byRef <==> Sorting.Sum(DepAt(ref), deps) > 0
    ensures ref in byRef ==> Sorting.Index(DepAt(ref), deps) == byRef[ref]
  {
    DepCount(deps, ref);
    if ref in byRef {
      assert deps[byRef[ref]].ref == Some(ref);
      TieAt(deps, ref, byRef[ref]);
    }
  }

  method IndexDeps(deps: seq<Dep>) returns (byRef: map<string, nat>)
    requires DepsOk(deps)
    ensures DepsIndexed(byRef, deps)
  {
    byRef := map[];
    for k := 0 to |deps|
      invariant forall ref :: ref in byRef ==> byRef[ref] < k && deps[byRef[ref]].ref == Some(ref)
      invariant forall i :: 0 <= i < k ==> deps[i].ref.value in byRef
    {
      byRef := byRef[deps[k].ref.value := k];
    }
  }

  // ---------- dictionaries of components ----------

  /** by_purl holds the positions of the components. */
  ghost predicate PurlsIndexed(byPurl: Positions, parts: seq<Part>) {
    forall key {:trigger Get(byPurl, key)} :: Get(byPurl, key) == Places(WithPurl(key), parts)
  }

  /** by_path holds the positions of the components at the paths of the inventory. */
  ghost predicate PathsIndexed(byPath: Positions, inventory: seq<Record>, parts: seq<Part>) {
    forall rec :: rec in inventory ==> Get(byPath, rec.path) == Places(AtPath(rec.path), parts)
  }

  lemma PartIndexed(byPurl: Positions, parts: seq<Part>, p: Part, key: string)
    requires PurlsIndexed(byPurl, parts) && forall k :: Carries(p, k) == if k == key then 1 else 0
    ensures PurlsIndexed(Append(byPurl, key, |parts|), parts + [p])
  {
    forall k ensures Get(Append(byPurl, key, |parts|), k) == Places(WithPurl(k), parts + [p]) {
      AppendGet(byPurl, key, |parts|, k);
      PlacesAppend(WithPurl(k), parts, p);
      assert Repeat(|parts|, 1) == [|parts|] && Repeat(|parts|, 0) == [];
    }
  }

  lemma PartNotIndexed(byPurl: Positions, parts: seq<Part>, p: Part)
    requires PurlsIndexed(byPurl, parts) && p.purl == ""
    ensures PurlsIndexed(byPurl, parts + [p])
  {
    forall k ensures Get(byPurl, k) == Places(WithPurl(k), parts + [p]) {
      PlacesAppend(WithPurl(k), parts, p);
      assert Repeat(|parts|, 0) == [];
    }
  }

  lemma PurlEdited(byPurl: Positions, parts: seq<Part>, i: nat, q: Part)
    requires PurlsIndexed(byPurl, parts) && i < |parts| && q.purl == parts[i].purl
    ensures PurlsIndexed(byPurl, parts[i := q])
  {
    forall key ensures Places(WithPurl(key), parts[i := q]) == Places(WithPurl(key), parts) {
      PlacesUpdate(WithPurl(key), parts, i, q);
    }
  }

  method IndexPurls(parts: seq<Part>) returns (byPurl: Positions)
    ensures PurlsIndexed(byPurl, parts)
  {
    byPurl := map[];
    for i := 0 to |parts|
      invariant PurlsIndexed(byPurl, parts[..i])
    {
      assert parts[..i + 1] == parts[..i] + [parts[i]];
      if parts[i].purl != "" {
        PartIndexed(byPurl, parts[..i], parts[i], NormalizedPurl(parts[i].purl));
        byPurl := Append(byPurl, NormalizedPurl(parts[i].purl), i);
      } else {
        PartNotIndexed(byPurl, parts[..i], parts[i]);
      }
    }
    assert parts[..|parts|] == parts;
  }

  /** The values of one property enter a dictionary. */
  method EnterValues(before: Positions, i: nat, properties: seq<Property>, name: string)
    returns (after: Positions, explicit: bool)
    ensures explicit <==> Sorting.Sum(Named(name), properties) > 0
    ensures forall value ::
      Get(after, value) == Get(before, value) + Repeat(i, Sorting.Sum(Says(Property(name, value)), properties))
  {
    after, explicit := before, false;
    assert properties[..0] == [];
    for j := 0 to |properties|
      invariant explicit <==> Sorting.Sum(Named(name), properties[..j]) > 0
      invariant forall value ::
        Get(after, value) == Get(before, value) + Repeat(i, Sorting.Sum(Says(Property(name, value)), properties[..j]))
    {
      var q := properties[j];
      CountNext(Named(name), properties, j);
      ghost var last := after;
      if q.name == name {
        after, explicit := Append(after, q.value, i), true;
      }
      forall value ensures Get(after, value)
        == Get(before, value) + Repeat(i, Sorting.Sum(Says(Property(name, value)), properties[..j + 1]))
      {
        ValueEntered(before, last, after, i, properties, j, name, value);
      }
    }
    assert properties[..|properties|] == properties;
  }

  lemma ValueEntered(before: Positions, last: Positions, after: Positions, i: nat, properties: seq<Property>, j: nat,
                     name: string, value: string)
    requires j < |properties|
    requires Get(last, value) == Get(before, value) + Repeat(i, Sorting.Sum(Says(Property(name, value)), properties[..j]))
    requires after == if properties[j].name == name then Append(last, properties[j].value, i) else last
    ensures Get(after, value)
      == Get(before, value) + Repeat(i, Sorting.Sum(Says(Property(name, value)), properties[..j + 1]))
  {
    CountNext(Says(Property(name, value)), properties, j);
    AppendGet(last, properties[j].value, i, value);
    var n := Sorting.Sum(Says(Property(name, value)), properties[..j]);
    assert Repeat(i, n + 1) == Repeat(i, n) + [i];
  }

  lemma PathNext(before: Positions, mid: Positions, after: Positions, parts: seq<Part>, i: nat, path: string, explicit: bool)
    requires i < |parts| && Get(before, path) == Places(AtPath(path), parts[..i])
    requires explicit <==> Sorting.Sum(Named(SOURCE_PATH), parts[i].properties) > 0
    requires Get(mid, path)
      == Get(before, path) + Repeat(i, Sorting.Sum(Says(Property(SOURCE_PATH, path)), parts[i].properties))
    requires Get(after, path) == Get(mid, path)
      + if !explicit && parts[i].kind == "file" && SourcePath(parts[i].name) == path then [i] else []
    ensures Get(after, path) == Places(AtPath(path), parts[..i + 1])
  {
    var p := parts[i];
    assert parts[..i + 1] == parts[..i] + [p];
    PlacesAppend(AtPath(path), parts[..i], p);
    assert Repeat(i, 1) == [i] && Repeat(i, 0) == [];
    SaysNamed(p.properties, Property(SOURCE_PATH, path));
  }

  method IndexPaths(inventory: seq<Record>, parts: seq<Part>) returns (byPath: Positions)
    ensures PathsIndexed(byPath, inventory, parts)
  {
    byPath := map[];
    for i := 0 to |parts|
      invariant PathsIndexed(byPath, inventory, parts[..i])
    {
      ghost var before := byPath;
      var explicit;
      byPath, explicit := EnterValues(byPath, i, parts[i].properties, SOURCE_PATH);
      ghost var mid := byPath;
      var own := SourcePath(parts[i].name);
      if !explicit && parts[i].kind == "file" && exists rec :: rec in inventory && rec.path == own {
        byPath := Append(byPath, own, i);
      }
      forall rec | rec in inventory ensures Get(byPath, rec.path) == Places(AtPath(rec.path), parts[..i + 1]) {
        AppendGet(mid, own, i, rec.path);
        PathNext(before, mid, byPath, parts, i, rec.path, explicit);
      }
    }
    assert parts[..|parts|] == parts;
  }

  // ---------- the Debian binaries ----------

  /** One test a mapping. */
  function Tests(r: Release): seq<Part -> nat> {
    seq(|r.mappings|, j requires 0 <= j < |r.mappings| => BinaryOf(r, r.mappings[j]))
  }

  function BinaryNames(r: Release): seq<string> {
    seq(|r.mappings|, j requires 0 <= j < |r.mappings| => r.mappings[j].binary)
  }

  /** The mapping with a name, if the version is the same. */
  method NameIndex(mappings: seq<Mapping>, identity: Option<(string, string)>) returns (k: Option<nat>)
    requires forall i, j :: 0 <= i < j < |mappings| ==> mappings[i].binary != mappings[j].binary
    ensures k.Some? ==> k.value < |mappings|
    ensures forall j :: 0 <= j < |mappings| ==>
      (identity == Some((mappings[j].binary, mappings[j].version)) <==> k == Some(j))
  {
    if identity.None? {
      return None;
    }
    for i := 0 to |mappings|
      invariant forall j :: 0 <= j < i ==> mappings[j].binary != identity.value.0
    {
      if mappings[i].binary == identity.value.0 {
        return if identity.value.1 == mappings[i].version then Some(i) else None;
      }
    }
    return None;
  }

  /** The mapping a component is the binary of. */
  method Classify(r: Release, p: Part) returns (k: Option<nat>)
    requires ReleaseOk(r)
    ensures k.Some? ==> k.value < |r.mappings|
    ensures forall j :: 0 <= j < |r.mappings| ==> BinaryOf(r, r.mappings[j])(p) == if k == Some(j) then 1 else 0
  {
    k := NameIndex(r.mappings, DebianIdentity(r, p.purl));
  }

  function Held(binaries: map<string, nat>, name: string): nat { if name in binaries then 1 else 0 }

  predicate DistinctNames(names: seq<string>) { forall i, j :: 0 <= i < j < |names| ==> names[i] != names[j] }

  /** binary_components: a name is held exactly when its test counts one, at the component that it
      counts. */
  ghost predicate FoundBy(names: seq<string>, tests: seq<Part -> nat>, parts: seq<Part>, binaries: map<string, nat>)
    requires |tests| == |names|
  {
    && (forall k :: 0 <= k < |names| ==>
          && Held(binaries, names[k]) == Sorting.Sum(tests[k], parts)
          && (names[k] in binaries ==> binaries[names[k]] < |parts| && tests[k](parts[binaries[names[k]]]) > 0))
    && (forall name :: name in binaries ==> name in names)
  }

  lemma CountNext<T>(f: T -> nat, s: seq<T>, i: nat)
    requires i < |s|
    ensures Sorting.Sum(f, s[..i + 1]) == Sorting.Sum(f, s[..i]) + f(s[i])
    ensures Sorting.Sum(f, s[..i + 1]) <= Sorting.Sum(f, s)
  {
    assert s[..i + 1] == s[..i] + [s[i]];
    Sorting.SumAppend(f, s[..i], [s[i]]);
    Sorting.SumOne(f, s[i]);
    assert s == s[..i + 1] + s[i + 1..];
    Sorting.SumAppend(f, s[..i + 1], s[i + 1..]);
  }

  lemma FoundNext(names: seq<string>, tests: seq<Part -> nat>, parts: seq<Part>, i: nat, binaries: map<string, nat>,
                  hit: Option<nat>, after: map<string, nat>)
    requires |tests| == |names| && DistinctNames(names) && i < |parts| && FoundBy(names, tests, parts[..i], binaries)
    requires forall j :: 0 <= j < |tests| ==> tests[j](parts[i]) == if hit == Some(j) then 1 else 0
    requires hit.None? ==> after == binaries
    requires hit.Some? ==> hit.value < |names| && names[hit.value] !in binaries && after == binaries[names[hit.value] := i]
    ensures FoundBy(names, tests, parts[..i + 1], after)
  {
    forall k | 0 <= k < |names|
      ensures Held(after, names[k]) == Sorting.Sum(tests[k], parts[..i + 1])
      ensures names[k] in after ==> after[names[k]] < i + 1 && tests[k](parts[..i + 1][after[names[k]]]) > 0
    {
      CountNext(tests[k], parts, i);
      assert Held(binaries, names[k]) == Sorting.Sum(tests[k], parts[..i]);
      assert names[k] in binaries ==> parts[..i][binaries[names[k]]] == parts[binaries[names[k]]];
    }
  }

  lemma FoundTwice(names: seq<string>, tests: seq<Part -> nat>, parts: seq<Part>, i: nat, binaries: map<string, nat>, k: nat)
    requires |tests| == |names| && i < |parts| && FoundBy(names, tests, parts[..i], binaries)
    requires k < |names| && names[k] in binaries && tests[k](parts[i]) == 1
    ensures Sorting.Sum(tests[k], parts) > 1
  {
    CountNext(tests[k], parts, i);
    assert Held(binaries, names[k]) == Sorting.Sum(tests[k], parts[..i]);
  }

  method FindBinaries(r: Release, parts: seq<Part>) returns (ok: bool, binaries: map<string, nat>)
    requires ReleaseOk(r)
    ensures ok <==> forall k :: 0 <= k < |r.mappings| ==> Sorting.Sum(Tests(r)[k], parts) <= 1
    ensures ok ==> FoundBy(BinaryNames(r), Tests(r), parts, binaries)
  {
    ghost var names, tests := BinaryNames(r), Tests(r);
    binaries := map[];
    for i := 0 to |parts|
      invariant FoundBy(names, tests, parts[..i], binaries)
    {
      var hit := Classify(r, parts[i]);
      ghost var before := binaries;
      if hit.Some? {
        var name := r.mappings[hit.value].binary;
        if name in binaries {
          FoundTwice(names, tests, parts, i, binaries, hit.value);
          return false, binaries;
        }
        binaries := binaries[name := i];
      }
      FoundNext(names, tests, parts, i, before, hit, binaries);
    }
    assert parts[..|parts|] == parts;
    ok := true;
    forall k | 0 <= k < |r.mappings| ensures Sorting.Sum(tests[k], parts) <= 1 {
      assert Held(binaries, names[k]) <= 1;
    }
  }

  lemma DebianByTests(r: Release, parts: seq<Part>)
    ensures DebianOk(r, parts) <==>
      || (forall k :: 0 <= k < |r.mappings| ==> Sorting.Sum(Tests(r)[k], parts) == 0)
      || (forall k :: 0 <= k < |r.mappings| ==> Sorting.Sum(Tests(r)[k], parts) == 1)
    ensures HasDebian(r, parts) <==> forall k :: 0 <= k < |r.mappings| ==> Sorting.Sum(Tests(r)[k], parts) > 0
  {
    forall k | 0 <= k < |r.mappings| ensures Sorting.Sum(Tests(r)[k], parts) == Binaries(r, parts, r.mappings[k]) {
    }
    forall m | m in r.mappings ensures exists k :: 0 <= k < |r.mappings| && Binaries(r, parts, m) == Sorting.Sum(Tests(r)[k], parts) {
      var k :| 0 <= k < |r.mappings| && r.mappings[k] == m;
    }
  }

  lemma NoneHeld(names: seq<string>, tests: seq<Part -> nat>, parts: seq<Part>)
    requires |tests| == |names| && FoundBy(names, tests, parts, map[])
    ensures forall k :: 0 <= k < |names| ==> Sorting.Sum(tests[k], parts) == 0
  {
    forall k | 0 <= k < |names| ensures Sorting.Sum(tests[k], parts) == 0 {
      assert Held(map[], names[k]) == 0;
    }
  }

  lemma SomeHeld(names: seq<string>, tests: seq<Part -> nat>, parts: seq<Part>, binaries: map<string, nat>)
    requires |tests| == |names| && FoundBy(names, tests, parts, binaries) && binaries != map[]
    ensures exists k :: 0 <= k < |names| && Sorting.Sum(tests[k], parts) == 1
    ensures (forall k :: 0 <= k < |names| ==> names[k] in binaries)
      <==> (forall k :: 0 <= k < |names| ==> Sorting.Sum(tests[k], parts) == 1)
  {
    forall k | 0 <= k < |names| ensures Sorting.Sum(tests[k], parts) == Held(binaries, names[k]) {
    }
    var name :| name in binaries;
    var k :| 0 <= k < |names| && names[k] == name;
  }

  ghost predicate AllSteady(tests: seq<Part -> nat>) { forall k :: 0 <= k < |tests| ==> Steady(tests[k]) }

  lemma TestsSteady(r: Release)
    ensures AllSteady(Tests(r))
  {
    forall k | 0 <= k < |r.mappings| ensures Steady(Tests(r)[k]) {
      SteadyBinary(r, r.mappings[k]);
    }
  }

  lemma FoundKept(names: seq<string>, tests: seq<Part -> nat>, parts: seq<Part>, after: seq<Part>, binaries: map<string, nat>)
    requires |tests| == |names| && AllSteady(tests) && FoundBy(names, tests, parts, binaries) && Extends(parts, after)
    requires forall k :: 0 <= k < |tests| ==> Sorting.Sum(tests[k], after) == Sorting.Sum(tests[k], parts)
    ensures FoundBy(names, tests, after, binaries)
  {
    forall k | 0 <= k < |names| && names[k] in binaries ensures tests[k](after[binaries[names[k]]]) > 0 {
      assert Later(parts[binaries[names[k]]], after[binaries[names[k]]]) && Steady(tests[k]);
    }
  }

  // ---------- properties ----------

  method MatchingProperties(properties: seq<Property>, name: string) returns (matches: seq<nat>)
    ensures matches == Places(Named(name), properties)
  {
    matches := [];
    for i := 0 to |properties|
      invariant matches == Places(Named(name), properties[..i])
    {
      assert properties[..i + 1] == properties[..i] + [properties[i]];
      PlacesAppend(Named(name), properties[..i], properties[i]);
      assert Repeat(i, 1) == [i] && Repeat(i, 0) == [];
      if properties[i].name == name {
        matches := matches + [i];
      }
    }
    assert properties[..|properties|] == properties;
  }

  /** add_cdx_property */
  method AddCdxProperty(p: Part, name: string, value: string) returns (q: Option<Part>)
    ensures q == AddProperty(p, name, value)
  {
    var matches := MatchingProperties(p.properties, name);
    PlacesCount(Named(name), p.properties);
    if |matches| > 1 || (matches != [] && p.properties[matches[0]].value != value) {
      return None;
    }
    var properties := p.properties;
    if matches == [] {
      properties := properties + [Property(name, value)];
    }
    return Some(p.(properties := Sorting.Sort(properties, ByNameValue)));
  }

  /** What the loop over the inventory writes into a component. */
  method FillPart(p: Part, rec: Record) returns (q: Option<Part>)
    ensures q == Fill(p, rec)
  {
    q := AddCdxProperty(Signed(p, rec), SOURCE_PATH, rec.path);
    if q.Some? {
      q := AddCdxProperty(q.value, LICENSE_BASIS, rec.basis);
      if q.Some? && rec.comment.Some? {
        q := AddCdxProperty(q.value, LICENSE_COMMENT, rec.comment.value);
      }
    }
  }

  // ---------- the Debian sources met so far ----------

  /** A source stands in the document once, as a dependency of the application. */
  ghost predicate SourceMetAt(need: Need, application: string, parts: seq<Part>, deps: seq<Dep>, i: nat) {
    && i < |parts| && Sorting.Sum(need.finder, parts) == 1 && need.finder(parts[i]) > 0
    && Entered(deps, Ref(parts[i])) && Tied(deps, application, Ref(parts[i]))
  }

  /** source_components by the place of the mapping in the list of needs. */
  ghost predicate SourcesMet(needs: seq<Need>, keys: seq<(string, string)>, application: string, parts: seq<Part>,
                             deps: seq<Dep>, sources: map<(string, string), nat>)
    requires |keys| == |needs|
  {
    forall k :: 0 <= k < |needs| && keys[k] in sources ==>
      SourceMetAt(needs[k], application, parts, deps, sources[keys[k]])
  }

  lemma SourceStays(r: Release, need: Need, application: string, st: State, next: State, i: nat)
    requires NeedOk(r, need) && SourceMetAt(need, application, st.parts, st.deps, i)
    requires Extends(st.parts, next.parts) && Grown(st.deps, next.deps) && Sorting.Sum(need.finder, next.parts) == 1
    ensures SourceMetAt(need, application, next.parts, next.deps, i)
  {
    assert Later(st.parts[i], next.parts[i]);
  }

  /** The source of a need that was just met. */
  lemma SourceOfMet(need: Need, application: string, parts: seq<Part>, deps: seq<Dep>, i: nat)
    requires Met(need, application, parts, deps) && i < |parts| && need.finder(parts[i]) > 0
    ensures SourceMetAt(need, application, parts, deps, i)
  {
    var j: nat, l: nat :| MetAt(need, application, parts, deps, j, l);
    Sorting.OnlyOne(need.finder, parts, i);
    Sorting.OnlyOne(need.finder, parts, j);
  }

  lemma SourceAgain(need: Need, application: string, st: State, i: nat)
    requires DepsOk(st.deps) && SourceMetAt(need, application, st.parts, st.deps, i)
    ensures Ensure(st.parts, need) == Some((st.parts, i))
    ensures EnterTie(st.deps, application, Ref(st.parts[i])) == Some(st.deps)
  {
    Sorting.OnlyOne(need.finder, st.parts, i);
    EnterTieStays(st.deps, application, Ref(st.parts[i]));
  }

  lemma SourcesEntered(r: Release, needs: seq<Need>, keys: seq<(string, string)>, application: string, st: State, next: State,
                       sources: map<(string, string), nat>, k: nat, i: nat)
    requires NeedsFit(r, needs) && |keys| == |needs| && k < |needs| && DepsOk(st.deps) && BinaryThere(needs[k], st.parts)
    requires Meet(needs[k], application, st) == Some(next) && i < |next.parts| && needs[k].finder(next.parts[i]) > 0
    requires forall j :: 0 <= j < |needs| && keys[j] == keys[k] ==> needs[j].finder == needs[k].finder
    requires SourcesMet(needs, keys, application, st.parts, st.deps, sources)
    ensures SourcesMet(needs, keys, application, next.parts, next.deps, sources[keys[k] := i])
  {
    MeetDone(r, needs[k], application, st, next);
    SourceOfMet(needs[k], application, next.parts, next.deps, i);
    forall j | 0 <= j < |needs| && keys[j] in sources[keys[k] := i]
      ensures SourceMetAt(needs[j], application, next.parts, next.deps, sources[keys[k] := i][keys[j]])
    {
      if keys[j] != keys[k] {
        assert NeedOk(r, needs[j]) && SourceMetAt(needs[j], application, st.parts, st.deps, sources[keys[j]]);
        MeetCounts(r, needs[k], application, st, next, needs[j].finder);
        SourceStays(r, needs[j], application, st, next, sources[keys[j]]);
      }
    }
  }

  lemma FromReleaseCarries(r: Release, need: Need)
    requires FromRelease(r, need)
    ensures forall k :: Carries(need.template, k) == if k == NormalizedPurl(need.purl) then 1 else 0
  {}

  lemma ApplicationCarries(r: Release)
    requires ReleaseOk(r)
    ensures forall k :: Carries(NewApplication(r), k) == if k == ApplicationPurl(r) then 1 else 0
  {
    SbomSettles.ApplicationPurlIsKey(r);
  }

  // ---------- the run in terms of its steps ----------

  lemma ConflictAt(r: Release, parts: seq<Part>, applications: seq<nat>, i: nat)
    requires applications == Places(WithPurl(ApplicationPurl(r)), parts) && i < |parts|
    ensures Conflicts(r, parts[i]) <==> i !in applications && LooksLikeApplication(parts[i])
  {
    PlacesMember(WithPurl(ApplicationPurl(r)), parts, i);
  }

  lemma ConflictSomewhere(r: Release, parts: seq<Part>, applications: seq<nat>)
    requires applications == Places(WithPurl(ApplicationPurl(r)), parts)
    ensures (exists i :: 0 <= i < |parts| && i !in applications && LooksLikeApplication(parts[i]))
      <==> exists p :: p in parts && Conflicts(r, p)
  {
    if i :| 0 <= i < |parts| && i !in applications && LooksLikeApplication(parts[i]) {
      ConflictAt(r, parts, applications, i);
    }
    if p :| p in parts && Conflicts(r, p) {
      var i :| 0 <= i < |parts| && parts[i] == p;
      ConflictAt(r, parts, applications, i);
    }
  }

  lemma MarkSpec(binary: Part -> nat, purl: string, source: string, st: State, j: nat)
    requires j < |st.parts| && Sorting.Sum(binary, st.parts) == 1 && binary(st.parts[j]) > 0
    ensures MarkBinary(binary, purl, source, st)
      == var marked := AddProperty(st.parts[j], SOURCE_PURL, purl);
         var deps := Tie(Enter(st.deps, Ref(st.parts[j])), Ref(st.parts[j]), source);
         if marked.None? || deps.None? then None else Some(State(st.parts[j := marked.value], deps.value))
  {
    Sorting.OnlyOne(binary, st.parts, j);
  }

  /** The source of a need and the edge to it. */
  function FindSource(need: Need, application: string, st: State): (found: Option<(State, nat)>)
    ensures found.Some? ==> found.value.1 < |found.value.0.parts|
  {
    var ensured := Ensure(st.parts, need);
    if ensured.None? then None
    else
      var deps := EnterTie(st.deps, application, Ref(ensured.value.0[ensured.value.1]));
      if deps.None? then None else Some((State(ensured.value.0, deps.value), ensured.value.1))
  }

  lemma MeetSpec(need: Need, application: string, st: State)
    ensures Meet(need, application, st)
      == var found := FindSource(need, application, st);
         if found.None? then None
         else if need.binary.None? then Some(found.value.0)
         else MarkBinary(need.binary.value, need.purl, Ref(found.value.0.parts[found.value.1]), found.value.0)
  {}

  lemma PartsSpec(r: Release, b: Bom, parts: seq<Part>, a: nat)
    requires b.root.Some? && Identify(r, b.parts) == Some((parts, a)) && a < |parts|
    ensures AugmentParts(r, b)
      == var deps := Tie(Enter(Enter(b.deps, b.root.value), Ref(parts[a])), b.root.value, Ref(parts[a]));
         if !DebianOk(r, parts) || deps.None? then None
         else
           var supplied := Supply(Needs(r, parts), Ref(parts[a]), State(parts, deps.value));
           if supplied.None? then None else Some((supplied.value, a))
  {}

  lemma NoParts(r: Release, b: Bom)
    requires b.root.Some? && Identify(r, b.parts) == None
    ensures AugmentParts(r, b) == None
  {}

  lemma RestSpec(r: Release, b: Bom, st: State, a: nat)
    requires Readable(b) && AugmentParts(r, b) == Some((st, a)) && a < |st.parts|
    ensures Augment(r, b) == Rest(r, b.(parts := st.parts, deps := st.deps), a)
  {}

  lemma NotRead(r: Release, b: Bom)
    requires !Readable(b) || (b.root.Some? && AugmentParts(r, b) == None)
    ensures Augment(r, b) == None
  {}

  /** What the names of the binaries decide. */
  lemma DebianDecided(r: Release, parts: seq<Part>, binaries: map<string, nat>)
    requires FoundBy(BinaryNames(r), Tests(r), parts, binaries)
    ensures binaries == map[] ==> DebianOk(r, parts) && |DebianNeeds(r, parts)| == 0
    ensures binaries != map[] ==>
      && (DebianOk(r, parts) <==> forall m :: m in r.mappings ==> m.binary in binaries)
      && (DebianOk(r, parts) ==> HasDebian(r, parts))
  {
    var names := BinaryNames(r);
    DebianByTests(r, parts);
    if binaries == map[] {
      NoneHeld(names, Tests(r), parts);
      assert r.mappings != [] ==> Sorting.Sum(Tests(r)[0], parts) == 0;
    } else {
      SomeHeld(names, Tests(r), parts, binaries);
      AllNames(r, binaries);
    }
  }

  lemma AllNames(r: Release, binaries: map<string, nat>)
    ensures (forall m :: m in r.mappings ==> m.binary in binaries)
      <==> (forall k :: 0 <= k < |r.mappings| ==> BinaryNames(r)[k] in binaries)
  {
    if forall k :: 0 <= k < |r.mappings| ==> BinaryNames(r)[k] in binaries {
      forall m | m in r.mappings ensures m.binary in binaries {
        var k :| 0 <= k < |r.mappings| && r.mappings[k] == m;
        assert BinaryNames(r)[k] == m.binary;
      }
    }
  }

  lemma ReadableByRefs(b: Bom, refs: seq<Option<string>>, depRefs: seq<Option<string>>)
    requires |refs| == |b.parts| && forall i :: 0 <= i < |refs| ==> refs[i] == b.parts[i].ref
    requires |depRefs| == |b.deps| && forall i :: 0 <= i < |depRefs| ==> depRefs[i] == b.deps[i].ref
    ensures RefsOk(b.parts) <==>
      (forall i :: 0 <= i < |refs| ==> refs[i].Some?) && (forall i, j :: 0 <= i < j < |refs| ==> refs[i] != refs[j])
    ensures DepsOk(b.deps) <==>
      (forall i :: 0 <= i < |depRefs| ==> depRefs[i].Some?)
      && (forall i, j :: 0 <= i < j < |depRefs| ==> depRefs[i] != depRefs[j])
  {}

  /** What follows the packages half. */
  function Rest(r: Release, b: Bom, a: nat): Option<Bom>
    requires a < |b.parts|
  {
    var application := Ref(b.parts[a]);
    var second := AugmentSources(r, b, application, State(b.parts, b.deps));
    if second.None? then None
    else
      var deps := LinkAll(second.value.parts, a, application, 0, second.value.deps);
      if deps.None? then None else Some(Ordered(b.(parts := second.value.parts, deps := deps.value)))
  }

  // ---------- supplying step by step ----------

  lemma SupplyFrom(needs: seq<Need>, k: nat, application: string, st: State)
    requires k < |needs|
    ensures Supply(needs[k..], application, st)
      == var next := Meet(needs[k], application, st);
         if next.None? then None else Supply(needs[k + 1..], application, next.value)
  {
    assert needs[k..][0] == needs[k] && needs[k..][1..] == needs[k + 1..];
  }

  /** The binary keeps its place and its count when a source is appended. */
  lemma SourceCounts(need: Need, parts: seq<Part>, after: seq<Part>, j: nat)
    requires need.binary.Some? && BinaryThere(need, parts) && j < |parts| && need.binary.value(parts[j]) > 0
    requires after == parts + (if Sorting.Sum(need.finder, parts) == 0 then [need.template] else [])
    ensures j < |after| && after[j] == parts[j] && Sorting.Sum(need.binary.value, after) == 1
  {
    Sorting.SumAppend(need.binary.value, parts, [need.template]);
    Sorting.SumOne(need.binary.value, need.template);
    assert parts + [] == parts;
  }

  lemma SourceKept(need: Need, application: string, st: State, mid: State, i: nat, j: nat)
    requires need.binary.Some? && need.finder(need.template) == 1
    requires BinaryThere(need, st.parts) && j < |st.parts| && need.binary.value(st.parts[j]) > 0
    requires FindSource(need, application, st) == Some((mid, i))
    ensures j < |mid.parts| && need.binary.value(mid.parts[j]) > 0 && Sorting.Sum(need.binary.value, mid.parts) == 1
    ensures i < |mid.parts| && need.finder(mid.parts[i]) > 0
  {
    EnsureDone(st.parts, need);
    SourceCounts(need, st.parts, mid.parts, j);
  }

  lemma TwiceIsNotOk(r: Release, parts: seq<Part>)
    requires exists k :: 0 <= k < |r.mappings| && Sorting.Sum(Tests(r)[k], parts) > 1
    ensures !DebianOk(r, parts)
  {
    DebianByTests(r, parts);
  }

  lemma MarkedFinds(need: Need, mid: State, next: State, source: string, i: nat)
    requires need.binary.Some? && Steady(need.finder) && i < |mid.parts| && need.finder(mid.parts[i]) > 0
    requires Sorting.Sum(need.binary.value, mid.parts) > 0
    requires MarkBinary(need.binary.value, need.purl, source, mid) == Some(next)
    ensures i < |next.parts| && need.finder(next.parts[i]) > 0
  {
    var j := Sorting.Index(need.binary.value, mid.parts);
    MarkLater(mid.parts[j], need.purl, next.parts[j]);
    assert i != j ==> next.parts[i] == mid.parts[i];
  }

  // ---------- the loop over the Debian mappings ----------

  function SourceKeys(r: Release): seq<(string, string)> {
    seq(|r.mappings|, j requires 0 <= j < |r.mappings| => (r.mappings[j].source, r.mappings[j].sourceVersion))
  }

  /** What the loop over the mappings relies on. */
  ghost predicate DebianLoopOk(r: Release, needs: seq<Need>, names: seq<string>, tests: seq<Part -> nat>,
                               keys: seq<(string, string)>, parts: seq<Part>, binaries: map<string, nat>)
  {
    && |needs| == |names| == |tests| == |keys| == |r.mappings|
    && NeedsFit(r, needs) && AllSteady(tests) && FoundBy(names, tests, parts, binaries)
    && (forall k :: 0 <= k < |needs| ==>
          && FromRelease(r, needs[k]) && needs[k].binary == Some(tests[k]) && Sorting.Sum(tests[k], parts) == 1
          && names[k] == r.mappings[k].binary && keys[k] == (r.mappings[k].source, r.mappings[k].sourceVersion))
    && (forall j, k :: 0 <= j < |needs| && 0 <= k < |needs| && keys[j] == keys[k] ==> needs[j].finder == needs[k].finder)
  }

  lemma FitPrefix(r: Release, needs: seq<Need>, rest: seq<Need>)
    requires NeedsFit(r, needs + rest)
    ensures NeedsFit(r, needs)
  {
    var all := needs + rest;
    assert forall k :: 0 <= k < |needs| ==> all[k] == needs[k];
  }

  lemma DebianLoop(r: Release, parts: seq<Part>, binaries: map<string, nat>)
    requires ReleaseOk(r) && DebianOk(r, parts) && HasDebian(r, parts) && FoundBy(BinaryNames(r), Tests(r), parts, binaries)
    ensures DebianLoopOk(r, DebianNeeds(r, parts), BinaryNames(r), Tests(r), SourceKeys(r), parts, binaries)
  {
    var needs, tests := DebianNeeds(r, parts), Tests(r);
    NeedsAreFit(r, parts);
    FitPrefix(r, needs, ComponentNeeds(r));
    TestsSteady(r);
    DebianByTests(r, parts);
    forall k | 0 <= k < |needs| ensures FromRelease(r, needs[k]) && needs[k].binary == Some(tests[k]) {
      DebianFromRelease(r, r.mappings[k]);
    }
    forall j, k | 0 <= j < |needs| && 0 <= k < |needs| && SourceKeys(r)[j] == SourceKeys(r)[k]
      ensures needs[j].finder == needs[k].finder
    {
      assert SourcePurl(r, r.mappings[j]) == SourcePurl(r, r.mappings[k]);
    }
  }

  lemma BinaryPlace(r: Release, needs: seq<Need>, names: seq<string>, tests: seq<Part -> nat>, keys: seq<(string, string)>,
                    parts: seq<Part>, binaries: map<string, nat>, k: nat)
    requires DebianLoopOk(r, needs, names, tests, keys, parts, binaries) && k < |needs|
    ensures names[k] in binaries && binaries[names[k]] < |parts| && tests[k](parts[binaries[names[k]]]) > 0
    ensures BinaryThere(needs[k], parts)
  {
    assert Held(binaries, names[k]) == Sorting.Sum(tests[k], parts);
  }

  lemma DebianLoopNext(r: Release, needs: seq<Need>, names: seq<string>, tests: seq<Part -> nat>, keys: seq<(string, string)>,
                       application: string, st: State, next: State, binaries: map<string, nat>, k: nat)
    requires DebianLoopOk(r, needs, names, tests, keys, st.parts, binaries) && k < |needs| && DepsOk(st.deps)
    requires BinaryThere(needs[k], st.parts) && Meet(needs[k], application, st) == Some(next)
    ensures DebianLoopOk(r, needs, names, tests, keys, next.parts, binaries)
  {
    MeetDone(r, needs[k], application, st, next);
    forall j | 0 <= j < |tests| ensures Sorting.Sum(tests[j], next.parts) == Sorting.Sum(tests[j], st.parts) {
      assert needs[j].binary == Some(tests[j]) && needs[j].binary.value(needs[k].template) == 0;
      MeetCounts(r, needs[k], application, st, next, tests[j]);
    }
    FoundKept(names, tests, st.parts, next.parts, binaries);
  }

  /** Needs after needs. */
  lemma {:induction false} SupplyOn(first: seq<Need>, rest: seq<Need>, application: string, st: State)
    ensures Supply(first + rest, application, st)
      == var supplied := Supply(first, application, st);
         if supplied.None? then None else Supply(rest, application, supplied.value)
    decreases |first|
  {
    if |first| == 0 {
      assert first + rest == rest;
    } else {
      assert (first + rest)[0] == first[0] && (first + rest)[1..] == first[1..] + rest;
      var next := Meet(first[0], application, st);
      if next.Some? {
        SupplyOn(first[1..], rest, application, next.value);
      }
    }
  }

  // ---------- source files ----------

  /** Placing a record in terms of what by_path holds. */
  lemma PlaceSpec(r: Release, parts: seq<Part>, known: nat, rec: Record, matches: seq<nat>)
    requires known <= |parts| && matches == Places(AtPath(rec.path), parts[..known])
    ensures |matches| > 1 ==> Place(r, parts, known, rec) == None
    ensures matches == [] ==>
      Place(r, parts, known, rec)
      == var filled := Fill(NewPart(r, rec), rec); if filled.None? then None else Some((parts + [filled.value], |parts|))
    ensures |matches| == 1 ==> matches[0] < known && Stands(parts[matches[0]], rec.path) > 0
    ensures |matches| == 1 ==>
      Place(r, parts, known, rec)
      == var i := matches[0];
         var filled := Fill(parts[i], rec);
         if !Agrees(parts[i], rec) || filled.None? then None else Some((parts[i := filled.value], i))
  {
    PlacesCount(AtPath(rec.path), parts[..known]);
    assert |matches| == 1 ==> matches[0] in matches;
  }

  lemma PathsEdited(byPath: Positions, inventory: seq<Record>, parts: seq<Part>, known: nat, i: nat, rec: Record, q: Part)
    requires known <= |parts| && i < known && Fill(parts[i], rec) == Some(q) && Stands(parts[i], rec.path) > 0
    requires PathsIndexed(byPath, inventory, parts[..known])
    ensures PathsIndexed(byPath, inventory, parts[i := q][..known])
  {
    assert parts[i := q][..known] == parts[..known][i := q];
    forall other | other in inventory
      ensures Places(AtPath(other.path), parts[..known][i := q]) == Places(AtPath(other.path), parts[..known])
    {
      FillStands(parts[i], rec, q, other.path);
      PlacesUpdate(AtPath(other.path), parts[..known], i, q);
    }
  }

  lemma FilesFrom(r: Release, application: string, known: nat, records: seq<Record>, k: nat, st: State)
    requires known <= |st.parts| && k < |records|
    ensures FileAll(r, application, known, records[k..], st)
      == var next := File(r, application, known, records[k], st);
         if next.None? then None else FileAll(r, application, known, records[k + 1..], next.value)
  {
    assert records[k..][0] == records[k] && records[k..][1..] == records[k + 1..];
  }

  method CanonicalDeps(deps: seq<Dep>) returns (after: seq<Dep>)
    ensures after == CanonicalAll(deps)
  {
    after := deps;
    for i := 0 to |deps|
      invariant |after| == |deps|
      invariant forall k :: 0 <= k < |deps| ==> after[k] == if k < i then Canonical(deps[k]) else deps[k]
    {
      after := after[i := Canonical(after[i])];
    }
  }

  // ---------- the document ----------

  class CdxDocument {
    const root: Option<string>
    const rootName: string
    var parts: seq<Part>
    var deps: seq<Dep>
    var byRef: map<string, nat>
    var byPurl: Positions

    constructor (b: Bom)
      ensures Value() == b
    {
      root, rootName, parts, deps := b.root, b.rootName, b.parts, b.deps;
      byRef, byPurl := map[], map[];
    }

    function Value(): Bom
      reads this
    {
      Bom(root, rootName, parts, deps)
    }

    /** Both dictionaries agree with the lists. */
    ghost predicate Indexed()
      reads this
    {
      DepsIndexed(byRef, deps) && PurlsIndexed(byPurl, parts)
    }

    // ---------- dependencies ----------

    /** dependencies_by_ref.setdefault */
    method SetDefault(ref: string)
      requires DepsIndexed(byRef, deps)
      modifies this`deps, this`byRef
      ensures DepsIndexed(byRef, deps) && deps == Enter(old(deps), ref)
    {
      IndexedEntry(byRef, deps, ref);
      EnterGrows(deps, ref);
      if ref !in byRef {
        byRef := byRef[ref := |deps|];
        deps := deps + [Dep(Some(ref), Some([]), 0)];
      }
    }

    /** An edge that is not there is appended. */
    method DependOn(from: string, to: string) returns (ok: bool)
      requires DepsIndexed(byRef, deps)
      modifies this`deps
      ensures DepsIndexed(byRef, deps)
      ensures Tie(old(deps), from, to) == if ok then Some(deps) else None
    {
      IndexedEntry(byRef, deps, from);
      if from !in byRef || deps[byRef[from]].on.None? {
        return false;
      }
      var i := byRef[from];
      if to !in deps[i].on.value {
        deps := deps[i := deps[i].(on := Some(deps[i].on.value + [to]))];
      }
      ok := true;
    }

    method EnterAndTie(from: string, to: string) returns (ok: bool)
      requires DepsIndexed(byRef, deps)
      modifies this`deps, this`byRef
      ensures DepsIndexed(byRef, deps)
      ensures EnterTie(old(deps), from, to).Some? <==> ok
      ensures ok ==> EnterTie(old(deps), from, to) == Some(deps)
    {
      SetDefault(to);
      ok := DependOn(from, to);
    }

    method TieItself(from: string, to: string) returns (ok: bool)
      requires DepsIndexed(byRef, deps)
      modifies this`deps, this`byRef
      ensures DepsIndexed(byRef, deps)
      ensures Tie(Enter(old(deps), from), from, to).Some? <==> ok
      ensures ok ==> Tie(Enter(old(deps), from), from, to) == Some(deps)
    {
      SetDefault(from);
      ok := DependOn(from, to);
    }

    // ---------- the application ----------

    method HasConflict(r: Release, applications: seq<nat>) returns (conflict: bool)
      requires applications == Places(WithPurl(ApplicationPurl(r)), parts)
      ensures conflict <==> exists p :: p in parts && Conflicts(r, p)
    {
      conflict := exists i :: 0 <= i < |parts| && i !in applications && LooksLikeApplication(parts[i]);
      ConflictSomewhere(r, parts, applications);
    }

    method EnsureApplication(r: Release) returns (ok: bool, a: nat)
      requires ReleaseOk(r) && PurlsIndexed(byPurl, parts)
      modifies this`parts, this`byPurl
      ensures PurlsIndexed(byPurl, parts)
      ensures ok <==> Identify(r, old(parts)).Some?
      ensures ok ==> a < |parts| && Identify(r, old(parts)) == Some((parts, a))
    {
      var key := ApplicationPurl(r);
      var applications := Get(byPurl, key);
      PlacesCount(WithPurl(key), parts);
      var conflict := HasConflict(r, applications);
      if conflict || |applications| > 1 {
        return false, 0;
      }
      if applications != [] {
        a := applications[0];
      } else {
        a := |parts|;
        ApplicationCarries(r);
        PartIndexed(byPurl, parts, NewApplication(r), key);
        parts := parts + [NewApplication(r)];
        byPurl := Append(byPurl, key, a);
      }
      PurlEdited(byPurl, parts, a, Marked(r, parts[a]));
      assert applications == [] ==> parts[a := Marked(r, parts[a])] == old(parts) + [Marked(r, NewApplication(r))];
      parts := parts[a := Marked(r, parts[a])];
      ok := true;
    }

    // ---------- components the release must mention ----------

    /** by_purl is looked up; the component is found, or appended and entered. */
    method EnsurePart(r: Release, need: Need) returns (ok: bool, i: nat)
      requires FromRelease(r, need) && PurlsIndexed(byPurl, parts)
      modifies this`parts, this`byPurl
      ensures PurlsIndexed(byPurl, parts)
      ensures ok <==> Ensure(old(parts), need).Some?
      ensures ok ==> i < |parts| && Ensure(old(parts), need) == Some((parts, i))
    {
      var key := NormalizedPurl(need.purl);
      var matches := Get(byPurl, key);
      PlacesCount(WithPurl(key), parts);
      if |matches| > 1 {
        return false, 0;
      }
      if matches != [] {
        return true, matches[0];
      }
      i := |parts|;
      FromReleaseCarries(r, need);
      PartIndexed(byPurl, parts, need.template, key);
      parts := parts + [need.template];
      byPurl := Append(byPurl, key, i);
      ok := true;
    }

    /** The component of a need, its entry and the edge from the application; a Debian source that was
        met before is not looked up again. */
    method SourceOf(r: Release, need: Need, application: string, cached: Option<nat>) returns (ok: bool, i: nat)
      requires FromRelease(r, need) && Indexed()
      requires cached.Some? ==> SourceMetAt(need, application, parts, deps, cached.value)
      modifies this`parts, this`deps, this`byRef, this`byPurl
      ensures Indexed()
      ensures FindSource(need, application, old(State(parts, deps))) == if ok then Some((State(parts, deps), i)) else None
    {
      if cached.Some? {
        SourceAgain(need, application, State(parts, deps), cached.value);
        return true, cached.value;
      }
      ok, i := EnsurePart(r, need);
      if ok {
        ok := EnterAndTie(application, Ref(parts[i]));
      }
    }

    /** The mark and the edge of a Debian binary that stands at j. */
    method MarkAt(ghost binary: Part -> nat, j: nat, purl: string, source: string) returns (ok: bool)
      requires Indexed() && j < |parts| && Sorting.Sum(binary, parts) == 1 && binary(parts[j]) > 0
      modifies this`parts, this`deps, this`byRef
      ensures Indexed()
      ensures MarkBinary(binary, purl, source, old(State(parts, deps))) == if ok then Some(State(parts, deps)) else None
    {
      MarkSpec(binary, purl, source, State(parts, deps), j);
      var p := parts[j];
      var marked := AddCdxProperty(p, SOURCE_PURL, purl);
      if marked.None? {
        return false;
      }
      ok := TieItself(Ref(p), source);
      if ok {
        MarkLater(p, purl, marked.value);
        PurlEdited(byPurl, parts, j, marked.value);
        parts := parts[j := marked.value];
      }
    }

    /** One native component. */
    method MeetComponent(r: Release, need: Need, application: string) returns (ok: bool)
      requires FromRelease(r, need) && need.binary.None? && Indexed()
      modifies this`parts, this`deps, this`byRef, this`byPurl
      ensures Indexed()
      ensures Meet(need, application, old(State(parts, deps))) == if ok then Some(State(parts, deps)) else None
    {
      MeetSpec(need, application, State(parts, deps));
      var i;
      ok, i := SourceOf(r, need, application, None);
    }

    /** The loop over the native components. */
    method EnsureComponents(r: Release, application: string) returns (ok: bool)
      requires Indexed()
      modifies this`parts, this`deps, this`byRef, this`byPurl
      ensures Indexed()
      ensures Supply(ComponentNeeds(r), application, old(State(parts, deps))) == if ok then Some(State(parts, deps)) else None
    {
      var needs := ComponentNeeds(r);
      ghost var goal := Supply(needs, application, State(parts, deps));
      var k := 0;
      while k < |needs|
        invariant 0 <= k <= |needs| && Indexed()
        invariant goal == Supply(needs[k..], application, State(parts, deps))
      {
        SupplyFrom(needs, k, application, State(parts, deps));
        ComponentFromRelease(r, r.components[k]);
        ok := MeetComponent(r, needs[k], application);
        if !ok {
          return;
        }
        k := k + 1;
      }
      return true;
    }

    /** One Debian mapping whose binary stands at j. */
    method MeetSource(r: Release, need: Need, application: string, cached: Option<nat>, j: nat) returns (ok: bool, i: nat)
      requires FromRelease(r, need) && need.binary.Some? && Indexed()
      requires cached.Some? ==> SourceMetAt(need, application, parts, deps, cached.value)
      requires BinaryThere(need, parts) && j < |parts| && need.binary.value(parts[j]) > 0
      modifies this`parts, this`deps, this`byRef, this`byPurl
      ensures Indexed()
      ensures Meet(need, application, old(State(parts, deps))) == if ok then Some(State(parts, deps)) else None
      ensures ok ==> i < |parts| && need.finder(parts[i]) > 0
    {
      ghost var st := State(parts, deps);
      MeetSpec(need, application, st);
      FromReleaseOk(r, need);
      ok, i := SourceOf(r, need, application, cached);
      if ok {
        ghost var mid := State(parts, deps);
        SourceKept(need, application, st, mid, i, j);
        ok := MarkAt(need.binary.value, j, need.purl, Ref(parts[i]));
        if ok {
          MarkedFinds(need, mid, State(parts, deps), Ref(mid.parts[i]), i);
        }
      }
    }

    /** One turn of the loop over the Debian mappings. */
    method MeetMapping(r: Release, needs: seq<Need>, ghost names: seq<string>, ghost tests: seq<Part -> nat>,
                       ghost keys: seq<(string, string)>, application: string, binaries: map<string, nat>,
                       sources: map<(string, string), nat>, k: nat)
      returns (ok: bool, after: map<(string, string), nat>)
      requires Indexed() && DebianLoopOk(r, needs, names, tests, keys, parts, binaries) && k < |needs|
      requires SourcesMet(needs, keys, application, parts, deps, sources)
      modifies this`parts, this`deps, this`byRef, this`byPurl
      ensures Indexed()
      ensures Meet(needs[k], application, old(State(parts, deps))) == if ok then Some(State(parts, deps)) else None
      ensures ok ==> DebianLoopOk(r, needs, names, tests, keys, parts, binaries)
      ensures ok ==> SourcesMet(needs, keys, application, parts, deps, after)
    {
      var m := r.mappings[k];
      var key := (m.source, m.sourceVersion);
      ghost var st := State(parts, deps);
      BinaryPlace(r, needs, names, tests, keys, parts, binaries, k);
      var i;
      ok, i := MeetSource(r, needs[k], application, if key in sources then Some(sources[key]) else None, binaries[m.binary]);
      after := sources[key := i];
      if ok {
        SourcesEntered(r, needs, keys, application, st, State(parts, deps), sources, k, i);
        DebianLoopNext(r, needs, names, tests, keys, application, st, State(parts, deps), binaries, k);
      }
    }

    /** The loop over the Debian mappings. */
    method EnsureSources(r: Release, application: string, binaries: map<string, nat>) returns (ok: bool)
      requires ReleaseOk(r) && Indexed() && DebianOk(r, parts) && HasDebian(r, parts)
      requires FoundBy(BinaryNames(r), Tests(r), parts, binaries)
      modifies this`parts, this`deps, this`byRef, this`byPurl
      ensures Indexed()
      ensures Supply(DebianNeeds(r, old(parts)), application, old(State(parts, deps)))
        == if ok then Some(State(parts, deps)) else None
    {
      var needs := DebianNeeds(r, parts);
      ghost var names, tests, keys := BinaryNames(r), Tests(r), SourceKeys(r);
      DebianLoop(r, parts, binaries);
      ok := MeetMappings(r, needs, names, tests, keys, application, binaries);
    }

    method MeetMappings(r: Release, needs: seq<Need>, ghost names: seq<string>, ghost tests: seq<Part -> nat>,
                        ghost keys: seq<(string, string)>, application: string, binaries: map<string, nat>)
      returns (ok: bool)
      requires Indexed() && DebianLoopOk(r, needs, names, tests, keys, parts, binaries)
      modifies this`parts, this`deps, this`byRef, this`byPurl
      ensures Indexed()
      ensures Supply(needs, application, old(State(parts, deps))) == if ok then Some(State(parts, deps)) else None
    {
      ghost var goal := Supply(needs, application, State(parts, deps));
      var sources: map<(string, string), nat> := map[];
      var k := 0;
      while k < |needs|
        invariant 0 <= k <= |needs| && Indexed() && DebianLoopOk(r, needs, names, tests, keys, parts, binaries)
        invariant SourcesMet(needs, keys, application, parts, deps, sources)
        invariant goal == Supply(needs[k..], application, State(parts, deps))
      {
        SupplyFrom(needs, k, application, State(parts, deps));
        ok, sources := MeetMapping(r, needs, names, tests, keys, application, binaries, sources, k);
        if !ok {
          return;
        }
        k := k + 1;
      }
      return true;
    }

    /** Everything the release must mention. */
    method EnsureNeeds(r: Release, application: string) returns (ok: bool)
      requires ReleaseOk(r) && Indexed()
      modifies this`parts, this`deps, this`byRef, this`byPurl
      ensures Indexed()
      ensures ok <==> DebianOk(r, old(parts)) && Supply(Needs(r, old(parts)), application, old(State(parts, deps))).Some?
      ensures ok ==> Supply(Needs(r, old(parts)), application, old(State(parts, deps))) == Some(State(parts, deps))
    {
      var binaries;
      ok, binaries := FindBinaries(r, parts);
      if !ok {
        TwiceIsNotOk(r, parts);
        return;
      }
      DebianDecided(r, parts, binaries);
      SupplyOn(DebianNeeds(r, parts), ComponentNeeds(r), application, State(parts, deps));
      if binaries != map[] {
        if exists m :: m in r.mappings && m.binary !in binaries {
          return false;
        }
        ok := EnsureSources(r, application, binaries);
        if !ok {
          return;
        }
      }
      ok := EnsureComponents(r, application);
    }

    /** The first half of augment_cyclonedx. */
    method AugmentPartList(r: Release) returns (ok: bool, a: nat)
      requires ReleaseOk(r) && root.Some? && DepsIndexed(byRef, deps)
      modifies this`parts, this`deps, this`byRef, this`byPurl
      ensures Indexed()
      ensures ok <==> AugmentParts(r, old(Value())).Some?
      ensures ok ==> a < |parts| && AugmentParts(r, old(Value())) == Some((State(parts, deps), a))
    {
      ghost var b := Value();
      SetDefault(root.value);
      byPurl := IndexPurls(parts);
      ok, a := EnsureApplication(r);
      if !ok {
        NoParts(r, b);
        return;
      }
      PartsSpec(r, b, parts, a);
      var application := Ref(parts[a]);
      SetDefault(application);
      ok := DependOn(root.value, application);
      if ok {
        ok := EnsureNeeds(r, application);
      }
    }

    // ---------- source files ----------

    /** by_path is looked up; the component is found and checked, or appended, and then filled. */
    method PlacePart(r: Release, byPath: Positions, known: nat, rec: Record) returns (ok: bool, i: nat)
      requires known <= |parts| && rec in r.inventory && PathsIndexed(byPath, r.inventory, parts[..known])
      modifies this`parts
      ensures known <= |parts| && PathsIndexed(byPath, r.inventory, parts[..known])
      ensures ok <==> Place(r, old(parts), known, rec).Some?
      ensures ok ==> i < |parts| && Place(r, old(parts), known, rec) == Some((parts, i))
    {
      var matches := Get(byPath, rec.path);
      PlaceSpec(r, parts, known, rec, matches);
      if |matches| > 1 {
        return false, 0;
      }
      var filled;
      if matches != [] {
        i := matches[0];
        filled := FillPart(parts[i], rec);
        if !Agrees(parts[i], rec) || filled.None? {
          return false, 0;
        }
        PathsEdited(byPath, r.inventory, parts, known, i, rec, filled.value);
        parts := parts[i := filled.value];
      } else {
        i := |parts|;
        filled := FillPart(NewPart(r, rec), rec);
        if filled.None? {
          return false, 0;
        }
        assert (parts + [filled.value])[..known] == parts[..known];
        parts := parts + [filled.value];
      }
      ok := true;
    }

    /** One record of the inventory. */
    method FileRecord(r: Release, application: string, byPath: Positions, known: nat, rec: Record) returns (ok: bool)
      requires DepsIndexed(byRef, deps)
      requires known <= |parts| && rec in r.inventory && PathsIndexed(byPath, r.inventory, parts[..known])
      modifies this`parts, this`deps, this`byRef
      ensures DepsIndexed(byRef, deps) && known <= |parts| && PathsIndexed(byPath, r.inventory, parts[..known])
      ensures File(r, application, known, rec, old(State(parts, deps))) == if ok then Some(State(parts, deps)) else None
    {
      var i;
      ok, i := PlacePart(r, byPath, known, rec);
      if ok {
        ok := EnterAndTie(application, Ref(parts[i]));
      }
    }

    /** The loop over the license inventory. */
    method FileRecords(r: Release, application: string) returns (ok: bool)
      requires DepsIndexed(byRef, deps)
      modifies this`parts, this`deps, this`byRef
      ensures DepsIndexed(byRef, deps)
      ensures FileAll(r, application, |old(parts)|, r.inventory, old(State(parts, deps)))
        == if ok then Some(State(parts, deps)) else None
    {
      var byPath := IndexPaths(r.inventory, parts);
      var known, k := |parts|, 0;
      assert parts[..known] == parts;
      ghost var goal := FileAll(r, application, known, r.inventory, State(parts, deps));
      while k < |r.inventory|
        invariant 0 <= k <= |r.inventory| && known <= |parts| && DepsIndexed(byRef, deps)
        invariant PathsIndexed(byPath, r.inventory, parts[..known])
        invariant goal == FileAll(r, application, known, r.inventory[k..], State(parts, deps))
      {
        FilesFrom(r, application, known, r.inventory, k, State(parts, deps));
        ok := FileRecord(r, application, byPath, known, r.inventory[k]);
        if !ok {
          return;
        }
        k := k + 1;
      }
      return true;
    }

    // ---------- the last loop and the sort ----------

    /** Every component but the application itself; the application is told apart by its place. */
    method LinkParts(a: nat, application: string) returns (ok: bool)
      requires DepsIndexed(byRef, deps)
      modifies this`deps
      ensures DepsIndexed(byRef, deps)
      ensures LinkAll(parts, a, application, 0, old(deps)) == if ok then Some(deps) else None
    {
      ghost var goal := LinkAll(parts, a, application, 0, deps);
      for i := 0 to |parts|
        invariant DepsIndexed(byRef, deps) && goal == LinkAll(parts, a, application, i, deps)
      {
        if i != a && Wanted(parts[i]) {
          ok := DependOn(application, Ref(parts[i]));
          if !ok {
            return;
          }
        }
      }
      return true;
    }

    method SortLists()
      modifies this`parts, this`deps
      ensures Value() == Ordered(old(Value()))
    {
      parts := Sorting.Sort(parts, ByNameRef);
      deps := CanonicalDeps(deps);
      deps := Sorting.Sort(deps, ByRef);
    }

    /** The second half. */
    method AugmentRest(r: Release, a: nat) returns (ok: bool)
      requires DepsIndexed(byRef, deps) && a < |parts|
      modifies this
      ensures Rest(r, old(Value()), a) == if ok then Some(Value()) else None
    {
      var application := Ref(parts[a]);
      ok := true;
      if SourceName(rootName) {
        ok := FileRecords(r, application);
      }
      if ok {
        ok := LinkParts(a, application);
        if ok {
          SortLists();
        }
      }
    }

    /** augment_cyclonedx; a run that exits leaves the file as it was, so only a run that ends
        counts. */
    method AugmentCyclonedx(r: Release) returns (ok: bool)
      requires ReleaseOk(r)
      modifies this
      ensures Augment(r, old(Value())) == if ok then Some(Value()) else None
    {
      var refs := seq(|parts|, i requires 0 <= i < |parts| reads this => parts[i].ref);
      var one := CheckRefs(refs);
      var depRefs := seq(|deps|, i requires 0 <= i < |deps| reads this => deps[i].ref);
      var two := CheckRefs(depRefs);
      ghost var b := Value();
      ReadableByRefs(b, refs, depRefs);
      if !one || !two || root.None? || root.value == "" {
        NotRead(r, b);
        return false;
      }
      byRef := IndexDeps(deps);
      var a;
      ok, a := AugmentPartList(r);
      if ok {
        RestSpec(r, b, State(parts, deps), a);
        assert Value() == b.(parts := parts, deps := deps);
        ok := AugmentRest(r, a);
      } else {
        NotRead(r, b);
      }
    }

    /** A second run changes nothing on stable documents and exits on all others. */
    method AugmentTwice(r: Release) returns (ok: bool, again: bool, ghost once: Bom)
      requires InventoryRead(r)
      modifies this
      ensures ok <==> Augment(r, old(Value())).Some?
      ensures ok ==> Augment(r, old(Value())) == Some(once) && (again <==> Stable(r, old(Value())))
      ensures again ==> Value() == once
    {
      ghost var b := Value();
      ok := AugmentCyclonedx(r);
      once := Value();
      again := false;
      if ok {
        SecondRunExact(r, b);
        again := AugmentCyclonedx(r);
      }
    }
  }
}
