/** augment_spdx as it edits the document in place, with the dictionaries it keeps beside it. */
module SbomRun {
  import opened Common
  import opened Dictionary
  import opened Sbom
  import opened SbomRelease
  import opened SbomRerun
  import opened SbomSettles
  import opened SbomTheorem
  import Sorting

  /** by_purl holds the positions of the packages. */
  ghost predicate PurlsIndexed(byPurl: Positions, packages: seq<Package>) {
    forall key {:trigger Get(byPurl, key)} :: Get(byPurl, key) == Places(ByPurl(key), packages)
  }

  /** license_infos_by_id holds the positions of the license texts. */
  ghost predicate InfosIndexed(byId: Positions, infos: seq<Info>) {
    forall id {:trigger Get(byId, id)} :: Get(byId, id) == Places(WithId(id), infos)
  }

  /** by_path holds the positions of the files at the paths of the inventory. */
  ghost predicate PathsIndexed(byPath: Positions, inventory: seq<Record>, files: seq<File>) {
    forall rec :: rec in inventory ==> Get(byPath, rec.path) == Places(AtPath(rec.path), files)
  }

  // ---------- building the dictionaries ----------

  lemma PurlEntered(before: seq<nat>, byPurl: Positions, purls: seq<string>, i: nat, j: nat, key: string)
    requires j < |purls| && Get(byPurl, key) == before + Repeat(i, Sorting.Sum(RefersTo(key), purls[..j]))
    ensures Get(if purls[j] == "" then byPurl else Append(byPurl, NormalizedPurl(purls[j]), i), key)
      == before + Repeat(i, Sorting.Sum(RefersTo(key), purls[..j + 1]))
  {
    var value := purls[j];
    assert purls[..j + 1] == purls[..j] + [value];
    Sorting.SumAppend(RefersTo(key), purls[..j], [value]);
    Sorting.SumOne(RefersTo(key), value);
    OneMore(i, Sorting.Sum(RefersTo(key), purls[..j]));
    AppendGet(byPurl, NormalizedPurl(value), i, key);
  }

  lemma OneMore(i: nat, n: nat)
    ensures Repeat(i, n + 1) == Repeat(i, n) + [i]
  {}

  lemma PackageEntered(packages: seq<Package>, i: nat, key: string)
    requires i < |packages|
    ensures Places(ByPurl(key), packages[..i + 1])
      == Places(ByPurl(key), packages[..i]) + Repeat(i, Sorting.Sum(RefersTo(key), packages[i].purls))
  {
    assert packages[..i + 1] == packages[..i] + [packages[i]];
    PlacesAppend(ByPurl(key), packages[..i], packages[i]);
  }

  method IndexPurls(packages: seq<Package>) returns (byPurl: Positions)
    ensures PurlsIndexed(byPurl, packages)
  {
    byPurl := map[];
    for i := 0 to |packages|
      invariant PurlsIndexed(byPurl, packages[..i])
    {
      var purls := packages[i].purls;
      assert purls[..0] == [];
      for j := 0 to |purls|
        invariant forall key ::
          Get(byPurl, key) == Places(ByPurl(key), packages[..i]) + Repeat(i, Sorting.Sum(RefersTo(key), purls[..j]))
      {
        forall key {
          PurlEntered(Places(ByPurl(key), packages[..i]), byPurl, purls, i, j, key);
        }
        if purls[j] != "" {
          byPurl := Append(byPurl, NormalizedPurl(purls[j]), i);
        }
      }
      assert purls[..|purls|] == purls;
      forall key {
        PackageEntered(packages, i, key);
      }
    }
    assert packages[..|packages|] == packages;
  }

  method IndexInfos(infos: seq<Info>) returns (byId: Positions)
    ensures InfosIndexed(byId, infos)
  {
    byId := map[];
    for i := 0 to |infos|
      invariant InfosIndexed(byId, infos[..i])
    {
      assert infos[..i + 1] == infos[..i] + [infos[i]];
      InfoIndexed(byId, infos[..i], infos[i]);
      byId := Append(byId, infos[i].id, i);
    }
    assert infos[..|infos|] == infos;
  }

  method IndexPaths(inventory: seq<Record>, files: seq<File>) returns (byPath: Positions)
    ensures PathsIndexed(byPath, inventory, files)
  {
    byPath := map[];
    for i := 0 to |files|
      invariant PathsIndexed(byPath, inventory, files[..i])
    {
      var path := SourcePath(files[i].fileName);
      assert files[..i + 1] == files[..i] + [files[i]];
      forall rec | rec in inventory ensures Places(AtPath(rec.path), files[..i + 1])
        == Places(AtPath(rec.path), files[..i]) + if path == rec.path then [i] else []
      {
        PlacesAppend(AtPath(rec.path), files[..i], files[i]);
        assert Repeat(i, 1) == [i] && Repeat(i, 0) == [];
      }
      if exists rec :: rec in inventory && rec.path == path {
        byPath := Append(byPath, path, i);
      }
    }
    assert files[..|files|] == files;
  }

  // ---------- the Debian binaries ----------

  function Known(mappings: seq<Mapping>, name: string): (m: Option<Mapping>)
    ensures m.Some? ==> m.value in mappings && m.value.binary == name
    ensures m.None? ==> forall n :: n in mappings ==> n.binary != name
  {
    if mappings == [] then None
    else if mappings[0].binary == name then Some(mappings[0])
    else Known(mappings[1..], name)
  }

  function Held(binaries: map<string, nat>, name: string): nat { if name in binaries then 1 else 0 }

  /** binary_packages after some purls: a name is held exactly when the count is one, at the first
      place it was met. */
  ghost predicate Holds(r: Release, before: map<string, nat>, i: nat, purls: seq<string>, binaries: map<string, nat>) {
    && (forall m :: m in r.mappings ==>
          && Held(binaries, m.binary) == Held(before, m.binary) + Sorting.Sum(NamesBinary(r, m), purls)
          && (m.binary in binaries ==> binaries[m.binary] == if m.binary in before then before[m.binary] else i))
    && (forall name :: name in binaries ==> exists m :: m in r.mappings && m.binary == name)
  }

  lemma SamePackage(r: Release, m: Mapping, n: Mapping)
    requires ReleaseOk(r) && m in r.mappings && n in r.mappings && m.binary == n.binary
    ensures m == n
  {}

  lemma NameCount(r: Release, m: Mapping, purls: seq<string>, j: nat)
    requires j < |purls|
    ensures Sorting.Sum(NamesBinary(r, m), purls[..j + 1])
      == Sorting.Sum(NamesBinary(r, m), purls[..j]) + Names(r, m, purls[j])
  {
    assert purls[..j + 1] == purls[..j] + [purls[j]];
    Sorting.SumAppend(NamesBinary(r, m), purls[..j], [purls[j]]);
    Sorting.SumOne(NamesBinary(r, m), purls[j]);
  }

  lemma PrefixSum(r: Release, m: Mapping, purls: seq<string>, j: nat)
    requires j <= |purls|
    ensures Sorting.Sum(NamesBinary(r, m), purls[..j]) <= Sorting.Sum(NamesBinary(r, m), purls)
  {
    assert purls == purls[..j] + purls[j..];
    Sorting.SumAppend(NamesBinary(r, m), purls[..j], purls[j..]);
  }

  /** One purl: a name that is met again is refused. */
  function Meet(r: Release, binaries: map<string, nat>, i: nat, value: string): Option<map<string, nat>> {
    var identity := DebianIdentity(r, value);
    if identity.None? then Some(binaries)
    else
      var m := Known(r.mappings, identity.value.0);
      if m.None? || identity.value.1 != m.value.version then Some(binaries)
      else if identity.value.0 in binaries then None
      else Some(binaries[identity.value.0 := i])
  }

  lemma MeetOne(r: Release, m: Mapping, value: string)
    requires ReleaseOk(r) && m in r.mappings
    ensures Names(r, m, value) == 1 <==>
      var identity := DebianIdentity(r, value);
      identity.Some? && Known(r.mappings, identity.value.0) == Some(m) && identity.value.1 == m.version
  {
    var identity := DebianIdentity(r, value);
    if identity.Some? && identity.value.0 == m.binary {
      var n := Known(r.mappings, m.binary).value;
      SamePackage(r, m, n);
    }
  }

  lemma MeetHeld(r: Release, before: map<string, nat>, i: nat, purls: seq<string>, j: nat, binaries: map<string, nat>, m: Mapping)
    requires ReleaseOk(r) && j < |purls| && m in r.mappings && Meet(r, binaries, i, purls[j]).Some?
    requires Held(binaries, m.binary) == Held(before, m.binary) + Sorting.Sum(NamesBinary(r, m), purls[..j])
    requires m.binary in binaries ==> binaries[m.binary] == if m.binary in before then before[m.binary] else i
    ensures var after := Meet(r, binaries, i, purls[j]).value;
      && Held(after, m.binary) == Held(before, m.binary) + Sorting.Sum(NamesBinary(r, m), purls[..j + 1])
      && (m.binary in after ==> after[m.binary] == if m.binary in before then before[m.binary] else i)
  {
    NameCount(r, m, purls, j);
    MeetOne(r, m, purls[j]);
    var identity := DebianIdentity(r, purls[j]);
    if identity.Some? && identity.value.0 == m.binary {
      SamePackage(r, m, Known(r.mappings, m.binary).value);
    }
  }

  lemma MeetFits(r: Release, before: map<string, nat>, i: nat, purls: seq<string>, j: nat, binaries: map<string, nat>)
    requires ReleaseOk(r) && j < |purls| && Holds(r, before, i, purls[..j], binaries)
    requires Meet(r, binaries, i, purls[j]).Some?
    ensures Holds(r, before, i, purls[..j + 1], Meet(r, binaries, i, purls[j]).value)
  {
    var after := Meet(r, binaries, i, purls[j]).value;
    forall m | m in r.mappings
      ensures Held(after, m.binary) == Held(before, m.binary) + Sorting.Sum(NamesBinary(r, m), purls[..j + 1])
      ensures m.binary in after ==> after[m.binary] == if m.binary in before then before[m.binary] else i
    {
      MeetHeld(r, before, i, purls, j, binaries, m);
    }
    forall name | name in after ensures exists m :: m in r.mappings && m.binary == name {
      if name !in binaries {
        var m := Known(r.mappings, name).value;
        assert m in r.mappings && m.binary == name;
      }
    }
  }

  ghost predicate NoneTwice(r: Release, before: map<string, nat>, purls: seq<string>) {
    forall m :: m in r.mappings ==> Held(before, m.binary) + Sorting.Sum(NamesBinary(r, m), purls) <= 1
  }

  lemma MeetRefused(r: Release, before: map<string, nat>, i: nat, purls: seq<string>, j: nat, binaries: map<string, nat>)
    requires ReleaseOk(r) && j < |purls| && Holds(r, before, i, purls[..j], binaries)
    requires Meet(r, binaries, i, purls[j]).None?
    ensures !NoneTwice(r, before, purls)
  {
    var m := Known(r.mappings, DebianIdentity(r, purls[j]).value.0).value;
    NameCount(r, m, purls, j);
    PrefixSum(r, m, purls, j + 1);
    assert Held(binaries, m.binary) == Held(before, m.binary) + Sorting.Sum(NamesBinary(r, m), purls[..j]);
  }

  lemma HoldsOnce(r: Release, before: map<string, nat>, i: nat, purls: seq<string>, binaries: map<string, nat>)
    requires Holds(r, before, i, purls, binaries)
    ensures NoneTwice(r, before, purls)
  {
    forall m | m in r.mappings ensures Held(before, m.binary) + Sorting.Sum(NamesBinary(r, m), purls) <= 1 {
      assert Held(binaries, m.binary) <= 1;
    }
  }

  /** The purls of one package. */
  method MeetBinaries(r: Release, before: map<string, nat>, i: nat, purls: seq<string>)
    returns (ok: bool, binaries: map<string, nat>)
    requires ReleaseOk(r) && forall name :: name in before ==> exists m :: m in r.mappings && m.binary == name
    ensures ok <==> NoneTwice(r, before, purls)
    ensures ok ==> Holds(r, before, i, purls, binaries)
  {
    binaries := before;
    assert purls[..0] == [];
    for j := 0 to |purls|
      invariant Holds(r, before, i, purls[..j], binaries)
    {
      var met := Meet(r, binaries, i, purls[j]);
      if met.None? {
        MeetRefused(r, before, i, purls, j, binaries);
        return false, binaries;
      }
      MeetFits(r, before, i, purls, j, binaries);
      binaries := met.value;
    }
    assert purls[..|purls|] == purls;
    HoldsOnce(r, before, i, purls, binaries);
    ok := true;
  }

  /** binary_packages: the package of every mapping that has one. */
  ghost predicate BinariesFound(r: Release, packages: seq<Package>, binaries: map<string, nat>) {
    && (forall m :: m in r.mappings ==>
          && Held(binaries, m.binary) == Binaries(r, packages, m)
          && (m.binary in binaries ==>
                binaries[m.binary] < |packages| && Binary(r, m, packages[binaries[m.binary]]) > 0))
    && (forall name :: name in binaries ==> exists m :: m in r.mappings && m.binary == name)
  }

  lemma BinaryCount(r: Release, m: Mapping, packages: seq<Package>, i: nat)
    requires i < |packages|
    ensures Binaries(r, packages[..i + 1], m) == Binaries(r, packages[..i], m) + Binary(r, m, packages[i])
    ensures Binaries(r, packages[..i + 1], m) <= Binaries(r, packages, m)
  {
    assert packages[..i + 1] == packages[..i] + [packages[i]];
    Sorting.SumAppend(BinaryOf(r, m), packages[..i], [packages[i]]);
    Sorting.SumOne(BinaryOf(r, m), packages[i]);
    assert packages == packages[..i + 1] + packages[i + 1..];
    Sorting.SumAppend(BinaryOf(r, m), packages[..i + 1], packages[i + 1..]);
  }

  lemma FoundOn(r: Release, packages: seq<Package>, i: nat, before: map<string, nat>, binaries: map<string, nat>)
    requires i < |packages| && BinariesFound(r, packages[..i], before)
    requires Holds(r, before, i, packages[i].purls, binaries)
    ensures BinariesFound(r, packages[..i + 1], binaries)
  {
    forall m | m in r.mappings
      ensures Held(binaries, m.binary) == Binaries(r, packages[..i + 1], m)
      ensures m.binary in binaries ==> binaries[m.binary] < i + 1 && Binary(r, m, packages[..i + 1][binaries[m.binary]]) > 0
    {
      BinaryCount(r, m, packages, i);
      assert Held(before, m.binary) == Binaries(r, packages[..i], m);
      assert Held(binaries, m.binary) == Held(before, m.binary) + Binary(r, m, packages[i]);
    }
  }

  lemma FoundTwice(r: Release, packages: seq<Package>, i: nat, before: map<string, nat>)
    requires i < |packages| && BinariesFound(r, packages[..i], before)
    requires !NoneTwice(r, before, packages[i].purls)
    ensures exists m :: m in r.mappings && Binaries(r, packages, m) > 1
  {
    var m :| m in r.mappings && Held(before, m.binary) + Sorting.Sum(NamesBinary(r, m), packages[i].purls) > 1;
    BinaryCount(r, m, packages, i);
    assert Held(before, m.binary) == Binaries(r, packages[..i], m);
  }

  method FindBinaries(r: Release, packages: seq<Package>) returns (ok: bool, binaries: map<string, nat>)
    requires ReleaseOk(r)
    ensures ok <==> forall m :: m in r.mappings ==> Binaries(r, packages, m) <= 1
    ensures ok ==> BinariesFound(r, packages, binaries)
  {
    binaries := map[];
    for i := 0 to |packages|
      invariant BinariesFound(r, packages[..i], binaries)
    {
      ghost var before := binaries;
      ok, binaries := MeetBinaries(r, binaries, i, packages[i].purls);
      if !ok {
        FoundTwice(r, packages, i, before);
        return;
      }
      FoundOn(r, packages, i, before, binaries);
    }
    assert packages[..|packages|] == packages;
    ok := true;
    forall m | m in r.mappings ensures Binaries(r, packages, m) <= 1 {
      assert Held(binaries, m.binary) <= 1;
    }
  }

  /** The sets of names decide what the counts say. */
  lemma NoneFound(r: Release, packages: seq<Package>, binaries: map<string, nat>)
    requires BinariesFound(r, packages, binaries) && binaries == map[]
    ensures DebianOk(r, packages) && DebianNeeds(r, packages) == []
  {
    if r.mappings == [] {
      assert DebianNeeds(r, packages) == [];
    } else {
      var m := r.mappings[0];
      assert m in r.mappings && Held(binaries, m.binary) == Binaries(r, packages, m) == 0;
    }
  }

  lemma SomeBinaries(r: Release, packages: seq<Package>, binaries: map<string, nat>)
    requires BinariesFound(r, packages, binaries) && binaries != map[]
    ensures DebianOk(r, packages) <==> forall m :: m in r.mappings ==> m.binary in binaries
    ensures DebianOk(r, packages) ==> HasDebian(r, packages)
  {
    var name :| name in binaries;
    var m :| m in r.mappings && m.binary == name;
    if forall n :: n in r.mappings ==> n.binary in binaries {
      AllHeld(r, packages, binaries);
    } else {
      var n :| n in r.mappings && n.binary !in binaries;
      SomeMissing(r, packages, m, n);
    }
  }

  lemma AllHeld(r: Release, packages: seq<Package>, binaries: map<string, nat>)
    requires BinariesFound(r, packages, binaries) && forall n :: n in r.mappings ==> n.binary in binaries
    ensures DebianOk(r, packages) && HasDebian(r, packages)
  {
    forall n | n in r.mappings ensures Binaries(r, packages, n) == 1 {
      assert Held(binaries, n.binary) == 1;
    }
  }

  lemma SomeMissing(r: Release, packages: seq<Package>, m: Mapping, n: Mapping)
    requires m in r.mappings && n in r.mappings && Binaries(r, packages, m) == 1 && Binaries(r, packages, n) == 0
    ensures !DebianOk(r, packages)
  {}

  // ---------- keeping the dictionaries ----------

  lemma ApplicationEntered(r: Release)
    requires ReleaseOk(r)
    ensures forall key :: Matches(NewApplication(r), key) == if key == ApplicationPurl(r) then 1 else 0
  {
    ApplicationPurlIsKey(r);
    forall key ensures Matches(NewApplication(r), key) == if key == ApplicationPurl(r) then 1 else 0 {
      Sorting.SumOne(RefersTo(key), ApplicationPurl(r));
    }
  }

  lemma TemplateEntered(need: Need)
    requires NeedOk(need)
    ensures forall key :: Matches(need.template, key) == if key == NormalizedPurl(need.purl) then 1 else 0
  {
    forall key ensures Matches(need.template, key) == if key == NormalizedPurl(need.purl) then 1 else 0 {
      TemplateMatches(need, key);
    }
  }

  lemma PackageIndexed(byPurl: Positions, packages: seq<Package>, p: Package, key: string)
    requires PurlsIndexed(byPurl, packages) && forall k :: Matches(p, k) == if k == key then 1 else 0
    ensures PurlsIndexed(Append(byPurl, key, |packages|), packages + [p])
  {
    forall k ensures Get(Append(byPurl, key, |packages|), k) == Places(ByPurl(k), packages + [p]) {
      AppendGet(byPurl, key, |packages|, k);
      PlacesAppend(ByPurl(k), packages, p);
      assert Repeat(|packages|, 1) == [|packages|] && Repeat(|packages|, 0) == [];
    }
  }

  lemma EditIndexed(byPurl: Positions, packages: seq<Package>, i: nat, p: Package)
    requires PurlsIndexed(byPurl, packages) && i < |packages| && p.purls == packages[i].purls
    ensures PurlsIndexed(byPurl, packages[i := p])
  {
    forall key ensures Places(ByPurl(key), packages[i := p]) == Places(ByPurl(key), packages) {
      PlacesUpdate(ByPurl(key), packages, i, p);
    }
  }

  lemma FilesIndexed(byPath: Positions, inventory: seq<Record>, files: seq<File>, known: nat, i: nat, f: File)
    requires known <= |files| && i < |files| && f.fileName == files[i].fileName
    requires PathsIndexed(byPath, inventory, files[..known])
    ensures PathsIndexed(byPath, inventory, files[i := f][..known])
  {
    if i < known {
      assert files[i := f][..known] == files[..known][i := f];
      forall rec | rec in inventory ensures Places(AtPath(rec.path), files[..known][i := f]) == Places(AtPath(rec.path), files[..known]) {
        PlacesUpdate(AtPath(rec.path), files[..known], i, f);
      }
    } else {
      assert files[i := f][..known] == files[..known];
    }
  }

  lemma InfoIndexed(byId: Positions, infos: seq<Info>, info: Info)
    requires InfosIndexed(byId, infos)
    ensures InfosIndexed(Append(byId, info.id, |infos|), infos + [info])
  {
    forall id ensures Get(Append(byId, info.id, |infos|), id) == Places(WithId(id), infos + [info]) {
      PlacesAppend(WithId(id), infos, info);
      AppendGet(byId, info.id, |infos|, id);
      assert Repeat(|infos|, 1) == [|infos|] && Repeat(|infos|, 0) == [];
    }
  }

  lemma ConflictAt(r: Release, packages: seq<Package>, applications: seq<nat>, i: nat)
    requires applications == Places(ByPurl(ApplicationPurl(r)), packages) && i < |packages|
    ensures Conflicts(r, packages[i]) <==> i !in applications && LooksLikeApplication(packages[i])
  {
    PlacesMember(ByPurl(ApplicationPurl(r)), packages, i);
  }

  lemma ConflictSomewhere(r: Release, packages: seq<Package>, applications: seq<nat>)
    requires applications == Places(ByPurl(ApplicationPurl(r)), packages)
    ensures (exists i :: 0 <= i < |packages| && i !in applications && LooksLikeApplication(packages[i]))
      <==> exists p :: p in packages && Conflicts(r, p)
  {
    if i :| 0 <= i < |packages| && i !in applications && LooksLikeApplication(packages[i]) {
      ConflictAt(r, packages, applications, i);
    }
    if p :| p in packages && Conflicts(r, p) {
      var i :| 0 <= i < |packages| && packages[i] == p;
      ConflictAt(r, packages, applications, i);
    }
  }

  // ---------- supplying step by step ----------

  /** One turn of supplying. */
  function MeetNeed(need: Need, application: string, packages: seq<Package>, rels: seq<Rel>)
    : Option<(seq<Package>, seq<Rel>)>
  {
    var found := Ensure(packages, need);
    if found.None? then None
    else Some((found.value.0, AddRels(rels, Edges(need, application, found.value.1.id))))
  }

  lemma NeedMeets(need: Need, application: string, packages: seq<Package>, rels: seq<Rel>,
                after: seq<Package>, p: Package, more: seq<Rel>)
    requires Ensure(packages, need) == Some((after, p)) && more == AddRels(rels, Edges(need, application, p.id))
    ensures MeetNeed(need, application, packages, rels) == Some((after, more))
  {}

  lemma SupplyFrom(needs: seq<Need>, k: nat, application: string, packages: seq<Package>, rels: seq<Rel>)
    requires k < |needs|
    ensures Supply(needs[k..], application, packages, rels)
      == var next := MeetNeed(needs[k], application, packages, rels);
         if next.None? then None else Supply(needs[k + 1..], application, next.value.0, next.value.1)
  {
    assert needs[k..][0] == needs[k] && needs[k..][1..] == needs[k + 1..];
  }

  /** Needs after needs. */
  lemma {:induction false} SupplyOn(
      first: seq<Need>, rest: seq<Need>, application: string, packages: seq<Package>, rels: seq<Rel>)
    ensures Supply(first + rest, application, packages, rels)
      == var supplied := Supply(first, application, packages, rels);
         if supplied.None? then None else Supply(rest, application, supplied.value.0, supplied.value.1)
    decreases |first|
  {
    if first == [] {
      assert first + rest == rest;
    } else {
      assert (first + rest)[0] == first[0] && (first + rest)[1..] == first[1..] + rest;
      var found := Ensure(packages, first[0]);
      if found.Some? {
        SupplyOn(first[1..], rest, application, found.value.0,
                 AddRels(rels, Edges(first[0], application, found.value.1.id)));
      }
    }
  }

  lemma AddOne(rels: seq<Rel>, e: Rel)
    ensures AddRels(rels, [e]) == AddRel(rels, e)
  {
    assert [e][1..] == [];
  }

  lemma EdgesAdded(rels: seq<Rel>, need: Need, application: string, id: string)
    ensures AddRels(rels, Edges(need, application, id))
      == var first := AddRel(rels, Rel(application, "DEPENDS_ON", id));
         if need.binary.Some? then AddRel(first, Rel(need.binary.value, "GENERATED_FROM", id)) else first
  {
    var edges, edge := Edges(need, application, id), Rel(application, "DEPENDS_ON", id);
    if need.binary.Some? {
      var generated := Rel(need.binary.value, "GENERATED_FROM", id);
      assert edges[1..] == [generated];
      AddOne(AddRel(rels, edge), generated);
    } else {
      assert edges == [edge];
      AddOne(rels, edge);
    }
  }

  lemma SourceEdges(rels: seq<Rel>, need: Need, application: string, id: string, half: seq<Rel>, after: seq<Rel>)
    requires need.binary.Some? && half == AddRel(rels, Rel(application, "DEPENDS_ON", id))
    requires after == AddRel(half, Rel(need.binary.value, "GENERATED_FROM", id))
    ensures after == AddRels(rels, Edges(need, application, id)) && forall e :: e in half ==> e in after
  {
    EdgesAdded(rels, need, application, id);
  }

  predicate NoBinaries(needs: seq<Need>) {
    forall k :: 0 <= k < |needs| ==> NeedOk(needs[k]) && needs[k].binary.None?
  }

  lemma ComponentsOk(r: Release)
    ensures NoBinaries(ComponentNeeds(r))
  {}

  // ---------- the Debian sources met so far ----------

  /** source_packages: each source stands in the document once, as a dependency. */
  ghost predicate SourcesMet(r: Release, application: string, packages: seq<Package>, rels: seq<Rel>,
                             sources: map<(string, string), nat>)
  {
    forall m :: m in r.mappings && (m.source, m.sourceVersion) in sources ==>
      SourceMetAt(r, application, packages, rels, m, sources[(m.source, m.sourceVersion)])
  }

  predicate SourceMetAt(r: Release, application: string, packages: seq<Package>, rels: seq<Rel>, m: Mapping, i: nat) {
    && i < |packages| && Found(packages, NormalizedPurl(SourcePurl(r, m)), packages[i])
    && Rel(application, "DEPENDS_ON", packages[i].id) in rels
  }

  lemma BinaryAt(r: Release, packages: seq<Package>, m: Mapping, i: nat)
    requires Binaries(r, packages, m) == 1 && i < |packages| && Binary(r, m, packages[i]) > 0
    ensures DebianNeed(r, packages, m).binary == Some(packages[i].id)
  {
    Sorting.OnlyOne(BinaryOf(r, m), packages, i);
  }

  lemma BinaryHeld(r: Release, packages: seq<Package>, m: Mapping, binaries: map<string, nat>)
    requires m in r.mappings && BinariesFound(r, packages, binaries) && Binaries(r, packages, m) > 0
    ensures m.binary in binaries && binaries[m.binary] < |packages|
    ensures DebianNeed(r, packages, m).binary == Some(packages[binaries[m.binary]].id)
  {
    assert Held(binaries, m.binary) == Binaries(r, packages, m);
    BinaryAt(r, packages, m, binaries[m.binary]);
  }

  lemma SourceEntered(
      r: Release, application: string, was: seq<Package>, edges: seq<Rel>, need: Need, packages: seq<Package>, rels: seq<Rel>,
      sources: map<(string, string), nat>, m: Mapping, i: nat)
    requires SourcesMet(r, application, was, edges, sources) && NeedOk(need) && need.purl == SourcePurl(r, m)
    requires i < |packages| && Ensure(was, need) == Some((packages, packages[i]))
    requires rels == AddRel(edges, Rel(application, "DEPENDS_ON", packages[i].id))
    ensures SourcesMet(r, application, packages, rels, sources[(m.source, m.sourceVersion) := i])
  {
    EnsureFinds(was, need, "");
    forall n | n in r.mappings && (n.source, n.sourceVersion) in sources[(m.source, m.sourceVersion) := i]
      ensures SourceMetAt(r, application, packages, rels, n,
                          sources[(m.source, m.sourceVersion) := i][(n.source, n.sourceVersion)])
    {
      if (n.source, n.sourceVersion) == (m.source, m.sourceVersion) {
        assert SourcePurl(r, n) == SourcePurl(r, m);
      } else {
        EnsureFinds(was, need, NormalizedPurl(SourcePurl(r, n)));
      }
    }
  }

  lemma SourceAgain(r: Release, application: string, packages: seq<Package>, rels: seq<Rel>,
                    sources: map<(string, string), nat>, m: Mapping, need: Need)
    requires SourcesMet(r, application, packages, rels, sources) && m in r.mappings
    requires (m.source, m.sourceVersion) in sources && need.purl == SourcePurl(r, m)
    ensures var i := sources[(m.source, m.sourceVersion)];
      && i < |packages| && Ensure(packages, need) == Some((packages, packages[i]))
      && Rel(application, "DEPENDS_ON", packages[i].id) in rels
  {
    var i := sources[(m.source, m.sourceVersion)];
    assert SourceMetAt(r, application, packages, rels, m, i);
    FoundAt(packages, NormalizedPurl(need.purl), packages[i]);
  }

  lemma SourcesStayMet(r: Release, application: string, packages: seq<Package>, rels: seq<Rel>, more: seq<Rel>,
                       sources: map<(string, string), nat>)
    requires SourcesMet(r, application, packages, rels, sources) && forall e :: e in rels ==> e in more
    ensures SourcesMet(r, application, packages, more, sources)
  {
    forall m | m in r.mappings && (m.source, m.sourceVersion) in sources
      ensures SourceMetAt(r, application, packages, more, m, sources[(m.source, m.sourceVersion)])
    {
      assert SourceMetAt(r, application, packages, rels, m, sources[(m.source, m.sourceVersion)]);
    }
  }

  // ---------- source files ----------

  lemma SourcesFrom(r: Release, application: string, known: nat, records: seq<Record>, k: nat, s: Sources)
    requires known <= |s.files| && k < |records|
    ensures FileSources(r, application, known, records[k..], s)
      == if Place(r, s.files, known, records[k]).Some? && Define(r, s.infos, records[k]).Some?
         then FileSources(r, application, known, records[k + 1..], Round(r, application, known, records[k], s)) else None
  {
    assert records[k..][0] == records[k] && records[k..][1..] == records[k + 1..];
  }

  // ---------- runtime files and dependencies ----------

  /** runtime_files: the last file at each runtime path. */
  ghost predicate RuntimeFound(files: seq<File>, runtime: map<string, nat>) {
    forall path :: path in RUNTIME_PATHS ==>
      LastAt(files, path) == if path in runtime && runtime[path] < |files| then Some(files[runtime[path]]) else None
  }

  method IndexRuntime(files: seq<File>) returns (runtime: map<string, nat>)
    ensures RuntimeFound(files, runtime) && forall path :: path in runtime ==> runtime[path] < |files|
  {
    runtime := map[];
    for i := 0 to |files|
      invariant RuntimeFound(files[..i], runtime) && forall path :: path in runtime ==> runtime[path] < i
    {
      var path := "/" + TrimSlashes(files[i].fileName);
      assert files[..i + 1][..i] == files[..i];
      if path in RUNTIME_PATHS {
        runtime := runtime[path := i];
      }
    }
    assert files[..|files|] == files;
  }

  lemma RuntimeStep(files: seq<File>, application: string, paths: seq<string>, k: nat, rels: seq<Rel>)
    requires k < |paths|
    ensures AddRels(rels, RuntimeEdges(files, application, paths[k..]))
      == var last := LastAt(files, paths[k]);
         AddRels(if last.Some? then AddRel(rels, Rel(application, "CONTAINS", last.value.id)) else rels,
                 RuntimeEdges(files, application, paths[k + 1..]))
  {
    assert paths[k..][0] == paths[k] && paths[k..][1..] == paths[k + 1..];
    var rest := RuntimeEdges(files, application, paths[k + 1..]);
    if LastAt(files, paths[k]).Some? {
      AddFirst(rels, Rel(application, "CONTAINS", LastAt(files, paths[k]).value.id), rest);
    } else {
      assert [] + rest == rest;
    }
  }

  lemma AddFirst(rels: seq<Rel>, e: Rel, rest: seq<Rel>)
    ensures AddRels(rels, [e] + rest) == AddRels(AddRel(rels, e), rest)
  {
    assert ([e] + rest)[0] == e && ([e] + rest)[1..] == rest;
  }

  lemma DependencyStep(packages: seq<Package>, application: Package, k: nat, rels: seq<Rel>)
    requires k < |packages|
    ensures AddRels(rels, DependencyEdges(packages[k..], application))
      == AddRels(if packages[k] != application && packages[k].purls != []
                 then AddRel(rels, Rel(application.id, "DEPENDS_ON", packages[k].id)) else rels,
                 DependencyEdges(packages[k + 1..], application))
  {
    assert packages[k..][0] == packages[k] && packages[k..][1..] == packages[k + 1..];
    var rest := DependencyEdges(packages[k + 1..], application);
    if packages[k] != application && packages[k].purls != [] {
      AddFirst(rels, Rel(application.id, "DEPENDS_ON", packages[k].id), rest);
    } else {
      assert [] + rest == rest;
    }
  }

  /** The edges of the packages from place k on. */
  function LinkedFrom(packages: seq<Package>, application: Package, k: nat, rels: seq<Rel>): seq<Rel>
    requires k <= |packages|
    decreases |packages| - k
  {
    if k == |packages| then rels
    else
      var next := if packages[k] != application && packages[k].purls != []
        then AddRel(rels, Rel(application.id, "DEPENDS_ON", packages[k].id)) else rels;
      LinkedFrom(packages, application, k + 1, next)
  }

  lemma {:induction false} LinkedIs(packages: seq<Package>, application: Package, k: nat, rels: seq<Rel>)
    requires k <= |packages|
    ensures LinkedFrom(packages, application, k, rels) == AddRels(rels, DependencyEdges(packages[k..], application))
    decreases |packages| - k
  {
    if k < |packages| {
      DependencyStep(packages, application, k, rels);
      LinkedIs(packages, application, k + 1,
               if packages[k] != application && packages[k].purls != []
               then AddRel(rels, Rel(application.id, "DEPENDS_ON", packages[k].id)) else rels);
    }
  }

  /** One position holds the application. */
  lemma ApplicationOnce(r: Release, packages: seq<Package>, i: nat, k: nat)
    requires i < |packages| && k < |packages| && Found(packages, ApplicationPurl(r), packages[i])
    ensures packages[k] == packages[i] <==> k == i
  {
    Sorting.OnlyOne(ByPurl(ApplicationPurl(r)), packages, i);
    if packages[k] == packages[i] {
      Sorting.OnlyOne(ByPurl(ApplicationPurl(r)), packages, k);
    }
  }

  // ---------- the document ----------

  class SpdxDocument {
    const id: string
    const name: string
    var packages: seq<Package>
    var files: seq<File>
    var rels: seq<Rel>
    var infos: seq<Info>
    var byPurl: Positions

    constructor (d: Document)
      ensures Value() == d
    {
      id, name, packages, files, rels, infos := d.id, d.name, d.packages, d.files, d.rels, d.infos;
      byPurl := map[];
    }

    function Value(): Document
      reads this
    {
      Document(id, name, packages, files, rels, infos)
    }

    /** add_spdx_relationship */
    method AddSpdxRelationship(left: string, kind: string, right: string)
      modifies this`rels
      ensures rels == AddRel(old(rels), Rel(left, kind, right))
    {
      var relationship := Rel(left, kind, right);
      if relationship !in rels {
        rels := rels + [relationship];
      }
    }

    /** Whether a package beside `applications` carries the name or a purl of the application. */
    method HasConflict(r: Release, applications: seq<nat>) returns (conflict: bool)
      requires applications == Places(ByPurl(ApplicationPurl(r)), packages)
      ensures conflict <==> exists p :: p in packages && Conflicts(r, p)
    {
      conflict := exists i :: 0 <= i < |packages| && i !in applications && LooksLikeApplication(packages[i]);
      ConflictSomewhere(r, packages, applications);
    }

    /** The application record: found or appended, then its fields are set. */
    method EnsureApplication(r: Release) returns (ok: bool, application: nat)
      requires ReleaseOk(r) && PurlsIndexed(byPurl, packages)
      modifies this`packages, this`rels, this`byPurl
      ensures PurlsIndexed(byPurl, packages)
      ensures ok <==> Identify(r, old(packages)).Some?
      ensures ok ==>
        && application < |packages| && Identify(r, old(packages)) == Some((packages, packages[application]))
        && rels == AddRel(old(rels), Rel(id, "DESCRIBES", packages[application].id))
    {
      var key := ApplicationPurl(r);
      var applications := Get(byPurl, key);
      PlacesCount(ByPurl(key), packages);
      var conflict := HasConflict(r, applications);
      if conflict || |applications| > 1 {
        return false, 0;
      }
      if applications != [] {
        application := applications[0];
      } else {
        application := |packages|;
        ApplicationEntered(r);
        PackageIndexed(byPurl, packages, NewApplication(r), key);
        packages := packages + [NewApplication(r)];
        byPurl := Append(byPurl, key, application);
      }
      EditIndexed(byPurl, packages, application, Marked(r, packages[application]));
      assert applications == [] ==>
        packages[application := Marked(r, packages[application])] == old(packages) + [Marked(r, NewApplication(r))];
      packages := packages[application := Marked(r, packages[application])];
      AddSpdxRelationship(id, "DESCRIBES", packages[application].id);
      ok := true;
    }

    /** by_purl is looked up; the package is found, or appended and entered. */
    method EnsurePackage(need: Need) returns (ok: bool, i: nat)
      requires NeedOk(need) && PurlsIndexed(byPurl, packages)
      modifies this`packages, this`byPurl
      ensures PurlsIndexed(byPurl, packages)
      ensures ok <==> Ensure(old(packages), need).Some?
      ensures ok ==> i < |packages| && Ensure(old(packages), need) == Some((packages, packages[i]))
    {
      var key := NormalizedPurl(need.purl);
      var matches := Get(byPurl, key);
      PlacesCount(ByPurl(key), packages);
      if |matches| > 1 {
        return false, 0;
      }
      if matches != [] {
        return true, matches[0];
      }
      i := |packages|;
      TemplateEntered(need);
      PackageIndexed(byPurl, packages, need.template, key);
      packages := packages + [need.template];
      byPurl := Append(byPurl, key, i);
      ok := true;
    }

    /** One native component. */
    method EnsureComponent(need: Need, application: string) returns (ok: bool)
      requires NeedOk(need) && need.binary.None? && PurlsIndexed(byPurl, packages)
      modifies this`packages, this`rels, this`byPurl
      ensures PurlsIndexed(byPurl, packages)
      ensures MeetNeed(need, application, old(packages), old(rels)) == if ok then Some((packages, rels)) else None
    {
      var i;
      ok, i := EnsurePackage(need);
      if ok {
        EdgesAdded(rels, need, application, packages[i].id);
        AddSpdxRelationship(application, "DEPENDS_ON", packages[i].id);
      }
    }

    /** The loop over the native components. */
    method EnsureComponents(r: Release, application: string) returns (ok: bool)
      requires PurlsIndexed(byPurl, packages)
      modifies this`packages, this`rels, this`byPurl
      ensures PurlsIndexed(byPurl, packages)
      ensures Supply(ComponentNeeds(r), application, old(packages), old(rels))
        == if ok then Some((packages, rels)) else None
    {
      var needs := ComponentNeeds(r);
      ComponentsOk(r);
      ok := EnsureEach(needs, application);
    }

    method EnsureEach(needs: seq<Need>, application: string) returns (ok: bool)
      requires PurlsIndexed(byPurl, packages) && NoBinaries(needs)
      modifies this`packages, this`rels, this`byPurl
      ensures PurlsIndexed(byPurl, packages)
      ensures Supply(needs, application, old(packages), old(rels)) == if ok then Some((packages, rels)) else None
    {
      ghost var goal := Supply(needs, application, packages, rels);
      var k := 0;
      while k < |needs|
        invariant 0 <= k <= |needs| && PurlsIndexed(byPurl, packages)
        invariant goal == Supply(needs[k..], application, packages, rels)
      {
        SupplyFrom(needs, k, application, packages, rels);
        ok := EnsureComponent(needs[k], application);
        if !ok {
          return;
        }
        k := k + 1;
      }
      return true;
    }

    /** The source of one Debian mapping; one that was met before is not looked up again. */
    method LookUpSource(r: Release, application: string, m: Mapping, need: Need, sources: map<(string, string), nat>)
      returns (ok: bool, i: nat, after: map<(string, string), nat>)
      requires PurlsIndexed(byPurl, packages) && SourcesMet(r, application, packages, rels, sources)
      requires m in r.mappings && NeedOk(need) && need.purl == SourcePurl(r, m)
      modifies this`packages, this`rels, this`byPurl
      ensures PurlsIndexed(byPurl, packages)
      ensures ok <==> Ensure(old(packages), need).Some?
      ensures ok ==>
        && i < |packages| && Ensure(old(packages), need) == Some((packages, packages[i]))
        && rels == AddRel(old(rels), Rel(application, "DEPENDS_ON", packages[i].id))
        && SourcesMet(r, application, packages, rels, after)
    {
      after := sources;
      var key := (m.source, m.sourceVersion);
      if key in sources {
        SourceAgain(r, application, packages, rels, sources, m, need);
        return true, sources[key], after;
      }
      ok, i := EnsurePackage(need);
      if ok {
        AddSpdxRelationship(application, "DEPENDS_ON", packages[i].id);
        SourceEntered(r, application, old(packages), old(rels), need, packages, rels, sources, m, i);
        after := sources[key := i];
      }
    }

    /** One Debian mapping. */
    method EnsureSource(r: Release, application: string, m: Mapping, need: Need, binary: string,
                        sources: map<(string, string), nat>)
      returns (ok: bool, after: map<(string, string), nat>)
      requires PurlsIndexed(byPurl, packages) && SourcesMet(r, application, packages, rels, sources)
      requires m in r.mappings && NeedOk(need) && need.purl == SourcePurl(r, m) && need.binary == Some(binary)
      modifies this`packages, this`rels, this`byPurl
      ensures PurlsIndexed(byPurl, packages)
      ensures MeetNeed(need, application, old(packages), old(rels)) == if ok then Some((packages, rels)) else None
      ensures ok ==> SourcesMet(r, application, packages, rels, after)
    {
      ghost var was, edges := packages, rels;
      var i;
      ok, i, after := LookUpSource(r, application, m, need, sources);
      if ok {
        ghost var half := rels;
        AddSpdxRelationship(binary, "GENERATED_FROM", packages[i].id);
        SourceEdges(edges, need, application, packages[i].id, half, rels);
        NeedMeets(need, application, was, edges, packages, packages[i], rels);
        SourcesStayMet(r, application, packages, half, rels, after);
      }
    }

    /** The loop over the Debian mappings. */
    method EnsureSources(r: Release, application: string, binaries: map<string, nat>) returns (ok: bool)
      requires PurlsIndexed(byPurl, packages) && HasDebian(r, packages) && BinariesFound(r, packages, binaries)
      modifies this`packages, this`rels, this`byPurl
      ensures PurlsIndexed(byPurl, packages)
      ensures Supply(DebianNeeds(r, old(packages)), application, old(packages), old(rels))
        == if ok then Some((packages, rels)) else None
    {
      var known := packages;
      var needs := DebianNeeds(r, known);
      ghost var goal := Supply(needs, application, packages, rels);
      var sources: map<(string, string), nat> := map[];
      var k := 0;
      while k < |needs|
        invariant 0 <= k <= |needs| && PurlsIndexed(byPurl, packages)
        invariant SourcesMet(r, application, packages, rels, sources)
        invariant goal == Supply(needs[k..], application, packages, rels)
      {
        var m := r.mappings[k];
        BinaryHeld(r, known, m, binaries);
        SupplyFrom(needs, k, application, packages, rels);
        ok, sources := EnsureSource(r, application, m, needs[k], known[binaries[m.binary]].id, sources);
        if !ok {
          return;
        }
        k := k + 1;
      }
      return true;
    }

    /** Everything the release must mention. */
    method EnsureNeeds(r: Release, application: string) returns (ok: bool)
      requires ReleaseOk(r) && PurlsIndexed(byPurl, packages)
      modifies this`packages, this`rels, this`byPurl
      ensures ok <==> DebianOk(r, old(packages)) && Supply(Needs(r, old(packages)), application, old(packages), old(rels)).Some?
      ensures ok ==> Supply(Needs(r, old(packages)), application, old(packages), old(rels)) == Some((packages, rels))
    {
      var binaries;
      ok, binaries := FindBinaries(r, packages);
      if !ok {
        return;
      }
      SupplyOn(DebianNeeds(r, packages), ComponentNeeds(r), application, packages, rels);
      if binaries == map[] {
        NoneFound(r, packages, binaries);
      } else {
        SomeBinaries(r, packages, binaries);
        if exists m :: m in r.mappings && m.binary !in binaries {
          return false;
        }
        ok := EnsureSources(r, application, binaries);
        if !ok {
          return;
        }
      }
      ok := EnsureComponents(r, application);
    }

    /** The first half of augment_spdx. */
    method AugmentPackageList(r: Release) returns (ok: bool, application: nat)
      requires ReleaseOk(r)
      modifies this`packages, this`rels, this`byPurl
      ensures ok <==> AugmentPackages(r, old(Value())).Some?
      ensures ok ==>
        application < |packages| && AugmentPackages(r, old(Value())) == Some((packages, packages[application], rels))
    {
      byPurl := IndexPurls(packages);
      ok, application := EnsureApplication(r);
      if !ok {
        return;
      }
      ghost var a, described, p := packages, rels, packages[application];
      ok := EnsureNeeds(r, packages[application].id);
      if ok {
        NeedsOk(r, a);
        SupplyTail(Needs(r, a), p.id, a, described, packages, rels);
      }
    }

    // ---------- source files ----------

    /** by_path is looked up; the file is found and checked, or appended, and then filled. */
    method PlaceFile(r: Release, byPath: Positions, known: nat, rec: Record) returns (ok: bool, i: nat)
      requires known <= |files| && rec in r.inventory && PathsIndexed(byPath, r.inventory, files[..known])
      modifies this`files
      ensures known <= |files| && PathsIndexed(byPath, r.inventory, files[..known])
      ensures ok <==> Place(r, old(files), known, rec).Some?
      ensures ok ==> i < |files| && Place(r, old(files), known, rec) == Some((files, files[i]))
    {
      var matches := Get(byPath, rec.path);
      PlacesCount(AtPath(rec.path), files[..known]);
      if |matches| > 1 {
        return false, 0;
      }
      if matches != [] {
        i := matches[0];
        if !Agrees(files[i], rec) {
          return false, 0;
        }
      } else {
        i := |files|;
        assert (files + [NewFile(r, rec)])[..known] == files[..known];
        files := files + [NewFile(r, rec)];
      }
      FilesIndexed(byPath, r.inventory, files, known, i, Filled(files[i], rec));
      assert matches == [] ==> files[i := Filled(files[i], rec)] == old(files) + [Filled(NewFile(r, rec), rec)];
      files := files[i := Filled(files[i], rec)];
      ok := true;
    }

    /** license_infos_by_id is looked up; the text is found and compared, or appended. */
    method DefineInfo(r: Release, byId: Positions, rec: Record) returns (ok: bool, after: Positions)
      requires InfosIndexed(byId, infos)
      modifies this`infos
      ensures InfosIndexed(after, infos)
      ensures Define(r, old(infos), rec) == if ok then Some(infos) else None
    {
      after := byId;
      if rec.text.None? {
        return true, after;
      }
      var existing := Get(byId, rec.concluded);
      PlacesCount(WithId(rec.concluded), infos);
      if |existing| > 1 || (existing != [] && infos[existing[0]] != ExpectedInfo(r, rec)) {
        return false, after;
      }
      if existing == [] {
        InfoIndexed(byId, infos, ExpectedInfo(r, rec));
        after := Append(byId, rec.concluded, |infos|);
        infos := infos + [ExpectedInfo(r, rec)];
      }
      ok := true;
    }

    /** One record of the inventory. */
    method EnsureFile(r: Release, application: string, byPath: Positions, byId: Positions, known: nat, rec: Record)
      returns (ok: bool, after: Positions)
      requires known <= |files| && rec in r.inventory && PathsIndexed(byPath, r.inventory, files[..known])
      requires InfosIndexed(byId, infos)
      modifies this`files, this`rels, this`infos
      ensures known <= |files| && PathsIndexed(byPath, r.inventory, files[..known]) && InfosIndexed(after, infos)
      ensures ok <==> Place(r, old(files), known, rec).Some? && Define(r, old(infos), rec).Some?
      ensures ok ==> Sources(files, rels, infos) == Round(r, application, known, rec, old(Sources(files, rels, infos)))
    {
      after := byId;
      var i;
      ok, i := PlaceFile(r, byPath, known, rec);
      if ok {
        ok, after := DefineInfo(r, byId, rec);
        if ok {
          AddSpdxRelationship(application, "CONTAINS", files[i].id);
        }
      }
    }

    /** The loop over the license inventory. */
    method EnsureFiles(r: Release, application: string) returns (ok: bool)
      modifies this`files, this`rels, this`infos
      ensures FileSources(r, application, |old(files)|, r.inventory, old(Sources(files, rels, infos)))
        == if ok then Some(Sources(files, rels, infos)) else None
    {
      var byPath := IndexPaths(r.inventory, files);
      var byId := IndexInfos(infos);
      var known, k := |files|, 0;
      assert files[..known] == files;
      ghost var goal := FileSources(r, application, known, r.inventory, Sources(files, rels, infos));
      while k < |r.inventory|
        invariant 0 <= k <= |r.inventory| && known == |old(files)| <= |files|
        invariant PathsIndexed(byPath, r.inventory, files[..known]) && InfosIndexed(byId, infos)
        invariant goal == FileSources(r, application, known, r.inventory[k..], Sources(files, rels, infos))
      {
        var rec := r.inventory[k];
        SourcesFrom(r, application, known, r.inventory, k, Sources(files, rels, infos));
        ok, byId := EnsureFile(r, application, byPath, byId, known, rec);
        if !ok {
          return;
        }
        k := k + 1;
      }
      return true;
    }

    method AugmentFileList(r: Release, application: string) returns (ok: bool)
      modifies this`files, this`rels, this`infos
      ensures AugmentFiles(r, old(Value()), packages, application, old(rels))
        == if ok then Some(Sources(files, rels, infos)) else None
    {
      ok := true;
      if IsSource(name, packages) {
        ok := EnsureFiles(r, application);
      }
    }

    // ---------- the last loops and the sort ----------

    method LinkRuntimeFiles(application: string)
      modifies this`rels
      ensures rels == AddRels(old(rels), RuntimeEdges(files, application, RUNTIME_PATHS))
    {
      var runtime := IndexRuntime(files);
      for k := 0 to |RUNTIME_PATHS|
        invariant AddRels(old(rels), RuntimeEdges(files, application, RUNTIME_PATHS))
          == AddRels(rels, RuntimeEdges(files, application, RUNTIME_PATHS[k..]))
      {
        var path := RUNTIME_PATHS[k];
        RuntimeStep(files, application, RUNTIME_PATHS, k, rels);
        assert path in RUNTIME_PATHS;
        if path in runtime {
          AddSpdxRelationship(application, "CONTAINS", files[runtime[path]].id);
        }
      }
    }

    /** Every package but the application itself. */
    method LinkDependencies(r: Release, application: nat)
      requires application < |packages| && Found(packages, ApplicationPurl(r), packages[application])
      modifies this`rels
      ensures rels == AddRels(old(rels), DependencyEdges(packages, packages[application]))
    {
      ghost var goal := LinkedFrom(packages, packages[application], 0, rels);
      LinkedIs(packages, packages[application], 0, rels);
      assert packages[0..] == packages;
      for k := 0 to |packages|
        invariant goal == LinkedFrom(packages, packages[application], k, rels)
      {
        LinkDependency(r, application, k);
      }
    }

    /** One package; the application is told apart by its place. */
    method LinkDependency(r: Release, application: nat, k: nat)
      requires application < |packages| && Found(packages, ApplicationPurl(r), packages[application]) && k < |packages|
      modifies this`rels
      ensures LinkedFrom(packages, packages[application], k, old(rels))
        == LinkedFrom(packages, packages[application], k + 1, rels)
    {
      ApplicationOnce(r, packages, application, k);
      if k != application && packages[k].purls != [] {
        AddSpdxRelationship(packages[application].id, "DEPENDS_ON", packages[k].id);
      }
    }

    method SortLists()
      modifies this`packages, this`files, this`rels, this`infos
      ensures Value() == Ordered(old(Value()))
    {
      packages := Sorting.Sort(packages, ByName);
      files := Sorting.Sort(files, ByFileName);
      rels := Sorting.Sort(rels, ByEnds);
      infos := Sorting.Sort(infos, ByLicense);
    }

    method Finish(r: Release, application: nat)
      requires application < |packages| && Found(packages, ApplicationPurl(r), packages[application])
      modifies this
      ensures Value()
        == Ordered(Unordered(old(Value()), old(packages), old(packages[application]), old(Sources(files, rels, infos))))
    {
      LinkRuntimeFiles(packages[application].id);
      LinkDependencies(r, application);
      SortLists();
    }

    /** augment_spdx; a run that exits leaves the file as it was, so only a run that ends counts. */
    method AugmentSpdx(r: Release) returns (ok: bool)
      requires ReleaseOk(r)
      modifies this
      ensures Augment(r, old(Value())) == if ok then Some(Value()) else None
    {
      ghost var d := Value();
      var application;
      ok, application := AugmentPackageList(r);
      if !ok {
        return;
      }
      ApplicationFound(r, d);
      ghost var list, edges, p := packages, rels, packages[application];
      ghost var mid := Value();
      ok := AugmentFileList(r, packages[application].id);
      SameFiles(r, d, mid, list, p.id, edges);
      if ok {
        ghost var s := Sources(files, rels, infos);
        ghost var late := Value();
        Finish(r, application);
        assert Unordered(late, list, p, s) == Unordered(d, list, p, s);
      }
    }

    /** Running it twice is running it once, exactly on stable documents. */
    method AugmentTwice(r: Release) returns (ok: bool, again: bool, ghost once: Document)
      requires ReleaseOk(r)
      modifies this
      ensures ok <==> Augment(r, old(Value())).Some?
      ensures ok ==> Augment(r, old(Value())) == Some(once) && (again && Value() == once <==> Stable(r, old(Value())))
    {
      ghost var d := Value();
      ok := AugmentSpdx(r);
      once := Value();
      again := false;
      if ok {
        SecondRunExact(r, d);
        again := AugmentSpdx(r);
      }
    }
  }

  /** The file half looks only at the name, the files and the license texts. */
  lemma SameFiles(r: Release, d: Document, mid: Document, packages: seq<Package>, application: string, rels: seq<Rel>)
    requires mid.name == d.name && mid.files == d.files && mid.infos == d.infos
    ensures AugmentFiles(r, mid, packages, application, rels) == AugmentFiles(r, d, packages, application, rels)
  {}
}
