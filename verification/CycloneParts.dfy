/** The components of a CycloneDX document: what a run does to each of them stays done. */
module CycloneParts {
  import opened Common
  import opened Text
  import opened SbomRelease
  import opened CycloneDx
  import Sorting

  // ---------- properties ----------

  predicate HasProperty(p: Part, name: string, value: string) {
    Sorting.Sum(Named(name), p.properties) == 1 && Property(name, value) in p.properties
  }

  predicate Tidy(p: Part) { Sorting.SortedBy(p.properties, ByNameValue) }

  lemma PropertyOrder()
    ensures Sorting.TotalPreorder(ByNameValue)
  {
    LeqIsOrder();
  }

  /** With one property of a name, it is the one. */
  lemma PropertyAt(properties: seq<Property>, name: string, value: string)
    requires Sorting.Sum(Named(name), properties) == 1
    ensures Property(name, value) in properties <==>
      properties[Sorting.Index(Named(name), properties)].value == value
  {
    var k := Sorting.Index(Named(name), properties);
    if Property(name, value) in properties {
      var i :| 0 <= i < |properties| && properties[i] == Property(name, value);
      Sorting.OnlyOne(Named(name), properties, i);
    } else {
      assert properties[k].name == name && properties[k] in properties;
      assert properties[k] == Property(name, properties[k].value);
    }
  }

  lemma AddPropertyStays(p: Part, name: string, value: string)
    requires HasProperty(p, name, value) && Tidy(p)
    ensures AddProperty(p, name, value) == Some(p)
  {
    PropertyAt(p.properties, name, value);
    Sorting.SortedStays(p.properties, ByNameValue);
  }

  /** p and q differ in their properties alone, and those of other names are the same. */
  ghost predicate OthersKept(p: Part, q: Part, name: string) {
    && q == p.(properties := q.properties)
    && (forall other :: other != name ==>
          Sorting.Sum(Named(other), q.properties) == Sorting.Sum(Named(other), p.properties))
    && (forall x :: x in p.properties ==> x in q.properties)
  }

  lemma AddPropertyDone(p: Part, name: string, value: string, q: Part)
    requires AddProperty(p, name, value) == Some(q)
    ensures HasProperty(q, name, value) && Tidy(q) && OthersKept(p, q, name)
    ensures Sorting.Sum(Named(name), p.properties) == 0 || HasProperty(p, name, value)
  {
    var matches := Sorting.Sum(Named(name), p.properties);
    var added := Property(name, value);
    var list := if matches == 0 then p.properties + [added] else p.properties;
    if matches == 1 {
      PropertyAt(p.properties, name, value);
    }
    PropertyOrder();
    Sorting.SortSorts(list, ByNameValue);
    Sorting.SameElements(list, ByNameValue);
    forall other ensures Sorting.Sum(Named(other), q.properties)
      == Sorting.Sum(Named(other), p.properties) + if other == name && matches == 0 then 1 else 0
    {
      Sorting.SumSorted(Named(other), list, ByNameValue);
      Sorting.SumAppend(Named(other), p.properties, [added]);
      Sorting.SumOne(Named(other), added);
    }
  }

  // ---------- what later steps keep ----------

  predicate Alike(p: Part, q: Part) {
    q == p.(hashes := q.hashes, licenses := q.licenses, properties := q.properties)
  }

  /** q is p after some more steps. */
  ghost predicate Later(p: Part, q: Part) {
    && Alike(p, q)
    && (Tidy(p) ==> Tidy(q))
    && (p.licenses == [APACHE] ==> q.licenses == [APACHE])
    && (forall value :: HasProperty(p, SOURCE_PURL, value) ==> HasProperty(q, SOURCE_PURL, value))
  }

  ghost predicate Extends(parts: seq<Part>, after: seq<Part>) {
    |parts| <= |after| && forall i :: 0 <= i < |parts| ==> Later(parts[i], after[i])
  }

  lemma ExtendsTwice(a: seq<Part>, b: seq<Part>, c: seq<Part>)
    requires Extends(a, b) && Extends(b, c)
    ensures Extends(a, c)
  {
    forall i | 0 <= i < |a| ensures Later(a[i], c[i]) {
      assert Later(a[i], b[i]) && Later(b[i], c[i]);
    }
  }

  lemma ExtendsAppend(parts: seq<Part>, p: Part)
    ensures Extends(parts, parts + [p])
  {}

  lemma ExtendsUpdate(parts: seq<Part>, i: nat, q: Part)
    requires i < |parts| && Later(parts[i], q)
    ensures Extends(parts, parts[i := q])
  {}

  lemma MarkLater(p: Part, value: string, q: Part)
    requires AddProperty(p, SOURCE_PURL, value) == Some(q)
    ensures Later(p, q)
  {
    AddPropertyDone(p, SOURCE_PURL, value, q);
  }

  // ---------- filling a record ----------

  lemma {:induction false} WithoutTwice(hashes: seq<Hash>)
    ensures Without256(Without256(hashes)) == Without256(hashes)
    ensures forall h :: h in Without256(hashes) ==> h.alg != "SHA-256"
  {
    if hashes != [] {
      var n := |hashes| - 1;
      var front, last := hashes[..n], hashes[n];
      WithoutTwice(front);
      if last.alg != "SHA-256" {
        assert Without256(hashes)[..|Without256(front)|] == Without256(front);
      } else {
        assert Without256(hashes) == Without256(front);
      }
    }
  }

  lemma ChoiceReads(spdx: string, text: Option<string>)
    ensures ChoiceValue(ChoiceOf(spdx, text)) == if spdx == "" then None else Some(spdx)
  {}

  /** A signed component stays as it is, and it passes the checks of a second run exactly when the
      inventory writes its hash in lower case. */
  lemma SignedDone(p: Part, rec: Record)
    ensures Signed(Signed(p, rec), rec) == Signed(p, rec)
    ensures Agrees(Signed(p, rec), rec) <==> Lower(rec.sha) == rec.sha
  {
    var others := Without256(p.hashes);
    WithoutTwice(p.hashes);
    var hashes := others + [Hash("SHA-256", rec.sha)];
    assert hashes[..|others|] == others;
    assert Without256(hashes) == others;
    assert hashes[|others|] in hashes;
    ChoiceReads(rec.concluded, rec.text);
  }

  /** Everything a record says stands in the component. */
  predicate Filled(p: Part, rec: Record) {
    && Signed(p, rec) == p && Tidy(p)
    && HasProperty(p, SOURCE_PATH, rec.path) && HasProperty(p, LICENSE_BASIS, rec.basis)
    && (rec.comment.Some? ==> HasProperty(p, LICENSE_COMMENT, rec.comment.value))
  }

  lemma FilledStays(p: Part, rec: Record)
    requires Filled(p, rec)
    ensures Fill(p, rec) == Some(p) && (Agrees(p, rec) <==> Lower(rec.sha) == rec.sha)
  {
    SignedDone(p, rec);
    AddPropertyStays(p, SOURCE_PATH, rec.path);
    AddPropertyStays(p, LICENSE_BASIS, rec.basis);
    if rec.comment.Some? {
      AddPropertyStays(p, LICENSE_COMMENT, rec.comment.value);
    }
  }

  lemma KeepsProperty(p: Part, q: Part, name: string, other: string, value: string)
    requires OthersKept(p, q, name) && other != name && HasProperty(p, other, value)
    ensures HasProperty(q, other, value)
  {}

  lemma SignedTwice(p: Part, q: Part, rec: Record)
    requires Signed(p, rec) == p && q == p.(properties := q.properties)
    ensures Signed(q, rec) == q
  {}

  /** The steps of a fill. */
  lemma FillSteps(p: Part, rec: Record, q: Part) returns (one: Part, two: Part)
    requires Fill(p, rec) == Some(q)
    ensures AddProperty(Signed(p, rec), SOURCE_PATH, rec.path) == Some(one)
    ensures AddProperty(one, LICENSE_BASIS, rec.basis) == Some(two)
    ensures if rec.comment.Some? then AddProperty(two, LICENSE_COMMENT, rec.comment.value) == Some(q) else q == two
  {
    one := AddProperty(Signed(p, rec), SOURCE_PATH, rec.path).value;
    two := AddProperty(one, LICENSE_BASIS, rec.basis).value;
  }

  lemma NamesApart()
    ensures SOURCE_PATH != LICENSE_BASIS && SOURCE_PATH != LICENSE_COMMENT && LICENSE_BASIS != LICENSE_COMMENT
    ensures SOURCE_PURL != SOURCE_PATH && SOURCE_PURL != LICENSE_BASIS && SOURCE_PURL != LICENSE_COMMENT
  {
    assert SOURCE_PATH[17] == 'p' && LICENSE_BASIS[17] == 'l' && LICENSE_COMMENT[17] == 'l';
    assert LICENSE_BASIS[25] == 'b' && LICENSE_COMMENT[25] == 'c';
    assert SOURCE_PURL[10] == 'd' && SOURCE_PATH[10] == 's' && LICENSE_BASIS[10] == 's' && LICENSE_COMMENT[10] == 's';
  }

  lemma FillFills(p: Part, rec: Record, q: Part)
    requires Fill(p, rec) == Some(q)
    ensures Filled(q, rec) && q == Signed(p, rec).(properties := q.properties)
    ensures Sorting.Sum(Named(SOURCE_PATH), p.properties) == 0 || HasProperty(p, SOURCE_PATH, rec.path)
    ensures forall value :: HasProperty(p, SOURCE_PURL, value) ==> HasProperty(q, SOURCE_PURL, value)
  {
    var one, two := FillSteps(p, rec, q);
    NamesApart();
    SignedDone(p, rec);
    AddPropertyDone(Signed(p, rec), SOURCE_PATH, rec.path, one);
    AddPropertyDone(one, LICENSE_BASIS, rec.basis, two);
    KeepsProperty(one, two, LICENSE_BASIS, SOURCE_PATH, rec.path);
    if rec.comment.Some? {
      AddPropertyDone(two, LICENSE_COMMENT, rec.comment.value, q);
      KeepsProperty(two, q, LICENSE_COMMENT, SOURCE_PATH, rec.path);
      KeepsProperty(two, q, LICENSE_COMMENT, LICENSE_BASIS, rec.basis);
    }
    SignedTwice(Signed(p, rec), q, rec);
    assert forall value :: HasProperty(p, SOURCE_PURL, value) ==> HasProperty(Signed(p, rec), SOURCE_PURL, value);
  }

  /** A component under the application's license keeps it: the record must name it too. */
  lemma FillApache(p: Part, rec: Record)
    requires LicenseRead(rec) && Agrees(p, rec) && p.licenses == [APACHE]
    ensures Signed(p, rec).licenses == [APACHE]
  {
    assert APACHE in p.licenses && ChoiceValue(APACHE) == Some(APPLICATION_LICENSE);
    assert APPLICATION_LICENSE[0] == 'A';
    assert rec.concluded == APPLICATION_LICENSE;
    assert forall i :: 0 <= i < |APPLICATION_LICENSE| ==> !IsBlank(APPLICATION_LICENSE[i]);
    assert !Compound(APPLICATION_LICENSE);
  }

  lemma FillLater(p: Part, rec: Record, q: Part)
    requires LicenseRead(rec) && Agrees(p, rec) && Fill(p, rec) == Some(q)
    ensures Later(p, q)
  {
    FillFills(p, rec, q);
    if p.licenses == [APACHE] {
      FillApache(p, rec);
    }
  }

  // ---------- counts by path ----------

  lemma {:induction false} SaysNamed(properties: seq<Property>, q: Property)
    ensures Sorting.Sum(Says(q), properties) <= Sorting.Sum(Named(q.name), properties)
    ensures Sorting.Sum(Says(q), properties) > 0 <==> q in properties
  {
    if properties != [] {
      SaysNamed(properties[..|properties| - 1], q);
      assert properties == properties[..|properties| - 1] + [properties[|properties| - 1]];
    }
  }

  /** A component with one path property stands at that path alone. */
  lemma StandsOnce(p: Part, own: string, path: string)
    requires HasProperty(p, SOURCE_PATH, own)
    ensures Stands(p, path) == if path == own then 1 else 0
  {
    SaysNamed(p.properties, Property(SOURCE_PATH, path));
    PropertyAt(p.properties, SOURCE_PATH, own);
    PropertyAt(p.properties, SOURCE_PATH, path);
  }

  /** Filling a component that stands at the path moves it to no other. */
  lemma FillStands(p: Part, rec: Record, q: Part, path: string)
    requires Fill(p, rec) == Some(q) && Stands(p, rec.path) > 0
    ensures Stands(q, path) == Stands(p, path)
  {
    FillFills(p, rec, q);
    StandsOnce(q, rec.path, path);
    if Sorting.Sum(Named(SOURCE_PATH), p.properties) > 0 {
      StandsOnce(p, rec.path, path);
    }
  }

  // ---------- counts that look at nothing a run changes ----------

  lemma {:induction false} SumAlike<T>(f: T -> nat, a: seq<T>, b: seq<T>)
    requires |a| == |b| && forall i :: 0 <= i < |a| ==> f(a[i]) == f(b[i])
    ensures Sorting.Sum(f, a) == Sorting.Sum(f, b)
  {
    if a != [] {
      var n := |a| - 1;
      SumAlike(f, a[..n], b[..n]);
    }
  }

  lemma SumExtends(f: Part -> nat, parts: seq<Part>, after: seq<Part>)
    requires Extends(parts, after) && forall p, q :: Alike(p, q) ==> f(p) == f(q)
    ensures Sorting.Sum(f, after) == Sorting.Sum(f, parts) + Sorting.Sum(f, after[|parts|..])
  {
    var front := after[..|parts|];
    assert after == front + after[|parts|..];
    Sorting.SumAppend(f, front, after[|parts|..]);
    forall i | 0 <= i < |parts| ensures f(parts[i]) == f(front[i]) {
      assert Later(parts[i], after[i]);
    }
    SumAlike(f, parts, front);
  }
}
