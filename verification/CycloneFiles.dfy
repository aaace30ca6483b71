/** The loop of augment_cyclonedx over the license inventory. */
module CycloneFiles {
  import opened Common
  import opened SbomRelease
  import opened CycloneDx
  import opened CycloneDeps
  import opened CycloneParts
  import opened CycloneSettles
  import Sorting

  /** The component of a record stands at i, says what the record says and is tied to the application. */
  predicate RecordAt(rec: Record, application: string, parts: seq<Part>, deps: seq<Dep>, i: nat) {
    && i < |parts| && Filled(parts[i], rec)
    && Entered(deps, Ref(parts[i])) && Tied(deps, application, Ref(parts[i]))
  }

  ghost predicate RecordDone(rec: Record, application: string, parts: seq<Part>, deps: seq<Dep>) {
    Sorting.Sum(AtPath(rec.path), parts) == 1 && exists i: nat :: RecordAt(rec, application, parts, deps, i)
  }

  lemma RecordStands(rec: Record, application: string, parts: seq<Part>, deps: seq<Dep>, i: nat, path: string)
    requires RecordAt(rec, application, parts, deps, i)
    ensures Stands(parts[i], path) == if path == rec.path then 1 else 0
  {
    StandsOnce(parts[i], rec.path, path);
  }

  // ---------- one record ----------

  /** Where a record is placed and what that changes. */
  lemma PlaceDone(r: Release, parts: seq<Part>, known: nat, rec: Record)
    requires known <= |parts| && Place(r, parts, known, rec).Some? && LicenseRead(rec)
    ensures var (after, i) := Place(r, parts, known, rec).value;
      && Extends(parts, after) && Filled(after[i], rec)
      && (if Sorting.Sum(AtPath(rec.path), parts[..known]) == 0
          then i == |parts| && after == parts + [after[i]] && Alike(NewPart(r, rec), after[i])
          else i < known && after == parts[i := after[i]] && Stands(parts[i], rec.path) > 0
               && Fill(parts[i], rec) == Some(after[i]))
  {
    var (after, i) := Place(r, parts, known, rec).value;
    if Sorting.Sum(AtPath(rec.path), parts[..known]) == 0 {
      FillFills(NewPart(r, rec), rec, after[i]);
      ExtendsAppend(parts, after[i]);
    } else {
      FillFills(parts[i], rec, after[i]);
      FillLater(parts[i], rec, after[i]);
      ExtendsUpdate(parts, i, after[i]);
    }
  }

  /** What placing one record does to the count at any path. */
  lemma PlaceCounts(r: Release, parts: seq<Part>, known: nat, rec: Record, path: string)
    requires known <= |parts| && Place(r, parts, known, rec).Some? && LicenseRead(rec)
    ensures var after := Place(r, parts, known, rec).value.0;
      && known <= |after|
      && Sorting.Sum(AtPath(path), after[..known]) == Sorting.Sum(AtPath(path), parts[..known])
      && Sorting.Sum(AtPath(path), after) == Sorting.Sum(AtPath(path), parts)
         + if Sorting.Sum(AtPath(rec.path), parts[..known]) == 0 && path == rec.path then 1 else 0
  {
    var (after, i) := Place(r, parts, known, rec).value;
    PlaceDone(r, parts, known, rec);
    if Sorting.Sum(AtPath(rec.path), parts[..known]) == 0 {
      assert after[..known] == parts[..known];
      Sorting.SumAppend(AtPath(path), parts, [after[i]]);
      Sorting.SumOne(AtPath(path), after[i]);
      StandsOnce(after[i], rec.path, path);
    } else {
      FillStands(parts[i], rec, after[i], path);
      assert after[..known] == parts[..known][i := after[i]];
      Sorting.SumUpdate(AtPath(path), parts, i, after[i]);
      Sorting.SumUpdate(AtPath(path), parts[..known], i, after[i]);
    }
  }

  lemma FileSteps(r: Release, application: string, known: nat, rec: Record, st: State, next: State) returns (i: nat)
    requires known <= |st.parts| && File(r, application, known, rec, st) == Some(next)
    ensures i < |next.parts| && Place(r, st.parts, known, rec) == Some((next.parts, i))
    ensures EnterTie(st.deps, application, Ref(next.parts[i])) == Some(next.deps)
  {
    i := Place(r, st.parts, known, rec).value.1;
  }

  lemma FileDone(r: Release, application: string, known: nat, rec: Record, st: State, next: State) returns (i: nat)
    requires known <= |st.parts| && File(r, application, known, rec, st) == Some(next)
    requires LicenseRead(rec) && DepsOk(st.deps)
    ensures known <= |next.parts| && Extends(st.parts, next.parts) && Grown(st.deps, next.deps)
    ensures RecordAt(rec, application, next.parts, next.deps, i)
    ensures Place(r, st.parts, known, rec) == Some((next.parts, i))
  {
    i := FileSteps(r, application, known, rec, st, next);
    PlaceDone(r, st.parts, known, rec);
    EnterTieGrows(st.deps, application, Ref(next.parts[i]));
  }

  /** The component of another record is not touched. */
  lemma FileKeeps(r: Release, application: string, known: nat, rec: Record, st: State, next: State, other: Record, k: nat)
    requires known <= |st.parts| && File(r, application, known, rec, st) == Some(next)
    requires LicenseRead(rec) && DepsOk(st.deps) && other.path != rec.path
    requires RecordAt(other, application, st.parts, st.deps, k)
    ensures RecordAt(other, application, next.parts, next.deps, k)
  {
    var i := FileDone(r, application, known, rec, st, next);
    PlaceDone(r, st.parts, known, rec);
    RecordStands(other, application, st.parts, st.deps, k, rec.path);
    assert i != k && next.parts[k] == st.parts[k];
  }

  // ---------- the loop ----------

  predicate DistinctPaths(records: seq<Record>) {
    forall i, j :: 0 <= i < j < |records| ==> records[i].path != records[j].path
  }

  ghost predicate AllRead(records: seq<Record>) { forall k :: 0 <= k < |records| ==> LicenseRead(records[k]) }

  /** Nothing behind the known components stands for a record that is still to come. */
  ghost predicate TailClear(parts: seq<Part>, known: nat, records: seq<Record>)
    requires known <= |parts|
  {
    forall k :: 0 <= k < |records| ==>
      Sorting.Sum(AtPath(records[k].path), parts) == Sorting.Sum(AtPath(records[k].path), parts[..known])
  }

  lemma FileNext(r: Release, application: string, known: nat, records: seq<Record>, st: State) returns (next: State)
    requires known <= |st.parts| && |records| > 0 && FileAll(r, application, known, records, st).Some?
    requires AllRead(records) && DistinctPaths(records) && TailClear(st.parts, known, records) && DepsOk(st.deps)
    ensures known <= |next.parts| && File(r, application, known, records[0], st) == Some(next)
    ensures FileAll(r, application, known, records, st) == FileAll(r, application, known, records[1..], next)
    ensures AllRead(records[1..]) && DistinctPaths(records[1..]) && TailClear(next.parts, known, records[1..])
    ensures Extends(st.parts, next.parts) && Grown(st.deps, next.deps)
  {
    next := File(r, application, known, records[0], st).value;
    var i := FileDone(r, application, known, records[0], st, next);
    var rest := records[1..];
    assert forall k :: 0 <= k < |rest| ==> rest[k] == records[k + 1];
    forall k | 0 <= k < |rest|
      ensures Sorting.Sum(AtPath(rest[k].path), next.parts) == Sorting.Sum(AtPath(rest[k].path), next.parts[..known])
    {
      PlaceCounts(r, st.parts, known, records[0], rest[k].path);
    }
  }

  lemma {:induction false} FilesExtend(r: Release, application: string, known: nat, records: seq<Record>, st: State, after: State)
    requires known <= |st.parts| && FileAll(r, application, known, records, st) == Some(after)
    requires AllRead(records) && DistinctPaths(records) && TailClear(st.parts, known, records) && DepsOk(st.deps)
    ensures Extends(st.parts, after.parts) && Grown(st.deps, after.deps)
    decreases |records|
  {
    if |records| > 0 {
      var next := FileNext(r, application, known, records, st);
      FilesExtend(r, application, known, records[1..], next, after);
      ExtendsTwice(st.parts, next.parts, after.parts);
      GrownTwice(st.deps, next.deps, after.deps);
    }
  }

  /** A record that is done stays done while others are filed. */
  lemma {:induction false} DoneKept(
      r: Release, application: string, known: nat, records: seq<Record>, st: State, after: State, other: Record, k: nat)
    requires known <= |st.parts| && FileAll(r, application, known, records, st) == Some(after)
    requires AllRead(records) && DistinctPaths(records) && TailClear(st.parts, known, records) && DepsOk(st.deps)
    requires forall j :: 0 <= j < |records| ==> records[j].path != other.path
    requires RecordAt(other, application, st.parts, st.deps, k)
    ensures RecordAt(other, application, after.parts, after.deps, k)
    ensures Sorting.Sum(AtPath(other.path), after.parts) == Sorting.Sum(AtPath(other.path), st.parts)
    decreases |records|
  {
    if |records| > 0 {
      var next := FileNext(r, application, known, records, st);
      FileKeeps(r, application, known, records[0], st, next, other, k);
      PlaceCounts(r, st.parts, known, records[0], other.path);
      DoneKept(r, application, known, records[1..], next, after, other, k);
    }
  }

  lemma HeadDone(r: Release, application: string, known: nat, records: seq<Record>, st: State, next: State, after: State)
    requires known <= |st.parts| && known <= |next.parts| && |records| > 0
    requires AllRead(records) && DistinctPaths(records) && TailClear(st.parts, known, records) && DepsOk(st.deps)
    requires File(r, application, known, records[0], st) == Some(next)
    requires AllRead(records[1..]) && DistinctPaths(records[1..]) && TailClear(next.parts, known, records[1..]) && DepsOk(next.deps)
    requires FileAll(r, application, known, records[1..], next) == Some(after)
    ensures RecordDone(records[0], application, after.parts, after.deps)
  {
    var rec, rest := records[0], records[1..];
    var i := FileDone(r, application, known, rec, st, next);
    assert Sorting.Sum(AtPath(rec.path), next.parts) == 1 by {
      PlaceCounts(r, st.parts, known, rec, rec.path);
      assert Sorting.Sum(AtPath(rec.path), st.parts[..known]) <= 1;
    }
    assert forall k :: 0 <= k < |rest| ==> rest[k] == records[k + 1];
    DoneKept(r, application, known, rest, next, after, rec, i);
  }

  lemma FirstDone(r: Release, application: string, known: nat, records: seq<Record>, st: State, after: State)
    requires known <= |st.parts| && FileAll(r, application, known, records, st) == Some(after) && |records| > 0
    requires AllRead(records) && DistinctPaths(records) && TailClear(st.parts, known, records) && DepsOk(st.deps)
    ensures RecordDone(records[0], application, after.parts, after.deps)
  {
    var next := FileNext(r, application, known, records, st);
    HeadDone(r, application, known, records, st, next, after);
  }

  /** After the loop every record is done. */
  lemma {:induction false} FilesDone(
      r: Release, application: string, known: nat, records: seq<Record>, st: State, after: State, k: nat)
    requires known <= |st.parts| && FileAll(r, application, known, records, st) == Some(after) && k < |records|
    requires AllRead(records) && DistinctPaths(records) && TailClear(st.parts, known, records) && DepsOk(st.deps)
    ensures RecordDone(records[k], application, after.parts, after.deps)
    decreases |records|
  {
    if k == 0 {
      FirstDone(r, application, known, records, st, after);
    } else {
      var next := FileNext(r, application, known, records, st);
      var rest := records[1..];
      assert rest[k - 1] == records[k];
      FilesDone(r, application, known, rest, next, after, k - 1);
    }
  }

  /** A steady count that no new component changes stays. */
  lemma {:induction false} FilesCount(
      r: Release, application: string, known: nat, records: seq<Record>, st: State, after: State, f: Part -> nat)
    requires known <= |st.parts| && FileAll(r, application, known, records, st) == Some(after)
    requires AllRead(records) && DistinctPaths(records) && TailClear(st.parts, known, records) && DepsOk(st.deps)
    requires Steady(f) && forall k :: 0 <= k < |records| ==> f(NewPart(r, records[k])) == 0
    ensures Sorting.Sum(f, after.parts) == Sorting.Sum(f, st.parts)
    decreases |records|
  {
    if |records| > 0 {
      var next := FileNext(r, application, known, records, st);
      PlaceKeepsCount(r, st.parts, known, records[0], f);
      assert forall k :: 0 <= k < |records[1..]| ==> records[1..][k] == records[k + 1];
      FilesCount(r, application, known, records[1..], next, after, f);
    }
  }

  lemma PlaceKeepsCount(r: Release, parts: seq<Part>, known: nat, rec: Record, f: Part -> nat)
    requires known <= |parts| && Place(r, parts, known, rec).Some? && LicenseRead(rec)
    requires Steady(f) && f(NewPart(r, rec)) == 0
    ensures Sorting.Sum(f, Place(r, parts, known, rec).value.0) == Sorting.Sum(f, parts)
  {
    var (after, i) := Place(r, parts, known, rec).value;
    PlaceDone(r, parts, known, rec);
    if i == |parts| {
      Sorting.SumAppend(f, parts, [after[i]]);
      Sorting.SumOne(f, after[i]);
    } else {
      assert Later(parts[i], after[i]);
      Sorting.SumUpdate(f, parts, i, after[i]);
    }
  }

  /** What the loop appends are components of records. */
  lemma {:induction false} FilesTail(
      r: Release, application: string, known: nat, records: seq<Record>, st: State, after: State, i: nat)
    requires known <= |st.parts| && FileAll(r, application, known, records, st) == Some(after)
    requires AllRead(records) && DistinctPaths(records) && TailClear(st.parts, known, records) && DepsOk(st.deps)
    requires |st.parts| <= i < |after.parts|
    ensures exists k :: 0 <= k < |records| && Alike(NewPart(r, records[k]), after.parts[i])
    decreases |records|
  {
    var next := FileNext(r, application, known, records, st);
    if i < |next.parts| {
      PlaceDone(r, st.parts, known, records[0]);
      FilesExtend(r, application, known, records[1..], next, after);
      assert Later(next.parts[i], after.parts[i]);
      assert Alike(NewPart(r, records[0]), after.parts[i]);
    } else {
      FilesTail(r, application, known, records[1..], next, after, i);
      var k :| 0 <= k < |records[1..]| && Alike(NewPart(r, records[1..][k]), after.parts[i]);
      assert records[1..][k] == records[k + 1];
    }
  }

  // ---------- running it again ----------

  lemma PlaceStays(r: Release, parts: seq<Part>, rec: Record, i: nat)
    requires i < |parts| && Sorting.Sum(AtPath(rec.path), parts) == 1 && Filled(parts[i], rec)
    ensures Place(r, parts, |parts|, rec) == if Lower(rec.sha) == rec.sha then Some((parts, i)) else None
  {
    var p := parts[i];
    assert parts[..|parts|] == parts;
    StandsOnce(p, rec.path, rec.path);
    Sorting.OnlyOne(AtPath(rec.path), parts, i);
    FilledStays(p, rec);
    assert parts[i := p] == parts;
  }

  lemma FileStays(r: Release, application: string, rec: Record, st: State)
    requires DepsOk(st.deps) && RecordDone(rec, application, st.parts, st.deps)
    ensures File(r, application, |st.parts|, rec, st) == if Lower(rec.sha) == rec.sha then Some(st) else None
  {
    var i: nat :| RecordAt(rec, application, st.parts, st.deps, i);
    PlaceStays(r, st.parts, rec, i);
    EnterTieStays(st.deps, application, Ref(st.parts[i]));
  }

  predicate AllLower(records: seq<Record>) { forall k :: 0 <= k < |records| ==> Lower(records[k].sha) == records[k].sha }

  lemma LowerRest(records: seq<Record>)
    requires |records| > 0
    ensures AllLower(records) <==> Lower(records[0].sha) == records[0].sha && AllLower(records[1..])
  {
    var rest := records[1..];
    assert forall k :: 0 <= k < |rest| ==> rest[k] == records[k + 1];
    if AllLower(rest) {
      assert forall k :: 0 < k < |records| ==> records[k] == rest[k - 1];
    }
  }

  ghost predicate AllDone(records: seq<Record>, application: string, parts: seq<Part>, deps: seq<Dep>) {
    forall k :: 0 <= k < |records| ==> RecordDone(records[k], application, parts, deps)
  }

  /** On a document in which every record is done the loop changes nothing, or is stopped by a hash
      in upper case. */
  lemma {:induction false} FilesStay(r: Release, application: string, records: seq<Record>, st: State)
    requires DepsOk(st.deps) && AllDone(records, application, st.parts, st.deps)
    ensures FileAll(r, application, |st.parts|, records, st) == if AllLower(records) then Some(st) else None
    decreases |records|
  {
    if |records| > 0 {
      var rest := records[1..];
      FileStays(r, application, records[0], st);
      LowerRest(records);
      assert forall k :: 0 <= k < |rest| ==> rest[k] == records[k + 1];
      FilesStay(r, application, rest, st);
    }
  }
}
