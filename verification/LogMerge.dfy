/** The k-way merge of engine/pkg/cli/debug_merge_logs.go: a heap of log streams whose root
    changes its key in place when it is popped. */
module LogMerge {
  import opened Common

  datatype Entry = Entry(time: int, text: string)

  /** An entry together with the file it came from, as writeLogStream sends it on. */
  datatype Line = Line(file: nat, entry: Entry)

  /** How a stream ends: in io.EOF or in some other error. */
  datatype Ending = Eof | Fault

  // ---------- order of streams ----------

  /** mergedStream.Less on two streams given by their remaining entries. */
  predicate Less(a: seq<Entry>, b: seq<Entry>) {
    if a != [] && b != [] then a[0].time < b[0].time else a == [] && b != []
  }

  predicate Leq(a: seq<Entry>, b: seq<Entry>) { !Less(b, a) }

  function Parent(j: int): int
    requires j >= 1
  {
    (j - 1) / 2
  }

  predicate InRange(l: seq<nat>, streams: seq<seq<Entry>>) {
    forall i :: 0 <= i < |l| ==> l[i] < |streams|
  }

  /** Heap order between every node below n and its parent, for parents from lo on. */
  ghost predicate HeapFrom(l: seq<nat>, streams: seq<seq<Entry>>, lo: int, n: int)
    requires InRange(l, streams) && n <= |l|
  {
    forall j {:trigger l[j]} :: 1 <= j < n && lo <= Parent(j) ==> Leq(streams[l[Parent(j)]], streams[l[j]])
  }

  /** The root of a heap is a least element. */
  lemma {:induction false} RootLeast(l: seq<nat>, streams: seq<seq<Entry>>, j: int)
    requires InRange(l, streams) && HeapFrom(l, streams, 0, |l|) && 0 <= j < |l|
    ensures Leq(streams[l[0]], streams[l[j]])
  {
    if j > 0 {
      RootLeast(l, streams, Parent(j));
    }
  }

  /** The child of i that comes first. */
  function SmallerChild(l: seq<nat>, streams: seq<seq<Entry>>, i: nat, n: nat): (j: nat)
    requires InRange(l, streams) && 2 * i + 1 < n <= |l|
    ensures 1 <= j < n && i < j && Parent(j) == i
    ensures forall k :: 1 <= k < n && Parent(k) == i ==> Leq(streams[l[j]], streams[l[k]])
  {
    var j := 2 * i + 1;
    assert forall k :: 1 <= k < n && Parent(k) == i ==> k == j || k == j + 1;
    if j + 1 < n && Less(streams[l[j + 1]], streams[l[j]]) then j + 1 else j
  }

  /** While a node sinks: order everywhere except below i, and the children of i are in
      order with the parent of i. */
  ghost predicate Sinking(l: seq<nat>, streams: seq<seq<Entry>>, lo: int, i: int, n: int)
    requires InRange(l, streams) && n <= |l|
  {
    && 0 <= lo <= i
    && (forall j {:trigger l[j]} :: 1 <= j < n && lo <= Parent(j) && Parent(j) != i ==>
          Leq(streams[l[Parent(j)]], streams[l[j]]))
    && (forall j {:trigger l[j]} :: 1 <= j < n && Parent(j) == i && i > lo && Parent(i) >= lo ==>
          Leq(streams[l[Parent(i)]], streams[l[j]]))
  }

  lemma SinkStep(l: seq<nat>, streams: seq<seq<Entry>>, lo: int, i: int, n: int, j: int)
    requires InRange(l, streams) && n <= |l| && Sinking(l, streams, lo, i, n)
    requires 1 <= j < n && Parent(j) == i && Less(streams[l[j]], streams[l[i]])
    requires forall k :: 1 <= k < n && Parent(k) == i ==> Leq(streams[l[j]], streams[l[k]])
    ensures Sinking(Swapped(l, i, j), streams, lo, j, n)
  {
    var m := Swapped(l, i, j);
    forall k | 1 <= k < n && lo <= Parent(k) && Parent(k) != j
      ensures Leq(streams[m[Parent(k)]], streams[m[k]])
    {
      assert Leq(streams[l[Parent(k)]], streams[l[k]]) || k == j || Parent(k) == i;
      if k == i {
        assert Leq(streams[l[Parent(i)]], streams[l[j]]);
      }
    }
    forall k | 1 <= k < n && Parent(k) == j
      ensures Leq(streams[m[Parent(j)]], streams[m[k]])
    {
      assert Leq(streams[l[Parent(k)]], streams[l[k]]);
    }
  }

  lemma SinkDone(l: seq<nat>, streams: seq<seq<Entry>>, lo: int, i: int, n: int)
    requires InRange(l, streams) && n <= |l| && Sinking(l, streams, lo, i, n)
    requires 2 * i + 1 < n ==> i >= 0 && Leq(streams[l[i]], streams[l[SmallerChild(l, streams, i, n)]])
    ensures HeapFrom(l, streams, lo, n)
  {
    forall k | 1 <= k < n && Parent(k) == i ensures Leq(streams[l[i]], streams[l[k]]) {
      assert Leq(streams[l[SmallerChild(l, streams, i, n)]], streams[l[k]]);
    }
  }

  /** While the last node rises: order everywhere except above j, and the children of j are
      in order with the parent of j. */
  ghost predicate Rising(l: seq<nat>, streams: seq<seq<Entry>>, j: int)
    requires InRange(l, streams)
  {
    && 0 <= j < |l|
    && (forall k {:trigger l[k]} :: 1 <= k < |l| && k != j ==> Leq(streams[l[Parent(k)]], streams[l[k]]))
    && (forall k {:trigger l[k]} :: 1 <= k < |l| && Parent(k) == j && j > 0 ==>
          Leq(streams[l[Parent(j)]], streams[l[k]]))
  }

  lemma RiseStep(l: seq<nat>, streams: seq<seq<Entry>>, j: int)
    requires InRange(l, streams) && Rising(l, streams, j) && j > 0
    requires Less(streams[l[j]], streams[l[Parent(j)]])
    ensures Rising(Swapped(l, Parent(j), j), streams, Parent(j))
  {
    var i := Parent(j);
    var m := Swapped(l, i, j);
    forall k | 1 <= k < |l| && k != i
      ensures Leq(streams[m[Parent(k)]], streams[m[k]])
    {
      assert k == j || Leq(streams[l[Parent(k)]], streams[l[k]]);
    }
    forall k | 1 <= k < |l| && Parent(k) == i && i > 0
      ensures Leq(streams[m[Parent(i)]], streams[m[k]])
    {
      assert Leq(streams[l[Parent(i)]], streams[l[i]]);
      assert k == j || Leq(streams[l[i]], streams[l[k]]);
    }
  }

  predicate Sorted(s: seq<Entry>) {
    forall i, j :: 0 <= i <= j < |s| ==> s[i].time <= s[j].time
  }

  predicate SortedLines(s: seq<Line>) {
    forall i, j :: 0 <= i <= j < |s| ==> s[i].entry.time <= s[j].entry.time
  }

  /** The entries of one file among the lines, in order. */
  function Projection(out: seq<Line>, file: nat): (r: seq<Entry>) {
    if out == [] then []
    else
      var x := out[|out| - 1];
      Projection(out[..|out| - 1], file) + if x.file == file then [x.entry] else []
  }

  lemma ProjectionAppend(out: seq<Line>, x: Line, file: nat)
    ensures Projection(out + [x], file) == Projection(out, file) + if x.file == file then [x.entry] else []
  {
    assert (out + [x])[..|out|] == out;
  }

  function Swapped(l: seq<nat>, i: nat, j: nat): (r: seq<nat>)
    requires i < |l| && j < |l|
    ensures |r| == |l| && r[i] == l[j] && r[j] == l[i] && multiset(r) == multiset(l)
    ensures forall k :: 0 <= k < |l| && k != i && k != j ==> r[k] == l[k]
  {
    l[i := l[j]][j := l[i]]
  }

  /** The slice holds exactly the streams that have an entry left. */
  ghost predicate Offers(l: seq<nat>, streams: seq<seq<Entry>>) {
    forall h :: 0 <= h < |streams| ==> (h in l <==> streams[h] != [])
  }

  /** A slice of streams kept as a heap.  l holds the streams as handles; streams[h] is what
      stream h has left and changes when that stream is popped. */
  class MergedStream {
    var l: seq<nat>
    var streams: seq<seq<Entry>>
    const endings: seq<Ending>

    ghost predicate Shape()
      reads this
    {
      InRange(l, streams) && |endings| == |streams| && forall h :: multiset(l)[h] <= 1
    }

    /** A heap of streams that all have an entry to offer. */
    ghost predicate Valid()
      reads this
    {
      Shape() && HeapFrom(l, streams, 0, |l|) && Offers(l, streams)
    }

    /** Newly opened streams; heap.Init establishes the order. */
    constructor (streams: seq<seq<Entry>>, endings: seq<Ending>)
      requires |endings| == |streams|
      ensures Valid() && this.streams == streams && this.endings == endings
    {
      this.streams := streams;
      this.endings := endings;
      l := [];
      new;
      var h := 0;
      while h < |streams|
        invariant 0 <= h <= |streams| && this.streams == streams && this.endings == endings
        invariant Shape()
        invariant forall i :: 0 <= i < |l| ==> l[i] < h
        invariant forall g :: 0 <= g < h ==> (g in l <==> streams[g] != [])
      {
        if streams[h] != [] {
          assert h !in l;
          l := l + [h];
          assert l[|l| - 1] == h;
        }
        h := h + 1;
      }
      ghost var filled := l;
      var i := |l| / 2 - 1;
      while i >= 0
        invariant -1 <= i < |l|
        invariant Shape() && this.streams == streams && this.endings == endings
        invariant HeapFrom(l, streams, i + 1, |l|) && multiset(l) == multiset(filled)
      {
        SiftDown(i, |l|);
        i := i - 1;
      }
      SameMembers(filled, l, multiset{});
    }

    /** heap.down */
    method SiftDown(i0: nat, n: nat)
      requires Shape() && i0 <= n <= |l|
      requires HeapFrom(l, streams, i0 + 1, n)
      modifies this`l
      ensures Shape() && |l| == |old(l)| && multiset(l) == multiset(old(l))
      ensures HeapFrom(l, streams, i0, n)
      ensures forall k :: n <= k < |l| ==> l[k] == old(l)[k]
    {
      var i := i0;
      while 2 * i + 1 < n
        invariant i0 <= i && Shape() && |l| == |old(l)| && multiset(l) == multiset(old(l))
        invariant forall k :: n <= k < |l| ==> l[k] == old(l)[k]
        invariant Sinking(l, streams, i0, i, n)
        decreases n - i
      {
        var j := SmallerChild(l, streams, i, n);
        if !Less(streams[l[j]], streams[l[i]]) {
          SinkDone(l, streams, i0, i, n);
          return;
        }
        SinkStep(l, streams, i0, i, n, j);
        l := Swapped(l, i, j);
        i := j;
      }
      SinkDone(l, streams, i0, i, n);
    }

    /** heap.up, for the element just appended. */
    method SiftUp()
      requires Shape() && |l| > 0 && HeapFrom(l, streams, 0, |l| - 1)
      modifies this`l
      ensures Shape() && |l| == |old(l)| && multiset(l) == multiset(old(l))
      ensures HeapFrom(l, streams, 0, |l|)
    {
      var j := |l| - 1;
      while j > 0
        invariant Shape() && |l| == |old(l)| && multiset(l) == multiset(old(l))
        invariant Rising(l, streams, j)
      {
        if !Less(streams[l[j]], streams[l[Parent(j)]]) {
          return;
        }
        RiseStep(l, streams, j);
        l := Swapped(l, Parent(j), j);
        j := Parent(j);
      }
    }

    /** heap.Pop: the key of the root does not matter, it is the element taken out. */
    method HeapPop() returns (h: nat)
      requires Shape() && |l| > 0 && HeapFrom(l, streams, 1, |l|)
      modifies this`l
      ensures Shape() && HeapFrom(l, streams, 0, |l|)
      ensures h == old(l)[0] && multiset(l) == multiset(old(l)) - multiset{h}
    {
      var n := |l| - 1;
      RootOut(l, streams);
      l := Swapped(l, 0, n);
      SiftDown(0, n);
      h := l[n];
      LastOff(l, streams);
      l := l[..n];
    }

    /** heap.Push */
    method HeapPush(h: nat)
      requires Shape() && HeapFrom(l, streams, 0, |l|) && h < |streams| && h !in l
      modifies this`l
      ensures Shape() && HeapFrom(l, streams, 0, |l|)
      ensures multiset(l) == multiset(old(l)) + multiset{h}
    {
      l := l + [h];
      SiftUp();
    }

    /** heap.Push(l, heap.Pop(l)): the root, whose key has changed, moves to its place. */
    method Requeue()
      requires Shape() && |l| > 0 && HeapFrom(l, streams, 1, |l|) && Offers(l, streams)
      modifies this`l
      ensures Valid()
    {
      var g := HeapPop();
      InBag(l, g);
      HeapPush(g);
      SameMembers(old(l), l, multiset{});
    }

    /** heap.Pop(l) with the root exhausted. */
    method Discard()
      requires Shape() && |l| > 0 && HeapFrom(l, streams, 1, |l|)
      requires streams[l[0]] == [] && forall h :: 0 <= h < |streams| && h != l[0] ==> (h in l <==> streams[h] != [])
      modifies this`l
      ensures Valid()
    {
      var g := HeapPop();
      SameMembers(old(l), l, multiset{g});
    }

    /** mergedStream.pop: pop the root stream, then put it back in order if it has more,
        drop it at EOF, or report failure and leave it at the root after another error. */
    method Pop() returns (ok: bool, e: Entry)
      requires Valid()
      modifies this`l, this`streams
      ensures old(l) == [] ==> !ok && l == old(l) && streams == old(streams)
      ensures old(l) != [] ==>
        var h := old(l)[0];
        && streams == old(streams)[h := old(streams)[h][1..]]
        && (if streams[h] == [] && endings[h].Fault? then !ok && l == old(l)
            else ok && e == old(streams)[h][0] && Valid())
    {
      if l == [] {
        return false, Entry(0, "");
      }
      var h := l[0];
      e := streams[h][0];
      streams := streams[h := streams[h][1..]];
      RootChanged(l, old(streams), streams[h]);
      if streams[h] != [] {
        Requeue();
      } else if endings[h].Fault? {
        return false, e;
      } else {
        Discard();
      }
      ok := true;
    }

    /** One turn of the loop below: peek, send, pop. */
    method DrainOne(ghost files: seq<seq<Entry>>, out: seq<Line>) returns (now: seq<Line>, ok: bool, h: nat)
      requires Valid() && Progress(files, streams, out) && FaultsAhead(files, streams, endings) && l != []
      modifies this`l, this`streams
      ensures Progress(files, streams, now) && Total(streams) < Total(old(streams))
      ensures ok ==> Valid() && FaultsAhead(files, streams, endings)
      ensures !ok ==> h < |files| && endings[h].Fault? && streams[h] == [] && files[h] != []
    {
      h := l[0];
      Least(l, streams);
      Emit(files, streams, out, h);
      now := out + [Line(h, streams[h][0])];
      var popped;
      ok, popped := Pop();
    }

    /** The read loop of writeLogStream on a merged stream: peek, hand the entry on with its
        file, pop, until nothing is offered; then report the stream's error. */
    method Drain() returns (out: seq<Line>, err: Option<nat>)
      requires Valid() && AllSorted(streams)
      modifies this`l, this`streams
      ensures SortedLines(out) && FilesInRange(out, |old(streams)|)
      ensures forall f :: 0 <= f < |old(streams)| ==> Projection(out, f) <= old(streams)[f]
      ensures err.None? ==>
        |out| == Total(old(streams)) && forall f :: 0 <= f < |old(streams)| ==> Projection(out, f) == old(streams)[f]
      ensures match err
        case None => forall f :: 0 <= f < |endings| && endings[f].Fault? ==> old(streams)[f] == []
        case Some(f) => f < |endings| && endings[f].Fault? && old(streams)[f] != []
                        && Projection(out, f) == old(streams)[f]
    {
      out, err := [], None;
      ghost var files := streams;
      while l != []
        invariant Valid() && Progress(files, streams, out)
        invariant FaultsAhead(files, streams, endings)
        decreases Total(streams)
      {
        var ok, h;
        out, ok, h := DrainOne(files, out);
        if !ok {
          SplitPrefix(files, streams, out);
          return out, Some(h);
        }
      }
      AllOut(files, streams, out);
      SplitPrefix(files, streams, out);
    }
  }

  /** A source that fails before its first entry: newFileLogStream returns its error. */
  predicate Unopenable(source: seq<Entry>, ending: Ending) { source == [] && ending.Fault? }

  /** newMergedStream drained to the end: a sorted, exact interleaving of the sources when all
      of them end in EOF; with a source that fails at once nothing is merged; otherwise the lines
      stop after the last entry of a failing source. */
  method Merge(sources: seq<seq<Entry>>, endings: seq<Ending>) returns (out: seq<Line>, err: Option<nat>)
    requires |endings| == |sources| && AllSorted(sources)
    ensures SortedLines(out) && FilesInRange(out, |sources|)
    ensures forall f :: 0 <= f < |sources| ==> Projection(out, f) <= sources[f]
    ensures err.None? ==>
      |out| == Total(sources) && forall f :: 0 <= f < |sources| ==> Projection(out, f) == sources[f]
    ensures err.Some? <==> exists f :: 0 <= f < |sources| && endings[f].Fault?
    ensures err.Some? ==> err.value < |sources| && endings[err.value].Fault?
                          && Projection(out, err.value) == sources[err.value]
    ensures (exists f :: 0 <= f < |sources| && Unopenable(sources[f], endings[f])) ==>
              out == [] && err.Some? && Unopenable(sources[err.value], endings[err.value])
  {
    for i := 0 to |sources|
      invariant forall f :: 0 <= f < i ==> !Unopenable(sources[f], endings[f])
    {
      if Unopenable(sources[i], endings[i]) {
        return [], Some(i);
      }
    }
    var merged := new MergedStream(sources, endings);
    out, err := merged.Drain();
  }

  /** No stream that ends in an error has run out yet, unless it never had an entry. */
  ghost predicate FaultsAhead(files: seq<seq<Entry>>, streams: seq<seq<Entry>>, endings: seq<Ending>) {
    |files| == |streams| == |endings|
    && forall f :: 0 <= f < |streams| && endings[f].Fault? && streams[f] == [] ==> files[f] == []
  }

  /** Entries left over all streams. */
  function Total(streams: seq<seq<Entry>>): nat {
    if streams == [] then 0 else Total(streams[..|streams| - 1]) + |streams[|streams| - 1]|
  }

  lemma {:induction false} TotalUpdate(streams: seq<seq<Entry>>, h: nat, s: seq<Entry>)
    requires h < |streams|
    ensures Total(streams[h := s]) == Total(streams) - |streams[h]| + |s|
  {
    var n := |streams| - 1;
    if h == n {
      assert streams[h := s][..n] == streams[..n];
    } else {
      assert streams[h := s][..n] == streams[..n][h := s];
      TotalUpdate(streams[..n], h, s);
    }
  }

  lemma {:induction false} TotalZero(streams: seq<seq<Entry>>)
    requires forall f :: 0 <= f < |streams| ==> streams[f] == []
    ensures Total(streams) == 0
  {
    if streams != [] {
      TotalZero(streams[..|streams| - 1]);
    }
  }

  /** Every file is split into what came out and what is left. */
  ghost predicate Split(files: seq<seq<Entry>>, streams: seq<seq<Entry>>, out: seq<Line>) {
    |streams| == |files| && forall f :: 0 <= f < |files| ==> Projection(out, f) + streams[f] == files[f]
  }

  /** Nothing left comes before what came out. */
  ghost predicate NotLate(streams: seq<seq<Entry>>, out: seq<Line>) {
    forall i, f :: 0 <= i < |out| && 0 <= f < |streams| && streams[f] != [] ==>
      out[i].entry.time <= streams[f][0].time
  }

  ghost predicate AllSorted(streams: seq<seq<Entry>>) {
    forall f :: 0 <= f < |streams| ==> Sorted(streams[f])
  }

  ghost predicate FilesInRange(out: seq<Line>, n: int) {
    forall i :: 0 <= i < |out| ==> out[i].file < n
  }

  /** What holds of the lines so far and what is left. */
  ghost predicate Progress(files: seq<seq<Entry>>, streams: seq<seq<Entry>>, out: seq<Line>) {
    && Split(files, streams, out) && NotLate(streams, out) && SortedLines(out)
    && AllSorted(streams) && FilesInRange(out, |files|)
    && |out| + Total(streams) == Total(files)
  }

  lemma Least(l: seq<nat>, streams: seq<seq<Entry>>)
    requires InRange(l, streams) && l != [] && HeapFrom(l, streams, 0, |l|) && Offers(l, streams)
    ensures streams[l[0]] != []
    ensures forall f :: 0 <= f < |streams| && streams[f] != [] ==> streams[l[0]][0].time <= streams[f][0].time
  {
    assert l[0] in l;
    forall f | 0 <= f < |streams| && streams[f] != [] ensures streams[l[0]][0].time <= streams[f][0].time {
      var j :| 0 <= j < |l| && l[j] == f;
      RootLeast(l, streams, j);
    }
  }

  lemma EmitSplit(files: seq<seq<Entry>>, streams: seq<seq<Entry>>, out: seq<Line>, h: nat)
    requires Split(files, streams, out) && h < |streams| && streams[h] != []
    ensures Split(files, streams[h := streams[h][1..]], out + [Line(h, streams[h][0])])
  {
    var x, next := Line(h, streams[h][0]), streams[h := streams[h][1..]];
    forall f | 0 <= f < |files| ensures Projection(out + [x], f) + next[f] == files[f] {
      ProjectionAppend(out, x, f);
      assert Projection(out, f) + streams[f] == files[f];
    }
  }

  lemma EmitInOrder(streams: seq<seq<Entry>>, out: seq<Line>, h: nat)
    requires NotLate(streams, out) && SortedLines(out) && AllSorted(streams) && h < |streams| && streams[h] != []
    requires forall f :: 0 <= f < |streams| && streams[f] != [] ==> streams[h][0].time <= streams[f][0].time
    ensures NotLate(streams[h := streams[h][1..]], out + [Line(h, streams[h][0])])
    ensures SortedLines(out + [Line(h, streams[h][0])]) && AllSorted(streams[h := streams[h][1..]])
  {
    var x, next := Line(h, streams[h][0]), streams[h := streams[h][1..]];
    assert forall i, j :: 0 <= i <= j < |next[h]| ==> next[h][i] == streams[h][i + 1] && next[h][j] == streams[h][j + 1];
    forall i, f | 0 <= i < |out + [x]| && 0 <= f < |next| && next[f] != []
      ensures (out + [x])[i].entry.time <= next[f][0].time
    {
      assert streams[f] != [] && streams[f][0].time <= next[f][0].time;
    }
  }

  lemma Emit(files: seq<seq<Entry>>, streams: seq<seq<Entry>>, out: seq<Line>, h: nat)
    requires Progress(files, streams, out) && h < |streams| && streams[h] != []
    requires forall f :: 0 <= f < |streams| && streams[f] != [] ==> streams[h][0].time <= streams[f][0].time
    ensures Progress(files, streams[h := streams[h][1..]], out + [Line(h, streams[h][0])])
    ensures Total(streams[h := streams[h][1..]]) < Total(streams)
  {
    TotalUpdate(streams, h, streams[h][1..]);
    EmitSplit(files, streams, out, h);
    EmitInOrder(streams, out, h);
  }

  lemma SplitPrefix(files: seq<seq<Entry>>, streams: seq<seq<Entry>>, out: seq<Line>)
    requires Split(files, streams, out)
    ensures forall f :: 0 <= f < |files| ==> Projection(out, f) <= files[f]
    ensures forall f :: 0 <= f < |files| && streams[f] == [] ==> Projection(out, f) == files[f]
  {
    forall f | 0 <= f < |files| ensures Projection(out, f) <= files[f] {
      assert Projection(out, f) + streams[f] == files[f];
    }
  }

  lemma AllOut(files: seq<seq<Entry>>, streams: seq<seq<Entry>>, out: seq<Line>)
    requires Progress(files, streams, out) && forall f :: 0 <= f < |streams| ==> streams[f] == []
    ensures |out| == Total(files)
  {
    TotalZero(streams);
  }

  lemma RootOut(l: seq<nat>, streams: seq<seq<Entry>>)
    requires InRange(l, streams) && l != [] && HeapFrom(l, streams, 1, |l|)
    ensures HeapFrom(Swapped(l, 0, |l| - 1), streams, 1, |l| - 1)
  {
    var n := |l| - 1;
    var m := Swapped(l, 0, n);
    forall j | 1 <= j < n && 1 <= Parent(j) ensures Leq(streams[m[Parent(j)]], streams[m[j]]) {
      assert m[j] == l[j] && m[Parent(j)] == l[Parent(j)];
    }
  }

  lemma LastOff(l: seq<nat>, streams: seq<seq<Entry>>)
    requires InRange(l, streams) && l != [] && HeapFrom(l, streams, 0, |l| - 1)
    ensures HeapFrom(l[..|l| - 1], streams, 0, |l| - 1)
    ensures multiset(l[..|l| - 1]) == multiset(l) - multiset{l[|l| - 1]}
  {
    var n := |l| - 1;
    assert l == l[..n] + [l[n]];
    forall j | 1 <= j < n ensures Leq(streams[l[..n][Parent(j)]], streams[l[..n][j]]) {
      assert l[..n][j] == l[j];
    }
  }

  /** Changing what the root stream has left only disturbs the order at the root. */
  lemma RootChanged(l: seq<nat>, streams: seq<seq<Entry>>, rest: seq<Entry>)
    requires InRange(l, streams) && l != [] && HeapFrom(l, streams, 0, |l|) && forall h :: multiset(l)[h] <= 1
    ensures HeapFrom(l, streams[l[0] := rest], 1, |l|)
  {
    forall j | 1 <= j < |l| && 1 <= Parent(j)
      ensures Leq(streams[l[0] := rest][l[Parent(j)]], streams[l[0] := rest][l[j]])
    {
      OnlyOnce(l, 0, j);
      OnlyOnce(l, 0, Parent(j));
    }
  }

  lemma InBag(l: seq<nat>, g: nat)
    ensures g in l <==> multiset(l)[g] > 0
  {}

  /** l lost exactly the handles in gone, each of which it held once. */
  lemma SameMembers(before: seq<nat>, l: seq<nat>, gone: multiset<nat>)
    requires multiset(l) == multiset(before) - gone
    requires forall h :: multiset(before)[h] <= 1
    ensures forall g :: g in l <==> g in before && g !in gone
  {
    forall g ensures g in l <==> g in before && g !in gone {
      InBag(l, g);
      InBag(before, g);
    }
  }

  lemma OnlyOnce(l: seq<nat>, i: int, j: int)
    requires 0 <= i < j < |l| && forall h :: multiset(l)[h] <= 1
    ensures l[i] != l[j]
  {
    var a, b := l[..j], l[j..];
    assert l == a + b;
    assert l[i] == a[i] && l[j] == b[0];
    assert multiset(l)[l[i]] == multiset(a)[l[i]] + multiset(b)[l[i]];
  }
}
