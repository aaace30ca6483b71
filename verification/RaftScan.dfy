/** checkStoreRaftState of engine/pkg/cli/debug_check_store.go: one pass over the range-id
    local keys that gathers indexes per range, then a check of each range. */
module RaftScan {

  const TWO_64: int := 0x1_0000_0000_0000_0000

  datatype RangeID = RangeID(id: int)

  type Uint64 = x: int | 0 <= x < TWO_64 witness 0

  function Plus1(x: Uint64): Uint64 { (x + 1) % TWO_64 }

  function Minus1(x: Uint64): Uint64 { (x - 1) % TWO_64 }

  datatype Key =
    | HardState(range: RangeID, commit: Uint64)
    | TruncatedState(range: RangeID, index: Uint64)
    | AppliedState(range: RangeID, applied: Uint64)
    | LogEntry(range: RangeID, at: Uint64)
    | OtherKey(range: RangeID)

  /** replicaCheckInfo */
  datatype Info = Info(truncated: Uint64, applied: Uint64, first: Uint64, last: Uint64, committed: Uint64)

  datatype Problem =
    | LogGap(range: RangeID)
    | TruncatedMismatch(range: RangeID)
    | FirstAfterLast(range: RangeID)
    | AppliedOutside(range: RangeID)
    | CommitTrailsApplied(range: RangeID)
    | CommitAheadOfLast(range: RangeID)

  // ---------- what the keys say about one range ----------

  /** The range has a key the scan looks at. */
  predicate Mentioned(keys: seq<Key>, r: RangeID) {
    exists i :: 0 <= i < |keys| && keys[i].range == r && !keys[i].OtherKey?
  }

  function LogOf(keys: seq<Key>, r: RangeID): seq<Uint64> {
    if keys == [] then []
    else
      var k := keys[|keys| - 1];
      LogOf(keys[..|keys| - 1], r) + if k.LogEntry? && k.range == r then [k.at] else []
  }

  function CommittedOf(keys: seq<Key>, r: RangeID): Uint64 {
    if keys == [] then 0
    else
      var k := keys[|keys| - 1];
      if k.HardState? && k.range == r then k.commit else CommittedOf(keys[..|keys| - 1], r)
  }

  function TruncatedOf(keys: seq<Key>, r: RangeID): Uint64 {
    if keys == [] then 0
    else
      var k := keys[|keys| - 1];
      if k.TruncatedState? && k.range == r then k.index else TruncatedOf(keys[..|keys| - 1], r)
  }

  function AppliedOf(keys: seq<Key>, r: RangeID): Uint64 {
    if keys == [] then 0
    else
      var k := keys[|keys| - 1];
      if k.AppliedState? && k.range == r then k.applied else AppliedOf(keys[..|keys| - 1], r)
  }

  /** Index 0 doubles as "no entry yet", so entries at index 0 in front leave no trace. */
  function Seen(log: seq<Uint64>): seq<Uint64> {
    if log == [] then []
    else
      var front := Seen(log[..|log| - 1]);
      if front == [] && log[|log| - 1] == 0 then [] else front + [log[|log| - 1]]
  }

  lemma {:induction false} SeenFirst(log: seq<Uint64>)
    ensures Seen(log) != [] ==> Seen(log)[0] != 0
    ensures (forall i :: 0 <= i < |log| ==> log[i] != 0) ==> Seen(log) == log
  {
    if log != [] {
      SeenFirst(log[..|log| - 1]);
      assert log == log[..|log| - 1] + [log[|log| - 1]];
    }
  }

  predicate Contiguous(log: seq<Uint64>) {
    forall i {:trigger log[i]} :: 0 <= i < |log| - 1 ==> log[i + 1] == Plus1(log[i])
  }

  function First(log: seq<Uint64>): Uint64 { if log == [] then 0 else log[0] }

  function Last(log: seq<Uint64>): Uint64 { if log == [] then 0 else log[|log| - 1] }

  function InfoOf(keys: seq<Key>, r: RangeID): Info {
    var log := Seen(LogOf(keys, r));
    Info(TruncatedOf(keys, r), AppliedOf(keys, r), First(log), Last(log), CommittedOf(keys, r))
  }

  /** When a problem is to be reported. */
  ghost predicate Broken(keys: seq<Key>, p: Problem) {
    var i := InfoOf(keys, p.range);
    && Mentioned(keys, p.range)
    && match p
       case LogGap(_) => !Contiguous(Seen(LogOf(keys, p.range)))
       case TruncatedMismatch(_) => i.truncated != 0 && i.truncated != Minus1(i.first)
       case FirstAfterLast(_) => i.first > i.last
       case AppliedOutside(_) => i.applied < i.first || i.applied > i.last
       case CommitTrailsApplied(_) => i.applied > i.committed
       case CommitAheadOfLast(_) => i.committed > i.last
  }

  // ---------- the scan ----------

  /** What one key does to the record of its range. */
  function Updated(i: Info, k: Key): Info {
    match k
    case HardState(_, commit) => i.(committed := commit)
    case TruncatedState(_, index) => i.(truncated := index)
    case AppliedState(_, applied) => i.(applied := applied)
    case LogEntry(_, at) => if i.first == 0 then i.(first := at, last := at) else i.(last := at)
    case OtherKey(_) => i
  }

  const NO_INFO: Info := Info(0, 0, 0, 0, 0)

  lemma LogAppend(keys: seq<Key>, k: Key, r: RangeID)
    ensures LogOf(keys + [k], r) == if k.LogEntry? && k.range == r then LogOf(keys, r) + [k.at] else LogOf(keys, r)
  {
    assert (keys + [k])[..|keys|] == keys;
  }

  lemma SeenAppend(log: seq<Uint64>, x: Uint64)
    ensures Seen(log + [x]) == if Seen(log) == [] && x == 0 then [] else Seen(log) + [x]
  {
    assert (log + [x])[..|log|] == log;
  }

  lemma ContiguousAppend(s: seq<Uint64>, x: Uint64)
    ensures Contiguous(s + [x]) <==> Contiguous(s) && (s == [] || x == Plus1(Last(s)))
  {
    var t := s + [x];
    assert forall i :: 0 <= i < |s| ==> t[i] == s[i];
    if s != [] {
      assert t[|s| - 1 + 1] == x;
    }
  }

  /** Whatever keys of other ranges stand in between, the record of a range is a function of
      its own keys. */
  lemma UpdateStep(keys: seq<Key>, k: Key, r: RangeID)
    ensures InfoOf(keys + [k], r) == if k.range == r then Updated(InfoOf(keys, r), k) else InfoOf(keys, r)
  {
    assert (keys + [k])[..|keys|] == keys;
    LogAppend(keys, k, r);
    SeenFirst(LogOf(keys, r));
    if k.LogEntry? && k.range == r {
      SeenAppend(LogOf(keys, r), k.at);
    }
  }

  lemma MentionedStep(keys: seq<Key>, k: Key, r: RangeID)
    ensures Mentioned(keys + [k], r) <==> Mentioned(keys, r) || (k.range == r && !k.OtherKey?)
  {
    var more := keys + [k];
    assert more[|keys|] == k;
    if Mentioned(keys, r) {
      var i :| 0 <= i < |keys| && keys[i].range == r && !keys[i].OtherKey?;
      assert more[i] == keys[i];
    }
  }

  predicate ShowsGap(i: Info, k: Key) {
    k.LogEntry? && i.first != 0 && k.at != Plus1(i.last)
  }

  /** A gap shows up exactly when an entry does not follow the last one seen. */
  lemma GapStep(keys: seq<Key>, k: Key, r: RangeID)
    ensures Contiguous(Seen(LogOf(keys + [k], r))) <==>
              Contiguous(Seen(LogOf(keys, r))) && !(k.range == r && ShowsGap(InfoOf(keys, r), k))
  {
    var log := LogOf(keys, r);
    LogAppend(keys, k, r);
    SeenFirst(log);
    if k.LogEntry? && k.range == r {
      SeenAppend(log, k.at);
      ContiguousAppend(Seen(log), k.at);
    }
  }

  /** What the scan has gathered from the keys so far. */
  ghost predicate Gathered(keys: seq<Key>, infos: map<RangeID, Info>, gaps: set<RangeID>) {
    && (forall r :: r in infos <==> Mentioned(keys, r))
    && (forall r :: r in infos ==> infos[r] == InfoOf(keys, r))
    && (forall r :: r in gaps <==> Mentioned(keys, r) && !Contiguous(Seen(LogOf(keys, r))))
  }

  lemma NotMentioned(keys: seq<Key>, r: RangeID)
    requires !Mentioned(keys, r)
    ensures InfoOf(keys, r) == NO_INFO && LogOf(keys, r) == []
  {
    if keys != [] {
      var front := keys[..|keys| - 1];
      assert forall i :: 0 <= i < |front| ==> front[i] == keys[i];
      NotMentioned(front, r);
    }
  }

  /** Gathered, for one range. */
  ghost predicate GatheredAt(keys: seq<Key>, infos: map<RangeID, Info>, gaps: set<RangeID>, r: RangeID) {
    && (r in infos <==> Mentioned(keys, r)) && (r in infos ==> infos[r] == InfoOf(keys, r))
    && (r in gaps <==> Mentioned(keys, r) && !Contiguous(Seen(LogOf(keys, r))))
  }

  lemma GatheredStepAt(keys: seq<Key>, k: Key, infos: map<RangeID, Info>, gaps: set<RangeID>, r: RangeID)
    requires GatheredAt(keys, infos, gaps, r)
    ensures if k.OtherKey? then GatheredAt(keys + [k], infos, gaps, r)
            else
              var before := if k.range in infos then infos[k.range] else NO_INFO;
              GatheredAt(keys + [k], infos[k.range := Updated(before, k)],
                         if ShowsGap(before, k) then gaps + {k.range} else gaps, r)
  {
    if r !in infos {
      NotMentioned(keys, r);
    }
    MentionedStep(keys, k, r);
    UpdateStep(keys, k, r);
    GapStep(keys, k, r);
  }

  lemma GatheredStep(keys: seq<Key>, k: Key, infos: map<RangeID, Info>, gaps: set<RangeID>)
    requires Gathered(keys, infos, gaps)
    ensures if k.OtherKey? then Gathered(keys + [k], infos, gaps)
            else
              var before := if k.range in infos then infos[k.range] else NO_INFO;
              Gathered(keys + [k], infos[k.range := Updated(before, k)],
                       if ShowsGap(before, k) then gaps + {k.range} else gaps)
  {
    var before := if k.range in infos then infos[k.range] else NO_INFO;
    var after := if k.OtherKey? then infos else infos[k.range := Updated(before, k)];
    var shown := if !k.OtherKey? && ShowsGap(before, k) then gaps + {k.range} else gaps;
    forall r ensures GatheredAt(keys + [k], after, shown, r) {
      assert GatheredAt(keys, infos, gaps, r);
      GatheredStepAt(keys, k, infos, gaps, r);
    }
    AllGathered(keys + [k], after, shown);
  }

  lemma AllGathered(keys: seq<Key>, infos: map<RangeID, Info>, gaps: set<RangeID>)
    requires forall r :: GatheredAt(keys, infos, gaps, r)
    ensures Gathered(keys, infos, gaps)
  {
    forall r ensures r in infos <==> Mentioned(keys, r) {
      assert GatheredAt(keys, infos, gaps, r);
    }
    forall r | r in infos ensures infos[r] == InfoOf(keys, r) {
      assert GatheredAt(keys, infos, gaps, r);
    }
    forall r ensures r in gaps <==> Mentioned(keys, r) && !Contiguous(Seen(LogOf(keys, r))) {
      assert GatheredAt(keys, infos, gaps, r);
    }
  }

  /** The iteration over the keys. */
  method Gather(keys: seq<Key>) returns (infos: map<RangeID, Info>, gaps: set<RangeID>)
    ensures Gathered(keys, infos, gaps)
  {
    infos, gaps := map[], {};
    for i := 0 to |keys|
      invariant Gathered(keys[..i], infos, gaps)
    {
      var k := keys[i];
      assert keys[..i + 1] == keys[..i] + [k];
      GatheredStep(keys[..i], k, infos, gaps);
      if !k.OtherKey? {
        var before := if k.range in infos then infos[k.range] else NO_INFO;
        if ShowsGap(before, k) {
          gaps := gaps + {k.range};
        }
        infos := infos[k.range := Updated(before, k)];
      }
    }
    assert keys[..|keys|] == keys;
  }

  /** The checks on one range after the scan. */
  function Complaints(r: RangeID, i: Info): set<Problem> {
    (if i.truncated != 0 && i.truncated != Minus1(i.first) then {TruncatedMismatch(r)} else {})
    + (if i.first > i.last then {FirstAfterLast(r)} else {})
    + (if i.applied < i.first || i.applied > i.last then {AppliedOutside(r)} else {})
    + (if i.applied > i.committed then {CommitTrailsApplied(r)} else {})
    + (if i.committed > i.last then {CommitAheadOfLast(r)} else {})
  }

  lemma ComplaintsMatch(keys: seq<Key>, r: RangeID, i: Info)
    requires Mentioned(keys, r) && i == InfoOf(keys, r)
    ensures forall p :: p in Complaints(r, i) <==> p.range == r && !p.LogGap? && Broken(keys, p)
  {}

  /** What has been reported once the ranges outside todo are done. */
  ghost predicate Reported(keys: seq<Key>, problems: set<Problem>, todo: set<RangeID>) {
    forall p :: p in problems <==> Broken(keys, p) && (p.LogGap? || p.range !in todo)
  }

  lemma ReportStep(keys: seq<Key>, problems: set<Problem>, todo: set<RangeID>, r: RangeID, i: Info)
    requires Reported(keys, problems, todo) && r in todo && Mentioned(keys, r) && i == InfoOf(keys, r)
    ensures Reported(keys, problems + Complaints(r, i), todo - {r})
  {
    ComplaintsMatch(keys, r, i);
  }

  /** checkStoreRaftState: a problem is reported exactly when it is there. */
  method CheckStoreRaftState(keys: seq<Key>) returns (problems: set<Problem>)
    ensures forall p :: p in problems <==> Broken(keys, p)
  {
    var infos, gaps := Gather(keys);
    problems := set r | r in gaps :: LogGap(r);
    var todo: set<RangeID> := infos.Keys;
    while todo != {}
      invariant todo <= infos.Keys
      invariant Reported(keys, problems, todo)
      decreases todo
    {
      var r :| r in todo;   // Go visits the map in any order
      ReportStep(keys, problems, todo, r, infos[r]);
      problems := problems + Complaints(r, infos[r]);
      todo := todo - {r};
    }
  }

  /** What a range without a complaint looks like, with log indexes from 1 and no wrap-around:
      a log without gaps in which first <= applied <= committed <= last, and a truncated index
      that is absent or right before the first. */
  predicate Healthy(keys: seq<Key>, r: RangeID) {
    var log := LogOf(keys, r);
    && Contiguous(log)
    && First(log) <= AppliedOf(keys, r) <= CommittedOf(keys, r) <= Last(log)
    && (TruncatedOf(keys, r) == 0 || TruncatedOf(keys, r) == Minus1(First(log)))
  }

  lemma SilentIffHealthy(keys: seq<Key>)
    requires forall i :: 0 <= i < |keys| && keys[i].LogEntry? ==> keys[i].at >= 1
    ensures (forall p :: !Broken(keys, p)) <==> forall r :: Mentioned(keys, r) ==> Healthy(keys, r)
  {
    forall r ensures Mentioned(keys, r) && Healthy(keys, r) ==> forall p: Problem :: p.range == r ==> !Broken(keys, p) {
      LogPositive(keys, r);
    }
    if forall p :: !Broken(keys, p) {
      forall r | Mentioned(keys, r) ensures Healthy(keys, r) {
        LogPositive(keys, r);
        assert !Broken(keys, LogGap(r)) && !Broken(keys, TruncatedMismatch(r)) && !Broken(keys, AppliedOutside(r));
        assert !Broken(keys, CommitTrailsApplied(r)) && !Broken(keys, CommitAheadOfLast(r));
      }
    }
  }

  lemma {:induction false} LogPositive(keys: seq<Key>, r: RangeID)
    requires forall i :: 0 <= i < |keys| && keys[i].LogEntry? ==> keys[i].at >= 1
    ensures forall i :: 0 <= i < |LogOf(keys, r)| ==> LogOf(keys, r)[i] != 0
    ensures Seen(LogOf(keys, r)) == LogOf(keys, r)
  {
    if keys != [] {
      LogPositive(keys[..|keys| - 1], r);
    }
    SeenFirst(LogOf(keys, r));
  }

  /** An entry at index 0 escapes the scan: for every n > 1 this log has a gap that is not
      reported. */
  lemma IndexZeroHidesGap(r: RangeID, n: Uint64)
    requires n > 1
    ensures var keys := [LogEntry(r, 0)] + [LogEntry(r, n)] + [AppliedState(r, n)] + [HardState(r, n)];
            LogOf(keys, r) == [0, n] && !Contiguous([0, n]) && forall p :: !Broken(keys, p)
  {
    var k1 := [LogEntry(r, 0)];
    var k2 := k1 + [LogEntry(r, n)];
    var k3 := k2 + [AppliedState(r, n)];
    var keys := k3 + [HardState(r, n)];
    assert [] + k1 == k1;
    AppendKey([], LogEntry(r, 0), r);
    AppendKey(k1, LogEntry(r, n), r);
    AppendKey(k2, AppliedState(r, n), r);
    AppendKey(k3, HardState(r, n), r);
    assert InfoOf(keys, r) == Info(0, n, n, n, n);
    var log: seq<Uint64> := [0, n];
    assert log[0 + 1] != Plus1(log[0]);
    assert forall i :: 0 <= i < 4 ==> keys[i].range == r;
  }

  lemma AppendKey(keys: seq<Key>, k: Key, r: RangeID)
    ensures InfoOf(keys + [k], r) == if k.range == r then Updated(InfoOf(keys, r), k) else InfoOf(keys, r)
    ensures LogOf(keys + [k], r) == if k.LogEntry? && k.range == r then LogOf(keys, r) + [k.at] else LogOf(keys, r)
    ensures Contiguous(Seen(LogOf(keys + [k], r))) <==>
              Contiguous(Seen(LogOf(keys, r))) && !(k.range == r && ShowsGap(InfoOf(keys, r), k))
  {
    UpdateStep(keys, k, r);
    LogAppend(keys, k, r);
    GapStep(keys, k, r);
  }

  /** The log without the zeros in front. */
  function Trimmed(log: seq<Uint64>): seq<Uint64> {
    if log != [] && log[0] == 0 then Trimmed(log[1..]) else log
  }

  lemma {:induction false} TrimmedAppend(log: seq<Uint64>, x: Uint64)
    ensures Trimmed(log + [x]) == if Trimmed(log) == [] && x == 0 then [] else Trimmed(log) + [x]
  {
    if log == [] {
      assert log + [x] == [x] && [x][1..] == [];
    } else {
      assert (log + [x])[1..] == log[1..] + [x];
      TrimmedAppend(log[1..], x);
    }
  }

  lemma {:induction false} SeenIsTrimmed(log: seq<Uint64>)
    ensures Seen(log) == Trimmed(log)
  {
    if log != [] {
      var n := |log| - 1;
      SeenIsTrimmed(log[..n]);
      assert log == log[..n] + [log[n]];
      TrimmedAppend(log[..n], log[n]);
    }
  }

  lemma ContiguousTail(log: seq<Uint64>)
    requires |log| >= 2
    ensures Contiguous(log) <==> log[1] == Plus1(log[0]) && Contiguous(log[1..])
  {
    if log[1] == Plus1(log[0]) && Contiguous(log[1..]) {
      forall i {:trigger log[i]} | 0 <= i < |log| - 1 ensures log[i + 1] == Plus1(log[i]) {
        assert i > 0 ==> log[1..][i - 1] == log[i] && log[1..][i - 1 + 1] == log[i + 1];
      }
    }
    if Contiguous(log) {
      assert log[0 + 1] == Plus1(log[0]);
      forall i {:trigger log[1..][i]} | 0 <= i < |log[1..]| - 1 ensures log[1..][i + 1] == Plus1(log[1..][i]) {
        assert log[i + 1 + 1] == Plus1(log[i + 1]);
      }
    }
  }

  /** For every log: the scan sees a gap exactly when there is one, unless the log starts with
      index 0, does not go on with index 1, and is without a gap behind its zeros. */
  lemma GapSeenExact(log: seq<Uint64>)
    ensures (Contiguous(Seen(log)) <==> Contiguous(log))
      <==> !(|log| >= 2 && log[0] == 0 && log[1] != 1 && Contiguous(Trimmed(log)))
  {
    SeenIsTrimmed(log);
    if |log| >= 2 && log[0] == 0 {
      ContiguousTail(log);
      if log[1] == 1 {
        assert Trimmed(log) == log[1..];
      }
    }
  }
}
