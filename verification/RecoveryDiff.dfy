/** diffPlanWithNodeStatus and the verdict of runDebugVerify in
    engine/pkg/cli/debug_recover_loss_of_quorum.go. */
module RecoveryDiff {
  import opened Common
  import Sorting

  datatype NodeID = NodeID(id: int)

  type PlanID = int

  /** loqrecoverypb.NodeRecoveryStatus */
  datatype Status = Status(node: NodeID, pending: Option<PlanID>, applied: Option<PlanID>, error: string)

  datatype Plan = Plan(id: PlanID, updates: seq<NodeID>, staleLeaseholders: seq<NodeID>)

  /** The kinds of report line; the text of a line follows from its kind and node. */
  datatype Kind =
    | ApplyFailed | AppliedOk | StillPending | OtherPlanStaged | NothingStaged
    | StagedUnplanned | NodeMissing
    | InfoStaged | InfoFailed | InfoApplied

  datatype Line = Line(node: NodeID, kind: Kind)

  predicate IsError(k: Kind) {
    k in {ApplyFailed, OtherPlanStaged, NothingStaged, StagedUnplanned, NodeMissing}
  }

  /** clusterDiff */
  datatype Diff = Diff(report: seq<Line>, pending: nat, errors: nat)

  /** append, appendPending and appendError by the kind of the line. */
  function Add(d: Diff, l: Line): Diff {
    Diff(d.report + [l],
         d.pending + if l.kind == StillPending then 1 else 0,
         d.errors + if IsError(l.kind) then 1 else 0)
  }

  /** The nodes that must have the plan. */
  function Planned(plan: Plan): set<NodeID> {
    (set i | 0 <= i < |plan.updates| :: plan.updates[i])
    + (set i | 0 <= i < |plan.staleLeaseholders| :: plan.staleLeaseholders[i])
  }

  // ---------- the line for one status ----------

  /** The switch for a node that must have the plan: always one line. */
  function ExpectedLine(plan: Plan, s: Status): Line {
    Line(s.node,
         if s.applied == Some(plan.id) && s.error != "" then ApplyFailed
         else if s.applied == Some(plan.id) then AppliedOk
         else if s.pending == Some(plan.id) then StillPending
         else if s.pending.Some? then OtherPlanStaged
         else NothingStaged)
  }

  /** The switch for any other node: a line only if something is staged. */
  function UnexpectedLine(plan: Plan, s: Status): Option<Line> {
    if s.pending == Some(plan.id) then Some(Line(s.node, StagedUnplanned))
    else if s.pending.Some? then Some(Line(s.node, OtherPlanStaged))
    else None
  }

  /** What one status adds while the nodes of `awaited` have not been seen yet. */
  function StatusLines(plan: Plan, awaited: set<NodeID>, s: Status): seq<Line> {
    if s.node in awaited then [ExpectedLine(plan, s)]
    else if UnexpectedLine(plan, s).Some? then [UnexpectedLine(plan, s).value]
    else []
  }

  /** The lines for a list of statuses: a node is awaited until its first status. */
  function StatusReport(plan: Plan, awaited: set<NodeID>, nodes: seq<Status>): seq<Line> {
    if nodes == [] then []
    else
      var last := nodes[|nodes| - 1];
      var front := nodes[..|nodes| - 1];
      StatusReport(plan, awaited, front) + StatusLines(plan, awaited - NodesOf(front), last)
  }

  function NodesOf(nodes: seq<Status>): set<NodeID> {
    set i | 0 <= i < |nodes| :: nodes[i].node
  }

  function MissingReport(missing: seq<NodeID>): seq<Line> {
    seq(|missing|, i requires 0 <= i < |missing| => Line(missing[i], NodeMissing))
  }

  // ---------- reading a report ----------

  /** The lines about one node. */
  function LinesOf(report: seq<Line>, n: NodeID): seq<Line> {
    if report == [] then []
    else
      var last := report[|report| - 1];
      LinesOf(report[..|report| - 1], n) + if last.node == n then [last] else []
  }

  function Pending(report: seq<Line>): nat {
    if report == [] then 0
    else Pending(report[..|report| - 1]) + if report[|report| - 1].kind == StillPending then 1 else 0
  }

  function Errors(report: seq<Line>): nat {
    if report == [] then 0
    else Errors(report[..|report| - 1]) + if IsError(report[|report| - 1].kind) then 1 else 0
  }

  predicate WellCounted(d: Diff) {
    d.pending == Pending(d.report) && d.errors == Errors(d.report)
  }

  lemma AddCounts(d: Diff, l: Line)
    requires WellCounted(d)
    ensures WellCounted(Add(d, l))
  {
    assert (d.report + [l])[..|d.report|] == d.report;
  }

  lemma {:induction false} LinesAppend(a: seq<Line>, b: seq<Line>, n: NodeID)
    ensures LinesOf(a + b, n) == LinesOf(a, n) + LinesOf(b, n)
  {
    if b == [] {
      assert a + b == a;
    } else {
      var k := |b| - 1;
      LinesAppend(a, b[..k], n);
      assert (a + b)[..|a + b| - 1] == a + b[..k];
    }
  }

  lemma {:induction false} LinesAre(report: seq<Line>, n: NodeID, l: Line)
    ensures l in LinesOf(report, n) <==> l in report && l.node == n
  {
    if report != [] {
      var k := |report| - 1;
      LinesAre(report[..k], n, l);
      assert report == report[..k] + [report[k]];
    }
  }

  lemma {:induction false} CountsAre(report: seq<Line>)
    ensures Pending(report) == 0 <==> forall l :: l in report ==> l.kind != StillPending
    ensures Errors(report) == 0 <==> forall l :: l in report ==> !IsError(l.kind)
  {
    if report != [] {
      var k := |report| - 1;
      CountsAre(report[..k]);
      assert report == report[..k] + [report[k]];
      assert report[k] in report;
    }
  }

  // ---------- statuses with distinct nodes ----------

  predicate Distinct(nodes: seq<Status>) {
    forall i, j :: 0 <= i < j < |nodes| ==> nodes[i].node != nodes[j].node
  }

  lemma {:induction false} OnceEach(nodes: seq<Status>, s: Status)
    requires Distinct(nodes)
    ensures multiset(nodes)[s] <= 1
  {
    if nodes != [] {
      var k := |nodes| - 1;
      OnceEach(nodes[..k], s);
      assert nodes == nodes[..k] + [nodes[k]];
      if nodes[k] == s {
        assert s !in nodes[..k];
      }
    }
  }

  /** Distinctness does not depend on the order. */
  lemma DistinctPermuted(a: seq<Status>, b: seq<Status>)
    requires multiset(a) == multiset(b) && Distinct(a)
    ensures Distinct(b)
  {
    forall i, j | 0 <= i < j < |b| ensures b[i].node != b[j].node {
      OnceEach(a, b[i]);
      Sorting.Repeated(b, i, j);
      assert b[i] in multiset(a) && b[j] in multiset(a);
    }
  }

  lemma OwnLines(plan: Plan, awaited: set<NodeID>, s: Status, n: NodeID)
    ensures LinesOf(StatusLines(plan, awaited, s), n) == if s.node == n then StatusLines(plan, awaited, s) else []
  {
    var lines := StatusLines(plan, awaited, s);
    assert lines != [] ==> lines == [lines[0]] && lines[..0] == [];
  }

  lemma NodesStep(nodes: seq<Status>, i: nat)
    requires i < |nodes|
    ensures NodesOf(nodes[..i + 1]) == NodesOf(nodes[..i]) + {nodes[i].node}
  {
    assert forall k :: 0 <= k < i ==> nodes[..i + 1][k] == nodes[..i][k];
  }

  /** The report of one more status. */
  lemma ReportStep(plan: Plan, awaited: set<NodeID>, nodes: seq<Status>, n: NodeID)
    requires Distinct(nodes) && nodes != []
    ensures var k := |nodes| - 1;
      LinesOf(StatusReport(plan, awaited, nodes), n)
      == LinesOf(StatusReport(plan, awaited, nodes[..k]), n)
         + if nodes[k].node == n then StatusLines(plan, awaited, nodes[k]) else []
  {
    var k := |nodes| - 1;
    var front, last := nodes[..k], nodes[k];
    assert last.node !in NodesOf(front);
    LinesAppend(StatusReport(plan, awaited, front), StatusLines(plan, awaited, last), n);
    OwnLines(plan, awaited, last, n);
  }

  /** A node that does not report has no line. */
  lemma {:induction false} ReportAbsent(plan: Plan, awaited: set<NodeID>, nodes: seq<Status>, n: NodeID)
    requires Distinct(nodes) && n !in NodesOf(nodes)
    ensures LinesOf(StatusReport(plan, awaited, nodes), n) == []
  {
    if nodes != [] {
      ReportStep(plan, awaited, nodes, n);
      NodesStep(nodes, |nodes| - 1);
      assert nodes[..|nodes|] == nodes;
      ReportAbsent(plan, awaited, nodes[..|nodes| - 1], n);
    }
  }

  /** A node that reports gets the lines of its status. */
  lemma {:induction false} ReportPresent(plan: Plan, awaited: set<NodeID>, nodes: seq<Status>, i: nat)
    requires Distinct(nodes) && i < |nodes|
    ensures LinesOf(StatusReport(plan, awaited, nodes), nodes[i].node) == StatusLines(plan, awaited, nodes[i])
  {
    var k := |nodes| - 1;
    ReportStep(plan, awaited, nodes, nodes[i].node);
    if i == k {
      ReportAbsent(plan, awaited, nodes[..k], nodes[i].node);
    } else {
      ReportPresent(plan, awaited, nodes[..k], i);
    }
  }

  lemma {:induction false} MissingPerNode(missing: seq<NodeID>, n: NodeID)
    requires forall i, j :: 0 <= i < j < |missing| ==> missing[i] != missing[j]
    ensures LinesOf(MissingReport(missing), n) == if n in missing then [Line(n, NodeMissing)] else []
  {
    if missing != [] {
      var k := |missing| - 1;
      MissingPerNode(missing[..k], n);
      assert missing == missing[..k] + [missing[k]];
      assert MissingReport(missing)[..k] == MissingReport(missing[..k]);
    }
  }

  // ---------- the comparison ----------

  predicate ByNode(a: Status, b: Status) { a.node.id <= b.node.id }

  predicate ById(a: NodeID, b: NodeID) { a.id <= b.id }

  predicate ByLine(a: Line, b: Line) { a.node.id <= b.node.id }

  /** sort.Slice by node id: which of two statuses of one node comes first is open. */
  method SortStatuses(nodes: seq<Status>) returns (r: seq<Status>)
    ensures Sorting.SortedBy(r, ByNode) && multiset(r) == multiset(nodes)
  {
    Sorting.SortSorts(nodes, ByNode);
    r := Sorting.Sort(nodes, ByNode);
  }

  /** The nodes left in the map, in ascending order. */
  method SortedMissing(awaited: set<NodeID>) returns (missing: seq<NodeID>)
    ensures forall n :: n in missing <==> n in awaited
    ensures forall i, j :: 0 <= i < j < |missing| ==> missing[i].id < missing[j].id
  {
    var left, listed := awaited, [];
    while left != {}
      invariant left <= awaited
      invariant forall n :: n in listed <==> n in awaited && n !in left
      invariant forall n :: multiset(listed)[n] <= 1
      decreases left
    {
      var n :| n in left;
      assert n !in multiset(listed);
      listed, left := listed + [n], left - {n};
    }
    Sorting.SortSorts(listed, ById);
    Sorting.SameElements(listed, ById);
    missing := Sorting.Sort(listed, ById);
    forall i, j | 0 <= i < j < |missing| ensures missing[i].id < missing[j].id {
      Sorting.Repeated(missing, i, j);
    }
  }

  /** The lines about statuses come first, by ascending node id, then the missing nodes, also by
      ascending node id. */
  ghost predicate InReportOrder(report: seq<Line>) {
    exists k :: 0 <= k <= |report|
      && Sorting.SortedBy(report[..k], ByLine) && Sorting.SortedBy(report[k..], ByLine)
      && forall i :: 0 <= i < |report| ==> (report[i].kind == NodeMissing <==> k <= i)
  }

  lemma AddedSorted(front: seq<Line>, added: seq<Line>, n: NodeID)
    requires Sorting.SortedBy(front, ByLine) && forall l :: l in front ==> l.node.id <= n.id
    requires forall l :: l in added ==> l.node == n
    ensures Sorting.SortedBy(front + added, ByLine)
    ensures forall l :: l in front + added ==> l.node.id <= n.id
  {
    assert forall i :: 0 <= i < |front| ==> front[i] in front;
    assert forall i :: 0 <= i < |added| ==> added[i] in added;
  }

  lemma {:induction false} ReportSorted(plan: Plan, awaited: set<NodeID>, nodes: seq<Status>)
    requires Sorting.SortedBy(nodes, ByNode)
    ensures var report := StatusReport(plan, awaited, nodes);
      && Sorting.SortedBy(report, ByLine)
      && (forall l :: l in report ==> l.kind != NodeMissing)
      && (nodes != [] ==> forall l :: l in report ==> l.node.id <= nodes[|nodes| - 1].node.id)
  {
    if nodes != [] {
      var k := |nodes| - 1;
      ReportSorted(plan, awaited, nodes[..k]);
      assert k > 0 ==> ByNode(nodes[k - 1], nodes[k]);
      AddedSorted(StatusReport(plan, awaited, nodes[..k]),
                  StatusLines(plan, awaited - NodesOf(nodes[..k]), nodes[k]), nodes[k].node);
    }
  }

  lemma JoinedInOrder(a: seq<Line>, b: seq<Line>)
    requires Sorting.SortedBy(a, ByLine) && Sorting.SortedBy(b, ByLine)
    requires forall i :: 0 <= i < |a| ==> a[i].kind != NodeMissing
    requires forall i :: 0 <= i < |b| ==> b[i].kind == NodeMissing
    ensures InReportOrder(a + b)
  {
    var report := a + b;
    assert report[..|a|] == a && report[|a|..] == b;
    assert forall i :: 0 <= i < |report| ==> (report[i].kind == NodeMissing <==> |a| <= i);
  }

  lemma ReportInOrder(plan: Plan, sorted: seq<Status>, missing: seq<NodeID>)
    requires Sorting.SortedBy(sorted, ByNode)
    requires forall i, j :: 0 <= i < j < |missing| ==> missing[i].id < missing[j].id
    ensures InReportOrder(StatusReport(plan, Planned(plan), sorted) + MissingReport(missing))
  {
    var a := StatusReport(plan, Planned(plan), sorted);
    ReportSorted(plan, Planned(plan), sorted);
    assert forall i :: 0 <= i < |a| ==> a[i] in a;
    JoinedInOrder(a, MissingReport(missing));
  }

  /** One line per node, read off the status of that node. */
  ghost predicate LinesDue(plan: Plan, nodes: seq<Status>, report: seq<Line>) {
    && (forall s :: s in nodes ==> LinesOf(report, s.node) == StatusLines(plan, Planned(plan), s))
    && (forall n :: n !in NodesOf(nodes) ==>
         LinesOf(report, n) == if n in Planned(plan) then [Line(n, NodeMissing)] else [])
  }

  lemma DueLines(plan: Plan, nodes: seq<Status>, sorted: seq<Status>, missing: seq<NodeID>)
    requires Distinct(nodes) && multiset(nodes) == multiset(sorted)
    requires forall n :: n in missing <==> n in Planned(plan) - NodesOf(sorted)
    requires forall i, j :: 0 <= i < j < |missing| ==> missing[i].id < missing[j].id
    ensures LinesDue(plan, nodes, StatusReport(plan, Planned(plan), sorted) + MissingReport(missing))
  {
    var a, b := StatusReport(plan, Planned(plan), sorted), MissingReport(missing);
    DistinctPermuted(nodes, sorted);
    SameNodes(nodes, sorted);
    forall n
      ensures LinesOf(a + b, n) == LinesOf(a, n) + if n in missing then [Line(n, NodeMissing)] else []
    {
      LinesAppend(a, b, n);
      MissingPerNode(missing, n);
    }
    forall s | s in nodes ensures LinesOf(a + b, s.node) == StatusLines(plan, Planned(plan), s) {
      assert s in multiset(sorted);
      var i :| 0 <= i < |sorted| && sorted[i] == s;
      ReportPresent(plan, Planned(plan), sorted, i);
    }
    forall n | n !in NodesOf(nodes) ensures LinesOf(a, n) == [] {
      ReportAbsent(plan, Planned(plan), sorted, n);
    }
  }

  lemma SameNodes(a: seq<Status>, b: seq<Status>)
    requires multiset(a) == multiset(b)
    ensures NodesOf(a) == NodesOf(b)
  {
    forall i | 0 <= i < |a| ensures a[i].node in NodesOf(b) {
      assert a[i] in multiset(b);
    }
    forall i | 0 <= i < |b| ensures b[i].node in NodesOf(a) {
      assert b[i] in multiset(a);
    }
  }

  /** The two switches of the loop over the statuses. */
  method Judge(plan: Plan, awaited: set<NodeID>, before: Diff, s: Status) returns (d: Diff)
    requires WellCounted(before)
    ensures WellCounted(d) && d.report == before.report + StatusLines(plan, awaited, s)
  {
    if s.node in awaited {
      AddCounts(before, ExpectedLine(plan, s));
      return Add(before, ExpectedLine(plan, s));
    }
    var line := UnexpectedLine(plan, s);
    if line.None? {
      return before;
    }
    AddCounts(before, line.value);
    return Add(before, line.value);
  }

  method ReportMissing(before: Diff, missing: seq<NodeID>) returns (d: Diff)
    requires WellCounted(before)
    ensures WellCounted(d) && d.report == before.report + MissingReport(missing)
  {
    d := before;
    for i := 0 to |missing|
      invariant WellCounted(d) && d.report == before.report + MissingReport(missing[..i])
    {
      assert MissingReport(missing[..i + 1]) == MissingReport(missing[..i]) + [Line(missing[i], NodeMissing)];
      AddCounts(d, Line(missing[i], NodeMissing));
      d := Add(d, Line(missing[i], NodeMissing));
    }
    assert missing[..|missing|] == missing;
  }

  /** diffPlanWithNodeStatus with a plan that touches some node. */
  method DiffWithPlan(plan: Plan, nodes: seq<Status>) returns (d: Diff)
    requires Planned(plan) != {}
    ensures WellCounted(d) && InReportOrder(d.report)
    ensures Distinct(nodes) ==> LinesDue(plan, nodes, d.report)
  {
    var sorted := SortStatuses(nodes);
    d := Diff([], 0, 0);
    var awaited := Planned(plan);
    for i := 0 to |sorted|
      invariant WellCounted(d) && awaited == Planned(plan) - NodesOf(sorted[..i])
      invariant d.report == StatusReport(plan, Planned(plan), sorted[..i])
    {
      NodesStep(sorted, i);
      assert sorted[..i + 1][..i] == sorted[..i];
      d := Judge(plan, awaited, d, sorted[i]);
      awaited := awaited - {sorted[i].node};
    }
    assert sorted[..|sorted|] == sorted;
    var missing := SortedMissing(awaited);
    d := ReportMissing(d, missing);
    ReportInOrder(plan, sorted, missing);
    if Distinct(nodes) {
      DueLines(plan, nodes, sorted, missing);
    }
  }

  /** What "applied" means, independently of the report: every planned node reports this plan
      applied without an error and no other node has any plan staged. */
  ghost predicate AppliedEverywhere(plan: Plan, nodes: seq<Status>) {
    && (forall n :: n in Planned(plan) ==>
         exists s :: s in nodes && s.node == n && s.applied == Some(plan.id) && s.error == "")
    && (forall s :: s in nodes && s.node !in Planned(plan) ==> s.pending.None?)
  }

  /** Some planned node still waits, none has failed. */
  ghost predicate NothingFailed(plan: Plan, nodes: seq<Status>) {
    && (forall n :: n in Planned(plan) ==>
         exists s :: s in nodes && s.node == n
           && if s.applied == Some(plan.id) then s.error == "" else s.pending == Some(plan.id))
    && (forall s :: s in nodes && s.node !in Planned(plan) ==> s.pending.None?)
  }

  lemma LineOfNode(plan: Plan, nodes: seq<Status>, report: seq<Line>, l: Line)
    requires LinesDue(plan, nodes, report)
    ensures l in report ==>
      (exists s :: s in nodes && s.node == l.node && l in StatusLines(plan, Planned(plan), s))
      || (l.node in Planned(plan) && l.node !in NodesOf(nodes) && l.kind == NodeMissing)
  {
    LinesAre(report, l.node, l);
    if l in report && l.node in NodesOf(nodes) {
      var i :| 0 <= i < |nodes| && nodes[i].node == l.node;
      assert nodes[i] in nodes;
    }
  }

  /** A property of all lines, node by node. */
  lemma AllLines(plan: Plan, nodes: seq<Status>, report: seq<Line>, p: Line -> bool)
    requires LinesDue(plan, nodes, report)
    ensures (forall l :: l in report ==> p(l)) <==>
      && (forall s, l :: s in nodes && l in StatusLines(plan, Planned(plan), s) ==> p(l))
      && (forall n :: n in Planned(plan) && n !in NodesOf(nodes) ==> p(Line(n, NodeMissing)))
  {
    forall l | l in report
      ensures (exists s :: s in nodes && s.node == l.node && l in StatusLines(plan, Planned(plan), s))
        || (l.node in Planned(plan) && l.node !in NodesOf(nodes) && l.kind == NodeMissing)
    {
      LineOfNode(plan, nodes, report, l);
    }
    forall s, l | s in nodes && l in StatusLines(plan, Planned(plan), s) ensures l in report {
      LinesAre(report, s.node, l);
    }
    forall n | n in Planned(plan) && n !in NodesOf(nodes) ensures Line(n, NodeMissing) in report {
      LinesAre(report, n, Line(n, NodeMissing));
    }
  }

  /** All lines pass exactly when every planned node reports a status whose line passes and every
      other status passes; a missing node never does. */
  lemma ByStatus(plan: Plan, nodes: seq<Status>, report: seq<Line>, p: Line -> bool)
    requires Distinct(nodes) && LinesDue(plan, nodes, report)
    requires forall n :: !p(Line(n, NodeMissing))
    ensures (forall l :: l in report ==> p(l)) <==>
      && (forall n :: n in Planned(plan) ==> exists s :: s in nodes && s.node == n && p(ExpectedLine(plan, s)))
      && (forall s :: s in nodes && s.node !in Planned(plan) ==>
           UnexpectedLine(plan, s).None? || p(UnexpectedLine(plan, s).value))
  {
    AllLines(plan, nodes, report, p);
    forall s | s in nodes
      ensures (forall l :: l in StatusLines(plan, Planned(plan), s) ==> p(l)) <==>
        if s.node in Planned(plan) then p(ExpectedLine(plan, s))
        else UnexpectedLine(plan, s).None? || p(UnexpectedLine(plan, s).value)
    {
      assert s.node in Planned(plan) ==> ExpectedLine(plan, s) in StatusLines(plan, Planned(plan), s);
      assert s.node !in Planned(plan) && UnexpectedLine(plan, s).Some? ==>
          UnexpectedLine(plan, s).value in StatusLines(plan, Planned(plan), s);
    }
    forall n | n in NodesOf(nodes) ensures exists s :: s in nodes && s.node == n {
      var i :| 0 <= i < |nodes| && nodes[i].node == n;
      assert nodes[i] in nodes;
    }
    forall s | s in nodes ensures s.node in NodesOf(nodes) {
    }
    forall a, b | a in nodes && b in nodes && a.node == b.node ensures a == b {
    }
  }

  /** No error line stands in the report exactly when nothing failed. */
  lemma ErrorsDecide(plan: Plan, nodes: seq<Status>, report: seq<Line>)
    requires Distinct(nodes) && LinesDue(plan, nodes, report)
    ensures Errors(report) == 0 <==> NothingFailed(plan, nodes)
  {
    CountsAre(report);
    ByStatus(plan, nodes, report, (l: Line) => !IsError(l.kind));
  }

  /** Neither an error nor a pending line stands in it exactly when the plan is applied. */
  lemma CountsDecide(plan: Plan, nodes: seq<Status>, report: seq<Line>)
    requires Distinct(nodes) && LinesDue(plan, nodes, report)
    ensures Errors(report) == 0 && Pending(report) == 0 <==> AppliedEverywhere(plan, nodes)
  {
    CountsAre(report);
    ByStatus(plan, nodes, report, (l: Line) => !IsError(l.kind) && l.kind != StillPending);
  }

  /** Some planned node has the plan staged and not applied. */
  ghost predicate Waiting(plan: Plan, nodes: seq<Status>) {
    exists s :: s in nodes && s.node in Planned(plan)
      && s.applied != Some(plan.id) && s.pending == Some(plan.id)
  }

  lemma PendingDecides(plan: Plan, nodes: seq<Status>, report: seq<Line>)
    requires Distinct(nodes) && LinesDue(plan, nodes, report)
    ensures Pending(report) > 0 <==> Waiting(plan, nodes)
  {
    CountsAre(report);
    var p := (l: Line) => l.kind != StillPending;
    AllLines(plan, nodes, report, p);
    forall s | s in nodes
      ensures (forall l :: l in StatusLines(plan, Planned(plan), s) ==> p(l)) <==>
        !(s.node in Planned(plan) && s.applied != Some(plan.id) && s.pending == Some(plan.id))
    {
      assert s.node in Planned(plan) ==> ExpectedLine(plan, s) in StatusLines(plan, Planned(plan), s);
    }
    assert (forall l :: l in report ==> p(l)) <==> (forall l :: l in report ==> l.kind != StillPending);
  }

  // ---------- without a plan ----------

  function InfoLines(s: Status): seq<Line> {
    (if s.pending.Some? then [Line(s.node, InfoStaged)] else [])
    + if s.error != "" then [Line(s.node, InfoFailed)]
      else if s.applied.Some? then [Line(s.node, InfoApplied)]
      else []
  }

  function InfoReport(nodes: seq<Status>): seq<Line> {
    if nodes == [] then [] else InfoReport(nodes[..|nodes| - 1]) + InfoLines(nodes[|nodes| - 1])
  }

  lemma LineOwn(l: Line, n: NodeID)
    ensures LinesOf([l], n) == if l.node == n then [l] else []
  {
    assert [l][..0] == [];
  }

  lemma InfoOwn(s: Status, n: NodeID)
    ensures LinesOf(InfoLines(s), n) == if s.node == n then InfoLines(s) else []
  {
    var staged, failed, applied := Line(s.node, InfoStaged), Line(s.node, InfoFailed), Line(s.node, InfoApplied);
    LineOwn(staged, n);
    LineOwn(failed, n);
    LineOwn(applied, n);
    LinesAppend(if s.pending.Some? then [staged] else [],
                if s.error != "" then [failed] else if s.applied.Some? then [applied] else [], n);
  }

  lemma InfoStep(nodes: seq<Status>, n: NodeID)
    requires nodes != []
    ensures var k := |nodes| - 1;
      LinesOf(InfoReport(nodes), n)
      == LinesOf(InfoReport(nodes[..k]), n) + if nodes[k].node == n then InfoLines(nodes[k]) else []
  {
    var k := |nodes| - 1;
    LinesAppend(InfoReport(nodes[..k]), InfoLines(nodes[k]), n);
    InfoOwn(nodes[k], n);
  }

  lemma {:induction false} InfoAbsent(nodes: seq<Status>, n: NodeID)
    requires n !in NodesOf(nodes)
    ensures LinesOf(InfoReport(nodes), n) == []
  {
    if nodes != [] {
      InfoStep(nodes, n);
      NodesStep(nodes, |nodes| - 1);
      assert nodes[..|nodes|] == nodes;
      InfoAbsent(nodes[..|nodes| - 1], n);
    }
  }

  lemma {:induction false} InfoPresent(nodes: seq<Status>, i: nat)
    requires Distinct(nodes) && i < |nodes|
    ensures LinesOf(InfoReport(nodes), nodes[i].node) == InfoLines(nodes[i])
  {
    var k := |nodes| - 1;
    InfoStep(nodes, nodes[i].node);
    if i == k {
      InfoAbsent(nodes[..k], nodes[i].node);
    } else {
      InfoPresent(nodes[..k], i);
    }
  }

  lemma {:induction false} InfoSorted(nodes: seq<Status>)
    requires Sorting.SortedBy(nodes, ByNode)
    ensures var report := InfoReport(nodes);
      && Sorting.SortedBy(report, ByLine)
      && (nodes != [] ==> forall l :: l in report ==> l.node.id <= nodes[|nodes| - 1].node.id)
  {
    if nodes != [] {
      var k := |nodes| - 1;
      InfoSorted(nodes[..k]);
      assert k > 0 ==> ByNode(nodes[k - 1], nodes[k]);
      AddedSorted(InfoReport(nodes[..k]), InfoLines(nodes[k]), nodes[k].node);
    }
  }

  /** diffPlanWithNodeStatus without a plan: everything is shown, by ascending node id, and
      nothing is concluded. */
  method DiffWithoutPlan(nodes: seq<Status>) returns (d: Diff)
    ensures d.pending == 0 && d.errors == 0 && Sorting.SortedBy(d.report, ByLine)
    ensures Distinct(nodes) ==> forall s :: s in nodes ==> LinesOf(d.report, s.node) == InfoLines(s)
    ensures Distinct(nodes) ==> forall n :: n !in NodesOf(nodes) ==> LinesOf(d.report, n) == []
  {
    var sorted := SortStatuses(nodes);
    d := Diff([], 0, 0);
    for i := 0 to |sorted|
      invariant d.pending == 0 && d.errors == 0 && d.report == InfoReport(sorted[..i])
    {
      assert sorted[..i + 1][..i] == sorted[..i];
      d := Diff(d.report + InfoLines(sorted[i]), d.pending, d.errors);
    }
    assert sorted[..|sorted|] == sorted;
    InfoSorted(sorted);
    if Distinct(nodes) {
      DistinctPermuted(nodes, sorted);
      SameNodes(nodes, sorted);
      forall s | s in nodes ensures LinesOf(d.report, s.node) == InfoLines(s) {
        assert s in multiset(sorted);
        var i :| 0 <= i < |sorted| && sorted[i] == s;
        InfoPresent(sorted, i);
      }
      forall n | n !in NodesOf(nodes) ensures LinesOf(d.report, n) == [] {
        InfoAbsent(sorted, n);
      }
    }
  }

  method DiffPlanWithNodeStatus(plan: Plan, nodes: seq<Status>) returns (d: Diff)
    ensures Planned(plan) == {} ==> d.pending == 0 && d.errors == 0 && Sorting.SortedBy(d.report, ByLine)
    ensures Planned(plan) == {} && Distinct(nodes) ==>
      && (forall s :: s in nodes ==> LinesOf(d.report, s.node) == InfoLines(s))
      && (forall n :: n !in NodesOf(nodes) ==> LinesOf(d.report, n) == [])
    ensures Planned(plan) != {} && Distinct(nodes) ==>
      WellCounted(d) && InReportOrder(d.report) && LinesDue(plan, nodes, d.report)
  {
    if Planned(plan) != {} {
      d := DiffWithPlan(plan, nodes);
    } else {
      d := DiffWithoutPlan(nodes);
    }
  }

  // ---------- the command's answer ----------

  datatype Answer = Complete | NotFinished | NotSucceeded | Unhealthy | NothingWrong

  /** runDebugVerify after the server has answered. `decommissioned` says that every dead node is
      decommissioned and `healthy` that no range is unavailable. */
  method Verify(plan: Plan, nodes: seq<Status>, decommissioned: bool, healthy: bool) returns (a: Answer)
    ensures Distinct(nodes) && plan.updates != [] ==>
      && (a == NotFinished <==> !decommissioned || Waiting(plan, nodes))
      && (a == Complete <==> decommissioned && healthy && AppliedEverywhere(plan, nodes))
      && a in {NotFinished, NotSucceeded, Complete}
    ensures Distinct(nodes) && plan.updates == [] && plan.staleLeaseholders != [] ==>
      a == if healthy && NothingFailed(plan, nodes) then NothingWrong else Unhealthy
    ensures plan.updates == [] && plan.staleLeaseholders == [] ==>
      a == if healthy then NothingWrong else Unhealthy
  {
    var d := DiffPlanWithNodeStatus(plan, nodes);
    assert plan.updates != [] ==> plan.updates[0] in Planned(plan);
    assert plan.staleLeaseholders != [] ==> plan.staleLeaseholders[0] in Planned(plan);
    if Planned(plan) != {} && Distinct(nodes) {
      ErrorsDecide(plan, nodes, d.report);
      CountsDecide(plan, nodes, d.report);
      PendingDecides(plan, nodes, d.report);
    }
    if |plan.updates| > 0 {
      if !decommissioned || d.pending > 0 {
        return NotFinished;
      }
      if d.errors > 0 || !healthy {
        return NotSucceeded;
      }
      return Complete;
    }
    if d.errors > 0 || !healthy {
      return Unhealthy;
    }
    return NothingWrong;
  }

  /** Nothing has failed: then the plan is applied exactly when no planned node still waits. */
  lemma AppliedUnlessWaiting(plan: Plan, nodes: seq<Status>)
    requires Distinct(nodes)
    ensures AppliedEverywhere(plan, nodes) <==> NothingFailed(plan, nodes) && !Waiting(plan, nodes)
  {
    if NothingFailed(plan, nodes) && !Waiting(plan, nodes) {
      forall n | n in Planned(plan)
        ensures exists s :: s in nodes && s.node == n && s.applied == Some(plan.id) && s.error == ""
      {
        var s :| s in nodes && s.node == n
          && if s.applied == Some(plan.id) then s.error == "" else s.pending == Some(plan.id);
        assert s.applied == Some(plan.id);
      }
    }
  }

  /** A plan that only renews leaseholders is answered with NothingWrong while every node it names
      still waits for it, whether or not the other nodes are decommissioned. */
  method LeaseholderPlanNotAwaited(id: int, node: NodeID, decommissioned: bool)
    returns (plan: Plan, nodes: seq<Status>, a: Answer)
    ensures plan == Plan(id, [], [node]) && nodes == [Status(node, Some(id), None, "")] && a == NothingWrong
    ensures Waiting(plan, nodes) && !AppliedEverywhere(plan, nodes)
  {
    plan, nodes := Plan(id, [], [node]), [Status(node, Some(id), None, "")];
    assert plan.staleLeaseholders[0] in Planned(plan) && nodes[0] in nodes;
    AppliedUnlessWaiting(plan, nodes);
    a := Verify(plan, nodes, decommissioned, true);
  }
}
