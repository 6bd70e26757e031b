/** Autonomous task chaining: follow-up tasks under a depth bound, linked into the
    dependency graph. */
module Chaining {
  import opened Base
  import opened Graph

  /** The chain entry of a payload as found; each field may be missing. */
  datatype RawMeta = RawMeta(root: Option<string>, parent: Option<string>, depth: Option<int>)

  /** `chain` is None when the payload has no chain entry or one that is not a record. */
  datatype Payload = Payload(chain: Option<RawMeta>, repairsTaskId: Option<string>, originalTaskType: Option<string>)

  datatype Task = Task(
    id: string, workflowId: Option<string>, taskType: string, provider: string, payload: Payload,
    attempts: int, maxAttempts: int)

  datatype ChainMeta = ChainMeta(root: string, parent: Option<string>, depth: int)

  datatype Policy = Policy(continuation: map<string, string>, maxDepth: int)

  datatype Event =
    | NextTaskGenerated(parent: string, child: string, depth: int)
    | RepairTaskCreated(failed: string, repair: string, attempt: int, depth: int)
    | EscalationRaised(id: string, depth: int)
    | ChainTerminated(root: string, depth: int)

  /** A task that is not chained is the root of its own chain. */
  function MetaOf(t: Task): ChainMeta {
    match t.payload.chain
    case None => ChainMeta(t.id, None, 0)
    case Some(raw) =>
      ChainMeta(if raw.root.Some? then raw.root.value else t.id, raw.parent,
                if raw.depth.Some? then raw.depth.value else 0)
  }

  function ToPayload(m: ChainMeta): RawMeta {
    RawMeta(Some(m.root), m.parent, Some(m.depth))
  }

  function NextHead(policy: Policy, taskType: string): Option<string> {
    if Head(taskType) in policy.continuation then Some(policy.continuation[Head(taskType)]) else None
  }

  function MakeChild(parent: Task, childId: string, taskType: string, m: ChainMeta): Task {
    Task(childId, parent.workflowId, taskType, parent.provider,
         Payload(Some(ToPayload(ChainMeta(m.root, Some(parent.id), m.depth + 1))), None, None), 0, parent.maxAttempts)
  }

  /** A repair names the task it repairs and that task's type. */
  function MakeRepair(failed: Task, childId: string, m: ChainMeta): Task {
    var child := MakeChild(failed, childId, "repair.auto", m);
    child.(payload := child.payload.(repairsTaskId := Some(failed.id), originalTaskType := Some(failed.taskType)))
  }

  /** One outcome reported to the chainer; `childId` is the id a generated task would get. */
  datatype Report = Report(task: Task, completed: bool, childId: string)

  /** The task a report generates, if any. */
  function Followup(policy: Policy, r: Report): Option<Task> {
    var m := MetaOf(r.task);
    if r.completed then
      if NextHead(policy, r.task.taskType).None? || m.depth + 1 > policy.maxDepth then None
      else Some(MakeChild(r.task, r.childId, NextHead(policy, r.task.taskType).value + ".auto", m))
    else
      if r.task.attempts >= r.task.maxAttempts || m.depth + 1 > policy.maxDepth then None
      else
        Some(MakeRepair(r.task, r.childId, m))
  }

  function EventsOf(policy: Policy, r: Report): seq<Event> {
    var m, child := MetaOf(r.task), Followup(policy, r);
    if r.completed then
      if NextHead(policy, r.task.taskType).None? then []
      else if child.None? then [ChainTerminated(m.root, m.depth)]
      else [NextTaskGenerated(r.task.id, r.childId, m.depth + 1)]
    else
      if r.task.attempts >= r.task.maxAttempts then [EscalationRaised(r.task.id, m.depth)]
      else if child.None? then [ChainTerminated(m.root, m.depth)]
      else [RepairTaskCreated(r.task.id, r.childId, r.task.attempts + 1, m.depth + 1)]
  }

  // ---------------------------------------------------------------------------
  // The chainer's state and runs

  /** A generated task and the task it came from. */
  datatype Link = Link(parent: string, child: Task)

  datatype State = State(deps: Deps, done: set<string>, generated: map<string, seq<Task>>, links: seq<Link>)

  const EMPTY := State(map[], {}, map[], [])

  function Record(generated: map<string, seq<Task>>, root: string, t: Task): map<string, seq<Task>> {
    generated[root := (if root in generated then generated[root] else []) + [t]]
  }

  /** The child's only prerequisite is its parent. */
  function LinkDeps(d: Deps, child: string, parent: string): Deps {
    var e := WithTask(WithTask(d, child), parent);
    AddEdge(e, child, parent)
  }

  function Apply(policy: Policy, s: State, r: Report): State {
    var deps := WithTask(s.deps, r.task.id);
    var done := if r.completed then s.done + {r.task.id} else s.done;
    match Followup(policy, r)
    case None => State(deps, done, s.generated, s.links)
    case Some(child) =>
      State(LinkDeps(deps, child.id, r.task.id), done,
            Record(s.generated, MetaOf(r.task).root, child), s.links + [Link(r.task.id, child)])
  }

  /** A fresh id belongs to no task seen so far. */
  predicate Fresh(s: State, r: Report) {
    r.childId !in s.deps && r.childId != r.task.id
  }

  /** A generated task reports with the chain entry it was generated with. */
  predicate KeepsChain(s: State, r: Report) {
    forall i :: 0 <= i < |s.links| && s.links[i].child.id == r.task.id ==>
      r.task.payload.chain == s.links[i].child.payload.chain
  }

  ghost predicate ValidRun(policy: Policy, run: seq<Report>)
    decreases |run|, 0
  {
    run != [] ==>
      && ValidRun(policy, run[..|run| - 1])
      && Fresh(Exec(policy, run[..|run| - 1]), run[|run| - 1])
      && KeepsChain(Exec(policy, run[..|run| - 1]), run[|run| - 1])
  }

  ghost function Exec(policy: Policy, run: seq<Report>): State
    requires ValidRun(policy, run)
    decreases |run|, 1
  {
    if run == [] then EMPTY else Apply(policy, Exec(policy, run[..|run| - 1]), run[|run| - 1])
  }

  // ---------------------------------------------------------------------------
  // What every run keeps

  /** Links connect registered tasks, no id is generated twice, a child is newer than its
      parent, and depth and root are handed down. */
  ghost predicate LinksOk(policy: Policy, s: State) {
    && (forall i :: 0 <= i < |s.links| ==>
          s.links[i].parent in s.deps && s.links[i].child.id in s.deps && s.links[i].parent != s.links[i].child.id)
    && (forall i, j :: 0 <= i < j < |s.links| ==>
          s.links[i].child.id != s.links[j].child.id && s.links[i].parent != s.links[j].child.id)
    && (forall i :: 0 <= i < |s.links| ==>
          MetaOf(s.links[i].child).depth <= policy.maxDepth
          && MetaOf(s.links[i].child).parent == Some(s.links[i].parent))
    && HandedDown(s.links)
  }

  /** A generated task's own generated tasks are one deeper and have its root. */
  ghost predicate HandedDown(links: seq<Link>) {
    forall i, j :: 0 <= i < |links| && 0 <= j < |links| && links[i].child.id == links[j].parent ==>
      MetaOf(links[j].child).depth == MetaOf(links[i].child).depth + 1
      && MetaOf(links[j].child).root == MetaOf(links[i].child).root
  }

  lemma AppendHandsDown(links: seq<Link>, last: Link)
    requires HandedDown(links) && last.parent != last.child.id
    requires forall i :: 0 <= i < |links| ==> links[i].parent != last.child.id
    requires forall i :: 0 <= i < |links| && links[i].child.id == last.parent ==>
               MetaOf(last.child).depth == MetaOf(links[i].child).depth + 1
               && MetaOf(last.child).root == MetaOf(links[i].child).root
    ensures HandedDown(links + [last])
  {
  }

  /** A child's prerequisites are its parent alone. */
  ghost predicate EdgesOk(s: State) {
    forall i :: 0 <= i < |s.links| ==> Prereqs(s.deps, s.links[i].child.id) == {s.links[i].parent}
  }

  lemma FollowupMeta(policy: Policy, r: Report)
    requires Followup(policy, r).Some?
    ensures var child := Followup(policy, r).value;
            && child.id == r.childId
            && MetaOf(child) == ChainMeta(MetaOf(r.task).root, Some(r.task.id), MetaOf(r.task).depth + 1)
            && MetaOf(child).depth <= policy.maxDepth
  {
  }

  /** A task that reports with its own chain entry has the metadata it was generated with. */
  lemma SameMeta(s: State, r: Report, i: int)
    requires KeepsChain(s, r) && 0 <= i < |s.links| && s.links[i].child.id == r.task.id
    ensures MetaOf(r.task) == MetaOf(s.links[i].child)
  {
  }

  lemma StepKeepsLinks(policy: Policy, s: State, r: Report)
    requires LinksOk(policy, s) && Fresh(s, r) && KeepsChain(s, r)
    ensures LinksOk(policy, Apply(policy, s, r))
  {
    if Followup(policy, r).Some? {
      FollowupMeta(policy, r);
      var t := Apply(policy, s, r);
      var n := |s.links|;
      assert forall i :: 0 <= i < n ==> t.links[i] == s.links[i];
      forall i | 0 <= i < n && s.links[i].child.id == r.task.id
        ensures MetaOf(r.task) == MetaOf(s.links[i].child)
      {
        SameMeta(s, r, i);
      }
      assert forall i :: 0 <= i < n ==> s.links[i].parent != r.childId && s.links[i].child.id != r.childId;
      AppendHandsDown(s.links, t.links[n]);
    }
  }

  lemma StepKeepsEdges(policy: Policy, s: State, r: Report)
    requires LinksOk(policy, s) && EdgesOk(s) && Fresh(s, r)
    ensures EdgesOk(Apply(policy, s, r))
  {
    var t := Apply(policy, s, r);
    forall i | 0 <= i < |t.links| ensures Prereqs(t.deps, t.links[i].child.id) == {t.links[i].parent} {
      if i < |s.links| {
        assert t.links[i] == s.links[i];
      } else {
        FollowupMeta(policy, r);
      }
    }
  }

  /** Over every run: links connect registered tasks, depth and root are handed down from
      generated tasks to theirs, and the parent is a child's only prerequisite. */
  lemma {:induction false} RunKeepsLinks(policy: Policy, run: seq<Report>)
    requires ValidRun(policy, run)
    ensures LinksOk(policy, Exec(policy, run)) && EdgesOk(Exec(policy, run))
  {
    if run != [] {
      RunKeepsLinks(policy, run[..|run| - 1]);
      StepKeepsLinks(policy, Exec(policy, run[..|run| - 1]), run[|run| - 1]);
      StepKeepsEdges(policy, Exec(policy, run[..|run| - 1]), run[|run| - 1]);
    }
  }

  // ---------------------------------------------------------------------------
  // Bounded chains

  /** The ids generated, directly or through others, from task `id`. */
  function Descendants(links: seq<Link>, id: string): set<string> {
    if links == [] then {}
    else
      var d, last := Descendants(links[..|links| - 1], id), links[|links| - 1];
      if last.parent == id || last.parent in d then d + {last.child.id} else d
  }

  /** Their depths. */
  function Depths(links: seq<Link>, id: string): set<int> {
    if links == [] then {}
    else
      var d, last := Descendants(links[..|links| - 1], id), links[|links| - 1];
      Depths(links[..|links| - 1], id)
      + if last.parent == id || last.parent in d then {MetaOf(last.child).depth} else {}
  }

  /** The structural facts the counting needs. */
  ghost predicate Chain(links: seq<Link>, id: string, depth: int) {
    && (forall i :: 0 <= i < |links| ==> links[i].parent != links[i].child.id)
    && (forall i, j :: 0 <= i < j < |links| ==>
          links[i].child.id != links[j].child.id && links[i].parent != links[j].child.id
          && links[i].parent != links[j].parent)
    && (forall i :: 0 <= i < |links| && links[i].parent == id ==> MetaOf(links[i].child).depth == depth + 1)
    && (forall i, j :: 0 <= i < |links| && 0 <= j < |links| && links[i].child.id == links[j].parent ==>
          MetaOf(links[j].child).depth == MetaOf(links[i].child).depth + 1)
  }

  lemma ChainPrefix(links: seq<Link>, id: string, depth: int)
    requires Chain(links, id, depth) && links != []
    ensures Chain(links[..|links| - 1], id, depth)
  {
  }

  /** A descendant has a link of its own, whose parent is `id` or a descendant, and is deeper
      than `id`. */
  lemma {:induction false} DescendantLink(links: seq<Link>, id: string, depth: int, x: string) returns (i: nat)
    requires Chain(links, id, depth) && x in Descendants(links, id)
    ensures i < |links| && links[i].child.id == x
    ensures links[i].parent == id || links[i].parent in Descendants(links, id)
    ensures MetaOf(links[i].child).depth > depth && MetaOf(links[i].child).depth in Depths(links, id)
    ensures links[i].parent != id ==> MetaOf(links[i].child).depth > depth + 1
    decreases |links|
  {
    var before, last := links[..|links| - 1], links[|links| - 1];
    ChainPrefix(links, id, depth);
    if x in Descendants(before, id) {
      i := DescendantLink(before, id, depth, x);
    } else {
      i := |links| - 1;
      if last.parent != id {
        var j := DescendantLink(before, id, depth, last.parent);
      }
    }
  }

  /** Two descendants of one task are never equally deep, when each task reports once. */
  lemma {:induction false} SameDepthSameLink(links: seq<Link>, id: string, depth: int, i: nat, j: nat)
    requires Chain(links, id, depth) && i < |links| && j < |links|
    requires links[i].child.id in Descendants(links, id) && links[j].child.id in Descendants(links, id)
    requires MetaOf(links[i].child).depth == MetaOf(links[j].child).depth
    ensures i == j
    decreases MetaOf(links[i].child).depth - depth
  {
    var i' := DescendantLink(links, id, depth, links[i].child.id);
    var j' := DescendantLink(links, id, depth, links[j].child.id);
    assert i' == i && j' == j;
    if links[i].parent != id && links[j].parent != id {
      var p := DescendantLink(links, id, depth, links[i].parent);
      var q := DescendantLink(links, id, depth, links[j].parent);
      ParentsEquallyDeep(links, id, depth, i, j, p, q);
      SameDepthSameLink(links, id, depth, p, q);
    }
  }

  lemma ParentsEquallyDeep(links: seq<Link>, id: string, depth: int, i: nat, j: nat, p: nat, q: nat)
    requires Chain(links, id, depth) && i < |links| && j < |links| && p < |links| && q < |links|
    requires links[p].child.id == links[i].parent && links[q].child.id == links[j].parent
    requires MetaOf(links[i].child).depth == MetaOf(links[j].child).depth
    ensures MetaOf(links[p].child).depth == MetaOf(links[q].child).depth == MetaOf(links[i].child).depth - 1
  {
  }

  /** A depth in the set is some descendant's. */
  lemma {:induction false} DepthLink(links: seq<Link>, id: string, e: int) returns (i: nat)
    requires e in Depths(links, id)
    ensures i < |links| && links[i].child.id in Descendants(links, id) && MetaOf(links[i].child).depth == e
  {
    if e in Depths(links[..|links| - 1], id) {
      i := DepthLink(links[..|links| - 1], id, e);
    } else {
      i := |links| - 1;
    }
  }

  /** There are as many descendants as there are depths among them. */
  lemma {:induction false} DescendantsCountDepths(links: seq<Link>, id: string, depth: int)
    requires Chain(links, id, depth)
    ensures |Descendants(links, id)| == |Depths(links, id)|
    decreases |links|
  {
    if links != [] {
      var before, last := links[..|links| - 1], links[|links| - 1];
      ChainPrefix(links, id, depth);
      DescendantsCountDepths(before, id, depth);
      if last.parent == id || last.parent in Descendants(before, id) {
        if last.child.id in Descendants(before, id) {
          var i := DescendantLink(before, id, depth, last.child.id);
        }
        if MetaOf(last.child).depth in Depths(before, id) {
          var i := DepthLink(before, id, MetaOf(last.child).depth);
          SameDepthSameLink(links, id, depth, i, |links| - 1);
        }
      }
    }
  }

  /** The integers above `low` and up to `high`. */
  lemma {:induction false} RangeSize(s: set<int>, low: int, high: int)
    requires forall e :: e in s ==> low < e <= high
    ensures |s| <= Max(0, high - low)
    decreases high - low
  {
    if low >= high {
      assert s == {};
    } else {
      RangeSize(s - {high}, low, high - 1);
      assert |s| <= |s - {high}| + 1;
    }
  }

  /** Each task reports one outcome. */
  ghost predicate OneReportEach(run: seq<Report>) {
    forall a, b :: 0 <= a < b < |run| ==> run[a].task.id != run[b].task.id
  }

  /** Every link was made by the report of its parent. */
  lemma {:induction false} LinkReport(policy: Policy, run: seq<Report>, i: nat) returns (k: nat)
    requires ValidRun(policy, run) && i < |Exec(policy, run).links|
    ensures k < |run| && run[k].task.id == Exec(policy, run).links[i].parent
    ensures MetaOf(Exec(policy, run).links[i].child)
            == ChainMeta(MetaOf(run[k].task).root, Some(run[k].task.id), MetaOf(run[k].task).depth + 1)
    decreases |run|
  {
    var before := Exec(policy, run[..|run| - 1]);
    if i < |before.links| {
      k := LinkReport(policy, run[..|run| - 1], i);
    } else {
      k := |run| - 1;
      FollowupMeta(policy, run[k]);
    }
  }

  lemma {:induction false} ParentsAreDistinct(policy: Policy, run: seq<Report>)
    requires ValidRun(policy, run) && OneReportEach(run)
    ensures var links := Exec(policy, run).links;
            forall i, j :: 0 <= i < j < |links| ==> links[i].parent != links[j].parent
    decreases |run|
  {
    if run != [] {
      var before := run[..|run| - 1];
      ParentsAreDistinct(policy, before);
      var links := Exec(policy, before).links;
      forall i | 0 <= i < |links| ensures links[i].parent != run[|run| - 1].task.id {
        var k := LinkReport(policy, before, i);
      }
    }
  }

  lemma RunIsChain(policy: Policy, run: seq<Report>, k: nat)
    requires ValidRun(policy, run) && OneReportEach(run) && k < |run|
    ensures Chain(Exec(policy, run).links, run[k].task.id, MetaOf(run[k].task).depth)
  {
    RunKeepsLinks(policy, run);
    ParentsAreDistinct(policy, run);
    var links := Exec(policy, run).links;
    forall i | 0 <= i < |links| && links[i].parent == run[k].task.id
      ensures MetaOf(links[i].child).depth == MetaOf(run[k].task).depth + 1
    {
      var j := LinkReport(policy, run, i);
    }
  }

  /** Chains are bounded: for any continuation map and any mix of outcomes, if each task
      reports once, a task at depth d yields at most max(0, max_depth - d) descendants. */
  lemma BoundedChaining(policy: Policy, run: seq<Report>, k: nat)
    requires ValidRun(policy, run) && OneReportEach(run) && k < |run|
    ensures |Descendants(Exec(policy, run).links, run[k].task.id)|
            <= Max(0, policy.maxDepth - MetaOf(run[k].task).depth)
  {
    var links, id, depth := Exec(policy, run).links, run[k].task.id, MetaOf(run[k].task).depth;
    RunIsChain(policy, run, k);
    RunKeepsLinks(policy, run);
    DescendantsCountDepths(links, id, depth);
    forall e | e in Depths(links, id) ensures depth < e <= policy.maxDepth {
      var i := DepthLink(links, id, e);
      var i' := DescendantLink(links, id, depth, links[i].child.id);
      assert i' == i;
    }
    RangeSize(Depths(links, id), depth, policy.maxDepth);
  }

  /** Descendants keep the root of the task they descend from. */
  lemma {:induction false} DescendantsKeepRoot(policy: Policy, s: State, links: seq<Link>, i: nat, id: string, root: string)
    requires LinksOk(policy, s) && links <= s.links && i < |links| && links[i].child.id in Descendants(links, id)
    requires forall j :: 0 <= j < |links| && links[j].parent == id ==> MetaOf(links[j].child).root == root
    ensures MetaOf(links[i].child).root == root
    decreases |links|
  {
    var before, last := links[..|links| - 1], links[|links| - 1];
    if i < |before| && links[i].child.id in Descendants(before, id) {
      assert before[i] == links[i];
      DescendantsKeepRoot(policy, s, before, i, id, root);
    } else {
      OnlyChildren(before, id);
      assert i == |links| - 1;
      if last.parent != id {
        var p :| 0 <= p < |before| && before[p].child.id == last.parent;
        DescendantsKeepRoot(policy, s, before, p, id, root);
        assert s.links[p] == before[p] && s.links[i] == last;
      }
    }
  }

  /** Everything generated from a task, directly or not, keeps that task's root and is deeper
      than it, up to the maximum. */
  lemma ChainKeepsRoot(policy: Policy, run: seq<Report>, k: nat, i: nat)
    requires ValidRun(policy, run) && OneReportEach(run) && k < |run| && i < |Exec(policy, run).links|
    requires Exec(policy, run).links[i].child.id in Descendants(Exec(policy, run).links, run[k].task.id)
    ensures var child, ancestor := MetaOf(Exec(policy, run).links[i].child), MetaOf(run[k].task);
            child.root == ancestor.root && ancestor.depth < child.depth <= policy.maxDepth
  {
    var s, id := Exec(policy, run), run[k].task.id;
    RunKeepsLinks(policy, run);
    RunIsChain(policy, run, k);
    forall j | 0 <= j < |s.links| && s.links[j].parent == id
      ensures MetaOf(s.links[j].child).root == MetaOf(run[k].task).root
    {
      var a := LinkReport(policy, run, j);
    }
    DescendantsKeepRoot(policy, s, s.links, i, id, MetaOf(run[k].task).root);
    var i' := DescendantLink(s.links, id, MetaOf(run[k].task).depth, s.links[i].child.id);
    assert i' == i;
  }

  lemma {:induction false} OnlyChildren(links: seq<Link>, id: string)
    ensures forall x :: x in Descendants(links, id) ==> exists p :: 0 <= p < |links| && links[p].child.id == x
  {
    if links != [] {
      OnlyChildren(links[..|links| - 1], id);
      forall x | x in Descendants(links, id) ensures exists p :: 0 <= p < |links| && links[p].child.id == x {
        if x in Descendants(links[..|links| - 1], id) {
          var p :| 0 <= p < |links| - 1 && links[..|links| - 1][p].child.id == x;
          assert links[p].child.id == x;
        }
      }
    }
  }

  // ---------------------------------------------------------------------------
  // Readiness of generated work

  /** A generated task is ready exactly while it is not done and its parent is. */
  lemma ChildReadyIff(policy: Policy, run: seq<Report>, i: nat)
    requires ValidRun(policy, run) && i < |Exec(policy, run).links|
    ensures var s := Exec(policy, run);
            IsReady(s.deps, s.done, s.links[i].child.id) <==>
            s.links[i].child.id !in s.done && s.links[i].parent in s.done
  {
    RunKeepsLinks(policy, run);
    var s := Exec(policy, run);
    assert s.links[i].child.id in s.deps;
    assert Prereqs(s.deps, s.links[i].child.id) == {s.links[i].parent};
  }

  /** Links and done marks are kept. */
  lemma {:induction false} NothingIsForgotten(policy: Policy, run: seq<Report>, n: nat)
    requires ValidRun(policy, run) && n <= |run| && ValidRun(policy, run[..n])
    ensures Exec(policy, run[..n]).links <= Exec(policy, run).links
    ensures Exec(policy, run[..n]).done <= Exec(policy, run).done
    decreases |run|
  {
    if n == |run| {
      assert run[..n] == run;
    } else {
      var before := run[..|run| - 1];
      assert before[..n] == run[..n];
      NothingIsForgotten(policy, before, n);
    }
  }

  /** Only registered tasks are done. */
  lemma {:induction false} DoneIsRegistered(policy: Policy, run: seq<Report>)
    requires ValidRun(policy, run)
    ensures Exec(policy, run).done <= Exec(policy, run).deps.Keys
  {
    if run != [] {
      DoneIsRegistered(policy, run[..|run| - 1]);
    }
  }

  /** The task report number n generated is not done right after it. */
  lemma NewChildIsUndone(policy: Policy, run: seq<Report>, n: nat)
    requires ValidRun(policy, run) && 1 <= n <= |run| && ValidRun(policy, run[..n]) && ValidRun(policy, run[..n - 1])
    requires Followup(policy, run[n - 1]).Some?
    ensures run[n - 1].childId !in Exec(policy, run[..n]).done
  {
    DoneIsRegistered(policy, run[..n - 1]);
    assert run[..n][..n - 1] == run[..n - 1] && run[..n][n - 1] == run[n - 1];
  }

  /** A continuation generated on completion is ready at once and stays ready until it is done. */
  lemma ContinuationStaysReady(policy: Policy, run: seq<Report>, n: nat)
    requires ValidRun(policy, run) && 1 <= n <= |run| && ValidRun(policy, run[..n]) && ValidRun(policy, run[..n - 1])
    requires run[n - 1].completed && Followup(policy, run[n - 1]).Some?
    ensures var s := Exec(policy, run[..n]); IsReady(s.deps, s.done, run[n - 1].childId)
    ensures var s := Exec(policy, run);
            IsReady(s.deps, s.done, run[n - 1].childId) <==> run[n - 1].childId !in s.done
  {
    var i := LastLink(policy, run, n);
    NothingIsForgotten(policy, run, n);
    NewChildIsUndone(policy, run, n);
    ChildReadyIff(policy, run, i);
    ChildReadyIff(policy, run[..n], i);
  }

  /** The link made by report number n. */
  lemma LastLink(policy: Policy, run: seq<Report>, n: nat) returns (i: nat)
    requires ValidRun(policy, run) && 1 <= n <= |run| && ValidRun(policy, run[..n])
    requires Followup(policy, run[n - 1]).Some?
    ensures var s := Exec(policy, run[..n]);
            && i < |s.links| && s.links[i].parent == run[n - 1].task.id && s.links[i].child.id == run[n - 1].childId
            && (run[n - 1].completed ==> run[n - 1].task.id in s.done)
  {
    var upTo := run[..n];
    assert upTo[..n - 1] == run[..n - 1] && upTo[n - 1] == run[n - 1];
    FollowupMeta(policy, run[n - 1]);
    i := |Exec(policy, upTo[..n - 1]).links|;
  }

  /** A repair task generated on failure is ready only once the failed task itself has been
      marked done; while it has not, the repair is never ready, whatever else is reported. */
  lemma RepairWaitsForFailedTask(policy: Policy, run: seq<Report>, n: nat)
    requires ValidRun(policy, run) && 1 <= n <= |run| && ValidRun(policy, run[..n])
    requires !run[n - 1].completed && Followup(policy, run[n - 1]).Some?
    ensures var s := Exec(policy, run);
            IsReady(s.deps, s.done, run[n - 1].childId) <==>
            run[n - 1].childId !in s.done && run[n - 1].task.id in s.done
  {
    var i := LastLink(policy, run, n);
    NothingIsForgotten(policy, run, n);
    ChildReadyIff(policy, run, i);
  }

  // ---------------------------------------------------------------------------
  // What one report comes to

  /** The task's own chain entry, or itself as the root of its chain. */
  function RootOf(t: Task): string {
    var chain := t.payload.chain;
    if chain.Some? && chain.value.root.Some? then chain.value.root.value else t.id
  }

  function DepthOf(t: Task): int {
    var chain := t.payload.chain;
    if chain.Some? && chain.value.depth.Some? then chain.value.depth.value else 0
  }

  /** No task, and exactly these events. */
  predicate Only(announced: seq<Event>, tasks: seq<Task>, before: map<string, seq<Task>>, after: map<string, seq<Task>>,
                 emitted: seq<Event>)
  {
    tasks == [] && emitted == announced && after == before
  }

  /** One task with this id and type, one deeper in the chain of its parent, taking over its
      workflow, provider and maximum, and recorded behind what its root already had. */
  predicate Generates(parent: Task, id: string, taskType: string, tasks: seq<Task>,
                      before: map<string, seq<Task>>, after: map<string, seq<Task>>)
  {
    var root := RootOf(parent);
    && |tasks| == 1
    && tasks[0].id == id && tasks[0].taskType == taskType && tasks[0].attempts == 0
    && tasks[0].workflowId == parent.workflowId && tasks[0].provider == parent.provider
    && tasks[0].maxAttempts == parent.maxAttempts
    && tasks[0].payload.chain == Some(RawMeta(Some(root), Some(parent.id), Some(DepthOf(parent) + 1)))
    && after.Keys == before.Keys + {root}
    && after[root] == (if root in before then before[root] else []) + tasks
    && forall k :: k in before && k != root ==> after[k] == before[k]
  }

  /** A failed task escalates if its attempts are used up; otherwise its chain ends if it is as
      deep as allowed; otherwise it gets a repair that names it and its type. */
  predicate FailureAnswered(policy: Policy, t: Task, id: string, before: map<string, seq<Task>>,
                            after: map<string, seq<Task>>, tasks: seq<Task>, emitted: seq<Event>)
  {
    if t.attempts >= t.maxAttempts then Only([EscalationRaised(t.id, DepthOf(t))], tasks, before, after, emitted)
    else if DepthOf(t) >= policy.maxDepth then
      Only([ChainTerminated(RootOf(t), DepthOf(t))], tasks, before, after, emitted)
    else
      && Generates(t, id, "repair.auto", tasks, before, after)
      && tasks[0].payload.repairsTaskId == Some(t.id) && tasks[0].payload.originalTaskType == Some(t.taskType)
      && emitted == [RepairTaskCreated(t.id, id, t.attempts + 1, DepthOf(t) + 1)]
  }

  /** A completed task of a stage without continuation ends silently; otherwise its chain ends if
      it is as deep as allowed; otherwise the next stage is generated. */
  predicate CompletionAnswered(policy: Policy, t: Task, id: string, before: map<string, seq<Task>>,
                               after: map<string, seq<Task>>, tasks: seq<Task>, emitted: seq<Event>)
  {
    var stage := Head(t.taskType);
    if stage !in policy.continuation then Only([], tasks, before, after, emitted)
    else if DepthOf(t) >= policy.maxDepth then
      Only([ChainTerminated(RootOf(t), DepthOf(t))], tasks, before, after, emitted)
    else
      && Generates(t, id, policy.continuation[stage] + ".auto", tasks, before, after)
      && tasks[0].payload.repairsTaskId == None && tasks[0].payload.originalTaskType == None
      && emitted == [NextTaskGenerated(t.id, id, DepthOf(t) + 1)]
  }

  lemma ReportIsAnswered(policy: Policy, before: State, r: Report)
    ensures var tasks := if Followup(policy, r).Some? then [Followup(policy, r).value] else [];
            var after := Apply(policy, before, r).generated;
            if r.completed
            then CompletionAnswered(policy, r.task, r.childId, before.generated, after, tasks, EventsOf(policy, r))
            else FailureAnswered(policy, r.task, r.childId, before.generated, after, tasks, EventsOf(policy, r))
  {
  }

  // ---------------------------------------------------------------------------
  // The object

  /** An unregistered task cannot be reached from a registered one. */
  lemma UnregisteredIsUnreachable(d: Deps, a: string, b: string)
    requires Closed(d) && a in d && b !in d
    ensures !Reaches(d, a, b)
  {
    if Reaches(d, a, b) {
      var p :| PathBetween(d, p, a, b);
      StaysInside(d, d.Keys, p);
    }
  }

  /** Registering a fresh task closes no cycle. */
  lemma FreshChildClosesNoCycle(d: Deps, child: string, parent: string)
    requires Closed(d) && parent in d && child !in d
    ensures !Reaches(d, parent, child)
  {
    UnregisteredIsUnreachable(d, parent, child);
  }

  /** An edge from the child to its parent would close a cycle. */
  ghost predicate Cycles(d: Deps, parent: string, child: string) {
    child == parent || Reaches(d, parent, child)
  }

  class TaskChainer {
    const policy: Policy
    const graph: TaskDependencyGraph
    var generated: map<string, seq<Task>>
    var events: seq<Event>

    constructor (policy: Policy, graph: TaskDependencyGraph)
      ensures this.policy == policy && this.graph == graph && generated == map[] && events == []
    {
      this.policy, this.graph := policy, graph;
      generated, events := map[], [];
    }

    /** The state of the chainer; which links have been made is left to the run. */
    function Now(): State
      reads this, graph
    {
      State(graph.deps, graph.done, generated, [])
    }

    /** The state, the result and the new events are those of the report. */
    ghost predicate Reported(before: State, report: Report, tasks: seq<Task>, emitted: seq<Event>)
      reads this, graph
    {
      var child := Followup(policy, report);
      && tasks == (if child.Some? then [child.value] else [])
      && Now() == Apply(policy, before, report).(links := [])
      && events == emitted + EventsOf(policy, report)
    }

    /** Link a generated task and record it. With a fresh id this never raises CycleError. */
    method LinkAndRecord(parent: Task, child: Task, root: string) returns (cycle: bool)
      requires graph.Valid() && parent.id in graph.deps
      modifies this`generated, graph
      ensures graph.Valid() && graph.done == old(graph.done)
      ensures cycle <==> child.id == parent.id || Reaches(old(graph.deps), parent.id, child.id)
      ensures child.id !in old(graph.deps) ==> !cycle
      ensures !cycle ==> graph.deps == LinkDeps(old(graph.deps), child.id, parent.id)
                         && generated == Record(old(generated), root, child)
      ensures cycle ==> generated == old(generated)
    {
      if child.id !in graph.deps {
        FreshChildClosesNoCycle(graph.deps, child.id, parent.id);
      }
      cycle := graph.AddDependency(child.id, parent.id);
      if !cycle {
        generated := Record(generated, root, child);
      }
    }

    /** Link and announce the continuation of a completed task that has one. */
    method CreateContinuation(task: Task, childId: string, head: string, m: ChainMeta, ghost before: State)
      returns (r: Option<seq<Task>>)
      requires graph.Valid() && m == MetaOf(task)
      requires NextHead(policy, task.taskType) == Some(head) && m.depth + 1 <= policy.maxDepth
      requires Now() == before.(deps := WithTask(before.deps, task.id), done := before.done + {task.id}, links := [])
      modifies this`generated, this`events, graph
      ensures graph.Valid()
      ensures r.None? ==> !Fresh(before, Report(task, true, childId)) && generated == old(generated) && events == old(events)
      ensures r.None? <==> Cycles(old(graph.deps), task.id, childId)
      ensures r.Some? ==> Reported(before, Report(task, true, childId), r.value, old(events))
    {
      var child := MakeChild(task, childId, head + ".auto", m);
      var cycle := LinkAndRecord(task, child, m.root);
      if cycle {
        return None;
      }
      events := events + [NextTaskGenerated(task.id, child.id, m.depth + 1)];
      r := Some([child]);
    }

    /** Generate the continuation of a completed task. None stands for a raised CycleError,
        which a fresh id rules out. */
    method OnCompleted(task: Task, childId: string) returns (r: Option<seq<Task>>)
      requires graph.Valid()
      modifies this, graph
      ensures graph.Valid()
      ensures r.None? ==> !Fresh(old(Now()), Report(task, true, childId)) && generated == old(generated) && events == old(events)
      ensures r.None? <==>
        Head(task.taskType) in policy.continuation && DepthOf(task) < policy.maxDepth
        && Cycles(WithTask(old(graph.deps), task.id), task.id, childId)
      ensures r.Some? ==> Reported(old(Now()), Report(task, true, childId), r.value, old(events))
      ensures r.Some? ==>
        old(events) <= events && graph.done == old(graph.done) + {task.id}
        && CompletionAnswered(policy, task, childId, old(generated), generated, r.value, events[|old(events)|..])
    {
      ghost var before := Now();
      ReportIsAnswered(policy, before, Report(task, true, childId));
      graph.MarkDone(task.id);
      var m := MetaOf(task);
      var next := NextHead(policy, task.taskType);
      if next.None? {
        return Some([]);
      }
      if m.depth + 1 > policy.maxDepth {
        events := events + [ChainTerminated(m.root, m.depth)];
        return Some([]);
      }
      r := CreateContinuation(task, childId, next.value, m, before);
    }

    method BuildRepair(task: Task, childId: string, m: ChainMeta) returns (repair: Task)
      ensures repair == MakeRepair(task, childId, m)
    {
      repair := MakeChild(task, childId, "repair.auto", m);
      repair := repair.(payload := repair.payload.(repairsTaskId := Some(task.id)));
      repair := repair.(payload := repair.payload.(originalTaskType := Some(task.taskType)));
    }

    /** Link and announce the repair of a task that has attempts and depth left. */
    method CreateRepair(task: Task, childId: string, m: ChainMeta, ghost before: State) returns (r: Option<seq<Task>>)
      requires graph.Valid() && m == MetaOf(task)
      requires task.attempts < task.maxAttempts && m.depth + 1 <= policy.maxDepth
      requires Now() == before.(deps := WithTask(before.deps, task.id), links := [])
      modifies this`generated, this`events, graph
      ensures graph.Valid()
      ensures r.None? ==> !Fresh(before, Report(task, false, childId)) && generated == old(generated) && events == old(events)
      ensures r.None? <==> Cycles(old(graph.deps), task.id, childId)
      ensures r.Some? ==> Reported(before, Report(task, false, childId), r.value, old(events))
    {
      var repair := BuildRepair(task, childId, m);
      var cycle := LinkAndRecord(task, repair, m.root);
      if cycle {
        return None;
      }
      events := events + [RepairTaskCreated(task.id, repair.id, task.attempts + 1, m.depth + 1)];
      r := Some([repair]);
    }

    /** Generate a repair task for a failed one, or escalate. */
    method OnFailed(task: Task, childId: string) returns (r: Option<seq<Task>>)
      requires graph.Valid()
      modifies this, graph
      ensures graph.Valid()
      ensures r.None? ==> !Fresh(old(Now()), Report(task, false, childId)) && generated == old(generated) && events == old(events)
      ensures r.None? <==>
        task.attempts < task.maxAttempts && DepthOf(task) < policy.maxDepth
        && Cycles(WithTask(old(graph.deps), task.id), task.id, childId)
      ensures r.Some? ==> Reported(old(Now()), Report(task, false, childId), r.value, old(events))
      ensures r.Some? ==>
        old(events) <= events && graph.done == old(graph.done)
        && FailureAnswered(policy, task, childId, old(generated), generated, r.value, events[|old(events)|..])
    {
      ghost var before := Now();
      ReportIsAnswered(policy, before, Report(task, false, childId));
      graph.AddTask(task.id);
      var m := MetaOf(task);
      if task.attempts >= task.maxAttempts {
        events := events + [EscalationRaised(task.id, m.depth)];
        return Some([]);
      }
      if m.depth + 1 > policy.maxDepth {
        events := events + [ChainTerminated(m.root, m.depth)];
        return Some([]);
      }
      r := CreateRepair(task, childId, m, before);
    }
  }
}
