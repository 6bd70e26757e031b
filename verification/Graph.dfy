/** The task dependency graph: incremental cycle prevention, readiness and progress. */
module Graph {
  import opened Base

  type Deps = map<string, set<string>>

  // ---------------------------------------------------------------------------
  // Paths

  function Prereqs(d: Deps, n: string): set<string> {
    if n in d then d[n] else {}
  }

  /** `p` is a non-empty walk along prerequisite edges. */
  ghost predicate IsPath(d: Deps, p: seq<string>) {
    p != [] && forall i :: 0 <= i < |p| - 1 ==> p[i + 1] in Prereqs(d, p[i])
  }

  ghost predicate PathBetween(d: Deps, p: seq<string>, a: string, b: string) {
    IsPath(d, p) && p[0] == a && p[|p| - 1] == b
  }

  ghost predicate Reaches(d: Deps, a: string, b: string) {
    exists p :: PathBetween(d, p, a, b)
  }

  ghost predicate Acyclic(d: Deps) {
    forall p :: IsPath(d, p) && |p| >= 2 ==> p[0] != p[|p| - 1]
  }

  /** Every prerequisite is itself registered. */
  ghost predicate Closed(d: Deps) {
    forall n, m :: n in d && m in d[n] ==> m in d
  }

  lemma ReachesItself(d: Deps, a: string)
    ensures Reaches(d, a, a)
  {
    assert PathBetween(d, [a], a, a);
  }

  lemma ReachesTrans(d: Deps, a: string, b: string, c: string)
    requires Reaches(d, a, b) && Reaches(d, b, c)
    ensures Reaches(d, a, c)
  {
    var p :| PathBetween(d, p, a, b);
    var q :| PathBetween(d, q, b, c);
    assert PathBetween(d, p + q[1..], a, c);
  }

  lemma ReachesStep(d: Deps, a: string, b: string)
    requires b in Prereqs(d, a)
    ensures Reaches(d, a, b)
  {
    assert PathBetween(d, [a, b], a, b);
  }

  /** A closed set of nodes cannot be left along prerequisite edges. */
  lemma {:induction false} StaysInside(d: Deps, inside: set<string>, p: seq<string>)
    requires IsPath(d, p) && p[0] in inside
    requires forall n :: n in inside ==> Prereqs(d, n) <= inside
    ensures p[|p| - 1] in inside
    decreases |p|
  {
    if |p| > 1 {
      assert IsPath(d, p[1..]);
      StaysInside(d, inside, p[1..]);
    }
  }

  lemma Prepend(d: Deps, a: string, p: seq<string>)
    requires IsPath(d, p) && p[0] in Prereqs(d, a)
    ensures IsPath(d, [a] + p) && ([a] + p)[|p|] == p[|p| - 1]
  {
  }

  /** A proper descendant of a node in an acyclic graph does not reach it back. */
  lemma NoWayBack(d: Deps, a: string, b: string)
    requires Acyclic(d) && b in Prereqs(d, a)
    ensures !Reaches(d, b, a)
  {
    if Reaches(d, b, a) {
      var p :| PathBetween(d, p, b, a);
      Prepend(d, a, p);
    }
  }

  // ---------------------------------------------------------------------------
  // Adding an edge

  function WithTask(d: Deps, t: string): Deps {
    if t in d then d else d[t := {}]
  }

  function AddEdge(d: Deps, t: string, dep: string): Deps
    requires t in d
  {
    d[t := d[t] + {dep}]
  }

  lemma EmptyIsAcyclic()
    ensures Closed(map[]) && Acyclic(map[])
  {
    forall p: seq<string> ensures |p| >= 2 ==> !IsPath(map[], p) {
      if |p| >= 2 {
        assert p[0 + 1] !in Prereqs(map[], p[0]);
      }
    }
  }

  lemma AddTaskKeeps(d: Deps, t: string)
    requires Closed(d) && Acyclic(d)
    ensures Closed(WithTask(d, t)) && Acyclic(WithTask(d, t))
    ensures forall a, b :: Reaches(WithTask(d, t), a, b) <==> Reaches(d, a, b)
  {
    assert forall n :: Prereqs(WithTask(d, t), n) == Prereqs(d, n);
    assert forall p :: IsPath(WithTask(d, t), p) <==> IsPath(d, p);
    assert forall p, a, b :: PathBetween(WithTask(d, t), p, a, b) <==> PathBetween(d, p, a, b);
  }

  /** A path in the larger graph is a path in the smaller one or goes through the new edge. */
  lemma {:induction false} PathThroughEdge(d: Deps, t: string, dep: string, p: seq<string>)
    requires t in d && IsPath(AddEdge(d, t, dep), p)
    ensures IsPath(d, p) || (Reaches(d, p[0], t) && Reaches(d, dep, p[|p| - 1]))
    decreases |p|
  {
    if |p| > 1 {
      assert IsPath(AddEdge(d, t, dep), p[1..]);
      PathThroughEdge(d, t, dep, p[1..]);
      assert p[1] in Prereqs(AddEdge(d, t, dep), p[0]);
      if p[1] in Prereqs(d, p[0]) {
        if !IsPath(d, p[1..]) {
          ReachesStep(d, p[0], p[1]);
          ReachesTrans(d, p[0], p[1], t);
        }
      } else {
        ReachesItself(d, t);
        if IsPath(d, p[1..]) {
          assert PathBetween(d, p[1..], dep, p[|p| - 1]);
        }
      }
    }
  }

  lemma BiggerGraphReachesMore(d: Deps, t: string, dep: string, a: string, b: string)
    requires t in d && Reaches(d, a, b)
    ensures Reaches(AddEdge(d, t, dep), a, b)
  {
    var p :| PathBetween(d, p, a, b);
    assert PathBetween(AddEdge(d, t, dep), p, a, b);
  }

  /** A new edge closes a cycle exactly when its target already reaches its source. */
  lemma EdgeClosesCycleIff(d: Deps, t: string, dep: string)
    requires t in d && Acyclic(d)
    ensures Acyclic(AddEdge(d, t, dep)) <==> !(t == dep || Reaches(d, dep, t))
  {
    var e := AddEdge(d, t, dep);
    if t == dep || Reaches(d, dep, t) {
      if t == dep {
        ReachesItself(d, t);
      }
      BiggerGraphReachesMore(d, t, dep, dep, t);
      var p :| PathBetween(e, p, dep, t);
      Prepend(e, t, p);
    } else {
      forall p | IsPath(e, p) && |p| >= 2 ensures p[0] != p[|p| - 1] {
        PathThroughEdge(d, t, dep, p);
        if p[0] == p[|p| - 1] && !IsPath(d, p) {
          ReachesTrans(d, dep, p[0], t);
        }
      }
    }
  }

  // ---------------------------------------------------------------------------
  // Any sequence of calls

  datatype Call = AddTask(t: string) | AddDependency(t: string, dep: string) | MarkDone(t: string)

  /** The prerequisites after one call; a refused edge still registers its two tasks. */
  ghost function AfterCall(d: Deps, call: Call): Deps {
    match call
    case AddTask(t) => WithTask(d, t)
    case MarkDone(t) => WithTask(d, t)
    case AddDependency(t, dep) =>
      var e := WithTask(WithTask(d, t), dep);
      if t == dep || Reaches(d, dep, t) then e else AddEdge(e, t, dep)
  }

  ghost function AfterCalls(calls: seq<Call>): Deps {
    if calls == [] then map[] else AfterCall(AfterCalls(calls[..|calls| - 1]), calls[|calls| - 1])
  }

  /** Whatever calls are made, accepted or refused, the graph is acyclic and every
      prerequisite is registered; an edge is in the graph only if it was asked for. */
  lemma {:induction false} AnyHistoryIsAcyclic(calls: seq<Call>)
    ensures Closed(AfterCalls(calls)) && Acyclic(AfterCalls(calls))
    ensures forall t, dep :: dep in Prereqs(AfterCalls(calls), t) ==> AddDependency(t, dep) in calls
  {
    EmptyIsAcyclic();
    if calls != [] {
      var before, last := calls[..|calls| - 1], calls[|calls| - 1];
      AnyHistoryIsAcyclic(before);
      var d := AfterCalls(before);
      AddTaskKeeps(d, last.t);
      if last.AddDependency? {
        AddTaskKeeps(WithTask(d, last.t), last.dep);
        EdgeClosesCycleIff(WithTask(WithTask(d, last.t), last.dep), last.t, last.dep);
      }
    }
  }

  predicate Mentions(call: Call, t: string) {
    call.t == t || (call.AddDependency? && call.dep == t)
  }

  /** The i-th call asks for this edge, and the edges so far do not lead back. */
  ghost predicate Accepted(calls: seq<Call>, i: nat, t: string, dep: string)
    requires i < |calls|
  {
    calls[i] == AddDependency(t, dep) && t != dep && !Reaches(AfterCalls(calls[..i]), dep, t)
  }

  lemma OneCallMore(d: Deps, call: Call, t: string, dep: string)
    ensures t in AfterCall(d, call) <==> t in d || Mentions(call, t)
    ensures dep in Prereqs(AfterCall(d, call), t) <==>
            dep in Prereqs(d, t) || (call == AddDependency(t, dep) && t != dep && !Reaches(d, dep, t))
  {
  }

  /** Exactly the mentioned tasks are registered. */
  lemma {:induction false} RegisteredAreMentioned(calls: seq<Call>, t: string)
    ensures t in AfterCalls(calls) <==> exists i :: 0 <= i < |calls| && Mentions(calls[i], t)
  {
    if calls != [] {
      var before, last := calls[..|calls| - 1], calls[|calls| - 1];
      RegisteredAreMentioned(before, t);
      OneCallMore(AfterCalls(before), last, t, t);
      assert calls == before + [last];
    }
  }

  lemma AcceptedBefore(calls: seq<Call>, last: Call, i: nat, t: string, dep: string)
    requires i < |calls|
    ensures Accepted(calls + [last], i, t, dep) <==> Accepted(calls, i, t, dep)
  {
    assert (calls + [last])[..i] == calls[..i];
  }

  /** Exactly the accepted edges are kept. */
  lemma {:induction false} EdgesAreAccepted(calls: seq<Call>, t: string, dep: string)
    ensures dep in Prereqs(AfterCalls(calls), t) <==> exists i: nat :: i < |calls| && Accepted(calls, i, t, dep)
  {
    if calls != [] {
      var before, last, n := calls[..|calls| - 1], calls[|calls| - 1], |calls| - 1;
      EdgesAreAccepted(before, t, dep);
      OneCallMore(AfterCalls(before), last, t, dep);
      assert calls == before + [last] && calls[..n] == before;
      forall i: nat | i < n ensures Accepted(calls, i, t, dep) <==> Accepted(before, i, t, dep) {
        AcceptedBefore(before, last, i, t, dep);
      }
      assert Accepted(calls, n, t, dep) <==> last == AddDependency(t, dep) && t != dep && !Reaches(AfterCalls(before), dep, t);
    }
  }

  // ---------------------------------------------------------------------------
  // Readiness and progress

  ghost function Undone(d: Deps, done: set<string>): set<string> {
    set t | t in d && t !in done
  }

  ghost predicate IsReady(d: Deps, done: set<string>, t: string) {
    t in d && t !in done && d[t] <= done
  }

  /** The nodes reachable from `n`. */
  ghost function Below(d: Deps, n: string): set<string> {
    set m | m in d && Reaches(d, n, m)
  }

  /** Following prerequisites downwards strictly shrinks what is below. */
  lemma BelowShrinks(d: Deps, a: string, b: string)
    requires Closed(d) && Acyclic(d) && a in d && b in d[a]
    ensures b in d && Below(d, b) < Below(d, a)
  {
    ReachesStep(d, a, b);
    ReachesItself(d, a);
    NoWayBack(d, a, b);
    forall m | m in Below(d, b) ensures m in Below(d, a) {
      ReachesTrans(d, a, b, m);
    }
    assert a in Below(d, a) && a !in Below(d, b);
  }

  /** Under every undone task there is a ready one. */
  lemma {:induction false} ReadyBelow(d: Deps, done: set<string>, t: string) returns (r: string)
    requires Closed(d) && Acyclic(d) && t in d && t !in done
    ensures IsReady(d, done, r) && Reaches(d, t, r)
    decreases Below(d, t)
  {
    if d[t] <= done {
      ReachesItself(d, t);
      r := t;
    } else {
      var u :| u in d[t] && u !in done;
      BelowShrinks(d, t, u);
      r := ReadyBelow(d, done, u);
      ReachesStep(d, t, u);
      ReachesTrans(d, t, u, r);
    }
  }

  /** `order` completes one ready task after another. */
  ghost predicate CompletesReady(d: Deps, done: set<string>, order: seq<string>) {
    forall i :: 0 <= i < |order| ==> IsReady(d, done + Elements(order[..i]), order[i])
  }

  ghost function Elements(s: seq<string>): set<string> {
    set x | x in s
  }

  /** Whatever has been done, an incomplete graph has a ready task; completing ready tasks
      never repeats one, places each after all its prerequisites, and when nothing is
      ready any more exactly the unfinished tasks have been completed. */
  lemma CompletingReadyTasks(d: Deps, done: set<string>, order: seq<string>)
    requires Closed(d) && Acyclic(d) && CompletesReady(d, done, order)
    ensures Distinct(order)
    ensures forall i, u :: 0 <= i < |order| && u in d[order[i]] ==> u in done || u in order[..i]
    ensures Elements(order) <= Undone(d, done)
    ensures (forall t :: !IsReady(d, done + Elements(order), t)) ==>
              Elements(order) == Undone(d, done) && |order| == |Undone(d, done)|
    ensures |order| < |Undone(d, done)| ==> exists t :: IsReady(d, done + Elements(order), t)
  {
    forall i, j | 0 <= i < j < |order| ensures order[i] != order[j] {
      assert order[..j][i] in Elements(order[..j]);
      assert IsReady(d, done + Elements(order[..j]), order[j]);
    }
    forall i, u | 0 <= i < |order| && u in d[order[i]] ensures u in done || u in order[..i] {
      assert IsReady(d, done + Elements(order[..i]), order[i]);
    }
    forall t | t in Elements(order) ensures t in Undone(d, done) {
      var i :| 0 <= i < |order| && order[i] == t;
      assert IsReady(d, done + Elements(order[..i]), order[i]);
    }
    DistinctCount(order);
    if Elements(order) != Undone(d, done) {
      var t :| t in Undone(d, done) && t !in Elements(order);
      var r := ReadyBelow(d, done + Elements(order), t);
    }
  }

  lemma {:induction false} DistinctCount(s: seq<string>)
    requires Distinct(s)
    ensures |Elements(s)| == |s|
  {
    if s != [] {
      var init, last := s[..|s| - 1], s[|s| - 1];
      DistinctCount(init);
      assert Elements(s) == Elements(init) + {last};
      assert last !in Elements(init);
    }
  }

  // ---------------------------------------------------------------------------
  // The object

  class TaskDependencyGraph {
    var deps: Deps
    var done: set<string>

    ghost predicate Valid()
      reads this
    {
      Closed(deps) && Acyclic(deps) && done <= deps.Keys
    }

    constructor ()
      ensures deps == map[] && done == {} && Valid()
    {
      deps, done := map[], {};
      EmptyIsAcyclic();
    }

    method AddTask(t: string)
      requires Valid()
      modifies this
      ensures Valid() && done == old(done) && deps == WithTask(old(deps), t)
    {
      AddTaskKeeps(deps, t);
      if t !in deps {
        deps := deps[t := {}];
      }
    }

    /** Record that `t` requires `dep` first. A call is refused exactly when the edge would
        close a cycle; both tasks are registered even then. */
    method AddDependency(t: string, dep: string) returns (cycle: bool)
      requires Valid()
      modifies this
      ensures Valid() && done == old(done)
      ensures var d := WithTask(WithTask(old(deps), t), dep);
              && (cycle <==> !Acyclic(AddEdge(d, t, dep)))
              && (cycle <==> t == dep || Reaches(old(deps), dep, t))
              && deps == if cycle then d else AddEdge(d, t, dep)
    {
      AddTaskKeeps(deps, t);
      AddTaskKeeps(WithTask(deps, t), dep);
      AddTask(t);
      AddTask(dep);
      EdgeClosesCycleIff(deps, t, dep);
      if t == dep {
        cycle := true;
      } else {
        cycle := ReachesFrom(dep, t);
      }
      if !cycle {
        deps := deps[t := deps[t] + {dep}];
      }
    }

    method MarkDone(t: string)
      requires Valid()
      modifies this
      ensures Valid() && done == old(done) + {t} && deps == WithTask(old(deps), t)
    {
      AddTask(t);
      done := done + {t};
    }

    method IsDone(t: string) returns (r: bool)
      ensures r <==> t in done
    {
      r := t in done;
    }

    method Ready() returns (r: set<string>)
      requires Valid()
      ensures forall t :: t in r <==> IsReady(deps, done, t)
      ensures r == {} <==> Undone(deps, done) == {}
    {
      r := set t | t in deps && t !in done && deps[t] <= done;
      if Undone(deps, done) != {} {
        ghost var t :| t in Undone(deps, done);
        ghost var w := ReadyBelow(deps, done, t);
      }
    }

    method IsComplete() returns (r: bool)
      ensures r <==> Undone(deps, done) == {}
    {
      r := forall t :: t in deps ==> t in done;
      assert forall t :: t in Undone(deps, done) <==> t in deps && t !in done;
    }

    /** Depth-first search with an explicit stack. */
    method ReachesFrom(start: string, target: string) returns (found: bool)
      requires Closed(deps)
      ensures found <==> Reaches(deps, start, target)
    {
      var seen: set<string> := {};
      var stack := [start];
      ReachesItself(deps, start);
      while stack != []
        invariant seen <= deps.Keys + {start} && target !in seen
        invariant start in seen || start in stack
        invariant forall n :: n in stack ==> n in deps.Keys + {start} && Reaches(deps, start, n)
        invariant forall n :: n in seen ==> Reaches(deps, start, n)
        invariant forall n, m :: n in seen && m in Prereqs(deps, n) ==> m in seen || m in stack
        decreases |deps.Keys + {start} - seen|, |stack|
      {
        var node := stack[|stack| - 1];
        assert node in stack;
        ghost var before := stack;
        stack := stack[..|stack| - 1];
        assert forall n :: n in before ==> n in stack || n == node;
        if node == target {
          return true;
        }
        if node in seen {
          continue;
        }
        ghost var unseen := deps.Keys + {start} - seen;
        seen := seen + {node};
        assert deps.Keys + {start} - seen == unseen - {node};
        var next := SetToSeq(Prereqs(deps, node));
        forall m | m in next ensures Reaches(deps, start, m) {
          ReachesStep(deps, node, m);
          ReachesTrans(deps, start, node, m);
        }
        stack := stack + next;
      }
      if Reaches(deps, start, target) {
        ghost var p :| PathBetween(deps, p, start, target);
        StaysInside(deps, seen, p);
      }
      return false;
    }

    /** The elements of a set in some order, as iteration over it yields them. */
    static method SetToSeq(s: set<string>) returns (r: seq<string>)
      ensures Distinct(r)
      ensures forall x :: x in r <==> x in s
    {
      r := [];
      var left := s;
      while left != {}
        invariant left <= s && Distinct(r)
        invariant forall x :: x in r <==> x in s && x !in left
        decreases |left|
      {
        var x :| x in left;
        r := r + [x];
        left := left - {x};
      }
    }
  }
}
