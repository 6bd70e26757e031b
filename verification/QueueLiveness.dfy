/** Fault-free runs of the dispatch protocol: no task is lost, the work left shrinks with
    every step that does something, and a run that has nothing left to do has finished
    every task. */
module QueueLiveness {
  import opened Base
  import opened TaskTable
  import opened TaskQueue
  import opened QueueRuns
  import opened QueueLists

  predicate FaultFree(step: Step) {
    match step
    case SchedulerCall(f) => f == NoFault
    case ConsumerCall(_, _, f) => f == NoFault
    case _ => true
  }

  predicate Active(status: Status) {
    status in {Scheduled, Running, Retrying}
  }

  /** Every dispatched, unfinished task still has a token. */
  ghost predicate NoneLost(s: State) {
    forall id :: id in s.table && Active(s.table[id].status) ==> exists p :: Token(s, p, id)
  }

  // ---------------------------------------------------------------------------
  // The measure

  /** Steps left before the next write of the attempt counter, by place of the token. */
  function PlaceWeight(s: State, p: Place): nat {
    match p
    case InPush => 8
    case InQueue(_, _) => 6
    case Held(c) =>
      match PcOf(s, c)
      case Idle => 0
      case Popped(_) => 5
      case Executing(_) => 4
      case Erred(_, _) => 3
      case Succeeded(_, _) => 3
      case Decided(_, _, _, _) => 2
      case Requeuing(_) => 7
  }

  predicate InRest(s: State, id: TaskId) {
    exists i :: 0 <= i < |Rest(s.sched)| && Rest(s.sched)[i].id == id
  }

  function Retries(row: Row): nat {
    8 * Max(0, row.maxAttempts - row.attempts)
  }

  ghost function TaskWeight(s: State, id: TaskId): nat {
    if id !in s.table || Terminal(s.table[id].status) then 0
    else if s.table[id].status == Pending then
      8 * Max(0, s.table[id].maxAttempts) + (if InRest(s, id) then 9 else 11)
    else if exists p :: Token(s, p, id) then
      var p :| Token(s, p, id);
      Retries(s.table[id]) + PlaceWeight(s, p)
    else 0
  }

  function SchedulerWeight(sched: Scheduler): nat {
    match sched
    case Resting => 0
    case Looping(_) => 1
    case Pushing(_, _) => 1
    case Publishing(_) => 2
  }

  ghost function Measure(s: State): nat {
    Sum(s.table.Keys, id => TaskWeight(s, id)) + SchedulerWeight(s.sched)
  }

  /** The weight of an active task, read off its only token. */
  lemma WeightAt(s: State, p: Place, id: TaskId)
    requires Inv(s) && Token(s, p, id)
    ensures id in s.table && Active(s.table[id].status)
    ensures TaskWeight(s, id) == Retries(s.table[id]) + PlaceWeight(s, p)
  {
    assert TokenOk(s, p);
    forall q | Token(s, q, id) ensures q == p {
      OneToken(s, q, p, id);
    }
  }

  /** From `s` to `s'` only task `id` changed; every other token went where `fwd` says. */
  ghost predicate MovesOnly(s: State, s': State, id: TaskId, fwd: Place -> Place) {
    && s'.table.Keys == s.table.Keys
    && (forall k :: k in s.table && k != id ==> s'.table[k] == s.table[k])
    && (forall k :: k != id ==> (InRest(s, k) <==> InRest(s', k)))
    && (forall p :: MsgAt(s, p).Some? && MsgAt(s, p).value.id != id ==>
          MsgAt(s', fwd(p)) == MsgAt(s, p) && PlaceWeight(s', fwd(p)) == PlaceWeight(s, p))
  }

  lemma OthersKeepWeight(s: State, s': State, id: TaskId, fwd: Place -> Place, k: TaskId)
    requires Inv(s) && Inv(s') && NoneLost(s) && MovesOnly(s, s', id, fwd)
    requires k in s.table && k != id
    ensures TaskWeight(s', k) == TaskWeight(s, k)
    ensures Active(s'.table[k].status) ==> exists p :: Token(s', p, k)
  {
    if Active(s.table[k].status) {
      var p :| Token(s, p, k);
      assert Token(s', fwd(p), k);
      WeightAt(s, p, k);
      WeightAt(s', fwd(p), k);
    }
  }

  /** A step that moves one task and lowers its weight by `gap` lowers the total by `gap`. */
  lemma OneTaskDrops(s: State, s': State, id: TaskId, fwd: Place -> Place, gap: nat)
    requires Inv(s) && Inv(s') && NoneLost(s) && MovesOnly(s, s', id, fwd)
    requires id in s.table && TaskWeight(s', id) + gap <= TaskWeight(s, id)
    requires Active(s'.table[id].status) ==> exists p :: Token(s', p, id)
    ensures NoneLost(s')
    ensures Sum(s'.table.Keys, k => TaskWeight(s', k)) + gap <= Sum(s.table.Keys, k => TaskWeight(s, k))
  {
    forall k | k in s.table && k != id
      ensures TaskWeight(s', k) == TaskWeight(s, k)
      ensures Active(s'.table[k].status) ==> exists p :: Token(s', p, k)
    {
      OthersKeepWeight(s, s', id, fwd, k);
    }
    SumDropsBy(s.table.Keys, k => TaskWeight(s, k), k => TaskWeight(s', k), id, gap);
  }

  // ---------------------------------------------------------------------------
  // Every busy step of a fault-free run

  /** A step that does something: not an empty poll, not a pop from an empty list. */
  predicate Busy(s: State, step: Step) {
    match step
    case Create(_, _, _, _, _) => false
    case Poll(snapshot) => snapshot != []
    case SchedulerCall(_) => true
    case ConsumerCall(c, _, _) => !PcOf(s, c).Idle? || QueueOf(s, c.queue) != []
  }

  lemma PopDrops(s: State, c: Consumer, o: Outcome)
    requires Inv(s) && NoneLost(s) && PcOf(s, c).Idle? && QueueOf(s, c.queue) != []
    ensures NoneLost(ConsumerNext(s, c, o)) && Measure(ConsumerNext(s, c, o)) < Measure(s)
  {
    var s', id := ConsumerNext(s, c, o), QueueOf(s, c.queue)[0].id;
    PopKeepsInv(s, c, o);
    WeightAt(s, InQueue(c.queue, 0), id);
    WeightAt(s', Held(c), id);
    OneTaskDrops(s, s', id, p => AfterPop(p, c.queue), 1);
  }

  lemma RequeueDrops(s: State, c: Consumer, o: Outcome)
    requires Inv(s) && NoneLost(s) && PcOf(s, c).Requeuing?
    ensures NoneLost(ConsumerNext(s, c, o)) && Measure(ConsumerNext(s, c, o)) < Measure(s)
  {
    var s', id := ConsumerNext(s, c, o), PcOf(s, c).msg.id;
    RequeueKeepsInv(s, c, o);
    WeightAt(s, Held(c), id);
    WeightAt(s', InQueue(c.queue, 0), id);
    OneTaskDrops(s, s', id, p => AfterPush(p, c.queue), 1);
  }

  lemma PushDrops(s: State)
    requires Inv(s) && NoneLost(s) && s.sched.Pushing?
    ensures NoneLost(SchedulerNext(s)) && Measure(SchedulerNext(s)) < Measure(s)
  {
    var s', m := SchedulerNext(s), s.sched.msg;
    var key := QueueKey(m.provider);
    PushKeepsInv(s);
    assert Rest(s'.sched) == Rest(s.sched);
    WeightAt(s, InPush, m.id);
    WeightAt(s', InQueue(key, 0), m.id);
    OneTaskDrops(s, s', m.id, p => AfterPush(p, key), 2);
  }

  /** Changing one consumer and the row it holds disturbs no other task. */
  lemma HolderMovesOnly(s: State, s': State, c: Consumer)
    requires !PcOf(s, c).Idle? && s'.queues == s.queues && s'.sched == s.sched
    requires forall d :: d != c ==> PcOf(s', d) == PcOf(s, d)
    requires s'.table.Keys == s.table.Keys
    requires forall k :: k in s.table && k != PcOf(s, c).msg.id ==> s'.table[k] == s.table[k]
    ensures MovesOnly(s, s', PcOf(s, c).msg.id, p => p)
  {
    assert Rest(s'.sched) == Rest(s.sched);
    forall p | MsgAt(s, p).Some? && MsgAt(s, p).value.id != PcOf(s, c).msg.id
      ensures MsgAt(s', p) == MsgAt(s, p) && PlaceWeight(s', p) == PlaceWeight(s, p) {
      match p
      case Held(d) => assert PcOf(s', d) == PcOf(s, d);
      case InQueue(k, _) => assert QueueOf(s', k) == QueueOf(s, k);
      case InPush =>
    }
  }

  lemma WorkLowersWeight(s: State, c: Consumer, o: Outcome)
    requires Inv(s) && Inv(ConsumerNext(s, c, o)) && Working(PcOf(s, c))
    ensures var s', id := ConsumerNext(s, c, o), PcOf(s, c).msg.id;
            && id in s.table && id in s'.table
            && TaskWeight(s', id) < TaskWeight(s, id)
            && (Active(s'.table[id].status) ==> Token(s', Held(c), id))
  {
    var s', id := ConsumerNext(s, c, o), PcOf(s, c).msg.id;
    WeightAt(s, Held(c), id);
    assert TokenOk(s, Held(c));
    if !PcOf(s', c).Idle? {
      WeightAt(s', Held(c), id);
    }
  }

  lemma WorkDrops(s: State, c: Consumer, o: Outcome)
    requires Inv(s) && NoneLost(s) && Working(PcOf(s, c))
    ensures NoneLost(ConsumerNext(s, c, o)) && Measure(ConsumerNext(s, c, o)) < Measure(s)
  {
    var s', id := ConsumerNext(s, c, o), PcOf(s, c).msg.id;
    HolderWriteKeepsInv(s, c, o);
    WorkLowersWeight(s, c, o);
    HolderMovesOnly(s, s', c);
    OneTaskDrops(s, s', id, p => p, 1);
  }

  lemma DispatchDrops(s: State)
    requires Inv(s) && NoneLost(s) && s.sched.Looping?
    ensures NoneLost(SchedulerNext(s)) && Measure(SchedulerNext(s)) < Measure(s)
  {
    var s', m := SchedulerNext(s), s.sched.rest[0];
    DispatchKeepsInv(s);
    assert Faithful(s.table, Rest(s.sched)[0]) && InRest(s, m.id);
    assert forall i :: 0 <= i < |Rest(s'.sched)| ==> Rest(s'.sched)[i] == Rest(s.sched)[i + 1];
    forall k | k != m.id ensures InRest(s, k) <==> InRest(s', k) {
      if InRest(s, k) {
        var i :| 0 <= i < |Rest(s.sched)| && Rest(s.sched)[i].id == k;
        assert Rest(s'.sched)[i - 1].id == k;
      }
    }
    WeightAt(s', InPush, m.id);
    OneTaskDrops(s, s', m.id, p => p, 1);
  }

  /** Publishing changes no task. */
  lemma PublishDrops(s: State)
    requires Inv(s) && NoneLost(s) && s.sched.Publishing?
    ensures NoneLost(SchedulerNext(s)) && Measure(SchedulerNext(s)) < Measure(s)
  {
    var s' := SchedulerNext(s);
    SchedulerKeepsInv(s);
    assert Rest(s'.sched) == Rest(s.sched);
    forall k | k in s.table
      ensures TaskWeight(s', k) == TaskWeight(s, k)
      ensures Active(s'.table[k].status) ==> exists p :: Token(s', p, k)
    {
      SameWeight(s, s', k);
    }
    SumDrops(s.table.Keys, k => TaskWeight(s, k), k => TaskWeight(s', k));
  }

  lemma SameWeight(s: State, s': State, k: TaskId)
    requires Inv(s) && Inv(s') && NoneLost(s) && k in s.table && s'.table == s.table
    requires forall p :: MsgAt(s', p) == MsgAt(s, p) && PlaceWeight(s', p) == PlaceWeight(s, p)
    requires s.table[k].status == Pending ==> (InRest(s, k) <==> InRest(s', k))
    ensures TaskWeight(s', k) == TaskWeight(s, k)
    ensures Active(s'.table[k].status) ==> exists p :: Token(s', p, k)
  {
    if Active(s.table[k].status) {
      var p :| Token(s, p, k);
      assert Token(s', p, k);
      WeightAt(s, p, k);
      WeightAt(s', p, k);
    }
  }

  /** A poll that finds work makes that work cheaper: it will not be polled again. */
  lemma PollDrops(s: State, step: Step)
    requires Inv(s) && NoneLost(s) && step.Poll? && Enabled(s, step) && step.snapshot != []
    ensures NoneLost(Apply(s, step)) && Measure(Apply(s, step)) < Measure(s)
  {
    var s' := Apply(s, step);
    var first := step.snapshot[0];
    PollKeepsInv(s, step);
    assert !InRest(s, first);
    assert Rest(s'.sched)[0].id == first && InRest(s', first);
    forall k | k in s.table
      ensures TaskWeight(s', k) <= TaskWeight(s, k)
      ensures Active(s'.table[k].status) ==> exists p :: Token(s', p, k)
    {
      if s.table[k].status != Pending {
        SameWeight(s, s', k);
      }
    }
    SumDropsBy(s.table.Keys, k => TaskWeight(s, k), k => TaskWeight(s', k), first, 2);
  }

  /** Every busy fault-free step loses no task and strictly lowers the measure. */
  lemma BusyStepDrops(s: State, step: Step)
    requires Inv(s) && NoneLost(s) && Enabled(s, step) && FaultFree(step) && Busy(s, step)
    ensures NoneLost(Apply(s, step)) && Measure(Apply(s, step)) < Measure(s)
  {
    match step
    case Poll(_) => PollDrops(s, step);
    case SchedulerCall(_) =>
      match s.sched {
        case Looping(_) => DispatchDrops(s);
        case Pushing(_, _) => PushDrops(s);
        case Publishing(_) => PublishDrops(s);
      }
    case ConsumerCall(c, o, _) =>
      if PcOf(s, c).Idle? {
        PopDrops(s, c, o);
      } else if PcOf(s, c).Requeuing? {
        RequeueDrops(s, c, o);
      } else {
        WorkDrops(s, c, o);
      }
  }

  lemma CreateLosesNone(s: State, step: Step)
    requires NoneLost(s) && step.Create? && Enabled(s, step)
    ensures NoneLost(Apply(s, step))
  {
    var s' := Apply(s, step);
    forall id | id in s'.table && Active(s'.table[id].status) ensures exists p :: Token(s', p, id) {
      var p :| Token(s, p, id);
      assert Token(s', p, id);
    }
  }

  /** A step that is not busy and creates nothing leaves the state as it was. */
  lemma IdleStepStutters(s: State, step: Step)
    requires Inv(s) && Enabled(s, step) && FaultFree(step) && !Busy(s, step) && !step.Create?
    ensures Apply(s, step) == s
  {
  }

  ghost predicate FaultFreeRun(run: seq<Step>) {
    forall i :: 0 <= i < |run| ==> FaultFree(run[i])
  }

  lemma {:induction false} FaultFreeRunLosesNone(s: State, run: seq<Step>)
    requires Inv(s) && NoneLost(s) && ValidRun(s, run) && FaultFreeRun(run)
    ensures Inv(Exec(s, run)) && NoneLost(Exec(s, run))
  {
    if run != [] {
      var before, last := run[..|run| - 1], run[|run| - 1];
      FaultFreeRunLosesNone(s, before);
      var t := Exec(s, before);
      StepKeepsInv(t, last);
      if last.Create? {
        CreateLosesNone(t, last);
      } else if Busy(t, last) {
        BusyStepDrops(t, last);
      } else {
        IdleStepStutters(t, last);
      }
    }
  }

  /** In a fault-free run every SCHEDULED, RUNNING or RETRYING task has exactly one token
      and every other task has none. */
  lemma FaultFreeTokens(run: seq<Step>, id: TaskId)
    requires ValidRun(EMPTY, run) && FaultFreeRun(run)
    ensures (exists p :: Token(Exec(EMPTY, run), p, id)) <==>
            id in Exec(EMPTY, run).table && Active(Exec(EMPTY, run).table[id].status)
    ensures forall p, q :: Token(Exec(EMPTY, run), p, id) && Token(Exec(EMPTY, run), q, id) ==> p == q
  {
    EmptyIsInv();
    FaultFreeRunLosesNone(EMPTY, run);
    var s := Exec(EMPTY, run);
    forall p | Token(s, p, id) ensures id in s.table && Active(s.table[id].status) {
      assert TokenOk(s, p);
    }
  }

  // ---------------------------------------------------------------------------
  // Termination and completion

  ghost function BusySteps(s: State, run: seq<Step>): nat
    requires ValidRun(s, run)
  {
    if run == [] then 0
    else BusySteps(s, run[..|run| - 1])
         + if Busy(Exec(s, run[..|run| - 1]), run[|run| - 1]) then 1 else 0
  }

  /** Without faults and new tasks, the number of busy steps is bounded by the measure. */
  lemma {:induction false} FaultFreeRunsTerminate(s: State, run: seq<Step>)
    requires Inv(s) && NoneLost(s) && ValidRun(s, run) && FaultFreeRun(run)
    requires forall i :: 0 <= i < |run| ==> !run[i].Create?
    ensures BusySteps(s, run) + Measure(Exec(s, run)) <= Measure(s)
  {
    if run != [] {
      var before, last := run[..|run| - 1], run[|run| - 1];
      FaultFreeRunsTerminate(s, before);
      FaultFreeRunLosesNone(s, before);
      var t := Exec(s, before);
      if Busy(t, last) {
        BusyStepDrops(t, last);
      } else {
        IdleStepStutters(t, last);
      }
    }
  }

  /** Nothing is left to do for these consumers and the scheduler: no enabled fault-free step
      is busy. */
  ghost predicate Quiescent(s: State, team: set<Consumer>) {
    forall step :: Enabled(s, step) && FaultFree(step) && TakenBy(step, team) ==> !Busy(s, step)
  }

  lemma OldestExists(t: Table, ids: set<TaskId>) returns (oldest: TaskId)
    requires ids != {} && ids <= t.Keys
    ensures oldest in ids && forall id :: id in ids ==> t[oldest].createdAt <= t[id].createdAt
    decreases |ids|
  {
    oldest :| oldest in ids;
    if ids != {oldest} {
      assert ids - {oldest} != {};
      var other := OldestExists(t, ids - {oldest});
      if t[other].createdAt < t[oldest].createdAt {
        oldest := other;
      }
    }
  }

  /** A poll always has an answer. */
  lemma SnapshotExists(t: Table, limit: nat) returns (ids: seq<TaskId>)
    ensures IsPendingSnapshot(t, ids, limit)
  {
    if limit == 0 {
      ids := [];
    } else {
      ids := SnapshotExists(t, limit - 1);
      var left := set id | id in t && t[id].status == Pending && id !in ids;
      assert forall id :: id in t && t[id].status == Pending && id !in ids ==> id in left;
      if left != {} {
        var oldest := OldestExists(t, left);
        assert oldest !in ids && |ids| == limit - 1;
        ids := ids + [oldest];
      }
    }
  }

  ghost predicate OthersIdle(s: State, team: set<Consumer>) {
    forall c :: c !in team ==> PcOf(s, c).Idle?
  }

  lemma StepKeepsOthersIdle(s: State, step: Step, team: set<Consumer>)
    requires OthersIdle(s, team) && Enabled(s, step) && TakenBy(step, team)
    ensures OthersIdle(Apply(s, step), team)
  {
    match step
    case SchedulerCall(_) => assert SchedulerNext(s).consumers == s.consumers;
    case ConsumerCall(c, o, _) => assert forall d :: d != c ==> PcOf(ConsumerNext(s, c, o), d) == PcOf(s, d);
    case _ =>
  }

  lemma {:induction false} TeamRun(run: seq<Step>, team: set<Consumer>)
    requires ValidRun(EMPTY, run) && ByTeam(run, team)
    ensures OthersIdle(Exec(EMPTY, run), team)
  {
    if run != [] {
      TeamRun(run[..|run| - 1], team);
      StepKeepsOthersIdle(Exec(EMPTY, run[..|run| - 1]), run[|run| - 1], team);
    }
  }

  /** In a quiescent state reached without faults the scheduler rests, and nobody holds work. */
  lemma QuiescentMeansWaiting(s: State, team: set<Consumer>, id: TaskId)
    requires Inv(s) && NoneLost(s) && OthersIdle(s, team) && Quiescent(s, team) && id in s.table
    ensures Terminal(s.table[id].status) || exists k, i :: Token(s, InQueue(k, i), id)
  {
    var none := Outcome(None, None);
    assert s.sched == Resting by {
      assert !Enabled(s, SchedulerCall(NoFault)) || !Busy(s, SchedulerCall(NoFault));
    }
    if s.table[id].status == Pending {
      var ids := SnapshotExists(s.table, POLL_LIMIT);
      assert ids != [] && Enabled(s, Poll(ids));
      assert false;
    } else if Active(s.table[id].status) {
      var p :| Token(s, p, id);
      match p {
        case InPush => assert false;
        case Held(c) => assert Busy(s, ConsumerCall(c, none, NoFault)); assert false;
        case InQueue(_, _) =>
      }
    }
  }

  lemma QuiescentListsAreUnserved(s: State, team: set<Consumer>, k: string, i: int, id: TaskId)
    requires Inv(s) && OwnLists(s) && OthersIdle(s, team) && Quiescent(s, team)
    requires Token(s, InQueue(k, i), id)
    ensures id in s.table && !Served(s.table[id], team)
  {
    assert TokenOk(s, InQueue(k, i));
    if c :| c in team && c.queue == k {
      assert Busy(s, ConsumerCall(c, Outcome(None, None), NoFault));
      assert false;
    }
  }

  /** A fault-free run that has nothing left to do has completed or failed every task whose
      provider's list some running consumer serves; every other task is SCHEDULED and waits. */
  lemma FaultFreeRunsFinish(run: seq<Step>, team: set<Consumer>, id: TaskId)
    requires ValidRun(EMPTY, run) && FaultFreeRun(run) && ByTeam(run, team)
    requires Quiescent(Exec(EMPTY, run), team) && id in Exec(EMPTY, run).table
    ensures var row := Exec(EMPTY, run).table[id];
            if Served(row, team) then Terminal(row.status) else row.status == Scheduled
  {
    var s := Exec(EMPTY, run);
    EmptyIsInv();
    FaultFreeRunLosesNone(EMPTY, run);
    OwnListsAlways(run);
    TeamRun(run, team);
    QuiescentMeansWaiting(s, team, id);
    if !Terminal(s.table[id].status) {
      var k, i :| Token(s, InQueue(k, i), id);
      assert TokenOk(s, InQueue(k, i));
      QuiescentListsAreUnserved(s, team, k, i, id);
    }
    if !Served(s.table[id], team) {
      UnservedNeverRuns(run, team, id);
    }
  }

  /** A busy step other than a creation, with the given outcome should it be an execution. */
  lemma BusyStep(s: State, team: set<Consumer>, o: Outcome) returns (step: Step)
    requires !Quiescent(s, team)
    ensures Enabled(s, step) && FaultFree(step) && TakenBy(step, team) && Busy(s, step) && !step.Create?
    ensures step.ConsumerCall? ==> step.outcome == o
  {
    step :| Enabled(s, step) && FaultFree(step) && TakenBy(step, team) && Busy(s, step);
    if step.ConsumerCall? {
      step := ConsumerCall(step.c, o, NoFault);
    }
  }

  /** What `full` adds to `run`: no faults, no new tasks, executions that come to `o`. */
  ghost predicate Completes(run: seq<Step>, full: seq<Step>, team: set<Consumer>, o: Outcome) {
    && run <= full && ValidRun(EMPTY, full) && FaultFreeRun(full) && ByTeam(full, team)
    && (forall i :: |run| <= i < |full| ==> !full[i].Create? && (full[i].ConsumerCall? ==> full[i].outcome == o))
    && Quiescent(Exec(EMPTY, full), team)
  }

  lemma OneMore(run: seq<Step>, step: Step, id: TaskId)
    requires ValidRun(EMPTY, run) && Enabled(Exec(EMPTY, run), step)
    ensures ValidRun(EMPTY, run + [step]) && Exec(EMPTY, run + [step]) == Apply(Exec(EMPTY, run), step)
    ensures AlwaysFails(EMPTY, run, id) && (step.ConsumerCall? ==> step.outcome.Failed()) ==>
              AlwaysFails(EMPTY, run + [step], id)
  {
    assert (run + [step])[..|run|] == run;
  }

  /** Every fault-free run can be continued, with executions ending as one likes, until nothing
      is left to do. */
  lemma {:induction false} RunsCanComplete(run: seq<Step>, team: set<Consumer>, o: Outcome, id: TaskId)
    returns (full: seq<Step>)
    requires ValidRun(EMPTY, run) && FaultFreeRun(run) && ByTeam(run, team)
    ensures Completes(run, full, team, o)
    ensures o.Failed() && AlwaysFails(EMPTY, run, id) ==> AlwaysFails(EMPTY, full, id)
    decreases Measure(Exec(EMPTY, run))
  {
    var s := Exec(EMPTY, run);
    if Quiescent(s, team) {
      full := run;
    } else {
      var step := BusyStep(s, team, o);
      EmptyIsInv();
      FaultFreeRunLosesNone(EMPTY, run);
      BusyStepDrops(s, step);
      OneMore(run, step, id);
      full := RunsCanComplete(run + [step], team, o, id);
      assert full[|run|] == step;
    }
  }

  // ---------------------------------------------------------------------------
  // A task that always fails

  /** Every execution of `id` in the run ends in an error. */
  ghost predicate AlwaysFails(s: State, run: seq<Step>, id: TaskId)
    requires ValidRun(s, run)
  {
    run != [] ==>
      && AlwaysFails(s, run[..|run| - 1], id)
      && (var t, last := Exec(s, run[..|run| - 1]), run[|run| - 1];
          last.ConsumerCall? && PcOf(t, last.c).Executing? && PcOf(t, last.c).msg.id == id
          ==> last.outcome.Failed())
  }

  ghost predicate NeverSucceeded(s: State, id: TaskId) {
    && (id in s.table ==> s.table[id].status != Completed)
    && forall c :: PcOf(s, c).Succeeded? ==> PcOf(s, c).msg.id != id
  }

  lemma FailingCallNeverSucceeds(s: State, c: Consumer, o: Outcome, id: TaskId)
    requires NeverSucceeded(s, id)
    requires PcOf(s, c).Executing? && PcOf(s, c).msg.id == id ==> o.Failed()
    ensures NeverSucceeded(ConsumerNext(s, c, o), id)
  {
    var s' := ConsumerNext(s, c, o);
    assert PcOf(s, c).Succeeded? ==> PcOf(s, c).msg.id != id;
    assert forall d :: d != c ==> PcOf(s', d) == PcOf(s, d);
  }

  lemma FailingStepNeverSucceeds(s: State, step: Step, id: TaskId)
    requires NeverSucceeded(s, id) && Enabled(s, step)
    requires step.ConsumerCall? && PcOf(s, step.c).Executing? && PcOf(s, step.c).msg.id == id ==> step.outcome.Failed()
    ensures NeverSucceeded(Apply(s, step), id)
  {
    var s' := Apply(s, step);
    if step.ConsumerCall? {
      FailingCallNeverSucceeds(s, step.c, step.outcome, id);
      var next := if HasEffect(step.fault) then ConsumerNext(s, step.c, step.outcome) else s;
      assert forall d :: PcOf(SetPc(next, step.c, Idle), d) == if d == step.c then Idle else PcOf(next, d);
    } else {
      assert s'.consumers == s.consumers;
      assert forall c :: PcOf(s', c) == PcOf(s, c);
    }
  }

  lemma {:induction false} AlwaysFailingNeverCompletes(run: seq<Step>, id: TaskId)
    requires ValidRun(EMPTY, run) && AlwaysFails(EMPTY, run, id)
    ensures NeverSucceeded(Exec(EMPTY, run), id)
  {
    if run != [] {
      var before, last := run[..|run| - 1], run[|run| - 1];
      AlwaysFailingNeverCompletes(before, id);
      FailingStepNeverSucceeds(Exec(EMPTY, before), last, id);
    }
  }

  /** An always-failing task that is served, run without faults until nothing is left to do,
      ends FAILED after exactly max(1, max_attempts - 1) executions. */
  lemma AlwaysFailingTask(run: seq<Step>, team: set<Consumer>, id: TaskId)
    requires ValidRun(EMPTY, run) && FaultFreeRun(run) && ByTeam(run, team) && AlwaysFails(EMPTY, run, id)
    requires Quiescent(Exec(EMPTY, run), team)
    requires id in Exec(EMPTY, run).table && Served(Exec(EMPTY, run).table[id], team)
    ensures Exec(EMPTY, run).table[id].status == Failed
    ensures Executions(EMPTY, run, id) == ExecutionLimit(Exec(EMPTY, run).table[id].maxAttempts)
  {
    FaultFreeRunsFinish(run, team, id);
    AlwaysFailingNeverCompletes(run, id);
    ExecutionsAreBounded(run, id);
  }

  /** And it does get there: from a new task served by some consumer, a fault-free run in which
      every execution fails leads to exactly that end. */
  lemma FailingTaskRunsOut(id: TaskId, job: Job, provider: string, maxAttempts: int, c: Consumer, error: string)
    returns (run: seq<Step>)
    requires c.queue == QueueKey(if provider == "" then DEFAULT_PROVIDER else provider) && error != ""
    ensures ValidRun(EMPTY, run) && FaultFreeRun(run) && AlwaysFails(EMPTY, run, id)
    ensures id in Exec(EMPTY, run).table && Exec(EMPTY, run).table[id].status == Failed
    ensures Executions(EMPTY, run, id) == ExecutionLimit(maxAttempts)
  {
    var created := Create(id, job, provider, maxAttempts, 0);
    OneMore([], created, id);
    var start := [] + [created];
    assert AlwaysFails(EMPTY, start, id) by {
      assert start[..|start| - 1] == [];
    }
    run := RunsCanComplete(start, {c}, Outcome(None, Some(error)), id);
    RowIsFixed(start, run, id);
    assert c in {c};
    AlwaysFailingTask(run, {c}, id);
  }

  /** A task keeps its provider and its maximum. */
  lemma {:induction false} RowIsFixed(run: seq<Step>, full: seq<Step>, id: TaskId)
    requires ValidRun(EMPTY, run) && ValidRun(EMPTY, full) && run <= full && id in Exec(EMPTY, run).table
    ensures id in Exec(EMPTY, full).table
    ensures Exec(EMPTY, full).table[id].provider == Exec(EMPTY, run).table[id].provider
    ensures Exec(EMPTY, full).table[id].maxAttempts == Exec(EMPTY, run).table[id].maxAttempts
    decreases |full|
  {
    if run != full {
      var before := full[..|full| - 1];
      assert run <= before;
      RowIsFixed(run, before, id);
      ProviderIsFixed(Exec(EMPTY, before), full[|full| - 1], id);
    }
  }
}
