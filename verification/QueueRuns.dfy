/** Safety over whole runs of the dispatch protocol: single tokens, status histories and the
    exact number of executions. */
module QueueRuns {
  import opened Base
  import opened TaskTable
  import opened TaskQueue

  // ---------------------------------------------------------------------------
  // Safety over every run

  lemma EmptyIsInv()
    ensures Inv(EMPTY)
  {
    assert forall p :: MsgAt(EMPTY, p).None?;
  }

  /** In every reachable state a task has at most one token, so no two consumers ever
      work on the same task, and a consumer about to write back the attempt counter it
      read still holds the current value. */
  lemma SingleTokenAlways(run: seq<Step>)
    requires ValidRun(EMPTY, run)
    ensures SingleToken(Exec(EMPTY, run))
    ensures forall c, d ::
      && !PcOf(Exec(EMPTY, run), c).Idle? && !PcOf(Exec(EMPTY, run), d).Idle?
      && PcOf(Exec(EMPTY, run), c).msg.id == PcOf(Exec(EMPTY, run), d).msg.id
      ==> c == d
    ensures forall c {:trigger PcOf(Exec(EMPTY, run), c)} ::
      PcOf(Exec(EMPTY, run), c).Decided? ==>
        var pc := PcOf(Exec(EMPTY, run), c);
        var table := Exec(EMPTY, run).table;
        pc.msg.id in table && pc.attempts == table[pc.msg.id].attempts + 1
  {
    EmptyIsInv();
    RunKeepsInv(EMPTY, run);
    var s := Exec(EMPTY, run);
    forall c, d | !PcOf(s, c).Idle? && !PcOf(s, d).Idle? && PcOf(s, c).msg.id == PcOf(s, d).msg.id
      ensures c == d
    {
      assert MsgAt(s, Held(c)).Some? && MsgAt(s, Held(d)).Some?;
    }
    forall c | PcOf(s, c).Decided?
      ensures PcOf(s, c).msg.id in s.table && PcOf(s, c).attempts == s.table[PcOf(s, c).msg.id].attempts + 1
    {
      assert TokenOk(s, Held(c));
    }
  }

  predicate Terminal(status: Status) {
    status in {Completed, Failed}
  }

  /** The documented life cycle of a task. */
  predicate Follows(before: Status, after: Status) {
    || before == after
    || (before == Pending && after == Scheduled)
    || (before == Scheduled && after == Running)
    || (before == Running && after in {Completed, Failed, Retrying})
    || (before == Retrying && after == Running)
  }

  /** One step moves each task along the life cycle and never touches a finished row. */
  lemma StepFollowsLifeCycle(s: State, step: Step, id: TaskId)
    requires Inv(s) && Enabled(s, step) && id in s.table
    ensures id in Apply(s, step).table
    ensures Follows(s.table[id].status, Apply(s, step).table[id].status)
    ensures Terminal(s.table[id].status) ==> Apply(s, step).table[id] == s.table[id]
    ensures Apply(s, step).table[id].maxAttempts == s.table[id].maxAttempts
  {
    match step
    case Create(_, _, _, _, _) =>
    case Poll(_) =>
    case SchedulerCall(_) =>
      if s.sched.Looping? {
        assert Faithful(s.table, Rest(s.sched)[0]);
      }
    case ConsumerCall(c, _, _) => assert TokenOk(s, Held(c));
  }

  lemma {:induction false} PrefixIsRun(s: State, run: seq<Step>, n: nat)
    requires ValidRun(s, run) && n <= |run|
    ensures ValidRun(s, run[..n])
  {
    if n < |run| {
      PrefixIsRun(s, run[..|run| - 1], n);
      assert run[..|run| - 1][..n] == run[..n];
    } else {
      assert run[..n] == run;
    }
  }

  /** Once a task is COMPLETED or FAILED its row never changes again, in any run. */
  lemma {:induction false} TerminalRowsAreStable(run: seq<Step>, n: nat, id: TaskId)
    requires ValidRun(EMPTY, run) && n <= |run| && ValidRun(EMPTY, run[..n])
    requires id in Exec(EMPTY, run[..n]).table && Terminal(Exec(EMPTY, run[..n]).table[id].status)
    ensures id in Exec(EMPTY, run).table
    ensures Exec(EMPTY, run).table[id] == Exec(EMPTY, run[..n]).table[id]
    decreases |run|
  {
    if n == |run| {
      assert run[..n] == run;
    } else {
      var before := run[..|run| - 1];
      assert before[..n] == run[..n];
      TerminalRowsAreStable(before, n, id);
      EmptyIsInv();
      RunKeepsInv(EMPTY, before);
      StepFollowsLifeCycle(Exec(EMPTY, before), run[|run| - 1], id);
    }
  }

  // ---------------------------------------------------------------------------
  // How often a task is executed

  /** Does this step begin an execution of `id`? */
  function Starts(s: State, step: Step, id: TaskId): nat {
    if step.ConsumerCall? && step.fault == NoFault && PcOf(s, step.c).Popped? && PcOf(s, step.c).msg.id == id
    then 1 else 0
  }

  ghost function Executions(s: State, run: seq<Step>, id: TaskId): nat
    requires ValidRun(s, run)
  {
    if run == [] then 0
    else Executions(s, run[..|run| - 1], id)
         + Starts(Exec(s, run[..|run| - 1]), run[|run| - 1], id)
  }

  /** Executions a task may have: the dispatch already counts as attempt 1. */
  function ExecutionLimit(maxAttempts: int): int {
    Max(1, maxAttempts - 1)
  }

  /** The token is with a consumer that has begun an execution it has not yet recorded. */
  predicate Underway(s: State, p: Place) {
    p.Held? && var pc := PcOf(s, p.c); pc.Executing? || pc.Erred? || pc.Decided? || pc.Succeeded?
  }

  /** What a row says after `n` executions of its task have begun. */
  predicate RowSays(row: Row, n: nat) {
    match row.status
    case Pending => n == 0 && row.attempts == 0
    case Scheduled => n == 0 && row.attempts == 1
    case Running => n <= row.attempts <= n + 1
    case Retrying => row.attempts == n + 1 && row.attempts < row.maxAttempts && row.error.Some?
    case Completed => n >= 1 && row.attempts == 0
    case Failed => n == ExecutionLimit(row.maxAttempts) && row.attempts == n + 1 && row.error.Some?
  }

  /** `n` executions of `id` have begun: what the row and the token then say. */
  ghost predicate Counted(s: State, id: TaskId, n: nat) {
    if id !in s.table then n == 0
    else
      var row := s.table[id];
      && n <= ExecutionLimit(row.maxAttempts)
      && RowSays(row, n)
      && forall p :: Token(s, p, id) ==>
           if Underway(s, p) then n >= 1 && row.attempts == n && (n == 1 || n < row.maxAttempts)
           else row.attempts == n + 1 && (n == 0 || n + 1 < row.maxAttempts)
  }

  /** Moving the token of `id` without writing its row keeps the count. */
  lemma MoveKeepsCount(s: State, s': State, id: TaskId, n: nat, back: Place -> Place)
    requires Counted(s, id, n)
    requires id in s'.table <==> id in s.table
    requires id in s.table ==> s'.table[id] == s.table[id]
    requires forall p :: Token(s', p, id) ==> Token(s, back(p), id) && Underway(s, back(p)) == Underway(s', p)
    ensures Counted(s', id, n)
  {
  }

  lemma OneToken(s: State, p: Place, q: Place, id: TaskId)
    requires SingleToken(s) && Token(s, p, id) && Token(s, q, id)
    ensures p == q
  {
    assert MsgAt(s, p).Some? && MsgAt(s, q).Some?;
  }

  lemma DispatchKeepsCount(s: State, id: TaskId, n: nat)
    requires Inv(s) && Counted(s, id, n) && s.sched.Looping?
    ensures Counted(SchedulerNext(s), id, n)
  {
    var s' := SchedulerNext(s);
    assert Faithful(s.table, Rest(s.sched)[0]);
    if id != s.sched.rest[0].id {
      MoveKeepsCount(s, s', id, n, p => p);
    } else {
      forall p | Token(s', p, id) ensures p == InPush {
        assert TokenOk(s, p);
      }
    }
  }

  lemma SchedulerKeepsCount(s: State, id: TaskId, n: nat)
    requires Inv(s) && Counted(s, id, n)
    ensures Counted(SchedulerNext(s), id, n)
  {
    match s.sched
    case Resting =>
    case Looping(rest) => DispatchKeepsCount(s, id, n);
    case Pushing(m, _) =>
      var key := QueueKey(m.provider);
      MoveKeepsCount(s, SchedulerNext(s), id, n, p => BeforePush(p, key, InPush));
    case Publishing(_) => MoveKeepsCount(s, SchedulerNext(s), id, n, p => p);
  }

  lemma QueueMoveKeepsCount(s: State, c: Consumer, o: Outcome, id: TaskId, n: nat)
    requires Counted(s, id, n) && (PcOf(s, c).Idle? || PcOf(s, c).Requeuing?)
    ensures Counted(ConsumerNext(s, c, o), id, n)
  {
    var s' := ConsumerNext(s, c, o);
    if PcOf(s, c).Requeuing? {
      MoveKeepsCount(s, s', id, n, p => BeforePush(p, c.queue, Held(c)));
    } else if QueueOf(s, c.queue) != [] {
      MoveKeepsCount(s, s', id, n, p => BeforePop(p, c));
    }
  }

  /** A consumer working on another task does not touch this one. */
  lemma StrangerKeepsCount(s: State, c: Consumer, o: Outcome, id: TaskId, n: nat)
    requires Counted(s, id, n)
    requires Working(PcOf(s, c)) && PcOf(s, c).msg.id != id
    ensures Counted(ConsumerNext(s, c, o), id, n)
  {
    MoveKeepsCount(s, ConsumerNext(s, c, o), id, n, p => p);
  }

  lemma ConsumerKeepsCount(s: State, c: Consumer, o: Outcome, id: TaskId, n: nat)
    requires Inv(s) && Counted(s, id, n)
    ensures Counted(ConsumerNext(s, c, o), id, n + Starts(s, ConsumerCall(c, o, NoFault), id))
  {
    if PcOf(s, c).Idle? || PcOf(s, c).Requeuing? {
      QueueMoveKeepsCount(s, c, o, id, n);
    } else if PcOf(s, c).msg.id == id {
      HolderKeepsCount(s, c, o, n);
    } else {
      StrangerKeepsCount(s, c, o, id, n);
    }
  }

  /** The holder's own steps: beginning an execution counts, and the counter written back
      is one more than the executions so far. */
  lemma HolderKeepsCount(s: State, c: Consumer, o: Outcome, n: nat)
    requires Inv(s) && Working(PcOf(s, c))
    requires Counted(s, PcOf(s, c).msg.id, n)
    ensures var id := PcOf(s, c).msg.id;
            Counted(ConsumerNext(s, c, o), id, n + Starts(s, ConsumerCall(c, o, NoFault), id))
  {
    var s', id := ConsumerNext(s, c, o), PcOf(s, c).msg.id;
    assert TokenOk(s, Held(c)) && Token(s, Held(c), id);
    forall p | Token(s', p, id) ensures p == Held(c) {
      if p != Held(c) {
        OneToken(s, p, Held(c), id);
      }
    }
  }

  /** A call that took effect and then failed has begun no execution. */
  lemma LateFaultKeepsCount(s: State, c: Consumer, o: Outcome, id: TaskId, n: nat)
    requires Inv(s) && Counted(s, id, n)
    ensures Counted(SetPc(ConsumerNext(s, c, o), c, Idle), id, n)
  {
    var s' := ConsumerNext(s, c, o);
    ConsumerKeepsCount(s, c, o, id, n);
    if Starts(s, ConsumerCall(c, o, NoFault), id) == 0 {
      MoveKeepsCount(s', SetPc(s', c, Idle), id, n, p => p);
    } else {
      assert TokenOk(s, Held(c));
      forall p ensures !Token(SetPc(s', c, Idle), p, id) {
        if p != Held(c) && Token(s, p, id) {
          OneToken(s, p, Held(c), id);
        }
      }
    }
  }

  lemma CreateKeepsCount(s: State, step: Step, id: TaskId, n: nat)
    requires Inv(s) && step.Create? && Enabled(s, step) && Counted(s, id, n)
    ensures Counted(Apply(s, step), id, n)
  {
    var s' := Apply(s, step);
    if id != step.id {
      MoveKeepsCount(s, s', id, n, p => p);
    } else {
      forall p ensures !Token(s', p, id) {
        assert TokenOk(s, p);
      }
    }
  }

  lemma SchedulerCallKeepsCount(s: State, f: Fault, id: TaskId, n: nat)
    requires Inv(s) && Counted(s, id, n) && Enabled(s, SchedulerCall(f))
    ensures Counted(Apply(s, SchedulerCall(f)), id, n)
  {
    SchedulerKeepsCount(s, id, n);
    var next := if HasEffect(f) then SchedulerNext(s) else s;
    MoveKeepsCount(next, next.(sched := Resting), id, n, p => p);
  }

  lemma ConsumerCallKeepsCount(s: State, step: Step, id: TaskId, n: nat)
    requires Inv(s) && Counted(s, id, n) && step.ConsumerCall?
    ensures Counted(Apply(s, step), id, n + Starts(s, step, id))
  {
    match step.fault
    case NoFault => ConsumerKeepsCount(s, step.c, step.outcome, id, n);
    case Lost => MoveKeepsCount(s, SetPc(s, step.c, Idle), id, n, p => p);
    case Late => LateFaultKeepsCount(s, step.c, step.outcome, id, n);
  }

  lemma StepKeepsCount(s: State, step: Step, id: TaskId, n: nat)
    requires Inv(s) && Enabled(s, step) && Counted(s, id, n)
    ensures Counted(Apply(s, step), id, n + Starts(s, step, id))
  {
    match step
    case Create(_, _, _, _, _) => CreateKeepsCount(s, step, id, n);
    case Poll(_) => MoveKeepsCount(s, Apply(s, step), id, n, p => p);
    case SchedulerCall(f) => SchedulerCallKeepsCount(s, f, id, n);
    case ConsumerCall(_, _, _) => ConsumerCallKeepsCount(s, step, id, n);
  }

  lemma {:induction false} RunIsCounted(run: seq<Step>, id: TaskId)
    requires ValidRun(EMPTY, run)
    ensures Inv(Exec(EMPTY, run))
    ensures Counted(Exec(EMPTY, run), id, Executions(EMPTY, run, id))
  {
    EmptyIsInv();
    if run != [] {
      var before := run[..|run| - 1];
      RunIsCounted(before, id);
      RunKeepsInv(EMPTY, run);
      StepKeepsCount(Exec(EMPTY, before), run[|run| - 1], id, Executions(EMPTY, before, id));
    }
  }

  /** In every run a task is executed at most max(1, max_attempts - 1) times, and its row says
      how often: a task that ended FAILED was executed exactly that often and carries its
      error, one being retried has its executions plus the dispatch as attempts, and one that
      COMPLETED has its attempts reset. */
  lemma ExecutionsAreBounded(run: seq<Step>, id: TaskId)
    requires ValidRun(EMPTY, run) && id in Exec(EMPTY, run).table
    ensures var row := Exec(EMPTY, run).table[id];
            && Executions(EMPTY, run, id) <= ExecutionLimit(row.maxAttempts)
            && RowSays(row, Executions(EMPTY, run, id))
  {
    RunIsCounted(run, id);
  }
}
