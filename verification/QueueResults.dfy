/** What the rows say of the executions of their tasks: which result and which error end up in
    the table, over every run and whatever fails. */
module QueueResults {
  import opened Base
  import opened TaskTable
  import opened TaskQueue
  import opened QueueRuns
  import opened QueueLists
  import opened QueueLiveness

  // ---------------------------------------------------------------------------
  // The executions of a task, read off the steps

  /** The outcome that this step brings back from an execution of `id`, if it does. */
  function Answer(s: State, step: Step, id: TaskId): seq<Outcome> {
    if step.ConsumerCall? && step.fault == NoFault && PcOf(s, step.c).Executing? && PcOf(s, step.c).msg.id == id
    then [step.outcome] else []
  }

  /** The outcomes of the executions of `id`, in order. */
  ghost function Answers(run: seq<Step>, id: TaskId): seq<Outcome>
    requires ValidRun(EMPTY, run)
  {
    if run == [] then []
    else Answers(run[..|run| - 1], id) + Answer(Exec(EMPTY, run[..|run| - 1]), run[|run| - 1], id)
  }

  /** An execution failed if it came back with an error text that is not empty. */
  predicate Bad(o: Outcome) {
    o.error != None && o.error != Some("")
  }

  predicate AllBad(answers: seq<Outcome>) {
    forall i :: 0 <= i < |answers| ==> Bad(answers[i])
  }

  function LastError(answers: seq<Outcome>): Option<string> {
    if answers == [] then None else answers[|answers| - 1].error
  }

  // ---------------------------------------------------------------------------
  // What a row says

  /** The row of a task whose `n` executions so far came back with `answers`. */
  predicate RowTells(row: Row, answers: seq<Outcome>, n: nat) {
    match row.status
    case Pending => answers == [] && row.result == None && row.error == None
    case Scheduled => answers == [] && row.result == None && row.error == None
    case Running => row.result == None
    case Retrying =>
      |answers| == n > 0 && AllBad(answers) && row.result == None && row.error == answers[n - 1].error
    case Failed =>
      |answers| == n > 0 && AllBad(answers) && row.result == None && row.error == answers[n - 1].error
    case Completed =>
      && |answers| == n > 0 && AllBad(answers[..n - 1]) && !Bad(answers[n - 1])
      && row.result == answers[n - 1].result
      && row.error == if n == 1 then None else answers[n - 2].error
  }

  /** How far the execution is that a token stands for. */
  datatype Phase = Waiting | Underway | Failing(error: string) | Succeeding(result: Option<string>)

  function PhaseAt(s: State, p: Place): Phase {
    match p
    case Held(c) =>
      (match PcOf(s, c)
       case Executing(_) => Underway
       case Erred(_, e) => Failing(e)
       case Decided(_, e, _, _) => Failing(e)
       case Succeeded(_, r) => Succeeding(r)
       case _ => Waiting)
    case _ => Waiting
  }

  predicate TokenTells(phase: Phase, row: Row, answers: seq<Outcome>, n: nat) {
    && row.result == None
    && match phase
       case Waiting => |answers| == n && AllBad(answers) && row.error == LastError(answers)
       case Underway => |answers| + 1 == n && AllBad(answers) && row.error == LastError(answers)
       case Failing(e) =>
         |answers| == n > 0 && AllBad(answers) && answers[n - 1].error == Some(e)
         && row.error == LastError(answers[..n - 1])
       case Succeeding(r) =>
         |answers| == n > 0 && AllBad(answers[..n - 1]) && !Bad(answers[n - 1]) && answers[n - 1].result == r
         && row.error == LastError(answers[..n - 1])
  }

  ghost predicate Told(s: State, id: TaskId, answers: seq<Outcome>, n: nat) {
    if id !in s.table then answers == [] && n == 0
    else
      && RowTells(s.table[id], answers, n)
      && forall p :: Token(s, p, id) ==> TokenTells(PhaseAt(s, p), s.table[id], answers, n)
  }

  // ---------------------------------------------------------------------------
  // Every step keeps it

  /** Moving the token without writing the row or passing a phase. */
  lemma MoveKeepsTold(s: State, s': State, id: TaskId, answers: seq<Outcome>, n: nat, back: Place -> Place)
    requires Told(s, id, answers, n)
    requires id in s'.table <==> id in s.table
    requires id in s.table ==> s'.table[id] == s.table[id]
    requires forall p :: Token(s', p, id) ==> Token(s, back(p), id) && PhaseAt(s, back(p)) == PhaseAt(s', p)
    ensures Told(s', id, answers, n)
  {
  }

  lemma DispatchKeepsTold(s: State, id: TaskId, answers: seq<Outcome>, n: nat)
    requires Inv(s) && Told(s, id, answers, n) && Counted(s, id, n) && s.sched.Looping?
    ensures Told(SchedulerNext(s), id, answers, n)
  {
    var s' := SchedulerNext(s);
    assert Faithful(s.table, Rest(s.sched)[0]);
    if id != s.sched.rest[0].id {
      MoveKeepsTold(s, s', id, answers, n, p => p);
    } else {
      forall p | Token(s', p, id) ensures p == InPush {
        assert TokenOk(s, p);
      }
    }
  }

  lemma SchedulerKeepsTold(s: State, id: TaskId, answers: seq<Outcome>, n: nat)
    requires Inv(s) && Told(s, id, answers, n) && Counted(s, id, n)
    ensures Told(SchedulerNext(s), id, answers, n)
  {
    match s.sched
    case Resting =>
    case Looping(_) => DispatchKeepsTold(s, id, answers, n);
    case Pushing(m, _) =>
      var key := QueueKey(m.provider);
      MoveKeepsTold(s, SchedulerNext(s), id, answers, n, p => BeforePush(p, key, InPush));
    case Publishing(_) => MoveKeepsTold(s, SchedulerNext(s), id, answers, n, p => p);
  }

  lemma QueueMoveKeepsTold(s: State, c: Consumer, o: Outcome, id: TaskId, answers: seq<Outcome>, n: nat)
    requires Told(s, id, answers, n) && (PcOf(s, c).Idle? || PcOf(s, c).Requeuing?)
    ensures Told(ConsumerNext(s, c, o), id, answers, n)
  {
    var s' := ConsumerNext(s, c, o);
    if PcOf(s, c).Requeuing? {
      MoveKeepsTold(s, s', id, answers, n, p => BeforePush(p, c.queue, Held(c)));
    } else if QueueOf(s, c.queue) != [] {
      MoveKeepsTold(s, s', id, answers, n, p => BeforePop(p, c));
    }
  }

  lemma StrangerKeepsTold(s: State, c: Consumer, o: Outcome, id: TaskId, answers: seq<Outcome>, n: nat)
    requires Told(s, id, answers, n) && Working(PcOf(s, c)) && PcOf(s, c).msg.id != id
    ensures Told(ConsumerNext(s, c, o), id, answers, n)
  {
    MoveKeepsTold(s, ConsumerNext(s, c, o), id, answers, n, p => p);
  }

  /** The holder's own token and row, step by step. */
  lemma HolderTells(s: State, c: Consumer, o: Outcome, answers: seq<Outcome>, n: nat)
    requires Working(PcOf(s, c)) && TokenOk(s, Held(c))
    requires var m := PcOf(s, c).msg;
             m.id in s.table && TokenTells(PhaseAt(s, Held(c)), s.table[m.id], answers, n)
    ensures var s', id, step := ConsumerNext(s, c, o), PcOf(s, c).msg.id, ConsumerCall(c, o, NoFault);
            var answers', n' := answers + Answer(s, step, id), n + Starts(s, step, id);
            && id in s'.table && RowTells(s'.table[id], answers', n')
            && (!PcOf(s', c).Idle? ==> TokenTells(PhaseAt(s', Held(c)), s'.table[id], answers', n'))
  {
    match PcOf(s, c)
    case Executing(_) =>
      assert (answers + [o])[..|answers|] == answers;
    case Succeeded(_, _) =>
    case _ =>
  }

  lemma HolderKeepsTold(s: State, c: Consumer, o: Outcome, answers: seq<Outcome>, n: nat)
    requires Inv(s) && Working(PcOf(s, c)) && Told(s, PcOf(s, c).msg.id, answers, n)
    ensures var id, step := PcOf(s, c).msg.id, ConsumerCall(c, o, NoFault);
            Told(ConsumerNext(s, c, o), id, answers + Answer(s, step, id), n + Starts(s, step, id))
  {
    var s', id := ConsumerNext(s, c, o), PcOf(s, c).msg.id;
    assert TokenOk(s, Held(c)) && Token(s, Held(c), id);
    HolderTells(s, c, o, answers, n);
    forall p | Token(s', p, id) ensures p == Held(c) {
      if p != Held(c) {
        OneToken(s, p, Held(c), id);
      }
    }
  }

  lemma ConsumerKeepsTold(s: State, c: Consumer, o: Outcome, id: TaskId, answers: seq<Outcome>, n: nat)
    requires Inv(s) && Told(s, id, answers, n)
    ensures var step := ConsumerCall(c, o, NoFault);
            Told(ConsumerNext(s, c, o), id, answers + Answer(s, step, id), n + Starts(s, step, id))
  {
    assert answers + [] == answers;
    if PcOf(s, c).Idle? || PcOf(s, c).Requeuing? {
      QueueMoveKeepsTold(s, c, o, id, answers, n);
    } else if PcOf(s, c).msg.id == id {
      HolderKeepsTold(s, c, o, answers, n);
    } else {
      StrangerKeepsTold(s, c, o, id, answers, n);
    }
  }

  /** Giving up leaves the row as it is, and the token gone. */
  lemma DropKeepsTold(s: State, c: Consumer, id: TaskId, answers: seq<Outcome>, n: nat)
    requires Told(s, id, answers, n)
    ensures Told(SetPc(s, c, Idle), id, answers, n)
  {
    MoveKeepsTold(s, SetPc(s, c, Idle), id, answers, n, p => p);
  }

  /** A call that began or ended an execution and then failed leaves a running row without a
      token. */
  lemma LateExecutionKeepsTold(s: State, c: Consumer, o: Outcome, answers: seq<Outcome>, n: nat)
    requires Inv(s) && (PcOf(s, c).Popped? || PcOf(s, c).Executing?) && Told(s, PcOf(s, c).msg.id, answers, n)
    ensures Told(SetPc(ConsumerNext(s, c, o), c, Idle), PcOf(s, c).msg.id, answers, n)
  {
    var s', id := SetPc(ConsumerNext(s, c, o), c, Idle), PcOf(s, c).msg.id;
    assert TokenOk(s, Held(c)) && Token(s, Held(c), id);
    forall p ensures !Token(s', p, id) {
      if p != Held(c) && Token(s, p, id) {
        OneToken(s, p, Held(c), id);
      }
    }
  }

  /** A call that took effect and then failed leaves the row it wrote and no token. */
  lemma LateFaultKeepsTold(s: State, c: Consumer, o: Outcome, id: TaskId, answers: seq<Outcome>, n: nat)
    requires Inv(s) && Told(s, id, answers, n)
    ensures Told(SetPc(ConsumerNext(s, c, o), c, Idle), id, answers, n)
  {
    var pc, step := PcOf(s, c), ConsumerCall(c, o, NoFault);
    if (pc.Popped? || pc.Executing?) && pc.msg.id == id {
      LateExecutionKeepsTold(s, c, o, answers, n);
    } else {
      ConsumerKeepsTold(s, c, o, id, answers, n);
      assert Starts(s, step, id) == 0 && Answer(s, step, id) == [] && answers + [] == answers;
      DropKeepsTold(ConsumerNext(s, c, o), c, id, answers, n);
    }
  }

  lemma CreateKeepsTold(s: State, step: Step, id: TaskId, answers: seq<Outcome>, n: nat)
    requires Inv(s) && step.Create? && Enabled(s, step) && Told(s, id, answers, n)
    ensures Told(Apply(s, step), id, answers, n)
  {
    var s' := Apply(s, step);
    if id != step.id {
      MoveKeepsTold(s, s', id, answers, n, p => p);
    } else {
      forall p ensures !Token(s', p, id) {
        assert TokenOk(s, p);
      }
    }
  }

  lemma SchedulerCallKeepsTold(s: State, f: Fault, id: TaskId, answers: seq<Outcome>, n: nat)
    requires Inv(s) && Told(s, id, answers, n) && Counted(s, id, n) && Enabled(s, SchedulerCall(f))
    ensures Told(Apply(s, SchedulerCall(f)), id, answers, n)
  {
    SchedulerKeepsTold(s, id, answers, n);
    var next := if HasEffect(f) then SchedulerNext(s) else s;
    MoveKeepsTold(next, next.(sched := Resting), id, answers, n, p => p);
  }

  lemma StepKeepsTold(s: State, step: Step, id: TaskId, answers: seq<Outcome>, n: nat)
    requires Inv(s) && Enabled(s, step) && Told(s, id, answers, n) && Counted(s, id, n)
    ensures Told(Apply(s, step), id, answers + Answer(s, step, id), n + Starts(s, step, id))
  {
    assert answers + [] == answers;
    match step
    case Create(_, _, _, _, _) => CreateKeepsTold(s, step, id, answers, n);
    case Poll(_) => MoveKeepsTold(s, Apply(s, step), id, answers, n, p => p);
    case SchedulerCall(f) => SchedulerCallKeepsTold(s, f, id, answers, n);
    case ConsumerCall(c, o, f) =>
      match f
      case NoFault => ConsumerKeepsTold(s, c, o, id, answers, n);
      case Lost => DropKeepsTold(s, c, id, answers, n);
      case Late => LateFaultKeepsTold(s, c, o, id, answers, n);
  }

  lemma {:induction false} RunIsTold(run: seq<Step>, id: TaskId)
    requires ValidRun(EMPTY, run)
    ensures Told(Exec(EMPTY, run), id, Answers(run, id), Executions(EMPTY, run, id))
  {
    if run != [] {
      var before := run[..|run| - 1];
      RunIsTold(before, id);
      RunIsCounted(before, id);
      StepKeepsTold(Exec(EMPTY, before), run[|run| - 1], id, Answers(before, id), Executions(EMPTY, before, id));
    }
  }

  // ---------------------------------------------------------------------------
  // The theorems

  /** In every run, whatever fails: a row is COMPLETED only after an execution that did not fail,
      and carries exactly its result; a RETRYING or FAILED row carries the error of its last
      execution, all of them having failed; no other row carries a result. */
  lemma RowsTellOutcomes(run: seq<Step>, id: TaskId)
    requires ValidRun(EMPTY, run) && id in Exec(EMPTY, run).table
    ensures RowTells(Exec(EMPTY, run).table[id], Answers(run, id), Executions(EMPTY, run, id))
  {
    RunIsTold(run, id);
  }

  /** Only the last execution of a finished task can have succeeded, and only a completed one's
      has. */
  lemma OnlyLastSucceeds(row: Row, answers: seq<Outcome>, n: nat, i: nat)
    requires RowTells(row, answers, n) && Terminal(row.status) && i < |answers| && !Bad(answers[i])
    ensures row.status == Completed && i == |answers| - 1 && row.result == answers[i].result
  {
    if row.status == Completed {
      assert forall j :: 0 <= j < n - 1 ==> answers[..n - 1][j] == answers[j];
    }
  }

  /** A task that is served, run without faults until nothing is left to do: if one of its
      executions did not fail, that was its last, and the task is COMPLETED with its result. */
  lemma SuccessIsRecorded(run: seq<Step>, team: set<Consumer>, id: TaskId, i: nat)
    requires ValidRun(EMPTY, run) && FaultFreeRun(run) && ByTeam(run, team) && Quiescent(Exec(EMPTY, run), team)
    requires id in Exec(EMPTY, run).table && Served(Exec(EMPTY, run).table[id], team)
    requires i < |Answers(run, id)| && !Bad(Answers(run, id)[i])
    ensures Exec(EMPTY, run).table[id].status == Completed && i == |Answers(run, id)| - 1
    ensures Exec(EMPTY, run).table[id].result == Answers(run, id)[i].result
  {
    FaultFreeRunsFinish(run, team, id);
    RowsTellOutcomes(run, id);
    OnlyLastSucceeds(Exec(EMPTY, run).table[id], Answers(run, id), Executions(EMPTY, run, id), i);
  }
}
