/** The two loops themselves, one iteration each, over a repository object and a Redis object,
    with the other processes moving between any two of their calls. Each iteration is shown to
    be part of a run of the dispatch protocol, so everything proved of runs holds of them. */
module QueueProcesses {
  import opened Base
  import opened TaskTable
  import opened TaskQueue

  class Redis {
    var lists: map<string, seq<Message>>

    constructor ()
      ensures lists == map[]
    {
      lists := map[];
    }

    function List(key: string): seq<Message>
      reads this
    {
      if key in lists then lists[key] else []
    }

    method LPush(key: string, m: Message)
      modifies this
      ensures lists == old(lists)[key := [m] + old(List(key))]
    {
      lists := lists[key := [m] + List(key)];
    }

    method LPop(key: string) returns (m: Option<Message>)
      modifies this
      ensures old(List(key)) == [] ==> m == None && lists == old(lists)
      ensures old(List(key)) != [] ==> m == Some(old(List(key))[0]) && lists == old(lists)[key := old(List(key))[1..]]
    {
      var l := List(key);
      if l == [] {
        m := None;
      } else {
        m := Some(l[0]);
        lists := lists[key := l[1..]];
      }
    }
  }

  const NO_OUTCOME := Outcome(None, None)

  datatype Process = TheScheduler | TheConsumer(c: Consumer)

  /** The process that takes a step; tasks are created by neither. */
  predicate By(step: Step, p: Process) {
    match p
    case TheScheduler => step.Poll? || step.SchedulerCall?
    case TheConsumer(c) => step.ConsumerCall? && step.c == c
  }

  /** Where a process is in its loop. */
  datatype Position = AtScheduler(sched: Scheduler) | AtConsumer(pc: Pc)

  function PositionOf(s: State, p: Process): Position {
    match p
    case TheScheduler => AtScheduler(s.sched)
    case TheConsumer(c) => AtConsumer(PcOf(s, c))
  }

  /** Nobody moves another process. */
  lemma OthersLeavePosition(s: State, step: Step, me: Process)
    requires Enabled(s, step) && !By(step, me)
    ensures PositionOf(Apply(s, step), me) == PositionOf(s, me)
  {
    match step
    case SchedulerCall(_) => assert SchedulerNext(s).consumers == s.consumers;
    case ConsumerCall(c, o, _) =>
      assert ConsumerNext(s, c, o).sched == s.sched;
      assert forall d :: d != c ==> PcOf(ConsumerNext(s, c, o), d) == PcOf(s, d);
    case _ =>
  }

  /** How many steps of a run were calls made here. */
  function Calls(made: seq<bool>): nat {
    if made == [] then 0 else Calls(made[..|made| - 1]) + if made[|made| - 1] then 1 else 0
  }

  /** A run has been continued: of the new steps, those of `me` are exactly the calls made here. */
  ghost predicate Continued(me: Process, run: seq<Step>, made: seq<bool>, run': seq<Step>, made': seq<bool>) {
    && run <= run' && made <= made' && |run| == |made| && |run'| == |made'|
    && forall i :: |run| <= i < |run'| ==> (By(run'[i], me) <==> made'[i])
  }

  /** Continued, up to and including a call made here. */
  ghost predicate Called(me: Process, run: seq<Step>, made: seq<bool>, run': seq<Step>, made': seq<bool>) {
    Continued(me, run, made, run', made') && |made| < |made'| && made'[|made'| - 1]
  }

  function FaultOf(step: Step): Fault {
    match step
    case SchedulerCall(f) => f
    case ConsumerCall(_, _, f) => f
    case _ => NoFault
  }

  /** The shared objects, together with the protocol run they have been through so far; `s` also
      says where the other processes are. Every awaited call of the two loops is a method here:
      the k-th one made goes as `faults(k)` says, and before it the other processes do what
      `others(k)` says, as far as they can. */
  class Runtime {
    const repo: TaskRepository
    const redis: Redis
    const faults: nat -> Fault
    const others: nat -> seq<Step>
    var calls: nat
    var s: State
    ghost const start: State
    ghost var run: seq<Step>
    ghost var made: seq<bool>    // which steps of the run were calls made here

    /** The recorded run is a run of the protocol, in which the calls made here have gone as the
        fault schedule says. */
    ghost predicate Traced()
      reads this
    {
      && ValidRun(start, run) && s == Exec(start, run)
      && |made| == |run| && calls == Calls(made)
      && forall i :: 0 <= i < |run| && made[i] ==> FaultOf(run[i]) == faults(Calls(made[..i]))
    }

    /** The objects hold what the protocol state says after the recorded run. */
    ghost predicate Valid()
      reads this, repo, redis
    {
      Traced() && s.table == repo.rows && s.queues == redis.lists
    }

    constructor (repo: TaskRepository, redis: Redis, faults: nat -> Fault, others: nat -> seq<Step>, s: State)
      requires s.table == repo.rows && s.queues == redis.lists
      ensures this.repo == repo && this.redis == redis && this.faults == faults && this.others == others
      ensures Valid() && this.s == s && start == s && run == []
    {
      this.repo, this.redis, this.faults, this.others, this.start := repo, redis, faults, others, s;
      calls, run, made, this.s := 0, [], [], s;
    }

    /** Take `step` of the protocol. */
    method Take(step: Step, here: bool)
      requires Traced() && Enabled(s, step) && (here ==> FaultOf(step) == faults(calls))
      modifies this
      ensures Traced() && s == Apply(old(s), step) && run == old(run) + [step] && made == old(made) + [here]
      ensures calls == if here then old(calls) + 1 else old(calls)
    {
      ExtendRun(start, run, step);
      assert (made + [here])[..|made|] == made;
      assert forall i :: 0 <= i < |made| ==> (made + [here])[..i] == made[..i];
      s := Apply(s, step);
      run := run + [step];
      made := made + [here];
      calls := if here then calls + 1 else calls;
    }

    /** The other processes move; `me` stays where it is. */
    method Interleave(me: Process)
      requires Valid()
      modifies this, repo, redis
      ensures Valid() && calls == old(calls) && PositionOf(s, me) == old(PositionOf(s, me))
      ensures Continued(me, old(run), old(made), run, made) && Calls(made) == Calls(old(made))
    {
      var steps := others(calls);
      for i := 0 to |steps|
        invariant Valid() && calls == old(calls) && PositionOf(s, me) == old(PositionOf(s, me))
        invariant Continued(me, old(run), old(made), run, made)
      {
        if !By(steps[i], me) && Enabled(s, steps[i]) {
          OthersLeavePosition(s, steps[i], me);
          Take(steps[i], false);
          repo.rows, redis.lists := s.table, s.queues;
        }
      }
    }

    /** Make the next call: it is `step` of the protocol. */
    method Call(step: Step, ghost me: Process)
      requires Traced() && Enabled(s, step) && By(step, me) && FaultOf(step) == faults(calls)
      modifies this
      ensures Traced() && s == Apply(old(s), step) && calls == old(calls) + 1
      ensures run == old(run) + [step] && Called(me, old(run), old(made), run, made)
    {
      Take(step, true);
    }

    /** The others move and then consumer `me` makes its next call; the objects still hold what
        they held just before it, in state `s0`. */
    method ConsumerMoves(me: Consumer, outcome: Outcome) returns (f: Fault, ghost s0: State)
      requires Valid()
      modifies this, repo, redis
      ensures Traced() && f == faults(old(calls)) && s == Apply(s0, ConsumerCall(me, outcome, f))
      ensures s0.table == repo.rows && s0.queues == redis.lists && PcOf(s0, me) == old(PcOf(s, me))
      ensures Called(TheConsumer(me), old(run), old(made), run, made) && run[|run| - 1] == ConsumerCall(me, outcome, f)
    {
      Interleave(TheConsumer(me));
      f, s0 := faults(calls), s;
      Call(ConsumerCall(me, outcome, f), TheConsumer(me));
    }

    /** The same for the scheduler within its loop. */
    method SchedulerMoves() returns (f: Fault, ghost s0: State)
      requires Valid() && s.sched != Resting
      modifies this, repo, redis
      ensures Traced() && f == faults(old(calls)) && s0.sched == old(s.sched) && s == Apply(s0, SchedulerCall(f))
      ensures s0.table == repo.rows && s0.queues == redis.lists
      ensures Called(TheScheduler, old(run), old(made), run, made)
    {
      Interleave(TheScheduler);
      f, s0 := faults(calls), s;
      Call(SchedulerCall(f), TheScheduler);
    }

    method Pop(me: Consumer) returns (m: Option<Message>)
      requires Valid() && PcOf(s, me).Idle?
      modifies this, repo, redis
      ensures Valid() && Called(TheConsumer(me), old(run), old(made), run, made)
      ensures PcOf(s, me) == if m.Some? then Popped(m.value) else Idle
    {
      var f, s0 := ConsumerMoves(me, NO_OUTCOME);
      m := None;
      if HasEffect(f) {
        m := redis.LPop(me.queue);
        if f != NoFault {
          m := None;
        }
      }
    }

    method MarkRunning(me: Consumer, m: Message) returns (ok: bool)
      requires Valid() && PcOf(s, me) == Popped(m)
      modifies this, repo, redis
      ensures Valid() && Called(TheConsumer(me), old(run), old(made), run, made)
      ensures PcOf(s, me) == if ok then Executing(m) else Idle
    {
      var f, s0 := ConsumerMoves(me, NO_OUTCOME);
      if HasEffect(f) {
        repo.UpdateStatus(m.id, Running, None, None, None);
      }
      ok := f == NoFault;
    }

    method Execute(me: Consumer, m: Message, outcome: Outcome) returns (ok: bool)
      requires Valid() && PcOf(s, me) == Executing(m)
      modifies this, repo, redis
      ensures Valid() && Called(TheConsumer(me), old(run), old(made), run, made)
      ensures run != [] && run[|run| - 1] == ConsumerCall(me, outcome, faults(old(calls)))
      ensures PcOf(s, me) == if !ok then Idle
                             else if outcome.Failed() then Erred(m, outcome.error.value)
                             else Succeeded(m, outcome.result)
    {
      var f, s0 := ConsumerMoves(me, outcome);
      ok := f == NoFault;
    }

    method MarkCompleted(me: Consumer, m: Message, result: Option<string>)
      requires Valid() && PcOf(s, me) == Succeeded(m, result)
      modifies this, repo, redis
      ensures Valid() && Called(TheConsumer(me), old(run), old(made), run, made) && PcOf(s, me) == Idle
    {
      var f, s0 := ConsumerMoves(me, NO_OUTCOME);
      if HasEffect(f) {
        repo.UpdateStatus(m.id, Completed, result, None, Some(0));
      }
    }

    method ReadRow(me: Consumer, m: Message, error: string) returns (ok: bool, row: Option<Row>)
      requires Valid() && PcOf(s, me) == Erred(m, error)
      modifies this, repo, redis
      ensures Valid() && Called(TheConsumer(me), old(run), old(made), run, made)
      ensures var attempts := (if row.Some? then row.value.attempts else 0) + 1;
              PcOf(s, me) == if !ok then Idle
                             else Decided(m, error, attempts, row.Some? && attempts < row.value.maxAttempts)
    {
      var f, s0 := ConsumerMoves(me, NO_OUTCOME);
      row := repo.Get(m.id);
      ok := f == NoFault;
    }

    method WriteVerdict(me: Consumer, m: Message, error: string, attempts: int, retry: bool) returns (ok: bool)
      requires Valid() && PcOf(s, me) == Decided(m, error, attempts, retry)
      modifies this, repo, redis
      ensures Valid() && Called(TheConsumer(me), old(run), old(made), run, made)
      ensures PcOf(s, me) == if retry && ok then Requeuing(m) else Idle
    {
      var f, s0 := ConsumerMoves(me, NO_OUTCOME);
      if HasEffect(f) {
        repo.UpdateStatus(m.id, if retry then Retrying else Failed, None, Some(error), Some(attempts));
      }
      ok := f == NoFault;
    }

    method Requeue(me: Consumer, m: Message)
      requires Valid() && PcOf(s, me) == Requeuing(m)
      modifies this, repo, redis
      ensures Valid() && Called(TheConsumer(me), old(run), old(made), run, made) && PcOf(s, me) == Idle
    {
      var f, s0 := ConsumerMoves(me, NO_OUTCOME);
      if HasEffect(f) {
        redis.LPush(me.queue, m);
      }
    }

    /** The error branch of an iteration: read the counter, then retry or give up. */
    method RetryOrFail(me: Consumer, m: Message, error: string)
      requires Valid() && PcOf(s, me) == Erred(m, error)
      modifies this, repo, redis
      ensures Valid() && PcOf(s, me).Idle? && Called(TheConsumer(me), old(run), old(made), run, made)
    {
      var ok, row := ReadRow(me, m, error);
      if ok {
        var attempts := (if row.Some? then row.value.attempts else 0) + 1;
        var retry := row.Some? && attempts < row.value.maxAttempts;
        ok := WriteVerdict(me, m, error, attempts, retry);
        if retry && ok {
          Requeue(me, m);
        }
      }
    }

    /** What follows the execution. */
    method Conclude(me: Consumer, m: Message, outcome: Outcome)
      requires Valid()
      requires PcOf(s, me) == if outcome.Failed() then Erred(m, outcome.error.value) else Succeeded(m, outcome.result)
      modifies this, repo, redis
      ensures Valid() && PcOf(s, me).Idle? && Called(TheConsumer(me), old(run), old(made), run, made)
    {
      if outcome.Failed() {
        RetryOrFail(me, m, outcome.error.value);
      } else {
        MarkCompleted(me, m, outcome.result);
      }
    }

    /** The iteration from a popped message on. */
    method Process(me: Consumer, m: Message, outcome: Outcome)
      requires Valid() && PcOf(s, me) == Popped(m)
      modifies this, repo, redis
      ensures Valid() && PcOf(s, me).Idle? && Called(TheConsumer(me), old(run), old(made), run, made)
    {
      var ok := MarkRunning(me, m);
      if ok {
        ok := Execute(me, m, outcome);
        if ok {
          Conclude(me, m, outcome);
        }
      }
    }

    /** One iteration of `consume`, whatever the others do meanwhile: it continues the protocol run
        by this consumer's calls and steps of others, and leaves the consumer idle again. */
    method ConsumeOnce(me: Consumer, outcome: Outcome)
      requires Valid() && PcOf(s, me).Idle?
      modifies this, repo, redis
      ensures Valid() && PcOf(s, me).Idle? && Called(TheConsumer(me), old(run), old(made), run, made)
    {
      var m := Pop(me);
      if m.Some? {
        Process(me, m.value, outcome);
      }
    }

    method Snapshot() returns (ok: bool, pending: seq<Message>)
      requires Valid() && s.sched == Resting
      modifies this, repo, redis
      ensures Valid() && Called(TheScheduler, old(run), old(made), run, made)
      ensures ok ==> run != [] && run[|run| - 1].Poll?
      ensures s.sched == if ok then Continue(pending) else Resting
    {
      Interleave(TheScheduler);
      ok := faults(calls) == NoFault;
      pending := [];
      if ok {
        pending := ReadPending();
      } else {
        PollInVain();
      }
    }

    /** A poll whose call fails. */
    method PollInVain()
      requires Valid() && s.sched == Resting && faults(calls) != NoFault
      modifies this
      ensures Valid() && Called(TheScheduler, old(run), old(made), run, made) && s.sched == Resting
    {
      Call(SchedulerCall(faults(calls)), TheScheduler);
    }

    method ReadPending() returns (pending: seq<Message>)
      requires Valid() && s.sched == Resting && faults(calls) == NoFault
      modifies this
      ensures Valid() && Called(TheScheduler, old(run), old(made), run, made)
      ensures run != [] && run[|run| - 1].Poll? && s.sched == Continue(pending)
    {
      var ids := repo.GetPending(POLL_LIMIT);
      pending := Messages(repo.rows, ids);
      Call(Poll(ids), TheScheduler);
    }

    method MarkScheduled(m: Message, ghost rest: seq<Message>) returns (ok: bool)
      requires Valid() && s.sched == Looping([m] + rest)
      modifies this, repo, redis
      ensures Valid() && Called(TheScheduler, old(run), old(made), run, made)
      ensures s.sched == if ok then Pushing(m, rest) else Resting
    {
      var f, s0 := SchedulerMoves();
      if HasEffect(f) {
        repo.UpdateStatus(m.id, Scheduled, None, None, Some(1));
      }
      ok := f == NoFault;
    }

    method Dispatch(m: Message, ghost rest: seq<Message>) returns (ok: bool)
      requires Valid() && s.sched == Pushing(m, rest)
      modifies this, repo, redis
      ensures Valid() && Called(TheScheduler, old(run), old(made), run, made)
      ensures s.sched == if ok then Publishing(rest) else Resting
    {
      var f, s0 := SchedulerMoves();
      if HasEffect(f) {
        redis.LPush(QueueKey(m.provider), m);
      }
      ok := f == NoFault;
    }

    method Announce(ghost rest: seq<Message>) returns (ok: bool)
      requires Valid() && s.sched == Publishing(rest)
      modifies this, repo, redis
      ensures Valid() && Called(TheScheduler, old(run), old(made), run, made)
      ensures s.sched == if ok then Continue(rest) else Resting
    {
      var f, s0 := SchedulerMoves();
      ok := f == NoFault;
    }

    /** The body of the dispatch loop for one pending task. */
    method DispatchOne(m: Message, ghost rest: seq<Message>) returns (ok: bool)
      requires Valid() && s.sched == Looping([m] + rest)
      modifies this, repo, redis
      ensures Valid() && Called(TheScheduler, old(run), old(made), run, made)
      ensures s.sched == if ok then Continue(rest) else Resting
    {
      ok := MarkScheduled(m, rest);
      if ok {
        ok := Dispatch(m, rest);
        if ok {
          ok := Announce(rest);
        }
      }
    }

    /** The loop body for the i-th pending task. */
    method DispatchNext(pending: seq<Message>, i: nat) returns (ok: bool)
      requires Valid() && i < |pending| && s.sched == Continue(pending[i..])
      modifies this, repo, redis
      ensures Valid() && Called(TheScheduler, old(run), old(made), run, made)
      ensures s.sched == if ok then Continue(pending[i + 1..]) else Resting
    {
      assert pending[i..] == [pending[i]] + pending[i + 1..];
      ok := DispatchOne(pending[i], pending[i + 1..]);
    }

    /** One iteration of `poll_pg`, whatever the others do meanwhile: it continues the protocol run
        by the scheduler's calls and steps of others, and leaves the scheduler resting again. */
    method PollOnce()
      requires Valid() && s.sched == Resting
      modifies this, repo, redis
      ensures Valid() && s.sched == Resting && Called(TheScheduler, old(run), old(made), run, made)
    {
      var ok, pending := Snapshot();
      var i := 0;
      while ok && i < |pending|
        invariant 0 <= i <= |pending|
        invariant Valid() && Called(TheScheduler, old(run), old(made), run, made)
        invariant s.sched == if ok then Continue(pending[i..]) else Resting
      {
        ok := DispatchNext(pending, i);
        i := i + 1;
      }
    }
  }
}
