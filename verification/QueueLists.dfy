/** The Redis lists over whole runs: each serves one provider, newest message first. */
module QueueLists {
  import opened Base
  import opened TaskTable
  import opened TaskQueue
  import opened QueueRuns

  /** A message is on, or came from, the list of its own provider. */
  predicate OnOwnList(p: Place, m: Message) {
    match p
    case InQueue(key, _) => key == QueueKey(m.provider)
    case Held(c) => c.queue == QueueKey(m.provider)
    case InPush => true
  }

  ghost predicate OwnLists(s: State) {
    forall p :: MsgAt(s, p).Some? ==> OnOwnList(p, MsgAt(s, p).value)
  }

  lemma ListsFollow(s: State, s': State, back: Place -> Place)
    requires OwnLists(s)
    requires forall p :: MsgAt(s', p).Some? ==> MsgAt(s, back(p)) == MsgAt(s', p)
    requires forall p, m :: MsgAt(s', p) == Some(m) && OnOwnList(back(p), m) ==> OnOwnList(p, m)
    ensures OwnLists(s')
  {
    forall p | MsgAt(s', p).Some? ensures OnOwnList(p, MsgAt(s', p).value) {
      assert MsgAt(s, back(p)).Some?;
    }
  }

  lemma SchedulerKeepsOwnLists(s: State)
    requires OwnLists(s)
    ensures OwnLists(SchedulerNext(s))
  {
    var s' := SchedulerNext(s);
    match s.sched
    case Pushing(m, _) => ListsFollow(s, s', p => BeforePush(p, QueueKey(m.provider), InPush));
    case _ =>
      forall p | MsgAt(s', p).Some? ensures OnOwnList(p, MsgAt(s', p).value) {
        assert p == InPush || MsgAt(s, p) == MsgAt(s', p);
      }
  }

  lemma ConsumerKeepsOwnLists(s: State, c: Consumer, o: Outcome)
    requires OwnLists(s)
    ensures OwnLists(ConsumerNext(s, c, o))
  {
    var s' := ConsumerNext(s, c, o);
    if PcOf(s, c).Requeuing? {
      ListsFollow(s, s', p => BeforePush(p, c.queue, Held(c)));
    } else if PcOf(s, c).Idle? {
      if QueueOf(s, c.queue) != [] {
        ListsFollow(s, s', p => BeforePop(p, c));
      }
    } else {
      ListsFollow(s, s', p => p);
    }
  }

  lemma StepKeepsOwnLists(s: State, step: Step)
    requires OwnLists(s) && Enabled(s, step)
    ensures OwnLists(Apply(s, step))
  {
    var s' := Apply(s, step);
    match step
    case SchedulerCall(f) =>
      SchedulerKeepsOwnLists(s);
      var next := if HasEffect(f) then SchedulerNext(s) else s;
      assert forall p :: MsgAt(s', p).Some? ==> MsgAt(next, p) == MsgAt(s', p);
    case ConsumerCall(c, o, f) =>
      ConsumerKeepsOwnLists(s, c, o);
      var next := if HasEffect(f) then ConsumerNext(s, c, o) else s;
      assert forall p :: MsgAt(s', p).Some? ==> MsgAt(next, p) == MsgAt(s', p);
    case _ =>
      assert forall p :: MsgAt(s', p).Some? ==> MsgAt(s, p) == MsgAt(s', p);
  }

  lemma {:induction false} OwnListsAlways(run: seq<Step>)
    requires ValidRun(EMPTY, run)
    ensures OwnLists(Exec(EMPTY, run))
  {
    if run == [] {
      assert forall p :: MsgAt(EMPTY, p).None?;
    } else {
      OwnListsAlways(run[..|run| - 1]);
      StepKeepsOwnLists(Exec(EMPTY, run[..|run| - 1]), run[|run| - 1]);
    }
  }

  /** A consumer only ever works on tasks of the provider whose list it serves, and executes
      the job its row asks for, retries included. */
  lemma ConsumersGetTheirOwnWork(run: seq<Step>, c: Consumer)
    requires ValidRun(EMPTY, run) && !PcOf(Exec(EMPTY, run), c).Idle?
    ensures var s, m := Exec(EMPTY, run), PcOf(Exec(EMPTY, run), c).msg;
            m.id in s.table && m.job == s.table[m.id].job && c.queue == QueueKey(ProviderOf(s.table[m.id]))
  {
    EmptyIsInv();
    RunKeepsInv(EMPTY, run);
    OwnListsAlways(run);
    assert TokenOk(Exec(EMPTY, run), Held(c)) && MsgAt(Exec(EMPTY, run), Held(c)).Some?;
  }

  // ---------------------------------------------------------------------------
  // Which tasks are served

  /** Only these consumers are running. */
  ghost predicate ByTeam(run: seq<Step>, team: set<Consumer>) {
    forall i :: 0 <= i < |run| ==> TakenBy(run[i], team)
  }

  predicate TakenBy(step: Step, team: set<Consumer>) {
    step.ConsumerCall? ==> step.c in team
  }

  /** Some running consumer serves the list of the task's provider. */
  predicate Served(row: Row, team: set<Consumer>) {
    exists c :: c in team && c.queue == QueueKey(ProviderOf(row))
  }

  /** The list the shipped worker serves is that of the default provider, which tasks without one
      get. */
  lemma ShippedListIsDefault(row: Row)
    ensures QueueKey(ProviderOf(row)) == "tasks:opencode" <==> row.provider == "" || row.provider == "opencode"
  {
    assert QueueKey(ProviderOf(row))[6..] == ProviderOf(row) && "tasks:opencode"[6..] == "opencode";
  }

  /** A step by the team leaves a task nobody serves undispatched or waiting. */
  lemma StepLeavesUnserved(s: State, step: Step, team: set<Consumer>, id: TaskId)
    requires Inv(s) && OwnLists(s) && Enabled(s, step) && TakenBy(step, team)
    requires id in s.table && !Served(s.table[id], team)
    ensures id in Apply(s, step).table && !Served(Apply(s, step).table[id], team)
    ensures s.table[id].status in {Pending, Scheduled} ==> Apply(s, step).table[id].status in {Pending, Scheduled}
    ensures Starts(s, step, id) == 0
  {
    if step.ConsumerCall? && !PcOf(s, step.c).Idle? {
      assert TokenOk(s, Held(step.c)) && MsgAt(s, Held(step.c)).Some?;
      assert PcOf(s, step.c).msg.id != id;
    }
  }

  lemma CreateIsPending(s: State, step: Step, id: TaskId)
    requires Inv(s) && Enabled(s, step) && id !in s.table && id in Apply(s, step).table
    ensures Apply(s, step).table[id].status == Pending && Starts(s, step, id) == 0
  {
  }

  lemma NoneBefore(run: seq<Step>, id: TaskId)
    requires ValidRun(EMPTY, run) && id !in Exec(EMPTY, run).table
    ensures Executions(EMPTY, run, id) == 0
  {
    RunIsCounted(run, id);
  }

  /** In any run, whatever fails: a task whose provider's list no running consumer serves never
      gets beyond SCHEDULED and is never executed. */
  lemma {:induction false} UnservedNeverRuns(run: seq<Step>, team: set<Consumer>, id: TaskId)
    requires ValidRun(EMPTY, run) && ByTeam(run, team)
    requires id in Exec(EMPTY, run).table && !Served(Exec(EMPTY, run).table[id], team)
    ensures Exec(EMPTY, run).table[id].status in {Pending, Scheduled}
    ensures Executions(EMPTY, run, id) == 0
  {
    if run != [] {
      var before, last := run[..|run| - 1], run[|run| - 1];
      var s := Exec(EMPTY, before);
      EmptyIsInv();
      RunKeepsInv(EMPTY, before);
      OwnListsAlways(before);
      if id in s.table {
        ProviderIsFixed(s, last, id);
        UnservedNeverRuns(before, team, id);
        StepLeavesUnserved(s, last, team, id);
      } else {
        NoneBefore(before, id);
        CreateIsPending(s, last, id);
      }
    }
  }

  /** No step changes a task's provider or maximum. */
  lemma ProviderIsFixed(s: State, step: Step, id: TaskId)
    requires Enabled(s, step) && id in s.table
    ensures id in Apply(s, step).table
    ensures Apply(s, step).table[id].provider == s.table[id].provider
    ensures Apply(s, step).table[id].maxAttempts == s.table[id].maxAttempts
  {
    match step
    case SchedulerCall(_) => assert SameOrder(s.table, SchedulerNext(s).table, id);
    case ConsumerCall(c, o, _) => assert SameOrder(s.table, ConsumerNext(s, c, o).table, id);
    case _ =>
  }

  predicate SameOrder(t: Table, t': Table, id: TaskId) {
    id in t && id in t' && t'[id].provider == t[id].provider && t'[id].maxAttempts == t[id].maxAttempts
  }

  lemma JobIsFixed(s: State, step: Step, id: TaskId)
    requires Enabled(s, step) && id in s.table
    ensures id in Apply(s, step).table && Apply(s, step).table[id].job == s.table[id].job
  {
    match step
    case SchedulerCall(_) => assert SameJob(s.table, SchedulerNext(s).table, id);
    case ConsumerCall(c, o, _) => assert SameJob(s.table, ConsumerNext(s, c, o).table, id);
    case _ =>
  }

  predicate SameJob(t: Table, t': Table, id: TaskId) {
    id in t && id in t' && t'[id].job == t[id].job
  }

  /** The row still asks for what its task was created with. */
  predicate AsCreated(t: Table, created: Step)
    requires created.Create?
  {
    && created.id in t
    && t[created.id].job == created.job && t[created.id].provider == created.provider
    && t[created.id].maxAttempts == created.maxAttempts && t[created.id].createdAt == created.now
  }

  /** Throughout any run a row keeps the job, the provider, the maximum and the age of the task it
      was created for. */
  lemma {:induction false} RowsStayAsCreated(run: seq<Step>, i: nat)
    requires ValidRun(EMPTY, run) && i < |run| && run[i].Create?
    ensures AsCreated(Exec(EMPTY, run).table, run[i])
    decreases |run|
  {
    if i < |run| - 1 {
      var before, last, id := run[..|run| - 1], run[|run| - 1], run[i].id;
      RowsStayAsCreated(before, i);
      JobIsFixed(Exec(EMPTY, before), last, id);
      ProviderIsFixed(Exec(EMPTY, before), last, id);
      AgeIsFixed(Exec(EMPTY, before), last, id);
    }
  }

  // ---------------------------------------------------------------------------
  // Dispatch order

  /** A poll's tasks are few, and those not yet dispatched are kept oldest first. */
  ghost predicate OldestFirst(s: State) {
    && |Rest(s.sched)| <= 10
    && (forall i :: 0 <= i < |Rest(s.sched)| ==> Rest(s.sched)[i].id in s.table)
    && (forall i, j :: 0 <= i < j < |Rest(s.sched)| ==>
          s.table[Rest(s.sched)[i].id].createdAt <= s.table[Rest(s.sched)[j].id].createdAt)
  }

  lemma AgeIsFixed(s: State, step: Step, id: TaskId)
    requires Enabled(s, step) && id in s.table
    ensures id in Apply(s, step).table && Apply(s, step).table[id].createdAt == s.table[id].createdAt
  {
    match step
    case SchedulerCall(_) => assert SameAge(s.table, SchedulerNext(s).table, id);
    case ConsumerCall(c, o, _) => assert SameAge(s.table, ConsumerNext(s, c, o).table, id);
    case _ =>
  }

  predicate SameAge(t: Table, t': Table, id: TaskId) {
    id in t && id in t' && t'[id].createdAt == t[id].createdAt
  }

  /** The tasks still to be dispatched are the same, or all but the first, unless just polled. */
  lemma RestShrinks(s: State, step: Step)
    requires Enabled(s, step) && !step.Poll?
    ensures var rest := Rest(Apply(s, step).sched);
            rest == Rest(s.sched) || rest == [] || (Rest(s.sched) != [] && rest == Rest(s.sched)[1..])
  {
    match step
    case ConsumerCall(c, o, _) => assert ConsumerNext(s, c, o).sched == s.sched;
    case _ =>
  }

  lemma StepKeepsOldestFirst(s: State, step: Step)
    requires OldestFirst(s) && Enabled(s, step)
    ensures OldestFirst(Apply(s, step))
  {
    if !step.Poll? {
      RestShrinks(s, step);
      forall i | 0 <= i < |Rest(s.sched)|
        ensures SameAge(s.table, Apply(s, step).table, Rest(s.sched)[i].id)
      {
        AgeIsFixed(s, step, Rest(s.sched)[i].id);
      }
    } else {
      var rest := Rest(Apply(s, step).sched);
      assert forall i :: 0 <= i < |rest| ==> rest[i].id == step.snapshot[i];
    }
  }

  lemma {:induction false} OldestFirstAlways(run: seq<Step>)
    requires ValidRun(EMPTY, run)
    ensures OldestFirst(Exec(EMPTY, run))
  {
    if run != [] {
      OldestFirstAlways(run[..|run| - 1]);
      StepKeepsOldestFirst(Exec(EMPTY, run[..|run| - 1]), run[|run| - 1]);
    }
  }

  /** In every run a poll takes at most ten tasks, and a task is dispatched only when no task of
      the same poll that is older still waits for it. */
  lemma DispatchesOldestFirst(run: seq<Step>, step: Step, id: TaskId, i: nat)
    requires ValidRun(EMPTY, run) && Enabled(Exec(EMPTY, run), step)
    requires id in Exec(EMPTY, run).table && Exec(EMPTY, run).table[id].status == Pending
    requires Apply(Exec(EMPTY, run), step).table[id].status == Scheduled
    requires i < |Rest(Exec(EMPTY, run).sched)|
    ensures |Rest(Exec(EMPTY, run).sched)| <= 10
    ensures var s, other := Exec(EMPTY, run), Rest(Exec(EMPTY, run).sched)[i].id;
            other in s.table && s.table[id].createdAt <= s.table[other].createdAt
  {
    var s := Exec(EMPTY, run);
    OldestFirstAlways(run);
    EmptyIsInv();
    RunKeepsInv(EMPTY, run);
    assert step.ConsumerCall? ==> TokenOk(s, Held(step.c));
  }

  // ---------------------------------------------------------------------------
  // The lists are stacks

  /** The `n` messages that have waited longest. */
  function Oldest(s: State, key: string, n: nat): seq<Message> {
    var q := QueueOf(s, key);
    if n <= |q| then q[|q| - n..] else q
  }

  /** One message more or less at the head, or no change. */
  predicate AtHeadOnly(q: seq<Message>, q': seq<Message>) {
    || q' == q
    || (q' != [] && q'[1..] == q)
    || (q != [] && q' == q[1..])
  }

  lemma StepChangesHeadOnly(s: State, step: Step, key: string)
    requires Enabled(s, step)
    ensures AtHeadOnly(QueueOf(s, key), QueueOf(Apply(s, step), key))
  {
    match step
    case SchedulerCall(f) => assert AtHeadOnly(QueueOf(s, key), QueueOf(SchedulerNext(s), key));
    case ConsumerCall(c, o, f) => assert AtHeadOnly(QueueOf(s, key), QueueOf(ConsumerNext(s, c, o), key));
    case _ =>
  }

  lemma StepKeepsOldest(s: State, step: Step, key: string, n: nat)
    requires Enabled(s, step) && n <= |QueueOf(s, key)| && n <= |QueueOf(Apply(s, step), key)|
    ensures Oldest(Apply(s, step), key, n) == Oldest(s, key, n)
  {
    StepChangesHeadOnly(s, step, key);
  }

  /** The list never holds fewer than `n` messages along the run. */
  ghost predicate NeverBelow(s: State, run: seq<Step>, key: string, n: nat)
    requires ValidRun(s, run)
    decreases |run|
  {
    n <= |QueueOf(Exec(s, run), key)| && (run != [] ==> NeverBelow(s, run[..|run| - 1], key, n))
  }

  /** Over any run, with any faults: the `n` messages that have waited longest stay where they
      are for as long as the list holds `n` messages. A message is only taken once everything
      pushed after it, retries included, has been taken. */
  lemma {:induction false} OldestWaitLongest(s: State, run: seq<Step>, key: string, n: nat)
    requires ValidRun(s, run) && NeverBelow(s, run, key, n)
    ensures Oldest(Exec(s, run), key, n) == Oldest(s, key, n)
  {
    if run != [] {
      OldestWaitLongest(s, run[..|run| - 1], key, n);
      StepKeepsOldest(Exec(s, run[..|run| - 1]), run[|run| - 1], key, n);
    }
  }
}
