/** The dispatch protocol: one scheduler, any number of consumers, the task table and
    the Redis lists. Every awaited call is one atomic step. A call may also fail, with
    or without having taken effect; the caller then drops the rest of its iteration. */
module TaskQueue {
  import opened Base
  import opened TaskTable

  const DEFAULT_PROVIDER := "opencode"
  const POLL_LIMIT: nat := 10

  /** A queue entry: the fields of the task that the scheduler serialises. */
  datatype Message = Message(id: TaskId, job: Job, provider: string, maxAttempts: int)

  /** A consumer process and the Redis list it serves. */
  datatype Consumer = Consumer(queue: string, index: nat)

  /** Where a consumer is in its iteration; each value names the call it makes next. */
  datatype Pc =
    | Idle                                                                // BLPOP
    | Popped(msg: Message)                                                // write RUNNING
    | Executing(msg: Message)                                             // run the task
    | Erred(msg: Message, error: string)                                  // read the row
    | Decided(msg: Message, error: string, attempts: int, retry: bool)    // write RETRYING or FAILED
    | Requeuing(msg: Message)                                             // LPUSH
    | Succeeded(msg: Message, result: Option<string>)                     // write COMPLETED

  datatype Scheduler =
    | Resting                                      // poll
    | Looping(rest: seq<Message>)                  // write SCHEDULED for the first of `rest`
    | Pushing(msg: Message, rest: seq<Message>)    // LPUSH
    | Publishing(rest: seq<Message>)               // publish the event

  datatype State = State(
    table: Table, queues: map<string, seq<Message>>, sched: Scheduler, consumers: map<Consumer, Pc>)

  /** What `execute_task` returned. A non-empty error string is a failure. */
  datatype Outcome = Outcome(result: Option<string>, error: Option<string>) {
    predicate Failed() {
      error.Some? && error.value != ""
    }
  }

  /** `Lost`: the call failed before taking effect. `Late`: it took effect and then failed. */
  datatype Fault = NoFault | Lost | Late

  datatype Step =
    | Create(id: TaskId, job: Job, provider: string, maxAttempts: int, now: int)
    | Poll(snapshot: seq<TaskId>)
    | SchedulerCall(fault: Fault)
    | ConsumerCall(c: Consumer, outcome: Outcome, fault: Fault)

  function PcOf(s: State, c: Consumer): Pc {
    if c in s.consumers then s.consumers[c] else Idle
  }

  function QueueOf(s: State, key: string): seq<Message> {
    if key in s.queues then s.queues[key] else []
  }

  function ProviderOf(row: Row): string {
    if row.provider == "" then DEFAULT_PROVIDER else row.provider
  }

  function QueueKey(provider: string): string {
    "tasks:" + provider
  }

  function MessageOf(id: TaskId, row: Row): Message {
    Message(id, row.job, ProviderOf(row), row.maxAttempts)
  }

  function Messages(t: Table, ids: seq<TaskId>): seq<Message>
    requires forall i :: 0 <= i < |ids| ==> ids[i] in t
  {
    seq(|ids|, i requires 0 <= i < |ids| => MessageOf(ids[i], t[ids[i]]))
  }

  function Push(s: State, key: string, m: Message): State {
    s.(queues := s.queues[key := [m] + QueueOf(s, key)])
  }

  function SetPc(s: State, c: Consumer, pc: Pc): State {
    s.(consumers := s.consumers[c := pc])
  }

  /** The `for` loop either goes on with the next task or the iteration ends. */
  function Continue(rest: seq<Message>): Scheduler {
    if rest == [] then Resting else Looping(rest)
  }

  function SchedulerNext(s: State): State {
    match s.sched
    case Resting => s
    case Looping(rest) =>
      if rest == [] then s.(sched := Resting)
      else s.(table := SetStatus(s.table, rest[0].id, Scheduled, None, None, Some(1)),
              sched := Pushing(rest[0], rest[1..]))
    case Pushing(m, rest) => Push(s, QueueKey(m.provider), m).(sched := Publishing(rest))
    case Publishing(rest) => s.(sched := Continue(rest))
  }

  function ConsumerNext(s: State, c: Consumer, o: Outcome): State {
    match PcOf(s, c)
    case Idle =>
      var q := QueueOf(s, c.queue);
      if q == [] then s
      else SetPc(s.(queues := s.queues[c.queue := q[1..]]), c, Popped(q[0]))
    case Popped(m) =>
      SetPc(s.(table := SetStatus(s.table, m.id, Running, None, None, None)), c, Executing(m))
    case Executing(m) =>
      SetPc(s, c, if o.Failed() then Erred(m, o.error.value) else Succeeded(m, o.result))
    case Erred(m, e) =>
      var attempts := (if m.id in s.table then s.table[m.id].attempts else 0) + 1;
      SetPc(s, c, Decided(m, e, attempts, m.id in s.table && attempts < s.table[m.id].maxAttempts))
    case Decided(m, e, n, retry) =>
      SetPc(s.(table := SetStatus(s.table, m.id, if retry then Retrying else Failed, None, Some(e), Some(n))),
            c, if retry then Requeuing(m) else Idle)
    case Requeuing(m) => SetPc(Push(s, c.queue, m), c, Idle)
    case Succeeded(m, r) =>
      SetPc(s.(table := SetStatus(s.table, m.id, Completed, r, None, Some(0))), c, Idle)
  }

  predicate HasEffect(f: Fault) {
    f != Lost
  }

  predicate Enabled(s: State, step: Step) {
    match step
    case Create(id, _, _, _, _) => id !in s.table
    case Poll(snapshot) => s.sched == Resting && IsPendingSnapshot(s.table, snapshot, POLL_LIMIT)
    case SchedulerCall(f) => s.sched != Resting || f != NoFault   // a resting scheduler's poll may fail
    case ConsumerCall(_, _, _) => true
  }

  function Apply(s: State, step: Step): State
    requires Enabled(s, step)
  {
    match step
    case Create(id, job, provider, maxAttempts, now) =>
      s.(table := s.table[id := Row(Pending, job, provider, 0, maxAttempts, None, None, now)])
    case Poll(snapshot) =>
      s.(sched := Continue(Messages(s.table, snapshot)))
    case SchedulerCall(f) =>
      var next := if HasEffect(f) then SchedulerNext(s) else s;
      if f == NoFault then next else next.(sched := Resting)
    case ConsumerCall(c, o, f) =>
      var next := if HasEffect(f) then ConsumerNext(s, c, o) else s;
      if f == NoFault then next else SetPc(next, c, Idle)
  }

  const EMPTY := State(map[], map[], Resting, map[])

  ghost predicate ValidRun(s: State, run: seq<Step>)
    decreases |run|, 0
  {
    run != [] ==>
      && ValidRun(s, run[..|run| - 1])
      && Enabled(Exec(s, run[..|run| - 1]), run[|run| - 1])
  }

  ghost function Exec(s: State, run: seq<Step>): State
    requires ValidRun(s, run)
    decreases |run|, 1
  {
    if run == [] then s
    else Apply(Exec(s, run[..|run| - 1]), run[|run| - 1])
  }

  lemma ExtendRun(s: State, run: seq<Step>, step: Step)
    requires ValidRun(s, run) && Enabled(Exec(s, run), step)
    ensures ValidRun(s, run + [step]) && Exec(s, run + [step]) == Apply(Exec(s, run), step)
  {
    assert (run + [step])[..|run|] == run;
  }

  // ---------------------------------------------------------------------------
  // Tokens

  /** The places from which a task can still be executed. */
  datatype Place = InQueue(key: string, i: int) | Held(c: Consumer) | InPush

  function MsgAt(s: State, p: Place): Option<Message> {
    match p
    case InQueue(k, i) => if 0 <= i < |QueueOf(s, k)| then Some(QueueOf(s, k)[i]) else None
    case Held(c) => if PcOf(s, c).Idle? then None else Some(PcOf(s, c).msg)
    case InPush => if s.sched.Pushing? then Some(s.sched.msg) else None
  }

  /** `p` holds a token for task `id`. */
  ghost predicate Token(s: State, p: Place, id: TaskId) {
    MsgAt(s, p).Some? && MsgAt(s, p).value.id == id
  }

  /** No task has two tokens. */
  ghost predicate SingleToken(s: State) {
    forall p, q :: MsgAt(s, p).Some? && MsgAt(s, q).Some? && MsgAt(s, p).value.id == MsgAt(s, q).value.id ==> p == q
  }

  /** The statuses a task may have while its token is at `p`. */
  ghost predicate StatusAllowed(s: State, p: Place, status: Status) {
    match p
    case InQueue(_, _) => status in {Scheduled, Retrying}
    case InPush => status == Scheduled
    case Held(c) =>
      match PcOf(s, c)
      case Idle => true
      case Popped(_) => status in {Scheduled, Retrying}
      case Requeuing(_) => status == Retrying
      case _ => status == Running
  }

  /** A message still says what its row says. */
  ghost predicate Faithful(t: Table, m: Message) {
    m.id in t && m == MessageOf(m.id, t[m.id])
  }

  /** A consumer that has read the row and not yet written it back holds current data. */
  ghost predicate ReadIsCurrent(s: State, p: Place) {
    match p
    case Held(c) =>
      PcOf(s, c).Decided? ==>
        && PcOf(s, c).msg.id in s.table
        && PcOf(s, c).attempts == s.table[PcOf(s, c).msg.id].attempts + 1
        && (PcOf(s, c).retry <==> PcOf(s, c).attempts < s.table[PcOf(s, c).msg.id].maxAttempts)
    case _ => true
  }

  ghost predicate TokenOk(s: State, p: Place) {
    MsgAt(s, p).Some? ==>
      && Faithful(s.table, MsgAt(s, p).value)
      && StatusAllowed(s, p, s.table[MsgAt(s, p).value.id].status)
      && ReadIsCurrent(s, p)
  }

  function Rest(sched: Scheduler): seq<Message> {
    if sched.Resting? then [] else sched.rest
  }

  /** The tasks the scheduler has read and not yet dispatched are still pending. */
  ghost predicate SnapshotOk(s: State) {
    && (s.sched.Looping? ==> s.sched.rest != [])
    && (forall i :: 0 <= i < |Rest(s.sched)| ==>
          Faithful(s.table, Rest(s.sched)[i]) && s.table[Rest(s.sched)[i].id].status == Pending)
    && (forall i, j :: 0 <= i < j < |Rest(s.sched)| ==> Rest(s.sched)[i].id != Rest(s.sched)[j].id)
  }

  ghost predicate Inv(s: State) {
    && SingleToken(s)
    && (forall p :: TokenOk(s, p))
    && SnapshotOk(s)
  }

  // ---------------------------------------------------------------------------
  // Every step keeps the invariant

  /** Where the token at `p` was before a push onto `key` of a message that sat at `from`. */
  function BeforePush(p: Place, key: string, from: Place): Place {
    if !p.InQueue? || p.key != key then p
    else if p.i == 0 then from
    else InQueue(key, p.i - 1)
  }

  /** Where the token at `p` was before `c` popped its list. */
  function BeforePop(p: Place, c: Consumer): Place {
    if p == Held(c) then InQueue(c.queue, 0)
    else if p.InQueue? && p.key == c.queue then InQueue(c.queue, p.i + 1)
    else p
  }

  /** Where the tokens of a list go when it is pushed to or popped. */
  function AfterPush(p: Place, key: string): Place {
    if p.InQueue? && p.key == key then InQueue(key, p.i + 1) else p
  }

  function AfterPop(p: Place, key: string): Place {
    if p.InQueue? && p.key == key then InQueue(key, p.i - 1) else p
  }

  /** If every token of `s'` comes from its own token of `s`, there are no new duplicates. */
  lemma TokensTransported(s: State, s': State, back: Place -> Place)
    requires SingleToken(s)
    requires forall p :: MsgAt(s', p).Some? ==> MsgAt(s, back(p)) == MsgAt(s', p)
    requires forall p, q :: MsgAt(s', p).Some? && MsgAt(s', q).Some? && back(p) == back(q) ==> p == q
    ensures SingleToken(s')
  {
    forall p, q | MsgAt(s', p).Some? && MsgAt(s', q).Some? && MsgAt(s', p).value.id == MsgAt(s', q).value.id
      ensures p == q
    {
      assert MsgAt(s, back(p)).Some? && MsgAt(s, back(q)).Some?;
    }
  }

  /** A caller that abandons its iteration gives up its token and nothing else. */
  lemma DropConsumer(s: State, c: Consumer)
    requires Inv(s)
    ensures Inv(SetPc(s, c, Idle))
  {
    var s' := SetPc(s, c, Idle);
    TokensTransported(s, s', p => p);
    forall p ensures TokenOk(s', p) {
      assert TokenOk(s, p);
    }
  }

  lemma DropScheduler(s: State)
    requires Inv(s)
    ensures Inv(s.(sched := Resting))
  {
    var s' := s.(sched := Resting);
    TokensTransported(s, s', p => p);
    forall p ensures TokenOk(s', p) {
      assert TokenOk(s, p);
    }
  }

  /** A pop moves the head of the list into the hands of the consumer. */
  lemma PopKeepsInv(s: State, c: Consumer, o: Outcome)
    requires Inv(s) && PcOf(s, c).Idle? && QueueOf(s, c.queue) != []
    ensures Inv(ConsumerNext(s, c, o))
  {
    var s' := ConsumerNext(s, c, o);
    TokensTransported(s, s', p => BeforePop(p, c));
    forall p ensures TokenOk(s', p) {
      assert TokenOk(s, BeforePop(p, c));
    }
  }

  /** A consumer pushing its message back moves its token into the list. */
  lemma RequeueKeepsInv(s: State, c: Consumer, o: Outcome)
    requires Inv(s) && PcOf(s, c).Requeuing?
    ensures Inv(ConsumerNext(s, c, o))
  {
    var s' := ConsumerNext(s, c, o);
    TokensTransported(s, s', p => BeforePush(p, c.queue, Held(c)));
    forall p ensures TokenOk(s', p) {
      assert TokenOk(s, BeforePush(p, c.queue, Held(c)));
    }
  }

  /** The scheduler's push does the same for the task it has just marked. */
  lemma PushKeepsInv(s: State)
    requires Inv(s) && s.sched.Pushing?
    ensures Inv(SchedulerNext(s))
  {
    var s' := SchedulerNext(s);
    var key := QueueKey(s.sched.msg.provider);
    assert Rest(s'.sched) == Rest(s.sched);
    TokensTransported(s, s', p => BeforePush(p, key, InPush));
    forall p ensures TokenOk(s', p) {
      assert TokenOk(s, BeforePush(p, key, InPush));
    }
  }

  /** A consumer between its pop and its push. */
  predicate Working(pc: Pc) {
    !pc.Idle? && !pc.Requeuing?
  }

  /** Only the holder of a task's token writes its row, so nobody else's view goes stale. */
  lemma HolderWriteKeepsOthers(s: State, c: Consumer, o: Outcome, p: Place)
    requires Inv(s) && Working(PcOf(s, c)) && p != Held(c)
    ensures TokenOk(ConsumerNext(s, c, o), p)
  {
    var s' := ConsumerNext(s, c, o);
    assert TokenOk(s, p) && MsgAt(s, Held(c)).Some?;
    assert MsgAt(s', p) == MsgAt(s, p);
    assert MsgAt(s, p).Some? ==> s'.table[MsgAt(s, p).value.id] == s.table[MsgAt(s, p).value.id];
  }

  lemma HolderWriteKeepsOwn(s: State, c: Consumer, o: Outcome)
    requires Working(PcOf(s, c)) && TokenOk(s, Held(c))
    ensures TokenOk(ConsumerNext(s, c, o), Held(c))
  {
  }

  lemma HolderWriteKeepsInv(s: State, c: Consumer, o: Outcome)
    requires Inv(s) && Working(PcOf(s, c))
    ensures Inv(ConsumerNext(s, c, o))
  {
    var s' := ConsumerNext(s, c, o);
    assert TokenOk(s, Held(c));
    TokensTransported(s, s', p => p);
    forall p ensures TokenOk(s', p) {
      if p == Held(c) {
        HolderWriteKeepsOwn(s, c, o);
      } else {
        HolderWriteKeepsOthers(s, c, o, p);
      }
    }
  }

  /** Dispatching creates the only token of a task that had none while pending. */
  lemma DispatchKeepsInv(s: State)
    requires Inv(s) && s.sched.Looping?
    ensures Inv(SchedulerNext(s))
  {
    var s' := SchedulerNext(s);
    var m := s.sched.rest[0];
    assert Faithful(s.table, Rest(s.sched)[0]);
    forall p, q | MsgAt(s', p).Some? && MsgAt(s', q).Some? && MsgAt(s', p).value.id == MsgAt(s', q).value.id
      ensures p == q
    {
      assert TokenOk(s, p) && TokenOk(s, q);
    }
    forall p ensures TokenOk(s', p) {
      assert TokenOk(s, p);
    }
    assert forall i :: 0 <= i < |Rest(s'.sched)| ==> Rest(s'.sched)[i] == Rest(s.sched)[i + 1];
  }

  lemma PollKeepsInv(s: State, step: Step)
    requires Inv(s) && step.Poll? && Enabled(s, step)
    ensures Inv(Apply(s, step))
  {
    var s' := Apply(s, step);
    TokensTransported(s, s', p => p);
    forall p ensures TokenOk(s', p) {
      assert TokenOk(s, p);
    }
  }

  lemma CreateKeepsInv(s: State, step: Step)
    requires Inv(s) && step.Create? && Enabled(s, step)
    ensures Inv(Apply(s, step))
  {
    var s' := Apply(s, step);
    TokensTransported(s, s', p => p);
    forall p ensures TokenOk(s', p) {
      assert TokenOk(s, p);
    }
  }

  lemma ConsumerKeepsInv(s: State, c: Consumer, o: Outcome)
    requires Inv(s)
    ensures Inv(ConsumerNext(s, c, o))
  {
    if PcOf(s, c).Idle? {
      if QueueOf(s, c.queue) != [] {
        PopKeepsInv(s, c, o);
      }
    } else if PcOf(s, c).Requeuing? {
      RequeueKeepsInv(s, c, o);
    } else {
      HolderWriteKeepsInv(s, c, o);
    }
  }

  lemma SchedulerKeepsInv(s: State)
    requires Inv(s)
    ensures Inv(SchedulerNext(s))
  {
    match s.sched
    case Resting =>
    case Looping(_) => DispatchKeepsInv(s);
    case Pushing(_, _) => PushKeepsInv(s);
    case Publishing(rest) =>
      var s' := SchedulerNext(s);
      assert Rest(s'.sched) == Rest(s.sched);
      TokensTransported(s, s', p => p);
      forall p ensures TokenOk(s', p) {
        assert TokenOk(s, p);
      }
  }

  /** Every step keeps the invariant, whatever fails and however it fails. */
  lemma StepKeepsInv(s: State, step: Step)
    requires Inv(s) && Enabled(s, step)
    ensures Inv(Apply(s, step))
  {
    match step
    case Create(_, _, _, _, _) => CreateKeepsInv(s, step);
    case Poll(_) => PollKeepsInv(s, step);
    case SchedulerCall(f) =>
      SchedulerKeepsInv(s);
      DropScheduler(s);
      DropScheduler(SchedulerNext(s));
    case ConsumerCall(c, o, f) =>
      ConsumerKeepsInv(s, c, o);
      DropConsumer(s, c);
      DropConsumer(ConsumerNext(s, c, o), c);
  }

  lemma {:induction false} RunKeepsInv(s: State, run: seq<Step>)
    requires Inv(s) && ValidRun(s, run)
    ensures Inv(Exec(s, run))
  {
    if run != [] {
      RunKeepsInv(s, run[..|run| - 1]);
      StepKeepsInv(Exec(s, run[..|run| - 1]), run[|run| - 1]);
    }
  }
}
