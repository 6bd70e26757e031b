/** Which failing calls lose a task, and that a lost task is lost for good. */
module QueueLosses {
  import opened Base
  import opened TaskTable
  import opened TaskQueue
  import opened QueueRuns

  /** The task was dispatched, is not finished, and no place holds a token for it. */
  ghost predicate Stranded(s: State, id: TaskId) {
    && id in s.table && s.table[id].status in {Scheduled, Running, Retrying}
    && forall p :: !Token(s, p, id)
  }

  lemma SchedulerKeepsStranded(s: State, id: TaskId)
    requires Inv(s) && Stranded(s, id)
    ensures Stranded(SchedulerNext(s), id) && SchedulerNext(s).table[id] == s.table[id]
  {
    var s' := SchedulerNext(s);
    if s.sched.Looping? {
      assert Faithful(s.table, Rest(s.sched)[0]);
    }
    forall p ensures !Token(s', p, id) {
      assert !Token(s, p, id) && !Token(s, InPush, id);
      if s.sched.Pushing? {
        assert !Token(s, BeforePush(p, QueueKey(s.sched.msg.provider), InPush), id);
      }
    }
  }

  lemma ConsumerKeepsStranded(s: State, c: Consumer, o: Outcome, id: TaskId)
    requires Stranded(s, id)
    ensures Stranded(ConsumerNext(s, c, o), id) && ConsumerNext(s, c, o).table[id] == s.table[id]
  {
    var s' := ConsumerNext(s, c, o);
    assert !Token(s, Held(c), id);
    forall p ensures !Token(s', p, id) {
      assert !Token(s, p, id);
      if PcOf(s, c).Idle? {
        assert !Token(s, BeforePop(p, c), id);
      } else if PcOf(s, c).Requeuing? {
        assert !Token(s, BeforePush(p, c.queue, Held(c)), id);
      }
    }
  }

  lemma StepKeepsStranded(s: State, step: Step, id: TaskId)
    requires Inv(s) && Stranded(s, id) && Enabled(s, step)
    ensures Stranded(Apply(s, step), id) && Apply(s, step).table[id] == s.table[id]
  {
    var s' := Apply(s, step);
    match step
    case SchedulerCall(f) =>
      SchedulerKeepsStranded(s, id);
      var next := if HasEffect(f) then SchedulerNext(s) else s;
      forall p ensures !Token(s', p, id) {
        assert !Token(next, p, id);
      }
    case ConsumerCall(c, o, f) =>
      ConsumerKeepsStranded(s, c, o, id);
      var next := if HasEffect(f) then ConsumerNext(s, c, o) else s;
      forall p ensures !Token(s', p, id) {
        assert !Token(next, p, id);
      }
    case _ =>
      forall p ensures !Token(s', p, id) {
        assert !Token(s, p, id);
      }
  }

  /** Nothing in the protocol revives a task whose token was lost to a failed call: its
      row keeps its status in every continuation. */
  lemma {:induction false} StrandedForever(s: State, run: seq<Step>, id: TaskId)
    requires Inv(s) && Stranded(s, id) && ValidRun(s, run)
    ensures Stranded(Exec(s, run), id) && Exec(s, run).table[id] == s.table[id]
  {
    if run != [] {
      StrandedForever(s, run[..|run| - 1], id);
      RunKeepsInv(s, run[..|run| - 1]);
      StepKeepsStranded(Exec(s, run[..|run| - 1]), run[|run| - 1], id);
    }
  }

  // ---------------------------------------------------------------------------
  // Which failing calls strand a task

  /** The failing calls that take the token of `id` out of the world: those between the moment
      a token leaves one place and the moment it arrives at the next. */
  predicate Strands(s: State, step: Step, id: TaskId) {
    match step
    case SchedulerCall(f) =>
      || (s.sched.Looping? && s.sched.rest != [] && s.sched.rest[0].id == id && f == Late)
      || (s.sched.Pushing? && s.sched.msg.id == id && f == Lost)
    case ConsumerCall(c, _, f) =>
      (match PcOf(s, c)
       case Idle => f == Late && QueueOf(s, c.queue) != [] && QueueOf(s, c.queue)[0].id == id
       case Decided(m, _, _, retry) => m.id == id && (f == Lost || (f == Late && retry))
       case Requeuing(m) => m.id == id && f == Lost
       case Succeeded(m, _) => m.id == id && f == Lost
       case pc => pc.msg.id == id && f != NoFault)
    case _ => false
  }

  /** A task whose row is untouched and whose token, if any, is only moved is not stranded. */
  lemma MovedIsNotStranded(s: State, s': State, id: TaskId, fwd: Place -> Place)
    requires id in s.table && !Stranded(s, id)
    requires id in s'.table && s'.table[id] == s.table[id]
    requires forall p :: Token(s, p, id) ==> Token(s', fwd(p), id)
    ensures !Stranded(s', id)
  {
    if s.table[id].status in {Scheduled, Running, Retrying} {
      var p :| Token(s, p, id);
      assert Token(s', fwd(p), id);
    }
  }

  /** A task whose only token is taken away, without its row being finished, is stranded. */
  lemma TakenIsStranded(s: State, s': State, id: TaskId, at: Place, back: Place -> Place)
    requires Inv(s) && Token(s, at, id)
    requires id in s'.table && s'.table[id].status in {Scheduled, Running, Retrying}
    requires forall p :: Token(s', p, id) ==> Token(s, back(p), id) && back(p) != at
    ensures Stranded(s', id)
  {
    forall p ensures !Token(s', p, id) {
      if Token(s', p, id) {
        OneToken(s, back(p), at, id);
      }
    }
  }

  lemma DispatchStrandsIff(s: State, f: Fault, id: TaskId)
    requires Inv(s) && id in s.table && !Stranded(s, id) && s.sched.Looping?
    ensures Stranded(Apply(s, SchedulerCall(f)), id) <==> Strands(s, SchedulerCall(f), id)
  {
    var s' := Apply(s, SchedulerCall(f));
    assert Faithful(s.table, Rest(s.sched)[0]);
    if s.sched.rest[0].id != id || f == Lost {
      MovedIsNotStranded(s, s', id, p => p);
    } else if f == NoFault {
      assert Token(s', InPush, id);
    } else {
      forall p ensures !Token(s', p, id) {
        assert TokenOk(s, p);
      }
    }
  }

  lemma PushStrandsIff(s: State, f: Fault, id: TaskId)
    requires Inv(s) && id in s.table && !Stranded(s, id) && s.sched.Pushing?
    ensures Stranded(Apply(s, SchedulerCall(f)), id) <==> Strands(s, SchedulerCall(f), id)
  {
    var s', m := Apply(s, SchedulerCall(f)), s.sched.msg;
    var key := QueueKey(m.provider);
    if f == Lost {
      assert TokenOk(s, InPush);
      if m.id == id {
        TakenIsStranded(s, s', id, InPush, p => p);
      } else {
        MovedIsNotStranded(s, s', id, p => p);
      }
    } else {
      MovedIsNotStranded(s, s', id, p => if p == InPush then InQueue(key, 0) else AfterPush(p, key));
    }
  }

  lemma SchedulerStrandsIff(s: State, f: Fault, id: TaskId)
    requires Inv(s) && id in s.table && !Stranded(s, id) && Enabled(s, SchedulerCall(f))
    ensures Stranded(Apply(s, SchedulerCall(f)), id) <==> Strands(s, SchedulerCall(f), id)
  {
    match s.sched
    case Looping(_) => DispatchStrandsIff(s, f, id);
    case Pushing(_, _) => PushStrandsIff(s, f, id);
    case _ => MovedIsNotStranded(s, Apply(s, SchedulerCall(f)), id, p => p);
  }

  /** A message that was taken off its list and arrived nowhere. */
  lemma LostPopStrandsIff(s: State, c: Consumer, o: Outcome, id: TaskId)
    requires Inv(s) && id in s.table && !Stranded(s, id) && PcOf(s, c).Idle? && QueueOf(s, c.queue) != []
    ensures Stranded(Apply(s, ConsumerCall(c, o, Late)), id) <==> QueueOf(s, c.queue)[0].id == id
  {
    var s', head := Apply(s, ConsumerCall(c, o, Late)), InQueue(c.queue, 0);
    if QueueOf(s, c.queue)[0].id == id {
      assert TokenOk(s, head);
      TakenIsStranded(s, s', id, head, p => BeforePop(p, c));
    } else {
      MovedIsNotStranded(s, s', id, p => AfterPop(p, c.queue));
    }
  }

  /** A pop strands exactly if it took a message that then never arrived. */
  lemma PopStrandsIff(s: State, c: Consumer, o: Outcome, f: Fault, id: TaskId)
    requires Inv(s) && id in s.table && !Stranded(s, id) && PcOf(s, c).Idle?
    ensures Stranded(Apply(s, ConsumerCall(c, o, f)), id) <==> Strands(s, ConsumerCall(c, o, f), id)
  {
    var s', head := Apply(s, ConsumerCall(c, o, f)), InQueue(c.queue, 0);
    if QueueOf(s, c.queue) == [] || f == Lost {
      MovedIsNotStranded(s, s', id, p => p);
    } else if f == NoFault {
      MovedIsNotStranded(s, s', id, p => if p == head then Held(c) else AfterPop(p, c.queue));
    } else {
      LostPopStrandsIff(s, c, o, id);
    }
  }

  lemma RequeuedIsNotStranded(s: State, c: Consumer, o: Outcome, f: Fault, id: TaskId)
    requires id in s.table && !Stranded(s, id) && PcOf(s, c).Requeuing? && f != Lost
    ensures !Stranded(Apply(s, ConsumerCall(c, o, f)), id)
  {
    MovedIsNotStranded(s, Apply(s, ConsumerCall(c, o, f)), id,
                       p => if p == Held(c) then InQueue(c.queue, 0) else AfterPush(p, c.queue));
  }

  lemma RequeueStrandsIff(s: State, c: Consumer, o: Outcome, f: Fault, id: TaskId)
    requires Inv(s) && id in s.table && !Stranded(s, id) && PcOf(s, c).Requeuing?
    ensures Stranded(Apply(s, ConsumerCall(c, o, f)), id) <==> Strands(s, ConsumerCall(c, o, f), id)
  {
    var s' := Apply(s, ConsumerCall(c, o, f));
    assert TokenOk(s, Held(c));
    if f != Lost {
      RequeuedIsNotStranded(s, c, o, f, id);
    } else if PcOf(s, c).msg.id == id {
      TakenIsStranded(s, s', id, Held(c), p => p);
    } else {
      MovedIsNotStranded(s, s', id, p => p);
    }
  }

  /** Between pop and push: the holder's failing calls, except one that finished the row. */
  lemma HolderStrandsIff(s: State, c: Consumer, o: Outcome, f: Fault, id: TaskId)
    requires Inv(s) && id in s.table && !Stranded(s, id) && Working(PcOf(s, c))
    ensures Stranded(Apply(s, ConsumerCall(c, o, f)), id) <==> Strands(s, ConsumerCall(c, o, f), id)
  {
    if PcOf(s, c).msg.id == id {
      OwnCallStrandsIff(s, c, o, f);
    } else {
      MovedIsNotStranded(s, Apply(s, ConsumerCall(c, o, f)), id, p => p);
    }
  }

  lemma OwnCallStrandsIff(s: State, c: Consumer, o: Outcome, f: Fault)
    requires Inv(s) && Working(PcOf(s, c))
    ensures var id := PcOf(s, c).msg.id;
            Stranded(Apply(s, ConsumerCall(c, o, f)), id) <==> Strands(s, ConsumerCall(c, o, f), id)
  {
    var s', id := Apply(s, ConsumerCall(c, o, f)), PcOf(s, c).msg.id;
    assert TokenOk(s, Held(c));
    if Strands(s, ConsumerCall(c, o, f), id) {
      TakenIsStranded(s, s', id, Held(c), p => p);
    } else if f == NoFault && !PcOf(s', c).Idle? {
      assert Token(s', Held(c), id);
    }
  }

  /** The exact condition: a step strands a task that was not yet stranded if and only if it is
      one of these failing calls. */
  lemma StepStrandsIff(s: State, step: Step, id: TaskId)
    requires Inv(s) && id in s.table && !Stranded(s, id) && Enabled(s, step)
    ensures Stranded(Apply(s, step), id) <==> Strands(s, step, id)
  {
    match step
    case SchedulerCall(f) => SchedulerStrandsIff(s, f, id);
    case ConsumerCall(c, o, f) =>
      if PcOf(s, c).Idle? {
        PopStrandsIff(s, c, o, f, id);
      } else if PcOf(s, c).Requeuing? {
        RequeueStrandsIff(s, c, o, f, id);
      } else {
        HolderStrandsIff(s, c, o, f, id);
      }
    case _ => MovedIsNotStranded(s, Apply(s, step), id, p => p);
  }

  /** Some call along the run stranded `id`. */
  ghost predicate SomeCallStrands(run: seq<Step>, id: TaskId)
    requires ValidRun(EMPTY, run)
  {
    run != [] &&
      (SomeCallStrands(run[..|run| - 1], id) || Strands(Exec(EMPTY, run[..|run| - 1]), run[|run| - 1], id))
  }

  lemma CreatedIsNotStranded(s: State, step: Step, id: TaskId)
    requires Inv(s) && Enabled(s, step) && id !in s.table
    ensures !Stranded(Apply(s, step), id) && !Strands(s, step, id)
  {
    match step
    case SchedulerCall(_) =>
      assert TokenOk(s, InPush);
      assert s.sched.Looping? ==> Faithful(s.table, Rest(s.sched)[0]);
    case ConsumerCall(c, _, _) =>
      assert TokenOk(s, Held(c)) && TokenOk(s, InQueue(c.queue, 0));
    case _ =>
  }

  /** Over whole runs: a task is stranded if and only if one of these calls failed on it at some
      point, and nothing ever brings it back. */
  lemma {:induction false} StrandedIffACallStrandedIt(run: seq<Step>, id: TaskId)
    requires ValidRun(EMPTY, run)
    ensures Stranded(Exec(EMPTY, run), id) <==> SomeCallStrands(run, id)
  {
    if run != [] {
      var before, last := run[..|run| - 1], run[|run| - 1];
      var s := Exec(EMPTY, before);
      StrandedIffACallStrandedIt(before, id);
      EmptyIsInv();
      RunKeepsInv(EMPTY, before);
      if id !in s.table {
        CreatedIsNotStranded(s, last, id);
      } else if Stranded(s, id) {
        StepKeepsStranded(s, last, id);
      } else {
        StepStrandsIff(s, last, id);
      }
    }
  }

  /** It does happen: a dispatched task whose SCHEDULED write went through before its call
      failed is never pushed. */
  lemma TasksDoGetLost(id: TaskId, job: Job) returns (run: seq<Step>)
    ensures ValidRun(EMPTY, run) && Stranded(Exec(EMPTY, run), id)
  {
    var created := Create(id, job, DEFAULT_PROVIDER, 3, 0);
    ExtendRun(EMPTY, [], created);
    var s1 := Apply(EMPTY, created);
    assert IsPendingSnapshot(s1.table, [id], POLL_LIMIT);
    ExtendRun(EMPTY, [] + [created], Poll([id]));
    var s2 := Apply(s1, Poll([id]));
    run := [] + [created] + [Poll([id])] + [SchedulerCall(Late)];
    ExtendRun(EMPTY, [] + [created] + [Poll([id])], SchedulerCall(Late));
    assert run[..|run| - 1] == [] + [created] + [Poll([id])];
    assert Strands(s2, SchedulerCall(Late), id) && SomeCallStrands(run, id);
    StrandedIffACallStrandedIt(run, id);
  }
}
