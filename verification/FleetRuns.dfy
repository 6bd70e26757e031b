/** Any number of manager calls at once. Between two awaits a call runs undisturbed; at each
    await any other call may run. Candidates are chosen once, at the start of a call, and
    their budget is not looked at again. */
module FleetRuns {
  import opened Base
  import P = Provider
  import F = Failover

  type CallId = nat

  /** A call about to invoke its i-th candidate, or waiting for its answer. */
  datatype Progress = Ready(cands: seq<string>, i: nat) | Waiting(cands: seq<string>, i: nat)

  datatype State = State(live: map<string, P.Health>, store: map<string, P.Health>, calls: map<CallId, Progress>)

  datatype Step =
    | Start(c: CallId, ordered: seq<string>, ts: F.Times)
    | Invoke(c: CallId, now: P.Time)
    | Finish(c: CallId, now: P.Time, outcome: P.Outcome)
    | Check(name: string, now: P.Time)

  function Initial(fleet: F.Fleet): State {
    State(map n | n in fleet :: P.FRESH, map[], map[])
  }

  /** Every call is at one of its candidates, and all of them are known providers. */
  ghost predicate Valid(fleet: F.Fleet, s: State) {
    && s.live.Keys == fleet.Keys
    && forall c :: c in s.calls ==>
         && s.calls[c].i < |s.calls[c].cands|
         && forall j :: 0 <= j < |s.calls[c].cands| ==> s.calls[c].cands[j] in s.live
  }

  function Candidate(pc: Progress): string
    requires pc.i < |pc.cands|
  {
    pc.cands[pc.i]
  }

  /** After a failed attempt: the next candidate, or the call ends. */
  function Next(calls: map<CallId, Progress>, c: CallId, pc: Progress): map<CallId, Progress> {
    if pc.i + 1 < |pc.cands| then calls[c := Ready(pc.cands, pc.i + 1)] else calls - {c}
  }

  ghost predicate Enabled(fleet: F.Fleet, s: State, step: Step) {
    match step
    case Start(c, ordered, _) => c !in s.calls && F.Known(ordered, fleet, s.live)
    case Invoke(c, _) => c in s.calls && s.calls[c].Ready?
    case Finish(c, _, _) => c in s.calls && s.calls[c].Waiting?
    case Check(name, _) => name in s.live
  }

  ghost function Apply(fleet: F.Fleet, s: State, step: Step): State
    requires Valid(fleet, s) && Enabled(fleet, s, step)
  {
    match step
    case Start(c, ordered, ts) =>
      var (live, cands) := F.Probe(s.live, fleet, ordered, |ordered|, ts);
      State(live, s.store, if cands == [] then s.calls else s.calls[c := Ready(cands, 0)])
    case Invoke(c, now) =>
      var pc, name := s.calls[c], Candidate(s.calls[c]);
      var (h, admitted) := P.Begin(s.live[name], now);
      if admitted then State(s.live[name := h], s.store, s.calls[c := Waiting(pc.cands, pc.i)])
      else State(s.live[name := h], s.store[name := h], Next(s.calls, c, pc))
    case Finish(c, now, o) =>
      var pc, name := s.calls[c], Candidate(s.calls[c]);
      var h := P.Record(s.live[name], fleet[name], o, now);
      State(s.live[name := h], s.store[name := h], if o.Reply? then s.calls - {c} else Next(s.calls, c, pc))
    case Check(name, now) => s.(live := s.live[name := P.Refresh(s.live[name], now)])
  }

  lemma StepKeepsValid(fleet: F.Fleet, s: State, step: Step)
    requires Valid(fleet, s) && Enabled(fleet, s, step)
    ensures Valid(fleet, Apply(fleet, s, step))
  {
  }

  ghost predicate ValidRun(fleet: F.Fleet, run: seq<Step>)
    decreases |run|, 0
  {
    run != [] ==>
      && ValidRun(fleet, run[..|run| - 1])
      && Enabled(fleet, Exec(fleet, run[..|run| - 1]), run[|run| - 1])
  }

  ghost function Exec(fleet: F.Fleet, run: seq<Step>): (s: State)
    requires ValidRun(fleet, run)
    ensures Valid(fleet, s)
    decreases |run|, 1
  {
    if run == [] then Initial(fleet)
    else
      var before := Exec(fleet, run[..|run| - 1]);
      StepKeepsValid(fleet, before, run[|run| - 1]);
      Apply(fleet, before, run[|run| - 1])
  }

  // ---------------------------------------------------------------------------
  // Each provider goes through a run of its own machine

  /** The calls waiting for an answer of `name`. */
  ghost function InFlight(s: State, name: string): set<CallId> {
    set c | c in s.calls && s.calls[c].Waiting? && s.calls[c].i < |s.calls[c].cands| && Candidate(s.calls[c]) == name
  }

  ghost function View(s: State, name: string): P.State
    requires name in s.live
  {
    P.State(s.live[name], |InFlight(s, name)|)
  }

  /** Extending a run of one provider's machine by a step. */
  lemma Extend(p: P.Profile, s: P.State, run: seq<P.Step>, step: P.Step)
    requires P.ValidRun(p, s, run) && P.Enabled(P.Exec(p, s, run), step)
    ensures P.ValidRun(p, s, run + [step]) && P.Exec(p, s, run + [step]) == P.Apply(p, P.Exec(p, s, run), step)
  {
    assert (run + [step])[..|run|] == run;
  }

  /** One more check of a provider. */
  lemma ExtendByCheck(p: P.Profile, s: P.State, run: seq<P.Step>, now: P.Time)
    requires P.ValidRun(p, s, run)
    ensures P.ValidRun(p, s, run + [P.Check(now)])
    ensures P.Exec(p, s, run + [P.Check(now)])
            == P.State(P.Refresh(P.Exec(p, s, run).health, now), P.Exec(p, s, run).inFlight)
  {
    Extend(p, s, run, P.Check(now));
  }

  /** The checks of one call's start, as seen by one provider. */
  lemma {:induction false} ProbeProjects(fleet: F.Fleet, live: map<string, P.Health>, ordered: seq<string>, n: nat,
                                         ts: F.Times, name: string, start: P.State, run: seq<P.Step>)
    returns (more: seq<P.Step>)
    requires n <= |ordered| && F.Known(ordered, fleet, live) && name in live
    requires P.ValidRun(fleet[name], start, run) && P.Exec(fleet[name], start, run).health == live[name]
    ensures P.ValidRun(fleet[name], start, more)
    ensures P.Exec(fleet[name], start, more)
            == P.State(F.Probe(live, fleet, ordered, n, ts).0[name], P.Exec(fleet[name], start, run).inFlight)
  {
    if n == 0 {
      more := run;
    } else {
      more := ProbeProjects(fleet, live, ordered, n - 1, ts, name, start, run);
      F.ProbeOneMore(live, fleet, ordered, n - 1, ts);
      if ordered[n - 1] == name {
        ExtendByCheck(fleet[name], start, more, ts.probe(n - 1));
        more := more + [P.Check(ts.probe(n - 1))];
      }
    }
  }

  /** What one step of the fleet is for the provider `name`, if it is anything but checks. */
  function Seen(s: State, step: Step, name: string): Option<P.Step> {
    match step
    case Start(_, _, _) => None
    case Check(n, now) => if n == name then Some(P.Check(now)) else None
    case Invoke(c, now) =>
      if c in s.calls && s.calls[c].i < |s.calls[c].cands| && Candidate(s.calls[c]) == name then Some(P.Invoke(now)) else None
    case Finish(c, now, o) =>
      if c in s.calls && s.calls[c].i < |s.calls[c].cands| && Candidate(s.calls[c]) == name then Some(P.Finish(now, o)) else None
  }

  lemma InFlightAfter(fleet: F.Fleet, s: State, step: Step, name: string)
    requires Valid(fleet, s) && Enabled(fleet, s, step) && name in s.live
    ensures var t := Apply(fleet, s, step);
            InFlight(t, name) ==
              match step
              case Finish(c, _, _) => InFlight(s, name) - {c}
              case Invoke(c, now) =>
                if Candidate(s.calls[c]) == name && P.Begin(s.live[name], now).1 then InFlight(s, name) + {c}
                else InFlight(s, name)
              case _ => InFlight(s, name)
  {
    StepKeepsValid(fleet, s, step);
  }

  /** What it means for a step of the fleet to be one step, or no step, of a provider. */
  ghost predicate Projects(fleet: F.Fleet, s: State, step: Step, t: State, name: string)
    requires name in s.live && name in fleet
  {
    && name in t.live
    && match Seen(s, step, name)
       case None => View(t, name) == View(s, name)
       case Some(seen) => P.Enabled(View(s, name), seen) && View(t, name) == P.Apply(fleet[name], View(s, name), seen)
  }

  lemma InvokeProjects(fleet: F.Fleet, s: State, step: Step, name: string)
    requires Valid(fleet, s) && Enabled(fleet, s, step) && name in s.live && step.Invoke?
    ensures Projects(fleet, s, step, Apply(fleet, s, step), name)
  {
    InFlightAfter(fleet, s, step, name);
    assert step.c !in InFlight(s, name);
  }

  lemma FinishProjects(fleet: F.Fleet, s: State, step: Step, name: string)
    requires Valid(fleet, s) && Enabled(fleet, s, step) && name in s.live && step.Finish?
    ensures Projects(fleet, s, step, Apply(fleet, s, step), name)
  {
    InFlightAfter(fleet, s, step, name);
    assert step.c in InFlight(s, name) <==> Candidate(s.calls[step.c]) == name;
    if Candidate(s.calls[step.c]) == name {
      assert |InFlight(s, name) - {step.c}| == |InFlight(s, name)| - 1;
    } else {
      assert InFlight(s, name) - {step.c} == InFlight(s, name);
    }
  }

  /** A step other than a start is one step, or no step, of each provider's machine. */
  lemma StepProjects(fleet: F.Fleet, s: State, step: Step, name: string)
    requires Valid(fleet, s) && Enabled(fleet, s, step) && name in s.live && !step.Start?
    ensures Projects(fleet, s, step, Apply(fleet, s, step), name)
  {
    match step
    case Invoke(_, _) => InvokeProjects(fleet, s, step, name);
    case Finish(_, _, _) => FinishProjects(fleet, s, step, name);
    case Check(_, _) => InFlightAfter(fleet, s, step, name);
  }

  /** Whatever the interleaving, each provider goes through a run of its own machine: the
      single-provider results hold under any number of concurrent manager calls. */
  lemma {:induction false} FleetRunProjects(fleet: F.Fleet, run: seq<Step>, name: string) returns (own: seq<P.Step>)
    requires ValidRun(fleet, run) && name in fleet
    ensures P.ValidRun(fleet[name], P.START, own)
    ensures P.Exec(fleet[name], P.START, own) == View(Exec(fleet, run), name)
  {
    if run == [] {
      own := [];
      assert InFlight(Initial(fleet), name) == {};
    } else {
      var s, last := Exec(fleet, run[..|run| - 1]), run[|run| - 1];
      own := FleetRunProjects(fleet, run[..|run| - 1], name);
      if last.Start? {
        own := ProbeProjects(fleet, s.live, last.ordered, |last.ordered|, last.ts, name, P.START, own);
        InFlightAfter(fleet, s, last, name);
      } else {
        StepProjects(fleet, s, last, name);
        if Seen(s, last, name).Some? {
          Extend(fleet[name], P.START, own, Seen(s, last, name).value);
          own := own + [Seen(s, last, name).value];
        }
      }
    }
  }

  /** Does this step bring `name` a reply? */
  function IsReply(s: State, step: Step, name: string): bool {
    step.Finish? && step.outcome.Reply? && Seen(s, step, name).Some?
  }

  ghost function Replies(fleet: F.Fleet, run: seq<Step>, name: string): nat
    requires ValidRun(fleet, run)
  {
    if run == [] then 0
    else Replies(fleet, run[..|run| - 1], name)
         + if IsReply(Exec(fleet, run[..|run| - 1]), run[|run| - 1], name) then 1 else 0
  }

  ghost function Charged(fleet: F.Fleet, run: seq<Step>, name: string): int
    requires ValidRun(fleet, run)
  {
    if run == [] then 0
    else Charged(fleet, run[..|run| - 1], name)
         + if IsReply(Exec(fleet, run[..|run| - 1]), run[|run| - 1], name) then run[|run| - 1].outcome.tokens else 0
  }

  /** Checking counts nothing. */
  lemma {:induction false} ProbeCountsNothing(live: map<string, P.Health>, fleet: F.Fleet, ordered: seq<string>, n: nat,
                                              ts: F.Times, name: string)
    requires n <= |ordered| && F.Known(ordered, fleet, live) && name in live
    ensures var after := F.Probe(live, fleet, ordered, n, ts).0;
            && after[name].tokensUsed == live[name].tokensUsed
            && after[name].totalRequests == live[name].totalRequests
            && after[name].totalFailures == live[name].totalFailures
  {
    if n > 0 {
      ProbeCountsNothing(live, fleet, ordered, n - 1, ts, name);
    }
  }

  /** The counters of `name` after `replies` replies that charged `charged` tokens. */
  ghost predicate Balanced(s: State, name: string, replies: nat, charged: int) {
    && name in s.live
    && s.live[name].totalRequests == replies + s.live[name].totalFailures + |InFlight(s, name)|
    && s.live[name].tokensUsed == charged
  }

  lemma StartBalances(fleet: F.Fleet, s: State, step: Step, name: string, replies: nat, charged: int)
    requires Valid(fleet, s) && Enabled(fleet, s, step) && step.Start? && Balanced(s, name, replies, charged)
    ensures Balanced(Apply(fleet, s, step), name, replies, charged)
  {
    ProbeCountsNothing(s.live, fleet, step.ordered, |step.ordered|, step.ts, name);
    InFlightAfter(fleet, s, step, name);
  }

  lemma StepBalances(fleet: F.Fleet, s: State, t: State, step: Step, name: string, replies: nat, charged: int)
    requires name in fleet && Balanced(s, name, replies, charged) && Projects(fleet, s, step, t, name)
    ensures var r := IsReply(s, step, name);
            Balanced(t, name, replies + (if r then 1 else 0), charged + (if r then step.outcome.tokens else 0))
  {
  }

  /** Under any number of concurrent calls: requests are replies, failures and invocations in
      flight, and the tokens used are the sum over the replies. */
  lemma {:induction false} CountersAreAccounted(fleet: F.Fleet, run: seq<Step>, name: string)
    requires ValidRun(fleet, run) && name in fleet
    ensures Balanced(Exec(fleet, run), name, Replies(fleet, run, name), Charged(fleet, run, name))
  {
    if run == [] {
      assert InFlight(Initial(fleet), name) == {};
    } else {
      var s, last := Exec(fleet, run[..|run| - 1]), run[|run| - 1];
      var replies, charged := Replies(fleet, run[..|run| - 1], name), Charged(fleet, run[..|run| - 1], name);
      CountersAreAccounted(fleet, run[..|run| - 1], name);
      if last.Start? {
        StartBalances(fleet, s, last, name, replies, charged);
      } else {
        StepProjects(fleet, s, last, name);
        StepBalances(fleet, s, Apply(fleet, s, last), last, name, replies, charged);
      }
    }
  }

  /** Under any number of concurrent calls a provider is AVAILABLE exactly when it has no
      cooldown, and then below its failure threshold. */
  lemma HealthIsConsistent(fleet: F.Fleet, run: seq<Step>, name: string)
    requires ValidRun(fleet, run) && name in fleet
    ensures name in Exec(fleet, run).live && P.Consistent(fleet[name], Exec(fleet, run).live[name])
  {
    var own := FleetRunProjects(fleet, run, name);
    P.HealthIsAccounted(fleet[name], own);
  }

  // ---------------------------------------------------------------------------
  // The budget

  /** The calls that may still charge tokens to `name`. */
  ghost function Pending(s: State, name: string): set<CallId> {
    set c | c in s.calls && s.calls[c].i <= |s.calls[c].cands| && name in s.calls[c].cands[s.calls[c].i..]
  }

  /** Every answer costs between 0 and `top` tokens. */
  ghost predicate TokensWithin(run: seq<Step>, top: int) {
    forall i :: 0 <= i < |run| && run[i].Finish? && run[i].outcome.Reply? ==> 0 <= run[i].outcome.tokens <= top
  }

  /** Never more than `k` calls at once. */
  ghost predicate AtMostActive(fleet: F.Fleet, run: seq<Step>, k: nat)
    requires ValidRun(fleet, run)
    decreases |run|
  {
    |Exec(fleet, run).calls| <= k && (run != [] ==> AtMostActive(fleet, run[..|run| - 1], k))
  }

  /** Checking spends nothing and only admits providers within budget. */
  lemma {:induction false} ProbeSpendsNothing(live: map<string, P.Health>, fleet: F.Fleet, ordered: seq<string>, n: nat,
                                              ts: F.Times, name: string)
    requires n <= |ordered| && F.Known(ordered, fleet, live) && name in live
    ensures var (after, cands) := F.Probe(live, fleet, ordered, n, ts);
            && after[name].tokensUsed == live[name].tokensUsed
            && (name in cands && fleet[name].budget.Some? ==> live[name].tokensUsed < fleet[name].budget.value)
  {
    if n > 0 {
      ProbeSpendsNothing(live, fleet, ordered, n - 1, ts, name);
    }
  }

  /** Only a reply of `name` charges it, and a reply ends the call that got it. */
  lemma PendingAfter(fleet: F.Fleet, s: State, step: Step, name: string)
    requires Valid(fleet, s) && Enabled(fleet, s, step) && name in s.live && !step.Start?
    ensures var t := Apply(fleet, s, step);
            && name in t.live
            && Pending(t, name) <= Pending(s, name)
            && (step.Finish? && step.outcome.Reply? && Candidate(s.calls[step.c]) == name ==>
                  step.c in Pending(s, name) && step.c !in Pending(t, name)
                  && t.live[name].tokensUsed == s.live[name].tokensUsed + step.outcome.tokens)
            && (!(step.Finish? && step.outcome.Reply? && Candidate(s.calls[step.c]) == name) ==>
                  t.live[name].tokensUsed == s.live[name].tokensUsed)
  {
    var t := Apply(fleet, s, step);
    StepKeepsValid(fleet, s, step);
    if step.Invoke? || step.Finish? {
      var pc := s.calls[step.c];
      assert pc.cands[pc.i..] == [pc.cands[pc.i]] + pc.cands[pc.i + 1..];
    }
  }

  ghost predicate WithinBudget(s: State, name: string, budget: int, k: nat, top: nat)
    requires name in s.live
  {
    s.live[name].tokensUsed + |Pending(s, name)| * top <= budget - 1 + k * top
  }

  lemma Scale(a: nat, b: nat, top: nat)
    requires a <= b
    ensures a * top <= b * top
  {
  }

  lemma SubsetSize<T>(a: set<T>, b: set<T>)
    requires a <= b
    ensures |a| <= |b| && (a < b ==> |a| < |b|)
  {
    assert b == a + (b - a);
  }

  lemma PendingAfterStart(fleet: F.Fleet, s: State, step: Step, name: string)
    requires Valid(fleet, s) && Enabled(fleet, s, step) && step.Start?
    ensures name in F.Probe(s.live, fleet, step.ordered, |step.ordered|, step.ts).1
            || Pending(Apply(fleet, s, step), name) == Pending(s, name)
  {
    var cands := F.Probe(s.live, fleet, step.ordered, |step.ordered|, step.ts).1;
    assert cands[0..] == cands;
  }

  lemma StartKeepsBudget(fleet: F.Fleet, s: State, step: Step, name: string, budget: int, k: nat, top: nat)
    requires Valid(fleet, s) && Enabled(fleet, s, step) && step.Start? && name in s.live
    requires fleet[name].budget == Some(budget) && WithinBudget(s, name, budget, k, top)
    requires |Apply(fleet, s, step).calls| <= k
    ensures name in Apply(fleet, s, step).live && WithinBudget(Apply(fleet, s, step), name, budget, k, top)
  {
    var t := Apply(fleet, s, step);
    ProbeSpendsNothing(s.live, fleet, step.ordered, |step.ordered|, step.ts, name);
    PendingAfterStart(fleet, s, step, name);
    SubsetSize(Pending(t, name), t.calls.Keys);
    Scale(|Pending(t, name)|, k, top);
  }

  lemma StepKeepsBudget(fleet: F.Fleet, s: State, step: Step, name: string, budget: int, k: nat, top: nat)
    requires Valid(fleet, s) && Enabled(fleet, s, step) && !step.Start? && name in s.live
    requires WithinBudget(s, name, budget, k, top)
    requires step.Finish? && step.outcome.Reply? ==> 0 <= step.outcome.tokens <= top
    ensures name in Apply(fleet, s, step).live && WithinBudget(Apply(fleet, s, step), name, budget, k, top)
  {
    var t := Apply(fleet, s, step);
    PendingAfter(fleet, s, step, name);
    SubsetSize(Pending(t, name), Pending(s, name));
    if step.Finish? && step.outcome.Reply? && Candidate(s.calls[step.c]) == name {
      Scale(|Pending(t, name)| + 1, |Pending(s, name)|, top);
    } else {
      Scale(|Pending(t, name)|, |Pending(s, name)|, top);
    }
  }

  /** With at most `k` calls at once and answers of at most `top` tokens, a provider with
      budget B >= 1 never has more than B - 1 + k * top tokens charged to it. */
  lemma {:induction false} BudgetOvershoot(fleet: F.Fleet, run: seq<Step>, name: string, budget: int, k: nat, top: nat)
    requires ValidRun(fleet, run) && AtMostActive(fleet, run, k) && TokensWithin(run, top)
    requires name in fleet && fleet[name].budget == Some(budget) && budget >= 1
    ensures name in Exec(fleet, run).live
    ensures WithinBudget(Exec(fleet, run), name, budget, k, top)
    ensures Exec(fleet, run).live[name].tokensUsed <= budget - 1 + k * top
  {
    if run == [] {
      assert Pending(Initial(fleet), name) == {};
      Scale(0, k, top);
    } else {
      var before, last := run[..|run| - 1], run[|run| - 1];
      BudgetOvershoot(fleet, before, name, budget, k, top);
      if last.Start? {
        StartKeepsBudget(fleet, Exec(fleet, before), last, name, budget, k, top);
      } else {
        StepKeepsBudget(fleet, Exec(fleet, before), last, name, budget, k, top);
      }
      Scale(0, |Pending(Exec(fleet, run), name)|, top);
    }
  }

  /** With responses that cost nothing negative, a provider once out of budget is never again
      among the candidates of a call. */
  lemma {:induction false} ExhaustedForever(fleet: F.Fleet, run: seq<Step>, more: seq<Step>, name: string, budget: int)
    requires ValidRun(fleet, run) && ValidRun(fleet, run + more)
    requires name in fleet && fleet[name].budget == Some(budget)
    requires Exec(fleet, run).live[name].tokensUsed >= budget
    requires forall i :: 0 <= i < |more| && more[i].Finish? && more[i].outcome.Reply? ==> more[i].outcome.tokens >= 0
    ensures Exec(fleet, run + more).live[name].tokensUsed >= budget
    ensures forall ordered, ts :: F.Known(ordered, fleet, Exec(fleet, run + more).live) ==>
              name !in F.Probe(Exec(fleet, run + more).live, fleet, ordered, |ordered|, ts).1
    decreases |more|
  {
    if more == [] {
      assert run + more == run;
    } else {
      var before, last := more[..|more| - 1], more[|more| - 1];
      assert (run + more)[..|run + more| - 1] == run + before;
      ExhaustedForever(fleet, run, before, name, budget);
      var s := Exec(fleet, run + before);
      if last.Start? {
        ProbeSpendsNothing(s.live, fleet, last.ordered, |last.ordered|, last.ts, name);
      } else {
        PendingAfter(fleet, s, last, name);
      }
    }
    var t := Exec(fleet, run + more);
    forall ordered, ts | F.Known(ordered, fleet, t.live)
      ensures name !in F.Probe(t.live, fleet, ordered, |ordered|, ts).1
    {
      ProbeSpendsNothing(t.live, fleet, ordered, |ordered|, ts, name);
    }
  }
}
