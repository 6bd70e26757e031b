/** A manager call run without interruption is one schedule of the concurrent machine, so the
    results about interleavings speak about the code of `Manager.ProviderManager.Complete`. */
module CallSchedule {
  import opened Base
  import P = Provider
  import F = Failover
  import opened FleetRuns

  /** The proofs below need of "this run leads to this state" only that steps extend it. */
  type Reach = (seq<Step>, State) -> bool

  ghost predicate StepTo(fleet: F.Fleet, s: State, step: Step, t: State) {
    Valid(fleet, s) && Enabled(fleet, s, step) && Apply(fleet, s, step) == t
  }

  ghost predicate Extends(fleet: F.Fleet, leads: Reach) {
    forall run, s, step, t :: leads(run, s) && StepTo(fleet, s, step, t) ==> leads(run + [step], t)
  }

  /** What one attempt of call `c` at its i-th candidate leaves. */
  function AfterAttempt(w: F.World, calls: map<CallId, Progress>, c: CallId, cands: seq<string>, i: nat,
                        h: P.Health, v: P.Outcome): State
    requires i < |cands|
  {
    State(w.live[cands[i] := h], w.store[cands[i] := h],
          if v.Reply? then calls - {c} else Next(calls, c, Ready(cands, i)))
  }

  /** One attempt is one step if the provider has become unavailable and two otherwise. */
  lemma AttemptIsSteps(fleet: F.Fleet, leads: Reach, before: seq<Step>, w: F.World, calls: map<CallId, Progress>,
                       c: CallId, cands: seq<string>, i: nat, o: P.Outcome, checked: P.Time, recorded: P.Time)
    returns (run: seq<Step>)
    requires Extends(fleet, leads) && leads(before, State(w.live, w.store, calls))
    requires Valid(fleet, State(w.live, w.store, calls))
    requires i < |cands| && c in calls && calls[c] == Ready(cands, i)
    ensures var (h, v) := F.Attempt(w.live[cands[i]], fleet[cands[i]], o, checked, recorded);
            leads(run, AfterAttempt(w, calls, c, cands, i, h, v))
  {
    var s, name := State(w.live, w.store, calls), cands[i];
    var (g, admitted) := P.Begin(w.live[name], checked);
    if admitted {
      var mid := State(w.live[name := g], w.store, calls[c := Waiting(cands, i)]);
      assert StepTo(fleet, s, Invoke(c, checked), mid);
      StepKeepsValid(fleet, s, Invoke(c, checked));
      run := before + [Invoke(c, checked)] + [Finish(c, recorded, o)];
      FinishLeaves(fleet, w, calls, c, cands, i, g, o, recorded);
    } else {
      run := before + [Invoke(c, checked)];
      var (h, v) := F.Attempt(w.live[name], fleet[name], o, checked, recorded);
      assert StepTo(fleet, s, Invoke(c, checked), AfterAttempt(w, calls, c, cands, i, h, v));
    }
  }

  lemma FinishLeaves(fleet: F.Fleet, w: F.World, calls: map<CallId, Progress>, c: CallId, cands: seq<string>, i: nat,
                     g: P.Health, o: P.Outcome, recorded: P.Time)
    requires i < |cands| && c in calls && calls[c] == Ready(cands, i) && cands[i] in w.live && cands[i] in fleet
    requires Valid(fleet, State(w.live[cands[i] := g], w.store, calls[c := Waiting(cands, i)]))
    ensures StepTo(fleet, State(w.live[cands[i] := g], w.store, calls[c := Waiting(cands, i)]), Finish(c, recorded, o),
                   AfterAttempt(w, calls, c, cands, i, P.Record(g, fleet[cands[i]], o, recorded), o))
  {
    var waiting := calls[c := Waiting(cands, i)];
    assert waiting - {c} == calls - {c};
    assert Next(waiting, c, Waiting(cands, i)) == Next(calls, c, Ready(cands, i));
    var h := P.Record(g, fleet[cands[i]], o, recorded);
    assert w.live[cands[i] := g][cands[i] := h] == w.live[cands[i] := h];
  }

  /** Where call `c` stands among the others after `n` failed attempts. */
  function Standing(others: map<CallId, Progress>, c: CallId, cands: seq<string>, n: nat): map<CallId, Progress> {
    if n < |cands| then others[c := Ready(cands, n)] else others
  }

  lemma NextStanding(others: map<CallId, Progress>, c: CallId, cands: seq<string>, n: nat)
    requires c !in others && n < |cands|
    ensures Next(Standing(others, c, cands, n), c, Ready(cands, n)) == Standing(others, c, cands, n + 1)
    ensures Standing(others, c, cands, n) - {c} == others
  {
    var calls := others[c := Ready(cands, n)];
    assert calls - {c} == others;
    assert n + 1 < |cands| ==> calls[c := Ready(cands, n + 1)] == others[c := Ready(cands, n + 1)];
  }

  /** The last of `n` failed attempts, from the world `w` the others left. */
  lemma LastFailure(start: F.World, fleet: F.Fleet, cands: seq<string>, n: nat, outcomes: nat -> P.Outcome,
                    ts: F.Times, w: F.World, now: F.World)
    requires 0 < n <= |cands| && F.AllFailed(start, fleet, cands, n, outcomes, ts, now)
    requires w == F.Tried(start, fleet, cands, n - 1, outcomes, ts)
    ensures cands[n - 1] in w.live && cands[n - 1] in fleet
    ensures var (h, v) := F.Attempt(w.live[cands[n - 1]], fleet[cands[n - 1]], outcomes(n - 1), ts.check(n - 1), ts.record(n - 1));
            v.Raise? && now == F.World(w.live[cands[n - 1] := h], w.store[cands[n - 1] := h])
  {
    F.TriedOneMore(start, fleet, cands, n - 1, outcomes, ts);
  }

  /** `n` failed attempts are a run. */
  lemma {:induction false} FailuresAreSteps(fleet: F.Fleet, leads: Reach, before: seq<Step>, start: F.World,
                                            others: map<CallId, Progress>, c: CallId, cands: seq<string>, n: nat,
                                            outcomes: nat -> P.Outcome, ts: F.Times, now: F.World)
    returns (run: seq<Step>)
    requires Extends(fleet, leads) && c !in others && n <= |cands|
    requires leads(before, State(start.live, start.store, Standing(others, c, cands, 0)))
    requires Valid(fleet, State(start.live, start.store, Standing(others, c, cands, 0)))
    requires F.AllFailed(start, fleet, cands, n, outcomes, ts, now)
    ensures leads(run, State(now.live, now.store, Standing(others, c, cands, n)))
    ensures Valid(fleet, State(now.live, now.store, Standing(others, c, cands, n)))
    decreases n
  {
    if n == 0 {
      run := before;
    } else {
      var w := F.Tried(start, fleet, cands, n - 1, outcomes, ts);
      var most := FailuresAreSteps(fleet, leads, before, start, others, c, cands, n - 1, outcomes, ts, w);
      LastFailure(start, fleet, cands, n, outcomes, ts, w, now);
      run := OneFailure(fleet, leads, most, w, others, c, cands, n - 1, outcomes(n - 1), ts.check(n - 1),
                        ts.record(n - 1), now);
    }
  }

  /** One more failed attempt. */
  lemma OneFailure(fleet: F.Fleet, leads: Reach, before: seq<Step>, w: F.World, others: map<CallId, Progress>,
                   c: CallId, cands: seq<string>, i: nat, o: P.Outcome, checked: P.Time, recorded: P.Time, now: F.World)
    returns (run: seq<Step>)
    requires Extends(fleet, leads) && c !in others && i < |cands|
    requires leads(before, State(w.live, w.store, Standing(others, c, cands, i)))
    requires Valid(fleet, State(w.live, w.store, Standing(others, c, cands, i)))
    requires cands[i] in w.live && cands[i] in fleet
    requires var (h, v) := F.Attempt(w.live[cands[i]], fleet[cands[i]], o, checked, recorded);
             v.Raise? && now == F.World(w.live[cands[i] := h], w.store[cands[i] := h])
    ensures leads(run, State(now.live, now.store, Standing(others, c, cands, i + 1)))
    ensures Valid(fleet, State(now.live, now.store, Standing(others, c, cands, i + 1)))
  {
    NextStanding(others, c, cands, i);
    run := AttemptIsSteps(fleet, leads, before, w, Standing(others, c, cands, i), c, cands, i, o, checked, recorded);
    StandingIsValid(fleet, w, now, others, c, cands, i + 1);
  }

  lemma StandingIsValid(fleet: F.Fleet, w: F.World, now: F.World, others: map<CallId, Progress>, c: CallId,
                        cands: seq<string>, n: nat)
    requires 0 < n <= |cands| && c !in others && now.live.Keys == w.live.Keys
    requires Valid(fleet, State(w.live, w.store, Standing(others, c, cands, n - 1)))
    ensures Valid(fleet, State(now.live, now.store, Standing(others, c, cands, n)))
  {
    var calls, more := Standing(others, c, cands, n - 1), Standing(others, c, cands, n);
    forall d | d in more
      ensures more[d].i < |more[d].cands| && forall j :: 0 <= j < |more[d].cands| ==> more[d].cands[j] in now.live
    {
      assert d in calls && more[d].cands == calls[d].cands;
    }
  }

  /** Serving from the chosen candidates is a run. */
  lemma ServingIsSteps(fleet: F.Fleet, leads: Reach, before: seq<Step>, start: F.World, others: map<CallId, Progress>,
                       c: CallId, cands: seq<string>, k: nat, outcomes: nat -> P.Outcome, ts: F.Times,
                       end: F.World, r: Option<F.Invocation>) returns (run: seq<Step>)
    requires Extends(fleet, leads) && c !in others
    requires fleet.Keys == start.live.Keys && forall j :: 0 <= j < |cands| ==> cands[j] in start.live
    requires leads(before, State(start.live, start.store, Standing(others, c, cands, 0)))
    requires Valid(fleet, State(start.live, start.store, Standing(others, c, cands, 0)))
    requires F.Serves(start, fleet, cands, k, outcomes, ts, end, r)
    ensures leads(run, State(end.live, end.store, others))
  {
    var w := F.Tried(start, fleet, cands, k, outcomes, ts);
    run := FailuresAreSteps(fleet, leads, before, start, others, c, cands, k, outcomes, ts, w);
    if k < |cands| {
      F.TriedOneMore(start, fleet, cands, k, outcomes, ts);
      NextStanding(others, c, cands, k);
      run := AttemptIsSteps(fleet, leads, run, w, Standing(others, c, cands, k), c, cands, k,
                            outcomes(k), ts.check(k), ts.record(k));
    }
  }

  /** The start of a call, then serving: a call of the manager from `w` to `end` is a run of the
      machine from `w` to `end`, whatever other calls are suspended meanwhile. */
  lemma CallIsSteps(fleet: F.Fleet, leads: Reach, before: seq<Step>, w: F.World, others: map<CallId, Progress>, c: CallId,
                    ordered: seq<string>, k: nat, outcomes: nat -> P.Outcome, ts: F.Times,
                    end: F.World, r: Option<F.Invocation>) returns (run: seq<Step>)
    requires Extends(fleet, leads) && c !in others && F.Known(ordered, fleet, w.live)
    requires leads(before, State(w.live, w.store, others)) && Valid(fleet, State(w.live, w.store, others))
    requires F.CompletesAs(w, fleet, ordered, k, outcomes, ts, end, r)
    ensures leads(run, State(end.live, end.store, others))
  {
    var s := State(w.live, w.store, others);
    var (live, cands) := F.Probe(w.live, fleet, ordered, |ordered|, ts);
    var t := State(live, w.store, Standing(others, c, cands, 0));
    assert StepTo(fleet, s, Start(c, ordered, ts), t);
    StepKeepsValid(fleet, s, Start(c, ordered, ts));
    run := ServingIsSteps(fleet, leads, before + [Start(c, ordered, ts)], F.World(live, w.store), others, c, cands, k,
                          outcomes, ts, end, r);
  }

  ghost predicate LeadsTo(fleet: F.Fleet, run: seq<Step>, s: State) {
    ValidRun(fleet, run) && Exec(fleet, run) == s
  }

  lemma OneMore(fleet: F.Fleet, run: seq<Step>, s: State, step: Step, t: State)
    requires LeadsTo(fleet, run, s) && StepTo(fleet, s, step, t)
    ensures LeadsTo(fleet, run + [step], t)
  {
    assert (run + [step])[..|run|] == run;
  }

  /** After any run of the machine, a manager call made there is a continuation of that run. */
  lemma CallContinuesRun(fleet: F.Fleet, before: seq<Step>, c: CallId, ordered: seq<string>, k: nat,
                         outcomes: nat -> P.Outcome, ts: F.Times, end: F.World, r: Option<F.Invocation>)
    returns (run: seq<Step>)
    requires ValidRun(fleet, before) && c !in Exec(fleet, before).calls
    requires F.Known(ordered, fleet, Exec(fleet, before).live)
    requires F.CompletesAs(F.World(Exec(fleet, before).live, Exec(fleet, before).store), fleet, ordered, k, outcomes, ts, end, r)
    ensures before <= run && ValidRun(fleet, run)
    ensures Exec(fleet, run) == State(end.live, end.store, Exec(fleet, before).calls)
  {
    var leads: Reach := (steps, s) => before <= steps && LeadsTo(fleet, steps, s);
    forall steps, s, step, t | leads(steps, s) && StepTo(fleet, s, step, t) ensures leads(steps + [step], t) {
      OneMore(fleet, steps, s, step, t);
    }
    var s := Exec(fleet, before);
    run := CallIsSteps(fleet, leads, before, F.World(s.live, s.store), s.calls, c, ordered, k, outcomes, ts, end, r);
    assert LeadsTo(fleet, run, State(end.live, end.store, s.calls));
  }
}
