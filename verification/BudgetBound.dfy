/** The budget bound is attained: a schedule of concurrent calls that reaches it exactly. */
module BudgetBound {
  import opened Base
  import P = Provider
  import F = Failover
  import opened FleetRuns

  const NAME := "vendor"
  const AT_ZERO := F.Times(_ => 0, _ => 0, _ => 0)

  function Vendor(budget: int): P.Profile {
    P.Profile(NAME, {P.Analysis}, 1.0, 1000, 1.0, 3, 60_000_000, 1_800_000_000, Some(budget))
  }

  function OneVendor(budget: int): F.Fleet {
    map[NAME := Vendor(budget)]
  }

  function Reply(tokens: int): P.Outcome {
    P.Reply("", tokens)
  }

  /** The vendor after `n` successes that charged `tokens` in all. */
  function After(n: nat, tokens: int): P.Health {
    P.Health(P.Available, 0, None, tokens, n, 0, None, Some(0))
  }

  /** One vendor with this health, live and stored, and these calls. */
  function World(h: P.Health, calls: map<CallId, Progress>): State {
    State(map[NAME := h], map[NAME := h], calls)
  }

  /** The run is allowed and leads to `s`. */
  ghost predicate Leads(budget: int, top: nat, k: nat, run: seq<Step>, s: State) {
    && ValidRun(OneVendor(budget), run) && TokensWithin(run, top) && AtMostActive(OneVendor(budget), run, k)
    && Exec(OneVendor(budget), run) == s
  }

  /** One step that may extend a run at `s`, leading to `t`. */
  ghost predicate StepOk(budget: int, top: nat, k: nat, s: State, step: Step, t: State) {
    && Valid(OneVendor(budget), s) && Enabled(OneVendor(budget), s, step)
    && Apply(OneVendor(budget), s, step) == t && |t.calls| <= k
    && (step.Finish? && step.outcome.Reply? ==> 0 <= step.outcome.tokens <= top)
  }

  lemma OneMore(budget: int, top: nat, k: nat, run: seq<Step>, s: State, step: Step, t: State)
    requires Leads(budget, top, k, run, s) && StepOk(budget, top, k, s, step, t)
    ensures Leads(budget, top, k, run + [step], t)
  {
    assert (run + [step])[..|run|] == run;
  }

  /** The schedule below needs of `Leads` only that steps extend it. */
  type Reach = (seq<Step>, State) -> bool

  ghost predicate Extends(budget: int, top: nat, k: nat, leads: Reach) {
    forall run, s, step, t :: leads(run, s) && StepOk(budget, top, k, s, step, t) ==> leads(run + [step], t)
  }

  // The three steps, on the states of the schedule.

  /** While the budget is not spent, a call that asks for the vendor is admitted. */
  lemma Admitted(budget: int, h: P.Health)
    requires h.status == P.Available && h.tokensUsed < budget
    ensures F.Probe(map[NAME := h], OneVendor(budget), [NAME], 1, AT_ZERO) == (map[NAME := h], [NAME])
  {
    var live := map[NAME := h];
    assert F.Probe(live, OneVendor(budget), [NAME], 0, AT_ZERO) == (live, []);
    F.ProbeOneMore(live, OneVendor(budget), [NAME], 0, AT_ZERO);
    assert P.Refresh(h, 0) == h && P.HasBudget(h, Vendor(budget), 0);
    assert live[NAME := h] == live && [] + [NAME] == [NAME];
  }

  lemma StartEffect(budget: int, h: P.Health, store: map<string, P.Health>, calls: map<CallId, Progress>, c: CallId)
    requires h.status == P.Available && h.tokensUsed < budget && c !in calls
    requires Valid(OneVendor(budget), State(map[NAME := h], store, calls))
    ensures Enabled(OneVendor(budget), State(map[NAME := h], store, calls), Start(c, [NAME], AT_ZERO))
    ensures Apply(OneVendor(budget), State(map[NAME := h], store, calls), Start(c, [NAME], AT_ZERO))
            == State(map[NAME := h], store, calls[c := Ready([NAME], 0)])
  {
    Admitted(budget, h);
  }

  lemma InvokeEffect(budget: int, h: P.Health, store: map<string, P.Health>, calls: map<CallId, Progress>, c: CallId)
    requires h.status == P.Available && c in calls && calls[c] == Ready([NAME], 0)
    requires Valid(OneVendor(budget), State(map[NAME := h], store, calls))
    ensures Apply(OneVendor(budget), State(map[NAME := h], store, calls), Invoke(c, 0))
            == State(map[NAME := h.(totalRequests := h.totalRequests + 1)], store, calls[c := Waiting([NAME], 0)])
  {
    assert P.Refresh(h, 0) == h;
  }

  lemma FinishEffect(budget: int, h: P.Health, store: map<string, P.Health>, calls: map<CallId, Progress>, c: CallId, n: int)
    requires c in calls && calls[c] == Waiting([NAME], 0)
    requires Valid(OneVendor(budget), State(map[NAME := h], store, calls))
    ensures Apply(OneVendor(budget), State(map[NAME := h], store, calls), Finish(c, 0, Reply(n)))
            == State(map[NAME := P.RecordSuccess(h, 0, n)], store[NAME := P.RecordSuccess(h, 0, n)], calls - {c})
  {
  }

  // The calls from `first` up to `end`, all about to invoke the vendor.

  function Open(first: nat, end: nat): map<CallId, Progress> {
    if first >= end then map[] else Open(first, end - 1)[end - 1 := Ready([NAME], 0)]
  }

  lemma {:induction false} OpenCalls(first: nat, end: nat)
    ensures |Open(first, end)| == Max(0, end - first)
    ensures forall c :: c in Open(first, end) <==> first <= c < end
    ensures forall c :: c in Open(first, end) ==> Open(first, end)[c] == Ready([NAME], 0)
    decreases end
  {
    if first < end {
      OpenCalls(first, end - 1);
    }
  }

  lemma OpenRest(first: nat, end: nat)
    requires first < end
    ensures Open(first, end) - {first} == Open(first + 1, end)
  {
    OpenCalls(first, end);
    OpenCalls(first + 1, end);
  }

  /** A call about to invoke the vendor gets its answer of `n` tokens. */
  lemma AnswerOne(budget: int, top: nat, k: nat, leads: Reach, before: seq<Step>, h: P.Health,
                  store: map<string, P.Health>, calls: map<CallId, Progress>, c: CallId, n: int) returns (run: seq<Step>)
    requires Extends(budget, top, k, leads) && leads(before, State(map[NAME := h], store, calls))
    requires Valid(OneVendor(budget), State(map[NAME := h], store, calls)) && |calls| <= k
    requires h.status == P.Available && c in calls && calls[c] == Ready([NAME], 0) && 0 <= n <= top
    ensures var g := P.RecordSuccess(h.(totalRequests := h.totalRequests + 1), 0, n);
            leads(run, State(map[NAME := g], store[NAME := g], calls - {c}))
  {
    var s := State(map[NAME := h], store, calls);
    var h1 := h.(totalRequests := h.totalRequests + 1);
    var waiting := calls[c := Waiting([NAME], 0)];
    var mid := State(map[NAME := h1], store, waiting);
    InvokeEffect(budget, h, store, calls, c);
    assert waiting.Keys == calls.Keys && |waiting| == |calls|;
    assert StepOk(budget, top, k, s, Invoke(c, 0), mid);
    StepKeepsValid(OneVendor(budget), s, Invoke(c, 0));
    FinishEffect(budget, h1, store, waiting, c, n);
    assert waiting - {c} == calls - {c} && |calls - {c}| <= |calls|;
    run := before + [Invoke(c, 0)] + [Finish(c, 0, Reply(n))];
    var g := P.RecordSuccess(h1, 0, n);
    assert StepOk(budget, top, k, mid, Finish(c, 0, Reply(n)), State(map[NAME := g], store[NAME := g], calls - {c}));
  }

  /** A call on its own is admitted while the budget lasts, and charges `n` tokens. */
  lemma OneCall(budget: int, top: nat, k: nat, leads: Reach, before: seq<Step>, h: P.Health,
                store: map<string, P.Health>, n: int) returns (run: seq<Step>)
    requires Extends(budget, top, k, leads) && leads(before, State(map[NAME := h], store, map[]))
    requires h.status == P.Available && h.tokensUsed < budget && 0 <= n <= top && k >= 1
    ensures var g := P.RecordSuccess(h.(totalRequests := h.totalRequests + 1), 0, n);
            leads(run, State(map[NAME := g], store[NAME := g], map[]))
  {
    var ready := map[0 := Ready([NAME], 0)];
    StartEffect(budget, h, store, map[], 0);
    assert map[][0 := Ready([NAME], 0)] == ready && ready - {0} == map[];
    assert StepOk(budget, top, k, State(map[NAME := h], store, map[]), Start(0, [NAME], AT_ZERO),
                  State(map[NAME := h], store, ready));
    run := AnswerOne(budget, top, k, leads, before + [Start(0, [NAME], AT_ZERO)], h, store, ready, 0, n);
  }

  /** The vendor's own records, whether or not there was a snapshot before. */
  lemma AfterOneMore(m: nat, spent: int, n: int)
    ensures P.RecordSuccess(P.FRESH.(totalRequests := 1), 0, n) == After(1, n)
    ensures P.RecordSuccess(After(m, spent).(totalRequests := m + 1), 0, n) == After(m + 1, spent + n)
    ensures map[][NAME := After(1, n)] == map[NAME := After(1, n)]
    ensures map[NAME := After(m, spent)][NAME := After(m + 1, spent + n)] == map[NAME := After(m + 1, spent + n)]
  {
  }

  /** One call at a time, any amount within the budget can be spent, in `n` calls. */
  lemma {:induction false} Spend(budget: int, top: nat, k: nat, leads: Reach, target: nat) returns (run: seq<Step>, n: nat)
    requires target < budget && (target == 0 || top >= 1) && k >= 1
    requires Extends(budget, top, k, leads) && leads([], State(map[NAME := P.FRESH], map[], map[]))
    ensures leads(run, World(After(n, target), map[]))
    decreases target
  {
    if target <= top {
      AfterOneMore(0, 0, target);
      run := OneCall(budget, top, k, leads, [], P.FRESH, map[], target);
      n := 1;
    } else {
      var before, m := Spend(budget, top, k, leads, target - top);
      AfterOneMore(m, target - top, top);
      var h := After(m, target - top);
      run := OneCall(budget, top, k, leads, before, h, map[NAME := h], top);
      n := m + 1;
    }
  }

  /** `n` calls start while one token is left; each of them is admitted. */
  lemma {:induction false} AllAdmitted(budget: int, top: nat, k: nat, leads: Reach, spent: seq<Step>, m: nat, n: nat)
    returns (run: seq<Step>)
    requires budget >= 1 && n <= k
    requires Extends(budget, top, k, leads) && leads(spent, World(After(m, budget - 1), map[]))
    ensures leads(run, World(After(m, budget - 1), Open(0, n)))
  {
    if n == 0 {
      run := spent;
    } else {
      var h := After(m, budget - 1);
      var before := AllAdmitted(budget, top, k, leads, spent, m, n - 1);
      OpenCalls(0, n - 1);
      OpenCalls(0, n);
      StartEffect(budget, h, map[NAME := h], Open(0, n - 1), n - 1);
      assert StepOk(budget, top, k, World(h, Open(0, n - 1)), Start(n - 1, [NAME], AT_ZERO), World(h, Open(0, n)));
      run := before + [Start(n - 1, [NAME], AT_ZERO)];
    }
  }

  lemma AnswerNext(budget: int, top: nat, k: nat, leads: Reach, m: nat, c: nat, charged: int, before: seq<Step>)
    returns (run: seq<Step>)
    requires c < k && Extends(budget, top, k, leads) && leads(before, World(After(m, charged), Open(c, k)))
    ensures leads(run, World(After(m + 1, charged + top), Open(c + 1, k)))
  {
    var h := After(m, charged);
    OpenCalls(c, k);
    OpenRest(c, k);
    run := AnswerOne(budget, top, k, leads, before, h, map[NAME := h], Open(c, k), c, top);
    assert map[NAME := h][NAME := After(m + 1, charged + top)] == map[NAME := After(m + 1, charged + top)];
  }

  /** The first `c` of the `k` admitted calls get answers of `top` tokens each. */
  lemma {:induction false} AllAnswered(budget: int, top: nat, k: nat, leads: Reach, admitted: seq<Step>, m: nat, c: nat)
    returns (run: seq<Step>)
    requires budget >= 1 && c <= k
    requires Extends(budget, top, k, leads) && leads(admitted, World(After(m, budget - 1), Open(0, k)))
    ensures leads(run, World(After(m + c, budget - 1 + c * top), Open(c, k)))
  {
    if c == 0 {
      run := admitted;
    } else {
      var before := AllAnswered(budget, top, k, leads, admitted, m, c - 1);
      run := AnswerNext(budget, top, k, leads, m + c - 1, c - 1, budget - 1 + (c - 1) * top, before);
      assert (c - 1) * top + top == c * top;
    }
  }

  /** A run that reaches the bound, when calls are made and answers cost something. */
  lemma ReachBound(budget: int, top: nat, k: nat) returns (run: seq<Step>)
    requires budget >= 1 && k >= 1 && (top >= 1 || budget == 1)
    ensures Attains(budget, top, k, run)
  {
    var leads: Reach := (r, s) => Leads(budget, top, k, r, s);
    forall r, s, step, t | leads(r, s) && StepOk(budget, top, k, s, step, t) ensures leads(r + [step], t) {
      OneMore(budget, top, k, r, s, step, t);
    }
    assert Initial(OneVendor(budget)) == State(map[NAME := P.FRESH], map[], map[]);
    var m;
    run, m := Spend(budget, top, k, leads, budget - 1);
    run := AllAdmitted(budget, top, k, leads, run, m, k);
    run := AllAnswered(budget, top, k, leads, run, m, k);
    assert Leads(budget, top, k, run, World(After(m + k, budget - 1 + k * top), Open(k, k)));
  }

  /** With no calls, or answers that cost nothing, nothing is ever charged. */
  lemma {:induction false} NothingCharged(budget: int, top: nat, k: nat, run: seq<Step>)
    requires ValidRun(OneVendor(budget), run) && TokensWithin(run, top) && AtMostActive(OneVendor(budget), run, k)
    requires k == 0 || top == 0
    ensures NAME in Exec(OneVendor(budget), run).live
    ensures Exec(OneVendor(budget), run).live[NAME].tokensUsed == 0
  {
    if run != [] {
      var before, last := run[..|run| - 1], run[|run| - 1];
      NothingCharged(budget, top, k, before);
      var s := Exec(OneVendor(budget), before);
      if last.Start? {
        ProbeSpendsNothing(s.live, OneVendor(budget), last.ordered, |last.ordered|, last.ts, NAME);
      } else {
        PendingAfter(OneVendor(budget), s, last, NAME);
        assert k == 0 ==> s.calls == map[];
      }
    }
  }

  /** The run respects the limits on calls and answers and charges B - 1 + k * top tokens. */
  ghost predicate Attains(budget: int, top: nat, k: nat, run: seq<Step>) {
    && ValidRun(OneVendor(budget), run) && TokensWithin(run, top) && AtMostActive(OneVendor(budget), run, k)
    && NAME in Exec(OneVendor(budget), run).live
    && Exec(OneVendor(budget), run).live[NAME].tokensUsed == budget - 1 + k * top
  }

  /** The bound is exact: for a budget B >= 1, at most `k` calls at once and answers of up to
      `top` tokens, some run charges exactly B - 1 + k * top tokens, unless there are no calls
      or no charges at all and the budget is more than one token. */
  lemma BudgetBoundIsAttained(budget: int, top: nat, k: nat)
    requires budget >= 1
    ensures (exists run :: Attains(budget, top, k, run)) <==> budget == 1 || (k >= 1 && top >= 1)
  {
    if k >= 1 && (top >= 1 || budget == 1) {
      var run := ReachBound(budget, top, k);
    } else if budget == 1 {
      assert Attains(budget, top, k, []);
    } else {
      forall run ensures !Attains(budget, top, k, run) {
        if Attains(budget, top, k, run) {
          NothingCharged(budget, top, k, run);
        }
      }
    }
  }
}
