/** Self-healing decisions: counters per failure signature driving a bounded repair
    policy, and the closed form of the actions they produce when calls do not overlap. */
module Healing {
  import opened Base

  datatype Category = Syntax | Import | Dependency | Assertion | Timeout | Lint | Runtime | Unknown

  /** A signature is its own key: distinct signatures never share a counter. */
  datatype Signature = Signature(category: Category, exceptionType: string, location: string, message: string)

  datatype Action = Retry | DeterministicFix | LlmRepair | Rollback | Escalate

  datatype Policy = Policy(maxRepairAttempts: int, deterministicFirst: bool, rollbackAfterRepeats: int)

  datatype Decision = Decision(action: Action, category: Category, signature: Signature, attempt: int)

  datatype Event =
    | FailureAnalyzed(sig: Signature, deterministicFixable: bool, occurrences: int)
    | RepairDecisionMade(action: Action, attempt: int)
    | RolledBack
    | RepairEscalated(attempts: int)

  predicate Fixable(c: Category) {
    c.Lint? || c.Dependency?
  }

  function Count(counts: map<Signature, int>, sig: Signature): int {
    if sig in counts then counts[sig] else 0
  }

  predicate ConsumesAttempt(a: Action) {
    a.Retry? || a.DeterministicFix? || a.LlmRepair?
  }

  function Decide(policy: Policy, category: Category, priorAttempts: int, occurrences: int): Action {
    if priorAttempts >= policy.maxRepairAttempts then Escalate
    else if category.Timeout? && priorAttempts == 0 then Retry
    else if Fixable(category) && policy.deterministicFirst then DeterministicFix
    else if occurrences >= policy.rollbackAfterRepeats then Rollback
    else LlmRepair
  }

  // ---------------------------------------------------------------------------
  // The closed form

  /** How many failures of one signature are met with a repair attempt. */
  function AttemptLimit(p: Policy, c: Category): nat {
    Max(0, if Fixable(c) && p.deterministicFirst then p.maxRepairAttempts
           else if c.Timeout? then Min(p.maxRepairAttempts, Max(1, p.rollbackAfterRepeats - 1))
           else Min(p.maxRepairAttempts, p.rollbackAfterRepeats - 1))
  }

  /** The action taken on the k-th failure of a signature, k counting from 1. */
  function ClosedForm(p: Policy, c: Category, k: nat): Action {
    if k > AttemptLimit(p, c) then
      if AttemptLimit(p, c) < p.maxRepairAttempts then Rollback else Escalate
    else if c.Timeout? && k == 1 then Retry
    else if Fixable(c) && p.deterministicFirst then DeterministicFix
    else LlmRepair
  }

  /** The counters the closed form predicts after `k` failures lead to exactly the action it
      predicts for the next one. */
  lemma DecideIsClosedForm(p: Policy, c: Category, k: nat)
    ensures Decide(p, c, Min(k, AttemptLimit(p, c)), k + 1) == ClosedForm(p, c, k + 1)
    ensures ConsumesAttempt(ClosedForm(p, c, k + 1)) <==> k < AttemptLimit(p, c)
  {
  }

  // ---------------------------------------------------------------------------
  // Histories

  function Occurrences(history: seq<Signature>, sig: Signature): nat {
    if history == [] then 0
    else Occurrences(history[..|history| - 1], sig) + if history[|history| - 1] == sig then 1 else 0
  }

  function Actions(log: seq<(Signature, Action)>, sig: Signature, a: Action): nat {
    if log == [] then 0
    else Actions(log[..|log| - 1], sig, a) + if log[|log| - 1] == (sig, a) then 1 else 0
  }

  datatype State = State(counts: map<Signature, int>, attempts: map<Signature, int>, log: seq<(Signature, Action)>)

  const FRESH := State(map[], map[], [])

  // `handle_failure` suspends once before it decides: its two halves, on the counters.

  function Observe(s: State, sig: Signature): State {
    s.(counts := s.counts[sig := Count(s.counts, sig) + 1])
  }

  /** The decision uses what was read before the suspension. */
  function Conclude(policy: Policy, s: State, sig: Signature, priorAttempts: int, occurrences: int): State {
    var action := Decide(policy, sig.category, priorAttempts, occurrences);
    s.(attempts := if ConsumesAttempt(action) then s.attempts[sig := Count(s.attempts, sig) + 1] else s.attempts,
       log := s.log + [(sig, action)])
  }

  /** One call that is not overlapped by another. */
  function Handle(policy: Policy, s: State, sig: Signature): State {
    Conclude(policy, Observe(s, sig), sig, Count(s.attempts, sig), Count(s.counts, sig) + 1)
  }

  function HandleAll(policy: Policy, history: seq<Signature>): State {
    if history == [] then FRESH
    else Handle(policy, HandleAll(policy, history[..|history| - 1]), history[|history| - 1])
  }

  /** After any sequence of failures the counters of a signature depend on its own failures
      only. */
  lemma {:induction false} CountersAreClosedForm(policy: Policy, history: seq<Signature>, sig: Signature)
    ensures Count(HandleAll(policy, history).counts, sig) == Occurrences(history, sig)
    ensures Count(HandleAll(policy, history).attempts, sig)
            == Min(Occurrences(history, sig), AttemptLimit(policy, sig.category))
    ensures |HandleAll(policy, history).log| == |history|
  {
    if history != [] {
      var before, last := history[..|history| - 1], history[|history| - 1];
      CountersAreClosedForm(policy, before, sig);
      DecideIsClosedForm(policy, sig.category, Occurrences(before, sig));
    }
  }

  /** The log entry the history's i-th failure should get. */
  function ExpectedEntry(policy: Policy, history: seq<Signature>, i: nat): (Signature, Action)
    requires i < |history|
  {
    (history[i], ClosedForm(policy, history[i].category, Occurrences(history[..i + 1], history[i])))
  }

  lemma LastActionIsClosedForm(policy: Policy, before: seq<Signature>, last: Signature)
    ensures var history := before + [last];
            HandleAll(policy, history).log == HandleAll(policy, before).log + [ExpectedEntry(policy, history, |before|)]
  {
    var history := before + [last];
    assert history[..|before|] == before && history[..|before| + 1] == history;
    NextIsClosedForm(policy, before, last);
  }

  /** The closed form, for any interleaving of signatures: the i-th failure is met with the
      action determined by its own signature and how often that one has been seen. */
  lemma {:induction false} ActionsAreClosedForm(policy: Policy, history: seq<Signature>)
    ensures |HandleAll(policy, history).log| == |history|
    ensures forall i :: 0 <= i < |history| ==> HandleAll(policy, history).log[i] == ExpectedEntry(policy, history, i)
  {
    if history != [] {
      var before, last := history[..|history| - 1], history[|history| - 1];
      assert history == before + [last];
      ActionsAreClosedForm(policy, before);
      LastActionIsClosedForm(policy, before, last);
      forall i | 0 <= i < |before| ensures ExpectedEntry(policy, history, i) == ExpectedEntry(policy, before, i) {
        assert before[..i + 1] == history[..i + 1];
      }
    }
  }

  function Attempts(log: seq<(Signature, Action)>, sig: Signature): nat {
    Actions(log, sig, Retry) + Actions(log, sig, DeterministicFix) + Actions(log, sig, LlmRepair)
  }

  function Surrenders(log: seq<(Signature, Action)>, sig: Signature): nat {
    Actions(log, sig, Rollback) + Actions(log, sig, Escalate)
  }

  lemma TallyAppend(log: seq<(Signature, Action)>, last: Signature, action: Action, sig: Signature)
    ensures var more := log + [(last, action)];
            && Attempts(more, sig) == Attempts(log, sig) + (if last == sig && ConsumesAttempt(action) then 1 else 0)
            && Surrenders(more, sig) == Surrenders(log, sig) + (if last == sig && !ConsumesAttempt(action) then 1 else 0)
  {
    assert (log + [(last, action)])[..|log|] == log;
  }

  /** Every failure is accounted for: occurrences are repair attempts, rollbacks and
      escalations, and attempts never exceed the policy's maximum. */
  lemma {:induction false} OccurrencesAreAccounted(policy: Policy, history: seq<Signature>, sig: Signature)
    ensures var s := HandleAll(policy, history);
            && Count(s.counts, sig) == Count(s.attempts, sig) + Surrenders(s.log, sig)
            && Count(s.attempts, sig) == Attempts(s.log, sig)
            && Count(s.attempts, sig) <= Max(0, policy.maxRepairAttempts)
  {
    if history != [] {
      var before, last := history[..|history| - 1], history[|history| - 1];
      OccurrencesAreAccounted(policy, before, sig);
      var s, t := HandleAll(policy, before), HandleAll(policy, history);
      var action := Decide(policy, last.category, Count(s.attempts, last), Count(s.counts, last) + 1);
      assert t.log == s.log + [(last, action)];
      TallyAppend(s.log, last, action, sig);
    }
  }

  /** A signature never sees both a rollback and an escalation. */
  lemma RollbackExcludesEscalation(policy: Policy, history: seq<Signature>, i: nat, j: nat)
    requires i < |history| && j < |history| && history[i] == history[j]
    requires |HandleAll(policy, history).log| == |history|
    ensures !(HandleAll(policy, history).log[i].1.Rollback? && HandleAll(policy, history).log[j].1.Escalate?)
  {
    ActionsAreClosedForm(policy, history);
  }

  // ---------------------------------------------------------------------------
  // The same as a table of categories

  /** How the k-th failure of a signature of this category is answered. */
  predicate TableSays(p: Policy, c: Category, k: nat, a: Action) {
    var max, repeats := p.maxRepairAttempts, p.rollbackAfterRepeats;
    var mechanical := (c == Lint || c == Dependency) && p.deterministicFirst;
    && (a == DeterministicFix <==> mechanical && k <= max)
    && (a == Retry <==> c == Timeout && k == 1 && max >= 1)
    && (a == LlmRepair <==> !mechanical && k <= max && k < repeats && (c == Timeout ==> k >= 2))
    && (a == Rollback <==> !mechanical && repeats <= max && k >= repeats
                           && if c == Timeout then max >= 2 && k >= 2 else max >= 1)
    && (a == Escalate <==> max <= 0 || (k > max && (mechanical || repeats > max || (c == Timeout && max == 1))))
  }

  lemma ClosedFormIsTable(p: Policy, c: Category, k: nat)
    requires k >= 1
    ensures TableSays(p, c, k, ClosedForm(p, c, k))
  {
  }

  lemma {:induction false} LastIsCounted(history: seq<Signature>)
    requires history != []
    ensures Occurrences(history, history[|history| - 1]) >= 1
  {
  }

  /** For any policy and any failures in any order, the i-th is answered as the table says for its
      category and for how often its signature had failed by then. */
  lemma AnswersFollowTable(policy: Policy, history: seq<Signature>, i: nat)
    requires i < |history|
    ensures |HandleAll(policy, history).log| == |history| && HandleAll(policy, history).log[i].0 == history[i]
    ensures TableSays(policy, history[i].category, Occurrences(history[..i + 1], history[i]), HandleAll(policy, history).log[i].1)
  {
    ActionsAreClosedForm(policy, history);
    LastIsCounted(history[..i + 1]);
    ClosedFormIsTable(policy, history[i].category, Occurrences(history[..i + 1], history[i]));
  }

  /** What one decision publishes: the analysis with its flag by category, the decision, and then
      a rollback or an escalation exactly if that is what was decided. */
  predicate Publishes(events: seq<Event>, d: Decision, occurrences: nat) {
    && |events| == (if d.action == Rollback || d.action == Escalate then 3 else 2)
    && events[0] == FailureAnalyzed(d.signature, d.category == Lint || d.category == Dependency, occurrences)
    && events[1] == RepairDecisionMade(d.action, d.attempt)
    && (d.action == Rollback ==> events[2] == RolledBack)
    && (d.action == Escalate ==> events[2] == RepairEscalated(d.attempt))
  }

  /** The decision on the k-th failure of `sig`: by the table, and numbered by the repair attempts
      in the log. */
  predicate Answers(p: Policy, sig: Signature, k: nat, log: seq<(Signature, Action)>, d: Decision) {
    && TableSays(p, sig.category, k, d.action) && d.category == sig.category && d.signature == sig
    && log != [] && log[|log| - 1] == (sig, d.action) && d.attempt == Attempts(log, sig)
  }

  lemma DecisionAnswers(policy: Policy, history: seq<Signature>, sig: Signature)
    ensures var k := Occurrences(history, sig) + 1;
            && Answers(policy, sig, k, HandleAll(policy, history + [sig]).log, DecisionFor(policy, sig, k))
            && Publishes(EventsFor(DecisionFor(policy, sig, k), k), DecisionFor(policy, sig, k), k)
  {
    var k, all := Occurrences(history, sig) + 1, history + [sig];
    assert all[..|history|] == history && all[|history|] == sig && all[..|history| + 1] == all;
    ClosedFormIsTable(policy, sig.category, k);
    ActionsAreClosedForm(policy, all);
    OccurrencesAreAccounted(policy, all, sig);
    CountersAreClosedForm(policy, all, sig);
  }

  function DecisionFor(p: Policy, sig: Signature, k: nat): Decision {
    Decision(ClosedForm(p, sig.category, k), sig.category, sig, Min(k, AttemptLimit(p, sig.category)))
  }

  function EventsFor(d: Decision, occurrences: nat): seq<Event> {
    [FailureAnalyzed(d.signature, Fixable(d.category), occurrences), RepairDecisionMade(d.action, d.attempt)]
    + match d.action
      case Rollback => [RolledBack]
      case Escalate => [RepairEscalated(d.attempt)]
      case _ => []
  }

  /** What handling one more failure does, in terms of the history alone. */
  lemma NextIsClosedForm(policy: Policy, history: seq<Signature>, sig: Signature)
    ensures var s, k := HandleAll(policy, history), Occurrences(history, sig) + 1;
            && Count(s.counts, sig) + 1 == k
            && Decide(policy, sig.category, Count(s.attempts, sig), k) == ClosedForm(policy, sig.category, k)
            && Count(Handle(policy, s, sig).attempts, sig) == Min(k, AttemptLimit(policy, sig.category))
            && Handle(policy, s, sig) == HandleAll(policy, history + [sig])
            && (ClosedForm(policy, sig.category, k).Escalate? ==>
                  Count(s.attempts, sig) == Min(k, AttemptLimit(policy, sig.category)))
  {
    CountersAreClosedForm(policy, history, sig);
    DecideIsClosedForm(policy, sig.category, Occurrences(history, sig));
    assert (history + [sig])[..|history|] == history;
  }

  // ---------------------------------------------------------------------------
  // The objects

  class FailureMemory {
    var counts: map<Signature, int>

    constructor ()
      ensures counts == map[]
    {
      counts := map[];
    }

    method Record(sig: Signature) returns (n: int)
      modifies this
      ensures counts == old(counts)[sig := Count(old(counts), sig) + 1] && n == counts[sig]
    {
      counts := counts[sig := Count(counts, sig) + 1];
      n := counts[sig];
    }
  }

  class RepairHistory {
    var attempts: map<Signature, int>
    var log: seq<(Signature, Action)>

    constructor ()
      ensures attempts == map[] && log == []
    {
      attempts, log := map[], [];
    }

    method Record(sig: Signature, action: Action)
      modifies this
      ensures log == old(log) + [(sig, action)]
      ensures attempts == if ConsumesAttempt(action)
                          then old(attempts)[sig := Count(old(attempts), sig) + 1] else old(attempts)
    {
      if action in {DeterministicFix, LlmRepair, Retry} {
        attempts := attempts[sig := Count(attempts, sig) + 1];
      }
      log := log + [(sig, action)];
    }
  }

  /** The runtime. `history` records the failures handled since the counters were empty. */
  class SelfHealingRuntime {
    const policy: Policy
    const memory: FailureMemory
    const repairs: RepairHistory
    var events: seq<Event>
    ghost var history: seq<Signature>

    ghost predicate Valid()
      reads this, memory, repairs
    {
      State(memory.counts, repairs.attempts, repairs.log) == HandleAll(policy, history)
    }

    constructor (policy: Policy)
      ensures Valid() && this.policy == policy && history == [] && events == []
      ensures fresh(memory) && fresh(repairs)
    {
      this.policy := policy;
      memory := new FailureMemory();
      repairs := new RepairHistory();
      events, history := [], [];
    }

    function Counters(): State
      reads memory, repairs
    {
      State(memory.counts, repairs.attempts, repairs.log)
    }

    /** Count the failure and read the attempts so far. */
    method ObserveFailure(sig: Signature) returns (occurrences: int, priorAttempts: int)
      modifies memory
      ensures Counters() == Observe(old(Counters()), sig)
      ensures occurrences == Count(old(memory.counts), sig) + 1 && priorAttempts == Count(repairs.attempts, sig)
    {
      occurrences := memory.Record(sig);
      priorAttempts := Count(repairs.attempts, sig);
    }

    /** Decide on what was read, and record the decision. */
    method ConcludeFailure(sig: Signature, occurrences: int, priorAttempts: int) returns (action: Action, attempt: int)
      modifies repairs
      ensures Counters() == Conclude(policy, old(Counters()), sig, priorAttempts, occurrences)
      ensures action == Decide(policy, sig.category, priorAttempts, occurrences)
      ensures attempt == Count(repairs.attempts, sig)
    {
      action := Decide(policy, sig.category, priorAttempts, occurrences);
      repairs.Record(sig, action);
      attempt := Count(repairs.attempts, sig);
    }

    /** Both halves without another call in between. */
    method DecideAndRecord(sig: Signature) returns (occurrences: int, priorAttempts: int, action: Action, attempt: int)
      modifies memory, repairs
      ensures Counters() == Handle(policy, old(Counters()), sig)
      ensures occurrences == Count(old(memory.counts), sig) + 1 && priorAttempts == Count(old(repairs.attempts), sig)
      ensures attempt == Count(repairs.attempts, sig)
      ensures action == Decide(policy, sig.category, priorAttempts, occurrences)
    {
      occurrences, priorAttempts := ObserveFailure(sig);
      action, attempt := ConcludeFailure(sig, occurrences, priorAttempts);
    }

    /** The same, in terms of the history. */
    method NextDecision(sig: Signature) returns (d: Decision, occurrences: int, priorAttempts: int)
      requires Valid()
      modifies this`history, memory, repairs
      ensures Valid() && history == old(history) + [sig]
      ensures occurrences == Occurrences(old(history), sig) + 1
      ensures d == DecisionFor(policy, sig, Occurrences(old(history), sig) + 1)
      ensures d.action.Escalate? ==> priorAttempts == d.attempt
    {
      NextIsClosedForm(policy, history, sig);
      var action, attempt;
      occurrences, priorAttempts, action, attempt := DecideAndRecord(sig);
      d := Decision(action, sig.category, sig, attempt);
      history := history + [sig];
    }

    /** Emit the events of one decision. */
    method Publish(d: Decision, occurrences: int, priorAttempts: int)
      requires occurrences >= 0 && (d.action.Escalate? ==> priorAttempts == d.attempt)
      modifies this`events
      ensures events == old(events) + EventsFor(d, occurrences)
    {
      events := events + [FailureAnalyzed(d.signature, Fixable(d.category), occurrences)];
      events := events + [RepairDecisionMade(d.action, d.attempt)];
      if d.action.Rollback? {
        events := events + [RolledBack];
      } else if d.action.Escalate? {
        events := events + [RepairEscalated(priorAttempts)];
      }
    }

    /** The decision is the closed form of how often this signature has failed so far, and
        the attempt it reports is that number, up to the limit. */
    method HandleFailure(sig: Signature) returns (d: Decision)
      requires Valid()
      modifies this, memory, repairs
      ensures Valid() && history == old(history) + [sig]
      ensures var k := Occurrences(old(history), sig) + 1;
              && d == DecisionFor(policy, sig, k)
              && events == old(events) + EventsFor(d, k)
      ensures Answers(policy, sig, Occurrences(old(history), sig) + 1, repairs.log, d)
      ensures old(events) <= events
              && Publishes(events[|old(events)|..], d, Occurrences(old(history), sig) + 1)
    {
      DecisionAnswers(policy, history, sig);
      var occurrences, priorAttempts;
      d, occurrences, priorAttempts := NextDecision(sig);
      Publish(d, occurrences, priorAttempts);
    }
  }
}
