/** When overlapping calls of the self-healing runtime lead one signature to both a rollback and
    an escalation, which without overlap never happens. */
module HealingExclusion {
  import opened Base
  import opened Healing
  import opened HealingOverlap

  predicate Logged(w: World, sig: Signature, action: Action) {
    (sig, action) in w.counters.log
  }

  /** The exact condition, for at most `k` overlapping calls about a signature of category `c`. */
  predicate Mixes(p: Policy, c: Category, k: nat) {
    var max, repeats := p.maxRepairAttempts, p.rollbackAfterRepeats;
    if Fixable(c) && p.deterministicFirst then false
    else if c.Timeout? then max >= 2 && (max + 1 <= repeats <= max - 1 + k || repeats <= max <= k)
    else max >= 1 && max + 1 <= repeats <= max - 1 + k
  }

  // ---------------------------------------------------------------------------
  // Otherwise it does not happen

  function Decided(policy: Policy, p: Pending): Action {
    Decide(policy, p.sig.category, p.priorAttempts, p.occurrences)
  }

  /** No suspended call about `sig` will take this action. */
  ghost predicate NonePending(policy: Policy, w: World, sig: Signature, action: Action) {
    forall c :: c in OpenOf(w, sig) ==> Decided(policy, w.open[c]) != action
  }

  /** Repairs that cannot reach the maximum never escalate. */
  lemma {:induction false} NeverEscalates(policy: Policy, run: seq<Step>, sig: Signature, k: nat)
    requires ValidRun(policy, run) && AtMostOpen(policy, run, sig, k)
    requires OverlapLimit(policy, sig.category, k) < policy.maxRepairAttempts
    ensures !Logged(Exec(policy, run), sig, Escalate) && NonePending(policy, Exec(policy, run), sig, Escalate)
  {
    if run != [] {
      var before, last := run[..|run| - 1], run[|run| - 1];
      NeverEscalates(policy, before, sig, k);
      OverlapBound(policy, before, sig, k);
      OpenAfter(policy, Exec(policy, before), last, sig);
      if last.Resume? {
        assert Exec(policy, before).open[last.c].sig == sig ==> last.c in OpenOf(Exec(policy, before), sig);
      }
    }
  }

  /** Why a rollback may be impossible. */
  predicate RollbackIsOut(p: Policy, c: Category, k: nat) {
    || (Fixable(c) && p.deterministicFirst)
    || p.maxRepairAttempts <= 0
    || (c.Timeout? && p.maxRepairAttempts <= 1)
    || p.rollbackAfterRepeats > p.maxRepairAttempts - 1 + k
  }

  /** What every run keeps then: nothing is given up before the maximum is reached. */
  ghost predicate NoRollback(policy: Policy, w: World, sig: Signature) {
    && !Logged(w, sig, Rollback) && NonePending(policy, w, sig, Rollback)
    && (forall c :: c in OpenOf(w, sig) ==> 0 <= w.open[c].priorAttempts <= Count(w.counters.attempts, sig))
    && (Surrenders(w.counters.log, sig) > 0 ==> Count(w.counters.attempts, sig) >= policy.maxRepairAttempts)
  }

  lemma ArriveKeepsNoRollback(policy: Policy, w: World, c: CallId, of: Signature, sig: Signature, k: nat)
    requires NoRollback(policy, w, sig) && RollbackIsOut(policy, sig.category, k) && c !in w.open
    requires Accounted(w, sig, |OpenOf(w, sig)|) && Count(w.counters.attempts, sig) >= 0
    requires |OpenOf(Apply(policy, w, Arrive(c, of)), sig)| <= k
    ensures NoRollback(policy, Apply(policy, w, Arrive(c, of)), sig)
  {
    OpenAfter(policy, w, Arrive(c, of), sig);
    if of == sig {
      assert |OpenOf(w, sig) + {c}| == |OpenOf(w, sig)| + 1;
      assert Decided(policy, Read(w.counters, sig)) != Rollback;
    }
  }

  lemma ResumeKeepsNoRollback(policy: Policy, w: World, c: CallId, sig: Signature)
    requires NoRollback(policy, w, sig) && c in w.open
    ensures NoRollback(policy, Apply(policy, w, Resume(c)), sig)
  {
    var p := w.open[c];
    OpenAfter(policy, w, Resume(c), sig);
    TallyAppend(w.counters.log, p.sig, Decided(policy, p), sig);
    if p.sig == sig {
      assert c in OpenOf(w, sig);
    }
  }

  lemma {:induction false} NeverRollsBack(policy: Policy, run: seq<Step>, sig: Signature, k: nat)
    requires ValidRun(policy, run) && AtMostOpen(policy, run, sig, k) && RollbackIsOut(policy, sig.category, k)
    ensures NoRollback(policy, Exec(policy, run), sig)
  {
    if run != [] {
      var before, last := run[..|run| - 1], run[|run| - 1];
      NeverRollsBack(policy, before, sig, k);
      OverlappingIsAccounted(policy, before, sig);
      OverlapBound(policy, before, sig, k);
      match last
      case Arrive(c, of) => ArriveKeepsNoRollback(policy, Exec(policy, before), c, of, sig, k);
      case Resume(c) => ResumeKeepsNoRollback(policy, Exec(policy, before), c, sig);
    }
  }

  lemma NotMixing(p: Policy, c: Category, k: nat)
    requires !Mixes(p, c, k)
    ensures RollbackIsOut(p, c, k) || OverlapLimit(p, c, k) < p.maxRepairAttempts
  {
  }

  // ---------------------------------------------------------------------------
  // Under the condition it does

  /** An allowed run after which nothing is suspended and a rollback is logged. */
  ghost predicate RolledBackOnce(policy: Policy, run: seq<Step>, sig: Signature, k: nat) {
    && ValidRun(policy, run) && AtMostOpen(policy, run, sig, k)
    && Exec(policy, run).open == map[] && Logged(Exec(policy, run), sig, Rollback)
  }

  ghost predicate Mixed(policy: Policy, run: seq<Step>, sig: Signature, k: nat) {
    && ValidRun(policy, run) && AtMostOpen(policy, run, sig, k)
    && Logged(Exec(policy, run), sig, Rollback) && Logged(Exec(policy, run), sig, Escalate)
  }

  /** Once the maximum is reached, one more call escalates. */
  lemma OneMoreEscalates(policy: Policy, before: seq<Step>, sig: Signature, k: nat) returns (run: seq<Step>)
    requires RolledBackOnce(policy, before, sig, k) && k >= 1
    requires Count(Exec(policy, before).counters.attempts, sig) >= policy.maxRepairAttempts
    ensures Mixed(policy, run, sig, k)
  {
    OneMore(policy, before, Arrive(0, sig), sig, k, 0, 1);
    var w := Exec(policy, before + [Arrive(0, sig)]);
    OneMore(policy, before + [Arrive(0, sig)], Resume(0), sig, k, 0, 0);
    run := before + [Arrive(0, sig)] + [Resume(0)];
    assert Exec(policy, run).counters.log == w.counters.log + [(sig, Escalate)];
  }

  /** Late threshold: all but one attempt one call after another, then as many calls at once as
      it takes for the last of them to reach the threshold. */
  lemma LateThresholdMixes(policy: Policy, sig: Signature, k: nat) returns (run: seq<Step>)
    requires Mixes(policy, sig.category, k) && policy.rollbackAfterRepeats > policy.maxRepairAttempts
    ensures Mixed(policy, run, sig, k)
  {
    var n, j := policy.maxRepairAttempts - 1, policy.rollbackAfterRepeats - policy.maxRepairAttempts + 1;
    assert AllRepair(policy, sig.category, n, j - 1);
    run := Drain(policy, sig, k, n, j, j - 1);
    var w := Exec(policy, run);
    assert w.open[j - 1] == Pending(sig, n, n + j);
    OneMore(policy, run, Resume(j - 1), sig, k, j, j);
    run := run + [Resume(j - 1)];
    assert Exec(policy, run).counters.log == w.counters.log + [(sig, Rollback)];
    assert Exec(policy, run).open == map[];
    run := OneMoreEscalates(policy, run, sig, k);
  }

  /** The calls `first` up to `end` are suspended, all about `sig`, none having read an attempt. */
  ghost predicate Retrying(policy: Policy, run: seq<Step>, sig: Signature, k: nat, first: nat, end: nat, attempts: int) {
    && Reaches(policy, run, sig, k, attempts) && Logged(Exec(policy, run), sig, Rollback)
    && first <= end <= first + k
    && (forall c :: c in Exec(policy, run).open <==> first <= c < end)
    && (forall c :: c in Exec(policy, run).open ==>
          Exec(policy, run).open[c].sig == sig && Exec(policy, run).open[c].priorAttempts == 0)
  }

  /** Timeouts that have read no attempt are retried, whatever else has happened meanwhile. */
  lemma {:induction false} RetriesGoThrough(policy: Policy, before: seq<Step>, sig: Signature, k: nat,
                                            first: nat, end: nat, attempts: int) returns (run: seq<Step>)
    requires sig.category.Timeout? && policy.maxRepairAttempts >= 1
    requires Retrying(policy, before, sig, k, first, end, attempts)
    ensures Retrying(policy, run, sig, k, end, end, attempts + end - first)
    decreases end - first
  {
    run := before;
    if first < end {
      OneMore(policy, before, Resume(first), sig, k, first, end);
      run := before + [Resume(first)];
      run := RetriesGoThrough(policy, run, sig, k, first + 1, end, attempts + 1);
    }
  }

  /** While timeouts wait that have read no attempt, a call that has read one is rolled back. */
  lemma OneRollsBack(policy: Policy, before: seq<Step>, sig: Signature, k: nat) returns (run: seq<Step>)
    requires sig.category.Timeout? && policy.rollbackAfterRepeats <= policy.maxRepairAttempts
    requires 2 <= policy.maxRepairAttempts <= k && Reaches(policy, before, sig, k, 1)
    requires Waiting(Exec(policy, before), sig, 1, policy.maxRepairAttempts, 0)
    ensures Retrying(policy, run, sig, k, 1, policy.maxRepairAttempts, 1)
  {
    var max := policy.maxRepairAttempts;
    OneMore(policy, before, Arrive(max, sig), sig, k, 1, max + 1);
    run := before + [Arrive(max, sig)];
    var w := Exec(policy, run);
    assert w.open[max] == Pending(sig, 1, max + 1);
    OneMore(policy, run, Resume(max), sig, k, 1, max + 1);
    run := run + [Resume(max)];
    assert Exec(policy, run).counters.log == w.counters.log + [(sig, Rollback)];
  }

  /** Early threshold: as many timeouts at once as the maximum. One is resumed; the next call to
      arrive has read an attempt and is rolled back; the others are still retried. */
  lemma EarlyThresholdMixes(policy: Policy, sig: Signature, k: nat) returns (run: seq<Step>)
    requires Mixes(policy, sig.category, k) && policy.rollbackAfterRepeats <= policy.maxRepairAttempts
    ensures Mixed(policy, run, sig, k)
  {
    var max := policy.maxRepairAttempts;
    assert AllRepair(policy, sig.category, 0, 1);
    run := Drain(policy, sig, k, 0, max, 1);
    run := OneRollsBack(policy, run, sig, k);
    run := RetriesGoThrough(policy, run, sig, k, 1, max, 1);
    assert Exec(policy, run).open == map[];
    run := OneMoreEscalates(policy, run, sig, k);
  }

  /** With at most `k` overlapping calls about it, some run leads a signature to both a rollback
      and an escalation if and only if its category is not fixed mechanically and the thresholds
      and `k` are as `Mixes` says. */
  lemma BothHappenIff(policy: Policy, sig: Signature, k: nat)
    ensures (exists run :: Mixed(policy, run, sig, k)) <==> Mixes(policy, sig.category, k)
  {
    if Mixes(policy, sig.category, k) {
      var run;
      if policy.rollbackAfterRepeats > policy.maxRepairAttempts {
        run := LateThresholdMixes(policy, sig, k);
      } else {
        run := EarlyThresholdMixes(policy, sig, k);
      }
      assert Mixed(policy, run, sig, k);
    } else {
      NotMixing(policy, sig.category, k);
      forall run | ValidRun(policy, run) && AtMostOpen(policy, run, sig, k) ensures !Mixed(policy, run, sig, k) {
        if RollbackIsOut(policy, sig.category, k) {
          NeverRollsBack(policy, run, sig, k);
        } else {
          NeverEscalates(policy, run, sig, k);
        }
      }
    }
  }

  /** Under the default policy it takes at least three overlapping timeouts; nothing else is
      enough short of that. */
  lemma DefaultPolicyMixes(c: Category, k: nat)
    ensures Mixes(Policy(3, true, 3), c, k) <==> c.Timeout? && k >= 3
  {
  }

  /** The shortest such run: at one attempt and a threshold of two, two overlapping calls and one
      more. */
  lemma OverlapBreaksExclusion(policy: Policy, sig: Signature) returns (run: seq<Step>)
    requires !Fixable(sig.category) && !sig.category.Timeout?
    requires policy.maxRepairAttempts == 1 && policy.rollbackAfterRepeats == 2
    ensures ValidRun(policy, run) && Exec(policy, run).open == map[]
    ensures Exec(policy, run).counters.log == [(sig, LlmRepair), (sig, Rollback), (sig, Escalate)]
  {
    run := [];
    Extend(policy, run, Arrive(0, sig));
    run := run + [Arrive(0, sig)];
    Extend(policy, run, Arrive(1, sig));
    run := run + [Arrive(1, sig)];
    Extend(policy, run, Resume(0));
    run := run + [Resume(0)];
    Extend(policy, run, Resume(1));
    run := run + [Resume(1)];
    Extend(policy, run, Arrive(0, sig));
    run := run + [Arrive(0, sig)];
    Extend(policy, run, Resume(0));
    run := run + [Resume(0)];
  }
}
