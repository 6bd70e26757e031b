/** Overlapping calls of the self-healing runtime: each suspends between reading the attempts of
    its signature and recording its own, and other calls may run meanwhile. */
module HealingOverlap {
  import opened Base
  import opened Healing

  type CallId = nat

  /** What a suspended call has read. */
  datatype Pending = Pending(sig: Signature, priorAttempts: int, occurrences: int)

  datatype World = World(counters: State, open: map<CallId, Pending>)

  datatype Step = Arrive(c: CallId, sig: Signature) | Resume(c: CallId)

  const START := World(FRESH, map[])

  predicate Enabled(w: World, step: Step) {
    match step
    case Arrive(c, _) => c !in w.open
    case Resume(c) => c in w.open
  }

  function Read(s: State, sig: Signature): Pending {
    Pending(sig, Count(s.attempts, sig), Count(s.counts, sig) + 1)
  }

  function Apply(policy: Policy, w: World, step: Step): World
    requires Enabled(w, step)
  {
    match step
    case Arrive(c, sig) => World(Observe(w.counters, sig), w.open[c := Read(w.counters, sig)])
    case Resume(c) =>
      var p := w.open[c];
      World(Conclude(policy, w.counters, p.sig, p.priorAttempts, p.occurrences), w.open - {c})
  }

  ghost predicate ValidRun(policy: Policy, run: seq<Step>)
    decreases |run|, 0
  {
    run != [] ==>
      ValidRun(policy, run[..|run| - 1]) && Enabled(Exec(policy, run[..|run| - 1]), run[|run| - 1])
  }

  ghost function Exec(policy: Policy, run: seq<Step>): World
    requires ValidRun(policy, run)
    decreases |run|, 1
  {
    if run == [] then START else Apply(policy, Exec(policy, run[..|run| - 1]), run[|run| - 1])
  }

  lemma Extend(policy: Policy, run: seq<Step>, step: Step)
    requires ValidRun(policy, run) && Enabled(Exec(policy, run), step)
    ensures ValidRun(policy, run + [step]) && Exec(policy, run + [step]) == Apply(policy, Exec(policy, run), step)
  {
    assert (run + [step])[..|run|] == run;
  }

  // ---------------------------------------------------------------------------
  // What survives overlapping

  /** The suspended calls about `sig`. */
  function OpenOf(w: World, sig: Signature): set<CallId> {
    set c | c in w.open && w.open[c].sig == sig
  }

  /** The books of `sig` with `n` calls about it suspended. */
  predicate Accounted(w: World, sig: Signature, n: nat) {
    && Count(w.counters.counts, sig) == Count(w.counters.attempts, sig) + Surrenders(w.counters.log, sig) + n
    && Count(w.counters.attempts, sig) == Attempts(w.counters.log, sig)
  }

  lemma ConcludeIsAccounted(policy: Policy, w: World, p: Pending, sig: Signature, n: nat, after: World)
    requires Accounted(w, sig, n) && (p.sig == sig ==> n > 0)
    requires after.counters == Conclude(policy, w.counters, p.sig, p.priorAttempts, p.occurrences)
    ensures Accounted(after, sig, if p.sig == sig then n - 1 else n)
  {
    TallyAppend(w.counters.log, p.sig, Decide(policy, p.sig.category, p.priorAttempts, p.occurrences), sig);
  }

  /** However calls overlap, every failure of a signature is a repair attempt, a rollback, an
      escalation, or still suspended. */
  lemma {:induction false} OverlappingIsAccounted(policy: Policy, run: seq<Step>, sig: Signature)
    requires ValidRun(policy, run)
    ensures Accounted(Exec(policy, run), sig, |OpenOf(Exec(policy, run), sig)|)
  {
    if run == [] {
      assert OpenOf(START, sig) == {};
    } else {
      var w, last := Exec(policy, run[..|run| - 1]), run[|run| - 1];
      OverlappingIsAccounted(policy, run[..|run| - 1], sig);
      OpenAfter(policy, w, last, sig);
      if last.Resume? {
        assert last.c in OpenOf(w, sig) <==> w.open[last.c].sig == sig;
        ConcludeIsAccounted(policy, w, w.open[last.c], sig, |OpenOf(w, sig)|, Exec(policy, run));
      }
    }
  }

  lemma OpenAfter(policy: Policy, w: World, step: Step, sig: Signature)
    requires Enabled(w, step)
    ensures var open := OpenOf(Apply(policy, w, step), sig);
            match step
            case Arrive(c, of) => open == if of == sig then OpenOf(w, sig) + {c} else OpenOf(w, sig)
            case Resume(c) => open == OpenOf(w, sig) - {c}
    ensures step.Arrive? ==> step.c !in OpenOf(w, sig)
  {
  }

  // ---------------------------------------------------------------------------
  // One call at a time

  /** Calls never overlap. */
  ghost predicate OneAtATime(policy: Policy, run: seq<Step>)
    requires ValidRun(policy, run)
    decreases |run|
  {
    |Exec(policy, run).open| <= 1 && (run != [] ==> OneAtATime(policy, run[..|run| - 1]))
  }

  /** The failures whose calls have been resumed. */
  ghost function Handled(policy: Policy, run: seq<Step>): seq<Signature>
    requires ValidRun(policy, run)
    decreases |run|
  {
    if run == [] then []
    else
      var w, last := Exec(policy, run[..|run| - 1]), run[|run| - 1];
      Handled(policy, run[..|run| - 1]) + if last.Resume? then [w.open[last.c].sig] else []
  }

  /** What is reached from `before` by the one call that may be suspended. */
  ghost predicate Halfway(before: State, w: World) {
    if w.open == map[] then w.counters == before
    else forall c :: c in w.open ==>
      w.open[c] == Read(before, w.open[c].sig) && w.counters == Observe(before, w.open[c].sig)
  }

  lemma NoneLeft(open: map<CallId, Pending>, c: CallId)
    requires c in open && |open| <= 1
    ensures open - {c} == map[] && open.Keys == {c}
  {
    forall d | d in open ensures d == c {
      if d != c {
        assert {c, d} <= open.Keys;
        TwoIn(open.Keys, c, d);
      }
    }
  }

  lemma TwoIn(keys: set<CallId>, c: CallId, d: CallId)
    requires c in keys && d in keys && c != d
    ensures |keys| >= 2
  {
    assert keys == {c, d} + (keys - {c, d});
  }

  lemma ResumeHandles(policy: Policy, before: State, w: World, c: CallId)
    requires Halfway(before, w) && c in w.open && |w.open| <= 1
    ensures Apply(policy, w, Resume(c)) == World(Handle(policy, before, w.open[c].sig), map[])
  {
    NoneLeft(w.open, c);
  }

  lemma ArriveIsHalfway(policy: Policy, before: State, w: World, c: CallId, sig: Signature)
    requires Halfway(before, w) && c !in w.open && |Apply(policy, w, Arrive(c, sig)).open| <= 1
    ensures Halfway(before, Apply(policy, w, Arrive(c, sig)))
  {
    var open := Apply(policy, w, Arrive(c, sig)).open;
    NoneLeft(open, c);
    assert w.open == open - {c};
  }

  lemma HandleOneMore(policy: Policy, history: seq<Signature>, sig: Signature)
    ensures HandleAll(policy, history + [sig]) == Handle(policy, HandleAll(policy, history), sig)
  {
    assert (history + [sig])[..|history|] == history;
  }

  /** Calls that do not overlap are handled one after another, so the closed form is theirs. */
  lemma {:induction false} NotOverlappingIsSequential(policy: Policy, run: seq<Step>)
    requires ValidRun(policy, run) && OneAtATime(policy, run)
    ensures Halfway(HandleAll(policy, Handled(policy, run)), Exec(policy, run))
  {
    if run != [] {
      var before, last := run[..|run| - 1], run[|run| - 1];
      NotOverlappingIsSequential(policy, before);
      var w, h := Exec(policy, before), Handled(policy, before);
      match last
      case Resume(c) =>
        ResumeHandles(policy, HandleAll(policy, h), w, c);
        HandleOneMore(policy, h, w.open[c].sig);
      case Arrive(c, sig) =>
        assert Handled(policy, run) == h;
        ArriveIsHalfway(policy, HandleAll(policy, h), w, c, sig);
    }
  }

  // ---------------------------------------------------------------------------
  // The bound on repair attempts

  /** Never more than `k` suspended calls about `sig`. */
  ghost predicate AtMostOpen(policy: Policy, run: seq<Step>, sig: Signature, k: nat)
    requires ValidRun(policy, run)
    decreases |run|
  {
    |OpenOf(Exec(policy, run), sig)| <= k && (run != [] ==> AtMostOpen(policy, run[..|run| - 1], sig, k))
  }

  /** The suspended calls that will make a repair attempt. */
  function WillRepair(policy: Policy, w: World, sig: Signature): set<CallId> {
    set c | c in w.open && w.open[c].sig == sig
            && ConsumesAttempt(Decide(policy, sig.category, w.open[c].priorAttempts, w.open[c].occurrences))
  }

  /** The most repair attempts that up to `k` overlapping calls can make. */
  function OverlapLimit(p: Policy, c: Category, k: nat): nat {
    var most := p.maxRepairAttempts - 1 + k;
    if p.maxRepairAttempts <= 0 || k == 0 then 0
    else if Fixable(c) && p.deterministicFirst then most
    else if c.Timeout? then Min(most, Max(k, p.rollbackAfterRepeats - 1))
    else Min(most, Max(0, p.rollbackAfterRepeats - 1))
  }

  /** Without overlap it is the limit of the closed form. */
  lemma NoOverlapNoExcess(p: Policy, c: Category)
    ensures OverlapLimit(p, c, 1) == AttemptLimit(p, c)
  {
  }

  lemma SubsetSize<T>(a: set<T>, b: set<T>)
    requires a <= b
    ensures |a| <= |b|
  {
    assert b == a + (b - a);
  }

  lemma ResumeRepairs(policy: Policy, w: World, c: CallId, sig: Signature)
    requires c in w.open
    ensures var t := Apply(policy, w, Resume(c));
            && WillRepair(policy, t, sig) == WillRepair(policy, w, sig) - {c}
            && Count(t.counters.counts, sig) == Count(w.counters.counts, sig)
            && Count(t.counters.attempts, sig)
               == Count(w.counters.attempts, sig) + (if c in WillRepair(policy, w, sig) then 1 else 0)
  {
  }

  /** The call that arrives about `sig` would make a repair attempt. */
  predicate ArrivesToRepair(policy: Policy, w: World, sig: Signature) {
    ConsumesAttempt(Decide(policy, sig.category, Count(w.counters.attempts, sig), Count(w.counters.counts, sig) + 1))
  }

  lemma ArriveChanges(policy: Policy, w: World, c: CallId, of: Signature, sig: Signature)
    requires c !in w.open
    ensures var t := Apply(policy, w, Arrive(c, of));
            && Count(t.counters.attempts, sig) == Count(w.counters.attempts, sig)
            && Count(t.counters.counts, sig) == Count(w.counters.counts, sig) + (if of == sig then 1 else 0)
            && WillRepair(policy, t, sig) <= OpenOf(t, sig)
            && WillRepair(policy, t, sig)
               == WillRepair(policy, w, sig) + (if of == sig && ArrivesToRepair(policy, w, sig) then {c} else {})
            && c !in WillRepair(policy, w, sig)
  {
  }

  lemma ArriveRepairs(policy: Policy, w: World, c: CallId, of: Signature, sig: Signature, after: set<CallId>, open: set<CallId>)
    requires c !in w.open
    requires after == WillRepair(policy, Apply(policy, w, Arrive(c, of)), sig)
    requires open == OpenOf(Apply(policy, w, Arrive(c, of)), sig)
    ensures |after| == |WillRepair(policy, w, sig)| + (if of == sig && ArrivesToRepair(policy, w, sig) then 1 else 0)
    ensures |after| <= |open|
  {
    ArriveChanges(policy, w, c, of, sig);
    SubsetSize(after, open);
    AddOne(WillRepair(policy, w, sig), c);
    assert WillRepair(policy, w, sig) + {} == WillRepair(policy, w, sig);
  }

  lemma AddOne<T>(s: set<T>, x: T)
    requires x !in s
    ensures |s + {x}| == |s| + 1
  {
  }

  /** Attempts made and attempts under way, within what the failures so far and the limit allow. */
  predicate WithinLimit(policy: Policy, w: World, sig: Signature, k: nat) {
    var n := Count(w.counters.attempts, sig) + |WillRepair(policy, w, sig)|;
    0 <= Count(w.counters.attempts, sig) && n <= Count(w.counters.counts, sig) && n <= OverlapLimit(policy, sig.category, k)
  }

  /** An arriving call that will repair has read fewer attempts than the maximum, and unless it is
      a first timeout its failure is short of the rollback threshold. */
  lemma ArrivalFits(p: Policy, c: Category, attempts: int, pending: nat, failures: int, k: nat)
    requires 0 <= attempts && attempts + pending <= failures && pending + 1 <= k
    requires ConsumesAttempt(Decide(p, c, attempts, failures + 1))
    ensures attempts + pending + 1 <= OverlapLimit(p, c, k)
  {
  }

  lemma ArriveStaysWithin(policy: Policy, w: World, c: CallId, of: Signature, sig: Signature, k: nat)
    requires WithinLimit(policy, w, sig, k) && c !in w.open
    requires |OpenOf(Apply(policy, w, Arrive(c, of)), sig)| <= k
    ensures WithinLimit(policy, Apply(policy, w, Arrive(c, of)), sig, k)
  {
    var t := Apply(policy, w, Arrive(c, of));
    ArriveChanges(policy, w, c, of, sig);
    ArriveRepairs(policy, w, c, of, sig, WillRepair(policy, t, sig), OpenOf(t, sig));
    if of == sig && ArrivesToRepair(policy, w, sig) {
      ArrivalFits(policy, sig.category, Count(w.counters.attempts, sig), |WillRepair(policy, w, sig)|,
                  Count(w.counters.counts, sig), k);
    }
  }

  lemma ResumeStaysWithin(policy: Policy, w: World, c: CallId, sig: Signature, k: nat)
    requires WithinLimit(policy, w, sig, k) && c in w.open
    ensures WithinLimit(policy, Apply(policy, w, Resume(c)), sig, k)
  {
    ResumeRepairs(policy, w, c, sig);
  }

  /** With at most `k` calls about it overlapping a signature never gets more repair attempts than
      the limit, for all policy values and categories. */
  lemma {:induction false} OverlapBound(policy: Policy, run: seq<Step>, sig: Signature, k: nat)
    requires ValidRun(policy, run) && AtMostOpen(policy, run, sig, k)
    ensures WithinLimit(policy, Exec(policy, run), sig, k)
    ensures Count(Exec(policy, run).counters.attempts, sig) <= OverlapLimit(policy, sig.category, k)
  {
    if run == [] {
      assert WillRepair(policy, START, sig) == {};
    } else {
      var before, last := run[..|run| - 1], run[|run| - 1];
      OverlapBound(policy, before, sig, k);
      match last
      case Resume(c) => ResumeStaysWithin(policy, Exec(policy, before), c, sig, k);
      case Arrive(c, of) => ArriveStaysWithin(policy, Exec(policy, before), c, of, sig, k);
    }
  }

  // ---------------------------------------------------------------------------
  // The bound is attained

  /** The calls `first` up to `end` are suspended, all about `sig`: they arrived one after another
      when `n` failures had been handled with `n` attempts. */
  ghost predicate Waiting(w: World, sig: Signature, first: nat, end: nat, n: nat) {
    && (forall c :: c in w.open <==> first <= c < end)
    && (forall c :: c in w.open ==> w.open[c] == Pending(sig, n, n + 1 + c))
    && Count(w.counters.counts, sig) == n + end
  }

  /** An allowed run that leaves `attempts` repair attempts. */
  ghost predicate Reaches(policy: Policy, run: seq<Step>, sig: Signature, k: nat, attempts: int) {
    && ValidRun(policy, run) && AtMostOpen(policy, run, sig, k)
    && Count(Exec(policy, run).counters.attempts, sig) == attempts
  }

  /** `n` calls one after another and then `j` at once all make their repair attempt. */
  ghost predicate AllRepair(policy: Policy, c: Category, n: nat, j: nat) {
    && (forall i: nat :: i < n ==> Repairs(policy, c, i, 0))
    && (forall i: nat :: i < j ==> Repairs(policy, c, n, i))
  }

  /** A call that arrives after `n` failures with `n` attempts and `i` suspended calls repairs. */
  predicate Repairs(policy: Policy, c: Category, n: nat, i: nat) {
    ConsumesAttempt(Decide(policy, c, n, n + 1 + i))
  }

  lemma {:induction false} CallsBetween(keys: set<CallId>, first: nat, end: nat)
    requires forall c :: c in keys ==> first <= c < end
    ensures |keys| <= Max(0, end - first)
    decreases end
  {
    if first >= end {
      assert keys == {};
    } else {
      CallsBetween(keys - {end - 1}, first, end - 1);
      SubsetSize(keys, (keys - {end - 1}) + {end - 1});
    }
  }

  /** One more step that leaves at most `k` calls suspended. */
  lemma OneMore(policy: Policy, run: seq<Step>, step: Step, sig: Signature, k: nat, first: nat, end: nat)
    requires ValidRun(policy, run) && AtMostOpen(policy, run, sig, k) && Enabled(Exec(policy, run), step)
    requires first <= end <= first + k
    requires forall c :: c in Apply(policy, Exec(policy, run), step).open ==> first <= c < end
    ensures ValidRun(policy, run + [step]) && AtMostOpen(policy, run + [step], sig, k)
    ensures Exec(policy, run + [step]) == Apply(policy, Exec(policy, run), step)
  {
    Extend(policy, run, step);
    CallsBetween(OpenOf(Exec(policy, run + [step]), sig), first, end);
    assert (run + [step])[..|run|] == run;
  }

  /** Attempts made one call after another. */
  lemma {:induction false} Singly(policy: Policy, sig: Signature, k: nat, n: nat) returns (run: seq<Step>)
    requires AllRepair(policy, sig.category, n, 0) && k >= 1
    ensures Reaches(policy, run, sig, k, n) && Waiting(Exec(policy, run), sig, 0, 0, n)
  {
    run := [];
    if n == 0 {
      assert OpenOf(START, sig) == {};
    } else {
      run := Singly(policy, sig, k, n - 1);
      assert Repairs(policy, sig.category, n - 1, 0);
      OneMore(policy, run, Arrive(0, sig), sig, k, 0, 1);
      run := run + [Arrive(0, sig)];
      OneMore(policy, run, Resume(0), sig, k, 0, 0);
      run := run + [Resume(0)];
    }
  }

  /** `j` calls arrive before any of them is resumed. */
  lemma {:induction false} Crowd(policy: Policy, sig: Signature, k: nat, n: nat, j: nat) returns (run: seq<Step>)
    requires AllRepair(policy, sig.category, n, 0) && j <= k && k >= 1
    ensures Reaches(policy, run, sig, k, n) && Waiting(Exec(policy, run), sig, 0, j, n)
    decreases j
  {
    if j == 0 {
      run := Singly(policy, sig, k, n);
    } else {
      var before := Crowd(policy, sig, k, n, j - 1);
      OneMore(policy, before, Arrive(j - 1, sig), sig, k, 0, j);
      run := before + [Arrive(j - 1, sig)];
    }
  }

  /** The first `i` of `j` waiting calls are resumed: each makes its repair attempt. */
  lemma {:induction false} Drain(policy: Policy, sig: Signature, k: nat, n: nat, j: nat, i: nat) returns (run: seq<Step>)
    requires AllRepair(policy, sig.category, n, i) && i <= j <= k && k >= 1
    ensures Reaches(policy, run, sig, k, n + i) && Waiting(Exec(policy, run), sig, i, j, n)
    decreases i
  {
    if i == 0 {
      run := Crowd(policy, sig, k, n, j);
    } else {
      var before := Drain(policy, sig, k, n, j, i - 1);
      assert Repairs(policy, sig.category, n, i - 1);
      OneMore(policy, before, Resume(i - 1), sig, k, i, j);
      run := before + [Resume(i - 1)];
    }
  }

  /** How the limit is reached: so many calls one after another, the rest at once. */
  function Single(p: Policy, c: Category, k: nat): nat {
    if c.Timeout? && OverlapLimit(p, c, k) > p.rollbackAfterRepeats - 1 then 0
    else Max(0, Min(p.maxRepairAttempts, OverlapLimit(p, c, k)) - 1)
  }

  lemma PlanRepairs(p: Policy, c: Category, k: nat)
    requires OverlapLimit(p, c, k) > 0
    ensures var n, limit := Single(p, c, k), OverlapLimit(p, c, k);
            n < limit <= n + k && AllRepair(p, c, n, limit - n)
  {
  }

  /** The bound is exact: for all policy values and categories it is attained. */
  lemma OverlapBoundIsAttained(policy: Policy, sig: Signature, k: nat) returns (run: seq<Step>)
    ensures ValidRun(policy, run) && AtMostOpen(policy, run, sig, k)
    ensures Count(Exec(policy, run).counters.attempts, sig) == OverlapLimit(policy, sig.category, k)
  {
    var limit := OverlapLimit(policy, sig.category, k);
    if limit == 0 {
      run := [];
      assert OpenOf(START, sig) == {};
    } else {
      var n := Single(policy, sig.category, k);
      PlanRepairs(policy, sig.category, k);
      run := Drain(policy, sig, k, n, limit - n, limit - n);
    }
  }

  /** So the documented maximum holds in all runs with at most `k` overlapping calls if and only
      if calls do not overlap, or the category is not fixed mechanically and the rollback threshold
      stops repairs first; for timeouts, which are retried whatever the threshold when no attempt
      has been recorded, no more than the maximum may overlap either. */
  lemma MaximumHoldsIff(policy: Policy, sig: Signature, k: nat)
    requires policy.maxRepairAttempts >= 1
    ensures (forall run :: ValidRun(policy, run) && AtMostOpen(policy, run, sig, k) ==>
               Count(Exec(policy, run).counters.attempts, sig) <= policy.maxRepairAttempts)
            <==>
            || k <= 1
            || (!(Fixable(sig.category) && policy.deterministicFirst)
                && policy.rollbackAfterRepeats - 1 <= policy.maxRepairAttempts
                && (sig.category.Timeout? ==> k <= policy.maxRepairAttempts))
  {
    if OverlapLimit(policy, sig.category, k) <= policy.maxRepairAttempts {
      forall run | ValidRun(policy, run) && AtMostOpen(policy, run, sig, k)
        ensures Count(Exec(policy, run).counters.attempts, sig) <= policy.maxRepairAttempts
      {
        OverlapBound(policy, run, sig, k);
      }
    } else {
      var run := OverlapBoundIsAttained(policy, sig, k);
    }
  }
}
