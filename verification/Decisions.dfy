/** A routing decision, read off the request and the profiles of the catalogue. */
module Decisions {
  import opened Base
  import opened Ordering
  import opened Provider
  import opened Registry
  import opened Routing
  import opened Ranks

  // ---------------------------------------------------------------------------
  // Complexity

  /** What a head stands for by default. */
  function HeadScore(head: string): real {
    if head == "architecture" then 1.0
    else if head == "review" || head == "analysis" || head == "refactor" || head == "spec" then 0.8
    else if head == "testing" then 0.3
    else if head == "extraction" || head == "ingest" then 0.1
    else 0.5
  }

  /** The hint if there is one, otherwise the task type's head. */
  function BaseScore(r: Request): real {
    match r.hint
    case Some(Trivial) => 0.1
    case Some(Simple) => 0.3
    case Some(Moderate) => 0.5
    case Some(Complex) => 0.8
    case Some(Critical) => 1.0
    case None => HeadScore(Head(r.taskType))
  }

  lemma TableIs(table: map<string, Complexity>, head: string)
    requires table == DEFAULT_POLICY.byTaskType
    ensures Score(if head in table then table[head] else Moderate) == HeadScore(head)
  {
  }

  lemma ClampIs(x: real)
    ensures Clamp(x, 0.0, 1.0) == if x <= 0.0 then 0.0 else if x >= 1.0 then 1.0 else x
  {
  }

  /** Under the default policy every point of priority adds 0.03 and every retry 0.15, between 0
      and 1. */
  lemma DefaultComplexityIs(r: Request)
    ensures var x := BaseScore(r) + 0.03 * r.priority as real + 0.15 * r.retryCount as real;
            ComplexityScore(DEFAULT_POLICY, r) == if x <= 0.0 then 0.0 else if x >= 1.0 then 1.0 else x
  {
    TableIs(DEFAULT_POLICY.byTaskType, Head(r.taskType));
    ClampIs(Escalated(BaseScore(r), r.priority, r.retryCount, 0.03, 0.15));
  }

  // ---------------------------------------------------------------------------
  // Who is considered

  predicate CanServe(p: Profile, r: Request) {
    r.capability in p.capabilities
  }

  predicate Fits(p: Profile, r: Request) {
    p.contextWindow >= r.estimatedTokens
  }

  /** Providers with the capability, and of these only those whose context window is large enough
      unless none is. */
  predicate Considered(catalog: seq<Profile>, r: Request, p: Profile) {
    && p in catalog && CanServe(p, r)
    && (Fits(p, r) || forall q :: q in catalog && CanServe(q, r) ==> !Fits(q, r))
  }

  lemma CandidatesAreConsidered(catalog: seq<Profile>, r: Request)
    requires DistinctNames(catalog)
    ensures DistinctNames(Candidates(catalog, r))
    ensures forall p :: p in Candidates(catalog, r) <==> Considered(catalog, r, p)
  {
    CandidatesAreSupporting(catalog, r);
    FailoverOrder(catalog, catalog, r.capability);
    var supporting := ForCapability(catalog, r.capability);
    var fitting := Fitting(supporting, r.estimatedTokens);
    if fitting == [] {
      forall q | q in catalog && CanServe(q, r) ensures !Fits(q, r) {
        assert q in supporting && q !in fitting;
      }
    } else {
      assert fitting[0] in fitting;
    }
  }

  // ---------------------------------------------------------------------------
  // Scores

  /** The weight times a mixture of how dear and how cheap the provider is among the considered
      ones, whose costs lie between `lo` and `hi`: at complexity 1 only dearness counts, at 0 only
      cheapness. */
  function MixedScore(p: Profile, lo: real, hi: real, c: real): real {
    if lo == hi then p.weight * 0.5
    else p.weight * (((p.cost - lo) * c + (hi - p.cost) * (1.0 - c)) / (hi - lo))
  }

  lemma RawIsMixed(p: Profile, lo: real, hi: real, c: real)
    ensures RawScore(p, lo, hi, c) == MixedScore(p, lo, hi, c)
  {
    if lo != hi {
      var span, n := hi - lo, (p.cost - lo) / (hi - lo);
      assert n * span == p.cost - lo;
      var a := Affinity(n, c);
      MixtureOf(n, c, span, p.cost - lo);
      assert a == ((p.cost - lo) * c + (hi - p.cost) * (1.0 - c)) / span;
    }
  }

  lemma MixtureOf(n: real, c: real, span: real, share: real)
    requires n * span == share
    ensures Affinity(n, c) * span == share * c + (span - share) * (1.0 - c)
  {
    assert (c * n) * span == c * (n * span);
    assert ((1.0 - c) * (1.0 - n)) * span == (1.0 - c) * (span - n * span);
  }

  /** `lo` and `hi` are the least and the greatest cost of those considered. */
  ghost predicate Spans(catalog: seq<Profile>, r: Request, lo: real, hi: real) {
    && (forall p :: Considered(catalog, r, p) ==> lo <= p.cost <= hi)
    && (exists p :: Considered(catalog, r, p) && p.cost == lo)
    && (exists p :: Considered(catalog, r, p) && p.cost == hi)
  }

  lemma SpanIs(catalog: seq<Profile>, r: Request, lo: real, hi: real)
    requires DistinctNames(catalog) && Spans(catalog, r, lo, hi)
    ensures var ps := Candidates(catalog, r); ps != [] && MinCost(ps) == lo && MaxCost(ps) == hi
  {
    CandidatesAreConsidered(catalog, r);
  }

  // ---------------------------------------------------------------------------
  // The decision

  function EntryOf(p: Profile, lo: real, hi: real, c: real, round: real -> real): Entry {
    Entry(p.name, round(MixedScore(p, lo, hi, c)))
  }

  /** The list has each considered provider once, with its rounded score, higher scores first and
      smaller names first among equals. */
  ghost predicate ListsConsidered(catalog: seq<Profile>, r: Request, round: real -> real, lo: real, hi: real, c: real,
                                  scores: seq<Entry>)
  {
    && (forall p :: Considered(catalog, r, p) ==> EntryOf(p, lo, hi, c, round) in scores)
    && (forall e :: e in scores ==> exists p :: Considered(catalog, r, p) && e == EntryOf(p, lo, hi, c, round))
    && (forall i, j :: 0 <= i < j < |scores| ==>
          scores[i].score > scores[j].score
          || (scores[i].score == scores[j].score && scores[i].name != scores[j].name && NameLeq(scores[i].name, scores[j].name)))
    && (forall i, j :: 0 <= i < j < |scores| ==> scores[i].name != scores[j].name)
  }

  lemma EntriesAreConsidered(catalog: seq<Profile>, r: Request, round: real -> real, lo: real, hi: real, c: real,
                             ps: seq<Profile>)
    requires ps != [] && MinCost(ps) == lo && MaxCost(ps) == hi && forall p :: p in ps <==> Considered(catalog, r, p)
    ensures forall p :: Considered(catalog, r, p) ==> EntryOf(p, lo, hi, c, round) in Ranking(ps, c, round)
    ensures forall e :: e in Ranking(ps, c, round) ==> exists p :: Considered(catalog, r, p) && e == EntryOf(p, lo, hi, c, round)
  {
    var scores := Ranking(ps, c, round);
    forall p | Considered(catalog, r, p) ensures EntryOf(p, lo, hi, c, round) in scores {
      var i := Place(ps, c, round, p);
      RawIsMixed(p, lo, hi, c);
    }
    forall e | e in scores ensures exists p :: Considered(catalog, r, p) && e == EntryOf(p, lo, hi, c, round) {
      var i :| 0 <= i < |scores| && scores[i] == e;
      var p := Holder(ps, c, round, i);
      RawIsMixed(p, lo, hi, c);
    }
  }

  lemma RankingLists(catalog: seq<Profile>, r: Request, round: real -> real, lo: real, hi: real, c: real)
    requires DistinctNames(catalog) && Spans(catalog, r, lo, hi) && Candidates(catalog, r) != []
    ensures ListsConsidered(catalog, r, round, lo, hi, c, Ranking(Candidates(catalog, r), c, round))
  {
    var ps := Candidates(catalog, r);
    CandidatesAreConsidered(catalog, r);
    SpanIs(catalog, r, lo, hi);
    EntriesAreConsidered(catalog, r, round, lo, hi, c, ps);
    RankingIsSorted(ps, c, round);
    RankedNames(ps, c, round);
  }

  /** The two shapes of a decision. */
  lemma DecideOn(policy: Policy, catalog: seq<Profile>, r: Request, round: real -> real, ps: seq<Profile>, c: real, fit: bool)
    requires ps == Candidates(catalog, r) && c == ComplexityScore(policy, r)
    requires fit == (Fitting(ForCapability(catalog, r.capability), r.estimatedTokens) != [])
    ensures Decide(policy, catalog, r, round)
            == if ps == [] then Decision(r.capability, c, [], [], false, c >= 0.5)
               else Decision(r.capability, c, Names(Ranking(ps, c, round)), Ranking(ps, c, round), fit, c >= 0.5)
  {
  }

  /** The whole decision: with nobody to consider it is empty; otherwise it lists those considered
      by their scores. It says whether some of them fit the context, and whether the complexity
      weights quality. */
  lemma DecisionIs(policy: Policy, catalog: seq<Profile>, r: Request, round: real -> real, lo: real, hi: real)
    requires DistinctNames(catalog)
    requires (exists p :: Considered(catalog, r, p)) ==> Spans(catalog, r, lo, hi)
    ensures var d, c := Decide(policy, catalog, r, round), ComplexityScore(policy, r);
            && d.capability == r.capability && d.complexity == c && (d.qualityWeighted <==> c >= 0.5)
            && (d.contextFit <==> exists p :: Considered(catalog, r, p) && Fits(p, r))
            && |d.ordered| == |d.scores| && (forall i :: 0 <= i < |d.scores| ==> d.ordered[i] == d.scores[i].name)
            && ListsConsidered(catalog, r, round, lo, hi, c, d.scores)
  {
    var ps, c := Candidates(catalog, r), ComplexityScore(policy, r);
    CandidatesAreConsidered(catalog, r);
    ContextFitIff(catalog, r);
    DecideOn(policy, catalog, r, round, ps, c, Fitting(ForCapability(catalog, r.capability), r.estimatedTokens) != []);
    DecisionTells(catalog, r, round, lo, hi, c, ps, Decide(policy, catalog, r, round));
  }

  lemma DecisionTells(catalog: seq<Profile>, r: Request, round: real -> real, lo: real, hi: real, c: real,
                      ps: seq<Profile>, d: Decision)
    requires DistinctNames(catalog) && ps == Candidates(catalog, r)
    requires forall p :: p in ps <==> Considered(catalog, r, p)
    requires (exists p :: Considered(catalog, r, p)) ==> Spans(catalog, r, lo, hi)
    requires if ps == [] then d.ordered == [] && d.scores == []
             else d.scores == Ranking(ps, c, round) && d.ordered == Names(Ranking(ps, c, round))
    ensures |d.ordered| == |d.scores| && (forall i :: 0 <= i < |d.scores| ==> d.ordered[i] == d.scores[i].name)
    ensures ListsConsidered(catalog, r, round, lo, hi, c, d.scores)
  {
    if ps != [] {
      assert ps[0] in ps;
      RankingLists(catalog, r, round, lo, hi, c);
    }
  }

  lemma ContextFitIff(catalog: seq<Profile>, r: Request)
    requires DistinctNames(catalog)
    ensures Fitting(ForCapability(catalog, r.capability), r.estimatedTokens) != []
            <==> exists p :: Considered(catalog, r, p) && Fits(p, r)
  {
    FailoverOrder(catalog, catalog, r.capability);
    var fitting := Fitting(ForCapability(catalog, r.capability), r.estimatedTokens);
    if fitting != [] {
      assert fitting[0] in fitting && Considered(catalog, r, fitting[0]);
    }
    if p :| Considered(catalog, r, p) && Fits(p, r) {
      assert p in fitting;
    }
  }
}
