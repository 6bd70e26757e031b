/** Complexity routing: affinity scores over reals, rounded and sorted. */
module Routing {
  import opened Base
  import opened Ordering
  import opened Provider
  import opened Registry

  datatype Complexity = Trivial | Simple | Moderate | Complex | Critical

  function Score(c: Complexity): real {
    match c
    case Trivial => 0.1
    case Simple => 0.3
    case Moderate => 0.5
    case Complex => 0.8
    case Critical => 1.0
  }

  datatype Request = Request(
    capability: Capability, taskType: string, estimatedTokens: int, priority: int, retryCount: int,
    hint: Option<Complexity>)

  datatype Policy = Policy(
    byTaskType: map<string, Complexity>, default: Complexity, priorityWeight: real, retryEscalation: real)

  const DEFAULT_POLICY := Policy(
    map["architecture" := Critical, "review" := Complex, "analysis" := Complex, "refactor" := Complex,
        "spec" := Complex, "codegen" := Moderate, "testing" := Simple, "extraction" := Trivial, "ingest" := Trivial],
    Moderate, 0.03, 0.15)

  function BaseComplexity(policy: Policy, taskType: string): Complexity {
    if Head(taskType) in policy.byTaskType then policy.byTaskType[Head(taskType)] else policy.default
  }

  function Clamp(value: real, low: real, high: real): real {
    var capped := if value < high then value else high;
    if capped > low then capped else low
  }

  function ComplexityScore(policy: Policy, r: Request): real {
    var base := Score(if r.hint.Some? then r.hint.value else BaseComplexity(policy, r.taskType));
    Clamp(Escalated(base, r.priority, r.retryCount, policy.priorityWeight, policy.retryEscalation), 0.0, 1.0)
  }

  function Escalated(base: real, priority: int, retries: int, priorityWeight: real, retryEscalation: real): real {
    base + priority as real * priorityWeight + retries as real * retryEscalation
  }

  lemma NonNegativeProduct(x: real, y: real)
    requires x >= 0.0 && y >= 0.0
    ensures x * y >= 0.0
  {
  }

  lemma ProductOrder(a: int, b: int, weight: real)
    requires a <= b && weight >= 0.0
    ensures a as real * weight <= b as real * weight
  {
    NonNegativeProduct((b - a) as real, weight);
    assert (b - a) as real == b as real - a as real;
  }

  lemma EscalatedOrder(base: real, a: int, b: int, x: int, y: int, p: real, q: real)
    requires a <= b && x <= y && p >= 0.0 && q >= 0.0
    ensures Escalated(base, a, x, p, q) <= Escalated(base, b, y, p, q)
  {
    ProductOrder(a, b, p);
    ProductOrder(x, y, q);
  }

  /** Priority and retries only ever escalate: more of either never lowers the complexity,
      which stays between 0 and 1. */
  lemma EscalationIsMonotone(policy: Policy, r: Request, morePriority: nat, moreRetries: nat)
    requires policy.priorityWeight >= 0.0 && policy.retryEscalation >= 0.0
    ensures var s := r.(priority := r.priority + morePriority, retryCount := r.retryCount + moreRetries);
            0.0 <= ComplexityScore(policy, r) <= ComplexityScore(policy, s) <= 1.0
  {
    var base := Score(if r.hint.Some? then r.hint.value else BaseComplexity(policy, r.taskType));
    EscalatedOrder(base, r.priority, r.priority + morePriority, r.retryCount, r.retryCount + moreRetries,
                   policy.priorityWeight, policy.retryEscalation);
  }

  // ---------------------------------------------------------------------------
  // Scores

  function MinCost(ps: seq<Profile>): (m: real)
    requires ps != []
    ensures forall p :: p in ps ==> m <= p.cost
    ensures exists p :: p in ps && p.cost == m
  {
    if |ps| == 1 then ps[0].cost
    else
      var m := MinCost(ps[1..]);
      assert ps == [ps[0]] + ps[1..];
      if ps[0].cost < m then ps[0].cost else m
  }

  function MaxCost(ps: seq<Profile>): (m: real)
    requires ps != []
    ensures forall p :: p in ps ==> p.cost <= m
    ensures exists p :: p in ps && p.cost == m
  {
    if |ps| == 1 then ps[0].cost
    else
      var m := MaxCost(ps[1..]);
      assert ps == [ps[0]] + ps[1..];
      if ps[0].cost > m then ps[0].cost else m
  }

  /** Where a cost lies between the cheapest and the dearest candidate. */
  function NormalizedCost(cost: real, lo: real, hi: real): real {
    if hi - lo == 0.0 then 0.5 else (cost - lo) / (hi - lo)
  }

  function Affinity(ncost: real, complexity: real): real {
    complexity * ncost + (1.0 - complexity) * (1.0 - ncost)
  }

  function RawScore(p: Profile, lo: real, hi: real, complexity: real): real {
    Affinity(NormalizedCost(p.cost, lo, hi), complexity) * p.weight
  }

  /** Rounding to six digits: monotone, at most half a unit off, and a whole number of units.
      Which way a midpoint goes is left open. */
  ghost predicate IsRounding(round: real -> real) {
    && (forall x, y :: x <= y ==> round(x) <= round(y))
    && (forall x :: x - 0.0000005 <= round(x) <= x + 0.0000005)
    && (forall x :: OnGrid(round(x)))
  }

  /** A number of `m` millionths. */
  function Millionths(m: int): real {
    m as real / 1_000_000.0
  }

  ghost predicate OnGrid(x: real) {
    exists m :: Millionths(m) == x
  }

  datatype Entry = Entry(name: string, score: real)

  /** Score descending, then name ascending. */
  predicate ByScore(a: Entry, b: Entry) {
    a.score > b.score || (a.score == b.score && NameLeq(a.name, b.name))
  }

  function Scored(ps: seq<Profile>, lo: real, hi: real, complexity: real, round: real -> real): seq<Entry> {
    seq(|ps|, i requires 0 <= i < |ps| => Entry(ps[i].name, round(RawScore(ps[i], lo, hi, complexity))))
  }

  function Ranking(ps: seq<Profile>, complexity: real, round: real -> real): seq<Entry>
    requires ps != []
  {
    Sort(ByScore, Scored(ps, MinCost(ps), MaxCost(ps), complexity, round))
  }

  /** Score the candidates one after another and sort the list. */
  method Rank(ps: seq<Profile>, complexity: real, round: real -> real) returns (ranked: seq<Entry>)
    requires ps != []
    ensures ranked == Ranking(ps, complexity, round)
  {
    var lo, hi := MinCost(ps), MaxCost(ps);
    ranked := [];
    for i := 0 to |ps|
      invariant ranked == Scored(ps, lo, hi, complexity, round)[..i]
    {
      ranked := ranked + [Entry(ps[i].name, round(RawScore(ps[i], lo, hi, complexity)))];
    }
    assert ranked == Scored(ps, lo, hi, complexity, round);
    ranked := Sort(ByScore, ranked);
  }

  lemma ScoreOrderIsTotal()
    ensures TotalPreorder(ByScore)
  {
    forall a, b ensures ByScore(a, b) || ByScore(b, a) {
      NameLeqTotal(a.name, b.name);
    }
    forall a, b, c | ByScore(a, b) && ByScore(b, c) ensures ByScore(a, c) {
      if a.score == b.score == c.score {
        NameLeqTrans(a.name, b.name, c.name);
      }
    }
  }

  /** The ranking is sorted and lists each candidate once, with its own rounded score. */
  lemma RankingIsSorted(ps: seq<Profile>, complexity: real, round: real -> real)
    requires ps != []
    ensures SortedBy(ByScore, Ranking(ps, complexity, round))
    ensures multiset(Ranking(ps, complexity, round))
            == multiset(Scored(ps, MinCost(ps), MaxCost(ps), complexity, round))
    ensures |Ranking(ps, complexity, round)| == |ps|
  {
    ScoreOrderIsTotal();
    var scored := Scored(ps, MinCost(ps), MaxCost(ps), complexity, round);
    SortIsSorted(ByScore, scored);
    assert |multiset(Sort(ByScore, scored))| == |multiset(scored)|;
  }

  function Without<T>(s: seq<T>, i: nat): (r: seq<T>)
    requires i < |s|
    ensures |r| == |s| - 1 && multiset(s) == multiset(r) + multiset{s[i]}
  {
    assert s == s[..i] + [s[i]] + s[i + 1..];
    s[..i] + s[i + 1..]
  }

  /** Taking one candidate out takes exactly its score out. */
  lemma ScoredWithout(ps: seq<Profile>, i: nat, lo: real, hi: real, complexity: real, round: real -> real)
    requires i < |ps|
    ensures Scored(Without(ps, i), lo, hi, complexity, round) == Without(Scored(ps, lo, hi, complexity, round), i)
  {
  }

  /** A candidate of `ps` found among `qs`. */
  lemma FindIn(ps: seq<Profile>, qs: seq<Profile>) returns (i: nat)
    requires ps != [] && multiset(ps) == multiset(qs)
    ensures i < |qs| && qs[i] == ps[0]
    ensures multiset(Without(ps, 0)) == multiset(Without(qs, i))
  {
    SameElements(ps, qs);
    assert ps[0] in ps;
    i :| 0 <= i < |qs| && qs[i] == ps[0];
    assert multiset(Without(ps, 0)) == multiset(ps) - multiset{ps[0]};
    assert multiset(Without(qs, i)) == multiset(qs) - multiset{ps[0]};
  }

  /** Scoring is element by element, so equal multisets of candidates give equal multisets of
      scores. */
  lemma {:induction false} ScoredIgnoresOrder(ps: seq<Profile>, qs: seq<Profile>, lo: real, hi: real,
                                              complexity: real, round: real -> real)
    requires multiset(ps) == multiset(qs)
    ensures multiset(Scored(ps, lo, hi, complexity, round)) == multiset(Scored(qs, lo, hi, complexity, round))
    decreases |ps|
  {
    SameElements(ps, qs);
    if ps != [] {
      var i := FindIn(ps, qs);
      ScoredWithout(ps, 0, lo, hi, complexity, round);
      ScoredWithout(qs, i, lo, hi, complexity, round);
      ScoredIgnoresOrder(Without(ps, 0), Without(qs, i), lo, hi, complexity, round);
    }
  }

  /** The ranking does not depend on the order of the candidates. */
  lemma RankingIgnoresOrder(ps: seq<Profile>, qs: seq<Profile>, complexity: real, round: real -> real)
    requires ps != [] && multiset(ps) == multiset(qs) && DistinctNames(ps)
    ensures qs != [] && Ranking(ps, complexity, round) == Ranking(qs, complexity, round)
  {
    assert ps[0] in multiset(qs);
    forall p ensures p in ps <==> p in qs {
      assert p in multiset(ps) <==> p in multiset(qs);
    }
    var lo, hi := MinCost(ps), MaxCost(ps);
    assert lo == MinCost(qs) && hi == MaxCost(qs);
    var s := Scored(ps, lo, hi, complexity, round);
    ScoredIgnoresOrder(ps, qs, lo, hi, complexity, round);
    ScoreOrderIsTotal();
    forall x, y | x in s && y in s && ByScore(x, y) && ByScore(y, x) ensures x == y {
      NameLeqTotal(x.name, y.name);
    }
    SortIgnoresOrder(ByScore, s, Scored(qs, lo, hi, complexity, round));
  }

  // ---------------------------------------------------------------------------
  // Cost against quality

  lemma AffinityForm(n: real, c: real)
    ensures Affinity(n, c) == (1.0 - c) + n * (2.0 * c - 1.0)
  {
  }

  lemma ScaleOrder(x: real, y: real, s: real)
    requires x <= y && s > 0.0
    ensures x * s <= y * s
  {
  }

  lemma QuotientOrder(a: real, b: real, s: real)
    requires a < b && s > 0.0
    ensures a / s < b / s
  {
    var x, y := a / s, b / s;
    if y <= x {
      ScaleOrder(y, x, s);
    }
  }

  lemma NormalizedCostOrder(a: real, b: real, lo: real, hi: real)
    requires lo <= a < b <= hi
    ensures 0.0 <= NormalizedCost(a, lo, hi) < NormalizedCost(b, lo, hi) <= 1.0
  {
    var span := hi - lo;
    QuotientOrder(a - lo, b - lo, span);
    if lo < a {
      QuotientOrder(0.0, a - lo, span);
    }
    if b < hi {
      QuotientOrder(b - lo, span, span);
    }
  }

  /** With equal weights the pricier provider has the higher score exactly on the quality
      side of one half (for a positive weight; the other side for a negative one). */
  lemma PricierScoresHigherIff(cheap: Profile, dear: Profile, lo: real, hi: real, c: real)
    requires lo <= cheap.cost < dear.cost <= hi && cheap.weight == dear.weight
    ensures RawScore(dear, lo, hi, c) > RawScore(cheap, lo, hi, c) <==> dear.weight * (2.0 * c - 1.0) > 0.0
  {
    NormalizedCostOrder(cheap.cost, dear.cost, lo, hi);
    var m, n, w, k := NormalizedCost(cheap.cost, lo, hi), NormalizedCost(dear.cost, lo, hi), dear.weight, 2.0 * c - 1.0;
    AffinityForm(m, c);
    AffinityForm(n, c);
    var gap := (n - m) * (w * k);
    assert RawScore(dear, lo, hi, c) - RawScore(cheap, lo, hi, c) == gap by {
      assert Affinity(n, c) - Affinity(m, c) == n * k - m * k == (n - m) * k;
      assert Affinity(n, c) * w - Affinity(m, c) * w == ((n - m) * k) * w == (n - m) * (k * w);
    }
    PositiveFactor(n - m, w * k);
  }

  lemma PositiveFactor(x: real, y: real)
    requires x > 0.0
    ensures x * y > 0.0 <==> y > 0.0
  {
  }

  /** For equal, non-negative weights: if the pricier provider outscores the cheaper one at
      some complexity, it scores at least as high at every higher complexity. */
  lemma PricierStaysAhead(cheap: Profile, dear: Profile, lo: real, hi: real, c: real, d: real, round: real -> real)
    requires lo <= cheap.cost < dear.cost <= hi && cheap.weight == dear.weight && dear.weight >= 0.0
    requires c <= d && IsRounding(round)
    requires round(RawScore(dear, lo, hi, c)) > round(RawScore(cheap, lo, hi, c))
    ensures round(RawScore(dear, lo, hi, d)) >= round(RawScore(cheap, lo, hi, d))
  {
    assert RawScore(dear, lo, hi, c) > RawScore(cheap, lo, hi, c);
    PricierScoresHigherIff(cheap, dear, lo, hi, c);
    PricierScoresHigherIff(cheap, dear, lo, hi, d);
    var w := dear.weight;
    assert w > 0.0;
    PositiveFactor(w, 2.0 * c - 1.0);
    PositiveFactor(w, 2.0 * d - 1.0);
  }

  // ---------------------------------------------------------------------------
  // Decisions

  datatype Decision = Decision(capability: Capability, complexity: real, ordered: seq<string>, scores: seq<Entry>,
                               contextFit: bool, qualityWeighted: bool)

  function Fitting(ps: seq<Profile>, tokens: int): (r: seq<Profile>)
    ensures forall p :: p in r <==> p in ps && p.contextWindow >= tokens
  {
    if ps == [] then []
    else (if ps[0].contextWindow >= tokens then [ps[0]] else []) + Fitting(ps[1..], tokens)
  }

  /** Only providers whose context window fits, unless none does. */
  function Candidates(catalog: seq<Profile>, r: Request): seq<Profile> {
    var supporting := ForCapability(catalog, r.capability);
    var fitting := Fitting(supporting, r.estimatedTokens);
    if fitting != [] then fitting else supporting
  }

  function Names(es: seq<Entry>): seq<string> {
    seq(|es|, i requires 0 <= i < |es| => es[i].name)
  }

  function Decide(policy: Policy, catalog: seq<Profile>, r: Request, round: real -> real): Decision {
    var c := ComplexityScore(policy, r);
    var candidates := Candidates(catalog, r);
    if candidates == [] then Decision(r.capability, c, [], [], false, c >= 0.5)
    else
      var scores := Ranking(candidates, c, round);
      Decision(r.capability, c, Names(scores), scores,
               Fitting(ForCapability(catalog, r.capability), r.estimatedTokens) != [], c >= 0.5)
  }

  /** A score listed for a candidate is its own rounded score among the candidates. */
  lemma ListedScore(ps: seq<Profile>, c: real, round: real -> real, p: Profile, e: Entry)
    requires ps != [] && DistinctNames(ps) && p in ps && e in Ranking(ps, c, round) && e.name == p.name
    ensures e.score == round(RawScore(p, MinCost(ps), MaxCost(ps), c))
  {
    RankingIsSorted(ps, c, round);
    var scored := Scored(ps, MinCost(ps), MaxCost(ps), c, round);
    assert e in multiset(Ranking(ps, c, round));
    assert e in scored;
    var i :| 0 <= i < |ps| && scored[i] == e;
    SameNameSameProfile(ps, p, ps[i]);
  }

  /** The decision is the same whatever order the providers were registered in. */
  lemma DecisionIgnoresRegistration(policy: Policy, catalog: seq<Profile>, other: seq<Profile>, r: Request, round: real -> real)
    requires DistinctNames(catalog) && multiset(catalog) == multiset(other)
    ensures Decide(policy, catalog, r, round) == Decide(policy, other, r, round)
  {
    FailoverOrder(catalog, other, r.capability);
  }

  lemma CandidatesAreSupporting(catalog: seq<Profile>, r: Request)
    requires DistinctNames(catalog)
    ensures DistinctNames(Candidates(catalog, r))
    ensures forall p :: p in Candidates(catalog, r) ==> p in catalog && r.capability in p.capabilities
    ensures (exists p :: p in catalog && r.capability in p.capabilities && p.contextWindow >= r.estimatedTokens) ==>
      forall p :: p in Candidates(catalog, r) <==>
                  p in catalog && r.capability in p.capabilities && p.contextWindow >= r.estimatedTokens
  {
    FailoverOrder(catalog, catalog, r.capability);
    var supporting := ForCapability(catalog, r.capability);
    SupportingIsDistinct(catalog, r.capability);
    FittingIsDistinct(supporting, r.estimatedTokens);
    if p :| p in catalog && r.capability in p.capabilities && p.contextWindow >= r.estimatedTokens {
      assert p in Fitting(supporting, r.estimatedTokens);
    }
  }

  lemma {:induction false} FittingIsDistinct(ps: seq<Profile>, tokens: int)
    requires DistinctNames(ps)
    ensures DistinctNames(Fitting(ps, tokens))
  {
    if ps != [] {
      FittingIsDistinct(ps[1..], tokens);
      var rest := Fitting(ps[1..], tokens);
      forall i | 0 <= i < |rest| ensures rest[i].name != ps[0].name {
        assert rest[i] in ps[1..];
      }
    }
  }

}
