/** "The local model is the last resort": when a zero-cost model of weight 0.1 is sorted after
    the paid vendors, and when it is not. */
module LastResort {
  import opened Base
  import opened Ordering
  import opened Provider
  import opened Registry
  import opened Routing
  import opened Ranks

  predicate IsLocal(p: Profile) {
    p.cost == 0.0 && p.weight == 0.1
  }

  predicate IsPaid(p: Profile) {
    p.cost > 0.0 && p.weight == 1.0
  }

  predicate CostsAreNonNegative(ps: seq<Profile>) {
    forall p :: p in ps ==> p.cost >= 0.0
  }

  /** The two scores, in terms of where the paid provider's cost lies among the candidates. */
  lemma ScoresOf(ps: seq<Profile>, local: Profile, paid: Profile, c: real) returns (n: real)
    requires local in ps && paid in ps && IsLocal(local) && IsPaid(paid) && CostsAreNonNegative(ps)
    ensures 0.0 < n <= 1.0 && n == paid.cost / MaxCost(ps)
    ensures RawScore(local, MinCost(ps), MaxCost(ps), c) == 0.1 * (1.0 - c)
    ensures RawScore(paid, MinCost(ps), MaxCost(ps), c) == Affinity(n, c)
  {
    var lo, hi := MinCost(ps), MaxCost(ps);
    assert lo == 0.0 && paid.cost <= hi;
    NormalizedCostOrder(0.0, paid.cost, lo, hi);
    n := NormalizedCost(paid.cost, lo, hi);
    AffinityForm(0.0, c);
  }

  /** No candidate's affinity falls below the smaller of `c` and `1 - c`. */
  lemma AffinityFloor(n: real, c: real)
    requires 0.0 <= n <= 1.0 && 0.0 <= c <= 1.0
    ensures Affinity(n, c) >= c || Affinity(n, c) >= 1.0 - c
  {
    AffinityForm(n, c);
    if 2.0 * c >= 1.0 {
      NonNegativeProduct(n, 2.0 * c - 1.0);
    } else {
      NonNegativeProduct(1.0 - n, 1.0 - 2.0 * c);
    }
  }

  lemma LocalBelowPaid(ps: seq<Profile>, local: Profile, paid: Profile, c: real)
    requires local in ps && paid in ps && IsLocal(local) && IsPaid(paid) && CostsAreNonNegative(ps)
    requires 1.0 / 11.0 <= c <= 1.0
    ensures RawScore(local, MinCost(ps), MaxCost(ps), c) <= RawScore(paid, MinCost(ps), MaxCost(ps), c)
  {
    var n := ScoresOf(ps, local, paid, c);
    AffinityFloor(n, c);
  }

  function Hundredths(c: Complexity): int {
    match c
    case Trivial => 10
    case Simple => 30
    case Moderate => 50
    case Complex => 80
    case Critical => 100
  }

  /** Default-policy complexity is a whole number of hundredths, for every request that does not
      de-escalate: above the threshold, and either 1 or clear of it. */
  lemma DefaultComplexity(r: Request)
    requires r.priority >= 0 && r.retryCount >= 0
    ensures ComplexityScore(DEFAULT_POLICY, r) == 1.0 || 0.1 <= ComplexityScore(DEFAULT_POLICY, r) <= 0.99
  {
    var base := if r.hint.Some? then r.hint.value else BaseComplexity(DEFAULT_POLICY, r.taskType);
    var h := Hundredths(base) + 3 * r.priority + 15 * r.retryCount;
    assert Escalated(Score(base), r.priority, r.retryCount, 0.03, 0.15) == h as real / 100.0;
    assert h >= 10 && (h >= 100 || h <= 99);
  }

  /** The threshold is sharp: the zero-cost, weight-0.1 model can outscore a paid provider of
      weight 1 exactly at complexities below 1/11. */
  lemma LastResortIff(c: real)
    requires 0.0 <= c <= 1.0
    ensures (forall ps: seq<Profile>, local, paid ::
               local in ps && paid in ps && IsLocal(local) && IsPaid(paid) && CostsAreNonNegative(ps) ==>
               RawScore(local, MinCost(ps), MaxCost(ps), c) <= RawScore(paid, MinCost(ps), MaxCost(ps), c))
            <==> c >= 1.0 / 11.0
  {
    if c >= 1.0 / 11.0 {
      forall ps: seq<Profile>, local, paid |
        local in ps && paid in ps && IsLocal(local) && IsPaid(paid) && CostsAreNonNegative(ps)
        ensures RawScore(local, MinCost(ps), MaxCost(ps), c) <= RawScore(paid, MinCost(ps), MaxCost(ps), c)
      {
        LocalBelowPaid(ps, local, paid, c);
      }
    } else {
      var local := Profile("local", {}, 0.0, 0, 0.1, 3, 60_000_000, 1_800_000_000, None);
      var paid := Profile("paid", {}, 1.0, 0, 1.0, 3, 60_000_000, 1_800_000_000, None);
      var ps := [local, paid];
      assert local in ps && paid in ps;
      assert MinCost(ps) == 0.0 && MaxCost(ps) == 1.0;
      AffinityForm(0.0, c);
      AffinityForm(1.0, c);
      assert RawScore(local, 0.0, 1.0, c) > RawScore(paid, 0.0, 1.0, c);
    }
  }

  // ---------------------------------------------------------------------------
  // Listed scores

  lemma Nearest(round: real -> real, x: real) returns (m: int)
    requires IsRounding(round)
    ensures round(x) == Millionths(m) && x - 0.0000005 <= Millionths(m) <= x + 0.0000005
  {
    assert OnGrid(round(x));
    m :| Millionths(m) == round(x);
  }

  lemma MillionthsOrder(m: int, n: int)
    ensures m <= n <==> Millionths(m) <= Millionths(n)
  {
  }

  /** Nothing rounded lies strictly between two neighbouring millionths. */
  lemma RoundedSteps(round: real -> real, x: real, n: int)
    requires IsRounding(round)
    ensures x < Millionths(n) + 0.0000005 ==> round(x) <= Millionths(n)
    ensures x > Millionths(n) - 0.0000005 ==> round(x) >= Millionths(n)
  {
    var m := Nearest(round, x);
    MillionthsOrder(m, n);
    if m > n {
      MillionthsOrder(n + 1, m);
    } else if m < n {
      MillionthsOrder(m, n - 1);
    }
  }

  /** The nearest number of millionths, midpoints going down. */
  function HalfDownUnits(x: real): int {
    -(0.5 - x * 1_000_000.0).Floor
  }

  function HalfDown(x: real): real {
    Millionths(HalfDownUnits(x))
  }

  lemma HalfDownIsNearest(x: real)
    ensures x - 0.0000005 <= HalfDown(x) < x + 0.0000005
  {
    var m, z := HalfDownUnits(x), 0.5 - x * 1_000_000.0;
    assert z - 1.0 < z.Floor as real <= z;
    assert x * 1_000_000.0 - 0.5 <= m as real < x * 1_000_000.0 + 0.5;
  }

  lemma HalfDownRounds()
    ensures IsRounding(HalfDown)
  {
    forall x, y | x <= y ensures HalfDown(x) <= HalfDown(y) {
      MillionthsOrder(HalfDownUnits(x), HalfDownUnits(y));
    }
    forall x ensures x - 0.0000005 <= HalfDown(x) <= x + 0.0000005 {
      HalfDownIsNearest(x);
    }
  }

  /** From just below 1/11 upwards the local model is never listed above a paid provider. */
  lemma LocalNotAbovePaid(ps: seq<Profile>, local: Profile, paid: Profile, c: real, round: real -> real)
    requires local in ps && paid in ps && IsLocal(local) && IsPaid(paid) && CostsAreNonNegative(ps)
    requires 0.0909085 < c <= 1.0 && IsRounding(round)
    ensures round(RawScore(local, MinCost(ps), MaxCost(ps), c)) <= round(RawScore(paid, MinCost(ps), MaxCost(ps), c))
  {
    if c >= 1.0 / 11.0 {
      LocalBelowPaid(ps, local, paid, c);
    } else {
      var n := ScoresOf(ps, local, paid, c);
      AffinityFloor(n, c);
      var x, y := 0.1 * (1.0 - c), Affinity(n, c);
      assert Millionths(90909) == 0.090909;
      assert x < 0.0909095 && y > 0.0909085;
      RoundedSteps(round, x, 90909);
      RoundedSteps(round, y, 90909);
    }
  }

  /** For the scores as listed, rounded to six digits, the threshold is half a unit lower than
      for the exact ones: 0.0909085. */
  lemma ListedLastResortIff(c: real)
    requires 0.0 <= c <= 1.0
    ensures (forall ps: seq<Profile>, local, paid, round ::
               local in ps && paid in ps && IsLocal(local) && IsPaid(paid) && CostsAreNonNegative(ps) && IsRounding(round) ==>
               round(RawScore(local, MinCost(ps), MaxCost(ps), c)) <= round(RawScore(paid, MinCost(ps), MaxCost(ps), c)))
            <==> c > 0.0909085
  {
    if c > 0.0909085 {
      forall ps: seq<Profile>, local, paid, round |
        local in ps && paid in ps && IsLocal(local) && IsPaid(paid) && CostsAreNonNegative(ps) && IsRounding(round)
        ensures round(RawScore(local, MinCost(ps), MaxCost(ps), c)) <= round(RawScore(paid, MinCost(ps), MaxCost(ps), c))
      {
        LocalNotAbovePaid(ps, local, paid, c, round);
      }
    } else {
      var ps := [Vendor("local", 0.0, 0.1), Vendor("paid", 1.0, 1.0)];
      assert MinCost(ps) == 0.0 && MaxCost(ps) == 1.0;
      AffinityForm(0.0, c);
      AffinityForm(1.0, c);
      HalfDownRounds();
      var x, y := RawScore(ps[0], 0.0, 1.0, c), RawScore(ps[1], 0.0, 1.0, c);
      assert Millionths(90909) == 0.090909 && y == c;
      RoundedSteps(HalfDown, x, 90909);
      HalfDownIsNearest(y);
      assert ps[0] in ps && ps[1] in ps && IsLocal(ps[0]) && IsPaid(ps[1]) && CostsAreNonNegative(ps);
      assert HalfDown(x) > HalfDown(y);
    }
  }

  // ---------------------------------------------------------------------------
  // Positions in the order

  /** The provider's cost, as a share of the dearest candidate's, rounds to nothing. */
  predicate Negligible(ps: seq<Profile>, p: Profile, round: real -> real)
    requires ps != []
  {
    MaxCost(ps) > 0.0 && round(p.cost / MaxCost(ps)) == 0.0
  }

  /** At complexities up to 0.99 a paid provider scores a whole millionth above the local model. */
  lemma GapIsWide(n: real, c: real)
    requires 0.0 < n <= 1.0 && 0.1 <= c <= 0.99
    ensures Affinity(n, c) > 0.1 * (1.0 - c) + 0.000001
  {
    // linear in n, so between its values at 0 and at 1
    AffinityForm(n, c);
    var low, high := 0.9 * (1.0 - c) - 0.000001, 1.1 * c - 0.1 - 0.000001;
    assert Affinity(n, c) - 0.1 * (1.0 - c) - 0.000001 == (1.0 - n) * low + n * high by {
      Mixture(n, c);
    }
    PositiveSum(n, high, 1.0 - n, low);
  }

  lemma Mixture(n: real, c: real)
    ensures (1.0 - c) + n * (2.0 * c - 1.0) - 0.1 * (1.0 - c) - 0.000001
            == (1.0 - n) * (0.9 * (1.0 - c) - 0.000001) + n * (1.1 * c - 0.1 - 0.000001)
  {
  }

  lemma PositiveSum(x: real, low: real, y: real, high: real)
    requires x > 0.0 && low > 0.0 && y >= 0.0 && high >= 0.0
    ensures x * low + y * high > 0.0
  {
    PositiveFactor(x, low);
    NonNegativeProduct(y, high);
  }

  /** At the highest complexity the listed scores are nothing and the rounded share of the cost. */
  lemma HighestScores(round: real -> real, n: real)
    requires IsRounding(round)
    ensures round(0.1 * (1.0 - 1.0)) == 0.0 && round(Affinity(n, 1.0)) == round(n)
  {
    AffinityForm(n, 1.0);
    assert Millionths(0) == 0.0;
    RoundedSteps(round, 0.0, 0);
  }

  /** When the local model and a paid provider are listed with the same score. */
  lemma SameScoreIff(ps: seq<Profile>, local: Profile, paid: Profile, c: real, round: real -> real)
    requires local in ps && paid in ps && IsLocal(local) && IsPaid(paid) && CostsAreNonNegative(ps)
    requires (c == 1.0 || 0.1 <= c <= 0.99) && IsRounding(round)
    ensures Listed(ps, c, round, paid) == Listed(ps, c, round, local) <==> c == 1.0 && Negligible(ps, paid, round)
  {
    var n := ScoresOf(ps, local, paid, c);
    if c == 1.0 {
      HighestScores(round, n);
    } else {
      GapIsWide(n, c);
      var x, y := 0.1 * (1.0 - c), Affinity(n, c);
      assert round(x) <= x + 0.0000005 && y - 0.0000005 <= round(y);
    }
  }

  /** Under the default policy, for every request with non-negative priority and retries, the
      local model comes before a paid provider only at the highest complexity, when the
      provider's cost is negligible and the local model's name is the smaller one; they are then
      listed with the same score. */
  lemma LocalBeforePaidIff(catalog: seq<Profile>, r: Request, round: real -> real, local: Profile, paid: Profile, i: nat, j: nat)
    requires DistinctNames(catalog) && CostsAreNonNegative(catalog) && IsRounding(round)
    requires r.priority >= 0 && r.retryCount >= 0
    requires local in Candidates(catalog, r) && paid in Candidates(catalog, r) && IsLocal(local) && IsPaid(paid)
    requires var ordered := Decide(DEFAULT_POLICY, catalog, r, round).ordered;
             i < |ordered| && j < |ordered| && ordered[i] == local.name && ordered[j] == paid.name
    ensures i < j <==>
            ComplexityScore(DEFAULT_POLICY, r) == 1.0 && Negligible(Candidates(catalog, r), paid, round)
            && NameLeq(local.name, paid.name)
    ensures var scores := Decide(DEFAULT_POLICY, catalog, r, round).scores;
            |scores| == |Decide(DEFAULT_POLICY, catalog, r, round).ordered|
            && (i < j <==> scores[i].score == scores[j].score && NameLeq(local.name, paid.name))
  {
    var ps, c := Candidates(catalog, r), ComplexityScore(DEFAULT_POLICY, r);
    CandidatesAreSupporting(catalog, r);
    DefaultComplexity(r);
    LocalNotAbovePaid(ps, local, paid, c, round);
    SameScoreIff(ps, local, paid, c, round);
    OtherName(ps, local, paid);
    BeforeIff(ps, c, round, local, paid, i, j);
    ListedScore(ps, c, round, local, Ranking(ps, c, round)[i]);
    ListedScore(ps, c, round, paid, Ranking(ps, c, round)[j]);
  }

  /** Some other candidate is listed at the local model's score and has a larger name. */
  predicate TiedBelow(ps: seq<Profile>, c: real, round: real -> real, local: Profile)
    requires ps != []
  {
    exists p ::
      p in ps && p != local && Listed(ps, c, round, p) == Listed(ps, c, round, local) && NameLeq(local.name, p.name)
  }

  /** If the local model is not last, the last candidate is tied with it. */
  lemma NotLastMeansTied(ps: seq<Profile>, c: real, round: real -> real, local: Profile, i: nat)
    requires ps != [] && DistinctNames(ps) && CostsAreNonNegative(ps) && IsRounding(round) && 0.0909085 < c <= 1.0
    requires local in ps && IsLocal(local) && forall p :: p in ps && p != local ==> IsPaid(p)
    requires i < |Ranking(ps, c, round)| - 1 && Ranking(ps, c, round)[i].name == local.name
    ensures TiedBelow(ps, c, round, local)
  {
    var last := |Ranking(ps, c, round)| - 1;
    var p := Holder(ps, c, round, last);
    RankedNames(ps, c, round);
    assert p.name != local.name;
    LocalNotAbovePaid(ps, local, p, c, round);
    BeforeIff(ps, c, round, local, p, i, last);
  }

  /** If it is last, nobody is. */
  lemma LastMeansUntied(ps: seq<Profile>, c: real, round: real -> real, local: Profile)
    requires ps != [] && DistinctNames(ps) && local in ps && Ranking(ps, c, round) != []
    requires Ranking(ps, c, round)[|Ranking(ps, c, round)| - 1].name == local.name
    ensures !TiedBelow(ps, c, round, local)
  {
    var last := |Ranking(ps, c, round)| - 1;
    forall p | p in ps && p != local
      ensures !(Listed(ps, c, round, p) == Listed(ps, c, round, local) && NameLeq(local.name, p.name))
    {
      var j := Place(ps, c, round, p);
      OtherName(ps, local, p);
      BeforeIff(ps, c, round, local, p, last, j);
    }
  }

  lemma RankedLastIff(ps: seq<Profile>, c: real, round: real -> real, local: Profile)
    requires ps != [] && DistinctNames(ps) && CostsAreNonNegative(ps) && IsRounding(round) && 0.0909085 < c <= 1.0
    requires local in ps && IsLocal(local) && forall p :: p in ps && p != local ==> IsPaid(p)
    ensures Ranking(ps, c, round) != []
    ensures Ranking(ps, c, round)[|Ranking(ps, c, round)| - 1].name == local.name <==> !TiedBelow(ps, c, round, local)
  {
    var i := Place(ps, c, round, local);
    if i == |Ranking(ps, c, round)| - 1 {
      LastMeansUntied(ps, c, round, local);
    } else {
      RankedNames(ps, c, round);
      NotLastMeansTied(ps, c, round, local, i);
    }
  }

  lemma NamedLastIff(ps: seq<Profile>, c: real, round: real -> real, local: Profile, ordered: seq<string>)
    requires ps != [] && DistinctNames(ps) && CostsAreNonNegative(ps) && IsRounding(round) && 0.0909085 < c <= 1.0
    requires local in ps && IsLocal(local) && forall p :: p in ps && p != local ==> IsPaid(p)
    requires ordered == Names(Ranking(ps, c, round))
    ensures ordered != [] && (ordered[|ordered| - 1] == local.name <==> !TiedBelow(ps, c, round, local))
  {
    RankedLastIff(ps, c, round, local);
  }

  /** When all other candidates are paid and the complexity is above the threshold: the local
      model is sorted last if and only if no other candidate is listed at its score with a
      larger name. */
  lemma LastIff(policy: Policy, catalog: seq<Profile>, r: Request, round: real -> real, local: Profile)
    requires DistinctNames(catalog) && CostsAreNonNegative(catalog) && IsRounding(round)
    requires 0.0909085 < ComplexityScore(policy, r) <= 1.0
    requires local in Candidates(catalog, r) && IsLocal(local)
    requires forall p :: p in Candidates(catalog, r) && p != local ==> IsPaid(p)
    ensures var ordered := Decide(policy, catalog, r, round).ordered;
            && ordered != [] && Candidates(catalog, r) != []
            && (ordered[|ordered| - 1] == local.name <==>
                !TiedBelow(Candidates(catalog, r), ComplexityScore(policy, r), round, local))
  {
    CandidatesAreSupporting(catalog, r);
    DecisionIsRanking(policy, catalog, r, round);
    NamedLastIff(Candidates(catalog, r), ComplexityScore(policy, r), round, local, Decide(policy, catalog, r, round).ordered);
  }

  /** Some other candidate of negligible cost has a larger name. */
  predicate Undercut(ps: seq<Profile>, round: real -> real, local: Profile)
    requires ps != []
  {
    exists p :: p in ps && p != local && Negligible(ps, p, round) && NameLeq(local.name, p.name)
  }

  lemma TiedIffUndercut(ps: seq<Profile>, c: real, round: real -> real, local: Profile)
    requires local in ps && IsLocal(local) && CostsAreNonNegative(ps) && IsRounding(round)
    requires forall p :: p in ps && p != local ==> IsPaid(p)
    requires c == 1.0 || 0.1 <= c <= 0.99
    ensures TiedBelow(ps, c, round, local) <==> c == 1.0 && Undercut(ps, round, local)
  {
    forall p | p in ps && p != local
      ensures Listed(ps, c, round, p) == Listed(ps, c, round, local) <==> c == 1.0 && Negligible(ps, p, round)
    {
      SameScoreIff(ps, local, p, c, round);
    }
  }

  /** Under the default policy, for every request with non-negative priority and retries, and when
      all other candidates are paid: the local model is sorted last unless the complexity is the
      highest and another candidate of negligible cost has a larger name. */
  lemma LocalIsLastIff(catalog: seq<Profile>, r: Request, round: real -> real, local: Profile)
    requires DistinctNames(catalog) && CostsAreNonNegative(catalog) && IsRounding(round)
    requires r.priority >= 0 && r.retryCount >= 0
    requires local in Candidates(catalog, r) && IsLocal(local)
    requires forall p :: p in Candidates(catalog, r) && p != local ==> IsPaid(p)
    ensures var ordered := Decide(DEFAULT_POLICY, catalog, r, round).ordered;
            && ordered != [] && Candidates(catalog, r) != []
            && (ordered[|ordered| - 1] == local.name <==>
                !(ComplexityScore(DEFAULT_POLICY, r) == 1.0 && Undercut(Candidates(catalog, r), round, local)))
  {
    DefaultComplexity(r);
    CandidatesAreSupporting(catalog, r);
    LastIff(DEFAULT_POLICY, catalog, r, round, local);
    TiedIffUndercut(Candidates(catalog, r), ComplexityScore(DEFAULT_POLICY, r), round, local);
  }

  /** In particular it is last when each of them costs more than half a millionth of the dearest,
      whatever the rounding does at midpoints. */
  lemma LocalIsLastResort(catalog: seq<Profile>, r: Request, round: real -> real, local: Profile)
    requires DistinctNames(catalog) && CostsAreNonNegative(catalog) && IsRounding(round)
    requires r.priority >= 0 && r.retryCount >= 0
    requires local in Candidates(catalog, r) && IsLocal(local)
    requires forall p :: p in Candidates(catalog, r) && p != local ==>
               IsPaid(p) && p.cost > 0.0000005 * MaxCost(Candidates(catalog, r))
    ensures var ordered := Decide(DEFAULT_POLICY, catalog, r, round).ordered;
            ordered != [] && ordered[|ordered| - 1] == local.name
  {
    var ps := Candidates(catalog, r);
    forall p | p in ps && p != local ensures !Negligible(ps, p, round) {
      if MaxCost(ps) > 0.0 {
        ShareExceeds(p.cost, MaxCost(ps));
        assert Millionths(1) == 0.000001;
        RoundedSteps(round, p.cost / MaxCost(ps), 1);
      }
    }
    LocalIsLastIff(catalog, r, round, local);
  }

  lemma ShareExceeds(cost: real, max: real)
    requires max > 0.0 && cost > 0.0000005 * max
    ensures cost / max > 0.0000005
  {
    QuotientOrder(0.0000005 * max, cost, max);
  }

  /** The condition is needed: at the highest complexity a vendor costing less than half a
      millionth of the dearest is listed at zero like the local model, and if its name is the
      larger one the local model is not last. */
  lemma TieCanPutLocalFirst(policy: Policy, catalog: seq<Profile>, r: Request, round: real -> real,
                            local: Profile, cheap: Profile)
    requires DistinctNames(catalog) && CostsAreNonNegative(catalog) && IsRounding(round)
    requires ComplexityScore(policy, r) == 1.0
    requires local in Candidates(catalog, r) && IsLocal(local)
    requires forall p :: p in Candidates(catalog, r) && p != local ==> IsPaid(p)
    requires cheap in Candidates(catalog, r) && cheap != local && NameLeq(local.name, cheap.name)
    requires cheap.cost < 0.0000005 * MaxCost(Candidates(catalog, r))
    ensures var ordered := Decide(policy, catalog, r, round).ordered;
            ordered != [] && ordered[|ordered| - 1] != local.name
  {
    CandidatesAreSupporting(catalog, r);
    TinySharesTie(Candidates(catalog, r), local, cheap, round);
    LastIff(policy, catalog, r, round, local);
  }

  lemma TinySharesTie(ps: seq<Profile>, local: Profile, cheap: Profile, round: real -> real)
    requires local in ps && cheap in ps && IsLocal(local) && IsPaid(cheap) && CostsAreNonNegative(ps) && IsRounding(round)
    requires cheap.cost < 0.0000005 * MaxCost(ps)
    ensures Listed(ps, 1.0, round, cheap) == Listed(ps, 1.0, round, local)
  {
    var n := ScoresOf(ps, local, cheap, 1.0);
    ShareBelow(cheap.cost, MaxCost(ps));
    TinyRoundsToZero(round, n);
  }

  lemma ShareBelow(cost: real, max: real)
    requires max > 0.0 && cost < 0.0000005 * max
    ensures cost / max < 0.0000005
  {
    QuotientOrder(cost, 0.0000005 * max, max);
  }

  lemma TinyRoundsToZero(round: real -> real, n: real)
    requires IsRounding(round) && 0.0 < n < 0.0000005
    ensures round(Affinity(n, 1.0)) == round(0.1 * (1.0 - 1.0)) == 0.0
  {
    HighestScores(round, n);
    assert Millionths(0) == 0.0;
    RoundedSteps(round, n, 0);
  }

  /** When all of a catalogue supports the request and fits, all of it is considered. */
  lemma SameCandidates(catalog: seq<Profile>, r: Request)
    requires DistinctNames(catalog) && catalog != []
    requires forall p :: p in catalog ==> r.capability in p.capabilities && p.contextWindow >= r.estimatedTokens
    ensures forall p :: p in Candidates(catalog, r) <==> p in catalog
  {
    CandidatesAreSupporting(catalog, r);
    assert catalog[0] in catalog;
  }

  lemma DearestIs(ps: seq<Profile>, dear: Profile)
    requires dear in ps && forall p :: p in ps ==> p.cost <= dear.cost
    ensures MaxCost(ps) == dear.cost
  {
  }

  /** Three providers that show it, whatever their names, as long as the local one is smaller
      than the cheap one, for any critical request that fits them. */
  lemma ThreeProviders(policy: Policy, catalog: seq<Profile>, r: Request, round: real -> real,
                       local: string, cheap: string, dear: string)
    requires IsRounding(round) && local != cheap && cheap != dear && local != dear && NameLeq(local, cheap)
    requires catalog == Trio(local, cheap, dear)
    requires r.capability == Analysis && r.estimatedTokens <= 0 && ComplexityScore(policy, r) == 1.0
    ensures var ordered := Decide(policy, catalog, r, round).ordered;
            ordered != [] && ordered[|ordered| - 1] != local
  {
    TrioFacts(catalog, local, cheap, dear);
    SameCandidates(catalog, r);
    DearestIs(Candidates(catalog, r), catalog[2]);
    TieCanPutLocalFirst(policy, catalog, r, round, catalog[0], catalog[1]);
  }

  function Trio(local: string, cheap: string, dear: string): (ps: seq<Profile>)
    ensures |ps| == 3
  {
    [Vendor(local, 0.0, 0.1), Vendor(cheap, 0.0000001, 1.0), Vendor(dear, 1.0, 1.0)]
  }

  lemma TrioFacts(ps: seq<Profile>, local: string, cheap: string, dear: string)
    requires local != cheap && cheap != dear && local != dear && ps == Trio(local, cheap, dear)
    ensures DistinctNames(ps) && CostsAreNonNegative(ps) && ps[0] in ps && ps[1] in ps && ps[2] in ps
    ensures IsLocal(ps[0]) && ps[0].name == local && ps[1].name == cheap && ps[1].cost == 0.0000001 && ps[2].cost == 1.0
    ensures forall p :: p in ps ==>
              p.capabilities == {Analysis} && p.contextWindow == 0 && p.cost <= 1.0 && (p == ps[0] || IsPaid(p))
  {
  }

  function Vendor(name: string, cost: real, weight: real): Profile {
    Profile(name, {Analysis}, cost, 0, weight, 3, 60_000_000, 1_800_000_000, None)
  }
}
