/** Who stands where in a ranking. */
module Ranks {
  import opened Base
  import opened Ordering
  import opened Provider
  import opened Registry
  import opened Routing

  function Listed(ps: seq<Profile>, c: real, round: real -> real, p: Profile): real
    requires ps != []
  {
    round(RawScore(p, MinCost(ps), MaxCost(ps), c))
  }

  /** Each candidate has one place in the ranking. */
  lemma Place(ps: seq<Profile>, c: real, round: real -> real, p: Profile) returns (i: nat)
    requires ps != [] && p in ps
    ensures i < |Ranking(ps, c, round)| && Ranking(ps, c, round)[i] == Entry(p.name, Listed(ps, c, round, p))
  {
    var scored, ranked := Scored(ps, MinCost(ps), MaxCost(ps), c, round), Ranking(ps, c, round);
    RankingIsSorted(ps, c, round);
    SameElements(scored, ranked);
    var k :| 0 <= k < |ps| && ps[k] == p;
    assert scored[k] in ranked;
    i :| 0 <= i < |ranked| && ranked[i] == scored[k];
  }

  /** Candidates with distinct names get entries with distinct names. */
  lemma ScoredNames(ps: seq<Profile>, lo: real, hi: real, c: real, round: real -> real)
    requires DistinctNames(ps)
    ensures var scored := Scored(ps, lo, hi, c, round);
            Distinct(scored) && forall e, f :: e in scored && f in scored && e.name == f.name ==> e == f
  {
    var scored := Scored(ps, lo, hi, c, round);
    forall e, f | e in scored && f in scored && e.name == f.name ensures e == f {
      var k :| 0 <= k < |ps| && scored[k] == e;
      var m :| 0 <= m < |ps| && scored[m] == f;
      assert ps[k].name == ps[m].name;
    }
  }

  predicate OnePlaceEach(ranked: seq<Entry>) {
    forall i, j :: 0 <= i < j < |ranked| ==> ranked[i].name != ranked[j].name
  }

  lemma RankedNames(ps: seq<Profile>, c: real, round: real -> real)
    requires ps != [] && DistinctNames(ps)
    ensures OnePlaceEach(Ranking(ps, c, round))
  {
    var scored, ranked := Scored(ps, MinCost(ps), MaxCost(ps), c, round), Ranking(ps, c, round);
    RankingIsSorted(ps, c, round);
    DistinctEntries(scored, ranked, ps, MinCost(ps), MaxCost(ps), c, round);
  }

  lemma DistinctEntries(scored: seq<Entry>, ranked: seq<Entry>, ps: seq<Profile>, lo: real, hi: real, c: real, round: real -> real)
    requires DistinctNames(ps) && scored == Scored(ps, lo, hi, c, round) && multiset(ranked) == multiset(scored)
    ensures OnePlaceEach(ranked)
  {
    ScoredNames(ps, lo, hi, c, round);
    RearrangedIsDistinct(scored, ranked);
    SameElements(scored, ranked);
    forall i, j | 0 <= i < j < |ranked| ensures ranked[i].name != ranked[j].name {
      assert ranked[i] in scored && ranked[j] in scored;
    }
  }

  /** Whose place the i-th is. */
  lemma Holder(ps: seq<Profile>, c: real, round: real -> real, i: nat) returns (p: Profile)
    requires ps != [] && i < |Ranking(ps, c, round)|
    ensures p in ps && Ranking(ps, c, round)[i] == Entry(p.name, Listed(ps, c, round, p))
  {
    var scored, ranked := Scored(ps, MinCost(ps), MaxCost(ps), c, round), Ranking(ps, c, round);
    RankingIsSorted(ps, c, round);
    SameElements(scored, ranked);
    assert ranked[i] in scored;
    var k :| 0 <= k < |ps| && scored[k] == ranked[i];
    p := ps[k];
  }

  lemma SortedPlaces(ranked: seq<Entry>, i: nat, j: nat)
    requires SortedBy(ByScore, ranked) && i < |ranked| && j < |ranked| && ranked[i].name != ranked[j].name
    ensures i < j <==> ByScore(ranked[i], ranked[j])
  {
    NameLeqTotal(ranked[i].name, ranked[j].name);
  }

  /** Of two candidates the one with the better score, or at the same score the smaller name,
      comes first. */
  lemma BeforeIff(ps: seq<Profile>, c: real, round: real -> real, p: Profile, q: Profile, i: nat, j: nat)
    requires ps != [] && DistinctNames(ps) && p in ps && q in ps && p.name != q.name
    requires i < |Ranking(ps, c, round)| && Ranking(ps, c, round)[i].name == p.name
    requires j < |Ranking(ps, c, round)| && Ranking(ps, c, round)[j].name == q.name
    ensures i < j <==> ByScore(Entry(p.name, Listed(ps, c, round, p)), Entry(q.name, Listed(ps, c, round, q)))
  {
    RankingIsSorted(ps, c, round);
    var i' := Place(ps, c, round, p);
    var j' := Place(ps, c, round, q);
    RankedNames(ps, c, round);
    assert i == i' && j == j';
    SortedPlaces(Ranking(ps, c, round), i, j);
  }

  /** Distinct candidates have distinct names. */
  lemma OtherName(ps: seq<Profile>, p: Profile, q: Profile)
    requires DistinctNames(ps) && p in ps && q in ps && p != q
    ensures p.name != q.name
  {
  }

  lemma DecisionIsRanking(policy: Policy, catalog: seq<Profile>, r: Request, round: real -> real)
    requires Candidates(catalog, r) != []
    ensures Decide(policy, catalog, r, round).ordered
            == Names(Ranking(Candidates(catalog, r), ComplexityScore(policy, r), round))
  {
  }
}
