/** Which providers a call tries, and which one answers, in terms of the order the caller gave or,
    without one, of the catalogue's own preference. */
module CallerOrder {
  import opened Base
  import opened Ordering
  import opened Provider
  import opened Registry
  import opened Failover

  predicate Supports(fleet: Fleet, name: string, capability: Capability) {
    name in fleet && capability in fleet[name].capabilities
  }

  /** Higher weight first, then lower cost, then the smaller name. */
  predicate Preferred(a: Profile, b: Profile) {
    || a.weight > b.weight
    || (a.weight == b.weight && a.cost < b.cost)
    || (a.weight == b.weight && a.cost == b.cost && NameLeq(a.name, b.name))
  }

  /** The supporting providers, once each, preferred ones first. */
  ghost predicate ByOwnPreference(fleet: Fleet, capability: Capability, names: seq<string>) {
    && Distinct(names)
    && (forall n :: n in names <==> Supports(fleet, n, capability))
    && (forall i, j :: 0 <= i < j < |names| ==>
          names[i] in fleet && names[j] in fleet && Preferred(fleet[names[i]], fleet[names[j]]))
  }

  /** Providers sorted by the catalogue's order have their names in this order. */
  lemma SortedNames(fleet: Fleet, capability: Capability, ps: seq<Profile>, names: seq<string>)
    requires SortedBy(ByPreference, ps) && DistinctNames(ps)
    requires forall n :: n in fleet ==> fleet[n].name == n
    requires forall p :: p in ps <==> p.name in fleet && fleet[p.name] == p && capability in p.capabilities
    requires |names| == |ps| && forall i :: 0 <= i < |ps| ==> names[i] == ps[i].name
    ensures ByOwnPreference(fleet, capability, names)
  {
    forall n | Supports(fleet, n, capability) ensures n in names {
      assert fleet[n] in ps;
      var i :| 0 <= i < |ps| && ps[i] == fleet[n];
      assert names[i] == n;
    }
    forall n | n in names ensures Supports(fleet, n, capability) {
      var i :| 0 <= i < |names| && names[i] == n;
      assert ps[i] in ps;
    }
    forall i, j | 0 <= i < j < |names|
      ensures names[i] in fleet && names[j] in fleet && Preferred(fleet[names[i]], fleet[names[j]])
    {
      assert ps[i] in ps && ps[j] in ps && ByPreference(ps[i], ps[j]);
    }
  }

  /** The order a call goes by. */
  ghost predicate GoesBy(fleet: Fleet, capability: Capability, order: Option<seq<string>>, names: seq<string>) {
    if order.Some? then names == order.value else ByOwnPreference(fleet, capability, names)
  }

  // ---------------------------------------------------------------------------
  // Which names are checked

  ghost predicate Increasing(at: seq<nat>) {
    forall m, m' :: 0 <= m < m' < |at| ==> at[m] < at[m']
  }

  /** `at` lists, in order, exactly the positions of the names that support the capability. */
  ghost predicate SupportingAt(fleet: Fleet, capability: Capability, names: seq<string>, at: seq<nat>) {
    && Increasing(at) && (forall m :: 0 <= m < |at| ==> at[m] < |names|)
    && forall i: nat :: i < |names| ==> (i in at <==> Supports(fleet, names[i], capability))
  }

  /** `checked` is `names` without those that do not support the capability: the others in their
      sequence, with repeats. */
  ghost predicate SupportingPart(fleet: Fleet, capability: Capability, names: seq<string>, checked: seq<string>) {
    exists at: seq<nat> :: SupportingAt(fleet, capability, names, at) && checked == At(names, at)
  }

  lemma SupportingAtNext(fleet: Fleet, capability: Capability, names: seq<string>, name: string, at: seq<nat>)
    requires SupportingAt(fleet, capability, names, at)
    ensures var more := at + if Supports(fleet, name, capability) then [|names|] else [];
            SupportingAt(fleet, capability, names + [name], more)
            && At(names + [name], more) == At(names, at) + if Supports(fleet, name, capability) then [name] else []
  {
  }

  lemma SupportingPartNext(fleet: Fleet, capability: Capability, names: seq<string>, name: string, kept: seq<string>)
    requires SupportingPart(fleet, capability, names, kept)
    ensures SupportingPart(fleet, capability, names + [name],
                           kept + if Supports(fleet, name, capability) then [name] else [])
  {
    var at: seq<nat> :| SupportingAt(fleet, capability, names, at) && kept == At(names, at);
    SupportingAtNext(fleet, capability, names, name, at);
  }

  lemma {:induction false} KeptIsSupportingPart(fleet: Fleet, capability: Capability, names: seq<string>, supporting: seq<string>)
    requires forall n :: n in supporting <==> Supports(fleet, n, capability)
    ensures SupportingPart(fleet, capability, names, KeepKnown(names, supporting))
  {
    if names == [] {
      assert SupportingAt(fleet, capability, names, []) && KeepKnown(names, supporting) == At(names, []);
    } else {
      var init, name := names[..|names| - 1], names[|names| - 1];
      assert names == init + [name];
      KeptIsSupportingPart(fleet, capability, init, supporting);
      KeepKnownKeepsOrder(init, [name], supporting);
      SupportingPartNext(fleet, capability, init, name, KeepKnown(init, supporting));
      assert KeepKnown([name], supporting) == if Supports(fleet, name, capability) then [name] else [];
    }
  }

  lemma {:induction false} KeepAll(names: seq<string>, known: seq<string>)
    requires forall n :: n in names ==> n in known
    ensures KeepKnown(names, known) == names
  {
    if names != [] {
      KeepAll(names[1..], known);
    }
  }

  /** What the manager goes through is the supporting part of the order it goes by. */
  lemma OrderedIsSupportingPart(fleet: Fleet, capability: Capability, supporting: seq<string>, order: Option<seq<string>>)
    requires ByOwnPreference(fleet, capability, supporting)
    ensures exists names :: GoesBy(fleet, capability, order, names)
                            && SupportingPart(fleet, capability, names, OrderedNames(supporting, order))
  {
    var names := if order.Some? then order.value else supporting;
    KeptIsSupportingPart(fleet, capability, names, supporting);
    if order.None? {
      KeepAll(supporting, supporting);
    }
    assert GoesBy(fleet, capability, order, names);
  }

  // ---------------------------------------------------------------------------
  // Who is a candidate

  predicate AvailableAt(h: Health, now: Time) {
    || h.status == Available
    || (h.status in {RateLimited, Offline, Cooldown} && h.cooldownUntil.Some? && now >= h.cooldownUntil.value)
  }

  /** Check number `m` yields a candidate: its provider has budget left, and is found available
      here or was by an earlier check. */
  ghost predicate YieldsCandidate(live: map<string, Health>, fleet: Fleet, checked: seq<string>, m: nat, ts: Times)
    requires m < |checked|
  {
    var name := checked[m];
    && name in live && name in fleet
    && (fleet[name].budget.Some? ==> live[name].tokensUsed < fleet[name].budget.value)
    && exists j: nat :: j <= m && checked[j] == name && AvailableAt(live[name], ts.probe(j))
  }

  /** `at` lists, in order, exactly the checks that yield a candidate. */
  ghost predicate CandidatesAt(live: map<string, Health>, fleet: Fleet, checked: seq<string>, ts: Times, at: seq<nat>) {
    && Increasing(at) && (forall m :: 0 <= m < |at| ==> at[m] < |checked|)
    && forall m: nat :: m < |checked| ==> (m in at <==> YieldsCandidate(live, fleet, checked, m, ts))
  }

  ghost predicate Chosen(live: map<string, Health>, fleet: Fleet, checked: seq<string>, ts: Times, cands: seq<string>) {
    exists at: seq<nat> :: CandidatesAt(live, fleet, checked, ts, at) && cands == At(checked, at)
  }

  lemma AvailableIff(h: Health, now: Time)
    ensures Refresh(h, now).status == Available <==> AvailableAt(h, now)
  {
  }

  lemma UsableYields(live: map<string, Health>, fleet: Fleet, checked: seq<string>, m: nat, ts: Times)
    requires m < |checked| && Known(checked, fleet, live)
    ensures UsableAt(live, fleet, checked, m, ts) <==> YieldsCandidate(live, fleet, checked, m, ts)
  {
    forall j: nat ensures Refresh(live[checked[m]], ts.probe(j)).status == Available
                          <==> AvailableAt(live[checked[m]], ts.probe(j)) {
      AvailableIff(live[checked[m]], ts.probe(j));
    }
  }

  lemma ProbeChooses(live: map<string, Health>, fleet: Fleet, checked: seq<string>, ts: Times)
    requires Known(checked, fleet, live)
    ensures Chosen(live, fleet, checked, ts, Probe(live, fleet, checked, |checked|, ts).1)
  {
    ProbePicks(live, fleet, checked, |checked|, ts);
    var at := UsablePositions(live, fleet, checked, |checked|, ts);
    forall m: nat | m < |checked| ensures m in at <==> YieldsCandidate(live, fleet, checked, m, ts) {
      UsableYields(live, fleet, checked, m, ts);
    }
    assert CandidatesAt(live, fleet, checked, ts, at);
  }

  // ---------------------------------------------------------------------------
  // Who answers

  /** An outage that is over leaves no trace but in the counters. */
  function Cleared(h: Health): Health {
    if h.status == Available then h
    else h.(status := Available, consecutiveFailures := 0, cooldownUntil := None, lastError := None)
  }

  /** Some check finds `n` available. */
  ghost predicate FoundBy(live: map<string, Health>, checked: seq<string>, ts: Times, n: string)
    requires n in live
  {
    exists j: nat :: j < |checked| && checked[j] == n && AvailableAt(live[n], ts.probe(j))
  }

  /** The healths after the checks: those found available are cleared, the others are as they were. */
  ghost predicate AreAfterChecks(live: map<string, Health>, checked: seq<string>, ts: Times, after: map<string, Health>) {
    && after.Keys == live.Keys
    && forall n :: n in live ==> after[n] == if FoundBy(live, checked, ts, n) then Cleared(live[n]) else live[n]
  }

  lemma RefreshClears(h: Health, g: Health, now: Time)
    requires g == h || g == Cleared(h)
    ensures Refresh(g, now) == h || Refresh(g, now) == Cleared(h)
  {
  }

  lemma {:induction false} ProbedIs(live: map<string, Health>, fleet: Fleet, ordered: seq<string>, n: nat, ts: Times, name: string)
    requires n <= |ordered| && Known(ordered, fleet, live) && name in live
    ensures var h := Probe(live, fleet, ordered, n, ts).0[name]; h == live[name] || h == Cleared(live[name])
  {
    if n > 0 {
      ProbedIs(live, fleet, ordered, n - 1, ts, name);
      RefreshClears(live[name], Probe(live, fleet, ordered, n - 1, ts).0[name], ts.probe(n - 1));
      ProbeOneMore(live, fleet, ordered, n - 1, ts);
    }
  }

  lemma FoundIff(live: map<string, Health>, ordered: seq<string>, ts: Times, n: string)
    requires n in live && live[n].status != Available
    ensures FoundAvailable(live, ordered, |ordered|, ts, n) <==> FoundBy(live, ordered, ts, n)
  {
    forall j: nat ensures Refresh(live[n], ts.probe(j)).status == Available <==> AvailableAt(live[n], ts.probe(j)) {
      AvailableIff(live[n], ts.probe(j));
    }
  }

  lemma ProbedAreAfterChecks(live: map<string, Health>, fleet: Fleet, checked: seq<string>, ts: Times, after: map<string, Health>)
    requires Known(checked, fleet, live) && after == Probe(live, fleet, checked, |checked|, ts).0
    ensures AreAfterChecks(live, checked, ts, after)
  {
    forall n | n in live ensures after[n] == if FoundBy(live, checked, ts, n) then Cleared(live[n]) else live[n] {
      ProbedIs(live, fleet, checked, |checked|, ts, n);
      ProbedHealth(live, fleet, checked, |checked|, ts, n);
      if live[n].status != Available {
        FoundIff(live, checked, ts, n);
      }
    }
  }

  /** The first candidate that is admitted and whose vendor replies answers, having failed over
      from exactly those before it; nobody does if there is none. A candidate is always admitted
      the first time, so if no name is repeated only the vendors' outcomes count. */
  ghost predicate Answers(checked: World, fleet: Fleet, cands: seq<string>, k: nat, outcomes: nat -> Outcome,
                          ts: Times, r: Option<Invocation>)
  {
    && Known(cands, fleet, checked.live) && FirstAnswer(checked, fleet, cands, k, outcomes, ts)
    && (forall i: nat :: i < |cands| && cands[i] !in cands[..i] ==> Admitted(checked, fleet, cands, i, outcomes, ts))
    && (Distinct(cands) ==> FirstOutcome(outcomes, |cands|, k))
    && r == if k == |cands| then None
            else Some(Invocation(cands[k], outcomes(k).content, outcomes(k).tokens, k + 1, cands[..k]))
  }

  /** A call by `names`: its supporting part is checked, candidates are chosen from it, and one of
      them answers. */
  ghost predicate ServedBy(w: World, fleet: Fleet, capability: Capability, names: seq<string>, checked: seq<string>,
                           after: map<string, Health>, cands: seq<string>, k: nat, outcomes: nat -> Outcome, ts: Times,
                           r: Option<Invocation>)
  {
    && SupportingPart(fleet, capability, names, checked) && AreAfterChecks(w.live, checked, ts, after)
    && Chosen(w.live, fleet, checked, ts, cands)
    && Answers(World(after, w.store), fleet, cands, k, outcomes, ts, r)
  }

  lemma CompletesIsServed(w: World, fleet: Fleet, capability: Capability, names: seq<string>, checked: seq<string>, k: nat,
                          outcomes: nat -> Outcome, ts: Times, end: World, r: Option<Invocation>)
    requires SupportingPart(fleet, capability, names, checked) && Known(checked, fleet, w.live)
    requires CompletesAs(w, fleet, checked, k, outcomes, ts, end, r)
    ensures var (after, cands) := Probe(w.live, fleet, checked, |checked|, ts);
            ServedBy(w, fleet, capability, names, checked, after, cands, k, outcomes, ts, r)
  {
    var (after, cands) := Probe(w.live, fleet, checked, |checked|, ts);
    ProbeChooses(w.live, fleet, checked, ts);
    ProbedAreAfterChecks(w.live, fleet, checked, ts, after);
    FirstSuccessWins(w, fleet, checked, k, outcomes, ts, end, r);
    if Distinct(cands) {
      DistinctFirstOutcome(World(after, w.store), fleet, cands, k, outcomes, ts);
    }
  }

  /** A call with this order, or none, has this result. */
  ghost predicate AnswersCall(w: World, fleet: Fleet, capability: Capability, order: Option<seq<string>>,
                              outcomes: nat -> Outcome, ts: Times, r: Option<Invocation>)
  {
    exists names, checked, after, cands, k ::
      GoesBy(fleet, capability, order, names)
      && ServedBy(w, fleet, capability, names, checked, after, cands, k, outcomes, ts, r)
  }

  lemma CompletesAnswersCall(w: World, fleet: Fleet, capability: Capability, order: Option<seq<string>>, checked: seq<string>,
                             k: nat, outcomes: nat -> Outcome, ts: Times, end: World, r: Option<Invocation>)
    requires exists names :: GoesBy(fleet, capability, order, names) && SupportingPart(fleet, capability, names, checked)
    requires Known(checked, fleet, w.live) && CompletesAs(w, fleet, checked, k, outcomes, ts, end, r)
    ensures AnswersCall(w, fleet, capability, order, outcomes, ts, r)
  {
    var names :| GoesBy(fleet, capability, order, names) && SupportingPart(fleet, capability, names, checked);
    CompletesIsServed(w, fleet, capability, names, checked, k, outcomes, ts, end, r);
  }
}
