/** The provider manager itself, over a registry and a store. */
module Manager {
  import opened Base
  import opened Provider
  import opened Registry
  import opened Persistence
  import opened Failover
  import opened CallerOrder

class ProviderManager {
    const registry: ProviderRegistry
    const store: InMemoryProviderStateStore

    constructor (registry: ProviderRegistry, store: InMemoryProviderStateStore)
      ensures this.registry == registry && this.store == store
    {
      this.registry, this.store := registry, store;
    }

    ghost function Profiles(): Fleet
      reads registry
    {
      map n | n in registry.providers :: registry.providers[n].profile
    }

    ghost function Live(): map<string, Health>
      reads registry, registry.providers.Values
    {
      map n | n in registry.providers :: registry.providers[n].health
    }

    function Supporting(capability: Capability): seq<string>
      reads registry
      requires registry.Valid()
    {
      var ps := ForCapability(registry.Catalog(), capability);
      seq(|ps|, i requires 0 <= i < |ps| => ps[i].name)
    }

    lemma SupportingIsKnown(capability: Capability)
      requires registry.Valid()
      ensures forall n :: n in Supporting(capability) ==> n in registry.providers
    {
      var c := registry.Catalog();
      registry.CatalogIsDistinct();
      FailoverOrder(c, c, capability);
    }

    /** The default order is the catalogue's own preference. */
    lemma SupportingIsPreferred(capability: Capability)
      requires registry.Valid()
      ensures ByOwnPreference(Profiles(), capability, Supporting(capability))
    {
      var c := registry.Catalog();
      var ps := ForCapability(c, capability);
      registry.CatalogIsDistinct();
      FailoverOrder(c, c, capability);
      SupportingIsDistinct(c, capability);
      SortedNames(Profiles(), capability, ps, Supporting(capability));
    }

    /** One availability and budget check. */
    method CheckOne(name: string, at: Time) returns (ok: bool)
      requires registry.Valid() && name in registry.providers
      modifies registry.providers.Values
      ensures Live() == old(Live())[name := Refresh(old(Live())[name], at)]
      ensures ok <==> Live()[name].status == Available && HasBudget(Live()[name], Profiles()[name], 0)
    {
      var p := registry.providers[name];
      assert forall n :: n in registry.providers && n != name ==> registry.providers[n] != p;
      var available := p.IsAvailable(at);
      ok := available && HasBudget(p.health, p.profile, 0);
    }

    /** One attempt, saved whatever comes of it. */
    method AttemptOne(name: string, o: Outcome, checked: Time, recorded: Time) returns (verdict: Outcome)
      requires registry.Valid() && name in registry.providers
      modifies registry.providers.Values, store
      ensures var (h, v) := Attempt(old(Live())[name], Profiles()[name], o, checked, recorded);
              verdict == v && Live() == old(Live())[name := h] && store.data == old(store.data)[name := h]
    {
      var p := registry.providers[name];
      assert forall n :: n in registry.providers && n != name ==> registry.providers[n] != p;
      verdict := p.Complete(o, checked, recorded);
      store.Save(name, p.health);
    }

    /** The attempt number `n` of a call that began in world `start`, all before it having
        failed. */
    method AttemptNext(ghost start: World, cands: seq<string>, n: nat, outcomes: nat -> Outcome, ts: Times)
      returns (verdict: Outcome)
      requires registry.Valid() && n < |cands|
      requires forall i :: 0 <= i < |cands| ==> cands[i] in registry.providers
      requires AllFailed(start, Profiles(), cands, n, outcomes, ts, World(Live(), store.data))
      modifies registry.providers.Values, store
      ensures verdict.Raise? ==> AllFailed(start, Profiles(), cands, n + 1, outcomes, ts, World(Live(), store.data))
      ensures verdict.Reply? ==>
        Serves(start, Profiles(), cands, n, outcomes, ts, World(Live(), store.data),
               Some(Invocation(cands[n], verdict.content, verdict.tokens, n + 1, cands[..n])))
    {
      ghost var now := World(Live(), store.data);
      ghost var (h, v) := Attempt(now.live[cands[n]], Profiles()[cands[n]], outcomes(n), ts.check(n), ts.record(n));
      NextAttempt(start, Profiles(), cands, n, outcomes, ts, now, h, v);
      verdict := AttemptOne(cands[n], outcomes(n), ts.check(n), ts.record(n));
    }

    /** Check one more provider of a list whose first `i` have been checked. */
    method CheckNext(ghost start: map<string, Health>, ordered: seq<string>, i: nat, cands: seq<string>, ts: Times)
      returns (more: seq<string>)
      requires registry.Valid() && i < |ordered| && start.Keys == Profiles().Keys
      requires forall j :: 0 <= j < |ordered| ==> ordered[j] in registry.providers
      requires (Live(), cands) == Probe(start, Profiles(), ordered, i, ts)
      modifies registry.providers.Values
      ensures (Live(), more) == Probe(start, Profiles(), ordered, i + 1, ts)
    {
      ProbeOneMore(start, Profiles(), ordered, i, ts);
      var ok := CheckOne(ordered[i], ts.probe(i));
      more := if ok then cands + [ordered[i]] else cands;
    }

    /** Check the providers in order and keep the usable ones. */
    method ProbeAll(ordered: seq<string>, ts: Times) returns (cands: seq<string>)
      requires registry.Valid() && forall i :: 0 <= i < |ordered| ==> ordered[i] in registry.providers
      modifies registry.providers.Values
      ensures (Live(), cands) == Probe(old(Live()), Profiles(), ordered, |ordered|, ts)
    {
      cands := [];
      for i := 0 to |ordered|
        invariant (Live(), cands) == Probe(old(Live()), Profiles(), ordered, i, ts)
      {
        cands := CheckNext(old(Live()), ordered, i, cands, ts);
      }
    }

    /** The providers to try, in order; checking them refreshes their health. */
    method Candidates(capability: Capability, order: Option<seq<string>>, ts: Times)
      returns (ordered: seq<string>, cands: seq<string>)
      requires registry.Valid()
      modifies registry.providers.Values
      ensures ordered == OrderedNames(Supporting(capability), order)
      ensures Known(ordered, Profiles(), old(Live()))
      ensures (Live(), cands) == Probe(old(Live()), Profiles(), ordered, |ordered|, ts)
      ensures exists names ::
        GoesBy(Profiles(), capability, order, names) && SupportingPart(Profiles(), capability, names, ordered)
      ensures Chosen(old(Live()), Profiles(), ordered, ts, cands) && AreAfterChecks(old(Live()), ordered, ts, Live())
    {
      SupportingIsKnown(capability);
      SupportingIsPreferred(capability);
      OrderedIsSupportingPart(Profiles(), capability, Supporting(capability), order);
      ProbeChooses(Live(), Profiles(), OrderedNames(Supporting(capability), order), ts);
      ghost var live := Live();
      ordered := OrderedNames(Supporting(capability), order);
      cands := ProbeAll(ordered, ts);
      ProbedAreAfterChecks(live, Profiles(), ordered, ts, Live());
    }

    /** Try the candidates in turn until one succeeds. */
    method Serve(cands: seq<string>, outcomes: nat -> Outcome, ts: Times) returns (r: Option<Invocation>, ghost k: nat)
      requires registry.Valid() && forall i :: 0 <= i < |cands| ==> cands[i] in registry.providers
      modifies registry.providers.Values, store
      ensures Serves(World(old(Live()), old(store.data)), Profiles(), cands, k, outcomes, ts, World(Live(), store.data), r)
    {
      ghost var start := World(Live(), store.data);
      var failedOver := [];
      for attempt := 0 to |cands|
        invariant failedOver == cands[..attempt]
        invariant AllFailed(start, Profiles(), cands, attempt, outcomes, ts, World(Live(), store.data))
      {
        var verdict := AttemptNext(start, cands, attempt, outcomes, ts);
        if verdict.Reply? {
          return Some(Invocation(cands[attempt], verdict.content, verdict.tokens, attempt + 1, failedOver)), attempt;
        }
        assert cands[..attempt + 1] == cands[..attempt] + [cands[attempt]];
        failedOver := failedOver + [cands[attempt]];
      }
      r, k := None, |cands|;
    }

    /** Run the request against the best provider. `None` stands for NoProviderAvailable;
        `outcomes(i)` is what the vendor of the i-th attempt answers. */
    method Complete(capability: Capability, order: Option<seq<string>>, outcomes: nat -> Outcome, ts: Times)
      returns (r: Option<Invocation>)
      requires registry.Valid()
      modifies registry.providers.Values, store
      ensures var ordered := OrderedNames(Supporting(capability), order);
              && Known(ordered, Profiles(), old(Live()))
              && exists k: nat :: CompletesAs(World(old(Live()), old(store.data)), Profiles(), ordered, k, outcomes, ts,
                                              World(Live(), store.data), r)
      ensures AnswersCall(World(old(Live()), old(store.data)), Profiles(), capability, order, outcomes, ts, r)
    {
      ghost var before := World(Live(), store.data);
      ghost var fleet := Profiles();
      var ordered, cands := Candidates(capability, order, ts);
      ghost var k;
      r, k := Serve(cands, outcomes, ts);
      assert CompletesAs(before, fleet, ordered, k, outcomes, ts, World(Live(), store.data), r);
      CompletesAnswersCall(before, fleet, capability, order, ordered, k, outcomes, ts, World(Live(), store.data), r);
    }
  }
}
