/** The provider catalogue and its default failover order. */
module Registry {
  import opened Base
  import opened Ordering
  import opened Provider

  /** Higher weight first, then cheaper, then by name. */
  predicate ByPreference(a: Profile, b: Profile) {
    a.weight > b.weight || (a.weight == b.weight && (a.cost < b.cost || (a.cost == b.cost && NameLeq(a.name, b.name))))
  }

  lemma PreferenceIsTotal()
    ensures TotalPreorder(ByPreference)
  {
    forall a, b ensures ByPreference(a, b) || ByPreference(b, a) {
      NameLeqTotal(a.name, b.name);
    }
    forall a, b, c | ByPreference(a, b) && ByPreference(b, c) ensures ByPreference(a, c) {
      if a.weight == b.weight == c.weight && a.cost == b.cost == c.cost {
        NameLeqTrans(a.name, b.name, c.name);
      }
    }
  }

  ghost predicate DistinctNames(catalog: seq<Profile>) {
    forall i, j :: 0 <= i < j < |catalog| ==> catalog[i].name != catalog[j].name
  }

  function Filter(catalog: seq<Profile>, capability: Capability): (r: seq<Profile>)
    ensures forall p :: p in r <==> p in catalog && capability in p.capabilities
  {
    if catalog == [] then []
    else (if capability in catalog[0].capabilities then [catalog[0]] else []) + Filter(catalog[1..], capability)
  }

  /** All providers with the capability, in default failover order. */
  function ForCapability(catalog: seq<Profile>, capability: Capability): seq<Profile> {
    Sort(ByPreference, Filter(catalog, capability))
  }

  lemma {:induction false} FilterKeepsCounts(catalog: seq<Profile>, capability: Capability, p: Profile)
    ensures multiset(Filter(catalog, capability))[p]
            == if capability in p.capabilities then multiset(catalog)[p] else 0
  {
    if catalog != [] {
      FilterKeepsCounts(catalog[1..], capability, p);
      assert catalog == [catalog[0]] + catalog[1..];
    }
  }

  lemma SameNameSameProfile(catalog: seq<Profile>, a: Profile, b: Profile)
    requires DistinctNames(catalog) && a in catalog && b in catalog && a.name == b.name
    ensures a == b
  {
  }

  lemma FilterIgnoresOrder(catalog: seq<Profile>, other: seq<Profile>, capability: Capability)
    requires multiset(catalog) == multiset(other)
    ensures multiset(Filter(catalog, capability)) == multiset(Filter(other, capability))
  {
    forall p ensures multiset(Filter(catalog, capability))[p] == multiset(Filter(other, capability))[p] {
      FilterKeepsCounts(catalog, capability, p);
      FilterKeepsCounts(other, capability, p);
    }
  }

  lemma SupportingHasNoTies(catalog: seq<Profile>, capability: Capability)
    requires DistinctNames(catalog)
    ensures NoTies(ByPreference, Filter(catalog, capability))
  {
    var s := Filter(catalog, capability);
    forall a, b | a in s && b in s && ByPreference(a, b) && ByPreference(b, a) ensures a == b {
      NameLeqTotal(a.name, b.name);
      SameNameSameProfile(catalog, a, b);
    }
  }

  /** The failover order is sorted by preference, holds exactly the supporting providers, and
      does not depend on the order in which they were registered. */
  lemma FailoverOrder(catalog: seq<Profile>, other: seq<Profile>, capability: Capability)
    requires DistinctNames(catalog) && multiset(catalog) == multiset(other)
    ensures SortedBy(ByPreference, ForCapability(catalog, capability))
    ensures forall p :: p in ForCapability(catalog, capability) <==> p in catalog && capability in p.capabilities
    ensures ForCapability(catalog, capability) == ForCapability(other, capability)
  {
    PreferenceIsTotal();
    FilterIgnoresOrder(catalog, other, capability);
    SupportingHasNoTies(catalog, capability);
    SortIsSorted(ByPreference, Filter(catalog, capability));
    SameElements(Filter(catalog, capability), ForCapability(catalog, capability));
    SortIgnoresOrder(ByPreference, Filter(catalog, capability), Filter(other, capability));
  }

  lemma {:induction false} FilterIsDistinct(catalog: seq<Profile>, capability: Capability)
    requires DistinctNames(catalog)
    ensures DistinctNames(Filter(catalog, capability))
  {
    if catalog != [] {
      FilterIsDistinct(catalog[1..], capability);
      var rest := Filter(catalog[1..], capability);
      forall i | 0 <= i < |rest| ensures rest[i].name != catalog[0].name {
        assert rest[i] in catalog[1..];
      }
    }
  }

  /** Rearranging keeps names distinct. */
  lemma RearrangedNames(s: seq<Profile>, t: seq<Profile>)
    requires DistinctNames(s) && multiset(s) == multiset(t)
    ensures DistinctNames(t)
  {
    forall i, j | 0 <= i < j < |t| ensures t[i].name != t[j].name {
      assert t[i] in multiset(s) && t[j] in multiset(s);
      if t[i].name == t[j].name {
        SameNameSameProfile(s, t[i], t[j]);
        RearrangedIsDistinct(s, t);
      }
    }
  }

  lemma SupportingIsDistinct(catalog: seq<Profile>, capability: Capability)
    requires DistinctNames(catalog)
    ensures DistinctNames(ForCapability(catalog, capability))
  {
    FilterIsDistinct(catalog, capability);
    PreferenceIsTotal();
    SortIsSorted(ByPreference, Filter(catalog, capability));
    RearrangedNames(Filter(catalog, capability), ForCapability(catalog, capability));
  }

  class ProviderRegistry {
    var providers: map<string, BaseProvider>
    var names: seq<string>    // in order of registration

    ghost predicate Valid()
      reads this
    {
      && Distinct(names)
      && (forall n :: n in names <==> n in providers)
      && (forall n :: n in providers ==> providers[n].profile.name == n)
    }

    constructor ()
      ensures Valid() && providers == map[] && names == []
    {
      providers, names := map[], [];
    }

    function Catalog(): (c: seq<Profile>)
      reads this
      requires Valid()
      ensures |c| == |names|
    {
      seq(|names|, i requires 0 <= i < |names| reads this requires Valid() => providers[names[i]].profile)
    }

    /** A taken name is refused unless the caller asks to replace it. */
    method Register(p: BaseProvider, replace: bool) returns (ok: bool)
      requires Valid()
      modifies this
      ensures Valid()
      ensures ok <==> replace || p.profile.name !in old(providers)
      ensures providers == if ok then old(providers)[p.profile.name := p] else old(providers)
      ensures names == if p.profile.name in old(providers) then old(names) else old(names) + [p.profile.name]
    {
      ok := replace || p.profile.name !in providers;
      if ok {
        if p.profile.name !in providers {
          names := names + [p.profile.name];
        }
        providers := providers[p.profile.name := p];
      }
    }

    lemma CatalogIsDistinct()
      requires Valid()
      ensures DistinctNames(Catalog())
      ensures forall n :: n in providers ==> providers[n].profile in Catalog()
      ensures forall p :: p in Catalog() ==> p.name in providers && providers[p.name].profile == p
    {
      var c := Catalog();
      assert forall i :: 0 <= i < |names| ==> c[i] == providers[names[i]].profile && c[i].name == names[i];
      forall n | n in providers ensures providers[n].profile in c {
        var i :| 0 <= i < |names| && names[i] == n;
        assert c[i] == providers[n].profile;
      }
    }
  }
}
