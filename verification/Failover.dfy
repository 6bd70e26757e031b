/** The provider manager, one call after another: candidate selection, failover and the
    snapshots that let health survive a restart. */
module Failover {
  import opened Base
  import opened Provider
  import opened Registry
  import opened Persistence

  type Fleet = map<string, Profile>

  /** Live health and stored snapshots, by provider name. */
  datatype World = World(live: map<string, Health>, store: map<string, Health>)

  datatype Invocation = Invocation(
    provider: string, content: string, totalTokens: int, attempts: nat, failedOverFrom: seq<string>)

  /** When the clock is read: at the i-th candidate check, before the i-th attempt and when
      its outcome is recorded. */
  datatype Times = Times(probe: nat -> Time, check: nat -> Time, record: nat -> Time)

  ghost predicate Within(ts: Times, start: Time, end: Time) {
    forall i: nat :: start <= ts.probe(i) <= end && start <= ts.check(i) <= end && start <= ts.record(i) <= end
  }

  ghost predicate Known(names: seq<string>, fleet: Fleet, live: map<string, Health>) {
    fleet.Keys == live.Keys && forall i :: 0 <= i < |names| ==> names[i] in live
  }

  /** The explicit order if given, without unknown names; the default order otherwise. */
  function OrderedNames(supporting: seq<string>, order: Option<seq<string>>): (r: seq<string>)
    ensures forall n :: n in r ==> n in supporting
  {
    if order.None? then supporting
    else KeepKnown(order.value, supporting)
  }

  function KeepKnown(names: seq<string>, known: seq<string>): (r: seq<string>)
    ensures forall n :: n in r <==> n in names && n in known
  {
    if names == [] then []
    else (if names[0] in known then [names[0]] else []) + KeepKnown(names[1..], known)
  }

  /** Dropping unknown names keeps the rest in the caller's order. */
  lemma {:induction false} KeepKnownKeepsOrder(names: seq<string>, more: seq<string>, known: seq<string>)
    ensures KeepKnown(names + more, known) == KeepKnown(names, known) + KeepKnown(more, known)
  {
    if names == [] {
      assert names + more == more;
    } else {
      assert (names + more)[1..] == names[1..] + more;
      KeepKnownKeepsOrder(names[1..], more, known);
    }
  }

  // ---------------------------------------------------------------------------
  // The calls, on values

  /** Checking the first `n` providers in order refreshes each and keeps the usable ones. */
  function Probe(live: map<string, Health>, fleet: Fleet, ordered: seq<string>, n: nat, ts: Times)
    : (r: (map<string, Health>, seq<string>))
    requires n <= |ordered| && fleet.Keys == live.Keys
    requires forall i :: 0 <= i < |ordered| ==> ordered[i] in live
    ensures r.0.Keys == live.Keys
    ensures forall i :: 0 <= i < |r.1| ==> r.1[i] in live
  {
    if n == 0 then (live, [])
    else
      var (before, cands) := Probe(live, fleet, ordered, n - 1, ts);
      var name := ordered[n - 1];
      var h := Refresh(before[name], ts.probe(n - 1));
      (before[name := h], if h.status == Available && HasBudget(h, fleet[name], 0) then cands + [name] else cands)
  }

  lemma ProbeOneMore(live: map<string, Health>, fleet: Fleet, ordered: seq<string>, n: nat, ts: Times)
    requires n < |ordered| && fleet.Keys == live.Keys
    requires forall i :: 0 <= i < |ordered| ==> ordered[i] in live
    ensures var (before, cands) := Probe(live, fleet, ordered, n, ts);
            var h := Refresh(before[ordered[n]], ts.probe(n));
            Probe(live, fleet, ordered, n + 1, ts)
            == (before[ordered[n] := h],
                if h.status == Available && HasBudget(h, fleet[ordered[n]], 0) then cands + [ordered[n]] else cands)
  {
  }

  /** One attempt: the health it leaves and what the manager sees. */
  function Attempt(h: Health, p: Profile, o: Outcome, checked: Time, recorded: Time): (Health, Outcome) {
    var (g, admitted) := Begin(h, checked);
    if admitted then (Record(g, p, o, recorded), o) else (g, Raise(ProviderError(UnavailableError, p.name)))
  }

  /** The world after the first `n` candidates have been attempted; each attempt is saved. */
  function Tried(w: World, fleet: Fleet, cands: seq<string>, n: nat, outcomes: nat -> Outcome, ts: Times): (r: World)
    requires n <= |cands| && fleet.Keys == w.live.Keys
    requires forall i :: 0 <= i < |cands| ==> cands[i] in w.live
    ensures r.live.Keys == w.live.Keys
  {
    if n == 0 then w
    else
      var before := Tried(w, fleet, cands, n - 1, outcomes, ts);
      var name := cands[n - 1];
      var h := Attempt(before.live[name], fleet[name], outcomes(n - 1), ts.check(n - 1), ts.record(n - 1)).0;
      World(before.live[name := h], before.store[name := h])
  }

  /** What the i-th attempt comes to. */
  function Verdict(w: World, fleet: Fleet, cands: seq<string>, i: nat, outcomes: nat -> Outcome, ts: Times): Outcome
    requires i < |cands| && fleet.Keys == w.live.Keys
    requires forall j :: 0 <= j < |cands| ==> cands[j] in w.live
  {
    var name := cands[i];
    Attempt(Tried(w, fleet, cands, i, outcomes, ts).live[name], fleet[name], outcomes(i), ts.check(i), ts.record(i)).1
  }

  /** Candidate `k` is the first one, from `i` on, whose attempt succeeds. */
  ghost predicate FirstReply(w: World, fleet: Fleet, cands: seq<string>, k: nat, outcomes: nat -> Outcome, ts: Times)
    requires fleet.Keys == w.live.Keys && k <= |cands|
    requires forall j :: 0 <= j < |cands| ==> cands[j] in w.live
  {
    && (forall i :: 0 <= i < k ==> Verdict(w, fleet, cands, i, outcomes, ts).Raise?)
    && (k < |cands| ==> Verdict(w, fleet, cands, k, outcomes, ts).Reply?)
  }

  /** Serving from candidates: `k` is the first to succeed, or their number if none does. */
  ghost predicate Serves(start: World, fleet: Fleet, cands: seq<string>, k: nat, outcomes: nat -> Outcome, ts: Times,
                         end: World, r: Option<Invocation>)
    requires fleet.Keys == start.live.Keys
    requires forall j :: 0 <= j < |cands| ==> cands[j] in start.live
  {
    && k <= |cands| && FirstReply(start, fleet, cands, k, outcomes, ts)
    && end == Tried(start, fleet, cands, Min(k + 1, |cands|), outcomes, ts)
    && r == if k == |cands| then None
            else var o := Verdict(start, fleet, cands, k, outcomes, ts);
                 Some(Invocation(cands[k], o.content, o.tokens, k + 1, cands[..k]))
  }

  /** The first `n` candidates have been attempted, and all of them failed. */
  ghost predicate AllFailed(start: World, fleet: Fleet, cands: seq<string>, n: nat, outcomes: nat -> Outcome, ts: Times,
                            now: World)
    requires n <= |cands|
  {
    && fleet.Keys == start.live.Keys
    && (forall j :: 0 <= j < |cands| ==> cands[j] in start.live)
    && now == Tried(start, fleet, cands, n, outcomes, ts)
    && forall i :: 0 <= i < n ==> Verdict(start, fleet, cands, i, outcomes, ts).Raise?
  }

  /** A call of the manager: from `w` to `end` with result `r`. */
  ghost predicate CompletesAs(w: World, fleet: Fleet, ordered: seq<string>, k: nat, outcomes: nat -> Outcome, ts: Times,
                              end: World, r: Option<Invocation>)
    requires Known(ordered, fleet, w.live)
  {
    var (live, cands) := Probe(w.live, fleet, ordered, |ordered|, ts);
    Serves(World(live, w.store), fleet, cands, k, outcomes, ts, end, r)
  }

  /** One more attempt, in terms of the world before it. */
  lemma TriedOneMore(w: World, fleet: Fleet, cands: seq<string>, n: nat, outcomes: nat -> Outcome, ts: Times)
    requires n < |cands| && fleet.Keys == w.live.Keys
    requires forall i :: 0 <= i < |cands| ==> cands[i] in w.live
    ensures var before := Tried(w, fleet, cands, n, outcomes, ts);
            var (h, v) := Attempt(before.live[cands[n]], fleet[cands[n]], outcomes(n), ts.check(n), ts.record(n));
            && Tried(w, fleet, cands, n + 1, outcomes, ts) == World(before.live[cands[n] := h], before.store[cands[n] := h])
            && Verdict(w, fleet, cands, n, outcomes, ts) == v
  {
  }

  /** After the attempt, either one more candidate has failed or the call is served. */
  lemma NextAttempt(start: World, fleet: Fleet, cands: seq<string>, n: nat, outcomes: nat -> Outcome, ts: Times,
                    now: World, h: Health, v: Outcome)
    requires n < |cands| && AllFailed(start, fleet, cands, n, outcomes, ts, now)
    requires (h, v) == Attempt(now.live[cands[n]], fleet[cands[n]], outcomes(n), ts.check(n), ts.record(n))
    ensures var next := World(now.live[cands[n] := h], now.store[cands[n] := h]);
            && (v.Raise? ==> AllFailed(start, fleet, cands, n + 1, outcomes, ts, next))
            && (v.Reply? ==> Serves(start, fleet, cands, n, outcomes, ts, next,
                                    Some(Invocation(cands[n], v.content, v.tokens, n + 1, cands[..n]))))
  {
    TriedOneMore(start, fleet, cands, n, outcomes, ts);
  }

  // ---------------------------------------------------------------------------
  // First success wins

  /** The check at position `i` of the order finds its provider usable: in budget, and available
      at this check or recovered by an earlier one of the same provider. */
  ghost predicate UsableAt(live: map<string, Health>, fleet: Fleet, ordered: seq<string>, i: nat, ts: Times)
    requires i < |ordered| && Known(ordered, fleet, live)
  {
    && HasBudget(live[ordered[i]], fleet[ordered[i]], 0)
    && exists j: nat :: j <= i && ordered[j] == ordered[i] && Refresh(live[ordered[i]], ts.probe(j)).status == Available
  }

  /** Among the first `n` checks was one that found `name` available or recovered it. */
  ghost predicate FoundAvailable(live: map<string, Health>, ordered: seq<string>, n: nat, ts: Times, name: string)
    requires n <= |ordered| && name in live
  {
    live[name].status == Available
    || exists j: nat :: j < n && ordered[j] == name && Refresh(live[name], ts.probe(j)).status == Available
  }

  lemma FoundAvailableNext(live: map<string, Health>, ordered: seq<string>, n: nat, ts: Times, name: string)
    requires n < |ordered| && name in live
    ensures FoundAvailable(live, ordered, n + 1, ts, name) <==>
            FoundAvailable(live, ordered, n, ts, name)
            || (ordered[n] == name && Refresh(live[name], ts.probe(n)).status == Available)
  {
  }

  /** Refreshing a health that is as it was or has recovered. */
  lemma RefreshOnceMore(first: Health, h: Health, now: Time)
    requires h.tokensUsed == first.tokensUsed && (h == first || h.status == Available)
    ensures var g := Refresh(h, now);
            && g.tokensUsed == first.tokensUsed && (g == first || g.status == Available)
            && (g.status == Available <==> h.status == Available || Refresh(first, now).status == Available)
  {
  }

  /** What the checks so far made of one provider. */
  lemma {:induction false} ProbedHealth(live: map<string, Health>, fleet: Fleet, ordered: seq<string>, n: nat, ts: Times,
                                        name: string)
    requires n <= |ordered| && Known(ordered, fleet, live) && name in live
    ensures var h := Probe(live, fleet, ordered, n, ts).0[name];
            && h.tokensUsed == live[name].tokensUsed && (h == live[name] || h.status == Available)
            && (h.status == Available <==> FoundAvailable(live, ordered, n, ts, name))
  {
    if n > 0 {
      ProbedHealth(live, fleet, ordered, n - 1, ts, name);
      FoundAvailableNext(live, ordered, n - 1, ts, name);
      var h := Probe(live, fleet, ordered, n - 1, ts).0[name];
      RefreshOnceMore(live[name], h, ts.probe(n - 1));
      ProbeOneMore(live, fleet, ordered, n - 1, ts);
    }
  }

  /** One more check keeps its position exactly if that is usable. */
  lemma ProbePicksNext(live: map<string, Health>, fleet: Fleet, ordered: seq<string>, i: nat, ts: Times)
    requires i < |ordered| && Known(ordered, fleet, live)
    ensures Probe(live, fleet, ordered, i + 1, ts).1
            == Probe(live, fleet, ordered, i, ts).1 + if UsableAt(live, fleet, ordered, i, ts) then [ordered[i]] else []
  {
    var name := ordered[i];
    var h := Probe(live, fleet, ordered, i, ts).0[name];
    ProbedHealth(live, fleet, ordered, i, ts, name);
    RefreshOnceMore(live[name], h, ts.probe(i));
    FoundAvailableNext(live, ordered, i, ts, name);
    UsableIff(live, fleet, ordered, i, ts);
    ProbeOneMore(live, fleet, ordered, i, ts);
  }

  lemma UsableIff(live: map<string, Health>, fleet: Fleet, ordered: seq<string>, i: nat, ts: Times)
    requires i < |ordered| && Known(ordered, fleet, live)
    ensures UsableAt(live, fleet, ordered, i, ts) <==>
            HasBudget(live[ordered[i]], fleet[ordered[i]], 0) && FoundAvailable(live, ordered, i + 1, ts, ordered[i])
  {
    if live[ordered[i]].status == Available {
      assert Refresh(live[ordered[i]], ts.probe(i)) == live[ordered[i]];
    }
  }

  /** The usable positions among the first `n`, in order. */
  ghost function UsablePositions(live: map<string, Health>, fleet: Fleet, ordered: seq<string>, n: nat, ts: Times)
    : (at: seq<nat>)
    requires n <= |ordered| && Known(ordered, fleet, live)
    ensures forall m :: 0 <= m < |at| ==> at[m] < n
    ensures forall m, m' :: 0 <= m < m' < |at| ==> at[m] < at[m']
    ensures forall i: nat :: i < n ==> (i in at <==> UsableAt(live, fleet, ordered, i, ts))
  {
    if n == 0 then []
    else
      UsablePositions(live, fleet, ordered, n - 1, ts)
      + if UsableAt(live, fleet, ordered, n - 1, ts) then [n - 1] else []
  }

  /** The names at these positions. */
  function At(ordered: seq<string>, at: seq<nat>): seq<string>
    requires forall m :: 0 <= m < |at| ==> at[m] < |ordered|
  {
    seq(|at|, m requires 0 <= m < |at| => ordered[at[m]])
  }

  lemma UsablePositionsNext(live: map<string, Health>, fleet: Fleet, ordered: seq<string>, n: nat, ts: Times)
    requires n < |ordered| && Known(ordered, fleet, live)
    ensures UsablePositions(live, fleet, ordered, n + 1, ts)
            == UsablePositions(live, fleet, ordered, n, ts) + if UsableAt(live, fleet, ordered, n, ts) then [n] else []
  {
  }

  lemma AtNext(ordered: seq<string>, n: nat, usable: bool, cands: seq<string>, at: seq<nat>,
               more: seq<string>, moreAt: seq<nat>)
    requires n < |ordered| && (forall m :: 0 <= m < |at| ==> at[m] < n) && cands == At(ordered, at)
    requires more == cands + (if usable then [ordered[n]] else []) && moreAt == at + (if usable then [n] else [])
    ensures (forall m :: 0 <= m < |moreAt| ==> moreAt[m] < |ordered|) && more == At(ordered, moreAt)
  {
    AtAppend(ordered, at, n);
    assert at + [] == at && cands + [] == cands;
  }

  /** For any order, repeated names included: the candidates are exactly the usable positions of
      the order, in order. */
  lemma {:induction false} ProbePicks(live: map<string, Health>, fleet: Fleet, ordered: seq<string>, n: nat, ts: Times)
    requires n <= |ordered| && Known(ordered, fleet, live)
    ensures Probe(live, fleet, ordered, n, ts).1 == At(ordered, UsablePositions(live, fleet, ordered, n, ts))
  {
    if n > 0 {
      var m, cands, at := n - 1, Probe(live, fleet, ordered, n - 1, ts).1, UsablePositions(live, fleet, ordered, n - 1, ts);
      ProbePicks(live, fleet, ordered, m, ts);
      ProbePicksNext(live, fleet, ordered, m, ts);
      UsablePositionsNext(live, fleet, ordered, m, ts);
      AtNext(ordered, m, UsableAt(live, fleet, ordered, m, ts), cands, at,
             Probe(live, fleet, ordered, n, ts).1, UsablePositions(live, fleet, ordered, n, ts));
    }
  }

  lemma AtAppend(ordered: seq<string>, at: seq<nat>, i: nat)
    requires i < |ordered| && forall m :: 0 <= m < |at| ==> at[m] < |ordered|
    ensures At(ordered, at + [i]) == At(ordered, at) + [ordered[i]]
  {
  }

  /** So the candidates are exactly the listed providers that are available and in budget, and
      no provider is a candidate twice unless it is listed twice. */
  lemma ProbeFinds(live: map<string, Health>, fleet: Fleet, ordered: seq<string>, ts: Times)
    requires Known(ordered, fleet, live)
    ensures var (after, cands) := Probe(live, fleet, ordered, |ordered|, ts);
            && (Distinct(ordered) ==> Distinct(cands))
            && forall name :: name in cands <==>
                 name in ordered && name in after
                 && after[name].status == Available && HasBudget(after[name], fleet[name], 0)
  {
    var n := |ordered|;
    var (after, cands) := Probe(live, fleet, ordered, n, ts);
    ProbePicks(live, fleet, ordered, n, ts);
    forall name | name in ordered
      ensures name in cands <==> after[name].status == Available && HasBudget(after[name], fleet[name], 0)
    {
      ProbedHealth(live, fleet, ordered, n, ts, name);
      FoundIff(live, fleet, ordered, ts, name);
    }
  }

  /** For one listed provider. */
  lemma FoundIff(live: map<string, Health>, fleet: Fleet, ordered: seq<string>, ts: Times, name: string)
    requires Known(ordered, fleet, live) && name in ordered
    ensures name in At(ordered, UsablePositions(live, fleet, ordered, |ordered|, ts)) <==>
            FoundAvailable(live, ordered, |ordered|, ts, name) && HasBudget(live[name], fleet[name], 0)
  {
    var at := UsablePositions(live, fleet, ordered, |ordered|, ts);
    if FoundAvailable(live, ordered, |ordered|, ts, name) && HasBudget(live[name], fleet[name], 0) {
      var i := FirstUse(live, ordered, ts, name);
      assert UsableAt(live, fleet, ordered, i, ts);
      var m :| 0 <= m < |at| && at[m] == i;
      assert At(ordered, at)[m] == name;
    }
    if name in At(ordered, at) {
      var m :| 0 <= m < |at| && At(ordered, at)[m] == name;
      assert at[m] in at;
      UsableIff(live, fleet, ordered, at[m], ts);
    }
  }

  /** A check that finds a provider available, when there is one. */
  lemma FirstUse(live: map<string, Health>, ordered: seq<string>, ts: Times, name: string) returns (i: nat)
    requires name in ordered && name in live && FoundAvailable(live, ordered, |ordered|, ts, name)
    ensures i < |ordered| && ordered[i] == name && Refresh(live[name], ts.probe(i)).status == Available
  {
    if live[name].status == Available {
      i :| i < |ordered| && ordered[i] == name;
    } else {
      i :| i < |ordered| && ordered[i] == name && Refresh(live[name], ts.probe(i)).status == Available;
    }
  }

  /** Checking invokes nobody. */
  lemma {:induction false} ProbeOnlyChecks(live: map<string, Health>, fleet: Fleet, ordered: seq<string>, n: nat, ts: Times)
    requires n <= |ordered| && Known(ordered, fleet, live)
    ensures var after := Probe(live, fleet, ordered, n, ts).0;
            forall name :: name in live ==> after[name].totalRequests == live[name].totalRequests
  {
    if n > 0 {
      ProbeOnlyChecks(live, fleet, ordered, n - 1, ts);
    }
  }

  /** A candidate not yet attempted is as it was. */
  lemma {:induction false} UntriedIsUnchanged(w: World, fleet: Fleet, cands: seq<string>, n: nat,
                                              outcomes: nat -> Outcome, ts: Times, name: string)
    requires n <= |cands| && Known(cands, fleet, w.live) && name in w.live && name !in cands[..n]
    ensures var t := Tried(w, fleet, cands, n, outcomes, ts);
            && t.live[name] == w.live[name]
            && (name in t.store <==> name in w.store)
            && (name in t.store ==> t.store[name] == w.store[name])
  {
    if n > 0 {
      assert cands[..n] == cands[..n - 1] + [cands[n - 1]];
      UntriedIsUnchanged(w, fleet, cands, n - 1, outcomes, ts, name);
    }
  }

  /** Every attempted provider's snapshot is its live health. */
  lemma {:induction false} TriedIsSaved(w: World, fleet: Fleet, cands: seq<string>, n: nat,
                                        outcomes: nat -> Outcome, ts: Times)
    requires n <= |cands| && Known(cands, fleet, w.live)
    ensures var t := Tried(w, fleet, cands, n, outcomes, ts);
            forall i :: 0 <= i < n ==> cands[i] in t.store && t.store[cands[i]] == t.live[cands[i]]
  {
    if n > 0 {
      TriedIsSaved(w, fleet, cands, n - 1, outcomes, ts);
    }
  }

  /** The health of `name` before attempt `n`. */
  function HealthBefore(w: World, fleet: Fleet, cands: seq<string>, n: nat, outcomes: nat -> Outcome, ts: Times, name: string)
    : Health
    requires n <= |cands| && fleet.Keys == w.live.Keys && name in w.live
    requires forall i :: 0 <= i < |cands| ==> cands[i] in w.live
  {
    Tried(w, fleet, cands, n, outcomes, ts).live[name]
  }

  /** The i-th candidate, when its turn comes, is available and its vendor is called. */
  ghost predicate Admitted(w: World, fleet: Fleet, cands: seq<string>, i: nat, outcomes: nat -> Outcome, ts: Times)
    requires i < |cands| && Known(cands, fleet, w.live)
  {
    Begin(HealthBefore(w, fleet, cands, i, outcomes, ts, cands[i]), ts.check(i)).1
  }

  /** A candidate's first attempt is admitted, and the verdict of an attempt is the vendor's own
      outcome if it is admitted. */
  lemma VerdictIsOutcome(w: World, fleet: Fleet, cands: seq<string>, i: nat, outcomes: nat -> Outcome, ts: Times)
    requires i < |cands| && Known(cands, fleet, w.live) && w.live[cands[i]].status == Available
    ensures cands[i] !in cands[..i] ==> Admitted(w, fleet, cands, i, outcomes, ts)
    ensures Verdict(w, fleet, cands, i, outcomes, ts)
            == if Admitted(w, fleet, cands, i, outcomes, ts) then outcomes(i)
               else Raise(ProviderError(UnavailableError, fleet[cands[i]].name))
  {
    if cands[i] !in cands[..i] {
      UntriedIsUnchanged(w, fleet, cands, i, outcomes, ts, cands[i]);
    }
  }

  lemma HealthAfter(w: World, fleet: Fleet, cands: seq<string>, j: nat, outcomes: nat -> Outcome, ts: Times, name: string)
    requires j < |cands| && Known(cands, fleet, w.live) && name in w.live
    ensures HealthBefore(w, fleet, cands, j + 1, outcomes, ts, name)
            == if cands[j] == name
               then Attempt(HealthBefore(w, fleet, cands, j, outcomes, ts, name), fleet[name], outcomes(j),
                            ts.check(j), ts.record(j)).0
               else HealthBefore(w, fleet, cands, j, outcomes, ts, name)
  {
  }

  lemma {:induction false} UntriedSince(w: World, fleet: Fleet, cands: seq<string>, j: nat, n: nat,
                                        outcomes: nat -> Outcome, ts: Times, name: string)
    requires j <= n <= |cands| && Known(cands, fleet, w.live) && name in w.live
    requires forall m :: j <= m < n ==> cands[m] != name
    ensures HealthBefore(w, fleet, cands, n, outcomes, ts, name) == HealthBefore(w, fleet, cands, j, outcomes, ts, name)
    decreases n
  {
    if n > j {
      UntriedSince(w, fleet, cands, j, n - 1, outcomes, ts, name);
      HealthAfter(w, fleet, cands, n - 1, outcomes, ts, name);
    }
  }

  /** A provider listed again after its attempt `j` is admitted at attempt `i` if and only if
      what that attempt left has recovered by then. If the vendor failed, that is: after a
      limit, once its cooldown has passed; after any other failure, if the threshold is not
      reached. */
  lemma RepeatAdmittedIff(w: World, fleet: Fleet, cands: seq<string>, j: nat, i: nat, outcomes: nat -> Outcome, ts: Times)
    requires j < i < |cands| && cands[j] == cands[i] && Known(cands, fleet, w.live)
    requires forall m :: j < m < i ==> cands[m] != cands[i]
    requires Admitted(w, fleet, cands, j, outcomes, ts) && outcomes(j).Raise?
    ensures var p, h := fleet[cands[i]], Refresh(HealthBefore(w, fleet, cands, j, outcomes, ts, cands[i]), ts.check(j));
            Admitted(w, fleet, cands, i, outcomes, ts) <==>
            (match CooldownOf(p, outcomes(j).error.kind)
             case Some(cooldown) => ts.check(i) >= ts.record(j) + cooldown
             case None => h.consecutiveFailures + 1 < p.maxConsecutiveFailures)
  {
    var name := cands[i];
    var h := HealthBefore(w, fleet, cands, j, outcomes, ts, name);
    UntriedSince(w, fleet, cands, j + 1, i, outcomes, ts, name);
    HealthAfter(w, fleet, cands, j, outcomes, ts, name);
    ReadmittedIff(h, fleet[name], outcomes(j), ts.check(j), ts.record(j), ts.check(i));
  }

  /** The same, of one health. */
  lemma ReadmittedIff(h: Health, p: Profile, o: Outcome, checked: Time, recorded: Time, later: Time)
    requires Begin(h, checked).1 && o.Raise?
    ensures Begin(Attempt(h, p, o, checked, recorded).0, later).1 <==>
            match CooldownOf(p, o.error.kind)
            case Some(cooldown) => later >= recorded + cooldown
            case None => Refresh(h, checked).consecutiveFailures + 1 < p.maxConsecutiveFailures
  {
    RecoversAfterFailureIff(p, Begin(h, checked).0, o.error, recorded, later);
  }

  /** Position of the first vendor outcome that is a reply, among the first `n`. */
  ghost predicate FirstOutcome(outcomes: nat -> Outcome, n: nat, k: nat) {
    k <= n && (forall i: nat :: i < k ==> outcomes(i).Raise?) && (k < n ==> outcomes(k).Reply?)
  }

  /** Position of the first admitted candidate whose vendor replies. */
  ghost predicate FirstAnswer(w: World, fleet: Fleet, cands: seq<string>, k: nat, outcomes: nat -> Outcome, ts: Times)
    requires Known(cands, fleet, w.live)
  {
    && k <= |cands|
    && (forall i: nat :: i < k && Admitted(w, fleet, cands, i, outcomes, ts) ==> outcomes(i).Raise?)
    && (k < |cands| ==> Admitted(w, fleet, cands, k, outcomes, ts) && outcomes(k).Reply?)
  }

  /** Serving from available candidates, in terms of the vendors' outcomes alone. */
  lemma ServesFirstSuccess(start: World, fleet: Fleet, cands: seq<string>, k: nat, outcomes: nat -> Outcome, ts: Times,
                           end: World, r: Option<Invocation>)
    requires Known(cands, fleet, start.live)
    requires forall j :: 0 <= j < |cands| ==> start.live[cands[j]].status == Available
    requires Serves(start, fleet, cands, k, outcomes, ts, end, r)
    ensures forall i: nat :: i < |cands| && cands[i] !in cands[..i] ==> Admitted(start, fleet, cands, i, outcomes, ts)
    ensures FirstAnswer(start, fleet, cands, k, outcomes, ts)
    ensures r == if k == |cands| then None
                 else Some(Invocation(cands[k], outcomes(k).content, outcomes(k).tokens, k + 1, cands[..k]))
  {
    forall i: nat | i < |cands|
      ensures cands[i] !in cands[..i] ==> Admitted(start, fleet, cands, i, outcomes, ts)
      ensures Verdict(start, fleet, cands, i, outcomes, ts)
              == if Admitted(start, fleet, cands, i, outcomes, ts) then outcomes(i)
                 else Raise(ProviderError(UnavailableError, fleet[cands[i]].name))
    {
      VerdictIsOutcome(start, fleet, cands, i, outcomes, ts);
    }
  }

  /** With distinct candidates nobody has been tried before. */
  lemma DistinctFirstOutcome(w: World, fleet: Fleet, cands: seq<string>, k: nat, outcomes: nat -> Outcome, ts: Times)
    requires Known(cands, fleet, w.live) && Distinct(cands) && FirstAnswer(w, fleet, cands, k, outcomes, ts)
    requires forall i: nat :: i < |cands| && cands[i] !in cands[..i] ==> Admitted(w, fleet, cands, i, outcomes, ts)
    ensures FirstOutcome(outcomes, |cands|, k)
  {
    forall i: nat | i < k ensures outcomes(i).Raise? {
      assert cands[i] !in cands[..i];
    }
  }

  /** Whoever was attempted has been saved; whoever was not keeps its live health. */
  lemma ServesSaves(start: World, fleet: Fleet, cands: seq<string>, k: nat, outcomes: nat -> Outcome, ts: Times,
                    end: World, r: Option<Invocation>)
    requires Known(cands, fleet, start.live)
    requires Serves(start, fleet, cands, k, outcomes, ts, end, r)
    ensures end.live.Keys == start.live.Keys
    ensures forall i :: 0 <= i < Min(k + 1, |cands|) ==>
              cands[i] in end.store && end.store[cands[i]] == end.live[cands[i]]
    ensures forall name :: name in start.live && name !in cands[..Min(k + 1, |cands|)] ==>
              end.live[name] == start.live[name]
  {
    var n := Min(k + 1, |cands|);
    TriedIsSaved(start, fleet, cands, n, outcomes, ts);
    forall name | name in start.live && name !in cands[..n] ensures end.live[name] == start.live[name] {
      UntriedIsUnchanged(start, fleet, cands, n, outcomes, ts, name);
    }
  }

  /** Failover refines "first success wins", for any order: the result is the first candidate
      that is admitted and whose vendor call succeeds, having failed over from exactly the
      candidates before it; there is no result exactly when there is no such candidate; every
      attempted provider's snapshot is its live health; and no other provider is invoked. A
      candidate is always admitted the first time, so with distinct names only the vendors'
      outcomes count. */
  lemma FirstSuccessWins(w: World, fleet: Fleet, ordered: seq<string>, k: nat, outcomes: nat -> Outcome, ts: Times,
                         end: World, r: Option<Invocation>)
    requires Known(ordered, fleet, w.live)
    requires CompletesAs(w, fleet, ordered, k, outcomes, ts, end, r)
    ensures var (live, cands) := Probe(w.live, fleet, ordered, |ordered|, ts);
            && FirstAnswer(World(live, w.store), fleet, cands, k, outcomes, ts)
            && (forall i: nat :: i < |cands| && cands[i] !in cands[..i] ==>
                  Admitted(World(live, w.store), fleet, cands, i, outcomes, ts))
            && (Distinct(ordered) ==> FirstOutcome(outcomes, |cands|, k))
            && r == (if k == |cands| then None
                     else Some(Invocation(cands[k], outcomes(k).content, outcomes(k).tokens, k + 1, cands[..k])))
    ensures var cands := Probe(w.live, fleet, ordered, |ordered|, ts).1;
            && end.live.Keys == w.live.Keys
            && (forall i :: 0 <= i < Min(k + 1, |cands|) ==>
                  cands[i] in end.store && end.store[cands[i]] == end.live[cands[i]])
            && (forall name :: name in w.live && name !in cands[..Min(k + 1, |cands|)] ==>
                  end.live[name].totalRequests == w.live[name].totalRequests)
  {
    var (live, cands) := Probe(w.live, fleet, ordered, |ordered|, ts);
    ProbeFinds(w.live, fleet, ordered, ts);
    ProbeOnlyChecks(w.live, fleet, ordered, |ordered|, ts);
    ServesFirstSuccess(World(live, w.store), fleet, cands, k, outcomes, ts, end, r);
    ServesSaves(World(live, w.store), fleet, cands, k, outcomes, ts, end, r);
    if Distinct(ordered) {
      DistinctFirstOutcome(World(live, w.store), fleet, cands, k, outcomes, ts);
    }
  }

  // ---------------------------------------------------------------------------
  // Restart equivalence

  /** From `now` on, two healths refresh to the same. */
  ghost predicate SameFrom(a: Health, b: Health, now: Time) {
    forall t :: t >= now ==> Refresh(a, t) == Refresh(b, t)
  }

  /** From `now` on, refreshing a stored snapshot gives what refreshing the live health gives. */
  ghost predicate Restartable(w: World, now: Time) {
    forall name :: name in w.store ==> name in w.live && SameFrom(w.store[name], w.live[name], now)
  }

  lemma RestartableLater(w: World, now: Time, later: Time)
    requires Restartable(w, now) && now <= later
    ensures Restartable(w, later)
  {
    forall name | name in w.store ensures SameFrom(w.store[name], w.live[name], later) {
      assert SameFrom(w.store[name], w.live[name], now);
    }
  }

  /** Refreshing one live provider keeps restarts equivalent from that time on. */
  lemma RefreshKeepsRestartable(w: World, name: string, at: Time, end: Time)
    requires Restartable(w, end) && name in w.live && at <= end
    ensures Restartable(World(w.live[name := Refresh(w.live[name], at)], w.store), end)
  {
    if name in w.store {
      forall t | t >= end ensures Refresh(w.store[name], t) == Refresh(Refresh(w.live[name], at), t) {
        assert SameFrom(w.store[name], w.live[name], end);
        RefreshAbsorbs(w.live[name], at, t);
      }
    }
  }

  lemma {:induction false} ProbeKeepsRestartable(w: World, fleet: Fleet, ordered: seq<string>, n: nat, ts: Times,
                                                 start: Time, end: Time)
    requires n <= |ordered| && Known(ordered, fleet, w.live) && Restartable(w, start)
    requires Within(ts, start, end) && start <= end
    ensures Restartable(World(Probe(w.live, fleet, ordered, n, ts).0, w.store), end)
  {
    if n == 0 {
      RestartableLater(w, start, end);
    } else {
      ProbeKeepsRestartable(w, fleet, ordered, n - 1, ts, start, end);
      var before := World(Probe(w.live, fleet, ordered, n - 1, ts).0, w.store);
      RefreshKeepsRestartable(before, ordered[n - 1], ts.probe(n - 1), end);
    }
  }

  lemma {:induction false} TriedKeepsRestartable(w: World, fleet: Fleet, cands: seq<string>, n: nat,
                                                 outcomes: nat -> Outcome, ts: Times, now: Time)
    requires n <= |cands| && Known(cands, fleet, w.live) && Restartable(w, now)
    ensures Restartable(Tried(w, fleet, cands, n, outcomes, ts), now)
  {
    if n > 0 {
      TriedKeepsRestartable(w, fleet, cands, n - 1, outcomes, ts, now);
    }
  }

  /** One call of the manager with the worlds before and after it. */
  datatype Session = Session(
    before: World, start: Time, ordered: seq<string>, k: nat, outcomes: nat -> Outcome, ts: Times,
    end: Time, after: World, result: Option<Invocation>)

  ghost predicate ValidSession(fleet: Fleet, s: Session) {
    && s.start <= s.end && Within(s.ts, s.start, s.end)
    && Known(s.ordered, fleet, s.before.live)
    && CompletesAs(s.before, fleet, s.ordered, s.k, s.outcomes, s.ts, s.after, s.result)
  }

  /** Sequential calls from fresh providers and an empty store, with a clock that never runs
      backwards. */
  ghost predicate History(fleet: Fleet, sessions: seq<Session>) {
    && (forall i :: 0 <= i < |sessions| ==> ValidSession(fleet, sessions[i]))
    && (sessions != [] ==> sessions[0].before == World(map n | n in fleet :: FRESH, map[]))
    && (forall i :: 0 < i < |sessions| ==>
          sessions[i].before == sessions[i - 1].after && sessions[i - 1].end <= sessions[i].start)
  }

  lemma SessionKeepsRestartable(fleet: Fleet, s: Session)
    requires ValidSession(fleet, s) && Restartable(s.before, s.start)
    ensures Restartable(s.after, s.end)
  {
    var (live, cands) := Probe(s.before.live, fleet, s.ordered, |s.ordered|, s.ts);
    ProbeKeepsRestartable(s.before, fleet, s.ordered, |s.ordered|, s.ts, s.start, s.end);
    TriedKeepsRestartable(World(live, s.before.store), fleet, cands, Min(s.k + 1, |cands|), s.outcomes, s.ts, s.end);
  }

  /** After any history of calls, restarting from the stored snapshots is indistinguishable
      from having stayed up: for every provider ever attempted and every later time. */
  lemma {:induction false} RestartEquivalence(fleet: Fleet, sessions: seq<Session>, i: nat)
    requires History(fleet, sessions) && i < |sessions|
    ensures Restartable(sessions[i].after, sessions[i].end)
  {
    if i > 0 {
      RestartEquivalence(fleet, sessions, i - 1);
      RestartableLater(sessions[i].before, sessions[i - 1].end, sessions[i].start);
    }
    SessionKeepsRestartable(fleet, sessions[i]);
  }

  /** The same through the dictionary form a Redis store keeps. */
  lemma RestartFromDict(fleet: Fleet, sessions: seq<Session>, i: nat, iso: Time -> string, parse: string -> Time,
                        name: string, later: Time)
    requires History(fleet, sessions) && i < |sessions| && RoundTrips(iso, parse)
    requires name in sessions[i].after.store && later >= sessions[i].end
    ensures var w := sessions[i].after;
            var loaded := FromDict(ToDict(w.store[name], iso), parse);
            name in w.live && loaded.Some? && Refresh(loaded.value, later) == Refresh(w.live[name], later)
  {
    var w := sessions[i].after;
    RestartEquivalence(fleet, sessions, i);
    assert SameFrom(w.store[name], w.live[name], sessions[i].end);
    DictRoundTrip(w.store[name], iso, parse);
  }
}
