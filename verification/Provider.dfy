/** One provider: its health, the status machine with its clock, and any number of
    invocations in flight. */
module Provider {
  import opened Base

  datatype Capability = Architecture | CodeGeneration | Review | Analysis | Extraction | Embedding

  datatype Status = Available | RateLimited | Offline | Cooldown | FailedStatus

  /** Instants and spans of time, in microseconds: the resolution of the program's clock. */
  type Time = int

  datatype Health = Health(
    status: Status, consecutiveFailures: int, cooldownUntil: Option<Time>, tokensUsed: int,
    totalRequests: int, totalFailures: int, lastError: Option<string>, lastUsedAt: Option<Time>)

  const FRESH := Health(Available, 0, None, 0, 0, 0, None, None)

  datatype Profile = Profile(
    name: string, capabilities: set<Capability>, cost: real, contextWindow: int, weight: real,
    maxConsecutiveFailures: int, cooldown: Time, creditCooldown: Time, budget: Option<int>)

  datatype ErrorKind = GenericError | TimeoutError | RateLimitError | CreditError | UnavailableError

  datatype ProviderError = ProviderError(kind: ErrorKind, text: string)

  /** What an invocation of the vendor comes to. */
  datatype Outcome = Reply(content: string, tokens: int) | Raise(error: ProviderError)

  function Code(k: ErrorKind): string {
    match k
    case GenericError => "aine.provider.error"
    case TimeoutError => "aine.provider.timeout"
    case RateLimitError => "aine.provider.rate_limited"
    case CreditError => "aine.provider.credit_exhausted"
    case UnavailableError => "aine.provider.unavailable"
  }

  function Refresh(h: Health, now: Time): Health {
    if h.status in {Cooldown, RateLimited, Offline} && h.cooldownUntil.Some? && now >= h.cooldownUntil.value
    then h.(status := Available, consecutiveFailures := 0, cooldownUntil := None, lastError := None)
    else h
  }

  function RemainingBudget(h: Health, budget: Option<int>): Option<int> {
    if budget.None? then None else Some(Max(0, budget.value - h.tokensUsed))
  }

  function HasBudget(h: Health, p: Profile, estimated: int): bool {
    var remaining := RemainingBudget(h, p.budget);
    remaining.None? || (remaining.value > 0 && remaining.value >= estimated)
  }

  /** Something must be left, and at least what the caller estimates. */
  lemma HasBudgetIff(h: Health, p: Profile, estimated: int)
    ensures HasBudget(h, p, estimated) <==>
            p.budget.Some? ==> h.tokensUsed < p.budget.value && h.tokensUsed + estimated <= p.budget.value
  {
  }

  function RecordSuccess(h: Health, now: Time, tokens: int): Health {
    h.(status := Available, consecutiveFailures := 0, cooldownUntil := None, lastError := None,
       lastUsedAt := Some(now), tokensUsed := h.tokensUsed + tokens)
  }

  function RecordFailure(h: Health, p: Profile, e: ProviderError, now: Time): Health {
    var g := h.(totalFailures := h.totalFailures + 1, lastError := Some(Code(e.kind) + ": " + e.text));
    match e.kind
    case RateLimitError => g.(status := RateLimited, cooldownUntil := Some(now + p.cooldown))
    case CreditError => g.(status := Offline, cooldownUntil := Some(now + p.creditCooldown))
    case _ =>
      var f := g.(consecutiveFailures := g.consecutiveFailures + 1);
      if f.consecutiveFailures >= p.maxConsecutiveFailures
      then f.(status := FailedStatus, cooldownUntil := Some(now + p.cooldown))
      else f
  }

  /** Admitting an invocation: the health just before the vendor is called, or unavailable. */
  function Begin(h: Health, now: Time): (Health, bool) {
    var g := Refresh(h, now);
    if g.status == Available then (g.(totalRequests := g.totalRequests + 1), true) else (g, false)
  }

  function Record(h: Health, p: Profile, o: Outcome, now: Time): Health {
    match o
    case Reply(_, tokens) => RecordSuccess(h, now, tokens)
    case Raise(e) => RecordFailure(h, p, e, now)
  }

  class BaseProvider {
    const profile: Profile
    var health: Health

    constructor (profile: Profile)
      ensures this.profile == profile && health == FRESH
    {
      this.profile := profile;
      health := FRESH;
    }

    method RefreshAt(now: Time) returns (recovered: bool)
      modifies this
      ensures health == Refresh(old(health), now)
      ensures recovered <==> health != old(health)
    {
      recovered := false;
      if health.status in {Cooldown, RateLimited, Offline} && health.cooldownUntil.Some?
         && now >= health.cooldownUntil.value {
        health := health.(status := Available);
        health := health.(consecutiveFailures := 0);
        health := health.(cooldownUntil := None);
        health := health.(lastError := None);
        recovered := true;
      }
    }

    method IsAvailable(now: Time) returns (r: bool)
      modifies this
      ensures health == Refresh(old(health), now) && (r <==> health.status == Available)
    {
      var recovered := RefreshAt(now);
      r := health.status == Available;
    }

    /** One call of `complete`: the verdict, and the health it leaves behind. The clock is
        read once for the check and once when the outcome is recorded. */
    method Complete(o: Outcome, checked: Time, recorded: Time) returns (verdict: Outcome)
      modifies this
      ensures var (h, admitted) := Begin(old(health), checked);
              && health == (if admitted then Record(h, profile, o, recorded) else h)
              && verdict == (if admitted then o else Raise(ProviderError(UnavailableError, profile.name)))
    {
      var available := IsAvailable(checked);
      if !available {
        return Raise(ProviderError(UnavailableError, profile.name));
      }
      health := health.(totalRequests := health.totalRequests + 1);
      match o {
        case Raise(e) => RecordFailureAt(e, recorded);
        case Reply(_, tokens) => RecordSuccessAt(tokens, recorded);
      }
      verdict := o;
    }

    method RecordSuccessAt(tokens: int, now: Time)
      modifies this
      ensures health == RecordSuccess(old(health), now, tokens)
    {
      health := health.(status := Available);
      health := health.(consecutiveFailures := 0);
      health := health.(cooldownUntil := None);
      health := health.(lastError := None);
      health := health.(lastUsedAt := Some(now));
      health := health.(tokensUsed := health.tokensUsed + tokens);
    }

    method RecordFailureAt(e: ProviderError, now: Time)
      modifies this
      ensures health == RecordFailure(old(health), profile, e, now)
    {
      health := health.(totalFailures := health.totalFailures + 1);
      health := health.(lastError := Some(Code(e.kind) + ": " + e.text));
      if e.kind.RateLimitError? {
        health := health.(status := RateLimited);
        health := health.(cooldownUntil := Some(now + profile.cooldown));
        return;
      }
      if e.kind.CreditError? {
        health := health.(status := Offline);
        health := health.(cooldownUntil := Some(now + profile.creditCooldown));
        return;
      }
      health := health.(consecutiveFailures := health.consecutiveFailures + 1);
      if health.consecutiveFailures >= profile.maxConsecutiveFailures {
        health := health.(status := FailedStatus);
        health := health.(cooldownUntil := Some(now + profile.cooldown));
      }
    }
  }

  // ---------------------------------------------------------------------------
  // Any number of invocations in flight

  datatype State = State(health: Health, inFlight: nat)

  const START := State(FRESH, 0)

  datatype Step =
    | Check(now: Time)                       // an availability check
    | Invoke(now: Time)                      // up to the call of the vendor
    | Finish(now: Time, outcome: Outcome)    // the vendor's answer is recorded

  predicate Enabled(s: State, step: Step) {
    step.Finish? ==> s.inFlight > 0
  }

  function Apply(p: Profile, s: State, step: Step): State
    requires Enabled(s, step)
  {
    match step
    case Check(now) => s.(health := Refresh(s.health, now))
    case Invoke(now) =>
      var (h, admitted) := Begin(s.health, now);
      State(h, if admitted then s.inFlight + 1 else s.inFlight)
    case Finish(now, o) => State(Record(s.health, p, o, now), s.inFlight - 1)
  }

  ghost predicate ValidRun(p: Profile, s: State, run: seq<Step>)
    decreases |run|, 0
  {
    run != [] ==>
      ValidRun(p, s, run[..|run| - 1]) && Enabled(Exec(p, s, run[..|run| - 1]), run[|run| - 1])
  }

  ghost function Exec(p: Profile, s: State, run: seq<Step>): State
    requires ValidRun(p, s, run)
    decreases |run|, 1
  {
    if run == [] then s else Apply(p, Exec(p, s, run[..|run| - 1]), run[|run| - 1])
  }

  function Successes(run: seq<Step>): nat {
    if run == [] then 0
    else Successes(run[..|run| - 1])
         + if run[|run| - 1].Finish? && run[|run| - 1].outcome.Reply? then 1 else 0
  }

  function Tokens(run: seq<Step>): int {
    if run == [] then 0
    else Tokens(run[..|run| - 1])
         + if run[|run| - 1].Finish? && run[|run| - 1].outcome.Reply? then run[|run| - 1].outcome.tokens else 0
  }

  /** What every reachable health satisfies. */
  predicate Consistent(p: Profile, h: Health) {
    && (h.status == Available <==> h.cooldownUntil.None?)
    && h.status != Cooldown
    && h.consecutiveFailures >= 0
    && (h.status == Available && p.maxConsecutiveFailures >= 1 ==> h.consecutiveFailures < p.maxConsecutiveFailures)
  }

  /** In every interleaving: requests are successes, failures and invocations in flight;
      the token count is the sum of the successful responses; a provider is AVAILABLE
      exactly when it has no cooldown, and then below its failure threshold. The COOLDOWN
      status never occurs. */
  lemma {:induction false} HealthIsAccounted(p: Profile, run: seq<Step>)
    requires ValidRun(p, START, run)
    ensures var s := Exec(p, START, run);
            && s.health.totalRequests == Successes(run) + s.health.totalFailures + s.inFlight
            && s.health.tokensUsed == Tokens(run)
            && Consistent(p, s.health)
  {
    if run != [] {
      HealthIsAccounted(p, run[..|run| - 1]);
    }
  }

  /** Refreshing at a later time makes an earlier refresh redundant. */
  lemma RefreshAbsorbs(h: Health, early: Time, late: Time)
    requires early <= late
    ensures Refresh(Refresh(h, early), late) == Refresh(h, late)
  {
  }

  /** Every step of the run is made before `until`. */
  predicate Before(run: seq<Step>, until: Time) {
    forall i :: 0 <= i < |run| ==> run[i].now < until
  }

  predicate NothingAnswered(run: seq<Step>) {
    forall i :: 0 <= i < |run| ==> !run[i].Finish?
  }

  /** Availability checks and attempted calls made before the cooldown ends change nothing,
      so a rate-limited or offline provider becomes available at exactly the first check
      made at or after `cooldown_until`. */
  lemma {:induction false} RecoversExactlyAtCooldown(p: Profile, s: State, until: Time, run: seq<Step>, now: Time)
    requires s.health.status in {RateLimited, Offline} && s.health.cooldownUntil == Some(until)
    requires ValidRun(p, s, run) && Before(run, until) && NothingAnswered(run)
    ensures Exec(p, s, run) == s
    ensures Refresh(Exec(p, s, run).health, now).status == Available <==> now >= until
  {
    if run != [] {
      RecoversExactlyAtCooldown(p, s, until, run[..|run| - 1], now);
    }
  }

  /** How long a failure of this kind keeps the provider out, if it has a time limit. */
  function CooldownOf(p: Profile, k: ErrorKind): Option<Time> {
    match k
    case RateLimitError => Some(p.cooldown)
    case CreditError => Some(p.creditCooldown)
    case _ => None
  }

  lemma LimitSetsCooldown(p: Profile, h: Health, e: ProviderError, now: Time)
    requires CooldownOf(p, e.kind).Some?
    ensures RecordFailure(h, p, e, now).status in {RateLimited, Offline}
    ensures RecordFailure(h, p, e, now).cooldownUntil == Some(now + CooldownOf(p, e.kind).value)
  {
  }

  /** When a failure recorded at `now` no longer stands in the way: after a limit, from the end
      of its cooldown; after any other failure, at once if the threshold is not reached, and
      otherwise never. */
  lemma RecoversAfterFailureIff(p: Profile, h: Health, e: ProviderError, now: Time, later: Time)
    requires h.status == Available
    ensures Refresh(RecordFailure(h, p, e, now), later).status == Available <==>
            match CooldownOf(p, e.kind)
            case Some(cooldown) => later >= now + cooldown
            case None => h.consecutiveFailures + 1 < p.maxConsecutiveFailures
  {
  }

  /** A rate limit recorded at `now` keeps the provider out for its cooldown, credit exhaustion
      for its own, whatever is checked or called meanwhile, as long as nothing in flight is
      answered; from then on the first check recovers it. */
  lemma LimitLastsItsCooldown(p: Profile, h: Health, e: ProviderError, now: Time, n: nat, run: seq<Step>, later: Time)
    requires CooldownOf(p, e.kind).Some?
    requires ValidRun(p, State(RecordFailure(h, p, e, now), n), run)
    requires Before(run, now + CooldownOf(p, e.kind).value) && NothingAnswered(run)
    ensures Refresh(Exec(p, State(RecordFailure(h, p, e, now), n), run).health, later).status == Available
            <==> later >= now + CooldownOf(p, e.kind).value
  {
    LimitSetsCooldown(p, h, e, now);
    RecoversExactlyAtCooldown(p, State(RecordFailure(h, p, e, now), n), now + CooldownOf(p, e.kind).value, run, later);
  }

  /** A limit can end before its cooldown if and only if an invocation is still in flight, whose
      success then ends it. */
  lemma LimitEndsEarlyIff(p: Profile, s: State, until: Time)
    requires s.health.status in {RateLimited, Offline} && s.health.cooldownUntil == Some(until)
    ensures (exists run :: ValidRun(p, s, run) && Before(run, until) && Exec(p, s, run).health.status == Available)
            <==> s.inFlight > 0
  {
    if s.inFlight > 0 {
      var run := [Finish(until - 1, Reply("", 0))];
      assert run[..|run| - 1] == [] && ValidRun(p, s, []) && Exec(p, s, []) == s;
      assert Exec(p, s, run) == Apply(p, s, run[0]);
      assert ValidRun(p, s, run) && Before(run, until) && Exec(p, s, run).health.status == Available;
    } else {
      forall run | ValidRun(p, s, run) && Before(run, until) ensures Exec(p, s, run).health.status != Available {
        NothingFinishes(p, s, until, run);
      }
    }
  }

  lemma {:induction false} NothingFinishes(p: Profile, s: State, until: Time, run: seq<Step>)
    requires s.health.status in {RateLimited, Offline} && s.health.cooldownUntil == Some(until) && s.inFlight == 0
    requires ValidRun(p, s, run) && Before(run, until)
    ensures Exec(p, s, run) == s
  {
    if run != [] {
      var last := run[|run| - 1];
      NothingFinishes(p, s, until, run[..|run| - 1]);
      assert Enabled(s, last) && last.now < until;
    }
  }

  /** With nothing in flight a FAILED provider keeps its health for good, whatever checks and
      calls are made at whatever times. */
  lemma {:induction false} FailedIsAbsorbing(p: Profile, h: Health, run: seq<Step>)
    requires h.status == FailedStatus && ValidRun(p, State(h, 0), run)
    ensures Exec(p, State(h, 0), run) == State(h, 0)
  {
    if run != [] {
      FailedIsAbsorbing(p, h, run[..|run| - 1]);
    }
  }

  /** A FAILED provider can recover if and only if an invocation is still in flight: no
      cooldown ends the status, only a late success does. */
  lemma FailedRecoversIff(p: Profile, s: State)
    requires s.health.status == FailedStatus
    ensures (exists run :: ValidRun(p, s, run) && Exec(p, s, run).health.status == Available) <==> s.inFlight > 0
  {
    if s.inFlight > 0 {
      var run := [Finish(0, Reply("", 0))];
      assert run[..0] == [] && ValidRun(p, s, run[..0]);
      assert Exec(p, s, run).health.status == Available;
    } else {
      forall run | ValidRun(p, s, run) ensures Exec(p, s, run).health.status == FailedStatus {
        FailedIsAbsorbing(p, s.health, run);
      }
    }
  }
}
