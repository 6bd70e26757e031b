/** A provider's health as the history of its calls: every field, read off what the vendor has
    answered since the last reply or recovery, with any number of invocations in flight. */
module ProviderHistory {
  import opened Base
  import opened Provider

  /** A failure that is neither a rate limit nor exhausted credit. */
  predicate IsGeneric(e: ProviderError) {
    e.kind == GenericError || e.kind == TimeoutError || e.kind == UnavailableError
  }

  /** A check or call that found the provider out and left it available. */
  predicate Recovers(before: Health, step: Step, after: Health) {
    !step.Finish? && before.status != Available && after.status == Available
  }

  /** The last step of a run starts the count anew: a reply, or a recovery. */
  ghost predicate StartsAnew(p: Profile, run: seq<Step>)
    requires run != [] && ValidRun(p, START, run)
  {
    var last := run[|run| - 1];
    (last.Finish? && last.outcome.Reply?)
    || Recovers(Exec(p, START, run[..|run| - 1]).health, last, Exec(p, START, run).health)
  }

  ghost predicate Fails(run: seq<Step>) {
    run != [] && run[|run| - 1].Finish? && run[|run| - 1].outcome.Raise?
  }

  /** Generic failures recorded since the last reply or recovery. */
  ghost function Streak(p: Profile, run: seq<Step>): nat
    requires ValidRun(p, START, run)
  {
    if run == [] || StartsAnew(p, run) then 0
    else
      Streak(p, run[..|run| - 1]) + if Fails(run) && IsGeneric(run[|run| - 1].outcome.error) then 1 else 0
  }

  /** What keeps the provider out, and until when. */
  datatype Outage = Outage(status: Status, until: Time)

  /** The last failure since then that took it out: a limit, or a generic failure that brought the
      count to the maximum. */
  ghost function LastOutage(p: Profile, run: seq<Step>): Option<Outage>
    requires ValidRun(p, START, run)
  {
    if run == [] || StartsAnew(p, run) then None
    else
      var last := run[|run| - 1];
      if !Fails(run) then LastOutage(p, run[..|run| - 1])
      else if last.outcome.error.kind == RateLimitError then Some(Outage(RateLimited, last.now + p.cooldown))
      else if last.outcome.error.kind == CreditError then Some(Outage(Offline, last.now + p.creditCooldown))
      else if Streak(p, run) >= p.maxConsecutiveFailures then Some(Outage(FailedStatus, last.now + p.cooldown))
      else LastOutage(p, run[..|run| - 1])
  }

  function ErrorText(e: ProviderError): string {
    (match e.kind
     case GenericError => "aine.provider.error"
     case TimeoutError => "aine.provider.timeout"
     case RateLimitError => "aine.provider.rate_limited"
     case CreditError => "aine.provider.credit_exhausted"
     case UnavailableError => "aine.provider.unavailable")
    + ": " + e.text
  }

  /** The text of the last failure since then. */
  ghost function LastFailureText(p: Profile, run: seq<Step>): Option<string>
    requires ValidRun(p, START, run)
  {
    if run == [] || StartsAnew(p, run) then None
    else if Fails(run) then Some(ErrorText(run[|run| - 1].outcome.error))
    else LastFailureText(p, run[..|run| - 1])
  }

  /** When the last reply was recorded. */
  ghost function LastReply(run: seq<Step>): Option<Time> {
    if run == [] then None
    else if run[|run| - 1].Finish? && run[|run| - 1].outcome.Reply? then Some(run[|run| - 1].now)
    else LastReply(run[..|run| - 1])
  }

  /** The fields of a health, as the history has them. */
  ghost predicate Remembers(p: Profile, h: Health, streak: nat, outage: Option<Outage>, error: Option<string>,
                            used: Option<Time>)
  {
    && h.consecutiveFailures == streak && h.lastError == error && h.lastUsedAt == used
    && h.status == (if outage.Some? then outage.value.status else Available)
    && h.cooldownUntil == (if outage.Some? then Some(outage.value.until) else None)
    && (outage.Some? ==> outage.value.status in {RateLimited, Offline, FailedStatus})
    && (outage.Some? && outage.value.status == FailedStatus ==> streak >= p.maxConsecutiveFailures)
  }

  lemma FailureIsRemembered(p: Profile, h: Health, e: ProviderError, now: Time, streak: nat, outage: Option<Outage>,
                            error: Option<string>, used: Option<Time>)
    requires Remembers(p, h, streak, outage, error, used)
    ensures var streak' := streak + if IsGeneric(e) then 1 else 0;
            var outage' := if e.kind == RateLimitError then Some(Outage(RateLimited, now + p.cooldown))
                           else if e.kind == CreditError then Some(Outage(Offline, now + p.creditCooldown))
                           else if streak' >= p.maxConsecutiveFailures then Some(Outage(FailedStatus, now + p.cooldown))
                           else outage;
            Remembers(p, RecordFailure(h, p, e, now), streak', outage', Some(ErrorText(e)), used)
  {
  }

  lemma CheckIsRemembered(p: Profile, h: Health, now: Time, streak: nat, outage: Option<Outage>, error: Option<string>,
                          used: Option<Time>)
    requires Remembers(p, h, streak, outage, error, used)
    ensures var g := Refresh(h, now);
            if h.status != Available && g.status == Available then Remembers(p, g, 0, None, None, used) else g == h
  {
  }

  /** In every interleaving: the failure count, the status with its cooldown, the last error and
      the last use are those of the run's steps and answers. A reply or a recovery starts the
      count anew; a limit does not. */
  lemma {:induction false} HealthIsHistory(p: Profile, run: seq<Step>)
    requires ValidRun(p, START, run)
    ensures Remembers(p, Exec(p, START, run).health, Streak(p, run), LastOutage(p, run), LastFailureText(p, run),
                      LastReply(run))
  {
    if run != [] {
      var before, last := run[..|run| - 1], run[|run| - 1];
      var h := Exec(p, START, before).health;
      HealthIsHistory(p, before);
      if Fails(run) {
        FailureIsRemembered(p, h, last.outcome.error, last.now, Streak(p, before), LastOutage(p, before),
                            LastFailureText(p, before), LastReply(before));
      } else if !last.Finish? {
        CheckIsRemembered(p, h, last.now, Streak(p, before), LastOutage(p, before), LastFailureText(p, before),
                          LastReply(before));
      }
    }
  }

  /** Recording a failure leaves a provider FAILED exactly if it is a generic one and, with those
      since the last reply or recovery, it brings the count to the maximum. */
  lemma FailedExactlyAtMaximum(p: Profile, run: seq<Step>, now: Time, e: ProviderError)
    requires ValidRun(p, START, run) && Exec(p, START, run).inFlight > 0
    ensures Apply(p, Exec(p, START, run), Finish(now, Raise(e))).health.status == FailedStatus <==>
            IsGeneric(e) && Streak(p, run) + 1 >= p.maxConsecutiveFailures
  {
    HealthIsHistory(p, run);
  }
}
