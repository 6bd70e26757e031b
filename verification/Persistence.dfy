/** Provider-health snapshots: the dictionary form and the in-memory store. */
module Persistence {
  import opened Base
  import opened Provider

  datatype Json = Str(text: string) | Num(n: int) | Null

  type Dict = map<string, Json>

  /** How instants are written as text. Reading back what was written is the identity. */
  ghost predicate RoundTrips(iso: Time -> string, parse: string -> Time) {
    forall t :: parse(iso(t)) == t
  }

  // Such a way of writing exists: decimal notation.

  function Decimal(n: nat): (text: string)
    ensures text != [] && forall i :: 0 <= i < |text| ==> '0' <= text[i] <= '9'
  {
    (if n < 10 then [] else Decimal(n / 10)) + [(n % 10 + '0' as int) as char]
  }

  function Value(text: string): int {
    if text == [] then 0 else Value(text[..|text| - 1]) * 10 + (text[|text| - 1] as int - '0' as int)
  }

  lemma {:induction false} DecimalRoundTrip(n: nat)
    ensures Value(Decimal(n)) == n
  {
    var text := Decimal(n);
    if n >= 10 {
      DecimalRoundTrip(n / 10);
      assert text[..|text| - 1] == Decimal(n / 10);
    }
  }

  function Write(t: Time): string {
    if t < 0 then "-" + Decimal(-t) else Decimal(t)
  }

  function Read(text: string): Time {
    if text != [] && text[0] == '-' then -Value(text[1..]) else Value(text)
  }

  lemma WritingRoundTrips()
    ensures RoundTrips(Write, Read)
  {
    forall t ensures Read(Write(t)) == t {
      DecimalRoundTrip(if t < 0 then -t else t);
      assert t < 0 ==> Write(t)[1..] == Decimal(-t);
    }
  }

  function StatusText(s: Status): string {
    match s
    case Available => "AVAILABLE"
    case RateLimited => "RATE_LIMITED"
    case Offline => "OFFLINE"
    case Cooldown => "COOLDOWN"
    case FailedStatus => "FAILED"
  }

  function StatusOf(text: string): Option<Status> {
    if text == "AVAILABLE" then Some(Available)
    else if text == "RATE_LIMITED" then Some(RateLimited)
    else if text == "OFFLINE" then Some(Offline)
    else if text == "COOLDOWN" then Some(Cooldown)
    else if text == "FAILED" then Some(FailedStatus)
    else None
  }

  function TimeField(t: Option<Time>, iso: Time -> string): Json {
    if t.Some? then Str(iso(t.value)) else Null
  }

  function ToDict(h: Health, iso: Time -> string): Dict {
    map["status" := Str(StatusText(h.status)),
        "consecutive_failures" := Num(h.consecutiveFailures),
        "cooldown_until" := TimeField(h.cooldownUntil, iso),
        "tokens_used" := Num(h.tokensUsed),
        "total_requests" := Num(h.totalRequests),
        "total_failures" := Num(h.totalFailures),
        "last_error" := (if h.lastError.Some? then Str(h.lastError.value) else Null),
        "last_used_at" := TimeField(h.lastUsedAt, iso)]
  }

  function Get(d: Dict, key: string): Json {
    if key in d then d[key] else Null
  }

  function TimeOf(j: Json, parse: string -> Time): Option<Time> {
    if j.Str? then Some(parse(j.text)) else None
  }

  predicate HasNumber(d: Dict, key: string) {
    key in d && d[key].Num?
  }

  /** None stands for the exception raised on a missing counter or an unknown status. */
  function FromDict(d: Dict, parse: string -> Time): Option<Health> {
    if "status" !in d || !d["status"].Str? || StatusOf(d["status"].text).None? then None
    else if !HasNumber(d, "consecutive_failures") || !HasNumber(d, "tokens_used")
         || !HasNumber(d, "total_requests") || !HasNumber(d, "total_failures") then None
    else Some(Health(
      StatusOf(d["status"].text).value, d["consecutive_failures"].n,
      TimeOf(Get(d, "cooldown_until"), parse), d["tokens_used"].n, d["total_requests"].n, d["total_failures"].n,
      if Get(d, "last_error").Str? then Some(Get(d, "last_error").text) else None,
      TimeOf(Get(d, "last_used_at"), parse)))
  }

  /** Writing a health and reading it back gives the same health. */
  lemma DictRoundTrip(h: Health, iso: Time -> string, parse: string -> Time)
    requires RoundTrips(iso, parse)
    ensures FromDict(ToDict(h, iso), parse) == Some(h)
  {
    var d := ToDict(h, iso);
    assert StatusOf(StatusText(h.status)) == Some(h.status);
    TimeRoundTrip(h.cooldownUntil, iso, parse);
    TimeRoundTrip(h.lastUsedAt, iso, parse);
  }

  predicate IsStatusName(text: string) {
    text == "AVAILABLE" || text == "RATE_LIMITED" || text == "OFFLINE" || text == "COOLDOWN" || text == "FAILED"
  }

  /** What cannot be read: a status that is missing or unknown, or a missing counter. Absent times
      and errors are read as absent. */
  lemma ReadableIff(d: Dict, parse: string -> Time)
    ensures FromDict(d, parse).Some? <==>
            && "status" in d && d["status"].Str? && IsStatusName(d["status"].text)
            && "consecutive_failures" in d && d["consecutive_failures"].Num? && "tokens_used" in d && d["tokens_used"].Num?
            && "total_requests" in d && d["total_requests"].Num? && "total_failures" in d && d["total_failures"].Num?
    ensures FromDict(d, parse).Some? ==>
              && ("cooldown_until" !in d ==> FromDict(d, parse).value.cooldownUntil == None)
              && ("last_used_at" !in d ==> FromDict(d, parse).value.lastUsedAt == None)
              && ("last_error" !in d ==> FromDict(d, parse).value.lastError == None)
  {
  }

  /** The entries of the dictionary form: the status by its name, numbers as numbers, and null for
      what is absent. */
  lemma DictHas(h: Health, iso: Time -> string)
    ensures var d := ToDict(h, iso);
            && d.Keys == {"status", "consecutive_failures", "cooldown_until", "tokens_used", "total_requests",
                          "total_failures", "last_error", "last_used_at"}
            && (h.status == Available ==> d["status"] == Str("AVAILABLE"))
            && (h.status == RateLimited ==> d["status"] == Str("RATE_LIMITED"))
            && (h.status == Offline ==> d["status"] == Str("OFFLINE"))
            && (h.status == Cooldown ==> d["status"] == Str("COOLDOWN"))
            && (h.status == FailedStatus ==> d["status"] == Str("FAILED"))
            && d["tokens_used"] == Num(h.tokensUsed) && d["total_requests"] == Num(h.totalRequests)
            && d["total_failures"] == Num(h.totalFailures) && d["consecutive_failures"] == Num(h.consecutiveFailures)
            && d["cooldown_until"] == (if h.cooldownUntil.Some? then Str(iso(h.cooldownUntil.value)) else Null)
            && d["last_used_at"] == (if h.lastUsedAt.Some? then Str(iso(h.lastUsedAt.value)) else Null)
            && d["last_error"] == (if h.lastError.Some? then Str(h.lastError.value) else Null)
  {
  }

  lemma TimeRoundTrip(t: Option<Time>, iso: Time -> string, parse: string -> Time)
    requires RoundTrips(iso, parse)
    ensures TimeOf(TimeField(t, iso), parse) == t
  {
    if t.Some? {
      assert parse(iso(t.value)) == t.value;
    }
  }

  class InMemoryProviderStateStore {
    var data: map<string, Health>

    constructor ()
      ensures data == map[]
    {
      data := map[];
    }

    method Save(name: string, h: Health)
      modifies this
      ensures data == old(data)[name := h]
    {
      data := data[name := h];
    }

    method Load(name: string) returns (h: Option<Health>)
      ensures h == if name in data then Some(data[name]) else None
    {
      h := if name in data then Some(data[name]) else None;
    }
  }
}
