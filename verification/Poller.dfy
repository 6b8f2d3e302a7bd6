/** linux/core/src/poller: what a response means, and how long to wait after failures. */
module Poller {
  import opened Wrappers
  import opened SqlTime
  import opened Tables

  /** The body of a successful response, as far as the poller is concerned. */
  datatype Body = Unreadable | NotAFeed | Parsed(title: Option<string>, items: seq<NewArticle>)

  datatype Reply =
    | Unreachable
    | Reply(status: nat, etag: Option<string>, lastModified: Option<string>, retryAfter: Option<nat>, body: Body)

  datatype PollOutcome =
    | NotModified
    | Updated(title: Option<string>, etag: Option<string>, lastModified: Option<string>, items: seq<NewArticle>)
    | RateLimited(retryAfter: nat)
    | Error(message: string)

  const DEFAULT_RETRY_AFTER: nat := 300 * SECOND

  /** conditional_get followed by poll_feed. */
  function Classify(reply: Reply): PollOutcome {
    match reply
    case Unreachable => Error("request failed")
    case Reply(status, etag, lastModified, retryAfter, body) =>
      if status == 304 then NotModified
      else if status == 429 || status == 503 then
        RateLimited(if retryAfter.Some? then retryAfter.value else DEFAULT_RETRY_AFTER)
      else if !(200 <= status < 300) then Error("HTTP error status")
      else match body
        case Unreadable => Error("reading body")
        case NotAFeed => Error("parse")
        case Parsed(title, items) => Updated(title, etag, lastModified, items)
  }

  /** What each status means: 304 alone says unchanged, 429 and 503 alone limit the rate, for as long as the server asks
      or five minutes, any 2xx with a readable feed brings it whole, and everything else is a failure. */
  lemma ClassifyMeans(reply: Reply)
    ensures Classify(reply).NotModified? <==> reply.Reply? && reply.status == 304
    ensures Classify(reply).RateLimited? <==> reply.Reply? && (reply.status == 429 || reply.status == 503)
    ensures Classify(reply).RateLimited? && reply.retryAfter.Some? ==>
              Classify(reply).retryAfter == reply.retryAfter.value
    ensures Classify(reply).RateLimited? && reply.retryAfter.None? ==>
              Classify(reply).retryAfter == 300 * 1_000_000_000
    ensures Classify(reply).Updated? <==> reply.Reply? && reply.status / 100 == 2 && reply.body.Parsed?
    ensures Classify(reply).Updated? ==>
              && Classify(reply).title == reply.body.title && Classify(reply).items == reply.body.items
              && Classify(reply).etag == reply.etag && Classify(reply).lastModified == reply.lastModified
  {
  }

  // ----- Backoff ----------------------------------------------------------

  const BACKOFF_BASE: nat := 60
  const BACKOFF_CAP: nat := 21_600
  const DURATION_MAX_SECONDS: nat := 0x1_0000_0000_0000_0000

  function Shift(exp: nat): nat {
    if exp == 0 then 1 else 2 * Shift(exp - 1)
  }

  function Clamp(x: int, lo: int, hi: int): int {
    if x < lo then lo else if x > hi then hi else x
  }

  function Min(a: nat, b: nat): nat {
    if a <= b then a else b
  }

  /** backoff_next in whole seconds, with its clamps, its cast of the factor to u32 and its
      checked multiplication. */
  function BackoffNext(errorCount: int, base: nat): nat {
    var exp := Clamp(errorCount, 0, 16);
    var factor := Shift(Min(exp, 20));
    var product := base * (factor % 0x1_0000_0000);
    if product < DURATION_MAX_SECONDS then Min(product, BACKOFF_CAP) else BACKOFF_CAP
  }

  lemma {:induction false} ShiftAscends(a: nat, b: nat)
    requires a <= b
    ensures 1 <= Shift(a) <= Shift(b)
    decreases b
  {
    if a < b {
      ShiftAscends(a, b - 1);
    } else if a > 0 {
      ShiftAscends(a - 1, b - 1);
    }
  }

  lemma ShiftAt16()
    ensures Shift(8) == 256 && Shift(9) == 512 && Shift(16) == 65_536
  {
    assert Shift(4) == 16;
    assert Shift(8) == 256;
    assert Shift(12) == 4_096;
  }

  /** Neither the second clamp nor the cast to u32 changes a factor the first clamp let through. */
  lemma FactorFits(exp: nat)
    requires exp <= 16
    ensures Shift(Min(exp, 20)) % 0x1_0000_0000 == Shift(exp) <= 65_536
  {
    ShiftAt16();
    ShiftAscends(exp, 16);
  }

  /** For every count, however large or negative, the delay is the capped power of two times a
      minute: no clamp and no cast ever changes the value. */
  lemma BackoffIsCappedPower(errorCount: int)
    ensures BackoffNext(errorCount, BACKOFF_BASE) ==
            Min(60 * Shift(if errorCount < 0 then 0 else errorCount), 21_600)
  {
    var exp := Clamp(errorCount, 0, 16);
    FactorFits(exp);
    if errorCount > 16 {
      ShiftAt16();
      ShiftAscends(exp, errorCount);
    }
  }

  lemma BackoffIsMonotone(a: int, b: int)
    requires a <= b
    ensures BackoffNext(a, BACKOFF_BASE) <= BackoffNext(b, BACKOFF_BASE) <= 21_600
  {
    BackoffIsCappedPower(a);
    BackoffIsCappedPower(b);
    ShiftAscends(if a < 0 then 0 else a, if b < 0 then 0 else b);
  }
}
