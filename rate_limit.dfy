/**
 * The rate limiter: "at most `limit` calls per `windowSeconds` per key",
 * counted by the remote store's INCR with a TTL set on first use. It
 * fails open: only a numeric count above the limit refuses a call, and a
 * refused call is not compensated.
 */
module RateLimit {
  import opened Wrappers
  import opened Remote

  datatype RateLimitOptions = RateLimitOptions(key: string, limit: int, windowSeconds: int)

  /** Why a call was let through without being counted. */
  datatype Reason = StoreError(status: int) | LimiterUnavailable

  datatype RateLimitResult = RateLimitResult(
    success: bool,
    remaining: Option<int>,
    resetAt: Option<int>,
    reason: Option<Reason>)

  /** The counter in the reply to the INCR + EXPIRE NX pipeline, when the
      reply is a 2xx JSON body whose first result is a number or missing
      (read as 0). */
  function ReplyCounter(reply: WireReply): Option<int> {
    match reply
    case Status(code, Json(Absent)) => if IsOk(code) then Some(0) else None
    case Status(code, Json(Num(n))) => if IsOk(code) then Some(n) else None
    case _ => None
  }

  function Max0(x: int): int {
    if x > 0 then x else 0
  }

  /** `enforceRateLimit` for one call at `now` (ms), given whether the
      store is configured and what it replied. */
  function EnforceRateLimit(opts: RateLimitOptions, configured: bool, now: int, reply: WireReply): (r: RateLimitResult)
    // Unconfigured or disabled: allowed, the reply plays no part.
    ensures !configured || opts.limit <= 0 ==>
              r == RateLimitResult(true, Some(opts.limit), Some(now + opts.windowSeconds * 1000), None)
    // The only refusal: a numeric counter above the limit.
    ensures !r.success <==> configured && opts.limit > 0 && ReplyCounter(reply).Some? && ReplyCounter(reply).value > opts.limit
    ensures !r.success ==> r == RateLimitResult(false, Some(0), Some(now + opts.windowSeconds * 1000), None)
    // A counted call within the limit reports what is left, between 0 and the limit.
    ensures configured && opts.limit > 0 && ReplyCounter(reply).Some? && r.success ==>
              var counter := ReplyCounter(reply).value;
              r.remaining == Some(opts.limit - counter) && r.resetAt == Some(now + opts.windowSeconds * 1000)
              && r.reason.None? && 0 <= r.remaining.value && (counter >= 0 ==> r.remaining.value <= opts.limit)
    // Store trouble fails open with a reason and nothing else.
    ensures r.reason.Some? ==> r.success && r.remaining.None? && r.resetAt.None?
    ensures r.reason == Some(LimiterUnavailable) <==>
              configured && opts.limit > 0 && (reply.NetworkError? || (IsOk(reply.code) && reply.body.NotJson?))
    ensures (r.reason.Some? && r.reason.value.StoreError?) <==>
              configured && opts.limit > 0 && reply.Status? && !IsOk(reply.code)
    ensures r.reason.Some? && r.reason.value.StoreError? ==> r.reason.value.status == reply.code
    // A NaN counter: allowed with nothing reported.
    ensures configured && opts.limit > 0 && reply.Status? && IsOk(reply.code) && reply.body == Json(NaN) ==>
              r == RateLimitResult(true, None, None, None)
  {
    var resetAt := now + opts.windowSeconds * 1000;
    if !configured || opts.limit <= 0 then RateLimitResult(true, Some(opts.limit), Some(resetAt), None)
    else match reply
      case NetworkError => RateLimitResult(true, None, None, Some(LimiterUnavailable))
      case Status(code, body) =>
        if !IsOk(code) then RateLimitResult(true, None, None, Some(StoreError(code)))
        else match body
          case NotJson => RateLimitResult(true, None, None, Some(LimiterUnavailable))
          case Json(NaN) => RateLimitResult(true, None, None, None)
          case Json(Absent) => Compare(opts.limit, 0, resetAt)
          case Json(Num(n)) => Compare(opts.limit, n, resetAt)
  }

  /** The verdict on a numeric counter: over the limit refuses. */
  function Compare(limit: int, counter: int, resetAt: int): RateLimitResult {
    if counter > limit then RateLimitResult(false, Some(0), Some(resetAt), None)
    else RateLimitResult(true, Some(Max0(limit - counter)), Some(resetAt), None)
  }

  /** One call against a healthy store: the pipeline runs only when the
      limit is positive (when it is not, the reply passed is never read). */
  function EnforceOnStore(store: Store, opts: RateLimitOptions, now: int): (r: (Store, RateLimitResult))
  {
    if opts.limit <= 0 then (store, EnforceRateLimit(opts, true, now, NetworkError))
    else
      var (after, n) := IncrementWithExpiry(store, opts.key, opts.windowSeconds, now);
      (after, EnforceRateLimit(opts, true, now, Delivered(n)))
  }

  /** Successive calls with the same options at the given instants. */
  function Burst(store: Store, opts: RateLimitOptions, times: seq<int>): (r: (Store, seq<RateLimitResult>))
    ensures |r.1| == |times|
    decreases |times|
  {
    if times == [] then (store, [])
    else
      var step := EnforceOnStore(store, opts, times[0]);
      var rest := Burst(step.0, opts, times[1..]);
      (rest.0, [step.1] + rest.1)
  }

  /** Against a live counter at c, call i sees counter c + i + 1: it
      succeeds while that is within the limit, and denials keep counting. */
  lemma {:induction false} BurstFromLiveCounter(store: Store, opts: RateLimitOptions, times: seq<int>, c: int, expires: int)
    requires opts.limit >= 1
    requires opts.key in store && store[opts.key] == Counter(c, Some(expires))
    requires forall i :: 0 <= i < |times| ==> times[i] < expires
    ensures var r := Burst(store, opts, times).1;
            forall i :: 0 <= i < |times| ==>
              r[i].success == (c + i + 1 <= opts.limit)
              && r[i].remaining == Some(Max0(opts.limit - (c + i + 1)))
    decreases |times|
  {
    if times != [] {
      var step := EnforceOnStore(store, opts, times[0]);
      assert Live(store, opts.key, times[0]);
      assert step.0[opts.key] == Counter(c + 1, Some(expires));
      var tail := times[1..];
      assert forall i :: 0 <= i < |tail| ==> tail[i] < expires by {
        forall i | 0 <= i < |tail| ensures tail[i] < expires {
          assert tail[i] == times[i + 1];
        }
      }
      BurstFromLiveCounter(step.0, opts, tail, c + 1, expires);
      var rest := Burst(step.0, opts, tail).1;
      assert Burst(store, opts, times).1 == [step.1] + rest;
      assert step.1 == Compare(opts.limit, c + 1, times[0] + opts.windowSeconds * 1000);
      forall i | 0 <= i < |times|
        ensures ([step.1] + rest)[i].success == (c + i + 1 <= opts.limit)
        ensures ([step.1] + rest)[i].remaining == Some(Max0(opts.limit - (c + i + 1)))
      {
        if i > 0 {
          assert ([step.1] + rest)[i] == rest[i - 1];
          var j := i - 1;
          assert 0 <= j < |tail|;
          assert Burst(step.0, opts, tail).1[j].success == (c + 1 + j + 1 <= opts.limit);
          assert Burst(step.0, opts, tail).1[j].remaining == Some(Max0(opts.limit - (c + 1 + j + 1)));
          assert opts.limit - (c + 1 + j + 1) == opts.limit - (c + i + 1);
        } else {
          assert ([step.1] + rest)[i] == step.1;
        }
      }
    }
  }

  /** On a fresh key, with every call inside the window the first call
      opened, calls 1..limit succeed with `remaining` limit-1, ..., 0 and
      every later call is refused with `remaining` 0. */
  lemma FreshKeyBurst(store: Store, opts: RateLimitOptions, times: seq<int>)
    requires opts.limit >= 1 && |times| >= 1
    requires !Live(store, opts.key, times[0])
    requires forall i :: 0 <= i < |times| ==> times[i] < times[0] + opts.windowSeconds * 1000
    ensures var r := Burst(store, opts, times).1;
            forall i :: 0 <= i < |times| ==>
              r[i].success == (i < opts.limit) && r[i].remaining == Some(Max0(opts.limit - i - 1))
  {
    var expires := times[0] + opts.windowSeconds * 1000;
    var step := EnforceOnStore(store, opts, times[0]);
    assert step.0[opts.key] == Counter(1, Some(expires));
    var tail := times[1..];
    assert forall i :: 0 <= i < |tail| ==> tail[i] < expires by {
      forall i | 0 <= i < |tail| ensures tail[i] < expires {
        assert tail[i] == times[i + 1];
      }
    }
    BurstFromLiveCounter(step.0, opts, tail, 1, expires);
    var rest := Burst(step.0, opts, tail).1;
    assert Burst(store, opts, times).1 == [step.1] + rest;
    assert step.1 == Compare(opts.limit, 1, expires);
    forall i | 0 <= i < |times|
      ensures ([step.1] + rest)[i].success == (i < opts.limit)
      ensures ([step.1] + rest)[i].remaining == Some(Max0(opts.limit - i - 1))
    {
      if i > 0 {
        var j := i - 1;
        assert ([step.1] + rest)[i] == rest[j];
        assert Burst(step.0, opts, tail).1[j].success == (1 + j + 1 <= opts.limit);
        assert Burst(step.0, opts, tail).1[j].remaining == Some(Max0(opts.limit - (1 + j + 1)));
        assert opts.limit - (1 + j + 1) == opts.limit - i - 1;
      }
    }
  }

  /** The window of the password-reset call sites (one hour), and the
      limit on attempts with one invalid reset token. */
  const ResetWindowSeconds: int := 3600
  const InvalidTokenLimit: int := 5

  /** The invalid-token limit on a fresh key: remaining goes 4, 3, 2, 1, 0,
      then the sixth call in the same window is refused. */
  lemma FivePerWindow(store: Store, key: string, t: int)
    requires !Live(store, key, t)
    ensures var r := Burst(store, RateLimitOptions(key, InvalidTokenLimit, ResetWindowSeconds), [t, t, t, t, t, t]).1;
            r[0].remaining == Some(4) && r[1].remaining == Some(3) && r[2].remaining == Some(2)
            && r[3].remaining == Some(1) && r[4].remaining == Some(0)
            && r[0].success && r[1].success && r[2].success && r[3].success && r[4].success
            && !r[5].success && r[5].remaining == Some(0)
  {
    FreshKeyBurst(store, RateLimitOptions(key, InvalidTokenLimit, ResetWindowSeconds), [t, t, t, t, t, t]);
  }

  /** A call on one key leaves every other key's counter, and hence the
      verdict of any later call on that key, as it was. */
  lemma KeysAreIndependent(store: Store, a: RateLimitOptions, b: RateLimitOptions, ta: int, tb: int)
    requires a.key != b.key
    ensures var s1 := EnforceOnStore(store, a, ta).0;
            (b.key in s1 <==> b.key in store) && (b.key in store ==> s1[b.key] == store[b.key])
            && EnforceOnStore(s1, b, tb).1 == EnforceOnStore(store, b, tb).1
  {
    var s1 := EnforceOnStore(store, a, ta).0;
    assert Live(s1, b.key, tb) == Live(store, b.key, tb);
  }


  /** The keys the password-reset routes count under. */
  function ForgotPasswordIpKey(ip: string): string { "password-reset:ip:" + ip }
  function ForgotPasswordUserKey(userId: string): string { "password-reset:user:" + userId }
  function ResetPasswordIpKey(ip: string): string { "password-reset:reset:ip:" + ip }
  function InvalidTokenKey(tokenHash: string): string { "password-reset:invalid-token:" + tokenHash }

  /** The four call sites never share a counter, whatever the IPs, users
      and token hashes. */
  lemma CallSiteKeysDisjoint(ip1: string, ip2: string, user: string, hash: string)
    ensures ForgotPasswordIpKey(ip1) != ForgotPasswordUserKey(user)
    ensures ForgotPasswordIpKey(ip1) != ResetPasswordIpKey(ip2)
    ensures ForgotPasswordIpKey(ip1) != InvalidTokenKey(hash)
    ensures ForgotPasswordUserKey(user) != ResetPasswordIpKey(ip2)
    ensures ForgotPasswordUserKey(user) != InvalidTokenKey(hash)
    ensures ResetPasswordIpKey(ip2) != InvalidTokenKey(hash)
  {
    assert ForgotPasswordIpKey(ip1)[15] == 'i' && ForgotPasswordIpKey(ip1)[16] == 'p';
    assert ForgotPasswordUserKey(user)[15] == 'u';
    assert ResetPasswordIpKey(ip2)[15] == 'r';
    assert InvalidTokenKey(hash)[15] == 'i' && InvalidTokenKey(hash)[16] == 'n';
  }
}
