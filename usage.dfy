/**
 * The daily message quota: a per-plan cap on chat completions, counted in
 * a day-bucketed key, first on the remote store and, when that is not
 * available, on a counter map owned by the running process.
 *
 * The clock, the calendar day and the remote store's replies are inputs:
 * `now` is epoch milliseconds, `date` the `yyyy-MM-dd` stamp of the key,
 * and `reply` what the store answered.
 */
module Usage {
  import opened Wrappers
  import opened Text
  import opened Remote

  datatype PlanTier = Free | Pro

  /** The daily cap of each plan, read once from configuration. */
  datatype PlanLimits = PlanLimits(free: int, pro: int) {
    function Of(plan: PlanTier): int {
      match plan
      case Free => free
      case Pro => pro
    }
  }

  /** The caps used when no limit is configured. */
  const DefaultLimits := PlanLimits(50, 5000)

  const MillisPerDay: int := 86_400_000

  /** The first UTC midnight strictly after `now`. */
  function NextUtcMidnight(now: int): (m: int)
    ensures now < m <= now + MillisPerDay
    ensures m % MillisPerDay == 0
  {
    (now / MillisPerDay + 1) * MillisPerDay
  }

  /** The TTL of a daily counter: whole seconds left until the next UTC
      midnight, but never less than a minute. */
  function SecondsUntilMidnight(now: int): (s: int)
    ensures 60 <= s <= 86400
    ensures s > 60 ==> now + s * 1000 <= NextUtcMidnight(now) < now + (s + 1) * 1000
    ensures s == 60 <==> NextUtcMidnight(now) < now + 61000
  {
    var wholeSeconds := (NextUtcMidnight(now) - now) / 1000;
    if wholeSeconds > 60 then wholeSeconds else 60
  }

  /** The shape `yyyy-MM-dd` of the day stamp in a usage key. */
  predicate IsDayStamp(d: string) {
    |d| == 10 && d[4] == '-' && d[7] == '-'
    && forall i :: 0 <= i < 10 && i != 4 && i != 7 ==> '0' <= d[i] <= '9'
  }

  /** The key of one user's counter for one calendar day. */
  function FormatKey(userId: string, date: string): string {
    "usage:" + userId + ":" + date
  }

  /** Keys of the same user on two different days differ, so each day
      starts its own counter. */
  lemma DistinctDaysDistinctKeys(userId: string, d1: string, d2: string)
    requires d1 != d2
    ensures FormatKey(userId, d1) != FormatKey(userId, d2)
  {
    var prefix := "usage:" + userId + ":";
    assert FormatKey(userId, d1) == prefix + d1 && FormatKey(userId, d2) == prefix + d2;
    if |d1| == |d2| {
      assert (prefix + d1)[|prefix|..] == d1;
      assert (prefix + d2)[|prefix|..] == d2;
    }
  }

  /** With well-formed day stamps, a key determines both its user and its day. */
  lemma FormatKeyInjective(u1: string, d1: string, u2: string, d2: string)
    requires IsDayStamp(d1) && IsDayStamp(d2)
    ensures FormatKey(u1, d1) == FormatKey(u2, d2) <==> u1 == u2 && d1 == d2
  {
    var k1, k2 := FormatKey(u1, d1), FormatKey(u2, d2);
    if k1 == k2 {
      assert |u1| == |u2|;
      assert k1[6..6 + |u1|] == u1;
      assert k2[6..6 + |u2|] == u2;
      assert k1[|k1| - 10..] == d1;
      assert k2[|k2| - 10..] == d2;
    }
  }

  /** What `incrementRedis` hands back: a count, `null` (fall back to
      memory), or an exception that escapes. */
  datatype IncrementOutcome = Count(n: int) | Unavailable | Throws

  /** How `incrementRedis` reads the reply to its INCR + EXPIRE NX pipeline. */
  function ClassifyIncrement(configured: bool, reply: WireReply): (o: IncrementOutcome)
    ensures o.Throws? <==> configured && (reply.NetworkError? || (IsOk(reply.code) && reply.body.NotJson?))
    ensures o.Count? <==> configured && reply.Status? && IsOk(reply.code) && reply.body.Json? && !reply.body.result.NaN?
    ensures o.Count? ==> o.n == (if reply.body.result.Num? then reply.body.result.n else 0)
  {
    if !configured then Unavailable
    else match reply
      case NetworkError => Throws
      case Status(code, body) =>
        if !IsOk(code) then Unavailable
        else match body
          case NotJson => Throws
          case Json(Absent) => Count(0)
          case Json(Num(n)) => Count(n)
          case Json(NaN) => Unavailable
  }

  /** How `getUsageSummary` reads the reply to its GET: every failure,
      caught or not, reads as 0. */
  function SummaryCount(reply: WireReply): (n: int)
    ensures n != 0 ==> reply.Status? && IsOk(reply.code) && reply.body == Json(Num(n))
    ensures reply.Status? && IsOk(reply.code) && reply.body.Json? && reply.body.result.Num? ==> n == reply.body.result.n
  {
    match reply
    case Status(code, Json(Num(n))) => if IsOk(code) then n else 0
    case _ => 0
  }

  /** One record of the fallback map: a count and the instant (ms) at which it lapses. */
  datatype Entry = Entry(count: int, expires: int)

  predicate LiveEntry(entry: Option<Entry>, now: int) {
    entry.Some? && entry.value.expires > now
  }

  function Lookup(memory: map<string, Entry>, key: string): Option<Entry> {
    if key in memory then Some(memory[key]) else None
  }

  /** The count the fallback map shows for an entry at `now`. */
  function MemoryUsed(entry: Option<Entry>, now: int): int {
    if LiveEntry(entry, now) then entry.value.count else 0
  }

  /** What the fallback path does with one entry: admit with the new entry, or deny. */
  datatype FallbackStep = Admit(entry: Entry) | Deny

  /** The fallback counter: an absent or lapsed entry restarts at 1 with a
      fresh expiry; a live entry at the cap denies without changing;
      otherwise the count goes up by one. */
  function FallbackIncrement(entry: Option<Entry>, now: int, ttlSeconds: int, limit: int): (s: FallbackStep)
    ensures s.Deny? <==> LiveEntry(entry, now) && entry.value.count >= limit
    ensures s.Admit? && limit >= 1 && (LiveEntry(entry, now) ==> 1 <= entry.value.count <= limit) ==>
              1 <= s.entry.count <= limit
    ensures !LiveEntry(entry, now) ==> s == Admit(Entry(1, now + ttlSeconds * 1000))
    ensures s.Admit? && LiveEntry(entry, now) ==> s.entry == Entry(entry.value.count + 1, entry.value.expires)
  {
    if !LiveEntry(entry, now) then Admit(Entry(1, now + ttlSeconds * 1000))
    else if entry.value.count >= limit then Deny
    else Admit(Entry(entry.value.count + 1, entry.value.expires))
  }

  /** One call of `recordUsage` as the counter sees it: the TTL it computed
      at its first clock read, and the instant at which the counter is read
      and written. */
  datatype Call = Call(ttlSeconds: int, at: int)

  /** The fallback path applied to one key for a run of calls, with the
      verdict of each call. */
  function Replay(entry: Option<Entry>, calls: seq<Call>, limit: int): (r: (Option<Entry>, seq<bool>))
    ensures |r.1| == |calls|
    decreases |calls|
  {
    if calls == [] then (entry, [])
    else
      var step := FallbackIncrement(entry, calls[0].at, calls[0].ttlSeconds, limit);
      var next := if step.Admit? then Some(step.entry) else entry;
      var rest := Replay(next, calls[1..], limit);
      (rest.0, [step.Admit?] + rest.1)
  }

  function Min(a: int, b: int): int {
    if a <= b then a else b
  }

  /** From a live entry at count c (at most the cap), call i is admitted
      exactly when c + i is under the cap, and the count ends at the cap
      at the latest. */
  lemma {:induction false} ReplayFromLiveEntry(c: int, expires: int, calls: seq<Call>, limit: int)
    requires 1 <= c <= limit
    requires forall i :: 0 <= i < |calls| ==> calls[i].at < expires
    ensures var r := Replay(Some(Entry(c, expires)), calls, limit);
            r.0 == Some(Entry(Min(c + |calls|, limit), expires))
            && forall i :: 0 <= i < |calls| ==> r.1[i] == (c + i < limit)
    decreases |calls|
  {
    if calls != [] {
      var tail := calls[1..];
      assert forall i :: 0 <= i < |tail| ==> tail[i].at < expires by {
        forall i | 0 <= i < |tail| ensures tail[i].at < expires {
          assert tail[i] == calls[i + 1];
        }
      }
      if c < limit {
        ReplayFromLiveEntry(c + 1, expires, tail, limit);
      } else {
        ReplayFromLiveEntry(c, expires, tail, limit);
      }
    }
  }

  /** The daily cap on the fallback path: starting from no live entry, with
      every call before the first call's counter lapses, the first `limit`
      calls succeed and every later one is refused; a summary read in that
      window reports min(calls, limit), and the entry lapses when the
      first call's TTL runs out. */
  lemma DailyCapOnFallback(entry: Option<Entry>, calls: seq<Call>, limit: int)
    requires limit >= 1 && |calls| >= 1
    requires !LiveEntry(entry, calls[0].at)
    requires forall i :: 0 <= i < |calls| ==> calls[i].at < calls[0].at + calls[0].ttlSeconds * 1000
    ensures var r := Replay(entry, calls, limit);
            (forall i :: 0 <= i < |calls| ==> r.1[i] == (i < limit))
            && r.0 == Some(Entry(Min(|calls|, limit), calls[0].at + calls[0].ttlSeconds * 1000))
            && forall t :: t < calls[0].at + calls[0].ttlSeconds * 1000 ==> MemoryUsed(r.0, t) == Min(|calls|, limit)
  {
    var expires := calls[0].at + calls[0].ttlSeconds * 1000;
    var tail := calls[1..];
    assert forall i :: 0 <= i < |tail| ==> tail[i].at < expires by {
      forall i | 0 <= i < |tail| ensures tail[i].at < expires {
        assert tail[i] == calls[i + 1];
      }
    }
    ReplayFromLiveEntry(1, expires, tail, limit);
  }

  /** On the remote path an over-limit INCR followed by its compensating
      DECR leaves the counter where it was, and no other key changes. */
  lemma CompensationRestoresCount(store: Store, key: string, ttlSeconds: int, now: int)
    requires ttlSeconds >= 1
    ensures var after := Decrement(IncrementWithExpiry(store, key, ttlSeconds, now).0, key, now);
            Read(after, key, now) == Read(store, key, now)
            && forall k :: k != key ==> Read(after, k, now) == Read(store, k, now)
  {
  }

  /** The outcome of `recordUsage`: it returns, throws `UsageLimitError`
      (always with `remaining` 0), or lets another error escape. */
  datatype RecordOutcome = Recorded | LimitReached(remaining: int) | Failed

  /** A command the engine sent to the remote store. */
  datatype RemoteCommand = IncrWithExpiry(key: string, ttlSeconds: int) | Decr(key: string) | Get(key: string)

  /** The effect of a run of commands on the store, all applied at `now`. */
  function Apply(store: Store, cmds: seq<RemoteCommand>, now: int): Store
    decreases |cmds|
  {
    if cmds == [] then store
    else
      var next := match cmds[0]
        case IncrWithExpiry(k, ttl) => IncrementWithExpiry(store, k, ttl, now).0
        case Decr(k) => Decrement(store, k, now)
        case Get(_) => store;
      Apply(next, cmds[1..], now)
  }

  /** The remote path of `recordUsage` against a store that answers: the
      INCR + EXPIRE NX pipeline, and over the cap the compensating DECR and
      a refusal. The store ends as the commands `RecordUsage` logs leave it. */
  function RemoteCall(store: Store, key: string, call: Call, limit: int): (r: (Store, RecordOutcome))
    ensures r.1 == Recorded <==> Read(store, key, call.at) + 1 <= limit
    ensures r.1 != Recorded ==> r.1 == LimitReached(0)
    ensures r.0 == Apply(store, [IncrWithExpiry(key, call.ttlSeconds)] + (if r.1 == Recorded then [] else [Decr(key)]), call.at)
    ensures call.ttlSeconds >= 1 && r.1 != Recorded ==> Read(r.0, key, call.at) == Read(store, key, call.at)
  {
    var inc := IncrementWithExpiry(store, key, call.ttlSeconds, call.at);
    var incr := [IncrWithExpiry(key, call.ttlSeconds)];
    assert Apply(store, incr, call.at) == inc.0 by { assert incr[1..] == []; }
    if inc.1 > limit then
      assert Apply(store, incr + [Decr(key)], call.at) == Decrement(inc.0, key, call.at) by {
        var both := incr + [Decr(key)];
        assert both[0] == IncrWithExpiry(key, call.ttlSeconds) && both[1..] == [Decr(key)];
        assert Apply(store, both, call.at) == Apply(inc.0, [Decr(key)], call.at);
        assert [Decr(key)][0] == Decr(key) && [Decr(key)][1..] == [];
        assert Apply(inc.0, [Decr(key)], call.at) == Apply(Decrement(inc.0, key, call.at), [], call.at);
      }
      (Decrement(inc.0, key, call.at), LimitReached(0))
    else
      assert incr + [] == incr;
      (inc.0, Recorded)
  }

  /** What a store that answers sends back to the pipeline reaches
      `recordUsage` as the count INCR replied with. */
  lemma DeliveredIsCount(n: int)
    ensures ClassifyIncrement(true, Delivered(n)) == Count(n)
  {
  }

  /** The remote path for a run of calls on one key, threading the store:
      each call's outcome and the count the key reads right after it. */
  function RemoteReplay(store: Store, key: string, calls: seq<Call>, limit: int): (r: (Store, seq<RecordOutcome>, seq<int>))
    ensures |r.1| == |calls| && |r.2| == |calls|
    ensures forall k :: k != key ==> (k in r.0 <==> k in store)
    ensures forall k :: k != key && k in store ==> r.0[k] == store[k]
    decreases |calls|
  {
    if calls == [] then (store, [], [])
    else
      var step := RemoteCall(store, key, calls[0], limit);
      var rest := RemoteReplay(step.0, key, calls[1..], limit);
      (rest.0, [step.1] + rest.1, [Read(step.0, key, calls[0].at)] + rest.2)
  }

  /** From a live counter at c (at most the cap) whose TTL outlasts every
      call, call i is recorded exactly when c + i is under the cap, the key
      reads min(c + i + 1, cap) after it, and the counter keeps its TTL. */
  lemma {:induction false} RemoteReplayFromLiveCounter(store: Store, key: string, c: int, e: int, calls: seq<Call>, limit: int)
    requires 1 <= c <= limit
    requires key in store && store[key] == Counter(c, Some(e))
    requires forall i :: 0 <= i < |calls| ==> calls[i].at < e
    ensures var r := RemoteReplay(store, key, calls, limit);
            key in r.0 && r.0[key] == Counter(Min(c + |calls|, limit), Some(e))
            && (forall i :: 0 <= i < |calls| ==> r.1[i] == (if c + i < limit then Recorded else LimitReached(0)))
            && (forall i :: 0 <= i < |calls| ==> r.2[i] == Min(c + i + 1, limit))
    decreases |calls|
  {
    if calls != [] {
      var tail := calls[1..];
      CallsBefore(calls, e);
      var step := RemoteCall(store, key, calls[0], limit);
      var c' := if c < limit then c + 1 else c;
      LiveCall(store, key, c, e, calls[0], limit);
      RemoteReplayFromLiveCounter(step.0, key, c', e, tail, limit);
      var rest := RemoteReplay(step.0, key, tail, limit);
      ShiftVerdicts(c, c', limit, step.1, rest.1, Read(step.0, key, calls[0].at), rest.2);
    }
  }

  /** The calls after the first stay before the same instant. */
  lemma CallsBefore(calls: seq<Call>, e: int)
    requires calls != []
    requires forall i :: 0 <= i < |calls| ==> calls[i].at < e
    ensures forall i :: 0 <= i < |calls[1..]| ==> calls[1..][i].at < e
  {
    forall i | 0 <= i < |calls[1..]| ensures calls[1..][i].at < e {
      assert calls[1..][i] == calls[i + 1];
    }
  }

  /** One call against a live counter c within the cap: it goes up by one
      and is recorded, or, at the cap, is refused and stays at c. */
  lemma LiveCall(store: Store, key: string, c: int, e: int, call: Call, limit: int)
    requires 1 <= c <= limit
    requires key in store && store[key] == Counter(c, Some(e))
    requires call.at < e
    ensures var r := RemoteCall(store, key, call, limit);
            var c' := if c < limit then c + 1 else c;
            key in r.0 && r.0[key] == Counter(c', Some(e)) && Read(r.0, key, call.at) == c'
            && r.1 == if c < limit then Recorded else LimitReached(0)
  {
  }

  /** The verdicts and counts of a run are the first call's followed by
      those of the rest, one call later. */
  lemma ShiftVerdicts(c: int, c': int, limit: int, first: RecordOutcome, rest: seq<RecordOutcome>, count: int, counts: seq<int>)
    requires 0 <= c <= limit && c' == (if c < limit then c + 1 else c)
    requires first == (if c < limit then Recorded else LimitReached(0)) && count == c'
    requires forall i :: 0 <= i < |rest| ==> rest[i] == (if c' + i < limit then Recorded else LimitReached(0))
    requires |counts| == |rest| && forall i :: 0 <= i < |counts| ==> counts[i] == Min(c' + i + 1, limit)
    ensures forall i :: 0 <= i < |rest| + 1 ==> ([first] + rest)[i] == (if c + i < limit then Recorded else LimitReached(0))
    ensures forall i :: 0 <= i < |counts| + 1 ==> ([count] + counts)[i] == Min(c + i + 1, limit)
  {
    forall i | 0 < i < |rest| + 1
      ensures ([first] + rest)[i] == (if c + i < limit then Recorded else LimitReached(0))
      ensures ([count] + counts)[i] == Min(c + i + 1, limit)
    {
      assert ([first] + rest)[i] == rest[i - 1];
      assert ([count] + counts)[i] == counts[i - 1];
    }
  }

  /** The daily cap on the remote path: on a key with no live counter, with
      every call before the first call's TTL runs out, the first `limit`
      calls are recorded, every later one is refused with 0 remaining, and
      after each refusal the key reads `limit` again. */
  lemma DailyCapOnRemote(store: Store, key: string, calls: seq<Call>, limit: int)
    requires limit >= 1 && |calls| >= 1
    requires !Live(store, key, calls[0].at)
    requires forall i :: 0 <= i < |calls| ==> calls[i].at < calls[0].at + calls[0].ttlSeconds * 1000
    ensures var r := RemoteReplay(store, key, calls, limit);
            (forall i :: 0 <= i < |calls| ==> r.1[i] == (if i < limit then Recorded else LimitReached(0)))
            && (forall i :: 0 <= i < |calls| ==> r.2[i] == Min(i + 1, limit))
            && Read(r.0, key, calls[|calls| - 1].at) == Min(|calls|, limit)
  {
    var e := calls[0].at + calls[0].ttlSeconds * 1000;
    var tail := calls[1..];
    CallsBefore(calls, e);
    var step := RemoteCall(store, key, calls[0], limit);
    FreshCall(store, key, calls[0], limit);
    RemoteReplayFromLiveCounter(step.0, key, 1, e, tail, limit);
    var rest := RemoteReplay(step.0, key, tail, limit);
    ShiftVerdicts(0, 1, limit, step.1, rest.1, Read(step.0, key, calls[0].at), rest.2);
    assert calls[|calls| - 1].at < e;
  }

  /** The first call on a key with no live counter starts it at 1 with
      its own TTL, and is recorded. */
  lemma FreshCall(store: Store, key: string, call: Call, limit: int)
    requires limit >= 1 && call.ttlSeconds >= 1
    requires !Live(store, key, call.at)
    ensures var r := RemoteCall(store, key, call, limit);
            key in r.0 && r.0[key] == Counter(1, Some(call.at + call.ttlSeconds * 1000))
            && Read(r.0, key, call.at) == 1 && r.1 == Recorded
  {
  }

  datatype UsageSummary = UsageSummary(plan: PlanTier, usedToday: int, dailyLimit: int)

  /** The quota engine of one process: the configuration it read at start,
      its fallback counter map, and the commands it has sent to the store. */
  class UsageEngine {
    const remoteConfigured: bool
    const limits: PlanLimits
    var memory: map<string, Entry>
    var remoteLog: seq<RemoteCommand>

    /** Every fallback counter lies between 1 and the free plan's cap. */
    ghost predicate Valid()
      reads this
    {
      forall k :: k in memory ==> 1 <= memory[k].count <= limits.free
    }

    constructor (remoteConfigured: bool, limits: PlanLimits)
      ensures Valid()
      ensures this.remoteConfigured == remoteConfigured && this.limits == limits
      ensures memory == map[] && remoteLog == []
    {
      this.remoteConfigured := remoteConfigured;
      this.limits := limits;
      memory := map[];
      remoteLog := [];
    }

    /** Counts one chat completion against the daily cap of `plan`. The
        clock is read twice: `now` when the TTL is computed, before the
        store is asked, and `later` when the fallback map is consulted,
        after the store's reply. */
    method RecordUsage(userId: string, plan: PlanTier, date: string, now: int, later: int, reply: WireReply)
      returns (outcome: RecordOutcome)
      requires Valid()
      modifies this
      ensures Valid()
      ensures plan == Pro || limits.Of(plan) <= 0 ==>
                outcome == Recorded && memory == old(memory) && remoteLog == old(remoteLog)
      ensures plan == Free && limits.free > 0 ==>
                var key := FormatKey(userId, date);
                var ttl := SecondsUntilMidnight(now);
                var sent := old(remoteLog) + (if remoteConfigured then [IncrWithExpiry(key, ttl)] else []);
                match ClassifyIncrement(remoteConfigured, reply)
                case Count(n) =>
                  memory == old(memory)
                  && if n > limits.free then outcome == LimitReached(0) && remoteLog == sent + [Decr(key)]
                     else outcome == Recorded && remoteLog == sent
                case Throws =>
                  outcome == Failed && memory == old(memory) && remoteLog == sent
                case Unavailable =>
                  remoteLog == sent
                  && match FallbackIncrement(Lookup(old(memory), key), later, ttl, limits.free)
                     case Admit(e) => outcome == Recorded && memory == old(memory)[key := e]
                     case Deny => outcome == LimitReached(0) && memory == old(memory)
    {
      if plan == Pro {
        return Recorded;
      }
      var dailyLimit := limits.Of(plan);
      var key := FormatKey(userId, date);
      var ttl := SecondsUntilMidnight(now);
      if dailyLimit <= 0 {
        return Recorded;
      }
      if remoteConfigured {
        remoteLog := remoteLog + [IncrWithExpiry(key, ttl)];
      }
      var redisValue := ClassifyIncrement(remoteConfigured, reply);
      match redisValue {
        case Throws =>
          return Failed;
        case Count(n) =>
          if n > dailyLimit {
            remoteLog := remoteLog + [Decr(key)];
            return LimitReached(0);
          }
          return Recorded;
        case Unavailable =>
      }
      var entry := Lookup(memory, key);
      if !LiveEntry(entry, later) {
        memory := memory[key := Entry(1, later + ttl * 1000)];
        return Recorded;
      }
      if entry.value.count >= dailyLimit {
        return LimitReached(0);
      }
      memory := memory[key := Entry(entry.value.count + 1, entry.value.expires)];
      outcome := Recorded;
    }

    /** Today's count for `userId` next to the plan's cap, without counting anything. */
    method GetUsageSummary(userId: string, plan: PlanTier, date: string, now: int, reply: WireReply)
      returns (summary: UsageSummary)
      requires Valid()
      modifies this
      ensures Valid()
      ensures summary.plan == plan && summary.dailyLimit == limits.Of(plan)
      ensures var key := FormatKey(userId, date);
              if remoteConfigured then
                summary.usedToday == SummaryCount(reply)
                && memory == old(memory) && remoteLog == old(remoteLog) + [Get(key)]
              else
                summary.usedToday == MemoryUsed(Lookup(old(memory), key), now)
                && remoteLog == old(remoteLog)
                && memory == if key in old(memory) && !LiveEntry(Lookup(old(memory), key), now)
                             then old(memory) - {key} else old(memory)
      ensures !remoteConfigured ==> 0 <= summary.usedToday <= (if limits.free > 0 then limits.free else 0)
    {
      var dailyLimit := limits.Of(plan);
      var key := FormatKey(userId, date);
      var usedToday := 0;
      if remoteConfigured {
        remoteLog := remoteLog + [Get(key)];
        usedToday := SummaryCount(reply);
      } else {
        var entry := Lookup(memory, key);
        if LiveEntry(entry, now) {
          usedToday := entry.value.count;
        } else if entry.Some? {
          memory := memory - {key};
        }
      }
      summary := UsageSummary(plan, usedToday, dailyLimit);
    }
  }

  /** The `plan` field as a session carries it; anything may be stored there. */
  datatype SessionUser = SessionUser(plan: Option<string>)

  datatype Session = Session(user: Option<SessionUser>)

  /** A session counts as Pro only when its user's plan is exactly "pro";
      a missing session, user or plan means Free. */
  function GetPlanFromSession(session: Option<Session>): (plan: PlanTier)
    ensures plan == Pro <==> session.Some? && session.value.user.Some? && session.value.user.value.plan == Some("pro")
  {
    match session
    case Some(Session(Some(SessionUser(Some(p))))) => if p == "pro" then Pro else Free
    case _ => Free
  }

  /** What the chat route does after recording usage. */
  datatype ChatGate = Proceed | TooManyRequests

  /** The chat route answers 429 only for a reached quota; any other
      failure of `recordUsage` is logged and the request goes on. */
  function GateChatRequest(outcome: RecordOutcome): (gate: ChatGate)
    ensures gate == TooManyRequests <==> outcome.LimitReached?
  {
    match outcome
    case LimitReached(_) => TooManyRequests
    case Recorded => Proceed
    case Failed => Proceed
  }
}
