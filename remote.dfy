/**
 * The remote key-value store (an Upstash Redis REST endpoint) as the core
 * sees it: the shape of one HTTP reply, and a model of the store's
 * counters for reasoning about several calls in a row.
 */
module Remote {
  import opened Wrappers

  /** The `result` field of a reply after `Number(...)` coercion:
      missing (or null), a number, or NaN. */
  datatype ResultField = Absent | Num(n: int) | NaN

  /** A response body: either it does not parse as JSON (so `res.json()`
      throws), or it does and carries a `result` field. For a pipeline
      request the field is the one of the reply's first element. */
  datatype ReplyBody = NotJson | Json(result: ResultField)

  /** What one HTTP round trip produced: `fetch` itself rejected, or a
      status code arrived with a body. */
  datatype WireReply = NetworkError | Status(code: int, body: ReplyBody)

  /** `res.ok`: a status in the 2xx range. */
  predicate IsOk(code: int) {
    200 <= code <= 299
  }

  /** The reply a healthy store sends for a command whose result is `n`. */
  function Delivered(n: int): WireReply {
    Status(200, Json(Num(n)))
  }

  /** One counter of the store; `expiresAt` is None while the key has no TTL. */
  datatype Counter = Counter(count: int, expiresAt: Option<int>)

  type Store = map<string, Counter>

  /** A key exists at `now` when it is present and its TTL has not run out. */
  predicate Live(store: Store, key: string, now: int) {
    key in store && (store[key].expiresAt.None? || store[key].expiresAt.value > now)
  }

  /** `GET key` read as a number: an absent or expired key reads as 0. */
  function Read(store: Store, key: string, now: int): int {
    if Live(store, key, now) then store[key].count else 0
  }

  /** The pipeline `INCR key` then `EXPIRE key ttl NX` at time `now` (ms):
      the new store and the count INCR replied with. A key that did not
      exist starts at 1 and receives the TTL; a live key keeps its TTL. */
  function IncrementWithExpiry(store: Store, key: string, ttlSeconds: int, now: int): (r: (Store, int))
    ensures key in r.0 && r.0[key].count == r.1
    ensures r.1 == Read(store, key, now) + 1
    ensures Live(store, key, now) && store[key].expiresAt.Some? ==> r.0[key].expiresAt == store[key].expiresAt
    ensures !(Live(store, key, now) && store[key].expiresAt.Some?) ==> r.0[key].expiresAt == Some(now + ttlSeconds * 1000)
    ensures forall k :: k != key ==> (k in r.0 <==> k in store)
    ensures forall k :: k != key && k in store ==> r.0[k] == store[k]
  {
    var live := Live(store, key, now);
    var n := if live then store[key].count + 1 else 1;
    var expiry := if live && store[key].expiresAt.Some? then store[key].expiresAt
                  else Some(now + ttlSeconds * 1000);
    (store[key := Counter(n, expiry)], n)
  }

  /** `DECR key`: a live key loses one and keeps its TTL; a missing key
      becomes -1 with no TTL. */
  function Decrement(store: Store, key: string, now: int): (r: Store)
    ensures key in r && r[key].count == Read(store, key, now) - 1
    ensures r[key].expiresAt == if Live(store, key, now) then store[key].expiresAt else None
    ensures forall k :: k != key ==> (k in r <==> k in store)
    ensures forall k :: k != key && k in store ==> r[k] == store[k]
  {
    if Live(store, key, now) then store[key := Counter(store[key].count - 1, store[key].expiresAt)]
    else store[key := Counter(-1, None)]
  }

  /** `EXPIRE ... NX` only sets a TTL the key lacks: once the first INCR of
      a window has set it, a later INCR while the key lives leaves the
      expiry where it was, so the window does not slide. */
  lemma ExpiryFixedWithinWindow(store: Store, key: string, ttl1: int, t1: int, ttl2: int, t2: int)
    requires Live(IncrementWithExpiry(store, key, ttl1, t1).0, key, t2)
    ensures var first := IncrementWithExpiry(store, key, ttl1, t1).0;
            IncrementWithExpiry(first, key, ttl2, t2).0[key].expiresAt == first[key].expiresAt
            && first[key].expiresAt.Some?
  {
  }
}
