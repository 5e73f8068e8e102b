/**
 Redis as the program uses it: one map from strings to values of two types, with expiry, shared by
 the limiter and the caches. A command may fail to reach the server, or run and lose its reply.
 */
module RedisStore {
  import opened Wrappers
  import opened TokenBucket
  import opened BucketFaults

  /** Bytes of a response; JSON is an abstract round trip, and several writes in a row leave them `Joined`. */
  datatype Body =
    | UserBody(id: string, email: string, role: string)
    | UsersBody(users: seq<Body>)
    | Text(text: string)
    | Joined(parts: seq<Body>)

  datatype Response = Response(status: int, contentType: string, body: Body)

  /** A threat summary: an assessment of a user, how many records fed it and since when. */
  datatype Report = Report(
    id: string, email: string, role: string, attempts: nat, events: nat, since: Option<int>,
    assessment: string, model: string, generatedAt: int)

  /** The bytes under a cache key: an encoded response, an encoded threat summary, or neither. */
  datatype Payload = Encoded(response: Response) | Summary(summary: Report) | Garbled

  /**
   Decoding a payload as a cached response, or as a threat summary. The JSON of one decodes as the
   other too, with every field empty.
   */
  function DecodeResponse(p: Payload): Option<Response> {
    match p
    case Encoded(r) => Some(r)
    case Summary(_) => Some(Response(0, "", Text("")))
    case Garbled => None
  }

  function DecodeSummary(p: Payload): Option<Report> {
    match p
    case Summary(s) => Some(s)
    case Encoded(_) => Some(Report("", "", "", 0, 0, None, "", "", 0))
    case Garbled => None
  }

  datatype Value = Bucket(hash: Hash) | Blob(payload: Payload)

  datatype Entry = Entry(value: Value, expireAt: Option<int>)

  type Keys = map<string, Entry>

  datatype Link = Up | Down | ReplyLost

  datatype Fault = WrongType | Unreachable

  /** Redis still serves a key at the very millisecond it expires. */
  predicate Serves(db: Keys, key: string, at: int) {
    key in db && (db[key].expireAt.None? || at <= db[key].expireAt.value)
  }

  /** The value a command finds at time `at`: expired keys are gone. */
  function Peek(db: Keys, key: string, at: int): Option<Value> {
    if Serves(db, key, at) then Some(db[key].value) else None
  }

  function HashAt(db: Keys, key: string, at: int): Option<Hash> {
    match Peek(db, key, at)
    case Some(Bucket(h)) => Some(h)
    case _ => None
  }

  predicate HoldsBlob(db: Keys, key: string, at: int) {
    var v := Peek(db, key, at);
    v.Some? && v.value.Blob?
  }

  /** The script's reply: hash commands on a string key are a type error. */
  function ScriptReply(db: Keys, key: string, q: Quota, now: int, at: int): Result<bool, Fault> {
    if HoldsBlob(db, key, at) then Err(WrongType) else Ok(Decide(q, HashAt(db, key, at), now))
  }

  function ScriptKeys(db: Keys, key: string, q: Quota, now: int, at: int): Keys
    requires q.Valid()
  {
    if HoldsBlob(db, key, at) then db
    else db[key := Entry(Bucket(Write(q, HashAt(db, key, at), now)), Some(at + TtlMs(q)))]
  }

  /** `SET` replaces whatever the key held; a TTL that is not positive means no expiry. */
  function SetKeys(db: Keys, key: string, payload: Payload, ttl: int, at: int): Keys {
    db[key := Entry(Blob(payload), if ttl > 0 then Some(at + ttl) else None)]
  }

  /** `GET`: an absent key is a miss, a hash is a type error. */
  function GetReply(db: Keys, key: string, at: int): Result<Option<Payload>, Fault> {
    match Peek(db, key, at)
    case None => Ok(None)
    case Some(Blob(p)) => Ok(Some(p))
    case Some(Bucket(_)) => Err(WrongType)
  }

  /** What a cache finds: a hit needs the server to answer, a stored value, and one that decodes. */
  function CachedPayload(db: Keys, key: string, at: int, link: Link): Option<Payload> {
    if !link.Up? then None
    else
      match GetReply(db, key, at)
      case Ok(found) => found
      case Err(_) => None
  }

  function CachedResponse(db: Keys, key: string, at: int, link: Link): Option<Response> {
    match CachedPayload(db, key, at, link)
    case Some(p) => DecodeResponse(p)
    case None => None
  }

  function CachedSummary(db: Keys, key: string, at: int, link: Link): Option<Report> {
    match CachedPayload(db, key, at, link)
    case Some(p) => DecodeSummary(p)
    case None => None
  }

  /** What `RedisLimiter.Allow` answers, and whether it failed open. */
  datatype Answer = Answer(allowed: bool, failedOpen: bool)

  function AllowAnswer(db: Keys, key: string, q: Quota, now: int, at: int, link: Link): Answer {
    if !q.Valid() then Answer(false, false)
    else if !link.Up? then Answer(true, true)
    else
      match ScriptReply(db, key, q, now, at)
      case Ok(admitted) => Answer(admitted, false)
      case Err(_) => Answer(true, true)
  }

  function AllowKeys(db: Keys, key: string, q: Quota, now: int, at: int, link: Link): Keys {
    if !q.Valid() || link.Down? then db else ScriptKeys(db, key, q, now, at)
  }

  /** What `SET` stored is what `GET` finds, until its TTL runs out and for good without one; other keys are as before. */
  lemma GetAfterSet(db: Keys, key: string, payload: Payload, ttl: int, at: int, other: string, later: int)
    ensures GetReply(SetKeys(db, key, payload, ttl, at), key, later) ==
            if ttl > 0 && later > at + ttl then Ok(None) else Ok(Some(payload))
    ensures other != key ==> GetReply(SetKeys(db, key, payload, ttl, at), other, later) == GetReply(db, other, later)
  {}

  class Redis {
    var db: Keys

    constructor ()
      ensures db == map[]
    {
      db := map[];
    }

    /** The token-bucket script, statement by statement. */
    method RunTokenBucket(key: string, rate: real, burst: int, now: int, at: int) returns (r: Result<bool, Fault>)
      requires rate > 0.0 && burst > 0
      modifies this
      ensures db == ScriptKeys(old(db), key, Quota(rate, burst), now, at)
      ensures r == ScriptReply(old(db), key, Quota(rate, burst), now, at)
    {
      var found := Peek(db, key, at);
      if found.Some? && found.value.Blob? {
        return Err(WrongType);
      }
      var tokens, last := burst as real, now;
      if found.Some? {
        tokens, last := found.value.hash.t, found.value.hash.ts;
      }
      var elapsed := Max(0, now - last) as real / 1000.0;
      tokens := Min(burst as real, tokens + elapsed * rate);
      ghost var q, h := Quota(rate, burst), HashAt(db, key, at);
      assert tokens == Available(q, h, now);
      var allowed := false;
      if tokens >= 1.0 {
        tokens := tokens - 1.0;
        allowed := true;
      }
      var ttlMs := Ceil(burst as real / rate * 1000.0) + 1000;
      db := db[key := Entry(Bucket(Hash(tokens, now)), Some(at + ttlMs))];
      return Ok(allowed);
    }

    /** `RedisCache.Get`: a miss is not an error; a server out of reach or a hash under the key is. */
    method Get(key: string, at: int, link: Link) returns (r: Result<Option<Payload>, Fault>)
      ensures r == Err(Unreachable) <==> !link.Up?
      ensures link.Up? ==> (r == Ok(None) <==> !Serves(db, key, at))
      ensures link.Up? ==> (r == Err(WrongType) <==> Serves(db, key, at) && db[key].value.Bucket?)
      ensures forall p :: r == Ok(Some(p)) <==> link.Up? && Serves(db, key, at) && db[key].value == Blob(p)
    {
      if !link.Up? {
        return Err(Unreachable);
      }
      return GetReply(db, key, at);
    }

    /** `RedisCache.Set` */
    method Set(key: string, payload: Payload, ttl: int, at: int, link: Link) returns (ok: bool)
      modifies this
      ensures db == if link.Down? then old(db) else SetKeys(old(db), key, payload, ttl, at)
      ensures ok <==> link.Up?
    {
      if !link.Down? {
        db := db[key := Entry(Blob(payload), if ttl > 0 then Some(at + ttl) else None)];
      }
      ok := link.Up?;
    }
  }

  class RedisLimiter {
    const rdb: Redis

    constructor (rdb: Redis)
      ensures this.rdb == rdb
    {
      this.rdb := rdb;
    }

    /** Refuses an unusable quota without touching Redis; fails open on any error. */
    method Allow(key: string, ratePerSec: real, burst: int, now: int, at: int, link: Link)
        returns (allowed: bool, failed: bool)
      modifies rdb
      ensures ratePerSec <= 0.0 || burst <= 0 ==> !allowed && !failed && rdb.db == old(rdb.db)
      ensures ratePerSec > 0.0 && burst > 0 ==>
                && (failed <==> !link.Up? || HoldsBlob(old(rdb.db), key, at))
                && (allowed <==> failed || Decide(Quota(ratePerSec, burst), HashAt(old(rdb.db), key, at), now))
      ensures Answer(allowed, failed) == AllowAnswer(old(rdb.db), key, Quota(ratePerSec, burst), now, at, link)
      ensures rdb.db == AllowKeys(old(rdb.db), key, Quota(ratePerSec, burst), now, at, link)
    {
      if ratePerSec <= 0.0 || burst <= 0 {
        return false, false;
      }
      if link.Down? {
        return true, true;
      }
      var r := rdb.RunTokenBucket(key, ratePerSec, burst, now, at);
      if link.ReplyLost? || r.Err? {
        return true, true;
      }
      return r.value, false;
    }
  }
}
