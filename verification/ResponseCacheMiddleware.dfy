/** The response-cache middleware on a live Redis, statement by statement. */
module ResponseCacheMiddleware {
  import opened Wrappers
  import opened Keyspace
  import opened RedisStore

  datatype CacheHeader = Hit | Miss

  /** Several writes leave their bytes joined. */
  function Join(parts: seq<Body>): Body {
    if |parts| == 1 then parts[0] else Joined(parts)
  }

  /** No write is lost or confused: a body tells which writes left it. */
  lemma JoinKeepsWrites(a: seq<Body>, b: seq<Body>)
    requires forall p | p in a + b :: !p.Joined?
    ensures Join(a) == Join(b) ==> a == b
  {
    if |a| == 1 { assert a[0] in a + b; }
    if |b| == 1 { assert b[0] in a + b; }
  }

  /** What a handler does to its writer: status and content type, then its writes; it may abort. */
  datatype Handling = Handling(status: int, contentType: string, writes: seq<Body>, aborts: bool) {
    function Answer(): Response {
      Response(status, contentType, Join(writes))
    }
  }

  /** The writer gin hands to a handler; `cache` is its `X-Cache` header. */
  class ResponseWriter {
    var status: int
    var contentType: string
    var cache: Option<CacheHeader>
    var written: seq<Body>

    constructor ()
      ensures Untouched()
    {
      status, contentType, cache, written := 200, "", None, [];
    }

    predicate Untouched()
      reads this
    {
      status == 200 && contentType == "" && cache == None && written == []
    }

    /** What the client has received. */
    function Sent(): Response
      reads this
    {
      Response(status, contentType, Join(written))
    }

    method Write(b: Body)
      modifies this`written
      ensures written == old(written) + [b]
    {
      written := written + [b];
    }
  }

  /** `captureWriter`: tees what the handler writes into a buffer. */
  class CaptureWriter {
    const inner: ResponseWriter
    var body: seq<Body>
    ghost const before: seq<Body>

    /** The buffer holds exactly what the client has been sent through this writer. */
    ghost predicate Valid()
      reads this, inner
    {
      inner.written == before + body
    }

    constructor (inner: ResponseWriter)
      ensures Valid() && this.inner == inner && body == [] && before == inner.written
    {
      this.inner, body, before := inner, [], inner.written;
    }

    method Write(b: Body)
      requires Valid()
      modifies this, inner`written
      ensures Valid() && body == old(body) + [b] && inner.written == old(inner.written) + [b]
    {
      body := body + [b];
      inner.Write(b);
    }
  }

  /** Runs the handler on gin's own writer. */
  method HandleDirectly(w: ResponseWriter, h: Handling)
    modifies w
    ensures w.status == h.status && w.contentType == h.contentType && w.cache == old(w.cache)
    ensures w.written == old(w.written) + h.writes
  {
    w.status, w.contentType := h.status, h.contentType;
    for i := 0 to |h.writes|
      invariant w.status == h.status && w.contentType == h.contentType && w.cache == old(w.cache)
      invariant w.written == old(w.written) + h.writes[..i]
    {
      w.Write(h.writes[i]);
      assert h.writes[..i + 1] == h.writes[..i] + [h.writes[i]];
    }
  }

  /** Runs the handler on the capturing writer: the client sees the same, and the buffer its body. */
  method HandleCaptured(cw: CaptureWriter, h: Handling)
    requires cw.Valid() && cw.body == []
    modifies cw, cw.inner
    ensures cw.Valid() && cw.body == h.writes
    ensures cw.inner.status == h.status && cw.inner.contentType == h.contentType && cw.inner.cache == old(cw.inner.cache)
    ensures cw.inner.written == old(cw.inner.written) + h.writes
  {
    var w := cw.inner;
    w.status, w.contentType := h.status, h.contentType;
    for i := 0 to |h.writes|
      invariant cw.Valid() && cw.body == h.writes[..i]
      invariant w.status == h.status && w.contentType == h.contentType && w.cache == old(w.cache)
    {
      cw.Write(h.writes[i]);
      assert h.writes[..i + 1] == h.writes[..i] + [h.writes[i]];
    }
    assert h.writes[..|h.writes|] == h.writes;
  }

  /**
   `ResponseCache` around a handler. Callers without an identity bypass the cache; a hit replays the
   stored response without running the handler; anything else answers exactly what the handler
   answers, and stores that response only if it is a 200 that did not abort.
   */
  method ServeCached(rdb: Redis, w: ResponseWriter, route: string, uid: Uuid, ttl: int, h: Handling,
                     getAt: int, getLink: Link, setAt: int, setLink: Link)
    requires w.Untouched()
    modifies rdb, w
    ensures uid == NIL ==> w.Sent() == h.Answer() && w.written == h.writes && w.cache == None && rdb.db == old(rdb.db)
    ensures uid != NIL ==>
              var key := Encode(CachedGet(route, uid));
              match CachedResponse(old(rdb.db), key, getAt, getLink)
              case Some(stored) =>
                w.Sent() == stored && w.written == [stored.body] && w.cache == Some(Hit) && rdb.db == old(rdb.db)
              case None =>
                && w.Sent() == h.Answer() && w.written == h.writes && w.cache == Some(Miss)
                && rdb.db == if h.status == 200 && !h.aborts && !setLink.Down?
                             then SetKeys(old(rdb.db), key, Encoded(h.Answer()), ttl, setAt) else old(rdb.db)
  {
    if uid == NIL {
      HandleDirectly(w, h);
      assert w.written == h.writes;
      return;
    }
    var key := "cache:GET:" + route + ":" + uid;
    var got := rdb.Get(key, getAt, getLink);
    if got.Ok? && got.value.Some? {
      var entry := DecodeResponse(got.value.value);
      if entry.Some? {
        Replay(w, entry.value);
        return;
      }
    }
    var cw := new CaptureWriter(w);
    w.cache := Some(Miss);
    HandleCaptured(cw, h);
    assert w.written == h.writes;
    if h.aborts || w.status != 200 {
      return;
    }
    var _ := rdb.Set(key, Encoded(Response(w.status, w.contentType, Join(cw.body))), ttl, setAt, setLink);
  }

  /** `writeCachedResponse` */
  method Replay(w: ResponseWriter, entry: Response)
    requires w.Untouched()
    modifies w
    ensures w.Sent() == entry && w.written == [entry.body] && w.cache == Some(Hit)
  {
    if entry.contentType != "" {
      w.contentType := entry.contentType;
    }
    w.cache := Some(Hit);
    w.status := entry.status;
    w.Write(entry.body);
  }
}
