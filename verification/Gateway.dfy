/**
 The whole request pipeline as one state machine: any number of requests in flight on any pods, one
 Redis shared by limiter and caches, one users table committed to by others meanwhile, and time.
 A request arrives through its guards, looks its response up, runs its handler, and fills the cache
 in four separate steps; keys may be evicted or spoiled and any Redis command may fail in between.
 */
module Gateway {
  import opened Wrappers
  import opened Domain
  import opened Keyspace
  import opened RedisStore
  import opened Quotas
  import opened Pipeline

  datatype Config = Config(maxAttempts: int, cacheTtl: int)

  /** A committed state of the users table, and when it was committed. */
  datatype Version = Version(users: seq<User>, since: int)

  /** Which table state a response was computed from, and when its request started, read it and stored it. */
  datatype Note = Note(version: nat, startedAt: int, readAt: int, storedAt: int)

  datatype Phase =
    | Before(rest: seq<Stage>)
    | Missed                                                    // past the cache, capturing its handler's answer
    | Answered(response: Response, version: nat, readAt: int)   // answered 200, about to store it

  datatype Flight = Flight(route: Route, who: Caller, startedAt: int, phase: Phase)

  /** A response written to a client. */
  datatype Reply = Reply(route: Route, who: Caller, response: Response, at: int, hit: bool, note: Note)

  datatype State = State(
    now: int, store: Store, versions: seq<Version>,
    flights: map<nat, Flight>, replies: seq<Reply>, notes: map<string, Note>)

  function Initial(users: seq<User>): State {
    State(0, Store(map[], map[]), [Version(users, 0)], map[], [], map[])
  }

  datatype Event =
    | Advance(ms: nat)
    | Commit(users: seq<User>)
    | EvictKey(key: string)
    | SpoilKey(key: string)
    | LoginCall(ip: string, stamp: int, link: Link)
    | SaveSummary(target: Uuid, summary: Report, ttl: int, link: Link)
    | Arrive(id: nat, route: Route, header: Option<Claims>, clock: int, stamp: int, link: Link)
    | Lookup(id: nat, link: Link)
    | Handle(id: nat, ok: bool, other: Response)
    | Fill(id: nat, link: Link)
    | Drop(id: nat)

  // ----- Handlers -----

  function RenderUser(u: User): Body {
    UserBody(u.id, u.email, u.role)
  }

  /** Newest first. */
  function Listing(users: seq<User>): seq<Body> {
    if users == [] then [] else [RenderUser(users[|users| - 1])] + Listing(users[..|users| - 1])
  }

  const JSON := "application/json; charset=utf-8"

  /** What the handler of a cached route answers on a given state of the table. */
  function Respond(route: Route, uid: Uuid, users: seq<User>): Response
    requires Cached(route)
  {
    match route
    case Me =>
      (match FindByID(users, uid)
       case Some(u) => Response(200, JSON, RenderUser(u))
       case None => Response(404, JSON, Text("USER_NOT_FOUND")))
    case ListUsers => Response(200, JSON, UsersBody(Listing(users)))
  }

  /** `ok` is false when the database fails; the other routes answer as they please. */
  function HandlerAnswer(route: Route, uid: Uuid, users: seq<User>, ok: bool, other: Response): Response {
    if !Cached(route) then other
    else if !ok then Response(500, JSON, Text("INTERNAL"))
    else Respond(route, uid, users)
  }

  // ----- The response cache -----

  function CacheKey(route: Route, uid: Uuid): Key {
    CachedGet(Template(route), uid)
  }

  function CacheHit(s: State, route: Route, uid: Uuid, link: Link): Option<Response> {
    CachedResponse(s.store.keys, Encode(CacheKey(route, uid)), s.now, link)
  }

  function NoteAt(s: State, key: string): Note {
    if key in s.notes then s.notes[key] else Note(0, 0, 0, 0)
  }

  // ----- Steps -----

  function Land(s: State, id: nat): State {
    s.(flights := s.flights - {id})
  }

  function Move(s: State, id: nat, phase: Phase): State
    requires id in s.flights
  {
    s.(flights := s.flights[id := s.flights[id].(phase := phase)])
  }

  function ArriveStep(cfg: Config, s: State, id: nat, route: Route, r: Request): State {
    var (v, store) := Front(cfg.maxAttempts, s.store, Chain(route), ANONYMOUS, r);
    var t := s.(store := store);
    match v
    case Rejected(_) => t
    case Through(who, rest) => t.(flights := s.flights[id := Flight(route, who, s.now, Before(rest))])
  }

  function LookupStep(s: State, id: nat, link: Link): State
    requires id in s.flights
  {
    var f := s.flights[id];
    if !f.phase.Before? || f.phase.rest == [] || f.phase.rest[0] != ResponseCache then s
    else if f.who.uid == NIL then Move(s, id, Before(f.phase.rest[1..]))
    else
      match CacheHit(s, f.route, f.who.uid, link)
      case None => Move(s, id, Missed)
      case Some(response) =>
        var note := NoteAt(s, Encode(CacheKey(f.route, f.who.uid)));
        Land(s, id).(replies := s.replies + [Reply(f.route, f.who, response, s.now, true, note)])
  }

  /** The handler reads the latest committed table. */
  function HandleStep(s: State, id: nat, ok: bool, other: Response): State
    requires id in s.flights && s.versions != []
  {
    var f, v := s.flights[id], |s.versions| - 1;
    if f.phase.Answered? || (f.phase.Before? && (f.phase.rest == [] || !f.phase.rest[0].Handler?)) then s
    else
      var response := HandlerAnswer(f.route, f.who.uid, s.versions[v].users, ok, other);
      var t := if f.phase.Missed? && response.status == 200 then Move(s, id, Answered(response, v, s.now)) else Land(s, id);
      t.(replies := s.replies + [Reply(f.route, f.who, response, s.now, false, Note(v, f.startedAt, s.now, s.now))])
  }

  function FillStep(cfg: Config, s: State, id: nat, link: Link): State
    requires id in s.flights
  {
    var f := s.flights[id];
    if !f.phase.Answered? then s
    else
      var k := CacheKey(f.route, f.who.uid);
      var store := Save(s.store, k, Encoded(f.phase.response), cfg.cacheTtl, s.now, link);
      var note := Note(f.phase.version, f.startedAt, f.phase.readAt, s.now);
      Land(s, id).(store := store, notes := if link.Down? then s.notes else s.notes[Encode(k) := note])
  }

  function Step(cfg: Config, s: State, e: Event): (t: State)
    requires s.versions != []
    ensures t.versions != []
  {
    match e
    case Advance(ms) => s.(now := s.now + ms)
    case Commit(users) => s.(versions := s.versions + [Version(users, s.now)])
    case EvictKey(key) => s.(store := Evict(s.store, key))
    case SpoilKey(key) => s.(store := Spoil(s.store, key))
    case LoginCall(ip, stamp, link) => s.(store := Charge(cfg.maxAttempts, s.store, LoginBucket(ip), stamp, s.now, link))
    case SaveSummary(target, summary, ttl, link) =>
      s.(store := Save(s.store, ThreatSummary(target), Summary(summary), ttl, s.now, link))
    case Arrive(id, route, header, clock, stamp, link) =>
      if id in s.flights then s else ArriveStep(cfg, s, id, route, Request(header, clock, stamp, s.now, link))
    case Lookup(id, link) => if id in s.flights then LookupStep(s, id, link) else s
    case Handle(id, ok, other) => if id in s.flights then HandleStep(s, id, ok, other) else s
    case Fill(id, link) => if id in s.flights then FillStep(cfg, s, id, link) else s
    case Drop(id) => Land(s, id)
  }

  function After(cfg: Config, users: seq<User>, es: seq<Event>): (s: State)
    ensures s.versions != []
  {
    if es == [] then Initial(users) else Step(cfg, After(cfg, users, es[..|es| - 1]), es[|es| - 1])
  }

  lemma AfterOne(cfg: Config, users: seq<User>, es: seq<Event>, e: Event)
    ensures After(cfg, users, es + [e]) == Step(cfg, After(cfg, users, es), e)
  {
    assert (es + [e])[..|es|] == es;
  }

  // ----- The store stays sound -----

  lemma StepKeepsStore(cfg: Config, s: State, e: Event)
    requires s.versions != [] && Sound(cfg.maxAttempts, s.store)
    ensures Sound(cfg.maxAttempts, Step(cfg, s, e).store)
  {
    match e
    case EvictKey(key) => EvictKeepsSound(cfg.maxAttempts, s.store, key);
    case SpoilKey(key) => SpoilKeepsSound(cfg.maxAttempts, s.store, key);
    case LoginCall(ip, stamp, link) => ChargeKeepsSound(cfg.maxAttempts, s.store, LoginBucket(ip), stamp, s.now, link);
    case SaveSummary(target, summary, ttl, link) =>
      SaveKeepsSound(cfg.maxAttempts, s.store, ThreatSummary(target), Summary(summary), ttl, s.now, link);
    case Arrive(id, route, header, clock, stamp, link) =>
      if id !in s.flights {
        ArriveKeepsSound(cfg, s.store, route, Request(header, clock, stamp, s.now, link));
      }
    case Fill(id, link) =>
      if id in s.flights && s.flights[id].phase.Answered? {
        var f := s.flights[id];
        SaveKeepsSound(cfg.maxAttempts, s.store, CacheKey(f.route, f.who.uid), Encoded(f.phase.response), cfg.cacheTtl, s.now, link);
      }
    case _ =>
  }

  lemma ArriveKeepsSound(cfg: Config, store: Store, route: Route, r: Request)
    requires Sound(cfg.maxAttempts, store)
    ensures Sound(cfg.maxAttempts, Front(cfg.maxAttempts, store, Chain(route), ANONYMOUS, r).1)
  {
    FrontChargesOnce(cfg.maxAttempts, store, route, r);
    if Authenticated(r) && QuotaForRole(CallerOf(r).role).Some? {
      ChargeKeepsSound(cfg.maxAttempts, store, RoleBucket(CallerOf(r).role, CallerOf(r).uid), r.stamp, r.at, r.link);
    }
  }

  lemma {:induction false} ReachableStore(cfg: Config, users: seq<User>, es: seq<Event>)
    ensures Sound(cfg.maxAttempts, After(cfg, users, es).store)
  {
    if es == [] {
      EmptyIsSound(cfg.maxAttempts);
    } else {
      ReachableStore(cfg, users, es[..|es| - 1]);
      StepKeepsStore(cfg, After(cfg, users, es[..|es| - 1]), es[|es| - 1]);
    }
  }

  /** What a key of each family holds: bucket keys a hash within their one rate and burst, the others bytes. */
  predicate HoldsItsFamily(maxAttempts: int, k: Key, v: Value) {
    match QuotaOf(maxAttempts, k)
    case None => v.Blob? && (k.CachedGet? || k.ThreatSummary?)
    case Some(rq) => rq.Limit().Valid() && v.Bucket? && 0.0 <= v.hash.t <= rq.burst as real
  }

  /**
   Keyspace partition over whole runs: every stored key decodes, hence was encoded from exactly one
   family and parameter tuple, and holds what that family holds.
   */
  lemma KeyspacePartition(cfg: Config, users: seq<User>, es: seq<Event>, s: State, key: string)
    requires s == After(cfg, users, es) && key in s.store.keys
    ensures Decode(key).Some?
    ensures HoldsItsFamily(cfg.maxAttempts, Decode(key).value, s.store.keys[key].value)
  {
    ReachableStore(cfg, users, es);
    assert KeySound(cfg.maxAttempts, s.store, key);
  }
}
