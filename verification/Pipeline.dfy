/**
 The middleware chain in front of the protected routes: what the router builds, and what a request
 meets before its handler or the response cache.
 */
module Pipeline {
  import opened Wrappers
  import opened Domain
  import opened Keyspace
  import TokenBucket
  import opened RedisStore
  import opened Quotas

  datatype Route = Me | Logout | ListUsers | Threats

  datatype Stage = Auth | RequireRole(allowed: seq<string>) | RateLimitByRole | ResponseCache | Handler(route: Route)

  /** `gin.Context.FullPath` */
  function Template(r: Route): string {
    match r
    case Me => "/auth/me"
    case Logout => "/auth/logout"
    case ListUsers => "/admin/users"
    case Threats => "/admin/users/:id/threat-summary"
  }

  predicate AdminOnly(r: Route) {
    r.ListUsers? || r.Threats?
  }

  predicate Cached(r: Route) {
    r.Me? || r.ListUsers?
  }

  /** The handlers each protected route runs, in order. */
  function Chain(r: Route): seq<Stage> {
    match r
    case Me => [Auth, RateLimitByRole, ResponseCache, Handler(Me)]
    case Logout => [Auth, RateLimitByRole, Handler(Logout)]
    case ListUsers => [Auth, RequireRole([ADMIN]), RateLimitByRole, ResponseCache, Handler(ListUsers)]
    case Threats => [Auth, RequireRole([ADMIN]), RateLimitByRole, Handler(Threats)]
  }

  // ----- Building the chains -----

  class Engine {
    var routes: map<string, seq<Stage>>

    constructor ()
      ensures routes == map[]
    {
      routes := map[];
    }
  }

  /** A route group: middleware added to it applies to the routes registered after. */
  class Group {
    const engine: Engine
    const base: string
    var handlers: seq<Stage>

    constructor (engine: Engine, base: string, handlers: seq<Stage>)
      ensures this.engine == engine && this.base == base && this.handlers == handlers
    {
      this.engine, this.base, this.handlers := engine, base, handlers;
    }

    method Use(added: seq<Stage>)
      modifies this
      ensures handlers == old(handlers) + added
    {
      handlers := handlers + added;
    }

    method Register(path: string, own: seq<Stage>)
      modifies engine
      ensures engine.routes == old(engine.routes)[base + path := handlers + own]
    {
      engine.routes := engine.routes[base + path := handlers + own];
    }
  }

  /** The protected part of `router.New`: every route ends up with exactly its chain. */
  method New() returns (engine: Engine)
    ensures fresh(engine)
    ensures forall r: Route :: Template(r) in engine.routes && engine.routes[Template(r)] == Chain(r)
    ensures engine.routes.Keys == {"/auth/logout", "/auth/me", "/admin/users", "/admin/users/:id/threat-summary"}
    ensures forall path | path in engine.routes :: Layered(path, engine.routes[path])
  {
    engine := new Engine();
    var auth := new Group(engine, "/auth", []);
    var authed := new Group(engine, auth.base, auth.handlers);
    authed.Use([Auth, RateLimitByRole]);
    GroupsMakeChains();
    authed.Register("/logout", [Handler(Logout)]);
    authed.Register("/me", [ResponseCache, Handler(Me)]);
    assert engine.routes == map[Template(Logout) := Chain(Logout), Template(Me) := Chain(Me)];
    var admin := new Group(engine, "/admin", []);
    admin.Use([Auth, RequireRole([ADMIN]), RateLimitByRole]);
    admin.Register("/users", [ResponseCache, Handler(ListUsers)]);
    admin.Register("/users/:id/threat-summary", [Handler(Threats)]);
    assert engine.routes == map[Template(Logout) := Chain(Logout), Template(Me) := Chain(Me),
                                Template(ListUsers) := Chain(ListUsers), Template(Threats) := Chain(Threats)];
    AllRoutes(engine.routes);
    ChainsAreLayered();
  }

  /**
   The order on every path: authentication, on `/admin` the admin gate, the limiter, on the two cached
   paths the response cache, and the handler; nothing else.
   */
  predicate Layered(path: string, chain: seq<Stage>) {
    var gate := if StartsWith(path, "/admin") then [RequireRole(["admin"])] else [];
    var cache := if path == "/auth/me" || path == "/admin/users" then [ResponseCache] else [];
    && chain != [] && chain[|chain| - 1].Handler?
    && chain[..|chain| - 1] == [Auth] + gate + [RateLimitByRole] + cache
  }

  lemma ChainsAreLayered()
    ensures forall r: Route :: Layered(Template(r), Chain(r)) && (AdminOnly(r) <==> StartsWith(Template(r), "/admin"))
  {
    forall r: Route ensures Layered(Template(r), Chain(r)) && (AdminOnly(r) <==> StartsWith(Template(r), "/admin")) {
      assert |Template(Me)| == 8 && |Template(Logout)| == 12;
      match r
      case Me => assert Template(Me)[2] == 'u' && "/admin"[2] == 'd' && Template(Me)[..6][2] == 'u';
      case Logout =>
        assert Template(Logout)[2] == 'u' && "/admin"[2] == 'd' && Template(Logout)[..6][2] == 'u';
        assert Template(Logout)[6] != "/admin/users"[6];
      case ListUsers =>
      case Threats => assert |Template(Threats)| == 31;
    }
  }

  /** What group prefix and group middleware make of each registration. */
  lemma GroupsMakeChains()
    ensures "/auth" + "/logout" == Template(Logout) && "/auth" + "/me" == Template(Me)
    ensures "/admin" + "/users" == Template(ListUsers) && "/admin" + "/users/:id/threat-summary" == Template(Threats)
    ensures var authed := [] + [Auth, RateLimitByRole];
            authed + [Handler(Logout)] == Chain(Logout) && authed + [ResponseCache, Handler(Me)] == Chain(Me)
    ensures var admin := [] + [Auth, RequireRole([ADMIN]), RateLimitByRole];
            admin + [ResponseCache, Handler(ListUsers)] == Chain(ListUsers) && admin + [Handler(Threats)] == Chain(Threats)
  {}

  lemma AllRoutes(routes: map<string, seq<Stage>>)
    requires routes == map[Template(Logout) := Chain(Logout), Template(Me) := Chain(Me),
                           Template(ListUsers) := Chain(ListUsers), Template(Threats) := Chain(Threats)]
    ensures forall r: Route :: Template(r) in routes && routes[Template(r)] == Chain(r)
  {
    TemplatesDiffer();
  }

  lemma TemplatesDiffer()
    ensures forall a: Route, b: Route :: Template(a) == Template(b) ==> a == b
  {
    assert |Template(Me)| == 8 && |Template(Logout)| == 12 && |Template(ListUsers)| == 12 && |Template(Threats)| == 31;
    assert Template(Logout)[2] == 'u' && Template(ListUsers)[2] == 'd';
  }

  // ----- Running the front of a chain -----

  /** What `Auth` stores in the request context. */
  datatype Caller = Caller(uid: Uuid, role: string)

  const ANONYMOUS := Caller(NIL, "")

  datatype Verdict = Rejected(status: int) | Through(who: Caller, rest: seq<Stage>)

  /**
   A request: the claims of its bearer token if the header carries one that verifies, the pod's
   clock, the timestamp the limiter sends, and the moment its script runs.
   */
  datatype Request = Request(header: Option<Claims>, clock: int, stamp: int, at: int, link: Link)

  /** The token is unexpired and its subject is a UUID. */
  predicate Authenticated(r: Request) {
    r.header.Some? && Fresh(r.header.value, r.clock) && |r.header.value.uid| == 36
  }

  function CallerOf(r: Request): Caller
    requires Authenticated(r)
  {
    Caller(r.header.value.uid, r.header.value.role)
  }

  /** Runs the chain up to the first stage that needs the response: the cache or the handler. */
  function Front(maxAttempts: int, s: Store, chain: seq<Stage>, who: Caller, r: Request): (Verdict, Store)
    decreases |chain|
  {
    if chain == [] then (Through(who, []), s)
    else
      match chain[0]
      case Auth =>
        if Authenticated(r) then Front(maxAttempts, s, chain[1..], CallerOf(r), r) else (Rejected(401), s)
      case RequireRole(allowed) =>
        if MayPass(who.role, allowed) then Front(maxAttempts, s, chain[1..], who, r) else (Rejected(403), s)
      case RateLimitByRole =>
        var k := RoleBucket(who.role, who.uid);
        if QuotaOf(maxAttempts, k).None? then (Rejected(403), s)
        else
          var s' := Charge(maxAttempts, s, k, r.stamp, r.at, r.link);
          if Passes(maxAttempts, s, k, r.stamp, r.at, r.link) then Front(maxAttempts, s', chain[1..], who, r)
          else (Rejected(429), s')
      case ResponseCache => (Through(who, chain), s)
      case Handler(_) => (Through(who, chain), s)
  }

  /** What is left of a chain once its guards have passed. */
  function Rest(r: Route): seq<Stage> {
    if Cached(r) then [ResponseCache, Handler(r)] else [Handler(r)]
  }

  /** The order of the chain, seen from outside: guards that refuse spend nothing, the limiter is charged once. */
  lemma FrontChargesOnce(maxAttempts: int, s: Store, route: Route, r: Request)
    ensures var (v, s') := Front(maxAttempts, s, Chain(route), ANONYMOUS, r);
            if !Authenticated(r) then v == Rejected(401) && s' == s
            else
              var who := CallerOf(r);
              var k := RoleBucket(who.role, who.uid);
              if (AdminOnly(route) && who.role != ADMIN) || QuotaForRole(who.role).None? then v == Rejected(403) && s' == s
              else
                && s' == Charge(maxAttempts, s, k, r.stamp, r.at, r.link)
                && v == if Passes(maxAttempts, s, k, r.stamp, r.at, r.link) then Through(who, Rest(route)) else Rejected(429)
  {
    if Authenticated(r) {
      var who := CallerOf(r);
      var chain := Chain(route);
      if AdminOnly(route) {
        assert chain[1..][0] == RequireRole([ADMIN]);
        assert chain[1..][1..] == [RateLimitByRole] + Rest(route);
        assert Front(maxAttempts, s, chain, ANONYMOUS, r) == Front(maxAttempts, s, chain[1..], who, r);
        FrontFromLimiter(maxAttempts, s, route, who, r);
      } else {
        assert chain[1..] == [RateLimitByRole] + Rest(route);
        FrontFromLimiter(maxAttempts, s, route, who, r);
      }
    }
  }

  /**
   And the guards let the right requests in: an unexpired token of any role, on an admin route of the
   admin role, reaches the cache or the handler as its own user when its bucket has not been used.
   */
  lemma FreshTokenGetsThrough(maxAttempts: int, s: Store, route: Route, r: Request, uid: Uuid, role: string, expiresAt: int)
    requires r.header == Some(Claims(uid, role, expiresAt)) && r.clock < expiresAt && r.link.Up?
    requires role in ["admin", "analyst", "viewer"] && (AdminOnly(route) ==> role == "admin")
    requires Encode(RoleBucket(role, uid)) !in s.keys
    ensures Front(maxAttempts, s, Chain(route), ANONYMOUS, r).0 == Through(Caller(uid, role), Rest(route))
  {
    FrontChargesOnce(maxAttempts, s, route, r);
    UnusedBucketAdmits(QuotaForRole(role).value, s.keys, Encode(RoleBucket(role, uid)), r.stamp, r.at);
  }

  lemma UnusedBucketAdmits(rq: RoleQuota, db: Keys, key: string, now: int, at: int)
    requires rq.Limit().Valid() && key !in db
    ensures AllowAnswer(db, key, rq.Limit(), now, at, Up) == Answer(true, false)
  {
    TokenBucket.WriteInRange(rq.Limit(), None, now);
  }

  lemma FrontFromLimiter(maxAttempts: int, s: Store, route: Route, who: Caller, r: Request)
    ensures var k := RoleBucket(who.role, who.uid);
            Front(maxAttempts, s, [RateLimitByRole] + Rest(route), who, r) ==
            if QuotaForRole(who.role).None? then (Rejected(403), s)
            else (if Passes(maxAttempts, s, k, r.stamp, r.at, r.link) then Through(who, Rest(route)) else Rejected(429),
                  Charge(maxAttempts, s, k, r.stamp, r.at, r.link))
  {
    var chain := [RateLimitByRole] + Rest(route);
    assert chain[0] == RateLimitByRole && chain[1..] == Rest(route);
    assert Rest(route)[0].ResponseCache? || Rest(route)[0].Handler?;
  }

  // ----- The limiter middleware on a live Redis -----

  /** `RateLimitByRole`: 403 for a role without a policy, 429 when the bucket refuses, else onward. */
  method LimitByRole(limiter: RedisLimiter, role: string, uid: Uuid, now: int, at: int, link: Link)
      returns (status: Option<int>)
    modifies limiter.rdb
    ensures var quota := QuotaForRole(role);
            if quota.None? then status == Some(403) && limiter.rdb.db == old(limiter.rdb.db)
            else
              var key := Encode(RoleBucket(role, uid));
              && limiter.rdb.db == AllowKeys(old(limiter.rdb.db), key, quota.value.Limit(), now, at, link)
              && status == if AllowAnswer(old(limiter.rdb.db), key, quota.value.Limit(), now, at, link).allowed then None
                           else Some(429)
  {
    var quota := QuotaForRole(role);
    if quota.None? {
      return Some(403);
    }
    var key := "rl:role:" + role + ":" + uid;
    var ratePerSec := quota.value.perMinute as real / 60.0;
    var allowed, _ := limiter.Allow(key, ratePerSec, quota.value.burst, now, at, link);
    if !allowed {
      return Some(429);
    }
    return None;
  }

  /** `LoginRateLimit`: one bucket per client address, rate and burst both the configured maximum. */
  method LimitLogin(limiter: RedisLimiter, maxAttempts: int, ip: string, now: int, at: int, link: Link)
      returns (status: Option<int>)
    modifies limiter.rdb
    ensures QuotaOf(maxAttempts, LoginBucket(ip)) == Some(RoleQuota(maxAttempts, maxAttempts))
    ensures var q := RoleQuota(maxAttempts, maxAttempts).Limit();
            var key := Encode(LoginBucket(ip));
            && limiter.rdb.db == AllowKeys(old(limiter.rdb.db), key, q, now, at, link)
            && status == if AllowAnswer(old(limiter.rdb.db), key, q, now, at, link).allowed then None else Some(429)
  {
    var key := "rl:login:" + ip;
    var ratePerSec := maxAttempts as real / 60.0;
    var allowed, _ := limiter.Allow(key, ratePerSec, maxAttempts, now, at, link);
    return if allowed then None else Some(429);
  }
}
