/**
 How stale a cached answer can be: every 200 on a cached route, hit or miss, is exactly what the
 handler answers for that route and user on some committed table, and that table was current no
 longer ago than the cache TTL plus the duration of the request that stored it.
 */
module GatewayCache {
  import opened Wrappers
  import opened Domain
  import opened Keyspace
  import opened RedisStore
  import opened Quotas
  import opened Pipeline
  import opened Gateway

  /** Version `v` was the committed table at time `t`. */
  predicate CurrentAt(versions: seq<Version>, v: nat, t: int) {
    && v < |versions| && versions[v].since <= t
    && (v + 1 < |versions| ==> t <= versions[v + 1].since)
  }

  /** The response is the handler's 200 on version `v`, read at `t`. */
  predicate Faithful(versions: seq<Version>, route: Route, uid: Uuid, response: Response, v: nat, t: int) {
    && CurrentAt(versions, v, t) && Cached(route)
    && response == Respond(route, uid, versions[v].users) && response.status == 200
  }

  /** What a cache key may hold: spoiled bytes, or a faithful response with the expiry its `SET` gave it. */
  ghost predicate EntryOk(cfg: Config, s: State, route: Route, uid: Uuid) {
    var key := Encode(CacheKey(route, uid));
    key in s.store.keys ==>
      var entry, n := s.store.keys[key], NoteAt(s, key);
      && entry.value.Blob? && !entry.value.payload.Summary?
      && (entry.value.payload.Encoded? ==>
            && key in s.notes
            && Faithful(s.versions, route, uid, entry.value.payload.response, n.version, n.readAt)
            && n.startedAt <= n.readAt <= n.storedAt <= s.now
            && entry.expireAt == if cfg.cacheTtl > 0 then Some(n.storedAt + cfg.cacheTtl) else None)
  }

  ghost predicate EntriesOk(cfg: Config, s: State) {
    forall route: Route, uid: Uuid :: EntryOk(cfg, s, route, uid)
  }

  ghost predicate FlightOk(s: State, f: Flight) {
    && f.startedAt <= s.now
    && (f.phase.Before? ==> f.phase.rest == Rest(f.route) || f.phase.rest == [Handler(f.route)])
    && (f.phase.Missed? ==> Cached(f.route))
    && (f.phase.Answered? ==>
          && Faithful(s.versions, f.route, f.who.uid, f.phase.response, f.phase.version, f.phase.readAt)
          && f.startedAt <= f.phase.readAt <= s.now)
  }

  /** A 200 on a cached route is faithful to a table read no longer ago than TTL plus the storing request. */
  ghost predicate ReplyOk(cfg: Config, versions: seq<Version>, r: Reply) {
    r.response.status == 200 && Cached(r.route) ==>
      && Faithful(versions, r.route, r.who.uid, r.response, r.note.version, r.note.readAt)
      && r.note.startedAt <= r.note.readAt <= r.note.storedAt <= r.at
      && (!r.hit ==> r.note.readAt == r.at)
      && (r.hit && cfg.cacheTtl > 0 ==> r.at <= r.note.storedAt + cfg.cacheTtl)
  }

  ghost predicate Inv(cfg: Config, s: State) {
    && s.versions != [] && s.versions[|s.versions| - 1].since <= s.now
    && EntriesOk(cfg, s)
    && (forall id | id in s.flights :: FlightOk(s, s.flights[id]))
    && (forall i | 0 <= i < |s.replies| :: s.replies[i].at <= s.now && ReplyOk(cfg, s.versions, s.replies[i]))
    && (forall i | 0 <= i < |s.replies| && s.replies[i].hit :: s.replies[i].response.status == 200)
  }

  lemma CurrentAfterCommit(versions: seq<Version>, next: Version, v: nat, t: int)
    requires CurrentAt(versions, v, t) && t <= next.since
    ensures CurrentAt(versions + [next], v, t)
  {}

  lemma CommitKeepsReply(cfg: Config, versions: seq<Version>, next: Version, r: Reply)
    requires ReplyOk(cfg, versions, r) && r.at <= next.since
    ensures ReplyOk(cfg, versions + [next], r)
  {}

  lemma FaithfulAfterCommit(versions: seq<Version>, next: Version, route: Route, uid: Uuid, response: Response, v: nat, t: int)
    requires Faithful(versions, route, uid, response, v, t) && t <= next.since
    ensures Faithful(versions + [next], route, uid, response, v, t)
  {
    CurrentAfterCommit(versions, next, v, t);
  }

  lemma CommitKeepsEntry(cfg: Config, s: State, next: Version, route: Route, uid: Uuid)
    requires EntryOk(cfg, s, route, uid) && next.since == s.now
    ensures EntryOk(cfg, s.(versions := s.versions + [next]), route, uid)
  {
    var key := Encode(CacheKey(route, uid));
    if key in s.store.keys && s.store.keys[key].value.payload.Encoded? {
      var n := NoteAt(s, key);
      FaithfulAfterCommit(s.versions, next, route, uid, s.store.keys[key].value.payload.response, n.version, n.readAt);
    }
  }

  lemma CommitKeepsFlight(s: State, next: Version, f: Flight)
    requires FlightOk(s, f) && next.since == s.now
    ensures FlightOk(s.(versions := s.versions + [next]), f)
  {}

  lemma CommitKeepsInv(cfg: Config, s: State, users: seq<User>)
    requires Inv(cfg, s)
    ensures Inv(cfg, s.(versions := s.versions + [Version(users, s.now)]))
  {
    var next := Version(users, s.now);
    var s' := s.(versions := s.versions + [next]);
    forall route: Route, uid: Uuid ensures EntryOk(cfg, s', route, uid) {
      CommitKeepsEntry(cfg, s, next, route, uid);
    }
    forall id | id in s'.flights ensures FlightOk(s', s'.flights[id]) {
      CommitKeepsFlight(s, next, s.flights[id]);
    }
    forall i | 0 <= i < |s.replies| ensures ReplyOk(cfg, s'.versions, s.replies[i]) {
      CommitKeepsReply(cfg, s.versions, next, s.replies[i]);
    }
  }

  lemma AdvanceKeepsInv(cfg: Config, s: State, ms: nat)
    requires Inv(cfg, s)
    ensures Inv(cfg, s.(now := s.now + ms))
  {
    var s' := s.(now := s.now + ms);
    forall route: Route, uid: Uuid ensures EntryOk(cfg, s', route, uid) {
      assert EntryOk(cfg, s, route, uid);
    }
  }

  /** Stores that leave every cache key as it was, spoil it, or lose it. */
  ghost predicate CacheKeysKept(s: Store, s': Store) {
    forall route: Route, uid: Uuid ::
      var key := Encode(CacheKey(route, uid));
      key in s'.keys ==>
        && key in s.keys
        && (s'.keys[key] == s.keys[key] || s'.keys[key] == s.keys[key].(value := Blob(Garbled)))
  }

  lemma StoreKeepsInv(cfg: Config, s: State, store: Store)
    requires Inv(cfg, s) && CacheKeysKept(s.store, store)
    ensures Inv(cfg, s.(store := store))
  {
    var s' := s.(store := store);
    forall route: Route, uid: Uuid ensures EntryOk(cfg, s', route, uid) {
      assert EntryOk(cfg, s, route, uid);
      var key := Encode(CacheKey(route, uid));
      assert key in store.keys ==> key in s.store.keys;
    }
  }

  lemma ChargeKeepsCacheKeys(maxAttempts: int, s: Store, k: Key, now: int, at: int, link: Link)
    requires QuotaOf(maxAttempts, k).Some?
    ensures CacheKeysKept(s, Charge(maxAttempts, s, k, now, at, link))
  {
    forall route: Route, uid: Uuid ensures Encode(CacheKey(route, uid)) != Encode(k) {
      KeysAreDistinct(CacheKey(route, uid), k);
    }
  }

  lemma SaveKeepsCacheKeys(s: Store, target: Uuid, summary: Report, ttl: int, at: int, link: Link)
    ensures CacheKeysKept(s, Save(s, ThreatSummary(target), Summary(summary), ttl, at, link))
  {
    forall route: Route, uid: Uuid ensures Encode(CacheKey(route, uid)) != Encode(ThreatSummary(target)) {
      KeysAreDistinct(CacheKey(route, uid), ThreatSummary(target));
    }
  }

  lemma ArriveKeepsInv(cfg: Config, s: State, id: nat, route: Route, r: Request)
    requires Inv(cfg, s)
    ensures Inv(cfg, ArriveStep(cfg, s, id, route, r))
  {
    var (v, store) := Front(cfg.maxAttempts, s.store, Chain(route), ANONYMOUS, r);
    FrontChargesOnce(cfg.maxAttempts, s.store, route, r);
    if Authenticated(r) && QuotaForRole(CallerOf(r).role).Some? {
      ChargeKeepsCacheKeys(cfg.maxAttempts, s.store, RoleBucket(CallerOf(r).role, CallerOf(r).uid), r.stamp, r.at, r.link);
    }
    StoreKeepsInv(cfg, s, store);
    if v.Through? {
      BoardKeepsInv(cfg, s.(store := store), id, Flight(route, v.who, s.now, Before(v.rest)));
    }
  }

  lemma SameEntries(cfg: Config, s: State, s': State)
    requires EntriesOk(cfg, s)
    requires s'.store == s.store && s'.versions == s.versions && s'.notes == s.notes && s'.now == s.now
    ensures EntriesOk(cfg, s')
  {
    forall route: Route, uid: Uuid ensures EntryOk(cfg, s', route, uid) {
      assert EntryOk(cfg, s, route, uid);
    }
  }

  lemma BoardKeepsInv(cfg: Config, s: State, id: nat, f: Flight)
    requires Inv(cfg, s) && FlightOk(s, f)
    ensures Inv(cfg, s.(flights := s.flights[id := f]))
  {
    SameEntries(cfg, s, s.(flights := s.flights[id := f]));
  }

  lemma LandKeepsInv(cfg: Config, s: State, id: nat)
    requires Inv(cfg, s)
    ensures Inv(cfg, Land(s, id))
  {
    SameEntries(cfg, s, Land(s, id));
  }

  lemma ReplyKeepsInv(cfg: Config, s: State, r: Reply)
    requires Inv(cfg, s) && ReplyOk(cfg, s.versions, r) && r.at <= s.now && (r.hit ==> r.response.status == 200)
    ensures Inv(cfg, s.(replies := s.replies + [r]))
  {
    SameEntries(cfg, s, s.(replies := s.replies + [r]));
  }

  /** A hit is the stored handler answer, still within its TTL. */
  lemma HitIsOk(cfg: Config, s: State, route: Route, who: Caller, link: Link)
    requires Inv(cfg, s) && CacheHit(s, route, who.uid, link).Some?
    ensures var response := CacheHit(s, route, who.uid, link).value;
            var r := Reply(route, who, response, s.now, true, NoteAt(s, Encode(CacheKey(route, who.uid))));
            ReplyOk(cfg, s.versions, r) && response.status == 200
  {
    assert EntryOk(cfg, s, route, who.uid);
  }

  lemma LookupKeepsInv(cfg: Config, s: State, id: nat, link: Link)
    requires Inv(cfg, s) && id in s.flights
    ensures Inv(cfg, LookupStep(s, id, link))
  {
    var f := s.flights[id];
    assert FlightOk(s, f);
    if f.phase.Before? && f.phase.rest != [] && f.phase.rest[0] == ResponseCache {
      assert f.phase.rest == Rest(f.route) && f.phase.rest[1..] == [Handler(f.route)];
      if f.who.uid == NIL {
        BoardKeepsInv(cfg, s, id, f.(phase := Before(f.phase.rest[1..])));
      } else {
        match CacheHit(s, f.route, f.who.uid, link)
        case None => BoardKeepsInv(cfg, s, id, f.(phase := Missed));
        case Some(response) =>
          HitIsOk(cfg, s, f.route, f.who, link);
          LandKeepsInv(cfg, s, id);
          ReplyKeepsInv(cfg, Land(s, id),
                        Reply(f.route, f.who, response, s.now, true, NoteAt(s, Encode(CacheKey(f.route, f.who.uid)))));
      }
    }
  }

  lemma HandleKeepsInv(cfg: Config, s: State, id: nat, ok: bool, other: Response)
    requires Inv(cfg, s) && id in s.flights
    ensures Inv(cfg, HandleStep(s, id, ok, other))
  {
    var f, v := s.flights[id], |s.versions| - 1;
    assert FlightOk(s, f);
    if !f.phase.Answered? && (f.phase.Before? ==> f.phase.rest != [] && f.phase.rest[0].Handler?) {
      var response := HandlerAnswer(f.route, f.who.uid, s.versions[v].users, ok, other);
      var r := Reply(f.route, f.who, response, s.now, false, Note(v, f.startedAt, s.now, s.now));
      assert ReplyOk(cfg, s.versions, r);
      if f.phase.Missed? && response.status == 200 {
        BoardKeepsInv(cfg, s, id, f.(phase := Answered(response, v, s.now)));
        ReplyKeepsInv(cfg, Move(s, id, Answered(response, v, s.now)), r);
      } else {
        LandKeepsInv(cfg, s, id);
        ReplyKeepsInv(cfg, Land(s, id), r);
      }
    }
  }

  /** What storing an answer under its own key leaves there. */
  lemma StoredIsOk(cfg: Config, s: State, s': State, f: Flight)
    requires FlightOk(s, f) && f.phase.Answered? && s'.versions == s.versions && s'.now == s.now
    requires var key := Encode(CacheKey(f.route, f.who.uid));
             && key in s'.store.keys && key in s'.notes
             && s'.store.keys == SetKeys(s.store.keys, key, Encoded(f.phase.response), cfg.cacheTtl, s.now)
             && s'.notes[key] == Note(f.phase.version, f.startedAt, f.phase.readAt, s.now)
    ensures EntryOk(cfg, s', f.route, f.who.uid)
  {}

  lemma OthersStayOk(cfg: Config, s: State, s': State, key: string, route: Route, uid: Uuid)
    requires EntryOk(cfg, s, route, uid) && Encode(CacheKey(route, uid)) != key
    requires s'.versions == s.versions && s'.now == s.now
    requires s'.store.keys - {key} == s.store.keys - {key} && s'.notes - {key} == s.notes - {key}
    ensures EntryOk(cfg, s', route, uid)
  {
    var other := Encode(CacheKey(route, uid));
    assert other in s'.store.keys <==> other in s'.store.keys - {key};
    assert other in s.store.keys <==> other in s.store.keys - {key};
    assert other in s'.notes <==> other in s'.notes - {key};
    assert other in s.notes <==> other in s.notes - {key};
    assert other in s.store.keys ==> (s'.store.keys - {key})[other] == (s.store.keys - {key})[other];
    assert other in s.notes ==> (s'.notes - {key})[other] == (s.notes - {key})[other];
  }

  lemma FillKeepsInv(cfg: Config, s: State, id: nat, link: Link)
    requires Inv(cfg, s) && id in s.flights
    ensures Inv(cfg, FillStep(cfg, s, id, link))
  {
    var f := s.flights[id];
    assert FlightOk(s, f);
    if f.phase.Answered? {
      LandKeepsInv(cfg, s, id);
      if !link.Down? { FillKeepsEntries(cfg, s, id, link); }
    }
  }

  lemma FillKeepsEntries(cfg: Config, s: State, id: nat, link: Link)
    requires EntriesOk(cfg, s) && id in s.flights && FlightOk(s, s.flights[id])
    requires s.flights[id].phase.Answered? && !link.Down?
    ensures EntriesOk(cfg, FillStep(cfg, s, id, link))
  {
    var f, s' := s.flights[id], FillStep(cfg, s, id, link);
    var key := Encode(CacheKey(f.route, f.who.uid));
    assert s'.store.keys - {key} == s.store.keys - {key} && s'.notes - {key} == s.notes - {key};
    forall route: Route, uid: Uuid ensures EntryOk(cfg, s', route, uid) {
      assert EntryOk(cfg, s, route, uid);
      if route == f.route && uid == f.who.uid {
        StoredIsOk(cfg, s, s', f);
      } else {
        CacheKeysAreDistinct(route, uid, f.route, f.who.uid);
        OthersStayOk(cfg, s, s', key, route, uid);
      }
    }
  }

  lemma CacheKeysAreDistinct(r1: Route, u1: Uuid, r2: Route, u2: Uuid)
    ensures Encode(CacheKey(r1, u1)) == Encode(CacheKey(r2, u2)) <==> r1 == r2 && u1 == u2
  {
    KeysAreDistinct(CacheKey(r1, u1), CacheKey(r2, u2));
    TemplatesDiffer();
  }

  /** Calls and writes that other parts of the program make on the store. */
  lemma OtherWritesKeepInv(cfg: Config, s: State, e: Event)
    requires Inv(cfg, s) && (e.EvictKey? || e.SpoilKey? || e.LoginCall? || e.SaveSummary?)
    ensures Inv(cfg, Step(cfg, s, e))
  {
    match e
    case EvictKey(key) => StoreKeepsInv(cfg, s, Evict(s.store, key));
    case SpoilKey(key) => StoreKeepsInv(cfg, s, Spoil(s.store, key));
    case LoginCall(ip, stamp, link) =>
      ChargeKeepsCacheKeys(cfg.maxAttempts, s.store, LoginBucket(ip), stamp, s.now, link);
      StoreKeepsInv(cfg, s, Charge(cfg.maxAttempts, s.store, LoginBucket(ip), stamp, s.now, link));
    case SaveSummary(target, summary, ttl, link) =>
      SaveKeepsCacheKeys(s.store, target, summary, ttl, s.now, link);
      StoreKeepsInv(cfg, s, Save(s.store, ThreatSummary(target), Summary(summary), ttl, s.now, link));
  }

  lemma StepKeepsInv(cfg: Config, s: State, e: Event)
    requires Inv(cfg, s)
    ensures Inv(cfg, Step(cfg, s, e))
  {
    match e
    case Advance(ms) => AdvanceKeepsInv(cfg, s, ms);
    case Commit(users) => CommitKeepsInv(cfg, s, users);
    case Arrive(id, route, header, clock, stamp, link) =>
      if id !in s.flights { ArriveKeepsInv(cfg, s, id, route, Request(header, clock, stamp, s.now, link)); }
    case Lookup(id, link) => if id in s.flights { LookupKeepsInv(cfg, s, id, link); }
    case Handle(id, ok, other) => if id in s.flights { HandleKeepsInv(cfg, s, id, ok, other); }
    case Fill(id, link) => if id in s.flights { FillKeepsInv(cfg, s, id, link); }
    case Drop(id) => LandKeepsInv(cfg, s, id);
    case _ => OtherWritesKeepInv(cfg, s, e);
  }

  lemma {:induction false} Reachable(cfg: Config, users: seq<User>, es: seq<Event>)
    ensures Inv(cfg, After(cfg, users, es))
  {
    if es != [] {
      Reachable(cfg, users, es[..|es| - 1]);
      StepKeepsInv(cfg, After(cfg, users, es[..|es| - 1]), es[|es| - 1]);
    }
  }

  /**
   Staleness bound: with a positive TTL, in every run, every 200 served on a cached route is the
   handler's own 200 for that route and user on a table that was the committed one at some moment no
   longer ago than the TTL plus the time the storing request took; an uncached answer is current.
   */
  lemma StalenessBound(cfg: Config, users: seq<User>, es: seq<Event>, s: State, r: Reply)
    requires cfg.cacheTtl > 0 && s == After(cfg, users, es) && r in s.replies
    requires r.response.status == 200 && Cached(r.route)
    ensures Faithful(s.versions, r.route, r.who.uid, r.response, r.note.version, r.note.readAt)
    ensures r.note.readAt <= r.at
    ensures if r.hit then r.at - r.note.readAt <= cfg.cacheTtl + (r.note.storedAt - r.note.startedAt)
            else r.note.readAt == r.at
  {
    Reachable(cfg, users, es);
    assert ReplyOk(cfg, s.versions, r);
  }

  // ----- Without a positive TTL there is no bound -----

  const ADMIN_ID: Uuid := "11111111-1111-1111-1111-111111111111"

  function AdminHeader(clock: int): Option<Claims> {
    Some(Claims(ADMIN_ID, ADMIN, clock + 1))
  }

  /** One listing of an empty table is stored; then a user is committed and time passes. */
  function StoreListing(): seq<Event> {
    [Arrive(0, ListUsers, AdminHeader(0), 0, 0, Down), Lookup(0, Up), Handle(0, true, EMPTY_LISTING), Fill(0, Up)]
  }

  function ReplayListing(later: nat): seq<Event> {
    [Commit([User("u", "e", "p", VIEWER)]), Advance(later), Arrive(1, ListUsers, AdminHeader(0), 0, 0, Down), Lookup(1, Up)]
  }

  lemma AfterFour(cfg: Config, users: seq<User>, es: seq<Event>, a: Event, b: Event, c: Event, d: Event)
    ensures After(cfg, users, es + [a, b, c, d]) ==
            Step(cfg, Step(cfg, Step(cfg, Step(cfg, After(cfg, users, es), a), b), c), d)
  {
    AfterOne(cfg, users, es, a);
    AfterOne(cfg, users, es + [a], b);
    AfterOne(cfg, users, es + [a] + [b], c);
    AfterOne(cfg, users, es + [a] + [b] + [c], d);
    assert es + [a, b, c, d] == es + [a] + [b] + [c] + [d];
  }

  /** An admin's request lets itself through when the limiter is unreachable, and changes no key. */
  lemma ArriveOpen(cfg: Config, s: State, id: nat)
    requires id !in s.flights && s.versions != []
    ensures var s' := Step(cfg, s, Arrive(id, ListUsers, AdminHeader(0), 0, 0, Down));
            && s'.store.keys == s.store.keys
            && s' == s.(store := s'.store,
                        flights := s.flights[id := Flight(ListUsers, Caller(ADMIN_ID, ADMIN), s.now, Before(Rest(ListUsers)))])
  {
    FrontChargesOnce(cfg.maxAttempts, s.store, ListUsers, Request(AdminHeader(0), 0, 0, s.now, Down));
  }

  const EMPTY_LISTING := Response(200, JSON, UsersBody([]))

  lemma ListingStored(cfg: Config)
    requires cfg.cacheTtl <= 0
    ensures var s := After(cfg, [], StoreListing());
            var key := Encode(CacheKey(ListUsers, ADMIN_ID));
            && s.now == 0 && s.flights == map[] && s.versions == [Version([], 0)] && |s.replies| == 1
            && key in s.store.keys && s.store.keys[key] == Entry(Blob(Encoded(EMPTY_LISTING)), None)
            && NoteAt(s, key) == Note(0, 0, 0, 0)
  {
    var s0 := Initial([]);
    var a, b, c, d := Arrive(0, ListUsers, AdminHeader(0), 0, 0, Down), Lookup(0, Up), Handle(0, true, EMPTY_LISTING), Fill(0, Up);
    AfterFour(cfg, [], [], a, b, c, d);
    assert [] + [a, b, c, d] == StoreListing();
    ListingAnswered(cfg);
    assert Step(cfg, Step(cfg, Step(cfg, Step(cfg, s0, a), b), c), d).flights == map[];
  }

  lemma ListingAnswered(cfg: Config)
    ensures var s := Step(cfg, Step(cfg, Step(cfg, Initial([]), Arrive(0, ListUsers, AdminHeader(0), 0, 0, Down)), Lookup(0, Up)),
                          Handle(0, true, EMPTY_LISTING));
            && s.now == 0 && s.versions == [Version([], 0)] && |s.replies| == 1
            && s.flights == map[0 := Flight(ListUsers, Caller(ADMIN_ID, ADMIN), 0, Answered(EMPTY_LISTING, 0, 0))]
  {
    var s0 := Initial([]);
    ArriveOpen(cfg, s0, 0);
    var s1 := Step(cfg, s0, Arrive(0, ListUsers, AdminHeader(0), 0, 0, Down));
    assert Step(cfg, s1, Lookup(0, Up)) ==
           s1.(flights := map[0 := Flight(ListUsers, Caller(ADMIN_ID, ADMIN), 0, Missed)]);
  }

  /** With a TTL that is not positive, an answer the table stopped giving can be replayed arbitrarily late. */
  lemma StalenessUnbounded(cfg: Config, later: nat)
    requires cfg.cacheTtl <= 0
    ensures var s := After(cfg, [], StoreListing() + ReplayListing(later));
            && |s.replies| == 2 && |s.versions| == 2
            && var r := s.replies[1];
            && r.hit && r.response == EMPTY_LISTING && r.response != Respond(ListUsers, ADMIN_ID, s.versions[1].users)
            && r.at - s.versions[1].since == later
  {
    var es := StoreListing();
    var user := User("u", "e", "p", VIEWER);
    var a, b, c, d := Commit([user]), Advance(later), Arrive(1, ListUsers, AdminHeader(0), 0, 0, Down), Lookup(1, Up);
    ListingStored(cfg);
    AfterFour(cfg, [], es, a, b, c, d);
    var s2 := Step(cfg, Step(cfg, After(cfg, [], es), a), b);
    ArriveOpen(cfg, s2, 1);
    var s3 := Step(cfg, s2, c);
    assert CacheHit(s3, ListUsers, ADMIN_ID, Up) == Some(EMPTY_LISTING);
    assert |Listing([user])| == 1;
  }
}
