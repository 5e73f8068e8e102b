/**
 What faults of the response cache can do to a request: nothing. A lookup that does not hit, for
 whatever reason, leaves the request with the reply an uncached request gets, and nothing that
 happens to its fill adds to its reply or changes it.
 */
module GatewayFaults {
  import opened Wrappers
  import opened Domain
  import opened Keyspace
  import opened RedisStore
  import opened Quotas
  import opened Pipeline
  import opened Gateway
  import GatewayCache

  /** The state after more events. */
  function Steps(cfg: Config, s: State, es: seq<Event>): (t: State)
    requires s.versions != []
    ensures t.versions != []
  {
    if es == [] then s else Step(cfg, Steps(cfg, s, es[..|es| - 1]), es[|es| - 1])
  }

  /** The event is a step of this request. */
  predicate Concerns(e: Event, id: nat) {
    (e.Arrive? || e.Lookup? || e.Handle? || e.Fill? || e.Drop?) && e.id == id
  }

  predicate SparesAll(es: seq<Event>, id: nat) {
    forall e | e in es :: !Concerns(e, id)
  }

  /** Two states that differ only in request `id`: past the cache in one, never sent to it in the other. */
  ghost predicate Twins(a: State, b: State, id: nat) {
    && id in a.flights && id in b.flights
    && b == a.(flights := b.flights) && a.flights - {id} == b.flights - {id}
    && b.flights[id] == a.flights[id].(phase := b.flights[id].phase)
    && Cached(a.flights[id].route)
    && (a.flights[id].phase == Missed || a.flights[id].phase == b.flights[id].phase)
    && b.flights[id].phase == Before([Handler(a.flights[id].route)])
  }

  lemma SameElsewhere(a: State, b: State, id: nat, other: nat)
    requires Twins(a, b, id) && other != id
    ensures other in a.flights <==> other in b.flights
    ensures other in a.flights ==> a.flights[other] == b.flights[other]
  {
    assert other in a.flights <==> other in a.flights - {id};
    assert other in b.flights <==> other in b.flights - {id};
    assert other in a.flights ==> (a.flights - {id})[other] == (b.flights - {id})[other];
  }

  /** Boarding or landing another request, alike in both. */
  lemma TwinsBoard(a: State, b: State, id: nat, other: nat, f: Flight, a': State, b': State)
    requires Twins(a, b, id) && other != id
    requires a' == b'.(flights := a'.flights)
    requires a'.flights == a.flights[other := f] && b'.flights == b.flights[other := f]
    ensures Twins(a', b', id)
  {
    assert a'.flights - {id} == (a.flights - {id})[other := f];
    assert b'.flights - {id} == (b.flights - {id})[other := f];
  }

  lemma TwinsLand(a: State, b: State, id: nat, other: nat, a': State, b': State)
    requires Twins(a, b, id) && other != id
    requires a' == b'.(flights := a'.flights)
    requires a'.flights == a.flights - {other} && b'.flights == b.flights - {other}
    ensures Twins(a', b', id)
  {
    assert a'.flights - {id} == a.flights - {id} - {other};
    assert b'.flights - {id} == b.flights - {id} - {other};
  }

  lemma TwinsArrive(cfg: Config, a: State, b: State, id: nat, other: nat, route: Route, r: Request)
    requires Twins(a, b, id) && other != id
    ensures Twins(ArriveStep(cfg, a, other, route, r), ArriveStep(cfg, b, other, route, r), id)
  {
    var (v, store) := Front(cfg.maxAttempts, a.store, Chain(route), ANONYMOUS, r);
    match v
    case Rejected(_) =>
    case Through(who, rest) =>
      TwinsBoard(a, b, id, other, Flight(route, who, a.now, Before(rest)),
                 ArriveStep(cfg, a, other, route, r), ArriveStep(cfg, b, other, route, r));
  }

  lemma TwinsLookup(a: State, b: State, id: nat, other: nat, link: Link)
    requires Twins(a, b, id) && other != id && other in a.flights && other in b.flights
    ensures Twins(LookupStep(a, other, link), LookupStep(b, other, link), id)
  {
    SameElsewhere(a, b, id, other);
    var f, a', b' := a.flights[other], LookupStep(a, other, link), LookupStep(b, other, link);
    if other in a'.flights {
      if a' != a { TwinsBoard(a, b, id, other, a'.flights[other], a', b'); }
    } else {
      TwinsLand(a, b, id, other, a', b');
    }
  }

  lemma TwinsHandle(a: State, b: State, id: nat, other: nat, ok: bool, answer: Response)
    requires Twins(a, b, id) && other != id && other in a.flights && other in b.flights && a.versions != []
    ensures Twins(HandleStep(a, other, ok, answer), HandleStep(b, other, ok, answer), id)
  {
    SameElsewhere(a, b, id, other);
    var a', b' := HandleStep(a, other, ok, answer), HandleStep(b, other, ok, answer);
    if other in a'.flights {
      if a' != a { TwinsBoard(a, b, id, other, a'.flights[other], a', b'); }
    } else {
      TwinsLand(a, b, id, other, a', b');
    }
  }

  lemma TwinsFill(cfg: Config, a: State, b: State, id: nat, other: nat, link: Link)
    requires Twins(a, b, id) && other != id && other in a.flights && other in b.flights
    ensures Twins(FillStep(cfg, a, other, link), FillStep(cfg, b, other, link), id)
  {
    SameElsewhere(a, b, id, other);
    if a.flights[other].phase.Answered? {
      TwinsLand(a, b, id, other, FillStep(cfg, a, other, link), FillStep(cfg, b, other, link));
    }
  }

  lemma StepKeepsTwins(cfg: Config, a: State, b: State, id: nat, e: Event)
    requires Twins(a, b, id) && a.versions != [] && !Concerns(e, id)
    ensures Twins(Step(cfg, a, e), Step(cfg, b, e), id)
  {
    if e.Arrive? || e.Lookup? || e.Handle? || e.Fill? || e.Drop? {
      SameElsewhere(a, b, id, e.id);
      match e
      case Arrive(other, route, header, clock, stamp, link) =>
        if other !in a.flights { TwinsArrive(cfg, a, b, id, other, route, Request(header, clock, stamp, a.now, link)); }
      case Lookup(other, link) => if other in a.flights { TwinsLookup(a, b, id, other, link); }
      case Handle(other, ok, answer) => if other in a.flights { TwinsHandle(a, b, id, other, ok, answer); }
      case Fill(other, link) => if other in a.flights { TwinsFill(cfg, a, b, id, other, link); }
      case Drop(other) => TwinsLand(a, b, id, other, Land(a, other), Land(b, other));
    }
  }

  lemma {:induction false} RunKeepsTwins(cfg: Config, a: State, b: State, id: nat, es: seq<Event>)
    requires Twins(a, b, id) && a.versions != [] && b.versions != [] && SparesAll(es, id)
    ensures Twins(Steps(cfg, a, es), Steps(cfg, b, es), id)
  {
    if es != [] {
      var front := es[..|es| - 1];
      RunKeepsTwins(cfg, a, b, id, front);
      StepKeepsTwins(cfg, Steps(cfg, a, front), Steps(cfg, b, front), id, es[|es| - 1]);
    }
  }

  /** The one reply of a request whose handler runs: the handler's answer on the table of that moment. */
  function HandlersReply(s: State, id: nat, ok: bool, other: Response): Reply
    requires id in s.flights && s.versions != []
  {
    var f, v := s.flights[id], |s.versions| - 1;
    Reply(f.route, f.who, HandlerAnswer(f.route, f.who.uid, s.versions[v].users, ok, other), s.now, false,
          Note(v, f.startedAt, s.now, s.now))
  }

  lemma TwinsAnswerAlike(a: State, b: State, id: nat, ok: bool, other: Response)
    requires Twins(a, b, id) && a.versions != []
    ensures HandleStep(a, id, ok, other).replies == a.replies + [HandlersReply(a, id, ok, other)]
    ensures HandleStep(b, id, ok, other).replies == HandleStep(a, id, ok, other).replies
  {}

  /** Replies are only ever added. */
  lemma {:induction false} RepliesGrow(cfg: Config, s: State, es: seq<Event>)
    requires s.versions != []
    ensures s.replies <= Steps(cfg, s, es).replies
  {
    if es != [] { RepliesGrow(cfg, s, es[..|es| - 1]); }
  }

  /**
   When a lookup misses, in any reachable state: exactly when the server does not answer, nothing live
   is stored, or what is stored does not decode. A value of the wrong type is never met.
   */
  lemma MissesExactly(cfg: Config, users: seq<User>, es: seq<Event>, s: State, route: Route, uid: Uuid, link: Link)
    requires s == After(cfg, users, es)
    ensures var key := Encode(CacheKey(route, uid));
            CacheHit(s, route, uid, link).None? <==>
            !link.Up? || !Serves(s.store.keys, key, s.now) || s.store.keys[key].value == Blob(Garbled)
  {
    GatewayCache.Reachable(cfg, users, es);
    assert GatewayCache.EntryOk(cfg, s, route, uid);
    MissesOnEntry(cfg, s, route, uid, link);
  }

  lemma MissesOnEntry(cfg: Config, s: State, route: Route, uid: Uuid, link: Link)
    requires GatewayCache.EntryOk(cfg, s, route, uid)
    ensures var key := Encode(CacheKey(route, uid));
            CacheHit(s, route, uid, link).None? <==>
            !link.Up? || !Serves(s.store.keys, key, s.now) || s.store.keys[key].value == Blob(Garbled)
  {}

  lemma MissMakesTwins(s: State, id: nat, link: Link)
    requires id in s.flights
    requires var f := s.flights[id];
             && Cached(f.route) && f.phase == Before(Rest(f.route))
             && (f.who.uid == NIL || CacheHit(s, f.route, f.who.uid, link).None?)
    ensures Twins(LookupStep(s, id, link), Move(s, id, Before([Handler(s.flights[id].route)])), id)
  {
    var a, b := LookupStep(s, id, link), Move(s, id, Before([Handler(s.flights[id].route)]));
    assert Rest(s.flights[id].route)[1..] == [Handler(s.flights[id].route)];
    assert a.flights - {id} == b.flights - {id};
  }

  /**
   Cache faults never change an answer. Take any state, reachable or not, a request about to look its
   response up, and a lookup that does not hit. Whatever other requests and faults do before its
   handler runs, the handler's step replies exactly what it replies to a request that was never sent
   to the cache: its own answer on the table of that moment. And whatever happens until the answer is
   stored, or to storing it, adds no reply of this request and takes none back.
   */
  lemma FaultsAreInvisible(cfg: Config, s: State, id: nat, link: Link, before: seq<Event>, looked: State, bare: State,
                           ok: bool, other: Response, handled: State, after: seq<Event>, end: State, fill: Link)
    requires s.versions != [] && id in s.flights
    requires var f := s.flights[id];
             && Cached(f.route) && f.phase == Before(Rest(f.route))
             && (f.who.uid == NIL || CacheHit(s, f.route, f.who.uid, link).None?)
    requires SparesAll(before, id) && SparesAll(after, id)
    requires looked == Steps(cfg, Step(cfg, s, Lookup(id, link)), before)
    requires bare == Steps(cfg, Move(s, id, Before([Handler(s.flights[id].route)])), before)
    requires handled == Step(cfg, looked, Handle(id, ok, other)) && end == Steps(cfg, handled, after)
    ensures id in looked.flights && handled.replies == looked.replies + [HandlersReply(looked, id, ok, other)]
    ensures id in bare.flights && handled.replies == Step(cfg, bare, Handle(id, ok, other)).replies
    ensures handled.replies <= end.replies
    ensures Step(cfg, end, Fill(id, fill)).replies == end.replies
  {
    var a, b := LookupStep(s, id, link), Move(s, id, Before([Handler(s.flights[id].route)]));
    MissMakesTwins(s, id, link);
    RunKeepsTwins(cfg, a, b, id, before);
    TwinsAnswerAlike(looked, bare, id, ok, other);
    RepliesGrow(cfg, handled, after);
    FillRepliesNothing(cfg, end, id, fill);
  }

  lemma FillRepliesNothing(cfg: Config, s: State, id: nat, fill: Link)
    requires s.versions != []
    ensures Step(cfg, s, Fill(id, fill)).replies == s.replies
  {}

  // ----- What the cache is for -----

  /**
   A stored answer is what the next lookups find: as long as the entry is left alone and its TTL has not
   run out, a later request of the same user on the same route is answered from it, without its handler.
   */
  lemma FillMakesHits(cfg: Config, s: State, id: nat, fill: Link, t: State, later: nat)
    requires s.versions != [] && id in s.flights && s.flights[id].phase.Answered? && !fill.Down?
    requires var key := Encode(CacheKey(s.flights[id].route, s.flights[id].who.uid));
             var filled := Step(cfg, s, Fill(id, fill));
             && key in filled.store.keys && key in t.store.keys
             && t.store.keys[key] == filled.store.keys[key] && NoteAt(t, key) == NoteAt(filled, key)
    requires cfg.cacheTtl > 0 ==> t.now <= s.now + cfg.cacheTtl
    requires t.versions != [] && later in t.flights && t.flights[later].phase == Before([ResponseCache, Handler(t.flights[later].route)])
    requires t.flights[later].route == s.flights[id].route && t.flights[later].who.uid == s.flights[id].who.uid != NIL
    ensures var f, g := s.flights[id], t.flights[later];
            var note := Note(f.phase.version, f.startedAt, f.phase.readAt, s.now);
            && Step(cfg, t, Lookup(later, Up)).replies ==
               t.replies + [Reply(g.route, g.who, f.phase.response, t.now, true, note)]
            && later !in Step(cfg, t, Lookup(later, Up)).flights
  {
    var f := s.flights[id];
    var key := Encode(CacheKey(f.route, f.who.uid));
    GetAfterSet(s.store.keys, key, Encoded(f.phase.response), cfg.cacheTtl, s.now, "", t.now);
    assert CacheHit(t, f.route, f.who.uid, Up) == Some(f.phase.response);
  }

  /** And filling does store it, under the caller's own key. */
  lemma FillStores(cfg: Config, s: State, id: nat, fill: Link)
    requires s.versions != [] && id in s.flights && s.flights[id].phase.Answered? && !fill.Down?
    ensures var f := s.flights[id];
            Encode(CacheKey(f.route, f.who.uid)) in Step(cfg, s, Fill(id, fill)).store.keys
  {}
}
