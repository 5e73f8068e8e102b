/**
 Where the times on a cached reply come from. Every hit goes back to one earlier request of the same
 user on the same route in the same run: its arrival, its handler's read and its fill happened when the
 reply's note says, so the bound on staleness speaks of that request's real duration.
 */
module GatewayOrigins {
  import opened Wrappers
  import opened Domain
  import opened Keyspace
  import opened RedisStore
  import opened Quotas
  import opened Pipeline
  import opened Gateway
  import GatewayCache

  /** Where in a run a request arrived, was handled, and filled the cache. */
  datatype Filling = Filling(id: nat, arrive: nat, handle: nat, fill: nat)

  ghost predicate InFlight(cfg: Config, users: seq<User>, es: seq<Event>, id: nat, from: nat, to: nat)
    requires to <= |es|
  {
    forall n | from < n <= to :: id in After(cfg, users, es[..n]).flights
  }

  /** Event `i` is the arrival, at `t`, of a request on `route`, and it has been in flight from there to `to`. */
  ghost predicate Arrived(cfg: Config, users: seq<User>, es: seq<Event>, i: nat, to: nat, id: nat, route: Route, t: int) {
    && i < to <= |es| && es[i].Arrive? && es[i].id == id && es[i].route == route
    && id !in After(cfg, users, es[..i]).flights && After(cfg, users, es[..i]).now == t
    && InFlight(cfg, users, es, id, i, to)
  }

  /** Event `h` is its handler's run, at `t`, when `version` was the latest table. */
  ghost predicate Handled(cfg: Config, users: seq<User>, es: seq<Event>, h: nat, id: nat, version: nat, t: int) {
    && h < |es| && es[h].Handle? && es[h].id == id
    && After(cfg, users, es[..h]).now == t && |After(cfg, users, es[..h]).versions| == version + 1
  }

  /** One request of this user on this route, from arrival to fill, at the times of the note. */
  ghost predicate Fills(cfg: Config, users: seq<User>, es: seq<Event>, route: Route, uid: Uuid, note: Note, f: Filling) {
    && f.arrive < f.handle < f.fill < |es|
    && Arrived(cfg, users, es, f.arrive, f.fill, f.id, route, note.startedAt)
    && Handled(cfg, users, es, f.handle, f.id, note.version, note.readAt)
    && es[f.fill].Fill? && es[f.fill].id == f.id
    && var s := After(cfg, users, es[..f.fill]);
    && s.now == note.storedAt && f.id in s.flights && s.flights[f.id].route == route && s.flights[f.id].who.uid == uid
  }

  // ----- What held of a run holds of its continuations -----

  lemma StillArrived(cfg: Config, users: seq<User>, es: seq<Event>, i: nat, to: nat, id: nat, route: Route, t: int)
    requires es != [] && Arrived(cfg, users, es[..|es| - 1], i, to, id, route, t)
    ensures Arrived(cfg, users, es, i, to, id, route, t)
  {
    var front := es[..|es| - 1];
    assert front[..i] == es[..i];
    forall n | i < n <= to ensures id in After(cfg, users, es[..n]).flights {
      assert front[..n] == es[..n];
    }
  }

  lemma StillHandled(cfg: Config, users: seq<User>, es: seq<Event>, h: nat, id: nat, version: nat, t: int)
    requires es != [] && Handled(cfg, users, es[..|es| - 1], h, id, version, t)
    ensures Handled(cfg, users, es, h, id, version, t)
  {
    assert es[..|es| - 1][..h] == es[..h];
  }

  lemma StillFills(cfg: Config, users: seq<User>, es: seq<Event>, route: Route, uid: Uuid, note: Note, f: Filling)
    requires es != [] && Fills(cfg, users, es[..|es| - 1], route, uid, note, f)
    ensures Fills(cfg, users, es, route, uid, note, f)
  {
    StillArrived(cfg, users, es, f.arrive, f.fill, f.id, route, note.startedAt);
    StillHandled(cfg, users, es, f.handle, f.id, note.version, note.readAt);
    assert es[..|es| - 1][..f.fill] == es[..f.fill];
  }

  lemma FliesOn(cfg: Config, users: seq<User>, es: seq<Event>, i: nat, id: nat, route: Route, t: int)
    requires es != [] && Arrived(cfg, users, es[..|es| - 1], i, |es| - 1, id, route, t)
    requires id in After(cfg, users, es[..|es|]).flights
    ensures Arrived(cfg, users, es, i, |es|, id, route, t)
  {
    StillArrived(cfg, users, es, i, |es| - 1, id, route, t);
  }

  // ----- One step -----

  /** A request in flight was in flight before, with the same start, or has just arrived. */
  ghost predicate FlewFrom(s: State, e: Event, id: nat, f: Flight) {
    || (id in s.flights && s.flights[id].route == f.route && s.flights[id].who == f.who
        && s.flights[id].startedAt == f.startedAt
        && (f.phase.Answered? ==>
              || s.flights[id].phase == f.phase
              || (e.Handle? && e.id == id && f.phase.version + 1 == |s.versions| && f.phase.readAt == s.now)))
    || (e.Arrive? && e.id == id && id !in s.flights && e.route == f.route && f.startedAt == s.now && !f.phase.Answered?)
  }

  lemma FlightFrom(cfg: Config, s: State, e: Event, id: nat)
    requires s.versions != [] && id in Step(cfg, s, e).flights
    ensures FlewFrom(s, e, id, Step(cfg, s, e).flights[id])
  {
    if e.Arrive? && e.id !in s.flights {
      ArriveFrom(cfg, s, e, id);
    }
  }

  lemma ArriveFrom(cfg: Config, s: State, e: Event, id: nat)
    requires s.versions != [] && e.Arrive? && e.id !in s.flights && id in Step(cfg, s, e).flights
    ensures FlewFrom(s, e, id, Step(cfg, s, e).flights[id])
  {
    FrontChargesOnce(cfg.maxAttempts, s.store, e.route, Request(e.header, e.clock, e.stamp, s.now, e.link));
  }

  /** A note was there before, or a request has just filled its key. */
  ghost predicate NotedFrom(s: State, e: Event, key: string, note: Note) {
    || (key in s.notes && s.notes[key] == note)
    || (e.Fill? && e.id in s.flights && s.flights[e.id].phase.Answered?
        && var f := s.flights[e.id];
           key == Encode(CacheKey(f.route, f.who.uid))
           && note == Note(f.phase.version, f.startedAt, f.phase.readAt, s.now))
  }

  lemma NoteFrom(cfg: Config, s: State, e: Event, key: string)
    requires s.versions != [] && key in Step(cfg, s, e).notes
    ensures NotedFrom(s, e, key, Step(cfg, s, e).notes[key])
  {}

  /** A hit reply was there before, or carries the note of its own key. */
  ghost predicate HitFrom(s: State, k: nat, r: Reply) {
    || (k < |s.replies| && s.replies[k] == r)
    || (CacheHit(s, r.route, r.who.uid, Up).Some? && r.note == NoteAt(s, Encode(CacheKey(r.route, r.who.uid))))
  }

  lemma ReplyFrom(cfg: Config, s: State, e: Event, k: nat)
    requires s.versions != [] && k < |Step(cfg, s, e).replies| && Step(cfg, s, e).replies[k].hit
    ensures HitFrom(s, k, Step(cfg, s, e).replies[k])
  {
    if e.Lookup? && e.id in s.flights { LookupReplies(s, e.id, e.link, k); }
    if e.Handle? && e.id in s.flights { HandleReplies(s, e.id, e.ok, e.other, k); }
  }

  lemma LookupReplies(s: State, id: nat, link: Link, k: nat)
    requires id in s.flights && k < |LookupStep(s, id, link).replies|
    ensures HitFrom(s, k, LookupStep(s, id, link).replies[k])
  {}

  lemma HandleReplies(s: State, id: nat, ok: bool, other: Response, k: nat)
    requires s.versions != [] && id in s.flights && k < |HandleStep(s, id, ok, other).replies|
    ensures HandleStep(s, id, ok, other).replies[k].hit ==> HitFrom(s, k, HandleStep(s, id, ok, other).replies[k])
  {}

  // ----- Whole runs -----

  /** A request in flight goes back to its arrival, and an answered one to its handler's run. */
  ghost predicate FlightBy(cfg: Config, users: seq<User>, es: seq<Event>, id: nat, f: Flight, i: nat, h: nat) {
    && Arrived(cfg, users, es, i, |es|, id, f.route, f.startedAt)
    && (f.phase.Answered? ==> i < h && Handled(cfg, users, es, h, id, f.phase.version, f.phase.readAt))
  }

  lemma NowArrived(cfg: Config, users: seq<User>, es: seq<Event>, s: State, id: nat, route: Route)
    requires es != [] && s == After(cfg, users, es[..|es| - 1]) && id !in s.flights
    requires es[|es| - 1].Arrive? && es[|es| - 1].id == id && es[|es| - 1].route == route
    requires id in After(cfg, users, es[..|es|]).flights
    ensures Arrived(cfg, users, es, |es| - 1, |es|, id, route, s.now)
  {}

  lemma FlightStep(cfg: Config, users: seq<User>, es: seq<Event>, s: State, id: nat)
    requires es != [] && s == After(cfg, users, es[..|es| - 1]) && id in After(cfg, users, es).flights
    ensures FlewFrom(s, es[|es| - 1], id, After(cfg, users, es).flights[id])
  {
    FlightFrom(cfg, s, es[|es| - 1], id);
  }

  lemma {:induction false} FlightOrigin(cfg: Config, users: seq<User>, es: seq<Event>, t: State, id: nat) returns (i: nat, h: nat)
    requires t == After(cfg, users, es) && id in t.flights
    ensures FlightBy(cfg, users, es, id, t.flights[id], i, h)
  {
    assert es[..|es|] == es;
    h := 0;
    var s, f := After(cfg, users, es[..|es| - 1]), t.flights[id];
    FlightStep(cfg, users, es, s, id);
    if id in s.flights {
      i, h := FlightOrigin(cfg, users, es[..|es| - 1], s, id);
      FliesOn(cfg, users, es, i, id, f.route, f.startedAt);
      if f.phase.Answered? {
        if s.flights[id].phase == f.phase {
          StillHandled(cfg, users, es, h, id, f.phase.version, f.phase.readAt);
        } else {
          h := |es| - 1;
        }
      }
    } else {
      i := |es| - 1;
      NowArrived(cfg, users, es, s, id, f.route);
    }
  }

  lemma NoteStep(cfg: Config, users: seq<User>, es: seq<Event>, s: State, key: string)
    requires es != [] && s == After(cfg, users, es[..|es| - 1]) && key in After(cfg, users, es).notes
    ensures NotedFrom(s, es[|es| - 1], key, After(cfg, users, es).notes[key])
  {
    NoteFrom(cfg, s, es[|es| - 1], key);
  }

  /** The last event fills the cache for a request whose arrival and handler's run are known. */
  lemma NowFills(cfg: Config, users: seq<User>, es: seq<Event>, s: State, id: nat, f: Flight, i: nat, h: nat)
    requires es != [] && s == After(cfg, users, es[..|es| - 1]) && id in s.flights && s.flights[id] == f
    requires f.phase.Answered? && es[|es| - 1].Fill? && es[|es| - 1].id == id
    requires FlightBy(cfg, users, es[..|es| - 1], id, f, i, h)
    ensures Fills(cfg, users, es, f.route, f.who.uid, Note(f.phase.version, f.startedAt, f.phase.readAt, s.now),
                  Filling(id, i, h, |es| - 1))
  {
    StillArrived(cfg, users, es, i, |es| - 1, id, f.route, f.startedAt);
    StillHandled(cfg, users, es, h, id, f.phase.version, f.phase.readAt);
  }

  lemma {:induction false} NoteOrigin(cfg: Config, users: seq<User>, es: seq<Event>, t: State, route: Route, uid: Uuid)
      returns (f: Filling)
    requires t == After(cfg, users, es) && Encode(CacheKey(route, uid)) in t.notes
    ensures Fills(cfg, users, es, route, uid, t.notes[Encode(CacheKey(route, uid))], f)
  {
    var key := Encode(CacheKey(route, uid));
    var front, e := es[..|es| - 1], es[|es| - 1];
    var s := After(cfg, users, front);
    NoteStep(cfg, users, es, s, key);
    if key in s.notes && s.notes[key] == t.notes[key] {
      f := NoteOrigin(cfg, users, front, s, route, uid);
      StillFills(cfg, users, es, route, uid, t.notes[key], f);
    } else {
      var g := s.flights[e.id];
      var i, h := FlightOrigin(cfg, users, front, s, e.id);
      NowFills(cfg, users, es, s, e.id, g, i, h);
      GatewayCache.CacheKeysAreDistinct(route, uid, g.route, g.who.uid);
      f := Filling(e.id, i, h, |es| - 1);
    }
  }

  lemma ReplyStep(cfg: Config, users: seq<User>, es: seq<Event>, s: State, k: nat)
    requires es != [] && s == After(cfg, users, es[..|es| - 1])
    requires k < |After(cfg, users, es).replies| && After(cfg, users, es).replies[k].hit
    ensures HitFrom(s, k, After(cfg, users, es).replies[k])
  {
    ReplyFrom(cfg, s, es[|es| - 1], k);
  }

  lemma HitIsNoted(cfg: Config, users: seq<User>, es: seq<Event>, s: State, route: Route, uid: Uuid)
    requires s == After(cfg, users, es) && CacheHit(s, route, uid, Up).Some?
    ensures Encode(CacheKey(route, uid)) in s.notes
  {
    GatewayCache.Reachable(cfg, users, es);
    assert GatewayCache.EntryOk(cfg, s, route, uid);
  }

  /**
   Every reply read from the cache was stored by one request of the same user on the same route, which
   arrived, read the table and filled the cache at the times the reply's note says.
   */
  lemma {:induction false} HitOrigin(cfg: Config, users: seq<User>, es: seq<Event>, t: State, k: nat) returns (f: Filling)
    requires t == After(cfg, users, es) && k < |t.replies| && t.replies[k].hit
    ensures Fills(cfg, users, es, t.replies[k].route, t.replies[k].who.uid, t.replies[k].note, f)
  {
    var front, r := es[..|es| - 1], t.replies[k];
    var s := After(cfg, users, front);
    ReplyStep(cfg, users, es, s, k);
    if k < |s.replies| && s.replies[k] == r {
      f := HitOrigin(cfg, users, front, s, k);
    } else {
      HitIsNoted(cfg, users, front, s, r.route, r.who.uid);
      f := NoteOrigin(cfg, users, front, s, r.route, r.who.uid);
    }
    StillFills(cfg, users, es, r.route, r.who.uid, r.note, f);
  }
}
