/**
 What the handlers of the cached routes answer, in terms of the users table alone, and that every run
 shows it: the caller's own row on `/auth/me`, all rows newest first on `/admin/users`.
 */
module GatewayHandlers {
  import opened Wrappers
  import opened Domain
  import opened Keyspace
  import opened RedisStore
  import opened Pipeline
  import opened Gateway
  import GatewayCache

  /** The table has a row of this user. */
  ghost predicate Known(users: seq<User>, uid: string) {
    exists u :: u in users && u.id == uid
  }

  /** The body shows a row of this user: id, email and role, and nothing else. */
  ghost predicate ShowsUser(body: Body, users: seq<User>, uid: string) {
    exists u :: u in users && u.id == uid && body == UserBody(u.id, u.email, u.role)
  }

  /** The body shows every row once, the last inserted first. */
  predicate ShowsAll(body: Body, users: seq<User>) {
    && body.UsersBody? && |body.users| == |users|
    && forall i | 0 <= i < |users| ::
         var u := users[|users| - 1 - i];
         body.users[i] == UserBody(u.id, u.email, u.role)
  }

  lemma {:induction false} ListingShowsAll(users: seq<User>)
    ensures ShowsAll(UsersBody(Listing(users)), users)
  {
    if users != [] {
      var n := |users| - 1;
      ListingShowsAll(users[..n]);
      assert Listing(users)[1..] == Listing(users[..n]);
      forall i | 0 <= i < |users|
        ensures var u := users[n - i];
                Listing(users)[i] == UserBody(u.id, u.email, u.role)
      {
        if i > 0 { assert Listing(users)[i] == Listing(users[..n])[i - 1]; }
      }
    }
  }

  /** `Me` answers 200 exactly for a user the table knows, with that user's row; `ListUsers` always, with all rows. */
  lemma RespondMeans(uid: Uuid, users: seq<User>)
    ensures Respond(Me, uid, users).status == 200 <==> Known(users, uid)
    ensures Known(users, uid) ==> ShowsUser(Respond(Me, uid, users).body, users, uid)
    ensures !Known(users, uid) ==> Respond(Me, uid, users).status == 404
    ensures Respond(ListUsers, uid, users).status == 200 && ShowsAll(Respond(ListUsers, uid, users).body, users)
  {
    ListingShowsAll(users);
  }

  /** A reply that was not read from the cache is its handler's on the table it names, or an internal error. */
  ghost predicate HandledOk(versions: seq<Version>, r: Reply) {
    !r.hit && Cached(r.route) ==>
      && r.note.version < |versions|
      && (r.response == Respond(r.route, r.who.uid, versions[r.note.version].users) || r.response.status == 500)
  }

  ghost predicate AllHandled(s: State) {
    forall i | 0 <= i < |s.replies| :: HandledOk(s.versions, s.replies[i])
  }

  lemma LookupKeepsHandled(s: State, id: nat, link: Link)
    requires AllHandled(s) && id in s.flights
    ensures AllHandled(LookupStep(s, id, link))
  {}

  lemma HandleKeepsHandled(s: State, id: nat, ok: bool, other: Response)
    requires AllHandled(s) && id in s.flights && s.versions != []
    ensures AllHandled(HandleStep(s, id, ok, other))
  {}

  lemma StepKeepsHandled(cfg: Config, s: State, e: Event)
    requires s.versions != [] && AllHandled(s)
    ensures AllHandled(Step(cfg, s, e))
  {
    match e
    case Lookup(id, link) => if id in s.flights { LookupKeepsHandled(s, id, link); }
    case Handle(id, ok, other) => if id in s.flights { HandleKeepsHandled(s, id, ok, other); }
    case _ =>
  }

  lemma {:induction false} ReachableHandled(cfg: Config, users: seq<User>, es: seq<Event>)
    ensures AllHandled(After(cfg, users, es))
  {
    if es != [] {
      ReachableHandled(cfg, users, es[..|es| - 1]);
      StepKeepsHandled(cfg, After(cfg, users, es[..|es| - 1]), es[|es| - 1]);
    }
  }

  /**
   Every reply of every run on a cached route, hit or miss, internal errors apart, in terms of the table
   it names: on `/auth/me` it is a 200 exactly when that table knows the caller, and then shows the
   caller's own row; on `/admin/users` it is a 200 and shows all rows.
   */
  lemma RepliesShowTheTable(cfg: Config, users: seq<User>, es: seq<Event>, s: State, r: Reply)
    requires s == After(cfg, users, es) && r in s.replies && Cached(r.route) && r.response.status != 500
    ensures r.note.version < |s.versions|
    ensures r.route == Me ==> (r.response.status == 200 <==> Known(s.versions[r.note.version].users, r.who.uid))
    ensures r.route == Me && r.response.status == 200 ==>
              ShowsUser(r.response.body, s.versions[r.note.version].users, r.who.uid)
    ensures r.route == ListUsers ==>
              r.response.status == 200 && ShowsAll(r.response.body, s.versions[r.note.version].users)
  {
    GatewayCache.Reachable(cfg, users, es);
    ReachableHandled(cfg, users, es);
    var i :| 0 <= i < |s.replies| && s.replies[i] == r;
    assert HandledOk(s.versions, r) && GatewayCache.ReplyOk(cfg, s.versions, r);
    assert r.hit ==> s.replies[i].response.status == 200;
    RespondMeans(r.who.uid, s.versions[r.note.version].users);
  }
}
