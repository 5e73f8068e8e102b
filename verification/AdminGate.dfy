/**
 Who can hold the admin role, and what a request that passes `RequireRole(admin)` proves. The user
 table is written by registration and by the admin bootstrap, each of which looks a row up and
 writes it in a later statement; a login or refresh reads a user row and signs a token later still.
 All of them interleave freely.
 */
module AdminGate {
  import opened Wrappers
  import opened Domain

  /** A token together with when its user row was read and when it was signed. */
  datatype Grant = Grant(claims: Claims, readAt: int, signedAt: int)

  datatype Phase =
    | Registering(email: string, password: string)
    | Promoting(id: string, email: string)
    | Seeding(email: string, password: string)
    | Reading(user: User, readAt: int)

  datatype State = State(users: seq<User>, requests: map<nat, Phase>, grants: seq<Grant>, seeds: set<string>)

  datatype Event =
    | RegisterFind(request: nat, email: string, password: string)
    | EnsureFind(request: nat, email: string, password: string)
    | Write(request: nat, id: string)                  // the insert or update that follows
    | ReadByEmail(request: nat, email: string, now: int) // Login
    | ReadByID(request: nat, id: string, now: int)       // Refresh
    | SignToken(request: nat, now: int)
    | Quit(request: nat)

  function Begin(s: State, request: nat, phase: Phase): State {
    s.(requests := s.requests[request := phase])
  }

  function Step(accessTTL: int, s: State, e: Event): State {
    if e.request in s.requests then
      var rest := s.(requests := s.requests - {e.request});
      match (e, s.requests[e.request])
      case (Write(_, id), Registering(email, password)) =>
        var u := User(id, email, password, VIEWER);
        if Insertable(s.users, u) then rest.(users := s.users + [u]) else rest
      case (Write(_, id), Seeding(email, password)) =>
        var u := User(id, email, password, ADMIN);
        if Insertable(s.users, u) then rest.(users := s.users + [u]) else rest
      case (Write(_, _), Promoting(id, _)) => rest.(users := UpdateRole(s.users, id, ADMIN))
      case (SignToken(_, now), Reading(user, readAt)) =>
        rest.(grants := s.grants + [Grant(Sign(user, now, accessTTL), readAt, now)])
      case (Quit(_), _) => rest
      case _ => s
    else
      match e
      case RegisterFind(request, email, password) =>
        if FindByEmail(s.users, email).Some? then s else Begin(s, request, Registering(email, password))
      case EnsureFind(request, email, password) =>
        if email == "" || password == "" then s
        else
          var t := s.(seeds := s.seeds + {email});
          (match FindByEmail(s.users, email)
           case Some(u) => if u.role == ADMIN then t else Begin(t, request, Promoting(u.id, email))
           case None => Begin(t, request, Seeding(email, password)))
      case ReadByEmail(request, email, now) =>
        (match FindByEmail(s.users, email)
         case Some(u) => Begin(s, request, Reading(u, now))
         case None => s)
      case ReadByID(request, id, now) =>
        (match FindByID(s.users, id)
         case Some(u) => Begin(s, request, Reading(u, now))
         case None => s)
      case _ => s
  }

  function After(accessTTL: int, es: seq<Event>): State {
    if es == [] then State([], map[], [], {})
    else Step(accessTTL, After(accessTTL, es[..|es| - 1]), es[|es| - 1])
  }

  /** The stored role of a user id is `role`. */
  ghost predicate Stored(users: seq<User>, id: string, role: string) {
    exists u :: u in users && u.id == id && u.role == role
  }

  ghost predicate Exists(users: seq<User>, id: string) {
    exists u :: u in users && u.id == id
  }

  /** Only viewers and seeded admins; whoever may write or has read an admin role is entitled to it. */
  ghost predicate Guarded(s: State) {
    && UniqueUsers(s.users)
    && (forall u | u in s.users :: u.role == VIEWER || (u.role == ADMIN && u.email in s.seeds))
    && (forall q | q in s.requests :: PhaseGuarded(s, s.requests[q]))
    && (forall g | g in s.grants && g.claims.role == ADMIN :: Stored(s.users, g.claims.uid, ADMIN))
  }

  ghost predicate PhaseGuarded(s: State, phase: Phase) {
    match phase
    case Registering(_, _) => true
    case Seeding(email, _) => email in s.seeds
    case Promoting(id, email) =>
      email in s.seeds && Exists(s.users, id) && forall u | u in s.users && u.id == id :: u.email == email
    case Reading(user, _) => user.role == ADMIN ==> Stored(s.users, user.id, ADMIN)
  }

  /** Rows stay, keep id and email, and change role only to admin. */
  ghost predicate RolesGrow(a: seq<User>, b: seq<User>) {
    && |a| <= |b|
    && forall i | 0 <= i < |a| :: b[i].id == a[i].id && b[i].email == a[i].email && (b[i].role == a[i].role || b[i].role == ADMIN)
  }

  lemma RolesGrowTransitive(a: seq<User>, b: seq<User>, c: seq<User>)
    requires RolesGrow(a, b) && RolesGrow(b, c)
    ensures RolesGrow(a, c)
  {}

  lemma StoredGrows(a: seq<User>, b: seq<User>, id: string)
    requires RolesGrow(a, b) && Stored(a, id, ADMIN)
    ensures Stored(b, id, ADMIN)
  {
    var u :| u in a && u.id == id && u.role == ADMIN;
    var i :| 0 <= i < |a| && a[i] == u;
    assert b[i] in b;
  }

  /** A new row may be any viewer, or a seeded admin. */
  lemma InsertKeepsUsers(users: seq<User>, u: User, seeds: set<string>)
    requires UniqueUsers(users) && Insertable(users, u)
    requires forall v | v in users :: v.role == VIEWER || (v.role == ADMIN && v.email in seeds)
    requires u.role == VIEWER || (u.role == ADMIN && u.email in seeds)
    ensures UniqueUsers(users + [u]) && RolesGrow(users, users + [u])
    ensures forall v | v in users + [u] :: v.role == VIEWER || (v.role == ADMIN && v.email in seeds)
  {}

  lemma PromotionKeepsUsers(users: seq<User>, id: string, email: string, seeds: set<string>)
    requires UniqueUsers(users) && email in seeds
    requires forall v | v in users :: v.role == VIEWER || (v.role == ADMIN && v.email in seeds)
    requires forall u | u in users && u.id == id :: u.email == email
    ensures var users' := UpdateRole(users, id, ADMIN);
            && UniqueUsers(users') && RolesGrow(users, users')
            && forall v | v in users' :: v.role == VIEWER || (v.role == ADMIN && v.email in seeds)
  {
    var users' := UpdateRole(users, id, ADMIN);
    forall v | v in users' ensures v.role == VIEWER || (v.role == ADMIN && v.email in seeds) {
      var i :| 0 <= i < |users'| && users'[i] == v;
      assert users[i] in users;
    }
  }

  lemma WriteKeepsUsers(accessTTL: int, s: State, e: Event)
    requires Guarded(s) && e.Write?
    ensures var s' := Step(accessTTL, s, e);
            && UniqueUsers(s'.users) && RolesGrow(s.users, s'.users)
            && (forall u | u in s'.users :: u.role == VIEWER || (u.role == ADMIN && u.email in s'.seeds))
  {
    if e.request in s.requests {
      assert PhaseGuarded(s, s.requests[e.request]);
      match s.requests[e.request]
      case Registering(email, password) =>
        var u := User(e.id, email, password, VIEWER);
        if Insertable(s.users, u) { InsertKeepsUsers(s.users, u, s.seeds); }
      case Seeding(email, password) =>
        var u := User(e.id, email, password, ADMIN);
        if Insertable(s.users, u) { InsertKeepsUsers(s.users, u, s.seeds); }
      case Promoting(id, email) => PromotionKeepsUsers(s.users, id, email, s.seeds);
      case Reading(_, _) =>
    }
  }

  lemma StepKeepsUsers(accessTTL: int, s: State, e: Event)
    requires Guarded(s)
    ensures var s' := Step(accessTTL, s, e);
            && UniqueUsers(s'.users) && RolesGrow(s.users, s'.users) && s.seeds <= s'.seeds
            && (forall u | u in s'.users :: u.role == VIEWER || (u.role == ADMIN && u.email in s'.seeds))
  {
    if e.Write? { WriteKeepsUsers(accessTTL, s, e); }
  }

  /** A phase entitled before a step is entitled after it. */
  lemma PhaseStaysGuarded(s: State, s': State, phase: Phase)
    requires PhaseGuarded(s, phase) && RolesGrow(s.users, s'.users) && s.seeds <= s'.seeds && UniqueUsers(s'.users)
    ensures PhaseGuarded(s', phase)
  {
    match phase
    case Registering(_, _) =>
    case Seeding(_, _) =>
    case Promoting(id, email) =>
      var v :| v in s.users && v.id == id;
      var i :| 0 <= i < |s.users| && s.users[i] == v;
      forall u | u in s'.users && u.id == id ensures u.email == email {
        var j :| 0 <= j < |s'.users| && s'.users[j] == u;
        assert s'.users[i].id == id;
        assert i == j;
      }
      assert s'.users[i] in s'.users;
    case Reading(user, _) =>
      if user.role == ADMIN { StoredGrows(s.users, s'.users, user.id); }
  }

  lemma StartIsGuarded(accessTTL: int, s: State, e: Event)
    requires Guarded(s) && e.request !in s.requests
    ensures var s' := Step(accessTTL, s, e);
            forall q | q in s'.requests && q !in s.requests :: PhaseGuarded(s', s'.requests[q])
  {
    if e.EnsureFind? {
      var f := FindByEmail(s.users, e.email);
      if f.Some? {
        forall u | u in s.users && u.id == f.value.id ensures u.email == e.email {
          var i :| 0 <= i < |s.users| && s.users[i] == u;
          var j :| 0 <= j < |s.users| && s.users[j] == f.value;
        }
      }
    }
  }

  lemma StepKeepsPhases(accessTTL: int, s: State, e: Event)
    requires Guarded(s)
    ensures var s' := Step(accessTTL, s, e);
            forall q | q in s'.requests :: PhaseGuarded(s', s'.requests[q])
  {
    var s' := Step(accessTTL, s, e);
    StepKeepsUsers(accessTTL, s, e);
    if e.request !in s.requests { StartIsGuarded(accessTTL, s, e); }
    forall q | q in s'.requests ensures PhaseGuarded(s', s'.requests[q]) {
      if q in s.requests {
        assert s'.requests[q] == s.requests[q];
        PhaseStaysGuarded(s, s', s.requests[q]);
      }
    }
  }

  lemma StepKeepsGrants(accessTTL: int, s: State, e: Event)
    requires Guarded(s)
    ensures var s' := Step(accessTTL, s, e);
            && s.grants <= s'.grants
            && forall g | g in s'.grants && g.claims.role == ADMIN :: Stored(s'.users, g.claims.uid, ADMIN)
  {
    var s' := Step(accessTTL, s, e);
    StepKeepsUsers(accessTTL, s, e);
    forall g | g in s'.grants && g.claims.role == ADMIN ensures Stored(s'.users, g.claims.uid, ADMIN) {
      if g in s.grants {
        StoredGrows(s.users, s'.users, g.claims.uid);
      } else {
        assert PhaseGuarded(s, s.requests[e.request]);
      }
    }
  }

  lemma {:induction false} ReachableGuarded(accessTTL: int, es: seq<Event>)
    ensures Guarded(After(accessTTL, es))
  {
    if es != [] {
      var s, e := After(accessTTL, es[..|es| - 1]), es[|es| - 1];
      ReachableGuarded(accessTTL, es[..|es| - 1]);
      StepKeepsUsers(accessTTL, s, e);
      StepKeepsPhases(accessTTL, s, e);
      StepKeepsGrants(accessTTL, s, e);
    }
  }

  lemma RolesGrowOnce(accessTTL: int, es: seq<Event>, e: Event)
    ensures RolesGrow(After(accessTTL, es).users, After(accessTTL, es + [e]).users)
  {
    assert (es + [e])[..|es|] == es;
    ReachableGuarded(accessTTL, es);
    StepKeepsUsers(accessTTL, After(accessTTL, es), e);
  }

  /** Over any continuation rows stay in place, admins stay admins, and no role but admin is ever gained. */
  lemma {:induction false} AdminIsForGood(accessTTL: int, es: seq<Event>, more: seq<Event>)
    ensures RolesGrow(After(accessTTL, es).users, After(accessTTL, es + more).users)
    decreases |more|
  {
    if more == [] {
      assert es + more == es;
    } else {
      var front := more[..|more| - 1];
      AdminIsForGood(accessTTL, es, front);
      assert es + more == es + front + [more[|more| - 1]];
      RolesGrowOnce(accessTTL, es + front, more[|more| - 1]);
      RolesGrowTransitive(After(accessTTL, es).users, After(accessTTL, es + front).users, After(accessTTL, es + more).users);
    }
  }

  /** Emails that some call to the admin bootstrap named, with a password. */
  function Seeded(es: seq<Event>): set<string> {
    if es == [] then {}
    else
      var e := es[|es| - 1];
      Seeded(es[..|es| - 1]) + if e.EnsureFind? && e.email != "" && e.password != "" then {e.email} else {}
  }

  lemma {:induction false} SeededExactly(es: seq<Event>, email: string)
    ensures email in Seeded(es) <==>
            exists e :: e in es && e.EnsureFind? && e.email == email && email != "" && e.password != ""
  {
    if es != [] {
      var front, last := es[..|es| - 1], es[|es| - 1];
      SeededExactly(front, email);
      assert forall e :: e in es <==> e in front || e == last;
    }
  }

  lemma {:induction false} SeedsAreSeeded(accessTTL: int, es: seq<Event>)
    ensures After(accessTTL, es).seeds <= Seeded(es)
  {
    if es != [] { SeedsAreSeeded(accessTTL, es[..|es| - 1]); }
  }

  /** Every stored role is viewer, or admin under an email the bootstrap was given; analyst is never reached. */
  lemma OnlySeededAdmins(accessTTL: int, es: seq<Event>)
    ensures forall u | u in After(accessTTL, es).users :: u.role == VIEWER || (u.role == ADMIN && u.email in Seeded(es))
  {
    ReachableGuarded(accessTTL, es);
    SeedsAreSeeded(accessTTL, es);
  }

  // ----- Requests -----

  /** Only issued tokens verify (ideal signatures). */
  predicate Granted(s: State, claims: Claims) {
    exists g | g in s.grants :: g.claims == claims
  }

  /** `Auth`: the token verifies and has not expired. */
  predicate Authenticates(s: State, claims: Claims, now: int) {
    Fresh(claims, now) && Granted(s, claims)
  }

  /** `RequireRole`: a scan of the allowed roles that stops at the first match. */
  method RequireRole(role: string, allowed: seq<string>) returns (through: bool)
    ensures through <==> MayPass(role, allowed)
  {
    for i := 0 to |allowed|
      invariant role !in allowed[..i]
    {
      if role == allowed[i] { return true; }
    }
    return false;
  }

  /**
   The admin gate over whole runs: a request that authenticates and passes `RequireRole(admin)` is
   made for a user whose stored role is admin at that moment.
   */
  lemma AdminGateHolds(accessTTL: int, es: seq<Event>, claims: Claims, now: int)
    requires Authenticates(After(accessTTL, es), claims, now) && MayPass(claims.role, [ADMIN])
    ensures Stored(After(accessTTL, es).users, claims.uid, ADMIN)
  {
    ReachableGuarded(accessTTL, es);
  }

  /** At prefix `m` of the run, at time `readAt`, a login or refresh read a row with this id and role. */
  ghost predicate ReadFrom(accessTTL: int, es: seq<Event>, m: nat, uid: string, role: string, readAt: int) {
    && m < |es| && (es[m].ReadByEmail? || es[m].ReadByID?) && es[m].now == readAt
    && Stored(After(accessTTL, es[..m]).users, uid, role)
  }

  ghost predicate Traced(accessTTL: int, es: seq<Event>, uid: string, role: string, readAt: int) {
    exists m: nat :: ReadFrom(accessTTL, es, m, uid, role, readAt)
  }

  lemma TraceExtends(accessTTL: int, es: seq<Event>, e: Event, uid: string, role: string, readAt: int)
    requires Traced(accessTTL, es, uid, role, readAt)
    ensures Traced(accessTTL, es + [e], uid, role, readAt)
  {
    var m: nat :| ReadFrom(accessTTL, es, m, uid, role, readAt);
    assert (es + [e])[..m] == es[..m];
    assert ReadFrom(accessTTL, es + [e], m, uid, role, readAt);
  }

  ghost predicate AllTraced(accessTTL: int, es: seq<Event>) {
    var s := After(accessTTL, es);
    && (forall q | q in s.requests && s.requests[q].Reading? ::
          Traced(accessTTL, es, s.requests[q].user.id, s.requests[q].user.role, s.requests[q].readAt))
    && (forall g | g in s.grants ::
          && Traced(accessTTL, es, g.claims.uid, g.claims.role, g.readAt)
          && g.claims.expiresAt <= g.signedAt + accessTTL)
  }

  lemma {:induction false} ReachableTraced(accessTTL: int, es: seq<Event>)
    ensures AllTraced(accessTTL, es)
  {
    if es != [] {
      var front, e := es[..|es| - 1], es[|es| - 1];
      ReachableTraced(accessTTL, front);
      assert es == front + [e];
      TracedStep(accessTTL, front, e);
    }
  }

  lemma ReadIsTraced(accessTTL: int, es: seq<Event>, e: Event)
    requires (e.ReadByEmail? || e.ReadByID?) && e.request !in After(accessTTL, es).requests
    requires e.request in After(accessTTL, es + [e]).requests
    ensures var phase := After(accessTTL, es + [e]).requests[e.request];
            phase.Reading? && Traced(accessTTL, es + [e], phase.user.id, phase.user.role, phase.readAt)
  {
    assert (es + [e])[..|es|] == es;
    var phase := After(accessTTL, es + [e]).requests[e.request];
    assert phase.user in After(accessTTL, es).users;
    assert ReadFrom(accessTTL, es + [e], |es|, phase.user.id, phase.user.role, phase.readAt);
  }

  lemma TracedStep(accessTTL: int, es: seq<Event>, e: Event)
    requires AllTraced(accessTTL, es)
    ensures AllTraced(accessTTL, es + [e])
  {
    assert (es + [e])[..|es|] == es;
    var s, s' := After(accessTTL, es), After(accessTTL, es + [e]);
    forall q | q in s'.requests && s'.requests[q].Reading?
      ensures Traced(accessTTL, es + [e], s'.requests[q].user.id, s'.requests[q].user.role, s'.requests[q].readAt)
    {
      if q in s.requests {
        TraceExtends(accessTTL, es, e, s'.requests[q].user.id, s'.requests[q].user.role, s'.requests[q].readAt);
      } else {
        ReadIsTraced(accessTTL, es, e);
      }
    }
    forall g | g in s'.grants
      ensures Traced(accessTTL, es + [e], g.claims.uid, g.claims.role, g.readAt)
      ensures g.claims.expiresAt <= g.signedAt + accessTTL
    {
      TraceExtends(accessTTL, es, e, g.claims.uid, g.claims.role, g.readAt);
    }
  }

  /**
   How stale a role can be: a request that authenticates carries a role that was stored for its user
   when a login or refresh read the row, less than the access lifetime plus that request's own
   duration ago.
   */
  lemma RoleFreshness(accessTTL: int, es: seq<Event>, claims: Claims, now: int)
      returns (m: nat, readAt: int, signedAt: int)
    requires Authenticates(After(accessTTL, es), claims, now)
    ensures ReadFrom(accessTTL, es, m, claims.uid, claims.role, readAt)
    ensures Grant(claims, readAt, signedAt) in After(accessTTL, es).grants
    ensures now - readAt < accessTTL + (signedAt - readAt)
  {
    ReachableTraced(accessTTL, es);
    var g :| g in After(accessTTL, es).grants && g.claims == claims;
    readAt, signedAt := g.readAt, g.signedAt;
    m :| ReadFrom(accessTTL, es, m, claims.uid, claims.role, readAt);
  }

  // ----- What an issued token is good for -----

  /** Grants are only ever added. */
  lemma {:induction false} GrantsStay(accessTTL: int, es: seq<Event>, more: seq<Event>)
    ensures After(accessTTL, es).grants <= After(accessTTL, es + more).grants
    decreases |more|
  {
    if more == [] {
      assert es + more == es;
    } else {
      var front, e := more[..|more| - 1], more[|more| - 1];
      GrantsStay(accessTTL, es, front);
      assert es + more == es + front + [e];
      GrantsStayOnce(accessTTL, es + front, e);
    }
  }

  lemma GrantsStayOnce(accessTTL: int, es: seq<Event>, e: Event)
    ensures After(accessTTL, es).grants <= After(accessTTL, es + [e]).grants
  {
    assert (es + [e])[..|es|] == es;
  }

  /**
   A login or refresh that has read its user and signs at `now` issues a token with that user's id and
   role, which authenticates in whatever follows for the whole configured lifetime, to the second, and
   no longer.
   */
  lemma IssuedTokenAuthenticates(accessTTL: int, es: seq<Event>, request: nat, user: User, readAt: int, now: int,
                                 more: seq<Event>, claims: Claims, later: int)
    requires request in After(accessTTL, es).requests && After(accessTTL, es).requests[request] == Reading(user, readAt)
    requires claims == Sign(user, now, accessTTL)
    ensures claims.uid == user.id && claims.role == user.role
    ensures Granted(After(accessTTL, es + [SignToken(request, now)] + more), claims)
    ensures later + 1000 <= now + accessTTL ==>
              Authenticates(After(accessTTL, es + [SignToken(request, now)] + more), claims, later)
    ensures later >= now + accessTTL ==>
              !Authenticates(After(accessTTL, es + [SignToken(request, now)] + more), claims, later)
  {
    var signed := es + [SignToken(request, now)];
    assert signed[..|es|] == es;
    var g := Grant(claims, readAt, now);
    assert g in After(accessTTL, signed).grants;
    GrantsStay(accessTTL, signed, more);
    assert g in After(accessTTL, signed + more).grants;
    TokenLives(user, now, accessTTL, later);
  }

  /** Every grant lives from when it was signed for the configured lifetime, in every run. */
  lemma {:induction false} GrantsLive(accessTTL: int, es: seq<Event>, g: Grant, now: int)
    requires g in After(accessTTL, es).grants
    ensures now + 1000 <= g.signedAt + accessTTL ==> Authenticates(After(accessTTL, es), g.claims, now)
    ensures now >= g.signedAt + accessTTL ==> !Authenticates(After(accessTTL, es), g.claims, now)
  {
    if es != [] {
      var front, e := es[..|es| - 1], es[|es| - 1];
      var s := After(accessTTL, front);
      if g in s.grants {
        GrantsLive(accessTTL, front, g, now);
      } else {
        assert e.SignToken? && e.request in s.requests && s.requests[e.request].Reading?;
        TokenLives(s.requests[e.request].user, e.now, accessTTL, now);
      }
    }
  }

  /** And logging in gets there: any stored user can be read and signed for, on a request id not in use. */
  lemma LoginReads(accessTTL: int, es: seq<Event>, request: nat, email: string, now: int)
    requires request !in After(accessTTL, es).requests
    requires exists u :: u in After(accessTTL, es).users && u.email == email
    ensures var s := After(accessTTL, es + [ReadByEmail(request, email, now)]);
            && request in s.requests && s.requests[request].Reading? && s.requests[request].readAt == now
            && s.requests[request].user in s.users && s.requests[request].user.email == email
  {
    assert (es + [ReadByEmail(request, email, now)])[..|es|] == es;
  }

  // ----- A registration or a bootstrap on its own -----

  ghost predicate UsersAre(es: seq<Event>, users: seq<User>) {
    After(0, es).users == users && After(0, es).requests == map[]
  }

  /** A lookup, then the write that follows or the error that stops it. */
  function Registers(email: string, password: string, id: string, fails: bool): seq<Event> {
    [RegisterFind(0, email, password), if fails then Quit(0) else Write(0, id)]
  }

  function Ensures(email: string, password: string, id: string, fails: bool): seq<Event> {
    [EnsureFind(0, email, password), if fails then Quit(0) else Write(0, id)]
  }

  lemma AfterTwo(es: seq<Event>, e1: Event, e2: Event)
    ensures After(0, es + [e1, e2]) == Step(0, Step(0, After(0, es), e1), e2)
  {
    assert (es + [e1, e2])[..|es| + 1] == es + [e1] && (es + [e1])[..|es|] == es;
  }

  /** The table after an insert the constraints may reject. */
  function Inserted(users: seq<User>, u: User, fails: bool): seq<User> {
    if !fails && Insertable(users, u) then users + [u] else users
  }

  lemma RegisterRuns(es: seq<Event>, users: seq<User>, email: string, password: string, id: string, fails: bool)
    requires UsersAre(es, users) && FindByEmail(users, email).None?
    ensures UsersAre(es + Registers(email, password, id, fails), Inserted(users, User(id, email, password, VIEWER), fails))
  {
    AfterTwo(es, RegisterFind(0, email, password), if fails then Quit(0) else Write(0, id));
  }

  /** The table after a bootstrap: an admin inserted, a user promoted, or as before. */
  function Ensured(users: seq<User>, email: string, password: string, id: string, fails: bool): seq<User> {
    match FindByEmail(users, email)
    case None => Inserted(users, User(id, email, password, ADMIN), fails)
    case Some(u) => if u.role == ADMIN || fails then users else Domain.UpdateRole(users, u.id, ADMIN)
  }

  lemma EnsureRuns(es: seq<Event>, users: seq<User>, email: string, password: string, id: string, fails: bool)
    requires UsersAre(es, users) && email != "" && password != ""
    ensures UsersAre(es + Ensures(email, password, id, fails), Ensured(users, email, password, id, fails))
  {
    AfterTwo(es, EnsureFind(0, email, password), if fails then Quit(0) else Write(0, id));
  }

  /** A bootstrap that takes effect makes the email an admin's, unless the constraints reject the row. */
  lemma EnsuredIsAdmin(users: seq<User>, email: string, password: string, id: string)
    ensures var admins := Ensured(users, email, password, id, false);
            if FindByEmail(users, email).None? && !Insertable(users, User(id, email, password, ADMIN)) then
              admins == users && forall u | u in users :: u.email != email
            else exists u :: u in admins && u.email == email && u.role == ADMIN
  {
    var admins := Ensured(users, email, password, id, false);
    match FindByEmail(users, email)
    case None =>
      if Insertable(users, User(id, email, password, ADMIN)) { assert admins[|users|] in admins; }
    case Some(u) =>
      var i :| 0 <= i < |users| && users[i] == u;
      assert admins[i] in admins;
  }

  /** It is safe on every startup: where it has taken effect, doing it again changes nothing. */
  lemma EnsureIsIdempotent(users: seq<User>, email: string, password: string, id: string, again: string)
    requires UniqueUsers(users)
    requires FindByEmail(Ensured(users, email, password, id, false), email).Some?
    ensures var admins := Ensured(users, email, password, id, false);
            Ensured(admins, email, password, again, false) == admins
  {
    var admins := Ensured(users, email, password, id, false);
    var found := FindByEmail(admins, email).value;
    var j :| 0 <= j < |admins| && admins[j] == found;
    if FindByEmail(users, email).Some? {
      var u := FindByEmail(users, email).value;
      var i :| 0 <= i < |users| && users[i] == u;
      assert users[j].email == users[i].email;
      assert j == i;
    }
  }
}
