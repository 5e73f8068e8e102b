/**
 The admin gate and the request pipeline together: accounts are registered, promoted and read while
 requests are served, and only tokens the accounts machine has issued verify. Every change of the users
 table is the commit the handlers then see.
 */
module AdminPipeline {
  import opened Wrappers
  import opened Domain
  import opened Quotas
  import opened Pipeline
  import RedisStore
  import AdminGate
  import Gateway

  datatype State = State(accounts: AdminGate.State, gateway: Gateway.State)

  datatype Event = Write(a: AdminGate.Event) | Serve(g: Gateway.Event)

  /** A bearer token that was never issued is no token. */
  function Verified(accounts: AdminGate.State, header: Option<Claims>): Option<Claims> {
    if header.Some? && AdminGate.Granted(accounts, header.value) then header else None
  }

  /** The pipeline's event, if it has one: commits come from the accounts only, and arrivals are verified. */
  function Served(accounts: AdminGate.State, g: Gateway.Event): Gateway.Event {
    match g
    case Commit(_) => Gateway.Advance(0)
    case Arrive(id, route, header, clock, stamp, link) =>
      Gateway.Arrive(id, route, Verified(accounts, header), clock, stamp, link)
    case _ => g
  }

  function Step(cfg: Gateway.Config, accessTTL: int, s: State, e: Event): (t: State)
    requires s.gateway.versions != []
    ensures t.gateway.versions != []
  {
    match e
    case Write(a) =>
      var accounts := AdminGate.Step(accessTTL, s.accounts, a);
      State(accounts, Gateway.Step(cfg, s.gateway, Gateway.Commit(accounts.users)))
    case Serve(g) => s.(gateway := Gateway.Step(cfg, s.gateway, Served(s.accounts, g)))
  }

  function After(cfg: Gateway.Config, accessTTL: int, es: seq<Event>): (s: State)
    ensures s.gateway.versions != []
  {
    if es == [] then State(AdminGate.After(accessTTL, []), Gateway.Initial([]))
    else Step(cfg, accessTTL, After(cfg, accessTTL, es[..|es| - 1]), es[|es| - 1])
  }

  /** Each half of a run is a run of its own machine, so all that is proved of those holds here. */
  lemma {:induction false} HalvesAreRuns(cfg: Gateway.Config, accessTTL: int, es: seq<Event>)
      returns (accounts: seq<AdminGate.Event>, served: seq<Gateway.Event>)
    ensures After(cfg, accessTTL, es).accounts == AdminGate.After(accessTTL, accounts)
    ensures After(cfg, accessTTL, es).gateway == Gateway.After(cfg, [], served)
  {
    if es == [] {
      accounts, served := [], [];
    } else {
      var front, e := es[..|es| - 1], es[|es| - 1];
      accounts, served := HalvesAreRuns(cfg, accessTTL, front);
      var s := After(cfg, accessTTL, front);
      match e
      case Write(a) =>
        var commit := Gateway.Commit(AdminGate.Step(accessTTL, s.accounts, a).users);
        Gateway.AfterOne(cfg, [], served, commit);
        assert (accounts + [a])[..|accounts|] == accounts;
        accounts, served := accounts + [a], served + [commit];
      case Serve(g) =>
        Gateway.AfterOne(cfg, [], served, Served(s.accounts, g));
        served := served + [Served(s.accounts, g)];
    }
  }

  /** Whoever is on an admin route holds the admin role, by the token and in the users table. */
  ghost predicate AdminsOnly(users: seq<User>, route: Route, who: Caller) {
    AdminOnly(route) ==> who.role == ADMIN && AdminGate.Stored(users, who.uid, ADMIN)
  }

  ghost predicate Gated(s: State) {
    && (forall id | id in s.gateway.flights ::
          AdminsOnly(s.accounts.users, s.gateway.flights[id].route, s.gateway.flights[id].who))
    && (forall i | 0 <= i < |s.gateway.replies| ::
          AdminsOnly(s.accounts.users, s.gateway.replies[i].route, s.gateway.replies[i].who))
    && s.gateway.versions != [] && s.gateway.versions[|s.gateway.versions| - 1].users == s.accounts.users
  }

  /** Past its arrival a request keeps its route and caller, and replies are to requests in flight. */
  ghost predicate FromFlights(s: Gateway.State, t: Gateway.State) {
    && (forall id | id in t.flights ::
          id in s.flights && t.flights[id].route == s.flights[id].route && t.flights[id].who == s.flights[id].who)
    && s.replies <= t.replies
    && (forall i | |s.replies| <= i < |t.replies| :: RepliesToFlight(s, t.replies[i]))
  }

  ghost predicate RepliesToFlight(s: Gateway.State, r: Gateway.Reply) {
    exists id :: id in s.flights && r.route == s.flights[id].route && r.who == s.flights[id].who
  }

  lemma LookupFromFlights(s: Gateway.State, id: nat, link: RedisStore.Link)
    requires id in s.flights
    ensures FromFlights(s, Gateway.LookupStep(s, id, link)) && Gateway.LookupStep(s, id, link).versions == s.versions
  {}

  lemma HandleFromFlights(s: Gateway.State, id: nat, ok: bool, other: RedisStore.Response)
    requires id in s.flights && s.versions != []
    ensures FromFlights(s, Gateway.HandleStep(s, id, ok, other)) && Gateway.HandleStep(s, id, ok, other).versions == s.versions
  {}

  lemma StepFromFlights(cfg: Gateway.Config, s: Gateway.State, g: Gateway.Event)
    requires s.versions != [] && !g.Arrive? && !g.Commit?
    ensures FromFlights(s, Gateway.Step(cfg, s, g)) && Gateway.Step(cfg, s, g).versions == s.versions
  {
    match g
    case Lookup(id, link) => if id in s.flights { LookupFromFlights(s, id, link); }
    case Handle(id, ok, other) => if id in s.flights { HandleFromFlights(s, id, ok, other); }
    case _ =>
  }

  /** A request boards only with an issued token that is fresh, and an admin route only with an admin's. */
  lemma BoardsVerified(cfg: Gateway.Config, s: State, g: Gateway.Event)
    requires s.gateway.versions != [] && g.Arrive? && g.id !in s.gateway.flights
    ensures var t := Gateway.Step(cfg, s.gateway, Served(s.accounts, g));
            && t.replies == s.gateway.replies && t.versions == s.gateway.versions
            && (t.flights == s.gateway.flights ||
                (&& g.header.Some? && AdminGate.Authenticates(s.accounts, g.header.value, g.clock)
                 && t.flights.Keys == s.gateway.flights.Keys + {g.id} && t.flights - {g.id} == s.gateway.flights - {g.id}
                 && var f := t.flights[g.id];
                 && f.route == g.route && f.who.uid == g.header.value.uid && f.who.role == g.header.value.role
                 && (AdminOnly(f.route) ==> MayPass(f.who.role, [ADMIN]))))
  {
    var r := Request(Verified(s.accounts, g.header), g.clock, g.stamp, s.gateway.now, g.link);
    FrontChargesOnce(cfg.maxAttempts, s.gateway.store, g.route, r);
    var t := Gateway.Step(cfg, s.gateway, Served(s.accounts, g));
    if t.flights != s.gateway.flights {
      assert t.flights == s.gateway.flights[g.id := t.flights[g.id]];
      assert t.flights - {g.id} == s.gateway.flights - {g.id};
    }
  }

  lemma ArriveKeepsGated(cfg: Gateway.Config, accessTTL: int, s: State, accounts: seq<AdminGate.Event>, g: Gateway.Event)
    requires s.gateway.versions != [] && Gated(s) && s.accounts == AdminGate.After(accessTTL, accounts)
    requires g.Arrive? && g.id !in s.gateway.flights
    ensures Gated(s.(gateway := Gateway.Step(cfg, s.gateway, Served(s.accounts, g))))
  {
    var t := Gateway.Step(cfg, s.gateway, Served(s.accounts, g));
    BoardsVerified(cfg, s, g);
    if t.flights != s.gateway.flights {
      if AdminOnly(g.route) { AdminGate.AdminGateHolds(accessTTL, accounts, g.header.value, g.clock); }
      forall id | id in t.flights ensures AdminsOnly(s.accounts.users, t.flights[id].route, t.flights[id].who) {
        if id != g.id {
          assert id in t.flights - {g.id};
          assert (t.flights - {g.id})[id] == (s.gateway.flights - {g.id})[id];
        }
      }
    }
  }

  lemma ServeKeepsGated(s: State, t: Gateway.State)
    requires s.gateway.versions != [] && Gated(s) && FromFlights(s.gateway, t) && t.versions == s.gateway.versions
    ensures Gated(s.(gateway := t))
  {
    forall i | 0 <= i < |t.replies| ensures AdminsOnly(s.accounts.users, t.replies[i].route, t.replies[i].who) {
      if i < |s.gateway.replies| {
        assert t.replies[i] == s.gateway.replies[i];
      } else {
        assert RepliesToFlight(s.gateway, t.replies[i]);
        var id :| id in s.gateway.flights
                  && t.replies[i].route == s.gateway.flights[id].route && t.replies[i].who == s.gateway.flights[id].who;
      }
    }
  }

  /** Admins stay admins, so whoever was let in stays entitled. */
  lemma WriteKeepsGated(cfg: Gateway.Config, accessTTL: int, s: State, accounts: seq<AdminGate.Event>, a: AdminGate.Event)
    requires s.gateway.versions != [] && Gated(s) && s.accounts == AdminGate.After(accessTTL, accounts)
    ensures Gated(Step(cfg, accessTTL, s, Write(a)))
  {
    var users, users' := s.accounts.users, AdminGate.Step(accessTTL, s.accounts, a).users;
    AdminGate.ReachableGuarded(accessTTL, accounts);
    AdminGate.StepKeepsUsers(accessTTL, s.accounts, a);
    forall uid | AdminGate.Stored(users, uid, ADMIN) ensures AdminGate.Stored(users', uid, ADMIN) {
      AdminGate.StoredGrows(users, users', uid);
    }
  }

  lemma {:induction false} ReachableGated(cfg: Gateway.Config, accessTTL: int, es: seq<Event>)
    ensures Gated(After(cfg, accessTTL, es))
  {
    if es != [] {
      var front, e := es[..|es| - 1], es[|es| - 1];
      var s := After(cfg, accessTTL, front);
      ReachableGated(cfg, accessTTL, front);
      var accounts, _ := HalvesAreRuns(cfg, accessTTL, front);
      match e
      case Write(a) => WriteKeepsGated(cfg, accessTTL, s, accounts, a);
      case Serve(g) =>
        if g.Arrive? && g.id !in s.gateway.flights {
          ArriveKeepsGated(cfg, accessTTL, s, accounts, g);
        } else if !g.Arrive? {
          StepFromFlights(cfg, s.gateway, Served(s.accounts, g));
          ServeKeepsGated(s, Gateway.Step(cfg, s.gateway, Served(s.accounts, g)));
        }
    }
  }

  /**
   The admin gate, end to end: after any run, every reply on an admin route, and every request past the
   limiter of one, is for a user whose token said admin and whose stored role is admin. This holds after
   every prefix, so also at the moment the request was let in; and handlers read the accounts' own table.
   */
  lemma AdminsOnlyEndToEnd(cfg: Gateway.Config, accessTTL: int, es: seq<Event>, s: State)
    requires s == After(cfg, accessTTL, es)
    ensures forall r | r in s.gateway.replies && AdminOnly(r.route) ::
              r.who.role == ADMIN && AdminGate.Stored(s.accounts.users, r.who.uid, ADMIN)
    ensures forall id | id in s.gateway.flights && AdminOnly(s.gateway.flights[id].route) ::
              s.gateway.flights[id].who.role == ADMIN && AdminGate.Stored(s.accounts.users, s.gateway.flights[id].who.uid, ADMIN)
    ensures s.gateway.versions[|s.gateway.versions| - 1].users == s.accounts.users
  {
    ReachableGated(cfg, accessTTL, es);
    forall r | r in s.gateway.replies ensures AdminsOnly(s.accounts.users, r.route, r.who) {
      var i :| 0 <= i < |s.gateway.replies| && s.gateway.replies[i] == r;
    }
  }

  /**
   And the role a request is let in, charged and answered under was stored for its user when a login or
   refresh read the row, less than the access lifetime plus that request's own duration before.
   */
  lemma RoleIsFreshOnArrival(cfg: Gateway.Config, accessTTL: int, es: seq<Event>, s: State, g: Gateway.Event, t: Gateway.State)
      returns (accounts: seq<AdminGate.Event>, m: nat, readAt: int, signedAt: int)
    requires s == After(cfg, accessTTL, es) && g.Arrive? && g.id !in s.gateway.flights
    requires t == Gateway.Step(cfg, s.gateway, Served(s.accounts, g)) && g.id in t.flights
    ensures s.accounts == AdminGate.After(accessTTL, accounts)
    ensures AdminGate.ReadFrom(accessTTL, accounts, m, t.flights[g.id].who.uid, t.flights[g.id].who.role, readAt)
    ensures g.header.Some? && AdminGate.Grant(g.header.value, readAt, signedAt) in s.accounts.grants
    ensures g.clock - readAt < accessTTL + (signedAt - readAt)
  {
    BoardsVerified(cfg, s, g);
    var served;
    accounts, served := HalvesAreRuns(cfg, accessTTL, es);
    m, readAt, signedAt := AdminGate.RoleFreshness(accessTTL, accounts, g.header.value, g.clock);
  }
}
