/**
 The end-to-end quota: how many responses one user can obtain under one role over any run of the
 pipeline, cache hits and misses alike, on all protected routes together.
 */
module GatewayQuota {
  import opened Wrappers
  import opened Domain
  import BucketFaults
  import TokenBucket
  import opened Keyspace
  import opened RedisStore
  import opened Quotas
  import opened Pipeline
  import opened Gateway

  /** Responses written to this caller past the limiter. */
  function RepliesTo(replies: seq<Reply>, who: Caller): nat {
    if replies == [] then 0
    else RepliesTo(replies[..|replies| - 1], who) + if replies[|replies| - 1].who == who then 1 else 0
  }

  /** The caller's requests past the limiter that have not been answered. */
  ghost function Aboard(s: State, who: Caller): set<nat> {
    set id | id in s.flights && s.flights[id].who == who && !s.flights[id].phase.Answered?
  }

  function BucketOf(who: Caller): Key {
    RoleBucket(who.role, who.uid)
  }

  /** What the caller has been let through without its bucket counting it. */
  ghost function Uncharged(s: State, who: Caller): int {
    RepliesTo(s.replies, who) + |Aboard(s, who)| - Passed(s.store, BucketOf(who))
  }

  /** Every response and every request aboard, but for `credit` of them, has been through the caller's bucket. */
  ghost predicate AllCharged(s: State, who: Caller, credit: int) {
    Uncharged(s, who) <= credit
  }

  lemma RepliesAppend(replies: seq<Reply>, r: Reply, who: Caller)
    ensures RepliesTo(replies + [r], who) == RepliesTo(replies, who) + if r.who == who then 1 else 0
  {
    assert (replies + [r])[..|replies|] == replies;
  }

  lemma {:induction false} RepliesAreExact(replies: seq<Reply>, who: Caller)
    ensures RepliesTo(replies, who) == |set i: nat | i < |replies| && replies[i].who == who|
  {
    var now := set i: nat | i < |replies| && replies[i].who == who;
    if replies == [] {
      assert now == {};
    } else {
      var n := |replies| - 1;
      var front := replies[..n];
      RepliesAreExact(front, who);
      var before := set i: nat | i < |front| && front[i].who == who;
      assert now == before + if replies[n].who == who then {n} else {};
    }
  }

  lemma ChargeCounts(maxAttempts: int, s: Store, k: Key, now: int, at: int, link: Link, other: Key)
    requires QuotaOf(maxAttempts, k).Some?
    ensures Passed(Charge(maxAttempts, s, k, now, at, link), other) ==
            Passed(s, other) + if other == k && Passes(maxAttempts, s, k, now, at, link) then 1 else 0
  {
    if other == k {
      ChargeCountsOnce(maxAttempts, s, k, now, at, link);
    } else {
      ChargeSparesOthers(maxAttempts, s, k, now, at, link, other);
    }
  }

  lemma SameBoard(s: State, s': State, who: Caller, credit: int)
    requires AllCharged(s, who, credit) && s'.replies == s.replies && s'.flights == s.flights
    requires Passed(s'.store, BucketOf(who)) == Passed(s.store, BucketOf(who))
    ensures AllCharged(s', who, credit)
  {
    assert Aboard(s', who) == Aboard(s, who);
  }

  /** The front of a chain counts one pass exactly when it lets the request through, in the caller's own bucket. */
  lemma FrontCounts(maxAttempts: int, store: Store, route: Route, r: Request, who: Caller)
    ensures var (v, store') := Front(maxAttempts, store, Chain(route), ANONYMOUS, r);
            Passed(store', BucketOf(who)) == Passed(store, BucketOf(who)) + if v.Through? && v.who == who then 1 else 0
  {
    FrontChargesOnce(maxAttempts, store, route, r);
    if Authenticated(r) && QuotaForRole(CallerOf(r).role).Some? {
      ChargeCounts(maxAttempts, store, BucketOf(CallerOf(r)), r.stamp, r.at, r.link, BucketOf(who));
    }
  }

  lemma ArriveKeepsCharged(cfg: Config, s: State, id: nat, route: Route, r: Request, who: Caller, credit: int)
    requires AllCharged(s, who, credit) && id !in s.flights
    ensures AllCharged(ArriveStep(cfg, s, id, route, r), who, credit)
  {
    var s' := ArriveStep(cfg, s, id, route, r);
    var (v, store) := Front(cfg.maxAttempts, s.store, Chain(route), ANONYMOUS, r);
    FrontCounts(cfg.maxAttempts, s.store, route, r, who);
    assert Aboard(s', who) == Aboard(s, who) + if v.Through? && v.who == who then {id} else {};
  }

  /** Answering a request moves it from aboard to answered. */
  lemma ReplyKeepsCharged(s: State, s': State, id: nat, r: Reply, who: Caller, credit: int)
    requires AllCharged(s, who, credit) && id in s.flights && !s.flights[id].phase.Answered? && r.who == s.flights[id].who
    requires s'.replies == s.replies + [r] && s'.store == s.store
    requires s'.flights - {id} == s.flights - {id} && (id in s'.flights ==> s'.flights[id].phase.Answered?)
    ensures AllCharged(s', who, credit)
  {
    RepliesAppend(s.replies, r, who);
    forall q ensures q in Aboard(s', who) <==> q in Aboard(s, who) - {id} {
      if q != id {
        assert q in s'.flights <==> q in s'.flights - {id};
        assert q in s.flights <==> q in s.flights - {id};
        assert q in s.flights ==> (s'.flights - {id})[q] == (s.flights - {id})[q];
      }
    }
    assert Aboard(s', who) == Aboard(s, who) - {id};
  }

  lemma MoveKeepsCharged(s: State, id: nat, phase: Phase, who: Caller, credit: int)
    requires AllCharged(s, who, credit) && id in s.flights && !s.flights[id].phase.Answered? && !phase.Answered?
    ensures AllCharged(Move(s, id, phase), who, credit)
  {
    assert Aboard(Move(s, id, phase), who) == Aboard(s, who);
  }

  lemma LookupKeepsCharged(s: State, id: nat, link: Link, who: Caller, credit: int)
    requires AllCharged(s, who, credit) && id in s.flights
    ensures AllCharged(LookupStep(s, id, link), who, credit)
  {
    var s', f := LookupStep(s, id, link), s.flights[id];
    if |s'.replies| > |s.replies| {
      ReplyKeepsCharged(s, s', id, s'.replies[|s.replies|], who, credit);
    } else if s' != s {
      MoveKeepsCharged(s, id, s'.flights[id].phase, who, credit);
    }
  }

  lemma HandleKeepsCharged(s: State, id: nat, ok: bool, other: Response, who: Caller, credit: int)
    requires AllCharged(s, who, credit) && id in s.flights && s.versions != []
    ensures AllCharged(HandleStep(s, id, ok, other), who, credit)
  {
    var s' := HandleStep(s, id, ok, other);
    if |s'.replies| > |s.replies| {
      ReplyKeepsCharged(s, s', id, s'.replies[|s.replies|], who, credit);
    }
  }

  lemma FillKeepsCharged(cfg: Config, s: State, id: nat, link: Link, who: Caller, credit: int)
    requires AllCharged(s, who, credit) && id in s.flights
    ensures AllCharged(FillStep(cfg, s, id, link), who, credit)
  {
    assert Aboard(FillStep(cfg, s, id, link), who) == Aboard(s, who);
  }

  lemma DropKeepsCharged(s: State, id: nat, who: Caller, credit: int)
    requires AllCharged(s, who, credit)
    ensures AllCharged(Land(s, id), who, credit)
  {
    SubsetSize(Aboard(Land(s, id), who), Aboard(s, who));
  }

  /** Steps that touch neither requests nor replies. */
  predicate Ambient(e: Event) {
    e.Advance? || e.Commit? || e.EvictKey? || e.SpoilKey? || e.LoginCall? || e.SaveSummary?
  }

  lemma AmbientKeepsCharged(cfg: Config, s: State, e: Event, who: Caller, credit: int)
    requires s.versions != [] && AllCharged(s, who, credit) && Ambient(e)
    ensures AllCharged(Step(cfg, s, e), who, credit)
  {
    if e.LoginCall? {
      ChargeCounts(cfg.maxAttempts, s.store, LoginBucket(e.ip), e.stamp, s.now, e.link, BucketOf(who));
    }
    SameBoard(s, Step(cfg, s, e), who, credit);
  }

  lemma StepKeepsCharged(cfg: Config, s: State, e: Event, who: Caller, credit: int)
    requires s.versions != [] && AllCharged(s, who, credit)
    ensures AllCharged(Step(cfg, s, e), who, credit)
  {
    if Ambient(e) {
      AmbientKeepsCharged(cfg, s, e, who, credit);
    } else if e.Drop? {
      DropKeepsCharged(s, e.id, who, credit);
    } else if e.Arrive? {
      if e.id !in s.flights {
        ArriveKeepsCharged(cfg, s, e.id, e.route, Request(e.header, e.clock, e.stamp, s.now, e.link), who, credit);
      }
    } else if e.id in s.flights {
      match e
      case Lookup(id, link) => LookupKeepsCharged(s, id, link, who, credit);
      case Handle(id, ok, other) => HandleKeepsCharged(s, id, ok, other, who, credit);
      case Fill(id, link) => FillKeepsCharged(cfg, s, id, link, who, credit);
    }
  }

  /** Every response, hit or miss, and every request past the limiter has been through the caller's bucket. */
  lemma {:induction false} EverythingCharged(cfg: Config, users: seq<User>, es: seq<Event>, who: Caller)
    ensures AllCharged(After(cfg, users, es), who, 0)
  {
    if es == [] {
      assert Aboard(Initial(users), who) == {};
    } else {
      EverythingCharged(cfg, users, es[..|es| - 1], who);
      StepKeepsCharged(cfg, After(cfg, users, es[..|es| - 1]), es[|es| - 1], who, 0);
    }
  }

  /** A caller whose role has no policy obtains nothing at all. */
  lemma NoPolicyNoReply(cfg: Config, users: seq<User>, es: seq<Event>, s: State, who: Caller)
    requires s == After(cfg, users, es) && QuotaForRole(who.role).None?
    ensures RepliesTo(s.replies, who) == 0
  {
    EverythingCharged(cfg, users, es, who);
    NoAccount(cfg, users, es, BucketOf(who));
  }

  /** Only a call on a bucket moves what its account has let through. */
  lemma StepPasses(cfg: Config, s: State, e: Event, k: Key)
    requires s.versions != []
    requires !e.LoginCall? && !e.Arrive?
    ensures Passed(Step(cfg, s, e).store, k) == Passed(s.store, k)
  {}

  lemma {:induction false} NoAccount(cfg: Config, users: seq<User>, es: seq<Event>, k: Key)
    requires QuotaOf(cfg.maxAttempts, k).None?
    ensures Passed(After(cfg, users, es).store, k) == 0
  {
    if es != [] {
      var s, e := After(cfg, users, es[..|es| - 1]), es[|es| - 1];
      NoAccount(cfg, users, es[..|es| - 1], k);
      if e.LoginCall? {
        ChargeSparesOthers(cfg.maxAttempts, s.store, LoginBucket(e.ip), e.stamp, s.now, e.link, k);
      } else if e.Arrive? {
        var r := Request(e.header, e.clock, e.stamp, s.now, e.link);
        ArriveSparesOthers(cfg, s.store, e.route, r, k);
      } else {
        StepPasses(cfg, s, e, k);
      }
    }
  }

  lemma ArriveSparesOthers(cfg: Config, store: Store, route: Route, r: Request, k: Key)
    requires Authenticated(r) && QuotaForRole(CallerOf(r).role).Some? ==> k != BucketOf(CallerOf(r))
    ensures AccountOf(Front(cfg.maxAttempts, store, Chain(route), ANONYMOUS, r).1, Encode(k)) == AccountOf(store, Encode(k))
  {
    FrontChargesOnce(cfg.maxAttempts, store, route, r);
    if Authenticated(r) && QuotaForRole(CallerOf(r).role).Some? {
      ChargeSparesOthers(cfg.maxAttempts, store, BucketOf(CallerOf(r)), r.stamp, r.at, r.link, k);
    }
  }

  // ----- Expiry takes nothing from the budget within the TTL's slack -----

  /** This request gets as far as its caller's bucket, if its route lets it. */
  predicate CallsFor(r: Request, who: Caller) {
    Authenticated(r) && CallerOf(r) == who
  }

  function RequestOf(s: State, e: Event): Request
    requires e.Arrive?
  {
    Request(e.header, e.clock, e.stamp, s.now, e.link)
  }

  /** Redis has seen the caller's key idle no longer than the timestamps show, plus the slack. */
  predicate WithinSlack(store: Store, r: Request, who: Caller) {
    var a := AccountOf(store, Encode(BucketOf(who)));
    a.last.Some? ==> r.at - a.lastAt <= r.stamp - a.last.value + BucketFaults.SLACK
  }

  /** That holds before every call for the caller after the first `n` events. */
  ghost predicate SlackKept(cfg: Config, users: seq<User>, es: seq<Event>, n: nat, who: Caller) {
    |es| <= n ||
    (var s, e := After(cfg, users, es[..|es| - 1]), es[|es| - 1];
     && SlackKept(cfg, users, es[..|es| - 1], n, who)
     && (e.Arrive? && CallsFor(RequestOf(s, e), who) ==> WithinSlack(s.store, RequestOf(s, e), who)))
  }

  lemma StepEarly(cfg: Config, s: State, e: Event, k: Key)
    requires s.versions != []
    requires !e.LoginCall? && !e.Arrive?
    ensures AccountOf(Step(cfg, s, e).store, Encode(k)).early == AccountOf(s.store, Encode(k)).early
  {}

  lemma ArriveEarly(cfg: Config, store: Store, route: Route, r: Request, who: Caller)
    requires Sound(cfg.maxAttempts, store) && QuotaForRole(who.role).Some?
    requires CallsFor(r, who) ==> WithinSlack(store, r, who)
    ensures var store' := Front(cfg.maxAttempts, store, Chain(route), ANONYMOUS, r).1;
            AccountOf(store', Encode(BucketOf(who))).early == AccountOf(store, Encode(BucketOf(who))).early
  {
    if CallsFor(r, who) {
      FrontChargesOnce(cfg.maxAttempts, store, route, r);
      EarlyOnlyBeyondSlack(cfg.maxAttempts, store, BucketOf(who), r.stamp, r.at, r.link);
    } else {
      ArriveSparesOthers(cfg, store, route, r, BucketOf(who));
    }
  }

  lemma NoEarlyStep(cfg: Config, s: State, e: Event, who: Caller)
    requires s.versions != [] && Sound(cfg.maxAttempts, s.store) && QuotaForRole(who.role).Some?
    requires e.Arrive? && CallsFor(RequestOf(s, e), who) ==> WithinSlack(s.store, RequestOf(s, e), who)
    ensures AccountOf(Step(cfg, s, e).store, Encode(BucketOf(who))).early == AccountOf(s.store, Encode(BucketOf(who))).early
  {
    if e.LoginCall? {
      ChargeSparesOthers(cfg.maxAttempts, s.store, LoginBucket(e.ip), e.stamp, s.now, e.link, BucketOf(who));
    } else if e.Arrive? {
      ArriveEarly(cfg, s.store, e.route, RequestOf(s, e), who);
    } else {
      StepEarly(cfg, s, e, BucketOf(who));
    }
  }

  /** So within the slack no expiry is early: the quota below is paid for by evictions and outages alone. */
  lemma {:induction false} NoEarlyExpiry(cfg: Config, users: seq<User>, es: seq<Event>, n: nat, s: State, who: Caller)
    requires SlackKept(cfg, users, es, n, who) && QuotaForRole(who.role).Some?
    requires n <= |es| && s == After(cfg, users, es[..n])
    ensures AccountOf(After(cfg, users, es).store, Encode(BucketOf(who))).early ==
            AccountOf(s.store, Encode(BucketOf(who))).early
  {
    if |es| == n {
      assert es[..n] == es;
    } else {
      var front := es[..|es| - 1];
      assert front[..n] == es[..n];
      NoEarlyExpiry(cfg, users, front, n, s, who);
      ReachableStore(cfg, users, front);
      NoEarlyStep(cfg, After(cfg, users, front), es[|es| - 1], who);
    }
  }

  // ----- The quota between any two moments of a run -----

  lemma SoundBucket(maxAttempts: int, store: Store, who: Caller)
    requires Sound(maxAttempts, store) && QuotaForRole(who.role).Some?
    ensures BucketSound(QuotaForRole(who.role).value.Limit(), store, Encode(BucketOf(who)))
  {
    KeyRoundTrip(BucketOf(who));
    assert KeySound(maxAttempts, store, Encode(BucketOf(who)));
  }

  lemma ArriveKeepsBudget(cfg: Config, store: Store, route: Route, r: Request, who: Caller, base: Account)
    requires Sound(cfg.maxAttempts, store) && QuotaForRole(who.role).Some?
    requires Budgeted(QuotaForRole(who.role).value.Limit(), store, Encode(BucketOf(who)), base)
    ensures var store' := Front(cfg.maxAttempts, store, Chain(route), ANONYMOUS, r).1;
            Budgeted(QuotaForRole(who.role).value.Limit(), store', Encode(BucketOf(who)), base)
  {
    var q := QuotaForRole(who.role).value.Limit();
    FrontChargesOnce(cfg.maxAttempts, store, route, r);
    SoundBucket(cfg.maxAttempts, store, who);
    if Authenticated(r) && QuotaForRole(CallerOf(r).role).Some? {
      ChargeKeepsBudget(cfg.maxAttempts, store, BucketOf(CallerOf(r)), r.stamp, r.at, r.link, BucketOf(who), q, base);
    }
  }

  /** Neither a cache component's `SET` nor spoiled bytes touch a bucket. */
  lemma CacheKeepsBudget(q: TokenBucket.Quota, store: Store, k: Key, payload: Payload, ttl: int, at: int, link: Link, bucket: Key, base: Account)
    requires k != bucket && Budgeted(q, store, Encode(bucket), base)
    ensures Budgeted(q, Save(store, k, payload, ttl, at, link), Encode(bucket), base)
  {
    KeysAreDistinct(k, bucket);
  }

  lemma SpoilKeepsBudget(q: TokenBucket.Quota, store: Store, spoiled: string, key: string, base: Account)
    requires Budgeted(q, store, key, base)
    ensures Budgeted(q, Spoil(store, spoiled), key, base)
  {}

  lemma StepKeepsBudget(cfg: Config, s: State, e: Event, who: Caller, q: TokenBucket.Quota, base: Account)
    requires s.versions != [] && Sound(cfg.maxAttempts, s.store)
    requires QuotaForRole(who.role).Some? && q == QuotaForRole(who.role).value.Limit()
    requires Budgeted(q, s.store, Encode(BucketOf(who)), base)
    ensures Budgeted(q, Step(cfg, s, e).store, Encode(BucketOf(who)), base)
  {
    var k := BucketOf(who);
    SoundBucket(cfg.maxAttempts, s.store, who);
    match e
    case EvictKey(key) => EvictKeepsBudget(q, s.store, key, Encode(k), base);
    case SpoilKey(key) => SpoilKeepsBudget(q, s.store, key, Encode(k), base);
    case LoginCall(ip, stamp, link) =>
      ChargeKeepsBudget(cfg.maxAttempts, s.store, LoginBucket(ip), stamp, s.now, link, k, q, base);
    case SaveSummary(target, summary, ttl, link) =>
      CacheKeepsBudget(q, s.store, ThreatSummary(target), Summary(summary), ttl, s.now, link, k, base);
    case Arrive(id, route, header, clock, stamp, link) =>
      if id !in s.flights { ArriveKeepsBudget(cfg, s.store, route, RequestOf(s, e), who, base); }
    case Fill(id, link) =>
      if id in s.flights && s.flights[id].phase.Answered? {
        var f := s.flights[id];
        CacheKeepsBudget(q, s.store, CacheKey(f.route, f.who.uid), Encoded(f.phase.response), cfg.cacheTtl, s.now, link, k, base);
      }
    case _ =>
  }

  /** Responses, requests aboard and tokens are charged to the budget that started at `base`. */
  ghost predicate ChargedTo(s: State, who: Caller, q: TokenBucket.Quota, credit: int, base: Account) {
    AllCharged(s, who, credit) && Budgeted(q, s.store, Encode(BucketOf(who)), base)
  }

  /** From any moment on, all is charged to the budget that starts then. */
  lemma {:induction false} ChargedSince(cfg: Config, users: seq<User>, es: seq<Event>, n: nat, s: State, who: Caller, q: TokenBucket.Quota)
    requires QuotaForRole(who.role).Some? && q == QuotaForRole(who.role).value.Limit()
    requires n <= |es| && s == After(cfg, users, es[..n])
    ensures ChargedTo(After(cfg, users, es), who, q, Uncharged(s, who), AccountOf(s.store, Encode(BucketOf(who))))
  {
    if |es| == n {
      assert es[..n] == es;
      BucketInRun(cfg, users, es, s, who);
      BudgetStarts(q, s.store, Encode(BucketOf(who)));
    } else {
      var front := es[..|es| - 1];
      assert front[..n] == es[..n];
      ChargedSince(cfg, users, front, n, s, who, q);
      ReachableStore(cfg, users, front);
      StepKeepsCharged(cfg, After(cfg, users, front), es[|es| - 1], who, Uncharged(s, who));
      StepKeepsBudget(cfg, After(cfg, users, front), es[|es| - 1], who, q, AccountOf(s.store, Encode(BucketOf(who))));
    }
  }

  lemma BucketInRun(cfg: Config, users: seq<User>, es: seq<Event>, s: State, who: Caller)
    requires s == After(cfg, users, es) && QuotaForRole(who.role).Some?
    ensures BucketSound(QuotaForRole(who.role).value.Limit(), s.store, Encode(BucketOf(who)))
  {
    ReachableStore(cfg, users, es);
    SoundBucket(cfg.maxAttempts, s.store, who);
  }

  /** Responses within a burst, the refill of the virtual clock, outages, evictions and early expiries since `base`. */
  predicate WithinQuota(replies: int, rq: RoleQuota, a: Account, base: Account) {
    60000 * replies
    <= 60000 * ((1 + (a.evictions - base.evictions) + (a.early - base.early)) * rq.burst + (a.failedOpen - base.failedOpen))
       + (TokenBucket.Clock(a.stamps) - TokenBucket.Clock(base.stamps)) * rq.perMinute
  }

  lemma QuotaInState(rq: RoleQuota, s: State, s': State, who: Caller, a: Account, a': Account)
    requires a == AccountOf(s.store, Encode(BucketOf(who))) && a' == AccountOf(s'.store, Encode(BucketOf(who)))
    requires BucketSound(rq.Limit(), s.store, Encode(BucketOf(who)))
    requires BucketSound(rq.Limit(), s'.store, Encode(BucketOf(who)))
    requires ChargedTo(s', who, rq.Limit(), Uncharged(s, who), a)
    ensures WithinQuota(RepliesTo(s'.replies, who) - RepliesTo(s.replies, who) - |Aboard(s, who)|, rq, a', a)
    ensures a.stamps <= a'.stamps
  {
    BudgetHolds(rq, s'.store, Encode(BucketOf(who)), a);
    assert a.virtual == TokenBucket.Clock(a.stamps);
    assert RepliesTo(s'.replies, who) - RepliesTo(s.replies, who) - |Aboard(s, who)| 
           <= Passed(s'.store, BucketOf(who)) - Passed(s.store, BucketOf(who));
  }

  /** On ordered timestamps the virtual clock measures the time from the first call, or from the last one before. */
  lemma ClockMeasures(stamps: seq<int>, all: seq<int>)
    requires stamps < all && TokenBucket.Ordered(all)
    ensures TokenBucket.Clock(all) - TokenBucket.Clock(stamps) ==
            all[|all| - 1] - if stamps == [] then all[0] else stamps[|stamps| - 1]
  {
    if stamps == [] {
      TokenBucket.VirtualIsElapsed(all, 0, |all| - 1);
    } else {
      TokenBucket.VirtualIsElapsed(all, |stamps| - 1, |all| - 1);
      VirtualIsLocal(stamps, all, |stamps| - 1);
    }
  }

  lemma {:induction false} VirtualIsLocal(stamps: seq<int>, all: seq<int>, n: nat)
    requires stamps <= all && n < |stamps|
    ensures TokenBucket.Virtual(all, n) == TokenBucket.Virtual(stamps, n)
  {
    if n > 0 { VirtualIsLocal(stamps, all, n - 1); }
  }

  /**
   End-to-end quota, in 60000ths of a response, between any two moments of any run: the responses a
   caller obtains after the first `n` events are at most those of its requests already aboard, one
   burst, the refill of the virtual time its calls saw, the calls that failed open, and one burst for
   each eviction or early expiry of its key. Virtual time is elapsed time when the calls' timestamps
   are ordered, and no expiry is early while the slack holds. From the start nothing is aboard.
   */
  lemma QuotaEndToEnd(cfg: Config, users: seq<User>, es: seq<Event>, n: nat, s: State, s': State,
                      who: Caller, a: Account, a': Account)
    requires n <= |es| && s == After(cfg, users, es[..n]) && s' == After(cfg, users, es) && QuotaForRole(who.role).Some?
    requires a == AccountOf(s.store, Encode(BucketOf(who))) && a' == AccountOf(s'.store, Encode(BucketOf(who)))
    ensures WithinQuota(RepliesTo(s'.replies, who) - RepliesTo(s.replies, who) - |Aboard(s, who)|,
                        QuotaForRole(who.role).value, a', a)
    ensures a.stamps <= a'.stamps
    ensures a.stamps < a'.stamps && TokenBucket.Ordered(a'.stamps) ==>
              TokenBucket.Clock(a'.stamps) - TokenBucket.Clock(a.stamps) ==
              a'.stamps[|a'.stamps| - 1] - if a.stamps == [] then a'.stamps[0] else a.stamps[|a.stamps| - 1]
    ensures SlackKept(cfg, users, es, n, who) ==> a'.early == a.early
    ensures n == 0 ==> RepliesTo(s.replies, who) == |Aboard(s, who)| == 0 && a == OPENED
  {
    QuotaBetween(cfg, users, es, n, s, s', who, a, a');
    if a.stamps < a'.stamps && TokenBucket.Ordered(a'.stamps) { ClockMeasures(a.stamps, a'.stamps); }
    NoEarlyWithinSlack(cfg, users, es, n, s, s', who);
    if n == 0 {
      assert s == Initial(users);
      NothingAtFirst(users, who);
    }
  }

  lemma QuotaBetween(cfg: Config, users: seq<User>, es: seq<Event>, n: nat, s: State, s': State,
                     who: Caller, a: Account, a': Account)
    requires n <= |es| && s == After(cfg, users, es[..n]) && s' == After(cfg, users, es) && QuotaForRole(who.role).Some?
    requires a == AccountOf(s.store, Encode(BucketOf(who))) && a' == AccountOf(s'.store, Encode(BucketOf(who)))
    ensures WithinQuota(RepliesTo(s'.replies, who) - RepliesTo(s.replies, who) - |Aboard(s, who)|,
                        QuotaForRole(who.role).value, a', a)
    ensures a.stamps <= a'.stamps
  {
    var rq := QuotaForRole(who.role).value;
    BucketInRun(cfg, users, es[..n], s, who);
    BucketInRun(cfg, users, es, s', who);
    ChargedSince(cfg, users, es, n, s, who, rq.Limit());
    QuotaInState(rq, s, s', who, a, a');
  }

  lemma NoEarlyWithinSlack(cfg: Config, users: seq<User>, es: seq<Event>, n: nat, s: State, s': State, who: Caller)
    requires n <= |es| && s == After(cfg, users, es[..n]) && s' == After(cfg, users, es) && QuotaForRole(who.role).Some?
    ensures SlackKept(cfg, users, es, n, who) ==>
              AccountOf(s'.store, Encode(BucketOf(who))).early == AccountOf(s.store, Encode(BucketOf(who))).early
  {
    if SlackKept(cfg, users, es, n, who) { NoEarlyExpiry(cfg, users, es, n, s, who); }
  }

  lemma NothingAtFirst(users: seq<User>, who: Caller)
    ensures var s := Initial(users);
            RepliesTo(s.replies, who) == |Aboard(s, who)| == 0 && AccountOf(s.store, Encode(BucketOf(who))) == OPENED
  {
    assert Aboard(Initial(users), who) == {};
  }
}
