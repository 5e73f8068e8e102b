/**
 The end-to-end quota role by role, in numbers, and its account in terms of the run's own events: one
 burst for each eviction of the key that happened, one response for each call Redis did not answer.
 */
module QuotaInNumbers {
  import opened Wrappers
  import opened Domain
  import opened Keyspace
  import opened RedisStore
  import opened Quotas
  import opened Pipeline
  import opened Gateway
  import TokenBucket
  import GatewayQuota

  /** Where in a run a key is evicted. */
  ghost function Evicted(es: seq<Event>, key: string): set<nat> {
    set i: nat | i < |es| && es[i] == EvictKey(key)
  }

  ghost function EvictionsOf(es: seq<Event>, key: string): nat {
    |Evicted(es, key)|
  }

  /** An arrival that authenticates as the caller while Redis does not answer. */
  predicate IsOutage(e: Event, who: Caller) {
    e.Arrive? && !e.link.Up? && GatewayQuota.CallsFor(Request(e.header, e.clock, e.stamp, 0, e.link), who)
  }

  ghost function Outages(es: seq<Event>, who: Caller): set<nat> {
    set i: nat | i < |es| && IsOutage(es[i], who)
  }

  ghost function OutagesFor(es: seq<Event>, who: Caller): nat {
    |Outages(es, who)|
  }

  lemma OneMoreEviction(es: seq<Event>, e: Event, key: string)
    ensures EvictionsOf(es + [e], key) == EvictionsOf(es, key) + if e == EvictKey(key) then 1 else 0
  {
    assert Evicted(es + [e], key) == Evicted(es, key) + if e == EvictKey(key) then {|es|} else {};
  }

  lemma OneMoreOutage(es: seq<Event>, e: Event, who: Caller)
    ensures OutagesFor(es + [e], who) == OutagesFor(es, who) + if IsOutage(e, who) then 1 else 0
  {
    assert Outages(es + [e], who) == Outages(es, who) + if IsOutage(e, who) then {|es|} else {};
  }

  /** What a call does to the two counters of its bucket. */
  lemma ChargeCounters(maxAttempts: int, s: Store, k: Key, now: int, at: int, link: Link)
    requires Sound(maxAttempts, s) && QuotaOf(maxAttempts, k).Some?
    ensures var a, a' := AccountOf(s, Encode(k)), AccountOf(Charge(maxAttempts, s, k, now, at, link), Encode(k));
            a'.evictions == a.evictions && a'.failedOpen <= a.failedOpen + if link.Up? then 0 else 1
  {
    NoTypeErrors(maxAttempts, s, k, now, at);
  }

  lemma ArriveCounters(cfg: Config, store: Store, route: Route, r: Request, who: Caller)
    requires Sound(cfg.maxAttempts, store)
    ensures var a := AccountOf(store, Encode(GatewayQuota.BucketOf(who)));
            var a' := AccountOf(Front(cfg.maxAttempts, store, Chain(route), ANONYMOUS, r).1, Encode(GatewayQuota.BucketOf(who)));
            && a'.evictions == a.evictions
            && a'.failedOpen <= a.failedOpen + if !r.link.Up? && GatewayQuota.CallsFor(r, who) then 1 else 0
  {
    if GatewayQuota.CallsFor(r, who) {
      FrontChargesOnce(cfg.maxAttempts, store, route, r);
      if QuotaForRole(who.role).Some? {
        ChargeCounters(cfg.maxAttempts, store, GatewayQuota.BucketOf(who), r.stamp, r.at, r.link);
      }
    } else {
      GatewayQuota.ArriveSparesOthers(cfg, store, route, r, GatewayQuota.BucketOf(who));
    }
  }

  lemma StepCounters(cfg: Config, s: State, e: Event, who: Caller)
    requires s.versions != [] && Sound(cfg.maxAttempts, s.store)
    ensures var key := Encode(GatewayQuota.BucketOf(who));
            var a, a' := AccountOf(s.store, key), AccountOf(Step(cfg, s, e).store, key);
            && a'.evictions <= a.evictions + (if e == EvictKey(key) then 1 else 0)
            && a'.failedOpen <= a.failedOpen + if IsOutage(e, who) then 1 else 0
  {
    if e.LoginCall? {
      ChargeSparesOthers(cfg.maxAttempts, s.store, LoginBucket(e.ip), e.stamp, s.now, e.link, GatewayQuota.BucketOf(who));
    } else if e.Arrive? {
      ArriveCounters(cfg, s.store, e.route, Request(e.header, e.clock, e.stamp, s.now, e.link), who);
    }
  }

  /** In every run the account counts no more evictions and failed-open calls than there were. */
  lemma {:induction false} CountersAreEvents(cfg: Config, users: seq<User>, es: seq<Event>, who: Caller)
    ensures var a := AccountOf(After(cfg, users, es).store, Encode(GatewayQuota.BucketOf(who)));
            a.evictions <= EvictionsOf(es, Encode(GatewayQuota.BucketOf(who))) && a.failedOpen <= OutagesFor(es, who)
  {
    if es != [] {
      var front, e := es[..|es| - 1], es[|es| - 1];
      CountersAreEvents(cfg, users, front, who);
      ReachableStore(cfg, users, front);
      StepCounters(cfg, After(cfg, users, front), e, who);
      assert es == front + [e];
      OneMoreEviction(front, e, Encode(GatewayQuota.BucketOf(who)));
      OneMoreOutage(front, e, who);
    }
  }

  /** At most `burst` responses, and `burst` more for each eviction, `perMinute` a minute, and one per outage. */
  predicate Within(replies: nat, burst: nat, perMinute: nat, evictions: nat, outages: nat, ms: nat) {
    60000 * replies <= 60000 * ((1 + evictions) * burst + outages) + ms * perMinute
  }

  lemma CountersBound(burst: nat, e: nat, evictions: nat, f: nat, outages: nat)
    requires e <= evictions && f <= outages
    ensures (1 + e) * burst + f <= (1 + evictions) * burst + outages
  {
    assert (evictions - e) * burst >= 0;
    assert (1 + evictions) * burst == (1 + e) * burst + (evictions - e) * burst;
  }

  /**
   The quota in numbers, from the start of any run in which Redis and the pods' stamps keep within the
   slack: an admin obtains at most 30 responses and 120 a minute, an analyst 20 and 60, a viewer 10 and
   30, plus a burst per eviction of the key and one response per call Redis did not answer.
   */
  lemma QuotaByRole(cfg: Config, users: seq<User>, es: seq<Event>, s: State, who: Caller, replies: nat,
                    evictions: nat, outages: nat, ms: nat)
    requires s == After(cfg, users, es) && GatewayQuota.SlackKept(cfg, users, es, 0, who)
    requires replies == GatewayQuota.RepliesTo(s.replies, who)
    requires evictions == EvictionsOf(es, Encode(GatewayQuota.BucketOf(who))) && outages == OutagesFor(es, who)
    requires ms == TokenBucket.Clock(AccountOf(s.store, Encode(GatewayQuota.BucketOf(who))).stamps)
    ensures who.role == "admin" ==> Within(replies, 30, 120, evictions, outages, ms)
    ensures who.role == "analyst" ==> Within(replies, 20, 60, evictions, outages, ms)
    ensures who.role == "viewer" ==> Within(replies, 10, 30, evictions, outages, ms)
    ensures who.role !in ["admin", "analyst", "viewer"] ==> replies == 0
  {
    if QuotaForRole(who.role).None? {
      GatewayQuota.NoPolicyNoReply(cfg, users, es, s, who);
    } else {
      QuotaOfRole(cfg, users, es, s, who, replies, evictions, outages, ms);
    }
  }

  lemma QuotaOfRole(cfg: Config, users: seq<User>, es: seq<Event>, s: State, who: Caller, replies: nat,
                    evictions: nat, outages: nat, ms: nat)
    requires s == After(cfg, users, es) && GatewayQuota.SlackKept(cfg, users, es, 0, who)
    requires QuotaForRole(who.role).Some? && replies == GatewayQuota.RepliesTo(s.replies, who)
    requires evictions == EvictionsOf(es, Encode(GatewayQuota.BucketOf(who))) && outages == OutagesFor(es, who)
    requires ms == TokenBucket.Clock(AccountOf(s.store, Encode(GatewayQuota.BucketOf(who))).stamps)
    ensures QuotaForRole(who.role).value.burst >= 0 && QuotaForRole(who.role).value.perMinute >= 0
    ensures var rq := QuotaForRole(who.role).value;
            Within(replies, rq.burst, rq.perMinute, evictions, outages, ms)
  {
    var rq, key := QuotaForRole(who.role).value, Encode(GatewayQuota.BucketOf(who));
    var a := AccountOf(s.store, key);
    assert es[..0] == [];
    GatewayQuota.QuotaEndToEnd(cfg, users, es, 0, Initial(users), s, who, OPENED, a);
    CountersAreEvents(cfg, users, es, who);
    CountersBound(rq.burst, a.evictions, evictions, a.failedOpen, outages);
  }
}
