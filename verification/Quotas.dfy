/**
 Every bucket in the shared keyspace at once. Each bucket key fixes its own rate and burst, and an
 account per key tells what it has let through, so the budget below holds for every key of every
 reachable store, through evictions, expiries, lost replies and outages.
 */
module Quotas {
  import opened Wrappers
  import opened Domain
  import opened TokenBucket
  import opened BucketFaults
  import opened ScaledBucket
  import opened Keyspace
  import opened RedisStore

  datatype RoleQuota = RoleQuota(perMinute: int, burst: int) {
    function Limit(): Quota {
      PerMinute(perMinute, burst)
    }
  }

  function QuotaForRole(role: string): Option<RoleQuota> {
    if role == ADMIN then Some(RoleQuota(120, 30))
    else if role == ANALYST then Some(RoleQuota(60, 20))
    else if role == VIEWER then Some(RoleQuota(30, 10))
    else None
  }

  /** The policy behind a bucket key; `maxAttempts` is both rate and burst of the login buckets. */
  function QuotaOf(maxAttempts: int, k: Key): Option<RoleQuota> {
    match k
    case RoleBucket(role, _) => QuotaForRole(role)
    case LoginBucket(_) => Some(RoleQuota(maxAttempts, maxAttempts))
    case _ => None
  }

  /** What one bucket has seen: `virtual` is the sum of positive timestamp increments, in milliseconds. */
  datatype Account = Account(
    admitted: nat, failedOpen: nat, virtual: nat, last: Option<int>, lastAt: int,
    stamps: seq<int>, // the timestamps its script has run with
    evictions: nat, // times the key was evicted
    early: nat)     // times it expired before its timestamps showed a full refill

  const OPENED := Account(0, 0, 0, None, 0, [], 0, 0)

  datatype Store = Store(keys: Keys, accounts: map<string, Account>)

  function AccountOf(s: Store, key: string): Account {
    if key in s.accounts then s.accounts[key] else OPENED
  }

  /** The key is still stored but its TTL has run out. */
  predicate Lapsed(db: Keys, key: string, at: int) {
    key in db && Peek(db, key, at).None?
  }

  predicate LapsedEarly(db: Keys, key: string, q: Quota, now: int, at: int)
    requires q.Valid()
  {
    Lapsed(db, key, at) && db[key].value.Bucket? && Elapsed(db[key].value.hash.ts, now) < FullRefill(q)
  }

  function Since(last: Option<int>, now: int): nat {
    if last.None? then 0 else Elapsed(last.value, now)
  }

  /** The account after a call that ran the script, which may have found its key expired early. */
  function Ran(a: Account, early: bool, now: int, at: int): Account {
    a.(virtual := a.virtual + Since(a.last, now), last := Some(now), lastAt := at, stamps := a.stamps + [now],
       early := a.early + if early then 1 else 0)
  }

  /** Whether the call reached Redis and ran the script. */
  predicate Runs(s: Store, key: string, at: int, link: Link) {
    !link.Down? && !HoldsBlob(s.keys, key, at)
  }

  /** The account after a call, answered as `answer`. */
  function Called(a: Account, runs: bool, early: bool, now: int, at: int, answer: Answer): Account {
    Counted(if runs then Ran(a, early, now, at) else a, answer)
  }

  /** One script call on a key, with its account. */
  function ChargeKey(s: Store, key: string, q: Quota, now: int, at: int, link: Link): Store
    requires q.Valid()
  {
    var answer := AllowAnswer(s.keys, key, q, now, at, link);
    var early := LapsedEarly(s.keys, key, q, now, at);
    Store(AllowKeys(s.keys, key, q, now, at, link),
          s.accounts[key := Called(AccountOf(s, key), Runs(s, key, at, link), early, now, at, answer)])
  }

  /** One `Allow` on a bucket key; an unusable quota changes nothing. */
  function Charge(maxAttempts: int, s: Store, k: Key, now: int, at: int, link: Link): Store
    requires QuotaOf(maxAttempts, k).Some?
  {
    var q := QuotaOf(maxAttempts, k).value.Limit();
    if q.Valid() then ChargeKey(s, Encode(k), q, now, at, link) else s
  }

  function Counted(a: Account, answer: Answer): Account {
    if answer.failedOpen then a.(failedOpen := a.failedOpen + 1)
    else if answer.allowed then a.(admitted := a.admitted + 1)
    else a
  }

  /** Requests the bucket has let through. */
  function Passed(s: Store, k: Key): nat {
    AccountOf(s, Encode(k)).admitted + AccountOf(s, Encode(k)).failedOpen
  }

  predicate Passes(maxAttempts: int, s: Store, k: Key, now: int, at: int, link: Link)
    requires QuotaOf(maxAttempts, k).Some?
  {
    AllowAnswer(s.keys, Encode(k), QuotaOf(maxAttempts, k).value.Limit(), now, at, link).allowed
  }

  function Evict(s: Store, key: string): Store {
    if key in s.keys then
      var a := AccountOf(s, key);
      Store(s.keys - {key}, s.accounts[key := a.(evictions := a.evictions + 1)])
    else s
  }

  /** A cache component's `SET`. */
  function Save(s: Store, k: Key, payload: Payload, ttl: int, at: int, link: Link): Store {
    if link.Down? then s else s.(keys := SetKeys(s.keys, Encode(k), payload, ttl, at))
  }

  /** Cached bytes spoiled so that they no longer decode. */
  function Spoil(s: Store, key: string): Store {
    if key in s.keys && s.keys[key].value.Blob? then
      s.(keys := s.keys[key := s.keys[key].(value := Blob(Garbled))])
    else s
  }

  // ----- What every reachable store satisfies -----

  function StoredHash(db: Keys, key: string): Option<Hash> {
    if key in db && db[key].value.Bucket? then Some(db[key].value.hash) else None
  }

  function LastOf(stamps: seq<int>): Option<int> {
    if stamps == [] then None else Some(stamps[|stamps| - 1])
  }

  /** One burst, and one more for each time the key was lost since the account stood at `base`. */
  function Bursts(q: Quota, a: Account, base: Account): int {
    (1 + (a.evictions - base.evictions) + (a.early - base.early)) * q.burst
  }

  /** Tokens in the bucket plus all it admitted since `base` never exceed its bursts and its refill since. */
  ghost predicate InBudget(q: Quota, tokens: real, a: Account, base: Account) {
    tokens + (a.admitted - base.admitted) as real <= Bursts(q, a, base) as real + Gain(q, a.virtual - base.virtual)
  }

  /** A bucket within the budget it has had since its account stood at `base`. */
  ghost predicate Budgeted(q: Quota, s: Store, key: string, base: Account) {
    InBudget(q, Level(q, StoredHash(s.keys, key)), AccountOf(s, key), base) && base.stamps <= AccountOf(s, key).stamps
  }

  ghost predicate BucketSound(q: Quota, s: Store, key: string) {
    var a := AccountOf(s, key);
    && q.Valid()
    && (key in s.keys ==>
          && s.keys[key].value.Bucket? && InRange(q, StoredHash(s.keys, key))
          && a.last == Some(s.keys[key].value.hash.ts)
          && s.keys[key].expireAt == Some(a.lastAt + TtlMs(q)))
    && a.virtual == Clock(a.stamps) && a.last == LastOf(a.stamps)
    && (a.evictions == 0 && a.early == 0 ==> StoredHash(s.keys, key) == After(q, a.stamps))
  }

  /** A key holds what its family stores: bucket keys a hash under their own quota, the others bytes. */
  ghost predicate KeySound(maxAttempts: int, s: Store, key: string) {
    match Decode(key)
    case None => key !in s.keys
    case Some(k) =>
      if k.CachedGet? || k.ThreatSummary? then key in s.keys ==> s.keys[key].value.Blob?
      else
        match QuotaOf(maxAttempts, k)
        case None => key !in s.keys
        case Some(rq) =>
          if rq.Limit().Valid() then BucketSound(rq.Limit(), s, key)
          else key !in s.keys && key !in s.accounts
  }

  ghost predicate Sound(maxAttempts: int, s: Store) {
    forall key: string :: KeySound(maxAttempts, s, key)
  }

  lemma EmptyIsSound(maxAttempts: int)
    ensures Sound(maxAttempts, Store(map[], map[]))
  {
    forall key: string ensures KeySound(maxAttempts, Store(map[], map[]), key) {
      if Decode(key).Some? && QuotaOf(maxAttempts, Decode(key).value).Some? {
        assert Gain(QuotaOf(maxAttempts, Decode(key).value).value.Limit(), 0) == 0.0;
      }
    }
  }

  /** The script run on a sound bucket finds no more than its budget since `base` allows. */
  lemma AvailableInBudget(q: Quota, s: Store, key: string, now: int, at: int, base: Account)
    requires BucketSound(q, s, key) && Budgeted(q, s, key, base)
    ensures InBudget(q, Available(q, HashAt(s.keys, key, at), now), Ran(AccountOf(s, key), LapsedEarly(s.keys, key, q, now, at), now, at), base)
  {
    var a := AccountOf(s, key);
    var ran := Ran(a, LapsedEarly(s.keys, key, q, now, at), now, at);
    var gap := Since(a.last, now);
    var h, found := StoredHash(s.keys, key), HashAt(s.keys, key, at);
    GainAdds(q, a.virtual - base.virtual, gap);
    GainMonotone(q, 0, gap);
    WriteInRange(q, found, now);
    var bursts, bursts' := Bursts(q, a, base), Bursts(q, ran, base);
    assert LapsedEarly(s.keys, key, q, now, at) ==> bursts' == bursts + q.burst;
    assert !LapsedEarly(s.keys, key, q, now, at) ==> bursts' == bursts;
    if found.Some? {
      assert found == h;
    } else if h.Some? && gap >= FullRefill(q) {
      FullRefillFills(q, gap);
    }
  }

  /** Unless its key was lost, a bucket steps exactly as one that is called alone and never expires. */
  lemma RunExtendsTrace(q: Quota, s: Store, key: string, now: int, at: int)
    requires BucketSound(q, s, key)
    requires var ran := Ran(AccountOf(s, key), LapsedEarly(s.keys, key, q, now, at), now, at);
             ran.evictions == 0 && ran.early == 0
    ensures var a := AccountOf(s, key);
            && Some(Write(q, HashAt(s.keys, key, at), now)) == After(q, a.stamps + [now])
            && Decide(q, HashAt(s.keys, key, at), now) == Admitted(q, a.stamps + [now], |a.stamps|)
  {
    var a, h := AccountOf(s, key), StoredHash(s.keys, key);
    assert (a.stamps + [now])[..|a.stamps|] == a.stamps;
    if HashAt(s.keys, key, at) != h {
      ExpiryFindsFullBucket(q, h.value, now);
    }
  }

  lemma RanStaysSound(q: Quota, s: Store, s': Store, key: string, now: int, at: int, counted: Account)
    requires BucketSound(q, s, key) && !HoldsBlob(s.keys, key, at)
    requires s'.keys == ScriptKeys(s.keys, key, q, now, at)
    requires key in s'.accounts && s'.accounts[key] == counted
    requires var ran := Ran(AccountOf(s, key), LapsedEarly(s.keys, key, q, now, at), now, at);
             counted.(admitted := 0, failedOpen := 0) == ran.(admitted := 0, failedOpen := 0)
    ensures BucketSound(q, s', key)
  {
    WriteInRange(q, HashAt(s.keys, key, at), now);
    ClockStep(AccountOf(s, key).stamps, now);
    if counted.evictions == 0 && counted.early == 0 { RunExtendsTrace(q, s, key, now, at); }
  }

  /** What one call leaves under its key and in its account. */
  lemma ChargeBucket(maxAttempts: int, s: Store, k: Key, now: int, at: int, link: Link)
    requires QuotaOf(maxAttempts, k).Some? && QuotaOf(maxAttempts, k).value.Limit().Valid()
    requires BucketSound(QuotaOf(maxAttempts, k).value.Limit(), s, Encode(k))
    ensures BucketSound(QuotaOf(maxAttempts, k).value.Limit(), Charge(maxAttempts, s, k, now, at, link), Encode(k))
  {
    var key, q := Encode(k), QuotaOf(maxAttempts, k).value.Limit();
    var s' := Charge(maxAttempts, s, k, now, at, link);
    if !link.Down? {
      assert !HoldsBlob(s.keys, key, at);
      RanStaysSound(q, s, s', key, now, at, s'.accounts[key]);
    }
  }

  /** A key that neither store nor accounts moved is as sound as before. */
  lemma UntouchedStaysSound(maxAttempts: int, s: Store, s': Store, key: string)
    requires KeySound(maxAttempts, s, key)
    requires key in s'.keys <==> key in s.keys
    requires key in s.keys ==> s'.keys[key] == s.keys[key]
    requires key in s'.accounts <==> key in s.accounts
    requires key in s.accounts ==> s'.accounts[key] == s.accounts[key]
    ensures KeySound(maxAttempts, s', key)
  {}

  lemma ChargeKeepsSound(maxAttempts: int, s: Store, k: Key, now: int, at: int, link: Link)
    requires Sound(maxAttempts, s) && QuotaOf(maxAttempts, k).Some?
    ensures Sound(maxAttempts, Charge(maxAttempts, s, k, now, at, link))
  {
    var s' := Charge(maxAttempts, s, k, now, at, link);
    KeyRoundTrip(k);
    forall key: string ensures KeySound(maxAttempts, s', key) {
      assert KeySound(maxAttempts, s, key);
      if key != Encode(k) {
        UntouchedStaysSound(maxAttempts, s, s', key);
      } else if QuotaOf(maxAttempts, k).value.Limit().Valid() {
        ChargeBucket(maxAttempts, s, k, now, at, link);
      }
    }
  }

  lemma EvictKeepsSound(maxAttempts: int, s: Store, evicted: string)
    requires Sound(maxAttempts, s)
    ensures Sound(maxAttempts, Evict(s, evicted))
  {
    var s' := Evict(s, evicted);
    forall key: string ensures KeySound(maxAttempts, s', key) {
      assert KeySound(maxAttempts, s, key);
      if key != evicted {
        UntouchedStaysSound(maxAttempts, s, s', key);
      }
    }
  }

  lemma SaveKeepsSound(maxAttempts: int, s: Store, k: Key, payload: Payload, ttl: int, at: int, link: Link)
    requires Sound(maxAttempts, s) && (k.CachedGet? || k.ThreatSummary?)
    ensures Sound(maxAttempts, Save(s, k, payload, ttl, at, link))
  {
    KeyRoundTrip(k);
    forall key: string ensures KeySound(maxAttempts, Save(s, k, payload, ttl, at, link), key) {
      assert KeySound(maxAttempts, s, key);
    }
  }

  lemma SpoilKeepsSound(maxAttempts: int, s: Store, spoiled: string)
    requires Sound(maxAttempts, s)
    ensures Sound(maxAttempts, Spoil(s, spoiled))
  {
    forall key: string ensures KeySound(maxAttempts, Spoil(s, spoiled), key) {
      assert KeySound(maxAttempts, s, key);
    }
  }

  lemma CountedOnce(s: Store, s': Store, key: string, runs: bool, early: bool, now: int, at: int, answer: Answer)
    requires s'.accounts == s.accounts[key := Called(AccountOf(s, key), runs, early, now, at, answer)]
    requires answer.failedOpen ==> answer.allowed
    ensures var a, a' := AccountOf(s, key), AccountOf(s', key);
            a'.admitted + a'.failedOpen == a.admitted + a.failedOpen + if answer.allowed then 1 else 0
  {}

  lemma FailsOpenOnly(db: Keys, key: string, q: Quota, now: int, at: int, link: Link)
    ensures var answer := AllowAnswer(db, key, q, now, at, link);
            answer.failedOpen ==> answer.allowed
  {}

  lemma ChargeKeyCounts(s: Store, key: string, q: Quota, now: int, at: int, link: Link)
    requires q.Valid()
    ensures var a, a' := AccountOf(s, key), AccountOf(ChargeKey(s, key, q, now, at, link), key);
            a'.admitted + a'.failedOpen ==
            a.admitted + a.failedOpen + if AllowAnswer(s.keys, key, q, now, at, link).allowed then 1 else 0
  {
    FailsOpenOnly(s.keys, key, q, now, at, link);
    CountedOnce(s, ChargeKey(s, key, q, now, at, link), key, Runs(s, key, at, link),
                LapsedEarly(s.keys, key, q, now, at), now, at, AllowAnswer(s.keys, key, q, now, at, link));
  }

  /** A call counts once in its bucket's account if it passes, and not at all if it is refused. */
  lemma ChargeCountsOnce(maxAttempts: int, s: Store, k: Key, now: int, at: int, link: Link)
    requires QuotaOf(maxAttempts, k).Some?
    ensures Passed(Charge(maxAttempts, s, k, now, at, link), k) ==
            Passed(s, k) + if Passes(maxAttempts, s, k, now, at, link) then 1 else 0
  {
    var q := QuotaOf(maxAttempts, k).value.Limit();
    if q.Valid() { ChargeKeyCounts(s, Encode(k), q, now, at, link); }
  }

  lemma ChargeSparesOthers(maxAttempts: int, s: Store, k: Key, now: int, at: int, link: Link, other: Key)
    requires QuotaOf(maxAttempts, k).Some? && other != k
    ensures AccountOf(Charge(maxAttempts, s, k, now, at, link), Encode(other)) == AccountOf(s, Encode(other))
  {
    KeysAreDistinct(k, other);
  }

  /** In a sound store no command ever meets a value of the wrong type. */
  lemma NoTypeErrors(maxAttempts: int, s: Store, k: Key, now: int, at: int)
    requires Sound(maxAttempts, s)
    ensures QuotaOf(maxAttempts, k).Some? ==> ScriptReply(s.keys, Encode(k), QuotaOf(maxAttempts, k).value.Limit(), now, at).Ok?
    ensures k.CachedGet? || k.ThreatSummary? ==> GetReply(s.keys, Encode(k), at).Ok?
  {
    KeyRoundTrip(k);
    assert KeySound(maxAttempts, s, Encode(k));
  }

  // ----- What a bucket lets through between two moments -----

  /** Any sound bucket is within the budget that starts now. */
  lemma BudgetStarts(q: Quota, s: Store, key: string)
    requires BucketSound(q, s, key)
    ensures Budgeted(q, s, key, AccountOf(s, key))
  {
    assert Gain(q, 0) == 0.0;
  }

  lemma RanStaysBudgeted(q: Quota, s: Store, s': Store, key: string, now: int, at: int, counted: Account, base: Account)
    requires BucketSound(q, s, key) && Budgeted(q, s, key, base) && !HoldsBlob(s.keys, key, at)
    requires s'.keys == ScriptKeys(s.keys, key, q, now, at)
    requires key in s'.accounts && s'.accounts[key] == counted
    requires var ran := Ran(AccountOf(s, key), LapsedEarly(s.keys, key, q, now, at), now, at);
             && counted.(admitted := 0, failedOpen := 0) == ran.(admitted := 0, failedOpen := 0)
             && counted.admitted <= ran.admitted + if Decide(q, HashAt(s.keys, key, at), now) then 1 else 0
    ensures Budgeted(q, s', key, base)
  {
    AvailableInBudget(q, s, key, now, at, base);
  }

  lemma ChargeKeyKeepsBudget(q: Quota, s: Store, key: string, now: int, at: int, link: Link, base: Account)
    requires BucketSound(q, s, key) && Budgeted(q, s, key, base)
    ensures Budgeted(q, ChargeKey(s, key, q, now, at, link), key, base)
  {
    var s' := ChargeKey(s, key, q, now, at, link);
    if !link.Down? {
      assert !HoldsBlob(s.keys, key, at);
      RanStaysBudgeted(q, s, s', key, now, at, s'.accounts[key], base);
    }
  }

  lemma ChargeKeepsBudget(maxAttempts: int, s: Store, k: Key, now: int, at: int, link: Link, other: Key, q: Quota, base: Account)
    requires QuotaOf(maxAttempts, k).Some?
    requires QuotaOf(maxAttempts, other).Some? && q == QuotaOf(maxAttempts, other).value.Limit() && q.Valid()
    requires BucketSound(q, s, Encode(other)) && Budgeted(q, s, Encode(other), base)
    ensures Budgeted(q, Charge(maxAttempts, s, k, now, at, link), Encode(other), base)
  {
    KeysAreDistinct(k, other);
    if other == k { ChargeKeyKeepsBudget(q, s, Encode(k), now, at, link, base); }
  }

  lemma EvictKeepsBudget(q: Quota, s: Store, evicted: string, key: string, base: Account)
    requires BucketSound(q, s, key) && Budgeted(q, s, key, base)
    ensures Budgeted(q, Evict(s, evicted), key, base)
  {
    var a, a' := AccountOf(s, key), AccountOf(Evict(s, evicted), key);
    assert key == evicted && key in s.keys ==> Bursts(q, a', base) == Bursts(q, a, base) + q.burst;
  }

  /** What a bucket may have let through since `base`, in 60000ths of a request. */
  function Allowance(rq: RoleQuota, a: Account, base: Account): int {
    60000 * (Bursts(rq.Limit(), a, base) + (a.failedOpen - base.failedOpen)) + (a.virtual - base.virtual) * rq.perMinute
  }

  /** A bucket keeps within its allowance, in whole numbers; its virtual time is that of its calls' timestamps. */
  lemma BudgetHolds(rq: RoleQuota, s: Store, key: string, base: Account)
    requires BucketSound(rq.Limit(), s, key) && Budgeted(rq.Limit(), s, key, base)
    ensures var a := AccountOf(s, key);
            60000 * (a.admitted + a.failedOpen - (base.admitted + base.failedOpen)) <= Allowance(rq, a, base)
    ensures AccountOf(s, key).virtual == Clock(AccountOf(s, key).stamps)
  {
    var a := AccountOf(s, key);
    var gained, bursts, ms := a.admitted - base.admitted, Bursts(rq.Limit(), a, base), a.virtual - base.virtual;
    GainInParts(rq.perMinute, rq.burst, ms);
    assert Level(rq.Limit(), StoredHash(s.keys, key)) >= 0.0;
    assert gained as real <= bursts as real + (ms * rq.perMinute) as real / 60000.0;
    assert (60000 * gained) as real <= (60000 * bursts + ms * rq.perMinute) as real;
  }

  /**
   The single-key theory on the shared store: while a bucket's key has neither been evicted nor
   expired early, every live decision is the one the closed form gives for its own calls alone,
   whatever other keys, expiries, outages and lost replies there were.
   */
  lemma LiveDecision(maxAttempts: int, s: Store, k: Key, now: int, at: int)
    requires Sound(maxAttempts, s) && QuotaOf(maxAttempts, k).Some? && QuotaOf(maxAttempts, k).value.Limit().Valid()
    requires var a := AccountOf(Charge(maxAttempts, s, k, now, at, Up), Encode(k));
             a.evictions == 0 && a.early == 0
    ensures var q := QuotaOf(maxAttempts, k).value.Limit();
            var n := |AccountOf(s, Encode(k)).stamps|;
            var calls := AccountOf(s, Encode(k)).stamps + [now];
            Passes(maxAttempts, s, k, now, at, Up) <==> forall i: nat | i <= n :: Fits(q, calls, i, n)
  {
    var key, q := Encode(k), QuotaOf(maxAttempts, k).value.Limit();
    KeyRoundTrip(k);
    assert KeySound(maxAttempts, s, key);
    ChargeWhenUp(maxAttempts, s, k, now, at);
    RunExtendsTrace(q, s, key, now, at);
    AdmissionCriterion(q, AccountOf(s, key).stamps + [now], |AccountOf(s, key).stamps|);
  }

  /** With Redis up, the script's decision is the answer, and the account records its run. */
  lemma ChargeWhenUp(maxAttempts: int, s: Store, k: Key, now: int, at: int)
    requires QuotaOf(maxAttempts, k).Some? && QuotaOf(maxAttempts, k).value.Limit().Valid()
    requires BucketSound(QuotaOf(maxAttempts, k).value.Limit(), s, Encode(k))
    ensures var key, q := Encode(k), QuotaOf(maxAttempts, k).value.Limit();
            var ran := Ran(AccountOf(s, key), LapsedEarly(s.keys, key, q, now, at), now, at);
            var a := AccountOf(Charge(maxAttempts, s, k, now, at, Up), key);
            && a.evictions == ran.evictions && a.early == ran.early
            && Passes(maxAttempts, s, k, now, at, Up) == Decide(q, HashAt(s.keys, key, at), now)
  {
    assert !HoldsBlob(s.keys, Encode(k), at);
  }

  /** An expiry costs nothing unless Redis measured more idle time than the timestamps show plus the slack. */
  lemma EarlyOnlyBeyondSlack(maxAttempts: int, s: Store, k: Key, now: int, at: int, link: Link)
    requires Sound(maxAttempts, s) && QuotaOf(maxAttempts, k).Some?
    requires var a := AccountOf(s, Encode(k));
             a.last.Some? ==> at - a.lastAt <= now - a.last.value + SLACK
    ensures AccountOf(Charge(maxAttempts, s, k, now, at, link), Encode(k)).early == AccountOf(s, Encode(k)).early
  {
    KeyRoundTrip(k);
    assert KeySound(maxAttempts, s, Encode(k));
  }
}
