/** What each role's policy comes to, in numbers. */
module RolePolicies {
  import opened Wrappers
  import opened TokenBucket
  import opened ScaledBucket
  import opened Keyspace
  import opened Quotas

  /** An emptied bucket next admits once its refill makes a whole token. */
  lemma EmptyRefills(perMinute: int, burst: int, stamp: int, next: int)
    requires perMinute > 0 && burst > 0
    ensures Decide(PerMinute(perMinute, burst), Some(Hash(0.0, stamp)), next) <==> (next - stamp) * perMinute >= 60000
  {
    var q := PerMinute(perMinute, burst);
    GainInParts(perMinute, burst, Elapsed(stamp, next));
    if next < stamp { assert (next - stamp) * perMinute < 0; }
  }

  lemma PolicyObtains(perMinute: int, burst: int, calls: seq<int>, stamp: int, next: int)
    requires perMinute > 0 && burst > 0 && forall i | 0 <= i < |calls| :: calls[i] == stamp
    ensures var q := PerMinute(perMinute, burst);
            && AdmittedIn(q, calls, 0, |calls|) == Least(|calls|, burst)
            && (|calls| >= burst ==> (Admitted(q, calls + [next], |calls|) <==> (next - stamp) * perMinute >= 60000))
  {
    var q := PerMinute(perMinute, burst);
    BurstAtOnce(q, calls, stamp, |calls|);
    assert calls[..|calls|] == calls && (calls + [next])[..|calls|] == calls;
    EmptyRefills(perMinute, burst, stamp, next);
  }

  /**
   Any number of calls at one moment, on a key that starts absent, are admitted up to 30 for an admin,
   20 for an analyst and 10 for a viewer; then the next call is admitted exactly from 500, 1000 and
   2000 ms later on. No other role has a policy.
   */
  lemma RoleObtains(role: string, calls: seq<int>, stamp: int, next: int)
    requires forall i | 0 <= i < |calls| :: calls[i] == stamp
    ensures QuotaForRole(role).Some? <==> role in ["admin", "analyst", "viewer"]
    ensures role == "admin" ==> Obtains(QuotaForRole(role).value, calls, stamp, next, 30, 500)
    ensures role == "analyst" ==> Obtains(QuotaForRole(role).value, calls, stamp, next, 20, 1000)
    ensures role == "viewer" ==> Obtains(QuotaForRole(role).value, calls, stamp, next, 10, 2000)
  {
    if QuotaForRole(role).Some? {
      var rq := QuotaForRole(role).value;
      PolicyObtains(rq.perMinute, rq.burst, calls, stamp, next);
    }
  }

  predicate Obtains(rq: RoleQuota, calls: seq<int>, stamp: int, next: int, most: nat, gap: int) {
    && AdmittedIn(rq.Limit(), calls, 0, |calls|) == Least(|calls|, most)
    && (|calls| >= most ==> (Admitted(rq.Limit(), calls + [next], |calls|) <==> next - stamp >= gap))
  }

  /**
   A client address may try to log in `maxAttempts` times at once, then again as each minute's share of
   that many comes back; with a maximum that is not positive it is always refused.
   */
  lemma LoginObtains(maxAttempts: int, ip: string, calls: seq<int>, stamp: int, next: int)
    requires forall i | 0 <= i < |calls| :: calls[i] == stamp
    ensures QuotaOf(maxAttempts, LoginBucket(ip)).Some?
    ensures var q := QuotaOf(maxAttempts, LoginBucket(ip)).value.Limit();
            if maxAttempts <= 0 then !q.Valid()
            else
              && AdmittedIn(q, calls, 0, |calls|) == Least(|calls|, maxAttempts)
              && (|calls| >= maxAttempts ==>
                    (Admitted(q, calls + [next], |calls|) <==> (next - stamp) * maxAttempts >= 60000))
  {
    if maxAttempts > 0 { PolicyObtains(maxAttempts, maxAttempts, calls, stamp, next); }
  }
}
