/**
 What key loss and denied calls do to a bucket: an evicted key is a full bucket again, a key
 dropped by its own TTL was full anyway, and a denied call leaves no trace on ordered timestamps.
 */
module BucketFaults {
  import opened Wrappers
  import opened TokenBucket

  // ----- Eviction: Redis runs `allkeys-lru`, so a key can vanish between any two calls -----

  datatype Event = Call(now: int) | Evict

  datatype Tally = Tally(hash: Option<Hash>, admitted: nat, evictions: nat)

  function Bump(q: Quota, s: Tally, now: int): Tally {
    s.(hash := Some(Write(q, s.hash, now)), admitted := s.admitted + if Decide(q, s.hash, now) then 1 else 0)
  }

  /** The run in which evictions take effect. */
  function Evicting(q: Quota, es: seq<Event>): Tally {
    if es == [] then Tally(None, 0, 0)
    else
      var s := Evicting(q, es[..|es| - 1]);
      match es[|es| - 1]
      case Call(now) => Bump(q, s, now)
      case Evict => Tally(None, s.admitted, s.evictions + 1)
  }

  /** The same calls on a key that is never evicted. */
  function Keeping(q: Quota, es: seq<Event>): Tally {
    if es == [] then Tally(None, 0, 0)
    else
      var s := Keeping(q, es[..|es| - 1]);
      match es[|es| - 1]
      case Call(now) => Bump(q, s, now)
      case Evict => s
  }

  /** Tokens held; an absent key counts as full. */
  function Level(q: Quota, h: Option<Hash>): real {
    if h.None? then q.burst as real else h.value.t
  }

  ghost predicate Coupled(q: Quota, e: Tally, k: Tally) {
    && InRange(q, e.hash) && InRange(q, k.hash)
    && (e.hash.Some? ==> k.hash.Some? && e.hash.value.ts == k.hash.value.ts)
    && k.admitted <= e.admitted <= k.admitted + e.evictions * q.burst
    && Level(q, k.hash) <= Level(q, e.hash) + (e.admitted - k.admitted) as real
    && Level(q, e.hash) + (e.admitted - k.admitted) as real <= Level(q, k.hash) + (e.evictions * q.burst) as real
  }

  lemma CallKeepsCoupling(q: Quota, e: Tally, k: Tally, now: int)
    requires q.Valid() && Coupled(q, e, k)
    ensures Coupled(q, Bump(q, e, now), Bump(q, k, now))
  {
    WriteInRange(q, e.hash, now);
    WriteInRange(q, k.hash, now);
    if k.hash.Some? {
      GainMonotone(q, 0, Elapsed(k.hash.value.ts, now));
    }
    var lead := e.admitted - k.admitted;
    var allowance := e.evictions * q.burst;
    var a, b := Available(q, e.hash, now), Available(q, k.hash, now);
    assert b <= a + lead as real;
    assert a + lead as real <= b + allowance as real;
    if Decide(q, k.hash, now) && !Decide(q, e.hash, now) {
      assert lead as real > 0.0;
    }
    if Decide(q, e.hash, now) && !Decide(q, k.hash, now) {
      assert lead as real < allowance as real;
    }
  }

  lemma EvictionKeepsCoupling(q: Quota, e: Tally, k: Tally)
    requires q.Valid() && Coupled(q, e, k)
    ensures Coupled(q, Tally(None, e.admitted, e.evictions + 1), k)
  {
    var allowance := e.evictions * q.burst;
    assert (e.evictions + 1) * q.burst == allowance + q.burst;
    assert (allowance + q.burst) as real == allowance as real + q.burst as real;
    assert (e.admitted - k.admitted) as real <= allowance as real;
  }

  /**
   Eviction coupling, at every prefix of every run: evictions never lose an admission overall,
   and each one is worth at most one burst.
   */
  lemma {:induction false} EvictionCoupling(q: Quota, es: seq<Event>)
    requires q.Valid()
    ensures Coupled(q, Evicting(q, es), Keeping(q, es))
    ensures 0 <= Evicting(q, es).admitted - Keeping(q, es).admitted <= Evicting(q, es).evictions * q.burst
  {
    if es != [] {
      var front := es[..|es| - 1];
      EvictionCoupling(q, front);
      var e, k := Evicting(q, front), Keeping(q, front);
      match es[|es| - 1]
      case Call(now) => CallKeepsCoupling(q, e, k, now);
      case Evict => EvictionKeepsCoupling(q, e, k);
    }
  }

  /** What the tallies count: the evictions of the run, */
  lemma {:induction false} EvictionsAreCounted(q: Quota, es: seq<Event>)
    ensures Evicting(q, es).evictions == |set i: nat | i < |es| && es[i].Evict?|
  {
    var now := set i: nat | i < |es| && es[i].Evict?;
    if es == [] {
      assert now == {};
    } else {
      var n := |es| - 1;
      EvictionsAreCounted(q, es[..n]);
      var before := set i: nat | i < n && es[..n][i].Evict?;
      assert now == before + if es[n].Evict? then {n} else {};
    }
  }

  /** and for the key that is never evicted the admissions of all its calls. */
  lemma {:induction false} AdmissionsAreCounted(q: Quota, es: seq<Event>)
    ensures Keeping(q, es).admitted == AdmittedIn(q, CallsOf(es), 0, |CallsOf(es)|)
  {
    if es != [] {
      var n := |es| - 1;
      var front, calls := es[..n], CallsOf(es[..n]);
      AdmissionsAreCounted(q, front);
      EvictionForgets(q, front);
      if es[n].Call? {
        assert CallsOf(es) == calls + [es[n].now];
        AdmittedOneMore(q, calls, es[n].now);
      } else {
        assert CallsOf(es) == calls;
      }
    }
  }

  lemma AdmittedOneMore(q: Quota, calls: seq<int>, now: int)
    ensures AdmittedIn(q, calls + [now], 0, |calls| + 1) ==
            AdmittedIn(q, calls, 0, |calls|) + if Decide(q, After(q, calls), now) then 1 else 0
  {
    AdmittedInPrefix(q, calls, now, |calls|);
    assert (calls + [now])[..|calls|] == calls;
  }

  lemma {:induction false} AdmittedInPrefix(q: Quota, calls: seq<int>, now: int, n: nat)
    requires n <= |calls|
    ensures AdmittedIn(q, calls + [now], 0, n) == AdmittedIn(q, calls, 0, n)
  {
    if n > 0 {
      AdmittedInPrefix(q, calls, now, n - 1);
      assert (calls + [now])[..n - 1] == calls[..n - 1];
    }
  }

  /** Single decisions may still differ either way: here the evicted bucket later denies what the other admits. */
  lemma EvictionCanDenyLater()
    ensures var q := Quota(1.0, 1);
            var es := [Call(0), Call(500), Evict, Call(500)];
            Decide(q, Keeping(q, es).hash, 1000) && !Decide(q, Evicting(q, es).hash, 1000)
  {
    var q := Quota(1.0, 1);
    var e1 := [Call(0)];
    var e2 := e1 + [Call(500)];
    var e3 := e2 + [Evict];
    var e4 := e3 + [Call(500)];
    assert e1[..0] == [] && e2[..1] == e1 && e3[..2] == e2 && e4[..3] == e3;
    assert Keeping(q, e1) == Tally(Some(Hash(0.0, 0)), 1, 0) == Evicting(q, e1);
    assert Keeping(q, e2) == Tally(Some(Hash(0.5, 500)), 1, 0) == Evicting(q, e2);
    assert Evicting(q, e3) == Tally(None, 1, 1);
    assert Keeping(q, e4) == Tally(Some(Hash(0.5, 500)), 1, 0);
    assert Evicting(q, e4) == Tally(Some(Hash(0.0, 500)), 2, 1);
    assert e4 == [Call(0), Call(500), Evict, Call(500)];
  }

  /** The calls of a run, and those made since its last eviction. */
  function CallsOf(es: seq<Event>): seq<int> {
    if es == [] then []
    else CallsOf(es[..|es| - 1]) + if es[|es| - 1].Call? then [es[|es| - 1].now] else []
  }

  function SinceEviction(es: seq<Event>): seq<int> {
    if es == [] || es[|es| - 1].Evict? then []
    else SinceEviction(es[..|es| - 1]) + [es[|es| - 1].now]
  }

  lemma AfterAppend(q: Quota, calls: seq<int>, now: int)
    ensures After(q, calls + [now]) == Some(Write(q, After(q, calls), now))
  {
    assert (calls + [now])[..|calls|] == calls;
  }

  /** An eviction forgets every call before it and nothing else. */
  lemma {:induction false} EvictionForgets(q: Quota, es: seq<Event>)
    ensures Evicting(q, es).hash == After(q, SinceEviction(es))
    ensures Keeping(q, es).hash == After(q, CallsOf(es))
  {
    if es != [] {
      var front := es[..|es| - 1];
      EvictionForgets(q, front);
      if es[|es| - 1].Call? {
        AfterAppend(q, SinceEviction(front), es[|es| - 1].now);
        AfterAppend(q, CallsOf(front), es[|es| - 1].now);
      } else {
        assert CallsOf(es) == CallsOf(front);
      }
    }
  }

  /** Every stretch of the calls that ends with one more call at `now` fits. */
  ghost predicate AllFit(q: Quota, calls: seq<int>, now: int) {
    forall i: nat | i <= |calls| :: Fits(q, calls + [now], i, |calls|)
  }

  lemma DecideExactly(q: Quota, calls: seq<int>, now: int)
    requires q.Valid()
    ensures Decide(q, After(q, calls), now) <==> AllFit(q, calls, now)
  {
    assert (calls + [now])[..|calls|] == calls;
    AdmissionCriterion(q, calls + [now], |calls|);
  }

  /** Under evictions a call is admitted exactly when every stretch that begins after the last eviction fits. */
  lemma EvictedAdmitsExactly(q: Quota, es: seq<Event>, now: int)
    requires q.Valid()
    ensures Decide(q, Evicting(q, es).hash, now) <==> AllFit(q, SinceEviction(es), now)
  {
    EvictionForgets(q, es);
    DecideExactly(q, SinceEviction(es), now);
  }

  /**
   So evictions deny a call that would have been admitted exactly when every stretch of all calls fits
   under the admissions without evictions and some stretch since the last one does not under its own;
   and such a denial only gives back an admission that evictions had added.
   */
  lemma EvictionDeniesExactly(q: Quota, es: seq<Event>, now: int, e: Tally, k: Tally)
    requires q.Valid() && e == Evicting(q, es) && k == Keeping(q, es)
    ensures Decide(q, k.hash, now) && !Decide(q, e.hash, now) <==>
            AllFit(q, CallsOf(es), now) && !AllFit(q, SinceEviction(es), now)
    ensures Decide(q, k.hash, now) && !Decide(q, e.hash, now) ==> e.admitted > k.admitted
  {
    EvictionForgets(q, es);
    DecideExactly(q, SinceEviction(es), now);
    DecideExactly(q, CallsOf(es), now);
    EvictionCoupling(q, es);
    if Decide(q, k.hash, now) && !Decide(q, e.hash, now) { DenialRepays(q, e, k, now); }
  }

  lemma DenialRepays(q: Quota, e: Tally, k: Tally, now: int)
    requires q.Valid() && Coupled(q, e, k)
    requires Decide(q, k.hash, now) && !Decide(q, e.hash, now)
    ensures e.admitted > k.admitted
  {
    WriteInRange(q, e.hash, now);
    WriteInRange(q, k.hash, now);
  }

  // ----- Expiry -----

  function Ceil(x: real): int {
    -(-x).Floor
  }

  /** Milliseconds that refill a bucket from empty. */
  function FullRefill(q: Quota): int
    requires q.Valid()
  {
    Ceil(q.burst as real / q.rate * 1000.0)
  }

  function TtlMs(q: Quota): int
    requires q.Valid()
  {
    FullRefill(q) + 1000
  }

  lemma FullRefillFills(q: Quota, ms: int)
    requires q.Valid()
    ensures FullRefill(q) > 0
    ensures ms >= FullRefill(q) ==> Gain(q, ms) >= q.burst as real
  {
    var b := q.burst as real;
    var x := b / q.rate * 1000.0;
    assert b / q.rate > 0.0;
    if ms >= FullRefill(q) {
      assert ms as real >= x;
      assert ms as real / 1000.0 >= b / q.rate;
      MulMonotone(b / q.rate, ms as real / 1000.0, q.rate);
      assert b / q.rate * q.rate == b;
    }
  }

  /** The full refill is the least number of milliseconds that fills an empty bucket. */
  lemma FullRefillIsLeast(q: Quota, ms: int)
    requires q.Valid()
    ensures Gain(q, ms) >= q.burst as real <==> ms >= FullRefill(q)
  {
    FullRefillFills(q, ms);
    if ms < FullRefill(q) {
      var b := q.burst as real;
      assert (ms as real) < b / q.rate * 1000.0;
      assert (b / q.rate - ms as real / 1000.0) * q.rate > 0.0;
      assert (b / q.rate - ms as real / 1000.0) * q.rate == b / q.rate * q.rate - Gain(q, ms);
      assert b / q.rate * q.rate == b;
    }
  }

  lemma MulMonotone(x: real, y: real, r: real)
    requires x <= y && r > 0.0
    ensures x * r <= y * r
  {
    assert (y - x) * r >= 0.0;
    assert (y - x) * r == y * r - x * r;
  }

  /** A call carries the pod's timestamp and the moment, on Redis's clock, at which the script runs. */
  datatype Timed = Timed(now: int, at: int)

  /** The hash together with the moment its TTL runs out. */
  datatype Stored = Stored(hash: Hash, expireAt: int)

  function Store(q: Quota, h: Option<Hash>, c: Timed): Stored
    requires q.Valid()
  {
    Stored(Write(q, h, c.now), c.at + TtlMs(q))
  }

  /** A store that never drops a key. */
  function Lasting(q: Quota, cs: seq<Timed>): Option<Hash>
    requires q.Valid()
  {
    if cs == [] then None
    else Some(Store(q, Lasting(q, cs[..|cs| - 1]), cs[|cs| - 1]).hash)
  }

  /** A store that may drop a key once its TTL has run out; `dropped[i]` tells whether call `i` finds it gone. */
  function Expiring(q: Quota, cs: seq<Timed>, dropped: seq<bool>): Option<Stored>
    requires q.Valid() && |dropped| == |cs|
    decreases |cs|, 0
  {
    if cs == [] then None
    else
      var n := |cs| - 1;
      Some(Store(q, Found(q, cs[..n], dropped[..n], dropped[n]), cs[n]))
  }

  /** What the next script call finds under the key. */
  function Found(q: Quota, cs: seq<Timed>, dropped: seq<bool>, gone: bool): Option<Hash>
    requires q.Valid() && |dropped| == |cs|
    decreases |cs|, 1
  {
    var s := Expiring(q, cs, dropped);
    if s.None? || gone then None else Some(s.value.hash)
  }

  /** Redis drops a key only when its TTL has run out; at the last millisecond it still serves it. */
  ghost predicate DropsWhenDue(q: Quota, cs: seq<Timed>, dropped: seq<bool>)
    requires q.Valid() && |dropped| == |cs|
  {
    forall i | 0 < i < |cs| && dropped[i] :: cs[i].at - cs[i - 1].at > TtlMs(q)
  }

  /** The 1000 ms the TTL adds to a full refill, and the millisecond at which Redis still serves a due key. */
  const SLACK := 1001

  /** Redis never sees more idle time than the pods' timestamps show plus the slack. */
  ghost predicate WithinSlack(cs: seq<Timed>) {
    forall i | 0 < i < |cs| :: cs[i].at - cs[i - 1].at <= cs[i].now - cs[i - 1].now + SLACK
  }

  /** One expired key: the refill the idle gap would have given already fills the bucket. */
  lemma ExpiryFindsFullBucket(q: Quota, h: Hash, now: int)
    requires q.Valid() && h.t >= 0.0 && now - h.ts >= FullRefill(q)
    ensures Available(q, Some(h), now) == Available(q, None, now)
    ensures Write(q, Some(h), now) == Write(q, None, now)
  {
    FullRefillFills(q, Elapsed(h.ts, now));
  }

  /**
   Expiry transparency: the dropping store makes the same decision and holds the same hash as the
   lasting store after every call of every run, whatever the timestamps, as long as the idle gaps
   Redis measures exceed the pods' by no more than the TTL's slack.
   */
  lemma {:induction false} ExpiryTransparency(q: Quota, cs: seq<Timed>, dropped: seq<bool>, next: Timed, gone: bool)
    requires q.Valid() && |dropped| == |cs|
    requires DropsWhenDue(q, cs + [next], dropped + [gone]) && WithinSlack(cs + [next])
    ensures Decide(q, Found(q, cs, dropped, gone), next.now) == Decide(q, Lasting(q, cs), next.now)
    ensures Write(q, Found(q, cs, dropped, gone), next.now) == Write(q, Lasting(q, cs), next.now)
    decreases |cs|
  {
    if cs != [] {
      var n := |cs| - 1;
      AssumptionsShrink(q, cs, dropped, next, gone);
      assert cs[..n] + [cs[n]] == cs && dropped[..n] + [dropped[n]] == dropped;
      ExpiryTransparency(q, cs[..n], dropped[..n], cs[n], dropped[n]);
      var h := Lasting(q, cs).value;
      assert Expiring(q, cs, dropped).value.hash == h;
      if gone {
        LastingInRange(q, cs);
        assert (cs + [next])[n] == cs[n] && (cs + [next])[n + 1] == next;
        assert (dropped + [gone])[n + 1] == gone;
        ExpiryFindsFullBucket(q, h, next.now);
      }
    }
  }

  /** What is assumed of a run holds of it without its last call. */
  lemma AssumptionsShrink(q: Quota, cs: seq<Timed>, dropped: seq<bool>, next: Timed, gone: bool)
    requires q.Valid() && |dropped| == |cs|
    requires DropsWhenDue(q, cs + [next], dropped + [gone]) && WithinSlack(cs + [next])
    ensures DropsWhenDue(q, cs, dropped) && WithinSlack(cs)
  {
    assert forall i | 0 <= i < |cs| :: cs[i] == (cs + [next])[i] && dropped[i] == (dropped + [gone])[i];
  }

  lemma {:induction false} LastingInRange(q: Quota, cs: seq<Timed>)
    requires q.Valid() && cs != []
    ensures var h := Lasting(q, cs);
            0.0 <= h.value.t <= q.burst as real && h.value.ts == cs[|cs| - 1].now
  {
    var front := cs[..|cs| - 1];
    if front != [] { LastingInRange(q, front); }
    WriteInRange(q, Lasting(q, front), cs[|cs| - 1].now);
  }

  /** The slack is used to the last millisecond: one more and an expiry hands out a token too early. */
  lemma SlackIsTight()
    ensures var q := Quota(1.0, 1);
            var cs, next := [Timed(0, 0)], Timed(999, 2001);
            && DropsWhenDue(q, cs + [next], [false, true])
            && next.at - cs[0].at == next.now - cs[0].now + SLACK + 1
            && Decide(q, Found(q, cs, [false], true), next.now)
            && !Decide(q, Lasting(q, cs), next.now)
  {
    var q := Quota(1.0, 1);
    assert [Timed(0, 0)][..0] == [] && [false][..0] == [];
    assert FullRefill(q) == 1000 by { assert q.burst as real / q.rate * 1000.0 == 1000.0; }
    assert Lasting(q, [Timed(0, 0)]) == Some(Hash(0.0, 0));
  }

  function Stamps(cs: seq<Timed>): (r: seq<int>)
    ensures |r| == |cs| && forall i | 0 <= i < |cs| :: r[i] == cs[i].now
  {
    seq(|cs|, i requires 0 <= i < |cs| => cs[i].now)
  }

  /** The store that never drops a key is the plain run of its calls. */
  lemma {:induction false} LastingIsPlain(q: Quota, cs: seq<Timed>)
    requires q.Valid()
    ensures Lasting(q, cs) == After(q, Stamps(cs))
  {
    if cs == [] {
      assert Stamps(cs) == [];
    } else {
      LastingIsPlain(q, cs[..|cs| - 1]);
      assert Stamps(cs)[..|cs| - 1] == Stamps(cs[..|cs| - 1]);
    }
  }

  /** A burst at time zero. */
  function BurstAt0(q: Quota): (cs: seq<Timed>)
    requires q.Valid()
    ensures |cs| == q.burst && forall i | 0 <= i < |cs| :: cs[i] == Timed(0, 0)
  {
    seq(q.burst, _ => Timed(0, 0))
  }

  lemma BurstEmpties(q: Quota)
    requires q.Valid()
    ensures Lasting(q, BurstAt0(q)) == Some(Hash(0.0, 0))
  {
    var cs := BurstAt0(q);
    LastingIsPlain(q, cs);
    BurstAtOnce(q, Stamps(cs), 0, q.burst);
    assert Stamps(cs)[..q.burst] == Stamps(cs);
  }

  /**
   And it is tight for every quota: after one burst, a disagreement one millisecond beyond the slack
   lets the expired key admit a second whole burst where the kept one admits less.
   */
  lemma SlackIsTightForAll(q: Quota, kept: seq<bool>, next: Timed)
    requires q.Valid() && |kept| == q.burst && forall i | 0 <= i < |kept| :: !kept[i]
    requires next == Timed(FullRefill(q) - 1, TtlMs(q) + 1)
    ensures DropsWhenDue(q, BurstAt0(q) + [next], kept + [true])
    ensures next.at - 0 == next.now - 0 + SLACK + 1
    ensures AdmittedAtOnce(q, Found(q, BurstAt0(q), kept, true), next.now, q.burst) == q.burst
    ensures AdmittedAtOnce(q, Lasting(q, BurstAt0(q)), next.now, q.burst) < q.burst
  {
    var cs := BurstAt0(q);
    AtOnce(q, None, next.now, q.burst);
    BurstEmpties(q);
    FullRefillFills(q, 0);
    FullRefillIsLeast(q, next.now);
    AtOnce(q, Lasting(q, cs), next.now, q.burst);
  }

  // ----- Erasing denied calls -----

  /** The decisions a run makes, in order. */
  function Decisions(q: Quota, calls: seq<int>): (r: seq<bool>)
    ensures |r| == |calls|
  {
    if calls == [] then []
    else
      var front := calls[..|calls| - 1];
      Decisions(q, front) + [Decide(q, After(q, front), calls[|calls| - 1])]
  }

  function Keep<T>(xs: seq<T>, keep: seq<bool>): seq<T>
    requires |keep| == |xs|
  {
    if xs == [] then []
    else
      var n := |xs| - 1;
      Keep(xs[..n], keep[..n]) + if keep[n] then [xs[n]] else []
  }

  /** Two hashes no call from `now` on can tell apart. */
  ghost predicate SameFrom(q: Quota, a: Option<Hash>, b: Option<Hash>, now: int) {
    forall later | later >= now :: Available(q, a, later) == Available(q, b, later)
  }

  /** A denied call in timestamp order only moves credit already earned. */
  lemma DenialIsInvisible(q: Quota, h: Hash, now: int, later: int)
    requires q.Valid() && h.ts <= now <= later && !Decide(q, Some(h), now)
    ensures Available(q, Some(Write(q, Some(h), now)), later) == Available(q, Some(h), later)
  {
    GainAdds(q, now - h.ts, later - now);
    assert now - h.ts + (later - now) == later - h.ts;
    GainMonotone(q, 0, now - h.ts);
    GainMonotone(q, 0, later - now);
  }

  /** Only denied calls are left out of the kept run. */
  ghost predicate ErasesOnlyDenied(q: Quota, calls: seq<int>, keep: seq<bool>)
    requires |keep| == |calls|
  {
    forall i: nat | i < |calls| :: Admitted(q, calls, i) ==> keep[i]
  }

  /** The kept run ends in a state no later call can tell from the full run's. */
  ghost predicate SameEnd(q: Quota, calls: seq<int>, keep: seq<bool>)
    requires |keep| == |calls|
  {
    calls == [] || SameFrom(q, After(q, Keep(calls, keep)), After(q, calls), calls[|calls| - 1])
  }

  /**
   Erasing denied calls: on ordered timestamps, deleting any set of denied calls leaves every
   remaining decision as it was, so polling while denied neither delays nor advances an admission.
   */
  lemma {:induction false} ErasingDenied(q: Quota, calls: seq<int>, keep: seq<bool>)
    requires q.Valid() && |keep| == |calls|
    requires Ordered(calls) && ErasesOnlyDenied(q, calls, keep)
    ensures Decisions(q, Keep(calls, keep)) == Keep(Decisions(q, calls), keep)
  {
    ErasingInvariant(q, calls, keep);
  }

  lemma {:induction false} ErasingInvariant(q: Quota, calls: seq<int>, keep: seq<bool>)
    requires q.Valid() && |keep| == |calls|
    requires Ordered(calls) && ErasesOnlyDenied(q, calls, keep)
    ensures Decisions(q, Keep(calls, keep)) == Keep(Decisions(q, calls), keep)
    ensures SameEnd(q, calls, keep)
  {
    if calls != [] {
      var n := |calls| - 1;
      assert ErasesOnlyDenied(q, calls[..n], keep[..n]) by {
        forall i: nat | i < n && Admitted(q, calls[..n], i) ensures keep[..n][i] {
          assert calls[..n][..i] == calls[..i];
        }
      }
      ErasingInvariant(q, calls[..n], keep[..n]);
      KeepStep(q, calls, keep);
      ErasingStep(q, calls, keep);
    }
  }

  lemma ErasingStep(q: Quota, calls: seq<int>, keep: seq<bool>)
    requires q.Valid() && |keep| == |calls| && calls != []
    requires Ordered(calls) && ErasesOnlyDenied(q, calls, keep)
    requires SameEnd(q, calls[..|calls| - 1], keep[..|calls| - 1])
    ensures SameEnd(q, calls, keep)
    ensures var n := |calls| - 1;
            Decide(q, After(q, Keep(calls[..n], keep[..n])), calls[n]) == Decide(q, After(q, calls[..n]), calls[n])
  {
    var n := |calls| - 1;
    var front, now := calls[..n], calls[n];
    var a, b := After(q, Keep(front, keep[..n])), After(q, front);
    assert front != [] ==> front[n - 1] <= now;
    assert SameFrom(q, a, b, now);
    SameWrite(q, a, b, now);
    KeepStep(q, calls, keep);
    if !keep[n] {
      assert !Admitted(q, calls, n);
      DenialKeepsSame(q, a, front, now);
    }
  }

  /** How one more call extends the kept run. */
  lemma KeepStep(q: Quota, calls: seq<int>, keep: seq<bool>)
    requires |keep| == |calls| && calls != []
    ensures var n := |calls| - 1;
            var front := Keep(calls[..n], keep[..n]);
            && Keep(Decisions(q, calls), keep) ==
               Keep(Decisions(q, calls[..n]), keep[..n]) + (if keep[n] then [Decide(q, After(q, calls[..n]), calls[n])] else [])
            && (keep[n] ==>
                  && Decisions(q, Keep(calls, keep)) == Decisions(q, front) + [Decide(q, After(q, front), calls[n])]
                  && After(q, Keep(calls, keep)) == Some(Write(q, After(q, front), calls[n])))
            && (!keep[n] ==> Keep(calls, keep) == front)
  {
    var n := |calls| - 1;
    var front := Keep(calls[..n], keep[..n]);
    assert Decisions(q, calls)[..n] == Decisions(q, calls[..n]);
    if keep[n] {
      assert Keep(calls, keep) == front + [calls[n]];
      assert Keep(calls, keep)[..|front|] == front;
    }
  }

  lemma SameWrite(q: Quota, a: Option<Hash>, b: Option<Hash>, now: int)
    requires SameFrom(q, a, b, now)
    ensures Decide(q, a, now) == Decide(q, b, now) && Write(q, a, now) == Write(q, b, now)
  {
    assert Available(q, a, now) == Available(q, b, now);
  }

  lemma DenialKeepsSame(q: Quota, a: Option<Hash>, front: seq<int>, now: int)
    requires q.Valid() && SameFrom(q, a, After(q, front), now) && !Decide(q, After(q, front), now)
    requires front != [] ==> front[|front| - 1] <= now
    ensures SameFrom(q, a, Some(Write(q, After(q, front), now)), now)
  {
    var b := After(q, front);
    if b.None? {
      WriteInRange(q, None, now);
      assert false;
    } else {
      AfterStamp(q, front);
      forall later | later >= now
        ensures Available(q, a, later) == Available(q, Some(Write(q, b, now)), later)
      {
        DenialIsInvisible(q, b.value, now, later);
      }
    }
  }

  lemma AfterStamp(q: Quota, calls: seq<int>)
    requires calls != []
    ensures After(q, calls).Some? && After(q, calls).value.ts == calls[|calls| - 1]
  {}

  /**
   Without the order it fails: a denied call stamped in the past rewinds `ts`, and the next call
   is credited for the same second twice.
   */
  lemma RewoundDenialMintsToken()
    ensures var q := Quota(1.0, 1);
            Decisions(q, [0, -1000, 0]) == [true, false, true] && Decisions(q, [0, 0]) == [true, false]
  {
    var q := Quota(1.0, 1);
    var c1, c2, c3, d2 := [0], [0, -1000], [0, -1000, 0], [0, 0];
    assert c1[..0] == [] && c2[..1] == c1 && c3[..2] == c2 && d2[..1] == c1;
    assert After(q, c1) == Some(Hash(0.0, 0));
    assert After(q, c2) == Some(Hash(0.0, -1000));
    assert Decisions(q, c1) == [true];
  }

  /**
   Exactly when one denied call is invisible to the next: its timestamp lies between its
   neighbours', or both gaps run backwards, or the bucket is full either way.
   */
  lemma DenialInvisibleExactly(q: Quota, h: Hash, now: int, later: int)
    requires q.Valid() && !Decide(q, Some(h), now)
    ensures Available(q, Some(Write(q, Some(h), now)), later) == Available(q, Some(h), later)
            <==> (h.ts <= now <= later || later <= now <= h.ts || Available(q, Some(h), later) == q.burst as real)
  {
    var split, whole := Elapsed(h.ts, now) + Elapsed(now, later), Elapsed(h.ts, later);
    GainAdds(q, Elapsed(h.ts, now), Elapsed(now, later));
    GainMonotone(q, whole, split);
    GainMonotone(q, 0, Elapsed(now, later));
    assert split == whole <==> h.ts <= now <= later || later <= now <= h.ts;
  }
}
