/**
 The token-bucket script as real arithmetic, and what any sequence of calls on one key does.

 Timestamps are read on the calling pod before the script runs, so nothing here assumes that
 the timestamps one key sees are ordered: the script clamps a negative gap to zero, yet still
 stores the earlier timestamp.
 */
module TokenBucket {
  import opened Wrappers

  /** Refill rate in tokens per second, and the most tokens a bucket holds. */
  datatype Quota = Quota(rate: real, burst: int) {
    /** `RedisLimiter.Allow` runs the script for no other quota. */
    predicate Valid() {
      rate > 0.0 && burst > 0
    }
  }

  /** The Redis hash of one key: fields `t` and `ts`. */
  datatype Hash = Hash(t: real, ts: int)

  function Min(a: real, b: real): real {
    if a <= b then a else b
  }

  /** Milliseconds the script credits between two timestamps. */
  function Elapsed(last: int, now: int): nat {
    Max(0, now - last)
  }

  /** Tokens earned in `ms` milliseconds. */
  function Gain(q: Quota, ms: int): real {
    ms as real / 1000.0 * q.rate
  }

  /** Tokens the script sees before it decides. */
  function Available(q: Quota, h: Option<Hash>, now: int): real {
    var tokens := if h.None? then q.burst as real else h.value.t;
    var last := if h.None? then now else h.value.ts;
    Min(q.burst as real, tokens + Gain(q, Elapsed(last, now)))
  }

  function Decide(q: Quota, h: Option<Hash>, now: int): bool {
    Available(q, h, now) >= 1.0
  }

  /** The hash the script writes back. */
  function Write(q: Quota, h: Option<Hash>, now: int): Hash {
    var tokens := Available(q, h, now);
    Hash(if Decide(q, h, now) then tokens - 1.0 else tokens, now)
  }

  lemma GainAdds(q: Quota, a: int, b: int)
    ensures Gain(q, a + b) == Gain(q, a) + Gain(q, b)
  {
    var x, y := a as real / 1000.0, b as real / 1000.0;
    assert (a + b) as real / 1000.0 == x + y;
    assert (x + y) * q.rate == x * q.rate + y * q.rate;
  }

  lemma GainMonotone(q: Quota, a: int, b: int)
    requires q.rate > 0.0 && a <= b
    ensures Gain(q, a) <= Gain(q, b)
    ensures a < b ==> Gain(q, a) < Gain(q, b)
  {
    var x, y := a as real / 1000.0, b as real / 1000.0;
    if a < b {
      assert x < y;
      assert (y - x) * q.rate > 0.0;
      assert y * q.rate - x * q.rate == (y - x) * q.rate;
    }
  }

  // ----- A run: the timestamps of successive calls on a key that starts absent -----

  function After(q: Quota, calls: seq<int>): Option<Hash> {
    if calls == [] then None
    else Some(Write(q, After(q, calls[..|calls| - 1]), calls[|calls| - 1]))
  }

  /** The decision on call `n`. */
  predicate Admitted(q: Quota, calls: seq<int>, n: nat)
    requires n < |calls|
  {
    Decide(q, After(q, calls[..n]), calls[n])
  }

  /** How many of the calls in `[i, n)` are admitted. */
  function AdmittedIn(q: Quota, calls: seq<int>, i: nat, n: nat): nat
    requires i <= n <= |calls|
  {
    if i == n then 0
    else AdmittedIn(q, calls, i, n - 1) + if Admitted(q, calls, n - 1) then 1 else 0
  }

  /** The virtual clock at call `n`: the positive timestamp increments so far. */
  function Virtual(calls: seq<int>, n: nat): nat
    requires n < |calls|
  {
    if n == 0 then 0 else Virtual(calls, n - 1) + Elapsed(calls[n - 1], calls[n])
  }

  /** The most tokens call `n` can find if the bucket was full at call `i`. */
  function Envelope(q: Quota, calls: seq<int>, i: nat, n: nat): real
    requires i <= n < |calls|
  {
    q.burst as real + Gain(q, Virtual(calls, n) - Virtual(calls, i)) - AdmittedIn(q, calls, i, n) as real
  }

  ghost predicate IsLeastEnvelope(q: Quota, calls: seq<int>, n: nat, x: real)
    requires n < |calls|
  {
    && (forall i: nat | i <= n :: x <= Envelope(q, calls, i, n))
    && (exists i: nat | i <= n :: x == Envelope(q, calls, i, n))
  }

  lemma AvailableUnfold(q: Quota, calls: seq<int>, n: nat)
    requires q.Valid() && 0 < n < |calls|
    ensures var before := Available(q, After(q, calls[..n - 1]), calls[n - 1]);
            var spent := if Admitted(q, calls, n - 1) then 1.0 else 0.0;
            Available(q, After(q, calls[..n]), calls[n]) ==
            Min(q.burst as real, before - spent + Gain(q, Elapsed(calls[n - 1], calls[n])))
  {
    assert calls[..n][..n - 1] == calls[..n - 1];
  }

  lemma EnvelopeUnfold(q: Quota, calls: seq<int>, i: nat, n: nat)
    requires i < n < |calls|
    ensures Envelope(q, calls, i, n) ==
            Envelope(q, calls, i, n - 1) - (if Admitted(q, calls, n - 1) then 1.0 else 0.0)
            + Gain(q, Elapsed(calls[n - 1], calls[n]))
  {
    GainAdds(q, Virtual(calls, n - 1) - Virtual(calls, i), Elapsed(calls[n - 1], calls[n]));
    assert Virtual(calls, n) - Virtual(calls, i) ==
           Virtual(calls, n - 1) - Virtual(calls, i) + Elapsed(calls[n - 1], calls[n]);
  }

  /** The min-plus closed form: what call `n` finds is the least envelope over all earlier calls. */
  lemma {:induction false} ClosedForm(q: Quota, calls: seq<int>, n: nat)
    requires q.Valid() && n < |calls|
    ensures IsLeastEnvelope(q, calls, n, Available(q, After(q, calls[..n]), calls[n]))
  {
    var x := Available(q, After(q, calls[..n]), calls[n]);
    assert Envelope(q, calls, n, n) == q.burst as real;
    if n == 0 {
      assert calls[..0] == [];
      assert x == Envelope(q, calls, 0, 0);
    } else {
      ClosedForm(q, calls, n - 1);
      AvailableUnfold(q, calls, n);
      forall i: nat | i <= n ensures x <= Envelope(q, calls, i, n) {
        if i < n { EnvelopeUnfold(q, calls, i, n); }
      }
      var before := Available(q, After(q, calls[..n - 1]), calls[n - 1]);
      var j: nat :| j <= n - 1 && before == Envelope(q, calls, j, n - 1);
      EnvelopeUnfold(q, calls, j, n);
      assert x == Envelope(q, calls, j, n) || x == Envelope(q, calls, n, n);
    }
  }

  /** Admitting call `n` keeps the admissions in `[i, n]` within burst plus refill since call `i`. */
  predicate Fits(q: Quota, calls: seq<int>, i: nat, n: nat)
    requires i <= n < |calls|
  {
    (AdmittedIn(q, calls, i, n) + 1) as real <= q.burst as real + Gain(q, Virtual(calls, n) - Virtual(calls, i))
  }

  lemma FitsIsEnvelope(q: Quota, calls: seq<int>, i: nat, n: nat)
    requires i <= n < |calls|
    ensures Fits(q, calls, i, n) <==> Envelope(q, calls, i, n) >= 1.0
  {
    var k := AdmittedIn(q, calls, i, n);
    assert (k + 1) as real == k as real + 1.0;
  }

  /**
   The exact admission criterion: call `n` is admitted precisely when admitting it keeps every
   stretch of calls that ends with it within burst plus refill.
   */
  lemma AdmissionCriterion(q: Quota, calls: seq<int>, n: nat)
    requires q.Valid() && n < |calls|
    ensures Admitted(q, calls, n) <==> forall i: nat | i <= n :: Fits(q, calls, i, n)
  {
    ClosedForm(q, calls, n);
    var x := Available(q, After(q, calls[..n]), calls[n]);
    forall i: nat | i <= n ensures Fits(q, calls, i, n) <==> Envelope(q, calls, i, n) >= 1.0 {
      FitsIsEnvelope(q, calls, i, n);
    }
  }

  ghost predicate Ordered(calls: seq<int>) {
    forall i, j | 0 <= i < j < |calls| :: calls[i] <= calls[j]
  }

  /** Virtual time never runs slower than the timestamps, and is exact when they are ordered. */
  lemma {:induction false} VirtualIsElapsed(calls: seq<int>, i: nat, n: nat)
    requires i <= n < |calls|
    ensures Virtual(calls, n) - Virtual(calls, i) >= calls[n] - calls[i]
    ensures Ordered(calls) ==> Virtual(calls, n) - Virtual(calls, i) == calls[n] - calls[i]
  {
    if i < n { VirtualIsElapsed(calls, i, n - 1); }
  }

  /** The virtual clock once all calls are in. */
  function Clock(calls: seq<int>): nat {
    if calls == [] then 0 else Virtual(calls, |calls| - 1)
  }

  lemma {:induction false} VirtualOfPrefix(calls: seq<int>, now: int, n: nat)
    requires n < |calls|
    ensures Virtual(calls + [now], n) == Virtual(calls, n)
  {
    if n > 0 { VirtualOfPrefix(calls, now, n - 1); }
  }

  /** The virtual clock advances by what the script credits. */
  lemma ClockStep(calls: seq<int>, now: int)
    ensures Clock(calls + [now]) == Clock(calls) + if calls == [] then 0 else Elapsed(calls[|calls| - 1], now)
  {
    if calls != [] { VirtualOfPrefix(calls, now, |calls| - 1); }
  }

  /** Every reachable hash holds between zero and `burst` tokens and the last caller's timestamp. */
  lemma {:induction false} TokensInRange(q: Quota, calls: seq<int>)
    requires q.Valid() && calls != []
    ensures var h := After(q, calls);
            h.Some? && 0.0 <= h.value.t <= q.burst as real && h.value.ts == calls[|calls| - 1]
  {
    var front := calls[..|calls| - 1];
    if front != [] { TokensInRange(q, front); }
    WriteInRange(q, After(q, front), calls[|calls| - 1]);
  }

  ghost predicate InRange(q: Quota, h: Option<Hash>) {
    h.Some? ==> 0.0 <= h.value.t <= q.burst as real
  }

  lemma WriteInRange(q: Quota, h: Option<Hash>, now: int)
    requires q.Valid() && InRange(q, h)
    ensures 0.0 <= Available(q, h, now) <= q.burst as real
    ensures InRange(q, Some(Write(q, h, now)))
    ensures h.None? ==> Available(q, h, now) == q.burst as real
  {
    if h.Some? {
      GainMonotone(q, 0, Elapsed(h.value.ts, now));
    }
  }

  // ----- Calls at one moment -----

  function Least(a: int, b: int): int {
    if a <= b then a else b
  }

  /** How many of `n` calls, all stamped `now`, a bucket admits. */
  function AdmittedAtOnce(q: Quota, h: Option<Hash>, now: int, n: nat): nat
    decreases n
  {
    if n == 0 then 0
    else (if Decide(q, h, now) then 1 else 0) + AdmittedAtOnce(q, Some(Write(q, h, now)), now, n - 1)
  }

  /** As many as it has whole tokens. */
  lemma {:induction false} AtOnce(q: Quota, h: Option<Hash>, now: int, n: nat)
    requires q.Valid() && InRange(q, h)
    ensures AdmittedAtOnce(q, h, now, n) == Least(n, Available(q, h, now).Floor)
    decreases n
  {
    WriteInRange(q, h, now);
    if n > 0 {
      assert Gain(q, 0) == 0.0;
      AtOnce(q, Some(Write(q, h, now)), now, n - 1);
    }
  }

  /** On a key that starts absent, calls at one stamp are admitted up to the burst and empty the bucket one by one. */
  lemma {:induction false} BurstAtOnce(q: Quota, calls: seq<int>, stamp: int, n: nat)
    requires q.Valid() && n <= |calls| && forall i | 0 <= i < |calls| :: calls[i] == stamp
    ensures AdmittedIn(q, calls, 0, n) == Least(n, q.burst)
    ensures n > 0 ==> After(q, calls[..n]) == Some(Hash((q.burst - Least(n, q.burst)) as real, stamp))
  {
    if n > 0 {
      BurstAtOnce(q, calls, stamp, n - 1);
      assert calls[..n][..n - 1] == calls[..n - 1] && calls[..n][n - 1] == stamp;
      assert Gain(q, 0) == 0.0;
    }
  }
}
