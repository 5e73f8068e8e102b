/**
 The bucket in exact integers. Every caller's rate is `perMinute / 60` tokens per second, so a
 token split into 60000 parts earns exactly `perMinute` parts per millisecond and nothing rounds.
 */
module ScaledBucket {
  import opened Wrappers
  import opened TokenBucket

  /** Parts per token. */
  const SCALE := 60000

  function PerMinute(perMinute: int, burst: int): Quota {
    Quota(perMinute as real / 60.0, burst)
  }

  lemma GainInParts(perMinute: int, burst: int, ms: int)
    ensures Gain(PerMinute(perMinute, burst), ms) == (ms * perMinute) as real / 60000.0
  {
    var x, y := ms as real, perMinute as real;
    assert (ms * perMinute) as real == x * y;
    assert x / 1000.0 * (y / 60.0) == x * y / 60000.0;
  }

  /** A bucket updated in place; `calls` records what has been asked of it. */
  class Bucket {
    const perMinute: int
    const burst: int
    var parts: int
    var last: int
    var present: bool
    ghost var calls: seq<int>

    ghost function Limit(): Quota {
      PerMinute(perMinute, burst)
    }

    /** The real-valued hash this bucket stands for. */
    ghost function Abstract(): Option<Hash>
      reads this
    {
      if present then Some(Hash(parts as real / 60000.0, last)) else None
    }

    /** The bucket agrees with the script on everything asked so far, within range. */
    ghost predicate Valid()
      reads this
    {
      && perMinute > 0 && burst > 0
      && (present ==> 0 <= parts <= burst * SCALE)
      && Abstract() == After(Limit(), calls)
    }

    constructor (perMinute: int, burst: int)
      requires perMinute > 0 && burst > 0
      ensures Valid() && calls == []
      ensures this.perMinute == perMinute && this.burst == burst
    {
      this.perMinute, this.burst := perMinute, burst;
      parts, last, present, calls := 0, 0, false, [];
    }

    /** One call: the same decision as the script's, on every trace and every timestamp. */
    method Allow(now: int) returns (allowed: bool)
      requires Valid()
      modifies this
      ensures Valid() && calls == old(calls) + [now]
      ensures allowed == Admitted(Limit(), calls, |old(calls)|)
    {
      RefillInParts(perMinute, burst, Abstract(), parts, last, now);
      if !present {
        parts, last, present := burst * SCALE, now, true;
      }
      var refilled := parts + Max(0, now - last) * perMinute;
      if refilled > burst * SCALE {
        refilled := burst * SCALE;
      }
      allowed := refilled >= SCALE;
      parts := if allowed then refilled - SCALE else refilled;
      last := now;
      calls := calls + [now];
      assert calls[..|old(calls)|] == old(calls);
    }
  }

  /** Parts in the bucket once refilled. */
  function Refilled(perMinute: int, burst: int, parts: int, last: int, now: int): int {
    var total := parts + Max(0, now - last) * perMinute;
    if total > burst * SCALE then burst * SCALE else total
  }

  /** The script's step on the hash that `parts` stands for, or on an absent key. */
  lemma RefillInParts(perMinute: int, burst: int, h: Option<Hash>, parts: int, last: int, now: int)
    requires perMinute > 0 && burst > 0
    requires h.Some? ==> 0 <= parts <= burst * SCALE && h.value == Hash(parts as real / 60000.0, last)
    ensures var q := PerMinute(perMinute, burst);
            var p := if h.None? then Refilled(perMinute, burst, burst * SCALE, now, now)
                     else Refilled(perMinute, burst, parts, last, now);
            && 0 <= p <= burst * SCALE
            && Decide(q, h, now) == (p >= SCALE)
            && Write(q, h, now) == Hash((if p >= SCALE then p - SCALE else p) as real / 60000.0, now)
  {
    var q := PerMinute(perMinute, burst);
    var ms := if h.None? then 0 else Elapsed(last, now);
    var held := if h.None? then burst * SCALE else parts;
    GainInParts(perMinute, burst, ms);
    var earned := ms * perMinute;
    assert earned >= 0;
    assert (held + earned) as real / 60000.0 == held as real / 60000.0 + earned as real / 60000.0;
    assert (burst * SCALE) as real / 60000.0 == burst as real;
    var p := if held + earned > burst * SCALE then burst * SCALE else held + earned;
    assert Available(q, h, now) == p as real / 60000.0;
  }
}
