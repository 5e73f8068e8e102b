/**
 Account lockout as a state machine. A login first counts recent failures and later, in a
 separate statement with no transaction around the two, records its own attempt; any number of
 logins may sit between those two points, on any pods, and their clocks need not agree. All that
 is assumed of time is that no login's own clock runs backwards between its check and its record.
 */
module Lockout {
  import opened Wrappers

  /** `SecurityConfig`: failures that lock, and how far back they count. */
  datatype Policy = Policy(max: int, window: int)

  /** A row of `login_attempts`. */
  datatype Attempt = Attempt(email: string, successful: bool, createdAt: int)

  /** A login that passed the check and has not yet recorded its attempt. */
  datatype Pending = Pending(email: string, checkedAt: int)

  datatype State = State(log: seq<Attempt>, pending: map<nat, Pending>)

  datatype Event =
    | Check(login: nat, email: string, now: int)
    | Record(login: nat, successful: bool, createdAt: int)
    | Quit(login: nat)  // an error path, or a record that failed to insert

  /** `CountRecentFailed` */
  function CountRecentFailed(log: seq<Attempt>, email: string, since: int): nat {
    if log == [] then 0
    else
      var a := log[|log| - 1];
      CountRecentFailed(log[..|log| - 1], email, since)
      + if a.email == email && !a.successful && a.createdAt >= since then 1 else 0
  }

  predicate Locked(p: Policy, log: seq<Attempt>, email: string, now: int) {
    CountRecentFailed(log, email, now - p.window) >= p.max
  }

  /** One atomic step; an event the state does not allow changes nothing. */
  function Step(p: Policy, s: State, e: Event): State {
    match e
    case Check(login, email, now) =>
      if login in s.pending || Locked(p, s.log, email, now) then s
      else s.(pending := s.pending[login := Pending(email, now)])
    case Record(login, successful, createdAt) =>
      if login !in s.pending || createdAt < s.pending[login].checkedAt then s
      else State(s.log + [Attempt(s.pending[login].email, successful, createdAt)], s.pending - {login})
    case Quit(login) => s.(pending := s.pending - {login})
  }

  function After(p: Policy, es: seq<Event>): State {
    if es == [] then State([], map[])
    else Step(p, After(p, es[..|es| - 1]), es[|es| - 1])
  }

  /** Where in the log the email's failures from `since` on stand. */
  ghost function RecentFailures(log: seq<Attempt>, email: string, since: int): set<nat> {
    set i: nat | i < |log| && log[i].email == email && !log[i].successful && log[i].createdAt >= since
  }

  lemma RecentAppend(log: seq<Attempt>, a: Attempt, email: string, since: int)
    ensures |RecentFailures(log + [a], email, since)| ==
            |RecentFailures(log, email, since)| + if a.email == email && !a.successful && a.createdAt >= since then 1 else 0
  {
    assert RecentFailures(log + [a], email, since) ==
           RecentFailures(log, email, since) + if a.email == email && !a.successful && a.createdAt >= since then {|log|} else {};
  }

  /** Those are the rows it counts. */
  lemma {:induction false} CountIsExact(log: seq<Attempt>, email: string, since: int)
    ensures CountRecentFailed(log, email, since) == |RecentFailures(log, email, since)|
  {
    if log == [] {
      assert RecentFailures(log, email, since) == {};
    } else {
      var front, a := log[..|log| - 1], log[|log| - 1];
      CountIsExact(front, email, since);
      assert log == front + [a];
      RecentAppend(front, a, email, since);
    }
  }

  // ----- The bound over every interleaving -----

  /** Recorded failures stamped in the closed window `[from, from + length]`. */
  function FailuresIn(log: seq<Attempt>, email: string, from: int, length: int): nat {
    if log == [] then 0
    else
      var a := log[|log| - 1];
      FailuresIn(log[..|log| - 1], email, from, length)
      + if a.email == email && !a.successful && from <= a.createdAt <= from + length then 1 else 0
  }

  /** They are the recent failures from `from` on, less those after the window. */
  lemma {:induction false} FailuresAreExact(log: seq<Attempt>, email: string, from: int, length: int)
    requires length >= 0
    ensures FailuresIn(log, email, from, length) ==
            CountRecentFailed(log, email, from) - CountRecentFailed(log, email, from + length + 1)
  {
    if log != [] { FailuresAreExact(log[..|log| - 1], email, from, length); }
  }

  ghost function InFlight(s: State, email: string): set<nat> {
    set l | l in s.pending && s.pending[l].email == email
  }

  /** At most `k` logins on this email are ever between check and record. */
  ghost predicate PeakAtMost(p: Policy, es: seq<Event>, email: string, k: nat) {
    && |InFlight(After(p, es), email)| <= k
    && (es != [] ==> PeakAtMost(p, es[..|es| - 1], email, k))
  }

  /** Logins in flight that may still record inside a window ending at `last`. */
  ghost function MayLand(s: State, email: string, last: int): set<nat> {
    set l | l in s.pending && s.pending[l].email == email && s.pending[l].checkedAt <= last
  }

  function Cap(p: Policy, k: nat): nat {
    if p.max <= 0 then 0 else p.max - 1 + k
  }

  lemma {:induction false} CountCoversWindow(log: seq<Attempt>, email: string, since: int, from: int, length: int)
    requires since <= from
    ensures FailuresIn(log, email, from, length) <= CountRecentFailed(log, email, since)
  {
    if log != [] { CountCoversWindow(log[..|log| - 1], email, since, from, length); }
  }

  /** What is in the window, plus what may still land there, is within the cap. */
  ghost predicate Capped(p: Policy, s: State, email: string, from: int, k: nat) {
    FailuresIn(s.log, email, from, p.window) + |MayLand(s, email, from + p.window)| <= Cap(p, k)
  }

  lemma CheckKeepsCap(p: Policy, s: State, e: Event, email: string, from: int, k: nat)
    requires e.Check? && Capped(p, s, email, from, k) && |InFlight(Step(p, s, e), email)| <= k
    ensures Capped(p, Step(p, s, e), email, from, k)
  {
    var s', last := Step(p, s, e), from + p.window;
    if s' != s {
      if e.email == email && e.now <= last {
        CountCoversWindow(s.log, email, e.now - p.window, from, p.window);
        SubsetSize(MayLand(s', email, last), InFlight(s', email));
      } else {
        assert MayLand(s', email, last) == MayLand(s, email, last);
      }
    }
  }

  lemma RecordKeepsCap(p: Policy, s: State, e: Event, email: string, from: int, k: nat)
    requires e.Record? && Capped(p, s, email, from, k)
    ensures Capped(p, Step(p, s, e), email, from, k)
  {
    var s', last := Step(p, s, e), from + p.window;
    if s' != s {
      var before, after := MayLand(s, email, last), MayLand(s', email, last);
      assert s'.log[..|s.log|] == s.log;
      assert after == before - {e.login};
      if s.pending[e.login].email == email && e.createdAt <= last {
        assert e.login in before;
      } else {
        SubsetSize(after, before);
      }
    }
  }

  /** The invariant behind the bound. */
  lemma StepKeepsCap(p: Policy, s: State, e: Event, email: string, from: int, k: nat)
    requires Capped(p, s, email, from, k) && |InFlight(Step(p, s, e), email)| <= k
    ensures Capped(p, Step(p, s, e), email, from, k)
  {
    match e
    case Check(_, _, _) => CheckKeepsCap(p, s, e, email, from, k);
    case Record(_, _, _) => RecordKeepsCap(p, s, e, email, from, k);
    case Quit(_) => SubsetSize(MayLand(Step(p, s, e), email, from + p.window), MayLand(s, email, from + p.window));
  }

  lemma {:induction false} CapInvariant(p: Policy, es: seq<Event>, email: string, from: int, k: nat)
    requires PeakAtMost(p, es, email, k)
    ensures Capped(p, After(p, es), email, from, k)
  {
    if es == [] {
      assert MayLand(After(p, es), email, from + p.window) == {};
    } else {
      CapInvariant(p, es[..|es| - 1], email, from, k);
      StepKeepsCap(p, After(p, es[..|es| - 1]), es[|es| - 1], email, from, k);
    }
  }

  /**
   The lockout bound: in every interleaving with at most `k` logins on the email in flight, no
   closed window of the configured length holds more than `max - 1 + k` recorded failures.
   */
  lemma LockoutBound(p: Policy, es: seq<Event>, email: string, from: int, k: nat)
    requires PeakAtMost(p, es, email, k)
    ensures FailuresIn(After(p, es).log, email, from, p.window) <= Cap(p, k)
  {
    CapInvariant(p, es, email, from, k);
  }

  /** Closed windows of length `window` needed to cover a closed interval. */
  function WindowsFor(length: int, window: int): nat
    requires window > 0
    decreases length
  {
    if length <= window then 1 else 1 + WindowsFor(length - window, window)
  }

  /** The number of windows is the ratio rounded up, so never more than its floor plus one. */
  lemma {:induction false} WindowsForIsCeiling(length: int, window: int)
    requires window > 0 && length > 0
    ensures var w := WindowsFor(length, window);
            (w - 1) * window < length <= w * window && w <= length / window + 1
    decreases length
  {
    var w := WindowsFor(length, window);
    if length > window {
      WindowsForIsCeiling(length - window, window);
      assert (w - 1 - 1) * window == (w - 1) * window - window;
    }
    QuotientBound(w - 1, length, window);
  }

  lemma QuotientBound(k: int, x: int, d: int)
    requires d > 0 && k * d < x
    ensures k <= x / d
  {
    var r := x / d;
    assert x < r * d + d;
    assert (k - r - 1) * d < 0;
    assert k - r - 1 < 0 by {
      if k - r - 1 >= 0 { assert false; }
    }
  }

  lemma {:induction false} SplitWindow(log: seq<Attempt>, email: string, from: int, length: int, first: int)
    requires 0 <= first
    ensures FailuresIn(log, email, from, length)
            <= FailuresIn(log, email, from, first) + FailuresIn(log, email, from + first, length - first)
    ensures length <= first ==> FailuresIn(log, email, from, length) <= FailuresIn(log, email, from, first)
  {
    if log != [] { SplitWindow(log[..|log| - 1], email, from, length, first); }
  }

  /**
   The long-horizon budget: an interval of any length holds at most one cap per window needed to
   cover it, whatever logins succeed in between.
   */
  lemma {:induction false} GuessBudget(p: Policy, es: seq<Event>, email: string, from: int, length: int, k: nat)
    requires PeakAtMost(p, es, email, k) && p.window > 0
    ensures FailuresIn(After(p, es).log, email, from, length) <= Cap(p, k) * WindowsFor(length, p.window)
    decreases length
  {
    var log := After(p, es).log;
    LockoutBound(p, es, email, from, k);
    SplitWindow(log, email, from, length, p.window);
    if length > p.window {
      GuessBudget(p, es, email, from + p.window, length - p.window, k);
      var rest := WindowsFor(length - p.window, p.window);
      assert Cap(p, k) * (1 + rest) == Cap(p, k) + Cap(p, k) * rest;
    }
  }

  // ----- The bound is reached -----

  /** `n` failures on the email, all at time zero. */
  function FailedLog(email: string, n: nat): seq<Attempt> {
    if n == 0 then [] else FailedLog(email, n - 1) + [Attempt(email, false, 0)]
  }

  lemma {:induction false} FailedLogCounts(email: string, n: nat, since: int, length: nat)
    requires since <= 0
    ensures CountRecentFailed(FailedLog(email, n), email, since) == n
    ensures FailuresIn(FailedLog(email, n), email, 0, length) == n
  {
    if n > 0 {
      var front := FailedLog(email, n - 1);
      FailedLogCounts(email, n - 1, since, length);
      assert FailedLog(email, n) == front + [Attempt(email, false, 0)];
      assert FailedLog(email, n)[..|front|] == front;
    }
  }

  lemma AfterTwo(p: Policy, es: seq<Event>, e1: Event, e2: Event)
    ensures After(p, es + [e1]) == Step(p, After(p, es), e1)
    ensures After(p, es + [e1, e2]) == Step(p, Step(p, After(p, es), e1), e2)
    ensures (es + [e1])[..|es|] == es && (es + [e1, e2])[..|es| + 1] == es + [e1]
  {
    assert (es + [e1])[..|es|] == es && (es + [e1, e2])[..|es| + 1] == es + [e1];
  }

  lemma FailedLogOpen(p: Policy, email: string, n: nat)
    requires n < p.max && p.window >= 0
    ensures !Locked(p, FailedLog(email, n), email, 0)
  {
    FailedLogCounts(email, n, -p.window, 0);
  }

  /** One sequential login, from a state with nothing in flight. */
  lemma OneLogin(p: Policy, es: seq<Event>, email: string, now: int, successful: bool, createdAt: int, other: string)
    requires After(p, es).pending == map[] && now <= createdAt
    requires PeakAtMost(p, es, other, 1)
    ensures var log := After(p, es).log;
            After(p, es + [Check(0, email, now), Record(0, successful, createdAt)]) ==
            State(if Locked(p, log, email, now) then log else log + [Attempt(email, successful, createdAt)], map[])
    ensures PeakAtMost(p, es + [Check(0, email, now), Record(0, successful, createdAt)], other, 1)
  {
    var e1, e2 := Check(0, email, now), Record(0, successful, createdAt);
    AfterTwo(p, es, e1, e2);
    var mid, end := After(p, es + [e1]), After(p, es + [e1, e2]);
    assert InFlight(mid, other) <= {0};
    SubsetSize(InFlight(mid, other), {0});
    assert end.pending == map[];
    assert InFlight(end, other) == {};
  }

  lemma PeakExtends(p: Policy, es: seq<Event>, e: Event, email: string, k: nat)
    requires PeakAtMost(p, es, email, k) && |InFlight(Step(p, After(p, es), e), email)| <= k
    ensures PeakAtMost(p, es + [e], email, k)
  {
    AfterOne(p, es, e);
  }

  /** Logins fail one after the other, each at time zero, as long as the account is open. */
  lemma {:induction false} FailOneByOne(p: Policy, es: seq<Event>, email: string, n: nat, goal: nat) returns (out: seq<Event>)
    requires After(p, es) == State(FailedLog(email, n), map[]) && PeakAtMost(p, es, email, 1)
    requires n <= goal < p.max && p.window >= 0
    ensures After(p, out) == State(FailedLog(email, goal), map[]) && PeakAtMost(p, out, email, 1)
    decreases goal - n
  {
    if n == goal {
      out := es;
    } else {
      FailedLogOpen(p, email, n);
      OneLogin(p, es, email, 0, false, 0, email);
      out := FailOneByOne(p, es + [Check(0, email, 0), Record(0, false, 0)], email, n + 1, goal);
    }
  }

  /** Logins `0..k - 1` on the email, all between their check and their record. */
  function Waiting(email: string, k: nat): map<nat, Pending> {
    if k == 0 then map[] else Waiting(email, k - 1)[k - 1 := Pending(email, 0)]
  }

  lemma {:induction false} WaitingBelow(email: string, k: nat, login: nat)
    ensures login in Waiting(email, k) <==> login < k
    ensures login < k ==> Waiting(email, k)[login] == Pending(email, 0)
  {
    if k > 0 { WaitingBelow(email, k - 1, login); }
  }

  lemma {:induction false} WaitingInFlight(log: seq<Attempt>, email: string, k: nat)
    ensures |InFlight(State(log, Waiting(email, k)), email)| <= k
  {
    var now := InFlight(State(log, Waiting(email, k)), email);
    if k == 0 {
      assert now == {};
    } else {
      var before := InFlight(State(log, Waiting(email, k - 1)), email);
      WaitingInFlight(log, email, k - 1);
      SubsetSize(now, before + {k - 1});
    }
  }

  lemma {:induction false} PeakWeakens(p: Policy, es: seq<Event>, email: string, k: nat, k': nat)
    requires PeakAtMost(p, es, email, k) && k <= k'
    ensures PeakAtMost(p, es, email, k')
  {
    if es != [] { PeakWeakens(p, es[..|es| - 1], email, k, k'); }
  }

  /** Then `k` logins check before any of them records. */
  lemma {:induction false} CheckTogether(p: Policy, es: seq<Event>, log: seq<Attempt>, email: string, j: nat, k: nat)
      returns (out: seq<Event>)
    requires After(p, es) == State(log, Waiting(email, j)) && !Locked(p, log, email, 0)
    requires PeakAtMost(p, es, email, k) && j <= k
    ensures After(p, out) == State(log, Waiting(email, k)) && PeakAtMost(p, out, email, k)
    decreases k - j
  {
    if j == k {
      out := es;
    } else {
      CheckNext(p, es, log, email, j, k);
      out := CheckTogether(p, es + [Check(j, email, 0)], log, email, j + 1, k);
    }
  }

  lemma CheckNext(p: Policy, es: seq<Event>, log: seq<Attempt>, email: string, next: nat, k: nat)
    requires After(p, es) == State(log, Waiting(email, next)) && !Locked(p, log, email, 0)
    requires PeakAtMost(p, es, email, k) && next < k
    ensures After(p, es + [Check(next, email, 0)]) == State(log, Waiting(email, next + 1))
    ensures PeakAtMost(p, es + [Check(next, email, 0)], email, k)
  {
    AfterOne(p, es, Check(next, email, 0));
    WaitingBelow(email, next, next);
    WaitingInFlight(log, email, next + 1);
    PeakExtends(p, es, Check(next, email, 0), email, k);
  }

  lemma AfterOne(p: Policy, es: seq<Event>, e: Event)
    ensures After(p, es + [e]) == Step(p, After(p, es), e)
    ensures (es + [e])[..|es|] == es
  {
    assert (es + [e])[..|es|] == es;
  }

  /** Afterwards they record, last in first out. */
  lemma {:induction false} RecordTogether(p: Policy, es: seq<Event>, n: nat, email: string, left: nat, k: nat)
      returns (out: seq<Event>)
    requires After(p, es) == State(FailedLog(email, n), Waiting(email, left))
    requires PeakAtMost(p, es, email, k) && left <= k
    ensures After(p, out).log == FailedLog(email, n + left) && PeakAtMost(p, out, email, k)
    decreases left
  {
    if left == 0 {
      out := es;
    } else {
      RecordNext(p, es, n, email, left - 1, k);
      out := RecordTogether(p, es + [Record(left - 1, false, 0)], n + 1, email, left - 1, k);
    }
  }

  lemma RecordNext(p: Policy, es: seq<Event>, n: nat, email: string, left: nat, k: nat)
    requires After(p, es) == State(FailedLog(email, n), Waiting(email, left + 1))
    requires PeakAtMost(p, es, email, k) && left < k
    ensures After(p, es + [Record(left, false, 0)]) == State(FailedLog(email, n + 1), Waiting(email, left))
    ensures PeakAtMost(p, es + [Record(left, false, 0)], email, k)
  {
    RecordLast(p, es, email, left);
    AfterOne(p, es, Record(left, false, 0));
    WaitingInFlight(FailedLog(email, n + 1), email, left);
    PeakExtends(p, es, Record(left, false, 0), email, k);
  }

  lemma RecordLast(p: Policy, es: seq<Event>, email: string, left: nat)
    requires After(p, es).pending == Waiting(email, left + 1)
    ensures After(p, es + [Record(left, false, 0)]) ==
            State(After(p, es).log + [Attempt(email, false, 0)], Waiting(email, left))
    ensures (es + [Record(left, false, 0)])[..|es|] == es
  {
    AfterOne(p, es, Record(left, false, 0));
    WaitingBelow(email, left + 1, left);
    WaitingBelow(email, left, left);
    assert Waiting(email, left + 1) - {left} == Waiting(email, left);
  }

  lemma CapRun(p: Policy, email: string, k: nat) returns (es: seq<Event>)
    requires p.max > 0 && p.window >= 0 && k > 0
    ensures PeakAtMost(p, es, email, k) && After(p, es).log == FailedLog(email, p.max - 1 + k)
  {
    var n := p.max - 1;
    assert InFlight(State([], map[]), email) == {};
    var start := FailOneByOne(p, [], email, 0, n);
    FailedLogOpen(p, email, n);
    PeakWeakens(p, start, email, 1, k);
    var checked := CheckTogether(p, start, FailedLog(email, n), email, 0, k);
    es := RecordTogether(p, checked, n, email, k, k);
  }

  /** The bound is exact: for every policy and every `k > 0` some run with peak `k` fills a window to it. */
  lemma LockoutBoundIsReached(p: Policy, email: string, k: nat)
    requires p.max > 0 && p.window >= 0 && k > 0
    ensures exists es: seq<Event> ::
              PeakAtMost(p, es, email, k) && FailuresIn(After(p, es).log, email, 0, p.window) == Cap(p, k)
  {
    var es := CapRun(p, email, k);
    FailedLogCounts(email, p.max - 1 + k, 0, p.window);
    assert PeakAtMost(p, es, email, k);
  }

  // ----- Sequential logins: when exactly an account unlocks -----

  /** A login that runs to its end before the next begins. */
  datatype Login = Login(email: string, now: int, successful: bool, createdAt: int)

  function LoginEvents(l: Login): seq<Event> {
    [Check(0, l.email, l.now), Record(0, l.successful, l.createdAt)]
  }

  function Sequential(logins: seq<Login>): seq<Event> {
    if logins == [] then []
    else Sequential(logins[..|logins| - 1]) + LoginEvents(logins[|logins| - 1])
  }

  function LogAfter(p: Policy, logins: seq<Login>): seq<Attempt> {
    After(p, Sequential(logins)).log
  }

  /** Clocks move forward within a login and from one login to the next. */
  ghost predicate Clocked(logins: seq<Login>) {
    && (forall i | 0 <= i < |logins| :: logins[i].now <= logins[i].createdAt)
    && (forall i, j | 0 <= i < j < |logins| :: logins[i].createdAt <= logins[j].now)
  }

  /** A sequential login is refused untouched when locked, and otherwise leaves exactly one row. */
  lemma {:induction false} SequentialStep(p: Policy, logins: seq<Login>, other: string)
    requires Clocked(logins)
    ensures After(p, Sequential(logins)).pending == map[]
    ensures PeakAtMost(p, Sequential(logins), other, 1)
    ensures logins != [] ==>
              var l := logins[|logins| - 1];
              LogAfter(p, logins) == Extend(p, LogAfter(p, logins[..|logins| - 1]), l)
  {
    if logins == [] {
      assert InFlight(State([], map[]), other) == {};
    } else {
      var l := logins[|logins| - 1];
      SequentialStep(p, logins[..|logins| - 1], other);
      OneLogin(p, Sequential(logins[..|logins| - 1]), l.email, l.now, l.successful, l.createdAt, other);
    }
  }

  function Extend(p: Policy, log: seq<Attempt>, l: Login): seq<Attempt> {
    if Locked(p, log, l.email, l.now) then log else log + [Attempt(l.email, l.successful, l.createdAt)]
  }

  /** Sequential logins: exactly the configured maximum per window, and its multiple over any interval. */
  lemma SequentialCap(p: Policy, logins: seq<Login>, email: string, from: int, length: int)
    requires Clocked(logins) && p.window > 0 && p.max > 0
    ensures FailuresIn(LogAfter(p, logins), email, from, p.window) <= p.max
    ensures length >= 0 ==> FailuresIn(LogAfter(p, logins), email, from, length) <= p.max * (length / p.window + 1)
  {
    SequentialStep(p, logins, email);
    LockoutBound(p, Sequential(logins), email, from, 1);
    if length >= 0 { BudgetAlone(p, Sequential(logins), email, from, length); }
  }

  /** The budget of logins on an email that never overlap, in whole windows. */
  lemma BudgetAlone(p: Policy, es: seq<Event>, email: string, from: int, length: nat)
    requires PeakAtMost(p, es, email, 1) && p.window > 0 && p.max > 0
    ensures FailuresIn(After(p, es).log, email, from, length) <= p.max * (length / p.window + 1)
  {
    var windows := WindowsFor(length, p.window);
    GuessBudget(p, es, email, from, length, 1);
    WindowsForFloor(length, p.window);
    MulMonotone(p.max, windows, length / p.window + 1);
    assert Cap(p, 1) == p.max;
  }

  lemma WindowsForFloor(length: int, window: int)
    requires window > 0 && length >= 0
    ensures WindowsFor(length, window) <= length / window + 1
  {
    if length > 0 { WindowsForIsCeiling(length, window); }
  }

  lemma MulMonotone(x: nat, y: int, z: int)
    requires y <= z
    ensures x * y <= x * z
  {
    assert x * (z - y) >= 0;
  }

  /** No two logins on any email ever overlap. */
  ghost predicate Alone(p: Policy, es: seq<Event>) {
    forall email :: PeakAtMost(p, es, email, 1)
  }

  lemma NothingInFlight(p: Policy)
    ensures Alone(p, [])
  {
    assert forall email :: InFlight(State([], map[]), email) == {};
  }

  /** A login on its own: its check, then its record or an error. */
  lemma AloneExtends(p: Policy, es: seq<Event>, check: Event, end: Event)
    requires Alone(p, es) && After(p, es).pending == map[]
    requires check.Check? && check.login == 0 && (end.Quit? || end.Record?) && end.login == 0
    requires end.Record? ==> end.createdAt >= check.now
    ensures Alone(p, es + [check, end]) && After(p, es + [check, end]).pending == map[]
  {
    AfterTwo(p, es, check, end);
    var mid, last := After(p, es + [check]), After(p, es + [check, end]);
    assert last.pending == map[];
    forall email ensures PeakAtMost(p, es + [check, end], email, 1) {
      SubsetSize(InFlight(mid, email), {0});
      assert InFlight(last, email) == {};
      assert PeakAtMost(p, es, email, 1);
    }
  }

  /** Timestamps of the email's recorded failures, in log order. */
  function Failures(log: seq<Attempt>, email: string): seq<int> {
    if log == [] then []
    else
      var a := log[|log| - 1];
      Failures(log[..|log| - 1], email) + if a.email == email && !a.successful then [a.createdAt] else []
  }

  ghost predicate Sorted(xs: seq<int>) {
    forall i, j | 0 <= i < j < |xs| :: xs[i] <= xs[j]
  }

  ghost predicate AtMost(xs: seq<int>, x: int) {
    forall i | 0 <= i < |xs| :: xs[i] <= x
  }

  lemma FailuresAppend(log: seq<Attempt>, a: Attempt, email: string)
    ensures Failures(log + [a], email) == Failures(log, email) + if a.email == email && !a.successful then [a.createdAt] else []
  {
    assert (log + [a])[..|log|] == log;
  }

  lemma {:induction false} SequentialLogIsSorted(p: Policy, logins: seq<Login>, email: string)
    requires Clocked(logins)
    ensures var fs := Failures(LogAfter(p, logins), email);
            Sorted(fs) && if logins == [] then fs == [] else AtMost(fs, logins[|logins| - 1].createdAt)
  {
    if logins == [] {
      assert LogAfter(p, logins) == [];
    } else {
      var front, l := logins[..|logins| - 1], logins[|logins| - 1];
      assert front != [] ==> front[|front| - 1].createdAt <= l.now;
      SequentialLogIsSorted(p, front, email);
      SequentialStep(p, logins, email);
      FailuresAppend(LogAfter(p, front), Attempt(l.email, l.successful, l.createdAt), email);
      SortedAppend(Failures(LogAfter(p, front), email), l.createdAt);
    }
  }

  lemma SortedAppend(xs: seq<int>, x: int)
    requires Sorted(xs) && AtMost(xs, x)
    ensures Sorted(xs + [x]) && AtMost(xs + [x], x)
  {}

  /** Counting by filter equals counting in the list of failures. */
  function CountFrom(fs: seq<int>, since: int): nat {
    if fs == [] then 0
    else CountFrom(fs[..|fs| - 1], since) + if fs[|fs| - 1] >= since then 1 else 0
  }

  lemma CountFromAppend(fs: seq<int>, x: int, since: int)
    ensures CountFrom(fs + [x], since) == CountFrom(fs, since) + if x >= since then 1 else 0
    ensures fs + [] == fs
  {
    assert (fs + [x])[..|fs|] == fs;
  }

  lemma {:induction false} CountIsCountFrom(log: seq<Attempt>, email: string, since: int)
    ensures CountRecentFailed(log, email, since) == CountFrom(Failures(log, email), since)
  {
    if log != [] {
      var front, a := log[..|log| - 1], log[|log| - 1];
      CountIsCountFrom(front, email, since);
      CountFromAppend(Failures(front, email), a.createdAt, since);
    }
  }

  lemma {:induction false} CountIsSuffix(fs: seq<int>, since: int, n: nat)
    requires Sorted(fs)
    ensures CountFrom(fs, since) >= n <==> n == 0 || (n <= |fs| && fs[|fs| - n] >= since)
  {
    if fs != [] {
      var front, a := fs[..|fs| - 1], fs[|fs| - 1];
      if a >= since {
        if n > 0 { CountIsSuffix(front, since, n - 1); }
      } else {
        CountIsSuffix(front, since, 1);
      }
    }
  }

  /** The constant-time lock test: look only at the `max`-th most recent failure. */
  lemma LockTest(p: Policy, log: seq<Attempt>, email: string, now: int)
    requires Sorted(Failures(log, email))
    ensures var fs := Failures(log, email);
            Locked(p, log, email, now) <==>
            p.max <= 0 || (p.max <= |fs| && now <= fs[|fs| - p.max] + p.window)
  {
    if p.max > 0 {
      var fs, since := Failures(log, email), now - p.window;
      CountIsCountFrom(log, email, since);
      CountIsSuffix(fs, since, p.max);
      assert Locked(p, log, email, now) <==> CountFrom(fs, since) >= p.max;
    }
  }

  /** A login on the email while it is locked, or on another email, records no failure on it. */
  lemma NoFailureWhileLocked(p: Policy, logins: seq<Login>, l: Login, email: string)
    requires Clocked(logins + [l]) && p.max > 0
    requires l.email == email ==>
               var fs := Failures(LogAfter(p, logins), email);
               p.max <= |fs| && l.now <= fs[|fs| - p.max] + p.window
    ensures Failures(LogAfter(p, logins + [l]), email) == Failures(LogAfter(p, logins), email)
  {
    var log := LogAfter(p, logins);
    assert (logins + [l])[..|logins|] == logins;
    assert Clocked(logins) by {
      assert forall i | 0 <= i < |logins| :: (logins + [l])[i] == logins[i];
    }
    SequentialStep(p, logins + [l], email);
    SequentialLogIsSorted(p, logins, email);
    LockTest(p, log, email, l.now);
    FailuresAppend(log, Attempt(l.email, l.successful, l.createdAt), email);
  }

  lemma {:induction false} NoFailuresUntil(p: Policy, logins: seq<Login>, more: seq<Login>, email: string, until: int)
    requires Clocked(logins + more) && p.max > 0
    requires var fs := Failures(LogAfter(p, logins), email);
             p.max <= |fs| && until == fs[|fs| - p.max] + p.window
    requires forall l | l in more && l.email == email :: l.now <= until
    ensures Failures(LogAfter(p, logins + more), email) == Failures(LogAfter(p, logins), email)
    decreases |more|
  {
    if more == [] {
      assert logins + more == logins;
    } else {
      var front, l := more[..|more| - 1], more[|more| - 1];
      assert logins + more == logins + front + [l];
      assert Clocked(logins + front) by {
        assert forall i | 0 <= i < |logins + front| :: (logins + front)[i] == (logins + more)[i];
      }
      NoFailuresUntil(p, logins, front, email, until);
      assert l in more;
      NoFailureWhileLocked(p, logins + front, l, email);
    }
  }

  /**
   Exact unlock time. Let `f` be the `max`-th most recent failure after some sequential run. However
   many logins follow on the email up to `f + window`, and whatever happens on other emails, no new
   failure is recorded, and the account is locked at `t` exactly when `t <= f + window`.
   */
  lemma ExactUnlock(p: Policy, logins: seq<Login>, more: seq<Login>, email: string, t: int)
    requires Clocked(logins + more) && p.max > 0
    requires |Failures(LogAfter(p, logins), email)| >= p.max
    requires var fs := Failures(LogAfter(p, logins), email);
             forall l | l in more && l.email == email :: l.now <= fs[|fs| - p.max] + p.window
    ensures Failures(LogAfter(p, logins + more), email) == Failures(LogAfter(p, logins), email)
    ensures var fs := Failures(LogAfter(p, logins), email);
            Locked(p, LogAfter(p, logins + more), email, t) <==> t <= fs[|fs| - p.max] + p.window
  {
    var fs := Failures(LogAfter(p, logins), email);
    NoFailuresUntil(p, logins, more, email, fs[|fs| - p.max] + p.window);
    SequentialLogIsSorted(p, logins + more, email);
    LockTest(p, LogAfter(p, logins + more), email, t);
  }
}
