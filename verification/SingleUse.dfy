/**
 When a refresh token is used more than once. Two successors of one token come from two refreshes that
 overlap; any two refreshes that overlap can both succeed; and for every number some run has that many
 refreshes of one token overlap and all of them succeed.
 */
module SingleUse {
  import opened Wrappers
  import opened Rotation
  import Lineage

  // ----- Two successes overlap -----

  /** Where in a run a refresh read a row, revoked it, and inserted its successor. */
  datatype Use = Use(request: nat, read: nat, revoke: nat, rotate: nat)

  /** The request is in flight after every event from `from` on, and before event `to`. */
  ghost predicate InFlight(ttl: int, es: seq<Event>, request: nat, from: nat, to: nat)
    requires to <= |es|
  {
    forall n | from < n <= to :: request in After(ttl, es[..n]).requests
  }

  /** One refresh from its read of `row` to the insert of row `child`, with nothing of its id in between. */
  ghost predicate Mints(ttl: int, es: seq<Event>, row: nat, child: nat, u: Use) {
    && u.read < u.revoke < u.rotate < |es|
    && ReadsAt(ttl, es, u.read, u.request, row)
    && RevokesAt(ttl, es, u.revoke, row) && es[u.revoke].Revoke? && es[u.revoke].request == u.request
    && es[u.rotate].Rotate? && es[u.rotate].request == u.request
    && |After(ttl, es[..u.rotate]).rows| == child && |After(ttl, es[..u.rotate + 1]).rows| == child + 1
    && InFlight(ttl, es, u.request, u.read, u.rotate)
    && u.request !in After(ttl, es[..u.rotate + 1]).requests
  }

  ghost predicate HasRead(ttl: int, es: seq<Event>, request: nat, row: nat, read: nat) {
    && ReadsAt(ttl, es, read, request, row) && InFlight(ttl, es, request, read, |es|)
    && request in After(ttl, es).requests && !After(ttl, es).requests[request].LogoutFound?
    && After(ttl, es).requests[request].checkedAt == es[read].now
  }

  ghost predicate HasRevoked(ttl: int, es: seq<Event>, request: nat, row: nat, read: nat, revoke: nat) {
    && HasRead(ttl, es, request, row, read) && read < revoke
    && RevokesAt(ttl, es, revoke, row) && es[revoke].Revoke? && es[revoke].request == request
  }

  lemma PrefixesAgree(es: seq<Event>)
    requires es != []
    ensures forall n: nat | n < |es| :: es[..|es| - 1][..n] == es[..n]
  {}

  lemma StillRead(ttl: int, es: seq<Event>, request: nat, row: nat, read: nat)
    requires es != [] && HasRead(ttl, es[..|es| - 1], request, row, read)
    requires request in After(ttl, es).requests && !After(ttl, es).requests[request].LogoutFound?
    requires After(ttl, es).requests[request].checkedAt == After(ttl, es[..|es| - 1]).requests[request].checkedAt
    ensures HasRead(ttl, es, request, row, read)
  {
    var front := es[..|es| - 1];
    assert front[..read] == es[..read];
    forall n | read < n <= |es| ensures request in After(ttl, es[..n]).requests {
      if n < |es| { assert front[..n] == es[..n]; } else { assert es[..n] == es; }
    }
  }

  /** How a request comes to have found or revoked a row. */
  lemma PhaseFrom(ttl: int, s: State, e: Event, q: nat)
    requires q in Step(ttl, s, e).requests
    ensures var phase := Step(ttl, s, e).requests[q];
            || (q in s.requests && s.requests[q] == phase)
            || (phase.RefreshFound? && e.Find? && e.request == q && q !in s.requests
                && Check(s.rows, e.token, e.now) == Usable(phase.row) && phase.checkedAt == e.now)
            || (phase.RefreshRevoked? && e.Revoke? && e.request == q && !e.fate.NotDone? && q in s.requests
                && s.requests[q].RefreshFound? && s.requests[q].row == phase.row
                && s.requests[q].checkedAt == phase.checkedAt)
            || phase.LogoutFound?
  {}

  lemma {:induction false} ReadOf(ttl: int, es: seq<Event>, q: nat) returns (read: nat)
    requires q in After(ttl, es).requests && After(ttl, es).requests[q].RefreshFound?
    ensures HasRead(ttl, es, q, After(ttl, es).requests[q].row, read)
  {
    var front, e := es[..|es| - 1], es[|es| - 1];
    var s := After(ttl, front);
    PhaseFrom(ttl, s, e, q);
    if q in s.requests && s.requests[q] == After(ttl, es).requests[q] {
      read := ReadOf(ttl, front, q);
      StillRead(ttl, es, q, s.requests[q].row, read);
    } else {
      read := |es| - 1;
      assert es[..|es|] == es;
    }
  }

  lemma {:induction false} RevokeOf(ttl: int, es: seq<Event>, q: nat) returns (read: nat, revoke: nat)
    requires q in After(ttl, es).requests && After(ttl, es).requests[q].RefreshRevoked?
    ensures HasRevoked(ttl, es, q, After(ttl, es).requests[q].row, read, revoke)
  {
    var front, e := es[..|es| - 1], es[|es| - 1];
    var s := After(ttl, front);
    PhaseFrom(ttl, s, e, q);
    PrefixesAgree(es);
    if q in s.requests && s.requests[q] == After(ttl, es).requests[q] {
      read, revoke := RevokeOf(ttl, front, q);
    } else {
      read := ReadOf(ttl, front, q);
      revoke := |es| - 1;
    }
    StillRead(ttl, es, q, s.requests[q].row, read);
  }

  /** A step that adds a successor is the insert of a refresh that has revoked its parent. */
  lemma SuccessorFrom(ttl: int, s: State, e: Event, child: nat)
    requires WellFormed(s)
    requires var s' := Step(ttl, s, e);
             |s.origins| <= child < |s'.origins| && s'.origins[child].Rotation?
    ensures e.Rotate? && e.request in s.requests && s.requests[e.request].RefreshRevoked?
    ensures var s' := Step(ttl, s, e);
            && s'.origins[child] == Rotation(s.requests[e.request].row, s.requests[e.request].checkedAt, e.now)
            && e.request !in s'.requests
            && |s.rows| == child && |s'.rows| == child + 1
  {}

  lemma StillInFlight(ttl: int, es: seq<Event>, request: nat, from: nat, to: nat)
    requires es != [] && to < |es| && InFlight(ttl, es[..|es| - 1], request, from, to)
    ensures InFlight(ttl, es, request, from, to)
  {
    forall n | from < n <= to ensures request in After(ttl, es[..n]).requests {
      assert es[..|es| - 1][..n] == es[..n];
    }
  }

  lemma StillReads(ttl: int, es: seq<Event>, i: nat, request: nat, row: nat)
    requires es != [] && ReadsAt(ttl, es[..|es| - 1], i, request, row)
    ensures ReadsAt(ttl, es, i, request, row)
  {
    assert es[..|es| - 1][..i] == es[..i];
  }

  lemma StillRevokes(ttl: int, es: seq<Event>, j: nat, row: nat)
    requires es != [] && RevokesAt(ttl, es[..|es| - 1], j, row)
    ensures RevokesAt(ttl, es, j, row)
  {
    assert es[..|es| - 1][..j] == es[..j];
  }

  lemma StillMints(ttl: int, es: seq<Event>, row: nat, child: nat, u: Use)
    requires es != [] && Mints(ttl, es[..|es| - 1], row, child, u)
    ensures Mints(ttl, es, row, child, u)
  {
    var front := es[..|es| - 1];
    StillReads(ttl, es, u.read, u.request, row);
    StillRevokes(ttl, es, u.revoke, row);
    assert front[..u.rotate] == es[..u.rotate] && front[..u.rotate + 1] == es[..u.rotate + 1];
    StillInFlight(ttl, es, u.request, u.read, u.rotate);
  }

  /** The last event inserts the successor of a refresh that has revoked its row. */
  lemma NowMints(ttl: int, es: seq<Event>, row: nat, child: nat, u: Use)
    requires u.rotate + 1 == |es| && HasRevoked(ttl, es[..|es| - 1], u.request, row, u.read, u.revoke)
    requires es[u.rotate].Rotate? && es[u.rotate].request == u.request
    requires |After(ttl, es[..u.rotate]).rows| == child && |After(ttl, es[..u.rotate + 1]).rows| == child + 1
    requires u.request !in After(ttl, es[..u.rotate + 1]).requests
    ensures Mints(ttl, es, row, child, u)
  {
    StillReads(ttl, es, u.read, u.request, row);
    StillRevokes(ttl, es, u.revoke, row);
    StillInFlight(ttl, es, u.request, u.read, u.rotate);
  }

  /** A successor inserted by the last event of a refresh that has revoked its row. */
  lemma NewestUse(ttl: int, es: seq<Event>, s: State, row: nat, child: nat) returns (u: Use)
    requires es != [] && s == After(ttl, es[..|es| - 1]) && es[|es| - 1].Rotate?
    requires var q := es[|es| - 1].request;
             && q in s.requests && s.requests[q].RefreshRevoked? && s.requests[q].row == row
             && q !in After(ttl, es[..|es|]).requests
    requires |s.rows| == child && |After(ttl, es[..|es|]).rows| == child + 1
    ensures Mints(ttl, es, row, child, u)
    ensures u.rotate == |es| - 1 && es[u.read].now == s.requests[es[|es| - 1].request].checkedAt
  {
    var q := es[|es| - 1].request;
    var read, revoke := RevokeOf(ttl, es[..|es| - 1], q);
    u := Use(q, read, revoke, |es| - 1);
    NowMints(ttl, es, row, child, u);
  }

  ghost predicate Inserts(s: State, s': State, e: Event, child: nat) {
    && e.Rotate? && e.request in s.requests && s.requests[e.request].RefreshRevoked? && e.request !in s'.requests
    && |s.rows| == child && |s'.rows| == child + 1 && child < |s'.origins|
    && s'.origins[child] == Rotation(s.requests[e.request].row, s.requests[e.request].checkedAt, e.now)
  }

  lemma InsertedAtEnd(ttl: int, es: seq<Event>, s: State, child: nat)
    requires es != [] && s == After(ttl, es[..|es| - 1])
    requires |s.origins| <= child < |After(ttl, es).origins| && After(ttl, es).origins[child].Rotation?
    ensures Inserts(s, After(ttl, es[..|es|]), es[|es| - 1], child)
  {
    Reachable(ttl, es[..|es| - 1]);
    SuccessorFrom(ttl, s, es[|es| - 1], child);
    assert es[..|es|] == es;
  }

  lemma OriginStays(ttl: int, es: seq<Event>, s: State, child: nat)
    requires es != [] && s == After(ttl, es[..|es| - 1]) && child < |s.origins|
    ensures child < |After(ttl, es).origins| && After(ttl, es).origins[child] == s.origins[child]
  {
    Reachable(ttl, es[..|es| - 1]);
    StepKeepsRows(ttl, s, es[|es| - 1]);
  }

  /** Successor `child` of row `o.parent` was minted by use `u`, at the times the row's origin says. */
  ghost predicate MintedAs(ttl: int, es: seq<Event>, child: nat, o: Origin, u: Use) {
    o.Rotation? && Mints(ttl, es, o.parent, child, u) && o.checkedAt == es[u.read].now && o.issuedAt == es[u.rotate].now
  }

  /**
   Every successor was minted by one refresh that read and revoked its parent first, and the times its
   family's lifetime is reckoned with are those of that refresh's read and insert.
   */
  lemma {:induction false} UseOf(ttl: int, es: seq<Event>, o: Origin, child: nat) returns (u: Use)
    requires child < |After(ttl, es).origins| && After(ttl, es).origins[child] == o && o.Rotation?
    ensures MintedAs(ttl, es, child, o, u)
  {
    var front := es[..|es| - 1];
    var s := After(ttl, front);
    if child < |s.origins| {
      OriginStays(ttl, es, s, child);
      u := UseOf(ttl, front, o, child);
      StillMints(ttl, es, o.parent, child, u);
    } else {
      InsertedAtEnd(ttl, es, s, child);
      u := NewestUse(ttl, es, s, s.requests[es[|es| - 1].request].row, child);
      assert es[..|es|] == es;
    }
  }

  /**
   Two successors of one token come from two different refreshes that overlap: each read the row before
   the other's revoke of it.
   */
  lemma SuccessesOverlap(ttl: int, es: seq<Event>, row: nat, a: nat, b: nat) returns (u: Use, v: Use)
    requires a != b && a in Successors(After(ttl, es).origins, row) && b in Successors(After(ttl, es).origins, row)
    ensures Mints(ttl, es, row, a, u) && Mints(ttl, es, row, b, v)
    ensures u.request != v.request && u.read < v.revoke && v.read < u.revoke
  {
    u := UseOf(ttl, es, After(ttl, es).origins[a], a);
    v := UseOf(ttl, es, After(ttl, es).origins[b], b);
    ReadsPrecedeRevokes(ttl, es, u.read, u.request, v.revoke, row);
    ReadsPrecedeRevokes(ttl, es, v.read, v.request, u.revoke, row);
    if u.request == v.request {
      if u.rotate < v.rotate {
        OneAtATime(ttl, es, row, a, u, b, v);
      } else {
        OneAtATime(ttl, es, row, b, v, a, u);
      }
    }
  }

  /** A request is over once it has inserted its successor, so a later use under its id read later. */
  lemma OneAtATime(ttl: int, es: seq<Event>, row: nat, a: nat, u: Use, b: nat, v: Use)
    requires Mints(ttl, es, row, a, u) && Mints(ttl, es, row, b, v) && a != b
    requires u.request == v.request && u.rotate <= v.rotate
    ensures u.rotate < v.read
  {
    assert u.rotate != v.rotate;
  }

  // ----- Any overlap can fork the family -----

  /** What the two writes of a refresh leave, from any state in which it has read a row. */
  lemma RefreshCompletes(ttl: int, s: State, q: nat, id: string, token: string, revoked: int, issued: int)
    requires WellFormed(s) && q in s.requests && s.requests[q].RefreshFound? && Insertable(s.rows, id, token)
    ensures var phase := s.requests[q];
            var s' := Step(ttl, Step(ttl, s, Revoke(q, revoked, Done)), Rotate(q, id, token, issued, Done));
            && s'.rows == RevokeId(s.rows, s.rows[phase.row].id, revoked)
                          + [Row(id, s.rows[phase.row].user, token, issued + ttl, None)]
            && s'.origins == s.origins + [Rotation(phase.row, phase.checkedAt, issued)]
            && s'.requests == s.requests - {q}
  {
    var middle := Step(ttl, s, Revoke(q, revoked, Done));
    forall r | r in middle.rows ensures r.id != id && r.token != token {
      var i :| 0 <= i < |middle.rows| && middle.rows[i] == r;
      assert s.rows[i] in s.rows;
    }
    assert middle.requests - {q} == s.requests - {q};
  }

  lemma {:induction false} RootOfPrefix(origins: seq<Origin>, o: Origin, i: nat)
    requires i < |origins|
    ensures Lineage.Root(origins + [o], i) == Lineage.Root(origins, i)
    decreases i
  {
    if origins[i].Rotation? && origins[i].parent < i { RootOfPrefix(origins, o, origins[i].parent); }
  }

  /**
   Whenever two refreshes have both read a row and neither has revoked it, both can succeed, and leave
   two live tokens of one login and user: in every state, for all fresh ids and tokens and all times.
   */
  lemma OverlapForksFamily(ttl: int, s: State, p: nat, q: nat, idP: string, tokenP: string, idQ: string, tokenQ: string,
                           t1: int, t2: int, t3: int, t4: int)
    requires WellFormed(s) && p != q && p in s.requests && q in s.requests
    requires s.requests[p].RefreshFound? && s.requests[q].RefreshFound? && s.requests[p].row == s.requests[q].row
    requires Insertable(s.rows, idP, tokenP) && Insertable(s.rows, idQ, tokenQ) && idP != idQ && tokenP != tokenQ
    ensures var s' := Step(ttl, Step(ttl, Step(ttl, Step(ttl, s, Revoke(p, t1, Done)), Rotate(p, idP, tokenP, t2, Done)),
                                     Revoke(q, t3, Done)), Rotate(q, idQ, tokenQ, t4, Done));
            var n, row := |s.rows|, s.requests[p].row;
            && |s'.rows| == |s'.origins| == n + 2
            && s'.rows[n] == Row(idP, s.rows[row].user, tokenP, t2 + ttl, None)
            && s'.rows[n + 1] == Row(idQ, s.rows[row].user, tokenQ, t4 + ttl, None)
            && Lineage.Root(s'.origins, n) == Lineage.Root(s'.origins, n + 1) == Lineage.Root(s.origins, row)
  {
    var n, row := |s.rows|, s.requests[p].row;
    var m := Step(ttl, Step(ttl, s, Revoke(p, t1, Done)), Rotate(p, idP, tokenP, t2, Done));
    RefreshCompletes(ttl, s, p, idP, tokenP, t1, t2);
    StepKeepsRows(ttl, s, Revoke(p, t1, Done));
    StepKeepsRows(ttl, Step(ttl, s, Revoke(p, t1, Done)), Rotate(p, idP, tokenP, t2, Done));
    FreshStays(s.rows, m.rows, idQ, tokenQ);
    RefreshCompletes(ttl, m, q, idQ, tokenQ, t3, t4);
    assert s.rows[row] in s.rows;
    var o, o' := m.origins[n], Rotation(row, s.requests[q].checkedAt, t4);
    RootOfPrefix(s.origins, o, row);
    RootOfPrefix(m.origins, o', row);
    RootOfPrefix(m.origins, o', n);
  }

  lemma FreshStays(rows: seq<Row>, rows': seq<Row>, id: string, token: string)
    requires Extends(rows, rows') && |rows'| == |rows| + 1 && Insertable(rows, id, token)
    requires rows'[|rows|].id != id && rows'[|rows|].token != token
    ensures Insertable(rows', id, token)
  {
    forall r | r in rows' ensures r.id != id && r.token != token {
      var i :| 0 <= i < |rows'| && rows'[i] == r;
      assert i < |rows| ==> SameIdentity(rows[i], rows'[i]) && rows[i] in rows;
    }
  }

  // ----- Every number of overlapping refreshes can succeed -----

  /** The `n`-th of infinitely many different ids and tokens. */
  function Name(n: nat): (s: string)
    ensures |s| == n
  {
    if n == 0 then "" else Name(n - 1) + "a"
  }

  /** Refreshes `0..k - 1`, all having read row 0 at the last moment of its life. */
  function Readers(ttl: int, k: nat): map<nat, Phase> {
    if k == 0 then map[] else Readers(ttl, k - 1)[k - 1 := RefreshFound(0, ttl)]
  }

  lemma {:induction false} ReaderBelow(ttl: int, k: nat, q: nat)
    ensures q in Readers(ttl, k) <==> q < k
    ensures q < k ==> Readers(ttl, k)[q] == RefreshFound(0, ttl)
  {
    if k > 0 { ReaderBelow(ttl, k - 1, q); }
  }

  lemma {:induction false} Below(k: nat) returns (s: set<nat>)
    ensures |s| == k && forall q: nat :: q in s <==> q < k
  {
    if k == 0 {
      s := {};
    } else {
      s := Below(k - 1);
      s := s + {k - 1};
    }
  }

  /** At most the requests below `k` are in flight. */
  ghost predicate OnlyBelow(s: State, k: nat) {
    forall q | q in s.requests :: q < k
  }

  lemma FewHold(s: State, row: nat, k: nat)
    requires OnlyBelow(s, k)
    ensures |Holding(s, row)| <= k
  {
    var below := Below(k);
    SubsetSize(Holding(s, row), below);
  }

  lemma OverlapExtends(ttl: int, es: seq<Event>, e: Event, row: nat, k: nat)
    requires OverlapAtMost(ttl, es, row, k) && OnlyBelow(Step(ttl, After(ttl, es), e), k)
    ensures OverlapAtMost(ttl, es + [e], row, k) && After(ttl, es + [e]) == Step(ttl, After(ttl, es), e)
  {
    assert (es + [e])[..|es|] == es;
    FewHold(Step(ttl, After(ttl, es), e), row, k);
  }

  predicate Short(rows: seq<Row>, n: nat) {
    forall i | 0 <= i < |rows| :: |rows[i].id| <= n && |rows[i].token| <= n
  }

  /** Rows `1..minted` are live successors of row 0. */
  ghost predicate Children(rows: seq<Row>, origins: seq<Origin>, minted: nat) {
    && |rows| == |origins| == minted + 1
    && forall i | 1 <= i <= minted :: origins[i].Rotation? && origins[i].parent == 0 && rows[i].revokedAt.None?
  }

  /** Row 0 has `minted` successors, all live, and `waiting` refreshes have read it and not yet revoked it. */
  ghost predicate Fan(ttl: int, s: State, waiting: nat, minted: nat) {
    && WellFormed(s) && s.requests == Readers(ttl, waiting) && Children(s.rows, s.origins, minted)
    && Short(s.rows, minted) && |Successors(s.origins, 0)| == minted
  }

  lemma NameIsFresh(rows: seq<Row>, n: nat)
    requires Short(rows, n)
    ensures Insertable(rows, Name(n + 1), Name(n + 1))
  {
    forall r | r in rows ensures r.id != Name(n + 1) && r.token != Name(n + 1) {
      var i :| 0 <= i < |rows| && rows[i] == r;
    }
  }

  lemma SuccessorsGrow(origins: seq<Origin>, o: Origin)
    requires o.Rotation? && o.parent == 0
    ensures |Successors(origins + [o], 0)| == |Successors(origins, 0)| + 1
  {
    SuccessorsInsert(origins, o, 0);
  }

  lemma ShortGrows(rows: seq<Row>, id: string, revoked: int, row: Row, n: nat)
    requires Short(rows, n) && |row.id| <= n + 1 && |row.token| <= n + 1
    ensures Short(RevokeId(rows, id, revoked) + [row], n + 1)
  {}

  lemma ChildrenGrow(rows: seq<Row>, origins: seq<Origin>, revoked: int, row: Row, o: Origin, minted: nat)
    requires Children(rows, origins, minted) && o.Rotation? && o.parent == 0 && row.revokedAt.None?
    requires forall i | 1 <= i < |rows| :: rows[i].id != rows[0].id
    ensures Children(RevokeId(rows, rows[0].id, revoked) + [row], origins + [o], minted + 1)
  {}

  lemma MintKeepsFan(ttl: int, s: State, left: nat, minted: nat)
    requires Fan(ttl, s, left + 1, minted)
    ensures var s' := Step(ttl, Step(ttl, s, Revoke(left, 0, Done)), Rotate(left, Name(minted + 1), Name(minted + 1), 0, Done));
            Fan(ttl, s', left, minted + 1)
  {
    var name := Name(minted + 1);
    var revoke, rotate := Revoke(left, 0, Done), Rotate(left, name, name, 0, Done);
    var s' := Step(ttl, Step(ttl, s, revoke), rotate);
    ReaderBelow(ttl, left + 1, left);
    ReaderBelow(ttl, left, left);
    NameIsFresh(s.rows, minted);
    RefreshCompletes(ttl, s, left, name, name, 0, 0);
    StepKeepsRows(ttl, s, revoke);
    StepKeepsRows(ttl, Step(ttl, s, revoke), rotate);
    assert Readers(ttl, left + 1) - {left} == Readers(ttl, left);
    var row, o := s'.rows[minted + 1], s'.origins[minted + 1];
    SuccessorsGrow(s.origins, o);
    ShortGrows(s.rows, s.rows[0].id, 0, row, minted);
    ChildrenGrow(s.rows, s.origins, 0, row, o, minted);
  }

  lemma {:induction false} MintAll(ttl: int, es: seq<Event>, left: nat, minted: nat, k: nat) returns (out: seq<Event>)
    requires Fan(ttl, After(ttl, es), left, minted) && OverlapAtMost(ttl, es, 0, k) && left <= k
    ensures Fan(ttl, After(ttl, out), 0, minted + left) && OverlapAtMost(ttl, out, 0, k)
    decreases left
  {
    if left == 0 {
      out := es;
    } else {
      var s, name := After(ttl, es), Name(minted + 1);
      var revoke, rotate := Revoke(left - 1, 0, Done), Rotate(left - 1, name, name, 0, Done);
      MintKeepsFan(ttl, s, left - 1, minted);
      StaysBelow(ttl, s, revoke, rotate, left);
      OverlapExtends(ttl, es, revoke, 0, k);
      OverlapExtends(ttl, es + [revoke], rotate, 0, k);
      out := MintAll(ttl, es + [revoke] + [rotate], left - 1, minted + 1, k);
    }
  }

  /** The writes of a request bring no request into flight. */
  lemma StaysBelow(ttl: int, s: State, revoke: Event, rotate: Event, k: nat)
    requires s.requests == Readers(ttl, k) && revoke.Revoke? && rotate.Rotate?
    ensures OnlyBelow(Step(ttl, s, revoke), k) && OnlyBelow(Step(ttl, Step(ttl, s, revoke), rotate), k)
  {
    forall q | q in s.requests ensures q < k { ReaderBelow(ttl, k, q); }
  }

  lemma {:induction false} ReadAll(ttl: int, es: seq<Event>, j: nat, k: nat) returns (out: seq<Event>)
    requires Fan(ttl, After(ttl, es), j, 0) && OverlapAtMost(ttl, es, 0, k) && j <= k
    requires After(ttl, es).rows == [Row("", "u", "", ttl, None)]
    ensures Fan(ttl, After(ttl, out), k, 0) && OverlapAtMost(ttl, out, 0, k)
    decreases k - j
  {
    if j == k {
      out := es;
    } else {
      var find, s := Find(j, "", ttl), After(ttl, es);
      ReaderBelow(ttl, j, j);
      CheckOf(s.rows, 0, ttl);
      assert Step(ttl, s, find) == s.(requests := Readers(ttl, j + 1));
      var next := Step(ttl, s, find);
      forall q | q in next.requests ensures q < k { ReaderBelow(ttl, j + 1, q); }
      OverlapExtends(ttl, es, find, 0, k);
      out := ReadAll(ttl, es + [find], j + 1, k);
    }
  }

  lemma LoginStartsFan(ttl: int, k: nat)
    ensures var es := [Issue("", "u", "", 0, Done)];
            && Fan(ttl, After(ttl, es), 0, 0) && OverlapAtMost(ttl, es, 0, k)
            && After(ttl, es).rows == [Row("", "u", "", ttl, None)]
  {
    var e := Issue("", "u", "", 0, Done);
    assert Holding(INITIAL, 0) == {};
    OverlapExtends(ttl, [], e, 0, k);
    assert [] + [e] == [e];
    assert Successors([Login(0)], 0) == {};
  }

  /** The bound on successors is exact: for every `k` some run with at most `k` overlaps mints `k`, all of them live. */
  lemma SuccessorsBoundIsReached(ttl: int, k: nat)
    ensures exists es: seq<Event> ::
              && OverlapAtMost(ttl, es, 0, k) && |Successors(After(ttl, es).origins, 0)| == k
              && Lineage.Live(After(ttl, es).rows) >= k
  {
    var es := FanRun(ttl, k);
    Reachable(ttl, es);
    FanIsLive(ttl, After(ttl, es), k);
    assert OverlapAtMost(ttl, es, 0, k);
  }

  lemma FanRun(ttl: int, k: nat) returns (es: seq<Event>)
    ensures Fan(ttl, After(ttl, es), 0, k) && OverlapAtMost(ttl, es, 0, k)
  {
    LoginStartsFan(ttl, k);
    es := ReadAll(ttl, [Issue("", "u", "", 0, Done)], 0, k);
    es := MintAll(ttl, es, k, 0, k);
  }

  lemma FanIsLive(ttl: int, s: State, minted: nat)
    requires Fan(ttl, s, 0, minted)
    ensures Lineage.Live(s.rows) >= minted
  {
    LiveFrom(s.rows);
  }

  lemma {:induction false} LiveFrom(rows: seq<Row>)
    requires forall i | 1 <= i < |rows| :: rows[i].revokedAt.None?
    ensures Lineage.Live(rows) >= |rows| - 1
  {
    if rows != [] { LiveFrom(rows[..|rows| - 1]); }
  }

  /** So a token is single-use in all runs in which at most `k` refreshes of it overlap exactly when `k` is at most one. */
  lemma SingleUseExactly(ttl: int, k: nat)
    ensures (forall es: seq<Event>, row: nat :: OverlapAtMost(ttl, es, row, k) ==> |Successors(After(ttl, es).origins, row)| <= 1)
            <==> k <= 1
  {
    if k <= 1 {
      forall es: seq<Event>, row: nat | OverlapAtMost(ttl, es, row, k)
        ensures |Successors(After(ttl, es).origins, row)| <= 1
      {
        SuccessorsBounded(ttl, es, row, k);
      }
    } else {
      var es := FanRun(ttl, k);
      assert OverlapAtMost(ttl, es, 0, k) && |Successors(After(ttl, es).origins, 0)| == k;
    }
  }
}
