/**
 Refresh-token rotation as a state machine over the `refresh_tokens` table. Every statement is one
 atomic step and requests interleave freely; `Revoke` is an unconditional update. A statement may
 fail before it takes effect or lose its reply after it has.

 A row is keyed by the token it stores the hash of: SHA-256 is taken as injective.
 */
module Rotation {
  import opened Wrappers

  datatype Row = Row(id: string, user: string, token: string, expiresAt: int, revokedAt: Option<int>)

  /** Where a row came from: a login, or the rotation of an earlier row. */
  datatype Origin =
    | Login(issuedAt: int)
    | Rotation(parent: nat, checkedAt: int, issuedAt: int)

  /** A request between two of its statements; rows are named by their position in the table. */
  datatype Phase =
    | RefreshFound(row: nat, checkedAt: int)   // read the row, found it unrevoked and unexpired
    | RefreshRevoked(row: nat, checkedAt: int) // has revoked it, not yet inserted the successor
    | LogoutFound(row: nat)

  /** What has happened to rows so far. */
  datatype Ledger = Ledger(
    loginRows: nat,  // rows inserted by logins
    logoutHits: nat, // logouts that revoked an unrevoked row
    lost: nat,       // refreshes that revoked and then inserted nothing
    doubled: nat)    // refreshes whose revoke hit an already revoked row

  datatype State = State(rows: seq<Row>, origins: seq<Origin>, requests: map<nat, Phase>, ledger: Ledger)

  const INITIAL := State([], [], map[], Ledger(0, 0, 0, 0))

  datatype Event =
    | Issue(id: string, user: string, token: string, now: int, fate: Fate)        // Login -> issueTokens
    | Find(request: nat, token: string, now: int)                           // Refresh: FindByHash and the checks
    | Revoke(request: nat, now: int, fate: Fate)                            // Refresh: Revoke
    | Rotate(request: nat, id: string, token: string, now: int, fate: Fate)    // Refresh: issueTokens
    | FindOut(request: nat, token: string)                                  // Logout: FindByHash
    | RevokeOut(request: nat, now: int, fate: Fate)                         // Logout: Revoke
    | Abandon(request: nat)                                                 // any other error path

  /** `FindByHash`: the position of the row holding the token. */
  function FindByHash(rows: seq<Row>, token: string): Option<nat> {
    if rows == [] then None
    else if rows[|rows| - 1].token == token then Some(|rows| - 1)
    else FindByHash(rows[..|rows| - 1], token)
  }

  /** The primary key and the UNIQUE constraint on `token_hash` reject a second row. */
  predicate Insertable(rows: seq<Row>, id: string, token: string) {
    forall r | r in rows :: r.id != id && r.token != token
  }

  /** `UPDATE refresh_tokens SET revoked_at = now WHERE id = ?` */
  function RevokeId(rows: seq<Row>, id: string, now: int): (r: seq<Row>)
    ensures |r| == |rows|
    ensures forall i | 0 <= i < |rows| :: r[i] == if rows[i].id == id then rows[i].(revokedAt := Some(now)) else rows[i]
  {
    seq(|rows|, i requires 0 <= i < |rows| => if rows[i].id == id then rows[i].(revokedAt := Some(now)) else rows[i])
  }

  /** The three outcomes of a refresh's lookup and checks. */
  datatype Verdict = NotFound | Revoked | Expired | Usable(row: nat)

  function Check(rows: seq<Row>, token: string, now: int): Verdict {
    match FindByHash(rows, token)
    case None => NotFound
    case Some(i) =>
      FindByHashInRange(rows, token);
      if rows[i].revokedAt.Some? then Revoked
      else if now > rows[i].expiresAt then Expired
      else Usable(i)
  }

  lemma {:induction false} FindByHashInRange(rows: seq<Row>, token: string)
    ensures var f := FindByHash(rows, token);
            if f.Some? then f.value < |rows| && rows[f.value].token == token
            else forall r | r in rows :: r.token != token
  {
    if rows != [] && rows[|rows| - 1].token != token {
      var front := rows[..|rows| - 1];
      FindByHashInRange(front, token);
      if FindByHash(rows, token).None? {
        forall r | r in rows ensures r.token != token {
          assert r in front || r == rows[|rows| - 1];
        }
      }
    }
  }

  function Insert(s: State, row: Row, o: Origin): State {
    s.(rows := s.rows + [row], origins := s.origins + [o])
  }

  /** One atomic step; an event the state does not allow changes nothing. `ttl` is the refresh lifetime. */
  function Step(ttl: int, s: State, e: Event): State {
    match e
    case Issue(id, user, token, now, fate) =>
      if fate.NotDone? || !Insertable(s.rows, id, token) then s
      else Insert(s, Row(id, user, token, now + ttl, None), Login(now))
           .(ledger := s.ledger.(loginRows := s.ledger.loginRows + 1))
    case Find(request, token, now) =>
      var v := Check(s.rows, token, now);
      if request in s.requests || !v.Usable? then s
      else s.(requests := s.requests[request := RefreshFound(v.row, now)])
    case Revoke(request, now, fate) =>
      if request !in s.requests || !s.requests[request].RefreshFound? || s.requests[request].row >= |s.rows| then s
      else
        var phase := s.requests[request];
        if fate.NotDone? then s.(requests := s.requests - {request})
        else
          var ledger := s.ledger
            .(doubled := s.ledger.doubled + if s.rows[phase.row].revokedAt.Some? then 1 else 0)
            .(lost := s.ledger.lost + if fate.ReplyLost? then 1 else 0);
          s.(rows := RevokeId(s.rows, s.rows[phase.row].id, now),
             requests := if fate.Done? then s.requests[request := RefreshRevoked(phase.row, phase.checkedAt)]
                         else s.requests - {request},
             ledger := ledger)
    case Rotate(request, id, token, now, fate) =>
      if request !in s.requests || !s.requests[request].RefreshRevoked? || s.requests[request].row >= |s.rows| then s
      else
        var phase := s.requests[request];
        var rest := s.(requests := s.requests - {request});
        if fate.NotDone? || !Insertable(s.rows, id, token) then
          rest.(ledger := s.ledger.(lost := s.ledger.lost + 1))
        else
          Insert(rest, Row(id, s.rows[phase.row].user, token, now + ttl, None),
                 Rotation(phase.row, phase.checkedAt, now))
    case FindOut(request, token) =>
      var f := FindByHash(s.rows, token);
      if request in s.requests || f.None? then s
      else s.(requests := s.requests[request := LogoutFound(f.value)])
    case RevokeOut(request, now, fate) =>
      if request !in s.requests || !s.requests[request].LogoutFound? || s.requests[request].row >= |s.rows| then s
      else
        var row := s.rows[s.requests[request].row];
        var rest := s.(requests := s.requests - {request});
        if fate.NotDone? then rest
        else rest.(rows := RevokeId(s.rows, row.id, now),
                   ledger := s.ledger.(logoutHits := s.ledger.logoutHits + if row.revokedAt.None? then 1 else 0))
    case Abandon(request) =>
      var lost := request in s.requests && s.requests[request].RefreshRevoked?;
      s.(requests := s.requests - {request},
         ledger := s.ledger.(lost := s.ledger.lost + if lost then 1 else 0))
  }

  function After(ttl: int, es: seq<Event>): State {
    if es == [] then INITIAL
    else Step(ttl, After(ttl, es[..|es| - 1]), es[|es| - 1])
  }

  // ----- What every step keeps -----

  /** Ids and tokens are unique, and a successor stands after the row it came from. */
  ghost predicate TableOk(rows: seq<Row>, origins: seq<Origin>) {
    && |origins| == |rows|
    && (forall i, j | 0 <= i < j < |rows| :: rows[i].id != rows[j].id && rows[i].token != rows[j].token)
    && (forall i | 0 <= i < |rows| && origins[i].Rotation? :: origins[i].parent < i)
  }

  ghost predicate WellFormed(s: State) {
    && TableOk(s.rows, s.origins)
    && (forall q | q in s.requests :: s.requests[q].row < |s.rows|)
  }

  /** A row is revoked once it has a successor, or once a refresh holds it past its own revoke. */
  ghost predicate SpentRowsRevoked(s: State)
    requires WellFormed(s)
  {
    && (forall i | 0 <= i < |s.rows| && s.origins[i].Rotation? :: s.rows[s.origins[i].parent].revokedAt.Some?)
    && (forall q | q in s.requests && s.requests[q].RefreshRevoked? :: s.rows[s.requests[q].row].revokedAt.Some?)
  }

  predicate SameIdentity(a: Row, b: Row) {
    b.id == a.id && b.user == a.user && b.token == a.token && b.expiresAt == a.expiresAt
  }

  /** Rows stay in place, keep their identity, and stay revoked once revoked. */
  ghost predicate Extends(a: seq<Row>, b: seq<Row>) {
    && |a| <= |b|
    && forall i | 0 <= i < |a| :: SameIdentity(a[i], b[i]) && (a[i].revokedAt.Some? ==> b[i].revokedAt.Some?)
  }

  lemma InsertKeepsTable(rows: seq<Row>, origins: seq<Origin>, row: Row, o: Origin)
    requires TableOk(rows, origins) && Insertable(rows, row.id, row.token)
    requires o.Rotation? ==> o.parent < |rows|
    ensures TableOk(rows + [row], origins + [o]) && Extends(rows, rows + [row])
  {}

  lemma RevokeKeepsTable(rows: seq<Row>, origins: seq<Origin>, id: string, now: int)
    requires TableOk(rows, origins)
    ensures TableOk(RevokeId(rows, id, now), origins) && Extends(rows, RevokeId(rows, id, now))
  {}

  lemma IssueKeepsTable(ttl: int, s: State, e: Event)
    requires WellFormed(s) && (e.Issue? || e.Rotate?)
    ensures TableOk(Step(ttl, s, e).rows, Step(ttl, s, e).origins)
    ensures Extends(s.rows, Step(ttl, s, e).rows) && s.origins <= Step(ttl, s, e).origins
  {
    var s' := Step(ttl, s, e);
    if |s'.rows| > |s.rows| {
      InsertKeepsTable(s.rows, s.origins, s'.rows[|s.rows|], s'.origins[|s.rows|]);
    }
  }

  lemma RevokeKeepsRows(ttl: int, s: State, e: Event)
    requires WellFormed(s) && (e.Revoke? || e.RevokeOut?)
    ensures TableOk(Step(ttl, s, e).rows, Step(ttl, s, e).origins)
    ensures Extends(s.rows, Step(ttl, s, e).rows) && s.origins == Step(ttl, s, e).origins
  {
    if e.request in s.requests {
      RevokeKeepsTable(s.rows, s.origins, s.rows[s.requests[e.request].row].id, e.now);
    }
  }

  lemma StepKeepsTable(ttl: int, s: State, e: Event)
    requires WellFormed(s)
    ensures TableOk(Step(ttl, s, e).rows, Step(ttl, s, e).origins)
    ensures Extends(s.rows, Step(ttl, s, e).rows) && s.origins <= Step(ttl, s, e).origins
  {
    if e.Issue? || e.Rotate? {
      IssueKeepsTable(ttl, s, e);
    } else if e.Revoke? || e.RevokeOut? {
      RevokeKeepsRows(ttl, s, e);
    }
  }

  lemma StepKeepsRequests(ttl: int, s: State, e: Event)
    requires WellFormed(s)
    ensures forall q | q in Step(ttl, s, e).requests ::
              || (q in s.requests && Step(ttl, s, e).requests[q].row == s.requests[q].row)
              || Step(ttl, s, e).requests[q].row < |s.rows|
  {
    if e.Find? || e.FindOut? { FindByHashInRange(s.rows, e.token); }
  }

  lemma StepKeepsRows(ttl: int, s: State, e: Event)
    requires WellFormed(s)
    ensures WellFormed(Step(ttl, s, e)) && Extends(s.rows, Step(ttl, s, e).rows)
    ensures s.origins <= Step(ttl, s, e).origins
  {
    StepKeepsTable(ttl, s, e);
    StepKeepsRequests(ttl, s, e);
  }

  /** Only a refresh that has revoked a row gives it a successor. */
  lemma NewParentRevoked(ttl: int, s: State, e: Event, i: nat)
    requires WellFormed(s) && SpentRowsRevoked(s)
    requires var s' := Step(ttl, s, e);
             WellFormed(s') && Extends(s.rows, s'.rows) && s.origins <= s'.origins && i < |s'.rows| && s'.origins[i].Rotation?
    ensures var s' := Step(ttl, s, e);
            s'.rows[s'.origins[i].parent].revokedAt.Some?
  {
    var s' := Step(ttl, s, e);
    if i < |s.rows| {
      assert s'.origins[i] == s.origins[i];
    } else {
      assert e.Rotate? && s'.rows[..|s.rows|] == s.rows;
    }
  }

  /** Only a refresh's own revoke moves it past it. */
  lemma NewHolderRevoked(ttl: int, s: State, e: Event, q: nat)
    requires WellFormed(s) && SpentRowsRevoked(s)
    requires var s' := Step(ttl, s, e);
             WellFormed(s') && Extends(s.rows, s'.rows) && q in s'.requests && s'.requests[q].RefreshRevoked?
    ensures var s' := Step(ttl, s, e);
            s'.rows[s'.requests[q].row].revokedAt.Some?
  {
    if q in s.requests && s.requests[q].RefreshRevoked? {
      assert Step(ttl, s, e).requests[q] == s.requests[q];
    } else {
      assert e.Revoke? && e.request == q;
    }
  }

  lemma StepKeepsSpent(ttl: int, s: State, e: Event)
    requires WellFormed(s) && SpentRowsRevoked(s)
    ensures WellFormed(Step(ttl, s, e)) && SpentRowsRevoked(Step(ttl, s, e))
  {
    var s' := Step(ttl, s, e);
    StepKeepsRows(ttl, s, e);
    forall i | 0 <= i < |s'.rows| && s'.origins[i].Rotation? ensures s'.rows[s'.origins[i].parent].revokedAt.Some? {
      NewParentRevoked(ttl, s, e, i);
    }
    forall q | q in s'.requests && s'.requests[q].RefreshRevoked? ensures s'.rows[s'.requests[q].row].revokedAt.Some? {
      NewHolderRevoked(ttl, s, e, q);
    }
  }

  lemma {:induction false} Reachable(ttl: int, es: seq<Event>)
    ensures WellFormed(After(ttl, es)) && SpentRowsRevoked(After(ttl, es))
  {
    if es != [] {
      Reachable(ttl, es[..|es| - 1]);
      StepKeepsSpent(ttl, After(ttl, es[..|es| - 1]), es[|es| - 1]);
    }
  }

  lemma ExtendsTransitive(a: seq<Row>, b: seq<Row>, c: seq<Row>)
    requires Extends(a, b) && Extends(b, c)
    ensures Extends(a, c)
  {}

  lemma RowsExtendOnce(ttl: int, es: seq<Event>, e: Event)
    ensures Extends(After(ttl, es).rows, After(ttl, es + [e]).rows)
    ensures After(ttl, es).origins <= After(ttl, es + [e]).origins
  {
    assert (es + [e])[..|es|] == es;
    Reachable(ttl, es);
    StepKeepsRows(ttl, After(ttl, es), e);
  }

  /** Revocation is for good: whatever runs after `es`, no row changes identity or comes back. */
  lemma {:induction false} RevocationIsPermanent(ttl: int, es: seq<Event>, more: seq<Event>)
    ensures Extends(After(ttl, es).rows, After(ttl, es + more).rows)
    ensures After(ttl, es).origins <= After(ttl, es + more).origins
    decreases |more|
  {
    if more == [] {
      assert es + more == es;
    } else {
      var front := more[..|more| - 1];
      RevocationIsPermanent(ttl, es, front);
      assert es + more == es + front + [more[|more| - 1]];
      RowsExtendOnce(ttl, es + front, more[|more| - 1]);
      ExtendsTransitive(After(ttl, es).rows, After(ttl, es + front).rows, After(ttl, es + more).rows);
    }
  }

  // ----- Single use -----

  /** Event `i` of the run is a refresh reading row `row` and passing the checks. */
  ghost predicate ReadsAt(ttl: int, es: seq<Event>, i: nat, request: nat, row: nat) {
    && i < |es| && es[i].Find? && es[i].request == request
    && request !in After(ttl, es[..i]).requests
    && Check(After(ttl, es[..i]).rows, es[i].token, es[i].now) == Usable(row)
  }

  /** Event `j` of the run revokes row `row`. */
  ghost predicate RevokesAt(ttl: int, es: seq<Event>, j: nat, row: nat) {
    && j < |es| && (es[j].Revoke? || es[j].RevokeOut?) && !es[j].fate.NotDone?
    && var s := After(ttl, es[..j]);
    && es[j].request in s.requests && s.requests[es[j].request].row == row
    && (if es[j].Revoke? then s.requests[es[j].request].RefreshFound? else s.requests[es[j].request].LogoutFound?)
  }

  lemma RevokeMarks(ttl: int, s: State, e: Event, row: nat)
    requires WellFormed(s) && (e.Revoke? || e.RevokeOut?) && !e.fate.NotDone?
    requires e.request in s.requests && s.requests[e.request].row == row
    requires if e.Revoke? then s.requests[e.request].RefreshFound? else s.requests[e.request].LogoutFound?
    ensures var rows := Step(ttl, s, e).rows;
            row < |rows| && rows[row].revokedAt.Some?
  {}

  lemma RevokeTakesEffect(ttl: int, es: seq<Event>, j: nat, row: nat, n: nat)
    requires RevokesAt(ttl, es, j, row) && j < n <= |es|
    ensures var rows := After(ttl, es[..n]).rows;
            row < |rows| && rows[row].revokedAt.Some?
  {
    var before, after := es[..j], es[..j + 1];
    assert after[..j] == before && after[j] == es[j];
    Reachable(ttl, before);
    RevokeMarks(ttl, After(ttl, before), es[j], row);
    assert es[..n] == after + es[j + 1..n];
    RevocationIsPermanent(ttl, after, es[j + 1..n]);
  }

  /** A step that leaves a row revoked which was not is a revoke of that row. */
  lemma OnlyRevokesMark(ttl: int, s: State, e: Event, row: nat)
    requires WellFormed(s) && row < |Step(ttl, s, e).rows| && Step(ttl, s, e).rows[row].revokedAt.Some?
    requires row < |s.rows| ==> s.rows[row].revokedAt.None?
    ensures (e.Revoke? || e.RevokeOut?) && !e.fate.NotDone?
    ensures e.request in s.requests && s.requests[e.request].row == row
    ensures if e.Revoke? then s.requests[e.request].RefreshFound? else s.requests[e.request].LogoutFound?
  {
    assert (e.Revoke? || e.RevokeOut?) && e.request in s.requests;
    assert s.rows[row].id == s.rows[s.requests[e.request].row].id;
  }

  lemma {:induction false} RevokedBy(ttl: int, es: seq<Event>, row: nat) returns (j: nat)
    requires row < |After(ttl, es).rows| && After(ttl, es).rows[row].revokedAt.Some?
    ensures RevokesAt(ttl, es, j, row)
  {
    var front, e := es[..|es| - 1], es[|es| - 1];
    var s := After(ttl, front);
    if row < |s.rows| && s.rows[row].revokedAt.Some? {
      j := RevokedBy(ttl, front, row);
      assert front[..j] == es[..j];
    } else {
      j := |es| - 1;
      Reachable(ttl, front);
      OnlyRevokesMark(ttl, s, e, row);
    }
  }

  /** With distinct tokens, the checks on a row's own token look at that row. */
  lemma CheckOf(rows: seq<Row>, i: nat, later: int)
    requires i < |rows| && forall a, b | 0 <= a < b < |rows| :: rows[a].token != rows[b].token
    ensures Check(rows, rows[i].token, later) ==
            if rows[i].revokedAt.Some? then Revoked else if later > rows[i].expiresAt then Expired else Usable(i)
  {
    FindByHashInRange(rows, rows[i].token);
    assert rows[i] in rows;
  }

  lemma NeverRevoked(ttl: int, es: seq<Event>, row: nat)
    requires row < |After(ttl, es).rows| && After(ttl, es).rows[row].revokedAt.None?
    ensures !exists j: nat :: RevokesAt(ttl, es, j, row)
  {
    assert es[..|es|] == es;
    forall j: nat | RevokesAt(ttl, es, j, row) ensures false {
      RevokeTakesEffect(ttl, es, j, row, |es|);
    }
  }

  /**
   What a refresh is told, at any time after any run: that its token is revoked exactly when some
   refresh or logout has revoked the row, and otherwise that it is expired exactly when it is.
   */
  lemma NoUseAfterRevoke(ttl: int, es: seq<Event>, s: State, row: nat, later: int)
    requires s == After(ttl, es) && row < |s.rows|
    ensures Check(s.rows, s.rows[row].token, later) == Revoked <==> exists j: nat :: RevokesAt(ttl, es, j, row)
    ensures Check(s.rows, s.rows[row].token, later) != Revoked ==>
              Check(s.rows, s.rows[row].token, later) == if later > s.rows[row].expiresAt then Expired else Usable(row)
  {
    Reachable(ttl, es);
    CheckOf(s.rows, row, later);
    if s.rows[row].revokedAt.Some? {
      var j := RevokedBy(ttl, es, row);
    } else {
      NeverRevoked(ttl, es, row);
    }
  }

  /**
   Single use across refreshes that do not overlap: in every interleaving, whoever passes the
   checks on a row read it before every revoke of that row.
   */
  lemma ReadsPrecedeRevokes(ttl: int, es: seq<Event>, i: nat, request: nat, j: nat, row: nat)
    requires ReadsAt(ttl, es, i, request, row) && RevokesAt(ttl, es, j, row)
    ensures i < j
  {
    if j < i {
      RevokeTakesEffect(ttl, es, j, row, i);
      UsableIsUnrevoked(After(ttl, es[..i]).rows, es[i].token, es[i].now, row);
    }
  }

  lemma UsableIsUnrevoked(rows: seq<Row>, token: string, now: int, row: nat)
    requires Check(rows, token, now) == Usable(row)
    ensures row < |rows| && rows[row].token == token && rows[row].revokedAt.None? && now <= rows[row].expiresAt
  {
    FindByHashInRange(rows, token);
  }

  /** Refreshes between their read of the row and their end. */
  ghost function Holding(s: State, row: nat): set<nat> {
    set q | q in s.requests && !s.requests[q].LogoutFound? && s.requests[q].row == row
  }

  /** Positions of the rows minted from `row`. */
  ghost function Successors(origins: seq<Origin>, row: nat): set<nat> {
    set i: nat | i < |origins| && origins[i].Rotation? && origins[i].parent == row
  }

  /** At most `k` refreshes of the row ever overlap. */
  ghost predicate OverlapAtMost(ttl: int, es: seq<Event>, row: nat, k: nat) {
    && |Holding(After(ttl, es), row)| <= k
    && (es != [] ==> OverlapAtMost(ttl, es[..|es| - 1], row, k))
  }

  ghost predicate UseBounded(s: State, row: nat, k: nat)
    requires WellFormed(s)
  {
    if row < |s.rows| && s.rows[row].revokedAt.Some? then
      |Successors(s.origins, row)| + |Holding(s, row)| <= k
    else
      Successors(s.origins, row) == {}
  }

  lemma SuccessorsInsert(origins: seq<Origin>, o: Origin, row: nat)
    ensures Successors(origins + [o], row) ==
            Successors(origins, row) + if o.Rotation? && o.parent == row then {|origins|} else {}
  {}

  /** A step that inserts nothing keeps the bound if a revoked row gains no holder. */
  lemma NoInsertKeepsUse(s: State, s': State, row: nat, k: nat)
    requires WellFormed(s) && WellFormed(s') && UseBounded(s, row, k)
    requires s'.origins == s.origins && Extends(s.rows, s'.rows)
    requires row < |s.rows| && s.rows[row].revokedAt.Some? ==> Holding(s', row) <= Holding(s, row)
    requires |Holding(s', row)| <= k
    ensures UseBounded(s', row, k)
  {
    if row < |s.rows| && s.rows[row].revokedAt.Some? {
      SubsetSize(Holding(s', row), Holding(s, row));
    }
  }

  /** Inserting a row keeps the bound if a refresh gives up its parent for it. */
  lemma InsertKeepsUse(s: State, s': State, o: Origin, row: nat, k: nat)
    requires WellFormed(s) && WellFormed(s') && UseBounded(s, row, k)
    requires s'.origins == s.origins + [o] && |s'.rows| == |s.rows| + 1 && s'.rows[..|s.rows|] == s.rows
    requires s'.rows[|s.rows|].revokedAt.None? && Holding(s', row) <= Holding(s, row)
    requires o.Rotation? && o.parent == row ==>
               row < |s.rows| && s.rows[row].revokedAt.Some? && Holding(s', row) < Holding(s, row)
    ensures UseBounded(s', row, k)
  {
    SuccessorsInsert(s.origins, o, row);
    if row < |s.rows| {
      assert s'.rows[row] == s.rows[row];
      if s.rows[row].revokedAt.Some? {
        SubsetSize(Holding(s', row), Holding(s, row));
        if o.Rotation? && o.parent == row {
          var q :| q in Holding(s, row) && q !in Holding(s', row);
          SubsetSize(Holding(s', row) + {q}, Holding(s, row));
        }
      }
    }
  }

  lemma NoInsertHolding(ttl: int, s: State, e: Event, row: nat)
    requires WellFormed(s) && row < |s.rows| && s.rows[row].revokedAt.Some?
    ensures Holding(Step(ttl, s, e), row) <= Holding(s, row)
  {
    if e.Find? {
      var v := Check(s.rows, e.token, e.now);
      if v.Usable? { UsableIsUnrevoked(s.rows, e.token, e.now, v.row); }
    }
  }

  lemma StepKeepsUse(ttl: int, s: State, e: Event, row: nat, k: nat)
    requires WellFormed(s) && SpentRowsRevoked(s) && UseBounded(s, row, k)
    requires |Holding(Step(ttl, s, e), row)| <= k
    ensures WellFormed(Step(ttl, s, e)) && UseBounded(Step(ttl, s, e), row, k)
  {
    var s' := Step(ttl, s, e);
    StepKeepsRows(ttl, s, e);
    if row < |s.rows| && s.rows[row].revokedAt.Some? { NoInsertHolding(ttl, s, e, row); }
    if (e.Issue? || e.Rotate?) && |s'.rows| > |s.rows| {
      InsertedByRequest(ttl, s, e, row);
      InsertKeepsUse(s, s', s'.origins[|s.origins|], row, k);
    } else {
      NoInsertKeepsUse(s, s', row, k);
    }
  }

  lemma InsertedByRequest(ttl: int, s: State, e: Event, row: nat)
    requires WellFormed(s) && SpentRowsRevoked(s) && (e.Issue? || e.Rotate?)
    requires |Step(ttl, s, e).rows| > |s.rows|
    ensures var s' := Step(ttl, s, e);
            var n := |s.rows|;
            && |s'.rows| == n + 1 == |s'.origins| && s'.rows[..n] == s.rows && s'.origins == s.origins + [s'.origins[n]]
            && s'.rows[n].revokedAt.None? && Holding(s', row) <= Holding(s, row)
            && (s'.origins[n].Rotation? && s'.origins[n].parent == row ==>
                  row < n && s.rows[row].revokedAt.Some? && Holding(s', row) < Holding(s, row))
  {
    if e.Rotate? && s.requests[e.request].row == row {
      assert e.request in Holding(s, row) && e.request !in Holding(Step(ttl, s, e), row);
    }
  }

  lemma {:induction false} UseInvariant(ttl: int, es: seq<Event>, row: nat, k: nat)
    requires OverlapAtMost(ttl, es, row, k)
    ensures WellFormed(After(ttl, es)) && UseBounded(After(ttl, es), row, k)
  {
    Reachable(ttl, es);
    if es == [] {
      assert Successors([], row) == {};
    } else {
      var front := es[..|es| - 1];
      Reachable(ttl, front);
      UseInvariant(ttl, front, row, k);
      StepKeepsUse(ttl, After(ttl, front), es[|es| - 1], row, k);
    }
  }

  /** A token mints at most as many successors as refreshes of it ever overlap. */
  lemma SuccessorsBounded(ttl: int, es: seq<Event>, row: nat, k: nat)
    requires OverlapAtMost(ttl, es, row, k)
    ensures |Successors(After(ttl, es).origins, row)| <= k
  {
    UseInvariant(ttl, es, row, k);
  }
}
