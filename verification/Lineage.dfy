/**
 Token families and conservation: which login a refresh token descends from, how long a family can
 live, how many of its tokens are usable, and where every unrevoked row comes from.
 */
module Lineage {
  import opened Wrappers
  import opened Rotation

  // ----- Families -----

  /** The login row at the start of the chain of rotations that ends in row `i`. */
  function Root(origins: seq<Origin>, i: nat): (r: nat)
    requires i < |origins|
    ensures r <= i
  {
    if origins[i].Rotation? && origins[i].parent < i then Root(origins, origins[i].parent) else i
  }

  /** Rotations between the login and row `i`. */
  function Depth(origins: seq<Origin>, i: nat): nat
    requires i < |origins|
  {
    if origins[i].Rotation? && origins[i].parent < i then Depth(origins, origins[i].parent) + 1 else 0
  }

  /** Time the rotations along the chain spent between checking the old token and stamping the new one. */
  function Processing(origins: seq<Origin>, i: nat): int
    requires i < |origins|
  {
    if origins[i].Rotation? && origins[i].parent < i then
      Processing(origins, origins[i].parent) + origins[i].issuedAt - origins[i].checkedAt
    else 0
  }

  /** One lifetime per generation from the login's own issue time, plus the processing along the way. */
  function Deadline(ttl: int, origins: seq<Origin>, i: nat): int
    requires i < |origins|
  {
    origins[Root(origins, i)].issuedAt + (Depth(origins, i) + 1) * ttl + Processing(origins, i)
  }

  /** How each row relates to the one it came from. */
  ghost predicate RowsDated(ttl: int, rows: seq<Row>, origins: seq<Origin>)
    requires TableOk(rows, origins)
  {
    forall i | 0 <= i < |rows| ::
      && rows[i].expiresAt == origins[i].issuedAt + ttl
      && (origins[i].Rotation? ==>
            && origins[i].checkedAt <= rows[origins[i].parent].expiresAt
            && rows[i].user == rows[origins[i].parent].user)
  }

  /** A refresh in flight checked its row before the row expired. */
  ghost predicate Dated(ttl: int, s: State)
    requires WellFormed(s)
  {
    && RowsDated(ttl, s.rows, s.origins)
    && (forall q | q in s.requests && !s.requests[q].LogoutFound? ::
          s.requests[q].checkedAt <= s.rows[s.requests[q].row].expiresAt)
  }

  lemma InsertKeepsDated(ttl: int, rows: seq<Row>, origins: seq<Origin>, row: Row, o: Origin)
    requires TableOk(rows, origins) && RowsDated(ttl, rows, origins)
    requires TableOk(rows + [row], origins + [o])
    requires row.expiresAt == o.issuedAt + ttl
    requires o.Rotation? ==>
               o.parent < |rows| && o.checkedAt <= rows[o.parent].expiresAt && row.user == rows[o.parent].user
    ensures RowsDated(ttl, rows + [row], origins + [o])
  {}

  lemma RevokeKeepsDated(ttl: int, rows: seq<Row>, origins: seq<Origin>, id: string, now: int)
    requires TableOk(rows, origins) && RowsDated(ttl, rows, origins)
    ensures TableOk(RevokeId(rows, id, now), origins) && RowsDated(ttl, RevokeId(rows, id, now), origins)
  {}

  /** What one step does to the table. */
  datatype Change = Kept | Added(row: Row, origin: Origin) | Marked(id: string, now: int)

  ghost predicate Changes(s: State, s': State, c: Change) {
    match c
    case Kept => s'.rows == s.rows && s'.origins == s.origins
    case Added(row, o) => s'.rows == s.rows + [row] && s'.origins == s.origins + [o]
    case Marked(id, now) => s'.rows == RevokeId(s.rows, id, now) && s'.origins == s.origins
  }

  lemma ChangeOf(ttl: int, s: State, e: Event) returns (c: Change)
    requires WellFormed(s)
    ensures Changes(s, Step(ttl, s, e), c)
    ensures c.Added? ==> c.row.expiresAt == c.origin.issuedAt + ttl
    ensures c.Added? && c.origin.Rotation? ==>
              && e.Rotate? && e.request in s.requests && !s.requests[e.request].LogoutFound?
              && c.origin.parent == s.requests[e.request].row && c.origin.checkedAt == s.requests[e.request].checkedAt
              && c.row.user == s.rows[c.origin.parent].user
  {
    var s' := Step(ttl, s, e);
    if |s'.rows| > |s.rows| {
      c := Added(s'.rows[|s.rows|], s'.origins[|s.origins|]);
    } else if (e.Revoke? || e.RevokeOut?) && s'.rows != s.rows {
      c := Marked(s.rows[s.requests[e.request].row].id, e.now);
    } else {
      c := Kept;
    }
  }

  /** Requests in flight after a step were there before it, or are a refresh that just read a usable row. */
  ghost predicate RequestsFrom(s: State, s': State, found: Option<nat>) {
    forall q | q in s'.requests && !s'.requests[q].LogoutFound? ::
      || (q in s.requests && !s.requests[q].LogoutFound? && s.requests[q].row == s'.requests[q].row
          && s.requests[q].checkedAt == s'.requests[q].checkedAt)
      || (found == Some(s'.requests[q].row) && found.value < |s.rows|
          && s'.requests[q].checkedAt <= s.rows[found.value].expiresAt)
  }

  lemma RequestsOf(ttl: int, s: State, e: Event) returns (found: Option<nat>)
    requires WellFormed(s)
    ensures RequestsFrom(s, Step(ttl, s, e), found)
  {
    found := None;
    if e.Find? {
      var v := Check(s.rows, e.token, e.now);
      if v.Usable? {
        UsableIsUnrevoked(s.rows, e.token, e.now, v.row);
        found := Some(v.row);
      }
    }
  }

  lemma ChangeKeepsRowsDated(ttl: int, s: State, s': State, c: Change)
    requires WellFormed(s) && Dated(ttl, s) && WellFormed(s') && Changes(s, s', c)
    requires c.Added? ==> c.row.expiresAt == c.origin.issuedAt + ttl
    requires c.Added? && c.origin.Rotation? ==>
               && c.origin.parent < |s.rows| && c.origin.checkedAt <= s.rows[c.origin.parent].expiresAt
               && c.row.user == s.rows[c.origin.parent].user
    ensures RowsDated(ttl, s'.rows, s'.origins)
  {
    match c
    case Kept =>
    case Added(row, o) => InsertKeepsDated(ttl, s.rows, s.origins, row, o);
    case Marked(id, now) => RevokeKeepsDated(ttl, s.rows, s.origins, id, now);
  }

  lemma RequestsStayDated(s: State, s': State, found: Option<nat>, q: nat)
    requires WellFormed(s) && WellFormed(s') && Extends(s.rows, s'.rows) && RequestsFrom(s, s', found)
    requires forall p | p in s.requests && !s.requests[p].LogoutFound? ::
               s.requests[p].checkedAt <= s.rows[s.requests[p].row].expiresAt
    requires q in s'.requests && !s'.requests[q].LogoutFound?
    ensures s'.requests[q].checkedAt <= s'.rows[s'.requests[q].row].expiresAt
  {
    var i := s'.requests[q].row;
    assert i < |s.rows| ==> SameIdentity(s.rows[i], s'.rows[i]);
  }

  lemma StepKeepsDated(ttl: int, s: State, e: Event)
    requires WellFormed(s) && Dated(ttl, s)
    ensures WellFormed(Step(ttl, s, e)) && Dated(ttl, Step(ttl, s, e))
  {
    StepKeepsRows(ttl, s, e);
    var c := ChangeOf(ttl, s, e);
    var found := RequestsOf(ttl, s, e);
    ChangeKeepsRowsDated(ttl, s, Step(ttl, s, e), c);
    forall q | q in Step(ttl, s, e).requests && !Step(ttl, s, e).requests[q].LogoutFound? {
      RequestsStayDated(s, Step(ttl, s, e), found, q);
    }
  }

  lemma {:induction false} ReachableDated(ttl: int, es: seq<Event>)
    ensures WellFormed(After(ttl, es)) && Dated(ttl, After(ttl, es))
  {
    Reachable(ttl, es);
    if es != [] {
      ReachableDated(ttl, es[..|es| - 1]);
      StepKeepsDated(ttl, After(ttl, es[..|es| - 1]), es[|es| - 1]);
    }
  }

  /**
   Every refresh token descends by finitely many rotations from exactly one login, belongs to that
   login's user, and expires within one lifetime per generation of it, apart from the time the
   rotations themselves took.
   */
  lemma Lifetime(ttl: int, es: seq<Event>, s: State, i: nat)
    requires s == After(ttl, es) && i < |s.rows|
    ensures && |s.origins| == |s.rows|
            && var r := Root(s.origins, i);
            && s.origins[r].Login? && s.rows[i].user == s.rows[r].user
            && s.rows[i].expiresAt <= Deadline(ttl, s.origins, i)
  {
    ReachableDated(ttl, es);
    LifetimeOfRow(ttl, s.rows, s.origins, i);
  }

  lemma {:induction false} LifetimeOfRow(ttl: int, rows: seq<Row>, origins: seq<Origin>, i: nat)
    requires TableOk(rows, origins) && RowsDated(ttl, rows, origins) && i < |rows|
    ensures var r := Root(origins, i);
            && origins[r].Login? && rows[i].user == rows[r].user
            && rows[i].expiresAt <= Deadline(ttl, origins, i)
    decreases i
  {
    if origins[i].Rotation? {
      var p := origins[i].parent;
      LifetimeOfRow(ttl, rows, origins, p);
      NextGeneration(Depth(origins, p), ttl);
    }
  }

  lemma NextGeneration(n: nat, ttl: int)
    ensures (n + 1 + 1) * ttl == (n + 1) * ttl + ttl
  {}

  /** No rotation in the table took longer than `most` from its check to its stamp. */
  ghost predicate RotatesWithin(origins: seq<Origin>, most: int) {
    forall j | 0 <= j < |origins| && origins[j].Rotation? :: origins[j].issuedAt - origins[j].checkedAt <= most
  }

  lemma {:induction false} ProcessingBounded(origins: seq<Origin>, i: nat, most: int)
    requires i < |origins| && RotatesWithin(origins, most)
    ensures Processing(origins, i) <= Depth(origins, i) * most
    decreases i
  {
    if origins[i].Rotation? && origins[i].parent < i {
      var d := Depth(origins, origins[i].parent);
      ProcessingBounded(origins, origins[i].parent, most);
      assert (d + 1) * most == d * most + most;
    }
  }

  /**
   In particular a token `n` rotations after its login expires within `n + 1` lifetimes of it, if each
   rotation is instantaneous, and within `most` more for each rotation if none takes longer than that.
   */
  lemma LifetimeWithin(ttl: int, es: seq<Event>, s: State, i: nat, most: int)
    requires s == After(ttl, es) && i < |s.rows| == |s.origins| && RotatesWithin(s.origins, most)
    ensures var n := Depth(s.origins, i);
            s.rows[i].expiresAt <= s.origins[Root(s.origins, i)].issuedAt + (n + 1) * ttl + n * most
  {
    Lifetime(ttl, es, s, i);
    ProcessingBounded(s.origins, i, most);
  }

  /** Hence no refresh passes its checks later than that, in any continuation of the run. */
  lemma NoUseAfterLifetime(ttl: int, es: seq<Event>, token: string, now: int)
    requires Check(After(ttl, es).rows, token, now).Usable?
    ensures var s := After(ttl, es);
            var i := Check(s.rows, token, now).row;
            && i < |s.rows| == |s.origins|
            && now <= Deadline(ttl, s.origins, i)
  {
    var s := After(ttl, es);
    var i := Check(s.rows, token, now).row;
    UsableIsUnrevoked(s.rows, token, now, i);
    Lifetime(ttl, es, s, i);
  }

  // ----- One usable token per login -----

  /** Row `i` lies on the chain from row `j` back to its login. */
  predicate Ancestor(origins: seq<Origin>, i: nat, j: nat)
    requires j < |origins|
  {
    i == j || (origins[j].Rotation? && origins[j].parent < j && Ancestor(origins, i, origins[j].parent))
  }

  ghost predicate SingleSuccessors(origins: seq<Origin>) {
    forall a, b | 0 <= a < |origins| && 0 <= b < |origins| && origins[a].Rotation? && origins[b].Rotation?
      && origins[a].parent == origins[b].parent :: a == b
  }

  ghost predicate ParentsFirst(origins: seq<Origin>) {
    forall i | 0 <= i < |origins| && origins[i].Rotation? :: origins[i].parent < i
  }

  /** On the way from a proper ancestor down to `j` there is a row minted directly from the ancestor. */
  lemma {:induction false} ChildTowards(origins: seq<Origin>, i: nat, j: nat) returns (c: nat)
    requires j < |origins| && i != j && Ancestor(origins, i, j)
    ensures i < c <= j && origins[c].Rotation? && origins[c].parent == i && Ancestor(origins, c, j)
  {
    if origins[j].parent == i {
      c := j;
    } else {
      c := ChildTowards(origins, i, origins[j].parent);
    }
  }

  /** Without branching, the rows of a family form one line. */
  lemma {:induction false} FamilyIsALine(origins: seq<Origin>, i: nat, j: nat)
    requires i < j < |origins| && Root(origins, i) == Root(origins, j)
    requires SingleSuccessors(origins) && ParentsFirst(origins)
    ensures Ancestor(origins, i, j)
    decreases j
  {
    assert origins[j].Rotation?;
    var p := origins[j].parent;
    if i < p {
      FamilyIsALine(origins, i, p);
    } else if p < i {
      FamilyIsALine(origins, p, i);
      var c := ChildTowards(origins, p, i);
      assert false;
    }
  }

  /** Refreshes of one token never overlap. */
  ghost predicate NeverOverlaps(ttl: int, es: seq<Event>) {
    forall row: nat :: OverlapAtMost(ttl, es, row, 1)
  }

  lemma AtMostOneSuccessor(ttl: int, es: seq<Event>)
    requires NeverOverlaps(ttl, es)
    ensures SingleSuccessors(After(ttl, es).origins)
  {
    var origins := After(ttl, es).origins;
    forall a, b | 0 <= a < |origins| && 0 <= b < |origins| && origins[a].Rotation? && origins[b].Rotation?
      && origins[a].parent == origins[b].parent
      ensures a == b
    {
      var row := origins[a].parent;
      SuccessorsBounded(ttl, es, row, 1);
      var kids := Successors(origins, row);
      assert a in kids && b in kids;
      if a != b {
        SubsetSize({a, b}, kids);
      }
    }
  }

  /**
   One login keeps at most one usable refresh token, in every interleaving in which no two
   refreshes of the same token overlap; logouts and other tokens may interleave freely.
   */
  lemma OneLivePerLogin(ttl: int, es: seq<Event>, i: nat, j: nat)
    requires NeverOverlaps(ttl, es)
    requires i < j < |After(ttl, es).rows| == |After(ttl, es).origins|
    requires Root(After(ttl, es).origins, i) == Root(After(ttl, es).origins, j)
    ensures After(ttl, es).rows[i].revokedAt.Some?
  {
    var origins := After(ttl, es).origins;
    Reachable(ttl, es);
    AtMostOneSuccessor(ttl, es);
    FamilyIsALine(origins, i, j);
    var c := ChildTowards(origins, i, j);
  }

  // ----- Conservation -----

  function Live(rows: seq<Row>): nat {
    if rows == [] then 0
    else Live(rows[..|rows| - 1]) + if rows[|rows| - 1].revokedAt.None? then 1 else 0
  }

  lemma LiveInsert(rows: seq<Row>, row: Row)
    ensures Live(rows + [row]) == Live(rows) + if row.revokedAt.None? then 1 else 0
  {
    assert (rows + [row])[..|rows|] == rows;
  }

  lemma {:induction false} LiveRevoke(rows: seq<Row>, i: nat, now: int)
    requires i < |rows| && forall a, b | 0 <= a < b < |rows| :: rows[a].id != rows[b].id
    ensures Live(RevokeId(rows, rows[i].id, now)) == Live(rows) - if rows[i].revokedAt.None? then 1 else 0
  {
    var n := |rows| - 1;
    var front, out := rows[..n], RevokeId(rows, rows[i].id, now);
    if i == n {
      assert out[..n] == front;
    } else {
      LiveRevoke(front, i, now);
      assert out[..n] == RevokeId(front, front[i].id, now);
    }
  }

  /** Refreshes that have revoked their row and not yet inserted its successor. */
  ghost function InHand(s: State): set<nat> {
    set q | q in s.requests && s.requests[q].RefreshRevoked?
  }

  ghost predicate Conserved(s: State) {
    Live(s.rows) + |InHand(s)| + s.ledger.logoutHits + s.ledger.lost == s.ledger.loginRows + s.ledger.doubled
  }

  lemma InsertConserves(ttl: int, s: State, e: Event)
    requires WellFormed(s) && Conserved(s) && (e.Issue? || e.Rotate?)
    ensures Conserved(Step(ttl, s, e))
  {
    var s' := Step(ttl, s, e);
    if |s'.rows| > |s.rows| {
      LiveInsert(s.rows, s'.rows[|s.rows|]);
      assert s'.rows == s.rows + [s'.rows[|s.rows|]];
    }
    if e.Rotate? && s' != s {
      assert e.request in InHand(s) && InHand(s') == InHand(s) - {e.request};
    } else {
      assert InHand(s') == InHand(s);
    }
  }

  lemma RevokeInHand(ttl: int, s: State, e: Event)
    requires e.Revoke? && Step(ttl, s, e) != s
    ensures |InHand(Step(ttl, s, e))| == |InHand(s)| + if e.fate.Done? then 1 else 0
  {
    assert InHand(Step(ttl, s, e)) == if e.fate.Done? then InHand(s) + {e.request} else InHand(s);
  }

  lemma RevokeConserves(ttl: int, s: State, e: Event)
    requires WellFormed(s) && Conserved(s) && e.Revoke?
    ensures Conserved(Step(ttl, s, e))
  {
    if Step(ttl, s, e) != s {
      LiveRevoke(s.rows, s.requests[e.request].row, e.now);
      RevokeInHand(ttl, s, e);
    }
  }

  lemma RevokeOutConserves(ttl: int, s: State, e: Event)
    requires WellFormed(s) && Conserved(s) && e.RevokeOut?
    ensures Conserved(Step(ttl, s, e))
  {
    var s' := Step(ttl, s, e);
    if s' != s {
      LiveRevoke(s.rows, s.requests[e.request].row, e.now);
      assert InHand(s') == InHand(s);
    }
  }

  lemma StepConserves(ttl: int, s: State, e: Event)
    requires WellFormed(s) && Conserved(s)
    ensures Conserved(Step(ttl, s, e))
  {
    if e.Issue? || e.Rotate? {
      InsertConserves(ttl, s, e);
    } else if e.Revoke? {
      RevokeConserves(ttl, s, e);
    } else if e.RevokeOut? {
      RevokeOutConserves(ttl, s, e);
    } else {
      OthersConserve(ttl, s, e);
    }
  }

  lemma OthersConserve(ttl: int, s: State, e: Event)
    requires Conserved(s) && (e.Find? || e.FindOut? || e.Abandon?)
    ensures Conserved(Step(ttl, s, e))
  {
    if e.Abandon? { AbandonConserves(ttl, s, e); }
    else { assert InHand(Step(ttl, s, e)) == InHand(s); }
  }

  lemma AbandonConserves(ttl: int, s: State, e: Event)
    requires Conserved(s) && e.Abandon?
    ensures Conserved(Step(ttl, s, e))
  {
    assert InHand(Step(ttl, s, e)) == InHand(s) - {e.request};
  }

  /**
   Conservation on every interleaving with failures anywhere: unrevoked rows, plus those a refresh
   has in hand, are the rows logins inserted, less logouts that hit and refreshes that lost theirs,
   plus one for each refresh that revoked an already revoked row.
   */
  lemma {:induction false} Conservation(ttl: int, es: seq<Event>)
    ensures Conserved(After(ttl, es))
  {
    if es == [] {
      assert InHand(INITIAL) == {};
    } else {
      Conservation(ttl, es[..|es| - 1]);
      Reachable(ttl, es[..|es| - 1]);
      StepConserves(ttl, After(ttl, es[..|es| - 1]), es[|es| - 1]);
    }
  }

  ghost function LoginRows(origins: seq<Origin>): set<nat> {
    set i: nat | i < |origins| && origins[i].Login?
  }

  lemma LoginRowsAppend(origins: seq<Origin>, o: Origin)
    ensures |LoginRows(origins + [o])| == |LoginRows(origins)| + if o.Login? then 1 else 0
  {
    assert LoginRows(origins + [o]) == LoginRows(origins) + if o.Login? then {|origins|} else {};
  }

  /** The rows the balance starts from are those whose origin is a login. */
  lemma {:induction false} LoginRowsAreCounted(ttl: int, es: seq<Event>)
    ensures After(ttl, es).ledger.loginRows == |LoginRows(After(ttl, es).origins)|
  {
    if es == [] {
      assert LoginRows([]) == {};
    } else {
      LoginRowsAreCounted(ttl, es[..|es| - 1]);
      Reachable(ttl, es[..|es| - 1]);
      LoginRowsStep(ttl, After(ttl, es[..|es| - 1]), es[|es| - 1]);
    }
  }

  lemma LoginRowsStep(ttl: int, s: State, e: Event)
    requires WellFormed(s) && s.ledger.loginRows == |LoginRows(s.origins)|
    ensures Step(ttl, s, e).ledger.loginRows == |LoginRows(Step(ttl, s, e).origins)|
  {
    var s' := Step(ttl, s, e);
    if |s'.origins| > |s.origins| {
      assert s'.origins == s.origins + [s'.origins[|s.origins|]];
      LoginRowsAppend(s.origins, s'.origins[|s.origins|]);
    } else {
      assert s'.origins == s.origins;
    }
  }

  // ----- Sequential runs -----

  /** A request that runs to its end before the next begins. */
  datatype Operation =
    | DoLogin(id: string, user: string, token: string, now: int, fate: Fate)
    | DoRefresh(token: string, checked: int, userFound: bool, revoked: int, revoke: Fate,
                id: string, successor: string, issued: int, create: Fate)
    | DoLogout(token: string, now: int, fate: Fate)

  /** Its statements, in order. A request that stops early ignores the rest; `Abandon` ends it either way. */
  function Statements(op: Operation): seq<Event> {
    match op
    case DoLogin(id, user, token, now, fate) => [Issue(id, user, token, now, fate)]
    case DoRefresh(token, checked, userFound, revoked, revoke, id, successor, issued, create) =>
      (if userFound then [Find(0, token, checked), Revoke(0, revoked, revoke), Rotate(0, id, successor, issued, create)]
       else [Find(0, token, checked)]) + [Abandon(0)]
    case DoLogout(token, now, fate) => [FindOut(0, token), RevokeOut(0, now, fate)]
  }

  function Flatten(ops: seq<Operation>): seq<Event> {
    if ops == [] then [] else Flatten(ops[..|ops| - 1]) + Statements(ops[|ops| - 1])
  }

  function Steps(ttl: int, s: State, es: seq<Event>): State
    decreases |es|
  {
    if es == [] then s else Steps(ttl, Step(ttl, s, es[0]), es[1..])
  }

  lemma {:induction false} AfterSplits(ttl: int, es: seq<Event>, more: seq<Event>)
    ensures After(ttl, es + more) == Steps(ttl, After(ttl, es), more)
    decreases |more|
  {
    if more == [] {
      assert es + more == es;
    } else {
      assert es + more == (es + [more[0]]) + more[1..];
      AfterSplits(ttl, es + [more[0]], more[1..]);
      assert (es + [more[0]])[..|es|] == es;
    }
  }

  lemma StepsTwo(ttl: int, s: State, e1: Event, e2: Event)
    ensures Steps(ttl, s, [e1, e2]) == Step(ttl, Step(ttl, s, e1), e2)
  {
    assert [e1, e2][1..] == [e2] && [e2][1..] == [];
    assert Steps(ttl, Step(ttl, s, e1), [e2]) == Step(ttl, Step(ttl, s, e1), e2);
  }

  lemma StepsFour(ttl: int, s: State, e1: Event, e2: Event, e3: Event, e4: Event)
    ensures Steps(ttl, s, [e1, e2, e3, e4]) == Step(ttl, Step(ttl, Step(ttl, Step(ttl, s, e1), e2), e3), e4)
  {
    assert [e1, e2, e3, e4][1..] == [e2, e3, e4] && [e2, e3, e4][1..] == [e3, e4];
    StepsTwo(ttl, Step(ttl, Step(ttl, s, e1), e2), e3, e4);
  }

  /** An operation on its own leaves nothing in flight and never revokes a row twice. */
  lemma OperationRests(ttl: int, s: State, op: Operation)
    requires WellFormed(s) && s.requests == map[]
    ensures var s' := Steps(ttl, s, Statements(op));
            s'.requests == map[] && s'.ledger.doubled == s.ledger.doubled
  {
    match op
    case DoLogin(id, user, token, now, fate) =>
      assert Statements(op)[1..] == [];
    case DoLogout(token, now, fate) =>
      StepsTwo(ttl, s, FindOut(0, token), RevokeOut(0, now, fate));
      FindByHashInRange(s.rows, token);
    case DoRefresh(token, checked, userFound, revoked, revoke, id, successor, issued, create) =>
      var find := Find(0, token, checked);
      FindAlone(ttl, s, find);
      StepsOfRefresh(ttl, s, op);
      if userFound {
        RefreshAlone(ttl, Step(ttl, s, find), Revoke(0, revoked, revoke), Rotate(0, id, successor, issued, create));
      } else {
        assert Step(ttl, Step(ttl, s, find), Abandon(0)).requests == map[];
      }
  }

  /** What a refresh has in hand right after its read, if anything: one unrevoked row. */
  ghost predicate HoldsUnrevoked(s: State) {
    && s.requests.Keys <= {0}
    && (0 in s.requests ==>
          s.requests[0].RefreshFound? && s.requests[0].row < |s.rows| && s.rows[s.requests[0].row].revokedAt.None?)
  }

  lemma FindAlone(ttl: int, s: State, find: Event)
    requires WellFormed(s) && s.requests == map[] && find.Find? && find.request == 0
    ensures var s' := Step(ttl, s, find);
            HoldsUnrevoked(s') && s'.ledger == s.ledger
  {
    var v := Check(s.rows, find.token, find.now);
    if v.Usable? { UsableIsUnrevoked(s.rows, find.token, find.now, v.row); }
  }

  lemma RefreshAlone(ttl: int, s: State, revoke: Event, rotate: Event)
    requires HoldsUnrevoked(s)
    requires revoke.Revoke? && revoke.request == 0 && rotate.Rotate? && rotate.request == 0
    ensures var s' := Step(ttl, Step(ttl, Step(ttl, s, revoke), rotate), Abandon(0));
            s'.requests == map[] && s'.ledger.doubled == s.ledger.doubled
  {
    var s1 := Step(ttl, s, revoke);
    assert s1.requests.Keys <= {0} && s1.ledger.doubled == s.ledger.doubled;
    var s2 := Step(ttl, s1, rotate);
    assert s2.requests.Keys <= {0} && s2.ledger.doubled == s.ledger.doubled;
    assert Step(ttl, s2, Abandon(0)).requests == map[];
  }

  lemma {:induction false} SequentialRests(ttl: int, ops: seq<Operation>)
    ensures var s := After(ttl, Flatten(ops));
            s.requests == map[] && s.ledger.doubled == 0
  {
    if ops != [] {
      var front := ops[..|ops| - 1];
      SequentialRests(ttl, front);
      Reachable(ttl, Flatten(front));
      AfterSplits(ttl, Flatten(front), Statements(ops[|ops| - 1]));
      OperationRests(ttl, After(ttl, Flatten(front)), ops[|ops| - 1]);
    }
  }

  /** Sequential conservation: every unrevoked row is a login's, not yet logged out of and not lost in a refresh. */
  lemma SequentialConservation(ttl: int, ops: seq<Operation>)
    ensures var s := After(ttl, Flatten(ops));
            Live(s.rows) == s.ledger.loginRows - s.ledger.logoutHits - s.ledger.lost
  {
    SequentialRests(ttl, ops);
    Conservation(ttl, Flatten(ops));
    assert InHand(After(ttl, Flatten(ops))) == {};
  }

  /** Every event belongs to the one request in progress. */
  ghost predicate Solo(es: seq<Event>) {
    forall e | e in es :: e.Issue? || e.request == 0
  }

  lemma {:induction false} SoloHoldsAtMostOne(ttl: int, es: seq<Event>, row: nat)
    requires Solo(es)
    ensures After(ttl, es).requests.Keys <= {0} && OverlapAtMost(ttl, es, row, 1)
  {
    if es != [] {
      SoloHoldsAtMostOne(ttl, es[..|es| - 1], row);
      var s, e := After(ttl, es[..|es| - 1]), es[|es| - 1];
      assert e in es;
      assert Step(ttl, s, e).requests.Keys <= s.requests.Keys + {0};
    }
    SubsetSize(Holding(After(ttl, es), row), {0});
  }

  lemma {:induction false} FlattenIsSolo(ops: seq<Operation>)
    ensures Solo(Flatten(ops))
  {
    if ops != [] { FlattenIsSolo(ops[..|ops| - 1]); }
  }

  /** In every sequential run, faults included, one login keeps at most one usable refresh token. */
  lemma SequentialOneLivePerLogin(ttl: int, ops: seq<Operation>, i: nat, j: nat)
    requires var s := After(ttl, Flatten(ops));
             i < j < |s.rows| == |s.origins| && Root(s.origins, i) == Root(s.origins, j)
    ensures After(ttl, Flatten(ops)).rows[i].revokedAt.Some?
  {
    FlattenIsSolo(ops);
    forall row: nat ensures OverlapAtMost(ttl, Flatten(ops), row, 1) {
      SoloHoldsAtMostOne(ttl, Flatten(ops), row);
    }
    OneLivePerLogin(ttl, Flatten(ops), i, j);
  }

  // ----- The table after one operation -----

  function Inserted(rows: seq<Row>, row: Row, fate: Fate): seq<Row> {
    if fate.NotDone? || !Insertable(rows, row.id, row.token) then rows else rows + [row]
  }

  function AfterRevoke(rows: seq<Row>, id: string, now: int, fate: Fate): seq<Row> {
    if fate.NotDone? then rows else RevokeId(rows, id, now)
  }

  /** Revoke `row`, then insert its successor unless the revoke reported an error. */
  function Rotated(rows: seq<Row>, row: Row, now: int, revoke: Fate, successor: Row, create: Fate): seq<Row> {
    var revoked := AfterRevoke(rows, row.id, now, revoke);
    if revoke.Done? then Inserted(revoked, successor, create) else revoked
  }

  /** What one request on its own does to the table. */
  function Effect(ttl: int, rows: seq<Row>, op: Operation): seq<Row> {
    match op
    case DoLogin(id, user, token, now, fate) => Inserted(rows, Row(id, user, token, now + ttl, None), fate)
    case DoRefresh(token, checked, userFound, revoked, revoke, id, successor, issued, create) =>
      var v := Check(rows, token, checked);
      if !v.Usable? || v.row >= |rows| || !userFound then rows
      else
        Rotated(rows, rows[v.row], revoked, revoke, Row(id, rows[v.row].user, successor, issued + ttl, None), create)
    case DoLogout(token, now, fate) =>
      var f := FindByHash(rows, token);
      if f.None? || f.value >= |rows| then rows else AfterRevoke(rows, rows[f.value].id, now, fate)
  }

  lemma EffectOfStatements(ttl: int, s: State, op: Operation)
    requires WellFormed(s) && s.requests == map[]
    ensures Steps(ttl, s, Statements(op)).rows == Effect(ttl, s.rows, op)
  {
    match op
    case DoLogin(id, user, token, now, fate) =>
      assert Statements(op)[1..] == [];
    case DoLogout(token, now, fate) => EffectOfLogout(ttl, s, op);
    case DoRefresh(token, checked, userFound, revoked, revoke, id, successor, issued, create) =>
      StepsOfRefresh(ttl, s, op);
      if userFound {
        EffectOfRefresh(ttl, s, op);
      }
  }

  lemma StepsOfRefresh(ttl: int, s: State, op: Operation)
    requires op.DoRefresh?
    ensures var s1 := Step(ttl, s, Find(0, op.token, op.checked));
            Steps(ttl, s, Statements(op)) ==
            if op.userFound then
              Step(ttl, Step(ttl, Step(ttl, s1, Revoke(0, op.revoked, op.revoke)),
                             Rotate(0, op.id, op.successor, op.issued, op.create)), Abandon(0))
            else Step(ttl, s1, Abandon(0))
  {
    var find, revoke := Find(0, op.token, op.checked), Revoke(0, op.revoked, op.revoke);
    var rotate := Rotate(0, op.id, op.successor, op.issued, op.create);
    if op.userFound {
      assert Statements(op) == [find, revoke, rotate, Abandon(0)];
      StepsFour(ttl, s, find, revoke, rotate, Abandon(0));
    } else {
      assert Statements(op) == [find, Abandon(0)];
      StepsTwo(ttl, s, find, Abandon(0));
    }
  }

  lemma EffectOfLogout(ttl: int, s: State, op: Operation)
    requires WellFormed(s) && s.requests == map[] && op.DoLogout?
    ensures Steps(ttl, s, Statements(op)).rows == Effect(ttl, s.rows, op)
  {
    StepsTwo(ttl, s, FindOut(0, op.token), RevokeOut(0, op.now, op.fate));
    FindByHashInRange(s.rows, op.token);
  }

  lemma EffectOfRefresh(ttl: int, s: State, op: Operation)
    requires WellFormed(s) && s.requests == map[] && op.DoRefresh? && op.userFound
    ensures var s1 := Step(ttl, s, Find(0, op.token, op.checked));
            var s2 := Step(ttl, s1, Revoke(0, op.revoked, op.revoke));
            var s3 := Step(ttl, s2, Rotate(0, op.id, op.successor, op.issued, op.create));
            s3.rows == Effect(ttl, s.rows, op)
  {
    var v := Check(s.rows, op.token, op.checked);
    if v.Usable? { UsableIsUnrevoked(s.rows, op.token, op.checked, v.row); }
  }

  /** The table after a sequential run, operation by operation. */
  function RowsAfter(ttl: int, ops: seq<Operation>): seq<Row> {
    if ops == [] then [] else Effect(ttl, RowsAfter(ttl, ops[..|ops| - 1]), ops[|ops| - 1])
  }

  lemma RowsAppend(ttl: int, ops: seq<Operation>, op: Operation)
    ensures RowsAfter(ttl, ops + [op]) == Effect(ttl, RowsAfter(ttl, ops), op)
  {
    assert (ops + [op])[..|ops|] == ops;
  }

  lemma EffectWhenUsable(ttl: int, rows: seq<Row>, op: Operation, i: nat)
    requires op.DoRefresh? && op.userFound && i < |rows| && Check(rows, op.token, op.checked) == Usable(i)
    ensures Effect(ttl, rows, op) ==
            Rotated(rows, rows[i], op.revoked, op.revoke, Row(op.id, rows[i].user, op.successor, op.issued + ttl, None), op.create)
  {}

  lemma RefreshPerformed(ttl: int, ops: seq<Operation>, rows: seq<Row>, op: Operation, i: nat)
    requires rows == RowsAfter(ttl, ops)
    requires op.DoRefresh? && op.userFound && i < |rows| && Check(rows, op.token, op.checked) == Usable(i)
    ensures RowsAfter(ttl, ops + [op]) ==
            Rotated(rows, rows[i], op.revoked, op.revoke, Row(op.id, rows[i].user, op.successor, op.issued + ttl, None), op.create)
  {
    RowsAppend(ttl, ops, op);
    EffectWhenUsable(ttl, rows, op, i);
  }

  /** It is the table the machine reaches by the operations' statements. */
  lemma {:induction false} RowsAfterIsRun(ttl: int, ops: seq<Operation>)
    ensures RowsAfter(ttl, ops) == After(ttl, Flatten(ops)).rows
  {
    if ops != [] {
      var front, op := ops[..|ops| - 1], ops[|ops| - 1];
      RowsAfterIsRun(ttl, front);
      SequentialRests(ttl, front);
      Reachable(ttl, Flatten(front));
      AfterSplits(ttl, Flatten(front), Statements(op));
      EffectOfStatements(ttl, After(ttl, Flatten(front)), op);
    }
  }

  lemma FlattenLast(ops: seq<Operation>, op: Operation)
    ensures Flatten(ops + [op]) == Flatten(ops) + Statements(op)
  {
    assert (ops + [op])[..|ops|] == ops;
  }

  lemma OperationExtends(ttl: int, ops: seq<Operation>, op: Operation)
    ensures Extends(RowsAfter(ttl, ops), RowsAfter(ttl, ops + [op]))
  {
    RowsAfterIsRun(ttl, ops);
    RowsAfterIsRun(ttl, ops + [op]);
    FlattenLast(ops, op);
    RevocationIsPermanent(ttl, Flatten(ops), Statements(op));
  }

  /** Whatever operations follow, rows stay in place and stay revoked. */
  lemma {:induction false} RowsPersist(ttl: int, ops: seq<Operation>, more: seq<Operation>)
    ensures Extends(RowsAfter(ttl, ops), RowsAfter(ttl, ops + more))
    decreases |more|
  {
    if more == [] {
      assert ops + more == ops;
    } else {
      var front, last := more[..|more| - 1], more[|more| - 1];
      RowsPersist(ttl, ops, front);
      OperationExtends(ttl, ops + front, last);
      assert ops + more == ops + front + [last];
      ExtendsTransitive(RowsAfter(ttl, ops), RowsAfter(ttl, ops + front), RowsAfter(ttl, ops + more));
    }
  }

  lemma TokensDiffer(ttl: int, ops: seq<Operation>)
    ensures forall i, j | 0 <= i < j < |RowsAfter(ttl, ops)| :: RowsAfter(ttl, ops)[i].token != RowsAfter(ttl, ops)[j].token
  {
    RowsAfterIsRun(ttl, ops);
    Reachable(ttl, Flatten(ops));
  }

  /** A logout whose revoke took effect is final: after any further operations the token is refused as revoked. */
  lemma LogoutIsFinal(ttl: int, ops: seq<Operation>, token: string, now: int, fate: Fate, more: seq<Operation>, later: int)
    requires FindByHash(RowsAfter(ttl, ops), token).Some? && !fate.NotDone?
    ensures Check(RowsAfter(ttl, ops + [DoLogout(token, now, fate)] + more), token, later) == Revoked
  {
    var before, out := RowsAfter(ttl, ops), ops + [DoLogout(token, now, fate)];
    var i := FindByHash(before, token).value;
    FindByHashInRange(before, token);
    RowsAppend(ttl, ops, DoLogout(token, now, fate));
    var middle, end := RowsAfter(ttl, out), RowsAfter(ttl, out + more);
    assert middle[i].token == token && middle[i].revokedAt.Some?;
    RowsPersist(ttl, out, more);
    TokensDiffer(ttl, out + more);
    assert SameIdentity(middle[i], end[i]);
    CheckOf(end, i, later);
  }
}
