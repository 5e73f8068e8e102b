/**
 The window a threat summary reports: `earliest` looks only at the last element of each of two
 newest-first, truncated lists, and still names the oldest record that fed the prompt.
 */
module ThreatWindow {
  import opened Wrappers

  /** A row of `login_attempts` or `audit_events`: whose it is and when it was recorded. */
  datatype Row = Row(owner: string, createdAt: int)

  function OwnedBy(table: seq<Row>, owner: string): seq<Row> {
    if table == [] then []
    else OwnedBy(table[..|table| - 1], owner) + if table[|table| - 1].owner == owner then [table[|table| - 1]] else []
  }

  /** Selecting the owner's rows keeps every copy of them and nothing else. */
  lemma {:induction false} OwnedAreAll(table: seq<Row>, owner: string, r: Row)
    ensures multiset(OwnedBy(table, owner))[r] == if r.owner == owner then multiset(table)[r] else 0
  {
    if table != [] {
      OwnedAreAll(table[..|table| - 1], owner, r);
      assert table == table[..|table| - 1] + [table[|table| - 1]];
    }
  }

  /** Where the owner's rows stand in the table. */
  ghost function Places(table: seq<Row>, owner: string): set<nat> {
    set i: nat | i < |table| && table[i].owner == owner
  }

  lemma {:induction false} OwnedAreCounted(table: seq<Row>, owner: string)
    ensures |OwnedBy(table, owner)| == |Places(table, owner)|
  {
    if table != [] {
      var n := |table| - 1;
      OwnedAreCounted(table[..n], owner);
      assert Places(table, owner) == Places(table[..n], owner) + if table[n].owner == owner then {n} else {};
    } else {
      assert Places(table, owner) == {};
    }
  }

  /** `limit` rows if there are as many; a negative limit is no limit. */
  function Limited(n: nat, limit: int): nat {
    if limit < 0 || limit > n then n else limit
  }

  ghost predicate NewestFirst(rows: seq<Row>) {
    forall i, j | 0 <= i < j < |rows| :: rows[i].createdAt >= rows[j].createdAt
  }

  /**
   `kept` answers `WHERE owner = ? ORDER BY created_at DESC LIMIT limit`, leaving `omitted` out; a
   negative limit is no limit. Rows stamped alike may come in any order.
   */
  ghost predicate Answers(table: seq<Row>, owner: string, limit: int, kept: seq<Row>, omitted: seq<Row>) {
    var all := OwnedBy(table, owner);
    && multiset(kept + omitted) == multiset(all) && NewestFirst(kept + omitted)
    && |kept| == Limited(|all|, limit)
  }

  /** `oldest` is the least timestamp of the rows, if there are any. */
  ghost predicate IsOldest(oldest: Option<int>, rows: seq<Row>) {
    match oldest
    case None => rows == []
    case Some(t) => (exists r :: r in rows && r.createdAt == t) && forall r | r in rows :: t <= r.createdAt
  }

  /** `earliest`, with its reassigned `oldest`. */
  method Earliest(attempts: seq<Row>, events: seq<Row>) returns (oldest: Option<int>)
    requires NewestFirst(attempts) && NewestFirst(events)
    ensures IsOldest(oldest, attempts + events)
  {
    oldest := None;
    var n := |attempts|;
    if n > 0 {
      oldest := Some(attempts[n - 1].createdAt);
      assert attempts[n - 1] in attempts + events;
    }
    n := |events|;
    if n > 0 {
      assert events[n - 1] in attempts + events;
      if oldest.None? || events[n - 1].createdAt < oldest.value {
        oldest := Some(events[n - 1].createdAt);
      }
    }
  }

  /** The records fed to the prompt are the newest: none left out is newer than any kept. */
  lemma OmittedAreOlder(table: seq<Row>, owner: string, limit: int, kept: seq<Row>, omitted: seq<Row>)
    requires Answers(table, owner, limit, kept, omitted)
    ensures NewestFirst(kept)
    ensures forall k, o | k in kept && o in omitted :: o.createdAt <= k.createdAt
    ensures forall r | r in kept :: r.owner == owner && r in table
  {
    var all := kept + omitted;
    assert forall i | 0 <= i < |kept| :: kept[i] == all[i];
    assert forall i | 0 <= i < |omitted| :: omitted[i] == all[|kept| + i];
    forall r | r in kept ensures r.owner == owner && r in table {
      assert r in all && r in multiset(all);
      assert r in OwnedBy(table, owner);
      OwnedAreOwned(table, owner, r);
    }
  }

  lemma {:induction false} OwnedAreOwned(table: seq<Row>, owner: string, r: Row)
    requires r in OwnedBy(table, owner)
    ensures r.owner == owner && r in table
  {
    var front := table[..|table| - 1];
    if r in OwnedBy(front, owner) { OwnedAreOwned(front, owner, r); }
  }

  /**
   The query in terms of the table alone: the owner's rows, newest first, as many as there are up to the
   limit, each at most as often as the table has it; and a row of the owner that is missing, or missing a
   copy, is missing only because the limit is reached, and is no newer than any row kept.
   */
  ghost predicate NewestOf(table: seq<Row>, owner: string, limit: int, kept: seq<Row>) {
    && NewestFirst(kept) && |kept| == Limited(|Places(table, owner)|, limit)
    && (forall r | r in kept :: r.owner == owner && multiset(kept)[r] <= multiset(table)[r])
    && (forall r | r in table && r.owner == owner && multiset(kept)[r] < multiset(table)[r] ::
          |kept| == limit && forall k | k in kept :: r.createdAt <= k.createdAt)
  }

  lemma AnswersAreNewest(table: seq<Row>, owner: string, limit: int, kept: seq<Row>, omitted: seq<Row>)
    requires Answers(table, owner, limit, kept, omitted)
    ensures NewestOf(table, owner, limit, kept)
  {
    OmittedAreOlder(table, owner, limit, kept, omitted);
    OwnedAreCounted(table, owner);
    var all := OwnedBy(table, owner);
    assert |kept + omitted| == |multiset(kept + omitted)| == |multiset(all)| == |all|;
    forall r ensures multiset(kept)[r] + multiset(omitted)[r] == if r.owner == owner then multiset(table)[r] else 0 {
      OwnedAreAll(table, owner, r);
      assert multiset(kept + omitted) == multiset(kept) + multiset(omitted);
    }
    forall r | r in table && r.owner == owner && multiset(kept)[r] < multiset(table)[r]
      ensures |kept| == limit && forall k | k in kept :: r.createdAt <= k.createdAt
    {
      assert r in multiset(omitted);
      assert r in omitted;
    }
  }

  // ----- Answering the query -----

  function Insert(r: Row, rows: seq<Row>): seq<Row> {
    if rows == [] || r.createdAt >= rows[0].createdAt then [r] + rows else [rows[0]] + Insert(r, rows[1..])
  }

  function Sorted(rows: seq<Row>): seq<Row> {
    if rows == [] then [] else Insert(rows[0], Sorted(rows[1..]))
  }

  lemma {:induction false} InsertKeepsRows(r: Row, rows: seq<Row>)
    ensures multiset(Insert(r, rows)) == multiset(rows) + multiset{r}
  {
    if rows != [] && r.createdAt < rows[0].createdAt {
      InsertKeepsRows(r, rows[1..]);
      assert rows == [rows[0]] + rows[1..];
    }
  }

  predicate NoneAfter(rows: seq<Row>, t: int) {
    forall i | 0 <= i < |rows| :: rows[i].createdAt <= t
  }

  lemma {:induction false} InsertKeepsBound(r: Row, rows: seq<Row>, t: int)
    requires NoneAfter(rows, t) && r.createdAt <= t
    ensures NoneAfter(Insert(r, rows), t)
  {
    if rows != [] && r.createdAt < rows[0].createdAt {
      InsertKeepsBound(r, rows[1..], t);
    }
  }

  lemma {:induction false} InsertSorts(r: Row, rows: seq<Row>)
    requires NewestFirst(rows)
    ensures NewestFirst(Insert(r, rows))
  {
    if rows != [] && r.createdAt < rows[0].createdAt {
      InsertSorts(r, rows[1..]);
      InsertKeepsBound(r, rows[1..], rows[0].createdAt);
    }
  }

  lemma {:induction false} SortedSorts(rows: seq<Row>)
    ensures NewestFirst(Sorted(rows)) && multiset(Sorted(rows)) == multiset(rows)
  {
    if rows != [] {
      SortedSorts(rows[1..]);
      InsertSorts(rows[0], Sorted(rows[1..]));
      InsertKeepsRows(rows[0], Sorted(rows[1..]));
      assert rows == [rows[0]] + rows[1..];
    }
  }

  /** `ListRecentByEmail` and `ListRecentByActor`; ties may be answered in any order, this is one. */
  method ListRecent(table: seq<Row>, owner: string, limit: int) returns (kept: seq<Row>)
    ensures exists omitted :: Answers(table, owner, limit, kept, omitted)
    ensures NewestOf(table, owner, limit, kept)
  {
    var all := OwnedBy(table, owner);
    SortedSorts(all);
    var sorted := Sorted(all);
    assert |sorted| == |multiset(sorted)| == |multiset(all)| == |all|;
    var n := Limited(|all|, limit);
    kept := sorted[..n];
    assert kept + sorted[n..] == sorted;
    assert Answers(table, owner, limit, kept, sorted[n..]);
    AnswersAreNewest(table, owner, limit, kept, sorted[n..]);
  }
}
