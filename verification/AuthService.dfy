/**
 The authentication service over its three tables, statement by statement. Each table is an object
 its repository updates in place; ghost histories tie the token table to a run of the rotation
 machine and the attempt table to a run of the lockout machine, so what is proved of every run
 holds of every state these methods reach.
 */
module AuthService {
  import opened Wrappers
  import opened Domain
  import AdminGate
  import Lockout
  import Rotation
  import Lineage

  datatype Error =
    | EmailTaken | InvalidCredentials | AccountLocked | UserNotFound
    | TokenNotFound | TokenRevoked | TokenExpired | Internal

  datatype TokenPair = TokenPair(access: Claims, refresh: string)

  class UserRepository {
    var rows: seq<User>

    constructor ()
      ensures rows == [] && AdminGate.UsersAre([], rows)
    {
      rows := [];
    }

    /** What the table inherits from any run of the admin-gate machine that reaches it. */
    lemma Inherits(run: seq<AdminGate.Event>)
      requires AdminGate.UsersAre(run, rows)
      ensures UniqueUsers(rows)
      ensures forall u | u in rows :: u.role == VIEWER || (u.role == ADMIN && u.email in AdminGate.Seeded(run))
    {
      AdminGate.ReachableGuarded(0, run);
      AdminGate.OnlySeededAdmins(0, run);
    }

    /** An insert may be rejected by the constraints, fail, or take effect and lose its reply. */
    method Create(u: User, fate: Fate) returns (ok: bool)
      modifies this
      ensures ok <==> fate.Done? && Insertable(old(rows), u)
      ensures rows == if fate.NotDone? || !Insertable(old(rows), u) then old(rows) else old(rows) + [u]
    {
      if fate.NotDone? || !Insertable(rows, u) {
        return false;
      }
      rows := rows + [u];
      ok := fate.Done?;
    }

    method UpdateRole(id: string, role: string, fate: Fate) returns (ok: bool)
      modifies this
      ensures ok <==> fate.Done?
      ensures |rows| == |old(rows)|
      ensures forall i | 0 <= i < |rows| ::
                rows[i] == if old(rows)[i].id == id && !fate.NotDone? then old(rows)[i].(role := role) else old(rows)[i]
    {
      if !fate.NotDone? {
        rows := Domain.UpdateRole(rows, id, role);
      }
      ok := fate.Done?;
    }
  }

  class TokenRepository {
    var rows: seq<Rotation.Row>

    constructor ()
      ensures rows == []
    {
      rows := [];
    }

    method Create(row: Rotation.Row, fate: Fate) returns (ok: bool)
      modifies this
      ensures ok <==> fate.Done? && Rotation.Insertable(old(rows), row.id, row.token)
      ensures rows == if fate.NotDone? || !Rotation.Insertable(old(rows), row.id, row.token) then old(rows)
                      else old(rows) + [row]
    {
      if fate.NotDone? || !Rotation.Insertable(rows, row.id, row.token) {
        return false;
      }
      rows := rows + [row];
      ok := fate.Done?;
    }

    method Revoke(id: string, now: int, fate: Fate) returns (ok: bool)
      modifies this
      ensures ok <==> fate.Done?
      ensures rows == if fate.NotDone? then old(rows) else Rotation.RevokeId(old(rows), id, now)
    {
      if !fate.NotDone? {
        rows := Rotation.RevokeId(rows, id, now);
      }
      ok := fate.Done?;
    }
  }

  class LoginAttemptRepository {
    var rows: seq<Lockout.Attempt>

    constructor ()
      ensures rows == []
    {
      rows := [];
    }

    method Create(a: Lockout.Attempt, fails: bool)
      modifies this
      ensures rows == if fails then old(rows) else old(rows) + [a]
    {
      if !fails {
        rows := rows + [a];
      }
    }
  }

  // ----- Bootstrap -----

  ghost predicate IsAdmin(users: seq<User>, email: string) {
    exists u :: u in users && u.email == email && u.role == ADMIN
  }

  datatype Outcome = Skipped | Created | Promoted | AlreadyAdmin | Failed

  /**
   `EnsureAdmin`: creates the account as admin, promotes it, or finds nothing to do. Whatever run of
   the admin-gate machine has reached the table, this call extends it by its lookup and its write.
   */
  method EnsureAdmin(store: UserRepository, email: string, password: string, id: string, lookupFails: bool, write: Fate)
      returns (out: Outcome)
    modifies store
    ensures (email == "" || password == "") <==> out == Skipped
    ensures out == Skipped || lookupFails ==> store.rows == old(store.rows) && (out == Skipped || out == Failed)
    ensures out != Skipped && !lookupFails ==>
              var found := FindByEmail(old(store.rows), email);
              && store.rows == AdminGate.Ensured(old(store.rows), email, password, id, write.NotDone?)
              && (out == AlreadyAdmin <==> found.Some? && found.value.role == ADMIN)
              && (out == Failed <==>
                    && out != AlreadyAdmin
                    && (!write.Done? || (found.None? && !Insertable(old(store.rows), User(id, email, password, ADMIN)))))
              && forall run :: AdminGate.UsersAre(run, old(store.rows)) ==>
                   AdminGate.UsersAre(run + AdminGate.Ensures(email, password, id, write.NotDone?), store.rows)
    ensures out == Created || out == Promoted || out == AlreadyAdmin ==> IsAdmin(store.rows, email)
    ensures out != Skipped && !lookupFails && write.Done? && (forall u | u in old(store.rows) :: u.id != id) ==> out != Failed
    ensures out == AlreadyAdmin ==> store.rows == old(store.rows)
    ensures out == Created ==>
              && store.rows == old(store.rows) + [User(id, email, password, ADMIN)]
              && forall u | u in old(store.rows) :: u.email != email
    ensures out == Promoted ==> exists u ::
              && u in old(store.rows) && u.email == email && u.role != ADMIN
              && store.rows == Domain.UpdateRole(old(store.rows), u.id, ADMIN)
  {
    if email == "" || password == "" {
      return Skipped;
    }
    if lookupFails {
      return Failed;
    }
    var existing := FindByEmail(store.rows, email);
    forall run | AdminGate.UsersAre(run, store.rows) {
      AdminGate.EnsureRuns(run, store.rows, email, password, id, write.NotDone?);
    }
    AdminGate.EnsuredIsAdmin(store.rows, email, password, id);
    match existing {
      case Some(u) =>
        if u.role == ADMIN {
          return AlreadyAdmin;
        }
        var ok := store.UpdateRole(u.id, ADMIN, write);
        return if ok then Promoted else Failed;
      case None =>
        var ok := store.Create(User(id, email, password, ADMIN), write);
        return if ok then Created else Failed;
    }
  }

  // ----- The service -----

  /** Clock readings a login takes: the check, how much later it records, then signing and issuing. */
  datatype LoginClock = LoginClock(now: int, recordDelay: nat, signedAt: int, issuedAt: int)

  /** What goes wrong, if anything, in a login's repository calls. */
  datatype LoginFaults = LoginFaults(count: bool, lookup: bool, record: bool, generate: bool, create: Fate)

  /** The id and random refresh token a request would mint. */
  datatype Mint = Mint(id: string, token: string)

  /** How far a login gets: a repository error, a locked account, bad credentials, or the user's own. */
  datatype Judgement = Fails | Locked | Wrong | Right(user: User)

  datatype RefreshClock = RefreshClock(checked: int, revoked: int, signed: int, issued: int)

  datatype RefreshFaults = RefreshFaults(find: bool, lookup: bool, revoke: Fate, generate: bool, create: Fate)

  class Service {
    const users: UserRepository
    const tokens: TokenRepository
    const attempts: LoginAttemptRepository
    const policy: Lockout.Policy
    const accessTTL: int
    const refreshTTL: int
    ghost var operations: seq<Lineage.Operation>
    ghost var checks: seq<Lockout.Event>

    /** The tables are where the two machines stand after everything this service did, with nothing in flight. */
    ghost predicate Valid()
      reads this, tokens, attempts
    {
      && tokens.rows == Lineage.RowsAfter(refreshTTL, operations)
      && Lockout.After(policy, checks) == Lockout.State(attempts.rows, map[])
      && Lockout.Alone(policy, checks)
    }

    constructor (users: UserRepository, policy: Lockout.Policy, accessTTL: int, refreshTTL: int)
      ensures Valid() && fresh(tokens) && fresh(attempts)
      ensures this.users == users && this.policy == policy
      ensures this.accessTTL == accessTTL && this.refreshTTL == refreshTTL
      ensures operations == [] && checks == []
    {
      this.users, this.policy, this.accessTTL, this.refreshTTL := users, policy, accessTTL, refreshTTL;
      tokens := new TokenRepository();
      attempts := new LoginAttemptRepository();
      operations, checks := [], [];
      Lockout.NothingInFlight(policy);
    }

    /** What every state of the service inherits: the lockout cap, and where its live tokens come from. */
    lemma Inherits(email: string, from: int)
      requires Valid()
      ensures Lockout.FailuresIn(attempts.rows, email, from, policy.window) <= Max(policy.max, 0)
      ensures var s := Rotation.After(refreshTTL, Lineage.Flatten(operations));
              && tokens.rows == s.rows
              && Lineage.Live(tokens.rows) == s.ledger.loginRows - s.ledger.logoutHits - s.ledger.lost
    {
      assert Lockout.PeakAtMost(policy, checks, email, 1);
      Lockout.LockoutBound(policy, checks, email, from, 1);
      Lineage.RowsAfterIsRun(refreshTTL, operations);
      Lineage.SequentialConservation(refreshTTL, operations);
    }

    /**
     `Register`: a new viewer, unless the email is taken. Whatever run of the admin-gate machine has
     reached the table, this call extends it by its lookup and its write.
     */
    method Register(email: string, password: string, id: string, lookupFails: bool, create: Fate)
        returns (r: Result<User, Error>)
      modifies users
      ensures lookupFails ==> r == Err(Internal) && users.rows == old(users.rows)
      ensures r == Err(EmailTaken) <==> !lookupFails && exists u :: u in old(users.rows) && u.email == email
      ensures r == Err(EmailTaken) ==> users.rows == old(users.rows)
      ensures r.Ok? ==> r.value == User(id, email, password, VIEWER) && users.rows == old(users.rows) + [r.value]
      ensures !lookupFails && r != Err(EmailTaken) ==>
                var u := User(id, email, password, VIEWER);
                && users.rows == AdminGate.Inserted(old(users.rows), u, create.NotDone?)
                && (r.Ok? <==> create.Done? && Insertable(old(users.rows), u))
                && forall run :: AdminGate.UsersAre(run, old(users.rows)) ==>
                     AdminGate.UsersAre(run + AdminGate.Registers(email, password, id, create.NotDone?), users.rows)
      ensures !lookupFails && create.Done? && (forall u | u in old(users.rows) :: u.email != email && u.id != id) ==> r.Ok?
    {
      if lookupFails {
        return Err(Internal);
      }
      if FindByEmail(users.rows, email).Some? {
        return Err(EmailTaken);
      }
      forall run | AdminGate.UsersAre(run, users.rows) {
        AdminGate.RegisterRuns(run, users.rows, email, password, id, create.NotDone?);
      }
      var user := User(id, email, password, VIEWER);
      var ok := users.Create(user, create);
      return if ok then Ok(user) else Err(Internal);
    }

    function Judge(log: seq<Lockout.Attempt>, users: seq<User>, email: string, password: string, now: int, faults: LoginFaults): Judgement {
      if faults.count then Fails
      else if Lockout.Locked(policy, log, email, now) then Locked
      else if faults.lookup then Fails
      else
        match FindByEmail(users, email)
        case Some(u) => if u.password == password then Right(u) else Wrong
        case None => Wrong
    }

    /** Some row has this email and this password. */
    ghost predicate Matches(users: seq<User>, email: string, password: string) {
      exists u :: u in users && u.email == email && u.password == password
    }

    /** What the judgement rests on: the count, and whether a row has both the email and the password. */
    lemma JudgeMeans(log: seq<Lockout.Attempt>, users: seq<User>, email: string, password: string, now: int, faults: LoginFaults)
      ensures var j := Judge(log, users, email, password, now, faults);
              && (j == Locked <==> !faults.count && Lockout.Locked(policy, log, email, now))
              && (j == Fails <==> faults.count || (!Lockout.Locked(policy, log, email, now) && faults.lookup))
              && (j.Right? ==> j.user in users && j.user.email == email && j.user.password == password)
              && (j == Wrong && UniqueUsers(users) ==> !Matches(users, email, password))
    {
      var f := FindByEmail(users, email);
      if f.Some? && UniqueUsers(users) {
        var i :| 0 <= i < |users| && users[i] == f.value;
        forall u | u in users && u.email == email ensures u == f.value {
          var j :| 0 <= j < |users| && users[j] == u;
          assert i == j;
        }
      }
    }

    /** A row anyone may redeem the token against, for its user, until it expires. */
    ghost predicate Redeemable(rows: seq<Rotation.Row>, token: string, uid: string, until: int) {
      exists i: nat :: i < |rows| && rows[i].user == uid && rows[i].token == token
                       && forall t :: Rotation.Check(rows, token, t) == if t <= until then Rotation.Usable(i) else Rotation.Expired
    }

    /**
     What a pair that was handed out is good for: an access token with the user's id and role that lives
     its configured lifetime to the whole second, and a refresh token redeemable for its own.
     */
    ghost predicate Good(pair: TokenPair, uid: string, role: string, signed: int, issued: int, rows: seq<Rotation.Row>) {
      && pair.access.uid == uid && pair.access.role == role
      && (forall now :: now + 1000 <= signed + accessTTL ==> Fresh(pair.access, now))
      && (forall now :: now >= signed + accessTTL ==> !Fresh(pair.access, now))
      && Redeemable(rows, pair.refresh, uid, issued + refreshTTL)
    }

    lemma IssuedIsGood(before: seq<Rotation.Row>, after: seq<Rotation.Row>, user: User, signed: int, issued: int,
                       fails: bool, fate: Fate, mint: Mint, r: Result<TokenPair, Error>)
      requires Issues(before, after, user, signed, issued, fails, fate, mint, r) && r.Ok?
      ensures Good(r.value, user.id, user.role, signed, issued, after)
    {
      forall now ensures now + 1000 <= signed + accessTTL ==> Fresh(r.value.access, now)
                 ensures now >= signed + accessTTL ==> !Fresh(r.value.access, now)
      {
        TokenLives(user, signed, accessTTL, now);
      }
      var i := |before|;
      forall t ensures Rotation.Check(after, mint.token, t) ==
                       if t <= issued + refreshTTL then Rotation.Usable(i) else Rotation.Expired
      {
        assert after[|after| - 1].token == mint.token;
      }
      assert after[i].user == user.id;
    }

    /** No row has this id or this token yet. */
    ghost predicate Unused(rows: seq<Rotation.Row>, mint: Mint) {
      forall row | row in rows :: row.id != mint.id && row.token != mint.token
    }

    /**
     `Login`: refused untouched when locked; otherwise exactly one attempt row saying whether the
     password matched, and only then one token row. Tokens are handed out only for a row with the email
     and the password, always to one when nothing fails, and wrong credentials are told and recorded.
     */
    method Login(email: string, password: string, clock: LoginClock, faults: LoginFaults, mint: Mint)
        returns (r: Result<TokenPair, Error>)
      requires Valid()
      modifies this, tokens, attempts
      ensures Valid() && old(operations) <= operations && old(checks) <= checks
      ensures match Judge(old(attempts.rows), users.rows, email, password, clock.now, faults)
              case Fails => r == Err(Internal) && attempts.rows == old(attempts.rows) && tokens.rows == old(tokens.rows)
              case Locked => r == Err(AccountLocked) && attempts.rows == old(attempts.rows) && tokens.rows == old(tokens.rows)
              case Wrong =>
                && r == Err(InvalidCredentials) && tokens.rows == old(tokens.rows)
                && attempts.rows == Recorded(old(attempts.rows), email, false, clock, faults.record)
              case Right(user) =>
                && attempts.rows == Recorded(old(attempts.rows), email, true, clock, faults.record)
                && Issues(old(tokens.rows), tokens.rows, user, clock.signedAt, clock.issuedAt, faults.generate, faults.create, mint, r)
      ensures r.Ok? ==> exists u :: u in users.rows && u.email == email && u.password == password
                                    && Good(r.value, u.id, u.role, clock.signedAt, clock.issuedAt, tokens.rows)
      ensures !faults.count && Lockout.Locked(policy, old(attempts.rows), email, clock.now) ==>
                r == Err(AccountLocked) && attempts.rows == old(attempts.rows) && tokens.rows == old(tokens.rows)
      ensures !faults.count && !faults.lookup && !Lockout.Locked(policy, old(attempts.rows), email, clock.now) ==>
                var at := clock.now + clock.recordDelay;
                && (!Matches(users.rows, email, password) ==>
                      && r == Err(InvalidCredentials) && tokens.rows == old(tokens.rows)
                      && (!faults.record ==> attempts.rows == old(attempts.rows) + [Lockout.Attempt(email, false, at)]))
                && (Matches(users.rows, email, password) && UniqueUsers(users.rows) ==>
                      && (!faults.record ==> attempts.rows == old(attempts.rows) + [Lockout.Attempt(email, true, at)])
                      && (!faults.generate && faults.create.Done? && Unused(old(tokens.rows), mint) ==> r.Ok?))
    {
      JudgeMeans(attempts.rows, users.rows, email, password, clock.now, faults);
      if faults.count {
        return Err(Internal);
      }
      var since := clock.now - policy.window;
      var failed := Lockout.CountRecentFailed(attempts.rows, email, since);
      if failed >= policy.max {
        return Err(AccountLocked);
      }
      if faults.lookup {
        return Err(Internal);
      }
      var user := FindByEmail(users.rows, email);
      if user.None? || user.value.password != password {
        RecordAttempt(email, false, clock, faults.record);
        return Err(InvalidCredentials);
      }
      RecordAttempt(email, true, clock, faults.record);
      r := IssueTokens(user.value, clock.signedAt, clock.issuedAt, faults.generate, faults.create, mint);
      LoginIsPerformed(old(tokens.rows), user.value, clock, faults, mint, r, tokens.rows);
      operations := operations + [LoginOf(user.value, clock, faults, mint)];
    }

    ghost function LoginOf(user: User, clock: LoginClock, faults: LoginFaults, mint: Mint): Lineage.Operation {
      Lineage.DoLogin(mint.id, user.id, mint.token, clock.issuedAt, if faults.generate then NotDone else faults.create)
    }

    /** The row a login mints is the rotation machine's. */
    lemma LoginIsPerformed(before: seq<Rotation.Row>, user: User, clock: LoginClock, faults: LoginFaults, mint: Mint,
                           r: Result<TokenPair, Error>, after: seq<Rotation.Row>)
      requires before == Lineage.RowsAfter(refreshTTL, operations)
      requires Issues(before, after, user, clock.signedAt, clock.issuedAt, faults.generate, faults.create, mint, r)
      ensures after == Lineage.RowsAfter(refreshTTL, operations + [LoginOf(user, clock, faults, mint)])
    {
      Lineage.RowsAppend(refreshTTL, operations, LoginOf(user, clock, faults, mint));
    }

    /** `recordAttempt`, best effort, after a check that passed. */
    method RecordAttempt(email: string, successful: bool, clock: LoginClock, fails: bool)
      requires Valid() && !Lockout.Locked(policy, attempts.rows, email, clock.now)
      modifies this`checks, attempts
      ensures Valid() && old(checks) <= checks
      ensures attempts.rows == Recorded(old(attempts.rows), email, successful, clock, fails)
    {
      attempts.Create(Lockout.Attempt(email, successful, clock.now + clock.recordDelay), fails);
      ghost var check := Lockout.Check(0, email, clock.now);
      ghost var record := Lockout.Record(0, successful, clock.now + clock.recordDelay);
      Lockout.AfterTwo(policy, checks, check, if fails then Lockout.Quit(0) else record);
      Lockout.AloneExtends(policy, checks, check, if fails then Lockout.Quit(0) else record);
      checks := checks + [check, if fails then Lockout.Quit(0) else record];
    }

    /** A pair is handed out exactly when its row is in the table; an error may still have inserted it. */
    ghost predicate Issues(before: seq<Rotation.Row>, after: seq<Rotation.Row>, user: User, signed: int, issued: int,
                           fails: bool, fate: Fate, mint: Mint, r: Result<TokenPair, Error>)
    {
      var row := Rotation.Row(mint.id, user.id, mint.token, issued + refreshTTL, None);
      && after == Lineage.Inserted(before, row, if fails then NotDone else fate)
      && (if !fails && fate.Done? && Rotation.Insertable(before, mint.id, mint.token) then
            r == Ok(TokenPair(Sign(user, signed, accessTTL), mint.token)) && after == before + [row]
          else r == Err(Internal))
    }

    /** `issueTokens` */
    method IssueTokens(user: User, signed: int, issued: int, fails: bool, fate: Fate, mint: Mint)
        returns (r: Result<TokenPair, Error>)
      modifies tokens
      ensures Issues(old(tokens.rows), tokens.rows, user, signed, issued, fails, fate, mint, r)
      ensures r.Ok? ==> Good(r.value, user.id, user.role, signed, issued, tokens.rows)
      ensures !fails && fate.Done? && Unused(old(tokens.rows), mint) ==> r.Ok?
    {
      if fails {
        return Err(Internal);
      }
      var access := Sign(user, signed, accessTTL);
      var record := Rotation.Row(mint.id, user.id, mint.token, issued + refreshTTL, None);
      var ok := tokens.Create(record, fate);
      r := if ok then Ok(TokenPair(access, mint.token)) else Err(Internal);
      if r.Ok? { IssuedIsGood(old(tokens.rows), tokens.rows, user, signed, issued, fails, fate, mint, r); }
    }

    /** `Refresh`: refused untouched unless the checks pass; then the row is revoked and one successor minted. */
    method Refresh(token: string, clock: RefreshClock, faults: RefreshFaults, mint: Mint) returns (r: Result<TokenPair, Error>)
      requires Valid()
      modifies this`operations, tokens
      ensures Valid() && old(operations) <= operations
      ensures faults.find ==> r == Err(Internal) && tokens.rows == old(tokens.rows)
      ensures !faults.find ==>
                match Rotation.Check(old(tokens.rows), token, clock.checked)
                case NotFound => r == Err(TokenNotFound) && tokens.rows == old(tokens.rows)
                case Revoked => r == Err(TokenRevoked) && tokens.rows == old(tokens.rows)
                case Expired => r == Err(TokenExpired) && tokens.rows == old(tokens.rows)
                case Usable(i) => i < |old(tokens.rows)| && Rotates(old(tokens.rows), old(tokens.rows)[i], clock, faults, mint, r, tokens.rows)
      ensures r.Ok? ==> exists i: nat, u ::
                && i < |old(tokens.rows)| && old(tokens.rows)[i].token == token && old(tokens.rows)[i].revokedAt.None?
                && clock.checked <= old(tokens.rows)[i].expiresAt
                && u in users.rows && u.id == old(tokens.rows)[i].user
                && Good(r.value, u.id, u.role, clock.signed, clock.issued, tokens.rows)
      ensures r.Ok? ==> forall t :: Rotation.Check(tokens.rows, token, t) == Rotation.Revoked
      ensures faults == RefreshFaults(false, false, Done, false, Done) && Unused(old(tokens.rows), mint) ==>
                (FindsUser(old(tokens.rows), token, clock.checked) ==> r.Ok?)
    {
      if faults.find {
        return Err(Internal);
      }
      var found := Rotation.FindByHash(tokens.rows, token);
      Rotation.FindByHashInRange(tokens.rows, token);
      if found.None? {
        return Err(TokenNotFound);
      }
      var rt := tokens.rows[found.value];
      if rt.revokedAt.Some? {
        return Err(TokenRevoked);
      }
      if clock.checked > rt.expiresAt {
        return Err(TokenExpired);
      }
      if faults.lookup {
        return Err(Internal);
      }
      var user := FindByID(users.rows, rt.user);
      if user.None? {
        return Err(UserNotFound);
      }
      r := RevokeAndIssue(rt, user.value, clock, faults, mint);
      RefreshIsPerformed(old(tokens.rows), found.value, token, user.value, clock, faults, mint, r, tokens.rows);
      operations := operations + [RefreshOf(token, clock, faults, mint)];
      StaysRevoked(tokens.rows, operations, found.value);
      RefreshedIsGood(old(tokens.rows), found.value, user.value, clock, faults, mint, r, tokens.rows);
    }

    /** Some unrevoked, unexpired row has the token, and its user exists. */
    ghost predicate FindsUser(rows: seq<Rotation.Row>, token: string, now: int)
      reads users
    {
      exists i: nat, u :: i < |rows| && Rotation.Check(rows, token, now) == Rotation.Usable(i)
                          && u in users.rows && u.id == rows[i].user
    }

    /** What a refresh that succeeded leaves: its own row revoked, and a good pair for its user. */
    lemma RefreshedIsGood(before: seq<Rotation.Row>, i: nat, user: User, clock: RefreshClock, faults: RefreshFaults,
                          mint: Mint, r: Result<TokenPair, Error>, after: seq<Rotation.Row>)
      requires i < |before| && RevokesAndIssues(before, before[i], user, clock, faults, mint, r, after)
      ensures r.Ok? ==>
                && Good(r.value, user.id, user.role, clock.signed, clock.issued, after)
                && i < |after| && after[i].token == before[i].token && after[i].revokedAt.Some?
      ensures !faults.generate && faults.revoke.Done? && faults.create.Done? && Unused(before, mint) ==> r.Ok?
    {
      var revoked := Lineage.AfterRevoke(before, before[i].id, clock.revoked, faults.revoke);
      if r.Ok? {
        IssuedIsGood(revoked, after, user, clock.signed, clock.issued, faults.generate, faults.create, mint, r);
      }
      if faults.revoke.Done? && Unused(before, mint) {
        forall row | row in revoked ensures row.id != mint.id && row.token != mint.token {
          var j :| 0 <= j < |revoked| && revoked[j] == row;
          assert before[j] in before;
        }
      }
    }

    ghost function RefreshOf(token: string, clock: RefreshClock, faults: RefreshFaults, mint: Mint): Lineage.Operation {
      Lineage.DoRefresh(token, clock.checked, true, clock.revoked, faults.revoke, mint.id, mint.token, clock.issued,
                        if faults.generate then NotDone else faults.create)
    }

    /** The writes a refresh makes are the rotation machine's. */
    lemma RefreshIsPerformed(before: seq<Rotation.Row>, i: nat, token: string, user: User, clock: RefreshClock,
                             faults: RefreshFaults, mint: Mint, r: Result<TokenPair, Error>, after: seq<Rotation.Row>)
      requires before == Lineage.RowsAfter(refreshTTL, operations)
      requires i < |before| && Rotation.Check(before, token, clock.checked) == Rotation.Usable(i) && user.id == before[i].user
      requires RevokesAndIssues(before, before[i], user, clock, faults, mint, r, after)
      ensures after == Lineage.RowsAfter(refreshTTL, operations + [RefreshOf(token, clock, faults, mint)])
    {
      IssuedIsRotated(before, before[i], user, clock, faults, mint, r, after);
      Lineage.RefreshPerformed(refreshTTL, operations, before, RefreshOf(token, clock, faults, mint), i);
    }

    lemma IssuedIsRotated(before: seq<Rotation.Row>, rt: Rotation.Row, user: User, clock: RefreshClock,
                          faults: RefreshFaults, mint: Mint, r: Result<TokenPair, Error>, after: seq<Rotation.Row>)
      requires user.id == rt.user && RevokesAndIssues(before, rt, user, clock, faults, mint, r, after)
      ensures after == Lineage.Rotated(before, rt, clock.revoked, faults.revoke,
                                       Rotation.Row(mint.id, rt.user, mint.token, clock.issued + refreshTTL, None),
                                       if faults.generate then NotDone else faults.create)
    {}

    /** The two writes of a refresh whose checks passed. */
    method RevokeAndIssue(rt: Rotation.Row, user: User, clock: RefreshClock, faults: RefreshFaults, mint: Mint)
        returns (r: Result<TokenPair, Error>)
      requires user.id == rt.user
      modifies tokens
      ensures RevokesAndIssues(old(tokens.rows), rt, user, clock, faults, mint, r, tokens.rows)
    {
      var ok := tokens.Revoke(rt.id, clock.revoked, faults.revoke);
      if !ok {
        return Err(Internal);
      }
      r := IssueTokens(user, clock.signed, clock.issued, faults.generate, faults.create, mint);
    }

    ghost predicate RevokesAndIssues(before: seq<Rotation.Row>, rt: Rotation.Row, user: User, clock: RefreshClock,
                                     faults: RefreshFaults, mint: Mint, r: Result<TokenPair, Error>, after: seq<Rotation.Row>)
    {
      var revoked := Lineage.AfterRevoke(before, rt.id, clock.revoked, faults.revoke);
      if faults.revoke.Done? then
        Issues(revoked, after, user, clock.signed, clock.issued, faults.generate, faults.create, mint, r)
      else r == Err(Internal) && after == revoked
    }

    /** What a refresh whose checks passed on `rt` answers and leaves. */
    ghost predicate Rotates(before: seq<Rotation.Row>, rt: Rotation.Row, clock: RefreshClock, faults: RefreshFaults,
                            mint: Mint, r: Result<TokenPair, Error>, after: seq<Rotation.Row>)
      reads users
    {
      var user := FindByID(users.rows, rt.user);
      if faults.lookup then r == Err(Internal) && after == before
      else if user.None? then r == Err(UserNotFound) && after == before
      else RevokesAndIssues(before, rt, user.value, clock, faults, mint, r, after)
    }

    /** In a table the service reached, a revoked row's token is told to be revoked. */
    lemma StaysRevoked(rows: seq<Rotation.Row>, done: seq<Lineage.Operation>, i: nat)
      requires rows == Lineage.RowsAfter(refreshTTL, done) && i < |rows|
      ensures rows[i].revokedAt.Some? ==> forall t :: Rotation.Check(rows, rows[i].token, t) == Rotation.Revoked
    {
      Lineage.TokensDiffer(refreshTTL, done);
      forall t ensures rows[i].revokedAt.Some? ==> Rotation.Check(rows, rows[i].token, t) == Rotation.Revoked {
        Rotation.CheckOf(rows, i, t);
      }
    }

    /** `Logout`: afterwards the token is unknown or revoked, unless an error is reported. */
    method Logout(token: string, now: int, findFails: bool, revoke: Fate) returns (error: Option<Error>)
      requires Valid()
      modifies this`operations, tokens
      ensures Valid() && old(operations) <= operations
      ensures var f := Rotation.FindByHash(old(tokens.rows), token);
              if findFails || f.None? then tokens.rows == old(tokens.rows) && (error == None <==> !findFails)
              else f.value < |old(tokens.rows)|
                   && tokens.rows == Lineage.AfterRevoke(old(tokens.rows), old(tokens.rows)[f.value].id, now, revoke)
                   && (error == None <==> revoke.Done?)
      ensures error == None ==> forall t :: Rotation.Check(tokens.rows, token, t) in {Rotation.NotFound, Rotation.Revoked}
    {
      if findFails {
        return Some(Internal);
      }
      var found := Rotation.FindByHash(tokens.rows, token);
      Rotation.FindByHashInRange(tokens.rows, token);
      if found.None? {
        return None;
      }
      ghost var op := Lineage.DoLogout(token, now, revoke);
      operations := operations + [op];
      assert operations[..|operations| - 1] == old(operations);
      var ok := tokens.Revoke(tokens.rows[found.value].id, now, revoke);
      StaysRevoked(tokens.rows, operations, found.value);
      return if ok then None else Some(Internal);
    }
  }

  /** The attempts table after `recordAttempt`. */
  function Recorded(log: seq<Lockout.Attempt>, email: string, successful: bool, clock: LoginClock, fails: bool): seq<Lockout.Attempt> {
    log + if fails then [] else [Lockout.Attempt(email, successful, clock.now + clock.recordDelay)]
  }
}
