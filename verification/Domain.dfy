/** Users, roles and access tokens. */
module Domain {
  import opened Wrappers

  const ADMIN := "admin"
  const ANALYST := "analyst"
  const VIEWER := "viewer"

  /** A row of `users`; `password` stands for the hash of that password (ideal bcrypt). */
  datatype User = User(id: string, email: string, password: string, role: string)

  /** The payload of a signed access token; times are in milliseconds. */
  datatype Claims = Claims(uid: string, role: string, expiresAt: int)

  /** `jwt.NewNumericDate` keeps whole seconds. */
  function WholeSecond(ms: int): (r: int)
    ensures r <= ms < r + 1000
  {
    ms - ms % 1000
  }

  function Sign(user: User, now: int, accessTTL: int): Claims {
    Claims(user.id, user.role, WholeSecond(now + accessTTL))
  }

  /** The role gate: what `RequireRole(allowed...)` lets through. */
  predicate MayPass(role: string, allowed: seq<string>) {
    role in allowed
  }

  /** A token is accepted strictly before its expiry (section 4.1.4 of RFC 7519). */
  predicate Fresh(c: Claims, now: int) {
    now < c.expiresAt
  }

  /** A token carries its user's id and role, and lives exactly as long as configured, to the whole second. */
  lemma TokenLives(user: User, signedAt: int, accessTTL: int, now: int)
    ensures var c := Sign(user, signedAt, accessTTL);
            && c.uid == user.id && c.role == user.role
            && (now + 1000 <= signedAt + accessTTL ==> Fresh(c, now))
            && (now >= signedAt + accessTTL ==> !Fresh(c, now))
  {}

  function FindByEmail(users: seq<User>, email: string): (r: Option<User>)
    ensures r.Some? ==> r.value in users && r.value.email == email
    ensures r.None? ==> forall u | u in users :: u.email != email
  {
    if users == [] then None
    else
      var u := users[|users| - 1];
      if u.email == email then Some(u) else FindByEmail(users[..|users| - 1], email)
  }

  function FindByID(users: seq<User>, id: string): (r: Option<User>)
    ensures r.Some? ==> r.value in users && r.value.id == id
    ensures r.None? ==> forall u | u in users :: u.id != id
  {
    if users == [] then None
    else
      var u := users[|users| - 1];
      if u.id == id then Some(u) else FindByID(users[..|users| - 1], id)
  }

  /** The primary key and the UNIQUE constraint on `email` reject a second row. */
  predicate Insertable(users: seq<User>, u: User) {
    forall v | v in users :: v.id != u.id && v.email != u.email
  }

  /** `UPDATE users SET role = role WHERE id = ?` */
  function UpdateRole(users: seq<User>, id: string, role: string): (r: seq<User>)
    ensures |r| == |users|
    ensures forall i | 0 <= i < |users| :: r[i] == if users[i].id == id then users[i].(role := role) else users[i]
  {
    seq(|users|, i requires 0 <= i < |users| => if users[i].id == id then users[i].(role := role) else users[i])
  }

  ghost predicate UniqueUsers(users: seq<User>) {
    forall i, j | 0 <= i < j < |users| :: users[i].id != users[j].id && users[i].email != users[j].email
  }
}
