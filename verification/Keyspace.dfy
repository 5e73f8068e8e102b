/**
 The one Redis keyspace all components share: four families of string keys, built by concatenation.
 Every key decodes to exactly one family and parameter tuple, although client addresses, roles and
 route templates may themselves contain the separator.
 */
module Keyspace {
  import opened Wrappers

  /** `uuid.UUID.String()`: 36 characters. */
  type Uuid = s: string | |s| == 36 witness NIL

  /** `uuid.Nil` */
  const NIL := "00000000-0000-0000-0000-000000000000"

  datatype Key =
    | RoleBucket(role: string, uid: Uuid)
    | LoginBucket(ip: string)
    | CachedGet(route: string, uid: Uuid)
    | ThreatSummary(target: Uuid)

  const ROLE_PREFIX := "rl:role:"
  const LOGIN_PREFIX := "rl:login:"
  const CACHE_PREFIX := "cache:GET:"
  const THREAT_PREFIX := "threat:summary:"

  function Encode(k: Key): string {
    match k
    case RoleBucket(role, uid) => ROLE_PREFIX + role + ":" + uid
    case LoginBucket(ip) => LOGIN_PREFIX + ip
    case CachedGet(route, uid) => CACHE_PREFIX + route + ":" + uid
    case ThreatSummary(target) => THREAT_PREFIX + target
  }

  predicate StartsWith(s: string, prefix: string) {
    |prefix| <= |s| && s[..|prefix|] == prefix
  }

  /** Splits `name:uuid` at the separator 37 characters from the end. */
  function SplitName(s: string): Option<(string, Uuid)> {
    if |s| >= 37 && s[|s| - 37] == ':' then Some((s[..|s| - 37], s[|s| - 36..])) else None
  }

  function Decode(s: string): Option<Key> {
    if StartsWith(s, ROLE_PREFIX) then
      match SplitName(s[|ROLE_PREFIX|..])
      case Some((role, uid)) => Some(RoleBucket(role, uid))
      case None => None
    else if StartsWith(s, LOGIN_PREFIX) then Some(LoginBucket(s[|LOGIN_PREFIX|..]))
    else if StartsWith(s, CACHE_PREFIX) then
      match SplitName(s[|CACHE_PREFIX|..])
      case Some((route, uid)) => Some(CachedGet(route, uid))
      case None => None
    else if StartsWith(s, THREAT_PREFIX) && |s| == |THREAT_PREFIX| + 36 then Some(ThreatSummary(s[|THREAT_PREFIX|..]))
    else None
  }

  lemma SplitJoined(name: string, uid: Uuid)
    ensures SplitName(name + ":" + uid) == Some((name, uid))
  {
    var s := name + ":" + uid;
    assert s[|s| - 37] == ':' && s[..|s| - 37] == name && s[|s| - 36..] == uid;
  }

  lemma JoinSplit(s: string)
    requires SplitName(s).Some?
    ensures var (name, uid) := SplitName(s).value;
            name + ":" + uid == s
  {
    assert s == s[..|s| - 37] + [s[|s| - 37]] + s[|s| - 36..];
  }

  lemma Prefixed(prefix: string, rest: string)
    ensures StartsWith(prefix + rest, prefix) && (prefix + rest)[|prefix|..] == rest
  {}

  /** Prefixes that differ within both lengths never share a string. */
  lemma PrefixesDiffer(a: string, b: string, i: nat, s: string)
    requires i < |a| && i < |b| && a[i] != b[i] && StartsWith(s, a)
    ensures !StartsWith(s, b)
  {
    assert s[..|a|][i] == s[i];
    assert |b| <= |s| ==> s[..|b|][i] == s[i];
  }

  /** Every key the program builds decodes to exactly the parameters it was built from. */
  lemma KeyRoundTrip(k: Key)
    ensures Decode(Encode(k)) == Some(k)
  {
    var s := Encode(k);
    match k
    case RoleBucket(role, uid) =>
      assert s == ROLE_PREFIX + (role + ":" + uid);
      Prefixed(ROLE_PREFIX, role + ":" + uid);
      SplitJoined(role, uid);
    case LoginBucket(ip) =>
      Prefixed(LOGIN_PREFIX, ip);
      PrefixesDiffer(LOGIN_PREFIX, ROLE_PREFIX, 3, s);
    case CachedGet(route, uid) =>
      assert s == CACHE_PREFIX + (route + ":" + uid);
      Prefixed(CACHE_PREFIX, route + ":" + uid);
      SplitJoined(route, uid);
      PrefixesDiffer(CACHE_PREFIX, ROLE_PREFIX, 0, s);
      PrefixesDiffer(CACHE_PREFIX, LOGIN_PREFIX, 0, s);
    case ThreatSummary(target) =>
      Prefixed(THREAT_PREFIX, target);
      PrefixesDiffer(THREAT_PREFIX, ROLE_PREFIX, 0, s);
      PrefixesDiffer(THREAT_PREFIX, LOGIN_PREFIX, 0, s);
      PrefixesDiffer(THREAT_PREFIX, CACHE_PREFIX, 0, s);
  }

  lemma EncodesWhatDecodes(s: string)
    requires Decode(s).Some?
    ensures Encode(Decode(s).value) == s
  {
    match Decode(s).value
    case RoleBucket(role, uid) =>
      JoinSplit(s[|ROLE_PREFIX|..]);
      assert s == ROLE_PREFIX + s[|ROLE_PREFIX|..];
      assert ROLE_PREFIX + (role + ":" + uid) == ROLE_PREFIX + role + ":" + uid;
    case LoginBucket(ip) =>
    case CachedGet(route, uid) =>
      JoinSplit(s[|CACHE_PREFIX|..]);
      assert s == CACHE_PREFIX + s[|CACHE_PREFIX|..];
      assert CACHE_PREFIX + (route + ":" + uid) == CACHE_PREFIX + route + ":" + uid;
    case ThreatSummary(target) =>
  }

  /** A string decodes to a tuple exactly when it is the one built from it. */
  lemma StringRoundTrip(s: string, k: Key)
    ensures Decode(s) == Some(k) <==> s == Encode(k)
  {
    KeyRoundTrip(k);
    if Decode(s) == Some(k) { EncodesWhatDecodes(s); }
  }

  lemma KeysAreDistinct(a: Key, b: Key)
    ensures Encode(a) == Encode(b) <==> a == b
  {
    KeyRoundTrip(a);
    KeyRoundTrip(b);
  }
}
