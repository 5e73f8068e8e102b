/** Threat summaries: served from the cache while they decode, otherwise made from the newest records. */
module ThreatService {
  import opened Wrappers
  import opened Domain
  import opened Keyspace
  import opened RedisStore
  import opened ThreatWindow

  datatype Error = UserNotFound | ModelUnavailable | Internal

  /** How many rows of each table to read, how long a summary is kept, and what wrote it. */
  datatype Config = Config(maxAttempts: int, maxEvents: int, summaryTTL: int, model: string)

  /** The tables a summary is made from. */
  datatype Tables = Tables(users: seq<User>, attempts: seq<Row>, events: seq<Row>)

  /** What the database, the model and Redis do; `assessment` is the model's trimmed answer, if any. */
  datatype World = World(lookupFails: bool, attemptsFail: bool, eventsFail: bool, assessment: Option<string>,
                         generatedAt: int, getAt: int, getLink: Link, setAt: int, setLink: Link)

  /** The summary counts and dates the newest records of the user, up to each limit. */
  ghost predicate Summarizes(report: Report, user: User, tables: Tables, cfg: Config, world: World) {
    && report.id == user.id && report.email == user.email && report.role == user.role
    && Some(report.assessment) == world.assessment && report.model == cfg.model && report.generatedAt == world.generatedAt
    && report.attempts == Limited(|Places(tables.attempts, user.email)|, cfg.maxAttempts)
    && report.events == Limited(|Places(tables.events, user.id)|, cfg.maxEvents)
    && exists attempts, events ::
         && NewestOf(tables.attempts, user.email, cfg.maxAttempts, attempts)
         && NewestOf(tables.events, user.id, cfg.maxEvents, events)
         && IsOldest(report.since, attempts + events)
  }

  /** What a fresh summary comes to, or why there is none. */
  ghost predicate Makes(tables: Tables, cfg: Config, target: Uuid, world: World, r: Result<Report, Error>) {
    var user := FindByID(tables.users, target);
    if world.lookupFails then r == Err(Internal)
    else if user.None? then r == Err(UserNotFound)
    else if world.attemptsFail || world.eventsFail then r == Err(Internal)
    else if world.assessment.None? then r == Err(ModelUnavailable)
    else r.Ok? && Summarizes(r.value, user.value, tables, cfg, world)
  }

  /** The part of `SummarizeUser` after a cache miss, up to storing the summary. */
  method Generate(tables: Tables, cfg: Config, target: Uuid, world: World) returns (r: Result<Report, Error>)
    ensures Makes(tables, cfg, target, world, r)
  {
    if world.lookupFails {
      return Err(Internal);
    }
    var user := FindByID(tables.users, target);
    if user.None? {
      return Err(UserNotFound);
    }
    if world.attemptsFail || world.eventsFail {
      return Err(Internal);
    }
    var attempts := ListRecent(tables.attempts, user.value.email, cfg.maxAttempts);
    var events := ListRecent(tables.events, user.value.id, cfg.maxEvents);
    if world.assessment.None? {
      return Err(ModelUnavailable);
    }
    var since := Earliest(attempts, events);
    return Ok(Report(user.value.id, user.value.email, user.value.role, |attempts|, |events|, since,
                     world.assessment.value, cfg.model, world.generatedAt));
  }

  /** `SummarizeUser`: a hit changes nothing, a failure stores nothing, and a fresh summary is stored as it is returned. */
  method SummarizeUser(rdb: Redis, tables: Tables, cfg: Config, target: Uuid, world: World)
      returns (r: Result<Report, Error>, hit: bool)
    modifies rdb
    ensures var key := Encode(ThreatSummary(target));
            match CachedSummary(old(rdb.db), key, world.getAt, world.getLink)
            case Some(stored) => r == Ok(stored) && hit && rdb.db == old(rdb.db)
            case None =>
              && !hit && Makes(tables, cfg, target, world, r)
              && rdb.db == if r.Ok? && !world.setLink.Down?
                           then SetKeys(old(rdb.db), key, Summary(r.value), cfg.summaryTTL, world.setAt) else old(rdb.db)
  {
    hit := false;
    var key := "threat:summary:" + target;
    var got := rdb.Get(key, world.getAt, world.getLink);
    if got.Ok? && got.value.Some? {
      var cached := DecodeSummary(got.value.value);
      if cached.Some? {
        return Ok(cached.value), true;
      }
    }
    r := Generate(tables, cfg, target, world);
    if r.Ok? {
      var _ := rdb.Set(key, Summary(r.value), cfg.summaryTTL, world.setAt, world.setLink);
    }
  }

  /** A second request within the TTL, the key left alone, is answered from the cache with the same summary. */
  lemma SummaryIsReplayed(db: Keys, target: Uuid, report: Report, ttl: int, at: int, later: int)
    ensures CachedSummary(SetKeys(db, Encode(ThreatSummary(target)), Summary(report), ttl, at),
                          Encode(ThreatSummary(target)), later, Up) ==
            if ttl <= 0 || later <= at + ttl then Some(report) else None
  {
    GetAfterSet(db, Encode(ThreatSummary(target)), Summary(report), ttl, at, "", later);
  }
}
