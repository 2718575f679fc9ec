/** The database-backed location store: one document per user, suppression in process, TTL in the
    queries. A database error leaves the collection as it was. */
module DbStore {
  import opened Grid
  import opened Ordering
  import opened LocationStore
  import opened NearbySpec
  import opened ReservedSlots
  import opened Traversal
  import opened ShardKeyText

  datatype Doc = Doc(shardKey: string, entry: Entry)

  datatype DbState = DbState(docs: map<UserId, Doc>, suppression: map<UserId, Stamp>)

  /** The query filter: `updatedAt` strictly after `now - ttl`. */
  predicate Current(cfg: Config, d: Doc, now: Time) {
    now - d.entry.updatedAt < cfg.ttl
  }

  function DbUpserted(cfg: Config, s: DbState, e: Entry, now: Time, dbOk: bool): DbState {
    if SuppressedBy(cfg, s.suppression, e, now) || !dbOk then s
    else DbState(s.docs[e.userId := Doc(KeyText(KeyOf(cfg, e)), e.(updatedAt := now))],
                 s.suppression[e.userId := Stamp(now, e.at)])
  }

  function DbRemoved(s: DbState, u: UserId, dbOk: bool): DbState {
    DbState(if dbOk then s.docs - {u} else s.docs, s.suppression - {u})
  }

  function DbSwept(cfg: Config, s: DbState, now: Time): DbState {
    s.(docs := map u | u in s.docs && now - s.docs[u].entry.updatedAt <= cfg.ttl :: s.docs[u])
  }

  /** The live documents as entries; a document read back is stamped with the time of reading. */
  function DbView(cfg: Config, docs: map<UserId, Doc>, now: Time): map<UserId, Entry> {
    map u | u in docs && Current(cfg, docs[u], now) :: docs[u].entry.(updatedAt := now)
  }

  /** The live documents filed in the cells a query reaches. */
  function Selected(cfg: Config, q: Query, docs: map<UserId, Doc>, now: Time): map<UserId, Entry> {
    map u | u in DbView(cfg, docs, now) &&
            Intersecting(cfg.geo, q.at, q.radius, KeyOf(cfg, docs[u].entry)) :: DbView(cfg, docs, now)[u]
  }

  ghost predicate DbValid(cfg: Config, s: DbState) {
    forall u :: u in s.docs ==>
      s.docs[u].entry.userId == u && s.docs[u].shardKey == KeyText(KeyOf(cfg, s.docs[u].entry))
  }

  /** Selecting documents by key text selects those filed in the listed cells. */
  lemma TextsSelectCells(cfg: Config, q: Query, docs: map<UserId, Doc>, now: Time, keys: seq<ShardKey>,
                         texts: set<string>)
    requires DbValid(cfg, DbState(docs, map[]))
    requires forall k :: k in keys <==> Intersecting(cfg.geo, q.at, q.radius, k)
    requires texts == set k | k in keys :: KeyText(k)
    ensures Selected(cfg, q, docs, now) ==
            map u | u in docs && docs[u].shardKey in texts && Current(cfg, docs[u], now) ::
                docs[u].entry.(updatedAt := now)
  {
    forall u | u in docs
      ensures docs[u].shardKey in texts <==> Intersecting(cfg.geo, q.at, q.radius, KeyOf(cfg, docs[u].entry))
    {
      if docs[u].shardKey in texts {
        var k :| k in keys && KeyText(k) == docs[u].shardKey;
        KeyTextInjective(k, KeyOf(cfg, docs[u].entry));
      }
    }
  }

  /** Only a push that reached the database holds back the next: one that failed can be made again at
      once, and so can any push of a user who was removed, even if that failed. */
  lemma FailuresAreRetried(cfg: Config, s: DbState, e: Entry, now: Time, dbOk: bool)
    ensures var failed := DbUpserted(cfg, s, e, now, false);
            && failed.docs == s.docs
            && (SuppressedBy(cfg, failed.suppression, e, now) <==> SuppressedBy(cfg, s.suppression, e, now))
    ensures var removed := DbRemoved(s, e.userId, dbOk);
            && !SuppressedBy(cfg, removed.suppression, e, now)
            && (e.userId in removed.docs <==> e.userId in s.docs && !dbOk)
  {
  }

  class DbStore {
    const cfg: Config
    var docs: map<UserId, Doc>
    var suppression: map<UserId, Stamp>

    ghost function Contents(): DbState
      reads this
    {
      DbState(docs, suppression)
    }

    ghost predicate Valid()
      reads this
    {
      DbValid(cfg, Contents())
    }

    constructor (cfg: Config)
      ensures Valid() && this.cfg == cfg && Contents() == DbState(map[], map[])
    {
      this.cfg := cfg;
      docs, suppression := map[], map[];
    }

    /** Reports `Written` even when the database fails. */
    method Upsert(entry: Entry, now: Time, dbOk: bool) returns (result: UpsertResult)
      requires Valid()
      modifies this
      ensures Valid()
      ensures Contents() == DbUpserted(cfg, old(Contents()), entry, now, dbOk)
      ensures result == Skipped <==> SuppressedBy(cfg, old(suppression), entry, now)
    {
      var u := entry.userId;
      if u in suppression {
        var last := suppression[u];
        var moved := cfg.geo.dist(last.at, entry.at) >= cfg.updateDistanceM;
        if !moved && now - last.time < cfg.updateInterval {
          return Skipped;
        }
      }
      var text := KeyText(ShardForCoords(cfg.geo, entry.at));
      if dbOk {
        docs := docs[u := Doc(text, entry.(updatedAt := now))];
        suppression := suppression[u := Stamp(now, entry.at)];
      }
      return Written;
    }

    /** Forgets the stamp even when the database fails. */
    method Remove(u: UserId, dbOk: bool)
      requires Valid()
      modifies this
      ensures Valid()
      ensures Contents() == DbRemoved(old(Contents()), u, dbOk)
    {
      if dbOk {
        docs := docs - {u};
      }
      suppression := suppression - {u};
    }

    method GetUser(u: UserId, now: Time) returns (r: Option<Entry>)
      ensures r == if u in DbView(cfg, docs, now) then Some(DbView(cfg, docs, now)[u]) else None
    {
      if u in docs && docs[u].entry.updatedAt > now - cfg.ttl {
        return Some(docs[u].entry.(updatedAt := now));
      }
      return None;
    }

    method OnlineIds(users: set<UserId>, now: Time) returns (online: set<UserId>)
      ensures online == users * DbView(cfg, docs, now).Keys
    {
      online := set u | u in users && u in docs && docs[u].entry.updatedAt > now - cfg.ttl;
    }

    /** All hits of the selected documents, sorted, with slots reserved for favourites. */
    method Nearby(q: Query, now: Time) returns (res: seq<Hit>)
      requires Valid()
      ensures Answers(q, HitsIn(cfg, q, Selected(cfg, q, docs, now), now), res)
    {
      var keys := IntersectingShards(cfg.geo, q.at, q.radius);
      var texts := set k | k in keys :: KeyText(k);
      TextsSelectCells(cfg, q, docs, now, keys, texts);
      var found := map u | u in docs && docs[u].shardKey in texts && docs[u].entry.updatedAt > now - cfg.ttl ::
                     docs[u].entry.(updatedAt := now);
      assert found == Selected(cfg, q, docs, now);
      var hits := Filter(q, found, now);
      var results := SortBy(hits, ByDist);
      res := ReserveSlots(q, results);
      ReserveSlotsAnswers(q, HitsIn(cfg, q, found, now), HitsIn(cfg, q, found, now), results, 0.0);
    }

    /** The post-filter on distance and exclusion, over documents in whatever order they come. */
    method Filter(q: Query, found: map<UserId, Entry>, now: Time) returns (hits: seq<Hit>)
      requires OwnIds(found) && forall u :: u in found ==> found[u].updatedAt == now
      ensures Lists(hits, HitsIn(cfg, q, found, now))
    {
      hide HitsIn, Lists, StaleAmong, Restrict;
      NothingScanned(cfg, q, found, now);
      hits := [];
      var rest := found.Keys;
      ghost var done := {};
      while rest != {}
        invariant rest <= found.Keys && done == found.Keys - rest
        invariant Lists(hits, HitsIn(cfg, q, Restrict(found, done), now))
      {
        var u :| u in rest;
        ScanUser(cfg, q, found, done, u, now);
        if u !in q.exclude {
          var d := cfg.geo.dist(q.at, found[u].at);
          if d <= q.radius {
            AppendHit(hits, HitsIn(cfg, q, Restrict(found, done), now), Hit(d, found[u]));
            hits := hits + [Hit(d, found[u])];
          }
        }
        rest, done := rest - {u}, done + {u};
      }
      assert done == found.Keys;
      RestrictToAll(found);
    }

    method Sweep(now: Time)
      requires Valid()
      modifies this
      ensures Valid()
      ensures Contents() == DbSwept(cfg, old(Contents()), now)
    {
      docs := map u | u in docs && !(docs[u].entry.updatedAt < now - cfg.ttl) :: docs[u];
    }
  }
}
