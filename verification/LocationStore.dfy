/** The in-memory location store as a value: cells of entries, the user-to-cell index and the
    write-suppression stamps, what each operation makes of them, and the flat map they stand for. */
module LocationStore {
  import opened Grid

  type UserId = string
  type Time = real
  type Duration = r: real | r >= 0.0

  datatype Option<+T> = None | Some(value: T)

  datatype Profile = Profile(isRegistered: bool, sex: Option<string>, nickname: Option<string>,
                             age: Option<int>, accuracy: string)

  datatype Entry = Entry(userId: UserId, at: Point, profile: Profile, updatedAt: Time)

  /** When and where a user's last accepted write was made. */
  datatype Stamp = Stamp(time: Time, at: Point)

  datatype UpsertResult = Written | Skipped

  datatype Config = Config(geo: Geometry, ttl: Duration, updateInterval: Duration, updateDistanceM: real)

  type Shard = map<UserId, Entry>

  datatype State = State(shards: map<ShardKey, Shard>, index: map<UserId, ShardKey>,
                         suppression: map<UserId, Stamp>)

  const EMPTY := State(map[], map[], map[])

  // ----- Operations -----

  function KeyOf(cfg: Config, e: Entry): ShardKey {
    ShardForCoords(cfg.geo, e.at)
  }

  predicate Stale(cfg: Config, e: Entry, now: Time) {
    now - e.updatedAt > cfg.ttl
  }

  predicate SuppressedBy(cfg: Config, suppression: map<UserId, Stamp>, e: Entry, now: Time) {
    && e.userId in suppression
    && cfg.geo.dist(suppression[e.userId].at, e.at) < cfg.updateDistanceM
    && now - suppression[e.userId].time < cfg.updateInterval
  }

  predicate Suppressed(cfg: Config, s: State, e: Entry, now: Time) {
    SuppressedBy(cfg, s.suppression, e, now)
  }

  function Unfile(shards: map<ShardKey, Shard>, key: ShardKey, u: UserId): map<ShardKey, Shard> {
    if key in shards then shards[key := shards[key] - {u}] else shards
  }

  function File(shards: map<ShardKey, Shard>, key: ShardKey, e: Entry): map<ShardKey, Shard> {
    shards[key := (if key in shards then shards[key] else map[])[e.userId := e]]
  }

  function Upserted(cfg: Config, s: State, e: Entry, now: Time): State {
    if Suppressed(cfg, s, e, now) then s
    else
      var (u, newKey) := (e.userId, KeyOf(cfg, e));
      var cleared := if u in s.index && s.index[u] != newKey then Unfile(s.shards, s.index[u], u) else s.shards;
      State(File(cleared, newKey, e), s.index[u := newKey], s.suppression[u := Stamp(now, e.at)])
  }

  function Removed(s: State, u: UserId): State {
    if u !in s.index then s
    else State(Unfile(s.shards, s.index[u], u), s.index - {u}, s.suppression - {u})
  }

  /** A shard without the stale entries, excluded users' aside. */
  function Freshened(cfg: Config, m: map<UserId, Entry>, exclude: set<UserId>, now: Time): map<UserId, Entry> {
    map u | u in m && (u in exclude || !Stale(cfg, m[u], now)) :: m[u]
  }

  /** A query drops the stale entries it meets in the cells it visits, except excluded users',
      and leaves the index and the stamps as they were. */
  function Evicted(cfg: Config, s: State, cells: set<ShardKey>, exclude: set<UserId>, now: Time): State {
    s.(shards := map k | k in s.shards :: if k in cells then Freshened(cfg, s.shards[k], exclude, now) else s.shards[k])
  }

  function StaleUsers(cfg: Config, s: State, now: Time): set<UserId> {
    set k, u | k in s.shards && u in s.shards[k] && Stale(cfg, s.shards[k][u], now) :: u
  }

  function Swept(cfg: Config, s: State, now: Time): State {
    var stale := StaleUsers(cfg, s, now);
    State(map k | k in s.shards && s.shards[k] - stale != map[] :: s.shards[k] - stale,
          s.index - stale, s.suppression - stale)
  }

  // ----- The representation invariant -----

  predicate Placed(cfg: Config, s: State, k: ShardKey, u: UserId)
    requires k in s.shards && u in s.shards[k]
  {
    var e := s.shards[k][u];
    && e.userId == u
    && KeyOf(cfg, e) == k
    && u in s.index && s.index[u] == k
    && u in s.suppression && s.suppression[u].at == e.at
  }

  /** Every filed entry is in the cell of its coordinates, the index points at it and its stamp
      holds its coordinates. The converse fails: a query that evicts leaves index entries behind. */
  ghost predicate Inv(cfg: Config, s: State) {
    && (forall k, u :: k in s.shards && u in s.shards[k] ==> Placed(cfg, s, k, u))
    && s.index.Keys == s.suppression.Keys
  }

  lemma AtMostOneShard(cfg: Config, s: State, k: ShardKey, k': ShardKey, u: UserId)
    requires Inv(cfg, s)
    requires k in s.shards && u in s.shards[k] && k' in s.shards && u in s.shards[k']
    ensures k == k' == KeyOf(cfg, s.shards[k][u])
  {
  }

  lemma UpsertedKeepsInv(cfg: Config, s: State, e: Entry, now: Time)
    requires Inv(cfg, s)
    ensures Inv(cfg, Upserted(cfg, s, e, now))
  {
    var s' := Upserted(cfg, s, e, now);
    forall k, u | k in s'.shards && u in s'.shards[k] ensures Placed(cfg, s', k, u) {
      if u != e.userId {
        assert k in s.shards && u in s.shards[k] && Placed(cfg, s, k, u);
      } else if k != KeyOf(cfg, e) {
        assert k in s.shards && u in s.shards[k] && Placed(cfg, s, k, u);
      }
    }
  }

  lemma RemovedKeepsInv(cfg: Config, s: State, u: UserId)
    requires Inv(cfg, s)
    ensures Inv(cfg, Removed(s, u))
  {
  }

  lemma EvictedKeepsInv(cfg: Config, s: State, cells: set<ShardKey>, exclude: set<UserId>, now: Time)
    requires Inv(cfg, s)
    ensures Inv(cfg, Evicted(cfg, s, cells, exclude, now))
  {
  }

  lemma SweptKeepsInv(cfg: Config, s: State, now: Time)
    requires Inv(cfg, s)
    ensures Inv(cfg, Swept(cfg, s, now))
  {
  }

  // ----- The flat map the store stands for -----

  /** What a look-up through the index finds. */
  function Flat(s: State): map<UserId, Entry> {
    map u | u in s.index && s.index[u] in s.shards && u in s.shards[s.index[u]] :: s.shards[s.index[u]][u]
  }

  function Live(cfg: Config, m: map<UserId, Entry>, t: Time): map<UserId, Entry> {
    map u | u in m && !Stale(cfg, m[u], t) :: m[u]
  }

  lemma FiledIsFlat(cfg: Config, s: State, k: ShardKey, u: UserId)
    requires Inv(cfg, s)
    ensures k in s.shards && u in s.shards[k]
       <==> u in Flat(s) && KeyOf(cfg, Flat(s)[u]) == k
    ensures k in s.shards && u in s.shards[k] ==> Flat(s)[u] == s.shards[k][u]
  {
  }

  /** Filing a user touches no other user's entry in any cell. */
  lemma UpsertAt(cfg: Config, s: State, e: Entry, now: Time, u: UserId)
    requires !Suppressed(cfg, s, e, now)
    ensures var (before, after) := (Flat(s), Flat(Upserted(cfg, s, e, now)));
            && (u in after <==> u in before || u == e.userId)
            && (u in after ==> after[u] == if u == e.userId then e else before[u])
  {
  }

  lemma RemoveAt(s: State, u: UserId, v: UserId)
    ensures var (before, after) := (Flat(s), Flat(Removed(s, u)));
            (v in after <==> v in before && v != u) && (v in after ==> after[v] == before[v])
  {
    if v != u && v in s.index && u in s.index {
      assert Removed(s, u).index[v] == s.index[v];
    }
  }

  lemma UpsertIsFlatInsert(cfg: Config, s: State, e: Entry, now: Time)
    requires Inv(cfg, s)
    ensures Flat(Upserted(cfg, s, e, now)) ==
            if Suppressed(cfg, s, e, now) then Flat(s) else Flat(s)[e.userId := e]
  {
    hide Suppressed, Flat, Inv;
    if !Suppressed(cfg, s, e, now) {
      var (after, want) := (Flat(Upserted(cfg, s, e, now)), Flat(s)[e.userId := e]);
      forall u ensures (u in after <==> u in want) && (u in after ==> after[u] == want[u]) {
        UpsertAt(cfg, s, e, now, u);
      }
    }
  }

  lemma RemoveIsFlatDelete(cfg: Config, s: State, u: UserId)
    requires Inv(cfg, s)
    ensures Flat(Removed(s, u)) == Flat(s) - {u}
  {
    hide Flat, Removed, Inv;
    var (after, want) := (Flat(Removed(s, u)), Flat(s) - {u});
    forall v ensures (v in after <==> v in want) && (v in after ==> after[v] == want[v]) {
      RemoveAt(s, u, v);
    }
  }

  /** Exactly whom an eviction drops from the flat map. */
  lemma EvictedAt(cfg: Config, s: State, cells: set<ShardKey>, exclude: set<UserId>, now: Time, u: UserId)
    requires Inv(cfg, s)
    ensures var (before, after) := (Flat(s), Flat(Evicted(cfg, s, cells, exclude, now)));
            && (u in after ==> u in before && after[u] == before[u])
            && (u in before ==>
                  (u !in after <==> Stale(cfg, before[u], now) && u !in exclude && KeyOf(cfg, before[u]) in cells))
  {
  }

  /** Eviction inside a query drops only stale entries, so it changes no live view, now or later. */
  lemma EvictionIsInvisible(cfg: Config, s: State, cells: set<ShardKey>, exclude: set<UserId>, now: Time, t: Time)
    requires Inv(cfg, s) && now <= t
    ensures Live(cfg, Flat(Evicted(cfg, s, cells, exclude, now)), t) == Live(cfg, Flat(s), t)
  {
    var after := Flat(Evicted(cfg, s, cells, exclude, now));
    forall u ensures (u in after ==> u in Flat(s) && after[u] == Flat(s)[u])
                  && (u in Flat(s) && u !in after ==> Stale(cfg, Flat(s)[u], now))
    {
      EvictedAt(cfg, s, cells, exclude, now, u);
    }
  }

  lemma StaleUsersAreFlat(cfg: Config, s: State, now: Time, u: UserId)
    requires Inv(cfg, s)
    ensures u in StaleUsers(cfg, s, now) <==> u in Flat(s) && Stale(cfg, Flat(s)[u], now)
  {
  }

  lemma SweptAt(cfg: Config, s: State, now: Time, u: UserId)
    requires Inv(cfg, s)
    ensures var (before, after) := (Flat(s), Flat(Swept(cfg, s, now)));
            && (u in after ==> u in before && after[u] == before[u])
            && (u in before ==> (u !in after <==> Stale(cfg, before[u], now)))
  {
    StaleUsersAreFlat(cfg, s, now, u);
    if u in Flat(s) && u !in StaleUsers(cfg, s, now) {
      assert u in s.shards[s.index[u]] - StaleUsers(cfg, s, now);
    }
  }

  predicate DropsExactlyStale(cfg: Config, before: map<UserId, Entry>, after: map<UserId, Entry>, now: Time,
                              u: UserId) {
    && (u in after ==> u in before && after[u] == before[u])
    && (u in before ==> (u !in after <==> Stale(cfg, before[u], now)))
  }

  lemma DroppingStaleIsLive(cfg: Config, before: map<UserId, Entry>, after: map<UserId, Entry>, now: Time)
    requires forall u :: DropsExactlyStale(cfg, before, after, now, u)
    ensures after == Live(cfg, before, now)
  {
    forall u ensures u in after <==> u in Live(cfg, before, now)
             ensures u in after ==> after[u] == before[u]
    {
      assert DropsExactlyStale(cfg, before, after, now, u);
    }
  }

  /** A sweep removes exactly the stale entries from the flat map. */
  lemma SweepIsFlatFilter(cfg: Config, s: State, now: Time)
    requires Inv(cfg, s)
    ensures Flat(Swept(cfg, s, now)) == Live(cfg, Flat(s), now)
  {
    var (before, after) := (Flat(s), Flat(Swept(cfg, s, now)));
    forall u ensures DropsExactlyStale(cfg, before, after, now, u) {
      SweptAt(cfg, s, now, u);
    }
    DroppingStaleIsLive(cfg, before, after, now);
  }

  /** After a sweep no cell is empty and no cell holds a stale entry. */
  lemma SweepLeavesNoWaste(cfg: Config, s: State, now: Time, k: ShardKey)
    requires Inv(cfg, s) && k in Swept(cfg, s, now).shards
    ensures Swept(cfg, s, now).shards[k] != map[]
    ensures forall u :: u in Swept(cfg, s, now).shards[k] ==> !Stale(cfg, Swept(cfg, s, now).shards[k][u], now)
  {
    forall u | u in Swept(cfg, s, now).shards[k]
      ensures !Stale(cfg, Swept(cfg, s, now).shards[k][u], now)
    {
      StaleUsersAreFlat(cfg, s, now, u);
      FiledIsFlat(cfg, s, k, u);
    }
  }

  lemma LiveOfLive(cfg: Config, m: map<UserId, Entry>, now: Time, t: Time)
    requires now <= t
    ensures Live(cfg, Live(cfg, m, now), t) == Live(cfg, m, t)
  {
  }

  /** So a sweep changes no live view, now or later. */
  lemma SweepIsInvisible(cfg: Config, s: State, now: Time, t: Time)
    requires Inv(cfg, s) && now <= t
    ensures Live(cfg, Flat(Swept(cfg, s, now)), t) == Live(cfg, Flat(s), t)
  {
    SweepIsFlatFilter(cfg, s, now);
    LiveOfLive(cfg, Flat(s), now, t);
  }
}
