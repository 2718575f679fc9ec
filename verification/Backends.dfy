/** The two location backends side by side: over one run of events they decide alike and show the
    same users, and on the same entries they answer a query with the same distances. */
module Backends {
  import opened Grid
  import opened LocationStore
  import opened NearbySpec
  import opened Traversal
  import opened StoreRuns
  import opened DbStore

  // ----- One run, both backends -----

  /** Queries evict nothing from the database; its own sweep runs when the other's does. */
  function DbStep(cfg: Config, s: DbState, e: Timed): DbState {
    match e.event
    case Push(entry) => DbUpserted(cfg, s, entry, e.at, true)
    case Delete(u) => DbRemoved(s, u, true)
    case Query(_, _) => s
    case Sweep => DbSwept(cfg, s, e.at)
  }

  function DbExec(cfg: Config, run: seq<Timed>): DbState {
    if run == [] then DbState(map[], map[]) else DbStep(cfg, DbExec(cfg, run[..|run| - 1]), run[|run| - 1])
  }

  /** Per user: a document is the filed entry or an entry past the TTL, and a stamp the other
      backend has dropped is past the TTL too. */
  predicate Matches(cfg: Config, s: State, d: DbState, clock: Time, u: UserId) {
    && (u in Flat(s) ==> u in d.docs && d.docs[u].entry == Flat(s)[u])
    && (u in d.docs && u !in Flat(s) ==> clock - d.docs[u].entry.updatedAt > cfg.ttl)
    && (u in s.suppression ==> u in d.suppression && d.suppression[u] == s.suppression[u])
    && (u in d.suppression && u !in s.suppression ==> clock - d.suppression[u].time > cfg.ttl)
  }

  /** Suppression never outlasts the TTL, or never happens. */
  predicate ShortSuppression(cfg: Config) {
    cfg.updateInterval <= cfg.ttl || cfg.updateDistanceM <= 0.0
  }

  lemma MatchesPush(cfg: Config, s: State, d: DbState, clock: Time, e: Timed, u: UserId)
    requires Good(cfg, s, clock) && clock <= e.at && Stamped(e) && e.event.Push?
    requires Matches(cfg, s, d, clock, u) && Matches(cfg, s, d, clock, e.event.entry.userId)
    requires ShortSuppression(cfg) && Metric(cfg.geo.dist)
    ensures Matches(cfg, Step(cfg, s, e), DbStep(cfg, d, e), e.at, u)
    ensures Suppressed(cfg, s, e.event.entry, e.at) <==> SuppressedBy(cfg, d.suppression, e.event.entry, e.at)
  {
    UpsertIsFlatInsert(cfg, s, e.event.entry, e.at);
  }

  lemma MatchesStep(cfg: Config, s: State, d: DbState, clock: Time, e: Timed, u: UserId)
    requires Good(cfg, s, clock) && clock <= e.at && Stamped(e) && ShortSuppression(cfg) && Metric(cfg.geo.dist)
    requires Matches(cfg, s, d, clock, u)
    requires e.event.Push? ==> Matches(cfg, s, d, clock, e.event.entry.userId)
    ensures Matches(cfg, Step(cfg, s, e), DbStep(cfg, d, e), e.at, u)
  {
    match e.event
    case Push(entry) => MatchesPush(cfg, s, d, clock, e, u);
    case Delete(v) => RemoveIsFlatDelete(cfg, s, v);
    case Query(cells, exclude) => EvictedAt(cfg, s, cells, exclude, e.at, u);
    case Sweep =>
      SweepIsFlatFilter(cfg, s, e.at);
      StaleUsersAreFlat(cfg, s, e.at, u);
      assert StampFits(cfg, s, clock, u);
  }

  lemma {:induction false} RunsMatch(cfg: Config, run: seq<Timed>)
    requires Chronological(run) && ShortSuppression(cfg) && Metric(cfg.geo.dist)
    ensures forall u :: Matches(cfg, Exec(cfg, run), DbExec(cfg, run), Clock(run), u)
  {
    if run != [] {
      var (init, e) := (run[..|run| - 1], run[|run| - 1]);
      var (s, d) := (Exec(cfg, init), DbExec(cfg, init));
      RunsMatch(cfg, init);
      EveryRunIsGood(cfg, init);
      var clock := if init == [] then e.at else Clock(init);
      assert Good(cfg, s, clock);
      forall u ensures Matches(cfg, Exec(cfg, run), DbExec(cfg, run), e.at, u) {
        assert Matches(cfg, s, d, clock, u);
        assert e.event.Push? ==> Matches(cfg, s, d, clock, e.event.entry.userId);
        MatchesStep(cfg, s, d, clock, e, u);
      }
    }
  }

  /** At time `t` both show the user or neither does, and with the same position and profile; at an
      age of exactly the TTL only the in-memory store shows it. */
  predicate ShownAlike(cfg: Config, s: State, d: DbState, u: UserId, t: Time) {
    var (live, view) := (Live(cfg, Flat(s), t), DbView(cfg, d.docs, t));
    && (u in view ==> u in live && view[u] == live[u].(updatedAt := t))
    && (u in live ==> (u !in view <==> t - live[u].updatedAt == cfg.ttl))
  }

  ghost predicate BackendsShowTheSame(cfg: Config) {
    forall run, u, t :: Chronological(run) && (run != [] ==> Clock(run) <= t) ==>
      ShownAlike(cfg, Exec(cfg, run), DbExec(cfg, run), u, t)
  }

  ghost predicate BackendsDecideAlike(cfg: Config) {
    forall run, e :: Chronological(run + [e]) && e.event.Push? ==>
      (Suppressed(cfg, Exec(cfg, run), e.event.entry, e.at)
       <==> SuppressedBy(cfg, DbExec(cfg, run).suppression, e.event.entry, e.at))
  }

  /** The backends accept and skip the same pushes of every run exactly when suppression is no
      longer than the TTL, or never happens: a sweep forgets stamps in one and not in the other. */
  lemma BackendsDecideAlikeIff(cfg: Config)
    requires Metric(cfg.geo.dist)
    ensures BackendsDecideAlike(cfg) <==> ShortSuppression(cfg)
  {
    if ShortSuppression(cfg) {
      forall run, e | Chronological(run + [e]) && e.event.Push?
        ensures Suppressed(cfg, Exec(cfg, run), e.event.entry, e.at)
           <==> SuppressedBy(cfg, DbExec(cfg, run).suppression, e.event.entry, e.at)
      {
        DecidedAlike(cfg, run, e);
      }
    } else {
      var run, e := SweptStampDiffers(cfg);
    }
  }

  lemma DecidedAlike(cfg: Config, run: seq<Timed>, e: Timed)
    requires Chronological(run + [e]) && e.event.Push? && ShortSuppression(cfg) && Metric(cfg.geo.dist)
    ensures Suppressed(cfg, Exec(cfg, run), e.event.entry, e.at)
       <==> SuppressedBy(cfg, DbExec(cfg, run).suppression, e.event.entry, e.at)
  {
    Extend(cfg, run, e);
    RunsMatch(cfg, run);
    EveryRunIsGood(cfg, run);
    assert Matches(cfg, Exec(cfg, run), DbExec(cfg, run), Clock(run), e.event.entry.userId);
  }

  /** After every run the backends show the same users exactly under that condition, or with a TTL of
      zero, under which the database shows nobody at all. */
  lemma BackendsShowTheSameIff(cfg: Config)
    requires Metric(cfg.geo.dist)
    ensures BackendsShowTheSame(cfg) <==> ShortSuppression(cfg) || cfg.ttl == 0.0
  {
    if ShortSuppression(cfg) || cfg.ttl == 0.0 {
      forall run, u, t | Chronological(run) && (run != [] ==> Clock(run) <= t)
        ensures ShownAlike(cfg, Exec(cfg, run), DbExec(cfg, run), u, t)
      {
        if ShortSuppression(cfg) {
          RunShownAlike(cfg, run, u, t);
        } else {
          ZeroTtlShowsNobody(cfg, run, u, t);
        }
      }
    } else {
      var run, e := SweptStampDiffers(cfg);
      assert !ShownAlike(cfg, Exec(cfg, run + [e]), DbExec(cfg, run + [e]), e.event.entry.userId, e.at);
    }
  }

  lemma RunShownAlike(cfg: Config, run: seq<Timed>, u: UserId, t: Time)
    requires Chronological(run) && ShortSuppression(cfg) && Metric(cfg.geo.dist) && (run != [] ==> Clock(run) <= t)
    ensures ShownAlike(cfg, Exec(cfg, run), DbExec(cfg, run), u, t)
  {
    if run != [] {
      RunsMatch(cfg, run);
      assert Matches(cfg, Exec(cfg, run), DbExec(cfg, run), Clock(run), u);
    }
  }

  lemma ZeroTtlShowsNobody(cfg: Config, run: seq<Timed>, u: UserId, t: Time)
    requires Chronological(run) && cfg.ttl == 0.0 && (run != [] ==> Clock(run) <= t)
    ensures ShownAlike(cfg, Exec(cfg, run), DbExec(cfg, run), u, t)
  {
    NobodyFromTheFuture(cfg, run, u);
    EveryRunIsGood(cfg, run);
    if run != [] && u in Flat(Exec(cfg, run)) {
      FlatUsersAreStamped(cfg, Exec(cfg, run), u);
      assert StampFits(cfg, Exec(cfg, run), Clock(run), u);
    }
  }

  lemma {:induction false} NobodyFromTheFuture(cfg: Config, run: seq<Timed>, u: UserId)
    requires Chronological(run)
    ensures run == [] ==> u !in DbExec(cfg, run).docs
    ensures run != [] && u in DbExec(cfg, run).docs ==> DbExec(cfg, run).docs[u].entry.updatedAt <= Clock(run)
  {
    if run != [] {
      NobodyFromTheFuture(cfg, run[..|run| - 1], u);
    }
  }

  /** Push, sweep past the TTL, push again from the same place: the database still holds a stamp and
      skips the push, the in-memory store has forgotten it and files the user again. */
  lemma SweptStampDiffers(cfg: Config) returns (run: seq<Timed>, e: Timed)
    requires Metric(cfg.geo.dist) && !ShortSuppression(cfg)
    ensures Chronological(run + [e]) && e.event.Push?
    ensures !Suppressed(cfg, Exec(cfg, run), e.event.entry, e.at)
    ensures SuppressedBy(cfg, DbExec(cfg, run).suppression, e.event.entry, e.at)
    ensures var (u, after) := (e.event.entry.userId, Flat(Exec(cfg, run + [e])));
            u in after && after[u].updatedAt == e.at == Clock(run + [e]) && u !in DbExec(cfg, run + [e]).docs
  {
    var t := (cfg.ttl + cfg.updateInterval) / 2.0;
    var first := Entry("u", Point(0.0, 0.0), Profile(true, None, None, None, "gps"), 0.0);
    var (a, b) := (Timed(0.0, Push(first)), Timed(t, Sweep));
    run, e := [a] + [b], Timed(t, Push(first.(updatedAt := t)));
    Extend(cfg, [], a);
    Extend(cfg, [a], b);
    Extend(cfg, run, e);
    assert [] + [a] == [a] && [a][..0] == [] && run[..1] == [a] && (run + [e])[..2] == run;
    ChronologicalSnoc([], a);
    ChronologicalSnoc([a], b);
    ChronologicalSnoc(run, e);
    AfterSweep(cfg, first, t);
    UpsertIsFlatInsert(cfg, Exec(cfg, run), e.event.entry, t);
    assert DbExec(cfg, [a]) == DbStep(cfg, DbExec(cfg, []), a);
    assert DbExec(cfg, run + [e]) == DbStep(cfg, DbExec(cfg, run), e);
  }

  // ----- One query, both backends -----

  function AsReadBack(h: Hit, now: Time): Hit {
    h.(entry := h.entry.(updatedAt := now))
  }

  function ReadBack(hits: set<Hit>, now: Time): set<Hit> {
    set h | h in hits :: AsReadBack(h, now)
  }

  ghost predicate UniqueIds(hits: set<Hit>) {
    forall h, h' :: h in hits && h' in hits && h.entry.userId == h'.entry.userId ==> h == h'
  }

  lemma {:induction false} ReadBackSize(hits: set<Hit>, now: Time)
    requires UniqueIds(hits)
    ensures |ReadBack(hits, now)| == |hits|
    decreases |hits|
  {
    if h :| h in hits {
      var rest := hits - {h};
      ReadBackSize(rest, now);
      assert ReadBack(hits, now) == ReadBack(rest, now) + {AsReadBack(h, now)};
      forall h' | h' in rest ensures AsReadBack(h', now) != AsReadBack(h, now) {
        assert h'.entry.userId != h.entry.userId;
      }
    } else {
      assert ReadBack(hits, now) == {};
    }
  }

  /** Reading documents back changes no count of an answer. */
  lemma ReadBackKeepsCounts(q: Query, pool: set<Hit>, now: Time, d: real)
    requires UniqueIds(pool)
    ensures CountWithin(q, ReadBack(pool, now), d) == CountWithin(q, pool, d)
  {
    assert Favs(q, ReadBack(pool, now)) == ReadBack(Favs(q, pool), now);
    assert Others(q, ReadBack(pool, now)) == ReadBack(Others(q, pool), now);
    assert AtMost(ReadBack(Favs(q, pool), now), d) == ReadBack(AtMost(Favs(q, pool), d), now);
    assert AtMost(ReadBack(Others(q, pool), now), d) == ReadBack(AtMost(Others(q, pool), d), now);
    ReadBackSize(Favs(q, pool), now);
    ReadBackSize(Others(q, pool), now);
    ReadBackSize(AtMost(Favs(q, pool), d), now);
    ReadBackSize(AtMost(Others(q, pool), d), now);
  }

  /** The documents hold the live entries, none of them aged exactly the TTL. */
  ghost predicate SameEntries(cfg: Config, m: map<UserId, Entry>, docs: map<UserId, Doc>, now: Time) {
    forall u ::
      && (u in m && now - m[u].updatedAt <= cfg.ttl ==>
            now - m[u].updatedAt != cfg.ttl && u in docs && docs[u].entry == m[u])
      && (u in docs && Current(cfg, docs[u], now) ==> u in m && docs[u].entry == m[u])
  }

  /** The hits filed in enumerated cells. */
  function EnumeratedHits(cfg: Config, q: Query, m: map<UserId, Entry>, now: Time): set<Hit> {
    set h | h in HitsIn(cfg, q, m, now) && Intersecting(cfg.geo, q.at, q.radius, KeyOf(cfg, h.entry))
  }

  /** Every favourite in range is filed in an enumerated cell. */
  ghost predicate FavouritesEnumerated(cfg: Config, q: Query, m: map<UserId, Entry>, now: Time) {
    forall h :: h in Favs(q, HitsIn(cfg, q, m, now)) ==> Intersecting(cfg.geo, q.at, q.radius, KeyOf(cfg, h.entry))
  }

  /** The database finds what is filed in enumerated cells and nothing else. */
  lemma PoolsCorrespond(cfg: Config, q: Query, m: map<UserId, Entry>, docs: map<UserId, Doc>, now: Time)
    requires OwnIds(m) && SameEntries(cfg, m, docs, now)
    ensures UniqueIds(EnumeratedHits(cfg, q, m, now))
    ensures HitsIn(cfg, q, Selected(cfg, q, docs, now), now) == ReadBack(EnumeratedHits(cfg, q, m, now), now)
  {
    var (view, pool) := (Selected(cfg, q, docs, now), EnumeratedHits(cfg, q, m, now));
    forall h | h in HitsIn(cfg, q, view, now) ensures h in ReadBack(pool, now) {
      var u :| u in view && Wanted(cfg, q, u, view[u], now) && h == HitOf(cfg, q, view[u]);
      assert HitOf(cfg, q, m[u]) in HitsIn(cfg, q, m, now);
      assert h == AsReadBack(HitOf(cfg, q, m[u]), now);
    }
    forall h | h in pool ensures AsReadBack(h, now) in HitsIn(cfg, q, view, now) {
      var u :| u in m && Wanted(cfg, q, u, m[u], now) && h == HitOf(cfg, q, m[u]);
      assert u in view && AsReadBack(h, now) == HitOf(cfg, q, view[u]);
    }
  }

  function FavouriteIds(q: Query, hits: set<Hit>): set<UserId> {
    set h | h in Favs(q, hits) :: h.entry.userId
  }

  lemma ReadBackKeepsFavourites(q: Query, pool: set<Hit>, now: Time)
    ensures FavouriteIds(q, ReadBack(pool, now)) == FavouriteIds(q, pool)
  {
    forall h | h in Favs(q, pool) ensures AsReadBack(h, now) in Favs(q, ReadBack(pool, now)) {}
  }

  /** An answer holds exactly the favourites of its pool. */
  lemma FavouritesAnswered(q: Query, pool: set<Hit>, res: seq<Hit>)
    requires Answers(q, pool, res)
    ensures FavouriteIds(q, Elements(res)) == FavouriteIds(q, pool)
  {
    assert Favs(q, Elements(res)) == Favs(q, pool);
  }

  lemma SearchedIsEnumerated(cfg: Config, q: Query, m: map<UserId, Entry>, now: Time)
    requires FavouritesEnumerated(cfg, q, m, now)
    ensures SearchPool(cfg, q, m, now) == EnumeratedHits(cfg, q, m, now)
  {
  }

  /** With the favourites in range filed in enumerated cells the two backends answer alike. */
  lemma BackendsAnswerAlike(cfg: Config, q: Query, m: map<UserId, Entry>, docs: map<UserId, Doc>, now: Time,
                            mem: seq<Hit>, db: seq<Hit>)
    requires OwnIds(m) && SameEntries(cfg, m, docs, now) && FavouritesEnumerated(cfg, q, m, now)
    requires Answers(q, SearchPool(cfg, q, m, now), mem)
    requires Answers(q, HitsIn(cfg, q, Selected(cfg, q, docs, now), now), db)
    ensures Distances(mem) == Distances(db) && FavouriteIds(q, Elements(mem)) == FavouriteIds(q, Elements(db))
  {
    hide SearchPool, EnumeratedHits, HitsIn, Selected, Answers, FavouriteIds, CountWithin, SameEntries,
        FavouritesEnumerated;
    var pool := SearchPool(cfg, q, m, now);
    SearchedIsEnumerated(cfg, q, m, now);
    PoolsCorrespond(cfg, q, m, docs, now);
    forall d ensures CountWithin(q, pool, d) == CountWithin(q, ReadBack(pool, now), d) {
      ReadBackKeepsCounts(q, pool, now, d);
    }
    AnswersAgree(q, pool, mem, ReadBack(pool, now), db);
    FavouritesAnswered(q, pool, mem);
    FavouritesAnswered(q, ReadBack(pool, now), db);
    ReadBackKeepsFavourites(q, pool, now);
  }

  lemma MissedFavouriteShows(cfg: Config, q: Query, m: map<UserId, Entry>, docs: map<UserId, Doc>, now: Time,
                             found: set<Hit>, mem: seq<Hit>, db: seq<Hit>)
    requires OwnIds(m) && SameEntries(cfg, m, docs, now) && !FavouritesEnumerated(cfg, q, m, now)
    requires Favs(q, found) == Favs(q, SearchPool(cfg, q, m, now)) && Answers(q, found, mem)
    requires Answers(q, HitsIn(cfg, q, Selected(cfg, q, docs, now), now), db)
    ensures FavouriteIds(q, Elements(mem)) != FavouriteIds(q, Elements(db))
  {
    MissedFavourite(cfg, q, m, now);
    PoolsCorrespond(cfg, q, m, docs, now);
    hide SearchPool, EnumeratedHits, HitsIn, Selected, Answers, SameEntries, FavouritesEnumerated;
    FavouritesAnswered(q, found, mem);
    FavouritesAnswered(q, HitsIn(cfg, q, Selected(cfg, q, docs, now), now), db);
    ReadBackKeepsFavourites(q, EnumeratedHits(cfg, q, m, now), now);
  }

  /** Equal distances make what an early exit returned an answer over everything enumerated. */
  lemma SameDistancesMissNothing(cfg: Config, q: Query, m: map<UserId, Entry>, docs: map<UserId, Doc>, now: Time,
                                 found: set<Hit>, mem: seq<Hit>, db: seq<Hit>)
    requires OwnIds(m) && SameEntries(cfg, m, docs, now) && FavouritesEnumerated(cfg, q, m, now)
    requires var pool := SearchPool(cfg, q, m, now); found <= pool && Favs(q, found) == Favs(q, pool)
    requires Answers(q, found, mem) && Answers(q, HitsIn(cfg, q, Selected(cfg, q, docs, now), now), db)
    requires Distances(mem) == Distances(db)
    ensures Answers(q, SearchPool(cfg, q, m, now), mem)
  {
    hide SearchPool, EnumeratedHits, HitsIn, Selected, Answers, CountWithin, SameEntries, FavouritesEnumerated;
    var pool := SearchPool(cfg, q, m, now);
    SearchedIsEnumerated(cfg, q, m, now);
    PoolsCorrespond(cfg, q, m, docs, now);
    forall d ensures CountWithin(q, ReadBack(pool, now), d) == CountWithin(q, pool, d) {
      ReadBackKeepsCounts(q, pool, now, d);
    }
    ReadBackKeepsSizes(q, pool, now);
    SameDistancesAnswer(q, found, pool, mem, ReadBack(pool, now), db);
  }

  lemma ReadBackKeepsSizes(q: Query, pool: set<Hit>, now: Time)
    requires UniqueIds(pool)
    ensures |Favs(q, ReadBack(pool, now))| == |Favs(q, pool)| && |Others(q, ReadBack(pool, now))| == |Others(q, pool)|
  {
    assert Favs(q, ReadBack(pool, now)) == ReadBack(Favs(q, pool), now);
    assert Others(q, ReadBack(pool, now)) == ReadBack(Others(q, pool), now);
    ReadBackSize(Favs(q, pool), now);
    ReadBackSize(Others(q, pool), now);
  }

  /** What the early exit left out of the enumerated cells, if anything, is crowded out. */
  ghost predicate ExitMissesNothing(cfg: Config, q: Query, s: State, cells: set<ShardKey>, now: Time) {
    MissesNothing(q, FoundHits(cfg, q, s, cells, now), SearchPool(cfg, q, Flat(s), now))
  }

  lemma FoundIsSearched(cfg: Config, q: Query, s: State, cells: set<ShardKey>, now: Time, res: seq<Hit>)
    requires Searched(cfg, q, s, cells, now, res)
    ensures var (found, pool) := (FoundHits(cfg, q, s, cells, now), SearchPool(cfg, q, Flat(s), now));
            found <= pool && Favs(q, found) == Favs(q, pool) && Answers(q, found, res)
  {
    hide Answers, Intersecting, Flat, HitsIn;
  }

  /** On any grid, for any limit and wherever the search stopped, the two backends give the same distances
      and the same favourites exactly if the favourites in range are filed in enumerated cells, since one
      looks them up by id as well, and the early exit misses nothing, since the other never exits early. */
  lemma BackendsAnswerAlikeIff(cfg: Config, q: Query, s: State, cells: set<ShardKey>, docs: map<UserId, Doc>, now: Time,
                               mem: seq<Hit>, db: seq<Hit>)
    requires OwnIds(Flat(s)) && SameEntries(cfg, Flat(s), docs, now)
    requires Searched(cfg, q, s, cells, now, mem)
    requires Answers(q, HitsIn(cfg, q, Selected(cfg, q, docs, now), now), db)
    ensures Distances(mem) == Distances(db) && FavouriteIds(q, Elements(mem)) == FavouriteIds(q, Elements(db))
       <==> FavouritesEnumerated(cfg, q, Flat(s), now) && ExitMissesNothing(cfg, q, s, cells, now)
  {
    FoundIsSearched(cfg, q, s, cells, now, mem);
    hide SearchPool, FoundHits, HitsIn, Selected, Answers, FavouriteIds, SameEntries, FavouritesEnumerated, Searched,
         MissesNothing, Flat;
    var (m, found, pool) := (Flat(s), FoundHits(cfg, q, s, cells, now), SearchPool(cfg, q, Flat(s), now));
    PartAnswersIff(q, found, pool, mem);
    if !FavouritesEnumerated(cfg, q, m, now) {
      MissedFavouriteShows(cfg, q, m, docs, now, found, mem, db);
    } else if Answers(q, pool, mem) {
      BackendsAnswerAlike(cfg, q, m, docs, now, mem, db);
    } else if Distances(mem) == Distances(db) {
      SameDistancesMissNothing(cfg, q, m, docs, now, found, mem, db);
    }
  }

  /** Without a limit, or where cells bound their hits, the early exit misses nothing. */
  lemma BoundedExitMissesNothing(cfg: Config, q: Query, s: State, cells: set<ShardKey>, now: Time, mem: seq<Hit>)
    requires Searched(cfg, q, s, cells, now, mem)
    requires q.limit == 0 || CellsBoundHits(cfg, q, Flat(s), now)
    ensures ExitMissesNothing(cfg, q, s, cells, now)
  {
    FoundIsSearched(cfg, q, s, cells, now, mem);
    StoppingLosesNothing(cfg, q, s, cells, now, mem);
    hide SearchPool, FoundHits, Answers, Searched, MissesNothing, Flat;
    PartAnswersIff(q, FoundHits(cfg, q, s, cells, now), SearchPool(cfg, q, Flat(s), now), mem);
  }

  /** On a planar grid the two always give the same. */
  lemma PlanarAnswersAlike(cfg: Config, q: Query, s: State, cells: set<ShardKey>, docs: map<UserId, Doc>, now: Time,
                           mem: seq<Hit>, db: seq<Hit>)
    requires Planar(cfg.geo) && OwnIds(Flat(s)) && SameEntries(cfg, Flat(s), docs, now)
    requires Searched(cfg, q, s, cells, now, mem)
    requires Answers(q, HitsIn(cfg, q, Selected(cfg, q, docs, now), now), db)
    ensures Distances(mem) == Distances(db) && FavouriteIds(q, Elements(mem)) == FavouriteIds(q, Elements(db))
  {
    PlanarSearchIsBruteForce(cfg, q, Flat(s), now);
    forall h | h in Favs(q, HitsIn(cfg, q, Flat(s), now))
      ensures Intersecting(cfg.geo, q.at, q.radius, KeyOf(cfg, h.entry))
    {
      CoversEveryPointInRadius(cfg.geo, q.at, q.radius, h.entry.at);
    }
    hide HitsIn, Selected, Answers, SameEntries, Searched, Planar, CellsBoundHits, Intersecting, Flat, FavouriteIds;
    BoundedExitMissesNothing(cfg, q, s, cells, now, mem);
    BackendsAnswerAlikeIff(cfg, q, s, cells, docs, now, mem, db);
  }

  lemma MissedFavourite(cfg: Config, q: Query, m: map<UserId, Entry>, now: Time)
    requires OwnIds(m) && !FavouritesEnumerated(cfg, q, m, now)
    ensures FavouriteIds(q, EnumeratedHits(cfg, q, m, now)) != FavouriteIds(q, SearchPool(cfg, q, m, now))
    ensures |EnumeratedHits(cfg, q, m, now)| < |SearchPool(cfg, q, m, now)|
  {
    var (all, found) := (SearchPool(cfg, q, m, now), EnumeratedHits(cfg, q, m, now));
    var h :| h in Favs(q, HitsIn(cfg, q, m, now)) && !Intersecting(cfg.geo, q.at, q.radius, KeyOf(cfg, h.entry));
    forall h' | h' in found ensures h' in all - {h} && h'.entry.userId != h.entry.userId {
      if h'.entry.userId == h.entry.userId {
        SameUserSameHit(cfg, q, m, now, h, h');
      }
    }
    SubsetSize(found, all - {h});
    assert h.entry.userId in FavouriteIds(q, all);
  }

  lemma SameUserSameHit(cfg: Config, q: Query, m: map<UserId, Entry>, now: Time, h: Hit, h': Hit)
    requires OwnIds(m) && h in HitsIn(cfg, q, m, now) && h' in HitsIn(cfg, q, m, now)
    requires h.entry.userId == h'.entry.userId
    ensures h == h'
  {
  }

  /** Without a limit the distances alone tell. */
  lemma UnlimitedAnswersAlikeIff(cfg: Config, q: Query, s: State, cells: set<ShardKey>, docs: map<UserId, Doc>,
                                 now: Time, mem: seq<Hit>, db: seq<Hit>)
    requires OwnIds(Flat(s)) && SameEntries(cfg, Flat(s), docs, now) && q.limit == 0
    requires Searched(cfg, q, s, cells, now, mem)
    requires Answers(q, HitsIn(cfg, q, Selected(cfg, q, docs, now), now), db)
    ensures Distances(mem) == Distances(db) <==> FavouritesEnumerated(cfg, q, Flat(s), now)
  {
    hide SearchPool, EnumeratedHits, HitsIn, Selected, Answers, FavouriteIds, SameEntries, FavouritesEnumerated;
    hide Searched, Flat;
    var m := Flat(s);
    StoppingLosesNothing(cfg, q, s, cells, now, mem);
    if FavouritesEnumerated(cfg, q, m, now) {
      BackendsAnswerAlike(cfg, q, m, docs, now, mem, db);
    } else {
      MissedFavourite(cfg, q, m, now);
      PoolsCorrespond(cfg, q, m, docs, now);
      ReadBackSize(EnumeratedHits(cfg, q, m, now), now);
      UnlimitedLength(q, SearchPool(cfg, q, m, now), mem);
      UnlimitedLength(q, ReadBack(EnumeratedHits(cfg, q, m, now), now), db);
      assert |Distances(mem)| > |Distances(db)|;
    }
  }

  lemma UnlimitedLength(q: Query, pool: set<Hit>, res: seq<Hit>)
    requires Answers(q, pool, res) && q.limit == 0
    ensures |res| == |pool|
  {
    var chosen := Elements(res);
    ListsSize(res, chosen);
    assert Favs(q, chosen) == Favs(q, pool);
    Split(q, chosen);
    Split(q, pool);
  }

  /** After every run the documents hold the live entries exactly if none is aged exactly the TTL. */
  lemma SameEntriesAfterRunIff(cfg: Config, run: seq<Timed>, now: Time)
    requires Chronological(run) && ShortSuppression(cfg) && Metric(cfg.geo.dist) && (run != [] ==> Clock(run) <= now)
    ensures var m := Flat(Exec(cfg, run));
            SameEntries(cfg, m, DbExec(cfg, run).docs, now) <==> forall u :: u in m ==> now - m[u].updatedAt != cfg.ttl
  {
    if run != [] {
      hide Exec, DbExec, Chronological, Flat;
      RunsMatch(cfg, run);
      var (m, docs) := (Flat(Exec(cfg, run)), DbExec(cfg, run).docs);
      assert forall u :: Matches(cfg, Exec(cfg, run), DbExec(cfg, run), Clock(run), u);
      if forall u :: u in m ==> now - m[u].updatedAt != cfg.ttl {
        forall u ensures u in m && now - m[u].updatedAt <= cfg.ttl ==>
                           now - m[u].updatedAt != cfg.ttl && u in docs && docs[u].entry == m[u]
                 ensures u in docs && Current(cfg, docs[u], now) ==> u in m && docs[u].entry == m[u]
        {
          assert Matches(cfg, Exec(cfg, run), DbExec(cfg, run), Clock(run), u);
        }
      }
    }
  }

  /** So after every run with none aged exactly that, whatever query both answer, they give the same
      distances and the same favourites exactly under that condition. */
  lemma QueriesAgreeAfterRunIff(cfg: Config, run: seq<Timed>, q: NearbySpec.Query, cells: set<ShardKey>, now: Time,
                                mem: seq<Hit>, db: seq<Hit>)
    requires Chronological(run) && ShortSuppression(cfg) && Metric(cfg.geo.dist) && (run != [] ==> Clock(run) <= now)
    requires var m := Flat(Exec(cfg, run)); forall u :: u in m ==> now - m[u].updatedAt != cfg.ttl
    requires Searched(cfg, q, Exec(cfg, run), cells, now, mem)
    requires Answers(q, HitsIn(cfg, q, Selected(cfg, q, DbExec(cfg, run).docs, now), now), db)
    ensures Distances(mem) == Distances(db) && FavouriteIds(q, Elements(mem)) == FavouriteIds(q, Elements(db))
       <==>
            && FavouritesEnumerated(cfg, q, Flat(Exec(cfg, run)), now)
            && ExitMissesNothing(cfg, q, Exec(cfg, run), cells, now)
  {
    hide Exec, DbExec, Chronological, Answers, FavouriteIds, FavouritesEnumerated, SearchPool, Selected, HitsIn;
    hide SameEntries, Searched, ExitMissesNothing;
    SameEntriesAfterRunIff(cfg, run, now);
    EveryRunIsGood(cfg, run);
    FlatHasOwnIds(cfg, Exec(cfg, run));
    BackendsAnswerAlikeIff(cfg, q, Exec(cfg, run), cells, DbExec(cfg, run).docs, now, mem, db);
  }

  /** One push and one query over both backends: with the cosine taken at two latitudes a favourite
      557 m away is filed outside the enumerated cells, and only the in-memory store finds it. */
  lemma FavouriteFoundOnce() returns (cfg: Config, run: seq<Timed>, q: Query, now: Time)
    ensures Chronological(run) && Clock(run) <= now
    ensures var (m, docs) := (Flat(Exec(cfg, run)), DbExec(cfg, run).docs);
            && OwnIds(m) && SameEntries(cfg, m, docs, now)
            && (exists h :: SearchPool(cfg, q, m, now) == {h} && IsFav(q, h))
            && HitsIn(cfg, q, Selected(cfg, q, docs, now), now) == {}
  {
    var g, at, p, radius := TwoLatitudesLoseAPoint();
    cfg := Config(g, 60.0, 10.0, 5.0);
    var e := Entry("u", p, Profile(true, None, None, None, "gps"), 0.0);
    var push := Timed(0.0, Push(e));
    run, q, now := [push], NearbySpec.Query.Query(at, radius, 0, {}, {"u"}), 1.0;
    Extend(cfg, [], push);
    ChronologicalSnoc([], push);
    assert [] + [push] == run && run[..0] == [];
    UpsertIsFlatInsert(cfg, EMPTY, e, 0.0);
    var m := Flat(Exec(cfg, run));
    assert m == map["u" := e];
    assert DbExec(cfg, run) == DbStep(cfg, DbExec(cfg, []), push);
    var h := HitOf(cfg, q, e);
    assert HitsIn(cfg, q, m, now) == {h} by {
      assert Wanted(cfg, q, "u", e, now);
    }
    assert SearchPool(cfg, q, m, now) == {h};
    PoolsCorrespond(cfg, q, m, DbExec(cfg, run).docs, now);
    assert EnumeratedHits(cfg, q, m, now) == {};
  }

  // ----- An early exit that loses the nearest user -----

  /** The cosine as it falls near 60 degrees, and the metric at the query's latitude. */
  const NEAR_SIXTY := Geometry(1113.2, lat => 0.5 - 0.015 * (lat - 60.005), MaxNorm(0.5))

  const EXIT_CONFIG := Config(NEAR_SIXTY, 60.0, 10.0, 5.0)

  const EXIT_QUERY := NearbySpec.Query.Query(Point(60.005, 170.01), 1000.0, 1, {}, {})

  function Someone(id: UserId, at: Point): Entry {
    Entry(id, at, Profile(true, None, None, None, "gps"), 0.0)
  }

  /** One user 501 m east in the query's own cell, one 445 m north filed a column to the west. */
  const EAST := Someone("east", Point(60.005, 170.019))
  const NORTH := Someone("north", Point(60.009, 170.01))

  const HOME := ShardKey(6000, 8500)

  lemma CellsNearSixty()
    ensures KeyOf(EXIT_CONFIG, EAST) == HOME && KeyOf(EXIT_CONFIG, NORTH) == ShardKey(6000, 8499)
    ensures CellLat(NEAR_SIXTY) == 0.01 && CellLon(NEAR_SIXTY, 60.005) == 0.02
  {
    var g := NEAR_SIXTY;
    assert CellLat(g) == 0.01;
    assert LonScale(g, 60.005) == 0.5 && LonScale(g, 60.009) == 0.49994;
    assert CellLon(g, 60.005) == 0.02;
    assert CellLon(g, 60.009) == 1113.2 / (111320.0 * 0.49994);
    assert CellIndex(60.005, 0.01) == 6000 && CellIndex(60.009, 0.01) == 6000;
    assert CellIndex(170.019, 0.02) == 8500;
    assert 8499.0 <= 170.01 / CellLon(g, 60.009) < 8500.0;
  }

  lemma DistancesNearSixty()
    ensures NEAR_SIXTY.dist(EXIT_QUERY.at, EAST.at) == 500.94
    ensures NEAR_SIXTY.dist(EXIT_QUERY.at, NORTH.at) == 445.28
  {
    assert NEAR_SIXTY.dist(EXIT_QUERY.at, EAST.at) == MaxNormDist(0.5, EXIT_QUERY.at, EAST.at);
    assert NEAR_SIXTY.dist(EXIT_QUERY.at, NORTH.at) == MaxNormDist(0.5, EXIT_QUERY.at, NORTH.at);
  }

  lemma EnumeratedNearSixty()
    ensures Intersecting(NEAR_SIXTY, EXIT_QUERY.at, 1000.0, HOME)
    ensures Intersecting(NEAR_SIXTY, EXIT_QUERY.at, 1000.0, ShardKey(6000, 8499))
  {
    CellsNearSixty();
    var (g, q) := (NEAR_SIXTY, EXIT_QUERY.at);
    assert LatDelta(1000.0) == 1000.0 / 111320.0;
    assert LonDelta(g, q, 1000.0) == 1000.0 / 55660.0;
    assert CellIndex(q.lat - LatDelta(1000.0), 0.01) <= 6000 <= CellIndex(q.lat + LatDelta(1000.0), 0.01);
    assert CellIndex(q.lon - LonDelta(g, q, 1000.0), 0.02) <= 8499;
    assert 8500 <= CellIndex(q.lon + LonDelta(g, q, 1000.0), 0.02);
    assert NearestInCell(g, q, HOME) == q;
    assert NearestInCell(g, q, ShardKey(6000, 8499)) == Point(60.005, 170.0);
    assert g.dist(q, q) == MaxNormDist(0.5, q, q);
    assert g.dist(q, Point(60.005, 170.0)) == MaxNormDist(0.5, q, Point(60.005, 170.0));
  }

  /** Every cell but the query's own claims to be at least 556.6 m away. */
  lemma OtherCellsNearSixty(k: ShardKey)
    requires k != HOME
    ensures MinDistToShard(NEAR_SIXTY, EXIT_QUERY.at, k) >= 556.6
  {
    CellsNearSixty();
    var (g, q) := (NEAR_SIXTY, EXIT_QUERY.at);
    var near := NearestInCell(g, q, k);
    assert near.lat == ClampToCell(60.005, k.row, 0.01) && near.lon == ClampToCell(170.01, k.col, 0.02);
    assert Abs(near.lat - 60.005) >= 0.005 || Abs(near.lon - 170.01) >= 0.01;
    assert g.dist(q, near) == MaxNormDist(0.5, q, near);
  }

  lemma TwoPushed() returns (run: seq<Timed>)
    ensures run == [Timed(0.0, Push(EAST))] + [Timed(0.0, Push(NORTH))]
    ensures Chronological(run) && Clock(run) == 0.0
    ensures Flat(Exec(EXIT_CONFIG, run)) == map["east" := EAST, "north" := NORTH]
    ensures Inv(EXIT_CONFIG, Exec(EXIT_CONFIG, run))
    ensures var docs := DbExec(EXIT_CONFIG, run).docs;
            docs.Keys == {"east", "north"} && docs["east"].entry == EAST && docs["north"].entry == NORTH
  {
    var cfg := EXIT_CONFIG;
    var (a, b) := (Timed(0.0, Push(EAST)), Timed(0.0, Push(NORTH)));
    run := [a] + [b];
    Extend(cfg, [], a);
    Extend(cfg, [a], b);
    assert [] + [a] == [a] && [a][..0] == [] && run[..1] == [a];
    ChronologicalSnoc([], a);
    ChronologicalSnoc([a], b);
    UpsertedKeepsInv(cfg, EMPTY, EAST, 0.0);
    UpsertIsFlatInsert(cfg, EMPTY, EAST, 0.0);
    UpsertedKeepsInv(cfg, Exec(cfg, [a]), NORTH, 0.0);
    UpsertIsFlatInsert(cfg, Exec(cfg, [a]), NORTH, 0.0);
    assert DbExec(cfg, [a]) == DbStep(cfg, DbExec(cfg, []), a);
    assert DbExec(cfg, run) == DbStep(cfg, DbExec(cfg, [a]), b);
  }

  lemma HitsNearSixty(s: State)
    requires Flat(s) == map["east" := EAST, "north" := NORTH]
    ensures HitsIn(EXIT_CONFIG, EXIT_QUERY, Flat(s), 1.0) == {Hit(500.94, EAST), Hit(445.28, NORTH)}
    ensures FoundHits(EXIT_CONFIG, EXIT_QUERY, s, {HOME}, 1.0) == {Hit(500.94, EAST)}
    ensures VisitedHits(EXIT_CONFIG, EXIT_QUERY, s, {HOME}, 1.0) == {Hit(500.94, EAST)}
    ensures SearchPool(EXIT_CONFIG, EXIT_QUERY, Flat(s), 1.0) == {Hit(500.94, EAST), Hit(445.28, NORTH)}
  {
    hide MaxNorm, Intersecting, KeyOf;
    CellsNearSixty();
    DistancesNearSixty();
    EnumeratedNearSixty();
    var (cfg, q, m) := (EXIT_CONFIG, EXIT_QUERY, Flat(s));
    assert HitOf(cfg, q, EAST) == Hit(500.94, EAST) && HitOf(cfg, q, NORTH) == Hit(445.28, NORTH);
    WantedIsHit(cfg, q, m, "east", 1.0);
    WantedIsHit(cfg, q, m, "north", 1.0);
  }

  lemma WantedIsHit(cfg: Config, q: Query, m: map<UserId, Entry>, u: UserId, now: Time)
    requires u in m && Wanted(cfg, q, u, m[u], now)
    ensures HitOf(cfg, q, m[u]) in HitsIn(cfg, q, m, now)
  {
  }

  lemma OneAnswer(q: Query, h: Hit)
    requires q.limit == 1 && q.always == {}
    ensures Answers(q, {h}, [h])
  {
    assert Elements([h]) == {h} && Others(q, {h}) == {h} && Favs(q, {h}) == {};
  }

  /** Breaking off after the query's own cell is what the loop may do. */
  lemma SearchedHome(s: State)
    requires Flat(s) == map["east" := EAST, "north" := NORTH]
    ensures Searched(EXIT_CONFIG, EXIT_QUERY, s, {HOME}, 1.0, [Hit(500.94, EAST)])
    ensures FavouritesEnumerated(EXIT_CONFIG, EXIT_QUERY, Flat(s), 1.0)
  {
    hide MaxNorm, Intersecting, KeyOf, MinDistToShard, FoundHits, VisitedHits, HitsIn, MissesNothing, NEAR_SIXTY;
    var (cfg, q, h) := (EXIT_CONFIG, EXIT_QUERY, Hit(500.94, EAST));
    HitsNearSixty(s);
    EnumeratedNearSixty();
    OneAnswer(q, h);
    forall k | k != HOME ensures Nearer({h}, MinDistToShard(cfg.geo, q.at, k)) == {h} {
      OtherCellsNearSixty(k);
    }
    SearchIsBruteForceIff(cfg, q, s, {HOME}, 1.0, [h]);
  }

  /** Two pushes and a limited query without favourites: the in-memory store finds the user in the query's
      own cell, breaks off before the next cell, which claims to be farther than that, and misses a nearer
      one in it. Whatever the database answers has other distances. */
  lemma EarlyExitMisses() returns (run: seq<Timed>, mem: seq<Hit>)
    ensures Chronological(run) && Clock(run) <= 1.0 && ShortSuppression(EXIT_CONFIG)
    ensures var (s, docs) := (Exec(EXIT_CONFIG, run), DbExec(EXIT_CONFIG, run).docs);
            && OwnIds(Flat(s)) && SameEntries(EXIT_CONFIG, Flat(s), docs, 1.0)
            && FavouritesEnumerated(EXIT_CONFIG, EXIT_QUERY, Flat(s), 1.0)
            && Searched(EXIT_CONFIG, EXIT_QUERY, s, {HOME}, 1.0, mem)
    ensures var view := Selected(EXIT_CONFIG, EXIT_QUERY, DbExec(EXIT_CONFIG, run).docs, 1.0);
            forall db :: Answers(EXIT_QUERY, HitsIn(EXIT_CONFIG, EXIT_QUERY, view, 1.0), db) ==>
              Distances(mem) != Distances(db)
  {
    hide Exec, DbExec, Flat, Searched, HitsIn, Answers, Selected, Chronological, NEAR_SIXTY, ExitMissesNothing;
    run := TwoPushed();
    mem := [Hit(500.94, EAST)];
    var (cfg, q) := (EXIT_CONFIG, EXIT_QUERY);
    var (s, docs) := (Exec(cfg, run), DbExec(cfg, run).docs);
    SearchedHome(s);
    NorthIsMissed(s);
    forall db | Answers(q, HitsIn(cfg, q, Selected(cfg, q, docs, 1.0), 1.0), db)
      ensures Distances(mem) != Distances(db)
    {
      BackendsAnswerAlikeIff(cfg, q, s, {HOME}, docs, 1.0, mem, db);
      assert FavouriteIds(q, Elements(mem)) == {} == FavouriteIds(q, Elements(db));
    }
  }

  lemma NorthIsMissed(s: State)
    requires Flat(s) == map["east" := EAST, "north" := NORTH]
    ensures !ExitMissesNothing(EXIT_CONFIG, EXIT_QUERY, s, {HOME}, 1.0)
  {
    HitsNearSixty(s);
    hide SearchPool, FoundHits;
    var o := Hit(445.28, NORTH);
    var found := FoundHits(EXIT_CONFIG, EXIT_QUERY, s, {HOME}, 1.0);
    var pool := SearchPool(EXIT_CONFIG, EXIT_QUERY, Flat(s), 1.0);
    assert o in Others(EXIT_QUERY, pool) - found;
    assert AtMost(Others(EXIT_QUERY, found), o.dist) == {} && Favs(EXIT_QUERY, pool) == {};
  }
}
