/** What a query that visits cells nearest first has found when it stops, and why stopping early
    loses nothing. */
module Traversal {
  import opened Grid
  import opened Ordering
  import opened LocationStore
  import opened NearbySpec
  import opened ReservedSlots

  /** The hits filed in the given cells. */
  function VisitedHits(cfg: Config, q: Query, s: State, cells: set<ShardKey>, now: Time): set<Hit> {
    set h | h in HitsIn(cfg, q, Flat(s), now) && KeyOf(cfg, h.entry) in cells
  }

  /** What a search that visited the given cells works with: their hits and every favourite in range. */
  function FoundHits(cfg: Config, q: Query, s: State, cells: set<ShardKey>, now: Time): set<Hit> {
    VisitedHits(cfg, q, s, cells, now) + Favs(q, HitsIn(cfg, q, Flat(s), now))
  }

  function Cells(keys: seq<ShardKey>): set<ShardKey> {
    set k | k in keys
  }

  /** The hits a search can be asked for: favourites anywhere, others in the enumerated cells. */
  function SearchPool(cfg: Config, q: Query, m: map<UserId, Entry>, now: Time): set<Hit> {
    set h | h in HitsIn(cfg, q, m, now) &&
            (IsFav(q, h) || Intersecting(cfg.geo, q.at, q.radius, KeyOf(cfg, h.entry)))
  }

  /** No hit in an enumerated cell is nearer than the minimum distance of its cell; favourites, which are
      looked up by id, do not matter. */
  ghost predicate CellsBoundHits(cfg: Config, q: Query, m: map<UserId, Entry>, now: Time) {
    forall o :: o in Others(q, SearchPool(cfg, q, m, now)) ==>
      MinDistToShard(cfg.geo, q.at, KeyOf(cfg, o.entry)) <= o.dist
  }

  /** On a planar grid the enumerated cells hold everything and bound everything. */
  lemma PlanarSearchIsBruteForce(cfg: Config, q: Query, m: map<UserId, Entry>, now: Time)
    requires Planar(cfg.geo)
    ensures SearchPool(cfg, q, m, now) == HitsIn(cfg, q, m, now)
    ensures CellsBoundHits(cfg, q, m, now)
  {
    forall h | h in HitsIn(cfg, q, m, now)
      ensures h in SearchPool(cfg, q, m, now) && MinDistToShard(cfg.geo, q.at, KeyOf(cfg, h.entry)) <= h.dist
    {
      CoversEveryPointInRadius(cfg.geo, q.at, q.radius, h.entry.at);
      CellBoundsItsPoints(cfg.geo, q.at, h.entry.at);
    }
  }

  /** Whatever the geometry, the limit and where the search stopped, what it returns is the brute-force
      answer exactly if every hit it did not find is crowded out by ones it did. */
  lemma SearchIsBruteForceIff(cfg: Config, q: Query, s: State, cells: set<ShardKey>, now: Time, res: seq<Hit>)
    requires Answers(q, FoundHits(cfg, q, s, cells, now), res)
    ensures var all := HitsIn(cfg, q, Flat(s), now);
            Answers(q, all, res) <==> MissesNothing(q, FoundHits(cfg, q, s, cells, now), all)
  {
    hide HitsIn, Answers, MissesNothing;
    var (found, all) := (FoundHits(cfg, q, s, cells, now), HitsIn(cfg, q, Flat(s), now));
    assert Favs(q, found) == Favs(q, all);
    PartAnswersIff(q, found, all, res);
  }

  /** Every hit but the favourites is filed in an enumerated cell. */
  ghost predicate OthersEnumerated(cfg: Config, q: Query, m: map<UserId, Entry>, now: Time) {
    forall h :: h in Others(q, HitsIn(cfg, q, m, now)) ==> Intersecting(cfg.geo, q.at, q.radius, KeyOf(cfg, h.entry))
  }

  lemma EnumeratedIsEverything(cfg: Config, q: Query, m: map<UserId, Entry>, now: Time)
    requires OthersEnumerated(cfg, q, m, now)
    ensures SearchPool(cfg, q, m, now) == HitsIn(cfg, q, m, now)
  {
    var all := HitsIn(cfg, q, m, now);
    assert forall h :: h in all ==> h in Favs(q, all) || h in Others(q, all);
  }

  function Restrict(m: map<UserId, Entry>, us: set<UserId>): map<UserId, Entry> {
    map u | u in m && u in us :: m[u]
  }

  lemma RestrictToAll(m: map<UserId, Entry>)
    ensures Restrict(m, m.Keys) == m
  {
  }

  lemma RestrictSkips(m: map<UserId, Entry>, us: set<UserId>, u: UserId)
    requires u !in m
    ensures Restrict(m, us + {u}) == Restrict(m, us)
  {
  }

  predicate OwnIds(m: map<UserId, Entry>) {
    forall u :: u in m ==> m[u].userId == u
  }

  lemma FlatHasOwnIds(cfg: Config, s: State)
    requires Inv(cfg, s)
    ensures OwnIds(Flat(s))
    ensures forall k :: k in s.shards ==> OwnIds(s.shards[k])
  {
  }

  function StaleAmong(cfg: Config, q: Query, m: map<UserId, Entry>, now: Time): set<UserId> {
    set u | u in m && u !in q.exclude && Stale(cfg, m[u], now)
  }

  lemma NothingScanned(cfg: Config, q: Query, m: map<UserId, Entry>, now: Time)
    ensures Lists([], HitsIn(cfg, q, Restrict(m, {}), now))
    ensures StaleAmong(cfg, q, Restrict(m, {}), now) == {}
  {
  }

  /** Scanning one more user of a cell. */
  lemma ScanUser(cfg: Config, q: Query, m: map<UserId, Entry>, us: set<UserId>, u: UserId, now: Time)
    requires u in m && u !in us && OwnIds(m)
    ensures Wanted(cfg, q, u, m[u], now) ==>
              HitsIn(cfg, q, Restrict(m, us + {u}), now) == HitsIn(cfg, q, Restrict(m, us), now) + {HitOf(cfg, q, m[u])}
    ensures !Wanted(cfg, q, u, m[u], now) ==>
              HitsIn(cfg, q, Restrict(m, us + {u}), now) == HitsIn(cfg, q, Restrict(m, us), now)
    ensures HitOf(cfg, q, m[u]) !in HitsIn(cfg, q, Restrict(m, us), now)
    ensures StaleAmong(cfg, q, Restrict(m, us + {u}), now) == StaleAmong(cfg, q, Restrict(m, us), now) +
              (if u !in q.exclude && Stale(cfg, m[u], now) then {u} else {})
  {
    var (more, less) := (Restrict(m, us + {u}), Restrict(m, us));
    forall h | h in HitsIn(cfg, q, more, now)
      ensures h in HitsIn(cfg, q, less, now) || (Wanted(cfg, q, u, m[u], now) && h == HitOf(cfg, q, m[u]))
    {
      var v :| v in more && Wanted(cfg, q, v, more[v], now) && h == HitOf(cfg, q, more[v]);
      assert v in less || v == u;
    }
    forall h | h in HitsIn(cfg, q, less, now) ensures h in HitsIn(cfg, q, more, now) {
      var v :| v in less && Wanted(cfg, q, v, less[v], now) && h == HitOf(cfg, q, less[v]);
      assert v in more;
    }
    assert u in more;
  }

  lemma AppendHit(hits: seq<Hit>, listed: set<Hit>, h: Hit)
    requires Lists(hits, listed) && h !in listed
    ensures Lists(hits + [h], listed + {h})
  {
  }

  lemma VisitMissingCell(cfg: Config, q: Query, s: State, cells: set<ShardKey>, k: ShardKey, now: Time)
    requires Inv(cfg, s) && k !in s.shards
    ensures VisitedHits(cfg, q, s, cells + {k}, now) == VisitedHits(cfg, q, s, cells, now)
  {
  }

  /** Visiting one more cell adds exactly its own hits, none of them seen before. */
  lemma VisitCell(cfg: Config, q: Query, s: State, cells: set<ShardKey>, k: ShardKey, now: Time)
    requires Inv(cfg, s) && k !in cells && k in s.shards
    ensures VisitedHits(cfg, q, s, cells + {k}, now) ==
            VisitedHits(cfg, q, s, cells, now) + HitsIn(cfg, q, s.shards[k], now)
    ensures VisitedHits(cfg, q, s, cells, now) !! HitsIn(cfg, q, s.shards[k], now)
  {
    forall h ensures h in HitsIn(cfg, q, s.shards[k], now)
                <==> h in HitsIn(cfg, q, Flat(s), now) && KeyOf(cfg, h.entry) == k
    {
      if h in HitsIn(cfg, q, s.shards[k], now) {
        var u :| u in s.shards[k] && Wanted(cfg, q, u, s.shards[k][u], now) && h == HitOf(cfg, q, s.shards[k][u]);
        FiledIsFlat(cfg, s, k, u);
      }
      if h in HitsIn(cfg, q, Flat(s), now) && KeyOf(cfg, h.entry) == k {
        var u :| u in Flat(s) && Wanted(cfg, q, u, Flat(s)[u], now) && h == HitOf(cfg, q, Flat(s)[u]);
        FiledIsFlat(cfg, s, k, u);
      }
    }
  }

  /** A listing of the hits so far continues with a listing of the new cell's hits. */
  lemma ListOneMoreCell(cfg: Config, q: Query, s: State, cells: set<ShardKey>, k: ShardKey, now: Time,
                        results: seq<Hit>, hits: seq<Hit>)
    requires Inv(cfg, s) && k !in cells && k in s.shards
    requires Lists(results, VisitedHits(cfg, q, s, cells, now)) && Lists(hits, HitsIn(cfg, q, s.shards[k], now))
    ensures Lists(results + hits, VisitedHits(cfg, q, s, cells + {k}, now))
  {
    VisitCell(cfg, q, s, cells, k, now);
    DisjointUnion(VisitedHits(cfg, q, s, cells, now), HitsIn(cfg, q, s.shards[k], now));
  }

  lemma EvictedShape(cfg: Config, s: State, cells: set<ShardKey>, exclude: set<UserId>, now: Time)
    ensures var after := Evicted(cfg, s, cells, exclude, now);
            after.shards.Keys == s.shards.Keys && after.index == s.index && after.suppression == s.suppression
  {
  }

  /** Evicting one more cell removes from it the stale users a scan reports. */
  lemma EvictCell(cfg: Config, q: Query, s: State, cells: set<ShardKey>, k: ShardKey, now: Time)
    requires k in s.shards && k !in cells
    ensures Evicted(cfg, s, cells, q.exclude, now).shards[k] == s.shards[k]
    ensures Evicted(cfg, s, cells + {k}, q.exclude, now) ==
            var before := Evicted(cfg, s, cells, q.exclude, now);
            before.(shards := before.shards[k := s.shards[k] - StaleAmong(cfg, q, s.shards[k], now)])
  {
    assert Freshened(cfg, s.shards[k], q.exclude, now) == s.shards[k] - StaleAmong(cfg, q, s.shards[k], now);
    hide Freshened, StaleAmong;
    var (one, two) := (Evicted(cfg, s, cells + {k}, q.exclude, now).shards,
                       Evicted(cfg, s, cells, q.exclude, now).shards[k := s.shards[k] - StaleAmong(cfg, q,
                       s.shards[k], now)]);
    assert one.Keys == two.Keys;
    forall k' | k' in one ensures one[k'] == two[k'] {}
  }

  /** With nothing stale in it the new cell stays as it is. */
  lemma NothingToEvict(cfg: Config, q: Query, s: State, cells: set<ShardKey>, k: ShardKey, now: Time)
    requires k !in cells && (k in s.shards ==> StaleAmong(cfg, q, s.shards[k], now) == {})
    ensures Evicted(cfg, s, cells + {k}, q.exclude, now) == Evicted(cfg, s, cells, q.exclude, now)
  {
    var (one, two) := (Evicted(cfg, s, cells + {k}, q.exclude, now).shards,
        Evicted(cfg, s, cells, q.exclude, now).shards);
    assert one.Keys == two.Keys;
    forall k' | k' in one ensures one[k'] == two[k'] {
      if k' == k {
        assert forall u :: u in s.shards[k] ==>
          u in q.exclude || u in StaleAmong(cfg, q, s.shards[k], now) || !Stale(cfg, s.shards[k][u], now);
      }
    }
  }

  /** Eviction does not change what brute force finds. */
  lemma EvictionKeepsHits(cfg: Config, q: Query, s: State, cells: set<ShardKey>, now: Time)
    requires Inv(cfg, s)
    ensures HitsIn(cfg, q, Flat(Evicted(cfg, s, cells, q.exclude, now)), now) == HitsIn(cfg, q, Flat(s), now)
  {
    var (before, after) := (Flat(s), Flat(Evicted(cfg, s, cells, q.exclude, now)));
    forall u ensures u in after ==> u in before && after[u] == before[u]
             ensures u in before && u !in after ==> Stale(cfg, before[u], now)
    {
      EvictedAt(cfg, s, cells, q.exclude, now, u);
    }
    forall h | h in HitsIn(cfg, q, before, now) ensures h in HitsIn(cfg, q, after, now) {
      var u :| u in before && Wanted(cfg, q, u, before[u], now) && h == HitOf(cfg, q, before[u]);
      assert u in after;
    }
  }

  /** Nearest-first candidates, of which the first `n` were visited: either all were, or the
      visited cells already gave `limit` hits nearer than the next cell. */
  ghost predicate MayStop(cfg: Config, q: Query, candidates: seq<ShardKey>, n: nat, results: seq<Hit>) {
    || n == |candidates|
    || (&& n < |candidates|
        && 0 < q.limit <= |results|
        && SortedBy(results, ByDist)
        && MinDistToShard(cfg.geo, q.at, candidates[n]) > results[q.limit - 1].dist)
  }

  ghost predicate NearestFirst(cfg: Config, q: Query, candidates: seq<ShardKey>) {
    && (forall k :: k in candidates <==> Intersecting(cfg.geo, q.at, q.radius, k))
    && (forall i, j :: 0 <= i < j < |candidates| ==>
          MinDistToShard(cfg.geo, q.at, candidates[i]) <= MinDistToShard(cfg.geo, q.at, candidates[j]))
  }

  function Nearer(hits: set<Hit>, d: real): set<Hit> {
    set h | h in hits && h.dist < d
  }

  /** An intersecting cell is left out only if the cells visited gave `limit` hits nearer than it. */
  ghost predicate StopsRightly(cfg: Config, q: Query, visited: set<Hit>, cells: set<ShardKey>) {
    forall k :: Intersecting(cfg.geo, q.at, q.radius, k) && k !in cells ==>
      0 < q.limit <= |Nearer(visited, MinDistToShard(cfg.geo, q.at, k))|
  }

  lemma StoppedRightly(cfg: Config, q: Query, candidates: seq<ShardKey>, n: nat, visited: seq<Hit>, hits: set<Hit>)
    requires NearestFirst(cfg, q, candidates) && n <= |candidates|
    requires Lists(visited, hits) && MayStop(cfg, q, candidates, n, visited)
    ensures StopsRightly(cfg, q, hits, Cells(candidates[..n]))
  {
    hide Intersecting, MinDistToShard;
    forall k | Intersecting(cfg.geo, q.at, q.radius, k) && k !in Cells(candidates[..n])
      ensures 0 < q.limit <= |Nearer(hits, MinDistToShard(cfg.geo, q.at, k))|
    {
      forall i | 0 <= i < n ensures candidates[i] in Cells(candidates[..n]) {
        assert candidates[..n][i] == candidates[i];
      }
      var j :| 0 <= j < |candidates| && candidates[j] == k;
      assert j >= n;
      var bound := visited[q.limit - 1].dist;
      Rank(visited, hits, bound);
      SubsetSize(AtMost(hits, bound), Nearer(hits, MinDistToShard(cfg.geo, q.at, k)));
    }
  }

  /** What a search that visited the given cells returns, on any grid: an answer over what it found, which
      is the brute-force answer exactly if that misses nothing. */
  ghost predicate Searched(cfg: Config, q: Query, s: State, cells: set<ShardKey>, now: Time, res: seq<Hit>) {
    var (found, all) := (FoundHits(cfg, q, s, cells, now), HitsIn(cfg, q, Flat(s), now));
    && (forall k :: k in cells ==> Intersecting(cfg.geo, q.at, q.radius, k))
    && StopsRightly(cfg, q, VisitedHits(cfg, q, s, cells, now), cells)
    && Answers(q, found, res)
    && (Answers(q, all, res) <==> MissesNothing(q, found, all))
  }

  /** Early exit, favourite recovery and slot reservation together answer the query over what was found. */
  lemma StoppedSearchAnswers(cfg: Config, q: Query, s: State, now: Time, candidates: seq<ShardKey>, n: nat,
                             visited: seq<Hit>, results: seq<Hit>)
    requires NearestFirst(cfg, q, candidates) && n <= |candidates|
    requires Lists(visited, VisitedHits(cfg, q, s, Cells(candidates[..n]), now))
    requires MayStop(cfg, q, candidates, n, visited)
    requires SortedBy(results, ByDist)
    requires Lists(results, FoundHits(cfg, q, s, Cells(candidates[..n]), now))
    ensures Searched(cfg, q, s, Cells(candidates[..n]), now, ReserveSlots(q, results))
  {
    hide ReserveSlots, Flat, StopsRightly, MissesNothing, HitsIn, Answers, VisitedHits, MayStop;
    var (cells, res) := (Cells(candidates[..n]), ReserveSlots(q, results));
    var found := FoundHits(cfg, q, s, cells, now);
    StoppedRightly(cfg, q, candidates, n, visited, VisitedHits(cfg, q, s, cells, now));
    ReserveSlotsAnswers(q, found, found, results, 0.0);
    SearchIsBruteForceIff(cfg, q, s, cells, now, res);
    assert forall k :: k in cells ==> k in candidates;
  }

  /** Where cells bound their hits, stopping early loses nothing: the answer is one over everything filed
      in enumerated cells. */
  lemma StoppingLosesNothing(cfg: Config, q: Query, s: State, cells: set<ShardKey>, now: Time, res: seq<Hit>)
    requires Searched(cfg, q, s, cells, now, res)
    requires q.limit == 0 || CellsBoundHits(cfg, q, Flat(s), now)
    ensures Answers(q, SearchPool(cfg, q, Flat(s), now), res)
  {
    hide Answers, Intersecting, MinDistToShard;
    var (found, pool) := (FoundHits(cfg, q, s, cells, now), SearchPool(cfg, q, Flat(s), now));
    assert found <= pool && Favs(q, found) == Favs(q, pool);
    forall o | o in Others(q, pool) - found
      ensures q.limit > 0 && |AtMost(Others(q, found), o.dist)| >= OtherLimit(q, |Favs(q, pool)|, 0)
    {
      MissedIsBeyond(cfg, q, s, cells, now, o);
    }
    PartAnswersIff(q, found, pool, res);
  }

  /** A hit in a cell left out is crowded out by nearer ones. */
  lemma MissedIsBeyond(cfg: Config, q: Query, s: State, cells: set<ShardKey>, now: Time, o: Hit)
    requires StopsRightly(cfg, q, VisitedHits(cfg, q, s, cells, now), cells)
    requires o in Others(q, SearchPool(cfg, q, Flat(s), now)) && o !in VisitedHits(cfg, q, s, cells, now)
    requires q.limit == 0 || MinDistToShard(cfg.geo, q.at, KeyOf(cfg, o.entry)) <= o.dist
    ensures q.limit > 0
    ensures var (found, pool) := (FoundHits(cfg, q, s, cells, now), SearchPool(cfg, q, Flat(s), now));
            |AtMost(Others(q, found), o.dist)| >= OtherLimit(q, |Favs(q, pool)|, 0)
  {
    hide Intersecting, MinDistToShard, Flat;
    var (found, pool) := (FoundHits(cfg, q, s, cells, now), SearchPool(cfg, q, Flat(s), now));
    var near := Nearer(VisitedHits(cfg, q, s, cells, now), MinDistToShard(cfg.geo, q.at, KeyOf(cfg, o.entry)));
    assert q.limit <= |near|;
    Split(q, near);
    assert Favs(q, HitsIn(cfg, q, Flat(s), now)) == Favs(q, pool);
    SubsetSize(Favs(q, near), Favs(q, pool));
    SubsetSize(Others(q, near), AtMost(Others(q, found), o.dist));
  }

  /** Without a limit nothing is left out or crowded out, so that is brute force exactly if no hit but a
      favourite is filed outside the enumerated cells. */
  lemma UnlimitedSearchIsBruteForceIff(cfg: Config, q: Query, s: State, cells: set<ShardKey>, now: Time, res: seq<Hit>)
    requires Searched(cfg, q, s, cells, now, res) && q.limit == 0
    ensures Answers(q, HitsIn(cfg, q, Flat(s), now), res) <==> OthersEnumerated(cfg, q, Flat(s), now)
  {
    hide Answers, Intersecting, MinDistToShard, Flat;
    var (found, all) := (FoundHits(cfg, q, s, cells, now), HitsIn(cfg, q, Flat(s), now));
    assert MissesNothing(q, found, all) <==> forall o :: o in Others(q, all) ==> o in found;
    forall o | o in Others(q, all) ensures o in found <==> Intersecting(cfg.geo, q.at, q.radius, KeyOf(cfg, o.entry)) {
      assert o in found <==> KeyOf(cfg, o.entry) in cells;
    }
  }

  // ----- Every search there could be -----

  /** Cells a search may have visited when it stops. */
  ghost predicate MayVisit(cfg: Config, q: Query, s: State, cells: set<ShardKey>, now: Time) {
    && (forall k :: k in cells ==> Intersecting(cfg.geo, q.at, q.radius, k))
    && StopsRightly(cfg, q, VisitedHits(cfg, q, s, cells, now), cells)
  }

  lemma {:induction false} Listing(hits: set<Hit>) returns (res: seq<Hit>)
    ensures Lists(res, hits)
  {
    if h :| h in hits {
      var rest := Listing(hits - {h});
      res := rest + [h];
      assert hits == (hits - {h}) + {h};
    } else {
      res := [];
    }
  }

  /** Every search of the store is brute force, wherever it may stop, exactly if every set of cells it may
      stop at misses nothing: a condition on the query and the store alone. */
  lemma EverySearchIsBruteForceIff(cfg: Config, q: Query, s: State, now: Time)
    ensures (forall cells, res :: Searched(cfg, q, s, cells, now, res) ==>
               Answers(q, HitsIn(cfg, q, Flat(s), now), res))
       <==> (forall cells :: MayVisit(cfg, q, s, cells, now) ==>
               MissesNothing(q, FoundHits(cfg, q, s, cells, now), HitsIn(cfg, q, Flat(s), now)))
  {
    hide Answers, MissesNothing, FoundHits, HitsIn, Intersecting, StopsRightly, VisitedHits, Flat;
    forall cells | MayVisit(cfg, q, s, cells, now)
      ensures exists res :: Searched(cfg, q, s, cells, now, res)
    {
      var res := SomeSearch(cfg, q, s, cells, now);
    }
    forall cells, res | Searched(cfg, q, s, cells, now, res) ensures MayVisit(cfg, q, s, cells, now) {}
  }

  lemma SomeSearch(cfg: Config, q: Query, s: State, cells: set<ShardKey>, now: Time) returns (res: seq<Hit>)
    requires MayVisit(cfg, q, s, cells, now)
    ensures Searched(cfg, q, s, cells, now, res)
  {
    hide Answers, MissesNothing, HitsIn, Intersecting, StopsRightly, VisitedHits, Flat;
    var found := FoundHits(cfg, q, s, cells, now);
    var listed := Listing(found);
    res := ReserveSlots(q, SortBy(listed, ByDist));
    ReserveSlotsAnswers(q, found, found, SortBy(listed, ByDist), 0.0);
    SearchIsBruteForceIff(cfg, q, s, cells, now, res);
  }
}
