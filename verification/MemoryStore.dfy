/** The in-memory location store: three maps changed in place, each operation proved against what
    `LocationStore` says it makes of them. Every operation reads the clock once, as `now`. */
module MemoryStore {
  import opened Grid
  import opened Ordering
  import opened LocationStore
  import opened NearbySpec
  import opened ReservedSlots
  import opened Traversal

  class MemoryStore {
    const cfg: Config
    var shards: map<ShardKey, Shard>
    var userIndex: map<UserId, ShardKey>
    var suppression: map<UserId, Stamp>

    ghost function Contents(): State
      reads this
    {
      State(shards, userIndex, suppression)
    }

    ghost predicate Valid()
      reads this
    {
      Inv(cfg, Contents())
    }

    constructor (cfg: Config)
      ensures Valid() && this.cfg == cfg && Contents() == EMPTY
    {
      this.cfg := cfg;
      shards, userIndex, suppression := map[], map[], map[];
    }

    method Upsert(entry: Entry, now: Time) returns (result: UpsertResult)
      requires Valid()
      modifies this
      ensures Valid()
      ensures Contents() == Upserted(cfg, old(Contents()), entry, now)
      ensures result == Skipped <==> Suppressed(cfg, old(Contents()), entry, now)
    {
      UpsertedKeepsInv(cfg, Contents(), entry, now);
      var u := entry.userId;
      if u in suppression {
        var last := suppression[u];
        var moved := cfg.geo.dist(last.at, entry.at) >= cfg.updateDistanceM;
        if !moved && now - last.time < cfg.updateInterval {
          return Skipped;
        }
      }
      var newKey := ShardForCoords(cfg.geo, entry.at);
      if u in userIndex {
        var oldKey := userIndex[u];
        if oldKey != newKey && oldKey in shards {
          shards := shards[oldKey := shards[oldKey] - {u}];
        }
      }
      if newKey in shards {
        shards := shards[newKey := shards[newKey][u := entry]];
      } else {
        shards := shards[newKey := map[u := entry]];
      }
      userIndex := userIndex[u := newKey];
      suppression := suppression[u := Stamp(now, entry.at)];
      return Written;
    }

    method Remove(u: UserId)
      requires Valid()
      modifies this
      ensures Valid()
      ensures Contents() == Removed(old(Contents()), u)
    {
      RemovedKeepsInv(cfg, Contents(), u);
      if u !in userIndex {
        return;
      }
      var key := userIndex[u];
      if key in shards {
        shards := shards[key := shards[key] - {u}];
      }
      userIndex := userIndex - {u};
      suppression := suppression - {u};
    }

    /** Agrees with a look-up in the live flat map. */
    method GetUser(u: UserId, now: Time) returns (r: Option<Entry>)
      requires Valid()
      ensures r == if u in Live(cfg, Flat(Contents()), now) then Some(Flat(Contents())[u]) else None
    {
      if u !in userIndex || userIndex[u] !in shards {
        return None;
      }
      var shard := shards[userIndex[u]];
      if u !in shard {
        return None;
      }
      var entry := shard[u];
      return if now - entry.updatedAt > cfg.ttl then None else Some(entry);
    }

    /** Exactly the requested users that are live. */
    method OnlineIds(users: seq<UserId>, now: Time) returns (online: set<UserId>)
      requires Valid()
      ensures online == set u | u in users && u in Live(cfg, Flat(Contents()), now)
    {
      online := {};
      for i := 0 to |users|
        invariant online == set u | u in users[..i] && u in Live(cfg, Flat(Contents()), now)
      {
        var u := users[i];
        if u in userIndex && userIndex[u] in shards && u in shards[userIndex[u]] {
          var entry := shards[userIndex[u]][u];
          if now - entry.updatedAt <= cfg.ttl {
            online := online + {u};
          }
        }
        assert users[..i + 1] == users[..i] + [u];
      }
      assert users[..|users|] == users;
    }

    /** One pass over a cell: its hits, and the users whose stale entries are to go. */
    method ScanShard(q: Query, shard: Shard, now: Time) returns (hits: seq<Hit>, stale: set<UserId>)
      requires OwnIds(shard)
      ensures Lists(hits, HitsIn(cfg, q, shard, now))
      ensures stale == StaleAmong(cfg, q, shard, now)
    {
      hide HitsIn, Lists, StaleAmong, Restrict;
      NothingScanned(cfg, q, shard, now);
      hits, stale := [], {};
      var rest := shard.Keys;
      ghost var done := {};
      while rest != {}
        invariant rest <= shard.Keys && done == shard.Keys - rest
        invariant Lists(hits, HitsIn(cfg, q, Restrict(shard, done), now))
        invariant stale == StaleAmong(cfg, q, Restrict(shard, done), now)
      {
        var u :| u in rest;
        ScanUser(cfg, q, shard, done, u, now);
        ghost var before := HitsIn(cfg, q, Restrict(shard, done), now);
        var entry := shard[u];
        if u !in q.exclude {
          if now - entry.updatedAt > cfg.ttl {
            stale := stale + {u};
          } else {
            var d := cfg.geo.dist(q.at, entry.at);
            if d <= q.radius {
              AppendHit(hits, before, Hit(d, entry));
              hits := hits + [Hit(d, entry)];
            }
          }
        }
        rest, done := rest - {u}, done + {u};
      }
      assert done == shard.Keys;
      RestrictToAll(shard);
    }

    /** Visits candidate cells nearest first until no unvisited one can matter, collecting hits
        and evicting what is stale. */
    method Traverse(q: Query, now: Time, candidates: seq<ShardKey>) returns (results: seq<Hit>, ghost n: nat)
      requires Valid()
      requires forall i, j :: 0 <= i < j < |candidates| ==> candidates[i] != candidates[j]
      modifies this
      ensures Valid() && n <= |candidates|
      ensures Contents() == Evicted(cfg, old(Contents()), Cells(candidates[..n]), q.exclude, now)
      ensures Lists(results, VisitedHits(cfg, q, old(Contents()), Cells(candidates[..n]), now))
      ensures MayStop(cfg, q, candidates, n, results)
    {
      hide HitsIn, Lists, VisitedHits, Evicted, StaleAmong, Flat, Inv, Cells, SortBy;
      ghost var s := Contents();
      FlatHasOwnIds(cfg, s);
      BeforeFirstCell(cfg, q, s, now);
      assert candidates[..0] == [];
      results, n := [], 0;
      var i := 0;
      while i < |candidates|
        invariant 0 <= i == n <= |candidates|
        invariant Contents() == Evicted(cfg, s, Cells(candidates[..n]), q.exclude, now)
        invariant Lists(results, VisitedHits(cfg, q, s, Cells(candidates[..n]), now))
      {
        var key := candidates[i];
        ghost var cells := Cells(candidates[..i]);
        OneMoreCell(candidates, i);
        EvictedShape(cfg, s, cells, q.exclude, now);
        n := n + 1;
        if key in shards {
          EvictCell(cfg, q, s, cells, key, now);
          var hits, staleKeys := ScanShard(q, shards[key], now);
          ListOneMoreCell(cfg, q, s, cells, key, now, results, hits);
          results := results + hits;
          if staleKeys != {} {
            shards := shards[key := shards[key] - staleKeys];
          } else {
            NothingToEvict(cfg, q, s, cells, key, now);
          }
          if q.limit > 0 && |results| >= q.limit {
            SortKeepsListing(results, VisitedHits(cfg, q, s, Cells(candidates[..n]), now));
            results := SortBy(results, ByDist);
            var nthDist := results[q.limit - 1].dist;
            if i + 1 < |candidates| {
              if MinDistToShard(cfg.geo, q.at, candidates[i + 1]) > nthDist {
                break;
              }
            } else {
              break;
            }
          }
        } else {
          VisitMissingCell(cfg, q, s, cells, key, now);
          NothingToEvict(cfg, q, s, cells, key, now);
        }
        i := i + 1;
      }
      EvictedKeepsInv(cfg, s, Cells(candidates[..n]), q.exclude, now);
    }

    /** The favourites in range that the traversal did not find, looked up one by one. */
    method RecoverFavourites(q: Query, results: seq<Hit>, now: Time) returns (extra: seq<Hit>)
      requires Valid()
      requires Elements(results) <= HitsIn(cfg, q, Flat(Contents()), now)
      ensures Lists(extra, Favs(q, HitsIn(cfg, q, Flat(Contents()), now)) - Elements(results))
    {
      hide HitsIn, Lists, Inv, Restrict;
      FlatHasOwnIds(cfg, Contents());
      var foundIds := set h | h in results :: h.entry.userId;
      extra := [];
      var rest := q.always;
      ghost var wanted := {};
      ghost var flat := Flat(Contents());
      NothingScanned(cfg, q, flat, now);
      while rest != {}
        invariant rest <= q.always && wanted == q.always - rest - foundIds
        invariant Lists(extra, HitsIn(cfg, q, Restrict(flat, wanted), now))
      {
        var u :| u in rest;
        rest := rest - {u};
        if u in foundIds {
          assert q.always - rest - foundIds == wanted;
          continue;
        }
        assert q.always - rest - foundIds == wanted + {u};
        if u in flat {
          ScanUser(cfg, q, flat, wanted, u, now);
        } else {
          RestrictSkips(flat, wanted, u);
        }
        if u !in q.exclude {
          var entry := GetUser(u, now);
          if entry.Some? {
            var d := cfg.geo.dist(q.at, entry.value.at);
            if d <= q.radius {
              AppendHit(extra, HitsIn(cfg, q, Restrict(flat, wanted), now), Hit(d, entry.value));
              extra := extra + [Hit(d, entry.value)];
            }
          }
        }
        wanted := wanted + {u};
      }
      assert wanted == q.always - foundIds;
      MissingFavourites(cfg, q, flat, Elements(results), foundIds, now);
    }

    /** Up to `limit` nearest users within the radius, favourites first. Stale entries met on the
        way are evicted; the result may exceed the limit when favourites alone do. */
    method Nearby(q: Query, now: Time) returns (res: seq<Hit>)
      requires Valid()
      modifies this
      ensures Valid()
      ensures exists cells ::
                && Contents() == Evicted(cfg, old(Contents()), cells, q.exclude, now)
                && Searched(cfg, q, old(Contents()), cells, now, res)
      ensures q.limit == 0 || CellsBoundHits(cfg, q, old(Flat(Contents())), now) ==>
                Answers(q, SearchPool(cfg, q, old(Flat(Contents())), now), res)
      ensures (q.limit == 0 || CellsBoundHits(cfg, q, old(Flat(Contents())), now)) &&
              OthersEnumerated(cfg, q, old(Flat(Contents())), now) ==>
                Answers(q, HitsIn(cfg, q, old(Flat(Contents())), now), res)
      ensures Planar(cfg.geo) ==> Answers(q, HitsIn(cfg, q, old(Flat(Contents())), now), res)
    {
      ghost var s := Contents();
      var listed := IntersectingShards(cfg.geo, q.at, q.radius);
      var candidates := SortBy(listed, k => MinDistToShard(cfg.geo, q.at, k));
      CandidatesAreNearestFirst(cfg, q, listed, candidates);
      var visited, n := Traverse(q, now, candidates);
      ghost var seen := VisitedHits(cfg, q, s, Cells(candidates[..n]), now);
      EvictionKeepsHits(cfg, q, s, Cells(candidates[..n]), now);

      var results := SortBy(visited, ByDist);
      ListsSize(results, seen);
      var extra := RecoverFavourites(q, results, now);
      JoinRecovered(results, seen, extra, Favs(q, HitsIn(cfg, q, Flat(s), now)));
      results := SortBy(results + extra, ByDist);
      res := ReserveSlots(q, results);

      StoppedSearchAnswers(cfg, q, s, now, candidates, n, visited, results);
      if q.limit == 0 || CellsBoundHits(cfg, q, Flat(s), now) {
        StoppingLosesNothing(cfg, q, s, Cells(candidates[..n]), now, res);
        if OthersEnumerated(cfg, q, Flat(s), now) {
          EnumeratedIsEverything(cfg, q, Flat(s), now);
        }
      }
      if Planar(cfg.geo) {
        PlanarSearchIsBruteForce(cfg, q, Flat(s), now);
        StoppingLosesNothing(cfg, q, s, Cells(candidates[..n]), now, res);
      }
    }

    /** Removes every stale entry with its index entry and stamp, then drops the empty cells. */
    method Sweep(now: Time)
      requires Valid()
      modifies this
      ensures Valid()
      ensures Contents() == Swept(cfg, old(Contents()), now)
    {
      hide Inv, Flat, StaleUsers, Swept, WithoutUsers, Removed;
      ghost var s := Contents();
      SweptKeepsInv(cfg, s, now);
      WithoutNobody(s);
      var staleUsers := StaleIn(now);
      ghost var gone := {};
      while staleUsers != {}
        invariant staleUsers == StaleUsers(cfg, s, now) - gone && gone <= StaleUsers(cfg, s, now)
        invariant Valid() && Contents() == WithoutUsers(s, gone)
      {
        var u :| u in staleUsers;
        StaleUsersAreFlat(cfg, s, now, u);
        RemoveOneMore(s, gone, u, cfg);
        Remove(u);
        staleUsers, gone := staleUsers - {u}, gone + {u};
      }
      assert gone == StaleUsers(cfg, s, now);
      var emptyKeys := set k | k in shards && shards[k] == map[];
      DropEmptyCells(cfg, s, now, emptyKeys);
      shards := shards - emptyKeys;
    }

    method StaleIn(now: Time) returns (stale: set<UserId>)
      ensures stale == StaleUsers(cfg, Contents(), now)
    {
      stale := {};
      var keys := shards.Keys;
      ghost var done := {};
      while keys != {}
        invariant done !! keys && done + keys == shards.Keys
        invariant stale == set k, u | k in done && u in shards[k] && Stale(cfg, shards[k][u], now) :: u
      {
        var k :| k in keys;
        stale := stale + set u | u in shards[k] && Stale(cfg, shards[k][u], now);
        keys, done := keys - {k}, done + {k};
      }
    }
  }

  // ----- Facts about the steps above -----

  lemma CandidatesAreNearestFirst(cfg: Config, q: Query, listed: seq<ShardKey>, candidates: seq<ShardKey>)
    requires forall k :: k in listed <==> Intersecting(cfg.geo, q.at, q.radius, k)
    requires forall i, j :: 0 <= i < j < |listed| ==> RowMajorBefore(listed[i], listed[j])
    requires candidates == SortBy(listed, k => MinDistToShard(cfg.geo, q.at, k))
    ensures NearestFirst(cfg, q, candidates)
    ensures forall i, j :: 0 <= i < j < |candidates| ==> candidates[i] != candidates[j]
  {
    var key := k => MinDistToShard(cfg.geo, q.at, k);
    forall k ensures k in listed <==> k in candidates {
      assert k in listed <==> k in multiset(listed);
      assert k in candidates <==> k in multiset(candidates);
    }
    forall i, j | 0 <= i < j < |candidates|
      ensures MinDistToShard(cfg.geo, q.at, candidates[i]) <= MinDistToShard(cfg.geo, q.at, candidates[j])
    {
      assert key(candidates[i]) <= key(candidates[j]);
    }
    NoRepeats(listed, candidates);
  }

  lemma NoRepeats(listed: seq<ShardKey>, candidates: seq<ShardKey>)
    requires forall i, j :: 0 <= i < j < |listed| ==> RowMajorBefore(listed[i], listed[j])
    requires multiset(listed) == multiset(candidates)
    ensures forall i, j :: 0 <= i < j < |candidates| ==> candidates[i] != candidates[j]
  {
    forall i, j | 0 <= i < j < |candidates| ensures candidates[i] != candidates[j] {
      OccursOnce(listed, candidates[i]);
      assert candidates == candidates[..i + 1] + candidates[i + 1..];
      assert candidates[i] in candidates[..i + 1] && candidates[j] in candidates[i + 1..];
      assert candidates[i] in multiset(candidates[..i + 1]) && candidates[j] in multiset(candidates[i + 1..]);
      assert multiset(candidates) == multiset(candidates[..i + 1]) + multiset(candidates[i + 1..]);
    }
  }

  lemma {:induction false} OccursOnce(listed: seq<ShardKey>, k: ShardKey)
    requires forall i, j :: 0 <= i < j < |listed| ==> RowMajorBefore(listed[i], listed[j])
    ensures multiset(listed)[k] <= 1
  {
    if listed != [] {
      assert listed == [listed[0]] + listed[1..];
      OccursOnce(listed[1..], k);
      if listed[0] == k {
        forall i | 0 <= i < |listed[1..]| ensures listed[1..][i] != k {
          assert RowMajorBefore(listed[0], listed[i + 1]);
        }
      }
    }
  }

  lemma OneMoreCell(candidates: seq<ShardKey>, i: nat)
    requires i < |candidates|
    requires forall i, j :: 0 <= i < j < |candidates| ==> candidates[i] != candidates[j]
    ensures Cells(candidates[..i + 1]) == Cells(candidates[..i]) + {candidates[i]}
    ensures candidates[i] !in Cells(candidates[..i])
  {
  }

  lemma SortKeepsListing(results: seq<Hit>, hits: set<Hit>)
    requires Lists(results, hits)
    ensures Lists(SortBy(results, ByDist), hits)
    ensures |SortBy(results, ByDist)| == |results|
  {
  }

  lemma BeforeFirstCell(cfg: Config, q: Query, s: State, now: Time)
    ensures Evicted(cfg, s, Cells([]), q.exclude, now) == s
    ensures Lists([], VisitedHits(cfg, q, s, Cells([]), now))
  {
  }

  lemma JoinRecovered(results: seq<Hit>, seen: set<Hit>, extra: seq<Hit>, favs: set<Hit>)
    requires Lists(results, seen) && Lists(extra, favs - seen)
    ensures Lists(results + extra, seen + favs)
  {
  }

  /** The favourites whose ids were not found are those whose hits were not found. */
  lemma MissingFavourites(cfg: Config, q: Query, flat: map<UserId, Entry>, found: set<Hit>, foundIds: set<UserId>,
                          now: Time)
    requires OwnIds(flat) && found <= HitsIn(cfg, q, flat, now)
    requires foundIds == set h | h in found :: h.entry.userId
    ensures HitsIn(cfg, q, Restrict(flat, q.always - foundIds), now) == Favs(q, HitsIn(cfg, q, flat, now)) - found
  {
    var part := Restrict(flat, q.always - foundIds);
    forall h | h in HitsIn(cfg, q, part, now) ensures h in Favs(q, HitsIn(cfg, q, flat, now)) - found {
      var u :| u in part && Wanted(cfg, q, u, part[u], now) && h == HitOf(cfg, q, part[u]);
      assert u in flat;
    }
    forall h | h in Favs(q, HitsIn(cfg, q, flat, now)) && h !in found ensures h in HitsIn(cfg, q, part, now) {
      var u :| u in flat && Wanted(cfg, q, u, flat[u], now) && h == HitOf(cfg, q, flat[u]);
      FoundById(cfg, q, flat, found, u, now);
      assert u in part;
    }
  }

  lemma FoundById(cfg: Config, q: Query, flat: map<UserId, Entry>, found: set<Hit>, u: UserId, now: Time)
    requires OwnIds(flat) && found <= HitsIn(cfg, q, flat, now) && u in flat
    ensures (exists h :: h in found && h.entry.userId == u) ==> HitOf(cfg, q, flat[u]) in found
  {
  }

  function WithoutUsers(s: State, gone: set<UserId>): State {
    State(map k | k in s.shards :: s.shards[k] - gone, s.index - gone, s.suppression - gone)
  }

  lemma WithoutNobody(s: State)
    ensures WithoutUsers(s, {}) == s
  {
    assert forall k :: k in s.shards ==> s.shards[k] - {} == s.shards[k];
  }

  lemma RemoveOneMore(s: State, gone: set<UserId>, u: UserId, cfg: Config)
    requires Inv(cfg, s) && u in Flat(s) && u !in gone
    ensures Removed(WithoutUsers(s, gone), u) == WithoutUsers(s, gone + {u})
  {
    var (one, two) := (Removed(WithoutUsers(s, gone), u).shards, WithoutUsers(s, gone + {u}).shards);
    assert one.Keys == two.Keys;
    forall k | k in one ensures one[k] == two[k] {
      FiledIsFlat(cfg, s, k, u);
      WithoutOneMore(s.shards[k], gone, u);
    }
    WithoutOneMore(s.index, gone, u);
    WithoutOneMore(s.suppression, gone, u);
  }

  lemma WithoutOneMore<T>(m: map<UserId, T>, gone: set<UserId>, u: UserId)
    ensures m - gone - {u} == m - (gone + {u})
    ensures u !in m ==> m - gone == m - (gone + {u})
  {
  }

  lemma DropEmptyCells(cfg: Config, s: State, now: Time, emptyKeys: set<ShardKey>)
    requires var t := WithoutUsers(s, StaleUsers(cfg, s, now));
             emptyKeys == set k | k in t.shards && t.shards[k] == map[]
    ensures var t := WithoutUsers(s, StaleUsers(cfg, s, now));
            t.(shards := t.shards - emptyKeys) == Swept(cfg, s, now)
  {
  }
}
