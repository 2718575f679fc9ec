/** What a nearby query must return, stated against a flat map, and why the answer is determined
    up to equal distances. */
module NearbySpec {
  import opened Grid
  import opened Ordering
  import opened LocationStore

  datatype Query = Query(at: Point, radius: real, limit: nat, exclude: set<UserId>, always: set<UserId>)

  datatype Hit = Hit(dist: real, entry: Entry)

  function ByDist(h: Hit): real {
    h.dist
  }

  function HitOf(cfg: Config, q: Query, e: Entry): Hit {
    Hit(cfg.geo.dist(q.at, e.at), e)
  }

  predicate Wanted(cfg: Config, q: Query, u: UserId, e: Entry, now: Time) {
    u !in q.exclude && !Stale(cfg, e, now) && cfg.geo.dist(q.at, e.at) <= q.radius
  }

  /** Brute force: every live, non-excluded entry of a flat map within the radius. */
  function HitsIn(cfg: Config, q: Query, m: map<UserId, Entry>, now: Time): set<Hit> {
    set u | u in m && Wanted(cfg, q, u, m[u], now) :: HitOf(cfg, q, m[u])
  }

  predicate IsFav(q: Query, h: Hit) {
    h.entry.userId in q.always
  }

  function Favs(q: Query, hits: set<Hit>): set<Hit> {
    set h | h in hits && IsFav(q, h)
  }

  function Others(q: Query, hits: set<Hit>): set<Hit> {
    set h | h in hits && !IsFav(q, h)
  }

  /** How many non-favourites fit beside `favs` favourites; a limit of 0 means all of them. */
  function OtherLimit(q: Query, favs: nat, others: nat): nat {
    if q.limit == 0 then others
    else if favs < q.limit then q.limit - favs else 0
  }

  function Least(a: nat, b: nat): nat {
    if a < b then a else b
  }

  /** `res` lists each element of `hits` once. */
  ghost predicate Lists(res: seq<Hit>, hits: set<Hit>) {
    multiset(res) == multiset(hits)
  }

  function Elements(res: seq<Hit>): set<Hit> {
    set h | h in res
  }

  /** The specification of a nearby query over a pool of hits: ascending, without duplicates, all
      the pool's favourites, and as many of its nearest others as the limit leaves room for. */
  ghost predicate Answers(q: Query, pool: set<Hit>, res: seq<Hit>) {
    var chosen := Elements(res);
    && SortedBy(res, ByDist)
    && Lists(res, chosen)
    && chosen <= pool
    && Favs(q, pool) <= chosen
    && |Others(q, chosen)| == Least(|Others(q, pool)|, OtherLimit(q, |Favs(q, pool)|, |Others(q, pool)|))
    && (forall o, o' :: o in Others(q, chosen) && o' in Others(q, pool) - chosen ==> o.dist <= o'.dist)
  }

  // ----- Ranks in a sorted listing -----

  function AtMost(hits: set<Hit>, d: real): set<Hit> {
    set h | h in hits && h.dist <= d
  }

  lemma ListsSize(res: seq<Hit>, hits: set<Hit>)
    requires Lists(res, hits)
    ensures |res| == |hits|
    ensures forall h :: h in res <==> h in hits
    ensures Elements(res) == hits
  {
    assert |multiset(res)| == |multiset(hits)|;
    forall h ensures h in res <==> h in hits {
      assert h in res <==> h in multiset(res);
      assert h in hits <==> h in multiset(hits);
    }
  }

  lemma ListsInit(res: seq<Hit>, hits: set<Hit>)
    requires res != [] && Lists(res, hits)
    ensures res[|res| - 1] in hits
    ensures Lists(res[..|res| - 1], hits - {res[|res| - 1]})
  {
    var (init, last) := (res[..|res| - 1], res[|res| - 1]);
    assert res == init + [last];
    assert last in multiset(hits);
    assert hits == (hits - {last}) + {last};
    assert multiset(hits) == multiset(hits - {last}) + multiset{last};
    assert multiset(init) == multiset(res) - multiset{last};
  }

  /** In a sorted listing the hits within distance `d` are exactly the first ones. */
  lemma {:induction false} Rank(res: seq<Hit>, hits: set<Hit>, d: real)
    requires SortedBy(res, ByDist) && Lists(res, hits)
    ensures |AtMost(hits, d)| <= |res|
    ensures forall i :: 0 <= i < |res| ==> (res[i].dist <= d <==> i < |AtMost(hits, d)|)
  {
    ListsSize(res, hits);
    if res != [] {
      var (init, last) := (res[..|res| - 1], res[|res| - 1]);
      ListsInit(res, hits);
      if last.dist <= d {
        forall h | h in hits ensures h.dist <= d {
          var i :| 0 <= i < |res| && res[i] == h;
          assert ByDist(res[i]) <= ByDist(last);
        }
        assert AtMost(hits, d) == hits;
      } else {
        Rank(init, hits - {last}, d);
        assert AtMost(hits, d) == AtMost(hits - {last}, d);
        assert forall i :: 0 <= i < |init| ==> init[i] == res[i];
      }
    } else {
      assert AtMost(hits, d) == {};
    }
  }

  // ----- The answer is unique up to ties -----

  lemma Split(q: Query, hits: set<Hit>)
    ensures |hits| == |Favs(q, hits)| + |Others(q, hits)|
  {
    assert hits == Favs(q, hits) + Others(q, hits);
    assert Favs(q, hits) !! Others(q, hits);
  }

  /** A set of nearest hits of given size has a determined number of hits within any distance. */
  lemma NearestCount(all: set<Hit>, nearest: set<Hit>, d: real)
    requires nearest <= all
    requires forall o, o' :: o in nearest && o' in all - nearest ==> o.dist <= o'.dist
    ensures |AtMost(nearest, d)| == Least(|nearest|, |AtMost(all, d)|)
  {
    assert AtMost(nearest, d) <= AtMost(all, d) && AtMost(nearest, d) <= nearest;
    SubsetSize(AtMost(nearest, d), AtMost(all, d));
    SubsetSize(AtMost(nearest, d), nearest);
    if o' :| o' in all - nearest && o'.dist <= d {
      assert AtMost(nearest, d) == nearest;
    } else {
      assert AtMost(nearest, d) == AtMost(all, d);
    }
  }

  lemma {:induction false} SubsetSize<T>(a: set<T>, b: set<T>)
    requires a <= b
    ensures |a| <= |b|
  {
    assert b == a + (b - a);
  }

  /** How many hits of an answer lie within `d` depends on the pool alone. */
  function CountWithin(q: Query, pool: set<Hit>, d: real): nat {
    var quota := Least(|Others(q, pool)|, OtherLimit(q, |Favs(q, pool)|, |Others(q, pool)|));
    |AtMost(Favs(q, pool), d)| + Least(quota, |AtMost(Others(q, pool), d)|)
  }

  lemma AnswerCount(q: Query, pool: set<Hit>, res: seq<Hit>, d: real)
    requires Answers(q, pool, res)
    ensures |AtMost(Elements(res), d)| == CountWithin(q, pool, d)
  {
    var chosen := Elements(res);
    Split(q, AtMost(chosen, d));
    assert Favs(q, chosen) == Favs(q, pool);
    assert Favs(q, AtMost(chosen, d)) == AtMost(Favs(q, pool), d);
    assert Others(q, AtMost(chosen, d)) == AtMost(Others(q, chosen), d);
    NearestCount(Others(q, pool), Others(q, chosen), d);
  }

  function Distances(res: seq<Hit>): seq<real> {
    seq(|res|, i requires 0 <= i < |res| => res[i].dist)
  }

  /** Two answers over pools that agree on all counts have the same distances, position by
      position; hits may be exchanged only against hits equally far away. */
  lemma AnswersAgree(q: Query, pool: set<Hit>, res: seq<Hit>, pool': set<Hit>, res': seq<Hit>)
    requires Answers(q, pool, res) && Answers(q, pool', res')
    requires forall d :: CountWithin(q, pool, d) == CountWithin(q, pool', d)
    ensures Distances(res) == Distances(res')
  {
    LengthAtMost(q, pool, res, pool', res');
    LengthAtMost(q, pool', res', pool, res);
    forall i | 0 <= i < |res| ensures res[i].dist == res'[i].dist {
      NotFarther(q, pool, res, pool', res', i);
      NotFarther(q, pool', res', pool, res, i);
    }
  }

  /** The `i`-th hit of one answer is no farther than the `i`-th of the other. */
  lemma NotFarther(q: Query, pool: set<Hit>, res: seq<Hit>, pool': set<Hit>, res': seq<Hit>, i: nat)
    requires Answers(q, pool, res) && Answers(q, pool', res')
    requires forall d :: CountWithin(q, pool, d) == CountWithin(q, pool', d)
    requires i < |res'|
    ensures i < |res| && res[i].dist <= res'[i].dist
  {
    var d := res'[i].dist;
    AnswerCount(q, pool, res, d);
    AnswerCount(q, pool', res', d);
    Rank(res, Elements(res), d);
    Rank(res', Elements(res'), d);
  }

  lemma LengthAtMost(q: Query, pool: set<Hit>, res: seq<Hit>, pool': set<Hit>, res': seq<Hit>)
    requires Answers(q, pool, res) && Answers(q, pool', res')
    requires forall d :: CountWithin(q, pool, d) == CountWithin(q, pool', d)
    ensures |res'| <= |res|
  {
    if |res| < |res'| {
      NotFarther(q, pool, res, pool', res', |res|);
    }
  }

  /** In particular an answer over one pool has determined distances. */
  lemma AnswerIsDetermined(q: Query, pool: set<Hit>, res: seq<Hit>, res': seq<Hit>)
    requires Answers(q, pool, res) && Answers(q, pool, res')
    ensures Distances(res) == Distances(res')
  {
    AnswersAgree(q, pool, res, pool, res');
  }

  // ----- Answers over part of the pool -----

  /** Every hit left out of `pool` is no favourite and has a full quota of others at most as far away. */
  ghost predicate MissesNothing(q: Query, pool: set<Hit>, all: set<Hit>) {
    forall o :: o in Others(q, all) - pool ==>
      q.limit > 0 && |AtMost(Others(q, pool), o.dist)| >= OtherLimit(q, |Favs(q, all)|, 0)
  }

  /** An answer over part of the hits, all favourites among them, is an answer over all of them exactly
      if the part misses nothing. */
  lemma PartAnswersIff(q: Query, pool: set<Hit>, all: set<Hit>, res: seq<Hit>)
    requires Answers(q, pool, res) && pool <= all && Favs(q, pool) == Favs(q, all)
    ensures Answers(q, all, res) <==> MissesNothing(q, pool, all)
  {
    if MissesNothing(q, pool, all) {
      AnswersWhole(q, pool, all, res);
    }
    if Answers(q, all, res) {
      forall o | o in Others(q, all) - pool
        ensures q.limit > 0 && |AtMost(Others(q, pool), o.dist)| >= OtherLimit(q, |Favs(q, all)|, 0)
      {
        MissedIsCrowdedOut(q, pool, all, res, o);
      }
    }
  }

  lemma AnswersWhole(q: Query, pool: set<Hit>, all: set<Hit>, res: seq<Hit>)
    requires Answers(q, pool, res) && pool <= all && Favs(q, pool) == Favs(q, all) && MissesNothing(q, pool, all)
    ensures Answers(q, all, res)
  {
    var (chosen, inPool, inAll) := (Others(q, Elements(res)), Others(q, pool), Others(q, all));
    SubsetSize(inPool, inAll);
    if o :| o in inAll - pool {
      SubsetSize(AtMost(inPool, o.dist), inPool);
      assert |chosen| == OtherLimit(q, |Favs(q, all)|, 0);
    } else {
      assert inPool == inAll;
    }
    forall o, o' | o in chosen && o' in inAll - Elements(res) ensures o.dist <= o'.dist {
      if o' !in pool {
        NearestCount(inPool, chosen, o'.dist);
        FullSubset(AtMost(chosen, o'.dist), chosen);
        assert o in AtMost(chosen, o'.dist);
      }
    }
  }

  lemma FullSubset<T>(a: set<T>, b: set<T>)
    requires a <= b && |a| >= |b|
    ensures a == b
  {
    assert b == a + (b - a);
  }

  lemma MissedIsCrowdedOut(q: Query, pool: set<Hit>, all: set<Hit>, res: seq<Hit>, o: Hit)
    requires Answers(q, pool, res) && Answers(q, all, res) && pool <= all && Favs(q, pool) == Favs(q, all)
    requires o in Others(q, all) - pool
    ensures q.limit > 0 && |AtMost(Others(q, pool), o.dist)| >= OtherLimit(q, |Favs(q, all)|, 0)
  {
    var (chosen, inPool, inAll) := (Others(q, Elements(res)), Others(q, pool), Others(q, all));
    SubsetSize(inPool, inAll - {o});
    assert |inPool| < |inAll|;
    assert chosen <= AtMost(inPool, o.dist);
    SubsetSize(chosen, AtMost(inPool, o.dist));
  }

  // ----- Answers recognised by their distances -----

  /** Sorted listings with the same distances hold equally many hits within any distance. */
  lemma SameDistancesSameCounts(res: seq<Hit>, res': seq<Hit>, d: real)
    requires SortedBy(res, ByDist) && Lists(res, Elements(res)) && SortedBy(res', ByDist) && Lists(res', Elements(res'))
    requires Distances(res) == Distances(res')
    ensures |AtMost(Elements(res), d)| <= |AtMost(Elements(res'), d)|
  {
    Rank(res, Elements(res), d);
    Rank(res', Elements(res'), d);
    assert |Distances(res)| == |Distances(res')|;
    var c := |AtMost(Elements(res'), d)|;
    if c < |res'| {
      assert Distances(res)[c] == Distances(res')[c];
      assert res[c].dist > d;
    }
  }

  /** Part of a pool with all its favourites, and as many hits within every distance as an answer, is an
      answer. */
  lemma CountsMakeAnAnswer(q: Query, pool: set<Hit>, res: seq<Hit>)
    requires SortedBy(res, ByDist) && Lists(res, Elements(res))
    requires Elements(res) <= pool && Favs(q, Elements(res)) == Favs(q, pool)
    requires |Others(q, Elements(res))| == Least(|Others(q, pool)|, OtherLimit(q, |Favs(q, pool)|, |Others(q, pool)|))
    requires forall d :: |AtMost(Elements(res), d)| == CountWithin(q, pool, d)
    ensures Answers(q, pool, res)
  {
    var (chosen, inPool) := (Others(q, Elements(res)), Others(q, pool));
    forall o, o' | o in chosen && o' in inPool - chosen ensures o.dist <= o'.dist {
      var d := o'.dist;
      var (near, all) := (AtMost(Elements(res), d), AtMost(inPool, d));
      Split(q, near);
      assert |near| == CountWithin(q, pool, d);
      assert Favs(q, near) == AtMost(Favs(q, pool), d) && Others(q, near) == AtMost(chosen, d);
      SubsetSize(AtMost(chosen, d), all - {o'});
      assert |AtMost(chosen, d)| < |all|;
      FullSubset(AtMost(chosen, d), chosen);
      assert o in AtMost(chosen, d);
    }
  }

  /** An answer over part of a pool that has the distances of an answer over all of it is one itself. */
  lemma SameDistancesAnswer(q: Query, found: set<Hit>, pool: set<Hit>, res: seq<Hit>, pool': set<Hit>, res': seq<Hit>)
    requires Answers(q, found, res) && found <= pool && Favs(q, found) == Favs(q, pool)
    requires Answers(q, pool', res') && |Favs(q, pool')| == |Favs(q, pool)| && |Others(q, pool')| == |Others(q, pool)|
    requires forall d :: CountWithin(q, pool', d) == CountWithin(q, pool, d)
    requires Distances(res) == Distances(res')
    ensures Answers(q, pool, res)
  {
    var (chosen, chosen') := (Elements(res), Elements(res'));
    ListsSize(res, chosen);
    ListsSize(res', chosen');
    assert |Distances(res)| == |Distances(res')|;
    assert Favs(q, chosen) == Favs(q, pool) && Favs(q, chosen') == Favs(q, pool');
    Split(q, chosen);
    Split(q, chosen');
    forall d ensures |AtMost(chosen, d)| == CountWithin(q, pool, d) {
      SameDistancesSameCounts(res, res', d);
      SameDistancesSameCounts(res', res, d);
      AnswerCount(q, pool', res', d);
    }
    CountsMakeAnAnswer(q, pool, res);
  }
}
