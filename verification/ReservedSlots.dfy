/** The last stage of a nearby query, shared by both backends: favourites take their slots first
    and the nearest others fill what the limit leaves. */
module ReservedSlots {
  import opened Ordering
  import opened NearbySpec

  /** One side of the partition by membership in the favourites; order is kept. */
  function Part(q: Query, res: seq<Hit>, fav: bool): (part: seq<Hit>)
    ensures forall h :: multiset(part)[h] == if IsFav(q, h) == fav then multiset(res)[h] else 0
    ensures SortedBy(res, ByDist) ==> SortedBy(part, ByDist)
  {
    if res == [] then []
    else
      var rest := Part(q, res[1..], fav);
      assert res == [res[0]] + res[1..];
      if IsFav(q, res[0]) != fav then rest
      else
        (HeadStaysLeast(res, rest); [res[0]] + rest)
  }

  lemma HeadStaysLeast(res: seq<Hit>, rest: seq<Hit>)
    requires res != []
    requires forall h :: multiset(rest)[h] <= multiset(res[1..])[h]
    requires SortedBy(res[1..], ByDist) ==> SortedBy(rest, ByDist)
    ensures SortedBy(res, ByDist) ==> SortedBy([res[0]] + rest, ByDist)
  {
    if SortedBy(res, ByDist) {
      forall i | 0 <= i < |rest| ensures ByDist(res[0]) <= ByDist(rest[i]) {
        assert rest[i] in multiset(rest);
        assert rest[i] in multiset(res[1..]);
        var j :| 0 <= j < |res[1..]| && res[1..][j] == rest[i];
        assert ByDist(res[0]) <= ByDist(res[j + 1]);
      }
    }
  }

  function ReserveSlots(q: Query, results: seq<Hit>): seq<Hit> {
    var favs := Part(q, results, true);
    var others := Part(q, results, false);
    SortBy(favs + others[..Least(|others|, OtherLimit(q, |favs|, |others|))], ByDist)
  }

  lemma PartLists(q: Query, res: seq<Hit>, hits: set<Hit>)
    requires Lists(res, hits)
    ensures Lists(Part(q, res, true), Favs(q, hits))
    ensures Lists(Part(q, res, false), Others(q, hits))
  {
  }

  /** The set of the first `k` hits of a listing. */
  lemma TakeLists(res: seq<Hit>, hits: set<Hit>, k: nat)
    requires Lists(res, hits) && k <= |res|
    ensures Lists(res[..k], Elements(res[..k]))
    ensures Elements(res[..k]) <= hits && |Elements(res[..k])| == k
    ensures hits - Elements(res[..k]) == Elements(res[k..])
  {
    ListsSize(res, hits);
    assert res == res[..k] + res[k..];
    assert multiset(res) == multiset(res[..k]) + multiset(res[k..]);
    forall h ensures multiset(res[..k])[h] == multiset(Elements(res[..k]))[h]
             ensures h in hits - Elements(res[..k]) <==> h in Elements(res[k..])
    {
      assert multiset(res)[h] == multiset(hits)[h] <= 1;
      assert h in res[..k] <==> multiset(res[..k])[h] > 0;
      assert h in res[k..] <==> multiset(res[k..])[h] > 0;
    }
    ListsSize(res[..k], Elements(res[..k]));
  }

  /** The others not found are all beyond `bound`, within which `limit` hits were found. */
  ghost predicate MissesOnlyBeyond(q: Query, pool: set<Hit>, found: set<Hit>, bound: real) {
    && q.limit > 0
    && |AtMost(found, bound)| >= q.limit
    && (forall o :: o in Others(q, pool) - found ==> o.dist > bound)
  }

  /** Slots reserved over what a search found answer the query over the whole pool, provided it
      found every favourite, and every other or at least `limit` hits nearer than those missed. */
  lemma ReserveSlotsAnswers(q: Query, pool: set<Hit>, found: set<Hit>, results: seq<Hit>, bound: real)
    requires SortedBy(results, ByDist) && Lists(results, found)
    requires found <= pool && Favs(q, pool) <= found
    requires Others(q, pool) <= found || MissesOnlyBeyond(q, pool, found, bound)
    ensures Answers(q, pool, ReserveSlots(q, results))
  {
    var (favs, others) := (Part(q, results, true), Part(q, results, false));
    PartLists(q, results, found);
    assert Favs(q, found) == Favs(q, pool);
    ListsSize(favs, Favs(q, pool));
    ListsSize(others, Others(q, found));
    var k := Least(|others|, OtherLimit(q, |favs|, |others|));
    TakeLists(others, Others(q, found), k);
    QuotaAndBound(q, pool, found, others, k, bound);
    Assembled(q, pool, found, favs, others, k);
  }

  /** The number taken is the specified quota and nothing missed is nearer than what is taken. */
  lemma QuotaAndBound(q: Query, pool: set<Hit>, found: set<Hit>, others: seq<Hit>, k: nat, bound: real)
    requires SortedBy(others, ByDist) && Lists(others, Others(q, found))
    requires found <= pool && Favs(q, pool) == Favs(q, found)
    requires k == Least(|others|, OtherLimit(q, |Favs(q, pool)|, |others|))
    requires Others(q, pool) <= found || MissesOnlyBeyond(q, pool, found, bound)
    ensures k == Least(|Others(q, pool)|, OtherLimit(q, |Favs(q, pool)|, |Others(q, pool)|))
    ensures forall i, o :: 0 <= i < k && o in Others(q, pool) - found ==> others[i].dist <= o.dist
  {
    ListsSize(others, Others(q, found));
    if Others(q, pool) <= found {
      assert Others(q, pool) == Others(q, found);
    } else {
      Split(q, AtMost(found, bound));
      assert Favs(q, AtMost(found, bound)) <= Favs(q, pool);
      SubsetSize(Favs(q, AtMost(found, bound)), Favs(q, pool));
      assert Others(q, AtMost(found, bound)) == AtMost(Others(q, found), bound);
      Rank(others, Others(q, found), bound);
      SubsetSize(Others(q, found), Others(q, pool));
    }
  }

  lemma TakenAreNearest(q: Query, pool: set<Hit>, found: set<Hit>, others: seq<Hit>, k: nat)
    requires Lists(others, Others(q, found)) && SortedBy(others, ByDist) && k <= |others|
    requires forall i, o :: 0 <= i < k && o in Others(q, pool) - found ==> others[i].dist <= o.dist
    ensures forall o, o' :: o in Elements(others[..k]) && o' in Others(q, pool) - Elements(others[..k])
              ==> o.dist <= o'.dist
  {
    TakeLists(others, Others(q, found), k);
    forall o, o' | o in Elements(others[..k]) && o' in Others(q, pool) - Elements(others[..k])
      ensures o.dist <= o'.dist
    {
      var i :| 0 <= i < |others[..k]| && others[..k][i] == o;
      assert others[i] == o;
      if o' in found {
        assert o' in Others(q, found) - Elements(others[..k]);
        var j :| 0 <= j < |others[k..]| && others[k..][j] == o';
        assert ByDist(others[i]) <= ByDist(others[k + j]);
      }
    }
  }

  lemma Assembled(q: Query, pool: set<Hit>, found: set<Hit>, favs: seq<Hit>, others: seq<Hit>, k: nat)
    requires Lists(favs, Favs(q, pool)) && Lists(others, Others(q, found)) && SortedBy(others, ByDist)
    requires found <= pool && k <= |others|
    requires k == Least(|Others(q, pool)|, OtherLimit(q, |Favs(q, pool)|, |Others(q, pool)|))
    requires forall i, o :: 0 <= i < k && o in Others(q, pool) - found ==> others[i].dist <= o.dist
    ensures Answers(q, pool, SortBy(favs + others[..k], ByDist))
  {
    var taken := Elements(others[..k]);
    TakeLists(others, Others(q, found), k);
    TakenAreNearest(q, pool, found, others, k);
    assert taken <= Others(q, pool);
    var res := SortBy(favs + others[..k], ByDist);
    assert Lists(res, Favs(q, pool) + taken) by {
      assert multiset(favs + others[..k]) == multiset(favs) + multiset(others[..k]);
      DisjointUnion(Favs(q, pool), taken);
    }
    FavsAndNearestAnswer(q, pool, taken, res);
  }

  lemma FavsAndNearestAnswer(q: Query, pool: set<Hit>, taken: set<Hit>, res: seq<Hit>)
    requires SortedBy(res, ByDist) && Lists(res, Favs(q, pool) + taken)
    requires taken <= Others(q, pool)
    requires |taken| == Least(|Others(q, pool)|, OtherLimit(q, |Favs(q, pool)|, |Others(q, pool)|))
    requires forall o, o' :: o in taken && o' in Others(q, pool) - taken ==> o.dist <= o'.dist
    ensures Answers(q, pool, res)
  {
    ListsSize(res, Favs(q, pool) + taken);
    assert Others(q, Favs(q, pool) + taken) == taken;
  }

  lemma DisjointUnion<T>(a: set<T>, b: set<T>)
    requires a !! b
    ensures multiset(a + b) == multiset(a) + multiset(b)
  {
  }

  /** A limited answer keeps to its limit exactly if the favourites in range do: they are never
      dropped. Short of that, the answer is as long as the limit and the pool allow. */
  lemma FitsLimitIff(q: Query, pool: set<Hit>, res: seq<Hit>)
    requires Answers(q, pool, res) && q.limit > 0
    ensures |res| <= q.limit <==> |Favs(q, pool)| <= q.limit
    ensures |Favs(q, pool)| <= q.limit ==> |res| == Least(q.limit, |pool|)
  {
    var chosen := Elements(res);
    ListsSize(res, chosen);
    assert Favs(q, chosen) == Favs(q, pool);
    Split(q, chosen);
    Split(q, pool);
  }
}
