/** When the search covers its radius: the exact condition, over all points of the plane. */
module GridCoverage {
  import opened RealArithmetic
  import opened Grid

  /** Whatever the radius, a point within it is filed in an enumerated cell. */
  ghost predicate CoversAll(g: Geometry) {
    forall q, p, radius :: g.dist(q, p) <= radius ==> Intersecting(g, q, radius, ShardForCoords(g, p))
  }

  /** No cell claims to be farther away than a point filed in it. */
  ghost predicate BoundsAll(g: Geometry) {
    forall q, p :: MinDistToShard(g, q, ShardForCoords(g, p)) <= g.dist(q, p)
  }

  ghost predicate OneScale(g: Geometry) {
    forall a, b :: LonScale(g, a) == LonScale(g, b)
  }

  ghost predicate AlwaysDominates(g: Geometry) {
    forall q, p :: Dominates(g, q, p)
  }

  ghost predicate AlwaysMonotone(g: Geometry) {
    forall q :: MonotoneFrom(g, q)
  }

  /** Distances do not depend on the meridian one counts from. */
  ghost predicate EastInvariant(g: Geometry) {
    forall q, p, east :: g.dist(Moved(q, 0.0, east), Moved(p, 0.0, east)) == g.dist(q, p)
  }

  // ----- Two cell widths drift apart -----

  /** Counted in cells of two widths, far enough along the axis a column's left edge in one width is
      farther east than any given distance beyond the point that fell into it in the other. */
  lemma WidthsDriftApart(a: real, b: real, delta: real) returns (x: real)
    requires a > 0.0 && b > 0.0 && a != b
    ensures CellIndex(x, b) as real * a > x + delta
  {
    var y := (delta + a) / (a - b);
    x := y * b;
    assert x / b == y;
    var k := CellIndex(x, b) as real;
    assert k > y - 1.0;
    ProductPositive(k - y + 1.0, a);
    assert (k - y + 1.0) * a == k * a - y * a + a;
    assert y * (a - b) == delta + a;
    assert y * (a - b) == y * a - x;
  }

  lemma IndexBelowEdge(x: real, i: int, cell: real)
    requires cell > 0.0 && x < i as real * cell
    ensures CellIndex(x, cell) < i
  {
    QuotientBelow(x, i as real, cell);
  }

  lemma WidthsDiffer(g: Geometry, a: real, b: real)
    requires LonScale(g, a) != LonScale(g, b)
    ensures CellLon(g, a) != CellLon(g, b)
  {
    var (u, v) := (MetresPerDegLon(g, a), MetresPerDegLon(g, b));
    if g.shardM / u == g.shardM / v {
      QuotientTimes(g.shardM, u);
      QuotientTimes(g.shardM, v);
      SameQuotient(g.shardM / u, u, v);
    }
  }

  lemma SameQuotient(k: real, u: real, v: real)
    requires k > 0.0 && k * u == k * v
    ensures u == v
  {
    if u > v {
      ProductPositive(k, u - v);
    } else if u < v {
      ProductPositive(k, v - u);
    }
  }

  /** With two scales two points lie so far east that the column of one, drawn at the other's
      latitude, begins beyond their distance from each other. */
  lemma ColumnDriftsAway(g: Geometry, a: real, b: real) returns (q: Point, p: Point)
    requires EastInvariant(g) && LonScale(g, a) != LonScale(g, b)
    ensures q.lat == a && p.lat == b
    ensures ShardForCoords(g, p).col as real * CellLon(g, a) > q.lon + LonDelta(g, q, g.dist(q, p))
  {
    WidthsDiffer(g, a, b);
    var (q0, p0) := (Point(a, 0.0), Point(b, 0.0));
    var x := WidthsDriftApart(CellLon(g, a), CellLon(g, b), LonDelta(g, q0, g.dist(q0, p0)));
    q, p := Moved(q0, 0.0, x), Moved(p0, 0.0, x);
    assert q == Point(a, x) && p == Point(b, x);
  }

  // ----- One scale is needed -----

  lemma TwoScalesLoseAPoint(g: Geometry, a: real, b: real)
    requires EastInvariant(g) && LonScale(g, a) != LonScale(g, b)
    ensures !CoversAll(g)
  {
    var q, p := ColumnDriftsAway(g, a, b);
    var radius := g.dist(q, p);
    IndexBelowEdge(q.lon + LonDelta(g, q, radius), ShardForCoords(g, p).col, CellLon(g, a));
    assert !InBand(q.lon, LonDelta(g, q, radius), CellLon(g, q.lat), ShardForCoords(g, p).col);
    assert !Intersecting(g, q, radius, ShardForCoords(g, p));
  }

  lemma TwoScalesExaggerate(g: Geometry, a: real, b: real)
    requires EastInvariant(g) && AlwaysDominates(g) && LonScale(g, a) != LonScale(g, b)
    ensures !BoundsAll(g)
  {
    var q, p := ColumnDriftsAway(g, a, b);
    assert Dominates(g, q, p);
    BeyondDistance(g, q, p, NearestInCell(g, q, ShardForCoords(g, p)));
  }

  lemma BeyondDistance(g: Geometry, q: Point, p: Point, near: Point)
    requires AlwaysDominates(g) && near == NearestInCell(g, q, ShardForCoords(g, p))
    requires ShardForCoords(g, p).col as real * CellLon(g, q.lat) > q.lon + LonDelta(g, q, g.dist(q, p))
    ensures g.dist(q, near) > g.dist(q, p)
  {
    hide MetresPerDegLon, CellLon, ShardForCoords, CellLat;
    var (radius, k) := (g.dist(q, p), MetresPerDegLon(g, q.lat));
    assert Dominates(g, q, p) && Dominates(g, q, near);
    ProductNonNegative(Abs(p.lon - q.lon), k);
    QuotientBelow(radius, 0.0, k);
    assert near.lon - q.lon > radius / k;
    QuotientBelow(radius, near.lon - q.lon, k);
  }

  /** With a metric that dominates each axis, grows along each and does not depend on the meridian,
      the enumerated cells cover every radius exactly if one longitude scale serves all latitudes. */
  lemma CoversAllIffOneScale(g: Geometry)
    requires AlwaysMonotone(g) && AlwaysDominates(g) && EastInvariant(g)
    ensures CoversAll(g) <==> OneScale(g)
  {
    if OneScale(g) {
      forall q, p, radius | g.dist(q, p) <= radius ensures Intersecting(g, q, radius, ShardForCoords(g, p)) {
        CoversEveryPointInRadius(g, q, radius, p);
      }
    } else {
      var a, b :| LonScale(g, a) != LonScale(g, b);
      TwoScalesLoseAPoint(g, a, b);
    }
  }

  /** Under the same conditions so is the bound that early exit rests on. */
  lemma BoundsAllIffOneScale(g: Geometry)
    requires AlwaysMonotone(g) && AlwaysDominates(g) && EastInvariant(g)
    ensures BoundsAll(g) <==> OneScale(g)
  {
    if OneScale(g) {
      forall q, p ensures MinDistToShard(g, q, ShardForCoords(g, p)) <= g.dist(q, p) {
        CellBoundsItsPoints(g, q, p);
      }
    } else {
      var a, b :| LonScale(g, a) != LonScale(g, b);
      TwoScalesExaggerate(g, a, b);
    }
  }

  // ----- Dominating both axes is needed -----

  /** A coordinate farther off than the radius reaches is lost once an edge is moved between. */
  lemma EdgeBetween(q: real, p: real, metresPerDeg: real, radius: real, cell: real) returns (shift: real)
    requires cell > 0.0 && metresPerDeg > 0.0 && Abs(p - q) * metresPerDeg > radius
    ensures !InBand(q + shift, radius / metresPerDeg, cell, CellIndex(p + shift, cell))
  {
    var delta := radius / metresPerDeg;
    QuotientBelow(radius, Abs(p - q), metresPerDeg);
    if p >= q {
      shift := -p;
      assert (p + shift) / cell == 0.0;
      IndexBelowEdge(q + shift + delta, 0, cell);
    } else {
      shift := delta - q;
      assert (q + shift - delta) / cell == 0.0;
      IndexBelowEdge(p + shift, 0, cell);
    }
  }

  lemma ShortAxisLosesAPoint(g: Geometry, q: Point, p: Point)
    requires OneScale(g) && ShiftInvariant(g) && !Dominates(g, q, p)
    ensures !CoversAll(g)
  {
    var radius := g.dist(q, p);
    if Abs(p.lat - q.lat) * METRES_PER_DEG_LAT > radius {
      var north := EdgeBetween(q.lat, p.lat, METRES_PER_DEG_LAT, radius, CellLat(g));
      var (q', p') := (Moved(q, north, 0.0), Moved(p, north, 0.0));
      assert g.dist(q', p') <= radius && !Intersecting(g, q', radius, ShardForCoords(g, p'));
    } else {
      var east := EdgeBetween(q.lon, p.lon, MetresPerDegLon(g, q.lat), radius, CellLon(g, q.lat));
      var (q', p') := (Moved(q, 0.0, east), Moved(p, 0.0, east));
      assert LonScale(g, p'.lat) == LonScale(g, q'.lat) == LonScale(g, q.lat);
      assert g.dist(q', p') <= radius && !Intersecting(g, q', radius, ShardForCoords(g, p'));
    }
  }

  /** With one scale and a shift-invariant metric growing along each axis, the enumerated cells cover
      every radius exactly if the metric dominates each axis. */
  lemma CoversAllIffDominates(g: Geometry)
    requires OneScale(g) && AlwaysMonotone(g) && ShiftInvariant(g)
    ensures CoversAll(g) <==> AlwaysDominates(g)
  {
    if AlwaysDominates(g) {
      forall q, p, radius | g.dist(q, p) <= radius ensures Intersecting(g, q, radius, ShardForCoords(g, p)) {
        CoversEveryPointInRadius(g, q, radius, p);
      }
    } else {
      var q, p :| !Dominates(g, q, p);
      ShortAxisLosesAPoint(g, q, p);
    }
  }

  /** Altogether, for a shift-invariant metric growing along each axis, covering every radius is being
      planar: one scale, and no axis shorter in the metric than in the grid. */
  lemma CoversAllIffPlanar(g: Geometry)
    requires AlwaysMonotone(g) && ShiftInvariant(g)
    ensures CoversAll(g) <==> Planar(g)
  {
    assert EastInvariant(g);
    if OneScale(g) {
      CoversAllIffDominates(g);
    } else {
      var a, b :| LonScale(g, a) != LonScale(g, b);
      TwoScalesLoseAPoint(g, a, b);
    }
  }
}
