/** The geographic grid of the location store: filing a coordinate under a cell,
    enumerating the cells a search circle can reach, and the distance to a cell. */
module Grid {
  import opened RealArithmetic

  const METRES_PER_DEG_LAT := 111320.0

  type Positive = r: real | r > 0.0 witness 1.0

  datatype Point = Point(lat: real, lon: real)

  datatype ShardKey = ShardKey(row: int, col: int)

  /** What the grid takes from elsewhere: the cell size in metres, the absolute cosine of a
      latitude given in degrees, and the great-circle distance in metres. */
  datatype Geometry = Geometry(shardM: Positive, cosAbs: real -> real, dist: (Point, Point) -> real)

  function Abs(x: real): real {
    if x < 0.0 then -x else x
  }

  function Max(x: real, y: real): real {
    if x < y then y else x
  }

  function Clamp(x: real, lo: real, hi: real): real {
    if x < lo then lo else if x > hi then hi else x
  }

  // ----- Cell sizes and filing -----

  function LonScale(g: Geometry, lat: real): (s: real)
    ensures s > 0.0
  {
    Max(g.cosAbs(lat), 0.000000001)
  }

  function MetresPerDegLon(g: Geometry, lat: real): (m: real)
    ensures m > 0.0
  {
    METRES_PER_DEG_LAT * LonScale(g, lat)
  }

  function CellLat(g: Geometry): (c: real)
    ensures c > 0.0
  {
    g.shardM / METRES_PER_DEG_LAT
  }

  function CellLon(g: Geometry, lat: real): (c: real)
    ensures c > 0.0
  {
    QuotientPositive(g.shardM, MetresPerDegLon(g, lat));
    g.shardM / MetresPerDegLon(g, lat)
  }

  function CellIndex(x: real, cell: real): int
    requires cell > 0.0
  {
    (x / cell).Floor
  }

  /** `x` moved to the nearest point of the interval that cell `i` covers on one axis. */
  function ClampToCell(x: real, i: int, cell: real): real {
    Clamp(x, i as real * cell, i as real * cell + cell)
  }

  /** Cell `i` is among those from the cell of `x - delta` to the cell of `x + delta`. */
  predicate InBand(x: real, delta: real, cell: real, i: int)
    requires cell > 0.0
  {
    CellIndex(x - delta, cell) <= i <= CellIndex(x + delta, cell)
  }

  /** A coordinate is filed using the longitude cell size at its own latitude. */
  function ShardForCoords(g: Geometry, p: Point): ShardKey {
    ShardKey(CellIndex(p.lat, CellLat(g)), CellIndex(p.lon, CellLon(g, p.lat)))
  }

  // ----- Distance from a query point to a cell -----

  /** The point of the cell's rectangle nearest to `q`, the rectangle being drawn with the
      longitude cell size at the latitude of `q`. */
  function NearestInCell(g: Geometry, q: Point, key: ShardKey): Point {
    Point(ClampToCell(q.lat, key.row, CellLat(g)), ClampToCell(q.lon, key.col, CellLon(g, q.lat)))
  }

  function MinDistToShard(g: Geometry, q: Point, key: ShardKey): real {
    g.dist(q, NearestInCell(g, q, key))
  }

  // ----- The cells a search circle can reach -----

  function LatDelta(radius: real): real {
    radius / METRES_PER_DEG_LAT
  }

  function LonDelta(g: Geometry, q: Point, radius: real): real {
    radius / MetresPerDegLon(g, q.lat)
  }

  predicate InBox(g: Geometry, q: Point, radius: real, key: ShardKey) {
    && InBand(q.lat, LatDelta(radius), CellLat(g), key.row)
    && InBand(q.lon, LonDelta(g, q, radius), CellLon(g, q.lat), key.col)
  }

  predicate Intersecting(g: Geometry, q: Point, radius: real, key: ShardKey) {
    InBox(g, q, radius, key) && MinDistToShard(g, q, key) <= radius
  }

  predicate RowMajorBefore(a: ShardKey, b: ShardKey) {
    a.row < b.row || (a.row == b.row && a.col < b.col)
  }

  /** Lists exactly the intersecting cells, in strict row-major order (so each one once). */
  method IntersectingShards(g: Geometry, q: Point, radius: real) returns (result: seq<ShardKey>)
    ensures forall key :: key in result <==> Intersecting(g, q, radius, key)
    ensures forall i, j :: 0 <= i < j < |result| ==> RowMajorBefore(result[i], result[j])
  {
    var cellLat := CellLat(g);
    var cellLon := CellLon(g, q.lat);
    var rowMin := CellIndex(q.lat - LatDelta(radius), cellLat);
    var rowMax := CellIndex(q.lat + LatDelta(radius), cellLat);
    var colMin := CellIndex(q.lon - LonDelta(g, q, radius), cellLon);
    var colMax := CellIndex(q.lon + LonDelta(g, q, radius), cellLon);
    result := [];
    var row := rowMin;
    while row <= rowMax
      invariant rowMin <= row
      invariant forall key :: key in result <==> Intersecting(g, q, radius, key) && key.row < row
      invariant forall i, j :: 0 <= i < j < |result| ==> RowMajorBefore(result[i], result[j])
      decreases rowMax - row
    {
      var col := colMin;
      while col <= colMax
        invariant colMin <= col
        invariant forall key :: key in result <==>
            Intersecting(g, q, radius, key) && (key.row < row || (key.row == row && key.col < col))
        invariant forall i, j :: 0 <= i < j < |result| ==> RowMajorBefore(result[i], result[j])
        decreases colMax - col
      {
        var nearest := Point(ClampToCell(q.lat, row, cellLat), ClampToCell(q.lon, col, cellLon));
        var minDist := g.dist(q, nearest);
        if minDist <= radius {
          result := result + [ShardKey(row, col)];
        }
        col := col + 1;
      }
      row := row + 1;
    }
  }

  // ----- The two obligations that make the search sound -----

  /** The metric is at least the difference along each axis, in the grid's own metres per degree. */
  predicate Dominates(g: Geometry, q: Point, p: Point) {
    && Abs(p.lat - q.lat) * METRES_PER_DEG_LAT <= g.dist(q, p)
    && Abs(p.lon - q.lon) * MetresPerDegLon(g, q.lat) <= g.dist(q, p)
  }

  predicate CloserOnBothAxes(q: Point, a: Point, b: Point) {
    Abs(a.lat - q.lat) <= Abs(b.lat - q.lat) && Abs(a.lon - q.lon) <= Abs(b.lon - q.lon)
  }

  ghost predicate MonotoneFrom(g: Geometry, q: Point) {
    forall a, b :: CloserOnBothAxes(q, a, b) ==> g.dist(q, a) <= g.dist(q, b)
  }

  /** A cell's minimum distance never exceeds the distance to a point filed in it, when both
      latitudes give one cell width and the metric grows along each axis. */
  lemma CellBoundsItsPoints(g: Geometry, q: Point, p: Point)
    requires LonScale(g, q.lat) == LonScale(g, p.lat)
    requires MonotoneFrom(g, q)
    ensures MinDistToShard(g, q, ShardForCoords(g, p)) <= g.dist(q, p)
  {
    ClampIntoOwnCell(q.lat, p.lat, CellLat(g));
    ClampIntoOwnCell(q.lon, p.lon, CellLon(g, q.lat));
    assert CloserOnBothAxes(q, NearestInCell(g, q, ShardForCoords(g, p)), p);
  }

  /** Every point within the radius is filed under a cell the enumeration returns, when both
      latitudes give one cell width and the metric dominates each axis. */
  lemma CoversEveryPointInRadius(g: Geometry, q: Point, radius: real, p: Point)
    requires LonScale(g, q.lat) == LonScale(g, p.lat)
    requires MonotoneFrom(g, q) && Dominates(g, q, p)
    requires g.dist(q, p) <= radius
    ensures Intersecting(g, q, radius, ShardForCoords(g, p))
  {
    CellBoundsItsPoints(g, q, p);
    RowInBand(g, q, radius, p);
    ColInBand(g, q, radius, p);
  }

  lemma RowInBand(g: Geometry, q: Point, radius: real, p: Point)
    requires Abs(p.lat - q.lat) * METRES_PER_DEG_LAT <= radius
    ensures InBand(q.lat, LatDelta(radius), CellLat(g), ShardForCoords(g, p).row)
  {
    OwnCellInBand(q.lat, p.lat, METRES_PER_DEG_LAT, radius, CellLat(g));
  }

  lemma ColInBand(g: Geometry, q: Point, radius: real, p: Point)
    requires LonScale(g, q.lat) == LonScale(g, p.lat)
    requires Abs(p.lon - q.lon) * MetresPerDegLon(g, q.lat) <= radius
    ensures InBand(q.lon, LonDelta(g, q, radius), CellLon(g, q.lat), ShardForCoords(g, p).col)
  {
    OwnCellInBand(q.lon, p.lon, MetresPerDegLon(g, q.lat), radius, CellLon(g, q.lat));
  }

  /** The query's own cell is always returned and is at distance zero, whatever the cosine does. */
  lemma HomeCellIsReached(g: Geometry, q: Point, radius: real)
    requires radius >= 0.0 && g.dist(q, q) == 0.0
    ensures Intersecting(g, q, radius, ShardForCoords(g, q))
    ensures MinDistToShard(g, q, ShardForCoords(g, q)) == 0.0
  {
    ClampIntoOwnCell(q.lat, q.lat, CellLat(g));
    ClampIntoOwnCell(q.lon, q.lon, CellLon(g, q.lat));
    assert NearestInCell(g, q, ShardForCoords(g, q)) == q;
    RowInBand(g, q, radius, q);
    ColInBand(g, q, radius, q);
  }

  // ----- A planar grid meets both obligations -----

  /** One cell width everywhere, and a metric that dominates both axes and grows along them. */
  ghost predicate Planar(g: Geometry) {
    && (forall a, b :: LonScale(g, a) == LonScale(g, b))
    && (forall q, p :: Dominates(g, q, p))
    && (forall q :: MonotoneFrom(g, q))
  }

  ghost predicate Metric(dist: (Point, Point) -> real) {
    && (forall p :: dist(p, p) == 0.0)
    && (forall p, q :: dist(p, q) >= 0.0)
    && (forall p, q, r :: dist(p, r) <= dist(p, q) + dist(q, r))
  }

  function Moved(p: Point, north: real, east: real): Point {
    Point(p.lat + north, p.lon + east)
  }

  /** Distances do not depend on where one counts from. */
  ghost predicate ShiftInvariant(g: Geometry) {
    forall q, p, north, east :: g.dist(Moved(q, north, east), Moved(p, north, east)) == g.dist(q, p)
  }

  function MaxNormDist(scale: Positive, p: Point, q: Point): real {
    METRES_PER_DEG_LAT * Max(Abs(q.lat - p.lat), Abs(q.lon - p.lon) * scale)
  }

  function MaxNorm(scale: Positive): (Point, Point) -> real {
    (p: Point, q: Point) => MaxNormDist(scale, p, q)
  }

  /** Grids of this kind exist, for every cell size: a constant cosine of one, with the larger
      of the two axis differences as the distance. */
  lemma PlanarGridExists(shardM: Positive)
    ensures Planar(Geometry(shardM, lat => 1.0, MaxNorm(1.0)))
    ensures ShiftInvariant(Geometry(shardM, lat => 1.0, MaxNorm(1.0)))
    ensures Metric(MaxNorm(1.0))
  {
    var g := Geometry(shardM, lat => 1.0, MaxNorm(1.0));
    var d := MaxNorm(1.0);
    assert forall p, q :: d(p, q) == MaxNormDist(1.0, p, q);
    assert forall q, p :: Dominates(g, q, p);
    assert forall q :: MonotoneFrom(g, q);
    assert forall p, q, r :: d(p, r) <= d(p, q) + d(q, r);
  }

  // ----- The obligations fail when either assumption does -----

  /** Two latitudes, two cell widths: with a cosine falling by 0.015 per degree, as it does near
      60 degrees, a point 557 m north is filed in a column the search does not enumerate. */
  lemma TwoLatitudesLoseAPoint() returns (g: Geometry, q: Point, p: Point, radius: real)
    ensures g.dist(q, p) <= radius && MonotoneFrom(g, q) && Dominates(g, q, p)
    ensures !Intersecting(g, q, radius, ShardForCoords(g, p))
  {
    g := Geometry(1113.2, lat => 0.5 - 0.015 * (lat - 60.0), MaxNorm(0.5));
    q, p, radius := Point(60.0, 170.01), Point(60.005, 170.01), 556.6;
    assert CellLat(g) == 0.01;
    assert LonScale(g, 60.0) == 0.5 && LonScale(g, 60.005) == 0.499925;
    assert CellLon(g, q.lat) == 0.02;
    assert q.lon - LonDelta(g, q, radius) == 170.0;
    assert CellIndex(170.0, 0.02) == 8500;
    assert p.lon / CellLon(g, p.lat) < 8500.0 by {
      assert CellLon(g, p.lat) == 1113.2 / (111320.0 * 0.499925);
    }
    assert ShardForCoords(g, p).col < 8500;
    assert !InBox(g, q, radius, ShardForCoords(g, p));
    assert g.dist(q, p) <= radius;
    forall a, b | CloserOnBothAxes(q, a, b) ensures g.dist(q, a) <= g.dist(q, b) {
      assert g.dist(q, a) == MaxNormDist(0.5, q, a) && g.dist(q, b) == MaxNormDist(0.5, q, b);
    }
    assert Dominates(g, q, p) by {
      assert g.dist(q, p) == MaxNormDist(0.5, q, p);
    }
  }

  /** One latitude scale but a metric that is 0.1 % shorter per degree than the grid assumes (a
      sphere of 6 371 000 m has under 111 195 m to the degree): a point inside the radius lies
      in a row the search does not enumerate. */
  lemma ShorterDegreesLoseAPoint() returns (g: Geometry, q: Point, p: Point, radius: real)
    ensures forall a, b :: LonScale(g, a) == LonScale(g, b)
    ensures g.dist(q, p) <= radius && MonotoneFrom(g, q)
    ensures !Intersecting(g, q, radius, ShardForCoords(g, p))
  {
    g := Geometry(1113.2, lat => 1.0, (a: Point, b: Point) => 111195.0 * Max(Abs(b.lat - a.lat), Abs(b.lon - a.lon)));
    q, p, radius := Point(0.000005, 0.0), Point(0.01, 0.0), 111195.0 * 0.009995;
    assert CellLat(g) == 0.01;
    assert q.lat + LatDelta(radius) < 0.01;
    assert CellIndex(q.lat + LatDelta(radius), 0.01) < 1;
    assert ShardForCoords(g, p).row == 1;
    assert !InBox(g, q, radius, ShardForCoords(g, p));
    forall a, b | CloserOnBothAxes(q, a, b) ensures g.dist(q, a) <= g.dist(q, b) {}
    assert MonotoneFrom(g, q);
    assert g.dist(q, p) <= radius;
  }

  // ----- One axis at a time -----

  lemma IndexMonotone(x: real, y: real, cell: real)
    requires cell > 0.0 && x <= y
    ensures CellIndex(x, cell) <= CellIndex(y, cell)
  {
    QuotientTimes(x, cell);
    LeQuotient(cell, x / cell, y);
  }

  /** A number between `i` and `i + 1` cells lies between the edges of cell `i`. */
  lemma BetweenEdges(i: real, y: real, x: real, cell: real)
    requires cell > 0.0 && y * cell == x && i <= y <= i + 1.0
    ensures i * cell <= x <= i * cell + cell
  {
    ProductNonNegative(y - i, cell);
    ProductNonNegative(i + 1.0 - y, cell);
    Distributes(y - i, i, cell);
    Distributes(i + 1.0 - y, y - i, cell);
  }

  /** Clamping `q` into the cell of `x` takes it no farther than `x` is. */
  lemma ClampIntoOwnCell(q: real, x: real, cell: real)
    requires cell > 0.0
    ensures Abs(ClampToCell(q, CellIndex(x, cell), cell) - q) <= Abs(x - q)
  {
    QuotientTimes(x, cell);
    BetweenEdges(CellIndex(x, cell) as real, x / cell, x, cell);
  }

  lemma OwnCellInBand(q: real, x: real, metresPerDeg: real, radius: real, cell: real)
    requires cell > 0.0
    requires metresPerDeg > 0.0 && Abs(x - q) * metresPerDeg <= radius
    ensures InBand(q, radius / metresPerDeg, cell, CellIndex(x, cell))
  {
    LeQuotient(metresPerDeg, Abs(x - q), radius);
    IndexMonotone(q - radius / metresPerDeg, x, cell);
    IndexMonotone(x, q + radius / metresPerDeg, cell);
  }
}
