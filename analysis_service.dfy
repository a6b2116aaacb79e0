/** The suitability scorer: tessellates the polygon, derives two growth
    drivers from its vertices (the vertex mean as city centre, the bounding
    box diagonal as a road), and scores every cell by its distances to them,
    blended with fixed weights, perturbed by bounded noise, clamped and
    categorised.

    The square root, the noise draws and the tessellator's geometry are
    passed in as functions. */
module AnalysisService {
  import opened Coordinates
  import opened GridUtils

  /** What the model relies on of the square root it is given: on non-negative
      arguments it is non-negative, and zero exactly at zero. */
  ghost predicate IsSqrt(sqrt: real -> real)
  {
    forall v: real :: 0.0 <= v ==> 0.0 <= sqrt(v) && (sqrt(v) == 0.0 <==> v == 0.0)
  }

  function Abs(v: real): real
  {
    if v < 0.0 then -v else v
  }

  /** `v**2`. */
  function Sq(v: real): real
  {
    v * v
  }

  /** A square is non-negative, and zero exactly at zero. */
  lemma Square(a: real)
    ensures 0.0 <= Sq(a)
    ensures Sq(a) == 0.0 <==> a == 0.0
  {
    if a < 0.0 {
      calc {
        Sq(a);
        (-a) * (-a);
        > { PositiveProduct(-a); }
        0.0;
      }
    } else if 0.0 < a {
      calc {
        Sq(a);
        a * a;
        > { PositiveProduct(a); }
        0.0;
      }
    }
  }

  lemma PositiveProduct(a: real)
    requires 0.0 < a
    ensures 0.0 < a * a
  {
  }

  /** A sum of two squares is non-negative, and zero only when both are. */
  lemma SumOfSquares(a: real, b: real)
    ensures 0.0 <= Sq(a) + Sq(b)
    ensures Sq(a) + Sq(b) == 0.0 <==> a == 0.0 && b == 0.0
  {
    Square(a);
    Square(b);
  }

  /** Twice the signed area of the triangle (lineStart, lineEnd, point) in the
      (lng, lat) plane: zero exactly when the point lies on the line through
      the other two (and always when those coincide). */
  function Cross(point: LatLng, lineStart: LatLng, lineEnd: LatLng): real
  {
    (lineEnd.lng - lineStart.lng) * (point.lat - lineStart.lat)
    - (lineEnd.lat - lineStart.lat) * (point.lng - lineStart.lng)
  }

  /** The squared straight-line distance in degree space. */
  function SquaredDistance(p: LatLng, q: LatLng): (s: real)
    ensures 0.0 <= s
    ensures s == 0.0 <==> p == q
  {
    var dLat, dLng := p.lat - q.lat, p.lng - q.lng;
    SumOfSquares(dLat, dLng);
    Sq(dLat) + Sq(dLng)
  }

  /** Straight-line distance in degree space. */
  function EuclideanDistance(p: LatLng, q: LatLng, sqrt: real -> real): (d: real)
    requires IsSqrt(sqrt)
    ensures 0.0 <= d
    ensures d == 0.0 <==> p == q
  {
    sqrt(SquaredDistance(p, q))
  }

  /** Distance from a point to the infinite line through lineStart and lineEnd,
      from the line equation A x + B y + C = 0; a line given by one point
      twice has distance 0 to everything. */
  function DistPointToLine(point: LatLng, lineStart: LatLng, lineEnd: LatLng, sqrt: real -> real): (d: real)
    requires IsSqrt(sqrt)
    ensures 0.0 <= d
    ensures lineStart == lineEnd ==> d == 0.0
    ensures d == 0.0 <==> Cross(point, lineStart, lineEnd) == 0.0
    ensures lineStart != lineEnd ==>
              d == Abs(Cross(point, lineStart, lineEnd)) / EuclideanDistance(lineStart, lineEnd, sqrt)
  {
    var y, x := point.lat, point.lng;
    var y1, x1 := lineStart.lat, lineStart.lng;
    var y2, x2 := lineEnd.lat, lineEnd.lng;
    var a := y1 - y2;
    var b := x2 - x1;
    var c := x1 * y2 - x2 * y1;
    assert a * x + b * y + c == Cross(point, lineStart, lineEnd);
    assert Sq(a) + Sq(b) == SquaredDistance(lineStart, lineEnd);
    var denom := sqrt(Sq(a) + Sq(b));
    assert denom == EuclideanDistance(lineStart, lineEnd, sqrt);
    if denom == 0.0 then 0.0
    else Abs(a * x + b * y + c) / denom
  }

  /** Swapping the two points that give the line leaves the distance unchanged. */
  lemma DistPointToLineSymmetric(point: LatLng, lineStart: LatLng, lineEnd: LatLng, sqrt: real -> real)
    requires IsSqrt(sqrt)
    ensures DistPointToLine(point, lineStart, lineEnd, sqrt) == DistPointToLine(point, lineEnd, lineStart, sqrt)
  {
    if lineStart != lineEnd {
      assert Cross(point, lineEnd, lineStart) == -Cross(point, lineStart, lineEnd);
      var dLat, dLng := lineStart.lat - lineEnd.lat, lineStart.lng - lineEnd.lng;
      assert Sq(-dLat) + Sq(-dLng) == Sq(dLat) + Sq(dLng);
      assert SquaredDistance(lineStart, lineEnd) == SquaredDistance(lineEnd, lineStart);
      assert EuclideanDistance(lineStart, lineEnd, sqrt) == EuclideanDistance(lineEnd, lineStart, sqrt);
    }
  }

  /** 0.03 degrees, about 3 km: beyond this a driver has no influence. */
  const MaxInfluenceDist: real := 0.03

  /** `max(0, 1 - d / MaxInfluenceDist)`: 1 at the driver, falling linearly
      to 0 at the influence distance and staying 0 beyond it. */
  function InfluenceScore(d: real): (s: real)
    ensures 0.0 <= s
    ensures 0.0 <= d ==> s <= 1.0
    ensures 0.0 <= d ==> (s == 1.0 <==> d == 0.0)
    ensures s == 0.0 <==> MaxInfluenceDist <= d
  {
    Max2(0.0, 1.0 - d / MaxInfluenceDist)
  }

  /** A farther driver never scores higher. */
  lemma InfluenceScoreAntitone(d1: real, d2: real)
    requires d1 <= d2
    ensures InfluenceScore(d2) <= InfluenceScore(d1)
  {
  }

  /** Roads weigh 60%, the old centre 40%. */
  const CenterWeight: real := 0.4
  const RoadWeight: real := 0.6

  /** The weighted blend of the two scores: a convex combination, so it lies
      between them. */
  function BaseProbability(scoreCenter: real, scoreRoad: real): (p: real)
    ensures Min2(scoreCenter, scoreRoad) <= p <= Max2(scoreCenter, scoreRoad)
    ensures 0.0 <= scoreCenter <= 1.0 && 0.0 <= scoreRoad <= 1.0 ==> 0.0 <= p <= 1.0
    ensures scoreCenter == 1.0 && scoreRoad == 1.0 ==> p == 1.0
  {
    scoreCenter * CenterWeight + scoreRoad * RoadWeight
  }

  /** `max(0.0, min(1.0, v))`. */
  function Clamp01(v: real): (r: real)
    ensures 0.0 <= r <= 1.0
    ensures 0.0 <= v <= 1.0 ==> r == v
    ensures v < 0.0 ==> r == 0.0
    ensures 1.0 < v ==> r == 1.0
  {
    Max2(0.0, Min2(1.0, v))
  }

  /** The clamp gives the point of [0, 1] nearest to its argument. */
  lemma ClampIsNearest(v: real, w: real)
    requires 0.0 <= w <= 1.0
    ensures Abs(Clamp01(v) - v) <= Abs(w - v)
  {
  }

  /** The half-width of the uniform noise added to each cell. */
  const NoiseAmplitude: real := 0.05

  /** The blend perturbed by one noise draw and clamped to [0, 1]. */
  function FinalProbability(base: real, noise: real): (p: real)
    ensures 0.0 <= p <= 1.0
    ensures 0.0 <= base + noise <= 1.0 ==> p == base + noise
    ensures 0.0 <= base <= 1.0 && -NoiseAmplitude <= noise <= NoiseAmplitude ==> Abs(p - base) <= NoiseAmplitude
  {
    Clamp01(base + noise)
  }

  datatype Category = High | Medium | Low
  {
    /** The label the service reports. */
    function Label(): string
    {
      match this
      case High => "high"
      case Medium => "medium"
      case Low => "low"
    }
  }

  const HighThreshold: real := 0.7
  const MediumThreshold: real := 0.4

  /** Fixed thresholds, both lower bounds inclusive. */
  function Categorize(probability: real): (c: Category)
    ensures c == High <==> HighThreshold <= probability
    ensures c == Medium <==> MediumThreshold <= probability < HighThreshold
    ensures c == Low <==> probability < MediumThreshold
  {
    if probability >= HighThreshold then High
    else if probability >= MediumThreshold then Medium
    else Low
  }

  function CategoryRank(c: Category): nat
  {
    match c
    case Low => 0
    case Medium => 1
    case High => 2
  }

  /** A higher probability never gets a lower category. */
  lemma CategorizeMonotone(p: real, q: real)
    requires p <= q
    ensures CategoryRank(Categorize(p)) <= CategoryRank(Categorize(q))
  {
  }

  /** The two growth drivers shared by all cells of one analysis. */
  datatype Drivers = Drivers(cityCenter: LatLng, roadStart: LatLng, roadEnd: LatLng)

  /** The city centre is the vertex mean; the road runs from the bounding
      box's least corner to its greatest one. */
  function GrowthDrivers(coordinates: seq<LatLng>): (d: Drivers)
    requires |coordinates| > 0
    ensures d.cityCenter == LatLng(Mean(Lats(coordinates)), Mean(Lngs(coordinates)))
    ensures d.roadStart.lat <= d.roadEnd.lat && d.roadStart.lng <= d.roadEnd.lng
    ensures forall i :: 0 <= i < |coordinates| ==>
              d.roadStart.lat <= coordinates[i].lat <= d.roadEnd.lat
              && d.roadStart.lng <= coordinates[i].lng <= d.roadEnd.lng
    ensures d.roadStart.lat <= d.cityCenter.lat <= d.roadEnd.lat
    ensures d.roadStart.lng <= d.cityCenter.lng <= d.roadEnd.lng
    ensures var b := PolygonBounds(coordinates);
            d.roadStart == LatLng(b.miny, b.minx) && d.roadEnd == LatLng(b.maxy, b.maxx)
  {
    var lats, lngs := Lats(coordinates), Lngs(coordinates);
    assert forall i :: 0 <= i < |coordinates| ==> lats[i] == coordinates[i].lat && lngs[i] == coordinates[i].lng;
    MeanBetween(lats);
    MeanBetween(lngs);
    Drivers(LatLng(Mean(lats), Mean(lngs)), LatLng(Min(lats), Min(lngs)), LatLng(Max(lats), Max(lngs)))
  }

  /** The diagnostic values reported with each prediction. */
  datatype Features = Features(distCenter: real, distRoad: real, scoreCenter: real, scoreRoad: real)

  datatype Prediction = Prediction(cellId: nat, center: LatLng, corners: seq<LatLng>,
                                   probability: real, category: string, features: Features)

  /** The score of one cell from its centre's distances to the two drivers and
      one noise draw. */
  function PredictCell(cell: Cell, drivers: Drivers, noise: real, sqrt: real -> real): (p: Prediction)
    requires IsSqrt(sqrt)
    ensures p.cellId == cell.id && p.center == cell.center && p.corners == cell.corners
    ensures 0.0 <= p.features.distCenter && 0.0 <= p.features.distRoad
    ensures 0.0 <= p.features.scoreCenter <= 1.0 && 0.0 <= p.features.scoreRoad <= 1.0
    ensures p.features.scoreCenter == 1.0 <==> cell.center == drivers.cityCenter
    ensures p.features.scoreRoad == 1.0 <==> Cross(cell.center, drivers.roadStart, drivers.roadEnd) == 0.0
    ensures drivers.roadStart == drivers.roadEnd ==> p.features.distRoad == 0.0 && p.features.scoreRoad == 1.0
    ensures 0.0 <= p.probability <= 1.0
    ensures -NoiseAmplitude <= noise <= NoiseAmplitude ==>
              Abs(p.probability - BaseProbability(p.features.scoreCenter, p.features.scoreRoad)) <= NoiseAmplitude
    ensures p.category == Categorize(p.probability).Label()
  {
    var distCenter := EuclideanDistance(cell.center, drivers.cityCenter, sqrt);
    var distRoad := DistPointToLine(cell.center, drivers.roadStart, drivers.roadEnd, sqrt);
    var scoreCenter := InfluenceScore(distCenter);
    var scoreRoad := InfluenceScore(distRoad);
    var probability := FinalProbability(BaseProbability(scoreCenter, scoreRoad), noise);
    Prediction(cell.id, cell.center, cell.corners, probability, Categorize(probability).Label(),
               Features(distCenter, distRoad, scoreCenter, scoreRoad))
  }

  /** A cell whose centre is the city centre and lies on the road scores the
      full blend of 1, so whatever the noise draw it lands in [0.95, 1]
      and is categorised high. */
  lemma CellAtCenterOnRoad(cell: Cell, drivers: Drivers, noise: real, sqrt: real -> real)
    requires IsSqrt(sqrt)
    requires cell.center == drivers.cityCenter
    requires Cross(cell.center, drivers.roadStart, drivers.roadEnd) == 0.0
    requires -NoiseAmplitude <= noise <= NoiseAmplitude
    ensures 1.0 - NoiseAmplitude <= PredictCell(cell, drivers, noise, sqrt).probability <= 1.0
    ensures PredictCell(cell, drivers, noise, sqrt).category == "high"
  {
    var p := PredictCell(cell, drivers, noise, sqrt);
    assert BaseProbability(p.features.scoreCenter, p.features.scoreRoad) == 1.0;
  }

  /** City centre of the axis-aligned square with corners (10, 20) and (12, 22). */
  lemma CityCenterOfSquare()
    ensures GrowthDrivers([LatLng(10.0, 20.0), LatLng(10.0, 22.0), LatLng(12.0, 22.0), LatLng(12.0, 20.0)]).cityCenter
            == LatLng(11.0, 21.0)
  {
    var cs := [LatLng(10.0, 20.0), LatLng(10.0, 22.0), LatLng(12.0, 22.0), LatLng(12.0, 20.0)];
    var lats, lngs := Lats(cs), Lngs(cs);
    assert lats == [10.0, 10.0, 12.0, 12.0];
    assert lngs == [20.0, 22.0, 22.0, 20.0];
    SumOfFour(10.0, 10.0, 12.0, 12.0);
    SumOfFour(20.0, 22.0, 22.0, 20.0);
    assert Mean(lats) == 44.0 / 4.0;
    assert Mean(lngs) == 84.0 / 4.0;
  }

  lemma SumOfFour(a: real, b: real, c: real, d: real)
    ensures Sum([a, b, c, d]) == a + b + c + d
  {
    assert [a][..0] == [];
    assert Sum([a]) == a;
    assert [a, b][..1] == [a];
    assert Sum([a, b]) == a + b;
    assert [a, b, c][..2] == [a, b];
    assert Sum([a, b, c]) == a + b + c;
    assert [a, b, c, d][..3] == [a, b, c];
  }

  datatype AnalysisResult = AnalysisResult(status: string, area: real, gridSize: nat, geeAvailable: bool,
                                           predictions: seq<Prediction>)

  /** The analysis of one polygon: its tessellation with the default cell
      size, the growth drivers, and one prediction per cell in cell order,
      cell i scored with noise draw i. */
  method AnalyzePolygonService(coordinates: seq<LatLng>, area: real, cosOfDegrees: real -> real,
                               sqrt: real -> real, intersects: Box -> bool, centroid: Box -> XY,
                               noise: nat -> real) returns (result: AnalysisResult)
    requires |coordinates| > 0
    requires cosOfDegrees(LatCenter(PolygonBounds(coordinates))) > 0.0
    requires IsSqrt(sqrt)
    requires forall i: nat :: -NoiseAmplitude <= noise(i) <= NoiseAmplitude
    ensures result.status == "success" && result.area == area && !result.geeAvailable
    ensures var cells := Tessellation(coordinates, DefaultCellSizeMeters, cosOfDegrees, intersects, centroid);
            && result.gridSize == |result.predictions| == |cells|
            && forall i :: 0 <= i < |cells| ==>
                 result.predictions[i] == PredictCell(cells[i], GrowthDrivers(coordinates), noise(i), sqrt)
    ensures forall i :: 0 <= i < |result.predictions| ==>
              var p := result.predictions[i];
              && p.cellId == i
              && 0.0 <= p.probability <= 1.0
              && Abs(p.probability - BaseProbability(p.features.scoreCenter, p.features.scoreRoad)) <= NoiseAmplitude
  {
    var gridCells := CreateGrid(coordinates, DefaultCellSizeMeters, cosOfDegrees, intersects, centroid);
    var drivers := GrowthDrivers(coordinates);
    var predictions: seq<Prediction> := [];
    for i := 0 to |gridCells|
      invariant |predictions| == i
      invariant forall k :: 0 <= k < i ==> predictions[k] == PredictCell(gridCells[k], drivers, noise(k), sqrt)
    {
      predictions := predictions + [PredictCell(gridCells[i], drivers, noise(i), sqrt)];
    }
    result := AnalysisResult("success", area, |predictions|, false, predictions);
  }
}
