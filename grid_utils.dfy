/** The grid tessellator: covers the bounding box of a polygon with a raster of
    cells of a fixed ground size, keeps the cells that touch the polygon, numbers
    them in scan order and gives each a centre and a closed ring of corners.

    The planar geometry (intersection test, centroid of the clipped region) and
    the cosine are not computed here: they are passed in as functions. */
module GridUtils {
  import opened Coordinates

  /** An axis-aligned rectangle `box(minx, miny, maxx, maxy)` in the geometry
      library's order: x is the longitude, y the latitude. */
  datatype Box = Box(minx: real, miny: real, maxx: real, maxy: real)

  /** One emitted grid cell: its number, the centroid of its overlap with the
      polygon, and the five `[lat, lng]` corners of its full rectangle. */
  datatype Cell = Cell(id: nat, center: LatLng, corners: seq<LatLng>)

  /** The cell's extent in degrees: `cellLat` along the latitude, `cellLng`
      along the longitude. */
  datatype Steps = Steps(cellLat: real, cellLng: real)

  const MetersPerDegreeLat: real := 111320.0
  const DefaultCellSizeMeters: real := 500.0

  /** The polygon's bounds `(minx, miny, maxx, maxy)`: the polygon is built from
      the vertices with their axes swapped, so x ranges over the longitudes and
      y over the latitudes. */
  function PolygonBounds(coordinates: seq<LatLng>): (b: Box)
    requires |coordinates| > 0
    ensures b.minx <= b.maxx && b.miny <= b.maxy
    ensures forall i :: 0 <= i < |coordinates| ==>
              b.minx <= coordinates[i].lng <= b.maxx && b.miny <= coordinates[i].lat <= b.maxy
    ensures b.minx in Lngs(coordinates) && b.maxx in Lngs(coordinates)
    ensures b.miny in Lats(coordinates) && b.maxy in Lats(coordinates)
  {
    var lngs, lats := Lngs(coordinates), Lats(coordinates);
    assert forall i :: 0 <= i < |coordinates| ==> lngs[i] == coordinates[i].lng && lats[i] == coordinates[i].lat;
    Box(Min(lngs), Min(lats), Max(lngs), Max(lats))
  }

  /** The latitude midway between the bounds, where the cosine is taken. */
  function LatCenter(b: Box): (c: real)
    ensures b.miny <= b.maxy ==> b.miny <= c <= b.maxy
    ensures c - b.miny == b.maxy - c
  {
    (b.miny + b.maxy) / 2.0
  }

  /** The equirectangular conversion of a cell size in metres into degrees:
      one degree of latitude is 111320 m, one degree of longitude is that much
      times the cosine of the latitude. */
  function CellSteps(cellSizeMeters: real, cosLatCenter: real): (s: Steps)
    requires cosLatCenter != 0.0
    ensures cellSizeMeters > 0.0 && cosLatCenter > 0.0 ==> PositiveSteps(s)
  {
    Steps(cellSizeMeters / MetersPerDegreeLat, cellSizeMeters / (MetersPerDegreeLat * cosLatCenter))
  }

  /** A step of either kind covers the cell size in metres, and where the
      cosine is at most 1 the longitude step is at least the latitude step. */
  lemma CellStepsCoverCellSize(cellSizeMeters: real, cosLatCenter: real)
    requires cosLatCenter != 0.0
    ensures CellSteps(cellSizeMeters, cosLatCenter).cellLat * MetersPerDegreeLat == cellSizeMeters
    ensures CellSteps(cellSizeMeters, cosLatCenter).cellLng * (MetersPerDegreeLat * cosLatCenter) == cellSizeMeters
    ensures cellSizeMeters > 0.0 && 0.0 < cosLatCenter <= 1.0 ==>
              CellSteps(cellSizeMeters, cosLatCenter).cellLat <= CellSteps(cellSizeMeters, cosLatCenter).cellLng
  {
    var s := CellSteps(cellSizeMeters, cosLatCenter);
    var metersPerDegreeLng := MetersPerDegreeLat * cosLatCenter;
    assert s.cellLng * metersPerDegreeLng == cellSizeMeters;
    if cellSizeMeters > 0.0 && 0.0 < cosLatCenter <= 1.0 {
      assert metersPerDegreeLng <= MetersPerDegreeLat;
      assert s.cellLng * metersPerDegreeLng <= s.cellLng * MetersPerDegreeLat;
    }
  }

  predicate PositiveSteps(s: Steps)
  {
    s.cellLat > 0.0 && s.cellLng > 0.0
  }

  /** The smallest integer not below r. */
  function Ceiling(r: real): int
  {
    -((-r).Floor)
  }

  /** How often `while v < hi: v += step` runs when started at `v = lo`:
      the ceiling of (hi - lo) / step, or none at all when lo >= hi. */
  function StepCount(lo: real, hi: real, step: real): (n: nat)
    requires step > 0.0
    ensures lo < hi ==> n >= 1
  {
    if lo < hi then
      var q := (hi - lo) / step;
      assert q > 0.0;
      Ceiling(q)
    else 0
  }

  /** Each pass of such a loop uses up exactly one of its remaining iterations. */
  lemma StepCountAdvance(lo: real, hi: real, step: real)
    requires step > 0.0 && lo < hi
    ensures StepCount(lo + step, hi, step) == StepCount(lo, hi, step) - 1
  {
    var q := (hi - lo) / step;
    assert q * step == hi - lo;
    if lo + step < hi {
      var q' := (hi - (lo + step)) / step;
      assert q' * step == hi - (lo + step);
      var d := q' - (q - 1.0);
      assert d * step == 0.0;
      assert q' == q - 1.0;
      assert (-q') == (-q) + 1.0;
      assert (-q').Floor == (-q).Floor + 1;
    } else {
      assert q <= 1.0;
      assert Ceiling(q) == 1;
    }
  }

  /** The raster box whose near corner is (x, y); its far edges are clamped to
      the bounding box, so the last row and column may be narrower. */
  function CandidateBox(x: real, y: real, steps: Steps, bbox: Box): (b: Box)
    ensures b.minx == x && b.miny == y
    ensures b.maxx <= bbox.maxx && b.maxx <= x + steps.cellLng
    ensures b.maxx == bbox.maxx || b.maxx == x + steps.cellLng
    ensures b.maxy <= bbox.maxy && b.maxy <= y + steps.cellLat
    ensures b.maxy == bbox.maxy || b.maxy == y + steps.cellLat
  {
    Box(x, y, Min2(x + steps.cellLng, bbox.maxx), Min2(y + steps.cellLat, bbox.maxy))
  }

  /** The candidate boxes of one raster row, from column x up to the right edge. */
  function RowBoxes(x: real, y: real, steps: Steps, bbox: Box): (r: seq<Box>)
    requires PositiveSteps(steps)
    decreases StepCount(x, bbox.maxx, steps.cellLng)
  {
    if x < bbox.maxx then
      StepCountAdvance(x, bbox.maxx, steps.cellLng);
      [CandidateBox(x, y, steps, bbox)] + RowBoxes(x + steps.cellLng, y, steps, bbox)
    else []
  }

  /** The candidate boxes of the rows from y up to the top edge, row by row. */
  function Rows(y: real, steps: Steps, bbox: Box): (r: seq<Box>)
    requires PositiveSteps(steps)
    decreases StepCount(y, bbox.maxy, steps.cellLat)
  {
    if y < bbox.maxy then
      StepCountAdvance(y, bbox.maxy, steps.cellLat);
      RowBoxes(bbox.minx, y, steps, bbox) + Rows(y + steps.cellLat, steps, bbox)
    else []
  }

  /** Every candidate box of the raster over `bbox`, in scan order. */
  function Candidates(bbox: Box, steps: Steps): (r: seq<Box>)
    requires PositiveSteps(steps)
  {
    Rows(bbox.miny, steps, bbox)
  }

  /** The candidates that pass the intersection test, in their original order. */
  function Kept(boxes: seq<Box>, intersects: Box -> bool): (r: seq<Box>)
    ensures |r| <= |boxes|
    ensures forall i :: 0 <= i < |r| ==> intersects(r[i]) && r[i] in boxes
    ensures forall b :: b in boxes && intersects(b) ==> b in r
  {
    if boxes == [] then []
    else if intersects(boxes[0]) then [boxes[0]] + Kept(boxes[1..], intersects)
    else Kept(boxes[1..], intersects)
  }

  /** The bounds the geometry library reports for a rectangle: the least and
      the greatest coordinate on each axis. */
  function BoxBounds(b: Box): (r: Box)
    ensures r.minx <= r.maxx && r.miny <= r.maxy
    ensures b.minx <= b.maxx && b.miny <= b.maxy ==> r == b
  {
    Box(Min2(b.minx, b.maxx), Min2(b.miny, b.maxy), Max2(b.minx, b.maxx), Max2(b.miny, b.maxy))
  }

  /** The rectangle a corner ring describes: its first corner is the near one,
      its third the far one. */
  function BoxOfRing(ring: seq<LatLng>): Box
    requires |ring| == 5
  {
    Box(ring[0].lng, ring[0].lat, ring[2].lng, ring[2].lat)
  }

  /** The corners of a rectangle as `[lat, lng]` points, starting at the near
      corner, going up the near edge, across, down, and back to the start. */
  function CornerRing(b: Box): (ring: seq<LatLng>)
    ensures |ring| == 5 && ring[0] == ring[4]
    ensures BoxOfRing(ring) == b
    ensures ring[1].lng == ring[0].lng && ring[1].lat == ring[2].lat
    ensures ring[3].lat == ring[0].lat && ring[3].lng == ring[2].lng
    ensures forall i :: 0 <= i < 5 ==>
              (ring[i].lat == b.miny || ring[i].lat == b.maxy) && (ring[i].lng == b.minx || ring[i].lng == b.maxx)
  {
    [LatLng(b.miny, b.minx), LatLng(b.maxy, b.minx), LatLng(b.maxy, b.maxx), LatLng(b.miny, b.maxx), LatLng(b.miny, b.minx)]
  }

  /** The cell emitted for a kept box: the centroid of the box's overlap with
      the polygon and the box's corners, both swapped into `[lat, lng]`. */
  function MakeCell(id: nat, b: Box, centroid: Box -> XY): (c: Cell)
    ensures c.id == id && c.center == ToLatLng(centroid(b))
    ensures |c.corners| == 5 && c.corners[0] == c.corners[4]
    ensures b.minx <= b.maxx && b.miny <= b.maxy ==> BoxOfRing(c.corners) == b
  {
    Cell(id, ToLatLng(centroid(b)), CornerRing(BoxBounds(b)))
  }

  /** Filtering and numbering at once: the boxes that pass the test become
      cells numbered from `firstId` on; the others use up no number. */
  function Cells(boxes: seq<Box>, firstId: nat, intersects: Box -> bool, centroid: Box -> XY): seq<Cell>
  {
    if boxes == [] then []
    else if intersects(boxes[0]) then
      [MakeCell(firstId, boxes[0], centroid)] + Cells(boxes[1..], firstId + 1, intersects, centroid)
    else Cells(boxes[1..], firstId, intersects, centroid)
  }

  /** The tessellation of a polygon: all candidate cells of the raster over its
      bounds that pass the intersection test, numbered from 0. */
  function Tessellation(coordinates: seq<LatLng>, cellSizeMeters: real, cosOfDegrees: real -> real,
                        intersects: Box -> bool, centroid: Box -> XY): seq<Cell>
    requires |coordinates| > 0
    requires cellSizeMeters > 0.0
    requires cosOfDegrees(LatCenter(PolygonBounds(coordinates))) > 0.0
  {
    var bbox := PolygonBounds(coordinates);
    Cells(Candidates(bbox, CellSteps(cellSizeMeters, cosOfDegrees(LatCenter(bbox)))), 0, intersects, centroid)
  }

  // ----- One step of the raster, as the scan loops take it -----

  lemma RowsUnfold(y: real, steps: Steps, bbox: Box)
    requires PositiveSteps(steps) && y < bbox.maxy
    ensures Rows(y, steps, bbox) == RowBoxes(bbox.minx, y, steps, bbox) + Rows(y + steps.cellLat, steps, bbox)
  {
  }

  lemma RowBoxesEnd(x: real, y: real, steps: Steps, bbox: Box)
    requires PositiveSteps(steps) && bbox.maxx <= x
    ensures RowBoxes(x, y, steps, bbox) == []
  {
  }

  lemma RowsEnd(y: real, steps: Steps, bbox: Box)
    requires PositiveSteps(steps) && bbox.maxy <= y
    ensures Rows(y, steps, bbox) == []
  {
  }

  lemma RowBoxesUnfold(x: real, y: real, steps: Steps, bbox: Box, later: seq<Box>)
    requires PositiveSteps(steps) && x < bbox.maxx
    ensures RowBoxes(x, y, steps, bbox) + later
            == [CandidateBox(x, y, steps, bbox)] + (RowBoxes(x + steps.cellLng, y, steps, bbox) + later)
  {
  }

  /** One pass of the scan, stated on what has been emitted so far and what
      is still to come: the next box is emitted with the next number if it
      passes the test, and is dropped otherwise. */
  lemma CellsStep(done: seq<Cell>, todo: seq<Box>, intersects: Box -> bool, centroid: Box -> XY)
    requires todo != []
    ensures intersects(todo[0]) ==>
              done + Cells(todo, |done|, intersects, centroid)
              == (done + [MakeCell(|done|, todo[0], centroid)]) + Cells(todo[1..], |done| + 1, intersects, centroid)
    ensures !intersects(todo[0]) ==>
              done + Cells(todo, |done|, intersects, centroid) == done + Cells(todo[1..], |done|, intersects, centroid)
  {
  }

  // ----- Properties of the raster -----

  /** Numbering the kept boxes: cell k is the k-th kept box numbered firstId + k. */
  lemma {:induction false} CellsNumberKept(boxes: seq<Box>, firstId: nat, intersects: Box -> bool, centroid: Box -> XY)
    ensures |Cells(boxes, firstId, intersects, centroid)| == |Kept(boxes, intersects)|
    ensures forall k :: 0 <= k < |Kept(boxes, intersects)| ==>
              Cells(boxes, firstId, intersects, centroid)[k] == MakeCell(firstId + k, Kept(boxes, intersects)[k], centroid)
  {
    if boxes != [] {
      if intersects(boxes[0]) {
        CellsNumberKept(boxes[1..], firstId + 1, intersects, centroid);
      } else {
        CellsNumberKept(boxes[1..], firstId, intersects, centroid);
      }
    }
  }

  /** A candidate box as the raster produces it: its near corner lies in the
      bounding box (left and bottom edges included, right and top excluded),
      and each far edge is one step further on, clamped to the bounding box. */
  predicate WithinBounds(b: Box, bbox: Box, steps: Steps)
  {
    && bbox.minx <= b.minx < bbox.maxx
    && bbox.miny <= b.miny < bbox.maxy
    && b.maxx == Min2(b.minx + steps.cellLng, bbox.maxx)
    && b.maxy == Min2(b.miny + steps.cellLat, bbox.maxy)
  }

  lemma {:induction false} RowBoxesWithin(x: real, y: real, steps: Steps, bbox: Box)
    requires PositiveSteps(steps)
    requires bbox.minx <= x && bbox.miny <= y < bbox.maxy
    ensures forall i :: 0 <= i < |RowBoxes(x, y, steps, bbox)| ==>
              WithinBounds(RowBoxes(x, y, steps, bbox)[i], bbox, steps)
              && RowBoxes(x, y, steps, bbox)[i].miny == y && x <= RowBoxes(x, y, steps, bbox)[i].minx
    decreases StepCount(x, bbox.maxx, steps.cellLng)
  {
    if x < bbox.maxx {
      StepCountAdvance(x, bbox.maxx, steps.cellLng);
      RowBoxesWithin(x + steps.cellLng, y, steps, bbox);
    }
  }

  lemma {:induction false} RowsWithin(y: real, steps: Steps, bbox: Box)
    requires PositiveSteps(steps)
    requires bbox.miny <= y && bbox.minx <= bbox.maxx
    ensures forall i :: 0 <= i < |Rows(y, steps, bbox)| ==>
              WithinBounds(Rows(y, steps, bbox)[i], bbox, steps) && y <= Rows(y, steps, bbox)[i].miny
    decreases StepCount(y, bbox.maxy, steps.cellLat)
  {
    if y < bbox.maxy {
      StepCountAdvance(y, bbox.maxy, steps.cellLat);
      RowBoxesWithin(bbox.minx, y, steps, bbox);
      RowsWithin(y + steps.cellLat, steps, bbox);
    }
  }

  /** Every candidate box lies inside the bounding box and is no larger than one step. */
  lemma CandidatesWithin(bbox: Box, steps: Steps)
    requires PositiveSteps(steps)
    requires bbox.minx <= bbox.maxx && bbox.miny <= bbox.maxy
    ensures forall i :: 0 <= i < |Candidates(bbox, steps)| ==>
              var b := Candidates(bbox, steps)[i];
              && WithinBounds(b, bbox, steps)
              && b.minx < b.maxx <= bbox.maxx && b.maxx - b.minx <= steps.cellLng
              && b.miny < b.maxy <= bbox.maxy && b.maxy - b.miny <= steps.cellLat
  {
    RowsWithin(bbox.miny, steps, bbox);
  }

  /** Row-major scan order: a lower row first, and within a row the left box first. */
  predicate ScannedBefore(a: Box, b: Box)
  {
    a.miny < b.miny || (a.miny == b.miny && a.minx < b.minx)
  }

  predicate InScanOrder(boxes: seq<Box>)
  {
    forall i, j :: 0 <= i < j < |boxes| ==> ScannedBefore(boxes[i], boxes[j])
  }

  lemma ScanOrderConcat(a: seq<Box>, b: seq<Box>)
    requires InScanOrder(a) && InScanOrder(b)
    requires forall i, j :: 0 <= i < |a| && 0 <= j < |b| ==> ScannedBefore(a[i], b[j])
    ensures InScanOrder(a + b)
  {
    forall i, j | 0 <= i < j < |a + b|
      ensures ScannedBefore((a + b)[i], (a + b)[j])
    {
      if j < |a| {
        assert (a + b)[i] == a[i] && (a + b)[j] == a[j];
      } else if i < |a| {
        assert (a + b)[i] == a[i] && (a + b)[j] == b[j - |a|];
      } else {
        assert (a + b)[i] == b[i - |a|] && (a + b)[j] == b[j - |a|];
      }
    }
  }

  lemma {:induction false} RowBoxesInScanOrder(x: real, y: real, steps: Steps, bbox: Box)
    requires PositiveSteps(steps)
    requires bbox.minx <= x && bbox.miny <= y < bbox.maxy
    ensures InScanOrder(RowBoxes(x, y, steps, bbox))
    decreases StepCount(x, bbox.maxx, steps.cellLng)
  {
    if x < bbox.maxx {
      StepCountAdvance(x, bbox.maxx, steps.cellLng);
      var rest := RowBoxes(x + steps.cellLng, y, steps, bbox);
      RowBoxesInScanOrder(x + steps.cellLng, y, steps, bbox);
      RowBoxesWithin(x + steps.cellLng, y, steps, bbox);
      ScanOrderConcat([CandidateBox(x, y, steps, bbox)], rest);
    }
  }

  lemma {:induction false} RowsInScanOrder(y: real, steps: Steps, bbox: Box)
    requires PositiveSteps(steps)
    requires bbox.miny <= y && bbox.minx <= bbox.maxx
    ensures InScanOrder(Rows(y, steps, bbox))
    decreases StepCount(y, bbox.maxy, steps.cellLat)
  {
    if y < bbox.maxy {
      StepCountAdvance(y, bbox.maxy, steps.cellLat);
      RowBoxesInScanOrder(bbox.minx, y, steps, bbox);
      RowBoxesWithin(bbox.minx, y, steps, bbox);
      RowsInScanOrder(y + steps.cellLat, steps, bbox);
      RowsWithin(y + steps.cellLat, steps, bbox);
      ScanOrderConcat(RowBoxes(bbox.minx, y, steps, bbox), Rows(y + steps.cellLat, steps, bbox));
    }
  }

  /** Dropping boxes keeps the survivors in scan order. */
  lemma {:induction false} KeptInScanOrder(boxes: seq<Box>, intersects: Box -> bool)
    requires InScanOrder(boxes)
    ensures InScanOrder(Kept(boxes, intersects))
  {
    if boxes != [] {
      var tail := boxes[1..];
      assert InScanOrder(tail) by {
        forall i, j | 0 <= i < j < |tail| ensures ScannedBefore(tail[i], tail[j]) {
          assert tail[i] == boxes[i + 1] && tail[j] == boxes[j + 1];
        }
      }
      KeptInScanOrder(tail, intersects);
      if intersects(boxes[0]) {
        var kt := Kept(tail, intersects);
        forall j | 0 <= j < |kt| ensures ScannedBefore(boxes[0], kt[j]) {
          var m :| 0 <= m < |tail| && tail[m] == kt[j];
          assert boxes[m + 1] == kt[j];
        }
        ScanOrderConcat([boxes[0]], kt);
      }
    }
  }

  /** The candidates are examined in row-major order, and so are the kept ones. */
  lemma CandidatesInScanOrder(bbox: Box, steps: Steps, intersects: Box -> bool)
    requires PositiveSteps(steps)
    requires bbox.minx <= bbox.maxx
    ensures InScanOrder(Candidates(bbox, steps))
    ensures InScanOrder(Kept(Candidates(bbox, steps), intersects))
  {
    RowsInScanOrder(bbox.miny, steps, bbox);
    KeptInScanOrder(Candidates(bbox, steps), intersects);
  }

  lemma {:induction false} RowBoxesCount(x: real, y: real, steps: Steps, bbox: Box)
    requires PositiveSteps(steps)
    ensures |RowBoxes(x, y, steps, bbox)| == StepCount(x, bbox.maxx, steps.cellLng)
    decreases StepCount(x, bbox.maxx, steps.cellLng)
  {
    if x < bbox.maxx {
      StepCountAdvance(x, bbox.maxx, steps.cellLng);
      RowBoxesCount(x + steps.cellLng, y, steps, bbox);
    }
  }

  lemma {:induction false} RowsCount(y: real, steps: Steps, bbox: Box)
    requires PositiveSteps(steps)
    ensures |Rows(y, steps, bbox)| == StepCount(y, bbox.maxy, steps.cellLat) * StepCount(bbox.minx, bbox.maxx, steps.cellLng)
    decreases StepCount(y, bbox.maxy, steps.cellLat)
  {
    if y < bbox.maxy {
      StepCountAdvance(y, bbox.maxy, steps.cellLat);
      RowBoxesCount(bbox.minx, y, steps, bbox);
      RowsCount(y + steps.cellLat, steps, bbox);
      var rows, cols := StepCount(y, bbox.maxy, steps.cellLat), StepCount(bbox.minx, bbox.maxx, steps.cellLng);
      assert (rows - 1) * cols + cols == rows * cols;
    }
  }

  /** The raster examines exactly rows * columns candidates, each count the
      ceiling of the extent over the step, and emits at most that many cells. */
  lemma CandidatesCount(bbox: Box, steps: Steps, intersects: Box -> bool)
    requires PositiveSteps(steps)
    ensures |Candidates(bbox, steps)| == StepCount(bbox.miny, bbox.maxy, steps.cellLat) * StepCount(bbox.minx, bbox.maxx, steps.cellLng)
    ensures |Kept(Candidates(bbox, steps), intersects)| <= |Candidates(bbox, steps)|
  {
    RowsCount(bbox.miny, steps, bbox);
  }

  /** What a well-formed tessellation of a polygon with bounds `bbox` promises,
      read off each cell's own fields. */
  ghost predicate WellFormedGrid(grid: seq<Cell>, bbox: Box, steps: Steps, intersects: Box -> bool, centroid: Box -> XY)
    requires PositiveSteps(steps)
  {
    // cells are numbered 0, 1, 2, ... in the order they are emitted
    && (forall k :: 0 <= k < |grid| ==> grid[k].id == k)
    // the corner ring is closed and goes round the rectangle it describes in
    // the emitted order; that rectangle passed the test and is one of the
    // raster's candidate boxes; the centre is its centroid
    && (forall k :: 0 <= k < |grid| ==>
          && |grid[k].corners| == 5 && grid[k].corners[0] == grid[k].corners[4]
          && grid[k].corners == CornerRing(BoxOfRing(grid[k].corners))
          && intersects(BoxOfRing(grid[k].corners))
          && BoxOfRing(grid[k].corners) in Candidates(bbox, steps)
          && WithinBounds(BoxOfRing(grid[k].corners), bbox, steps)
          && grid[k].center == ToLatLng(centroid(BoxOfRing(grid[k].corners))))
    // the cells come in row-major order
    && (forall j, k :: 0 <= j < k < |grid| ==> ScannedBefore(BoxOfRing(grid[j].corners), BoxOfRing(grid[k].corners)))
  }

  /** The raster over `bbox` is well formed, emits one cell per kept candidate
      (every candidate that passes the test is some cell's box) and at most
      one per raster position. */
  lemma RasterWellFormed(bbox: Box, steps: Steps, intersects: Box -> bool, centroid: Box -> XY)
    requires PositiveSteps(steps)
    requires bbox.minx <= bbox.maxx && bbox.miny <= bbox.maxy
    ensures var grid := Cells(Candidates(bbox, steps), 0, intersects, centroid);
            && WellFormedGrid(grid, bbox, steps, intersects, centroid)
            && |grid| == |Kept(Candidates(bbox, steps), intersects)|
            && (forall b :: b in Candidates(bbox, steps) && intersects(b) ==>
                  exists k :: 0 <= k < |grid| && BoxOfRing(grid[k].corners) == b)
            && |grid| <= StepCount(bbox.miny, bbox.maxy, steps.cellLat) * StepCount(bbox.minx, bbox.maxx, steps.cellLng)
  {
    var cands := Candidates(bbox, steps);
    var kept := Kept(cands, intersects);
    var grid := Cells(cands, 0, intersects, centroid);
    CellsNumberKept(cands, 0, intersects, centroid);
    CandidatesWithin(bbox, steps);
    CandidatesInScanOrder(bbox, steps, intersects);
    CandidatesCount(bbox, steps, intersects);
    forall k | 0 <= k < |grid|
      ensures BoxOfRing(grid[k].corners) == kept[k] && WithinBounds(kept[k], bbox, steps)
    {
      var m :| 0 <= m < |cands| && cands[m] == kept[k];
      assert BoxBounds(kept[k]) == kept[k];
    }
    forall b | b in cands && intersects(b)
      ensures exists k :: 0 <= k < |grid| && BoxOfRing(grid[k].corners) == b
    {
      var k :| 0 <= k < |kept| && kept[k] == b;
      assert BoxOfRing(grid[k].corners) == b;
    }
  }

  /** The tessellation of a polygon is well formed, emits one cell per kept
      candidate (every candidate that passes the test is some cell's box) and
      at most one per raster position. */
  lemma TessellationWellFormed(coordinates: seq<LatLng>, cellSizeMeters: real, cosOfDegrees: real -> real,
                               intersects: Box -> bool, centroid: Box -> XY)
    requires |coordinates| > 0
    requires cellSizeMeters > 0.0
    requires cosOfDegrees(LatCenter(PolygonBounds(coordinates))) > 0.0
    ensures var bbox := PolygonBounds(coordinates);
            var steps := CellSteps(cellSizeMeters, cosOfDegrees(LatCenter(bbox)));
            var grid := Tessellation(coordinates, cellSizeMeters, cosOfDegrees, intersects, centroid);
            && WellFormedGrid(grid, bbox, steps, intersects, centroid)
            && |grid| == |Kept(Candidates(bbox, steps), intersects)|
            && (forall b :: b in Candidates(bbox, steps) && intersects(b) ==>
                  exists k :: 0 <= k < |grid| && BoxOfRing(grid[k].corners) == b)
            && |grid| <= StepCount(bbox.miny, bbox.maxy, steps.cellLat) * StepCount(bbox.minx, bbox.maxx, steps.cellLng)
  {
    var bbox := PolygonBounds(coordinates);
    RasterWellFormed(bbox, CellSteps(cellSizeMeters, cosOfDegrees(LatCenter(bbox))), intersects, centroid);
  }

  /** The tessellator: the polygon's bounds, the cell size converted to
      degrees at the bounds' middle latitude, and the raster over the bounds. */
  method CreateGrid(coordinates: seq<LatLng>, cellSizeMeters: real, cosOfDegrees: real -> real,
                    intersects: Box -> bool, centroid: Box -> XY) returns (grid: seq<Cell>)
    requires |coordinates| > 0
    requires cellSizeMeters > 0.0
    requires cosOfDegrees(LatCenter(PolygonBounds(coordinates))) > 0.0
    ensures grid == Tessellation(coordinates, cellSizeMeters, cosOfDegrees, intersects, centroid)
    ensures WellFormedGrid(grid, PolygonBounds(coordinates), CellSteps(cellSizeMeters, cosOfDegrees(LatCenter(PolygonBounds(coordinates)))), intersects, centroid)
  {
    var bbox := PolygonBounds(coordinates);
    var latCenter := LatCenter(bbox);
    var steps := CellSteps(cellSizeMeters, cosOfDegrees(latCenter));
    grid := ScanRaster(bbox, steps, intersects, centroid);
    TessellationWellFormed(coordinates, cellSizeMeters, cosOfDegrees, intersects, centroid);
  }

  /** The raster loops: rows bottom to top, boxes left to right within a row;
      every box that passes the intersection test is emitted with the next
      number. */
  method ScanRaster(bbox: Box, steps: Steps, intersects: Box -> bool, centroid: Box -> XY) returns (grid: seq<Cell>)
    requires PositiveSteps(steps)
    ensures grid == Cells(Candidates(bbox, steps), 0, intersects, centroid)
  {
    ghost var all := Cells(Candidates(bbox, steps), 0, intersects, centroid);
    // the boxes the scan has still to examine
    ghost var todo := Candidates(bbox, steps);
    grid := [];
    var cellId := 0;
    var y := bbox.miny;
    while y < bbox.maxy
      invariant cellId == |grid|
      invariant todo == Rows(y, steps, bbox)
      invariant grid + Cells(todo, |grid|, intersects, centroid) == all
      decreases StepCount(y, bbox.maxy, steps.cellLat)
    {
      ghost var later := Rows(y + steps.cellLat, steps, bbox);
      RowsUnfold(y, steps, bbox);
      var x := bbox.minx;
      while x < bbox.maxx
        invariant cellId == |grid|
        invariant todo == RowBoxes(x, y, steps, bbox) + later
        invariant grid + Cells(todo, |grid|, intersects, centroid) == all
        decreases StepCount(x, bbox.maxx, steps.cellLng)
      {
        var cellBox := CandidateBox(x, y, steps, bbox);
        RowBoxesUnfold(x, y, steps, bbox, later);
        CellsStep(grid, todo, intersects, centroid);
        if intersects(cellBox) {
          grid := grid + [MakeCell(cellId, cellBox, centroid)];
          cellId := cellId + 1;
        }
        todo := todo[1..];
        StepCountAdvance(x, bbox.maxx, steps.cellLng);
        x := x + steps.cellLng;
      }
      RowBoxesEnd(x, y, steps, bbox);
      assert [] + later == later;
      StepCountAdvance(y, bbox.maxy, steps.cellLat);
      y := y + steps.cellLat;
    }
    RowsEnd(y, steps, bbox);
    assert grid + [] == grid;
  }
}
