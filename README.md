# GIS-engine: a model in Dafny of the urban-growth scorer and the grid tessellator

The GIS engine takes a polygon, given as `[lat, lng]` vertices, and predicts urban growth over it.

- The **grid tessellator** (`create_grid`) converts a cell size in metres into degree steps with the equirectangular factor at the polygon's middle latitude. It then rasters the polygon's bounding box row by row, bottom to top and left to right, clamping each candidate box's far edges to the bounding box. It keeps the boxes that intersect the polygon and numbers them 0, 1, 2, … . Each kept box becomes a cell: its centre is the centroid of the box's overlap with the polygon, and its corners form a closed ring of five `[lat, lng]` points.
- The **suitability scorer** (`analyze_polygon_service`) derives two growth drivers from the vertices. The city centre is the vertex mean. The road runs along the bounding-box diagonal, from the least corner to the greatest. For every cell in grid order the scorer then:
  - measures the straight-line distance from the cell's centre to the city centre;
  - measures the perpendicular distance from the cell's centre to the road line (`get_dist_point_to_line`);
  - turns each distance into a score `max(0, 1 - d/0.03)`;
  - blends the scores with weights 0.4 (centre) and 0.6 (road);
  - adds a noise draw from [-0.05, 0.05];
  - clamps the result to [0, 1];
  - categorises it as high (≥ 0.7), medium (≥ 0.4) or low.

The project has three modules:

- `Coordinates` (`coordinates.dfy`): the point types and the sum, min, max and mean folds over vertex lists.
- `GridUtils` (`grid_utils.dfy`): the tessellator. `ScanRaster` is an imperative method that holds the source's two nested `while` loops and its id counter. It is proved equal to `Cells(Candidates(..))`: `Cells` filters and numbers the raster's `Candidates`. `CreateGrid` calls it and is proved equal to the functional description `Tessellation`. The filter alone is `Kept`, which `CellsNumberKept` ties to `Cells`. The properties are lemmas about that description.
- `AnalysisService` (`analysis_service.dfy`): the scorer. The per-cell arithmetic is pure functions. `AnalyzePolygonService` is a method with the source's `for` loop over the cells.

Some operations are not computed in the model. They come in as function-typed parameters of the members that use them:

- `sqrt`: the square root. The model relies only on `IsSqrt`: on non-negative arguments the result is non-negative and is zero exactly at zero.
- `cosOfDegrees`: `cos(radians(·))`. Only its sign at the middle latitude is required.
- `intersects`: the geometry library's test of a box against the polygon.
- `centroid`: the centroid of a box's overlap with the polygon.
- `noise`: the noise draws, `noise(i)` for cell `i`, each within ±0.05.

All numbers are Dafny `real`s.

Neither function checks its input or raises an error of its own. The failures the model accounts for are:

- An empty vertex list divides by zero in the driver setup at `app/services/analysis_service.py:48`. The model makes a non-empty vertex list a precondition.
- The raster loops at `app/spatial/grid_utils.py:19-21` can fail to end, depending on the steps and the bounding box's extents:
  - A zero latitude extent ends the loops at once.
  - A zero longitude extent skips the inner loop, and the outer loop then ends exactly when the cell size is positive.
  - With positive extents on both axes, a non-positive cell size or a negative cosine at the middle latitude makes the loops run forever.
  - A cosine of exactly 0 raises a division by zero at `app/spatial/grid_utils.py:13`, before any loop runs.

  The model makes a positive cell size and a positive cosine preconditions, so it does not cover these cases.

Other failures come from the input's shape or from the geometry library and are listed under "## Left out".

## Model

| member | source | states |
|---|---|---|
| Coordinates.Min | app/services/analysis_service.py:54-55 | the left-to-right `min` of a non-empty list is one of its elements and is no greater than any element |
| Coordinates.Max | app/services/analysis_service.py:56-57 | the left-to-right `max` of a non-empty list is one of its elements and is no less than any element |
| Coordinates.Mean | app/services/analysis_service.py:48-49 | `sum / len`: the mean times the number of values gives back the sum |
| Coordinates.SumBetween | app/services/analysis_service.py:48-49 | a sum of n values in [lo, hi] lies in [n·lo, n·hi] |
| Coordinates.MeanWithin | app/services/analysis_service.py:48-49 | `sum / len` of values that all lie in [lo, hi] lies in [lo, hi] |
| Coordinates.MeanBetween | app/services/analysis_service.py:48-49 | the mean of the vertex coordinates lies between their minimum and maximum |
| GridUtils.PolygonBounds | app/spatial/grid_utils.py:5-6 | with the axes swapped to (x = lng, y = lat), the bounds are ordered, every vertex lies in them, and each bound is attained by some vertex |
| GridUtils.LatCenter | app/spatial/grid_utils.py:8 | the middle latitude is equally far from both latitude bounds and lies between them when they are ordered |
| GridUtils.CellSteps | app/spatial/grid_utils.py:8-13 | a positive cell size and a positive cosine give positive degree steps, so the raster terminates |
| GridUtils.CellStepsCoverCellSize | app/spatial/grid_utils.py:9-13 | the latitude step times 111320 m, and the longitude step times 111320·cos, both give back the cell size; where 0 < cos ≤ 1 the longitude step is at least the latitude step |
| GridUtils.StepCount | app/spatial/grid_utils.py:19-21 | a loop `while v < hi: v += step` with lo < hi runs at least once |
| GridUtils.StepCountAdvance | app/spatial/grid_utils.py:45-46 | each `x += cell_lng` or `y += cell_lat` uses up exactly one of the ⌈(hi − lo)/step⌉ remaining passes, the measure that makes both loops terminate |
| GridUtils.CandidateBox | app/spatial/grid_utils.py:22-26 | the candidate box has its near corner at (x, y). Each far edge is at most the bounding box's edge and at most one step on, and equals one of the two, so it is clamped |
| GridUtils.RowBoxes | app/spatial/grid_utils.py:20-26 | no contract of its own: one row of the raster, whose properties `RowBoxesWithin`, `RowBoxesInScanOrder` and `RowBoxesCount` state |
| GridUtils.Rows | app/spatial/grid_utils.py:19-46 | no contract of its own: the rows from y upward, whose properties `RowsWithin`, `RowsInScanOrder` and `RowsCount` state |
| GridUtils.Candidates | app/spatial/grid_utils.py:17-46 | no contract of its own: every candidate of the raster, whose properties `CandidatesWithin`, `CandidatesInScanOrder` and `CandidatesCount` state |
| GridUtils.Kept | app/spatial/grid_utils.py:28 | the intersection filter keeps exactly the candidates that pass the test: every kept box passes and comes from the candidates, and every passing candidate is kept |
| GridUtils.BoxBounds | app/spatial/grid_utils.py:31 | the reported bounds are ordered per axis and equal the box itself when it is well formed |
| GridUtils.CornerRing | app/spatial/grid_utils.py:36-42 | the ring has five `[lat, lng]` corner points and is closed (first equals last). It gives back the box it was built from. Point 1 shares point 0's longitude and point 2's latitude, and point 3 shares point 0's latitude and point 2's longitude, so the ring goes near corner, up, across, down, back |
| GridUtils.MakeCell | app/spatial/grid_utils.py:29-43 | the emitted cell keeps its id. Its centre is the centroid swapped to `[center.y, center.x]`. Its five corners form a closed ring, and for an ordered box the ring gives back that box |
| GridUtils.Cells | app/spatial/grid_utils.py:28-44 | no contract of its own: filtering and numbering together, characterised by `CellsNumberKept` |
| GridUtils.CellsNumberKept | app/spatial/grid_utils.py:28-44 | filtering and numbering together emit one cell per kept box, and the k-th cell is the k-th kept box numbered first + k, so rejected boxes use up no id |
| GridUtils.RowBoxesWithin | app/spatial/grid_utils.py:21-26 | every box of a row starts in that row at or right of its start column, lies in the bounding box, and has its far edges clamped to one step |
| GridUtils.RowsWithin | app/spatial/grid_utils.py:19-26 | every box of the rows from y upward lies in the bounding box with clamped far edges and starts no lower than y |
| GridUtils.CandidatesWithin | app/spatial/grid_utils.py:19-26 | every candidate has its near corner in [min, max) of the bounding box, its far edges equal to `min(near + step, max)`, a positive extent, and an extent of at most one step |
| GridUtils.RowBoxesInScanOrder | app/spatial/grid_utils.py:20-45 | the boxes of one row come left to right |
| GridUtils.RowsInScanOrder | app/spatial/grid_utils.py:19-46 | the boxes of successive rows come in row-major order: lower row first, then left to right |
| GridUtils.KeptInScanOrder | app/spatial/grid_utils.py:28-44 | filtering keeps the survivors in scan order |
| GridUtils.CandidatesInScanOrder | app/spatial/grid_utils.py:19-46 | both the candidates and the kept boxes are in row-major order |
| GridUtils.RowBoxesCount | app/spatial/grid_utils.py:20-45 | a row holds exactly ⌈(maxx − x)/cell_lng⌉ boxes |
| GridUtils.RowsCount | app/spatial/grid_utils.py:19-46 | the rows from y hold exactly ⌈(maxy − y)/cell_lat⌉ · ⌈(maxx − minx)/cell_lng⌉ boxes |
| GridUtils.CandidatesCount | app/spatial/grid_utils.py:19-46 | the raster examines exactly rows × columns candidates and keeps at most that many |
| GridUtils.RasterWellFormed | app/spatial/grid_utils.py:15-48 | the numbered kept candidates of the raster over any ordered bounding box are well formed (as for `TessellationWellFormed`). It emits a cell for every candidate that passes the test, one cell per kept candidate, and at most rows × columns cells |
| GridUtils.Tessellation | app/spatial/grid_utils.py:4-48 | no contract of its own: the grid `create_grid` returns, characterised by `TessellationWellFormed` and computed by `CreateGrid` |
| GridUtils.TessellationWellFormed | app/spatial/grid_utils.py:15-48 | the tessellation is well formed, emits one cell per kept candidate, emits a cell for every candidate that passes the test, and emits at most rows × columns cells. Well formed means: ids are 0..n−1 in order; each ring is closed and is the corner ring, in the emitted order, of the rectangle it describes; each ring's box passed the test, is one of the raster's candidates, and lies in the bounds with clamped far edges; centres are the swapped centroids; cells are in row-major order |
| GridUtils.CreateGrid | app/spatial/grid_utils.py:4-48 | the grid built from the polygon equals the tessellation and is well formed |
| GridUtils.ScanRaster | app/spatial/grid_utils.py:15-48 | the two nested raster loops with the id counter produce exactly the numbered kept candidates, in scan order |
| AnalysisService.SquaredDistance | app/services/analysis_service.py:71-72 | the sum of squared coordinate differences is non-negative and zero exactly when the points coincide |
| AnalysisService.EuclideanDistance | app/services/analysis_service.py:71-72 | the distance to the city centre is non-negative and zero exactly at the city centre |
| AnalysisService.DistPointToLine | app/services/analysis_service.py:5-30 | the distance is non-negative; a line given by one point twice gives 0 for every point; the distance is 0 exactly when the point is collinear with the line's points; otherwise it is the absolute cross product over the line's length |
| AnalysisService.DistPointToLineSymmetric | app/services/analysis_service.py:5-30 | swapping the road's two end points leaves every distance unchanged |
| AnalysisService.InfluenceScore | app/services/analysis_service.py:79-80 | a score is never negative and, for a non-negative distance, at most 1; it is 1 exactly at distance 0 and 0 exactly from 0.03 on |
| AnalysisService.InfluenceScoreAntitone | app/services/analysis_service.py:79-80 | a farther driver never scores higher |
| AnalysisService.BaseProbability | app/services/analysis_service.py:84 | the 0.4/0.6 blend lies between the two scores, so it is in [0, 1] when they are, and is 1 when both are 1 |
| AnalysisService.Clamp01 | app/services/analysis_service.py:92 | the clamp lies in [0, 1], leaves values in [0, 1] alone, and maps values below 0 to 0 and values above 1 to 1 |
| AnalysisService.ClampIsNearest | app/services/analysis_service.py:92 | the clamped value is the point of [0, 1] nearest to its argument |
| AnalysisService.FinalProbability | app/services/analysis_service.py:88-92 | the final probability is in [0, 1] whatever the noise, equals base + noise when that is in range, and is within 0.05 of a base in [0, 1] when the noise is within ±0.05 |
| AnalysisService.Categorize | app/services/analysis_service.py:95 | high exactly from 0.7, medium exactly on [0.4, 0.7), low exactly below 0.4, so both lower bounds are inclusive |
| AnalysisService.CategorizeMonotone | app/services/analysis_service.py:95 | a higher probability never gets a lower category |
| AnalysisService.GrowthDrivers | app/services/analysis_service.py:47-60 | the city centre is the componentwise vertex mean; the road runs from the componentwise minimum to the componentwise maximum, which are the polygon's bounds; every vertex and the city centre lie between the road's ends |
| AnalysisService.PredictCell | app/services/analysis_service.py:68-109 | a prediction keeps the cell's id, centre and corners. Distances are non-negative and scores lie in [0, 1]. The centre score is 1 exactly at the city centre. The road score is 1 exactly on the road line, and always when the road is a single point. The probability is in [0, 1] and within 0.05 of the blend. The category is the label ("high", "medium" or "low") of the unrounded probability |
| AnalysisService.CellAtCenterOnRoad | app/services/analysis_service.py:79-95 | a cell at the city centre and on the road has a blend of 1, a probability in [0.95, 1] whatever the noise, and category "high" |
| AnalysisService.CityCenterOfSquare | app/services/analysis_service.py:48-50 | the square with corners (10, 20) and (12, 22) has its city centre at (11, 21) |
| AnalysisService.AnalyzePolygonService | app/services/analysis_service.py:32-117 | the result reports success, passes the area through, and reports no Earth Engine. There is one prediction per grid cell of the default 500 m tessellation, in grid order (`grid_size` is their number). Prediction i scores cell i with noise draw i, carries id i, and has a probability in [0, 1] within 0.05 of its blend |

## Left out

- The geometry library (polygon construction, `intersects`, `intersection(...).centroid`), `app/spatial/grid_utils.py:5,22-30`: these are foreign library calls. The intersection test and the centroid are parameters. The bounding box is computed as the min and max over the vertices.
- `math.cos`, `math.radians` and `math.sqrt`: these are floating-point transcendental functions. They are parameters, and the model relies only on the cosine's sign at the middle latitude and on `IsSqrt`.
- `random.uniform(-0.05, 0.05)`: a global random source. It is the parameter `noise`, one draw per cell index, each within ±0.05.
- AnalysisService.PredictCell: does not model `round(..., 3)`, `round(..., 4)` or `round(..., 2)` on the reported probability and features, because decimal rounding of binary floats has no exact counterpart over the reals. The model reports the unrounded values. The category is computed from the unrounded probability, as in the source. So the stored rounded probability and the category can disagree at a threshold: for p = 0.6996 the source stores 0.7 but reports "medium". The model's `p.category == Categorize(p.probability).Label()` holds for the unrounded value only.
- Floating-point accumulation in `x += cell_lng` and `y += cell_lat`: all coordinates are exact reals, so the raster positions are exact multiples of the steps.
- Floating-point rounding in the per-cell formulas: all arithmetic is over exact reals, which is what makes the "exactly" results hold. In IEEE doubles, `1 - d/0.03` already rounds to 1.0 for distances below about 1.7e-18 (0.03·2⁻⁵⁴), and collinear points usually give a tiny non-zero `A*x + B*y + C`. So a score of 1 exactly at distance 0, and a road distance of 0 exactly on the road line, are properties of the exact-real model only.
- The geometry library's rejection of a polygon with fewer than three vertices: the model requires only a non-empty vertex list.
- Vertices with fewer than two numbers: the request schema (`app/schemas/request.py:5`) accepts any list of float lists, and a shorter inner list raises an index error at `app/spatial/grid_utils.py:5`. The model's `LatLng` pairs always have both coordinates, so this failure cannot arise in it.
- Other errors the geometry library raises on its own, for example from `intersection` on a self-intersecting polygon at `app/spatial/grid_utils.py:29`: the model's `intersects` and `centroid` parameters are total functions, so these failures are not modelled.
- GridUtils.CreateGrid: the source's cell-size parameter has the default 500. Here it is an explicit argument, and `AnalyzePolygonService` passes `DefaultCellSizeMeters`.
- GridUtils.ScanRaster: the source runs its two loops inline in `create_grid`. Here they are a separate method that `CreateGrid` calls, so the loop proof stays small.
- The HTTP routes, application setup, request and response schemas and configuration loading (`app/api/routes.py`, `app/main.py`, `app/schemas/request.py`, `app/schemas/response.py`, `app/core/config.py`): they hold no algorithmic content. These files are not part of this model.
