# digital-twin-toolbox, modelled in Dafny

The digital-twin-toolbox turns geospatial inputs into 3D Tiles tilesets. It takes polygon, line and
point collections, LAS point clouds and textured meshes. This project models the decision logic of
that conversion, in both of the system's generations: the legacy Node.js server (`src/`) and the
FastAPI/Celery backend (`backend/`) with its React frontend (`frontend/`). It proves properties of
the model.

What is modelled:

- **Expression evaluators.** These are the three dialects that compute per-feature options
  (heights, scale, rotation, model) from attribute data:
  - the Python `parse_expression`;
  - the TypeScript `parseExpression`;
  - the legacy `filtrex`-based parsers, with `isNumber`.

  Each comes with its geometry functions `$minZ`/`$maxZ`.
- **Polyhedral surface builders.** These are also in three dialects. They parse rings, compute the
  earcut hole indices, triangulate into closed four-vertex triangles, and build the walls between
  a lower and an upper ring set. They extrude with the larger-mean-height ring set on top, and
  handle the per-geometry parsers, the collection mappers and the WKT rendering.
- **Point-instance batching.** This exists in the server copy and the viewer copy.
- **Tileset quadtree builders.** There is one for meshes (with its file-existence check) and one
  for photogrammetry, together with their error schedules, and the recursive rescaling of
  geometric errors in point-cloud tilesets.
- **Staging and command builders.**
  - PDAL pipelines and their stage order;
  - the `py3dtiles`, `pg2b3dm`, `i3dm.export` and `ogr2ogr` arguments;
  - the tileset patches;
  - the property maps;
  - the table-name and upload-path helpers;
  - `executeCommand`'s settlement;
  - the table iterator that streams SQL inserts;
  - the SQL row builders.
- **Job decisions.**
  - vector-upload validation;
  - effective pipeline configuration;
  - model de-duplication;
  - level-of-detail conversion rules;
  - the point-cloud CRS choice;
  - the run/cancel transition of a pipeline's task.
- **Small frontend utilities.** These are the form rules, the environment flags, the error-toast
  message, and the build script that strips tag prefixes from OpenAPI operation ids.

How the model is written:

- Code that builds values becomes datatypes and functions.
- Code that works by loops and in-place updates becomes a method. Each method is proved equal to
  the function that specifies it:
  - the loops of `getFunc`, `triangulate` and `planeToWall`;
  - `splitCoordinatesByAngles`;
  - the photogrammetry schedule and its in-place offset;
  - the models loop of `create_point_instance_3dtiles`;
  - the row/level loops of `polygons_to_polyhedrons`;
  - the OpenAPI rewrite.
- The closure `insertTableIterator` becomes a class.
- The pipeline record becomes a class whose task fields the endpoint updates.
- JavaScript and Python values are modelled with their own truthiness, coercions and errors.
  Errors are `Result` values.
- Numbers are IEEE-like, with infinities and NaN but no rounding.
- These are parameters ("hosts") with the contracts the code relies on:
  - foreign libraries (earcut, turf, filtrex, pyproj, ECEF conversion);
  - the file system and child processes;
  - number formatting beyond integers.

## Model

| member | source | states |
|---|---|---|
| JsNumber.StringsAreNotNumbers | src/number.js:3-5 | every string is rejected, whatever its text |
| JsNumber.NumbersAreNumbers | src/number.js:6-7 | a number value counts exactly when it is not NaN; the infinities count |
| JsNumber.NonNumericValues | src/number.js:6-7 | null, undefined, booleans and plain objects never count, because `parseFloat` of their text is NaN |
| JsNumber.SingletonIntegerArray | src/number.js:6-7 | a one-element array holding an integer counts, because its text is that integer's |
| JsNumber.EmptyArrayIsNotNumber | src/number.js:6-7 | the empty array does not count: its text is empty |
| JsExpression.MultiPointZs | src/expression.js:15-17 | a MultiPoint's `$minZ` is an array with one entry per position, its height or undefined |
| JsExpression.MultiPolygonMinZAsWritten | src/expression.js:23-28 | as written (`'MultyPolygon'`), a MultiPolygon whose only position stands at 5 gets `$minZ` 0 |
| JsExpression.MinZIsLeastElevation | src/expression.js:19-28 | a Polygon's and (corrected) a MultiPolygon's `$minZ` is the least height over all positions, +Infinity without positions |
| JsExpression.EnvShadowsProperties | src/expression.js:37 | the geometry values are spread after the properties: `$minZ` shadows a property of that name with the value as written (0 for a MultiPolygon), and every other name reads the property |
| JsExpression.EnvCorrectedMinZ | src/expression.js:23-28 | with the MultiPolygon branch reached, a MultiPolygon's `$minZ` is the least height over all of its positions, and every other environment is the one as written |
| JsExpression.ParseNumericExpression | src/expression.js:32-43 | a falsy expression, a throw or a result `isNumber` rejects gives undefined; otherwise the result is exactly what filtrex computed over the properties and the geometry values |
| JsExpression.ParseStringExpression | src/expression.js:45-56 | the result is undefined or text; it is text exactly when the expression is truthy and filtrex does not throw over the properties, and the text is then `${result}` of filtrex's result |
| JsExpression.StringIgnoresGeometry | src/expression.js:45-50 | the string form never sees geometry values: features with the same properties give the same text |
| JsExpression.NonNumericResultDropped | src/expression.js:38 | a result that is not a number (a MultiPoint's array, a string) is dropped as undefined |
| Elevation.MinOfMins | src/expression.js:20-26 | the minimum of the ring (polygon) minima is the minimum over all positions |
| Elevation.PolygonMinZIsFlat | src/expression.js:20 | a polygon's nested minimum is the least height over the flattened positions |
| PyExpression.MinZ | backend/app/worker/expression.py:20-26 | the loop's minimum is +inf without positions, otherwise the height of some position, and no position is lower |
| PyExpression.MaxZ | backend/app/worker/expression.py:21-28 | the loop's maximum is -inf without positions, otherwise the height of some position, and no position is higher |
| PyExpression.GetFuncNone | backend/app/worker/expression.py:14-32 | `get_func` answers None for other names, other geometry types and a feature without geometry |
| PyExpression.GetFuncValues | backend/app/worker/expression.py:9-31 | a decoded Point gives its height as `json.loads` read it (an int when integral, else a float) when its position has exactly three components, else the int 0; the Point the instance task rebuilds gives its third coordinate as computed; a Polygon gives the least (greatest) height of its ring positions |
| PyValues.JsonCoordinate | backend/app/worker/tasks.py:242 | `json.loads` reads a coordinate with its value, as an int exactly when it is integral and as a float otherwise |
| PyExpression.IntegralHeightText | backend/app/worker/expression.py:8-11 | an integral height is an int, so its text has no fraction |
| PyExpression.NoneYieldsNone | backend/app/worker/expression.py:37-38 | a `None` value yields None, never the default |
| PyExpression.ScalarCoercion | backend/app/worker/expression.py:36-43 | a scalar becomes its text for 'string', `float()` of it for 'number' (the default when that raises), itself otherwise |
| PyExpression.ErrorsGiveDefault | backend/app/worker/expression.py:44-83 | an empty list and an arithmetic operator missing an operand give the default |
| PyExpression.DivisionByZeroGivesDefault | backend/app/worker/expression.py:68-83 | division by zero gives the default |
| PyExpression.FailedOperandIsNone | backend/app/worker/expression.py:55-71 | an operand that raises becomes None, not the outer default: its text is 'None' |
| PyExpression.OnlyTwoOperands | backend/app/worker/expression.py:50-60 | only `value[1]` and `value[2]` are evaluated; further elements never matter |
| PyExpression.LookupOperandsIgnoreKind | backend/app/worker/expression.py:46-48 | operands of 'property' and 'func' are evaluated with kind '', so the outer kind never matters |
| PyExpression.KindFlowsIntoOperands | backend/app/worker/expression.py:46-71 | other operators pass the outer kind down: under 'number' the texts '1' and '2' concatenate as floats |
| PyExpression.PropertyLookup | backend/app/worker/expression.py:76-83 | 'property' returns the value when the key is present, None when absent, the default without properties |
| PyExpression.UnknownOperatorIsNone | backend/app/worker/expression.py:81 | an unknown operator returns None |
| PyExpression.AddPropertyExample | backend/app/worker/expression.py:62-78 | `["+", ["property", "a"], 2]` over `{a: 3}` is 5.0 |
| TsExpression.GetFunc | frontend/src/utils/expression.ts:1-26 | the loop method computes exactly the specification of `getFunc` |
| TsExpression.GetFuncValues | frontend/src/utils/expression.ts:3-25 | a Point gives `coordinates[2] \|\| 0`; a Polygon the least (greatest) height, +Infinity (-Infinity) without positions; other types null |
| TsExpression.ZStep | frontend/src/utils/expression.ts:13-19 | one loop step keeps the running minimum and maximum equal to those of the positions visited |
| TsExpression.EmptyIsUndefined | frontend/src/utils/expression.ts:33-35 | `""` and undefined give undefined, whatever the kind |
| TsExpression.ScalarCoercion | frontend/src/utils/expression.ts:36-44 | a non-array becomes a template string, `parseFloat` of it, or itself, by kind |
| TsExpression.FalsyOperandSkipped | frontend/src/utils/expression.ts:47-55 | a falsy operand is never evaluated: `["+", 1, 0]` under 'number' is `1 + undefined`, NaN |
| TsExpression.FalsyOperandInConcat | frontend/src/utils/expression.ts:50-63 | a falsy string operand is concatenated as the text `undefined` |
| TsExpression.PlusConcatenatesText | frontend/src/utils/expression.ts:54-55 | with kind `""`, `+` of the texts '1' and '2' is '12' |
| TsExpression.PlusAddsParsedNumbers | frontend/src/utils/expression.ts:40-55 | under 'number' the operands are parsed first and add up to 3 |
| TsExpression.DigitTextParses | frontend/src/utils/expression.ts:40-41 | the text of a digit parses back to that number |
| TsExpression.LookupOperandsIgnoreKind | frontend/src/utils/expression.ts:46 | 'property' and 'func' operands ignore the outer kind |
| TsExpression.PropertyLookup | frontend/src/utils/expression.ts:68-69 | 'property' reads `feature?.properties?.[a]`: undefined when absent or without properties |
| TsExpression.UnknownOperatorIsNull | frontend/src/utils/expression.ts:72-73 | an unknown operator returns null |
| TsExpression.FuncWithoutGeometryThrows | frontend/src/utils/expression.ts:70-71 | nothing is caught: 'func' on a feature without geometry throws |
| Tiles.TransposeEntries | backend/app/worker/mesh/create_tileset_json.py:32-33 | `convert_to_column_major_order` swaps row and column of every entry |
| Tiles.TransposeInvolution | backend/app/worker/mesh/create_tileset_json.py:32-33 | converting to column-major order twice gives the matrix back |
| Tiles.RotationIsNeutral | backend/app/worker/mesh/create_tileset_json.py:77-84 | multiplying by the identity `rot` changes nothing |
| Tiles.ScaleColumns | backend/app/worker/mesh/create_tileset_json.py:85-92 | multiplying by `scale_matrix` scales the first three columns and keeps the last |
| Tiles.TransposedFrame | backend/app/worker/mesh/create_tileset_json.py:58-75 | the east, north and up axes of `res` become rows in column-major order, its origin the last row |
| Tiles.EcefTransformLayout | backend/app/worker/mesh/create_tileset_json.py:35-92 | the tileset transform: axes as rows, each followed by 0, the origin last; every entry but the final 1 scaled |
| Tiles.UnitEcefTransformIsTranspose | backend/app/worker/mesh/create_tileset_json.py:84-92 | with scale 1 (as the builder calls it) the transform is the frame transposed |
| Tiles.TileUri | backend/app/worker/mesh/create_tileset_json.py:179-182 | a tile uri `{level}_{y}_{x}.glb` always ends in `.glb` |
| Tiles.LevelExtent | backend/app/worker/mesh/create_tileset_json.py:149-167 | `width / 2**level` is zero exactly when the extent is |
| Tiles.ChildQuads | backend/app/worker/mesh/create_tileset_json.py:164-183 | four child quadrants one level down; ZeroDivisionError exactly when the width or height is 0 |
| Tiles.ChildIndexDoubles | backend/app/worker/mesh/create_tileset_json.py:168-173 | `round(x * w_unit / next_w_unit)` is `2x`: children of column x are 2x and 2x+1 |
| Tiles.ChildQuadsSplit | backend/app/worker/mesh/create_tileset_json.py:174-183 | the children's indices, uris and boxes split the parent at `(minx + next_w_unit, miny + next_h_unit)` |
| Tiles.ChildPositions | backend/app/worker/mesh/create_tileset_json.py:178-183 | the children are upper-left, upper-right, lower-left, lower-right at columns 2x, 2x+1 and rows 2y, 2y+1 |
| Tiles.Attached | backend/app/worker/mesh/create_tileset_json.py:24-27 | only quadrants whose tile file exists are kept |
| Tiles.AttachedKeepsFound | backend/app/worker/mesh/create_tileset_json.py:24-27 | every quadrant whose tile file exists is kept |
| Tiles.CollectResultsOk | backend/app/worker/mesh/create_tileset_json.py:185-186 | the children are built exactly when each one is, and then in order |
| Tiles.CollectResultsKeepsError | backend/app/worker/mesh/create_tileset_json.py:185-186 | once a child raises, later quadrants do not matter |
| Tiles.FailingChildFails | backend/app/worker/mesh/create_tileset_json.py:185-186 | a kept quadrant that raises after the earlier ones succeeded makes its parent raise that error |
| Tiles.Quad | backend/app/worker/mesh/create_tileset_json.py:141-198 | the method filling the leaf dict, the children loop and the outer node computes the specification of `quad` |
| Tiles.BuildChildren | backend/app/worker/mesh/create_tileset_json.py:177-186 | the children loop builds exactly the kept quadrants' trees, the first failure raising |
| Tiles.QuadShape | backend/app/worker/mesh/create_tileset_json.py:153-198 | a node has `geometric_errors[level + 1]`, REPLACE, its uri as content, and children exactly when `level < depth` |
| Tiles.ChildrenAreAttachedQuadrants | backend/app/worker/mesh/create_tileset_json.py:185-196 | a node's children are exactly the trees of its kept quadrants, in order |
| Tiles.AttachedQuadrantsAreChildren | backend/app/worker/mesh/create_tileset_json.py:178-186 | the kept quadrants exist on disk and are one level down |
| Tiles.QuadWellFormed | backend/app/worker/mesh/create_tileset_json.py:141-198 | every node built without a transform is well formed, recursively |
| Tiles.ShortScheduleFails | backend/app/worker/mesh/create_tileset_json.py:154 | a schedule without an entry for `level + 1` raises IndexError |
| Tiles.LongScheduleSucceeds | backend/app/worker/mesh/create_tileset_json.py:141-198 | with an entry for every level down to the depth and a non-empty extent, the tree is built |
| Tiles.DeepChildFails | backend/app/worker/mesh/create_tileset_json.py:154-186 | one entry short, a node fails as soon as one of its quadrants is kept |
| Tiles.TransformWrapsRoot | backend/app/worker/mesh/create_tileset_json.py:188-198 | with a transform, a node with children is wrapped in an outer node with the transform, `geometric_errors[level]` and the node as only child; a leaf ignores the transform |
| Tiles.WellFormedIsMonotone | backend/app/worker/mesh/create_tileset_json.py:154-192 | with a non-increasing schedule, errors never grow from parent to child |
| Tiles.RootMonotone | backend/app/worker/mesh/create_tileset_json.py:188-196 | the same holds for the tree built with a transform, outer node included |
| Tiles.AttachedAll | backend/app/worker/mesh/create_tileset_json.py:24-27 | when every tile exists, every quadrant is kept |
| Tiles.AllQuadrantsAttached | backend/app/worker/mesh/create_tileset_json.py:178-186 | when every tile exists, a node above the depth has its four quadrants as children |
| Tiles.ChildVolumes | backend/app/worker/mesh/create_tileset_json.py:158-186 | child i then has the bounding volume of quadrant i |
| Tiles.FullTreeCount | backend/app/worker/mesh/create_tileset_json.py:141-198 | when every tile exists, a node n levels above the depth heads (4^(n+1) - 1) / 3 tiles |
| MeshTileset.CheckUri | backend/app/worker/mesh/create_tileset_json.py:24-27 | `check_uri` gives at most the quadrant itself, and gives it exactly when its tile file exists |
| MeshTileset.CheckUriExtends | backend/app/worker/mesh/create_tileset_json.py:185-186 | extending the children with `check_uri` of each quadrant in turn keeps exactly the found quadrants |
| MeshTileset.ParseAllValues | backend/app/worker/mesh/create_tileset_json.py:121 | the schedule is read exactly when every piece is a float, then piece by piece; otherwise ValueError |
| MeshTileset.DefaultSchedule | backend/app/worker/mesh/create_tileset_json.py:119-121 | the default `200,100,20,5,0` reads as those five levels, a non-increasing schedule |
| MeshTileset.ApplyCenterOffset | backend/app/worker/mesh/create_tileset_json.py:113-116 | a non-empty offset moves x and y, and z when it has a third entry; a one-entry offset raises IndexError; an empty one changes nothing |
| MeshTileset.Region | backend/app/worker/mesh/create_tileset_json.py:134-138 | a region has six entries ending in the vertical span `min_z`, `max_z` |
| MeshTileset.Prepare | backend/app/worker/mesh/create_tileset_json.py:201-218 | a missing `info.json` raises FileNotFoundError; otherwise the builder takes the depth, the size and the parsed schedule, and the root quad is level 0 at (0, 0) with uri `0_0_0.glb` |
| MeshTileset.RootNeverChecked | backend/app/worker/mesh/create_tileset_json.py:188-218 | the root's `0_0_0.glb` is content whatever the file probe says; the outer node carries the transform and the schedule's first entry |
| MeshTileset.MeshTreeWellFormed | backend/app/worker/mesh/create_tileset_json.py:141-198 | below the outer node every tile is well formed and every child's file exists |
| MeshTileset.MeshMonotone | backend/app/worker/mesh/create_tileset_json.py:119-192 | with a non-increasing schedule errors never grow down the tileset |
| MeshTileset.ShortScheduleRejected | backend/app/worker/mesh/create_tileset_json.py:154 | a schedule of fewer than two entries raises IndexError |
| MeshTileset.DefaultCenterAxes | backend/app/worker/mesh/create_tileset_json.py:110-125 | without an offset the transform is computed at latitude `lon0` and longitude `lat0`: the fixed point is passed to an x, y projection latitude first |
| PhotogrammetryTileset.ApplyOffset | backend/app/worker/photogrammetry/create_tileset.py:102-105 | the method shifts the caller's coordinate list in place, as the offset specification says, reporting an IndexError |
| PhotogrammetryTileset.OffsetOutcome | backend/app/worker/photogrammetry/create_tileset.py:102-105 | the offset shifts x and y (z with a third entry) and nothing else, or raises IndexError exactly when it has one entry or the centre fewer than three; a missing offset changes nothing |
| PhotogrammetryTileset.OffsetPartialOnError | backend/app/worker/photogrammetry/create_tileset.py:103-104 | a one-entry offset still shifts x before `offset[1]` raises |
| PhotogrammetryTileset.GeometricErrors | backend/app/worker/photogrammetry/create_tileset.py:111-115 | the loop builds exactly the error schedule |
| PhotogrammetryTileset.ScheduleShape | backend/app/worker/photogrammetry/create_tileset.py:111-115 | the schedule has `depth + 2` entries (one below depth -1); entry l times (l+1)^2 is the maximum; the last is 0 |
| PhotogrammetryTileset.ScheduleDecreasing | backend/app/worker/photogrammetry/create_tileset.py:111-115 | with a positive maximum the schedule strictly decreases down to 0 |
| PhotogrammetryTileset.ScheduleNonIncreasing | backend/app/worker/photogrammetry/create_tileset.py:111-115 | with a maximum that is not negative, errors never grow along the schedule |
| PhotogrammetryTileset.ToBox | backend/app/worker/photogrammetry/create_tileset.py:80-91 | an oriented box is twelve numbers |
| PhotogrammetryTileset.RootBox | backend/app/worker/photogrammetry/create_tileset.py:80-91 | the level-0 box is centred on the origin with half the size as half-axes |
| PhotogrammetryTileset.ChildBoxSplit | backend/app/worker/photogrammetry/create_tileset.py:160-180 | each child's box centre lies a quarter of the parent's width and height from the parent's, its horizontal half-axes halved and its vertical one kept |
| PhotogrammetryTileset.Region | backend/app/worker/photogrammetry/create_tileset.py:129-133 | a region has six entries ending in `min_z`, `max_z` |
| PhotogrammetryTileset.PhotoBuilderFacts | backend/app/worker/photogrammetry/create_tileset.py:153-183 | every quadrant is built (no existence check) and gets its `to_box` box |
| PhotogrammetryTileset.Prepare | backend/app/worker/photogrammetry/create_tileset.py:95-126 | preparation succeeds exactly when the size and the centre have three entries, else IndexError |
| PhotogrammetryTileset.Run | backend/app/worker/photogrammetry/create_tileset.py:93-220 | the method leaves the caller's centre shifted and returns what the specification of `run` gives |
| PhotogrammetryTileset.BuildTileset | backend/app/worker/photogrammetry/create_tileset.py:93-220 | once the offset is applied, `run` reads the size and the shifted centre, raising IndexError when either has fewer than three entries, and otherwise builds version 1.1 around the root quad `0_0_0.glb` over the centred box, carrying the ECEF transform at the centre |
| PhotogrammetryTileset.RunSucceeds | backend/app/worker/photogrammetry/create_tileset.py:93-220 | `run` succeeds exactly when the offset applies, the size and centre have three entries, the depth is at least 0, and a positive depth has a non-zero width and height; otherwise IndexError or ZeroDivisionError |
| PhotogrammetryTileset.RunFullTree | backend/app/worker/photogrammetry/create_tileset.py:160-196 | below the root wrapper the tree is full: (4^(n+1) - 1) / 3 tiles for depth n |
| PhotogrammetryTileset.RunMonotone | backend/app/worker/photogrammetry/create_tileset.py:109-192 | with a maximum error that is not negative, errors never grow down the tileset |
| PhotogrammetryTileset.RunChildBoxes | backend/app/worker/photogrammetry/create_tileset.py:153-183 | every tile has its quadrant's box, and the four children of a tile are quadrants (2x+dx, 2y+dy) in order |
| PhotogrammetryTileset.QuadrantBoxes | backend/app/worker/photogrammetry/create_tileset.py:160-183 | when every quadrant is attached, the children have the boxes of columns 2x, 2x+1 and rows 2y, 2y+1 one level down |
| TileTrees.ScaledNodes | backend/app/worker/processes.py:283-300 | rescaling keeps the tree's shape and every node's other members, adds `children` to no leaf, and multiplies every node's error by the factor |
| TileTrees.ScaleComposes | backend/app/worker/processes.py:283-300 | rescaling twice is rescaling once by the product |
| TileTrees.ScaleByOne | backend/app/worker/processes.py:283 | the default factor 1 gives the same tree back |
| TileTrees.ScaleKeepsMonotone | backend/app/worker/processes.py:283-300 | a non-negative factor keeps errors non-increasing down the tree |
| Surfaces.HoleStarts | frontend/src/utils/polyhedron.ts:31-37 | one hole start per ring after the outer one |
| Surfaces.Triangles | frontend/src/utils/polyhedron.ts:40-51 | the faces exist exactly when earcut's indices come in complete, valid triples; one closed face per triple |
| Surfaces.TrianglesReverse | frontend/src/utils/polyhedron.ts:46-47 | the reversed copy swaps each face's second and third vertex, turning it over |
| Surfaces.TrianglesCorners | frontend/src/utils/polyhedron.ts:44-49 | face t joins the vertices named by triple t, in order, closed by the first |
| Surfaces.WallFaces | frontend/src/utils/polyhedron.ts:54-67 | two closed faces per consecutive pair of lower positions; none when the upper ring runs out first |
| Surfaces.WallsFormStrip | frontend/src/utils/polyhedron.ts:62-63 | the wall faces form a strip: each shares two vertices with the next |
| Surfaces.FlatWallsDegenerate | frontend/src/utils/polyhedron.ts:58-63 | with no height between the two copies every wall face repeats a vertex |
| Surfaces.RingWalls | frontend/src/utils/polyhedron.ts:69-74 | the walls of every ring, ring after ring, are closed faces |
| Surfaces.RingWallsSome | frontend/src/utils/polyhedron.ts:69-74 | the walls exist exactly when every ring's walls do |
| Surfaces.RingWallsOfSameShape | frontend/src/utils/polyhedron.ts:69-74 | two copies of one footprint always get walls, two faces per edge of every ring |
| Surfaces.MeanOfLevelRing | backend/app/worker/polyhedron.py:111-121 | a ring at one height has that height as its mean |
| Surfaces.ConcatSurfaces | frontend/src/utils/polyhedron.ts:126-136 | concatenating partial surfaces succeeds exactly when every part does |
| Surfaces.ConcatSurfacesValue | frontend/src/utils/polyhedron.ts:126-136 | and then gives the parts one after the other |
| TsPolyhedron.ParseCoords | frontend/src/utils/polyhedron.ts:4-12 | x and y are kept; the height is the defined `z` (0 included), else `coords[2] \|\| 0`, plus `translateZ \|\| 0` |
| TsPolyhedron.ParseRing | frontend/src/utils/polyhedron.ts:14-18 | every position is parsed, in order |
| TsPolyhedron.ParsedRingIsLevel | frontend/src/utils/polyhedron.ts:11-18 | a ring parsed with a limit lies level at that limit plus the translation |
| TsPolyhedron.SumUntilIndexIsPrefixSum | frontend/src/utils/polyhedron.ts:20-24 | `sumUntilIndex(arr, i)` is the sum of the first i entries |
| TsPolyhedron.HolesIndicesAreHoleStarts | frontend/src/utils/polyhedron.ts:31-37 | the hole indices handed to earcut are where each hole starts in the flattened vertices |
| TsPolyhedron.Triangulate | frontend/src/utils/polyhedron.ts:26-52 | the loop over index triples computes the triangulation specification: one closed face per triple |
| TsPolyhedron.PlaneToWall | frontend/src/utils/polyhedron.ts:54-67 | the loop over consecutive pairs computes exactly the wall faces |
| TsPolyhedron.ToPolyhedralSurface | frontend/src/utils/polyhedron.ts:75-89 | every face of the surface is a closed triangle |
| TsPolyhedron.PolygonSurfaces | frontend/src/utils/polyhedron.ts:126-135 | the MultiPolygon parser computes each polygon's surface in turn |
| TsPolyhedron.NoLimitsIsFlat | frontend/src/utils/polyhedron.ts:81-107 | without limits the result is the flat triangulated footprint |
| TsPolyhedron.LimitsOrderTheCopies | frontend/src/utils/polyhedron.ts:108-124 | with both limits the copy at the higher limit is the top; at equal limits the lower-limit copy stays below |
| TsPolyhedron.EmptyOuterRingKeepsOrder | frontend/src/utils/polyhedron.ts:114-122 | an empty outer ring makes both means NaN and keeps the order |
| TsPolyhedron.PrismFaceCount | frontend/src/utils/polyhedron.ts:84-88 | between two copies of one footprint the walls exist; without the bottom the prism has the top's faces plus two per edge |
| TsPolyhedron.MultiPolygonConcatenates | frontend/src/utils/polyhedron.ts:126-135 | a MultiPolygon's surface is its polygons' surfaces in order, failing when one does |
| TsPolyhedron.CollectionMapsKeptFeatures | frontend/src/utils/polyhedron.ts:157-171 | the features the filter keeps, in order, each with its other members and its geometry replaced by its surface; other geometry types throw |
| TsPolyhedron.MissingFeaturesGiveEmptyCollection | frontend/src/utils/polyhedron.ts:151-156 | a collection without features gives an empty one |
| PyPolyhedron.ParseCoords | backend/app/worker/polyhedron.py:4-14 | a position without a height raises; a truthy `z` replaces the height; a falsy `translate_z` counts as 0 |
| PyPolyhedron.ParsedRing | backend/app/worker/polyhedron.py:16-20 | every position parsed in order, or IndexError exactly when one has no height |
| PyPolyhedron.ParseRing | backend/app/worker/polyhedron.py:16-20 | the appending loop computes exactly the parsed ring |
| PyPolyhedron.ParsedRings | backend/app/worker/polyhedron.py:100-109 | one parsed ring per ring, or IndexError exactly when one ring fails |
| PyPolyhedron.ParseRings | backend/app/worker/polyhedron.py:100-109 | the ring loop computes exactly the parsed rings |
| PyPolyhedron.ParsedRingsSameShape | backend/app/worker/polyhedron.py:100-109 | parsing with two limits fails for both or succeeds for both with the same shape |
| PyPolyhedron.SumUntilIndex | backend/app/worker/polyhedron.py:22-30 | the two loops give the sum of the entries before the index |
| PyPolyhedron.IntOfText | backend/app/worker/processes.py:21 | on the digit-only pieces the helper prints, `int(piece)` succeeds exactly on a non-empty run of digits |
| PyPolyhedron.EmptyTextIsValueError | backend/app/worker/processes.py:21 | empty output reads as `int('')`, a ValueError |
| PyPolyhedron.ReadPrintedIndices | backend/app/worker/processes.py:21 | comma-separated printed indices read back as themselves |
| PyPolyhedron.EarcutJsRoundTrip | backend/app/worker/processes.py:14-22 | the helper process hands earcut's indices back unchanged, except that no indices read as ValueError |
| PyPolyhedron.GatherVertices | backend/app/worker/polyhedron.py:36-40 | the first loop gathers every position of every ring, ring after ring |
| PyPolyhedron.TriangleLoop | backend/app/worker/polyhedron.py:42-60 | the `i % 3 == 0` loop builds one face per triple, raising IndexError on an incomplete triple or a missing vertex |
| PyPolyhedron.Triangulate | backend/app/worker/polyhedron.py:32-60 | `triangulate` computes its specification: earcut, the vertices, one face per triple |
| PyPolyhedron.PlaneToWall | backend/app/worker/polyhedron.py:62-74 | every consecutive pair gets two faces; an upper ring shorter than the lower raises IndexError |
| PyPolyhedron.GenerateWalls | backend/app/worker/polyhedron.py:76-80 | the walls of every ring, ring after ring |
| PyPolyhedron.ToPolyhedralSurface | backend/app/worker/polyhedron.py:82-93 | the top, the walls, and the bottom turned over unless removed; the flat footprint without an upper set |
| PyPolyhedron.MeanHeight | backend/app/worker/polyhedron.py:111-121 | the average height exists exactly for a non-empty ring, ZeroDivisionError otherwise |
| PyPolyhedron.AverageZ | backend/app/worker/polyhedron.py:111-115 | the averaging loop computes the mean height |
| PyPolyhedron.MeanHeightIsMeanZ | backend/app/worker/polyhedron.py:111-121 | the backend's average is the frontend's mean, wherever the ring is not empty |
| PyPolyhedron.PolygonToPolyhedralSurface | backend/app/worker/polyhedron.py:95-126 | the method computes the polygon specification |
| PyPolyhedron.GeometryToPolyhedralSurface | backend/app/worker/polyhedron.py:128-131 | the method computes the geometry specification |
| PyPolyhedron.PolyhedralToWkt | backend/app/worker/polyhedron.py:133-143 | the nested loops give `POLYHEDRALSURFACE Z(` followed by each face as a one-ring polygon of its vertices' `x y z` texts, the faces in order and separated by commas, then `)` |
| PyPolyhedron.EmptyWktIffNoFaces | backend/app/worker/polyhedron.py:133-143 | the text is `POLYHEDRALSURFACE Z()` exactly for a surface without faces |
| PyPolyhedron.ZeroLimitIsIgnored | backend/app/worker/polyhedron.py:8-9 | a limit of 0 is falsy and ignored, where the frontend places the position at 0 |
| PyPolyhedron.ParsedRingIsLevel | backend/app/worker/polyhedron.py:8-14 | a ring parsed with a nonzero limit lies level at that limit plus the translation |
| PyPolyhedron.NoLimitsIsFlat | backend/app/worker/polyhedron.py:104-105 | without limits the surface is the flat footprint alone |
| PyPolyhedron.LimitsOrderTheCopies | backend/app/worker/polyhedron.py:107-126 | the copy with the greater mean outer height is the upper set; a tie keeps the lower-limit copy below |
| PyPolyhedron.LimitsNeedAnOuterRing | backend/app/worker/polyhedron.py:112-121 | with limits, a polygon without rings raises IndexError and an empty outer ring ZeroDivisionError |
| PyPolyhedron.NoRingsFlatIsValueError | backend/app/worker/polyhedron.py:104-105 | a flat polygon without rings reaches earcut, whose empty output raises ValueError |
| PyPolyhedron.ExtrudedSurfaceParts | backend/app/worker/polyhedron.py:86-93 | the top, two wall faces per edge of every ring, then the bottom turned over; every face closed |
| PyPolyhedron.NonPolygonIsEmptySurface | backend/app/worker/polyhedron.py:128-143 | any other geometry gives no faces, whose text is the empty surface |
| JsPolyhedron.LegacySurfaceKeepsBottom | src/polyhedron.js:69-78 | the legacy surface is the frontend's with the bottom always kept |
| JsPolyhedron.ApplyBuffer | src/polyhedron.js:80-86 | the buffer is one ring |
| JsPolyhedron.BufferIsReversedLevelRing | src/polyhedron.js:80-86 | the buffered ring is turf's ring read backwards, level at the point's height |
| JsPolyhedron.PointLimitsOrderTheCopies | src/polyhedron.js:117-128 | with both limits the buffer at the higher limit is the top |
| JsPolyhedron.PointSurfaces | src/polyhedron.js:129-133 | the MultiPoint parser computes each point's surface in turn |
| JsPolyhedron.SplitCoordinatesByAngles | src/polyhedron.js:99-114 | the loop with its running segment index computes the split |
| JsPolyhedron.SegmentsChain | src/polyhedron.js:103-111 | each segment after the first starts with the position that ends the one before |
| JsPolyhedron.SplitGluesBack | src/polyhedron.js:99-114 | the segments, joined back, reproduce the line |
| JsPolyhedron.SegmentsHaveTwoPositions | src/polyhedron.js:103-111 | a line of two or more positions splits into segments of two or more |
| JsPolyhedron.ApplyLineOffset | src/polyhedron.js:88-97 | the offset is one ring |
| JsPolyhedron.OffsetRingIsClosed | src/polyhedron.js:88-97 | the ring is the left line then the right one backwards, closed by its first position |
| JsPolyhedron.SegmentSurfaces | src/polyhedron.js:135-148 | the LineString parser computes each segment's surface in turn |
| JsPolyhedron.SegmentLimits | src/polyhedron.js:136-147 | without limits a segment is its flat offset ring; with both, the ring at the higher limit is the top |
| JsPolyhedron.LineSurfaces | src/polyhedron.js:150-154 | the MultiLineString parser computes each line's surface in turn |
| JsPolyhedron.PolygonAsFrontend | src/polyhedron.js:155-165 | the legacy Polygon parser is the frontend's with the bottom kept |
| JsPolyhedron.PolygonSurfaces | src/polyhedron.js:166-170 | the MultiPolygon parser computes each polygon's surface in turn |
| JsPolyhedron.MultiPartsConcatenate | src/polyhedron.js:129-170 | the multi-part parsers concatenate the parts' surfaces in order, failing when one does |
| JsPolyhedron.CollectionMapsKeptFeatures | src/polyhedron.js:173-198 | missing features give an empty collection; otherwise every kept feature in order with its geometry replaced; an unparsable feature throws |
| Processes.ScaleGeometricError | backend/app/worker/processes.py:283-301 | the method rescales the node and, when it has `children`, every child into a fresh list: the rescaled tree |
| Processes.Py3dtilesPatch | backend/app/worker/processes.py:324-336 | the rewrite succeeds exactly when the document has `geometricError` and `root`, else KeyError |
| Processes.Py3dtilesPatchScalesEveryNode | backend/app/worker/processes.py:329-336 | every node of the patched root is the original node with its error scaled and its other members and leaf status kept; the top-level error is scaled too |
| Processes.Py3dtilesPatchTwice | backend/app/worker/processes.py:329-336 | patching twice is patching once by the product of the factors |
| Processes.Py3dtilesPatchDefaultFactor | backend/app/worker/processes.py:304-336 | with the default factor 1 only `properties` changes, to the Classification range 0-255 |
| Processes.PropertyKeys | backend/app/worker/processes.py:146-156 | the loop over the table's columns builds exactly the property map |
| Processes.PropertyMapGet | backend/app/worker/processes.py:102-110 | the geometry and fid columns never appear; every other name maps to `{}` for VARCHAR and `{minimum: 1, maximum: 1}` otherwise, the last column of a name deciding |
| Processes.PropertyMapUniqueKeys | backend/app/worker/processes.py:100-110 | no property name is listed twice |
| Processes.WithPropertyMap | backend/app/worker/processes.py:158 | `properties` becomes the map; every other member keeps its value and its place |
| Processes.ProcessLasAsWrittenRaises | backend/app/worker/processes.py:354 | as written, `process_las` raises TypeError at its first line whatever its inputs |
| Processes.IntendedPathCall | backend/app/worker/processes.py:354 | the corrected calls turn the id, the extension and the name into one pathname, as the other tasks call the helper (`backend/app/worker/tasks.py:51`); two or three arguments succeed, any other count raises TypeError |
| Processes.LasStagesError | backend/app/worker/processes.py:376 | the only error on the way to the stages is pyproj's CRSError |
| Processes.ReprojectionStagesShape | backend/app/worker/processes.py:364-385 | at most one reprojection stage, present exactly when asked for on an asset with an upload result |
| Processes.LasStagesOrdered | backend/app/worker/processes.py:355-411 | the stages come as sample, reprojection, colorization, ground classification |
| Processes.LasStagesPresence | backend/app/worker/processes.py:356-411 | each optional stage appears exactly when its option is truthy; ground classification is the four fixed filters |
| Processes.VerticalIsAlways3855 | backend/app/worker/processes.py:372-374 | the test looks for the integer 3855 among string keys, so the vertical datum is always 3855 |
| Processes.ReprojectionFromEgm2008 | backend/app/worker/processes.py:378-384 | the reprojection's input CRS ends in `+3855` whatever the upload result says |
| Processes.ProcessLasOutcome | backend/app/worker/processes.py:413-445 | with the corrected path calls, no stages hands back the uploaded file at `<upload>/<id>/index<extension>`, where the upload task stores it; otherwise the stages sit between a reader of that file and a compressed writer of `<upload>/<id>/<pipeline id>.laz`, failing when PDAL produced nothing |
| Processes.DecimationStepBounds | backend/app/worker/processes.py:197-198 | the step keeps at most 500000 points and is the smallest step that does |
| Processes.ScanStatistics | backend/app/worker/processes.py:207-220 | the loop keeps, for each of X, Y, Z and Red, the last entry of that name; an entry without a name raises KeyError |
| Processes.LastNamedIsLast | backend/app/worker/processes.py:212-220 | the kept entry has the name asked for and no later entry has it |
| Processes.CentreIsMidpoint | backend/app/worker/processes.py:223-233 | for finite bounds the centre is the midpoint |
| Processes.PointCloudPreview | backend/app/worker/processes.py:186-281 | the method builds the preview pipeline, and raises when the sample file is missing afterwards |
| Processes.PreviewPipelineShape | backend/app/worker/processes.py:188-261 | the preview reads the input, decimates exactly above 500000 points, centres the cloud, and writes colours exactly when a Red statistic exists |
| Processes.PreviewPipelineErrors | backend/app/worker/processes.py:212-233 | the preview fails exactly when a statistic lacks a name or X, Y or Z lacks a numeric minimum or maximum |
| Processes.Ogr2ogrExport | backend/app/worker/processes.py:68 | the export command is the six fixed words followed by the options |
| Processes.ExportLimitDropped | backend/app/worker/processes.py:64-68 | as written, the limit never reaches ogr2ogr: the arguments stop after the table name |
| Processes.ExportLimitPassed | backend/app/worker/processes.py:64-68 | corrected, a limit other than None ends the arguments with `-limit <limit>`; None adds nothing |
| WorkerUtils.TableName | backend/app/worker/utils.py:10-18 | the prefix followed by the id's text with every `-` replaced by `_`, other characters in place |
| WorkerUtils.TableNameHasNoDash | backend/app/worker/utils.py:11-16 | a table name holds no `-` when its prefix has none |
| WorkerUtils.GeneratedTableNames | backend/app/worker/utils.py:10-18 | asset and pipeline table names start `asset_` and `pipeline_`, hold no `-`, and are as long as the prefix plus the id's text |
| WorkerUtils.UploadPathPlacement | backend/app/worker/utils.py:7-8 | a relative name lands under `<ASSETS_DATA>/upload/`; an absolute one replaces the whole path |
| WorkerUtils.UploadDirectory | backend/app/worker/utils.py:8 | the upload directory is never empty and never ends with a separator |
| WorkerUtils.CallUploadPath | backend/app/worker/utils.py:7 | `get_asset_upload_path` takes exactly one positional argument; any other count raises TypeError |
| WorkerUtils.AssetFilePathShape | backend/app/worker/utils.py:4-5 | the three-parameter helper puts the file in `<upload>/<id>/<id>/` with the name and extension asked for |
| WorkerUtils.CommentedHelperMissesUploads | backend/app/worker/utils.py:4-5 | that doubled directory is never the path `<upload>/<id>/index<extension>` where the tasks store and read an upload (`backend/app/worker/tasks.py:51`) |
| Scripts.MicromambaShape | src/server/scripts.js:28-30 | the vector is `micromamba run -n <env>` followed by the parameters, unchanged and in order |
| Scripts.PdalShape | src/server/scripts.js:32-34 | `pdalCLI(p)` is `micromamba run -n pdal_env pdal` followed by p |
| Scripts.CommandWords | src/server/scripts.js:6 | the command text is the words one space apart: split at spaces it gives the words back when none holds a space |
| Scripts.SettledAt | src/server/scripts.js:19-24 | the settling event is the first `error` or `exit`; none before it is terminal |
| Scripts.ExecuteCommand | src/server/scripts.js:4-26 | every chunk reaches its callback when that callback exists, and the promise settles as the first `error` or `exit` says |
| Scripts.SettledAtDecides | src/server/scripts.js:19-24 | pending without a terminal event, rejected only by an `error`, fulfilled only by an `exit` |
| Scripts.ExitResolves | src/server/scripts.js:22-24 | an `exit` after any chunks fulfils the promise with its code |
| Info.TableNameShape | src/info.js:4 | the table name is the file name (default `tiles`) lower-cased with spaces replaced by `_`; a truthy non-string name throws |
| Info.AttributesFromFirstFeature | src/info.js:6-10 | attributes come from the first feature only, one per key in key order, numeric exactly when `isNumber` accepts the value; none without features or properties |
| Info.PropertiesKeys | src/info.js:22 | `properties` has one member per distinct attribute name, in first-occurrence order |
| Info.PropertiesLookup | src/info.js:22 | a name's member is `{minimum: 1, maximum: 1}` when its last attribute is numeric, `{}` otherwise; other names are absent |
| Info.OutputFromConfigName | src/info.js:16 | the output directory is named after `config.name` (default `tiles`), not after the file name |
| Instances.Tags | src/instances.js:13 | one single-key tag per property, in key order, holding that property's value |
| Instances.Lifted | src/instances.js:17-21 | the position always has three coordinates |
| Instances.CollectModels | frontend/src/components/Viewer/PointGeometryCanvas.tsx:62-67 | the viewer's `reduce` with `includes` and `push` lists each model once, in order of first use |
| Instances.MissingFeaturesGiveEmptyCollection | src/instances.js:4-30 | a missing collection or one without features gives no features and no models |
| Instances.InstancesCorrespond | src/instances.js:4-24 | the instances correspond one to one, in order, with the features, each keeping the feature's other members; only a feature without properties throws |
| Instances.OptionDefaults | src/instances.js:10-12 | falsy options fall back to scale 1, rotation 0 and the default model (an explicit scale of 0 becomes 1); truthy options are kept |
| Instances.TagsFollowProperties | src/instances.js:9-14 | properties are replaced, surviving only as tags in order; the server's tag keys hold no space and no upper-case letter, the viewer's are the original keys |
| Instances.PositionIsLifted | src/instances.js:6-21 | x and y are kept, the height (0 without one) is lifted by a numeric `translateZ` |
| Instances.ModelsListedOnce | src/instances.js:25 | every referenced model is listed exactly once, in the order of its first use |
| Instances.DialectsAgreeOnGeometry | frontend/src/components/Viewer/PointGeometryCanvas.tsx:35-72 | the server and viewer copies build the same positions, scales and rotations, differing only in the default model and the tag keys |
| Table.SurfaceTextAppend | src/server/table.js:10-13 | the surface text of two runs of faces is their texts one comma apart |
| Table.WktShape | src/server/table.js:9-15 | every geometry is a POLYHEDRALSURFACE Z in SRID 4978, one doubly parenthesised vertex list per face; no faces give the empty surface |
| Table.Escape | src/server/table.js:128 | escaping never shortens the text |
| Table.EscapeRoundTrip | src/server/table.js:128 | the database reads back exactly the text that was quoted |
| Table.EscapedIsPaired | src/server/table.js:128 | an escaped text never ends the literal early |
| Table.EscapeWithoutQuotes | src/server/table.js:128 | text without quotes is written unchanged |
| Table.StringQuoting | src/server/table.js:126-128 | a string is quoted so that the database reads back that very string |
| Table.FalsyIsEmptyLiteral | src/server/table.js:128 | a falsy value that is not a number is the empty literal |
| Table.FalsyQuoting | src/server/table.js:126-128 | numbers are written bare; NaN, null, undefined, false and `''` become the empty literal |
| Table.InsertIterator.Next | src/server/table.js:21-34 | below the limit, the chunk at the offset, then a step further with its rows counted; at or past it, done with the rows counted and the limit, and nothing changes |
| Table.OffsetBelowLimit | src/server/table.js:23-30 | the i-th call starts below the limit exactly for the first ChunkCount calls |
| Table.Exhaust | src/server/table.js:17-37 | calling `next()` until done yields ChunkCount statements from offsets 0, step, 2·step, …, then the total rows and the limit, or stops at the first throw |
| Table.FilterRange | src/server/table.js:114 | filtering by an index range is slicing, clipped at the end |
| Table.ChunkIsSlice | src/server/table.js:108-114 | the chunk at an offset is the collection from there, `step` long or cut at its end |
| Table.ChunksPartition | src/server/table.js:108-114 | the chunks partition the collection: in order, every feature exactly once |
| Table.TotalsCountFeatures | src/server/table.js:85-136 | when every chunk counts its own features, the first n chunks count the features they cover |
| Table.ProcessedIsFeatureCount | src/server/table.js:29-60 | a full run counts every feature once |
| Table.PointInsert | src/server/table.js:59-60 | `insert(step)` is an iterator over the features, or throws when the collection has none |
| Table.PointTable | src/server/table.js:39-58 | the table is named after the file, holds a POINTZ column in SRID 4326 and the instance columns, indexed on that column |
| Table.PointChunkRows | src/server/table.js:62-86 | every chunk has one row per feature it covers, and throws exactly when one has no properties |
| Table.PointRunProcessesAll | src/server/table.js:59-88 | with properties on every feature a full run never throws and counts every feature once |
| Table.PointRowPosition | src/server/table.js:70-77 | a Point's row places it at its own x and y and its height (0 without one) lifted by `translateZ` |
| Table.PolyhedralInsert | src/server/table.js:108-109 | `insert(step)` is an iterator over the features, or throws when the collection has none |
| Table.PolyhedralCreateColumns | src/server/table.js:96-107 | the create text as written declares a POLYHEDRALSURFACEZ column in SRID 4978, followed by a comma, and one typed column per attribute |
| Table.PolyhedralTable | src/server/table.js:92-96 | the table is named after the file and its columns are the metadata's |
| Table.KeepAllKeepsAll | src/polyhedron.js:174 | the default filter keeps every feature |
| Table.PolyhedralChunkRows | src/server/table.js:111-137 | every chunk has one row per feature it covers, and throws exactly when one has no surface or no properties |
| Table.PolyhedralRunProcessesAll | src/server/table.js:108-139 | with a surface and properties on every feature a full run never throws and counts every feature once |
| Table.PolyhedralSqlAsWrittenTrailingComma | src/server/table.js:101-133 | as written, without attributes the column list, the insert columns and each row end in a comma before `)` |
| Table.PolyhedralColumnsCorrected | src/server/table.js:99-103 | corrected, the column list never ends in a comma, and is the text as written when there are attributes |
| Table.PolyhedralCreateCorrectedAgrees | src/server/table.js:96-107 | with attributes the intended create text is the text as written; without them it lists only the id and the geometry columns |
| Table.PolyhedralInsertCorrected | src/server/table.js:126-133 | corrected, no attributes give the geometry alone; with attributes the texts are as written |
| PointcloudWorkflow.MetadataOfRun | src/server/workflows/pointcloud.js:12-38 | the metadata is the parse of all stdout text before the exit, whatever the exit code; a failed spawn rejects with its message |
| PointcloudWorkflow.MetadataIgnoresChunking | src/server/workflows/pointcloud.js:22-32 | how PDAL's output is cut into chunks does not matter |
| PointcloudWorkflow.ProcessLasGuard | src/server/workflows/pointcloud.js:77-80 | an existing output file stops the workflow before anything is built or run, with a message naming that file |
| PointcloudWorkflow.ProcessLasRun | src/server/workflows/pointcloud.js:138-163 | otherwise `./tmp/` is created when missing, the pipeline written and run; the file is removed exactly when the run exits, whatever its code, and the result is `true`; a spawn error rejects |
| PointcloudWorkflow.PipelineFilesDistinct | src/server/workflows/pointcloud.js:138-139 | each run writes its pipeline to its own file under `./tmp/` |
| PointcloudWorkflow.UuidOfPipelineFile | src/server/workflows/pointcloud.js:139 | the UUID can be read back from the file name |
| PointcloudWorkflow.LasPipelineOrdered | src/server/workflows/pointcloud.js:82-134 | the reader comes first, the writer last, and the stages between as colorization, sample, reprojection, ground classification |
| PointcloudWorkflow.LasPipelinePresence | src/server/workflows/pointcloud.js:87-133 | each optional stage is there exactly when its option asks for it; the writer carries `a_srs` exactly when the output CRS is truthy |
| PointcloudWorkflow.CrsOutDefaultsToCrsIn | src/server/workflows/pointcloud.js:68-110 | without a truthy `crsOut` nothing is reprojected (unless `crsIn` is NaN); a different `crsOut` adds one reprojection |
| PointcloudWorkflow.OutputNameDefault | src/server/workflows/pointcloud.js:66-67 | without a truthy `outputName` the output keeps the input's name and extension |
| PointcloudWorkflow.CRSErrorSkipsRewrite | src/server/workflows/pointcloud.js:190-221 | a CRS error on stderr leaves the tileset as written yet still reports success |
| PointcloudWorkflow.RewriteContents | src/server/workflows/pointcloud.js:203-213 | the written tileset drops the top-level `geometricError`, gets the Classification range, keeps the rest, and its root is untouched (scale 0) or rescaled node by node |
| PointcloudWorkflow.RewriteTwice | src/server/workflows/pointcloud.js:205-213 | rewriting twice scales the root by the product and changes nothing else |
| PointcloudWorkflow.MissingRootRejects | src/server/workflows/pointcloud.js:169-212 | a truthy scale on a tileset without `root` rejects |
| MeshWorkflow.MeshRemovesFirst | src/server/workflows/mesh.js:25-41 | the old output is removed first and only once; a missing configuration only removes it; then the tiler runs |
| MeshWorkflow.MeshSettles | src/server/workflows/mesh.js:26-67 | success exactly when the configuration, the tiler's exit and the tileset file allow it; pending while the tiler runs; nothing written or logged without success |
| MeshWorkflow.MeshInfoError | src/server/workflows/mesh.js:17-23 | a table-metadata error stops the workflow before it touches anything |
| MeshWorkflow.MeshSuccess | src/server/workflows/mesh.js:50-66 | on success the tileset keeps its other members and gets the attribute ranges as `properties`, and the preview link is logged last |
| MeshWorkflow.MeshArgvDefaults | src/server/workflows/mesh.js:27-41 | geometric errors default to `250,0` and features per tile to 100; double-sided is a boolean and implicit tiling off |
| MeshWorkflow.MeshAttributeNames | src/server/workflows/mesh.js:36 | the `-a` argument lists the attribute names comma-separated, in column order |
| PointInstanceWorkflow.NamedPrefix | src/server/workflows/pointinstance.js:68-70 | the models before the first non-string one; `path.join` throws at that one |
| PointInstanceWorkflow.CopyModels | src/server/workflows/pointinstance.js:68-70 | the loop copies each model in order until one throws, and throws exactly when some model is not a string |
| PointInstanceWorkflow.ModelsAreNames | src/server/workflows/pointinstance.js:27-34 | the models are file names (the expression's text or the default model), each listed once |
| PointInstanceWorkflow.InstanceModelIsName | src/server/workflows/pointinstance.js:32 | an instance's model is the text the `model` expression gives when it is not empty, and `model.glb` otherwise |
| PointInstanceWorkflow.PointInstanceSuccess | src/server/workflows/pointinstance.js:60-79 | on success every model is copied once from `static/glb` to the tiles' `content` directory, after the tileset is patched and before the preview link |
| PointInstanceWorkflow.PointInstanceSettles | src/server/workflows/pointinstance.js:35-80 | the output is removed first and only once; success exactly when the configuration, the exit, the tileset file and the model names allow it; pending while the tool runs |
| PointInstanceWorkflow.ConnectionStringFields | src/server/workflows/pointinstance.js:40 | the connection string is quoted and lists host, user, password, port and database in that order |
| PointInstanceWorkflow.I3dmArgvDefaults | src/server/workflows/pointinstance.js:38-51 | geometric error 5000 and 1000 features per tile by default; external models on, non-uniform scale and GPU instancing off, `cesium` format |
| OpenApiIds.ModifyPaths | frontend/modify-openapi-operationids.js:9-24 | the nested loops compute exactly the rewrite of the paths |
| OpenApiIds.RewritePathsStops | frontend/modify-openapi-operationids.js:10-24 | once a prefix of the paths fails, the whole rewrite fails with the same error |
| OpenApiIds.RewriteOperationSpec | frontend/modify-openapi-operationids.js:13-21 | an operation fails exactly when it is nullish or tagged with a non-string id; otherwise only an id starting with `<tag>-` changes, losing that prefix once |
| OpenApiIds.RewriteEntriesSpec | frontend/modify-openapi-operationids.js:12-23 | the operations keep their keys in order, each rewritten; failing exactly when one does |
| OpenApiIds.RewritePathsSpec | frontend/modify-openapi-operationids.js:10-24 | the paths keep their keys in order, each item rewritten on its own |
| OpenApiIds.ModifyFileOutcome | frontend/modify-openapi-operationids.js:4-34 | the file is written exactly when it parses and every operation can be rewritten; only `paths` changes, keeping its keys |
| OpenApiIds.RepeatedPrefixRemovedOnce | frontend/modify-openapi-operationids.js:17-20 | the prefix is removed once only: `users-users-read` tagged `users` becomes `users-read` |
| OpenApiIds.ForeignTagKeepsId | frontend/modify-openapi-operationids.js:17-20 | a tag that is not a prefix of the id leaves the operation unchanged |
| FrontendUtils.PasswordRulesShape | frontend/src/utils.ts:13-26 | `minLength` is always 8; `required` is present exactly when required, which is the default |
| FrontendUtils.ValidateSpec | frontend/src/utils.ts:41-50 | the confirmation is accepted exactly when it equals the password (the new password when the password is falsy), and is otherwise answered with the mismatch message |
| FrontendUtils.EmptyPasswordNeverConfirms | frontend/src/utils.ts:46-48 | an empty password without a new one never confirms, not even an empty confirmation |
| FrontendUtils.EnvFlags | frontend/src/utils.ts:34-36 | user sections hide only for exactly `False`; hash history only for exactly `True`; an unset variable counts as neither |
| FrontendUtils.BasePathDefault | frontend/src/utils.ts:37-38 | the base path is never empty: the variable when set to something, else `/` |
| FrontendUtils.HandleErrorMessage | frontend/src/utils.ts:59-66 | a non-empty detail list shows its first item's `msg`, another truthy detail itself, none the generic message; a nullish first item throws |
| Pipelines.GetPipelineTaskSpec | backend/app/api/routes/pipelines.py:15-23 | `Point` starts the instance task, `Polygon` the mesh task, `PointCloud` the point-cloud task, and nothing else starts any |
| Pipelines.Pipeline.constructor | backend/app/api/routes/pipelines.py:74 | a pipeline record holds its owner and the given task fields |
| Pipelines.ProcessPipelineTask | backend/app/api/routes/pipelines.py:67-124 | a missing pipeline is 404; a denied access answers with that denial and leaves the record alone; otherwise the answer and the record's new task fields are the run/cancel transition of the old ones |
| Pipelines.AccessOrder | backend/app/api/routes/pipelines.py:74-83 | a missing pipeline or asset is 404, a user who owns neither and is no superuser gets 400; access is granted exactly to a superuser or to the owner of both |
| Pipelines.RunOnlyWhenNotPending | backend/app/api/routes/pipelines.py:89-105 | a run with a pending task changes nothing; otherwise it stores exactly the queued task's id, state and result; an error answers the generic 500 and changes nothing |
| Pipelines.CancelOnlyWhenPending | backend/app/api/routes/pipelines.py:107-118 | a cancel acts only on a pending task with a truthy id, marking it revoked with no result and keeping its id; an error answers the generic 500 and changes nothing |
| Pipelines.OtherActionsChangeNothing | backend/app/api/routes/pipelines.py:89-124 | any other action changes nothing and answers with the action alone |
| Pipelines.UnknownGeometryIsGeneric | backend/app/api/routes/pipelines.py:92-120 | an unknown geometry type never starts a task: its own 500 is caught and answered with the generic 500 |
| Pipelines.RunCancelRun | backend/app/api/routes/pipelines.py:89-118 | a run that leaves its task pending cannot be run again; a cancel then revokes it, after which a run starts a new task |
| UploadProcess.NormalisedTypeSpec | backend/app/worker/tasks.py:85-88 | a type naming points becomes `Point`, any other `Polygon`; the new name is part of the old one |
| UploadProcess.ValidateVectorSpec | backend/app/worker/tasks.py:59-88 | the first failing check decides the message; a layer passes exactly when it is alone, has one non-multi point or polygon geometry field and a spatial reference; it is then a `Point` or `Polygon` with that reference's code |
| UploadProcess.SampleLimitSpec | backend/app/worker/tasks.py:98-102 | a limit is set exactly above 1000 KiB; it is the feature count scaled by 1000 KiB over the size, between 0 and the feature count |
| UploadProcess.VectorUploadAsWrittenFails | backend/app/worker/tasks.py:104 | as written, every vector upload that passes the checks fails with TypeError at the import; one that does not fails with the check's message |
| UploadProcess.VectorUploadSpec | backend/app/worker/tasks.py:51-106 | with the import taking all its arguments and the export as written, an upload succeeds exactly when the checks pass, as a `Point` or `Polygon` asset a pipeline can process, imported into the asset's table, its sample exported without `-limit` whatever the size |
| UploadProcess.VectorUploadSampledSpec | backend/app/worker/processes.py:66-67 | with the export's limit passed as well, the upload is the same except that its sample is exported with `-limit` exactly above 1000 KiB |
| PipelineTasks.EffectiveConfigGet | backend/app/worker/tasks.py:194-210 | each key reads the pipeline's value when its data sets it and the default otherwise; falsy data leaves the defaults; data that is neither falsy nor a dict fails |
| PipelineTasks.MergeKeepsKeyOrder | backend/app/worker/tasks.py:207-210 | the defaults' keys come first, in their order |
| PipelineTasks.ConfigHasDefaults | backend/app/worker/tasks.py:207-210 | every default key is in the effective configuration, so reading one never raises |
| PipelineTasks.RowPropertiesGet | backend/app/worker/tasks.py:232-239 | a feature's properties are the row's columns without the geometry and the id |
| PyValues.AddToNumber | backend/app/worker/tasks.py:258 | `z + translate_z`: the sum of the two numbers, an int only when neither is a float, and TypeError when the translation is not a number |
| PipelineTasks.PlacedFeatureSpec | backend/app/worker/tasks.py:240-266 | a row is placed exactly when its geometry is a Point with a height and the translation is a number; a two-dimensional Point raises IndexError; the rebuilt Point's height is the database height plus the translation, an int only when both are |
| PipelineTasks.PlacedHeightIsFloat | backend/app/worker/tasks.py:253-258 | a plain-number `translate_z` goes through `float()`, so the rebuilt height is a float; with the default 0 it is the database height as a float |
| PipelineTasks.HeightModelNameExample | backend/app/worker/tasks.py:242-273 | with the default translation, a Point row at height 5 whose `model` is `["concat", ["func", "$minZ"], ".glb"]` names `5.0.glb` |
| PipelineTasks.CollectModels | backend/app/worker/tasks.py:216-276 | the loop fails with the exception of the first row that raises; otherwise it collects the rows' model names without repeats, in first-seen order |
| PipelineTasks.ModelsCollectedOnce | backend/app/worker/tasks.py:273-276 | when no row raises, each row's model is collected, exactly once, and the models come in the order the rows first name them |
| PipelineTasks.DefaultModelOnly | backend/app/worker/tasks.py:198-202 | without a `model` or `translate_z` setting, every row of three-dimensional Points names `model.glb`, and a table with rows that does not raise needs exactly that model |
| PipelineTasks.LevelsSpec | backend/app/worker/tasks.py:331-349 | one or two levels, two exactly when `add_lod` is truthy; the last level is unsimplified, the first of two is simplified with the tolerance turned from meters into degrees, failing only when the tolerance is not a number |
| PipelineTasks.PolygonsToPolyhedrons | backend/app/worker/tasks.py:322-393 | the nested loops insert exactly the records the specification gives, or raise the bare exception when any row and level raises |
| PipelineTasks.RowInsertsSpec | backend/app/worker/tasks.py:340-386 | a row gives at most `lod` records, each with a non-empty surface and a level below `lod` |
| PipelineTasks.InsertsSpec | backend/app/worker/tasks.py:340-386 | the chunk inserts at most `lod` records per row, none with an empty surface, each at one of the levels |
| PipelineTasks.RowInsertsComplete | backend/app/worker/tasks.py:341-384 | a row none of whose surfaces is empty gives one record per level, in level order |
| PipelineTasks.CellErrorStops | backend/app/worker/tasks.py:340-393 | an error at any row and level is an error of the whole chunk |
| PipelineTasks.AttributesOfTaskTable | backend/app/worker/tasks.py:475-479 | the attributes given to pg2b3dm are `id` then the source's own columns in order: not the geometry, the source id nor the level |
| PipelineTasks.CallTiler | backend/app/worker/processes.py:120 | a call whose count of positional arguments differs from the declared parameters raises TypeError, and otherwise proceeds |
| PipelineTasks.MeshTilerAsWrittenRaises | backend/app/worker/tasks.py:484-497 | as written, the twelve-argument call to the ten-parameter `pg2b3dm` raises TypeError whatever the configuration |
| PipelineTasks.MeshOptionsAgree | backend/app/worker/tasks.py:471-497 | with the corrected call, pg2b3dm gets the level column exactly when the rows were converted at two levels, and the attributes, the double-sided text and `add_outline`; the mesh defaults give one level, one-sided tiles, no level column and no outline |
| PipelineTasks.CrsInSpec | backend/app/worker/tasks.py:560-576 | the horizontal code is preferred, the compound one used only when the horizontal is falsy, and with neither the worker task stops |
| PipelineTasks.CrsInNeedsCode | backend/app/worker/tasks.py:560-569 | a falsy upload result never gives a CRS, and a CRS is always the text of a truthy code |
| Table.InsertIterator.constructor | src/server/table.js:17-19 | a new iterator starts at offset 0 with no rows counted, keeping its limit, step and `getValue` |
| PointInstanceWorkflow.TileInstancesSuccess | src/server/workflows/pointinstance.js:60-79 | with string model names, a successful run removes the output, runs the tool, patches the tileset, copies each model once and logs the preview link, in that order |
| OpenApiIds.RewriteEntriesStops | frontend/modify-openapi-operationids.js:12-23 | once a prefix of a path's operations fails, the whole path fails with the same error |
| JsPolyhedron.SegmentsLengths | src/polyhedron.js:99-114 | every segment but the last has two or more positions; the last has one only when it was just started by a split |
| JsPolyhedron.UnsplitSegments | src/polyhedron.js:99-114 | joining the segments of the first n positions gives back those positions |

## Left out

- Geodesy and trigonometry are hosts and are not modelled: ECEF conversion, the ENU rotation, pyproj's `cs2cs`/`reproject`/`region`, and turf's buffer, line offset and angle. Their floating-point internals are not modelled.
- earcut is a host, and its results are taken as given: index triples into the flattened ring. Triangle counts that depend on earcut's internals are therefore not stated.
- Floating-point rounding is not modelled. Numbers are exact reals plus infinities and NaN, without negative zero. The text of non-integer numbers (JavaScript `String(x)`, Python `str(float)`) and the parsing of non-plain decimals are host functions.
- Case mapping in `toLowerCase`/`toUpperCase`/`str.lower`/`str.upper` is ASCII only.
- JavaScript objects keep insertion order for every key. Integer-like keys are not moved first, as `Object.keys` would move them.
- The asynchronous side of `executeCommand` is reduced to the ordered list of events the child process emits. Chunks delivered after the promise settles, and the interleaving with other work, are not modelled.
- The socket.io handlers, the logger and the Celery wiring are outside the model: the workflow `index` files, the `socket.on` handlers in `pointcloud.js` (229-261) and `mesh.js` (70-87), and `backend/app/worker/main.py`. Starting and revoking a Celery task are parameters of `Pipelines.ProcessPipelineTask`.
- `identify_projection` (`backend/app/worker/processes.py:24-45`) is left out. It is pyproj I/O.
- `pdal_metadata`/`pdal_stats` (`processes.py:166-184`) are left out: they only run a command and parse its output.
- The `i3dm.export` and `pg2b3dm` command lines of `processes.py` (76-99, 120-139) are left out, except their property maps.
- The JSON dumps to files are left out.
- The ThreadPoolExecutor chunking of `create_mesh_3dtiles` (`backend/app/worker/tasks.py:459-463`) is left out. `PipelineTasks.PolygonsToPolyhedrons` models one chunk.
- These parts of `create_point_instance_3dtiles` are left out: the SQL text of the per-row inserts, the database round trips, `setup_output_directory`, `make_archive`, the `scale` and `rotation` expressions and the `i3dm_export` call. Only the rebuilt feature of each row and the model collection are modelled.
- These parts of `complete_upload_process` are left out: the raster, point-cloud and photogrammetry branches, and the metadata dump. Only the vector branch is modelled.
- These are left out: the stages of `create_reconstructed_mesh` and the `complete_*_remove_process` tasks. They are file-system and subprocess I/O.
- UploadProcess.CompleteVectorUpload: the corrected import call accepts the EPSG code and the ellipsoidal-height flag but does not use them. The source's four-parameter `import_vector_to_postgres` has no place for them. The export stays as written and drops the limit.
- UploadProcess.CompleteVectorUploadSampled: applies both corrections, the six-argument import and the export that passes `-limit`. It is the only upload that samples with a limit.
- PipelineTasks.MeshTilerCorrected: a `pg2b3dm` that accepts the level column and `add_outline` runs the same command line as the ten-parameter one. What it would do with those two is not known.
- `asyncQuery` and the database side of `src/server/table.js` are left out. Only the iterator and the SQL text builders are modelled.
- Table.NumericOption: the surface options (`lowerLimit`, `upperLimit`, `translateZ`, `width`) reach the surface builder only as finite numbers. An option that is ±Infinity, or a value other than a number that `isNumber` accepts (such as `[5]`, which `parseFloat` reads as 5), is treated as absent. The source passes such values on to `parseCoords` and `applyBuffer` (`src/polyhedron.js:8-13`, 81), where JavaScript's `+` and `||` would act on them.
- MeshTileset.ParseAll: a piece of the `geometricErrors` text that `float()` reads as an infinity or NaN (`inf`, `nan`) is refused with ValueError. Python accepts it and builds the tileset with that error. The model keeps the schedule as exact reals because the tile tree carries real geometric errors.
- MeshTileset.ParseAllValues: states the refusal of infinite and NaN pieces above, not Python's acceptance of them.
- PipelineTasks.PlacedFeature: rows whose geometry is not a Point are simplified. A MultiPoint row raises IndexError with fewer than three points and TypeError otherwise, which leaves out a list-valued `translate_z` that Python would concatenate to the third point. Any other geometry is taken to raise TypeError, where Python may raise KeyError or IndexError first.
- PyValues.JsonCoordinate: the text the database prints for a coordinate is not modelled. The model takes it to print an integral value without a fraction (`5`, not `5.0`), so that `json.loads` gives an int for it.
- PyPolyhedron.IntOfText: Python's `int()` also accepts surrounding whitespace, a sign and underscores between digits. The model reads only digit runs. The earcut helper writes its indices joined by commas with `process.stdout.write`, with no newline, so none of those forms reaches it.
- TsExpression.PropertyLookup: a 'property' lookup reads only the properties' own members. `feature?.properties?.[a]` also finds the members every object inherits, such as `constructor` and `toString`, which the model answers as undefined.
- `get_geometry` (`backend/app/worker/expression.py:4-7`) is not a member of its own. `PyExpression.GetFunc` matches on the feature's optional geometry, and a feature without one gives None, as the `{'type': ''}` default does (`PyExpression.GetFuncNone`).
- The string produced by `JSON.stringify`/`json.dumps` is left out: its whitespace and escaping. Tileset files are modelled as their parsed members.
- A `tileset.json` whose top level is not an object is left out.
- File I/O failures while copying models or reading files are left out, except where the code inspects them. `path.join` normalisation of `..` and repeated separators is a host.
- OpenApiIds.RewriteDocument: a `paths` member or a path item that is an array is passed through unchanged. JavaScript's `Object.keys` would walk the array's indices and rewrite the operations inside its elements. Strings, numbers and booleans hold no operation with `tags`, so passing them through matches the source.
- The download step of `frontend/modify-openapi-operationids.js` (36-44) is left out. It is network I/O.
- `FrontendUtils.ValidateSpec`: the form values are compared with JavaScript strict equality on JSON values. Object identity of non-primitive values is not modelled.
- JsPolyhedron.ApplyLineOffset: an empty offset line gives `[[]]` in the model, where JavaScript gives `[undefined]` (one undefined vertex).
- `scaleGeometricError`'s behaviour with a step factor of zero or less is not singled out. It is modelled as the plain product it is.
- The mean heights that order the two extruded ring sets are exact reals. Floating-point summation order is not modelled.
- Email and name patterns, and `getViteApiUrl`, in `frontend/src/utils.ts` are left out. They are constants.

## Behaviour the model keeps

- **Equal height limits.** Extruding with equal lower and upper limits still gives walls: two degenerate triangles per consecutive pair of ring positions (`Surfaces.FlatWallsDegenerate`).
- **Temporary pipeline files.** `processLas` removes its pipeline file only after the child process exits, never after a spawn error (`PointcloudWorkflow.ProcessLasRun`).
- **Evaluator failures.** The TypeScript evaluator throws for `func` on a feature without geometry (`TsExpression.FuncWithoutGeometryThrows`).

## Findings

| source | as written | input that shows it | evidently intended | confidence | as-written member | corrected member |
|---|---|---|---|---|---|---|
| src/expression.js:23 | the MultiPolygon branch tests the misspelled type `'MultyPolygon'` | a MultiPolygon whose only position has height 5 gets `$minZ` 0 | `$minZ` is the least height over every polygon's positions | high (not executed) | JsExpression.MultiPolygonMinZAsWritten | JsExpression.EnvCorrectedMinZ |
| backend/app/worker/processes.py:354 | `process_las` calls the one-parameter `get_asset_upload_path` (`backend/app/worker/utils.py:7`) with two or three arguments | any asset: the first call raises TypeError | the one-parameter helper called with the single pathname `<id>/<name><extension>`, as the other tasks call it (`tasks.py:51`); the commented-out three-parameter helper (`utils.py:4-5`) would read `<id>/<id>/`, where no upload is stored | high (not executed) | Processes.ProcessLasAsWrittenRaises | Processes.ProcessLasOutcome |
| backend/app/worker/processes.py:66 | `options + ['-limit', ...]` builds a list and discards it | a file above 1000 KiB with a limit of 12.5: `ogr2ogr` gets no `-limit` | the arguments end with `-limit <limit>` | high (not executed) | Processes.ExportLimitDropped | Processes.ExportLimitPassed |
| src/server/table.js:101-102 | the polyhedral `CREATE TABLE` and `INSERT` put a comma after the geometry even without attributes | a collection whose first feature has no properties: the column list ends in `,` | no trailing comma without attributes | medium (not executed) | Table.PolyhedralSqlAsWrittenTrailingComma | Table.PolyhedralColumnsCorrected |
| backend/app/worker/tasks.py:484-497 | `create_mesh_3dtiles` passes twelve positional arguments, the level column and `add_outline` included, to the `pg2b3dm` of `processes.py:120`, which declares ten | any mesh pipeline that reaches the tiler raises TypeError, and no level column reaches pg2b3dm | pg2b3dm also takes the level column and the outline flag | high (not executed) | PipelineTasks.MeshTilerAsWrittenRaises | PipelineTasks.MeshOptionsAgree |
| backend/app/worker/tasks.py:104 | `import_vector_to_postgres` (`processes.py:47`) declares four parameters but is called with six | any vector upload that passes validation raises TypeError | the import runs with its four arguments | high (not executed) | UploadProcess.VectorUploadAsWrittenFails | UploadProcess.VectorUploadSpec |
