# Cosmos control sensor — verified model

CARLA's Cosmos control sensor is a camera actor whose scene capture renders only two
line-batch components. After every physics tick it fills these batches with annotations
of the scene:

- The **dynamic** batch is flushed and refilled on every tick. It holds a wire box around
  every vehicle and pedestrian, a solid box around every traffic light and sign, and a
  capsule around every pole.
- The **persistent** batch receives four map layers, each at most once per sensor lifetime:
  - stop lines in front of traffic lights;
  - lane and road-boundary lines drawn along the road splines;
  - filled crosswalk polygons;
  - filled road-marking (stencil) quads.
  A one-shot flag per layer (`added_persisted_*`) records that the layer has been handled.

Colours and line thicknesses come from a render configuration. It has built-in defaults and
can be changed by a JSON file read when the sensor is configured. A Python client
(`bounding_boxes.py`) decodes CARLA's instance-segmentation image into semantic labels and
16-bit actor ids, then derives tight 2-D boxes from it.

The Dafny modules follow that structure:

| module | file | what it holds |
|---|---|---|
| `Wrappers` | wrappers.dfy | `Option`, sequence algebra lemmas |
| `Geometry` | geometry.dfy | vectors, quaternions (symbolic), points, colours, the batch primitives |
| `RenderConfig` | render_config.dfy | `CosmosRenderConfig`, its defaults, the JSON overrides (`LoadConfigFromFile`, `LoadColor`) |
| `Classifier` | classifier.dfy | the semantic labels, `GetColorByTag`, the draw dispatch by tag |
| `Text` | text.dfy | `FString::Contains` (case-insensitive by default) |
| `Components` | components.dfy | the player lookup, the component filters, the bounds choice, the 12-edge wire box, the pole capsule, the whole dynamic pass as a function |
| `RoadSplines` | road_splines.dfy | neighbour-lane search, the should-render decision table, `DrawSpline`, grouping by road id, the route layer |
| `Crosswalks` | crosswalks.dfy | splitting the crosswalk point list into closed polygons, the triangle fan, the crosswalk layer |
| `Stencils` | stencils.dfy | the stencil quad and the stencil layer |
| `Sensor` | sensor.dfy | the `LineBatch` and `CosmosControlSensor` classes: flags, batches, draw helpers, the layer blocks and `PostPhysTick`, plus the run-level lemmas about the one-shot flags |
| `BoundingBoxes` | bounding_boxes.dfy | `decode_instance_segmentation`, `bbox_2d_for_actor`, `point_in_canvas`, `EDGES`, `SEMANTIC_MAP` |

The world a tick reads is passed in one value, `Sensor.TickInput`. It holds:

- the actor registry;
- the mesh components;
- this sensor's ignored vehicle ids;
- the traffic lights' stop boxes;
- the road splines;
- the map, when the game mode is a CARLA game mode.

The draw helpers keep the header's defaults: not persistent, depth priority 0, thickness 0.
Each stateful method is proved against a specification function of the old state, for
example `PostPhysTick`, `AnnotateDynamicObjects` and `AddCrosswalks`. The properties the
sensor promises are then proved as lemmas about those functions.

## Model

Source paths are relative to the repository root.

| member | source | states |
|---|---|---|
| RenderConfig.DefaultsAsDeclared | Unreal/CarlaUE4/Plugins/Carla/Source/Carla/Sensor/CosmosControlSensor.h:29-49 | the default thicknesses are 8, 5, 8, 8 and every default colour is opaque |
| RenderConfig.ObjectField | Unreal/CarlaUE4/Plugins/Carla/Source/Carla/Sensor/CosmosControlSensor.cpp:94-98 | a key holding an object gives that object; a missing key or a value of another type gives the empty object, so the section and the two sub-objects are always present once the file is parsed |
| RenderConfig.NumberField | Unreal/CarlaUE4/Plugins/Carla/Source/Carla/Sensor/CosmosControlSensor.cpp:100-103 | a missing key reads as 0; a number reads as itself |
| RenderConfig.Trunc | Unreal/CarlaUE4/Plugins/Carla/Source/Carla/Sensor/CosmosControlSensor.cpp:113-116 | the double-to-integer conversion truncates toward zero, for either sign |
| RenderConfig.Channel | Unreal/CarlaUE4/Plugins/Carla/Source/Carla/Sensor/CosmosControlSensor.cpp:113-116 | an in-range channel value becomes its floor as a byte |
| RenderConfig.LoadColor | Unreal/CarlaUE4/Plugins/Carla/Source/Carla/Sensor/CosmosControlSensor.cpp:109-118 | a key that is not a 3-element array keeps the current colour; a loaded colour has alpha 255 |
| RenderConfig.ThicknessRule | Unreal/CarlaUE4/Plugins/Carla/Source/Carla/Sensor/CosmosControlSensor.cpp:98-104 | only an unavailable file keeps all four thicknesses; a parsed file always assigns them, each from the LineThickness object's number field (a missing object or key gives 0) |
| RenderConfig.OnlyRoadLinesThickness | Unreal/CarlaUE4/Plugins/Carla/Source/Carla/Sensor/CosmosControlSensor.cpp:98-104 | a file whose LineThickness object names only road_lines gives the old configuration with road_lines at that value and the other three thicknesses at 0 |
| RenderConfig.ColorRule | Unreal/CarlaUE4/Plugins/Carla/Source/Carla/Sensor/CosmosControlSensor.cpp:107-131 | each of the eleven colour keys is replaced by its truncated triple with alpha 255 when it is a 3-element array, and kept otherwise |
| RenderConfig.WaitLinesColorNeverLoaded | Unreal/CarlaUE4/Plugins/Carla/Source/Carla/Sensor/CosmosControlSensor.cpp:120-130 | no configuration file changes the wait-lines (stop-line) colour |
| RenderConfig.NoSectionKeepsConfig | Unreal/CarlaUE4/Plugins/Carla/Source/Carla/Sensor/CosmosControlSensor.cpp:65-96 | a file has no section exactly when it is missing, unreadable or unparsable, and such a file leaves the configuration unchanged |
| RenderConfig.MissingLineThicknessZeroesThickness | Unreal/CarlaUE4/Plugins/Carla/Source/Carla/Sensor/CosmosControlSensor.cpp:94-104 | a parsed file whose section lacks a LineThickness object sets all four thicknesses to 0 |
| RenderConfig.EmptyFileZeroesThickness | Unreal/CarlaUE4/Plugins/Carla/Source/Carla/Sensor/CosmosControlSensor.cpp:94-131 | an empty JSON object gives the old configuration with every thickness at 0 and every colour kept |
| RenderConfig.LoadConfigKeepsOpaque | Unreal/CarlaUE4/Plugins/Carla/Source/Carla/Sensor/CosmosControlSensor.cpp:109-131 | loading any file keeps every colour opaque |
| RenderConfig.LoadConfigIdempotent | Unreal/CarlaUE4/Plugins/Carla/Source/Carla/Sensor/CosmosControlSensor.cpp:65-131 | loading the same file twice gives what loading it once gives |
| Classifier.LabelCode | PythonAPI/examples/bounding_boxes.py:34-46 | every server label has a code in 0..28 |
| Classifier.LabelCodeInjective | PythonAPI/examples/bounding_boxes.py:34-46 | distinct labels have distinct codes |
| Classifier.ColorByTagTable | Unreal/CarlaUE4/Plugins/Carla/Source/Carla/Sensor/CosmosControlSensor.cpp:167-190 | car, bus, motorcycle and train use the cars colour; truck, bicycle, pedestrians, traffic light, traffic sign and pole each use their own colour; every other tag is white |
| Classifier.DrawnTagsHaveConfiguredColors | Unreal/CarlaUE4/Plugins/Carla/Source/Carla/Sensor/CosmosControlSensor.cpp:273-294 | solid boxes use a traffic colour, wire boxes a road-user colour, capsules the poles colour, and undrawn tags are white |
| Classifier.EveryObjectColorIsUsed | Unreal/CarlaUE4/Plugins/Carla/Source/Carla/Sensor/CosmosControlSensor.cpp:273-294 | each of the seven object colours is the colour of some tag drawn with the matching shape |
| Text.ContainsMeansOccurrence | Unreal/CarlaUE4/Plugins/Carla/Source/Carla/Sensor/CosmosControlSensor.cpp:212 | the substring search answers true exactly when the needle occurs at some index |
| Text.ContainsImpliesIgnoreCase | Unreal/CarlaUE4/Plugins/Carla/Source/Carla/Sensor/CosmosControlSensor.cpp:257 | an exact occurrence is also found by the case-insensitive search |
| Text.IgnoreCaseOfLoweredHaystack | Unreal/CarlaUE4/Plugins/Carla/Source/Carla/Sensor/CosmosControlSensor.cpp:232 | the case-insensitive search gives the same answer on a lower-cased haystack |
| Components.PlayerOf | Unreal/CarlaUE4/Plugins/Carla/Source/Carla/Sensor/CosmosControlSensor.cpp:208-216 | no player exactly when no entry's role_name contains hero or ego_vehicle; otherwise the player is the actor of the first such entry |
| Components.FindPlayer | Unreal/CarlaUE4/Plugins/Carla/Source/Carla/Sensor/CosmosControlSensor.cpp:208-216 | the registry loop with its early break gives the player of the specification |
| Components.AnnotationBounds | Unreal/CarlaUE4/Plugins/Carla/Source/Carla/Sensor/CosmosControlSensor.cpp:239-271 | a mesh that is neither static nor skeletal is skipped; a static mesh with an asset is kept only if its name contains mesh and not road, with the asset's extent at the actor's origin; a skeletal mesh with an asset is centred half its height above its location; without an asset the actor bounds are kept |
| Components.FilteredComponentsDrawNothing | Unreal/CarlaUE4/Plugins/Carla/Source/Carla/Sensor/CosmosControlSensor.cpp:224-257 | invisible, ownerless, player-owned, ignored-vehicle, higher-than-10000, wrongly named and non-static/non-skeletal components draw nothing |
| Components.ComponentPrimitiveCount | Unreal/CarlaUE4/Plugins/Carla/Source/Carla/Sensor/CosmosControlSensor.cpp:221-295 | a component that passes the filters yields 12 lines for a road-user tag, one primitive for a traffic or pole tag, and nothing otherwise; these are all the cases |
| Components.VehicleBoxShape | Unreal/CarlaUE4/Plugins/Carla/Source/Carla/Sensor/CosmosControlSensor.cpp:279-288 | a road user yields exactly the wire box of its bounds, rotated by its owner, in its tag colour, at world depth and with the vehicle-box thickness |
| Components.PoleCapsulePlacement | Unreal/CarlaUE4/Plugins/Carla/Source/Carla/Sensor/CosmosControlSensor.cpp:289-294 | a pole yields one capsule of radius 0.1 in the poles colour, centred one half-height above the component; the half-height grows by the component height when that is at most 250 |
| Components.PoleGroundOffset | Unreal/CarlaUE4/Plugins/Carla/Source/Carla/Sensor/CosmosControlSensor.cpp:292-293 | the offset is the height when it is at most 250 and 0 above that |
| Components.PoleOffsetExamples | Unreal/CarlaUE4/Plugins/Carla/Source/Carla/Sensor/CosmosControlSensor.cpp:293 | a pole at height 300 gets no offset and one at 100 gets 100 |
| Components.DynamicAnnotationsAppend | Unreal/CarlaUE4/Plugins/Carla/Source/Carla/Sensor/CosmosControlSensor.cpp:221-295 | the dynamic pass over two component lists is the pass over the first followed by the pass over the second |
| Components.BoxEdgesAreAdjacent | Unreal/CarlaUE4/Plugins/Carla/Source/Carla/Sensor/CosmosControlSensor.cpp:567-614 | the wire box has 12 edges, each joining corners that differ in one coordinate |
| Components.BoxEdgesDistinct | Unreal/CarlaUE4/Plugins/Carla/Source/Carla/Sensor/CosmosControlSensor.cpp:567-614 | no edge of the wire box is drawn twice, in either direction |
| Components.BoxEdgesCoverCorners | Unreal/CarlaUE4/Plugins/Carla/Source/Carla/Sensor/CosmosControlSensor.cpp:567-614 | every corner of the box meets exactly three edges |
| Components.WireBoxLines | Unreal/CarlaUE4/Plugins/Carla/Source/Carla/Sensor/CosmosControlSensor.cpp:565-616 | line i of the wire box joins the rotated corners of edge i, in the given colour, depth priority and thickness |
| RoadSplines.NeighbourLane | Unreal/CarlaUE4/Plugins/Carla/Source/Carla/Sensor/CosmosControlSensor.cpp:373-377 | the neighbour lane lies one or two lanes to the orientation's side, is never lane 0, and a jump of two lands on the opposite lane |
| RoadSplines.NeighbourLaneInverse | Unreal/CarlaUE4/Plugins/Carla/Source/Carla/Sensor/CosmosControlSensor.cpp:373-377 | for a non-zero lane, the right neighbour of its left neighbour is itself, and the other way round |
| RoadSplines.Neighbours | Unreal/CarlaUE4/Plugins/Carla/Source/Carla/Sensor/CosmosControlSensor.cpp:373-377 | the filter keeps exactly the road's splines on the neighbour lane, never the spline itself |
| RoadSplines.LastNeighbour | Unreal/CarlaUE4/Plugins/Carla/Source/Carla/Sensor/CosmosControlSensor.cpp:373-377 | the last neighbour found, the one the decision reads, is the road's last spline on the neighbour lane |
| RoadSplines.DecideShouldRender | Unreal/CarlaUE4/Plugins/Carla/Source/Carla/Sensor/CosmosControlSensor.cpp:372-448 | the three loops over the neighbours compute the decision function; no neighbour means no rendering |
| RoadSplines.RenderRule | Unreal/CarlaUE4/Plugins/Carla/Source/Carla/Sensor/CosmosControlSensor.cpp:367-448 | the last neighbour decides. A shoulder never renders. A render needs that neighbour to be driving or shoulder, and then: at a junction sidewalks and medians render; elsewhere medians always do, sidewalks do on the rendering side, and driving lines do on the rendering side next to a driving lane |
| RoadSplines.SegmentsUpTo | Unreal/CarlaUE4/Plugins/Carla/Source/Carla/Sensor/CosmosControlSensor.cpp:348-356 | the loop prefix holds the first n segments in order |
| RoadSplines.SplineSegmentsPolyline | Unreal/CarlaUE4/Plugins/Carla/Source/Carla/Sensor/CosmosControlSensor.cpp:338-358 | fewer than two points draw nothing; otherwise the lines form a connected polyline through the points, lowered by the road-line thickness, in the boundary or lane colour at road-line thickness |
| RoadSplines.RoadOrderContents | Unreal/CarlaUE4/Plugins/Carla/Source/Carla/Sensor/CosmosControlSensor.cpp:324-336 | the map's keys are exactly the road ids that occur, each once |
| RoadSplines.GroupOfContents | Unreal/CarlaUE4/Plugins/Carla/Source/Carla/Sensor/CosmosControlSensor.cpp:324-336 | a road's group holds exactly the splines with that road id, and it is empty only when there are none |
| RoadSplines.GroupByRoadId | Unreal/CarlaUE4/Plugins/Carla/Source/Carla/Sensor/CosmosControlSensor.cpp:324-336 | the grouping loop builds the key order and a map from each key to its group |
| RoadSplines.RouteLinesComeFromRenderedSplines | Unreal/CarlaUE4/Plugins/Carla/Source/Carla/Sensor/CosmosControlSensor.cpp:318-453 | every route line is a segment of a driving, sidewalk or median spline whose decision said render, at road-line thickness, in the lane or boundary colour |
| RoadSplines.GroupLinesPrefix | Unreal/CarlaUE4/Plugins/Carla/Source/Carla/Sensor/CosmosControlSensor.cpp:364-450 | the inner loop only appends: the lines of a road's first m splines are a prefix of those of its first n, for m <= n |
| RoadSplines.RouteLinesIncludeRenderedSplines | Unreal/CarlaUE4/Plugins/Carla/Source/Carla/Sensor/CosmosControlSensor.cpp:318-453 | conversely, every segment of a spline whose decision said render is a route line |
| Crosswalks.FindFrom | Unreal/CarlaUE4/Plugins/Carla/Source/Carla/Sensor/CosmosControlSensor.cpp:468-471 | a found index is at or after the start and holds the first point of the loop |
| Crosswalks.FindFromFirst | Unreal/CarlaUE4/Plugins/Carla/Source/Carla/Sensor/CosmosControlSensor.cpp:468-471 | the found index is the first repetition; none is found exactly when there is no repetition |
| Crosswalks.ClosedRunsAreValid | Unreal/CarlaUE4/Plugins/Carla/Source/Carla/Sensor/CosmosControlSensor.cpp:464-507 | every polygon split off is non-empty and does not repeat its first point |
| Crosswalks.ClosedRunsOfClosing | Unreal/CarlaUE4/Plugins/Carla/Source/Carla/Sensor/CosmosControlSensor.cpp:464-507 | closing each polygon by repeating its first point and then splitting gives the polygons back |
| Crosswalks.ClosingOfClosedRuns | Unreal/CarlaUE4/Plugins/Carla/Source/Carla/Sensor/CosmosControlSensor.cpp:464-507 | the point list is its closed polygons followed by an unclosed tail, which never repeats its first point |
| Crosswalks.TwoPolygonsExample | Unreal/CarlaUE4/Plugins/Carla/Source/Carla/Sensor/CosmosControlSensor.cpp:468-507 | a list of two closed triangles splits into those two triangles |
| Crosswalks.DegeneratePolygonDrawsNothing | Unreal/CarlaUE4/Plugins/Carla/Source/Carla/Sensor/CosmosControlSensor.cpp:472 | a closed polygon of two points yields no mesh |
| Crosswalks.FanIndices | Unreal/CarlaUE4/Plugins/Carla/Source/Carla/Sensor/CosmosControlSensor.cpp:478-483 | n vertices give 3(n-2) indices, and none when n < 3 |
| Crosswalks.FanIndicesShape | Unreal/CarlaUE4/Plugins/Carla/Source/Carla/Sensor/CosmosControlSensor.cpp:478-483 | triangle t is (0, t+1, t+2), and every index names a vertex |
| Crosswalks.FanTriangulation | Unreal/CarlaUE4/Plugins/Carla/Source/Carla/Sensor/CosmosControlSensor.cpp:475-483 | the index loop produces the fan |
| Crosswalks.EngineVerticesAreScaled | Unreal/CarlaUE4/Plugins/Carla/Source/Carla/Sensor/CosmosControlSensor.cpp:466 | every vertex is the map point scaled from metres to centimetres |
| Crosswalks.MeshesFor | Unreal/CarlaUE4/Plugins/Carla/Source/Carla/Sensor/CosmosControlSensor.cpp:472-485 | there are never more meshes than polygons |
| Crosswalks.CrosswalkMeshesShape | Unreal/CarlaUE4/Plugins/Carla/Source/Carla/Sensor/CosmosControlSensor.cpp:472-485 | every crosswalk mesh is the fan of a polygon of at least three points, in the crosswalk colour, with in-range indices |
| Crosswalks.ScanMeshes | Unreal/CarlaUE4/Plugins/Carla/Source/Carla/Sensor/CosmosControlSensor.cpp:468-507 | the point-by-point scan from an open polygon gives the meshes of the closed polygons of the remaining list |
| Crosswalks.ScanDrawsCrosswalks | Unreal/CarlaUE4/Plugins/Carla/Source/Carla/Sensor/CosmosControlSensor.cpp:462-507 | the source's scan, which restarts after each closing point, draws exactly the meshes of the closed polygons |
| Stencils.StencilOffsets | Unreal/CarlaUE4/Plugins/Carla/Source/Carla/Sensor/CosmosControlSensor.cpp:531-536 | a stencil has four corner offsets |
| Stencils.StencilIsCentredRectangle | Unreal/CarlaUE4/Plugins/Carla/Source/Carla/Sensor/CosmosControlSensor.cpp:526-541 | the quad is a flat rectangle centred on the stencil, length by width in centimetres, rotated by the stencil, split into the two triangles of a four-vertex fan |
| Stencils.StencilMeshes | Unreal/CarlaUE4/Plugins/Carla/Source/Carla/Sensor/CosmosControlSensor.cpp:518-544 | there are never more quads than stencil entries |
| Stencils.StencilMeshesAreQuads | Unreal/CarlaUE4/Plugins/Carla/Source/Carla/Sensor/CosmosControlSensor.cpp:518-543 | every mesh drawn is the quad of a present stencil |
| Stencils.StencilMeshCount | Unreal/CarlaUE4/Plugins/Carla/Source/Carla/Sensor/CosmosControlSensor.cpp:518-544 | one quad is drawn per present stencil; null entries are skipped |
| Sensor.LineBatch.Flush | Unreal/CarlaUE4/Plugins/Carla/Source/Carla/Sensor/CosmosControlSensor.cpp:196 | flushing empties the batch |
| Sensor.LineBatch.DrawLines | Unreal/CarlaUE4/Plugins/Carla/Source/Carla/Sensor/CosmosControlSensor.cpp:616 | the lines are appended in order |
| Sensor.StopLines | Unreal/CarlaUE4/Plugins/Carla/Source/Carla/Sensor/CosmosControlSensor.cpp:304-315 | one stop line per traffic light, in order |
| Sensor.StopLineGeometry | Unreal/CarlaUE4/Plugins/Carla/Source/Carla/Sensor/CosmosControlSensor.cpp:306-313 | a stop line spans twice the box's x extent along its forward axis, centred 710 against its right axis and half the thickness plus 2 below zero, in the wait-lines colour and stop-line thickness |
| Sensor.DoneLayerAddsNothing | Unreal/CarlaUE4/Plugins/Carla/Source/Carla/Sensor/CosmosControlSensor.cpp:297-514 | a layer whose flag is set adds nothing and stays set |
| Sensor.StopLinesOnlyOnFirstTick | Unreal/CarlaUE4/Plugins/Carla/Source/Carla/Sensor/CosmosControlSensor.cpp:297-316 | over any run from a fresh sensor, the stop lines are exactly those of the first tick's traffic lights |
| Sensor.RouteFlagAfterRun | Unreal/CarlaUE4/Plugins/Carla/Source/Carla/Sensor/CosmosControlSensor.cpp:318-322 | the route flag ends up set exactly when it was set or some tick saw a road spline |
| Sensor.MapFlagsAfterRun | Unreal/CarlaUE4/Plugins/Carla/Source/Carla/Sensor/CosmosControlSensor.cpp:456-514 | the crosswalk and stencil flags end up set exactly when they were set or some tick reached the map |
| Sensor.CosmosControlSensor.constructor | Unreal/CarlaUE4/Plugins/Carla/Source/Carla/Sensor/CosmosControlSensor.cpp:40-51 | a new sensor has two distinct empty batches, all four flags false and the default configuration |
| Sensor.CosmosControlSensor.Set | Unreal/CarlaUE4/Plugins/Carla/Source/Carla/Sensor/CosmosControlSensor.cpp:59-63 | configuring applies the file's overrides to the configuration and touches nothing else |
| Sensor.CosmosControlSensor.GetDebugLineBatcher | Unreal/CarlaUE4/Plugins/Carla/Source/Carla/Sensor/CosmosControlSensor.cpp:551-554 | persistent drawing goes to the persistent batch and all other drawing to the dynamic one |
| Sensor.CosmosControlSensor.DrawDebugLine | Unreal/CarlaUE4/Plugins/Carla/Source/Carla/Sensor/CosmosControlSensor.cpp:635-649 | one line is appended to the chosen batch |
| Sensor.CosmosControlSensor.DrawDebugSolidBox | Unreal/CarlaUE4/Plugins/Carla/Source/Carla/Sensor/CosmosControlSensor.cpp:621-633 | one solid box is appended to the chosen batch |
| Sensor.CosmosControlSensor.DrawDebugBox | Unreal/CarlaUE4/Plugins/Carla/Source/Carla/Sensor/CosmosControlSensor.cpp:556-619 | the twelve edge lines of the rotated box are appended to the chosen batch |
| Sensor.CosmosControlSensor.DrawDebugCapsule | Unreal/CarlaUE4/Plugins/Carla/Source/Carla/Sensor/CosmosControlSensor.cpp:663-699 | one capsule is appended to the chosen batch |
| Sensor.CosmosControlSensor.DrawDebugMesh | Unreal/CarlaUE4/Plugins/Carla/Source/Carla/Sensor/CosmosControlSensor.cpp:651-661 | one mesh is appended to the chosen batch |
| Sensor.CosmosControlSensor.ComponentBounds | Unreal/CarlaUE4/Plugins/Carla/Source/Carla/Sensor/CosmosControlSensor.cpp:239-271 | the bounds chosen are those of the specification, or the component is skipped |
| Sensor.CosmosControlSensor.DrawByTag | Unreal/CarlaUE4/Plugins/Carla/Source/Carla/Sensor/CosmosControlSensor.cpp:273-294 | the tag's primitives are appended to the dynamic batch |
| Sensor.CosmosControlSensor.AnnotateComponent | Unreal/CarlaUE4/Plugins/Carla/Source/Carla/Sensor/CosmosControlSensor.cpp:221-295 | one loop iteration appends that component's primitives |
| Sensor.CosmosControlSensor.AnnotateDynamicObjects | Unreal/CarlaUE4/Plugins/Carla/Source/Carla/Sensor/CosmosControlSensor.cpp:218-295 | the component loop appends the dynamic annotations of all components |
| Sensor.CosmosControlSensor.AddStopLines | Unreal/CarlaUE4/Plugins/Carla/Source/Carla/Sensor/CosmosControlSensor.cpp:301-315 | the stop lines are appended to the persistent batch |
| Sensor.CosmosControlSensor.DrawSpline | Unreal/CarlaUE4/Plugins/Carla/Source/Carla/Sensor/CosmosControlSensor.cpp:338-358 | a spline's segments are appended to the persistent batch |
| Sensor.CosmosControlSensor.DrawIfRendered | Unreal/CarlaUE4/Plugins/Carla/Source/Carla/Sensor/CosmosControlSensor.cpp:364-450 | a spline's segments are appended exactly when it participates and its decision says render |
| Sensor.CosmosControlSensor.AddGroupLines | Unreal/CarlaUE4/Plugins/Carla/Source/Carla/Sensor/CosmosControlSensor.cpp:360-451 | one road's rendered splines are appended in group order |
| Sensor.CosmosControlSensor.AddRouteLines | Unreal/CarlaUE4/Plugins/Carla/Source/Carla/Sensor/CosmosControlSensor.cpp:318-453 | the whole route layer is appended |
| Sensor.CosmosControlSensor.DrawClosedPolygon | Unreal/CarlaUE4/Plugins/Carla/Source/Carla/Sensor/CosmosControlSensor.cpp:472-493 | a closed polygon of at least three vertices appends its fan mesh; a smaller one appends nothing |
| Sensor.CosmosControlSensor.AddCrosswalks | Unreal/CarlaUE4/Plugins/Carla/Source/Carla/Sensor/CosmosControlSensor.cpp:460-508 | the in-place scan with its index skip appends the meshes of the closed polygons |
| Sensor.CosmosControlSensor.AddStencils | Unreal/CarlaUE4/Plugins/Carla/Source/Carla/Sensor/CosmosControlSensor.cpp:516-544 | the quads of the present stencils are appended |
| Sensor.CosmosControlSensor.TickStopLines | Unreal/CarlaUE4/Plugins/Carla/Source/Carla/Sensor/CosmosControlSensor.cpp:297-316 | the stop-line block draws its layer when the flag is clear and then sets the flag |
| Sensor.CosmosControlSensor.TickRouteLines | Unreal/CarlaUE4/Plugins/Carla/Source/Carla/Sensor/CosmosControlSensor.cpp:318-453 | the route block draws when the flag is clear and sets the flag only if some road spline exists |
| Sensor.CosmosControlSensor.TickCrosswalks | Unreal/CarlaUE4/Plugins/Carla/Source/Carla/Sensor/CosmosControlSensor.cpp:455-509 | the crosswalk block runs only with a game mode and then sets its flag |
| Sensor.CosmosControlSensor.TickStencils | Unreal/CarlaUE4/Plugins/Carla/Source/Carla/Sensor/CosmosControlSensor.cpp:511-545 | the stencil block runs only with a game mode and then sets its flag |
| Sensor.CosmosControlSensor.PostPhysTick | Unreal/CarlaUE4/Plugins/Carla/Source/Carla/Sensor/CosmosControlSensor.cpp:192-549 | after a tick the dynamic batch holds exactly this tick's dynamic annotations; the persistent batch has grown by the layers whose flags were clear; the flags advance by the one-tick rule; the configuration is unchanged |
| BoundingBoxes.DecodeActorId | PythonAPI/examples/bounding_boxes.py:93 | the 16-bit sum of channel 1 (G in the BGRA array) and channel 0 (B) shifted left by 8 is c1 + 256·c0, below 65536 |
| BoundingBoxes.ActorIdRoundTrip | PythonAPI/examples/bounding_boxes.py:91-94 | channel 0 (B) and channel 1 (G) are recovered from the actor id as its high and low byte |
| BoundingBoxes.EveryActorIdIsDecodable | PythonAPI/examples/bounding_boxes.py:93 | every 16-bit id is the decoding of some pixel |
| BoundingBoxes.DecodeInstanceSegmentation | PythonAPI/examples/bounding_boxes.py:91-94 | both planes have the image's shape; the label plane is channel 2 (the R channel of the BGRA array); the id plane holds channel 0 (B) and channel 1 (G) as its high and low byte |
| BoundingBoxes.MaskCoords | PythonAPI/examples/bounding_boxes.py:98-101 | the coordinates are exactly the pixels holding the actor id, in row-major order |
| BoundingBoxes.SeqMin | PythonAPI/examples/bounding_boxes.py:102-103 | the minimum is an element and bounds every element from below |
| BoundingBoxes.SeqMax | PythonAPI/examples/bounding_boxes.py:102-103 | the maximum is an element and bounds every element from above |
| BoundingBoxes.Bbox2dForActor | PythonAPI/examples/bounding_boxes.py:97-106 | a box carries the requested actor id |
| BoundingBoxes.Bbox2dAbsentIff | PythonAPI/examples/bounding_boxes.py:98-100 | there is no box exactly when no pixel holds the actor id |
| BoundingBoxes.Bbox2dContainsMask | PythonAPI/examples/bounding_boxes.py:101-103 | the box is non-empty and contains every pixel of the actor |
| BoundingBoxes.Bbox2dTight | PythonAPI/examples/bounding_boxes.py:101-103 | each of the four sides touches a pixel of the actor |
| BoundingBoxes.Bbox2dLabelOfFirstPixel | PythonAPI/examples/bounding_boxes.py:101-105 | the box's semantic label is the label at the actor's first pixel in row-major order |
| BoundingBoxes.PointInCanvasIsPixelIndex | PythonAPI/examples/bounding_boxes.py:84-88 | a point is in the canvas exactly when its floored coordinates index a pixel of the image |
| BoundingBoxes.EdgesAreDistinct | PythonAPI/examples/bounding_boxes.py:31 | there are 12 edges between the 8 corners, no two the same in either direction |
| BoundingBoxes.EdgesJoinAdjacentCorners | PythonAPI/examples/bounding_boxes.py:31 | every listed edge joins corners whose indices differ in one bit |
| BoundingBoxes.AdjacentCornersAreListed | PythonAPI/examples/bounding_boxes.py:31 | every pair of corners one bit apart is listed, in one direction or the other |
| BoundingBoxes.EdgesAreCubeEdges | PythonAPI/examples/bounding_boxes.py:31 | two corners are joined exactly when their indices differ in one bit |
| BoundingBoxes.EveryVertexHasDegreeThree | PythonAPI/examples/bounding_boxes.py:31 | every corner's neighbours are exactly the three corners one bit away |
| BoundingBoxes.SemanticMapKeys | PythonAPI/examples/bounding_boxes.py:34-46 | the label table has exactly the keys 0..28 |
| BoundingBoxes.SemanticMapCoversServerLabels | PythonAPI/examples/bounding_boxes.py:34-46 | every label the server tags with has an entry in the client's table |

## Left out

- Dedicated-server checks in every draw helper: the model is a client, so drawing always happens.
- Sensor.CosmosControlSensor.DrawDebugCapsule: appends one symbolic `Capsule` primitive. The 16-sided circles, half circles and four connecting lines it is tessellated into (`DrawCircle`, `DrawHalfCircle`) are left out, because they are floating-point trigonometry.
- Sensor.CosmosControlSensor.DrawDebugLine: keeps the `FColor` it is given. The source divides each channel by 255 into an `FLinearColor` with alpha 1, which drops the colour's alpha (every colour the sensor draws with is opaque: `RenderConfig.LoadConfigKeepsOpaque`, `RenderConfig.DefaultsAsDeclared`, white). The linear value of the stored line is not modelled.
- Sensor.CosmosControlSensor.DrawDebugBox: keeps the `FColor` it is given. The source hands it to `FBatchedLine`, whose colour is an `FLinearColor` built from an `FColor`, which is the engine's sRGB-to-linear conversion, not the division by 255 of `DrawDebugLine`. So a box line and a plain line in the same `FColor` carry different linear colours. The model stores the `FColor` on both paths and does not capture this difference.
- Arithmetic is on unbounded reals and integers. Single-precision rounding is not modelled, nor is a possible overflow of the 32-bit product of two lane ids in the decision table.
- Rotations are carried as data: a rotated point is `Rotated(origin, rotation, offset)`. Neither quaternion arithmetic nor the box collider's forward/right vectors are computed; they come in as data.
- The `LifeTime` argument of every helper is not modelled: the batch calls ignore it (they pass 0).
- The shoulder and driving spline arrays (CosmosControlSensor.cpp:326-332) are filled but never read, so they are not modelled.
- The map's iteration order over road ids is taken to be insertion order.
- RenderConfig.ObjectField: takes `GetObjectField` to return the engine's shared empty object for a missing key or a value of another type. That object counts as valid, so the `IsValid` test on the section and the `if` on `LineThickness` and `Colors` never fail. The engine's JSON library is not part of this model.
- RenderConfig.AsNumber: a string reads as 0, while the engine's `AsNumber` parses a numeric string. Strings and null are one `JOther` case here.
- Configuration file I/O and JSON parsing are not modelled. The file arrives as a parsed value or as `Unavailable` (missing, unreadable or unparsable).
- Missing thickness keys: the code reads 0 for them (`GetNumberField`), so the other thicknesses become 0 whenever the `LineThickness` object lacks some of them. The same holds when the section has no `LineThickness` object at all (`RenderConfig.MissingLineThicknessZeroesThickness`, `RenderConfig.OnlyRoadLinesThickness`).
- RenderConfig.Channel: the conversion of an out-of-range number into a colour byte is undefined in C++. The model wraps it modulo 256, and its contract speaks only of values in 0..255.
- Scene-capture set-up (show flags, the show-only list, the post-process material), the sensor definition, the actor tag, `bOnlyOwnerSee`, the commented-out frustum culling and the pixel readback are not modelled. None of them changes what the batches hold.
- Null checks: each traffic light is assumed to have a box collider (the source dereferences it without a check). Every object of the mesh-component class is taken to be a mesh component.
- `IgnoredVehicles` belongs to the base sensor class, which is not part of this model; it is a tick input.
- The labels of the server's semantic enumeration are taken in the order of the client's table (codes 0..28). The enumeration's own definition is not part of this model.
- BoundingBoxes.SemanticMapCoversServerLabels: only one direction is stated, namely that every server label has an entry. That every key 0..28 is some label's code is not stated, though `Classifier.LabelCodeInjective` together with 29 labels implies it.
- BoundingBoxes.Bbox2dForActor: requires the id and label planes to have the same shape. numpy's boolean mask indexing demands this and raises otherwise.
- `bbox_3d_for_actor`, the projection matrix and `get_image_point`, the pygame display and the client's main loop are not modelled: projection is floating-point linear algebra and the rest is I/O.
- visualize_multiple_sensors.py and SceneCaptureCamera_WideAngleLens.cpp are not part of this model.
