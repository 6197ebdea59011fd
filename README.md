# City simulator core, modelled in Dafny

This project models the bookkeeping under the city simulator's three.js scene:

- **Road grid** (`RoadGrid`, `RoadTables`). A grid of `[symbol, signature]` cells. A toggle clears a road or lays the provisional Main straight `━`. Then the cell and its road neighbours are re-resolved. Each neighbour is classed Main or Normal, a four-slot signature is built by the number of road neighbours, and the signature is looked up in `AssignRoadMap`. The resulting symbol goes to `getRoadDetails` for a model file and a rotation. The scene calls (`deleteMesh`, `addGrass`, `addRoadMesh`) are returned as an event log. `findMesh` is a parameter. The sort of the cells to resolve is any permutation the caller supplies.
- **Lane graph** (`LaneGraph`) and **tile stitching** (`TileStitching`):
  - `Node` is a class. Its `children` list is only searched and pushed onto, and its `isParent` flag drops when another node takes it as a child. `isEndNode` is the predicate `Node.IsEndNode`, that is, `children == []`.
  - `getRandomPath` takes its random numbers from a parameter, and a ghost rank shows that the walk ends.
  - Tiles carry four-node bundles per side. `joinNodesGrid` joins each tile to its four neighbours under per-side flags and returns the roots that are still parents.
  - The nodes' `children` and `isParent` are observed through a snapshot (`Snap`). Every joining method states its new snapshot exactly, as a pure function of the old one: `Apply` for a list of connections, `ApplyJoins` for a list of joins.
  - The loop's joins are a pure function of the tiles, the visiting order and the flags set at the start (`GridJoins`), and the methods return that list as a ghost record. Lemmas about it show each shared edge joined at most once (`GridJoinsOnce`) and every neighbouring pair flagged on one side or the other (`GridJoinsCover`). These lemmas take the tile key function as a parameter, so they hold for any key and not only for `${x}${y}`.
- **Lane waypoint generators** (`Points`, `StraightNodes`, `CurveNodes`, `TIntersectNodes`). The sampling loop and the pairwise step list of `helper/point.js`, and the three tile generators built on them. `Math.sqrt`, `cos`, `sin`, `atan2`, the degree/radian factors and `toFixed(2)` are function-valued fields of a `Numerics` value. So the counts, offsets, angle schedule and concatenations are exact, and the numbers are symbolic.
- **Interval free list** (`FreeList`). `NodeInstance` keeps its free instance indices as inclusive `[start, end]` gaps. The removal and insertion loops are methods, each proved equal to a specification function. The meaning of that function is proved over the free set `Covers`.
- **Small state machines**. `TrafficLights` (phase cycle with countdown), `Buildings` (growth counter) and `Vehicles` (slot capacity and waypoint queue; distance, heading, speed components and hypotenuse are the uninterpreted functions of a `Kinematics` value).
- **Arithmetic helpers**. `Platform`: instance index and grid position conversion, and `getChildrenInGrid`. `Intersection`: segment intersection over `real`, which is exact here since it uses only `+ - * /`.

Behaviours of the source that the model keeps as they are and proves:

- The free list starts as `[0, maxInstance]`, which frees `maxInstance + 1` indices (`FreeList.InitialFreeSet`). The instanced mesh it serves has `maxInstance` slots.
- `removeAvaliableIndex` of an index that is not free inserts the singleton gap, so the index becomes free (`FreeList.RemoveToggles`).
- The tile key `${x}${y}` is not injective (`TileStitching.KeyCollides`).
- On a non-square platform the index/position conversions are not inverse (`Platform.RoundTripFailsWhenNotSquare`).
- Touching at the start of a segment is reported as no intersection, because `0` is falsy (`Intersection.TouchingAtStartIsNull`).
- `Vehicle.move` returns at once exactly when `maxInstance` is undefined, because it compares the never-assigned `this.avaliable` with it.
- Splicing inside `Vehicle.move`'s `forEach` skips the slot after a removed one (`Vehicles.SpentNeighbourSkipped`).
- Twenty junction symbols have no model file and no rotation (`RoadTables.UnmodelledJunctions`): the four mixed-corner junctions `╆ ╅ ╄ ╃` and the sixteen three-way junctions whose through road changes class. `╊` has a model file but no rotation (`RoadTables.RotationMissing`).
- The straight tile's vertical lanes are not symmetric about the centre line: 0.16 against 0.17 (`StraightNodes.VerticalAsymmetric`).

## Model

| member | source | states |
|---|---|---|
| RoadGrid.Set | helper/road.js:342 | writing one cell keeps the grid rectangular and of the same size, changes that cell and no other |
| RoadGrid.GetGridElement | helper/road.js:172-182 | the cell is returned exactly when row and column are in bounds (columns measured on row 0), `null` otherwise |
| RoadGrid.RoadCount | helper/road.js:241-242 | the number of road neighbours is at most 4 and is 0 exactly when no neighbour is a road |
| RoadGrid.CountIntersect | helper/road.js:444-453 | `countIntersect` is the road-neighbour count, between 0 and 4 |
| RoadGrid.NonDash | helper/road.js:159 | the filter keeps exactly the non-`-` slots and never lengthens the list |
| RoadGrid.Indexs | helper/road.js:200-239 | the index triple passed for neighbour `i` starts with the facing slot `(i+2) mod 4`, then the two perpendicular slots |
| RoadGrid.ClassBySide | helper/road.js:157-170 | neighbour `i` is of a class iff it is a road and its two arms are both that class, or its facing slot is, or that slot is `-` and both perpendicular slots are |
| RoadGrid.MainNormalExclusive | helper/road.js:246-253 | no neighbour passes both the Main and the Normal test, so the assignment order of the eight tests never matters |
| RoadGrid.PreliminarySlots | helper/road.js:244-253 | each slot is `M` iff that side's neighbour is Main, `N` iff it is Normal, `-` iff neither |
| RoadGrid.NoNeighbours | helper/road.js:328-330 | with no road neighbour the new signature is `[s0, s3, s0, s3]` of the old one, and a lone provisional road resolves to `━` |
| RoadGrid.OneNeighbour | helper/road.js:311-327 | with one road neighbour the cell becomes a straight along its axis from its own first two classes, the facing end copied from the neighbour unless `-` |
| RoadGrid.SelfJoinKeepsAxis | helper/road.js:274-302 | in a 3/4-way junction whose own vertical ends mix Main and Normal, those ends are kept and the cell's own array is rewritten |
| RoadGrid.MainAboveNormalLeft | helper/road.js:255-259 | two neighbours, a Main road above not continuing below and a Normal road on the left, give `MN-N` whatever the cell held |
| RoadGrid.CornerClasses | helper/road.js:200-239 | in that corner the road above is Main, the road on the left Normal, and two neighbours are roads |
| RoadGrid.CornerBecomesT | helper/road.js:255-332 | a new road in that corner becomes the T symbol `┸` whose right arm leads nowhere |
| RoadGrid.WriteUnlessSameMesh | helper/road.js:337-341 | the entry is rewritten exactly when no mesh is found or the mesh's name differs from the symbol (the Grass test is subsumed) |
| RoadGrid.SetSymbol | helper/road.js:184-347 | resolving one cell keeps the grid rectangular and of the same size |
| RoadGrid.SetSymbolFacts | helper/road.js:337-346 | resolving a cell changes no other cell, and a road stays a road |
| RoadGrid.RoadGrids.constructor | helper/road.js:177 | the grid object holds the given rectangular grid |
| RoadGrid.HandleSetSymbol | helper/road.js:184-347 | the method's new grid and scene calls are those of `SetSymbol` |
| RoadGrid.Toggled | helper/road.js:375-422 | the toggle keeps the grid rectangular and of the same size |
| RoadGrid.ResolveAll | helper/road.js:431-441 | resolving the entries in order keeps the grid rectangular and of the same size |
| RoadGrid.ResolveAllSnoc | helper/road.js:431-441 | resolving one more entry extends the outcome by that entry's resolution |
| RoadGrid.ExecuteSpots | helper/road.js:385-429 | the entries collected name the road neighbours top, right, bottom, left, then the cell itself when it was not a road |
| RoadGrid.SpotsCover | helper/road.js:385-429 | those cells are exactly the road neighbours plus the newly added cell |
| RoadGrid.SpotsDistinct | helper/road.js:385-429 | no cell is collected twice |
| RoadGrid.ExecuteInBounds | helper/road.js:385-429 | every collected cell is inside the grid, before and after the toggle |
| RoadGrid.ToggleCell | helper/road.js:367-429 | the first half of the toggle clears or lays the cell, collects the entries, and emits delete + grass for a removed road |
| RoadGrid.HandleAddRoadToGrid | helper/road.js:356-442 | the method's grid and scene calls are those of `AddRoad` for the given resolution order |
| RoadGrid.ResolveEntries | helper/road.js:431-441 | the loop's grid and scene calls are those of `ResolveAll` |
| RoadGrid.ResolveAllKeepsRoads | helper/road.js:431-441 | resolving entries never turns a road into a blank |
| RoadGrid.ResolveAllUntouched | helper/road.js:431-441 | a cell no entry names is left as it was |
| RoadGrid.UntouchedUnnamed | helper/road.js:385-429 | a cell outside the toggled cell's road neighbourhood is named by no entry |
| RoadGrid.AddRoadToggles | helper/road.js:375-422 | after the toggle the cell is a road iff it was not, and a removed road is left exactly blank |
| RoadGrid.RemovedRoadIsCleared | helper/road.js:375-376 | a removed road ends as `[" ", ["-","-","-","-"]]` |
| RoadGrid.AddedRoadStays | helper/road.js:417-441 | an added road is still a road after all resolutions |
| RoadGrid.AddRoadKeepsOthers | helper/road.js:356-442 | every other cell keeps its road status, and only the four neighbours can change at all |
| RoadGrid.KeepsOther | helper/road.js:356-442 | the same for one cell |
| RoadGrid.EachResolvedOnce | helper/road.js:385-441 | under any order each road neighbour, and the newly added cell, is resolved exactly once |
| RoadGrid.RotateToHorizontal | helper/road.js:349-354 | the result has a horizontal `-` end, and a signature that already has one is returned unchanged |
| RoadGrid.RotateFacts | helper/road.js:349-354 | rotating is idempotent, and vertical straights become `╼` and `━` |
| RoadTables.AssignNamesExactly | helper/road.js:3-83 | `AssignRoadMap` names a signature iff it has no `undefined` slot, at least two arms and no mixed Main/Normal corner |
| RoadTables.ParseKey | helper/road.js:332 | the joined key of a signature without `undefined` can be read back, so distinct signatures give distinct keys |
| RoadTables.UndefKeyIsShort | helper/road.js:332 | a signature with an `undefined` slot joins to fewer than four characters and so misses every key |
| RoadTables.IncludesChar | helper/road.js:117 | `key.includes(c)` for one character holds iff the character occurs in the key |
| RoadTables.SearchKeys | helper/road.js:116-121 | the search loop with `break` returns the value of the first key including the symbol |
| RoadTables.GetRoadDetails | helper/road.js:85-132 | model URL and rotation are the first matches in `roadUrls` and `roadRotation` |
| RoadTables.MatchIsFirstContainingKey | helper/road.js:116-128 | for a one-character symbol the match is the first key containing it |
| RoadTables.NoMatch | helper/road.js:115-131 | a symbol no key contains leaves the field `null` |
| RoadTables.StraightDetails | helper/road.js:90 | `┃` and `━` get the main-road straight model, at rotation 0 and 90 |
| RoadTables.UndefinedDetails | helper/road.js:116-128 | an `undefined` symbol is searched as the text "undefined" and matches nothing |
| RoadTables.UnmodelledJunctions | helper/road.js:3-83 | the twenty junctions `╆ ╅ ╄ ╃` and `┲ ┱ ┮ ┭ ┪ ┩ ┧ ┦ ┺ ┹ ┶ ┵ ┢ ┡ ┟ ┞` of the table get a `null` model URL and a `null` rotation |
| RoadTables.UnmodelledNotInUrls | helper/road.js:88-107 | no `roadUrls` key contains one of them |
| RoadTables.UnmodelledNotInRotations | helper/road.js:109-114 | no `roadRotation` key contains one of them |
| RoadTables.RotationMissing | helper/road.js:88-114 | `╊` gets the main-road/road intersection model but a `null` rotation, since no `roadRotation` key contains it |
| LaneGraph.Node.constructor | node/node.js:2-8 | a new node has the location, no children, null root and end node, and `isParent` true |
| LaneGraph.Node.ResetNode | node/node.js:10-13 | clears `children` and `endNode` and nothing else |
| LaneGraph.Node.AddChild | node/node.js:15-20 | the child is pushed unless present, and loses `isParent` exactly when it was pushed |
| LaneGraph.WithChildFacts | node/node.js:15-20 | `addChild` keeps children duplicate-free, adds exactly the argument, keeps earlier children in place, and is a no-op iff the argument was a child |
| LaneGraph.Node.AddChilds | node/node.js:22-26 | the children are those of repeated `addChild`; each argument loses `isParent` iff it was newly added; nothing else changes |
| LaneGraph.WithChildrenFacts | node/node.js:22-26 | `addChilds` keeps children duplicate-free and yields exactly the old children plus the arguments, old ones first |
| LaneGraph.WithChildrenOfChildren | node/node.js:22-26 | adding nodes that are all children already changes nothing |
| LaneGraph.Node.ConnectToRootNode | node/node.js:28-32 | the root loses `isParent` and becomes `connectRootNode`, and its children (not itself) are added |
| LaneGraph.Node.ConnectToEndNode | node/node.js:33-35 | exactly the effect of `addChild(endNode)` |
| LaneGraph.Node.SetEndNode | node/node.js:37-39 | sets `endNode` |
| LaneGraph.Node.IsEndNode | node/node.js:41-44 | holds exactly when the node has no children |
| LaneGraph.Node.GetRandomPath | node/node.js:47-69 | returns a fresh chain, one node per visited node with its location, each linked to the next, the last childless and the root's `endNode` |
| LaneGraph.Extend | node/node.js:57-61 | one loop step adds a fresh node at the child's location as the only child of the chain's end |
| LaneGraph.SetChainEnd | node/node.js:67 | `root.endNode` is set to the chain's last node, keeping the chain |
| LaneGraph.Pick | node/node.js:53 | `Math.floor(random * length)` is a valid child index |
| LaneGraph.Walk | node/node.js:47-69 | the visited nodes start at the node the walk starts from |
| LaneGraph.WalkSteps | node/node.js:51-66 | each step goes to the chosen child of the node before, and only the last node has no children |
| LaneGraph.WalkLength | node/node.js:51-66 | the walk is at most as long as the rank allows |
| TileStitching.Tile.constructor | sence.js:357-376 | a tile holds its position, bundles and roots, with all four join flags unset |
| TileStitching.Tile.SetFlag | sence.js:358-359 | sets one side's join flag and leaves the other three |
| TileStitching.Connect | sence.js:306-310 | a facing pair of bundles is joined by four connections |
| TileStitching.JoinRightIsJoinLeft | sence.js:306-315 | `joinNodes(a, b, "Right")` makes the same connections as `joinNodes(b, a, "Left")` |
| TileStitching.JoinBottomIsJoinTop | sence.js:316-325 | `joinNodes(a, b, "Bottom")` makes the same connections as `joinNodes(b, a, "Top")` |
| TileStitching.JoinPlanCases | sence.js:305-327 | `joinNodes` connects something iff the direction is one of the four names and both facing bundles exist, and then makes four connections |
| TileStitching.ConnectWithin | sence.js:307-325 | the connections touch only the first four nodes of the two bundles |
| TileStitching.JoinPlanNodes | sence.js:305-327 | every node a join touches belongs to one of the two tiles |
| TileStitching.StepFacts | sence.js:307-310 | one connection drops no child and restores no `isParent`, changes the children of its own node only, adds an end target as a child, and clears a root's `isParent` and passes the root's children to the node |
| TileStitching.ApplyGrows | sence.js:307-325 | a sequence of connections drops no child and gives no node its `isParent` back |
| TileStitching.ApplyFrame | sence.js:307-325 | a node that no connection starts from keeps its children exactly |
| TileStitching.ApplyReaches | sence.js:307-325 | after the connections every end target is a child of its node, and every root has lost `isParent` and its children are children of its node |
| TileStitching.ApplyToRoot | sence.js:307-308 | `connectToRootNode` changes the nodes exactly as one root connection on the snapshot says, every other node unchanged |
| TileStitching.ApplyToEnd | sence.js:309-310 | `connectToEndNode` changes the nodes exactly as one end connection on the snapshot says, every other node unchanged |
| TileStitching.ApplyOp | sence.js:307-310 | one connection leaves every node of the closed set as `StepOp` of the old snapshot says (the node, its target or the root's children change; nothing else) |
| TileStitching.ApplyOps | sence.js:307-325 | the connections in order leave every node as `Apply` of the old snapshot; with no connections nothing changes |
| TileStitching.JoinNodes | sence.js:305-327 | `joinNodes` leaves the nodes exactly as its plan's connections do, and with an empty plan (a missing bundle or an unknown direction) no node's children or `isParent` change |
| TileStitching.KeyCollides | sence.js:330 | positions (1, 12) and (11, 2) share the key "112" |
| TileStitching.SetRCN | sence.js:329-331 | the tile is stored under its key, replacing any tile there, and every other key is unchanged |
| TileStitching.AllRootsFacts | sence.js:350-377 | the collected roots are exactly the visited tiles' roots, each once, in whatever order the tiles are visited |
| TileStitching.ParentsFacts | sence.js:379 | the filter keeps exactly the roots still marked `isParent`, without duplicates |
| TileStitching.JoinSide | sence.js:352-361 | one guarded block joins iff the neighbour's key holds a tile and neither facing flag was set; then the two flags are set and the nodes change exactly as that `joinNodes` call; otherwise no flag and no node changes |
| TileStitching.JoinNeighbours | sence.js:352-376 | the four blocks, left, right, top, bottom, make exactly the joins `TileJoins` names, set exactly their flags, clear none, and change the nodes exactly as those joins in order |
| TileStitching.JoinNodesGrid | sence.js:349-380 | the loop makes exactly the joins `GridJoins` names, sets exactly their flags and clears none, changes the nodes exactly as those joins in order, and returns the collected roots still marked `isParent` |
| TileStitching.GridJoinsSnoc | sence.js:351-377 | visiting one more tile appends its four blocks' joins and its roots |
| TileStitching.TileJoinsFresh | sence.js:357-376 | within one tile, each join sets two flags that were clear before it |
| TileStitching.GridJoinsFresh | sence.js:351-378 | over the whole loop, each join sets two flags that were clear before it |
| TileStitching.GridJoinsOnce | sence.js:357-376 | no two joins share a flag, so no tile side is joined twice in either direction, and no join uses a side flagged before the loop |
| TileStitching.TileJoinsNeighbours | sence.js:352-376 | each join of one tile's blocks connects that tile to the tile stored under its neighbour's key |
| TileStitching.GridJoinsNeighbours | sence.js:351-378 | every join of the loop connects a visited tile to the tile stored under its neighbour's key on that side |
| TileStitching.TileJoinsOf | sence.js:357-376 | a tile's blocks only make joins from that tile |
| TileStitching.TileJoinsCover | sence.js:357-376 | after a tile's blocks, each of its sides with a neighbour has its own flag or the neighbour's facing flag set |
| TileStitching.TileCovers | sence.js:357-376 | the four blocks cover each of the four sides |
| TileStitching.GridJoinsCover | sence.js:351-378 | after the loop every side of a visited tile that has a neighbour is flagged on one side of the edge, so with no flags at the start every neighbouring pair has been joined one way |
| TileStitching.CoverSnoc | sence.js:351-378 | visiting one more tile keeps the earlier tiles covered and covers the new one |
| TileStitching.MarkSetConcat | sence.js:357-376 | the flags set by two runs of joins are the union of each run's flags |
| TileStitching.ApplyJoinsConcat | sence.js:351-378 | performing two runs of joins one after the other is performing their concatenation |
| TileStitching.JoinedRoots | sence.js:377-379 | the result holds each root of any tile that kept `isParent`, once |
| Points.Steps | helper/point.js:25-48 | one step per consecutive pair of points (none for 0 or 1 point), step `i` at point `i` measuring the way to point `i+1` |
| Points.CalculateDistancesAndAngles | helper/point.js:25-48 | the loop builds exactly `Steps` |
| Points.ArcSteps | helper/point.js:1-23 | `deviceTo` steps (none if not positive), step `i` leading from sample `i` to sample `i+1` |
| Points.GetPoints | helper/point.js:1-23 | the sampling loop followed by the step list builds exactly `ArcSteps` |
| Points.NextAngle | helper/point.js:20 | adding the increment once more gives the next sample's angle |
| Points.SweepEnds | helper/point.js:12-21 | the samples sweep from offset 0 to 90 for direction 1, and from 90 to 0 for direction -1 |
| Points.SweepReversed | helper/point.js:12-21 | sample `i` of direction 1 is at the angle of sample `deviceTo - i` of direction -1 |
| Points.SamplesReversed | helper/point.js:11-19 | so the two directions take the same points in opposite orders |
| StraightNodes.StraightNode | node/straightNode.js:1-21 | four waypoints, each one tile long |
| StraightNodes.PairsFaceEachOther | node/straightNode.js:5-19 | the first pair enters on one edge and the second on the opposite edge, half a tile out, heading 180 degrees apart |
| StraightNodes.LanesInOrder | node/straightNode.js:5-19 | the lanes lie strictly in order across the road, two on each side of the centre line |
| StraightNodes.HorizontalSymmetric | node/straightNode.js:13-18 | horizontally the lanes are symmetric about the centre line |
| StraightNodes.VerticalAsymmetric | node/straightNode.js:6-11 | vertically the outer lanes are not (0.16 against 0.17), the inner ones are |
| CurveNodes.Remap | node/curveNode.js:5-18 | the quarter turns map to `360 - angle` and other angles are kept; offset x is 0 iff the angle is 180 or 270, offset y is 0 iff it is 270 or 360 |
| CurveNodes.RemapIsReflection | node/curveNode.js:6-18 | the remap swaps 90 and 270 and fixes 180 |
| CurveNodes.CurveArcs | node/curveNode.js:19-46 | four arcs at the remapped angle with the default offset, directions 1, 1, -1, -1 and `deviceTo` 4, 5, 5, 5 |
| CurveNodes.Place | node/curveNode.js:50-57 | every placed waypoint keeps its step's length and heads the opposite way |
| CurveNodes.Assemble | node/curveNode.js:48-59 | the assembled list holds one waypoint per step of every arc |
| CurveNodes.CurveNode | node/curveNode.js:3-62 | a curve tile has 19 waypoints |
| CurveNodes.AssembleAt | node/curveNode.js:48-59 | step `i` of arc `k` sits at that arc's start offset plus `i` |
| CurveNodes.CurveSteps | node/curveNode.js:19-46 | the four arcs take 4 + 5 + 5 + 5 = 19 steps |
| CurveNodes.CurveStarts | node/curveNode.js:48-59 | the four lanes start at waypoints 0, 4, 9 and 14 |
| CurveNodes.CurveWaypoint | node/curveNode.js:48-57 | waypoint `i` of lane `k` is sample `i` of the arc plus location plus offset, with the length and reversed heading of the step to sample `i+1` |
| TIntersectNodes.TIntersectNode | node/TIntersectNode.js:4-32 | an angle outside 0, 90, 180, 270 gives no waypoints, and a listed one gives 42 |
| TIntersectNodes.TIntersectPieces | node/TIntersectNode.js:6-30 | the waypoints are the curve at the angle (360 for 0), the curve a quarter turn on, then the straight that is vertical exactly for 0 and 180 |
| FreeList.NodeInstance.constructor | GLTFModel/NodeInstance.js:4-9 | the free list starts as the one gap `[0, maxInstance]` and is ordered |
| FreeList.InitialFreeSet | GLTFModel/NodeInstance.js:8 | the initial list frees exactly `0 .. maxInstance`, both bounds included |
| FreeList.NodeInstance.RemoveAvaliableIndex | GLTFModel/NodeInstance.js:11-48 | the loop builds exactly `RemoveAvailable` and keeps the list ordered |
| FreeList.RemoveToggles | GLTFModel/NodeInstance.js:11-48 | removal flips the status of the index (a taken index becomes free), keeps every other index, and keeps the list ordered |
| FreeList.RemoveTogglesAt | GLTFModel/NodeInstance.js:15-47 | the same for one index |
| FreeList.RemoveKeepsOrder | GLTFModel/NodeInstance.js:15-47 | removal keeps gaps sorted, disjoint and non-empty |
| FreeList.RemovePassCovers | GLTFModel/NodeInstance.js:15-41 | the loop frees every other index as before, and the index itself only when it was placed as a new singleton |
| FreeList.RemovePassShape | GLTFModel/NodeInstance.js:15-41 | the loop's output is ordered and ends no later than the input |
| FreeList.RemovePassFlag | GLTFModel/NodeInstance.js:13-41 | the `numberTaken` flag is set iff the index lay in a gap or before the last one |
| FreeList.RemovePiecesShape | GLTFModel/NodeInstance.js:17-40 | the pieces one iteration pushes are ordered and stay inside the gap |
| FreeList.RemovePiecesCovers | GLTFModel/NodeInstance.js:17-40 | one iteration frees the gap's indices but the taken one, plus that one when it is placed before the gap |
| FreeList.RemoveStepShape | GLTFModel/NodeInstance.js:15-41 | one iteration keeps the output ordered |
| FreeList.NodeInstance.AddAvaliableIndex | GLTFModel/NodeInstance.js:50-106 | the two loops build exactly `AddAvailable` and keep the list ordered |
| FreeList.Inserted | GLTFModel/NodeInstance.js:51-85 | the list after the first loop is never empty, so the merge can read its first gap |
| FreeList.InsertIndex | GLTFModel/NodeInstance.js:51-85 | the first loop builds exactly `Inserted` |
| FreeList.MergeGaps | GLTFModel/NodeInstance.js:88-104 | the merge loop builds exactly `Merged` |
| FreeList.AddPiecesFacts | GLTFModel/NodeInstance.js:57-79 | one iteration pushes start-sorted pieces that free the gap plus the added index when it is placed or glued |
| FreeList.AddPassShape | GLTFModel/NodeInstance.js:54-80 | the first loop keeps starts sorted |
| FreeList.AddPassCovers | GLTFModel/NodeInstance.js:54-85 | the first loop frees the added index once placed, and nothing else new |
| FreeList.AddPassNonEmpty | GLTFModel/NodeInstance.js:54-80 | once the index has been placed the output is non-empty |
| FreeList.MergePassShape | GLTFModel/NodeInstance.js:88-104 | the merge leaves no two gaps overlapping or adjacent |
| FreeList.MergePassCovers | GLTFModel/NodeInstance.js:88-104 | the merge frees exactly what its input frees |
| FreeList.AddSeparates | GLTFModel/NodeInstance.js:50-106 | after adding, gaps are sorted with `end + 1 < next start` |
| FreeList.AddFreesAt | GLTFModel/NodeInstance.js:50-106 | after adding, an index is free iff it was, or is the added one |
| FreeList.AddFrees | GLTFModel/NodeInstance.js:50-106 | adding frees the index, keeps every other status, and leaves the gaps separated |
| FreeList.AddOfFreeIndexKeepsSet | GLTFModel/NodeInstance.js:50-106 | adding an already-free index leaves the free set unchanged |
| FreeList.RemoveThenAddRestores | GLTFModel/NodeInstance.js:11-106 | taking a free index and giving it back restores the free set |
| FreeList.FirstStartIsSmallestFree | GLTFModel/NodeInstance.js:109 | the first gap's start is the smallest free index |
| FreeList.NodeInstance.AddInstanceToSence | GLTFModel/NodeInstance.js:108-112 | the first gap's start is returned and removed from the free list |
| FreeList.NodeInstance.RemoveInstanceFromSence | GLTFModel/NodeInstance.js:114-120 | the index is added back to the free list |
| FreeList.AllocationTakesSmallest | GLTFModel/NodeInstance.js:108-112 | allocation takes the smallest free index, after which exactly that index is no longer free |
| Platform.IndexRoundTrip | sence.js:82-91 | on a square platform, index to position and back by `calculateIndexByPosition` gives the index again |
| Platform.RoundTripFailsWhenNotSquare | sence.js:84-85 | on a 2-by-3 platform index 2 comes back as 0 |
| Platform.ClampCorner | sence.js:865-871 | the clamped corner plus the size reaches at most `floor(dim/2)`, and a corner already inside is kept |
| Platform.ChildrenInGrid | sence.js:860-884 | the nested loops return the block at the clamped corner, column by column |
| Platform.BlockAt | sence.js:873-881 | the block has `sizeX * sizeZ` entries and entry `i * sizeZ + j` is cell `(cx + i, cz + j)` with its index |
| Platform.ColumnAt | sence.js:874-880 | the inner loop's entry `j` is cell `(x, cz + j)` |
| Platform.ColumnCells | sence.js:874-880 | every entry of a column lies in it and carries its own instance index |
| Platform.BlockCells | sence.js:873-881 | every entry of a block lies in its rectangle and carries its own instance index |
| Platform.BlockInsideBounds | sence.js:865-881 | every returned cell lies below the positive half-widths `s_width / 2` and `s_length / 2` |
| Intersection.Lerp | helper/intersection.js:1 | `lerp` gives `a` at 0, `b` at 1, and `a` when both ends agree |
| Intersection.CalculateOffsets | helper/intersection.js:19-29 | `null` for parallel segments; otherwise a result in [0, 1] that solves the crossing equation |
| Intersection.OffsetIsTheSolution | helper/intersection.js:20-26 | conversely any solution in [0, 1] of a non-parallel crossing is the one returned |
| Intersection.GetLineIntersection | helper/intersection.js:3-17 | a hit exists iff both offsets are truthy (non-null and non-zero), at offset `t` in (0, 1] |
| Intersection.DenominatorSwap | helper/intersection.js:21 | swapping the segments negates the denominator |
| Intersection.HitIsOnBothSegments | helper/intersection.js:7-15 | the hit is also the point at fraction `u` along the second segment |
| Intersection.IntersectionSymmetric | helper/intersection.js:7-9 | whether two segments intersect does not depend on their order |
| Intersection.TouchingAtStartIsNull | helper/intersection.js:9 | a crossing at the start of a segment has offset 0 and is reported as `null` |
| Intersection.DiagonalsMeetAtCentre | helper/intersection.js:3-17 | the unit square's diagonals meet at (0.5, 0.5), halfway along |
| TrafficLights.TrafficLight.constructor | GLTFModel/TrafficLight.js:21-34 | a new light is red with countdown 0, and the available indices are `0 .. maxInstance-1` |
| TrafficLights.TrafficLight.Init | GLTFModel/TrafficLight.js:88-91 | `init` sets the light to yellow with countdown 1 |
| TrafficLights.TrafficLight.Update | GLTFModel/TrafficLight.js:116-131 | a positive countdown is decremented; otherwise the successor phase starts with its table time |
| TrafficLights.UpdateCountsDown | GLTFModel/TrafficLight.js:117 | while the countdown is positive an update only decrements it |
| TrafficLights.UpdateSwitchesPhase | GLTFModel/TrafficLight.js:117-128 | at or below zero an update enters a different, successor phase with its table duration |
| TrafficLights.NextLightIsThreeCycle | GLTFModel/TrafficLight.js:119-124 | the successor map is a 3-cycle through red, green and yellow |
| TrafficLights.PhaseDurations | GLTFModel/TrafficLight.js:7-20 | red lasts 500, yellow 200, green 500 |
| TrafficLights.CountdownPhase | GLTFModel/TrafficLight.js:117 | the first `k <= T` updates of a phase entered at `T` only count down |
| TrafficLights.PhaseLastsTimePlusOne | GLTFModel/TrafficLight.js:116-131 | a phase entered with time `T` lasts exactly `T + 1` updates |
| TrafficLights.LightCycles | GLTFModel/TrafficLight.js:116-131 | started at any phase, the light returns to it after 1203 updates |
| TrafficLights.InitThenTwoUpdates | GLTFModel/TrafficLight.js:116-131 | from the `init` state two updates give red with 500 ticks |
| Buildings.Building.constructor | Building.js:5-14 | a building holds its height and cap, with the counter at 500 |
| Buildings.Building.Grow | Building.js:16-21 | `grow` makes one counter step, and nothing changes at the cap |
| Buildings.CappedGrowthIsIdle | Building.js:17 | at the cap nothing changes |
| Buildings.GrowDecrementsOrBumps | Building.js:18-21 | below the cap each call decrements the counter, or at 1 resets it to 500 and sets the height to `floor(height + 1)` |
| Buildings.GrowKeepsIntervalInRange | Building.js:18-19 | the counter stays within 1..500 |
| Buildings.GrowIterateCountsDown | Building.js:18 | `k` calls below the counter's value lower it by `k` |
| Buildings.HeightChangesEveryIntervalCalls | Building.js:18-21 | from a counter at `n` the height is kept for `n - 1` calls and bumped on the `n`-th |
| Buildings.FirstBumpFromDefault | Building.js:20 | from the default 0.1 the first bump gives height 1 |
| Buildings.DefaultBuildingNeverCaps | Building.js:5 | with the default height and cap the height never drops below 0.1, so the cap 0 is never reached |
| Vehicles.JsRemRange | GLTFModel/Vehicle.js:89 | JavaScript's `%` keeps the dividend's sign, stays below the divisor in size, and is the identity on [0, d) |
| Vehicles.Advanced | GLTFModel/Vehicle.js:79-106 | advancing drops the head waypoint, moves to it, keeps the speed, and takes distance, heading and speed components of the new step |
| Vehicles.AfterAdd | GLTFModel/Vehicle.js:62-77 | `addPath` adds one slot exactly when one is free and the path has a step, keeping the others |
| Vehicles.Visit | GLTFModel/Vehicle.js:115-155 | a slot with at most one waypoint is spliced out; any other is stepped in place |
| Vehicles.Vehicle.constructor | GLTFModel/Vehicle.js:25-34 | no slot used, speed at its maximum, position at the origin |
| Vehicles.Vehicle.GetIsAvaliable | GLTFModel/Vehicle.js:52-54 | available iff the slot count differs from `maxInstance` |
| Vehicles.Vehicle.UpdateUsedInstanceIndex | GLTFModel/Vehicle.js:79-106 | only slot `index` changes, to its advanced entry |
| Vehicles.Vehicle.AddPath | GLTFModel/Vehicle.js:62-77 | the slots and mesh updates are those of `AfterAdd`, and the capacity bound is kept |
| Vehicles.Vehicle.Init | GLTFModel/Vehicle.js:56-60 | the slots and mesh updates are those of adding each path in turn |
| Vehicles.Vehicle.Move | GLTFModel/Vehicle.js:108-157 | with `maxInstance` undefined nothing changes; otherwise slots and updates are those of the splicing `forEach` |
| Vehicles.Vehicle.VisitAt | GLTFModel/Vehicle.js:115-155 | one callback of the `forEach` does what `Visit` says |
| Vehicles.AddPathTakesSlot | GLTFModel/Vehicle.js:63-67 | a slot is taken iff one is free and the path has a step; it starts at the first waypoint with the rest of the path and the maximum speed |
| Vehicles.AddKeepsBound | GLTFModel/Vehicle.js:63-65 | one `addPath` within a non-negative bound stays within it |
| Vehicles.AddAllKeepsBound | GLTFModel/Vehicle.js:56-65 | any sequence of `addPath` calls from a bounded list stays within `maxInstance` |
| Vehicles.NegativeMaxNeverFills | GLTFModel/Vehicle.js:53 | a negative `maxInstance` is never reached, so every path with a step is taken |
| Vehicles.MoveNeverGrows | GLTFModel/Vehicle.js:111-156 | `move` never adds a slot |
| Vehicles.MoveStepsEach | GLTFModel/Vehicle.js:111-156 | when no visited slot is spent, every slot from `k` on is stepped in place and none removed |
| Vehicles.MoveAllSteps | GLTFModel/Vehicle.js:111-156 | a frame with no spent path steps every slot once |
| Vehicles.SteppedEffect | GLTFModel/Vehicle.js:129-153 | a step either reaches the waypoint and takes its position, or stores the reduced distance and moves by the speed components |
| Vehicles.SpentNeighbourSkipped | GLTFModel/Vehicle.js:111-127 | with two spent slots `move` removes the first and never visits the second, parking mesh instance 1 |

## Left out

- Rendering and scene assembly are not modelled: meshes, geometry, materials, lights, raycasting, hover and selection are not part of the bookkeeping. Mesh calls are recorded as events (`RoadGrid`, `Vehicles`) or dropped (`NodeInstance.updateInstanceMeshPosition`, `TrafficLight.updateLight`, the `init` mesh set-up, the geometry replacement in `Building.grow`).
- Asset loading and the asynchronous `create` factories are not modelled: they are loader calls and promises. `handleSetSymbol` is `async` without an `await`, so it is modelled as synchronous.
- node/intersectNode.js is not part of this model: it destructures fields that `straightNode` does not return and has no coherent behaviour.
- Floating point is modelled as `real`. `getPoints`' repeated `currentAngle +=` is therefore exact here. `Math.sqrt/cos/sin/atan2`, the degree/radian factors and `toFixed(2)` are uninterpreted (`Points.Numerics`). So no property about the numeric values of waypoints is proved, only about their structure.
- Vehicles.Kinematics: `calculateDistanceAndAngle`, `calculateSpeedComponents` and `calculateHypotenuse` are not exported by helper/point.js. They are uninterpreted functions here.
- Vehicles.Entry: `angleRadians` is a string in the source (the result of `toFixed`). It is a number here, and the string/number round trips of `parseFloat` are not modelled.
- Vehicles.Entry: waypoints are coordinate pairs; the source's `"x,y"` strings and their `split`/`+` parse are not modelled.
- Vehicles.Vehicle.UpdateUsedInstanceIndex: `path.shift()` mutates the caller's array in place. The model copies the path, so aliasing between a slot's path and the array passed to `addPath` is not captured.
- Vehicles.Vehicle.UpdateUsedInstanceIndex: requires a slot at `index` with at least two waypoints, since the source throws on `undefined` otherwise.
- `Math.random` is a parameter `random: nat -> real` with values in [0, 1). `addVehicle` and other random callers are not modelled.
- LaneGraph.Node.GetRandomPath: requires a ghost rank that decreases along child edges, that is, an acyclic graph. On a cycle the source loops forever, and that run is not modelled.
- `Node.distanceTo` and `Node.getNeighbors` are not modelled: the first is floating-point geometry and the second returns `children` unchanged.
- FreeList.NodeInstance.AddInstanceToSence: requires a non-empty free list; the source reads `avaliableIndexs[0][0]` and throws on an empty one. The mesh update after the allocation is not modelled.
- FreeList.NodeInstance.RemoveInstanceFromSence: the mesh update that parks the instance at 1e10 is not modelled.
- RoadGrid.HandleSetSymbol: requires a rectangular grid and an in-bounds cell. In the source an out-of-bounds `self` is `null` and `self[1]` throws. A ragged grid, or a cell that is not a `[symbol, signature]` pair, is not modelled.
- RoadGrid.HandleAddRoadToGrid: the `type` argument is accepted and ignored, as in the source. `findMesh` is a fixed function during one call, although the source's asynchronous `addRoadMesh` could change the scene between lookups.
- RoadGrid.HandleAddRoadToGrid: the sort is modelled as an arbitrary permutation of the collected entries, because its comparator is not a consistent order. The `intersects` counts feed only the sort, so they appear in the entries but constrain nothing.
- RoadGrid.ToggleCell: `deleteMesh` of a missing mesh (`null`) is recorded as an event like any other.
- `printGrid`, `converMeshRotationToDegrees`, the `console.log` calls, `helper.js` and `printNodeAndChildren` are not modelled: they are console output or float unit conversion.
- TileStitching.JoinNodesGrid: requires every present bundle to have at least four nodes; the source throws on a short one. The object's entry order is a caller-supplied sequence of its keys; `TileStitching.JoinedRoots` takes it to list every key, as `Object.entries` does. The tile key function of the pure joins is a parameter, and the method passes `Key`. The demo tiles at sence.js:228-347 are not modelled.
- Platform.IndexRoundTrip: stated for positive dimensions only (`Platform.Valid`); with a zero dimension the source computes `NaN`.
- TrafficLights.TrafficLight: the light type is one of three constructors, so a `type` string outside the table is not modelled.
- Buildings.Building.Grow: `height` and the counter are exact reals and integers; the float increment of `++this.height` is exact here.
