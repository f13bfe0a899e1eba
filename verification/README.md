# invctl: a verified model of its algorithms

invctl is an infrastructure inventory. This project models the parts of it that
compute rather than store, and proves what their documentation promises:

- **The layered diagram** (`internal/diagram`): a neighbourhood is grouped into
  bands, ordered by a twelve-pass barycentre sweep, given rails, fans, channels and
  coordinates, and its crossings can be counted in the finished drawing. The sweep is pinned
  to edges and slots (`Sweeping.SweptOrder`) and unties every forest
  (`Sweeping.ForestDrawn`). `Diagram.Build`
  is proved end to end: every accepted input gives a layout satisfying `Layouts.Placed`,
  which is all the statements about drawings assume. No line enters a box, everything
  lies on the canvas, and for any two edges that skip no band, and any two joining the
  same two bands, it is proved exactly when the drawn census counts a crossing and the slot
  model does not, or the other way about.
- **IP arithmetic** (`internal/domain`): prefix bounds by bit setting (section 3.1 of
  RFC 4632), byte order as numeric order, the sort-and-stack prefix tree with its
  allocation accounting, and the lowest free address (with the /31 exception of
  section 2.1 of RFC 3021), each against plain sets of addresses.
- **Apportionment** (`internal/domain`, `internal/store`): largest remainders, and the
  pipeline from storage claims through occupancies and divisions to money per subject,
  with every unit accounted for.
- **Failure semantics** (`internal/domain`, `internal/impact`): five availability
  policies, the nature table, routes and pools, and the rounds of the engine, against a
  least fixed point that knows nothing of edge order or rounds, and against what a settled
  report has to mean, said of the estate alone (`Outages`).
- **Smaller state machines**: keyset paging to exhaustion, the health override over
  every run of its store, and the number scanner against the valid floating-point
  number grammar in section 2.3.4.3 of the HTML Living Standard.

Code that updates things in place is modelled by classes and loops proved against
specification functions; everything else by functions and lemmas. Coordinates and
barycentres are `real`, slots and money unbounded integers, addresses and names byte
strings. Instants are nanoseconds since the zero time and stored timestamps whole
seconds. Clocks, the network verdicts of the reachability phase, store failures and the
rows of the store are parameters.

## Where the code and its documentation differ

- `internal/diagram/diagram.go:223-234` says that two edges joining the same two bands
  cross on an inversion and that the objective and the drawn census agree wherever the
  objective claims to count. For edges that skip a band both halves fail: an inverted pair
  can run down one channel and part again uncounted by the census (`WideBand.BuildWide`,
  After 1 and a census of 0), and a pair that keeps its order can touch in one and be
  counted (`TouchingLines.BuildTouch`, After 0 and a census of 1).
  `BandPairs.SameBandsDrawnIff` and `Census.SameBandsCensus` give the exact condition for
  every such pair, and `Census.ObjectiveAgainstCensus` the balance of the two counts.
- `internal/diagram/measure.go:24-33` lists the gaps between the two counts: a routed edge
  in the lane of a band it passes, a drifting line clipping a rail, and what a renderer
  spreads. An edge past a band that crosses a neighbours' edge in the gutter is in none of
  them (`GutterCrossing.BuildGutter`), nor are the merged and the touching pairs above.
  `Census.DrawnUncounted` is what remains true, and `Drops.DropDrawnIff` says exactly which
  lines clip a rail.
- `internal/diagram/measure.go:87-89` says that the test of the census is whether the open
  segments share a point and that touching at an end is not a crossing.
  `Meeting.CrossIff` says what it is for every two segments, and `Meeting.PromiseKeptIff`
  exactly which keep the promise: all but touches whose ends lean one way, which are
  counted, and overlaps on one line, which are not. Turning a segment round can change the
  answer (`Meeting.SomeTouchesCount`), and layouts contain counted touches
  (`TouchingLines.NoneCountedOneDrawn`).
- `internal/impact/engine.go:19-23` says the rounds end within one per service and that
  the cap of twenty is no expected limit. Statuses do settle within one round per
  service (`Rounds.SettledAfterServices`), but the restart list can need one more
  (`ImpactTheorems.NeedsOneMore`, and no further: `ImpactTheorems.StopsOnItsOwn`), and the cap
  gives the right statuses for every estate of n services exactly when n is at most
  twenty (`ImpactTheorems.CapSufficesIff`): a longer chain, listed far end first, is
  reported with a service fine whose hard dependency is down. Above twenty services the
  report therefore depends on the order in which dependencies are listed
  (`AnyOrder.ReportIgnoresOrderIff`).
- A route whose frontend endpoint belongs to a service missing from the graph gets the
  empty status, which ranks as fine but is not `ok` to the nature table, so hard
  consumers degrade with nothing wrong (`ImpactTheorems.StaleFrontendDegrades`);
  `ImpactTheorems.FineStaysFineIff` gives the exact condition.
- `internal/domain/observed.go:851-852` says UpdatedAt moves only on Amend. Clear moves it
  too, and a clear by a clock set back by more than a day leaves a row that fails its own
  check (`Overrides.SlowClockClear`, `Overrides.ClearSoundIff`).
- An amendment whose expiry falls in the second of the amendment is accepted and never in
  force (`Overrides.InForceAtOnce`); the same request as a creation is refused.
- `internal/api/ansible.go:241-246` argues termination from the strict cursor. The store
  reads an empty cursor as none, so it needs ids not to be empty when a page is one row
  (`Paging.EndsIff`).
- The idle slice of a division and storage held by no project both have the empty subject
  id, so `Occupancies.ApportionTo`, like the code, bills them under one key.

## Model

| member | source | states |
|---|---|---|
| Geometry.PolylinesCross | internal/diagram/measure.go:76-85 | The nested loop answers true exactly when some segment of one line passes the crossing test against some segment of the other; what the test means is the next rows. |
| Meeting.CrossShares | internal/diagram/measure.go:87-96 | Two segments that pass the test share a point, ends included. |
| Meeting.CrossIff | internal/diagram/measure.go:87-96 | For every two segments: the test holds if and only if they are not parallel, share a point, and any end on the line of the other segment has its own other end to the left of that line. |
| Meeting.PromiseKeptIff | internal/diagram/measure.go:87-96 | For every two segments the promise, counted if and only if the open segments share a point, is kept if and only if they are neither a touch of that kind (not parallel, some end on the line of the other) nor two segments overlapping on one line, which are never counted. |
| Meeting.HeadToTail | internal/diagram/measure.go:87-96 | Where one segment starts at the end of the other, the pair is counted if and only if the way on turns left. |
| Meeting.CommonEnd | internal/diagram/measure.go:87-96 | Two segments that start together or end together are never counted. |
| Meeting.Touching | internal/diagram/measure.go:87-96 | Two segments on either side of a height, touching it or not, are counted if and only if they join head to tail there with a left turn. |
| Meeting.SomeTouchesCount | internal/diagram/measure.go:87-96 | A pair that only touches is counted, and drawing one of its segments the other way round changes the answer. |
| TouchingLines.NoneCountedOneDrawn | internal/diagram/measure.go:87-96 | Such touches occur in layouts: two lines counted as crossing no counted stretches of which share an inside point, while the slot model counts none. |
| Geometry.SlabsApart | internal/diagram/measure.go:90-102 | Segments in strictly separated horizontal slabs never pass the test, in either argument order and direction. |
| Rails.RailsApart | internal/diagram/measure.go:90-102 | Two rails side by side, or one strictly inside and above the other, never cross. |
| Rails.RailsInterleaved | internal/diagram/measure.go:90-102 | Two rails whose spans interleave at different depths cross in exactly one pair of segments. |
| Rails.GutterLines | internal/diagram/measure.go:90-102 | Two straight lines between the same pair of rows cross if and only if their ends are in opposite order. |
| Rails.DropPiercesRail | internal/diagram/measure.go:90-102 | A line leaving strictly inside the span of a rail crosses it, also when it passes exactly through one of its corners, in every drawing direction. |
| Bands.SlotsInvert | internal/diagram/order.go:185-189 | pos is the inverse of bands if and only if every listed node has the slot it is listed at. |
| Ordering.State.Order | internal/diagram/order.go:67-97 | Over all twelve passes: every band stays a permutation of its seed, pos stays the inverse of bands, the subject ends at slot len/2, After is the recount of the ordering kept, which is the first of the thirteen candidates with the least score, so After never exceeds Before. What one step of a sweep does is the Sweeping rows. |
| Ordering.NothingToImprove | internal/diagram/order.go:67-97 | Without a subject, an ordering that starts without crossings is returned as it came. |
| Ordering.State.RunPass | internal/diagram/order.go:67-97 | One pass sweeps every band once, downwards on even passes and upwards on odd ones, in the flavour its pair of passes calls for. |
| Ordering.State.OrderBand | internal/diagram/order.go:107-148 | One band takes the order of one sweep step, described by `Sweeping.SweptOrder`; every other band is untouched and pos stays the inverse. |
| Ordering.State.BarycentreOf | internal/diagram/order.go:107-148 | The loop computes the mean normalised position of the voting neighbours, or the own position when none votes. |
| Ordering.State.KeysOf | internal/diagram/order.go:107-148 | Every node of the band is paired with its barycentre, in slot order. |
| Ordering.State.PinSubject | internal/diagram/order.go:170-182 | The subject is moved to slot len/2 and everything else keeps its relative order. |
| Ordering.PinKeeps | internal/diagram/order.go:170-182 | Pinning is a permutation and puts the subject in the middle slot. |
| Ordering.State.Reindex | internal/diagram/order.go:185-189 | Slots of one band are rewritten to list order; no slot of another band changes. |
| Ordering.State.CountCrossings | internal/diagram/order.go:206-216 | The pair loop counts exactly the crossing pairs of the slot model; what those are in the drawing is the Census rows. |
| Ordering.State.Restore | internal/diagram/order.go:296-301 | Restoring an ordering makes it current and re-establishes the inverse. |
| Ordering.SweptKeeps | internal/diagram/order.go:107-148 | Re-ordering a band permutes it, whatever the barycentres. |
| Ordering.SweptStable | internal/diagram/order.go:107-148 | Nodes with equal barycentres keep the order the band had, before the subject is pinned. |
| Sweeping.SweptOrder | internal/diagram/order.go:107-200 | From edges and slots alone, in all four flavours: of any two nodes of the band but the subject, the one whose heard neighbours (above on the way down, below on the way up, own band when it is heard) have the smaller mean place goes left, places being fractions of a row and a node without such neighbours standing for itself; of equal means, the one that was left stays left. |
| Sweeping.SweptUncrossed | internal/diagram/order.go:107-148 | Nodes with exactly one edge to the side heard, both to one band: after the step no two of these edges are in opposite slot order, downwards and upwards. |
| Sweeping.ForestUncrossed | internal/diagram/order.go:67-97 | If no edge stays in its band and no node has two edges to bands above, then without a subject the ordering kept, from any seed, has no crossing, and it is the seed or the first pass. |
| Sweeping.ForestDrawn | internal/diagram/order.go:67-97 | Such a forest, drawn from that ordering, has an objective of 0 and, when its edges join neighbouring bands, no crossing in the drawing. |
| Sorting.SortStable | internal/diagram/order.go:107-148 | The sort by which every sorted list is specified is stable: members that compare equal keep their order. |
| Ordering.CandidateCentred | internal/diagram/order.go:67-97 | Every ordering reached after any number of passes has the subject in the middle slot of its band. |
| ArcDepths.NextLevel | internal/diagram/geometry.go:489-551 | The level loop terminates, and what it assigns is the smallest level the two depth rules allow. |
| ArcDepths.BandLevels | internal/diagram/geometry.go:489-551 | Every arc of a band gets its greedy level. |
| ArcDepths.Depths | internal/diagram/geometry.go:489-551 | Every rail is at the depth of its greedy level in the shortest-span-first order of its band; every other edge is at 0. |
| ArcDepths.LevelBound | internal/diagram/geometry.go:489-551 | An arc is never deeper than its place in the sorted order. |
| ArcDepths.LevelsDistinct | internal/diagram/geometry.go:489-551 | Arcs whose open spans overlap never share a level. |
| ArcDepths.ContainerDeeper | internal/diagram/geometry.go:489-551 | A strict container is strictly deeper than everything it contains. |
| ArcDepths.DepthRules | internal/diagram/geometry.go:466-551 | The same two rules, of the depths of any two rails of a band in any graph. |
| RailPlan.DepthInPixels | internal/diagram/geometry.go:466-551 | A rail runs 14 pixels below its row or some multiple of 10 deeper: never at the depth of a rail it overlaps that is shorter, or as long and listed earlier, deeper than any such rail within its span, and no deeper than that: every smaller multiple is the depth of one of them, or above one within its span. |
| ArcAnchors.Collect | internal/diagram/geometry.go:332-387 | The two maps hold, per node and side, exactly the rail ends that hang there, in edge order. |
| ArcAnchors.Assign | internal/diagram/geometry.go:332-387 | One fan is written deepest first, stepping outwards, and no other rail end moves. |
| ArcAnchors.Anchors | internal/diagram/geometry.go:332-387 | Every rail end hangs where the fan of its node and side puts it, whatever order the maps are ranged over in. |
| ArcAnchors.AnchorRules | internal/diagram/geometry.go:332-387 | Each end hangs strictly beyond the centre on its own side, inside the edge padding, and a deeper rail hangs nearer the centre, for any number of rails on a node. |
| RailPlan.AnchorInPixels | internal/diagram/geometry.go:332-387 | The end of a rail is one step from the centre of its box for itself and one for each deeper rail leaving the box on that side; a step is 5 pixels, or what brings the last of them 6 short of the side where that is less. |
| ArcAnchors.FanSpread | internal/diagram/geometry.go:332-387 | The rays of a fan step strictly outwards and stay on the box however many there are. |
| Placement.Truncate | internal/diagram/geometry.go:133-145 | At most max characters; unchanged when short enough; otherwise the first max-1 and an ellipsis. |
| Placement.BoxWidth | internal/diagram/geometry.go:154-160 | A whole number of pixels, enough for label and caption with padding and less than one pixel more than the wider of them needs, but never below the minimum. |
| Placement.BandWidths | internal/diagram/geometry.go:178-265 | Row widths with gaps, and the widest of them as content width. |
| Placement.PlaceX | internal/diagram/geometry.go:178-265 | Every row is centred in the content width with exactly one gap between neighbours. |
| Placement.Lanes | internal/diagram/geometry.go:178-265 | Each lane is exactly as deep as its deepest rail needs, and zero without rails. |
| Placement.PlaceY | internal/diagram/geometry.go:178-265 | Rows, lanes and gutters stack down the page and every box stands at the top of its row. |
| Placement.ChannelX | internal/diagram/geometry.go:446-464 | The result is the first of the channels of the row (outside the left end, outside the right end, then the gaps) that none is nearer than to what was wanted. |
| Placement.Route | internal/diagram/geometry.go:399-428 | An edge passes every band between its ends through a nearest channel of that band, in order, upwards or downwards. |
| Placement.PlaceLines | internal/diagram/geometry.go:276-320 | Each same-band edge is a rail between its anchors; each other edge leaves the upper box at its bottom and meets the lower one at its top. |
| Placement.Place | internal/diagram/geometry.go:178-265 | The pass as a whole produces a layout in which all of the above hold together. |
| Pixels.BoxInPixels | internal/diagram/geometry.go:133-160 | A box is the least whole number of pixels that holds up to 22 characters of label at 7.13 and up to 14 of caption at 6.2 with 10 either side, at least 56 and never more than 177. |
| Pixels.RowInPixels | internal/diagram/geometry.go:178-215 | In every placed layout the boxes of a row are 38 high and 20 apart, and the row is centred inside margins of 24. |
| Pixels.StackInPixels | internal/diagram/geometry.go:238-261 | Rows, lanes and gutters of 72 stack between margins of 20. |
| Pixels.LaneInPixels | internal/diagram/geometry.go:216-226 | A lane is 8 pixels deeper than the deepest rail of its band, or nothing. |
| Pixels.CanvasInPixels | internal/diagram/geometry.go:178-230 | Some row reaches both margins, so the canvas is no wider than it has to be. |
| Pixels.GapInPixels | internal/diagram/geometry.go:399-464 | Where an edge passes a band it turns 9 pixels outside the row and runs straight through a gap of it (10 outside either end, or halfway between neighbours), no gap lying nearer to where a straight line between its ends would be halfway down the boxes. |
| Layouts.SlotOrderIsXOrder | internal/diagram/geometry.go:178-265 | Within a band, slot order is x order with a full gap between boxes. |
| Layouts.BandsTopDown | internal/diagram/geometry.go:178-265 | Bands stack without overlap, lane and gutter included. |
| Clearance.BoxesDisjoint | internal/diagram/geometry.go:162-265 | No point is inside two boxes. |
| Clearance.BoxOnCanvas | internal/diagram/geometry.go:178-265 | Every box, and the lane below it, lies inside the margins of the canvas. |
| Clearance.EdgeClear | internal/diagram/geometry.go:162-464 | No point of any segment of any edge (rail, gutter line, or route through channels in either direction) is inside any box. |
| Clearance.EdgeOnCanvas | internal/diagram/geometry.go:178-320 | Every point of every edge lies on the Width by Height canvas. |
| Clearance.ChannelMissesRow | internal/diagram/geometry.go:438-464 | A channel of a row touches no box of the row and stays within half a gap of the margins. |
| Clearance.RailWithinLane | internal/diagram/geometry.go:276-320 | A rail is drawn at the bottom of its own band and stays inside the lane of that band. |
| Clearance.AnchorOnBox | internal/diagram/geometry.go:322-387 | Both ends of a rail are strictly inside the bottom edge of their boxes, on the side facing the other end. |
| DrawnCrossings.RailsCrossIffInterleaved | internal/diagram/geometry.go:466-551 | Two rails of a band are drawn crossing if and only if their slot intervals strictly interleave, and then exactly once; so rails that share a box (nested, abutting or parallel) never cross, whatever the degree of a hub. |
| Descents.SameWay | internal/diagram/measure.go:76-102 | Two lines bending at the same heights and drawn the same way are counted if and only if they swap sides strictly between two heights or share a bend through which one leads into the other by a left turn. |
| Descents.OppositeWays | internal/diagram/measure.go:76-102 | Drawn opposite ways, they are counted if and only if one is to the right of the other at some height and not at another. |
| BandPairs.NeighboursCrossIffInverted | internal/diagram/order.go:266-270 | Two edges between the same neighbouring bands that share no node are drawn crossing if and only if their ends are in opposite slot order. |
| Census.SameBandsCensus | internal/diagram/diagram.go:223-234 | Any two edges joining the same two bands, at any distance and in either order, that share no node: drawn crossing if and only if counted by the slot model and not merged, or touching: keeping their order and sharing a bend the census counts. |
| BandPairs.NoSharedChannel | internal/diagram/diagram.go:223-234 | They are drawn crossing whenever they share no channel. |
| BandPairs.SameBandsDrawnIff | internal/diagram/diagram.go:223-234 | The same in coordinates, for the distances three layers can have. Neighbouring bands, or past different channels: drawn crossing if and only if inverted. Past one channel: drawn the same way, if and only if one of the four ends lies to the left of it going down, or to the right going up; drawn opposite ways, if and only if inverted or the right edge goes down. |
| BandPairs.SameOrderDrawnIff | internal/diagram/diagram.go:223-234 | Two such edges in the same order at both bands never swap sides on the way, at any distance, and are counted if and only if they share a bend that turns left (drawn the same way), or share one and the right edge goes down (drawn opposite ways). |
| BandPairs.KeptOrderOnlyTouches | internal/diagram/measure.go:87-96 | Wherever such a pair is counted, the two stretches share no point but a common end. |
| DrawnCrossings.DropInsideRailCrosses | internal/diagram/order.go:219-270 | An edge leaving a band downwards from strictly inside the span of a rail is drawn crossing that rail, however many bands it goes down. |
| Census.DropCountedIff | internal/diagram/order.go:219-249 | A rail and a line leaving its band downwards from a box that is neither end of the rail are counted, in either order, if and only if the centre of that box lies strictly between the centres of the two boxes of the rail. |
| Drops.DropDrawnIff | internal/diagram/measure.go:24-33 | In every layout such a pair is drawn crossing, in either order, if and only if the box is between the two in that sense, or the line clips the rail: leaves from beyond one end of it and is past the leg of the rail on that side by the time it is as deep as the rail, or exactly at that leg and drawn upwards on the left, downwards on the right. |
| DrawnCrossings.DifferentBandsApart | internal/diagram/measure.go:42-59 | Edges hanging below different bands are never drawn crossing. |
| Census.SlotCrossingDrawnIff | internal/diagram/diagram.go:223-234 | In every layout, a pair the slot model counts is drawn crossing if and only if it is not two merged edges. |
| Census.DrawnCrossingIsCounted | internal/diagram/order.go:206-270 | Of any two edges that skip no band and are not a rail and a line leaving its band downwards, a drawn crossing is counted, whatever else is in the drawing. |
| Census.DrawnUncounted | internal/diagram/measure.go:24-33 | So what is drawn and not counted is a rail and a line that clips it from beyond its ends, a pair touching down one channel, or a pair with an edge that skips a band while the other does not join the same two. |
| Census.NearCensus | internal/diagram/measure.go:24-33 | For any two edges of which neither skips a band, whatever they are: drawn crossing without a node in common if and only if counted by the slot model, or a rail and a line that clips it. |
| Census.AdjacentCensus | internal/diagram/measure.go:17-59 | So where no edge skips a band the census is the objective plus the clipped rails, to the pair. |
| Census.ObjectiveAgainstCensus | internal/diagram/measure.go:17-59 | In every layout the objective plus the drawn and uncounted pairs equals the census plus the merged pairs; without edges that skip a band nothing is merged, and when besides no line drops beside a rail nothing is drawn uncounted, so that the two are equal. |
| Census.CountDrawn | internal/diagram/measure.go:42-59 | The census counts exactly the pairs that share no node and whose lines cross. |
| WideBand.OneCountedNoneDrawn | internal/diagram/diagram.go:223-234 | The claim of agreement fails: five nodes and four edges past one wide box, in any order of the bands, give an objective of 1 and a census of 0. |
| WideBand.BuildWide | internal/diagram/diagram.go:292-299 | The same input from end to end: After is 1 and the drawing has no crossing. |
| TouchingLines.BuildTouch | internal/diagram/diagram.go:292-299 | From end to end, the other way about: nine nodes and two edges in the same order at both bands give Before and After 0 and a census of 1. |
| GutterCrossing.NoneCountedOneCrosses | internal/diagram/measure.go:24-33 | A crossing outside the declared gaps: an edge past a band crosses an edge between neighbouring bands in the gutter, drawn once and counted never. |
| GutterCrossing.BuildGutter | internal/diagram/diagram.go:292-299 | That input from end to end: Before and After 0 and a census of 1. |
| Diagram.IndexNodes | internal/diagram/diagram.go:304-379 | Accepts exactly node lists with distinct non-empty ids, names and known layers, and finds each node at its place. |
| Diagram.ResolveEdges | internal/diagram/diagram.go:304-379 | Accepts exactly edges between two different known nodes on a known layer; ends and adjacency are those of the edges, in edge order. |
| Diagram.NewState | internal/diagram/diagram.go:304-379 | Accepts exactly the acceptable inputs and represents them. |
| Diagram.GroupIntoBands | internal/diagram/diagram.go:400-419 | Bands are the non-empty layers from the top down, each listing its nodes in input order, with bandOf and pos matching. |
| Diagram.Build | internal/diagram/diagram.go:292-299 | End to end: accepts exactly the acceptable inputs, and then the layout is placed as promised in at most three bands, draws the input with bands only permuted, keeps the subject centred, reports Before of the seed and After as the recount of the drawing, keeps the first of the thirteen candidates with the least count, and After plus the pairs drawn uncounted equals the drawn census plus the merged pairs: without edges that skip a band After plus the clipped rails is the census, and when besides no line drops beside a rail the two are equal. |
| Addresses.CompareIsNumeric | internal/domain/ipaddr.go:26-48 | At equal width, byte-lexicographic order is numeric order and equal numbers are equal bytes. |
| Addresses.CompareIsOrder | internal/domain/prefix_tree.go:110-151 | Byte comparison is a total order on strings of any lengths. |
| Addresses.BitNumIsNum | internal/domain/ipaddr.go:109-117 | The number read bit by bit is the number read byte by byte. |
| Addresses.Broadcast | internal/domain/ipaddr.go:109-117 | The bit loop sets exactly the host bits and changes no other. |
| Addresses.PrefixBounds | internal/domain/ipaddr.go:74-117 | On a masked start, End = Start + 2^(width-bits) - 1 and Start is a multiple of that power. |
| Addresses.NestedOrDisjoint | internal/domain/prefix_tree.go:189-208 | Aligned power-of-two ranges are nested or disjoint. |
| FreeAddress.NewPrefixValue | internal/domain/ipaddr.go:74-105 | The stored bounds of a masked network span exactly 2^(width-bits) addresses. |
| FreeAddress.SomethingToOffer | internal/domain/iprange.go:129-188 | The usable range is never empty: an IPv4 prefix of up to 30 bits has addresses strictly between its first and last, so the branch for an empty range is dead for every valid prefix. |
| FreeAddress.ToBytes | internal/domain/iprange.go:191-207 | The fixed-width form stands for the number it was made from. |
| FreeAddress.FirstFreeAddress | internal/domain/iprange.go:129-188 | For any unsorted, overlapping, mixed-width list of spans, also inverted ones. IPv4 of up to 30 bits: none if and only if every address strictly between the first and the last is covered; otherwise the result is strictly between them, covered by nothing, and everything between the first and it is covered. IPv6, /31 and /32: the same with both ends usable. |
| PrefixTree.ContainsIsRange | internal/domain/prefix_tree.go:195-208 | The test on stored bytes is strict containment of address ranges within one VRF and family. |
| PrefixTree.Laminar | internal/domain/prefix_tree.go:189-208 | Two prefixes of one VRF and family are nested or disjoint. |
| PrefixTree.ContainerFirst | internal/domain/prefix_tree.go:110-151 | In the sort order a container precedes what it contains. |
| PrefixTree.BlockAfter | internal/domain/prefix_tree.go:110-151 | The descendants of an entry are the block right after it. |
| PrefixTree.ContainersNest | internal/domain/prefix_tree.go:110-151 | The strict containers of one entry form a chain in list order. |
| PrefixTree.PopTo | internal/domain/prefix_tree.go:110-151 | What is left after popping is exactly the strict containers of the entry, outermost first. |
| PrefixTree.Resolve | internal/domain/prefix_tree.go:110-151 | The stack pass gives every entry its narrowest strict container as parent (none if and only if there is none) and the number of strict containers as depth. |
| PrefixAccounting.FindBefore | internal/domain/prefix_tree.go:153-187 | The backward search finds the parent row. |
| PrefixAccounting.HandUp | internal/domain/prefix_tree.go:153-187 | Each row ends with the sizes, counts and number of its direct children handed up. |
| PrefixAccounting.BuildPrefixTree | internal/domain/prefix_tree.go:110-187 | The output is the input in tree order with parent, depth, children, size, direct addresses and allocation of every row as the two passes define them. |
| PrefixRows.RowsArePrefixes | internal/domain/prefix_tree.go:110-187 | Every prefix has exactly one row. |
| PrefixRows.RowPlace | internal/domain/prefix_tree.go:110-208 | Of the rows alone: the depth of a row is the number of rows of its VRF and family whose range strictly contains its own; it has no parent if and only if there is none; otherwise its parent comes before it and is the one of them that every other contains. |
| PrefixRows.RowFigures | internal/domain/prefix_tree.go:110-187 | Children is the number of rows naming it as parent; Size the span of its range; Addresses its count less theirs, never below zero; Allocated the addresses they span and its own. |
| PrefixRows.RowOrder | internal/domain/prefix_tree.go:110-130 | Rows come VRF by VRF with the global table first, IPv4 before IPv6, by first address, the wider range first. |
| PrefixMeaning.SizeIsRange | internal/domain/prefix_tree.go:83-97 | PrefixSize is the number of addresses in the range. |
| PrefixMeaning.SiblingsDisjoint | internal/domain/prefix_tree.go:110-151 | Children of one parent share no address. |
| PrefixMeaning.RowCounts | internal/domain/prefix_tree.go:153-187 | If the counts come from one set of assigned addresses, Addresses is exactly the number in no child, the clamp at zero never acts, and Allocated is the number of addresses inside a child or assigned. |
| PrefixMeaning.FullMeansFull | internal/domain/prefix_tree.go:78-80 | Allocated never exceeds Size, and IsFull holds if and only if every address is inside a child or assigned. |
| PrefixMeaning.SubtreeConserves | internal/domain/prefix_tree.go:153-187 | Direct counts over a subtree sum to the count of its root. |
| PrefixMeaning.OffersNothingIff | internal/domain/iprange.go:103-188 | With children and assigned addresses taken, FirstFreeAddress finds none if and only if every address on offer (all but the two ends for IPv4 of up to 30 bits) is spoken for: always when IsFull, and only then for IPv6, /31 and /32. |
| Apportionment.Apportion | internal/domain/attribution.go:237-267 | With weights summing to the denominator: parts sum to exactly the total, each is the floor or ceiling of its quota, ceilings go to the larger remainders and ties to the earlier index; a denominator of zero or less gives zeros. The leftover loop never runs out of candidates. |
| Apportionment.LeftoverFits | internal/domain/attribution.go:237-267 | There are fewer leftover units than positive remainders, so no unit reaches a zero remainder. |
| Apportionment.ZeroGetsNothing | internal/domain/attribution.go:237-267 | A zero weight gets exactly zero. |
| Apportionment.LargerGetsNoLess | internal/domain/attribution.go:237-267 | A larger weight never gets less than a smaller one. |
| FairShares.PartNearShare | internal/domain/attribution.go:237-267 | Every part is less than one unit away from its exact share. |
| FairShares.CloserRoundsUp | internal/domain/attribution.go:237-267 | Nobody is rounded down whose exact share reaches further above its whole units than that of somebody rounded up. |
| FairShares.EqualWeights | internal/domain/attribution.go:237-267 | Of two equal weights the earlier gets as much as the later or one unit more. |
| Attribution.Divide | internal/domain/attribution.go:118-169 | Denominator is the larger of sellable and claimed; shares are the drawing claims with their largest-remainder basis points, largest first and ties by name; idle gets the rest. |
| Attribution.SlicesSum | internal/domain/attribution.go:100-169 | For every positive denominator the basis points over Total sum to exactly 10000 and the amounts to the denominator, although shares are re-sorted and an empty idle slice is dropped. |
| FairShares.SharesAreClaims | internal/domain/attribution.go:118-169 | Exactly the claims that draw anything have a share, each as often as it was made and for what it draws. |
| FairShares.SharesRead | internal/domain/attribution.go:118-169 | Shares come largest first and by name among equals, idle is what nobody claimed, and every slice, idle included, shows its exact proportion to less than a hundredth of a percent. |
| Attribution.ApportionMinor | internal/domain/attribution.go:209-220 | The bill is split by largest remainder, parallel to Total, and sums to exactly the bill; nothing is billed when there is nothing to divide. |
| FairShares.BillsNear | internal/domain/attribution.go:209-220 | Every slice is billed its exact proportion to less than one minor unit, the idle slice unless it is empty beside others. |
| Attribution.DivideEqually | internal/domain/attribution.go:184-198 | Per head: the division of what is drawn, with nothing idle. |
| Occupancies.SharesSum | internal/domain/occupancy.go:104-118 | Declared shares and slack always make up the denominator. |
| Occupancies.Split | internal/domain/occupancy.go:85-118 | The parts of a quantity are the largest-remainder parts added up per project, the part of the slack going to nobody. |
| Occupancies.SplitAccounts | internal/domain/occupancy.go:85-132 | Never more than the whole is attributed; all of it when declared shares reach 100; otherwise all but exactly the part of the slack. |
| FairShares.SplitNear | internal/domain/occupancy.go:85-132 | A project named once gets its declared percentage, out of a hundred or of what was declared if that is more, to less than one unit. |
| Occupancies.Ledger.Add | internal/domain/storage.go:135-172 | One project gains exactly what was added, and is listed last if it is new. |
| Occupancies.Ledger.AddAll | internal/domain/storage.go:135-172 | A split is added in full whatever order its map is ranged over in. |
| Occupancies.SpreadKeeps | internal/domain/storage.go:135-172 | Spreading one claim loses and invents no gigabyte. |
| Occupancies.StorageClaims | internal/domain/storage.go:135-172 | One claim for each project the storage claims put anything under and no other, for exactly what they put there, in the order they first did, and the total gigabytes conserved. |
| FairShares.HeldByOwner | internal/domain/storage.go:135-172 | Where no machine is shared, a project is claimed exactly the gigabytes of the machines it owns. |
| FairShares.SharedMachine | internal/domain/storage.go:135-172 | What a shared machine holds is claimed by its occupants, each for its split, and the rest by nobody: no other project is claimed any of it, and nothing is lost. |
| Occupancies.PoolAttribution | internal/store/attribution.go:93-109 | The division of a pool is over exactly those claims, and what it reports as claimed is every gigabyte claimed. |
| Occupancies.ApportionTo | internal/store/cost_attribution.go:330-340 | The part of every slice goes to the subject of that slice, and the whole bill is accounted for. |
| Availability.Evaluate | internal/domain/service.go:290-393 | The loops compute the verdict of each of the five policies (and of an unknown one) as stated of the instances; what the verdict asks of them is the next rows. |
| Availability.WholeOrGone | internal/domain/service.go:290-312 | Under every policy a service with nothing lost, or without instances, is ok and one with nothing left is down; in between a standalone service is ok and one of unknown policy degraded. |
| Availability.ActiveActiveThreshold | internal/domain/service.go:324-332 | With some but not all alive, active-active is ok if and only if at least the configured positive minimum is alive, degraded otherwise; without such a minimum any survivor will do. |
| Availability.QuorumIsMajority | internal/domain/service.go:317-322 | A quorum service is ok if and only if more than half of its instances are alive, and down otherwise. |
| Availability.QuorumsMeet | internal/domain/service.go:317-322 | No split brain: of two sets of survivors of one quorum service that are both ok, some instance is in both. |
| Availability.ActivePassiveRoles | internal/domain/service.go:334-365 | Active-passive with some but not all alive: ok if and only if a primary is alive, or there is one and a standby is alive under automatic failover; down if and only if there is a primary and neither a primary nor a standby is alive. |
| Availability.ShardedServed | internal/domain/service.go:367-391 | A sharded service is ok if and only if every instance has a live one under the same shard name (the role where none is given), and down only when nothing is left. |
| Availability.AnyShardLost | internal/domain/service.go:290-393 | The per-shard counters find a lost shard if and only if some shard has no survivor. |
| Availability.OrderIrrelevant | internal/domain/service.go:290-393 | The verdict depends only on the multiset of instances. |
| Availability.LossNeverHelps | internal/domain/service.go:290-393 | More dead instances never improve the verdict, under every policy. |
| Impact.ComputeRouteStatus | internal/impact/engine.go:685-750 | The tallying loop gives a route the worse of its frontend and its pool: down when every member is, fine when every member is, degraded otherwise. |
| Impact.PropagateMonotone | internal/domain/dependency.go:187-225 | The nature table is monotone in what the consumer sees of the provider and in the length of the outage, the restart flag included. |
| Impact.EffectMonotone | internal/impact/engine.go:499-663 | So is the effect of a whole dependency, through endpoints, routes, pools and network reach. |
| Rounds.RunRound | internal/impact/engine.go:499-604 | One round is every dependency in list order, endpoints as they stand and routes as they stood when the round began. |
| Rounds.PhasePropagate | internal/impact/engine.go:499-604 | The loop returns the state after the number of rounds it reports, having stopped because a round changed nothing or at the cap of twenty; either way that is the state after twenty rounds, and with at most twenty services the statuses are the least stable ones. |
| Outages.DownWhen | internal/domain/dependency.go:187-203 | In a settled report, of the estate and the reported statuses alone: a service is down if and only if it started down or has a live hard dependency on something seen down (a service down, a path severed, a route whose frontend is down or all of whose backends are). |
| Outages.HurtWhen | internal/domain/dependency.go:187-225 | It is short of ok if and only if it started so, or has a live dependency that is hard on something hurt, soft on something down, or async on something down for longer than its tolerance; startup and optional dependencies change no status. |
| Outages.WontRestartWhen | internal/domain/dependency.go:213-220 | It is on the restart list if and only if it has a live startup dependency on something seen down. |
| Outages.ReportSettled | internal/impact/engine.go:19-23 | Every estate of up to twenty services is reported in this sense settled. |
| Outages.RouteMeans | internal/impact/engine.go:685-750 | A route is down if and only if its frontend is down, or it has backends in the graph and each is down or cut off; it is short of ok if and only if its frontend is (also when the service of the frontend is missing) or some backend is hurt. |
| Rounds.LeastExactlyOne | README.md:221-224 | Exactly one assignment above the capacity verdicts is stable and least, and it is where the rounds stand after one per service: a meaning free of edge order. |
| Rounds.StableIsLeast | README.md:221-224 | Whenever the rounds have settled, they have settled on it. |
| Rounds.SettledAfterServices | internal/impact/engine.go:19-23 | Statuses are final after at most as many rounds as there are services, cycles and routes included. |
| Rounds.DownFromDowns | internal/impact/engine.go:499-663 | Whether a dependency takes its consumer down depends only on what is down: degradation never turns into an outage. |
| AnyOrder.RaisesBounded | README.md:221-224 | Merging dependencies one at a time in any order changes statuses at most twice per service, however long the run. |
| AnyOrder.AnyOrderSameEnd | README.md:221-224 | A run in any order has nothing left to change if and only if it stands exactly where one round per service ends, which is what is reported when there are at most twenty services. |
| AnyOrder.ListOrderIrrelevant | internal/impact/engine.go:499-604 | Once there have been as many rounds as services, statuses do not depend on how the dependencies are listed or repeated. |
| AnyOrder.ReportIgnoresOrderIff | internal/impact/engine.go:499-604 | The reported statuses of every estate of n services are independent of how its dependencies are listed if and only if n is at most twenty. |
| ImpactTheorems.WorseInWorseOut | README.md:221-224 | A worse start or a longer window never improves any service. |
| ImpactTheorems.WorseInWorseAfter | internal/impact/engine.go:499-604 | Nor, after any number of rounds, settled or not, does it improve any status. |
| ImpactTheorems.MoreLossNeverHelps | internal/impact/engine.go:391-443 | Taking more instances away, for longer, never improves what is reported of any service, whatever the size of the estate. |
| ImpactTheorems.CapSufficesIff | internal/impact/engine.go:19-23 | Twenty rounds are right for every estate of n services if and only if n is at most twenty. |
| ImpactTheorems.ChainOutrunsCap | internal/impact/engine.go:19-23 | For every number of services above twenty there is a chain that is reported with one of them ok while the service it has a hard dependency on is reported down. |
| ImpactTheorems.StopsOnItsOwn | internal/impact/engine.go:19-23 | Left to itself the loop stops: after one round per service and one more nothing changes, the restart list included. |
| ImpactTheorems.NeedsOneMore | internal/impact/engine.go:19-23 | That bound is attained for every number of services: in a chain with one startup dependency the round after one per service still changes the report. |
| ImpactTheorems.ReportExplains | internal/impact/engine.go:499-604 | Once a round has changed nothing, a service has a via if and only if it is worse than its own capacity made it, that dependency accounts for exactly the status shown, and the restart list is exactly the services with an unmet startup dependency. |
| ImpactTheorems.FineStaysFineIff | internal/impact/engine.go:636-750 | An estate in which nothing is wrong is reported fine if and only if no live hard dependency goes through a route whose frontend belongs to a service missing from the graph. |
| ImpactTheorems.StaleFrontendDegrades | internal/impact/engine.go:685-750 | The smallest such case. |
| Paging.PageSize | internal/api/ansible.go:229-234 | Every configured value gives a size the store honours unchanged. |
| Paging.Query | internal/store/api.go:291-335 | A query answers exactly the visible rows past the cursor, strictly ascending by id. |
| Paging.Resumes | internal/store/api.go:291-335 | Asking past the m-th row gives exactly the remaining rows. |
| Paging.FetchAllAssets | internal/api/ansible.go:251-290 | For every configured page size and every estate, also when the row count is an exact multiple of the page: each visible row exactly once in id order, or a failure, which happens if and only if the scope is empty or a trip that takes place fails; never a part of the rows. |
| Paging.EndsIff | internal/api/ansible.go:236-290 | The loop ends if and only if it cannot be handed the empty id as cursor: a page of one row whose id is empty. |
| Paging.LiveFetch | internal/api/ansible.go:236-290 | If rows come and go between trips, still no id is answered twice, nothing is answered that was not visible at some trip, and an id visible throughout is not missed. |
| Overrides.NewHealthOverride | internal/domain/observed.go:683-734 | Accepts exactly the creatable requests (spelt out in the next row) and then holds the request with reason and author trimmed, active, stamped with the time of creation and its expiry in whole seconds. |
| Overrides.CreatedWhen | internal/domain/observed.go:683-734 | A request is creatable if and only if its author is a user, author, reason and entity are filled in, state and entity type are among the known words, and its expiry is not zero, later than now by at most 86 400 000 000 000 nanoseconds, and in a later second. |
| Overrides.AmendedWhen | internal/domain/observed.go:750-795 | A stored row is amendable if and only if a user asks, the row is active, the reason is filled in, the state is known, and the new expiry is within the same ceiling from now and in a later second than the creation. |
| Overrides.TrimCuts | internal/domain/observed.go:817-871 | Trimming takes off white space only, and all of it at either end. |
| Overrides.HealthOverride.Amend | internal/domain/observed.go:750-795 | Accepts exactly the amendable requests and then changes state, reason, expiry and update time, to the values asked for and now in whole seconds; a refusal changes nothing. |
| Overrides.HealthOverride.Clear | internal/domain/observed.go:800-813 | Only an operator, only an active override; changes lifecycle and update time. |
| Overrides.HealthOverride.Validate | internal/domain/observed.go:817-871 | Accepts exactly sound rows and leaves the reason trimmed either way. |
| Overrides.RoundingKeepsTheDay | internal/domain/observed.go:817-871 | Rounding both ends down to the second never stretches an accepted period past 86 400 seconds. |
| Overrides.FreshIsSound | internal/domain/observed.go:683-734 | The 24-hour ceiling of the row check never refuses what creation accepted before rounding. |
| Overrides.AmendedIsSound | internal/domain/observed.go:750-795 | Nor what an amendment accepted, whatever the clock read at creation or at earlier amendments. |
| Overrides.NeverUnattended | internal/domain/observed.go:638-641 | Over every run of creations, amendments and clears with any clock values: an override in force at t has t less than 86 400 000 000 000 nanoseconds after its last decision, and no entity has two overrides in force. |
| Overrides.RunPreserves | internal/domain/observed.go:736-813 | Over every run, entity, author and creation time never change, and a cleared override never changes at all. |
| Overrides.StepKeeps | internal/store/overrides.go:195-296 | Creating supersedes a lapsed override and fails over one in force, so every step keeps at most one active override per entity and every row bounded by its last decision. |
| Overrides.CreationOutcome | internal/store/overrides.go:195-296 | A creation takes effect if and only if it was acceptable, its entity is known, its id is new and no override of the entity is in force; then no other active override of that entity is left and no other row changes. |
| Overrides.ClearSoundIff | internal/domain/observed.go:800-871 | Clearing leaves a row that passes its own check if and only if the clock reads no earlier than 24 hours before the expiry, or the row was created no earlier than that. |
| Overrides.StepSoundIff | internal/domain/observed.go:736-871 | Over every run, a row that passed stops passing if and only if it is cleared by a clock that reads earlier than that: creations, amendments and superseding never cause it. |
| Overrides.ClearedInOrder | internal/domain/observed.go:800-871 | Clearing at or after the last decision always leaves a row that passes. |
| Overrides.SlowClockClear | internal/domain/observed.go:800-871 | A run whose last row fails it: cleared by a clock set back by more than a day. |
| Overrides.SameVerdict | internal/domain/observed.go:683-795 | Creation and amendment agree on the same request once the clock has reached the creation time, except within one second. |
| Overrides.InForceAtOnce | internal/domain/observed.go:683-795 | A new override is in force at once; an amended one if and only if its expiry is in a later second than the amendment. |
| DecimalNumber.IsDecimalNumber | internal/domain/customfield.go:338-382 | Accepts a string if and only if it is derivable from the valid floating-point number grammar, for strings of every length. |
| DecimalNumber.AsDocumented | internal/domain/customfield.go:307-337 | The strings the comment of the code turns on: .5 and 1e3 are numbers; 5. and +5, Infinity and 0x1p4 are not. |
| DecimalNumber.CutsAgree | internal/domain/customfield.go:338-382 | Any derivation cuts the string exactly where the scanner does. |
| DecimalNumber.Unambiguous | internal/domain/customfield.go:307-337 | No string has two derivations. |

## Left out

- HTTP handlers, JSON, authentication, SQL text and migrations: wiring with no hard property; the store appears only through the contracts its queries state.
- Floating-point rounding: geometry and barycentres are over `real`, so equalities that hold only up to rounding in the code hold exactly here.
- Fixed-width integers: `int` and `int64` overflow in the apportionment and page arithmetic is not modelled; `apportion` and `apportionMinor`, and `Split` and `SplitMinor`, differ only in width and share one model each.
- Apportionment.Apportion: requires weights that sum to the denominator and non-negative amounts, as its callers supply them; the code does not check it.
- Census.DrawnUncounted: does not say which edges a skipping edge meets on its way when the two do not join the same bands; that depends on every box between.
- BandPairs.SameBandsDrawnIff: is in coordinates for edges that skip at most one band, the most three layers allow; `Census.SameBandsCensus` covers longer ones through the bends they share.
- Placement.PlaceLines: the numbering of parallel edges, and how a renderer offsets them, because it moves no point of the layout.
- Sorting in place: Go's sorts appear as one stable insertion sort on sequences, so aliasing and unstable orders are not captured; every comparison used has a tie-break or needs stability.
- Address text: parsing, IPv4-mapped forms, zones, masking of host bits and rendering back to text; the model starts from a family, masked bytes and a length, and returns bytes.
- PrefixAccounting.BuildPrefixTree: requires valid prefixes with distinct ids and distinct ranges per VRF and family, which the store's keys give; percentages for display are left out.
- `IPRange.SetBounds` and `Size`, `Status.Better`, `UsableGB` (a pool's usable size is a parameter), `Oversubscribed`, `FreeGB`, inflation ratios, labels, units and reasons: easy members.
- Reachability, cluster findings, structure findings, shutdown order, cycle reports and the wording of reasons: the engine's other phases; the network's verdicts enter as parameters of each dependency and pool member, and the route status without them, which only words a reason, is dropped.
- Overrides: timestamps are compared as numbers, which is their order as text for years 0000 to 9999 only; change-log rows and the lookup of the overridden entity are left out, the latter as a flag.
- Paging.FetchAllAssets: requires that no page of one row can end on an empty id (see `Paging.EndsIff`) and a table that does not change between trips; `Paging.LiveFetch` states what holds when it does.
- DecimalNumber.IsDecimalNumber: works on characters where the code works on bytes; no byte of a multi-byte character is one the scanner accepts.
- Entity constructors, other `Validate` methods, classification tables, costs, power, racks and certificates: independent checks and static data.
