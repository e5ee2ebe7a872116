# Placement evaluator — a verified model

This project models the circuit evaluator of an ICCAD-style placement flow
(`project/evaluate.cpp`). After a placer has moved the standard cells, the
evaluator measures the placement:

- **pin locations** (`update_pinlocs`): every pin is moved to its owner
  cell's position plus its offset. A fixed or unowned pin is moved by its
  offset from where it already is.
- **displacement** (`measure_displacement`): the largest Manhattan move of
  a movable cell, in microns.
- **half-perimeter wirelength** (`measure_HPWL`): the sum over nets of the
  bounding box's width and height.
- **Steiner routing** (`build_steiner`):
  - A two-pin net becomes one wire segment.
  - A larger net is routed along a rectilinear Steiner tree. Tree corners
    that are not pins are named `sp_<n>`.
  - Stacked pins are connected through a substitute sink.
- **wire slicing** (`slice_longwires`): every segment longer than the
  threshold is cut into equal pieces named `<end1>_<end2>_<j>`.
- **the timer netlist** (`measure_timing`, steps 0–4):
  - declarations, driver and cell instances;
  - half of each segment's wire capacitance lumped onto each of its ends;
  - one resistor per segment, with capacitance lines written once per node;
  - the clock, arrival, slew and required-time constraints.
- **reading the timer's report back** (`measure_timing`, step 6): each pin's
  early and late slack, then the worst and total negative slack over the
  timing endpoints.
- **ABU density** (`measure_ABU`):
  - a grid of bins over the chip;
  - free space from the rows, fixed and movable area from the cells;
  - each bin's utilisation, and the mean of the top 1/2/5/10/20 % of bins;
  - the overflow over the target and the weighted penalty.

Modules:

| module | covers |
|---|---|
| `Model` | the entities as values |
| `PinLocs` | pin relocation |
| `Metrics` | displacement and HPWL |
| `Steiner` | tree routing |
| `Slicer` | slicing long wires |
| `Netlist` | the timer netlist as a list of lines |
| `Timing` | report reading and WNS/TNS |
| `Density` | bins, utilisation and ABU |
| `Evaluate` | the whole circuit |

The circuit is `Evaluate.Circuit`, a class whose fields the measurement
methods update in place, as the source's `circuit` object does.

The Steiner trees are not computed here. The FLUTE library is a foreign call,
so each multi-pin net's tree is a parameter (`Steiner.Tree`).

The timer is an external program, so its report is a parameter: `None` when
the file cannot be opened, otherwise a `Timing.Report`: the sequence of
whitespace-separated tokens and whether whitespace follows the last of them.
The flag matters because a read that ends the file sets the end-of-file flag
that stops the reading loop at evaluate.cpp:179. The netlist is produced as a sequence of structured `Netlist.Line`
values rather than text.

The compile-time constants of the evaluator are fields of `Model.Tech`. These
include database units per micron, wire resistance and capacitance per micron,
the slicing length, the name-length and tap limits, the density thresholds and
the ABU weights. evaluate.h is not part of this model.

Doubles are modelled as exact reals.

## Model

| member | source | states |
|---|---|---|
| Model.Manhattan | project/evaluate.cpp:257-258 | The Manhattan distance is non-negative, zero exactly when the two points coincide, and at least each coordinate's distance. |
| Model.Clamp | project/evaluate.cpp:275-276 | `(unsigned)max(v, 0.0)`: 0 for a non-positive coordinate, otherwise its integer part. |
| Model.DriverName | project/evaluate.cpp:261-264 | The driver node's name extends the pin's name, and differs from it exactly for a primary input that is not the clock port (the `_drvout` node). |
| Model.NatToString | project/evaluate.cpp:311 | `to_string` of a counter: a non-empty string of decimal digits, of one digit exactly for values below 10. |
| Model.NatToStringInjective | project/evaluate.cpp:311 | Different counters give different decimal strings, so every `sp_<n>` name stands for one counter value. |
| PinLocs.Relocate | project/evaluate.cpp:221-233 | Relocating a pin changes only its coordinates. |
| PinLocs.RelocateAll | project/evaluate.cpp:219-235 | Every pin is relocated and keeps every other field, and owners stay in range. |
| PinLocs.RepeatedPasses | project/evaluate.cpp:223-231 | After n calls, a fixed or unowned pin has moved by n times its offset, and an owned movable pin sits at its owner's position plus its offset (n ≥ 1). |
| PinLocs.RelocateTimesKeeps | project/evaluate.cpp:221-233 | Any number of calls changes nothing but the pins' coordinates. |
| PinLocs.SecondPassShiftsFixedPins | project/evaluate.cpp:223-231 | A second call moves a fixed or unowned pin by its offset once more, and leaves an owned movable pin where the first call put it. |
| Evaluate.Circuit.UpdatePinLocs | project/evaluate.cpp:219-235 | The circuit's pins become the relocated pins, and the circuit stays well formed. |
| Metrics.MaxDisplacement | project/evaluate.cpp:416-419 | The result is non-negative and at least every movable cell's Manhattan displacement. It is either 0 or the displacement of some movable cell. |
| Evaluate.Circuit.MeasureDisplacement | project/evaluate.cpp:414-423 | The same bound and attainment, in microns. |
| Metrics.WidenBox | project/evaluate.cpp:663-669 | Taking one more sink into the running box widens it to the max/min of the old bound and the sink's coordinate. |
| Metrics.NetBox | project/evaluate.cpp:659-669 | The box bounds are the maximum and minimum x and y over the net's source and sinks. |
| Metrics.HalfPerimeterTotals | project/evaluate.cpp:654-672 | The x and y totals are the sums of the nets' spans, and both are non-negative. |
| Metrics.HalfPerimeterCoversPins | project/evaluate.cpp:659-671 | The Manhattan distance between any two pins of a net is at most the net's half-perimeter. |
| Metrics.TwoPinHalfPerimeter | project/evaluate.cpp:657-671 | For a two-pin net the half-perimeter is the Manhattan distance between its pins. |
| Evaluate.HalfPerimeterWirelength | project/evaluate.cpp:654-674 | The total half-perimeter wirelength in microns, which is non-negative. |
| Evaluate.Circuit.MeasureHPWL | project/evaluate.cpp:651-676 | The pins are relocated first, then the total HPWL is taken over the relocated pins. |
| Steiner.EdgeLength | project/evaluate.cpp:300-301 | A tree edge's length is non-negative, and zero exactly when both branch points coincide. |
| Steiner.TreeLongest | project/evaluate.cpp:304-305 | The longest edge bounds every non-self edge of the tree. |
| Steiner.LongestIsAnEdge | project/evaluate.cpp:304-305 | The longest edge is 0 or the length of some non-self edge. |
| Steiner.LongestWithinLength | project/evaluate.cpp:303-305 | The longest edge is at most the tree's total length. |
| Steiner.TwoPinLengthIsHalfPerimeter | project/evaluate.cpp:255-264 | A two-pin net's segment has the length of the Manhattan distance, equal to its half-perimeter. |
| Steiner.LastSinkAt | project/evaluate.cpp:284-289 | It finds the last sink at a clamped location: none after it is there, and none at all when it finds none. |
| Steiner.PinMapNames | project/evaluate.cpp:274-289 | A location of some sink maps to the last such sink's name. Otherwise only the source's location is mapped, to its driver name. |
| Steiner.BuildPinMap | project/evaluate.cpp:274-289 | The map the loop builds is the specified pin map. |
| Steiner.Resolve | project/evaluate.cpp:307-320 | A named location keeps its name and the counter. An unnamed one gets `sp_<counter+1>`, and the counter grows by one. No other entry changes. |
| Steiner.ResolveKeeps | project/evaluate.cpp:307-320 | Resolving a location only adds that location to the map and keeps every other entry and every name already given. |
| Steiner.ResolveNames | project/evaluate.cpp:306-320 | Every name added to the pin map is a Steiner name drawn from this net's counter range. |
| Steiner.FirstEligibleIs | project/evaluate.cpp:321-341 | The substitute search finds nothing exactly when no sink from the start position is eligible. Otherwise it returns the name of an eligible sink with no eligible sink before it. A sink is eligible when its name differs from pin1, it sits at the branch's location, and pin1 is not yet covered with it. |
| Steiner.FindSubstitute | project/evaluate.cpp:321-341 | The loop returns the first eligible sink's name, or none when no sink qualifies, as the search specifies. |
| Steiner.ResolveEndsNamed | project/evaluate.cpp:307-320 | Resolving an edge names both its ends in the map, with pin1 and pin2 the names they carry. The map only grows, and the counter rises by at most two. |
| Steiner.ResolveEndsNames | project/evaluate.cpp:307-320 | The names resolving an edge adds are Steiner point names from this net's counter range. |
| Steiner.RouteEdge | project/evaluate.cpp:297-344 | Exactly the source's edge routing. pin1 and pin2 are the resolved names, and pin2 is replaced by the first eligible sink when the two are equal. A segment (pin1, pin2, edge length) is emitted exactly when the names differ, and the pair is marked covered either way. |
| Steiner.RouteBranch | project/evaluate.cpp:295-345 | One iteration of the branch loop is one routing step: a self-pointing branch changes nothing, and any other routes its edge. The running length and longest edge grow by that edge. |
| Steiner.RouteFromStep | project/evaluate.cpp:295-345 | Routing the first m branches is routing the first m−1 and then branch m−1. |
| Steiner.RouteTree | project/evaluate.cpp:294-345 | The loop yields exactly the routing of all branches: its segments, map and counter. The added length is the tree length, and the longest edge is the tree's. |
| Steiner.MultiPinSegments | project/evaluate.cpp:268-349 | The same routing, starting from the net's pin map. |
| Steiner.StepKeeps | project/evaluate.cpp:297-344 | One branch keeps every earlier segment and every name given, adds at most one segment, and never lowers the counter. |
| Steiner.StepNames | project/evaluate.cpp:307-320 | One branch keeps the names given so far, names both ends of its edge, and numbers any new name within the net's counter range. |
| Steiner.StepLength | project/evaluate.cpp:300-343 | A segment one branch adds belongs to a non-self edge, has distinct ends and carries that edge's length. The total grows by at most that length. |
| Steiner.StepSegment | project/evaluate.cpp:307-343 | A segment one branch adds is appended last. It runs from the near end's name to the far end's name or to a sink at the near end. When the two ends' names differ, it is exactly the segment between them. |
| Steiner.RouteFromNames | project/evaluate.cpp:295-345 | After any number of branches, earlier names are kept, new names are Steiner points from the net's counter range, and both ends of every routed edge are named. |
| Steiner.RouteFromSegments | project/evaluate.cpp:295-345 | After any number of branches, no segment joins a name to itself. There are at most as many segments as branches, and their total is at most the tree length so far. |
| Steiner.StepFromEdges | project/evaluate.cpp:297-344 | If every segment so far comes from an earlier edge under the current names, this stays true after one more branch. |
| Steiner.RouteFromEdges | project/evaluate.cpp:295-345 | Every segment comes from one of the routed edges under the final names. |
| Steiner.SegmentsAreEdges | project/evaluate.cpp:295-345 | Each segment carries some routed edge's length. It starts at that edge's near-end name and ends at its far-end name or at a sink standing at the near end. |
| Steiner.EdgeYieldsSegment | project/evaluate.cpp:307-343 | Right after a non-self branch is routed, both its ends are named. If their names differ, the segment between them is present. |
| Steiner.StepYields | project/evaluate.cpp:295-345 | Every edge routed so far keeps both ends named and keeps its segment, under the names they now carry. |
| Steiner.RouteFromYields | project/evaluate.cpp:295-345 | After any number of branches, every routed non-self edge has both ends named. When the names differ, its segment is present. |
| Steiner.EdgesYieldSegments | project/evaluate.cpp:295-345 | For any routed non-self edge whose final names differ, the segment between those names is among the net's segments. |
| Steiner.SumNetLengthStep | project/evaluate.cpp:259 | The running total over nets grows by each net's routed length. |
| Steiner.RoutedFacts | project/evaluate.cpp:250-349 | Routing a net never lowers the counter, and every segment end is the driver name, a sink's name or a Steiner point from this net's counter range. A multi-pin net's segments have distinct ends, their total is at most the tree length, and there are at most as many as branches. |
| Steiner.RouteNet | project/evaluate.cpp:250-349 | A net without sinks gets no segment, and a one-sink net gets exactly its two-pin segment. A larger net gets exactly the routing of its tree from its pin map, and the tree's longest edge. |
| Steiner.CounterGrows | project/evaluate.cpp:243-349 | The Steiner point counter never goes down from one net to a later one. |
| Steiner.SpNameInjective | project/evaluate.cpp:311 | Different counter values give different `sp_` names. |
| Steiner.SpRangesApart | project/evaluate.cpp:309-318 | Steiner point names from two counter ranges, the first ending at or before the second starts, never coincide. |
| Steiner.SpNamesDisjoint | project/evaluate.cpp:243-349 | Two different nets never share a Steiner point name, because the single counter gives each net its own range. |
| Steiner.BuildStep | project/evaluate.cpp:248-350 | One net of the loop keeps the invariants over all earlier nets: each is routed from the counter the earlier nets left, other fields are unchanged, and the running total and clock-net maximum are kept. |
| Steiner.BuildSteiner | project/evaluate.cpp:240-363 | Every net is routed as specified from the counter the earlier nets left, with its other fields unchanged. The total is the sum of net lengths over database units. The clock-net maximum bounds every `iccad_clk` tree edge and is 0 or one such tree's longest edge. |
| Evaluate.Circuit.BuildSteiner | project/evaluate.cpp:240-363 | The circuit's nets get exactly the routed segments, each net from the counter the earlier nets left, and `total_StWL` is set. |
| Slicer.SliceCount | project/evaluate.cpp:386-387 | A long segment is cut into at least 2 pieces, each no longer than the threshold. |
| Slicer.SliceNameAt | project/evaluate.cpp:389-397 | The j-th generated node name is `<end1>_<end2>_<j>`. |
| Slicer.PiecesLengths | project/evaluate.cpp:382-394 | A short segment is kept whole. A long one gives the slice count of pieces, each of length len/count and no longer than the threshold. |
| Slicer.PiecesChain | project/evaluate.cpp:389-402 | The pieces form a chain from end1 to end2 through the nodes `<end1>_<end2>_<k>`. |
| Slicer.RawChainGrow | project/evaluate.cpp:395-400 | Appending one piece inside the loop extends the chain by the next named piece. |
| Slicer.RawChainClosed | project/evaluate.cpp:395-402 | The appended pieces, with the last end rewritten to end2, are exactly the pieces after the first. |
| Slicer.SliceClosed | project/evaluate.cpp:393-402 | Head replacement, the appended chain and the end rewrite together give one slicing step. |
| Slicer.SliceAt | project/evaluate.cpp:382-403 | Slicing one long segment succeeds exactly when all its node names fit the length limit, and then yields the specified step. |
| Slicer.ShortUnchanged | project/evaluate.cpp:382 | A segment within the threshold leaves the list unchanged. |
| Slicer.PartialStep | project/evaluate.cpp:377-404 | Processing slot i moves the intermediate list from slot i to slot i+1. |
| Slicer.SliceSlot | project/evaluate.cpp:377-404 | One loop iteration succeeds exactly when the slot's names fit, and then advances the intermediate list. |
| Slicer.SliceSegments | project/evaluate.cpp:375-404 | Slicing a net's segments succeeds exactly when every long segment's names fit. The result is then the sliced list: heads in place, extra pieces appended. |
| Slicer.SliceNets | project/evaluate.cpp:373-406 | Every net is sliced, succeeding exactly when all names fit. |
| Evaluate.SliceThreshold | project/evaluate.cpp:21 | The threshold is the unsigned truncation of the maximum segment length in database units, and is positive. |
| Evaluate.Circuit.SliceLongwires | project/evaluate.cpp:368-409 | The nets become the sliced nets when all names fit. Otherwise they are unchanged, where the source's assertion aborts. |
| Slicer.PiecesTotal | project/evaluate.cpp:386-387 | The pieces of a segment add up to its length. |
| Slicer.SlicedKeepsLength | project/evaluate.cpp:382-402 | Slicing preserves a net's total wire length. |
| Slicer.SlicedWithinThreshold | project/evaluate.cpp:386-387 | After slicing, no segment is longer than the threshold. |
| Slicer.TailsWithinThreshold | project/evaluate.cpp:395-399 | Every appended piece is within the threshold. |
| Slicer.SlotShape | project/evaluate.cpp:393-394 | Slot k keeps its first end. A long segment's slot becomes the piece to `<end1>_<end2>_0` of length len/count. |
| Slicer.SliceShortIsIdentity | project/evaluate.cpp:382 | A list with no long segment is left unchanged. |
| Slicer.SliceIdempotent | project/evaluate.cpp:368-409 | Slicing an already sliced list changes nothing. |
| Slicer.SlicedCount | project/evaluate.cpp:395-399 | The sliced list has count−1 extra segments per long segment. |
| Slicer.TailsCount | project/evaluate.cpp:395-399 | The appended pieces number count−1 per long segment. |
| Netlist.AddSegAt | project/evaluate.cpp:83-92 | One segment adds half its wire capacitance to each of its two ends, and registers both ends. |
| Netlist.AddSegsAt | project/evaluate.cpp:76-93 | After a net's segments, each node's capacitance is its previous value plus its shares from every segment it ends. |
| Netlist.AddSegsStep | project/evaluate.cpp:77-92 | The running map after segment i is one segment update of the map before it. |
| Netlist.AddNetsAt | project/evaluate.cpp:76-93 | After all nets, each node's capacitance is its start value plus its wire capacitance over all nets. The keys are the start keys plus every segment end. |
| Netlist.WireCapUntouched | project/evaluate.cpp:76-93 | A node that ends no segment gets no wire capacitance. |
| Netlist.SegsCapUntouched | project/evaluate.cpp:77-92 | The same for one net's segments. |
| Netlist.PoLoadsAt | project/evaluate.cpp:32-37 | The load map holds each primary output's pin capacitance, with the last output of a name winning. |
| Netlist.IoLines | project/evaluate.cpp:29-37 | There is an `input` line per primary input and an `output` line per primary output, in order. The capacitance map is the output loads. |
| Netlist.NonClockMembers | project/evaluate.cpp:40-43 | The driven inputs are exactly the primary inputs other than the clock port. |
| Netlist.DriverConnsMembers | project/evaluate.cpp:47-53 | A driver connection exists exactly for an INPUT macro pin (to `_drvin`) or an OUTPUT macro pin (to `_drvout`). |
| Netlist.DriverConnsOf | project/evaluate.cpp:47-53 | The loop builds exactly the specified driver connections. |
| Netlist.DriverInstances | project/evaluate.cpp:39-55 | There is one driver instance line per non-clock primary input, in order. |
| Netlist.CellConnsOf | project/evaluate.cpp:63-69 | A cell's connections list its ports in order, a non-clock primary input's pin renamed to `_drvout`. |
| Netlist.WithPortsMembers | project/evaluate.cpp:58-61 | The instantiated cells are exactly those with at least one port. |
| Netlist.CellInstances | project/evaluate.cpp:57-71 | There is one instance line per cell with ports, in order. |
| Netlist.AccumulateNet | project/evaluate.cpp:77-93 | Accumulating one net succeeds exactly when it has no segment or its name fits the limit, and then adds its segments' capacitance. |
| Netlist.AccumulateCaps | project/evaluate.cpp:74-93 | Accumulation succeeds exactly when every net with segments has a short enough name, and then gives the specified capacitance map. |
| Netlist.PiWires | project/evaluate.cpp:95-102 | There is a wire line and a zero resistor from each non-clock primary input to its `_drvin` node. |
| Netlist.PiWireCounts | project/evaluate.cpp:95-102 | These lines hold no capacitance. Their resistors and wire heads are the specified ones. |
| Netlist.PiWireBlocks | project/evaluate.cpp:95-102 | Each non-clock primary input's wire line is followed by its own zero resistor and nothing else before the next wire. |
| Netlist.ResistorJoinsPrecedingWire | project/evaluate.cpp:104-124 | A resistor line after a wire line belongs to that wire's block; before it, to none. |
| Netlist.BlocksAppend | project/evaluate.cpp:95-133 | Lines that start with a wire line add their own wire blocks after the blocks of the lines before them. |
| Netlist.EmitSegment | project/evaluate.cpp:119-132 | One segment emits its resistor, plus a capacitance line for each end not yet written, carrying the accumulated value. |
| Netlist.NetWire | project/evaluate.cpp:104-133 | A net's lines succeed exactly when its taps and segments are within the limits. They then start with the net's wire line and form a single block. The block holds one resistor per segment at the layer's rate, in segment order, and capacitance lines for exactly the net's ends not written before. |
| Netlist.NetWiresStep | project/evaluate.cpp:104-134 | One net's lines keep the counts, resistors and wire heads over the nets so far. |
| Netlist.NetBlocksStep | project/evaluate.cpp:104-134 | One net's lines add its block after the blocks of the nets before it. |
| Netlist.NetWires | project/evaluate.cpp:103-134 | All nets' lines: capacitance lines exactly once per segment end, every segment's resistor, every net's wire head. The lines split into one block per net, in order: net k's wire line, then its own resistors and the capacitors of its ends that no earlier net has. |
| Netlist.CapsAreLoads | project/evaluate.cpp:121-130 | Every capacitance line carries the node's output load plus its wire capacitance. |
| Netlist.ConstraintLines | project/evaluate.cpp:138-154 | The clock line, then `at`/`slew` per primary input, then early and late `rat` per primary output with the specified values. |
| Netlist.WireSection | project/evaluate.cpp:73-134 | The wire section succeeds exactly when the names and sizes fit. It then holds the accumulated capacitances and the specified wires, as the primary inputs' blocks followed by one block per net, each wire line followed by exactly its own resistors and capacitors. |
| Netlist.Assembled | project/evaluate.cpp:29-154 | The sections in source order form a netlist with the specified declarations, capacitances, resistors and wires, and with each wire's RC lines in its own block. |
| Netlist.BuildNetlist | project/evaluate.cpp:23-155 | No netlist exactly when an assertion on name length, taps or segments fails. Otherwise the netlist is as specified, including the per-wire blocks of RC lines. |
| Evaluate.Circuit.WriteNetlist | project/evaluate.cpp:23-155 | The same for the circuit's own state, per-wire blocks included. |
| Timing.LastRecordWins | project/evaluate.cpp:179-195 | A record that sets a pin's slack at a corner decides it unless a later record sets it again. |
| Timing.UnsetSlackKept | project/evaluate.cpp:185-193 | A pin that no record sets keeps its slack. |
| Timing.DanglingTokenAtEnd | project/evaluate.cpp:172-194 | `slack A early -0.3 slack` is read to the end without a trailing newline. With one, it aborts. |
| Timing.ReadReport | project/evaluate.cpp:164-195 | With no report or an empty first token, the pins are untouched. Otherwise the read aborts exactly when `ReportOk` fails: a full record is malformed, or the tokens after the last full record are two, one followed by whitespace, or three that are not `slack`, a node and a corner. When the read completes, each pin's slack is the one its records set. |
| Evaluate.ReadTimingReport | project/evaluate.cpp:164-212 | Reading plus WNS/TNS: when completed, the worst and total negative slacks of the updated pins, with TNS ≤ WNS ≤ 0. |
| Timing.FoldSlacks | project/evaluate.cpp:196-212 | The loop computes the specified early and late WNS and TNS. |
| Timing.TnsBelowWns | project/evaluate.cpp:196-212 | TNS ≤ WNS ≤ 0 at each corner. |
| Timing.WnsIsWorst | project/evaluate.cpp:206-207 | WNS is at most every endpoint's slack, and is 0 or some endpoint's slack. |
| Timing.NoViolations | project/evaluate.cpp:196-212 | No endpoint has negative slack ⇔ WNS = 0 ⇔ TNS = 0. |
| Timing.OnlyEndpointsCount | project/evaluate.cpp:201 | Slacks of pins that are not endpoints do not affect WNS or TNS. |
| Evaluate.Circuit.ReadSlacks | project/evaluate.cpp:164-212 | The report is applied to the circuit's pins and the four measures are set, as above. When the read does not complete, the pins and the four measures keep their values. |
| Evaluate.Circuit.PrepareWires | project/evaluate.cpp:19-21 | Relocation, then exact routing of every net, then slicing, each as specified. |
| Evaluate.Circuit.TimeNetlist | project/evaluate.cpp:23-212 | The netlist as specified by `IsNetlist`, including each wire's own block of RC lines, or none and an abort when a limit fails. Once it is written, there are no results exactly when the report is missing or its first token is empty, and otherwise the read aborts exactly when `ReportOk` fails. |
| Evaluate.Circuit.MeasureTiming | project/evaluate.cpp:17-214 | The whole timing measurement composes relocation, exact routing, slicing, the netlist and the report. No netlist exactly when a name or size limit fails, and otherwise the netlist as specified by `IsNetlist`, including each wire's own block of RC lines. Once the netlist is written, there are no results exactly when the report is missing or its first token is empty, and otherwise the read aborts exactly when `ReportOk` fails. The slack fields change only when the read completes. |
| Density.MakeGrid | project/evaluate.cpp:430-433 | The grid unit is unit × row height, and the bin counts are positive and cover the chip. |
| Density.SizeIsProduct | project/evaluate.cpp:433 | There are x × y bins. |
| Density.IdsDistinct | project/evaluate.cpp:443 | `j*x + k` names distinct bins for distinct grid positions. |
| Density.IdsCover | project/evaluate.cpp:440-443 | Every bin index is reached by some grid position. |
| Density.BinInsideChip | project/evaluate.cpp:444-450 | Every bin lies inside the chip, clipped at its right and top edges, and is no wider or taller than the grid unit. |
| Density.BinAreaBounded | project/evaluate.cpp:452 | Every bin's area is positive and at most the grid unit squared. |
| Density.InitBins | project/evaluate.cpp:438-456 | The bin array holds the initial bin for every grid position. |
| Density.PaintShape | project/evaluate.cpp:460-515 | One row or cell updates exactly the bins its column/row range covers. |
| Density.PaintAll | project/evaluate.cpp:460-515 | After all shapes, each bin is the specified painted bin. |
| Density.PaintAppend | project/evaluate.cpp:460-515 | Painting rows then cells is painting one list after the other. |
| Density.PaintBounds | project/evaluate.cpp:478-483 | Free space stays within [0, area], and fixed and movable area stay non-negative. |
| Density.FreeSpaceWithinArea | project/evaluate.cpp:482 | Every painted bin's free space is within its area. |
| Density.PaintNoMovable | project/evaluate.cpp:509-512 | Shapes that are not movable cells add nothing to a bin's movable area. |
| Density.RoomLeft | project/evaluate.cpp:521-524 | A counted bin that is not skipped has positive free space, so its utilisation is defined. |
| Density.UtilizationSign | project/evaluate.cpp:521-525 | Utilisation is non-negative, and 0 when the bin holds no movable area. |
| Density.Utilize | project/evaluate.cpp:517-540 | The utilisation array and skipped count are the specified ones, and each bin settles its free space. |
| Density.SwapDown | project/evaluate.cpp:600 | It swaps two neighbours and nothing else. |
| Density.SortAscending | project/evaluate.cpp:600 | The array ends sorted and a permutation of its old contents. |
| Density.Clip | project/evaluate.cpp:604 | The clip index never exceeds the number of counted bins. |
| Density.ClippedMean | project/evaluate.cpp:605-608 | The loop computes the mean of the top clip values, or the largest value when the clip index is 0. |
| Density.ClipMonotone | project/evaluate.cpp:604-628 | A larger share gives a clip index at least as large. |
| Density.SumTopBounds | project/evaluate.cpp:605-607 | The top k values sum to between k times the k-th largest and k times the largest. |
| Density.MeanStep | project/evaluate.cpp:603-632 | On a sorted array, averaging one more top value never raises the mean. |
| Density.TopMeanMonotone | project/evaluate.cpp:603-632 | Averaging more top values never raises the mean. |
| Density.TopMeanZero | project/evaluate.cpp:603-632 | The mean is 0 when every value is 0. |
| Density.Overflow | project/evaluate.cpp:639-643 | The overflow is non-negative. With a positive target it is 0 exactly when the ABU is within the target. With a negative target it is 0 exactly when the ABU is at least the target. |
| Density.PenaltySign | project/evaluate.cpp:644 | The penalty is non-negative, and 0 exactly when every weighted overflow is 0. |
| Density.TopMeanNonNegative | project/evaluate.cpp:603-632 | The mean of non-negative values is non-negative. |
| Density.AbuFacts | project/evaluate.cpp:603-644 | ABU1 ≥ ABU2 ≥ ABU5 ≥ ABU10 ≥ ABU20, and the penalty is non-negative. With a positive target the penalty is 0 exactly when ABU2 is within the target. With a negative target it is 0 exactly when ABU20 is at least the target, and always 0 over non-negative utilisations. |
| Density.UtilsNonNegative | project/evaluate.cpp:488-540 | Every sorted utilisation of the painted bins is non-negative. |
| Density.AllFixedNoUtilization | project/evaluate.cpp:488-540 | With only fixed cells, every bin's utilisation is 0. |
| Density.MeasureAbu | project/evaluate.cpp:428-646 | The grid, painting, utilisation, sort and clipped means are as specified. The ABU chain and the penalty's sign hold. With a positive target the penalty is 0 exactly when ABU2 is within it. A negative target gives no penalty, and neither do only fixed cells. |
| Evaluate.Circuit.MeasureAbu | project/evaluate.cpp:428-646 | The same, with `ABU_penalty` stored in the circuit. |

## Left out

- FLUTE (`readLUT`, `flute`, freeing the tree) is a foreign library. Each multi-pin net's Steiner tree is an input (`Steiner.Tree`) that must have valid parent indices.
- File output of `feed.netlist`, its scientific five-digit number formatting, and the `system()` call that runs the timer are I/O. The netlist is produced as structured lines, and the timer's output is a token-sequence parameter whose tokens carry their parsed number.
- Console logging, the `DEBUG` blocks and the `grid.plt` utilisation plot write output only, and are not modelled.
- IEEE double rounding is not modelled: lengths, capacitances, slacks and utilisations are exact reals.
- Model.Clamp: the `(unsigned)` cast of a coordinate is modelled as truncation of a non-negative value, without wrap-around for coordinates of 2^32 or more.
- Steiner.Resolve: the `unsigned` Steiner-point counter is unbounded; its 32-bit wrap-around is not modelled.
- Evaluate.SliceThreshold: the `(unsigned)` truncation is modelled as the floor of a non-negative value. `Tech.Valid` requires the threshold to be at least one database unit, since a zero threshold makes the source divide by zero.
- Density.MeasureAbu: requires a chip with positive width and height, a positive row height and a positive unit. A degenerate chip gives zero bins, and the source then reads outside `util_array`.
- Density.Overflow, Density.AbuOf, Density.MeasureAbu and Evaluate.Circuit.MeasureAbu: require a non-zero target utilisation. The target comes unchecked from the command line, and a zero target makes the source divide by zero, giving an IEEE infinity or NaN penalty. Exact reals cannot represent that result. Negative targets are modelled.
- Names are sequences of characters, taken to be ASCII: the name-length limits (`Slicer.NamesFit`, `Netlist.NetNamesFit`) compare character counts, whereas `std::string::length()` at 80, 392 and 398 counts bytes. The two differ only for non-ASCII names.
- The source's `assert`s (name lengths at 80, 392 and 398, taps and segments at 110 and 115, report tokens at 181 and 184) abort the process. The model returns a failure outcome and leaves the state as it was.
- Timing.ReadReport: the `istream` behaviour is modelled for whole tokens only. A pin's slack token that does not read as a number is treated as a malformed record, which aborts the read; the source's stream would instead enter a failed state. Partially numeric tokens are not modelled.
- Netlist.BuildNetlist, Evaluate.Circuit.WriteNetlist, Evaluate.Circuit.TimeNetlist and Evaluate.Circuit.MeasureTiming: `IsNetlist` states the declarations, capacitance lines, resistors, wire heads and per-wire blocks of the whole netlist. The instance and constraint lines are stated separately, by DriverInstances, CellInstances and ConstraintLines, and not for the assembled list.
- main.cpp, placer.cpp and flute_pin_order_impact.cpp drive the evaluator or test FLUTE, and are not part of this model. evaluate.h is not part of this model; its constants are the fields of `Model.Tech`.
