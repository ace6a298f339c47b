# Verified models of the phalanx core

Phalanx is a small C toolkit for custom circuit design. It keeps a library of cells, places instances
of cells inside each other, connects their pins with nets, and computes extents, capacitances,
leakage and timing of the result. Timing data lives in strided lookup tables, and cells are
read from LEF and LIB files. This project models the parts of that program which are hard to get
right, as imperative Dafny in the form of the C code, and proves what they are for.

- **Lookup tables** (`MixedRadix`, `AxisLookup`, `Tables`, `TableObjects`, `TableCopy`, `SlotTheory`,
  `TableReduce`, `ReduceTheorems`, `Slices`, `TableJoin`, `TableAdd`). A table is a function from index vectors
  to reals, stored with strides. The odometer loops, the binary searches and the destination and source
  arithmetic are methods over arrays; reduction, join and broadcast addition are proved against what
  they mean for that function.
- **Incremental recomputation** (`Marks`, `Design`, `Invalidation`, `Extents`, `GeometryUpdate`,
  `Placement`, `ExtentsCache`, `ExtentsUpdate`, `FromScratch`, `Edits`, `Placing`, `Drawing`, `Growing`,
  `Instantiation`, `CleanParent`, `Raising`, `IndexPaths`, `Leakage`, `Capacitance`). Cells, instances, geometries, layers, nets and pins
  are classes with invalid bits. Invalidation runs up the hierarchy and stops at dirty nodes, updates
  run down it and stop at clean ones. `Edits.Coherent` is the invariant that every edit and update keeps; under it an
  update leaves what a recursion without any cache would compute. The sums over the hierarchy are specified by
  enumerating instance paths.
- **Net timing** (`NetTiming`, `PathTiming`, `CellArcs`, `Publishing`, `NetUpdate`, `TimingTables`). The arcs of a net are
  compared with an enumeration of the timing paths that end in it and with the feeds along each path, what the nets
  push to their cell stays, and the terms of the arcs are given the tables that reduction and join make.
- **Netlists** (`Connect`). The nets that a run of `connect` calls builds are the classes of the
  equivalence closure of the calls.
- **Readers and writers** (`LefSkip`, `LefParse`, `LefFile`, `LefReader`, `LefLaws`, `LibSkip`, `LibErrors`, `LibTable`,
  `LibNames`, `LibGroup`). The parsers work on tokens; grammars of statement trees, with their keywords written out,
  say which inputs are well formed and what they mean.

Real numbers stand for `double`, and sets of bits for bit masks. Where the program asserts, the model either
reports failure (`None`, `null`, `false`, `Abort`) or requires what the assertion requires. Objects
reach each other through ghost parameters that list the objects of a design (`World`, `Hierarchy`); contents
and caches are compared as values taken from the heap.

## Where the code departs from what it seems to intend

The model follows the code. For each departure the exact condition under which the code does what
seems intended is proved for all inputs, and a concrete input shows that it can fail.

- `phx_table_axis_get_lerp` takes the upper neighbour's value inside every interval but the last
  (`src/table-ops.c:36-39`): `AxisLookup.LookupIsLinearIff`, `AxisLookup.StepsUpExample`.
- `phx_table_copy_values` starts its offsets and weights over for each interpolated axis
  (`src/table-ops.c:314-319`): `SlotTheory.SlotsExactIff`, `SlotTheory.HalfWayExample`.
- `phx_table_join` places its slices with the base's stride in the result (`src/table-ops.c:203`). A larger
  stride than the result's own writes behind the end, a smaller one leaves the last slot unwritten:
  `TableJoin.WritesInsideIff`, `TableJoin.JoinStrideIff`, `TableJoin.SmallStrideFails`,
  `TableJoin.ReversedAxesExample`.
- The extents of a rotated instance read a coordinate after it was overwritten
  (`src/design-inst.c:45-47`): `Placement.InstanceBoxIff`, `Placement.RotationExample`.
- `new_inst` does not dirty the parent (`src/cell.c:191-201`), and moving the new instance does not either, as
  it is dirty already: `Instantiation.InstAddedIff`, `CleanParent.CleanParentIff`,
  `CleanParent.PlaceIntoClean`, `CleanParent.StaleExample`.
- Errors below a LIB statement without a handler are dropped (`src/lib-parser.c:122-124`), and a handler-less
  complex attribute swallows its later siblings: `LibErrors.AgreesIff`, `LibErrors.NoErrorIff`,
  `LibErrors.ErrorAtBraceExample`, `LibSkip.IgnoredErrorExample`.
- A written LIB file has no table template and mostly other group names than the reader knows
  (`src/lib.c:162-167`, `src/lib.c:231`, `src/lib-parser.c:275-284`, `src/lib-parser.c:571-576`), so no written table
  is ever read back as one: `LibGroup.WrittenReadIff`, `LibGroup.NeverReadBack`,
  `LibGroup.RefusedTableExample`.
- LIB scalar tables are divided by the time unit when written and not multiplied when read
  (`src/lib.c:343-347`, `src/lib-parser.c:341-366`): `LibGroup.ScalarRoundTripIff`, `LibGroup.ScalarExample`.
- LIB index values of length axes are scaled by the writer only (`src/lib.c:200-206`,
  `src/lib-parser.c:600-612`): `LibTable.IndexRoundTrip`, `LibTable.LengthIndexExample`.
- `connect` aborts where two nets would have to be merged (`src/misc.c:84-85`): `Connect.AbortIff`,
  `Connect.MergeExample`.
- The nets that `connect` makes have no bit set (`src/misc.c:69`), and no code sets their timing bit, so no timing is
  ever computed for them: `NetUpdate.AsCreatedIff`, `NetTiming.BufferExample`.
- A net that is not exposed and feeds itself is forwarded to itself without end (`src/design-net.c:190-194`):
  `NetUpdate.EndlessIff`, `NetUpdate.LoopExample`.

## Model

| member | source | states |
|---|---|---|
| MixedRadix.PackedBijection | src/table-fmt.c:130-153 | packed strides map the box of index vectors one-to-one onto the offsets below the number of values |
| MixedRadix.CanonicalPacked | src/table-fmt.c:131-139 | the strides that the stride update assigns are packed, for all sizes |
| MixedRadix.Advance | src/table-ops.c:351-360 | the carry loop moves an index vector to the next rank, stays in the box, and reports a carry exactly after the last rank, back at zero |
| AxisLookup.AxisGetLerp | src/table-ops.c:10-70 | the binary search and the clamping compute the parameters given by the position of the query among the indices, and fail exactly where the assertion does |
| AxisLookup.LerpAxes | src/table.c:308-347 | the other search computes its parameters from the same position |
| TableObjects.Table.LerpQuantities | src/table.c:298-354 | the loop over the quantities: each present axis is searched, an absent one gives a zeroed result, and the assertion fails exactly on an axis of fewer than two indices |
| AxisLookup.SearchesAgree | src/table-ops.c:10-70 | on every increasing axis of two or more indices both searches denote the same interpolated value of every table |
| AxisLookup.LookupIsLinearIff | src/table-ops.c:36-39 | the lookup is linear interpolation of every table exactly when the query is on the grid, left of it, or from the last interval on |
| AxisLookup.LookupSaturates | src/table-ops.c:43-69 | at and beyond either end the lookup is the boundary value |
| AxisLookup.LookupMonotone | src/table-ops.c:10-70 | a nondecreasing table gives a nondecreasing lookup, steps included |
| AxisLookup.StepsUpExample | src/table-ops.c:36-39 | a query between the first two of three indices reads the second value instead of the midpoint |
| Tables.CreateFormat | src/table-fmt.c:15-49 | null exactly for no axes; else one axis per id, sorted, without strides and indices |
| Tables.Format.GetAxis | src/table-fmt.c:109-113 | the lookup table leads to the axis with the id |
| Tables.Format.SetIndices | src/table-fmt.c:96-102 | one axis gets the indices and nothing else changes |
| Tables.Format.UpdateStrides | src/table-fmt.c:131-139 | strides become canonical, first axis fastest |
| Tables.Format.Finalize | src/table-fmt.c:146-153 | the number of values is the product of the axis sizes |
| TableObjects.Table.New | src/table.c:39-104 | the sorted axes carry strides in the order in which the quantities were given, and the data is zero |
| TableObjects.Table.WithFormat | src/table.c:108-126 | a zeroed table whose own axis list and size stay empty |
| TableObjects.Table.SetIndices | src/table.c:285-294 | the indices of a quantity are set in the axis list and in the format, and the table keeps its layout |
| TableObjects.LaidOutPacked | src/table.c:39-104 | once all indices are set, addressing is packed whatever the order in which the axes were given |
| TableObjects.Table.CompleteIsValid | src/table.c:285-294 | a table whose indices are all set is a valid table with those axes |
| TableCopy.LerpSlots | src/table-ops.c:291-327 | the doubling loops leave exactly the source offsets and weights of the interpolation slots |
| TableCopy.Walk | src/table-ops.c:329-361 | the odometer writes the slots of all index vectors once each, in rank order, and stops after their product |
| TableCopy.CopyValues | src/table-ops.c:245-361 | every slot of the selected axes receives the weighted sum of its source slots, no two index vectors share a slot, no other slot changes, all accesses stay inside |
| SlotTheory.SlotsExactIff | src/table-ops.c:314-319 | the weighted sum is the multilinear value for every table exactly when no interpolated axis but the first has a weight |
| SlotTheory.HalfWayExample | src/table-ops.c:308-327 | half way between four ones on a grid of two by two, the slots sum to one and a half instead of one |
| TableReduce.GetLerp | src/table-ops.c:81-98 | the parameters of an axis that the table has, and a neutral answer for one it lacks |
| TableReduce.Reduce | src/table-ops.c:108-147 | the table itself when no axis is fixed, null where an axis lookup fails, otherwise a new canonical table whose entries are the weighted slot sums of the source |
| TableReduce.ReducedUnique | src/table-ops.c:108-147 | what reduction promises determines the result |
| ReduceTheorems.SingleFixGathers | src/table-ops.c:113-131 | a single fix succeeds exactly when the lookup does, and keeps all other axes |
| ReduceTheorems.LookupInterpolates | src/table-ops.c:108-147 | a well placed fix yields linear interpolation of the row through each remaining index vector |
| ReduceTheorems.ReduceCommutes | src/table-ops.c:108-147 | fixing axis a at x then b at y succeeds exactly when the other order does, and then gives the same table, for all sizes and strides |
| ReduceTheorems.LookedBetween | src/table-ops.c:342-348 | no entry of a reduced table leaves the range of the source |
| ReduceTheorems.LookedMonotone | src/table-ops.c:108-147 | reduction preserves monotonicity along every remaining axis |
| TableJoin.Join | src/table-ops.c:155-236 | the base when the axis is absent, the reduction for a scalar index table; otherwise the turns of the loop decide: a failed lookup aborts, a slice behind the end is reported as such, and else each slot holds the entry written there last or zero, which is the composition where the strides agree |
| TableJoin.JoinIsComposition | src/table-ops.c:206-234 | each entry of the join is the base's row, looked up at the index table's value |
| TableJoin.ConstantJoinIsReduction | src/table-ops.c:169-171 | joining with a constant table is the reduction at that constant, at every index |
| TableJoin.JoinBetween | src/table-ops.c:206-234 | no entry of a join leaves the range of the base |
| TableJoin.FinishesIff | src/table-ops.c:206-234 | the loop finishes exactly when every lookup passes and the base's stride is at most the result's own or there is one slice |
| TableJoin.WritesInsideIff | src/table-ops.c:203 | every write stays inside the result exactly when the base's stride is at most the result's own or there is one slice |
| TableJoin.JoinStrideIff | src/table-ops.c:203 | with a stride that stays inside, the result is the composition for every base and index data exactly when the strides agree or there is one slice |
| TableJoin.SmallStrideFails | src/table-ops.c:203 | with a smaller stride and two slices no base of positive values is joined right: the last slot stays zero |
| TableJoin.ReversedAxesExample | src/table.c:39-104 | a table from phx_table_new with its axes in reverse order fails both ways |
| Slices.AllInsideIff | src/table-ops.c:206-226 | the largest slot that a run of slices covers is inside exactly under that condition |
| Slices.EntryStays | src/table-ops.c:206-226 | with agreeing strides every entry is the last write to its own slot |
| Slices.LastSlotFree | src/table-ops.c:206-226 | with a smaller stride no slice covers the last slot |
| TableAdd.PairAxes | src/table.c:376-408 | the two-pointer scan finds for each result axis the operand axis of the same id, if any |
| TableAdd.Add | src/table.c:367-446 | fails its assertion, before writing, exactly when a shared axis has other indices; otherwise the result is the broadcast sum of the operands as they were, at every index vector, also where the result is one of them; nothing is written where the size is zero |
| TableAdd.ProjectedAddress | src/table.c:412-444 | walking the operand along the result's axes reaches the slot of the projected index vector |
| TableAdd.SumCommutes | src/table.c:367-446 | swapping the operands gives the same table |
| TableAdd.EqualAxesSum | src/table.c:412-444 | where all axes are the same, each entry is the sum of the two entries at its index vector |
| TableAdd.AbsentAxisIsConstant | src/table.c:386-394 | the broadcast is constant along an axis that the operand lacks |
| TableAdd.SameAxesSameIndex | src/table.c:386-394 | and is the operand itself where it has the result's axes |
| TableAdd.MadeIsStored | src/table.c:39-104 | tables from phx_table_new are among those that addition is about, with a size that is not zero |
| Marks.SpreadIsReachability | src/design-cell.c:12-21 | from closed marks an invalidation marks exactly what was marked plus what is reachable upward, and the marks are closed again, for every bit |
| Invalidation.InvalidateCell | src/design-cell.c:13-21 | spreads the bits from the cell although it stops at dirty nodes; terminates on every graph by the set of nodes with a clear bit |
| Invalidation.InvalidateInst | src/design-inst.c:16-22 | the same from an instance |
| Extents.HullIsLeast | src/cell.c:12-34 | adding points to reset extents gives the least box that contains them |
| Extents.HullConcat | src/cell.c:21-26 | including extents in extents is covering the points of both |
| GeometryUpdate.UpdateLayerExtents | src/design-geometry.c:201-224 | a layer's extents become the hull of its shapes' points and its lines' points widened by half the width |
| GeometryUpdate.UpdateGeometry | src/design-geometry.c:71-92 | a recomputed geometry covers exactly the corners in its layers, whichever layers were clean |
| ExtentsUpdate.UpdateInstExtents | src/design-inst.c:26-54 | the instance stores the code's own box transform of its cell's extents, and nothing else changes |
| ExtentsUpdate.UpdateCell | src/design-cell.c:149-159 | refreshes the cell and what it needs and dirties nothing, leaves the other bits and the contents alone; terminates on every graph, cyclic ones too |
| ExtentsUpdate.UpdateCellExtents | src/design-cell.c:63-82 | the same for one recomputation, whose cell becomes clean |
| ExtentsUpdate.UpdateInst | src/design-inst.c:61-66 | the same for an instance |
| ExtentsCache.CoherentIsScratch | src/design-cell.c:63-82 | in coherent caches a clean cell's extents are those of the uncached recursion |
| FromScratch.ScratchIsLeast | src/design-cell.c:63-82 | the extents from scratch are the least box around the cell's geometry, the geometries of its pins and the boxes of its instances |
| FromScratch.GeoBoxIsLeast | src/design-geometry.c:71-92 | and those of a geometry the least box around its shapes' points and the squares of the line's width around its lines' points, in all its layers |
| ExtentsCache.EditKeepsOk | src/design-cell.c:12-21 | an edit that dirties what it touches and everything above keeps the caches coherent |
| ExtentsCache.RefreshedKeepsAllOk | src/design-cell.c:63-82 | an update keeps all caches of the hierarchy coherent, not only those below its cell |
| Edits.UpdateExtents | src/design-cell.c:149-159 | after any edits and updates that kept the invariant, the cell's extents equal the uncached recursive union, and the invariant holds again |
| Placing.SetPos | src/cell.c:212-216 | moves one instance and keeps the invariant |
| Placing.SetOrientation | src/design-inst.c:73-79 | turns one instance and keeps the invariant; an unchanged orientation dirties nothing |
| Placing.SetOrigin | src/cell.c:131-135 | changes one origin and keeps the invariant |
| Placing.SetSize | src/cell.c:138-142 | changes no content that extents depend on, dirties the cell and keeps the invariant |
| Drawing.AddLine | src/design-geometry.c:144-155 | appends one line, dirties up to the cell and keeps the invariant |
| Drawing.AddShape | src/design-geometry.c:159-169 | appends one shape, dirties up to the cell and keeps the invariant |
| Growing.OnLayer | src/design-geometry.c:52-67 | a layer of the technology, found or appended dirty and empty under a possibly clean cell, which keeps the invariant |
| Growing.SearchLayer | src/design-geometry.c:52-58 | what the binary search finds is there, and on sorted layers it misses nothing |
| Growing.FindPin | src/cell.c:175-187 | the pin of that name, made dirty and empty when there is none, which keeps the invariant |
| Instantiation.NewInst | src/cell.c:191-201 | the instance is linked from both cells, and the invariant survives exactly when the parent was dirty |
| Instantiation.InstAddedIff | src/cell.c:191-201 | a new instance keeps all caches coherent if and only if its parent is dirty |
| CleanParent.CleanParentIff | src/cell.c:191-201 | the extents of a clean parent equal those from scratch exactly when they cover the new instance already |
| CleanParent.PlaceIntoClean | src/cell.c:191-216 | new_inst into a clean parent, inst_set_pos on the instance and an update of the parent: it is still clean with its old extents, which are right exactly when they cover the instance |
| CleanParent.StaleExample | src/cell.c:191-201 | an instance of a unit square in a clean empty cell, whose extents stay empty |
| Instantiation.NewCell | src/cell.c:79-94 | an empty dirty cell joins the design and the invariant holds |
| Placement.TranslationsAreInverse | src/design-inst.c:97-129 | the translations to and from the parent undo each other for every orientation |
| Placement.InstanceBoxIff | src/design-inst.c:26-54 | the instance box is the hull of the moved points exactly when there is no rotation or the mirrored box has its top opposite its left edge |
| Placement.RotationExample | src/design-inst.c:45-47 | a rotated instance whose box is too narrow |
| Placement.MirrorExample | src/design-inst.c:26-54 | a square mirrored in x and in y, with a position and an origin: its box and its moved points |
| Placement.WidenedToParent | src/design-inst.c:138-162 | moving a line keeps its width, so that its hull moves as a box |
| Raising.CopyGeometryToParent | src/design-inst.c:138-162 | every layer of the source is drawn, moved, on a layer of the destination for the same technology layer, behind what is there and in order, and no other layer changes; the destination covers exactly what it covered before and the source's box as it lies in the parent; the invariant is kept |
| Raising.RaiseIntoEmpty | src/design-inst.c:138-162 | raised into an empty geometry and updated, its extents are the moved source extents, and the instance's box of them under exactly the condition on the instance box; the invariant is kept |
| Leakage.PathsAreAll | src/design-cell.c:131-145 | the enumeration behind the specification lists every instance path down to a leaf exactly once |
| Leakage.TotalRecurrence | src/design-cell.c:131-145 | the sum over all paths obeys the recurrence over instances, with multiplicity |
| Leakage.UpdateLeakagePower | src/design-cell.c:131-145 | one recomputation settles its cell in the presence of cells that are being computed |
| Leakage.UpdateLeakage | src/design-cell.c:149-159 | the guarded form; terminates on every graph |
| Leakage.Refresh | src/design-cell.c:149-159 | the cell's leakage is the sum of leaf powers over all its instance paths, although each shared cell is computed once |
| Leakage.AllDirtyIsOk | src/design-cell.c:149-159 | every all-dirty start satisfies what the updates keep |
| Capacitance.UpdateCapacitances | src/design-cell.c:86-110 | one recomputation settles the nets of its cell and the pins that they expose |
| Capacitance.PartCapStep | src/design-cell.c:96-105 | a net's flattened leaf sum grows by each terminal's flattened value |
| Capacitance.NetStored | src/design-cell.c:96-108 | storing the sum in the net and in the exposed pin makes that net right and no other net wrong |
| Capacitance.Refresh | src/design-cell.c:149-159 | every net of the updated cell, and with it the pin it exposes, carries the sum of the leaf pins on the flattened net |
| Capacitance.AllDirtyIsOk | src/design-cell.c:149-159 | every all-dirty start with given leaf pins satisfies what the updates keep |
| NetTiming.ArcsArePaths | src/design-net.c:136-261 | the timing paths back to the first exposed net are enumerated exactly once each, and the recursion over feeds yields one arc per path, that of the path, in order |
| NetTiming.BufferExample | src/design-net.c:201-244 | a buffer between two of the cell's own pins gives the output net one timing path, with the buffer's tables |
| PathTiming.PathMeaning | src/design-net.c:87-197 | for every timing path: unfolding the sums of the arc's delay gives the delays along the path, last feed first and back to the last feed without one, each at the load of its net and resampled with the transition that arrives there; the transition is that of the last feed, resampled in the same way; the related pin is the own pin on the net that the path starts from |
| PathTiming.FeedsAre | src/design-net.c:209-244 | a net is fed by exactly the arcs, of the cells instantiated at its terminals, to the terminal's pin, from every net of the cell that has the arc's other pin at the same instance |
| PathTiming.OneTermPerFeed | src/design-net.c:106-108 | there are as many delays as feeds exactly when every feed has one, and otherwise fewer |
| PathTiming.ChainExample | src/design-net.c:87-132 | two buffers in a row give the output one arc, whose delay is the sum of the second buffer's resampled delay and the first one's delay at the load of the net between them |
| NetUpdate.Forward | src/design-net.c:136-197 | forwarding appends one arc for an exposed net and one combined arc per arc of any other, with load and transition joins as coded |
| NetUpdate.CombineArc | src/design-net.c:87-132 | one combined arc, case by case: each table that is there is resampled with the earlier transition if there is one, the earlier delay is added to the delay if there are both, the related pin is kept, and nothing is appended where there is neither table |
| NetUpdate.UpdateNetTiming | src/design-net.c:201-261 | the nested loops settle the net: every fan-in net is finished before it is forwarded; then every arc of each finished net is in the cell under the cell's own pin on the net, the last one from each related pin with its tables, arcs under other pins are what they were, only timing marks come, and the cell has one if a table changed |
| NetUpdate.UpdateNet | src/design-net.c:268-272 | the guarded form leaves finished nets alone and always cleans its net; terminates by the set of dirty nets |
| NetUpdate.UpdateInOrder | src/design-cell.c:123-126 | updating nets in any order cleans them, gives each exactly the arcs of its paths, and the cell under its own pins the arcs of all finished nets and under no other pin a change; the cell is dirty again if a table changed; clean nets are left alone |
| NetUpdate.AllDirtyIsOk | src/design-net.c:268-272 | all timing bits set and no arcs is a start that the updates accept |
| NetUpdate.AsCreatedIff | src/misc.c:69-98 | nets with no bit set and no arcs stay so in every pass, which is right exactly for those in which no timing path ends |
| NetUpdate.EndlessIff | src/design-net.c:190-194 | the loop over a net's own arcs, each turn of which appends to them, goes on forever exactly when there is an arc and the feed has a table |
| NetUpdate.LoopExample | src/design-net.c:190-194 | two buffers that drive a net, one of them from that net, make it feed itself with an arc |
| Publishing.DonePublished | src/design-net.c:247-260 | a net's push leaves its own arcs and those of every other finished net in the cell |
| Publishing.PublishedHasArcs | src/design-net.c:247-260 | what a net has passed on is found under the cell's own pin on it, with the tables of the last arc from each related pin |
| Publishing.BufferPushed | src/design-net.c:250-258 | the buffer's output net gives its cell one arc, from the output pin to the input pin, with the buffer's tables, and any other cell none |
| Publishing.ForwardKnown | src/design-net.c:136-197 | forwarding keeps what the pushes assume: known pins, and both tables where an own pin is reached |
| TimingTables.ReduceToLoad | src/design-net.c:144-149 | the reduction at a load: null exactly where the lookup fails, otherwise the table that the term of the arc stands for |
| TimingTables.Resample | src/design-net.c:93-104 | the join with an earlier transition gives the table that the resampled term stands for |
| TimingTables.MeansUnique | src/design-net.c:87-197 | a term stands for one table at most |
| TimingTables.EarlierIsIndex | src/design-net.c:93-104 | the transition of every earlier arc on a timing path is a scalar or varies along the input transition alone, as the join requires |
| TimingTables.PathBetween | src/design-net.c:87-197 | the transition table at the end of a timing path stays in the range of the last arc's own table |
| CellArcs.Search | src/cell.c:253-278 | on a sorted arc list the search decides membership and finds the place to insert |
| CellArcs.GetArc | src/cell.c:265-278 | the arc of two pins, inserted without tables where there is none, with what is held for them |
| CellArcs.SetTable | src/cell.c:282-298 | the list stays sorted and, seen as a map, exactly one table of one key changes; marks spread from the cell exactly if the table was another one |
| CellArcs.PushArcs | src/design-net.c:247-260 | every terminal without an instance on one of the cell's pins gets every arc of the net under that pin, the last one from each related pin with its tables, and no key of another pin comes, goes or changes; only timing marks come, and the cell has one if a table changed |
| CellArcs.PushedLast | src/design-net.c:247-260 | of several paths from one related pin the last one's tables remain |
| CellArcs.PushedElsewhere | src/design-net.c:247-260 | no arc of another key changes |
| Connect.ConnectsTo | src/misc.c:33-41 | decides whether a terminal is on a net |
| Connect.Connect | src/misc.c:44-99 | one call extends or creates a net, or aborts before any change, as the specification step says |
| Connect.RunIsClosure | src/misc.c:44-99 | after any run that does not abort, two terminals share a net if and only if the equivalence closure of the calls relates them |
| Connect.RunNets | src/misc.c:64-98 | no terminal is on two nets, a net is exposed if and only if a terminal has no instance, and none is listed twice unless first connected to itself |
| Connect.AbortIff | src/misc.c:51-85 | the next call aborts if and only if both terminals were connected before and not to each other |
| Connect.MergeExample | src/misc.c:84-85 | two pairs are connected, then a terminal of one with one of the other: abort |
| LefSkip.SkipRendered | src/lef.c:674-785 | skip consumes exactly the tokens of any well-formed statement tree |
| LefSkip.SkippedIsRendered | src/lef.c:674-785 | and what it accepts always starts with a well-formed statement |
| LefSkip.GroupsSkipped | src/lef.c:687-767 | PIN, MACRO and SITE groups with their repeated names, OBS and PORT groups, and PROPERTYDEFINITIONS are skipped whole, whatever well-formed statements they hold |
| LefSkip.OthersEndAtSemicolon | src/lef.c:769-783 | behind any other first token a statement ends at the first semicolon, and fails where END comes before it or none comes |
| LefSkip.Lexer.SkipStatement | src/lef.c:674-785 | the loops of skip compute that function and never move back |
| LefParse.UnknownInBody | src/lef.c:1034-1112 | in front of any statement or END of a body, an unknown statement changes nothing, whatever follows |
| LefFile.ItemParsed | src/lef.c:1002-1112 | one item is parsed to what it means and exactly its tokens are taken, errors and uninitialised results included |
| LefFile.FileParsed | src/lef.c:1119-1145 | a whole file means what its items mean, each group adding what its body makes of a new object |
| LefLaws.FileTaken | src/lef.c:1119-1145 | and only such files are accepted: the tokens are those of well-formed items in front of END LIBRARY |
| LefLaws.MacrosOfFile | src/lef.c:787-801 | a file keeps the macros that were there and adds one for every MACRO group, in order, with the group's name, each as the file of that group alone gives it |
| LefLaws.PinsOfMacro | src/lef.c:834-846 | a macro keeps its name and its pins and gets one pin for every PIN group, in order, each with the group's name and what the group's body gives by itself |
| LefLaws.PortsOfPin | src/lef.c:849-859 | a pin keeps its name and its ports and gets one port for every PORT group, in order |
| LefLaws.OnlyLastLayer | src/lef.c:861-938 | a width or a rectangle goes to the last layer, all other layers are kept, LAYER appends an empty one, CLASS sets the class alone |
| LefLaws.SiteExample | src/lef.c:687-730 | a file of one site is an empty library |
| LefLaws.TwoMacrosExample | src/lef.c:967-993 | a file of two macros, the first with a size and two pins, one of them with two ports, one of those with a class and two layers |
| LefFile.UnknownIsIgnorable | src/lef.c:1002-1112 | removing all unknown statements at all depths leaves the parsed result unchanged |
| LefReader.ParseStatement | src/lef.c:1002-1112 | the recursive descent over the lexer computes the parse function; terminates by the remaining tokens |
| LefReader.ReadPair | src/lef.c:624-660 | a point with or without parentheses |
| LefReader.ReadRect | src/lef.c:915-938 | the rectangle is added to the last layer, or the parse fails, as the function of the tokens says |
| LefReader.Parse | src/lef.c:1119-1145 | reading a file computes the parse function of its tokens |
| LibSkip.StmtRead | src/lib-parser.c:34-147 | a group ends at its own closing brace, a complex attribute takes all its later siblings with it |
| LibSkip.SkipLandsOnOwnBrace | src/lib-parser.c:153-162 | skipping the body of an unhandled group lands on its own closing brace at any nesting depth |
| LibSkip.IgnoredErrorExample | src/lib-parser.c:122-124 | outside the grammar an error below a complex attribute is dropped and an inner brace is taken for the outer one |
| LibErrors.AgreesIff | src/lib-parser.c:34-162 | on every token list the reader's result and stopping place are those of a strict reader exactly when there is no error or the first one is kept: at top level, else at the end of the file below an outermost group, at a name below groups only, at any token but a closing brace |
| LibErrors.NoErrorIff | src/lib-parser.c:34-162 | no error is dropped exactly when what was read is a rendered list of statements |
| LibErrors.ErrorAtBraceExample | src/lib-parser.c:122-135 | a group whose last attribute lacks its value is accepted |
| LibSkip.Parser.ParseStmt | src/lib-parser.c:34-147 | the parser computes that reading; the measure is the number of remaining tokens |
| LibSkip.Parser.ParseStmts | src/lib-parser.c:153-162 | the same for the list loop |
| LibTable.WriteValues | src/lib.c:236-278 | every entry is written once in row-major order whatever the strides, in rows of the last axis, and a row follows a separator exactly where the second index is not zero |
| LibTable.WrittenInRows | src/lib.c:236-278 | with two axes in use the values of the file are the rows of the first axis, along the second, divided by the unit, wherever the entries are in memory |
| LibTable.RowsRead | src/lib-parser.c:86-103 | rows with or without commas between them are read as the same rows |
| LibTable.ParseRealFields | src/lib-parser.c:302-337 | the field loop takes values with single commas between them and rejects everything else |
| LibTable.ComputeStrides | src/lib-parser.c:638-645 | each used axis steps over all entries of the used axes behind it |
| LibTable.ReadStridesCanonical | src/lib-parser.c:638-645 | read backwards, the reader's strides are canonical |
| LibTable.AssembleTable | src/lib-parser.c:581-658 | the reader's table or its error: axes out of order, bad fields, wrong number of values |
| LibTable.ReadInRows | src/lib-parser.c:620-658 | with two axes in use the values are taken in that order, in units of time |
| LibNames.ReaderNames | src/lib-parser.c:275-284 | the eight names that the reader knows and their models |
| LibNames.ReaderModelIff | src/lib-parser.c:275-284 | every model has exactly one name, and no other name has a model |
| LibNames.ReaderModelSays | src/lib-parser.c:275-284 | a name has a model only if the model's edge and kind, and no other edge or kind, are words in it |
| LibNames.WrittenNames | src/lib.c:161-168 | the writer's names are the kind followed by the edge, for all eight models |
| LibGroup.ReadByName | src/lib-parser.c:529-660 | a scalar or table that is read has the edge and kind of its group's name, and exactly the eight names are not skipped |
| LibGroup.ReadGroup | src/lib-parser.c:529-660 | a group under its name: skipped if it is none of the eight, a scalar or a table over its template with the name's edge and kind, or refused |
| LibGroup.ReadSettings | src/lib-parser.c:370-467 | the statements of the body set axes and values one by one, are passed over under other names, or are refused |
| LibGroup.WriteFormat | src/lib.c:173-214 | the variables in use, then their scaled indices |
| LibGroup.WrittenReadIff | src/lib.c:156-169 | a written table is read as one exactly when its name is one of the two that both sides share, the file read declares the template, the timing has no such table, and the axes together with the template's are in order and of as many entries |
| LibGroup.ReadIsSame | src/lib-parser.c:567-658 | with a template that adds no axis, a table that is read is the same function of index vectors |
| LibGroup.NeverReadBack | src/lib.c:221-281 | a file that the program wrote declares no template: two of the eight tables are refused and six skipped |
| LibGroup.RefusedTableExample | src/lib.c:221-281 | a written table of one entry is refused without a template and read with an empty one |
| LibGroup.ScalarRoundTripIff | src/lib.c:343-347 | a scalar table returns exactly when its name is shared and it is zero or the time unit is one |
| LibGroup.ScalarExample | src/lib.c:343-347 | one, written in units of two, is read as a half |
| LibTable.RoundTrip | src/lib-parser.c:581-658 | the assembly takes what was written exactly when the axes are in order, and then denotes the same function of index vectors |
| LibTable.FileInOrder | src/lib-parser.c:583-598 | with only the written indices that is when the axes in use come first and there is one |
| LibTable.IndexRoundTrip | src/lib.c:200-211 | an index value returns exactly when its axis is not a length or it is zero |
| LibTable.UnitsOfAxes | src/lib.c:200-211 | indices are written in units of time, of capacitance or of a thousand millionth, and read in units of time or capacitance or as they are |
| LibTable.LengthIndexExample | src/lib.c:200-211 | a length of one is read as a thousand million |

## Left out

- TableJoin.Join: requires an index table that is a scalar or varies along the joined axis only; `TimingTables.EarlierIsIndex` shows that timing joins with no other. After a write behind the end nothing is promised.
- TableCopy.CopyValues: for two or more interpolated axes it states the slots as the code builds them; `SlotTheory.SlotsExactIff` says when those are the multilinear ones.
- TableAdd.Add: different tables have different buffers, and the result's axis list must have the sizes of its buffer or the size zero.
- Growing.OnLayer: does not promise one layer per technology, because the search is binary and insertion appends.
- Growing.SearchLayer: says nothing about what is missed when layers are not sorted.
- Instantiation.NewInst: does not restore the invariant for a clean parent, because the code does not.
- ExtentsUpdate.UpdateInstExtents: uses the code's own rotated box, see `Placement.InstanceBoxIff`.
- Capacitance.Refresh: requires that no pin is exposed by two nets, which `Connect.RunNets` gives for netlists built by `connect`.
- NetUpdate.CombineArc: the union of axes in `add_delay` (`src/design-net.c:27-83`) compares the axes of one operand with themselves, so its sum of tables is an uninterpreted term; `TimingTables.Means` gives sums no table.
- NetUpdate.UpdateNet: requires that no net which is not exposed feeds itself (`NetUpdate.EndlessIff`), that the tables which reach an own pin are there, as the program asserts, that no own pin is on two nets, which `Connect.RunNets` gives, and that the cell is not an instance of itself. Tables made in the same way from the same tables count as one, where the program compares addresses.
- NetUpdate.UpdateInOrder: the recursion of `phx_cell_update_timing` over the instances is not part of this model: whether a net above comes to feed itself, and the program to loop, depends on the arcs that the recursion pushes. The arcs of the instantiated cells are given.
- Raising.CopyGeometryToParent: source and destination are different geometries, and lines and shapes have the lengths that the adders assert.
- LefReader.Parse: character lexing is not part of this model, and number conversion is a parameter.
- LibSkip.Parser.ParseStmt: only the form without a handler; handlers other than the table assembly are not part of this model.
- LibGroup.ReadGroup: a refused table that leaves an empty table object behind is only refused here; the texts hold plain numbers, no SI prefixes.
- LibTable.WriteValues: numbers are exact, not the six digits of `%f`.
- Passes of `phx_cell_update`: each pass is modelled for its own bit with the other bits unchanged, the timing pass for the nets of one cell; one call with several bits runs them one after the other.
- `uses` is a sequence in insertion order instead of an address-sorted pointer set; the sorted array and pointer set themselves (`src/util-array.c`, `src/util-ptrset.c`) are left out as easy.
- Arithmetic: strides and sizes are unbounded naturals, rounding, infinities and NaN occur nowhere but in reset extents, and comparing doubles by bit pattern is comparing numbers.
- Integer table axes, among them the output edge, whose id does not fit the axis mask (`src/table.h:12`).
- Memory: reference counts, freeing, reallocation and the moves it causes; layers are objects that stay where they are.
- Net invalidation (`phx_net_invalidate`), which no code calls; the updates are shown right for nets whose timing bits are set.
- GDS, plotting, technology files, command dispatch and the LEF writer.
