# A model of the Open MPI parts of sensys

This project models the parts of the repository that carry the most logic, and proves what they are for.
Each part is a file or two; every statement holds for all inputs, all runs or all reachable states.

- **Datatypes.** `TypeMap.dfy` defines what a datatype description means: the sequence of blocks, and of
  byte displacements, of one item. `Add.dfy` builds descriptions by adding copies of other types.
  `Optimize.dfy` rewrites them when a type is committed. `Walk.dfy`, `Packing.dfy`, `Positioning.dfy` and
  `Convertor.dfy` walk a description with an explicit stack to pack it into buffers of any size, and to
  move to any position. `ContigGaps.dfy` packs and unpacks types whose items are one block each, and
  `Contiguous.dfy` packs those that are one block altogether. `Pipeline.dfy` puts building, committing and
  packing together, and `Built.dfy` holds the types for which that goes wrong.
- **Lock-free containers.** `Fifo.dfy` and `Lifo.dfy` are transition systems in which every read, write and
  compare-and-swap of shared memory by any number of threads is one step; `Interleaving.dfy` is what they
  share.
- **Hash tables.** `HashTable.dfy` is the open-addressing table with removal and growth on an array;
  `ProcTable.dfy` is the two-level process table whose inner tables are objects of their own.
- **Graph, tree and search.** `Dijkstra.dfy`, `TreeCodec.dfy`, `Assign.dfy`.
- **TCP transport.** `Connect.dfy` (crossing connections), `RecvFraming.dfy` (framing with a read cache),
  `SendWire.dfy` (partial writes and pending fragments), and `Transport.dfy`, which puts both sides together.

Where a property does not hold of the code, the code is kept as it is: a theorem gives the exact condition
on the input, and an input that violates it is named beside it.

- `OptimizeShort` preserves the byte sequence if and only if the description is *clean*. It is not clean
  when a strided element with a count above one is followed by data that starts where the elements would
  end if they were adjacent, or when a contiguous loop with gaps of more than three iterations directly
  follows the data in front of it (`StrideIsLost`, `RowIsLost`).
- Adding several copies of a type that is a single element with a count above one, at a stride equal to its
  extent, does not repeat the type map, and leaves bytes outside the true bounds unless these happen to be
  wide enough (`EntriesDescribe`, `TrueBoundsEnclose`, `OverlappingCopiesAreMerged`).
- The flag NO_GAPS is not taken back when a type without data changes the extent (`GapFlagKept`,
  `GapIsOverlooked`).
- The number of loops, which sizes the stacks, is set to one when copies of a predefined type with gaps are
  added. Stacks of that size are large enough exactly if the loops that rewriting keeps are nested at most two
  deep (`LoopsCounted`, `LoopsAreForgotten`).
- The stack for contiguous types takes its second count from the first committed element, which covers an
  item exactly if no other element has an extent of its own (`ContiguousCommit`, `ShortFirst`,
  `SecondElementIsSkipped`). Whether contiguous types are packed rightly is decided exactly by this and by
  the flag NO_GAPS (`RightExactly`, `PackedWrongly`).
- A push returns the ghost, which by its comment tells the caller that the queue was empty, exactly when the
  queue is empty and no pop is between its updates of head and tail (`PushReturns`, `EmptyQueueUnnoticed`).
- Distances are wrong when a 32-bit sum wraps. None wraps, in whatever order the library's sort puts equal
  weights, if and only if no sum can wrap towards a vertex that is not nearer and can be settled later
  (`Dijkstra`); in particular none does if no edge is heavier than 0x80000000 (`BoundedNoWrap`), and one does in
  every order with edges of 0x80000001 (`HeavyEdgeWraps`).
- The lookup of the shortest path from a vertex to itself returns infinity, not zero (`ShortestPath`).
- A message of size zero is handed out with the segment that the fragment was used for before (`HandOut`,
  `EmptyMessageComesWithOldBytes`).

## Model

| member | source | states |
|---|---|---|
| `Optimizer.OptimizeShort` | opal/datatype/opal_datatype_optimize.c:44-253 | the rewritten description has the same byte displacements in the same order as the original if and only if every merge is clean (a condition on adjacent entries of the input); it always has as many bytes and at most twice the entries, and for a clean input its contiguous loops are what their end markers say; its loops are nested exactly as deep as those that are written for the input, no deeper than before, and the stack holds exactly as many entries as loops that are kept are nested; elements and contiguous loops without gaps become exactly as many elements as there are breaks; data of one basic type without contiguous loops keeps that type, and a clean one even its blocks; if all its loops and elements carry the flag CONTIGUOUS, all that is written does |
| `Optimizer.SameBlocks` | opal/datatype/opal_datatype_optimize.c:207-242 | data of one basic type whose bytes are the same before and after has the same blocks |
| `Optimizer.OnElem` | opal/datatype/opal_datatype_optimize.c:207-242 | one element is merged with, or flushes, the pending data; the level invariant (bytes written and pending, clean so far) is kept, and an element is added exactly if it does not continue the run |
| `Optimizer.OnContigLoop` | opal/datatype/opal_datatype_optimize.c:97-167 | a contiguous loop, dense or with gaps, merged with or behind the pending data keeps the level invariant |
| `Optimizer.OnSmallLoop` | opal/datatype/opal_datatype_optimize.c:168-196 | a loop around one element is unrolled or becomes one strided element, and the level invariant is kept |
| `Optimizer.AtElem` | opal/datatype/opal_datatype_optimize.c:207-242 | bytes before and after one element, for every pending run: equal when the merge is right, different when it is not |
| `Optimizer.Join` | opal/datatype/opal_datatype_optimize.c:215-230 | an element that continues the pending run extends it as one byte range; a run of the same type keeps that type |
| `Optimizer.AtWholeLoop` | opal/datatype/opal_datatype_optimize.c:106-120 | a dense contiguous loop becomes one byte range, joined to the pending run when it continues it; right unless the pending run is strided |
| `Optimizer.AtGappedLoop` | opal/datatype/opal_datatype_optimize.c:121-166 | a contiguous loop with gaps: the first iteration joins the pending data, and the rest comes out right exactly for at most three iterations or coinciding ones |
| `Optimizer.JoinGappedLoop` | opal/datatype/opal_datatype_optimize.c:125-165 | the first iteration continues the pending data; the result is right exactly for at most three iterations or coinciding ones, and only if that data is not strided |
| `Optimizer.UnrollRows` | opal/datatype/opal_datatype_optimize.c:148-155 | writing the iterations of a short loop as elements yields the rows of the loop |
| `Optimizer.WriteRows` | opal/datatype/opal_datatype_optimize.c:148-165 | rows are written as elements, or for more than two as a contiguous loop that starts at the first displacement of the original loop |
| `Optimizer.Strided` | opal/datatype/opal_datatype_optimize.c:177-184 | one strided element stands for a loop around one element |
| `Optimizer.Unrolled` | opal/datatype/opal_datatype_optimize.c:185-195 | a loop of few iterations around one element is written out, element by element |
| `Optimizer.Flush` | opal/datatype/opal_datatype_optimize.c:78-83 | writing the pending run produces exactly its blocks |
| `Optimizer.LevelFlush` | opal/datatype/opal_datatype_optimize.c:76-83 | flushing at the end of a level loses and adds nothing |
| `Optimizer.LevelClose` | opal/datatype/opal_datatype_optimize.c:84-94 | closing a nested loop with the patched item count repeats exactly the rewritten body |
| `Optimizer.FlushAt` | opal/datatype/opal_datatype_optimize.c:76-83 | at the end of a loop, or in front of one that is not contiguous, the pending data is written and everything known is kept |
| `Optimizer.CloseLoop` | opal/datatype/opal_datatype_optimize.c:84-94 | the end of a loop: its first entry gets the number of items, the level around it goes on, and everything known is kept |
| `Optimizer.OpenLoop` | opal/datatype/opal_datatype_optimize.c:197-200 | a loop that is kept opens a level: the stack grows by where its body begins in the output, and everything known is kept |
| `Optimizer.Stay` | opal/datatype/opal_datatype_optimize.c:96-243 | an entry that neither opens nor closes a level keeps everything known |
| `Optimizer.Commit` | opal/datatype/opal_datatype_optimize.c:255-308 | without entries nothing is built; otherwise a description that can be walked, with the same size, extent and first displacement, and the same bytes if and only if the input is clean (the same blocks, too, for data of one basic type without contiguous loops); how deep its loops are, no deeper than before, and how many entries the stack held; the first element covers an item exactly if there is one piece |
| `Optimizer.KeptWritten` | opal/datatype/opal_datatype_optimize.c:97-200 | rewriting writes loops at least as deep as those that it keeps, at most one level deeper, and no deeper than the input |
| `Optimizer.KeptNestingIsDepth` | opal/datatype/opal_datatype_optimize.c:84-200 | the nesting of kept loops that the walk sees is the one of the sequence of entries |
| `Optimizer.RangeMerges` | opal/datatype/opal_datatype_optimize.c:97-242 | contiguous data is always merged rightly, and into what is in front of it exactly if no element has an extent of its own |
| `Optimizer.CoversAll` | opal/datatype/opal_convertor.c:359-362 | the first element covers everything exactly if there is no other one |
| `Optimizer.SameBytes` | opal/datatype/opal_datatype_optimize.c:255-308 | equal bytes of one item mean equal bytes of any number of items |
| `Optimizer.GappedLoopLosesARow` | opal/datatype/opal_datatype_optimize.c:121-166 | four rows with gaps behind an adjoining byte can be walked but are not clean |
| `Optimizer.StridedElementIsClosedUp` | opal/datatype/opal_datatype_optimize.c:207-242 | a strided element followed by data that seems to adjoin can be walked but is not clean |
| `Walking.BodyIsMap` | opal/datatype/opal_datatype_pack.c:270-395 | walking a description from a position up to its closing marker meets exactly the type map of the entries in between |
| `Walking.HonestIsContig` | opal/datatype/opal_datatype_pack.c:358-366 | end markers of contiguous loops tell the truth in one view exactly when they do in the other |
| `Walking.AtEnd` | opal/datatype/opal_datatype_pack.c:325-355 | at a closing marker: going round, leaving the loop or finishing leaves the blocks still to be delivered as they are, and the walk makes progress |
| `Walking.Descend` | opal/datatype/opal_datatype_pack.c:367-375 | entering a loop leaves exactly its remaining iterations and what follows |
| `Walking.MoveOn` | opal/datatype/opal_datatype_pack.c:317-322 | going on to the next entry leaves exactly what follows the current one |
| `Packing.PackPredefined` | opal/datatype/opal_datatype_pack.h:29-73 | as many whole elements as fit are copied in order, whether they are adjacent or strided, and the count, source and space are updated to match |
| `Packing.HowMany` | opal/datatype/opal_datatype_pack.h:42-45 | the greatest number of whole elements that fits |
| `Packing.PackContiguousLoop` | opal/datatype/opal_datatype_pack.h:75-102 | as many whole iterations as fit are copied, and that is what walking the body would deliver |
| `Packing.CopyStrided` | opal/datatype/opal_datatype_pack.h:57-69 | elements an extent apart are copied one by one |
| `Packing.AtElem` | opal/datatype/opal_datatype_pack.c:313-324 | the bytes put out are the bytes of the blocks that are no longer left; a stop means the next element does not fit |
| `Packing.AtLoop` | opal/datatype/opal_datatype_pack.c:356-376 | the fast path for contiguous loops followed by entering the loop delivers exactly the blocks that are no longer left |
| `Packing.Fill` | opal/datatype/opal_datatype_pack.c:270-395 | one buffer: the output is the bytes of the delivered blocks in type-map order, packing stops only when the next element does not fit or nothing is left, and it terminates |
| `Convertor.PackOne` | opal/datatype/opal_datatype_pack.c:309-381 | a buffer receives whole blocks from where the convertor stands, and the next block would not have fitted |
| `Convertor.PackBuffers` | opal/datatype/opal_datatype_pack.c:270-395 | any number of buffers in one call: consecutive chunks, and the number of bytes reported is the number delivered |
| `Convertor.ChunksFlatten` | opal/datatype/opal_datatype_pack.c:270-395 | the chunks of a call put together are the bytes between its first and its last cut |
| `Convertor.SendConvertor.constructor` | opal/datatype/opal_convertor.c:375-412 | a new convertor stands in front of the first block |
| `Convertor.SendConvertor.Pack` | opal/datatype/opal_datatype_pack.c:270-395 | each buffer ends at an element boundary and is as full as it can be, the byte count is right, 1 is returned exactly when all count times size bytes are out, and the saved stack is never deeper than the loop nesting plus two; how far the call gets follows from its buffers alone |
| `Convertor.PackCalls` | opal/datatype/opal_datatype_pack.c:270-395 | over any sequence of calls the convertor ends where filling the buffers one after the other ends, each with whole blocks until the next one does not fit; the output is the slice of the full stream up to there, completion means that the end is reached, and the last return code says so |
| `Convertor.ChunkFills` | opal/datatype/opal_datatype_pack.c:309-381 | what is packed into a buffer ends where whole blocks stop fitting |
| `Convertor.FillsAll` | opal/datatype/opal_datatype_pack.c:309-388 | a buffer reaches the end exactly if it has room for all bytes that are left |
| `Convertor.FillsAllCalls` | opal/datatype/opal_datatype_pack.c:309-388 | one buffer with room for everything, in any call, is enough |
| `Contiguous.Convertor.PackNoOp` | opal/datatype/opal_convertor.c:226-272 | without a conversion function: the next bytes of the block in as many buffers as it takes, and 1 exactly when all are out |
| `Contiguous.Convertor.PackStraight` | opal/datatype/opal_datatype_pack.c:58-102 | the same, going on at the displacement on the stack |
| `Contiguous.PackCalls` | opal/datatype/opal_datatype_pack.c:58-102 | over any sequence of calls the output is the next bytes of the block, as many as the buffers have room for |
| `Contiguous.StraightItems` | opal/datatype/opal_convertor.c:515-523 | items are one block exactly if there is at most one of them or they follow each other directly |
| `Positioning.AtElem` | opal/datatype/opal_datatype_position.c:56-78 | skipping elements passes exactly the bytes by which the space shrinks |
| `Positioning.AtLoop` | opal/datatype/opal_datatype_position.c:80-98 | skipping whole iterations of a contiguous loop, then entering it, passes exactly the bytes by which the space shrinks |
| `Positioning.Seek` | opal/datatype/opal_datatype_position.c:172-252 | walking forward by any number of bytes stops at the last element boundary that is reached, with the rest reported as partial |
| `Positioning.AdvanceDisplaces` | opal/datatype/opal_datatype_position.c:134-136 | adding a displacement to every stack entry displaces everything that is left |
| `Positioning.LastItems` | opal/datatype/opal_datatype_position.c:137-139 | fewer items to go at the bottom of the stack leave off exactly the last items |
| `Positioning.JumpIsWalk` | opal/datatype/opal_datatype_position.c:126-142 | skipping whole datatypes by adjusting every stack entry leaves the same blocks as stepping through them |
| `Convertor.Move` | opal/datatype/opal_datatype_position.c:106-253 | moving forward from any saved position to any later one: whole items by adjusting the stack, the rest by walking |
| `Convertor.SendConvertor.SetPosition` | opal/datatype/opal_convertor.h:288-320 | forwards or by rollback, the convertor ends on the greatest element boundary not above the position, from where it packs on, and is completed exactly at or behind the end |
| `Convertor.SendConvertor.Rewind` | opal/datatype/opal_convertor.c:375-412 | the stack is back in front of the first block |
| `DatatypeAdd.Datatype.Add` | opal/datatype/opal_datatype_add.c:103-375 | the whole new state, with bounds and flags; the type map grows by exactly the shifted, repeated map of the added type if and only if no single element with a count above one is repeated at its own stride; over any sequence of adds the flag CONTIGUOUS tells the truth |
| `DatatypeAdd.EntriesDescribe` | opal/datatype/opal_datatype_add.c:274-349 | the appended entries have the copies' type map, exactly unless copies overlap; their byte count is right in any case |
| `DatatypeAdd.BasicEntries` | opal/datatype/opal_datatype_add.c:279-302 | a predefined type becomes one element or a loop around one |
| `DatatypeAdd.SingleEntries` | opal/datatype/opal_datatype_add.c:312-317 | the shortcut that multiplies the count of a single element is right exactly when that count is one or the copies coincide |
| `DatatypeAdd.WholeEntries` | opal/datatype/opal_datatype_add.c:318-347 | a whole description is copied with its displacements moved, between loop markers when there are several copies |
| `DatatypeAdd.MovedMap` | opal/datatype/opal_datatype_add.c:331-339 | moving the displacements of all elements displaces the type map |
| `DatatypeAdd.CopiesContiguous` | opal/datatype/opal_datatype_add.c:351-366 | when the flag CONTIGUOUS is kept, the map is one unbroken ascending byte range from the true lower bound, of length size |
| `DatatypeAdd.CopiesKeepValid` | opal/datatype/opal_datatype_add.c:255-372 | appending copies keeps everything that is known about a datatype |
| `DatatypeAdd.CopiesAppend` | opal/datatype/opal_datatype_add.c:255-349 | sizes, loops and type map after appending |
| `DatatypeAdd.BoundsKeepValid` | opal/datatype/opal_datatype_add.c:160-234 | bounds never touch the data; without an upper bound from the user the extent is a multiple of the alignment |
| `DatatypeAdd.BoundsCover` | opal/datatype/opal_datatype_add.c:160-234 | without bounds from the user the new bounds cover those of every copy, the lower one exactly and the upper one up to padding |
| `DatatypeAdd.BoundsAreExtreme` | opal/datatype/opal_datatype_add.c:160-234 | with and without bounds from the user: the lower bound is the least, and the upper one the greatest, of those that the user has set, or of all if there are none |
| `DatatypeAdd.TrueBoundsEnclose` | opal/datatype/opal_datatype_add.c:255-264 | the true bounds enclose every byte of the type if and only if no copies overlap or the last merged element lies inside the type so far and the copies |
| `DatatypeAdd.CopiesUnbroken` | opal/datatype/opal_datatype_add.c:351-366 | copies that keep the flag CONTIGUOUS are elements and contiguous loops without gaps |
| `DatatypeAdd.GapFlagKept` | opal/datatype/opal_datatype_add.c:229-250 | the flag NO_GAPS keeps meaning that the size is the extent, if and only if there is data in what is added, or its copies do not change the extent: a condition on the bounds, alignments and user flags of both types, for each combination of bounds set by the user |
| `DatatypeAdd.ExtentKept` | opal/datatype/opal_datatype_add.c:160-234 | the new bounds leave the extent of a type without gaps as it is if and only if that condition holds |
| `DatatypeAdd.LoopsCounted` | opal/datatype/opal_datatype_add.c:292-329 | the count of loops stays at least twice the nesting of the loops that rewriting keeps, if and only if copies of a predefined type with gaps are not added to a type with such loops; if they are, both stacks fit exactly up to a nesting of two |
| `DatatypeAdd.KeptWithCopies` | opal/datatype/opal_datatype_add.c:274-349 | how deep kept loops are nested after adding: a loop around one predefined element does not count |
| `DatatypeAdd.RoomyFits` | opal/datatype/opal_convertor.c:538-547 | such a count is enough: the optimizer needs one entry more than kept loops are nested, a convertor two more than loops of the rewritten description |
| `DatatypeAdd.WrittenNesting` | opal/datatype/opal_datatype_optimize.c:60-200 | rewriting a built type writes loops as deep as those that it keeps, or one level deeper |
| `DatatypeAdd.MarkerKeepsValid` | opal/datatype/opal_datatype_add.c:124-149 | the lower- and upper-bound markers change bounds only |
| `DatatypeAdd.MarksBound` | opal/datatype/opal_datatype_add.c:124-149 | however many markers are added, the lower bound is the least and the upper bound the greatest that the user has set |
| `DatatypeAdd.Padded` | opal/datatype/opal_datatype_add.c:229-234 | the rounded upper bound makes the extent a multiple of the alignment, with the source language's remainder |
| `DatatypeAdd.ClosedLayout` | opal/datatype/opal_datatype_optimize.c:255-282 | whatever adding builds can be walked once its closing marker is there, and one item of it is its type map |
| `DatatypeAdd.ContiguousCommit` | opal/datatype/opal_datatype_optimize.c:255-308 | a contiguous type is committed rightly, begins at its true lower bound, and becomes one element exactly if no element but the first has an extent of its own |
| `DatatypeAdd.AddedSimple` | opal/datatype/opal_datatype_add.c:275-350 | a type whose repeated elements are back to back and whose contiguous loops have no gaps stays so exactly if what is added is predefined, or a single copy, or, where it is one element or contiguous, back to back |
| `DatatypeAdd.SimpleCommits` | opal/datatype/opal_datatype_optimize.c:44-308 | a type that is built in this way is always committed rightly |
| `DatatypeAdd.Datatype.Commit` | opal/datatype/opal_datatype_optimize.c:255-308 | a type without data has no committed form; the one of any other type has the bytes of its type map if and only if the description is clean, and for a contiguous type its first element covers an item exactly if no other one has an extent of its own; the stack held as many entries as kept loops are nested, and the committed form is nested as deep as loops are written |
| `Pipeline.PackBuilt` | opal/datatype/opal_convertor.c:592-626 | building, committing and packing together: if the condition of the way in which the type is packed holds (size equals extent, the first element covers an item, or the description is clean), the output is the beginning of the bytes of the type map, item by item; how many follows from the buffers, and one with room for all of them is enough |
| `Pipeline.PackCommitted` | opal/datatype/opal_convertor.c:592-626 | which of the four ways is taken; the output is right under its condition, and in one call a contiguous type is taken from one block, or from blocks as long as the first element |
| `Pipeline.EnoughRoom` | opal/datatype/opal_convertor.c:592-626 | with one buffer that has room for all bytes, all of them are packed |
| `Pipeline.RightExactly` | opal/datatype/opal_convertor.c:592-626 | for contiguous types the places that one call takes the bytes from are those of the type map if and only if that condition holds |
| `Pipeline.PackedWrongly` | opal/datatype/opal_convertor.c:592-626 | if it does not hold for a contiguous type, there is a memory from which other bytes are packed |
| `Pipeline.TransferBuilt` | opal/datatype/opal_datatype_unpack.c:63-163 | items of a built contiguous type with gaps, whose first committed element covers an item, packed and unpacked through any buffers: exactly the bytes of the type map are copied |
| `BuiltTypes.OverlappingCopiesAreMerged` | opal/datatype/opal_datatype_add.c:312-317 | two 2-byte integers one byte apart, added twice: the second copy ends up at the wrong place, with a byte outside the true bounds |
| `BuiltTypes.RowIsLost` | opal/datatype/opal_datatype_optimize.c:121-166 | a byte and four rows behind it are committed to other bytes |
| `BuiltTypes.StrideIsLost` | opal/datatype/opal_datatype_optimize.c:207-242 | two integers with a gap and one where the second would end without it are committed to other bytes |
| `BuiltTypes.SecondElementIsSkipped` | opal/datatype/opal_convertor.c:401-409 | a byte and an integer with an extent of eight: packing two items takes a wrong byte |
| `BuiltTypes.GapIsOverlooked` | opal/datatype/opal_datatype_add.c:229-250 | an integer, and a type without data that ends at byte eight: two items are packed as if they were one block |
| `BuiltTypes.LoopsAreForgotten` | opal/datatype/opal_datatype_add.c:292-294 | three nested loops that are kept, and two bytes with a gap behind them: only one loop is counted, and committing needs a fourth entry of a stack of three |
| `ContiguousWithGaps.PackOne` | opal/datatype/opal_datatype_pack.c:195-249 | one buffer, whatever the stack: exactly the places from which it takes its bytes, and the stack it leaves |
| `ContiguousWithGaps.PackItems` | opal/datatype/opal_datatype_pack.c:221-243 | whole items and the beginning of the next one are copied in order |
| `ContiguousWithGaps.WalkedPlaces` | opal/datatype/opal_datatype_pack.c:195-249 | from a stack that stands at a byte of the data these are the places of the next bytes, and the stack then stands at the quotient and the remainder of the bytes converted by the size |
| `ContiguousWithGaps.ShortFirst` | opal/datatype/opal_datatype_pack.c:199-220 | with a stack that expects fewer bytes than an item has, packing is right exactly if no more than these are packed |
| `ContiguousWithGaps.PlacesOfItems` | opal/datatype/opal_datatype_pack.c:115-116 | the places are the byte displacements of the items of a contiguous type |
| `ContiguousWithGaps.UnpackOne` | opal/datatype/opal_datatype_unpack.c:84-154 | one buffer is written to the places of the next bytes, for items with gaps and without, and the stack is as after packing |
| `ContiguousWithGaps.UnpackItems` | opal/datatype/opal_datatype_unpack.c:130-152 | whole items and the beginning of the next one are written in place |
| `ContiguousWithGaps.UnpackAcross` | opal/datatype/opal_datatype_unpack.c:109-152 | the rest of the current item first, then whole items and the beginning of the next one, are written in place |
| `ContiguousWithGaps.UnpackWithin` | opal/datatype/opal_datatype_unpack.c:140-152 | a buffer that ends within the current item |
| `ContiguousWithGaps.Convertor.constructor` | opal/datatype/opal_convertor.c:375-412 | the first stack is right exactly when the description's first element covers a whole item |
| `ContiguousWithGaps.Convertor.SetPosition` | opal/datatype/opal_convertor.c:329-373 | at any position the stack encodes quotient and remainder, exactly unless the position is an item boundary and the description's first element does not cover an item |
| `ContiguousWithGaps.Convertor.Pack` | opal/datatype/opal_datatype_pack.c:105-257 | any sequence of buffer sizes and any stack: the places the bytes come from, and as many as fit; from a stack that is right, the data bytes in order |
| `ContiguousWithGaps.PackCalls` | opal/datatype/opal_datatype_pack.c:104-258 | over any sequence of calls the output is the next bytes of the data, as many as the buffers have room for, from a stack that is right; in one call it comes from where the stack says |
| `ContiguousWithGaps.Convertor.Unpack` | opal/datatype/opal_datatype_unpack.c:63-163 | any sequence of buffers: the memory after writing their bytes to their places one after the other |
| `ContiguousWithGaps.Copied` | opal/datatype/opal_datatype_unpack.c:63-163 | a byte of memory is that of the sender if data lies there, and unchanged if not, even when items overlap |
| `ContiguousWithGaps.DataPlaces` | opal/datatype/opal_datatype_unpack.c:63-163 | data lies at exactly the places of its bytes |
| `ContiguousWithGaps.Transfer` | opal/datatype/opal_datatype_unpack.c:63-163 | packing through any buffers and unpacking through any others copies every data byte to the same place and leaves the gaps alone |
| `Fifo.FirstInFirstOut` | opal/class/opal_fifo.h:85-178 | in every interleaving of any number of threads, the items popped are the first ones pushed, in the order of the successful tail updates, nothing is lost, and the queue has no item twice |
| `Fifo.ReturnsInOrder` | opal/class/opal_fifo.h:139-177 | a pop returns the item that its own update of the head took from the front, and the call with the n-th update returns the n-th item pushed |
| `Fifo.OnePlaceEach` | opal/class/opal_fifo.h:139-143 | two updates of the head never have the same number, so that each item is returned once |
| `Fifo.PopHandsOver` | opal/class/opal_fifo.h:175-177 | when a pop returns, its item is linked to nothing and may be pushed again |
| `Fifo.PushAppends` | opal/class/opal_fifo.h:81-110 | a push appends the item it was called with, once, and returns the item that was at the tail then |
| `Fifo.PushAlone` | opal/class/opal_fifo.h:81-110 | a push that runs alone returns after four steps |
| `Fifo.PopAlone` | opal/class/opal_fifo.h:115-178 | a pop that runs alone returns the first item after five or six steps, or finds the queue empty after three, if no other thread is between two of its updates at the front |
| `Fifo.WaitEnds` | opal/class/opal_fifo.h:152-172 | a pop waits only for a push that is about to link the item, and then repairs the head and returns |
| `Fifo.PopTakesFirst` | opal/class/opal_fifo.h:121-143 | a successful update of the head takes the item that has waited longest |
| `Fifo.OneOwner` | opal/class/opal_fifo.h:85-178 | no item is held by two threads, or held while it is in the queue |
| `Fifo.NothingOnlyIfEmpty` | opal/class/opal_fifo.h:121-131 | a pop returns NULL only if the queue was empty at some moment since it was called |
| `Fifo.HeadIsGhostInRepair` | opal/class/opal_fifo.h:147-172 | the assertion in the repair path holds in every run |
| `Fifo.PushReturns` | opal/class/opal_fifo.h:81-110 | push returns the ghost if and only if the queue is empty and no pop is between its two updates |
| `Fifo.EmptyQueueUnnoticed` | opal/class/opal_fifo.h:81-110 | a run in which a push into an empty queue does not return the ghost |
| `Fifo.PopCasTakes` | opal/class/opal_fifo.h:121-143 | when the head is updated it was unchanged since it was read: its item is the first, and the new head is the second or the ghost |
| `Fifo.KeepPushCas` | opal/class/opal_fifo.h:92-98 | a successful update of the tail keeps the invariant for all threads |
| `Fifo.KeepPopCas` | opal/class/opal_fifo.h:139-143 | a successful update of the head keeps the invariant for all threads |
| `Fifo.KeepPopTailCas` | opal/class/opal_fifo.h:147-150 | resetting the tail keeps the invariant |
| `Fifo.KeepPopFix` | opal/class/opal_fifo.h:161-171 | writing the repaired head keeps the invariant |
| `Fifo.KeepPopClear` | opal/class/opal_fifo.h:175-177 | clearing the link of the popped item keeps the invariant |
| `Fifo.KeepPushNext` | opal/class/opal_fifo.h:105-108 | linking the previous item keeps the invariant |
| `Fifo.KeepPushHead` | opal/class/opal_fifo.h:102-104 | writing the head after a push into an empty queue keeps the invariant |
| `Fifo.KeepStep` | opal/class/opal_fifo.h:85-178 | every step of push and pop keeps the invariant |
| `Fifo.RunKeeps` | opal/class/opal_fifo.h:85-178 | the invariant holds in every state of every run |
| `LifoCounted.Linearizable` | opal/class/opal_lifo.h:115-157 | in every interleaving the successful updates of the head, in order, are a legal history of a sequential stack, and the links from the head are that stack |
| `LifoCounted.PopReturns` | opal/class/opal_lifo.h:134-160 | a pop returns the item that its own update of the head took from the top; when it returns, the item is linked to nothing and may be pushed again |
| `LifoCounted.PushReturns` | opal/class/opal_lifo.h:111-129 | a push puts the item it was called with on top, once, and returns what was there |
| `LifoCounted.PushAlone` | opal/class/opal_lifo.h:111-129 | a push that runs alone returns after three steps |
| `LifoCounted.PopAlone` | opal/class/opal_lifo.h:134-160 | a pop that runs alone returns the top item after five steps, or finds the stack empty after two |
| `LifoCounted.PushThenPop` | opal/class/opal_lifo.h:111-158 | a thread that pushes an item and then pops, undisturbed, gets this item back, and the stack is as before |
| `LifoCounted.CounterPreventsAba` | opal/class/opal_lifo.h:139-156 | counting in pop only suffices: a pop that succeeds takes the top item and leaves its present successor |
| `LifoCounted.KeepPopCas` | opal/class/opal_lifo.h:150-155 | a successful pop keeps the invariant for all threads |
| `LifoCounted.KeepPushCas` | opal/class/opal_lifo.h:118-127 | a successful push keeps the invariant for all threads |
| `LifoCounted.NothingOnlyIfEmpty` | opal/class/opal_lifo.h:142-148 | pop finds nothing exactly while the stack is empty |
| `LifoCounted.OneOwner` | opal/class/opal_lifo.h:115-157 | no item is held by two threads, or held while it is on the stack |
| `LifoCounted.RunKeeps` | opal/class/opal_lifo.h:115-157 | the invariant holds in every state of every run |
| `LifoItemFree.Linearizable` | opal/class/opal_lifo.h:165-264 | in every interleaving the same holds for the version that locks items by their item_free word |
| `LifoItemFree.PopReturns` | opal/class/opal_lifo.h:233-266 | a pop returns the item that its own update of the head took from the top; when it returns, the item is linked to nothing and may be pushed again |
| `LifoItemFree.PushReturns` | opal/class/opal_lifo.h:164-184 | a push puts the item it was called with on top, once, and returns what was there |
| `LifoItemFree.PushAlone` | opal/class/opal_lifo.h:164-184 | a push that runs alone puts its item on top, unlocks it and returns after five steps |
| `LifoItemFree.PopAlone` | opal/class/opal_lifo.h:233-266 | a pop that runs alone returns the top item after five steps if no other thread has it locked, or finds the stack empty after one |
| `LifoItemFree.PushThenPop` | opal/class/opal_lifo.h:164-266 | a thread that pushes an item and then pops, undisturbed, gets this item back, and the stack is as before |
| `LifoItemFree.FreeIsOnStack` | opal/class/opal_lifo.h:165-264 | an item whose item_free is 0 is on the stack |
| `LifoItemFree.LockedByOne` | opal/class/opal_lifo.h:236-252 | an item of the stack is locked exactly if one thread, and only one, is between locking it and unlocking or taking it |
| `LifoItemFree.LockPreventsAba` | opal/class/opal_lifo.h:233-264 | two threads never lock the same item, and a pop that succeeds takes the top item and leaves its present successor |
| `LifoItemFree.KeepPopCas` | opal/class/opal_lifo.h:244-248 | a successful pop keeps the invariant for all threads |
| `LifoItemFree.KeepPushCas` | opal/class/opal_lifo.h:170-178 | a successful push keeps the invariant for all threads |
| `LifoItemFree.KeepPopSwap` | opal/class/opal_lifo.h:237-240 | locking an item, or failing to, keeps the invariant |
| `LifoItemFree.KeepPopOpen` | opal/class/opal_lifo.h:250-251 | unlocking an item after a failed pop keeps the invariant |
| `LifoItemFree.KeepPushOpen` | opal/class/opal_lifo.h:175-178 | unlocking an item after a push keeps the invariant, even when others have been pushed on it |
| `LifoItemFree.NothingOnlyIfEmpty` | opal/class/opal_lifo.h:236-258 | pop finds nothing exactly while the stack is empty |
| `LifoItemFree.OneOwner` | opal/class/opal_lifo.h:165-264 | no item is held by two threads, or held while it is on the stack |
| `LifoItemFree.RunKeeps` | opal/class/opal_lifo.h:165-264 | the invariant holds in every state of every run |
| `HashTables.RemoveAt` | opal/class/opal_hash_table.c:262-315 | clearing a slot and re-placing the cluster behind it, with wrap-around, restores the probe invariant, removes exactly that key and keeps every other binding; the scan ends |
| `HashTables.Repair` | opal/class/opal_hash_table.c:291-312 | the scan over the rest of the cluster, up to the first empty slot |
| `HashTables.Replace` | opal/class/opal_hash_table.c:298-311 | one element stays or moves to the first hole behind its home |
| `HashTables.FindPlace` | opal/class/opal_hash_table.c:298-311 | the first empty slot from an element's home on, or its own slot |
| `HashTables.Move` | opal/class/opal_hash_table.c:303-307 | moving an element into the first hole behind its home keeps the state of the repair |
| `HashTables.EndRepair` | opal/class/opal_hash_table.c:291-296 | when the scan meets an empty slot every key can be found again |
| `HashTables.Probe` | opal/class/opal_hash_table.c:353-364 | probing from a key's home finds its slot, or the empty slot where it belongs, and ends |
| `HashTables.EmptySlot` | opal/class/opal_hash_table.c:390-403 | as long as there are fewer bindings than slots, a slot is empty |
| `HashTables.Rehash` | opal/class/opal_hash_table.c:208-256 | growing keeps every binding and restores the probe invariant for the new capacity |
| `HashTables.Reinsert` | opal/class/opal_hash_table.c:238-248 | one element goes to the first empty slot from its new home on |
| `HashTables.FirstEmpty` | opal/class/opal_hash_table.c:240-247 | the first empty slot from a home on, with wrap-around |
| `HashTables.Refill` | opal/class/opal_hash_table.c:235-249 | all elements of the old table are in the new one, and can be found there |
| `HashTables.RoundUp` | opal/class/opal_hash_table.c:151-156 | the capacity is larger than asked for and one more than a multiple of 30 |
| `HashTables.HashTable.constructor` | opal/class/opal_hash_table.c:160-186 | a new table is empty; there is room for the estimated number of elements before the table grows |
| `HashTables.HashTable.Get` | opal/class/opal_hash_table.c:332-365 | lookup in the map that the table represents |
| `HashTables.HashTable.Set` | opal/class/opal_hash_table.c:368-412 | the map is updated at one key, the size is its cardinality, and an empty slot remains; the table grows exactly when a new key reaches the trigger |
| `HashTables.HashTable.Grow` | opal/class/opal_hash_table.c:207-256 | the map is unchanged and an empty slot remains |
| `HashTables.HashTable.Remove` | opal/class/opal_hash_table.c:415-447 | the key is removed from the map, if it was there |
| `HashTables.NextElement` | opal/class/opal_hash_table.c:757-773 | the next occupied slot |
| `HashTables.VisitAll` | opal/class/opal_hash_table.c:757-796 | first and next visit every binding exactly once and then fail |
| `HashTables.HashTable.Traverse` | opal/class/opal_hash_table.c:757-796 | the traversal lists the map |
| `ProcTables.ProcTable.constructor` | opal/class/opal_hash_table.c:873-880 | a new process table is empty |
| `ProcTables.ProcTable.Get` | opal/class/opal_hash_table.c:904-914 | lookup in the map keyed by jobid and vpid |
| `ProcTables.ProcTable.Set` | opal/class/opal_hash_table.c:916-936 | the map is updated at one pair; a job's table is made when needed, and no job has an empty table |
| `ProcTables.ProcTable.AddJob` | opal/class/opal_hash_table.c:919-933 | an empty table is registered for a job that has none, and no binding changes |
| `ProcTables.ProcTable.SetIn` | opal/class/opal_hash_table.c:934-935 | setting in one job's table, which may grow, updates one pair and leaves the tables of other jobs alone |
| `ProcTables.ProcTable.Remove` | opal/class/opal_hash_table.c:938-951 | the pair is removed from the map, if it was there, and a table that becomes empty is dropped |
| `ProcTables.ProcTable.RemoveIn` | opal/class/opal_hash_table.c:941-944 | removing from one job's table removes one pair and leaves the tables of other jobs alone |
| `ProcTables.ProcTable.DropJob` | opal/class/opal_hash_table.c:944-948 | dropping an empty table changes no binding |
| `ProcTables.ProcTable.FirstKey` | opal/class/opal_hash_table.c:953-967 | the least occupied place of the two-level table |
| `ProcTables.ProcTable.NextKey` | opal/class/opal_hash_table.c:969-993 | the least occupied place behind a given one, in the same or a later job |
| `ProcTables.ProcTable.Traverse` | opal/class/opal_hash_table.c:953-993 | first and next visit every pair exactly once and then fail |
| `ProcTables.AllVisited` | opal/class/opal_hash_table.c:953-993 | nodes that cover every occupied place once list every pair of the map once |
| `Graphs.Dijkstra` | opal/class/opal_graph.c:677-754 | every vertex but the source is listed exactly once, and the weights are the smaller of the shortest distance and infinity exactly if no sum has wrapped. For every order of equal weights none wraps unless one can: some sum wraps towards a vertex that is not nearer and is not on a shortest path to where it starts. If one can, every order that puts its target last lets it wrap |
| `Graphs.LastComesLater` | opal/class/opal_graph.c:721-745 | if the target of such a sum comes last among equals, it is settled after the vertex where the sum starts |
| `Graphs.DoneBefore` | opal/class/opal_graph.c:721-745 | a vertex at the end of a path around the last of equals, no longer than its distance, is settled before it |
| `Graphs.BoundedNoWrap` | opal/class/opal_graph.c:729-742 | no sum wraps if no edge is heavier than infinity and one |
| `Graphs.OnlyTies` | opal/class/opal_graph.c:721-745 | if sums can wrap towards vertices that are not nearer, but none must, one wraps in one direction only, between two vertices that are equally far |
| `Graphs.TieInOneOrder` | opal/class/opal_graph.c:721-745 | such a sum need not wrap in any order: its target is on the only path to where it starts |
| `Graphs.HeavyEdgeWraps` | opal/class/opal_graph.c:729-742 | with edges of infinity and two the result is wrong in every order of equal weights |
| `Graphs.NeedNotWrap` | opal/class/opal_graph.c:721-745 | if no sum has wrapped, none had to |
| `Graphs.ShortestPath` | opal/class/opal_graph.c:587-629 | between distinct vertices that value if no sum can wrap, and infinity for a vertex and itself or outside the graph |
| `Graphs.Adjacent` | opal/class/opal_graph.c:387-430 | the weight of the first edge, 0 for a vertex and itself, infinity for none |
| `Graphs.Lightest` | opal/class/opal_graph.c:721-745 | the lightest vertex that is not settled has its final distance |
| `Graphs.PathLeaves` | opal/class/opal_graph.c:721-745 | a path from the source to a vertex that is not settled is at least as long as the weight of the lightest one |
| `Graphs.Relax` | opal/class/opal_graph.c:729-742 | after relaxation every vertex to go is compared with all settled ones, or a sum has wrapped and a vertex is lighter than any path to it |
| `Graphs.CompareWraps` | opal/class/opal_graph.c:729-742 | a sum that wraps leaves a vertex that is lighter than any path to it |
| `Graphs.TrackWraps` | opal/class/opal_graph.c:729-742 | a sum that wraps in some run is one that can wrap: the path to where it starts goes through settled vertices only, and so not through its target |
| `Graphs.Round` | opal/class/opal_graph.c:722-745 | one round: the next vertex is settled, or something is wrong already and stays so |
| `Graphs.RelaxOne` | opal/class/opal_graph.c:729-742 | comparing one vertex keeps what is known, and its weight is still the length of a path, if the sum does not wrap |
| `Graphs.Lowered` | opal/class/opal_graph.c:739-741 | a sum that does not wrap gives a true distance or changes nothing, and one that wraps makes the vertex lighter than the one it is reached from |
| `Graphs.SortFrom` | opal/class/opal_graph.c:743-744 | the rest of the queue is a permutation, sorted by weight and among equals by the given order |
| `Graphs.Start` | opal/class/opal_graph.c:700-720 | the queue at the start has the source first |
| `Graphs.Enqueue` | opal/class/opal_graph.c:696-720 | the queue is built and sorted by weight and order, with nothing settled |
| `Graphs.Finished` | opal/class/opal_graph.c:746-753 | when everything is settled, the queue without its first item is the result |
| `Connecting.SameSocket` | contrib/build-mca-comps-outside-of-tree/btl_tcp2_endpoint.c:338-381 | in every run of crossing connects, accepts, acks and closes, two connected endpoints are on the same socket, with both ends open |
| `Connecting.SmallerIsNeverRefused` | contrib/build-mca-comps-outside-of-tree/btl_tcp2_endpoint.c:355-361 | a socket of the process with the smaller name is never refused or closed |
| `Connecting.EndIsRefusal` | contrib/build-mca-comps-outside-of-tree/btl_tcp2_endpoint.c:439-465 | a process sees the end of its socket exactly if it has been refused, which happens only to the one with the larger name; it then gives up this socket, both ends of which are closed, and the other process is not affected |
| `Connecting.QuietIsConnected` | contrib/build-mca-comps-outside-of-tree/btl_tcp2_endpoint.c:355-361 | when there is a socket and no handler has anything left to do, both processes are connected, and every other socket is closed at both ends |
| `Connecting.HandlersEnd` | contrib/build-mca-comps-outside-of-tree/btl_tcp2_endpoint.c:338-388 | every handler leaves less to do, so that without new attempts they come to an end |
| `Connecting.HandlersConnect` | contrib/build-mca-comps-outside-of-tree/btl_tcp2_endpoint.c:338-388 | from every reachable state with a socket the handlers lead to one connection |
| `Connecting.StaysConnected` | contrib/build-mca-comps-outside-of-tree/btl_tcp2_endpoint.c:389-432 | a connected endpoint is never moved to another socket or closed |
| `Connecting.KeepNext` | contrib/build-mca-comps-outside-of-tree/btl_tcp2_endpoint.c:338-685 | every step of either process keeps the invariant |
| `Connecting.KeepName` | contrib/build-mca-comps-outside-of-tree/btl_tcp2_component.c:1030-1081 | reading the peer's name, and accepting or refusing by name order, keeps the invariant |
| `Connecting.KeepStart` | contrib/build-mca-comps-outside-of-tree/btl_tcp2_endpoint.c:531-605 | starting to connect keeps the invariant |
| `Connecting.KeepComplete` | contrib/build-mca-comps-outside-of-tree/btl_tcp2_endpoint.c:613-650 | completing a connect keeps the invariant |
| `Connecting.KeepAck` | contrib/build-mca-comps-outside-of-tree/btl_tcp2_endpoint.c:473-493 | receiving the peer's answer keeps the invariant |
| `Connecting.KeepEnd` | contrib/build-mca-comps-outside-of-tree/btl_tcp2_endpoint.c:439-465 | only an endpoint that waits for an answer can find its socket closed |
| `Connecting.RunKeeps` | contrib/build-mca-comps-outside-of-tree/btl_tcp2_endpoint.c:338-685 | the invariant holds in every state of every run |
| `Receiving.Events` | contrib/build-mca-comps-outside-of-tree/btl_tcp2_endpoint.c:686-735 | over any wake-ups with any arrivals and any split of the reads, exactly the complete messages have been delivered, in order, those that are not empty with intact payloads, and the cache is empty; nothing stays in the socket if reads find all that has arrived and the cache can take it |
| `Receiving.Drain` | contrib/build-mca-comps-outside-of-tree/btl_tcp2_endpoint.c:686-735 | if no read comes back empty, waking up as long as bytes are left frames the whole stream |
| `Receiving.Receiver.RecvHandler` | contrib/build-mca-comps-outside-of-tree/btl_tcp2_endpoint.c:686-735 | one wake-up: what has been read is parsed, the complete messages are delivered in order, those that are not empty with their payloads, the rest is the current fragment, and the cache is empty; at least what the first read finds is taken |
| `Receiving.Receiver.NextMessage` | contrib/build-mca-comps-outside-of-tree/btl_tcp2_endpoint.c:706-730 | a fragment is completed and handed out, or everything read is part of it; an empty message from the cache comes with the segment of the one before |
| `Receiving.Receiver.FragRecv` | contrib/build-mca-comps-outside-of-tree/btl_tcp2_frag.c:149-285 | header and payload are filled from the cache and then from the socket, byte for byte |
| `Receiving.Receiver.HeaderRecv` | contrib/build-mca-comps-outside-of-tree/btl_tcp2_frag.c:149-245 | the header is complete, or all that was read is part of it |
| `Receiving.Receiver.PayloadRecv` | contrib/build-mca-comps-outside-of-tree/btl_tcp2_frag.c:246-262 | the payload is complete, or all that was read is part of the message |
| `Receiving.Receiver.Fill` | contrib/build-mca-comps-outside-of-tree/btl_tcp2_frag.c:155-240 | one vector is filled from the cache or by one read |
| `Receiving.Receiver.FillFromCache` | contrib/build-mca-comps-outside-of-tree/btl_tcp2_frag.c:158-183 | from the cache: copied, or left in place exactly when a payload lies there as a whole |
| `Receiving.Receiver.FillFromSocket` | contrib/build-mca-comps-outside-of-tree/btl_tcp2_frag.c:184-240 | one read takes what it finds, as far as there is room: the vector first, the rest into the cache |
| `Receiving.Receiver.HandOut` | contrib/build-mca-comps-outside-of-tree/btl_tcp2_endpoint.c:714-719 | the upper layer gets the tag and the segment, which is the payload if and only if the payload is not empty or the segment was |
| `Receiving.Receiver.Renew` | contrib/build-mca-comps-outside-of-tree/btl_tcp2_endpoint.c:720-729 | the fragment is used again as long as the cache is not empty, with the segment it had |
| `Receiving.EmptyMessageComesWithOldBytes` | contrib/build-mca-comps-outside-of-tree/btl_tcp2_endpoint.c:711-727 | an empty message that is read from the socket together with another one is handed out with the payload of that one |
| `Receiving.ParseMore` | contrib/build-mca-comps-outside-of-tree/btl_tcp2_frag.c:242-284 | bytes that arrive later only add messages |
| `Receiving.ParseFirst` | contrib/build-mca-comps-outside-of-tree/btl_tcp2_frag.c:242-284 | a header and a payload of the size it states are the first message |
| `Receiving.SizeOfHeader` | contrib/build-mca-comps-outside-of-tree/btl_tcp2_hdr.h:46-56 | the size that is read from a header is the size that was written into it, in network order and in host order |
| `Receiving.ParseStream` | contrib/build-mca-comps-outside-of-tree/btl_tcp2.c:375-386 | messages that are sent one after the other are parsed into the same messages, with nothing left over |
| `Receiving.CarrySent` | contrib/build-mca-comps-outside-of-tree/btl_tcp2.c:375-386 | what is handed out for them are the tags and payloads that were sent |
| `Sending.Interleave` | contrib/build-mca-comps-outside-of-tree/btl_tcp2_endpoint.c:238-282 | for every interleaving of sends, connection and write events, and every pattern of partial writes, the wire carries the accepted fragments in order, and all of them when the connection is idle |
| `Sending.SendAll` | contrib/build-mca-comps-outside-of-tree/btl_tcp2_endpoint.c:238-282 | if the write event comes as long as something is left, everything is on the wire, in the order of acceptance |
| `Sending.Sender.EndpointSend` | contrib/build-mca-comps-outside-of-tree/btl_tcp2_endpoint.c:238-282 | a fragment is accepted unless the endpoint has failed, and its bytes come after all accepted before |
| `Sending.Sender.SendNow` | contrib/build-mca-comps-outside-of-tree/btl_tcp2_endpoint.c:255-273 | with no current fragment, a fragment is written at once or becomes the current one |
| `Sending.Sender.Enqueue` | contrib/build-mca-comps-outside-of-tree/btl_tcp2_endpoint.c:274-277 | behind a current fragment, or before the connection, a fragment waits its turn |
| `Sending.Sender.EndpointConnected` | contrib/build-mca-comps-outside-of-tree/btl_tcp2_endpoint.c:413-432 | connecting starts the first pending fragment and loses nothing |
| `Sending.Sender.SendProgress` | contrib/build-mca-comps-outside-of-tree/btl_tcp2_endpoint.c:760-803 | one round of the write event: as much of the current fragment is written as the socket takes, the next one follows exactly if it took all, and the event is registered exactly as long as something is current |
| `Sending.Sender.SendHandler` | contrib/build-mca-comps-outside-of-tree/btl_tcp2_endpoint.c:755-803 | the whole write event: everything is written if the socket takes it |
| `Sending.FragSend` | contrib/build-mca-comps-outside-of-tree/btl_tcp2_frag.c:101-147 | as many bytes as the socket takes are written, and the vectors left are the rest of the fragment |
| `Sending.Advance` | contrib/build-mca-comps-outside-of-tree/btl_tcp2_frag.c:132-145 | after a write of any length the vectors left hold exactly the other bytes |
| `Transport.Transmit` | contrib/build-mca-comps-outside-of-tree/btl_tcp2.c:365-392 | messages sent in any interleaving with the events of the connection, through writes and reads of any sizes, are delivered in order with their tags and payloads |
| `Assignment.FindBest` | contrib/build-mca-comps-outside-of-tree/btl_tcp2_proc.c:590-594 | for every square weight matrix: the result is a permutation, and none has more connections, or as many with more weight, counted as the sizes of the sets of connected interfaces |
| `Assignment.ScoreCounts` | contrib/build-mca-comps-outside-of-tree/btl_tcp2_proc.c:174-204 | the score is the number of connected interfaces and the sum of their weights |
| `Assignment.Search.Visit` | contrib/build-mca-comps-outside-of-tree/btl_tcp2_proc.c:206-220 | after trying everything from one choice on, the work array is as before and no completion of it beats the best |
| `Assignment.Search.Evaluate` | contrib/build-mca-comps-outside-of-tree/btl_tcp2_proc.c:174-204 | a complete assignment is kept if and only if it beats the best so far |
| `Assignment.TopsAll` | contrib/build-mca-comps-outside-of-tree/btl_tcp2_proc.c:213-217 | if no completion that gives the next level to some free interface beats the best, no completion at all does |
| `Assignment.Complete` | contrib/build-mca-comps-outside-of-tree/btl_tcp2_proc.c:208-211 | at the last level the work array is a permutation |
| `Assignment.Unconstrained` | contrib/build-mca-comps-outside-of-tree/btl_tcp2_proc.c:590-594 | with nothing chosen, the best is the best of all permutations |
| `TreeCodec.Copy` | opal/class/opal_tree.c:450-530 | writing a tree and reading it under an item appends one child equal in shape, order and payloads, and counts its items |
| `TreeCodec.Container.Deserialize` | opal/class/opal_tree.c:520-530 | the stream of a tree is consumed exactly up to its end marker |
| `TreeCodec.Container.ReadItem` | opal/class/opal_tree.c:467-515 | one item with everything below it is read and appended, at any depth |
| `TreeCodec.Container.ReadTokens` | opal/class/opal_tree.c:467-515 | the loop over the delimiters, by level |
| `TreeCodec.Container.Open` | opal/class/opal_tree.c:497-501 | a start delimiter at the first level appends one new item |
| `TreeCodec.Container.ReadChild` | opal/class/opal_tree.c:502-507 | a start delimiter one level down reads a whole child into the new item |
| `TreeCodec.Container.AddChild` | opal/class/opal_tree.c:184-217 | the new child is the last one, one level deeper, and counted |
| `TreeCodec.Serialize` | opal/class/opal_tree.c:450-465 | the stream of the tree and the end marker |
| `TreeCodec.AddItems` | opal/class/opal_tree.c:402-445 | siblings are written after each other, except at the start |
| `TreeCodec.AddItem` | opal/class/opal_tree.c:402-445 | an item between its delimiters, with its children |
| `TreeCodec.OnlyOneTree` | opal/class/opal_tree.c:402-515 | different trees have different streams, and no stream is the beginning of another |

## Left out

- Generic and partial-element unpacking, heterogeneous conversion, checksums and CUDA copies: they depend on macros and architectures that are not part of this model.
- Integer widths in the datatype engine: displacements, counts and sizes are unbounded, so that overflow of the 32-bit counts and of `last_length` is not captured; sizes of predefined types are those of an LP64 machine.
- DatatypeAdd.Datatype.Add: does not model the counts of basic types and assumes that displacements of the added copies fit the machine's type; the datatype's fields and its description are one value that methods replace, not an array grown in place.
- The NULL buffer shortcuts of packing: their bookkeeping differs from the copying path.
- Positioning of receive convertors within an element: the send side avoids it.
- ContiguousWithGaps.Convertor.Pack: the memory that is read is a value, since packing does not change it.
- ContiguousWithGaps.Convertor.Unpack: requires a stack that stands at its position; with another one it may write outside the memory that the user has given, which the model does not represent.
- Pipeline.TransferBuilt: requires that the first committed element covers an item, as unpacking does.
- ContiguousWithGaps.Transfer: requires that the first committed element covers an item, as unpacking does.
- Pipeline.PackBuilt: requires a clean description of types that are not contiguous; without it `Optimizer.Commit` states that the committed form has other bytes, but not which buffers show them, since the contiguous loops of that form need not be what their end markers say.
- Convertor.SendConvertor.Pack: is for types that are not contiguous; contiguous ones are packed in other ways, which have members of their own.
- Weak memory ordering, torn reads of a counted pointer and wrap-around of its counter: steps are sequentially consistent, a counted pointer is read at once where the source reads its whole value, and counters are unbounded.
- The versions of FIFO and LIFO for machines without a wide compare-and-swap that use locks on the head or load-linked instructions, and the single-threaded versions: they would add easier members.
- Progress of the retry loops while other threads interfere: only threads that run alone are shown to finish.
- Failure of allocation, in every part.
- The three key types of the hash table: the table is generic in the key and its hash function; keys of a pointer table are values here.
- `opal_hash_table_remove_all` and `opal_proc_table_remove_all`: they only clear.
- Parallel edges in the graph: the first one counts, in the code and in the definition of a path's length.
- Graphs.SortFrom: stands for the library's sort; the order in which that puts equal weights, in each round, is a parameter.
- Removal, duplication and comparison of trees and graphs: not governed by the properties here.
- TreeCodec.Container.Deserialize: requires a stream that was written by serialization, as below.
- TreeCodec.Container.ReadTokens: requires a stream that was written by serialization, as below.
- TreeCodec.Container.ReadItem: requires a stream that was written by serialization, as the source does not handle others; the item's own data is one token that reading inverts; the links between siblings are a sequence.
- TreeCodec.Container.AddChild: the links to the parent, the siblings and the container are the sequence of children.
- What the network does: how much each read finds and each write takes are parameters. A host stores numbers with the least significant byte first.
- Socket errors, reconnection, several addresses per process and PUT or GET fragments in the TCP transport: I/O plumbing.
- Receiving.Events: excludes PUT messages, as below.
- Receiving.Receiver.RecvHandler: excludes PUT messages from the stream, and models the fragment's own buffer as a value.
- Sending.Sender.SendProgress: is one round of the handler's loop; callbacks and other threads act between rounds.
- Assignment.FindBest: does not model the overflow of a sum of weights, nor the choice of an address from the best assignment.
- Other containers, the object system, the monitoring tools, databases and scripts of the repository: only easier members.
