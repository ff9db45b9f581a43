# Verification of ReSHOP's sorting library and two of its text routines

This project models `external/sort.h`, the macro-instantiated sorting library that ReSHOP compiles
into several of its translation units, together with the integer printer `external/itostr/itostr.c`
and the option scanner of `src/api/api_options.c`, and proves what they promise. Everything is plain
Dafny; `dafny verify dfyconfig.toml` checks all of it.

## How the model reads the code

- **Elements and order.** ReSHOP instantiates `SORT_CMP` with the difference of two integer keys
  (`src/dag/empdag_alg.c:55`, `src/solver/solver_eval.c:22`, `src/ovf/ovf_transform.c:41`). An element
  is a key and the rest of the record, so that elements with equal keys can be told apart. "Stable"
  means that for every key the elements with that key stand in the same order as before
  (`Order.Stable`); it implies that the array was permuted. `Order.SortedStableUnique` shows that
  sorted and stable together determine the result, and `Order.MergeUnique` and
  `Order.StableSortUnique` turn this into two reference functions, the stable merge and the stable
  sort, against which the methods are proved.
- **Arrays.** A C pointer into the array is the array and an offset. Each sort states what it leaves in
  its segment and that nothing outside changes (`SameOutside`, `Permuted`). A range that a routine
  only reads is passed as the sequence it holds. `memcpy`, `memmove` and `realloc` are copies and a
  new buffer; running out of memory is not modelled.
- **Integers.** Where a width matters it is written out: the `int` offsets of the galloping search and
  of the two binary searches, the `size_t` arithmetic of quicksort, the doubling `int` of the
  bottom-up sorts, the counters and conversions of the TimSort merges, the sums of the buffer merges, the
  unsigned difference in the option scanner, and the low bytes and sign bit in the printer, whose
  masks are written as remainders. Elsewhere indices are unbounded.
- **Loops.** The inner loops of the merges, and the body of some loops, are methods of their own.
  Straight-line sequences of exchanges are lists that a method runs in place.

| file | contents |
|---|---|
| `Order.dfy`, `Cells.dfy`, `Sequences.dfy`, `Arith.dfy` | elements, sortedness, stability, the reference merge and sort; permuted segments; slices, sequences that agree outside a range, and reversal; products, quotients and powers of two |
| `Gallop.dfy`, `Insertion.dfy`, `Runs.dfy`, `Minrun.dfy`, `TimMerge.dfy`, `RunStack.dfy`, `TimSort.dfy` | TimSort |
| `Networks.dfy`, `SmallNetworks.dfy`, `SmallSort.dfy` | the 0-1 principle, the networks for 2 to 16 elements, the small sort and its stability |
| `Rotation.dfy`, `RotationMerge.dfy`, `RecursiveMerge.dfy`, `BottomUp.dfy`, `KeyCollection.dfy`, `BufferMerge.dfy` | merging in place by rotations, by recursion and with a swap buffer; key collection; the two bottom-up sorts |
| `Heap.dfy`, `QuickSort.dfy`, `MergeSort.dfy` | heap sort, the hybrid quicksort, merge sort |
| `Itostr.dfy`, `Options.dfy` | integer printing and the option scanner |

## What the proofs found

- `TIM_SORT` is not stable for 3 to 16 elements, because it hands them to exchange networks.
  `SmallSort.SmallSortStability` gives the exact condition; for each of the fourteen networks there is
  an input on which it exchanges equal keys.
- `BINARY_INSERTION_FIND` is off by one when x exceeds the last element (and when it equals it in a
  longer range); its only caller excludes this. `Insertion.BinaryInsertionFind` states exactly when it
  is right.
- `MEDIAN` repeats a comparison and returns the greatest of its three elements when b <= a < c
  (`QuickSort.MedianExact`). Quicksort needs only that it returns one of its indices.
- The exit tests of the galloping loop in `TIM_SORT_MERGE_RIGHT` always compare 0 with the threshold.
  The result does not depend on them.
- `unsignedstrconv_impl` says that it decrements the remaining size but never does, so that a size of 2
  or more is taken to be enough (`Itostr.SizeRespected`). The conversions are proved for callers that
  provide the room.
- An option argument such as `name = value` gives the value `= value` (`Options.SpacedEquals`).

## Model

| member | source | states |
|---|---|---|
| `TimSort.TimSort` | external/sort.h:1998-2045 | for every size up to 2^31 the array ends as a sorted permutation of itself, what lies behind it is untouched, and above 16 elements equal keys keep their order; the exact outcome is the function whose stability is settled by SmallSort.SmallSortStability |
| `TimSort.SortByRuns` | external/sort.h:2018-2044 | from 64 elements on the outcome is the reference stable sort; the runs that are pushed are those that the original array falls into for the minimum of compute_minrun, and every write to the 128-entry run stack is in range |
| `TimSort.MainLoop` | external/sort.h:2035-2044 | the loop ends, because the rest of the array and then the height of the stack decrease; the runs on the stack always partition the processed prefix |
| `TimSort.PushNext` | external/sort.h:1954-1996 | the run that is pushed starts at curr and is as long as the next natural run, but at least minrun or all that is left; it is sorted, continues the partition and leaves the runs below alone. There is more exactly while the end of the array is not reached; at the end the array is sorted and the buffer freed |
| `TimSort.NextRun` | external/sort.h:1961-1971 | the next run is as long as the natural run that COUNT_RUN finds, but at least minrun or all that is left; it is sorted and a stable rearrangement of its cells |
| `TimSort.MergeAll` | external/sort.h:1978-1986 | merging the two top runs until one is left sorts the prefix stably |
| `TimSort.CheckInvariant` | external/sort.h:1523-1550 | reads only the top of the stack and answers whether the last run is shorter than the one below it, and both together shorter than the third |
| `TimSort.TimSortCollapse` | external/sort.h:1890-1952 | every merge is made on a stack whose length invariant is broken, between the two top runs exactly when they are out of order and otherwise below the top; no merge of the two top runs follows one below the top, and on a stack with the invariant nothing happens. The stack that is left is the one after these merges, every run of it holds its own cells in stable order, the invariant holds on the whole of it, and a stack whose top violated it is lower |
| `TimSort.CollapseRound` | external/sort.h:1916-1948 | one round joins the two runs that the lengths of the four top runs call for, in the array and on the stack; it stops only when the whole stack is in order |
| `TimSort.CollapsePair` | external/sort.h:1901-1914 | two runs are joined exactly when they are out of order |
| `TimSort.TimSortMerge` | external/sort.h:1859-1888 | the two top runs become their stable merge and nothing else changes; min_gallop stays a non-negative int that exceeds neither its old value nor both lengths |
| `TimSort.MergeAdjacent` | external/sort.h:1868-1887 | trimming with two galloping searches and merging the rest is the stable merge of the two full runs, with a buffer no longer than the shorter run; when they are in order already nothing moves and min_gallop is halved |
| `TimSort.MergeTop` | external/sort.h:1944-1947 | merging the two top runs keeps the partition of the prefix and moves elements inside the joined run only, stably |
| `TimSort.MergeBelowTop` | external/sort.h:1938-1942 | the same for the two runs below the top |
| `TimSort.TempStorage.Resize` | external/sort.h:1557-1570 | afterwards the scratch buffer holds at least the requested number of cells; it is replaced exactly when it was too small or missing, by one of just that size |
| `RunStack.CheckSettlesAll` | external/sort.h:1523-1550 | if only the top triple is in doubt, what CHECK_INVARIANT reads decides the invariant of the whole stack, in both directions |
| `RunStack.StopMeansInvariant` | external/sort.h:1920-1934 | when the collapse loop stops, the invariant holds on the whole stack although at most four runs were compared |
| `RunStack.MovesWhileBroken` | external/sort.h:1916-1948 | the collapse loop goes on exactly while the invariant is broken, and merges the two top runs exactly while they are out of order |
| `RunStack.InvariantInNumbers` | external/sort.h:1523-1550 | the invariant holds exactly when every run is longer than each run above it and than any two runs above it together |
| `RunStack.RightKeepsCollapsing` | external/sort.h:1943-1947 | a merge of the two top runs keeps what holds before every round of the collapse loop |
| `RunStack.LeftKeepsCollapsing` | external/sort.h:1936-1942 | after a merge below the top the top pair is in order and no merge of the two top runs can follow |
| `RunStack.RightsBeforeLefts` | external/sort.h:1890-1952 | over a whole collapse no merge of the two top runs comes after a merge below the top |
| `RunStack.PushCollapses` | external/sort.h:1973-1975 | a push on a stack with the invariant can break it only at the top |
| `RunStack.JoinedPartition` | external/sort.h:1943-1947 | merging two neighbouring runs keeps the partition of the prefix into sorted runs |
| `RunStack.JoinedKept` | external/sort.h:1943-1947 | merging two neighbouring runs moves elements inside the joined run only, stably |
| `RunStack.PushedPartition` | external/sort.h:1973-1976 | pushing a sorted run that starts where the last one ends keeps the partition |
| `RunStack.LengthsGrow` | external/sort.h:1523-1550 | under the invariant run lengths grow at least like Fibonacci numbers towards the bottom |
| `RunStack.StackHeight` | external/sort.h:2001-2001 | a stack with the invariant over fewer than 2^64 elements has at most 91 runs, so 128 entries suffice |
| `TimMerge.TimSortMergeLeft` | external/sort.h:1667-1758 | for every min_gallop the result is the reference stable merge, with scratch space for the first run only and no read outside either run; min_gallop and both win counts never leave the range of int, and min_gallop grows to the length of the longer run at most |
| `TimMerge.TimSortMergeRight` | external/sort.h:1761-1856 | the same from the back, with scratch space for the second run only |
| `TimMerge.CastsFit` | external/sort.h:1767-1769 | the conversions of sizes to int are exact for all pairs of runs of together at most n elements exactly when n is at most 2^31 |
| `TimMerge.MergeLeftOneByOne` | external/sort.h:1686-1711 | one element at a time, in the order of the merge, until for the first time one run has won min_gallop times in a row, or once if that is 0, or the second run is used up; the counters hold the wins in a row, and the first run is never used up |
| `TimMerge.MergeLeftGalloping` | external/sort.h:1715-1751 | whole stretches at a time, until the stretch of the run that has won before is shorter than 7 for the first time or the second run is used up; each round lowers min_gallop by one down to 0, and giving up raises it by one; the first run is never used up |
| `TimMerge.MergeRightOneByOne` | external/sort.h:1782-1808 | the same from the back, until one run has won often enough in a row or the first run is used up; the second run is never used up |
| `TimMerge.MergeRightGalloping` | external/sort.h:1812-1849 | the same from the back, except that the exit tests compare 0, so that after the first round, or the first half of it, galloping is given up; the second run is never used up |
| `TimMerge.CutAfterGallopA` | external/sort.h:1720-1725 | after a gallop through the first run the next element of the second run is next in the merge |
| `TimMerge.CutAfterGallopB` | external/sort.h:1736-1745 | after a gallop through the second run the next element of the first run is next in the merge |
| `TimMerge.CutBeforeGallopA` | external/sort.h:1817-1828 | the same towards the front, for the first run |
| `TimMerge.CutBeforeGallopB` | external/sort.h:1835-1839 | the same towards the front, for the second run |
| `TimMerge.TrimSound` | external/sort.h:1868-1879 | skipping the prefix of A up to B[0] and the suffix of B from the last of A on loses nothing, and what is left satisfies what both merges rely on |
| `TimMerge.NothingToMerge` | external/sort.h:1872-1875 | when all of A is skipped the two runs are merged already |
| `Gallop.TimSortGallop` | external/sort.h:1573-1663 | from any anchor the result is the upper bound of the key when right is set and the lower bound otherwise; no int overflows below 2^31 elements |
| `Gallop.NoRoomToDouble` | external/sort.h:1601-1601 | the quotient test holds exactly when the doubled offset would leave the range, in both directions |
| `Gallop.Bisect` | external/sort.h:1651-1660 | the binary phase ends at the bound |
| `Runs.CountRun` | external/sort.h:1471-1521 | the run goes on exactly to the element that breaks its direction or to the last element of the array, and is reversed exactly when it descends |
| `Runs.RunLengthUnique` | external/sort.h:1471-1521 | the array alone determines how long the run is |
| `Runs.AscendingRun` | external/sort.h:1471-1521 | the run that is left is sorted and a stable rearrangement of what was there |
| `Runs.ReverseElements` | external/sort.h:1459-1469 | the segment is reversed |
| `Runs.ReversedRun` | external/sort.h:1516-1519 | reversing a strictly decreasing run sorts it and is stable |
| `Minrun.MinrunBalanced` | external/sort.h:117-128 | from 64 elements on minrun is between 32 and 64 and just large enough that 2^n such runs cover the array, where n is the least number of halvings that leave fewer than 64 |
| `Minrun.MinrunSmall` | external/sort.h:117-128 | below 64 elements minrun is the size |
| `Insertion.BinaryInsertionFind` | external/sort.h:908-945 | the result is the insertion point exactly when x is below the last element, or equals the only one, and otherwise the index of the last element |
| `Insertion.InsertStable` | external/sort.h:961-973 | inserting at the upper bound keeps the range sorted and moves x only past larger keys |
| `Insertion.ShiftUp` | external/sort.h:965-971 | the loop with the unsigned index moves the block up by one cell |
| `Insertion.BinaryInsertionSortStart` | external/sort.h:948-975 | the outcome is the reference stable sort, given that the first elements are sorted |
| `Insertion.BinaryInsertionSort` | external/sort.h:978-985 | the outcome is the reference stable sort, for every size |
| `Networks.ZeroOnePrinciple` | external/sort.h:237-237 | a network of compare-exchange steps sorts every sequence of n elements exactly when it sorts every sequence of n truth values |
| `Networks.ApplyPermutes` | external/sort.h:237-237 | every network permutes its input |
| `Networks.SortsByWires` | external/sort.h:263-267 | a network of at most 16 cells sorts every sequence of elements exactly when it leaves sixteen wires of truth values in order |
| `SmallNetworks.Sorts2` | external/sort.h:269-271 | the network for 2 elements leaves all truth values in order |
| `SmallNetworks.Sorts3` | external/sort.h:275-279 | the network for 3 elements leaves all truth values in order |
| `SmallNetworks.Sorts4` | external/sort.h:283-289 | the network for 4 elements leaves all truth values in order |
| `SmallNetworks.Sorts5` | external/sort.h:293-303 | the network for 5 elements leaves all truth values in order |
| `SmallNetworks.Sorts6` | external/sort.h:307-320 | the network for 6 elements leaves all truth values in order |
| `SmallNetworks.Sorts7` | external/sort.h:324-341 | the network for 7 elements leaves all truth values in order |
| `SmallNetworks.Sorts8` | external/sort.h:345-365 | the network for 8 elements leaves all truth values in order |
| `SmallNetworks.Sorts9` | external/sort.h:369-395 | the network for 9 elements leaves all truth values in order |
| `SmallNetworks.Sorts10` | external/sort.h:399-429 | the network for 10 elements leaves all truth values in order |
| `SmallNetworks.Sorts11` | external/sort.h:433-469 | the network for 11 elements leaves all truth values in order |
| `SmallNetworks.Sorts12` | external/sort.h:473-513 | the network for 12 elements leaves all truth values in order |
| `SmallNetworks.Sorts13` | external/sort.h:517-563 | the network for 13 elements leaves all truth values in order |
| `SmallNetworks.Sorts14` | external/sort.h:567-619 | the network for 14 elements leaves all truth values in order |
| `SmallNetworks.Sorts15` | external/sort.h:623-680 | the network for 15 elements leaves all truth values in order |
| `SmallNetworks.Sorts16` | external/sort.h:684-745 | the network for 16 elements leaves all truth values in order |
| `SmallSort.NetworkSorts` | external/sort.h:747-810 | each of the networks for up to 16 elements sorts every input |
| `SmallSort.BitonicSort` | external/sort.h:747-816 | the straight-line exchanges in place leave the result of the network, or of binary insertion beyond 16 elements, and touch nothing else |
| `SmallSort.SmallSortCorrect` | external/sort.h:747-816 | the small sort leaves a sorted permutation of its input, for every length |
| `SmallSort.SmallSortStability` | external/sort.h:150-153 | the small sort is stable exactly for at most 2 and for more than 16 elements |
| `SmallSort.Unstable3` | external/sort.h:275-279 | an input of 3 elements on which the network exchanges equal keys |
| `SmallSort.Unstable4` | external/sort.h:283-289 | an input of 4 elements on which the network exchanges equal keys |
| `SmallSort.Unstable5` | external/sort.h:293-303 | an input of 5 elements on which the network exchanges equal keys |
| `SmallSort.Unstable6` | external/sort.h:307-320 | an input of 6 elements on which the network exchanges equal keys |
| `SmallSort.Unstable7` | external/sort.h:324-341 | an input of 7 elements on which the network exchanges equal keys |
| `SmallSort.Unstable8` | external/sort.h:345-365 | an input of 8 elements on which the network exchanges equal keys |
| `SmallSort.Unstable9` | external/sort.h:369-395 | an input of 9 elements on which the network exchanges equal keys |
| `SmallSort.Unstable10` | external/sort.h:399-429 | an input of 10 elements on which the network exchanges equal keys |
| `SmallSort.Unstable11` | external/sort.h:433-469 | an input of 11 elements on which the network exchanges equal keys |
| `SmallSort.Unstable12` | external/sort.h:473-513 | an input of 12 elements on which the network exchanges equal keys |
| `SmallSort.Unstable13` | external/sort.h:517-563 | an input of 13 elements on which the network exchanges equal keys |
| `SmallSort.Unstable14` | external/sort.h:567-619 | an input of 14 elements on which the network exchanges equal keys |
| `SmallSort.Unstable15` | external/sort.h:623-680 | an input of 15 elements on which the network exchanges equal keys |
| `SmallSort.Unstable16` | external/sort.h:684-745 | an input of 16 elements on which the network exchanges equal keys |
| `Rotation.SwapBlocks` | external/sort.h:2482-2486 | two blocks change places; when they overlap the upper one moves down as a whole and the displaced cells are permuted |
| `Rotation.Rotate` | external/sort.h:2488-2499 | two adjacent blocks of any lengths change places and nothing else changes |
| `Rotation.BinSearchLeft` | external/sort.h:2501-2515 | the lower bound of the key |
| `Rotation.BinSearchRight` | external/sort.h:2516-2530 | the upper bound of the key |
| `RotationMerge.MergeWithoutBuffer` | external/sort.h:2555-2595 | the stable merge of two adjacent runs, in both branches |
| `RotationMerge.MergeFromFront` | external/sort.h:2558-2575 | the front-to-back branch finishes the pending merge |
| `RotationMerge.MergeFromBack` | external/sort.h:2577-2593 | the back-to-front branch finishes the pending merge |
| `RotationMerge.BelowX` | external/sort.h:2560-2566 | rotating the elements of the second run below the first of the first run to the front keeps the merge that is pending |
| `RotationMerge.XBelow` | external/sort.h:2572-2575 | stepping over elements of the first run that do not exceed the second keeps the merge that is pending |
| `RotationMerge.AboveY` | external/sort.h:2579-2584 | the mirror image of the rotation, at the end |
| `RotationMerge.YAbove` | external/sort.h:2590-2592 | the mirror image of the steps, at the end |
| `RecursiveMerge.RecMerge` | external/sort.h:3188-3227 | the stable merge of two adjacent runs of together less than 2^31 elements; the recursion ends because the pivot is in neither part |
| `RecursiveMerge.EqualRange` | external/sort.h:3202-3213 | both bounds of the pivot in one run, found with one or two searches |
| `RecursiveMerge.PivotFacts` | external/sort.h:3196-3213 | the two ranges of elements equal to the pivot cut both runs consistently and are not both empty |
| `RecursiveMerge.PivotSplit` | external/sort.h:3188-3227 | the merge falls apart into the merge of the parts below the pivot, the elements equal to it, and the merge of the parts above it |
| `RecursiveMerge.GatherPivots` | external/sort.h:3215-3223 | one or two rotations put the six parts in the order in which the recursive calls need them |
| `BottomUp.LazyStableSort` | external/sort.h:2974-2998 | the reference stable sort, for every length up to 2^30 |
| `BottomUp.RecStableSort` | external/sort.h:3229-3253 | the reference stable sort, for every length up to 2^30 |
| `BottomUp.DoublingFits` | external/sort.h:3238-3238 | the doubled int stays in range exactly for up to 2^30 elements |
| `BottomUp.Pass` | external/sort.h:3238-3252 | a pass turns sorted runs of h elements and a rest into runs of 2h elements and a rest |
| `BottomUp.OrderPairs` | external/sort.h:3232-3236 | the first loop makes sorted runs of two elements |
| `KeyCollection.FindKeys` | external/sort.h:2533-2552 | the result is the smaller of nkeys and the number of different keys, or 1 if nkeys is less than 1 or there are no elements; that many elements stand in front, strictly increasing, each the first with its key, and their keys are those that occur first. All other elements are behind them in their order, and equal keys keep their order |
| `KeyCollection.CollectedCount` | external/sort.h:2533-2552 | the number of keys is the smaller of nkeys and the number of different keys |
| `KeyCollection.KeysIncrease` | external/sort.h:2533-2552 | the collected keys are strictly increasing |
| `KeyCollection.CollectedFirst` | external/sort.h:2537-2549 | each collected key is the first element with its key |
| `KeyCollection.KeysOfFront` | external/sort.h:2537-2549 | the collected keys are all the keys of some front part of the array |
| `KeyCollection.OthersInOrder` | external/sort.h:2537-2549 | the other elements are those of the input at increasing positions |
| `KeyCollection.CollectionStable` | external/sort.h:2533-2552 | elements with equal keys keep their order |
| `KeyCollection.TakeKey` | external/sort.h:2541-2545 | two rotations put a new key in its place among the keys |
| `BufferMerge.GrailMergeLeft` | external/sort.h:2598-2613 | given L2 <= -M the shifted window holds the stable merge and the buffer elements are behind it, permuted |
| `BufferMerge.GrailMergeRight` | external/sort.h:2614-2628 | given L1 <= M the shifted window holds the stable merge and the buffer elements are in front of it, permuted |
| `BufferMerge.LeftShifted` | external/sort.h:2609-2612 | the last block exchange moves the rest of the first run down over the buffer and keeps the buffer elements |
| `Heap.HeapSort` | external/sort.h:2082-2097 | a sorted permutation, for every size |
| `Heap.Heapify` | external/sort.h:2068-2080 | all nodes form a heap in which the children of node k are the nodes 2k and 2k + 1 |
| `Heap.SiftDown` | external/sort.h:2049-2066 | given a heap below start, the nodes from start on form one |
| `Heap.RootGreatest` | external/sort.h:2068-2080 | the first element of such a heap is its greatest, although node 0 is its own child |
| `Heap.RootMoved` | external/sort.h:2092-2096 | moving the root behind the heap puts it in its final place and leaves a heap from node 1 on |
| `QuickSort.QuickSort` | external/sort.h:1447-1454 | a sorted permutation, for every size |
| `QuickSort.QuickSortRecursive` | external/sort.h:1391-1445 | the range is sorted and nothing else changes, on all exits, including the wrapped right end that becomes an empty small sort; it terminates |
| `QuickSort.Partition` | external/sort.h:1283-1311 | SIZE_MAX exactly when all keys of the range are equal, and otherwise the final place of the element that was at the pivot index: all elements before it are below it and none behind it is |
| `QuickSort.SortOneSide` | external/sort.h:1431-1443 | one side is sorted recursively and the other, strictly smaller than the range, remains; the recursive call gets the side that is not the larger one exactly when the pivot is not at an end of the range |
| `QuickSort.LargerSide` | external/sort.h:1433-1433 | the unsigned comparison counts an empty side as the larger one, so that the recursion never gets an empty range |
| `QuickSort.RangeSize` | external/sort.h:1403-1411 | the unsigned size of the remaining range is right even when right has wrapped around |
| `QuickSort.MedianExact` | external/sort.h:1346-1389 | MEDIAN finds the median unless b <= a < c, and returns c then |
| `QuickSort.PivotOfFive` | external/sort.h:1419-1423 | the pivot is MEDIAN of the quarters and of MEDIAN of both ends and the middle |
| `MergeSort.MergeSort` | external/sort.h:1264-1280 | the reference stable sort, for every size |
| `MergeSort.MergeSortRecursive` | external/sort.h:1223-1261 | the reference stable sort of the segment |
| `MergeSort.MergeHalves` | external/sort.h:1243-1258 | the merge loop leaves the stable merge in the buffer |
| `MergeSort.SortedHalves` | external/sort.h:1223-1261 | the stable sort of the whole is the stable merge of the stable sorts of its halves |
| `Itostr.UnsignedStrConv` | external/itostr/itostr.c:104-133 | given room for them, exactly the digits and the terminator are written and the returned length is exact; an invalid base or a size of 1 gives an empty string |
| `Itostr.SignedDecStrConv` | external/itostr/itostr.c:80-90 | a minus sign and the digits of the absolute value, or an empty string when the size is below 3 |
| `Itostr.SignedToStr` | external/itostr/itostr.c:25-38 | the error returns, and otherwise the text of the low bytes, signed exactly in base 10, as Itostr.SignedRoundTrip and Itostr.LowBytesInNumbers describe it |
| `Itostr.UnsignedToStr` | external/itostr/itostr.c:55-65 | the error returns, and otherwise the text of the low bytes, as Itostr.UnsignedRoundTrip and Itostr.LowBytesInNumbers describe it |
| `Itostr.LowBytesInNumbers` | external/itostr/itostr.c:34-37 | for 1, 2, 4 and 8 bytes the low bytes are the remainder by 2^8, 2^16, 2^32 and 2^64, and the sign bit is set when the remainder is at least half of that |
| `Itostr.RangeInNumbers` | external/itostr/itostr.c:34-34 | the ranges of the types are 2^8, 2^16, 2^32 and 2^64 |
| `Itostr.ValidSizes` | external/itostr/itostr.c:29-29 | the sizes that are accepted are the powers of two up to 8 |
| `Itostr.CodeInCharacters` | external/itostr/itostr.c:106-106 | the character of each digit |
| `Itostr.WriteDigits` | external/itostr/itostr.c:113-123 | the do-while loop writes the digits in reverse, or gives up in its first round |
| `Itostr.ReverseInPlace` | external/itostr/itostr.c:126-131 | the loop reverses the digits |
| `Itostr.SignedRoundTrip` | external/itostr/itostr.c:25-38 | the text is a numeral without leading zeros, with a minus sign exactly when the base is 10 and the sign bit is set; it reads back as the low bytes, as a two's complement number exactly in base 10; and what is refused |
| `Itostr.SignedInRange` | external/itostr/itostr.c:33-37 | a value in the range of the signed type comes back as itself, and every value as the one in that range with the same low bytes |
| `Itostr.UnsignedRoundTrip` | external/itostr/itostr.c:55-65 | reading the text gives the low bytes back, and the value itself if it fits in the type; the text has no leading zeros |
| `Itostr.ParseDigits` | external/itostr/itostr.c:104-133 | reading the digits of a number in any base gives the number |
| `Itostr.DigitsParse` | external/itostr/itostr.c:104-133 | every numeral without leading zeros is what its number is printed as |
| `Itostr.SizeRespected` | external/itostr/itostr.c:115-119 | the text stays within the given size exactly when the conversion is refused or the value has few enough digits |
| `Itostr.NegativeSizeRespected` | external/itostr/itostr.c:80-90 | the same for a negative value, whose sign takes one more character |
| `Itostr.SizeIgnored` | external/itostr/itostr.c:115-119 | a value and a size for which it does not |
| `Options.ScanOption` | src/api/api_options.c:212-266 | the result is a meaning of the argument |
| `Options.MeaningUnique` | src/api/api_options.c:212-266 | every argument has exactly one meaning |
| `Options.Composed` | src/api/api_options.c:242-255 | blanks, a name, one separator, blanks, a value and blanks mean that name and that value |
| `Options.Decomposed` | src/api/api_options.c:242-255 | only such arguments have a value that is not empty |
| `Options.OptionArguments` | src/api/api_options.c:212-266 | the scan gives a name and a non-empty value exactly when the argument is composed of them |
| `Options.StarArguments` | src/api/api_options.c:216-219 | a star in front, and nothing else, is reported as such |
| `Options.BlankArguments` | src/api/api_options.c:221-227 | an argument is taken as empty exactly when it holds only blanks |
| `Options.BadSeparators` | src/api/api_options.c:258-266 | a separator is reported as invalid exactly when it is the character behind the name, or in its place, and neither a space nor an equals sign |
| `Options.EmptyValues` | src/api/api_options.c:243-257 | a name comes with an empty value exactly when nothing, or a separator and blanks, is behind it |
| `Options.SpacedEquals` | src/api/api_options.c:243-246 | a blank in front of the equals sign makes the sign part of the value |
| `Options.ScanValue` | src/api/api_options.c:245-255 | the value without the blanks around it, also when the backward search runs past its start |

## Left out

- The block-combining halves of Grail sort and Sqrt sort (`external/sort.h:2099-2450`, `2630-2972`,
  `3004-3184`), which build on the helpers proved here.
- The in-place merge sort (`external/sort.h:1005-1220`).
- Shell, selection and bubble sort: they would only add easy members.
- The wide-character copies in `external/itostr/itostr.c`, which are identical to the modelled ones.
- The lookup and the setters behind the option scanner, and the other `src/api` wrappers.
- A null option string, which an argument check rejects before the scan.
- `SORT_CMP` in general: the comparison is the difference of unbounded integer keys; an overflow of that
  difference in C and comparisons other than by a key are not modelled.
- `malloc`, `realloc` and `free`: allocation always succeeds, and a grown buffer has arbitrary contents.
- Speed: no bound on the number of comparisons or moves, and no bound on the recursion depth of
  quicksort, which recurses into the larger side when the pivot lands on an end of the range
  (`QuickSort.SortOneSide`).
- TimMerge.TimSortMergeLeft: the min_gallop that a whole merge leaves is bounded but not computed; what
  each loop does to it is exact.
- TimMerge.TimSortMergeRight: the same.
- Choices on which no contract depends: the sizes at which a sort hands over to a simpler one, where merge
  sort and the in-place merge divide a range, which run is rotated first when both are equally long, and
  when quicksort turns to heap sort.
- QuickSort.QuickSortRecursive: the leading-zero count of 0, which the C code computes and does not use
  when a recursive call gets a single element, is taken to be 64.
- TimSort.TimSort: sizes above 2^31 are excluded: there, and only there, the conversions to `int` in the
  merge from the back change a number (`TimMerge.CastsFit`).
- BottomUp.LazyStableSort: above 2^30 elements, and only there, the doubled `int` overflows in the
  source (`BottomUp.DoublingFits`); such lengths are excluded.
- BottomUp.RecStableSort: the same bound applies.
- RotationMerge.MergeWithoutBuffer: lengths for which the `int` arithmetic of the branch that is taken
  would overflow in the source are excluded.
- RecursiveMerge.RecMerge: two runs of together 2^31 elements and more are excluded; the sums of `int`
  positions can overflow there.
- BufferMerge.GrailMergeLeft: lengths whose sum is 2^31 or more are excluded, because `L2 += L1` overflows.
- BufferMerge.GrailMergeRight: lengths whose sum with the shift is 2^31 or more are excluded, because
  `L1 + L2 + M` overflows.
- Itostr.SignedToStr: masks and shifts are written as remainders and powers; the bit operations
  themselves are not modelled.
- The rest of ReSHOP: the containers, expression trees and solver interfaces, the GAMS link, inter-process
  communication and the graphical front end.
