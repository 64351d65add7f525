# Verified models of Flashlight's algorithms

Flashlight is a C++ machine-learning library. Most of it calls ArrayFire, but several parts are
algorithms and protocols of their own. This project models those parts in Dafny and proves what
they are for. Verify it with `dafny verify dfyconfig.toml`.

| module | what it models |
|---|---|
| `Hungarian`, `Assignment` | the seven-step assignment algorithm on in-place cost, mark and cover buffers; linear-programming duality |
| `Autograd`, `Graph`, `Dag`, `Calculus` | reverse-mode differentiation on shared heap objects; forward mode, sums over routes, and the derivative as a limit |
| `Queue` | the producer/consumer queue as a machine of atomic steps with waiting threads and spurious wake-ups |
| `EditDistance` | the one-column edit-distance program and its meter |
| `Bytes`, `Blob`, `BlobStore`, `ConcurrentBlob` | the blob data set: byte store, index, chunked concatenation, reopening, concurrent adds |
| `Partition`, `Batching`, `Dynamic` | round-robin partitions, fixed and varied batches, dynamic batching |
| `Integers`, `Reals`, `Options`, `Sequences` | shared helpers |
| `Shuffle`, `Lru`, `Prefetch`, `Rotation`, `Strings` | in-place shuffle, LRU cache, prefetch cache, relative-position rotation, split/join/replace |

Main results, in words:

- For every real cost matrix with at least as many columns as rows the assignment algorithm
  terminates, and its stars are an assignment of least total original cost.
- For every graph of arithmetic operators with shared subterms, one backward pass leaves in every
  reachable differentiated node the incoming gradient times the derivative of the root with respect
  to that node. That number is proved equal to forward mode, to the sum over all routes of products
  of local derivatives, and to the limit of difference quotients. Each hook runs exactly once, on
  the complete gradient.
- The queue is first in, first out and never over its size in any interleaving, whenever and however
  often `finishAdding` is called. Under its usage rule it loses no wake-up and no item, some thread
  can always move, and every run is bounded up to spurious wake-ups. Without the rule, and as long
  as no spurious wake-up helps, a producer is stranded exactly when more producers wait than items
  are queued as `finishAdding` is called; a concrete run shows it.
- Edit distance returns the counts of one definite optimal script, none exactly for equal sequences.
- Blob data sets keep all samples through adds, concatenation, index writing and reopening, and the
  bytes written are those of the documented format. Under
  concurrent adds every interleaving ends in the same samples as adding one after the other.
- Dynamic batching never uses more batches than necessary; it loses the last batch exactly when
  that batch, which the sizes and the limit determine, is not strictly below the limit, and a
  concrete input shows it.

## Model

| member | source | states |
|---|---|---|
| Hungarian.AssignmentPairs | flashlight/lib/set/Hungarian.cpp:365-369 | for every real cost matrix with N >= M the algorithm terminates; the pairs are (0, c0), (1, c1), ... in row order, the columns are distinct, and no injective row-to-column map has a smaller total original cost |
| Hungarian.AssignmentMatrix | flashlight/lib/set/Hungarian.cpp:310-363 | the step machine reaches step 7 by the measure (rows without a star, uncovered rows, rank of the step); on return every row has exactly one star, no other marks remain, and the stars are an optimal assignment of the original costs |
| Hungarian.Prepare | flashlight/lib/set/Hungarian.cpp:319-330 | each of steps 1 to 3 keeps the meaning of the buffers for the next step and makes progress in the measure |
| Hungarian.Improve | flashlight/lib/set/Hungarian.cpp:331-357 | each of steps 4 to 6 keeps the meaning of the buffers for the next step and makes progress in the measure |
| Hungarian.FindUncoveredZero | flashlight/lib/set/Hungarian.cpp:18-39 | returns the first uncovered zero in column order, or -1 exactly when there is none |
| Hungarian.FindStarInRow | flashlight/lib/set/Hungarian.cpp:41-57 | returns the first starred column of the row, or -1 when the row has no star |
| Hungarian.FindStarInCol | flashlight/lib/set/Hungarian.cpp:163-170 | returns the first starred row of the column, or -1 when the column has no star |
| Hungarian.FindPrimeInRow | flashlight/lib/set/Hungarian.cpp:172-179 | returns the first primed column of the row, or -1 when the row has no prime |
| Hungarian.RowMinimum | flashlight/lib/set/Hungarian.cpp:63-69 | the value is attained in the row and is a lower bound of it |
| Hungarian.StepOne | flashlight/lib/set/Hungarian.cpp:61-75 | costs are the original costs minus a row potential, none is negative, and every row has a zero |
| Hungarian.StepTwo | flashlight/lib/set/Hungarian.cpp:79-103 | the stars lie on zeros, at most one in each row and column, no zero has both lines free of stars, and covers are clear |
| Hungarian.StarCell | flashlight/lib/set/Hungarian.cpp:88-93 | one greedy step keeps the stars independent and the covers those of the stars |
| Hungarian.StepThree | flashlight/lib/set/Hungarian.cpp:106-124 | covers exactly the starred columns, and goes to step 7 exactly when every row has a star |
| Hungarian.StepFour | flashlight/lib/set/Hungarian.cpp:130-161 | terminates; either no uncovered zero is left and the search invariants hold, or it hands over a prime in a starless row whose alternating path exists |
| Hungarian.PrimeZero | flashlight/lib/set/Hungarian.cpp:146-157 | one turn of the search: a primed zero either ends it at a starless row or moves the line from its column to its row, and takes up a row not primed before |
| Hungarian.PrimingKeepsOrder | flashlight/lib/set/Hungarian.cpp:146-151 | a star in the column of a prime always lies in a row primed earlier |
| Hungarian.StarUnderOneLine | flashlight/lib/set/Hungarian.cpp:148-151 | every star lies under exactly one line: its column's, or its row's once the row is primed |
| Hungarian.PrimeColumnOpen | flashlight/lib/set/Hungarian.cpp:146-151 | the column of a prime is never covered |
| Hungarian.TracePath | flashlight/lib/set/Hungarian.cpp:219-240 | the path alternates primes and stars, starts at the given prime, visits distinct rows, never misses its prime, ends in a column without a star, and has at most 2M-1 pairs |
| Hungarian.NextRow | flashlight/lib/set/Hungarian.cpp:226-239 | the star reached next lies in a row primed strictly earlier, so no row is visited twice |
| Hungarian.BufferFits | flashlight/lib/set/Hungarian.cpp:315-315 | 2M-1 pairs fit the buffer of N*N pairs |
| Hungarian.AugmentPaths | flashlight/lib/set/Hungarian.cpp:181-191 | exactly the cells of the path are toggled, each once |
| Hungarian.ErasePrimes | flashlight/lib/set/Hungarian.cpp:199-207 | primes become None, all other marks stay |
| Hungarian.ClearCover | flashlight/lib/set/Hungarian.cpp:193-197 | every line is uncovered |
| Hungarian.StepFive | flashlight/lib/set/Hungarian.cpp:209-246 | the new stars are the old ones with the alternating path toggled, there are no primes left, and the covers are clear |
| Hungarian.AugmentedAddsOne | flashlight/lib/set/Hungarian.cpp:209-246 | toggling the path leaves the stars independent, adds exactly one, and keeps every starred column starred |
| Hungarian.SomeCellOpen | flashlight/lib/set/Hungarian.cpp:248-266 | while a row has no star some cell is uncovered, so the minimum of step 6 exists |
| Hungarian.FindSmallestNotCovered | flashlight/lib/set/Hungarian.cpp:248-266 | the value is attained by an uncovered cell and no uncovered cell is smaller |
| Hungarian.ShiftCosts | flashlight/lib/set/Hungarian.cpp:277-286 | every cell changes by the shift of its row line minus that of its open column |
| Hungarian.StepSix | flashlight/lib/set/Hungarian.cpp:268-288 | the minimum is positive; reduced costs stay non-negative for the shifted potentials, stars and primes stay zero, and an uncovered zero appears |
| Hungarian.StepSeven | flashlight/lib/set/Hungarian.cpp:290-302 | writes exactly the M starred pairs in row order and leaves the rest of longer buffers alone |
| Hungarian.StarsAreOptimal | flashlight/lib/set/Hungarian.cpp:319-361 | tight independent stars in every row that cover all columns of non-zero potential are an optimal assignment |
| Assignment.ComplementarySlackness | flashlight/lib/set/Hungarian.cpp:310-363 | for M <= N: an assignment of tight cells that uses every column of non-zero (non-positive) potential costs no more than any other assignment |
| Assignment.WeakDuality | flashlight/lib/set/Hungarian.cpp:310-363 | feasible potentials bound the cost of every assignment from below |
| Assignment.ColumnMajorSlots | flashlight/lib/set/Hungarian.cpp:31-31 | the flat index c * nrows + r is in range and different cells have different slots |
| Autograd.SharedGrad.AddGrad | flashlight/fl/autograd/Variable.cpp:215-241 | adds to the gradient, or sets it when there is none; nothing happens when gradients are not calculated |
| Autograd.SharedGrad.CalcGradInputs | flashlight/fl/autograd/Variable.cpp:258-269 | fails exactly when a gradient function exists and no gradient has arrived; otherwise every input gets the sum of its contributions, also when it occurs twice, and inputs are cleared unless the graph is retained |
| Autograd.SharedGrad.ApplyGradHook | flashlight/fl/autograd/Variable.cpp:251-256 | hands the gradient to the hook once, if there is a hook |
| Autograd.Leaf | flashlight/fl/autograd/Variable.cpp:25-28 | a fresh node without inputs and without gradient |
| Autograd.Result | flashlight/fl/autograd/Variable.cpp:30-42 | calculates gradients if and only if some input does, and only then keeps inputs and gradient function |
| Autograd.Plus | flashlight/fl/autograd/Functions.cpp:60-69 | sum; remembers operator and both operands without their data |
| Autograd.Minus | flashlight/fl/autograd/Functions.cpp:84-93 | difference; remembers operator and both operands without their data |
| Autograd.Multiply | flashlight/fl/autograd/Functions.cpp:113-130 | product; an operand's data is kept when the other operand is differentiated, which is all the gradient function reads |
| Autograd.Divide | flashlight/fl/autograd/Functions.cpp:145-162 | quotient; keeps the divisor, and the dividend when the divisor is differentiated |
| Autograd.PlusScalar | flashlight/fl/autograd/Functions.cpp:71-82 | sum with a number; the operand's data is dropped |
| Autograd.MinusScalar | flashlight/fl/autograd/Functions.cpp:95-102 | difference with a number; the operand's data is dropped |
| Autograd.ScalarMinus | flashlight/fl/autograd/Functions.cpp:104-111 | number minus variable; the operand's data is dropped |
| Autograd.MultiplyScalar | flashlight/fl/autograd/Functions.cpp:132-143 | product with a number; the operand's data is dropped |
| Autograd.DivideScalar | flashlight/fl/autograd/Functions.cpp:164-171 | quotient by a number; the operand's data is dropped |
| Autograd.ScalarDivide | flashlight/fl/autograd/Functions.cpp:173-181 | number divided by variable; the divisor's data is kept |
| Autograd.Negated | flashlight/fl/autograd/Functions.cpp:314-321 | negation; the operand's data is dropped |
| Autograd.Inverted | flashlight/fl/autograd/Functions.cpp:323-332 | reciprocal; the operand's data is kept |
| Autograd.RunGradFunc | flashlight/fl/autograd/Functions.cpp:60-181 | every gradient function hands each input the output gradient times the local derivative, and never reads data that was dropped |
| Autograd.Recurse | flashlight/fl/autograd/Variable.cpp:387-397 | the search lists every node at most once, after its inputs, and keeps what was listed |
| Autograd.Build | flashlight/fl/autograd/Variable.cpp:381-401 | lists exactly the reachable nodes, each once, inputs before consumers, the root last, every other node used by a later one |
| Autograd.Turn | flashlight/fl/autograd/Variable.cpp:274-276 | one iteration: the inputs are fed, then the hook sees the complete gradient; nodes above are untouched |
| Autograd.TurnReady | flashlight/fl/autograd/Variable.cpp:274-276 | when a node's turn comes its gradient is complete: all its consumers have contributed |
| Autograd.Sweep | flashlight/fl/autograd/Variable.cpp:274-280 | the loop never fails and settles every listed node |
| Autograd.Backward | flashlight/fl/autograd/Variable.cpp:271-281 | from gradient-free nodes, each reachable differentiated node ends with the hook of x times the tangent of the root with respect to it, computed on the nodes before the call, its hook fired exactly once on that total, whichever retainGraph is; inputs are cleared exactly when the graph is not retained; unreachable nodes are unchanged |
| Autograd.BackwardListed | flashlight/fl/autograd/Variable.cpp:271-281 | the same, with the listing that was made and the graph of the nodes listed |
| Autograd.SlopeIsTangent | flashlight/fl/autograd/Variable.cpp:381-401 | the tangents of the graph are those of the nodes themselves, however the nodes are listed |
| Autograd.GradientIsDerivative | flashlight/fl/autograd/Variable.cpp:271-281 | what ends up in a node is the hook of x times the derivative, which is also the sum over all routes of products of local derivatives |
| Dag.RoutesAreAll | flashlight/fl/autograd/Variable.cpp:271-281 | the list of routes between two nodes contains a route if and only if it is one |
| Dag.RoutesAreDistinct | flashlight/fl/autograd/Variable.cpp:271-281 | no route is listed twice |
| Dag.FlowIsRouteSum | flashlight/fl/autograd/Variable.cpp:271-281 | the flow between two nodes is the sum over all routes of the product of local derivatives |
| Dag.SweepTurn | flashlight/fl/autograd/Variable.cpp:271-281 | in the reverse sweep a node holds its final amount when its turn comes, and feeding its inputs keeps the balance |
| Graph.TangentIsChain | flashlight/fl/autograd/Functions.cpp:60-181 | dual-number arithmetic of each operator is the chain rule with the operator's local derivatives |
| Graph.TangentIsFlow | flashlight/fl/autograd/Functions.cpp:60-181 | forward mode computes the flow along local derivatives |
| Graph.TangentIsRouteSum | flashlight/fl/autograd/Functions.cpp:60-181 | forward mode is the sum over all routes of the product of local derivatives |
| Graph.TangentIsDerivative | flashlight/fl/autograd/Functions.cpp:60-181 | the tangent is the derivative, the limit of difference quotients with a linear rate, of one node's value as a function of another's |
| Graph.RouteSumIsDerivative | flashlight/fl/autograd/Functions.cpp:60-181 | the sum over all routes of products of local derivatives is the derivative |
| Graph.EvalAtValue | flashlight/fl/autograd/Functions.cpp:60-181 | evaluating the graph at its own values gives the forward values |
| Calculus.FirstOrder | flashlight/fl/autograd/Functions.cpp:60-181 | a derivative d in the sense used here means that f(h) differs from f(0) + d * h by at most a constant times h * h near zero |
| Calculus.DerivativeIsUnique | flashlight/fl/autograd/Functions.cpp:60-181 | a function has at most one derivative |
| Calculus.SumRule | flashlight/fl/autograd/Functions.cpp:60-69 | the derivative of a linear combination, from the definition of the limit |
| Calculus.ProductRule | flashlight/fl/autograd/Functions.cpp:113-130 | the derivative of a product, from the definition of the limit |
| Calculus.ReciprocalRule | flashlight/fl/autograd/Functions.cpp:323-332 | the derivative of a reciprocal, from the definition of the limit |
| Queue.NextKeeps | flashlight/lib/common/ProducerConsumerQueue.h:66-114 | every step of any program, with finishAdding at any time and more than once, and every spurious wake-up, keeps the invariant |
| Queue.RunsKeep | flashlight/lib/common/ProducerConsumerQueue.h:66-114 | in every state of every run of any program: accepted items are the delivered ones followed by the queue, the length stays within maxSize, each producer's accepted items are a prefix of its own in order, consumers leave only when adding is finished and the queue empty, and no wake-up is lost while adding is not finished |
| Queue.FalseMeansDone | flashlight/lib/common/ProducerConsumerQueue.h:88-104 | in any program get returns false only once adding is finished and everything accepted was delivered |
| Queue.WaitsOnlyAtCapacity | flashlight/lib/common/ProducerConsumerQueue.h:66-69 | a producer waits only when the queue holds exactly maxSize items |
| Queue.RoomIsUsed | flashlight/lib/common/ProducerConsumerQueue.h:66-80 | with fewer than maxSize items and adding not finished, add can append its item and can do nothing else |
| Queue.NoRoom | flashlight/lib/common/ProducerConsumerQueue.h:66-74 | at capacity add waits, and once adding is finished it returns without its item; it can do nothing else |
| Queue.GetDoes | flashlight/lib/common/ProducerConsumerQueue.h:88-104 | get takes the oldest item when there is one, and otherwise leaves or waits, as adding is finished or not |
| Queue.CapacityIsReached | flashlight/lib/common/ProducerConsumerQueue.h:57-80 | for every maxSize some run fills the queue with maxSize items |
| Queue.RunsObey | flashlight/lib/common/ProducerConsumerQueue.h:40-114 | a program that calls finishAdding once, after its producers returned, has by then had all items of all producers accepted |
| Queue.FalseMeansAll | flashlight/lib/common/ProducerConsumerQueue.h:40-104 | under the rule get returns false only once every item of every producer was accepted and delivered |
| Queue.SomeoneMoves | flashlight/lib/common/ProducerConsumerQueue.h:66-114 | until all consumers have left, some thread can take a step without a spurious wake-up |
| Queue.NobodyRuns | flashlight/lib/common/ProducerConsumerQueue.h:66-114 | when no thread can run, all producers have returned and finishAdding is still to come |
| Queue.NextSpends | flashlight/lib/common/ProducerConsumerQueue.h:66-114 | every step lowers a measure; a spurious wake-up raises it by one |
| Queue.RunsEnd | flashlight/lib/common/ProducerConsumerQueue.h:66-114 | a run is no longer than its initial measure plus two for each spurious wake-up |
| Queue.EndIsComplete | flashlight/lib/common/ProducerConsumerQueue.h:66-114 | where a run cannot go on, all consumers have left, the queue is empty and all items were delivered in acceptance order |
| Queue.LooseSpends | flashlight/lib/common/ProducerConsumerQueue.h:66-114 | in any program a step that changes something lowers the measure, so without spurious wake-ups every run gets stuck |
| Queue.StuckMeans | flashlight/lib/common/ProducerConsumerQueue.h:66-114 | in a stuck state adding is finished, all consumers have left, and only waiting producers have items left |
| Queue.StuckHasFinished | flashlight/lib/common/ProducerConsumerQueue.h:110-114 | a run that got stuck has a first finishAdding |
| Queue.ExcessStays | flashlight/lib/common/ProducerConsumerQueue.h:66-114 | once adding is finished no step changes by how much waiting producers outnumber queued items |
| Queue.StrandedCount | flashlight/lib/common/ProducerConsumerQueue.h:66-114 | a stuck run strands exactly as many producers as waited beyond the queued items when finishAdding was called; spurious wake-ups can only lower the number |
| Queue.StrandedIff | flashlight/lib/common/ProducerConsumerQueue.h:66-114 | without spurious wake-ups after finishAdding, a stuck run strands a producer if and only if more producers waited than items were queued when it was called |
| Queue.RuleStrandsNobody | flashlight/lib/common/ProducerConsumerQueue.h:40-114 | when all producers have returned by then, nobody is stranded |
| Queue.EarlyFinishStrands | flashlight/lib/common/ProducerConsumerQueue.h:40-114 | a run of seven steps with finishAdding called early leaves a producer waiting for ever |
| EditDistance.LevenshteinDistance | flashlight/fl/meter/EditDistanceMeter.h:120-166 | the counts are those of the script with the fewest errors that comes first when ties prefer deletion, then insertion; nins - ndel is the difference in length; there are no errors exactly when both sequences are equal, never more than the longer one has elements, and at most one an element |
| EditDistance.Ties | flashlight/fl/meter/EditDistanceMeter.h:138-157 | the counts follow from those without the last elements: a deletion where it is as cheap as anything else, otherwise an insertion where that is as cheap, otherwise both last elements |
| EditDistance.TellsBounds | flashlight/fl/meter/EditDistanceMeter.h:120-166 | no errors exactly for equal sequences, and the upper bounds by the lengths |
| EditDistance.Advance | flashlight/fl/meter/EditDistanceMeter.h:132-163 | one outer step turns the column of x - 1 target elements into that of x, in place |
| EditDistance.Cell | flashlight/fl/meter/EditDistanceMeter.h:138-157 | the cell extends the first minimum of the three possibilities |
| EditDistance.FirstMinimum | flashlight/fl/meter/EditDistanceMeter.h:142-143 | the index of the first minimum |
| EditDistance.EndIsReported | flashlight/fl/meter/EditDistanceMeter.h:138-157 | the recurrence: extending the best scripts of the three smaller problems gives the best script |
| EditDistance.TellsFewest | flashlight/fl/meter/EditDistanceMeter.h:120-166 | no script that turns the target into the output has fewer errors |
| EditDistance.TellsOne | flashlight/fl/meter/EditDistanceMeter.h:120-166 | the counts are determined by the two sequences |
| EditDistance.ReportedIsUnique | flashlight/fl/meter/EditDistanceMeter.h:120-166 | at most one script is the reported one |
| EditDistance.LengthsBalance | flashlight/fl/meter/EditDistanceMeter.h:120-166 | in every script insertions minus deletions is the difference in length |
| EditDistance.Meter.Add | flashlight/fl/meter/EditDistanceMeter.h:92-97 | the counters grow by the target's length and by the counts of the reported script |
| EditDistance.Meter.constructor | flashlight/fl/meter/EditDistanceMeter.cpp:14-23 | all counters start at zero |
| Bytes.BytesRoundTrip | flashlight/fl/dataset/BlobDataset.cpp:186-187 | eight little-endian bytes give back every 64-bit integer |
| Bytes.NumberRoundTrip | flashlight/fl/dataset/BlobDataset.cpp:186-187 | any eight bytes are the bytes of the integer they make |
| Bytes.ByteAt | flashlight/fl/dataset/BlobDataset.cpp:186-187 | byte k of a written 64-bit integer is its k-th base-256 digit, least significant first, in two's complement |
| Bytes.WordsLie | flashlight/fl/dataset/BlobDataset.cpp:194-196 | number j of a written vector lies 8 * j bytes behind its beginning, least significant byte first |
| Bytes.WordsRoundTrip | flashlight/fl/dataset/BlobDataset.cpp:194-196 | vectors of 64-bit integers survive being written as bytes |
| Bytes.Overwrite | flashlight/fl/dataset/MemoryBlobDataset.cpp:18-28 | the store grows when needed, holds the bytes at the offset, and keeps all other bytes |
| Bytes.OverwriteKeeps | flashlight/fl/dataset/MemoryBlobDataset.cpp:18-28 | bytes outside the written range stay where they were |
| Bytes.OverwriteFills | flashlight/fl/dataset/MemoryBlobDataset.cpp:23-25 | a gap before the written bytes is filled with zeros |
| Bytes.Read | flashlight/fl/dataset/MemoryBlobDataset.cpp:30-38 | the bytes that are there replace the beginning of the buffer, the rest of it stays |
| Bytes.Available | flashlight/fl/dataset/MemoryBlobDataset.cpp:30-38 | the returned count: all wanted bytes exactly when they are there, otherwise those up to the end of the store, none only when none is there |
| Blob.EntryAppended | flashlight/fl/dataset/BlobDataset.cpp:31-47 | an entry added to the flat table reads back, and the earlier ones stay |
| Blob.ElementBytes | flashlight/fl/dataset/BlobDataset.cpp:144-148 | one element takes 4 bytes as f32, 8 as f64, 16 as c64, 1 as u8, 2 as f16, and so on for all thirteen types |
| Blob.LengthScales | flashlight/fl/dataset/BlobDataset.cpp:143-148 | the byte length of an array is proportional to each of its four dimensions |
| Blob.RowsNext | flashlight/fl/dataset/BlobDataset.cpp:41-47 | an entry is stored as type, four dimensions and offset in six consecutive fields, right behind the earlier ones |
| Blob.Appended | flashlight/fl/dataset/BlobDataset.cpp:63-138 | appending entries and samples appends exactly the samples that the new entries load |
| Blob.SampleAdded | flashlight/fl/dataset/BlobDataset.cpp:81-102 | reserving and storing a sample appends exactly that sample |
| Blob.BlobAdded | flashlight/fl/dataset/BlobDataset.cpp:104-138 | shifted offsets and copied data append exactly the other blob's samples |
| Blob.MovedLoads | flashlight/fl/dataset/BlobDataset.cpp:115-119 | a moved entry loads the same array from the copy |
| BlobStore.BlobDataset.Reserve | flashlight/fl/dataset/BlobDataset.cpp:83-96 | the arrays get consecutive rows of six fields; the first is placed at the index offset, each other one right behind the one before, and the index offset moves behind the last; older rows stay |
| BlobStore.BlobDataset.WriteArrays | flashlight/fl/dataset/BlobDataset.cpp:97-101 | every array lies in its range and everything below is kept |
| BlobStore.BlobDataset.Add | flashlight/fl/dataset/BlobDataset.cpp:81-102 | the samples are the old ones followed by the new one, arrays with elements come back as they are, and each array's bytes lie at the offset in its row |
| BlobStore.BlobDataset.AddBlob | flashlight/fl/dataset/BlobDataset.cpp:104-138 | fails without change when the chunk size is not positive; otherwise the samples are the old ones followed by all of the other blob's, for every chunk size, and the other's bytes from 16 to its index offset lie behind this blob's data |
| BlobStore.BlobDataset.CopyChunks | flashlight/fl/dataset/BlobDataset.cpp:120-134 | whole chunks copy consecutive data and keep what was below |
| BlobStore.BlobDataset.CopyData | flashlight/fl/dataset/BlobDataset.cpp:120-137 | chunks and remainder together copy exactly the other blob's data |
| BlobStore.BlobDataset.Get | flashlight/fl/dataset/BlobDataset.cpp:63-70 | the sample with that number, or an error when there is none |
| BlobStore.BlobDataset.RawGet | flashlight/fl/dataset/BlobDataset.cpp:72-79 | the buffers of the sample's arrays, or an error when there is none |
| BlobStore.BlobDataset.ReadArray | flashlight/fl/dataset/BlobDataset.cpp:140-172 | the array of an entry; an entry without elements gives the empty array |
| BlobStore.BlobDataset.WriteIndex | flashlight/fl/dataset/BlobDataset.cpp:182-198 | the store starts with the bytes of fl:Blob1 and holds index offset, counts, sizes, offsets and entry table as little-endian 64-bit integers at their places; the samples are unchanged |
| BlobStore.BlobDataset.ReadIndex | flashlight/fl/dataset/BlobDataset.cpp:200-231 | empty data gives an empty table and index offset 16, anything not starting with the bytes of fl:Blob1 is an error, and otherwise the index read is the one the store holds |
| BlobStore.IndexedIsLaidOut | flashlight/fl/dataset/BlobDataset.h:40-54 | the index in the store has the documented format, byte by byte |
| BlobStore.HasMagicIff | flashlight/fl/dataset/BlobDataset.cpp:211-216 | the magic number is read exactly when the first eight bytes are those of fl:Blob1 |
| BlobStore.IndexedOnce | flashlight/fl/dataset/BlobDataset.cpp:182-231 | the bytes determine the index |
| BlobStore.Reopen | flashlight/fl/dataset/BlobDataset.cpp:182-231 | after writing the index, a fresh data set over the same bytes has the same index and exactly the same samples |
| BlobStore.ThreeFloats | flashlight/fl/dataset/BlobDataset.cpp:63-102 | three f32 values take twelve bytes at position 16 of a new data set, with table row 0, 3, 1, 1, 1, 16, and come back as those twelve bytes |
| ConcurrentBlob.NextKeeps | flashlight/fl/dataset/BlobDataset.cpp:81-102 | every reservation and every array write of any call keeps the invariant |
| ConcurrentBlob.RangesDisjoint | flashlight/fl/dataset/BlobDataset.cpp:81-102 | in every reachable state reserved byte ranges are pairwise disjoint, above the header and below the index offset |
| ConcurrentBlob.WrittenReadsBack | flashlight/fl/dataset/BlobDataset.cpp:174-180 | an array once written reads back unchanged in every later state of the run |
| ConcurrentBlob.SampleReadsBack | flashlight/fl/dataset/BlobDataset.cpp:81-102 | a sample whose writes are done reads back unchanged, under its number, in every later state |
| ConcurrentBlob.PendingCanWrite | flashlight/fl/dataset/BlobDataset.cpp:97-101 | a call with arrays left to write is never stuck |
| ConcurrentBlob.ConcurrentIsSequential | flashlight/fl/dataset/BlobDataset.cpp:81-102 | once all calls have returned, the samples are the old ones followed by the added ones in reservation order, whatever the interleaving |
| Partition.PartitionByRoundRobin | flashlight/fl/dataset/Utils.cpp:15-58 | an error exactly for an identifier out of range; otherwise the partition's shares of all blocks, in order |
| Partition.ShareBounds | flashlight/fl/dataset/Utils.cpp:37-52 | offset and count computed for a block are the bounds of the partition's share |
| Partition.DealtIncreases | flashlight/fl/dataset/Utils.cpp:15-58 | every partition's list is strictly increasing |
| Partition.OwnedOnce | flashlight/fl/dataset/Utils.cpp:15-58 | no sample goes to two partitions |
| Partition.EveryoneOwned | flashlight/fl/dataset/Utils.cpp:15-58 | every covered sample goes to some partition |
| Partition.UnionIsPrefix | flashlight/fl/dataset/Utils.cpp:25-33 | the union is a prefix: everything with allowEmpty, otherwise all but fewer than numPartitions samples |
| Batching.BatchDataset.Fixed | flashlight/fl/dataset/BatchDataset.cpp:16-38 | keeps the samples and the number of batches of its policy |
| Batching.BatchDataset.Varied | flashlight/fl/dataset/BatchDataset.cpp:51-68 | keeps the running sums of the batch sizes |
| Batching.FixedBatches | flashlight/fl/dataset/BatchDataset.cpp:28-38 | an error exactly when the batch size is not positive |
| Batching.VariedBatches | flashlight/fl/dataset/BatchDataset.cpp:59-68 | an error exactly when there are no batch sizes |
| Batching.BatchDataset.GetFixed | flashlight/fl/dataset/BatchDataset.cpp:70-83 | the consecutive samples of batch idx, an error exactly out of range |
| Batching.BatchDataset.GetVaried | flashlight/fl/dataset/BatchDataset.cpp:70-83 | the samples between two running sums, cut off at the end of the data, as many as the batch size says when they are there, the first batch from the beginning; an error exactly out of range |
| Batching.CountIs | flashlight/fl/dataset/BatchDataset.cpp:33-38 | the rounded quotients are the least number of batches that hold all samples and the greatest number of full ones |
| Batching.BatchSizes | flashlight/fl/dataset/BatchDataset.cpp:70-83 | with the last batch included no batch is empty and all but the last are full |
| Batching.BatchesRestore | flashlight/fl/dataset/BatchDataset.cpp:70-83 | the batches one after the other are the list |
| Batching.BatchIsShare | flashlight/fl/dataset/Utils.cpp:37-56 | batch i of a partition's list is its share of block i, and without allowEmpty it is not empty |
| Batching.SameNumberOfBatches | flashlight/fl/dataset/Utils.cpp:25-33 | without allowEmpty every partition has the same number of batches, one a block |
| Batching.EarlierGetMore | flashlight/fl/dataset/Utils.cpp:40-48 | an earlier partition gets as many samples as a later one, or one more |
| Batching.BatchesFormBlock | flashlight/fl/dataset/Utils.cpp:37-56 | the i-th batches of all partitions together are the i-th block of consecutive samples |
| Dynamic.Pack | flashlight/fl/dataset/Utils.cpp:71-105 | terminates on all inputs and says of each what is returned: an error exactly when a sample exceeds the limit, the packing error only for a negative limit, and otherwise the greedy batches, the last one exactly when its padded size is strictly below the limit |
| Dynamic.GreedyIff | flashlight/fl/dataset/Utils.cpp:74-99 | the batches computed from sizes and limit are the only consecutive ones that fit and are closed only when the next sample would not fit |
| Dynamic.PaddedIs | flashlight/fl/dataset/Utils.cpp:84-102 | the padded size is within the limit, or strictly below it, exactly when the number of samples times each single one is |
| Dynamic.GreedyIsFewest | flashlight/fl/dataset/Utils.cpp:74-99 | no split into consecutive batches within the limit has fewer batches |
| Dynamic.GreedyIsSplit | flashlight/fl/dataset/Utils.cpp:74-99 | the greedy batches are such a split |
| Dynamic.AllPackedIff | flashlight/fl/dataset/Utils.cpp:100-105 | every sample is in a batch if and only if the padded size of the last batch, a function of sizes and limit, is strictly below the limit |
| Dynamic.PackedIff | flashlight/fl/dataset/Utils.cpp:100-105 | a sample is lost if and only if it is in the last batch and that batch is not strictly below the limit |
| Dynamic.ExactFitIsLost | flashlight/fl/dataset/Utils.cpp:71-105 | packing two samples of length one with limit two returns no batch at all |
| Dynamic.Deal | flashlight/fl/dataset/Utils.cpp:107-121 | the partition's k-th batch is batch k * numPartitions + partitionId as a range of samples; it has as many as there are, cut to whole rounds without allowEmpty |
| Dynamic.TurnsOnce | flashlight/fl/dataset/Utils.cpp:112-120 | each batch has its turn with exactly one partition, exactly once |
| Dynamic.DynamicPartitionByRoundRobin | flashlight/fl/dataset/Utils.cpp:60-122 | all error cases, and otherwise greedy packing followed by dealing out |
| Shuffle.Resample | flashlight/fl/dataset/ShuffleDataset.cpp:21-32 | the array holds the outcome of the draws, a permutation; its last slot holds the first draw, and a slot from which on every position is swapped with itself holds its own number |
| Shuffle.ShuffledPermutes | flashlight/fl/dataset/ShuffleDataset.cpp:21-32 | whatever is drawn, the outcome is a permutation of 0..n-1 |
| Shuffle.ShuffledInjective | flashlight/fl/dataset/ShuffleDataset.cpp:21-32 | different draws give different orders |
| Shuffle.ShuffledSurjective | flashlight/fl/dataset/ShuffleDataset.cpp:21-32 | every order comes from some draws |
| Shuffle.LaterDrawsDecide | flashlight/fl/dataset/ShuffleDataset.cpp:28-31 | what a slot holds depends only on the draws from its position on |
| Shuffle.ResampleTwice | flashlight/fl/dataset/ShuffleDataset.cpp:21-32 | changing one draw leaves every slot above its position as it was |
| Shuffle.ResampleExample | flashlight/fl/dataset/ShuffleDataset.cpp:21-32 | draws 0, 1, 2 leave 0, 1, 2 and draws 0, 0, 0 leave 1, 2, 0 |
| Lru.LRUCache.constructor | flashlight/fl/distributed/LRUCache.h:33-33 | an empty cache for an empty history |
| Lru.LRUCache.Put | flashlight/fl/distributed/LRUCache.h:35-49 | list and map hold the same distinct keys, those the history makes resident, with their last values |
| Lru.LRUCache.Get | flashlight/fl/distributed/LRUCache.h:51-60 | a hit if and only if the key was put and fewer than csize distinct other keys were put or hit since; a hit returns the last value put |
| Lru.ListedIsResident | flashlight/fl/distributed/LRUCache.h:35-60 | being in the list is being resident according to the history |
| Lru.FoundAWhile | flashlight/fl/distributed/LRUCache.h:35-60 | a key that was put is resident as long as fewer than csize calls followed |
| Lru.GoneAfter | flashlight/fl/distributed/LRUCache.h:35-60 | once csize distinct other keys have been put it is not |
| Lru.TouchKeeps | flashlight/fl/distributed/LRUCache.h:42-47 | moving a key to the front keeps list and history in step |
| Lru.EvictKeeps | flashlight/fl/distributed/LRUCache.h:36-41 | dropping the last key of a full list keeps list and history in step: exactly csize others have passed it |
| Prefetch.Create | flashlight/fl/dataset/PrefetchDataset.cpp:17-38 | an error unless threads and prefetch size are both positive or both zero |
| Prefetch.PrefetchDataset.Get | flashlight/fl/dataset/PrefetchDataset.cpp:40-68 | for any access sequence the underlying sample, an error out of range; afterwards slot k holds sample idx + 1 + k, and only samples not yet cached were fetched |
| Prefetch.PrefetchDataset.Discard | flashlight/fl/dataset/PrefetchDataset.cpp:47-51 | keeps exactly the cached samples from idx on |
| Prefetch.PrefetchDataset.Fill | flashlight/fl/dataset/PrefetchDataset.cpp:53-61 | fetches each missing sample of the window once, in order |
| Prefetch.SequentialPass | flashlight/fl/dataset/PrefetchDataset.cpp:40-68 | a pass in order over a fresh prefetcher fetches every sample exactly once |
| Rotation.RotateCell | flashlight/fl/autograd/Functions.cpp:1231-1240 | out[i, j] is in[i - j, j] where that exists and zero elsewhere |
| Rotation.GradientCell | flashlight/fl/autograd/Functions.cpp:1241-1251 | the gradient function takes cell [i + j, j] to [i, j] |
| Rotation.GradientUndoes | flashlight/fl/autograd/Functions.cpp:1231-1253 | the gradient function is a left inverse of the rotation |
| Rotation.GradientIsAdjoint | flashlight/fl/autograd/Functions.cpp:1231-1253 | inner products agree: the gradient function is the exact adjoint |
| Strings.Find | flashlight/lib/common/String.cpp:42-42 | the first occurrence at or after a position, or none |
| Strings.SplitImpl | flashlight/lib/common/String.cpp:59-81 | all pieces of the one left-to-right split, or exactly the non-empty ones, picked by an increasing list of all their positions |
| Strings.SplitAtChar | flashlight/lib/common/String.cpp:83-86 | the same for a single character |
| Strings.Split | flashlight/lib/common/String.cpp:88-94 | the same for a string; an error exactly for an empty delimiter |
| Strings.IgnoringEmpty | flashlight/lib/common/String.cpp:72-79 | with ignoreEmpty no returned piece is empty, every other piece is returned as often as it occurs, in order, and no text is lost |
| Strings.SplitExample | flashlight/lib/common/String.cpp:59-94 | a,,b splits at commas into a, an empty piece and b, and with ignoreEmpty into a and b |
| Strings.SplitsOnce | flashlight/lib/common/String.cpp:59-81 | a string has only one left-to-right split, so splitting, joining and replacing speak of the same pieces |
| Strings.PiecesAreFree | flashlight/lib/common/String.cpp:59-81 | no piece contains the delimiter |
| Strings.Join | flashlight/lib/common/String.h:72-91 | nothing for no pieces, the piece itself for one, and otherwise the first, the delimiter and the rest joined, which for the pieces of a split is the string itself |
| Strings.ReplaceAll | flashlight/lib/common/String.cpp:34-46 | terminates; an empty pattern changes nothing, and otherwise the result is the pieces of the split at `from` joined with `repl`; replacing a string by itself changes nothing |
| Strings.ReplaceIsSplitAndJoin | flashlight/lib/common/String.cpp:34-94 | replacing gives what joining the split pieces with the replacement gives, and joining them with the delimiter gives back the string |

## Left out

- Autograd.SharedGrad.AddGrad: the error for a gradient of another element type is not modelled, since data are single real numbers.
- Floating point: costs, sizes, gradients and matrix entries are real numbers, so rounding, casts, infinities and the type checks of `addGrad` and the operators are not modelled.
- The `FLT_MAX` start values of the minimum searches in the assignment algorithm are modelled as "no value yet".
- The assignment buffers are two-dimensional arrays; `Assignment.ColumnMajorSlots` covers the flat layout.
- Hungarian.AssignmentMatrix: marks that are not zero at the start, which the matrix overload does not check, are excluded.
- Arrays in the automatic differentiation are single numbers. Operators that reduce, tile, index or transpose, and transcendental, normalisation, loss and attention gradients, rest on ArrayFire and are not modelled.
- Autograd.Backward: starts from nodes without gradients; a second pass over nodes that hold gradients, `setCalcGrad` on nodes in use, in-place changes of array data, and hooks on nodes without gradients (an assertion failure in the source) are excluded, and resetting the slots of the local list, which only releases memory, is not modelled.
- `isStarInRow` and `findStarInRow` are one search in the model.
- `ProducerConsumerQueue::clear` is not modelled.
- Data races between concurrent readers and the growth of vectors are not modelled; `BlobDataset::add` reads its entry outside the lock, and the model takes that read as atomic.
- Host transforms, file-backed stores and flushing are not part of the blob model. Element sizes follow ArrayFire's type codes, with codes beyond its enumeration counted as 16 bytes.
- BlobStore.BlobDataset.AddBlob: adding a blob to itself is excluded.
- BlobStore.BlobDataset.ReadIndex: malformed bytes that start with the right magic number, on which the source reads uninitialised values, are excluded.
- Batching.BatchDataset.Fixed: `BatchDatasetPolicy::DIVISIBLE_ONLY` tests a field before it is set, so its outcome is not determined, and it is not modelled.
- Batching.FixedBatches: the same.
- Batches are the sequences of their samples; the batching functions that stack arrays are left out.
- Dynamic.Deal: the 32-bit `int index` of the dealing loop does not overflow in the model.
- Random number generation is a parameter of the shuffle; the thread pool of the prefetcher runs each request when it is made.
- The LRU cache's list iterators are modelled by searching the list for the key.
- Lru.LRUCache.constructor: capacity zero, with which the source pops an empty list, is excluded.
- The rotation is modelled on one slice of the last two dimensions, which the source treats independently.
- `trim`, `startsWith`, `endsWith`, `splitOnAnyOf`, `format` and `dedup` would only add easy members; so would error rates of the meter, optimizers, simple meters and the remaining data sets.
- `DynamicScaler` and `FixedBucketSizeHistogram`: code and description disagree, so there is no settled promise to prove.
