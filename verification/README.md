# Szl aggregation engine: a verified model

Szl is the engine of the Sawzall log-analysis language. Its tables are streaming aggregators whose states are
flushed to strings and merged elsewhere, so what they promise has to hold over every run of adds and merges,
through the wire format. This project models the parts where that is hard and proves what they do, in Dafny.
`dafny verify dfyconfig.toml` checks everything.

**Quantile tables** (`QuantileSummary`, `QuantileAbsorb`, `QuantileGrowth`, `QuantileSplitters`,
`QuantileTable`, `QuantileRuns`, `QuantileWorstCase`, `QuantileLimit`, `QuantileExact`, `QuantileLoose`,
`QuantileValues`). The Munro-Paterson tree of sorted buffers as a class with the lazy leaf collapse, the
recursive carry and the merge. Every method says how the weighted rank of every value changes, against a log of
the collapses, and which tree it leaves; the whole-run theorem is about any nesting of adds and merges of
flushed states. The header (src/emitters/szlquantile.h:22-26) promises ranks within `tot / (N-1)`, and the code
does not keep that: `ComputeK` stops at the first tree height that violates its own first inequality. With
buffers of `k` elements, and `Safe(k, N) = k * 2^(floor(2k/(N-1)) + 1)`,

- the error is at most the cost of the collapses done, that is at most `levels * tot / 2k`, and nothing while
  there are at most `2k` elements;
- the promise is kept by every run whatever if and only if `N <= 3`;
- it is kept by every run of at most `Safe(k, N)` elements;
- for every odd `N >= 5` that is the exact limit: all runs of at most `X` elements keep the promise if and only
  if `X <= Safe(k, N)`. So it is for every even `N >= 4` but those where `N-1` divides `k+1` and `2^c >= (N+1)/2`, or
  `N-1` divides `2k+1` and `2^c >= N+1`, with `c = floor(2k/(N-1)) + 1`;
- in the tables that remain, every run of `Safe(k, N) + 1` elements keeps the promise still; that some longer one
  breaks it is shown for all of them, for `N >= 5` with `k * 2^(ceil(2k/(N-1)) + 2)` elements, on which every
  collapse rounds up and the error is the whole cost of the collapses;
- with `N = 101` the error is 15032385537 instead of at most 10995116277 after 2^40 elements of such a stream;
- up to 2^40 elements the error is always within three times the promise.

For types whose encodings sort as their values do, the same holds of the values behind the encodings.

**Top tables** (`TopHeap`, `TopSketch`, `TopWalk`, `TopTable`, `TopExact`, `TopMissed`). The indexed heap of
candidates, the count sketch, and the table that moves weight between them. Nothing is lost in any cell over any
run; there is a sketch exactly when there were more distinct elements than candidates, and without one the
report is the exact top of the stream. With one it still is, if no weight is negative, most rows tell the
elements apart and nothing is merged in. What adding an element or merging a table makes of the candidates, the
heap and the sketch is stated outright, step by step. The first step of a merge is documented to update each
candidate from the other sketch (src/emitters/szltop.cc:279), but it walks over the heap by index while every
update reorders it. Each candidate is met exactly once if and only if no step lets the element it reweighed
sink; with weights 1, 2, 3 and a gain of 10 for the first, the first is met twice, the second never, and what
the other sketch holds for the second stays there, as a run of adds and one merge shows.

**Selections** (`DistinctSample`, `UniqueTable`, `BoundedHeap`, `UniqueEstimate`, `UniqueResults`). Distinct
samples and unique tables are the declarative selection of the smallest distinct elements or hashes, over any
run of adds and merges; a bounded heap holds the best under any strict weak order; and the fixed-point estimate
of a distinct count does not overflow, stays within its bounds, and is the quotient by the hash as a whole, too
high by no more than one part in 2^24 and too low by no more than one in 2^31 and less than 1. So what is
reported after any run is the number of distinct hashes, or else the quotient by the hash that is the `max`-th
smallest of all.

**Values** (`WireFormat`, `Values`, `NestedValues`, `ValueOrder`, `WireOrder`, `Encoder`, `Decoder`, `Transfer`,
`MapSums`). Reading undoes writing for every type, flattening a type keeps its leaves in order and loses no
value, skipping does what reading does on every input, comparison is the total order in which the first
difference decides, at any nesting, and byte order is value order where it is; where it is not, the exact
condition is given. Adding maps in two passes adds every two numbers that are in the same place, at any nesting,
and nothing else, for keys of any type; it is commutative and associative.

**Code generator** (`Bytecode`, `Generator`, `GeneratorParts`, `GeneratorOrder`, `GeneratedCode`,
`GeneratedStatements`, `CodeBuffer`, `CodeLabels`, `CodeGen`, `ByteMachine`). Jumping code for conditions, loops
and branches, labels that are bound after they are used, and no code where control cannot get; `&&` and `||` may
stand anywhere, under comparisons and under each other as well. The generator is a function on its state; the
object with the byte buffer does what the function says; and the code, on instructions and on bytes, halts with
given variables if and only if the program ends with them. The machine is the interpreter's: condition codes as
in src/engine/engine.cc:1279-1284, branches as in src/engine/engine.cc:1649-1669.

**Line number programs** (`LineProgram`, `LineWriter`). What the ELF writer emits, run on the state machine of
section 6.2.5 of DWARF 2.0, gives back exactly the lines it was told.

Histories are data (`Run`): a start, an add, or a join that merges in what another history flushed. The `Report`
methods replay one on the classes and state what holds of the result.

Facts that long proofs only hand on are wrapped in predicates of the form `forall k {:trigger Key(layer, k)} ::
Key(layer, k) ==> fact`, which mean the fact; `assert Key(layer, 0)` opens them (`Sealing`).

## Model

| member | source | states |
|---|---|---|
| QuantileTable.QuantileEntry.Collapse | src/emitters/szlquantile.cc:173-215 | Two buffers of `k` become every other element of their sorted merge, which for every threshold counts half, rounded up, of what they count |
| QuantileSummary.CollapseRank | src/emitters/szlquantile.cc:173-215 | At the doubled weight the collapsed buffer exceeds the rank of the two it replaces by nothing or by one old weight, for every threshold |
| QuantileTable.QuantileEntry.RecursiveCollapse | src/emitters/szlquantile.cc:227-258 | The carry ripples up the run of full levels, keeps the shape of the tree, and adds to every rank between nothing and the cost of the collapses it logs |
| QuantileTable.LeavesFull | src/emitters/szlquantile.cc:273-300 | Both leaves are full exactly when the total is a positive multiple of `2k` |
| QuantileTable.QuantileEntry.MakeRoom | src/emitters/szlquantile.cc:273-300 | After the lazy collapse one of the leaves has room, and nothing but the logged cost is added to any rank |
| QuantileTable.QuantileEntry.AddElem | src/emitters/szlquantile.cc:273-323 | The entry represents the stream with the element added: shape, total, extremes and rank bounds; the tree is exactly the one that `QuantileGrowth.Grow` makes |
| QuantileTable.QuantileEntry.Flush | src/emitters/szlquantile.cc:327-360 | What is written stands for everything added so far, and the entry starts anew |
| QuantileTable.QuantileEntry.MergeLevel | src/emitters/szlquantile.cc:451-510 | A deserialised buffer is placed, added element by element, or carried, with its whole weight accounted for at every threshold |
| QuantileTable.QuantileEntry.Merge | src/emitters/szlquantile.cc:401-524 | Merging a flushed state gives an entry for both streams with the totals added, and exactly the tree of `QuantileGrowth.MergeUpto`; a bad header is refused and changes nothing; a string that breaks off is refused after the buffers before have been merged, and then shape and total still agree if and only if nothing was read directly into an empty level |
| QuantileTable.LeftInUncounted | src/emitters/szlquantile.cc:451-475 | The total does not count elements that were read directly before the string broke off |
| QuantileTable.ErrorBound | src/emitters/szlquantile.cc:227-258 | `2k` times the cost of all collapses, over adds and merges, is at most `(height - 2)` times the total |
| QuantileTable.QuantileEntry.FlushForDisplay | src/emitters/szlquantile.cc:363-375 | The quantiles shown are the weighted order statistics of the tree: each interior one has fewer than its target strictly below it and at least the target less the error at or below it |
| QuantileSplitters.ComputeQuantiles | src/emitters/szlcomputequantiles.cc:64-120 | Exactly as many non-decreasing values as asked for, from the least to the greatest, each interior one the weighted order statistic of its target |
| QuantileSplitters.FindSmallest | src/emitters/szlcomputequantiles.cc:83-104 | The search over the heads always finds one that is smallest |
| QuantileSplitters.NextSplitter | src/emitters/szlcomputequantiles.cc:77-117 | The merge advances until the weight taken reaches the target, and the last element taken is that order statistic |
| QuantileRuns.ComputeK | src/emitters/szlquantile.cc:104-121 | The height is between 9 and 37, `k * 2^(height-1)` is the maximal total, and the first inequality holds one step earlier but fails at the height returned |
| QuantileRuns.OneEpsilon | src/emitters/szlquantile.h:22-26 | The error is within `tot / (n-1)`, as documented, if `levels * (n-1) <= 2k` |
| QuantileRuns.OneEpsilonUpTo | src/emitters/szlquantile.h:22-26 | So it is for any run of at most `k * 2^(floor(2k/(n-1)) + 1)` elements |
| QuantileRuns.SmallExact | src/emitters/szlquantile.cc:273-300 | There is no error with at most `2k` elements |
| QuantileRuns.ThreeEpsilon | src/emitters/szlquantile.cc:104-121 | With these parameters the error is within three times the documented one up to 2^40 elements |
| QuantileRuns.Report | src/emitters/szlquantile.cc:273-524 | After any run of adds and merges: the quantiles shown are those of the tree `TreeAfter(k, run)`, with the rank guarantee for every one, the cost of the collapses as error, and all bounds on that cost, for every total |
| QuantileLimit.RunRepresents | src/emitters/szlquantile.cc:273-524 | The tree after any run is well shaped and summarises everything added anywhere |
| QuantileLimit.KeepsShown | src/emitters/szlquantile.h:22-26 | A run keeps the promise if and only if every interior quantile shown after it is within what is documented |
| QuantileLimit.KeptUpToSafe | src/emitters/szlquantile.h:22-26 | Every run of at most `Safe(k, n)` elements keeps the promise |
| QuantileLimit.FirstKept | src/emitters/szlquantile.h:22-26 | The first interior quantile is within the documented error after every run, of any length |
| QuantileExact.TightBreaks | src/emitters/szlquantile.h:22-26 | In a tight table, as in every one with an odd number of quantiles from five on, a run of one element more breaks the promise |
| QuantileExact.ExactLimit | src/emitters/szlquantile.h:22-26 | In a tight table all runs of at most `x` elements keep the promise if and only if `x <= Safe(k, n)` |
| QuantileLoose.LooseKept | src/emitters/szlquantile.h:22-26 | In the other tables with four quantiles or more every run of one element more keeps it |
| QuantileLoose.TightExactly | src/emitters/szlquantile.h:22-26 | Some run of `Safe(k, n) + 1` elements breaks the promise if and only if the table is tight |
| QuantileLoose.FourBreak | src/emitters/szlquantile.h:22-26 | A run that breaks the promise with four quantiles |
| QuantileLoose.AlwaysKept | src/emitters/szlquantile.cc:104-121 | All runs whatever keep the promise if and only if there are at most three quantiles |
| QuantileWorstCase.WorstTree | src/emitters/szlquantile.cc:227-323 | The tree after the worst streams, for every `k`, height and choice of buffers: all levels full, and the low values over-counted by all that was rounded up |
| QuantileWorstCase.WorstCost | src/emitters/szlquantile.cc:227-323 | There the over-count is exactly the cost of the collapses, so no smaller bound than that cost holds |
| QuantileWorstCase.PromiseBroken | src/emitters/szlquantile.h:22-26 | Whatever is shown as the last interior quantile of such a stream, too few inputs are at or below it for the documented error |
| QuantileWorstCase.EveryTableBreaks | src/emitters/szlquantile.cc:104-121 | For every table with five quantiles or more such streams exist, within two levels of where the documented bound stops holding |
| QuantileWorstCase.BreakPromise | src/emitters/szlquantile.h:22-26 | Adding such a stream and displaying gives a quantile that is off by more than documented |
| QuantileWorstCase.Percentiles | src/emitters/szlquantile.cc:104-121 | The numbers for 101 quantiles and 2^40 elements |
| QuantileValues.SameRank | src/emitvalues/szlvalue.cc:669-787 | The rank of an encoding among encodings is the rank of the value among values |
| QuantileValues.ReportValues | src/emitters/szlquantile.cc:273-524 | For types whose encodings sort as their values, the quantiles read back are values in order with the same rank guarantee over any run |
| DistinctSample.AddedIsSample | src/emitters/szldistinctsample.cc:202-242 | Adding to the selection over a stream gives the selection over the longer stream: what was dropped never returns |
| DistinctSample.SampleUnique | src/emitters/szldistinctsample.cc:185-242 | The selection of the smallest in hash order, with exact weights, is unique |
| DistinctSample.MergeIsSample | src/emitters/szldistinctsample.cc:289-335 | Merging the sample of a stream is as good as adding the stream |
| DistinctSample.SampleEntry.AddWeightedElem | src/emitters/szldistinctsample.cc:202-242 | Array, index and contents agree, and the table is the selection over everything added |
| DistinctSample.SampleEntry.Flush | src/emitters/szldistinctsample.cc:247-268 | The pairs in hash order with the count of emits not among them; an empty table writes nothing and is left alone |
| DistinctSample.SampleEntry.Merge | src/emitters/szldistinctsample.cc:289-335 | The table of both streams with the counts added, or a refusal that changes nothing |
| DistinctSample.Report | src/emitters/szldistinctsample.cc:202-335 | After any run: the exact selection in hash order; the count is exact if and only if the table has room or nothing was merged in |
| WeightedRuns.CountedExactly | src/emitters/szldistinctsample.cc:247-253 | The count over a run is exact if and only if the table has room for something or nothing was merged in |
| TopHeap.Heap.AddNewElem | src/emitters/szltopheap.cc:95-111 | A heap with a right index, with exactly the new element added, risen as `TopHeap.Up` says |
| TopHeap.Heap.ReplaceSmallest | src/emitters/szltopheap.cc:113-124 | A heap with a right index, with exactly the lightest element exchanged; the new one has sunk as `TopHeap.Down` says |
| TopHeap.Heap.AddToWeight | src/emitters/szltopheap.cc:126-133 | A heap with a right index, with exactly one weight changed, by weights of either sign; where every element ends up is given by `TopHeap.Fix` |
| TopHeap.Heap.Smallest | src/emitters/szltopheap.h:76 | The root is an element of least weight |
| TopHeap.Heap.Sort | src/emitters/szltopheap.cc:135-147 | The same contents, heaviest first |
| TopHeap.Heap.ReHeap | src/emitters/szltopheap.cc:149-164 | Reversing the sorted array gives a heap with a right index and the same contents |
| TopHeap.Heap.FixHeapUp | src/emitters/szltopheap.cc:166-185 | A heap again; the element has risen past exactly the heavier parents |
| TopHeap.SiftDown | src/emitters/szltopheap.cc:187-220 | The element has sunk below exactly the children no heavier than it; the first `n` elements are a heap again with the same contents, positions follow the moves, and the rest is untouched |
| TopHeap.UpMoves | src/emitters/szltopheap.cc:166-185 | The element moves from parent to parent past exactly those heavier than it, each of them one place back, and nothing else moves |
| TopHeap.DownMoves | src/emitters/szltopheap.cc:187-220 | The element moves from child to child, the lighter one or the left on a tie, past exactly those no heavier than it, and nothing else moves |
| TopSketch.Sketch.AddSub | src/emitters/szlsketch.cc:152-166 | Every cell holds the signed sum of everything added and taken away |
| TopSketch.Sketch.AddSketch | src/emitters/szlsketch.cc:107-112 | The cells of the sum are the sums over both streams |
| TopSketch.Sketch.Estimate | src/emitters/szlsketch.cc:182-203 | One of the signed cells of the element, with at most half of them below it and fewer than the other half above; the exact weight if more than half of the rows are clean |
| TopSketch.MiddleUnique | src/emitters/szlsketch.cc:195-203 | Only one value is that |
| TopSketch.MajorityClose | src/emitters/szlsketch.cc:178-203 | If in more than half of the rows what else is in the cell adds up to at most `d`, the estimate is off by at most `d` |
| TopSketch.ReadingMoves | src/emitters/szlsketch.cc:152-194 | Weight of another element in the same cell raises what a row says if the signs agree and lowers it if not |
| TopSketch.MajorityExact | src/emitters/szlsketch.cc:182-203 | If in more than half of the rows no other element with a weight shares the cell, the median is the weight exactly |
| TopSketch.SameNetSameMass | src/emitters/szlsketch.cc:107-166 | Streams that give every element the same net weight look the same to every cell |
| TopTable.TopEntry.Contend | src/emitters/szltop.cc:163-197 | The element takes the place of the lightest candidate if with its estimate it is no lighter, else its weight goes to the sketch |
| TopTable.TopEntry.AddWeightedElem | src/emitters/szltop.cc:151-197 | The whole new state, as `TopTable.Took` says: the element is added to what it weighs as a candidate, becomes one while there is room, or contends with the lightest one, with the heap array to the place; sketch and candidates together account for every element of the stream |
| TopTable.TookAdmits | src/emitters/szltop.cc:151-197 | In a full table a new element becomes a candidate if and only if, with its estimate, some candidate is no heavier; only a lightest one goes, and all others keep their weights |
| TopTable.TopEntry.AdjustCandidates | src/emitters/szltop.cc:333-347 | Step `i` meets the element that is then at index `i` and moves what the other sketch then estimates for it; candidates weigh what they gained more, and the other sketch holds that much less |
| TopWalk.MetOnceIff | src/emitters/szltop.cc:279-347 | Every candidate is met exactly once if and only if at each step the reweighed element is lighter than its parent, has no child, or is strictly lighter than its children |
| TopWalk.Missed | src/emitters/szltop.cc:333-347 | The first step that lets an element sink brings a child behind the walk that no step ever meets |
| TopWalk.SharesMoved | src/emitters/szltop.cc:279-347 | If most rows are clean: when no step sinks every candidate gets exactly its weight from the other sketch, otherwise some candidate gets nothing and its weight stays there |
| TopWalk.ShareLeft | src/emitters/szltop.cc:279-347 | Candidates of weight 1, 2, 3 where the first gains 10: the first is met twice, the second never |
| TopMissed.MergeMisses | src/emitters/szltop.cc:279-374 | The run of three candidates that merges in a table with more elements than room: the walk meets the first candidate twice and the second never, and its share of the other sketch is not moved |
| TopTable.TopEntry.Merge | src/emitters/szltop.cc:282-374 | Candidates gain what the walk moved, if there is a sketch to move it from; then the candidates of the other table are added one after another, in order, each as `TopTable.Took` says; then the rest of the other sketch is added to ours. The table accounts for both streams with the counts added. A bad header is refused and changes nothing |
| TopTable.MergedAdmits | src/emitters/szltop.cc:349-356 | Each merged pair that is known or finds room is a candidate after its step with its weight added, and any other if and only if with its estimate some candidate is no heavier |
| TopTable.TopEntry.Flush | src/emitters/szltop.cc:200-227 | All candidates with their weights, each once, heaviest first, and with the sketch they account for the whole stream; a table without candidates writes nothing |
| TopTable.ReportedAreTop | src/emitters/szltopresults.cc:118-175 | The first `n` of them, which is what is reported, are the `n` heaviest, for every `n` |
| TopTable.ReportFlushed | src/emitters/szltopresults.cc:118-175 | What is reported of a flushed table is the exact top of the stream, for any run with no more distinct elements than candidates |
| TopTable.TopEntry.FlushForDisplay | src/emitters/szltop.cc:230-265 | The heaviest candidates, heaviest first, and a heap again after |
| TopTable.CellConserved | src/emitters/szltop.cc:151-374 | In a cell, what the sketch and the candidates hold is what the whole stream adds up to |
| TopTable.Report | src/emitters/szltop.cc:151-374 | After any run nothing is lost in any cell; there is no sketch if and only if there were no more distinct elements than candidates, and then the table shows the exact top of the stream |
| TopExact.StepExact | src/emitters/szltop.cc:151-197 | If most rows tell the elements apart and no weight is negative, adding one keeps this: candidates have their exact weights, and no other element is heavier than any of them |
| TopExact.ReportAdded | src/emitters/szltop.cc:151-265 | So a table that is only added to shows the exact top of the stream, whatever went through its sketch |
| WireFormat.BaseRoundTrip | src/emitvalues/szlencoder.cc:46-202 | A base value is read back up to exactly what follows it, if and only if it is not text with a NUL in it |
| WireFormat.SkipsBase | src/emitvalues/szldecoder.cc:436-476 | On every input skipping a base value succeeds when reading it does, and ends where reading ends |
| WireFormat.OldFormatUnreachable | src/emitvalues/szldecoder.cc:269-430 | The readers' branches for older formats can never be taken |
| WireFormat.WidthLeast | src/emitvalues/szlencoder.cc:46-66 | Numbers take the least of 1 to 6 and 8 bytes that is enough, never 7 |
| Encoder.SzlEncoder.PackP8 | src/emitvalues/szlencoder.cc:46-66 | The tag for the number of bytes needed, and the low bytes, most significant first |
| Encoder.SzlEncoder.PackN8 | src/emitvalues/szlencoder.cc:71-94 | The same for negative numbers in two's complement |
| Encoder.Escape | src/emitvalues/szlencoder.cc:153-172 | Copying segments between terminators doubles every terminator |
| Encoder.SzlEncoder.PutValue | src/emitvalues/szlvalue.cc:1160-1207 | Appends the encoding of a value of any type |
| Decoder.Join | src/emitvalues/szldecoder.cc:56-90 | Two 32-bit halves make the number that all the bytes make |
| Decoder.JoinOnes | src/emitvalues/szldecoder.cc:94-134 | With ones shifted in, the halves make the negative number |
| Decoder.ScanEscaped | src/emitvalues/szldecoder.cc:289-319 | The scan by segments finds the terminator and undoes the escapes |
| Decoder.SzlDecoder.GetValue | src/emitvalues/szlvalue.cc:1274-1371 | Reads a value of any type, finding the length of arrays with a second decoder |
| Decoder.SzlDecoder.PassValue | src/emitvalues/szlvalue.cc:1379-1462 | Skips a value of any type |
| Values.Init | src/emitvalues/szlvalue.cc:131-229 | Flattening leaves no tuple within a tuple at any depth |
| Values.FlattenAll | src/emitvalues/szlvalue.cc:131-178 | As many flat values as are counted on the type |
| NestedValues.FlattenConcat | src/emitvalues/szlvalue.cc:158-178 | Fields are flattened one after another in order |
| NestedValues.LeafPlace | src/emitvalues/szlvalue.cc:131-178 | Every leaf, in the type and in the value, is at the place that is the number of leaves before it |
| NestedValues.PlaceLeaf | src/emitvalues/szlvalue.cc:131-178 | Every place is that of a leaf |
| NestedValues.FlatTyped | src/emitvalues/szlvalue.cc:158-229 | A value of the declared type, stored flat with the key of each map entry before what it maps to, is a value of the flattened type |
| NestedValues.FlatSame | src/emitvalues/szlvalue.cc:158-229 | Different declared values are stored differently |
| NestedValues.WrittenOnce | src/emitvalues/szlvalue.cc:1160-1371 | A string determines the declared value that was written and where it ends |
| Values.RoundTrip | src/emitvalues/szlvalue.cc:1160-1371 | Reading gives back every populated value of every type, up to exactly what follows it |
| Values.RoundTripExactly | src/emitvalues/szlvalue.cc:1160-1371 | It does so if and only if no text in the value has a NUL in it |
| Values.SkipsValue | src/emitvalues/szlvalue.cc:1274-1462 | On every input, well formed or not, skipping succeeds when reading does and ends where reading ends |
| Values.CountsAll | src/emitvalues/szlvalue.cc:1318-1342 | The counting pass over an array finds its end mark and counts all elements |
| Transfer.Send | src/emitvalues/szlvalue.cc:1160-1371 | Values of any types, one after another in one string, come back as they were with nothing left over |
| ValueOrder.CmpZero | src/emitvalues/szlvalue.cc:725-787 | Values of any type compare equal if and only if they are equal |
| ValueOrder.CmpMirrors | src/emitvalues/szlvalue.cc:725-787 | Comparing the other way round gives the other sign |
| ValueOrder.CmpTransitive | src/emitvalues/szlvalue.cc:725-787 | Comparison is transitive, at any nesting of tuples, arrays and maps |
| ValueOrder.CmpMeans | src/emitvalues/szlvalue.cc:669-787 | Negative exactly if at the first difference the first value is smaller or has ended, numbers by value and strings by their first different byte, positive exactly if the second is |
| ValueOrder.CmpInternal | src/emitvalues/szlvalue.cc:725-787 | The loop over positions computes the lexicographic order with shorter arrays and maps first, for values populated or not: what is not populated compares as zeros and empty arrays and maps |
| WireOrder.IntOrder | src/emitvalues/szlencoder.cc:46-94 | Smaller integers have smaller encodings, none a prefix of another |
| WireOrder.OrderEmbedding | src/emitvalues/szlvalue.cc:669-787 | For numbers, bools, text and tuples of them byte order is the order of values, and encodings are prefix-free |
| WireOrder.BytesOrder | src/emitvalues/szlencoder.cc:153-172 | Byte strings are in order if and only if the smaller is not a prefix of the larger that goes on with a byte below the terminator |
| WireOrder.BytesOutOfOrder | src/public/szlencoder.h:26-27 | The promise that encodings of scalars sort as the values do fails for byte strings |
| UniqueTable.SmallestUnique | src/emitters/szlunique.cc:166-192 | The selection of the smallest distinct hashes is unique |
| UniqueTable.UniqueEntry.AddHash | src/emitters/szlunique.cc:166-192 | Heap and set agree, and they hold exactly the smallest distinct hashes of everything added |
| UniqueTable.MergeSmallest | src/emitters/szlunique.cc:393-421 | Merging the selection from a set is as good as merging the set |
| UniqueTable.UniqueEntry.MakeSortedHeap | src/emitters/szlunique.cc:282-288 | Sorted largest first it is a heap still, with the same hashes |
| UniqueTable.UniqueEntry.Flush | src/emitters/szlunique.cc:351-370 | The hashes, strictly decreasing, stand for everything added; an empty table writes nothing |
| UniqueTable.UniqueEntry.Merge | src/emitters/szlunique.cc:393-421 | The selection over both sets, with the counts added unless there are no hashes; a string that breaks off is refused with the hashes before added |
| UniqueTable.Report | src/emitters/szlunique.cc:158-421 | After any run the table holds exactly the smallest distinct hashes of everything added anywhere; the count is exact if and only if there is room or nothing was merged in |
| BoundedHeap.FixHeapUp | src/emitters/szlheap.cc:108-124 | A heap again with the same elements, under any strict weak order |
| BoundedHeap.FixHeapDown | src/emitters/szlheap.cc:127-154 | The first `n` are a heap again with the same elements, and the rest is untouched |
| BoundedHeap.Heap.AddElem | src/emitters/szlheap.cc:61-79 | What is held and what was dropped are together what was added; something is dropped only when full, and nothing held is smaller than anything dropped |
| BoundedHeap.Sort | src/emitters/szlheap.cc:82-93 | The same elements, largest first |
| BoundedHeap.ReHeap | src/emitters/szlheap.cc:96-105 | The sorted array reversed, which is a heap |
| UniqueEstimate.Estimate | src/emitters/szluniqueresults.cc:95-148 | Between the number of hashes kept and the total, and either capped by the total or the number kept times 2^64 over the hash as one number, too high by at most one part in 2^24 and too low by at most one in 2^31 and less than 1 |
| UniqueEstimate.WordLeads | src/emitters/szluniqueresults.cc:106-119 | The word that is read and the next number, in their place, enclose the hash as a whole |
| UniqueResults.UnpackAndEstimate | src/emitters/szluniqueresults.cc:150-190 | Refuses a string with more hashes than the table has room for; else their number if there is room left, or the estimate by the first of them |
| UniqueResults.Report | src/emitters/szluniqueresults.cc:95-190 | After any run: the number of distinct hashes if there are fewer than the table has room for, else the quotient by the `max`-th smallest hash of all |
| UniqueEstimate.HighestBit | src/emitters/szluniqueresults.cc:120-123 | The loop ends at the highest bit |
| MapSums.FindTargets | src/emitvalues/szlvalue.cc:910-955 | The first pass finds for every pair its position in the sum, and which keys are new |
| MapSums.AddPairs | src/emitvalues/szlvalue.cc:871-1018 | The second pass, in place if there are no new keys and else in a larger array, gives the sorted merge with values of equal keys added |
| MapSums.InPlace | src/emitvalues/szlvalue.cc:958-976 | If the map does not grow every pair is where it has to be already |
| MapSums.AddSum | src/emitvalues/szlvalue.cc:847-1024 | The same for numbers, tuples and maps at any nesting, with all numbers in the sum together those of the two values together |
| MapSums.NumbersAdd | src/emitvalues/szlvalue.cc:847-1024 | Every number in the sum, at the end of any path of fields and keys, is the sum of the two that are there in the values, nothing counting as 0 |
| MapSums.AmountsAdd | src/emitvalues/szlvalue.cc:847-1024 | All numbers in the sum together are those of the two values together: nothing is lost and nothing is counted twice |
| MapSums.MergeFits | src/emitvalues/szlvalue.cc:871-1018 | The sum has strictly increasing keys, whatever their type |
| MapSums.FindMerge | src/emitvalues/szlvalue.cc:871-1018 | The sum holds for each key the sum of what the two maps hold |
| MapSums.AddCommutes | src/emitvalues/szlvalue.cc:847-1024 | Addition is commutative at any nesting |
| MapSums.AddAssociates | src/emitvalues/szlvalue.cc:847-1024 | Addition is associative at any nesting |
| GeneratorOrder.StmtKeeps | src/engine/codegen.cc:475-860 | After any statement the stack is as high as before, only the labels of the enclosing loop were used, and no assertion has failed |
| GeneratorOrder.GeneratesInOrder | src/engine/codegen.cc:97-141 | For every function body stack heights agree at every label, every branch is to a label that is bound, and no label is left waiting |
| GeneratedCode.CondRuns | src/engine/codegen.cc:726-884 | Jumping code leaves the value of a condition on the stack or in the condition code, or goes to the target that the value says |
| GeneratedCode.LoadRuns | src/engine/codegen.cc:680-721 | Code for an expression leaves exactly its value on the stack |
| GeneratedStatements.StmtRuns | src/engine/codegen.cc:1477-1860 | Code for a statement ends where and as the statement does, by falling through, break, continue or return, or runs on at least as long |
| GeneratedStatements.Compiled | src/engine/codegen.cc:378-470 | A body that ends is compiled to code that halts with the same variables; one that runs on, to code that runs on |
| GeneratedStatements.SameMeaning | src/engine/codegen.cc:378-470 | The code halts with given variables if and only if the body ends with them |
| CodeBuffer.Buffer.MakeSpace | src/engine/codegen.cc:483-502 | The buffer doubles, from a first size on, and keeps what was emitted |
| CodeBuffer.FlatPatch | src/engine/codegen.cc:97-115 | Writing over the operand of one branch changes nothing but what that branch holds |
| CodeGen.Generating.PutJump | src/engine/codegen.cc:126-141 | A branch gets its offset or is remembered with its label; in dead code neither |
| CodeGen.Generating.BindTo | src/engine/codegen.cc:97-115 | All branches that wait for the label are filled in, and no other byte changes |
| CodeGen.Generating.BranchTo | src/engine/codegen.cc:628-652 | The condition code is set if need be, and what follows an unconditional branch is dead |
| CodeGen.Generating.LoadConditional | src/engine/codegen.cc:726-884 | Emits the code that the generator function makes, at any nesting |
| CodeGen.Generating.Load | src/engine/codegen.cc:680-721 | Emits the code that the generator function makes, with values made again where they were branches |
| CodeGen.Generating.Execute | src/engine/codegen.cc:850-860 | Emits the code that the generator function makes for a statement |
| CodeGen.Generating.DoLoop | src/engine/codegen.cc:1820-1860 | The same for a loop, with its labels for entry, top, continue and exit |
| CodeGen.Assemble | src/engine/codegen.cc:378-470 | In the bytes every instruction is in its place, and every branch read back from them leads to where its label was bound |
| ByteMachine.SameHalt | src/engine/engine.cc:1649-1669 | The machine on bytes and the machine on instructions halt with the same variables |
| ByteMachine.Compile | src/engine/codegen.cc:378-470 | The bytes of a function body halt with given variables if and only if the body ends with them |
| LineProgram.SignedRoundTrip | src/engine/elfgen.cc:159-170 | Signed variable-length numbers are read back |
| LineProgram.WriteVarint | src/engine/elfgen.cc:159-170 | The loop ends and appends the number |
| LineWriter.LineInfo.AdvancePc | src/engine/elfgen.cc:365-381 | The reader's address advances by the same amount, and to the end when asked to be exact |
| LineWriter.LineInfo.AddLine | src/engine/elfgen.cc:293-347 | The loop ends, and the program appends exactly one row, with this file, line and address |
| LineWriter.LineInfo.EndLineSequence | src/engine/elfgen.cc:350-361 | The program appends the row that ends the sequence at this address and starts anew |
| LineWriter.Write | src/engine/elfgen.cc:293-390 | Any proper calls give a program whose rows, read back, are exactly the calls, with no file listed twice |

## Left out

- Integer widths of counts and weights: totals, weights and table sizes are unbounded integers; overflow of 64-bit counters is not modelled.
- Weights that are floats or tuples: weights are integers.
- MD5: the digest that orders distinct samples and the cells that the sketch assigns are arbitrary functions; `SzlSketch::ComputeIndex` itself is not modelled.
- `SzlSketch::Dims` and `SzlSketch::StdDeviation`: the dimensions are parameters, and the displayed error estimate is floating point.
- Flushed strings as bytes: tables flush records with the fields in order; refusals for the values of fields are modelled, refusals for strings that do not decode belong to the wire format.
- QuantileTable.QuantileEntry.Merge: the buffers in the string are those of a flushed state, or the first of them if it breaks off; strings with buffers that no entry flushes are not modelled, nor what is added to an entry after such a refusal.
- QuantileExact.ExactLimit: the exact limit of the tables that are not tight is not determined; it lies above `Safe(k, n) + 1`.
- UniqueTable.UniqueEntry.Merge: a string with fewer hashes than announced and one with something after them are one case.
- Null buffer pointers of the quantile tree are identified with empty buffers, and buffers are values, so aliasing of vectors is not modelled.
- The consistency check at src/emitters/szlquantile.cc:312 is a comma expression that tests nothing and has no counterpart.
- `ComputeQuantiles` rounds targets with floating point; the model takes the exact ceiling.
- Candidates of a top table are identified by their values; the hash table and the positions stored in elements are one map.
- Memory estimates of all tables.
- Floats on the wire are the 8 bytes of their sort key; the key itself is foreign code, so their order is not modelled.
- Lengths of maps and arrays above 2^31, which the decoder truncates to an int; encodings of unpopulated tuples; decoding into a value that is already there.
- `SzlOps` arithmetic other than comparison and addition; in map addition the flat array of keys and values is an array of pairs, and numbers are unbounded.
- The order laws are stated for populated values; an unpopulated tuple is compared as a tuple of zeros, with which it compares equal without being equal to it.
- Traps, calls, switches, statement expressions and increments in the code generator; expressions have no effects.
- The opcode table: the bytes of each instruction are any fixed function that can be read back, only branch operands are given.
- Alignment of functions and the patching of the maximal stack height.
- Addresses and offsets in ELF sections other than the line number program.
- Unsigned variable-length numbers are written by library code, modelled by their definition.
- Samples with random generators and `set` tables: the deterministic parts repeat what is proved for the other tables.
- The estimate in src/emitters/szlunique.cc reads past the bytes it has set; the model follows src/emitters/szluniqueresults.cc.
