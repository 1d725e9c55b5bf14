# Verified cores of Vitriol

Vitriol runs large models on small machines: a fork of an inference engine with its converters, a
kernel module that moves weights into GPU memory, and daemons that keep servers alive, pay for cloud
calls and drive a drafter/verifier loop. This project models the algorithms at the bottom of these
parts in Dafny and proves what they promise, for every input or every run.

| file | what it models |
|---|---|
| `Matrices.dfy`, `Shapes.dfy`, `UnitAxes.dfy`, `TensorOps.dfy`, `TensorMeaning.dfy`, `RowViews.dfy` | real matrices, row-major index arithmetic, broadcasting, PyTorch's operations on flat storage, what they do to single elements, and to rows and columns |
| `LoraFactors.dfy`, `LoraProduct.dfy`, `LoraSound.dfy`, `LoraIndex.dfy`, `LoraEllipsis.dfy`, `LoraExact.dfy`, `LoraSupport.dfy`, `LoraBreaks.dfy`, `LoraJoin.dfy`, `LoraProgram.dfy`, `LoraMeaning.dfy` | weights kept as two low-rank factors, stacked or not: the operations, the product, what each operation means for it, when it succeeds and when it means something else, joining and stacking, whole programs, and what becomes of single elements |
| `Segmenter.dfy`, `DiffSplit.dfy`, `DiffLaws.dfy`, `CommonAffix.dfy` | the template differ: segmentation, two-ended walk, what a difference looks like, affix cutting |
| `Base64.dfy` | encoding, decoding, decoding in place |
| `BudgetLedger.dfy` | the euro budget under concurrent requests and calendar changes |
| `Sidecar.dfy` | the persistence supervisor: hang watchdog, proactive bounce, cooldown |
| `DropChecksum.dfy`, `FlowCopy.dfy` | the packet checksum and the chunked FLOW copy of the kernel module |
| `JsonSanitizer.dfy`, `JsonDocument.dfy`, `RebisVerdict.dfy`, `RebisLoop.dfy`, `RebisLaws.dfy` | the drafter/verifier loop, its verdicts, its journal and resuming |
| `SseStitching.dfy`, `SseLaws.dfy` | putting streamed tool calls together |
| `CacheKeys.dfy`, `Eviction.dfy`, `ExpertCache.dfy` | the expert cache: keys, the eviction loop for any history of requests, first in first out |
| `Gguf.dfy` | skipping GGUF metadata and reading tensor infos |
| `Common.dfy` | types that several of them share |

Code that works on values is modelled by functions. Loops and objects are methods and classes proved
against such functions, and the theorems are about the functions. Calls into the world (clock, file
system, allocator, servers, health checks) are parameters: a theorem for all runs is a theorem for all
their answers. Money, weights and times are `real`.

`dafny verify dfyconfig.toml` checks everything.

## Where the code differs from what is said about it

- `calculate_diff_split` does not always give its inputs back. `DiffSplitter.SplitReconstructs` gives
  the exact condition on the two segment lists, and `DiffSplitter.GarbledFamily` a whole family of
  inputs on which it fails (`<a><b>` against `<a><x><b><b>` is one).
- The differ trims only where both sides end in plain text, yet it may cut a marker apart: the common end it trims
  can reach past the last text of one side into the marker in front of it. `DiffLaws.SuffixKeepsMarkersExactly`
  says when, `DiffLaws.MarkerCut` shows it (`x<a>c` against `ya>c`). In front it never does
  (`DiffLaws.PrefixKeepsMarkers`).
- Four calls succeed on low-rank factors and mean something else than on the weight: a plain slice above
  two dimensions that misses the only position of the first axis of `A`, a slice inside an index tuple
  that leaves out some of an axis along which `A` is stacked, numbers in both of the last two places of a
  tuple (where `A` keeps an axis as long as the rank), and a `reshape` with two open lengths.
  `LoraBreaks.ApplyExactly` says these are all; `LoraProgram.SliceExactly`, `LoraBreaks.CutStackBuilds`,
  `LoraBreaks.TwoNumbersBuild` and `LoraBreaks.TwoOpenLengthsBuild` show each of them happen.
- An ellipsis in an index tuple is expanded to as many slices as there are other indices, not to as many as
  there are axes left; a last one alone is refused. `LoraEllipsis.EllipsisExactly` says when the list is
  right all the same: `t[..., i]` is, exactly for matrices (`LoraEllipsis.LastAxisOnly`).
- Above two dimensions a plain index reaches the first axis of `A` as well, so where that has length 1 only
  the numbers 0 and -1 work, although the weight has more (`LoraSupport.DefinedExactly`). Of stacked
  factors every number and slice works (`LoraJoin.StackedIndexing`).
- `torch.cat` above two dimensions joins both factors, which is right only where every `A` is stacked along
  the first axis (`LoraJoin.CatAboveExactly`).
- The cache option called LRU evicts first in, first out: a hit touches a timestamp nobody reads. A
  type name of 16 characters or more takes its slot for good, and once such names fill the cache every
  miss runs forever (`Eviction.NeverReturnsExactly`; `Eviction.LongNamesBlock` gives a history).
- `MAX_CALLS_DAY` above 200 has no effect, because the ledger keeps 200 calls
  (`BudgetLedger.LargeCallCapIsInert`).
- A call that is paid for and returns no text is never booked, so what is paid is not bounded by the caps
  (`BudgetLedger.UnbookedIsUnlimited`).
- A pause is said to be resumable from where it was. The resumed run is handed the same correction
  orders only if the last verdict before the pause carried some, and it never sees the last draft
  (`RebisLoop.HandedExactly`, `RebisLoop.OrdersLost`).
- A pause journals the paused iteration as `next_iteration`, but resuming counts journalled turns: an
  iteration in which fragments were rejected before the verifier went down is skipped
  (`RebisLoop.SkippedOnResume`).
- FLOW does not check its destination against the window, and without a source it writes to the DMA buffer
  without asking whether there is one; nothing in the repository ever sets that buffer, so this branch
  always writes through a null pointer (`FlowCopy.Daemon.HandleFlow`, `fault`).
- Each chunk of FLOW is read after a seek, but `kernel_read` is called without a position. If that reads at
  the place of the seek, the file range is copied. If it reads at the start of the file, as kernels do that
  take no position for offset 0, every chunk begins with the first byte of the file
  (`FlowCopy.StartRepeats`); only a single read from offset 0 is then right (`FlowCopy.ReadingsAgree`).
- A drop whose checksum field is zero is never checked, also when its true checksum is zero
  (`DropChecksum.AlteredDropRejected`), and two neighbouring bytes can hide a change
  (`DropChecksum.NeighboursHide`).

## Model

| member | source | states |
|---|---|---|
| `LoraProgram.ProgramSound` | engine/convert_lora_to_gguf.py:58-259 | any expression of indexing, reshape, permute, transpose, split, scaling, head reordering, `torch.cat` and `torch.stack` over any number of input weights, run on the factors without one of the breaking calls and multiplied out, is that expression run on the products of the inputs; inputs of one rank give a result of that rank |
| `LoraProgram.ProductsExist` | engine/convert_lora_to_gguf.py:41-42 | factors in order, stacked or not, always have a product |
| `LoraMeaning.SwapSound` | engine/convert_lora_to_gguf.py:181-188 | transposing two axes in range, from either end, exchanges these two lengths of the product and these two coordinates of every element |
| `TensorMeaning.SwapMeans` | engine/convert_lora_to_gguf.py:181-185 | the same of a dense weight, and it works exactly for axes in range |
| `LoraMeaning.PermuteElements` | engine/convert_lora_to_gguf.py:168-179 | permuting, where it works, gives every length and every element of the product the place of its axis |
| `TensorMeaning.PermuteMeans` | engine/convert_lora_to_gguf.py:168-174 | the same of a dense weight, and it works exactly for axes that are each named once, from either end |
| `TensorMeaning.IndexMeans` | engine/convert_lora_to_gguf.py:58-112 | indexing works exactly where numbers are in reach and steps positive; the element at the `k`-th places is the one at `lo + k*step`, bounds counted from the back if negative and clipped to the axis, or at the number |
| `TensorMeaning.IndexLengths` | engine/convert_lora_to_gguf.py:58-112 | along every axis that is not indexed by a number the result has exactly these places |
| `TensorMeaning.ReshapeMeans` | engine/convert_lora_to_gguf.py:136-160 | a reshape keeps the elements in order and has the lengths asked for, an open one filled in |
| `TensorMeaning.ReshapeWorks` | engine/convert_lora_to_gguf.py:145-150 | it works exactly for lengths whose product is the number of elements or, with one open, divides it |
| `TensorMeaning.PieceMeans` | engine/convert_lora_to_gguf.py:190-206 | piece `k` of a split is the range of its length behind the pieces before it; pieces of one length fill the axis, the last may be shorter |
| `TensorMeaning.TimesMeans` | engine/convert_lora_to_gguf.py:211-219 | multiplication works exactly where axes counted from the back are equal or one has length 1, and every element is the product of the elements behind it |
| `LoraMeaning.ReorderMeans` | engine/convert_lora_to_gguf.py:415-430 | reordering the heads of a matrix along either axis moves element `e` of head `v` of group `k` from `(k*V+v)*D+e` to `(v*K+k)*D+e` |
| `LoraMeaning.CatMeans` | engine/convert_lora_to_gguf.py:243-259 | joined tensors stand one after the other along the first axis |
| `LoraMeaning.StackMeans` | engine/convert_lora_to_gguf.py:234-242 | stacked tensor `i` stands at place `i` of the new first axis |
| `LoraBreaks.ApplyExactly` | engine/convert_lora_to_gguf.py:58-219 | for factors whose front axes have length 1 or that of the weight, what an operation builds has the operation on the dense weight as its product if and only if the call is none of the four above |
| `LoraBreaks.TwoNumbersBuild` | engine/convert_lora_to_gguf.py:98-112 | `t[:, i, j]` succeeds on every weight of three dimensions whose `A` has a first axis as long as the rank, and is not the element row |
| `LoraBreaks.CutStackBuilds` | engine/convert_lora_to_gguf.py:98-112 | `t[0:1,]` succeeds on every weight stacked along its first axis and is not the slice: it cuts `B` and not `A` |
| `LoraBreaks.TwoOpenLengthsBuild` | engine/convert_lora_to_gguf.py:145-150 | `reshape(-1, -1, cols)` of every weight of one row succeeds on the factors; a dense weight refuses it |
| `LoraExact.ApplySound` | engine/convert_lora_to_gguf.py:58-219 | each other operation that succeeds keeps the factors in order and multiplies out to the operation on the flat storage of the weight |
| `LoraSupport.DefinedExactly` | engine/convert_lora_to_gguf.py:58-219 | but for a reshape with two open lengths, an operation succeeds if and only if the dense weight has it and it is supported: no vector comes out (two numbers pass only where `A` keeps a last front axis as long as the rank), above two dimensions a plain index must exist along the first axis of `A` too, which for a unit axis leaves the numbers 0 and -1, the last axis keeps its length under reshape and its place under permute (a matrix may be transposed) and both need unit axes in front of `A`, a factor is a column and adds no axes, heads are reordered in matrices of fitting size |
| `LoraProduct.ProductByRows` | engine/convert_lora_to_gguf.py:41-42 | `B @ A` with broadcasting, element by element, is each row of `B` times the matrix of `A` that serves it |
| `UnitAxes.UnitSelected` | engine/convert_lora_to_gguf.py:67-112 | choosing fittingly along the front axes of `A` and those of the weight leads every chosen row to the matrix that served it before |
| `LoraSound.ChoiceSound` | engine/convert_lora_to_gguf.py:67-206 | factors chosen from fittingly, along any axes and dropping any, multiply out to the weight chosen from |
| `LoraIndex.GetOneSound` | engine/convert_lora_to_gguf.py:67-76 | a plain index or slice of stacked or unit axes that does not miss the unit axis alone multiplies out to that index of the weight |
| `LoraIndex.GetManySound` | engine/convert_lora_to_gguf.py:77-112 | a tuple of numbers and slices cuts rows on `B` and columns on `A`, takes matching positions of stacked axes, and equals the same index on the flat weight, but for two numbers and slices of stacked axes |
| `LoraEllipsis.EllipsisExactly` | engine/convert_lora_to_gguf.py:79-96 | for a tuple with one ellipsis the list the source indexes with is that of a tensor of `n` axes if and only if the ellipsis comes last behind other indices, or `n` is twice the number of other indices, or larger and nothing but full slices follows the ellipsis |
| `LoraEllipsis.EllipsisSound` | engine/convert_lora_to_gguf.py:77-112 | such an index of the factors multiplies out to the index of the weight with the ellipsis filled in as a tensor does |
| `LoraEllipsis.LastAxisOnly` | engine/convert_lora_to_gguf.py:79-96 | `t[..., i]` becomes `t[:, i]`, right exactly in two dimensions |
| `LoraExact.ReshapeSound` | engine/convert_lora_to_gguf.py:136-160 | a reshape of the leading axes equals the reshape of the flat weight |
| `LoraExact.PermuteSound` | engine/convert_lora_to_gguf.py:168-185 | permuting leading axes on `B`, or exchanging the transposed factors of a matrix, equals the permutation of the flat weight |
| `LoraIndex.PieceSound` | engine/convert_lora_to_gguf.py:190-206 | every piece of a split along any axis, of `B` alone, of `A` alone or of both where `A` is stacked, multiplies out to that piece of the weight |
| `LoraExact.TimesSound` | engine/convert_lora_to_gguf.py:211-219 | multiplying `B` by a number or by any tensor whose last axis has length 1, stretched against the leading axes or stretching them, multiplies the weight so |
| `RowViews.MultiplyRows` | engine/convert_lora_to_gguf.py:211-219 | a broadcast product with such a tensor, on flat storage, repeats and scales whole rows |
| `LoraExact.ReorderRowsSound` | engine/convert_lora_to_gguf.py:422-424 | reordering heads on the rows of `B` succeeds exactly for fitting sizes and is the reordering of the weight |
| `LoraExact.ReorderColsSound` | engine/convert_lora_to_gguf.py:425-430 | reordering heads on the columns of `A` succeeds exactly for fitting sizes and is the reordering of the weight |
| `LoraExact.ReorderAMoves` | engine/convert_lora_to_gguf.py:426-430 | `reshape`, `permute(0, 2, 1, 3)` and `reshape(r, -1)` on the storage of `A` move whole columns |
| `RowViews.ReorderLast` | engine/convert_lora_to_gguf.py:428-429 | the exchange of the middle axes of `[r, K, V, D]` on flat storage is the gathering of columns by the three-axis exchange |
| `RowViews.PermuteRows` | engine/convert_lora_to_gguf.py:171-174 | a permutation that leaves the last axis alone moves whole rows of the flat storage |
| `RowViews.IndexRows` | engine/convert_lora_to_gguf.py:98-112 | indexing the flat storage gathers rows by the leading indices and columns by the last slice |
| `LoraProgram.SliceExactly` | engine/convert_lora_to_gguf.py:72-74 | above two dimensions a slice cuts both factors and always has the shape of the slice; its product is the slice if and only if the first axis of `A` kept a position or the slice is empty, as always where `A` is stacked |
| `LoraJoin.CatSound` | engine/convert_lora_to_gguf.py:243-259 | `torch.cat` of matrices that share `A` joins the `B`s, above two dimensions it joins both factors; unless an `A` is not stacked there, the result multiplies out to joining the dense weights |
| `LoraJoin.CatAboveExactly` | engine/convert_lora_to_gguf.py:248-252 | above two dimensions, for parts that are not empty, it does so if and only if every `A` is stacked along the first axis or there is one part |
| `LoraJoin.StackSound` | engine/convert_lora_to_gguf.py:234-242 | `torch.stack` of any weights multiplies out to the stacked dense weights, and its `A` is stacked |
| `LoraJoin.StackThenIndex` | engine/convert_lora_to_gguf.py:67-242 | `torch.stack(ts)[i]` is `ts[i]`, factors and all, for every `i` in reach from either end |
| `LoraJoin.StackedIndexing` | engine/convert_lora_to_gguf.py:67-76 | where `A` is stacked, every number in reach and every slice succeeds and means that index of the weight |
| `LoraProgram.PieceIsBlock` | engine/convert_lora_to_gguf.py:198-200 | piece `k` of a matrix split along its rows holds exactly the block of rows after the pieces before it |
| `LoraProgram.SplitThenCat` | engine/convert_lora_to_gguf.py:190-259 | joining all pieces of a row split gives the weight back |
| `LoraProgram.VHeadSource` | engine/convert_lora_to_gguf.py:425-430 | in closed form: element `d` of value head `v` of key head `k` moves from `(k*V+v)*D+d` to `(v*K+k)*D+d` |
| `LoraProgram.ReorderIsBijection` | engine/convert_lora_to_gguf.py:425-430 | for all K, V, D the reordering is a bijection of the K·V·D columns, undone by the reordering with K and V exchanged |
| `LoraProgram.ReorderMovesColumns` | engine/convert_lora_to_gguf.py:425-430 | reordering the columns of `A` moves the columns of the dense weight by that bijection |
| `Shapes.PermuteBijection` | engine/conversion/qwen.py:473-476 | permuting the axes of a row-major tensor is a bijection of flat positions, for every shape and permutation |
| `Shapes.PermuteMeaning` | engine/conversion/qwen.py:473-476 | that bijection takes the element with the permuted multi-index from the element with the original one |
| `Shapes.PermuteUnder` | engine/convert_lora_to_gguf.py:428-429 | below a first axis it moves within each row as it moves without one |
| `Shapes.SourceOver` | engine/convert_lora_to_gguf.py:171-174 | above a last axis it moves whole runs of that axis |
| `Segmenter.SegmentationIsUnique` | engine/common/chat-auto-parser-helpers.cpp:266-296 | concatenating back, first-closer markers, opener-free texts and at most one unclosed tail hold for the segmenter's result and for no other list |
| `Segmenter.SegmentsAreSegmentation` | engine/common/chat-auto-parser-helpers.cpp:266-296 | the result has all these properties for every text |
| `Segmenter.SegmentizeMarkers` | engine/common/chat-auto-parser-helpers.cpp:266-296 | the loop computes that segmentation |
| `DiffSplitter.WalkInvariant` | engine/common/chat-auto-parser-helpers.cpp:111-136 | at loop exit either no flag is set and equal ends were collected, or the flagged side consists of exactly the two collected halves |
| `DiffSplitter.FlagMeaning` | engine/common/chat-auto-parser-helpers.cpp:108-136 | the loop ends with only one flag set exactly when that side is two halves that open and close the longer other side |
| `DiffSplitter.SplitReconstructs` | engine/common/chat-auto-parser-helpers.cpp:84-204 | prefix, part and suffix spell both inputs if and only if no segment is counted twice, a condition on the two segment lists |
| `DiffSplitter.EqualFlagsReconstruct` | engine/common/chat-auto-parser-helpers.cpp:84-204 | a walk that ends with equal flags always reconstructs both inputs |
| `DiffSplitter.GarbledFamily` | engine/common/chat-auto-parser-helpers.cpp:138-147 | `ab` against `axbb` is garbled for all markers with `b` other than `x` |
| `DiffSplitter.FinishIsTight` | engine/common/chat-auto-parser-helpers.cpp:166-180 | where both parts meet text, they share no first and no last character |
| `DiffLaws.FinishMeans` | engine/common/chat-auto-parser-helpers.cpp:164-203 | where both remainders end in text the longest common end goes to the suffix, then where both begin in text the longest common start of what is left to the prefix, and nothing else moves; no difference, or left a prefix of right, is put all in front |
| `DiffLaws.MarkersStay` | engine/common/chat-auto-parser-helpers.cpp:166-175 | prefix and suffix grow by trimming only where both sides meet text |
| `DiffLaws.WalkInClosedForm` | engine/common/chat-auto-parser-helpers.cpp:99-162 | of two different lists with `p` segments shared in front and `s` behind, none counted twice, all shared ones are taken if they do not overlap in the shorter list; else its ends meet in the middle, or as near to it as the shared ones reach |
| `DiffLaws.DifferenceIsTight` | engine/common/chat-auto-parser-helpers.cpp:84-204 | two parts that are not empty come from segments that differ at both ends, and where these are text, from characters that differ |
| `DiffLaws.PureExtension` | engine/common/chat-auto-parser-helpers.cpp:189-202 | an input that only goes on where the other ends is reported as that one and the rest, whenever nothing of it is left over |
| `DiffLaws.PrefixKeepsMarkers` | engine/common/chat-auto-parser-helpers.cpp:166-180 | the prefix is made of whole segments shared in front, and part of the next one only where that is text on both sides |
| `DiffLaws.SuffixKeepsMarkersExactly` | engine/common/chat-auto-parser-helpers.cpp:166-179 | what is trimmed behind stays inside the last texts if and only if neither last text ends in the last text of the other side and the character in front of that |
| `DiffLaws.MarkerCut` | engine/common/chat-auto-parser-helpers.cpp:166-179 | of `x<a>c` against `ya>c` the marker is cut apart |
| `DiffLaws.TwoMarkers` | engine/common/chat-auto-parser-helpers.cpp:84-204 | two different markers share nothing |
| `DiffLaws.TextThenMarkers` | engine/common/chat-auto-parser-helpers.cpp:84-204 | after a shared text, two different markers stay whole and the text is the prefix |
| `DiffSplitter.SplitOfEqual` | engine/common/chat-auto-parser-helpers.cpp:182-187 | away from garbled inputs no difference is reported exactly for equal inputs |
| `DiffSplitter.EqualHasNoMiddle` | engine/common/chat-auto-parser-helpers.cpp:182-187 | two equal non-empty inputs give the whole input as prefix and nothing else |
| `DiffSplitter.CommonPrefixLength` | engine/common/chat-auto-parser-helpers.cpp:66-73 | the loop finds the length of the longest common prefix |
| `DiffSplitter.CommonSuffixLength` | engine/common/chat-auto-parser-helpers.cpp:75-82 | the loop finds the length of the longest common suffix |
| `DiffSplitter.WalkSegments` | engine/common/chat-auto-parser-helpers.cpp:99-136 | the two-ended loop with its break ends and computes the walk that the theorems are about |
| `DiffSplitter.FinishSplit` | engine/common/chat-auto-parser-helpers.cpp:164-203 | remainders, text trimming and the two final corrections as specified |
| `DiffSplitter.CalculateDiffSplit` | engine/common/chat-auto-parser-helpers.cpp:84-204 | the whole function: it reconstructs both inputs exactly when they are not garbled |
| `CommonAffix.AfterIsMirroredUntil` | engine/common/chat-auto-parser-helpers.cpp:207-261 | `after_common_suffix` is the reverse of `until_common_prefix` on the three reversed strings |
| `CommonAffix.FindMirror` | engine/common/chat-auto-parser-helpers.cpp:222-252 | last-occurrence search is first-occurrence search in the mirror, also when nothing is found |
| `CommonAffix.UntilIsFirst` | engine/common/chat-auto-parser-helpers.cpp:207-231 | the result is the text before the first occurrence of the common prefix, empty when there is none |
| `CommonAffix.UntilPrefix` | engine/common/chat-auto-parser-helpers.cpp:207-231 | the code computes the function these lemmas describe |
| `CommonAffix.AfterSuffix` | engine/common/chat-auto-parser-helpers.cpp:234-261 | the code computes the mirror image of `until_common_prefix` |
| `Base64.RoundTrip` | engine/common/base64.hpp:80-244 | for every byte string and every alphabet, decoding the encoding gives the bytes back, with the alphabet named or detected, strict or loose; `auto_` writes the standard alphabet |
| `Base64.ValueExactly` | engine/common/base64.hpp:344-392 | a character is read exactly if it stands in a table that the reader may take it from, as its place in it; one that stands in one table only settles the alphabet |
| `Base64.ValuesExactly` | engine/common/base64.hpp:344-392 | a run of characters is read exactly if all of them stand in one such table |
| `Base64.DecodedExactly` | engine/common/base64.hpp:200-244 | decoding works exactly if the characters before the first padding are read and, unless loose, nothing but padding follows, and packs their values |
| `Base64.PackSextets` | engine/common/base64.hpp:80-244 | packing the sextets of a byte string gives the bytes back |
| `Base64.PackSnoc` | engine/common/base64.hpp:218-228 | the bit accumulator: each further sextet adds the byte made of the held bits and the new ones, or none after whole groups |
| `Base64.EncodedSize` | engine/common/base64.hpp:338-341 | an encoding has exactly `required_encode_size` characters |
| `Base64.DecodedSize` | engine/common/base64.hpp:324-327 | a decoding never exceeds `max_decode_size` |
| `Base64.Encode` | engine/common/base64.hpp:80-144 | the three-byte loop with its two padding exits writes the encoding |
| `Base64.Decode` | engine/common/base64.hpp:200-244 | the accumulator loop writes the packed values of the data before the first padding, and fails exactly on a foreign character or, unless loose, on data after padding |
| `Base64.DecodeInPlace` | engine/common/base64.hpp:294-313 | decoding over its own input gives what decoding to a fresh buffer gives; whether it succeeds or not, the buffer then holds the bytes of all that was read and the rest of the input as it was |
| `BudgetLedger.SpendingIsBounded` | scripts/ascensusd.py:326-394 | in every interleaving with at most `k` requests waiting and estimates up to `E`, no more is booked on a day or in a month than its cap plus `(k-1)·E` plus what its calls exceeded their estimates by; what is paid exceeds this by no more than what went unbooked |
| `BudgetLedger.AskExactly` | scripts/ascensusd.py:326-346 | in every run a request is turned away, changing nothing, if and only if the budget is on and it would exceed what the bookings of the day or the month leave of the cap, or as many calls as a cap up to 200 allows were booked on this local day; else it waits behind the others |
| `BudgetLedger.BoundIsReached` | scripts/ascensusd.py:326-394 | for all caps, every `k` and every estimate `E` within the caps there is a run, with no call above its estimate and at most `k` waiting, that books exactly the smaller cap plus `(k-1)·E` on one day and in its month |
| `BudgetLedger.SequentialKeepsCaps` | scripts/ascensusd.py:326-394 | one request at a time, none above its estimate: no more than the caps is booked on any day or in any month, nor paid while every call ends in a booking |
| `BudgetLedger.UnbookedIsUnlimited` | scripts/ascensusd.py:370-372 | for any caps, a run with one request at a time, each costing exactly its admitted estimate, pays any number of estimates on one day and books nothing |
| `BudgetLedger.LoadedIsSpent` | scripts/ascensusd.py:78-93 | a loaded ledger shows what was booked on the current day and in the current month, across rollovers |
| `BudgetLedger.StepKeepsBooks` | scripts/ascensusd.py:78-101 | every step keeps the ledger in agreement with the record of all bookings |
| `BudgetLedger.LargeCallCapIsInert` | scripts/ascensusd.py:332-336 | a call cap above 200 never refuses anything |
| `BudgetLedger.CallsAreBounded` | scripts/ascensusd.py:326-394 | a call cap up to 200 holds for every local day, up to the requests waiting beside the last admitted one |
| `BudgetLedger.Daemon.Gate` | scripts/ascensusd.py:326-346 | the gate admits exactly what is not over budget in that sense |
| `BudgetLedger.Daemon.Commit` | scripts/ascensusd.py:379-394 | after booking, the file shows what was booked on the current day and in the current month, the new charge included, and the last 200 calls |
| `Sidecar.HangExactly` | scripts/lull_slot_persist.py:348-366 | in every run a turn restarts the server as hung if and only if the last `HANG_STRIKES_MAX` polls were deaf polls of one watched generation |
| `Sidecar.HangFollowsDeafPolls` | scripts/lull_slot_persist.py:348-366 | a hang restart follows that many deaf polls with one pid and no healthy poll between them |
| `Sidecar.CounterIsStrikes` | scripts/lull_slot_persist.py:339-366 | the strike counter is the number of deaf polls in a row and stays below the limit |
| `Sidecar.BouncesApart` | scripts/lull_slot_persist.py:372-388 | with a clock that does not run backwards any two bounces are at least the cooldown apart |
| `Sidecar.BounceExactly` | scripts/lull_slot_persist.py:372-390 | with such a clock, a turn bounces the server if and only if the last `PROACTIVE_TICKS` polls in a row found memory low, outside the cooldown, in one watched generation |
| `Sidecar.StreakIsCounted` | scripts/lull_slot_persist.py:343-390 | the streak is the number of such polls in a row, and a streak that has begun is out of the cooldown |
| `Sidecar.BounceFollowsLowPolls` | scripts/lull_slot_persist.py:372-390 | with such a clock, a bounce follows `PROACTIVE_TICKS` consecutive polls of one pid, all with memory below the floor |
| `Sidecar.AtMostOneRestart` | scripts/lull_slot_persist.py:338-388 | no turn restarts the server twice |
| `Sidecar.WatchedExactly` | scripts/lull_slot_persist.py:338-387 | the loop watches the server it last saw, and none after a restart |
| `Sidecar.CountedExactly` | scripts/lull_slot_persist.py:372-390 | a poll counts towards a bounce exactly if the free memory is known and below the floor, the server was not just restarted as hung, and the cooldown is over |
| `Sidecar.CooldownExactly` | scripts/lull_slot_persist.py:386-387 | in every run the cooldown ends its length after the last bounce |
| `Sidecar.RestoreExactly` | scripts/lull_slot_persist.py:340-347 | checkpoints are replayed exactly for a new instance that became healthy, before anything else in the turn |
| `Sidecar.SavedBeforeBounce` | scripts/lull_slot_persist.py:380-384 | every bounce comes right after a save |
| `Sidecar.SavesExactly` | scripts/lull_slot_persist.py:380-395 | a turn saves once for a bounce and once, at its end, if the interval is over and there is a server; only the end of an interval sets the clock of saves |
| `Sidecar.AutosaveExactly` | scripts/lull_slot_persist.py:392-395 | in every run that save happens exactly if the interval has passed since the last poll that ended one |
| `Sidecar.Supervisor.Tick` | scripts/lull_slot_persist.py:332-395 | one turn of the loop, branch by branch, is the step the run theorems are about |
| `DropChecksum.CrcIsLinear` | vitriol-daemon/vitriol_alka_kernel.h:95-107 | the checksum is linear over xor in the bytes and the start value, for byte strings of any length |
| `DropChecksum.OneByteChanges` | vitriol-daemon/vitriol_alka_kernel.h:95-107 | any change confined to one byte changes the checksum |
| `DropChecksum.UnnoticedExactly` | vitriol-daemon/vitriol_alka_kernel.h:95-107 | a change goes unnoticed exactly when the checksum of the difference is zero |
| `DropChecksum.NeighboursHide` | vitriol-daemon/vitriol_alka_kernel.h:101-104 | a difference in one byte is hidden by the same difference, shifted by one bit, in the next |
| `DropChecksum.AlteredDropRejected` | vitriol-daemon/vitriol.c:751-757 | a correctly checksummed drop with one covered byte altered is accepted if and only if its checksum field is zero |
| `DropChecksum.FieldIsLittleEndian` | vitriol-daemon/vitriol.c:751-757 | the checksum field is the number whose bytes stand, lowest first, behind the covered part |
| `DropChecksum.ComputeDropCrc` | alka-executor/vitriol_alka_user.h:184-196 | the loop, which kernel and user space share over the same layout, computes the checksum of all bytes before the field |
| `DropChecksum.CheckDrop` | vitriol-daemon/vitriol.c:751-757 | EXECUTE goes on exactly for a zero field or the true checksum |
| `FlowCopy.Daemon.HandleFlow` | vitriol-daemon/vitriol.c:301-395 | refusals in order; without a source the range is zeroed if and only if there is a DMA buffer and the range fits the window, else the write goes wrong; with one the window holds the bytes of all reads one after the other at the destination, also after a failed read, and under a read that follows the seek these are the available part of the file range; a write would leave the window only if the range does not fit |
| `FlowCopy.RefusalExactly` | vitriol-daemon/vitriol.c:301-356 | FLOW goes on exactly for a claimed vessel and a size above zero within the aperture, unless the cooperative path takes over or a source finds no buffer; and what it answers else |
| `FlowCopy.Daemon.CopyChunks` | vitriol-daemon/vitriol.c:358-382 | the chunk loop ends for every chunk limit, every pattern of short reads and both readings of a null position and, unless a read fails or a write would leave the window, has moved the smaller of size and the bytes left in the file, in reads no longer than the DMA buffer (or, reading at the start, the whole size from any file that is not empty) |
| `FlowCopy.Daemon.ReadSourceFile` | vitriol-daemon/vitriol.c:500-513 | a read gives the error it met, end of file, or a non-empty part of what lies at the place of the seek or, where a null position means that, at the start of the file |
| `FlowCopy.SoughtIsRange` | vitriol-daemon/vitriol.c:358-382 | reads that follow the seek bring one range of the file, however they were cut |
| `FlowCopy.GotAt` | vitriol-daemon/vitriol.c:358-382 | under either reading each byte comes from its place behind the start of its own read |
| `FlowCopy.StartRepeats` | vitriol-daemon/vitriol.c:500-513 | reads at the start all begin with the first byte of the file |
| `FlowCopy.ReadingsAgree` | vitriol-daemon/vitriol.c:500-513 | one read from offset 0 brings the same under both readings |
| `FlowCopy.PutSought` | vitriol-daemon/vitriol.c:376-381 | what reads that follow the seek put into the window is the landed file range |
| `FlowCopy.LandedMeaning` | vitriol-daemon/vitriol.c:376-381 | the landed range equals the file range byte for byte and everything around it is as before |
| `FlowCopy.FindVessel` | vitriol-daemon/vitriol.c:198-206 | the first claimed vessel of the id, none only if there is none |
| `JsonSanitizer.KeepsTokens` | libvitriol/rebis.py:346-373 | everything outside literals is untouched and every literal keeps its characters, raw newlines and tabs spelled as escapes |
| `JsonDocument.SanitizeMeans` | libvitriol/rebis.py:346-373 | of a text of bare characters and literals, perhaps ending inside one, the sanitizer writes the same with raw newlines and tabs of literals as escapes; an escaped character is never touched |
| `JsonDocument.EveryText` | libvitriol/rebis.py:346-373 | every text is of that kind |
| `JsonSanitizer.Idempotent` | libvitriol/rebis.py:346-373 | sanitizing twice is sanitizing once |
| `JsonSanitizer.OutputSimulates` | libvitriol/rebis.py:353-372 | the scanner ends in the same state on the output as on the input |
| `JsonSanitizer.NoRawControl` | libvitriol/rebis.py:346-373 | in the output a newline or tab inside a literal stands only right after a backslash |
| `JsonSanitizer.SanitizeJsonCandidate` | libvitriol/rebis.py:346-373 | the loop with its two flags computes that function |
| `RebisVerdict.OrderIrrelevant` | libvitriol/rebis.py:444-486 | the verdict is the same for every order of the checks |
| `RebisVerdict.FailureNamesGap` | libvitriol/rebis.py:479-486 | no correction order is added exactly when every invariant is addressed and upheld |
| `RebisVerdict.PassesExactly` | libvitriol/rebis.py:444-486 | a verdict passes exactly if the reply does and every invariant is spoken of, by its number counted from 1 or without a valid number by its text, by nothing but checks that hold on evidence that is not blank |
| `RebisVerdict.GapsExactly` | libvitriol/rebis.py:479-486 | an order is added for an invariant exactly if it is not spoken of, or not upheld |
| `RebisVerdict.GapsAscend` | libvitriol/rebis.py:479-486 | these orders come in the order of the invariants, at most one for each |
| `RebisVerdict.TallySnoc` | libvitriol/rebis.py:460-477 | one more check keeps the table in step: an invariant is in it once addressed, true while all that addresses it holds with evidence |
| `RebisVerdict.ParseVerdict` | libvitriol/rebis.py:444-490 | passed means: the reply passes, and every invariant is addressed and every check resolved to it holds with non-blank evidence |
| `RebisLoop.AcceptedExactly` | libvitriol/rebis.py:1004-1252 | a run is accepted if and only if it reaches an iteration whose gate is green and which is compiler-only or has a passing reply that addresses every invariant, with every check resolved to it holding on non-blank evidence |
| `RebisLoop.ChainShape` | libvitriol/rebis.py:1004-1272 | over any chain of resumed runs on an empty journal, turn numbers never fall, lie between 1 and `max_iterations`, and nothing follows a result |
| `RebisLoop.ResumedTurnsAreNew` | libvitriol/rebis.py:1555-1565 | each resumed run only appends, and its turns lie above every journalled turn |
| `RebisLoop.PauseIsTransparent` | libvitriol/rebis.py:1004-1265 | where nothing is lost, running out of budget before an iteration of any resumed run and resuming appends what one uninterrupted run would have written |
| `RebisLoop.HandedExactly` | libvitriol/rebis.py:998-1022 | after a pause in any resumed run, the next run is handed the orders and the draft an uninterrupted run holds there if and only if the last verdict of the run carried orders (or there was none) and no draft was to be shown |
| `RebisLoop.DeltaHandedExactly` | libvitriol/rebis.py:738-749 | the journal hands on the orders the loop holds exactly when the run had no verdict yet or its last verdict carried orders |
| `RebisLoop.DeltaHeld` | libvitriol/rebis.py:1254-1255 | the running loop holds the orders of the last verdict, or its own when that had none |
| `RebisLoop.OrdersLost` | libvitriol/rebis.py:1254-1265 | a red gate with a passing reply and no orders: uninterrupted, the next draft is accepted; paused and resumed, it is made without orders and rejected |
| `RebisLoop.PatchShowsNothing` | libvitriol/rebis.py:1011-1022 | in patch mode no draft is carried, so only the orders can be lost |
| `RebisLaws.LastDraftHeld` | libvitriol/rebis.py:182-188 | outside patch mode an iteration is handed the files of the last draft before it, unless whole files were asked for and the iteration between failed |
| `RebisLaws.DraftDropped` | libvitriol/rebis.py:1011-1022 | after a failure where whole files are asked for no draft is handed on |
| `RebisLaws.NoDraftYet` | libvitriol/rebis.py:998-1022 | before any draft the files are those of the start |
| `RebisLaws.NamedExactly` | libvitriol/rebis.py:1129-1255 | before an iteration the journal of a run holds turns only, of exactly the iterations that failed, had fragments rejected or came to a verdict, the last with its orders |
| `RebisLaws.RunEnds` | libvitriol/rebis.py:1004-1272 | a run ends at the first iteration that stalls, with a pause, at the first that is accepted, with that result, and else, all iterations used up, with the other |
| `RebisLaws.GivesUpExactly` | libvitriol/rebis.py:1266-1272 | it gives up exactly if every iteration goes on to the next |
| `RebisLoop.ChainGenuine` | libvitriol/rebis.py:1230-1255 | no journal records the loop's own order to start over |
| `RebisLoop.SkippedOnResume` | libvitriol/rebis.py:1128-1268 | resuming after any run skips the paused iteration exactly when fragments had been rejected in it |
| `RebisLoop.SilentTail` | libvitriol/rebis.py:1129-1144 | the iterations after the last journalled turn had written nothing |
| `RebisLoop.ResumeState` | libvitriol/rebis.py:738-749 | highest journalled turn, last non-empty delta, and whether there is a result |
| `RebisLoop.RebisLoop` | libvitriol/rebis.py:998-1272 | the loop, carrying orders and draft from iteration to iteration, appends exactly the specified events and reports acceptance exactly under the condition above |
| `RebisLoop.Iterate` | libvitriol/rebis.py:1005-1256 | one iteration: what it writes, whether it ends the run, whether it accepts, and what the next one drafts from |
| `RebisLoop.ResumeRun` | libvitriol/rebis.py:1555-1565 | a finished journal is left alone, any other is continued after its last turn with its last orders |
| `SseStitching.InterleavingIrrelevant` | libvitriol/rebis_shim.py:459-505 | a stream whose content pieces and fragments are moved by any bijection that keeps the order within the content and within each tool index gives the same content and tool calls |
| `SseStitching.ReorderingKeepsTracks` | libvitriol/rebis_shim.py:482-499 | such a reordering says the same, in the same order, on every track |
| `SseStitching.TracksSay` | libvitriol/rebis_shim.py:482-502 | the content is what the text track says, and the fragments of an index are what its track says |
| `SseStitching.SlotIsMerged` | libvitriol/rebis_shim.py:488-499 | a slot exists exactly for the indices that occur and holds what the fragments of its own index amount to |
| `SseLaws.SlotMeans` | libvitriol/rebis_shim.py:488-499 | a call exists for exactly the indices that occur; its name and arguments are those of its own fragments put together in stream order, and its id is the last one given |
| `SseLaws.CallsAscend` | libvitriol/rebis_shim.py:500-502 | calls come by ascending index |
| `SseLaws.MessageMeans` | libvitriol/rebis_shim.py:459-505 | the message of a stream: all texts in stream order, the last reason given, and these calls |
| `SseLaws.LinesAppend` | libvitriol/rebis_shim.py:459-481 | lines without an end mark are read and passed on one after the other, the last usage record counting |
| `SseLaws.OneLine` | libvitriol/rebis_shim.py:459-481 | what a single line says, and that nothing behind the end mark counts |
| `SseLaws.ChoicesSay` | libvitriol/rebis_shim.py:1158-1190 | content and reasoning are put together in stream order |
| `SseStitching.StitchChoice` | libvitriol/rebis_shim.py:488-499 | the loop over fragments extends the table by them in order |
| `SseStitching.ParseSseStream` | libvitriol/rebis_shim.py:459-505 | the stitcher returns the message the stream spells before its end mark, and the last usage record |
| `SseStitching.ConsumeRelayStream` | libvitriol/rebis_shim.py:1158-1190 | the relay's content equals the stitcher's on the same stream, its count is content plus reasoning, it reports the end mark, and it passes on every chunk in order and then the end mark if one was seen |
| `ExpertCache.ResidentAreLastMisses` | src/vitriol-expert-cache.cpp:137-246 | every history of requests with short type names returns; map and queue then name the same keys, each once: the last loaded ones in order, within capacity, and with no failed load exactly the last `capacity` keys that missed |
| `ExpertCache.ServedInStep` | src/vitriol-expert-cache.cpp:174-238 | a request with a short type name keeps map and queue in step and acts first in, first out |
| `ExpertCache.PreloadIsHistory` | src/vitriol-expert-cache.cpp:260-286 | a preload continues the history of requests, so what is said of histories covers it |
| `ExpertCache.PreloadAsk` | src/vitriol-expert-cache.cpp:260-286 | a preload asks for the experts in the order given and for the three projections of each in turn |
| `Eviction.NeverReturnsExactly` | src/vitriol-expert-cache.cpp:137-246 | after any history that returned, a request never returns if and only if it misses and the long type names loaded so far number at least the capacity |
| `Eviction.LongNamesBlock` | src/vitriol-expert-cache.cpp:137-246 | one long type name asked for in as many layers as the cache has room for: every request after that returns only if it repeats one of these, and none with a short name does |
| `Eviction.StuckAreLongLoaded` | src/vitriol-expert-cache.cpp:174-238 | the entries no eviction can remove are exactly those loaded under long type names |
| `Eviction.EndsUnlessStuck` | src/vitriol-expert-cache.cpp:174-207 | the eviction loop ends exactly when such entries do not fill the capacity |
| `Eviction.EvictionEndsExactly` | src/vitriol-expert-cache.cpp:174-207 | in terms of the cache alone, it ends exactly when there is room or, with capacity at least 1, some queued entry is filed under the key computed for it |
| `ExpertCache.InStepSize` | src/vitriol-expert-cache.cpp:230-238 | a map and a queue that are in step have the same size |
| `ExpertCache.ExpertCache.Get` | src/vitriol-expert-cache.cpp:137-246 | for any type names: hit, miss and failed allocation, counters, buffer, and 2 MB of reported VRAM per entry; the new map and queue are those of the histories; a hit with a short type name is on the expert asked for |
| `ExpertCache.ExpertCache.Evict` | src/vitriol-expert-cache.cpp:174-207 | unless stuck entries fill the cache the loop ends, with room for one more |
| `ExpertCache.ExpertCache.PreloadLayer` | src/vitriol-expert-cache.cpp:260-286 | one request for each projection of each expert, in order, up to the first failure |
| `ExpertCache.ExpertCache.Clear` | src/vitriol-expert-cache.cpp:322-341 | nothing is resident and no VRAM is reported afterwards |
| `CacheKeys.StoredKeyMatches` | src/vitriol-expert-cache.cpp:50-54 | the key computed from a stored entry is the one it was filed under exactly for type names of at most 15 characters |
| `CacheKeys.LongKeyIsNoVictim` | src/vitriol-expert-cache.cpp:50-54 | no entry's recomputed key is the key of a long type name |
| `CacheKeys.KeyInjective` | src/vitriol-expert-cache.cpp:50-54 | short type names: different experts have different keys |
| `CacheKeys.LongKeyInjective` | src/vitriol-expert-cache.cpp:50-54 | long type names, cut off or not, still leave different layers and experts with different keys |
| `Gguf.SkipValueAt` | alka-executor/gguf-offset-resolver.c:155-178 | over an encoded value of any type and any nesting the cursor moves by exactly the encoded length |
| `Gguf.SkipPairsAt` | alka-executor/gguf-offset-resolver.c:297-303 | over an encoded metadata list the cursor moves by exactly its length |
| `Gguf.TensorInfoAt` | alka-executor/gguf-offset-resolver.c:314-333 | an encoded tensor info of at most four dimensions is read back, its name as a C string |
| `Gguf.ParseHeadAt` | alka-executor/gguf-offset-resolver.c:273-333 | parsing an encoded head skips all metadata, recovers every name, dimension, type and offset, and ends after the last tensor info |
| `Gguf.NameSurvives` | alka-executor/gguf-offset-resolver.c:325-325 | a name comes back whole exactly when it holds no zero byte |
| `Gguf.CStringMeans` | alka-executor/gguf-offset-resolver.c:325-325 | in general it comes back up to its first zero byte |
| `Gguf.WidthExactly` | alka-executor/gguf-offset-resolver.c:155-169 | every type code has the width of its type, and no other code has one |
| `Gguf.SkipFixed` | alka-executor/gguf-offset-resolver.c:155-169 | a number is skipped by its width, a code that is no type not at all |
| `Gguf.FromLeSnoc` | alka-executor/gguf-offset-resolver.c:105-117 | each further byte of a number counts 256 times as much as the one before |
| `Gguf.HeadLayout` | alka-executor/gguf-offset-resolver.c:273-297 | in any file that is read, the letters GGUF are followed by the version, the number of tensors and the number of metadata pairs |
| `Gguf.Reader.ReadUint` | alka-executor/gguf-offset-resolver.c:105-117 | little-endian value and cursor, or failure at the end of the file |
| `Gguf.Reader.ReadString` | alka-executor/gguf-offset-resolver.c:140-148 | length-prefixed text and cursor |
| `Gguf.Reader.SkipValue` | alka-executor/gguf-offset-resolver.c:155-178 | the recursive reader moves the cursor as the specification does; unknown types move nothing |
| `Gguf.Reader.ReadTensorInfo` | alka-executor/gguf-offset-resolver.c:315-332 | one tensor info as specified |
| `Gguf.Reader.ParseGguf` | alka-executor/gguf-offset-resolver.c:273-333 | the whole head as specified, with magic, version, counts, metadata and tensor infos |

## Left out

- LoRA factors: an `A` whose front axes neither have length 1 nor that of the weight (no operation builds one from factors in order but the breaking calls and a mixed `torch.cat`), and adapters of rank 0.
- LoraJoin.CatAboveExactly: parts without positions along the first axis are left to `CatSound`; where the lengths then add up by chance, what comes out depends on the numbers in the factors.
- LoRA indexing: index tensors, and more than one ellipsis in a tuple, which a tensor refuses.
- LoRA splitting: a dimension below minus the number of axes, which the source maps back into range.
- Floating point: rounding and element types of weights, money and times.
- Template differ: `prune_whitespace_segments`, the trimming helpers and the parser generator.
- Budget daemon: prices and token estimates, unreadable or unwritable ledger files, HTTP, and two bookings that interleave inside load-add-save, which the single-writer ledger is meant to exclude.
- Sidecar: what `save_idle` and `restore_all` do with slots and checkpoint files, `last_sig`, the health wait itself, and logging.
- Kernel module: the cooperative peer-to-peer path (FLOW hands over to it), the other opcodes, vial parsing and device binding, and the rollback of the stream call, which unwinds a stack nothing pushes to.
- FlowCopy.Daemon.HandleFlow: does not say what a write outside the window or through a null buffer does, because C does not.
- Rebis loop: how drafts are extracted and applied, difflib matching (a given function), message building, usage accounting and distillation records; journal lines that do not decode. Orders the parser or the loop adds count as different from any text of the verifier's own.
- SSE gateway: decoding of lines and JSON; routing and proxying.
- Expert cache: the mode without a queue, which does not keep its VRAM count; a negative capacity, which the source converts to a huge one; and memory, such as the read of the victim's size after it was freed or an entry whose key another entry's eviction removed (the model works on values).
- GGUF resolver: absolute offsets and size estimates of tensors; a file that ends early or a tensor of more than four dimensions, where the source goes on with undefined values, is a failure in the model.
- Benchmarks, downloaders, the vector store, log analysis and the editor plugin.
