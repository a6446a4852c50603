# Verified model of the llumnix-kv transfer core

llumnix-kv moves the KV cache of a request from prefill (P) workers to decode (D) workers whose
tensor-parallel sizes, page sizes and layouts may differ. This project models the parts of it in
which an error silently corrupts a cache, loses a transfer or hangs a request, and proves what
they guarantee. `dafny verify dfyconfig.toml` checks everything.

## What is modelled

**Copies as byte relations.** A transfer list is a list of records (source offset, destination
offset, length). `Copies` gives it a meaning: how often each (source byte, destination byte) pair
is copied, and how often a destination byte is written. All statements about parsers, about the
merging of intervals and about the generator are made in these terms, so lists of different shape
can be compared.

**Resharding addresses.** `PageLayout` gives each paged layout an address function from (token,
pack member or head, K or V, byte) to an offset. `Reshard` describes one pair of ranks as a `Job`
whose reference list moves every coordinate of the narrow rank to the same coordinate of the wide
one, shifted by its group offset. The parsers (`AttnParser`, `HndParser`) are loops with two
diverging cursors; they are proved to perform exactly the reference copy. The reference copies of
a group of ranks tile the wide pages, and the mirrored direction (`SlicedSend`, `TailFill`,
`ZeroFill`) writes every allocated row of the receiver once on completion; `LastFill` is the
padding of the last page in the other direction and `GroupSend` the driver of that direction.
Recurrent state is gathered and scattered by segment lists (`StateReshard`, `StateParser`,
`StateDriver`). `Placement` states where every byte goes in coordinates of the layouts' tensors, apart from the
address functions the parsers use. Whole-page sending is `BlockAligned`. The token-major parsers are
`LegacyParser`; `CachePlacement` gives the tensor position of every byte of their caches and
`LegacyGroup` runs all ranks of a group. The layout-driven generator that replaces the hand-written parsers is `LayoutPlan` (token streams),
`StatePlan` (recurrent state) and `Generator` (padding, whole pages and the dispatch over all
components of a tensor). Sorting and folding of records is `MergeInterval`, which works in place on
an array. `CopyKernels` is the copying between packed host buffer and device by memcpy, batched
kernels or both.

**The send protocol.** `SendProtocol` is the prefill backend as a state machine of one request;
a failing assertion of the source is an outcome of its own. `Legal` collects what the engine and
the decode side promise: chunks are contiguous and do not exceed the request's bound; only a
request with a bound is stopped without computing; a destination is announced once and asks for no
more than is computed here, or, of a request that is over, for no more than its prompt; a suspended
request is migrated only without a save; a finished request is not scheduled again; and a bypass
step replays the latest chunk of a request that is announced in that step and does not finish in
it. A request that the decode side hands over together with its destination is one whose first event
is the announcement. `PBackend` is the class with the three tables; its methods are proved against the state machine
for all requests at once.

**The transfer client.** `StepCoordinator` models the locked sections of the main thread and of
the bypass thread as transitions, so a run is an interleaving. It assumes that step ids increase
from a positive number, that a substep belongs to a step that is opened, and that it arrives after
the previous step was flushed. `TargetManager` is the least-recently-used list of send targets.

**Completion and lifecycle.** `Completion` counts signals, `RankMap` maps ranks to ranks,
`HybridScheduler` keeps the queues, token counts and block references, `ExtraKv` the reference
tables of blocks held by loads and saves, `TransferDone` the order of finish and save. `WorkerInfo` is the text
form in which workers advertise their caches. `Migration` joins scheduler and backend where the
latter sets up a save itself.

Integers are unbounded unless a word size matters (`RangeCheck`). Clocks, sockets, device memory
and the inference engine are parameters or transitions of an environment.

## Where the source does not keep a property

- A block-aligned task that closes a request without new tokens in the middle of a page does not
  send that page, while the replicated MLA parser does (`BlockAligned.SamePagesAsMla`: exactly then;
  `BlockAligned.ClosedInsidePage` is an instance).
- The block-aligned part of the layout-driven generator does not send the allocated pages after the
  last token, which the block-aligned parser sends (`Generator.AlignedAgainstParser`: both send the
  same pages exactly when there are none or a later chunk follows; `Generator.SparePage` is an
  instance).
- A destination that asks for more than the prompt, announced for a request that was stopped
  without computing, leaves the request's waiting entry behind, so its finish fails an assertion
  (`SendProtocol.FinishAfterInfo`: exactly then; `SendProtocol.LimitAbovePromptFails`: an instance).
- A destination that asks for more tokens than a request computes here makes its chunks fail the
  last-token assertion (`SendProtocol.ChunkBelowLimit`: which chunks, and when none does;
  `SendProtocol.LimitAboveLastTokenFails` is an instance).
- A migration fails the assertion on its save setup exactly when the scheduler still holds a save of
  the request (`Migration.Announce`), in particular when one was planned as the request was added
  (`Migration.AddAndMigrate`; `Migration.SavedRequestIsNotMigrated` is an instance).
- A computed and finished request is sent completely exactly when its destination was touched
  (`SendProtocol.FinishedIsDelivered`), which is sure for a remotely decoded request with its save
  and for a request handed over with its destination. A request that does not decode elsewhere and
  is announced after its last chunk is not sent (`SendProtocol.LateInfoIsNotDelivered` is an
  instance).
- The P>D padding of token-major pages advances a source cursor that serves only an assertion; the
  assertion fails exactly when more slots are left in the last page than a source page has
  (`LastFill.FillLastAttn`, `GroupSend.SendGroupAttn`; `LastFill.SmallSourcePage` is an instance).
  The generator asserts the same (`Generator.GenerateKBlockFill`).
- The end of a remotely decoded request is never reported when no save was set up for it, which is
  the case exactly for prompts of at most one remaining token
  (`TransferDone.ShortPromptsAreNeverReported`; `TransferDone.OneTokenPrompt` is an instance).
- A numeric address in an 11-plus-one-field or 11-plus-two-field advertisement is read as a number
  (`WorkerInfo.OlderForms`: an address is recognized exactly when it is not a number).
- When the sizes do not divide, a prefill rank has no targets; the one signal awaited from it is
  then its report of failure (`RankMap.AwaitedIsSent`; `RankMap.ThreeToTwo` is an instance).

## Model

| member | source | states |
|---|---|---|
| RangeCheck.AppendIpcBlockChecked | kvtransfer/include/parse_block_common.h:31-68 | the overflow-safe machine test accepts a record exactly when it is non-empty and both byte ranges lie inside their tensors, mathematically |
| RangeCheck.CopyInRange | kvtransfer/include/parse_block_common.h:31-68 | for non-empty records, being in range depends only on the copy performed |
| Copies.PermutationSameCopy | kvtransfer/src/channel.cpp:63-98 | reordering records does not change the copy |
| Copies.RunIsOneBlock | kvtransfer/src/channel.cpp:53-61 | adjacent records of equal length perform the copy of one long record |
| Copies.SameCopySameWrites | kvtransfer/src/channel.cpp:63-98 | lists with the same copy write every destination byte equally often |
| Copies.TransferOnce | kvtransfer/src/channel.cpp:63-98 | a destination byte written once ends up with the byte it was copied from, whatever the order of records |
| Schedule.RoundIsRange | kvtransfer/src/parse_block_qwen3_next.cpp:217-246 | emitting layer by layer inside a round performs the copy of emitting token by token |
| Schedule.RunsAreRound | kvtransfer/src/parse_block_flashinfer.cpp:144-167 | one long record per head and half performs the copy of one record per token |
| PageLayout.RowsDisjoint | kvtransfer/src/parse_block_qwen3_next.cpp:108-248 | for distinct block ids, two rows that share a byte are the same token, member and half |
| PageLayout.RowsWrites | kvtransfer/src/parse_block_qwen3_next.cpp:108-248 | the rows of a token range write exactly their own bytes, each once |
| Reshard.SliceWrittenOnce | kvtransfer/src/parse_block_qwen3_next.cpp:108-248 | P>D: every byte of a rank's slice is written exactly once, from the same token, member, half and byte of that rank |
| Reshard.RankWrites | kvtransfer/src/parse_block_qwen3_next.cpp:108-248 | P>D: a rank writes the bytes of its slices once and nothing else |
| Reshard.GroupTilesRows | kvtransfer/src/parse_block_qwen3_next.cpp:108-248 | P>D: over all group offsets every byte of the wide rows of the tokens is written exactly once and nothing else is |
| Reshard.MirrorWrittenOnce | kvtransfer/src/parse_block_qwen3_next.cpp:1187-1270 | P<D: every row byte of the receiver is written once, from the matching byte of its slice of the sender |
| Reshard.JobInRange | kvtransfer/include/parse_block_common.h:31-68 | with block ids inside the tensors every record of either direction passes the range check |
| Placement.OffsetIsPosition | kvtransfer/src/parse_block_qwen3_next.cpp:108-248 | both address functions are row-major positions in the layout's tensor, dimension by dimension |
| Placement.AllReferencePlaces | kvtransfer/src/parse_block_qwen3_next.cpp:217-246 | everything that performs the reference copy puts byte b of each (token, member, K or V) of group offset g at head g*k + member of the wide cache, once, in either direction and both layouts |
| AttnParser.ParseHybridAttnBlock | kvtransfer/src/parse_block_qwen3_next.cpp:108-248 | the two-cursor loop performs exactly the reference copy of the pair of ranks, and fails exactly when a reference record is out of range; for distinct target blocks byte b of head row (token, member, K or V) of rank g of n lands once, at its tensor position in the wide cache, heads g*k to g*k+k-1, and the mirror image for P<D |
| AttnParser.Cursor | kvtransfer/src/parse_block_qwen3_next.cpp:148-207 | the cursor arithmetic finds the page, kernel cell and slot of the address function |
| AttnParser.RoundMatch | kvtransfer/src/parse_block_qwen3_next.cpp:217-246 | the running offsets of a round are the address function at every token and pack member |
| HndParser.ParseHybridHndBlock | kvtransfer/src/parse_block_flashinfer.cpp:82-169 | the head-major loop with one long record per head performs exactly the reference copy, and fails exactly when a reference record is out of range; every byte lands once at its tensor position, heads shifted by the group offset |
| HndParser.RoundStarts | kvtransfer/src/parse_block_flashinfer.cpp:121-143 | the start offsets of a round are those of the address function for every head |
| HndParser.RoundInRange | kvtransfer/src/parse_block_flashinfer.cpp:144-167 | a long record passes the range check exactly when each of its tokens does |
| ZeroFill.EmitZeroFillSegments | kvtransfer/src/parse_block_common.cpp:131-147 | the segments write each byte of the destination range once, read only the first bytes of the zero block, and fail exactly when a segment is out of range |
| TailFill.FillTail | kvtransfer/src/parse_block_qwen3_next.cpp:1031-1088 | the fill writes the K and V rows of all free slots of the allocated blocks, reads only the request's block 0, and fails exactly when one of its runs is out of range |
| TailFill.FillRound | kvtransfer/src/parse_block_qwen3_next_flashinfer.cpp:279-324 | one kernel cell of the fill, for every member and both halves; fails exactly when one of these runs is out of range |
| TailFill.TokensAndTail | kvtransfer/src/parse_block_qwen3_next.cpp:1031-1088 | token records and fill together write every row byte from the first token to the end of the block table exactly once and nothing else |
| LastFill.FillLastAttn | kvtransfer/src/parse_block_qwen3_next.cpp:261-374 | P>D padding writes this rank's slice of every slot left in the last page and reads only block 0; it throws iff a slice among the first source page's worth of slots is out of range, and otherwise its source-side assertion fails iff more slots are left than a source page has |
| LastFill.FillLastHnd | kvtransfer/src/parse_block_flashinfer.cpp:181-235 | head-major pages: one run per head and half writes this rank's slots left in the last page and reads only block 0; fails exactly when one of these runs is out of range |
| LastFill.GroupComplete | kvtransfer/src/parse_block_qwen3_next.cpp:261-374 | on completion the ranks of a group have together written every row byte up to the end of the last page exactly once and nothing else |
| LastFill.PaddingFits | kvtransfer/include/parse_block_common.h:31-68 | with block ids inside the tensors the padding never fails the range check |
| LastFill.SmallSourcePage | kvtransfer/src/parse_block_qwen3_next.cpp:261-374 | geometries for which that assertion fails |
| GroupSend.SendGroupAttn | kvtransfer/src/parse_block_qwen3_next.cpp:987-1020 | P>D driver of one rank: its position in the group, the reference copy with every byte at its tensor position, the padding on completion, and with ids inside the tensors failure iff the padding overruns a source page |
| GroupSend.SendGroup | kvtransfer/src/parse_block_qwen3_next_flashinfer.cpp:236-270 | the drivers of all ranks of a receiver's group together write every row byte from the first new token to the end of the last page exactly once and nothing else |
| SlicedSend.SliceBelongsToRank | kvtransfer/src/parse_block_qwen3_next.cpp:1187-1270 | the slice chosen by the rank formula is the one whose heads the receiving rank owns |
| SlicedSend.ComputedSlice | kvtransfer/src/parse_block_qwen3_next.cpp:1187-1270 | the driver's quotients compute that slice for all sizes it accepts |
| SlicedSend.SendSlicedAttn | kvtransfer/src/parse_block_qwen3_next_flashinfer.cpp:427-513 | P<D driver: the owned slice is copied, every byte from its tensor position in the wide cache, on completion every row of the allocated blocks is written exactly once, fill reads stay in block 0, and records inside the tensors never fail |
| StateReshard.GatherTilesState | kvtransfer/src/parse_block_qwen3_next.cpp:440-502 | the ranks' gathers write every byte of the wide recurrent state exactly once and nothing else |
| StateReshard.ScatterGatherIdentity | kvtransfer/src/parse_block_qwen3_next.cpp:589-664 | scattering a wide state and gathering it back restores every byte, for any segment lengths and group size |
| StateParser.EmitStatePGtD | kvtransfer/src/parse_block_qwen3_next.cpp:440-502 | the P>D loop with running inner offsets emits exactly the gather list, and fails exactly when one of its records is out of range; byte e of component c of row r of rank g lands at byte g*step + e of that component of the wide row |
| StateParser.EmitStatePLtD | kvtransfer/src/parse_block_qwen3_next.cpp:589-664 | the P<D loop over wide dimensions emits exactly the scatter list, each byte from the same position of the wide state |
| StateDriver.EmitKdaPGtD | kvtransfer/src/parse_block_kda.cpp:68-124 | P>D: a KDA state in both convolution layouts is gathered; every element of every channel and of the recurrent part is copied to its tensor position in the wide state, channels shifted by the rank |
| StateDriver.EmitKdaPLtD | kvtransfer/src/parse_block_kda.cpp:126-191 | the same for P<D, with segments derived from the wide state |
| StateDriver.KdaSize | kvtransfer/src/parse_block_kda.cpp:22-52 | in both convolution layouts the segments add up to the declared state size |
| StateDriver.ParseGdnPGtD | kvtransfer/src/parse_block_qwen3_next.cpp:440-502 | all pages of all layers are gathered: for every layer g and index i some part of the records gathers page src[g][i] into page dst[g][i] |
| StateDriver.PageListed | kvtransfer/src/parse_block_qwen3_next.cpp:440-502 | every pair (src[g][i], dst[g][i]) stands at its place of the page list |
| StateDriver.PagesNumber | kvtransfer/src/parse_block_qwen3_next.cpp:440-502 | and the list has no other pages |
| StateDriver.RanksTile | kvtransfer/src/parse_block_qwen3_next.cpp:440-502 | over all ranks every byte of every target page's state is written exactly once and nothing else |
| MergeInterval.Merge | kvtransfer/src/channel.cpp:63-98 | in place: the surviving records perform the same copy, no two neighbours are adjacent on both sides, and minimum, maximum, total and count are those of the survivors |
| BlockAligned.ParseBlockAlignedSend | kvtransfer/src/parse_block_qwen3_next.cpp:15-84 | a task sends exactly the pages from its first to its end page, whole and in order, and fails exactly when one is out of range; for distinct targets every byte of page i goes once to the same byte of its target page iff the page has tokens of the send and, while the request is open, all its tokens are there; the tables need equal length only in the last task |
| BlockAligned.OpenChunks | kvtransfer/src/parse_block_qwen3_next.cpp:15-84 | before the last chunk exactly the pages whose tokens are all computed have been sent |
| BlockAligned.AllChunks | kvtransfer/src/parse_block_qwen3_next.cpp:15-84 | however a request is cut into chunks, every byte of every allocated page with a token at or after the first uncached one is sent once, in order, and no other page |
| BlockAligned.ParseReplicatedMla | kvtransfer/src/parse_block_kimi_k3.cpp:80-101 | the closed form sends the MLA part of exactly its page range, byte by byte into the target page, and fails exactly when one of them is out of range |
| BlockAligned.SamePagesAsMla | kvtransfer/src/parse_block_kimi_k3.cpp:80-101 | both page ranges are equal if and only if the request is not closed without new tokens inside a page |
| BlockAligned.ClosedInsidePage | kvtransfer/src/parse_block_kimi_k3.cpp:80-101 | a page of two slots closed after its first token, for which they differ |
| TokenStream.PageRun | kvtransfer/src/parse_block_common.cpp:43-79 | within a page the per-token records are one contiguous run |
| CachePlacement.SideByte | kvtransfer/include/attn_layout.h:17-76 | for each of the three places of the K/V dimension the strides and offsets of a stream address the row-major tensor position of (page, slot, K or V, byte) |
| CachePlacement.AllSlicesPlaced | kvtransfer/src/parse_block_ragged.cpp:99-174 | the streams of rank g of n copy byte b of its K or V of every token, once, to byte g*k + b of K or V of that token in the wide cache, in either direction |
| CachePlacement.RanksTileTokens | kvtransfer/src/parse_block_ragged.cpp:99-174 | over all n ranks every byte of K and V of the wide tokens is written exactly once and nothing else |
| LegacyParser.ParseEqual | kvtransfer/src/parse_block_common.cpp:43-79 | runs cut at page boundaries perform the per-token copy and, without conversion, fail exactly when a token is out of range |
| LegacyParser.ParseSlices | kvtransfer/src/parse_block_common.cpp:81-129 | one record per token at the address of the stream, in either direction; fails exactly when one is out of range |
| LegacyParser.RepeatShifted | kvtransfer/src/parse_block_ragged.cpp:157-173 | the second pass appends every K record once more, shifted |
| LegacyParser.RaggedEqual | kvtransfer/src/parse_block_ragged.cpp:29-60 | token-major pages, equal sizes: the copy of all tokens, every byte to its tensor position |
| LegacyParser.RaggedSlices | kvtransfer/src/parse_block_ragged.cpp:99-174 | token-major pages, different sizes: K slices then V slices of every token, swapped for P<D; byte b of rank g's K (V) of token w lands once at g*k + b of K (V) of that token |
| LegacyParser.FlashEqual | kvtransfer/src/parse_block_flash.cpp:10-62 | K/V-outermost tensors, equal sizes: the K copy and the V copy one layer size further, every byte to its tensor position |
| LegacyParser.FlashSlices | kvtransfer/src/parse_block_flash.cpp:66-130 | K/V-outermost tensors, P>D: K slices then V slices; byte b of rank g's K (V) of token w lands once at g*k + b of that token in its half of the layer |
| LegacyParser.RaggedEqualInRange | kvtransfer/src/parse_block_common.cpp:43-79 | with block ids below the layer's number of blocks no record fails the range check |
| LegacyParser.RaggedSlicesInRange | kvtransfer/src/parse_block_ragged.cpp:150-173 | the same for K, V and swapped slices |
| LegacyParser.FlashEqualInRange | kvtransfer/src/parse_block_flash.cpp:10-62 | the same for both halves of a layer |
| LegacyParser.FlashSlicesInRange | kvtransfer/src/parse_block_flash.cpp:66-130 | the same for slices of both halves |
| LegacyGroup.SendRaggedGroup | kvtransfer/src/parse_block_ragged.cpp:99-174 | over all ranks of a group the parser's outputs write every byte of D's tokens [seen, seen+count) exactly once and nothing else, and with ids inside the tensors none fails |
| LegacyGroup.SendFlashGroup | kvtransfer/src/parse_block_flash.cpp:66-130 | the same for K/V-outermost tensors |
| LegacyGroup.GenerateGroup | kvtransfer/src/cache_transfer_spec.cpp:455-614 | the same for the components built from a layout, for all three places of the K/V dimension |
| LayoutPlan.GenerateKBlock | kvtransfer/src/cache_transfer_spec.cpp:16-61 | the generator loop performs the copy of the component's streams, for any number of heads and differing page sizes |
| LayoutPlan.HeadRecord | kvtransfer/src/cache_transfer_spec.cpp:16-61 | these streams have one record per head and token, whose addresses are page, token and head strides plus base and global offsets on each side |
| LayoutPlan.GenerateAttn | kvtransfer/src/cache_transfer_spec.cpp:150-179 | K stream then V stream of a component |
| LayoutPlan.GenerateAll | kvtransfer/src/cache_transfer_spec.cpp:293-308 | the attention components of all tensors of a plan |
| LayoutPlan.RaggedSlicesPlan | kvtransfer/src/cache_transfer_spec.cpp:455-614 | the component built for token-major pages has the parser's two streams |
| LayoutPlan.FlashSlicesPlan | kvtransfer/src/cache_transfer_spec.cpp:455-614 | the component built for K/V-outermost tensors has the parser's two streams |
| LayoutPlan.SpecPlaces | kvtransfer/src/cache_transfer_spec.cpp:455-614 | the component built for rank g of n puts byte b of its K (V) of every token at g*k + b of K (V) of that token, once, for all three places of the K/V dimension |
| LayoutPlan.PlanRefinesLegacy | kvtransfer/src/cache_transfer_spec.cpp:620-848 | for both shapes, P==D and P>D, with rank filtering and replicated caches, the plan sends exactly what the hand-written parser sends, and only P<D is refused |
| LayoutPlan.ParseLegacy | kvtransfer/src/parse_block_ragged.cpp:29-174 | the hand-written parser chosen for a pair of workers sends the records that the plan is compared with |
| LayoutPlan.SendBothWays | kvtransfer/src/cache_transfer_spec.cpp:620-848 | from the same workers and tables, generator and hand-written parser perform the same copy whenever the latter succeeds; every byte of a rank that sends lands once at its tensor position, and exactly the silent ranks send nothing |
| StatePlan.GenerateGdn | kvtransfer/src/cache_transfer_spec.cpp:229-252 | every segment of every page of every group, in order |
| StatePlan.BuildSegments | kvtransfer/src/cache_transfer_spec.cpp:401-450 | the segments built for a rank are the gather list of its state |
| StatePlan.PlanIsGather | kvtransfer/src/cache_transfer_spec.cpp:229-252 | for every list of pages the plan of a rank sends exactly the gather records of the hand-written driver |
| StatePlan.SendStateBothWays | kvtransfer/src/cache_transfer_spec.cpp:401-450 | plan and driver send the same state records whenever the driver succeeds |
| Generator.GenerateKBlockFill | kvtransfer/src/cache_transfer_spec.cpp:67-117 | the padding of one stream, for every head and slot left, from the token of the same position of the first source block; its assertion fails iff more slots are left than that block has tokens |
| Generator.PadRecord | kvtransfer/src/cache_transfer_spec.cpp:67-117 | padding record (head h, slot i) goes from token i of the first source block to the slot of token total + i, same head, with both addresses written out |
| Generator.PadWrites | kvtransfer/src/cache_transfer_spec.cpp:67-117 | the padding writes every byte as often as the missing tokens of the last page would |
| Generator.LastPageComplete | kvtransfer/src/cache_transfer_spec.cpp:120-147 | tokens and padding of a component together write what all tokens up to the end of the last page would |
| Generator.GenerateBlockAligned | kvtransfer/src/cache_transfer_spec.cpp:181-226 | whole pages: those whose last token is there and, on completion, the page of the last token |
| Generator.AlignedAgainstParser | kvtransfer/src/cache_transfer_spec.cpp:181-226 | the block-aligned parser sends these pages followed, on completion, by the allocated pages after the last token; equal iff there are none |
| Generator.SparePage | kvtransfer/src/cache_transfer_spec.cpp:181-226 | one token and two allocated pages, for which they differ |
| Generator.GenerateIpcBlocks | kvtransfer/src/cache_transfer_spec.cpp:254-291 | every component of a tensor by its kind, padding and state only on completion; fails iff a component needs more padding than its first source block holds, nothing for an invalid one |
| CopyKernels.EnqueueMemcpyLoop | kvtransfer/src/copy_kernels.cpp:267-294 | one memcpy per block performs the packed copy; its bounds assertions hold |
| CopyKernels.CopyDirect | kvtransfer/src/copy_kernels.cpp:377-400 | a launch copies what it wrote to the metadata buffer, which takes three entries per block and stays in bounds |
| CopyKernels.CopyInBatches | kvtransfer/src/copy_kernels.cpp:770-823 | batches with rebased pointers and one reused metadata buffer perform the packed copy |
| CopyKernels.EnqueueExplicit | kvtransfer/src/copy_kernels.cpp:633-673 | launches with explicit host offsets perform exactly their records |
| CopyKernels.EnqueueHybrid | kvtransfer/src/copy_kernels.cpp:675-724 | splitting blocks between memcpy and kernels performs the packed copy, or does nothing when no block is large |
| CopyKernels.CopyHandleData | kvtransfer/src/copy_kernels.cpp:733-823 | whatever method is selected, the operations perform the packed copy |
| CopyKernels.StrategiesAgreeOnDevice | kvtransfer/src/copy_kernels.cpp:733-823 | host to device: for disjoint device ranges all strategies leave the same device memory |
| CopyKernels.StrategiesAgreeOnHost | kvtransfer/src/copy_kernels.cpp:733-823 | device to host: all strategies leave the same host buffer |
| WorkerInfo.ToString | kvtransfer/src/common.cpp:50-75 | the text is the joined field list, refused exactly when a name is too long |
| WorkerInfo.WireOrder | kvtransfer/src/common.cpp:50-75 | between the commas stand the fields in the order of the wire format, sizes separated by bars, numbers in decimal |
| WorkerInfo.FromString | kvtransfer/src/common.cpp:77-145 | the cursor loop hands exactly the tokens between commas to the decoder |
| WorkerInfo.ReadSigned | kvtransfer/src/common.cpp:97-140 | numbers may follow blanks and a sign; a negative one is read as its residue modulo the word size |
| WorkerInfo.SplitJoin | kvtransfer/src/common.cpp:77-90 | splitting undoes joining for separator-free fields |
| WorkerInfo.SizesRoundTrip | kvtransfer/src/common.cpp:9-34 | a size list, also an empty one, survives its text form |
| WorkerInfo.RoundTrip | kvtransfer/src/common.cpp:50-145 | every record with comma-free names is read back unchanged, except that pack size 0 becomes 1 |
| WorkerInfo.OlderForms | kvtransfer/src/common.cpp:92-145 | the 11-, 12- and 13-field forms decode with defaults for what they lack, and an address is recognized iff it is not a number |
| SendProtocol.StepKeeps | blade_kvt/hybrid_connector/kvtbackend.py:1653-1806 | every legal event keeps the protocol invariant; in particular no assertion fails |
| SendProtocol.EveryRunIsAChain | kvtransfer/include/common.h:314-326 | over every run the receiver accepts the transfers of a request as one chain: nothing is sent before a destination was accepted, the chain opens once at the tokens that announcement names as held, is contiguous, nothing follows a last transfer, and a closed chain ends at the least of the request's tokens, the announced limit and the tokens computed here, unless the request stopped before computing it |
| SendProtocol.AnnouncedOnce | blade_kvt/hybrid_connector/kvtbackend.py:1493-1509 | whatever follows an accepted announcement, the destination keeps its cached tokens and the least of tokens, limit and bound |
| SendProtocol.ChainIsContiguous | kvtransfer/include/common.h:314-326 | what the receiver accepts is contiguous, with one opening and no inner last transfer |
| SendProtocol.FinishedIsDelivered | blade_kvt/hybrid_connector/kvtbackend.py:1420-1437 | a computed and finished request with an accepted destination that lacks some of its tokens has been sent from the cached tokens to exactly what was asked iff the destination was touched, otherwise not at all, in whatever order chunks, destination, bypass steps and finish came; for a remotely decoded request whose save was not aborted it was touched |
| SendProtocol.HandedOverIsDelivered | blade_kvt/hybrid_connector/kvtbackend.py:1330-1362 | a request handed over with its destination is sent from the cached tokens to exactly what was asked once computed and finished, also when it does not decode elsewhere or its save was aborted |
| SendProtocol.LateInfoIsNotDelivered | blade_kvt/hybrid_connector/kvtbackend.py:1510-1520 | a request that does not decode elsewhere, announced after its only chunk: a legal run that sends nothing |
| SendProtocol.LimitBelowTokens | blade_kvt/hybrid_connector/kvtbackend.py:1493-1509 | a finished prompt of four with one generated token, announced with limit four: tokens 0 to 3 are sent |
| SendProtocol.NothingAfterLast | blade_kvt/hybrid_connector/kvtbackend.py:1555-1609 | after a last transfer no event makes the backend send for that request |
| SendProtocol.FinishAfterInfo | blade_kvt/hybrid_connector/kvtbackend.py:1471-1531 | a destination for a finished request breaks its later finish if and only if its limit exceeds the prompt and something is left to send |
| SendProtocol.LimitAbovePromptFails | blade_kvt/hybrid_connector/kvtbackend.py:1471-1531 | a prompt of four tokens with three computed elsewhere, stopped and then announced with limit five, for which that happens |
| SendProtocol.ChunkBelowLimit | blade_kvt/hybrid_connector/kvtbackend.py:1695-1705 | after an announcement exactly the chunks that reach the last token but not the limit fail the last-token assertion; none does iff the limit is within the last token or asks for one token |
| SendProtocol.LimitAboveLastTokenFails | blade_kvt/hybrid_connector/kvtbackend.py:1695-1705 | a prompt of four tokens announced with limit six, whose chunk of five fails the assertion |
| SendProtocol.MigrationWithSave | blade_kvt/hybrid_connector/kvtbackend.py:1511-1516 | a migration breaks the backend iff its save set-up is refused |
| Migration.Announce | blade_kvt/hybrid_connector/kvtbackend.py:1511-1516 | in every scheduler state a migration of a running request breaks the backend iff a save of it is held, and otherwise sets one up |
| Migration.AddAndMigrate | blade_kvt/hybrid_connector/kvtbackend.py:1511-1516 | a request that is added, gets its blocks, reaches the engine and is migrated breaks the backend iff a save was planned for it |
| Migration.SavedRequestIsNotMigrated | blade_kvt/hybrid_connector/kvtbackend.py:1511-1516 | a remotely decoded prompt of four tokens, which has a save and breaks |
| PBackend.Backend.UpdateInFlight | blade_kvt/hybrid_connector/kvtbackend.py:1555-1571 | records a transfer in the table of open chains; its assertions hold |
| PBackend.Backend.OnInfo | blade_kvt/hybrid_connector/kvtbackend.py:1471-1531 | handles an announced destination as the protocol does, touching no other request |
| PBackend.Backend.OnFinish | blade_kvt/hybrid_connector/kvtbackend.py:1572-1609 | handles a finished request as the protocol does |
| PBackend.Backend.OnScheduleNew | blade_kvt/hybrid_connector/kvtbackend.py:1661-1727 | handles a first chunk as the protocol does |
| PBackend.Backend.OnScheduleCached | blade_kvt/hybrid_connector/kvtbackend.py:1729-1806 | handles a later chunk as the protocol does |
| PBackend.Backend.OnAbortSave | blade_kvt/hybrid_connector/kvtbackend.py:1611-1631 | handles an aborted save as the protocol does |
| PBackend.Backend.OnStop | blade_kvt/hybrid_connector/kvtbackend.py:1633-1639 | handles a request stopped without computing as the protocol does |
| PBackend.Backend.BuildBackendMeta | blade_kvt/hybrid_connector/kvtbackend.py:1832-1859 | a full step keeps all tables consistent with the events handled and hands on, in its three lists, exactly what the protocol sends for every request; frozen transfers are whole ones, aborts are closing ones and nothing in the third list is frozen |
| PBackend.Backend.BuildSubstepMeta | blade_kvt/hybrid_connector/kvtbackend.py:1832-1859 | the same for a bypass step, which replays a request of its parent step exactly when replaying is enabled and the request got a destination in this step that is still untouched |
| PBackend.Backend.SentIsChain | blade_kvt/hybrid_connector/kvtbackend.py:1653-1806 | in every state of the backend what was sent for a request is one chain; once the request is computed and finished it covers exactly the range the decode side asked for iff the destination was touched, which it was for a remotely decoded request whose save was not aborted |
| PBackend.ListsPerRequest | blade_kvt/hybrid_connector/kvtbackend.py:1832-1859 | splitting a step's transfers over three lists does not reorder those of any request |
| StepCoordinator.Client.StartSendSubstep | kvtransfer/src/client.cpp:413-460 | the locked section decides a substep as the transition system does; its assertions hold |
| StepCoordinator.Client.StartSend | kvtransfer/src/client.cpp:464-515 | the locked section opens a step and takes over the early substeps |
| StepCoordinator.Client.SubmitEarly | kvtransfer/src/client.cpp:503-512 | every early substep is submitted once, in order, to the step with its id |
| StepCoordinator.Client.FlushSend | kvtransfer/src/client.cpp:525-543 | the locked section releases the step; nothing is pending |
| StepCoordinator.Decision | kvtransfer/src/client.cpp:413-460 | early substeps wait, those of the open step join it, late ones go on their own |
| StepCoordinator.EveryInterleaving | kvtransfer/src/client.cpp:413-543 | in every interleaving no assertion fails, a substep is in exactly one place, is attached only to its own step or sent alone after that step's flush, and pending ones share the next step's id in increasing order |
| StepCoordinator.EverySubstepIsSubmitted | kvtransfer/src/client.cpp:413-543 | once both threads rest, every substep that arrived was submitted exactly once |
| TargetManager.TargetMgr.Get | kvtransfer/src/client.cpp:21-29 | a found target becomes the most recent one, all others keep their order |
| TargetManager.TargetMgr.Create | kvtransfer/src/client.cpp:164-186 | a new target joins list and index; both stay in bijection |
| TargetManager.TargetMgr.SubmitBatch | kvtransfer/src/client.cpp:72-110 | a batch refers to the target of its destination and carries the target's thread hint, which is kept while the target has batches in flight and renewed otherwise |
| TargetManager.TargetMgr.Complete | kvtransfer/src/client.cpp:97-104 | completing a batch finds its target alive and its count positive |
| TargetManager.TargetMgr.TryPopMap | kvtransfer/src/client.cpp:142-162 | removes one entry and drops an instance without targets |
| TargetManager.TargetMgr.TryShrink | kvtransfer/src/client.cpp:123-140 | drops only idle targets from the least recent end and stops at the cap or at a busy target |
| TargetManager.TargetMgr.ShrinkOne | kvtransfer/src/client.cpp:123-140 | one round drops the least recent target exactly when there are too many and it is idle |
| TargetManager.TargetMgr.DoSubmit | kvtransfer/src/client.cpp:72-110 | whatever batches the pool completes in between, batches are conserved, every batch goes to the target of its destination, while it is in flight that target stays listed, also after shrinking, and a target is dropped only when idle and with more than the cap listed |
| TargetManager.TargetMgr.BatchesListed | kvtransfer/src/client.cpp:72-140 | no batch in flight refers to a removed target, and all batches of a target share a thread hint |
| Completion.IoState.TryAdvance | blade_kvt/hybrid_connector/utils.py:473-552 | in both modes what is stored for a worker are its first signals among those delivered, as many as count, and a signal is reported as completing exactly when it is the one with which every rank has delivered enough |
| Completion.CountDecides | blade_kvt/hybrid_connector/utils.py:513-552 | the number of ready workers reaches the group size exactly when every rank has reported everything |
| Completion.CompletesOnce | blade_kvt/hybrid_connector/utils.py:473-552 | over any sequence of signals at most one completes the request |
| Completion.CompletesEventually | blade_kvt/hybrid_connector/utils.py:473-552 | one does if and only if everything was reported in the end |
| Completion.AfterStores | blade_kvt/hybrid_connector/utils.py:473-552 | after any sequence of deliveries the table holds, per worker, the first counted ones of that worker |
| Completion.CompletesWhenEnough | blade_kvt/hybrid_connector/utils.py:473-552 | over any sequence of deliveries the completing one is the first with which every rank has delivered enough |
| Completion.MergeSignals | blade_kvt/hybrid_connector/utils.py:444-470 | the merged result fails iff a signal failed; otherwise it is the least count, or none if any is missing |
| Completion.IoState.Merge | blade_kvt/hybrid_connector/utils.py:444-470 | merging takes all signals of the workers that reported everything |
| Completion.IoState.OnSendDone | blade_kvt/hybrid_connector/kvtbackend.py:1188-1199 | the signal that completes a request, and no other, yields its result: failed iff a counted delivered signal failed, otherwise the least count delivered, or none if one is missing |
| RankMap.RankEquations | kvtransfer/src/parse_block_kda.cpp:251-258 | in every data-parallel replica a pair of ranks is linked exactly when it satisfies the equations the parsers assert |
| RankMap.Balanced | blade_kvt/hybrid_connector/kvtbackend.py:637-664 | over all P ranks every D rank is hit exactly P/D times, or once when P is not larger |
| RankMap.FanOut | blade_kvt/hybrid_connector/kvtbackend.py:1174-1186 | the awaited signals equal the targets of a rank if and only if the sizes divide |
| RankMap.EveryPairReported | blade_kvt/hybrid_connector/kvtbackend.py:1174-1199 | when a rank has delivered its signals, every D rank it sends to has reported |
| RankMap.AwaitedIsSent | blade_kvt/hybrid_connector/kvtbackend.py:1865-1884 | for any two sizes a rank delivers exactly the signals awaited from it; it has targets iff the sizes divide |
| RankMap.ThreeToTwo | blade_kvt/hybrid_connector/kvtbackend.py:1865-1884 | three ranks and two: no targets, one failure awaited and sent by each |
| RankMap.CompleteMeansEveryPair | blade_kvt/hybrid_connector/kvtbackend.py:1174-1199 | when the completion rule is met, every linked pair of ranks has reported |
| HybridScheduler.Scheduler.OnAddReq | blade_kvt/hybrid_connector/__init__.py:1181-1191 | a request with operations waits, any other goes to the engine; its token counts are kept |
| HybridScheduler.Scheduler.StepWaiting | blade_kvt/hybrid_connector/__init__.py:1083-1127 | requests leave the queue in order up to the first without blocks: each with saves starts them and takes a reference per block, those with loads start loading and the others are loaded; nothing else changes |
| HybridScheduler.Scheduler.SetupSave | blade_kvt/hybrid_connector/__init__.py:1045-1063 | a save takes one reference per block occurrence and one outstanding operation |
| HybridScheduler.Scheduler.TrySetupSave | blade_kvt/hybrid_connector/__init__.py:572-584 | a later save of a running request starts iff none is set up |
| HybridScheduler.Scheduler.TryTeardownSave | blade_kvt/hybrid_connector/__init__.py:1065-1074 | its single teardown drops exactly those references |
| HybridScheduler.Scheduler.StepSaved | blade_kvt/hybrid_connector/__init__.py:992-1042 | every completed save is torn down, no other |
| HybridScheduler.Scheduler.SaveDone | blade_kvt/hybrid_connector/__init__.py:1286-1307 | the end of a save cleans up exactly when no load is outstanding |
| HybridScheduler.Scheduler.MarkLoaded | blade_kvt/hybrid_connector/__init__.py:1278-1283 | the end of a load cleans up exactly when no save is outstanding |
| HybridScheduler.Scheduler.StepLoaded | blade_kvt/hybrid_connector/__init__.py:1130-1178 | every loaded request is handed to the engine with the tokens of its load; exactly those that reach their bound are stopped and exactly those whose load failed or was aborted are aborted, both in order, each with its written-out condition |
| HybridScheduler.Settle | blade_kvt/hybrid_connector/__init__.py:1140-1178 | the counts, stop, prefix-cache entry and abort of one loaded request; the assertion that the bound lies below the prompt holds |
| HybridScheduler.Scheduler.TakeStopped | blade_kvt/hybrid_connector/__init__.py:1430-1441 | every stopped request that a step hands to the backend has computed exactly its bound |
| HybridScheduler.Scheduler.StepAbortingOne | blade_kvt/hybrid_connector/__init__.py:1193-1250 | an abort removes a waiting request, takes a request of the engine out of the stopped ones, or is forwarded: to the load backend iff the request is loading and was not forwarded yet, to the save backend iff it is saving, not loading, and was not forwarded yet |
| HybridScheduler.Scheduler.Conserved | blade_kvt/hybrid_connector/__init__.py:1045-1307 | in every state a request is in exactly one place, its cleanup count is the number of its outstanding operations, and blocks of a running save stay referenced |
| ExtraKv.ExtraBlocks.Track | blade_kvt/hybrid_connector/__init__.py:831-841 | both reference tables equal the counts recomputed from the tracked operations |
| ExtraKv.ExtraBlocks.Untrack | blade_kvt/hybrid_connector/__init__.py:843-854 | the same after an operation is forgotten; no entry is left at zero |
| TransferDone.PlannedSaves | blade_kvt/hybrid_connector/kvtbackend.py:1813-1830 | one save exactly for a request handed over with its destination whose prompt is not dropped whole and for a remotely decoded one with more than one remaining token, otherwise none |
| TransferDone.Request.OnSaved | blade_kvt/hybrid_connector/__init__.py:992-1042 | a completed save reports a finished request, or is remembered |
| TransferDone.Request.OnFinished | blade_kvt/hybrid_connector/__init__.py:1893-1931 | a finish reports a saved request, or is remembered; an abort reports nothing here |
| TransferDone.ReportedOnce | blade_kvt/hybrid_connector/__init__.py:1893-1931 | over every run the transfer is reported at most once, never for an aborted request, and once finished with no save open exactly once iff a save was set up |
| TransferDone.ShortPromptsAreNeverReported | blade_kvt/hybrid_connector/kvtbackend.py:1813-1830 | a finished remotely decoded request is never reported iff at most one prompt token remains, and exactly once otherwise |
| TransferDone.OneTokenPrompt | blade_kvt/hybrid_connector/kvtbackend.py:1826-1828 | a one-token prompt: no save, no report, and no event that could bring one |

## Left out

- 32-bit token counters: modelled as unbounded; page tables of a request bound them.
- fp8 conversion: records are stated without it; only the range check models the doubled source length.
- The plans built for hybrid models with an indexer; the components they consist of are modelled.
- The sparse indexer tensors, short convolution and PLE extras of the hybrid shapes.
- The head-outer FLASHINFER entry and the block-aligned QWEN3_NEXT entry of the layout registry, which differ from the hand-written parsers on purpose.
- LayoutPlan.SpecPlaces: excludes equal sides with K and V in halves of a page, which every registered layout of that order sends by whole pages (`Generator.GenerateBlockAligned`).
- Kimi K3 with unequal tensor-parallel sizes, whose last page and tail fill overlap on purpose.
- MergeInterval.SortBySource: stands for the library sort; which of two records with equal source offset comes first is not modelled.
- HybridScheduler.Scheduler.EngineRef: the engine's own references are an environment step.
- CopyKernels.CopyDirect: the kernel is taken to copy each triple of its metadata; streams, errors and timing are not modelled.
- The backend's assertions that block tables of a transfer are not empty.
- Completion.IoState.TryAdvance: signals come from ranks below the group size, as the workers send them.
- Sending of step 0's own buffered tasks, logging, statistics, timers, sockets, device streams and store backends.
