# Vision server: a verified model

The repository runs image models in ggml behind a small HTTP server. The neural networks themselves are
foreign code; around them sits plain code with exact properties. This project models that code in Dafny and
proves what it is for.

* **Tiled upscaling** (`TileLayout`, `TileBlend`, `TiledInference`). An image is cut into overlapping tiles,
  each is run through the network, and the results are blended with ramp weights. Proved: the blend factors at
  every pixel of the image add up to exactly 1 if and only if no pixel lies three tiles deep along either axis
  (`TileBlend.SharedOutIffAtMostTwoDeep`); the order of merging does not matter; and for every network that works
  pixel by pixel the tile loop gives what the network gives on the whole image.
* **Server and worker** (`FrameIo`, `WorkerProcess`, `WorkerModels`, `ServerProtocol`, `ServerProgress`, `ServerState`). Request
  handlers, admin handlers and the idle watchdog share one mutex and one worker process. `ServerProtocol` is a transition
  system over every interleaving of threads, worker acts and crashes, with what always holds; `ServerProgress`
  says what can be reached from any of its states; `ServerState` is the class whose methods refine its steps, each
  extending a ghost trace of them, with the system calls each makes and the outcome they lead to; `FrameIo` proves
  the framing under every schedule of partial and interrupted system calls. Request numbers are never compared, and
  they repeat (`ServerProtocol.RequestNumbersRepeat`): that a reply belongs to its request follows from the order of
  events alone. `WorkerModels` covers the two large models that evict each other.
* **Shifted windows** (`Tensors`, `SwinWindows`, `AttentionMask`, `BiasIndices`). Reshape, permute, pad, roll
  and crop as functions on flat element sequences; the window partition, its inverse, and the mask that keeps
  wrapped neighbours apart.
* **Mask filters** (`Images`, `MaskBlur`, `MaskMorphology`, `MaskBuffer`). The running-sum blur against the
  direct box mean; erosion and dilation as a Galois connection.
* **Depth images** (`Crc32`, `Png16`, `DepthRange`). The table-driven CRC against the shift register of section
  3.4 of RFC 2083, the 16-bit PNG writer against a reader (chunk layout of section 3.2, Sub filter of section
  6.3), and the level of error of the stored depths.
* **SAM model files** (`SamFile`, `SamModel`, `SamQuantizer`). The container written by the converter and
  rewritten by the quantizer.
* **NaFlex preprocessing** (`NaflexSize`, `AaFilter`, `NaflexResize`, `NaflexResizeLoops`, `NaflexPatchify`,
  `NaflexPreproc`). The search for the scale, the antialiasing filter, the separable resize and the patches.
* **Rewrites and caches** (`SplitHead`, `ConvLayout`, `GraphCache`, `TextEncoder`, `VisionEncoder`). The fused
  1x1 output head, the convolution weight layout from conversion script to point of use, and the cache of built graphs.

`Arith`, `Sums`, `Bytes` and `Wrappers` are helpers. Floating-point numbers are exact reals, so nothing here
speaks of rounding, except where the source rounds to an integer. Integers are unbounded unless their width
matters: request numbers, CRC registers, bytes and the words of file formats have theirs.

Places where a natural statement about the code is false, each with the exact condition or a counterexample:

* The factors of a layout need not add up to 1 (`TileLayout.ThreeDeepExample`, a layout the constructor makes):
  `TileBlend.SharedOutIffAtMostTwoDeep` gives the condition on the layout (`TileLayout.UnityIffAtMostTwoDeep` along
  one axis), and `TileLayout.MakeReaches` shows that tiles of at least three overlaps meet it.
* A tile of a layout can lie past the end of the image (`TileLayout.EmptyTileExample`); every tile holds a pixel if
  and only if the last one starts inside it (`TileLayout.NoEmptyTileIff`).
* `block` hands the mask to attention also when nothing was shifted (src/visp/arch/swin.cpp:113); there it masks
  true neighbours in every edge window (`AttentionMask.UnmaskedWindowIff`).
* `recv_frame` reports a clean end of file also after a complete header (`FrameIo.EofCleanExactly`).
* The comment at src/siglip2/preproc.cpp:73 promises a tap of weight 1; there need not be one
  (`AaFilter.HalfwayExample`), and there is one if and only if twice the target size divides (2i + 1)·source − target
  (`AaFilter.FullTapIff`). The weights always add up to at least 1 (`AaFilter.TotalAtLeastOne`).
* A convolution with one input channel is stored like a depthwise one and not restored by `conv_2d`, neither where it
  permutes the weight (`ConvLayout.ConvUseRestoresIff`) nor where it takes a 1x1 kernel for a matrix
  (`ConvLayout.MatrixUseRestoresIff`).
* The window functions of the mobile SAM encoder only undo each other for a single image
  (`SwinWindows.SamRoundTripIffOneImage`).
* A graph whose last allocation failed is handed out again by the next call (`GraphCache.FailedAllocationIsKept`).
  Every cached graph stays usable if and only if no call fails that allocation (`GraphCache.AllAllocatedIff`, over
  whole runs `TextEncoder.UsableIffNoneBreaks`), and a call computes an unusable graph if and only if the cache held
  one for its key (`GraphCache.UnspecifiedIff`).
* The quantizer reports success for a file that ends early, before a tensor, and writes one that claims more
  tensors than it holds (`SamQuantizer.CutInputExample`). Its output can be read if and only if its input can
  (`SamQuantizer.OutputReadsBackIff`).
* `next_gpu` is never cleared, so the GPU wanted is the last one any request named
  (`ServerProtocol.WantedIsLastTarget`).
* The scale search meets the budget exactly if its smallest scale does (`NaflexSize.ComputeTargetSize`), which is
  so for every budget if and only if no side is longer than a million patches (`NaflexSize.EveryBudgetMetIff`,
  `NaflexSize.BudgetMissedExample`).

## Model

| member | source | states |
|---|---|---|
| `TileLayout.MakeReaches` | src/visp/image.cpp:612-619 | With an overlap no larger than the requested tile, the tiles reach the end of the image; with a requested tile of at least three overlaps, no pixel lies three tiles deep |
| `TileLayout.MakeIsTight` | src/visp/image.cpp:612-619 | As few tiles as pieces of the requested length would take, each of the shortest aligned length with which that many reach the end of the image |
| `TileLayout.MakeHasNoEmptyTile` | src/visp/image.cpp:612-640 | When the alignment divides requested tile plus overlap, every tile holds a pixel |
| `TileLayout.NoEmptyTileIff` | src/visp/image.cpp:630-640 | Every tile of a layout holds a pixel if and only if the last one starts inside the image |
| `TileLayout.EmptyTileExample` | src/visp/image.cpp:612-640 | A layout the constructor makes whose third tile starts past the end of the image |
| `TileLayout.ScaledReaches` | src/visp/image.cpp:621-628 | Scaling a layout keeps it reaching the end of the image |
| `TileLayout.ScaledTwoDeep` | src/visp/image.cpp:621-628 | Scaling a layout keeps every pixel at most two tiles deep |
| `TileLayout.WeightPositive` | src/visp/image.cpp:671-685 | A tile that covers a pixel has positive weight there, at most overlap + 1: the overwriting branch is dead |
| `TileLayout.ShareIsRamp` | src/visp/image.cpp:671-685 | The share of a tile rises by one per pixel from 1 at its own first pixel, is full in between and falls to 1 at its last; the first tile does not rise, the last does not fall |
| `TileLayout.SharesSumUp` | src/visp/image.cpp:630-687 | The weights of all tiles over a pixel, each as a share of overlap + 1, add up to the whole |
| `TileLayout.ThreeDeepOverflows` | src/visp/image.cpp:630-687 | Where three tiles meet, the shares at the start of the third are one too many |
| `TileLayout.ThreeDeepExample` | src/visp/image.cpp:612-619 | The constructor cuts 48 pixels in tiles of 16 overlapping by 16 into three tiles that all reach one pixel, whose shares are one too many |
| `TileLayout.UnityIffAtMostTwoDeep` | src/visp/image.cpp:612-687 | The shares add up to the whole at every pixel if and only if there are at most two tiles, or tiles are at least two overlaps long, or the third tile starts past the image |
| `TileBlend.TileMerge` | src/visp/image.cpp:655-693 | Merging in place changes exactly the pixels under the tile, each by the blend of its tile pixel |
| `TileBlend.BlendIsPortion` | src/visp/image.cpp:673-687 | The blend factor of a tile at a covered pixel is the product of its portions along the axes, and its weight is positive |
| `TileBlend.MergeAdds` | src/visp/image.cpp:684-690 | Merging always adds the tile's portion to what is there; nothing is overwritten |
| `TileBlend.PortionsSumToOne` | src/visp/image.cpp:655-693 | In two dimensions the portions of all tiles at a pixel add up to exactly 1 |
| `TileBlend.SharedOutIffAtMostTwoDeep` | src/visp/image.cpp:655-693 | The portions add up to exactly 1 at every pixel of the image if and only if no pixel lies three tiles deep along either axis |
| `TileBlend.MergedImageInRange` | src/visp/image.cpp:655-693 | The merged pixel lies between any bounds that hold for the tiles over it; where they agree it has their value |
| `TileBlend.AnyMergeOrder` | src/visp/image.cpp:655-693 | Merging all tiles in any order gives the same image |
| `TiledInference.Convert` | src/visp/image.cpp:215-226 | The input tile holds the image's pixels from the tile's offset on, clamped at the far edges |
| `TiledInference.EsrganModel.Compute` | src/visp/vision.cpp:265-298 | With tiles of 224 overlapping by 16 and aligned to 16, the result is the merged tiles' image in 8 bits, whatever graph was cached before, and the graph kept is the one for this tile size |
| `TiledInference.ToBytes` | src/visp/vision.cpp:297 | Each pixel becomes its opaque 8-bit value |
| `TiledInference.ToU8Is` | src/visp/image-impl.h:38-40 | Values from 1 on are stored as 255, values up to 0 as 0, and those between as the whole part of 255 times the value |
| `TiledInference.LoadIs` | src/visp/image-impl.h:22-26 | A loaded channel is the byte divided by 255 |
| `TiledInference.StoreIs` | src/visp/image-impl.h:38-41 | Each channel of a stored pixel is that of its own channel, and it is opaque |
| `TiledInference.TileAgrees` | src/visp/vision.cpp:285-296 | A tile over a pixel puts there what the network gives on the whole image |
| `TiledInference.TiledEqualsUntiled` | src/visp/vision.cpp:265-297 | For every image, scale and lossless layout, and every network whose output pixel depends only on the input pixel under it, the tile loop gives the network's result on the whole image |
| `TiledInference.MadeLossless` | src/visp/image.cpp:612-628 | For every image size, alignment and scale, a requested tile of at least three overlaps gives a lossless layout |
| `TiledInference.MadeTilingIsInvisible` | src/visp/vision.cpp:265-297 | So from the constructor's arguments on the tile loop gives the network's result on the whole image |
| `TiledInference.RepeatingNetworkIsExact` | src/visp/vision.cpp:265-298 | A network that repeats each pixel gives back the 8-bit image, enlarged |
| `WorkerProcess.AdvanceKeeps` | src/server/worker.cpp:671-696 | A worker at rest stays silent, one with a request in hand carries only that request or its one answer, and a dead one stays dead, whatever it does next |
| `WorkerModels.PeakIsNotTheSum` | src/server/worker.cpp:74-90 | Over every list of requests, failing loads included, at no moment do the matting model and SAM 3 together hold more than the larger of them takes |
| `WorkerModels.NeverBoth` | src/server/worker.cpp:91-222 | At no moment are both loaded, and between requests SAM 3 and its compute state are both there or both gone |
| `WorkerModels.LoadedIff` | src/server/worker.cpp:109-222 | A request finds its model loaded if and only if it is configured and was there or could be loaded; then the other is gone, and a model that is there is not loaded again |
| `WorkerModels.WorkerModels.LoadMatting` | src/server/worker.cpp:109-117 | The changes of memory on each path, in order: SAM 3 goes first, and nothing goes without need |
| `WorkerModels.WorkerModels.LoadSam3` | src/server/worker.cpp:178-222 | The same for SAM 3, with its three failures |
| `WorkerModels.WorkerModels.UnloadMatting` | src/server/worker.cpp:91-98 | The matting slot and its size are cleared, in that order |
| `WorkerModels.WorkerModels.UnloadSam3` | src/server/worker.cpp:100-107 | The compute state goes before the model |
| `ServerProtocol.InvInit` | src/server/server_state.h:35-62 | The initial state satisfies the invariant |
| `ServerProtocol.NextKeepsInv` | src/server/server_state.cpp:16-129 | Every step of every handler, the watchdog and the worker keeps the invariant |
| `ServerProtocol.Run` | src/server/server_state.cpp:16-129 | Every run satisfies the invariant in its last state |
| `ServerProtocol.RepliesMatchRequests` | src/server/server_state.cpp:107-129 | Every reply any handler accepted was made for its own request, by a worker on the backend that handler wanted and on the GPU its request named |
| `ServerProtocol.NoUnexpectedReply` | src/server/server_state.cpp:124-127 | While a handler waits, the worker's queue holds nothing or the one answer to its request: the branch for an unexpected frame is dead |
| `ServerProtocol.RequestNumbersRepeat` | src/server/server_state.h:48 | The first request has number 1, and two requests have the same number if and only if a multiple of 2^32 lies between them |
| `ServerProtocol.QuietWhenUnlocked` | src/server/server_state.cpp:16-129 | Whenever the mutex is free, pid and descriptor are both set or both unset, and a recorded worker has both queues empty and nothing in hand |
| `ServerProtocol.NoProcessLost` | src/server/server_state.cpp:16-91 | Whenever the mutex is free, every process ever spawned is the recorded one, untouched, or was killed, reaped and closed exactly once |
| `ServerProtocol.EnsuredWorkerSuits` | src/server/server_state.cpp:32-105 | After `ensure_worker_locked` the recorded worker exists, is quiet (perhaps dead), and was spawned on the wanted backend and GPU, which is the one the request names if it names one |
| `ServerProtocol.WantedIsLastTarget` | src/server/main.cpp:61-67 | In every run the wanted GPU is the last one that any request taken from the queue named, and the default the server was started with if none did |
| `ServerProtocol.JobsAreEntered` | src/server/main.cpp:61-67 | Every handler works on the job it came with, and the targets taken are those of the jobs, in the order in which they got the mutex |
| `ServerProtocol.InFlightCountsGuards` | src/server/server_state.h:66-74 | The counter is the number of live guards; at zero no guarded handler exists |
| `ServerProtocol.EvictionDisturbsNobody` | src/server/main.cpp:309-312 | When the watchdog kills, no handler is inside the mutex, the worker is quiet, and every live guard is newer than the watchdog's last look |
| `ServerProgress.EvictionWasDue` | src/server/main.cpp:291-314 | In every run a watchdog about to evict has looked with its timer expired and no guard alive, and found the worker that is still recorded |
| `ServerProgress.WatchdogStays` | src/server/main.cpp:295-308 | Without an expired timer, with a guard alive or without a worker a look of the watchdog changes nothing |
| `ServerProgress.WatchdogEvicts` | src/server/main.cpp:304-312 | Otherwise it kills, reaps and closes the worker, once each, and changes nothing else |
| `ServerProgress.UnloadDisposes` | src/server/main.cpp:259-267 | From every reachable state with a free mutex an unload disposes of the worker, if there is one, and changes nothing else |
| `ServerProgress.HandlerCanSucceed` | src/server/server_state.cpp:32-129 | From every reachable state a handler waiting for a free mutex can get it, have every one of its requests answered on the backend and GPU it asked for, and let go, unless the worker it would keep has died |
| `ServerProgress.EnsureCanSucceed` | src/server/server_state.cpp:32-105 | `ensure_worker_locked` can end with a live worker that suits, unless the one it would keep has died |
| `ServerProgress.RoundCanSucceed` | src/server/server_state.cpp:107-129 | A live worker can answer a request, and then only the counters and the list of accepted replies have changed |
| `ServerState.ServerState.KillWorkerLocked` | src/server/server_state.cpp:16-30 | The system calls made are kill, wait and close for what is recorded and no others; nothing else is touched, and nothing is recorded |
| `ServerState.ServerState.EnsureWorkerLocked` | src/server/server_state.cpp:32-105 | It succeeds if and only if the recorded worker matches or the spawned one says HELLO first; the system calls made are none in the first case, and otherwise exactly the disposal of the old worker, the spawn and what it calls for; the fields follow a run of protocol steps |
| `ServerState.ServerState.Retire` | src/server/server_state.cpp:37-43 | A worker that does not match is disposed of before anything is spawned |
| `ServerState.ServerState.StartWorker` | src/server/server_state.cpp:45-105 | The half that spawns: success if and only if there is a process and its first frame is HELLO; otherwise that process is disposed of |
| `ServerState.ServerState.Hear` | src/server/server_state.cpp:78-81 | The next frame of the child, or failure at any time; what the child did meanwhile is in the trace |
| `ServerState.ServerState.AwaitGreeting` | src/server/server_state.cpp:78-104 | One frame is received; the worker is recorded and matches if and only if it is HELLO, and is killed, reaped and closed otherwise |
| `ServerState.ServerState.Dismiss` | src/server/server_state.cpp:82-85 | Kill, reap and close, once each |
| `ServerState.ServerState.RequestLocked` | src/server/server_state.cpp:107-129 | One request number is used up, one frame is sent and, if that went well, one received; what was sent and received decides the outcome: the worker's answer to this very request, its error message with the worker kept, or failure with the worker disposed of, and no other system call is made |
| `ServerState.ServerState.SendRequest` | src/server/server_state.cpp:109-113 | The sending half: the request is in the worker's queue, or sending failed and the worker is disposed of |
| `ServerState.ServerState.ReceiveReply` | src/server/server_state.cpp:114-128 | The receiving half: it fails if and only if nothing or an unexpected frame was received; a reply or error is the frame received and carries the number and origin of the request |
| `FrameIo.WriteExact` | src/server/server_ipc.cpp:48-63 | All bytes in order, or a proper prefix and failure; interruptions and short writes alone never fail |
| `FrameIo.SendFrame` | src/server/server_ipc.cpp:67-101 | The wire carries the whole frame, or a proper prefix of it and failure; an oversized payload sends nothing |
| `FrameIo.ReadExact` | src/server/server_ipc.cpp:19-46 | The buffer gets the next bytes of the stream, or the error tells whether none or some were left |
| `FrameIo.RecvFrame` | src/server/server_ipc.cpp:103-121 | Under every schedule of reads, the frame or error that the byte stream alone determines |
| `FrameIo.RecvFrames` | src/server/worker.cpp:671-677 | The receiving loop gets the frames and the error that the byte stream alone determines, under every schedule; a failing call loses only what comes after it |
| `FrameIo.ReceiveEncoded` | src/server/server_ipc.cpp:67-121 | Receiving an encoded frame returns it and leaves the rest of the stream |
| `FrameIo.ReceiveCut` | src/server/server_ipc.cpp:103-121 | A frame cut short anywhere is reported as missing |
| `FrameIo.EofCleanExactly` | src/server/server_ipc.cpp:28-32 | The clean end of file is reported exactly for an empty stream or one that ends after a header announcing an admissible payload |
| `FrameIo.StreamRoundTrip` | src/server/server_ipc.cpp:67-121 | The reader of any sequence of frames gets that sequence |
| `FrameIo.CutStreamKeepsWholeFrames` | src/server/server_ipc.cpp:67-121 | Wherever the writer dies, the reader gets exactly the complete frames |
| `Tensors.SwapTwice` | src/visp/arch/swin.cpp:46 | Exchanging the middle dimensions twice changes nothing |
| `Tensors.ToWhcnBack` | src/visp/nn.cpp:88-94 | The two layout permutations undo each other |
| `SwinWindows.BatchRecovered` | src/visp/arch/swin.cpp:52-54 | The batch that `window_reverse` computes is the original one, and its assertion holds |
| `SwinWindows.ReversePartition` | src/visp/arch/swin.cpp:41-60 | Reversing a partition gives the tensor back |
| `SwinWindows.PartitionReverse` | src/visp/arch/swin.cpp:41-60 | Partitioning a reversed tensor gives the windows back |
| `SwinWindows.PartitionAt` | src/visp/arch/swin.cpp:41-49 | Each pixel goes to token (y mod w)·w + x mod w of the window in row-major order, image by image |
| `SwinWindows.ReverseAt` | src/visp/arch/swin.cpp:51-60 | Each pixel is read from that slot |
| `SwinWindows.PresentedAt` | src/visp/arch/swin.cpp:99-112 | Attention sees each pixel in the slot of its padded and rolled position |
| `SwinWindows.RestoredAt` | src/visp/arch/swin.cpp:114-126 | Each pixel is taken back from that slot |
| `SwinWindows.BlockMovesNothing` | src/visp/arch/swin.cpp:99-126 | With attention left out, pad, roll, partition, reverse, roll back and crop are the identity, for every shape, window and shift |
| `SwinWindows.BlockIsLocal` | src/visp/arch/swin.cpp:99-126 | With attention that works window by window, a pixel's result depends only on its shifted window |
| `SwinWindows.SamRoundTripIffOneImage` | src/visp/arch/mobile-sam.cpp:25-65 | Reversing a partition gives a single image back and fails for every larger batch |
| `SwinWindows.SamReverseRestores` | src/visp/arch/mobile-sam.cpp:46-65 | For one image both ways of putting windows back agree |
| `AttentionMask.ComputeAttentionMask` | src/visp/arch/swin.cpp:158-203 | Every entry of the buffer, skipped windows included, is minus infinity where the pair lies on both sides of a wrap and zero elsewhere |
| `AttentionMask.GridOfPadded` | src/visp/arch/swin.cpp:164-167 | The grid the mask is computed for is that of the image `block` pads, for every width and height |
| `AttentionMask.InteriorWindow` | src/visp/arch/swin.cpp:173-176 | The skipped windows have no pair to mask |
| `AttentionMask.MaskedIffNotNeighbours` | src/visp/arch/swin.cpp:101-113 | For an image of any size and the mask computed from its unpadded width and height: in a block shifted by half a window, the buffer's entry for two tokens in the window that `window_partition` made is zero if and only if their displacement in the padded image before the roll is the one in the window |
| `AttentionMask.UnmaskedWindowIff` | src/visp/arch/swin.cpp:107-113 | A window's plane is all zero if and only if it touches neither far edge or the window is a single token |
| `AttentionMask.ComputeRelativePositionIndex` | src/visp/arch/swin.cpp:19-30 | The whole index table |
| `AttentionMask.BiasRowIsExact` | src/visp/arch/swin.cpp:28 | Rows lie in the bias table, and two pairs share a row if and only if they have the same displacement |
| `AttentionMask.RelativeAtPair` | src/visp/arch/swin.cpp:19-30 | The entry for two tokens is the row of their displacement |
| `AttentionMask.UnmaskedBiasIsTrueDisplacement` | src/visp/arch/swin.cpp:64-83 | Where that buffer lets two tokens attend, the computed index table names the bias of their displacement before the roll |
| `BiasIndices.BuildAttentionBiasIndices` | scripts/convert.py:246-258 | Numbering offsets as they are met gives offset (dy, dx) the number dy·resolution + dx |
| `BiasIndices.BiasSharedIffSameOffset` | scripts/convert.py:246-258 | Two pairs of points share a bias if and only if their offsets are equal |
| `MaskBlur.Blur` | src/visp/image.cpp:358-408 | The two running-sum passes give the direct mean over the (2r+1)×(2r+1) window with clamped coordinates at every pixel |
| `MaskBlur.HorizontalPass` | src/visp/image.cpp:368-387 | The first pass gives the row means |
| `MaskBlur.VerticalPass` | src/visp/image.cpp:389-407 | The second pass gives the column means |
| `MaskBlur.WindowMoves` | src/visp/image.cpp:378-386 | The window sum one step on is the old one less the value that leaves and plus the one that enters |
| `MaskBlur.FirstWindow` | src/visp/image.cpp:371-374 | The first window sum, with the edge value repeated radius times |
| `MaskBlur.TwoPassesAreBoxMean` | src/visp/image.cpp:365-407 | Column means of row means, with clamping in between, are box means |
| `MaskBlur.BlurKeepsRange` | src/visp/image.cpp:358-408 | Blurring stays within any bounds of the image |
| `MaskBlur.BlurKeepsConstant` | src/visp/image.cpp:358-408 | A plain image stays as it is |
| `MaskMorphology.ErodedAt` | src/visp/image.cpp:509-525 | A bound holds for an eroded pixel if and only if it is at most 1 and holds for every pixel in the clamped window |
| `MaskMorphology.DilatedAt` | src/server/matting_endpoints.cpp:65-75 | The dual for dilation by complement |
| `MaskMorphology.OffsetKeepsMask` | src/server/matting_endpoints.cpp:55-76 | Both operations turn masks into masks |
| `MaskMorphology.Galois` | src/server/matting_endpoints.cpp:55-76 | Dilating a stays below b if and only if a stays below b eroded |
| `MaskMorphology.ErosionMonotone` | src/visp/image.cpp:509-525 | Erosion keeps the order of images |
| `MaskMorphology.OpeningShrinksClosingGrows` | src/server/matting_endpoints.cpp:55-76 | Opening stays below the mask, closing above |
| `MaskMorphology.OpeningAndClosingIdempotent` | src/server/matting_endpoints.cpp:55-76 | Opening twice is opening once, and so for closing |
| `MaskMorphology.ErosionsAddUp` | src/visp/image.cpp:509-525 | Eroding by r and then by s is eroding by r + s |
| `MaskBuffer.Erode` | src/visp/image.cpp:509-525 | The loops write the eroded image |
| `MaskBuffer.LowestNear` | src/visp/image.cpp:513-522 | The inner loops find the greatest lower bound of the window, capped at 1 |
| `MaskBuffer.Mask.Offset` | src/server/matting_endpoints.cpp:55-76 | The mask becomes its erosion, its dilation or stays, by the sign of the radius, through swap or in place |
| `MaskBuffer.OffsetAt` | src/server/matting_endpoints.cpp:55-76 | At a positive radius the result stays below a bound if and only if the whole window does, at a negative one above a bound if and only if the whole window does, and at zero it is the value itself |
| `MaskBuffer.PositiveGrowsNegativeShrinks` | src/server/matting_endpoints.cpp:55-76 | The offset mask lies above the mask for a positive radius and below it for a negative one |
| `MaskBuffer.Mask.Blur` | src/server/matting_endpoints.cpp:78-87 | The mask becomes its box mean, or stays for a radius of zero or less |
| `MaskBuffer.OppositeOffsetsSettle` | src/server/matting_endpoints.cpp:55-76 | Growing and shrinking by the same radius, in either order, changes nothing the second time |
| `Crc32.BuildTable` | src/server/depth_endpoints.cpp:60-69 | Entry n is n shifted eight times through the register |
| `Crc32.LookupIsEightClocks` | src/server/depth_endpoints.cpp:72 | One table step is eight clocks of the shift register, one per data bit |
| `Crc32.Crc32Bytes` | src/server/depth_endpoints.cpp:57-75 | For every byte string and start value, the CRC of the bit-at-a-time definition |
| `Crc32.CheckValue` | src/server/depth_endpoints.cpp:57-75 | The CRC of the tag IEND, which ends every PNG file, is ae426082 |
| `Crc32.CrcContinues` | src/server/depth_endpoints.cpp:57-75 | A CRC may be computed piece by piece |
| `Crc32.CorruptByteDetected` | src/server/depth_endpoints.cpp:57-75 | Changing one byte anywhere changes the CRC |
| `Png16.PutChunk` | src/server/depth_endpoints.cpp:84-91 | Appends length, tag, data and the CRC of tag and data |
| `Png16.ReadChunkBytes` | src/server/depth_endpoints.cpp:84-91 | A reader gets back the chunk and the rest |
| `Png16.CorruptChunkRefused` | src/server/depth_endpoints.cpp:84-91 | One corrupted byte in tag or data makes a reader refuse the chunk |
| `Png16.FilterRows` | src/server/depth_endpoints.cpp:96-110 | The loops write the filtered rows |
| `Png16.FilterRoundTrip` | src/server/depth_endpoints.cpp:96-110 | Undoing the Sub filter gives back every 16-bit pixel |
| `Png16.EncodePng16Gray` | src/server/depth_endpoints.cpp:95-136 | The file of the picture, or nothing when compression fails |
| `Png16.PngRoundTrip` | src/server/depth_endpoints.cpp:95-136 | Decoding the file gives back the picture, for every compressor that can be undone |
| `Png16.FileLayout` | src/server/depth_endpoints.cpp:112-136 | Every byte of the file outside the compressed data and two of the CRCs, in literal values: signature, lengths, tags, width and height, 16-bit greyscale, and the whole IEND chunk |
| `DepthRange.NormalizeU16` | src/server/depth_endpoints.cpp:144-162 | The range reported is the least and greatest depth, and each pixel is the level of its depth |
| `DepthRange.HalfLevelError` | src/server/depth_endpoints.cpp:30-33 | The documented formula recovers each depth within half a level |
| `DepthRange.RoundIsNear` | src/server/depth_endpoints.cpp:159 | A scaled depth goes to the nearest level, upwards halfway |
| `DepthRange.LevelsAreOrdered` | src/server/depth_endpoints.cpp:155-160 | The ends of the range get 0 and 65535, and levels keep the order of depths |
| `SamFile.ReadRecordBack` | scripts/convert_sam3_to_ggml.py:214-255 | Reading a written tensor record gives the tensor and the rest, wherever it lies |
| `SamFile.DataAligned` | scripts/convert_sam3_to_ggml.py:250-255 | The data of a record starts at the first multiple of 32 in the file after the name, and ends the record |
| `SamFile.TypeCodes` | depend/sam3/tools/quantize.cpp:184-192 | Which of the type codes are known, and which of them are quantized |
| `SamFile.BytesOf32` | depend/sam3/tools/quantize.cpp:180-193 | How many bytes 32 elements take, for each of the five type codes 0, 1, 2, 3 and 8 |
| `SamModel.FileRoundTrip` | scripts/convert_sam3_to_ggml.py:202-255 | Reading a written file gives the same model: names, dimensions, types, data, hyperparameters and tokenizer block |
| `SamModel.FileStart` | depend/sam3/tools/quantize.cpp:36-64 | The first 16 bytes of a file of either kind, magic and version in literal bytes |
| `SamModel.FileDataAligned` | scripts/convert_sam3_to_ggml.py:250-255 | In a written file the data of every tensor lies, whole, at a multiple of 32 |
| `SamModel.AttentionIndices` | depend/sam3/tools/quantize.cpp:107-110 | The hyperparameters that depend on a count are those its loop goes around for, the count being signed |
| `SamQuantizer.CopyHparams` | depend/sam3/tools/quantize.cpp:65-144 | The hyperparameters, as many as they themselves say, go over unchanged; if there are too few, the stream has failed |
| `SamQuantizer.ReadTensor` | depend/sam3/tools/quantize.cpp:160-193 | The next record, as the format defines it |
| `SamQuantizer.WriteTensor` | depend/sam3/tools/quantize.cpp:247-265 | Appends the record of the tensor |
| `SamQuantizer.RoundsOfSigned` | depend/sam3/tools/quantize.cpp:159 | The tensor loop goes around as often as the count says when read as a signed number |
| `SamQuantizer.QuantizeTensors` | depend/sam3/tools/quantize.cpp:159-308 | The loop writes the records of the quantized tensors and leaves the tail, or stops early when the input ends before one |
| `SamQuantizer.CopyRest` | depend/sam3/tools/quantize.cpp:310-319 | Everything after the last tensor goes over, however it falls into 4096-byte pieces |
| `SamQuantizer.QuantizeModel` | depend/sam3/tools/quantize.cpp:20-331 | The tool succeeds exactly if magic and version are recognised and the hyperparameters are there; the output is then the file of the quantized model if the input is a whole file, and otherwise that of the tensors there were; it is empty when the header is not recognised |
| `SamQuantizer.QuantizedIff` | depend/sam3/tools/quantize.cpp:195-223 | A tensor is kept as it is if and only if it has one dimension, rows that are no whole number of 32, a quantized type, or a name that contains one of the 22 parts, written out; every other comes out in the type asked for |
| `SamQuantizer.ContainsIff` | depend/sam3/tools/quantize.cpp:200-202 | The search finds a part in a name if and only if the name is something, the part, and something |
| `SamQuantizer.OutputReadsBackIff` | depend/sam3/tools/quantize.cpp:159-319 | The output can be read if and only if the input can |
| `SamQuantizer.CutInputExample` | depend/sam3/tools/quantize.cpp:160-164 | A file with a count of one and no tensor is accepted, and what is written cannot be read |
| `SamQuantizer.QuantizedFileReadsBack` | depend/sam3/tools/quantize.cpp:159-308 | Reading the output gives the tensors in order with the same names and dimensions; kept ones and everything around are unchanged |
| `SamQuantizer.QuantizingTwiceIsOnce` | depend/sam3/tools/quantize.cpp:195-223 | Quantizing the output again to the same type changes nothing |
| `NaflexSize.ScaledIsWhole` | src/siglip2/preproc.cpp:13-17 | A scaled side is a whole number of patches, at least one |
| `NaflexSize.ScaledCovers` | src/siglip2/preproc.cpp:13-17 | A scaled side is the smallest number of whole patches that covers the side times the scale, and at least one |
| `NaflexSize.GridMonotone` | src/siglip2/preproc.cpp:27-29 | A larger scale never needs fewer patches |
| `NaflexSize.WideEnoughIff` | src/siglip2/preproc.cpp:22-25 | The interval is wide enough to go on for the first 24 halvings and no longer |
| `NaflexSize.ComputeTargetSize` | src/siglip2/preproc.cpp:20-38 | The search takes exactly 24 rounds; both sides of the target are whole patches, it meets the budget if and only if the smallest scale does, and is at the smallest scale if that does not; the scale just above (`hi`, within 1e-5) is the upper limit or exceeds the budget |
| `NaflexSize.NothingLargerFits` | src/siglip2/preproc.cpp:20-38 | No scale larger than the one found by the tolerance or more meets the budget |
| `NaflexSize.EveryBudgetMetIff` | src/siglip2/preproc.cpp:22-30 | The smallest scale needs a single patch if and only if no side is longer than a million patches |
| `NaflexSize.BudgetMissedExample` | src/siglip2/preproc.cpp:20-38 | A side of a million patches and one pixel needs two patches even at the smallest scale |
| `NaflexSize.TargetFitsAndIsMaximal` | src/siglip2/preproc.cpp:20-38 | Up to sides of a million patches the target fits every budget, is whole patches on both sides, and no scale from `hi` on would fit unless `hi` is the limit |
| `AaFilter.TapsFit` | src/siglip2/preproc.cpp:54-64 | Every row has at least one tap and fewer than there is room for |
| `AaFilter.HeightFalls` | src/siglip2/preproc.cpp:66-73 | An unnormalised weight falls linearly from 1 at the centre to 0 where the filter ends |
| `AaFilter.TotalAtLeastOne` | src/siglip2/preproc.cpp:66-73 | The unnormalised weights of a row add up to at least 1 |
| `AaFilter.HalfwayExample` | src/siglip2/preproc.cpp:73 | The middle row from 2 samples to 3 has two taps, each of height one half |
| `AaFilter.FullTapIff` | src/siglip2/preproc.cpp:59-73 | A row has a tap of height 1 if and only if its sizes and index put a source sample on its centre |
| `AaFilter.WeightsAreConvex` | src/siglip2/preproc.cpp:66-77 | The weights are not negative and add up to 1 |
| `AaFilter.BuildAaFilter` | src/siglip2/preproc.cpp:51-80 | First taps, counts and the weight table, zero past each row's taps |
| `AaFilter.FillRow` | src/siglip2/preproc.cpp:66-77 | One row, normalised in place, the rest untouched |
| `NaflexResize.BlendWithin` | src/siglip2/preproc.cpp:99-107 | A filtered value lies between the smallest and the largest sample |
| `NaflexResize.BlendSameSize` | src/siglip2/preproc.cpp:51-80 | Without a change of size the filter picks the sample itself |
| `NaflexResize.TriangleLies` | src/siglip2/preproc.cpp:52-60 | The filter is centred on the output sample's place in the source and reaches one sample of the coarser of the two sizes to either side |
| `NaflexResize.BlendInterpolates` | src/siglip2/preproc.cpp:51-107 | Wherever the size does not shrink the filter is linear interpolation between the two samples around the point, pixel centres at halves and the ends repeated |
| `NaflexResize.ResizeKeepsRange` | src/siglip2/preproc.cpp:82-130 | No sample of the result leaves the range of the source |
| `NaflexResize.ResizeSameSize` | src/siglip2/preproc.cpp:82-130 | Resizing to the same size changes nothing |
| `NaflexResize.RoundsToNearest` | src/siglip2/preproc.cpp:126 | Results are rounded to the nearest whole number, and to the even one halfway |
| `NaflexResizeLoops.FirstPass` | src/siglip2/preproc.cpp:89-108 | The loops compute the vertical blend of every sample |
| `NaflexResizeLoops.SecondPass` | src/siglip2/preproc.cpp:110-129 | The loops compute the horizontal blend, rounded and limited to a byte |
| `NaflexResizeLoops.ResizeBilinearU8` | src/siglip2/preproc.cpp:82-130 | The destination becomes the separable blend of the source |
| `NaflexPatchify.GatherIsPermutation` | src/siglip2/preproc.cpp:149-164 | Output slots and samples correspond one to one, by two inverse formulas |
| `NaflexPatchify.Patchify` | src/siglip2/preproc.cpp:135-165 | Every slot holds the normalised sample of its place in its patch |
| `NaflexPatchify.Denormalised` | src/siglip2/preproc.cpp:158-160 | Times the deviation and plus the mean, a normalised sample is the byte times the factor again |
| `NaflexPreproc.PreprocessImageRgb` | src/siglip2/preproc.cpp:169-203 | Refuses exactly empty input and bad patch or budget; otherwise the image was scaled by a scale from 1e-6 to 100 such that none larger by 1e-5 or more meets the budget, the patches are cut from that resized image and cover it, and they meet the budget if and only if the smallest scale does, so always up to sides of a million patches |
| `SplitHead.Conv1x1At` | src/visp/arch/birefnet.cpp:314-321 | Permute, matrix product and permute back give, at each place, the weighted sum of the channels there |
| `SplitHead.OneMorePart` | src/visp/arch/birefnet.cpp:130-140 | Convolving a longer concat is the sum of convolving its two pieces with their slices of the weight |
| `SplitHead.AddBiasAt` | src/visp/arch/birefnet.cpp:141-148 | Every element of an output channel is raised by that channel's bias |
| `SplitHead.ConvSplitSum` | src/visp/arch/birefnet.cpp:124-149 | For any number of parts, the convolution of their concat plus bias |
| `SplitHead.Exchange` | src/visp/arch/birefnet.cpp:294-298 | Weighing channels and mixing places may be exchanged |
| `SplitHead.MixtureGrows` | src/visp/arch/birefnet.cpp:294-298 | A resize that is linear in space gives each place the sum, tap by tap, of the weight times the element read |
| `SplitHead.ConvCommutesWithResize` | src/visp/arch/birefnet.cpp:294-298 | A 1x1 convolution commutes with every resize that is linear in space |
| `SplitHead.FusedHeadIsPlainHead` | src/visp/arch/birefnet.cpp:305-336 | The fused head gives what upscaling, concatenating and convolving give |
| `ConvLayout.PermuteWhcnToCwhn` | src/visp/ml.cpp:346-355 | Four sizes reordered in place, with or without depthwise |
| `ConvLayout.Writer.AddTensor` | scripts/convert.py:55-67 | One more tensor; the index stays in step with the list |
| `ConvLayout.Writer.ConvertTensor2d` | scripts/convert.py:69-76 | The converted tensor, or the same one with the next index noted |
| `ConvLayout.WriteModel` | scripts/convert.py:45-93 | The stored tensors and noted indices of a whole conversion |
| `ConvLayout.ConvIndicesExact` | scripts/convert.py:69-76 | The noted indices increase and name exactly the convolution weights |
| `ConvLayout.WriterMatchesLoader` | scripts/convert.py:116-121 | The permutation in the writer is the rearrangement the loader makes |
| `ConvLayout.ReorderedStridesConvert` | src/visp/ml.cpp:430-436 | Reordering sizes and strides by the same rule and copying through them gives the rearranged weight, element for element |
| `ConvLayout.ConvertTensor` | src/visp/ml.cpp:421-450 | The data stored for a weight is that of the rearranged weight, or its own |
| `ConvLayout.DepthwiseUseRestores` | src/visp/nn.cpp:203-210 | A depthwise convolution sees the original weight |
| `ConvLayout.ConvUseRestoresIff` | src/visp/nn.cpp:160 | The branch of `conv_2d` that permutes the weight sees the original if and only if it has more than one input channel or is a single number |
| `ConvLayout.MatrixUseRestoresIff` | src/visp/nn.cpp:143-147 | Which stored weights the 1x1 branch takes, and that its reshaped matrix is the original input-by-output channel matrix if and only if there is more than one input channel or a single number |
| `ConvLayout.SelectedIffListed` | src/visp/ml.cpp:484-487 | With an increasing list the walk selects exactly the listed tensors |
| `ConvLayout.WholeListUsedIff` | src/visp/ml.cpp:478-517 | The walk uses the whole list if and only if it increases and names existing tensors |
| `ConvLayout.ModelTransfer` | src/visp/ml.cpp:464-518 | Both passes select the same tensors; each loaded tensor has the sizes allocated for it, and the selected ones are the rearranged weights |
| `ConvLayout.LayoutIsCoherent` | src/visp/ml.cpp:464-518 | Noting indices and converting while loading gives the same model as converting while writing |
| `GraphCache.Graphs.Lookup` | src/siglip2/text.cpp:397-403 | The first entry with the key |
| `GraphCache.Graphs.Acquire` | src/siglip2/text.cpp:404-510 | Lookup, eviction and build, with each of the three ways a build can fail |
| `GraphCache.Graphs.Build` | src/siglip2/text.cpp:405-504 | The oldest entry goes when the cache is full, whether or not the build succeeds |
| `GraphCache.OldestGoesFirst` | src/siglip2/vision.cpp:429-512 | Keys stay unique, the size stays within the cap, and what is dropped is older than all that is kept, and only on a miss with a full cache |
| `GraphCache.AllAllocatedIff` | src/siglip2/vision.cpp:438-518 | With every cached graph usable before a call, all are usable after it if and only if the call does not fail the last allocation of a graph it builds |
| `GraphCache.FailedAllocationIsKept` | src/siglip2/vision.cpp:515-518 | After a failed final allocation the next call with the key gets the unusable graph |
| `GraphCache.UnspecifiedIff` | src/siglip2/vision.cpp:515-522 | A call computes a graph without memory if and only if the cache held an unusable graph for its key |
| `GraphCache.AnswersIff` | src/siglip2/vision.cpp:429-531 | A call is answered if and only if a usable graph for its key is there, or none is and all three allocations succeed, and the computation succeeds |
| `GraphCache.BuildsIff` | src/siglip2/vision.cpp:430-512 | A graph that is there is never built again; how many are built and kept otherwise, for every outcome of the allocations |
| `GraphCache.RunsOwnGraph` | src/siglip2/vision.cpp:430-522 | The graph that answers a call is one built from that call's own key, on the buffers the call wrote |
| `GraphCache.EncodedKeeps` | src/siglip2/vision.cpp:429-531 | A whole call keeps the cache in order, and its graphs usable under the same condition |
| `TextEncoder.StepKeeps` | src/siglip2/text.cpp:356-550 | One call keeps the cache in order; which calls are refused, answered, or compute an unusable graph, each exactly, and that an answer is what a freshly built graph gives |
| `TextEncoder.KeepsEight` | src/siglip2/text.cpp:404-412 | The cache grows to eight graphs and no further |
| `TextEncoder.WrittenIsFresh` | src/siglip2/text.cpp:512-538 | Every input a cached graph reads is rewritten by every call |
| `TextEncoder.SameKeyIff` | src/siglip2/text.cpp:393-403 | Two calls share a graph if and only if they agree in tokens per text, number of texts and whether there is a mask |
| `TextEncoder.RunAnswersFreshly` | src/siglip2/text.cpp:356-550 | The same over every list of calls: what the cached graph answers is what a freshly built graph gives on that call's arguments, and the calls that get an answer are exactly those that get a graph and compute |
| `TextEncoder.UsableIffNoneBreaks` | src/siglip2/text.cpp:404-510 | Every graph in the cache is usable all along a list of calls if and only if no call fails the last allocation of a graph it builds |
| `TextEncoder.NoneUnspecified` | src/siglip2/text.cpp:404-510 | As long as none does, no call computes a graph without memory |
| `TextEncoder.Encoder.Load` | src/siglip2/text.cpp:308-354 | Loading empties the cache, or leaves the encoder unloaded |
| `TextEncoder.Encoder.EncodeBatch` | src/siglip2/text.cpp:356-550 | The method refuses when nothing is loaded, and otherwise makes exactly one such step, with its own refusals |
| `TextEncoder.BuildPositions` | src/siglip2/text.cpp:515-521 | Positions restart at 0 for every text of the batch |
| `TextEncoder.BuildMask` | src/siglip2/text.cpp:523-533 | Columns of masked tokens are minus infinity, all else zero |
| `VisionEncoder.RunAnswersFreshly` | src/siglip2/vision.cpp:398-531 | The same over every list of calls of the vision encoder, whose only input is the patches |
| `VisionEncoder.StepKeeps` | src/siglip2/vision.cpp:398-531 | One call of it, with its refusals and its smaller cache |
| `VisionEncoder.KeepsFour` | src/siglip2/vision.cpp:438-441 | The cache grows to four graphs and no further |
| `VisionEncoder.UsableIffNoneBreaks` | src/siglip2/vision.cpp:438-518 | Every graph in the vision cache is usable all along a list of calls if and only if no call fails the last allocation of a graph it builds |
| `VisionEncoder.NoneUnspecified` | src/siglip2/vision.cpp:515-522 | As long as none does, no call computes a graph without memory |
| `VisionEncoder.Encoder.Encode` | src/siglip2/vision.cpp:398-531 | The method refuses when nothing is loaded, and otherwise makes exactly one such step |

## Left out

- Floating-point rounding: all real arithmetic is exact, so where the source speaks of float precision the model speaks of reals. Overflow of 32-bit image sizes is not modelled either.
- ggml itself: networks, attention, matrix products, interpolation taps, allocators and backends are parameters or defining sums; type conversion of weights and the skipped "GGUF" pseudo-tensor are not part of the model.
- TiledInference.Convert: one pixel format (8-bit RGB to float RGB with offset 0 and scale 1), the one the tile loop uses.
- TiledInference.EsrganModel.Compute: the graph is the network as a function of tile size, so a stale graph would show only through its size.
- ServerProtocol.Run: frames are whole and processes are named by fresh keys, so reuse of pids and descriptors is not modelled; that frames arrive whole or not at all is proved in `FrameIo`. Time is left open: the watchdog may find its timer expired or not, and its waiting and try-lock are its step not being taken.
- ServerProtocol.EvictionDisturbsNobody: a guard taken after the watchdog's last look can meet the eviction while its handler still waits for the mutex; it then spawns a new worker.
- ServerProgress.HandlerCanSucceed: says what can happen from every state, not that it will; a worker may drop a reply that is too large for a frame, and a handler would then wait for ever.
- `worker_backend_name` and `worker_native_size`, which only feed replies, and reading them without the lock; the SHUTDOWN frame; the worker's lazy loading of the depth and SigLIP models.
- FrameIo.SendFrame: header words are least significant byte first, as on the machines the server runs on.
- `patch_merging`, `slice` with strides, position interpolation and the fused ggml window operations: they add no harder property.
- The residual connections, norms and multilayer perceptron of `block`.
- Crc32.Crc32Bytes: the table is an argument with its contents as precondition, not a function-local static built on the first call.
- Png16.PngRoundTrip: deflate is any function with an inverse; sizes are below 2^31, as the format demands.
- SamQuantizer.QuantizeModel: the first 16 bytes are there, and no tensor record is cut off inside or misshapen; there the program goes on with variables it never set, so there is nothing to state. The block quantizer is a parameter that fills its blocks, and types are the five the tool and the converter write.
- The tokenizer block is any byte string, since the quantizer never looks inside; tensor renaming and the choice between 16 and 32 bits in the converter.
- NaflexPatchify.Patchify: what dividing by a standard deviation of zero gives is a parameter.
- NaflexPreproc.PreprocessImageRgb: a missing buffer is an empty image.
- VisionEncoder.Encoder.Encode: whether the model's own grid is a square is a given, as is the patch buffer's length.
- GraphCache.RunsOwnGraph: what a graph computes is a function of the arguments it was built from and of its input buffers.
- ConvLayout.ConvertTensor: `ggml_cast` of a strided view is the copy, in order, of the elements the strides lead to; conversion of number types is left out.
- ServerState.ServerState.Hear: the system calls are a small class, `Kernel`, whose children behave as `WorkerProcess` allows; a kill always succeeds.
- HTTP routing, JSON, command line, environment, logging, image files and the language bindings.
