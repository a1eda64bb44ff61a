# IsaacMetalBridge: a verified model

IsaacMetalBridge lets an NVIDIA Isaac Sim guest use an Apple Metal host. A guest shim stands in for CUDA, a byte
protocol carries requests, a host session owns the resources and drives a Metal backend, shaders are rewritten where
Metal has no equivalent, and a viewer shows frames and sends input back. This project models the parts of it with
the most branching and state, and proves what they promise over all inputs and all runs.

One module per component:

| file | component |
|---|---|
| ByteStrings.dfy, Wire.dfy, StreamServer.dfy | little-endian integers, the 32-byte header at both ends, the frame loop under any chunking of reads |
| MessageDigest.dfy, DigestVector.dfy, IntegrityHash.dfy | MD2 (RFC 1319) and the keyed hash of RFC 2104 as block specifications; one of the RFC's test values worked out from them; the CUDA shim's byte-at-a-time code in its 66-byte accumulator |
| SessionProtocol.dfy, SessionState.dfy, BridgeSession.dfy, SessionRuns.dfy | the guards of every request; one request as a function of session and backend tables with its invariant; the session and backend objects updated in place; theorems over whole runs |
| SessionReplies.dfy, SessionExamples.dfy, ServedSession.dfy | what a client reads out of the replies; concrete runs that reach what the theorems exclude; the frame loop with the session behind it |
| ImageLayout.dfy | the overflow-checked tight size, the upload plans, the repacking into aligned staging rows |
| InstanceTables.dfy | flattened per-instance tables, the shader's lookups, texture slots, transformed normals |
| Compositing.dfy | front-to-back compositing of translucent layers |
| Binary64.dfy | binary64 to binary32 and back at the level of bits |
| SerialGrid.dfy, SerialGroup.dfy, SerialText.dfy, SerialExample.dfy | the serialized 64-bit compare-exchange kernel: its meaning on one thread and in the threadgroup dispatched, the text rewrite that makes it, and a source text with an early return that the rewrite accepts |
| CallSites.dfy | the clock shim's lock-free table under every interleaving of threads |
| InputQueue.dfy | the input extension's queue, coalescing and drags |
| HandleGraph.dfy, HandleDeletes.dfy | the CUDA shim's handle graph, with an allocator that may reuse addresses; what its calls delete |
| Ppm.dfy | the frame writer and the viewer's PPM parser |

Objects that the source updates in place are classes whose methods are proved against a function of the old state
(`SessionState.Next` for the session and its backend, `HandleGraph.Next` for the CUDA tables); theorems about runs are
then proved of that function. Everything outside the program (what Metal answers, what the allocator returns, how a
read is chunked, which floats a shader rejects) is a parameter ranging over all possibilities.

Where the code does not do what one would expect, one lemma gives an input and another the exact condition:

- a written frame comes back only from an image one slice deep (`SessionExamples.DeepFrameReached` for a session that
  makes a deeper image its frame, `Ppm.RoundTripIff`);
- the serialized kernel runs every invocation of a grid only when no body but the last returns early on the memory the
  earlier ones leave (`SerialGrid.EarlyReturnBreaksIt` for a kernel whose text `SerialExample.EarlyReturnAccepted` shows
  the rewrite accepts; `SerialGrid.RunsAllIff`; where the ID alone decides about the return, `SerialGrid.GridRunsAllIff`
  is a condition to be checked before the dispatch, and `SerialGrid.NoReturnIsEnough` is the guard on the text that
  would make the rewrite always right);
- narrowing binary64 to binary32 rounds twice, or three times where the result is subnormal, and flushes a binade to zero
  that rounds to the smallest float (`Binary64.DoubleRounding`, `Binary64.SubnormalRounding`, `Binary64.FlushedWrongly`;
  `Binary64.CorrectlyRoundedIff`);
- the delay bound of 512 holds until a site's counter wraps (`CallSites.BoundExceeded`, `CallSites.DelayedCalls`);
- a module unloaded directly leaves its library without one, and unloading the library then deletes it again
  (`HandleGraph.ModuleLost`, `HandleGraph.ModulesRightIff`; `HandleDeletes.DeletedTwice`,
  `HandleDeletes.OthersModuleTaken`, `HandleDeletes.DeletesOwnIff`, and `HandleDeletes.NoStrayIff` in terms of the
  caller's own calls);
- an image of format 11 never takes an upload (`SessionExamples.FormatElevenReached`, `SessionRuns.LastChunkIff`);
- a wait that fails on the GPU leaves a fence only a shutdown can release, and pins its resources
  (`SessionExamples.FailedWaitReached`, `SessionRuns.ReleasableIff`, `SessionRuns.FailedWaitPins`).

## Model

| member | source | states |
|---|---|---|
| ByteStrings.AppendLittleEndian | guest/src/imb_wire.hpp:18-24 | the loop of shifted bytes appends exactly the little-endian digits of the value, least significant first |
| ByteStrings.ReadLittleEndian | host/Sources/IMBHostCore/Protocol.swift:192-202 | the accumulating loop reads the integer of that width at that offset, and nothing exactly when it does not lie inside the data |
| ByteStrings.NumberOfLittleEndian | guest/src/imb_wire.hpp:18-37 | reading the bytes of any value that fits its width gives the value back |
| ByteStrings.LittleEndianOfNumber | guest/src/imb_wire.hpp:18-37 | writing the value of any bytes gives the bytes back |
| Wire.EncodeHeader | guest/src/imb_wire.hpp:39-51 | the eight appends produce the header's 32 bytes |
| Wire.HeaderBytesLayout | host/Sources/IMBHostCore/Protocol.swift:127-138 | the 32 bytes carry every field little-endian at its offset of the wire table |
| Wire.LayoutDeterminesBytes | host/Sources/IMBHostCore/Protocol.swift:127-138 | no other bytes have that layout, so the C++ and the Swift encoder agree byte for byte |
| Wire.DecodeHeader | host/Sources/IMBHostCore/Protocol.swift:140-154 | exactly 32 bytes are accepted, each field read at its offset |
| Wire.DecodeEncode | guest/src/imb_wire.hpp:39-67 | decoding an encoded header returns it, for every header whose fields fit |
| Wire.EncodeDecode | guest/src/imb_wire.hpp:39-67 | any 32 bytes are the encoding of what they decode to |
| StreamServer.ReadExactly | host/Sources/IMBHostCore/BridgeStreamServer.swift:47-63 | whatever chunks the transport delivers, exactly the count of bytes is taken; a clean end only with no byte read; otherwise an unexpected end |
| StreamServer.Serve | host/Sources/IMBHostCore/BridgeStreamServer.swift:22-45 | under every chunking the loop handles the frames, writes the replies and ends the way the byte stream means |
| StreamServer.ServesAllFrames | host/Sources/IMBHostCore/BridgeStreamServer.swift:22-45 | for any list of legal frames exactly the first n are handled, in order, where n is the first that shuts the session down or all of them; their n answers and nothing else are written, and the end is clean |
| StreamServer.TruncationRejected | host/Sources/IMBHostCore/BridgeStreamServer.swift:28-37 | a stream cut anywhere inside a frame is rejected, after exactly the whole frames before the cut |
| StreamServer.OversizedRejected | host/Sources/IMBHostCore/BridgeStreamServer.swift:28-34 | a header announcing more than sixteen mebibytes ends the service, after exactly the whole frames before it |
| ServedSession.BytesServed | host/Sources/IMBHostCore/BridgeStreamServer.swift:22-45 | a peer that sends legal frames gets back exactly the encoded replies of the session's own run to them, one per frame up to the one that stops it, in order |
| IntegrityHash.SinglePass | guest/cuda_shim/imb_cuda_shim.cpp:622-648 | one byte moves the accumulator from one (state, partial block, checksum) triple to the next, running the 18-round transform exactly when the block is full |
| IntegrityHash.Transform | guest/cuda_shim/imb_cuda_shim.cpp:634-647 | the in-place double loop over 48 bytes is the block compression of section 3.4 of RFC 1319 |
| IntegrityHash.HashBytes | guest/cuda_shim/imb_cuda_shim.cpp:650-660 | an accumulator that holds a message holds the message extended by the masked input, so how a message is split into calls does not matter |
| IntegrityHash.HoldsAppend | guest/cuda_shim/imb_cuda_shim.cpp:622-648 | the fields after one more byte are those of the longer message: chaining state of its whole blocks, its tail, its running checksum |
| IntegrityHash.Finalize | guest/cuda_shim/imb_cuda_shim.cpp:662-670 | padding and checksum fed through the same accumulator, checksum bytes read while they are being consumed, give the MD2 digest of the message held |
| MessageDigest.PadEnds | guest/cuda_shim/imb_cuda_shim.cpp:662-666 | the padding after a message is its own length, repeated that often |
| MessageDigest.PadInjective | guest/cuda_shim/imb_cuda_shim.cpp:662-666 | no two messages have the same padded text |
| DigestVector.LettersDigest | guest/cuda_shim/imb_cuda_shim.cpp:622-670 | with the shim's table the digest of the 26 small letters is the one in the test suite of RFC 1319, appendix A.5: padding, checksum, rounds and every table entry enter into it |
| IntegrityHash.EmptyHolds | guest/cuda_shim/imb_cuda_shim.cpp:733-735 | zero state, checksum, count and last byte are the empty message whatever bytes 16 to 47 hold: those are dead |
| IntegrityHash.SecondPass | guest/cuda_shim/imb_cuda_shim.cpp:733-738 | clearing only bytes 0-15 and 48-65 before the second pass is as good as starting from zeros: the result is the digest of outer key and first digest |
| IntegrityHash.KeyedHash | guest/cuda_shim/imb_cuda_shim.cpp:709-740 | both passes together are the keyed hash of section 2 of RFC 2104 with a 16-byte block |
| MessageDigest.ZeroKey | guest/cuda_shim/imb_cuda_shim.cpp:709-738 | for a key of zeros the hash is that of the outer pad, the byte 5C, and the digest of the inner pad, the byte 36, and the text |
| IntegrityHash.IntegrityCheck | guest/cuda_shim/imb_cuda_shim.cpp:693-751 | versions ending in 0 and 1 give the fixed constants, every other one the keyed hash over the process and device records with the shim's table |
| SessionState.Stage | host/Sources/IMBHostCore/BridgeSession.swift:103-762 | which message each outcome can come from and what its guards have established: nothing but a HELLO before negotiation, an unpinned live resource before a destroy, a known fence before a wait |
| SessionState.NextInv | host/Sources/IMBHostCore/BridgeSession.swift:103-762 | every request, accepted, refused or failed in the backend, keeps the invariant: the session's tables agree with the backend's, counters are ahead of every ID, commands belong to fences, pinned resources are live, uploads fit their images |
| SessionState.CreateInv | host/Sources/IMBHostCore/BridgeSession.swift:183-312 | a create, failed or not, keeps it: the new ID is in no table of either side before |
| SessionState.DestroyInv | host/Sources/IMBHostCore/BridgeSession.swift:612-637 | a destroy of an unpinned resource keeps it: both sides drop the same ID of the same kind |
| SessionState.StoreInv | host/Sources/IMBHostCore/BridgeSession.swift:652-695 | an image chunk keeps it: an upload under way is always shorter than the image |
| SessionState.SubmitInv | host/Sources/IMBHostCore/BridgeSession.swift:1545-1550 | an accepted command keeps it: its fence, pins, command buffer and frame image appear together |
| SessionState.WaitInv | host/Sources/IMBHostCore/BridgeSession.swift:726-744 | a wait keeps it even when it fails after the backend has dropped its command |
| SessionState.ShutDownInv | host/Sources/IMBHostCore/BridgeSession.swift:746-757 | a shutdown keeps it although uploads and counters stay behind |
| SessionState.StoreFits | host/Sources/IMBHostCore/BridgeSession.swift:657-684 | a chunk past the guards lies inside the upload buffer it is written to: the replaced range never leaves it |
| SessionProtocol.CreatedImage | host/Sources/IMBHostCore/BridgeSession.swift:216-311 | every image accepted is well formed, and an ordinary one has exactly the announced size as its tight size, so a full upload and a full read-back agree |
| SessionProtocol.CollectDraws | host/Sources/IMBHostCore/BridgeSession.swift:870-898 | the draw loop accepts exactly when every record is valid, and collects the textures of all of them |
| SessionProtocol.CollectLights | host/Sources/IMBHostCore/BridgeSession.swift:1076-1381 | the light loop accepts exactly when every record is valid, and collects every texture and profile image |
| SessionProtocol.CollectBindings | host/Sources/IMBHostCore/BridgeSession.swift:1444-1525 | the binding loop answers with the error of the first bad record, a repeated slot counting as bad, and otherwise collects every resource |
| SessionProtocol.SlotsDistinct | host/Sources/IMBHostCore/BridgeSession.swift:1446-1468 | an accepted dispatch binds no descriptor slot twice |
| SessionProtocol.BindingsIff | host/Sources/IMBHostCore/BridgeSession.swift:1444-1525 | a dispatch's records are accepted if and only if each, as the wire has it, binds at least one byte and only bytes of a live buffer, or texels with a format, or a whole live image, or a sampler word packed from known fields, and no slot comes twice |
| SessionProtocol.DispatchInside | host/Sources/IMBHostCore/BridgeSession.swift:1480-1486 | every byte an accepted dispatch binds, from its offset for its length, is one of a live buffer |
| SessionProtocol.DispatchAccepted | host/Sources/IMBHostCore/BridgeSession.swift:1421-1540 | a dispatch with a good header is submitted exactly when all its bindings are acceptable |
| SessionProtocol.DrawRelies | host/Sources/IMBHostCore/BridgeSession.swift:846-898 | the records of an accepted draw list lie in the payload; target, buffers and textures are live and of the right kind |
| SessionProtocol.LightRelies | host/Sources/IMBHostCore/BridgeSession.swift:1076-1381 | so do the light records of an accepted trace, and their images are live, RGBA and at most 512 by 512 |
| SessionProtocol.BuildRelies | host/Sources/IMBHostCore/BridgeSession.swift:460-610 | and the records of an accepted build, with live buffers, or live structures other than the one built |
| SessionProtocol.SubmittedNames | host/Sources/IMBHostCore/BridgeSession.swift:806-1550 | what an accepted command pins is exactly what it names on the wire, for all six commands, and all of it is live |
| BridgeSession.Backend.CreateResource | host/Sources/IMBHostCore/MetalGPUBackend.swift:2251-2265 | the backend refuses an ID it holds, or fails, and changes nothing; otherwise its table of that kind gains the ID |
| BridgeSession.Backend.WriteImage | host/Sources/IMBHostCore/MetalGPUBackend.swift:3531-3609 | an image's bytes are taken only for a live image of an uploadable format and exactly its size |
| BridgeSession.Backend.WaitFence | host/Sources/IMBHostCore/MetalGPUBackend.swift:4956-4979 | the command is gone after the wait whether or not it succeeded; the frame image only if it did |
| BridgeSession.Backend.Clear | host/Sources/IMBHostCore/MetalGPUBackend.swift:4981-4993 | a reset empties every table |
| BridgeSession.Session.Handle | host/Sources/IMBHostCore/BridgeSession.swift:103-762 | one request takes the whole state of session and backend, and the reply, exactly where the specification says, and keeps the invariant |
| BridgeSession.Session.StoreChunk | host/Sources/IMBHostCore/BridgeSession.swift:656-694 | the upload is restarted at offset zero, filled, delivered when full and kept otherwise; a failed delivery changes nothing |
| BridgeSession.Session.DecideCommand | host/Sources/IMBHostCore/BridgeSession.swift:792-1540 | the imperative checks and loops of a submission refuse with the right code or pin the right set |
| SessionRuns.StepEffect | host/Sources/IMBHostCore/BridgeSession.swift:103-762 | every request does exactly one of eleven things to the state, each with its reply |
| SessionRuns.RepliesEcho | host/Sources/IMBHostCore/BridgeSession.swift:1553-1588 | every reply carries the request's ID, the response flag, this version and its payload's length |
| SessionReplies.ErrorDecodes | host/Sources/IMBHostCore/BridgeSession.swift:1579-1588 | a client reads from an error reply its code and the length and text of its message |
| SessionReplies.CodesDistinct | host/Sources/IMBHostCore/Protocol.swift:35-50 | the thirteen error codes have different numbers |
| SessionReplies.HelloDecodes | host/Sources/IMBHostCore/BridgeSession.swift:759-790 | the answer to a HELLO reads as version 1.22 and a zero |
| SessionReplies.VersionIff | host/Sources/IMBHostCore/BridgeSession.swift:763-785 | a HELLO is for this version exactly when 1.22 lies between the least and the greatest version offered |
| SessionReplies.CapabilitiesDecode | host/Sources/IMBHostCore/BridgeSession.swift:136-148 | the capabilities, the largest buffer and the name are read back |
| SessionReplies.WaitDecodes | host/Sources/IMBHostCore/BridgeSession.swift:726-744 | a successful wait reads as completed |
| SessionReplies.DestroyRefusals | host/Sources/IMBHostCore/BridgeSession.swift:612-637 | a destroy is answered with code 8 exactly when the resource is live and pinned, with 7 exactly when it is not live |
| SessionRuns.ErrorChangesNothing | host/Sources/IMBHostCore/BridgeSession.swift:1579-1588 | a request answered with an error leaves every session table and counter as it was; only a failed wait leaves a trace, in the backend's commands |
| SessionRuns.BeforeHello | host/Sources/IMBHostCore/BridgeSession.swift:119-124 | before negotiation a request succeeds if and only if it is a valid HELLO for this version, and nothing else changes anything |
| SessionRuns.HelloOnce | host/Sources/IMBHostCore/BridgeSession.swift:759-790 | negotiation is never undone and a second HELLO is an error |
| SessionRuns.DestroyIff | host/Sources/IMBHostCore/BridgeSession.swift:612-637 | a destroy succeeds if and only if the resource is live and no fence pins it, and then it is in no table of either side |
| SessionRuns.TablesAgree | host/Sources/IMBHostCore/BridgeSession.swift:183-312 | on every run the session's table is the disjoint union of the backend's four tables by ID and kind, and backend commands are session fences |
| SessionRuns.StepCounts | host/Sources/IMBHostCore/BridgeSession.swift:308-311 | counters move by at most one, only forward, and each created ID or fence is the counter's value, new to the tables |
| SessionRuns.IDsNeverReused | host/Sources/IMBHostCore/BridgeSession.swift:183-312 | over any run an ID once handed out is never handed out again, after destroys, waits, failures and shutdowns alike |
| SessionRuns.SubmitPins | host/Sources/IMBHostCore/BridgeSession.swift:1545-1551 | the new fence pins a resource if and only if the command names it |
| SessionRuns.PinnedUntilReleased | host/Sources/IMBHostCore/BridgeSession.swift:616-621 | over any run without a successful wait for the fence or a shutdown, everything it pins stays live in session and backend |
| SessionRuns.FailedWait | host/Sources/IMBHostCore/MetalGPUBackend.swift:4956-4965 | a wait that fails on the GPU keeps the fence but has lost its command |
| SessionRuns.WaitIff | host/Sources/IMBHostCore/BridgeSession.swift:726-744 | a well-formed wait of a negotiated session succeeds if and only if the backend still has the fence's command and the GPU completed it |
| SessionRuns.ReleasableIff | host/Sources/IMBHostCore/BridgeSession.swift:726-744 | a live fence can be released by some run without a shutdown if and only if the backend still has its command |
| SessionExamples.FailedWaitReached | host/Sources/IMBHostCore/BridgeSession.swift:726-744 | hello, create, submit and a failed wait reach, from the initial state, a fence no run without a shutdown releases and a live buffer that cannot be destroyed |
| SessionRuns.DeadFenceForever | host/Sources/IMBHostCore/BridgeSession.swift:726-744 | such a fence is never released over any run without a shutdown |
| SessionRuns.FailedWaitPins | host/Sources/IMBHostCore/BridgeSession.swift:616-621 | so what it pins stays live and cannot be destroyed for the whole of any such run |
| SessionRuns.ChunkedUpload | host/Sources/IMBHostCore/BridgeSession.swift:639-695 | over any run the backend receives exactly the images that contiguous accepted chunks since the last write at offset zero put together, in order; every accepted chunk is contiguous and inside; a live upload holds exactly the bytes since then |
| SessionRuns.FreshImage | host/Sources/IMBHostCore/BridgeSession.swift:292-311 | a new image starts with no upload and no delivery |
| SessionRuns.LastChunkIff | host/Sources/IMBHostCore/BridgeSession.swift:685-694 | the completing chunk is accepted if and only if the GPU takes it and the format is not 11: the sizes never disagree |
| SessionExamples.FormatElevenReached | host/Sources/IMBHostCore/BridgeSession.swift:685-694 | hello and an accepted create reach an image of format 11 whose one completing chunk passes every guard and is refused although the GPU fails nothing |
| SessionRuns.RetryLastChunk | host/Sources/IMBHostCore/BridgeSession.swift:685-694 | after a failed final write the same chunk is accepted as soon as the GPU takes it |
| SessionRuns.ShutdownOrphans | host/Sources/IMBHostCore/BridgeSession.swift:746-757 | a shutdown leaves uploads without a resource |
| SessionRuns.OrphanUpload | host/Sources/IMBHostCore/BridgeSession.swift:666-678 | an upload without its resource is never continued, changed or delivered over any run |
| ImageLayout.TightlyPackedImageSize | host/Sources/IMBHostCore/BridgeSession.swift:58-101 | the loop with its overflow checks returns the exact total, and nothing if and only if the image is degenerate, the format unknown or the total beyond 64 bits |
| ImageLayout.CheckedBytesExact | host/Sources/IMBHostCore/BridgeSession.swift:83-92 | no partial product overflows unless the level's bytes do |
| ImageLayout.LevelIs | host/Sources/IMBHostCore/BridgeSession.swift:81-96 | a mip level's extents are the image's divided by a power of two, rounded down, but at least one |
| ImageLayout.TotalMeans | host/Sources/IMBHostCore/BridgeSession.swift:81-101 | the total is, as often as there are layers, the sum over the levels of the least numbers of blocks that cover each extent, times depth and block size |
| ImageLayout.FiveByFive | host/Sources/IMBHostCore/BridgeSession.swift:62-78 | the size of a five by five image with two levels, in every format |
| ImageLayout.AlignedLeast | host/Sources/IMBHostCore/MetalGPUBackend.swift:3575-3606 | alignment goes up to the least multiple that is large enough |
| ImageLayout.MakePlans | host/Sources/IMBHostCore/MetalGPUBackend.swift:3566-3606 | one plan per level and layer, in order, aligned, inside the staging buffer, one after the other; the tight offset ends at the total |
| ImageLayout.SizesAgree | host/Sources/IMBHostCore/MetalGPUBackend.swift:3535-3609 | the session's size is the sum the backend recomputes, for every format the backend uploads, which is all but 11 |
| ImageLayout.Repack | host/Sources/IMBHostCore/MetalGPUBackend.swift:3647-3667 | after the three loops every row of every plan is in its staging place, none disturbed by a later one |
| ImageLayout.RowsApart | host/Sources/IMBHostCore/MetalGPUBackend.swift:3650-3664 | staging rows of one plan do not overlap |
| ImageLayout.RowOfByte | host/Sources/IMBHostCore/MetalGPUBackend.swift:3575-3606 | every tight byte lies in some row of some level of some layer |
| ImageLayout.AddressesApart | host/Sources/IMBHostCore/MetalGPUBackend.swift:3575-3606 | and in no two: each byte is copied exactly once |
| ImageLayout.PlanRow | host/Sources/IMBHostCore/MetalGPUBackend.swift:3673-3689 | reading staging by row pitch and image pitch finds the plan's tight row |
| ImageLayout.DirectRow | host/Sources/IMBHostCore/MetalGPUBackend.swift:3611-3637 | the unstaged path's row and image strides find the same rows |
| ImageLayout.WriteImage | host/Sources/IMBHostCore/MetalGPUBackend.swift:3531-3698 | the upload is refused exactly for an unknown format or a wrong size; otherwise every row the GPU reads, on either path and for any alignment, is the image's own packed row |
| InstanceTables.RangeOf | host/Sources/IMBHostCore/MetalGPUBackend.swift:3164-3207 | an instance's range covers its own data in the flattened array, or is empty when it has none or it no longer fits 32 bits |
| InstanceTables.DataFits | host/Sources/IMBHostCore/MetalGPUBackend.swift:3164-3207 | no table outgrows a 32-bit index |
| InstanceTables.LookupIsNested | host/Sources/IMBHostCore/MetalGPUBackend.swift:1172-1189 | every guarded shader lookup is in bounds and returns that child's own datum, and finds one exactly when the child's data is included and has the triangle |
| InstanceTables.AppendTextureIndex | host/Sources/IMBHostCore/MetalGPUBackend.swift:3208-3225 | slots stay duplicate-free and at most 126, and the index means the texture asked for |
| InstanceTables.AppendInstance | host/Sources/IMBHostCore/MetalGPUBackend.swift:3112-3266 | one loop iteration appends to every table so that all of them stay right for the longer list |
| InstanceTables.Build | host/Sources/IMBHostCore/MetalGPUBackend.swift:3086-3266 | the loop fails exactly when some instance has a transform that is not finite, options, mask, table offset or user ID out of range, or a child that is not a built structure; otherwise all per-instance tables have one entry (two parameter quads) per instance and are the flattened nested data |
| InstanceTables.ShaderFindsOwn | host/Sources/IMBHostCore/MetalGPUBackend.swift:1083-1129 | for any hit, opacity, parameters, normals, tangents and texture coordinates found are that instance's own |
| InstanceTables.DefaultsFound | host/Sources/IMBHostCore/MetalGPUBackend.swift:3112-3266 | an instance without a material, an opacity or parameters of its own finds the opaque, uncut, half-rough defaults |
| InstanceTables.SlotsMeanTextures | host/Sources/IMBHostCore/MetalGPUBackend.swift:3208-3259 | an index is present if and only if the texture asked for is live and has a slot, it holds that texture, and a live one is left out only when all 126 slots are taken |
| InstanceTables.CombineTextures | host/Sources/IMBHostCore/MetalGPUBackend.swift:4357-4401 | material slots keep their places, light textures follow without duplicates; it succeeds if and only if every light texture is live and all together fit 126 slots |
| InstanceTables.CofactorOfCross | host/Sources/IMBHostCore/MetalGPUBackend.swift:5588-5598 | the cofactor matrix takes a cross product of edges to the cross product of the transformed edges, singular transforms included |
| InstanceTables.NormalFollowsTriangle | host/Sources/IMBHostCore/MetalGPUBackend.swift:5583-5606 | a stored normal is a positive multiple of the cross product of the transformed edges, of unit length, and zero exactly when that product is too small |
| InstanceTables.CrossPerpendicular | host/Sources/IMBHostCore/MetalGPUBackend.swift:5583-5606 | so it is perpendicular to both transformed edges |
| InstanceTables.EdgeOfPoints | host/Sources/IMBHostCore/MetalGPUBackend.swift:5608-5628 | the linear part takes an edge to the difference of the transformed points |
| InstanceTables.DirectionFollowsEdge | host/Sources/IMBHostCore/MetalGPUBackend.swift:5608-5628 | a stored direction is a positive multiple of the difference of the transformed points, of unit length, and zero exactly when that is too small |
| InstanceTables.TangentInPlane | host/Sources/IMBHostCore/MetalGPUBackend.swift:5608-5628 | a tangent of a triangle, transformed, is perpendicular to the direction of its stored normal |
| Compositing.Trace | host/Sources/IMBHostCore/MetalGPUBackend.swift:929-2035 | the loop stops at the first opaque layer, at transmittance 0.0001 or at 64 layers, having gathered exactly the weighted colours so far |
| Compositing.WeightsSumToOne | host/Sources/IMBHostCore/MetalGPUBackend.swift:2014-2031 | at every iteration the weights given out and the transmittance left sum to one |
| Compositing.GatheredIsComposite | host/Sources/IMBHostCore/MetalGPUBackend.swift:2014-2031 | front to back equals back to front: what is gathered, and the rest seen through the transmittance, is the recursive source-over composite |
| Compositing.TraceIsComposite | host/Sources/IMBHostCore/MetalGPUBackend.swift:2014-2034 | against any continuation the result is exact after an opaque layer, and otherwise short by exactly the transmittance's share: at most 0.0001 on early exit, what remains at the cap |
| Compositing.NearlyOpaque | host/Sources/IMBHostCore/MetalGPUBackend.swift:2010-2013 | taking opacity from 0.999999 up for full costs at most a millionth of the range, over all layers together |
| Compositing.TraceNearTruth | host/Sources/IMBHostCore/MetalGPUBackend.swift:2010-2034 | the whole error against the true source-over composite |
| Binary64.NarrowMonotone | host/Sources/IMBHostCore/SPIRVCrossCompiler.swift:581-607 | narrowing is monotone over every pair of non-NaN binary64 values, across subnormals, underflow, both roundings, overflow and sign |
| Binary64.NarrowError | host/Sources/IMBHostCore/SPIRVCrossCompiler.swift:598-604 | the result is within one binary32 last place everywhere below overflow, and within three quarters of one in the normal range |
| Binary64.CorrectlyRoundedIff | host/Sources/IMBHostCore/SPIRVCrossCompiler.swift:581-607 | for every bit pattern that is no NaN, normal, subnormal, flushed and overflowing results alike, the result is the one a single correct rounding gives, and if finite within half a last place, if and only if exponent and fraction are not among those the roundings take to the far side of a half-way point, or above the lower end of the binade flushed to zero: a condition on the bits |
| Binary64.DoubleRounding | host/Sources/IMBHostCore/SPIRVCrossCompiler.swift:604 | a bit pattern whose result is more than half a last place from its value: the two roundings are not one |
| Binary64.SubnormalRounding | host/Sources/IMBHostCore/SPIRVCrossCompiler.swift:604 | the same for a subnormal result: a bit pattern just above the middle of two subnormal floats is narrowed to the lower |
| Binary64.FlushedBinade | host/Sources/IMBHostCore/SPIRVCrossCompiler.swift:601-602 | every value strictly between half and all of the smallest float is narrowed to zero where one rounding gives the smallest float |
| Binary64.FlushedWrongly | host/Sources/IMBHostCore/SPIRVCrossCompiler.swift:601-602 | a bit pattern of which that is so |
| Binary64.WidenExact | host/Sources/IMBHostCore/SPIRVCrossCompiler.swift:609-631 | widening keeps the exact value and the sign of every finite float, subnormals and signed zeros included |
| Binary64.Specials | host/Sources/IMBHostCore/SPIRVCrossCompiler.swift:592-619 | infinities stay infinities of the same sign and NaNs stay NaNs, both ways |
| Binary64.NarrowWiden | host/Sources/IMBHostCore/SPIRVCrossCompiler.swift:581-631 | narrowing after widening is the identity on every float but NaNs |
| SerialGrid.LogicalExtent | host/Sources/IMBHostCore/MetalGPUBackend.swift:3804-3815 | an axis's extent is groups times local size, refused exactly when that does not fit 32 bits or the local size is not a positive 32-bit one |
| SerialGrid.TurnsAlone | host/Sources/IMBHostCore/SPIRVCrossCompiler.swift:476-485 | operations of one body in the rewritten kernel, a compare-exchange made of a load and a separate conditional store, are the same number of consecutive turns with the atomic operation, and disturb no other invocation |
| SerialGroup.ClaimedOnce | host/Sources/IMBHostCore/SPIRVCrossCompiler.swift:345-352 | with the atomic operation, from a zero at address 0, over every interleaving of any invocations, at most one wins the claim |
| SerialGroup.BothWin | host/Sources/IMBHostCore/SPIRVCrossCompiler.swift:476-485 | with the helper's plain load and store run by two threads at once, both can |
| SerialGrid.GridOnce | host/Sources/IMBHostCore/SPIRVCrossCompiler.swift:457-466 | the three loops visit every global ID of the grid exactly once and no other |
| SerialGrid.VisitedAt | host/Sources/IMBHostCore/SPIRVCrossCompiler.swift:460-462 | each global ID is visited at x + width * (y + height * z) |
| SerialGrid.RunSerialized | host/Sources/IMBHostCore/SPIRVCrossCompiler.swift:457-470 | the rewritten kernel's loops compute the visit of the grid in that order |
| SerialGroup.GroupIsTheLoop | host/Sources/IMBHostCore/MetalGPUBackend.swift:4143-4153 | in the one threadgroup dispatched, whatever order its threads step in, all but thread zero leave at the guard, all return once thread zero has had enough turns, and then memory is what the serial loop makes of it |
| SerialGrid.SerialIsAnInterleaving | host/Sources/IMBHostCore/SPIRVCrossCompiler.swift:350-356 | if no body before the last leaves early, the serial memory is that of some complete interleaving of the original concurrent invocations |
| SerialGrid.CutAtFirst | host/Sources/IMBHostCore/SPIRVCrossCompiler.swift:457-470 | the loops stop with the first body that returns early on the memory the earlier ones leave: the IDs run, and the memory, are those up to it |
| SerialGrid.RunsAllIff | host/Sources/IMBHostCore/SPIRVCrossCompiler.swift:457-470 | every ID is run if and only if no body but the last returns early on the memory the earlier bodies, each run to its end, leave |
| SerialGrid.GridRunsAllIff | host/Sources/IMBHostCore/SPIRVCrossCompiler.swift:457-470 | where the ID alone decides whether a body returns early, the loops run every ID of a grid if and only if no ID but the grid's last returns early, tried on any memory |
| SerialGrid.GuardedIsAnInterleaving | host/Sources/IMBHostCore/SPIRVCrossCompiler.swift:350-356 | and under that condition the serial memory is that of a complete interleaving of the original invocations |
| SerialGrid.EveryIdAlwaysIff | host/Sources/IMBHostCore/SPIRVCrossCompiler.swift:457-470 | over arbitrary lists of IDs, repetitions allowed, every ID of every list is run from every memory if and only if no body run alone ever ends in a return |
| SerialGrid.GridsAreNotLists | host/Sources/IMBHostCore/SPIRVCrossCompiler.swift:457-470 | over grids that is too strict: a kernel with a body that returns early from some memory, every ID of which is nevertheless run on every grid from every memory |
| SerialGrid.NoReturnIsEnough | host/Sources/IMBHostCore/SPIRVCrossCompiler.swift:350-356 | a kernel without return statements is serialized right on every grid and memory: every ID runs and the result is that of a complete interleaving |
| SerialGrid.FirstReturnCutsAll | host/Sources/IMBHostCore/SPIRVCrossCompiler.swift:457-470 | if the first body returns early from some memory, on every grid of two or more IDs it is the only one to run |
| SerialGrid.EarlyReturnBreaksIt | host/Sources/IMBHostCore/SPIRVCrossCompiler.swift:457-470 | a kernel whose rewritten memory no complete run of the original produces |
| SerialExample.EarlyReturnAccepted | host/Sources/IMBHostCore/SPIRVCrossCompiler.swift:357-367 | that kernel's source text, which calls the helper and has a return in its body, passes every guard: there is a rewritten text |
| SerialText.MatchBrace | host/Sources/IMBHostCore/SPIRVCrossCompiler.swift:399-418 | the depth scan finds the brace whose enclosed text is balanced, and none exactly when there is none |
| SerialText.BodyUnique | host/Sources/IMBHostCore/SPIRVCrossCompiler.swift:399-413 | at most one closing brace encloses a balanced body, so the match is the kernel's own |
| SerialText.LocateSite | host/Sources/IMBHostCore/SPIRVCrossCompiler.swift:377-397 | the first kernel token, its single ID parameter and its first brace are found, and refused exactly when there is no such site |
| SerialText.FoundAgain | host/Sources/IMBHostCore/SPIRVCrossCompiler.swift:420-436 | after the parameter is replaced the second search finds the same kernel and body at the shifted places |
| SerialText.CutUnique | host/Sources/IMBHostCore/SPIRVCrossCompiler.swift:374-418 | a source is cut in one way only, so there is one rewritten text |
| SerialText.AddSerializedAtomic64Support | host/Sources/IMBHostCore/SPIRVCrossCompiler.swift:357-495 | a source without the helper call is unchanged; otherwise the result is the text with exactly the kernel body wrapped and the helper added, and a refusal means there is no such text |
| CallSites.StepInv | guest/timer_shim/imb_clock_shim.cpp:50-98 | every atomic step of every thread keeps the table's invariant and undoes nothing |
| CallSites.ExecInv | guest/timer_shim/imb_clock_shim.cpp:50-98 | so does every interleaving |
| CallSites.NothingIsUndone | guest/timer_shim/imb_clock_shim.cpp:57-89 | between any two points of any interleaving a claimed slot keeps its address and a decision, written once, stays |
| CallSites.OneSlotPerAddress | guest/timer_shim/imb_clock_shim.cpp:50-68 | a nonzero address occupies at most one slot |
| CallSites.LookupsAgree | guest/timer_shim/imb_clock_shim.cpp:50-68 | all lookups of one address by any threads return the same slot, or all fail |
| CallSites.NullMeansFull | guest/timer_shim/imb_clock_shim.cpp:67 | a failed lookup means every slot holds another address |
| CallSites.DelayedCalls | guest/timer_shim/imb_clock_shim.cpp:93-97 | exactly how many counted calls of a site are delayed: at most 512 if and only if at most 2^32 were counted |
| CallSites.DecidedBy | guest/timer_shim/imb_clock_shim.cpp:77-92 | every decision comes from one turn of a call for the slot's own address: a site is decided for delaying if and only if that call's library matched, and against it if and only if not |
| CallSites.SettledForGood | guest/timer_shim/imb_clock_shim.cpp:77-92 | and such a turn decides the site for the rest of the run |
| CallSites.DelayedMatched | guest/timer_shim/imb_clock_shim.cpp:93-97 | calls are counted or delayed only at a site resolved to a matching library |
| CallSites.NoneMatches | guest/timer_shim/imb_clock_shim.cpp:77-97 | where no library matches nothing is counted or delayed |
| CallSites.BoundExceeded | guest/timer_shim/imb_clock_shim.cpp:93-97 | from the start, for any address, some run counts more than 2^32 calls and delays more than 512 of them |
| InputQueue.PushThins | guest/kit_input_extension/isaacmetalbridge.input/isaacmetalbridge/input/extension.py:256-261 | reading a record drops at most a move directly followed by a move |
| InputQueue.OthersKept | guest/kit_input_extension/isaacmetalbridge.input/isaacmetalbridge/input/extension.py:256-261 | every record that is not a move survives, in order, and so does the last record |
| InputQueue.BurstHasOneTransition | guest/kit_input_extension/isaacmetalbridge.input/isaacmetalbridge/input/extension.py:269-274 | an update dispatches at most one button or key transition, last, and stops early only for one |
| InputQueue.Drains | guest/kit_input_extension/isaacmetalbridge.input/isaacmetalbridge/input/extension.py:269-274 | the queue is empty after one update per pending transition and one more |
| InputQueue.PassingIncreases | guest/kit_input_extension/isaacmetalbridge.input/isaacmetalbridge/input/extension.py:280-284 | what passes the filter always has increasing numbers, up to the latest: no record passes twice and none after a newer one |
| InputQueue.AllPass | guest/kit_input_extension/isaacmetalbridge.input/isaacmetalbridge/input/extension.py:280-284 | well-formed records with increasing numbers all pass the filter |
| InputQueue.ThinnedIncreasing | guest/kit_input_extension/isaacmetalbridge.input/isaacmetalbridge/input/extension.py:256-284 | coalescing keeps the numbers increasing |
| InputQueue.MoveAbsorbed | guest/kit_input_extension/isaacmetalbridge.input/isaacmetalbridge/input/extension.py:196-206 | a move directly before another changes neither a drag's total nor its position |
| InputQueue.DragTotalsKept | guest/kit_input_extension/isaacmetalbridge.input/isaacmetalbridge/input/extension.py:184-214 | for any thinning of any stream every drag's total movement, and the final navigation state, are those of the unthinned stream |
| InputQueue.TotalsAreDrags | guest/kit_input_extension/isaacmetalbridge.input/isaacmetalbridge/input/extension.py:184-214 | the movements applied, added up drag by drag, are the drags' totals |
| InputQueue.DragUnderWay | guest/kit_input_extension/isaacmetalbridge.input/isaacmetalbridge/input/extension.py:184-206 | whatever came before an Alt press, and since it but its release or another, the drag is in the mode of its button, its total is from the press to the pointer's last position along each axis, and earlier drags keep theirs |
| InputQueue.DragReleased | guest/kit_input_extension/isaacmetalbridge.input/isaacmetalbridge/input/extension.py:207-213 | its button's release ends it and changes no total |
| InputQueue.DragModes | guest/kit_input_extension/isaacmetalbridge.input/isaacmetalbridge/input/extension.py:187-195 | there is one drag for each press that starts one, in its mode |
| InputQueue.MovementModes | guest/kit_input_extension/isaacmetalbridge.input/isaacmetalbridge/input/extension.py:196-206 | every movement applied is in the mode of the drag it belongs to |
| InputQueue.AltIs | guest/kit_input_extension/isaacmetalbridge.input/isaacmetalbridge/input/extension.py:187 | Alt is the third modifier bit |
| InputQueue.HandedOnIs | guest/kit_input_extension/isaacmetalbridge.input/isaacmetalbridge/input/extension.py:187-320 | the right button and the scroll wheel always reach Kit, the left and middle ones unless they are a drag's, a move unless a drag is under way, keys and characters where Kit has them, and nothing else |
| InputQueue.ForwardedKept | guest/kit_input_extension/isaacmetalbridge.input/isaacmetalbridge/input/extension.py:256-292 | coalescing takes nothing but moves from what is handed on to Kit |
| InputQueue.WholeFile | guest/kit_input_extension/isaacmetalbridge.input/isaacmetalbridge/input/extension.py:184-326 | for a file with increasing numbers and an empty queue, nothing was filtered, the movements the extension has applied add up, drag by drag, to those of the whole file, and it has handed on to Kit every record of the file that is to be, but for moves coalesced |
| InputQueue.Extension.OnUpdate | guest/kit_input_extension/isaacmetalbridge.input/isaacmetalbridge/input/extension.py:242-274 | an update reads at most 512 records, coalesces them into the queue, dispatches the front up to the first transition, and starts over when the file has shrunk; dispatched and pending stay the input less dropped moves, and what has been applied and handed on stays exactly what the dispatched records that pass the filter ask for |
| InputQueue.Extension.HandleNavigation | guest/kit_input_extension/isaacmetalbridge.input/isaacmetalbridge/input/extension.py:184-214 | the drag state and the movement applied are those of the gesture, and only gesture records are consumed |
| InputQueue.Extension.Dispatch | guest/kit_input_extension/isaacmetalbridge.input/isaacmetalbridge/input/extension.py:276-326 | the filter, the navigation, the list of movements applied and the list of records handed on follow exactly the records let through so far |
| HandleGraph.NextInv | guest/cuda_shim/imb_cuda_shim.cpp:1779-2117 | every call, with any allocator answer, keeps the graph right |
| HandleGraph.EveryRun | guest/cuda_shim/imb_cuda_shim.cpp:1779-2117 | on every run the tables are right: each kernel has a live library and its own live function, levels and arrays point at each other, and mipmaps' memories are live, addresses being reused or not |
| HandleGraph.UnloadExact | guest/cuda_shim/imb_cuda_shim.cpp:1865-1889 | unloading a library removes exactly its kernels and their functions |
| HandleGraph.MemoryHeld | guest/cuda_shim/imb_cuda_shim.cpp:2103-2117 | over any run that does not destroy the mipmap its external memory stays |
| HandleGraph.NameKept | guest/cuda_shim/imb_cuda_shim.cpp:1779-1804 | a kernel keeps its library, function and the name asked for until its library is unloaded |
| HandleGraph.OffsetRefusedIff | guest/cuda_shim/imb_cuda_shim.cpp:2024-2029 | an offset into a memory is refused exactly from the size it was imported with, however many calls later |
| HandleGraph.ModulesRightIff | guest/cuda_shim/imb_cuda_shim.cpp:1904-1914 | a call keeps every library's module live and its own if and only if it is not the direct unloading of a library's module |
| HandleGraph.RunModules | guest/cuda_shim/imb_cuda_shim.cpp:1865-1914 | so every run without such a call does |
| HandleGraph.ModuleLost | guest/cuda_shim/imb_cuda_shim.cpp:1904-1914 | a two-call run that leaves a library without its module |
| HandleDeletes.DeletesOwnIff | guest/cuda_shim/imb_cuda_shim.cpp:1865-1914 | a call deletes only live objects of its own, each once, if and only if it is not the unloading of a library whose module is gone or by now another's |
| HandleDeletes.AccountedIff | guest/cuda_shim/imb_cuda_shim.cpp:1779-2269 | objects live before and made are those live after and deleted, for every call but the unloading of a library whose module is gone |
| HandleDeletes.RunAccounted | guest/cuda_shim/imb_cuda_shim.cpp:1779-2269 | a run's calls all delete only their own if and only if none of them is such an unloading, and then live objects are those made less those deleted |
| HandleDeletes.LostIff | guest/cuda_shim/imb_cuda_shim.cpp:1865-1914 | over a run with no such unloading yet, a live library lacks its module if and only if the caller unloaded that directly after it loaded the library |
| HandleDeletes.NoStrayIff | guest/cuda_shim/imb_cuda_shim.cpp:1865-1914 | so a run has none if and only if no call unloads a live library whose module the caller has unloaded since: a check of the calls alone |
| HandleDeletes.DeletedOnce | guest/cuda_shim/imb_cuda_shim.cpp:1865-1914 | every run from the start that unloads no library's module directly deletes each object once for each time it was made, or leaves it live |
| HandleDeletes.DeletedTwice | guest/cuda_shim/imb_cuda_shim.cpp:1883-1887 | a three-call run that makes a module once and deletes it twice |
| HandleDeletes.OthersModuleTaken | guest/cuda_shim/imb_cuda_shim.cpp:1883-1887 | a four-call run whose last call takes a module that another call loaded and nobody unloaded |
| HandleGraph.LevelsAreItsArrays | guest/cuda_shim/imb_cuda_shim.cpp:2087-2101 | the level arrays a destroy erases are exactly the arrays pointing at the mipmap |
| HandleGraph.LevelsGone | guest/cuda_shim/imb_cuda_shim.cpp:2041-2049 | taking back the levels made before an allocation failed leaves the arrays as they were |
| HandleGraph.Shim.CuLibraryUnload | guest/cuda_shim/imb_cuda_shim.cpp:1865-1889 | the walk over all kernels, erasing as it goes, does to the tables what the call should, and deletes each kernel and function of the library, the library, and the module it was loaded with, live or not |
| HandleGraph.Shim.CuExternalMemoryGetMappedMipmappedArray | guest/cuda_shim/imb_cuda_shim.cpp:2012-2068 | either all levels appear with the mipmap, or after the roll-back nothing has changed |
| HandleGraph.Shim.CuMipmappedArrayDestroy | guest/cuda_shim/imb_cuda_shim.cpp:2087-2101 | the loop over the levels erases exactly the mipmap's arrays and keeps the graph right |
| HandleGraph.Shim.CuDestroyExternalMemory | guest/cuda_shim/imb_cuda_shim.cpp:2103-2117 | the search refuses exactly while some mipmap uses the memory |
| HandleGraph.Shim.CuArrayDestroy | guest/cuda_shim/imb_cuda_shim.cpp:2254-2269 | a level array takes its slot in its mipmap with it |
| Ppm.WriteFrame | host/Sources/IMBHostCore/MetalGPUBackend.swift:5651-5664 | the loop appends red, green and blue of every four bytes, swizzled for format 2, to the header |
| Ppm.ReadToken | host/Sources/imb-viewer/main.swift:309-332 | the scanning loops return the next token and cursor of the grammar of separators and comments |
| Ppm.DecodeFrame | host/Sources/imb-viewer/main.swift:334-377 | the parser's cursor loops and in-place expansion return what the grammar says, or nothing |
| Ppm.HeaderParses | host/Sources/imb-viewer/main.swift:334-349 | the writer's header parses to its numbers whatever bytes follow, whitespace and comment characters included |
| Ppm.DigitsOfDecimal | host/Sources/imb-viewer/main.swift:335-336 | reading a printed number gives the number back |
| Ppm.RoundTripIff | host/Sources/IMBHostCore/MetalGPUBackend.swift:5651-5664 | parsing what the writer prints returns the image if and only if it is one slice deep; a deeper one is not shown at all |
| Ppm.PixelRoundTrip | host/Sources/imb-viewer/main.swift:361-377 | pixel by pixel the same red, green and blue with alpha 255 |
| Ppm.DeepImageLost | host/Sources/IMBHostCore/MetalGPUBackend.swift:3707-3738 | a concrete two-slice image the viewer cannot show |
| SessionExamples.DeepFrameReached | host/Sources/IMBHostCore/BridgeSession.swift:925-945 | hello, the create of a two-slice image and a ray dispatch of the empty stage grid make that image a frame image, and whatever its pixels the written frame is not shown |

## Left out

- Metal, shader compilation, intersection and GPU memory contents: the backend is its tables, and its calls succeed or fail as the outside world says.
- Which floats and texts are acceptable (camera and light validation, instance transforms, UTF-8 entry points, sampler levels of detail): the outside world's verdict, record by record for samplers; the refusals it stands for all have the same error code.
- The error message texts, the pipeline flags, capability bits and read-back bytes: parameters of the reply.
- What an acceleration structure refers to: a ray dispatch pins the structures and images it names, not the child structures or material textures the structure was built from; a texture destroyed since the build is read as white and is not modelled.
- Buffer contents, sparse mappings, builds and sparse queries: guards and replies are modelled, their effect on GPU memory is not.
- The pipeline and sampler caches, frame output to disk and the frame-image viewer mode: no effect on the tables.
- Overflow of the 64-bit resource and fence counters, and of the backend's signed 64-bit staging offsets: not reached.
- Lighting, IES and dome sampling, grid drawing, colour curves: floating-point heuristics without a specification.
- The size, flags and type checks of an instance build before its loop: refusals without effect.
- Compositing and normals are over exact reals; the inverse square root is any function that is one.
- Binary64 assumes round-to-nearest-even conversion and exact scaling where representable; device denormal flushing and the arithmetic operators built on the conversions are not modelled.
- Memory ordering: every atomic operation of the call-site table is one step of one thread in one order; relaxed and acquire-release effects beyond that are not modelled.
- The premises of the serialized kernel (a body terminates alone; nothing but the shared words is shared) are stated where they are used; no return statement is recognized in the source text, which the translator does not do either.
- Text rewriting takes braces at face value: comments and strings in the shader source are not parsed, and neither is the regular-expression search for binding maps.
- The meaning of the inserted Metal text: `SerialGrid` models the guard, the loops and the helper it spells out, `SerialText` where it goes; no semantics of the language connects the two.
- The input file is a sequence of whole records; a partial record at its end is never read by the source either. Kit's device calls are a list of forwarded records.
- The four CUDA calls that only insert one object (loading a module, looking up a function, importing memory, creating a plain array) are part of the specified runs but have no method of their own.
- What the machine does after a stray delete: the runs go on in the tables, which is what the code's own tables say, but the program's behaviour from there is undefined. Their runs up to that call are the ones `HandleDeletes.RunAccounted` speaks about.
- CUDA virtual memory, mapped buffers, semaphores, streams, events, fixed-value queries and locks around deletes; failures inside the tables' own insertions.
- Sockets, processes, container launch, the viewer's windows and USD downloading.
