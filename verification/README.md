# HTJ2K-over-RTP receiver front end: a verified model

The receiver takes RTP datagrams off a socket, puts them back in order in a ring of
slabs, hands them to a worker thread, chains the payloads of a frame without copying,
and parses the JPEG 2000 packets of the chain while the frame is still arriving. This
project models that path in Dafny, from the datagram to the precinct callback, and
proves what it promises:

- whatever the two threads do, the hook sees each released datagram once, in order,
  with the bytes that arrived, and no slab is overwritten while anybody uses it;
- every number the receiver's head passes is delivered, dropped on a full queue or counted lost,
  and each of these exactly when it should be;
- reading through the chunk chain is reading one flat byte sequence;
- packet headers and bodies that follow the coding rules decode to what was written, and no
  others decode at all;
- the precinct walk lists precincts grid point by grid point in the order the progression
  names, each exactly once, numbered as the closed formula gives;
- parsing a frame as it arrives, under any cut into packets, is parsing it whole;
- damage is contained: after a recovery the walk is where the undamaged frame has it, and what
  arrived is reported as it was sent;
- the frame handler keeps its delivery contract on every packet sequence, gives back
  every slab once, and never works with a structure that is not the latched one;
- receiver and handler together, under every interleaving: the chain the parser reads is,
  byte for byte and in order, what arrived, and lies in slabs that nobody overwrites.

Seven promises of the source or its comments turned out not to hold. The code is modelled as it
is; each promise has the exact condition under which it holds and inputs on which it fails:

- *A frame ends in either a ready report or an abort* (frame_handler.hpp:48-52).
  `FrameEnds.EitherOr` says exactly when a frame's last packet causes both or neither;
  `FrameWitness.BothHappen`, `NeitherHappens` and `NeitherByWrap` are such streams. The model
  follows the code, not the comment.
- *`intact` means that no precinct failed* (frame_handler.hpp:228-231). The flag is settled before
  the flush, and a call that recovers from a failed precinct succeeds. Over every stream, with the
  tile's own answers, `TiledFrames.IntactYetPrecinctFailed` says exactly when a frame is reported
  intact although a precinct failed; `TileFailures.ParseMisses` and `FlushFailsIff` are the tile's
  half. `FrameWitness.IntactThoughFlushFails` and `RecoveredYetIntact` are such streams.
  `FrameEnds.IntactYetFailed` and `IntactIff` say the same of parse calls only.
- *The parse loop stays in the progression* (tile_handler.hpp:225-229 looks at no bound).
  `TileRuns.LeavesRangeIff` gives the condition on well-formed frames, `DamagedFrames.DamageContained`
  one on damaged frames, `TileRuns.SignalBeyondBytes` a case that always leaves;
  `TileWitness.SomeParseLeavesRange` and `DamageWitness.UndetectedLeavesRange` are inputs.
- *The walk lists every precinct of a tile* (j2k_packet.cpp:648-685). `GridOffsets.EachResolutionListed`
  says how many it lists for a tile anywhere, `FullIff` when that is all of them, `OffStepMisses` is
  a tile of which it misses one.
- *A datagram whose turn it is is handed on* (rtp_receiver.cpp:223-234). `ReceiverStall.PromptIffDepthOne`
  over all runs, `ReceiverProgress.NothingWaits` for a given one, `ReceiverStall.SomeRunStalls`.
- *The loss accounts balance.* `DepthLimit.AccountsIffDepthFits`, `DepthLimit.SomeRunMiscounts`: only
  up to a jitter depth equal to the ring size; the setter accepts more.
- *Appending a chunk leaves the cursor on its byte.* `ChainReader.Codestream.AppendChunk`,
  `ChainReader.OvershootThenAppend`.

## How it is put together

| file | what it is about |
|---|---|
| Bytes | bytes, bits, concatenation of chunks |
| ChainReader | the flat reader, and the chunked `Codestream` that refines it |
| BitStuffing | the bit view of a reader, and the writer of section B.10.1 of ISO/IEC 15444-1 |
| PacketHeader | packet decoding as functions of bits; locality of a packet read |
| PacketCoding, PacketExact | the encoding of sections B.10.6 and B.10.7 of ISO/IEC 15444-1, the round trip, and that nothing else is accepted |
| PacketReader | the decoding loops over a `Codestream` |
| TileHandler, TileRuns | incremental parse, recovery and flush as functions, and their runs |
| TileFailures | the precincts that fail inside a call |
| DamagedFrames, DamagedCalls, DamageWitness | frames with damaged packets, what a call does on them, and damage that is not noticed |
| TileWitness | a three-precinct tile and inputs that fail on it |
| EncodedFrame, WalkedFrame | frames made of written packets; frames over a walked progression |
| TileParser | the tile handler class |
| Precincts | precinct rectangles and their tiling |
| Progression, ProgressionOrder | the walk as a sequence of grid points, and its order |
| GridCoverage, GridOffsets | closed form and coverage at the origin; coverage for tiles anywhere |
| ProgressionWalk | the counters and loops of the walk |
| GeometrySignature, SignatureHash | the main-header scan, and its hash |
| JitterRing, JitterRuns | the two threads as a step system, and what all interleavings keep |
| ReceiverFates | what becomes of each datagram |
| ReceiverProgress, ReceiverStall, FirstDatagram, DepthLimit | progress of the receive thread and its limits |
| ReceiverThreads | the receiver class, each function against the thread's steps |
| FrameHandler, FrameRuns, FrameSteps | the frame state machine as functions, what all runs keep, what one packet leaves |
| FrameChoices, FrameVerdicts | what the handler decides, and how frames are judged and counted |
| FrameEnds, FrameWitness | how frames end, and streams that break promises |
| TiledFrames | handler and tile together, over arbitrary packets |
| FramePuller | the frame handler class |
| CleanFrame | handler and tile together on an undamaged frame |
| Pipeline | receiver and handler together, under every interleaving |

Objects that the source updates in place are classes (`Codestream`, `Handler` of the tile,
`Walker`, `Receiver`, `Handler` of the frame); their methods are proved against functions on
values, and the laws are lemmas about those functions. The receiver's two threads are a step
system whose steps are single accesses to shared memory. `u`, `nextU`, `owner`, `log`,
`stored` and `seen` in it, and the `trace` and `released` of the frame handler, exist for
reasoning only.

Standards named in the files: RFC 3550 (RTP), RFC 9828 (RTP payload for JPEG 2000
sub-codestreams), ISO/IEC 15444-1 and 15444-2.

## Model

| member | source | states |
|---|---|---|
| `ChainReader.Codestream.AtCursor` | packet_parser/type.hpp:125-130 | the chunk cursor names the byte of the flat data at its position, and is inside the chain exactly when that position is inside the data |
| `ChainReader.Codestream.AppendChunk` | packet_parser/type.hpp:86 | the data grows by the chunk and the position stays; the cursor invariant survives if and only if the chunk is non-empty and the cursor was inside the chain or overshot it by less than the chunk |
| `ChainReader.OvershootThenAppend` | packet_parser/type.hpp:86 | a use after which the cursor is on a chunk but outside it: a header byte 0xFF ends the chain, is flushed, and a one-byte chunk follows |
| `ChainReader.Codestream.Clear` | packet_parser/type.hpp:93-105 | the chain is empty and the reader at its start |
| `ChainReader.Codestream.Advance` | packet_parser/type.hpp:52-59 | the flat position moves by exactly `n`, across any number of chunk borders and past the end |
| `ChainReader.Codestream.GetByte` | packet_parser/type.hpp:125-142 | a flat byte read: the byte and one step, or 0 and no step past the end |
| `ChainReader.Codestream.GetWord` | packet_parser/type.hpp:144-149 | two flat byte reads, big-endian |
| `ChainReader.Codestream.GetBit` | packet_parser/type.hpp:158-166 | a flat bit read with the stuffed bit after 0xFF left out |
| `ChainReader.Codestream.GetBits` | packet_parser/type.hpp:168-181 | the inlined loop is `n` bit reads, most significant first |
| `ChainReader.Codestream.Flush` | packet_parser/type.hpp:183-187 | the flat flush: a byte is skipped exactly after 0xFF |
| `ChainReader.Codestream.Reset` | packet_parser/type.hpp:206-223 | for every `p`, inside the chain or not, the position becomes `p` and the bit state is cleared |
| `ChainReader.Codestream.TakeContiguous` | packet_parser/type.hpp:225-253 | a flat take: nothing past the end, otherwise the next bytes, zero-filled when the chain runs out, whichever of the fast and the copying path is taken |
| `ChainReader.Codestream.CopyOut` | packet_parser/type.hpp:242-252 | the copying loop gathers exactly the bytes a flat take gives, across chunks |
| `ChainReader.PerformOnBoth` | packet_parser/type.hpp:125-253 | on two chunkings of the same bytes every sequence of reads, bit reads, flushes, resets and takes gives equal answers and equal positions |
| `ChainReader.WordRead` | packet_parser/type.hpp:144-149 | a sixteen-bit number written in network order is read back |
| `ChainReader.TakeShows` | packet_parser/type.hpp:225-253 | byte by byte, a take gives the data as far as it goes and zeros behind, and nothing from past its end |
| `BitStuffing.NextBit` | packet_parser/type.hpp:158-166 | reading bit after bit walks the unstuffed bit sequence of the data |
| `BitStuffing.NextBits` | packet_parser/type.hpp:168-181 | a multi-bit read is the number those bits of that sequence spell |
| `BitStuffing.AfterAgrees` | packet_parser/type.hpp:158-166 | bits read where two byte sequences agree are the same, and end at the same place, on both |
| `BitStuffing.FlushEndsStuffed` | packet_parser/type.hpp:183-187 | after the last written bit the flush stops right behind the written bytes, also when the last one is 0xFF |
| `BitStuffing.StuffingRoundTrip` | packet_parser/type.hpp:158-187 | every non-empty bit string written under the stuffing rule anywhere in the data is read back, bit by bit and in groups, and the flush lands behind it |
| `PacketHeader.ReadPacketAgrees` | packet_parser/j2k_packet.cpp:570-608 | a packet read depends only on the packet's own bytes: on any data that has them at the same place outcome, blocks and end are equal |
| `PacketHeader.ReadPacketLocal` | packet_parser/j2k_packet.cpp:570-608 | a packet read depends only on the bytes up to its end: on any prefix that contains them, with a byte behind, outcome, blocks and end are equal |
| `PacketHeader.ReadPacketAdvances` | packet_parser/j2k_packet.cpp:570-608 | a packet read from inside the data moves on, and a successful one ends byte-aligned |
| `PacketHeader.BodiesAdvance` | packet_parser/j2k_packet.cpp:541-566 | taking the bodies moves the cursor by exactly the sum of the block lengths, or to the end of the data |
| `PacketCoding.HeaderRoundTrip` | packet_parser/j2k_packet.cpp:332-538 | an encoded header decodes to the codes it was made from and the flush stops behind it |
| `PacketCoding.PacketRoundTrip` | packet_parser/j2k_packet.cpp:332-568 | an encoded packet, anywhere in any data, decodes successfully; inclusion, zero bit-planes, pass counts, both segment lengths, every body and the suffix length each body ends in come back, and the reader is byte-aligned behind the packet |
| `PacketCoding.SuffixRead` | packet_parser/j2k_packet.cpp:552-555 | whatever twelve-bit suffix length the last two bytes of the cleanup segment hold is the one read; a block without a body keeps its own |
| `PacketExact.AcceptedIffCoded` | packet_parser/j2k_packet.cpp:332-608 | a packet for fresh blocks is accepted if and only if it is empty or the bits of its header are the coding of some valid codes, and then the blocks are those the codes say |
| `PacketCoding.EmptyPacketRoundTrip` | packet_parser/j2k_packet.cpp:591-605 | a packet of one zero bit changes nothing but the cursor |
| `PacketCoding.TooManyPassesFail` | packet_parser/j2k_packet.cpp:363-366 | a packet whose first block codes the pass limit or more fails, wherever it stands, with the cursor among its own bytes |
| `PacketExact.SegmentsAdd` | packet_parser/j2k_packet.cpp:381-513 | passes and refinement bytes of a block add up over its packets |
| `PacketExact.RefinementOnly` | packet_parser/j2k_packet.cpp:381-400 | a block with earlier passes that gets refinement passes only is accepted if and only if its length field is all zeros |
| `PacketReader.TagTreeDecode` | packet_parser/j2k_packet.cpp:68-80 | the loop consumes what the leaf decoding of the bit sequence consumes, with the same value |
| `PacketReader.DecodePassCount` | packet_parser/j2k_packet.cpp:349-361 | the nested reads are the pass-count code on the bit sequence |
| `PacketReader.GetLblockInc` | packet_parser/j2k_packet.cpp:323-330 | counts the ones before the first zero, ending because past the data there are only zeros |
| `PacketReader.WidenFor` | packet_parser/j2k_packet.cpp:384-393 | the doubling loop widens the length field by the binary logarithm of the pass count |
| `PacketReader.ExtendLength` | packet_parser/j2k_packet.cpp:444-452 | the loop that reads the remaining length bits one by one appends exactly the bits the logarithm calls for |
| `PacketReader.DecodeRefinement` | packet_parser/j2k_packet.cpp:503-513 | the refinement pass loop reads the one remaining segment length, of one or two passes |
| `PacketReader.DecodeSegments` | packet_parser/j2k_packet.cpp:381-466 | the HT segment loop computes the functional segment decoding: both lengths and the bits used |
| `PacketReader.DecodeBlockOf` | packet_parser/j2k_packet.cpp:337-536 | one block of the header loop is the functional block decoding |
| `PacketReader.DecodeHeader` | packet_parser/j2k_packet.cpp:332-538 | the band and block loops decode all blocks in order or stop at the first bad one |
| `PacketReader.TakeBodies` | packet_parser/j2k_packet.cpp:541-566 | the band and block loops give each block its next bytes |
| `PacketReader.ReadPacketOf` | packet_parser/j2k_packet.cpp:570-608 | on any chunking the routine is the functional packet read of the flat data |
| `TileHandler.PidBijection` | packet_parser/tile_handler.hpp:197-207 | for one to three components PIDs and progression indices are each recovered from the other |
| `TileHandler.RecoverProgress` | packet_parser/tile_handler.hpp:319-361 | a recovery goes forward in bytes, not backward in the progression, and uses up a signal |
| `TileHandler.RestartIsFresh` | packet_parser/tile_handler.hpp:381-421 | a restarted tile meets the starting conditions of a frame: first precinct, no signals, every block fresh; the rest of every block, the cursor and the callbacks stay |
| `TileRuns.CallbacksInOrder` | packet_parser/tile_handler.hpp:212-296 | whatever bytes, signals and failures, the callbacks of a frame including its flush are a strictly increasing subsequence of the progression |
| `TileRuns.ParseTurnAdvances` | packet_parser/tile_handler.hpp:225-256 | a precinct read from a byte boundary moves the cursor forward if and only if the cursor is inside the bytes, and recovery after a failure moves it on again |
| `TileRuns.ParseTurnsBounded` | packet_parser/tile_handler.hpp:225-256 | the loop ends: with the last signal inside the buffered bytes, one call tries at most as many precincts as there are bytes from the cursor to that signal, whatever the bytes, the failures and the progression |
| `TileRuns.LeavesRangeIff` | packet_parser/tile_handler.hpp:225-229 | with a well-formed frame buffered, one call runs past the progression if and only if the last signal lies behind the end of the last packet; otherwise it succeeds and stops at the first precinct start at or behind that signal |
| `TileRuns.SignalBeyondBytes` | packet_parser/tile_handler.hpp:225-229 | on any frame, with the cursor at the end of the bytes and a signal beyond, the call always runs past the progression |
| `TileWitness.TripleWalked` | packet_parser/j2k_packet.cpp:648-685 | the three-precinct progression of the witnesses is what the walk builds, in either order, for one pixel in three components |
| `TileWitness.SomeParseLeavesRange` | packet_parser/tile_handler.hpp:225-229 | a well-formed frame of three empty packets and a signal at its end on which the call runs past the progression |
| `TileRuns.RecoverySound` | packet_parser/tile_handler.hpp:319-361 | with signals in byte order recovery takes the first one past the cursor, succeeds if and only if its PID names a precinct not yet passed, and lands exactly there |
| `TileRuns.IncrementalEqualsWhole` | packet_parser/tile_handler.hpp:212-296 | for a well-formed frame, any cut, any signals on true precinct starts and any parse calls in between, every call succeeds and callbacks, blocks, cursor and index after the flush are those of one flush over the whole frame, which calls back the whole progression |
| `TileFailures.ParseMisses` | packet_parser/tile_handler.hpp:212-257 | whatever the call answers, precincts go by without a callback in a parse call if and only if some precinct fails in it, at least as many as fail |
| `TileFailures.FlushFailsIff` | packet_parser/tile_handler.hpp:259-296 | no precinct fails in a flush if and only if the rest of the progression parses in sequence, and then the flush succeeds and is that walk |
| `DamagedFrames.ReadsOn` | packet_parser/tile_handler.hpp:231-243 | a turn that succeeds in step stays in step if and only if the packet was read to its own end; a packet that arrived is reported as sent |
| `DamagedFrames.RecoversInStep` | packet_parser/tile_handler.hpp:319-361 | with signals on true starts recovery succeeds if and only if one lies past the cursor, and puts cursor and index back in step, behind the failed precinct |
| `DamagedFrames.ArrivedHonest` | packet_parser/j2k_packet.cpp:570-608 | a packet that arrived undamaged is read to its own end whatever surrounds it and however much has come behind it |
| `DamagedFrames.ParseAligned` | packet_parser/tile_handler.hpp:212-257 | on a frame with damaged packets, none read to a wrong end, a parse call stays in the progression, is in step when it succeeds, and reports what arrived as sent |
| `DamagedCalls.ParseOutcome` | packet_parser/tile_handler.hpp:212-257 | on such a frame with signals in byte order, a parse call exactly: it reads a chain of precincts, after a failure going on at the nearest signal past it, however far ahead; it fails if and only if some precinct of the chain fails with no signal past it, otherwise it ends at or behind the last signal; it calls back exactly the precincts of the chain that can be read |
| `DamagedCalls.FlushOutcome` | packet_parser/tile_handler.hpp:259-296 | a flush exactly, in the same terms: when it recovers, when it fails, what it calls back |
| `DamagedCalls.FlushAfterParse` | packet_parser/tile_handler.hpp:259-296 | with the cursor at or behind the last signal, where a successful parse call leaves it, the flush never recovers and succeeds if and only if every packet from there on can be read |
| `DamagedFrames.RestOfFrame` | packet_parser/tile_handler.hpp:259-296 | from a tile in step with the damage behind it the flush succeeds and reports exactly the rest of the undamaged frame |
| `DamagedFrames.DamageContained` | packet_parser/tile_handler.hpp:212-361 | the same for whole frames, under any cut, any true signals and any parse calls up to the first that fails: no call leaves the progression, the cursor is where the undamaged frame has the current precinct, and every callback for a precinct that arrived, those of the flush included, is the undamaged frame's |
| `DamageWitness.UndetectedLeavesRange` | packet_parser/tile_handler.hpp:225-229 | a written frame, all its bytes zeroed, and one true signal: the packet is read to a wrong end and the call runs past the progression |
| `EncodedFrame.EncodedIsWellFormed` | packet_parser/tile_handler.hpp:212-257 | encoded packets in progression order make a well-formed frame |
| `EncodedFrame.WrittenFrameIsDelivered` | packet_parser/tile_handler.hpp:212-296 | from encoder to callback: parsed as it arrives, such a frame calls back every precinct in order, each showing the codes and bodies written for it |
| `WalkedFrame.RestartedStart` | packet_parser/tile_handler.hpp:381-421 | a restarted tile over the progression the walk builds meets the starting conditions of a frame: no precinct twice, every block fresh |
| `WalkedFrame.EveryPrecinctDelivered` | packet_parser/tile_handler.hpp:212-296 | from geometry and encoder to consumer: over a walked progression every precinct of every component and resolution is called back exactly once, and nothing else, with what was written for it |
| `TileParser.Handler.constructor` | packet_parser/tile_handler.hpp:197-207 | the table-filling loop builds for each component the increasing list of its progression indices |
| `TileParser.Handler.TryRecover` | packet_parser/tile_handler.hpp:319-361 | the pop loop and the jump are the functional recovery on the same reader, queue and index |
| `TileParser.Handler.ParsePrecinct` | packet_parser/j2k_packet.cpp:610-615 | reads the packet of the precinct at the current index into that precinct alone |
| `TileParser.Handler.Parse` | packet_parser/tile_handler.hpp:212-257 | the gated loop is the functional parse, of which the order, the bound on turns and the range condition are proved: outcome, callbacks, queue, index and cursor |
| `TileParser.Handler.Flush` | packet_parser/tile_handler.hpp:259-296 | the ungated loop is the functional flush |
| `TileParser.Handler.Restart` | packet_parser/tile_handler.hpp:381-421 | the component, resolution, precinct, band and block loops, all descending, reset every block and leaf of every precinct and nothing else |
| `TileParser.FeedBody` | frame_handler.hpp:457-475 | a body packet's bytes join the chain, its resync point is queued and the parse over the longer chain, unless parked, is the functional one |
| `Precincts.CeilDivCeilDiv` | packet_parser/j2k_packet.cpp:155-165 | nested ceiling divisions are one |
| `Precincts.CellOf` | packet_parser/j2k_packet.cpp:216-227 | a coordinate is in exactly one cell of its row or column |
| `Precincts.PrecinctsTile` | packet_parser/j2k_packet.cpp:216-227 | every point of a resolution is in exactly one precinct rectangle, the one its row-major number names, and that number is in range |
| `Precincts.PrecinctsNonEmpty` | packet_parser/j2k_packet.cpp:216-227 | no precinct is empty or leaves its resolution |
| `Precincts.LayPrecincts` | packet_parser/j2k_packet.cpp:216-227 | the loop lays out npw*nph rectangles that tile the resolution, for any rectangle and exponents, empty ones included |
| `Precincts.PrecinctsAcrossClosed` | packet_parser/j2k_packet.cpp:155-165 | for a tile at the origin component, resolution and precinct rounding together are one ceiling division by sub * 2^(pr+depth) |
| `Progression.OnlyUpTo` | packet_parser/j2k_packet.cpp:648-685 | in either order each component and resolution is numbered consecutively as the walk meets it |
| `Progression.OrdersPermute` | packet_parser/j2k_packet.cpp:691-755 | PRCL and PCRL push permutations of the same entries at every grid point, up to every grid point and in all, and agree on the subsequence of each component and resolution |
| `ProgressionOrder.PointRises` | packet_parser/j2k_packet.cpp:650-755 | at one grid point PCRL goes by component and then resolution, PRCL by resolution and then component |
| `ProgressionOrder.SequencePlaced` | packet_parser/j2k_packet.cpp:648-755 | over the whole progression each entry belongs at a grid point of the tile, and of two entries the first comes from an earlier point in row order, or from the same one with the smaller key |
| `GridOffsets.EachResolutionListed` | packet_parser/j2k_packet.cpp:648-685 | for a tile anywhere, edges cutting precincts or not, each resolution is listed as 0 to columns times rows, with a closed form for both |
| `GridOffsets.FullIff` | packet_parser/j2k_packet.cpp:655-663 | in one dimension all precincts are listed if and only if the tile starts on a step of the walk or there is one precinct, cut; and for an empty resolution if and only if its edge cuts none |
| `GridOffsets.EveryPrecinctListed` | packet_parser/j2k_packet.cpp:648-685 | a tile on the steps: all precincts of every resolution that has any, in order |
| `GridOffsets.OffStepMisses` | packet_parser/j2k_packet.cpp:648-685 | a tile off the steps of which the walk lists one of two precincts |
| `GridCoverage.WalkIsClosedForm` | packet_parser/j2k_packet.cpp:648-685 | for a tile at the origin the running counters at a grid point equal (y/My)*npw + x/Mx |
| `GridCoverage.EachResolutionInOrder` | packet_parser/j2k_packet.cpp:648-685 | a resolution's precincts come as 0 to npw*nph-1 in that order, and unknown resolutions not at all |
| `GridCoverage.EveryPrecinctOnce` | packet_parser/j2k_packet.cpp:648-685 | either order lists a precinct number as often as it comes up in sixteen-bit numbering; so each precinct exactly once, and nothing else, while a resolution has at most 65536 |
| `GridCoverage.DistinctIff` | packet_parser/j2k_packet.cpp:648-685 | no entry of the progression repeats if and only if no resolution has more than 65536 precincts |
| `ProgressionWalk.StepExponents` | packet_parser/j2k_packet.cpp:635-646 | the loops find the smallest precinct exponents |
| `ProgressionWalk.Walker.Visit` | packet_parser/j2k_packet.cpp:653-681 | one visit pushes exactly the entry due there, if any, and keeps every counter pair equal to the number of hits so far |
| `ProgressionWalk.Walker.VisitByComponent` | packet_parser/j2k_packet.cpp:650-683 | a PCRL grid point pushes its entries component by component |
| `ProgressionWalk.Walker.VisitByResolution` | packet_parser/j2k_packet.cpp:718-748 | a PRCL grid point pushes its entries resolution by resolution, components with fewer resolutions skipped |
| `ProgressionWalk.Walker.Walk` | packet_parser/j2k_packet.cpp:648-685 | the grid loops push the whole sequence of the order |
| `ProgressionWalk.Prepare` | packet_parser/j2k_packet.cpp:617-767 | the progression is built for order codes 3 and 5 and refused for all others; its entries come grid point by grid point, for code 3 by component and resolution, for code 5 by resolution and component |
| `GeometrySignature.ComputeSignature` | packet_parser/j2k_header.cpp:363-403 | the scan, always within the header and always ending, returns the functional signature and SOD offset |
| `GeometrySignature.Mix` | packet_parser/j2k_header.cpp:368-373 | the mixing loop continues FNV-1a over the given bytes |
| `GeometrySignature.SignatureOfHeader` | packet_parser/j2k_header.cpp:363-403 | the signature of a framed header is FNV-1a over its geometry segments in order, 0 read as 1, and the offset is just past its SOD |
| `GeometrySignature.SameGeometrySameSignature` | packet_parser/j2k_header.cpp:363-403 | headers that differ only in other segments have equal, non-zero signatures |
| `GeometrySignature.TrustedIffFramed` | packet_parser/j2k_header.cpp:363-403 | the signature is non-zero if and only if the header is SOC, well-formed segments and an SOD |
| `SignatureHash.XorBitwise` | packet_parser/j2k_header.cpp:368-373 | the mixed-in byte is combined by exclusive or, bit by bit |
| `SignatureHash.MixDiffers` | packet_parser/j2k_header.cpp:368-373 | one step of the hash is injective in the byte and in the hash before it |
| `SignatureHash.OneByteChangesSignature` | packet_parser/j2k_header.cpp:363-403 | framed headers whose geometry differs in one byte have different signatures, except where 0 is read as 1 |
| `SignatureHash.PayloadByteMatters` | packet_parser/j2k_header.cpp:386-397 | changing one payload byte of a segment changes the hash if and only if the segment is SIZ, COD, COC, QCD, QCC, DFS or ATK |
| `SignatureHash.KnownHashes` | packet_parser/j2k_header.cpp:367-373 | the hash of nothing and of one byte, in figures |
| `JitterRing.ParseRtp` | rtp_receiver.cpp:147-171 | an accepted datagram has its header inside its bytes, and its sequence number and bytes are those on the wire |
| `JitterRing.RtpRoundTrip` | rtp_receiver.cpp:147-171 | every datagram written by the format, with any CSRC list, extension and padding, is accepted with its sequence number, header length and unpadded bytes |
| `JitterRing.AcceptedIffFramed` | rtp_receiver.cpp:147-171 | a datagram is accepted if and only if it starts with a header written by the format and, if it says so, ends in the padding its last byte counts |
| `JitterRuns.StepInv` | rtp_receiver.cpp:171-321 | each step of either thread or of the hook keeps the invariant of ring, slabs, queue and both program positions |
| `JitterRuns.RunInv` | rtp_receiver.cpp:171-321 | the invariant holds after every interleaving |
| `JitterRuns.DeliveredInOrder` | rtp_receiver.cpp:223-321 | in every run jobs are enqueued in strictly increasing unwrapped order and the hook sees them in that order, each once, with exactly the bytes of its datagram |
| `JitterRuns.SlabsIntact` | rtp_receiver.cpp:199-221 | in every run a slab that is queued, in the worker or held has its datagram's bytes and is never about to be written |
| `JitterRuns.WindowAndAccounts` | rtp_receiver.cpp:171-266 | in every run filled slots lie in the jitter window at their own index, `pending` counts them, and the head's advance is jobs + full drops + losses |
| `JitterRuns.AliasUnreachable` | rtp_receiver.cpp:201-208 | a filled slot met when storing can only be a duplicate |
| `JitterRuns.FullMeansAllQueued` | rtp_receiver.cpp:257-266 | in every run the queue is full only when every other slab is in it, so never while any other slab is held or being processed |
| `ReceiverFates.DropsIffOthersQueued` | rtp_receiver.cpp:236-266 | in every run the thread that looks for room goes on to drop if and only if every slab other than the head's is queued, and to enqueue otherwise |
| `ReceiverFates.DropsOnlyWhenFull` | rtp_receiver.cpp:236-266 | in every run a thread about to drop found, when it looked, every other slab in the queue |
| `ReceiverFates.DispatchEnds` | rtp_receiver.cpp:236-266 | however worker and hook interleave, a dispatch that found room puts the head's job next in the log and counts nothing, one that found none counts a drop and logs nothing |
| `ReceiverFates.KeptIffFree` | rtp_receiver.cpp:199-221 | in every run the datagram in hand is written if and only if its slab is free, and counted as a busy drop if and only if the slab is in use |
| `ReceiverFates.TakenUpIffNotBehind` | rtp_receiver.cpp:171-183 | in every run an arriving datagram is taken up if and only if a number congruent to its own lies within half the number space from the head on, and under that number |
| `ReceiverFates.ForcedIffBeyondWindow` | rtp_receiver.cpp:183-198 | in every run the head is forced on exactly while the datagram is a jitter depth or more ahead, handing on what is there and counting lost what is not |
| `ReceiverFates.EveryNumberAccounted` | rtp_receiver.cpp:171-266 | in every run, of the numbers the head has passed, `lost` counts those never stored, and log and full drops together those stored; without full drops every stored one is logged |
| `ReceiverFates.EveryJobShown` | rtp_receiver.cpp:268-286 | however the others interleave, every logged job is shown to the hook after a number of the worker's own steps fixed in advance |
| `ReceiverProgress.RecvProgress` | rtp_receiver.cpp:171-266 | every step of the receive thread brings it closer to the end of the datagram |
| `ReceiverProgress.HandlingEnds` | rtp_receiver.cpp:171-266 | however worker and hook interleave, the receive thread is done with a datagram after a number of its own steps fixed in advance |
| `ReceiverProgress.TidyStep` | rtp_receiver.cpp:183-234 | a step leaves a ready head behind an idle thread if and only if it is the busy drop of a datagram that had forced the head up to a stored one |
| `ReceiverProgress.NothingWaits` | rtp_receiver.cpp:183-234 | in every run without busy drops the head is not ready whenever the receive thread is idle |
| `ReceiverStall.SomeRunStalls` | rtp_receiver.cpp:183-221 | for every depth from two up, a run after which a ready head waits at an idle thread |
| `ReceiverStall.PromptIffDepthOne` | rtp_receiver.cpp:183-234 | no run leaves a ready head at an idle thread if and only if the jitter depth is one |
| `DepthLimit.SomeRunMiscounts` | rtp_receiver.cpp:199-207 | for every depth above the ring size, a run in which a number is counted lost that the head has yet to pass |
| `DepthLimit.AccountsIffDepthFits` | rtp_receiver.cpp:183-207 | among depths that fit the signed comparison, the accounts balance in all runs if and only if the depth is at most the ring size |
| `ReceiverThreads.SoloRun` | rtp_receiver.cpp:171-234 | the receive thread run to idle on its own is the run in which only it moves |
| `ReceiverThreads.QueueIsLog` | rtp_receiver.cpp:257-276 | in every run the ring queue holds exactly the jobs enqueued and not yet taken, in order |
| `ReceiverThreads.Receiver.EnqueueJob` | rtp_receiver.cpp:257-266 | first in, first out: the job goes behind all others, unless one fewer than the ring's cells are queued already |
| `ReceiverThreads.Receiver.DequeueJob` | rtp_receiver.cpp:268-276 | the oldest job and the others left in order, or none if and only if the queue is empty |
| `ReceiverThreads.Receiver.Dispatch` | rtp_receiver.cpp:236-255 | slab handed over with its job, or taken back and counted when the queue is full |
| `ReceiverThreads.Receiver.TakeHead` | rtp_receiver.cpp:228-232 | dispatching and clearing the head slot reaches the state the thread's single steps reach |
| `ReceiverThreads.Receiver.ReleaseInOrder` | rtp_receiver.cpp:223-234 | the release loop ends in the state the thread's steps lead to |
| `ReceiverThreads.Receiver.ForceAdvance` | rtp_receiver.cpp:183-198 | the force-advance loop ends with the datagram in the window, on the way the thread's steps take |
| `ReceiverThreads.Receiver.Keep` | rtp_receiver.cpp:199-221 | storing, or dropping as duplicate, alias or busy, then releasing, ends where the steps do |
| `ReceiverThreads.Receiver.Handle` | rtp_receiver.cpp:173-221 | the whole handling of an accepted datagram ends where the steps do |
| `ReceiverThreads.Receiver.HandleDgram` | rtp_receiver.cpp:147-221 | a datagram failing the header checks changes nothing; any other is handled as above |
| `ReceiverThreads.Receiver.WorkerTurn` | rtp_receiver.cpp:278-286 | one turn of the worker is its four steps, or nothing on an empty queue, and keeps the invariant |
| `FrameHandler.SubHeaderRoundTrip` | frame_handler.hpp:362-365 | MH, ORDB, POS and PID written into a sub-header are read back whatever the other bits are |
| `FrameRuns.DeliveryContract` | frame_handler.hpp:301-516 | over every packet sequence: chunks contiguous from offset 0, together the chain; at most one abort per frame; nothing after it; a frame is flushed, and reported intact, exactly when its header was taken, no loss was flagged and no parse failed; resync points offered only after an accepted loss; structures dropped only for a new geometry or after enough failed frames; slab and signal caps kept |
| `FrameRuns.NothingAfterAbort` | frame_handler.hpp:162-169 | in every run neither a chunk nor an abort follows an abort before the next frame opens |
| `FrameRuns.IntactIsClean` | frame_handler.hpp:478-500 | in every run a frame reported intact had no abort, flagged loss or failed parse since it opened |
| `FrameChoices.LossOutcome` | frame_handler.hpp:309-317 | in every run a loss makes the handler give a frame in flight up if and only if it is not accepted, or the header is not in; accepted, it is at the bytes delivered so far |
| `FrameChoices.BodyOutcome` | frame_handler.hpp:457-475 | in every run, what a body packet of the tracked frame causes, exactly: chunk, resync point at the bytes before the packet plus POS, offer, parse and abort, each with its condition |
| `FrameChoices.HeaderOutcome` | frame_handler.hpp:397-456 | in every run, for a main packet exactly: when the latched structure goes and why, when one is built, when the frame is tracked, where the walk starts |
| `FrameVerdicts.VerdictIff` | frame_handler.hpp:171-181 | in every run, over the trace: a frame's verdict is clean if and only if its flush succeeded, failed if and only if a parse of it, of its header or in the flush failed, neutral otherwise |
| `FrameVerdicts.LossLeavesStreak` | frame_handler.hpp:171-174 | a frame killed by a loss, no parse having failed before, is judged neutral and leaves the streak |
| `FrameVerdicts.CountersCount` | frame_handler.hpp:326-506 | in every run the frame counter is the verdicts given but for those at the slab cap, the truncated counter the verdicts on frames aborted or with a failed flush, the re-latch counter the re-latches reported; every frame that counts is judged, and once |
| `FrameEnds.EitherOr` | frame_handler.hpp:48-52 | in every run, for every packet that ends a frame, main packets included: both abort and report if and only if it is a body packet of the tracked frame whose own resync parse fails; neither if and only if the main header never completed or is an incomplete one whose running length wraps to zero |
| `FrameEnds.CutShortAborts` | frame_handler.hpp:326-390 | in every run a frame cut short by the next main packet or by the slab cap has its abort and no report |
| `FrameEnds.IntactYetFailed` | frame_handler.hpp:478-500 | in every run, for every packet with which a frame is reported: intact if and only if header taken, no loss, no failed parse call so far; intact although a parse call failed if and only if that holds and the call is the flush |
| `FrameEnds.IntactIff` | frame_handler.hpp:478-500 | the same, of parse calls, read off the trace alone, between a frame's opening and its report |
| `TiledFrames.RunGood` | frame_handler.hpp:301-516 | handler and tile together over arbitrary packets: the delivery contract, callbacks in order, and in a tracked frame precincts missing behind the index if and only if some have failed |
| `TiledFrames.CallbacksInOrder` | packet_parser/tile_handler.hpp:212-296 | on every stream, whatever is lost or damaged, the callbacks of a frame are a strictly increasing subsequence of the progression in force |
| `TiledFrames.TileTold` | frame_handler.hpp:463-468 | on every stream the tile is told of a resync point at the bytes delivered before its packet plus POS |
| `TiledFrames.IntactYetPrecinctFailed` | frame_handler.hpp:228-231 | on every stream, for every packet with which a frame is reported: intact although a precinct failed if and only if the handler's state is intact and a precinct behind the index was not called back or the rest does not parse in sequence; intact with none failed means the whole progression was called back in order |
| `TiledFrames.StepPulls` | frame_handler.hpp:301-516 | a joint step is a step of the handler on the packet with the tile's answers |
| `TiledFrames.HandlerRun` | frame_handler.hpp:301-516 | the handler goes through one of its own runs, so every law of its runs holds in the joint system |
| `FrameWitness.BothHappen` | frame_handler.hpp:467-501 | for every framed header, a stream of handler and tile whose frame gets an abort and then a report |
| `FrameWitness.NeitherHappens` | frame_handler.hpp:341-360 | streams whose frame gets neither and is not counted |
| `FrameWitness.NeitherByWrap` | frame_handler.hpp:443-446 | a stream of header beginnings whose last packet ends a frame with neither because the running length wraps |
| `FrameWitness.IntactThoughFlushFails` | frame_handler.hpp:486-501 | for every framed header, a stream of handler and tile whose frame is reported intact although the flush fails |
| `FrameWitness.RecoveredYetIntact` | frame_handler.hpp:467-501 | for every framed header, a stream of handler and tile in which a precinct fails, every call succeeds, two of three precincts are called back and the frame is reported intact and counted clean |
| `FrameRuns.TrackedMeansLatched` | frame_handler.hpp:397-456 | in every run a complete main header that leaves the frame tracked has the latched signature, and the structure was built from a header with it or from one that had none |
| `FrameRuns.SlabsConserved` | frame_handler.hpp:183-190 | in every run each slab pulled has been given back once or is held once |
| `FrameSteps.PullStep` | frame_handler.hpp:301-516 | one packet: reports and releases only grow, and the chain is what it was, that with the packet's chunk behind it, that chunk alone, or empty |
| `FrameSteps.GivenBackInOrder` | frame_handler.hpp:183-190 | one packet gives slabs back in the order they were taken, all that are held or none, before or after its own |
| `FramePuller.Handler.FireAbort` | frame_handler.hpp:162-169 | the functional abort: reported once per arming, resync state gone |
| `FramePuller.Handler.EndFrameStreak` | frame_handler.hpp:175-181 | the verdict `VerdictIff` characterises, and the streak it gives: clean resets it, failed grows it, neutral leaves it |
| `FramePuller.Handler.ReleaseHeldSlabs` | frame_handler.hpp:183-190 | the loop gives every held slab back in order and empties the chain |
| `FramePuller.Handler.PullData` | frame_handler.hpp:301-516 | a call keeps the delivery contract: reports stand and new ones are within it, the packet's slab joins the held or the given back and no other slab moves otherwise, the cap holds, the bytes delivered are the chain; and it is one step of the state machine |
| `CleanFrame.MainPacket` | frame_handler.hpp:397-456 | between frames, a main packet with the latched geometry opens the frame at its own SOD |
| `CleanFrame.CleanBody` | frame_handler.hpp:457-515 | on the body of a well-formed frame the handler's answers from the tile are all successes, it never aborts, and reports the frame intact with its bytes |
| `CleanFrame.CleanFrameIntact` | frame_handler.hpp:301-516 | a well-formed frame cut anywhere, on a stream with its geometry latched: reported intact with exactly its bytes while the tile calls back the whole progression in order |
| `Pipeline.WireRoundTrip` | frame_handler.hpp:338-365 | a datagram written with RTP header, sub-header and codestream bytes is accepted and handed over with those fields, those bytes and its marker bit |
| `Pipeline.RunGood` | rtp_receiver.cpp:171-321 | the joint invariant of receive thread, worker, hook and handler holds after every interleaving |
| `Pipeline.ChainIsDatagrams` | rtp_receiver.cpp:299-321 | in every joint run each chunk of the chain is the datagram that arrived under its sequence number, from behind the sub-header on, still in its slab, which the receive thread is not about to write; chunks come in strictly increasing sequence order |
| `Pipeline.ReleasedOnce` | rtp_receiver.hpp:54-60 | in every joint run each slab given back is one the hook holds, and the slabs in its hands are those in the chain and on the way back, each once |
| `Pipeline.PartsRun` | rtp_receiver.cpp:171-321 | receiver and handler each go through one of their own runs, so every law of either holds in the joint system |

## Left out

- Payloads shorter than the eight sub-header bytes, which the source does not check for, are not modelled.
- JitterRuns.RunInv: for jitter depths 1 to 16384 (the ring size); `DepthLimit` shows why more does not work. A depth of 0, and depths of 32768 and more, which the signed cast turns negative, are not modelled.
- TileRuns.LeavesRangeIff: for well-formed frames; damaged ones are `DamagedFrames.DamageContained`, which asks that no damaged packet be read to a wrong end. Where one is, what the loop does depends on the bytes (`DamageWitness.UndetectedLeavesRange`).
- TileParser.FeedBody: for chunks after which the cursor is on its byte, as `AppendChunk` says.
- TiledFrames.IntactYetPrecinctFailed: a parse that leaves the progression counts as a failed parse call; bytes lost before the frame's last packet shift what follows in the chain, as in the code.
- TileParser.Handler.Parse: returns the outcome `OutOfRange` where the source would read past the progression; what that read gives is not modelled.
- PacketReader.DecodeSegments: HT-only code-blocks; the branches for mixed code-blocks are not modelled.
- PacketReader.DecodeBlockOf: HT-only code-blocks; the bypass, terminate-all and arithmetic-coded branches are not modelled.
- GridCoverage.EveryPrecinctOnce: for a single tile at the origin; other tiles are `GridOffsets`.
- PacketExact.AcceptedIffCoded: for blocks as a frame's start leaves them; a precinct read twice in one frame is not covered.
- DamagedCalls.ParseOutcome: for frames none of whose damaged packets is read to a wrong end, as in `DamagedFrames`.
- Sockets, thread creation and pinning, condition-variable timing, start and stop: only the accesses to shared memory are steps.
- Weak memory ordering: steps are sequentially consistent.
- `ReceiverThreads.Receiver` keeps its fields in one record and updates it as a value; the slots' and cells' identity in memory is not modelled.
- Chunks are byte sequences, not addresses in slabs. That the bytes under a chunk stay put while the slab is held is `JitterRuns.SlabsIntact`.
- A take of length zero gives an empty sequence whichever buffer it would point into; a failed body access is an empty body.
- Positions and totals are unbounded; the 32-bit narrowing of positions is left out except for the split-header offset.
- Code-block styles other than HT-only (bypass, termination on each pass, mixed), tag-tree parents, SOP and EPH markers.
- All bands of a precinct have the same number of blocks, as the source's loops assume.
- The fields of main-header segments and the depth tables: the geometry is an input of the walk. `create` and the header parser appear in the frame handler as answers that come with the packet.
- In `FrameHandler`, `FramePuller` and `Pipeline` the tile's parse and flush outcomes are inputs too; `TiledFrames` ties them to the tile on every stream, the structure a header gives being an input there.
- In `Pipeline` a handler call is one step and the slabs it gives back are freed after it, one step each; in the code some are freed during the call, after their last use. Datagrams too short for the sub-header do not enter it.
- Multi-tile layouts and code-block coordinates.
- Collisions of the signature hash between geometries that differ in more than one byte.
- The damaged-EOC abort: `DeliveryContract` includes that it never fires.
- Arena allocation, logging, file dumps, statistics.
