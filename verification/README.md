# Models of the RISC-V robotics stack

This project models the parts of the repository whose correctness is not visible in any one
function, and proves what they promise. Everything is in plain Dafny modules, one per component.

- **Convolution lowering** (`Arithmetic`, `Sums`, `ConvSpec`, `Requant`, `ConvBench`, `ConvWrites`,
  `ConvPaths`, `ConvRun`, `ConvLaws`). The benchmark computes one quantised convolution four ways: a scalar reference, a
  convolution unit with a folded scale, and two software im2col paths over a matrix unit. The loops
  work on arrays with the source's layouts, 8-bit elements and 32-bit accumulators. The matrix unit
  is modelled as `bias + A * W`, the convolution unit as the same followed by a single Q0.31
  rounding.
- **Vector matrix library** (`Matlib`, `MatlibTiled`, `MatlibVec`, `MatlibLaws`). Strip-mined and tiled products
  over the reals. The length of each strip is any that section 6.3 of the RISC-V "V" Vector
  Extension 1.0 allows. Assumption: a multiply-accumulate of `vl` lanes leaves the tail lanes
  undisturbed; the intrinsics used do not ask for that policy, and the sums depend on it.
- **Framed link** (`Bytes`, `Crc16`, `HdlcFraming`, `HtifTransport`, `HtifProxy`, `HtifLink`,
  `TopicLog`, `WireLaws`). Octet stuffing as in section 4.2 of RFC 1662, with a 16-bit CRC of polynomial 0x1021
  and initial value 0xFFFF, which is not that document's check sequence. One specification covers
  the three parsers (target, host proxy, log decoder); each class is proved to be one of its
  variants. Reads, heartbeats, the writers' lock and the topic log are built on it.
- **Broker** (`BrokerTables`, `Broker`, `BrokerRuns`, `BrokerThread`, `BrokerLog`, `BrokerWire`,
  `BrokerOctets`, `BrokerLaws`, `LoopbackTraffic`, `Loopback`, `LoopbackReplies`). The agent's side of
  a publish/subscribe protocol with the message format of section 8.3 of OMG DDS-XRCE 1.0: entity tables, per-stream numbers, fan-out, the octets
  of a message, and the bounded queues. `Broker` says what each message does; `BrokerThread` does it
  in place, from the octets.
- **State estimation** (`Linear3`, `Kalman`, `KalmanGain`, `KalmanRuns`, `KalmanLaws`, `Kf3`, `Quaternion`,
  `Mahony`, `Estimator`). The per-axis filter with six covariance scalars against the textbook
  filter on matrices, and the attitude filter against quaternion algebra. Arithmetic is over the
  reals; a square root is a parameter `root` with `root(x) >= 0` and `root(x)^2 = x`, a cosine and
  sine two parameters that satisfy the half-angle formulas.
- **Control loops** (`Pipeline`, `PipelineThreads`). The three threads as steps: one semaphore or
  mutex operation, one buffer copy or one computation at a time, in any schedule. The computations
  they call are arbitrary functions that carry state.
- **Drone mailboxes** (`DronePackets`, `DroneLink`, `DroneLaws`, `Mailbox`, `MailboxRuns`). The host's packets,
  the reader that finds them in a stream, and the flag-and-copy hand-off to a worker without a lock.

Inputs from outside become parameters: polls of the console, what a sensor read returned, the
schedule of threads, which queues polled ready.

## Where the code and its own words differ

- The heartbeat comment says the target discards 0x00 outside a frame. It does exactly there
  (`HtifLink.HeartbeatDiscardedIff`), but after a first frame it is never outside: heartbeats gather
  in its buffer (`HtifLink.HeartbeatKept`, `HtifLink.HeartbeatsGather`). What keeps them from being
  a frame is `HtifLink.ZerosNotAccepted`.
- The proxy forwards chunks of up to 4096 octets, the target takes 1024 and drops a longer chunk
  whole; `HtifLink.LinkDelivers` says when everything sent is read.
- The log decoder drops back outside after a frame, so a frame that shares its opening flag with the
  end of the one before is lost to it (`HdlcFraming.FrameAfterUnclosedLost`); the exact condition is
  `HdlcFraming.FirstFrameKeptIff`.
- A read with a zero-length buffer can lose a payload (`HtifTransport.OverwritesPending`);
  `HtifTransport.ReadBalancedIff` says exactly when a read loses nothing.
- When the kernel exceeds the padded image by less than the stride, the truncating division of the
  output size still counts one window, which does not fit (`ConvSpec.ExtentsCountWindows` has the
  exact condition).
- The tiled product with no columns to sum over leaves C as it was, while the untiled one zeroes it
  (`MatlibTiled.TiledAgreesIff`).
- The queue comment speaks of round-robin service; the lowest ready session is always served first,
  and can starve the others for ever (`Loopback.ServedIff`, `Loopback.LowestStarvesOthers`).
- The padding error exit of the submessage loop cannot be taken: with four octets left there is
  always room for the padding (`BrokerWire.NextSub`).

## Model

| member | source | states |
|---|---|---|
| ConvBench.Transpose | gemmini_ubench/src/bench.c:82-92 | the channel-last buffer holds at ((h,w),c) what the image holds at (c,h,w), for every position |
| ConvBench.Im2colRow | gemmini_ubench/src/bench.c:96-119 | the gathered row holds, at every tap, the pixel of the zero-padded window of that output position, and nothing outside the row changes; every clamping of the copied stretch is covered |
| ConvSpec.SumOfTaps | gemmini_ubench/src/bench.c:158-167 | the sum read in the im2col order (kernel row, kernel column, channel) is the direct sum in the order (channel, kernel row, kernel column) |
| ConvSpec.ExtentsCountWindows | gemmini_ubench/src/bench.c:152-153 | the number of output rows (columns) is exactly the number of window positions that fit the padded image, if and only if the kernel fits it or exceeds it by at least the stride; otherwise the truncating division counts one window that does not fit |
| ConvLaws.OneTap | gemmini_ubench/src/bench.c:157-167 | a kernel with one non-zero weight gives the bias plus that weight times the image element under its tap, zero outside the image |
| ConvPaths.RequantRows | gemmini_ubench/src/bench.c:123-144 | the rows base to base+rows of every channel plane are requantised accumulators; every other output element is as it was, so tiles write disjoint elements |
| ConvPaths.Accumulate | gemmini_ubench/src/bench.c:157-167 | within the bound abs(bias) + K*2^14 < 2^31 no partial sum leaves 32 bits and the accumulator is the exact convolution |
| ConvPaths.Golden | gemmini_ubench/src/bench.c:147-178 | the scalar reference leaves at [oc][oh][ow], for exactly the windows that fit the padded image, the requantised exact convolution of that window, and nothing changed past them |
| ConvPaths.OutputOnWindows | gemmini_ubench/src/bench.c:152-176 | an output array holds, for NH by NW windows that fit the padded image, the requantised direct sum of window (oh, ow) of channel oc at (oc*NH+oh)*NW+ow |
| ConvLaws.WindowElement | gemmini_ubench/src/bench.c:152-176 | that array element by element |
| ConvPaths.PathC | gemmini_ubench/src/bench.c:314-335 | transpose, gather of all rows, one product and requantisation leave the requantised exact convolution of exactly the windows that fit the padded image, each element written exactly once and nothing changed past them |
| ConvPaths.PathB | gemmini_ubench/src/bench.c:282-311 | the tiled path leaves the same array over the same windows, for every number of positions and every tile height: the workspace is reused, the short last tile is zero-filled, and the tiles together write every element exactly once and nothing past them |
| ConvWrites.AllWrittenOnce | gemmini_ubench/src/bench.c:127-141 | writing all channels of all positions row after row writes every element exactly once |
| ConvWrites.RowsLogAppend | gemmini_ubench/src/bench.c:289-311 | the writes of two adjacent tiles are those of the two taken as one |
| ConvRun.OutputsAgree | gemmini_ubench/src/bench.c:339-341 | two arrays that both hold the requantised convolution are equal element by element |
| ConvRun.PathA | gemmini_ubench/src/bench.c:256-280 | the hardware path leaves, after its layout change, outputs within one unit of the requantised convolution, over exactly the windows that fit the padded image |
| ConvLaws.WindowElementClose | gemmini_ubench/src/bench.c:256-280 | the hardware outputs element by element: within one unit |
| ConvRun.MaxAbsErr | gemmini_ubench/src/bench.c:180-189 | the result is the maximum absolute difference: an upper bound that is attained, or zero on no elements |
| ConvRun.BenchRunShape | gemmini_ubench/src/bench.c:235-341 | the errors computed for the two im2col paths are zero and the one for the hardware path is at most one, for every image, weights and biases in range and every shape the convolution unit takes (equal strides, paddings and kernel sides) |
| Requant.FoldedWithinOne | gemmini_ubench/src/bench.c:132-141 | for every 32-bit accumulator, multiplier below 2^31 and positive shift, one rounding with the folded scale is within one unit of the two-stage rounding, before and after clamping |
| ConvLaws.RequantizeIs | gemmini_ubench/src/bench.c:168-175 | the two roundings are to the nearest, half up, by 2^31 and then by 2^shift; then offset and clamp |
| ConvLaws.RequantizeUnshifted | gemmini_ubench/src/bench.c:168-175 | without a positive shift the second is a multiplication by 2^-shift |
| ConvLaws.FoldIs | gemmini_ubench/src/bench.c:262-264 | the folded scale is the multiplier divided by 2^shift, to the nearest, half up, and the multiplier itself for a shift of zero |
| ConvLaws.HwRequantizeIs | gemmini_ubench/src/bench.c:262-264 | the hardware rounds once by 2^31, to the nearest, half up, and saturates to 8 bits |
| ConvRun.HwWithinOne | gemmini_ubench/src/bench.c:262-264 | the same for the parameters of the bench, through offset, clamp and narrowing |
| Matlib.VsetVl | samples/tiled_eigen_mt/data/matlib_rvv.h:174 | any length section 6.3 of the RISC-V "V" Vector Extension 1.0 allows; positive and no longer than asked for |
| Matlib.LanesAccumulate | samples/tiled_eigen_mt/data/matlib_rvv.h:175-177 | one fused multiply-add of vl lanes adds the next vl products to the sum of the lanes, the tail lanes being undisturbed |
| Matlib.DotRvv | samples/tiled_eigen_mt/data/matlib_rvv.h:171-180 | the strip-mined inner product is the plain sum, for any schedule of lengths |
| Matlib.MatmulUntiled | samples/tiled_eigen_mt/data/matlib_rvv.h:160-184 | every entry is the plain sum and nothing past the matrix changes |
| MatlibLaws.ProductEntry | samples/tiled_eigen_mt/data/matlib_rvv.h:159-185 | element r*m+q of a product is the inner product of row r of the one matrix and row q of the other |
| MatlibLaws.IdentityCopies | samples/tiled_eigen_mt/data/matlib_rvv.h:159-185 | multiplying by the unit matrix copies |
| MatlibLaws.SwapTransposes | samples/tiled_eigen_mt/data/matlib_rvv.h:159-185 | swapping the factors transposes the product |
| MatlibTiled.ExtentIs | samples/tiled_eigen_mt/data/matlib_rvv.h:197-199 | the remainder expression is exactly what is left of the matrix in the last tile |
| MatlibTiled.MatmulTile | samples/tiled_eigen_mt/data/matlib_rvv.h:193-221 | one tile of C goes from sums over the first k columns to sums over the columns up to the end of the tile; the first tile overwrites whatever was there; nothing else changes |
| MatlibTiled.MatmulTiled | samples/tiled_eigen_mt/data/matlib_rvv.h:184-190 | with at least one column the tiled product is the plain product for any tile size and any initial C; with none it leaves C alone |
| MatlibTiled.Matmul | samples/tiled_eigen_mt/data/matlib_rvv.h:159-191 | the choice between the two forms by the tile size |
| MatlibTiled.TiledAgreesIff | samples/tiled_eigen_mt/data/matlib_rvv.h:159-191 | tiled and untiled leave the same C if and only if there is a column to sum over or C was already zero |
| MatlibVec.Matvec | samples/tiled_eigen_mt/data/matlib_rvv.h:230-246 | every entry is the row sum; entries past the vector are untouched |
| MatlibVec.MatvecTranspose | samples/tiled_eigen_mt/data/matlib_rvv.h:255-271 | every entry is the column sum; entries past the vector are untouched |
| MatlibVec.Transpose | samples/tiled_eigen_mt/data/matlib_rvv.h:309-321 | entry (j,i) of the result is entry (i,j) of the matrix, by strided strips of any legal length, and nothing past the result changes |
| MatlibLaws.TransposeEntry | samples/tiled_eigen_mt/data/matlib_rvv.h:309-321 | the same by positions in the arrays |
| MatlibVec.ColumnsAreTransposedRows | samples/tiled_eigen_mt/data/matlib_rvv.h:230-271 | the column sum of a matrix is the row sum of its transpose |
| MatlibVec.BothWays | samples/tiled_eigen_mt/data/matlib_rvv.h:255-321 | multiplying by columns, and transposing then multiplying by rows, leave the same vector |
| Crc16.UpdateCrc | lib/microros_local/src/broker.c:251-258 | eight shifts of the loop are one step of the CRC with polynomial 0x1021 |
| Crc16.Crc16Ccitt | samples/micro_ros_multinode/src/transport_htif.c:28-39 | the loop computes the CRC of the prefix it is given, from 0xFFFF |
| WireLaws.CheckValue | samples/micro_ros_multinode/src/transport_htif.c:28-39 | the CRC of the octets "123456789" is 0x29B1, the value catalogued for this CRC |
| Crc16.CrcFromInjective | samples/micro_ros_multinode/src/transport_htif.c:28-39 | the register after any octets determines the register before them |
| Crc16.ResidueZeroIff | samples/micro_ros_multinode/src/transport_htif.c:80-84 | a buffer of any length carries its own CRC in its last two octets if and only if the CRC of the whole is zero |
| Crc16.BurstDetected | samples/micro_ros_multinode/src/transport_htif.c:77-90 | of all buffers that differ only in two consecutive octets, in the payload or in the trailer, at most one has residue zero |
| Crc16.ShortBurstDetected | samples/micro_ros_multinode/src/transport_htif.c:77-90 | the same for any burst of at most sixteen consecutive bits, wherever it starts in three octets |
| Crc16.LongerBurstMissed | samples/micro_ros_multinode/src/transport_htif.c:28-39 | a burst of seventeen bits that changes no residue, whatever is around it |
| Crc16.ZerosKeepRegister | tools/microros/htif_proxy.py:318-324 | a non-zero register is never brought to zero by zero octets |
| HdlcFraming.AcceptedIffResidue | samples/micro_ros_multinode/src/transport_htif.c:77-90 | a buffer of any length is taken as a frame if and only if it has at least three octets and its residue is zero |
| HdlcFraming.Unstuff | samples/micro_ros_multinode/src/transport_htif.c:95-115 | stuffed octets are read back as they were, or overflow the buffer exactly when they do not fit |
| HdlcFraming.FrameFromSynced | samples/micro_ros_multinode/src/transport_htif.c:65-118 | from outside a frame or right after a flag, an encoded payload is delivered once and whole if it is not empty and fits, and not otherwise |
| WireLaws.FrameOctets | samples/micro_ros_multinode/src/transport_htif.c:153-167 | a frame is 0x7E, the stuffed payload, the stuffed CRC with its high octet first, and 0x7E, with no 0x7E inside |
| WireLaws.StuffedOctet | samples/micro_ros_multinode/src/transport_htif.c:143-151 | 0x7E becomes 0x7D 0x5E, 0x7D becomes 0x7D 0x5D, every other octet is itself |
| WireLaws.FrameDelivered | samples/micro_ros_multinode/src/transport_htif.c:65-118 | from outside a frame a payload is delivered if and only if it has an octet and, on the target, at most 1024 |
| HdlcFraming.EncodeInjective | tools/microros/htif_proxy.py:59-71 | no two payloads share an encoding |
| HdlcFraming.AnyFrameSyncs | tools/microros/topic_log_decoder.py:51-87 | whatever state a parser was in, the end of any encoded frame leaves it synchronised |
| HdlcFraming.ResyncAfterOneFrame | samples/micro_ros_multinode/src/transport_htif.c:65-118 | in all three parsers, from any reachable state and after any garbage: the first frame is the only event after its opening flag if and only if that flag opens it, every deliverable frame after it is delivered, in order, and nothing else is, overflow included |
| HdlcFraming.FirstFrameKeptIff | tools/microros/topic_log_decoder.py:51-87 | from any reachable state of any of the three parsers a deliverable frame is delivered if and only if the parser is not right after an escape and not a log decoder whose buffer is itself a valid frame |
| HdlcFraming.FirstFrameCanBeLost | samples/micro_ros_multinode/src/transport_htif.c:107-115 | the first way to lose it: an escape before its flag costs the target a frame of full size without trace |
| HdlcFraming.FrameAfterUnclosedLost | tools/microros/topic_log_decoder.py:59-80 | the second: after a frame without its own closing flag the log decoder reads the whole next frame as text, while the two other parsers deliver both |
| HdlcFraming.BurstRefused | samples/micro_ros_multinode/src/transport_htif.c:77-90 | a frame body that differs from a valid one only in two consecutive octets is refused by every parser |
| HdlcFraming.ShortBurstRefused | samples/micro_ros_multinode/src/transport_htif.c:77-90 | so is one that differs by a burst of at most sixteen bits |
| HtifTransport.Transport.Open | samples/micro_ros_multinode/src/transport_htif.c:122-135 | any partial frame and any undelivered payload are forgotten; with a device that is not ready it fails and changes nothing |
| HtifTransport.Transport.Write | samples/micro_ros_multinode/src/transport_htif.c:153-167 | one call puts exactly one encoded frame of the buffer on the console |
| HtifTransport.Transport.FeedParser | samples/micro_ros_multinode/src/transport_htif.c:65-118 | one octet is one step of the parser; it reports a frame exactly when one was accepted, whose payload then replaces what was pending |
| HtifTransport.Transport.ReadCall | samples/micro_ros_multinode/src/transport_htif.c:188-222 | what a read returns, consumes and leaves pending, for any sequence of polls |
| HtifTransport.ReadStops | samples/micro_ros_multinode/src/transport_htif.c:188-222 | a read with octets pending returns them without polling; any other read polls exactly until the first completed frame or its deadline, fills the buffer from that frame and keeps the rest |
| HtifTransport.ReadBalanced | samples/micro_ros_multinode/src/transport_htif.c:188-222 | a read with room, or with nothing pending, loses no octet and repeats none |
| HtifTransport.ReadBalancedIff | samples/micro_ros_multinode/src/transport_htif.c:195-217 | that holds for whatever the console does if and only if the caller leaves room for an octet or nothing is pending |
| HtifTransport.OverwritesPending | samples/micro_ros_multinode/src/transport_htif.c:84-89 | the input on which a read without room loses what was pending |
| HtifTransport.ReadsConserve | samples/micro_ros_multinode/src/transport_htif.c:188-222 | over any sequence of reads with room, the octets returned followed by those pending are the payloads of the frames in the octets consumed |
| HtifProxy.Crc16OfBytes | tools/microros/htif_proxy.py:49-56 | the same CRC as on the target |
| HtifProxy.HdlcEncode | tools/microros/htif_proxy.py:59-71 | the bytes appended are the encoding of the payload |
| HtifProxy.HdlcParser.Feed | tools/microros/htif_proxy.py:81-103 | one octet is one step of the proxy variant of the parser, with the events it yields |
| HtifLink.ZerosNotAccepted | tools/microros/htif_proxy.py:318-324 | no run of heartbeats, of any length, is ever accepted as a frame |
| HtifLink.HeartbeatDiscardedIff | tools/microros/htif_proxy.py:318-324 | a heartbeat leaves a parser as it was if and only if the parser is outside a frame |
| HtifLink.HeartbeatKept | tools/microros/htif_proxy.py:318-324 | after any delivered frame the target is inside a frame, and the next heartbeat goes into its buffer |
| HtifLink.HeartbeatsGather | samples/micro_ros_multinode/src/transport_htif.c:91-105 | there heartbeats gather until the buffer of 1026 octets is full; only the one after that puts the target outside |
| HtifLink.ItemsDelivered | tools/microros/htif_proxy.py:318-353 | the target decodes any mixture of heartbeats and chunks to the chunks of 1 to 1024 octets, in order |
| HtifLink.InputIsWholeItems | tools/microros/htif_proxy.py:316-353 | with the lock, the target's input is always a sequence of whole items and the beginning of one more |
| HtifLink.ContentIsAllIff | tools/microros/htif_proxy.py:340-353 | the target can take everything that is sent if and only if no chunk exceeds 1024 octets |
| HtifLink.LinkDelivers | samples/micro_ros_multinode/src/transport_htif.c:188-222 | however the two writers interleave and however the reader slices its reads, the octets read are a prefix of the chunks of 1 to 1024 octets in the order sent; once all is consumed and drained they are those chunks whole, and everything that was sent if and only if no chunk is longer |
| HtifLink.LinkCompletes | tools/microros/htif_proxy.py:316-353 | for any items in any order there are turns of the writers and reads after which every chunk of 1 to 1024 octets has been read |
| TopicLog.BodyRoundTrip | tools/microros/topic_log_decoder.py:90-98 | a record is decoded to the name and payload it was built from |
| TopicLog.DecodeRoundTrip | tools/microros/topic_log_decoder.py:90-98 | every frame that decodes is the body of the record it decodes to |
| WireLaws.RecordOctets | lib/microros_local/src/broker.c:287-319 | a record is the length of its name, the name and the payload |
| TopicLog.Emitter.LogTopicEmit | lib/microros_local/src/broker.c:287-319 | the octets emitted are the encoding of the record, the CRC kept incrementally being that of the whole body; nothing when quiesced, without a device or with a long name |
| TopicLog.HdlcParser.Feed | tools/microros/topic_log_decoder.py:51-87 | one octet is one step of the log-decoder variant of the parser, re-emitted text included |
| TopicLog.ConsoleSeparated | tools/microros/topic_log_decoder.py:42-87 | any mixture of records and text free of 0x7E is separated exactly and in order |
| TopicLog.LogRecovered | tools/microros/topic_log_decoder.py:42-98 | the decoder recovers exactly the (name, payload) pairs and exactly the text |
| BrokerTables.Find | lib/microros_local/src/broker.c:161-170 | the first slot in use with this session and id, or none |
| BrokerTables.Alloc | lib/microros_local/src/broker.c:201-216 | the entity's own slot, else the first free one, else none; no other slot changes |
| BrokerTables.RegisterIsUpdate | lib/microros_local/src/broker.c:172-216 | a table is a map from (session, id): registering keeps entries unique and sets one entry when it is known or a slot is free, and otherwise changes nothing |
| BrokerThread.ReadCdrString | lib/microros_local/src/broker.c:557-578 | the string kept is the first 63 characters up to a zero, and it fails exactly on a short or empty field |
| BrokerThread.BrokerThread.NextSeqFor | lib/microros_local/src/broker.c:343-353 | returns and bumps, modulo 2^16, the counter of the stream's class in that session and no other |
| BrokerThread.BrokerThread.HandleCreateClient | lib/microros_local/src/broker.c:499-538 | activates the session with its own id and key, zeroes its counters, and answers with that id |
| BrokerThread.BrokerThread.HandleCreate | lib/microros_local/src/broker.c:625-698 | the creation the specification describes, in place: what it registers is stated by BrokerLaws.CreateTopic, CreateWriter, CreateReader and CreateOther; it answers OK in every case, a full table included |
| BrokerLaws.CreateReader | lib/microros_local/src/broker.c:665-686 | a reader id with a blob of two octets or more is looked up as the topic id in its first two, when it is known or a slot is free; any other reader, and the two other tables, are as they were |
| BrokerLaws.CreateWriter | lib/microros_local/src/broker.c:651-664 | the same for writers |
| BrokerLaws.CreateTopic | lib/microros_local/src/broker.c:637-650 | the same for topics, under the first min(len - 1, 63) characters of the blob's string, up to a zero |
| BrokerLaws.CreateOther | lib/microros_local/src/broker.c:625-698 | any other kind, and a representation that is missing, too short or inconsistent, registers nothing |
| BrokerLaws.StatusMirrorsStream | lib/microros_local/src/broker.c:398-424 | creations and deletions are answered with status OK on the stream of the request, or on 0x80, echoing session id and key |
| BrokerLaws.InfoEchoesHeader | lib/microros_local/src/broker.c:426-471 | an information request is answered on stream 0 with the session id and key of its message's header |
| BrokerLaws.HeartbeatClaimsAll | lib/microros_local/src/broker.c:822-856 | a heartbeat is answered on stream 0, number 0, by claiming everything up to its last number, modulo 2^16 |
| BrokerLaws.OnlyTouches | lib/microros_local/src/broker.c:499-856 | only a creation touches the tables, only a write the log, and only the creation of a client which sessions are active, their ids and their keys |
| BrokerThread.BrokerThread.SendDataTo | lib/microros_local/src/broker.c:719-754 | nothing to an inactive session; otherwise one delivery with the target's id, key and counter |
| BrokerThread.BrokerThread.HandleWriteData | lib/microros_local/src/broker.c:756-820 | the loop over the reader table is the specified fan-out, after one log record; nothing when the writer or its topic does not resolve |
| BrokerThread.BrokerThread.Receive | lib/microros_local/src/broker.c:877-972 | one turn of the loop on the octets of a message: header, acknowledgement of a reliable message, then each whole submessage as its handler reads it, in order and with the header then current; a message of fewer than four octets changes nothing |
| BrokerThread.BrokerThread.HandleSubs | lib/microros_local/src/broker.c:908-972 | the submessage loop handles exactly the whole submessages that are decoded from an offset on |
| WireLaws.HeaderOctets | lib/microros_local/src/broker.c:884-900 | the header by octets: session id, stream, number low octet first, and the key only for session ids below 0x80 |
| WireLaws.SubmessageOctets | lib/microros_local/src/broker.c:908-935 | a submessage starts on the next multiple of four with id, flags and a length, low octet first; when it is whole and what it holds |
| WireLaws.HandlerOctets | lib/microros_local/src/broker.c:491-972 | which octets of a submessage give each handler its request, object, key, payload and numbers |
| WireLaws.BlobOctets | lib/microros_local/src/broker.c:580-623 | the representation is read for topics, writers and readers in the binary format, with its length at octet 8 |
| BrokerOctets.SubRoundTrip | lib/microros_local/src/broker.c:491-856 | what each handler reads of a submessage is what a client wrote, whatever follows it in the message |
| BrokerOctets.MessageRoundTrip | lib/microros_local/src/broker.c:884-972 | a message written with its header and framed submessages is decoded to itself |
| BrokerRuns.RunSound | lib/microros_local/src/broker.c:161-353 | over every run: entries unique, of their own kind and of a real session, names short; every counter is the number of replies of its class since the session was created and every reply carries its place in that count, modulo 2^16 |
| BrokerLaws.RunTables | lib/microros_local/src/broker.c:161-216 | the same by slots: kind, session, name and no entity twice |
| BrokerLaws.RunNumbers | lib/microros_local/src/broker.c:343-353 | the same by replies: a number is how many replies of its class its session was sent before it since it was created, modulo 2^16; acknowledgements do not count |
| BrokerRuns.FanOutExact | lib/microros_local/src/broker.c:777-809 | by induction over the reader table: exactly one delivery for each wanted reader, none for any other, the rest of the state unchanged |
| BrokerRuns.WantedIsSubscribed | lib/microros_local/src/broker.c:777-809 | being wanted by a slot is the same as being found by lookup with a topic of that name in the reader's own session |
| BrokerRuns.WriteDelivers | lib/microros_local/src/broker.c:756-820 | a write that resolves logs one record and builds exactly one delivery, with its payload and the target's own session id and key, for each subscribed reader of an active session; one that does not resolve changes nothing |
| BrokerLaws.PublishedIs | lib/microros_local/src/broker.c:756-775 | the name published under is the one in the slot of the topic that is in the writer's slot, both of the writer's session |
| BrokerLaws.SubscribedIs | lib/microros_local/src/broker.c:777-809 | a reader is subscribed when its slot holds a topic of its own session, whose slot has that name, and that session is active |
| BrokerLaws.FirstWriteDelivered | lib/microros_local/src/broker.c:499-820 | from the initial state, a message that creates a client, a topic, a writer and a reader on the topic and writes: exactly one delivery, of that payload to that reader under the session's id and key, and exactly one record |
| BrokerRuns.AcknowledgedFirst | lib/microros_local/src/broker.c:900-906 | a message on a reliable stream is acknowledged before anything else it causes, with the number after its own |
| BrokerLog.RunLogDecodes | lib/microros_local/src/broker.c:771-775 | after any run, the records written on a console shared with flag-free text are decoded to exactly the broker's log and the text |
| BrokerWire.PutSubheader | lib/microros_local/src/broker.c:355-366 | pads to a multiple of four and appends the subheader, for any buffer length |
| BrokerWire.NextSub | lib/microros_local/src/broker.c:909-935 | the next whole submessage and where it ends, or none; the padding always fits |
| BrokerWire.ParseSubs | lib/microros_local/src/broker.c:908-972 | the framing loop finds exactly the whole submessages and stops at the first that is not |
| BrokerWire.FramingRoundTrip | lib/microros_local/src/broker.c:355-366 | submessages framed from any offset are read back as they were, in order |
| BrokerWire.TruncatedIsPrefix | lib/microros_local/src/broker.c:908-930 | of a message cut short, the submessages read are a prefix of those of the whole |
| Loopback.Queues.Open | lib/microros_local/src/transport_loopback.c:54-64 | empties both queues of a valid session and no other, and enters a purge in its history |
| Loopback.Queues.Write | lib/microros_local/src/transport_loopback.c:72-89 | all of the message at the end of the queue, or nothing on a bad session, an oversized message or a full queue |
| Loopback.Queues.Read | lib/microros_local/src/transport_loopback.c:91-106 | the oldest message, cut to the caller's buffer, is taken and joins what the client has got |
| Loopback.Queues.RecvAny | lib/microros_local/src/transport_loopback.c:110-142 | session i is served if and only if it polled ready and has a message and no lower session does; its oldest message is taken and nothing else changes |
| Loopback.ServedIff | lib/microros_local/src/transport_loopback.c:129-138 | in every turn of any run a session is served if and only if it has a message and no lower session has |
| Loopback.LowestStarvesOthers | lib/microros_local/src/transport_loopback.c:124-138 | while session 0 gets a message before each turn, no number of turns serves another, and what waits for the others waits on |
| Loopback.Queues.Send | lib/microros_local/src/transport_loopback.c:144-150 | queued if and only if the session is valid and there is room |
| LoopbackTraffic.TrafficInOrder | lib/microros_local/src/transport_loopback.c:54-150 | in any interleaving of sends, reads and opens: the messages the client got and those queued are, in order, messages that were sent, and every message is kept, refused by a full queue or purged, and only one of these |
| LoopbackTraffic.EventMeans | lib/microros_local/src/transport_loopback.c:54-150 | every message offered counts as sent; it is refused exactly when 32 wait, and an open purges exactly those that wait |
| LoopbackTraffic.NothingElseMissing | lib/microros_local/src/transport_loopback.c:91-150 | every message between two that the client read one after the other was refused or purged |
| LoopbackTraffic.NothingMissing | lib/microros_local/src/transport_loopback.c:91-150 | when none was, what the client got followed by what is queued is all that was sent |
| LoopbackReplies.ClientReadsInOrder | lib/microros_local/src/broker.c:343-353 | whatever traffic, opens included, came before: what the client has read is, in order, what was sent, and every reply it has read since its session was created is the one built at that place, with its place in its stream class modulo 2^16 as number, whichever session caused it |
| LoopbackReplies.QueuesReadInOrder | lib/microros_local/src/transport_loopback.c:91-150 | the same of the queues themselves, whose history is such traffic |
| Kf3Filter.Kf3.constructor | samples/rose_flight_controller/src/estimator_ekf.hpp:43-50 | the initial filter, as a matrix |
| Kf3Filter.Kf3.Predict | samples/rose_flight_controller/src/estimator_ekf.hpp:54-85 | position and velocity move with the acceleration less the bias, and the six scalars afterwards are the upper triangle of F P F' + Q |
| Kf3Filter.Kf3.UpdatePos | samples/rose_flight_controller/src/estimator_ekf.hpp:97-115 | the sample is used if and only if there is no gate or (meas - p)^2 <= gate * (P00 + r); one not used changes nothing; otherwise the scalars are the upper triangle of (I - K H) P with K = P H' / S, H picking position |
| Kf3Filter.Kf3.UpdateVel | samples/rose_flight_controller/src/estimator_ekf.hpp:118-136 | the same with H picking velocity and (meas - v)^2 <= gate * (P11 + r) |
| KalmanLaws.UpdatedIff | samples/rose_flight_controller/src/estimator_ekf.hpp:87-115 | a sample is used if and only if there is no gate or its squared innovation is within gate times its variance; otherwise nothing changes |
| KalmanLaws.GateIsEven | samples/rose_flight_controller/src/estimator_ekf.hpp:92-95 | samples equally far above and below the estimate are both used or both rejected |
| KalmanLaws.ObservedIsMean | samples/rose_flight_controller/src/estimator_ekf.hpp:105-113 | the observed coordinate ends at the mean of estimate and sample weighted by each other's variance, with the variance of that mean |
| KalmanLaws.StateCorrected | samples/rose_flight_controller/src/estimator_ekf.hpp:105-106 | every coordinate moves by its covariance with the observed one over the variance of the innovation, times the innovation |
| KalmanLaws.VarianceFalls | samples/rose_flight_controller/src/estimator_ekf.hpp:107-113 | the variance of any combination of the state falls by the square of its covariance with the innovation over the variance of the innovation |
| KalmanLaws.PredictionsCompose | samples/rose_flight_controller/src/estimator_ekf.hpp:54-60 | predicting over two periods moves the state as predicting once over both |
| KalmanLaws.VarianceMoves | samples/rose_flight_controller/src/estimator_ekf.hpp:62-85 | the variance of any combination of the state after a prediction: that of the combination looked back, plus acceleration and bias noise |
| Kalman.PredictedHealthy | samples/rose_flight_controller/src/estimator_ekf.hpp:54-85 | prediction keeps the covariance positive semidefinite, for any time step |
| Kalman.CorrectedHealthy | samples/rose_flight_controller/src/estimator_ekf.hpp:97-136 | a correction with positive variance divides by a positive S and keeps the covariance positive semidefinite |
| KalmanGain.GainOptimal | samples/rose_flight_controller/src/estimator_ekf.hpp:105-113 | no gain whatsoever gives a smaller error covariance in any direction, and the gain used attains the minimum: (I - K H) P is the covariance after it |
| KalmanRuns.InitialHealthyIff | samples/rose_flight_controller/src/estimator_ekf.hpp:43-50 | the initial covariance is positive semidefinite if and only if the initial bias variance is not negative |
| KalmanRuns.DivisorsPositive | samples/rose_flight_controller/src/estimator_ekf.hpp:97-136 | in every state reached from init by any operations, gated or not, every divisor is positive |
| KalmanRuns.CouplingNeverPositive | samples/rose_flight_controller/src/estimator_ekf.hpp:54-136 | on an axis fed only by predictions and velocity updates, P12 is at most zero in every state |
| KalmanRuns.PredictRaisesVariance | samples/rose_flight_controller/src/estimator_ekf.hpp:54-85 | there, each prediction raises P11 by at least the process noise |
| KalmanRuns.DropoutRaisesWeight | samples/rose_flight_controller/src/estimator_ekf.cpp:54-63 | so a prediction without a correction gives the next flow sample strictly more weight |
| KalmanRuns.RejectionRunBounded | samples/rose_flight_controller/src/estimator_ekf.hpp:87-94 | a run of n consecutive gate rejections with innovations of at most B satisfies n * gate * sigma_a^2 * dt^2 < B^2 |
| Quaternion.NormMultiplies | samples/rose_flight_controller/src/attitude_mahony.hpp:60-65 | the squared norm of a product is the product of the squared norms |
| Quaternion.HamiltonRules | samples/rose_flight_controller/src/attitude_mahony.hpp:60-63 | i^2 = j^2 = k^2 = ijk = -1 for the product the integration uses |
| Quaternion.ProductByVectors | samples/rose_flight_controller/src/attitude_mahony.hpp:60-63 | its scalar and vector parts by the two products of vectors |
| Quaternion.RotOrthonormal | samples/rose_flight_controller/src/attitude_mahony.hpp:70-75 | the matrix of a unit quaternion is orthonormal with determinant one |
| Quaternion.RotConjugates | samples/rose_flight_controller/src/attitude_mahony.hpp:70-75 | and it is the rotation v -> q v q^-1 |
| Mahony.MahonyAttitude.Update | samples/rose_flight_controller/src/attitude_mahony.hpp:41-67 | the quaternion afterwards is the product with (1, w dt / 2), normalised, where w is the gyro rate plus, while the acceleration is within half of g of it, kp (1 - off / 4.905) times measured cross predicted vertical; without trim or tilt w is the gyro rate |
| Mahony.MahonyAttitude.SetYaw | samples/rose_flight_controller/src/attitude_mahony.hpp:35-38 | the level unit quaternion whose rotation is the one by psi about the vertical |
| Mahony.HeadingIsYaw | samples/rose_flight_controller/src/attitude_mahony.hpp:31-38 | half the heading in the quaternion is the whole heading in the matrix, by the half-angle formulas |
| Mahony.StepNorm | samples/rose_flight_controller/src/attitude_mahony.hpp:60-65 | the squared norm before normalising is 1 + dt^2 norm(w)^2 / 4 |
| Mahony.AdvancedUnit | samples/rose_flight_controller/src/attitude_mahony.hpp:41-67 | so the division guard is always taken and the quaternion stays unit |
| Mahony.RunIsRotation | samples/rose_flight_controller/src/attitude_mahony.hpp:41-75 | after any sequence of inputs the quaternion is unit and its matrix a rotation |
| Mahony.TrimKeepsHeading | samples/rose_flight_controller/src/attitude_mahony.hpp:50-57 | the gravity trim has no component about the predicted world vertical |
| Mahony.TrimImprovesIff | samples/rose_flight_controller/src/attitude_mahony.hpp:44-66 | without body rate, a trimmed update brings the predicted vertical no further from the measured direction if and only if the step does not overshoot |
| Mahony.TrimNeverWorsens | samples/rose_flight_controller/src/attitude_mahony.hpp:20-67 | with the filter's own gain that is so for every time step up to four seconds |
| Estimator.EkfEstimator.constructor | samples/rose_flight_controller/src/estimator_ekf.cpp:10-35 | three filters with the same settings, at the given positions, and the identity attitude |
| Estimator.EkfEstimator.SetInitYaw | samples/rose_flight_controller/src/estimator_ekf.hpp:142 | the heading is calibrated and the filters of the axes are as they were |
| Estimator.EkfEstimator.Update | samples/rose_flight_controller/src/estimator_ekf.cpp:37-71 | an acceleration that is 9.81 times the body vertical gives world acceleration zero, and what is felt beyond that, turned into the world, is the world acceleration; every axis predicts with it; x and y take the rotated flow as velocity, z the height as position, each only when fresh and with its own variance and gate |
| Estimator.EkfEstimator.FuseWalls | samples/rose_flight_controller/src/estimator_ekf.cpp:73-89 | each horizontal axis takes half the wall difference as an ungated position, only when both its walls are in range; z takes nothing |
| Estimator.EkfEstimator.GetState | samples/rose_flight_controller/src/estimator_ekf.cpp:91-125 | the position and velocity reported are each filter's own prediction run ahead by the delay, the attitude the Rodrigues parameters of the unit quaternion integrated over it, the rate the body rate turned into the world |
| Estimator.EstimatorHealthy | samples/rose_flight_controller/src/estimator_ekf.cpp:10-89 | in every state of the estimator the three covariances are positive semidefinite and every divisor positive |
| Estimator.FlowAxisCoupling | samples/rose_flight_controller/src/estimator_ekf.cpp:50-63 | a horizontal axis that has seen only predictions over non-negative time steps and flow has P12 at most zero |
| Pipeline.CommandsAt | samples/rose_flight_controller/src/main.cpp:442-468 | the n-th command intended is the one in force after n frames |
| Pipeline.HeldCommand | samples/rose_flight_controller/src/main.cpp:448-468 | the n-th command is the solve made at the last multiple of DIV at or before n, from the estimate of that tick; before the first solve it is zero |
| Pipeline.SolveFollowsSolve | samples/rose_flight_controller/src/main.cpp:448-468 | each solve starts from the workspace the solve DIV ticks earlier left |
| Pipeline.FramesAre | samples/rose_flight_controller/src/main.cpp:396-419 | the frames are the successful reads, in order |
| PipelineThreads.Always | samples/rose_flight_controller/src/main.cpp:396-468 | the invariant holds in every state of every schedule of the three threads |
| PipelineThreads.OneToken | samples/rose_flight_controller/src/main.cpp:396-468 | there is exactly one hand-off token and no semaphore give is ever dropped |
| PipelineThreads.NoDeadlock | samples/rose_flight_controller/src/main.cpp:396-468 | until the IO block finishes exactly one thread can move, mutexes included; after that none can |
| PipelineThreads.SentSoFar | samples/rose_flight_controller/src/main.cpp:396-419 | at every moment the commands sent are a prefix of those intended for the frames read so far |
| PipelineThreads.FairFinishes | samples/rose_flight_controller/src/main.cpp:396-468 | every schedule that keeps giving each thread a turn finishes, with exactly the intended commands sent, which for DIV = 1 are those the single loop sends |
| PipelineThreads.SingleLoop | samples/rose_flight_controller/src/main.cpp:513-530 | the single loop sends the commands intended for DIV = 1 |
| DronePackets.SendStatesAll | samples/drone_control/scripts/pybullet_hil_mt_binary_sweep_forces.py:62-68 | the packet built is header, count and states in order; more than 255 states cannot be packed |
| DroneLaws.PacketOctets | samples/drone_control/scripts/pybullet_hil_mt_binary_sweep_forces.py:62-68 | a packet is DE AD BE EF, the number of states, and float j of drone k at octets 5 + 48 k + 4 j to 5 + 48 k + 4 j + 3 |
| DronePackets.ReaderLoop | samples/drone_control/src/main_mt_binary.cpp:206-245 | the nested reading loops do what the octet-by-octet reader does, on any stream |
| DroneLink.GarbageRun | samples/drone_control/src/main_mt_binary.cpp:212-218 | on octets without a header the match never completes and is a suffix that begins one |
| DroneLink.PacketRun | samples/drone_control/src/main_mt_binary.cpp:219-245 | from any partial match a packet is received exactly: its states in order with at most four drones, skipped whole with more, aligned after it |
| DroneLaws.PacketActs | samples/drone_control/src/main_mt_binary.cpp:219-245 | what a packet of at most four states does: for each drone in order its twelve words and then its flag |
| DroneLaws.HeaderFreeIff | samples/drone_control/src/main_mt_binary.cpp:212-218 | octets are free of a header when no four consecutive ones are DE AD BE EF |
| DroneLink.StreamReceived | samples/drone_control/src/main_mt_binary.cpp:206-245 | after any prefix without a header, any packets are received exactly, in order, whatever octets the states contain |
| Mailbox.ReaderProgram | samples/drone_control/src/main_mt_binary.cpp:231-243 | what the reader does to one mailbox is to write the states its packets carry for it, in order |
| MailboxRuns.Always | samples/drone_control/src/main_mt_binary.cpp:146-157 | the invariant of reader and worker in every interleaving, copies taken octet by octet in any order |
| MailboxRuns.LastSolveIsLastState | samples/drone_control/src/main_mt_binary.cpp:146-157 | at most one solve for each state; and when the reader is between states, the flag is down and the worker spins, the last solve used exactly the last state written |
| MailboxRuns.HeldWord | samples/drone_control/src/main_mt_binary.cpp:146-157 | the copy solved for holds word i of the state at octets 4 i to 4 i + 3 |
| MailboxRuns.LastSolveFromWire | samples/drone_control/src/main_mt_binary.cpp:206-245 | the same, from the octets on the wire |
| MailboxRuns.AllSolved | samples/drone_control/src/main_mt_binary.cpp:146-157 | for any states there are interleavings in which the worker solves for every one of them, in order |

## Left out

- Zephyr's kernel and drivers, device tree, PWM, I2C and printk: streams, bounded queues, binary
  semaphores and mutexes stand for them.
- microCDR's buffer type, and the octets of replies: messages from clients are read octet by octet,
  a reply is its header and its meaning.
- Outgoing broker messages are taken to fit a queue slot.
- BrokerThread.BrokerThread.Receive: does not cover submessages whose length field is shorter than
  what their handler reads, nor messages too short for the header they announce: what is read then
  is up to microCDR, which is not part of this model.
- The broker's quiesce switch is modelled in the topic emitter only; the broker is taken to be
  running with its log device ready.
- Broker liveness, and whether an acknowledgement reaches a client whose queue is full.
- The 50 ms wait of a full queue is its outcome: room was found by then, or the message is dropped.
- The RVV intrinsics, the matrix and convolution units, TinyMPC and Eigen: contracts or arbitrary
  functions stand for them.
- ConvPaths.Golden: a null bias pointer is not modelled; the bench never passes one.
- ConvRun.BenchRunShape: the generated data, cycle counts and printed line; it needs the
  accumulator bound |bias| + K*2^14 < 2^31, since outside it the source overflows a signed integer.
- Floating-point rounding, infinities and NaN in the estimators and the matrix library, and the
  evaluation of square root, cosine and sine.
- MatlibTiled.Matmul: tile sizes of zero, with which the source does not terminate, and negative
  ones other than -1.
- PipelineThreads.FairFinishes: element-by-element copies under a mutex are one step, since the
  invariant shows that nobody else can be at the buffer; the lockstep co-simulation and its known
  deadlock, the keepalive thread and printed status lines are not modelled.
- Fairness of the kernel's scheduler: it is a hypothesis of `PipelineThreads.FairFinishes`.
- MailboxRuns.LastSolveIsLastState: memory is sequentially consistent; a weaker ordering between
  the state's words and the flag is not modelled.
- TopicLog.BodyRoundTrip: names stay octets; the decoder's replacement of malformed UTF-8 does not
  appear.
- The exactness of text that the log decoder re-emits from a bad frame, and of target text between
  frames that the proxy swallows: both are modelled as the code has them and nothing is claimed.
- Partial writes to a pipe, process plumbing, simulation, plotting, generators and the executor
  runner.
- The vision hand-off, throttle parsing and motor control samples, which would only add easy
  members.
