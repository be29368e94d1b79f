# Camera streamer: verified models of the protocol and control cores

The device streams two cameras to a host over one USB bulk pipe, takes control requests and software
updates back over the same pipe, restarts sessions in place when the host reconnects, and programs
image sensors through a kernel driver. This project models the parts of that system whose correctness
depends on several pieces agreeing, and proves what they promise.

| file | what it models |
|---|---|
| bytes.dfy, secure_record.dfy | network-order integers; the AEAD record layer with its implicit nonce counter (RFC 8439, section 2.8; nonces as in RFC 8446, section 5.3) |
| secure_wire.dfy | one record on the wire, framing, padding removal |
| record_writer.dfy, host_bridge.dfy | the device's outbound queue and writer thread; the host's reassembly and demultiplexing |
| transport.dfy, video_sink.dfy | both ends and the link as one concurrent system, interleaved one lock region or one transfer at a time; video frames cut into records |
| demux.dfy, handshake.dfy | the device's inbound loop, where handshakes and records share a stream; hello codecs, key schedule, both ends of the handshake |
| control_lines.dfy | control requests reassembled into lines, and their replies |
| swupdate.dfy, upload.dfy | the install state machine with any number of threads; the upload pump |
| watchdog.dfy, snapshot.dfy | the stall watchdog; the snapshot raster |
| sensor_timing.dfy, sensor_driver.dfy, sensor_tables.dfy | exposure and frame timing arithmetic, the driver's entry points, the tables of 26 sensors |

Objects that the program updates in place are classes whose methods are proved against functions of
the old state; the results about those functions are lemmas. Threads are interleaved atomic steps, one
per lock region. The cipher, ECDH, signatures, certificates and HKDF are functions with stated laws,
and each set of laws comes with an instance that meets it. Endpoints, sockets and timers are choices of
the environment.

## What the proofs found

- A cipher-library failure after the counter has moved (`SecureRecord.cpp:42-60`) makes the next record
  unopenable for the peer, and a host that has drained its input has failed exactly when that record
  has arrived (`FailsExactlyWhen`); without such a failure nothing is lost (`EndToEnd`, `NothingDropped`).
  The video sink and the pump know this and mark the session dead (`SecureUsbServer.cpp:458`, `306`).
  The control-reply path and the metadata sink ignore the refusal (`246-249`, `476-480`), so there the
  device goes on sending to a host that has given up, until its silence watchdog ends the session
  (`OneFailureLosesAMessage`).
- Zero padding in front of a record is removed exactly only if the record is at most 255 bytes long
  (`PaddingRemovedExactly`); the comment on the loop does not say so.
- With no session live, a hello whose first four bytes do not arrive together is thrown away
  (`SplitHello`).
- A control reply over 65534 bytes is dropped without a trace, because the tunnel ignores the result of
  its enqueue callback (`RepliesQueued`).
- Without swupdate's progress socket, six idle answers asked for without a pause are reported as a
  successful install that never started (`SuccessWithoutStart`).
- A face box with a side of one pixel, or with exactly one positive side, is outlined outside itself
  (`OutlineStaysInBox`).
- Three sensors keep a fixed exposure limit. The IMX226's exceeds both VMAX and, above 42949672 Hz, the
  trigger counter (`Imx226OutOfRange`, `Imx226TriggerCount`); the OV7251's is safe only up to a pixel
  clock of 50593092 Hz (`Ov7251InRange`); the OV9281's is always safe (`Ov9281InRange`).
- A change of binning recomputes no limits; an IMX565 request then drives VMAX out of its register
  (`StaleAfterBinning`).

- In self-trigger mode the 32-bit retrigger count is cut when the frame time has too many ticks, and the
  lower bound of the frame rate is 0: an IMX296 at 54 MHz asked for a frame in 1000 seconds is told to
  wait 45.6 (`SelfFrameTooLong`); `SelfExposed` gives the exact condition.
- A host that restarts while the device holds part of a record has its hello taken for the rest of that
  record (`HelloBehindPartial`); only a later one, after the session has ended on it, is answered. The
  comment above `serve_session` (`SecureUsbServer.cpp:827-828`) promises detection without that limit.

## Main results

1. `Transport.EndToEnd`, `AllDelivered`, `AlwaysDeliverable`: under every interleaving of producers,
   writer, link and host, what the host decodes is what was accepted, unaltered and in order.
2. `Transport.FailsExactlyWhen`, `DecodedIsIntact`: where that guarantee ends, and that nothing wrong is
   decoded beyond it.
3. `Transport.LosslessAccepted`, `PayloadConserved`, `QueueAccounts`, `NothingDropped`: what became of
   every offer, and that a queue that never fills drops nothing; `EnqueueIsSteps` ties the class that is
   called to that system. `LosslessDelivered`: replies and update
   answers arrive in the order offered, whoever else queues.
4. `VideoSinks.StreamIntact`: then a camera's decoder is fed exactly its frames' bytes.
5. `Demux.UniqueDecoding`, `DecodedUpToError`: handshakes and records share one stream and are told
   apart however the link cuts it.
6. `Demux.AlwaysLifecycle`, `EveryRoundLifecycle`: decryption state, session and workers live and die
   together, between reads and within one.
7. `Handshakes.HandshakeAgrees`, `AcceptanceMeansAgreement`, `ReconnectDelivers`: both ends hold the same
   keys, whatever the link did, and a reconnecting host is served. `SessionIsTheHosts`,
   `SessionReachesHost`: each end seals with what the other opens with, in both directions.
8. `ControlLines.OnlyConcatenationMatters`, `RepliesQueued`: control lines and replies do not depend on
   how requests were packed.
9. `Swupdate.AlwaysExclusive`, `OneVerdictPerJob`, `VerdictIsEarned`: one job at a time, one verdict each,
   and what every verdict, success or failure, rests on. `StatusFollows`: what is shown meanwhile.
10. `Uploads.UploadConserved`: a positive answer means exactly the announced bytes.
11. `Watchdog.DeadExactlyWhen`: when a mount is given up.
12. `SensorTables.EveryRunFromSetUp`, `EverySonySensorInRange`: VMAX and SHS after any run of settings, for
    every sensor and every mode that counts lines, SYNC included.
13. `SensorTiming.SonyRealised`, `SelfExposed`, `SensorTables.EverySelfRunFromSetUp`: programmed counts
    realise the requested times, in self-trigger mode exactly when 32 bits can count them.

## Model

| member | source | states |
|---|---|---|
| SecureRecords.TaggingCipherIsIdeal | embedded/src/camera/secure/SecureRecord.cpp:33-90 | the laws assumed of the AEAD (length, opening what was sealed, a working receiving library) have an instance |
| SecureRecords.NonceDigit | embedded/src/camera/secure/SecureRecord.cpp:25-31 | each of the last eight nonce bytes is the IV byte XORed with the shifted counter, so the loop is the big-endian XOR of RFC 8446 section 5.3 |
| SecureRecords.XorBit | embedded/src/camera/secure/SecureRecord.cpp:25-31 | a bit of that XOR is set exactly where the two bits differ |
| SecureRecords.NoncesDistinct | embedded/src/camera/secure/SecureRecord.cpp:25-31 | distinct 64-bit counters give distinct nonces, all with the IV's first four bytes |
| SecureRecords.SecureRecord.NextNonce | embedded/src/camera/secure/SecureRecord.cpp:25-31 | the in-place loop yields that nonce and advances the counter, wrapping at 2^64 |
| SecureRecords.SecureRecord.Seal | embedded/src/camera/secure/SecureRecord.cpp:33-60 | length check first; the counter moves exactly when a nonce was taken, also if the library then fails |
| SecureRecords.SecureRecord.Open | embedded/src/camera/secure/SecureRecord.cpp:62-90 | the same discipline on opening |
| SecureRecords.SealingExactly | embedded/src/camera/secure/SecureRecord.cpp:33-60 | each outcome of sealing if and only if its cause, the text sealed under the nonce of the counter, and where the counter goes |
| SecureRecords.OpeningExactly | embedded/src/camera/secure/SecureRecord.cpp:62-90 | the same of opening: length, library, authenticity |
| SecureRecords.SealedOpens | embedded/src/camera/secure/SecureRecord.cpp:33-90 | at equal counters what was sealed opens, and both ends stand at the next counter |
| Bytes.HeaderRoundTrip | common/secure/SecureWire.cpp:85-90 | the four-byte length prefix reads back as the length |
| Bytes.U32RoundTrip | common/secure/SecureWire.cpp:39-41 | and every four bytes are the prefix of the length they read as |
| SecureWire.MakeWireRecord | common/secure/SecureWire.cpp:70-93 | built record, error and new counter, case by case |
| SecureWire.OpenWireRecord | common/secure/SecureWire.cpp:95-116 | opened message, error and new counter, case by case |
| SecureWire.WireBuffer.Append | common/secure/SecureWire.cpp:10-12 | bytes go to the end of the buffer |
| SecureWire.WireBuffer.StartsWith | common/secure/SecureWire.cpp:14-20 | true exactly when the buffer begins with the prefix |
| SecureWire.WireBuffer.SkipZeroPadding | common/secure/SecureWire.cpp:22-30 | removes all leading zeros but three, and none if there are fewer than four |
| SecureWire.WireBuffer.Consume | common/secure/SecureWire.cpp:32-34 | drops what is asked, or all there is |
| SecureWire.WireBuffer.Next | common/secure/SecureWire.cpp:36-68 | waits, rejects or takes exactly one record off the front |
| SecureWire.FramesExactly | common/secure/SecureWire.cpp:36-68 | in numbers: lengths from 17 to 65553 are waited for and taken whole, all others rejected |
| SecureWire.NextFrameStable | common/secure/SecureWire.cpp:36-68 | later bytes never change a framing decision already taken |
| SecureWire.PaddingOfSuffix | common/secure/SecureWire.cpp:22-30 | removing padding byte by byte is removing it at once |
| SecureWire.MakeRecordSucceeds | common/secure/SecureWire.cpp:73-84 | barring a library failure, a record is made exactly for payloads up to 65534 bytes; a rejection moves no counter; the size check after sealing never fires |
| SecureWire.RecordRoundTrip | common/secure/SecureWire.cpp:36-116 | every record made passes both receive-side checks and opens to the same message |
| SecureWire.RecordLayout | common/secure/SecureWire.cpp:70-93 | the bytes of a record: its length, most significant byte first, then channel number, stream and payload sealed |
| SecureWire.OpensExactly | common/secure/SecureWire.cpp:95-116 | a record opens to a message if and only if its length is right, its text authentic and its channel one of the four; a wrong length moves no counter |
| SecureWire.PartialRecordWaits | common/secure/SecureWire.cpp:36-62 | part of a record is waited for and loses nothing to padding removal |
| SecureWire.HeaderNotPadding | common/secure/SecureWire.cpp:22-30 | padding removal is a no-op at a record |
| SecureWire.PaddingRemovedExactly | common/secure/SecureWire.cpp:22-30 | padding before a record is removed exactly if and only if there is none or the record is at most 255 bytes |
| HostBridge.DrainThenMore | host-ui/secureusbbridge.cpp:309-363 | for any bytes at all, draining in pieces equals draining at once, errors included |
| HostBridge.DrainTakesAll | host-ui/secureusbbridge.cpp:345-397 | complete records decode to their messages, in order, leaving what follows |
| HostBridge.DrainOfPrefix | host-ui/secureusbbridge.cpp:345-397 | of any prefix of a sealed stream exactly the complete records are decoded, and nothing fails |
| HostBridge.DrainOfStream | host-ui/secureusbbridge.cpp:345-397 | with arbitrary bytes behind the records, nothing fails before all of them are decoded |
| HostBridge.DrainLeaves | host-ui/secureusbbridge.cpp:345-363 | a drain that did not fail leaves less than a record, with a legal length if there is one |
| HostBridge.RoutedOne | host-ui/secureusbbridge.cpp:376-395 | a message goes to the decoder of its own camera or the client of its own channel, and to nobody else |
| HostBridge.RoutedJoin | host-ui/secureusbbridge.cpp:376-395 | and of several each consumer gets its own, in order |
| HostBridge.SecureUsbBridge.ReaderAppend | host-ui/secureusbbridge.cpp:328-340 | the reader thread's lock region |
| HostBridge.SecureUsbBridge.Deliver | host-ui/secureusbbridge.cpp:376-395 | the consumer that wants the message has it added if it is there and the write succeeds, and is closed if the write fails; the others are untouched |
| HostBridge.SecureUsbBridge.DrainInbound | host-ui/secureusbbridge.cpp:345-397 | the loop is the draining function, false exactly when the session must end; every consumer took a prefix of its own route, all of it if it is still open, so none ever costs another a message |
| RecordWriters.EndpointWriteAll | embedded/src/camera/secure/SecureUsbServer.cpp:91-104 | through partial writes and interruptions a prefix is taken, all of it on success |
| RecordWriters.RecordWriter.CheckLimit | embedded/src/camera/secure/SecureUsbServer.cpp:134-140 | drops before sealing, and only droppable data at the limit |
| RecordWriters.RecordWriter.PushRecord | embedded/src/camera/secure/SecureUsbServer.cpp:144-148 | record and its size join queue and total |
| RecordWriters.RecordWriter.PopRecord | embedded/src/camera/secure/SecureUsbServer.cpp:161-169 | the oldest record and its size leave |
| RecordWriters.RecordWriter.Enqueue | embedded/src/camera/secure/SecureUsbServer.cpp:131-149 | both regions and the seal between them: at 4 MiB droppable data changes nothing but the drop count, so moves no counter; otherwise success means one record more, and failure means none and a cause |
| RecordWriters.RecordWriter.Run | embedded/src/camera/secure/SecureUsbServer.cpp:154-186 | between arrivals: what the endpoint took is a prefix of the queued bytes, all of them if the writer lives |
| Transport.Reachable | embedded/src/camera/secure/SecureUsbServer.cpp:131-186 | in every reachable state: counters and numbering agree, queue and byte accounts are exact, the host state is the drain of what was received |
| Transport.EnqueueIsSteps | embedded/src/camera/secure/SecureUsbServer.cpp:131-149 | an enqueue is the producer's three steps of this system in their order, ends in exactly one event, and returns false if and only if that is a refusal |
| Transport.EndToEnd | embedded/src/camera/secure/SecureUsbServer.cpp:131-186 | for every interleaving the host has decoded a prefix of the accepted messages, unaltered and in order, and rejected nothing unless the cipher library failed while sealing |
| Transport.AllDelivered | host-ui/secureusbbridge.cpp:309-397 | when nothing is under way any more, every accepted message has been decoded |
| Transport.AlwaysDeliverable | embedded/src/camera/secure/SecureUsbServer.cpp:154-186 | from every live state writer and host alone can finish the delivery |
| Transport.NothingBurned | embedded/src/camera/secure/SecureRecord.cpp:33-60 | counters are only burned by library failures: a dropped or rejected message takes none |
| Transport.LosslessAccepted | embedded/src/camera/secure/SecureUsbServer.cpp:122-149 | control and update messages are never missing among the accepted ones, nor reordered |
| Transport.LosslessDelivered | embedded/src/camera/secure/SecureUsbServer.cpp:122-149 | under any interleaving, once delivered, the consumer of a route of lossless messages has exactly those offered to it, in that order |
| Transport.RouteDelivered | embedded/src/camera/secure/SecureUsbServer.cpp:122-149 | the same for any route all of whose offers were accepted |
| Transport.NothingDropped | embedded/src/camera/secure/SecureUsbServer.cpp:134-140 | if the queue stays below its limit through the whole run, no message was dropped |
| Transport.BurnIsFatal | embedded/src/camera/secure/SecureRecord.cpp:42-60 | after a burned counter the next record to arrive ends the host's session, and nothing after it is decoded |
| Transport.FailsExactlyWhen | embedded/src/camera/secure/SecureUsbServer.cpp:131-186 | over all interleavings: a host that has drained what it received has failed if and only if the first record sealed after a burned counter has wholly arrived |
| Transport.DecodedIsIntact | embedded/src/camera/secure/SecureUsbServer.cpp:131-186 | over all interleavings, library failures included, the host decodes nothing but a prefix of what was accepted before the first burned counter |
| Transport.OneFailureLosesAMessage | embedded/src/camera/secure/SecureUsbServer.cpp:236-250 | a run in which that happens to a refused control reply, whose producer does not end the session, for every cipher with the laws |
| Transport.TaggingCipherIsBinding | embedded/src/camera/secure/SecureRecord.cpp:62-90 | the authenticity law used there has an instance |
| Transport.NoncesNeverRepeat | embedded/src/camera/secure/SecureRecord.cpp:25-31 | over whole runs no two records share a nonce for the first 2^64 counters |
| Transport.PayloadConserved | embedded/src/camera/secure/SecureUsbServer.cpp:131-173 | offered payload is written, queued, dropped or refused, and counted once |
| Transport.QueueAccounts | embedded/src/camera/secure/SecureUsbServer.cpp:131-173 | the byte counter is the sum of the queue; queued droppable bytes stay below 4 MiB + 65556; drops take no counter |
| VideoSinks.PiecesRejoin | embedded/src/camera/secure/SecureUsbServer.cpp:446-458 | a frame's pieces concatenate to it; each fits a record, and each but the last is 65534 bytes |
| VideoSinks.VideoSink.OnFrame | embedded/src/camera/secure/SecureUsbServer.cpp:433-459 | the loop queues exactly those pieces in order, up to a sealing failure, when nobody else queues in between |
| VideoSinks.FrameIsSteps | embedded/src/camera/secure/SecureUsbServer.cpp:452-458 | that loop is a run of those steps: one event for each piece in order, stopping behind the first refusal |
| VideoSinks.CameraOrder | embedded/src/camera/secure/SecureUsbServer.cpp:433-459 | over any run without a burned counter, and with a binding cipher over any run of at most 2^64 counters, a camera's decoder gets an order-preserving subsequence of its pieces |
| VideoSinks.StreamIntact | embedded/src/camera/secure/SecureUsbServer.cpp:433-459 | and, if the queue never reached its limit and the cipher library worked, once delivered the exact bytes of its frames |
| Demux.AlwaysLifecycle | embedded/src/camera/secure/SecureUsbServer.cpp:841-979 | over all inputs: decryption, session and four workers exist together or not at all; the live session opens and seals with the answer to the last accepted hello, under its number; every hello meets no live session, every delivered message was opened under the keys in force; the endpoint has failed exactly if its last answer could not be written |
| Demux.EveryRoundLifecycle | embedded/src/camera/secure/SecureUsbServer.cpp:885-975 | the same in every state the inner loop passes through, whose last one is that of the whole read |
| Demux.SessionOfHello | embedded/src/camera/secure/SecureUsbServer.cpp:895-935 | the session in force is that of the last hello accepted since the last end |
| Demux.StreamLeavesSession | embedded/src/camera/secure/SecureUsbServer.cpp:878-975 | after a whole valid stream a session is live, and it is that of the stream's last hello |
| Demux.MagicIsNoLength | common/secure/SecureWire.cpp:14-20 | no legal record begins with the hello's magic |
| Demux.DrainThenMore | embedded/src/camera/secure/SecureUsbServer.cpp:887-975 | while the device waits for more, how the stream was cut does not matter |
| Demux.UniqueDecoding | embedded/src/camera/secure/SecureUsbServer.cpp:878-975 | any stream of valid records and accepted hellos is parsed back into exactly its complete items, for every split |
| Demux.DecodedUpToError | embedded/src/camera/secure/SecureUsbServer.cpp:878-975 | the same with anything behind them: all items come before the first error |
| Demux.SplitHello | embedded/src/camera/secure/SecureUsbServer.cpp:936-946 | with no session, a hello cut in two is answered if and only if its first piece has the four bytes of the magic |
| Demux.BadRecordEnds | embedded/src/camera/secure/SecureUsbServer.cpp:947-963 | a malformed or unopenable record ends the session, and with it decryption, workers and buffer |
| Demux.DrainLeaves | embedded/src/camera/secure/SecureUsbServer.cpp:887-975 | what is kept between reads is nothing, or the start of a hello or of a legal record |
| Demux.HelloBehindPartial | embedded/src/camera/secure/SecureUsbServer.cpp:887-974 | a hello arriving behind the start of a record is acted on if and only if nothing of that record is there; otherwise the device waits with both or drops both with the session, and is then ready for another |
| Demux.Demultiplexer.End | embedded/src/camera/secure/SecureUsbServer.cpp:848-863 | session, workers and decryption go together |
| Demux.Demultiplexer.Handshake | embedded/src/camera/secure/SecureUsbServer.cpp:888-935 | supersedes a live session, answers, and starts session and workers: the session seals with what the answer gave to seal with, and opens with what it gave to open with |
| Demux.Demultiplexer.ReceiveRecord | embedded/src/camera/secure/SecureUsbServer.cpp:947-974 | one record delivered, or, on any framing, authentication or library error, the session ended and the buffer dropped |
| Demux.Demultiplexer.Receive | embedded/src/camera/secure/SecureUsbServer.cpp:885-975 | one read: append, then the inner loop |
| Demux.Demultiplexer.Serve | embedded/src/camera/secure/SecureUsbServer.cpp:868-979 | all reads in turn until the endpoint ends, an answer cannot be written, or a read finds its session marked dead, and no session afterwards |
| Handshakes.ClientHelloRoundTrip | common/secure/SecureHandshake.cpp:182-198 | decoding an encoded ClientHello gives it back |
| Handshakes.ClientWireRoundTrip | common/secure/SecureHandshake.cpp:182-198 | an accepted 101-byte string is the encoding of what it decodes to |
| Handshakes.ServerHelloRoundTrip | common/secure/SecureHandshake.cpp:200-236 | the same for every encodable ServerHello |
| Handshakes.ServerWireRoundTrip | common/secure/SecureHandshake.cpp:200-236 | and for every accepted string, both length fields and total length included |
| Handshakes.AcceptsExactly | common/secure/SecureHandshake.cpp:262-290 | byte for byte: the host accepts if and only if certificate parses, anchor vouches, signature covers both hellos, point is good; each refusal for its reason; the keys are four stretches of HKDF over both nonces, the host's first |
| Handshakes.RefusesOtherForms | common/secure/SecureHandshake.cpp:216-236 | nothing of another form is looked at |
| Handshakes.RespondsExactly | common/secure/SecureHandshake.cpp:292-337 | byte for byte: which hellos the device answers, what it signs and sends, and with which keys |
| Handshakes.AnswersNoOther | common/secure/SecureHandshake.cpp:191-198 | a hello is rejected for its form if and only if it is not 101 bytes with the magic |
| Handshakes.MaterialPartitioned | embedded/src/camera/secure/KeySchedule.cpp:37-45 | supporting fact: the four directional parts are consecutive, disjoint and together the 88 derived bytes |
| Handshakes.HandshakeAgrees | common/secure/SecureHandshake.cpp:262-337 | an undisturbed handshake is accepted and both ends hold the same keys |
| Handshakes.TranscriptInjective | common/secure/SecureHandshake.cpp:91-99 | the signed bytes determine hello, nonce and point |
| Handshakes.AcceptanceMeansAgreement | common/secure/SecureHandshake.cpp:262-290 | if the host accepts, whatever the link did, and the device alone signs for certificates its anchor vouches for, the device answered this hello and holds the same keys |
| Handshakes.AgreementIsPossible | common/secure/SecureHandshake.cpp:262-337 | the assumptions of that result can be met together |
| Handshakes.UntrustedRefused | common/secure/SecureHandshake.cpp:271-273 | the answer of an untrusted device is refused that a trusting host would accept |
| Handshakes.ReconnectDelivers | embedded/src/camera/secure/SecureUsbServer.cpp:888-935 | a host that reconnects between records is answered, accepts the answer with the device's keys, and every record it then seals with them is delivered in order |
| Handshakes.SessionIsTheHosts | embedded/src/camera/secure/SecureUsbServer.cpp:906-912 | the live session seals with the device key and IV of the host whose hello it answered, and opens with the host's |
| Handshakes.SessionReachesHost | host-ui/secureusbbridge.cpp:680-683 | so what the session sends is decoded by that host, under every interleaving |
| Handshakes.ReconnectLeavesSession | embedded/src/camera/secure/SecureUsbServer.cpp:888-935 | a host that has reconnected is left with such a session |
| ControlLines.LinesRejoin | embedded/src/camera/secure/SecureUsbServer.cpp:236-250 | lines with their newlines plus the leftover are the input, and no line or leftover contains a newline |
| ControlLines.LinesUnique | embedded/src/camera/secure/SecureUsbServer.cpp:236-250 | there is no other such reading |
| ControlLines.LinesOfParts | embedded/src/camera/secure/SecureUsbServer.cpp:236-250 | cutting the bytes changes neither |
| ControlLines.OnlyConcatenationMatters | embedded/src/camera/secure/SecureUsbServer.cpp:236-250 | dispatched lines, replies and leftover depend only on the concatenated payloads |
| ControlLines.RepliesQueued | embedded/src/camera/secure/SecureUsbServer.cpp:245-249 | every reply of 1 to 65534 bytes that can be sealed is queued in line order, sealed with its counter; any other leaves no trace |
| ControlLines.RepliesNumbered | embedded/src/camera/secure/SecureUsbServer.cpp:245-249 | those counters rise, and are consecutive unless the library fails |
| ControlLines.LocalTunnel.Deliver | embedded/src/camera/secure/SecureUsbServer.cpp:236-250 | the loop dispatches exactly those lines and queues those replies |
| Swupdate.JobConcludesOnce | embedded/src/camera/update/SwupdateClient.cpp:408-685 | every path of a job ends in exactly one terminal transition, its last write |
| Swupdate.StageRemembers | embedded/src/camera/update/SwupdateClient.cpp:503-626 | the loops' counters are the trailing silences or the answers so far; `saw_start` is whether a start-like message was ever seen |
| Swupdate.VerdictIsEarned | embedded/src/camera/update/SwupdateClient.cpp:470-685 | success if and only if the history holds the evidence for it, and each of the eight failures if and only if the history holds its fault; timeout after 600 consecutive silences or answers, or a failed select |
| Swupdate.FinalMessageIsLast | embedded/src/camera/update/SwupdateClient.cpp:595-608 | nothing is met after a success, failure or done message, so no job succeeds that was told of a failure |
| Swupdate.StatusFollows | embedded/src/camera/update/SwupdateClient.cpp:569-620 | at every point the status shows the last figures and name told, Installing from the first sign of it, and in the end the verdict with its problem |
| Swupdate.StartSeenExactlyOnSocket | embedded/src/camera/update/SwupdateClient.cpp:503-609 | of a successful job, a start-like message came before the verdict or a success or done message was the verdict if and only if the verdict came over the progress socket |
| Swupdate.SuccessWithoutStart | embedded/src/camera/update/SwupdateClient.cpp:635-674 | without that socket: six idle answers in a row conclude in success |
| Swupdate.AlwaysExclusive | embedded/src/camera/update/SwupdateClient.cpp:391-752 | over all interleavings: busy means exactly one job in flight, verdicts stand until the next request, Done is never stored |
| Swupdate.OneVerdictPerJob | embedded/src/camera/update/SwupdateClient.cpp:391-752 | every accepted request has made exactly one terminal transition, the one in flight none |
| Swupdate.LateEndHarmless | embedded/src/camera/update/SwupdateClient.cpp:712-722 | supporting fact: an end of stream at any time neither starts nor ends anything |
| Swupdate.SwupdateClient.TryBegin | embedded/src/camera/update/SwupdateClient.cpp:733-742 | accepts exactly when not busy, with a fresh status |
| Swupdate.SwupdateClient.IsBusy | embedded/src/camera/update/SwupdateClient.cpp:728-731 | Uploading or Installing |
| Swupdate.SwupdateClient.Fail | embedded/src/camera/update/SwupdateClient.cpp:748-752 | error and failure in one region |
| Swupdate.SwupdateClient.EndStreamInstall | embedded/src/camera/update/SwupdateClient.cpp:712-722 | only Uploading becomes Installing |
| Swupdate.SwupdateClient.WatchOnce | embedded/src/camera/update/SwupdateClient.cpp:505-626 | one turn of the progress loop: its writes and whether it goes on; a failure message fails the job |
| Swupdate.SwupdateClient.AskOnce | embedded/src/camera/update/SwupdateClient.cpp:638-681 | one turn of the status loop |
| Swupdate.SwupdateClient.WatchProgress | embedded/src/camera/update/SwupdateClient.cpp:503-630 | the progress loop over any script of events, up to its verdict |
| Swupdate.SwupdateClient.PollViaControlSocket | embedded/src/camera/update/SwupdateClient.cpp:635-685 | the status loop over any script of answers |
| Swupdate.SwupdateClient.PollCompletion | embedded/src/camera/update/SwupdateClient.cpp:470-630 | connection, acknowledgement and whichever loop follows |
| Swupdate.SwupdateClient.RunInstall | embedded/src/camera/update/SwupdateClient.cpp:408-468 | the thread of a file install, over IPC or as a subprocess |
| Swupdate.SwupdateClient.BeginStreamInstall | embedded/src/camera/update/SwupdateClient.cpp:687-710 | refused exactly when busy; a failed connection concludes the job at once |
| Uploads.WriteFullNoSigpipe | embedded/src/camera/update/SwupdateClient.cpp:23-36 | all bytes in order and once, or failure after strictly fewer |
| Uploads.ReadLine | embedded/src/camera/update/UpdateServer.cpp:52-66 | exactly one line and its newline are consumed, a line over 4096 bytes is cut after 4097, a broken stream gives what came before |
| Uploads.Pump | embedded/src/camera/update/UpdateServer.cpp:149-169 | what was forwarded is a prefix of the body, and true exactly if it has the announced length |
| Uploads.HandleConnection | embedded/src/camera/update/UpdateServer.cpp:73-192 | the answers, the forwarded bytes and the install state of one connection |
| Uploads.SizesAccepted | embedded/src/camera/update/UpdateServer.cpp:113-124 | exactly the announced sizes from 1 byte to 2 GiB are accepted |
| Uploads.HeaderLeavesBody | embedded/src/camera/update/UpdateServer.cpp:52-66 | for a header of at most 4096 bytes no byte of the body is consumed with it |
| Uploads.UploadConserved | embedded/src/camera/update/UpdateServer.cpp:149-191 | the final answer is positive if and only if exactly the first N body bytes were forwarded |
| Watchdog.DeadExactlyWhen | embedded/src/camera/rtsp/MountController.cpp:262-321 | a mount is dead if and only if some three consecutive ticks found it live, playing and without a new frame; until then its rate is that of the last period |
| Watchdog.RateCounts | embedded/src/camera/rtsp/MountController.cpp:293-296 | five times the rate is the number of frames counted since the last tick, wrap-around included |
| Watchdog.ProgressKeepsMounted | embedded/src/camera/rtsp/MountController.cpp:272-321 | a frame in any three ticks keeps it mounted |
| Watchdog.DeadForever | embedded/src/camera/rtsp/MountController.cpp:262-274 | disabling is permanent |
| Watchdog.MountsIndependent | embedded/src/camera/rtsp/RtspServer.cpp:181-200 | supporting fact: a mount's fate depends on its own readings only |
| Watchdog.HandlerFiresWhenAllDead | embedded/src/camera/rtsp/RtspServer.cpp:181-200 | the stall handler fires on exactly the ticks that end with no enabled camera left |
| Watchdog.NoHandlerNoStall | embedded/src/camera/rtsp/RtspServer.cpp:181-215 | without a handler nothing fires |
| Watchdog.MountController.CheckStall | embedded/src/camera/rtsp/MountController.cpp:272-321 | the new bookkeeping and the verdict |
| Watchdog.MountController.Disable | embedded/src/camera/rtsp/MountController.cpp:262-270 | dead, without pipeline references, rate zero |
| Watchdog.RtspServer.OnWatchdog | embedded/src/camera/rtsp/RtspServer.cpp:181-215 | the loop is one tick of every mount, and the paths still offered are those of the mounted ones |
| Snapshots.Put | embedded/src/camera/detect/Snapshot.cpp:73-77 | one pixel turns green if it is in the frame, nothing else changes |
| Snapshots.Convert | embedded/src/camera/detect/Snapshot.cpp:60-70 | every pixel is the source's with red and blue exchanged |
| Snapshots.DrawRing | embedded/src/camera/detect/Snapshot.cpp:80-87 | the two inner loops draw exactly the rows and columns t pixels in |
| Snapshots.DrawBoxes | embedded/src/camera/detect/Snapshot.cpp:78-89 | green exactly on some box's clipped outline |
| Snapshots.WriteBgrPpm | embedded/src/camera/detect/Snapshot.cpp:45-99 | each error exactly when due: bad arguments, a file that does not open, a short write; on success the specified image |
| Snapshots.BytesShown | embedded/src/camera/detect/Snapshot.cpp:60-89 | in bytes: 0, 255, 0 on an outline and the source's three bytes in reverse order elsewhere |
| Snapshots.OutlineIsBorder | embedded/src/camera/detect/Snapshot.cpp:79-88 | for boxes of at least 2 by 2 the outline is the box less the box two pixels in |
| Snapshots.OutlineStaysInBox | embedded/src/camera/detect/Snapshot.cpp:79-88 | the outline stays in its box if and only if both sides are at least 2 or neither is positive |
| Snapshots.ImageDeterminedByPicture | embedded/src/camera/detect/Snapshot.cpp:60-70 | stride, pixel size and padding bytes do not show |
| SensorTiming.ThereAndBack | yocto/meta-vc-camera/recipes-kernel/linux/files/vc_mipi_core.c:599-608 | a limit floored in one unit still bounds the count floored in the other |
| SensorTiming.ExposureFits | yocto/meta-vc-camera/recipes-kernel/linux/files/vc_mipi_core.c:581-611 | clamping to current limits gives at most `vmax.max - vmax.min` lines |
| SensorTiming.OptimizedInRange | yocto/meta-vc-camera/recipes-kernel/linux/files/vc_mipi_core.c:613-646 | the optimized frame lies between the minimal delay and the default; the subtraction never wraps |
| SensorTiming.BlankingKept | yocto/meta-vc-camera/recipes-kernel/linux/files/vc_mipi_core.c:613-646 | rows that are not read take as many lines off the frame, so that its blanking stays, and only where the sensor has the flag |
| SensorTiming.LineExact | yocto/meta-vc-camera/recipes-kernel/linux/files/vc_mipi_core.c:1707-1723 | a line is the pixel clock's ticks in whole nanoseconds |
| SensorTiming.ExposureLimitExact | yocto/meta-vc-camera/recipes-kernel/linux/files/vc_mipi_core.c:581-611 | the exposure limit from both sides, per trigger mode, unless 32 bits cut it |
| SensorTiming.RateLimitExact | yocto/meta-vc-camera/recipes-kernel/linux/files/vc_mipi_core.c:648-659 | the frame-rate limit from both sides: the shortest frame allows it and no more |
| SensorTiming.RateIsLimited | yocto/meta-vc-camera/recipes-kernel/linux/files/vc_mipi_core.c:543-560 | once limits are recomputed a requested rate is cut to what the shortest frame takes, and kept if it fits |
| SensorTiming.SonyClosedForm | yocto/meta-vc-camera/recipes-kernel/linux/files/vc_mipi_core.c:1725-1779 | VMAX is the largest of optimized frame, requested frame and delay plus exposure (one less in SYNC), SHS the rest of it and at least the delay |
| SensorTiming.SonyRealised | yocto/meta-vc-camera/recipes-kernel/linux/files/vc_mipi_core.c:1725-1779 | realised exposure and frame time are within one line of the request, the line SYNC takes off counted back |
| SensorTiming.SonyWithinExactly | yocto/meta-vc-camera/recipes-kernel/linux/files/vc_mipi_core.c:1747-1779 | VMAX fits its register if and only if the requested frame and the exposure do, each with the one line to spare that SYNC takes off |
| SensorTiming.VmaxWithinRegister | yocto/meta-vc-camera/recipes-kernel/linux/files/vc_mipi_core.c:1896-1941 | with current limits, in every mode that counts lines: the two registers in closed form, SYNC's decrement never wrapping, and VMAX in range if and only if the requested frame is |
| SensorTiming.SonyExposedExactly | yocto/meta-vc-camera/recipes-kernel/linux/files/vc_mipi_core.c:1896-1941 | for any limit, current or not, the registers are right and VMAX in range if and only if the requested frame and the clamped exposure with its delay fit |
| SensorTiming.NormalClosedForm | yocto/meta-vc-camera/recipes-kernel/linux/files/vc_mipi_core.c:1781-1810 | the other path: VMAX covers frame and exposure, SHS is the exposure or the minimum |
| SensorTiming.NormalWithinExactly | yocto/meta-vc-camera/recipes-kernel/linux/files/vc_mipi_core.c:1781-1810 | and when it fits its register |
| SensorTiming.TriggerCountFits | yocto/meta-vc-camera/recipes-kernel/linux/files/vc_mipi_core.c:1893 | with current limits the trigger exposure count is at most 0xffffffff, at any clock |
| SensorTiming.TicksExact | yocto/meta-vc-camera/recipes-kernel/linux/files/vc_mipi_core.c:1888-1893 | a trigger count is the clock's ticks in the time, rounded down |
| SensorTiming.ModesUse | yocto/meta-vc-camera/recipes-kernel/linux/files/vc_mipi_core.c:1896-1957 | which registers each trigger mode uses, which stay zero, and what is remembered |
| SensorTiming.SelfFrameExact | yocto/meta-vc-camera/recipes-kernel/linux/files/vc_mipi_core.c:1866-1877 | a self-triggered frame is the requested one or, if longer, the shortest the table allows |
| SensorTiming.SelfV2AddsUp | yocto/meta-vc-camera/recipes-kernel/linux/files/vc_mipi_core.c:1863-1893 | exposure and retrigger counts sum to the frame time within one tick if and only if 32 bits can count both |
| SensorTiming.SelfExposed | yocto/meta-vc-camera/recipes-kernel/linux/files/vc_mipi_core.c:1846-1924 | a self-triggered exposure request under any limit, both versions: exactly when each count is true, and what is waited when the exposure exceeds the frame |
| SensorTiming.SelfWithCurrentLimits | yocto/meta-vc-camera/recipes-kernel/linux/files/vc_mipi_core.c:1846-1924 | with current limits the exposure count always is, so the frame time alone decides |
| SensorTiming.RetriggerNearMinimum | yocto/meta-vc-camera/recipes-kernel/linux/files/vc_mipi_core.c:1856-1888 | the retrigger count is never above the table's minimum, and within a microsecond and a tick of it if and only if the minimum lasts less than 2^32 microseconds |
| SensorTiming.ClampedRateReachable | yocto/meta-vc-camera/recipes-kernel/linux/files/vc_mipi_core.c:648-659 | a clamped frame rate asks for a frame less than one line and a microsecond short of the shortest |
| SensorTiming.LimitsStayCurrent | yocto/meta-vc-camera/recipes-kernel/linux/files/vc_mipi_core.c:463-560 | over any settings the exposure limit belongs to the mode and trigger in force, unless binning changed since |
| SensorTiming.LimitsRecomputed | yocto/meta-vc-camera/recipes-kernel/linux/files/vc_mipi_core.c:463-560 | which settings recompute both limits, for the state they select, and which leave both alone |
| SensorTiming.SelectedExactly | yocto/meta-vc-camera/recipes-kernel/linux/files/vc_mipi_core.c:463-560 | what each setting comes to, offered or not |
| SensorTiming.AlwaysOffered | yocto/meta-vc-camera/recipes-kernel/linux/files/vc_mipi_core.c:463-560 | no sequence of settings leads to a format, lane count, trigger mode or binning the camera does not offer |
| SensorTiming.SetUpIsOffered | yocto/meta-vc-camera/recipes-kernel/linux/files/vc_mipi_core.c:948-972 | set-up starts in such a state |
| SensorTiming.RateReprograms | yocto/meta-vc-camera/recipes-kernel/linux/files/vc_mipi_core.c:543-560 | setting a rate programs the last exposure anew under it |
| SensorTiming.AnyRunWithinRegister | yocto/meta-vc-camera/recipes-kernel/linux/files/vc_mipi_core.c:1896-1941 | so after any such run an exposure has that outcome |
| SensorDriver.Camera.GetMode | yocto/meta-vc-camera/recipes-kernel/linux/files/vc_mipi_core.c:661-685 | the loop returns the first matching table entry |
| SensorDriver.Camera.CalculateMaxExposure | yocto/meta-vc-camera/recipes-kernel/linux/files/vc_mipi_core.c:581-611 | the exposure limit per trigger mode |
| SensorDriver.Camera.GetOptimizedVmax | yocto/meta-vc-camera/recipes-kernel/linux/files/vc_mipi_core.c:613-646 | the frame shortened by exactly the rows not read |
| SensorDriver.Camera.UpdateControls | yocto/meta-vc-camera/recipes-kernel/linux/files/vc_mipi_core.c:928-946 | both limits recomputed for the flag |
| SensorDriver.Camera.CalculateVmax | yocto/meta-vc-camera/recipes-kernel/linux/files/vc_mipi_core.c:1725-1745 | the frame before the exposure is placed in it |
| SensorDriver.Camera.CalculateExposureSony | yocto/meta-vc-camera/recipes-kernel/linux/files/vc_mipi_core.c:1747-1779 | both registers, 32-bit wrap included; and, for counts that fit, VMAX plus SYNC's line is the frame and SHS the rest of it |
| SensorDriver.Camera.CalculateExposureNormal | yocto/meta-vc-camera/recipes-kernel/linux/files/vc_mipi_core.c:1781-1810 | both registers, and for counts that fit their closed form |
| SensorDriver.Camera.CalculateExposure | yocto/meta-vc-camera/recipes-kernel/linux/files/vc_mipi_core.c:1812-1844 | frame, lines and registers of one exposure |
| SensorDriver.Camera.CalculateTrigExposure | yocto/meta-vc-camera/recipes-kernel/linux/files/vc_mipi_core.c:1846-1894 | both counters of one triggered exposure |
| SensorDriver.Camera.Expose | yocto/meta-vc-camera/recipes-kernel/linux/files/vc_mipi_core.c:1896-1960 | clamping, dispatch on flags and trigger, what is remembered; with current limits the closed form of both registers and the exact condition for VMAX to be in range; in self-trigger mode the exact condition of both counts |
| SensorDriver.Camera.Set | yocto/meta-vc-camera/recipes-kernel/linux/files/vc_mipi_core.c:463-560 | every setting: the state selected, and the limits recomputed where the driver does, so that they stay current; an exposure with the outcome of `Expose` |
| SensorTables.RowsFit | yocto/meta-vc-camera/recipes-kernel/linux/files/vc_mipi_modules.c:148-1095 | geometry of every table row of all 26 sensors |
| SensorTables.EveryTableFits | yocto/meta-vc-camera/recipes-kernel/linux/files/vc_mipi_modules.c:148-1095 | for every sensor, successful lookup and image height the frame stays above the minimal delay and within the register, and every limit is defined |
| SensorTables.TriggersOffered | yocto/meta-vc-camera/recipes-kernel/linux/files/vc_mipi_core.c:1205-1245 | which of the 26 sensors accept which trigger mode |
| SensorTables.EverySonySensorInRange | yocto/meta-vc-camera/recipes-kernel/linux/files/vc_mipi_modules.c:148-1024 | with current limits, for every such sensor and every mode that counts lines, SYNC included: only a frame rate asking for too many lines drives VMAX out of range, and then always |
| SensorTables.EverySonySensorExactly | yocto/meta-vc-camera/recipes-kernel/linux/files/vc_mipi_core.c:1896-1941 | whatever the limit in force, fixed or stale: for every Sony sensor, mode and request the exact condition for right registers and VMAX in range |
| SensorTables.SetUpIsCurrent | yocto/meta-vc-camera/recipes-kernel/linux/files/vc_mipi_core.c:1003-1004 | set-up leaves the limits current |
| SensorTables.EveryRunFromSetUp | yocto/meta-vc-camera/recipes-kernel/linux/files/vc_mipi_core.c:463-560 | from set-up through any settings, unless binning changed since the last recomputation, every exposure of every such sensor has that outcome |
| SensorTables.EverySelfRunFromSetUp | yocto/meta-vc-camera/recipes-kernel/linux/files/vc_mipi_core.c:463-560 | likewise every self-triggered exposure has a true exposure count, and a true frame exactly when it can be counted |
| SensorTables.SelfFrameTooLong | yocto/meta-vc-camera/recipes-kernel/linux/files/vc_mipi_core.c:543-560 | a run from set-up after which it cannot: 54000000000 ticks asked for, 2460392448 programmed |
| SensorTables.FixedLimits | yocto/meta-vc-camera/recipes-kernel/linux/files/vc_mipi_modules.c:82-1095 | supporting fact: exactly IMX226, OV7251 and OV9281 keep a fixed limit |
| SensorTables.Imx412InRange | yocto/meta-vc-camera/recipes-kernel/linux/files/vc_mipi_modules.c:513-592 | with current limits the IMX412's registers are in closed form and VMAX is in range if and only if the requested frame is |
| SensorTables.Ov9281InRange | yocto/meta-vc-camera/recipes-kernel/linux/files/vc_mipi_modules.c:1065-1095 | the OV9281's fixed limit keeps VMAX in range if and only if the requested frame is |
| SensorTables.OmnivisionInRange | yocto/meta-vc-camera/recipes-kernel/linux/files/vc_mipi_core.c:1781-1810 | both Omnivision sensors: closed form of the registers under the fixed limit, and the exact condition for VMAX to be in range |
| SensorTables.Ov7251InRange | yocto/meta-vc-camera/recipes-kernel/linux/files/vc_mipi_modules.c:1033-1059 | the OV7251's fixed limit keeps every exposure in range if and only if the pixel clock is at most 50593092 Hz |
| SensorTables.Imx226OutOfRange | yocto/meta-vc-camera/recipes-kernel/linux/files/vc_mipi_modules.c:204-228 | the IMX226's does not: a request VMAX cannot count |
| SensorTables.Imx226NeverSafe | yocto/meta-vc-camera/recipes-kernel/linux/files/vc_mipi_modules.c:204-228 | in every mode that counts lines a request of 100 seconds drives VMAX out of range |
| SensorTables.Imx226TriggerCount | yocto/meta-vc-camera/recipes-kernel/linux/files/vc_mipi_modules.c:204-228 | in every trigger mode that counts, no request is cut by the 32-bit counter if and only if the trigger clock is at most 42949672 Hz |
| SensorTables.StaleAfterBinning | yocto/meta-vc-camera/recipes-kernel/linux/files/vc_mipi_core.c:1623-1641 | binning changes recompute no limits: an IMX565 request VMAX cannot count |

## Left out

- Cipher, ECDH, signature, certificate and key-derivation internals: functions with stated laws; no secrecy is claimed.
- A failing library call on the receiving side ends the session: draining in pieces, `AlwaysLifecycle` and both receiving loops cover it, while the delivery results take a receiving library that works (`Ideal`).
- The ServerHello on the outbound endpoint: the transport model starts after it, and the host reads it as one transfer.
- Host-side sending (`sendRecord`): it seals with the same record layer under one lock; its partial-write failure handling is not modelled.
- HostBridge.SecureUsbBridge.Deliver: a client that connects anew is not modelled as an operation, and how much of a message a failed write left with it is not counted.
- RecordWriters.RecordWriter.Run: stated for no arrivals while it runs; `Transport.Reachable` interleaves arrivals with every step of it.
- VideoSinks.VideoSink.OnFrame: stated for no other producer queueing between two pieces; `VideoSinks.CameraOrder` and `VideoSinks.StreamIntact` hold under any.
- ControlLines.RepliesQueued: stated for no other producer queueing between two replies; `Transport.LosslessDelivered` gives their order under any interleaving.
- ControlLines.LocalTunnel.Deliver: the same.
- Handshakes.ReconnectDelivers: stated for a host that reconnects between records; `Demux.HelloBehindPartial` says what becomes of one that does not.
- Which thread marks a session dead, and when: `Serve` takes it as a choice of the environment after each read.
- A tunnel without a dispatcher, which forwards control bytes to a local socket instead.
- The update channel's connection handling in `LocalTunnel`, the host-silence watchdog, and waking blocked threads: sockets, clocks and signals.
- `video_loop` and its relaunch flag, detection, pipelines and RTSP plumbing: calls into GStreamer, Argus and OpenCV.
- Parsing of the upload header's JSON and of swupdate's status text: a function of the bytes, and the parsed status.
- Uploads.ReadLine: a stream that has ended or failed is taken to stay so.
- Uploads.HandleConnection: the install state is stated for no other thread writing in between; `Swupdate.AlwaysExclusive` covers the interleavings.
- The pending-request slots of the snapshot, its PPM header line, and 32-bit overflow of box coordinates: single assignments, text, and values beyond any frame.
- Snapshot file writing: the environment says whether the file opens and how many bytes it takes.
- I2C transfers and register addresses; flash duration and offset of the Omnivision path; black level, gain and region of interest.
- SensorTiming.LimitsStayCurrent: the frame-rate limit also depends on the image height, which is set after the format without recomputing it, so only the exposure limit is claimed to stay current.
- A mode lookup that finds nothing: the driver divides by zero there, and every timing result requires that the lookup succeeds and that the clock makes a line last between 1 ns and 2^32 ns.
- Negative binning modes and exposures passed as signed values: requests are 32-bit unsigned, as the comparisons take them.
- Logging, statistics and error texts.
