# kvasilloni: a verified model of the CAN-over-cannelloni shim

kvasilloni gives Kvaser CANlib applications a cannelloni peer: `canWrite` puts one CAN
frame on a TCP stream or into a UDP datagram, and a receive thread fills a bounded ring
that `canRead` drains. This project models the parts where that is hard and proves what
they promise.

- **Wire format** (`Bits`, `Wire`, `Decoders`, `Sender`, `UdpTunnel`). `Wire.Parse` is a
  reference reading of one frame off the front of a byte string. The printer, the TCP state
  machine (a class whose `Feed` assigns the frame's fields) and the UDP offset loop (a
  method) are each related to it, and so to one another, on arbitrary bytes.
- **Translation and marshalling** (`Translate`, `Marshal`). Ids, flag words and FD lengths
  between Kvaser and SocketCAN, the acceptance filter, and the way of a frame from
  `write_frame` on one side to `write_read_outputs` on the other.
- **Receive side** (`Receiver`, `Deadlock`, `Drain`, `Wakeup`, `Limits`, `Refine`, `Pushes`,
  `Calls`, `Ring`).
  `Receiver` is a step system over any number of channels and threads: each lock acquire,
  release and critical section, atomic store, condvar park, wake and time-out, callback
  entry and exit is one step, and a theorem about it holds of every interleaving. `Ring`
  is the same ring with its calls taken whole, `Refine` shows that every interleaving is a
  run of it, `Pushes` follows every push from its filter check to its callback, and `Calls`
  accounts for every other call.
- **One connection** (`Conn`, `Progress`, `Tunnel`). A second step system, over TCP or UDP:
  writers under the tx lock, `canClose`, drops of the last clone, and the receive loop with
  the teardown that only TCP has. (`Sums` measures what a set of threads has left to do.)
- **Handle table** (`Handles`). The map and the wrapping 32-bit counter.
- **INI migration** (`Ini`, `Migrate`, `Migration`, `KeyLines`). `parse_ini` is the meaning
  of a text, `ini_merge.py` a rewrite of it; `KeyLines` says character by character which
  lines are read and rewritten, and as what.

A run is a sequence of states and a sequence of events with `Apply(states[i], events[i])
== Some(states[i + 1])`; a theorem about `states[i]` is one about every reachable state.
Sockets are byte streams or datagram lists with a shutdown flag, clocks and time-outs are
part of the events.

What the proofs say about the code beyond its comments:

- The wakeup guarantee for frames holds, over all runs in which given threads may block in
  `peek_wait` and in `pop_wait` on a channel, exactly if no thread may peek or one thread
  does all the blocking reads. `peek_wait` shares the condvar and consumes nothing, and
  `push` wakes one thread only; so any peeker with any second blocked reader can leave
  that reader asleep beside a queued frame (`Limits.WakesForFramesExactly`).
- That no other thread runs the replaced callback once `set_notify` has returned is
  guaranteed exactly if the caller is not inside a callback of another channel. A callback
  may disarm its own channel, although the drain is skipped; but one that disarms another
  channel returns while that channel's callback is still running, because the thread-local
  flag does not say which channel it is for (`Limits.DrainGuaranteedExactly`).
- What a teardown reports, exactly: bus-off if the receive loop's swap was the first
  clearing of `running`, and wakeups if that or some `close` (`Conn.TeardownReports`). So
  a TCP link brought down by a failed write can be dead, its loop gone and every call
  back, with nothing reported and no reader told (`Conn.SilentlyDown`). Over UDP only a
  `close` ever changes a flag (`Conn.UdpReportsNothing`): a receive loop that dies of a
  socket error leaves a connection that looks alive (`Conn.UdpDiesSilently`).
- Handles are positive only for the first 2^31 - 1 opens of every 2^32, and repeat with
  that period (`Handles.HandlePeriod`).
- The INI migration keeps its meaning exactly when no template line after the first key
  line of a known key gives that key another value (`Migration.MigrationMeans`); one key
  line per known key is enough (`Migration.MigrationPreserves`), and a key set twice is
  not (`Migration.LaterLineInterferes`).
- The two programs break and trim ASCII text alike except for CR, VT, FF and the four
  separators FS, GS, RS and US (`Ini.CharsAgree`); and a CR before an LF makes no
  difference (`Ini.SameLines`).
- Where nothing is appended, the migrated text keeps the template's line count exactly when
  the template's last line is not blank, or its only line is (`Migration.LineCountKept`).

## Model

| member | source | states |
|---|---|---|
| Wire.EncodeFrame | src/wire.rs:151-165 | the field-by-field appends put exactly the frame's encoding after what was in the buffer, for every frame the source can slice: any remote frame, and data of up to 64 bytes |
| Wire.EncodeLayout | docs/DEVELOPMENT.md:68-75 | the documented layout byte by byte: id most significant byte first, seven bits of length with the FD bit on top, FD flags only for FD, data except for RTR |
| Wire.BannerText | src/wire.rs:16 | the handshake bytes are the documented text |
| Wire.ParseEncode | src/wire.rs:151-165 | an in-class frame is read back as its normal form, using exactly its own bytes, whatever follows |
| Wire.ParseVerdict | src/wire.rs:301-337 | on any bytes: refused exactly for a classic length byte over 8 or an FD one over 64, and a frame exactly once its header and, unless remote, its data are there |
| Wire.ParseCanonical | src/wire.rs:301-337 | a parsed frame is in its length class, used 5 to 70 bytes, and re-encodes to exactly those bytes |
| Wire.ParseStable | src/wire.rs:190-265 | a verdict on some bytes, frame or error, never changes when more arrive |
| Wire.StrictPrefixShort | src/wire.rs:190-265 | a torn frame is never an error and never a frame, only incomplete |
| Wire.PrefixFree | src/wire.rs:151-165 | no encoding is a proper prefix of another, and equal encodings mean equal normal forms |
| Wire.DecodeEncodeAll | src/wire.rs:190-265 | batch round trip: concatenated encodings and any tail decode to the normalised frames, then what the tail decodes to |
| Wire.DecodeCanonical | src/wire.rs:190-265 | for arbitrary bytes, re-encoding what was decoded gives the bytes consumed, and the rest is what stopped the decoder |
| Wire.UniquelyDecodable | src/wire.rs:151-165 | equal concatenations of encodings come from equal sequences of normalised frames |
| Decoders.StreamDecoder.Feed | src/wire.rs:190-265 | one call of the streaming decoder, with its in-place updates, leaves the frame, state and answer of the step function |
| Decoders.FeedRefines | src/wire.rs:190-265 | from any mid-frame state, a chunk of the requested size goes on, completes or fails as the reference reading of all the frame's bytes does |
| Decoders.ReachableMidFrame | src/transport.rs:764-798 | under exact feeding every reachable decoder state is the image of the bytes of the current frame read so far |
| Decoders.StreamInvariant | src/transport.rs:770-797 | every reachable request is between 1 and 64 bytes, the only failure is a length byte over its class limit (both directions), every emitted frame is in class and was read from 5 to 70 bytes that are its own encoding |
| Decoders.TcpRxLoop | src/transport.rs:758-798 | on any byte stream the loop pushes a prefix of the reference decoding; unless told to stop, all of it, and it ends for the reference's reason; told to stop at its n-th test, it has pushed exactly the frames that the reads before it complete |
| Decoders.DecodersAgree | src/wire.rs:292-340 | n frames can be taken from a datagram body exactly when the stream decoding of the same bytes has at least n, and they are its first n |
| Decoders.ReadFrameAt | src/wire.rs:303-337 | one round of the offset loop reads the reference frame at that offset, or fails where the reference does |
| Decoders.ParseUdp | src/wire.rs:286-340 | the offset loop returns the reference meaning of the datagram, and the clamped pre-allocation never falls short |
| Decoders.UdpHeader | src/wire.rs:270-275 | five bytes that the parser's header test accepts, carrying the sequence number and, big-endian, the count |
| Decoders.HeaderBytes | src/wire.rs:270-275 | version 2, data opcode 0, the number and the big-endian count |
| Decoders.BuildUdp | src/wire.rs:270-278 | the datagram is the header with count one, then the frame's encoding |
| Decoders.UdpRoundTrip | src/wire.rs:270-340 | a header with the matching 16-bit count, the encodings and any trailing bytes parse to the normalised frames |
| Decoders.DatagramCanonical | src/wire.rs:292-340 | the frames of any accepted datagram are in class and normal, and re-encoding them under its sequence number and count gives the bytes the parser used |
| Sender.UdpSender.Write | src/transport.rs:521-527 | each write sends its frame under the next wrapping sequence number, advanced even when the send fails; Ok exactly when the socket took the whole datagram |
| Sender.UdpSender.WriteAll | src/transport.rs:521-527 | successive writes put on the network the datagrams of the sends that were taken, each under the number of its own send, failed ones left out but counted |
| Sender.SentAre | src/transport.rs:521-527 | every datagram sent carries the frame of one send that was taken, under the number of that send modulo 256 |
| UdpTunnel.TornMeansNothing | src/wire.rs:292-340 | a datagram cut short anywhere yields no frame |
| UdpTunnel.WholeUdp | src/transport.rs:718-743 | whichever datagrams arrive from a trusted peer, lost, repeated, reordered or cut short, with idle time and strangers' datagrams anywhere in between, the loop pushes exactly the frames of those that arrive whole, normalised, one each |
| Translate.IdRoundTrip | src/wire.rs:120-146 | the id reported is the sender's cut to its class, with exactly the class and RTR bits it asked for, through `id as u32` of a negative id too |
| Translate.CanIdIs | src/wire.rs:120-130 | the identifier sent, number for number: the id cut to 29 or 11 bits, bit 31 for an extended one, bit 30 for a remote one, and no other bit |
| Translate.ReportedIs | src/wire.rs:133-146 | the id and flag word reported for any identifier, number for number |
| Translate.KindBits | src/wire.rs:133-146 | each bit of a reported flag word can be read back on its own |
| Translate.ShownClass | src/wire.rs:133-146 | exactly one of STD and EXT is shown, and EXT exactly for the extended id flag |
| Translate.FilterIsLatest | src/transport.rs:296-305 | after any history of directives the filter holds the latest code and mask of each class, or zero |
| Translate.FilterMeaning | src/transport.rs:80-90 | whether a frame passes depends only on the id and class the application would see, with that class's latest code and mask |
| Translate.ClassesIndependent | src/transport.rs:296-305 | a directive for one id class never changes the verdict on the other |
| Marshal.RoundIsLeastValid | src/wire.rs:51-64 | rounding gives the least valid CAN FD length covering the request, up to 64 |
| Marshal.FdFlagsOnWire | src/wire.rs:67-76 | BRS and ESI each have their own wire bit, set exactly when asked for, and no other bit is sent |
| Marshal.FdFlagsRoundTrip | src/wire.rs:67-88 | the two FD flag maps give back exactly the BRS and ESI bits |
| Marshal.FillFrame | src/lib.rs:275-293 | for every id, flag word, dlc and buffer, a null one included: byte by byte the payload is the caller's up to the dlc and the class limit, and zero beyond, for a null buffer and for a remote frame; the identifier and FD bit are number for number those asked for |
| Marshal.SuppliedBytes | src/lib.rs:290-293 | each byte of the payload the caller means, from the caller's buffer |
| Marshal.SentInClass | src/lib.rs:281-289 | no call can build a frame out of its length class |
| Marshal.WriteReadOutputs | src/lib.rs:348-385 | the outputs, and, byte by byte, a caller buffer sized for the channel's class: the frame's data up to its length and the class limit, and the old content beyond, or throughout for a remote frame |
| Marshal.ShownIs | src/lib.rs:348-372 | the report of any frame, number for number: id, flag word, length and the 32-bit time |
| Marshal.AppRoundTrip | src/lib.rs:273-385 | for every id, flag word, dlc and payload: no decoder rejects the frame; the peer reads the id cut to its class, one of STD/EXT plus RTR, FD bits only for FD on an FD channel, the rounded and capped length; and each byte of the receiver's buffer is the sender's byte, zero padding, or what was there before |
| Receiver.RunKeepsInv | src/transport.rs:135-159 | in every interleaving each of a channel's four locks is held exactly by the thread inside its critical section, and a running callback holds `cb_active` throughout |
| Deadlock.DeadlockFree | src/transport.rs:105-130 | in every reachable state with a call or callback under way some thread can go on, without a blocked reader's time-out; callbacks may disarm themselves or call into any channel |
| Deadlock.ProgressFalls | src/transport.rs:179-320 | every step that only finishes what is under way, a `notify_all` included, leaves less to do |
| Deadlock.CallsEnd | src/transport.rs:105-130 | any run can be continued by such steps, with no new call and no time-out of a blocked reader, until a given thread has returned, out of its callback too, or rests in a blocking read |
| Drain.DrainTheorem | src/transport.rs:315-320 | from the return of a `set_notify` outside callbacks, no record but the one it stored is armed, running or about to run, until stored again |
| Drain.SelfDisarm | src/transport.rs:307-320 | a callback that replaces its own channel's record skips the drain, yet at the return no other thread runs the old record or is about to |
| Wakeup.CloseWakeup | src/transport.rs:258-264 | at every moment a reader parked while `closed` is set means a `mark_closed` has yet to notify; nobody is on the way to parking |
| Wakeup.ClosedForGood | src/transport.rs:230-264 | after the `notify_all` of a `mark_closed` no reader of the channel is parked, then or ever |
| Wakeup.FrameWakeup | src/transport.rs:186-253 | where nobody peeks, or one thread does all the blocking reads, a parked reader means no more frames queued than readers woken but not resumed plus pushes yet to notify |
| Limits.PeekStealsWakeup | src/transport.rs:244-253 | for any peeker and any second blocked reader, of either kind: a reachable state in which the push's one wakeup went to the peeker and the other sleeps beside a queued frame |
| Limits.WakesForFramesExactly | src/transport.rs:244-253 | for any sets of threads that may call `peek_wait` and `pop_wait` on a channel, the guarantee holds in all their runs if and only if nobody may peek or the sets name at most one thread together |
| Limits.DisarmFromOtherCallback | src/transport.rs:105-107 | two channels can both be in callbacks with one disarming the other |
| Limits.ReturnsUndrained | src/transport.rs:315-320 | from there `set_notify` returns two steps later with the other callback still running |
| Limits.DrainGuaranteedExactly | src/transport.rs:315-320 | that no other thread runs the replaced record after the return holds in all runs if and only if the caller is not inside a callback of another channel |
| Refine.StepRefines | src/transport.rs:179-282 | a step of the receive side is one ring operation or none |
| Refine.ReceiverRefinesRing | src/transport.rs:179-282 | in every interleaving a channel's queue and overrun latch are what its ring operations, in critical-section order, leave |
| Refine.StampsInOrder | src/transport.rs:179-193 | with one producer and a clock that never goes back, queued receive stamps are nondecreasing, though stamping and queueing are separate steps |
| Calls.EveryCall | src/transport.rs:179-320 | in every interleaving the calls a thread has begun are, in order, those whose work under the lock is done, once each, and the one it is in; a blocking read's is done when a frame is there, the channel is closed or the time is up; and every flush has reset the overrun latch or is about to |
| Calls.BackMeansDone | src/transport.rs:266-271 | a thread back from its calls has done the work of each, and reset the latch after each flush |
| Pushes.EveryPush | src/transport.rs:179-220 | in every interleaving: a channel's filter is that of the directives stored so far, its record the one stored last; each push begun is checked once; those whose shown id and class pass the latest code and mask of that moment, and only those, go on to be offered to the ring with the clock as their stamp; each one taken, and no other, gets one callback window; and the window acts on the record stored when it was read |
| Pushes.WindowFires | src/transport.rs:202-213 | the window runs the callback exactly if the record has one and the lowest bit of its flags is set |
| Pushes.ProducerOffers | src/transport.rs:179-193 | with one producer the frames the ring is offered are that producer's, in order |
| Pushes.PushesAccountedFor | src/transport.rs:179-225 | with one producer, in every interleaving, the pushes that passed their check are the frames offered to the ring and the one on its way there; each offered is delivered, queued, flushed or dropped, once |
| Ring.ArrivalOrder | src/transport.rs:187-225 | the frames the ring took are those that left, in that order, then those queued; the level never exceeds 8192 |
| Ring.Capacity | src/transport.rs:187-192 | with 8192 frames queued the one that comes is dropped and the latch set; otherwise it goes to the end and the latch stays |
| Ring.Conservation | src/transport.rs:187-225 | every admitted frame is delivered, queued, flushed or dropped, exactly once |
| Ring.LatchMeansDrop | src/transport.rs:268-282 | the overrun latch is set exactly when a frame was dropped since the last reset of the latch |
| Ring.Shared.Push | src/transport.rs:179-220 | a push is filtered out, dropped with the latch set, or queued with its stamp, and only then the callback is shown its id and time |
| Ring.Shared.TryPop | src/transport.rs:223-225 | removes and returns the oldest frame, or nothing |
| Ring.Shared.Empty | src/transport.rs:269 | the first step of a flush empties the queue and leaves the latch |
| Ring.Shared.Unset | src/transport.rs:270 | the second resets the latch and leaves the queue |
| Ring.Shared.SetFilter | src/transport.rs:296-305 | one directive changes the one field it names, an unknown one none |
| Ring.Shared.Interfere | src/transport.rs:223-305 | any calls of other threads, one after another, leave the history and filter those calls make |
| Ring.GuardedIngest | src/transport.rs:707-716 | a datagram's frames are pushed onto the ring in order if it fully parses, and none otherwise, whatever other threads do between two pushes |
| Ring.UdpRxLoop | src/transport.rs:718-743 | the frames pushed onto the ring are the concatenation over the allowed datagrams that fully parse from the 2048-byte buffer, up to a socket error, with any calls of other threads in between |
| Ring.IngestedAppend | src/transport.rs:718-743 | what is ingested of two stretches of arrivals, without a socket error in the first, is what is ingested of each |
| Ring.QuietPast | src/transport.rs:735-739 | a read time-out changes nothing, wherever it comes |
| Ring.ErrorEnds | src/transport.rs:740 | after a socket error nothing more is ingested |
| Ring.IngestedOne | src/transport.rs:725-733 | one datagram counts, whole, exactly if its sender is trusted |
| Ring.PeerRule | src/transport.rs:382-398 | with the check on, a sender is let in exactly if it is on the allow list or, without a list, is the configured peer; with it off, always |
| Ring.KeptIs | src/transport.rs:725 | of a datagram the first 2048 bytes are read, and of no shorter one is anything lost |
| Ring.FedAdmits | src/transport.rs:179-193 | the ring is offered exactly the pushed frames that the filter of the moment lets through, each with its stamp |
| Ring.UdpRun | src/transport.rs:707-743 | over a whole UDP run with reads, flushes and filter changes anywhere: the frames of the allowed, parsing datagrams that pass the filter are, each once, delivered, queued, flushed or dropped; those taken leave in order of arrival; the level never exceeds 8192 |
| Ring.Unfiltered | src/transport.rs:179-193 | where nobody sets a filter, every frame of those datagrams is offered, stamped as it is pushed |
| Conn.TeardownFlags | src/transport.rs:532-542 | `closed` implies neither running nor negotiated, `link_lost` implies not negotiated; it is latched only if the receive loop's swap cleared `running` first, and by its exit always if so |
| Conn.FlagsNeverReturn | src/transport.rs:590-593 | in every interleaving `running` and `negotiated` never come back, `closed` and `link_lost` never clear |
| Conn.TeardownReports | src/transport.rs:799-811 | once the loop has exited and no `close` is short of its `mark_closed`: bus-off if and only if the loop's swap cleared `running` first; `closed` if and only if that or some `close` has begun |
| Conn.WriteTeardownIsSilent | src/transport.rs:532-542 | at every moment after a teardown begun by a failed write, until some `close`, neither `closed` nor `link_lost` is set |
| Conn.SilentlyDown | src/transport.rs:532-542 | such a state is reached: a failed write, its caller back, the loop exited, and nothing reported |
| Conn.UdpReportsNothing | src/transport.rs:718-743 | over UDP `link_lost` is never set, and until a `close` begins `running` and `negotiated` stay set and `closed` clear, whatever sends fail and however the loop ends |
| Conn.UdpDiesSilently | src/transport.rs:740 | such a state is reached with the receive loop gone |
| Conn.JoinInvariant | src/lib.rs:504-518 | over TCP and UDP the join handle exists exactly until the `canClose` that took the table entry takes it; a drop's `close` runs only when no clone and no entry is left |
| Conn.JoinProtocol | src/transport.rs:590-622 | over TCP and UDP the receive thread is joined at most once, by the remover of the entry and never by itself; once that `canClose`, on another thread, is past its close, no push or callback of the channel follows |
| Conn.CloseCompletes | src/lib.rs:504-518 | once the `canClose` that took the entry is past its close, the connection is closed, neither running nor negotiated, and over TCP shut down |
| Conn.LoopStays | src/transport.rs:775-797 | while no read fails and nobody clears `running`, the receive loop keeps reading, and pushes every frame it reads |
| Conn.ErrorStops | src/transport.rs:788-797 | after a read error, a corrupt stream or the end of the stream the loop never reads or pushes again, over TCP and UDP |
| Conn.LoopEnds | src/transport.rs:799-811 | and from there it is gone after at most five steps of its own, which nothing can hold up |
| Conn.LastDropCloses | src/transport.rs:618-622 | the `close` of the drop begins exactly once, by the thread whose clone is the last to go, as soon as the table entry and every clone are gone and never before |
| Conn.DownRefusesWrites | src/transport.rs:514-516 | from a state with `negotiated` clear and no write past its test, in every continuation nothing more is put on the socket and no write returns Ok, over TCP and UDP |
| Conn.UpWritesStream | src/transport.rs:513-546 | on a link that is up with the lock free and a willing socket, a write puts the whole frame on the stream and returns Ok |
| Conn.UpWritesDatagram | src/transport.rs:513-530 | over UDP it sends the frame in one datagram under the next number and returns Ok |
| Progress.NeverStuck | src/transport.rs:600-614 | with a call under way on any thread, some call can take a step of its own (or its socket report an error), or this one is in the join, not on the receive thread, and waits for a loop that was told to stop and is in no call |
| Progress.StepFalls | src/transport.rs:513-616 | every step that only finishes what is under way leaves less to do |
| Progress.CallsEnd | src/transport.rs:590-622 | any run can be continued by such steps, needing nothing of the peer, until a given thread has returned: a write, a `canClose` with its join, the drop of the last clone |
| Tunnel.TunnelInvariant | src/transport.rs:513-546 | the tx lock is held exactly by the thread inside the write; a torn TCP write shuts the socket before it lets go; over UDP datagrams and numbers are those of the sends |
| Tunnel.SentBytes | src/transport.rs:513-546 | over TCP the bytes sent are the banner, the full encodings of exactly the writes that returned Ok or are about to, in tx-lock order, then at most one strict prefix of a frame |
| Tunnel.BannerFirst | src/transport.rs:624-635 | nothing is pushed before the banner, or after any other twelve bytes |
| Tunnel.PrefixDecodes | src/wire.rs:190-265 | any prefix of whole frames and a torn one decodes without error to the first of those frames |
| Tunnel.WholeTunnel | src/transport.rs:624-798 | with concurrent writers, failures and closes anywhere, whatever prefix of the stream arrives, the peer pushes a prefix of the frames sent, normalised, and meets no error |
| Tunnel.WholeUdpTunnel | src/transport.rs:513-546 | over UDP with concurrent writers, failed sends and closes anywhere, the datagrams are one each for the writes that returned Ok or are about to, in tx-lock order; whichever arrive, amid idle time and strangers' datagrams, the peer pushes exactly the frames of those that arrive whole |
| Handles.HandlePeriod | src/lib.rs:92-95 | for any number of opens: which handles are positive, and exactly when two opens get the same one |
| Handles.NextHandle | src/lib.rs:204-205 | in every run the counter stands at the handle of the number of opens so far |
| Handles.HandleTable.FetchHandle | src/lib.rs:204 | returns the counter and advances it with 32-bit wrap-around |
| Handles.HandleTable.Insert | src/lib.rs:205 | the handle resolves to the new connection, every other as before |
| Handles.HandleTable.Lookup | src/lib.rs:528-534 | the connection of the handle, or an invalid handle |
| Handles.HandleTable.Remove | src/lib.rs:510 | the entry is returned and gone, and removing an unknown handle changes nothing |
| Handles.TableInvariant | src/lib.rs:92-95 | below 2^31 opens every entry, pending open and closed handle belongs to its own open alone |
| Handles.HandlesDistinct | src/lib.rs:204-205 | below 2^31 opens the handles returned are positive, pairwise distinct, and resolve to their own connection until closed |
| Handles.ClosedStaysClosed | src/lib.rs:92-95 | a closed handle never resolves again |
| Handles.OperationsIsolated | src/lib.rs:528-534 | no two open handles lead to one channel, so an operation on one leaves every other's ring, filter, notify record and flags as they were |
| Handles.OwnHistory | src/lib.rs:528-534 | over whole runs, an open handle's channel is what its own operations alone would have made of a fresh one, whatever else is opened, closed and done |
| Ini.CharsAgree | src/config.rs:265-279 | the ASCII characters on which Python's and Rust's line breaks and blanks differ, exactly |
| Ini.SameLines | tools/ini_merge.py:81 | in a file whose CRs come before LFs, Rust's `lines` and Python's text-mode reading and splitting find the same lines |
| Ini.ParseIni | src/config.rs:265-279 | the loop over a file's lines, with either kind of line end, computes its meaning: the last setting of each key |
| KeyLines.SettingLine | src/config.rs:265-279 | any key, value and inline comment, with any blanks about them, read as that setting, the key in lower case |
| KeyLines.IgnoredLine | src/config.rs:265-279 | exactly the blank lines, comments, section headers and lines without an equals sign set nothing |
| KeyLines.LastWins | src/config.rs:265-279 | the last line that sets a key decides it |
| KeyLines.NoneSets | src/config.rs:265-279 | a key that no line sets has no value |
| KeyLines.CaseFolds | src/config.rs:275 | keys that differ only in case are one key, which has no capitals |
| Ini.ParseUserIni | tools/ini_merge.py:76-89 | the Python parser, with its own comment stripping, computes the same meaning |
| Ini.ValuesAgree | tools/ini_merge.py:71-73 | cutting the blanks before a marker with the comment, or trimming afterwards, gives the same value |
| Ini.LinesAgree | tools/ini_merge.py:76-89 | the two programs read every line alike |
| Ini.TextAppend | src/config.rs:265-279 | a text of two parts means the first overridden by the second |
| Ini.JoinMeans | tools/ini_merge.py:115 | joining lines with newlines keeps their meaning |
| Ini.StripMeans | tools/ini_merge.py:159 | stripping final newlines keeps the meaning |
| Migrate.Merge | tools/ini_merge.py:92-115 | the loop over the template, consuming the user's map, computes the merged lines, the applied keys and the leftovers, which the rows below say line by line and key by key |
| KeyLines.BuiltMatches | tools/ini_merge.py:46 | a line of indent, comment marker if any, blanks, identifier, blanks, equals sign and anything is a key line, commented out or not, with that indent, key and rest |
| KeyLines.MatchTakesApart | tools/ini_merge.py:46 | and every key line is of that form |
| KeyLines.MatchesExactly | tools/ini_merge.py:46 | a line is a key line for a key exactly if it is of that form with that key, case apart |
| KeyLines.MergedLine | tools/ini_merge.py:92-115 | the first key line of each known key the user set is replaced, and every other line is kept character for character |
| KeyLines.UncommentsInPlace | tools/ini_merge.py:104-113 | that line, commented out or not, becomes its indent, its key as spelled there, ` = `, the user's value, and its own inline comment with the blanks before it |
| KeyLines.OthersKept | tools/ini_merge.py:99-106 | a line of any other form, for an unknown key, for one the user left alone, or after that first line, stays as it is |
| KeyLines.InlineIs | tools/ini_merge.py:48 | of a value and an inline comment, the part kept starts with the blanks before the first marker |
| Migrate.MeaningGood | src/config.rs:265-279 | every key and value that parsing yields is trimmed, lower-case and free of what the other position would cut |
| Migrate.EntryMeans | tools/ini_merge.py:156 | a passed-through setting is read back as itself |
| Migrate.SubstitutedMeans | tools/ini_merge.py:110-112 | an emitted key line, with the template's indent and inline comment, sets that key to the user's value |
| Migration.ActiveKey | tools/ini_merge.py:46 | a key line that `parse_ini` reads at all, it reads as a setting of that key |
| Migration.ActiveMatches | tools/ini_merge.py:46 | a line that `parse_ini` reads as a setting of a known key is a key line for it |
| Migration.MergeKey | tools/ini_merge.py:92-115 | key by key: applied exactly if set, known and on some key line; then what the lines say of it, and that every other key keeps its meaning |
| Migration.MergeCounts | tools/ini_merge.py:96-114 | applied keys and keys left for passing through are together the user's keys, and merge's own list has one line per template line |
| Migration.OutputMeans | tools/ini_merge.py:149-159 | the text written means the merged lines overridden by the leftovers |
| Migration.WrittenLines | tools/ini_merge.py:149-159 | the lines of the text written: the merged lines and the appended section, or without leftovers the merged lines up to the blank ones at the end |
| KeyLines.PassedOn | tools/ini_merge.py:149-157 | every key left over has its line in the appended section, under the heading, and a key that the program does not read has a comment right before it that says so |
| KeyLines.KnownIsRead | src/config.rs:124-173 | the merge knows exactly the keys that the program reads |
| Migration.LineCountKept | tools/ini_merge.py:92-159 | with leftovers every template line is in the text written, before the appended section; without, the line count is kept if and only if the template does not end in a blank line, but for a template of just one |
| Migration.BlankTailLost | tools/ini_merge.py:159 | a template of two lines, the second blank, is written as one |
| Migration.LaterLineInterferes | tools/ini_merge.py:99-114 | two actual texts, a template that sets a known key twice and a user's file that sets it, whose migration does not mean the template overridden by the user's setting |
| Migration.MigrationMeans | tools/ini_merge.py:92-159 | the output means the template overridden by the user's settings if and only if no later template line gives an applied key another value |
| Migration.MigrationPreserves | tools/ini_merge.py:92-159 | with at most one key line per known key the meaning is always preserved, no user key is lost, and merge's own list keeps the template's line count |
| Migration.WrittenAsIs | tools/ini_merge.py:159-168 | the text generated has no CR, so it is read back as it was generated |
| Migration.FilesMigrate | tools/ini_merge.py:133-168 | from file to file, with either kind of line end on any side: `parse_ini` reads the migrated file as the template overridden by the user's file, under exactly the same condition |

## Left out

- Socket setup, bind fallback, connect and accept timing, thread spawning: operating-system behaviour. A socket here is a byte stream or a list of datagrams with a shutdown flag.
- Raw pointers, null checks other than that of the caller's data buffer, struct layout, calling convention and the `catch_unwind` guards: the foreign boundary. Out-parameters are results, the read buffer is an array.
- Logging, file-handle cache, channel-count memo, module paths, environment and the field-by-field configuration overlay: plumbing and easy per-key cases.
- Constant exports and the `canIoCtl` dispatch; `tools/canbridge.py`.
- Lock poisoning: the tx lock of `Conn` is never poisoned, because nothing panics while it is held.
- `Conn` and `Shared` under concurrency are step systems over values, not classes, since the interleavings are the subject; `Ring.Shared` is the class form, each call taken whole.
- Ring.Shared.Empty: `clear` has no member of its own; it is this call and `Ring.Shared.Unset`, between which a push may come, as in the code.
- Ring.UdpRxLoop: a datagram over 2048 bytes loses its tail; where the platform reports it as an error instead, it is a socket error among the arrivals.
- Ring.Shared.Push: does not invoke the callback; the steps around `cb_active` are in `Receiver`.
- Conn.JoinProtocol: how long the join waits, up to the 500 ms read time-out of the UDP loop, is not measured.
- Conn.TeardownFlags: a run starts with the connection in the table, so the receive loop's steps before `canOpenChannel` inserts it are not interleaved with calls; no call can reach the connection then.
- Deadlock.CallsEnd: every call can be brought to its end, and steps that only finish calls cannot go on for ever; that a scheduler takes such steps rather than begin new calls is not modelled, here or in `Progress`. The join in `canClose` from inside another channel's callback, and application locks held around API calls, are outside both.
- Wakeup.FrameWakeup: a reader's waiting time is not measured; a time-out or a spurious wakeup may come at any step.
- Decoders.TcpRxLoop: the pushes are collected in a list; their effect on the ring is that of any other pushes in `Receiver` and `Refine`.
- Handles.HandlesDistinct: bounded by 2^31 opens, because the counter wraps; `Handles.HandlePeriod` says what happens beyond.
- Handles.OperationsIsolated: an operation is any function of its own channel, taken whole with its lookup; what each does to the channel is in `Ring`, `Receiver` and `Conn`, and a call still under way on a clone after `canClose` is in `Conn`.
- Migration.MigrationMeans: is about ASCII text without the characters of `Ini.CharsAgree`, on which the two programs do differ (`Migration.FilesMigrate` adds the CR of a CR LF); non-ASCII blanks and letters are not modelled. The leftovers may be written in any order, of which the sorted one is an instance.
- Reading and writing the INI files, and the warnings printed for unknown keys.
