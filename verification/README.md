# russh connection engine: a verified model

This project models the per-connection engine of russh, an SSH client and server
library, and proves properties of it with Dafny 4.11. Everything is checked by
`dafny verify dfyconfig.toml`.

## What is modelled

**Channel flow control.** `Encrypted` cuts application data into packets under the
peer's window, parks the rest, defers EOF and CLOSE behind it and replays it on
window adjusts and after a rekey. The receiver charges its window on arrival,
hands items to a bounded application buffer, queues them behind a single
outstanding reservation when that buffer is full, and grants window only on
delivery.

- `Outbound`, `Inbound` and `Channel` give the operations as functions on one
  channel; `EncryptedSession` and `SessionLoop` run them imperatively on the maps
  and buffers of a session and are proved against those functions, with every
  other channel untouched.
- `Endpoint`, `Sending`, `Receiving` and `Discipline` show what every step of an
  endpoint keeps against any peer that respects the channel rules.
- `FlowControl` joins two endpoints by FIFO links under an arbitrary scheduler; the
  rules each side relies on are proved from the other side's own invariant, so
  nothing about the peer is assumed. Credit conservation, end-to-end order and
  deadlock freedom hold in every reachable state.
- `Liveness` bounds every run that only serves what is under way and shows that it
  ends with everything delivered; `Promises` that a close or an end of file that was
  asked for happens, that window is granted in full, and that caps are exact;
  `Starvation` gives the exact condition under which backlogs drain, and `Desertion`
  the exact condition under which a sender is stuck for ever; `Rekeying` says what goes
  out during a key re-exchange; `Acks` covers producers waiting for an acknowledgement.
- `Reuse` follows one channel number through several channels, with every
  reservation tied to the mailbox it was made for.

**Framing.** `Padding`, `BlockModes`, `Nonces`, `Framing` and `Ciphers`: padding
arithmetic, counter mode and chained blocks in place, the two write paths, and the
reader that inverts them over whole packet sequences. `Wire`, `Messages` and
`Staging` cover the message bytes and the staging buffer.

**Key exchange.** `NameLists` and `Negotiation` (KEXINIT bytes to agreed names),
`KeyExchange` and `TwoPartyExchange` (both state machines, and every interleaving
of their messages), `KeyDerivation`, `Transport`, which joins exchange, derivation
and framing, `KeySwitch`, which follows a packet stream across NEWKEYS, and
`SessionSwitch`, which computes such streams from runs of a session: its exchange
machine, a working channel and the keepalive timer.

**Stateful buffers.** `SshId` (identification line), `FlushWriter` (cancellable
flush), `CryptoVec` (zeroing buffer), `PageLocks` (page reference counts).

## How to read the flow-control model

- One channel per system, already confirmed on both sides; `SessionLoop` carries
  the step from many channels to one. The client session loop stands for both
  endpoints.
- A step is one iteration of the session loop. Handler callbacks are separate
  application steps. A reservation is a token that resolves at any later time when
  a buffer slot is free or the reader is gone.
- Packets that arrive during a key re-exchange are processed at once, as in the code:
  `pending_reads` is drained when the exchange ends, but nothing is ever put into it.
- Whether the informational window-adjusted message gets a free buffer slot is
  left to the scheduler.
- Keystreams, block ciphers, MACs, AEADs, hashes, key agreement and signatures
  are parameters with their usual laws stated as predicates.

## Where the code falls short of what one might expect

- A configured window of 0 or 1 byte is never refilled, because the grant test
  compares with half of the ceiling (`Starvation.DrainsIff`).
- When the application drops its reader in front of queued items, the queue is
  dropped without a grant. If the window is empty at that point, no grant ever
  follows and the sender is stuck for ever (`Desertion.StuckForEver`,
  `Desertion.StarvesIff`, `Desertion.StandstillExists`).
- CHANNEL_OPEN_FAILURE for an open channel leaves its waiting producers parked, and
  the next release reports success for bytes that were never sent
  (`Acks.OpenFailureExample`, `Acks.OpenFailureLies`).
- A new inbound queue restarts at generation 0, so the generation check never turns
  an old reservation away. If a channel number comes round again (after 2^32 others)
  while one is in flight, it can act on the new channel: with the old reader still
  there an item goes into the old mailbox, with that reader gone the new channel's
  queue is dropped (`Reuse.GenerationNeverTells`, `Reuse.ReuseIff`, `Reuse.AstrayIff`,
  `Reuse.AstrayExists`, `Reuse.LostExists`).
- The comment in `Encrypted::flush` says staged packets are not flushed once a key
  re-exchange has started; the code flushes them always, and a window adjustment
  that arrives meanwhile sends parked channel data (`Rekeying.DataDuringRekey`,
  `Rekeying.DataDuringRekeyExists`).
- A side takes its new sealing key only when the peer's NEWKEYS arrives, but the peer
  opens everything after this side's NEWKEYS with the new key; a packet sealed in
  between is opened with the wrong one. Neither the keepalive timer nor the arm for
  window adjustments waits for that (`SessionSwitch.AgreesIff`,
  `SessionSwitch.DiffersExists`).
- The name-list decoder accepts 1025 entries, one more than its constant says,
  because the length is tested before the push (`NameLists.Collects`).
- The comment in `read_kex` says extension names are removed from both lists; the
  remote filter keeps them all, as none is in the key exchange table
  (`Negotiation.RemoteFilterIsIdentity`). The outcome is not affected.
- A bare line feed before the identification line swallows that line, also where
  lines before it are allowed (`SshId.BareLineFeedHidesId`, `SshId.ReadsAsMeant`).
- `CryptoVec` ignores a failed page lock and unlocks anyway, which takes a count away
  from another region whenever the first page is in the table
  (`PageLocks.BuffersRightIff`, `PageLocks.UnmatchedUnlock`, `PageLocks.StolenLock`).

## Model

| member | source | states |
|---|---|---|
| `FlowControl.NeverFails` | russh/src/client/encrypted.rs:405-523 | In every reachable state of two endpoints over FIFO links, no step the scheduler can pick meets an error |
| `FlowControl.CreditConservation` | russh/src/session.rs:309-363 | In every reachable state, the sender's remaining window plus data and grants in flight equals the receiver's window, and that window plus undelivered bytes never exceeds the configured one |
| `FlowControl.ArrivalsFit` | russh/src/client/encrypted.rs:494-523 | Every arriving data packet fits the receive window and the pending cap, and no arriving grant saturates the 32-bit send window |
| `FlowControl.EndToEndOrder` | russh/src/session.rs:637-696 | Bytes read, buffered, queued, in flight and parked are together exactly the bytes submitted, in order and by stream; a close that discards nothing loses nothing |
| `FlowControl.EndToEndControls` | russh/src/pending_inbound.rs:146-227 | EOF and CLOSE keep their place among the bytes on the way to the application |
| `FlowControl.ClosedMeansDelivered` | russh/src/client/mod.rs:1856-1899 | Once a gracefully closed channel has drained, the application has read every submitted byte and then the close |
| `FlowControl.IdleMeansSent` | russh/src/session.rs:346-404 | Deadlock freedom: with links and queue empty, no rekey, and a window of at least two, nothing is parked at the sender |
| `FlowControl.TraceDiscipline` | russh/src/session.rs:515-574 | In every run: packets carry 1 to the maximum number of bytes, never more data than window granted, at most one CLOSE and nothing after it, and the entry is gone exactly when CLOSE was sent |
| `FlowControl.QueueDiscipline` | russh/src/pending_inbound.rs:101-114 | In every run: the byte count is the queued payload and at most the window, the queue holds at most two more items than bytes, and exactly one reservation is outstanding while items wait |
| `FlowControl.PeerIsCompliant` | russh/src/session.rs:340-363 | What one endpoint puts on the link is always what the other is entitled to expect |
| `FlowControl.TurnKeeps` | russh/src/client/mod.rs:1819-1901 | Every turn of either side succeeds and keeps the system invariant |
| `Starvation.DrainsIff` | russh/src/session.rs:346-360 | Backlogs always drain if and only if the receiver's window is at least two bytes or the sender may not park anything |
| `Starvation.RunCapped` | russh/src/client/mod.rs:1958-1976 | In every run the backlog of a live channel stays within its configured cap |
| `Desertion.StuckForEver` | russh/src/client/mod.rs:1838-1854 | Once nobody reads, nothing is queued and the window is empty, no run puts another byte of data on the wire or grants anything, and what is parked stays parked while the channel is open |
| `Desertion.StarvesIff` | russh/src/client/mod.rs:1838-1854 | With the reader gone, its queue dropped and both sides open, whatever is in flight and whoever is exchanging keys: some run brings the sender to a standstill only if the receiver's window is empty at that point, and then always unless the receiver has itself asked to close |
| `Desertion.StuckMeansDeserted` | russh/src/client/mod.rs:1838-1854 | In every reachable standstill the reader was dropped in front of queued items and the window is empty, so it is for ever |
| `Desertion.StandstillExists` | russh/src/client/mod.rs:1838-1854 | A concrete reachable standstill from which no run sends another byte |
| `Desertion.DesertedStep` | russh/src/client/encrypted.rs:494-523 | With the window empty and the reader gone, no step of the receiver grants anything |
| `Desertion.AttendedStep` | russh/src/client/encrypted.rs:494-523 | With the window open and the reader gone, every step keeps it open |
| `Rekeying.DataDuringRekey` | russh/src/client/encrypted.rs:648-677 | While a re-exchange runs, a step sends channel data if and only if it is a window adjustment that opens the window for something parked |
| `Rekeying.DataDuringRekeyExists` | russh/src/client/encrypted.rs:648-677 | A reachable state in the middle of a re-exchange whose next packet sends parked data |
| `Liveness.TotalDelivery` | russh/src/client/mod.rs:1819-1901 | From every reachable state, any order of serving the system stops within a bound fixed by the state and leaves the application having read exactly what was submitted, unless its reader was dropped or a close discarded data |
| `Liveness.ClosedIsReleased` | russh/src/client/mod.rs:1938-1952 | No leak: once either side has closed and nothing is left to serve, the channel is gone from the channel table, the inbound queues and the application senders on both sides |
| `Liveness.ServiceBound` | russh/src/client/encrypted.rs:648-677 | Every service turn consumes potential, so service runs are bounded |
| `Liveness.CanServe` | russh/src/client/mod.rs:1819-1901 | Serving to the end is always possible |
| `Liveness.FlushCost` | russh/src/session.rs:365-449 | Replaying a backlog moves its cost to the wire and creates none |
| `Liveness.ResolvePays` | russh/src/client/mod.rs:1819-1901 | A resolved reservation always makes progress |
| `Discipline.StepKeeps` | russh/src/client/session.rs:445-508 | Against any compliant peer no step of an endpoint fails and every step keeps both halves of its discipline |
| `Discipline.EofAfterData` | russh/src/session.rs:258-265 | Whatever step releases it, EOF goes out at most once in that step and only when everything submitted has been sent |
| `Discipline.EofPaid` | russh/src/session.rs:258-265 | An EOF asked for on an open channel is sent at once exactly when nothing is parked and owed otherwise; every later step keeps what is sent and owed the same, until a close discards what is parked |
| `FlowControl.EofOnce` | russh/src/session.rs:258-265 | In every run no more EOFs are sent than the application asked for; asked once, the peer observes EOF at its place among the bytes |
| `Promises.EofHappens` | russh/src/session.rs:258-265 | In every run that asks for EOF once on an open channel and is served to the end, a reader that stayed has read every byte and EOF behind all bytes submitted before the call, unless a close discarded them |
| `Promises.CloseAsked` | russh/src/client/session.rs:467-491 | Closing an open channel sends CLOSE and removes the entry when nothing is parked, and otherwise only marks it; the application side is released when nobody reads |
| `Promises.ClosingStays` | russh/src/session.rs:267-275 | No later step forgets a close that was asked for: the entry goes on waiting, or is gone with CLOSE the last packet sent |
| `Promises.CloseHappens` | russh/src/client/session.rs:467-491 | In every run that asks for a close and is served to the end, with a window of at least two and no reader dropped in front of queued items, the channel is gone on both sides, and a reader that stayed has read CLOSE last and every byte not discarded |
| `Promises.CloseAnswered` | russh/src/client/encrypted.rs:405-460 | The peer's CLOSE on an open channel is answered with ours and the entry removed; unconfirmed or unknown channels ignore it |
| `Promises.GrantsExact` | russh/src/session.rs:340-363 | A step grants window exactly when it hands data over and less than half of the window left by undelivered bytes remains, and then up to the whole configured window with undelivered bytes charged |
| `Promises.AdjustReports` | russh/src/client/encrypted.rs:648-677 | The application is told the window that is left after the replay, exactly if it has room |
| `Promises.CapExact` | russh/src/client/mod.rs:1958-1975 | A submission closes the channel exactly when more bytes would be parked than the cap allows, and otherwise sends what the window admits and parks the rest |
| `Promises.HandedAtOnce` | russh/src/pending_inbound.rs:146-227 | With room in the buffer and nothing waiting, an item is handed over at once |
| `Promises.OverflowIff` | russh/src/pending_inbound.rs:166-215 | An item that has to wait is refused exactly when the queue would outgrow the cap |
| `Promises.OverflowCloses` | russh/src/client/encrypted.rs:494-523 | Data over the cap costs the channel at once: CLOSE is sent and it leaves every map |
| `Promises.QueueCapped` | russh/src/pending_inbound.rs:146-227 | Whatever any peer sends, in any run, no inbound queue outgrows the cap |
| `FlowControl.CreditBothWays` | russh/src/session.rs:309-363 | Credit is conserved in both directions at once |
| `Discipline.KeepRekeyEnd` | russh/src/client/mod.rs:2060-2070 | Replaying the backlog after a rekey keeps the endpoint invariant |
| `Discipline.KeepResolve` | russh/src/client/mod.rs:1819-1901 | A resolved reservation, stale or not, keeps the endpoint invariant |
| `Receiving.GrantKeepsCredit` | russh/src/session.rs:340-363 | A grant never returns credit for undelivered bytes, and afterwards an idle receiver advertises at least half its window |
| `Receiving.NeverOverflows` | russh/src/pending_inbound.rs:166-215 | An item within the granted window never exceeds a pending cap of at least the window |
| `Receiving.ReceiveDataShape` | russh/src/client/encrypted.rs:494-523 | A data packet is either queued and charged, or handed over and answered with a grant |
| `Receiving.QueuedShape` | russh/src/pending_inbound.rs:166-225 | Queueing keeps order, drops repeats of queued controls, and leaves exactly one reservation |
| `Receiving.QueueLength` | russh/src/pending_inbound.rs:155-181 | Zero-byte items cannot pile up in the queue |
| `Receiving.RecvResolveItem` | russh/src/client/mod.rs:1856-1899 | Handing over the head item keeps order, counters, credit and the single reservation |
| `Receiving.RecvResolveClose` | russh/src/client/mod.rs:1877-1884 | A delivered CLOSE is the last item and tears the channel down |
| `Receiving.RecvResolveGone` | russh/src/client/mod.rs:1838-1854 | A reservation that resolves after the reader went away drops the queue and keeps the rest |
| `Reuse.ReuseIff` | russh/src/client/mod.rs:1819-1901 | After a number is given to a new channel, no run lets a reservation of an earlier one change the new channel's queue, a mailbox or its presence if and only if none was in flight |
| `Reuse.AstrayIff` | russh/src/client/mod.rs:1856-1870 | No run puts an item of the new channel into another mailbox if and only if every reservation still in flight belongs to a reader that is gone |
| `Reuse.GenerationNeverTells` | russh/src/client/mod.rs:1826-1837 | In every run, whenever there is a queue, every outstanding reservation matches its generation |
| `Reuse.NextKeeps` | russh/src/client/mod.rs:1819-1901 | Every step keeps generations at 0 and reservations tied to existing mailboxes, and brings back neither a reader that is gone nor a reservation of an earlier channel |
| `Reuse.AstrayExists` | russh/src/client/mod.rs:1856-1870 | A concrete run that puts an item of the new channel into the old mailbox |
| `Reuse.LostExists` | russh/src/client/mod.rs:1838-1854 | A concrete run in which the reservation of a reader that is gone drops the new channel's waiting byte, with its reader there |
| `Sending.SendFlush` | russh/src/session.rs:406-449 | Replaying under a wider window keeps packet limits, window bound and order |
| `Sending.SendDataLive` | russh/src/client/session.rs:445-457 | Submitting data, with or without tripping the cap, keeps packet limits, window bound and order |
| `Sending.SendClosed` | russh/src/session.rs:287-296 | Closing with a discard sends exactly one CLOSE and cuts the stream to a prefix |
| `Outbound.DataNoQueueWindow` | russh/src/session.rs:515-545 | Fails exactly on a zero packet size with data to send; otherwise spends exactly the window it uses |
| `Outbound.DataNoQueuePackets` | russh/src/session.rs:543-574 | Emits legal packets carrying exactly the bytes counted as sent |
| `Outbound.PiecesFull` | russh/src/session.rs:543-574 | Every packet of one send but the last is as large as the peer admits |
| `Outbound.FailureLosesOne` | russh/src/session.rs:365-381 | A flush fails only for a packet size of zero, and then exactly the first chunk with bytes left is lost |
| `Outbound.FlushDataPayload` | russh/src/session.rs:365-381 | Sent packets followed by what stays parked are the old backlog, byte for byte |
| `Outbound.FlushDataCompletes` | russh/src/session.rs:365-404 | A flush completes exactly when the whole backlog fits the window |
| `Outbound.FlushOpPackets` | russh/src/session.rs:406-435 | Deferred EOF and CLOSE are emitted exactly when the flush completes, once, after the data and in that order |
| `Outbound.FlushOpEntry` | russh/src/session.rs:427-449 | The entry goes exactly when a deferred CLOSE went out; otherwise window, backlog and flags account for what was sent |
| `Outbound.DataOpPayload` | russh/src/session.rs:637-663 | New bytes join the end of the outbound stream behind everything parked |
| `Acks.AckedMeansSent` | russh/src/client/mod.rs:1555-1574 | In every run in which CHANNEL_OPEN_FAILURE only finds drained producers, a producer told of success has all its bytes in packets already sent |
| `Acks.NobodyForgotten` | russh/src/client/mod.rs:1555-1574 | In every run that leaves the channel open, every producer that came has been answered or waits |
| `Acks.StepAnswers` | russh/src/client/mod.rs:1555-1574 | A producer is answered at once exactly when nothing is parked, and no other one is lost while the channel stays open |
| `Acks.AckStepKeeps` | russh/src/client/mod.rs:1756-1787 | Parking in order, releasing, failing and a guarded CHANNEL_OPEN_FAILURE never leave a producer that could be answered wrongly |
| `Acks.DrainedOrFailed` | russh/src/client/mod.rs:1938-1975 | A step that removes a channel either fails its producers or has put everything submitted on the wire |
| `Acks.OpenFailureLies` | russh/src/client/encrypted.rs:472-493 | After CHANNEL_OPEN_FAILURE, in any state of a run, no continuation reports a false success if and only if nobody is parked or the last one parked has all its bytes in packets |
| `Acks.NobodyLeftParked` | russh/src/client/mod.rs:1767-1787 | Once a channel is gone or has nothing parked, the next release answers every waiting producer, and truthfully |
| `Acks.OpenFailureExample` | russh/src/client/encrypted.rs:472-493 | A concrete run in which four bytes are acknowledged and two were sent |
| `EncryptedSession.Encrypted.DataNoQueue` | russh/src/session.rs:515-574 | The staged packet loop stages exactly the specified packets and updates the window |
| `EncryptedSession.Encrypted.DataNoQueueDirect` | russh/src/session.rs:576-634 | The direct packet loop seals exactly the specified packets and updates the window |
| `EncryptedSession.Encrypted.Transmit` | russh/src/session.rs:684-690 | Direct or staged, the packets join everything issued so far in order |
| `EncryptedSession.Encrypted.FlushChannel` | russh/src/session.rs:365-404 | The flush loop, with or without a writer, follows the recursive specification, packets, byte count and failure included |
| `EncryptedSession.Encrypted.FlushPending` | russh/src/session.rs:427-449 | Flush and deferred controls on one channel, other channels untouched; a failure sends nothing and loses exactly the chunks up to the one it could not send |
| `EncryptedSession.Encrypted.FlushAllPending` | russh/src/session.rs:452-469 | One channel after another, up to the first that fails; channels, packets and result are given for failures too |
| `EncryptedSession.FlushAllEach` | russh/src/session.rs:460-469 | Whatever the order, every channel before the first failing one ends as its own flush leaves it, the failing one has lost the chunk it could not send, and all others are as they were |
| `EncryptedSession.Encrypted.SendData` | russh/src/session.rs:637-756 | All four data entry points: park, send a prefix, or refuse and change nothing, exactly as specified |
| `EncryptedSession.Encrypted.SendEof` | russh/src/session.rs:258-265 | EOF is deferred behind parked data or issued at once |
| `EncryptedSession.Encrypted.SendClose` | russh/src/session.rs:267-275 | CLOSE is deferred behind parked data or issued and the entry removed |
| `EncryptedSession.Encrypted.CloseDiscardingPending` | russh/src/session.rs:287-296 | CLOSE is issued now and the backlog goes with the entry |
| `EncryptedSession.Encrypted.ConsumeRecvWindow` | russh/src/session.rs:309-321 | Charges the window on one channel, with the 32-bit truncation of the length |
| `EncryptedSession.Encrypted.MaybeGrantRecvWindow` | russh/src/session.rs:340-363 | Grants exactly when the specification does, and reports it |
| `EncryptedSession.Encrypted.SealStaged` | russh/src/session.rs:758-781 | Seals everything staged after everything already sealed, in order |
| `EncryptedSession.Encrypted.NewChannel` | russh/src/session.rs:813-835 | Takes the first free number after the last one, wrapping at 32 bits, and terminates |
| `EncryptedSession.DirectRefinesStaged` | russh/src/session.rs:576-696 | After a flush either path has sealed what was issued before and then exactly what the specification sends, and left the specified window and backlog |
| `Staging.StagingBuffer.PushPacket` | russh/src/lib_inner.rs:45-58 | Appends one length-prefixed frame |
| `Staging.StagingBuffer.Flush` | russh/src/session.rs:758-781 | The cursor walk hands over exactly the frames pushed, whole and in order, and empties the buffer |
| `Staging.FramesStaged` | russh/src/session.rs:758-781 | The frames found in a staging buffer are the frames that were staged |
| `Messages.DecodeEncode` | russh/src/client/encrypted.rs:405-533 | Every channel message decodes to itself |
| `Messages.EncodeDecode` | russh/src/client/encrypted.rs:405-533 | Whatever decodes is the encoding of what it decodes to |
| `Messages.EncodedBytes` | russh/src/msg.rs:69-73 | The bytes of each message: number, recipient and fields, big-endian, in their places |
| `SessionLoop.Session.DeliverInbound` | russh/src/pending_inbound.rs:146-227 | Delivers, queues or refuses as specified, on its own channel only |
| `SessionLoop.Session.DrainNeedsReserve` | russh/src/pending_inbound.rs:231-261 | Every channel is settled as often as it was flagged: a reservation registered, or an orphaned queue dropped |
| `SessionLoop.Session.OnData` | russh/src/client/encrypted.rs:494-557 | The data arms act on their channel exactly as specified and on no other |
| `SessionLoop.Session.OnEof` | russh/src/client/encrypted.rs:458-471 | The EOF arm, likewise |
| `SessionLoop.Session.OnClose` | russh/src/client/encrypted.rs:405-457 | The CLOSE arm, likewise, including unconfirmed and unknown channels |
| `SessionLoop.Session.OnWindowAdjust` | russh/src/client/encrypted.rs:648-677 | The window-adjust arm, likewise, including the size it reports and what a failure leaves |
| `SessionLoop.Session.OnOpenFailure` | russh/src/client/encrypted.rs:472-493 | Removes the channel from two maps and leaves producers parked |
| `SessionLoop.Session.PumpInbound` | russh/src/client/mod.rs:1819-1901 | A resolved reservation acts on its channel as specified and on no other |
| `SessionLoop.Session.FinalizeClose` | russh/src/client/mod.rs:1938-1952 | The channel leaves all four maps, others stay |
| `SessionLoop.Session.EnforceOutboundCap` | russh/src/client/mod.rs:1958-1976 | After the call the backlog is within the cap or the channel is closed and gone |
| `SessionLoop.Session.SubmitData` | russh/src/client/session.rs:445-508 | Data submission including the cap acts on its channel as specified and on no other, or fails and changes nothing |
| `SessionLoop.Session.SubmitClose` | russh/src/client/session.rs:467-491 | Close, releasing the application side when nobody reads any more |
| `SessionLoop.Session.DataAcked` | russh/src/client/mod.rs:1555-1574 | The producer is answered, parked or dropped as the channel stands after the send, whose packets are issued as specified |
| `SessionLoop.Session.ReleaseOutboundAcks` | russh/src/client/mod.rs:1767-1787 | Answers exactly the producers of channels without parked data |
| `SessionLoop.Session.CompleteRekey` | russh/src/client/mod.rs:2060-2070 | Every channel replays its backlog and all packets are issued; it fails exactly when some channel's flush does, and then the re-exchange is not over |
| `Padding.PaddingRules` | russh/src/cipher/block.rs:220-241 | In every mode and for every payload: 4 to 19 bytes of padding, whole blocks, and a packet no shorter than the length probe |
| `Padding.PaddingIsLeast` | russh/src/cipher/gcm.rs:144-157 | Above the minimum packet the padding is the least that fills whole blocks |
| `Padding.ChannelPacketsPass` | russh/src/cipher/mod.rs:352-368 | Any channel packet of up to 256 KiB of data passes the size limit in every mode |
| `BlockModes.KeystreamInverse` | russh/src/cipher/block.rs:75-93 | The keystream from one position undoes itself |
| `BlockModes.KeystreamPrefix` | russh/src/cipher/block.rs:290-295 | A prefix decrypts on its own |
| `BlockModes.CtrWrapper.ApplyKeystream` | russh/src/cipher/block.rs:80-85 | In place from the stored position, which advances by the data length |
| `BlockModes.CbcInverse` | russh/src/cipher/cbc.rs:52-63 | Chained decryption undoes encryption for every input, with equal chaining values at the end |
| `BlockModes.CbcChained` | russh/src/cipher/cbc.rs:52-63 | Every block is encrypted together with the ciphertext block before it, the first with the stored value, and the last ciphertext block is stored |
| `BlockModes.CbcProbe` | russh/src/cipher/cbc.rs:66-70 | The first block decrypts on its own, whatever follows |
| `BlockModes.CbcWrapper.EncryptData` | russh/src/cipher/cbc.rs:53-59 | In place over exact blocks, as specified |
| `BlockModes.CbcWrapper.DecryptInner` | russh/src/cipher/cbc.rs:30-42 | In place over exact blocks, leaving the stored chaining value alone |
| `BlockModes.CbcWrapper.DecryptData` | russh/src/cipher/cbc.rs:61-63 | Decrypts and keeps the last ciphertext block |
| `Nonces.Advance` | russh/src/cipher/gcm.rs:88-101 | The carry loop adds one modulo the size of the nonce and returns the old value |
| `Nonces.NoncesDiffer` | russh/src/cipher/gcm.rs:88-101 | No nonce repeats within 2^96 packets |
| `Framing.OpenSealed` | russh/src/cipher/mod.rs:295-350 | Reading what was just sealed gives the payload and the same state on both ends |
| `Framing.PacketBytes` | russh/src/cipher/mod.rs:252-292 | The bytes of a packet: its length, the padding length, the payload and the padding, in that order |
| `Framing.StrippedIff` | russh/src/cipher/mod.rs:325-350 | Padding longer than the packet is refused, and otherwise what precedes it is the payload |
| `Framing.LimitExact` | russh/src/cipher/mod.rs:295-325 | A declared length is refused exactly above 256 KiB and the overhead of the largest channel packet |
| `Framing.SequenceRoundTrip` | russh/src/cipher/mod.rs:252-350 | Any list of sealed payloads reads back as that list, with equal cipher state and sequence number and nothing left over |
| `Framing.SequenceNumber` | russh/src/cipher/mod.rs:246-249 | The sequence number counts packets modulo 2^32 |
| `Framing.Writer.Write` | russh/src/cipher/mod.rs:252-292 | Appends exactly one sealed packet and moves the counters |
| `Framing.Writer.FinishPacket` | russh/src/cipher/mod.rs:214-250 | Patches a reserved header in place and seals exactly the same packet |
| `Framing.Writer.WritePacket` | russh/src/sshbuffer.rs:441-479 | Builds the packet in the output buffer; an empty payload leaves no trace |
| `Framing.Writer.PacketRaw` | russh/src/sshbuffer.rs:507-518 | Seals a payload, or nothing for an empty one |
| `Framing.InPlaceRefinesCopy` | russh/src/sshbuffer.rs:441-538 | Both write paths append exactly the sealed packet, or nothing for an empty payload, and leave the same cipher state and counters |
| `Framing.Reader.Read` | russh/src/cipher/mod.rs:295-350 | The buffered reader does what the specification says, every error and the out-of-range slice included, and with a supported cipher it never panics |
| `Ciphers.BlockLawful` | russh/src/cipher/block.rs:159-268 | Block cipher keys, with the MAC before or after encryption, satisfy the framing law |
| `Ciphers.AcceptedIsAuthentic` | russh/src/cipher/block.rs:186-235 | Nothing is accepted whose last bytes are not the MAC of the whole packet, length included, under the sequence number it is read with |
| `Ciphers.SealedIsAuthentic` | russh/src/cipher/block.rs:251-268 | What is sealed ends with that MAC, and with the MAC over the ciphertext the length stays readable |
| `Ciphers.CtrRoundTrip` | russh/src/cipher/block.rs:75-93 | Packet sequences round-trip in counter mode with either MAC order |
| `Ciphers.CtrAdvances` | russh/src/cipher/block.rs:80-85 | Over any list of packets the keystream position advances by exactly the bytes encrypted, so none is used twice |
| `Ciphers.CbcRoundTrip` | russh/src/cipher/cbc.rs:30-70 | Packet sequences round-trip with chained blocks and either MAC order |
| `Ciphers.GcmRoundTrip` | russh/src/cipher/gcm.rs:104-190 | Packet sequences round-trip over an AEAD with the length as associated data and an advancing nonce |
| `Ciphers.GcmAdvances` | russh/src/cipher/gcm.rs:167-190 | The packet after n others is sealed under the n-th nonce after the first |
| `Ciphers.AcceptedByAead` | russh/src/cipher/gcm.rs:119-160 | Nothing is accepted that the AEAD does not open under the current nonce with the length as associated data, and the nonce advances |
| `Ciphers.ChaChaRoundTrip` | russh/src/cipher/chacha20poly1305.rs:64-143 | Packet sequences round-trip over the OpenSSH construction with the sequence number as nonce and a separately encrypted length |
| `Ciphers.ClearLawful` | russh/src/cipher/clear.rs:52-103 | The clear key satisfies the framing law |
| `NameLists.NameListBijection` | russh/src/helpers.rs:79-104 | Decoding succeeds exactly on encodings of well-formed lists and gives that list |
| `NameLists.JoinedByCommas` | russh/src/helpers.rs:79-104 | An encoded list can be cut between any two names, and exactly one comma stands there |
| `NameLists.TakeNamesIff` | russh/src/helpers.rs:79-104 | A list field is accepted exactly when its bytes, at most 16 KiB, are at most 1025 well-formed names joined |
| `NameLists.Collects` | russh/src/helpers.rs:90-104 | The fold accepts exactly well-formed names, at most 1025 of them |
| `Negotiation.Select` | russh/src/negotiation.rs:360-379 | The nested loops find the first client entry the server has, and whether both listed it first |
| `Negotiation.NegotiationAgrees` | russh/src/negotiation.rs:204-519 | Reading each other's KEXINIT bytes, client and server both fail or hold the same names: the client's first entries the server supports, strict exactly when it was before or both sides' preferences ask for it; and they fail exactly when there are no such names |
| `Negotiation.ChoicesAreFirst` | russh/src/negotiation.rs:204-330 | Client and server resolve to the same names, exactly when every list has something in common (a MAC aside where the cipher needs none), and every name is the first client entry the server supports and, for host keys, has a key for |
| `Negotiation.KexChoice` | russh/src/negotiation.rs:212-241 | Filtering extension names by role leaves both sides with the same choice |
| `Negotiation.StrictAgrees` | russh/src/negotiation.rs:243-264 | Either side finds the exchange strict exactly when an earlier one was or the client prefers the client's marker and the server the server's |
| `Negotiation.GuessIgnoredIff` | russh/src/negotiation.rs:334-346 | A guessed packet is dropped exactly when one follows and the first choices of key exchange or host key algorithm differ |
| `Negotiation.KexInitBytes` | russh/src/negotiation.rs:409-519 | The bytes of KEXINIT: number 20, the cookie, the ten lists in their order, no guess and a reserved zero |
| `Negotiation.AdvertisesOwn` | russh/src/negotiation.rs:423-444 | An endpoint advertises its preferred methods without the markers of the other role |
| `Negotiation.KexInitRoundTrip` | russh/src/negotiation.rs:409-519 | A written KEXINIT decodes to the advertised lists |
| `Negotiation.RemoteFilterIsIdentity` | russh/src/negotiation.rs:221-236 | The filter on the remote list removes nothing while no extension name is a known key exchange |
| `KeyExchange.ClientKex.Step` | russh/src/client/kex.rs:97-395 | Each step of the client machine follows the specification, errors, packets and the reported host key included |
| `KeyExchange.ServerKex.Step` | russh/src/server/kex.rs:93-344 | Each step of the server machine follows the specification, errors and packets included |
| `KeyExchange.CompletesOnlyAuthentic` | russh/src/client/kex.rs:97-395 | Whatever messages a peer sends, the client completes only after exactly the messages of its exchange, with keys whose whole transcript verified under the host key it reports, taken from the reply just before NEWKEYS; a group is within the bounds asked for, and a strict initial exchange had nothing before its KEXINIT |
| `KeyExchange.ServerCompletesInOrder` | russh/src/server/kex.rs:93-344 | Whatever messages a peer sends, the server completes only after exactly the messages of its exchange, NEWKEYS last, with the secret, group and host key they determine; a strict initial exchange had nothing before its KEXINIT |
| `TwoPartyExchange.ExchangeCompletes` | russh/src/client/kex.rs:97-395 | Every interleaving between agreeing endpoints meets no unexpected message, ends within eight deliveries, and leaves both with the same keys and the client with the server's host key; at every point a side was told to reset exactly when the exchange is strict and its NEWKEYS is sent |
| `TwoPartyExchange.ExchangeIdentity` | russh/src/kex/mod.rs:95-113 | Both ends hold one session identifier, the first exchange hash or the one carried into a rekey |
| `TwoPartyExchange.SessionIdForLife` | russh/src/client/kex.rs:398-430 | Over any number of completed exchanges on one connection, in any order of deliveries, both ends keep the first exchange hash as identifier |
| `TwoPartyExchange.ConfigurationsAgree` | russh/src/server/kex.rs:108-131 | Preferences with something in common and host keys behind them make the endpoints agree |
| `KeyDerivation.ComputeKey` | russh/src/kex/mod.rs:380-417 | The key has the length asked for; its first round hashes secret, exchange hash, letter and session identifier, each later round secret, exchange hash and all bytes before it |
| `KeyDerivation.DerivedUnique` | russh/src/kex/mod.rs:380-417 | That determines the key |
| `KeyDerivation.KeyIndependentOfRounds` | russh/src/kex/mod.rs:400-417 | Any number of rounds that suffices gives the same key |
| `KeyDerivation.BothSides` | russh/src/client/kex.rs:410-417 | Both directions get the key, nonce and MAC material of their letters, and what one side seals with is what the other opens with |
| `Transport.TrafficAfterExchange` | russh/src/kex/mod.rs:362-460 | After any completed run of the exchange, with keys derived on each side from its own view and a cipher and MAC per direction, every list of payloads in either direction reads back on the other side |
| `Transport.FirstSwitch` | russh/src/session.rs:131-149 | From the clear to ChaCha20-Poly1305: any packets in the clear, NEWKEYS, and any packets under the new key read back, although the ciphers pad differently |
| `Transport.IssuedArrive` | russh/src/session.rs:758-781 | Channel messages issued by one side, encoded, staged, found by the flush loop, sealed, opened and decoded by the peer are the same messages in the same order |
| `KeySwitch.SwitchIff` | russh/src/session.rs:131-149 | Across any number of key changes on whose restarts the ends agree, every packet is opened with the key and sequence number it was sealed with if and only if nothing was sealed between NEWKEYS and the installation of the new key |
| `KeySwitch.FirstUnderNewKey` | russh/src/client/mod.rs:2038-2046 | The first packet under a new key is numbered 0 after a strict exchange and by counting on modulo 2^32 otherwise |
| `KeySwitch.ReadsAcrossSwitches` | russh/src/client/mod.rs:2038-2096 | Across any number of such quiet key changes, strict or not, between ciphers that pad differently, the reader gets back every payload |
| `SessionSwitch.KexShape` | russh/src/client/kex.rs:97-395 | NEWKEYS is the last message either machine sends, at the step that makes it wait and restarts the sequence number if strict; only a waiting machine ends |
| `SessionSwitch.NextKeeps` | russh/src/client/mod.rs:2038-2096 | Every act of a session keeps the channel invariant, its strictness and that it is re-exchanging exactly while a machine runs |
| `SessionSwitch.StreamShape` | russh/src/client/mod.rs:2038-2096 | In every session run NEWKEYS and installation alternate, both ends judge every restart alike, and the stream is quiet exactly when the run is silent while waiting |
| `SessionSwitch.AgreesIff` | russh/src/client/mod.rs:1354-1412 | Over any run of either side, with any exchanges and any traffic, the peer opens every packet with the key and sequence number it was sealed with if and only if nothing was put on the wire while the session waited for the peer's NEWKEYS |
| `SessionSwitch.SilentReads` | russh/src/client/mod.rs:2038-2096 | In bytes: whatever such a silent run writes, under any keys, the peer reads back |
| `SessionSwitch.DiffersExists` | russh/src/client/encrypted.rs:648-677 | A concrete run from the start of a connection, through the first exchange, a channel, a re-exchange, a parked submission and a window adjustment, whose packets the peer does not open as they were sealed |
| `SshId.SshRead.ReadSshId` | russh/src/ssh_read.rs:151-213 | However the stream is cut into reads, the outcome is that of scanning the whole stream, and exactly the bytes after the accepted line are left |
| `SshId.IsIdIff` | russh/src/ssh_read.rs:188-198 | An identification is text that begins with SSH-2.0- or SSH-1.99- |
| `SshId.FirstLine` | russh/src/ssh_read.rs:173-210 | The first line decides: refused from 255 bytes on, accepted as identification, or skipped |
| `SshId.BannersAllowed` | russh/src/ssh_read.rs:173-210 | The identification is found behind at most twenty other lines, and behind none where none are allowed |
| `SshId.SshRead.PollRead` | russh/src/ssh_read.rs:84-103 | Later reads replay the rest, none lost, none repeated |
| `SshId.SshRead.Line` | russh/src/ssh_read.rs:39-53 | Finds the first line feed after at least one byte, with or without a carriage return |
| `SshId.SshRead.DiscardLine` | russh/src/ssh_read.rs:55-60 | Moves what follows the line to the front |
| `SshId.BreakIsFirstLineFeed` | russh/src/ssh_read.rs:39-53 | The line found is the first line exactly when that is not a bare line feed |
| `SshId.BareLineFeedHidesId` | russh/src/ssh_read.rs:39-53 | A bare line feed swallows the line after it, whatever its ending: the scan goes on behind an identification, CR LF or LF, that the standard accepts |
| `SshId.ReadsAsMeant` | russh/src/ssh_read.rs:39-53 | The code reads the same lines to the same end as a scan that splits at every line feed if and only if none of the lines reached is a bare line feed |
| `FlushWriter.Writer.FlushInto` | russh/src/sshbuffer.rs:628-653 | However the flush is interrupted, exactly the bytes the socket took are on it, the outcome and the counter say so, and the rest stays in order |
| `FlushWriter.RunAll` | russh/src/sshbuffer.rs:628-653 | Over any interleaving of packets, partial writes and abandoned flushes the socket holds exactly the first so many bytes of everything sealed, a number fixed by the run |
| `FlushWriter.DoneMeansSent` | russh/src/sshbuffer.rs:628-653 | A run that ends with a completed flush has sent everything sealed |
| `FlushWriter.DrainsAll` | russh/src/sshbuffer.rs:628-653 | A socket that always takes something finishes the flush if it is not dropped too early |
| `CryptoVec.Vec.Resize` | cryptovec/src/cryptovec.rs:260-294 | Truncates or appends zeros, keeps everything beyond the size zero, and frees only zeroed blocks |
| `CryptoVec.Vec.Read` | cryptovec/src/cryptovec.rs:314-335 | Appends exactly the bytes reported, also after short or failed reads that scribbled further |
| `CryptoVec.Vec.Push` | cryptovec/src/cryptovec.rs:306-310 | Appends one byte |
| `CryptoVec.Vec.Extend` | cryptovec/src/cryptovec.rs:376-383 | Appends a slice |
| `CryptoVec.Vec.Drop` | cryptovec/src/cryptovec.rs:409-420 | Erases the last block before freeing it |
| `CryptoVec.NextPowerOfTwo` | cryptovec/src/cryptovec.rs:179-184 | A power of two, at least the length and less than twice it |
| `PageLocks.PageTable.Mlock` | cryptovec/src/platform/windows.rs:49-87 | Succeeds exactly when cap and operating system have room for every page, and then counts each once more; otherwise the table is as before |
| `PageLocks.RoomFor` | cryptovec/src/platform/windows.rs:125-140 | An empty table has room for exactly 256 pages |
| `PageLocks.PageTable.Munlock` | cryptovec/src/platform/windows.rs:90-114 | Succeeds exactly when every page is in the table and the operating system lets go of the last ones; otherwise exactly the pages up to the one it stopped at lost a count |
| `PageLocks.RunMatched` | cryptovec/src/platform/windows.rs:49-114 | Over any run of locks, failed locks and matched unlocks the table counts exactly the outstanding regions at every point, locks succeed exactly when there is room, and matched unlocks always |
| `PageLocks.PageRangeExact` | cryptovec/src/platform/windows.rs:249-259 | A page is in the range exactly when it shares an address with the region |
| `PageLocks.UnmatchedUnlock` | cryptovec/src/platform/windows.rs:90-114 | Unlocking a region that is not outstanding keeps the counts right if and only if the region has no pages or its first page has no entry |
| `PageLocks.BuffersRightIff` | cryptovec/src/cryptovec.rs:186-294 | Over any interleaving of buffers that ignore failed locks, the table counts the locked regions at every point if and only if every dropped buffer whose lock failed has no pages or finds its first page without an entry, and no unlock of another is refused before its last page |
| `PageLocks.RunBuffers` | cryptovec/src/cryptovec.rs:409-419 | The runs of such buffers on the table, which has at most 256 entries throughout, all locked |
| `PageLocks.StolenLock` | cryptovec/src/platform/windows.rs:90-114 | A concrete run in which a page another region holds is unlocked |

## Left out

- Channel open and confirmation: the flow-control runs start with a confirmed channel on both sides.
- The server session loop: the client loop stands for both endpoints.
- Other traffic on the connection (requests, authentication, keepalives): it does not touch windows or queues.
- Application-side writers and their window hints: advisory, not what wire safety rests on.
- zlib compression: only uncompressed packets are modelled.
- The `none` key exchange and a guessed first packet combined with group exchange: off the standard run.
- The strict key exchange message-order tables: finite tables.
- Rekey triggers by volume and time, timers, wakers and socket errors.
- The kinds of decoding errors: a malformed list or KEXINIT is refused without saying how.
- Handler veto points, host key acceptance and authentication.
- A handler callback that acts on its own channel in the middle of `pump_inbound`: callbacks act between steps.
- Unix page locking and raw pointers: memory is an array.
- Framing.Writer.Write: packets whose length does not fit 32 bits are excluded, where the source panics.
- Framing.Reader.Read: a stream that ends early is reported and not resumed.
- SessionLoop.Session.PumpInbound: a reservation is taken to be for the channel's current mailbox; channel numbers that come round again are the subject of `Reuse`.
- PageLocks.RunMatched: the operating system refuses no unlock in these runs; what a refusal does is in `PageLocks.PageTable.Munlock`.
- CryptoVec.Vec.Resize: capacities above 2^62 are excluded, where the source panics.
