# AgenticUDP: a verified model

A Dafny model of the AgenticUDP reliable-datagram protocol, both ends, and of the
batching and benchmarking code around it. `dafny verify dfyconfig.toml` checks all of it.

AgenticUDP carries telemetry over UDP. The client numbers each datagram, keeps it in an
inflight map until it is acknowledged, retransmits with capped exponential backoff under a
per-tick budget, and gives up after a tier-dependent number of retries. The server checks
and acknowledges each datagram, reassembles fragments, and drops content it has seen in the
last minute. Accepted records pass through a coalescer that batches writes to storage. The
V3 client fragments large payloads itself. A benchmark tool merges the statistics of runs
that were cut into chunks.

## What is proved

Transition systems (client, server, whole session, coalescer, duplicate detector) have one
step per critical section of the code, so a run is any interleaving of goroutines. Classes
and methods (`ClientCode`, `ReceiverCode`, `CoalescerCode`, `Dedup.Deduper`, the reassemblers,
the loops of the checksum, the chunker and the fragmenter) follow the code's own control flow
and are proved to perform exactly those steps.

- **End to end** (`Session`, `WrapAround`, `Deployment`). In every run of client, lossy, duplicating,
  delaying and reordering network and server with at most 65536 sends, whatever the client
  takes for acknowledged was handled by the server. The same holds of longer sessions in which
  ACKs arrive, and packets are acknowledged or given up, within 65536 sends. Its content has
  been accepted exactly when some datagram with that content is past its duplicate check, and
  what the server passes on is what the client wrote. The classes of the code, linked by a
  network, perform exactly such runs. Both limits are needed: explicit runs show an
  acknowledged datagram the server never saw after 65537 sends, and an ACK that precedes
  acceptance.
- **Client bookkeeping** (`ClientModel`, `Writes`, `Drain`, `NoStarvation`, `Patience`, `Sack`,
  `Window`). Every tracked datagram is in exactly one place; a measure bounds the useful steps
  left; no packet waits longer than ceil(k / budget) ticks behind k packets; how long a packet
  is kept before it is given up, as a tight function of the NACKs it got; a SACK list subtracts
  the set it names if no two inflight packets share a wire number, and otherwise may not; n
  paced senders never have more than cap - 1 + n packets inflight, and can have that many.
- **Server** (`ServerRuns`, `FragmentRuns`, `Reassembly`, `Dedup`, `Checksum`, `Packet`). Every
  arrival is counted once and every data packet is in one of four places. Fragmented messages
  reach the pipeline whole, in any arrival order, with duplicates and reaps; a message of 65536
  parts hangs the server exactly when it is complete, and shorter ones never do; the two
  independent reassemblers agree up to there; acceptances of one content ID are more than 60 s
  apart, and that bound is tight; the checksum test means what it should, which damage to one
  word it misses is characterised exactly, and so is when it is the internet checksum.
- **Coalescer** (`Coalescer`, `CoalescerCode`). Per tenant, items are conserved and kept in order through every
  interleaving; closing the channel stores everything, cancelling loses exactly the channel; the
  worker's loop stores with every tick all it has received.
- **Splitting** (`Chunker`, `FragmentV3`, `ReceiverV3`). Chunked sending writes the whole list or
  reports the attempt that failed, and but for faults succeeds exactly when each record fits; V3 fragments reassemble to the payload in any order.
- **Statistics** (`BenchStats`, `BenchMerge`, `MergeSums`, `MergeOrder`). Percentiles are the ranks they are
  documented to be. If the merge accepts the chunks of a run, all it reports but the status is
  what the uncut run gives, however it was cut and ordered. Whether it accepts them, and which
  status it reports, can depend on the order; exactly when is proved.

Files group as the program does: `Bytes`, `Checksum`, `Packet` (wire format); `Backoff`,
`ClientModel`, `ClientCode`, `Writes`, `Drain`, `NoStarvation`, `Patience`, `Sack`, `Window` (client);
`ServerModel`, `ServerRuns`, `FragmentRuns`, `ReceiverCode`, `Dedup`, `Reassembly` (server);
`Session`, `WrapAround`, `Deployment` (both); `Coalescer`, `CoalescerCode`; `Sequences`,
`Chunker`, `FragmentV3`, `ReceiverV3`; `BenchStats`, `BenchMerge`, `MergeSums`, `MergeOrder`.

## Where the code and its documentation disagree

The model follows the code.

- A packet's lifetime is documented as about 210 s (guaranteed) and 14 s (others)
  (`entropyops-helper/internal/transport/agenticudp.go:164-165`). The code also waits RTO(limit) before giving
  up, and its sequence is 2, 4, 8, 16, 30, ...: 240 s and 30 s (`Patience.DefaultWaits`).
- The backoff is documented as min(base * 2^retries, max) with a guard at 31 retries. The guard
  jumps to the ceiling, so a ceiling above 2^31 times the base is reached early
  (`Backoff.ClosedFormFailsBeyondTheGuard`).
- The shift is documented to be guarded against overflow at 31 retries. A base above 2^34 ms
  overflows earlier, and can wrap to a shorter timeout (`Backoff.BaseOutOfRange`); `Backoff.Monotone`
  says exactly when.
- The checksum is called the internet checksum
  (`entropyops-v2/internal/ingest/receiver/agenticudp.go:1439`), but an odd trailing byte is added as a low
  byte, where section 1 of RFC 1071 pads it to a high byte. The two agree exactly when the
  length is even or that byte is zero (`Checksum.InternetIff`).
- A merge is documented to need equal `bench_mode` in all chunks. Modes are compared only with
  the first chunk, and not at all if that has none, so chunks of two modes can be merged in one
  order and refused in another (`MergeOrder.OrderMatters`).
- A merged run is documented to be cited like a single run, but the status of a chunk in which
  every attempt failed overrides the one the whole run earned (`MergeOrder.CutChangesTheStatus`).
- Reassembly is documented to return nil while it waits for fragments. On a message of 65536
  parts it never returns, and keeps the lock (`Reassembly.LongMessageHangs`).
- The coalescer is documented to drain and flush everything on shutdown; on cancellation it
  does not drain its channel (`Coalescer.CancelCanLose`).
- `isCrossPathIsolated` is documented in terms of different chunks; it also refuses a path that
  repeats within one chunk (`MergeOrder.IsolationIff`, `MergeOrder.RepeatedPathRefused`).
- The retry limit is not applied by `processNACK`, so NACKs can expire a packet after a single
  timeout (`Patience.TheBoundIsTight`).

## Model

| member | source | states |
|---|---|---|
| Session.AckSoundness | entropyops-v2/internal/ingest/receiver/agenticudp.go:639-672 | in every run with at most 65536 sends, each datagram taken for acknowledged was handled; its content ID has been accepted exactly when some datagram with it is past the duplicate check; acceptances of one ID are over 60 s apart; no genuine datagram is rejected; whatever is passed on is a payload the client wrote under that content ID |
| Session.WindowedSoundness | entropyops-helper/internal/transport/agenticudp.go:455-480 | the same for sessions of any length below 2^32 sends, if each ACK that arrives was provoked by one of the last 65536 sends and all packets inflight then are among them |
| Session.AckHitsItsOwn | entropyops-helper/internal/transport/agenticudp.go:455-480 | an ACK provoked by send j that hits an entry hits j's own exactly when the two are fewer than 65536 sends apart |
| Session.AckReleases | entropyops-v2/internal/ingest/receiver/agenticudp.go:642-646 | once a tracked datagram still inflight reaches the server its ACK is on its way, and the client can only take it for that very entry |
| Deployment.Link.Send | entropyops-helper/internal/transport/agenticudp.go:804-846 | a call of the code's send is a run of the session; the datagram on the network announces payload, tier, stream, flags and content ID, and its inflight entry matches the header's own number and stream |
| Deployment.Link.DeliverUp | entropyops-v2/internal/ingest/receiver/agenticudp.go:467-513 | a call of the code's receiver is a run of the session, with its replies on the network |
| Deployment.Link.DeliverDown | entropyops-helper/internal/transport/agenticudp.go:864-876 | a call of the code's ACK loop is a run of the session |
| Deployment.Link.Tick | entropyops-helper/internal/transport/agenticudp.go:955-1018 | a call of the code's retransmit tick is a run of the session |
| Deployment.Link.SoundCode | entropyops-helper/internal/transport/agenticudp.go:455-480 | so the objects of the code are sound up to 65536 sends |
| Session.FewSendsAreWindowed | entropyops-helper/internal/transport/agenticudp.go:813-821 | with at most 65536 sends both conditions always hold |
| WrapAround.WrapDefeatsSoundness | entropyops-helper/internal/transport/agenticudp.go:813-821 | with 65537 sends there is a run in which a repeated old ACK acknowledges a datagram the server never handled |
| WrapAround.AckedBeforeAccepted | entropyops-v2/internal/ingest/receiver/agenticudp.go:642-668 | there is a run in which a datagram is acknowledged before anything was accepted |
| ClientModel.Accounting | entropyops-helper/internal/transport/agenticudp.go:804-846 | tracked sends = acked + expired + inflight, plus sends and ACKs between two critical sections, in every interleaving of fewer than 2^32 sends |
| ClientModel.BooksRun | entropyops-helper/internal/transport/agenticudp.go:455-497 | every step keeps each tracked datagram in exactly one of written, inflight, acked, expired, with its own bytes and wire number |
| Writes.EveryWriteCounted | entropyops-helper/internal/transport/agenticudp.go:485-497 | in every run, sent + retransmits is the number of all writes of all datagrams |
| Drain.DrainBound | entropyops-helper/internal/transport/agenticudp.go:955-1018 | along any run, ACK hits and ticks that find a packet past its timeout, plus what is left inflight, are bounded by the initial measure plus 11 per insertion |
| Drain.TickDrains | entropyops-helper/internal/transport/agenticudp.go:973-1017 | a tick never raises the measure, and lowers it whenever some packet is past its timeout |
| NoStarvation.NobodyStarves | entropyops-helper/internal/transport/agenticudp.go:990-1013 | within fewer than 2^32 sends, a packet with k packets sent no later than it is resent, acknowledged, NACKed or expired within ceil(k / budget) ticks, whatever interleaves |
| NoStarvation.PassedOver | entropyops-helper/internal/transport/agenticudp.go:994-1002 | a tick that passes an eligible packet over spends its whole budget on packets at least as old |
| Patience.NeverGivesUpEarly | entropyops-helper/internal/transport/agenticudp.go:973-988 | a packet expired after n NACKs was written at least 1 + max(limit, n) times over more than RTO(0) + ... + RTO(limit - n - 1) + RTO(max(limit, n)); every datagram is written at most 1 + limit + n times |
| Patience.TheBoundIsTight | entropyops-helper/internal/transport/agenticudp.go:485-497 | for every tier and every n, a run with n NACKs in which the packet expires within one nanosecond per wait of that bound |
| Patience.NeverHurries | entropyops-helper/internal/transport/agenticudp.go:973-1013 | NACKs included, a datagram written w times is resent or given up by a tick only more than RTO(w - 1) after its latest write |
| Patience.DefaultWaits | entropyops-helper/internal/transport/agenticudp.go:161-173 | with the default settings and no NACKs that bound is 240 s for guaranteed and 30 s for other packets |
| Patience.NacksCutTheWait | entropyops-helper/internal/transport/agenticudp.go:485-497 | a run in which three NACKs make a reliable packet expire after about 16 s |
| Sack.SackSubtracts | entropyops-helper/internal/transport/agenticudp_v3.go:496-503 | without aliases, any list of ACKs removes exactly the packets it names and credits that many, in any order and with repeats |
| Sack.SpanGivesNoAlias | entropyops-helper/internal/transport/agenticudp.go:813-821 | inflight keys spanning fewer than 65536 sends have no aliases |
| Sack.AliasDefeatsSack | entropyops-helper/internal/transport/agenticudp.go:459-465 | with an alias, a one-element list leaves a named packet behind |
| ClientCode.Client.WriteNext | entropyops-helper/internal/transport/agenticudp.go:820-830 | numbering, building and writing, of V2 and V3 packets: exactly the model's Write step |
| ClientCode.Client.WriteDatagram | entropyops-helper/internal/transport/agenticudp.go:804-830 | size check, then that step with the V2 packet, or no change when too long |
| ClientCode.Client.InsertInflight | entropyops-helper/internal/transport/agenticudp.go:832-843 | exactly the model's Insert step, stamped with the time of insertion |
| ClientCode.Client.TransmitWithFlags | entropyops-helper/internal/transport/agenticudp.go:804-846 | both halves in sequence; best-effort and failed sends are not tracked; a tracked datagram is acceptable to the server, carries the given payload and header fields, and its inflight entry matches the header's own number and stream |
| ClientCode.Client.ReactTo | entropyops-helper/internal/transport/agenticudp.go:864-896 | ACKs and NACKs are processed by the number and stream of the packet, a non-empty configuration is acknowledged, all else is ignored |
| ClientCode.Client.ProcessACK | entropyops-helper/internal/transport/agenticudp.go:455-480 | an ACK step followed by a Count step on some matching entry, or no change when none matches |
| ClientCode.Client.ProcessNACK | entropyops-helper/internal/transport/agenticudp.go:485-497 | a NACK step on some matching entry, whose datagram is written again, or no change |
| ClientCode.Client.ProcessSACK | entropyops-helper/internal/transport/agenticudp_v3.go:496-503 | without aliases, the loop leaves the state in which exactly the named packets are gone and their number is added to the acked counter |
| ClientCode.Client.RunRetransmitTick | entropyops-helper/internal/transport/agenticudp.go:955-1018 | scan, sort, budgeted resend and deletion together are one Tick step; the datagrams written are those of the oldest eligible packets, all of them or as many as the budget allows |
| ClientCode.SortByAge | entropyops-helper/internal/transport/agenticudp.go:994-996 | a reordering of the keys by time of last send |
| Window.WindowHolds | entropyops-helper/internal/transport/agenticudp.go:319-340 | with n senders that wait for the window before each send, at most cap - 1 + n packets are ever inflight |
| Window.WindowIsReached | entropyops-helper/internal/transport/agenticudp.go:319-330 | for every cap and every n some run reaches that bound |
| Backoff.ClosedForm | entropyops-helper/internal/transport/agenticudp.go:217-237 | if the ceiling fits int64 nanoseconds, the timeout equals min(base * 2^retries, ceiling) exactly when there are fewer than 31 retries and the shift does not wrap past the guard, or the ceiling is passed; it always lies between base and ceiling |
| Backoff.DocumentedForm | entropyops-helper/internal/transport/agenticudp.go:217-237 | for settings of at most 2^31 ms the timeout is min(base * 2^retries, max(base, maximum)) for every retry count |
| Backoff.SettingsMeaning | entropyops-helper/internal/transport/agenticudp.go:218-223 | a base that is not positive counts as 2000 ms, a maximum below the base as the base |
| Backoff.Monotone | entropyops-helper/internal/transport/agenticudp.go:228-235 | timeouts never shrink with retries exactly when no shift wraps to a value between base and ceiling |
| Backoff.ClosedFormFailsBeyondTheGuard | entropyops-helper/internal/transport/agenticudp.go:228-229 | concrete settings for which the guard returns the ceiling too early |
| Backoff.NoOverflowIff | entropyops-helper/internal/transport/agenticudp.go:217-237 | for all settings, the timeout in nanoseconds overflows for no retry count exactly when the ceiling does not |
| Backoff.BaseOutOfRange | entropyops-helper/internal/transport/agenticudp.go:230-235 | a base above 2^34 ms for which the shift wraps past the guard and a later timeout is shorter |
| Backoff.SmallBaseNeverWraps | entropyops-helper/internal/transport/agenticudp.go:230-235 | no base below 2^34 ms does that |
| Checksum.CalculateChecksum | entropyops-v2/internal/ingest/receiver/agenticudp.go:1440-1452 | the loop computes the complement of the folded word sum, in wrapping 32-bit arithmetic |
| Checksum.VerifyChecksum | entropyops-v2/internal/ingest/receiver/agenticudp.go:1454-1461 | compares the stored field with the checksum over the packet with that field zeroed |
| Checksum.WordSumBound | entropyops-helper/internal/transport/agenticudp.go:1045-1052 | no packet of at most 65535 bytes overflows the 32-bit sum |
| Checksum.FoldClosedForm | entropyops-helper/internal/transport/agenticudp.go:1053-1056 | folding ends, keeps the value modulo 65535, and gives zero only for zero |
| Checksum.InternetIff | entropyops-v2/internal/ingest/receiver/agenticudp.go:1439-1452 | the code's checksum is that of section 1 of RFC 1071 exactly when the length is even or the trailing byte is zero |
| Checksum.InternetDiffers | entropyops-v2/internal/ingest/receiver/agenticudp.go:1446-1448 | the one-byte packet 01 has checksum 0xFFFE here and 0xFEFF by the standard |
| Checksum.StampedVerifies | entropyops-v2/internal/ingest/receiver/agenticudp.go:1434-1436 | a packet with its checksum written verifies, and its whole-packet checksum is zero |
| Checksum.VerifiesIff | entropyops-v2/internal/ingest/receiver/agenticudp.go:1454-1461 | verification succeeds exactly when the whole packet sums to all ones and the field is canonical |
| Checksum.WordDamage | entropyops-v2/internal/ingest/receiver/agenticudp.go:1440-1461 | damage to one aligned word goes unnoticed exactly when it exchanges 0x0000 and 0xFFFF beside another non-zero word |
| Checksum.SingleByteDamage | entropyops-v2/internal/ingest/receiver/agenticudp.go:1440-1461 | changing any single byte, odd trailing byte included, makes verification fail |
| Packet.BuildPacket | entropyops-helper/internal/transport/agenticudp.go:1027-1043 | writing the fields, payload and checksum into a buffer gives the encoded packet |
| Packet.BuildPacketV3 | entropyops-helper/internal/transport/agenticudp_v3.go:94-116 | the same for the V3 packet |
| Packet.LayoutV2 | entropyops-helper/internal/transport/agenticudp.go:1027-1043 | each header field at its byte offset, big-endian, the checksum over the packet with its field zeroed, the payload from byte 14 |
| Packet.LayoutV3 | entropyops-helper/internal/transport/agenticudp_v3.go:94-116 | the same for the 22-byte V3 header |
| Packet.EncodeThenParse | entropyops-v2/internal/ingest/receiver/agenticudp.go:1408-1437 | parsing a built packet gives back header and payload, and the server accepts it |
| Packet.ParseThenEncode | entropyops-v2/internal/ingest/receiver/agenticudp.go:1408-1437 | rebuilding any packet the server accepts gives the same bytes |
| Packet.EncodeThenParseV3 | entropyops-helper/internal/transport/agenticudp_v3.go:94-116 | the V3 header and payload survive, and the checksum at offset 20 verifies |
| ReceiverCode.Receiver.Admit | entropyops-v2/internal/ingest/receiver/agenticudp.go:467-513 | length, version, checksum and ingest tests, then dispatch: the model's first stage and its replies |
| ReceiverCode.Receiver.Dispatch | entropyops-v2/internal/ingest/receiver/agenticudp.go:497-512 | handshake, keepalive with configuration push, data with its ACK, metrics, FIN and MTU probes: counters, session and replies |
| ServerRuns.CounterIsCount | entropyops-v2/internal/ingest/receiver/agenticudp.go:467-513 | in every run each class counter is the number of arrivals of its class: malformed, damaged, refused, handshake, keepalive, metrics |
| ServerRuns.EveryArrivalCounted | entropyops-v2/internal/ingest/receiver/agenticudp.go:467-513 | and with data and quiet packets they account for every arrival |
| ServerRuns.AcksCounted | entropyops-v2/internal/ingest/receiver/agenticudp.go:1463-1470 | the ACK counter is the number of ACK packets among all replies of the run |
| ServerRuns.RepliesMeaning | entropyops-v2/internal/ingest/receiver/agenticudp.go:497-513 | MTU probes and data that is not best-effort are acknowledged with their own number, stream and content ID; handshakes and keepalives are answered, with a pending configuration; nothing else is |
| ServerRuns.DataConserved | entropyops-v2/internal/ingest/receiver/agenticudp.go:639-672 | each data packet let in is still being worked on, was accepted, was a duplicate, or was shelved as a fragment |
| ServerRuns.SessionIff | entropyops-v2/internal/ingest/receiver/agenticudp.go:1487-1501 | the peer has a session exactly when some packet opened it and no FIN closed it since |
| ReceiverCode.Receiver.Process | entropyops-v2/internal/ingest/receiver/agenticudp.go:648-668 | reassembly then duplicate check: the model's second stage; it fails to return exactly when reassembly hangs or its lock is held by a call that does |
| ReceiverCode.Receiver.HandlePacketWithReply | entropyops-v2/internal/ingest/receiver/agenticudp.go:467-513 | the two stages in sequence, with the model's replies |
| Dedup.Separation | entropyops-v2/internal/ingest/receiver/agenticudp.go:1503-1532 | in every run, acceptances of one content ID are more than 60 s apart, and every remembered ID was accepted |
| Dedup.AcceptedAgain | entropyops-v2/internal/ingest/receiver/agenticudp.go:1520-1528 | a run that accepts the same content again one nanosecond after the window |
| Dedup.Deduper.IsDuplicate | entropyops-v2/internal/ingest/receiver/agenticudp.go:1503-1511 | a duplicate exactly when remembered; otherwise remembered from now |
| Dedup.Deduper.CollectGarbage | entropyops-v2/internal/ingest/receiver/agenticudp.go:1520-1528 | forgets exactly the entries older than 60 s |
| Reassembly.AnyOrder | entropyops-v2/internal/ingest/receiver/agenticudp.go:676-724 | for every arrival sequence, each fragment of a message of at most 65535 parts gets nil unless it completes the parts since the last completion, then the whole message; the buffer holds exactly those parts; once another content ID has hung the server it gets no answer |
| Reassembly.FirstCompletion | entropyops-v2/internal/ingest/receiver/agenticudp.go:705-723 | as long as nothing hung the server, the arrival that first completes the set of seen parts returns the message and deletes the buffer; every earlier one got nil |
| Reassembly.StepAgrees | otelcol/receiver/agenticudpreceiver/wire.go:168-205 | from equal buffers, where the server hangs the collector waits; otherwise the two agree except exactly when a full buffer holds 65536 parts; outputs differ only as nil versus empty |
| Reassembly.EarlyExitIsSafe | otelcol/receiver/agenticudpreceiver/wire.go:192-194 | on a contiguous buffer the length-based exit fires exactly when the count wraps |
| Reassembly.ReassemblersAgree | otelcol/receiver/agenticudpreceiver/wire.go:168-205 | on every sequence numbered below 65535 the server never hangs, and both keep equal buffers and give equal outputs, up to nil versus empty |
| FragmentRuns.FragmentsDelivered | entropyops-v2/internal/ingest/receiver/agenticudp.go:648-671 | in every run of the server, with any traffic and reaps between, a fragment packet of a message is only shelved until it completes the parts since the last completion or reap; that packet leads to the duplicate check, and what is passed on is exactly the concatenated payloads |
| FragmentRuns.EncodedIsPart | entropyops-v2/internal/ingest/receiver/agenticudp.go:648-698 | the packets built for a message, with bit 0x10 on all and 0x20 on the last only, are such packets, and are let in |
| FragmentRuns.PlainKeepsShelf | entropyops-v2/internal/ingest/receiver/agenticudp.go:648-650 | a packet without bit 0x10 never touches the shelf |
| FragmentRuns.CreatedIsFirst | entropyops-v2/internal/ingest/receiver/agenticudp.go:680-689 | a buffer is as old as its first fragment since it was last completed or dropped |
| FragmentRuns.ReapedWhenStale | entropyops-v2/internal/ingest/receiver/agenticudp.go:726-736 | so it is dropped exactly when that fragment is more than 30 s old |
| Reassembly.HangsIff | entropyops-v2/internal/ingest/receiver/agenticudp.go:705-710 | the presence loop is entered and no turn of its uint16 counter ever leaves it exactly when the buffer is full and its last number is 65535 |
| Reassembly.LongMessageHangs | entropyops-v2/internal/ingest/receiver/agenticudp.go:705-716 | a message of 65536 parts, in any order and with duplicates, hangs the server exactly when all its parts have arrived |
| Reassembly.HangNeedsAllNumbers | entropyops-v2/internal/ingest/receiver/agenticudp.go:676-710 | under any traffic, a hang needs some content ID of which all 65536 numbers were seen |
| Reassembly.FloodHangs | entropyops-v2/internal/ingest/receiver/agenticudp.go:705-710 | 65536 empty fragments reach the hang, after which no fragment of any content ID is answered |
| Reassembly.ServerReassembler.AddFragment | entropyops-v2/internal/ingest/receiver/agenticudp.go:676-724 | the new buffers, the returned slice and the counter, and no answer, however long the loop is followed, exactly on the hanging buffer or behind one |
| Reassembly.CollectorReassembler.AddAndMaybeAssemble | otelcol/receiver/agenticudpreceiver/wire.go:168-205 | the collector's buffers and slice, on every input; unflagged payloads pass through |
| Reassembly.ServerReassembler.ReapStaleFragments | entropyops-v2/internal/ingest/receiver/agenticudp.go:726-736 | keeps exactly the buffers no older than 30 s, or waits for a lock that is held forever |
| Reassembly.CollectorReassembler.Reap | otelcol/receiver/agenticudpreceiver/wire.go:207-220 | keeps exactly the buffers no older than the maximum age and counts the others |
| Coalescer.NothingLost | entropyops-v2/internal/ingest/receiver/agenticudp_coalescer.go:182-249 | per tenant, what producers handed in = stored + held + pending + queued as multisets in every run, as sequences if no entry found the channel full; pendingN is the pending total |
| Coalescer.DirectIsOverflow | entropyops-v2/internal/ingest/receiver/agenticudp_coalescer.go:182-195 | entries are written directly exactly when they find the channel full |
| Coalescer.CloseStoresEverything | entropyops-v2/internal/ingest/receiver/agenticudp_coalescer.go:227-231 | after shutdown by close, storage has exactly what direct writing would have given, in order unless the channel overflowed |
| Coalescer.CancelLosesTheChannel | entropyops-v2/internal/ingest/receiver/agenticudp_coalescer.go:224-226 | after cancellation exactly the channel contents are not stored |
| Coalescer.CancelCanLose | entropyops-v2/internal/ingest/receiver/agenticudp_coalescer.go:224-226 | a run in which an enqueued entry is lost to cancellation |
| Coalescer.BatchingBound | entropyops-v2/internal/ingest/receiver/agenticudp_coalescer.go:232-244 | pending buffers stay non-empty and below maxItems; batches taken at the threshold times maxItems never exceed the items taken from the channel |
| CoalescerCode.Batcher.Enqueue | entropyops-v2/internal/ingest/receiver/agenticudp_coalescer.go:182-195 | queues, or writes directly when the channel is full, or ignores an empty batch |
| CoalescerCode.Batcher.ReceiveOne | entropyops-v2/internal/ingest/receiver/agenticudp_coalescer.go:227-244 | one Receive step, and its batch write at the threshold; no tenant's line of items changes |
| CoalescerCode.Batcher.FlushAll | entropyops-v2/internal/ingest/receiver/agenticudp_coalescer.go:209-220 | empties the buffers into storage in any map order without changing a tenant's line |
| CoalescerCode.Batcher.Run | entropyops-v2/internal/ingest/receiver/agenticudp_coalescer.go:222-249 | for any sequence of timer ticks, entries and cancellation that the select picks, the turns are a run of the model and no tenant's line of items changes; everything received before a tick is stored after it, in order; a drained worker has stored all of it, a cancelled one all but the channel; without cancellation a closed channel is drained after enough turns |
| Chunker.SendRound | entropyops-helper/internal/transport/agenticudp.go:664-683 | a round writes consecutive full pieces that fit, by attempts that met no fault, and ends with the whole list, or at the first attempt whose piece is too long, whose window is stalled or whose write fails |
| Chunker.SendChunkedSignal | entropyops-helper/internal/transport/agenticudp.go:637-696 | ends; the rounds halve the chunk size and number their attempts without gaps, all but the last abandoned at a piece too long; success means the whole list was written in order without a fault, failure names the attempt that met one; with failures only from size it succeeds exactly when every record fits |
| FragmentV3.TransmitFragmented | entropyops-helper/internal/transport/agenticudp_v3.go:242-305 | puts a prefix of the message's datagrams on the wire, all of them exactly when it reports success; each is a Write and an Insert step of the client; stops at the first stall or write error and counts the latter; refuses more than 65535 fragments |
| FragmentV3.TransmitSingle | entropyops-helper/internal/transport/agenticudp_v3.go:206-227 | one datagram, written and tracked, or a counted write error |
| FragmentV3.TransmitV3 | entropyops-helper/internal/transport/agenticudp_v3.go:310-315 | one datagram when the payload fits, fragments otherwise; the outcome is explained by the first fault met |
| FragmentV3.FragmentShape | entropyops-helper/internal/transport/agenticudp_v3.go:265-288 | fragments are non-empty, within capacity, verify, and carry kind, tier, number, stream, message ID, offset, total and content ID in their headers, with START and END exactly at the ends |
| FragmentV3.EntriesMatch | entropyops-helper/internal/transport/agenticudp_v3.go:290-301 | each datagram of a call has its own inflight entry, which its header's number and stream match |
| ReceiverV3.Rejoins | entropyops-helper/internal/transport/agenticudp_v3.go:265-288 | a receiver that files parts by offset and takes the total from what arrived has the concatenated parts exactly when every datagram of the message has arrived, and nothing before |
| FragmentV3.RoundTrip | entropyops-helper/internal/transport/agenticudp_v3.go:242-315 | so it has exactly the payload, sent as one datagram or as fragments, once all of them have arrived in any order, with repeats and foreign datagrams, and nothing before |
| BenchMerge.MergeChunks | entropyops-helper/cmd/eo-bench-merge/main.go:292-453 | computes the merge: refuses exactly the chunk lists that disagree with the first chunk or within a path |
| BenchMerge.MergedPaths | entropyops-helper/cmd/eo-bench-merge/main.go:336-453 | the result has exactly the paths that occur, each with the statistics of its pooled samples and failures, summed counters and wall clock, and worst status |
| MergeSums.MergedCounts | entropyops-helper/cmd/eo-bench-merge/main.go:396-433 | timeouts, non-OK, other errors and the UDP counters of a merged path are the arithmetic sums over its runs, and attempted is the number of samples plus those failures |
| MergeSums.MergedWall | entropyops-helper/cmd/eo-bench-merge/main.go:424-438 | the wall clock is the sum to the nearest thousandth, and the throughput by it counts every attempted span |
| MergeSums.StatusRanks | entropyops-helper/cmd/eo-bench-merge/main.go:538-561 | the documented order of badness of the statuses |
| MergeOrder.MergeEqualsOneRun | entropyops-helper/cmd/eo-bench-merge/main.go:336-453 | however a path's run is cut and the chunks ordered, an accepted merge reports what the uncut run gives, except that the status is the uncut run's exactly when no failure, or that very status, is the worst reported |
| MergeOrder.AcceptedIff | entropyops-helper/cmd/eo-bench-merge/main.go:301-352 | chunks are accepted exactly when there are some, all agree with the first on batch size and on the mode where both name one, and all runs of a path have one batch size |
| MergeOrder.EveryOrderAccepted | entropyops-helper/cmd/eo-bench-merge/main.go:301-318 | every order of the chunks is accepted exactly when all batch sizes agree, of the chunks and within each path, and all modes that are given are equal |
| MergeOrder.OrderMatters | entropyops-helper/cmd/eo-bench-merge/main.go:310-315 | for any two different modes, three chunks that are merged in one order and refused in another |
| MergeOrder.WorstIsWorst | entropyops-helper/cmd/eo-bench-merge/main.go:355-359 | the status kept is reported by some run and at least as bad as every run's |
| MergeOrder.StatusOrder | entropyops-helper/cmd/eo-bench-merge/main.go:538-561 | the worst status is the same in every order exactly when all chunks of the highest rank report the same |
| MergeOrder.CutChangesTheStatus | entropyops-helper/cmd/eo-bench-merge/main.go:444-450 | a run that succeeds and then fails, cut in between, is merged as FAIL_TIMEOUT instead of PASS_WITH_FAILURES |
| BenchStats.OrderFree | entropyops-helper/internal/benchstats/stats.go:144-171 | the summary depends only on the multiset of samples |
| BenchStats.SummaryMeaning | entropyops-helper/internal/benchstats/stats.go:144-229 | count, attempts, p50/p90/p99, mean, minimum and maximum in terms of the samples as given |
| BenchStats.CountsMeaning | entropyops-helper/internal/benchstats/stats.go:198-229 | counts and status in terms of the samples and failures |
| BenchStats.RateMeaning | entropyops-helper/internal/benchstats/stats.go:208-210 | the failure rate is the percentage of failed attempts, to the nearest hundredth |
| BenchStats.ThroughputMeaning | entropyops-helper/internal/benchstats/stats.go:166-168 | spans per second at the mean latency, to the nearest tenth |
| BenchStats.Roundings | entropyops-helper/internal/benchstats/stats.go:342-348 | results lie on the grid and within half a step |
| BenchStats.RoundIsNearest | entropyops-helper/internal/benchstats/stats.go:342-348 | nearest whole number, ties away from zero |
| BenchStats.PercentileMeaning | entropyops-helper/internal/benchstats/stats.go:295-327 | a whole-number percentile is the ceil(p*n/100)-th smallest sample, ties included |
| BenchStats.NearestRank | entropyops-helper/internal/benchstats/stats.go:314-327 | the epsilon in the index does not disturb whole-number percentiles |
| BenchStats.Mean | entropyops-helper/internal/benchstats/stats.go:331-340 | the loop computes the arithmetic mean, zero for no samples |
| BenchMerge.IsCrossPathIsolated | entropyops-helper/cmd/eo-bench-merge/main.go:512-529 | true exactly for two or more non-empty chunks with no path occurring twice anywhere |
| MergeOrder.IsolationIff | entropyops-helper/cmd/eo-bench-merge/main.go:495-529 | that is the documented disjointness of the chunks' paths, and no path repeated within a chunk; the two differ exactly when disjoint chunks repeat a path |
| MergeOrder.RepeatedPathRefused | entropyops-helper/cmd/eo-bench-merge/main.go:519-526 | a path twice in one chunk next to another path in a second: documented as isolated, and not found so |

## Left out

- Sockets, DTLS, tickers, environment variables and logging: steps and a clock take their place; times are natural numbers of nanoseconds.
- JSON and protobuf encoding: payloads are byte sequences, records have an abstract size function that grows with the records.
- FNV-1a content IDs: content IDs are arbitrary, so every result holds for any hash, collisions included.
- Congestion predictor, AI tier classification and changes of settings at run time: settings are constant during a run.
- Numbering and writing a datagram are one step of `ClientModel`: in the code another sender may take the next number, and write first, between the two. The network does not keep order anyway, and V3 fragments may carry any numbers.
- Backoff.ClosedForm: for ceilings that fit int64 nanoseconds (292 years); `Backoff.NoOverflowIff` is exact about that.
- Backoff.Monotone: for the same ceilings.
- Patience.NeverGivesUpEarly: the bound for packets with NACKs is for settings whose timeouts never shrink, as `Backoff.Monotone` characterises them; without NACKs it is for all settings.
- FragmentV3.TransmitFragmented: as a sequential call, so that the numbers are consecutive; that other senders may interleave is covered by the lemmas about the fragments, which hold for any numbers.
- FragmentV3.TransmitV3: the same.
- `ClientV3.inflightMsgs`: registered but never updated in the code, so there is nothing to prove; a V3 server is not in the code base.
- The polling of `waitForInflightWindow` and its deadline: a stall outcome of a send, and the moment a sender is let through (`Window`). The first attempt of `sendChunkedSignal` and single sends do not wait, so the bound is for paced senders.
- ReceiverCode.Receiver.Admit: for one peer; the texts of the handshake answer and of a pending configuration are inputs, and traversal modes are not modelled.
- ReceiverCode.Receiver.Dispatch: as for Admit; the traversal counters and the contents of metrics packets are not modelled.
- ReceiverCode.Receiver.Process: accepted payloads are listed as they are passed on; their routing by type is not modelled.
- ReceiverCode.Receiver.HandlePacketWithReply: as for Admit and Process.
- Retransmission under key reuse after 2^32 sends.
- An unbuffered coalescer channel (capacity 0): a hand-over that needs a waiting worker is modelled as a direct write; the flush-latency counters are not modelled.
- A hang of reassembly also stops the goroutine that reads the socket; only the lock it holds is modelled.
- BenchMerge.MergeChunks: floating point is modelled by reals with the code's rounding functions; milliseconds per span (not finite for a batch size of zero), retained samples, failure messages, notes and file metadata are not modelled.
- Last round-trip time of the client, and payloads of `sendChunkedSignal` that are not lists (these return the size error).
- Deployment.Link.DeliverUp: the calls of the objects are sequential; interleavings of their critical sections are runs of `Session`, not of the objects. The ACK of a configuration is written by the client but not followed further.
- OTLP translation, storage backends, HTTP handlers and the benchmark driver.
