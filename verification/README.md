# PBNS: a verified model of the state kept across faulty I/O and power loss

PBNS is a USB network proxy (C firmware for a Pico W), a C core shared with its clients, and the
tools around them. This project models the parts whose promises are about state: what survives
when flash writes are cut short, endpoints answer anything, bytes are corrupted, processes are
killed and clocks go back. Imperative code is modelled as classes and methods with loops, each
proved equal to a function on values; the theorems are about those functions and hold for every
input, every reply of the environment and every run.

| module | models | main results |
|---|---|---|
| `Crc32c`, `CrcTrailer` | the checksum, bit by bit and by table, and stored behind what it covers | both loops compute one fold; a change inside four consecutive octets is always detected; exactly which changes across the stored checksum are not |
| `Cobs` | the zero-free record encoding | round trip, exact sizes, and exactly which records the decoder accepts |
| `Frame`, `RecordReader` | frames and the record reader | frames arrive complete and in order however the stream is cut; exactly which changed windows are refused |
| `ByteRing`, `BytePump` | the wrapping ring and the bidirectional pump | no octet lost, repeated or reordered; the pump never wedges |
| `TcpEndpoint`, `TunnelTask` | the lwIP side, the tunnel step and its tail deadline | end-to-end order over every interleaving, and the pump's steps and batches are such runs; window conservation; no tail is stranded |
| `Utf8`, `CredentialCodec` | the text validator and the CBOR record | both accept exactly the standard's set |
| `AbStore`, `CredentialStore`, `CredentialRecords`, `AntiRollback` | the two-slot stores | atomic and durable over any run of torn writes; versions never go back |
| `NetworkController` | the connection controller | call order, balance of starts and closes, back-off over whole runs |
| `Provisioning` | the button gate, the session and the provisioning loop | safety of every run against the history of observable events |
| `Diagnostic`, `RawTunnelDiagnostic` | the diagnostic and its reboot record | exact codec, one changed word refused, exact classification |
| `SwtpmPause` | the swtpm pause transaction | the paused marker is truthful under kills anywhere; exactly when an attempt completes |
| `Uf2` | the firmware image check | accepts exactly the images whose blocks are complete, disjoint and in range |

`Bytes` holds octets, big-endian integers and result codes.

## Where the code does not keep a promise in full

Each of these is proved both ways: when the promise holds, and inputs for which it does not.

- `pico/README.md:49` says that USB disconnection resets the retry state. The code does so exactly
  when the controller is neither down nor stopped (`NetworkController.UsbLossResets`); after an
  expired back-off it does not (`NetworkController.RetrySurvivesUsbLoss`).
- A direction of the pump that had both thresholds could make no call in a successful pass;
  `BytePump.NeverWedges` gives the exact condition. The pump gives each direction only one of them.
- Arming the watchdog overwrites one scratch register before the old magic is cleared. Registers one
  word away from a record can become readable by it (`Diagnostic.OverwriteCanRestore`); a readable
  record becomes unreadable or stays the same.
- A pause attempt killed between removing the runtime directory and removing `swtpm.pid` leaves a
  transaction that nothing completes while that file stays. `SwtpmPause.StrandedByPidFile` gives such
  a run for every live swtpm, `SwtpmPause.StrandedExample` for one written out, and
  `SwtpmPause.StuckForGood` covers every run from there; `SwtpmPause.AttemptSucceedsExactly` is the
  exact condition for an attempt to complete.
- The record checksum of a frame is stored high octet first behind a reflected CRC, so a changed
  window across the start of the trailer can go unnoticed. `Frame.WindowIsDecided` says exactly when:
  the last payload octet changed by 0x5d, or the last two by 0x4d and 0x90, with the first octets of
  the trailer changed to match. `Frame.FramesCanSlip` gives two pairs of frames that the decoder
  accepts.

## What is assumed

- Flash (`CredentialStore.Flash`): a read that succeeds is faithful; a successful erase leaves the sector
  erased; a failed one leaves the slot's octets or a slot that does not verify; a program operation
  changes nothing outside its range and may leave anything inside it.
- NVRAM (`AntiRollback.Nvram`): a read that succeeds is faithful; a write leaves the other variable
  alone and its own as it was, as requested, or not decodable.
- TCP delivers no data after the end of the stream (`TcpEndpoint.Enabled`).
- A process number together with its start time is never used twice (`SwtpmPause.Enabled`), and the
  process recorded before the transaction did exist (`SwtpmPause.Untouched`).
- Endpoint callbacks, clocks, random numbers, USB events and lwIP results are arbitrary inputs.

## Model

| member | source | states |
|---|---|---|
| `Crc32c.BitwiseChecksum` | tools/make_frame_vectors.py:16-22 | the nested loop over octets and bits computes the register fold that defines the checksum |
| `Crc32c.EntryIsShifted` | src/core/crc32c.c:6-71 | every one of the 256 table entries is its index shifted eight times |
| `Crc32c.TableStep` | src/core/crc32c.c:79-82 | one table look-up equals absorbing an octet bit by bit |
| `Crc32c.TableChecksum` | src/core/crc32c.c:73-84 | the table-driven loop computes the same checksum as the bitwise one |
| `Crc32c.WindowDetected` | tools/make_frame_vectors.py:13-22 | two messages of equal length that differ only inside four consecutive octets have equal checksums if and only if they are equal |
| `Crc32c.ChecksumDetects` | src/core/crc32c.c:73-84 | the same, as the property every record below relies on |
| `Cobs.EncodeNonZero` | src/core/cobs.c:28-81 | no encoding contains a zero octet |
| `Cobs.EncodeSize` | src/core/cobs.c:28-81 | an encoding is one octet longer than its message, plus one for each full run of 254 |
| `Cobs.MaxEncodedSizeIsTight` | src/core/cobs.c:14-26 | the advertised maximum bounds every encoding, is reached by every zero-free message, and is refused exactly when it overflows |
| `Cobs.RoundTrip` | src/core/cobs.c:28-133 | decoding an encoding gives the message back |
| `Cobs.DecodeExact` | src/core/cobs.c:83-133 | re-encoding a decoded message gives the record, or the record and one octet 1 exactly when its last block is full |
| `Cobs.DecodeAcceptsExactly` | src/core/cobs.c:83-133 | a record decodes to a message if and only if it is its encoding, or that encoding without the last octet when the message ends with a zero-free run of a positive multiple of 254 octets |
| `Cobs.AtMostTwoRecords` | src/core/cobs.c:83-133 | a message has at most two accepted records |
| `Cobs.EncodeInto` | src/core/cobs.c:28-81 | the encoder succeeds exactly when the buffer holds the encoding, and then writes exactly it |
| `Cobs.EncodeAppending` | tools/make_frame_vectors.py:25-44 | the append-style encoder yields the same encoding |
| `Cobs.TakeRun` | src/core/cobs.c:112-128 | copying one block keeps what is decoded plus what is left to decode and the room asked for, or finds the format or capacity error that comes first |
| `Cobs.DecodeOne` | src/core/cobs.c:97-129 | the same for a whole loop body, with its checks of the block's length and room |
| `Cobs.DemandIsSize` | src/core/cobs.c:97-129 | the room the blocks of a decodable record ask for is the size of its message |
| `Cobs.DecodableOutcome` | src/core/cobs.c:83-133 | a decodable record succeeds exactly when its message fits, and is over the limit otherwise |
| `Cobs.DecodeInto` | src/core/cobs.c:83-133 | the exact status for every record and capacity, malformed records and short buffers included, and the message on success |
| `Frame.DecodeRawExactly` | src/core/frame.c:107-284 | a raw record decodes to a frame and payload if and only if they are admissible under the limits and it is their raw record |
| `CrcTrailer.ChecksumTrails` | src/core/frame.c:178-179 | messages that differ only in their last one, two or three octets have checksums that agree in the other three, two or one last octets if and only if they are equal or changed by 0x5d, or by 0x4d 0x90; the rest of the checksum then changes by a fixed pattern |
| `Frame.WindowIsDecided` | src/core/frame.c:193-284 | an accepted raw record changed inside any four consecutive octets is accepted if and only if the change is one of two fixed patterns across the start of the trailer and the payload is still valid for its kind |
| `Frame.FramesCanSlip` | src/core/frame.c:193-284 | two pairs of request frames whose accepted records differ only in four consecutive octets, one for each pattern |
| `Frame.RecordSize` | src/core/frame.c:144-154 | every record fits the advertised wire size |
| `Frame.RecordDecodes` | src/core/frame.c:107-284 | every admissible frame comes back from its COBS record |
| `Frame.AcceptedRecord` | src/core/frame.c:193-284 | an accepted record is the record of the frame it yields, or that record without a final empty block |
| `Frame.BuildRaw` | src/core/frame.c:161-179 | the scratch buffer holds the raw record, both checksums included |
| `Frame.Encode` | src/core/frame.c:107-191 | success exactly for admissible frames and large enough buffers, with the record and its terminator written; otherwise the first failed check is reported, and the limit error if only the buffers are too small |
| `Frame.Decode` | src/core/frame.c:193-284 | the decision and the frame, for every record, all limits and every size of the scratch buffer |
| `RecordReader.ChunksDoNotMatter` | src/core/record_reader.c:51-108 | the records received do not depend on how the stream is cut into chunks |
| `RecordReader.ReceiveRecord` | src/core/record_reader.c:74-105 | a zero-free record that fits is received at its terminator, and nothing of what follows is touched |
| `RecordReader.BadRecordStops` | src/core/record_reader.c:74-103 | an empty record and one longer than the storage are refused at their terminator, and the reader stops |
| `RecordReader.WireIsReceived` | src/core/record_reader.c:41-108 | a stream of terminated records yields exactly those records |
| `RecordReader.FramesArrive` | src/core/record_reader.c:41-108 | any admissible frames, encoded, sent and cut anywhere, are received and decoded complete and in order |
| `RecordReader.StreamReader.constructor` | src/core/record_reader.c:29-39 | a new reader is empty |
| `RecordReader.StreamReader.Reset` | src/core/record_reader.c:41-49 | a reset reader is as new |
| `RecordReader.StreamReader.TakeOctet` | src/core/record_reader.c:74-105 | one octet has the effect of the value-level step |
| `RecordReader.StreamReader.Feed` | src/core/record_reader.c:51-108 | state, status and consumed count after a chunk |
| `ByteRing.TwoPushesFill` | pico/src/byte_ring.c:15-27 | two writes always reach every free cell, so a ring refuses data only when full |
| `ByteRing.ByteRing.constructor` | pico/src/byte_ring.c:29-39 | a new ring is empty over the given storage |
| `ByteRing.ByteRing.Reset` | pico/src/byte_ring.c:41-47 | a reset ring is empty |
| `ByteRing.ByteRing.Writable` | pico/src/byte_ring.c:57-73 | the lent range is the contiguous free space behind the tail |
| `ByteRing.ByteRing.Commit` | pico/src/byte_ring.c:75-84 | exactly the lent octets are appended to the queue, or nothing changes |
| `ByteRing.ByteRing.Accept` | pico/src/byte_ring.c:57-84 | filling and committing appends the data and touches no other cell |
| `ByteRing.ByteRing.Restore` | pico/src/pico_network.c:80-105 | restoring the length undoes the commits since it was saved |
| `ByteRing.ByteRing.Readable` | pico/src/byte_ring.c:86-103 | the view is the longest contiguous front of the queue |
| `ByteRing.ByteRing.Consume` | pico/src/byte_ring.c:105-126 | exactly that many octets leave the front of the queue, or nothing changes |
| `BytePump.SettleWriteCases` | pico/src/byte_pump.c:55-76 | an accepted write removes exactly the reported front of the queue; every other reply leaves the direction alone |
| `BytePump.SettleReadCases` | pico/src/byte_pump.c:95-122 | an accepted read appends exactly what was given; only an empty success closes |
| `BytePump.ProcessConserves` | pico/src/byte_pump.c:47-132 | delivered plus buffered equals buffered before plus arrived, whatever the replies and even on failure |
| `BytePump.NeverWedges` | pico/src/byte_pump.c:39-132 | the exact condition under which a successful pass makes no call |
| `BytePump.StepLawful` | pico/src/byte_pump.c:207-248 | every step conserves both directions and fails the pump exactly on an error |
| `BytePump.StepNeverWedges` | pico/src/byte_pump.c:207-248 | in a successful step each direction calls an endpoint unless it is closed and drained |
| `BytePump.BatchConserves` | pico/src/byte_pump.c:257-297 | a batch of at most eight steps conserves both directions |
| `BytePump.BatchReads` | pico/src/byte_pump.c:79-123 | the read generation is the same after a batch if and only if the batch took no octet |
| `BytePump.AtMostOneForcedWrite` | pico/src/byte_pump.c:257-297 | a batch lets at most one write below the threshold through, and none unless forced |
| `BytePump.PumpDirection.WriteOut` | pico/src/byte_pump.c:47-77 | the in-place write equals the value-level one |
| `BytePump.PumpDirection.ReadIn` | pico/src/byte_pump.c:79-123 | the in-place read equals the value-level one |
| `BytePump.PumpDirection.Run` | pico/src/byte_pump.c:125-132 | write first, then read, stopping at an error |
| `BytePump.BytePump.Reset` | pico/src/byte_pump.c:177-189 | rings, flags and generations are as new |
| `BytePump.BytePump.Cancel` | pico/src/byte_pump.c:191-198 | both rings are emptied and the pump is cancelled |
| `BytePump.BytePump.IsComplete` | pico/src/byte_pump.c:200-205 | complete exactly when both directions are closed and drained and nothing failed |
| `BytePump.BytePump.StepWithPolicy` | pico/src/byte_pump.c:207-248 | the in-place step equals the value-level one |
| `BytePump.BytePump.BatchWithPolicy` | pico/src/byte_pump.c:257-297 | the in-place batch equals the value-level one |
| `TcpEndpoint.WriteReportsWhatItQueued` | pico/src/tcp_write_outcome.c:5-41 | a report of success is what TCP took; TCP takes unreported octets only with an error that stops the pump |
| `TcpEndpoint.TcpReadCases` | pico/src/pico_network.c:176-209 | a successful read moves exactly the front of the receive queue and credits exactly that much |
| `TcpEndpoint.NextKeepsLaw` | pico/src/pico_network.c:41-271 | every callback and every pump call keeps the law of the byte path |
| `TcpEndpoint.EndToEnd` | pico/src/pico_network.c:41-271 | over every interleaving, both directions deliver a prefix of what arrived, nothing is lost while the pump has not failed, closing waits for an empty receive queue, and completion means all was delivered |
| `TcpEndpoint.StepIsRun` | pico/src/byte_pump.c:207-248 | a pump step over the TCP endpoints, with callbacks in between, is a run of those events, and its calls are what the history records |
| `TcpEndpoint.BatchIsRun` | pico/src/byte_pump.c:257-297 | the same for a batch |
| `TcpEndpoint.BatchKeepsOrder` | pico/src/main.c:411-424 | after any run, a batch over the TCP endpoints appends what it moved to both streams, keeps their order, and has delivered everything if it completes the pump |
| `TcpEndpoint.WindowNeverOverruns` | pico/src/pico_network.c:74-109 | accepted minus credited octets is what the receive queue holds, so a peer within its 16 KiB window is never refused |
| `TcpEndpoint.PicoNetwork.CopyPacket` | pico/src/pico_network.c:80-107 | the copy loop appends the whole packet, or rolls back and leaves the queue as it was |
| `TcpEndpoint.PicoNetwork.Received` | pico/src/pico_network.c:41-110 | the receive callback for a packet with data |
| `TcpEndpoint.PicoNetwork.Read` | pico/src/pico_network.c:176-209 | the in-place read equals the value-level one |
| `TcpEndpoint.PicoNetwork.Write` | pico/src/pico_network.c:218-271 | the in-place write equals the value-level one |
| `TunnelTask.TaskKeepsSteady` | pico/src/main.c:371-450 | every call keeps the tail pending exactly while a short tail waits in an open direction |
| `TunnelTask.RunKeepsSteady` | pico/src/main.c:371-450 | the same after any run |
| `TunnelTask.LastInputIsTracked` | pico/src/tail_deadline.c:29-39 | in every run from a new tunnel, while octets wait, the tail's time is the end of the last call whose batch took an octet |
| `TunnelTask.TailIsOffered` | pico/src/main.c:371-450 | after any run from a new tunnel some call was the last to take input, and the next call with the link up is forced if and only if the delay since that call has passed, and then offers the short tail to TCP first |
| `TunnelTask.FirmwareTunnel.constructor` | pico/src/main.c:334-355 | a new tunnel is steady, with nothing waiting and a network controller at its start |
| `TunnelTask.FirmwareTunnel.Settle` | pico/src/main.c:429-444 | cancel on error or completion, otherwise observe the input and set the tail |
| `TunnelTask.FirmwareTunnel.ObserveUsb` | pico/src/main.c:375-387 | resets on disconnection |
| `TunnelTask.FirmwareTunnel.ObserveReady` | pico/src/main.c:394-400 | resets on a change of readiness |
| `TunnelTask.FirmwareTunnel.Run` | pico/src/main.c:371-450 | the in-place call steps the network, runs the value-level task on the readiness that follows, and returns the exact idle result |
| `Utf8.AcceptsExactly` | pico/src/credentials.c:61-121 | the validator's steps accept exactly the concatenations of RFC 3629 encodings of Unicode scalar values |
| `Utf8.IsValid` | pico/src/credentials.c:61-121 | the loop returns true exactly for those texts |
| `CredentialCodec.HeadRoundTrip` | pico/src/credentials.c:205-233 | the shortest CBOR head reads back |
| `CredentialCodec.EncodedSize` | pico/src/credentials.c:205-233 | every valid credential encodes in at most 399 octets |
| `CredentialCodec.DecodeExactly` | pico/src/credentials.c:251-364 | the decoder accepts a string if and only if it is the deterministic encoding of a valid credential, and returns that |
| `CredentialCodec.RoundTrip` | pico/src/credentials.c:235-364 | encoding a valid credential succeeds and decodes to it |
| `AbStore.AttemptIsAtomic` | pico/src/credentials.c:447-598 | a write cut short anywhere leaves the old or the new value in force, never an ambiguous pair |
| `AbStore.RunIsDurable` | pico/src/credentials.c:503-633 | over any run the value in force is that of an operation after which none was acknowledged; slots stay one generation apart |
| `CredentialStore.DataRoundTrip` | pico/src/credentials.c:384-492 | a data record verifies and gives back generation, tombstone and credentials |
| `CredentialStore.CommitRoundTrip` | pico/src/credentials.c:416-501 | a commit page validates for its generation |
| `CredentialStore.UncommittedIsUnverified` | pico/src/credentials.c:424-445 | without a commit page a slot is not in force, whatever its data |
| `CredentialStore.CommitIsAtomic` | pico/src/credentials.c:424-445 | behind a written data record, any commit page leaves the slot unverified or holding exactly the new value |
| `CredentialStore.Store.ReadSlot` | pico/src/credentials.c:424-445 | a successful read is the slot as the flash holds it |
| `CredentialStore.Store.WriteSlot` | pico/src/credentials.c:552-594 | erase, program, read-back and commit leave the slot old, unverified or new, and new on success |
| `CredentialStore.Store.Commit` | pico/src/credentials.c:578-594 | the commit step leaves the slot unverified or new |
| `CredentialStore.Store.WriteInactive` | pico/src/credentials.c:535-594 | ambiguity and an exhausted generation are refused, each with its status, before any erase; only the inactive sector is touched |
| `CredentialStore.Store.WriteTransaction` | pico/src/credentials.c:503-598 | the whole transaction is atomic under every fault, reports invalid storage and values, a failed read, ambiguity and exhaustion with their status and no change, and succeeds on reliable flash |
| `CredentialStore.Store.Load` | pico/src/credentials.c:600-633 | the status is that of a failed read, or says exactly what is in force; the value is the one in force |
| `CredentialStore.Store.Perform` | pico/src/credentials.c:503-642 | any sequence of stores and clears, each failing anywhere, is a run of the two-slot store with the reported outcomes, and what is then in force |
| `CredentialStore.PerformFromErased` | pico/src/credentials.c:503-642 | from erased flash, after any stores and clears that fail anywhere, a load that can read gives the value of an operation after which none was acknowledged, or none |
| `CredentialRecords.CredentialsAreLawful` | pico/src/credentials.c:132-364 | credentials with CRC-32C and CBOR obey the law the store asks for |
| `CredentialRecords.ErasedFlashIsSound` | pico/src/credentials.c:424-461 | erased flash is a sound start |
| `CredentialRecords.RunFromErased` | pico/src/credentials.c:503-642 | the same for the firmware's own credential records |
| `AntiRollback.RecordRoundTrip` | src/core/anti_rollback.c:43-61 | an encoded record decodes to its generation and version |
| `AntiRollback.RecordIsExact` | src/core/anti_rollback.c:43-61 | a record that decodes is the encoding of what it decodes to |
| `AntiRollback.AdvanceKeepsOrder` | src/core/anti_rollback.c:169-226 | an advance, torn or not, keeps higher generations on higher versions and never lowers the version read |
| `AntiRollback.VersionsNeverGoBack` | src/core/anti_rollback.c:110-226 | over any run of torn or failed advances later reads never return a lower version, and generations never tie |
| `AntiRollback.AcknowledgedIsKept` | src/core/anti_rollback.c:169-226 | a version whose advance was acknowledged is never undercut later |
| `AntiRollback.Controller.ReadState` | src/core/anti_rollback.c:110-144 | the status is that of a failed read or tells a tie; success gives the state of the newer valid slot |
| `AntiRollback.Controller.WriteInactive` | src/core/anti_rollback.c:202-225 | the write goes to the inactive slot, and success means it was read back |
| `AntiRollback.Controller.Advance` | src/core/anti_rollback.c:169-226 | success returns the target version and the next generation; a bad argument, a failed read, a tie, a replay, an authorization and exhaustion are refused without a write, each with its status |
| `AntiRollback.Controller.AdvanceAll` | src/core/anti_rollback.c:169-226 | any sequence of targets is such a run, one operation for each; every acknowledged target stays a lower bound |
| `NetworkController.LegalCallsBalance` | pico/src/network.c:17-74 | in any legal order of calls starts and closes balance but for an open one |
| `NetworkController.DelayBounds` | pico/src/network.c:38-65 | a delay lies between its nominal value and a quarter more, and within eight seconds |
| `NetworkController.StreakIsSorted` | pico/src/network.c:44-74 | the delays of a streak of failures never decrease |
| `NetworkController.StepInOrder` | pico/src/network.c:109-183 | every step makes its calls in a legal order |
| `NetworkController.StepInStreak` | pico/src/network.c:109-183 | every step keeps the failure count, the delays and the deadline in step |
| `NetworkController.EveryRun` | pico/src/network.c:109-183 | after any run: ready exactly when start, WiFi, TCP and session succeeded in that order; starts minus closes; sorted and bounded delays; the deadline |
| `NetworkController.DeadlinesAreExact` | pico/src/network.c:25-36 | a connecting phase is polled before its deadline of 30, 10 or 15 seconds and given up with a timeout from then on |
| `NetworkController.RandomFailureIsSticky` | pico/src/network.c:44-57 | after a failed random source nothing is called and nothing changes |
| `NetworkController.UsbLossResets` | pico/src/network.c:122-132 | exactly when a USB loss resets the retry state |
| `NetworkController.RetrySurvivesUsbLoss` | pico/src/network.c:122-174 | a run in which it does not |
| `NetworkController.Controller.Schedule` | pico/src/network.c:44-74 | the in-place back-off equals the value-level one |
| `NetworkController.Controller.Poll` | pico/src/network.c:87-107 | the in-place poll equals the value-level one |
| `NetworkController.Controller.Advance` | pico/src/network.c:109-183 | the in-place step equals the value-level one |
| `Provisioning.GateStepKeeps` | pico/src/provision_gate.c:24-78 | the gate opens exactly at the sample that completes an uninterrupted press of two seconds |
| `Provisioning.FeedAllKeeps` | pico/src/main.c:503-541 | the read loop interprets exactly the lines of the session, each at its newline |
| `Provisioning.TurnKeeps` | pico/src/main.c:554-564 | a turn of the main loop keeps the invariant |
| `Provisioning.EveryRunIsSafe` | pico/src/main.c:467-564 | in every run activation needs a held press, lines need a session opened after it and hold only what arrived after the opening, stores need a SET line, a reboot needs a confirmed last line |
| `Provisioning.StoreIsAuthorised` | pico/src/main.c:241-267 | whenever the credential store is reached, the held press before it and the line it came from |
| `Provisioning.SetLineIsInterpreted` | pico/src/main.c:503-541 | a SET line for any record of 1 to 448 octets fits the buffer and is interpreted as sent |
| `Provisioning.ProvisionGate.Due` | pico/src/provision_gate.c:24-34 | when a sample is due |
| `Provisioning.ProvisionGate.Observe` | pico/src/provision_gate.c:36-78 | the in-place observation equals the value-level one |
| `Provisioning.ProvisionSession.Start` | pico/src/provision_gate.c:95-103 | an open link must close first |
| `Provisioning.ProvisionSession.Observe` | pico/src/provision_gate.c:105-136 | the new state, the status and whether the session has just opened |
| `Provisioning.ProvisionParser.FinishLine` | pico/src/main.c:509-530 | a completed line is refused, reboots or is processed, and the buffer is emptied |
| `Provisioning.ProvisionParser.Take` | pico/src/main.c:531-540 | an octet is collected, or an overlong line given up |
| `Provisioning.ProvisionParser.ReadAll` | pico/src/main.c:503-541 | the loop equals the value-level one and empties the queue |
| `Provisioning.Provisioner.GateTask` | pico/src/main.c:456-478 | sampling, and activation with its flush |
| `Provisioning.Provisioner.AttendSession` | pico/src/main.c:480-502 | the session is observed, an opening flushes the queue and resets the parser |
| `Provisioning.Provisioner.ProvisioningTask` | pico/src/main.c:480-542 | the whole call equals the value-level one |
| `Provisioning.Provisioner.MainTurn` | pico/src/main.c:554-564 | a turn equals the value-level one and keeps the invariant |
| `Diagnostic.OrderIsNeeded` | pico/src/raw_tunnel_diagnostic.c:83-112 | an observation keeps a state consistent if and only if it comes in order |
| `Diagnostic.OrderlyRunIsConsistent` | pico/src/raw_tunnel_diagnostic.c:300-364 | any orderly run of observations ends consistent |
| `Diagnostic.RawState.constructor` | pico/src/raw_tunnel_diagnostic.c:290-298 | nothing observed |
| `Diagnostic.RawState.ObserveMilestone` | pico/src/raw_tunnel_diagnostic.c:300-310 | one known milestone is added, anything else refused |
| `Diagnostic.RawState.ObserveCdcRx` | pico/src/raw_tunnel_diagnostic.c:312-317 | a saturating count with its milestone |
| `Diagnostic.RawState.ObserveTcpRx` | pico/src/raw_tunnel_diagnostic.c:319-324 | a saturating count with its milestone |
| `Diagnostic.RawState.ObserveEnqueue` | pico/src/raw_tunnel_diagnostic.c:326-331 | a saturating count with its milestone |
| `Diagnostic.RawState.ObserveFlush` | pico/src/raw_tunnel_diagnostic.c:333-338 | a saturating count with its milestone |
| `Diagnostic.RawState.ObserveComplete` | pico/src/raw_tunnel_diagnostic.c:340-345 | a saturating count with its milestone |
| `Diagnostic.RawState.ObserveTcpIo` | pico/src/raw_tunnel_diagnostic.c:347-364 | a possible pair of results replaces the last one, with its milestones |
| `Diagnostic.Classify` | pico/src/raw_tunnel_diagnostic.c:391-444 | the result matches every consistent state, and is an internal failure for any other |
| `Diagnostic.TimeoutNamesFirstMissing` | pico/src/raw_tunnel_diagnostic.c:232-256 | a timeout or a closed port names the first missing milestone exactly for the sessions that can be diagnosed |
| `Diagnostic.DisorderIsInternal` | pico/src/raw_tunnel_diagnostic.c:132-230 | milestones that are not a prefix of the pipeline are never given a cause |
| `Diagnostic.DecodeExactly` | pico/src/raw_tunnel_diagnostic.c:446-511 | eight words decode to a state and result if and only if they are their encoding |
| `Diagnostic.ClassifiedRoundTrip` | pico/src/raw_tunnel_diagnostic.c:391-511 | for every consistent state and trigger the classified result encodes and decodes to itself |
| `Diagnostic.OneWordIsDetected` | pico/src/raw_tunnel_diagnostic.c:281-288 | a record with any one of its eight words changed is refused, for any detecting checksum |
| `Diagnostic.CopyRecord` | pico/src/raw_tunnel_diagnostic_main.c:70-77 | every intermediate content of the registers has no magic |
| `Diagnostic.OverwriteCanRestore` | pico/src/raw_tunnel_diagnostic_main.c:69-71 | overwriting one register can make unreadable registers readable |
| `Diagnostic.RecordWords` | pico/src/raw_tunnel_diagnostic_main.c:60-66 | the words written always decode, to what was asked for or to an internal failure |
| `RawTunnelDiagnostic.AnyOneWordIsDetected` | pico/src/raw_tunnel_diagnostic.c:474-511 | the same with CRC-32C |
| `RawTunnelDiagnostic.WriteScratchAndReboot` | pico/src/raw_tunnel_diagnostic_main.c:58-84 | for any state, result and prior registers the new record is there at the end, and a restart in between finds no mixture |
| `SwtpmPause.ActKeeps` | integration/swtpm/quiesce-swtpm-runtime.py:309-446 | every step, kill, exit and start of a process keeps the invariant |
| `SwtpmPause.PausedIsQuiesced` | integration/swtpm/quiesce-swtpm-runtime.py:309-446 | over any attempts killed anywhere the marker implies that the recorded process ended, both directories and all five metadata files are gone; an intent stays until the marker exists |
| `SwtpmPause.AdvanceRanks` | integration/swtpm/quiesce-swtpm-runtime.py:309-446 | every attempt ends |
| `SwtpmPause.AttemptSucceedsExactly` | integration/swtpm/quiesce-swtpm-runtime.py:349-444 | exactly when an undisturbed attempt completes a transaction that was begun |
| `SwtpmPause.FirstAttemptSucceedsExactly` | integration/swtpm/quiesce-swtpm-runtime.py:323-444 | exactly when an undisturbed first attempt pauses |
| `SwtpmPause.PausedStaysPaused` | integration/swtpm/quiesce-swtpm-runtime.py:316-322 | an attempt after the marker exists changes nothing but an intent that is left |
| `SwtpmPause.StrandedByPidFile` | integration/swtpm/quiesce-swtpm-runtime.py:309-396 | from every live swtpm there is a run that is killed once the directory is gone and leaves the transaction stuck |
| `SwtpmPause.StuckForGood` | integration/swtpm/quiesce-swtpm-runtime.py:316-444 | a stuck transaction stays stuck, and the marker absent, in every run that goes on while `swtpm.pid` stays |
| `SwtpmPause.StrandedExample` | integration/swtpm/quiesce-swtpm-runtime.py:309-396 | such a run from a machine written out |
| `Uf2.SortedKeeps` | tools/verify_uf2_range.py:94 | the sort orders the ranges and keeps each of them |
| `Uf2.NeighboursSuffice` | tools/verify_uf2_range.py:94-97 | after the sort, comparing neighbours is the same as comparing all pairs |
| `Uf2.SortedDisjoint` | tools/verify_uf2_range.py:94-97 | sorting does not change disjointness |
| `Uf2.DisjointPairs` | tools/verify_uf2_range.py:95-97 | disjointness is that of every two ranges |
| `Uf2.Scan` | tools/verify_uf2_range.py:53-93 | the scan passes exactly well-formed, distinctly numbered blocks, and the check for missing numbers never fires |
| `Uf2.CheckNeighbours` | tools/verify_uf2_range.py:95-97 | true exactly when no range starts before its predecessor ends |
| `Uf2.LargestEnd` | tools/verify_uf2_range.py:101 | the largest end |
| `Uf2.VerifyBlocks` | tools/verify_uf2_range.py:52-102 | acceptance and summary for a sequence of blocks |
| `Uf2.Verify` | tools/verify_uf2_range.py:43-102 | accepted if and only if the image is well formed, numbered by a permutation, disjoint and inside the range; the summary covers all blocks and has room for their total payload |

## Left out

- TLS, certificates, SHA-256, COSE, attestation, enrolment, recovery and trusted time: decided by cryptographic libraries or message formats that are not part of this model.
- DNS, WiFi association and the connection callbacks of pico/src/pico_network.c: only the ring, the receive callback and the two endpoints are modelled.
- The diagnostic build's extra branches in pico/src/pico_network.c and pico/src/main.c.
- QCBOR: replaced by the heads of section 3 of RFC 8949; tags, indefinite lengths and nested items are all refused as a format error, so the exact error code for such input is not modelled.
- Provisioning.EveryRunIsSafe: base64 decoding, the store and the fingerprint reply of a SET command are one input, how far the line gets; the link state is sampled once per turn, as the code does.
- Null arguments, uninitialised objects, overlapping buffers and memory wiping: single-branch facts.
- Anti-rollback in TPM mode: one call to the TPM.
- Loss of unsynchronised file system changes in the pause transaction: attempts are killed, the machine is not; file permissions, JSON syntax and path checks are taken as passed.
- SwtpmPause.ActKeeps: the transaction is a machine over values with one step per change, not a method over a file system, so that it can be killed and interleaved anywhere.
- Uf2.SortedKeeps: the library sort is a function on sequences, not an in-place algorithm.
- Frame.Encode: buffers that overlap are excluded, because the code refuses them before anything else.
- TunnelTask.FirmwareTunnel.Run: the flag that the tunnel is available at all, the flushes of CDC0 and the note of the failure to the network are not modelled.
- TcpEndpoint.StepIsRun: callbacks are placed before the TCP write and before the TCP read; elsewhere in a step they touch nothing the step uses.
- TunnelTask.FirmwareTunnel.constructor: the two rings have distinct, non-empty storage, as in the firmware.
- BytePump.BytePump.BatchWithPolicy: endpoints answer from their argument and the step number; they do not call back into the pump.
- USB descriptors, entropy, flash drivers and BOOTSEL sampling: hardware access.
- The broker, the stream sequencing of src/core/stream.c, and the provisioning and evaluation scripts.
