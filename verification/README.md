# Verified model of the meshx Bluetooth Mesh stack

This project models the protocol core of meshx, a Bluetooth Mesh stack in C (Mesh Profile 1.0.1), and proves what
its layers promise one another. Routines that change state in place are methods on classes or arrays, each proved
against a function on values; the laws of the protocol are lemmas about those functions. AES is a function
parameter of which nothing is assumed, and elliptic-curve key agreement is another.

Run `dafny verify dfyconfig.toml` in this directory.

## How it is laid out

- `Bytes`, `Mesh`: octets, big-endian numbers, bit fields, message contexts.
- `IvIndex`, `IvNode`, `TxNode`, `Scheduler`, `Fifo`, `FifoRuns`, `Messages`: the transmitting node as step functions (IV
  machine, sequence counters, the pool of transmit tasks) and its invariants over every run. `Freshness`, `Recovery`,
  `WrongIv`, `ControlNumbers`, `LogFree`, `Lineage`, `OnAirReuse`: which numbers can repeat, among all in use, among
  frames and among messages. `StoreRules`: when a message is stored, sent whole or refused, and what ends its task.
  `MeshNode` is the same state as a class whose methods change it in place.
- `NonceFormat`, `NonceOctets`: nonces, packets and encrypted messages octet by octet, and freshness said of the octets.
- `Segments`, `AckFormat`, `WireFormat`; `RxNode`, `RxPools`, `RxAnswers`, `RxTight`, `RxTraffic`, `SlotReuse`, `Overruns`:
  segment layout, SeqAuth recovery, and reassembly under arbitrary traffic. `MeshReceiver` is the receiver as a class.
- `Reassembly`, `Transport`, `AckMatching`, `Bursts`, `Repair`, `Completion`, `SeqAuthReuse`: the sender and its receivers
  over a network that loses, repeats, reorders and delays.
- `CcmSpec`, `Ccm`; `CmacSpec`, `Cmac`; `MacFormat`; `Crc`: RFC 3610, RFC 4493 and the 3GPP check octet, each as a
  definition, its laws, its octets, and the loops that compute it on arrays.
- `Network`, `NetAuth`, `NetBuffer`; `UpperTransport`, `UpperAuth`, `UpperBuffer`; `WholeStack`, `AirStack`: packets,
  obfuscation, message guards, what is accepted, and an access message through all layers and back.
- `PbAdv`, `PbAdvCheck`, `PbAdvDevice`: PB-ADV transactions and their check octet. `Provision`, `ProvisionSafety`,
  `ProvDevice`, `Agreement`, `LinkReopen`, `LinkReopenExample`: provisioning, what is refused in it, two honest parties,
  and what a repeated link open does to them.
- `List`, `GapQueue`, `GapProgress`, `GapLists`: the circular doubly linked list on the heap and the advertising queue
  built on it.

## Main results

- **Nonce freshness.** While callers send under the transmit IV, and control messages under numbers drawn for them, no
  (source, IV index, sequence number) below 0xFFFFFF is put to use twice in any run, unless an IV recovery meets a
  stored message that may still send (`Freshness.NonceFreshness`). The code checks none of the three. What each does
  is exact: the index (`WrongIv.IndexInContextIsSafeIffNormal`), the number (`ControlNumbers.FrameNumberIsSafeIff`,
  `ControlNumbers.SeqAuthIsSafeIff`), and the recovery, among all numbers in use
  (`Recovery.RecoveryIsSafeIffNothingMaySend`) and among frames (`OnAirReuse.AirSafeIffNoneEndangered`). It holds of
  the 13 octets that encryption gets (`NonceOctets.NetworkNoncesFresh`, `NonceOctets.AccessNoncesFresh`).
- **Authenticity.** What is heard, handed up or accepted is the sealing of exactly that, and every sealing is
  (`NetAuth.HeardIffSealed`, `UpperAuth.HandedUpIffSealed`, `ProvisionSafety.DataAcceptedIffSealed`).
- **Reassembly.** Whatever arrives, no copy leaves a buffer and every task stays consistent if and only if each
  arrival meets a condition on its header, its length and the task it finds (`RxTight.ArrivalSafeIff`,
  `RxTraffic.TightIffSound`). A message keeps its task if and only if it is not refused, and a refused one is cancelled
  at its sender (`RxAnswers.AnsweredIff`).
- **Segmentation safety.** When the sender ends a message as fully acknowledged, its destination has handed up exactly
  that message, control messages included while their SeqAuth is drawn for them (`Transport.SegmentationSafety`; with
  receivers that reset their slots `Transport.SegmentationSafetyWithReset`, with no condition on slots). Conversely,
  once all segments have arrived in whatever order, the message completes at both ends
  (`Completion.ArrivedMeansCompleted`).
- **Whole stack.** Access messages of at most 255 octets come back unchanged through access, upper transport,
  lower transport and network layer, segmented (`AirStack.SegmentedMessageGetsThrough`) or not
  (`WholeStack.UnsegmentedMessageArrives`).
- **Order.** Over every run each destination's messages are started or dropped in the order they were stored
  (`FifoRuns.RunKeepsOrder`).
- **Provisioning.** Every interleaving of two honest parties agrees on all keys and delivers the data
  (`Agreement.HonestRunsAgree`). Each PDU is accepted if and only if it meets a condition on its octets, and otherwise
  refused with the code of its fault (`ProvisionSafety`).
- **PB-ADV.** Fragments in any order rebuild only their message (`PbAdv.PacketsRebuildOnlyTheMessage`), and whatever
  traffic comes nothing is processed but what fits the check octet announced for it
  (`PbAdvCheck.OnlyCheckedIsProcessed`).
- **Refinement.** The CCM, CMAC and CRC loops compute their standards' definitions for every length.

## Where the code falls short of its promise

Each of these is a property that fails; the members named say exactly when. The model follows the code.

- An IV recovery (distance above 1) clears the counters without asking whether transport is busy:
  `Recovery.RecoveryIsSafeIffNothingMaySend`, `OnAirReuse.AirSafeIffNoneEndangered`.
- No layer sets or checks the IV index in a context; its caller must use the transmit IV. A caller that uses the IV
  index, as tests/meshx_provisioner.c:449 does, repeats numbers: `WrongIv.IndexInContextIsSafeIffNormal`,
  `WrongIv.IndexOnAirIsSafeIffNormal`.
- Upper transport draws a number for access messages only. A control message goes out under the numbers in its context,
  which nothing checks: one context used twice repeats a network nonce (`ControlNumbers.OneContextTwiceRepeatsFrame`;
  exactly when: `ControlNumbers.FrameNumberIsSafeIff`) or a SeqAuth (`ControlNumbers.SeqAuthIsSafeIff`), and a second
  segmented message under one SeqAuth ends as received though nobody was handed it
  (`SeqAuthReuse.SecondMessageIsLost`, `SeqAuthReuse.FreshNetworkLosesMessage`).
- The 96 hours a node should stay In Progress are kept if and only if it enters with the pending flag clear and a tick
  count of zero (`IvIndex.StaysFor96HoursIff`). The flag is never cleared (`IvIndex.StaleFlagSkipsInProgress`), and
  entering leaves the tick count as it is, so the promise is never kept (`IvIndex.EveryEntryCanEndAtOnce`).
  In Normal they are kept after a return at its time (`IvIndex.ReturnStaysFor96Hours`), and after a deferred one as
  far as the old tick count lets them (`IvIndex.DeferredReturnStaysIff`).
- Retries are counted in 8 bits, so a limit of 255, the largest there is, never ends a message:
  `StoreRules.TimeoutKeepsIff`.
- A reused reassembly slot keeps the old length and missing bits, and delivers the next message if and only if those
  happen not to matter: `SlotReuse.ReusedSlotDeliversIffUsable`, `SlotReuse.SpentSlotIsUnusable`. Without reset the
  end-to-end theorems ask for a usable slot, event by event; for a receiver that starts both fields from zero they
  ask for nothing.
- The length of a segment PDU is not checked: one too short for its header makes the copied length wrap
  (`Overruns.ShortSegmentOverruns`). Control and access segments of one source, IV index and SeqAuth share a task
  (`Overruns.MixedKindsOverrun`). `RxTight.ArrivalSafeIff` is the condition for both.
- Network reception checks no length, and upper reception none against the MIC; the lengths and keys for which they
  leave their buffers are `Network.ReceiveOverrunsIff` and `UpperTransport.UpperOverrunsIff`.
- Acknowledgements are matched on 13 bits of SeqAuth: `AckMatching.LateAckEndsNewMessageIffSameSeqZero`. The
  end-to-end theorems ask that an acknowledgement that ends a task was sent for it, which holds while messages with
  acknowledgements still under way differ in SeqZero (`AckMatching.EndsItsOwnTaskIfSeqZeroIsItsOwn`).
- Network and application keys are tried in place and a failed trial is not undone: `Network.TrialLeavesPacketIff`.
- Access message lengths are cut to 8 bits on their way to encryption, decryption and delivery:
  `UpperTransport.UpperRoundTrip`, `UpperTransport.LongMessageTailIsPlain`. Messages above 372 octets with their MIC
  are accepted and then dropped: `UpperTransport.LongAcceptedMessageIsDropped`.
- The access guard refuses more than the MIC agreement needs: `UpperTransport.GuardMakesMicsAgree`.
- CCM accepts 0xFF00 octets of associated data but encodes their length unlike RFC 3610:
  `CcmSpec.AddEncodingMatchesRfc`.
- PB-ADV processes a message twice when its acknowledgement could not be sent: `PbAdv.ProcessedOnceIffAckWasSent`. A
  start packet of the wrong length leaves its missing bits behind (`PbAdv.AfterBadStartCountRightIffSame`), after which
  a continuation numbered 0 can be written outside the receive buffer: `PbAdv.FaultIff`, `PbAdv.FaultReachableIffArmed`,
  `PbAdv.BadStartThenZeroContinueFaults`.
- A repeated link open makes the device draw new keys in the middle of provisioning:
  `LinkReopen.LinkOpenHarmlessIff`, `LinkReopenExample.ExampleBreaks`.
- Provisioning can move from closing back to failed: `Provision.StateMovesForward`.
- A report that scanning is idle starts no action, so a scan that waits alone is started only by the next action that is
  accepted or the next report that advertising is idle: `GapProgress.StartsIff`.

## Model

| member | source | states |
|---|---|---|
| `IvIndex.Tick` | mesh/node/meshx_iv_index.c:77-103 | the 96/144 hour tick moves the IV clock forward by one exactly when the transition is due and transport is not busy, defers it exactly when it is due and busy, and clears the counters exactly when the transmit IV rises |
| `IvIndex.Update` | mesh/node/meshx_iv_index.c:121-188 | a message moves the clock forward by exactly its distance when it is ahead, at most 42 indexes away, not early and not deferred, and otherwise leaves the index; the counters are cleared exactly when the transmit IV rises |
| `IvIndex.ClockNeverGoesBack` | mesh/node/meshx_iv_index.c:77-188 | over any run of ticks, updates and finished tasks 2 * index + (state is normal) and the transmit IV never decrease, and the transmit IV never wraps below zero |
| `IvIndex.StaysForIff` | mesh/node/meshx_iv_index.c:77-188 | a node In Progress is sure to stay so through k ticks, whatever messages and finished tasks come, if and only if the pending flag is clear and its tick count plus k is below 96 hours |
| `IvIndex.StaysFor96HoursIff` | mesh/node/meshx_iv_index.c:121-188 | the whole 96 hours of section 3.10.5 of the Mesh Profile: if and only if the flag is clear and the tick count is zero on entry |
| `IvIndex.EveryEntryCanEndAtOnce` | mesh/node/meshx_iv_index.c:170-185 | every message that takes a node into an In Progress state leaves a tick count of at least 96 hours, so that state can end with no tick at all |
| `IvIndex.EndsWithFlagClear` | mesh/node/meshx_iv_index.c:170-174 | a concrete entry with the flag clear that the next message, or the next tick, ends |
| `IvIndex.StaleFlagSkipsInProgress` | mesh/node/meshx_iv_index.c:86-91 | the pending flag is never cleared: a concrete run in which one deferred transition makes the next In Progress state end with no tick in between |
| `IvIndex.NormalStaysForIff` | mesh/node/meshx_iv_index.c:77-188 | the counterpart for Normal: a node is sure to stay through k ticks, whatever comes, if and only if its tick count plus k is below 96 hours |
| `IvIndex.ReturnStaysFor96Hours` | mesh/node/meshx_iv_index.c:87-99 | every return to Normal at its time, by a message (lines 163-169) or by the clock, is followed by 96 hours in Normal, whatever comes |
| `IvIndex.OwnClockReturnsAfter144Hours` | mesh/node/meshx_iv_index.c:77-103 | with no messages an idle node stays In Progress until its tick count reaches 144 hours, and then returns to Normal with a count of zero |
| `IvIndex.DeferredReturnStaysIff` | mesh/transport/meshx_lower_trans.c:386-394 | a return that was deferred keeps the old tick count: the node is sure to stay in Normal through k ticks if and only if that count plus k is below 96 hours |
| `IvIndex.LongestJump` | mesh/node/meshx_iv_index.c:77-188 | no message moves the clock by more than 84 steps, and one that is 42 indexes ahead moves it by 84 after 48 weeks of ticks |
| `IvIndex.AfterRecoveryOneStep` | mesh/node/meshx_iv_index.c:121-188 | after a recovery the next message can move the clock at once, but by no more than one step |
| `IvNode.RunIsMachineRun` | mesh/node/meshx_iv_index.c:77-188 | whatever a node does in any run, its IV state moves as in a run of the machine with as many ticks, whose ticks and messages ask whether a task is active |
| `IvNode.FinishedEndsDeferral` | mesh/transport/meshx_lower_trans.c:386-394 | a task that its timer or an acknowledgement ends makes the deferred return to Normal, whatever is started next |
| `IvNode.NodeStaysNormal` | mesh/node/meshx_iv_index.c:121-188 | so no run of a node, whatever it sends and receives, moves its clock out of Normal before a tick count of 96 hours |
| `Segments.SeqAuthRecovery` | mesh/transport/meshx_lower_trans.c:46-50 | the receiver's SeqAuth macro gives back the sender's 24-bit SeqAuth if and only if the segment's number is less than 0x2000 ahead of it in the 24-bit circle |
| `Segments.SegPduParses` | mesh/transport/meshx_lower_trans.c:277-347 | the bit fields and payload the receiver reads from a segment PDU are the ones the sender packed |
| `WireFormat.SegHeaderIs` | mesh/transport/meshx_lower_trans.c:277-347 | the header of a segment octet by octet: SEG, AKF and AID or opcode; SZMIC, SeqZero, SegO and SegN at their bits (sections 3.5.2.2 and 3.5.2.4 of the Mesh Profile) |
| `WireFormat.SegHeadReads` | mesh/transport/meshx_lower_trans.c:995-1025 | what the receiver reads from any four octets |
| `WireFormat.SegmentOctet` | mesh/transport/meshx_lower_trans.c:319-344 | octet k of a PDU travels in segment k / 12, or k / 8, at that place behind the header, and there are no more segments than that takes |
| `AckFormat.AckRoundTrip` | mesh/transport/meshx_lower_trans.c:712-722 | the acknowledgement PDU unpacks (lines 910-914) to the SeqZero and the set of segments that were packed |
| `WireFormat.AckPduIs` | mesh/transport/meshx_lower_trans.c:712-722 | the acknowledgement PDU octet by octet: SeqZero above two spare bits, and bit i of the last four octets for segment i |
| `WireFormat.AckReads` | mesh/transport/meshx_lower_trans.c:910-914 | what the sender reads from any six octets |
| `AckFormat.AckGoesOut` | mesh/transport/meshx_lower_trans.c:712-735 | an acknowledgement goes out as one unsegmented control message to the sender of the segment, under a number drawn for it, and its payload unpacks to the set acknowledged |
| `Bursts.SendsMissingInOrder` | mesh/transport/meshx_lower_trans.c:257-366 | one call of the segment loop draws for each unacknowledged segment, in order, its own number and sends its frame under it, until the first number outside the window, for which nothing is sent; it reports success if and only if there is none |
| `StoreRules.WholeIffItFits` | mesh/transport/meshx_lower_trans.c:665-710 | a message goes out whole if and only if its caller does not ask for segments and its PDU, header octet and MIC have at most 20 octets |
| `StoreRules.RefusedIff` | mesh/transport/meshx_lower_trans.c:603-639 | storing changes nothing if and only if the message has more than 372 octets (248 if it is a control message), every slot is taken, or an active task has the same destination and SeqAuth |
| `StoreRules.StoredTaskIs` | mesh/transport/meshx_lower_trans.c:617-639 | what a stored message finds in its slot: its PDU and context, nothing acknowledged, no retry; it is active if its destination was free and its segments could be sent, else idle, and pending if the destination was taken |
| `StoreRules.TimeoutKeepsIff` | mesh/transport/meshx_lower_trans.c:451-490 | a timeout keeps its task if and only if the 8-bit retry count stays within the limit and the task within its SeqAuth window; a limit of 255 never ends one |
| `StoreRules.ResendKeepsIff` | mesh/transport/meshx_lower_trans.c:941-986 | sending again after a partial acknowledgement keeps the task if and only if it stays within its window |
| `StoreRules.AckKeepsIff` | mesh/transport/meshx_lower_trans.c:910-986 | an acknowledgement takes its task off the active list if and only if it is complete, cancels it, comes after the last retry or finds no number left for what is sent again |
| `TxNode.FirstRunnable` | mesh/transport/meshx_lower_trans.c:401-418 | the nested search returns the first pending task whose destination has no active task |
| `AckMatching.SlotIsFirst` | mesh/transport/meshx_lower_trans.c:917-927 | an acknowledgement goes to the first active task with its SeqZero, or to none if there is none |
| `Scheduler.DoSched` | mesh/transport/meshx_lower_trans.c:386-425 | every step keeps: each task in exactly one of idle, active and pending, active destinations distinct, every pending task behind an active one to its destination |
| `Scheduler.ScheduleInvariant` | mesh/transport/meshx_lower_trans.c:497-575 | the same over every run |
| `Scheduler.NotBusyMeansNothingStored` | mesh/transport/meshx_lower_trans.c:1285-1288 | the busy test reads the active list only, yet it is false exactly when every task is idle |
| `Fifo.FinishServesOldest` | mesh/transport/meshx_lower_trans.c:386-425 | when a task finishes, its destination goes to the oldest waiting message that can still send, older ones are released in order, and the queues of all other destinations are untouched; this covers the recursion of finish and run through refused sends |
| `Fifo.StartServesOldest` | mesh/transport/meshx_lower_trans.c:497-527 | the same for a task that is started |
| `Fifo.StoreJoinsQueue` | mesh/transport/meshx_lower_trans.c:529-549 | a message for a busy destination joins the end of that destination's queue |
| `FifoRuns.StepKeepsOrder` | mesh/transport/meshx_lower_trans.c:386-549 | every step, at every destination: the messages that leave the line are its first ones in order, and if the destination is served after that, it is by the last of them |
| `FifoRuns.RunKeepsOrder` | mesh/transport/meshx_lower_trans.c:386-575 | over every run, at every destination: what was started or dropped, followed by what waits, is what waited before followed by what was stored, in order |
| `Messages.SegmentsOnAirAreRecoverable` | mesh/transport/meshx_lower_trans.c:297-365 | every segment PDU on the air in any run, first or repeated, is a segment of a message the node numbered, and the receiver's macro recovers that message's SeqAuth from the numbers it carries |
| `Freshness.DoFresh` | mesh/transport/meshx_lower_trans.c:316-317 | one step in which callers do their duty (contexts under the transmit IV, a control message under a number drawn for it and not used since) keeps all numbers in use below the counters of their IV and every task that may still send safe to send |
| `Freshness.NonceFreshness` | mesh/node/meshx_seq.c:88-123 | over every run from initialisation of sends, retries, acknowledgements, timeouts, ticks, beacons and numbers taken by callers, no (source, IV, sequence) triple below 0xFFFFFF is put to use twice, provided that callers do their duty and no IV recovery meets a stored message that may send |
| `WrongIv.IndexInContextIsSafeIffNormal` | mesh/transport/meshx_upper_trans.c:197-240 | the duty about the IV is real: a message under the IV index itself repeats no number in any continuation if and only if the node is in Normal state or the message is refused before it uses a number; otherwise a run that repeats it is constructed (pending flag clear) |
| `WrongIv.IndexOnAirIsSafeIffNormal` | mesh/transport/meshx_upper_trans.c:197-240 | the same for each kind of nonce: network nonces if the message is sent whole, the messages' own if it is segmented |
| `ControlNumbers.OneContextTwiceRepeatsFrame` | mesh/transport/meshx_upper_trans.c:197-211 | two control messages sent whole with one context, from any state: both frames go out under one network nonce |
| `ControlNumbers.FrameNumberIsSafeIff` | mesh/transport/meshx_lower_trans.c:665-677 | the duty about the number is real: a control message sent whole repeats no network nonce in any continuation if and only if its number has been drawn and no frame has it, or it is the saturated number; otherwise a repeating run is constructed |
| `ControlNumbers.SeqAuthIsSafeIff` | mesh/transport/meshx_lower_trans.c:603-639 | a segmented control message repeats no message's number in any continuation if and only if no message has its SeqAuth and that has been drawn, or is the very next number with the destination free, or leads to its being dropped as an IV update ends, or is the saturated number; otherwise a repeating run is constructed |
| `OnAirReuse.BothKindsFresh` | mesh/node/meshx_seq.c:88-123 | so the numbers of frames and the numbers of messages, each with source and IV index, are fresh over every guarded run; of the octets that encryption gets this is said by the two members of NonceOctets below |
| `NonceFormat.NonceParts` | mesh/network/meshx_net.c:63-70 | the network nonce read back: type 0, octets 1 to 6 of the packet, two zero octets, and the IV index in octets 9 to 12 |
| `NonceFormat.NonceIff` | mesh/network/meshx_net.c:57-83 | two packets have one network nonce if and only if they agree in CTL and TTL, sequence number, source and IV index |
| `NonceFormat.AccessNonceReads` | mesh/transport/meshx_upper_trans.c:34-66 | the application or device nonce read back: type 1 or 2, ASZMIC, SeqAuth, source, destination, IV index |
| `NonceFormat.AccessNonceIff` | mesh/transport/meshx_upper_trans.c:34-66 | two messages have one such nonce if and only if they agree in key kind, MIC size, SeqAuth, source, destination and IV index |
| `NonceFormat.NonceKindsApart` | mesh/transport/meshx_upper_trans.c:38-53 | no 13 octets are nonces of two kinds, network, application or device |
| `NonceOctets.FramesPack` | mesh/transport/meshx_lower_trans.c:641-710 | every frame of every run has a sequence number, addresses, TTL and length that its packet's fields can hold |
| `NonceOctets.NetworkNoncesFresh` | mesh/network/meshx_net.c:57-83 | over every guarded run two frames with the same 13 nonce octets, below 0xFFFFFF, are the same draw |
| `NonceOctets.AccessNoncesFresh` | mesh/transport/meshx_upper_trans.c:30-66 | over every guarded run two numbered access messages, segmented or whole, with the same 13 nonce octets, below 0xFFFFFF, are the same draw |
| `Recovery.RecoveryIsSafeIffNothingMaySend` | mesh/node/meshx_iv_index.c:177-185 | an IV recovery, which ignores the busy flag, repeats no drawn number in any continuation if and only if no message is pending and every active one is out of retries; otherwise a run that repeats a draw is constructed |
| `OnAirReuse.RecoverySafeOnAir` | mesh/node/meshx_iv_index.c:177-185 | it repeats no network nonce if no frame sent so far, under a stored message's source and IV index, has a number in that message's sequence window |
| `OnAirReuse.AirSafeIffNoneEndangered` | mesh/node/meshx_iv_index.c:177-185 | exactly then, for plain tasks: every active one addressable with a segment left to send, and no two messages waiting for one destination |
| `MeshNode.NodeState.SeqUse` | mesh/node/meshx_seq.c:88-111 | the counter in place: a saturating number for an element of the node, which is what every sender asks for; other counters stay |
| `MeshNode.NodeState.SeqClear` | mesh/node/meshx_seq.c:113-123 | the loop zeroes every counter |
| `MeshNode.NodeState.SendSegMsg` | mesh/transport/meshx_lower_trans.c:257-366 | the segment loop with its running offset does what SendFrom says |
| `MeshNode.NodeState.TaskFinish` | mesh/transport/meshx_lower_trans.c:386-425 | finish and run in place, mutually recursive, do what Finish says |
| `MeshNode.NodeState.TaskRun` | mesh/transport/meshx_lower_trans.c:497-527 | likewise for StartTask; it reports whether all segments could be sent |
| `MeshNode.NodeState.TaskTry` | mesh/transport/meshx_lower_trans.c:529-549 | a task goes to the pending list exactly when its destination is active |
| `MeshNode.NodeState.HandleTxTimeout` | mesh/transport/meshx_lower_trans.c:451-490 | retrying or giving up changes the node's fields exactly as Timeout says |
| `MeshNode.NodeState.RecvBlockAck` | mesh/transport/meshx_lower_trans.c:910-986 | full, cancelling and partial acknowledgements change the node's fields exactly as ReceiveAck says |
| `MeshNode.NodeState.ProcessSegMsg` | mesh/transport/meshx_lower_trans.c:603-639 | storing a message, or refusing it for any of its reasons, changes the fields exactly as StoreMessage says |
| `MeshNode.NodeState.Send` | mesh/transport/meshx_upper_trans.c:185-246 | upper transport's send: the access branch draws a number that becomes SeqAuth too, the control branch leaves the caller's numbers and refuses above 256 octets; the IV index is the caller's in both |
| `MeshNode.NodeState.LowerTransSend` | mesh/transport/meshx_lower_trans.c:641-710 | lower transport's send on a context that has its numbers: refused, stored for segmentation, or sent whole |
| `MeshNode.NodeState.SegAck` | mesh/transport/meshx_lower_trans.c:712-735 | the acknowledgement in place, through the counter and the send above |
| `MeshNode.NodeState.IvTimeout` | mesh/node/meshx_iv_index.c:77-103 | the tick handler in place, clearing the counters through the loop above |
| `MeshNode.NodeState.IvUpdate` | mesh/node/meshx_iv_index.c:121-188 | the update in place, with its return code |
| `RxNode.AcceptHolds` | mesh/transport/meshx_lower_trans.c:1131-1162 | storing a missing segment of a PDU keeps the task holding exactly the segments it acknowledges, octets, bits and length |
| `RxNode.CompleteTask` | mesh/transport/meshx_lower_trans.c:1162-1183 | no bit missing is the same as every segment acknowledged, and then the buffer starts with exactly the PDU and the length is its length |
| `RxPools.RequestShape` | mesh/transport/meshx_lower_trans.c:803-908 | a request keeps idle and active a partition of the pool with at most one active task per source, and every active task it leaves is unchanged or the new one |
| `RxPools.OnlyOlderTasksAreReplaced` | mesh/transport/meshx_lower_trans.c:810-850 | a task that loses its slot to a request had the same source and a strictly smaller (IV, SeqAuth) |
| `RxAnswers.RequestRefusedIff` | mesh/transport/meshx_lower_trans.c:803-908 | a message gets no task if and only if a newer one of its source is under way, or no slot is idle and the source has none; it gets a new one if and only if it gets one and had none |
| `RxAnswers.AnsweredIff` | mesh/transport/meshx_lower_trans.c:1027-1200 | a segment that gets no task, or is refused by its task for its header or by replay protection, is answered by an acknowledgement of nothing, its message forgotten and not handed up; any other leaves its message a task, which is answered in full if and only if nothing is missing, and handed up if and only if something was until then |
| `RxTight.ArrivalSafeIff` | mesh/transport/meshx_lower_trans.c:988-1200 | one segment of any source, kind and length: it leaves every buffer unharmed and every task consistent if and only if an explicit condition on its header, its length and the task it finds holds (not too short where it takes its length from the PDU; same kind, or a fit spelled out in octets; a usable slot) |
| `RxTraffic.ReassemblyInvariant` | mesh/transport/meshx_lower_trans.c:988-1200 | the same for every event: no copy or hand-up leaves a buffer (also for SegO above SegN), acknowledged and missing bits partition the segments, the length is that of the segments held, each source has one task, if and only if the event is sound |
| `RxTraffic.TightIffSound` | mesh/transport/meshx_lower_trans.c:988-1200 | and over every run |
| `RxTraffic.RegularIsSound` | mesh/transport/meshx_lower_trans.c:988-1200 | at a pool that resets its slots every segment of at least four octets, or not last, whose task is of its own kind is sound |
| `RxTraffic.AtMostOneHandUp` | mesh/transport/meshx_lower_trans.c:1076-1091 | however often segments are repeated, a reassembly task hands its message up at most once while it keeps its slot |
| `SlotReuse.ReusedSlotDeliversIffUsable` | mesh/transport/meshx_lower_trans.c:887-903 | a reused slot keeps the old length and missing bits; when every segment of the next message has gone through the receive routine, in any order and any number of times, the message is handed up octet for octet if and only if it is a single segment or the leftover length is zero and no foreign bit is left |
| `SlotReuse.SpentSlotIsUnusable` | mesh/transport/meshx_lower_trans.c:1131-1162 | and a slot that has stored a segment of a message is not usable for a next one of more than one segment |
| `SlotReuse.ResetSlotDelivers` | mesh/transport/meshx_lower_trans.c:217-221 | with slots reset as initialisation leaves them every message is handed up |
| `Overruns.ShortSegmentOverruns` | mesh/transport/meshx_lower_trans.c:1095-1112 | a segment PDU of at most three octets, through the receive routine at an idle pool: the length wraps and the copy leaves the buffer |
| `Overruns.MixedKindsOverrun` | mesh/transport/meshx_lower_trans.c:1021-1151 | one control and two access segments under one source, IV index and SeqAuth, through the receive routine at an idle pool: a 24-octet task reaches a length of 32 |
| `MeshReceiver.ReceiverState.RxTaskRequest` | mesh/transport/meshx_lower_trans.c:803-908 | the request in place: replace, reuse or refuse, refill the slot bit by bit |
| `MeshReceiver.ReceiverState.ReceiveSegMsg` | mesh/transport/meshx_lower_trans.c:988-1200 | the receive routine in place, for PDUs of every length: acknowledgement, hand-up, fault and pool are those of Receive |
| `MeshReceiver.ReceiverState.RxTaskRelease` | mesh/transport/meshx_lower_trans.c:738-762 | a slot leaves the active list for the end of the idle list |
| `Reassembly.OwnSegmentArrives` | mesh/transport/meshx_lower_trans.c:988-1200 | a segment of a numbered message is stored without leaving the buffer, what is acknowledged is held, and what is handed up is exactly the sender's PDU under its own context |
| `Reassembly.ForeignSegmentArrives` | mesh/transport/meshx_lower_trans.c:988-1200 | traffic of other sources never disturbs a task reassembling our message |
| `Transport.FullAckMeansDelivered` | mesh/transport/meshx_lower_trans.c:932-937 | an acknowledgement that ends a task as complete means its destination has handed up exactly that PDU; every acknowledgement in flight claims no more than is held |
| `Transport.EventKeeps` | mesh/transport/meshx_lower_trans.c:910-1200 | every event of the network with loss, repetition, reordering and delay keeps the end-to-end invariant |
| `Repair.RepeatsWhatIsMissing` | mesh/transport/meshx_lower_trans.c:781-785 | the acknowledgement that the receiver's timer sends, back at the sender: what is sent again (lines 970-986) is, in order and under the next numbers, exactly what the receiver's task lacks |
| `Repair.ExpiryForgets` | mesh/transport/meshx_lower_trans.c:787-801 | when a task's time is over its message is forgotten, its slot is free for any other, the messages of other sources keep theirs, and nothing is sent or handed up |
| `Transport.SegmentationSafety` | mesh/transport/meshx_lower_trans.c:910-1200 | in every fair run, when the sender ended a message as fully acknowledged that message, and every one it numbered under the same key, has been handed up unchanged, and nothing a receiver hands up for this sender differs from a message it numbered |
| `Transport.SegmentationSafetyWithReset` | mesh/transport/meshx_lower_trans.c:910-1200 | with receivers that reset their slots the same over all fair traffic, with no condition on slots |
| `SeqAuthReuse.SecondMessageIsLost` | mesh/transport/meshx_lower_trans.c:1076-1085 | wherever a message has arrived completely, a different control message sent under its SeqAuth, with as many segments, is answered in full after its first segment; the sender ends it as received and nobody was handed it |
| `SeqAuthReuse.FreshNetworkLosesMessage` | mesh/transport/meshx_upper_trans.c:197-211 | so does a run from a freshly started network with one control message and another under its context |
| `Bursts.MessageDrawn` | mesh/transport/meshx_lower_trans.c:257-346 | an unhindered message's segments go out under consecutive numbers, in order, each under its own; an access message's own number is the one before them, a control message's is its caller's |
| `Completion.ArrivalProgress` | mesh/transport/meshx_lower_trans.c:988-1200 | a segment, new or repeated, arriving where its message is expected is held afterwards together with what was held before, and once all are held the answer acknowledges all |
| `Completion.ArrivedMeansCompleted` | mesh/transport/meshx_lower_trans.c:910-1200 | from every reachable state with a clear way, once all segments of a message have arrived, in any order and any number of times, a returning acknowledgement ends it at the sender and the receiver has handed it up |
| `Completion.FirstMessageGetsThrough` | mesh/transport/meshx_lower_trans.c:206-223 | a freshly started network with a slot at either end is such a state |
| `Completion.ResetIsExpecting` | mesh/transport/meshx_lower_trans.c:854-908 | and at a receiver that resets its slots every message that gets a slot finds it as expected |
| `AckMatching.EveryTaskAddressableIffDistinct` | mesh/transport/meshx_lower_trans.c:917-927 | every active task can be acknowledged if and only if no two share a SeqZero |
| `AckMatching.LateAckEndsNewMessageIffSameSeqZero` | mesh/transport/meshx_lower_trans.c:924-937 | the late acknowledgement of an earlier message ends a new one as received, though nobody has it, if and only if the two share a SeqZero and no task active before has it, whatever else the sender is sending |
| `AckMatching.EndsItsOwnTaskIfSeqZeroIsItsOwn` | mesh/transport/meshx_lower_trans.c:917-937 | an acknowledgement never ends another message's task if no active task of another message has its SeqZero |
| `CcmSpec.RoundTrip` | thirdpart/mbedtls/aes_ccm.c:253-296 | a sealed text decrypts to m if and only if it is the encryption of m, for every key, nonce of 7 to 13 octets, associated data, tag length and message |
| `CcmSpec.MacInputInjective` | thirdpart/mbedtls/aes_ccm.c:106-174 | the octets that are authenticated (section 2.2 of RFC 3610) determine nonce, associated data and message |
| `CcmSpec.CountersNeverRepeat` | thirdpart/mbedtls/aes_ccm.c:186-245 | for every accepted length the payload counters are pairwise distinct, do not wrap, never equal the tag's counter 0 and never equal the first MAC block |
| `CcmSpec.CtrOctet` | thirdpart/mbedtls/aes_ccm.c:61-64 | octet k of block b is masked with octet k of key stream block i + b |
| `CcmSpec.AddEncodingMatchesRfc` | thirdpart/mbedtls/aes_ccm.c:146-161 | the length prefix of associated data is that of RFC 3610 for every accepted length but 0xFF00 |
| `MacFormat.FirstBlockIs` | thirdpart/mbedtls/aes_ccm.c:106-135 | the first block is the one of section 2.2 of RFC 3610, flag bits, nonce and length read back |
| `MacFormat.CiphertextOctet` | thirdpart/mbedtls/aes_ccm.c:186-234 | octet k of block j of the ciphertext is that of the message masked with octet k of the encrypted counter block j + 1, whose flags, nonce and counter read back as in section 2.3 of RFC 3610 |
| `MacFormat.TagOctet` | thirdpart/mbedtls/aes_ccm.c:138-248 | each tag octet is that of the CBC-MAC of first block, length-prefixed associated data and message, each padded with zeros, masked with counter block 0 |
| `Ccm.FormatFirstBlock` | thirdpart/mbedtls/aes_ccm.c:106-135 | the first block is built in place; it reports exactly when the length does not fit its field |
| `Ccm.AuthenticateHeader` | thirdpart/mbedtls/aes_ccm.c:138-174 | the loops over the first block and the associated data compute the CBC-MAC of RFC 3610 |
| `Ccm.IncrementCounter` | thirdpart/mbedtls/aes_ccm.c:229-233 | the carry loop adds one to the counter field |
| `Ccm.CryptPayload` | thirdpart/mbedtls/aes_ccm.c:197-234 | the payload loop masks with the right key stream and authenticates the plaintext, for encryption and decryption, also in place |
| `Ccm.AuthCrypt` | thirdpart/mbedtls/aes_ccm.c:69-248 | refuses exactly the inadmissible parameters and writes nothing then; otherwise leaves text and tag as RFC 3610 sections 2.2 and 2.3 define them |
| `Ccm.EncryptAndTag` | thirdpart/mbedtls/aes_ccm.c:253-261 | encryption in the caller's buffers, input and output possibly the same and the tag inside them |
| `Ccm.AuthDecrypt` | thirdpart/mbedtls/aes_ccm.c:266-297 | success if and only if the specification decrypts; the unmasked text is left in the output either way |
| `Ccm.SameTag` | thirdpart/mbedtls/aes_ccm.c:284-293 | the constant-time comparison is equality |
| `CmacSpec.LeftShiftDoubles` | thirdpart/aes_cmac/aes_cmac.c:31-42 | the carry loop doubles the 128-bit number modulo 2^128 |
| `CmacSpec.DoubleIsTimesX` | thirdpart/aes_cmac/aes_cmac.c:53-70 | the subkey step is multiplication by x in GF(2^128), coefficient by coefficient |
| `CmacSpec.PadLastInjective` | thirdpart/aes_cmac/aes_cmac.c:74-93 | different partial blocks, of whatever lengths, pad to different blocks |
| `CmacSpec.CmacIsCbcMac` | thirdpart/aes_cmac/aes_cmac.c:128-135 | the chain is the CBC-MAC of the message with its last block padded and masked (section 2.4 of RFC 4493) |
| `MacFormat.LastBlockOctet` | thirdpart/aes_cmac/aes_cmac.c:112-126 | the last block, octet by octet: a whole one masked with the first subkey, any other completed with one bit and zeros and masked with the second (section 2.4 of RFC 4493) |
| `MacFormat.DerivationIs` | mesh/provision/meshx_prov.c:338-345 | s1 and k1 are the compositions of CMAC in sections 3.8.2.4 and 3.8.2.5 of the Mesh Profile |
| `Cmac.LeftShiftOneBit` | thirdpart/aes_cmac/aes_cmac.c:31-42 | the loop from the last octet to the first, carrying one bit, leaves the shifted block in the output |
| `Cmac.GenerateSubkey` | thirdpart/aes_cmac/aes_cmac.c:44-72 | the caller's arrays end as the two subkeys of RFC 4493, one doubling apart |
| `Cmac.Padding` | thirdpart/aes_cmac/aes_cmac.c:74-93 | the loop leaves the partial block, one set bit and zeros in the output, for every length below 16 |
| `Cmac.AesCmac` | thirdpart/aes_cmac/aes_cmac.c:95-140 | the block loop equals the recursive definition for every length, the empty message included |
| `Network.ObfuscationInvolution` | mesh/network/meshx_net.c:85-107 | obfuscation is its own inverse, and leaves octet 0 and everything from octet 7 on alone |
| `Network.EncryptionRoundTrip` | mesh/network/meshx_net.c:57-144 | decrypting in place what was encrypted in place passes the MIC check and restores destination and transport PDU |
| `NonceFormat.PrivacyBlockIs` | mesh/network/meshx_net.c:85-107 | the block whose encryption masks the header: five zero octets, the IV index, the first seven encrypted octets |
| `NonceFormat.PacketMeetsProfile` | mesh/network/meshx_net.c:331-382 | a packet octet by octet, in terms of the fields of nonce, header and privacy block read back: IVI and NID, the masked header, destination and PDU sealed, the MIC |
| `Network.IvChoice` | mesh/network/meshx_net.c:172-176 | the IVI bit picks the sender's IV index if and only if it is the receiver's or one behind |
| `Network.NetRoundTrip` | mesh/network/meshx_net.c:146-277 | what meshx_net_send (lines 331-382) builds, the receiver opens: ctl, ttl, seq, src, dst, IV index and transport PDU come back, when the right key is the first with its NID |
| `NetAuth.HeardIffSealed` | mesh/network/meshx_net.c:146-277 | a packet is handed up if and only if some key of the node, the first that opens it, finds it to be the sealing of a destination and PDU, and both addresses pass; what is handed up are the fields of exactly that |
| `Network.TrialLeavesPacketIff` | mesh/network/meshx_net.c:193-210 | keys are tried in place; the keys after a failed trial see the packet as received if and only if the failing key masks nothing of it |
| `Network.ReceiveOverrunsIff` | mesh/network/meshx_net.c:183-213 | exactly which packet lengths and keys make the key loop leave its 29-octet buffer: none from 17 to 29; below 13 or above 29 if some key has the packet's NID; between if a key that is tried unmasks a control header |
| `NetBuffer.NetEncrypt` | mesh/network/meshx_net.c:57-83 | the routine on the 29-octet buffer leaves in it exactly the packet with destination and transport PDU encrypted and the MIC behind them |
| `NetBuffer.NetObfuscation` | mesh/network/meshx_net.c:85-107 | the masking loop leaves exactly the obfuscated packet in the buffer |
| `NetBuffer.NetDecrypt` | mesh/network/meshx_net.c:109-144 | leaves the decrypted packet in the buffer, whether or not the MIC fits, and returns success if and only if it does |
| `NetBuffer.NetSend` | mesh/network/meshx_net.c:358-379 | header packing, encryption and obfuscation give the packet of the specification |
| `NetBuffer.TryNetKeys` | mesh/network/meshx_net.c:183-213 | for every 8-bit length the key loop, rewriting the one buffer at every trial, returns the first key that opens what the earlier trials left, or reports the trial that leaves the buffer |
| `NetBuffer.NetReceive` | mesh/network/meshx_net.c:146-277 | for every 8-bit length: IV choice, key loop and header parsing give what Receive says, unless a trial leaves the buffer, which is reported |
| `UpperTransport.GuardMakesMicsAgree` | mesh/access/meshx_access.c:105-112 | every message the guards accept has the same MIC length at sender and receiver; without them the two disagree exactly for a long MIC on an unsegmented message of at most 7 octets, while the guard refuses up to 11 |
| `UpperTransport.AccessAcceptedIff` | mesh/access/meshx_access.c:81-123 | the guards accept a message if and only if its addresses are valid, an application key goes with an AID, it has at most 384 octets with its MIC, and a long MIC goes only with a request for segments or more than 11 octets |
| `UpperTransport.UpperDecrypts` | mesh/transport/meshx_upper_trans.c:81-183 | with equal nonce fields and the right key first, the receiver gets the message cut to the low 8 bits of its length |
| `NonceFormat.UpperPduMeetsProfile` | mesh/transport/meshx_upper_trans.c:185-246 | an access message is sent as its sealing, as far as its 8-bit length goes, under the key and the nonce read back, then what is beyond that length, then the MIC |
| `UpperAuth.HandedUpIffSealed` | mesh/transport/meshx_upper_trans.c:249-284 | a PDU is handed up as v if and only if it holds its MIC and is the sealing of v under the device key or under the first application key with its AID that opens it |
| `UpperTransport.UpperRoundTrip` | mesh/transport/meshx_upper_trans.c:185-284 | so a message comes back unchanged if and only if it has at most 255 octets |
| `UpperTransport.UpperOverrunsIff` | mesh/transport/meshx_upper_trans.c:249-268 | reception leaves the PDU buffer exactly for PDUs shorter than their MIC for which there is a key to try; the length then wraps to 248 or more |
| `UpperTransport.LongMessageTailIsPlain` | mesh/transport/meshx_upper_trans.c:30-32 | the octets beyond the low 8 bits of the length are sent unencrypted |
| `UpperTransport.LongAcceptedMessageIsDropped` | mesh/access/meshx_access.c:114-123 | accepted messages of more than 372 octets with their MIC exceed 31 segments: they use up a number and are dropped (mesh/transport/meshx_lower_trans.c:603-616) |
| `UpperBuffer.UpperSend` | mesh/transport/meshx_upper_trans.c:215-240 | the allocated buffer ends as the message encrypted up to the low 8 bits of its length, with its MIC at the end |
| `UpperBuffer.DecryptApp` | mesh/transport/meshx_upper_trans.c:103-141 | the loop over application keys finds a key if and only if one opens what the earlier trials left, and then the buffer holds its plaintext |
| `UpperBuffer.UpperReceiveInPlace` | mesh/transport/meshx_upper_trans.c:249-284 | from the received buffer alone, the in-place routine hands up exactly what the specification of reception does, or nothing, and reports when it would leave the buffer |
| `WholeStack.FrameReachesTransport` | mesh/network/meshx_net.c:146-277 | every segment on the air reaches the receiver's lower transport through the network layer with the context and buffer its reassembly takes |
| `WholeStack.AccessSendIsNumbered` | mesh/transport/meshx_upper_trans.c:229-242 | the message is encrypted under the very number and IV index it is sent with, the index being the caller's |
| `WholeStack.SegmentedMessageArrives` | mesh/transport/meshx_upper_trans.c:185-284 | in every fair run everything handed up under a numbered access message's key decrypts to it (cut to 8 bits of length), and a message ended as fully acknowledged was handed up |
| `WholeStack.ShortMessageArrivesUnchanged` | mesh/access/meshx_access.c:81-126 | for at most 255 octets it comes back unchanged, whatever the network lost, repeated or reordered |
| `WholeStack.SegmentedMessageArrivesWithReset` | mesh/transport/meshx_upper_trans.c:185-284 | with receivers that reset their slots the same over all fair traffic, with no condition on slots |
| `AirStack.HeardIsArrival` | mesh/network/meshx_net.c:146-277 | the packet of a segment, heard through the network layer, does to the destination exactly what Transport's arrival event does |
| `AirStack.HeardAckIsReturn` | mesh/network/meshx_net.c:146-277 | the packet of an acknowledgement, heard and unpacked, does to the sender exactly what Transport's return event does |
| `AirStack.AckIsSent` | mesh/transport/meshx_lower_trans.c:712-735 | what the node's acknowledgement step logs is the frame whose packet the sender hears as that acknowledgement |
| `AirStack.SegmentedMessageGetsThrough` | mesh/access/meshx_access.c:81-126 | an accepted message of at most 255 octets is encrypted, numbered, segmented and sent as network packets; heard in any order and with any repetition they are decrypted, reassembled and decrypted to the message sent, and the returning acknowledgement's packet ends it at the sender |
| `WholeStack.UnsegmentedMessageArrives` | mesh/access/meshx_access.c:81-126 | a message sent whole passes access, upper, lower and network layer and back unchanged |
| `PbAdv.Tiles` | mesh/provision/meshx_pb_adv.c:120-134 | the fragments tile the message: no gap, no overlap, every one within its packet |
| `PbAdv.FragmentsCarryMessage` | mesh/provision/meshx_pb_adv.c:186-234 | put together, the fragments carry the message exactly once |
| `PbAdvCheck.OctetIsIn` | mesh/provision/meshx_pb_adv.c:186-234 | octet k of a message travels in the start packet if it is below 20, else in continuation 1 + (k - 20) / 23, and there are no more packets than that takes |
| `PbAdv.SendTrans` | mesh/provision/meshx_pb_adv.c:186-234 | the loop with its running 8-bit offset emits exactly those fragments, stopping at the first refusal of the bearer |
| `PbAdv.PacketsRebuildOnlyTheMessage` | mesh/provision/meshx_pb_adv.c:1212-1448 | whatever order, repetition and loss: nothing beyond the message's octets is written, nothing else is ever processed |
| `PbAdv.AnyOrderCompletes` | mesh/provision/meshx_pb_adv.c:1250-1448 | a start packet and continuations in any order with repetitions complete the message, octets and check octet, if and only if every continuation is among them |
| `PbAdv.ProcessedOnceIffAckWasSent` | mesh/provision/meshx_pb_adv.c:443-482 | a complete message is never processed again if and only if the bearer took its acknowledgement |
| `PbAdvCheck.OnlyCheckedIsProcessed` | mesh/provision/meshx_pb_adv.c:1211-1448 | whatever packets and delays come, of whatever content: everything processed has the length and the check octet that a start packet among them carried |
| `PbAdvCheck.DamagedIsNeverProcessed` | mesh/provision/meshx_pb_adv.c:1211-1448 | packets of a message announced with a check octet that is not its own, in any order and number and with acknowledgements coming due at any time: it is never acknowledged and never processed |
| `PbAdvCheck.DamagedIsDroppedIff` | mesh/provision/meshx_pb_adv.c:1211-1448 | such a message is dropped, leaving room for the next, if and only if every continuation has come |
| `PbAdvCheck.OneOctetChangedIsDropped` | mesh/provision/meshx_pb_adv.c:1211-1234 | a message with any one octet changed on its way is dropped when it is complete and never processed, whatever of it comes later |
| `PbAdvCheck.OtherTransactionsAreIgnored` | mesh/provision/meshx_pb_adv.c:1250-1448 | while a message is under way, packets of other transactions change nothing |
| `PbAdvCheck.StartIsTakenIff` | mesh/provision/meshx_pb_adv.c:1250-1353 | when no message is under way, a start packet begins one if and only if it is not of the acknowledged transaction, announces 1 to 65 octets in as many segments as they take, and is as long as the first of them |
| `PbAdvCheck.ContinuationIsTakenIff` | mesh/provision/meshx_pb_adv.c:1355-1448 | a continuation changes something if and only if it is of the transaction under way, missing, and as long as that segment; then it is stored at its place |
| `PbAdvCheck.ProcessedIffAllowed` | mesh/provision/meshx_pb_adv.c:438-483 | a complete message is processed if and only if its number is one of the other role's, below 0x80 or from there on; otherwise the receiver has failed |
| `PbAdvCheck.FailedProcessesNothing` | mesh/provision/meshx_pb_adv.c:438-483 | and a receiver that has failed never processes anything again |
| `PbAdv.AfterBadStartCountRightIffSame` | mesh/provision/meshx_pb_adv.c:1297-1340 | a start packet of the wrong payload length leaves its bits behind; the next message waits for exactly its own continuations if and only if it has as many segments |
| `PbAdv.FaultIff` | mesh/provision/meshx_pb_adv.c:1355-1448 | exactly which packet writes outside the receive buffer: a continuation numbered 0, of the right number and length, while a message is under way whose start packet was not stored |
| `PbAdv.FaultReachableIffArmed` | mesh/provision/meshx_pb_adv.c:1250-1448 | whatever packets arrive: without a further bad start packet some run leaves the buffer if and only if one is behind |
| `PbAdv.BadStartThenZeroContinueFaults` | mesh/provision/meshx_pb_adv.c:1297-1428 | a concrete such pair of packets at a ready receiver |
| `PbAdvDevice.Device.RecvTransStart` | mesh/provision/meshx_pb_adv.c:1250-1353 | on the device's fields and receive buffer: the new state is that of the transaction after this start packet, refusals and partial effects included |
| `PbAdvDevice.Device.RecvTransContinue` | mesh/provision/meshx_pb_adv.c:1355-1448 | likewise for a continuation: stored once at its place, or refused with nothing changed |
| `PbAdvDevice.Device.HandleTransAckDelay` | mesh/provision/meshx_pb_adv.c:438-483 | the acknowledgement is recorded only if the bearer took it, the buffer is released, and the message handed to provisioning is the one reassembled |
| `Crc.TableIsDivision` | common/meshx_3gpp_crc.c:10-28 | every table entry is eight bitwise division steps |
| `Crc.Crc3gpp` | common/meshx_3gpp_crc.c:45-55 | the table loop computes the bitwise reflected CRC-8 of 3GPP TS 27.010 for every length |
| `Crc.ShiftBijective` | common/meshx_3gpp_crc.c:10-28 | each division step has an inverse |
| `Crc.StepOneToOne` | common/meshx_3gpp_crc.c:51 | each step is one to one in the register and in the octet |
| `Crc.OneOctetChangeDetected` | common/meshx_3gpp_crc.c:45-55 | changing any one octet always changes the check octet |
| `Crc.CheckAcceptsExactlyFcs` | common/meshx_3gpp_crc.c:31-42 | running over a message and an octet ends at 0xCF if and only if the octet is the message's check octet |
| `Provision.StateMovesForward` | mesh/provision/meshx_prov.c:1044-1459 | no call, PDU or link event moves the state backward, except from LINK_CLOSING, and there exactly by failing |
| `Provision.StateNeverGoesBack` | mesh/provision/meshx_prov.c:498-923 | over every run without a link close the state never moves backward |
| `ProvisionSafety.DataAcceptedIffSealed` | mesh/provision/meshx_prov.c:1345-1400 | provisioning data are accepted if and only if they are the sealing of some 25 octets under the session key and nonce, and then the device has those; otherwise exactly the decryption failure is sent |
| `ProvisionSafety.PublicKeyAcceptedIffValid` | mesh/provision/meshx_prov.c:1175-1222 | a public key is accepted, and the secret made from it, if and only if it is valid; otherwise exactly the format failure is sent |
| `ProvisionSafety.StartAcceptedIff` | mesh/provision/meshx_prov.c:1130-1174 | a start PDU is accepted if and only if its five fields are in range (lines 937-980) and the capabilities offer what it asks for (lines 982-1042), both written out field by field; otherwise exactly the format failure is sent |
| `ProvisionSafety.RandomAcceptedIffConfirmed` | mesh/provision/meshx_prov.c:1295-1343 | a random value is accepted, and the keys derived, if and only if it fits the confirmation received; otherwise exactly the confirmation failure is sent |
| `ProvisionSafety.WrongAuthIsRefused` | mesh/provision/meshx_prov.c:1295-1343 | with any block cipher: of two parties that agree on everything but the authentication value neither accepts the other's random value |
| `ProvisionSafety.OutOfPlaceIsRefused` | mesh/provision/meshx_prov.c:1044-1459 | a PDU that is too short, out of order or of unknown type is refused with the code of its fault and changes nothing else |
| `ProvisionSafety.InPlaceIsTaken` | mesh/provision/meshx_prov.c:1076-1459 | what every other PDU in its place does to the record |
| `ProvisionSafety.CallSendsIff` | mesh/provision/meshx_prov.c:498-923 | each call sends exactly its one PDU in exactly the states written out, and does nothing in others |
| `ProvisionSafety.LinkMovesState` | mesh/provision/meshx_prov.c:471-496 | what link events do to the state; a repeated open redraws the keys (mesh/provision/meshx_pb_adv.c:1031-1087) |
| `ProvisionSafety.DataSentIsSealing` | mesh/provision/meshx_prov.c:785-828 | data sent are a sealing of exactly them in the sense of the acceptance condition |
| `ProvisionSafety.InputsAreTranscript` | mesh/provision/meshx_prov.c:299-336 | two records, of either role, have the same confirmation inputs if and only if they saw the same invite, capabilities, start and public keys |
| `ProvisionSafety.ConfirmationMeetsProfile` | mesh/provision/meshx_prov.c:299-359 | salt and confirmation in terms of CMAC: the inputs in the order of section 5.4.2.4 of the Mesh Profile for either role, the label prck, random before authentication value |
| `ProvisionSafety.KeysMeetProfile` | mesh/provision/meshx_prov.c:404-449 | session key, nonce and device key in terms of CMAC: the provisioner's random value before the device's for either role, and the labels prsk, prsn and prdk (section 5.4.2.5) |
| `ProvisionSafety.KeysDiffer` | mesh/provision/meshx_prov.c:404-449 | with any block cipher session key, session nonce and device key are three different blocks |
| `Agreement.SameConfirmation` | mesh/provision/meshx_prov.c:299-359 | both roles build the same confirmation salt and the same confirmation for the same random value |
| `Agreement.SameKeys` | mesh/provision/meshx_prov.c:404-449 | both roles derive the same session key, nonce and device key |
| `Agreement.TakesRandom` | mesh/provision/meshx_prov.c:1295-1343 | the random value that fits the confirmation verifies and completes the key agreement |
| `Agreement.DataDecrypts` | mesh/provision/meshx_prov.c:785-828 | the device decrypts exactly the data that were sent |
| `Agreement.HonestRunsAgree` | mesh/provision/meshx_prov.c:1044-1459 | in every interleaving of two honest parties, at every point: nobody fails, secrets, salts, session keys, nonces and device keys agree, and the device ends with the data sent |
| `Agreement.SomebodyCanMove` | mesh/provision/meshx_prov.c:1044-1459 | an honest run is never stuck before both scripts are done |
| `LinkReopen.LinkOpenHarmlessIff` | mesh/provision/meshx_pb_adv.c:1031-1087 | after a repeated link open, at any point of an honest run, every continuation agrees if and only if: before the provisioner's key and after the random values always; right after the provisioner's key, if old and new private key give the same secret; later, if both public keys give the same salt, and once the confirmation is made, if both random values give the same confirmation |
| `LinkReopenExample.LateLinkOpenBreaks` | mesh/provision/meshx_prov.c:82-92 | with any block cipher, a new public key that differs in its last octet breaks a run at every step from sending the public key to checking the random value |
| `LinkReopenExample.ExampleBreaks` | mesh/provision/meshx_prov.c:82-92 | a concrete honest run that a repeated link open breaks |
| `ProvDevice.ProvDev.GenerateConfirmation` | mesh/provision/meshx_prov.c:299-359 | the record's salt and confirmation become those of the specification, in the order of inputs that belongs to its role, and no other field changes |
| `ProvDevice.ProvDev.CalculateSessionDeviceKey` | mesh/provision/meshx_prov.c:404-449 | session key, nonce and device key become those of the specification for its role, and no other field changes |
| `ProvDevice.ProvDev.CallSendData` | mesh/provision/meshx_prov.c:785-828 | the provisioning data are encrypted under the session key and sent, once, in state RANDOM only |
| `ProvDevice.ProvDev.OnRandom` | mesh/provision/meshx_prov.c:1295-1343 | a random value is checked against the stored confirmation; what is sent and how the state moves, or fails, is as specified |
| `ProvDevice.ProvDev.PduProcess` | mesh/provision/meshx_prov.c:1044-1459 | for every PDU type, every length refusal and every state refusal, the record and the PDUs sent are those of the step function |
| `List.Prepend` | common/meshx_list.c:25-34 | on a well-formed ring the four assignments put the node first |
| `List.Append` | common/meshx_list.c:41-50 | likewise last |
| `List.SortInsert` | common/meshx_list.c:52-68 | before the first node it compares greater than, else last; the ring stays well formed |
| `List.Pop` | common/meshx_list.c:70-84 | takes the first node out, or reports an empty list |
| `List.Remove` | common/meshx_list.c:90-99 | takes any node out and clears its links |
| `List.Index` | common/meshx_list.c:102-120 | the node's position, or 0xFFFFFFFF exactly when it is absent |
| `List.Exists` | common/meshx_list.c:122-137 | true if and only if the node is in the ring |
| `List.Length` | common/meshx_list.c:154-166 | the number of nodes in the ring |
| `List.RingUnique` | common/meshx_list.c:107-116 | a head determines the sequence of its nodes |
| `GapQueue.InsertBehindItsKind` | mesh/gap/meshx_gap.c:189-230 | an accepted action goes behind all of its own kind, advertisements before all scans |
| `GapQueue.RunTakesHead` | mesh/gap/meshx_gap.c:112-159 | starting an action takes the head of the queue and nothing else; a scan starts only when no advertisement waits |
| `GapProgress.StartsIff` | mesh/gap/meshx_gap.c:112-159 | which action an event starts, exactly: the first one, on an accepted action or a report that advertising is idle, if its radio was last reported idle; a report that scanning is idle starts none (lines 161-187) |
| `GapProgress.WaitIsBounded` | mesh/gap/meshx_gap.c:161-187 | in every run without a stop n reports that advertising is idle start at least n of the advertisements that waited, or all of them |
| `GapProgress.StoppedStartsNothing` | mesh/gap/meshx_gap.c:100-110 | a stopped queue accepts and starts nothing until it is started again |
| `GapQueue.QueueIsFairOverRuns` | mesh/gap/meshx_gap.c:112-262 | over every run idle plus active is the pool and advertisements stay before scans; without a stop, what was started and what waits is, kind by kind, exactly what was accepted, in order |
| `GapLists.GapState.ClearAllActions` | mesh/gap/meshx_gap.c:70-78 | both rings are rebuilt with every node idle |
| `GapLists.GapState.SortInsertAction` | mesh/gap/meshx_gap.c:199-214 | the sorted insertion on the heap does what Insert says |
| `GapLists.GapState.AppendAction` | mesh/gap/meshx_gap.c:216-230 | likewise the appended insertion |
| `GapLists.GapState.RunActionsInPlace` | mesh/gap/meshx_gap.c:112-159 | the head goes back to the idle ring; the two rings stay disjoint and together the pool |
| `GapLists.GapState.GapAddAction` | mesh/gap/meshx_gap.c:232-262 | accepted exactly when started and the pool is not used up |

## Left out

- AES and elliptic-curve arithmetic: function parameters; of key agreement only its symmetry for the two key pairs of
  an honest run is used. k2, k3 and k4 only feed keys and are left out; s1 and k1 are compositions of CMAC.
- Timers, threads, pipes, tracing, bearers, GATT and the proxy protocol: timer expiry and bearer refusal are events
  or parameters. A timeout message still queued when its task has finished is not modelled, nor are failures of
  timer creation or memory allocation; freshly allocated buffers are zero.
- Replay protection list and message cache: a free boolean where the code asks them.
- Key storage, key refresh, beacons as packets, the relay and the loopback interface, direct setters of the IV index
  and the sequence counters, the IV test mode.
- List operations inside the transport pools: lists of tasks are sequences of pool slots there; the heap list is
  proved in `List` and used on the heap in `GapLists`.
- Bit masks of 32 and 64 bits are sets of bit numbers; shifts beyond the width do not occur for the segment counts
  the code allows.
- IvIndex.Update, MeshNode.NodeState.IvUpdate: IV jumps of 2^31 and more, where the code shifts a negative number,
  which C leaves undefined.
- Network.Receive: what happens after a trial that leaves the buffer is not modelled; `Network.ReceiveOverrunsIff` says
  when there is one.
- Network.NetRoundTrip: asks that the sender's key is the first of the receiver's with its NID; what another key
  does to the packet first is `Network.TrialLeavesPacketIff`.
- UpperTransport.UpperDecrypts: likewise asks for the first application key with the message's AID; label UUIDs and
  control messages above lower transport are not handled by the code.
- UpperTransport.UpperReceive: likewise nothing is said of the octets behind a PDU shorter than its MIC.
- Transport.EventKeeps: segmented control messages with opcode 0, which lower transport hands to the acknowledgement
  handler, are not sent; acknowledgements at the sender come from the modelled receivers.
- Completion.ArrivedMeansCompleted: between sending and acknowledgement only the message's own segments arrive, and
  the replay check accepts them; nothing is said of how long a lossy network takes.
- RxNode.Payload: octets the receive routine reads behind the network layer's 20-octet buffer are taken as zeros; nothing
  is said of a run after a fault.
- RxPools.Leftover: the leftover length of a slot that is never reset has 16 bits in the code and no bound here; it
  could wrap to a small one again only after more than 65535 octets through the slot.
- Freshness.NonceFreshness: the IV index in a message context and the numbers of a control message are the caller's
  duty, which no layer assigns or checks. The network layer's own use of the numbers is not repeated.
- ControlNumbers.SeqAuthIsSafeIff: is about messages that are taken for segmentation; one that is refused uses nothing.
- WrongIv.IndexInContextIsSafeIffNormal: asks that the pending flag is clear; with the flag set a finished task can end
  the In Progress state before the number comes round again.
- OnAirReuse.AirSafeIffNoneEndangered: the converse asks for plain tasks (every active one addressable by its SeqZero
  with a segment left to send, one waiting message per destination); safety itself,
  `OnAirReuse.RecoverySafeOnAir`, does not.
- MeshNode.NodeState.SeqUse: the element index of the C call has 8 bits and wraps for a source 256 or more above the
  node's address; callers pass sources of the node's own elements.
- MeshNode.NodeState.ProcessSegMsg: the segment count has 8 bits in the code and wraps above 3060 octets, far beyond what
  the access and control guards let pass.
- Transport.Possible: each destination address has one reassembly pool of its own, so a group address with several
  receivers, and elements of one node sharing a pool, are not modelled. Timers fire for active reassembly tasks only: a
  task that a newer message replaces goes to the idle list with its two timers still running
  (mesh/transport/meshx_lower_trans.c:824-841), and what these do there is left out.
- Transport.SegmentationSafety: for the code as it is a reassembly must find a usable slot;
  `Transport.SegmentationSafetyWithReset` asks nothing of slots but that a taken one starts from zero.
- The reserved bit of a segmented control header, which the C code leaves as it finds it, is zero.
- Octet layout of PB-ADV packets and of advertising data around the modelled fields; link identifiers; the search for
  a device by link.
- Agreement.HonestRunsAgree: the Input Complete PDU, which only moves the state, and out-of-band public keys, for
  which the code computes no shared secret on the provisioner's side, are not part of the honest scripts;
  retransmission of provisioning PDUs is covered by the PB-ADV lemmas, not by the two-party runs.
- Display and input of authentication values: both sides are given the same value.
- Opcode helpers, atoi and itoa, errno tables, the command line, the small queue and the asynchronous message pool:
  easy members.
