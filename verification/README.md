# Verified model of the packet and control core of sucre-snort

The program is a firewall daemon. This project models the parts of it whose correctness is hard to see from
the code, and proves what they promise:

- the userspace **connection tracker** (`src/Conntrack.cpp`): lock-free bucket walks with epoch reclamation,
  the TCP peer state machine under interleaved updates, the sharded table as a refinement of a plain map from
  flows to entries, the cap shared by both address families, and the per-flow telemetry record stream;
- the **control framing**: the incremental netstring decoder, the encoder, and the writer that queues frames
  across partial writes, with the order of responses, notices and events on the wire;
- the **stream manager**: ring, pending queue, replay and drop accounting;
- the **domain policy**: four evaluators and an explain trace, the rule sets, the block lists with their merged
  snapshot, and the index from addresses to domains;
- the **match keys** of address rules.

Concurrent protocols are state machines whose atomic steps interleave freely, and the theorems are about every
run. Objects that the program updates in place are classes; each method is held against a specification or an
invariant, and lemmas say what follows for whole runs. IPv4 and IPv6 use the same algorithm twice, so the
tracker is modelled once, with the family as a parameter where the two differ.

## What the proofs showed about the code

- An epoch advance needs every slot to be quiescent, so nothing is freed while any reader is inside its guard;
  that is why the unguarded `commitAccepted` is safe (`NoFreeWhileInside`, `AdvanceNeedsQuiescence`).
- The shared entry counter does exceed the cap for a moment, never by more than what is in flight; the entries
  never do (`SharedCounterOvershoots`, `OvershootIsInFlight`, `NeverAboveCap`).
- On every name the program admits, and with every combined regex compiled, the four domain evaluators agree
  (`AgreeOnAdmittedNames`). When the regexes of two or more rules compile apart but not together, the empty regex
  published in their place (`src/CustomRules.cpp:84-88`) passes over names that the explain trace still attributes
  to a rule (`FailedCompilationDiffers`); one rule alone cannot get there, its combined text being its own.
  `PlainIsReference` says exactly when verdict and trace agree.
- A list that is cleared while its file cannot be opened leaves a stale snapshot, unless the other lists cover
  it (`BlockLists.Write`, `ClearedListStillBlocks`); the next operation that rebuilds the snapshot repairs it.
- `blockMask` never looks up the last label alone, although its comment says so (`LastLabelIsNotTried`).
- Removing the addresses of one domain also unresolves another domain's address when both shared it
  (`RemoveIPs`, `SharedAddressIsLost`).
- Replay hands out events that are neither recent nor asked for exactly when the horizon does not cut off a
  suffix of the ring (`ReplayIsWanted`), which takes timestamps out of order (`ReplayAddsMoreOutOfOrder`).
- Whether a netstring stream is refused does not depend on how it is cut into reads. Which error code it gets
  does, exactly for the headers named by `Unstable` (`CodeIsStable`); and a session that meets an error loses the
  frames of the same burst (`ServedOrLost`), so some way of reading a stream loses a frame exactly when the stream
  has an error behind a frame (`NothingIsLost`).

Two lemmas give reasons for guards the program has, not behaviour it shows:

- `EmptyNameDiffers`: the empty regex matches the empty name, although its comment says it never matches
  (`src/CustomRules.cpp:85`). No evaluator gets that name: the DNS listener wants three bytes
  (`src/DnsListener.cpp:223`), the control commands refuse an empty name (`src/Control.cpp:815`,
  `src/ControlVNextSessionCommandsDomain.cpp:61`), and saved names have at least three bytes (`src/Saver.hpp:100`).
- `OpenSessionOutlivesItsEnds`: a session left open after its disabled ends would write behind an End. Both
  callers close it under the same lock (`src/ControlVNextSessionCommandsTelemetry.cpp:86-90` and `232-236`).

Two more name what the tracker asks of its clock:

- `SweepUnnoticed`: sweeps go unnoticed at a time exactly when that time is not before them. Packet time is the
  kernel timestamp or the wall clock (`src/PacketListener.cpp:277-283`), which can step back; a packet that does so can
  find an entry that was replaced (`BackwardTimeRevives`).
- `ZeroTimeBeginsAgain`: a record written at time zero makes its flow begin again; no other observation breaks a
  record stream (`TelemetryPlane.Observe`).

## Files

| file | subject |
|---|---|
| Wrappers.dfy | optional values |
| EpochReclamation.dfy | readers, locked unlinks and reclamation, interleaved |
| TcpPeers.dfy | TCP flags, peer states, timeouts, interleaved updates |
| Flow.dfy | keys, packets and the tracker as a plain map |
| FlowTable.dfy | the sharded, chained table as a refinement of that map |
| EntryBudget.dfy | the shared cap and the counters, interleaved |
| FlowTelemetry.dfy | decisions, export policy and record streams |
| Decimal.dfy, Netstring.dfy | numerals, framing |
| FrameWriter.dfy, StreamSession.dfy | the frame queue, the session's write order and what the peer sees |
| StreamQueue.dfy | ring, pending queue and replay |
| CustomRules.dfy, DomainPolicy.dfy | rule sets, evaluators, explain trace |
| DomainList.dfy | block lists and suffix lookup |
| IpDomainIndex.dfy | addresses and domains |
| MatchKey.dfy | rule match keys and address masking |

## Model

| member | source | states |
|---|---|---|
| EpochReclamation.InsertKeepsChain | src/Conntrack.cpp:2643-2645 | a head insert changes no chain seen from any older entry |
| EpochReclamation.UnlinkShrinksChain | src/Conntrack.cpp:1060-1065 | bypassing an entry loses that entry and nothing else, seen from any entry, linked or not |
| EpochReclamation.UnlinkBucket | src/Conntrack.cpp:1060-1076 | one unlink keeps the bucket and work invariants, and every chain only loses the unlinked entry |
| EpochReclamation.PublishBucket | src/Conntrack.cpp:1083-1083 | republishing the head keeps the bucket invariant, although the retired list was filled before it |
| EpochReclamation.ShardStep | src/Conntrack.cpp:919-1087 | every locked step (insert, unlink, retire, publish, lock, unlock) keeps the shard invariant and lets running walks survive |
| EpochReclamation.ReclaimStep | src/Conntrack.cpp:1089-1123 | lists are taken and freed only while no thread is protected by a guard, and the invariant is kept |
| EpochReclamation.StepKeepsInv | src/Conntrack.cpp:341-408 | every step of any thread keeps the whole invariant (slots, phases, walks, shards) |
| EpochReclamation.RunKeepsInv | src/Conntrack.cpp:341-408 | the invariant holds in every state of every run |
| EpochReclamation.FreedIsUnreachable | src/Conntrack.cpp:1060-1123 | in no reachable state is a freed entry reachable from a published bucket head |
| EpochReclamation.NoFreeWhileInside | src/Conntrack.cpp:341-408 | an entry turns freed only in a free step, taken while no thread is between enter and exit |
| EpochReclamation.ReaderNeverSeesFreed | src/Conntrack.cpp:2473-2495 | a walking reader's entry and everything still ahead of it is not freed |
| EpochReclamation.AdvanceNeedsQuiescence | src/Conntrack.cpp:385-408 | an advance succeeds only when nobody is inside the guard, so one tried inside the caller's own guard is refused |
| EpochReclamation.LinkedNeverAgain | src/Conntrack.cpp:744-786 | an unlinked entry is never linked again |
| EpochReclamation.WalkTerminates | src/Conntrack.cpp:2474-2495 | each step of a walk goes to an older entry and the number of steps is bounded from the start |
| EpochReclamation.WalkVisitsAllThatStay | src/Conntrack.cpp:2474-2495 | a finished walk has visited every entry that was linked when it began and still is, whatever was inserted or unlinked meanwhile |
| EpochReclamation.LookupStopsAtNewest | src/Conntrack.cpp:2474-2489 | under every interleaving, of the entries of a flow that stay linked during a lookup none is newer than the one it stops at |
| TcpPeers.ValidFlagsMeaning | src/Conntrack.cpp:459-479 | the flag check accepts exactly the packets with sensible control bits, said flag by flag |
| TcpPeers.AddTimeout | src/Conntrack.cpp:561-567 | a deadline is the smaller of the sum and the largest 64-bit value, and never before now |
| TcpPeers.AfterIsHistory | src/Conntrack.cpp:2391-2438 | both peer states after any update history are given by which flags were sent, and acknowledged afterwards, in which direction |
| TcpPeers.EstablishedTimeoutIff | src/Conntrack.cpp:1243-1258 | the one-day timeout is assigned exactly when the history has no FIN or RST, a reply ACK, and an original ACK after a reply SYN |
| TcpPeers.FinWaitTimeoutIff | src/Conntrack.cpp:1243-1258 | the fin-wait timeout is assigned exactly when both sides sent FIN, not both were acknowledged, and there was no RST |
| TcpPeers.TimeoutOfHistory | src/Conntrack.cpp:1243-1258 | every timeout in seconds, for every history: 30 after a reset or two acknowledged FINs and before both sides opened, 900 while both close, 45 while one of two open sides closes, a day otherwise |
| TcpPeers.RunKeepsInv | src/Conntrack.cpp:2403-2435 | the invariant on program points and peer states holds under every interleaving of updates |
| TcpPeers.PeersOnlyRise | src/Conntrack.cpp:2403-2435 | under every interleaving neither peer state ever decreases |
| TcpPeers.ResetIsFinal | src/Conntrack.cpp:2425-2430 | after the two stores of a reset both peers stay in TIME_WAIT |
| TcpPeers.CloseTimeoutAfterReset | src/Conntrack.cpp:2403-2435 | every update begun after that stores the close timeout |
| TcpPeers.AloneIsAdvance | src/Conntrack.cpp:2391-2438 | run without interference, the atomic steps of an update compute the sequential transition and store its timeout |
| Flow.MatchIsPair | src/Conntrack.cpp:2477-2477 | an entry matches a key exactly when both have the same unordered pair of directions |
| Flow.AnswerHasReverseKey | src/Conntrack.cpp:1151-1201 | a packet has a key exactly when its answer has, and the two keys are reverses |
| Flow.KeyIsFlowIdentity | src/Conntrack.cpp:1151-1201 | two packets share a flow exactly when they agree in uid, protocol, addresses and ports or message, in the same direction or against it |
| Flow.KeylessPackets | src/Conntrack.cpp:1151-1201 | exactly which packets have no key |
| Flow.HashIsSymmetric | src/Conntrack.cpp:541-559 | both directions of a flow hash alike, for any endpoint hash and mixer |
| Flow.ObservationsAreApart | src/Conntrack.cpp:1203-1219 | keys of telemetry-only observations never meet a flow key in either direction |
| Flow.LiveSinceCommit | src/Conntrack.cpp:2556-2654 | a live flow was opened by an earlier commit and has been live at every operation since |
| Flow.EstablishedNeedsCommit | src/Conntrack.cpp:2347-2554 | inspection reports ESTABLISHED or REPLY only if an earlier commit opened that flow and no gap since reached its expiry |
| Flow.ViewDirection | src/Conntrack.cpp:2482-2489 | in every run a packet of a known flow is REPLY exactly when it travels against the packet whose commit opened the flow, and ORIG otherwise |
| Flow.NonTcpState | src/Conntrack.cpp:2441-2471 | in every run a packet of a known flow that is not TCP is ESTABLISHED exactly when an answer has been inspected since the opening, itself included, and prolongs its entry by the timeout that goes with that |
| Flow.TcpState | src/Conntrack.cpp:2391-2439 | a TCP packet of a known flow is ESTABLISHED when whole and with sensible flags, and otherwise INVALID without effect |
| Flow.SynOpens | src/Conntrack.cpp:481-499 | a SYN without a live entry is previewed NEW and its commit makes the flow live |
| Flow.SynAckNeverOpens | src/Conntrack.cpp:481-499 | a packet with SYN and ACK, or without a whole header, never makes a flow, whatever the caller says |
| Flow.TcpOpensIff | src/Conntrack.cpp:480-500 | a TCP packet of no known flow opens one exactly when its header is whole and it is a SYN alone, an ACK without SYN or a bare RST |
| Flow.RequestsOpen | src/Conntrack.cpp:513-522 | of a paired ICMP message and its answer exactly one opens a flow, and for echo it is the request |
| Flow.OthersOpen | src/Conntrack.cpp:2535-2547 | any other packet with a key opens a flow |
| Flow.NothingElseOpens | src/Conntrack.cpp:2556-2575 | fragments, keyless packets, a full table and a view that is no preview make no flow |
| Flow.FreshLifetime | src/Conntrack.cpp:2624-2641 | a new entry lives 30 seconds for TCP and 60 otherwise |
| Flow.DeadlineIsExact | src/Conntrack.cpp:621-624 | an entry runs out exactly at its deadline, and never without one |
| Flow.TcpStateIsHistory | src/Conntrack.cpp:2391-2438 | in every run a live TCP entry is the one its opening commit made, moved on by exactly the packets of its flow inspected since |
| Flow.UpdateDeadline | src/Conntrack.cpp:2432-2435 | in every run an update stores the deadline of that history, which is the one-day timeout exactly under the condition on FIN, RST, ACK and SYN |
| Flow.InspectionIsLocal | src/Conntrack.cpp:2347-2554 | inspection adds no flow and changes no other and no expired one |
| FlowTable.LookupIsLive | src/Conntrack.cpp:2474-2489 | in a sound chain the first match is the only one that can be live, so stopping there loses nothing |
| FlowTable.RemoveExpired | src/Conntrack.cpp:935-1081 | taking an expired entry out is invisible to every lookup and keeps the chain sound |
| FlowTable.ReplaceLive | src/Conntrack.cpp:2391-2470 | updating the live entry changes the lookups of its flow and of no other |
| FlowTable.PushFront | src/Conntrack.cpp:2643-2645 | a head insert without a live match keeps the chain sound and changes one flow |
| FlowTable.LiveIsFound | src/Conntrack.cpp:2361-2371 | a live entry, wherever it is in the table, is in the shard and bucket where its key is looked up and is what the lookup returns |
| FlowTable.AtMostOneLive | src/Conntrack.cpp:2473-2519 | at most one entry of a flow is live in the whole table |
| FlowTable.TimePasses | src/Conntrack.cpp:621-624 | soundness and the represented map survive the passing of time |
| FlowTable.HitKeepsMap | src/Conntrack.cpp:2473-2519 | the table after an update represents the updated map |
| FlowTable.MissKeepsMap | src/Conntrack.cpp:2618-2648 | the table after an insert represents the map with the new flow |
| FlowTable.PruneKeepsMap | src/Conntrack.cpp:919-1087 | a sweep leaves the represented map as it is |
| FlowTable.PairHasOneHome | src/Conntrack.cpp:551-559 | both directions of a flow have one shard and one bucket |
| FlowTable.MaskIsRemainder | src/Conntrack.cpp:584-584 | masking with the bucket count less one is the remainder by it, for a power of two |
| FlowTable.TrackerHashQualifies | src/Conntrack.cpp:551-559 | the tracker's own hash meets what the table asks of a hash |
| FlowTable.SweepUnnoticed | src/Conntrack.cpp:932-1081 | over all sound chains and all prunings of them, a sweep cannot be noticed at a time exactly when that time is not before the sweep |
| FlowTable.BackwardTimeRevives | src/Conntrack.cpp:932-1081 | with two entries of a flow as the tracker makes them, a sweep that takes the newer one revives the older for a packet that carries an earlier time |
| FlowTable.SetChainSize | src/Conntrack.cpp:2646-2648 | the number of entries of the table follows every chain edit |
| FlowTable.Tracker.constructor | src/Conntrack.cpp:569-593 | options are put in range and an empty tracker represents the empty map |
| FlowTable.Tracker.SweepChain | src/Conntrack.cpp:932-1081 | a chain loses expired entries only, and all of them unless the budget runs out |
| FlowTable.Tracker.SweepLocked | src/Conntrack.cpp:919-1087 | the budgeted sweep removes at most its budget, keeps the counter exact and, in a sound table, changes no lookup |
| FlowTable.Tracker.MaybeHotSweep | src/Conntrack.cpp:1125-1149 | the rate-limited sweep changes no lookup |
| FlowTable.Tracker.FindFirst | src/Conntrack.cpp:2474-2489 | the bucket walk returns the position of the newest match |
| FlowTable.Tracker.Replace | src/Conntrack.cpp:2391-2470 | an update changes the newest entry of its flow in its place, and that flow in the represented map |
| FlowTable.Tracker.Preview | src/Conntrack.cpp:2518-2548 | a packet without a live entry is NEW exactly when there is room after the sweep and it may open a flow |
| FlowTable.Tracker.Insert | src/Conntrack.cpp:2643-2648 | a head insert keeps every entry in its place, counts it, and adds the flow to the represented map |
| FlowTable.Tracker.LookUp | src/Conntrack.cpp:2473-2548 | behind the sweep, a live newest entry of the flow is updated in its place and gives the view, and any other packet is previewed |
| FlowTable.Tracker.InspectForPolicy | src/Conntrack.cpp:2347-2554 | for any timestamp the view is that of the newest entry of the flow left by the sweep before the lookup, which is updated in its place; with timestamps that do not go back it is the view of the plain map, and the table represents the map after inspection |
| FlowTable.Tracker.CommitAccepted | src/Conntrack.cpp:2556-2654 | for any timestamp an entry is made exactly for a previewed, valid packet whose flow has no live newest entry, while there is room, and the entries of both families stay within the cap; with timestamps that do not go back the table represents the map after the commit |
| EntryBudget.ClampCap | src/Conntrack.cpp:74-78 | the smaller of two caps, where zero means none |
| EntryBudget.FamilyStep | src/Conntrack.cpp:744-752 | every step keeps the books of a family: totals and creates differ from the shard sizes by what is in flight |
| EntryBudget.SharedStep | src/Conntrack.cpp:2607-2616 | every step keeps entries plus granted reservations within the cap |
| EntryBudget.RunKeepsInv | src/Conntrack.cpp:2607-2648 | both hold in every state of every interleaving of both families |
| EntryBudget.NeverAboveCap | src/Conntrack.cpp:3053-3091 | the entries of both families together never exceed maxEntries |
| EntryBudget.CountersAgreeAtRest | src/Conntrack.cpp:1068-1076 | with nothing in flight creates = totalEntries + expiredRetires + evictions, and the shared counter is exact |
| EntryBudget.OvershootIsInFlight | src/Conntrack.cpp:2607-2616 | the shared counter exceeds the cap by at most the refused inserters and unfinished retirements, and exactly when entries and what is held in flight do |
| EntryBudget.SharedCounterOvershoots | src/Conntrack.cpp:2607-2616 | a run in which the shared counter exceeds the cap |
| FlowTelemetry.DigestIsExact | src/Conntrack.cpp:61-72 | key, full rule id and known flag are equal exactly when the decisions are equal in all six fields |
| FlowTelemetry.PackedKeyIsExactUpTo24Bits | src/Conntrack.cpp:61-72 | the packed key alone is equal exactly when the other five fields are and the rule values agree in their low 24 bits |
| FlowTelemetry.PackedKeyAloneIsNot | src/Conntrack.cpp:61-72 | decisions that the packed key alone confuses |
| FlowTelemetry.FirstTestDecides | src/Conntrack.cpp:3241-3305 | without concurrency the test inside the export guard never overrules the one before it |
| FlowTelemetry.RecordIffNotQuiet | src/Conntrack.cpp:3241-3270 | a record is called for exactly by the first packet of a stream and by one that changes the decision, reaches a threshold or comes after the interval |
| FlowTelemetry.AttachedAnew | src/Conntrack.cpp:834-917 | an entry moved to a session starts from nothing under a new id; only one never observed keeps the time it was first seen |
| FlowTelemetry.TallyPacket | src/Conntrack.cpp:3183-3194 | counting a packet keeps the counters of every entry the sums, per direction, over the packets observed under its id |
| FlowTelemetry.CountRecord | src/Conntrack.cpp:115-136 | a record carries those sums, however its counters are loaded |
| FlowTelemetry.ObservedIsTied | src/Conntrack.cpp:3307-3369 | a Begin or Update continues its stream and leaves the entry tied to it exactly if it was seen at a time above zero |
| FlowTelemetry.ZeroTimeBeginsAgain | src/Conntrack.cpp:3295-3309 | after a record at time zero the next one is a second Begin |
| FlowTelemetry.EndContinues | src/Conntrack.cpp:640-742 | an End continues its stream |
| FlowTelemetry.EndIsFinal | src/Conntrack.cpp:640-742 | once a flow id has its End, nothing more is ever written under it |
| FlowTelemetry.OpenSessionOutlivesItsEnds | src/Conntrack.cpp:793-832 | in a session left open after the disabled ends, an Update follows the End |
| FlowTelemetry.NewIdIsClean | src/Conntrack.cpp:847-849 | a newly given flow id has no records yet |
| FlowTelemetry.WriteKeepsStreams | src/Conntrack.cpp:3362-3369 | a record that continues its own stream keeps every stream numbered from 1, Begin first, End last, with cumulative counters |
| FlowTelemetry.SettledAlready | src/Conntrack.cpp:3241-3270 | when nothing is exported the unexported amounts are below the thresholds and the last exported decision is the current one |
| FlowTelemetry.TelemetryPlane.constructor | src/Conntrack.cpp:173-176 | an empty plane is valid |
| FlowTelemetry.TelemetryPlane.Commit | src/Conntrack.cpp:2618-2623 | an accepted flow gets the next id and belongs to no session |
| FlowTelemetry.TelemetryPlane.OpenSession | src/FlowTelemetry.cpp:239-261 | a new session id is above that of every entry, also when it preempts an open session; nothing is owed to older sessions any more |
| FlowTelemetry.TelemetryPlane.Attach | src/Conntrack.cpp:834-917 | an entry of the running session stays; any other starts afresh under a new id with no records |
| FlowTelemetry.TelemetryPlane.Observe | src/Conntrack.cpp:3145-3370 | without a session, or a direction, nothing changes; otherwise the packet is counted on its entry alone, in its own direction; the counters of every entry and record stay the sums over the packets observed; in a valid plane a record is written exactly when the packet is not quiet, all streams stay well formed, the plane stays valid exactly unless a record is written at time zero, and after a successful write nothing above a nonzero threshold is unexported and the last record carries the current decision |
| FlowTelemetry.TelemetryPlane.ExportEnd | src/Conntrack.cpp:640-742 | an End is written, at any time, exactly for an entry of the running session that has records, and keeps all streams |
| FlowTelemetry.TelemetryPlane.Retire | src/Conntrack.cpp:939-1057 | sweep or eviction removes the entry and writes its End, the last record of its id |
| FlowTelemetry.TelemetryPlane.Disable | src/Conntrack.cpp:793-832 | without a session nothing happens; otherwise the disabled ends and the closing of the session keep all streams, and only Ends are written |
| Decimal.CountDigits | src/ControlVNextCodec.cpp:26-33 | counts the digits of the printed numeral |
| Decimal.PrintOfValue | src/ControlVNextCodec.cpp:112-118 | a numeral without leading zeros is the print of its value |
| Decimal.TooManyDigits | src/ControlVNextCodec.cpp:84-104 | a canonical numeral longer than the limit's exceeds the limit |
| Netstring.HeaderStays | src/ControlVNextCodec.cpp:69-127 | more input never changes a parsed header and never repairs a bad one |
| Netstring.ChunkingIndependent | src/ControlVNextCodec.cpp:52-58 | frames, remaining bytes and error-or-not are those of the joined input, however it is cut |
| Netstring.SettledIsBounded | src/ControlVNextCodec.cpp:69-146 | an undecided buffer holds at most maxHeaderDigits + maxFrameBytes + 1 bytes |
| Netstring.DecodeEncodeAll | src/ControlVNextCodec.cpp:148-163 | decoding the encodings of payloads within the limit gives those payloads and goes on with the rest |
| Netstring.RoundTrip | src/ControlVNextCodec.cpp:148-163 | however an encoded payload list is cut into reads, exactly those payloads come out, in order |
| Netstring.PrefixIsSettled | src/ControlVNextCodec.cpp:69-146 | a proper beginning of an encoded frame decides nothing |
| Netstring.UnstableCode | src/ControlVNextCodec.cpp:78-124 | an unstable header gets another code than its digits alone |
| Netstring.PrefixCode | src/ControlVNextCodec.cpp:78-124 | in any other buffer every refused beginning is refused for the same reason |
| Netstring.CodeIsStable | src/ControlVNextCodec.cpp:52-146 | the error code is the same for all ways of cutting a stream exactly when decoding does not stop at an unstable header |
| Netstring.LengthCode | src/ControlVNextCodec.cpp:112-124 | which lengths are unreadable and which too large |
| Netstring.ErrorCodeDependsOnCut | src/ControlVNextCodec.cpp:84-124 | inputs whose code depends on the cut: numerals too long and too large |
| Netstring.WrongCharacterCut | src/ControlVNextCodec.cpp:78-110 | inputs whose code depends on the cut: refused digits before a wrong character |
| Netstring.ServedOrLost | src/ControlVNextSession.cpp:764-785 | every frame of a stream is handed over or, complete but in the burst with the error, lost |
| Netstring.NothingIsLost | src/ControlVNextSession.cpp:764-785 | every way of reading a stream hands over all its frames exactly when the stream has no error or no frame in front of it |
| Netstring.NetstringDecoder.constructor | src/ControlVNextCodec.cpp:49-50 | an empty decoder with the digit limit of its frame limit |
| Netstring.NetstringDecoder.Feed | src/ControlVNextCodec.cpp:52-58 | appends exactly the frames that the buffered bytes followed by the chunk decode to, and reports an error exactly when that decoding does |
| Netstring.NetstringDecoder.ParseAvailable | src/ControlVNextCodec.cpp:69-146 | the loop with its cached header computes the decoding of the buffer |
| Netstring.NetstringDecoder.Pop | src/ControlVNextCodec.cpp:60-67 | hands over the oldest frame |
| FrameWriter.FrameWriter.constructor | src/ControlVNextSession.cpp:75-78 | nothing queued, nothing written |
| FrameWriter.FrameWriter.ClearQueue | src/ControlVNextSession.cpp:83-83 | removes only frames that were never started |
| FrameWriter.FrameWriter.HasPending | src/ControlVNextSession.cpp:85-85 | true exactly when some frame that was not dropped is not written to its last byte |
| FrameWriter.FrameWriter.Enqueue | src/ControlVNextSession.cpp:89-89 | adds the frame behind all others |
| FrameWriter.FrameWriter.FlushOnce | src/ControlVNextSession.cpp:91-127 | for every pattern of partial, interrupted and failed writes the bytes written stay whole frames in enqueue order followed by a beginning of the current one; false is returned for a fatal write and, among non-empty frames, only then |
| FrameWriter.FrameWriter.FlushAll | src/ControlVNextSession.cpp:239-262 | success means that every frame is written to its last byte |
| FrameWriter.PeerRecoversCompleted | src/ControlVNextSession.cpp:91-127 | whole frames followed by a beginning of another decode to exactly the whole ones |
| FrameWriter.PeerRecovers | src/ControlVNextSession.cpp:75-127 | a decoder at the other end recovers exactly the payloads of the completed frames |
| StreamSession.Session.constructor | src/ControlVNextSession.cpp:75-78 | an idle session over a new writer |
| StreamSession.Session.Push | src/ControlVNextSession.cpp:221-232 | a frame that may follow goes behind all others and keeps the protocol |
| StreamSession.Session.DropQueued | src/ControlVNextSession.cpp:83-83 | only frames that were never started are dropped |
| StreamSession.Session.Write | src/ControlVNextSession.cpp:788-792 | a non-blocking flush starts more frames, in order, and changes nothing else |
| StreamSession.Session.EnqueueAndFlush | src/ControlVNextSession.cpp:221-262 | a response or notice goes out behind everything queued, or the session ends |
| StreamSession.Session.Answer | src/ControlVNextSession.cpp:598-603 | any other answer goes out behind everything queued, or the session ends |
| StreamSession.Session.Start | src/ControlVNextSession.cpp:604-614 | the start response is followed by the started notice before any event of that stream |
| StreamSession.Session.Stop | src/ControlVNextSession.cpp:490-507 | waiting stream frames are dropped before the stop response, behind which nothing of the stopped stream is ever written |
| StreamSession.Session.Pump | src/ControlVNextSession.cpp:626-711 | an event or notice is handed over for the active stream only, and one that is too large ends the session |
| StreamSession.PeerSeesProtocol | src/ControlVNextSession.cpp:490-507 | what the peer decodes from the bytes written is the payloads of frames in protocol order: nothing of a stopped stream behind its stop response, nothing of a stream before its start |
| StreamQueue.HorizonReaches | src/ControlVNextStreamManager.cpp:20-26 | how far a horizon reaches, to the second |
| StreamQueue.ReplayStartIndex | src/ControlVNextStreamManager.cpp:65-103 | the replay start is the first event in the horizon or the last minSize, whichever comes first |
| StreamQueue.ReplayIsWanted | src/ControlVNextStreamManager.cpp:65-103 | the replayed suffix holds every in-horizon event and the last minSize, and nothing more exactly when the horizon cuts off a suffix of the ring |
| StreamQueue.ReplayInOrder | src/ControlVNextStreamManager.cpp:65-103 | with timestamps in order exactly the wanted events are replayed |
| StreamQueue.ReplayAddsMoreOutOfOrder | src/ControlVNextStreamManager.cpp:65-103 | an out-of-order ring from which more is replayed |
| StreamQueue.EveryEventHasOneFate | src/ControlVNextStreamManager.cpp:56-63 | among the events that left the pending queue each was either popped or dropped |
| StreamQueue.Stream.constructor | src/ControlVNextStreamManager.cpp:36-38 | empty ring, no subscriber |
| StreamQueue.Stream.PushRing | src/ControlVNextStreamManager.cpp:47-54 | the ring is the newest events up to its bound |
| StreamQueue.Stream.PushPending | src/ControlVNextStreamManager.cpp:56-63 | drops are always the oldest pending events and are counted |
| StreamQueue.Stream.Start | src/ControlVNextStreamManager.cpp:105-158 | one subscriber at a time; a new subscription is fed the replayed suffix |
| StreamQueue.Stream.Stop | src/ControlVNextStreamManager.cpp:187-218 | only the owner ends its subscription, which also empties the ring |
| StreamQueue.Stream.Detach | src/ControlVNextStreamManager.cpp:220-249 | only the owner is detached, and the ring stays |
| StreamQueue.Stream.Observe | src/ControlVNextStreamManager.cpp:345-366 | an event goes to the ring and, with a subscriber, to the pending queue |
| StreamQueue.Stream.Pop | src/ControlVNextStreamManager.cpp:291-311 | the owner gets the oldest pending event, so popped events keep their order |
| StreamQueue.Stream.TakeDropped | src/ControlVNextStreamManager.cpp:335-343 | the drop counter is handed over and reset |
| StreamQueue.Stream.Conservation | src/ControlVNextStreamManager.cpp:105-366 | within a subscription replayed + observed = popped + pending + dropped |
| CustomRules.CombinedIsAttributed | src/CustomRules.cpp:57-131 | the combined regex and the per-rule regexes disagree on a name exactly when the published regex is the empty one and either takes the empty name that no rule matches or leaves a name that one matches |
| CustomRules.AstrayWhenCompiled | src/CustomRules.cpp:80-88 | with a compiled regex that happens only to the empty name in a rule set without valid rules |
| CustomRules.FirstIsSmallest | src/CustomRules.cpp:116-131 | attribution names the smallest matching rule id, or none when none matches |
| CustomRules.PublishedMatches | src/CustomRules.cpp:57-91 | attribution finds a rule exactly when a valid rule of the set matches |
| CustomRules.RuleSet.Rebuild | src/CustomRules.cpp:57-91 | both snapshots hold every valid rule once, attribution in id order, whatever the iteration order; a combined regex that does not compile is replaced by the empty one |
| CustomRules.RuleSet.Add | src/CustomRules.cpp:39-46 | adds a rule; the snapshots follow when compiling and stay otherwise |
| CustomRules.RuleSet.Remove | src/CustomRules.cpp:48-55 | removes a rule likewise |
| CustomRules.RuleSet.Reset | src/CustomRules.cpp:172-177 | no rules and blank snapshots |
| CustomRules.MatchFirstRuleId | src/CustomRules.cpp:116-131 | the search loop returns the first of the matching rules |
| CustomRules.MatchingExplainSnapshots | src/CustomRules.cpp:133-170 | lists the matching rules sorted by id and capped, a named winner included; truncated and omitted say exactly how many are left out |
| CustomRules.CapCandidateSnapshots | src/ControlVNextStreamExplain.hpp:47-91 | keeps the first 63, gives the last place to a winner further back, counts what is left out, and is the first 64 when no winner is named; up to 64 nothing changes |
| DomainPolicy.PlainEvaluatorsAgree | src/App.cpp:118-234 | the three plain evaluators never differ in verdict, colour or source |
| DomainPolicy.PlainIsReference | src/App.cpp:179-234 | they give the first hit in order of precedence exactly unless the domain reaches a rule set whose empty regex goes astray on its name |
| DomainPolicy.MaskDecides | src/App.cpp:229-233 | without custom lists, or when none says anything, a domain is blocked exactly when the app blocks a list the domain is on |
| DomainPolicy.EvidenceIsOverlap | src/App.cpp:393-404 | the evidence of the mask stage is what both masks have in common, and it blocks exactly if that is something |
| DomainPolicy.AgreeOnAdmittedNames | src/App.cpp:118-417 | on every name that is not empty, with compiled regexes, the plain evaluators give the verdict of the trace |
| DomainPolicy.FailedCompilationDiffers | src/CustomRules.cpp:80-88 | two rules that compile apart but not together: the matching one blocks in the trace and not in the verdict |
| DomainPolicy.EmptyNameDiffers | src/App.cpp:202-207 | why the empty name must not be admitted: the evaluators would differ from the trace |
| DomainPolicy.AttributionIsSmallest | src/App.cpp:263-269 | the attributed rule is the smallest matching id of the rule set that decided |
| DomainPolicy.Candidates | src/App.cpp:319-326 | the rules a stage lists are the matching ones sorted by id and capped at 64, so the smallest matching id comes first, with exact truncation data |
| DomainPolicy.Try | src/App.cpp:293-334 | a stage that is tried records its list entry, its rules, whether it matched and to what effect |
| DomainPolicy.Evaluation.AppendStage | src/App.cpp:270-285 | closing a stage keeps the trace and decision invariant |
| DomainPolicy.Evaluation.PolicyStage | src/App.cpp:288-386 | a list, rule or device stage extends the trace by the step it stands for |
| DomainPolicy.Evaluation.MaskStage | src/App.cpp:388-405 | so does the mask stage |
| DomainPolicy.EvaluateDebug | src/App.cpp:236-417 | the explaining evaluator gives the reference verdict on every input, with a stage for each of the seven steps that carries its list entry, rules, truncation data or mask evidence |
| DomainPolicy.TraceHasOneWinner | src/App.cpp:270-405 | with blocking on, exactly one stage wins; enabled stages before it were evaluated and unmatched, those after it short-circuited; the winner's outcome is the verdict and its first rule the rule id |
| DomainList.AggregateIsUnique | src/DomainList.cpp:347-371 | the merged snapshot depends on the lists alone, not on the order of merging |
| DomainList.Rebuild | src/DomainList.cpp:347-371 | the rebuilt snapshot is the pointwise OR of all lists |
| DomainList.Lookup | src/DomainList.cpp:49-65 | the search loop returns the mask of the exact name, else of the longest listed proper suffix at a label boundary that still contains a dot, else 0 |
| DomainList.MaskIsUnique | src/DomainList.cpp:49-65 | that determines the mask |
| DomainList.LastLabelIsNotTried | src/DomainList.cpp:54-63 | with a single dot only the exact name counts |
| DomainList.FailedWrite | src/DomainList.cpp:107-119 | after an open failure the snapshot is still right exactly unless the list was cleared and the others do not cover it |
| DomainList.ClearedListStillBlocks | src/DomainList.cpp:107-119 | a cleared list whose file cannot be opened goes on blocking its name |
| DomainList.ListIdIsPlain | src/DomainList.cpp:376-385 | a list id is one to 64 hexadecimal digits and dashes, so it names no path outside its directory |
| DomainList.BlockLists.constructor | src/DomainList.cpp:14-14 | no lists, empty snapshot |
| DomainList.BlockLists.BlockMask | src/DomainList.cpp:31-65 | one trailing dot is ignored, the root name has no mask, and otherwise the lookup above applies |
| DomainList.BlockLists.Set | src/DomainList.cpp:24-29 | replaces one list; snapshot = OR of all lists |
| DomainList.BlockLists.Read | src/DomainList.cpp:67-95 | loads a list that is not in memory; afterwards, also after a stale snapshot, snapshot = OR of all lists |
| DomainList.BlockLists.Write | src/DomainList.cpp:97-135 | adds missing names, keeps the masks of present ones, counts the additions; after an open failure the list is as before or, when cleared, empty; a successful write makes the snapshot right, and a failed one leaves a right snapshot so exactly under the stated condition |
| DomainList.BlockLists.ImportAtomic | src/DomainList.cpp:137-224 | all or nothing; imported and total counts; masks OR-ed; an import that is published makes snapshot = OR of all lists, any other leaves it |
| DomainList.BlockLists.Erase | src/DomainList.cpp:226-237 | removes a known list, and then snapshot = OR of all lists, also after a stale one |
| DomainList.BlockLists.Reset | src/DomainList.cpp:239-243 | no lists |
| DomainList.BlockLists.Enable | src/DomainList.cpp:245-278 | loads the list from its file, empty when unreadable, and then snapshot = OR of all lists, also after a stale one |
| DomainList.BlockLists.Disable | src/DomainList.cpp:280-294 | removes the list, and then snapshot = OR of all lists, also after a stale one |
| DomainList.BlockLists.ChangeBlockMask | src/DomainList.cpp:296-304 | sets one mask in a whole list, and then snapshot = OR of all lists, also after a stale one |
| IpDomainIndex.DomainManager.constructor | src/DomainManager.hpp:42-42 | nothing resolves; the anonymous domain is known by name |
| IpDomainIndex.DomainManager.Find | src/DomainManager.hpp:198-202 | what an address resolves to has it in its own set |
| IpDomainIndex.DomainManager.Create | src/DomainManager.cpp:51-54 | a known name keeps its domain |
| IpDomainIndex.DomainManager.AddIPBoth | src/DomainManager.cpp:122-134 | the address joins the domain's set; an address already resolved keeps its domain |
| IpDomainIndex.DomainManager.RemoveIPs | src/DomainManager.cpp:106-120 | afterwards nothing resolves to the domain; another domain's address is lost exactly when both shared it |
| IpDomainIndex.SharedAddressIsLost | src/DomainManager.cpp:106-134 | two domains that share an address: forgetting the second one's addresses leaves the first unresolved |
| IpDomainIndex.DomainManager.RestoreDomain | src/DomainManager.cpp:217-230 | the saved addresses join the domain's own and all resolve; addresses resolved before keep their domain and no other domain's set changes |
| IpDomainIndex.DomainManager.Reset | src/DomainManager.cpp:240-249 | nothing resolves and only the anonymous domain is known |
| IpDomainIndex.DomainManager.ResetRuntimeAssociations | src/DomainManager.cpp:286-303 | nothing resolves and the named domains have no addresses |
| MatchKey.PortInjective | src/ControlVNextSessionCommandsIpRules.cpp:190-201 | the port text is one to one over any, exact and range |
| MatchKey.Cidr4Injective | src/ControlVNextSessionCommandsIpRules.cpp:86-97 | the IPv4 block text is one to one |
| MatchKey.Cidr6Injective | src/ControlVNextSessionCommandsIpRules.cpp:146-157 | the IPv6 block text is one to one |
| MatchKey.HexIsLegible | src/ControlVNextSessionCommandsIpRules.cpp:146-157 | there is an address text as the key needs it |
| MatchKey.KeyIsExact | src/ControlVNextSessionCommandsIpRules.cpp:395-413 | two rules have the same key exactly when they agree in every match field of their family |
| MatchKey.DuplicatesAreStructural | src/ControlVNextSessionCommandsIpRules.cpp:1035-1048 | finding equal keys is finding rules that match alike |
| MatchKey.DuplicatedKeys | src/ControlVNextSessionCommandsIpRules.cpp:1035-1048 | the payload is rejected exactly when two of its rules match alike, and each key lists the rules that carry it |
| MatchKey.MaskPrefix | src/ControlVNextSessionCommandsIpRules.cpp:123-141 | the in-place masking zeroes every byte behind the prefix and masks the byte it ends in |
| MatchKey.MaskedBits | src/ControlVNextSessionCommandsIpRules.cpp:123-141 | exactly the bits in front of the prefix are kept |
| MatchKey.MaskedIsCanonical | src/ControlVNextSessionCommandsIpRules.cpp:123-141 | two addresses mask alike exactly when their blocks hold the same addresses |
| MatchKey.BlockHasOneText | src/ControlVNextSessionCommandsIpRules.cpp:146-157 | blocks of one prefix length print alike exactly when they hold the same addresses |

## Left out

- Weak memory: atomics are sequentially consistent steps; reordering is not modelled.
- Slot exhaustion: every reader gets a real epoch slot (`src/Conntrack.cpp:346-352` has a fallback).
- Wrap-around of the 32- and 64-bit counters; deadlines do saturate as in the code.
- Tracker.InspectForPolicy: stands for the map only while timestamps do not go back, the exact condition for sweeps to go unnoticed (`SweepUnnoticed`); for other timestamps its result is given in terms of the table.
- Tracker.CommitAccepted: the same; the entries of the other family are a parameter.
- AtMostOneLive: is about operations one at a time; for interleaved ones see `LookupStopsAtNewest`.
- Telemetry observations are not inserted into the flow table, so the flow results are about runs without them; evictions for telemetry appear in EntryBudget and EpochReclamation as unlinks.
- TelemetryPlane.Observe: the insertion under a full table is not part of it.
- TelemetryPlane.Commit: takes a handle that is not in use, as a newly allocated entry has.
- TelemetryPlane.Disable: includes the closing of the session, which both callers do under the same lock.
- Record fields that no export decision reads (addresses, ports, interface index, origin direction, picked-up flag, end reason), and the shared-memory ring behind an export, which either succeeds or fails.
- Regex semantics: what a regex matches is a parameter, and a compiled combined regex matches what one of its parts matches; attributed rule ids still resolve.
- MatchKey: the library's text of a 16-byte address is a parameter that is one to one and has neither `|` nor `/`; `inet_pton` and the parsing of the text forms are not modelled.
- DomainList files are parameters (their contents, and whether opening, renaming and persisting succeeded).
- IpDomainIndex uses one index over tagged addresses for the program's two; locks and the saved file are left out.
- Session: frames are told apart by what they are for, and their texts are parameters; deadlines are a bound on the flush rounds, and the budget of 128 queued frames is left out.
- The activity stream and the suppressed-traffic counters, which only add further queues and sums of the same kind.
- Sockets, polling, threads, JSON documents, settings, statistics, save files and legacy commands.
