# Verified model of an Evolved Packet Core

This project models the parts of the EPC demo whose correctness is hardest to see from the code, and proves
what those parts are for. `dafny verify dfyconfig.toml` checks it.

## What is modelled

**The GTPv2-C transaction layer** (`lib/gtp/gtp_xact.c`, section 7.6 of 3GPP TS 29.274). `GtpMessage` has the
stages of a message and the identifiers; `XactModel` has every operation as a step function on values;
`XactInvariants` proves what every run keeps; `XactTimers` proves that retransmission ends; `XactReach` gives
runs that lead to the states where the layer does less than one would expect; `XactExact` says of each operation,
without its step function, what it writes and what it leaves alone; `XactLayer` has the operations
as they are written, on records and lists updated in place, each proved equal to its step function.
`ChannelModel`, `ChannelInvariants`, `ChannelSteps`, `ChannelTheorems` and `ChannelAnswers` put two such layers
at the ends of a channel that loses, duplicates and reorders, with timers, clocks, other peers' traffic and any
number of exchanges in both directions; `ChannelContents` follows tunnel ids and bodies through it; `ChannelRuns`
has the runs that deliver a request twice.

**The start and stop of the processes** (`src/epc.c`), as an interleaving of the parent and up to four
children over their semaphores: `Handshake`.

**Packet-filter rules** (`lib/ipfw/ipfw2.c`): the assembly of a rule from two instruction buffers
(`RuleAssembly`, `RuleMeaning`, `RuleOrder`), the or-blocks of the result (`OrBlocks`), prefix masks (`Mask`) and address
sets in text (`AddressSet`).

**The user plane** (`kmod/`): hash chains (`HashIndex`), the flow table with its two indexes (`FlowModel` on
values, `FlowTable` as a class, `FlowTheorems` and `FlowUplink` over whole runs), the packet hooks (`FlowHooks`), the dump protocol
(`FlowDump`), and GTP-U encapsulation (`Tunnel`, `TunnelDevice`, `TunnelExact`).

**Two codecs**: bit rates of sections 9.9.4.2 and 9.9.4.3 of 3GPP TS 24.301 (`BitRate`) and the User Location
Information of section 8.21 of 3GPP TS 29.274 (`Uli`, `UliWire`). `Bytes` and `Options` are shared helpers.

## Conventions

- `d_assert(c, action, ..)` performs `action` when `c` is false; an `action` that is empty only reports.
- Whether a send, an allocation or a child's initialisation succeeds is a parameter or a choice of the run.
  Time is in milliseconds. Hash functions are arbitrary.
- Every timer block is created when its event is configured. A timer event is served for a live transaction
  that has recorded a message; a fired timer is idle until it is started again. In runs the event is that of a
  running timer, or one that was overtaken and does no harm (`TimeoutExact` says which those are).
- An or-block still open at the end of a rule's match part counts as a block of its own: it holds if one of its
  instructions does. The comment on F_OR in `ip_fw.h` does not say what happens there; the part of the or-block
  results that is about a dangling flag at the end rests on this reading.
- Rates are in kbps with 1024 kbps to the Mbps, as in the program.
- In the channel, one-way delays lie between `delay` and `delay + spread`, and a timer event is served no
  later than `late` after its expiry. An event is only served when its expiry time has passed, so with `late` at
  zero no timer could be served at all; the exact bound is stated for `late` of one millisecond or more.

## What the code does differently from what one would expect

- The largest local identifier, 0x800000, has bit 23 set, so the answer to a request with it is looked up among
  the remote transactions. An answer also misses its request when an earlier transaction of the same list has the
  same identifier, which happens once the counter has come round. These are exactly the cases (`AnswerReaches`),
  and both can be reached (`WaitingWithMax`, `WaitingBehindRefused`).
- Requests with a given identifier are delivered at most once in all runs exactly when the identifier is not
  0x800000 and `spread + 2 * late <= 3000` (`AtMostOnceExactly`). With delays that vary by 3000 ms and timers
  served one millisecond late the third copy of any request can arrive after the holding time (`TwiceDelivered`).
  With 0x800000 no delay is needed: the answer to the other endpoint's request with that identifier ends the
  transaction that remembers the request (`MaxTwiceDelivered`).
- Taking two transactions apart breaks the pairing of others exactly when both are associated but not with
  each other, save when each is its own partner (`DeassociateExact`).
- A response-timer event that was overtaken by the answer restarts the timer of a transaction that awaits nothing,
  exactly when `TimeoutSafe` fails (`StaleTimeout`, `TimeoutExact`).
- A message that matches nothing, and a request whose build is refused, leave a transaction at step 0 behind. No
  timer visits it, and it stays until its peer's transactions are deleted or a message advances it
  (`LeftBehind`); unmatched answers use the pool up (`UsedUp`).
- From 65280 Mbps on `br_calculate` stops at the second extension's largest value but keeps the remainder, so
  the coded rate falls back (`AtTheLimit`, `Saturated`, `MonotoneExactly`).
- A keep-state option next to a dangling `or` is moved to the end of the match part and changes what the rule
  matches (`OrBlocksKept` says exactly when).
- The check for a rule that is too long counts moved instructions twice and the match probability never
  (`Assemble` states the sum it compares).
- Adding a flow again with a tunnel id of another bucket hides it from uplink lookup (`AddedIsFound` says
  exactly then; `TunnelLostExample` is one case). Contexts of the GTP device behave the same (`PdpAddExactly`).
- A flow without a subscriber address ends the dump early (`DumpExact`).
- An empty address set is printed without its opening brace (`PrintThenParse` says: exactly then).

## Model

| member | source | states |
|---|---|---|
| `GtpMessage.XidRoundTrip` | lib/gtp/gtp_message.h:65-66 | an identifier survives conversion to a sequence number and back exactly when it is below 2^24 |
| `GtpMessage.SqnRoundTrip` | lib/gtp/gtp_message.h:65-66 | every received sequence number gives an identifier below 2^24 and survives but for its spare octet |
| `GtpMessage.Bit23OfLocalIds` | lib/gtp/gtp_xact.c:13-15 | among the identifiers a node hands out only 0x800000 has bit 23 set |
| `GtpMessage.Bit23Halves` | lib/gtp/gtp_xact.c:722-770 | bit 23 splits the 24-bit identifiers into a lower and an upper half |
| `GtpMessage.SqnOctets` | lib/gtp/gtp_message.h:65-66 | on the wire the three octets of the identifier come highest first and a zero octet follows |
| `GtpMessage.AnswerFollows` | lib/gtp/gtp_xact.c:722-770 | a kind ends an exchange exactly when the kind before it opens one or answers a command |
| `GtpMessage.Openers` | lib/gtp/gtp_xact.c:722-770 | by number, which kinds open an exchange and which answer a command, for every identifier |
| `XactModel.FindByXid` | lib/gtp/gtp_xact.c:772-816 | what lookup returns is live and has the identifier asked for |
| `XactInvariants.UpdateTxOk` | lib/gtp/gtp_xact.c:184-281 | sending keeps a record well-formed: step at most 3, history exactly below step, alternating directions, packets exactly at the sent positions, timers only where an answer or a hold is due; what the packet holds is in `UpdateTxExact` |
| `XactInvariants.UpdateRxCases` | lib/gtp/gtp_xact.c:283-479 | a message is accepted if and only if the next position is one to receive at and the stage fits it; otherwise the record is unchanged or only its hold restarts, and what is resent is the stored answer; exactly when it is resent is in `UpdateRxExact` |
| `XactInvariants.UpdateRxOk` | lib/gtp/gtp_xact.c:283-479 | receiving keeps a record well-formed, and a remote one with bit 23 clear never passes step 2 |
| `XactInvariants.CommitCases` | lib/gtp/gtp_xact.c:482-600 | exactly when commit sends, deletes or fails; whatever it sends is a stored packet, never nothing |
| `XactInvariants.CommitOk` | lib/gtp/gtp_xact.c:482-600 | commit keeps a record well-formed |
| `XactInvariants.RunningIsSafe` | lib/gtp/gtp_xact.c:602-683 | the event of a running timer comes while its transaction awaits what it waits for, and a response expiry always finds the packet to resend |
| `XactInvariants.TimeoutOk` | lib/gtp/gtp_xact.c:602-683 | such an event resends the last packet and uses up one try, or deletes: exactly on a holding expiry, the last try or a failed send |
| `XactInvariants.StaleTimeout` | lib/gtp/gtp_xact.c:622-637 | any other event leaves a timer running for a transaction that awaits nothing |
| `XactInvariants.ThreeMessagesNeedMax` | lib/gtp/gtp_xact.c:722-770 | of a node's own requests only one with identifier 0x800000 can be answered by an intermediate request |
| `XactInvariants.AtMostOneUnderWay` | lib/gtp/gtp_xact.c:122-164 | in a good state at most one remote transaction of a peer and identifier is past step 0 |
| `XactInvariants.LookupHandled` | lib/gtp/gtp_xact.c:772-816 | a transaction found belongs to an originator whose receive step handles that stage, and is the first of its list with the identifier |
| `XactInvariants.AnswerReaches` | lib/gtp/gtp_xact.c:685-714 | the final answer to any pending local request is accepted by that request if and only if its identifier is not 0x800000 and no earlier transaction of its list has it; otherwise the request stays as it was |
| `XactInvariants.CreateInv` | lib/gtp/gtp_xact.c:74-164 | creation keeps the invariant of the whole layer |
| `XactInvariants.LocalCreateInv` | lib/gtp/gtp_xact.c:74-120 | so does a local request, refused or not |
| `XactInvariants.ReceiveInv` | lib/gtp/gtp_xact.c:685-714 | so does every received message, matched or not |
| `XactInvariants.UpdateTxInv` | lib/gtp/gtp_xact.c:184-281 | so does building a message |
| `XactInvariants.CommitInv` | lib/gtp/gtp_xact.c:482-600 | so does a commit, with the deletion it may lead to |
| `XactInvariants.TimeoutExact` | lib/gtp/gtp_xact.c:602-683 | a timer event, on time or overtaken, keeps the invariant of the layer if and only if it is the holding timer's, an answer is awaited, or it deletes the transaction |
| `XactInvariants.AssociateInv` | lib/gtp/gtp_xact.c:818-828 | association stays a symmetric matching over live transactions |
| `XactInvariants.DeassociateExact` | lib/gtp/gtp_xact.c:830-840 | taking any two apart leaves a symmetric matching if and only if one has no partner, they are partners, or each is its own |
| `XactInvariants.DeassociateInv` | lib/gtp/gtp_xact.c:830-840 | and exactly then it keeps the invariant of the whole layer |
| `XactInvariants.DropInv` | lib/gtp/gtp_xact.c:842-875 | deletion leaves no reference behind and keeps pool and lists a disjoint union |
| `XactInvariants.DropEachInv` | lib/gtp/gtp_xact.c:166-182 | so does deleting all of a peer's transactions |
| `XactInvariants.NextInv` | lib/gtp/gtp_xact.c:74-875 | every enabled event keeps the invariant |
| `XactInvariants.RunInv` | lib/gtp/gtp_xact.c:74-875 | in every state of every run: well-formed histories, packets and timers; pool and free queue disjoint and complete; each live transaction once in its originator's list; association a matching; the remote transaction under way is the first with its identifier |
| `XactTimers.CountersStep` | lib/gtp/gtp_xact.c:602-683 | only a served timer changes a retry counter, and a survivor lost exactly one response try |
| `XactTimers.TimersEnd` | lib/gtp/gtp_xact.c:17-21 | over any stretch of any run a transaction lives through at most two timer events; the third response expiry or the first holding expiry ends it |
| `XactTimers.CountersInRange` | lib/gtp/gtp_xact.c:90-152 | a live transaction's response counter is between 1 and 3 when a response event is configured (and 0 otherwise), and its holding counter is 1 when a holding event is, so no decrement of a started timer's counter wraps |
| `XactReach.DriveTo` | lib/gtp/gtp_xact.c:74-120 | any run whose counter has hardly been used can be continued until the counter stands at any identifier, all else unchanged |
| `XactReach.WaitingWithMax` | lib/gtp/gtp_xact.c:772-797 | a run that leaves a request waiting with identifier 0x800000 |
| `XactReach.WaitingBehindRefused` | lib/gtp/gtp_xact.c:74-120 | a run that leaves a request waiting behind a refused one with the same identifier |
| `XactReach.NextLeaves` | lib/gtp/gtp_xact.c:74-875 | a transaction at step 0 is unchanged by every event but deletion of its peer's transactions, a message built for it, or an initial message with its identifier |
| `XactReach.LeftBehind` | lib/gtp/gtp_xact.c:74-875 | so through any stretch of any run without such an event it stays |
| `XactReach.UsedUp` | lib/gtp/gtp_xact.c:685-714 | every run without local requests to a peer can be continued by unmatched answers, one a free index, until no request can be made any more |
| `XactExact.UpdateTxExact` | lib/gtp/gtp_xact.c:184-281 | a message is built if and only if the next position is one to send at and its stage fits; it is then stored there with the kind, tunnel id, body, length and identifier it was given, and nothing else changes |
| `XactExact.UpdateRxExact` | lib/gtp/gtp_xact.c:283-479 | the status of every message, and its stored answer is sent again if and only if the message repeats one that was answered and the send succeeds |
| `XactExact.UpdateRxRecord` | lib/gtp/gtp_xact.c:283-479 | the record after it: one position filled and the timers moved, or only a hold of nine seconds from now, or nothing |
| `XactExact.CommitRecord` | lib/gtp/gtp_xact.c:482-600 | a commit starts three seconds of waiting if and only if an answer is awaited, and changes nothing else |
| `XactExact.TimeoutRecord` | lib/gtp/gtp_xact.c:602-683 | every timer event, on time or overtaken: a response expiry takes one try, waits three seconds more and resends what was last sent, unless it was the last try or the send fails, which delete, as every holding expiry does |
| `XactExact.NextMessageReaches` | lib/gtp/gtp_xact.c:685-816 | for every stage and originator, the message a live transaction waits for is accepted by it if and only if the message is looked for in its list and no earlier entry has the identifier; otherwise the transaction stays as it was |
| `XactExact.AssociateExact` | lib/gtp/gtp_xact.c:818-828 | two free transactions become each other's partners, otherwise nothing changes |
| `XactExact.DeassociateRecord` | lib/gtp/gtp_xact.c:830-840 | two transactions with partners lose them, otherwise nothing changes |
| `XactExact.DropExact` | lib/gtp/gtp_xact.c:842-875 | deleting a transaction frees its partner and its index and touches no other |
| `XactExact.DropOrder` | lib/gtp/gtp_xact.c:842-875 | its list keeps its order, the other lists all they had |
| `XactExact.DropEachExact` | lib/gtp/gtp_xact.c:166-182 | deleting a list of transactions frees their indexes in order and touches no other |
| `XactExact.DropAllExact` | lib/gtp/gtp_xact.c:166-182 | deleting a peer's transactions leaves exactly those of other peers, as they were but for lost partners |
| `XactLayer.GtpXact.UpdateTx` | lib/gtp/gtp_xact.c:184-281 | the record updated in place is the one the step function gives (see `UpdateTxExact`) |
| `XactLayer.GtpXact.UpdateRx` | lib/gtp/gtp_xact.c:283-479 | the same for receiving, with the packet sent again (see `UpdateRxExact`) |
| `XactLayer.GtpXact.Commit` | lib/gtp/gtp_xact.c:482-600 | the same for commit |
| `XactLayer.GtpXact.Timeout` | lib/gtp/gtp_xact.c:602-683 | the same for a timer event |
| `XactLayer.GtpXactLayer.constructor` | lib/gtp/gtp_xact.c:41-55 | an initialised layer satisfies the invariant |
| `XactLayer.GtpXactLayer.FindByXid` | lib/gtp/gtp_xact.c:772-816 | the loop over the chosen list returns its first transaction with the identifier |
| `XactLayer.GtpXactLayer.Create` | lib/gtp/gtp_xact.c:122-164 | pool, free queue and list after creation, and the invariant |
| `XactLayer.GtpXactLayer.LocalCreate` | lib/gtp/gtp_xact.c:74-120 | the whole layer after a local request, its result, and the invariant |
| `XactLayer.GtpXactLayer.Receive` | lib/gtp/gtp_xact.c:685-714 | the whole layer after a message, status, transaction and resent packet, and the invariant |
| `XactLayer.GtpXactLayer.UpdateTx` | lib/gtp/gtp_xact.c:184-281 | the whole layer after building a message, and the invariant |
| `XactLayer.GtpXactLayer.Commit` | lib/gtp/gtp_xact.c:482-600 | the whole layer after a commit, deletion included, and the invariant |
| `XactLayer.GtpXactLayer.Timeout` | lib/gtp/gtp_xact.c:602-683 | the whole layer after a timer event, deletion included, and the invariant exactly when the event is harmless |
| `XactLayer.GtpXactLayer.Associate` | lib/gtp/gtp_xact.c:818-828 | both records point at each other if both were free, otherwise nothing changes |
| `XactLayer.GtpXactLayer.Deassociate` | lib/gtp/gtp_xact.c:830-840 | any two are set free if both have partners, and the invariant is kept exactly when the pair may be taken apart |
| `XactLayer.GtpXactLayer.Delete` | lib/gtp/gtp_xact.c:842-875 | partner freed, list unlinked, index back at the end of the free queue |
| `XactLayer.GtpXactLayer.DeleteAll` | lib/gtp/gtp_xact.c:166-182 | both lists of a peer are emptied, although each successor is read after its node was freed |
| `ChannelSteps.StepOk` | lib/gtp/gtp_xact.c:381-714 | every step of the two-endpoint system keeps its invariant |
| `ChannelSteps.RunOk` | lib/gtp/gtp_xact.c:381-714 | so every reachable state of it satisfies the invariant |
| `ChannelTheorems.AtMostOnce` | lib/gtp/gtp_xact.c:17-21 | with delays varying by at most 3000 ms less twice the timers' lateness, no request with an identifier other than 0x800000 reaches the application twice, hold expiry included |
| `ChannelTheorems.AnsweredAtMostOnce` | lib/gtp/gtp_xact.c:381-445 | for any delays, a request accepts at most one answer, and that answer was built by the peer for a delivered request with the same identifier |
| `ChannelRuns.TwiceDelivered` | lib/gtp/gtp_xact.c:602-683 | beyond that bound there is, for every identifier, a run that delivers a request with it twice |
| `ChannelRuns.MaxTwiceDelivered` | lib/gtp/gtp_xact.c:780-797 | on every link there is a run, without any delay, that delivers a request with identifier 0x800000 twice |
| `ChannelTheorems.AtMostOnceExactly` | lib/gtp/gtp_xact.c:602-714 | for every identifier, delivery is at most once for all delays and all runs if and only if the identifier is not 0x800000 and spread + 2 * late <= 3000 |
| `ChannelAnswers.RightAnswers` | lib/gtp/gtp_xact.c:381-445 | if identifiers are not reused within a request's lifetime, every accepted answer replies to a delivery of that very request |
| `ChannelContents.ContentsKept` | lib/gtp/gtp_xact.c:184-714 | in every run, whatever the channel loses, doubles or reorders, a request reaches the application with the kind, tunnel id and body it was asked with, and an accepted answer has those it was answered with |
| `ChannelContents.SaidByStep` | lib/gtp/gtp_xact.c:74-281 | these are the ones the application gave: only a request adds a request and only an answer a reply |
| `ChannelContents.CopyAnswered` | lib/gtp/gtp_xact.c:399-416 | in every reachable state a copy of a request that was answered is not delivered again: the very answer built for it goes out once more and holding starts anew |
| `Handshake.RunInv` | src/epc.c:43-281 | in every interleaving the semaphore counts and program points of parent and child fit together |
| `Handshake.OneSchedule` | src/epc.c:43-281 | for every subset of elements and every interleaving the observable events follow one schedule: each element initialised before the next is forked, shutdown in exact reverse order, each terminated before the next is signalled |
| `Handshake.WaitsMatchPosts` | src/epc.c:58-81 | the parent's first wait is satisfied by the post after initialisation and its second only by the post after termination |
| `Handshake.NoDeadlock` | src/epc.c:43-281 | in every reachable state that is not final somebody can move |
| `Handshake.StepDecreases` | src/epc.c:43-281 | every step brings the system nearer to its end |
| `Handshake.RunsEnd` | src/epc.c:43-281 | so no run is longer than a bound known at the start |
| `RuleAssembly.FlatWalk` | lib/ipfw/ipfw2.c:4588-4603 | a stream that can be walked by F_LEN is the concatenation of what the walk meets |
| `RuleAssembly.CopyPlain` | lib/ipfw/ipfw2.c:4587-4603 | the loop copies exactly the instructions that are not moved, in order, and fails exactly when the buffer's words exceed the room |
| `RuleAssembly.PutBack` | lib/ipfw/ipfw2.c:4608-4638 | a moved instruction is put back whole, if there is one |
| `RuleAssembly.CopyActions` | lib/ipfw/ipfw2.c:4643-4648 | the action buffer is copied whole, or refused exactly when it exceeds the room |
| `RuleAssembly.WriteHead` | lib/ipfw/ipfw2.c:4567-4585 | the probability if asked for, then the state probe if a state is kept |
| `RuleAssembly.Assemble` | lib/ipfw/ipfw2.c:4559-4650 | the rule is head, plain instructions, state instruction up to act_ofs, then LOG, ALTQ, TAG and the actions up to cmd_len; the error exactly when the accounted words exceed the room |
| `RuleAssembly.KindsPartition` | lib/ipfw/ipfw2.c:4588-4638 | the copied and the moved instructions together are the parsed ones, each as often as it was parsed |
| `RuleMeaning.WalkLands` | lib/ipfw/ipfw2.c:4616-4649 | walking the rule by F_LEN lands on act_ofs and then on cmd_len |
| `RuleMeaning.NothingLost` | lib/ipfw/ipfw2.c:4559-4650 | every instruction is in the rule exactly as often as in the buffers, plus the two of the head |
| `RuleMeaning.OrderKept` | lib/ipfw/ipfw2.c:4587-4603 | two instructions of one kind keep their order |
| `RuleMeaning.OrBlocksKept` | lib/ipfw/ipfw2.c:4587-4612 | the assembled match part is its head and the plain and state instructions of the commands, and these judge every packet as the parsed commands do if and only if nothing follows the state instruction, it is or'ed into a block that runs to the end, or it stands between closed blocks |
| `RuleMeaning.Rearranged` | lib/ipfw/ipfw2.c:4587-4612 | the commands with the state instruction moved behind the options, the action parameters gone |
| `OrBlocks.MoveExactly` | lib/ipfw/objs/include_e/netinet/ip_fw.h:286-304 | moving an instruction that always holds to the end keeps the meaning of all or-blocks if and only if that condition holds |
| `OrBlocks.MoveUnsafe` | lib/ipfw/objs/include_e/netinet/ip_fw.h:286-304 | otherwise some outcome of the other instructions is judged differently |
| `RuleOrder.LengthOctet` | lib/ipfw/objs/include_e/netinet/ip_fw.h:303-306 | the or flag and the length are the second bit and the last six of the octet |
| `RuleOrder.WrittenOrder` | lib/ipfw/ipfw2.c:4559-4650 | by opcode number: PROB, PROBE_STATE, what stays, then KEEP_STATE or LIMIT; in the action part LOG, ALTQ, TAG and the actions |
| `RuleOrder.RoomExactly` | lib/ipfw/ipfw2.c:4559-4650 | the space check compares the words written, plus those of the moved instructions once more, less the match probability |
| `RuleOrder.HoldsIs` | lib/ipfw/objs/include_e/netinet/ip_fw.h:286-304 | the running matcher accepts if and only if every block of instructions that are or'ed together has one that holds |
| `Mask.N2Mask` | lib/ipfw/ipfw2.c:2976-2992 | the mask has exactly its first n bits set |
| `Mask.ContigMask` | lib/ipfw/ipfw2.c:1090-1102 | a length is returned exactly for the mask of that length, -1 for everything else |
| `Mask.MaskUnique` | lib/ipfw/ipfw2.c:2976-2992 | a mask is determined by its length |
| `Mask.LengthUnique` | lib/ipfw/ipfw2.c:1090-1102 | and a length by its mask |
| `Mask.RecognisesExactly` | lib/ipfw/ipfw2.c:1090-1102 | contigmask answers k if and only if the mask is what n2mask builds for k |
| `Mask.OctetIs` | lib/ipfw/ipfw2.c:1090-1102 | an octet holds eight bits of the mask, the most significant first |
| `AddressSet.PrintSet` | lib/ipfw/ipfw2.c:1177-1209 | the text is the list of singles and of runs of three or more |
| `AddressSet.ItemsAre` | lib/ipfw/ipfw2.c:1191-1208 | the printed items are in increasing order and cover every address; a range is three or more up to the end of their run, and a single does not begin three |
| `AddressSet.PrintedExample` | lib/ipfw/ipfw2.c:1191-1208 | the text of one list, brace, dash and comma |
| `AddressSet.FillSet` | lib/ipfw/ipfw2.c:2874-2941 | outcome and bitmap are those of the parser on the text, and the padding is clear |
| `AddressSet.ParseRefused` | lib/ipfw/ipfw2.c:2907-2926 | which number is refused and how: outside the set, below the start of its range, or a second dash |
| `AddressSet.ReadBack` | lib/ipfw/ipfw2.c:2907-2909 | a printed number is read back, whatever separator follows |
| `AddressSet.ReadList` | lib/ipfw/ipfw2.c:2907-2938 | the rest of a printed list adds exactly the bits from there on |
| `AddressSet.PrintThenParse` | lib/ipfw/ipfw2.c:1177-1209 | printing and parsing restores the bitmap, for every size and base, if and only if the set is not empty |
| `AddressSet.SameOctets` | lib/ipfw/ipfw2.c:2874-2897 | bitmaps that agree on their bits and padding are the same words |
| `AddressSet.CopyThroughText` | lib/ipfw/ipfw2.c:2874-2941 | the two programs in sequence copy a non-empty set word for word |
| `AddressSet.OctetIs` | lib/ipfw/ipfw2.c:2874-2941 | an octet of the bitmap holds eight addresses, the least significant bit first |
| `HashIndex.IndexAdd` | kmod/gtp_fw.c:122-123 | a new node at the head of its chain leaves an exact index |
| `HashIndex.IndexRemove` | kmod/gtp_fw.c:134-139 | a node unlinked from the chain it is on leaves an exact index |
| `HashIndex.IndexMoved` | kmod/gtp_fw.c:106-109 | a record rewritten in place leaves an exact index if and only if its bucket did not change |
| `FlowModel.Scan` | kmod/gtp_fw.c:181-210 | a chain's first match, or none on the whole chain |
| `FlowModel.InsertInv` | kmod/gtp_fw.c:111-125 | threading a new node keeps both indexes exact and the addresses unique |
| `FlowModel.RemoveInv` | kmod/gtp_fw.c:134-139 | so does deleting one, from whichever tunnel chain it is on |
| `FlowModel.OverwriteInv` | kmod/gtp_fw.c:106-109 | so does overwriting a record under its own address |
| `FlowTheorems.LookupIsMap` | kmod/gtp_fw.c:197-210 | lookup by address answers as the plain map does, present or absent |
| `FlowTheorems.StepAgrees` | kmod/gtp_fw.c:91-126 | every event does to the table what it does to the map, whose steps are given field by field, and return codes and hits are the map's |
| `FlowTheorems.RunAgrees` | kmod/gtp_fw.c:91-243 | in every run, after every event, the address index is that map with one node a key and both indexes hold the same nodes |
| `FlowTheorems.AddedRecord` | kmod/gtp_fw.c:91-126 | after an addition lookup finds the flow with every field as given, counters and flags cleared for a new subscriber, and every other subscriber's flow as before |
| `FlowUplink.UplinkExact` | kmod/gtp_fw.c:181-195 | uplink lookup is sound and reaches exactly the matching nodes on the tunnel id's chain |
| `FlowUplink.CompleteExactly` | kmod/gtp_fw.c:181-195 | it finds every tunnel when all nodes are in place, and, one flow a tunnel, only then |
| `FlowUplink.AddInPlace` | kmod/gtp_fw.c:91-126 | an addition keeps all nodes in place if and only if an update stays in its bucket |
| `FlowUplink.RunComplete` | kmod/gtp_fw.c:91-243 | in every run whose updates stay in their buckets, uplink lookup finds every tunnel at every moment |
| `FlowUplink.SameTeidKeepsBucket` | kmod/gtp_fw.c:106-109 | an update that keeps the local tunnel id stays in its bucket |
| `FlowUplink.AddedIsFound` | kmod/gtp_fw.c:106-125 | an added flow is found by its own tunnel if and only if the update stayed in its bucket |
| `FlowUplink.TunnelLost` | kmod/gtp_fw.c:106-109 | adding twice with tunnel ids of different buckets makes lookup fail for a flow in the table |
| `FlowUplink.TunnelLostExample` | kmod/gtp_fw.c:106-109 | one such pair of additions |
| `FlowTable.GtpContext.constructor` | kmod/gtp_fw.c:141-169 | an empty table satisfies the invariant |
| `FlowTable.GtpContext.FindByInnerIp` | kmod/gtp_fw.c:197-210 | the chain loop finds what the specification finds |
| `FlowTable.GtpContext.FindByUlInfo` | kmod/gtp_fw.c:181-195 | the same for the tunnel index |
| `FlowTable.GtpContext.AddFlow` | kmod/gtp_fw.c:91-126 | table and code after an addition, found, new or out of memory, agreeing with the map |
| `FlowTable.GtpContext.DeleteNode` | kmod/gtp_fw.c:134-139 | both chains lose exactly that node |
| `FlowTable.GtpContext.DelFlow` | kmod/gtp_fw.c:226-243 | table and code after a deletion, agreeing with the map |
| `FlowHooks.Downlink` | kmod/gtp_fw.c:558-651 | a packet is encapsulated exactly when its destination has a flow, with that flow's headers, and the outer octets are counted |
| `FlowHooks.Uplink` | kmod/gtp_fw.c:476-555 | a packet is stripped exactly when it is a T-PDU, by the headers behind its outer IP header, for a tunnel the table finds, carrying ICMP, TCP or UDP of full length, and then the inner octets are counted |
| `FlowHooks.HeadersRead` | kmod/gtp_fw.c:607-645 | what the far end reads off the headers is the flow's remote address, tunnel and port |
| `FlowHooks.HeaderFields` | kmod/gtp_fw.c:607-645 | every field of the three headers: versions, type of service, the three lengths, time to live, protocol, addresses, ports and tunnel id |
| `FlowHooks.StrippedExactly` | kmod/gtp_fw.c:476-555 | octet by octet, exactly which packets are stripped: UDP to port 2152, message type 255, ICMP, TCP or UDP inside, 64 octets or more, for a tunnel the index reaches; 36 octets come off |
| `FlowHooks.HooksInvert` | kmod/gtp_fw.c:476-651 | what the downlink hook sends the uplink hook of another node recovers byte for byte, if and only if the flow goes to the GTP-U port, protocol and length allow it, and that node's tunnel index reaches a flow ending where this one goes |
| `FlowDump.SendAllFlow` | kmod/gtp_fw.c:270-296 | the messages are full batches of twenty and one padded batch, over the flows in traversal order |
| `FlowDump.DumpFlows` | kmod/gtp_flow.c:152-179 | it prints the records up to the first zero address, and stops exactly when there is one |
| `FlowDump.DumpExact` | kmod/gtp_flow.c:152-179 | for any number of flows the messages have twenty records each, the tool stops, and it prints all of them in order if and only if every flow has an address |
| `FlowDump.TraversalIsMap` | kmod/gtp_fw.c:270-296 | what is sent lists every flow of the map exactly once |
| `Tunnel.HeaderReads` | kmod/gtp.c:396-434 | a pushed header carries version, type and tunnel id where the receiver reads them, and the payload follows |
| `Tunnel.ReceivePushed` | kmod/gtp.c:187-290 | a pushed packet is decapsulated byte for byte if and only if the context its tunnel id selects has its mobile |
| `Tunnel.MirrorInverts` | kmod/gtp.c:488-498 | mirrored contexts at ends of opposite roles invert each other, for GTPv0 and GTPv1 |
| `Tunnel.DevicesInvert` | kmod/gtp.c:158-498 | a device sends exactly its mobiles' packets, by the octets of the source address at an SGSN and of the destination address at a GGSN, and a device that mirrors it recovers each byte for byte |
| `Tunnel.SendKeeps` | kmod/gtp.c:396-411 | sending changes only a sequence counter, so the two ends go on inverting each other |
| `Tunnel.DecapSound` | kmod/gtp.c:158-290 | whatever is decapsulated carries, in the octets of the role's side, the mobile address of the context its tunnel id selected and is the end of what arrived |
| `Tunnel.PdpAddExactly` | kmod/gtp.c:914-993 | adding a context keeps both tables exact if and only if it is refused, or no other mobile has the tunnel id and an update stays in its bucket |
| `Tunnel.NoContexts` | kmod/gtp.c:741-765 | a device without contexts has exact tables |
| `TunnelDevice.GtpDevice.AddPdp` | kmod/gtp.c:914-993 | known mobile, forbidden by the flags or rewritten in place; new mobile, out of memory or at the head of both chains |
| `TunnelDevice.GtpDevice.PdpFind` | kmod/gtp.c:106-156 | the three lookups return the first match of the chain |
| `TunnelDevice.GtpDevice.PushHeader` | kmod/gtp.c:396-458 | header and payload, and a GTPv0 sequence number used up |
| `TunnelDevice.GtpDevice.BuildSkb` | kmod/gtp.c:474-550 | the role picks the four octets that select the context; what is sent is its header and the packet, and nothing is sent without one |
| `TunnelDevice.GtpDevice.CheckMs` | kmod/gtp.c:158-172 | accepted exactly when the inner header is there and its octets 16 to 19 at an SGSN, 12 to 15 at a GGSN, are the mobile's address |
| `TunnelDevice.GtpDevice.EncapRecv0` | kmod/gtp.c:223-248 | drop, pass up or decapsulate, as specified |
| `TunnelDevice.GtpDevice.EncapRecv1u` | kmod/gtp.c:250-290 | the same for GTPv1, with the four octets of optional fields |
| `TunnelExact.Header0Octets` | kmod/gtp.c:396-411 | every octet of a GTPv0 header, the sequence number truncated and reduced as the program does |
| `TunnelExact.Header1Octets` | kmod/gtp.c:413-434 | every octet of a GTPv1 header |
| `TunnelExact.SendExactly` | kmod/gtp.c:474-550 | the context of the mobile in the packet's octets 12 to 15 at an SGSN, 16 to 19 at a GGSN, encapsulates it; there being none, nothing is sent |
| `TunnelExact.SendCounts` | kmod/gtp.c:396-411 | sending moves a GTPv0 counter on by one, through the sign bit, and changes nothing else |
| `TunnelExact.Recv0Exactly` | kmod/gtp.c:223-248 | by octets, exactly which GTPv0 packets are dropped, and which are stripped of 28 octets and for which context |
| `TunnelExact.Recv1Exactly` | kmod/gtp.c:250-290 | the same for GTPv1, with 16 octets or 20 |
| `TunnelExact.PdpAdded` | kmod/gtp.c:887-993 | a known mobile's context is refused by the flags or becomes as given with its counter kept, a new one is added as given with its counter zero, and the others stay |
| `BitRate.BrCalculate` | lib/nas/nas_types.c:8-150 | the octets and the number of octet groups of a rate |
| `BitRate.EncodeLegal` | lib/nas/nas_types.c:8-150 | every octet fits |
| `BitRate.GreatestRate` | lib/nas/nas_types.c:8-150 | the coded rate is the greatest codable rate not above the rate, if and only if the rate is below 65280 Mbps |
| `BitRate.SmallError` | lib/nas/nas_types.c:8-150 | below that limit the loss is less than an eighth |
| `BitRate.MonotoneExactly` | lib/nas/nas_types.c:8-150 | coding is monotone on the rates below n if and only if n is at most that limit |
| `BitRate.Stable` | lib/nas/nas_types.c:8-150 | below it, coding the decoded rate gives the same octets |
| `BitRate.AtTheLimit` | lib/nas/nas_types.c:8-150 | at it, a higher rate is coded lower |
| `BitRate.Saturated` | lib/nas/nas_types.c:8-150 | from it on, the coded rate stays below the highest codable one |
| `BitRate.ApnAmbrBuild` | lib/nas/nas_types.c:152-177 | the announced length cuts off no non-zero octet, and both octet groups stand for the greatest codable rate not above the 32-bit rate |
| `BitRate.EpsQosBuild` | lib/nas/nas_types.c:179-222 | the announced length cuts off no non-zero octet of the four rates; a rate below one kbps leaves zeros, and any other gives the octets of the greatest codable rate not above it, or beyond the limit those of its remainder |
| `Uli.ParseBuild` | lib/gtp/gtp_types.c:279-422 | parsing what was built gives the location with unflagged areas zeroed, for all flags |
| `Uli.BuildParse` | lib/gtp/gtp_types.c:279-422 | building what was parsed gives the octets back |
| `Uli.AcceptedExactly` | lib/gtp/gtp_types.c:279-347 | accepted are exactly the strings of the length the first octet announces |
| `Uli.PrefixFree` | lib/gtp/gtp_types.c:279-347 | no proper prefix or extension of an accepted string is accepted |
| `Uli.ParseUli` | lib/gtp/gtp_types.c:279-347 | the cursor program returns -1 or the parsed location, whose octets are named by `ParsedFromWire` |
| `Uli.BuildUli` | lib/gtp/gtp_types.c:348-422 | the cursor program fills the buffer with the element, whose octets are named by `BuiltOnWire`, or fails exactly when it does not fit |
| `UliWire.ParsedFromWire` | lib/gtp/gtp_types.c:279-347 | CGI, SAI, RAI, TAI, ECGI and LAI are announced by bits 1, 2, 4, 8, 16 and 32 and read, in this order, field by field from the octets where they stand; areas not announced are zero |
| `UliWire.BuiltOnWire` | lib/gtp/gtp_types.c:348-422 | and written there |

## Left out

- Sockets, netlink, timers as operating-system objects, packet-buffer memory, tracing and checksums: events, octet sequences and parameters stand for them.
- Timer events for an index that is no longer live or of a transaction at step 0, and timer allocation failure.
- XactLayer.GtpXactLayer.Commit: requires a recorded message, because without one the program reads the history before its start.
- Concurrent access inside the kernel module (RCU): operations are modelled one after another.
- ChannelTheorems and ChannelAnswers: three-message exchanges between the two endpoints. Of the requests the endpoints make only one with identifier 0x800000 could be answered that way (ThreeMessagesNeedMax); the invariant over every run of one layer covers them.
- Handshake: failure of fork, of semaphore creation, and of the MME's own initialisation.
- RuleAssembly.Assemble: requires a rule buffer longer than both source buffers together, which its callers provide (1024 words against 255 each).
- RuleAssembly: tokenising rule text and filling the two buffers; their shape (pointers lead to the only instruction of their kind) is a precondition.
- AddressSet: the network part that is printed and parsed before the brace.
- FlowHooks.Uplink: requires the UDP and GTP headers to lie in the packet.
- FlowHooks: identification and checksums are chosen by the network layer; headroom is always found; protocols other than IPv4 pass unchanged and are not modelled.
- TunnelDevice: routing, path MTU, IPv6, a failed header pull, and deleting contexts.
- lib/gtp/gtp_message.c and lib/nas/nas_decoder.c: generated tables and dispatch.
- lib/gtp/gtp_conv.c, lib/gtp/gtp_node.c, lib/gtp/gtp_path.c: copying and input/output.
- gtp_genl_dump_pdp in kmod/gtp.c: depends on kernel callback state.
- DSCP bitmaps in lib/ipfw/ipfw2.c: they shift a 32-bit word by 32 or more, so the code does not fix the result.
- Everything under lib/fd, lib/s1ap and src other than src/epc.c: wrappers over external libraries.
