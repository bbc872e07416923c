# Conduit failover, verified

A Dafny model of the leader failover of conduit's NAT gateway (`pkg/failover`): two nodes, of which
one, the primary, holds the ENI address and answers requests for its NAT state, while the other, the
secondary, copies that state and takes over when heartbeats stop.

The project has four parts.

- **The node.** `Heartbeat` is the monitor's timing, with its counter of late ticks proved equal to
  a deadline. `Leader` is the role state machine, as a class with the fields of the source and as a
  step function; `LeaderRuns` proves what every run of it keeps when a transition is one step;
  `Interleaving` splits the steps so that election checks, heartbeats and monitors can land between
  any two writes of a transition, proves what survives that, and shows that every atomic run is one
  of its runs; `ApartRuns` says which interleavings leave a secondary with one monitor,
  `ApartEvidence` proves evidence for promotions and their timing over these, and `DroppedRequest`
  shows how the others can leave a secondary with no monitor at all. `RoleChanges` has what election
  checks come to, and which stop channels a promotion closes.
- **Replication.** `Polyglot` abstracts the byte format to tokens. `Wire` defines encoding and
  decoding on values, including what a failed decode leaves behind; `Messages` has the generated
  encoders and decoders as they run, on a buffer, a cursor and receivers on the heap, each proved
  against `Wire`. `CodecLaws` holds the round trips, `StructLayout` what a decoder leaves in any
  receiver when tokens are all there, break off, or are replaced by a Nil or an error,
  `ReceiverReuse` what decoding into a used receiver changes, `Replication` the conversions at both
  ends and the whole path.
- **The call.** `Rpc` is the client's call table under every interleaving of callers, replies,
  cancellations and write failures, `AtMostOnce` shows that each reply is handed over at most once,
  and `ReplyHandlers` says when one of its handlers blocks. `Packets` has the 32-bit content length
  that cuts off what a receiver sees, with bytes counted by an arbitrary size per token; `CutLists`
  and `CutReplies` have what a decoder makes of a list and of a reply of which only the first tokens
  are seen; `SyncService` has the packet handlers and composes them with the call table and with
  replication; `CutTable` is an example of a reply that is cut.
- **The takeover.** `Ec2` is the store that a failover works on, one atomic effect per call, where
  any call may fail. `Parallel` and `Aws` model the goroutine batches with their error channels,
  `Addresses` the floating-address filter, `CallOrder` the interleavings of two batches that run
  side by side, `FailoverActions` the whole failover, and `Failback` what it comes to between two
  nodes. The store keeps the calls that were made, so "at every point" means after each prefix of
  them, and the look-ups with what they found, so that a run can be compared step by step with a
  script of what has to follow what. A store can be declared `reliable`: then every possible call
  succeeds.

A method of a class is proved against a function of the state before it; what the source promises is
then proved of that function, for every input or every run.

Where the code and the expectations one might have of it part ways, the model follows the code:

- The secondary does not stop a promotion that is already queued when a late heartbeat arrives
  (`LeaderRuns.LateBeatDoesNotCancel`).
- A secondary whose server cannot be created stays secondary with no monitor and no election checks
  (`LeaderRuns.StrandedForever`). With transitions as one step, and more generally while election
  checks and transitions keep apart, this is the only way to an unwatched secondary
  (`LeaderRuns.StrandedExactly`, `ApartRuns.AlwaysWatchedExactly`), and otherwise it is not
  (`DroppedRequest.AttendedExactly`): a monitor's request is dropped because a second request to
  become secondary is still queued, and that transition fails.
- A check that a transition overtakes can promote a secondary although no monitor has handled a
  single tick (`RoleChanges.PromotionWithoutTicks`).
- Election checks that overlap with transitions can leave a secondary with two monitors. Two
  conditions together rule that out, and neither does alone (`ApartRuns.OneMonitorExactly`): a check
  takes no step while a transition is under way, and no role is taken up while a check is under way.
- The client's reply handler ignores the decoder's error and hands over what was decoded so far. The
  content length of a packet is its size modulo 2^32, and for tables that fit their list headers the
  decoder fails exactly on replies of 2^32 bytes or more (`SyncService.DecodesExactly`). The round
  still ends as it should exactly when what is cut off means nothing, which is when it reads as zero
  or empty (`SyncService.OutcomeExactly`). When the request id is cut off, the caller gets a blank
  response without an error (`SyncService.BlankExactly`); when the cut is within the addresses, the
  secondary applies a state whose remaining addresses and other tables are empty
  (`SyncService.PartialStateApplied`).
- A list longer than its 32-bit header arrives cut to it, and nothing after it arrives
  (`CodecLaws.StateRoundTrip`); a pair that is nil, carries an error, or lacks its key or value
  crashes the secondary (`Replication.CrashExactlyOnHoles`).
- A call whose write fails leaves its entry in the in-flight map, until the id is taken again
  (`Rpc.EntriesExactly`).
- A reply that is looked up 65536 calls later reaches the wrong caller (`Rpc.LateReplyMisrouted`),
  and so can a reply in time when an id is taken again before its first call has returned
  (`Rpc.RetakenIdMisroutes`). Routing is right in every run exactly when neither happens
  (`Rpc.RoutingExactly`). A late reply can also leave a reply handler blocked for good on a channel
  that nobody receives from (`ReplyHandlers.NeverBlockExactly`).
- A failover that cannot list the interfaces, or cannot read the old primary's addresses, goes on
  without it and may report success (`FailoverActions.ExecuteFailoverActions`); it is then complete
  exactly when there was nothing to find (`FailoverActions.LeftBehindExactly`). Only the first other
  interface with floating addresses is drained (`FailoverActions.DrainedExactly`). A takeover that
  fails between its two calls leaves an address nobody can take over any more
  (`Aws.InterruptedTakeOverIsFinal`).

## Model

| member | source | states |
|---|---|---|
| Heartbeat.MonitorLoop | pkg/failover/leader.go:967-1008 | the monitor's loop over any series of ticks and heartbeats makes the request that `FirstRequest` says, or none |
| Heartbeat.TickCounts | pkg/failover/leader.go:976-994 | one tick keeps the counter between the bounds that tie it to the silence so far, and fires exactly past threshold times interval |
| Heartbeat.CounterIsDeadline | pkg/failover/leader.go:976-1004 | on ticks one interval apart, counting late ticks is the same as requesting at the first tick later than N intervals after the last accepted heartbeat |
| Heartbeat.RequestInWindow | pkg/failover/leader.go:976-1004 | every request in every run, whatever heartbeats came, is made in (N, N+1] intervals after the heartbeat it counted from |
| Heartbeat.FailoverWindow | pkg/failover/leader.go:455-459 | when no heartbeat follows a start at L the monitor requests promotion if and only if its ticks go on past L+N·I, and then at a time in (L+N·I, L+(N+1)·I], for any tick phase |
| Heartbeat.NoFalseFailover | pkg/failover/leader.go:976-988 | while accepted heartbeats are never more than N·I apart, counting the start, no request is made, however long the run |
| Leader.LeaderConfig.Validate | pkg/failover/leader.go:92-123 | accepts exactly the configurations the source accepts, with every default, and leaves interval and threshold positive |
| Leader.LeaderFailover.LeaderElectionTick | pkg/failover/leader.go:263-318 | the whole new state of an election tick: nothing as secondary, after a failed check or when a role is queued; otherwise Primary is queued exactly for the owner, or the node forced to it, that is not primary yet, and Secondary for any other |
| Leader.LeaderFailover.Cleanup | pkg/failover/leader.go:617-647 | server and client are gone and nothing else has changed |
| Leader.LeaderFailover.BecomePrimary | pkg/failover/leader.go:390-419 | nothing changed when the server cannot be created; otherwise the server is there, the stop channel is closed and forgotten, the counters are zero and nothing else has changed; a second close would show as a panic |
| Leader.LeaderFailover.BecomeSecondary | pkg/failover/leader.go:429-470 | the whole new state but for the sync goroutine: client, fresh counters, a new stop channel and one more monitor on it |
| Leader.LeaderFailover.TransitionToRole | pkg/failover/leader.go:353-376 | cleanup first, then the role's own work; Unknown is refused |
| Leader.LeaderFailover.RoleManagementStep | pkg/failover/leader.go:331-347 | receive, transition and role write; the role changes only when the transition succeeded |
| Leader.LeaderFailover.HeartbeatMonitorTick | pkg/failover/leader.go:975-1007 | one tick of one monitor on the shared state: it goes on selecting, or returns and offers Primary |
| Leader.LeaderFailover.HeartbeatRpc | pkg/failover/leader.go:814-838 | a heartbeat is accepted exactly on a secondary, and resets time and counter |
| LeaderRuns.AlwaysWatchedExactly | pkg/failover/leader.go:331-347 | in every state of a run the secondary has either one live monitor and an empty role channel or no monitor and Primary queued, if and only if no promotion of a secondary failed to create its server |
| LeaderRuns.MonitorsAndQueue | pkg/failover/leader.go:264-312 | in every run, failed promotions included: never more than one monitor, a queued role is known and differs from the current one, the counter is below the threshold, nothing is closed twice |
| LeaderRuns.RequestNeverDropped | pkg/failover/leader.go:997-1004 | in every run, when a monitor asks for promotion the channel is empty, so the request is queued and not dropped |
| LeaderRuns.StrandedExactly | pkg/failover/leader.go:337-343 | a secondary has neither monitor nor queued role exactly when some promotion before failed to create its server |
| LeaderRuns.StrandedForever | pkg/failover/leader.go:263-267 | a secondary without monitor and without queued role stays so whatever happens |
| LeaderRuns.CounterIsEvidence | pkg/failover/leader.go:976-1004 | while a monitor is live its counter is the number of late ticks since the last accepted heartbeat or secondary start |
| LeaderRuns.PromotionNeedsEvidence | pkg/failover/leader.go:975-1007 | every step from Secondary to Primary goes back to a request made on exactly threshold-many late ticks, with the node secondary and unwatched ever since |
| LeaderRuns.LateBeatDoesNotCancel | pkg/failover/leader.go:827-831 | a heartbeat accepted after the request resets the count but does not cancel the promotion |
| LeaderRuns.NodeFollowsMonitor | pkg/failover/leader.go:967-1008 | among any events, a watching node requests its promotion at exactly the tick at which the timing model does on the ticks and heartbeats among them, and otherwise goes on watching |
| LeaderRuns.RequestWaits | pkg/failover/leader.go:331-347 | a request made stays queued through every other event and makes the node primary at the next successful turn of the role loop |
| LeaderRuns.WatchStarts | pkg/failover/leader.go:455-465 | after any run, becoming secondary starts a single live watch at that time, and an accepted heartbeat restarts it |
| LeaderRuns.SecondaryFailsOverInTime | pkg/failover/leader.go:455-465 | after any run and among any further events in which no heartbeat is accepted, a watching secondary requests its promotion at a tick inside the window once the ticks go on past the deadline, as N+2 ticks always do, and goes on watching before |
| LeaderRuns.SecondaryStaysWhileHeard | pkg/failover/leader.go:976-988 | after any run and among any further events, a watching secondary with heartbeats at most N·I apart goes on watching |
| Interleaving.RoleAndResources | pkg/failover/leader.go:353-411 | over every interleaving: server and client never both set; with no failed transition and an idle role loop Primary holds iff the server is set and Secondary iff the client is; no Unknown in the channel; no double close; counter below the threshold |
| Interleaving.RoleNeverUnknownAgain | pkg/failover/leader.go:337-343 | over every interleaving, a node that has a role never goes back to Unknown |
| Interleaving.StepExpands | pkg/failover/leader.go:331-347 | every atomic step is a sequence of interleaved steps with the same outcome |
| Interleaving.AtomicRunsInterleave | pkg/failover/leader.go:324-350 | every run of the atomic machine is a run of the interleaved one |
| ApartRuns.OneMonitor | pkg/failover/leader.go:300-343 | over every interleaving in which election checks and transitions keep apart, heartbeats, monitors and failed creations free: at most one monitor, and an empty role channel while it is there |
| ApartRuns.AlwaysWatchedExactly | pkg/failover/leader.go:331-347 | over the same interleavings, an idle secondary is watched in every state of a run if and only if no promotion failed to create its server |
| ApartRuns.OneMonitorExactly | pkg/failover/leader.go:300-343 | for every configuration: of the two conditions that keep checks and transitions apart, both together and neither alone rule out a second monitor, unless the node is forced to be primary |
| ApartEvidence.CounterIsEvidence | pkg/failover/leader.go:976-1004 | over the same interleavings, a monitor's counter is the number of late ticks since the counters were last written anew |
| ApartEvidence.PromotionNeedsEvidence | pkg/failover/leader.go:975-1007 | over the same interleavings, every step that writes the role of a secondary to Primary goes back to a tick on which a monitor fired after exactly threshold-many late ticks, with the promotion decided ever since |
| ApartEvidence.NodeFollowsMonitor | pkg/failover/leader.go:967-1008 | whatever is interleaved, the monitor of a watching node fires at exactly the tick at which the timing model requests promotion on the ticks handled and heartbeats written |
| ApartEvidence.FiresInTime | pkg/failover/leader.go:455-465 | among any interleaved steps in which no heartbeat is written, a watching secondary's monitor fires inside the window once the ticks it handles reach past the deadline, and goes on watching before |
| ApartEvidence.WatchesWhileHeard | pkg/failover/leader.go:976-988 | among any interleaved steps with heartbeats written at most N·I apart, it goes on watching |
| ApartRuns.OwnerNeverSecondary | pkg/failover/leader.go:281-297 | over every interleaving in which no check finds the address elsewhere, or with Primary forced: the node is never a secondary, on its way there, or asked to be |
| RoleChanges.OwnershipDecides | pkg/failover/leader.go:281-313 | a check and the transition it asks for make a node that is not secondary primary if AWS names it the owner, and secondary otherwise |
| RoleChanges.ConfigurationDecides | pkg/failover/leader.go:270-279 | with the check disabled the configured role is taken, whatever AWS would say |
| RoleChanges.CheckChangesNothing | pkg/failover/leader.go:263-318 | a check changes nothing on a secondary, when it fails, when a role is queued, and when the owner is primary already |
| RoleChanges.WhoQueues | pkg/failover/leader.go:300-312 | over every interleaving a role is queued only into an empty channel, by a check that sends it or by a monitor that asks for Primary |
| RoleChanges.OwnerNeverDemoted | pkg/failover/leader.go:281-297 | in every run whose checks never find the address elsewhere, the node is never made secondary nor asked to be |
| RoleChanges.HeartbeatAcceptedExactly | pkg/failover/leader.go:814-831 | at any point of a transition a heartbeat restarts the watch exactly if the role was Secondary when it was checked |
| RoleChanges.PromotionClosesStop | pkg/failover/leader.go:408-411 | a promotion closes the stop channel and forgets it |
| RoleChanges.ClosingStopsMonitor | pkg/failover/leader.go:973-974 | once the role loop has closed the channel, a monitor selecting on it is removed by its stop step, and no other |
| RoleChanges.OnlyClosingStops | pkg/failover/leader.go:973-974 | a monitor returns neither on an open channel nor on none |
| RoleChanges.BusyMonitorMissesClose | pkg/failover/leader.go:967-975 | a monitor in the middle of a tick while its channel is closed and cleared selects on no channel, and no stop reaches it |
| RoleChanges.StopsAreClosed | pkg/failover/leader.go:408-411 | while checks and transitions keep apart: an idle node that is not secondary has closed every stop channel it made, a secondary all but its own |
| RoleChanges.PromotionWithoutTicks | pkg/failover/leader.go:263-313 | with either one of the two conditions kept alone: a run without a single tick after which a secondary is promoted, by a check that began before it became one |
| DroppedRequest.UnattendedForever | pkg/failover/leader.go:263-267 | over every interleaving, an idle secondary without monitor, queued role or check under way stays so |
| DroppedRequest.UnattendedWithoutFailedPromotion | pkg/failover/leader.go:997-1004 | for every configuration that does not force the node to be primary, and with either one of the two conditions kept: a run without a failed promotion that ends there, because the monitor's request was dropped |
| DroppedRequest.AttendedExactly | pkg/failover/leader.go:300-343 | for every configuration and each choice of the two conditions: a failed promotion is the only way to an unattended secondary if and only if both are kept, unless the node is forced to be primary |
| DroppedRequest.WatchedExactly | pkg/failover/leader.go:300-343 | for the same choices: an idle secondary is watched by exactly one monitor or its request precisely in the runs without a failed promotion, if and only if both are kept or the node is forced to be primary |
| Messages.EncodeKey | pkg/failover/failover.frpc.go:98-109 | appends exactly the tokens of the key: Nil, its error, or its fields |
| Messages.EncodeValue | pkg/failover/failover.frpc.go:168-179 | appends exactly the tokens of the value |
| Messages.EncodePair | pkg/failover/failover.frpc.go:233-246 | appends exactly the tokens of the pair with its key and value |
| Messages.EncodeBitmap | pkg/failover/failover.frpc.go:304-315 | appends exactly the tokens of the bitmap |
| Messages.EncodeState | pkg/failover/failover.frpc.go:377-412 | appends exactly the tokens of the state, each list behind a header with its length modulo 2^32 |
| Messages.EncodeRequest | pkg/failover/failover.frpc.go:39-50 | appends exactly the tokens of the request |
| Messages.EncodeResponse | pkg/failover/failover.frpc.go:550-562 | appends exactly the tokens of the response with its state |
| Messages.FailoverNATKey.Decode | pkg/failover/failover.frpc.go:118-149 | the receiver, cursor and error that a decode leaves, also where it fails half way |
| Messages.FailoverNATValue.Decode | pkg/failover/failover.frpc.go:188-215 | the same for a value |
| Messages.FailoverNATKeyValuePair.Decode | pkg/failover/failover.frpc.go:255-284 | the same for a pair; a Nil child keeps the child the receiver had |
| Messages.FailoverNATBitmapPair.Decode | pkg/failover/failover.frpc.go:324-355 | the same for a bitmap |
| Messages.DecodePairs | pkg/failover/failover.frpc.go:449-464 | a list of matching length is decoded element by element in place, otherwise into a new list; the contents are those of the value-level decode and no struct is shared |
| Messages.DecodeBitmaps | pkg/failover/failover.frpc.go:513-528 | the same for the list of bitmaps |
| Messages.FailoverNATState.Decode | pkg/failover/failover.frpc.go:421-530 | the six lists one after the other, each leaving the others alone |
| Messages.FailoverSyncStateRequest.Decode | pkg/failover/failover.frpc.go:59-78 | receiver, cursor and error after decoding a request |
| Messages.FailoverSyncStateResponse.Decode | pkg/failover/failover.frpc.go:571-605 | receiver, cursor and error after decoding a response with its state |
| CodecLaws.KeyRoundTrip | pkg/failover/failover.frpc.go:98-149 | in front of any tokens, an encoded key is read back, keeping only the error if it has one, and exactly those tokens are left |
| CodecLaws.ValueRoundTrip | pkg/failover/failover.frpc.go:168-215 | the same for a value |
| CodecLaws.PairRoundTrip | pkg/failover/failover.frpc.go:233-284 | the same for a pair with key and value; a nil list element becomes an empty struct |
| CodecLaws.BitmapRoundTrip | pkg/failover/failover.frpc.go:304-355 | the same for a bitmap |
| CodecLaws.StateRoundTrip | pkg/failover/failover.frpc.go:377-530 | a decoder always ends with what arrives of the state, cut at the first list that does not fit its header; the whole state comes back with exactly the further tokens left if and only if every list fits |
| CodecLaws.ResponseRoundTrip | pkg/failover/failover.frpc.go:550-605 | the same for a whole response, nil and error included |
| CodecLaws.RequestRoundTrip | pkg/failover/failover.frpc.go:39-78 | every request is read back in normal form, nil and error included, with the further tokens left |
| CodecLaws.DecodedStateIsNormal | pkg/failover/failover.frpc.go:421-530 | whatever tokens a state was successfully decoded from, it is in normal form and fits its headers |
| CodecLaws.DecodingCanonicalises | pkg/failover/failover.frpc.go:571-605 | on any tokens, if decoding succeeds with a response then decoding its encoding gives exactly that response |
| StructLayout.KeyOverwrites | pkg/failover/failover.frpc.go:118-149 | a key that is all there replaces every field of any receiver |
| StructLayout.ValueOverwrites | pkg/failover/failover.frpc.go:188-215 | the same for a value |
| StructLayout.BitmapOverwrites | pkg/failover/failover.frpc.go:324-355 | the same for a bitmap |
| StructLayout.RequestOverwrites | pkg/failover/failover.frpc.go:59-78 | the same for a request |
| StructLayout.KeyBreaksOff | pkg/failover/failover.frpc.go:118-149 | into any receiver: a key that breaks off replaces the fields that were there in their order, zeroes the one that was not, keeps the others, and stops there |
| StructLayout.ValueBreaksOff | pkg/failover/failover.frpc.go:188-215 | the same for a value |
| StructLayout.BitmapBreaksOff | pkg/failover/failover.frpc.go:324-355 | the same for a bitmap |
| StructLayout.ResponseBreaksOff | pkg/failover/failover.frpc.go:571-605 | the same for the scalar fields of a response |
| StructLayout.ChildrenKeptOrRenewed | pkg/failover/failover.frpc.go:255-284 | a child that is there is decoded anew, a Nil one leaves the receiver's child alone |
| StructLayout.StateKept | pkg/failover/failover.frpc.go:571-605 | a response without a state keeps the state of the receiver |
| StructLayout.NilLeavesAlone | pkg/failover/failover.frpc.go:118-605 | a Nil in the place of any struct leaves the receiver as it is |
| StructLayout.ErrorSetsError | pkg/failover/failover.frpc.go:118-605 | an error in the place of any struct sets the error and nothing else |
| StructLayout.ListKept | pkg/failover/failover.frpc.go:433-442 | a list whose header is missing or of another kind keeps what the receiver had |
| StructLayout.FailureEndsList | pkg/failover/failover.frpc.go:449-464 | an element that fails ends the list, and the elements behind it are those of the receiver |
| ReceiverReuse.ReuseInvisible | pkg/failover/failover.frpc.go:440-528 | a used receiver succeeds and stops exactly where a new one does, and on a stream without Nil structs and errors holds the same contents afterwards |
| ReceiverReuse.ReuseInvisibleExactly | pkg/failover/failover.frpc.go:440-528 | reusing a state is invisible on every stream if and only if its lists fit their 32-bit headers |
| ReceiverReuse.StaleElementSurvivesNil | pkg/failover/failover.frpc.go:456-464 | the condition on Nil matters: a Nil element keeps the contents of the element it is decoded into |
| Replication.SyncState | pkg/failover/leader.go:650-775 | each of the four ways to answer carries the caller's request id; of a loaded state every entry of every table is said field by field in the list of the same name |
| Replication.SyncStateResult | pkg/failover/leader.go:656-694 | an answer has a state exactly when it reports success, and never an error |
| Replication.PortUint32ToUint16 | pkg/failover/leader.go:49-54 | ports that fit are kept, larger ones become 65535 |
| Replication.SyncFromPrimary | pkg/failover/leader.go:516-614 | refuses a failed or empty response with its own reason, crashes exactly on a nil, and otherwise has every field of every element, with ports clamped |
| Replication.ConversionsInvert | pkg/failover/leader.go:685-774 | converting to the wire and back gives the state with empty destinations absent |
| Replication.ReplicationPreserves | pkg/failover/leader.go:524-606 | conversion, encoding, decoding and conversion back yield the same addresses, keys, values, ports, lengths and order, except that an empty destination becomes absent |
| Replication.ReplicationExact | pkg/failover/leader.go:524-606 | a state arrives unchanged if and only if its lists fit their headers and no destination is present but empty |
| Replication.CrashExactlyOnHoles | pkg/failover/leader.go:516-594 | for any response: the secondary crashes if and only if it reports success and some pair that arrives is nil, an error, or without key or value |
| SyncService.HandleRequest | pkg/failover/failover.frpc.go:890-909 | the server decodes what the content length covers, answers in the incoming packet with its id and the new length modulo 2^32, and not at all when the request does not decode |
| SyncService.HandleReply | pkg/failover/failover.frpc.go:1028-1039 | the caller gets whatever the decoder wrote of what the content length covers, whether or not it succeeded |
| SyncService.ReplyMatchesExactly | pkg/failover/failover.frpc.go:890-909 | a request is answered if and only if it fits its content length; the answer has its packet id and no error, and its request id if and only if the truncated length of the reply covers it |
| SyncService.FittingReplyCovers | pkg/failover/failover.frpc.go:906 | a reply of less than 2^32 bytes covers its request id |
| CutLists.LongListCutUnnoticed | pkg/failover/failover.frpc.go:377-412 | of 2^32 bitmaps or more, cut right behind as many as the header counts, the list decodes without an error |
| CutReplies.ReplySeen | pkg/failover/failover.frpc.go:571-605 | for every reply and every number of its tokens that are seen: the round ends as it should if and only if what is not seen is empty or zero, and, for lists that fit their headers, the decoder succeeds if and only if all are seen |
| SyncService.DecodesExactly | pkg/failover/failover.frpc.go:1030-1034 | the decoder's error, which the handler drops, is set if and only if the reply does not fit its content length, for lists that fit their headers |
| SyncService.OutcomeExactly | pkg/failover/failover.frpc.go:1030-1034 | for every size of tokens and every local state: the round ends as it should if and only if what the truncated length leaves out means nothing |
| SyncService.BlankExactly | pkg/failover/failover.frpc.go:1030-1034 | for every size of tokens and every local state: a caller with a request id gets a blank response if and only if the truncated length does not cover that id |
| SyncService.PartialStateApplied | pkg/failover/failover.frpc.go:1030-1034 | for every size of tokens and every state whose reply is cut off within its addresses: the addresses seen come back, the others are empty, and so are the other five tables |
| CutTable.OrdinaryTableCut | pkg/failover/failover.frpc.go:906 | of 429 496 731 addresses of eight characters, laid out with a byte for the kind of each token, the secondary applies the first four and as many empty ones as are missing |
| SyncService.SyncRound | pkg/failover/leader.go:499-614 | one round through both handlers: there is an answer if and only if the request fits; the secondary then has the primary's state, or the primary's reason for refusing, if and only if what is cut off the reply means nothing, so always when the reply fits |
| SyncService.SyncCallsAgree | pkg/failover/failover.frpc.go:1102-1136 | with this server, over every interleaving in the windows: an answered call has the whole answer to its own request, made of the state the server found for it and without an error; its id is the call's own iff the truncated length covers it, and the round ends as it should for that state iff what is cut off means nothing, so always when the reply fits |
| Rpc.SubFailoverServiceClient.TakeId | pkg/failover/failover.frpc.go:1107-1111 | the id after the last one, with wrap-around; in the system's step that starts a call, the table changes as here and the new call has this id |
| Rpc.SubFailoverServiceClient.Enter | pkg/failover/failover.frpc.go:1115-1117 | exactly the channel is entered under the call's id, as in the step which registers the call |
| Rpc.SubFailoverServiceClient.Remove | pkg/failover/failover.frpc.go:1131-1133 | exactly the entry under the call's id goes, as in the step in which the call returns |
| Rpc.SubFailoverServiceClient.Lookup | pkg/failover/failover.frpc.go:1029-1036 | the channel under the id or nothing, and the step in which the reply arrives goes on with exactly that |
| Rpc.RepliesReachTheirCallers | pkg/failover/failover.frpc.go:1028-1063 | over every interleaving in windows of at most 65536 calls, an answered call has the reply to its own request, with the response the server made |
| Rpc.RequestIdsAgree | pkg/failover/failover.frpc.go:1102-1136 | over every interleaving in such windows, with a server that keeps request ids, the response of an answered call has the caller's request id and no error |
| Rpc.EntriesExactly | pkg/failover/failover.frpc.go:1115-1135 | over every interleaving in such windows: the id of a recent call leads to its channel from the time it is entered until the call returns, and not afterwards, except that a failed write leaves the entry behind |
| Rpc.LateReplyDropped | pkg/failover/failover.frpc.go:1029-1037 | over every interleaving in such windows, a reply that arrives after its call has returned is dropped and changes nothing else |
| AtMostOnce.ReplyInOnePlace | pkg/failover/failover.frpc.go:1028-1063 | over every interleaving, without any window: a reply is on its way, or in one call's channel, or received by one call, and never in two of these places |
| AtMostOnce.ExchangeMovesOn | pkg/failover/failover.frpc.go:890-1037 | a request is handled once, its reply looked up once and delivered once; no step takes an exchange back |
| ReplyHandlers.HandlersNeverBlock | pkg/failover/failover.frpc.go:1030-1034 | over every interleaving in which replies are looked up within 65536 calls, whatever the window for ids, a reply handler never finds the one-slot channel full |
| ReplyHandlers.StuckForever | pkg/failover/failover.frpc.go:1030-1034 | a handler that holds a full channel whose call no longer receives stays blocked whatever happens next |
| ReplyHandlers.HandlerStuck | pkg/failover/failover.frpc.go:1030-1034 | for every wider window for lookups: a run inside it that ends with such a handler |
| ReplyHandlers.NeverBlockExactly | pkg/failover/failover.frpc.go:1028-1039 | for every two window widths: no handler ever blocks, and none blocks for good, if and only if the one for lookups is at most 65536 |
| Rpc.LateReplyMisrouted | pkg/failover/failover.frpc.go:1102-1136 | for every wider window for lookups: a run inside it after which a reply looked up 65536 calls late is another caller's answer |
| Rpc.RetakenIdMisroutes | pkg/failover/failover.frpc.go:1107-1117 | for every wider window for ids: a run inside it after which an id is taken again before its first call has returned, and a reply in time is the wrong caller's answer |
| Rpc.RoutingExactly | pkg/failover/failover.frpc.go:1028-1117 | for every two window widths: each answer goes to the call it answers in every run if and only if both are at most 65536, or no reply is ever looked up |
| Ec2.CallsKeepWellFormed | pkg/failover/aws.go:276-305 | every call keeps each address on at most one interface |
| Aws.MovesBetween | pkg/failover/aws.go:267-310 | any series of calls that take listed addresses from one interface and give them to another has moved nothing else, and no address is on two interfaces |
| Aws.AWSClient.UnassignAll | pkg/failover/aws.go:267-289 | over every schedule of the goroutines: the world without the addresses whose call succeeded, one error per failure, and no send that would block |
| Aws.AWSClient.AssignAll | pkg/failover/aws.go:291-310 | the same for the assigning goroutines, each judged by whether its call was possible |
| Aws.ErrorsAddUp | pkg/failover/aws.go:313-318 | failed calls of both phases number twice the addresses left on the source plus those that are nowhere |
| Aws.BatchOutcome | pkg/failover/aws.go:267-310 | an address stays on the source iff its unassign failed, reaches the destination iff its assign succeeded, and is nowhere iff only the assign failed |
| Aws.AWSClient.ReassignFloatingIPs | pkg/failover/aws.go:262-325 | one call takes each address, and when all are done one gives it; one error per failed call; at every point only listed addresses have moved and none is on two interfaces; in a batch the errors are 2·(left on source)+(nowhere), and without errors all are on the destination |
| Aws.AWSClient.GetENIByIP | pkg/failover/aws.go:208-228 | one look-up by address; the first interface it finds, which has the address, or nothing when it fails or finds none |
| Aws.AWSClient.GetENIFloatingIPs | pkg/failover/aws.go:176-205 | one look-up by id; exactly the secondary addresses of the interface, each once, unless it fails or does not exist |
| Aws.AWSClient.UpdateRouteTables | pkg/failover/aws.go:328-447 | one look-up, then exactly one call for each table found, one error per failed call; a failed look-up or no table is one error without a call; only routes to the block change, and only to the new interface |
| Aws.AWSClient.TakeOverENI | pkg/failover/aws.go:528-610 | look-ups and calls come as in the script: each step only after the one before has succeeded, and success exactly when the address is ours already or is seen with us after both calls; at every point only the ENI address has moved, to at most one interface |
| Aws.InterruptedTakeOverIsFinal | pkg/failover/aws.go:556-582 | a takeover stopped between its two calls leaves an address that no takeover of any instance can start from |
| Addresses.FilterFloatingIPs | pkg/failover/aws.go:231-259 | the addresses whose first three parts match and whose last number is 20 or more, in order; all of them when the base is no dotted quad |
| Addresses.FloatingExactly | pkg/failover/aws.go:246-253 | on dotted decimal addresses the filter accepts exactly the same first three numbers and a last one of 20 or more |
| CallOrder.SidesDoNotMeet | pkg/failover/leader.go:898-937 | in every interleaving of address calls and route calls each side sees the world as if it ran alone |
| CallOrder.InterleavingLeads | pkg/failover/leader.go:898-937 | every interleaving of the two sides of a history that can happen can happen too, and leads to the same world |
| FailoverActions.FindOldPrimary | pkg/failover/leader.go:859-893 | one listing, then one look-up for each other interface in its order, up to the first that could be read and has floating addresses, and exactly those addresses; a failed look-up only passes over its own interface |
| FailoverActions.SearchFindsFirst | pkg/failover/leader.go:866-893 | what such a search finds is the first listed interface with floating addresses, but for those whose own look-up failed |
| FailoverActions.RunBoth | pkg/failover/leader.go:896-946 | success exactly when both sides, each as in its script, have no error; however their calls are interleaved they can happen, end in the same world, and at every point touch nothing but addresses that may move and routes to the block |
| FailoverActions.ExecuteFailoverActions | pkg/failover/leader.go:841-955 | in any world, with any failures and any interleaving: the script of takeover, look-up, search and both sides, in which a failed takeover or look-up ends everything; only addresses that may move and routes to the block change at any point; a success has brought the ENI address to us, drained the interface found and taken all routes |
| FailoverActions.DrainedExactly | pkg/failover/leader.go:866-893 | a successful failover has left no floating address elsewhere if and only if the drained interface was the only other one to have any |
| FailoverActions.TwoNodesTakeOver | pkg/failover/aws.go:528-610 | between two nodes nothing but a failing call stands in the way of a failover |
| FailoverActions.TwoNodesOutcome | pkg/failover/leader.go:841-955 | between two nodes a success is the complete failover if the old primary was found or had nothing to find, and all but the floating addresses otherwise |
| FailoverActions.LeftBehindExactly | pkg/failover/leader.go:866-893 | a successful failover that did not find the old primary is complete if and only if the other interface had no floating address but the ENI address |
| Failback.FailoverKeepsAll | pkg/failover/leader.go:841-955 | a complete failover loses and doubles no address and keeps those that do not have to move, primary addresses of any kind included, where they were |
| Failback.FailoverMovesAll | pkg/failover/leader.go:841-955 | a complete failover leaves no address that has to move on the other interface, and all of them arrive |
| Failback.FailoverTakesRoutes | pkg/failover/aws.go:328-447 | every route to the block leads to the new primary and every other route is as it was |
| Failback.RerunChangesNothing | pkg/failover/leader.go:841-955 | a second failover to the same node can run and changes nothing |
| Failback.CanFailBack | pkg/failover/aws.go:528-610 | the other node can fail back if and only if it has one interface and the ENI address is not our primary address |
| Failback.FailbackRestores | pkg/failover/leader.go:841-955 | failing over and back restores the original world if and only if ours had no address that moves and the other had all the routes |
| Failback.OnlyFirstAndLastMatter | pkg/failover/leader.go:841-955 | after any number of failovers in turn the world depends only on who was first and who is last |
| Failback.FailOverAndBack | pkg/failover/leader.go:841-955 | both nodes run their failover actions on one store: both succeed and the store is as before |

## Left out

- The polyglot byte layout, the frisbee transport, TLS and packet pooling: their code is not part of this model; tokens and 16-bit packet ids stand for them.
- HealthCheck and the Heartbeat call's messages and client tables: the same generated shape as the flat messages and the call table that are modelled.
- A key, a value or a state below another message is held by value: the decoder always allocates it on the spot, so only list elements are references.
- Messages.DecodePairs: requires that no element occurs twice in the list that is reused.
- Messages.DecodeBitmaps: requires that no element occurs twice in the list that is reused.
- Messages.FailoverNATState.Decode: requires that no list element occurs twice in the receiver, which holds of new receivers; with shared elements the later decode overwrites the earlier.
- ReceiverReuse.ReuseInvisible: requires the lists of the used receiver to be shorter than 2^32; ReuseInvisibleExactly shows that this is needed.
- The difference between a nil and an empty slice, which encodes alike.
- Shutdown: `Start` and `Stop` each close the stop channel; runs go up to the first shutdown.
- Progress after a failed server creation on a secondary: StrandedForever states that there is none.
- Which node owns the ENI address is an answer from outside (`Probe`); parsing of the ENI address in `Validate` is a parameter.
- Transitions on the node and the failover actions they trigger are separate: the source logs a failure of the latter and goes on, so the role does not depend on them.
- At most one primary: not a property of this code, because a node becomes primary even when its failover actions fail.
- Elastic IP moves, eventual consistency of EC2, other nodes acting at the same time, `WaitForENIOwnership` and instance metadata.
- FailoverActions.RunBoth: makes the calls of one goroutine after those of the other; what it promises is stated for every interleaving of the calls made, by CallOrder.InterleavingLeads.
- Rpc.RepliesReachTheirCallers: a request whose write failed is taken not to have been sent.
- Addresses.FloatingExactly: the last number is below 2^63, as it must be to scan; blanks before a number are spaces and tabs.
- Replication.SyncFromPrimary: ends with the converted state; posting it to the local API is left out.
- Leader.LeaderFailover.BecomeSecondary: leaves out the sync goroutine, which reads the role and the client and writes neither.
- SyncService.DecodesExactly: requires the lists of a loaded state to fit their headers; CutLists.LongListCutUnnoticed shows that this is needed.
- Rpc.RequestIdsAgree: takes as given that replies keep request ids; SyncService.SyncCallsAgree shows it of this server.
- A token cut off by the content length is taken to be unreadable, like one that is missing.
- The sync loop's ticker, the local API client, logging, and the NAT allocator, firewall and DDoS code.
