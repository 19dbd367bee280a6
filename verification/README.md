# Krikos, verified

A Dafny model of the parts of Krikos where correctness is hardest to see from the code, with proofs.
`dafny verify dfyconfig.toml` checks everything.

The modules follow the program:

- **The local-first application model** (`Application*.dfy`). Nodes create documents, write
  last-writer-wins entries, grant capabilities and exchange messages over a queue with drops,
  duplicates, reordering and partitions. `Application` is the model; `ApplicationBounds`,
  `ApplicationHistory` and `ApplicationRuns` build the inductive invariant over nodes, queue and
  trace and state what it means for every run. `ApplicationDelivery` says message by message what a
  delivery does and when it succeeds, `ApplicationMessages` follows messages through whole runs,
  `ApplicationStatus` reads every state off its history, and `ApplicationOutcomes` says exactly
  which operations succeed and that errors are true. `ApplicationConvergence` proves that delivery
  does not depend on the order or number of messages, `ApplicationGossip` says what any meetings of
  holders spread and that a chain of them converges, and `ApplicationPartition` gives a run that a
  partition keeps apart. `ApplicationSimulator` is the imperative simulator, its loops and its
  object, proved against the model. The hash and the identity derivation are arbitrary functions.
- **Small concurrent protocols**, as state machines over their atomic steps. The resolver's
  swap-and-notify (`ResolverReset`), the dual-family address stream (`HostStream`), identifiers and
  trace numbers (`RuntimeIds`), task groups (`TaskGroups`, `TaskGroupSafety`, `TaskGroupBounds`,
  `TaskGroupJoin`, `TaskGroupAnswers`, `TaskGroupObject`), and monotonic timestamps (`Timestamps`).
  A run is any sequence of steps, so every theorem is about every interleaving.
- **Codecs.** Positional notation (`Numerals`), signed packets (`SignedPackets`), custom addresses
  (`CustomAddrs`, `CustomAddrText`), TXT attributes and endpoint information (`TxtAttrs`,
  `EndpointInfo`). Keys, signatures, DNS packets, URLs and socket addresses are handled by functions
  passed in; where a law of theirs is needed it is a named premise (`EndpointInfo.Lawful`, shown to
  be satisfiable by `HexCodecIsLawful`).
- **Bounded or fast things against a simple reference.** The zone cache (`ZoneStore`,
  `ZoneStoreRuns`), connection admission (`Admission`, `AdmissionLeases`) and seed campaigns
  (`Campaign`).

Where code and comments differ, the model follows the code:

- `resolve_host_all` is documented to yield an error only if both lookups fail; it also yields
  `NoResponse` when neither family has an address and at most one lookup failed.
- The packet store reports an update also for a packet equal to the one it has.
- Reading a TXT string keeps only the text between its first and second equals sign, so values that
  hold one come back short. `EndpointInfo.RoundTrip` gives the exact condition.
- The token bucket moves its refill time back when the clock does, so time is then earned twice.
  `Admission.WindowBound` is the bound for all clocks, and `Admission.RateBoundIff` and
  `Admission.EveryWindowIff` say that the documented one holds exactly for clocks that never go
  back.
- `Synchronize` does not ask for a connection, so across a partition a successful delivery leaves
  both messages queued. `ApplicationConvergence.SynchronizeConvergesIff` gives the exact condition.
  `ApplicationPartition.PartitionKeepsApart` is a run of that kind.
- A query that fetched a packet before an insert may put it into the zone cache after it, and the
  cache then serves the replaced packet. `ZoneStoreRuns.LatePutServesOldRecords` is that run, and
  `ZoneStoreRuns.CacheIsTransparent` says exactly when the cache serves the store's packet.
- The text of an IPv6 socket address omits its flow information, so such an address comes back as
  another one. `EndpointInfo.HiddenPartsAreLost` says so, and the round trip's condition excludes
  it.
- A resolver attempt polls its wake-up before its timer, and a reset may fall between the two polls,
  so a timeout can be reported against a resolver that has been replaced.
  `ResolverReset.StaleTimeoutHappens` is that run, and `ResolverReset.TimeoutsAreCurrent` says
  exactly when a timeout is current.

## Model

| member | source | states |
|---|---|---|
| ApplicationMerge.MergeEntriesIsNewest | krikos-sim/src/application.rs:776-788 | merging one message's entries, in key order with a per-document limit, succeeds exactly if the union of keys fits and then is the pointwise newest of both sides |
| ApplicationMerge.LastWriterWins | krikos-sim/src/application.rs:776-788 | of two versions of an entry the later revision is kept and, of one revision, that of the lexicographically greater author |
| ApplicationMerge.MergeBlobsIsUnion | krikos-sim/src/application.rs:789-802 | merging correctly hashed blobs succeeds exactly if the union fits and then adds the missing ones |
| ApplicationMerge.ReceivedClosed | krikos-sim/src/application.rs:748-803 | receiving a message with honest blobs succeeds exactly if the destination can store it, and is then one closed-form landing on the destination node, all else unchanged |
| ApplicationMerge.ReceivedErrors | krikos-sim/src/application.rs:748-803 | why receiving a message failed: its destination, its document, its entries or its blobs, whichever the error names |
| ApplicationBounds.AppliedKeeps | krikos-sim/src/application.rs:484-698 | every operation keeps every resource bound, every node identity, and every stored or in-flight blob under its own hash |
| ApplicationBounds.NoInvariantError | krikos-sim/src/application.rs:789-802 | no operation on a well-formed state reports a blob whose bytes do not match its hash |
| ApplicationHistory.EntriesConserved | krikos-sim/src/application.rs:549-581 | an entry found anywhere after an operation was there before or is the one this very write made |
| ApplicationHistory.CreatedObserved | krikos-sim/src/application.rs:522-537 | creating a document adds one empty replica, held with Write, where there was none, and nothing else |
| ApplicationHistory.WrittenObserved | krikos-sim/src/application.rs:549-581 | a write needs Write, puts its blob under its key with its author and the next revision, and changes nothing else |
| ApplicationHistory.ReplicasGrow | krikos-sim/src/application.rs:484-698 | no operation loses a node, a document or an entry, makes an entry older, or lowers a capability |
| ApplicationHistory.ReferencedBlobsStay | krikos-sim/src/application.rs:648-656 | a present blob that a local entry still refers to survives every operation, garbage collection included |
| ApplicationHistory.WriteGained | krikos-sim/src/application.rs:522-537 | a node comes to hold Write only by creating the document or by a delivered Write grant |
| ApplicationHistory.GrantsTakeEffect | krikos-sim/src/application.rs:748-775 | a deliverable Write grant in the queue is in force after a successful delivery, wherever it stood in the queue |
| ApplicationRuns.RunsKeepInv | krikos-sim/src/application.rs:390-408 | in every reachable state the bounds, the provenance of every entry and the authority of every author and grant hold together |
| ApplicationRuns.RevisionCountsWrites | krikos-sim/src/application.rs:549-581 | the revision counter is the number of successful writes in the trace, so its saturating increment never saturates |
| ApplicationRuns.EveryEntryWasWritten | krikos-sim/src/application.rs:725-805 | every entry of revision r in any replica or queued message is exactly the author, document, key and blob of the r-th write |
| ApplicationRuns.WritesAreUnique | krikos-sim/src/application.rs:549-581 | one revision number, at any two moments of a run, is one entry in one place |
| ApplicationRuns.SelfCheckNeverFails | krikos-sim/src/application.rs:451-481 | the run-time invariant check passes in every reachable state and no operation ever reports a broken invariant |
| ApplicationRuns.AuthorsAreAuthorized | krikos-sim/src/application.rs:559-572 | the author of every entry anywhere holds Write on the document now, by a chain of grants from its creator |
| ApplicationRuns.GrantsStayWithin | krikos-sim/src/application.rs:582-599 | every grant in flight is within what its sender holds now |
| ApplicationRuns.WriteIsAcquired | krikos-sim/src/application.rs:522-537 | a node holds Write if and only if it created the document or was delivered a Write grant in this run |
| ApplicationRuns.WritersAcquired | krikos-sim/src/application.rs:549-581 | a node that neither created a document nor was delivered a Write grant for it has authored nothing in it |
| ApplicationRuns.RunsGrow | krikos-sim/src/application.rs:390-408 | across any continuation, faults, restarts and collections included, nothing is lost, lowered or older |
| ApplicationRuns.ReferencedBlobsOutlast | krikos-sim/src/application.rs:648-656 | a blob present at some moment stays for as long as the node keeps referring to it |
| ApplicationRuns.ReplayRebuilds | krikos-sim/src/application.rs:365-387 | replaying the recorded trace on a fresh model rebuilds the same model, whatever failed attempts were interleaved |
| ApplicationRuns.TraceIsNumbered | krikos-sim/src/application.rs:390-408 | trace events are numbered 1, 2, 3 and so on without gaps |
| ApplicationDelivery.DeliveryIsExact | krikos-sim/src/application.rs:725-805 | after every successful DeliverAll of every run the queue is exactly the messages kept back by a partition or by a receiver without the document, in order and as often as before; every other message has arrived with its grant, entries and blobs, and nothing else has |
| ApplicationDelivery.DeliverySucceedsIff | krikos-sim/src/application.rs:725-805 | DeliverAll succeeds in a reachable state exactly if the receivers that messages can reach run, those that get something can store it, and all that gets through fits the limits |
| ApplicationMessages.ShareSends | krikos-sim/src/application.rs:582-599 | a Share queues a copy of the sender's replica with every blob it refers to that the sender has, as often and at the end that the pending faults say, and uses the faults up |
| ApplicationMessages.SynchronizeSends | krikos-sim/src/application.rs:615-647 | a Synchronize queues what the left holder has for the right one and then the other way round, the faults concerning the first message |
| ApplicationMessages.QueueKeepsAll | krikos-sim/src/application.rs:700-723 | no operation but a delivery takes a message out of the queue |
| ApplicationMessages.NoMessageIsLost | krikos-sim/src/application.rs:725-747 | over any run a queued message is still queued, or some delivery brought all of it to its destination |
| ApplicationMessages.SentReplicasArrive | krikos-sim/src/application.rs:807-836 | what a holder sends with no drop pending is at every later moment still queued, or a delivery has brought the receiver all of it: its entries or newer ones, every blob it referred to and the sender had, and the grant |
| ApplicationMessages.NextDeliveryBrings | krikos-sim/src/application.rs:735-747 | the next successful delivery brings any message that no partition and no missing document keeps back |
| ApplicationMessages.ShareThenDeliver | krikos-sim/src/application.rs:582-599 | a Share followed by a successful delivery leaves the receiver with the sender's entries and blobs and at least the shared capability |
| ApplicationStatus.SwitchesAreAsLastSet | krikos-sim/src/application.rs:484-698 | in every reachable state a node is known or running, its storage faulty, two nodes cut off, or a delivery fault pending exactly if the last operation of the trace about it says so |
| ApplicationStatus.HoldersWereGiven | krikos-sim/src/application.rs:748-775 | a node holds a document exactly if it created it or was delivered a grant of it in this run |
| ApplicationStatus.CollectedExactly | krikos-sim/src/application.rs:648-656 | a collection keeps exactly the blobs that some local replica refers to, and no other node's blobs change |
| ApplicationStatus.BlobsAreAccounted | krikos-sim/src/application.rs:538-548 | a node has a blob exactly if it was added, fetched or delivered there and no collection since found it unreferred to |
| ApplicationOutcomes.SchemasStayCurrent | krikos-sim/src/application.rs:683-695 | no node ever leaves the one storage schema there is |
| ApplicationOutcomes.SucceedsIffPermitted | krikos-sim/src/application.rs:484-698 | each of the twenty operations succeeds in a reachable state exactly if the trace has room and the state permits it |
| ApplicationOutcomes.ErrorsAreTrue | krikos-sim/src/application.rs:484-698 | whatever fails in a reachable state fails for the reason its error names |
| ApplicationConvergence.DeliveryConverges | krikos-sim/src/application.rs:725-805 | when every queued message is deliverable, every reordering and duplication of the queue succeeds or fails alike and ends with the same entries, capabilities and blob keys |
| ApplicationConvergence.DeliveryOutcome | krikos-sim/src/application.rs:725-805 | delivery then succeeds exactly if everything fits, and ends with the newest of everything |
| ApplicationConvergence.SynchronizeConverges | krikos-sim/src/application.rs:615-647 | a Synchronize between two connected holders and its delivery leave both with the pointwise newest entries, and each with its own blobs and exactly those the other one's replica referred to and the other one had |
| ApplicationConvergence.SynchronizeConvergesIff | krikos-sim/src/application.rs:615-647 | it does so exactly if no partition separates them or neither had anything for the other |
| ApplicationConvergence.PartitionedExchange | krikos-sim/src/application.rs:735-738 | across a partition a delivery pass puts both messages back and changes nothing |
| ApplicationPartition.PartitionKeepsApart | krikos-sim/src/application.rs:615-647 | a run, in every world with room for it, in which both operations succeed across a partition and the two holders still differ |
| ApplicationGossip.GossipSpreads | krikos-sim/src/application.rs:615-647 | after any successful meetings of connected holders from any reachable quiet state, every node has exactly the newest entries of those from whom a chain of ever later meetings leads to it |
| ApplicationGossip.HeardIff | krikos-sim/src/application.rs:615-647 | whose news a node has, computed meeting by meeting, is exactly who reaches it by meetings in order |
| ApplicationGossip.GossipStaysComplete | krikos-sim/src/application.rs:807-836 | if every node has the blobs its replica refers to, every node still has after any successful meetings |
| ApplicationGossip.GossipConverges | krikos-sim/src/application.rs:615-647 | from any reachable quiet state, once every holder of a connected chain has synchronized with the next, forth and back, all of them have the newest entry any of them had for every key, no other node's entries of it change, and the network is quiet again |
| ApplicationGossip.SweptTwiceMisses | krikos-sim/src/application.rs:615-647 | two sweeps along a chain in the same direction are not enough: of four holders the first has not heard of the last |
| ApplicationGossip.NewestOfIsNewest | krikos-sim/src/application.rs:776-788 | the fold of the holders' entries has exactly the keys some holder has, each with an entry of some holder that no holder's is newer than |
| ApplicationGossip.NewestIsUnique | krikos-sim/src/application.rs:776-788 | in a state where revisions are unambiguous there is only one newest of given replicas |
| ApplicationSimulator.MergeEntriesInOrder | krikos-sim/src/application.rs:776-788 | the entry loop computes the merge along the one ascending order of the keys, stopping at the first entry that does not fit |
| ApplicationSimulator.MergeBlobsInOrder | krikos-sim/src/application.rs:789-802 | the blob loop computes the merge along the one ascending order of the hashes, with its limit, size and hash checks |
| ApplicationSimulator.DeliverPending | krikos-sim/src/application.rs:725-805 | the delivery loop passes once over the queue as it stood, requeues what cannot be delivered yet and stops at a failure |
| ApplicationSimulator.Enqueue | krikos-sim/src/application.rs:700-723 | enqueueing consumes the pending faults and adds no, one or two copies at the right end, or reports a full queue |
| ApplicationSimulator.MakeMessage | krikos-sim/src/application.rs:807-836 | walking the entries collects exactly the blobs they refer to and the source has |
| ApplicationSimulator.CollectGarbage | krikos-sim/src/application.rs:648-656 | gathering the reachable blobs document by document and retaining them keeps exactly the referenced blobs |
| ApplicationSimulator.WriteInPlace | krikos-sim/src/application.rs:549-581 | the checks of a write in order, and the entry, replica, node and revision it leaves |
| ApplicationSimulator.SynchronizeNodes | krikos-sim/src/application.rs:615-647 | building the messages of the holders and enqueueing them in turn is the model's exchange |
| ApplicationSimulator.ApplyToSnapshot | krikos-sim/src/application.rs:484-698 | all twenty operations, written out check by check and loop by loop, compute the model's transition |
| ApplicationSimulator.RanIsAttempts | krikos-sim/src/application.rs:365-387 | running operations after any attempts is attempting them one by one, up to the first failure and with that failure |
| ApplicationSimulator.ApplicationModel.Apply | krikos-sim/src/application.rs:390-408 | a successful operation replaces state and appends one trace event; a failing one changes neither, even midway through a delivery |
| ApplicationSimulator.ApplicationModel.Run | krikos-sim/src/application.rs:365-387 | running a scenario applies its operations in order up to the first failure and returns the record of exactly those; from a reachable state it is attempting them |
| ApplicationSimulator.ApplicationModel.AssertInvariants | krikos-sim/src/application.rs:451-481 | the checking loops pass exactly if the self-check holds, and find nothing in any state the object can be in |
| ResolverReset.RunsKeepInv | krikos-resolver/src/dns.rs:118-183 | under every interleaving of resets and lookups: an attempt not woken holds the current resolver unless a swap still owes its wake-up, and the swap history is exact |
| ResolverReset.StaleAttemptsAreWoken | krikos-resolver/src/dns.rs:139-183 | once no swap awaits its wake-up, every attempt still waiting on a replaced resolver has been told to retry |
| ResolverReset.WokenIff | krikos-resolver/src/dns.rs:164-181 | a waiting attempt is told to retry exactly if waiters were woken since it registered |
| ResolverReset.WokenAttemptsRetry | krikos-resolver/src/dns.rs:164-181 | left alone, a woken attempt that polls its wake-up starts over and waits, unwoken, on the current resolver |
| ResolverReset.CompletedWasAnswered | krikos-resolver/src/dns.rs:176-181 | an attempt is completed only by the answer of a lookup on a resolver it had loaded |
| ResolverReset.OthersGoOn | krikos-resolver/src/dns.rs:176-181 | an attempt neither woken nor out of time waits on as it was, and an answer completes it |
| ResolverReset.ResetReplaces | krikos-resolver/src/dns.rs:126-133 | a reset left alone installs a new resolver and wakes everyone who waits |
| ResolverReset.LosersReturn | krikos-resolver/src/dns.rs:126-133 | a reset that lost the race returns and changes nothing |
| ResolverReset.ResolverWasLoaded | krikos-resolver/src/dns.rs:164-181 | every attempt that waits or timed out got its resolver from one load of the cell and has kept it since |
| ResolverReset.LoadedIsCurrentIff | krikos-resolver/src/dns.rs:172-181 | the same for every attempt, waiting or timed out: its resolver is current exactly as long as no compare-and-swap has succeeded since the load |
| ResolverReset.TimeoutsAreCurrent | krikos-resolver/src/dns.rs:176-181 | when a timeout is reported, its resolver is the current one exactly if no swap landed since the attempt loaded it; it is stale with nothing in flight exactly if one landed and none still owes its wake-up, and then the wake-up came between its own poll and the timer's |
| ResolverReset.TimeoutsWereCurrent | krikos-resolver/src/dns.rs:176-181 | whatever happens between the polls, a timeout is against a resolver that was current, or being replaced, at the attempt's last poll of the wake-up |
| ResolverReset.StaleTimeoutHappens | krikos-resolver/src/dns.rs:176-181 | a run with a wake-up between the two polls: the timeout is against a replaced resolver, with no swap in flight |
| ResolverReset.AtMostOneWinner | krikos-resolver/src/dns.rs:118-133 | of the resets that loaded one resolver at most one replaces it |
| ResolverReset.FinishedResetsReplaced | krikos-resolver/src/dns.rs:118-133 | every reset that returned, winner or loser, saw at least one replacement land since it began |
| HostStream.HostStream.AwaitLookup | krikos-resolver/src/dns.rs:447-473 | taking a lookup's answer in leaves the items still to come unchanged |
| HostStream.HostStream.Next | krikos-resolver/src/dns.rs:425-475 | a poll yields exactly the first of the items still to come, and the stream ends exactly when there is none |
| HostStream.Collect | krikos-resolver/src/dns.rs:379-477 | for every outcome of the race the stream ends, having yielded exactly the expected items |
| HostStream.ExpectedIsComplete | krikos-resolver/src/dns.rs:379-477 | each family's addresses, up to 64, come exactly once and in order, the family that answered first in front; an error comes alone: both errors if both lookups failed, no response if there is no address otherwise |
| RuntimeIds.AllocationIsFresh | krikos-runtime/src/id.rs:86-102 | an allocated identifier was never handed out before and counts as handed out from then on, up to the end of the 64-bit range |
| RuntimeIds.AllocationsCountUp | krikos-runtime/src/id.rs:86-102 | a run of allocations counts up without gaps to the last identifier and then fails for good |
| RuntimeIds.IdAllocator.Allocate | krikos-runtime/src/id.rs:86-102 | one call is one allocation |
| RuntimeIds.RecordedKeepsSequence | krikos-runtime/src/trace.rs:405-430 | accepted events carry distinct sequence numbers, all of them issued |
| RuntimeIds.RecordingIsExact | krikos-runtime/src/trace.rs:405-430 | over a whole recording the log is exactly the accepted events in order, numbered by their calls; every call says so, and the failure kept is the first |
| RuntimeIds.ExhaustedRecorderRefuses | krikos-runtime/src/trace.rs:405-430 | once numbers have run out nothing is logged any more |
| RuntimeIds.TraceRecorder.Record | krikos-runtime/src/trace.rs:405-430 | a record call numbers the event, appends it if the sink accepts, and latches the first failure |
| RuntimeIds.TraceRecorder.TakeFailure | krikos-runtime/src/trace.rs:433-437 | the latched failure is handed over and forgotten |
| TaskGroupSafety.StepKeepsTrace | krikos-runtime/src/task.rs:366-488 | every step keeps the joint invariant of live tasks, locks, events under way and the recorded log |
| TaskGroupSafety.StoriesAreTold | krikos-runtime/src/task.rs:411-471 | under every interleaving a task's recorded events are nothing, one rejection, one spawn, or one spawn and one end with a later sequence number |
| TaskGroupBounds.RunsStaySound | krikos-runtime/src/task.rs:366-535 | trace, sequence numbers, locks, capacity, identifiers and metadata stay sound in every run over any number of groups |
| TaskGroupBounds.CapacityIsKept | krikos-runtime/src/task.rs:373-395 | live tasks are within the high-water mark within the limit, the rejection count is the number of ResourceLimit answers, and its exhaustion closes the group |
| TaskGroupBounds.IdentifiersAreUnique | krikos-runtime/src/task.rs:397-409 | no two spawns of any groups ever get the same identifier, and a group's ordinals strictly increase |
| TaskGroupBounds.EventsAreNumbered | krikos-runtime/src/trace.rs:405-430 | no two recorded events share a sequence number, although numbering and recording interleave |
| TaskGroupBounds.ClosedForGood | krikos-runtime/src/task.rs:411-423 | a closed group stays closed, takes no task and turns every spawn away, whatever happens |
| TaskGroupBounds.ClosingCloses | krikos-runtime/src/task.rs:484-488 | closing a group that no spawn has locked closes it and nothing else, and every spawn since is answered with neither a task nor a limit |
| TaskGroupBounds.MovesKeepOk | krikos-runtime/src/task.rs:373-395 | what one step may do to a group keeps its capacity law for all answers given so far |
| TaskGroupJoin.StepKeepsJoin | krikos-runtime/src/task.rs:452-471 | until a group's failure is taken, every task told to have begun and not to have ended is live, about to tell its end, or covered by a latched failure |
| TaskGroupJoin.JoinAccountsForAll | krikos-runtime/src/task.rs:521-534 | when a group's first join returns without a failure, every task it told to have begun was told to have ended |
| TaskGroupAnswers.RoomIsGiven | krikos-runtime/src/task.rs:397-435 | a spawn on an open group with room is answered with a new task, which is then live and on record |
| TaskGroupAnswers.ClosedIsClosed | krikos-runtime/src/task.rs:411-423 | a spawn on a closed group is turned away, on record, and no task changes |
| TaskGroupAnswers.FullIsRefused | krikos-runtime/src/task.rs:373-395 | a full group refuses at once, spends no identifier and counts it |
| TaskGroupAnswers.FullCounterCloses | krikos-runtime/src/task.rs:373-395 | when the count of refusals has run out the group is closed with that as its failure |
| TaskGroupAnswers.NothingLeftIsSaid | krikos-runtime/src/task.rs:397-404 | without identifiers or ordinals left the spawn says so, and no group and no record changes |
| TaskGroupAnswers.LostSpawnsAreUndone | krikos-runtime/src/task.rs:425-436 | a spawn whose event the clock or the sink loses is undone and answered with the cause |
| TaskGroupAnswers.EndIsRecorded | krikos-runtime/src/task.rs:452-471 | a task that ends leaves its group with its outcome on record, or with the failure to record it latched |
| TaskGroupAnswers.AnswersAreOnRecord | krikos-runtime/src/task.rs:411-436 | in every run exactly the spawns on record were answered with their task, and exactly the rejections on record with Closed |
| TaskGroupAnswers.FirstFailureStays | krikos-runtime/src/task.rs:521-534 | a group keeps the first failure it latched until a join takes it |
| TaskGroupAnswers.JoinTakesFailure | krikos-runtime/src/task.rs:521-534 | a join returns exactly if the group is closed with no task live or ending; it takes the failure, and the group stays empty and turns every spawn away |
| TaskGroupAnswers.OpeningOpens | krikos-runtime/src/task.rs:328-350 | a new group is open and empty, with its own limit and parent |
| TaskGroupObject.SpawnIsUninterrupted | krikos-runtime/src/task.rs:366-482 | the steps of a spawn with nothing in between end in the group, identifiers, recorder and answer the call returns |
| TaskGroupObject.EndIsUninterrupted | krikos-runtime/src/task.rs:462-470 | so do the steps of a task's end |
| TaskGroupObject.TaskGroup.SpawnOwned | krikos-runtime/src/task.rs:366-482 | a spawn call is an uninterrupted pass through the steps, keeps the capacity law and extends the answers by its own |
| TaskGroupObject.TaskGroup.AdmitTask | krikos-runtime/src/task.rs:372-426 | the locked part refuses, turns away or inserts exactly as the model does |
| TaskGroupObject.TaskGroup.TaskEnded | krikos-runtime/src/task.rs:452-470 | ending a task is an uninterrupted pass through its steps |
| TaskGroupObject.TaskGroup.Close | krikos-runtime/src/task.rs:484-488 | closing leaves the group closed and is the close step |
| TaskGroupObject.TaskGroup.Join | krikos-runtime/src/task.rs:521-534 | joining a closed, empty group hands the latched failure over |
| TaskGroupObject.TaskGroup.TakeCapacitySnapshot | krikos-runtime/src/task.rs:510-519 | a snapshot's counts are ordered and its rejection count is exact |
| Timestamps.RunsKeepInv | krikos-dns/src/pkarr.rs:363-398 | for any threads, clock readings, stale loads and spurious failures the cell's history is strictly increasing and is the returned values |
| Timestamps.TimestampsIncrease | krikos-dns/src/pkarr.rs:363-398 | returned timestamps strictly increase in the order of the successful exchanges and none is behind its caller's clock |
| Timestamps.TimestampsAreLeast | krikos-dns/src/pkarr.rs:365-367 | each timestamp is the least that is neither behind its caller's clock nor at or before the one before it |
| Timestamps.LaterCallsGetLaterTimestamps | krikos-dns/src/pkarr.rs:363-398 | a call that returns after another had returned gets the later timestamp, on any threads |
| Timestamps.ConcurrentIsSequential | krikos-dns/src/pkarr.rs:363-398 | the timestamps of any interleaving are those of one thread making the calls in that order |
| Timestamps.ExhaustionIsFinal | krikos-dns/src/pkarr.rs:365-367 | once a call has given up, no call ever returns again, in any continuation and on any thread |
| Timestamps.ExhaustionIsReal | krikos-dns/src/pkarr.rs:365-367 | a call gives up only when the cell stands at the largest value |
| Timestamps.UndisturbedCallReturns | krikos-dns/src/pkarr.rs:384-397 | a thread left alone for one load and one exchange returns |
| Timestamps.TimestampCell.Now | krikos-dns/src/pkarr.rs:374-398 | the retry loop ends once left alone, having advanced the cell by the rule for the value it replaced |
| SignedPackets.SignableInjective | krikos-dns/src/pkarr.rs:321-325 | no signed bytes can be read as another timestamp or another payload (BEP 44) |
| SignedPackets.SignableReads | krikos-dns/src/pkarr.rs:321-325 | what is signed is the bencoded sequence number and value: a reader of that format gets both back |
| SignedPackets.BytesAreChecked | krikos-dns/src/pkarr.rs:94-122 | which bytes are accepted, with and without checks, and the first check that fails otherwise |
| SignedPackets.HighByteFirst | krikos-dns/src/pkarr.rs:284-297 | timestamps are written high byte first |
| SignedPackets.PartsAreKept | krikos-dns/src/pkarr.rs:140-154 | assembling from parts accepts exactly the parts that check out, reports the first failing check, and the accessors give the parts back |
| SignedPackets.PartsRebuild | krikos-dns/src/pkarr.rs:94-122 | every accepted packet is rebuilt whole from its own parts, and is accepted unchecked too |
| SignedPackets.RelayRoundTrip | krikos-dns/src/pkarr.rs:125-133 | relay payload and key give the same packet back, within the payload bound |
| SignedPackets.UncheckedParts | krikos-dns/src/pkarr.rs:284-297 | without checks the parts come back exactly when key and signature have their fixed lengths |
| SignedPackets.PublishedPacketsVerify | krikos-dns/src/pkarr.rs:75-91 | what a publisher signs and lays out is accepted, exactly if its key and DNS packet are |
| SignedPackets.RecencyIsStrictTotal | krikos-dns/src/pkarr.rs:300-306 | recency is a strict order that leaves only equal timestamps with equal contents unordered |
| SignedPackets.RecencyIsAfter | krikos-dns/src/pkarr.rs:300-306 | the more recent packet is the one with the larger timestamp or, of one timestamp, with the lexicographically greater contents |
| Order.LessIsLexicographic | krikos-dns/src/pkarr.rs:302 | byte strings are compared lexicographically: a proper prefix comes first, and otherwise the smaller byte at the first difference |
| CustomAddrs.CopyKeepsBytes | krikos-base/src/endpoint_addr.rs:643-655 | what is copied in is what is read out, and the copy is canonical |
| CustomAddrs.EqualityIsByContents | krikos-base/src/endpoint_addr.rs:392-398 | among canonical addresses field-by-field equality is equality of id and bytes |
| CustomAddrs.UncanonicalStorageDiffers | krikos-base/src/endpoint_addr.rs:553-558 | storage that is not canonical breaks that |
| CustomAddrs.DeserializeIsCanonical | krikos-base/src/endpoint_addr.rs:728-742 | deserializing accepts any storage within the bounds, makes it canonical, and receives every address as sent |
| CustomAddrs.BinaryRoundTrip | krikos-base/src/endpoint_addr.rs:704-725 | an address decodes from its encoding exactly if its data is at most 512 bytes |
| CustomAddrs.BinaryIsExact | krikos-base/src/endpoint_addr.rs:715-725 | exactly the byte strings of a legal length decode, and encode back to themselves; the error says whether one is too short or too long |
| CustomAddrs.LowByteFirst | krikos-base/src/endpoint_addr.rs:704-725 | the id is written low byte first |
| CustomAddrs.CopyIntoStorage | krikos-base/src/endpoint_addr.rs:643-655 | the buffer copy fills the inline storage or keeps a heap block as specified |
| CustomAddrs.FillVec | krikos-base/src/endpoint_addr.rs:704-709 | the vector is filled with the id, low byte first, and the data |
| CustomAddrs.VisitSeq | krikos-base/src/endpoint_addr.rs:580-602 | reading a heap block element by element accepts exactly blocks of at most 512 bytes with an honest hint |
| CustomAddrText.TextRoundTrip | krikos-base/src/endpoint_addr.rs:400-423 | an address parses from its text exactly if its data is at most 512 bytes |
| CustomAddrText.TextIsExact | krikos-base/src/endpoint_addr.rs:406-423 | parsed addresses are canonical, and the text was the printed form exactly when its id was written plainly |
| CustomAddrText.BadTextsAreRefused | krikos-base/src/endpoint_addr.rs:406-423 | which texts are refused and why, character class by character class, and that all others parse |
| CustomAddrText.HexDigits | krikos-base/src/endpoint_addr.rs:400-404 | the digits are those of lower-case hexadecimal |
| CustomAddrText.PublishedSpelling | krikos-base/src/endpoint_addr.rs:818-822 | the documented spelling of an address |
| CustomAddrText.SpellingsOfOneAddress | krikos-base/src/endpoint_addr.rs:406-423 | two spellings of one address, so parsing is not injective |
| CustomAddrText.PrintedCharacters | krikos-base/src/endpoint_addr.rs:400-404 | printed text has an underscore and no colon or equals sign |
| TxtAttrs.FromPartsHolds | krikos-dns/src/attrs.rs:106-115 | grouping pairs by key keeps every value of every key in order |
| TxtAttrs.StringsRoundTrip | krikos-dns/src/attrs.rs:118-136 | printing attributes and parsing them back keeps every value of every key, in order, up to its first equals sign |
| TxtAttrs.StringsRoundTripExactly | krikos-dns/src/attrs.rs:172-176 | the whole map comes back exactly when no value holds an equals sign |
| TxtAttrs.PublishedLines | krikos-dns/src/attrs.rs:172-176 | what is published, line by line: the relays, then the addresses, then the user data |
| TxtAttrs.PublishedKeys | krikos-dns/src/attrs.rs:118-136 | a line with each of the three keys reads as that key |
| TxtAttrs.BadLinesAreRefused | krikos-dns/src/attrs.rs:118-136 | a line is refused exactly if it has no equals sign or no known key before it, and the error says which |
| TxtAttrs.EqualsSignsAreLost | krikos-dns/src/attrs.rs:124-127 | a value with an equals sign that does not come back |
| TxtAttrs.CollectParts | krikos-dns/src/attrs.rs:106-115 | the grouping loop computes that map |
| TxtAttrs.ParseStrings | krikos-dns/src/attrs.rs:118-136 | the parsing loop computes the parse and reports the error of the first bad string |
| EndpointInfo.DedupKeepsItems | krikos-dns/src/endpoint_info.rs:78-83 | removing duplicates keeps every item, once |
| EndpointInfo.DedupKeepsOrder | krikos-dns/src/endpoint_info.rs:78-83 | what is left stands in the order of first occurrences |
| EndpointInfo.DedupInPlace | krikos-dns/src/endpoint_info.rs:78-83 | the retain loop computes that and returns the items seen |
| EndpointInfo.Data.constructor | krikos-dns/src/endpoint_info.rs:92-98 | a new object holds the given addresses without duplicates |
| EndpointInfo.Data.AddRelayUrl | krikos-dns/src/endpoint_info.rs:111-116 | adding a relay keeps the object duplicate-free and adds it at the end unless present |
| EndpointInfo.Data.AddAddrs | krikos-dns/src/endpoint_info.rs:124-132 | adding addresses in a loop is removing duplicates from the concatenation |
| EndpointInfo.PrintAttrs | krikos-dns/src/endpoint_info.rs:486-501 | the printing loop builds the attributes of the model |
| EndpointInfo.ReadAttrs | krikos-dns/src/endpoint_info.rs:504-540 | reading attributes builds a duplicate-free object with the model's data |
| EndpointInfo.ReadsWhatIsPublished | krikos-dns/src/endpoint_info.rs:504-540 | for any attributes exactly the addresses that some text stands for are read, none twice, and the first user data if it is short enough |
| EndpointInfo.RepublishedSurvives | krikos-dns/src/endpoint_info.rs:486-540 | for any data, publishing and reading back gives what still parses once values are cut at their equals signs |
| EndpointInfo.CustomTextIsNoSocket | krikos-dns/src/endpoint_info.rs:519-527 | the text of a custom address never passes for a socket address |
| EndpointInfo.RoundTrip | krikos-dns/src/endpoint_info.rs:486-540 | publishing and reading back gives the same user data and the stable partition of the addresses, relays first, exactly when no relay text and no user data holds an equals sign, every socket address is plain and no custom address is oversized |
| EndpointInfo.RoundTripKeepsAll | krikos-dns/src/endpoint_info.rs:486-540 | for duplicate-free data that is then every address |
| EndpointInfo.HiddenPartsAreLost | krikos-dns/src/endpoint_info.rs:519-527 | a socket address whose text does not say all, such as an IPv6 one with flow information, does not come back |
| EndpointInfo.UserDataIsCut | krikos-dns/src/endpoint_info.rs:529-534 | user data comes back up to its first equals sign |
| ZoneStore.Zones.CacheInsert | krikos-dns-server/src/store.rs:325-346 | a zone is cached unless the cached one is newer or the packet cannot be read; making room may evict others |
| ZoneStore.Zones.Resolve | krikos-dns-server/src/store.rs:115-157 | a query gets what reading the store's packet gives: its records, nothing, or that it cannot be read |
| ZoneStore.Zones.Insert | krikos-dns-server/src/store.rs:208-224 | a packet replaces the stored one exactly if that one has a smaller timestamp or, at the same timestamp, contents no greater; it then clears the cached zone |
| ZoneStore.Serve | krikos-dns-server/src/store.rs:115-224 | any sequence of inserts, queries and evictions answers as the uncached store would |
| ZoneStore.NewestPacketStays | krikos-dns-server/src/store/signed_packets.rs:298-332 | after any calls the store has for every key, of all packets inserted for it, the one with the largest timestamp and, among those, the lexicographically greatest contents, and nothing for other keys |
| ZoneStoreRuns.AnswersComeFromHeldPackets | krikos-dns-server/src/store.rs:115-157 | under every interleaving everything cached is the reading of a packet the store once held for that key, and every reply with a packet is what that packet answers |
| ZoneStoreRuns.MissesAreReal | krikos-dns-server/src/store.rs:135-136 | a reply without a packet was given when the query asked a store that had none for the key |
| ZoneStoreRuns.StaleHasCause | krikos-dns-server/src/store.rs:135-138 | a key is marked exactly if a put of a packet the store had replaced, or an expiry, has not been undone by a clear, an eviction or a timely put since |
| ZoneStoreRuns.CacheIsTransparent | krikos-dns-server/src/store.rs:115-157 | a cached query gets the answer of the packet its zone was read from; with no clear pending that packet is the store's exactly if no late put and no expiry stands, and then the answer is the uncached one |
| ZoneStoreRuns.CachedTimestampsGrow | krikos-dns-server/src/store.rs:325-346 | while a key stays cached its zone's timestamp, that of the packet it was read from, never decreases |
| ZoneStoreRuns.InsertsAreKept | krikos-dns-server/src/store.rs:208-224 | under every interleaving, from an insert until its key expires the store has a packet no earlier than the inserted one |
| ZoneStoreRuns.StoreWasInserted | krikos-dns-server/src/store.rs:208-224 | the store only has packets that were inserted |
| ZoneStoreRuns.InsertReplaces | krikos-dns-server/src/store.rs:208-224 | an insert left alone leaves its packet in the store and nothing cached for it, other keys untouched |
| ZoneStoreRuns.QueryAnswers | krikos-dns-server/src/store.rs:115-157 | a query left alone that misses the cache answers from the store's packet and caches it |
| ZoneStoreRuns.ExpiryEmpties | krikos-dns-server/src/store/signed_packets.rs:355-372 | an expiry removes its key's packet and no other |
| ZoneStoreRuns.LatePutServesOldRecords | krikos-dns-server/src/store.rs:135-138 | a run in which the cache goes on answering from a replaced packet with every call over |
| Admission.LevelIsTightest | krikos-dns-server/src/admission.rs:128-139 | the bucket holds exactly the room that its tightest window leaves |
| Admission.AcceptedIff | krikos-dns-server/src/admission.rs:128-139 | an attempt is accepted if and only if that keeps every window ending with it within burst plus rate times forward time |
| Admission.WindowBound | krikos-dns-server/src/admission.rs:128-139 | no window of attempts accepts more than burst plus rate times the time that passed forward in it, for any instants |
| Admission.PassedIsLength | krikos-dns-server/src/admission.rs:129-131 | forward time is the window's length exactly when the instants never go back |
| Admission.RateBound | krikos-dns-server/src/admission.rs:119-139 | with instants that never go back a window accepts at most burst plus rate times its length |
| Admission.BackwardClockBreaks | krikos-dns-server/src/admission.rs:128-139 | for any instants that go back somewhere there is a configuration, a burst of one with a positive rate, that accepts more than burst plus rate times the length |
| Admission.RateBoundIff | krikos-dns-server/src/admission.rs:119-139 | from the first attempt on, burst plus rate times the length holds for every configuration if and only if the clock never went back |
| Admission.EveryWindowIff | krikos-dns-server/src/admission.rs:119-139 | all windows of a run keep to it for every configuration if and only if the clock never went back in the run |
| Admission.BackwardClockExceeds | krikos-dns-server/src/admission.rs:129-131 | instants that go back and forth pass a burst of one twice at the same instant |
| AdmissionLeases.LeasesWithinCapacity | krikos-dns-server/src/admission.rs:34-71 | in every interleaving of connections and requests both gauges are the numbers of live leases within capacity, permits are conserved, and all come back |
| AdmissionLeases.PermitsAreGiven | krikos-dns-server/src/admission.rs:34-71 | in every run a new attempt gets a permit exactly while fewer than the capacity are held |
| AdmissionLeases.ConnectionLives | krikos-dns-server/src/admission.rs:34-55 | permit, token, lease, its end and the permit back: afterwards only the bucket differs |
| AdmissionLeases.RequestLives | krikos-dns-server/src/admission.rs:57-71 | the same for a request, which leaves no trace at all |
| AdmissionLeases.RateLimitedReturnsPermit | krikos-dns-server/src/admission.rs:46-49 | a rate-limited attempt gives its permit back and leaves no trace but in the bucket |
| AdmissionLeases.RefusedOnlyReleases | krikos-dns-server/src/admission.rs:46-49 | whatever else happens, a refused attempt never becomes a lease: all it can do is release its permit |
| AdmissionLeases.AdmittedWithinRate | krikos-dns-server/src/admission.rs:34-55 | however connections come and go, those admitted are within burst plus rate times the time passed |
| AdmissionLeases.TokenBucket.TryTake | krikos-dns-server/src/admission.rs:128-139 | one call is one attempt at the bucket |
| AdmissionLeases.AdmissionControl.TryConnection | krikos-dns-server/src/admission.rs:34-55 | capacity is asked before the bucket, a refusal of either leaves the gauge alone, and every permit taken is an active lease |
| AdmissionLeases.AdmissionControl.TryRequest | krikos-dns-server/src/admission.rs:57-71 | a request is accepted exactly while capacity lasts |
| AdmissionLeases.AdmissionControl.DropConnection | krikos-dns-server/src/admission.rs:93-97 | dropping a lease lowers the gauge and frees its permit |
| AdmissionLeases.AdmissionControl.DropRequest | krikos-dns-server/src/admission.rs:105-109 | the same for requests |
| Campaign.RunBatch | krikos-sim/src/campaign.rs:91-123 | a batch whose threads end in any order is the sequential map of the executor over its seeds |
| Campaign.RunSeeds | krikos-sim/src/campaign.rs:84-134 | the batch loop runs exactly the seeds up to the closed-form stop, and says it stopped early exactly if seeds remain |
| Campaign.Run | krikos-sim/src/campaign.rs:58-165 | a campaign reports what running the seeds in turn would, with its error cases, and its counters never overflow |
| Campaign.ReportIsExact | krikos-sim/src/campaign.rs:58-165 | an empty range, no jobs and a range longer than the budget are refused in that order; otherwise only a failure that cannot be encoded is an error, and every seed up to the stop is reported as it ran |
| Campaign.StopsWithBatch | krikos-sim/src/campaign.rs:84-134 | failing fast, the runs end with the batch of the first failure, batches being as many seeds as jobs |
| Campaign.SummaryListsAll | krikos-sim/src/campaign.rs:135-164 | the failures reported are one for each fingerprint that occurred, in the order of the fingerprints |
| Campaign.JobsDoNotMatter | krikos-sim/src/campaign.rs:83-134 | without fail-fast the report does not depend on the number of jobs |
| Campaign.FailFastStops | krikos-sim/src/campaign.rs:130-133 | with fail-fast the runs end with the batch of the first failure: after it, and at most one batch further |
| Campaign.TallyIsExact | krikos-sim/src/campaign.rs:135-156 | the tally counts every fingerprint exactly, keeps its first result, and fails only on a failure that cannot be encoded |
| Campaign.TotalIsFailures | krikos-sim/src/campaign.rs:135-156 | the occurrences add up to the number of failure terminals |
| Campaign.SummaryIsExact | krikos-sim/src/campaign.rs:135-164 | each reported failure counts its fingerprint's results, and its first seed is the least seed that failed with it |

## Left out

- The identity protocol, relay segmentation, the simulator's kernel, network and minimizer: not part of this model.
- HTTP, TLS, QUIC, DNS listeners, the relay client and platform glue: input and output only.
- Cryptography, z-base-32, hashing, URL, socket-address and DNS-packet parsing: functions passed in, with their laws as premises where needed.
- Building a DNS packet from TXT records and normalizing names: only the signing and layout around them are modelled.
- The DHT fallback of the zone store and its second cache with a time to live: without a DHT that cache stays empty.
- The persistent packet store: only its rule for replacing a packet; its batching, expiry schedule and serialization are not modelled.
- Configuration validation beyond the application model's limits, metrics other than the active gauges, log lines and error texts: easy members.
- Staggered lookups, jitter and timeouts of the resolver: a lookup either completes, is told to retry or times out, at any moment.
- Cancellation tokens of task groups: a cancelled task is one that ends with a cancelled outcome, at any moment.
- TaskGroups.Next: closing a group whose rejection counter ran out and latching that failure are one step; the program does the second after releasing the group's lock.
- Admission: token arithmetic is over the reals, so rounding of 64-bit floats is not modelled.
- Campaign.Run: `usize` is taken to be 64 bits wide, so the conversion of the run count cannot fail.
