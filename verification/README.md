# The clustered service container, verified

The container in `src/service` drives one replica of a clustered service. It reads the cluster log in
frames, reassembles and applies its messages, keeps the table of client sessions, takes snapshots and
recovers from them, and acknowledges what it does to the consensus module. This project models that
container and proves what it promises. Check it with `dafny verify dfyconfig.toml`.

## How it is built

The model has two layers.

* **State machines.** `ReplicatedState` says what each log event does to the state all replicas share.
  `Reassembly` is the fragment reassembler, `SessionTable` the table held as vector and map,
  `Snapshots` the snapshot stream and its loader, `Publications` claims and offers under back
  pressure, `AgentSpec` the whole agent and its duty cycle, `Startup` the machine behind
  `AsyncConnect`, `Counters` the two counter searches. What the outside world decides in one duty
  cycle (clock, subscriptions, images, commit position, results of claims and offers, what the service
  answers) is a `Cycle`, in one startup poll a `Meeting`; a run is any sequence of them.
* **Objects.** `Container` and `Connector`, with `Proxy`, `SnapshotWriter` and `ClientSessions`, are
  the classes of the container with their fields and loops. An object's `View` is its state in the
  machine, and every method is proved to change the view exactly as the machine says. `Driver.Drive`
  and `Driver.DriveStartup` drive them over a whole run and a whole startup and show that what is
  proved of the machines holds of the objects. `AgentSteps` and `LoaderSteps` cut the machines' steps
  into those of the methods.

The theorems are in `ReassemblyProofs`; `DutyCycles` (one cycle, part by part, read off what it meets) with
`TickTimes`, `Joins` and `RequestedAcks` (what that means over runs); `Journals`, `Invariants`, `AckNumbers`
and `PendingAcks`; `SnapshotFreeze`; `LogViews` (what a log is as frames), `Tracking` (where an agent stands
in it, input by input), `Contiguity` (what a run has applied of it), `ReadingRuns` and `JoinOrder` (the exact
conditions for that), `FragmentedLogs` (that such logs are what fragmenting makes) and `LogFailures`;
`StartupProofs` and `StartupProgress`; `Recovery`; and `Succession` (a run, its snapshot, a startup from it
and the next run, composed).
`RecoveryFailures`, `HonestPositions` and `HalfReadMessages` hold the inputs at which the code does not
do what it says.

Everything the container does to the world goes into one *journal*: callbacks of the service, requests
committed to the consensus module, sessions restored. A failed method answers the exception it throws;
in the machines an exception is latched and ends the run.

## What the code does beside what it says

* The principal of an opened session is resized to its length but never filled
  (`src/service/BoundedLogAdapter.cpp:117-121`), so sessions carry zero bytes: `Blank`.
* A recovery counter without a leadership term skips the snapshot
  (`src/service/ClusteredServiceAgent.cpp:168-188`), whatever the snapshot holds. `SnapshotPlusSuffix`
  says exactly when recovery is right nonetheless, `TermlessRecoveryLosesSessions` is a startup that
  is not.
* The loader adds sessions without looking for their ids, and before BEGIN as well as after it.
  `SoundIffDistinct` and `LoaderAccepts` say what follows, `RepeatedIdIsUnsound` is a startup where it
  does.
* The builder knows a frame by its term offset alone, and offsets repeat in every term.
  `LossExactIffOffsetsApart` is exact about it, `CollisionMixes` gives the loss that mixes two messages,
  `TermsCollide` shows that any two terms can collide so, and `CollisionExists` a message that was
  never sent.
* A snapshot publication that refuses an offer leaves the recording noted and the snapshot torn
  (`src/service/ClusteredServiceAgent.cpp:630-634`). `RetryAcknowledgesTornSnapshot` shows that the
  exception must end the agent.
* The ack of a join may fail to be claimed without the join noticing
  (`src/service/ClusteredServiceAgent.cpp:945-946`): `JoinAcksIffClaimed`.
* Both counter searches leave out the records from `maxCounterId` on and stop at the first unused one:
  `FindsLowestIffNoneUnusedBefore`.
* Polling a startup again after it returned the agent acknowledges again: acks count returns, not one
  (`CalledUntilStarted`).
* The ack of a recording whose id is not known carries `NULL_VALUE`, so that it counts as the ack of a
  requested position and clears it (`CycleCounts`).
* A snapshot action does not end the poll that delivers it, so the state written is that of the moment
  the markers are written, not of the action (`AcknowledgedWhole`).
* New-term, action and membership events carry their own log position, and the agent takes that one.
  `src/service/ClusteredService.h:84` documents it as the position the log has reached (`Honest`), which
  nothing checks. `JoinsInOrderIffLeading` and `PositionTellsIffTelling` say exactly what the events of a
  log must carry for no run to join an image out of order, and for the log position to say what was
  applied; `AheadSkipsMessage` is a run over a log that does not and misses a message, and
  `FragmentedLogIsValid` says which fragmented logs are honest.
* The log position is not moved by a frame that is read inside a message, and the builder is not reset
  by a join. An image that was joined inside a message and is dropped half read can be followed by one
  that gives the same frames again, and the message is lost: `LosesHalfRead`. `NextJoinInOrderIffCalm`
  says exactly when the next join is in order.

## Model

| member | source | states |
|---|---|---|
| Recovery.SnapshotPlusSuffix | src/service/ClusteredServiceAgent.cpp:163-234 | apply a prefix of any log, snapshot, recover a new agent by any startup, whatever polls find no counter yet, apply any rest: sessions, position, time, term, callbacks and success or failure are those of applying the whole log, if and only if the prefix left a leadership term or no session open |
| Recovery.RecoveredRunContinuesLog | src/service/ClusteredServiceAgent.cpp:314-345 | an agent recovered by any startup from a snapshot at a message boundary and then run on any views of a log in which no message misleads, in frames, with any polls, aborts, joins and closes, has what applying the whole log from its start through exactly the messages wholly read brings, and the whole log once every frame was read, callback for callback; where every message tells, at every moment through exactly those that end at or below its position; where a session failure ends it, replaying the whole log ends in that failure |
| Succession.SnapshotSucceeds | src/service/ClusteredServiceAgent.cpp:583-660 | two agents composed: the first runs over views of a log and acknowledges a snapshot in any duty cycle of the run; the second starts, after any number of polls that find nothing yet, from exactly those contents and a counter with the acknowledged position and time and the term of BEGIN, then runs on; together they have what one agent would that applied the log from the first one's origin, through exactly the messages the second has wholly read and, where every message tells, exactly those up to its position; or fail as that replay fails |
| Succession.RecoveredAcksNeverGoBack | src/service/ClusteredServiceAgent.cpp:247-255 | from a new connector through startup and any run over views of a log whose messages tell, the acknowledged positions never decrease, the startup's own ack included |
| Recovery.RecoveredRunNumbers | src/service/ClusteredServiceAgent.cpp:347-361 | behind any startup, one from a snapshot with repeated ids included, every run numbers its acks without a gap and spaces its adapter polls |
| RecoveryFailures.TermlessRecoveryLosesSessions | src/service/ClusteredServiceAgent.cpp:168-188 | the failing input: one session opened, a snapshot of it, a recovery counter without a term; one poll reaches the service with no session, which is not where the log left it |
| RecoveryFailures.RepeatedIdIsUnsound | src/service/ClusteredServiceAgent.cpp:745-754 | the failing input: a snapshot with two sessions under one id loads without an exception and reaches the service with vector and map apart |
| Recovery.RecoversIffTermOrEmpty | src/service/ClusteredServiceAgent.cpp:164-188 | a startup that reached the service, whatever its polls found before the counter was there, has exactly the recorded core if and only if that has a term or no sessions; what the service wrote behind END is unread |
| Recovery.EarlyPollsShow | src/service/ClusteredServiceAgent.cpp:139-142 | polls that find no recovery counter yet can precede any startup that sees the record |
| Recovery.SoundIffDistinct | src/service/ClusteredServiceAgent.cpp:745-754 | at every point of every startup the run invariant holds of the agent if and only if the session ids read from the snapshot are distinct: the loader does not check |
| Contiguity.ContiguousRun | src/service/ClusteredServiceAgent.cpp:335-344 | with all images views of one log in which no message misleads, after any interleaving of joins, bounded polls, aborts, snapshots and closes the agent has applied, while it reads an image, exactly the messages whose last frame it has read; with every frame read, the whole log; where every message tells, at every moment exactly those that end at or below its log position, which never goes back; over an honest log also with images joined inside a message, none being dropped there half read, and never beyond a bound on the commit positions that cuts no frame |
| HonestPositions.PositionIsEndIffHonest | src/service/ClusteredServiceAgent.cpp:363-398 | in a replay: the position after each dispatched event is the very end of its message if and only if every event that carries a position of its own carries that one |
| HonestPositions.AheadSkipsMessage | src/service/ClusteredServiceAgent.cpp:822-836 | the failing input: a membership change whose position is the end of the next message; the agent joins again there, that message is never applied, and nothing fails |
| JoinOrder.JoinsInOrderIffLeading | src/service/ClusteredServiceAgent.cpp:838-861 | from any point of any log: in every run over its views each image is joined where reading has come to, up to undispatched messages, if and only if no message that can be applied carries a message boundary with dispatched messages between it and that message's own end |
| JoinOrder.JoinsFollowReading | src/service/ClusteredServiceAgent.cpp:881-966 | the sufficient half for every kind of log a run is proved over, commit bounds and images joined inside a message included |
| JoinOrder.PositionTellsIffTelling | src/service/ClusteredServiceAgent.cpp:363-398 | from any point of any log: at every moment of every run over its views the messages that end at or below the log position are those whose last frame has been read, up to undispatched ones, if and only if every message that can be applied carries a position at the start of, or inside, the message that follows it, up to undispatched ones |
| Tracking.HonestIsTelling | src/service/ClusteredService.h:84 | a log whose events carry the position the log has reached with them tells, and does not mislead |
| JoinOrder.NextJoinInOrderIffCalm | src/service/ClusteredServiceAgent.cpp:838-861 | wherever a run over an honest log has come to, with images joined between any two frames: the next join is in order, whatever comes next, if and only if no image is being read, or the log position is a message boundary, or is where the image has been read to |
| HalfReadMessages.LosesHalfRead | src/service/BoundedLogAdapter.cpp:232-261 | the failing runs: in every honest log every message of three frames or more that can be applied is lost by a run over views of the log, closed and joined again inside it: its last frame is read, nothing of it is applied, nothing fails |
| JoinOrder.ReadsThere | src/service/ClusteredServiceAgent.cpp:335-344 | every place of a log, as far as it can be applied, is read to by some run |
| Contiguity.AppliedIsDetermined | src/service/ClusteredServiceAgent.cpp:881-966 | only one count of applied messages fits a log position, so none is skipped or repeated |
| Contiguity.WhollyReadIsDetermined | src/service/BoundedLogAdapter.h:42-45 | only one count of messages is that of those wholly read from a view of the log |
| Contiguity.AcksNeverGoBack | src/service/ClusteredServiceAgent.cpp:347-361 | over a run that goes on from a tracked state, in a log whose messages tell, the acknowledged log positions never decrease |
| FragmentedLogs.FragmentedRun | src/service/BoundedLogAdapter.cpp:54-264 | fragment any messages into one term and drive a new agent with the frames, under any polls, aborts, joins and closes, where no message misleads: state and callbacks are those of folding the handlers over the messages whose last frame has been read, over the whole list once every frame has been, and where the messages tell, at all times over those that end at or below the log position |
| FragmentedLogs.FragmentedLogIsValid | src/service/BoundedLogAdapter.cpp:222-229 | a fragmented log is a log of whole messages in ascending frames, whose entries are the payloads decoded; it is honest if and only if the events that carry their own log position carry the one the log has reached with them |
| LogFailures.RunFailsAsTheLog | src/service/ClusteredServiceAgent.cpp:719-726 | a run that ends in a clashing open or an unknown close does so with the very failure of replaying the log in order |
| LogFailures.LawfulLogNeverFails | src/service/ClusteredServiceAgent.cpp:784-796 | over a log that never opens an open session nor closes one that is not, no run ends like that |
| ReassemblyProofs.DeliversExactlyChains | src/service/BoundedLogAdapter.cpp:218-261 | for arbitrary frames: a frame delivers a payload if and only if it is unfragmented and carries it, or ends a BEGIN..END chain of aligned successors interrupted only by unfragmented frames, whose payloads joined are delivered |
| ReassemblyProofs.LossyReassemblyExact | src/service/BoundedLogAdapter.cpp:211-264 | delete any frames of any messages: the survivors deliver, in order, exactly the intact messages, where no two messages continue at one offset |
| ReassemblyProofs.LossExactIffOffsetsApart | src/service/BoundedLogAdapter.cpp:232-261 | reassembly is exact under every loss if and only if no two messages continue at the same offset |
| ReassemblyProofs.CollisionMixes | src/service/BoundedLogAdapter.cpp:232-249 | where two messages continue at one offset there is a loss that leaves no message intact and delivers the head of the first joined to the tail of the second; it is the payload of one of them exactly where the two tails, or the two heads, are alike |
| ReassemblyProofs.TermsCollide | src/service/BoundedLogAdapter.cpp:222-229 | any two payloads longer than a frame, fragmented at the same offset of two terms, collide: a loss delivers the head of the one joined to the tail of the other |
| ReassemblyProofs.CollisionExists | src/service/BoundedLogAdapter.cpp:232-249 | the failing input: two messages of two bytes in two terms deliver a message that is neither |
| ReassemblyProofs.LayoutIsMessage | src/service/BoundedLogAdapter.cpp:222-229 | a payload fragmented into aligned frames is one message whose joined frames give the payload back |
| ReassemblyProofs.LossWithinOneTermIsExact | src/service/BoundedLogAdapter.cpp:211-264 | payloads fragmented into the frames of one term are delivered exactly, whichever frames are lost |
| ReassemblyProofs.RedeliveredIsSame | src/service/BoundedLogAdapter.cpp:242-249 | a frame redelivered after aborts offers the same message each time and leaves the builder as if accepted at once |
| ReassemblyProofs.AbortIsUndo | src/service/BoundedLogAdapter.cpp:230-249 | under any finite pattern of aborts the accepted messages, once each and in order, and the builder are those without aborts |
| SessionTable.AddAgreesIffNew | src/service/ClusteredServiceAgent.cpp:271-284 | insertion keeps vector and map in agreement, and the vector strictly ascending, if and only if the id is new |
| SessionTable.RemoveTakesOne | src/service/ClusteredServiceAgent.cpp:756-775 | removal keeps the agreement, answers exactly the session the map had, and takes out no other |
| SessionTable.RemoveUndoesAdd | src/service/ClusteredServiceAgent.cpp:756-775 | removing a session just added under a new id gives the table back |
| SessionTable.VectorDeterminesTable | src/service/ClusteredServiceAgent.cpp:271-284 | where the representations agree the vector alone determines the map |
| SessionTable.LowerBound | src/service/ClusteredServiceAgent.cpp:276-282 | the first index whose session does not come before the id |
| SessionTable.Find | src/service/ClusteredServiceAgent.cpp:761-763 | the first index with the id, or the length |
| ReplicatedState.ReplayMeansTheLog | src/service/ClusteredServiceAgent.cpp:710-801 | a replay succeeds if and only if no event opens an open session, closes one that is not, or has a foreign schema; it keeps the table in agreement; and the sessions left are exactly those the log itself leaves open |
| ReplicatedState.ReplayFailsAs | src/service/ClusteredServiceAgent.cpp:719-801 | a replay fails with an exception if and only if some event is the first to break the law and does so that way: opening the id that is open, closing the id that is not, or of a foreign schema |
| ReplicatedState.ServiceHearsTheLog | src/service/BoundedLogAdapter.cpp:72-208 | over a lawful log the service is told of each event exactly what it says: messages and closes with the session the log has left open under their id, messages for no open session not at all, opens with a blank principal, actions and membership changes nothing |
| ReplicatedState.ReplayEndsAtLastEvent | src/service/ClusteredServiceAgent.cpp:363-398 | position and time are those of the last dispatched event, the term that of the last new-term event |
| ReplicatedState.ReplayAppends | src/service/ClusteredServiceAgent.cpp:710-801 | applying a log in two parts is applying it whole, in state, callbacks and failure |
| ReplicatedState.ReplayIgnoresPosition | src/service/ClusteredServiceAgent.cpp:814-815 | the position reached before has no influence on tables, callbacks and failures that follow |
| ReplicatedState.UndispatchedChangesNothing | src/service/BoundedLogAdapter.cpp:91-208 | messages of templates the adapter does not dispatch change nothing, not even the log position |
| Invariants.RunKeeps | src/service/ClusteredServiceAgent.cpp:314-345 | every run keeps: vector and map agree; ack ids are 0,1,2,... and the ack counter their count; every session's callbacks are (open, message*, close)* with the session in the table exactly while open; at most one committed close request per session between leader joins, marked exactly when sent; adapter polls more than a tick apart |
| AckNumbers.RunNumbers | src/service/ClusteredServiceAgent.cpp:347-361 | gap-free ack numbers and spaced adapter polls are kept by every run from any state that has them, whether or not the session table is sound |
| AckNumbers.StepNumbers | src/service/ClusteredServiceAgent.cpp:314-345 | each single input keeps them |
| AckNumbers.JoinAcksIffClaimed | src/service/ClusteredServiceAgent.cpp:881-966 | a join at the log position comes about unless its ack is refused for good, and its ack is published if and only if the claim was granted |
| Invariants.OpenMeansBegun | src/service/ClusteredServiceAgent.cpp:719-742 | a session is open after a journal if and only if some note begins it and none since ends it |
| Invariants.ShapedMeans | src/service/ClusteredServiceAgent.h:311-317 | the shape, note by note: begun only while not open, sent messages and ended only while open |
| Joins.RequestsAreSeparated | src/service/ClusteredServiceAgent.cpp:410-434 | in any run, between two committed requests to close one session its object was made anew, or a duty cycle joined an image as leader and reset the marks |
| Joins.CycleResets | src/service/ClusteredServiceAgent.cpp:950-962 | a duty cycle notes a reset of the closing marks, once, and leaves no session marked, if and only if it joins as leader |
| Joins.JoinsAsAsked | src/service/ClusteredServiceAgent.cpp:838-861 | what a run joins is what the consensus module asked for last; it joins as leader if and only if that message had role code 2 |
| Joins.RoleIsToldOnce | src/service/ClusteredServiceAgent.cpp:465-482 | in any run the agent's role is the one the service was told last, and the service is told of a role only when it is another one |
| Invariants.CloseAnswered | src/service/ClusteredServiceAgent.cpp:410-434 | by the journal: the service is answered that a session is closing if and only if a committed request is on its way; that nothing was sent if and only if the claim gave up; and each exception exactly in its case |
| Invariants.TickRate | src/service/ClusteredServiceAgent.cpp:545-547 | k ticks span at least (k - 1) * 1,000,001 ns |
| TickTimes.TicksWhenDue | src/service/ClusteredServiceAgent.cpp:537-581 | a duty cycle polls the service adapter, once and at its own time, if and only if no snapshot holds it up, more than a millisecond has passed since the last tick, and nothing needed is closed |
| TickTimes.TicksAreDue | src/service/ClusteredServiceAgent.cpp:314-345 | over any run the times of those polls are exactly those of the cycles in which they were due |
| DutyCycles.ClockExactly | src/service/ClusteredServiceAgent.cpp:537-581 | which closed counterpart ends a cycle and in which order; a closed Aeron is remembered |
| DutyCycles.ToldExactly | src/service/ServiceAdapter.cpp:32-90 | what each message of the consensus module changes, and the two exceptions |
| DutyCycles.JoinsExactly | src/service/ClusteredServiceAgent.cpp:881-966 | a join goes on as far as it finds what it needs; it fails exactly where the image, else the event, is not at the log position or the ack is refused; else it takes image, limit, member and role of the event, takes all closing marks off exactly for a leader, and calls the service exactly for a new role |
| DutyCycles.TicksExactly | src/service/ClusteredServiceAgent.cpp:662-708 | after the message, a join that comes about or fails is all there is to a tick; else a requested position the log has reached is acknowledged if the claim is granted |
| DutyCycles.PollsExactly | src/service/BoundedLogAdapter.h:42-45 | any poll over any frames reads on until it must stop and no further; it has applied exactly what replaying the messages completed in it comes to, once each and in order, a snapshot being due anew exactly if one asked for it; it fails exactly where that replay does |
| DutyCycles.CyclePollsLog | src/service/ClusteredServiceAgent.cpp:335-344 | every cycle that no snapshot holds up and that does not fail polls the log, from the image it joins or, unless a new join was asked for, the one there was, as far as a poll goes |
| DutyCycles.ClosesExactly | src/service/ClusteredServiceAgent.cpp:335-344 | the image is dropped in exactly the cycles that read nothing of it while it is at its limit, at its end, or closed; then the position is at least its own and the agent a follower |
| Invariants.FreshAgent | src/service/ClusteredServiceAgent.cpp:293-312 | a new agent has the invariant |
| RequestedAcks.PendingUntilAcked | src/service/ClusteredServiceAgent.cpp:691-705 | a duty cycle takes nothing back; a pending requested position stays pending until a plain ack is published or the request itself is withdrawn; after a plain ack nothing is pending but what was asked for since; all acks of a cycle carry the log position it started at |
| RequestedAcks.CycleCounts | src/service/ClusteredServiceAgent.cpp:662-708 | a cycle publishes exactly these plain acks: one for a join that has all it needs at the log position, or else one for a requested position the log has reached, in a tick and where the claim is granted; and that of a recording without an id; with what is then pending |
| RequestedAcks.AcksAreAskedFor | src/service/ClusteredServiceAgent.cpp:347-361 | over any run the plain acks that are no join's and no such recording's are at most as many as the positions asked for |
| Snapshots.LoaderAccepts | src/service/ServiceSnapshotLoader.cpp:34-122 | loading is done if and only if up to the first END all is readable and there is exactly one BEGIN; every session recorded before that END, even before BEGIN, is added in order; the cursor is right behind END |
| Snapshots.LoaderFailsExactly | src/service/ServiceSnapshotLoader.cpp:34-122 | loading fails at a message if and only if that is the first of a foreign schema, of another snapshot type, a second BEGIN, or an END without BEGIN, and with that exception |
| Snapshots.SnapshotRoundTrip | src/service/ClusteredServiceAgent.cpp:516-535 | loading what was written rebuilds the identical table and leaves whatever the service wrote behind END unread |
| Snapshots.WrittenSnapshot | src/service/ClusteredServiceAgent.cpp:521-534 | what is written ends at its own END and holds exactly the sessions it was written from |
| Snapshots.PollIsPartOfLoad | src/service/ServiceSnapshotLoader.h:29-32 | polling in chunks of any size gets to the same place as loading in one go |
| Snapshots.AddAllAgreesIffNew | src/service/ClusteredServiceAgent.cpp:745-754 | the table after loading is in agreement if and only if all loaded ids are new and distinct |
| Snapshots.AddAllAppends | src/service/ClusteredServiceAgent.cpp:271-284 | sessions added in ascending order come out as the vector they were written from |
| SnapshotFreeze.FreezeUntilAck | src/service/ClusteredServiceAgent.cpp:319-327 | over any run from the write of the state on: to the end nothing has moved and the publication grew by exactly what the service wrote, or so it was until the duty cycle that acknowledged the recording at that very position |
| SnapshotFreeze.WrittenStep | src/service/ClusteredServiceAgent.cpp:598-660 | each input leaves all but the snapshot and close requests as it was and adds exactly the service's own writes to the publication, or acknowledges the recording before polling anything |
| SnapshotFreeze.RunKeepsSnapshot | src/service/ClusteredServiceAgent.cpp:622-634 | in every run, whenever the recording is known its publication is exactly BEGIN, one record per session, END, of the state as it stands, then what the service wrote in the duty cycles since |
| SnapshotFreeze.AcknowledgedWhole | src/service/ClusteredServiceAgent.cpp:583-660 | the duty cycle that acknowledges a recording, in any run, leaves in the publication exactly BEGIN, one record per session, END and the service's own writes; BEGIN, END and the ack carry the same log position; the service has said, in that cycle or before, that its part is complete, and the recording has caught up |
| SnapshotFreeze.AcknowledgesExactly | src/service/ClusteredServiceAgent.cpp:598-660 | a cycle acknowledges the recording if and only if the state is out, the service's part was complete or is now, the recording has caught up, and the claim is granted |
| SnapshotFreeze.WorksExactly | src/service/ClusteredServiceAgent.cpp:598-660 | what any cycle makes of a snapshot under way: what is found, the one call of the service, the ack and its fields, and the exact exception of archive, publication and consensus module; nothing else moves |
| SnapshotFreeze.CompleteIsFinished | src/service/ClusteredServiceAgent.cpp:635-645 | in any run the service's part is taken for complete if and only if the service has said so since the state was out |
| SnapshotFreeze.RetryAcknowledgesTornSnapshot | src/service/ClusteredServiceAgent.cpp:622-660 | were the agent run on after a refused offer, however the work is retried: nothing moves until a duty cycle acknowledges a recording of what had been taken with the service's writes behind it, which starts with the state if and only if the service itself writes what is missing; the first cycle in which service and recording are done does |
| Publications.BoundedClaim | src/service/ConsensusModuleProxy.h:101-119 | a claim is granted exactly when one of three attempts is, all before it told to retry; fails hard exactly when one is fatal first; else gives up after the third |
| Publications.OffersExactly | src/service/SnapshotTaker.h:142-157 | as many messages are taken, in order, as there are positive results before the first fatal one, up to all: a message pushed back is offered again; the exception is that first fatal result, if and only if it comes before the last message is taken; and offers go on if and only if neither has come |
| StartupProofs.StepNeverGoesBack | src/service/ClusteredServiceAgent.cpp:106-258 | over any startup the step never decreases |
| StartupProofs.StartedOnlyRecovered | src/service/ClusteredServiceAgent.cpp:236-245 | whenever the service has been started, there was no snapshot, or one with a single BEGIN was read to its END and its sessions are the table |
| StartupProgress.ReturnedOnFirstAck | src/service/ClusteredServiceAgent.cpp:247-255 | when the agent is first returned, the service has said in a poll at step 3 that it has started, it was called once in each such poll, the agent is recovered, and exactly one ack was published, with id 0, for the client, at the recovered position and time |
| StartupProgress.CalledUntilStarted | src/service/ClusteredServiceAgent.cpp:236-255 | over any startup: the service has been called exactly once in every poll that came upon step 3; step 4 is reached if and only if in one of these it said it has started; the agent was returned, with one ack each, in exactly the polls that came upon step 4 and had their claim granted |
| StartupProgress.ConnectedWhenAllFound | src/service/ClusteredServiceAgent.cpp:108-159 | a startup has left step 0 if and only if some poll was connected when each of the five parts had been found, in it or before |
| StartupProgress.TakesExactly | src/service/ClusteredServiceAgent.cpp:161-188 | position, time and term are those of the recovery counter; without a term straight to the service; else to the replay, unless the service has no entry, the counter is gone, or the archive refuses, each with its exception |
| StartupProgress.ReplaysExactly | src/service/ClusteredServiceAgent.cpp:190-234 | waits for the replay's subscription and image, polls at most ten fragments at a time, and leaves in the poll after END; the exact exceptions of loader, archive and a closed image |
| StartupProgress.CloseAskedExactly | src/service/ClusteredServiceAgent.cpp:410-434 | a session the service asks to close while it is being started is closed as at any other time; nothing else of the startup moves |
| StartupProgress.StartsInPolls | src/service/ClusteredServiceAgent.cpp:106-258 | a startup that is given everything as soon as it looks returns the agent in poll number end / 10 + 5, end being the place of END in the snapshot, and in none before |
| StartupProofs.ConnectKeeps | src/service/ClusteredServiceAgent.cpp:190-234 | every startup keeps: the agent's table is what the loader has made of the image so far; step 3 comes only behind END or without a snapshot; acks are sent only where the agent is returned |
| Counters.FindRecoveryCounter | src/service/RecoveryState.cpp:10-34 | answers the first allocated match with no unused record before it, and none exactly when there is none |
| Counters.FindClusterCounter | src/service/ClusterCounters.cpp:28-48 | answers the first allocated match with no unused record before it, and none exactly when there is none |
| Counters.FindsLowestIffNoneUnusedBefore | src/service/ClusterCounters.cpp:41-44 | a search answers the lowest match in the searched range if and only if no unused record precedes it |
| Counters.SearchIsCompleteWhenDense | src/service/RecoveryState.cpp:14-31 | where unused records only come last the lowest match is answered, and none exactly when none exists |
| Counters.RecoveryCounterRead | src/service/RecoveryState.cpp:36-95 | the getters read back what the recovery counter's key holds; a service id out of range or an inactive counter is an error |
| ClientSessions.FindLowerBound | src/service/ClusteredServiceAgent.cpp:276-282 | binary search of the object vector finds the lower bound |
| ClientSessions.FindById | src/service/ClusteredServiceAgent.cpp:761-763 | linear search of the object vector finds the first with the id |
| ClientSessions.ContainerClientSession.MarkClosing | src/service/ContainerClientSession.h:47-50 | sets the closing mark |
| ClientSessions.ContainerClientSession.ResetClosing | src/service/ContainerClientSession.h:52-55 | takes the closing mark off |
| Proxy.ConsensusModuleProxy.TryClaim | src/service/ConsensusModuleProxy.h:101-119 | the loop claims as the bounded claim says |
| Proxy.ConsensusModuleProxy.Claim | src/service/ConsensusModuleProxy.h:121-137 | commits the request exactly when it was claimed, and nothing otherwise |
| Proxy.ConsensusModuleProxy.Ack | src/service/ConsensusModuleProxy.h:82-94 | one service ack with exactly these fields, or none |
| Proxy.ConsensusModuleProxy.CloseSession | src/service/ConsensusModuleProxy.h:74-80 | one close request, or none |
| SnapshotWriter.ServiceSnapshotTaker.Offer | src/service/SnapshotTaker.h:142-157 | the message is in the publication if and only if some result is positive with only push-backs before it, and the results behind that one are left; refused if and only if one is fatal with only push-backs before it, with that result |
| SnapshotWriter.ServiceSnapshotTaker.MarkSnapshot | src/service/SnapshotTaker.h:83-140 | offers one marker |
| SnapshotWriter.ServiceSnapshotTaker.SnapshotSession | src/service/ServiceSnapshotTaker.h:23-44 | offers one record of the session |
| SnapshotWriter.WriteSnapshot | src/service/ClusteredServiceAgent.cpp:516-535 | BEGIN, one record per session in the vector's order, END go out, as far as the offers are taken |
| SnapshotWriter.OfferFirst | src/service/SnapshotTaker.h:142-157 | offering messages in a row is offering the first, then the others with the results left |
| Container.ClusteredServiceAgent.constructor | src/service/ClusteredServiceAgent.cpp:293-312 | a new agent has no sessions, follows, and has acknowledged nothing |
| Driver.Drive | src/service/ClusteredServiceAgent.cpp:314-345 | the objects driven over any sequence of duty cycles and close requests end in the very state of the machine's run, and so keep the invariants, the numbering of acks and the exact snapshot contents; vector and map then hold the same objects |
| Driver.DriveStartup | src/service/ClusteredServiceAgent.cpp:106-258 | the connector driven over any sequence of polls and close requests ends in the very state of the startup machine, so that what is proved of every startup holds of the objects; it answers the agent if and only if one of these polls returned it; the agent has the run invariant if and only if the ids read from the snapshot are distinct, and then vector and map hold the same objects |
| Container.ClusteredServiceAgent.SameObjects | src/service/ClusteredServiceAgent.cpp:271-284 | where the table agrees, vector and map hold the very same objects |
| Container.ClusteredServiceAgent.AddSession | src/service/ClusteredServiceAgent.cpp:271-284 | the new object goes into the vector at the lower bound and into the map unless its id is there |
| Container.ClusteredServiceAgent.RemoveSession | src/service/ClusteredServiceAgent.cpp:756-775 | the id leaves the map, the first object with it the vector, and is answered |
| Container.ClusteredServiceAgent.RestoreSession | src/service/ClusteredServiceAgent.cpp:745-754 | a session of a snapshot is added without a look at its id |
| Container.ClusteredServiceAgent.OnSessionMessage | src/service/ClusteredServiceAgent.h:302-318 | position and time move; an open session's message reaches the service, any other is dropped |
| Container.ClusteredServiceAgent.OnTimerEvent | src/service/ClusteredServiceAgent.cpp:451-457 | position and time move and the service is told |
| Container.ClusteredServiceAgent.OnSessionOpen | src/service/ClusteredServiceAgent.cpp:710-743 | a new session is added and told; an open one fails, with position and time moved |
| Container.ClusteredServiceAgent.OnSessionClose | src/service/ClusteredServiceAgent.cpp:777-801 | the session is removed and told; an unknown one fails, with position and time moved |
| Container.ClusteredServiceAgent.OnServiceAction | src/service/ClusteredServiceAgent.cpp:809-820 | position and time move; a snapshot action starts a new snapshot, dropping one under way |
| Container.ClusteredServiceAgent.OnNewLeadershipTermEvent | src/service/ClusteredServiceAgent.cpp:363-398 | term, position and time move and the service is told |
| Container.ClusteredServiceAgent.OnMembershipChange | src/service/ClusteredServiceAgent.cpp:822-836 | position and time move |
| Container.ClusteredServiceAgent.Ack | src/service/ClusteredServiceAgent.cpp:347-361 | an ack with the next id exactly when claimed; a failed claim changes nothing; an ack without relevant id clears the requested position |
| Container.ClusteredServiceAgent.ChangeRole | src/service/ClusteredServiceAgent.cpp:465-482 | the service is told of a new role and of nothing else |
| Container.ClusteredServiceAgent.CloseLog | src/service/ClusteredServiceAgent.cpp:400-408 | the position becomes at least the image's, the image goes, the agent follows |
| Container.ClusteredServiceAgent.CloseClientSession | src/service/ClusteredServiceAgent.cpp:410-434 | the mark is set on the session's object exactly when a request was committed; marked sessions send none; unknown ids and lifecycle callbacks are refused |
| Container.ClusteredServiceAgent.ResetClosing | src/service/ClusteredServiceAgent.cpp:950-962 | no session of the table is marked any more |
| Container.ClusteredServiceAgent.OnJoinLog | src/service/ClusteredServiceAgent.cpp:838-861 | the image is dropped and a fresh join is pending |
| Container.ActiveLogEvent.Resolve | src/service/ClusteredServiceAgent.cpp:889-921 | subscription, then image, each as far as it can be found |
| Container.ClusteredServiceAgent.JoinActiveLog | src/service/ClusteredServiceAgent.cpp:881-966 | joins only an image and an event at the log position, else fails; acks, takes the member id, resets closing marks of a leader, changes role |
| Container.ClusteredServiceAgent.CheckForClockTick | src/service/ClusteredServiceAgent.cpp:537-581 | a tick where more than a millisecond has passed; a closed client or commit position fails |
| Container.ClusteredServiceAgent.PollServiceAdapter | src/service/ClusteredServiceAgent.cpp:662-708 | one message, then the pending join, then the requested ack |
| Container.ClusteredServiceAgent.PollLog | src/service/ClusteredServiceAgent.cpp:335-344 | a bounded poll; an image read to its end and done is closed |
| Container.ClusteredServiceAgent.DoWork | src/service/ClusteredServiceAgent.cpp:314-345 | one duty cycle does to the objects exactly what the state machine says |
| Container.ServiceAdapter.OnFragment | src/service/ServiceAdapter.cpp:32-90 | dispatches join, termination and ack requests; an unknown role or schema fails |
| Container.BoundedLogAdapter.OnMessage | src/service/BoundedLogAdapter.cpp:54-209 | dispatches each template to its handler, with the principal blanked |
| Container.BoundedLogAdapter.OnLastFragment | src/service/BoundedLogAdapter.cpp:232-249 | the joined message goes to the handler; an abort takes the last part back out of the builder |
| Container.BoundedLogAdapter.OnFragment | src/service/BoundedLogAdapter.cpp:211-264 | the builder, the agent and the answer are those of the state machine |
| Container.BoundedLogAdapter.Poll | src/service/BoundedLogAdapter.h:42-45 | at most the fragment limit below the bound, stopping at aborts and exceptions without consuming |
| Container.SnapshotState.WriteState | src/service/ClusteredServiceAgent.cpp:622-634 | the state of the moment goes into the publication, and the recording is noted before |
| Container.SnapshotState.AskService | src/service/ClusteredServiceAgent.cpp:635-645 | the service is asked until its part is complete |
| Container.SnapshotState.DoWork | src/service/ClusteredServiceAgent.cpp:598-660 | one step of a snapshot, done exactly when the recording is acknowledged; an error of the archive ends it |
| Connector.ServiceSnapshotLoader.OnFragment | src/service/ServiceSnapshotLoader.cpp:34-122 | BEGIN, session records and END, each with its error cases; a session is in the agent at once |
| Connector.ServiceSnapshotLoader.Poll | src/service/ServiceSnapshotLoader.h:29-32 | at most ten fragments, ending at END or an exception; agent and loader in step |
| Connector.AsyncConnect.FindParts | src/service/ClusteredServiceAgent.cpp:108-141 | looks for what has not been found yet and keeps what has |
| Connector.AsyncConnect.TakeRecoveryState | src/service/ClusteredServiceAgent.cpp:161-188 | position, time and term of the recovery counter; without a term straight to the service, with one to the replay, which the archive may refuse |
| Connector.AsyncConnect.ReplaySnapshot | src/service/ClusteredServiceAgent.cpp:190-234 | subscription, image, and one poll of the loader until END; an image closed too early fails, as does an error of the archive |
| Connector.AsyncConnect.StartService | src/service/ClusteredServiceAgent.cpp:236-245 | the service is called with the snapshot's image or none, until it says it has started |
| Connector.AsyncConnect.AckStart | src/service/ClusteredServiceAgent.cpp:247-255 | the agent is active exactly when the ack was claimed |
| Connector.AsyncConnect.Poll | src/service/ClusteredServiceAgent.cpp:106-258 | one poll does to the objects exactly what the startup machine says, and answers the agent exactly when it became active |

## Left out

- Frames and messages are decoded by a function given with the agent; SBE layouts, template numbers, header lengths and version checks are not part of this model.
- The library assembler that `src/service/BoundedLogAdapter.cpp:40-41` puts in front of `onFragment`: frames are handed to `onFragment` directly.
- Exceptions a library poll would catch and hand to an error handler: they leave the poll and end the agent.
- `Container.BoundedLogAdapter.OnMessage`: no handler of the container ever aborts; whether a message is accepted is decided from outside so that aborts are covered.
- `SnapshotWriter.ServiceSnapshotTaker.Offer`: a retry that never ends is an offer that has not returned when the known results run out.
- `Container.ClusteredServiceAgent.CloseClientSession`: a service calling it inside a callback is modelled as calling it right after; the check for lifecycle callbacks is an input.
- `Connector.ServiceSnapshotLoader.Poll`: the image of a replay, like that of a log, is a value with a cursor; that two parts of the container hold the same image object is not captured.
- `Proxy.ConsensusModuleProxy.Claim`: timers and member removal go through the same claim and are not modelled one by one.
- Integers are unbounded; positions and ids of 64 bits do not wrap.
- `terminate`, `offer` and version validation are stubs in the code; a termination position is stored and has no effect.
- `connect` and `disconnect` of a session's response publication, and the `isRespondingService` switch before them.
- `onUnavailableCounter`, which drops the commit position.
- The deadline of the mark file, the agent invoker, channel aliases and logging.
- The whole of `src/client`, the mark file, configuration and the main programs.
- Threads: the agent is driven by one duty-cycle loop.
