# Kontiki: verified model

Kontiki runs services that exchange events and RPC calls over RabbitMQ, and a registry that knows
which of their instances are alive. Almost everything it promises is about whole runs of steps that
interleave at will. This project models those parts in Dafny and proves the promises for every run,
every input and every configuration.

| file | what it models |
|---|---|
| `Broker.dfy`, `Whereabouts.dfy`, `EventTasks.dfy`, `Settlement.dfy`, `CallTrace.dfy`, `FailedMessages.dfy` | the handling of one delivery, the work queue and the failed queue of a competing event, and the registry calls that list, replay and drop retained messages |
| `RegistryState.dfy`, `RegistryServer.dfy`, `RegistryHistory.dfy`, `Ordering.dfy` | registration, heartbeats, tracked statuses, the published stream, and the views over them |
| `HeartbeatTiming.dfy`, `HeartbeatPublisher.dfy` | heartbeats over time and the loop that sends them |
| `Rpc.dfy`, `RpcExchange.dfy`, `Serialization.dfy`, `Base64.dfy` | calls across an unreliable network, and the tagged JSON codec their values cross |
| `Topology.dfy`, `Entrypoints.dfy`, `Deployment.dfy` | queue names, bindings and routing keys; arming of event handlers and the registered catalogue; and that a deployed fleet consumes what routing and the registry say |
| `HandlerScope.dfy`, `Tracing.dfy`, `MessageChains.dfy` | handler contexts, stamped headers, and how flows and hops thread through the mesh |
| `InFlight.dfy`, `Shutdown.dfy`, `ShutdownProgress.dfy`, `Container.dfy` | the graceful stop against deliveries and handlers that go on |
| `Configuration.dfy`, `ConfigurationMerge.dfy`, `Dictionaries.dfy` | configuration files merged in place, and the dotted lookup |
| `ActivityTracking.dfy` | the activity timeline and its retention |

Most parts come in two layers. A state and a step function say what one atomic step does; a run is a
sequence of steps, and the main results are lemmas over all runs. Beside it a class has the methods of
the source, loops and updates in place included, and each method is proved to take exactly the step,
or the run of steps, of the specification.

What surrounds the modelled code becomes a step or a parameter: the clock, generated ids, the outcome
of each interaction with the broker, and what other parties do during an await. About the broker the
model assumes that a reject counts as an attempt and a nack does not, that a closed channel gives back
what it held in its place, that the transfer to the failed queue happens exactly once, and that a full
failed queue makes the copy wait.

Where the source and its documentation differ, the model follows the source:

- A newly registered instance is documented as down until its first heartbeat. Heartbeats are not
  forgotten when an instance unregisters, so this holds for ids never seen before
  (`DownUntilFirstHeartbeat`). `DownAfterRegistration` says exactly when it holds for others, and
  `StatusOnReturn` is a run in which it does not.
- A message whose body is no JSON is retained like any other failing one. From then on the list raises when
  it takes this message, and a replay stops in front of it with no interaction failing
  (`ListFailedMessages`, `ReplayFailedMessages`).
- A parameter looked up without default in an empty configuration is the module's sentinel object,
  not an error (`GetParameter`).
- `is_live` and `list_instances` disagree on a registered service with a blank name (`ViewsAgree`).
- A registration whose instance id is a list or a mapping leaves an empty entry for its service
  (`EmptyEntries`), which only the last instance of a later registration takes away with it.
- One item whose timestamp compares with no date stops the purge of its list, and of the exceptions
  list when it is in the timeline (`Cleanup`, `PurgesAreOnePurge`).
- A session handler and a broadcast handler of one instance for one event share a queue, so the session
  handler competes for plain publications too (`SessionQueueShared`).

## Model

| member | source | states |
|---|---|---|
| `Broker.DeliveryLimit` | kontiki/messaging/consumer/core.py:233-245 | A work queue is declared exactly when max_attempts is at least 1, and its delivery limit is one less. |
| `Broker.CopyStepInv` | kontiki/messaging/consumer/core.py:240-254 | One step of a queue pair (delivery, ack, reject, return, due retry, dead-lettering, get, ack or nack by an admin call), enabled or not, keeps every copy in exactly one place, with at most the limit of rejects before the failed queue and exactly one more than the limit after it. |
| `Broker.FailedQueueStep` | kontiki/messaging/consumer/core.py:209-223 | Dead-lettering, get, ack and nack keep the number of places of a copy past its last attempt; with a full failed queue the copy waits before it. |
| `Broker.ReleaseInv` | kontiki/registry/server/core.py:303-304 | Closing an admin channel loses and duplicates no copy: what it held goes back to its place. |
| `Broker.ApplyInv` | kontiki/messaging/consumer/core.py:193-206 | A publication adds exactly one copy per bound service; every action keeps the invariant of all queue pairs. |
| `Broker.ExecInv` | kontiki/messaging/consumer/core.py:209-257 | Every run of publications, deliveries, handler outcomes, shutdown nacks and interleaved admin steps keeps the invariant. |
| `Broker.AttemptsAreRejections` | kontiki/messaging/consumer/event.py:110-178 | Over every run the attempts the broker counts for a copy are its rejected deliveries, whatever else interleaves; nacks of a service that shuts down do not count. |
| `Broker.DeliveriesSettledOnce` | kontiki/messaging/consumer/event.py:141-178 | Over every run the deliveries of a copy are its acks, rejects and returns, plus the delivery a handler still holds: each delivery is settled once. |
| `Broker.Retention` | kontiki/messaging/consumer/core.py:156-254 | From the start, for every max_attempts of at least 1 and every run: each publication has one copy per bound service in exactly one place, it never fails more often than max_attempts, and it is past its last attempt if and only if it failed exactly that often. |
| `Whereabouts.EveryCopyAccounted` | kontiki/messaging/consumer/event.py:110-178 | Over every run from the start, where a copy is follows from the steps on it. It enters the work queue once by its publication, and again by each return and each due retry; each reject delays it but the last one allowed, which sends it to the failed queue; it is done exactly when it was acked; and it is in the failed queue until an admin call replayed or dropped it. |
| `Whereabouts.NeverStranded` | kontiki/messaging/consumer/core.py:209-254 | Over every run, a published copy that was neither acked nor rejected max_attempts times is with its handler, deliverable, or deliverable once its retry is due; one rejected so often and not yet removed waits for room in the failed queue or can be taken or settled there; both exactly. A copy that was acked is never delivered again. |
| `EventTasks.OnEventTask.OnMessage` | kontiki/messaging/consumer/event.py:110-178 | A delivery during a shutdown is nacked untouched. Any other runs in a scope of its own, which is left again however the handler ends: acked exactly when the body was read and the handler completed, rejected with the requeue flag of the task when decoding or the handler raised or the handler was cancelled. Exactly exceptions are reported, from inside the scope. |
| `EventTasks.OnEventTask.Process` | kontiki/messaging/consumer/event.py:156-176 | An unreadable body never reaches the handler, and is rejected and reported like a failing handler. |
| `EventTasks.SettlementSteps` | kontiki/messaging/consumer/event.py:110-178 | What a handler's settlement does to its work queue: an ack ends the copy, a nack makes it ready again, and a reject alone burns an attempt. |
| `FailedMessages.RegistryCore.ReplayFailedMessages` | kontiki/registry/server/core.py:274-304 | Replay takes all its messages, the oldest waiting ones, before it publishes the first, so that none of them was published by this very call; as many as asked for, or until a query found none. Then it publishes the original body of each and removes it after its publication, one after the other. When no interaction fails it succeeds if and only if every taken body is JSON. Otherwise the first interaction that fails or the first body that is no JSON decides exactly what was published and removed: the complete rounds, the publication of a round whose removal failed, and whatever an unconfirmed interaction still did; the rest waits in its place. The trace is exactly the interactions of the call between the steps of others. While no other admin call interferes, what arrives meanwhile stays behind, untouched. |
| `FailedMessages.RegistryCore.DropFailedMessages` | kontiki/registry/server/core.py:306-327 | Drop takes and removes the oldest messages one by one, as many as asked for or until a query finds none, publishes nothing, and returns their number when no interaction fails. Otherwise the complete rounds before the failing interaction are exactly what left, and one message more when that was an unconfirmed removal. The trace is exactly the interactions of the call between the steps of others. |
| `FailedMessages.RegistryCore.ListFailedMessages` | kontiki/registry/server/core.py:253-272 | List returns the number of waiting messages and the bodies of the oldest ones. When no interaction fails it succeeds if and only if all these bodies are JSON, and it takes nothing after the first that is not. In any case the queue is afterwards as if nobody had looked, new arrivals behind. |
| `FailedMessages.RegistryCore.TakeWaiting` | kontiki/registry/server/core.py:280-289 | The loop that takes messages holds exactly the taken ones, oldest first, by queries alone. It goes on until it has enough or a query finds none, and stops early exactly at the first query that fails, which may still have taken its message, or in list at the first body that is no JSON. |
| `FailedMessages.RegistryCore.ReplayOne` | kontiki/registry/server/core.py:291-295 | One round publishes the first held message and then removes it. It is published unless the publication was refused, removed when the publication went well and the removal was not refused, and the round goes well exactly when both did. |
| `FailedMessages.RegistryCore.RepublishAll` | kontiki/registry/server/core.py:290-296 | The replay loop publishes and removes the taken messages in order; the first interaction that fails, or the first body that is no JSON, decides exactly how many of them. |
| `FailedMessages.RegistryCore.DropOne` | kontiki/registry/server/core.py:312-317 | One round takes the oldest message and removes it; what it takes and removes is fixed by how its two interactions end. |
| `FailedMessages.RegistryCore.DropAll` | kontiki/registry/server/core.py:312-318 | The drop loop removes the oldest messages in order, two interactions each; the first interaction that fails decides exactly how many. |
| `FailedMessages.RegistryCore.NackAll` | kontiki/registry/server/core.py:268-269 | The loop of list gives the held messages back one by one, each to its own place; none is held after it when nothing fails. |
| `FailedMessages.ReplayTakesFirst` | kontiki/registry/server/core.py:280-296 | However others interleave, in the trace of a replay every query comes before every publication, so that a replayed message that fails again is not taken again. |
| `FailedMessages.TakenNotOwn` | kontiki/registry/server/core.py:280-289 | In every state of a call that has published nothing, none of the messages it holds is its own publication. |
| `FailedMessages.ForeignRun` | kontiki/registry/server/core.py:253-327 | Whatever publishers, handlers, the broker and other admin calls do in between, a call still holds exactly the messages it took, and what it settled stays settled. |
| `FailedMessages.OrderedForeign` | kontiki/registry/server/core.py:291-295 | Whatever other parties do, they keep the order of the trace in which a call removes a message only after it published it. |
| `FailedMessages.WorkingRun` | kontiki/registry/server/core.py:278-280 | While no other admin call interferes, a failing replayed message only joins the tail: the queue stays the one the call saw at first, extended behind. |
| `FailedMessages.GetViewing` | kontiki/registry/server/core.py:285-289 | A get takes the oldest message nobody holds. |
| `FailedMessages.CloseViewing` | kontiki/registry/server/core.py:303-304 | After the channel is closed the queue is the one found at first and the new arrivals, without the settled messages, in the same order. |
| `RegistryState.SubscriberInSync` | kontiki/registry/server/core.py:98-146 | For every run with accepted publications, a subscriber that folds the published stream holds exactly the tracked statuses, and every status change it saw started from the value it held and differed from it. |
| `RegistryState.InStepThroughout` | kontiki/registry/server/core.py:98-146 | For every run, with any publications lost: the subscriber holds exactly the tracked statuses at every moment, and saw only true changes, if and only if no step parted them. |
| `RegistryState.StepSync` | kontiki/registry/server/core.py:98-146 | For every handler the exact condition that parts a subscriber in step: a heartbeat or a pass that changes an untracked status or whose change is lost. No registration or unregistration does, lost or not. |
| `RegistryState.PassSync` | kontiki/registry/server/core.py:143-146 | A pass keeps the subscriber in step if and only if none of its refreshes parts them. |
| `RegistryState.RefreshSync` | kontiki/registry/server/core.py:116-141 | A refresh parts the subscriber from the tracked statuses if and only if it changes a status that was not tracked or whose change was not accepted. |
| `RegistryState.LostChange` | kontiki/registry/server/core.py:128-141 | A heartbeat that revives a tracked instance leaves the subscriber in step if and only if its publication is accepted; otherwise the registry tracks active and the subscriber holds down. |
| `RegistryState.ReachableWellFormed` | kontiki/registry/server/delegates/heartbeat_manager.py:47-64 | In every reachable state, whatever messages came, the degraded list has no repeats and every reason belongs to a degraded instance. |
| `RegistryState.EmptyEntries` | kontiki/registry/server/delegates/registry.py:33-43 | In every reachable state a service has an entry without instances if and only if a registration with an unhashable instance id came while it had none, and no instance of it registered since: the lookup in the defaultdict creates the entry before the assignment raises. |
| `RegistryState.StepEmpties` | kontiki/registry/server/delegates/registry.py:38-73 | One handler leaves an entry empty exactly when it was and no instance registered, or when it created the entry for an unhashable instance id. |
| `RegistryState.InstancesChange` | kontiki/registry/server/delegates/registry.py:28-78 | Registering adds exactly one instance, unregistering removes exactly one, and a service without instances disappears. |
| `RegistryState.KnownHasCause` | kontiki/registry/server/delegates/heartbeat_manager.py:40-68 | Every heartbeat or degraded key has a registration and a heartbeat after it in the run. |
| `RegistryState.DownUntilFirstHeartbeat` | kontiki/registry/server/core.py:159-173 | In every run an instance is down until a heartbeat that follows its first registration. |
| `RegistryState.DownAfterRegistration` | kontiki/registry/server/core.py:98-102 | Heartbeats outlive an unregistration: a registered instance is down right away if and only if no heartbeat of it is remembered or the remembered one is late. The documentation promises down for every newly registered instance. |
| `RegistryState.StatusOnReturn` | kontiki/registry/server/core.py:98-114 | A run in which an instance that beat, left and registers again is active, or degraded, right away, for as long as its old heartbeat is not late, while every subscriber takes it for down. |
| `RegistryState.PassTracksAll` | kontiki/registry/server/core.py:143-146 | After an accepted pass over all instances the tracked status of each is its current status, in whatever order the pass went. |
| `RegistryHistory.RegistryHoldsHistory` | kontiki/registry/server/core.py:159-180 | Over every run, what the registry holds about an instance in its common lists and dictionaries is what the messages of that instance alone said, whatever all other instances sent. |
| `RegistryHistory.StatusTold` | kontiki/registry/server/core.py:159-209 | Over every run, a registered instance is down exactly when no heartbeat of it was heard while registered or the last one is older than three intervals (ten seconds each if it gave none), and otherwise degraded exactly when the last one said so. Its row shows that heartbeat and the last reason given since it was not degraded. |
| `RegistryHistory.RegisterAgainAsked` | kontiki/registry/server/delegates/heartbeat_manager.py:70-96 | Over every run, an instance is asked to register again once for each heartbeat that came while it was not registered, after the grace period, with the request accepted; in their order, and for nothing else. |
| `RegistryHistory.StreamTellsWhoIsThere` | kontiki/registry/server/core.py:98-114 | When publications are accepted, the published stream tells its subscribers of exactly the registered instances. |
| `RegistryHistory.HeartbeatAnnounces` | kontiki/registry/server/core.py:116-141 | A heartbeat of a tracked instance announces the status it brings, once, with the reason it gave if it is degraded, and announces nothing when the status stays. |
| `RegistryServer.ServiceRegistryCore.HandleRegister` | kontiki/registry/server/delegates/registry.py:28-43 | A proper registration is stored, announced and tracked as down. One with an unhashable instance id leaves an empty entry for a service that had none, and an unreadable one changes nothing. |
| `RegistryServer.ServiceRegistryCore.HandleUnregister` | kontiki/registry/server/delegates/registry.py:45-78 | The instance is removed, with its service when it was the last one, and announced; an unknown one changes nothing. |
| `RegistryServer.ServiceRegistryCore.RefreshInstanceStatus` | kontiki/registry/server/core.py:116-141 | The object takes exactly the refresh step of the specification and raises exactly when a change could not be published. |
| `RegistryServer.ServiceRegistryCore.GetInstanceStatus` | kontiki/registry/server/core.py:159-180 | Down without a heartbeat or with a late one, else degraded or active. |
| `RegistryServer.ServiceRegistryCore.RefreshAllInstanceStatuses` | kontiki/registry/server/core.py:143-146 | The nested loops pass over registered instances only, and over all of them unless a change that cannot be published ends the pass. |
| `RegistryServer.ServiceRegistryCore.StoreHeartbeatOf` | kontiki/registry/server/delegates/heartbeat_manager.py:40-90 | The heartbeat of a known instance updates the degraded list, the reason and the time and refreshes the status; an unknown instance is asked to register again after the grace period. |
| `RegistryServer.ServiceRegistryCore.GetServices` | kontiki/registry/server/core.py:182-209 | Exactly the instances with the requested status, each with its row, and no empty service. |
| `RegistryServer.ServiceRegistryCore.ListInstances` | kontiki/registry/server/core.py:211-227 | The ids that are not down, in strictly ascending order; none for a name of white space. |
| `RegistryServer.ServiceRegistryCore.IsLive` | kontiki/registry/server/core.py:329-345 | Holds exactly for the registry itself and for a service with an instance that is not down. |
| `RegistryServer.ServiceRegistryCore.DeclaresCompetingEvent` | kontiki/registry/server/core.py:229-251 | Holds exactly when an instance that is not down registered the event as competing. |
| `RegistryServer.ListingsPartition` | kontiki/registry/server/core.py:182-209 | At one instant the listings by active, degraded and down partition the full listing, row by row. |
| `RegistryServer.LiveAreListed` | kontiki/registry/server/core.py:182-227 | At one instant the live instances of a service are those that the listings by active and by degraded show. |
| `RegistryServer.ViewsAgree` | kontiki/registry/server/core.py:182-251 | At one instant a service is live exactly when it is the registry itself or its instance list is not empty, but for a registered blank name; a declared competing event has a live instance. |
| `Ordering.SortMembers` | kontiki/registry/server/core.py:226-227 | Sorting distinct ids keeps exactly these ids, in strictly ascending order. |
| `Ordering.LessAtFirstDifference` | kontiki/registry/server/core.py:226-227 | The order of the sort is Python's: the first difference decides by code point, and a proper prefix comes first. |
| `HeartbeatTiming.NeverDownBetweenHeartbeats` | kontiki/registry/server/core.py:159-180 | Over any run of all handlers in which the instance keeps its interval, registering again included: an instance that sends every interval, loses at most k heartbeats in a row and has delays up to d is never down between two handled heartbeats when (k + 1) intervals and d fit into three registered intervals (ten seconds each when it registered none). |
| `HeartbeatTiming.Remembered` | kontiki/registry/server/delegates/heartbeat_manager.py:40-68 | Over any run of all handlers in which the instance stays registered, the heartbeat the registry remembers is the last one it handled. |
| `HeartbeatTiming.DownAfterTimeout` | kontiki/registry/server/core.py:159-180 | Over any run, the instance is down exactly from strictly after its last handled heartbeat plus three registered intervals. |
| `HeartbeatTiming.DownPublishedInTime` | kontiki/registry/server/service.py:32-34 | With a monitor pass at least every five seconds, an instance that stopped beating has been published as down at most five seconds after three intervals, and every subscriber holds it as down, whatever else was handled meanwhile. |
| `HeartbeatTiming.StaysDownAfter` | kontiki/registry/server/core.py:116-146 | Once a pass found a late instance down, nothing but its own heartbeat, unregistration or another interval changes that. |
| `HeartbeatPublisher.Publisher.SendHeartbeats` | kontiki/registry/client/heartbeat_publisher.py:72-131 | For every sequence of rounds, failing and interrupted ones included, each published heartbeat carries the degraded flag and the reason of its own evaluation, whatever the rounds before it left behind; only a cancellation of the task ends the loop. |
| `HeartbeatPublisher.Publisher.Follow` | kontiki/registry/client/heartbeat_publisher.py:81-101 | The degraded flag follows the evaluation in both directions, and a reason survives only with a true flag. |
| `HeartbeatPublisher.HeartbeatsSayConditions` | kontiki/registry/client/heartbeat_publisher.py:15-27 | The heartbeats of the loop are those of its published rounds, in order; each says what its own condition returned: its truth, and the reason of a true pair. |
| `HeartbeatPublisher.LoopIsRegular` | kontiki/registry/client/heartbeat_publisher.py:72-131 | The loop sleeps one interval per round, so that its heartbeats are interval plus working time apart at most: the regular ones of the timing results. |
| `Rpc.AcrossTheBus` | kontiki/messaging/consumer/rpc.py:139-168 | A returned value arrives as itself if and only if no mapping in it carries a true tag, and a mapping builds the response model of the call if it has one; an rpc_error arrives as a client error with its code and message; an exception arrives as server error INTERNAL_ERROR with its text. |
| `RpcExchange.CallGetsItsReply` | kontiki/messaging/publisher/messenger.py:249-324 | After every run, a call whose request is delivered and whose reply is handled before its time is over ends with the decoded result of its handler, read with its own response model, whatever all other calls do in between: an untagged value is returned, an RpcReturn of the handler's own counts by its success, and errors are raised with their code and text. |
| `RpcExchange.ReplyCompletes` | kontiki/messaging/publisher/messenger.py:157-178 | A reply completes a waiting call: the call ends with the decoded body and the model it was made with, or with the error of a body that cannot be read, and no other call is touched. |
| `RpcExchange.TimeoutCompletes` | kontiki/messaging/publisher/messenger.py:287-296 | A waiting call whose time is over ends with a timeout and leaves no entry, whether or not a reply comes before it wakes; a later reply changes nothing. |
| `RpcExchange.EntriesLeftBehind` | kontiki/messaging/publisher/messenger.py:249-296 | A call that could not publish and one whose caller gave up keep both entries; one whose reply cannot be read keeps its response model; a stopped messenger keeps none and ignores replies. |
| `RpcExchange.OneHandlerAtATime` | kontiki/messaging/consumer/rpc.py:106-183 | Over every run, an instance starts a handler for a correlation id only when it is not busy with it, is busy until that handler ends, and for good when the handler is cancelled: handlers started are those that ended and the one it is busy with. |
| `Rpc.CallsMeetTheirReplies` | kontiki/messaging/publisher/messenger.py:249-324 | Over every run with redelivered requests, lost, duplicate and late replies and timeouts: pending futures lie inside the response models, a call that timed out or got a readable reply is in neither map, and a call ended by a reply got the decoded reply of a handler that ran for its own correlation id. |
| `Rpc.EndsOnce` | kontiki/messaging/publisher/messenger.py:157-178 | A call ends at most once: the way it ended never changes later. |
| `Rpc.HandlersWereCalled` | kontiki/messaging/consumer/rpc.py:106-123 | A handler runs only for a correlation id that some call sent. |
| `Rpc.StepInv` | kontiki/messaging/publisher/messenger.py:157-178 | Every step of client, server and network keeps the invariant and the ends of calls. |
| `Rpc.Messenger.StartCall` | kontiki/messaging/publisher/messenger.py:249-285 | Both map entries exist before the request is published; a refused publication leaves them behind. |
| `Rpc.Messenger.HandleResponse` | kontiki/messaging/publisher/messenger.py:157-178 | A reply pops its own future and completes a call that still waits; an unknown correlation id changes nothing. |
| `Rpc.Messenger.TimeOutCall` | kontiki/messaging/publisher/messenger.py:287-291 | A timeout ends the wait for a pending future, and when it may be late also for one whose reply was not yet seen. |
| `Rpc.Messenger.FinishCall` | kontiki/messaging/publisher/messenger.py:287-324 | After its wait a call removes its entries and ends with the interpreted reply, the timeout, or the unreadable reply. |
| `Rpc.Messenger.StopMessenger` | kontiki/messaging/publisher/messenger.py:144-155 | Stopping empties both maps. |
| `Rpc.RpcTask.Accept` | kontiki/messaging/consumer/rpc.py:115-123 | A request whose correlation id is busy is dropped as a duplicate, one whose body is no readable mapping is dropped and its id is free again, and any other starts one handler. |
| `Rpc.RpcTask.Reply` | kontiki/messaging/consumer/rpc.py:145-183 | The result of the handler becomes the one reply, and the correlation id is free again. |
| `Serialization.RoundTrip` | kontiki/messaging/serialization.py:15-64 | loads(dumps(v)) == v if and only if no user mapping in v, at any depth, carries a true tag. |
| `Serialization.LoadsReturn` | kontiki/messaging/serialization.py:23-31 | An RpcReturn is loaded field by field, and fails to load exactly when one of its fields does. |
| `Serialization.ReplayedBodySame` | kontiki/registry/server/core.py:290-294 | Reading a body without the hook and dumping it again gives the same body, so a replayed message decodes to the same value as the original even when tagged. |
| `Base64.RoundTrip` | kontiki/messaging/serialization.py:20-21 | Decoding the base64 text of any byte string gives the bytes back (section 4 of RFC 4648). |
| `Base64.GroupsWritten` | kontiki/messaging/serialization.py:20-21 | Each three bytes are written, in order, as the four base-64 digits of the 24-bit number they make. |
| `Topology.NamesApart` | kontiki/messaging/consumer/core.py:162-194 | In a well-named fleet two queues have the same name only if they are the same queue, over work, one-off, failed and RPC queues. |
| `Topology.PublishReaches` | kontiki/messaging/consumer/core.py:188-193 | A publication reaches exactly the work queue of each service that competes on the event and the queue of each instance that broadcasts it. |
| `Topology.PublishReachesName` | kontiki/messaging/consumer/core.py:162-193 | The same by queue name: a copy arrives under the name of a queue exactly when that queue is one of these, and no other queue shares the name. |
| `Topology.SessionQueueShared` | kontiki/messaging/consumer/core.py:162-173 | A plain publication reaches the queue of a session handler if and only if the same instance also broadcasts that event. |
| `Topology.SessionReaches` | kontiki/messaging/publisher/session.py:11-23 | A session publish reaches exactly the queues of the pinned instance that handle that session event. |
| `Entrypoints.EventTypes` | kontiki/messaging/consumer/event.py:12-31 | What an endpoint resolves to is a non-empty list of non-empty event types, or it raises. |
| `Entrypoints.EventTypesNamed` | kontiki/messaging/consumer/event.py:12-31 | A service consumes exactly the event types that its declaration names, its own or the text or list of texts at its configuration path, if there are some and none is empty. |
| `Entrypoints.Consumer.ArmEndpoint` | kontiki/messaging/consumer/core.py:162-207 | One task per event type, each with the queue, binding, requeue flag, failed queue and delivery limit of its mode; a limit below one attempt raises. |
| `Entrypoints.Consumer.AddOnEventTasks` | kontiki/messaging/consumer/core.py:140-207 | The armed tasks are those of all endpoints in order, or arming raises at the first endpoint that cannot be armed, with exactly the tasks of the endpoints before it. |
| `Entrypoints.EventEntrypoints` | kontiki/registry/catalog.py:20-47 | The catalogue lists the entries of all endpoints in order, or raises when an event type does not resolve. |
| `Entrypoints.CatalogueDescribesTasks` | kontiki/registry/catalog.py:20-47 | For every service that can be armed, the registered catalogue lists in order what the consumer armed: same event types, competing exactly with requeue and a failed queue, max_attempts one more than the declared delivery limit. |
| `Deployment.ArmedAsDeclared` | kontiki/messaging/consumer/core.py:140-207 | A task consumes the queue that routing and the registry know for its handler, bound with the key of its handler. Exactly a competing one is retried and retained, with the attempts its endpoint declares or else those of its service. |
| `Deployment.TasksServeHandlers` | kontiki/messaging/consumer/core.py:140-207 | The tasks a service arms consume exactly the queues its handlers want, with exactly their keys. |
| `Deployment.PublicationReachesTasks` | kontiki/messaging/consumer/core.py:164-193 | In a well-named fleet, a publication reaches a queue by some armed task exactly when it is the work queue of a service that competes on the event or the queue of an instance that broadcasts it. |
| `Deployment.SessionReachesTasks` | kontiki/messaging/consumer/core.py:164-193 | In a well-named fleet, a session publish to an instance id reaches exactly the armed session tasks for that event on the instance with that id. |
| `Deployment.DeclaredMeansRetained` | kontiki/registry/server/core.py:229-251 | When live instances registered their own catalogues, the registry declares a competing event exactly when some live instance retains failed deliveries of it. |
| `Configuration.Get` | kontiki/configuration/parameter.py:16-30 | The dotted lookup returns exactly what the path leads to; the default, or an error without one, exactly when a mapping on the way lacks the next key; and a type error exactly when the way meets a leaf. |
| `Configuration.WalkEnds` | kontiki/configuration/parameter.py:16-30 | A walk ends in exactly one of three ways: at what the path leads to, at a mapping that lacks the next key, or at a leaf before the end of the path. |
| `Configuration.OneKeyFurther` | kontiki/configuration/parameter.py:16-22 | A path and one more key lead exactly to what the mapping at the path holds under the key. |
| `Configuration.GetParameter` | kontiki/configuration/parameter.py:43-57 | Exactly which configurations and defaults give a value, the default, each error, or the module's own sentinel: an empty configuration without default does not raise. |
| `Configuration.SplitJoin` | kontiki/configuration/parameter.py:17-17 | Splitting a dotted path gives the keys it was joined from, for keys without dots. |
| `Dictionaries.SmartMerge` | kontiki/configuration/merge.py:13-36 | The in-place merge on nested dictionaries: the first one ends as the union of both, every entry of its own and every sub-dictionary taken over being the same object as before; the second one still holds what it held; errors are exactly the conflicting paths and warnings the values defined twice, each once. |
| `Dictionaries.AddMissing` | kontiki/configuration/merge.py:14-17 | Keys of the second dictionary only are added, all others stay. |
| `Dictionaries.MergeShared` | kontiki/configuration/merge.py:21-34 | A shared key is merged in turn when both sides are mappings; otherwise it is a repeat when equal and a conflict when not. |
| `Dictionaries.Merge` | kontiki/configuration/merge.py:38-59 | Merging files succeeds if and only if every two of them are compatible; the result is the merge of all, and a failure reports exactly the conflicts, at least one, of the first file that does not fit. |
| `ConfigurationMerge.NextFile` | kontiki/configuration/merge.py:38-46 | The next file conflicts with the merge so far if and only if it conflicts with one of the files before. |
| `ConfigurationMerge.CompatibleMerged` | kontiki/configuration/merge.py:13-36 | A third tree fits the merge of two if and only if it fits both. |
| `ConfigurationMerge.MergedCommutes` | kontiki/configuration/merge.py:13-36 | The merge of compatible trees does not depend on their order. |
| `ConfigurationMerge.MergedAssociates` | kontiki/configuration/merge.py:13-36 | The merge of compatible trees does not depend on their grouping. |
| `ConfigurationMerge.OrderIrrelevant` | kontiki/configuration/merge.py:38-59 | The same files in any other order merge to the same configuration, or fail to merge as well. |
| `ConfigurationMerge.WalkMerged` | kontiki/configuration/merge.py:13-36 | At every path the merge of two trees holds what one of them holds, or the merge of what both hold, and nothing else. |
| `ConfigurationMerge.LookupMerged` | kontiki/configuration/parameter.py:16-30 | After a successful merge a path is found if and only if some file holds it; a leaf found there is the leaf of every such file, a mapping is the merge of their mappings. |
| `ConfigurationMerge.LeafLookup` | kontiki/configuration/parameter.py:16-30 | A lookup finds the leaf v if and only if some file holds v at that path. |
| `HandlerScope.ContextVar.Enter` | kontiki/runtime/handler_scope.py:114-125 | A new scope continues the flow and the hop of its message in event and RPC handlers and starts a flow in HTTP handlers and tasks, whatever headers they got; the work counter goes up. |
| `HandlerScope.ContextVar.Reset` | kontiki/runtime/handler_scope.py:128-131 | The context that was current before the scope is current again, the same object, and the work counter goes down. |
| `HandlerScope.ContextVar.ResolveFlowId` | kontiki/messaging/flow.py:58-69 | An explicit id always decides; without one the context's flow, then the one in extra headers, then a new id. The result is remembered in the current context object, or in a new bare one. |
| `HandlerScope.ContextVar.ApplyOutboundHopHeaders` | kontiki/runtime/handler_scope.py:142-167 | The headers describe the hop: a new hop id, the parent exactly in an event or RPC handler reached by a hop, entrypoint and operation exactly inside a handler, the RPC service exactly for a call, every other header unchanged. |
| `HandlerScope.Stamped` | kontiki/runtime/handler_scope.py:142-167 | The stamped headers satisfy that description. |
| `HandlerScope.ContextVar.OutboundHeaders` | kontiki/messaging/publisher/messenger.py:190-204 | Reserved extra headers, a flow or hop id among them, raise before the context changes. Otherwise the message carries the explicit flow id, else the flow of its context, else a new one, and the headers of its hop. |
| `Tracing.RunKeepsInv` | kontiki/messaging/publisher/messenger.py:190-204 | In every run every message carries its sender's flow and the hop its sender was reached by, and every context that continues a hop was created after the message that carried it. |
| `Tracing.ParentEmittedEarlier` | kontiki/runtime/handler_scope.py:151-162 | With fresh hop ids a parent hop belongs to exactly one message, which was emitted earlier and carries the same flow. |
| `Tracing.LineageReachesRoot` | kontiki/runtime/handler_scope.py:142-167 | Parents form a forest: from every message the chain of parents goes strictly back in emission order, ends at a message without parent, and keeps its flow. |
| `Tracing.OneFlowPerHandler` | kontiki/messaging/flow.py:58-75 | All messages sent from one handler, by it or by tasks it started, share a flow and a parent. |
| `Tracing.SameFlowSameOrigin` | kontiki/runtime/handler_scope.py:114-125 | With fresh ids two messages carry one flow if and only if their chains of parents start in one context. |
| `Tracing.ScopeRestored` | kontiki/runtime/handler_scope.py:128-131 | Whatever happens between entering and leaving a scope, nested scopes and other tasks included, the enclosing context is current again with the flow it had. |
| `MessageChains.HandlerContinues` | kontiki/runtime/handler_scope.py:114-167 | In every run, what a handler sends goes on with the flow of the message that reached it and names the hop of that message as its parent; what an HTTP request or a periodic task sends starts the flow of its scope and has no parent; whatever other tasks do in between. |
| `MessageChains.TaskContinues` | kontiki/runtime/handler_scope.py:114-167 | So does what an asyncio task sends that the handler started, even after the handler ended. |
| `InFlight.WorkInFlight.Begin` | kontiki/messaging/consumer/core.py:40-43 | The event is set exactly when the count is zero, also after a scope opened. |
| `InFlight.WorkInFlight.End` | kontiki/messaging/consumer/core.py:45-48 | The same after a scope closed. |
| `Shutdown.CountsOpenScopes` | kontiki/messaging/consumer/core.py:30-51 | In every run the counter is the number of open handler scopes, and the event is set exactly when there is none. |
| `Shutdown.DrainedButUnbegun` | kontiki/messaging/consumer/core.py:104-105 | While the event is set, the only unfinished handlers are tasks that have not begun. |
| `Shutdown.NoNewHandlers` | kontiki/messaging/consumer/event.py:110-123 | From the moment the service shuts down, handler tasks only disappear, none begins that was not there, and every delivery that arrives is nacked. |
| `Shutdown.ClosedAccounts` | kontiki/messaging/consumer/core.py:107-116 | After the force close no handler remains and nothing is in flight; each delivery was settled at most once, and exactly once unless settling failed or its handler was cancelled before it began. |
| `Shutdown.PhasesInOrder` | kontiki/container.py:248-281 | The stop goes through its phases in order and skips none. |
| `Shutdown.RunKeepsInv` | kontiki/messaging/consumer/core.py:67-71 | Every run keeps the accounts of deliveries, the count and what each phase has finished. |
| `ShutdownProgress.HandlerRuns` | kontiki/messaging/consumer/event.py:110-178 | A handler task can begin, settle its delivery as its handler ended and leave: then exactly that settlement was added and the count is what it was. |
| `ShutdownProgress.StopGetsThrough` | kontiki/container.py:248-281 | From every reachable state the steps of the stop and the last steps of the handlers close the service: a stop can always get through. |
| `Container.ServiceContainer.Stop` | kontiki/container.py:248-281 | For every schedule of deliveries and handler steps during its awaits: a second call changes nothing; the first one performs exactly the run of its phases, asks the parts in phase order, and ends closed with no handler. It stays in the gather only when the whole schedule leaves a cancelled handler running. |
| `Container.ServiceContainer.OnMessage` | kontiki/messaging/consumer/event.py:111-117 | A delivery is nacked during a shutdown and otherwise becomes a registered handler task. |
| `Container.ServiceContainer.AdvanceHandler` | kontiki/messaging/consumer/rpc.py:54-67 | Each step of a handler task is the step of the specification, work counter included. |
| `Container.ServiceContainer.CancelUnfinished` | kontiki/messaging/consumer/core.py:107-110 | Exactly the handlers that have not ended are cancelled. |
| `Container.ServiceContainer.Gather` | kontiki/messaging/consumer/core.py:111-113 | The gather returns once every handler task has ended; it has not only when the whole schedule leaves one running. |
| `Container.ServiceContainer.Disconnect` | kontiki/messaging/consumer/core.py:107-116 | Cancel, gather and close are one run of the specification. |
| `Container.DelegatesStoppedOnce` | kontiki/container.py:283-336 | Every delegate is stopped exactly once: the heartbeat before the drain, all others after it. |
| `Container.EachPartStopped` | kontiki/container.py:283-336 | A stop that gets through unregisters exactly once if the service has a connected registry client and not at all otherwise; stops, drains and force-stops each periodic task once; stops each delegate once; and makes every other call once to each part the service has, but for the second drain of the HTTP server. |
| `Container.StopInOrder` | kontiki/container.py:283-336 | It takes in no more work before it drains anything and closes nothing before it drained the consumer and every task; it unregisters after the heartbeat stopped, and closes the consumer before it stops anything else by force. |
| `Container.PhasesInTurn` | kontiki/container.py:283-336 | Within a phase the parts are called in their turn, tasks in their order and delegates in order of name. |
| `ActivityTracking.ActivityTracker.PurgeExpired` | kontiki/registry/server/delegates/activity_tracking.py:135-171 | The loop cuts exactly the expired prefix, and raises without removing anything exactly when the scan meets a timestamp no date compares with. What it removes has no date or is dated the retention time ago or longer, and the first item it keeps is younger. |
| `ActivityTracking.ActivityTracker.Cleanup` | kontiki/registry/server/delegates/activity_tracking.py:115-133 | Both lists are purged; when the first purge raises, the second list is not. Whatever the handlers appended and however many rounds went before, with a clock that did not go back the timeline is what one purge of everything ever appended leaves, if and only if that purge meets no incomparable timestamp or nothing was removed before; likewise the exceptions. No item younger than the retention time is removed. |
| `ActivityTracking.PurgesAreOnePurge` | kontiki/registry/server/delegates/activity_tracking.py:115-171 | For every interleaving of appends and purges at non-decreasing times, a final purge leaves what one purge of everything ever appended leaves, if and only if that scan meets no incomparable timestamp or no earlier purge removed anything. |
| `ActivityTracking.FreshStays` | kontiki/registry/server/delegates/activity_tracking.py:135-171 | No purge removes an item that is dated after the limit. |
| `ActivityTracking.PurgeIsPolicy` | kontiki/registry/server/delegates/activity_tracking.py:135-171 | When every item is dated, in non-decreasing order, the prefix purge is the retention policy: exactly the unexpired items stay. |
| `ActivityTracking.SurvivorsRecent` | kontiki/registry/server/delegates/activity_tracking.py:135-171 | With dates out of order by at most D, every dated survivor is newer than the limit minus D, if and only if the scan meets no incomparable timestamp or no dated item is that old. |

## Left out

- aio_pika, TLS, sockets, reconnects, HTTP, OpenAPI, the command line, logging and Docker: foreign code or plumbing; only the broker's queue, ack and routing behaviour is kept, as steps.
- The order of the work queue, delays of retries, the failed queue's own delivery limit and the broker's timing: not decided by this code. The length limit of the failed queue counts the copies that wait in it.
- Broker.Retention: a nack and a closed channel do not count as attempts, which is the broker's behaviour as configured and not this code's.
- Interleaving inside the registry's handlers at their awaits: each handler is one step; with another handler between the publication and the tracked status the subscriber's view can differ.
- Wildcard words in routing keys, and user-declared queues.
- RegistryServer.ServiceRegistryCore.HandleRegister: service names and instance ids are strings, or an instance id is unhashable; numbers and other hashable ids, and unhashable ids in other messages, which raise before they change anything, are not modelled.
- Heartbeat intervals are whole microseconds here; fractions and the truthiness of odd interval values are not modelled.
- Rpc.CallsMeetTheirReplies: does not claim that map entries never leak. They stay behind when a publication raises, when the caller is cancelled, or when a reply cannot be decoded, and the model shows this.
- Rpc.RpcTask.Accept: a request that arrives during a shutdown is given back untouched, which is modelled for events only.
- Rpc.RpcTask.Reply: requests without a reply queue, whose entries are never removed, and a cancellation while the reply is being sent are not modelled.
- Validation of extra headers before the request of a call, and pydantic models: a response model is an opaque constructor.
- JSON text: numbers out of range, not-a-number and mappings with keys that are no strings; dates, UUIDs and models, which the encoder turns into text or mappings before the modelled part.
- Base64.Decode: text that no encoder writes is an error, where the library skips foreign characters.
- Configuration.Get: reads the tree that the merged dictionary holds; the walk over the objects is the same.
- Dictionaries.Merge: a YAML document is a tree of mappings and leaves that shares no sub-mapping; documents whose top level is no mapping and anchors are not modelled. Errors are lists of keys, not strings joined by colons, and leaves are compared strictly, so that true and 1 differ.
- Tracing.OneFlowPerHandler: no explicit flow id is passed. An explicit one overwrites the flow of the handler's context (`ResolveFlowId`), and later messages of the handler carry it.
- Headers of messages from programs that do not use Kontiki: they carry no tracing header here.
- Shutdown.ClosedAccounts: the model allows a created task to begin at any later time. A delivery whose handler was cancelled before it began, or whose settlement failed, is given back by the broker when the connection closes.
- A stop while AMQP is still being set up or is disabled, the HTTP server's own handlers and periodic tasks: the calls to them are modelled in order, what they do is not. An immediate first iteration of a periodic task can still run after the stop began.
- The catalogue's RPC, HTTP and periodic-task entries.
- The exception and context records beyond their place in the timeline.
- Setup order of the container, and the flags of a reconnecting messenger.
