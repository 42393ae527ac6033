# A verified model of the vsomeip transport for uProtocol

The transport lets uProtocol entities speak SOME/IP through vsomeip. Its difficulty is state that must stay
consistent across several tables, several transports and several threads. This project models that state and
proves what holds of it over every run. `dafny verify dfyconfig.toml` checks everything.

## What is modelled

**Message handlers.** vsomeip calls back through plain functions, so the program generates a fixed number of
them and hands out their numbers. `HandlerTables` has the three tables as values (pool of free ids, map from id
to transport, each transport's bijection from ids to listener configurations), for any number of functions and
of transports, and histories as sequences of operations. `MessageHandlerRegistry` has the program's own form: the
process-wide statics and the registries are objects changed in place, with the explicit rollback list.
Which free id is taken is left open, as the iteration order of a hash set is. `MessageHandlerProcMacro` is the
process as the generated dispatcher finds it. `Transport` is the transport object: registration, point-to-point
registration, the implicit registration that precedes a request, and Drop.
`TransportProperties` and `TransportScenarios` say what these achieve together.

**Interleavings.** `LockModel` splits get, release and the two-phase dispatch of a callback into steps that each
take one lock, write one table or drop one lock, for any number of threads. `LockProperties` and `LockTheorems`
prove that every interleaved run has the outcome of some sequence of atomic operations and that no deadlock is
possible, `LockOperations` follows whole calls and Drop through a run, and `LockDispatch` whole callbacks.

**Remote procedure calls.** `RpcCorrelation` is the registry of pending requests and session counters,
`MessageConversions` the conversions that use it, as methods on the registry and as functions of its contents.
`RpcProtocol` puts any number of transports, each client and service at once, on a network that loses, reorders
and duplicates messages; `RpcProperties` proves correlation end to end, and `RpcEngine` that the wire carries just
what the command loops give to vsomeip.

**The engine.** `TransportEngine` is the command loop with the return channel of each command, its four key sets
and its handlers, vsomeip being a log of the calls made on it; `EngineProperties` ties the sets, the replies and
the log together. `RegistrationProperties` follows listeners and messages through both.

A method is proved equal to its function or operation, and the lemmas are about that function or about histories
of such operations.

## Assumptions

- vsomeip numbers the requests of an application 1, 2, 3, ... in the order sent. The program never sets client
  or session of a request (`up-transport-vsomeip/src/message_conversions.rs:143-167`) and files the request under
  the number it expects, so correlation depends on this. Client ids are distinct, and answers reach the client
  they name. Client id and session id are the halves of the Request ID of section 4.1.2.3 of the AUTOSAR SOME/IP
  Protocol Specification.
- The message builder never gives two requests received by one transport the same id.
- An answer is called faithful if the service sends it from the URI at which it received the request, as
  `up-transport-vsomeip/tests/client_service.rs:109` does. Only the claim about the source of a delivered
  response needs it; the id and the destination are right for every answer.
- A UUri has a wildcard where uProtocol says so: authority `*`, version 0xFF, resource 0xFFFF, entity type 0xFFFF
  in the low and entity instance 0xFFFF in the high half of the entity id. vsomeip's constants are ANY_INSTANCE
  0xFFFF, ANY_MAJOR 0xFF, ANY_MINOR 0xFFFFFFFF, DEFAULT_MINOR 0. Shifts and masks are written as division,
  remainder and multiplication.
- The 16-bit session counter wraps, as in a release build; a debug build panics there instead. How vsomeip goes
  on after number 65535 is not assumed: no result speaks of the numbers given from there on.
- vsomeip hands a message to the handlers registered for its service, instance and method, where ANY_INSTANCE and
  method 0xFFFF match anything, and delivers an event as a notification with the event as method.
- What the engine replies to a transport, including a timeout, is arbitrary; the engine is alive.

## What the code does that its reader might not expect

- The rollback list runs oldest step first, so the free-set guard is dropped while the transport map is still
  locked; it is exact nevertheless, because the map stays locked until the last step.
- An id is taken before the duplicate check, so with an empty pool even a repeated registration is refused as
  exhausted (`EmptyPoolRefusesRepeats`).
- The duplicate error carries the id that was just rolled back, not the one already bound.
- A failed engine registration keeps the handler; a later unregister or Drop gives it back.
- Implicit registration panics when the engine refuses, and keeps the handler. The same request sent again then
  finds its configuration stored and goes out, although no registration was ever acknowledged
  (`ResendAfterRefusal`).
- Unregistering a point-to-point listener does not clear the stored listener. After a registration that stopped at
  a configuration already stored, it also takes away that older binding (`CleanUpRestoresExactly`).
- A request refused by correlation has already advanced the session counter (`RefusalShiftsNumbering`,
  `RefusalReached`).
- Engine unregistration names the key of the registration only in the cases `UnregisterMatchesExactly` lists.
- A delivery in `RpcProtocol` is a successful conversion; the second lookup of the dispatcher may still find that
  the listener has gone, and then the correlation entry has been consumed all the same (`CallSharedExternFn`).

## Model

| member | source | states |
|---|---|---|
| MessageHandlerRegistry.HandlerStatics.constructor | vsomeip-proc-macro/src/lib.rs:37-73 | the pool starts with exactly the ids 0..n-1 and nothing is owned |
| MessageHandlerRegistry.HandlerStatics.FindAvailable | up-transport-vsomeip/src/storage/message_handler_registry.rs:431-444 | takes some free id out of the pool, and fails exactly on an empty pool |
| MessageHandlerRegistry.HandlerStatics.FreeId | up-transport-vsomeip/src/storage/message_handler_registry.rs:420-429 | puts the id back and never fails |
| MessageHandlerRegistry.HandlerStatics.InsertTransport | up-transport-vsomeip/src/storage/message_handler_registry.rs:375-397 | binds an id to a transport, or leaves the map alone if the id is owned |
| MessageHandlerRegistry.HandlerStatics.RemoveTransport | up-transport-vsomeip/src/storage/message_handler_registry.rs:399-418 | removes the id, and warns exactly if it was not there |
| MessageHandlerRegistry.InMemoryMessageHandlerRegistry.InsertBinding | up-transport-vsomeip/src/storage/message_handler_registry.rs:466-497 | inserts only if neither id nor configuration is bound, and says which of the two was |
| MessageHandlerRegistry.InMemoryMessageHandlerRegistry.RemoveBinding | up-transport-vsomeip/src/storage/message_handler_registry.rs:447-463 | removes the binding of an id, and warns exactly if there was none |
| MessageHandlerRegistry.InMemoryMessageHandlerRegistry.IdFor | up-transport-vsomeip/src/storage/message_handler_registry.rs:336-347 | finds the id of a configuration exactly if it is stored |
| MessageHandlerRegistry.InMemoryMessageHandlerRegistry.RollBack | up-transport-vsomeip/src/storage/message_handler_registry.rs:183-231 | runs the recorded steps in forward order; nothing is warned about on the lists the program builds |
| MessageHandlerRegistry.InMemoryMessageHandlerRegistry.GetMessageHandler | up-transport-vsomeip/src/storage/message_handler_registry.rs:157-255 | from any tables whatever: success moves one free id into both maps, and every failure leaves pool, map and bijection exactly as they were |
| MessageHandlerRegistry.InMemoryMessageHandlerRegistry.ReleaseMessageHandler | up-transport-vsomeip/src/storage/message_handler_registry.rs:258-304 | takes the configuration out of all three tables, fails exactly if it is not stored, and logs no warning while the tables agree |
| MessageHandlerRegistry.InMemoryMessageHandlerRegistry.GetMessageHandlerIds | up-transport-vsomeip/src/storage/message_handler_registry.rs:325-333 | every bound id exactly once |
| MessageHandlerRegistry.InMemoryMessageHandlerRegistry.GetAllListenerConfigs | up-transport-vsomeip/src/storage/message_handler_registry.rs:307-322 | every stored configuration exactly once |
| HandlerTables.GetReleaseRestores | up-transport-vsomeip/src/storage/message_handler_registry.rs:157-304 | get then release of the same configuration restores all three tables |
| HandlerTables.GetFailsExactly | up-transport-vsomeip/src/storage/message_handler_registry.rs:172-243 | while the tables agree, get fails exactly on an empty pool or a stored configuration |
| HandlerTables.ConsistentAlways | up-transport-vsomeip/src/storage/message_handler_registry.rs:157-304 | after every history of any number of transports, pool and bindings partition 0..n-1, and the map names the one binder of each allocated id |
| HandlerTables.IdsConserved | vsomeip-proc-macro/src/lib.rs:37-73 | free ids and owned ids together always number n |
| HandlerTables.BindingsDisjoint | up-transport-vsomeip/src/storage/message_handler_registry.rs:157-304 | no id is bound by two transports, none that is bound is free |
| HandlerTables.DeadErrorBranches | up-transport-vsomeip/src/storage/message_handler_registry.rs:195-243 | after every history, the transport-insert and the id-exists failure cannot happen, and an id handed out has an extern fn |
| HandlerTables.OthersUntouched | up-transport-vsomeip/src/storage/message_handler_registry.rs:157-304 | a call by one transport changes neither bindings nor ownership of another |
| HandlerTables.ActsRefine | up-transport-vsomeip/src/storage/message_handler_registry.rs:157-304 | what one transport sees of its own calls is a legal piece of the history of the process |
| HandlerTables.KeptUnlessReleased | up-transport-vsomeip/src/storage/message_handler_registry.rs:258-304 | while a transport only releases, whatever others do in between, it keeps exactly the bindings not released |
| HandlerTables.DropAmidOthers | up-transport-vsomeip/src/lib.rs:683-702 | a transport that has released all its configurations, others running in between, binds and owns nothing, and no id is lost |
| LockProperties.StepExclusive | up-transport-vsomeip/src/storage/message_handler_registry.rs:162-170 | mutual exclusion: no step ever lets two threads hold a lock in conflicting modes |
| LockProperties.StepRefines | up-transport-vsomeip/src/storage/message_handler_registry.rs:157-304 | each small step of any thread keeps the invariant and is, on the atomic tables, nothing or one legal event |
| LockProperties.ConsistentAtRest | up-transport-vsomeip/src/storage/message_handler_registry.rs:162-231 | the allocator invariant holds of the real tables whenever nobody holds the transport map for writing |
| LockTheorems.RunsLinearize | up-transport-vsomeip/src/storage/message_handler_registry.rs:157-304 | every interleaved run has the outcome of a legal history of atomic operations |
| LockTheorems.AllocatorAtRest | up-transport-vsomeip/src/storage/message_handler_registry.rs:162-304 | in every run, whenever nobody writes the transport map, the tables are consistent and equal those after the linearized history |
| LockOperations.AnswersAreLinearized | up-transport-vsomeip/src/storage/message_handler_registry.rs:157-304 | in every run each get and release, from call to return, takes effect at exactly one of its steps, as the call that was made and with the answer that is returned, which is the atomic one there |
| LockOperations.EventsWereCalled | up-transport-vsomeip/src/storage/message_handler_registry.rs:157-304 | conversely, every get and release that takes effect is the one its thread was called for |
| LockOperations.DropAmongThreads | up-transport-vsomeip/src/lib.rs:683-702 | in every run, a transport whose configurations have each been released by a completed call, with no get for it under way, binds and owns nothing, and no id is lost |
| LockOperations.DropGivesBackAmongThreads | up-transport-vsomeip/src/lib.rs:683-702 | in every run, one call of Drop, with its listing of ids, its lookups and its releases interleaved with anything but gets for that transport, leaves it binding and owning nothing, and no id is lost |
| LockTheorems.NoDeadlock | up-transport-vsomeip/src/storage/message_handler_registry.rs:162-170 | while any operation is unfinished, some unfinished operation can take a step that brings it closer to its end |
| LockTheorems.EveryStepCounts | up-transport-vsomeip/src/storage/message_handler_registry.rs:157-304 | an operation takes at most twelve steps once it has begun |
| LockDispatch.FirstLookup | vsomeip-proc-macro/src/lib.rs:77-87 | in every run the first lookup finds a transport exactly if the id is allocated, and then it binds the id at that moment |
| LockDispatch.DispatchIsolation | vsomeip-proc-macro/src/lib.rs:77-145 | in every run the second lookup of a callback asks the very transport its first lookup found; a listener is reached exactly if that transport then owns the id, and it is the one that transport has bound to it |
| LockDispatch.CallsAreDispatched | vsomeip-proc-macro/src/lib.rs:77-165 | no listener is called otherwise: behind every call of a listener lie two lookups for its id, at both of which the listener's transport owned the id |
| MessageHandlerProcMacro.Process.CallSharedExternFn | vsomeip-proc-macro/src/lib.rs:77-165 | the dispatcher on the objects, with the conversion and any gets, releases and new transports between its lookups: which listener is called with which message, when none is, and that an answer is consumed in either case |
| MessageType.SwapKeepsReleasable | up-transport-vsomeip/src/determine_message_type.rs:68-94 | the streamer condition is symmetric, so swapped filters stay releasable |
| MessageType.DetermineType | up-transport-vsomeip/src/determine_message_type.rs:28-99 | Publish exactly without a sink, AllPointToPoint exactly between two streamer filters, Response exactly for sink resource 0, Request exactly otherwise |
| MessageType.SwappedIsResponse | up-transport-vsomeip/src/lib.rs:390-401 | the swapped filters of a request classify as Response if and only if the asker's resource is 0, otherwise as Request |
| MessageType.AnySourceIsRequest | up-transport-vsomeip/src/lib.rs:477-494 | the filters of the point-to-point loops classify as Request |
| Uris.JoinSplitInverse | up-transport-vsomeip/src/utils.rs:16-34 | splitting and joining 32-bit values are inverse, for halves and for bytes |
| Uris.JoinInjective | up-transport-vsomeip/src/lib.rs:477-482 | distinct (instance, service) pairs give distinct entity ids |
| Transport.UPTransportVsomeip.NewInternal | up-transport-vsomeip/src/lib.rs:204-255 | a bad version or URI is refused before anything happens; a failing start drops the new transport again, which stops the application; otherwise it binds nothing and has no point-to-point listener |
| Transport.UPTransportVsomeip.RegisterListener | up-transport-vsomeip/src/transport.rs:87-134 | one get and, if it succeeds, one engine registration with that id and the type of the filters; the streamer pair goes to the point-to-point loop instead, which registers the services one by one |
| Transport.UPTransportVsomeip.AllocateAndRegister | up-transport-vsomeip/src/transport.rs:107-133 | an engine refusal keeps the handler |
| Transport.UPTransportVsomeip.RegisterPointToPointListener | up-transport-vsomeip/src/lib.rs:452-530 | refused without services or with a listener set; otherwise the listener is set and the loop runs |
| Transport.UPTransportVsomeip.RegisterServices | up-transport-vsomeip/src/lib.rs:477-527 | registers service after service and stops at the first get or engine command that fails, keeping those before; each command has service and instance of its service in the low and high half of the sink entity |
| Transport.UPTransportVsomeip.UnregisterListener | up-transport-vsomeip/src/lib.rs:294-360 | whatever the engine replies, the handler is released |
| Transport.UPTransportVsomeip.UnregisterPointToPointListener | up-transport-vsomeip/src/lib.rs:532-551 | refused without a listener or services; otherwise the loop runs |
| Transport.UPTransportVsomeip.UnregisterServices | up-transport-vsomeip/src/lib.rs:553-618 | every service is unregistered at the engine, and exactly those it acknowledges are released |
| Transport.UPTransportVsomeip.RegisterForReturningResponse | up-transport-vsomeip/src/lib.rs:362-450 | a request binds the point-to-point listener to its swapped filters; a duplicate is accepted, an engine refusal panics |
| Transport.UPTransportVsomeip.Send | up-transport-vsomeip/src/transport.rs:30-85 | what reaches the engine in each case, and that an invalid message reaches neither tables nor engine |
| Transport.UPTransportVsomeip.Drop | up-transport-vsomeip/src/lib.rs:683-702 | whatever was done before and whatever the engine replies: nothing stays bound, exactly the ids that were bound return to the pool and leave the map, and the calls made are the releases of the stored configurations |
| Transport.ApplyKeepsValid | up-transport-vsomeip/src/lib.rs:308-310 | stored configurations stay a bijection and stay releasable |
| Transport.ReleaseSome | up-transport-vsomeip/src/lib.rs:294-360 | releasing any list of configurations, repeats and unknown ones included, gives back exactly the ids bound to them |
| TransportProperties.DistinctServices | up-transport-vsomeip/src/lib.rs:477-482 | services give distinct filters if and only if they are distinct |
| TransportProperties.TransportsShareOneAllocator | up-transport-vsomeip/src/lib.rs:294-621 | whatever a transport does after any history of the process, the allocator invariant holds |
| TransportProperties.DropSeenByTheProcess | up-transport-vsomeip/src/lib.rs:683-702 | Drop grows the pool by its own ids, and every other transport keeps its bindings and ownership |
| TransportProperties.GetsRegister | up-transport-vsomeip/src/lib.rs:477-527 | the registration loop adds one binding for each configuration, all of them new |
| TransportProperties.RegistrationSucceedsExactly | up-transport-vsomeip/src/lib.rs:452-530 | point-to-point registration succeeds if and only if the filters are distinct and new, the pool suffices and the engine acknowledges each |
| TransportProperties.CleanUpRestoresExactly | up-transport-vsomeip/src/lib.rs:477-618 | after a registration that stopped anywhere, releasing some configurations restores all tables if and only if they include each one registered and none stored before |
| TransportProperties.CleanUpAfterAnyOutcome | up-transport-vsomeip/src/lib.rs:452-618 | the same for whatever the registration loop may come to and whatever the engine acknowledges of the unregistration |
| TransportProperties.PointToPointRoundTrip | up-transport-vsomeip/src/lib.rs:477-618 | after a complete registration, unregistration restores all tables if and only if the engine acknowledges each |
| TransportProperties.ImplicitRegistrationIdempotent | up-transport-vsomeip/src/lib.rs:362-449 | any sequence of requests takes one id per configuration not stored before, and none for repeats; none is refused if and only if the pool still holds an id when the last is sent |
| TransportProperties.EmptyPoolRefusesRepeats | up-transport-vsomeip/src/storage/message_handler_registry.rs:174-181 | for a stored configuration, the error is exhaustion if and only if the pool is empty |
| TransportScenarios.ThereAndBack | up-transport-vsomeip/src/lib.rs:452-621 | on the object, for any replies: registering point-to-point succeeds if and only if the filters are distinct and new, the pool suffices and the engine acknowledges each; whatever it came to, unregistering then restores every table if and only if exactly what was registered is acknowledged as unregistered |
| TransportScenarios.SendRequests | up-transport-vsomeip/src/transport.rs:30-85 | on the object, for any replies: while the pool lasts, sending requests takes one id and one engine registration per new (sink, source) pair and none for repeats; all go through if and only if the pool lasts and the engine acknowledges every command made |
| TransportScenarios.BackedExactly | up-transport-vsomeip/src/lib.rs:362-449 | a request that was sent has an acknowledged registration behind it if and only if the one command that registered its configuration was acknowledged |
| TransportScenarios.ResendAfterRefusal | up-transport-vsomeip/src/lib.rs:420-449 | where that fails: after a refused registration the send panics, and the same request sent again goes out with no acknowledged registration |
| RpcCorrelation.InMemoryRpcCorrelationRegistry.RetrieveSessionId | up-transport-vsomeip/src/storage/rpc_correlation.rs:76-83 | returns the client's counter and advances it, starting at 1 |
| RpcCorrelation.InMemoryRpcCorrelationRegistry.InsertUeRequestCorrelation | up-transport-vsomeip/src/storage/rpc_correlation.rs:86-108 | files a pending request, and refuses an occupied id without change |
| RpcCorrelation.InMemoryRpcCorrelationRegistry.RemoveUeRequestCorrelation | up-transport-vsomeip/src/storage/rpc_correlation.rs:111-130 | consumes the pending request |
| RpcCorrelation.InMemoryRpcCorrelationRegistry.InsertMeRequestCorrelation | up-transport-vsomeip/src/storage/rpc_correlation.rs:133-154 | files a received request, and refuses an occupied id without change |
| RpcCorrelation.InMemoryRpcCorrelationRegistry.RemoveMeRequestCorrelation | up-transport-vsomeip/src/storage/rpc_correlation.rs:157-174 | consumes the received request |
| RpcCorrelation.SessionsCountUp | up-transport-vsomeip/src/storage/rpc_correlation.rs:76-83 | after any history the next session of a client is one more than the number it has taken, modulo 2^16 |
| RpcCorrelation.PendingUeStable | up-transport-vsomeip/src/storage/rpc_correlation.rs:86-130 | a pending request keeps its value through any history, wrapped counters included, until it is taken |
| RpcCorrelation.PendingMeStable | up-transport-vsomeip/src/storage/rpc_correlation.rs:133-174 | the same for received requests |
| RpcCorrelation.NothingUnasked | up-transport-vsomeip/src/storage/rpc_correlation.rs:86-108 | an entry that appears was inserted with just that value |
| MessageConversions.UmsgRequestToVsomeipMessage | up-transport-vsomeip/src/message_conversions.rs:98-168 | performs the request conversion, effect on the registry and order of errors included |
| MessageConversions.UmsgResponseToVsomeipMessage | up-transport-vsomeip/src/message_conversions.rs:170-262 | performs the response conversion, consuming the received request |
| MessageConversions.ConvertVsomeipMsgToUmsg | up-transport-vsomeip/src/message_conversions.rs:284-349 | dispatches on the message type; other types are out of range |
| MessageConversions.ConvertRequest | up-transport-vsomeip/src/message_conversions.rs:351-427 | the listener hears the request at the URI the message names, under an id not in use, and exactly under that id the request id is filed, only after the message was built |
| MessageConversions.ConvertResponseOrError | up-transport-vsomeip/src/message_conversions.rs:429-538 | consumes the pending request before the message is built |
| MessageConversions.AddressingRoundTrip | up-transport-vsomeip/src/message_conversions.rs:119-202 | over both hops the asker gets back the URI it asked, truncated to 16, 16 and 8 bits; unchanged if and only if it fits |
| MessageConversions.RequestArrives | up-transport-vsomeip/src/message_conversions.rs:367-424 | a service hears the URI that was asked, truncated, and files client and session under the id heard |
| MessageConversions.AnswerFindsItsRequest | up-transport-vsomeip/src/message_conversions.rs:204-227 | whatever happened in between, an answer to the id a request was heard under, not answered before, is accepted and bears that request's client and session |
| MessageConversions.AnswerHeard | up-transport-vsomeip/src/message_conversions.rs:429-481 | an answer is heard as one to the pending request of its number, at that request's source, and consumes exactly that entry |
| MessageConversions.NotificationHeard | up-transport-vsomeip/src/message_conversions.rs:540-580 | an event is heard from the publisher's entity and resource, truncated, in version 1; the publisher's own URI if and only if that fits |
| MessageConversions.StatusHeard | up-transport-vsomeip/src/message_conversions.rs:229-252 | what is heard for every status: OK if and only if OK or none was sent, UNKNOWN where SOME/IP has no counterpart, NOT_FOUND for UNAVAILABLE |
| MessageConversions.ErrorsHaveStatus | up-transport-vsomeip/src/message_conversions.rs:236-252 | a response goes out as an error if and only if it has a status |
| MessageConversions.ReturnCodesPassedOn | up-transport-vsomeip/src/message_conversions.rs:582-597 | no return code but E_OK is heard as OK; which codes stay as they are when passed on, and what the others become |
| MessageConversions.StatusHopIsTheConversions | up-transport-vsomeip/src/message_conversions.rs:236-252 | the one-hop status map is what the two conversions do |
| MessageConversions.StatusSettles | up-transport-vsomeip/src/message_conversions.rs:264-278 | a status after any number of hops is the one after the first |
| MessageConversions.StatusesThatSurvive | up-transport-vsomeip/src/message_conversions.rs:582-597 | exactly eight status codes arrive as they were sent |
| MessageConversions.RequestFailsExactly | up-transport-vsomeip/src/message_conversions.rs:143-161 | a complete request is refused if and only if its request id is still pending, and then the counter has moved on |
| MessageConversions.OutgoingErrors | up-transport-vsomeip/src/message_conversions.rs:98-227 | which error a request or response gets, exactly when, and that a refused one changes no pending entry |
| MessageConversions.IncomingErrors | up-transport-vsomeip/src/message_conversions.rs:351-538 | which error a received message gets, exactly when: a failing request leaves nothing behind, an answer that cannot be built is consumed all the same |
| RpcProperties.NextIsFresh | up-transport-vsomeip/src/storage/rpc_correlation.rs:76-108 | below 65535 requests the next request id is neither pending nor consumed, and is the one vsomeip assigns |
| RpcProperties.RequestNeverFails | up-transport-vsomeip/src/message_conversions.rs:98-168 | below the bound, a request is accepted if and only if it has source, sink and id |
| RpcProperties.RefusalShiftsNumbering | up-transport-vsomeip/src/message_conversions.rs:143-161 | why there is a bound: a refused request sends nothing, yet the counter moves on |
| RpcProperties.RefusalReached | up-transport-vsomeip/src/storage/rpc_correlation.rs:76-108 | a run that gets there: 65536 requests without an answer are all accepted, and the next one is refused |
| RpcProperties.ResponseBelongs | up-transport-vsomeip/src/message_conversions.rs:457-468 | a response received by a client answers the client's own request of that session |
| RpcProperties.StepKeepsInv | up-transport-vsomeip/src/message_conversions.rs:98-538 | every send and every receipt keeps the protocol invariant |
| RpcProperties.RunsKeepInv | up-transport-vsomeip/src/message_conversions.rs:98-538 | the invariant holds in every run with loss, reordering and duplication and fewer than 65535 requests per client |
| RpcProperties.EndToEnd | up-transport-vsomeip/src/message_conversions.rs:457-525 | each delivered response carries the id and goes to the source of one earlier request of its client, for which it was made, and no two answer the same one |
| RpcProperties.RequestsConserved | up-transport-vsomeip/src/storage/rpc_correlation.rs:86-130 | issued request ids are, disjointly, the pending and the consumed; at most one delivery for each consumed |
| RpcProperties.AnswersConserved | up-transport-vsomeip/src/storage/rpc_correlation.rs:133-174 | received requests are, disjointly, the pending and those answered, each once |
| RpcProperties.DeliveredExactlyWhilePending | up-transport-vsomeip/src/message_conversions.rs:457-525 | a response is delivered if and only if its request was not consumed; a duplicate changes nothing |
| RpcProperties.RequestsAreAnswerable | up-transport-vsomeip/src/message_conversions.rs:204-227 | in every run, from the step at which a listener hears a request, an answer to the id it heard is accepted exactly if none was given, and goes out to the client and under the request id of the message that brought it |
| RpcProperties.HeardIsRemembered | up-transport-vsomeip/src/message_conversions.rs:413-424 | the id under which a request is heard is new, and is the one it is remembered under |
| RpcEngine.SendTransmits | up-transport-vsomeip/src/transport_engine.rs:780-805 | sending through the command loop transmits one message exactly if it is acknowledged, the very one that goes on the wire, and changes the same pending entries |
| RpcEngine.WireIsWhatEnginesSend | up-transport-vsomeip/src/transport_engine.rs:726-808 | in every run the messages on the wire are exactly those the engines gave to vsomeip, requests numbered by it, and the correlation states agree |
| TransportEngine.InMemoryVsomeipOfferedRequestedRegistry.constructor | up-transport-vsomeip/src/storage/vsomeip_offered_requested.rs:99-106 | nothing offered, nothing requested |
| TransportEngine.InMemoryVsomeipOfferedRequestedRegistry.InsertServiceOffered | up-transport-vsomeip/src/storage/vsomeip_offered_requested.rs:122-132 | adds the key and says whether it is new |
| TransportEngine.InMemoryVsomeipOfferedRequestedRegistry.InsertServiceRequested | up-transport-vsomeip/src/storage/vsomeip_offered_requested.rs:148-158 | adds the key and says whether it is new |
| TransportEngine.InMemoryVsomeipOfferedRequestedRegistry.InsertEventOffered | up-transport-vsomeip/src/storage/vsomeip_offered_requested.rs:174-184 | adds the key and says whether it is new |
| TransportEngine.InMemoryVsomeipOfferedRequestedRegistry.InsertEventRequested | up-transport-vsomeip/src/storage/vsomeip_offered_requested.rs:200-210 | adds the key and says whether it is new |
| TransportEngine.UPTransportVsomeipEngine.RegisterListenerInternal | up-transport-vsomeip/src/transport_engine.rs:412-616 | check, vsomeip calls, insert, as one change of the engine state |
| TransportEngine.UPTransportVsomeipEngine.UnregisterListenerInternal | up-transport-vsomeip/src/transport_engine.rs:618-724 | unregisters at vsomeip and leaves the key sets alone |
| TransportEngine.UPTransportVsomeipEngine.UmsgPublishToVsomeipNotification | up-transport-vsomeip/src/message_conversions.rs:36-96 | yields service and event of the source, instance 1, and has that event offered before its first notification only |
| TransportEngine.UPTransportVsomeipEngine.SendInternalMessage | up-transport-vsomeip/src/transport_engine.rs:726-808 | acknowledges exactly what can be sent; then exactly the message due goes out: a request to its sink, a response from its source under the client and session of the request it answers, a publication as its event |
| TransportEngine.SendsWhatIsDue | up-transport-vsomeip/src/transport_engine.rs:763-805 | the same of the engine state: fields in plain arithmetic, what becomes of the pending entries, and nothing else transmitted |
| TransportEngine.UPTransportVsomeipEngine.ReturnOneshotResult | up-transport-vsomeip/src/transport_engine.rs:810-817 | puts one result on one return channel |
| TransportEngine.UPTransportVsomeipEngine.StopVsomeipAppInternal | up-transport-vsomeip/src/transport_engine.rs:848-867 | stops the application, or fails if there is none |
| TransportEngine.UPTransportVsomeipEngine.EventLoop | up-transport-vsomeip/src/transport_engine.rs:239-410 | for every queue, early continues included: exactly one result per command, on its channel and in arrival order, equal to its handler's answer in the state the earlier commands left; every sender has one reply, its own, if and only if no two share a channel; and the state is the fold of the handlers |
| EngineProperties.AgreesAlways | up-transport-vsomeip/src/transport_engine.rs:247-409 | after any commands the four key sets and the call log agree |
| EngineProperties.CachesAreExact | up-transport-vsomeip/src/transport_engine.rs:450-585 | an event is in a set if and only if its calls were made, and then once; service calls number the keys of the service |
| EngineProperties.NothingTooEarly | up-transport-vsomeip/src/transport_engine.rs:450-585 | every notification follows the offer of its event, an event handler its subscription, any other handler an offer or a request of its service |
| EngineProperties.RegistrationsAreFed | up-transport-vsomeip/src/transport_engine.rs:412-616 | an acknowledged registration registers its handler last; for a publication the subscription came before, for a request the offer of the service, for a response the request for the service |
| EngineProperties.RepliesTellTheTruth | up-transport-vsomeip/src/transport_engine.rs:239-410 | over any commands, transmissions, registrations of each handler, unregistrations and stops at vsomeip are exactly as many as were acknowledged |
| EngineProperties.AcknowledgedExactly | up-transport-vsomeip/src/transport_engine.rs:249-406 | exactly which commands are acknowledged; a refused one calls nothing and changes no key set; without an application all but a start are refused |
| RegistrationProperties.ServiceIsServed | up-transport-vsomeip/src/lib.rs:477-512 | the command sent for a configured service ends, at the engine, in a handler reached by exactly the messages to that service, after an offer of it |
| RegistrationProperties.RequestReachesListener | up-transport-vsomeip/src/transport_engine.rs:493-560 | a listener on a sink with a resource other than 0 has the sink's service offered, and its handler is reached by exactly the requests for the sink's entity and resource |
| RegistrationProperties.AnswerReachesAsker | up-transport-vsomeip/src/lib.rs:390-436 | the registration made for a response has the asked service requested, and its handler is reached by exactly the responses from the URI asked |
| RegistrationProperties.PublicationIsNotified | up-transport-vsomeip/src/transport_engine.rs:764-779 | a publication ends in the notification of the source's service and event, offered before |
| RegistrationProperties.PublicationReachesListener | up-transport-vsomeip/src/transport_engine.rs:434-489 | a listener on publications has subscribed, and its handler is reached by exactly the events of its entity and resource, heard as that URI in version 1 |
| RegistrationProperties.RegistrationIsRemembered | up-transport-vsomeip/src/transport_engine.rs:412-616 | a registration adds exactly its own key to its own key set, and offers or requests exactly service, event and version of its URI if the key is new |
| EngineProperties.UnregisterMatchesExactly | up-transport-vsomeip/src/transport_engine.rs:618-724 | when the key unregistered is the key registered: always for requests, never for publications, for responses only if source and sink agree |

## Left out

- vsomeip itself, the C++ bindings and message payloads: foreign calls are a log, a payload is present or not.
- Runtimes, threads, sleeps, timeouts, logging and the lifetime of weak references: a transport lives until Drop.
- Reading services from the configuration file: the service list, or the error reading it, is given.
- The pool of availability handlers, creating and starting an application: the same allocator idea in an easier
  form; how a start goes is a parameter of the engine model.
- The storage object, which only delegates, and the URI getters.
- Message validation, message and URI builders, listener comparison: outcomes are parameters, a listener is a
  number equal to itself only.
- SOME/IP peers that are not transports of this kind: `RpcProtocol` has transports at both ends, and
  notifications do not take part in it.
- Correlation from the 65535th request of a client on: the counter comes round, `RefusalShiftsNumbering` shows
  what may then happen.
- Transport.UPTransportVsomeip.Drop: states the tables when no other transport runs meanwhile; for other threads
  running in between see `DropGivesBackAmongThreads`. There the read locks of the listing are left out: a lookup
  may see the tables of any later state, which only allows more runs. Likewise the lock of the point-to-point
  listener.
- RpcProtocol's engine: sending in `RpcProtocol` is one action; the command loop in front of it is in
  `TransportEngine`, and a refused command there leaves no message.
- What vsomeip does with several handlers registered for the same key.
