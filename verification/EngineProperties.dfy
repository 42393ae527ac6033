/** The four key sets agree with the calls made on vsomeip, after every sequence of commands. */
module EngineProperties {
  import opened Common
  import opened Uris
  import opened Messages
  import opened MessageType
  import opened HandlerTables
  import opened MessageConversions
  import opened TransportEngine

  // ---------------------------------------------------------------- counting calls

  /** What an offering or requesting call is for. The version offered with a service does not matter here. */
  datatype Purpose =
    | ServiceOffer(service: U16)
    | ServiceOfferForEvent(service: U16)
    | ServiceRequest(service: U16)
    | ServiceRequestForEvent(service: U16)
    | EventOffer(key: Key)
    | EventRequest(key: Key)
    | EventSubscription(key: Key)
    | Other

  function PurposeOf(call: VsomeipCall): Purpose {
    match call
    case OfferService(s, _, _, minor) => if minor == DEFAULT_MINOR then ServiceOffer(s) else ServiceOfferForEvent(s)
    case RequestService(s, instance, _, _) =>
      if instance == ANY_INSTANCE then ServiceRequest(s) else ServiceRequestForEvent(s)
    case OfferEvent(key, _) => EventOffer(key)
    case RequestEvent(key, _) => EventRequest(key)
    case Subscribe(key, _, _) => EventSubscription(key)
    case _ => Other
  }

  ghost function Count(calls: seq<VsomeipCall>, p: Purpose): nat {
    if calls == [] then 0
    else Count(calls[..|calls| - 1], p) + if PurposeOf(calls[|calls| - 1]) == p then 1 else 0
  }

  lemma CountSnoc(calls: seq<VsomeipCall>, call: VsomeipCall, p: Purpose)
    ensures Count(calls + [call], p) == Count(calls, p) + if PurposeOf(call) == p then 1 else 0
  {
    assert (calls + [call])[..|calls|] == calls;
  }

  ghost function KeysOf(keys: set<Key>, service: U16): set<Key> {
    set key | key in keys && key.service == service
  }

  lemma KeysOfGrows(keys: set<Key>, key: Key, service: U16)
    requires key !in keys
    ensures |KeysOf(keys + {key}, service)| == |KeysOf(keys, service)| + if key.service == service then 1 else 0
  {
    assert KeysOf(keys + {key}, service) == KeysOf(keys, service) + if key.service == service then {key} else {};
  }

  /** How many calls of a purpose the key sets account for. */
  ghost function Expected(caches: Caches, p: Purpose): nat {
    match p
    case ServiceOffer(s) => |KeysOf(caches.offeredServices, s)|
    case ServiceOfferForEvent(s) => |KeysOf(caches.offeredEvents, s)|
    case ServiceRequest(s) => |KeysOf(caches.requestedServices, s)|
    case ServiceRequestForEvent(s) => |KeysOf(caches.requestedEvents, s)|
    case EventOffer(key) => if key in caches.offeredEvents then 1 else 0
    case EventRequest(key) => if key in caches.requestedEvents then 1 else 0
    case EventSubscription(key) => if key in caches.requestedEvents then 1 else 0
    case Other => 0
  }

  // ---------------------------------------------------------------- order of calls

  ghost predicate ServiceWasOffered(calls: seq<VsomeipCall>, service: U16) {
    exists major :: OfferService(service, INSTANCE, major, DEFAULT_MINOR) in calls
  }

  /** What must have been called before. */
  ghost predicate Prepared(before: seq<VsomeipCall>, call: VsomeipCall) {
    match call
    case OfferEvent(key, _) => OfferService(key.service, INSTANCE, ANY_MAJOR, ANY_MINOR) in before
    case Notify(key) => OfferEvent(key, key.item) in before
    case RequestEvent(key, _) => RequestService(key.service, INSTANCE, ANY_MAJOR, ANY_MINOR) in before
    case Subscribe(key, _, _) => RequestEvent(key, key.item) in before
    case RegisterHandler(key, _) =>
      if key.instance == ANY_INSTANCE then
        ServiceWasOffered(before, key.service)
            || RequestService(key.service, ANY_INSTANCE, ANY_MAJOR, ANY_MINOR) in before
      else
        Subscribe(key, ANY_MAJOR, key.item) in before
    case _ => true
  }

  ghost predicate Ordered(calls: seq<VsomeipCall>) {
    calls == [] || (Ordered(calls[..|calls| - 1]) && Prepared(calls[..|calls| - 1], calls[|calls| - 1]))
  }

  lemma OrderedSnoc(calls: seq<VsomeipCall>, call: VsomeipCall)
    requires Ordered(calls) && Prepared(calls, call)
    ensures Ordered(calls + [call])
  {
    assert (calls + [call])[..|calls|] == calls;
  }

  lemma {:induction false} OrderedEverywhere(calls: seq<VsomeipCall>, i: nat)
    requires Ordered(calls) && i < |calls|
    ensures Prepared(calls[..i], calls[i])
  {
    var n := |calls| - 1;
    if i < n {
      OrderedEverywhere(calls[..n], i);
      assert calls[..n][..i] == calls[..i];
    }
  }

  /** A key in a set stands for calls that were made. */
  ghost predicate Remembered(caches: Caches, calls: seq<VsomeipCall>) {
    && (forall key | key in caches.offeredServices :: ServiceWasOffered(calls, key.service))
    && (forall key | key in caches.requestedServices ::
        RequestService(key.service, ANY_INSTANCE, ANY_MAJOR, ANY_MINOR) in calls)
    && (forall key | key in caches.offeredEvents :: OfferEvent(key, key.item) in calls)
    && (forall key | key in caches.requestedEvents :: Subscribe(key, ANY_MAJOR, key.item) in calls)
  }

  ghost predicate Counted(caches: Caches, calls: seq<VsomeipCall>) {
    forall p | p != Other :: Count(calls, p) == Expected(caches, p)
  }

  ghost predicate Agrees(st: EngineState) {
    Ordered(st.calls) && Remembered(st.caches, st.calls) && Counted(st.caches, st.calls)
  }

  // ---------------------------------------------------------------- the commands

  lemma WasOfferedSnoc(calls: seq<VsomeipCall>, call: VsomeipCall, service: U16)
    requires ServiceWasOffered(calls, service)
    ensures ServiceWasOffered(calls + [call], service)
  {
    var major :| OfferService(service, INSTANCE, major, DEFAULT_MINOR) in calls;
    assert OfferService(service, INSTANCE, major, DEFAULT_MINOR) in calls + [call];
  }

  lemma RememberedSnoc(caches: Caches, calls: seq<VsomeipCall>, call: VsomeipCall)
    requires Remembered(caches, calls)
    ensures Remembered(caches, calls + [call])
  {
    forall key | key in caches.offeredServices
      ensures ServiceWasOffered(calls + [call], key.service)
    {
      WasOfferedSnoc(calls, call, key.service);
    }
  }

  /** A call that neither offers nor requests. */
  lemma PlainCall(st: EngineState, call: VsomeipCall)
    requires Agrees(st) && PurposeOf(call) == Other && Prepared(st.calls, call)
    ensures Agrees(st.(calls := st.calls + [call]))
  {
    OrderedSnoc(st.calls, call);
    RememberedSnoc(st.caches, st.calls, call);
    forall p | p != Other
      ensures Count(st.calls + [call], p) == Expected(st.caches, p)
    {
      CountSnoc(st.calls, call, p);
    }
  }

  lemma NewServiceOffered(st: EngineState, key: Key, major: U8)
    requires Agrees(st) && key !in st.caches.offeredServices
    ensures var call := OfferService(key.service, INSTANCE, major, DEFAULT_MINOR);
            Agrees(st.(caches := st.caches.(offeredServices := st.caches.offeredServices + {key}),
                      calls := st.calls + [call]))
  {
    var call := OfferService(key.service, INSTANCE, major, DEFAULT_MINOR);
    var caches := st.caches.(offeredServices := st.caches.offeredServices + {key});
    OrderedSnoc(st.calls, call);
    RememberedSnoc(st.caches, st.calls, call);
    assert call in st.calls + [call];
    forall p | p != Other
      ensures Count(st.calls + [call], p) == Expected(caches, p)
    {
      CountSnoc(st.calls, call, p);
      if p.ServiceOffer? {
        KeysOfGrows(st.caches.offeredServices, key, p.service);
      }
    }
  }

  lemma NewServiceRequested(st: EngineState, key: Key)
    requires Agrees(st) && key !in st.caches.requestedServices
    ensures var call := RequestService(key.service, ANY_INSTANCE, ANY_MAJOR, ANY_MINOR);
            Agrees(st.(caches := st.caches.(requestedServices := st.caches.requestedServices + {key}),
                      calls := st.calls + [call]))
  {
    var call := RequestService(key.service, ANY_INSTANCE, ANY_MAJOR, ANY_MINOR);
    var caches := st.caches.(requestedServices := st.caches.requestedServices + {key});
    OrderedSnoc(st.calls, call);
    RememberedSnoc(st.caches, st.calls, call);
    forall p | p != Other
      ensures Count(st.calls + [call], p) == Expected(caches, p)
    {
      CountSnoc(st.calls, call, p);
      if p.ServiceRequest? {
        KeysOfGrows(st.caches.requestedServices, key, p.service);
      }
    }
  }

  lemma CountPair(calls: seq<VsomeipCall>, c1: VsomeipCall, c2: VsomeipCall, p: Purpose)
    ensures Count(calls + [c1, c2], p) == Count(calls, p) + (if PurposeOf(c1) == p then 1 else 0)
            + (if PurposeOf(c2) == p then 1 else 0)
  {
    assert calls + [c1, c2] == calls + [c1] + [c2];
    CountSnoc(calls, c1, p);
    CountSnoc(calls + [c1], c2, p);
  }

  lemma CountedEventOffered(caches: Caches, calls: seq<VsomeipCall>, key: Key)
    requires Counted(caches, calls) && key !in caches.offeredEvents
    ensures Counted(caches.(offeredEvents := caches.offeredEvents + {key}),
                    calls + [OfferService(key.service, INSTANCE, ANY_MAJOR, ANY_MINOR), OfferEvent(key, key.item)])
  {
    var c1, c2 := OfferService(key.service, INSTANCE, ANY_MAJOR, ANY_MINOR), OfferEvent(key, key.item);
    forall p | p != Other
      ensures Count(calls + [c1, c2], p) == Expected(caches.(offeredEvents := caches.offeredEvents + {key}), p)
    {
      CountPair(calls, c1, c2, p);
      if p.ServiceOfferForEvent? {
        KeysOfGrows(caches.offeredEvents, key, p.service);
      }
    }
  }

  lemma CountedEventRequested(caches: Caches, calls: seq<VsomeipCall>, key: Key)
    requires Counted(caches, calls) && key !in caches.requestedEvents
    ensures Counted(caches.(requestedEvents := caches.requestedEvents + {key}),
                    calls + [RequestService(key.service, INSTANCE, ANY_MAJOR, ANY_MINOR), RequestEvent(key, key.item),
                        Subscribe(key, ANY_MAJOR, key.item)])
  {
    var c1, c2, c3 := RequestService(key.service, INSTANCE, ANY_MAJOR, ANY_MINOR), RequestEvent(key, key.item),
        Subscribe(key, ANY_MAJOR, key.item);
    assert calls + [c1, c2, c3] == calls + [c1, c2] + [c3];
    forall p | p != Other
      ensures Count(calls + [c1, c2, c3], p) == Expected(caches.(requestedEvents := caches.requestedEvents + {key}), p)
    {
      CountPair(calls, c1, c2, p);
      CountSnoc(calls + [c1, c2], c3, p);
      if p.ServiceRequestForEvent? {
        KeysOfGrows(caches.requestedEvents, key, p.service);
      }
    }
  }

  lemma NewEventOffered(st: EngineState, key: Key)
    requires Agrees(st) && key !in st.caches.offeredEvents
    ensures var calls := [OfferService(key.service, INSTANCE, ANY_MAJOR, ANY_MINOR), OfferEvent(key, key.item)];
            Agrees(st.(caches := st.caches.(offeredEvents := st.caches.offeredEvents + {key}),
                      calls := st.calls + calls))
  {
    var c1, c2 := OfferService(key.service, INSTANCE, ANY_MAJOR, ANY_MINOR), OfferEvent(key, key.item);
    CountedEventOffered(st.caches, st.calls, key);
    assert st.calls + [c1, c2] == st.calls + [c1] + [c2];
    OrderedSnoc(st.calls, c1);
    OrderedSnoc(st.calls + [c1], c2);
    RememberedSnoc(st.caches, st.calls, c1);
    RememberedSnoc(st.caches, st.calls + [c1], c2);
  }

  lemma NewEventRequested(st: EngineState, key: Key)
    requires Agrees(st) && key !in st.caches.requestedEvents
    ensures var calls := [RequestService(key.service, INSTANCE, ANY_MAJOR, ANY_MINOR), RequestEvent(key, key.item),
            Subscribe(key, ANY_MAJOR, key.item)];
            Agrees(st.(caches := st.caches.(requestedEvents := st.caches.requestedEvents + {key}),
                      calls := st.calls + calls))
  {
    var c1, c2, c3 := RequestService(key.service, INSTANCE, ANY_MAJOR, ANY_MINOR), RequestEvent(key, key.item),
        Subscribe(key, ANY_MAJOR, key.item);
    CountedEventRequested(st.caches, st.calls, key);
    var two := st.calls + [c1] + [c2];
    assert st.calls + [c1, c2, c3] == two + [c3];
    OrderedSnoc(st.calls, c1);
    OrderedSnoc(st.calls + [c1], c2);
    OrderedSnoc(two, c3);
    RememberedSnoc(st.caches, st.calls, c1);
    RememberedSnoc(st.caches, st.calls + [c1], c2);
    RememberedSnoc(st.caches, two, c3);
  }

  lemma RegisterAgrees(st: EngineState, source: UUri, sink: Option<UUri>, kind: RegistrationType, handler: HandlerId)
    requires Agrees(st)
    ensures Agrees(RegisterInternal(st, source, sink, kind, handler).0)
  {
    match kind
    case Publish =>
      var key := EventKey(source);
      var caches := st.caches.(requestedEvents := st.caches.requestedEvents + {key});
      var mid := st.(caches := caches);
      if key in st.caches.requestedEvents {
        assert caches == st.caches;
        assert st.calls + [] == st.calls;
      } else {
        NewEventRequested(st, key);
        mid := mid.(calls := st.calls + [RequestService(key.service, INSTANCE, ANY_MAJOR, ANY_MINOR),
            RequestEvent(key, key.item), Subscribe(key, ANY_MAJOR, key.item)]);
      }
      PlainCall(mid, RegisterHandler(key, handler));
    case Request =>
      if sink.Some? {
        var key := EventKey(sink.value);
        var caches := st.caches.(offeredServices := st.caches.offeredServices + {key});
        var mid := st.(caches := caches);
        if key in st.caches.offeredServices {
          assert caches == st.caches;
          assert st.calls + [] == st.calls;
        } else {
          NewServiceOffered(st, key, VersionOf(sink.value));
          mid := mid.(calls := st.calls + [OfferService(key.service, INSTANCE, VersionOf(sink.value), DEFAULT_MINOR)]);
        }
        assert ServiceWasOffered(mid.calls, key.service);
        PlainCall(mid, RegisterHandler(HandlerKey(sink.value), handler));
      }
    case Response =>
      var key := HandlerKey(source);
      var caches := st.caches.(requestedServices := st.caches.requestedServices + {key});
      var mid := st.(caches := caches);
      if key in st.caches.requestedServices {
        assert caches == st.caches;
        assert st.calls + [] == st.calls;
      } else {
        NewServiceRequested(st, key);
        mid := mid.(calls := st.calls + [RequestService(key.service, ANY_INSTANCE, ANY_MAJOR, ANY_MINOR)]);
      }
      PlainCall(mid, RegisterHandler(key, handler));
    case AllPointToPoint =>
  }

  lemma PublishAgrees(st: EngineState, umsg: UMessage)
    requires Agrees(st) && umsg.source.Some?
    ensures var (st', key) := PublishOut(st, umsg);
            key.Ok? && Agrees(st'.(calls := st'.calls + [Notify(key.value)]))
  {
    var key := EventKey(umsg.source.value);
    var mid := PublishOut(st, umsg).0;
    if key in st.caches.offeredEvents {
      assert st.caches.offeredEvents + {key} == st.caches.offeredEvents;
      assert st.calls + [] == st.calls;
      assert mid == st;
    } else {
      NewEventOffered(st, key);
    }
    PlainCall(mid, Notify(key));
  }

  lemma SendAgrees(st: EngineState, umsg: UMessage, client: U16)
    requires Agrees(st)
    ensures Agrees(SendInternal(st, umsg, client).0)
  {
    match umsg.kind
    case PUBLISH =>
      if umsg.source.Some? {
        PublishAgrees(st, umsg);
      }
    case REQUEST =>
      var (rpc', r) := RequestOut(st.rpc, umsg, client);
      if r.Ok? {
        PlainCall(st.(rpc := rpc'), SendMessage(r.value));
      }
    case RESPONSE =>
      var (rpc', r) := ResponseOut(st.rpc, umsg);
      if r.Ok? {
        PlainCall(st.(rpc := rpc'), SendMessage(r.value));
      }
    case _ =>
  }

  lemma HandleAgrees(st: EngineState, command: Command, env: Env)
    requires Agrees(st)
    ensures Agrees(Handle(st, command, env).0)
  {
    if env.appFound {
      match command
      case RegisterListener(source, sink, kind, handler) => RegisterAgrees(st, source, sink, kind, handler);
      case UnregisterListener(source, sink, kind) =>
        match kind {
          case Publish => PlainCall(st, UnregisterHandler(HandlerKey(source)));
          case AllPointToPoint =>
          case _ =>
            if sink.Some? {
              PlainCall(st, UnregisterHandler(HandlerKey(sink.value)));
            }
        }
      case Send(umsg, _) => SendAgrees(st, umsg, env.client);
      case StartVsomeipApp =>
      case StopVsomeipApp => PlainCall(st, StopApp);
    }
  }

  lemma {:induction false} NothingCounted(p: Purpose)
    requires p != Other
    ensures Count([], p) == Expected(INITIAL_ENGINE.caches, p)
  {
    match p
    case ServiceOffer(s) => assert KeysOf({}, s) == {};
    case ServiceOfferForEvent(s) => assert KeysOf({}, s) == {};
    case ServiceRequest(s) => assert KeysOf({}, s) == {};
    case ServiceRequestForEvent(s) => assert KeysOf({}, s) == {};
    case _ =>
  }

  /** After any sequence of commands the key sets and the call log agree. */
  lemma {:induction false} AgreesAlways(commands: seq<(Command, Env)>)
    ensures Agrees(StateAfter(INITIAL_ENGINE, commands))
  {
    if commands == [] {
      forall p | p != Other
        ensures Count([], p) == Expected(INITIAL_ENGINE.caches, p)
      {
        NothingCounted(p);
      }
    } else {
      var n := |commands| - 1;
      AgreesAlways(commands[..n]);
      HandleAgrees(StateAfter(INITIAL_ENGINE, commands[..n]), commands[n].0, commands[n].1);
    }
  }

  // ---------------------------------------------------------------- main results

  /**
   The caches are exact: an event is in a set exactly if the corresponding call was made for it, and then
   it was made once; the offers and requests of a service number the keys of that service in the set.
   */
  lemma CachesAreExact(commands: seq<(Command, Env)>, key: Key, service: U16)
    ensures var st := StateAfter(INITIAL_ENGINE, commands);
            && Count(st.calls, EventOffer(key)) == (if key in st.caches.offeredEvents then 1 else 0)
            && Count(st.calls, EventRequest(key)) == (if key in st.caches.requestedEvents then 1 else 0)
            && Count(st.calls, EventSubscription(key)) == (if key in st.caches.requestedEvents then 1 else 0)
            && Count(st.calls, ServiceOffer(service)) == |KeysOf(st.caches.offeredServices, service)|
            && Count(st.calls, ServiceOfferForEvent(service)) == |KeysOf(st.caches.offeredEvents, service)|
            && Count(st.calls, ServiceRequest(service)) == |KeysOf(st.caches.requestedServices, service)|
            && Count(st.calls, ServiceRequestForEvent(service)) == |KeysOf(st.caches.requestedEvents, service)|
  {
    AgreesAlways(commands);
    var st := StateAfter(INITIAL_ENGINE, commands);
    assert Counted(st.caches, st.calls);
    assert Expected(st.caches, EventOffer(key)) == if key in st.caches.offeredEvents then 1 else 0;
  }

  lemma Earlier(calls: seq<VsomeipCall>, i: nat, call: VsomeipCall)
    requires i <= |calls| && call in calls[..i]
    ensures exists j | 0 <= j < i :: calls[j] == call
  {
    var j :| 0 <= j < i && calls[..i][j] == call;
    assert calls[j] == call;
  }

  /**
   Every notification comes after the offer of its event, and every handler after the offer or request that
   feeds it.
   */
  lemma NothingTooEarly(commands: seq<(Command, Env)>, i: nat)
    requires i < |StateAfter(INITIAL_ENGINE, commands).calls|
    ensures var calls := StateAfter(INITIAL_ENGINE, commands).calls;
            match calls[i]
            case Notify(key) => exists j | 0 <= j < i :: calls[j] == OfferEvent(key, key.item)
            case RegisterHandler(key, _) =>
              if key.instance == ANY_INSTANCE then
                exists j | 0 <= j < i :: PurposeOf(calls[j]) == ServiceOffer(key.service)
                    || PurposeOf(calls[j]) == ServiceRequest(key.service)
              else
                exists j | 0 <= j < i :: calls[j] == Subscribe(key, ANY_MAJOR, key.item)
            case _ => true
  {
    AgreesAlways(commands);
    var calls := StateAfter(INITIAL_ENGINE, commands).calls;
    OrderedEverywhere(calls, i);
    match calls[i]
    case Notify(key) => Earlier(calls, i, OfferEvent(key, key.item));
    case RegisterHandler(key, _) =>
      if key.instance != ANY_INSTANCE {
        Earlier(calls, i, Subscribe(key, ANY_MAJOR, key.item));
      } else if ServiceWasOffered(calls[..i], key.service) {
        var major :| OfferService(key.service, INSTANCE, major, DEFAULT_MINOR) in calls[..i];
        Earlier(calls, i, OfferService(key.service, INSTANCE, major, DEFAULT_MINOR));
      } else {
        Earlier(calls, i, RequestService(key.service, ANY_INSTANCE, ANY_MAJOR, ANY_MINOR));
      }
    case _ =>
  }

  /**
   Each acknowledged registration ends with its handler, and what feeds that very kind of listener came
   before: the subscription of the event, the offer of the service, or the request for the service.
   */
  lemma RegistrationsAreFed(commands: seq<(Command, Env)>, source: UUri, sink: Option<UUri>, kind: RegistrationType,
                            handler: HandlerId, env: Env)
    requires Handle(StateAfter(INITIAL_ENGINE, commands), RegisterListener(source, sink, kind, handler), env).1.Ok?
    ensures var command := RegisterListener(source, sink, kind, handler);
            var calls := Handle(StateAfter(INITIAL_ENGINE, commands), command, env).0.calls;
            var n := |calls| - 1;
            && n >= 0
            && match kind
               case Publish =>
                 && calls[n] == RegisterHandler(EventKey(source), handler)
                 && Subscribe(EventKey(source), ANY_MAJOR, MethodOf(source)) in calls[..n]
               case Request =>
                 && sink.Some? && calls[n] == RegisterHandler(HandlerKey(sink.value), handler)
                 && ServiceWasOffered(calls[..n], ServiceOf(sink.value))
               case Response =>
                 && calls[n] == RegisterHandler(HandlerKey(source), handler)
                 && RequestService(ServiceOf(source), ANY_INSTANCE, ANY_MAJOR, ANY_MINOR) in calls[..n]
               case AllPointToPoint => false
  {
    AgreesAlways(commands);
    var st := StateAfter(INITIAL_ENGINE, commands);
    assert Remembered(st.caches, st.calls);
    var calls := RegisterInternal(st, source, sink, kind, handler).0.calls;
    var n := |calls| - 1;
    assert calls[..n] == st.calls + calls[|st.calls|..n];
    match kind
    case Publish =>
      if EventKey(source) !in st.caches.requestedEvents {
        assert calls[n - 1] == Subscribe(EventKey(source), ANY_MAJOR, MethodOf(source));
      }
    case Request =>
      if EventKey(sink.value) !in st.caches.offeredServices {
        assert calls[n - 1] == OfferService(ServiceOf(sink.value), INSTANCE, VersionOf(sink.value), DEFAULT_MINOR);
      } else {
        var major :| OfferService(ServiceOf(sink.value), INSTANCE, major, DEFAULT_MINOR) in st.calls;
        assert OfferService(ServiceOf(sink.value), INSTANCE, major, DEFAULT_MINOR) in calls[..n];
      }
    case Response =>
      if HandlerKey(source) !in st.caches.requestedServices {
        assert calls[n - 1] == RequestService(ServiceOf(source), ANY_INSTANCE, ANY_MAJOR, ANY_MINOR);
      }
    case AllPointToPoint =>
  }

  // ---------------------------------------------------------------- replies and effects

  /** What a call on vsomeip, or a command, is for; offers and requests only prepare. */
  datatype Effect = Transmission | Registration(handler: HandlerId) | Unregistration | Stopping | Preparation

  function EffectOf(call: VsomeipCall): Effect {
    match call
    case Notify(_) => Transmission
    case SendMessage(_) => Transmission
    case RegisterHandler(_, handler) => Registration(handler)
    case UnregisterHandler(_) => Unregistration
    case StopApp => Stopping
    case _ => Preparation
  }

  function EffectDue(command: Command): Effect {
    match command
    case Send(_, _) => Transmission
    case RegisterListener(_, _, _, handler) => Registration(handler)
    case UnregisterListener(_, _, _) => Unregistration
    case StopVsomeipApp => Stopping
    case StartVsomeipApp => Preparation
  }

  ghost function Tally(calls: seq<VsomeipCall>, e: Effect): nat {
    if calls == [] then 0
    else Tally(calls[..|calls| - 1], e) + if EffectOf(calls[|calls| - 1]) == e then 1 else 0
  }

  /** How many commands with an effect were acknowledged. */
  ghost function Acknowledgements(commands: seq<(Command, Env)>, e: Effect): nat {
    if commands == [] then 0
    else
      var n := |commands| - 1;
      Acknowledgements(commands[..n], e)
      + if EffectDue(commands[n].0) == e
           && Handle(StateAfter(INITIAL_ENGINE, commands[..n]), commands[n].0, commands[n].1).1.Ok? then 1 else 0
  }

  lemma TallySnoc(calls: seq<VsomeipCall>, call: VsomeipCall, e: Effect)
    ensures Tally(calls + [call], e) == Tally(calls, e) + if EffectOf(call) == e then 1 else 0
  {
    assert (calls + [call])[..|calls|] == calls;
  }

  lemma {:induction false} PreparingTallies(calls: seq<VsomeipCall>, preparing: seq<VsomeipCall>, call: VsomeipCall,
                                            e: Effect)
    requires e != Preparation && forall c | c in preparing :: EffectOf(c) == Preparation
    ensures Tally(calls + preparing + [call], e) == Tally(calls, e) + if EffectOf(call) == e then 1 else 0
  {
    TallySnoc(calls + preparing, call, e);
    if preparing == [] {
      assert calls + preparing == calls;
    } else {
      var n := |preparing| - 1;
      assert calls + preparing == calls + preparing[..n] + [preparing[n]];
      PreparingTallies(calls, preparing[..n], preparing[n], e);
    }
  }

  /** A successful registration prepares, if need be, and then registers the handler. */
  lemma RegisterCalls(st: EngineState, source: UUri, sink: Option<UUri>, kind: RegistrationType, handler: HandlerId)
    returns (preparing: seq<VsomeipCall>, last: VsomeipCall)
    requires RegisterInternal(st, source, sink, kind, handler).1.Ok?
    ensures RegisterInternal(st, source, sink, kind, handler).0.calls == st.calls + preparing + [last]
    ensures EffectOf(last) == Registration(handler) && forall c | c in preparing :: EffectOf(c) == Preparation
  {
    var calls := RegisterInternal(st, source, sink, kind, handler).0.calls;
    var n := |calls| - 1;
    preparing, last := calls[|st.calls|..n], calls[n];
  }

  /** A successful send prepares, if need be, and then transmits. */
  lemma SendCalls(st: EngineState, umsg: UMessage, client: U16) returns (preparing: seq<VsomeipCall>, last: VsomeipCall)
    requires SendInternal(st, umsg, client).1.Ok?
    ensures SendInternal(st, umsg, client).0.calls == st.calls + preparing + [last]
    ensures EffectOf(last) == Transmission && forall c | c in preparing :: EffectOf(c) == Preparation
  {
    var calls := SendInternal(st, umsg, client).0.calls;
    var n := |calls| - 1;
    preparing, last := calls[|st.calls|..n], calls[n];
  }

  /** What it takes for a command to be acknowledged. */
  ghost predicate Feasible(st: EngineState, command: Command, env: Env) {
    match command
    case StartVsomeipApp => env.startResult.Ok?
    case StopVsomeipApp => env.appFound
    case RegisterListener(_, sink, kind, _) =>
      env.appFound && kind != AllPointToPoint && (kind == Request ==> sink.Some?)
    case UnregisterListener(_, sink, kind) =>
      env.appFound && kind != AllPointToPoint && (kind != Publish ==> sink.Some?)
    case Send(umsg, _) => env.appFound && Sendable(st, umsg, env.client)
  }

  /** A command is acknowledged exactly if it is feasible; otherwise vsomeip is not called and the key sets stay. */
  lemma AcknowledgedExactly(st: EngineState, command: Command, env: Env)
    ensures var (st', r) := Handle(st, command, env);
            && (r.Ok? <==> Feasible(st, command, env))
            && (r.Err? ==> st'.calls == st.calls && st'.caches == st.caches)
            && (!env.appFound && !command.StartVsomeipApp? ==> (st', r) == (st, Err(INTERNAL)))
            && (command.StartVsomeipApp? ==> (st', r) == (st, env.startResult))
  {
    if command.Send? {
      SendsWhatIsDue(st, command.message, env.client);
    }
  }

  lemma RegisterTallies(st: EngineState, source: UUri, sink: Option<UUri>, kind: RegistrationType, handler: HandlerId,
                        e: Effect)
    requires e != Preparation && RegisterInternal(st, source, sink, kind, handler).1.Ok?
    ensures Tally(RegisterInternal(st, source, sink, kind, handler).0.calls, e)
            == Tally(st.calls, e) + if e == Registration(handler) then 1 else 0
  {
    var preparing, last := RegisterCalls(st, source, sink, kind, handler);
    PreparingTallies(st.calls, preparing, last, e);
  }

  lemma SendTallies(st: EngineState, umsg: UMessage, client: U16, e: Effect)
    requires e != Preparation && SendInternal(st, umsg, client).1.Ok?
    ensures Tally(SendInternal(st, umsg, client).0.calls, e) == Tally(st.calls, e) + if e == Transmission then 1 else 0
  {
    var preparing, last := SendCalls(st, umsg, client);
    PreparingTallies(st.calls, preparing, last, e);
  }

  lemma UnregisterTallies(st: EngineState, source: UUri, sink: Option<UUri>, kind: RegistrationType, e: Effect)
    requires e != Preparation && UnregisterInternal(st, source, sink, kind).1.Ok?
    ensures Tally(UnregisterInternal(st, source, sink, kind).0.calls, e)
            == Tally(st.calls, e) + if e == Unregistration then 1 else 0
  {
    TallySnoc(st.calls, UnregisterHandler(HandlerKey(if kind == Publish then source else sink.value)), e);
  }

  lemma HandleTallies(st: EngineState, command: Command, env: Env, e: Effect)
    requires e != Preparation
    ensures var (st', r) := Handle(st, command, env);
            Tally(st'.calls, e) == Tally(st.calls, e) + if r.Ok? && EffectDue(command) == e then 1 else 0
  {
    if Handle(st, command, env).1.Err? {
      AcknowledgedExactly(st, command, env);
      return;
    }
    match command
    case RegisterListener(source, sink, kind, handler) => RegisterTallies(st, source, sink, kind, handler, e);
    case UnregisterListener(source, sink, kind) => UnregisterTallies(st, source, sink, kind, e);
    case Send(umsg, _) => SendTallies(st, umsg, env.client, e);
    case StartVsomeipApp =>
    case StopVsomeipApp => TallySnoc(st.calls, StopApp, e);
  }

  /**
   Replies tell the truth: over any sequence of commands, vsomeip has been asked to transmit, to register
   each handler, to unregister and to stop exactly as often as such a command was acknowledged.
   */
  lemma {:induction false} RepliesTellTheTruth(commands: seq<(Command, Env)>, e: Effect)
    requires e != Preparation
    ensures Tally(StateAfter(INITIAL_ENGINE, commands).calls, e) == Acknowledgements(commands, e)
  {
    if commands != [] {
      var n := |commands| - 1;
      RepliesTellTheTruth(commands[..n], e);
      HandleTallies(StateAfter(INITIAL_ENGINE, commands[..n]), commands[n].0, commands[n].1, e);
    }
  }

  /**
   Unregistering is not always the inverse of registering: the key unregistered is the key registered
   exactly for requests, and for responses whose source and sink have the same service and method. It never
   is for a publication, which is registered with one instance and unregistered with another.
   */
  lemma UnregisterMatchesExactly(st: EngineState, st2: EngineState, source: UUri, sink: Option<UUri>,
                                 kind: RegistrationType, handler: HandlerId)
    requires RegisterInternal(st, source, sink, kind, handler).1.Ok?
             && UnregisterInternal(st2, source, sink, kind).1.Ok?
    ensures var made := RegisterInternal(st, source, sink, kind, handler).0.calls;
            var undone := UnregisterInternal(st2, source, sink, kind).0.calls;
            && |made| > |st.calls| && made[|made| - 1].RegisterHandler? && made[|made| - 1].handler == handler
            && |undone| == |st2.calls| + 1
            && undone[|st2.calls|] == UnregisterHandler(HandlerKey(if kind == Publish then source else sink.value))
            && (undone[|st2.calls|].key == made[|made| - 1].key
                <==> kind == Request
                     || (kind == Response && ServiceOf(source) == ServiceOf(sink.value)
                         && MethodOf(source) == MethodOf(sink.value)))
  {
    assert INSTANCE != ANY_INSTANCE;
  }
}
