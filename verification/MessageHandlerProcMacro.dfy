/**
 The process as the generated extern fns find it: the statics, the registry of every transport, and the
 dispatcher that routes a callback in two separate lookups. Its history is kept for the proofs.
 */
module MessageHandlerProcMacro {
  import opened Common
  import opened Messages
  import opened HandlerTables
  import opened RpcCorrelation
  import opened MessageConversions
  import opened MessageHandlerRegistry

  /** What may happen to the process while a callback is between its lookups. */
  datatype Call =
    | CreateTransport(t: TransportId)
    | GetHandler(t: TransportId, config: ListenerConfig)
    | ReleaseHandler(t: TransportId, config: ListenerConfig)

  lemma OwnerBinds(n: nat, history: seq<Event>, t: TransportId, id: HandlerId)
    requires LegalRun(n, history)
    ensures var tb := After(n, history);
            && (id in tb.owner ==> tb.owner[id] in tb.bound)
            && (t in tb.bound ==>
                Injective(tb.bound[t]) && (id in tb.bound[t] <==> id in tb.owner && tb.owner[id] == t))
  {
    ConsistentAlways(n, history);
    var tb := After(n, history);
    if id in tb.owner {
      assert tb.owner[id] in tb.owner.Values;
    }
    if t in tb.bound {
      assert Agree(tb.owner, t, tb.bound[t]);
    }
  }

  predicate IsAnswer(m: SomeIpMessage) {
    m.kind == MT_RESPONSE || m.kind == MT_ERROR
  }

  class Process {
    const statics: HandlerStatics
    var registries: map<TransportId, InMemoryMessageHandlerRegistry>
    ghost var history: seq<Event>

    ghost function View(): Tables
      reads this, statics, registries.Values
    {
      Tables(statics.freeIds, statics.owner, map t | t in registries :: registries[t].bound)
    }

    /** No two transports share a registry, and the tables are what the history makes of them. */
    ghost predicate Valid()
      reads this, statics, registries.Values
    {
      && (forall t, u | t in registries && u in registries && registries[t] == registries[u] :: t == u)
      && LegalRun(statics.numFns, history)
      && View() == After(statics.numFns, history)
    }

    constructor (n: nat)
      ensures Valid() && fresh(statics) && statics.numFns == n && registries == map[] && history == []
    {
      statics := new HandlerStatics(n);
      registries := map[];
      history := [];
    }

    /** Transports stay, and the history only grows. */
    twostate predicate Evolved()
      reads this, registries.Values
    {
      && old(history) <= history
      && (forall t | t in old(registries) :: t in registries && registries[t] == old(registries)[t])
      && (forall t | t in registries && t !in old(registries) :: fresh(registries[t]))
    }

    /** A change of one registry leaves the bindings of the others alone. */
    lemma OthersStay(before: Tables, t: TransportId)
      requires forall u | u in registries && u != t :: u in before.bound && registries[u].bound == before.bound[u]
      requires t in registries && registries.Keys == before.bound.Keys + {t}
      ensures View().bound == before.bound[t := registries[t].bound]
    {
      var bound := before.bound[t := registries[t].bound];
      assert View().bound.Keys == bound.Keys;
      assert forall u | u in registries :: View().bound[u] == registries[u].bound == bound[u];
    }

    method Create(t: TransportId)
      requires Valid()
      modifies this`registries, this`history
      ensures Valid() && Evolved()
      ensures history == if t in old(registries) then old(history) else old(history) + [Event.Create(t)]
    {
      if t in registries {
        return;
      }
      ghost var before, events := View(), history;
      var registry := new InMemoryMessageHandlerRegistry();
      registries := registries[t := registry];
      history := history + [Event.Create(t)];
      OthersStay(before, t);
      assert View() == Do(before, Event.Create(t));
      RunSnoc(statics.numFns, events, Event.Create(t));
    }

    method Get(t: TransportId, config: ListenerConfig) returns (r: GetResult)
      requires Valid() && t in registries
      modifies this`history, statics`freeIds, statics`owner, registries[t]
      ensures Valid() && history == old(history) + [Act(t, HandlerTables.Get(config, r))]
    {
      ghost var before := View();
      r := registries[t].GetMessageHandler(statics, t, config);
      RunSnoc(statics.numFns, history, Act(t, HandlerTables.Get(config, r)));
      OthersStay(before, t);
      assert View() == before.With(t, Apply(before.Of(t), t, HandlerTables.Get(config, r)));
      history := history + [Act(t, HandlerTables.Get(config, r))];
    }

    method Release(t: TransportId, config: ListenerConfig) returns (r: Status)
      requires Valid() && t in registries
      modifies this`history, statics`freeIds, statics`owner, registries[t]
      ensures Valid() && history == old(history) + [Act(t, HandlerTables.Release(config))]
    {
      ghost var before := View();
      OwnerBinds(statics.numFns, history, t, 0);
      var warnings;
      r, warnings := registries[t].ReleaseMessageHandler(statics, t, config);
      RunSnoc(statics.numFns, history, Act(t, HandlerTables.Release(config)));
      OthersStay(before, t);
      assert View() == before.With(t, Apply(before.Of(t), t, HandlerTables.Release(config)));
      history := history + [Act(t, HandlerTables.Release(config))];
    }

    /** Other threads at work. Calls on a transport that does not exist cannot be made. */
    method Meanwhile(calls: seq<Call>)
      requires Valid()
      modifies this, statics`freeIds, statics`owner, registries.Values
      ensures Valid() && Evolved()
      ensures calls == [] ==> history == old(history)
    {
      for i := 0 to |calls|
        invariant Valid() && Evolved()
        invariant i == 0 ==> history == old(history)
      {
        match calls[i] {
          case CreateTransport(t) =>
            Create(t);
          case GetHandler(t, config) =>
            if t in registries {
              var r := Get(t, config);
            }
          case ReleaseHandler(t, config) =>
            if t in registries {
              var r := Release(t, config);
            }
        }
      }
    }

    /** The bijections say of an id what the transport map says. */
    lemma OwnedAlone(id: HandlerId, t: TransportId)
      requires Valid() && t in registries
      ensures id in registries[t].bound <==> id in statics.owner && statics.owner[id] == t
      ensures id in registries[t].bound ==> forall u | u in View().bound && u != t :: id !in View().bound[u]
    {
      forall u | u in View().bound
        ensures id in View().bound[u] <==> id in statics.owner && statics.owner[id] == u
      {
        OwnerBinds(statics.numFns, history, u, id);
      }
      assert View().bound[t] == registries[t].bound;
    }

    /** Who is called for id, the first lookup having found t and the conversion having come to umsg. */
    ghost predicate Delivered(id: HandlerId, t: TransportId, umsg: Result<UMessage, UCode>,
                              called: Option<(ListenerId, UMessage)>)
      reads this, statics, registries.Values
    {
      if umsg.Ok? && id in statics.owner && statics.owner[id] == t then
        && t in registries && id in registries[t].bound
        && called == Some((registries[t].bound[id].listener, umsg.value))
        && forall u | u in View().bound && u != t :: id !in View().bound[u]
      else
        called == None
    }

    /** The first lookup. */
    method FirstLookup(id: HandlerId) returns (t: Option<TransportId>)
      requires Valid()
      ensures t == if id in statics.owner then Some(statics.owner[id]) else None
      ensures t.Some? ==> t.value in registries
    {
      t := statics.TransportOf(id);
      OwnerBinds(statics.numFns, history, 0, id);
      assert t.Some? ==> t.value in View().bound;
    }

    /** The conversion; an answer is consumed by it, whatever follows. */
    method Convert(m: SomeIpMessage, hasPayload: bool, self: Endpoint, correlation: InMemoryRpcCorrelationRegistry,
                   b: Builder)
      returns (umsg: Result<UMessage, UCode>)
      requires Valid()
      modifies correlation
      ensures Valid()
      ensures (correlation.View(), umsg) == MessageIn(old(correlation.View()), m, hasPayload, self, b)
      ensures IsAnswer(m) && hasPayload && b.uriOk ==> m.RequestId() !in correlation.ueRequests
    {
      umsg := ConvertVsomeipMsgToUmsg(m, hasPayload, self, correlation, b);
    }

    /** The second lookup, once other threads have done something to the handler tables. */
    method SecondLookup(id: HandlerId, t: TransportId, umsg: Result<UMessage, UCode>, meanwhile: seq<Call>)
      returns (called: Option<(ListenerId, UMessage)>)
      requires Valid() && t in registries
      modifies this, statics`freeIds, statics`owner, registries.Values
      ensures Valid() && Evolved() && Delivered(id, t, umsg, called)
      ensures meanwhile == [] ==> history == old(history)
    {
      var registry := registries[t];
      Meanwhile(meanwhile);
      if umsg.Err? {
        return None;
      }
      var listener := registry.ListenerFor(id);
      OwnedAlone(id, t);
      called := if listener.Some? then Some((listener.value, umsg.value)) else None;
    }

    /** What follows the first lookup. */
    method Deliver(id: HandlerId, t: TransportId, m: SomeIpMessage, hasPayload: bool, self: Endpoint,
                   correlation: InMemoryRpcCorrelationRegistry, b: Builder, meanwhile: seq<Call>)
      returns (called: Option<(ListenerId, UMessage)>, umsg: Result<UMessage, UCode>)
      requires Valid() && t in registries
      modifies this, statics`freeIds, statics`owner, registries.Values, correlation
      ensures Valid() && Evolved() && Delivered(id, t, umsg, called)
      ensures meanwhile == [] ==> history == old(history)
      ensures (correlation.View(), umsg) == MessageIn(old(correlation.View()), m, hasPayload, self, b)
      ensures IsAnswer(m) && hasPayload && b.uriOk ==> m.RequestId() !in correlation.ueRequests
    {
      umsg := Convert(m, hasPayload, self, correlation, b);
      called := SecondLookup(id, t, umsg, meanwhile);
    }

    /**
     A callback for id with a message. Between its two lookups the message is converted, and other threads may
     do anything to the handler tables; whether before or after the conversion makes no difference to them. A
     listener is called exactly if the conversion succeeds and the transport that owned the id at the first
     lookup owns it at the second; and then it is the one that transport has bound to the id there, and it gets
     the converted message. The correlation state changes as the conversion says, be a listener called or not:
     a response is consumed even if its listener has meanwhile gone.
     */
    method CallSharedExternFn(id: HandlerId, m: SomeIpMessage, hasPayload: bool, b: Builder,
                              correlations: map<TransportId, InMemoryRpcCorrelationRegistry>,
                              endpoints: TransportId -> Endpoint, meanwhile: seq<Call>)
      returns (called: Option<(ListenerId, UMessage)>, umsg: Result<UMessage, UCode>)
      requires Valid() && registries.Keys <= correlations.Keys
      modifies this, statics`freeIds, statics`owner, registries.Values, correlations.Values
      ensures Valid() && Evolved()
      ensures meanwhile == [] ==> history == old(history)
      ensures id !in old(statics.owner) ==>
                called.None? && forall u | u in correlations :: correlations[u].View() == old(correlations[u].View())
      ensures id in old(statics.owner) ==>
                var t := old(statics.owner)[id];
                && t in correlations
                && (correlations[t].View(), umsg)
                   == MessageIn(old(correlations[t].View()), m, hasPayload, endpoints(t), b)
                && (IsAnswer(m) && hasPayload && b.uriOk ==> m.RequestId() !in correlations[t].ueRequests)
                && Delivered(id, t, umsg, called)
                && forall u | u in correlations && correlations[u] != correlations[t] ::
                     correlations[u].View() == old(correlations[u].View())
    {
      var transport := FirstLookup(id);
      if transport.None? {
        Meanwhile(meanwhile);
        return None, Err(NOT_FOUND);
      }
      var t := transport.value;
      called, umsg := Deliver(id, t, m, hasPayload, endpoints(t), correlations[t], b, meanwhile);
    }
  }
}
