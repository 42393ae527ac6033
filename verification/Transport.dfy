/**
 The transport: registration, point-to-point registration, the implicit registration made when a
 request is sent, and Drop. Each operation also reports, for the proofs, the calls it made on the
 handler registry.
 */
module Transport {
  import opened Common
  import opened Uris
  import opened Messages
  import opened MessageType
  import opened HandlerTables
  import opened MessageHandlerRegistry
  import opened TransportEngine

  datatype ServiceConfig = ServiceConfig(service: U16, instance: U16)

  /** What a call does: it returns, or it panics. */
  datatype Outcome<+T> = Returned(result: Result<T, UCode>) | Panicked

  /** The command channel of a live engine. What it answers, and whether in time, is not known beforehand. */
  class EngineChannel {
    const replies: nat -> Status
    var sent: seq<Command>

    constructor (replies: nat -> Status)
      ensures this.replies == replies && sent == []
    {
      this.replies := replies;
      sent := [];
    }

    method Submit(command: Command) returns (reply: Status)
      modifies this
      ensures sent == old(sent) + [command]
      ensures reply == replies(|old(sent)|)
    {
      reply := replies(|sent|);
      sent := sent + [command];
    }
  }

  /** A configuration that `UnregisterListener` hands to the registry rather than to the point-to-point branch. */
  predicate Releasable(config: ListenerConfig) {
    DetermineType(config.source, config.sink) != AllPointToPoint
  }

  ghost predicate AllReleasable(bound: Bindings) {
    forall id | id in bound :: Releasable(bound[id])
  }

  /** The filter that matches any source, and one that matches all resources of the configured service instance. */
  predicate FiltersService(source: UUri, sink: Option<UUri>, authority: string, service: ServiceConfig) {
    && source == UUri("*", 0xFFFF_FFFF, 0xFF, 0xFFFF)
    && sink.Some? && sink.value.authority == authority
    && sink.value.ueId % 0x1_0000 == service.service && sink.value.ueId / 0x1_0000 == service.instance
    && sink.value.version == 0xFF && sink.value.resource == 0xFFFF
  }

  /** The filters registered for one configured service. */
  function ServiceListener(authority: string, service: ServiceConfig, listener: ListenerId): (config: ListenerConfig)
    ensures FiltersService(config.source, config.sink, authority, service) && config.listener == listener
  {
    JoinSplitInverse(service.instance, service.service, 0);
    var sink := AnyUuriFixedAuthorityId(authority, JoinU16(service.instance, service.service));
    ListenerConfig(ANY_UURI, Some(sink), listener)
  }

  function ServiceListeners(authority: string, services: seq<ServiceConfig>,
                            listener: ListenerId): (configs: seq<ListenerConfig>)
    ensures |configs| == |services|
    ensures forall i | 0 <= i < |services| :: configs[i] == ServiceListener(authority, services[i], listener)
  {
    seq(|services|, i requires 0 <= i < |services| => ServiceListener(authority, services[i], listener))
  }

  /** The successful gets of a prefix of the configurations. */
  ghost function Gets(configs: seq<ListenerConfig>, ids: seq<HandlerId>): (ops: seq<Op>)
    requires |ids| <= |configs|
    ensures |ops| == |ids|
  {
    if ids == [] then []
    else Gets(configs, ids[..|ids| - 1]) + [Get(configs[|ids| - 1], Ok(ids[|ids| - 1]))]
  }

  ghost function Releases(configs: seq<ListenerConfig>): seq<Op> {
    if configs == [] then []
    else Releases(configs[..|configs| - 1]) + [Release(configs[|configs| - 1])]
  }

  /** The configurations whose engine command was answered with success, the first command being number base. */
  ghost function Acknowledged(configs: seq<ListenerConfig>, replies: nat -> Status, base: nat): seq<ListenerConfig> {
    if configs == [] then []
    else
      var n := |configs| - 1;
      Acknowledged(configs[..n], replies, base) + if replies(base + n).Ok? then [configs[n]] else []
  }

  ghost function RegisterCommands(configs: seq<ListenerConfig>, ids: seq<HandlerId>): (commands: seq<Command>)
    requires |ids| <= |configs|
    ensures |commands| == |ids|
  {
    if ids == [] then []
    else
      var n := |ids| - 1;
      RegisterCommands(configs, ids[..n]) + [RegisterListener(configs[n].source, configs[n].sink, Request, ids[n])]
  }

  function UnregisterCommand(config: ListenerConfig): Command {
    UnregisterListener(config.source, config.sink, DetermineType(config.source, config.sink))
  }

  /** The command has the engine register a handler for requests to the service. */
  predicate RegistersService(command: Command, authority: string, service: ServiceConfig, id: HandlerId) {
    && command.RegisterListener? && command.kind == Request && command.handler == id
    && FiltersService(command.source, command.sink, authority, service)
  }

  /** The commands of the registration loop name the services one after the other, with the ids handed out. */
  lemma {:induction false} RegistersEachService(authority: string, services: seq<ServiceConfig>, listener: ListenerId,
                                                ids: seq<HandlerId>, i: nat)
    requires i < |ids| <= |services|
    ensures RegistersService(RegisterCommands(ServiceListeners(authority, services, listener), ids)[i],
                             authority, services[i], ids[i])
  {
    var configs := ServiceListeners(authority, services, listener);
    var n := |ids| - 1;
    if i < n {
      RegistersEachService(authority, services, listener, ids[..n], i);
    } else {
      assert configs[n] == ServiceListener(authority, services[n], listener);
    }
  }

  ghost function UnregisterCommands(configs: seq<ListenerConfig>): (commands: seq<Command>)
    ensures |commands| == |configs|
  {
    if configs == [] then []
    else UnregisterCommands(configs[..|configs| - 1]) + [UnregisterCommand(configs[|configs| - 1])]
  }

  lemma ReleasesSnoc(configs: seq<ListenerConfig>, config: ListenerConfig)
    ensures Releases(configs + [config]) == Releases(configs) + [Release(config)]
  {
    assert (configs + [config])[..|configs|] == configs;
  }

  lemma {:induction false} ReleasesAre(configs: seq<ListenerConfig>)
    ensures forall op :: op in Releases(configs) <==> op.Release? && op.config in configs
  {
    if configs != [] {
      var n := |configs| - 1;
      ReleasesAre(configs[..n]);
      assert configs == configs[..n] + [configs[n]];
    }
  }

  /** The configurations some calls are about. */
  ghost function ConfigsOf(ops: seq<Op>): (configs: seq<ListenerConfig>)
    ensures |configs| == |ops| && forall i | 0 <= i < |ops| :: configs[i] == ops[i].config
  {
    seq(|ops|, i requires 0 <= i < |ops| => ops[i].config)
  }

  lemma {:induction false} ReleasedConfigs(configs: seq<ListenerConfig>)
    ensures ConfigsOf(Releases(configs)) == configs
  {
    if configs != [] {
      var n := |configs| - 1;
      ReleasedConfigs(configs[..n]);
      var front := Releases(configs[..n]);
      assert |ConfigsOf(front)| == |front|;
      assert forall i | 0 <= i < n :: ConfigsOf(front)[i] == front[i].config;
    }
  }

  lemma GetsSnoc(configs: seq<ListenerConfig>, ids: seq<HandlerId>, id: HandlerId)
    requires |ids| < |configs|
    ensures Gets(configs, ids + [id]) == Gets(configs, ids) + [Get(configs[|ids|], Ok(id))]
  {
    assert (ids + [id])[..|ids|] == ids;
  }

  lemma AcknowledgedSnoc(configs: seq<ListenerConfig>, i: nat, replies: nat -> Status, base: nat)
    requires i < |configs|
    ensures replies(base + i).Ok? ==>
            Acknowledged(configs[..i + 1], replies, base) == Acknowledged(configs[..i], replies, base) + [configs[i]]
    ensures replies(base + i).Err? ==>
            Acknowledged(configs[..i + 1], replies, base) == Acknowledged(configs[..i], replies, base)
  {
    assert configs[..i + 1][..i] == configs[..i];
  }

  lemma RegisterCommandsSnoc(configs: seq<ListenerConfig>, ids: seq<HandlerId>, id: HandlerId)
    requires |ids| < |configs|
    ensures RegisterCommands(configs, ids + [id])
            == RegisterCommands(configs, ids)
               + [RegisterListener(configs[|ids|].source, configs[|ids|].sink, Request, id)]
  {
    assert (ids + [id])[..|ids|] == ids;
  }

  lemma UnregisterCommandsSnoc(configs: seq<ListenerConfig>, i: nat)
    requires i < |configs|
    ensures UnregisterCommands(configs[..i + 1]) == UnregisterCommands(configs[..i]) + [UnregisterCommand(configs[i])]
  {
    assert configs[..i + 1][..i] == configs[..i];
  }

  lemma ApplyKeepsValid(pre: Slice, me: TransportId, op: Op)
    requires Injective(pre.bound) && AllReleasable(pre.bound) && Allowed(pre, op)
    requires op.Get? ==> Releasable(op.config)
    ensures Injective(Apply(pre, me, op).bound) && AllReleasable(Apply(pre, me, op).bound)
  {
  }

  /** The state after is the result of the calls, each of which was possible where it was made. */
  ghost predicate Ran(pre: Slice, me: TransportId, ops: seq<Op>, post: Slice) {
    AllowedAll(pre, me, ops) && post == ApplyAll(pre, me, ops)
  }

  lemma RanNothing(pre: Slice, me: TransportId)
    ensures Ran(pre, me, [], pre)
  {
  }

  lemma RanMore(pre: Slice, me: TransportId, ops: seq<Op>, mid: Slice, op: Op)
    requires Ran(pre, me, ops, mid) && Allowed(mid, op)
    ensures Ran(pre, me, ops + [op], Apply(mid, me, op))
  {
    ApplySnoc(pre, me, ops, op);
  }

  lemma RanOnce(pre: Slice, me: TransportId, op: Op)
    requires Allowed(pre, op)
    ensures Ran(pre, me, [op], Apply(pre, me, op))
  {
    RanNothing(pre, me);
    RanMore(pre, me, [], pre, op);
    assert [] + [op] == [op];
  }

  /** The engine acknowledges its command number i. */
  predicate Succeeds(replies: nat -> Status, i: nat) {
    replies(i).Ok?
  }

  /** The engine acknowledges its commands from number a up to, but not including, number b. */
  predicate Acked(replies: nat -> Status, a: nat, b: nat) {
    forall i: nat | a <= i < b :: Succeeds(replies, i)
  }

  /** The registrations of the services up to the last of ids went through, at the tables and at the engine. */
  ghost predicate RegisteredSoFar(configs: seq<ListenerConfig>,
                                  replies: nat -> Status, base: nat, ops: seq<Op>, ids: seq<HandlerId>) {
    && |ids| <= |configs| && ops == Gets(configs, ids)
    && forall i | base <= i < base + |ids| :: Succeeds(replies, i)
  }

  /** The last call failed, or the last call succeeded and the engine command after it did not. */
  ghost predicate RefusedAt(configs: seq<ListenerConfig>,
                            replies: nat -> Status, base: nat, ops: seq<Op>, ids: seq<HandlerId>)
    requires ops != []
  {
    var front, last := ops[..|ops| - 1], ops[|ops| - 1];
    && last.Get?
    && match last.result
       case Err(_) => |ids| < |configs| && last.config == configs[|ids|]
           && RegisteredSoFar(configs, replies, base, front, ids)
       case Ok(id) =>
         && ids != [] && |ids| <= |configs| && id == ids[|ids| - 1] && last.config == configs[|ids| - 1]
         && RegisteredSoFar(configs, replies, base, front, ids[..|ids| - 1])
         && !Succeeds(replies, base + |ids| - 1)
  }

  /**
   What the registration loop may come to: success on every service, or a stop at a failing allocation
   or a failing engine command, with the services before it registered.
   */
  ghost predicate LoopOutcome(configs: seq<ListenerConfig>,
                              replies: nat -> Status, base: nat, r: Status, ops: seq<Op>, ids: seq<HandlerId>) {
    match r
    case Ok(_) => |ids| == |configs| && RegisteredSoFar(configs, replies, base, ops, ids)
    case Err(code) => code == INTERNAL && ops != [] && RefusedAt(configs, replies, base, ops, ids)
  }

  lemma RegisteredMore(configs: seq<ListenerConfig>,
                       replies: nat -> Status, base: nat, ops: seq<Op>, ids: seq<HandlerId>, got: GetResult)
    requires RegisteredSoFar(configs, replies, base, ops, ids) && |ids| < |configs|
    ensures var ops' := ops + [Get(configs[|ids|], got)];
            match got
            case Err(_) => RefusedAt(configs, replies, base, ops', ids)
            case Ok(id) =>
              if Succeeds(replies, base + |ids|) then RegisteredSoFar(configs, replies, base, ops', ids + [id])
              else RefusedAt(configs, replies, base, ops', ids + [id])
  {
    var ops' := ops + [Get(configs[|ids|], got)];
    assert ops'[..|ops'| - 1] == ops;
    if got.Ok? {
      GetsSnoc(configs, ids, got.value);
      assert (ids + [got.value])[..|ids|] == ids;
    }
  }

  lemma ReleasedOneMore(pre: Slice, me: TransportId, configs: seq<ListenerConfig>, i: nat, before: Slice)
    requires i < |configs| && Ran(pre, me, Releases(configs[..i]), before)
    ensures Ran(pre, me, Releases(configs[..i + 1]), Apply(before, me, Release(configs[i])))
  {
    RanMore(pre, me, Releases(configs[..i]), before, Release(configs[i]));
    ReleasesSnoc(configs[..i], configs[i]);
    assert configs[..i + 1] == configs[..i] + [configs[i]];
  }

  /** The ids of some of the stored configurations. */
  ghost function IdsOf(bound: Bindings, configs: seq<ListenerConfig>): set<HandlerId> {
    set id | id in bound && bound[id] in configs
  }

  ghost function Without(pre: Slice, gone: set<HandlerId>): Slice {
    Slice(pre.free + gone, pre.owner - gone, pre.bound - gone)
  }

  lemma ReleaseOneMore(pre: Slice, me: TransportId, front: seq<ListenerConfig>, last: ListenerConfig)
    requires Injective(pre.bound)
    ensures Apply(Without(pre, IdsOf(pre.bound, front)), me, Release(last))
            == Without(pre, IdsOf(pre.bound, front + [last]))
  {
    var before, gone := IdsOf(pre.bound, front), IdsOf(pre.bound, front + [last]);
    var mid := Without(pre, before);
    if Stored(mid.bound, last) {
      var id := IdOf(mid.bound, last);
      assert gone == before + {id};
    } else {
      assert forall id | id in pre.bound && id !in before :: id in mid.bound;
      assert gone == before;
    }
  }

  lemma {:induction false} ReleaseSome(pre: Slice, me: TransportId, configs: seq<ListenerConfig>)
    requires Injective(pre.bound)
    ensures ApplyAll(pre, me, Releases(configs)) == Without(pre, IdsOf(pre.bound, configs))
  {
    if configs == [] {
      assert Without(pre, {}) == pre;
    } else {
      var front, last := configs[..|configs| - 1], configs[|configs| - 1];
      ReleaseSome(pre, me, front);
      ApplySnoc(pre, me, Releases(front), Release(last));
      ReleaseOneMore(pre, me, front, last);
      assert configs == front + [last];
    }
  }

  lemma ReleaseEverything(pre: Slice, me: TransportId, configs: seq<ListenerConfig>)
    requires Injective(pre.bound)
    requires forall config :: config in configs <==> Stored(pre.bound, config)
    requires forall i, j | 0 <= i < j < |configs| :: configs[i] != configs[j]
    ensures ApplyAll(pre, me, Releases(configs)) == Slice(pre.free + pre.bound.Keys, pre.owner - pre.bound.Keys, map[])
  {
    ReleaseSome(pre, me, configs);
    assert IdsOf(pre.bound, configs) == pre.bound.Keys by {
      forall id | id in pre.bound
        ensures pre.bound[id] in configs
      {
        assert Stored(pre.bound, pre.bound[id]);
      }
    }
    assert pre.bound - pre.bound.Keys == map[];
  }

  class UPTransportVsomeip {
    const me: TransportId
    const statics: HandlerStatics
    const registry: InMemoryMessageHandlerRegistry
    const engine: EngineChannel
    const authority: string
    /** What reading the services from the configuration file yields; None if no file was given. */
    const services: Option<Result<seq<ServiceConfig>, UCode>>
    var pointToPointListener: Option<ListenerId>

    /** Kept by every operation: no stored configuration would be mistaken for the point-to-point one. */
    ghost predicate Valid()
      reads this, registry
    {
      Injective(registry.bound) && AllReleasable(registry.bound)
    }

    constructor (me: TransportId, statics: HandlerStatics, engine: EngineChannel, authority: string,
                 services: Option<Result<seq<ServiceConfig>, UCode>>)
      ensures Valid() && fresh(registry) && registry.bound == map[] && pointToPointListener == None
      ensures this.me == me && this.statics == statics && this.engine == engine
      ensures this.authority == authority && this.services == services
    {
      this.me, this.statics, this.engine, this.authority, this.services := me, statics, engine, authority, services;
      registry := new InMemoryMessageHandlerRegistry();
      pointToPointListener := None;
    }

    ghost function View(): Slice
      reads registry, statics
    {
      registry.View(statics)
    }

    /** The tables are the result of the given calls, and nothing else. */
    twostate predicate Did(ops: seq<Op>)
      reads registry, statics
    {
      Ran(old(View()), me, ops, View())
    }

    /** The services of the configuration file, if there is one and it can be read. */
    predicate HasServices() {
      services.Some? && services.value.Ok?
    }

    /** The error reported when there are no services to work on. */
    function NoServicesError(): UCode
      requires !HasServices()
    {
      if services.None? then NOT_FOUND else services.value.error
    }

    /** What unregistering the point-to-point listener comes to. */
    twostate predicate UnregisteredPointToPoint(new r: Status, new ops: seq<Op>)
      reads this, engine
    {
      if pointToPointListener.None? then r == Err(ALREADY_EXISTS) && ops == [] && engine.sent == old(engine.sent)
      else if !HasServices() then r == Err(NoServicesError()) && ops == [] && engine.sent == old(engine.sent)
      else
        var configs := ServiceListeners(authority, services.value.value, pointToPointListener.value);
        && r.Ok?
        && engine.sent == old(engine.sent) + UnregisterCommands(configs)
        && ops == Releases(Acknowledged(configs, engine.replies, |old(engine.sent)|))
    }

    /** Unregisters one service; its handler is released only if the engine acknowledged. */
    method UnregisterService(config: ListenerConfig) returns (reply: Status)
      requires Valid() && Releasable(config)
      modifies registry, statics`freeIds, statics`owner, engine
      ensures Valid()
      ensures engine.sent == old(engine.sent) + [UnregisterCommand(config)]
      ensures reply == engine.replies(|old(engine.sent)|)
      ensures View() == if reply.Ok? then Apply(old(View()), me, Release(config)) else old(View())
    {
      reply := engine.Submit(UnregisterCommand(config));
      if reply.Ok? {
        var released, warnings := registry.ReleaseMessageHandler(statics, me, config);
        ApplyKeepsValid(old(View()), me, Release(config));
      }
    }

    /** The loop over the configured services. */
    method UnregisterServices(listener: ListenerId) returns (ghost ops: seq<Op>)
      requires Valid() && HasServices()
      modifies registry, statics`freeIds, statics`owner, engine
      ensures Valid() && Did(ops)
      ensures var configs := ServiceListeners(authority, services.value.value, listener);
              && engine.sent == old(engine.sent) + UnregisterCommands(configs)
              && ops == Releases(Acknowledged(configs, engine.replies, |old(engine.sent)|))
    {
      ops := [];
      ghost var pre, base := View(), |engine.sent|;
      RanNothing(pre, me);
      ghost var configs := ServiceListeners(authority, services.value.value, listener);
      for i := 0 to |services.value.value|
        invariant Valid() && Ran(pre, me, ops, View())
        invariant engine.sent == old(engine.sent) + UnregisterCommands(configs[..i])
        invariant ops == Releases(Acknowledged(configs[..i], engine.replies, base))
      {
        var config := ServiceListener(authority, services.value.value[i], listener);
        AnySourceIsRequest(authority, JoinU16(services.value.value[i].instance, services.value.value[i].service));
        ghost var before := View();
        var reply := UnregisterService(config);
        UnregisterCommandsSnoc(configs, i);
        AcknowledgedSnoc(configs, i, engine.replies, base);
        if reply.Ok? {
          RanMore(pre, me, ops, before, Release(config));
          ReleasesSnoc(Acknowledged(configs[..i], engine.replies, base), config);
          ops := ops + [Release(config)];
        }
      }
      assert configs[..|configs|] == configs;
    }

    /** Unregisters every service; one whose engine command fails keeps its handler. */
    method UnregisterPointToPointListener() returns (r: Status, ghost ops: seq<Op>)
      requires Valid()
      modifies registry, statics`freeIds, statics`owner, engine
      ensures Valid() && Did(ops)
      ensures UnregisteredPointToPoint(r, ops)
    {
      ops := [];
      RanNothing(old(View()), me);
      if pointToPointListener.None? {
        return Err(ALREADY_EXISTS), ops;
      }
      var listener := pointToPointListener.value;
      if services.None? {
        return Err(NOT_FOUND), ops;
      }
      if services.value.Err? {
        return Err(services.value.error), ops;
      }
      ops := UnregisterServices(listener);
      r := Ok(Unit);
    }

    /** Whatever the engine answers, the handler of a releasable configuration is released. */
    method UnregisterListener(source: UUri, sink: Option<UUri>, listener: ListenerId)
      returns (r: Status, ghost ops: seq<Op>)
      requires Valid()
      modifies registry, statics`freeIds, statics`owner, engine
      ensures Valid() && Did(ops)
      ensures DetermineType(source, sink) == AllPointToPoint ==> UnregisteredPointToPoint(r, ops)
      ensures DetermineType(source, sink) != AllPointToPoint ==>
                && r.Ok?
                && ops == [Release(ListenerConfig(source, sink, listener))]
                && engine.sent == old(engine.sent)
                   + [Command.UnregisterListener(source, sink, DetermineType(source, sink))]
    {
      var kind := DetermineType(source, sink);
      if kind == AllPointToPoint {
        r, ops := UnregisterPointToPointListener();
        return;
      }
      var reply := engine.Submit(Command.UnregisterListener(source, sink, kind));
      var config := ListenerConfig(source, sink, listener);
      var released, warnings := registry.ReleaseMessageHandler(statics, me, config);
      ops := [Release(config)];
      RanOnce(old(View()), me, Release(config));
      ApplyKeepsValid(old(View()), me, Release(config));
      return Ok(Unit), ops;
    }

    /** One turn of the loop in `Drop`. */
    method DropOne(config: ListenerConfig)
      requires Valid() && Releasable(config)
      modifies registry, statics`freeIds, statics`owner, engine
      ensures Valid() && View() == Apply(old(View()), me, Release(config))
      ensures engine.sent == old(engine.sent) + [UnregisterCommand(config)]
    {
      ghost var ops;
      var unregistered;
      unregistered, ops := UnregisterListener(config.source, config.sink, config.listener);
      assert ops == [Release(config)];
      assert ops[..0] == [];
      ApplySnoc(old(View()), me, [], Release(config));
      assert [] + [Release(config)] == ops;
    }

    /** The loop over the stored configurations. */
    method UnregisterAll(configs: seq<ListenerConfig>) returns (ghost ops: seq<Op>)
      requires Valid() && forall config | config in configs :: Releasable(config)
      modifies registry, statics`freeIds, statics`owner, engine
      ensures Valid() && Did(ops)
      ensures ops == Releases(configs) && engine.sent == old(engine.sent) + UnregisterCommands(configs)
    {
      ghost var pre := View();
      RanNothing(pre, me);
      for i := 0 to |configs|
        invariant Valid() && Ran(pre, me, Releases(configs[..i]), View())
        invariant engine.sent == old(engine.sent) + UnregisterCommands(configs[..i])
      {
        ghost var before := View();
        DropOne(configs[i]);
        ReleasedOneMore(pre, me, configs, i, before);
        UnregisterCommandsSnoc(configs, i);
      }
      assert configs[..|configs|] == configs;
      ops := Releases(configs);
    }

    /**
     Drop gives everything back: whatever the engine answers, afterwards nothing is bound, exactly the ids
     that were bound have returned to the pool, and exactly they have left the transport map.
     */
    method Drop() returns (ghost ops: seq<Op>)
      requires Valid()
      modifies registry, statics`freeIds, statics`owner, engine
      ensures Valid() && Did(ops)
      ensures registry.bound == map[]
      ensures statics.freeIds == old(statics.freeIds) + old(registry.bound).Keys
      ensures statics.owner == old(statics.owner) - old(registry.bound).Keys
      ensures forall op :: op in ops <==> op.Release? && Stored(old(registry.bound), op.config)
      ensures engine.sent == old(engine.sent) + UnregisterCommands(ConfigsOf(ops)) + [StopVsomeipApp]
    {
      var configs := registry.GetAllListenerConfigs();
      ghost var pre := View();
      ops := UnregisterAll(configs);
      ReleaseEverything(pre, me, configs);
      ReleasesAre(configs);
      ReleasedConfigs(configs);
      var stopped := engine.Submit(StopVsomeipApp);
    }

    /**
     Making a transport: a version wider than 8 bits or a URI that is not that of an entity is refused before
     anything happens; if the application cannot be started, the transport just made is dropped again.
     */
    static method NewInternal(me: TransportId, statics: HandlerStatics, engine: EngineChannel, uri: UUri,
                              uriVerified: bool,
                              services: Option<Result<seq<ServiceConfig>, UCode>>)
      returns (r: Result<UPTransportVsomeip, UCode>)
      modifies statics`freeIds, statics`owner, engine
      ensures statics.freeIds == old(statics.freeIds) && statics.owner == old(statics.owner)
      ensures r.Ok? <==> uri.version < 0x100 && uriVerified && engine.replies(|old(engine.sent)|).Ok?
      ensures match r
              case Ok(t) =>
                && fresh(t) && t.Valid() && t.registry.bound == map[] && t.pointToPointListener == None
                && t.me == me && t.statics == statics && t.engine == engine
                && engine.sent == old(engine.sent) + [StartVsomeipApp]
              case Err(code) =>
                if uri.version >= 0x100 || !uriVerified then code == INVALID_ARGUMENT && engine.sent == old(engine.sent)
                else code == INTERNAL && engine.sent == old(engine.sent) + [StartVsomeipApp, StopVsomeipApp]
    {
      if uri.version >= 0x100 {
        return Err(INVALID_ARGUMENT);
      }
      if !uriVerified {
        return Err(INVALID_ARGUMENT);
      }
      var t := new UPTransportVsomeip(me, statics, engine, uri.authority, services);
      var reply := engine.Submit(StartVsomeipApp);
      if reply.Err? {
        ghost var started := engine.sent;
        ghost var ops := t.Drop();
        assert ops == [];
        assert engine.sent == started + [] + [StopVsomeipApp];
        return Err(INTERNAL);
      }
      return Ok(t);
    }

    /** What registering a point-to-point listener comes to. */
    twostate predicate RegisteredPointToPoint(listener: ListenerId, new r: Status, new ops: seq<Op>,
                                              new ids: seq<HandlerId>)
      reads this, engine
    {
      if !HasServices() then
        r == Err(NoServicesError()) && ops == [] && engine.sent == old(engine.sent)
            && pointToPointListener == old(pointToPointListener)
      else if old(pointToPointListener).Some? then
        r == Err(ALREADY_EXISTS) && ops == [] && engine.sent == old(engine.sent)
            && pointToPointListener == old(pointToPointListener)
      else
        var configs := ServiceListeners(authority, services.value.value, listener);
        && pointToPointListener == Some(listener)
        && LoopOutcome(configs, engine.replies, |old(engine.sent)|, r, ops, ids)
        && |ids| <= |configs| && engine.sent == old(engine.sent) + RegisterCommands(configs, ids)
    }

    /** The call that prepares for the response to a message, if there is one. */
    predicate PreparesResponse(kind: RegistrationType)
      reads this
    {
      pointToPointListener.Some? && kind == Request
    }

    /** Allocates a handler and, if that succeeds, has the engine register it. */
    method AllocateAndRegister(config: ListenerConfig, kind: RegistrationType) returns (r: Status, got: GetResult)
      requires Valid() && Releasable(config)
      modifies registry, statics`freeIds, statics`owner, engine
      ensures Valid()
      ensures Allowed(old(View()), Get(config, got)) && View() == Apply(old(View()), me, Get(config, got))
      ensures got.Err? ==> r == Err(INTERNAL) && engine.sent == old(engine.sent)
      ensures got.Ok? ==>
                && engine.sent == old(engine.sent)
                   + [Command.RegisterListener(config.source, config.sink, kind, got.value)]
                && r == engine.replies(|old(engine.sent)|)
    {
      got := registry.GetMessageHandler(statics, me, config);
      ApplyKeepsValid(old(View()), me, Get(config, got));
      if got.Err? {
        return Err(INTERNAL), got;
      }
      r := engine.Submit(Command.RegisterListener(config.source, config.sink, kind, got.value));
    }

    /** One turn of the loop: one more call on the registry after those made since pre, and perhaps one more command. */
    method RegisterService(config: ListenerConfig, ghost pre: Slice, ghost sent: seq<Command>,
                           ghost configs: seq<ListenerConfig>,
                           ghost opsSoFar: seq<Op>, ghost idsSoFar: seq<HandlerId>)
      returns (ok: bool, ghost ops: seq<Op>, ghost ids: seq<HandlerId>)
      requires Valid() && Releasable(config) && Ran(pre, me, opsSoFar, View())
      requires |idsSoFar| < |configs| && config == configs[|idsSoFar|]
      requires RegisteredSoFar(configs, engine.replies, |sent|, opsSoFar, idsSoFar)
      requires engine.sent == sent + RegisterCommands(configs, idsSoFar)
      modifies registry, statics`freeIds, statics`owner, engine
      ensures Valid() && Ran(pre, me, ops, View())
      ensures |ids| <= |configs| && engine.sent == sent + RegisterCommands(configs, ids)
      ensures ok ==> |ids| == |idsSoFar| + 1 && RegisteredSoFar(configs, engine.replies, |sent|, ops, ids)
      ensures !ok ==> ops != [] && RefusedAt(configs, engine.replies, |sent|, ops, ids)
    {
      var reply, got := AllocateAndRegister(config, Request);
      RanMore(pre, me, opsSoFar, old(View()), Get(config, got));
      RegisteredMore(configs, engine.replies, |sent|, opsSoFar, idsSoFar, got);
      ops, ids := opsSoFar + [Get(config, got)], idsSoFar;
      if got.Err? {
        return false, ops, ids;
      }
      RegisterCommandsSnoc(configs, idsSoFar, got.value);
      ids := ids + [got.value];
      return reply.Ok?, ops, ids;
    }

    /** The commands from number base on register the first services, one by one. */
    ghost predicate EachServiceRegistered(base: nat, ids: seq<HandlerId>)
      requires HasServices()
      reads engine
    {
      && |ids| <= |services.value.value| && |engine.sent| == base + |ids|
      && forall i | 0 <= i < |ids| ::
           RegistersService(engine.sent[base + i], authority, services.value.value[i], ids[i])
    }

    lemma EachIsRegistered(listener: ListenerId, sent: seq<Command>, ids: seq<HandlerId>)
      requires HasServices() && |ids| <= |services.value.value|
      requires engine.sent == sent + RegisterCommands(ServiceListeners(authority, services.value.value, listener), ids)
      ensures EachServiceRegistered(|sent|, ids)
    {
      forall i | 0 <= i < |ids|
        ensures RegistersService(engine.sent[|sent| + i], authority, services.value.value[i], ids[i])
      {
        RegistersEachService(authority, services.value.value, listener, ids, i);
      }
    }

    /** The loop over the configured services. */
    method RegisterServices(listener: ListenerId) returns (r: Status, ghost ops: seq<Op>, ghost ids: seq<HandlerId>)
      requires Valid() && HasServices()
      modifies registry, statics`freeIds, statics`owner, engine
      ensures Valid() && Did(ops)
      ensures EachServiceRegistered(|old(engine.sent)|, ids)
      ensures var configs := ServiceListeners(authority, services.value.value, listener);
              && LoopOutcome(configs, engine.replies, |old(engine.sent)|, r, ops, ids)
              && |ids| <= |configs| && engine.sent == old(engine.sent) + RegisterCommands(configs, ids)
    {
      ops, ids := [], [];
      ghost var pre, sent := View(), engine.sent;
      RanNothing(pre, me);
      ghost var configs := ServiceListeners(authority, services.value.value, listener);
      for i := 0 to |services.value.value|
        invariant Valid() && Ran(pre, me, ops, View())
        invariant |ids| == i && RegisteredSoFar(configs, engine.replies, |sent|, ops, ids)
        invariant engine.sent == sent + RegisterCommands(configs, ids)
      {
        AnySourceIsRequest(authority, JoinU16(services.value.value[i].instance, services.value.value[i].service));
        var ok;
        ok, ops, ids := RegisterService(ServiceListener(authority, services.value.value[i], listener), pre, sent,
            configs, ops, ids);
        if !ok {
          EachIsRegistered(listener, sent, ids);
          return Err(INTERNAL), ops, ids;
        }
      }
      EachIsRegistered(listener, sent, ids);
      r := Ok(Unit);
    }

    /** The registration loop stops at the first service it cannot register, keeping those before it. */
    method RegisterPointToPointListener(listener: ListenerId)
      returns (r: Status, ghost ops: seq<Op>, ghost ids: seq<HandlerId>)
      requires Valid()
      modifies this`pointToPointListener, registry, statics`freeIds, statics`owner, engine
      ensures Valid() && Did(ops)
      ensures RegisteredPointToPoint(listener, r, ops, ids)
      ensures HasServices() && old(pointToPointListener).None? ==> EachServiceRegistered(|old(engine.sent)|, ids)
    {
      ops, ids := [], [];
      RanNothing(old(View()), me);
      if services.None? {
        return Err(NOT_FOUND), ops, ids;
      }
      if services.value.Err? {
        return Err(services.value.error), ops, ids;
      }
      if pointToPointListener.Some? {
        return Err(ALREADY_EXISTS), ops, ids;
      }
      pointToPointListener := Some(listener);
      r, ops, ids := RegisterServices(listener);
    }

    method RegisterListener(source: UUri, sink: Option<UUri>, listener: ListenerId)
      returns (r: Status, ghost ops: seq<Op>, ghost ids: seq<HandlerId>)
      requires Valid()
      modifies this`pointToPointListener, registry, statics`freeIds, statics`owner, engine
      ensures Valid() && Did(ops)
      ensures DetermineType(source, sink) == AllPointToPoint ==>
                && RegisteredPointToPoint(listener, r, ops, ids)
                && (HasServices() && old(pointToPointListener).None? ==>
                    EachServiceRegistered(|old(engine.sent)|, ids))
      ensures DetermineType(source, sink) != AllPointToPoint ==>
                && pointToPointListener == old(pointToPointListener)
                && |ops| == 1 && ops[0].Get? && ops[0].config == ListenerConfig(source, sink, listener)
                && (ops[0].result.Err? ==> r == Err(INTERNAL) && engine.sent == old(engine.sent))
                && (ops[0].result.Ok? ==>
                    && engine.sent == old(engine.sent)
                       + [Command.RegisterListener(source, sink, DetermineType(source, sink), ops[0].result.value)]
                    && r == engine.replies(|old(engine.sent)|))
    {
      var kind := DetermineType(source, sink);
      if kind == AllPointToPoint {
        r, ops, ids := RegisterPointToPointListener(listener);
        return;
      }
      ids := [];
      var config := ListenerConfig(source, sink, listener);
      var got;
      r, got := AllocateAndRegister(config, kind);
      ops := [Get(config, got)];
      RanOnce(old(View()), me, Get(config, got));
    }

    /** Before a request leaves, the point-to-point listener is registered for its response. */
    method RegisterForReturningResponse(source: UUri, sink: Option<UUri>, kind: RegistrationType)
      returns (r: Outcome<bool>, ghost ops: seq<Op>)
      requires Valid() && kind == DetermineType(source, sink)
      modifies registry, statics`freeIds, statics`owner, engine
      ensures Valid() && Did(ops)
      ensures pointToPointListener.None? ==> r == Returned(Ok(false)) && ops == []
      ensures pointToPointListener.Some? && kind != Request ==> r == Returned(Ok(true)) && ops == []
      ensures pointToPointListener.Some? && kind == Request ==>
                && |ops| == 1 && ops[0].Get?
                && ops[0].config == ListenerConfig(sink.value, Some(source), pointToPointListener.value)
                && match ops[0].result {
                   case Ok(id) =>
                     && engine.sent == old(engine.sent)
                        + [Command.RegisterListener(sink.value, Some(source), Response, id)]
                     && r == if engine.replies(|old(engine.sent)|).Ok? then Returned(Ok(true)) else Panicked
                   case Err(ListenerConfigAlreadyExists(_)) => r == Returned(Ok(true))
                       && engine.sent == old(engine.sent)
                   case Err(_) => r == Returned(Err(INTERNAL)) && engine.sent == old(engine.sent)
                   }
      ensures !(pointToPointListener.Some? && kind == Request) ==> engine.sent == old(engine.sent)
    {
      ops := [];
      RanNothing(old(View()), me);
      if pointToPointListener.None? {
        return Returned(Ok(false)), ops;
      }
      if kind != Request {
        return Returned(Ok(true)), ops;
      }
      if sink.None? {
        return Returned(Err(INVALID_ARGUMENT)), ops;
      }
      // a message travels the other way than its answer, so the filters are swapped
      SwapKeepsReleasable(source, sink.value);
      var config := ListenerConfig(sink.value, Some(source), pointToPointListener.value);
      var got := registry.GetMessageHandler(statics, me, config);
      ops := [Get(config, got)];
      RanOnce(old(View()), me, Get(config, got));
      ApplyKeepsValid(old(View()), me, Get(config, got));
      match got {
        case Err(ListenerConfigAlreadyExists(_)) => return Returned(Ok(true)), ops;
        case Err(_) => return Returned(Err(INTERNAL)), ops;
        case Ok(id) =>
          var reply := engine.Submit(Command.RegisterListener(sink.value, Some(source), Response, id));
          return if reply.Err? then Panicked else Returned(Ok(true)), ops;
      }
    }

    /** Sending: validation, the implicit registration, then the engine. */
    method Send(message: UMessage, attributesValid: bool) returns (r: Outcome<Unit>, ghost ops: seq<Op>)
      requires Valid()
      modifies registry, statics`freeIds, statics`owner, engine
      ensures Valid() && Did(ops)
      ensures !attributesValid || message.source.None?
              ==> r == Returned(Err(INVALID_ARGUMENT)) && ops == [] && engine.sent == old(engine.sent)
      ensures attributesValid && message.source.Some? ==>
                var kind := DetermineType(message.source.value, message.sink);
                var base := |old(engine.sent)|;
                if !PreparesResponse(kind) then
                  && ops == [] && engine.sent == old(engine.sent) + [Command.Send(message, kind)]
                  && r == Returned(engine.replies(base))
                else
                  var config := ListenerConfig(message.sink.value, Some(message.source.value),
                      pointToPointListener.value);
                  && |ops| == 1 && ops[0].Get? && ops[0].config == config
                  && match ops[0].result {
                     case Ok(id) =>
                       var register := Command.RegisterListener(config.source, config.sink, Response, id);
                       if engine.replies(base).Err? then r == Panicked && engine.sent == old(engine.sent) + [register]
                       else
                         && engine.sent == old(engine.sent) + [register, Command.Send(message, kind)]
                         && r == Returned(engine.replies(base + 1))
                     case Err(ListenerConfigAlreadyExists(_)) =>
                       engine.sent == old(engine.sent) + [Command.Send(message, kind)]
                           && r == Returned(engine.replies(base))
                     case Err(_) => engine.sent == old(engine.sent) && r == Returned(Err(INTERNAL))
                     }
    {
      ops := [];
      RanNothing(old(View()), me);
      if !attributesValid {
        return Returned(Err(INVALID_ARGUMENT)), ops;
      }
      if message.source.None? {
        return Returned(Err(INVALID_ARGUMENT)), ops;
      }
      var kind := DetermineType(message.source.value, message.sink);
      var registered;
      registered, ops := RegisterForReturningResponse(message.source.value, message.sink, kind);
      if registered.Panicked? {
        return Panicked, ops;
      }
      if registered.result.Err? {
        return Returned(Err(registered.result.error)), ops;
      }
      var reply := engine.Submit(Command.Send(message, kind));
      r := Returned(reply);
    }
  }
}
