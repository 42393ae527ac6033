/** Whole uses of one transport, made of calls on the object itself. */
module TransportScenarios {
  import opened Common
  import opened Uris
  import opened Messages
  import opened MessageType
  import opened HandlerTables
  import opened TransportEngine
  import opened Transport
  import opened TransportProperties

  // ---------------------------------------------------------------- point-to-point

  /** What it takes to register some configurations. */
  ghost predicate Registrable(pre: Slice, configs: seq<ListenerConfig>, replies: nat -> Status, base: nat) {
    && Distinct(configs) && (forall config | config in configs :: !Stored(pre.bound, config))
    && |configs| <= |pre.free|
    && Acked(replies, base, base + |configs|)
  }

  /** What the tables are after the registration loop came to r, and then the unregistration loop. */
  ghost predicate BackAgain(pre: Slice, post: Slice, configs: seq<ListenerConfig>, replies: nat -> Status, base: nat,
                            r: Status, registered: nat) {
    && registered <= |configs|
    && (post == pre <==> TakesBackExactly(pre.bound, configs[..registered],
                                          Acknowledged(configs, replies, base + registered)))
    && (r.Ok? ==> registered == |configs|
                  && (post == pre <==> Acked(replies, base + registered, base + registered + |configs|)))
  }

  lemma BackAfterSuccess(pre: Slice, me: TransportId, configs: seq<ListenerConfig>, replies: nat -> Status, base: nat,
                         ops: seq<Op>, ids: seq<HandlerId>, mid: Slice)
    requires Injective(pre.bound)
    requires Ran(pre, me, ops, mid) && LoopOutcome(configs, replies, base, Ok(Unit), ops, ids)
    ensures |ids| == |configs|
    ensures ApplyAll(mid, me, Releases(Acknowledged(configs, replies, base + |ids|))) == pre
            <==> Acked(replies, base + |ids|, base + |ids| + |configs|)
  {
    PointToPointRoundTrip(pre, me, configs, ids, mid, replies, base + |ids|);
  }

  lemma BackAgainAfter(pre: Slice, me: TransportId, configs: seq<ListenerConfig>, replies: nat -> Status, base: nat,
                       r: Status, ops: seq<Op>, ids: seq<HandlerId>, mid: Slice)
    requires Injective(pre.bound)
    requires Ran(pre, me, ops, mid) && LoopOutcome(configs, replies, base, r, ops, ids)
    ensures BackAgain(pre, ApplyAll(mid, me, Releases(Acknowledged(configs, replies, base + |ids|))),
                      configs, replies, base, r, |ids|)
  {
    CleanUpAfterAnyOutcome(pre, me, configs, replies, base, r, ops, ids, mid, base + |ids|);
    if r.Ok? {
      BackAfterSuccess(pre, me, configs, replies, base, ops, ids, mid);
    }
  }

  lemma RegistrableExactly(pre: Slice, me: TransportId, configs: seq<ListenerConfig>, replies: nat -> Status, base: nat,
                           r: Status, ops: seq<Op>, ids: seq<HandlerId>, mid: Slice)
    requires SliceConsistent(me, pre)
    requires Ran(pre, me, ops, mid) && LoopOutcome(configs, replies, base, r, ops, ids)
    ensures r.Ok? <==> Registrable(pre, configs, replies, base)
  {
    RegistrationSucceedsExactly(pre, me, configs, replies, base, r, ops, ids, mid);
  }

  lemma AfterTheLoop(pre: Slice, me: TransportId, configs: seq<ListenerConfig>, replies: nat -> Status, base: nat,
                     r: Status, ops: seq<Op>, ids: seq<HandlerId>, mid: Slice, sent: nat)
    requires SliceConsistent(me, pre) && sent == base + |ids|
    requires Ran(pre, me, ops, mid) && LoopOutcome(configs, replies, base, r, ops, ids)
    ensures r.Ok? <==> Registrable(pre, configs, replies, base)
    ensures BackAgain(pre, ApplyAll(mid, me, Releases(Acknowledged(configs, replies, sent))),
                      configs, replies, base, r, |ids|)
  {
    RegistrableExactly(pre, me, configs, replies, base, r, ops, ids, mid);
    BackAgainAfter(pre, me, configs, replies, base, r, ops, ids, mid);
  }

  /** The way back: the services that the engine acknowledges are released. */
  method BackFrom(t: UPTransportVsomeip, source: UUri, sink: Option<UUri>, ghost configs: seq<ListenerConfig>)
    requires t.Valid() && DetermineType(source, sink) == AllPointToPoint
    requires t.HasServices() && t.pointToPointListener.Some?
    requires configs == ServiceListeners(t.authority, t.services.value.value, t.pointToPointListener.value)
    modifies t.registry, t.statics`freeIds, t.statics`owner, t.engine
    ensures t.View() == ApplyAll(old(t.View()), t.me,
                                 Releases(Acknowledged(configs, t.engine.replies, |old(t.engine.sent)|)))
  {
    var unregistered;
    ghost var ops;
    unregistered, ops := t.UnregisterListener(source, sink, t.pointToPointListener.value);
  }

  /** The registration, and what it came to. */
  method Register(t: UPTransportVsomeip, source: UUri, sink: Option<UUri>, listener: ListenerId,
                  ghost configs: seq<ListenerConfig>)
    returns (r: Status, ghost ops: seq<Op>, ghost ids: seq<HandlerId>)
    requires t.Valid() && DetermineType(source, sink) == AllPointToPoint
    requires t.HasServices() && t.pointToPointListener.None?
    requires configs == ServiceListeners(t.authority, t.services.value.value, listener)
    modifies t`pointToPointListener, t.registry, t.statics`freeIds, t.statics`owner, t.engine
    ensures t.Valid() && t.pointToPointListener == Some(listener)
    ensures Ran(old(t.View()), t.me, ops, t.View())
    ensures LoopOutcome(configs, t.engine.replies, |old(t.engine.sent)|, r, ops, ids)
    ensures |t.engine.sent| == |old(t.engine.sent)| + |ids|
  {
    r, ops, ids := t.RegisterListener(source, sink, listener);
  }

  /** The way there, and what the way back will come to. */
  method There(t: UPTransportVsomeip, source: UUri, sink: Option<UUri>, listener: ListenerId)
    returns (r: Status, ghost registered: nat)
    requires t.Valid() && SliceConsistent(t.me, t.View())
    requires DetermineType(source, sink) == AllPointToPoint && t.HasServices() && t.pointToPointListener.None?
    modifies t`pointToPointListener, t.registry, t.statics`freeIds, t.statics`owner, t.engine
    ensures t.Valid() && t.pointToPointListener == Some(listener)
    ensures var configs := ServiceListeners(t.authority, t.services.value.value, listener);
            var post := ApplyAll(t.View(), t.me, Releases(Acknowledged(configs, t.engine.replies, |t.engine.sent|)));
            && (r.Ok? <==> Registrable(old(t.View()), configs, t.engine.replies, |old(t.engine.sent)|))
            && BackAgain(old(t.View()), post, configs, t.engine.replies, |old(t.engine.sent)|, r, registered)
  {
    ghost var pre, base, replies := t.View(), |t.engine.sent|, t.engine.replies;
    ghost var configs := ServiceListeners(t.authority, t.services.value.value, listener);
    ghost var ops, ids;
    r, ops, ids := Register(t, source, sink, listener, configs);
    AfterTheLoop(pre, t.me, configs, replies, base, r, ops, ids, t.View(), |t.engine.sent|);
    registered := |ids|;
  }

  /**
   Registering and then unregistering a point-to-point listener. The registration succeeds exactly if its
   filters are distinct and new, the pool suffices and the engine acknowledges each. Whether it succeeded or
   stopped somewhere, unregistering restores every table exactly if it takes back what was registered and
   nothing that was stored before; after a success, that is if the engine acknowledges each once more. The
   listener itself stays set, so a second registration would be refused.
   */
  method ThereAndBack(t: UPTransportVsomeip, source: UUri, sink: Option<UUri>, listener: ListenerId)
    returns (r: Status, ghost registered: nat)
    requires t.Valid() && SliceConsistent(t.me, t.View())
    requires DetermineType(source, sink) == AllPointToPoint && t.HasServices() && t.pointToPointListener.None?
    modifies t`pointToPointListener, t.registry, t.statics`freeIds, t.statics`owner, t.engine
    ensures var configs := ServiceListeners(t.authority, t.services.value.value, listener);
            && (r.Ok? <==> Registrable(old(t.View()), configs, t.engine.replies, |old(t.engine.sent)|))
            && BackAgain(old(t.View()), t.View(), configs, t.engine.replies, |old(t.engine.sent)|, r, registered)
    ensures t.pointToPointListener == Some(listener)
  {
    r, registered := There(t, source, sink, listener);
    BackFrom(t, source, sink, ServiceListeners(t.authority, t.services.value.value, listener));
  }

  // ---------------------------------------------------------------- requests and what they register

  ghost predicate IsRequest(message: UMessage) {
    message.source.Some? && message.sink.Some? && DetermineType(message.source.value, message.sink) == Request
  }

  ghost function ResponseConfig(message: UMessage, listener: ListenerId): ListenerConfig
    requires IsRequest(message)
  {
    ListenerConfig(message.sink.value, message.source, listener)
  }

  /** The configurations needed for the responses to some requests. */
  ghost function ResponseConfigs(messages: seq<UMessage>, listener: ListenerId): (configs: seq<ListenerConfig>)
    requires forall i | 0 <= i < |messages| :: IsRequest(messages[i])
    ensures |configs| == |messages|
    ensures forall i | 0 <= i < |messages| :: configs[i] == ResponseConfig(messages[i], listener)
  {
    seq(|messages|, i requires 0 <= i < |messages| => ResponseConfig(messages[i], listener))
  }

  ghost predicate Registers(command: Command, config: ListenerConfig, listener: ListenerId) {
    && command.RegisterListener? && command.kind == Response
    && config == ListenerConfig(command.source, command.sink, listener)
  }

  ghost predicate SendsFor(command: Command, config: ListenerConfig, listener: ListenerId) {
    command.Send? && IsRequest(command.message) && config == ResponseConfig(command.message, listener)
  }

  ghost function Registrations(sent: seq<Command>): nat {
    if sent == [] then 0
    else Registrations(sent[..|sent| - 1]) + if sent[|sent| - 1].RegisterListener? then 1 else 0
  }

  lemma RegistrationsSnoc(sent: seq<Command>, command: Command)
    ensures Registrations(sent + [command]) == Registrations(sent) + if command.RegisterListener? then 1 else 0
  {
    assert (sent + [command])[..|sent|] == sent;
  }

  /** Among the commands from number base on, no configuration is registered twice. */
  ghost predicate RegisteredOnce(sent: seq<Command>, base: nat, listener: ListenerId) {
    forall i, j, config | base <= i < |sent| && base <= j < |sent|
                          && Registers(sent[i], config, listener) && Registers(sent[j], config, listener) :: i == j
  }

  /** A request whose configuration was not bound before goes out only after the command that registers it. */
  ghost predicate RegisteredBeforeSent(bound: Bindings, sent: seq<Command>, base: nat, listener: ListenerId) {
    forall k, config | base <= k < |sent| && SendsFor(sent[k], config, listener) && !Stored(bound, config) ::
      exists j | base <= j < k :: Registers(sent[j], config, listener)
  }

  /** Some acknowledged command before number k registered the configuration. */
  ghost predicate Backed(sent: seq<Command>, replies: nat -> Status, base: nat, k: nat, config: ListenerConfig,
                         listener: ListenerId)
    requires k <= |sent|
  {
    exists j: nat | base <= j < k :: Registers(sent[j], config, listener) && Succeeds(replies, j)
  }

  /**
   A request that was sent has an acknowledged registration behind it exactly if the one command that
   registered its configuration was acknowledged. If it was not, repeating the request does not mend it.
   */
  lemma BackedExactly(bound: Bindings, sent: seq<Command>, replies: nat -> Status, base: nat, listener: ListenerId,
                      k: nat, config: ListenerConfig)
    returns (j: nat)
    requires RegisteredOnce(sent, base, listener) && RegisteredBeforeSent(bound, sent, base, listener)
    requires base <= k < |sent| && SendsFor(sent[k], config, listener) && !Stored(bound, config)
    ensures base <= j < k && Registers(sent[j], config, listener)
    ensures Backed(sent, replies, base, k, config, listener) <==> Succeeds(replies, j)
  {
    var i :| base <= i < k && Registers(sent[i], config, listener);
    j := i;
  }

  /** One more command that is no unregistered request. */
  lemma SentAfter(bound: Bindings, sent: seq<Command>, sent': seq<Command>, base: nat, listener: ListenerId)
    requires RegisteredBeforeSent(bound, sent, base, listener) && base <= |sent|
    requires |sent'| == |sent| + 1 && sent'[..|sent|] == sent
    requires forall config | SendsFor(sent'[|sent|], config, listener) && !Stored(bound, config) ::
               exists j | base <= j < |sent| :: Registers(sent'[j], config, listener)
    ensures RegisteredBeforeSent(bound, sent', base, listener)
  {
    forall k, config | base <= k < |sent'| && SendsFor(sent'[k], config, listener) && !Stored(bound, config)
      ensures exists j | base <= j < k :: Registers(sent'[j], config, listener)
    {
      if k < |sent| {
        assert SendsFor(sent[k], config, listener);
        var j :| base <= j < k && Registers(sent[j], config, listener);
        assert Registers(sent'[j], config, listener);
      }
    }
  }

  /** The bindings made since are those registered by the commands from number base on. */
  ghost predicate Recorded(bound: Bindings, now: Bindings, sent: seq<Command>, base: nat, listener: ListenerId) {
    && (forall config | Stored(bound, config) :: Stored(now, config))
    && (forall j, config | base <= j < |sent| && Registers(sent[j], config, listener) :: Stored(now, config))
    && (forall config | Stored(now, config) && !Stored(bound, config) ::
          exists j | base <= j < |sent| :: Registers(sent[j], config, listener))
  }

  ghost predicate Logged(bound: Bindings, now: Bindings, sent: seq<Command>, base: nat, listener: ListenerId) {
    && RegisteredOnce(sent, base, listener) && RegisteredBeforeSent(bound, sent, base, listener)
    && Recorded(bound, now, sent, base, listener)
  }

  lemma OneMoreOnce(sent: seq<Command>, command: Command, base: nat, listener: ListenerId)
    requires RegisteredOnce(sent, base, listener) && base <= |sent|
    requires forall j, config | base <= j < |sent| && Registers(sent[j], config, listener) ::
               !Registers(command, config, listener)
    ensures RegisteredOnce(sent + [command], base, listener)
  {
    var sent' := sent + [command];
    forall i, j, c | base <= i < |sent'| && base <= j < |sent'|
                     && Registers(sent'[i], c, listener) && Registers(sent'[j], c, listener)
      ensures i == j
    {
      if i < |sent| {
        assert Registers(sent[i], c, listener);
      }
      if j < |sent| {
        assert Registers(sent[j], c, listener);
      }
    }
  }

  lemma RecordRegistration(bound: Bindings, now: Bindings, sent: seq<Command>, base: nat, listener: ListenerId,
                           id: HandlerId, config: ListenerConfig, command: Command)
    requires Recorded(bound, now, sent, base, listener) && base <= |sent|
    requires id !in now && Registers(command, config, listener)
    ensures Recorded(bound, now[id := config], sent + [command], base, listener)
  {
    var sent', now' := sent + [command], now[id := config];
    forall c
      ensures Stored(now', c) <==> Stored(now, c) || c == config
    {
      StoredAfterInsert(now, id, config, c);
    }
    forall j, c | base <= j < |sent'| && Registers(sent'[j], c, listener)
      ensures Stored(now', c)
    {
      if j < |sent| {
        assert Registers(sent[j], c, listener);
      }
    }
    forall c | Stored(now', c) && !Stored(bound, c)
      ensures exists j | base <= j < |sent'| :: Registers(sent'[j], c, listener)
    {
      if c == config {
        assert Registers(sent'[|sent|], c, listener);
      } else {
        var j :| base <= j < |sent| && Registers(sent[j], c, listener);
        assert Registers(sent'[j], c, listener);
      }
    }
  }

  lemma LogRegistration(bound: Bindings, now: Bindings, sent: seq<Command>, base: nat, listener: ListenerId,
                        id: HandlerId, config: ListenerConfig, command: Command)
    requires Logged(bound, now, sent, base, listener) && base <= |sent|
    requires id !in now && !Stored(now, config) && Registers(command, config, listener)
    ensures Logged(bound, now[id := config], sent + [command], base, listener)
  {
    assert (sent + [command])[..|sent|] == sent;
    OneMoreOnce(sent, command, base, listener);
    RecordRegistration(bound, now, sent, base, listener, id, config, command);
    SentAfter(bound, sent, sent + [command], base, listener);
  }

  lemma LogSend(bound: Bindings, now: Bindings, sent: seq<Command>, base: nat, listener: ListenerId,
                message: UMessage, kind: RegistrationType)
    requires Logged(bound, now, sent, base, listener) && base <= |sent|
    requires IsRequest(message) && Stored(now, ResponseConfig(message, listener))
    ensures Logged(bound, now, sent + [Command.Send(message, kind)], base, listener)
  {
    var sent' := sent + [Command.Send(message, kind)];
    OneMoreOnce(sent, Command.Send(message, kind), base, listener);
    forall c | Stored(now, c) && !Stored(bound, c)
      ensures exists j | base <= j < |sent| :: Registers(sent'[j], c, listener)
    {
      var j :| base <= j < |sent| && Registers(sent[j], c, listener);
      assert Registers(sent'[j], c, listener);
    }
    SentAfter(bound, sent, sent', base, listener);
  }

  // ---------------------------------------------------------------- sending requests

  lemma GrantedSnoc(results: seq<GetResult>, got: GetResult)
    ensures Granted(results + [got]) == Granted(results) + if got.Ok? then 1 else 0
  {
    assert (results + [got])[..|results|] == results;
  }

  lemma AttemptsSnoc(configs: seq<ListenerConfig>, i: nat, results: seq<GetResult>, got: GetResult)
    requires |results| == i < |configs|
    ensures Attempts(configs[..i + 1], results + [got]) == Attempts(configs[..i], results) + [Get(configs[i], got)]
  {
    assert configs[..i + 1][..i] == configs[..i] && (results + [got])[..i] == results;
  }

  lemma AckedMore(replies: nat -> Status, a: nat, b: nat, c: nat)
    requires a <= b <= c
    ensures Acked(replies, a, c) <==> Acked(replies, a, b) && Acked(replies, b, c)
  {
  }

  lemma AckedOne(replies: nat -> Status, a: nat)
    ensures Acked(replies, a, a) && (Acked(replies, a, a + 1) <==> replies(a).Ok?)
  {
    assert Succeeds(replies, a) <==> replies(a).Ok?;
  }

  /** The commands that sending a request comes to. */
  ghost function CommandsFor(message: UMessage, config: ListenerConfig, got: GetResult, registered: bool)
    : seq<Command>
  {
    var send := Command.Send(message, Request);
    match got
    case Ok(id) =>
      var register := Command.RegisterListener(config.source, config.sink, Response, id);
      if registered then [register, send] else [register]
    case Err(_) => if Refused(got) then [] else [send]
  }

  lemma GrantLogged(bound: Bindings, now: Bindings, sent: seq<Command>, base: nat, listener: ListenerId,
                    message: UMessage, id: HandlerId)
    requires Logged(bound, now, sent, base, listener) && base <= |sent| && IsRequest(message)
    requires id !in now && !Stored(now, ResponseConfig(message, listener))
    ensures var config := ResponseConfig(message, listener);
            && Logged(bound, now[id := config],
                      sent + CommandsFor(message, config, Ok(id), false), base, listener)
            && Logged(bound, now[id := config],
                      sent + CommandsFor(message, config, Ok(id), true), base, listener)
  {
    var config := ResponseConfig(message, listener);
    var register := Command.RegisterListener(config.source, config.sink, Response, id);
    var sent' := sent + [register];
    LogRegistration(bound, now, sent, base, listener, id, config, register);
    StoredAfterInsert(now, id, config, config);
    LogSend(bound, now[id := config], sent', base, listener, message, Request);
    assert sent' + [Command.Send(message, Request)] == sent + [register, Command.Send(message, Request)];
  }

  lemma RegistrationsCounted(sent: seq<Command>, message: UMessage, config: ListenerConfig, got: GetResult,
                             registered: bool)
    ensures Registrations(sent + CommandsFor(message, config, got, registered))
            == Registrations(sent) + if got.Ok? then 1 else 0
  {
    var send := Command.Send(message, Request);
    if got.Ok? {
      var register := Command.RegisterListener(config.source, config.sink, Response, got.value);
      RegistrationsSnoc(sent, register);
      RegistrationsSnoc(sent + [register], send);
      assert sent + [register, send] == sent + [register] + [send];
    } else {
      RegistrationsSnoc(sent, send);
      assert sent + [] == sent;
    }
  }

  /** Sending one request whose response is awaited point-to-point; the last result says whether it went through. */
  method SendRequest(t: UPTransportVsomeip, message: UMessage, ghost bound: Bindings, ghost base: nat)
    returns (ok: bool, ghost got: GetResult)
    requires t.Valid() && t.pointToPointListener.Some? && IsRequest(message) && base <= |t.engine.sent|
    requires Logged(bound, t.registry.bound, t.engine.sent, base, t.pointToPointListener.value)
    modifies t.registry, t.statics`freeIds, t.statics`owner, t.engine
    ensures t.Valid() && base <= |t.engine.sent|
    ensures Logged(bound, t.registry.bound, t.engine.sent, base, t.pointToPointListener.value)
    ensures var op := Get(ResponseConfig(message, t.pointToPointListener.value), got);
            Allowed(old(t.View()), op) && t.View() == Apply(old(t.View()), t.me, op)
    ensures |old(t.engine.sent)| <= |t.engine.sent|
    ensures ok <==> !Refused(got) && Acked(t.engine.replies, |old(t.engine.sent)|, |t.engine.sent|)
    ensures ok ==> |t.engine.sent| == |old(t.engine.sent)| + (if got.Ok? then 2 else 1)
    ensures Registrations(t.engine.sent) == Registrations(old(t.engine.sent)) + if got.Ok? then 1 else 0
  {
    ghost var ops, sent, pre, listener := [], t.engine.sent, t.View(), t.pointToPointListener.value;
    ghost var config := ResponseConfig(message, listener);
    var r;
    r, ops := t.Send(message, true);
    ok := r.Returned? && r.result.Ok?;
    got := ops[0].result;
    assert ops == [] + [Get(config, got)];
    ApplySnoc(pre, t.me, [], ops[0]);
    assert t.engine.sent == sent + CommandsFor(message, config, got, Succeeds(t.engine.replies, |sent|));
    RegistrationsCounted(sent, message, config, got, Succeeds(t.engine.replies, |sent|));
    if got.Ok? {
      GrantLogged(bound, pre.bound, sent, base, listener, message, got.value);
    } else if !Refused(got) {
      LogSend(bound, pre.bound, sent, base, listener, message, Request);
    } else {
      assert t.engine.sent == sent;
    }
    AckedMore(t.engine.replies, |sent|, |sent| + 1, |sent| + 2);
    AckedOne(t.engine.replies, |sent|);
    AckedOne(t.engine.replies, |sent| + 1);
  }

  /**
   Sending requests, however often each recurs and whatever the engine answers: as long as the pool lasts,
   the point-to-point listener is bound once, and registered with the engine by one command, for every sink
   and source not bound to it before. All go through exactly if moreover the engine acknowledges every
   command. A registration that is refused is never repeated.
   */
  method SendRequests(t: UPTransportVsomeip, messages: seq<UMessage>) returns (ok: bool)
    requires t.Valid() && SliceConsistent(t.me, t.View()) && t.pointToPointListener.Some?
    requires forall i | 0 <= i < |messages| :: IsRequest(messages[i])
    modifies t.registry, t.statics`freeIds, t.statics`owner, t.engine
    ensures var configs := ResponseConfigs(messages, t.pointToPointListener.value);
            var needed := New(old(t.registry.bound), configs);
            && (PoolLasts(old(t.View()), configs) ==>
                && |t.statics.freeIds| == |old(t.statics.freeIds)| - |needed|
                && Registrations(t.engine.sent) == Registrations(old(t.engine.sent)) + |needed|
                && forall config ::
                     Stored(t.registry.bound, config) <==> Stored(old(t.registry.bound), config) || config in configs)
            && (ok <==> && PoolLasts(old(t.View()), configs)
                        && Acked(t.engine.replies, |old(t.engine.sent)|, |t.engine.sent|))
            && (ok ==> |t.engine.sent| == |old(t.engine.sent)| + |needed| + |messages|)
    ensures RegisteredOnce(t.engine.sent, |old(t.engine.sent)|, t.pointToPointListener.value)
    ensures RegisteredBeforeSent(old(t.registry.bound), t.engine.sent, |old(t.engine.sent)|,
                                 t.pointToPointListener.value)
  {
    ok := true;
    ghost var pre, base, results, replies := t.View(), |t.engine.sent|, [], t.engine.replies;
    ghost var count, configs := Registrations(t.engine.sent), ResponseConfigs(messages, t.pointToPointListener.value);
    RanNothing(pre, t.me);
    assert configs[..0] == [];
    for i := 0 to |messages|
      invariant t.Valid() && |results| == i && Ran(pre, t.me, Attempts(configs[..i], results), t.View())
      invariant base <= |t.engine.sent|
      invariant Logged(pre.bound, t.registry.bound, t.engine.sent, base, t.pointToPointListener.value)
      invariant ok <==> NoneRefused(results) && Acked(replies, base, |t.engine.sent|)
      invariant Registrations(t.engine.sent) == count + Granted(results)
      invariant ok ==> |t.engine.sent| == base + Granted(results) + i
    {
      ghost var before, so := t.View(), |t.engine.sent|;
      ghost var got;
      var accepted;
      accepted, got := SendRequest(t, messages[i], pre.bound, base);
      RanMore(pre, t.me, Attempts(configs[..i], results), before, Get(configs[i], got));
      AttemptsSnoc(configs, i, results, got);
      GrantedSnoc(results, got);
      NoneRefusedSnoc(results, got);
      AckedMore(replies, base, so, |t.engine.sent|);
      results := results + [got];
      ok := ok && accepted;
    }
    assert configs[..|configs|] == configs;
    ImplicitRegistrationIdempotent(pre, t.me, configs, results, t.View());
  }

  /**
   What may come of a refused registration: the first attempt panics and keeps the handler; the second finds
   the configuration stored, so the request goes out with no acknowledged registration behind it.
   */
  method ResendAfterRefusal(t: UPTransportVsomeip, message: UMessage)
    returns (first: Outcome<Unit>, second: Outcome<Unit>)
    requires t.Valid() && SliceConsistent(t.me, t.View()) && t.pointToPointListener.Some? && IsRequest(message)
    requires !Stored(t.registry.bound, ResponseConfig(message, t.pointToPointListener.value))
    requires |t.statics.freeIds| > 1 && !Succeeds(t.engine.replies, |t.engine.sent|)
    modifies t.registry, t.statics`freeIds, t.statics`owner, t.engine
    ensures first == Panicked && second == Returned(t.engine.replies(|old(t.engine.sent)| + 1))
    ensures var (base, config) := (|old(t.engine.sent)|, ResponseConfig(message, t.pointToPointListener.value));
            && |t.engine.sent| == base + 2
            && Registers(t.engine.sent[base], config, t.pointToPointListener.value)
            && t.engine.sent[base + 1] == Command.Send(message, Request)
            && !Backed(t.engine.sent, t.engine.replies, base, base + 1, config, t.pointToPointListener.value)
  {
    ghost var pre, config := t.View(), ResponseConfig(message, t.pointToPointListener.value);
    ghost var ops;
    first, ops := t.Send(message, true);
    assert ops == [] + [Get(config, ops[0].result)];
    ApplySnoc(pre, t.me, [], ops[0]);
    GetFailsExactly(pre, t.me, config, ops[0].result);
    StoredAfterInsert(pre.bound, ops[0].result.value, config, config);
    ghost var mid := t.View();
    assert |mid.free| == |pre.free| - 1;
    ApplyKeepsSlice(pre, t.me, ops[0]);
    second, ops := t.Send(message, true);
    assert ops == [] + [Get(config, ops[0].result)];
    ApplySnoc(mid, t.me, [], ops[0]);
    GetFailsExactly(mid, t.me, config, ops[0].result);
  }
}
