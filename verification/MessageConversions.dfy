/**
 Conversions between uProtocol and SOME/IP messages. The functions give the outcome of each conversion on
 the correlation state; the methods perform it on the registry.
 */
module MessageConversions {
  import opened Common
  import opened Uris
  import opened Messages
  import opened RpcCorrelation

  /** The identity of a transport. Its version has been checked to fit 8 bits when the transport was made. */
  datatype Endpoint = Endpoint(authority: string, remoteAuthority: string, ueId: U32, version: U8)

  /**
   What the message and URI builders of the uProtocol library contribute: whether a URI can be made from
   its parts, whether the message passes validation, and the id it is given.
   */
  datatype Builder = Builder(uriOk: bool, buildOk: bool, freshId: Uuid)

  /** The only instance this transport speaks to. */
  const INSTANCE: U16 := 1

  // ---------------------------------------------------------------- status codes

  function UCodeToVsomeipErrCode(code: UCode): ReturnCode {
    match code
    case OK => E_OK
    case INVALID_ARGUMENT => E_WRONG_MESSAGE_TYPE
    case DEADLINE_EXCEEDED => E_TIMEOUT
    case NOT_FOUND => E_UNKNOWN_SERVICE
    case UNAVAILABLE => E_UNKNOWN_SERVICE
    case DATA_LOSS => E_MALFORMED_MESSAGE
    case INTERNAL => E_NOT_REACHABLE
    case UNKNOWN => E_NOT_OK
    case FAILED_PRECONDITION => E_WRONG_PROTOCOL_VERSION
    case _ => E_UNKNOWN
  }

  function VsomeipErrCodeToUCode(code: ReturnCode): UCode {
    match code
    case E_OK => OK
    case E_WRONG_MESSAGE_TYPE => INVALID_ARGUMENT
    case E_UNKNOWN_METHOD => INVALID_ARGUMENT
    case E_TIMEOUT => DEADLINE_EXCEEDED
    case E_UNKNOWN_SERVICE => NOT_FOUND
    case E_NOT_READY => UNAVAILABLE
    case E_MALFORMED_MESSAGE => DATA_LOSS
    case E_NOT_REACHABLE => INTERNAL
    case E_NOT_OK => UNKNOWN
    case E_WRONG_PROTOCOL_VERSION => FAILED_PRECONDITION
    case E_WRONG_INTERFACE_VERSION => FAILED_PRECONDITION
    case _ => UNKNOWN
  }

  // ---------------------------------------------------------------- addressing

  function ServiceOf(uri: UUri): (service: U16)
    ensures service == uri.ueId % 0x1_0000
  {
    SplitU32ToU16(uri.ueId).1
  }

  function MethodOf(uri: UUri): (method_: U16)
    ensures method_ == uri.resource % 0x1_0000
  {
    SplitU32ToU16(uri.resource).1
  }

  function VersionOf(uri: UUri): (version: U8)
    ensures version == uri.version % 0x100
  {
    SplitU32ToU8(uri.version).3
  }

  /** The message is addressed to, or comes from, the URI, as far as SOME/IP can say. */
  predicate Addresses(msg: SomeIpMessage, uri: UUri) {
    && msg.service == uri.ueId % 0x1_0000
    && msg.method_ == uri.resource % 0x1_0000
    && msg.version == uri.version % 0x100
  }

  /** The URI a receiver makes of the addressing fields. */
  function UriOf(authority: string, m: SomeIpMessage): UUri {
    UUri(authority, m.service, m.version, m.method_)
  }

  // ---------------------------------------------------------------- outgoing

  /** Client and session are left for vsomeip to fill in. */
  function RequestOut(c: Correlation, umsg: UMessage, client: U16): (Correlation, Result<SomeIpMessage, UCode>) {
    if umsg.source.None? || umsg.sink.None? || umsg.id.None? then (c, Err(INVALID_ARGUMENT))
    else
      var sink := umsg.sink.value;
      var request := CreateRequestId(client, NextSession(c, client));
      var (c', inserted) := InsertUe(Advance(c, client), request, Pending(umsg.id.value, umsg.source.value));
      if inserted.Err? then (c', Err(inserted.error))
      else (c', Ok(SomeIpMessage(MT_REQUEST, ServiceOf(sink), INSTANCE, MethodOf(sink), VersionOf(sink), 0, 0, E_OK)))
  }

  function StatusOut(status: Option<CommStatus>): (SomeIpType, ReturnCode) {
    match status
    case Some(Known(code)) => (MT_ERROR, UCodeToVsomeipErrCode(code))
    case Some(Unrecognized(_)) => (MT_ERROR, UCodeToVsomeipErrCode(UNIMPLEMENTED))
    case None => (MT_RESPONSE, UCodeToVsomeipErrCode(UNIMPLEMENTED))
  }

  function ResponseOut(c: Correlation, umsg: UMessage): (Correlation, Result<SomeIpMessage, UCode>) {
    if umsg.source.None? || umsg.reqid.None? then (c, Err(INVALID_ARGUMENT))
    else
      var (c', found) := RemoveMe(c, umsg.reqid.value);
      if found.Err? then (c', Err(found.error))
      else
        var source := umsg.source.value;
        var (client, session) := SplitU32ToU16(found.value);
        var (kind, code) := StatusOut(umsg.commStatus);
        (c', Ok(SomeIpMessage(kind, ServiceOf(source), INSTANCE, MethodOf(source), VersionOf(source),
                              client, session, code)))
  }

  method UmsgRequestToVsomeipMessage(umsg: UMessage, registry: InMemoryRpcCorrelationRegistry, client: U16)
    returns (r: Result<SomeIpMessage, UCode>)
    modifies registry
    ensures (registry.View(), r) == RequestOut(old(registry.View()), umsg, client)
  {
    if umsg.source.None? {
      return Err(INVALID_ARGUMENT);
    }
    if umsg.sink.None? {
      return Err(INVALID_ARGUMENT);
    }
    var sink := umsg.sink.value;
    var msg := SomeIpMessage(MT_REQUEST, 0, 0, 0, 0, 0, 0, E_OK);
    msg := msg.(service := ServiceOf(sink));
    msg := msg.(instance := INSTANCE);
    msg := msg.(method_ := MethodOf(sink));
    msg := msg.(version := VersionOf(sink));
    if umsg.id.None? {
      return Err(INVALID_ARGUMENT);
    }
    var session := registry.RetrieveSessionId(client);
    var inserted := registry.InsertUeRequestCorrelation(CreateRequestId(client, session),
        Pending(umsg.id.value, umsg.source.value));
    if inserted.Err? {
      return Err(inserted.error);
    }
    msg := msg.(returnCode := E_OK);
    r := Ok(msg);
  }

  method UmsgResponseToVsomeipMessage(umsg: UMessage, registry: InMemoryRpcCorrelationRegistry)
    returns (r: Result<SomeIpMessage, UCode>)
    modifies registry
    ensures (registry.View(), r) == ResponseOut(old(registry.View()), umsg)
  {
    if umsg.source.None? {
      return Err(INVALID_ARGUMENT);
    }
    var source := umsg.source.value;
    var msg := SomeIpMessage(MT_REQUEST, 0, 0, 0, 0, 0, 0, E_OK);
    msg := msg.(service := ServiceOf(source));
    msg := msg.(instance := INSTANCE);
    msg := msg.(method_ := MethodOf(source));
    msg := msg.(version := VersionOf(source));
    if umsg.reqid.None? {
      return Err(INVALID_ARGUMENT);
    }
    var request := registry.RemoveMeRequestCorrelation(umsg.reqid.value);
    if request.Err? {
      return Err(request.error);
    }
    var (client, session) := SplitU32ToU16(request.value);
    msg := msg.(client := client);
    msg := msg.(session := session);
    var status, kind;
    match umsg.commStatus {
      case Some(Known(code)) => status, kind := code, MT_ERROR;
      case Some(Unrecognized(_)) => status, kind := UNIMPLEMENTED, MT_ERROR;
      case None => status, kind := UNIMPLEMENTED, MT_RESPONSE;
    }
    msg := msg.(returnCode := UCodeToVsomeipErrCode(status));
    msg := msg.(kind := kind);
    r := Ok(msg);
  }

  // ---------------------------------------------------------------- incoming

  function RequestIn(c: Correlation, m: SomeIpMessage, self: Endpoint, b: Builder): (Correlation,
                     Result<UMessage, UCode>) {
    if !b.uriOk then (c, Err(INVALID_ARGUMENT))
    else if !b.buildOk then (c, Err(INTERNAL))
    else
      var (c', inserted) := InsertMe(c, b.freshId, m.RequestId());
      if inserted.Err? then (c', Err(inserted.error))
      else
        (c', Ok(UMessage(REQUEST, Some(UUri(self.remoteAuthority, self.ueId, self.version, 0)),
            Some(UriOf(self.authority, m)),
                         Some(b.freshId), None, None)))
  }

  /** Responses and errors differ only in the status they carry. */
  function ResponseIn(c: Correlation, m: SomeIpMessage, self: Endpoint, b: Builder): (Correlation,
                      Result<UMessage, UCode>) {
    if !b.uriOk then (c, Err(INVALID_ARGUMENT))
    else
      var (c', found) := RemoveUe(c, m.RequestId());
      if found.Err? then (c', Err(found.error))
      else if !b.buildOk then (c', Err(INTERNAL))
      else
        var status := if m.kind == MT_ERROR then VsomeipErrCodeToUCode(m.returnCode) else OK;
        (c', Ok(UMessage(RESPONSE, Some(UriOf(self.remoteAuthority, m)), Some(found.value.source),
                         Some(b.freshId), Some(found.value.reqid), Some(Known(status)))))
  }

  /** The version of a notification is not transmitted; it is taken to be 1. */
  function NotificationIn(m: SomeIpMessage, self: Endpoint, b: Builder): Result<UMessage, UCode> {
    if !b.uriOk then Err(INVALID_ARGUMENT)
    else if !b.buildOk then Err(INTERNAL)
    else Ok(UMessage(PUBLISH, Some(UUri(self.remoteAuthority, m.service, 1, m.method_)), None, Some(b.freshId), None,
        None))
  }

  function MessageIn(c: Correlation, m: SomeIpMessage, hasPayload: bool, self: Endpoint, b: Builder): (Correlation,
                     Result<UMessage, UCode>) {
    if !hasPayload then (c, Err(INTERNAL))
    else
      match m.kind
      case MT_REQUEST => RequestIn(c, m, self, b)
      case MT_NOTIFICATION => (c, NotificationIn(m, self, b))
      case MT_RESPONSE => ResponseIn(c, m, self, b)
      case MT_ERROR => ResponseIn(c, m, self, b)
      case MT_OTHER => (c, Err(OUT_OF_RANGE))
  }

  /** A request as its listener hears it: addressed as the message says, and answered for under its own id. */
  predicate HeardRequest(u: UMessage, m: SomeIpMessage, self: Endpoint) {
    && u.kind == REQUEST && u.id.Some? && u.reqid.None?
    && u.sink == Some(UUri(self.authority, m.service, m.version, m.method_))
    && u.source == Some(UUri(self.remoteAuthority, self.ueId, self.version, 0))
  }

  method ConvertRequest(m: SomeIpMessage, self: Endpoint, registry: InMemoryRpcCorrelationRegistry, b: Builder)
    returns (r: Result<UMessage, UCode>)
    modifies registry
    ensures (registry.View(), r) == RequestIn(old(registry.View()), m, self, b)
    ensures r.Ok? ==>
              && HeardRequest(r.value, m, self) && r.value.id.value !in old(registry.meRequests)
              && registry.meRequests == old(registry.meRequests)[r.value.id.value := m.client * 0x1_0000 + m.session]
    ensures r.Err? ==> registry.meRequests == old(registry.meRequests)
  {
    if !b.uriOk {
      return Err(INVALID_ARGUMENT);
    }
    var sink := UUri(self.authority, m.service, m.version, m.method_);
    var source := UUri(self.remoteAuthority, self.ueId, self.version, 0);
    if !b.buildOk {
      return Err(INTERNAL);
    }
    var inserted := registry.InsertMeRequestCorrelation(b.freshId, m.RequestId());
    if inserted.Err? {
      return Err(inserted.error);
    }
    r := Ok(UMessage(REQUEST, Some(source), Some(sink), Some(b.freshId), None, None));
  }

  method ConvertResponseOrError(m: SomeIpMessage, self: Endpoint, registry: InMemoryRpcCorrelationRegistry, b: Builder)
    returns (r: Result<UMessage, UCode>)
    modifies registry
    ensures (registry.View(), r) == ResponseIn(old(registry.View()), m, self, b)
  {
    if !b.uriOk {
      return Err(INVALID_ARGUMENT);
    }
    var source := UUri(self.remoteAuthority, m.service, m.version, m.method_);
    var found := registry.RemoveUeRequestCorrelation(m.RequestId());
    if found.Err? {
      return Err(found.error);
    }
    var status := OK;
    if m.kind == MT_ERROR {
      status := VsomeipErrCodeToUCode(m.returnCode);
    }
    if !b.buildOk {
      return Err(INTERNAL);
    }
    r := Ok(UMessage(RESPONSE, Some(source), Some(found.value.source), Some(b.freshId), Some(found.value.reqid),
        Some(Known(status))));
  }

  method ConvertVsomeipMsgToUmsg(m: SomeIpMessage, hasPayload: bool, self: Endpoint,
                                 registry: InMemoryRpcCorrelationRegistry, b: Builder)
    returns (r: Result<UMessage, UCode>)
    modifies registry
    ensures (registry.View(), r) == MessageIn(old(registry.View()), m, hasPayload, self, b)
    ensures !hasPayload ==> r == Err(INTERNAL) && registry.View() == old(registry.View())
    ensures hasPayload && m.kind == MT_OTHER ==> r == Err(OUT_OF_RANGE) && registry.View() == old(registry.View())
  {
    if !hasPayload {
      return Err(INTERNAL);
    }
    match m.kind {
      case MT_REQUEST => r := ConvertRequest(m, self, registry, b);
      case MT_NOTIFICATION => r := NotificationIn(m, self, b);
      case MT_RESPONSE => r := ConvertResponseOrError(m, self, registry, b);
      case MT_ERROR => r := ConvertResponseOrError(m, self, registry, b);
      case MT_OTHER => r := Err(OUT_OF_RANGE);
    }
  }

  // ---------------------------------------------------------------- what survives a round trip

  /**
   Addressing over both hops: when a service answers from the URI it was asked at, the client receives the
   URI it asked, up to authority, truncated to 16-bit entity and resource and 8-bit version; so it is
   unchanged exactly if it fits those widths.
   */
  lemma AddressingRoundTrip(c1: Correlation, request: UMessage, client: U16, wire: SomeIpMessage,
                            c2: Correlation, service: Endpoint, b2: Builder,
                            c3: Correlation, response: UMessage,
                            c4: Correlation, asker: Endpoint, b4: Builder)
    requires RequestOut(c1, request, client).1.Ok?
    requires var sent := RequestOut(c1, request, client).1.value;
             wire == sent.(client := wire.client, session := wire.session)
    requires RequestIn(c2, wire, service, b2).1.Ok?
    requires response.source == RequestIn(c2, wire, service, b2).1.value.sink
    requires ResponseOut(c3, response).1.Ok?
    requires ResponseIn(c4, ResponseOut(c3, response).1.value, asker, b4).1.Ok?
    ensures var asked := request.sink.value;
            var heard := ResponseIn(c4, ResponseOut(c3, response).1.value, asker, b4).1.value.source.value;
            && heard == UUri(asker.remoteAuthority, asked.ueId % 0x1_0000, asked.version % 0x100,
               asked.resource % 0x1_0000)
            && (heard.(authority := asked.authority) == asked
                <==> asked.ueId < 0x1_0000 && asked.version < 0x100 && asked.resource < 0x1_0000)
  {
    var asked := request.sink.value;
    assert asked.ueId % 0x1_0000 % 0x1_0000 == asked.ueId % 0x1_0000;
    assert asked.version % 0x100 % 0x100 == asked.version % 0x100;
    assert asked.resource % 0x1_0000 % 0x1_0000 == asked.resource % 0x1_0000;
  }

  /** What one pass over SOME/IP makes of a communication status. */
  function StatusHop(status: Option<CommStatus>): Option<CommStatus> {
    var (kind, code) := StatusOut(status);
    Some(Known(if kind == MT_ERROR then VsomeipErrCodeToUCode(code) else OK))
  }

  function StatusHops(status: Option<CommStatus>, n: nat): Option<CommStatus> {
    if n == 0 then status else StatusHop(StatusHops(status, n - 1))
  }

  /** `StatusHop` is what the two conversions do to the status of a response. */
  lemma StatusHopIsTheConversions(c1: Correlation, response: UMessage, c2: Correlation, asker: Endpoint, b: Builder)
    requires ResponseOut(c1, response).1.Ok?
    requires ResponseIn(c2, ResponseOut(c1, response).1.value, asker, b).1.Ok?
    ensures ResponseIn(c2, ResponseOut(c1, response).1.value, asker, b).1.value.commStatus
            == StatusHop(response.commStatus)
  {
  }

  lemma StatusHopTwice(status: Option<CommStatus>)
    ensures StatusHop(StatusHop(status)) == StatusHop(status)
  {
    match status
    case None =>
    case Some(Unrecognized(_)) =>
    case Some(Known(code)) =>
  }

  /** A status settles at the first hop: any further hop leaves it alone. */
  lemma {:induction false} StatusSettles(status: Option<CommStatus>, n: nat)
    requires n >= 1
    ensures StatusHops(status, n) == StatusHop(status)
  {
    if n > 1 {
      StatusSettles(status, n - 1);
      assert StatusHop(StatusHop(status)) == StatusHop(status) by {
        StatusHopTwice(status);
      }
    } else {
      assert StatusHops(status, 0) == status;
    }
  }

  /** The statuses that arrive as they were sent. */
  lemma StatusesThatSurvive(code: UCode)
    ensures StatusHop(Some(Known(code))) == Some(Known(code))
            <==> code in {OK, UNKNOWN, INVALID_ARGUMENT, DEADLINE_EXCEEDED, NOT_FOUND, FAILED_PRECONDITION, INTERNAL,
                DATA_LOSS}
  {
  }

  /** The status codes for which SOME/IP has no return code. */
  predicate NoCounterpart(code: UCode) {
    code in {CANCELLED, ALREADY_EXISTS, PERMISSION_DENIED, UNAUTHENTICATED, RESOURCE_EXHAUSTED, ABORTED, OUT_OF_RANGE,
             UNIMPLEMENTED}
  }

  /** The status that is heard, for every status sent. Only where none is sent is one invented, and that is OK. */
  lemma StatusHeard(status: Option<CommStatus>)
    ensures var heard := StatusHop(status).value.code;
            match status
            case None => heard == OK
            case Some(Unrecognized(_)) => heard == UNKNOWN
            case Some(Known(code)) =>
              && (heard == OK <==> code == OK)
              && (code == UNAVAILABLE ==> heard == NOT_FOUND)
              && (NoCounterpart(code) ==> heard == UNKNOWN)
  {
  }

  /** A response is sent as an error exactly if it has a status, be it OK; what it is heard as is `StatusHop`. */
  lemma ErrorsHaveStatus(c: Correlation, umsg: UMessage)
    requires ResponseOut(c, umsg).1.Ok?
    ensures ResponseOut(c, umsg).1.value.kind == (if umsg.commStatus.Some? then MT_ERROR else MT_RESPONSE)
  {
  }

  /** No return code but E_OK is heard as OK, and passed on, most return codes stay as they are. */
  lemma ReturnCodesPassedOn(code: ReturnCode)
    ensures VsomeipErrCodeToUCode(code) == OK <==> code == E_OK
    ensures UCodeToVsomeipErrCode(VsomeipErrCodeToUCode(code))
            == match code
               case E_UNKNOWN_METHOD => E_WRONG_MESSAGE_TYPE
               case E_NOT_READY => E_UNKNOWN_SERVICE
               case E_WRONG_INTERFACE_VERSION => E_WRONG_PROTOCOL_VERSION
               case E_UNKNOWN => E_NOT_OK
               case _ => code
  {
  }

  // ---------------------------------------------------------------- what is heard

  /** A service hears the URI that was asked, in its own authority and truncated to the widths of SOME/IP. */
  lemma RequestArrives(c1: Correlation, request: UMessage, client: U16, wire: SomeIpMessage,
                       c2: Correlation, service: Endpoint, b: Builder)
    requires RequestOut(c1, request, client).1.Ok?
    requires var sent := RequestOut(c1, request, client).1.value;
             wire == sent.(client := wire.client, session := wire.session)
    requires RequestIn(c2, wire, service, b).1.Ok?
    ensures var (c2', r) := RequestIn(c2, wire, service, b);
            var asked := request.sink.value;
            && HeardRequest(r.value, wire, service)
            && r.value.sink == Some(UUri(service.authority, asked.ueId % 0x1_0000, asked.version % 0x100,
                                         asked.resource % 0x1_0000))
            && c2'.me == c2.me[r.value.id.value := wire.client * 0x1_0000 + wire.session]
  {
  }

  /**
   Whatever happens in between, as long as a received request is not answered, an answer to the id under
   which it was heard is accepted, and goes out under the request id under which the request came in.
   */
  lemma AnswerFindsItsRequest(c: Correlation, m: SomeIpMessage, self: Endpoint, b: Builder, calls: seq<Call>,
                              answer: UMessage)
    requires RequestIn(c, m, self, b).1.Ok?
    requires answer.source.Some? && answer.reqid == RequestIn(c, m, self, b).1.value.id
    requires answer.reqid.Some? ==> TakeMe(answer.reqid.value) !in calls
    ensures var r := ResponseOut(PerformAll(RequestIn(c, m, self, b).0, calls), answer).1;
            && r.Ok? && r.value.client == m.client && r.value.session == m.session
            && r.value.RequestId() == m.RequestId()
            && r.value.instance == 1 && Addresses(r.value, answer.source.value)
  {
    PendingMeStable(RequestIn(c, m, self, b).0, calls, answer.reqid.value);
    JoinSplitInverse(m.client, m.session, 0);
  }

  /** An answer is heard as the answer to the pending request of its number, and sent where that came from. */
  lemma AnswerHeard(c: Correlation, m: SomeIpMessage, self: Endpoint, b: Builder)
    requires ResponseIn(c, m, self, b).1.Ok?
    ensures var (c', r) := ResponseIn(c, m, self, b);
            var request := m.client * 0x1_0000 + m.session;
            && request in c.ue && c' == c.(ue := c.ue - {request})
            && r.value.kind == RESPONSE && r.value.id == Some(b.freshId)
            && r.value.reqid == Some(c.ue[request].reqid) && r.value.sink == Some(c.ue[request].source)
            && r.value.source == Some(UUri(self.remoteAuthority, m.service, m.version, m.method_))
            && r.value.commStatus.Some? && r.value.commStatus.value.Known?
  {
  }

  /** The message in which vsomeip delivers an event. */
  function NotificationOf(service: U16, instance: U16, event: U16): SomeIpMessage {
    SomeIpMessage(MT_NOTIFICATION, service, instance, event, 0, 0, 0, E_OK)
  }

  /**
   A subscriber hears an event as published by entity and resource of its service and event, in version 1:
   the publisher's URI, up to authority, exactly if that fits 16 bits each and the version is 1.
   */
  lemma NotificationHeard(c: Correlation, publisher: UUri, self: Endpoint, b: Builder)
    requires b.uriOk && b.buildOk
    ensures var m := NotificationOf(publisher.ueId % 0x1_0000, 1, publisher.resource % 0x1_0000);
            var (c', r) := MessageIn(c, m, true, self, b);
            && c' == c && r.Ok? && r.value.kind == PUBLISH && r.value.sink.None? && r.value.id == Some(b.freshId)
            && r.value.source == Some(UUri(self.remoteAuthority, publisher.ueId % 0x1_0000, 1,
                                           publisher.resource % 0x1_0000))
            && (r.value.source.value.(authority := publisher.authority) == publisher
                <==> publisher.ueId < 0x1_0000 && publisher.version == 1 && publisher.resource < 0x1_0000)
  {
  }

  // ---------------------------------------------------------------- when conversions fail

  /**
   A request with source, sink and id fails exactly if its session id is still pending; the counter moves
   on all the same.
   */
  lemma RequestFailsExactly(c: Correlation, umsg: UMessage, client: U16)
    requires umsg.source.Some? && umsg.sink.Some? && umsg.id.Some?
    ensures RequestOut(c, umsg, client).1.Err? <==> CreateRequestId(client, NextSession(c, client)) in c.ue
    ensures RequestOut(c, umsg, client).1.Err? ==> RequestOut(c, umsg, client).0 == Advance(c, client)
  {
  }

  /** Which error each failing conversion of an outgoing message gives, and what it leaves behind. */
  lemma OutgoingErrors(c: Correlation, umsg: UMessage, client: U16)
    ensures var (c', r) := RequestOut(c, umsg, client);
            && (r == Err(INVALID_ARGUMENT) <==> umsg.source.None? || umsg.sink.None? || umsg.id.None?)
            && (r == Err(INVALID_ARGUMENT) ==> c' == c)
            && (r.Err? ==> r.error == INVALID_ARGUMENT || r.error == ALREADY_EXISTS)
            && (r.Err? ==> c'.ue == c.ue && c'.me == c.me)
    ensures var (c', r) := ResponseOut(c, umsg);
            && (r == Err(INVALID_ARGUMENT) <==> umsg.source.None? || umsg.reqid.None?)
            && (r == Err(NOT_FOUND) <==> umsg.source.Some? && umsg.reqid.Some? && umsg.reqid.value !in c.me)
            && (r.Err? ==> (r.error == INVALID_ARGUMENT || r.error == NOT_FOUND) && c' == c)
  {
  }

  /**
   The same for incoming messages. A request that fails leaves nothing behind; an answer that cannot be built
   is consumed all the same.
   */
  lemma IncomingErrors(c: Correlation, m: SomeIpMessage, self: Endpoint, b: Builder)
    ensures var (c', r) := RequestIn(c, m, self, b);
            && (r.Ok? <==> b.uriOk && b.buildOk && b.freshId !in c.me)
            && (r.Err? ==> c' == c)
            && (r == Err(INVALID_ARGUMENT) <==> !b.uriOk) && (r == Err(INTERNAL) <==> b.uriOk && !b.buildOk)
            && (r == Err(ALREADY_EXISTS) <==> b.uriOk && b.buildOk && b.freshId in c.me)
    ensures var (c', r) := ResponseIn(c, m, self, b);
            && (r.Ok? <==> b.uriOk && b.buildOk && m.RequestId() in c.ue)
            && (r == Err(INVALID_ARGUMENT) <==> !b.uriOk)
            && (r == Err(NOT_FOUND) <==> b.uriOk && m.RequestId() !in c.ue)
            && (r == Err(INTERNAL) <==> b.uriOk && m.RequestId() in c.ue && !b.buildOk)
            && c' == (if b.uriOk then c.(ue := c.ue - {m.RequestId()}) else c)
  {
    if m.RequestId() !in c.ue {
      assert c.ue - {m.RequestId()} == c.ue;
    }
  }
}
