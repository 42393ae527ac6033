/**
 Remote procedure calls end to end: any number of transports, each both client and service, over a network
 that may lose, reorder and duplicate messages. The correlation state of each transport is changed by the
 conversions alone; what they did is also recorded, for the statements only.
 */
module RpcProtocol {
  import opened Common
  import opened Uris
  import opened Messages
  import opened RpcCorrelation
  import opened MessageConversions
  import TransportEngine

  type NodeId = int

  /** The index-th request of a node, counting from 1. */
  datatype Origin = Origin(node: NodeId, index: int)

  /**
   A message on the wire; the request it is or answers; and whether it is addressed faithfully, that is, an
   answer sent from the URI at which the request was received. No step looks at the last two.
   */
  datatype Packet = Packet(msg: SomeIpMessage, origin: Origin, faithful: bool)

  datatype Delivery = Delivery(request: U32, origin: Origin, faithful: bool, umsg: UMessage)

  /** A request as a service received it: whose it is, where it was asked, and the request id it came with. */
  datatype Ticket = Ticket(origin: Origin, askedAt: UUri, request: U32)

  datatype Node = Node(
    client: U16,
    self: Endpoint,
    rpc: Correlation,
    // history
    issued: seq<UMessage>,
    consumed: set<U32>,
    delivered: seq<Delivery>,
    mintedFor: map<Uuid, Ticket>,
    answered: seq<Uuid>)

  /** The wire keeps every message ever sent: one may be received any number of times, in any order, or never. */
  datatype World = World(nodes: map<NodeId, Node>, wire: set<Packet>)

  datatype Action =
    | SendRequest(n: NodeId, umsg: UMessage)
    | SendResponse(n: NodeId, umsg: UMessage)
    | Receive(n: NodeId, packet: Packet, hasPayload: bool, b: Builder)

  /**
   What the environment guarantees: messages are received only if sent, and answers by the client they name;
   and the builder never gives the same id to two requests received by one transport. What is sent as a
   request or response is one.
   */
  ghost predicate Can(w: World, a: Action) {
    && a.n in w.nodes
    && (a.SendRequest? ==> a.umsg.kind == REQUEST)
    && (a.SendResponse? ==> a.umsg.kind == RESPONSE)
    && (a.Receive? ==>
        && a.packet in w.wire
        && (a.packet.msg.kind == MT_REQUEST ==> a.b.freshId !in w.nodes[a.n].mintedFor)
        && (a.packet.msg.kind == MT_RESPONSE || a.packet.msg.kind == MT_ERROR
            ==> a.packet.msg.client == w.nodes[a.n].client))
  }

  /**
   vsomeip numbers the requests of an application 1, 2, 3, ... in the order they are sent. Nothing relies on
   what it gives past 65535.
   */
  function VsomeipSession(node: Node): U16 {
    (|node.issued| + 1) % 0x1_0000
  }

  /** What the engine of a node does to its correlation state for a message, and the message it gives to vsomeip. */
  ghost function Transmitted(rpc: Correlation, umsg: UMessage, client: U16)
    : (Correlation, Result<SomeIpMessage, UCode>)
  {
    var (st, r) := TransportEngine.SendInternal(TransportEngine.INITIAL_ENGINE.(rpc := rpc), umsg, client);
    (st.rpc,
     if r.Err? then Err(r.error)
     else if st.calls != [] && st.calls[|st.calls| - 1].SendMessage? then Ok(st.calls[|st.calls| - 1].msg)
     else Err(INTERNAL))
  }

  lemma TransmittedIs(rpc: Correlation, umsg: UMessage, client: U16)
    ensures umsg.kind == REQUEST ==> Transmitted(rpc, umsg, client) == RequestOut(rpc, umsg, client)
    ensures umsg.kind == RESPONSE ==> Transmitted(rpc, umsg, client) == ResponseOut(rpc, umsg)
  {
  }

  /** The requests a service remembers, by the id under which each was delivered to its listener. */
  ghost function Minted(node: Node, p: Packet, heard: UMessage): map<Uuid, Ticket> {
    if heard.id.Some? && heard.sink.Some? then
      node.mintedFor[heard.id.value := Ticket(p.origin, heard.sink.value, p.msg.RequestId())]
    else node.mintedFor
  }

  /** A request accepted goes on the wire with the client and session that vsomeip gives it. */
  ghost function AfterRequest(w: World, n: NodeId, umsg: UMessage, rpc': Correlation,
                              r: Result<SomeIpMessage, UCode>): World
    requires n in w.nodes
  {
    var node := w.nodes[n];
    match r
    case Err(_) => w.(nodes := w.nodes[n := node.(rpc := rpc')])
    case Ok(draft) =>
      var msg := draft.(client := node.client, session := VsomeipSession(node));
      World(w.nodes[n := node.(rpc := rpc', issued := node.issued + [umsg])],
            w.wire + {Packet(msg, Origin(n, |node.issued| + 1), true)})
  }

  /** A response accepted goes on the wire as it is. */
  ghost function AfterResponse(w: World, n: NodeId, umsg: UMessage, rpc': Correlation,
                               r: Result<SomeIpMessage, UCode>): World
    requires n in w.nodes
  {
    var node := w.nodes[n];
    match r
    case Err(_) => w.(nodes := w.nodes[n := node.(rpc := rpc')])
    case Ok(msg) =>
      var id := if umsg.reqid.Some? then umsg.reqid.value else Uuid(0);
      var ticket := if id in node.mintedFor then node.mintedFor[id] else Ticket(Origin(n, 0), ANY_UURI, 0);
      World(w.nodes[n := node.(rpc := rpc', answered := node.answered + [id])],
            w.wire + {Packet(msg, ticket.origin, umsg.source == Some(ticket.askedAt))})
  }

  ghost function RequestSent(w: World, n: NodeId, umsg: UMessage): World
    requires n in w.nodes
  {
    var (rpc', r) := Transmitted(w.nodes[n].rpc, umsg, w.nodes[n].client);
    AfterRequest(w, n, umsg, rpc', r)
  }

  ghost function ResponseSent(w: World, n: NodeId, umsg: UMessage): World
    requires n in w.nodes
  {
    var (rpc', r) := Transmitted(w.nodes[n].rpc, umsg, w.nodes[n].client);
    AfterResponse(w, n, umsg, rpc', r)
  }

  /** The same in terms of the conversions. */
  ghost function RequestConverted(w: World, n: NodeId, umsg: UMessage): World
    requires n in w.nodes
  {
    var (rpc', r) := RequestOut(w.nodes[n].rpc, umsg, w.nodes[n].client);
    AfterRequest(w, n, umsg, rpc', r)
  }

  ghost function ResponseConverted(w: World, n: NodeId, umsg: UMessage): World
    requires n in w.nodes
  {
    var (rpc', r) := ResponseOut(w.nodes[n].rpc, umsg);
    AfterResponse(w, n, umsg, rpc', r)
  }

  lemma SentIsConverted(w: World, n: NodeId, umsg: UMessage)
    requires n in w.nodes
    ensures umsg.kind == REQUEST ==> RequestSent(w, n, umsg) == RequestConverted(w, n, umsg)
    ensures umsg.kind == RESPONSE ==> ResponseSent(w, n, umsg) == ResponseConverted(w, n, umsg)
  {
    TransmittedIs(w.nodes[n].rpc, umsg, w.nodes[n].client);
  }

  ghost function Received(w: World, n: NodeId, p: Packet, hasPayload: bool, b: Builder): World
    requires n in w.nodes
  {
    var node := w.nodes[n];
    var (rpc', r) := MessageIn(node.rpc, p.msg, hasPayload, node.self, b);
    var taken := node.rpc.ue.Keys - rpc'.ue.Keys;
    var node' := node.(rpc := rpc', consumed := node.consumed + taken);
    var node'' :=
      if r.Ok? && p.msg.kind == MT_REQUEST then
        node'.(mintedFor := Minted(node, p, r.value))
      else if r.Ok? && (p.msg.kind == MT_RESPONSE || p.msg.kind == MT_ERROR) then
        node'.(delivered := node.delivered + [Delivery(p.msg.RequestId(), p.origin, p.faithful, r.value)])
      else node';
    w.(nodes := w.nodes[n := node''])
  }

  ghost function Do(w: World, a: Action): World
    requires a.n in w.nodes
  {
    match a
    case SendRequest(n, umsg) => RequestSent(w, n, umsg)
    case SendResponse(n, umsg) => ResponseSent(w, n, umsg)
    case Receive(n, p, hasPayload, b) => Received(w, n, p, hasPayload, b)
  }

  ghost predicate DistinctClients(w: World) {
    forall n, m | n in w.nodes && m in w.nodes && w.nodes[n].client == w.nodes[m].client :: n == m
  }

  ghost predicate Initial(w: World) {
    && w.wire == {}
    && (forall n | n in w.nodes ::
          var node := w.nodes[n];
          node.rpc == EMPTY_CORRELATION && node.issued == [] && node.consumed == {} && node.delivered == []
          && node.mintedFor == map[] && node.answered == [])
    && DistinctClients(w)
  }

  /** A run: every action possible where it is taken. */
  ghost predicate IsRun(worlds: seq<World>, actions: seq<Action>) {
    && |worlds| == |actions| + 1
    && Initial(worlds[0])
    && forall i | 0 <= i < |actions| :: Can(worlds[i], actions[i]) && worlds[i + 1] == Do(worlds[i], actions[i])
  }

  /** Fewer than 65535 requests per client: the session counter has not wrapped. */
  ghost predicate Bounded(w: World) {
    forall n | n in w.nodes :: |w.nodes[n].issued| < 0xFFFF
  }

  // ---------------------------------------------------------------- the invariant

  ghost predicate Complete(umsg: UMessage) {
    umsg.source.Some? && umsg.sink.Some? && umsg.id.Some?
  }

  /** What is remembered of a request. */
  ghost function PendingOf(umsg: UMessage): Pending {
    if Complete(umsg) then Pending(umsg.id.value, umsg.source.value) else Pending(Uuid(0), ANY_UURI)
  }

  /** The request id under which a client files its index-th request. */
  function FiledAs(client: U16, index: int): U32 {
    if 0 <= index < 0x1_0000 then CreateRequestId(client, index) else 0
  }

  ghost predicate ValidOrigin(w: World, o: Origin) {
    o.node in w.nodes && 1 <= o.index <= |w.nodes[o.node].issued|
  }

  /** Where the request was sent. */
  ghost function AskedAt(w: World, o: Origin): UUri
    requires ValidOrigin(w, o)
  {
    var umsg := w.nodes[o.node].issued[o.index - 1];
    if umsg.sink.Some? then umsg.sink.value else ANY_UURI
  }

  /** The request id of a request. */
  ghost function FiledUnder(w: World, o: Origin): U32 {
    if o.node in w.nodes then FiledAs(w.nodes[o.node].client, o.index) else 0
  }

  /** Two URIs with the same addressing fields. */
  predicate SameAddress(a: UUri, b: UUri) {
    ServiceOf(a) == ServiceOf(b) && MethodOf(a) == MethodOf(b) && VersionOf(a) == VersionOf(b)
  }

  /** Pending and consumed requests of a client are, disjointly, the requests it issued, under their own ids. */
  ghost predicate ClientOk(node: Node) {
    && NextSession(node.rpc, node.client) == |node.issued| + 1
    && (forall umsg | umsg in node.issued :: Complete(umsg))
    && (forall i | 1 <= i <= |node.issued| ::
        FiledAs(node.client, i) in node.rpc.ue <==> FiledAs(node.client, i) !in node.consumed)
    && (forall r | r in node.rpc.ue || r in node.consumed ::
          var i := SplitU32ToU16(r).1; 1 <= i <= |node.issued| && r == FiledAs(node.client, i))
    && (forall i | 1 <= i <= |node.issued| && FiledAs(node.client, i) in node.rpc.ue ::
          node.rpc.ue[FiledAs(node.client, i)] == PendingOf(node.issued[i - 1]))
  }

  /** A delivery carries the id and the source of the request it answers, and the answer was made for that request. */
  ghost predicate DeliveryOk(n: NodeId, node: Node, d: Delivery) {
    && d.request in node.consumed
    && var i := SplitU32ToU16(d.request).1;
       && 1 <= i <= |node.issued| && Complete(node.issued[i - 1])
       && d.origin == Origin(n, i)
       && d.umsg.kind == RESPONSE
       && d.umsg.reqid == node.issued[i - 1].id
       && d.umsg.sink == node.issued[i - 1].source
       && (d.faithful ==>
           var asked := node.issued[i - 1].sink.value;
           d.umsg.source == Some(UUri(node.self.remoteAuthority, ServiceOf(asked), VersionOf(asked), MethodOf(asked))))
  }

  ghost predicate DeliveriesOk(n: NodeId, node: Node) {
    && (forall d | d in node.delivered :: DeliveryOk(n, node, d))
    && (forall j, k | 0 <= j < k < |node.delivered| :: node.delivered[j].request != node.delivered[k].request)
  }

  ghost predicate TicketOk(w: World, t: Ticket) {
    && ValidOrigin(w, t.origin) && SameAddress(t.askedAt, AskedAt(w, t.origin))
    && t.request == FiledUnder(w, t.origin)
  }

  /** The requests a service has received are, disjointly, those pending and those answered once. */
  ghost predicate ServiceOk(w: World, node: Node) {
    && node.mintedFor.Keys == node.rpc.me.Keys + (set id | id in node.answered)
    && (forall id | id in node.answered :: id !in node.rpc.me)
    && (forall j, k | 0 <= j < k < |node.answered| :: node.answered[j] != node.answered[k])
    && (forall id | id in node.mintedFor :: TicketOk(w, node.mintedFor[id]))
    && (forall id | id in node.rpc.me ::
        id in node.mintedFor && node.rpc.me[id] == FiledUnder(w, node.mintedFor[id].origin))
  }

  /** Every message on the wire bears the request id of the request it is or answers. */
  ghost predicate PacketOk(w: World, p: Packet) {
    && ValidOrigin(w, p.origin)
    && p.msg.RequestId() == FiledUnder(w, p.origin)
    && (p.faithful ==> Addresses(p.msg, AskedAt(w, p.origin)))
    && (p.msg.kind == MT_REQUEST ==> p.faithful)
    && p.msg.client == w.nodes[p.origin.node].client
    && (p.msg.kind == MT_REQUEST || p.msg.kind == MT_RESPONSE || p.msg.kind == MT_ERROR)
  }

  ghost predicate Inv(w: World) {
    && DistinctClients(w)
    && (forall n | n in w.nodes :: ClientOk(w.nodes[n]))
    && (forall n | n in w.nodes :: DeliveriesOk(n, w.nodes[n]))
    && (forall n | n in w.nodes :: ServiceOk(w, w.nodes[n]))
    && (forall p | p in w.wire :: PacketOk(w, p))
  }
}
