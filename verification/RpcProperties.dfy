/** End-to-end correlation, at-most-once delivery and conservation, for every run. */
module RpcProperties {
  import opened Common
  import opened Uris
  import opened Messages
  import opened RpcCorrelation
  import opened MessageConversions
  import opened RpcProtocol

  // ---------------------------------------------------------------- the client side of one node

  lemma FiledInverse(client: U16, index: int)
    requires 0 <= index < 0x1_0000
    ensures SplitU32ToU16(FiledAs(client, index)) == (client, index)
  {
    JoinSplitInverse(client, index, 0);
  }

  /**
   Session ids are fresh: below the bound, the next one is not pending, and the request is filed under the
   number vsomeip gives it.
   */
  lemma NextIsFresh(node: Node)
    requires ClientOk(node) && |node.issued| + 1 < 0x1_0000
    ensures VsomeipSession(node) == NextSession(node.rpc, node.client) == |node.issued| + 1
    ensures var r := CreateRequestId(node.client, NextSession(node.rpc, node.client));
            r == FiledAs(node.client, |node.issued| + 1) && r !in node.rpc.ue && r !in node.consumed
  {
    FiledInverse(node.client, |node.issued| + 1);
  }

  /** Below the bound, a request with source, sink and id never fails correlation. */
  lemma RequestNeverFails(node: Node, umsg: UMessage)
    requires ClientOk(node) && |node.issued| + 1 < 0x1_0000
    ensures RequestOut(node.rpc, umsg, node.client).1.Ok? <==> Complete(umsg)
    ensures !Complete(umsg) ==> RequestOut(node.rpc, umsg, node.client).0 == node.rpc
  {
    NextIsFresh(node);
  }

  ghost predicate NextIsPending(node: Node) {
    CreateRequestId(node.client, NextSession(node.rpc, node.client)) in node.rpc.ue
  }

  /**
   Why the bound: a request whose session id is still pending is refused. Nothing is sent, so the number
   vsomeip gives to the next message stays as it is, but this counter moves on: from then on they disagree.
   */
  lemma RefusalShiftsNumbering(w: World, n: NodeId, umsg: UMessage)
    requires n in w.nodes && umsg.kind == REQUEST && Complete(umsg) && NextIsPending(w.nodes[n])
    ensures var (node, node') := (w.nodes[n], RequestSent(w, n, umsg).nodes[n]);
            && RequestSent(w, n, umsg).wire == w.wire && node'.issued == node.issued
            && NextSession(node'.rpc, node'.client) == (NextSession(node.rpc, node.client) + 1) % 0x1_0000
  {
    SentIsConverted(w, n, umsg);
    RequestFailsExactly(w.nodes[n].rpc, umsg, w.nodes[n].client);
  }

  /** The session ids in use after k unanswered requests; the last of them is 0. */
  predicate Used(session: U16, k: nat) {
    if session == 0 then k >= 0x1_0000 else session <= k
  }

  /** A client after k requests, none of them answered. */
  ghost predicate Unanswered(node: Node, k: nat) {
    && |node.issued| == k && NextSession(node.rpc, node.client) == (k + 1) % 0x1_0000
    && forall r: U32 :: r in node.rpc.ue <==> SplitU32ToU16(r).0 == node.client && Used(SplitU32ToU16(r).1, k)
  }

  lemma OneMoreUsed(session: U16, next: U16, k: nat)
    requires k < 0x1_0000 && next == (k + 1) % 0x1_0000
    ensures !Used(next, k)
    ensures Used(session, k + 1) <==> Used(session, k) || session == next
  {
  }

  lemma FiledOnce(r: U32, client: U16, session: U16)
    ensures r == CreateRequestId(client, session) <==> SplitU32ToU16(r) == (client, session)
  {
    JoinSplitInverse(client, session, r);
  }

  lemma OneMoreUnanswered(node: Node, umsg: UMessage, k: nat)
    requires Unanswered(node, k) && Complete(umsg) && k < 0x1_0000
    ensures RequestOut(node.rpc, umsg, node.client).1.Ok?
    ensures Unanswered(node.(rpc := RequestOut(node.rpc, umsg, node.client).0, issued := node.issued + [umsg]), k + 1)
  {
    var session := NextSession(node.rpc, node.client);
    var request := CreateRequestId(node.client, session);
    FiledOnce(request, node.client, session);
    OneMoreUsed(session, session, k);
    RequestFailsExactly(node.rpc, umsg, node.client);
    var node' := node.(rpc := RequestOut(node.rpc, umsg, node.client).0, issued := node.issued + [umsg]);
    forall r: U32
      ensures r in node'.rpc.ue <==> SplitU32ToU16(r).0 == node.client && Used(SplitU32ToU16(r).1, k + 1)
    {
      FiledOnce(r, node.client, session);
      OneMoreUsed(SplitU32ToU16(r).1, session, k);
    }
  }

  lemma OneMoreSent(w: World, n: NodeId, umsg: UMessage, k: nat)
    requires n in w.nodes && Unanswered(w.nodes[n], k) && umsg.kind == REQUEST && Complete(umsg) && k < 0x1_0000
    ensures n in RequestSent(w, n, umsg).nodes && Unanswered(RequestSent(w, n, umsg).nodes[n], k + 1)
  {
    SentIsConverted(w, n, umsg);
    OneMoreUnanswered(w.nodes[n], umsg, k);
  }

  lemma AllUsed(node: Node, k: nat)
    requires Unanswered(node, k)
    ensures k == 0x1_0000 ==> NextIsPending(node)
  {
    JoinSplitInverse(node.client, NextSession(node.rpc, node.client), 0);
  }

  lemma RunMore(worlds: seq<World>, actions: seq<Action>, a: Action)
    returns (worlds': seq<World>, actions': seq<Action>)
    requires IsRun(worlds, actions) && Can(worlds[|actions|], a)
    ensures worlds' == worlds + [Do(worlds[|actions|], a)] && actions' == actions + [a] && IsRun(worlds', actions')
  {
    worlds', actions' := worlds + [Do(worlds[|actions|], a)], actions + [a];
    forall i | 0 <= i < |actions'|
      ensures Can(worlds'[i], actions'[i]) && worlds'[i + 1] == Do(worlds'[i], actions'[i])
    {
      if i < |actions| {
        assert Can(worlds[i], actions[i]) && worlds[i + 1] == Do(worlds[i], actions[i]);
      }
    }
  }

  /**
   And this does happen: whatever the transports, one that sends 65536 requests without receiving an answer
   has them all accepted, and its next request is refused.
   */
  lemma {:induction false} RefusalReached(w: World, n: NodeId, umsg: UMessage, k: nat)
    returns (worlds: seq<World>, actions: seq<Action>)
    requires Initial(w) && n in w.nodes && umsg.kind == REQUEST && Complete(umsg) && k <= 0x1_0000
    ensures IsRun(worlds, actions) && worlds[0] == w
    ensures |actions| == k && forall a | a in actions :: a == SendRequest(n, umsg)
    ensures n in worlds[k].nodes && Unanswered(worlds[k].nodes[n], k)
    ensures k == 0x1_0000 ==> NextIsPending(worlds[k].nodes[n])
  {
    if k == 0 {
      worlds, actions := [w], [];
    } else {
      worlds, actions := RefusalReached(w, n, umsg, k - 1);
      OneMoreSent(worlds[k - 1], n, umsg, k - 1);
      worlds, actions := RunMore(worlds, actions, SendRequest(n, umsg));
    }
    AllUsed(worlds[k].nodes[n], k);
  }

  lemma RequestKeepsClient(node: Node, umsg: UMessage)
    requires ClientOk(node) && |node.issued| + 1 < 0xFFFF && Complete(umsg)
    ensures ClientOk(node.(rpc := RequestOut(node.rpc, umsg, node.client).0, issued := node.issued + [umsg]))
  {
    NextIsFresh(node);
    var n := |node.issued|;
    var node' := node.(rpc := RequestOut(node.rpc, umsg, node.client).0, issued := node.issued + [umsg]);
    var r := FiledAs(node.client, n + 1);
    FiledInverse(node.client, n + 1);
    assert node'.rpc.ue == node.rpc.ue[r := PendingOf(umsg)];
    forall i | 1 <= i <= n
      ensures FiledAs(node.client, i) != r
    {
      FiledInverse(node.client, i);
    }
  }

  lemma TakeKeepsClient(node: Node, r: U32)
    requires ClientOk(node) && r in node.rpc.ue && |node.issued| < 0xFFFF
    ensures ClientOk(node.(rpc := RemoveUe(node.rpc, r).0, consumed := node.consumed + {r}))
    ensures var i := SplitU32ToU16(r).1;
            1 <= i <= |node.issued| && r !in node.consumed && node.rpc.ue[r] == PendingOf(node.issued[i - 1])
                && Complete(node.issued[i - 1])
  {
    var node' := node.(rpc := RemoveUe(node.rpc, r).0, consumed := node.consumed + {r});
  }

  // ---------------------------------------------------------------- stability

  /** Nodes keep their identity and only ever add to what they issued. */
  ghost predicate Grew(w: World, w': World) {
    && w'.nodes.Keys == w.nodes.Keys
    && forall n | n in w.nodes :: w'.nodes[n].client == w.nodes[n].client && w.nodes[n].issued <= w'.nodes[n].issued
  }

  lemma OriginStable(w: World, w': World, o: Origin)
    requires Grew(w, w') && ValidOrigin(w, o)
    ensures ValidOrigin(w', o) && FiledUnder(w', o) == FiledUnder(w, o) && AskedAt(w', o) == AskedAt(w, o)
  {
  }

  lemma PacketStable(w: World, w': World, p: Packet)
    requires Grew(w, w') && PacketOk(w, p)
    ensures PacketOk(w', p)
  {
    OriginStable(w, w', p.origin);
  }

  lemma ServiceStable(w: World, w': World, node: Node)
    requires Grew(w, w') && ServiceOk(w, node)
    ensures ServiceOk(w', node)
  {
    forall id | id in node.mintedFor
      ensures TicketOk(w', node.mintedFor[id])
      ensures FiledUnder(w', node.mintedFor[id].origin) == FiledUnder(w, node.mintedFor[id].origin)
    {
      assert TicketOk(w, node.mintedFor[id]);
      OriginStable(w, w', node.mintedFor[id].origin);
    }
  }

  lemma DeliveriesStable(n: NodeId, node: Node, node': Node)
    requires DeliveriesOk(n, node)
    requires node'.self == node.self && node.issued <= node'.issued && node.consumed <= node'.consumed
             && node'.delivered == node.delivered
    ensures DeliveriesOk(n, node')
  {
    forall d | d in node'.delivered
      ensures DeliveryOk(n, node', d)
    {
      assert DeliveryOk(n, node, d);
    }
  }

  /** One node has changed into a sound one, and every new message is sound. */
  ghost predicate SoundChange(w: World, w': World, n: NodeId) {
    && n in w.nodes && Grew(w, w')
    && w'.nodes == w.nodes[n := w'.nodes[n]]
    && ClientOk(w'.nodes[n]) && DeliveriesOk(n, w'.nodes[n]) && ServiceOk(w', w'.nodes[n])
    && forall p | p in w'.wire && p !in w.wire :: PacketOk(w', p)
  }

  /** The node as it was before is sound. */
  ghost predicate NodeOk(w: World, n: NodeId) {
    n in w.nodes && ClientOk(w.nodes[n]) && DeliveriesOk(n, w.nodes[n]) && ServiceOk(w, w.nodes[n])
  }

  lemma NoChange(w: World, n: NodeId)
    requires NodeOk(w, n)
    ensures SoundChange(w, w, n)
  {
    assert w.nodes == w.nodes[n := w.nodes[n]];
  }

  lemma Reassemble(w: World, w': World, n: NodeId)
    requires Inv(w) && SoundChange(w, w', n)
    ensures Inv(w')
  {
    forall m | m in w'.nodes
      ensures ServiceOk(w', w'.nodes[m])
    {
      if m != n {
        ServiceStable(w, w', w.nodes[m]);
      }
    }
    forall p | p in w'.wire
      ensures PacketOk(w', p)
    {
      if p in w.wire {
        PacketStable(w, w', p);
      }
    }
    forall m, k | m in w'.nodes && k in w'.nodes && w'.nodes[m].client == w'.nodes[k].client
      ensures m == k
    {
      assert w.nodes[m].client == w.nodes[k].client;
    }
  }

  // ---------------------------------------------------------------- the actions

  lemma SendRequestSound(w: World, n: NodeId, umsg: UMessage)
    requires NodeOk(w, n) && |w.nodes[n].issued| + 1 < 0x1_0000
    requires Complete(umsg) ==> |w.nodes[n].issued| + 1 < 0xFFFF
    ensures SoundChange(w, RequestConverted(w, n, umsg), n)
  {
    var node := w.nodes[n];
    var w' := RequestConverted(w, n, umsg);
    RequestNeverFails(node, umsg);
    if !Complete(umsg) {
      assert w' == w;
      NoChange(w, n);
    } else {
      var node' := node.(rpc := RequestOut(node.rpc, umsg, node.client).0, issued := node.issued + [umsg]);
      assert w'.nodes[n] == node';
      RequestKeepsClient(node, umsg);
      NextIsFresh(node);
      DeliveriesStable(n, node, node');
      assert Grew(w, w');
      ServiceStable(w, w', node);
      assert ServiceOk(w', node');
      FiledInverse(node'.client, |node'.issued|);
    }
  }

  /** A change that leaves the client side of the node alone. */
  lemma ServiceSideChange(w: World, w': World, n: NodeId, node': Node)
    requires NodeOk(w, n) && w'.nodes == w.nodes[n := node']
    requires var node := w.nodes[n];
             && node' == node.(rpc := node'.rpc, mintedFor := node'.mintedFor, answered := node'.answered)
             && node'.rpc == node.rpc.(me := node'.rpc.me)
    requires ServiceOk(w, node')
    requires forall p | p in w'.wire && p !in w.wire :: PacketOk(w, p)
    ensures SoundChange(w, w', n)
  {
    assert Grew(w, w');
    assert w'.nodes[n] == node';
    ServiceStable(w, w', node');
    DeliveriesStable(n, w.nodes[n], node');
    forall p | p in w'.wire && p !in w.wire
      ensures PacketOk(w', p)
    {
      PacketStable(w, w', p);
    }
  }

  lemma NoAnswer(w: World, n: NodeId, umsg: UMessage)
    requires n in w.nodes && ResponseOut(w.nodes[n].rpc, umsg).1.Err?
    ensures ResponseConverted(w, n, umsg) == w
  {
    assert w.nodes[n := w.nodes[n]] == w.nodes;
  }

  ghost function AnswerPacket(node: Node, umsg: UMessage): Packet
    requires ResponseOut(node.rpc, umsg).1.Ok? && umsg.reqid.value in node.mintedFor
  {
    var ticket := node.mintedFor[umsg.reqid.value];
    Packet(ResponseOut(node.rpc, umsg).1.value, ticket.origin, umsg.source == Some(ticket.askedAt))
  }

  lemma ResponseGiven(w: World, n: NodeId, umsg: UMessage, node': Node)
    requires n in w.nodes && ResponseOut(w.nodes[n].rpc, umsg).1.Ok? && umsg.reqid.value in w.nodes[n].mintedFor
    requires var (node, id) := (w.nodes[n], umsg.reqid.value);
             node' == node.(rpc := RemoveMe(node.rpc, id).0, answered := node.answered + [id])
    ensures ResponseConverted(w, n, umsg) == World(w.nodes[n := node'], w.wire + {AnswerPacket(w.nodes[n], umsg)})
  {
  }

  /** A response goes back under the request id its request came with. */
  lemma AnswerIsSound(w: World, node: Node, umsg: UMessage)
    requires ServiceOk(w, node) && Bounded(w) && ResponseOut(node.rpc, umsg).1.Ok?
    ensures umsg.reqid.value in node.mintedFor
    ensures PacketOk(w, AnswerPacket(node, umsg))
  {
    var id := umsg.reqid.value;
    var origin := node.mintedFor[id].origin;
    assert TicketOk(w, node.mintedFor[id]);
    FiledInverse(w.nodes[origin.node].client, origin.index);
    JoinSplitInverse(0, 0, node.rpc.me[id]);
  }

  lemma AnswerKeepsService(w: World, node: Node, id: Uuid)
    requires ServiceOk(w, node) && id in node.rpc.me
    ensures ServiceOk(w, node.(rpc := RemoveMe(node.rpc, id).0, answered := node.answered + [id]))
  {
    var node' := node.(rpc := RemoveMe(node.rpc, id).0, answered := node.answered + [id]);
    assert node'.mintedFor.Keys == node'.rpc.me.Keys + (set i | i in node'.answered);
  }

  lemma SendResponseSound(w: World, n: NodeId, umsg: UMessage)
    requires NodeOk(w, n) && Bounded(w)
    ensures SoundChange(w, ResponseConverted(w, n, umsg), n)
  {
    var node := w.nodes[n];
    if ResponseOut(node.rpc, umsg).1.Ok? {
      var id := umsg.reqid.value;
      var node' := node.(rpc := RemoveMe(node.rpc, id).0, answered := node.answered + [id]);
      AnswerKeepsService(w, node, id);
      AnswerIsSound(w, node, umsg);
      ResponseGiven(w, n, umsg, node');
      ServiceSideChange(w, World(w.nodes[n := node'], w.wire + {AnswerPacket(node, umsg)}), n, node');
    } else {
      NoAnswer(w, n, umsg);
      NoChange(w, n);
    }
  }

  ghost function Remembering(node: Node, p: Packet, id: Uuid): Node {
    node.(rpc := node.rpc.(me := node.rpc.me[id := p.msg.RequestId()]),
          mintedFor := node.mintedFor[id := Ticket(p.origin, UriOf(node.self.authority, p.msg), p.msg.RequestId())])
  }

  /** The URI a receiver makes has the addressing fields of the message. */
  lemma ReceivedAddress(authority: string, m: SomeIpMessage)
    ensures Addresses(m, UriOf(authority, m))
  {
    var uri := UriOf(authority, m);
    assert MethodOf(uri) == m.method_ % 0x1_0000 == m.method_;
    assert ServiceOf(uri) == m.service % 0x1_0000 == m.service;
    assert VersionOf(uri) == m.version % 0x100 == m.version;
  }

  lemma TicketGiven(w: World, node: Node, p: Packet)
    requires PacketOk(w, p) && p.msg.kind == MT_REQUEST
    ensures TicketOk(w, Ticket(p.origin, UriOf(node.self.authority, p.msg), p.msg.RequestId()))
  {
    ReceivedAddress(node.self.authority, p.msg);
  }

  lemma MintKeepsService(w: World, node: Node, p: Packet, id: Uuid)
    requires ServiceOk(w, node) && PacketOk(w, p) && p.msg.kind == MT_REQUEST && id !in node.mintedFor
    ensures id !in node.rpc.me && ServiceOk(w, Remembering(node, p, id))
  {
    assert id !in node.mintedFor.Keys;
    var node' := Remembering(node, p, id);
    assert node'.mintedFor.Keys == node'.rpc.me.Keys + (set i | i in node'.answered);
    forall i | i in node'.rpc.me
      ensures i in node'.mintedFor && node'.rpc.me[i] == FiledUnder(w, node'.mintedFor[i].origin)
    {
      if i != id {
        assert i in node.rpc.me;
      }
    }
    TicketGiven(w, node, p);
  }

  /** A receive that changes no correlation changes nothing. */
  lemma ReceiveNothing(w: World, n: NodeId, p: Packet, hasPayload: bool, b: Builder)
    requires n in w.nodes
    requires var (rpc', r) := MessageIn(w.nodes[n].rpc, p.msg, hasPayload, w.nodes[n].self, b);
             rpc' == w.nodes[n].rpc && (r.Err? || p.msg.kind == MT_NOTIFICATION)
    ensures Received(w, n, p, hasPayload, b) == w
  {
    var node := w.nodes[n];
    assert node.rpc.ue.Keys - node.rpc.ue.Keys == {};
    assert node.consumed + {} == node.consumed;
    assert node.(rpc := node.rpc, consumed := node.consumed) == node;
    assert w.nodes[n := node] == w.nodes;
  }

  lemma RequestTaken(w: World, n: NodeId, p: Packet, b: Builder)
    requires n in w.nodes && p.msg.kind == MT_REQUEST && b.uriOk && b.buildOk && b.freshId !in w.nodes[n].rpc.me
    ensures Received(w, n, p, true, b) == w.(nodes := w.nodes[n := Remembering(w.nodes[n], p, b.freshId)])
  {
    var node := w.nodes[n];
    assert node.consumed + (node.rpc.ue.Keys - node.rpc.ue.Keys) == node.consumed;
  }

  lemma ReceiveRequestSound(w: World, n: NodeId, p: Packet, hasPayload: bool, b: Builder)
    requires NodeOk(w, n) && PacketOk(w, p) && p.msg.kind == MT_REQUEST && b.freshId !in w.nodes[n].mintedFor
    ensures SoundChange(w, Received(w, n, p, hasPayload, b), n)
  {
    var node := w.nodes[n];
    MintKeepsService(w, node, p, b.freshId);
    if hasPayload && b.uriOk && b.buildOk {
      var node' := Remembering(node, p, b.freshId);
      RequestTaken(w, n, p, b);
      ServiceSideChange(w, Received(w, n, p, hasPayload, b), n, node');
    } else {
      ReceiveNothing(w, n, p, hasPayload, b);
      NoChange(w, n);
    }
  }

  /** The heart of correlation: a response received by a client belongs to the client's own request of that number. */
  lemma ResponseBelongs(w: World, n: NodeId, p: Packet)
    requires Inv(w) && Bounded(w) && n in w.nodes && p in w.wire && p.msg.client == w.nodes[n].client
    ensures p.origin == Origin(n, SplitU32ToU16(p.msg.RequestId()).1)
    ensures 1 <= p.origin.index <= |w.nodes[n].issued|
    ensures p.faithful && w.nodes[n].issued[p.origin.index - 1].sink.Some?
            ==> Addresses(p.msg, w.nodes[n].issued[p.origin.index - 1].sink.value)
  {
    assert PacketOk(w, p);
    assert w.nodes[p.origin.node].client == w.nodes[n].client;
    FiledInverse(w.nodes[n].client, p.origin.index);
  }

  lemma DeliverKeepsDeliveries(n: NodeId, node: Node, node': Node, d: Delivery)
    requires DeliveriesOk(n, node) && d.request !in node.consumed
    requires node'.self == node.self && node'.issued == node.issued && node'.consumed == node.consumed + {d.request}
    requires node'.delivered == node.delivered + [d] && DeliveryOk(n, node', d)
    ensures DeliveriesOk(n, node')
  {
    forall e | e in node'.delivered
      ensures DeliveryOk(n, node', e)
    {
      if e in node.delivered {
        assert DeliveryOk(n, node, e);
      }
    }
    forall j | 0 <= j < |node.delivered|
      ensures node.delivered[j].request != d.request
    {
      assert DeliveryOk(n, node, node.delivered[j]);
    }
  }

  lemma ResponseTaken(w: World, n: NodeId, p: Packet, b: Builder)
    requires n in w.nodes && ClientOk(w.nodes[n]) && DeliveriesOk(n, w.nodes[n]) && |w.nodes[n].issued| < 0xFFFF
    requires p.msg.kind == MT_RESPONSE || p.msg.kind == MT_ERROR
    requires p.origin == Origin(n, SplitU32ToU16(p.msg.RequestId()).1)
    requires 1 <= p.origin.index <= |w.nodes[n].issued|
    requires p.faithful && w.nodes[n].issued[p.origin.index - 1].sink.Some?
             ==> Addresses(p.msg, w.nodes[n].issued[p.origin.index - 1].sink.value)
    requires b.uriOk && p.msg.RequestId() in w.nodes[n].rpc.ue
    ensures var (node, node') := (w.nodes[n], Received(w, n, p, true, b).nodes[n]);
            && ClientOk(node') && DeliveriesOk(n, node')
            && node'.rpc.me == node.rpc.me && node'.mintedFor == node.mintedFor && node'.answered == node.answered
            && node'.client == node.client && node'.issued == node.issued
  {
    var (node, node') := (w.nodes[n], Received(w, n, p, true, b).nodes[n]);
    var r := p.msg.RequestId();
    TakeKeepsClient(node, r);
    var taken := node.(rpc := RemoveUe(node.rpc, r).0, consumed := node.consumed + {r});
    assert node.rpc.ue.Keys - taken.rpc.ue.Keys == {r};
    if b.buildOk {
      var d := node'.delivered[|node.delivered|];
      assert node' == taken.(delivered := node.delivered + [d]);
      DeliverKeepsDeliveries(n, node, node', d);
    } else {
      assert node' == taken;
      DeliveriesStable(n, node, taken);
    }
  }

  lemma ReceiveResponseSound(w: World, n: NodeId, p: Packet, hasPayload: bool, b: Builder)
    requires NodeOk(w, n) && |w.nodes[n].issued| < 0xFFFF
    requires p.msg.kind == MT_RESPONSE || p.msg.kind == MT_ERROR
    requires p.origin == Origin(n, SplitU32ToU16(p.msg.RequestId()).1)
    requires 1 <= p.origin.index <= |w.nodes[n].issued|
    requires p.faithful && w.nodes[n].issued[p.origin.index - 1].sink.Some?
             ==> Addresses(p.msg, w.nodes[n].issued[p.origin.index - 1].sink.value)
    ensures SoundChange(w, Received(w, n, p, hasPayload, b), n)
  {
    var node := w.nodes[n];
    var w' := Received(w, n, p, hasPayload, b);
    if hasPayload && b.uriOk && p.msg.RequestId() in node.rpc.ue {
      ResponseTaken(w, n, p, b);
      assert Grew(w, w');
      ServiceStable(w, w', node);
      assert ServiceOk(w', w'.nodes[n]);
    } else {
      ReceiveNothing(w, n, p, hasPayload, b);
      NoChange(w, n);
    }
  }

  lemma StepSound(w: World, a: Action)
    requires Inv(w) && Can(w, a) && Bounded(w) && Bounded(Do(w, a))
    ensures SoundChange(w, Do(w, a), a.n)
  {
    assert NodeOk(w, a.n);
    match a
    case SendRequest(n, umsg) =>
      SentIsConverted(w, n, umsg);
      RequestNeverFails(w.nodes[n], umsg);
      assert Do(w, a).nodes[n].issued == if Complete(umsg) then w.nodes[n].issued + [umsg] else w.nodes[n].issued;
      SendRequestSound(w, n, umsg);
    case SendResponse(n, umsg) =>
      SentIsConverted(w, n, umsg);
      SendResponseSound(w, n, umsg);
    case Receive(n, p, hasPayload, b) =>
      assert PacketOk(w, p);
      if p.msg.kind == MT_REQUEST {
        ReceiveRequestSound(w, n, p, hasPayload, b);
      } else {
        ResponseBelongs(w, n, p);
        ReceiveResponseSound(w, n, p, hasPayload, b);
      }
  }

  lemma StepKeepsInv(w: World, a: Action)
    requires Inv(w) && Can(w, a) && Bounded(w) && Bounded(Do(w, a))
    ensures Inv(Do(w, a))
  {
    StepSound(w, a);
    Reassemble(w, Do(w, a), a.n);
  }

  // ---------------------------------------------------------------- whole runs

  lemma InitialInv(w: World)
    requires Initial(w)
    ensures Inv(w)
  {
  }

  lemma IssuedGrows(w: World, a: Action)
    requires Can(w, a) && Bounded(Do(w, a))
    ensures Bounded(w)
  {
    forall n | n in w.nodes
      ensures |w.nodes[n].issued| < 0xFFFF
    {
      assert n in Do(w, a).nodes;
    }
  }

  /** Every run with fewer than 65535 requests per client keeps the invariant. */
  lemma {:induction false} RunsKeepInv(worlds: seq<World>, actions: seq<Action>)
    requires IsRun(worlds, actions) && Bounded(worlds[|actions|])
    ensures Inv(worlds[|actions|])
    decreases |actions|
  {
    if actions == [] {
      InitialInv(worlds[0]);
    } else {
      var k := |actions| - 1;
      assert Can(worlds[k], actions[k]) && worlds[k + 1] == Do(worlds[k], actions[k]);
      IssuedGrows(worlds[k], actions[k]);
      RunsKeepInv(worlds[..k + 1], actions[..k]);
      StepKeepsInv(worlds[k], actions[k]);
    }
  }

  lemma SameOriginSameRequest(n: NodeId, node: Node, d: Delivery, e: Delivery)
    requires ClientOk(node) && DeliveryOk(n, node, d) && DeliveryOk(n, node, e) && d.origin == e.origin
    ensures d.request == e.request
  {
  }

  /**
   End-to-end correlation: in every run with loss, reordering and duplication, and fewer than 65535
   requests per client, each response or error delivered to a client carries the id of one request the
   client issued and goes to that request's source, and it was made for that very request; if the service
   answered from the URI at which it was asked, the response comes from the request's sink, truncated to the
   widths SOME/IP transmits; and no two deliveries answer the same request.
   */
  lemma EndToEnd(worlds: seq<World>, actions: seq<Action>, n: NodeId, k: nat)
    requires IsRun(worlds, actions) && Bounded(worlds[|actions|])
    requires n in worlds[|actions|].nodes && k < |worlds[|actions|].nodes[n].delivered|
    ensures var node := worlds[|actions|].nodes[n];
            var d := node.delivered[k];
            && d.origin.node == n && 1 <= d.origin.index <= |node.issued|
            && var request := node.issued[d.origin.index - 1];
               && request.id.Some? && d.umsg.reqid == request.id
               && request.source.Some? && d.umsg.sink == request.source
               && d.umsg.kind == RESPONSE
               && request.sink.Some?
               && (d.faithful ==>
                   var asked := request.sink.value;
                   d.umsg.source == Some(UUri(node.self.remoteAuthority, asked.ueId % 0x1_0000, asked.version % 0x100,
                       asked.resource % 0x1_0000)))
    ensures var node := worlds[|actions|].nodes[n];
            forall j | 0 <= j < |node.delivered| && j != k :: node.delivered[j].origin != node.delivered[k].origin
  {
    RunsKeepInv(worlds, actions);
    var w := worlds[|actions|];
    var node := w.nodes[n];
    assert DeliveriesOk(n, node) && ClientOk(node);
    assert DeliveryOk(n, node, node.delivered[k]);
    forall j | 0 <= j < |node.delivered| && j != k
      ensures node.delivered[j].origin != node.delivered[k].origin
    {
      if node.delivered[j].origin == node.delivered[k].origin {
        assert DeliveryOk(n, node, node.delivered[j]);
        SameOriginSameRequest(n, node, node.delivered[j], node.delivered[k]);
        assert false;
      }
    }
  }

  lemma FiledCovers(client: U16, count: nat)
    requires count < 0x1_0000
    ensures forall r: U32 :: SplitU32ToU16(r) == (client, count) ==> r == FiledAs(client, count)
  {
    forall r: U32 | SplitU32ToU16(r) == (client, count)
      ensures r == FiledAs(client, count)
    {
      JoinSplitInverse(0, 0, r);
    }
  }

  /** The ids of the first requests of a client. */
  ghost function FiledIds(client: U16, count: nat): (ids: set<U32>)
    requires count < 0x1_0000
    ensures |ids| == count
    ensures forall r: U32 :: r in ids <==> SplitU32ToU16(r).0 == client && 1 <= SplitU32ToU16(r).1 <= count
  {
    if count == 0 then {}
    else
      FiledInverse(client, count);
      FiledCovers(client, count);
      FiledIds(client, count - 1) + {FiledAs(client, count)}
  }

  lemma PendingAndConsumed(node: Node)
    requires ClientOk(node) && |node.issued| < 0xFFFF
    ensures node.rpc.ue.Keys + node.consumed == FiledIds(node.client, |node.issued|)
    ensures node.rpc.ue.Keys !! node.consumed
  {
    forall r: U32
      ensures r in node.rpc.ue || r in node.consumed <==> r in FiledIds(node.client, |node.issued|)
      ensures !(r in node.rpc.ue && r in node.consumed)
    {
      var i := SplitU32ToU16(r).1;
      FiledInverse(node.client, i);
      FiledCovers(node.client, i);
    }
  }

  lemma {:induction false} AtMostOnePerRequest(delivered: seq<Delivery>, consumed: set<U32>)
    requires forall d | d in delivered :: d.request in consumed
    requires forall j, k | 0 <= j < k < |delivered| :: delivered[j].request != delivered[k].request
    ensures |delivered| <= |consumed|
  {
    if delivered != [] {
      var n := |delivered| - 1;
      AtMostOnePerRequest(delivered[..n], consumed - {delivered[n].request});
    }
  }

  /**
   Conservation on the client: the ids of the requests it issued are, disjointly, those still pending and
   those consumed, and at most one delivery was made for each consumed one.
   */
  lemma RequestsConserved(worlds: seq<World>, actions: seq<Action>, n: NodeId)
    requires IsRun(worlds, actions) && Bounded(worlds[|actions|]) && n in worlds[|actions|].nodes
    ensures var node := worlds[|actions|].nodes[n];
            && node.rpc.ue.Keys + node.consumed == FiledIds(node.client, |node.issued|)
            && node.rpc.ue.Keys !! node.consumed
            && |node.rpc.ue| + |node.consumed| == |node.issued|
            && |node.delivered| <= |node.consumed|
            && forall d | d in node.delivered :: d.request in node.consumed
  {
    RunsKeepInv(worlds, actions);
    var node := worlds[|actions|].nodes[n];
    assert ClientOk(node) && DeliveriesOk(n, node);
    PendingAndConsumed(node);
    assert |node.rpc.ue.Keys + node.consumed| == |node.rpc.ue.Keys| + |node.consumed|;
    forall d | d in node.delivered
      ensures d.request in node.consumed
    {
      assert DeliveryOk(n, node, d);
    }
    AtMostOnePerRequest(node.delivered, node.consumed);
  }

  lemma {:induction false} DistinctCount(ids: seq<Uuid>)
    requires forall j, k | 0 <= j < k < |ids| :: ids[j] != ids[k]
    ensures |set id | id in ids| == |ids|
  {
    if ids != [] {
      var n := |ids| - 1;
      DistinctCount(ids[..n]);
      assert (set id | id in ids) == (set id | id in ids[..n]) + {ids[n]};
    }
  }

  // ---------------------------------------------------------------- answering

  /** What a listener hears of a request is remembered under the id it hears. */
  lemma HeardIsRemembered(w: World, n: NodeId, p: Packet, b: Builder)
    requires Inv(w) && Can(w, Receive(n, p, true, b)) && p.msg.kind == MT_REQUEST && b.uriOk && b.buildOk
    ensures var (node, heard) := (w.nodes[n], MessageIn(w.nodes[n].rpc, p.msg, true, w.nodes[n].self, b).1);
            && heard.Ok? && HeardRequest(heard.value, p.msg, node.self)
            && heard.value.id.value !in node.mintedFor
            && Received(w, n, p, true, b).nodes[n].mintedFor
               == node.mintedFor[heard.value.id.value
                                 := Ticket(p.origin, heard.value.sink.value, p.msg.RequestId())]
  {
    var node := w.nodes[n];
    assert b.freshId !in node.mintedFor.Keys;
    assert ServiceOk(w, node);
  }

  lemma SendKeepsMinted(w: World, n: NodeId, umsg: UMessage, rpc': Correlation, r: Result<SomeIpMessage, UCode>,
                        m: NodeId)
    requires n in w.nodes && m in w.nodes
    ensures AfterRequest(w, n, umsg, rpc', r).nodes.Keys == w.nodes.Keys
    ensures AfterResponse(w, n, umsg, rpc', r).nodes.Keys == w.nodes.Keys
    ensures AfterRequest(w, n, umsg, rpc', r).nodes[m].mintedFor == w.nodes[m].mintedFor
    ensures AfterResponse(w, n, umsg, rpc', r).nodes[m].mintedFor == w.nodes[m].mintedFor
  {
  }

  lemma ReceiptKeepsMinted(w: World, n: NodeId, p: Packet, hasPayload: bool, b: Builder, m: NodeId, id: Uuid)
    requires n in w.nodes && m in w.nodes && id in w.nodes[m].mintedFor
    requires p.msg.kind == MT_REQUEST ==> b.freshId !in w.nodes[n].mintedFor
    ensures m in Received(w, n, p, hasPayload, b).nodes
    ensures id in Received(w, n, p, hasPayload, b).nodes[m].mintedFor
    ensures Received(w, n, p, hasPayload, b).nodes[m].mintedFor[id] == w.nodes[m].mintedFor[id]
  {
    var r := MessageIn(w.nodes[n].rpc, p.msg, hasPayload, w.nodes[n].self, b).1;
    assert p.msg.kind == MT_REQUEST && r.Ok? ==> r.value.id == Some(b.freshId);
  }

  lemma StepKeepsMinted(w: World, a: Action, n: NodeId, id: Uuid)
    requires Can(w, a) && n in w.nodes && id in w.nodes[n].mintedFor
    ensures n in Do(w, a).nodes && id in Do(w, a).nodes[n].mintedFor
    ensures Do(w, a).nodes[n].mintedFor[id] == w.nodes[n].mintedFor[id]
  {
    match a
    case SendRequest(s, umsg) =>
      var (rpc', r) := Transmitted(w.nodes[s].rpc, umsg, w.nodes[s].client);
      SendKeepsMinted(w, s, umsg, rpc', r, n);
    case SendResponse(s, umsg) =>
      var (rpc', r) := Transmitted(w.nodes[s].rpc, umsg, w.nodes[s].client);
      SendKeepsMinted(w, s, umsg, rpc', r, n);
    case Receive(s, p, hasPayload, b) => ReceiptKeepsMinted(w, s, p, hasPayload, b, n, id);
  }

  /** What a service remembers of a request never changes. */
  lemma {:induction false} MintedStays(worlds: seq<World>, actions: seq<Action>, j: nat, k: nat, n: NodeId, id: Uuid)
    requires IsRun(worlds, actions) && j <= k <= |actions|
    requires n in worlds[j].nodes && id in worlds[j].nodes[n].mintedFor
    ensures n in worlds[k].nodes && id in worlds[k].nodes[n].mintedFor
    ensures worlds[k].nodes[n].mintedFor[id] == worlds[j].nodes[n].mintedFor[id]
    decreases k - j
  {
    if j < k {
      MintedStays(worlds, actions, j, k - 1, n, id);
      assert Can(worlds[k - 1], actions[k - 1]) && worlds[k] == Do(worlds[k - 1], actions[k - 1]);
      StepKeepsMinted(worlds[k - 1], actions[k - 1], n, id);
    }
  }

  lemma {:induction false} BoundedAt(worlds: seq<World>, actions: seq<Action>, k: nat)
    requires IsRun(worlds, actions) && Bounded(worlds[|actions|]) && k <= |actions|
    ensures Bounded(worlds[k])
    decreases |actions| - k
  {
    if k < |actions| {
      BoundedAt(worlds, actions, k + 1);
      assert Can(worlds[k], actions[k]) && worlds[k + 1] == Do(worlds[k], actions[k]);
      IssuedGrows(worlds[k], actions[k]);
    }
  }

  lemma InvAt(worlds: seq<World>, actions: seq<Action>, k: nat)
    requires IsRun(worlds, actions) && Bounded(worlds[|actions|]) && k <= |actions|
    ensures Inv(worlds[k])
  {
    BoundedAt(worlds, actions, k);
    RunsKeepInv(worlds[..k + 1], actions[..k]);
  }

  /** An answer to a remembered request is accepted, once, and goes out under the request id that came in. */
  lemma UnansweredIsAnswerable(w: World, n: NodeId, id: Uuid, answer: UMessage)
    requires Inv(w) && Bounded(w) && n in w.nodes && id in w.nodes[n].mintedFor
    requires answer.kind == RESPONSE && answer.source.Some? && answer.reqid == Some(id)
    ensures var node := w.nodes[n];
            var (ticket, r) := (node.mintedFor[id], Transmitted(node.rpc, answer, node.client).1);
            && (r.Ok? <==> id !in node.answered)
            && (r.Ok? ==>
                && r.value.RequestId() == ticket.request && Addresses(r.value, answer.source.value)
                && ticket.origin.node in w.nodes && r.value.client == w.nodes[ticket.origin.node].client
                && r.value.session == ticket.origin.index)
  {
    var node := w.nodes[n];
    TransmittedIs(node.rpc, answer, node.client);
    assert ServiceOk(w, node);
    assert TicketOk(w, node.mintedFor[id]);
    assert id in node.mintedFor.Keys;
    if id in node.rpc.me {
      FiledInverse(w.nodes[node.mintedFor[id].origin.node].client, node.mintedFor[id].origin.index);
      JoinSplitInverse(0, 0, node.rpc.me[id]);
    }
  }

  lemma SameRequestId(m1: SomeIpMessage, m2: SomeIpMessage)
    ensures m1.RequestId() == m2.RequestId() <==> m1.client == m2.client && m1.session == m2.session
  {
    JoinInjective(m1.client, m1.session, m2.client, m2.session);
  }

  /**
   A request can be answered for as long as it has not been: take any step of a run at which a service
   receives a request and its listener hears it under some id. From then on, an answer to that id is accepted
   exactly if none has been given, and goes out to the client and under the request id of the message that
   brought the request, from the URI the service gives.
   */
  lemma RequestsAreAnswerable(worlds: seq<World>, actions: seq<Action>, i: nat, n: NodeId, p: Packet, b: Builder,
                              answer: UMessage)
    requires IsRun(worlds, actions) && Bounded(worlds[|actions|])
    requires i < |actions| && actions[i] == Receive(n, p, true, b)
    requires p.msg.kind == MT_REQUEST && b.uriOk && b.buildOk
    requires n in worlds[i].nodes && answer.kind == RESPONSE && answer.source.Some?
    requires var heard := MessageIn(worlds[i].nodes[n].rpc, p.msg, true, worlds[i].nodes[n].self, b).1;
             heard.Ok? ==> answer.reqid == heard.value.id
    ensures n in worlds[|actions|].nodes && answer.reqid.Some?
    ensures var node := worlds[|actions|].nodes[n];
            var r := Transmitted(node.rpc, answer, node.client).1;
            && (r.Ok? <==> answer.reqid.value !in node.answered)
            && (r.Ok? ==> && r.value.RequestId() == p.msg.RequestId() && r.value.client == p.msg.client
                          && Addresses(r.value, answer.source.value))
  {
    assert Can(worlds[i], actions[i]) && worlds[i + 1] == Do(worlds[i], actions[i]);
    InvAt(worlds, actions, i);
    HeardIsRemembered(worlds[i], n, p, b);
    var id := answer.reqid.value;
    MintedStays(worlds, actions, i + 1, |actions|, n, id);
    InvAt(worlds, actions, |actions|);
    UnansweredIsAnswerable(worlds[|actions|], n, id, answer);
    var r := Transmitted(worlds[|actions|].nodes[n].rpc, answer, worlds[|actions|].nodes[n].client).1;
    if r.Ok? {
      SameRequestId(r.value, p.msg);
    }
  }

  /**
   Conservation on the service: every request received under a fresh id is either pending or was answered
   exactly once; no request has two answers.
   */
  lemma AnswersConserved(worlds: seq<World>, actions: seq<Action>, n: NodeId)
    requires IsRun(worlds, actions) && Bounded(worlds[|actions|]) && n in worlds[|actions|].nodes
    ensures var node := worlds[|actions|].nodes[n];
            && |node.mintedFor| == |node.rpc.me| + |node.answered|
            && (forall id :: id in node.mintedFor <==> id in node.rpc.me || id in node.answered)
            && (forall id :: !(id in node.rpc.me && id in node.answered))
  {
    RunsKeepInv(worlds, actions);
    var w := worlds[|actions|];
    var node := w.nodes[n];
    assert ServiceOk(w, node);
    var done := set id | id in node.answered;
    DistinctCount(node.answered);
    assert |node.rpc.me.Keys + done| == |node.rpc.me.Keys| + |done|;
    assert |node.mintedFor.Keys| == |node.mintedFor| && |node.rpc.me.Keys| == |node.rpc.me|;
  }

  /** A response is delivered exactly if its request is still pending; a duplicate changes nothing. */
  lemma DeliveredExactlyWhilePending(worlds: seq<World>, actions: seq<Action>, n: NodeId, p: Packet, b: Builder)
    requires IsRun(worlds, actions) && Bounded(worlds[|actions|])
    requires Can(worlds[|actions|], Receive(n, p, true, b))
    requires p.msg.kind == MT_RESPONSE || p.msg.kind == MT_ERROR
    requires b.uriOk && b.buildOk
    ensures var node := worlds[|actions|].nodes[n];
            var node' := Received(worlds[|actions|], n, p, true, b).nodes[n];
            && (|node'.delivered| == |node.delivered| + 1 <==> p.msg.RequestId() !in node.consumed)
            && (p.msg.RequestId() in node.consumed ==> node' == node)
  {
    RunsKeepInv(worlds, actions);
    var w := worlds[|actions|];
    var node := w.nodes[n];
    assert ClientOk(node);
    ResponseBelongs(w, n, p);
    assert PacketOk(w, p);
    var r := p.msg.RequestId();
    assert r == FiledAs(node.client, p.origin.index);
    if r in node.consumed {
      ReceiveNothing(w, n, p, true, b);
    }
  }
}
