/** What is on the wire is what the engines gave to vsomeip: the protocol and the command loop, run side by side. */
module RpcEngine {
  import opened Common
  import opened Uris
  import opened Messages
  import opened MessageType
  import opened MessageConversions
  import opened RpcProtocol
  import TransportEngine

  /** A message as vsomeip transmits it: responses as they are, requests under the client and a number it gives. */
  predicate OnTheWire(given: SomeIpMessage, transmitted: SomeIpMessage, client: U16) {
    if given.kind == MT_REQUEST then transmitted == given.(client := client, session := transmitted.session)
    else transmitted == given
  }

  /** One message through the engine: it is transmitted, and nothing else is, exactly if the engine acknowledges it. */
  lemma SendTransmits(w: World, a: Action, st: TransportEngine.EngineState, kind: RegistrationType,
                      env: TransportEngine.Env)
    requires Can(w, a) && !a.Receive? && env.appFound && env.client == w.nodes[a.n].client
    requires st.rpc == w.nodes[a.n].rpc
    ensures var (st', r) := TransportEngine.Handle(st, TransportEngine.Send(a.umsg, kind), env);
            && Do(w, a).nodes.Keys == w.nodes.Keys
            && st'.rpc == Do(w, a).nodes[a.n].rpc && Do(w, a).nodes[a.n].client == w.nodes[a.n].client
            && (r.Err? ==> st'.calls == st.calls && Do(w, a).wire == w.wire)
            && (r.Ok? ==>
                && |st'.calls| == |st.calls| + 1 && st.calls <= st'.calls && st'.calls[|st.calls|].SendMessage?
                && exists p :: Do(w, a).wire == w.wire + {p}
                               && OnTheWire(st'.calls[|st.calls|].msg, p.msg, w.nodes[a.n].client))
  {
    SentIsConverted(w, a.n, a.umsg);
    var node := w.nodes[a.n];
    if a.SendRequest? {
      var r := RequestOut(node.rpc, a.umsg, node.client).1;
      if r.Ok? {
        var msg := r.value.(client := node.client, session := VsomeipSession(node));
        var p := Packet(msg, Origin(a.n, |node.issued| + 1), true);
        assert Do(w, a).wire == w.wire + {p} && OnTheWire(r.value, p.msg, node.client);
      }
    } else {
      var r := ResponseOut(node.rpc, a.umsg).1;
      if r.Ok? {
        var id := a.umsg.reqid.value;
        var ticket := if id in node.mintedFor then node.mintedFor[id] else Ticket(Origin(a.n, 0), ANY_UURI, 0);
        var p := Packet(r.value, ticket.origin, a.umsg.source == Some(ticket.askedAt));
        assert Do(w, a).wire == w.wire + {p} && OnTheWire(r.value, p.msg, node.client);
      }
    }
  }

  // ---------------------------------------------------------------- whole runs

  /** The engine of a node after k steps of a run: it handles what the node sends; receipts change what is pending. */
  ghost function EngineAt(worlds: seq<World>, actions: seq<Action>, n: NodeId, k: nat): TransportEngine.EngineState
    requires |worlds| == |actions| + 1 && k <= |actions|
  {
    if k == 0 then TransportEngine.INITIAL_ENGINE
    else
      var (st, a) := (EngineAt(worlds, actions, n, k - 1), actions[k - 1]);
      if a.n != n || n !in worlds[k - 1].nodes || n !in worlds[k].nodes then st
      else if a.Receive? then st.(rpc := worlds[k].nodes[n].rpc)
      else
        var env := TransportEngine.Env(true, worlds[k - 1].nodes[n].client, Ok(Unit));
        TransportEngine.Handle(st, TransportEngine.Send(a.umsg, RegistrationType.Request), env).0
  }

  /** Some engine was made to give the message to vsomeip. */
  ghost predicate Given(worlds: seq<World>, actions: seq<Action>, k: nat, msg: SomeIpMessage, n: NodeId, i: nat)
    requires |worlds| == |actions| + 1 && k <= |actions|
  {
    var calls := EngineAt(worlds, actions, n, k).calls;
    && n in worlds[k].nodes && i < |calls| && calls[i].SendMessage?
    && OnTheWire(calls[i].msg, msg, worlds[k].nodes[n].client)
  }

  /** The i-th call of the engine gave a message to vsomeip that is on the wire. */
  ghost predicate Carried(worlds: seq<World>, actions: seq<Action>, k: nat, n: NodeId, i: nat)
    requires |worlds| == |actions| + 1 && k <= |actions|
  {
    i < |EngineAt(worlds, actions, n, k).calls| ==>
      exists p :: p in worlds[k].wire && Given(worlds, actions, k, p.msg, n, i)
  }

  /** After k steps, engines and world have the same correlation state, and the world carries what engines gave. */
  ghost predicate InStep(worlds: seq<World>, actions: seq<Action>, k: nat)
    requires |worlds| == |actions| + 1 && k <= |actions|
  {
    && (forall n | n in worlds[k].nodes :: EngineAt(worlds, actions, n, k).rpc == worlds[k].nodes[n].rpc)
    && (forall p | p in worlds[k].wire :: exists n, i :: Given(worlds, actions, k, p.msg, n, i))
    && (forall n, i: nat | n in worlds[k].nodes :: Carried(worlds, actions, k, n, i))
  }

  lemma OthersRest(worlds: seq<World>, actions: seq<Action>, k: nat, m: NodeId)
    requires IsRun(worlds, actions) && 0 < k <= |actions|
    ensures worlds[k].nodes.Keys == worlds[k - 1].nodes.Keys
    ensures m in worlds[k].nodes ==> worlds[k].nodes[m].client == worlds[k - 1].nodes[m].client
    ensures m in worlds[k].nodes && m != actions[k - 1].n ==>
              && worlds[k].nodes[m] == worlds[k - 1].nodes[m]
              && EngineAt(worlds, actions, m, k) == EngineAt(worlds, actions, m, k - 1)
  {
    assert Can(worlds[k - 1], actions[k - 1]) && worlds[k] == Do(worlds[k - 1], actions[k - 1]);
  }

  /** The engine of the node that acts. */
  lemma ActorMoves(worlds: seq<World>, actions: seq<Action>, k: nat)
    requires IsRun(worlds, actions) && 0 < k <= |actions|
    requires var n := actions[k - 1].n;
             n in worlds[k - 1].nodes && EngineAt(worlds, actions, n, k - 1).rpc == worlds[k - 1].nodes[n].rpc
    ensures var n := actions[k - 1].n;
            var (before, after) := (EngineAt(worlds, actions, n, k - 1).calls, EngineAt(worlds, actions, n, k).calls);
            && n in worlds[k].nodes
            && EngineAt(worlds, actions, n, k).rpc == worlds[k].nodes[n].rpc
            && ((after == before && worlds[k].wire == worlds[k - 1].wire)
                || (|after| == |before| + 1 && before <= after && after[|before|].SendMessage?
                    && exists p :: worlds[k].wire == worlds[k - 1].wire + {p}
                                   && OnTheWire(after[|before|].msg, p.msg, worlds[k - 1].nodes[n].client)))
  {
    var a, n := actions[k - 1], actions[k - 1].n;
    assert Can(worlds[k - 1], a) && worlds[k] == Do(worlds[k - 1], a);
    OthersRest(worlds, actions, k, n);
    if !a.Receive? {
      SendTransmits(worlds[k - 1], a, EngineAt(worlds, actions, n, k - 1), RegistrationType.Request,
                    TransportEngine.Env(true, worlds[k - 1].nodes[n].client, Ok(Unit)));
    }
  }

  /** What was given stays given. */
  lemma StillGiven(worlds: seq<World>, actions: seq<Action>, k: nat, msg: SomeIpMessage, n: NodeId, i: nat)
    requires IsRun(worlds, actions) && 0 < k <= |actions| && Given(worlds, actions, k - 1, msg, n, i)
    requires EngineAt(worlds, actions, n, k - 1).calls <= EngineAt(worlds, actions, n, k).calls
    ensures Given(worlds, actions, k, msg, n, i)
  {
    OthersRest(worlds, actions, k, n);
  }

  /** Logs only grow. */
  lemma LogsGrow(worlds: seq<World>, actions: seq<Action>, k: nat, n: NodeId)
    requires IsRun(worlds, actions) && 0 < k <= |actions| && InStep(worlds, actions, k - 1)
    requires n in worlds[k].nodes
    ensures n in worlds[k - 1].nodes && EngineAt(worlds, actions, n, k).rpc == worlds[k].nodes[n].rpc
    ensures EngineAt(worlds, actions, n, k - 1).calls <= EngineAt(worlds, actions, n, k).calls
    ensures worlds[k - 1].wire <= worlds[k].wire
  {
    assert Can(worlds[k - 1], actions[k - 1]);
    OthersRest(worlds, actions, k, n);
    ActorMoves(worlds, actions, k);
  }

  lemma WireWasGiven(worlds: seq<World>, actions: seq<Action>, k: nat, p: Packet)
    requires IsRun(worlds, actions) && 0 < k <= |actions| && InStep(worlds, actions, k - 1) && p in worlds[k].wire
    ensures exists n, i :: Given(worlds, actions, k, p.msg, n, i)
  {
    assert Can(worlds[k - 1], actions[k - 1]);
    var actor := actions[k - 1].n;
    OthersRest(worlds, actions, k, actor);
    if p in worlds[k - 1].wire {
      var n, i :| Given(worlds, actions, k - 1, p.msg, n, i);
      OthersRest(worlds, actions, k, n);
      LogsGrow(worlds, actions, k, n);
      StillGiven(worlds, actions, k, p.msg, n, i);
    } else {
      ActorMoves(worlds, actions, k);
      assert Given(worlds, actions, k, p.msg, actor, |EngineAt(worlds, actions, actor, k - 1).calls|);
    }
  }

  lemma NewCallIsCarried(worlds: seq<World>, actions: seq<Action>, k: nat, i: nat)
    requires IsRun(worlds, actions) && 0 < k <= |actions|
    requires var n := actions[k - 1].n;
             && n in worlds[k - 1].nodes && EngineAt(worlds, actions, n, k - 1).rpc == worlds[k - 1].nodes[n].rpc
             && |EngineAt(worlds, actions, n, k - 1).calls| <= i < |EngineAt(worlds, actions, n, k).calls|
    ensures exists p :: p in worlds[k].wire && Given(worlds, actions, k, p.msg, actions[k - 1].n, i)
  {
    var n := actions[k - 1].n;
    ActorMoves(worlds, actions, k);
    OthersRest(worlds, actions, k, n);
    var call := EngineAt(worlds, actions, n, k).calls[i];
    var p :| worlds[k].wire == worlds[k - 1].wire + {p} && OnTheWire(call.msg, p.msg, worlds[k - 1].nodes[n].client);
    assert p in worlds[k].wire && Given(worlds, actions, k, p.msg, n, i);
  }

  lemma LogIsCarried(worlds: seq<World>, actions: seq<Action>, k: nat, n: NodeId, i: nat)
    requires IsRun(worlds, actions) && 0 < k <= |actions| && InStep(worlds, actions, k - 1) && n in worlds[k].nodes
    requires i < |EngineAt(worlds, actions, n, k).calls|
    ensures exists p :: p in worlds[k].wire && Given(worlds, actions, k, p.msg, n, i)
  {
    LogsGrow(worlds, actions, k, n);
    OthersRest(worlds, actions, k, n);
    if i < |EngineAt(worlds, actions, n, k - 1).calls| {
      assert Carried(worlds, actions, k - 1, n, i);
      var p :| p in worlds[k - 1].wire && Given(worlds, actions, k - 1, p.msg, n, i);
      StillGiven(worlds, actions, k, p.msg, n, i);
    } else {
      NewCallIsCarried(worlds, actions, k, i);
    }
  }

  lemma KeepsInStep(worlds: seq<World>, actions: seq<Action>, k: nat)
    requires IsRun(worlds, actions) && 0 < k <= |actions| && InStep(worlds, actions, k - 1)
    ensures InStep(worlds, actions, k)
  {
    forall n | n in worlds[k].nodes
      ensures EngineAt(worlds, actions, n, k).rpc == worlds[k].nodes[n].rpc
    {
      LogsGrow(worlds, actions, k, n);
    }
    forall p | p in worlds[k].wire
      ensures exists n, i :: Given(worlds, actions, k, p.msg, n, i)
    {
      WireWasGiven(worlds, actions, k, p);
    }
    forall n, i: nat | n in worlds[k].nodes
      ensures Carried(worlds, actions, k, n, i)
    {
      if i < |EngineAt(worlds, actions, n, k).calls| {
        LogIsCarried(worlds, actions, k, n, i);
      }
    }
  }

  /**
   In every run, each node has the correlation state of its engine, every message on the wire was given to
   vsomeip by an engine, and every message an engine gave to vsomeip is on the wire, a request under the
   client and a number of vsomeip's. So what holds of the wire holds of what the engines transmit.
   */
  lemma {:induction false} WireIsWhatEnginesSend(worlds: seq<World>, actions: seq<Action>, k: nat)
    requires IsRun(worlds, actions) && k <= |actions|
    ensures InStep(worlds, actions, k)
  {
    if k > 0 {
      WireIsWhatEnginesSend(worlds, actions, k - 1);
      KeepsInStep(worlds, actions, k);
    }
  }
}
