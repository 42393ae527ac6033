/** Correlation of requests and responses: a session counter per client id and two maps of pending requests. */
module RpcCorrelation {
  import opened Common
  import opened Uris
  import opened Messages

  /** A request of this entity waiting for its response: its uProtocol id and where the response goes. */
  datatype Pending = Pending(reqid: Uuid, source: UUri)

  datatype Correlation = Correlation(ue: map<U32, Pending>, me: map<Uuid, U32>, sessions: map<U16, U16>)

  const EMPTY_CORRELATION := Correlation(map[], map[], map[])

  /** The session id the client would get next. */
  function NextSession(c: Correlation, client: U16): U16 {
    if client in c.sessions then c.sessions[client] else 1
  }

  /** The counter moves on modulo 2^16, as a 16-bit increment does when overflow is not trapped. */
  function Advance(c: Correlation, client: U16): Correlation {
    c.(sessions := c.sessions[client := (NextSession(c, client) + 1) % 0x1_0000])
  }

  function InsertUe(c: Correlation, request: U32, p: Pending): (Correlation, Status) {
    if request in c.ue then (c, Err(ALREADY_EXISTS)) else (c.(ue := c.ue[request := p]), Ok(Unit))
  }

  function RemoveUe(c: Correlation, request: U32): (Correlation, Result<Pending, UCode>) {
    if request in c.ue then (c.(ue := c.ue - {request}), Ok(c.ue[request])) else (c, Err(NOT_FOUND))
  }

  function InsertMe(c: Correlation, reqid: Uuid, request: U32): (Correlation, Status) {
    if reqid in c.me then (c, Err(ALREADY_EXISTS)) else (c.(me := c.me[reqid := request]), Ok(Unit))
  }

  function RemoveMe(c: Correlation, reqid: Uuid): (Correlation, Result<U32, UCode>) {
    if reqid in c.me then (c.(me := c.me - {reqid}), Ok(c.me[reqid])) else (c, Err(NOT_FOUND))
  }

  class InMemoryRpcCorrelationRegistry {
    var ueRequests: map<U32, Pending>
    var meRequests: map<Uuid, U32>
    var sessions: map<U16, U16>

    ghost function View(): Correlation
      reads this
    {
      Correlation(ueRequests, meRequests, sessions)
    }

    constructor ()
      ensures View() == EMPTY_CORRELATION
    {
      ueRequests, meRequests, sessions := map[], map[], map[];
    }

    method RetrieveSessionId(client: U16) returns (session: U16)
      modifies this
      ensures session == NextSession(old(View()), client)
      ensures View() == Advance(old(View()), client)
    {
      if client !in sessions {
        sessions := sessions[client := 1];
      }
      session := sessions[client];
      sessions := sessions[client := (session + 1) % 0x1_0000];
    }

    method InsertUeRequestCorrelation(request: U32, p: Pending) returns (r: Status)
      modifies this
      ensures (View(), r) == InsertUe(old(View()), request, p)
    {
      if request in ueRequests {
        return Err(ALREADY_EXISTS);
      }
      ueRequests := ueRequests[request := p];
      r := Ok(Unit);
    }

    method RemoveUeRequestCorrelation(request: U32) returns (r: Result<Pending, UCode>)
      modifies this
      ensures (View(), r) == RemoveUe(old(View()), request)
    {
      if request !in ueRequests {
        return Err(NOT_FOUND);
      }
      r := Ok(ueRequests[request]);
      ueRequests := ueRequests - {request};
    }

    method InsertMeRequestCorrelation(reqid: Uuid, request: U32) returns (r: Status)
      modifies this
      ensures (View(), r) == InsertMe(old(View()), reqid, request)
    {
      if reqid in meRequests {
        return Err(ALREADY_EXISTS);
      }
      meRequests := meRequests[reqid := request];
      r := Ok(Unit);
    }

    method RemoveMeRequestCorrelation(reqid: Uuid) returns (r: Result<U32, UCode>)
      modifies this
      ensures (View(), r) == RemoveMe(old(View()), reqid)
    {
      if reqid !in meRequests {
        return Err(NOT_FOUND);
      }
      r := Ok(meRequests[reqid]);
      meRequests := meRequests - {reqid};
    }
  }

  // ---------------------------------------------------------------- histories

  /** One call on the registry. */
  datatype Call =
    | Retrieve(client: U16)
    | PutUe(request: U32, p: Pending)
    | TakeUe(request: U32)
    | PutMe(reqid: Uuid, request: U32)
    | TakeMe(reqid: Uuid)

  function Perform(c: Correlation, call: Call): Correlation {
    match call
    case Retrieve(client) => Advance(c, client)
    case PutUe(request, p) => InsertUe(c, request, p).0
    case TakeUe(request) => RemoveUe(c, request).0
    case PutMe(reqid, request) => InsertMe(c, reqid, request).0
    case TakeMe(reqid) => RemoveMe(c, reqid).0
  }

  function PerformAll(c: Correlation, calls: seq<Call>): Correlation {
    if calls == [] then c else Perform(PerformAll(c, calls[..|calls| - 1]), calls[|calls| - 1])
  }

  function Retrievals(calls: seq<Call>, client: U16): nat {
    if calls == [] then 0
    else Retrievals(calls[..|calls| - 1], client) + if calls[|calls| - 1] == Retrieve(client) then 1 else 0
  }

  /**
   Sessions count up: after any history, the next session id of a client is one more than the number of
   ids it has retrieved, modulo 2^16. So its n-th id is n as long as n stays below 65536.
   */
  lemma {:induction false} SessionsCountUp(calls: seq<Call>, client: U16)
    ensures NextSession(PerformAll(EMPTY_CORRELATION, calls), client) == (Retrievals(calls, client) + 1) % 0x1_0000
  {
    if calls != [] {
      SessionsCountUp(calls[..|calls| - 1], client);
    }
  }

  /** A pending entry keeps its value through any history, wrapping counters included, until it is taken. */
  lemma {:induction false} PendingUeStable(c: Correlation, calls: seq<Call>, request: U32)
    requires request in c.ue && TakeUe(request) !in calls
    ensures request in PerformAll(c, calls).ue && PerformAll(c, calls).ue[request] == c.ue[request]
  {
    if calls != [] {
      PendingUeStable(c, calls[..|calls| - 1], request);
    }
  }

  lemma {:induction false} PendingMeStable(c: Correlation, calls: seq<Call>, reqid: Uuid)
    requires reqid in c.me && TakeMe(reqid) !in calls
    ensures reqid in PerformAll(c, calls).me && PerformAll(c, calls).me[reqid] == c.me[reqid]
  {
    if calls != [] {
      PendingMeStable(c, calls[..|calls| - 1], reqid);
    }
  }

  /** An entry that has appeared was put in, with just that value. */
  lemma {:induction false} NothingUnasked(c: Correlation, calls: seq<Call>, request: U32)
    requires request !in c.ue && request in PerformAll(c, calls).ue
    ensures PutUe(request, PerformAll(c, calls).ue[request]) in calls
  {
    if calls != [] {
      var front := calls[..|calls| - 1];
      assert calls == front + [calls[|calls| - 1]];
      if request in PerformAll(c, front).ue {
        NothingUnasked(c, front, request);
      }
    }
  }
}
