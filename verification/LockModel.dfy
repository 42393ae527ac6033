/**
 The handler tables under concurrency. Threads allocate, release and dispatch in small steps; every
 step takes one lock, touches one table, or drops one lock, in the order the program does. A thread's
 program counter says which locks it holds, and a lock is granted only when nobody else's program
 counter holds it in a conflicting mode.
 */
module LockModel {
  import opened Common
  import opened HandlerTables

  type ThreadId = nat

  /** The transport map, the free-id set, and the bijection of one transport. */
  datatype Lock = OwnerLock | FreeLock | BindLock(t: TransportId)

  datatype Answer = GetAnswer(result: GetResult) | ReleaseAnswer(status: Status)

  datatype Stage =
    | Idle
    | NewTransport(t: TransportId)
    // get_message_handler
    | GetWantsOwner(t: TransportId, config: ListenerConfig)
    | GetWantsFree(t: TransportId, config: ListenerConfig)
    | GetWantsBind(t: TransportId, config: ListenerConfig)
    | GetTakesId(t: TransportId, config: ListenerConfig)
    | GetInsertsOwner(t: TransportId, config: ListenerConfig, id: HandlerId)
    | GetInsertsBinding(t: TransportId, config: ListenerConfig, id: HandlerId)
    | RollsBackId(t: TransportId, config: ListenerConfig, id: HandlerId, ownerToo: bool, error: GetError)
    | RollsBackOwner(t: TransportId, config: ListenerConfig, id: HandlerId, error: GetError)
    // release_message_handler
    | ReleaseWantsOwner(t: TransportId, config: ListenerConfig)
    | ReleaseWantsFree(t: TransportId, config: ListenerConfig)
    | ReleaseWantsBind(t: TransportId, config: ListenerConfig)
    | ReleaseFinds(t: TransportId, config: ListenerConfig)
    | ReleaseFreesId(t: TransportId, config: ListenerConfig, id: HandlerId)
    | ReleaseRemovesOwner(t: TransportId, config: ListenerConfig, id: HandlerId)
    | ReleaseRemovesBinding(t: TransportId, config: ListenerConfig, id: HandlerId)
    // guards still to be dropped, in order, before the answer is returned
    | Drops(guards: seq<Lock>, answer: Answer)
    // call_shared_extern_fn
    | DispatchWantsOwner(id: HandlerId)
    | DispatchReadsOwner(id: HandlerId)
    | DispatchWantsBind(id: HandlerId, t: TransportId)
    | DispatchReadsBind(id: HandlerId, t: TransportId)
    | DispatchCalls(id: HandlerId, t: TransportId, listener: ListenerId)

  datatype State = State(tables: Tables, threads: map<ThreadId, Stage>)

  /** The locks a thread at this stage holds for writing. */
  ghost function Writes(stage: Stage): set<Lock> {
    match stage
    case GetWantsFree(_, _) => {OwnerLock}
    case ReleaseWantsFree(_, _) => {OwnerLock}
    case GetWantsBind(_, _) => {OwnerLock, FreeLock}
    case ReleaseWantsBind(_, _) => {OwnerLock, FreeLock}
    case GetTakesId(t, _) => {OwnerLock, FreeLock, BindLock(t)}
    case GetInsertsOwner(t, _, _) => {OwnerLock, FreeLock, BindLock(t)}
    case GetInsertsBinding(t, _, _) => {OwnerLock, FreeLock, BindLock(t)}
    case RollsBackId(t, _, _, _, _) => {OwnerLock, FreeLock, BindLock(t)}
    // the first rollback step owns the guard of the free set, so running it drops that guard
    case RollsBackOwner(t, _, _, _) => {OwnerLock, BindLock(t)}
    case ReleaseFinds(t, _) => {OwnerLock, FreeLock, BindLock(t)}
    case ReleaseFreesId(t, _, _) => {OwnerLock, FreeLock, BindLock(t)}
    case ReleaseRemovesOwner(t, _, _) => {OwnerLock, FreeLock, BindLock(t)}
    case ReleaseRemovesBinding(t, _, _) => {OwnerLock, FreeLock, BindLock(t)}
    case Drops(guards, _) => set l | l in guards
    case _ => {}
  }

  /** The locks a thread at this stage holds for reading. */
  ghost function Reads(stage: Stage): set<Lock> {
    match stage
    case DispatchReadsOwner(_) => {OwnerLock}
    case DispatchReadsBind(_, t) => {BindLock(t)}
    case _ => {}
  }

  /** The lock the next step of this stage needs, and whether for writing. */
  function Wants(stage: Stage): Option<(Lock, bool)> {
    match stage
    case GetWantsOwner(_, _) => Some((OwnerLock, true))
    case ReleaseWantsOwner(_, _) => Some((OwnerLock, true))
    case GetWantsFree(_, _) => Some((FreeLock, true))
    case ReleaseWantsFree(_, _) => Some((FreeLock, true))
    case GetWantsBind(t, _) => Some((BindLock(t), true))
    case ReleaseWantsBind(t, _) => Some((BindLock(t), true))
    case DispatchWantsOwner(_) => Some((OwnerLock, false))
    case DispatchWantsBind(_, t) => Some((BindLock(t), false))
    case _ => None
  }

  /** A write lock needs the lock to itself; a read lock only excludes writers. */
  ghost predicate Granted(s: State, th: ThreadId, l: Lock, write: bool) {
    forall u | u in s.threads && u != th ::
      l !in Writes(s.threads[u]) && (write ==> l !in Reads(s.threads[u]))
  }

  ghost predicate Enabled(s: State, th: ThreadId)
    requires th in s.threads
  {
    match Wants(s.threads[th])
    case None => true
    case Some((l, write)) => Granted(s, th, l, write)
  }

  /** The stages in which an idle thread begins an operation. */
  ghost predicate Begins(tb: Tables, stage: Stage) {
    match stage
    case NewTransport(t) => true
    case GetWantsOwner(t, _) => t in tb.bound
    case ReleaseWantsOwner(t, _) => t in tb.bound
    case DispatchWantsOwner(_) => true
    case _ => false
  }

  /** What a busy thread does next; the one free choice, which id to take, is left to `Effect`. */
  ghost function Next(tb: Tables, stage: Stage): (Tables, Stage) {
    match stage
    case Idle => (tb, Idle)
    case NewTransport(t) => (if t in tb.bound then tb else tb.(bound := tb.bound[t := map[]]), Idle)
    case GetWantsOwner(t, c) => (tb, GetWantsFree(t, c))
    case GetWantsFree(t, c) => (tb, GetWantsBind(t, c))
    case GetWantsBind(t, c) => (tb, GetTakesId(t, c))
    case GetTakesId(t, c) =>
      (tb, Drops([BindLock(t), FreeLock, OwnerLock], GetAnswer(Err(OtherError(RESOURCE_EXHAUSTED)))))
    case GetInsertsOwner(t, c, id) =>
      if id in tb.owner then (tb, RollsBackId(t, c, id, false, OtherError(ALREADY_EXISTS)))
      else (tb.(owner := tb.owner[id := t]), GetInsertsBinding(t, c, id))
    case GetInsertsBinding(t, c, id) =>
      if t !in tb.bound || id in tb.bound[t] then (tb, RollsBackId(t, c, id, true, ListenerIdAlreadyExists(id)))
      else if Stored(tb.bound[t], c) then (tb, RollsBackId(t, c, id, true, ListenerConfigAlreadyExists(id)))
      else (tb.(bound := tb.bound[t := tb.bound[t][id := c]]),
          Drops([FreeLock, OwnerLock, BindLock(t)], GetAnswer(Ok(id))))
    case RollsBackId(t, c, id, ownerToo, e) =>
      (tb.(free := tb.free + {id}),
       if ownerToo then RollsBackOwner(t, c, id, e) else Drops([BindLock(t), OwnerLock], GetAnswer(Err(e))))
    case RollsBackOwner(t, c, id, e) => (tb.(owner := tb.owner - {id}), Drops([BindLock(t)], GetAnswer(Err(e))))
    case ReleaseWantsOwner(t, c) => (tb, ReleaseWantsFree(t, c))
    case ReleaseWantsFree(t, c) => (tb, ReleaseWantsBind(t, c))
    case ReleaseWantsBind(t, c) => (tb, ReleaseFinds(t, c))
    case ReleaseFinds(t, c) =>
      (tb, if t in tb.bound && Stored(tb.bound[t], c) then ReleaseFreesId(t, c, IdOf(tb.bound[t], c))
           else Drops([BindLock(t), FreeLock, OwnerLock], ReleaseAnswer(Err(NOT_FOUND))))
    case ReleaseFreesId(t, c, id) => (tb.(free := tb.free + {id}), ReleaseRemovesOwner(t, c, id))
    case ReleaseRemovesOwner(t, c, id) => (tb.(owner := tb.owner - {id}), ReleaseRemovesBinding(t, c, id))
    case ReleaseRemovesBinding(t, c, id) =>
      (if t in tb.bound then tb.(bound := tb.bound[t := tb.bound[t] - {id}]) else tb,
       Drops([BindLock(t), FreeLock, OwnerLock], ReleaseAnswer(Ok(Unit))))
    case Drops(guards, answer) => (tb, if guards == [] then Idle else Drops(guards[1..], answer))
    case DispatchWantsOwner(id) => (tb, DispatchReadsOwner(id))
    case DispatchReadsOwner(id) => (tb, if id in tb.owner then DispatchWantsBind(id, tb.owner[id]) else Idle)
    case DispatchWantsBind(id, t) => (tb, DispatchReadsBind(id, t))
    case DispatchReadsBind(id, t) =>
      (tb, if t in tb.bound && id in tb.bound[t] then DispatchCalls(id, t, tb.bound[t][id].listener) else Idle)
    case DispatchCalls(_, _, _) => (tb, Idle)
  }

  /** What one step does to the tables and to the thread taking it. */
  ghost predicate Effect(tb: Tables, stage: Stage, tb': Tables, stage': Stage) {
    if stage == Idle then
      tb' == tb && Begins(tb, stage')
    else if stage.GetTakesId? && tb.free != {} then
      && stage'.GetInsertsOwner? && stage' == GetInsertsOwner(stage.t, stage.config, stage'.id)
      && stage'.id in tb.free && tb' == tb.(free := tb.free - {stage'.id})
    else
      (tb', stage') == Next(tb, stage)
  }

  ghost predicate Step(s: State, th: ThreadId, s': State) {
    && th in s.threads && th in s'.threads
    && Enabled(s, th)
    && Effect(s.tables, s.threads[th], s'.tables, s'.threads[th])
    && s'.threads == s.threads[th := s'.threads[th]]
  }

  ghost predicate Initial(n: nat, s: State) {
    && s.tables == InitialTables(n)
    && forall th | th in s.threads :: s.threads[th] == Idle
  }

  // ---------------------------------------------------------------- the atomic view

  /** The stages between a transaction's first write and the write that completes or cancels it. */
  predicate InFlight(stage: Stage) {
    || stage.GetInsertsOwner? || stage.GetInsertsBinding? || stage.RollsBackId? || stage.RollsBackOwner?
    || stage.ReleaseRemovesOwner? || stage.ReleaseRemovesBinding?
  }

  /** The tables with the writes of an unfinished transaction taken back. */
  ghost function Undo(tb: Tables, stage: Stage): Tables {
    match stage
    case GetInsertsOwner(_, _, id) => tb.(free := tb.free + {id})
    case GetInsertsBinding(_, _, id) => tb.(free := tb.free + {id}, owner := tb.owner - {id})
    case RollsBackId(_, _, id, ownerToo, _) =>
      tb.(free := tb.free + {id}, owner := if ownerToo then tb.owner - {id} else tb.owner)
    case RollsBackOwner(_, _, id, _) => tb.(owner := tb.owner - {id})
    case ReleaseRemovesOwner(_, _, id) => tb.(free := tb.free - {id})
    case ReleaseRemovesBinding(t, _, id) => tb.(free := tb.free - {id}, owner := tb.owner[id := t])
    case _ => tb
  }

  /** The tables as the atomic operations see them. */
  ghost function Abstract(s: State): Tables {
    if exists th :: th in s.threads && InFlight(s.threads[th]) then
      var th :| th in s.threads && InFlight(s.threads[th]);
      Undo(s.tables, s.threads[th])
    else s.tables
  }

  /** What a thread in the middle of a transaction knows about the tables. */
  ghost predicate Facts(tb: Tables, stage: Stage) {
    match stage
    case GetWantsOwner(t, _) => t in tb.bound
    case GetWantsFree(t, _) => t in tb.bound
    case GetWantsBind(t, _) => t in tb.bound
    case GetTakesId(t, _) => t in tb.bound
    case GetInsertsOwner(t, _, id) => t in tb.bound && id !in tb.free && id !in tb.owner
    case GetInsertsBinding(t, _, id) =>
      t in tb.bound && id !in tb.free && id in tb.owner && tb.owner[id] == t && id !in tb.bound[t]
    case RollsBackId(t, c, id, ownerToo, e) =>
      && t in tb.bound && id !in tb.free && ownerToo && id in tb.owner && tb.owner[id] == t && id !in tb.bound[t]
      && Stored(tb.bound[t], c) && e == ListenerConfigAlreadyExists(id)
    case RollsBackOwner(t, c, id, e) =>
      && t in tb.bound && id in tb.free && id in tb.owner && tb.owner[id] == t && id !in tb.bound[t]
      && Stored(tb.bound[t], c) && e == ListenerConfigAlreadyExists(id)
    case ReleaseWantsOwner(t, _) => t in tb.bound
    case ReleaseWantsFree(t, _) => t in tb.bound
    case ReleaseWantsBind(t, _) => t in tb.bound
    case ReleaseFinds(t, _) => t in tb.bound
    case ReleaseFreesId(t, c, id) =>
      t in tb.bound && id in tb.bound[t] && tb.bound[t][id] == c && id !in tb.free && id in tb.owner
          && tb.owner[id] == t
    case ReleaseRemovesOwner(t, c, id) =>
      t in tb.bound && id in tb.bound[t] && tb.bound[t][id] == c && id in tb.free && id in tb.owner && tb.owner[id] == t
    case ReleaseRemovesBinding(t, c, id) =>
      t in tb.bound && id in tb.bound[t] && tb.bound[t][id] == c && id in tb.free && id !in tb.owner
    case Drops(guards, _) => forall i, j | 0 <= i < j < |guards| :: guards[i] != guards[j]
    case _ => true
  }

  /** No lock is held in conflicting modes. */
  ghost predicate Exclusive(s: State) {
    forall th, u, l | th in s.threads && u in s.threads && th != u && l in Writes(s.threads[th]) ::
      l !in Writes(s.threads[u]) && l !in Reads(s.threads[u])
  }

  ghost predicate Inv(n: nat, s: State) {
    && Exclusive(s)
    && (forall th | th in s.threads :: Facts(s.tables, s.threads[th]))
    && Consistent(n, Abstract(s))
  }
}
