/**
 Properties of every step: mutual exclusion, the allocator invariant at rest, and that each step is nothing
 or one atomic event.
 */
module LockProperties {
  import opened Common
  import opened HandlerTables
  import opened LockModel

  // ---------------------------------------------------------------- locks

  lemma NextWrites(tb: Tables, stage: Stage)
    ensures forall l | l in Writes(Next(tb, stage).1) :: l in Writes(stage) || Wants(stage) == Some((l, true))
  {
  }

  lemma WritesChange(tb: Tables, stage: Stage, tb': Tables, stage': Stage)
    requires Effect(tb, stage, tb', stage')
    ensures forall l | l in Writes(stage') :: l in Writes(stage) || Wants(stage) == Some((l, true))
  {
    NextWrites(tb, stage);
  }

  lemma ReadsChange(tb: Tables, stage: Stage, tb': Tables, stage': Stage)
    requires Effect(tb, stage, tb', stage')
    ensures forall l | l in Reads(stage') :: Wants(stage) == Some((l, false))
  {
  }

  lemma StepExclusive(s: State, th: ThreadId, s': State)
    requires Exclusive(s) && Step(s, th, s')
    ensures Exclusive(s')
  {
    WritesChange(s.tables, s.threads[th], s'.tables, s'.threads[th]);
    ReadsChange(s.tables, s.threads[th], s'.tables, s'.threads[th]);
    forall v, u, l | v in s'.threads && u in s'.threads && v != u && l in Writes(s'.threads[v])
      ensures l !in Writes(s'.threads[u]) && l !in Reads(s'.threads[u])
    {
      if v != th {
        assert l in Writes(s.threads[v]);
      } else if l in Writes(s.threads[th]) {
        assert s'.threads[u] == s.threads[u];
      } else {
        assert Granted(s, th, l, true) && s'.threads[u] == s.threads[u];
      }
    }
  }

  // ---------------------------------------------------------------- the abstraction function

  lemma InFlightHoldsOwner(stage: Stage)
    ensures InFlight(stage) ==> OwnerLock in Writes(stage)
    ensures !InFlight(stage) ==> forall tb :: Undo(tb, stage) == tb
  {
  }

  lemma AbstractIs(s: State, th: ThreadId)
    requires Exclusive(s) && th in s.threads && InFlight(s.threads[th])
    ensures Abstract(s) == Undo(s.tables, s.threads[th])
  {
    forall u | u in s.threads && InFlight(s.threads[u])
      ensures u == th
    {
      InFlightHoldsOwner(s.threads[u]);
      InFlightHoldsOwner(s.threads[th]);
    }
  }

  /** A thread holding the transport map for writing sees the atomic tables, up to its own unfinished writes. */
  lemma AbstractOfWriter(s: State, th: ThreadId)
    requires Exclusive(s) && th in s.threads && OwnerLock in Writes(s.threads[th])
    ensures Abstract(s) == Undo(s.tables, s.threads[th])
    ensures forall u | u in s.threads && u != th :: !InFlight(s.threads[u])
  {
    forall u | u in s.threads && u != th
      ensures !InFlight(s.threads[u])
    {
      InFlightHoldsOwner(s.threads[u]);
    }
    if InFlight(s.threads[th]) {
      AbstractIs(s, th);
    }
  }

  /** The allocator invariant holds whenever no thread holds the transport map for writing. */
  lemma ConsistentAtRest(n: nat, s: State)
    requires Inv(n, s)
    requires forall th | th in s.threads :: OwnerLock !in Writes(s.threads[th])
    ensures Consistent(n, s.tables)
  {
    forall th | th in s.threads
      ensures !InFlight(s.threads[th])
    {
      InFlightHoldsOwner(s.threads[th]);
    }
  }

  // ---------------------------------------------------------------- commit points

  /** The atomic event a step stands for, if it is the one at which its operation takes effect. */
  function Commit(tb: Tables, stage: Stage, stage': Stage): Option<Event> {
    match (stage, stage')
    case (NewTransport(t), _) => if t in tb.bound then None else Some(Create(t))
    case (GetTakesId(t, c), Drops(_, GetAnswer(r))) => Some(Act(t, Get(c, r)))
    case (GetInsertsOwner(t, c, _), RollsBackId(_, _, _, _, e)) => Some(Act(t, Get(c, Err(e))))
    case (GetInsertsBinding(t, c, _), RollsBackId(_, _, _, _, e)) => Some(Act(t, Get(c, Err(e))))
    case (GetInsertsBinding(t, c, _), Drops(_, GetAnswer(r))) => Some(Act(t, Get(c, r)))
    case (ReleaseFinds(t, c), Drops(_, _)) => Some(Act(t, Release(c)))
    case (ReleaseRemovesBinding(t, c, _), Drops(_, _)) => Some(Act(t, Release(c)))
    case _ => None
  }

  /** One step of the atomic process: nothing, or one legal event. */
  ghost predicate Follows(tb: Tables, e: Option<Event>, tb': Tables) {
    match e
    case None => tb' == tb
    case Some(event) => Legal(tb, event) && tb' == Do(tb, event)
  }

  /** An event that leaves the slice of its transport as it was leaves all tables as they were. */
  lemma IdleEvent(tb: Tables, t: TransportId, op: Op)
    requires t in tb.bound && Apply(tb.Of(t), t, op) == tb.Of(t)
    ensures Do(tb, Act(t, op)) == tb
  {
    assert tb.bound[t := tb.bound[t]] == tb.bound;
  }

  lemma TakesId(tb: Tables, t: TransportId, c: ListenerConfig, tb': Tables, stage': Stage)
    requires Facts(tb, GetTakesId(t, c)) && Effect(tb, GetTakesId(t, c), tb', stage')
    requires t in tb.bound && SliceConsistent(t, Undo(tb, GetTakesId(t, c)).Of(t))
    ensures Facts(tb', stage')
    ensures Follows(Undo(tb, GetTakesId(t, c)), Commit(tb, GetTakesId(t, c), stage'), Undo(tb', stage'))
  {
    if tb.free != {} {
      assert tb.free - {stage'.id} + {stage'.id} == tb.free;
    } else {
      IdleEvent(tb, t, Get(c, Err(OtherError(RESOURCE_EXHAUSTED))));
    }
  }

  lemma InsertsOwner(tb: Tables, t: TransportId, c: ListenerConfig, id: HandlerId, tb': Tables, stage': Stage)
    requires Facts(tb, GetInsertsOwner(t, c, id)) && Effect(tb, GetInsertsOwner(t, c, id), tb', stage')
    requires t in tb.bound && SliceConsistent(t, Undo(tb, GetInsertsOwner(t, c, id)).Of(t))
    ensures Facts(tb', stage')
    ensures Follows(Undo(tb, GetInsertsOwner(t, c, id)), Commit(tb, GetInsertsOwner(t, c, id), stage'),
            Undo(tb', stage'))
  {
    assert tb.owner[id := t] - {id} == tb.owner;
  }

  lemma InsertsBinding(tb: Tables, t: TransportId, c: ListenerConfig, id: HandlerId, tb': Tables, stage': Stage)
    requires Facts(tb, GetInsertsBinding(t, c, id)) && Effect(tb, GetInsertsBinding(t, c, id), tb', stage')
    ensures Facts(tb', stage')
    ensures Follows(Undo(tb, GetInsertsBinding(t, c, id)), Commit(tb, GetInsertsBinding(t, c, id), stage'),
            Undo(tb', stage'))
  {
    var pre := Undo(tb, GetInsertsBinding(t, c, id));
    if Stored(tb.bound[t], c) {
      IdleEvent(pre, t, Get(c, Err(ListenerConfigAlreadyExists(id))));
    } else {
      assert tb.free + {id} - {id} == tb.free;
      assert (tb.owner - {id})[id := t] == tb.owner;
    }
  }

  lemma RollsBack(tb: Tables, t: TransportId, c: ListenerConfig, id: HandlerId, ownerToo: bool, e: GetError,
                  tb': Tables, stage': Stage)
    requires Facts(tb, RollsBackId(t, c, id, ownerToo, e))
             && Effect(tb, RollsBackId(t, c, id, ownerToo, e), tb', stage')
    ensures Facts(tb', stage')
    ensures Follows(Undo(tb, RollsBackId(t, c, id, ownerToo, e)),
            Commit(tb, RollsBackId(t, c, id, ownerToo, e), stage'), Undo(tb', stage'))
  {
    assert tb.free + {id} - {id} == tb.free;
  }

  lemma Finds(tb: Tables, t: TransportId, c: ListenerConfig, tb': Tables, stage': Stage)
    requires Facts(tb, ReleaseFinds(t, c)) && Effect(tb, ReleaseFinds(t, c), tb', stage')
    requires t in tb.bound && SliceConsistent(t, Undo(tb, ReleaseFinds(t, c)).Of(t))
    ensures Facts(tb', stage')
    ensures Follows(Undo(tb, ReleaseFinds(t, c)), Commit(tb, ReleaseFinds(t, c), stage'), Undo(tb', stage'))
  {
    if !Stored(tb.bound[t], c) {
      IdleEvent(tb, t, Release(c));
    }
  }

  lemma FreesId(tb: Tables, t: TransportId, c: ListenerConfig, id: HandlerId, tb': Tables, stage': Stage)
    requires Facts(tb, ReleaseFreesId(t, c, id)) && Effect(tb, ReleaseFreesId(t, c, id), tb', stage')
    ensures Facts(tb', stage')
    ensures Follows(Undo(tb, ReleaseFreesId(t, c, id)), Commit(tb, ReleaseFreesId(t, c, id), stage'), Undo(tb', stage'))
  {
    assert tb.free + {id} - {id} == tb.free;
  }

  lemma RemovesOwner(tb: Tables, t: TransportId, c: ListenerConfig, id: HandlerId, tb': Tables, stage': Stage)
    requires Facts(tb, ReleaseRemovesOwner(t, c, id)) && Effect(tb, ReleaseRemovesOwner(t, c, id), tb', stage')
    ensures Facts(tb', stage')
    ensures Follows(Undo(tb, ReleaseRemovesOwner(t, c, id)), Commit(tb, ReleaseRemovesOwner(t, c, id), stage'),
            Undo(tb', stage'))
  {
    assert (tb.owner - {id})[id := t] == tb.owner;
  }

  lemma RemovesBinding(tb: Tables, t: TransportId, c: ListenerConfig, id: HandlerId, tb': Tables, stage': Stage)
    requires Facts(tb, ReleaseRemovesBinding(t, c, id)) && Effect(tb, ReleaseRemovesBinding(t, c, id), tb', stage')
    requires t in tb.bound && SliceConsistent(t, Undo(tb, ReleaseRemovesBinding(t, c, id)).Of(t))
    ensures Facts(tb', stage')
    ensures Follows(Undo(tb, ReleaseRemovesBinding(t, c, id)), Commit(tb, ReleaseRemovesBinding(t, c, id), stage'),
            Undo(tb', stage'))
  {
    var pre := Undo(tb, ReleaseRemovesBinding(t, c, id));
    assert Stored(pre.bound[t], c) && IdOf(pre.bound[t], c) == id;
    assert tb.free - {id} + {id} == tb.free;
    assert tb.owner[id := t] - {id} == tb.owner;
  }

  /** Where a stage needs the tables of its transport to agree, they do. */
  ghost predicate LocalView(tb: Tables, stage: Stage) {
    (stage.GetTakesId? || stage.GetInsertsOwner? || stage.ReleaseFinds? || stage.ReleaseRemovesBinding?) ==>
      stage.t in Undo(tb, stage).bound && SliceConsistent(stage.t, Undo(tb, stage).Of(stage.t))
  }

  lemma ConsistentLocally(n: nat, tb: Tables, stage: Stage)
    requires Facts(tb, stage) && Consistent(n, Undo(tb, stage))
    ensures LocalView(tb, stage)
  {
    if stage.GetTakesId? || stage.GetInsertsOwner? || stage.ReleaseFinds? || stage.ReleaseRemovesBinding? {
      ConsistentSlice(n, Undo(tb, stage), stage.t);
    }
  }

  lemma GetWriterStep(tb: Tables, stage: Stage, tb': Tables, stage': Stage)
    requires stage.GetTakesId? || stage.GetInsertsOwner? || stage.GetInsertsBinding? || stage.RollsBackId?
    requires Facts(tb, stage) && LocalView(tb, stage) && Effect(tb, stage, tb', stage')
    ensures Facts(tb', stage')
    ensures Follows(Undo(tb, stage), Commit(tb, stage, stage'), Undo(tb', stage'))
  {
    match stage
    case GetTakesId(t, c) => TakesId(tb, t, c, tb', stage');
    case GetInsertsOwner(t, c, id) => InsertsOwner(tb, t, c, id, tb', stage');
    case GetInsertsBinding(t, c, id) => InsertsBinding(tb, t, c, id, tb', stage');
    case RollsBackId(t, c, id, ownerToo, e) => RollsBack(tb, t, c, id, ownerToo, e, tb', stage');
  }

  lemma ReleaseWriterStep(tb: Tables, stage: Stage, tb': Tables, stage': Stage)
    requires stage.ReleaseFinds? || stage.ReleaseFreesId? || stage.ReleaseRemovesOwner? || stage.ReleaseRemovesBinding?
    requires Facts(tb, stage) && LocalView(tb, stage) && Effect(tb, stage, tb', stage')
    ensures Facts(tb', stage')
    ensures Follows(Undo(tb, stage), Commit(tb, stage, stage'), Undo(tb', stage'))
  {
    match stage
    case ReleaseFinds(t, c) => Finds(tb, t, c, tb', stage');
    case ReleaseFreesId(t, c, id) => FreesId(tb, t, c, id, tb', stage');
    case ReleaseRemovesOwner(t, c, id) => RemovesOwner(tb, t, c, id, tb', stage');
    case ReleaseRemovesBinding(t, c, id) => RemovesBinding(tb, t, c, id, tb', stage');
  }

  /** The stages of a transaction that hold the transport map for writing. */
  lemma WriterStep(tb: Tables, stage: Stage, tb': Tables, stage': Stage)
    requires OwnerLock in Writes(stage)
    requires Facts(tb, stage) && LocalView(tb, stage) && Effect(tb, stage, tb', stage')
    ensures Facts(tb', stage')
    ensures Follows(Undo(tb, stage), Commit(tb, stage, stage'), Undo(tb', stage'))
  {
    if stage.GetTakesId? || stage.GetInsertsOwner? || stage.GetInsertsBinding? || stage.RollsBackId? {
      GetWriterStep(tb, stage, tb', stage');
    } else if stage.ReleaseFinds? || stage.ReleaseFreesId? || stage.ReleaseRemovesOwner?
        || stage.ReleaseRemovesBinding? {
      ReleaseWriterStep(tb, stage, tb', stage');
    }
  }

  lemma NextKeepsTransports(tb: Tables, stage: Stage)
    ensures tb.bound.Keys <= Next(tb, stage).0.bound.Keys
  {
  }

  lemma BoundGrows(tb: Tables, stage: Stage, tb': Tables, stage': Stage)
    requires Effect(tb, stage, tb', stage')
    ensures tb.bound.Keys <= tb'.bound.Keys
  {
    NextKeepsTransports(tb, stage);
  }

  /** Every other step leaves the tables alone, except that a new transport may appear with no bindings. */
  lemma BystanderStep(tb: Tables, stage: Stage, tb': Tables, stage': Stage)
    requires OwnerLock !in Writes(stage)
    requires Facts(tb, stage) && Effect(tb, stage, tb', stage')
    ensures Facts(tb', stage') && !InFlight(stage) && !InFlight(stage')
    ensures tb' == match Commit(tb, stage, stage') case None => tb case Some(e) => Do(tb, e)
    ensures Commit(tb, stage, stage').Some? ==>
            Commit(tb, stage, stage').value.Create? && Legal(tb, Commit(tb, stage, stage').value)
  {
  }

  /** What another thread does never breaks what a thread knows. */
  lemma FactsStable(tb: Tables, stage: Stage, tb': Tables)
    requires Facts(tb, stage)
    requires tb.bound.Keys <= tb'.bound.Keys
    requires OwnerLock in Writes(stage) ==>
               tb'.free == tb.free && tb'.owner == tb.owner && forall t | t in tb.bound :: tb'.bound[t] == tb.bound[t]
    ensures Facts(tb', stage)
  {
    if stage.RollsBackId? || stage.RollsBackOwner? {
      assert tb'.bound[stage.t] == tb.bound[stage.t];
    }
  }

  lemma CreateCommutesWithUndo(tb: Tables, stage: Stage, t: TransportId)
    ensures Undo(Do(tb, Create(t)), stage) == Do(Undo(tb, stage), Create(t))
  {
  }

  /** Nobody else's knowledge is disturbed by a step. */
  lemma OthersKeepFacts(s: State, th: ThreadId, s': State)
    requires Exclusive(s) && Step(s, th, s')
    requires forall u | u in s.threads :: Facts(s.tables, s.threads[u])
    ensures forall u | u in s'.threads && u != th :: Facts(s'.tables, s'.threads[u])
  {
    BoundGrows(s.tables, s.threads[th], s'.tables, s'.threads[th]);
    if OwnerLock !in Writes(s.threads[th]) {
      BystanderStep(s.tables, s.threads[th], s'.tables, s'.threads[th]);
    }
    forall u | u in s'.threads && u != th
      ensures Facts(s'.tables, s'.threads[u])
    {
      FactsStable(s.tables, s.threads[u], s'.tables);
    }
  }

  lemma WriterRefines(s: State, th: ThreadId, s': State)
    requires Exclusive(s) && Exclusive(s') && Step(s, th, s') && OwnerLock in Writes(s.threads[th])
    requires Facts(s.tables, s.threads[th]) && LocalView(s.tables, s.threads[th])
    ensures Facts(s'.tables, s'.threads[th])
    ensures Follows(Abstract(s), Commit(s.tables, s.threads[th], s'.threads[th]), Abstract(s'))
  {
    AbstractOfWriter(s, th);
    WriterStep(s.tables, s.threads[th], s'.tables, s'.threads[th]);
    InFlightHoldsOwner(s'.threads[th]);
    if InFlight(s'.threads[th]) {
      AbstractIs(s', th);
    } else {
      assert forall u | u in s'.threads :: !InFlight(s'.threads[u]);
    }
  }

  lemma UndoKeepsBound(s: State)
    ensures Abstract(s).bound == s.tables.bound
  {
  }

  lemma BystanderRefines(s: State, th: ThreadId, s': State)
    requires Exclusive(s) && Exclusive(s') && Step(s, th, s') && OwnerLock !in Writes(s.threads[th])
    requires Facts(s.tables, s.threads[th])
    ensures Facts(s'.tables, s'.threads[th])
    ensures Follows(Abstract(s), Commit(s.tables, s.threads[th], s'.threads[th]), Abstract(s'))
  {
    BystanderStep(s.tables, s.threads[th], s'.tables, s'.threads[th]);
    UndoKeepsBound(s);
    var e := Commit(s.tables, s.threads[th], s'.threads[th]);
    if u :| u in s.threads && InFlight(s.threads[u]) {
      assert u != th && s'.threads[u] == s.threads[u];
      AbstractIs(s, u);
      AbstractIs(s', u);
      if e.Some? {
        CreateCommutesWithUndo(s.tables, s.threads[u], e.value.t);
      }
    } else {
      assert forall u | u in s'.threads :: !InFlight(s'.threads[u]);
    }
  }

  lemma InvLocally(n: nat, s: State, th: ThreadId)
    requires Inv(n, s) && th in s.threads && OwnerLock in Writes(s.threads[th])
    ensures LocalView(s.tables, s.threads[th])
  {
    AbstractOfWriter(s, th);
    ConsistentLocally(n, s.tables, s.threads[th]);
  }

  lemma StepFollows(s: State, th: ThreadId, s': State)
    requires Exclusive(s) && Step(s, th, s')
    requires forall u | u in s.threads :: Facts(s.tables, s.threads[u])
    requires OwnerLock in Writes(s.threads[th]) ==> LocalView(s.tables, s.threads[th])
    ensures Exclusive(s')
    ensures forall u | u in s'.threads :: Facts(s'.tables, s'.threads[u])
    ensures Follows(Abstract(s), Commit(s.tables, s.threads[th], s'.threads[th]), Abstract(s'))
  {
    StepExclusive(s, th, s');
    OthersKeepFacts(s, th, s');
    if OwnerLock in Writes(s.threads[th]) {
      WriterRefines(s, th, s');
    } else {
      BystanderRefines(s, th, s');
    }
  }

  lemma FollowsKeepsConsistent(n: nat, tb: Tables, e: Option<Event>, tb': Tables)
    requires Consistent(n, tb) && Follows(tb, e, tb')
    ensures Consistent(n, tb')
  {
    if e.Some? {
      DoKeepsConsistent(n, tb, e.value);
    }
  }

  /**
   Linearizability, one step: each step of the interleaved program keeps the invariant and is, on the
   atomic tables, either nothing or one legal event.
   */
  lemma StepRefines(n: nat, s: State, th: ThreadId, s': State)
    requires Inv(n, s) && Step(s, th, s')
    ensures Inv(n, s')
    ensures Follows(Abstract(s), Commit(s.tables, s.threads[th], s'.threads[th]), Abstract(s'))
  {
    if OwnerLock in Writes(s.threads[th]) {
      InvLocally(n, s, th);
    }
    StepFollows(s, th, s');
    FollowsKeepsConsistent(n, Abstract(s), Commit(s.tables, s.threads[th], s'.threads[th]), Abstract(s'));
  }
}
