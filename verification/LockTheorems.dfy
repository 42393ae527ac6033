/** Every interleaved run has the outcome of a history of atomic operations, and none gets stuck. */
module LockTheorems {
  import opened Common
  import opened HandlerTables
  import opened LockModel
  import opened LockProperties

  // ---------------------------------------------------------------- whole runs

  /** A run: each state but the first is reached by a step of the thread listed. */
  ghost predicate IsRun(n: nat, states: seq<State>, ths: seq<ThreadId>) {
    && |states| == |ths| + 1
    && Initial(n, states[0])
    && forall i | 0 <= i < |ths| :: Step(states[i], ths[i], states[i + 1])
  }

  /** Where the program counter of a thread is. */
  ghost function StageOf(s: State, th: ThreadId): Stage {
    if th in s.threads then s.threads[th] else Idle
  }

  /** The atomic event, if any, that takes effect at step k. */
  ghost function EventAt(states: seq<State>, ths: seq<ThreadId>, k: nat): Option<Event>
    requires |states| == |ths| + 1 && k < |ths|
  {
    Commit(states[k].tables, StageOf(states[k], ths[k]), StageOf(states[k + 1], ths[k]))
  }

  /** The atomic events of the steps from p up to q, in the order in which they took effect. */
  ghost function Events(states: seq<State>, ths: seq<ThreadId>, p: nat, q: nat): seq<Event>
    requires |states| == |ths| + 1 && p <= q <= |ths|
    decreases q - p
  {
    if p == q then []
    else
      match EventAt(states, ths, q - 1)
      case None => Events(states, ths, p, q - 1)
      case Some(e) => Events(states, ths, p, q - 1) + [e]
  }

  /** The atomic events of a whole run. */
  ghost function Linearization(states: seq<State>, ths: seq<ThreadId>): seq<Event>
    requires |states| == |ths| + 1
  {
    Events(states, ths, 0, |ths|)
  }

  lemma {:induction false} EventsSplit(states: seq<State>, ths: seq<ThreadId>, p: nat, q: nat)
    requires |states| == |ths| + 1 && p <= q <= |ths|
    ensures Events(states, ths, 0, q) == Events(states, ths, 0, p) + Events(states, ths, p, q)
    decreases q - p
  {
    if p < q {
      EventsSplit(states, ths, p, q - 1);
    }
  }

  lemma {:induction false} EventsAre(states: seq<State>, ths: seq<ThreadId>, p: nat, q: nat, e: Event)
    requires |states| == |ths| + 1 && p <= q <= |ths|
    ensures e in Events(states, ths, p, q) <==> exists k: nat :: p <= k < q && EventAt(states, ths, k) == Some(e)
    decreases q - p
  {
    if p < q {
      EventsAre(states, ths, p, q - 1, e);
    }
  }

  lemma InitialInv(n: nat, s: State)
    requires Initial(n, s)
    ensures Inv(n, s) && Abstract(s) == InitialTables(n)
  {
    InitialConsistent(n);
    forall th | th in s.threads
      ensures !InFlight(s.threads[th]) && Facts(s.tables, s.threads[th]) && Writes(s.threads[th]) == {}
    {
      assert s.threads[th] == Idle;
    }
    assert Abstract(s) == s.tables;
  }

  /** Up to any state of a run, the run has the outcome of a legal history of atomic operations. */
  lemma {:induction false} PrefixLinearizes(n: nat, states: seq<State>, ths: seq<ThreadId>, q: nat)
    requires IsRun(n, states, ths) && q <= |ths|
    ensures Inv(n, states[q])
    ensures LegalRun(n, Events(states, ths, 0, q))
    ensures After(n, Events(states, ths, 0, q)) == Abstract(states[q])
  {
    if q == 0 {
      InitialInv(n, states[0]);
    } else {
      var k := q - 1;
      PrefixLinearizes(n, states, ths, k);
      StepRefines(n, states[k], ths[k], states[k + 1]);
      var e := EventAt(states, ths, k);
      if e.Some? {
        RunSnoc(n, Events(states, ths, 0, k), e.value);
      }
    }
  }

  /**
   Every interleaved run has the outcome of a legal history of atomic operations, so whatever holds
   after every atomic history holds of the concurrent program between transactions.
   */
  lemma RunsLinearize(n: nat, states: seq<State>, ths: seq<ThreadId>)
    requires IsRun(n, states, ths)
    ensures Inv(n, states[|ths|])
    ensures LegalRun(n, Linearization(states, ths))
    ensures After(n, Linearization(states, ths)) == Abstract(states[|ths|])
  {
    PrefixLinearizes(n, states, ths, |ths|);
  }

  /** In every run, the tables satisfy the allocator invariant whenever nobody is writing the transport map. */
  lemma AllocatorAtRest(n: nat, states: seq<State>, ths: seq<ThreadId>)
    requires IsRun(n, states, ths)
    requires forall th | th in states[|ths|].threads :: OwnerLock !in Writes(states[|ths|].threads[th])
    ensures Consistent(n, states[|ths|].tables)
    ensures states[|ths|].tables == After(n, Linearization(states, ths))
  {
    RunsLinearize(n, states, ths);
    ConsistentAtRest(n, states[|ths|]);
    forall th | th in states[|ths|].threads
      ensures !InFlight(states[|ths|].threads[th])
    {
      InFlightHoldsOwner(states[|ths|].threads[th]);
    }
  }

  lemma InvAlways(n: nat, states: seq<State>, ths: seq<ThreadId>, i: nat)
    requires IsRun(n, states, ths) && i < |ths|
    ensures Inv(n, states[i]) && Step(states[i], ths[i], states[i + 1])
  {
    PrefixLinearizes(n, states, ths, i);
  }

  // ---------------------------------------------------------------- deadlock and progress

  /** How far down the lock order the wanted lock is. */
  function Level(stage: Stage): nat {
    match Wants(stage)
    case None => 3
    case Some((OwnerLock, _)) => 0
    case Some((FreeLock, _)) => 1
    case Some((BindLock(_), _)) => 2
  }

  /** A thread only waits for a lock that comes after every lock it holds. */
  lemma LocksInOrder(stage: Stage, l: Lock)
    requires l in Writes(stage) || l in Reads(stage)
    ensures Level(stage) > match l case OwnerLock => 0 case FreeLock => 1 case BindLock(_) => 2
  {
  }

  /** Follows the chain of threads waiting for each other; it ends after at most three of them. */
  lemma {:induction false} FindMover(s: State, th: ThreadId) returns (mover: ThreadId)
    requires th in s.threads && s.threads[th] != Idle
    ensures mover in s.threads && s.threads[mover] != Idle && Enabled(s, mover)
    decreases 3 - Level(s.threads[th])
  {
    if Enabled(s, th) {
      mover := th;
    } else {
      var (l, write) := Wants(s.threads[th]).value;
      var u :| u in s.threads && u != th && (l in Writes(s.threads[u]) || (write && l in Reads(s.threads[u])));
      LocksInOrder(s.threads[u], l);
      mover := FindMover(s, u);
    }
  }

  /** An upper bound on the steps an operation has left. */
  function Remaining(stage: Stage): nat {
    match stage
    case Idle => 0
    case NewTransport(_) => 1
    case GetWantsOwner(_, _) => 12
    case GetWantsFree(_, _) => 11
    case GetWantsBind(_, _) => 10
    case GetTakesId(_, _) => 9
    case GetInsertsOwner(_, _, _) => 8
    case GetInsertsBinding(_, _, _) => 7
    case RollsBackId(_, _, _, _, _) => 6
    case RollsBackOwner(_, _, _, _) => 5
    case ReleaseWantsOwner(_, _) => 12
    case ReleaseWantsFree(_, _) => 11
    case ReleaseWantsBind(_, _) => 10
    case ReleaseFinds(_, _) => 9
    case ReleaseFreesId(_, _, _) => 8
    case ReleaseRemovesOwner(_, _, _) => 7
    case ReleaseRemovesBinding(_, _, _) => 6
    case Drops(guards, _) => 1 + |guards|
    case DispatchWantsOwner(_) => 5
    case DispatchReadsOwner(_) => 4
    case DispatchWantsBind(_, _) => 3
    case DispatchReadsBind(_, _) => 2
    case DispatchCalls(_, _, _) => 1
  }

  lemma NextIsCloser(tb: Tables, stage: Stage)
    requires stage != Idle
    ensures Remaining(Next(tb, stage).1) < Remaining(stage)
  {
  }

  lemma NextGetsCloser(tb: Tables, stage: Stage, tb': Tables, stage': Stage)
    requires stage != Idle && Effect(tb, stage, tb', stage')
    ensures Remaining(stage') < Remaining(stage)
  {
    NextIsCloser(tb, stage);
  }

  /** Every operation ends: it begins with at most twelve steps to go and each of its steps leaves fewer. */
  lemma EveryStepCounts(s: State, th: ThreadId, s': State)
    requires Step(s, th, s')
    ensures s.threads[th] == Idle ==> Remaining(s'.threads[th]) <= 12
    ensures s.threads[th] != Idle ==> Remaining(s'.threads[th]) < Remaining(s.threads[th])
  {
    if s.threads[th] != Idle {
      NextGetsCloser(s.tables, s.threads[th], s'.tables, s'.threads[th]);
    }
  }

  /**
   No deadlock: as long as some operation is unfinished, a thread in the middle of an operation can take
   a step, and that step brings the operation closer to its end.
   */
  lemma NoDeadlock(s: State, th: ThreadId)
    requires th in s.threads && s.threads[th] != Idle
    ensures exists mover, s' :: && Step(s, mover, s') && s.threads[mover] != Idle
                                && Remaining(s'.threads[mover]) < Remaining(s.threads[mover])
  {
    var mover := FindMover(s, th);
    var stage := s.threads[mover];
    var (tb', stage') := Next(s.tables, stage);
    if stage.GetTakesId? && s.tables.free != {} {
      var id :| id in s.tables.free;
      tb', stage' := s.tables.(free := s.tables.free - {id}), GetInsertsOwner(stage.t, stage.config, id);
    }
    var s' := State(tb', s.threads[mover := stage']);
    assert Step(s, mover, s');
    NextGetsCloser(s.tables, stage, tb', stage');
  }
}
