/** The two-phase dispatch of callbacks in interleaved runs. */
module LockDispatch {
  import opened HandlerTables
  import opened LockModel
  import opened LockProperties
  import opened LockTheorems
  import opened LockOperations

  /** While somebody reads the transport map, no transaction is half done. */
  lemma ReaderSeesRest(s: State, th: ThreadId)
    requires Exclusive(s) && th in s.threads && OwnerLock in Reads(s.threads[th])
    ensures Abstract(s) == s.tables
  {
    forall u | u in s.threads
      ensures !InFlight(s.threads[u])
    {
      InFlightHoldsOwner(s.threads[u]);
    }
  }

  lemma OwnersBind(n: nat, tb: Tables, id: HandlerId)
    requires Consistent(n, tb) && id in tb.owner
    ensures tb.owner[id] in tb.bound && id in tb.bound[tb.owner[id]]
  {
    var t := tb.owner[id];
    assert t in tb.owner.Values;
    assert Agree(tb.owner, t, tb.bound[t]);
  }

  lemma StepFirstLookup(n: nat, s: State, th: ThreadId, s': State, id: HandlerId)
    requires Inv(n, s) && Step(s, th, s') && s.threads[th] == DispatchReadsOwner(id)
    ensures s'.threads[th].DispatchWantsBind? <==> id in Abstract(s).owner
    ensures s'.threads[th].DispatchWantsBind? ==>
              var t := s'.threads[th].t;
              s'.threads[th].id == id && t in s.tables.bound && id in s.tables.bound[t]
  {
    ReaderSeesRest(s, th);
    if id in s.tables.owner {
      OwnersBind(n, s.tables, id);
    }
  }

  lemma StepSecondLookup(n: nat, s: State, th: ThreadId, s': State, id: HandlerId, t: TransportId)
    requires Inv(n, s) && Step(s, th, s') && s.threads[th] == DispatchReadsBind(id, t)
    ensures s'.threads[th].DispatchCalls? <==> id in Abstract(s).owner && Abstract(s).owner[id] == t
    ensures s'.threads[th].DispatchCalls? ==>
              && t in Abstract(s).bound && id in Abstract(s).bound[t]
              && s'.threads[th] == DispatchCalls(id, t, Abstract(s).bound[t][id].listener)
              && forall u | u in Abstract(s).bound && u != t :: id !in Abstract(s).bound[u]
  {
    UndoKeepsBound(s);
    var tb := Abstract(s);
    if t in tb.bound {
      assert Agree(tb.owner, t, tb.bound[t]);
      forall u | u in tb.bound && u != t && id in tb.bound[t]
        ensures id !in tb.bound[u]
      {
        assert Agree(tb.owner, u, tb.bound[u]);
      }
    } else if id in tb.owner {
      OwnersBind(n, tb, id);
    }
  }

  /** The first lookup of a callback finds the transport that binds the id at that moment, or nobody does. */
  lemma FirstLookup(n: nat, states: seq<State>, ths: seq<ThreadId>, i: nat, id: HandlerId)
    requires IsRun(n, states, ths) && i < |ths| && StageOf(states[i], ths[i]) == DispatchReadsOwner(id)
    ensures var (s, stage') := (states[i], StageOf(states[i + 1], ths[i]));
            && (stage'.DispatchWantsBind? <==> id in Abstract(s).owner)
            && (stage'.DispatchWantsBind? ==>
                stage'.id == id && stage'.t in s.tables.bound && id in s.tables.bound[stage'.t])
  {
    InvAlways(n, states, ths, i);
    StepFirstLookup(n, states[i], ths[i], states[i + 1], id);
  }

  /** What a lookup of id in the bijection of t comes to: t's own listener, exactly if t owns the id. */
  ghost predicate Reached(tb: Tables, id: HandlerId, t: TransportId, stage: Stage) {
    if id in tb.owner && tb.owner[id] == t then
      && t in tb.bound && id in tb.bound[t]
      && stage == DispatchCalls(id, t, tb.bound[t][id].listener)
      && forall u | u in tb.bound && u != t :: id !in tb.bound[u]
    else
      stage == Idle
  }

  lemma SecondLookup(n: nat, states: seq<State>, ths: seq<ThreadId>, j: nat, id: HandlerId, t: TransportId)
    requires IsRun(n, states, ths) && j < |ths| && StageOf(states[j], ths[j]) == DispatchReadsBind(id, t)
    ensures Reached(Abstract(states[j]), id, t, StageOf(states[j + 1], ths[j]))
  {
    InvAlways(n, states, ths, j);
    StepSecondLookup(n, states[j], ths[j], states[j + 1], id, t);
  }

  /** Where the stages of a callback come from. */
  lemma CallbackStep(tb: Tables, stage: Stage, tb': Tables, stage': Stage)
    requires Effect(tb, stage, tb', stage')
    ensures stage'.DispatchWantsOwner? ==> stage == Idle
    ensures stage'.DispatchReadsOwner? ==> stage == DispatchWantsOwner(stage'.id)
    ensures stage'.DispatchWantsBind? ==>
              stage == DispatchReadsOwner(stage'.id) && stage'.id in tb.owner && tb.owner[stage'.id] == stage'.t
    ensures stage'.DispatchReadsBind? ==> stage == DispatchWantsBind(stage'.id, stage'.t)
    ensures stage'.DispatchCalls? ==> stage == DispatchReadsBind(stage'.id, stage'.t)
  {
  }

  lemma CallbackStepAt(n: nat, states: seq<State>, ths: seq<ThreadId>, k: nat)
    requires IsRun(n, states, ths) && k < |ths|
    ensures var (owner, stage, stage') := (states[k].tables.owner, StageOf(states[k], ths[k]),
            StageOf(states[k + 1], ths[k]));
            && (stage'.DispatchWantsOwner? ==> stage == Idle)
            && (stage'.DispatchReadsOwner? ==> stage == DispatchWantsOwner(stage'.id))
            && (stage'.DispatchWantsBind? ==>
                stage == DispatchReadsOwner(stage'.id) && stage'.id in owner && owner[stage'.id] == stage'.t)
            && (stage'.DispatchReadsBind? ==> stage == DispatchWantsBind(stage'.id, stage'.t))
            && (stage'.DispatchCalls? ==> stage == DispatchReadsBind(stage'.id, stage'.t))
  {
    assert Step(states[k], ths[k], states[k + 1]);
    CallbackStep(states[k].tables, StageOf(states[k], ths[k]), states[k + 1].tables, StageOf(states[k + 1], ths[k]));
  }

  lemma FirstLookupFinds(n: nat, states: seq<State>, ths: seq<ThreadId>, i: nat, id: HandlerId)
    requires IsRun(n, states, ths) && i < |ths| && StageOf(states[i], ths[i]) == DispatchReadsOwner(id)
    ensures Abstract(states[i]).owner == states[i].tables.owner
    ensures StageOf(states[i + 1], ths[i])
            == if id in states[i].tables.owner then DispatchWantsBind(id, states[i].tables.owner[id]) else Idle
  {
    InvAlways(n, states, ths, i);
    ReaderSeesRest(states[i], ths[i]);
  }

  /** A callback for id that found t. */
  predicate Searching(stage: Stage, id: HandlerId, t: TransportId) {
    || stage == DispatchWantsBind(id, t) || stage == DispatchReadsBind(id, t)
    || (stage.DispatchCalls? && stage.id == id && stage.t == t)
  }

  lemma SearchStep(tb: Tables, stage: Stage, tb': Tables, stage': Stage, id: HandlerId, t: TransportId)
    requires Effect(tb, stage, tb', stage') && Searching(stage, id, t) && stage' != Idle
    ensures Searching(stage', id, t)
  {
  }

  lemma SearchStepAt(n: nat, states: seq<State>, ths: seq<ThreadId>, k: nat, id: HandlerId, t: TransportId)
    requires IsRun(n, states, ths) && k < |ths|
    requires Searching(StageOf(states[k], ths[k]), id, t) && StageOf(states[k + 1], ths[k]) != Idle
    ensures Searching(StageOf(states[k + 1], ths[k]), id, t)
  {
    assert Step(states[k], ths[k], states[k + 1]);
    var stage, stage' := StageOf(states[k], ths[k]), StageOf(states[k + 1], ths[k]);
    SearchStep(states[k].tables, stage, states[k + 1].tables, stage', id, t);
  }

  /** After its first lookup a callback keeps the id it is for and the transport it found. */
  lemma {:induction false} LookupKept(n: nat, states: seq<State>, ths: seq<ThreadId>, th: ThreadId, i: nat, m: nat,
                                      id: HandlerId)
    requires IsRun(n, states, ths) && i < m <= |ths| && ths[i] == th
    requires StageOf(states[i], th) == DispatchReadsOwner(id)
    requires forall k | i < k <= m :: StageOf(states[k], th) != Idle
    ensures id in Abstract(states[i]).owner
    ensures Searching(StageOf(states[m], th), id, Abstract(states[i]).owner[id])
    decreases m
  {
    var k := m - 1;
    if k == i {
      FirstLookupFinds(n, states, ths, i, id);
    } else {
      LookupKept(n, states, ths, th, i, k, id);
      if ths[k] == th {
        SearchStepAt(n, states, ths, k, id, Abstract(states[i]).owner[id]);
      } else {
        OthersStay(n, states, ths, k, th);
      }
    }
  }

  /**
   Dispatch isolation: take a callback that makes its first lookup at step i and its second at step j. The
   first found the transport t that owned the id then, and the second asks that very transport. It reaches a
   listener exactly if t owns the id at the second lookup, and then it is the listener t has bound to the id
   there. If the id was meanwhile released, or allocated to another transport, no listener is called.
   */
  lemma DispatchIsolation(n: nat, states: seq<State>, ths: seq<ThreadId>, th: ThreadId, i: nat, j: nat, id: HandlerId)
    requires IsRun(n, states, ths) && i < j < |ths| && ths[i] == ths[j] == th
    requires StageOf(states[i], th) == DispatchReadsOwner(id) && StageOf(states[j], th).DispatchReadsBind?
    requires forall k | i < k <= j :: StageOf(states[k], th) != Idle
    ensures id in Abstract(states[i]).owner
    ensures var t := Abstract(states[i]).owner[id];
            StageOf(states[j], th) == DispatchReadsBind(id, t)
                && Reached(Abstract(states[j]), id, t, StageOf(states[j + 1], th))
  {
    LookupKept(n, states, ths, th, i, j, id);
    SecondLookup(n, states, ths, j, id, Abstract(states[i]).owner[id]);
  }

  /** Where a callback got what it knows: the steps at which it began and made its lookups. */
  ghost predicate Traced(states: seq<State>, ths: seq<ThreadId>, th: ThreadId, m: nat, b: nat, i: nat, j: nat)
    requires |states| == |ths| + 1 && m <= |ths|
  {
    var stage := StageOf(states[m], th);
    && (stage.DispatchWantsOwner? || stage.DispatchReadsOwner? || stage.DispatchWantsBind? || stage.DispatchReadsBind?
        || stage.DispatchCalls? ==>
        && b < m && ths[b] == th && StageOf(states[b], th) == Idle
           && StageOf(states[b + 1], th) == DispatchWantsOwner(stage.id)
        && forall k | b < k <= m :: StageOf(states[k], th) != Idle)
    && (stage.DispatchWantsBind? || stage.DispatchReadsBind? || stage.DispatchCalls? ==>
        && b < i < m && ths[i] == th && StageOf(states[i], th) == DispatchReadsOwner(stage.id)
        && stage.id in states[i].tables.owner && states[i].tables.owner[stage.id] == stage.t)
    && (stage.DispatchCalls? ==>
        && i < j < m && ths[j] == th && StageOf(states[j], th) == DispatchReadsBind(stage.id, stage.t)
        && StageOf(states[j + 1], th) == stage)
  }

  lemma TracedStep(n: nat, states: seq<State>, ths: seq<ThreadId>, k: nat, b: nat, i: nat, j: nat)
    requires IsRun(n, states, ths) && k < |ths| && Traced(states, ths, ths[k], k, b, i, j)
    ensures var stage := StageOf(states[k], ths[k]);
            Traced(states, ths, ths[k], k + 1, if stage == Idle then k else b,
                   if stage.DispatchReadsOwner? then k else i, if stage.DispatchReadsBind? then k else j)
  {
    CallbackStepAt(n, states, ths, k);
  }

  lemma {:induction false} TracedBack(n: nat, states: seq<State>, ths: seq<ThreadId>, th: ThreadId, m: nat)
    returns (b: nat, i: nat, j: nat)
    requires IsRun(n, states, ths) && m <= |ths|
    ensures Traced(states, ths, th, m, b, i, j)
  {
    if m == 0 {
      b, i, j := 0, 0, 0;
    } else {
      var k := m - 1;
      b, i, j := TracedBack(n, states, ths, th, k);
      if ths[k] != th {
        OthersStay(n, states, ths, k, th);
      } else {
        TracedStep(n, states, ths, k, b, i, j);
        var stage := StageOf(states[k], th);
        b := if stage == Idle then k else b;
        i := if stage.DispatchReadsOwner? then k else i;
        j := if stage.DispatchReadsBind? then k else j;
      }
    }
  }

  /**
   No listener is called but by such a dispatch: whenever a listener is about to be called for id, the
   callback was for id, some transport t owned id at its first lookup and owned it at its second, and
   there t had bound the listener to id.
   */
  lemma CallsAreDispatched(n: nat, states: seq<State>, ths: seq<ThreadId>, th: ThreadId, m: nat)
    returns (b: nat, i: nat, j: nat)
    requires IsRun(n, states, ths) && m <= |ths| && StageOf(states[m], th).DispatchCalls?
    ensures var stage := StageOf(states[m], th);
            && b < i < j < m && ths[b] == ths[i] == ths[j] == th
            && StageOf(states[b + 1], th) == DispatchWantsOwner(stage.id)
            && StageOf(states[i], th) == DispatchReadsOwner(stage.id)
            && StageOf(states[j], th) == DispatchReadsBind(stage.id, stage.t)
            && (forall k | b < k <= m :: StageOf(states[k], th) != Idle)
            && stage.id in Abstract(states[i]).owner && Abstract(states[i]).owner[stage.id] == stage.t
            && stage.id in Abstract(states[j]).owner && Abstract(states[j]).owner[stage.id] == stage.t
            && stage.t in Abstract(states[j]).bound && stage.id in Abstract(states[j]).bound[stage.t]
            && Abstract(states[j]).bound[stage.t][stage.id].listener == stage.listener
  {
    b, i, j := TracedBack(n, states, ths, th, m);
    DispatchIsolation(n, states, ths, th, i, j, StageOf(states[m], th).id);
  }
}
