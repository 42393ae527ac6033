/**
 The tables behind message handler allocation, as values: the pool of free extern-fn ids, the
 process-wide map from id to transport, and each transport's bijection from ids to listener
 configurations. The operations on them are recorded with their results, so a history is a
 sequence of operations and the tables after it are a fold.
 */
module HandlerTables {
  import opened Common
  import opened Uris

  /** The number of an extern fn. */
  newtype HandlerId = id: int | 0 <= id
  type TransportId = int
  type ListenerId = int

  datatype ListenerConfig = ListenerConfig(source: UUri, sink: Option<UUri>, listener: ListenerId)

  type Bindings = map<HandlerId, ListenerConfig>

  /** What makes `Bindings` a bijection: no configuration has two ids. */
  ghost predicate Injective(bound: Bindings) {
    forall i, j | i in bound && j in bound && bound[i] == bound[j] :: i == j
  }

  ghost predicate Stored(bound: Bindings, config: ListenerConfig) {
    exists id :: id in bound && bound[id] == config
  }

  datatype GetError =
    | ListenerIdAlreadyExists(id: HandlerId)
    | ListenerConfigAlreadyExists(id: HandlerId)
    | OtherError(code: UCode)

  type GetResult = Result<HandlerId, GetError>

  /** The two process-wide tables together with the bijection of one transport. */
  datatype Slice = Slice(free: set<HandlerId>, owner: map<HandlerId, TransportId>, bound: Bindings)

  /** One call on a registry. A `Get` carries the result it produced. */
  datatype Op =
    | Get(config: ListenerConfig, result: GetResult)
    | Release(config: ListenerConfig)

  ghost function IdOf(bound: Bindings, config: ListenerConfig): (id: HandlerId)
    requires Stored(bound, config)
    ensures id in bound && bound[id] == config
  {
    var id :| id in bound && bound[id] == config;
    id
  }

  /** The results a call may produce in a given state; releasing never produces anything else than its lookup. */
  ghost predicate Allowed(pre: Slice, op: Op) {
    match op
    case Release(_) => true
    case Get(config, Ok(id)) =>
      id in pre.free && id !in pre.owner && id !in pre.bound && !Stored(pre.bound, config)
    case Get(config, Err(OtherError(code))) =>
      || (code == RESOURCE_EXHAUSTED && pre.free == {})
      || (code == ALREADY_EXISTS && exists id :: id in pre.free && id in pre.owner)
    case Get(config, Err(ListenerIdAlreadyExists(id))) =>
      id in pre.free && id !in pre.owner && id in pre.bound
    case Get(config, Err(ListenerConfigAlreadyExists(id))) =>
      id in pre.free && id !in pre.owner && id !in pre.bound && Stored(pre.bound, config)
  }

  /** The state a call leaves behind: a failing call leaves no trace. */
  ghost function Apply(pre: Slice, me: TransportId, op: Op): Slice {
    match op
    case Get(config, Ok(id)) =>
      Slice(pre.free - {id}, pre.owner[id := me], pre.bound[id := config])
    case Get(_, Err(_)) => pre
    case Release(config) =>
      if Stored(pre.bound, config) then
        var id := IdOf(pre.bound, config);
        Slice(pre.free + {id}, pre.owner - {id}, pre.bound - {id})
      else pre
  }

  ghost function ApplyAll(pre: Slice, me: TransportId, ops: seq<Op>): Slice {
    if ops == [] then pre
    else Apply(ApplyAll(pre, me, ops[..|ops| - 1]), me, ops[|ops| - 1])
  }

  ghost predicate AllowedAll(pre: Slice, me: TransportId, ops: seq<Op>) {
    ops == [] ||
    (AllowedAll(pre, me, ops[..|ops| - 1])
     && Allowed(ApplyAll(pre, me, ops[..|ops| - 1]), ops[|ops| - 1]))
  }

  /** Running one more call. */
  lemma ApplySnoc(pre: Slice, me: TransportId, ops: seq<Op>, op: Op)
    ensures ApplyAll(pre, me, ops + [op]) == Apply(ApplyAll(pre, me, ops), me, op)
    ensures AllowedAll(pre, me, ops + [op])
            <==> AllowedAll(pre, me, ops) && Allowed(ApplyAll(pre, me, ops), op)
  {
    assert (ops + [op])[..|ops|] == ops;
  }

  lemma {:induction false} ApplyAppend(pre: Slice, me: TransportId, first: seq<Op>, second: seq<Op>)
    ensures ApplyAll(pre, me, first + second) == ApplyAll(ApplyAll(pre, me, first), me, second)
    ensures AllowedAll(pre, me, first + second)
            <==> AllowedAll(pre, me, first) && AllowedAll(ApplyAll(pre, me, first), me, second)
    decreases |second|
  {
    if second == [] {
      assert first + second == first;
    } else {
      var front, last := second[..|second| - 1], second[|second| - 1];
      ApplyAppend(pre, me, first, front);
      assert first + second == (first + front) + [last];
      ApplySnoc(pre, me, first + front, last);
    }
  }

  /** The bijection of a transport holds exactly the ids the process-wide map sends to it. */
  ghost predicate Agree(owner: map<HandlerId, TransportId>, me: TransportId, bound: Bindings) {
    && Injective(bound)
    && (forall id: HandlerId :: id in bound <==> id in owner && owner[id] == me)
  }

  /** What the three tables of one transport look like while the allocator works as intended. */
  ghost predicate SliceConsistent(me: TransportId, slice: Slice) {
    && slice.free !! slice.owner.Keys
    && Agree(slice.owner, me, slice.bound)
  }

  lemma ApplyKeepsSlice(pre: Slice, me: TransportId, op: Op)
    requires SliceConsistent(me, pre) && Allowed(pre, op)
    ensures SliceConsistent(me, Apply(pre, me, op))
  {
  }

  lemma {:induction false} ApplyAllKeepsSlice(pre: Slice, me: TransportId, ops: seq<Op>)
    requires SliceConsistent(me, pre) && AllowedAll(pre, me, ops)
    ensures SliceConsistent(me, ApplyAll(pre, me, ops))
  {
    if ops != [] {
      ApplyAllKeepsSlice(pre, me, ops[..|ops| - 1]);
      ApplyKeepsSlice(ApplyAll(pre, me, ops[..|ops| - 1]), me, ops[|ops| - 1]);
    }
  }

  /** A get followed by the release of the same configuration restores all three tables. */
  lemma GetReleaseRestores(pre: Slice, me: TransportId, config: ListenerConfig, id: HandlerId)
    requires Allowed(pre, Get(config, Ok(id)))
    ensures ApplyAll(pre, me, [Get(config, Ok(id)), Release(config)]) == pre
  {
    var mid := Apply(pre, me, Get(config, Ok(id)));
    assert mid.bound[id] == config;
    assert Stored(mid.bound, config);
    assert IdOf(mid.bound, config) == id;
    assert mid.bound - {id} == pre.bound;
    assert mid.owner - {id} == pre.owner;
    ApplySnoc(pre, me, [], Get(config, Ok(id)));
    ApplySnoc(pre, me, [Get(config, Ok(id))], Release(config));
    assert [Get(config, Ok(id))] + [Release(config)] == [Get(config, Ok(id)), Release(config)];
    assert [] + [Get(config, Ok(id))] == [Get(config, Ok(id))];
  }

  /** While the tables agree, a get fails exactly on an empty pool or on a configuration already bound. */
  lemma GetFailsExactly(pre: Slice, me: TransportId, config: ListenerConfig, result: GetResult)
    requires SliceConsistent(me, pre)
    requires Allowed(pre, Get(config, result))
    ensures result.Err? <==> pre.free == {} || Stored(pre.bound, config)
    ensures result == Err(OtherError(RESOURCE_EXHAUSTED)) <==> pre.free == {}
    ensures result.Err? && pre.free != {} ==> result.error.ListenerConfigAlreadyExists?
    ensures result != Err(OtherError(ALREADY_EXISTS))
    ensures !(result.Err? && result.error.ListenerIdAlreadyExists?)
  {
  }

  /** The whole process: the shared pool and map, and the bijection of every transport created so far. */
  datatype Tables = Tables(
    free: set<HandlerId>,
    owner: map<HandlerId, TransportId>,
    bound: map<TransportId, Bindings>)
  {
    ghost function Of(t: TransportId): Slice
      requires t in bound
    {
      Slice(free, owner, bound[t])
    }

    ghost function With(t: TransportId, slice: Slice): Tables {
      Tables(slice.free, slice.owner, bound[t := slice.bound])
    }
  }

  /** The ids of the n generated extern fns. */
  ghost function IdsBelow(n: nat): (ids: set<HandlerId>)
    ensures |ids| == n
    ensures forall id: HandlerId :: id in ids <==> id as int < n
  {
    if n == 0 then {} else IdsBelow(n - 1) + {(n - 1) as HandlerId}
  }

  ghost function InitialTables(n: nat): Tables {
    Tables(IdsBelow(n), map[], map[])
  }

  /**
   The allocator invariant: the free ids and the ids bound by the transports partition 0..n-1, and
   the id-to-transport map names, for every allocated id and for no other, the one transport binding it.
   */
  ghost predicate Consistent(n: nat, tb: Tables) {
    && tb.free + tb.owner.Keys == IdsBelow(n)
    && tb.free !! tb.owner.Keys
    && tb.owner.Values <= tb.bound.Keys
    && (forall t | t in tb.bound :: Agree(tb.owner, t, tb.bound[t]))
  }

  lemma InitialConsistent(n: nat)
    ensures Consistent(n, InitialTables(n))
  {
  }

  lemma ConsistentSlice(n: nat, tb: Tables, t: TransportId)
    requires Consistent(n, tb) && t in tb.bound
    ensures SliceConsistent(t, tb.Of(t))
  {
  }

  /** Ids are neither lost nor created. */
  lemma IdsConserved(n: nat, tb: Tables)
    requires Consistent(n, tb)
    ensures |tb.free| + |tb.owner| == n
  {
    assert |tb.free + tb.owner.Keys| == |tb.free| + |tb.owner.Keys|;
    assert |tb.owner.Keys| == |tb.owner|;
  }

  /** No id is bound by two transports. */
  lemma BindingsDisjoint(n: nat, tb: Tables, t: TransportId, u: TransportId, id: HandlerId)
    requires Consistent(n, tb) && t in tb.bound && u in tb.bound
    requires id in tb.bound[t] && id in tb.bound[u]
    ensures t == u && id !in tb.free && id as int < n
  {
    assert Agree(tb.owner, t, tb.bound[t]) && Agree(tb.owner, u, tb.bound[u]);
    assert id in tb.free + tb.owner.Keys;
  }

  /** What happens to the process: a transport is created, or a transport performs a call. */
  datatype Event = Create(t: TransportId) | Act(t: TransportId, op: Op)

  ghost predicate Legal(tb: Tables, e: Event) {
    match e
    case Create(t) => t !in tb.bound
    case Act(t, op) => t in tb.bound && Allowed(tb.Of(t), op)
  }

  ghost function Do(tb: Tables, e: Event): Tables {
    match e
    case Create(t) => tb.(bound := tb.bound[t := map[]])
    case Act(t, op) => if t in tb.bound then tb.With(t, Apply(tb.Of(t), t, op)) else tb
  }

  ghost function After(n: nat, events: seq<Event>): Tables {
    if events == [] then InitialTables(n)
    else Do(After(n, events[..|events| - 1]), events[|events| - 1])
  }

  ghost predicate LegalRun(n: nat, events: seq<Event>) {
    events == [] ||
    (LegalRun(n, events[..|events| - 1])
     && Legal(After(n, events[..|events| - 1]), events[|events| - 1]))
  }

  lemma RunSnoc(n: nat, events: seq<Event>, e: Event)
    ensures After(n, events + [e]) == Do(After(n, events), e)
    ensures LegalRun(n, events + [e]) <==> LegalRun(n, events) && Legal(After(n, events), e)
  {
    assert (events + [e])[..|events|] == events;
  }

  lemma InsertAgrees(owner: map<HandlerId, TransportId>, u: TransportId, bound: Bindings, id: HandlerId,
                     t: TransportId, config: ListenerConfig)
    requires Agree(owner, u, bound) && id !in owner && (u == t ==> !Stored(bound, config))
    ensures Agree(owner[id := t], u, if u == t then bound[id := config] else bound)
  {
  }

  lemma RemoveAgrees(owner: map<HandlerId, TransportId>, u: TransportId, bound: Bindings, id: HandlerId, t: TransportId)
    requires Agree(owner, u, bound) && id in owner && owner[id] == t
    ensures Agree(owner - {id}, u, if u == t then bound - {id} else bound)
  {
  }

  lemma OwnersChange(owner: map<HandlerId, TransportId>, id: HandlerId, t: TransportId, known: set<TransportId>)
    requires owner.Values <= known && t in known
    ensures owner[id := t].Values <= known && (owner - {id}).Values <= known
  {
  }

  /** Replacing the slice of one transport keeps the invariant if the new slice agrees with everyone. */
  lemma LiftSlice(n: nat, tb: Tables, t: TransportId, slice: Slice)
    requires t in tb.bound
    requires slice.free + slice.owner.Keys == IdsBelow(n) && slice.free !! slice.owner.Keys
    requires slice.owner.Values <= tb.bound.Keys
    requires forall u | u in tb.bound :: Agree(slice.owner, u, if u == t then slice.bound else tb.bound[u])
    ensures Consistent(n, tb.With(t, slice))
  {
  }

  lemma GetKeepsConsistent(n: nat, tb: Tables, t: TransportId, config: ListenerConfig, id: HandlerId)
    requires Consistent(n, tb) && t in tb.bound
    requires id in tb.free && !Stored(tb.bound[t], config)
    ensures Consistent(n, tb.With(t, Slice(tb.free - {id}, tb.owner[id := t], tb.bound[t][id := config])))
  {
    assert tb.free - {id} + tb.owner[id := t].Keys == tb.free + tb.owner.Keys;
    OwnersChange(tb.owner, id, t, tb.bound.Keys);
    forall u | u in tb.bound
      ensures Agree(tb.owner[id := t], u, if u == t then tb.bound[t][id := config] else tb.bound[u])
    {
      InsertAgrees(tb.owner, u, tb.bound[u], id, t, config);
    }
    LiftSlice(n, tb, t, Slice(tb.free - {id}, tb.owner[id := t], tb.bound[t][id := config]));
  }

  lemma ReleaseKeepsConsistent(n: nat, tb: Tables, t: TransportId, config: ListenerConfig)
    requires Consistent(n, tb) && t in tb.bound && Stored(tb.bound[t], config)
    ensures Consistent(n, tb.With(t, Apply(tb.Of(t), t, Release(config))))
  {
    var id := IdOf(tb.bound[t], config);
    assert Agree(tb.owner, t, tb.bound[t]);
    var slice := Slice(tb.free + {id}, tb.owner - {id}, tb.bound[t] - {id});
    assert slice.free + slice.owner.Keys == tb.free + tb.owner.Keys;
    OwnersChange(tb.owner, id, t, tb.bound.Keys);
    forall u | u in tb.bound
      ensures Agree(slice.owner, u, if u == t then slice.bound else tb.bound[u])
    {
      RemoveAgrees(tb.owner, u, tb.bound[u], id, t);
    }
    LiftSlice(n, tb, t, slice);
  }

  lemma DoKeepsConsistent(n: nat, tb: Tables, e: Event)
    requires Consistent(n, tb) && Legal(tb, e)
    ensures Consistent(n, Do(tb, e))
  {
    match e
    case Create(t) =>
    case Act(t, Get(config, Ok(id))) => GetKeepsConsistent(n, tb, t, config, id);
    case Act(t, Get(config, Err(_))) => assert Do(tb, e).bound == tb.bound;
    case Act(t, Release(config)) =>
      if Stored(tb.bound[t], config) {
        ReleaseKeepsConsistent(n, tb, t, config);
      } else {
        assert Do(tb, e).bound == tb.bound;
      }
  }

  /** The allocator invariant holds after every history of any number of transports. */
  lemma {:induction false} ConsistentAlways(n: nat, events: seq<Event>)
    requires LegalRun(n, events)
    ensures Consistent(n, After(n, events))
  {
    if events != [] {
      ConsistentAlways(n, events[..|events| - 1]);
      DoKeepsConsistent(n, After(n, events[..|events| - 1]), events[|events| - 1]);
    }
  }

  /**
   After every history, a get by any transport fails exactly on an empty pool or a duplicate, never
   otherwise, and the id it hands out is one for which there is an extern fn.
   */
  lemma DeadErrorBranches(n: nat, events: seq<Event>, t: TransportId, config: ListenerConfig, result: GetResult)
    requires LegalRun(n, events)
    requires Legal(After(n, events), Act(t, Get(config, result)))
    ensures var tb := After(n, events);
            && (result.Ok? <==> tb.free != {} && !Stored(tb.bound[t], config))
            && (result == Err(OtherError(RESOURCE_EXHAUSTED)) <==> tb.free == {})
            && (result.Err? ==>
                result.error.ListenerConfigAlreadyExists? || result.error == OtherError(RESOURCE_EXHAUSTED))
    ensures result.Ok? ==> result.value as int < n
  {
    ConsistentAlways(n, events);
    assert result.Ok? ==> result.value in After(n, events).free + After(n, events).owner.Keys;
    ConsistentSlice(n, After(n, events), t);
    GetFailsExactly(After(n, events).Of(t), t, config, result);
  }

  /** A transport's calls never touch the bindings of another one, nor the ownership of its ids. */
  lemma OthersUntouched(n: nat, tb: Tables, t: TransportId, op: Op, u: TransportId)
    requires Consistent(n, tb)
    requires Legal(tb, Act(t, op)) && u in tb.bound && u != t
    ensures Do(tb, Act(t, op)).bound[u] == tb.bound[u]
    ensures forall id | id in tb.bound[u] ::
              id in Do(tb, Act(t, op)).owner && Do(tb, Act(t, op)).owner[id] == u && id !in Do(tb, Act(t, op)).free
  {
    DoKeepsConsistent(n, tb, Act(t, op));
    var post := Do(tb, Act(t, op));
    assert Agree(post.owner, u, post.bound[u]);
  }

  /** The events of one transport performing a sequence of calls. */
  ghost function Acts(t: TransportId, ops: seq<Op>): seq<Event> {
    if ops == [] then [] else Acts(t, ops[..|ops| - 1]) + [Act(t, ops[|ops| - 1])]
  }

  /** A sequence of calls seen by one transport is a piece of the history of the process. */
  lemma {:induction false} ActsRefine(n: nat, events: seq<Event>, t: TransportId, ops: seq<Op>)
    requires LegalRun(n, events) && t in After(n, events).bound
    requires AllowedAll(After(n, events).Of(t), t, ops)
    ensures LegalRun(n, events + Acts(t, ops))
    ensures var tb := After(n, events);
            After(n, events + Acts(t, ops)) == tb.With(t, ApplyAll(tb.Of(t), t, ops))
  {
    var tb := After(n, events);
    if ops == [] {
      assert events + Acts(t, ops) == events;
      assert tb.bound[t := tb.bound[t]] == tb.bound;
    } else {
      var front, last := ops[..|ops| - 1], ops[|ops| - 1];
      ActsRefine(n, events, t, front);
      assert events + Acts(t, ops) == (events + Acts(t, front)) + [Act(t, last)];
      RunSnoc(n, events + Acts(t, front), Act(t, last));
      var mid := tb.With(t, ApplyAll(tb.Of(t), t, front));
      assert mid.Of(t) == ApplyAll(tb.Of(t), t, front);
    }
  }

  // ---------------------------------------------------------------- giving up a transport

  lemma OneMoreKept(before: Tables, mid: Tables, front: seq<Event>, last: Event, t: TransportId)
    requires t in before.bound && t in mid.bound && Injective(mid.bound[t]) && Legal(mid, last)
    requires last.Act? && last.t == t ==> last.op.Release?
    requires forall id :: id in mid.bound[t] <==>
             id in before.bound[t] && Act(t, Release(before.bound[t][id])) !in front
    requires forall id | id in mid.bound[t] :: mid.bound[t][id] == before.bound[t][id]
    ensures var after := Do(mid, last);
            && t in after.bound
            && (forall id :: id in after.bound[t]
                  <==> id in before.bound[t] && Act(t, Release(before.bound[t][id])) !in front + [last])
            && (forall id | id in after.bound[t] :: after.bound[t][id] == before.bound[t][id])
  {
    var after := Do(mid, last);
    if last.Act? && last.t == t {
      assert forall id | id in mid.bound[t] && id !in after.bound[t] :: mid.bound[t][id] == last.op.config;
    } else {
      assert after.bound[t] == mid.bound[t];
    }
  }

  /** While t only releases, whatever the others do in between, t keeps exactly the bindings it has not released. */
  lemma {:induction false} KeptUnlessReleased(n: nat, events: seq<Event>, more: seq<Event>, t: TransportId)
    requires LegalRun(n, events + more) && t in After(n, events).bound
    requires forall e | e in more && e.Act? && e.t == t :: e.op.Release?
    ensures LegalRun(n, events)
    ensures var (before, after) := (After(n, events), After(n, events + more));
            && t in after.bound
            && (forall id :: id in after.bound[t]
                  <==> id in before.bound[t] && Act(t, Release(before.bound[t][id])) !in more)
            && (forall id | id in after.bound[t] :: after.bound[t][id] == before.bound[t][id])
    decreases |more|
  {
    if more == [] {
      assert events + more == events;
    } else {
      var front, last := more[..|more| - 1], more[|more| - 1];
      assert more == front + [last] && events + more == (events + front) + [last];
      RunSnoc(n, events + front, last);
      KeptUnlessReleased(n, events, front, t);
      ConsistentAlways(n, events + front);
      OneMoreKept(After(n, events), After(n, events + front), front, last, t);
    }
  }

  /**
   Giving up a transport while others go on: once t has released every configuration it had, and taken no
   new one, it binds nothing, no id is owned by it, and every id is still free or owned by one of the others.
   */
  lemma DropAmidOthers(n: nat, events: seq<Event>, more: seq<Event>, t: TransportId)
    requires LegalRun(n, events + more) && t in After(n, events).bound
    requires forall e | e in more && e.Act? && e.t == t :: e.op.Release?
    requires forall id | id in After(n, events).bound[t] :: Act(t, Release(After(n, events).bound[t][id])) in more
    ensures var after := After(n, events + more);
            && t in after.bound && after.bound[t] == map[]
            && (forall id | id in after.owner :: after.owner[id] != t)
            && |after.free| + |after.owner| == n
  {
    KeptUnlessReleased(n, events, more, t);
    ConsistentAlways(n, events + more);
    IdsConserved(n, After(n, events + more));
    assert Agree(After(n, events + more).owner, t, After(n, events + more).bound[t]);
  }
}
