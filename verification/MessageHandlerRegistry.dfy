/** The handler registry as the program keeps it: tables changed in place, with an explicit rollback list. */
module MessageHandlerRegistry {
  import opened Common
  import opened HandlerTables

  /** The process-wide statics: the pool of free extern-fn ids and the id-to-transport map. */
  class HandlerStatics {
    const numFns: nat
    var freeIds: set<HandlerId>
    var owner: map<HandlerId, TransportId>

    /** One insertion per generated extern fn. */
    constructor (n: nat)
      ensures numFns == n && freeIds == IdsBelow(n) && owner == map[]
    {
      numFns := n;
      freeIds := {};
      owner := map[];
      new;
      for i := 0 to n
        invariant freeIds == IdsBelow(i) && owner == map[]
        modifies this`freeIds
      {
        freeIds := freeIds + {i as HandlerId};
      }
    }

    method FindAvailable() returns (r: Result<HandlerId, UCode>)
      modifies this`freeIds
      ensures r.Err? <==> old(freeIds) == {}
      ensures r.Err? ==> r.error == RESOURCE_EXHAUSTED && freeIds == old(freeIds)
      ensures r.Ok? ==> r.value in old(freeIds) && freeIds == old(freeIds) - {r.value}
    {
      if freeIds == {} {
        return Err(RESOURCE_EXHAUSTED);
      }
      // The iteration order of a hash set is unspecified: any member may come first.
      var id :| id in freeIds;
      freeIds := freeIds - {id};
      return Ok(id);
    }

    method FreeId(id: HandlerId) returns (r: Status)
      modifies this`freeIds
      ensures r.Ok? && freeIds == old(freeIds) + {id}
    {
      freeIds := freeIds + {id};
      r := Ok(Unit);
    }

    method InsertTransport(id: HandlerId, t: TransportId) returns (r: Status)
      modifies this`owner
      ensures r.Ok? <==> id !in old(owner)
      ensures owner == if r.Ok? then old(owner)[id := t] else old(owner)
      ensures r.Err? ==> r.error == ALREADY_EXISTS
    {
      if id in owner {
        return Err(ALREADY_EXISTS);
      }
      owner := owner[id := t];
      r := Ok(Unit);
    }

    method RemoveTransport(id: HandlerId) returns (r: Status)
      modifies this`owner
      ensures r.Ok? <==> id in old(owner)
      ensures owner == old(owner) - {id}
      ensures r.Err? ==> r.error == NOT_FOUND
    {
      if id !in owner {
        assert owner - {id} == owner;
        return Err(NOT_FOUND);
      }
      owner := owner - {id};
      r := Ok(Unit);
    }

    /** First lookup of the dispatcher. */
    method TransportOf(id: HandlerId) returns (t: Option<TransportId>)
      ensures t == if id in owner then Some(owner[id]) else None
    {
      t := if id in owner then Some(owner[id]) else None;
    }
  }

  /** What a failing `GetMessageHandler` has to take back, oldest step first. */
  datatype RollbackStep = GiveBackId | ForgetTransport

  class InMemoryMessageHandlerRegistry {
    var bound: Bindings

    constructor ()
      ensures bound == map[]
    {
      bound := map[];
    }

    /** The tables this registry works on. */
    ghost function View(statics: HandlerStatics): Slice
      reads this, statics
    {
      Slice(statics.freeIds, statics.owner, bound)
    }

    method InsertBinding(id: HandlerId, config: ListenerConfig) returns (r: Result<Unit, GetError>)
      modifies this
      ensures r.Ok? <==> id !in old(bound) && !Stored(old(bound), config)
      ensures bound == if r.Ok? then old(bound)[id := config] else old(bound)
      ensures r.Err? ==> r.error == if id in old(bound) then ListenerIdAlreadyExists(id)
              else ListenerConfigAlreadyExists(id)
    {
      var holders := set i | i in bound && bound[i] == config;
      assert holders == {} <==> !Stored(bound, config) by {
        if Stored(bound, config) {
          assert IdOf(bound, config) in holders;
        }
      }
      if id !in bound && holders == {} {
        bound := bound[id := config];
        return Ok(Unit);
      }
      if id in bound {
        return Err(ListenerIdAlreadyExists(id));
      }
      return Err(ListenerConfigAlreadyExists(id));
    }

    method RemoveBinding(id: HandlerId) returns (r: Status)
      modifies this
      ensures r.Ok? <==> id in old(bound)
      ensures bound == old(bound) - {id}
      ensures r.Err? ==> r.error == NOT_FOUND
    {
      r := if id in bound then Ok(Unit) else Err(NOT_FOUND);
      bound := bound - {id};
    }

    /** The lookup from a configuration to its id. */
    method IdFor(config: ListenerConfig) returns (r: Option<HandlerId>)
      requires Injective(bound)
      ensures r.Some? <==> Stored(bound, config)
      ensures r.Some? ==> r.value == IdOf(bound, config)
    {
      var holders := set i | i in bound && bound[i] == config;
      assert holders == {} <==> !Stored(bound, config) by {
        if Stored(bound, config) {
          assert IdOf(bound, config) in holders;
        }
      }
      if holders == {} {
        return None;
      }
      var id :| id in holders;
      return Some(id);
    }

    /** Runs the recorded steps in the order they were pushed. */
    method RollBack(statics: HandlerStatics, id: HandlerId, steps: seq<RollbackStep>) returns (ghost warnings: int)
      modifies statics`freeIds, statics`owner
      ensures statics.freeIds == if GiveBackId in steps then old(statics.freeIds) + {id} else old(statics.freeIds)
      ensures statics.owner == if ForgetTransport in steps then old(statics.owner) - {id} else old(statics.owner)
      ensures steps == [GiveBackId] || (steps == [GiveBackId, ForgetTransport] && id in old(statics.owner))
              ==> warnings == 0
    {
      warnings := 0;
      for i := 0 to |steps|
        invariant statics.freeIds == if GiveBackId in steps[..i] then old(statics.freeIds) + {id}
                  else old(statics.freeIds)
        invariant statics.owner == if ForgetTransport in steps[..i] then old(statics.owner) - {id}
                  else old(statics.owner)
        invariant steps == [GiveBackId] || (steps == [GiveBackId, ForgetTransport] && id in old(statics.owner))
                  ==> warnings == 0
      {
        assert steps[..i + 1] == steps[..i] + [steps[i]];
        match steps[i] {
          case GiveBackId =>
            var freed := statics.FreeId(id);
            if freed.Err? { warnings := warnings + 1; }
          case ForgetTransport =>
            var forgotten := statics.RemoveTransport(id);
            if forgotten.Err? { warnings := warnings + 1; }
        }
      }
      assert steps[..|steps|] == steps;
    }

    /**
     The allocation transaction. From any state whatever, a failing call leaves all three tables as
     they were, and a successful one hands out a free id and records it in both maps.
     */
    method GetMessageHandler(statics: HandlerStatics, me: TransportId, config: ListenerConfig) returns (r: GetResult)
      modifies this, statics`freeIds, statics`owner
      ensures Allowed(old(View(statics)), Get(config, r))
      ensures View(statics) == Apply(old(View(statics)), me, Get(config, r))
      ensures r.Err? ==> View(statics) == old(View(statics))
    {
      var available := statics.FindAvailable();
      if available.Err? {
        return Err(OtherError(RESOURCE_EXHAUSTED));
      }
      var id := available.value;
      var rollbackSteps := [GiveBackId];

      var inserted := statics.InsertTransport(id, me);
      if inserted.Err? {
        ghost var _ := RollBack(statics, id, rollbackSteps);
        assert statics.freeIds == old(statics.freeIds);
        return Err(OtherError(inserted.error));
      }
      rollbackSteps := rollbackSteps + [ForgetTransport];

      var bindingRes := InsertBinding(id, config);
      if bindingRes.Err? {
        ghost var warnings := RollBack(statics, id, rollbackSteps);
        assert warnings == 0;
        assert statics.freeIds == old(statics.freeIds);
        assert statics.owner == old(statics.owner);
        return Err(bindingRes.error);
      }
      return Ok(id);
    }

    /** Gives a handler back. The result also counts the warnings the three removals would log. */
    method ReleaseMessageHandler(statics: HandlerStatics, ghost me: TransportId, config: ListenerConfig)
      returns (r: Status, warnings: int)
      requires Injective(bound)
      modifies this, statics`freeIds, statics`owner
      ensures View(statics) == Apply(old(View(statics)), me, Release(config))
      ensures Injective(bound)
      ensures r == if Stored(old(bound), config) then Ok(Unit) else Err(NOT_FOUND)
      ensures SliceConsistent(me, old(View(statics))) ==> warnings == 0
    {
      warnings := 0;
      var found := IdFor(config);
      if found.None? {
        return Err(NOT_FOUND), 0;
      }
      var id := found.value;
      var freed := statics.FreeId(id);
      if freed.Err? { warnings := warnings + 1; }
      var forgotten := statics.RemoveTransport(id);
      if forgotten.Err? { warnings := warnings + 1; }
      var unbound := RemoveBinding(id);
      if unbound.Err? { warnings := warnings + 1; }
      return Ok(Unit), warnings;
    }

    /** The allocated ids of this transport, in no particular order. */
    method GetMessageHandlerIds() returns (ids: seq<HandlerId>)
      ensures forall id :: id in ids <==> id in bound
      ensures forall i, j | 0 <= i < j < |ids| :: ids[i] != ids[j]
    {
      ids := [];
      var rest := bound.Keys;
      while rest != {}
        invariant rest <= bound.Keys
        invariant forall id :: id in ids <==> id in bound && id !in rest
        invariant forall i, j | 0 <= i < j < |ids| :: ids[i] != ids[j]
        decreases |rest|
      {
        var id :| id in rest;
        rest := rest - {id};
        ids := ids + [id];
      }
    }

    /** Every stored configuration, once, in no particular order. */
    method GetAllListenerConfigs() returns (configs: seq<ListenerConfig>)
      requires Injective(bound)
      ensures forall config :: config in configs <==> Stored(bound, config)
      ensures forall i, j | 0 <= i < j < |configs| :: configs[i] != configs[j]
    {
      var ids := GetMessageHandlerIds();
      configs := [];
      for i := 0 to |ids|
        invariant |configs| == i
        invariant forall j | 0 <= j < i :: ids[j] in bound && configs[j] == bound[ids[j]]
      {
        if ids[i] in bound {
          configs := configs + [bound[ids[i]]];
        }
      }
      forall config | Stored(bound, config)
        ensures config in configs
      {
        var id := IdOf(bound, config);
        assert id in ids;
      }
    }

    /** Second lookup of the dispatcher. */
    method ListenerFor(id: HandlerId) returns (listener: Option<ListenerId>)
      ensures listener == if id in bound then Some(bound[id].listener) else None
    {
      listener := if id in bound then Some(bound[id].listener) else None;
    }
  }
}
