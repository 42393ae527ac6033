/** What the transport's operations achieve together. */
module TransportProperties {
  import opened Common
  import opened Uris
  import opened HandlerTables
  import opened Transport

  predicate Distinct<T(==)>(xs: seq<T>) {
    forall i, j | 0 <= i < j < |xs| :: xs[i] != xs[j]
  }

  /** Distinct services get distinct filters, and only they do. */
  lemma DistinctServices(authority: string, services: seq<ServiceConfig>, listener: ListenerId)
    ensures Distinct(services) <==> Distinct(ServiceListeners(authority, services, listener))
  {
    var configs := ServiceListeners(authority, services, listener);
    forall i, j | 0 <= i < j < |services|
      ensures services[i] != services[j] <==> configs[i] != configs[j]
    {
      JoinInjective(services[i].instance, services[i].service, services[j].instance, services[j].service);
    }
  }

  // ---------------------------------------------------------------- one process, many transports

  /** Whatever a transport does, the process-wide allocator invariant holds afterwards. */
  lemma TransportsShareOneAllocator(n: nat, events: seq<Event>, t: TransportId, ops: seq<Op>, post: Slice)
    requires LegalRun(n, events) && t in After(n, events).bound
    requires Ran(After(n, events).Of(t), t, ops, post)
    ensures Consistent(n, After(n, events).With(t, post))
    ensures LegalRun(n, events + Acts(t, ops)) && After(n, events + Acts(t, ops)) == After(n, events).With(t, post)
  {
    ActsRefine(n, events, t, ops);
    ConsistentAlways(n, events + Acts(t, ops));
  }

  /** Drop, seen by the process: the ids return to the pool, and every other transport keeps its own. */
  lemma DropSeenByTheProcess(n: nat, events: seq<Event>, t: TransportId, ops: seq<Op>, post: Slice, u: TransportId,
                             id: HandlerId)
    requires LegalRun(n, events) && t in After(n, events).bound && u in After(n, events).bound && u != t
    requires Ran(After(n, events).Of(t), t, ops, post)
    requires var pre := After(n, events).Of(t);
             post == Slice(pre.free + pre.bound.Keys, pre.owner - pre.bound.Keys, map[])
    ensures var (before, after) := (After(n, events), After(n, events + Acts(t, ops)));
            && t in after.bound && u in after.bound && after.bound[t] == map[] && after.bound[u] == before.bound[u]
            && (id in before.bound[t] ==> id in after.free && id !in after.owner)
            && (id in before.bound[u] ==> id in after.owner && after.owner[id] == u && id !in after.free)
            && |after.free| == |before.free| + |before.bound[t]|
  {
    TransportsShareOneAllocator(n, events, t, ops, post);
    ConsistentAlways(n, events);
    var (before, after) := (After(n, events), After(n, events).With(t, post));
    assert Agree(before.owner, t, before.bound[t]);
    assert Agree(after.owner, u, after.bound[u]);
    assert before.free !! before.bound[t].Keys;
    assert |before.free + before.bound[t].Keys| == |before.free| + |before.bound[t].Keys|;
  }

  // ---------------------------------------------------------------- point-to-point

  ghost function OwnedBy(me: TransportId, ids: set<HandlerId>): map<HandlerId, TransportId> {
    map id | id in ids :: me
  }

  /** The tables of me after some free ids were bound. */
  ghost predicate AddedBy(pre: Slice, me: TransportId, extra: Bindings, post: Slice) {
    && extra.Keys <= pre.free && extra.Keys !! pre.owner.Keys && extra.Keys !! pre.bound.Keys
    && post == Slice(pre.free - extra.Keys, pre.owner + OwnedBy(me, extra.Keys), pre.bound + extra)
  }

  lemma OwnersGrow(owner: map<HandlerId, TransportId>, me: TransportId, ids: set<HandlerId>, id: HandlerId)
    ensures (owner + OwnedBy(me, ids))[id := me] == owner + OwnedBy(me, ids + {id})
  {
  }

  lemma BoundGrows(bound: Bindings, extra: Bindings, id: HandlerId, config: ListenerConfig)
    ensures (bound + extra)[id := config] == bound + extra[id := config]
  {
  }

  lemma AddOneMore(pre: Slice, me: TransportId, extra: Bindings, mid: Slice, config: ListenerConfig, id: HandlerId)
    requires AddedBy(pre, me, extra, mid) && Allowed(mid, Get(config, Ok(id)))
    ensures id !in extra && AddedBy(pre, me, extra[id := config], Apply(mid, me, Get(config, Ok(id))))
  {
    var all: Bindings := extra[id := config];
    assert all.Keys == extra.Keys + {id};
    assert mid.free - {id} == pre.free - all.Keys;
    OwnersGrow(pre.owner, me, extra.Keys, id);
    BoundGrows(pre.bound, extra, id, config);
  }

  lemma AddNothing(pre: Slice, me: TransportId)
    ensures AddedBy(pre, me, map[], pre)
  {
    assert pre.owner + OwnedBy(me, {}) == pre.owner;
    assert pre.bound + map[] == pre.bound;
  }

  /** Taking back exactly what was added restores all three tables. */
  lemma RemoveAdded(pre: Slice, me: TransportId, extra: Bindings, post: Slice)
    requires AddedBy(pre, me, extra, post)
    ensures Without(post, extra.Keys) == pre
  {
    assert post.free + extra.Keys == pre.free;
    assert post.owner - extra.Keys == pre.owner;
    assert post.bound - extra.Keys == pre.bound;
  }

  lemma StoredInUnion(bound: Bindings, extra: Bindings, config: ListenerConfig)
    requires bound.Keys !! extra.Keys
    ensures Stored(bound + extra, config) <==> Stored(bound, config) || Stored(extra, config)
  {
    var all: Bindings := bound + extra;
    if Stored(bound, config) {
      assert all[IdOf(bound, config)] == config;
    }
    if Stored(extra, config) {
      assert all[IdOf(extra, config)] == config;
    }
    if Stored(all, config) {
      var id := IdOf(all, config);
      assert id in bound || id in extra;
    }
  }

  lemma StoredAfterInsert(bound: Bindings, id: HandlerId, config: ListenerConfig, c: ListenerConfig)
    requires id !in bound
    ensures Stored(bound[id := config], c) <==> Stored(bound, c) || c == config
  {
    var updated: Bindings := bound[id := config];
    assert updated[id] == config;
    if Stored(bound, c) {
      assert updated[IdOf(bound, c)] == c;
    }
  }

  /** The bindings of a list of configurations, all of them new. */
  ghost predicate Lists(bound: Bindings, extra: Bindings, configs: seq<ListenerConfig>) {
    && |extra| == |configs| && Distinct(configs)
    && (forall config :: config in configs <==> Stored(extra, config))
    && (forall config | config in configs :: !Stored(bound, config))
  }

  lemma ListOneMore(bound: Bindings, extra: Bindings, configs: seq<ListenerConfig>, config: ListenerConfig,
                    id: HandlerId)
    requires Lists(bound, extra, configs) && id !in extra
    requires !Stored(bound, config) && !Stored(extra, config)
    ensures Lists(bound, extra[id := config], configs + [config])
  {
    forall c
      ensures c in configs + [config] <==> Stored(extra[id := config], c)
    {
      StoredAfterInsert(extra, id, config, c);
    }
  }

  lemma ListPrefix(bound: Bindings, extra: Bindings, configs: seq<ListenerConfig>, n: nat, id: HandlerId)
    requires n < |configs| && Lists(bound, extra, configs[..n]) && id !in extra
    requires !Stored(bound, configs[n]) && !Stored(extra, configs[n])
    ensures Lists(bound, extra[id := configs[n]], configs[..n + 1])
  {
    ListOneMore(bound, extra, configs[..n], configs[n], id);
    assert configs[..n] + [configs[n]] == configs[..n + 1];
  }

  lemma NewToBoth(pre: Slice, me: TransportId, before: Bindings, mid: Slice, config: ListenerConfig)
    requires AddedBy(pre, me, before, mid) && !Stored(mid.bound, config)
    ensures !Stored(pre.bound, config) && !Stored(before, config)
  {
    StoredInUnion(pre.bound, before, config);
  }

  /** What the successful gets of a registration loop add. */
  lemma {:induction false} GetsRegister(pre: Slice, me: TransportId, configs: seq<ListenerConfig>,
                                        ids: seq<HandlerId>, post: Slice)
    returns (extra: Bindings)
    requires |ids| <= |configs| && Ran(pre, me, Gets(configs, ids), post)
    ensures AddedBy(pre, me, extra, post) && Lists(pre.bound, extra, configs[..|ids|])
  {
    if ids == [] {
      extra := map[];
      AddNothing(pre, me);
    } else {
      var n := |ids| - 1;
      var front, last, config := ids[..n], ids[n], configs[n];
      var ops := Gets(configs, front);
      ApplySnoc(pre, me, ops, Get(config, Ok(last)));
      var mid := ApplyAll(pre, me, ops);
      var before := GetsRegister(pre, me, configs, front, mid);
      AddOneMore(pre, me, before, mid, config, last);
      NewToBoth(pre, me, before, mid, config);
      ListPrefix(pre.bound, before, configs, n, last);
      extra := before[last := config];
    }
  }

  lemma FewerFree(pre: Slice, me: TransportId, extra: Bindings, post: Slice)
    requires AddedBy(pre, me, extra, post)
    ensures |post.free| == |pre.free| - |extra|
  {
    assert |pre.free - extra.Keys| == |pre.free| - |extra.Keys|;
    assert |extra.Keys| == |extra|;
  }

  lemma RefusalHasAReason(pre: Slice, me: TransportId, configs: seq<ListenerConfig>, replies: nat -> Status, base: nat,
                          ops: seq<Op>, ids: seq<HandlerId>, post: Slice)
    requires SliceConsistent(me, pre)
    requires Ran(pre, me, ops, post) && ops != [] && RefusedAt(configs, replies, base, ops, ids)
    ensures || !Distinct(configs)
            || (exists config :: config in configs && Stored(pre.bound, config))
            || |configs| > |pre.free|
            || (exists i :: base <= i < base + |configs| && !Succeeds(replies, i))
  {
    var front, last := ops[..|ops| - 1], ops[|ops| - 1];
    if last.result.Err? {
      var mid := ApplyAll(pre, me, front);
      ApplyAllKeepsSlice(pre, me, front);
      var extra := GetsRegister(pre, me, configs, ids, mid);
      FewerFree(pre, me, extra, mid);
      GetFailsExactly(mid, me, last.config, last.result);
      StoredInUnion(pre.bound, extra, last.config);
      if |configs| <= |pre.free| {
        assert last.config in configs;
        assert Stored(pre.bound, last.config) || last.config in configs[..|ids|];
      }
    } else {
      assert !Succeeds(replies, base + |ids| - 1);
    }
  }

  /**
   When the registration loop succeeds: exactly if the filters are distinct and none is stored yet, the
   pool holds an id for each, and the engine acknowledges every registration.
   */
  lemma RegistrationSucceedsExactly(pre: Slice, me: TransportId, configs: seq<ListenerConfig>,
                                    replies: nat -> Status, base: nat,
                                    r: Status, ops: seq<Op>, ids: seq<HandlerId>, post: Slice)
    requires SliceConsistent(me, pre)
    requires Ran(pre, me, ops, post) && LoopOutcome(configs, replies, base, r, ops, ids)
    ensures r.Ok? <==> && Distinct(configs)
                       && (forall config | config in configs :: !Stored(pre.bound, config))
                       && |configs| <= |pre.free|
                       && Acked(replies, base, base + |configs|)
  {
    if r.Ok? {
      var extra := GetsRegister(pre, me, configs, ids, post);
      assert configs[..|ids|] == configs;
      FewerFree(pre, me, extra, post);
    } else {
      RefusalHasAReason(pre, me, configs, replies, base, ops, ids, post);
    }
  }

  lemma {:induction false} AllAcknowledged(configs: seq<ListenerConfig>, replies: nat -> Status, base: nat)
    requires forall i | base <= i < base + |configs| :: Succeeds(replies, i)
    ensures Acknowledged(configs, replies, base) == configs
  {
    if configs != [] {
      var n := |configs| - 1;
      AllAcknowledged(configs[..n], replies, base);
      assert Succeeds(replies, base + n);
      assert configs == configs[..n] + [configs[n]];
    }
  }

  lemma {:induction false} AcknowledgedWithin(configs: seq<ListenerConfig>, replies: nat -> Status, base: nat)
    ensures forall config | config in Acknowledged(configs, replies, base) :: config in configs
  {
    if configs != [] {
      AcknowledgedWithin(configs[..|configs| - 1], replies, base);
    }
  }

  lemma {:induction false} NotAcknowledged(configs: seq<ListenerConfig>, replies: nat -> Status, base: nat, k: nat)
    requires Distinct(configs) && k < |configs| && !Succeeds(replies, base + k)
    ensures configs[k] !in Acknowledged(configs, replies, base)
  {
    var n := |configs| - 1;
    if k < n {
      NotAcknowledged(configs[..n], replies, base, k);
    } else {
      AcknowledgedWithin(configs[..n], replies, base);
    }
  }

  lemma {:induction false} GetsKeepInjective(pre: Slice, me: TransportId, post: Slice, configs: seq<ListenerConfig>,
                                             ids: seq<HandlerId>)
    requires Injective(pre.bound) && |ids| <= |configs| && Ran(pre, me, Gets(configs, ids), post)
    ensures Injective(post.bound)
    decreases |ids|
  {
    if ids != [] {
      var n := |ids| - 1;
      ApplySnoc(pre, me, Gets(configs, ids[..n]), Get(configs[n], Ok(ids[n])));
      GetsKeepInjective(pre, me, ApplyAll(pre, me, Gets(configs, ids[..n])), configs, ids[..n]);
    }
  }

  /** Of ids that are bound, exactly the added ones must go to have everything as before. */
  lemma WithoutAdded(pre: Slice, me: TransportId, extra: Bindings, post: Slice, gone: set<HandlerId>)
    requires AddedBy(pre, me, extra, post) && gone <= post.bound.Keys
    ensures Without(post, gone) == pre <==> gone == extra.Keys
  {
    if gone == extra.Keys {
      RemoveAdded(pre, me, extra, post);
    }
    if Without(post, gone) == pre {
      assert (post.bound - gone).Keys == post.bound.Keys - gone;
      assert post.bound.Keys == pre.bound.Keys + extra.Keys;
      assert gone == extra.Keys;
    }
  }

  /** What was registered has been released, and nothing else that is stored. */
  ghost predicate TakesBackExactly(bound: Bindings, registered: seq<ListenerConfig>, released: seq<ListenerConfig>) {
    && (forall config | config in registered :: config in released)
    && (forall config | config in released :: !Stored(bound, config))
  }

  lemma StoredGoes(pre: Slice, me: TransportId, extra: Bindings, post: Slice, released: seq<ListenerConfig>,
                   config: ListenerConfig)
    requires AddedBy(pre, me, extra, post) && config in released
    ensures Stored(pre.bound, config) ==> IdOf(pre.bound, config) in IdsOf(post.bound, released)
  {
  }

  lemma AddedIdsGone(pre: Slice, me: TransportId, extra: Bindings, post: Slice, registered: seq<ListenerConfig>,
                     released: seq<ListenerConfig>)
    requires AddedBy(pre, me, extra, post) && Lists(pre.bound, extra, registered)
    requires IdsOf(post.bound, released) == extra.Keys
    ensures TakesBackExactly(pre.bound, registered, released)
  {
    forall config | config in registered
      ensures config in released
    {
      assert IdOf(extra, config) in IdsOf(post.bound, released);
    }
    forall config | config in released
      ensures !Stored(pre.bound, config)
    {
      StoredGoes(pre, me, extra, post, released, config);
    }
  }

  lemma AddedIdsTaken(pre: Slice, me: TransportId, extra: Bindings, post: Slice, registered: seq<ListenerConfig>,
                      released: seq<ListenerConfig>)
    requires AddedBy(pre, me, extra, post) && Lists(pre.bound, extra, registered)
    requires TakesBackExactly(pre.bound, registered, released)
    ensures IdsOf(post.bound, released) == extra.Keys
  {
    forall id | id in post.bound
      ensures post.bound[id] in released <==> id in extra
    {
      if id in extra {
        assert Stored(extra, post.bound[id]);
      } else {
        assert Stored(pre.bound, post.bound[id]);
      }
    }
  }

  /**
   Cleaning up after a registration that may have stopped anywhere: releasing some configurations restores
   all three tables exactly if they include each one registered and none that was stored before. So a
   clean-up after a clash also takes away a binding that the registration never made.
   */
  lemma CleanUpRestoresExactly(pre: Slice, me: TransportId, configs: seq<ListenerConfig>, ids: seq<HandlerId>,
                               mid: Slice, released: seq<ListenerConfig>)
    requires Injective(pre.bound)
    requires |ids| <= |configs| && Ran(pre, me, Gets(configs, ids), mid)
    ensures ApplyAll(mid, me, Releases(released)) == pre
            <==> TakesBackExactly(pre.bound, configs[..|ids|], released)
  {
    var extra := GetsRegister(pre, me, configs, ids, mid);
    GetsKeepInjective(pre, me, mid, configs, ids);
    ReleaseSome(mid, me, released);
    WithoutAdded(pre, me, extra, mid, IdsOf(mid.bound, released));
    if IdsOf(mid.bound, released) == extra.Keys {
      AddedIdsGone(pre, me, extra, mid, configs[..|ids|], released);
    }
    if TakesBackExactly(pre.bound, configs[..|ids|], released) {
      AddedIdsTaken(pre, me, extra, mid, configs[..|ids|], released);
    }
  }

  /** Whatever the registration loop came to, its tables are those of the gets that succeeded. */
  lemma OutcomeIsGets(pre: Slice, me: TransportId, configs: seq<ListenerConfig>, replies: nat -> Status, base: nat,
                      r: Status, ops: seq<Op>, ids: seq<HandlerId>, mid: Slice)
    requires Ran(pre, me, ops, mid) && LoopOutcome(configs, replies, base, r, ops, ids)
    ensures |ids| <= |configs| && Ran(pre, me, Gets(configs, ids), mid)
  {
    if r.Err? {
      var front, last := ops[..|ops| - 1], ops[|ops| - 1];
      assert ops == front + [last];
      if last.result.Ok? {
        assert ops == Gets(configs, ids);
      }
    }
  }

  /**
   The clean-up of a point-to-point registration: whatever the registration came to, the unregistration loop
   restores all three tables exactly if every service registered is acknowledged as unregistered, and none
   that is acknowledged was stored before.
   */
  lemma CleanUpAfterAnyOutcome(pre: Slice, me: TransportId, configs: seq<ListenerConfig>, replies: nat -> Status,
                               base: nat, r: Status, ops: seq<Op>, ids: seq<HandlerId>, mid: Slice, base': nat)
    requires Injective(pre.bound)
    requires Ran(pre, me, ops, mid) && LoopOutcome(configs, replies, base, r, ops, ids)
    ensures |ids| <= |configs|
    ensures ApplyAll(mid, me, Releases(Acknowledged(configs, replies, base'))) == pre
            <==> TakesBackExactly(pre.bound, configs[..|ids|], Acknowledged(configs, replies, base'))
  {
    OutcomeIsGets(pre, me, configs, replies, base, r, ops, ids, mid);
    CleanUpRestoresExactly(pre, me, configs, ids, mid, Acknowledged(configs, replies, base'));
  }

  /** Of distinct configurations, all are acknowledged exactly if every command is. */
  lemma AllAcknowledgedExactly(configs: seq<ListenerConfig>, replies: nat -> Status, base: nat)
    requires Distinct(configs)
    ensures (forall config | config in configs :: config in Acknowledged(configs, replies, base))
            <==> Acked(replies, base, base + |configs|)
  {
    if i :| base <= i < base + |configs| && !Succeeds(replies, i) {
      NotAcknowledged(configs, replies, base, i - base);
      assert configs[i - base] in configs;
    } else {
      AllAcknowledged(configs, replies, base);
    }
  }

  lemma AllNew(pre: Slice, me: TransportId, configs: seq<ListenerConfig>, ids: seq<HandlerId>, mid: Slice)
    requires |ids| == |configs| && Ran(pre, me, Gets(configs, ids), mid)
    ensures Distinct(configs) && forall config | config in configs :: !Stored(pre.bound, config)
  {
    var extra := GetsRegister(pre, me, configs, ids, mid);
    assert configs[..|ids|] == configs;
  }

  /**
   Point-to-point round trip: after a complete registration, the unregistration loop restores all three
   tables exactly if the engine acknowledges every unregistration.
   */
  lemma PointToPointRoundTrip(pre: Slice, me: TransportId, configs: seq<ListenerConfig>, ids: seq<HandlerId>,
                              mid: Slice, replies: nat -> Status, base: nat)
    requires Injective(pre.bound)
    requires |ids| == |configs| && Ran(pre, me, Gets(configs, ids), mid)
    ensures ApplyAll(mid, me, Releases(Acknowledged(configs, replies, base))) == pre
            <==> Acked(replies, base, base + |configs|)
  {
    AllNew(pre, me, configs, ids, mid);
    assert configs[..|ids|] == configs;
    CleanUpRestoresExactly(pre, me, configs, ids, mid, Acknowledged(configs, replies, base));
    AllAcknowledgedExactly(configs, replies, base);
    AcknowledgedWithin(configs, replies, base);
  }

  // ---------------------------------------------------------------- implicit response registration

  /** The calls made by sending requests whose responses need the given configurations. */
  ghost function Attempts(configs: seq<ListenerConfig>, results: seq<GetResult>): (ops: seq<Op>)
    requires |results| == |configs|
    ensures |ops| == |configs|
  {
    if configs == [] then []
    else
      var n := |configs| - 1;
      Attempts(configs[..n], results[..n]) + [Get(configs[n], results[n])]
  }

  /** How many handlers were handed out, each followed by one registration at the engine. */
  function Granted(results: seq<GetResult>): nat {
    if results == [] then 0
    else Granted(results[..|results| - 1]) + if results[|results| - 1].Ok? then 1 else 0
  }

  ghost function New(bound: Bindings, configs: seq<ListenerConfig>): set<ListenerConfig> {
    set config | config in configs && !Stored(bound, config)
  }

  /** The outcome of sending a number of requests: one id per new configuration, and nothing refused. */
  ghost predicate OneEach(pre: Slice, configs: seq<ListenerConfig>, results: seq<GetResult>, post: Slice)
    requires |results| == |configs|
  {
    && Granted(results) == |New(pre.bound, configs)|
    && |post.free| == |pre.free| - |New(pre.bound, configs)|
    && (forall config :: Stored(post.bound, config) <==> Stored(pre.bound, config) || config in configs)
    && (forall i | 0 <= i < |results| ::
          if Stored(pre.bound, configs[i]) || configs[i] in configs[..i]
          then results[i].Err? && results[i].error.ListenerConfigAlreadyExists?
          else results[i].Ok?)
  }

  predicate Refused(result: GetResult) {
    result.Err? && !result.error.ListenerConfigAlreadyExists?
  }

  /** No handler was refused, other than because it had been handed out before. */
  predicate NoneRefused(results: seq<GetResult>) {
    forall i | 0 <= i < |results| :: !Refused(results[i])
  }

  /** The pool still holds an id when the last of the requests is sent. */
  ghost predicate PoolLasts(pre: Slice, configs: seq<ListenerConfig>) {
    configs == [] || |New(pre.bound, configs[..|configs| - 1])| < |pre.free|
  }

  lemma NewGrows(bound: Bindings, front: seq<ListenerConfig>, config: ListenerConfig)
    ensures New(bound, front + [config]) == New(bound, front) + if Stored(bound, config) then {} else {config}
    ensures |New(bound, front + [config])|
            == |New(bound, front)| + if Stored(bound, config) || config in front then 0 else 1
    ensures |New(bound, front)| <= |New(bound, front + [config])|
  {
    assert New(bound, front + [config]) == New(bound, front) + if Stored(bound, config) then {} else {config};
  }

  lemma OneMoreRequest(pre: Slice, me: TransportId, front: seq<ListenerConfig>, results: seq<GetResult>, mid: Slice,
                       config: ListenerConfig, result: GetResult)
    requires |results| == |front| && OneEach(pre, front, results, mid)
    requires SliceConsistent(me, mid) && Allowed(mid, Get(config, result)) && !Refused(result)
    ensures OneEach(pre, front + [config], results + [result], Apply(mid, me, Get(config, result)))
  {
    var configs, results' := front + [config], results + [result];
    var post := Apply(mid, me, Get(config, result));
    NewGrows(pre.bound, front, config);
    GetFailsExactly(mid, me, config, result);
    assert results'[..|results|] == results;
    forall c
      ensures Stored(post.bound, c) <==> Stored(pre.bound, c) || c in configs
    {
      if result.Ok? {
        StoredAfterInsert(mid.bound, result.value, config, c);
      }
    }
    forall i | 0 <= i < |results'|
      ensures if Stored(pre.bound, configs[i]) || configs[i] in configs[..i]
              then results'[i].Err? && results'[i].error.ListenerConfigAlreadyExists?
              else results'[i].Ok?
    {
      if i < |results| {
        assert configs[..i] == front[..i];
      } else {
        assert configs[..i] == front;
      }
    }
  }

  lemma RefusedExactly(mid: Slice, me: TransportId, config: ListenerConfig, result: GetResult)
    requires SliceConsistent(me, mid) && Allowed(mid, Get(config, result))
    ensures Refused(result) <==> |mid.free| == 0
  {
    GetFailsExactly(mid, me, config, result);
  }

  lemma PoolLastsLonger(pre: Slice, front: seq<ListenerConfig>, config: ListenerConfig)
    requires PoolLasts(pre, front + [config])
    ensures PoolLasts(pre, front) && |New(pre.bound, front)| < |pre.free|
  {
    assert (front + [config])[..|front|] == front;
    if front != [] {
      assert front == front[..|front| - 1] + [front[|front| - 1]];
      NewGrows(pre.bound, front[..|front| - 1], front[|front| - 1]);
    }
  }

  lemma NoneRefusedSnoc(results: seq<GetResult>, result: GetResult)
    ensures NoneRefused(results + [result]) <==> NoneRefused(results) && !Refused(result)
  {
    assert (results + [result])[..|results|] == results;
    if NoneRefused(results + [result]) {
      forall i | 0 <= i < |results|
        ensures !Refused(results[i])
      {
        assert !Refused((results + [result])[i]);
      }
      assert !Refused((results + [result])[|results|]);
    }
  }

  lemma OneMoreAttempt(pre: Slice, me: TransportId, front: seq<ListenerConfig>, results: seq<GetResult>, mid: Slice,
                       config: ListenerConfig, result: GetResult)
    requires |results| == |front| && SliceConsistent(me, mid) && Allowed(mid, Get(config, result))
    requires NoneRefused(results) <==> PoolLasts(pre, front)
    requires NoneRefused(results) ==> OneEach(pre, front, results, mid)
    ensures NoneRefused(results + [result]) <==> PoolLasts(pre, front + [config])
    ensures NoneRefused(results + [result]) ==>
              OneEach(pre, front + [config], results + [result], Apply(mid, me, Get(config, result)))
  {
    RefusedExactly(mid, me, config, result);
    NoneRefusedSnoc(results, result);
    assert (front + [config])[..|front|] == front;
    if PoolLasts(pre, front + [config]) {
      PoolLastsLonger(pre, front, config);
    }
    if NoneRefused(results + [result]) {
      OneMoreRequest(pre, me, front, results, mid, config, result);
    }
  }

  lemma LastAttempt(pre: Slice, me: TransportId, configs: seq<ListenerConfig>, results: seq<GetResult>, post: Slice)
    returns (mid: Slice)
    requires SliceConsistent(me, pre) && |results| == |configs| > 0
    requires Ran(pre, me, Attempts(configs, results), post)
    ensures var n := |configs| - 1;
            && SliceConsistent(me, mid) && Ran(pre, me, Attempts(configs[..n], results[..n]), mid)
            && Allowed(mid, Get(configs[n], results[n])) && post == Apply(mid, me, Get(configs[n], results[n]))
  {
    var n := |configs| - 1;
    var ops := Attempts(configs[..n], results[..n]);
    ApplySnoc(pre, me, ops, Get(configs[n], results[n]));
    ApplyAllKeepsSlice(pre, me, ops);
    mid := ApplyAll(pre, me, ops);
  }

  /**
   Implicit registration is idempotent: a sequence of requests takes one id per configuration not stored
   before, however often it recurs, and none is refused; and that is so exactly if the pool still holds an
   id when the last request is sent, be it a repetition or not.
   */
  lemma {:induction false} ImplicitRegistrationIdempotent(pre: Slice, me: TransportId, configs: seq<ListenerConfig>,
                                                          results: seq<GetResult>, post: Slice)
    requires SliceConsistent(me, pre) && |results| == |configs|
    requires Ran(pre, me, Attempts(configs, results), post)
    ensures NoneRefused(results) <==> PoolLasts(pre, configs)
    ensures NoneRefused(results) ==> OneEach(pre, configs, results, post)
  {
    if configs == [] {
      assert New(pre.bound, configs) == {};
    } else {
      var n := |configs| - 1;
      var mid := LastAttempt(pre, me, configs, results, post);
      ImplicitRegistrationIdempotent(pre, me, configs[..n], results[..n], mid);
      OneMoreAttempt(pre, me, configs[..n], results[..n], mid, configs[n], results[n]);
      assert configs == configs[..n] + [configs[n]] && results == results[..n] + [results[n]];
    }
  }

  /** With the pool empty, even a repeated request is refused: the id is taken before the duplicate is noticed. */
  lemma EmptyPoolRefusesRepeats(pre: Slice, me: TransportId, config: ListenerConfig, result: GetResult)
    requires SliceConsistent(me, pre) && Allowed(pre, Get(config, result)) && Stored(pre.bound, config)
    ensures pre.free == {} <==> result == Err(OtherError(RESOURCE_EXHAUSTED))
    ensures pre.free != {} <==> result.Err? && result.error.ListenerConfigAlreadyExists?
  {
    GetFailsExactly(pre, me, config, result);
  }
}
