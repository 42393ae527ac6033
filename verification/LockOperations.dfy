/** Whole operations of a thread within an interleaved run: each get and each release, and Drop. */
module LockOperations {
  import opened Common
  import opened HandlerTables
  import opened LockModel
  import opened LockProperties
  import opened LockTheorems

  // ---------------------------------------------------------------- single steps

  /** The answer an operation is committed to giving. */
  function Decided(stage: Stage): Option<Answer> {
    match stage
    case RollsBackId(_, _, _, _, e) => Some(GetAnswer(Err(e)))
    case RollsBackOwner(_, _, _, e) => Some(GetAnswer(Err(e)))
    case Drops(_, answer) => Some(answer)
    case _ => None
  }

  ghost predicate Answers(e: Event, tb: Tables, answer: Answer) {
    match (e, answer)
    case (Act(_, Get(_, r)), GetAnswer(given)) => given == r
    case (Act(t, Release(c)), ReleaseAnswer(status)) =>
      t in tb.bound && status == if Stored(tb.bound[t], c) then Ok(Unit) else Err(NOT_FOUND)
    case _ => false
  }

  lemma StageAnswers(tb: Tables, stage: Stage, tb': Tables, stage': Stage)
    requires Facts(tb, stage) && Effect(tb, stage, tb', stage')
    requires var e := Commit(tb, stage, stage'); e.Some? && e.value.Act?
    requires Decided(stage').Some?
    ensures Answers(Commit(tb, stage, stage').value, tb, Decided(stage').value)
  {
    if stage.ReleaseRemovesBinding? {
      assert Stored(tb.bound[stage.t], stage.config);
    }
  }

  /** What a thread was called to do. */
  datatype Task = GetTask(t: TransportId, config: ListenerConfig) | ReleaseTask(t: TransportId, config: ListenerConfig)

  function Begin(task: Task): Stage {
    match task
    case GetTask(t, c) => GetWantsOwner(t, c)
    case ReleaseTask(t, c) => ReleaseWantsOwner(t, c)
  }

  /** The task of a thread that has not yet decided on its answer. */
  function TaskOf(stage: Stage): Option<Task> {
    match stage
    case GetWantsOwner(t, c) => Some(GetTask(t, c))
    case GetWantsFree(t, c) => Some(GetTask(t, c))
    case GetWantsBind(t, c) => Some(GetTask(t, c))
    case GetTakesId(t, c) => Some(GetTask(t, c))
    case GetInsertsOwner(t, c, _) => Some(GetTask(t, c))
    case GetInsertsBinding(t, c, _) => Some(GetTask(t, c))
    case ReleaseWantsOwner(t, c) => Some(ReleaseTask(t, c))
    case ReleaseWantsFree(t, c) => Some(ReleaseTask(t, c))
    case ReleaseWantsBind(t, c) => Some(ReleaseTask(t, c))
    case ReleaseFinds(t, c) => Some(ReleaseTask(t, c))
    case ReleaseFreesId(t, c, _) => Some(ReleaseTask(t, c))
    case ReleaseRemovesOwner(t, c, _) => Some(ReleaseTask(t, c))
    case ReleaseRemovesBinding(t, c, _) => Some(ReleaseTask(t, c))
    case _ => None
  }

  /** The event is the task done, with that answer. */
  predicate Fulfils(e: Event, task: Task, answer: Answer) {
    match (task, answer)
    case (GetTask(t, c), GetAnswer(r)) => e == Act(t, Get(c, r))
    case (ReleaseTask(t, c), ReleaseAnswer(_)) => e == Act(t, Release(c))
    case _ => false
  }

  /** A step of a task leaves it as it is, or fulfils it; in neither case is the thread done. */
  ghost predicate Advances(task: Task, e: Option<Event>, stage': Stage) {
    && stage' != Idle
    && match e
       case None => TaskOf(stage') == Some(task)
       case Some(event) => Decided(stage').Some? && Fulfils(event, task, Decided(stage').value)
  }

  lemma GetStep(tb: Tables, stage: Stage, tb': Tables, stage': Stage)
    requires TaskOf(stage).Some? && TaskOf(stage).value.GetTask? && Effect(tb, stage, tb', stage')
    ensures Advances(TaskOf(stage).value, Commit(tb, stage, stage'), stage')
  {
  }

  lemma ReleaseStep(tb: Tables, stage: Stage, tb': Tables, stage': Stage)
    requires TaskOf(stage).Some? && TaskOf(stage).value.ReleaseTask? && Effect(tb, stage, tb', stage')
    ensures Advances(TaskOf(stage).value, Commit(tb, stage, stage'), stage')
  {
  }

  /** Once decided, nothing more takes effect, and a thread is done only when it has dropped its last guard. */
  lemma DecidedStep(tb: Tables, stage: Stage, tb': Tables, stage': Stage)
    requires Decided(stage).Some? && Effect(tb, stage, tb', stage')
    ensures Commit(tb, stage, stage').None?
    ensures if stage' == Idle then stage == Drops([], Decided(stage).value) else Decided(stage') == Decided(stage)
  {
  }

  /** Only tasks take effect as gets and releases. */
  lemma EventHasTask(tb: Tables, stage: Stage, stage': Stage, t: TransportId, op: Op)
    requires Commit(tb, stage, stage') == Some(Act(t, op))
    ensures TaskOf(stage) == Some(if op.Get? then GetTask(t, op.config) else ReleaseTask(t, op.config))
  {
  }

  lemma NextKeepsTask(tb: Tables, stage: Stage)
    ensures TaskOf(Next(tb, stage).1).Some? ==> TaskOf(stage) == TaskOf(Next(tb, stage).1)
  {
  }

  lemma TaskCameFrom(tb: Tables, stage: Stage, tb': Tables, stage': Stage)
    requires Effect(tb, stage, tb', stage') && TaskOf(stage').Some?
    ensures TaskOf(stage) == TaskOf(stage') || (stage == Idle && stage' == Begin(TaskOf(stage').value))
  {
    NextKeepsTask(tb, stage);
  }

  // ---------------------------------------------------------------- whole operations

  /** Thread th leaves Idle at step i and is Idle again for the first time at state j. */
  ghost predicate Operation(states: seq<State>, ths: seq<ThreadId>, th: ThreadId, i: nat, j: nat) {
    && |states| == |ths| + 1 && i < j <= |ths| && ths[i] == th
    && StageOf(states[i], th) == Idle && StageOf(states[j], th) == Idle
    && forall k | i < k < j :: StageOf(states[k], th) != Idle
  }

  /** A thread stays where it is while others take steps. */
  lemma OthersStay(n: nat, states: seq<State>, ths: seq<ThreadId>, k: nat, th: ThreadId)
    requires IsRun(n, states, ths) && k < |ths| && ths[k] != th
    ensures StageOf(states[k + 1], th) == StageOf(states[k], th)
  {
    assert Step(states[k], ths[k], states[k + 1]);
  }

  lemma MoverMoved(n: nat, states: seq<State>, ths: seq<ThreadId>, k: nat, th: ThreadId)
    requires IsRun(n, states, ths) && k < |ths| && StageOf(states[k + 1], th) != StageOf(states[k], th)
    ensures ths[k] == th
  {
    assert Step(states[k], ths[k], states[k + 1]);
  }

  lemma TaskStepAt(n: nat, states: seq<State>, ths: seq<ThreadId>, k: nat, task: Task)
    requires IsRun(n, states, ths) && k < |ths| && TaskOf(StageOf(states[k], ths[k])) == Some(task)
    ensures Advances(task, EventAt(states, ths, k), StageOf(states[k + 1], ths[k]))
  {
    assert Step(states[k], ths[k], states[k + 1]);
    if task.GetTask? {
      GetStep(states[k].tables, StageOf(states[k], ths[k]), states[k + 1].tables, StageOf(states[k + 1], ths[k]));
    } else {
      ReleaseStep(states[k].tables, StageOf(states[k], ths[k]), states[k + 1].tables, StageOf(states[k + 1], ths[k]));
    }
  }

  lemma DecidedStepAt(n: nat, states: seq<State>, ths: seq<ThreadId>, k: nat)
    requires IsRun(n, states, ths) && k < |ths| && Decided(StageOf(states[k], ths[k])).Some?
    ensures EventAt(states, ths, k).None?
    ensures var (stage, stage') := (StageOf(states[k], ths[k]), StageOf(states[k + 1], ths[k]));
            if stage' == Idle then stage == Drops([], Decided(stage).value) else Decided(stage') == Decided(stage)
  {
    assert Step(states[k], ths[k], states[k + 1]);
    DecidedStep(states[k].tables, StageOf(states[k], ths[k]), states[k + 1].tables, StageOf(states[k + 1], ths[k]));
  }

  lemma AnswerAt(n: nat, states: seq<State>, ths: seq<ThreadId>, k: nat, e: Event, answer: Answer)
    requires IsRun(n, states, ths) && k < |ths| && EventAt(states, ths, k) == Some(e) && e.Act?
    requires Decided(StageOf(states[k + 1], ths[k])) == Some(answer)
    ensures Answers(e, Abstract(states[k]), answer)
  {
    InvAlways(n, states, ths, k);
    UndoKeepsBound(states[k]);
    StageAnswers(states[k].tables, StageOf(states[k], ths[k]), states[k + 1].tables, StageOf(states[k + 1], ths[k]));
  }

  /** The event of each step. */
  ghost function EventLog(states: seq<State>, ths: seq<ThreadId>): (log: seq<Option<Event>>)
    requires |states| == |ths| + 1
    ensures |log| == |ths| && forall k | 0 <= k < |ths| :: log[k] == EventAt(states, ths, k)
  {
    seq(|ths|, k requires 0 <= k < |ths| => EventAt(states, ths, k))
  }

  /**
   Where an operation begun at step i stands at state m, the thread being at the given stage: it has taken
   effect once, and at which step and with which answer, or not yet.
   */
  ghost predicate Standing(log: seq<Option<Event>>, ths: seq<ThreadId>, th: ThreadId, i: nat, m: nat, stage: Stage,
                           task: Task,
                           done: Option<(nat, Answer)>)
    requires |log| == |ths| && i < m <= |ths|
  {
    && (forall l: nat | i <= l < m && ths[l] == th :: log[l].Some? <==> done.Some? && done.value.0 == l)
    && match done
       case None => TaskOf(stage) == Some(task)
       case Some((k, answer)) =>
         && i < k < m && ths[k] == th && Decided(stage) == Some(answer)
         && log[k].Some? && Fulfils(log[k].value, task, answer)
  }

  /** Afterwards nothing is left to take effect. */
  lemma StandsAtReturn(log: seq<Option<Event>>, ths: seq<ThreadId>, th: ThreadId, i: nat, m: nat, stage: Stage,
                       task: Task,
                       done: Option<(nat, Answer)>)
    requires |log| == |ths| && i < m < |ths| && Standing(log, ths, th, i, m, stage, task, done)
    requires Decided(stage).Some? && ths[m] == th && log[m].None?
    ensures done.Some? && done.value.1 == Decided(stage).value
    ensures forall l: nat | i <= l <= m && ths[l] == th && l != done.value.0 :: log[l].None?
  {
    assert TaskOf(stage).None?;
  }

  lemma StandsWhenCalled(n: nat, states: seq<State>, ths: seq<ThreadId>, log: seq<Option<Event>>, i: nat, task: Task)
    requires IsRun(n, states, ths) && i < |ths| && |log| == |ths| && log[i] == EventAt(states, ths, i)
    requires StageOf(states[i], ths[i]) == Idle && StageOf(states[i + 1], ths[i]) == Begin(task)
    ensures Standing(log, ths, ths[i], i, i + 1, StageOf(states[i + 1], ths[i]), task, None)
  {
  }

  lemma StandsUndecided(log: seq<Option<Event>>, ths: seq<ThreadId>, i: nat, k: nat, stage: Stage, stage': Stage,
                        task: Task)
    returns (done: Option<(nat, Answer)>)
    requires |log| == |ths| && i < k < |ths| && Standing(log, ths, ths[k], i, k, stage, task, None)
    requires Advances(task, log[k], stage')
    ensures Standing(log, ths, ths[k], i, k + 1, stage', task, done)
    ensures done.Some? ==> done.value == (k, Decided(stage').value) && Decided(stage').Some?
  {
    done := if log[k].Some? then Some((k, Decided(stage').value)) else None;
  }

  /** What no longer changes: nothing takes effect, and the decision stands. */
  lemma StandsStill(log: seq<Option<Event>>, ths: seq<ThreadId>, th: ThreadId, i: nat, k: nat, stage: Stage,
                    stage': Stage,
                    task: Task, done: Option<(nat, Answer)>)
    requires |log| == |ths| && i < k < |ths| && Standing(log, ths, th, i, k, stage, task, done)
    requires if ths[k] == th then log[k].None? && done.Some? && Decided(stage') == Decided(stage) else stage' == stage
    ensures Standing(log, ths, th, i, k + 1, stage', task, done)
  {
  }

  lemma {:induction false} StandsAt(n: nat, states: seq<State>, ths: seq<ThreadId>, log: seq<Option<Event>>,
                                    th: ThreadId,
                                    i: nat, m: nat, task: Task)
    returns (done: Option<(nat, Answer)>)
    requires IsRun(n, states, ths) && log == EventLog(states, ths) && i < m <= |ths| && ths[i] == th
    requires StageOf(states[i], th) == Idle && StageOf(states[i + 1], th) == Begin(task)
    requires forall k | i < k <= m :: StageOf(states[k], th) != Idle
    ensures Standing(log, ths, th, i, m, StageOf(states[m], th), task, done)
    ensures done.Some? ==> Decided(StageOf(states[done.value.0 + 1], th)) == Some(done.value.1)
    decreases m
  {
    var k := m - 1;
    if k == i {
      StandsWhenCalled(n, states, ths, log, i, task);
      done := None;
    } else {
      done := StandsAt(n, states, ths, log, th, i, k, task);
      if ths[k] == th && done.None? {
        TaskStepAt(n, states, ths, k, task);
        done := StandsUndecided(log, ths, i, k, StageOf(states[k], th), StageOf(states[m], th), task);
      } else {
        if ths[k] == th {
          DecidedStepAt(n, states, ths, k);
        } else {
          OthersStay(n, states, ths, k, th);
        }
        StandsStill(log, ths, th, i, k, StageOf(states[k], th), StageOf(states[m], th), task, done);
      }
    }
  }

  /** A thread returns from its last step only when it has decided and dropped every guard. */
  lemma ReturnsDecided(n: nat, states: seq<State>, ths: seq<ThreadId>, m: nat, th: ThreadId, task: Task)
    requires IsRun(n, states, ths) && m < |ths| && StageOf(states[m], th) != Idle && StageOf(states[m + 1], th) == Idle
    requires TaskOf(StageOf(states[m], th)) == Some(task) || Decided(StageOf(states[m], th)).Some?
    ensures ths[m] == th && EventAt(states, ths, m).None?
    ensures Decided(StageOf(states[m], th)).Some?
    ensures StageOf(states[m], th) == Drops([], Decided(StageOf(states[m], th)).value)
  {
    MoverMoved(n, states, ths, m, th);
    if Decided(StageOf(states[m], th)).Some? {
      DecidedStepAt(n, states, ths, m);
    } else {
      TaskStepAt(n, states, ths, m, task);
      assert false;
    }
  }

  /**
   Each get and each release, from its call to its return, takes effect at exactly one of its steps. The
   event there is the call that was made, by that transport and for that configuration, with the answer that
   is returned; and it is the answer the atomic operation gives on the tables at that step. Rollback and
   the dropping of guards never change it.
   */
  lemma AnswersAreLinearized(n: nat, states: seq<State>, ths: seq<ThreadId>, th: ThreadId, i: nat, j: nat, task: Task)
    returns (k: nat, answer: Answer)
    requires IsRun(n, states, ths) && Operation(states, ths, th, i, j) && StageOf(states[i + 1], th) == Begin(task)
    ensures var log := EventLog(states, ths);
            && i < k < j && ths[k] == th
            && log[k].Some? && Fulfils(log[k].value, task, answer) && Answers(log[k].value, Abstract(states[k]), answer)
            && forall l: nat | i <= l < j && ths[l] == th && l != k :: log[l].None?
    ensures StageOf(states[j - 1], th) == Drops([], answer)
  {
    assert StageOf(states[i + 1], th) != Idle;
    var m := j - 1;
    var log := EventLog(states, ths);
    var done := StandsAt(n, states, ths, log, th, i, m, task);
    ReturnsDecided(n, states, ths, m, th, task);
    StandsAtReturn(log, ths, th, i, m, StageOf(states[m], th), task, done);
    k, answer := done.value.0, done.value.1;
    AnswerAt(n, states, ths, k, log[k].value, answer);
  }

  lemma TaskCameFromAt(n: nat, states: seq<State>, ths: seq<ThreadId>, k: nat, task: Task)
    requires IsRun(n, states, ths) && k < |ths| && TaskOf(StageOf(states[k + 1], ths[k])) == Some(task)
    ensures || TaskOf(StageOf(states[k], ths[k])) == Some(task)
            || (StageOf(states[k], ths[k]) == Idle && StageOf(states[k + 1], ths[k]) == Begin(task))
  {
    assert Step(states[k], ths[k], states[k + 1]);
    TaskCameFrom(states[k].tables, StageOf(states[k], ths[k]), states[k + 1].tables, StageOf(states[k + 1], ths[k]));
  }

  lemma {:induction false} CalledAt(n: nat, states: seq<State>, ths: seq<ThreadId>, th: ThreadId, m: nat, task: Task)
    returns (i: nat)
    requires IsRun(n, states, ths) && m <= |ths| && TaskOf(StageOf(states[m], th)) == Some(task)
    ensures i < m && ths[i] == th && StageOf(states[i], th) == Idle && StageOf(states[i + 1], th) == Begin(task)
    ensures forall l | i < l <= m :: StageOf(states[l], th) != Idle
  {
    var k := m - 1;
    if ths[k] == th {
      TaskCameFromAt(n, states, ths, k, task);
    } else {
      OthersStay(n, states, ths, k, th);
    }
    if StageOf(states[k], th) == Idle {
      i := k;
    } else {
      i := CalledAt(n, states, ths, th, k, task);
    }
  }

  /** Conversely, whatever takes effect was called: the event at step k is the task its thread set out on. */
  lemma EventsWereCalled(n: nat, states: seq<State>, ths: seq<ThreadId>, k: nat, t: TransportId, op: Op)
    returns (i: nat)
    requires IsRun(n, states, ths) && k < |ths| && EventAt(states, ths, k) == Some(Act(t, op))
    ensures i < k && ths[i] == ths[k] && StageOf(states[i], ths[k]) == Idle
    ensures StageOf(states[i + 1], ths[k]) == Begin(if op.Get? then GetTask(t, op.config)
            else ReleaseTask(t, op.config))
    ensures forall m | i < m <= k :: StageOf(states[m], ths[k]) != Idle
  {
    EventHasTask(states[k].tables, StageOf(states[k], ths[k]), StageOf(states[k + 1], ths[k]), t, op);
    i := CalledAt(n, states, ths, ths[k], k, TaskOf(StageOf(states[k], ths[k])).value);
  }

  // ---------------------------------------------------------------- Drop among threads

  /** Some thread was called after state p to release the configuration, and has returned. */
  ghost predicate ReleasedSince(states: seq<State>, ths: seq<ThreadId>, p: nat, t: TransportId,
                                config: ListenerConfig) {
    exists th, i, j :: && p <= i && Operation(states, ths, th, i, j)
                       && StageOf(states[i + 1], th) == ReleaseWantsOwner(t, config)
  }

  lemma ReleaseIsLinearized(n: nat, states: seq<State>, ths: seq<ThreadId>, p: nat, t: TransportId,
                            config: ListenerConfig)
    requires IsRun(n, states, ths) && p <= |ths| && ReleasedSince(states, ths, p, t, config)
    ensures Act(t, Release(config)) in Events(states, ths, p, |ths|)
  {
    var th, i, j :| && p <= i && Operation(states, ths, th, i, j)
                    && StageOf(states[i + 1], th) == ReleaseWantsOwner(t, config);
    var k, answer := AnswersAreLinearized(n, states, ths, th, i, j, ReleaseTask(t, config));
    EventsAre(states, ths, p, |ths|, Act(t, Release(config)));
  }

  lemma OnlyReleases(n: nat, states: seq<State>, ths: seq<ThreadId>, p: nat, q: nat, t: TransportId)
    requires IsRun(n, states, ths) && p <= q <= |ths|
    requires forall k, th, c | p <= k < |ths| && th in states[k].threads ::
             TaskOf(states[k].threads[th]) != Some(GetTask(t, c))
    ensures forall e | e in Events(states, ths, p, q) && e.Act? && e.t == t :: e.op.Release?
  {
    forall e | e in Events(states, ths, p, q) && e.Act? && e.t == t
      ensures e.op.Release?
    {
      EventsAre(states, ths, p, q, e);
      var k: nat :| p <= k < q && EventAt(states, ths, k) == Some(e);
      assert Step(states[k], ths[k], states[k + 1]);
      EventHasTask(states[k].tables, StageOf(states[k], ths[k]), StageOf(states[k + 1], ths[k]), t, e.op);
    }
  }

  /**
   Drop while other threads run: if from state p on no get for t is under way, and every configuration t had
   there has since been released by a call that returned, then t binds and owns nothing, and no id is lost,
   whatever was interleaved with those calls.
   */
  lemma DropAmongThreads(n: nat, states: seq<State>, ths: seq<ThreadId>, p: nat, t: TransportId)
    requires IsRun(n, states, ths) && p <= |ths| && t in Abstract(states[p]).bound
    requires forall k, th, c | p <= k < |ths| && th in states[k].threads ::
             TaskOf(states[k].threads[th]) != Some(GetTask(t, c))
    requires forall id | id in Abstract(states[p]).bound[t] ::
               ReleasedSince(states, ths, p, t, Abstract(states[p]).bound[t][id])
    ensures var tb := Abstract(states[|ths|]);
            && t in tb.bound && tb.bound[t] == map[]
            && (forall id | id in tb.owner :: tb.owner[id] != t)
            && |tb.free| + |tb.owner| == n
  {
    var events, more := Events(states, ths, 0, p), Events(states, ths, p, |ths|);
    EventsSplit(states, ths, p, |ths|);
    PrefixLinearizes(n, states, ths, p);
    PrefixLinearizes(n, states, ths, |ths|);
    OnlyReleases(n, states, ths, p, |ths|, t);
    forall id | id in Abstract(states[p]).bound[t]
      ensures Act(t, Release(Abstract(states[p]).bound[t][id])) in more
    {
      ReleaseIsLinearized(n, states, ths, p, t, Abstract(states[p]).bound[t][id]);
    }
    DropAmidOthers(n, events, more, t);
  }

  /** While no get for t is under way, t keeps up to state q what has not been released on the way. */
  lemma KeptUpTo(n: nat, states: seq<State>, ths: seq<ThreadId>, p: nat, q: nat, t: TransportId, id: HandlerId)
    requires IsRun(n, states, ths) && p <= q <= |ths|
    requires t in states[p].tables.bound && id in states[p].tables.bound[t]
    requires forall k, th, c | p <= k < |ths| && th in states[k].threads ::
             TaskOf(states[k].threads[th]) != Some(GetTask(t, c))
    ensures t in states[q].tables.bound
    ensures var (config, after) := (states[p].tables.bound[t][id], states[q].tables.bound[t]);
            if id in after then after[id] == config else Act(t, Release(config)) in Events(states, ths, p, q)
  {
    EventsSplit(states, ths, p, q);
    PrefixLinearizes(n, states, ths, p);
    PrefixLinearizes(n, states, ths, q);
    UndoKeepsBound(states[p]);
    UndoKeepsBound(states[q]);
    OnlyReleases(n, states, ths, p, q, t);
    KeptUnlessReleased(n, Events(states, ths, 0, p), Events(states, ths, p, q), t);
  }

  ghost predicate ReleasedBy(states: seq<State>, ths: seq<ThreadId>, th: ThreadId, p: nat, t: TransportId,
                             config: ListenerConfig) {
    exists i, j :: && p <= i && Operation(states, ths, th, i, j)
                   && StageOf(states[i + 1], th) == ReleaseWantsOwner(t, config)
  }

  /**
   One call of Drop by thread th. Reading changes nothing, so it shows only in what was read: the ids that t
   binds at some state a, and for each of them what it is bound to at some later state, if anything. What was
   found is then released, each by a call that returns.
   */
  ghost predicate DropCall(states: seq<State>, ths: seq<ThreadId>, th: ThreadId, t: TransportId, a: nat,
                           lookups: map<HandlerId, nat>, configs: seq<ListenerConfig>)
    requires |states| == |ths| + 1
  {
    && a <= |ths| && t in states[a].tables.bound
    && lookups.Keys == states[a].tables.bound[t].Keys
    && (forall id | id in lookups ::
          && a <= lookups[id] <= |ths|
          && t in states[lookups[id]].tables.bound
          && var bound := states[lookups[id]].tables.bound[t];
             id in bound ==> bound[id] in configs)
    && (forall config | config in configs :: ReleasedBy(states, ths, th, a, t, config))
  }

  lemma CallIsLinearized(n: nat, states: seq<State>, ths: seq<ThreadId>, th: ThreadId, a: nat, t: TransportId,
                         config: ListenerConfig)
    requires IsRun(n, states, ths) && a <= |ths| && ReleasedBy(states, ths, th, a, t, config)
    ensures Act(t, Release(config)) in Events(states, ths, a, |ths|)
  {
    assert ReleasedSince(states, ths, a, t, config);
    ReleaseIsLinearized(n, states, ths, a, t, config);
  }

  lemma BoundOrReleased(n: nat, states: seq<State>, ths: seq<ThreadId>, a: nat, m: nat, t: TransportId, id: HandlerId)
    requires IsRun(n, states, ths) && a <= m <= |ths|
    requires t in states[a].tables.bound && id in states[a].tables.bound[t]
    requires forall k, u, c | a <= k < |ths| && u in states[k].threads ::
             TaskOf(states[k].threads[u]) != Some(GetTask(t, c))
    ensures t in states[m].tables.bound
    ensures var (config, bound) := (states[a].tables.bound[t][id], states[m].tables.bound[t]);
            if id in bound then bound[id] == config else Act(t, Release(config)) in Events(states, ths, a, |ths|)
  {
    KeptUpTo(n, states, ths, a, m, t, id);
    var e := Act(t, Release(states[a].tables.bound[t][id]));
    if e in Events(states, ths, a, m) {
      EventsAre(states, ths, a, m, e);
      EventsAre(states, ths, a, |ths|, e);
    }
  }

  /** What is still bound at the end was bound all along, so it was listed and found, and so released. */
  lemma NothingMissed(n: nat, states: seq<State>, ths: seq<ThreadId>, th: ThreadId, t: TransportId, a: nat,
                      lookups: map<HandlerId, nat>, configs: seq<ListenerConfig>, id: HandlerId)
    requires IsRun(n, states, ths) && DropCall(states, ths, th, t, a, lookups, configs)
    requires forall k, u, c | a <= k < |ths| && u in states[k].threads ::
             TaskOf(states[k].threads[u]) != Some(GetTask(t, c))
    requires id in states[a].tables.bound[t]
    ensures Act(t, Release(states[a].tables.bound[t][id])) in Events(states, ths, a, |ths|)
  {
    var config, m := states[a].tables.bound[t][id], lookups[id];
    BoundOrReleased(n, states, ths, a, m, t, id);
    if id in states[m].tables.bound[t] {
      CallIsLinearized(n, states, ths, th, a, t, config);
    }
  }

  /**
   Drop, from its call to its return, among other threads: if no get for t is under way meanwhile, then t
   binds and owns nothing afterwards, and no id is lost, whatever else was interleaved, releases of some of
   its configurations by other threads included.
   */
  lemma DropGivesBackAmongThreads(n: nat, states: seq<State>, ths: seq<ThreadId>, th: ThreadId, t: TransportId, a: nat,
                                  lookups: map<HandlerId, nat>, configs: seq<ListenerConfig>)
    requires IsRun(n, states, ths) && DropCall(states, ths, th, t, a, lookups, configs)
    requires forall k, u, c | a <= k < |ths| && u in states[k].threads ::
             TaskOf(states[k].threads[u]) != Some(GetTask(t, c))
    ensures var tb := Abstract(states[|ths|]);
            && t in tb.bound && tb.bound[t] == map[]
            && (forall id | id in tb.owner :: tb.owner[id] != t)
            && |tb.free| + |tb.owner| == n
  {
    var events, more := Events(states, ths, 0, a), Events(states, ths, a, |ths|);
    EventsSplit(states, ths, a, |ths|);
    PrefixLinearizes(n, states, ths, a);
    PrefixLinearizes(n, states, ths, |ths|);
    UndoKeepsBound(states[a]);
    OnlyReleases(n, states, ths, a, |ths|, t);
    forall id | id in Abstract(states[a]).bound[t]
      ensures Act(t, Release(Abstract(states[a]).bound[t][id])) in more
    {
      NothingMissed(n, states, ths, th, t, a, lookups, configs, id);
    }
    DropAmidOthers(n, events, more, t);
  }
}
