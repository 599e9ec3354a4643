/** NonBlockingConditionVariable as a step machine: requesters that check, enqueue and
    recheck, writers that append to the log and then notify, timers, and the destructor,
    interleaved in any way. The predicate of a task is the one replicate requests use:
    the log has grown past a number. */
module CondVar {

  type TaskId = nat
  type WriterId = nat

  /** Where the thread that submitted a task is inside runIfConditionOrWaitForNotify. */
  datatype Place = AtCheck | AtEnqueue | AtRecheck | AtClaim | AtTimer | Returned

  /** How the body of a replicate task ends: with a result, or with an exception because the
      db has been removed or its log could not be read. */
  datatype Reply = Result | SourceNotFound | SourceReadError

  /** A submitted task: the number its predicate compares the log with, whether it has a
      timeout, the has_done flag, how often it was put into the executor, whether its timer
      is running, and the replies its executions gave to the request. */
  datatype Task = Task(target: nat, timed: bool, place: Place, done: bool, runs: nat, armed: bool, replies: seq<Reply>)

  /** A notifyAll in progress: between the append and the swap, or walking its list. */
  datatype Notifier = AtSwap | Walking(list: seq<TaskId>)

  datatype State = State(seqNo: nat, tasks: map<TaskId, Task>, pending: seq<TaskId>,
                         notifiers: map<WriterId, Notifier>, destroyed: bool)

  datatype Step =
    | Submit(t: TaskId, target: nat, timed: bool)
    | Check(t: TaskId)
    | Enqueue(t: TaskId)
    | Recheck(t: TaskId)
    | Claim(t: TaskId)
    | ArmTimer(t: TaskId)
    | TimerFires(t: TaskId)
    | Append(w: WriterId, count: nat)
    | Swap(w: WriterId)
    | RunHead(w: WriterId)
    | EndWalk(w: WriterId)
    | Destroy(w: WriterId)
    | Execute(t: TaskId, exit: Reply)

  predicate Init(s: State)
  {
    s.tasks == map[] && s.pending == [] && s.notifiers == map[] && !s.destroyed
  }

  predicate At(s: State, t: TaskId, place: Place)
  {
    t in s.tasks && s.tasks[t].place == place
  }

  predicate Walks(s: State, w: WriterId, t: TaskId)
  {
    w in s.notifiers && s.notifiers[w].Walking? && t in s.notifiers[w].list
  }

  /** Somebody still holds a shared pointer to it, so its timer can lock the weak
      one. */
  ghost predicate Referenced(s: State, t: TaskId)
  {
    || t in s.pending
    || (exists w :: Walks(s, w, t))
    || (t in s.tasks && s.tasks[t].place != Returned)
  }

  ghost predicate Enabled(s: State, step: Step)
  {
    match step
    case Submit(t, _, _) => t !in s.tasks && !s.destroyed
    case Check(t) => At(s, t, AtCheck)
    case Enqueue(t) => At(s, t, AtEnqueue)
    case Recheck(t) => At(s, t, AtRecheck)
    case Claim(t) => At(s, t, AtClaim)
    case ArmTimer(t) => At(s, t, AtTimer)
    case TimerFires(t) => t in s.tasks && s.tasks[t].armed
    // an apply loop writes several batches before its one notifyAll
    case Append(w, _) => (w in s.notifiers ==> s.notifiers[w].AtSwap?) && !s.destroyed
    case Swap(w) => w in s.notifiers && s.notifiers[w].AtSwap?
    case RunHead(w) => w in s.notifiers && s.notifiers[w].Walking? && s.notifiers[w].list != []
    case EndWalk(w) => w in s.notifiers && s.notifiers[w] == Walking([])
    // nobody else works on the object when its destructor runs
    case Destroy(w) => !s.destroyed && s.notifiers == map[] && forall t | t in s.tasks :: s.tasks[t].place == Returned
    // the executor has the task; its weak pointer to the db is expired exactly when the db is gone
    case Execute(t, exit) =>
      t in s.tasks && |s.tasks[t].replies| < s.tasks[t].runs && (exit == SourceNotFound <==> s.destroyed)
  }

  predicate Holds(s: State, t: TaskId)
    requires t in s.tasks
  {
    s.tasks[t].target < s.seqNo
  }

  function Put(s: State, t: TaskId, task: Task): State
  {
    s.(tasks := s.tasks[t := task])
  }

  /** should_i_run() followed, if it answers true, by executor_->add. */
  function TryRun(task: Task): Task
  {
    if task.done then task else task.(done := true, runs := task.runs + 1)
  }

  ghost function Apply(s: State, step: Step): State
    requires Enabled(s, step)
  {
    match step
    case Submit(t, target, timed) => Put(s, t, Task(target, timed, AtCheck, false, 0, false, []))
    case Check(t) =>
      if Holds(s, t) then Put(s, t, TryRun(s.tasks[t]).(place := Returned))
      else Put(s, t, s.tasks[t].(place := AtEnqueue))
    case Enqueue(t) => Put(s, t, s.tasks[t].(place := AtRecheck)).(pending := [t] + s.pending)
    case Recheck(t) => Put(s, t, s.tasks[t].(place := if Holds(s, t) then AtClaim else AtTimer))
    case Claim(t) =>
      if s.tasks[t].done then Put(s, t, s.tasks[t].(place := AtTimer))
      else Put(s, t, TryRun(s.tasks[t]).(place := Returned))
    case ArmTimer(t) => Put(s, t, s.tasks[t].(place := Returned, armed := s.tasks[t].timed))
    case TimerFires(t) =>
      var fired := s.tasks[t].(armed := false);
      Put(s, t, if Referenced(s, t) then TryRun(fired) else fired)
    case Append(w, count) => s.(seqNo := s.seqNo + count, notifiers := s.notifiers[w := AtSwap])
    case Swap(w) => s.(notifiers := s.notifiers[w := Walking(s.pending)], pending := [])
    case RunHead(w) =>
      var list := s.notifiers[w].list;
      var s' := s.(notifiers := s.notifiers[w := Walking(list[1..])]);
      if list[0] in s.tasks then Put(s', list[0], TryRun(s.tasks[list[0]])) else s'
    case EndWalk(w) => s.(notifiers := s.notifiers - {w})
    case Destroy(w) => s.(notifiers := s.notifiers[w := Walking(s.pending)], pending := [], destroyed := true)
    case Execute(t, exit) => Put(s, t, s.tasks[t].(replies := s.tasks[t].replies + [exit]))
  }

  // ----- the invariant -----

  /** A task has run once if its flag is set and not at all otherwise; once enqueued it
      has run or waits in the pending list or in a list a notifier walks. */
  ghost predicate Accounted(s: State, t: TaskId)
    requires t in s.tasks
  {
    Counted(s.tasks[t]) && Listed(s, t) && Guarded(s.tasks[t])
  }

  /** A timed task that waits has its timer running. */
  predicate Guarded(task: Task)
  {
    task.timed && task.place == Returned && !task.done ==> task.armed
  }

  predicate Counted(task: Task)
  {
    && task.runs == (if task.done then 1 else 0) && |task.replies| <= task.runs
    && (task.armed ==> task.place == Returned)
  }

  ghost predicate Listed(s: State, t: TaskId)
    requires t in s.tasks
  {
    var task := s.tasks[t];
    && (task.place in {AtCheck, AtEnqueue} ==> !task.done && t !in s.pending && forall w :: !Walks(s, w, t))
    && (task.place in {AtRecheck, AtClaim, AtTimer, Returned} ==>
          task.done || t in s.pending || exists w :: Walks(s, w, t))
  }

  ghost predicate SomeoneAtSwap(s: State)
  {
    exists w :: w in s.notifiers && s.notifiers[w] == AtSwap
  }

  /** A pending unrun task whose predicate is true has its own recheck still to come, or
      a writer is between its append and its swap. */
  ghost predicate WillWake(s: State, t: TaskId)
    requires t in s.tasks
  {
    t in s.pending && !s.tasks[t].done && Holds(s, t) ==>
      s.tasks[t].place in {AtRecheck, AtClaim} || SomeoneAtSwap(s)
  }

  ghost predicate Settled(s: State)
  {
    s.destroyed ==>
      && s.pending == [] && (forall w | w in s.notifiers :: s.notifiers[w].Walking?)
      && (forall t | t in s.tasks :: s.tasks[t].place == Returned)
  }

  ghost predicate Inv(s: State)
  {
    && (forall t | t in s.tasks :: Accounted(s, t) && WillWake(s, t))
    && Settled(s) && Known(s)
  }

  /** A task a notifier walks stays on that notifier's list until it is run; a pending
      task stays pending until a notifier takes it. */
  lemma ListsMove(s: State, step: Step, t: TaskId)
    requires Enabled(s, step) && t in s.tasks
    ensures var s' := Apply(s, step);
            && t in s'.tasks
            && ((exists w :: Walks(s, w, t)) ==> s'.tasks[t].done || exists w :: Walks(s', w, t))
            && (t in s.pending ==> t in s'.pending || exists w :: Walks(s', w, t))
  {
    var s' := Apply(s, step);
    if w :| Walks(s, w, t) {
      if step == RunHead(w) {
        assert t == s.notifiers[w].list[0] || Walks(s', w, t);
      } else {
        assert Walks(s', w, t);
      }
    }
    if t in s.pending && (step.Swap? || step.Destroy?) {
      assert Walks(s', step.w, t);
    }
  }

  /** Only enqueueing puts a task on a list. */
  lemma ListsGainNothing(s: State, step: Step, t: TaskId)
    requires Enabled(s, step) && t !in s.pending && (forall w :: !Walks(s, w, t)) && step != Enqueue(t)
    ensures t !in Apply(s, step).pending && forall w :: !Walks(Apply(s, step), w, t)
  {
    forall w ensures !Walks(Apply(s, step), w, t) {
      assert !Walks(s, w, t);
    }
  }

  lemma StepKeepsCount(s: State, step: Step, t: TaskId)
    requires t in s.tasks && Counted(s.tasks[t]) && Enabled(s, step)
    ensures t in Apply(s, step).tasks && Counted(Apply(s, step).tasks[t])
  {
    match step
    case Append(_, _) =>
    case Swap(_) =>
    case RunHead(_) =>
    case EndWalk(_) =>
    case Destroy(_) =>
    case _ => RequestKeepsCount(s, step, t);
  }

  lemma RequestKeepsCount(s: State, step: Step, t: TaskId)
    requires t in s.tasks && Counted(s.tasks[t]) && Enabled(s, step)
    requires !step.Append? && !step.Swap? && !step.RunHead? && !step.EndWalk? && !step.Destroy?
    ensures t in Apply(s, step).tasks && Counted(Apply(s, step).tasks[t])
  {
  }

  lemma StepKeepsListed(s: State, step: Step, t: TaskId)
    requires t in s.tasks && Accounted(s, t) && Enabled(s, step)
    ensures t in Apply(s, step).tasks && Listed(Apply(s, step), t)
  {
    ListsMove(s, step, t);
    if step.RunHead? {
      assert Walks(s, step.w, s.notifiers[step.w].list[0]);
    }
    if s.tasks[t].place in {AtCheck, AtEnqueue} && step != Enqueue(t) {
      ListsGainNothing(s, step, t);
    }
  }

  lemma StepKeepsAccount(s: State, step: Step, t: TaskId)
    requires t in s.tasks && Accounted(s, t) && Enabled(s, step)
    ensures t in Apply(s, step).tasks && Accounted(Apply(s, step), t)
  {
    StepKeepsCount(s, step, t);
    StepKeepsListed(s, step, t);
    StepKeepsGuard(s, step, t);
  }

  lemma {:induction false} StepKeepsGuard(s: State, step: Step, t: TaskId)
    requires t in s.tasks && Accounted(s, t) && Enabled(s, step)
    ensures t in Apply(s, step).tasks && Guarded(Apply(s, step).tasks[t])
  {
    if step == TimerFires(t) {
      assert s.tasks[t].done || Referenced(s, t);
    }
  }

  /** A writer between append and swap stays there until it swaps, which leaves nothing
      pending. */
  lemma SwapMoves(s: State, step: Step)
    requires Enabled(s, step) && SomeoneAtSwap(s)
    ensures SomeoneAtSwap(Apply(s, step)) || Apply(s, step).pending == []
  {
    var w :| w in s.notifiers && s.notifiers[w] == AtSwap;
    if step != Swap(w) {
      assert w in Apply(s, step).notifiers && Apply(s, step).notifiers[w] == AtSwap;
    }
  }

  lemma StepKeepsWakeup(s: State, step: Step, t: TaskId)
    requires t in s.tasks && WillWake(s, t) && Enabled(s, step)
    ensures t in Apply(s, step).tasks && WillWake(Apply(s, step), t)
  {
    if SomeoneAtSwap(s) {
      SwapMoves(s, step);
    }
    if step.Append? {
      assert step.w in Apply(s, step).notifiers && Apply(s, step).notifiers[step.w] == AtSwap;
    }
  }

  /** Every list only holds submitted tasks. */
  ghost predicate Known(s: State)
  {
    && (forall t | t in s.pending :: t in s.tasks)
    && forall w, t | Walks(s, w, t) :: t in s.tasks
  }

  lemma StepKeepsKnown(s: State, step: Step)
    requires Known(s) && Enabled(s, step)
    ensures Known(Apply(s, step))
  {
    var s' := Apply(s, step);
    forall w, t | Walks(s', w, t) ensures t in s'.tasks {
      assert Walks(s, w, t) || t in s.pending;
    }
  }

  lemma StepKeepsInv(s: State, step: Step)
    requires Inv(s) && Enabled(s, step)
    ensures Inv(Apply(s, step))
  {
    var s' := Apply(s, step);
    StepKeepsKnown(s, step);
    forall t | t in s'.tasks ensures Accounted(s', t) && WillWake(s', t) {
      if t in s.tasks {
        StepKeepsAccount(s, step, t);
        StepKeepsWakeup(s, step, t);
      } else {
        ListsGainNothing(s, step, t);
      }
    }
  }

  // ----- runs -----

  ghost predicate Executes(s: State, steps: seq<Step>, t: State)
    decreases |steps|
  {
    if steps == [] then s == t
    else Enabled(s, steps[0]) && Executes(Apply(s, steps[0]), steps[1..], t)
  }

  lemma {:induction false} RunKeepsInv(s: State, steps: seq<Step>, t: State)
    requires Inv(s) && Executes(s, steps, t)
    ensures Inv(t)
    decreases |steps|
  {
    if steps != [] {
      StepKeepsInv(s, steps[0]);
      RunKeepsInv(Apply(s, steps[0]), steps[1..], t);
    }
  }

  /** No lost wakeup, in every reachable state. */
  lemma NoLostWakeup(start: State, steps: seq<Step>, s: State, t: TaskId)
    requires Init(start) && Executes(start, steps, s)
    requires t in s.tasks && t in s.pending && !s.tasks[t].done && s.tasks[t].target < s.seqNo
    ensures s.tasks[t].place in {AtRecheck, AtClaim} || SomeoneAtSwap(s)
  {
    RunKeepsInv(start, steps, s);
    assert WillWake(s, t);
  }

  /** Nobody is in the middle of a submission or of a notification. */
  ghost predicate Quiescent(s: State)
  {
    s.notifiers == map[] && forall t | t in s.tasks :: s.tasks[t].place == Returned
  }

  /** When nobody is in the middle of anything, every task that has not run is pending and
      its predicate is false: no replicate request lags behind the log. */
  lemma QuiescentMeansCaughtUp(start: State, steps: seq<Step>, s: State, t: TaskId)
    requires Init(start) && Executes(start, steps, s) && Quiescent(s)
    requires t in s.tasks && !s.tasks[t].done
    ensures t in s.pending && s.seqNo <= s.tasks[t].target
  {
    RunKeepsInv(start, steps, s);
    assert Accounted(s, t) && WillWake(s, t);
  }

  /** Exactly once: no task ever runs twice; a task that nobody references any more has
      run once; and when the destructor is through, every task ever submitted has run
      once. */
  lemma ExactlyOnce(start: State, steps: seq<Step>, s: State, t: TaskId)
    requires Init(start) && Executes(start, steps, s) && t in s.tasks
    ensures s.tasks[t].runs <= 1
    ensures !Referenced(s, t) ==> s.tasks[t].runs == 1
    ensures s.destroyed && s.notifiers == map[] ==> s.tasks[t].runs == 1
  {
    RunKeepsInv(start, steps, s);
    assert Accounted(s, t);
  }

  /** The four reasons to run a task: its predicate is true when it is submitted or rechecked,
      its timer fires, or it is the next one on the list of a notifier or of the destructor. */
  predicate Due(s: State, step: Step, t: TaskId)
    requires Enabled(s, step) && t in s.tasks
  {
    || (step == Check(t) && s.tasks[t].target < s.seqNo)
    || step == Claim(t)
    || step == TimerFires(t)
    || (step.RunHead? && s.notifiers[step.w].list[0] == t)
  }

  /** A task is put into the executor by the first step that has a reason to, and by no other. */
  lemma {:induction false} RunsWhenDue(start: State, steps: seq<Step>, s: State, step: Step, t: TaskId)
    requires Init(start) && Executes(start, steps, s) && Enabled(s, step) && t in s.tasks
    ensures t in Apply(s, step).tasks
    ensures Apply(s, step).tasks[t].runs == if Due(s, step, t) then 1 else s.tasks[t].runs
    ensures step == Recheck(t) ==>
              Apply(s, step).tasks[t].place == if s.tasks[t].target < s.seqNo then AtClaim else AtTimer
  {
    RunKeepsInv(start, steps, s);
    assert Accounted(s, t);
    RunsOnceDue(s, step, t);
  }

  lemma {:induction false} RunsOnceDue(s: State, step: Step, t: TaskId)
    requires Enabled(s, step) && t in s.tasks && Accounted(s, t)
    ensures t in Apply(s, step).tasks
    ensures Apply(s, step).tasks[t].runs == if Due(s, step, t) then 1 else s.tasks[t].runs
  {
    if step == TimerFires(t) {
      assert s.tasks[t].done || Referenced(s, t);
    }
  }

  /** No timed request waits for ever: in every reachable state the timer of one that still waits
      is running, and when it fires the task runs. */
  lemma {:induction false} TimedRequestsEnd(start: State, steps: seq<Step>, s: State, t: TaskId)
    requires Init(start) && Executes(start, steps, s) && t in s.tasks
    requires s.tasks[t].timed && s.tasks[t].place == Returned && s.tasks[t].runs == 0
    ensures Enabled(s, TimerFires(t)) && Apply(s, TimerFires(t)).tasks[t].runs == 1
  {
    RunKeepsInv(start, steps, s);
    assert Accounted(s, t);
    RunsOnceDue(s, TimerFires(t), t);
  }

  /** The executor has nothing left to do for the task. */
  predicate Executed(s: State, t: TaskId)
    requires t in s.tasks
  {
    |s.tasks[t].replies| == s.tasks[t].runs
  }

  /** Exactly one reply: in every reachable state a request has one result or exception at
      most; it has one as soon as nobody references its task any more, or the db has been
      removed, and the executor has done its work. What the executor still has can be
      executed. */
  lemma ExactlyOneReply(start: State, steps: seq<Step>, s: State, t: TaskId)
    requires Init(start) && Executes(start, steps, s) && t in s.tasks
    ensures |s.tasks[t].replies| <= 1
    ensures (!Referenced(s, t) || (s.destroyed && s.notifiers == map[])) && Executed(s, t) ==> |s.tasks[t].replies| == 1
    ensures !Executed(s, t) ==> Enabled(s, Execute(t, if s.destroyed then SourceNotFound else Result))
  {
    RunKeepsInv(start, steps, s);
    assert Accounted(s, t);
    ExactlyOnce(start, steps, s, t);
  }

  /** Once the db is removed, requests that were still open get the exception that says so. */
  lemma OpenRequestsLearnOfRemoval(start: State, steps: seq<Step>, s: State, later: seq<Step>, u: State, t: TaskId)
    requires Init(start) && Executes(start, steps, s) && s.destroyed && t in s.tasks && s.tasks[t].replies == []
    requires Executes(s, later, u)
    ensures t in u.tasks && u.tasks[t].replies in {[], [SourceNotFound]}
  {
    RunKeepsInv(start, steps, s);
    RemovedStaysRemoved(s, later, u, t);
  }

  lemma StepAfterRemoval(s: State, step: Step, t: TaskId)
    requires Enabled(s, step) && s.destroyed && t in s.tasks && Accounted(s, t)
    requires s.tasks[t].replies in {[], [SourceNotFound]}
    ensures Apply(s, step).destroyed && t in Apply(s, step).tasks
    ensures Apply(s, step).tasks[t].replies in {[], [SourceNotFound]}
  {
    if step.Execute? && step.t == t {
      assert s.tasks[t].replies == [];
      assert [] + [SourceNotFound] == [SourceNotFound];
    } else {
      assert Apply(s, step).tasks[t].replies == s.tasks[t].replies;
    }
  }

  lemma {:induction false} RemovedStaysRemoved(s: State, steps: seq<Step>, u: State, t: TaskId)
    requires Inv(s) && s.destroyed && t in s.tasks && s.tasks[t].replies in {[], [SourceNotFound]}
    requires Executes(s, steps, u)
    ensures t in u.tasks && u.tasks[t].replies in {[], [SourceNotFound]}
    decreases |steps|
  {
    if steps != [] {
      assert Accounted(s, t);
      StepAfterRemoval(s, steps[0], t);
      StepKeepsInv(s, steps[0]);
      RemovedStaysRemoved(Apply(s, steps[0]), steps[1..], u, t);
    }
  }

  /** The race exists: a run in which a task is enqueued after a false check and a writer
      appends before the recheck, so that the task is pending with a true predicate. */
  lemma RaceHappens() returns (start: State, steps: seq<Step>, s: State)
    ensures Init(start) && Executes(start, steps, s)
    ensures 0 in s.tasks && 0 in s.pending && !s.tasks[0].done && s.tasks[0].target < s.seqNo
  {
    start := State(0, map[], [], map[], false);
    var s1 := Apply(start, Submit(0, 0, false));
    var s2 := Apply(s1, Check(0));
    var s3 := Apply(s2, Enqueue(0));
    s := Apply(s3, Append(0, 1));
    assert Executes(s3, [Append(0, 1)], s) by {
      assert [Append(0, 1)][1..] == [];
    }
    assert Executes(s2, [Enqueue(0), Append(0, 1)], s) by {
      assert [Enqueue(0), Append(0, 1)][1..] == [Append(0, 1)];
    }
    assert Executes(s1, [Check(0), Enqueue(0), Append(0, 1)], s) by {
      assert [Check(0), Enqueue(0), Append(0, 1)][1..] == [Enqueue(0), Append(0, 1)];
    }
    steps := [Submit(0, 0, false), Check(0), Enqueue(0), Append(0, 1)];
    assert steps[1..] == [Check(0), Enqueue(0), Append(0, 1)];
  }
}
