/** MaxNumberBox: threads block until the largest number posted reaches theirs. The class
    holds the code of its critical sections; the step machine below interleaves them with
    notifications, spurious wakeups and timeouts of any number of threads. */
module MaxNumberBox {

  type ThreadId = nat

  /** A thread's Waiter; it is thread-local, so it stands for the thread. */
  datatype Waiter = Waiter(thread: ThreadId, num: nat)

  /** The waiters `max` releases, and those it does not, in list order. */
  function Released(ws: seq<Waiter>, max: nat): seq<Waiter>
  {
    if ws == [] then [] else (if ws[0].num <= max then [ws[0]] else []) + Released(ws[1..], max)
  }

  function Retained(ws: seq<Waiter>, max: nat): seq<Waiter>
  {
    if ws == [] then [] else (if ws[0].num <= max then [] else [ws[0]]) + Retained(ws[1..], max)
  }

  function Without(ws: seq<Waiter>, t: ThreadId): seq<Waiter>
  {
    if ws == [] then [] else (if ws[0].thread == t then [] else [ws[0]]) + Without(ws[1..], t)
  }

  lemma {:induction false} PartitionOf(ws: seq<Waiter>, max: nat, w: Waiter)
    ensures w in Released(ws, max) <==> w in ws && w.num <= max
    ensures w in Retained(ws, max) <==> w in ws && max < w.num
  {
    if ws != [] {
      PartitionOf(ws[1..], max, w);
    }
  }

  /** The threads of the list are all different. */
  ghost predicate Distinct(ws: seq<Waiter>)
  {
    forall i, j | 0 <= i < j < |ws| :: ws[i].thread != ws[j].thread
  }

  lemma {:induction false} RetainedDistinct(ws: seq<Waiter>, max: nat)
    requires Distinct(ws)
    ensures Distinct(Retained(ws, max))
  {
    if ws != [] {
      RetainedDistinct(ws[1..], max);
      var rest := Retained(ws[1..], max);
      forall i | 0 <= i < |rest| ensures rest[i].thread != ws[0].thread {
        PartitionOf(ws[1..], max, rest[i]);
      }
    }
  }

  lemma {:induction false} WithoutMembers(ws: seq<Waiter>, t: ThreadId)
    ensures forall w :: w in Without(ws, t) <==> w in ws && w.thread != t
    ensures (forall w | w in ws :: w.thread != t) ==> Without(ws, t) == ws
  {
    if ws != [] {
      WithoutMembers(ws[1..], t);
      assert ws == [ws[0]] + ws[1..];
    }
  }

  lemma {:induction false} WithoutDistinct(ws: seq<Waiter>, t: ThreadId)
    requires Distinct(ws)
    ensures Distinct(Without(ws, t))
  {
    if ws != [] {
      var rest := ws[1..];
      WithoutDistinct(rest, t);
      WithoutMembers(rest, t);
      forall w | w in Without(rest, t) ensures w.thread != ws[0].thread {
        assert w in rest;
      }
    }
  }

  lemma {:induction false} WithoutCount(ws: seq<Waiter>, t: ThreadId, num: nat)
    requires Distinct(ws) && Waiter(t, num) in ws
    ensures |Without(ws, t)| == |ws| - 1
  {
    var rest := ws[1..];
    if ws[0].thread == t {
      WithoutMembers(rest, t);
    } else {
      WithoutCount(rest, t, num);
    }
  }

  /** Erasing a listed thread erases exactly one entry: what the CHECK on the timeout
      path demands. */
  lemma WithoutOne(ws: seq<Waiter>, t: ThreadId, num: nat)
    requires Distinct(ws)
    ensures Distinct(Without(ws, t))
    ensures forall w :: w in Without(ws, t) <==> w in ws && w.thread != t
    ensures Waiter(t, num) in ws ==> |Without(ws, t)| == |ws| - 1
    ensures (forall w | w in ws :: w.thread != t) ==> Without(ws, t) == ws
  {
    WithoutMembers(ws, t);
    WithoutDistinct(ws, t);
    if Waiter(t, num) in ws {
      WithoutCount(ws, t, num);
    }
  }

  lemma WithoutStep(ws: seq<Waiter>, i: nat, t: ThreadId, kept: seq<Waiter>)
    requires i < |ws|
    ensures kept + Without(ws[i..], t) == (if ws[i].thread != t then kept + [ws[i]] else kept) + Without(ws[i + 1..], t)
  {
    assert ws[i..][1..] == ws[i + 1..];
  }

  class Box {
    var maxNumber: nat
    var waiters: seq<Waiter>

    constructor (initial: nat)
      ensures maxNumber == initial && waiters == []
    {
      maxNumber := initial;
      waiters := [];
    }

    /** The critical section of post. */
    method Post(num: nat) returns (toNotify: seq<Waiter>)
      modifies this
      ensures maxNumber == if old(maxNumber) < num then num else old(maxNumber)
      ensures num <= old(maxNumber) ==> waiters == old(waiters) && toNotify == []
      ensures old(maxNumber) < num ==> waiters == Retained(old(waiters), num) && toNotify == Released(old(waiters), num)
    {
      toNotify := [];
      if num <= maxNumber {
        return;
      }
      maxNumber := num;
      if waiters == [] {
        return;
      }
      var toWait := [];
      var i := 0;
      assert waiters[0..] == waiters;
      while i < |waiters|
        invariant 0 <= i <= |waiters| && waiters == old(waiters) && maxNumber == num
        invariant toNotify + Released(waiters[i..], num) == Released(waiters, num)
        invariant toWait + Retained(waiters[i..], num) == Retained(waiters, num)
      {
        assert waiters[i..][1..] == waiters[i + 1..];
        if waiters[i].num <= maxNumber {
          toNotify := toNotify + [waiters[i]];
        } else {
          toWait := toWait + [waiters[i]];
        }
        i := i + 1;
      }
      waiters := toWait;
    }

    /** wait up to the point where the thread blocks. */
    method BeginWait(thread: ThreadId, num: nat) returns (done: bool)
      modifies this`waiters
      ensures done <==> num <= maxNumber
      ensures waiters == if done then old(waiters) else old(waiters) + [Waiter(thread, num)]
    {
      done := num <= maxNumber;
      if !done {
        waiters := waiters + [Waiter(thread, num)];
      }
    }

    /** The end of wait when its timeout has passed: the predicate is checked again; if it
        is still false, the thread takes itself off the list, and the code's CHECK holds. */
    method TimedOut(thread: ThreadId, num: nat) returns (reached: bool)
      requires Distinct(waiters) && (maxNumber < num ==> Waiter(thread, num) in waiters)
      modifies this`waiters
      ensures reached <==> num <= maxNumber
      ensures waiters == if reached then old(waiters) else Without(old(waiters), thread)
    {
      reached := num <= maxNumber;
      if !reached {
        var kept := [];
        var i := 0;
        assert waiters[0..] == waiters;
        while i < |waiters|
          invariant 0 <= i <= |waiters| && waiters == old(waiters)
          invariant kept + Without(waiters[i..], thread) == Without(waiters, thread)
        {
          WithoutStep(waiters, i, thread, kept);
          if waiters[i].thread != thread {
            kept := kept + [waiters[i]];
          }
          i := i + 1;
        }
        WithoutOne(waiters, thread, num);
        assert num > maxNumber && |waiters| - |kept| == 1;
        waiters := kept;
      }
    }
  }

  // ----- the step machine -----

  /** The box, the threads blocked in wait with their numbers, the notifications that
      posts have still to send, and the blocked threads that were notified. */
  datatype State = State(max: nat, waiters: seq<Waiter>, blocked: map<ThreadId, nat>,
                         toNotify: multiset<ThreadId>, signalled: set<ThreadId>, posted: seq<nat>)

  datatype Step =
    | PostStep(num: nat)
    | WaitStep(t: ThreadId, num: nat)
    | NotifyStep(t: ThreadId)
    | WakeStep(t: ThreadId)
    | TimeoutStep(t: ThreadId)

  predicate Enabled(s: State, step: Step)
  {
    match step
    case PostStep(_) => true
    case WaitStep(t, _) => t !in s.blocked
    case NotifyStep(t) => t in s.toNotify
    case WakeStep(t) => t in s.blocked
    case TimeoutStep(t) => t in s.blocked
  }

  function Threads(ws: seq<Waiter>): multiset<ThreadId>
  {
    if ws == [] then multiset{} else multiset{ws[0].thread} + Threads(ws[1..])
  }

  lemma {:induction false} ThreadsHas(ws: seq<Waiter>, w: Waiter)
    requires w in ws
    ensures w.thread in Threads(ws)
  {
    if ws[0] != w {
      ThreadsHas(ws[1..], w);
    }
  }

  function Unblock(s: State, t: ThreadId): State
  {
    s.(blocked := s.blocked - {t}, signalled := s.signalled - {t})
  }

  function Apply(s: State, step: Step): State
    requires Enabled(s, step)
  {
    match step
    case PostStep(num) =>
      if num <= s.max then s.(posted := s.posted + [num])
      else s.(max := num, posted := s.posted + [num], waiters := Retained(s.waiters, num),
              toNotify := s.toNotify + Threads(Released(s.waiters, num)))
    case WaitStep(t, num) =>
      if num <= s.max then s
      else s.(waiters := s.waiters + [Waiter(t, num)], blocked := s.blocked[t := num])
    // notify_one on the cv of a thread that no longer waits does nothing
    case NotifyStep(t) =>
      s.(toNotify := s.toNotify - multiset{t}, signalled := if t in s.blocked then s.signalled + {t} else s.signalled)
    // a wakeup, notified or spurious, checks the predicate
    case WakeStep(t) => if s.blocked[t] <= s.max then Unblock(s, t) else s.(signalled := s.signalled - {t})
    case TimeoutStep(t) =>
      if s.blocked[t] <= s.max then Unblock(s, t) else Unblock(s, t).(waiters := Without(s.waiters, t))
  }

  predicate Init(s: State)
  {
    s.waiters == [] && s.blocked == map[] && s.toNotify == multiset{} && s.signalled == {} && s.posted == []
  }

  /** The list is exactly the blocked threads whose number has not been reached. */
  ghost predicate ListsTheUnreached(s: State)
  {
    && Distinct(s.waiters)
    && forall w :: w in s.waiters <==> w.thread in s.blocked && s.blocked[w.thread] == w.num && s.max < w.num
  }

  /** A blocked thread whose number has been reached is going to be notified or was. */
  ghost predicate ReachedAreNotified(s: State)
  {
    forall t | t in s.blocked && s.blocked[t] <= s.max :: t in s.toNotify || t in s.signalled
  }

  ghost predicate Inv(s: State)
  {
    ListsTheUnreached(s) && ReachedAreNotified(s)
  }

  lemma PostKeeps(s: State, num: nat)
    requires Inv(s)
    ensures Inv(Apply(s, PostStep(num)))
  {
    if s.max < num {
      var t := Apply(s, PostStep(num));
      RetainedDistinct(s.waiters, num);
      forall w ensures w in t.waiters <==> w.thread in t.blocked && t.blocked[w.thread] == w.num && t.max < w.num {
        PartitionOf(s.waiters, num, w);
      }
      forall u | u in t.blocked && t.blocked[u] <= t.max ensures u in t.toNotify || u in t.signalled {
        if s.max < s.blocked[u] {
          var w := Waiter(u, s.blocked[u]);
          PartitionOf(s.waiters, num, w);
          ThreadsHas(Released(s.waiters, num), w);
        }
      }
    }
  }

  lemma TimeoutKeeps(s: State, t: ThreadId)
    requires Inv(s) && t in s.blocked
    ensures Inv(Apply(s, TimeoutStep(t)))
  {
    WithoutOne(s.waiters, t, s.blocked[t]);
    assert s.blocked[t] <= s.max ==> forall n :: Waiter(t, n) !in s.waiters;
  }

  lemma WaitKeeps(s: State, t: ThreadId, num: nat)
    requires Inv(s) && t !in s.blocked
    ensures Inv(Apply(s, WaitStep(t, num)))
  {
    assert forall w | w in s.waiters :: w.thread != t;
  }

  lemma StepKeepsInv(s: State, step: Step)
    requires Inv(s) && Enabled(s, step)
    ensures Inv(Apply(s, step))
  {
    match step
    case PostStep(num) => PostKeeps(s, num);
    case WaitStep(t, num) => WaitKeeps(s, t, num);
    case NotifyStep(_) =>
    case WakeStep(t) => assert s.blocked[t] <= s.max ==> forall n :: Waiter(t, n) !in s.waiters;
    case TimeoutStep(t) => TimeoutKeeps(s, t);
  }

  ghost predicate Executes(s: State, steps: seq<Step>, t: State)
    decreases |steps|
  {
    if steps == [] then s == t
    else Enabled(s, steps[0]) && Executes(Apply(s, steps[0]), steps[1..], t)
  }

  /** The largest of the initial number and the numbers posted. */
  ghost predicate IsMaximum(max: nat, initial: nat, posted: seq<nat>)
  {
    && initial <= max && (forall n | n in posted :: n <= max)
    && (max == initial || max in posted)
  }

  lemma {:induction false} RunKeepsInv(s: State, steps: seq<Step>, t: State, initial: nat)
    requires Inv(s) && IsMaximum(s.max, initial, s.posted) && Executes(s, steps, t)
    ensures Inv(t) && IsMaximum(t.max, initial, t.posted)
    decreases |steps|
  {
    if steps != [] {
      StepKeepsInv(s, steps[0]);
      RunKeepsInv(Apply(s, steps[0]), steps[1..], t, initial);
    }
  }

  /** Over every interleaving: max_number_ is the largest of the initial number and all
      posts; waiters_ has no duplicates and is exactly the blocked threads with larger
      numbers; a blocked thread whose number was reached is on a post's notify list or was
      notified. */
  lemma BoxIsRight(start: State, steps: seq<Step>, s: State)
    requires Init(start) && Executes(start, steps, s)
    ensures IsMaximum(s.max, start.max, s.posted)
    ensures ListsTheUnreached(s) && ReachedAreNotified(s)
  {
    RunKeepsInv(start, steps, s, start.max);
  }

  /** What each step does to the number and to a thread: a wait blocks exactly when the number has
      not been reached, a wakeup lets go exactly when it has, a timeout lets go in any case. */
  lemma {:induction false} WaitsForTheNumber(start: State, steps: seq<Step>, s: State, t: ThreadId, num: nat)
    requires Init(start) && Executes(start, steps, s)
    ensures Apply(s, PostStep(num)).max == if s.max < num then num else s.max
    ensures t !in s.blocked ==>
              var u := Apply(s, WaitStep(t, num));
              t in u.blocked <==> s.max < num
    ensures t in s.blocked ==>
              && Enabled(s, WakeStep(t)) && Enabled(s, TimeoutStep(t))
              && (t in Apply(s, WakeStep(t)).blocked <==> s.max < s.blocked[t])
              && t !in Apply(s, TimeoutStep(t)).blocked
  {
  }

  /** On the timeout path of any reachable state the CHECK holds: the number is still
      above max_number_ and the thread is on the list exactly once. */
  lemma TimeoutCheckHolds(start: State, steps: seq<Step>, s: State, t: ThreadId)
    requires Init(start) && Executes(start, steps, s) && t in s.blocked && !(s.blocked[t] <= s.max)
    ensures s.max < s.blocked[t] && |s.waiters| - |Without(s.waiters, t)| == 1
  {
    RunKeepsInv(start, steps, s, start.max);
    assert Waiter(t, s.blocked[t]) in s.waiters;
    WithoutOne(s.waiters, t, s.blocked[t]);
  }
}
