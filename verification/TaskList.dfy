/** Tasks of NonBlockingConditionVariable: kept in a linked list that requesters push to,
    and that a notification or the destructor takes over and walks. */
module TaskList {

  class Task {
    const id: nat
    var next: Task?
    var hasDone: bool

    constructor (id: nat)
      ensures this.id == id && next == null && !hasDone
    {
      this.id := id;
      next := null;
      hasDone := false;
    }

    /** has_done.exchange(true): true for the first caller only. */
    method ShouldIRun() returns (run: bool)
      modifies this`hasDone
      ensures run <==> !old(hasDone)
      ensures hasDone
    {
      run := !hasDone;
      hasDone := true;
    }
  }

  /** `list` is the chain of tasks that starts at `head`. */
  ghost predicate Linked(head: Task?, list: seq<Task>)
    reads list`next
  {
    && (forall i, j | 0 <= i < j < |list| :: list[i] != list[j])
    && (if list == [] then head == null
        else head == list[0]
             && list[|list| - 1].next == null
             && forall i, j | 0 <= i && j == i + 1 && j < |list| :: list[i].next == list[j])
  }

  /** The ids of the tasks of the list that have not run, in list order. */
  ghost function Unrun(list: seq<Task>): seq<nat>
    reads list`hasDone
  {
    if list == [] then []
    else (if list[0].hasDone then [] else [list[0].id]) + Unrun(list[1..])
  }

  /** runATaskList: every task of the list that has not run goes to the executor, in list
      order, and none is left unrun. */
  method RunATaskList(head: Task?, ghost list: seq<Task>) returns (added: seq<nat>)
    requires Linked(head, list)
    modifies list`hasDone
    ensures added == old(Unrun(list))
    ensures forall t | t in list :: t.hasDone
  {
    added := [];
    var current := head;
    ghost var i := 0;
    assert list[0..] == list;
    while current != null
      invariant 0 <= i <= |list|
      invariant current == if i < |list| then list[i] else null
      invariant forall k | 0 <= k < i :: list[k].hasDone
      invariant forall k | i <= k < |list| :: list[k].hasDone == old(list[k].hasDone)
      invariant added + old(Unrun(list[i..])) == old(Unrun(list))
      decreases |list| - i
    {
      assert list[i..][1..] == list[i + 1..];
      var run := current.ShouldIRun();
      if run {
        added := added + [current.id];
      }
      current := current.next;
      i := i + 1;
    }
  }

  class ConditionVariable {
    var tasks: Task?
    ghost var list: seq<Task>
    var executor: seq<nat>

    ghost predicate Valid()
      reads this, list
    {
      Linked(tasks, list)
    }

    constructor ()
      ensures Valid() && list == [] && executor == []
    {
      tasks := null;
      list := [];
      executor := [];
    }

    /** Put a task at the front of the pending list. */
    method Push(task: Task)
      requires Valid() && task !in list && task.next == null
      modifies this`tasks, this`list, task`next
      ensures Valid() && list == [task] + old(list)
    {
      task.next := tasks;
      tasks := task;
      list := [task] + list;
    }

    /** notifyAll: take the whole pending list over and run it. */
    method NotifyAll()
      requires Valid()
      modifies this, list
      ensures Valid() && list == []
      ensures executor == old(executor) + old(Unrun(list))
      ensures forall t | t in old(list) :: t.hasDone
    {
      var localTasks := tasks;
      ghost var localList := list;
      tasks := null;
      list := [];
      var added := RunATaskList(localTasks, localList);
      executor := executor + added;
    }
  }
}
