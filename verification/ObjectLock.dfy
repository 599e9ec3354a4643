/** ObjectLock: per-object mutexes kept in reference-counted nodes that come and go with
    the threads that hold or wait for an object. */
module ObjectLock {
  import opened Options

  // ----- the bucket: a list of nodes, updated in place -----

  class Node {
    var obj: nat
    var locked: bool
    var refCount: nat

    constructor ()
      ensures !locked && refCount == 0
    {
      obj, locked, refCount := 0, false, 0;
    }
  }

  class Bucket {
    var nodes: seq<Node>

    constructor ()
      ensures nodes == [] && Valid()
    {
      nodes := [];
    }

    /** At most one node per object, none of them unreferenced. */
    ghost predicate Valid()
      reads this, nodes
    {
      && (forall i, j | 0 <= i < j < |nodes| :: nodes[i] != nodes[j] && nodes[i].obj != nodes[j].obj)
      && (forall i | 0 <= i < |nodes| :: 0 < nodes[i].refCount)
    }

    /** FindNodeLocked: the node of the object, wherever it is in the list. */
    method Find(obj: nat) returns (at: nat)
      requires Valid()
      ensures at <= |nodes|
      ensures at < |nodes| ==> nodes[at].obj == obj
      ensures at == |nodes| ==> forall i | 0 <= i < |nodes| :: nodes[i].obj != obj
    {
      at := 0;
      while at < |nodes|
        invariant 0 <= at <= |nodes|
        invariant forall i | 0 <= i < at :: nodes[i].obj != obj
      {
        if nodes[at].obj == obj {
          return;
        }
        at := at + 1;
      }
    }

    /** The critical section of Lock: the object's node, with one more reference. `spare`
        is what alloc() returns when the object has no node. */
    method Enter(obj: nat, spare: Node) returns (node: Node)
      requires Valid() && spare !in nodes && spare.refCount == 0 && !spare.locked
      modifies this`nodes, nodes, spare
      ensures Valid() && node in nodes && node.obj == obj
      ensures node != spare ==> nodes == old(nodes) && node in old(nodes) && unchanged(spare)
      ensures node == spare ==> nodes == [spare] + old(nodes) && forall n | n in old(nodes) :: old(n.obj) != obj
      ensures node.refCount == old(node.refCount) + 1 && node.locked == old(node.locked)
      ensures forall n | n in old(nodes) && n != node :: unchanged(n)
    {
      var at := Find(obj);
      if at == |nodes| {
        spare.obj := obj;
        nodes := [spare] + nodes;
        at := 0;
      }
      node := nodes[at];
      node.refCount := node.refCount + 1;
    }

    /** TryLock: it succeeds exactly when the bucket's own mutex is free and the object has no
        node, and then the new node's mutex does not block. */
    method TryLock(obj: nat, spare: Node, bucketFree: bool) returns (acquired: bool)
      requires Valid() && spare !in nodes && spare.refCount == 0 && !spare.locked
      modifies this`nodes, spare
      ensures Valid()
      ensures acquired <==> bucketFree && forall n | n in old(nodes) :: old(n.obj) != obj
      ensures !acquired ==> nodes == old(nodes) && unchanged(spare)
      ensures acquired ==> nodes == [spare] + old(nodes) && spare.obj == obj && spare.refCount == 1 && spare.locked
    {
      if !bucketFree {
        return false;
      }
      var at := Find(obj);
      acquired := at == |nodes|;
      if acquired {
        spare.obj := obj;
        spare.refCount := spare.refCount + 1;
        spare.locked := true;
        nodes := [spare] + nodes;
      }
    }

    /** Unlock of an object some thread holds: its node has one reference less, and leaves
        the list when nobody references it. */
    method Unlock(obj: nat) returns (node: Node, ghost at: nat)
      requires Valid() && exists n :: n in nodes && n.obj == obj
      modifies this`nodes, nodes
      ensures Valid()
      ensures at < |old(nodes)| && node == old(nodes)[at] && node.obj == old(node.obj) == obj
      ensures !node.locked && node.refCount == old(node.refCount) - 1
      ensures nodes == if node.refCount == 0 then old(nodes)[..at] + old(nodes)[at + 1..] else old(nodes)
      ensures forall n | n in old(nodes) && n != node :: unchanged(n)
    {
      var i := Find(obj);
      at, node := i, nodes[i];
      assert node.refCount > 0;
      node.locked := false;
      node.refCount := node.refCount - 1;
      if node.refCount == 0 {
        nodes := nodes[..i] + nodes[i + 1..];
      }
    }
  }

  // ----- the step machine: any number of threads and objects -----

  type Object = nat
  type ThreadId = nat
  type NodeId = nat

  /** A node: its reference count and who holds its mutex. */
  datatype NodeState = NodeState(refCount: nat, holder: Option<ThreadId>)

  /** The object's node and the object a thread waits for. */
  datatype Wait = Wait(node: NodeId, obj: Object)

  /** `table` is what the buckets hold, `granted` what clients believe to hold; `broken`
      records a failed assertion, a use of a freed node, or a mutex that blocks inside a
      bucket's critical section. */
  datatype State = State(nodes: map<NodeId, NodeState>, table: map<Object, NodeId>, pool: seq<NodeId>,
                         waiting: map<ThreadId, Wait>, granted: set<(ThreadId, Object)>, capacity: nat,
                         nextId: NodeId, broken: bool)

  datatype Step =
    | EnterLock(t: ThreadId, obj: Object, fromPool: bool)
    | Acquire(t: ThreadId)
    | TryLock(t: ThreadId, obj: Object, fromPool: bool)
    | Unlock(t: ThreadId, obj: Object, toPool: bool)

  predicate Enabled(s: State, step: Step)
  {
    match step
    case EnterLock(t, o, fromPool) => t !in s.waiting && (fromPool ==> s.pool != [])
    case Acquire(t) =>
      t in s.waiting && (s.waiting[t].node in s.nodes ==> s.nodes[s.waiting[t].node].holder.None?)
    case TryLock(t, o, fromPool) => t !in s.waiting && (fromPool ==> s.pool != [])
    // each thread unlocks only what it holds
    case Unlock(t, o, toPool) => (t, o) in s.granted && (toPool ==> |s.pool| < s.capacity)
  }

  /** AllocNode: the node a thread gets, and the state without it in the pool. */
  function Alloc(s: State, fromPool: bool): (NodeId, State)
    requires fromPool ==> s.pool != []
  {
    if fromPool then (s.pool[0], s.(pool := s.pool[1..]))
    else (s.nextId, s.(nextId := s.nextId + 1, nodes := s.nodes[s.nextId := NodeState(0, None)]))
  }

  function Reference(s: State, n: NodeId): State
    requires n in s.nodes
  {
    s.(nodes := s.nodes[n := s.nodes[n].(refCount := s.nodes[n].refCount + 1)])
  }

  /** The table with a node for the object. */
  function WithNode(s: State, o: Object, fromPool: bool): State
    requires fromPool ==> s.pool != []
  {
    if o in s.table then s
    else
      var (n, s') := Alloc(s, fromPool);
      s'.(table := s'.table[o := n])
  }

  function Granted(s: State, n: NodeId, t: ThreadId, o: Object): State
    requires n in s.nodes
  {
    s.(nodes := s.nodes[n := s.nodes[n].(holder := Some(t))], granted := s.granted + {(t, o)})
  }

  /** Unlock on the object's node `n`: release the mutex, drop a reference, give the node
      back when it was the last. */
  function Release(s: State, n: NodeId, t: ThreadId, o: Object, toPool: bool): State
    requires n in s.nodes && s.nodes[n].refCount > 0
  {
    var left := s.nodes[n].refCount - 1;
    var s' := s.(nodes := s.nodes[n := NodeState(left, None)], granted := s.granted - {(t, o)});
    if left > 0 then s'
    else if toPool then s'.(table := s.table - {o}, pool := s.pool + [n])
    else s'.(table := s.table - {o}, nodes := s.nodes - {n})
  }

  ghost predicate Init(s: State)
  {
    && s.nodes == map[] && s.table == map[] && s.pool == [] && s.waiting == map[] && s.granted == {} && !s.broken
  }

  // ----- the invariant -----

  /** The threads waiting for a node's mutex. */
  function Waiters(waiting: map<ThreadId, Wait>, n: NodeId): set<ThreadId>
  {
    set t | t in waiting && waiting[t].node == n
  }

  function Holders(node: NodeState): nat
  {
    if node.holder.Some? then 1 else 0
  }

  /** A node in a bucket: its count is its holder plus its waiters, and its holder is the
      thread the object was granted to. */
  ghost predicate GoodEntry(s: State, o: Object)
    requires o in s.table
  {
    var n := s.table[o];
    && n in s.nodes && n !in s.pool
    && s.nodes[n].refCount == |Waiters(s.waiting, n)| + Holders(s.nodes[n]) > 0
    && (forall t :: (t, o) in s.granted <==> s.nodes[n].holder == Some(t))
  }

  /** Pooled nodes are unlocked and unreferenced. */
  ghost predicate GoodPool(s: State)
  {
    && (forall n | n in s.pool :: n in s.nodes && s.nodes[n] == NodeState(0, None) && Waiters(s.waiting, n) == {})
    && (forall i, j | 0 <= i < j < |s.pool| :: s.pool[i] != s.pool[j])
  }

  ghost predicate Inv(s: State)
  {
    && (forall o {:trigger GoodEntry(s, o)} | o in s.table :: GoodEntry(s, o))
    && (forall o, p | o in s.table && p in s.table && o != p :: s.table[o] != s.table[p])
    && GoodPool(s)
    && (forall t | t in s.waiting :: s.waiting[t].obj in s.table && s.table[s.waiting[t].obj] == s.waiting[t].node)
    && (forall t, o | (t, o) in s.granted :: o in s.table)
    && (forall n | n in s.nodes :: n < s.nextId)
    && !s.broken
  }

  function Broken(s: State): State
  {
    s.(broken := true)
  }

  /** The first part of Lock: find or add the node, reference it, wait for its mutex. */
  function Enter(s: State, t: ThreadId, o: Object, fromPool: bool): State
    requires fromPool ==> s.pool != []
  {
    var s' := WithNode(s, o, fromPool);
    var n := s'.table[o];
    if n in s'.nodes then Reference(s', n).(waiting := s.waiting[t := Wait(n, o)]) else Broken(s)
  }

  /** The second part of Lock, once the node's mutex is free. */
  function TakeMutex(s: State, t: ThreadId): State
    requires t in s.waiting
  {
    if s.waiting[t].node in s.nodes
    then Granted(s, s.waiting[t].node, t, s.waiting[t].obj).(waiting := s.waiting - {t})
    else Broken(s)
  }

  /** TryLock inside the bucket's critical section. */
  function TryEnter(s: State, t: ThreadId, o: Object, fromPool: bool): State
    requires fromPool ==> s.pool != []
  {
    if o in s.table then s
    else
      var s' := WithNode(s, o, fromPool);
      var n := s'.table[o];
      if n in s'.nodes && s'.nodes[n].holder.None? then Granted(Reference(s', n), n, t, o) else Broken(s)
  }

  function Leave(s: State, t: ThreadId, o: Object, toPool: bool): State
  {
    if o in s.table && s.table[o] in s.nodes && s.nodes[s.table[o]].refCount > 0
       && s.nodes[s.table[o]].holder == Some(t)
    then Release(s, s.table[o], t, o, toPool)
    else Broken(s)
  }

  function Apply(s: State, step: Step): State
    requires Enabled(s, step)
  {
    match step
    case EnterLock(t, o, fromPool) => Enter(s, t, o, fromPool)
    case Acquire(t) => TakeMutex(s, t)
    case TryLock(t, o, fromPool) => TryEnter(s, t, o, fromPool)
    case Unlock(t, o, toPool) => Leave(s, t, o, toPool)
  }

  /** The code's assertion in Unlock: the node is there, referenced, and its mutex is held
      by the very thread that unlocks. */
  lemma UnlockFindsNode(s: State, t: ThreadId, o: Object)
    requires Inv(s) && (t, o) in s.granted
    ensures o in s.table && s.table[o] in s.nodes
    ensures s.nodes[s.table[o]].refCount > 0 && s.nodes[s.table[o]].holder == Some(t)
  {
    assert GoodEntry(s, o);
  }

  lemma TableHasNode(s: State, o: Object, fromPool: bool)
    requires Inv(s) && (fromPool ==> s.pool != [])
    ensures o in WithNode(s, o, fromPool).table
    ensures var s' := WithNode(s, o, fromPool); s'.table[o] in s'.nodes
    ensures o !in s.table ==> var s' := WithNode(s, o, fromPool); s'.nodes[s'.table[o]] == NodeState(0, None)
  {
    if o in s.table {
      assert GoodEntry(s, o);
    } else if fromPool {
      assert s.pool[0] in s.pool;
    }
  }

  lemma WaitersAdd(waiting: map<ThreadId, Wait>, t: ThreadId, w: Wait, n: NodeId)
    requires t !in waiting
    ensures |Waiters(waiting[t := w], n)| == |Waiters(waiting, n)| + (if w.node == n then 1 else 0)
    ensures w.node != n ==> Waiters(waiting[t := w], n) == Waiters(waiting, n)
  {
    var more := waiting[t := w];
    if w.node == n {
      assert t !in Waiters(waiting, n);
      assert Waiters(more, n) == Waiters(waiting, n) + {t};
    } else {
      assert Waiters(more, n) == Waiters(waiting, n);
    }
  }

  lemma WaitersRemove(waiting: map<ThreadId, Wait>, t: ThreadId, n: NodeId)
    requires t in waiting
    ensures |Waiters(waiting - {t}, n)| == |Waiters(waiting, n)| - (if waiting[t].node == n then 1 else 0)
    ensures waiting[t].node != n ==> Waiters(waiting - {t}, n) == Waiters(waiting, n)
  {
    if waiting[t].node == n {
      assert t in Waiters(waiting, n);
      assert Waiters(waiting - {t}, n) == Waiters(waiting, n) - {t};
    } else {
      assert Waiters(waiting - {t}, n) == Waiters(waiting, n);
    }
  }

  /** A node of the state before a step that is neither listed nor pooled is nobody's: no
      thread waits for it. */
  lemma NobodyWaits(s: State, n: NodeId)
    requires Inv(s) && (forall o | o in s.table :: s.table[o] != n)
    ensures Waiters(s.waiting, n) == {}
  {
    if t :| t in Waiters(s.waiting, n) {
      assert s.table[s.waiting[t].obj] == n;
    }
  }

  lemma EnterEntry(s: State, t: ThreadId, o: Object, fromPool: bool, p: Object)
    requires Inv(s) && Enabled(s, EnterLock(t, o, fromPool))
    requires p in Enter(s, t, o, fromPool).table
    ensures GoodEntry(Enter(s, t, o, fromPool), p)
  {
    TableHasNode(s, o, fromPool);
    var s' := Enter(s, t, o, fromPool);
    var n := s'.table[o];
    WaitersAdd(s.waiting, t, Wait(n, o), s'.table[p]);
    if p in s.table {
      assert GoodEntry(s, p);
    } else {
      NobodyWaitsForNew(s, o, fromPool);
    }
  }

  /** Different objects keep different nodes, and pooled nodes stay out of the table. */
  lemma NewNodeIsApart(s: State, o: Object, fromPool: bool)
    requires Inv(s) && (fromPool ==> s.pool != [])
    ensures var s' := WithNode(s, o, fromPool);
            && (forall p, q | p in s'.table && q in s'.table && p != q :: s'.table[p] != s'.table[q])
            && s'.table[o] !in s'.pool && s'.waiting == s.waiting
            && (forall n | n in s'.pool :: n in s.pool && n in s'.nodes && s'.nodes[n] == s.nodes[n])
            && (forall i, j | 0 <= i < j < |s'.pool| :: s'.pool[i] != s'.pool[j])
            && (forall n | n in s'.nodes :: n < s'.nextId)
  {
    var s' := WithNode(s, o, fromPool);
    forall p | p in s.table ensures s.table[p] in s.nodes && s.table[p] !in s.pool {
      assert GoodEntry(s, p);
    }
    if o !in s.table && fromPool {
      assert s.pool[0] in s.pool;
    }
  }

  lemma EnterPool(s: State, t: ThreadId, o: Object, fromPool: bool)
    requires Inv(s) && Enabled(s, EnterLock(t, o, fromPool))
    ensures GoodPool(Enter(s, t, o, fromPool))
  {
    TableHasNode(s, o, fromPool);
    NewNodeIsApart(s, o, fromPool);
    var s' := Enter(s, t, o, fromPool);
    forall n | n in s'.pool ensures n in s'.nodes && s'.nodes[n] == NodeState(0, None) && Waiters(s'.waiting, n) == {} {
      WaitersAdd(s.waiting, t, Wait(s'.table[o], o), n);
    }
  }

  lemma EnterKeeps(s: State, t: ThreadId, o: Object, fromPool: bool)
    requires Inv(s) && Enabled(s, EnterLock(t, o, fromPool))
    ensures Inv(Enter(s, t, o, fromPool))
  {
    EnterPool(s, t, o, fromPool);
    var s' := Enter(s, t, o, fromPool);
    forall p | p in s'.table ensures GoodEntry(s', p) { EnterEntry(s, t, o, fromPool, p); }
    EnterLists(s, t, o, fromPool);
  }

  /** The table, the waiting threads and the numbering of nodes after the first part of Lock. */
  lemma EnterLists(s: State, t: ThreadId, o: Object, fromPool: bool)
    requires Inv(s) && Enabled(s, EnterLock(t, o, fromPool))
    ensures var s' := Enter(s, t, o, fromPool);
            && (forall p, q | p in s'.table && q in s'.table && p != q :: s'.table[p] != s'.table[q])
            && (forall u | u in s'.waiting ::
                  s'.waiting[u].obj in s'.table && s'.table[s'.waiting[u].obj] == s'.waiting[u].node)
            && (forall u, p | (u, p) in s'.granted :: p in s'.table)
            && (forall n | n in s'.nodes :: n < s'.nextId)
            && !s'.broken
  {
    TableHasNode(s, o, fromPool);
    NewNodeIsApart(s, o, fromPool);
  }

  lemma AcquireKeeps(s: State, t: ThreadId)
    requires Inv(s) && Enabled(s, Acquire(t))
    ensures Inv(TakeMutex(s, t))
  {
    var s' := TakeMutex(s, t);
    var o, n := s.waiting[t].obj, s.waiting[t].node;
    assert GoodEntry(s, o);
    forall p | p in s'.table ensures GoodEntry(s', p) {
      assert GoodEntry(s, p);
      WaitersRemove(s.waiting, t, s.table[p]);
    }
    forall m | m in s'.pool ensures m in s'.nodes && s'.nodes[m] == NodeState(0, None) && Waiters(s'.waiting, m) == {} {
      assert GoodEntry(s, o);
      WaitersRemove(s.waiting, t, m);
    }
  }

  lemma TryLockKeeps(s: State, t: ThreadId, o: Object, fromPool: bool)
    requires Inv(s) && Enabled(s, TryLock(t, o, fromPool))
    ensures Inv(TryEnter(s, t, o, fromPool))
  {
    if o !in s.table {
      TableHasNode(s, o, fromPool);
      NewNodeIsApart(s, o, fromPool);
      NobodyWaitsForNew(s, o, fromPool);
      var s' := TryEnter(s, t, o, fromPool);
      forall p | p in s'.table ensures GoodEntry(s', p) {
        if p in s.table { assert GoodEntry(s, p); }
      }
    }
  }

  lemma NobodyWaitsForNew(s: State, o: Object, fromPool: bool)
    requires Inv(s) && (fromPool ==> s.pool != []) && o !in s.table
    ensures Waiters(s.waiting, WithNode(s, o, fromPool).table[o]) == {}
  {
    var n := WithNode(s, o, fromPool).table[o];
    forall p | p in s.table ensures s.table[p] != n {
      assert GoodEntry(s, p);
    }
    NobodyWaits(s, n);
  }

  lemma UnlockEntry(s: State, t: ThreadId, o: Object, toPool: bool, p: Object)
    requires Inv(s) && Enabled(s, Unlock(t, o, toPool)) && o in s.table && s.table[o] in s.nodes
    requires s.nodes[s.table[o]].refCount > 0 && s.nodes[s.table[o]].holder == Some(t)
    requires p in Release(s, s.table[o], t, o, toPool).table
    ensures GoodEntry(Release(s, s.table[o], t, o, toPool), p)
  {
    assert GoodEntry(s, o) && GoodEntry(s, p);
  }

  /** Nobody waits for the node of an object that Unlock erases. */
  lemma UnlockWaiting(s: State, t: ThreadId, o: Object, toPool: bool)
    requires Inv(s) && o in s.table && s.table[o] in s.nodes && s.nodes[s.table[o]].refCount > 0
    requires s.nodes[s.table[o]].holder == Some(t)
    ensures var s' := Release(s, s.table[o], t, o, toPool);
            forall u | u in s'.waiting ::
              s'.waiting[u].obj in s'.table && s'.table[s'.waiting[u].obj] == s'.waiting[u].node
  {
    var n := s.table[o];
    assert GoodEntry(s, o);
    if s.nodes[n].refCount == 1 {
      assert Waiters(s.waiting, n) == {};
      forall u | u in s.waiting ensures s.waiting[u].obj != o {
        assert u !in Waiters(s.waiting, n);
      }
    }
  }

  lemma UnlockKeeps(s: State, t: ThreadId, o: Object, toPool: bool)
    requires Inv(s) && Enabled(s, Unlock(t, o, toPool))
    ensures Inv(Leave(s, t, o, toPool))
  {
    UnlockFindsNode(s, t, o);
    var s' := Release(s, s.table[o], t, o, toPool);
    assert GoodEntry(s, o);
    forall p | p in s'.table ensures GoodEntry(s', p) {
      UnlockEntry(s, t, o, toPool, p);
    }
    UnlockWaiting(s, t, o, toPool);
  }

  lemma StepKeepsInv(s: State, step: Step)
    requires Inv(s) && Enabled(s, step)
    ensures Inv(Apply(s, step))
  {
    match step
    case EnterLock(t, o, fromPool) => EnterKeeps(s, t, o, fromPool);
    case Acquire(t) => AcquireKeeps(s, t);
    case TryLock(t, o, fromPool) => TryLockKeeps(s, t, o, fromPool);
    case Unlock(t, o, toPool) => UnlockKeeps(s, t, o, toPool);
  }

  ghost predicate Executes(s: State, steps: seq<Step>, t: State)
    decreases |steps|
  {
    if steps == [] then s == t
    else Enabled(s, steps[0]) && Executes(Apply(s, steps[0]), steps[1..], t)
  }

  lemma {:induction false} RunKeepsInv(s: State, steps: seq<Step>, t: State)
    requires Inv(s) && Executes(s, steps, t)
    ensures Inv(t)
    decreases |steps|
  {
    if steps != [] {
      StepKeepsInv(s, steps[0]);
      RunKeepsInv(Apply(s, steps[0]), steps[1..], t);
    }
  }

  /** Mutual exclusion, over every run: at most one thread holds an object. */
  lemma MutualExclusion(start: State, steps: seq<Step>, s: State, t: ThreadId, u: ThreadId, o: Object)
    requires Init(start) && Executes(start, steps, s) && (t, o) in s.granted && (u, o) in s.granted
    ensures t == u
  {
    RunKeepsInv(start, steps, s);
    assert GoodEntry(s, o);
  }

  /** Over every run: no assertion fails, no freed node is touched, no mutex blocks inside
      a bucket; every object's node counts exactly its holder and its waiters; pooled
      nodes are unlocked and unreferenced; and once every client has returned what it
      took, no node is left in a bucket. */
  lemma NodesAreCounted(start: State, steps: seq<Step>, s: State)
    requires Init(start) && Executes(start, steps, s)
    ensures !s.broken && GoodPool(s)
    ensures forall o | o in s.table :: s.table[o] in s.nodes
              && s.nodes[s.table[o]].refCount == |Waiters(s.waiting, s.table[o])| + Holders(s.nodes[s.table[o]])
    ensures s.granted == {} && s.waiting == map[] ==> s.table == map[]
  {
    RunKeepsInv(start, steps, s);
    forall o | o in s.table
      ensures s.table[o] in s.nodes
      ensures s.nodes[s.table[o]].refCount == |Waiters(s.waiting, s.table[o])| + Holders(s.nodes[s.table[o]])
      ensures s.granted != {} || s.waiting != map[]
    {
      assert GoodEntry(s, o);
      var node := s.nodes[s.table[o]];
      assert node.holder.Some? ==> (node.holder.value, o) in s.granted;
      assert s.waiting == map[] ==> Waiters(s.waiting, s.table[o]) == {};
    }
  }

  // ----- what clients see -----

  /** Somebody holds the object or waits for it. */
  ghost predicate InUse(s: State, o: Object)
  {
    (exists t :: (t, o) in s.granted) || (exists t :: t in s.waiting && s.waiting[t].obj == o)
  }

  /** An object is in a bucket exactly while somebody holds it or waits for it. */
  lemma {:induction false} ListedWhileInUse(s: State, o: Object)
    requires Inv(s)
    ensures o in s.table <==> InUse(s, o)
  {
    if o in s.table {
      assert GoodEntry(s, o);
      var n := s.table[o];
      if s.nodes[n].holder.Some? {
        assert (s.nodes[n].holder.value, o) in s.granted;
      } else {
        assert Waiters(s.waiting, n) != {};
        var t :| t in Waiters(s.waiting, n);
        assert s.table[s.waiting[t].obj] == n;
      }
    }
  }

  /** The first part of Lock makes the thread wait for the object; nobody gains or loses one. */
  lemma {:induction false} LockWaits(start: State, steps: seq<Step>, s: State, t: ThreadId, o: Object, fromPool: bool)
    requires Init(start) && Executes(start, steps, s) && Enabled(s, EnterLock(t, o, fromPool))
    ensures var u := Apply(s, EnterLock(t, o, fromPool));
            && t in u.waiting && u.waiting[t].obj == o && u.waiting - {t} == s.waiting && u.granted == s.granted
  {
    RunKeepsInv(start, steps, s);
    EnterWaits(s, t, o, fromPool);
  }

  lemma {:induction false} EnterWaits(s: State, t: ThreadId, o: Object, fromPool: bool)
    requires Inv(s) && t !in s.waiting && (fromPool ==> s.pool != [])
    ensures var u := Enter(s, t, o, fromPool);
            && t in u.waiting && u.waiting[t].obj == o && u.waiting - {t} == s.waiting && u.granted == s.granted
  {
    TableHasNode(s, o, fromPool);
    var n := WithNode(s, o, fromPool).table[o];
    assert s.waiting[t := Wait(n, o)] - {t} == s.waiting;
  }

  /** A waiting thread goes on exactly when nobody holds the object, and then it holds it. */
  lemma {:induction false} LockIsGranted(start: State, steps: seq<Step>, s: State, t: ThreadId)
    requires Init(start) && Executes(start, steps, s) && t in s.waiting
    ensures Enabled(s, Acquire(t)) <==> forall u :: (u, s.waiting[t].obj) !in s.granted
    ensures Enabled(s, Acquire(t)) ==>
              && Apply(s, Acquire(t)).granted == s.granted + {(t, s.waiting[t].obj)}
              && Apply(s, Acquire(t)).waiting == s.waiting - {t}
  {
    RunKeepsInv(start, steps, s);
    assert GoodEntry(s, s.waiting[t].obj);
  }

  /** TryLock takes the object exactly when nobody holds it or waits for it. */
  lemma {:induction false} TryLockTakes(start: State, steps: seq<Step>, s: State, t: ThreadId, o: Object,
                                        fromPool: bool)
    requires Init(start) && Executes(start, steps, s) && Enabled(s, TryLock(t, o, fromPool))
    ensures var u := Apply(s, TryLock(t, o, fromPool));
            && u.granted == (if InUse(s, o) then s.granted else s.granted + {(t, o)}) && u.waiting == s.waiting
  {
    RunKeepsInv(start, steps, s);
    ListedWhileInUse(s, o);
    TableHasNode(s, o, fromPool);
  }

  /** Unlock gives up what the thread holds, and nothing else. */
  lemma {:induction false} UnlockReleases(start: State, steps: seq<Step>, s: State, t: ThreadId, o: Object,
                                          toPool: bool)
    requires Init(start) && Executes(start, steps, s) && Enabled(s, Unlock(t, o, toPool))
    ensures var u := Apply(s, Unlock(t, o, toPool)); u.granted == s.granted - {(t, o)} && u.waiting == s.waiting
  {
    RunKeepsInv(start, steps, s);
    UnlockFindsNode(s, t, o);
  }

  /** A thread that does not wait can always ask for an object, and one that holds it give it up. */
  lemma {:induction false} ClientsCanAct(s: State, t: ThreadId, o: Object)
    ensures t !in s.waiting ==> Enabled(s, EnterLock(t, o, false)) && Enabled(s, TryLock(t, o, false))
    ensures (t, o) in s.granted ==> Enabled(s, Unlock(t, o, false))
  {
  }

  // ----- the pool -----

  /** The pool is within its capacity, and every node is in the pool or in a bucket. */
  ghost predicate Kept(s: State)
  {
    |s.pool| <= s.capacity && forall n | n in s.nodes :: n in s.pool || Used(s, n)
  }

  ghost predicate Used(s: State, n: NodeId)
  {
    exists o :: o in s.table && s.table[o] == n
  }

  lemma {:induction false} StaysUsed(s: State, t: State, n: NodeId)
    requires Used(s, n) && forall o | o in s.table :: o in t.table && t.table[o] == s.table[o]
    ensures Used(t, n)
  {
    var o :| o in s.table && s.table[o] == n;
    assert o in t.table && t.table[o] == n;
  }

  lemma {:induction false} WithNodeKeeps(s: State, o: Object, fromPool: bool)
    requires Inv(s) && Kept(s) && (fromPool ==> s.pool != [])
    ensures Kept(WithNode(s, o, fromPool))
    ensures o !in s.table && fromPool ==>
              WithNode(s, o, fromPool).table[o] == s.pool[0] && WithNode(s, o, fromPool).pool == s.pool[1..]
    ensures o !in s.table && !fromPool ==>
              WithNode(s, o, fromPool).table[o] !in s.nodes && WithNode(s, o, fromPool).pool == s.pool
  {
    var t := WithNode(s, o, fromPool);
    if o !in s.table {
      assert t.table[o] == (if fromPool then s.pool[0] else s.nextId);
      forall n | n in t.nodes ensures n in t.pool || Used(t, n) {
        if n == t.table[o] {
          assert Used(t, n);
        } else {
          assert n in s.nodes;
          if Used(s, n) {
            StaysUsed(s, t, n);
          } else if fromPool {
            assert s.pool == [s.pool[0]] + s.pool[1..];
          }
        }
      }
    }
  }

  lemma {:induction false} SameNodesKept(s: State, t: State)
    requires Kept(s) && t.table == s.table && t.pool == s.pool && t.capacity == s.capacity
    requires forall n | n in t.nodes :: n in s.nodes
    ensures Kept(t)
  {
    forall n | n in t.nodes ensures n in t.pool || Used(t, n) {
      if Used(s, n) {
        StaysUsed(s, t, n);
      }
    }
  }

  /** The last one to give up an object gives its node back: to the pool, or to the heap. */
  lemma {:induction false} ReleaseKeeps(s: State, t: ThreadId, o: Object, toPool: bool)
    requires Inv(s) && Kept(s) && Enabled(s, Unlock(t, o, toPool))
    ensures Kept(Leave(s, t, o, toPool)) && o in s.table && s.table[o] in s.nodes
    ensures s.nodes[s.table[o]].refCount == 1 ==>
              var u := Leave(s, t, o, toPool);
              && o !in u.table
              && (if toPool then u.pool == s.pool + [s.table[o]] else u.pool == s.pool && s.table[o] !in u.nodes)
    ensures s.nodes[s.table[o]].refCount > 1 ==>
              Leave(s, t, o, toPool).table == s.table && Leave(s, t, o, toPool).pool == s.pool
  {
    UnlockFindsNode(s, t, o);
    var u := Leave(s, t, o, toPool);
    forall n | n in u.nodes ensures n in u.pool || Used(u, n) {
      assert n in s.nodes;
      if Used(s, n) && n != s.table[o] {
        var p :| p in s.table && s.table[p] == n;
        assert p in u.table && u.table[p] == n;
      } else if n == s.table[o] && u.table == s.table {
        assert Used(u, n);
      }
    }
  }

  lemma {:induction false} StepKeepsPool(s: State, step: Step)
    requires Inv(s) && Kept(s) && Enabled(s, step)
    ensures Kept(Apply(s, step))
  {
    match step
    case EnterLock(t, o, fromPool) =>
      WithNodeKeeps(s, o, fromPool);
      TableHasNode(s, o, fromPool);
      SameNodesKept(WithNode(s, o, fromPool), Apply(s, step));
    case Acquire(t) => SameNodesKept(s, Apply(s, step));
    case TryLock(t, o, fromPool) =>
      WithNodeKeeps(s, o, fromPool);
      TableHasNode(s, o, fromPool);
      if o !in s.table {
        SameNodesKept(WithNode(s, o, fromPool), Apply(s, step));
      }
    case Unlock(t, o, toPool) => ReleaseKeeps(s, t, o, toPool);
  }

  lemma {:induction false} RunKeepsPool(s: State, steps: seq<Step>, t: State)
    requires Inv(s) && Kept(s) && Executes(s, steps, t)
    ensures Inv(t) && Kept(t)
    decreases |steps|
  {
    if steps != [] {
      StepKeepsInv(s, steps[0]);
      StepKeepsPool(s, steps[0]);
      RunKeepsPool(Apply(s, steps[0]), steps[1..], t);
    }
  }

  /** No node leaks and the pool never outgrows its capacity, over every run. */
  lemma {:induction false} NodesAreKept(start: State, steps: seq<Step>, s: State)
    requires Init(start) && Executes(start, steps, s)
    ensures Kept(s)
  {
    RunKeepsPool(start, steps, s);
  }
}
