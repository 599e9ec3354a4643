/** Who may write to a rocksdb while its role changes: the shared and weak pointers of
    ApplicationDB and ReplicatedDB, the pull chain of a slave, and the remove/add
    procedure of an admin request, as a step machine over any number of threads and dbs.
    The per-db admin lock makes the admin requests of one db follow each other. */
module Handover {
  import opened Options

  type DbName = nat
  type AppId = nat
  type InstId = nat
  type ThreadId = nat

  datatype Role = Master | Slave

  /** The pull chain of a ReplicatedDB: it has none, it waits for a reply or a delay with
      a weak pointer only, or its callback runs in a thread that locked the pointer. */
  datatype Chain = NoChain | Dormant | InCallback(thread: ThreadId)

  /** A ReplicatedDB object: the threads that hold a strong pointer to it, besides the
      replicator's map. */
  datatype Instance = Instance(name: DbName, role: Role, holders: set<ThreadId>, chain: Chain)

  /** An ApplicationDB object with the threads that hold it, besides the manager's map.
      Its pointer to the ReplicatedDB is a raw one. */
  datatype App = App(name: DbName, instance: Option<InstId>, holders: set<ThreadId>)

  /** Where the admin request that removes and re-adds a db is. */
  datatype Admin =
    | Idle                                // no request at work on the db
    | WaitRefs(app: AppId)                // erased from dbs_, waiting for use_count() <= 1
    | Unmapping(instance: InstId)         // in ~ApplicationDB, before db_map_.remove
    | WaitExpired(instance: InstId)       // waiting for the weak pointer to expire
    | Removed                             // removeDB has returned

  datatype State = State(dbs: map<DbName, AppId>, apps: map<AppId, App>, dbMap: map<DbName, InstId>,
                         instances: map<InstId, Instance>, admin: map<DbName, Admin>,
                         gone: set<InstId>, nextId: nat)

  datatype Step =
    | GetApp(t: ThreadId, name: DbName)
    | DropApp(t: ThreadId, app: AppId)
    | UseApp(t: ThreadId, app: AppId)
    | LockInstance(t: ThreadId, i: InstId)
    | DropInstance(t: ThreadId, i: InstId)
    | BeginCallback(t: ThreadId, i: InstId)
    | PullWrite(i: InstId)
    | EndCallback(i: InstId)
    | Erase(name: DbName)
    | RefsGone(name: DbName)
    | Unmap(name: DbName)
    | Expire(name: DbName)
    | Add(name: DbName, role: Role, upstream: bool)

  function AdminOf(s: State, name: DbName): Admin
  {
    if name in s.admin then s.admin[name] else Idle
  }

  predicate Mapped(s: State, i: InstId)
  {
    i in s.instances && s.instances[i].name in s.dbMap && s.dbMap[s.instances[i].name] == i
  }

  /** No strong pointer is left: locking the weak one fails from now on. */
  predicate Expired(s: State, i: InstId)
  {
    i in s.instances && !Mapped(s, i) && s.instances[i].holders == {}
  }

  predicate Enabled(s: State, step: Step)
  {
    match step
    case GetApp(t, name) => name in s.dbs && s.dbs[name] in s.apps
    case DropApp(t, a) => a in s.apps && t in s.apps[a].holders
    case UseApp(t, a) => a in s.apps && t in s.apps[a].holders
    case LockInstance(t, i) => i in s.instances && !Expired(s, i)
    // a callback's thread keeps its pointer until the callback ends
    case DropInstance(t, i) => i in s.instances && t in s.instances[i].holders && s.instances[i].chain != InCallback(t)
    case BeginCallback(t, i) =>
      i in s.instances && s.instances[i].chain == Dormant && !Expired(s, i) && t !in s.instances[i].holders
    case PullWrite(i) => i in s.instances && s.instances[i].chain.InCallback?
    case EndCallback(i) => i in s.instances && s.instances[i].chain.InCallback?
    case Erase(name) => AdminOf(s, name) == Idle && name in s.dbs
    case RefsGone(name) =>
      && AdminOf(s, name).WaitRefs? && AdminOf(s, name).app in s.apps
      && s.apps[AdminOf(s, name).app].holders == {}
    case Unmap(name) => AdminOf(s, name).Unmapping?
    case Expire(name) => AdminOf(s, name).WaitExpired? && Expired(s, AdminOf(s, name).instance)
    case Add(name, _, _) => AdminOf(s, name) == Removed || (AdminOf(s, name) == Idle && name !in s.dbs)
  }

  function SetAdmin(s: State, name: DbName, admin: Admin): State
  {
    s.(admin := s.admin[name := admin])
  }

  function SetInstance(s: State, i: InstId, instance: Instance): State
  {
    s.(instances := s.instances[i := instance])
  }

  function AddApp(s: State, name: DbName, instance: Option<InstId>): State
  {
    var id := s.nextId;
    SetAdmin(s, name, Idle)
      .(dbs := s.dbs[name := id], apps := s.apps[id := App(name, instance, {})], nextId := id + 1)
  }

  /** RocksDBReplicator::addDB: a slave starts its pull chain. */
  function AddReplicated(s: State, name: DbName, role: Role): State
  {
    var id := s.nextId;
    AddApp(s, name, Some(id))
      .(dbMap := s.dbMap[name := id],
        instances := s.instances[id := Instance(name, role, {}, if role == Slave then Dormant else NoChain)])
  }

  /** ApplicationDB's constructor: a slave without an upstream is not replicated. */
  function AddDb(s: State, name: DbName, role: Role, upstream: bool): State
  {
    if role == Slave && !upstream then AddApp(s, name, None) else AddReplicated(s, name, role)
  }

  function EraseDb(s: State, name: DbName): State
    requires name in s.dbs
  {
    SetAdmin(s, name, WaitRefs(s.dbs[name])).(dbs := s.dbs - {name})
  }

  /** ~ApplicationDB begins; without a ReplicatedDB there is nothing to unregister. */
  function DestroyApp(s: State, name: DbName): State
    requires AdminOf(s, name).WaitRefs? && AdminOf(s, name).app in s.apps
  {
    var a := AdminOf(s, name).app;
    var next := if s.apps[a].instance.Some? then Unmapping(s.apps[a].instance.value) else Removed;
    SetAdmin(s, name, next).(apps := s.apps - {a})
  }

  function Apply(s: State, step: Step): State
    requires Enabled(s, step)
  {
    match step
    case GetApp(t, name) =>
      var a := s.dbs[name];
      s.(apps := s.apps[a := s.apps[a].(holders := s.apps[a].holders + {t})])
    case DropApp(t, a) => s.(apps := s.apps[a := s.apps[a].(holders := s.apps[a].holders - {t})])
    case UseApp(t, a) => s
    case LockInstance(t, i) => SetInstance(s, i, s.instances[i].(holders := s.instances[i].holders + {t}))
    case DropInstance(t, i) => SetInstance(s, i, s.instances[i].(holders := s.instances[i].holders - {t}))
    case BeginCallback(t, i) =>
      SetInstance(s, i, s.instances[i].(holders := s.instances[i].holders + {t}, chain := InCallback(t)))
    case PullWrite(_) => s
    case EndCallback(i) =>
      var r := s.instances[i];
      SetInstance(s, i, r.(holders := r.holders - {r.chain.thread}, chain := Dormant))
    case Erase(name) => EraseDb(s, name)
    case RefsGone(name) => DestroyApp(s, name)
    case Unmap(name) => SetAdmin(s, name, WaitExpired(AdminOf(s, name).instance)).(dbMap := s.dbMap - {name})
    case Expire(name) => SetAdmin(s, name, Removed).(gone := s.gone + {AdminOf(s, name).instance})
    case Add(name, role, upstream) => AddDb(s, name, role, upstream)
  }

  predicate Init(s: State)
  {
    s == State(map[], map[], map[], map[], map[], {}, 0)
  }

  // ----- the invariant -----

  /** What an admin request's place says about a db. */
  ghost predicate GoodAdmin(s: State, name: DbName)
  {
    match AdminOf(s, name)
    case Idle => name !in s.dbs ==> name !in s.dbMap
    case WaitRefs(a) =>
      && name !in s.dbs && a in s.apps && s.apps[a].name == name
      && (s.apps[a].instance.Some? <==> name in s.dbMap)
      && (s.apps[a].instance.Some? ==> s.dbMap[name] == s.apps[a].instance.value)
    case Unmapping(i) => name !in s.dbs && name in s.dbMap && s.dbMap[name] == i
    case WaitExpired(i) => name !in s.dbs && name !in s.dbMap && i in s.instances && s.instances[i].name == name
    case Removed => name !in s.dbs && name !in s.dbMap
  }

  /** An ApplicationDB is in the manager's map or waits there for its last holder; either
      way its raw pointer is to the ReplicatedDB in the replicator's map. */
  ghost predicate GoodApp(s: State, a: AppId)
    requires a in s.apps
  {
    var app := s.apps[a];
    && ((app.name in s.dbs && s.dbs[app.name] == a) || AdminOf(s, app.name) == WaitRefs(a))
    && (app.instance.Some? <==> app.name in s.dbMap)
    && (app.instance.Some? ==> s.dbMap[app.name] == app.instance.value)
  }

  /** A ReplicatedDB somebody can still reach is its db's current one, or the one the
      admin request is waiting for; and those that removeDB waited for are unreachable. */
  ghost predicate GoodInstance(s: State, i: InstId)
    requires i in s.instances
  {
    var r := s.instances[i];
    && (!Expired(s, i) ==> Mapped(s, i) || AdminOf(s, r.name) == WaitExpired(i))
    && (i in s.gone ==> Expired(s, i))
    && (r.role == Master <==> r.chain == NoChain)
    && (r.chain.InCallback? ==> r.chain.thread in r.holders)
  }

  ghost predicate Maps(s: State)
  {
    && (forall name {:trigger s.dbs[name]} | name in s.dbs :: s.dbs[name] in s.apps && s.apps[s.dbs[name]].name == name)
    && (forall name {:trigger s.dbMap[name]} | name in s.dbMap ::
          s.dbMap[name] in s.instances && s.instances[s.dbMap[name]].name == name)
    && s.gone <= s.instances.Keys
    && (forall a | a in s.apps :: a < s.nextId)
    && (forall i | i in s.instances :: i < s.nextId)
  }

  ghost predicate Inv(s: State)
  {
    && Maps(s)
    && (forall name :: GoodAdmin(s, name))
    && (forall a {:trigger GoodApp(s, a)} | a in s.apps :: GoodApp(s, a))
    && (forall i {:trigger GoodInstance(s, i)} | i in s.instances :: GoodInstance(s, i))
  }

  predicate ByAdmin(step: Step)
  {
    step.Erase? || step.RefsGone? || step.Unmap? || step.Expire? || step.Add?
  }

  // --- threads: they only move pointers around ---

  /** The maps and the admin requests are the same, and so is what every object is. */
  ghost predicate OnlyPointersMoved(s: State, t: State)
  {
    && t.dbs == s.dbs && t.dbMap == s.dbMap && t.admin == s.admin && t.gone == s.gone && t.nextId == s.nextId
    && t.apps.Keys == s.apps.Keys && t.instances.Keys == s.instances.Keys
    && (forall a {:trigger t.apps[a]} | a in s.apps ::
          t.apps[a].name == s.apps[a].name && t.apps[a].instance == s.apps[a].instance)
    && (forall i {:trigger t.instances[i]} | i in s.instances ::
          t.instances[i].name == s.instances[i].name && t.instances[i].role == s.instances[i].role)
  }

  lemma ThreadStepFrame(s: State, step: Step)
    requires Enabled(s, step) && !ByAdmin(step)
    ensures OnlyPointersMoved(s, Apply(s, step))
  {
  }

  lemma ThreadStepKeepsInstance(s: State, step: Step, i: InstId)
    requires Enabled(s, step) && !ByAdmin(step) && i in s.instances && GoodInstance(s, i)
    ensures i in Apply(s, step).instances && GoodInstance(Apply(s, step), i)
  {
  }

  lemma ThreadStepKeepsInv(s: State, step: Step)
    requires Inv(s) && Enabled(s, step) && !ByAdmin(step)
    ensures Inv(Apply(s, step))
  {
    var t := Apply(s, step);
    ThreadStepFrame(s, step);
    forall name ensures GoodAdmin(t, name) { assert GoodAdmin(s, name); }
    forall a | a in t.apps ensures GoodApp(t, a) { assert GoodApp(s, a); }
    forall i | i in t.instances ensures GoodInstance(t, i) {
      assert GoodInstance(s, i);
      ThreadStepKeepsInstance(s, step, i);
    }
  }

  // --- admin requests ---

  lemma EraseKeeps(s: State, name: DbName)
    requires Inv(s) && Enabled(s, Erase(name))
    ensures Inv(EraseDb(s, name))
  {
    var t := EraseDb(s, name);
    assert GoodAdmin(s, name) && GoodApp(s, s.dbs[name]);
    forall n ensures GoodAdmin(t, n) { assert GoodAdmin(s, n); }
    forall a | a in t.apps ensures GoodApp(t, a) { assert GoodApp(s, a); }
    forall i | i in t.instances ensures GoodInstance(t, i) { assert GoodInstance(s, i); }
  }

  lemma DestroyAppKeeps(s: State, name: DbName)
    requires Inv(s) && Enabled(s, RefsGone(name))
    ensures Inv(DestroyApp(s, name))
  {
    var t := DestroyApp(s, name);
    assert GoodAdmin(s, name);
    forall n ensures GoodAdmin(t, n) { assert GoodAdmin(s, n); }
    forall a | a in t.apps ensures GoodApp(t, a) { assert GoodApp(s, a); }
    forall i | i in t.instances ensures GoodInstance(t, i) { assert GoodInstance(s, i); }
  }

  /** Unregistering leaves nothing but what other threads still hold. */
  lemma UnmapKeeps(s: State, name: DbName)
    requires Inv(s) && Enabled(s, Unmap(name))
    ensures Inv(Apply(s, Unmap(name)))
  {
    var t := Apply(s, Unmap(name));
    assert GoodAdmin(s, name);
    forall n ensures GoodAdmin(t, n) { assert GoodAdmin(s, n); }
    forall a | a in t.apps ensures GoodApp(t, a) { assert GoodApp(s, a); }
    forall i | i in t.instances ensures GoodInstance(t, i) { assert GoodInstance(s, i); }
  }

  lemma ExpireKeeps(s: State, name: DbName)
    requires Inv(s) && Enabled(s, Expire(name))
    ensures Inv(Apply(s, Expire(name)))
  {
    var t := Apply(s, Expire(name));
    assert GoodAdmin(s, name);
    forall n ensures GoodAdmin(t, n) { assert GoodAdmin(s, n); }
    forall a | a in t.apps ensures GoodApp(t, a) { assert GoodApp(s, a); }
    forall i | i in t.instances ensures GoodInstance(t, i) { assert GoodInstance(s, i); }
  }

  /** The db has no ApplicationDB and no ReplicatedDB. */
  ghost predicate Absent(s: State, name: DbName)
  {
    AdminOf(s, name) in {Idle, Removed} && name !in s.dbs && name !in s.dbMap
  }

  lemma AddAppKeeps(s: State, name: DbName)
    requires Inv(s) && Absent(s, name)
    ensures Inv(AddApp(s, name, None))
  {
    var t := AddApp(s, name, None);
    forall n ensures GoodAdmin(t, n) { assert GoodAdmin(s, n); }
    forall a | a in t.apps ensures GoodApp(t, a) { assert a in s.apps ==> GoodApp(s, a); }
    forall i | i in t.instances ensures GoodInstance(t, i) { assert GoodInstance(s, i); }
  }

  /** A ReplicatedDB is only added when none of the db is reachable. */
  lemma AddReplicatedInstance(s: State, name: DbName, role: Role, i: InstId)
    requires Maps(s) && Absent(s, name) && (i in s.instances ==> GoodInstance(s, i))
    requires i in AddReplicated(s, name, role).instances
    ensures GoodInstance(AddReplicated(s, name, role), i)
  {
  }

  lemma AddReplicatedApp(s: State, name: DbName, role: Role, a: AppId)
    requires Maps(s) && Absent(s, name) && (a in s.apps ==> GoodApp(s, a))
    requires a in AddReplicated(s, name, role).apps
    ensures GoodApp(AddReplicated(s, name, role), a)
  {
  }

  lemma AddReplicatedMaps(s: State, name: DbName, role: Role)
    requires Maps(s)
    ensures Maps(AddReplicated(s, name, role))
  {
  }

  lemma AddReplicatedAdmin(s: State, name: DbName, role: Role, n: DbName)
    requires Maps(s) && Absent(s, name) && GoodAdmin(s, n)
    ensures GoodAdmin(AddReplicated(s, name, role), n)
  {
  }

  lemma AddReplicatedKeeps(s: State, name: DbName, role: Role)
    requires Inv(s) && Absent(s, name)
    ensures Inv(AddReplicated(s, name, role))
  {
    var t := AddReplicated(s, name, role);
    AddReplicatedMaps(s, name, role);
    forall n ensures GoodAdmin(t, n) { AddReplicatedAdmin(s, name, role, n); }
    forall a | a in t.apps ensures GoodApp(t, a) {
      assert a in s.apps ==> GoodApp(s, a);
      AddReplicatedApp(s, name, role, a);
    }
    forall i | i in t.instances ensures GoodInstance(t, i) {
      assert i in s.instances ==> GoodInstance(s, i);
      AddReplicatedInstance(s, name, role, i);
    }
  }

  lemma AddKeeps(s: State, name: DbName, role: Role, upstream: bool)
    requires Inv(s) && Enabled(s, Add(name, role, upstream))
    ensures Inv(AddDb(s, name, role, upstream))
  {
    assert GoodAdmin(s, name);
    if role == Slave && !upstream {
      AddAppKeeps(s, name);
    } else {
      AddReplicatedKeeps(s, name, role);
    }
  }

  lemma StepKeepsInv(s: State, step: Step)
    requires Inv(s) && Enabled(s, step)
    ensures Inv(Apply(s, step))
  {
    match step
    case Erase(name) => EraseKeeps(s, name);
    case RefsGone(name) => DestroyAppKeeps(s, name);
    case Unmap(name) => UnmapKeeps(s, name);
    case Expire(name) => ExpireKeeps(s, name);
    case Add(name, role, upstream) => AddKeeps(s, name, role, upstream);
    case _ => ThreadStepKeepsInv(s, step);
  }

  // ----- runs -----

  ghost predicate Executes(s: State, steps: seq<Step>, t: State)
    decreases |steps|
  {
    if steps == [] then s == t
    else Enabled(s, steps[0]) && Executes(Apply(s, steps[0]), steps[1..], t)
  }

  ghost predicate Reaches(s: State, t: State)
  {
    exists steps :: Executes(s, steps, t)
  }

  lemma {:induction false} RunsJoin(s: State, a: seq<Step>, t: State, b: seq<Step>, u: State)
    returns (all: seq<Step>)
    requires Executes(s, a, t) && Executes(t, b, u)
    ensures Executes(s, all, u)
    decreases |a|
  {
    if a == [] {
      all := b;
    } else {
      var rest := RunsJoin(Apply(s, a[0]), a[1..], t, b, u);
      all := Before(s, a[0], rest, u);
    }
  }

  lemma ReachesTransitive(s: State, t: State, u: State)
    requires Reaches(s, t) && Reaches(t, u)
    ensures Reaches(s, u)
  {
    var a :| Executes(s, a, t);
    var b :| Executes(t, b, u);
    var all := RunsJoin(s, a, t, b, u);
  }

  lemma Then(s: State, t: State, step: Step)
    requires Reaches(s, t) && Enabled(t, step)
    ensures Reaches(s, Apply(t, step))
  {
    var u := Apply(t, step);
    assert Executes(u, [], u);
    var steps := Before(t, step, [], u);
    ReachesTransitive(s, t, u);
  }

  lemma Stay(s: State)
    ensures Reaches(s, s)
  {
    assert Executes(s, [], s);
  }

  lemma {:induction false} RunKeepsInv(s: State, steps: seq<Step>, t: State)
    requires Inv(s) && Executes(s, steps, t)
    ensures Inv(t) && s.gone <= t.gone
    decreases |steps|
  {
    if steps != [] {
      StepKeepsInv(s, steps[0]);
      RunKeepsInv(Apply(s, steps[0]), steps[1..], t);
    }
  }

  /** At every moment a rocksdb has at most one ReplicatedDB that anybody can reach, hence
      at most one pull chain that can still act. */
  lemma AtMostOneLive(start: State, steps: seq<Step>, s: State, i: InstId, j: InstId)
    requires Init(start) && Executes(start, steps, s)
    requires i in s.instances && j in s.instances && s.instances[i].name == s.instances[j].name
    requires !Expired(s, i) && !Expired(s, j)
    ensures i == j
  {
    RunKeepsInv(start, steps, s);
    assert GoodInstance(s, i) && GoodInstance(s, j) && GoodAdmin(s, s.instances[i].name);
  }

  lemma ExpiredStays(s: State, step: Step, i: InstId)
    requires Inv(s) && Enabled(s, step) && Expired(s, i)
    ensures Expired(Apply(s, step), i)
  {
    assert GoodInstance(s, i);
  }

  lemma {:induction false} ExpiredForGood(s: State, steps: seq<Step>, t: State, i: InstId)
    requires Inv(s) && Executes(s, steps, t) && Expired(s, i)
    ensures Inv(t) && Expired(t, i)
    decreases |steps|
  {
    if steps != [] {
      StepKeepsInv(s, steps[0]);
      ExpiredStays(s, steps[0], i);
      ExpiredForGood(Apply(s, steps[0]), steps[1..], t, i);
    }
  }

  /** No pull callback of the ReplicatedDB can begin or write. */
  ghost predicate Silent(s: State, i: InstId)
  {
    !Enabled(s, PullWrite(i)) && forall thread :: !Enabled(s, BeginCallback(thread, i))
  }

  /** Once removeDB has returned, no pull callback of the removed ReplicatedDB can ever
      write again, in whatever run follows. */
  lemma NoWriteAfterRemoval(start: State, steps: seq<Step>, s: State, later: seq<Step>, t: State, i: InstId)
    requires Init(start) && Executes(start, steps, s) && (i in s.gone || Expired(s, i))
    requires Executes(s, later, t)
    ensures Silent(t, i)
  {
    RunKeepsInv(start, steps, s);
    assert GoodInstance(s, i);
    ExpiredForGood(s, later, t, i);
    assert GoodInstance(t, i);
  }

  /** None of the db's ReplicatedDBs can write to it, now or in any later run. */
  ghost predicate SilentForGood(s: State, name: DbName)
  {
    forall t, i {:trigger Reaches(s, t), Silent(t, i)} |
      Reaches(s, t) && i in s.instances && s.instances[i].name == name :: Silent(t, i)
  }

  lemma RemovedIsSilent(s: State, name: DbName)
    requires Inv(s) && AdminOf(s, name) == Removed
    ensures SilentForGood(s, name)
  {
    RemovedMeansUnreachable(s, name);
    forall t, i | Reaches(s, t) && i in s.instances && s.instances[i].name == name ensures Silent(t, i) {
      assert Expired(s, i);
      var steps :| Executes(s, steps, t);
      ExpiredForGood(s, steps, t, i);
      assert GoodInstance(t, i);
    }
  }

  /** When removeDB has returned, nothing of the db is reachable; when the db has been
      added again as MASTER, no pull chain can write to it. */
  lemma NoChainOnMaster(start: State, steps: seq<Step>, s: State, name: DbName, i: InstId)
    requires Init(start) && Executes(start, steps, s)
    requires i in s.instances && s.instances[i].name == name
    ensures AdminOf(s, name) == Removed ==> Expired(s, i)
    ensures name in s.dbMap && s.dbMap[name] in s.instances && s.instances[s.dbMap[name]].role == Master ==>
              !Enabled(s, PullWrite(i))
  {
    RunKeepsInv(start, steps, s);
    assert GoodInstance(s, i) && GoodAdmin(s, name);
    if name in s.dbMap {
      assert GoodInstance(s, s.dbMap[name]);
    }
  }

  /** A thread that holds an ApplicationDB can use its raw pointer: the ReplicatedDB it
      points to has not been destroyed. */
  lemma RawPointerIsGood(start: State, steps: seq<Step>, s: State, t: ThreadId, a: AppId)
    requires Init(start) && Executes(start, steps, s) && Enabled(s, UseApp(t, a))
    ensures s.apps[a].instance.Some? ==>
              && s.apps[a].instance.value in s.instances
              && Mapped(s, s.apps[a].instance.value) && !Expired(s, s.apps[a].instance.value)
  {
    RunKeepsInv(start, steps, s);
    assert GoodApp(s, a);
  }

  // ----- the admin request -----

  /** Whatever all other threads do; all the caller knows is that it is some run that no
      admin request of `name` takes part in. */
  method Interfere(s: State, name: DbName) returns (t: State)
    ensures Meanwhile(s, t, name)
  {
    t := s;
    assert Spares(s, [], t, name);
  }

  ghost predicate Spares(s: State, steps: seq<Step>, t: State, name: DbName)
  {
    Executes(s, steps, t) && forall k | 0 <= k < |steps| :: !(ByAdmin(steps[k]) && steps[k].name == name)
  }

  ghost predicate Meanwhile(s: State, t: State, name: DbName)
  {
    exists steps :: Spares(s, steps, t, name)
  }

  lemma SparedStep(s: State, step: Step, name: DbName)
    requires Enabled(s, step) && !(ByAdmin(step) && step.name == name)
    ensures AdminOf(Apply(s, step), name) == AdminOf(s, name)
  {
  }

  lemma {:induction false} SparedRun(s: State, steps: seq<Step>, t: State, name: DbName)
    requires Inv(s) && Spares(s, steps, t, name)
    ensures Inv(t) && AdminOf(t, name) == AdminOf(s, name)
    decreases |steps|
  {
    if steps != [] {
      StepKeepsInv(s, steps[0]);
      SparedStep(s, steps[0], name);
      SparedRun(Apply(s, steps[0]), steps[1..], t, name);
    }
  }

  lemma MeanwhileKeeps(s: State, t: State, name: DbName)
    requires Inv(s) && Meanwhile(s, t, name)
    ensures Inv(t) && AdminOf(t, name) == AdminOf(s, name) && Reaches(s, t)
  {
    var steps :| Spares(s, steps, t, name);
    SparedRun(s, steps, t, name);
  }

  /** waitOnApplicationDBRef: look until nobody else holds the erased ApplicationDB.
      `patience` bounds how often the loop looks again; the code looks forever. */
  method WaitOnApplicationDbRef(s0: State, name: DbName, patience: nat) returns (s: State, free: bool)
    requires Inv(s0) && AdminOf(s0, name).WaitRefs?
    ensures Inv(s) && AdminOf(s, name) == AdminOf(s0, name) && Reaches(s0, s)
    ensures free <==> Enabled(s, RefsGone(name))
  {
    s := s0;
    Stay(s0);
    var looks := 0;
    while !Enabled(s, RefsGone(name)) && looks < patience
      invariant Inv(s) && AdminOf(s, name) == AdminOf(s0, name) && Reaches(s0, s)
      decreases patience - looks
    {
      var t := Interfere(s, name);
      MeanwhileKeeps(s, t, name);
      ReachesTransitive(s0, s, t);
      s, looks := t, looks + 1;
    }
    free := Enabled(s, RefsGone(name));
  }

  /** RocksDBReplicator::removeDB: take the ReplicatedDB out of the map, then look until
      its weak pointer has expired. */
  method RemoveFromReplicator(s0: State, name: DbName, patience: nat) returns (s: State, expired: bool)
    requires Inv(s0) && AdminOf(s0, name).Unmapping?
    ensures Inv(s) && Reaches(s0, s)
    ensures expired ==> AdminOf(s, name) == Removed && AdminOf(s0, name).instance in s.gone
    ensures !expired ==> AdminOf(s, name) == WaitExpired(AdminOf(s0, name).instance) && !Enabled(s, Expire(name))
  {
    StepKeepsInv(s0, Unmap(name));
    Stay(s0);
    Then(s0, s0, Unmap(name));
    s := Apply(s0, Unmap(name));
    var looks := 0;
    while !Enabled(s, Expire(name)) && looks < patience
      invariant Inv(s) && AdminOf(s, name) == WaitExpired(AdminOf(s0, name).instance) && Reaches(s0, s)
      decreases patience - looks
    {
      var t := Interfere(s, name);
      MeanwhileKeeps(s, t, name);
      ReachesTransitive(s0, s, t);
      s, looks := t, looks + 1;
    }
    expired := Enabled(s, Expire(name));
    if expired {
      StepKeepsInv(s, Expire(name));
      Then(s0, s, Expire(name));
      s := Apply(s, Expire(name));
    }
  }

  lemma RemovedMeansUnreachable(s: State, name: DbName)
    requires Inv(s) && AdminOf(s, name) == Removed
    ensures forall i {:trigger Expired(s, i)} | i in s.instances && s.instances[i].name == name :: Expired(s, i)
  {
    forall i {:trigger Expired(s, i)} | i in s.instances && s.instances[i].name == name ensures Expired(s, i) {
      assert GoodInstance(s, i) && GoodAdmin(s, name);
    }
  }

  /** Somebody else still holds the ApplicationDB or the ReplicatedDB that is being removed. */
  ghost predicate StillInUse(s: State, name: DbName)
  {
    || (AdminOf(s, name).WaitRefs? && !Enabled(s, RefsGone(name)))
    || (AdminOf(s, name).WaitExpired? && !Enabled(s, Expire(name)))
  }

  /** ApplicationDBManager::removeDB with ApplicationDB's destructor in it: erase the db,
      wait until nobody else holds the ApplicationDB, unregister its ReplicatedDB and wait
      until that has expired. When it is through, no ReplicatedDB of the db is reachable, and
      none will ever write to it again. */
  method RemoveDb(s0: State, name: DbName, patience: nat) returns (s: State, removed: bool)
    requires Inv(s0) && AdminOf(s0, name) == Idle && name in s0.dbs
    ensures Inv(s) && Reaches(s0, s)
    ensures removed ==> AdminOf(s, name) == Removed && SilentForGood(s, name)
    ensures removed ==>
              forall i {:trigger Expired(s, i)} | i in s.instances && s.instances[i].name == name :: Expired(s, i)
    ensures !removed ==> StillInUse(s, name)
  {
    StepKeepsInv(s0, Erase(name));
    Stay(s0);
    Then(s0, s0, Erase(name));
    var t := Apply(s0, Erase(name));
    s, removed := WaitOnApplicationDbRef(t, name, patience);
    ReachesTransitive(s0, t, s);
    if removed {
      t := DestroyApplicationDb(s, name);
      ReachesTransitive(s0, s, t);
      s := t;
      if AdminOf(s, name).Unmapping? {
        s, removed := RemoveFromReplicator(t, name, patience);
        ReachesTransitive(s0, t, s);
      }
      if removed {
        RemovedMeansUnreachable(s, name);
        RemovedIsSilent(s, name);
      }
    }
  }

  /** ~ApplicationDB up to the removal from the replicator. */
  method DestroyApplicationDb(s0: State, name: DbName) returns (s: State)
    requires Inv(s0) && Enabled(s0, RefsGone(name))
    ensures Inv(s) && Reaches(s0, s) && (AdminOf(s, name) == Removed || AdminOf(s, name).Unmapping?)
  {
    StepKeepsInv(s0, RefsGone(name));
    Stay(s0);
    Then(s0, s0, RefsGone(name));
    var t := Apply(s0, RefsGone(name));
    s := Interfere(t, name);
    MeanwhileKeeps(t, s, name);
    ReachesTransitive(s0, t, s);
  }

  /** The role-change request: remove the db, add it again with the new role. When it is
      through, the new ReplicatedDB is the only one of the db that can be reached; for a
      MASTER none of the db's pull chains can write, and a SLAVE with an upstream starts to pull. */
  method ChangeDbRoleAndUpstream(s0: State, name: DbName, role: Role, upstream: bool, patience: nat)
    returns (s: State, done: bool)
    requires Inv(s0) && AdminOf(s0, name) == Idle && name in s0.dbs
    ensures Inv(s) && Reaches(s0, s)
    ensures done ==> name in s.dbs && (role == Master || upstream ==> name in s.dbMap && s.dbMap[name] in s.instances)
    ensures done && (role == Master || upstream) ==> s.instances[s.dbMap[name]].role == role
    ensures !done ==> StillInUse(s, name)
    ensures done ==>
              forall i {:trigger Expired(s, i)} | i in s.instances && s.instances[i].name == name && !Expired(s, i) ::
                Mapped(s, i) && s.instances[i].role == role
    ensures done && role == Slave && upstream ==> forall t :: Enabled(s, BeginCallback(t, s.dbMap[name]))
    ensures done && role == Master ==>
              forall i {:trigger s.instances[i]} | i in s.instances && s.instances[i].name == name ::
                !Enabled(s, PullWrite(i))
  {
    s, done := RemoveDb(s0, name, patience);
    if !done {
      return;
    }
    var r := Interfere(s, name);
    MeanwhileKeeps(s, r, name);
    ReachesTransitive(s0, s, r);
    RemovedMeansUnreachable(r, name);
    StepKeepsInv(r, Add(name, role, upstream));
    Then(s0, r, Add(name, role, upstream));
    s := AddDb(r, name, role, upstream);
    NewOneActs(r, name, role, upstream);
    forall i {:trigger s.instances[i]} | i in s.instances && s.instances[i].name == name
      ensures role == Master ==> !Enabled(s, PullWrite(i))
      ensures !Expired(s, i) ==> Mapped(s, i) && s.instances[i].role == role
    {
      OnlyTheNewOne(r, name, role, upstream, i);
    }
  }

  /** An added db is registered in its role, and as a slave it starts to pull. */
  lemma NewOneActs(r: State, name: DbName, role: Role, upstream: bool)
    ensures var s := AddDb(r, name, role, upstream);
            && name in s.dbs
            && (role == Master || upstream ==>
                  && name in s.dbMap && s.dbMap[name] in s.instances && s.instances[s.dbMap[name]].role == role
                  && (role == Slave ==> forall t :: Enabled(s, BeginCallback(t, s.dbMap[name]))))
  {
  }

  /** After adding a removed db again, of its ReplicatedDBs only the new one can be reached. */
  lemma OnlyTheNewOne(r: State, name: DbName, role: Role, upstream: bool, i: InstId)
    requires Inv(r) && AdminOf(r, name) == Removed && Inv(AddDb(r, name, role, upstream))
    requires i in AddDb(r, name, role, upstream).instances && AddDb(r, name, role, upstream).instances[i].name == name
    ensures var s := AddDb(r, name, role, upstream);
            && (role == Master ==> !Enabled(s, PullWrite(i)))
            && (!Expired(s, i) ==> Mapped(s, i) && s.instances[i].role == role)
  {
    RemovedMeansUnreachable(r, name);
    assert GoodInstance(AddDb(r, name, role, upstream), i);
    assert i in r.instances ==> Expired(r, i);
  }

  /** Where a removal of the first db stands while a callback of its pull chain is at work. */
  ghost predicate PullAtWork(s: State, name: DbName, chain: Chain, admin: Admin)
  {
    && 0 in s.instances && AdminOf(s, name) == admin
    && s.instances[0] == Instance(name, Slave, if chain.InCallback? then {chain.thread} else {}, chain)
    && (admin == Idle ==> name in s.dbs && s.dbs[name] == 0)
    && (admin == Idle || admin == WaitRefs(0) ==> 0 in s.apps && s.apps[0] == App(name, Some(0), {}))
    && (admin == WaitExpired(0) ==> name !in s.dbMap)
    && (admin == Idle || admin == WaitRefs(0) || admin == Unmapping(0) ==> name in s.dbMap && s.dbMap[name] == 0)
  }

  lemma AddsSlave(name: DbName) returns (start: State, s: State)
    ensures Init(start) && Reaches(start, s) && PullAtWork(s, name, Dormant, Idle)
  {
    start := State(map[], map[], map[], map[], map[], {}, 0);
    Stay(start);
    Then(start, start, Add(name, Slave, true));
    s := Apply(start, Add(name, Slave, true));
  }

  lemma BeginsPull(start: State, s: State, name: DbName, t: ThreadId) returns (u: State)
    requires Reaches(start, s) && PullAtWork(s, name, Dormant, Idle)
    ensures Reaches(start, u) && PullAtWork(u, name, InCallback(t), Idle)
  {
    Then(start, s, BeginCallback(t, 0));
    u := Apply(s, BeginCallback(t, 0));
  }

  lemma Erases(start: State, s: State, name: DbName, chain: Chain) returns (u: State)
    requires Reaches(start, s) && PullAtWork(s, name, chain, Idle)
    ensures Reaches(start, u) && PullAtWork(u, name, chain, WaitRefs(0))
  {
    Then(start, s, Erase(name));
    u := Apply(s, Erase(name));
  }

  lemma LosesRefs(start: State, s: State, name: DbName, chain: Chain) returns (u: State)
    requires Reaches(start, s) && PullAtWork(s, name, chain, WaitRefs(0))
    ensures Reaches(start, u) && PullAtWork(u, name, chain, Unmapping(0))
  {
    Then(start, s, RefsGone(name));
    u := Apply(s, RefsGone(name));
  }

  lemma Unmaps(start: State, s: State, name: DbName, chain: Chain) returns (u: State)
    requires Reaches(start, s) && PullAtWork(s, name, chain, Unmapping(0))
    ensures Reaches(start, u) && PullAtWork(u, name, chain, WaitExpired(0))
  {
    Then(start, s, Unmap(name));
    u := Apply(s, Unmap(name));
  }

  lemma RemovalWaits(name: DbName, t: ThreadId) returns (start: State, s: State)
    ensures Init(start) && Reaches(start, s) && PullAtWork(s, name, InCallback(t), WaitExpired(0))
  {
    var a, b, c, d;
    start, a := AddsSlave(name);
    b := BeginsPull(start, a, name, t);
    c := Erases(start, b, name, InCallback(t));
    d := LosesRefs(start, c, name, InCallback(t));
    s := Unmaps(start, d, name, InCallback(t));
  }

  lemma WaitsForPull(s: State, name: DbName, t: ThreadId)
    requires PullAtWork(s, name, InCallback(t), WaitExpired(0))
    ensures Enabled(s, PullWrite(0)) && AdminOf(s, name) == WaitExpired(0) && !Enabled(s, Expire(name))
  {
  }

  /** A removal during a pull: it has to wait while the callback can write, and when the callback
      has ended it goes through and the chain is silent. */
  lemma RemovalHappens(name: DbName, thread: ThreadId) returns (start: State, s: State, t: State)
    ensures Init(start) && Reaches(start, s)
    ensures Enabled(s, PullWrite(0)) && AdminOf(s, name) == WaitExpired(0) && !Enabled(s, Expire(name))
    ensures Reaches(s, t) && AdminOf(t, name) == Removed && 0 in t.gone && Silent(t, 0)
  {
    start, s := RemovalWaits(name, thread);
    WaitsForPull(s, name, thread);
    Stay(s);
    Then(s, s, EndCallback(0));
    var u := Apply(s, EndCallback(0));
    assert u.instances[0].holders == {} && name !in u.dbMap;
    Then(s, u, Expire(name));
    t := Apply(u, Expire(name));
  }

  // ----- who is waited for -----

  /** A registered slave always pulls: a callback of its chain can begin or is at work. */
  lemma SlavesPull(start: State, steps: seq<Step>, s: State, name: DbName, thread: ThreadId)
    requires Init(start) && Executes(start, steps, s)
    requires name in s.dbMap && s.dbMap[name] in s.instances && s.instances[s.dbMap[name]].role == Slave
    ensures var i := s.dbMap[name];
            if s.instances[i].chain.InCallback? then Enabled(s, PullWrite(i)) && Enabled(s, EndCallback(i))
            else thread !in s.instances[i].holders ==> Enabled(s, BeginCallback(thread, i))
  {
    RunKeepsInv(start, steps, s);
    assert GoodInstance(s, s.dbMap[name]);
  }

  lemma {:induction false} HolderStays(s: State, steps: seq<Step>, u: State, t: ThreadId, a: AppId)
    requires Inv(s) && Executes(s, steps, u) && a in s.apps && t in s.apps[a].holders && DropApp(t, a) !in steps
    ensures a in u.apps && t in u.apps[a].holders
    decreases |steps|
  {
    if steps != [] {
      var v := Apply(s, steps[0]);
      StepKeepsInv(s, steps[0]);
      assert steps[0] in steps;
      assert a in v.apps && t in v.apps[a].holders by {
        AppStays(s, steps[0], t, a);
      }
      HolderStays(v, steps[1..], u, t, a);
    }
  }

  lemma AppStays(s: State, step: Step, t: ThreadId, a: AppId)
    requires Inv(s) && Enabled(s, step) && a in s.apps && t in s.apps[a].holders && step != DropApp(t, a)
    ensures a in Apply(s, step).apps && t in Apply(s, step).apps[a].holders
  {
    assert a < s.nextId;
  }

  /** Whoever got an ApplicationDB can use it until it lets go, and the removal waits for it. */
  lemma UsersAreWaitedFor(start: State, before: seq<Step>, s: State, t: ThreadId, name: DbName, steps: seq<Step>,
                          u: State)
    requires Init(start) && Executes(start, before, s) && Enabled(s, GetApp(t, name))
    requires Executes(Apply(s, GetApp(t, name)), steps, u) && DropApp(t, s.dbs[name]) !in steps
    ensures Enabled(u, UseApp(t, s.dbs[name]))
    ensures AdminOf(u, name) == WaitRefs(s.dbs[name]) ==> !Enabled(u, RefsGone(name))
  {
    RunKeepsInv(start, before, s);
    var a, v := s.dbs[name], Apply(s, GetApp(t, name));
    StepKeepsInv(s, GetApp(t, name));
    assert a in v.apps && t in v.apps[a].holders;
    HolderStays(v, steps, u, t, a);
    HeldAppIsWaitedFor(u, a, t, name);
  }

  lemma HeldAppIsWaitedFor(u: State, a: AppId, t: ThreadId, name: DbName)
    requires a in u.apps && t in u.apps[a].holders
    ensures Enabled(u, UseApp(t, a)) && (AdminOf(u, name) == WaitRefs(a) ==> !Enabled(u, RefsGone(name)))
  {
  }

  /** A thread that holds a ReplicatedDB keeps it until it drops it or its callback ends. */
  lemma LockStays(s: State, step: Step, t: ThreadId, i: InstId)
    requires Inv(s) && Enabled(s, step) && i in s.instances && t in s.instances[i].holders
    requires step != DropInstance(t, i) && !(step == EndCallback(i) && s.instances[i].chain == InCallback(t))
    ensures i in Apply(s, step).instances && t in Apply(s, step).instances[i].holders
    ensures s.instances[i].chain == InCallback(t) ==> Apply(s, step).instances[i].chain == InCallback(t)
  {
    assert i < s.nextId;
  }

  lemma {:induction false} CallbackStays(s: State, steps: seq<Step>, u: State, t: ThreadId, i: InstId)
    requires Inv(s) && Executes(s, steps, u) && EndCallback(i) !in steps
    requires i in s.instances && t in s.instances[i].holders && s.instances[i].chain == InCallback(t)
    ensures i in u.instances && t in u.instances[i].holders && u.instances[i].chain == InCallback(t)
    decreases |steps|
  {
    if steps != [] {
      assert steps[0] in steps;
      StepKeepsInv(s, steps[0]);
      LockStays(s, steps[0], t, i);
      CallbackStays(Apply(s, steps[0]), steps[1..], u, t, i);
    }
  }

  /** A pull callback that has begun can write until it ends, and the removal waits for it. */
  lemma CallbacksAreWaitedFor(start: State, before: seq<Step>, s: State, t: ThreadId, i: InstId, steps: seq<Step>,
                              u: State)
    requires Init(start) && Executes(start, before, s) && Enabled(s, BeginCallback(t, i))
    requires Executes(Apply(s, BeginCallback(t, i)), steps, u) && EndCallback(i) !in steps
    ensures Enabled(u, PullWrite(i)) && !Expired(u, i)
    ensures AdminOf(u, s.instances[i].name) == WaitExpired(i) ==> !Enabled(u, Expire(s.instances[i].name))
  {
    RunKeepsInv(start, before, s);
    var v := Apply(s, BeginCallback(t, i));
    StepKeepsInv(s, BeginCallback(t, i));
    assert t in v.instances[i].holders && v.instances[i].chain == InCallback(t);
    CallbackStays(v, steps, u, t, i);
    HeldIsWaitedFor(u, i, t, s.instances[i].name);
  }

  lemma HeldIsWaitedFor(u: State, i: InstId, t: ThreadId, name: DbName)
    requires i in u.instances && t in u.instances[i].holders
    ensures !Expired(u, i) && (AdminOf(u, name) == WaitExpired(i) ==> !Enabled(u, Expire(name)))
  {
  }

  lemma {:induction false} LockedStays(s: State, steps: seq<Step>, u: State, t: ThreadId, i: InstId)
    requires Inv(s) && Executes(s, steps, u) && i in s.instances && t in s.instances[i].holders
    requires DropInstance(t, i) !in steps && EndCallback(i) !in steps
    ensures i in u.instances && t in u.instances[i].holders
    decreases |steps|
  {
    if steps != [] {
      assert steps[0] in steps;
      StepKeepsInv(s, steps[0]);
      LockStays(s, steps[0], t, i);
      LockedStays(Apply(s, steps[0]), steps[1..], u, t, i);
    }
  }

  /** Whoever locked the weak pointer of a ReplicatedDB is waited for until it drops the pointer. */
  lemma LockersAreWaitedFor(start: State, before: seq<Step>, s: State, t: ThreadId, i: InstId, steps: seq<Step>,
                            u: State)
    requires Init(start) && Executes(start, before, s) && Enabled(s, LockInstance(t, i))
    requires Executes(Apply(s, LockInstance(t, i)), steps, u)
    requires DropInstance(t, i) !in steps && EndCallback(i) !in steps
    ensures i in u.instances && !Expired(u, i)
    ensures AdminOf(u, s.instances[i].name) == WaitExpired(i) ==> !Enabled(u, Expire(s.instances[i].name))
  {
    RunKeepsInv(start, before, s);
    var v := Apply(s, LockInstance(t, i));
    StepKeepsInv(s, LockInstance(t, i));
    assert t in v.instances[i].holders;
    LockedStays(v, steps, u, t, i);
    HeldIsWaitedFor(u, i, t, s.instances[i].name);
  }

  lemma Before(s: State, step: Step, later: seq<Step>, t: State) returns (steps: seq<Step>)
    requires Enabled(s, step) && Executes(Apply(s, step), later, t)
    ensures Executes(s, steps, t)
  {
    steps := [step] + later;
    assert steps[1..] == later;
  }

  /** When the last holder lets go, what the removal waits for has come. */
  lemma {:induction false} LastUserLetsGo(s: State, t: ThreadId, a: AppId, name: DbName)
    requires Enabled(s, DropApp(t, a)) && AdminOf(s, name) == WaitRefs(a)
    ensures Apply(s, DropApp(t, a)).apps[a].holders == s.apps[a].holders - {t}
    ensures s.apps[a].holders == {t} ==> Enabled(Apply(s, DropApp(t, a)), RefsGone(name))
  {
  }

  lemma {:induction false} LastLockerLetsGo(s: State, t: ThreadId, i: InstId, name: DbName)
    requires Inv(s) && Enabled(s, DropInstance(t, i)) && AdminOf(s, name) == WaitExpired(i)
    ensures Apply(s, DropInstance(t, i)).instances[i].holders == s.instances[i].holders - {t}
    ensures s.instances[i].holders == {t} ==> Enabled(Apply(s, DropInstance(t, i)), Expire(name))
  {
    assert GoodAdmin(s, name);
  }
}
