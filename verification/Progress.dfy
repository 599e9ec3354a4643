/** What can still happen: from every state of the replication protocol a slave can catch up
    and a waiting write can be acknowledged, so nothing the safety theorems forbid keeps the
    protocol from doing its work. */
module Progress {
  import opened Options
  import opened Wal
  import opened Replication
  import Serving
  import Durability
  import Failover

  lemma Then(s: State, t: State, step: Step)
    requires Reaches(s, t) && Enabled(t, step)
    ensures Reaches(s, Apply(t, step))
  {
    ReachesInOne(t, step);
    ReachesTransitive(s, t, Apply(t, step));
  }

  lemma Stay(s: State)
    ensures Reaches(s, s)
  {
    assert Executes(s, [], s);
  }

  // ----- runs in which only some of the nodes take part -----

  lemma Remain(s: State, dead: set<NodeId>)
    ensures Failover.Meanwhile(s, s, dead)
  {
    assert Failover.RunsWithout(s, [], s, dead);
  }

  lemma OneStep(s: State, step: Step, dead: set<NodeId>)
    requires Enabled(s, step) && Failover.Spares(step, dead)
    ensures Failover.Meanwhile(s, Apply(s, step), dead)
  {
    var t := Apply(s, step);
    assert Executes(t, [], t) && [step][1..] == [];
    assert Failover.RunsWithout(s, [step], t, dead);
  }

  lemma Onward(s: State, t: State, u: State, dead: set<NodeId>)
    requires Failover.Meanwhile(s, t, dead) && Failover.Meanwhile(t, u, dead)
    ensures Failover.Meanwhile(s, u, dead)
  {
    var a :| Failover.RunsWithout(s, a, t, dead);
    var b :| Failover.RunsWithout(t, b, u, dead);
    RunsConcat(s, a, t, b, u);
    forall i | 0 <= i < |a + b| ensures Failover.Spares((a + b)[i], dead) {
      assert (a + b)[i] == if i < |a| then a[i] else b[i - |a|];
    }
    assert Failover.RunsWithout(s, a + b, u, dead);
  }

  lemma IsARun(s: State, t: State, dead: set<NodeId>)
    requires Failover.Meanwhile(s, t, dead)
    ensures Reaches(s, t)
  {
    var steps :| Failover.RunsWithout(s, steps, t, dead);
  }

  /** The same replicas with the same logs, upstreams and client writes. */
  ghost predicate Same(s: State, t: State)
  {
    && t.mode == s.mode && t.writes == s.writes && t.nodes.Keys == s.nodes.Keys
    && (forall n {:trigger t.nodes[n].log} | n in s.nodes :: t.nodes[n].log == s.nodes[n].log)
    && (forall n {:trigger t.nodes[n].upstream} | n in s.nodes :: t.nodes[n].upstream == s.nodes[n].upstream)
  }

  ghost predicate SlaveOf(s: State, c: NodeId, u: NodeId)
  {
    c in s.nodes && u in s.nodes && c != u && s.nodes[c].upstream == Some(u)
  }

  /** A pull chain can always be brought to where the next pull starts. */
  lemma BecomesIdle(s: State, c: NodeId, u: NodeId, dead: set<NodeId>) returns (t: State)
    requires c !in dead
    requires Inv(s) && SlaveOf(s, c, u)
    ensures Failover.Meanwhile(s, t, dead) && Inv(t) && Same(s, t) && t.nodes[c].phase == Idle
  {
    t := s;
    Remain(s, dead);
    if s.nodes[c].phase != Idle {
      var step := if s.nodes[c].phase.Requested? then PullError(c) else ApplyEnd(c);
      StepKeepsInv(s, step);
      OneStep(s, step, dead);
      t := Apply(s, step);
    }
  }

  /** A fresh iterator that sees the whole log serves all of the rest. */
  lemma ServesAll(log: Log, have: nat)
    requires have <= |log|
    ensures Serving.CanRead(log, StartSeq(log, have), None, |log|)
    ensures Serving.Serve(log, StartSeq(log, have), None, |log|, |log|).updates == log[have..]
  {
    Serving.PickAtBoundary(log, have, None, |log|);
    Serving.ServeFollowsBoundary(log, have, None, |log|, |log|);
    if have < |log| {
      Serving.ReadToClosed(Cursor(have, true), |log|, |log|);
    }
  }

  /** The slave waits for the reply to a request for everything after its log. */
  ghost predicate Asked(s: State, c: NodeId, u: NodeId, q: Request)
  {
    && SlaveOf(s, c, u) && s.nodes[c].phase == Requested(q) && q in s.requests && q.to == u
    && q.seqNo == SeqNo(s.nodes[c].log) && q.have == |s.nodes[c].log| && q.maxUpdates == |s.nodes[u].log|
  }

  lemma PullStep(s: State, c: NodeId, u: NodeId, dead: set<NodeId>) returns (t: State, q: Request)
    requires c !in dead
    requires Inv(s) && SlaveOf(s, c, u) && s.nodes[c].phase == Idle
    ensures Failover.Meanwhile(s, t, dead) && Inv(t) && Same(s, t) && Asked(t, c, u, q)
  {
    var step := Pull(c, |s.nodes[u].log|);
    StepKeepsInv(s, step);
    OneStep(s, step, dead);
    t := Apply(s, step);
    q := Request(s.nextId, c, u, SeqNo(s.nodes[c].log), |s.nodes[u].log|, |s.nodes[c].log|);
  }

  lemma ReplyStep(s: State, c: NodeId, u: NodeId, q: Request, dead: set<NodeId>) returns (t: State, r: Response)
    requires u !in dead
    requires Inv(s) && Asked(s, c, u, q)
    ensures Failover.Meanwhile(s, t, dead) && Inv(t) && Same(s, t) && t.nodes[c].phase == Requested(q)
    ensures r in t.responses && r.request == q && s.nodes[c].log + r.updates == s.nodes[u].log
  {
    var log, mine := s.nodes[u].log, s.nodes[c].log;
    assert mine <= log by {
      assert s.nodes[c].upstream == Some(u);
    }
    assert log[..|mine|] == mine && mine + log[|mine|..] == log;
    ServesAll(log, |mine|);
    var step := Reply(q, None, |log|);
    StepKeepsInv(s, step);
    OneStep(s, step, dead);
    t := Apply(s, step);
    r := Response(q, log[|mine|..]);
  }

  lemma ReceiveStep(s: State, c: NodeId, r: Response, dead: set<NodeId>) returns (t: State)
    requires c !in dead
    requires Inv(s) && c in s.nodes && r in s.responses && s.nodes[c].phase == Requested(r.request)
    ensures Failover.Meanwhile(s, t, dead) && Inv(t) && Same(s, t) && t.nodes[c].phase == Applying(r.updates)
  {
    StepKeepsInv(s, Receive(c, r));
    OneStep(s, Receive(c, r), dead);
    t := Apply(s, Receive(c, r));
  }

  lemma SameTwice(s: State, t: State, u: State, dead: set<NodeId>)
    requires Failover.Meanwhile(s, t, dead) && Same(s, t) && Failover.Meanwhile(t, u, dead) && Same(t, u)
    ensures Failover.Meanwhile(s, u, dead) && Same(s, u)
  {
    Onward(s, t, u, dead);
  }

  /** A slave between two pulls can fetch everything its upstream has. */
  lemma FetchesAll(s: State, c: NodeId, u: NodeId, dead: set<NodeId>) returns (t: State)
    requires c !in dead && u !in dead
    requires Inv(s) && SlaveOf(s, c, u) && s.nodes[c].phase == Idle
    ensures Failover.Meanwhile(s, t, dead) && Inv(t) && Same(s, t)
    ensures t.nodes[c].phase.Applying? && s.nodes[c].log + t.nodes[c].phase.rest == s.nodes[u].log
  {
    var v, q := PullStep(s, c, u, dead);
    var w, r := ReplyStep(v, c, u, q, dead);
    SameTwice(s, v, w, dead);
    t := ReceiveStep(w, c, r, dead);
    SameTwice(s, w, t, dead);
  }

  /** Everything as before, but for the log and the phase of one replica. */
  ghost predicate SameElsewhere(s: State, t: State, c: NodeId)
  {
    && t.mode == s.mode && t.writes == s.writes && t.nodes.Keys == s.nodes.Keys
    && (forall n {:trigger t.nodes[n].log} | n in s.nodes && n != c :: t.nodes[n].log == s.nodes[n].log)
    && (forall n {:trigger t.nodes[n].upstream} | n in s.nodes :: t.nodes[n].upstream == s.nodes[n].upstream)
  }

  lemma ApplyStep(s: State, c: NodeId, dead: set<NodeId>) returns (t: State)
    requires c !in dead
    requires Inv(s) && c in s.nodes && s.nodes[c].phase.Applying? && s.nodes[c].phase.rest != []
    ensures Failover.Meanwhile(s, t, dead) && Inv(t) && SameElsewhere(s, t, c)
    ensures t.nodes[c].phase == Applying(s.nodes[c].phase.rest[1..])
    ensures t.nodes[c].log + t.nodes[c].phase.rest == s.nodes[c].log + s.nodes[c].phase.rest
  {
    StepKeepsInv(s, ApplyOne(c));
    OneStep(s, ApplyOne(c), dead);
    t := Apply(s, ApplyOne(c));
    var rest := s.nodes[c].phase.rest;
    assert rest == [rest[0]] + rest[1..];
  }

  /** The updates of a reply can be applied one after the other. */
  lemma {:induction false} AppliesAll(s: State, c: NodeId, dead: set<NodeId>) returns (t: State)
    requires c !in dead
    requires Inv(s) && c in s.nodes && s.nodes[c].phase.Applying?
    ensures Failover.Meanwhile(s, t, dead) && Inv(t) && SameElsewhere(s, t, c)
    ensures t.nodes[c].phase == Applying([]) && t.nodes[c].log == s.nodes[c].log + s.nodes[c].phase.rest
    decreases |s.nodes[c].phase.rest|
  {
    if s.nodes[c].phase.rest == [] {
      t := s;
      Remain(s, dead);
      assert s.nodes[c].log + [] == s.nodes[c].log;
    } else {
      var v := ApplyStep(s, c, dead);
      t := AppliesAll(v, c, dead);
      Onward(s, v, t, dead);
    }
  }

  lemma EndStep(s: State, c: NodeId, dead: set<NodeId>) returns (t: State)
    requires c !in dead
    requires Inv(s) && c in s.nodes && s.nodes[c].phase.Applying?
    ensures Failover.Meanwhile(s, t, dead) && Inv(t) && Same(s, t) && t.nodes[c].phase == Idle
  {
    StepKeepsInv(s, ApplyEnd(c));
    OneStep(s, ApplyEnd(c), dead);
    t := Apply(s, ApplyEnd(c));
  }

  /** From every state a slave can catch up with its upstream, which stays where it is. */
  lemma CanCatchUp(s: State, c: NodeId, u: NodeId, dead: set<NodeId>) returns (t: State)
    requires c !in dead && u !in dead
    requires Inv(s) && SlaveOf(s, c, u)
    ensures Failover.Meanwhile(s, t, dead) && Inv(t) && SameElsewhere(s, t, c)
    ensures t.nodes[c].log == s.nodes[u].log && t.nodes[c].phase == Idle
  {
    var a := BecomesIdle(s, c, u, dead);
    var b := FetchesAll(a, c, u, dead);
    SameTwice(s, a, b, dead);
    var d := AppliesAll(b, c, dead);
    Onward(s, b, d, dead);
    t := EndStep(d, c, dead);
    Onward(s, d, t, dead);
  }

  /** The next pull of a slave tells its upstream what the slave has committed. */
  lemma CanReport(s: State, c: NodeId, u: NodeId, dead: set<NodeId>) returns (t: State)
    requires c !in dead && u !in dead
    requires Inv(s) && SlaveOf(s, c, u) && s.nodes[c].phase == Idle && s.mode in {1, 2}
    ensures Failover.Meanwhile(s, t, dead) && Inv(t) && Same(s, t) && SeqNo(s.nodes[c].log) <= t.nodes[u].acked
  {
    var v, q := PullStep(s, c, u, dead);
    StepKeepsInv(v, Deliver(q));
    OneStep(v, Deliver(q), dead);
    Onward(s, v, Apply(v, Deliver(q)), dead);
    t := Apply(v, Deliver(q));
  }

  /** In every reachable state of modes 1 and 2 a write that waits can be acknowledged, as
      long as its master has a slave. */
  lemma CanBeAcknowledged(start: State, steps: seq<Step>, s: State, c: NodeId, w: nat, dead: set<NodeId>)
      returns (t: State)
    requires Init(start) && start.mode in {1, 2} && Executes(start, steps, s)
    requires w < |s.writes| && s.writes[w].stage.Waiting? && SlaveOf(s, c, s.writes[w].master)
    requires c !in dead && s.writes[w].master !in dead
    ensures Failover.Meanwhile(s, t, dead) && w < |t.writes| && t.writes[w] == s.writes[w].(stage := Acknowledged)
    ensures SlaveOf(t, c, s.writes[w].master) && |t.writes| == |s.writes|
    ensures SameElsewhere(s, t.(writes := s.writes), c)
  {
    Durability.InitIsAckInv(start);
    Durability.RunKeepsAckInv(start, steps, s);
    Durability.ModeStays(start, steps, s);
    assert Durability.GoodWrite(s, s.writes[w]);
    var m := s.writes[w].master;
    var a := CanCatchUp(s, c, m, dead);
    var b := CanReport(a, c, m, dead);
    Onward(s, a, b, dead);
    OneStep(b, Acknowledge(w), dead);
    Onward(s, b, Apply(b, Acknowledge(w)), dead);
    t := Apply(b, Acknowledge(w));
  }

  /** In mode 1 a write is acknowledged when it has been handed over: as soon as the task that
      sent it has finished, and without any further step of a slave. */
  lemma HandedOverIsEnough(s: State, j: Job, w: nat) returns (t: State)
    requires s.mode == 1 && j in s.jobs && j.node in s.nodes
    requires w < |s.writes| && s.writes[w].stage.Waiting? && s.writes[w].master == j.node
    requires s.writes[w].stage.target < j.key
    ensures Executes(s, [Finish(j), Acknowledge(w)], t)
    ensures t.writes == s.writes[w := s.writes[w].(stage := Acknowledged)]
  {
    var a := Apply(s, Finish(j));
    t := Apply(a, Acknowledge(w));
    assert Executes(t, [], t);
    assert [Acknowledge(w)][1..] == [];
    assert [Finish(j), Acknowledge(w)][1..] == [Acknowledge(w)];
  }

  // ----- the theorems' hypotheses can be met -----

  /** A master and a slave, as addDB starts them. */
  function Pair(mode: nat): State
  {
    var master := Replica([], None, Idle, 0, multiset{});
    State(mode, map[0 := master, 1 := master.(upstream := Some(0))], {}, {}, {}, [], 0)
  }

  lemma PairStarts(mode: nat)
    ensures Init(Pair(mode)) && Inv(Pair(mode)) && SlaveOf(Pair(mode), 1, 0)
  {
    InitIsInv(Pair(mode));
  }

  /** There is a run from a start in which a write is acknowledged. */
  lemma SomeWriteIsAcknowledged(mode: nat, batch: Batch) returns (t: State)
    requires mode in {1, 2}
    ensures Init(Pair(mode)) && Reaches(Pair(mode), t) && SlaveOf(t, 1, 0)
    ensures |t.writes| == 1 && t.writes[0].stage.Acknowledged? && t.writes[0].batch == batch && t.writes[0].master == 0
  {
    PairStarts(mode);
    var s := Pair(mode);
    ReachesInOne(s, Write(0, batch));
    var v := Apply(s, Write(0, batch));
    Then(s, v, ReadSeqNo(0));
    var x := Apply(v, ReadSeqNo(0));
    var steps :| Executes(s, steps, x);
    t := CanBeAcknowledged(s, steps, x, 1, 0, {});
    IsARun(x, t, {});
    ReachesTransitive(s, x, t);
  }

  /** A failure that a promotion starts from can happen after a write was acknowledged. */
  lemma MasterCanBeLost(batch: Batch) returns (t: State)
    ensures Init(Pair(2)) && Reaches(Pair(2), t)
    ensures |t.writes| == 1 && t.writes[0].stage.Acknowledged? && t.writes[0].batch == batch
    ensures Failover.MasterLost(t, {0}, 0) && Failover.Alive(t, {0}, 1)
  {
    var s := SomeWriteIsAcknowledged(2, batch);
    var steps :| Executes(Pair(2), steps, s);
    RunKeepsInv(Pair(2), steps, s) by {
      PairStarts(2);
    }
    t := BecomesIdle(s, 1, 0, {});
    IsARun(s, t, {});
    ReachesTransitive(Pair(2), s, t);
    var all :| Executes(Pair(2), all, t);
    forall c | c in t.nodes ensures Failover.DrainedAt(t, {0}, c) {
    }
    Failover.ReachableIsStopped(Pair(2), all, t, {0});
    forall n | Failover.Alive(t, {0}, n) ensures n == 1 {
      assert n in t.nodes.Keys;
    }
    assert t.nodes[1].upstream == Some(0);
  }

  // ----- a promotion that had to give up -----

  /** A replica that a promotion left pulling from the longest surviving log can get it all, so
      that the next promotion is sure to find it there. */
  lemma NextPromotionCanSucceed(s: State, dead: set<NodeId>, p: NodeId) returns (t: State)
    requires Inv(s) && Failover.Alive(s, dead, p) && Failover.PullsFromLongest(s, dead, p)
    ensures Failover.Meanwhile(s, t, dead) && t.nodes.Keys == s.nodes.Keys
    ensures Failover.Alive(t, dead, p) && Failover.Longest(t, dead, p)
  {
    var best :| Failover.PullsFrom(s, p, best) && Failover.LongestOf(s, dead, best);
    t := CanCatchUp(s, p, best, dead);
    forall n | Failover.Alive(t, dead, n) ensures t.nodes[n].log <= t.nodes[p].log {
      assert n in t.nodes.Keys && Failover.Alive(s, dead, n);
    }
  }

  // ----- a second failover -----

  /** A master and two slaves. */
  function Trio(mode: nat): State
  {
    var master := Replica([], None, Idle, 0, multiset{});
    var slave := master.(upstream := Some(0));
    State(mode, map[0 := master, 1 := slave, 2 := slave], {}, {}, {}, [], 0)
  }

  lemma TrioStarts(mode: nat)
    ensures Init(Trio(mode))
  {
  }

  lemma Switches(start: State, s: State, n: NodeId, upstream: Option<NodeId>) returns (t: State)
    requires Reaches(start, s) && s.writes == [] && n in s.nodes
    requires upstream.Some? ==> upstream.value in s.nodes && s.nodes[n].log <= s.nodes[upstream.value].log
    ensures Reaches(start, t) && t.writes == []
    ensures t.nodes == s.nodes[n := Replica(s.nodes[n].log, upstream, Idle, 0, multiset{})]
  {
    Then(start, s, SwitchRole(n, upstream));
    t := Apply(s, SwitchRole(n, upstream));
  }

  lemma TakesOver() returns (t: State)
    ensures Init(Trio(2)) && Reaches(Trio(2), t) && t.nodes.Keys == {0, 1, 2} && t.writes == []
    ensures t.nodes[0].log == [] && t.nodes[0].upstream.None? && t.nodes[1].upstream.None?
    ensures t.nodes[2].upstream == Some(1)
  {
    TrioStarts(2);
    Stay(Trio(2));
    var s := Switches(Trio(2), Trio(2), 1, None);
    t := Switches(Trio(2), s, 2, Some(1));
  }

  /** After a first failover from 0 to 1 and a write that 1 takes and waits for. */
  lemma NewMasterWrites(batch: Batch) returns (t: State)
    ensures Init(Trio(2)) && Reaches(Trio(2), t) && t.nodes.Keys == {0, 1, 2}
    ensures t.nodes[0].log == [] && t.nodes[0].upstream.None? && t.nodes[1].upstream.None?
    ensures t.nodes[2].upstream == Some(1)
    ensures |t.writes| == 1 && t.writes[0].stage.Waiting? && t.writes[0].batch == batch && t.writes[0].master == 1
  {
    var s := TakesOver();
    Then(Trio(2), s, Write(1, batch));
    var c := Apply(s, Write(1, batch));
    Then(Trio(2), c, ReadSeqNo(0));
    t := Apply(c, ReadSeqNo(0));
  }

  /** 1 has taken over from 0 and acknowledged a write, and 2 follows it. */
  ghost predicate TakenOver(t: State, batch: Batch)
  {
    && t.nodes.Keys == {0, 1, 2} && t.nodes[0].log == [] && t.nodes[0].upstream.None?
    && t.nodes[1].upstream.None? && t.nodes[2].upstream == Some(1)
    && |t.writes| == 1 && t.writes[0].stage.Acknowledged? && t.writes[0].batch == batch && t.writes[0].master == 1
  }

  lemma NewMasterAcknowledges(batch: Batch) returns (t: State)
    ensures Init(Trio(2)) && Reaches(Trio(2), t) && TakenOver(t, batch)
  {
    var s := NewMasterWrites(batch);
    var run :| Executes(Trio(2), run, s);
    t := CanBeAcknowledged(Trio(2), run, s, 2, 0, {});
    IsARun(s, t, {});
    ReachesTransitive(Trio(2), s, t);
    var u := t.(writes := s.writes);
    assert u.nodes[0].log == s.nodes[0].log && forall n | n in s.nodes :: u.nodes[n].upstream == s.nodes[n].upstream;
  }

  lemma TakenOverFollows(t: State, batch: Batch)
    requires TakenOver(t, batch) && t.nodes[2].phase == Idle
    ensures Failover.Drained(t, {0, 1}) && Failover.DirectSlavesSurvive(t, {0, 1}, 1)
    ensures Failover.ChainTo(t, map[2 := [2, 1]], 2, 1)
    ensures Failover.HoldersFollow(t, t.writes[0], map[2 := [2, 1]])
  {
    forall n | n in t.nodes ensures n in {0, 1, 2} {
      assert n in t.nodes.Keys;
    }
  }

  /** Failover can happen again: a run in which 1 takes over from 0, acknowledges a write and is
      lost too meets all that Failover.FailOver asks for, with both dead. */
  lemma NewMasterCanBeLost(batch: Batch) returns (steps: seq<Step>, t: State)
    ensures Init(Trio(2)) && Executes(Trio(2), steps, t) && TakenOver(t, batch)
    ensures Failover.Drained(t, {0, 1}) && Failover.DirectSlavesSurvive(t, {0, 1}, 1)
    ensures Failover.ChainTo(t, map[2 := [2, 1]], 2, 1)
    ensures Failover.HoldersFollow(t, t.writes[0], map[2 := [2, 1]])
  {
    var s := NewMasterAcknowledges(batch);
    var run :| Executes(Trio(2), run, s);
    InitIsInv(Trio(2));
    RunKeepsInv(Trio(2), run, s);
    t := BecomesIdle(s, 2, 1, {});
    IsARun(s, t, {});
    ReachesTransitive(Trio(2), s, t);
    steps :| Executes(Trio(2), steps, t);
    TakenOverFollows(t, batch);
  }

  // ----- re-pointing by sequence numbers alone -----

  /** A write on a replica that nobody reports to: in modes 1 and 2 it times out. */
  lemma WritesAlone(start: State, s: State, m: NodeId, batch: Batch) returns (t: State)
    requires Reaches(start, s) && m in s.nodes && s.nodes[m].upstream.None? && s.nodes[m].acked == 0
    requires forall w | w in s.writes :: !Unsettled(w)
    ensures Reaches(start, t) && t.nodes == s.nodes[m := s.nodes[m].(log := s.nodes[m].log + [batch])]
    ensures forall w | w in t.writes :: !Unsettled(w)
  {
    var i := |s.writes|;
    Then(start, s, Write(m, batch));
    var a := Apply(s, Write(m, batch));
    Then(start, a, ReadSeqNo(i));
    var b := Apply(a, ReadSeqNo(i));
    LongerThanNothing(s.nodes[m].log, batch);
    var last := if b.mode in {1, 2} then GiveUp(i) else Acknowledge(i);
    Then(start, b, last);
    t := Apply(b, last);
  }

  lemma LongerThanNothing(log: Log, batch: Batch)
    ensures SeqNo(log + [batch]) > 0
  {
    SeqNoAppend(log, [batch]);
  }

  /** Without a common log sequence numbers are not enough: a run in which 1 is made a master
      while 0 still is one, and both take a write. 0 is not ahead by number, no write is at work,
      and yet 0 must not pull from 1: its log is not a prefix of its upstream's afterwards. */
  lemma NumbersAreNotEnough(mode: nat, a: Batch, b: Batch) returns (s: State)
    requires a != b && a.count <= b.count
    ensures Init(Pair(mode)) && Reaches(Pair(mode), s) && s.nodes.Keys == {0, 1}
    ensures forall w | w in s.writes :: !Unsettled(w)
    ensures SeqNo(s.nodes[0].log) <= SeqNo(s.nodes[1].log)
    ensures var t := ChangeRole(s, 0, Some(1)); !FollowsUpstream(t, 0) && !Inv(t)
  {
    var start := Pair(mode);
    PairStarts(mode);
    Stay(start);
    var x := WritesAlone(start, start, 0, a);
    Then(start, x, SwitchRole(1, None));
    var y := Apply(x, SwitchRole(1, None));
    s := WritesAlone(start, y, 1, b);
    assert s.nodes[0].log == [a] && s.nodes[1].log == [b];
    assert ChangeRole(s, 0, Some(1)).nodes[0].upstream == Some(1);
  }
}
