/** Slave-to-Master promotion on top of the replication protocol: while the procedure
    runs, the surviving replicas keep pulling from each other. The old master and any
    number of slaves are dead; the partition lock keeps every other role change away. */
module Failover {
  import opened Options
  import opened Wal
  import opened Replication
  import Serving
  import Durability

  // ----- the survivors while the procedure runs -----

  /** A step taken at a node that is not dead. */
  predicate Spares(step: Step, dead: set<NodeId>)
  {
    match step
    case Write(m, _) => m !in dead
    case ReadSeqNo(_) => true
    case Acknowledge(_) => true
    case GiveUp(_) => true
    case Pull(c, _) => c !in dead
    case Deliver(q) => q.to !in dead
    case Reply(q, _, _) => q.to !in dead
    case Finish(j) => j.node !in dead
    case Receive(c, _) => c !in dead
    case ApplyOne(c) => c !in dead
    case ApplyEnd(c) => c !in dead
    case PullError(c) => c !in dead
    case DropIters(n, _) => n !in dead
    // the partition lock keeps other role changes away
    case SwitchRole(_, _) => false
  }

  /** A run in which no dead node takes a step. */
  ghost predicate RunsWithout(s: State, steps: seq<Step>, t: State, dead: set<NodeId>)
  {
    Executes(s, steps, t) && forall i | 0 <= i < |steps| :: Spares(steps[i], dead)
  }

  /** Anything the survivors may do between two statements of the procedure. */
  ghost predicate Meanwhile(s: State, t: State, dead: set<NodeId>)
  {
    exists steps :: RunsWithout(s, steps, t, dead)
  }

  /** Request ids are not reused. */
  ghost predicate FreshIds(s: State)
  {
    forall q | q in s.requests :: q.id < s.nextId
  }

  /** No reply of the dead master can still reach a survivor. */
  ghost predicate DrainedAt(s: State, dead: set<NodeId>, c: NodeId)
    requires c in s.nodes
  {
    c !in dead && s.nodes[c].upstream.Some? && s.nodes[c].upstream.value in dead ==>
      && !s.nodes[c].phase.Applying?
      && forall r | r in s.responses :: s.nodes[c].phase != Requested(r.request)
  }

  ghost predicate Drained(s: State, dead: set<NodeId>)
  {
    forall c {:trigger DrainedAt(s, dead, c)} | c in s.nodes :: DrainedAt(s, dead, c)
  }

  /** Writes are at work on masters only. */
  ghost predicate WritersLead(s: State)
  {
    forall w | w in s.writes && Unsettled(w) :: w.master in s.nodes && s.nodes[w.master].upstream.None?
  }

  ghost predicate Stopped(s: State, dead: set<NodeId>)
  {
    Inv(s) && FreshIds(s) && WritersLead(s) && Drained(s, dead)
  }

  lemma StepKeepsWriters(s: State, step: Step)
    requires WritersLead(s) && Enabled(s, step)
    ensures WritersLead(Apply(s, step))
  {
    var t := Apply(s, step);
    forall w | w in t.writes && Unsettled(w) ensures w.master in t.nodes && t.nodes[w.master].upstream.None? {
      if step.ReadSeqNo? || step.Acknowledge? || step.GiveUp? {
        assert w in s.writes || (w.master == s.writes[step.w].master && Unsettled(s.writes[step.w]));
      } else {
        assert step.Write? || w in s.writes;
      }
    }
  }

  /** A slave can always be given another role. */
  lemma SlaveCanSwitch(s: State, n: NodeId, upstream: Option<NodeId>)
    requires WritersLead(s) && n in s.nodes && s.nodes[n].upstream.Some?
    requires upstream.Some? ==> upstream.value in s.nodes && s.nodes[n].log <= s.nodes[upstream.value].log
    ensures Enabled(s, SwitchRole(n, upstream)) && Reaches(s, ChangeRole(s, n, upstream))
  {
    forall i | 0 <= i < |s.writes| && s.writes[i].master == n ensures !Unsettled(s.writes[i]) {
      assert s.writes[i] in s.writes;
    }
    ReachesInOne(s, SwitchRole(n, upstream));
  }

  lemma StepKeepsFreshIds(s: State, step: Step)
    requires FreshIds(s) && Enabled(s, step)
    ensures FreshIds(Apply(s, step))
  {
  }

  lemma {:induction false} RunKeepsFreshIds(s: State, steps: seq<Step>, t: State)
    requires FreshIds(s) && Executes(s, steps, t)
    ensures FreshIds(t)
    decreases |steps|
  {
    if steps != [] {
      StepKeepsFreshIds(s, steps[0]);
      RunKeepsFreshIds(Apply(s, steps[0]), steps[1..], t);
    }
  }

  /** Every reachable state in which the dead nodes' replies are drained will do as the
      start of a failover. */
  lemma ReachableIsStopped(start: State, steps: seq<Step>, s: State, dead: set<NodeId>)
    requires Init(start) && Executes(start, steps, s) && Drained(s, dead)
    ensures Stopped(s, dead)
  {
    Durability.InitIsAckInv(start);
    Durability.RunKeepsAckInv(start, steps, s);
    RunKeepsFreshIds(start, steps, s);
    forall w | w in s.writes && Unsettled(w) ensures w.master in s.nodes && s.nodes[w.master].upstream.None? {
      assert Durability.GoodWrite(s, w);
    }
  }

  /** A pull sent to the dead master has no reply. */
  lemma PullStaysUnanswered(s: State, c: NodeId, maxUpdates: int)
    requires Messages(s) && FreshIds(s) && c in s.nodes && s.nodes[c].upstream.Some?
    ensures var t := SendPull(s, c, maxUpdates);
            forall r | r in t.responses :: t.nodes[c].phase != Requested(r.request)
  {
    var t := SendPull(s, c, maxUpdates);
    forall r | r in t.responses ensures t.nodes[c].phase != Requested(r.request) {
      assert GoodResponse(s, r);
    }
  }

  lemma StepKeepsDrainedAt(s: State, step: Step, dead: set<NodeId>, c: NodeId)
    requires Messages(s) && FreshIds(s) && Topology(s) && c in s.nodes && GoodPhase(s, c) && DrainedAt(s, dead, c)
    requires Enabled(s, step) && Spares(step, dead)
    ensures c in Apply(s, step).nodes && DrainedAt(Apply(s, step), dead, c)
  {
    match step
    case Pull(n, maxUpdates) =>
      if n == c {
        PullStaysUnanswered(s, c, maxUpdates);
      }
    case Reply(q, cached, visible) =>
      var served, cache := Durability.AnswerHandsOver(s, q, cached, visible);
      ReplyStaysAway(s, q, served, cache, dead, c);
    case _ => OthersKeepDrainedAt(s, step, dead, c);
  }

  /** A reply of a survivor is not what a slave of the dead master waits for. */
  lemma ReplyStaysAway(s: State, q: Request, served: Serving.Served, cache: multiset<CachedIter>,
                       dead: set<NodeId>, c: NodeId)
    requires Topology(s) && q.to in s.nodes && q.to !in dead && c in s.nodes && GoodPhase(s, c)
    requires DrainedAt(s, dead, c)
    ensures DrainedAt(Replied(s, q, served, cache), dead, c)
  {
  }

  lemma OthersKeepDrainedAt(s: State, step: Step, dead: set<NodeId>, c: NodeId)
    requires Topology(s) && c in s.nodes && DrainedAt(s, dead, c)
    requires Enabled(s, step) && Spares(step, dead) && !step.Pull? && !step.Reply?
    ensures c in Apply(s, step).nodes && DrainedAt(Apply(s, step), dead, c)
  {
  }

  lemma StepKeepsStopped(s: State, step: Step, dead: set<NodeId>)
    requires Stopped(s, dead) && Enabled(s, step) && Spares(step, dead)
    ensures Stopped(Apply(s, step), dead) && Grown(s, Apply(s, step))
  {
    StepKeepsInv(s, step);
    StepKeepsFreshIds(s, step);
    StepKeepsWriters(s, step);
    var t := Apply(s, step);
    forall c | c in t.nodes ensures DrainedAt(t, dead, c) {
      assert c in s.nodes && GoodPhase(s, c) && DrainedAt(s, dead, c);
      StepKeepsDrainedAt(s, step, dead, c);
    }
  }

  lemma ChangeRoleKeepsStopped(s: State, dead: set<NodeId>, n: NodeId, upstream: Option<NodeId>)
    requires Stopped(s, dead) && n in s.nodes && s.nodes[n].upstream.Some?
    requires upstream.Some? ==> upstream.value in s.nodes && s.nodes[n].log <= s.nodes[upstream.value].log
    ensures Stopped(ChangeRole(s, n, upstream), dead) && Reaches(s, ChangeRole(s, n, upstream))
  {
    SlaveCanSwitch(s, n, upstream);
    StepKeepsWriters(s, SwitchRole(n, upstream));
    ChangeRoleKeeps(s, n, upstream);
    var t := ChangeRole(s, n, upstream);
    forall c | c in t.nodes ensures DrainedAt(t, dead, c) {
      assert DrainedAt(s, dead, c);
    }
  }

  // ----- before the promotion: no survivor gets past the longest log -----

  ghost predicate Alive(s: State, dead: set<NodeId>, n: NodeId)
  {
    n in s.nodes && n !in dead
  }

  /** All survivors are slaves, and none is ahead of `top`. */
  ghost predicate BehindTop(s: State, dead: set<NodeId>, top: Log)
  {
    forall n {:trigger Alive(s, dead, n)} | Alive(s, dead, n) :: s.nodes[n].upstream.Some? && s.nodes[n].log <= top
  }

  lemma StepKeepsUpstreams(s: State, step: Step, n: NodeId)
    requires Enabled(s, step) && n in s.nodes && !step.SwitchRole?
    ensures Apply(s, step).nodes.Keys == s.nodes.Keys
    ensures Apply(s, step).nodes[n].upstream == s.nodes[n].upstream
  {
  }

  /** A step moves one log at most: a master's by a write, a slave's by an apply. */
  lemma StepMovesOneLog(s: State, step: Step, n: NodeId)
    requires Enabled(s, step) && n in s.nodes && n in Apply(s, step).nodes
    ensures var t := Apply(s, step);
            || t.nodes[n].log == s.nodes[n].log
            || (step.Write? && step.master == n && s.nodes[n].upstream.None? && s.nodes[n].log <= t.nodes[n].log)
            || (step == ApplyOne(n) && t.nodes[n].log == ApplyUpdate(s, n).nodes[n].log)
  {
  }

  lemma StepKeepsTop(s: State, step: Step, dead: set<NodeId>, top: Log)
    requires Stopped(s, dead) && BehindTop(s, dead, top) && Enabled(s, step) && Spares(step, dead)
    ensures BehindTop(Apply(s, step), dead, top)
  {
    var t := Apply(s, step);
    forall n {:trigger Alive(t, dead, n)} | Alive(t, dead, n)
      ensures t.nodes[n].upstream.Some? && t.nodes[n].log <= top
    {
      SurvivorStep(s, step, dead, n);
    }
  }

  /** In a step a survivor keeps its log, writes to it as a master, or catches up with
      another survivor. */
  lemma SurvivorStep(s: State, step: Step, dead: set<NodeId>, n: NodeId)
    requires Stopped(s, dead) && Enabled(s, step) && Spares(step, dead) && n !in dead
    requires n in Apply(s, step).nodes
    ensures Alive(s, dead, n) && Apply(s, step).nodes[n].upstream == s.nodes[n].upstream
    ensures var log, next := s.nodes[n].log, Apply(s, step).nodes[n].log;
            || next == log
            || (s.nodes[n].upstream.None? && step.Write? && log <= next)
            || (s.nodes[n].upstream.Some? && Alive(s, dead, s.nodes[n].upstream.value)
                && next <= s.nodes[s.nodes[n].upstream.value].log && step == ApplyOne(n))
  {
    if n in s.nodes {
      StepKeepsUpstreams(s, step, n);
      StepMovesOneLog(s, step, n);
    } else {
      assert false;
    }
    if step == ApplyOne(n) {
      SurvivorApplies(s, n, dead);
    }
  }

  /** What a survivor applies comes from another survivor. */
  lemma SurvivorApplies(s: State, c: NodeId, dead: set<NodeId>)
    requires Stopped(s, dead) && c !in dead && Enabled(s, ApplyOne(c))
    ensures s.nodes[c].upstream.Some? && Alive(s, dead, s.nodes[c].upstream.value)
    ensures ApplyUpdate(s, c).nodes[c].log <= s.nodes[s.nodes[c].upstream.value].log
  {
    assert GoodPhase(s, c) && DrainedAt(s, dead, c);
    AppliedFits(s.requests, c, s.nodes[c], s.nodes[s.nodes[c].upstream.value].log);
  }

  ghost predicate Searching(s: State, dead: set<NodeId>, top: Log)
  {
    Stopped(s, dead) && BehindTop(s, dead, top)
  }

  lemma {:induction false} MeanwhileSearching(s: State, steps: seq<Step>, t: State, dead: set<NodeId>, top: Log)
    requires Searching(s, dead, top) && RunsWithout(s, steps, t, dead)
    ensures Searching(t, dead, top) && Grown(s, t)
    decreases |steps|
  {
    if steps != [] {
      var next := Apply(s, steps[0]);
      StepKeepsStopped(s, steps[0], dead);
      StepKeepsTop(s, steps[0], dead, top);
      MeanwhileSearching(next, steps[1..], t, dead, top);
      GrownTransitive(s, next, t);
    }
  }

  // ----- after the promotion: no survivor gets past the new master -----

  ghost predicate BehindMaster(s: State, dead: set<NodeId>, p: NodeId)
  {
    && Alive(s, dead, p) && s.nodes[p].upstream.None?
    && forall n {:trigger Alive(s, dead, n)} | Alive(s, dead, n) ::
         s.nodes[n].log <= s.nodes[p].log && (n != p ==> s.nodes[n].upstream.Some?)
  }

  lemma StepKeepsMaster(s: State, step: Step, dead: set<NodeId>, p: NodeId)
    requires Stopped(s, dead) && BehindMaster(s, dead, p) && Enabled(s, step) && Spares(step, dead)
    requires Grown(s, Apply(s, step))
    ensures BehindMaster(Apply(s, step), dead, p)
  {
    var t := Apply(s, step);
    forall n {:trigger Alive(t, dead, n)} | Alive(t, dead, n)
      ensures t.nodes[n].log <= t.nodes[p].log && (n != p ==> t.nodes[n].upstream.Some?)
    {
      if n != p {
        SurvivorStep(s, step, dead, n);
      }
    }
  }

  ghost predicate Promoted(s: State, dead: set<NodeId>, p: NodeId)
  {
    Stopped(s, dead) && BehindMaster(s, dead, p)
  }

  lemma {:induction false} MeanwhilePromoted(s: State, steps: seq<Step>, t: State, dead: set<NodeId>, p: NodeId)
    requires Promoted(s, dead, p) && RunsWithout(s, steps, t, dead)
    ensures Promoted(t, dead, p) && Grown(s, t)
    decreases |steps|
  {
    if steps != [] {
      var next := Apply(s, steps[0]);
      StepKeepsStopped(s, steps[0], dead);
      StepKeepsMaster(s, steps[0], dead, p);
      MeanwhilePromoted(next, steps[1..], t, dead, p);
      GrownTransitive(s, next, t);
    }
  }

  // ----- the procedure -----

  /** The failed system: the old master `m` is dead, and every survivor is a slave that
      followed it, directly or through other slaves. */
  ghost predicate MasterLost(s: State, dead: set<NodeId>, m: NodeId)
  {
    && Stopped(s, dead) && m in s.nodes && m in dead
    && forall n {:trigger Alive(s, dead, n)} | Alive(s, dead, n) ::
         s.nodes[n].upstream.Some? && s.nodes[n].log <= s.nodes[m].log
  }

  /** The chain of upstreams that starts at a replica ends at `m`. */
  ghost predicate ChainTo(s: State, chains: map<NodeId, seq<NodeId>>, n: NodeId, m: NodeId)
  {
    n in chains && UpstreamChain(s, chains[n]) && chains[n][0] == n && chains[n][|chains[n]| - 1] == m
  }

  /** Survivors whose chain of upstreams ends at the old master did follow it. */
  lemma ChainsFollowMaster(s: State, dead: set<NodeId>, m: NodeId, chains: map<NodeId, seq<NodeId>>)
    requires Stopped(s, dead) && m in s.nodes && m in dead
    requires forall n {:trigger Alive(s, dead, n)} | Alive(s, dead, n) :: ChainTo(s, chains, n, m)
    ensures MasterLost(s, dead, m)
  {
    forall n {:trigger Alive(s, dead, n)} | Alive(s, dead, n)
      ensures s.nodes[n].upstream.Some? && s.nodes[n].log <= s.nodes[m].log
    {
      var chain := chains[n];
      ChainPrefixSafety(s, chain);
      assert |chain| > 1;
      assert s.nodes[chain[0]].upstream == Some(chain[1]);
    }
  }

  /** Among prefixes of one log one is the longest. */
  lemma {:induction false} LongestLog(logs: map<NodeId, Log>, common: Log) returns (holder: NodeId)
    requires logs != map[] && forall n | n in logs :: logs[n] <= common
    ensures holder in logs && forall n | n in logs :: logs[n] <= logs[holder]
    decreases |logs|
  {
    holder :| holder in logs;
    var rest := logs - {holder};
    if rest != map[] {
      assert |rest| < |logs| by { assert rest.Keys == logs.Keys - {holder}; }
      var other := LongestLog(rest, common);
      forall n | n in logs && n != holder ensures logs[n] <= logs[other] {
        assert n in rest;
      }
      if |logs[holder]| < |logs[other]| {
        holder := other;
      }
    } else {
      assert forall n | n in logs :: n == holder by {
        forall n | n in logs ensures n == holder { assert n !in rest; }
      }
    }
  }

  /** The longest surviving log and a survivor that has it. */
  lemma TopOfSurvivors(s: State, dead: set<NodeId>, m: NodeId, p: NodeId) returns (holder: NodeId)
    requires MasterLost(s, dead, m) && Alive(s, dead, p)
    ensures Alive(s, dead, holder) && Searching(s, dead, s.nodes[holder].log)
  {
    var logs: map<NodeId, Log> := map n: NodeId | n in s.nodes && n !in dead :: s.nodes[n].log;
    assert p in logs;
    forall n | n in logs ensures logs[n] <= s.nodes[m].log {
      assert Alive(s, dead, n);
    }
    holder := LongestLog(logs, s.nodes[m].log);
    forall n {:trigger Alive(s, dead, n)} | Alive(s, dead, n)
      ensures s.nodes[n].upstream.Some? && s.nodes[n].log <= s.nodes[holder].log
    {
      assert logs[n] <= logs[holder];
    }
  }

  /** Whatever the surviving replicas do between two statements of the procedure; all the
      caller knows is that it is some run without the dead master. */
  method Interfere(s: State, dead: set<NodeId>) returns (t: State)
    ensures Meanwhile(s, t, dead)
  {
    t := s;
    assert RunsWithout(s, [], t, dead);
  }

  lemma SearchGoesOn(s: State, t: State, dead: set<NodeId>, top: Log)
    requires Searching(s, dead, top) && Meanwhile(s, t, dead)
    ensures Searching(t, dead, top) && Grown(s, t) && Reaches(s, t)
  {
    var steps :| RunsWithout(s, steps, t, dead);
    MeanwhileSearching(s, steps, t, dead, top);
  }

  lemma PromotionGoesOn(s: State, t: State, dead: set<NodeId>, p: NodeId)
    requires Promoted(s, dead, p) && Meanwhile(s, t, dead)
    ensures Promoted(t, dead, p) && Grown(s, t) && Reaches(s, t)
  {
    var steps :| RunsWithout(s, steps, t, dead);
    MeanwhilePromoted(s, steps, t, dead, p);
  }

  /** While searching, a log as long as the longest one is the longest one. */
  lemma ReachedTop(s: State, dead: set<NodeId>, top: Log, n: NodeId)
    requires Searching(s, dead, top) && Alive(s, dead, n)
    ensures s.nodes[n].log <= top && SeqNo(s.nodes[n].log) <= SeqNo(top)
    ensures SeqNo(top) <= SeqNo(s.nodes[n].log) <==> s.nodes[n].log == top
  {
    PrefixBySeqNo(s.nodes[n].log, top, top);
  }

  /** What the search knows: the best number seen so far is some survivor's, and it is the
      longest log's as soon as the holder of that log was asked. */
  ghost predicate SearchState(s: State, dead: set<NodeId>, p: NodeId, top: Log, holder: NodeId,
                              best: Option<NodeId>, highestSeq: nat)
  {
    && Searching(s, dead, top) && Alive(s, dead, p) && Alive(s, dead, holder)
    && s.nodes[holder].log == top && highestSeq <= SeqNo(top)
    && (best.None? ==> highestSeq <= SeqNo(s.nodes[p].log))
    && (best.Some? ==> Alive(s, dead, best.value) && highestSeq <= SeqNo(s.nodes[best.value].log))
  }

  lemma SearchStateGoesOn(s: State, t: State, dead: set<NodeId>, p: NodeId, top: Log, holder: NodeId,
                          best: Option<NodeId>, highestSeq: nat)
    requires SearchState(s, dead, p, top, holder, best, highestSeq) && Meanwhile(s, t, dead)
    ensures SearchState(t, dead, p, top, holder, best, highestSeq) && Reaches(s, t)
  {
    SearchGoesOn(s, t, dead, top);
    LogsOnlyGrow(s, t, p);
    LogsOnlyGrow(s, t, holder);
    if best.Some? {
      LogsOnlyGrow(s, t, best.value);
    }
    ReachedTop(t, dead, top, holder);
  }

  lemma LogsOnlyGrow(s: State, t: State, n: NodeId)
    requires Grown(s, t) && n in s.nodes
    ensures SeqNo(s.nodes[n].log) <= SeqNo(t.nodes[n].log)
  {
    var a, b := s.nodes[n].log, t.nodes[n].log;
    assert b[..|a|] == a && b[..|b|] == b;
    SeqNoMonotone(b, |a|, |b|);
  }

  /** One turn of the search: ask a host for its sequence number. */
  method AskHost(s0: State, dead: set<NodeId>, p: NodeId, host: NodeId, best0: Option<NodeId>, highest0: nat,
                 ghost top: Log, ghost holder: NodeId)
    returns (s: State, best: Option<NodeId>, highestSeq: nat)
    requires SearchState(s0, dead, p, top, holder, best0, highest0) && host in s0.nodes
    ensures SearchState(s, dead, p, top, holder, best, highestSeq)
    ensures s.nodes.Keys == s0.nodes.Keys && Reaches(s0, s)
    ensures highest0 <= highestSeq
    ensures host == holder ==> highestSeq == SeqNo(top)
    ensures highest0 == SeqNo(top) ==> best == best0
    ensures best == best0 || best == Some(host)
  {
    s := Interfere(s0, dead);
    SearchStateGoesOn(s0, s, dead, p, top, holder, best0, highest0);
    SearchGoesOn(s0, s, dead, top);
    best, highestSeq := best0, highest0;
    if host !in dead {
      ReachedTop(s, dead, top, host);
      var seqNo := SeqNo(s.nodes[host].log);
      if highestSeq < seqNo {
        highestSeq, best := seqNo, Some(host);
      }
    }
  }

  lemma SearchBegins(s0: State, s: State, dead: set<NodeId>, p: NodeId, top: Log, holder: NodeId)
    requires Searching(s0, dead, top) && Alive(s0, dead, p) && Alive(s0, dead, holder) && s0.nodes[holder].log == top
    requires Meanwhile(s0, s, dead)
    ensures s.nodes.Keys == s0.nodes.Keys && Reaches(s0, s)
    ensures SearchState(s, dead, p, top, holder, None, SeqNo(s.nodes[p].log))
    ensures s0.nodes[p].log == top ==> SeqNo(s.nodes[p].log) == SeqNo(top)
  {
    SearchGoesOn(s0, s, dead, top);
    ReachedTop(s, dead, top, p);
    LogsOnlyGrow(s0, s, p);
    LogsOnlyGrow(s0, s, holder);
    ReachedTop(s, dead, top, holder);
  }

  /** The search loop of onBecomeMasterFromSlave over the instances of the external view,
      in whatever order it lists them; a stopped instance does not answer. */
  method FindHighestSeq(s0: State, dead: set<NodeId>, p: NodeId, hosts: seq<NodeId>, ghost top: Log,
                        ghost holder: NodeId)
    returns (s: State, best: Option<NodeId>, highestSeq: nat)
    requires Searching(s0, dead, top) && Alive(s0, dead, p) && Alive(s0, dead, holder) && s0.nodes[holder].log == top
    requires holder in hosts && forall n | n in hosts :: n in s0.nodes
    ensures SearchState(s, dead, p, top, holder, best, highestSeq) && highestSeq == SeqNo(top)
    ensures s.nodes.Keys == s0.nodes.Keys && Reaches(s0, s)
    ensures s0.nodes[p].log == top ==> best.None?
    ensures best != Some(p)
  {
    s := Interfere(s0, dead);
    SearchBegins(s0, s, dead, p, top, holder);
    best, highestSeq := None, SeqNo(s.nodes[p].log);
    var i := 0;
    while i < |hosts|
      invariant 0 <= i <= |hosts| && s.nodes.Keys == s0.nodes.Keys && Reaches(s0, s)
      invariant SearchState(s, dead, p, top, holder, best, highestSeq)
      invariant SeqNo(top) <= highestSeq || (holder != p && holder !in hosts[..i])
      invariant s0.nodes[p].log == top ==> best.None? && highestSeq == SeqNo(top)
      invariant best != Some(p)
    {
      assert hosts[..i + 1] == hosts[..i] + [hosts[i]];
      if hosts[i] != p {
        ghost var before := s;
        s, best, highestSeq := AskHost(s, dead, p, hosts[i], best, highestSeq, top, holder);
        ReachesTransitive(s0, before, s);
      }
      i := i + 1;
    }
    assert hosts[..|hosts|] == hosts;
  }

  /** How a changeDBRoleAndUpStream call ends; a call whose reply is lost was carried out. */
  datatype Rpc = Ok | Refused | LostReply

  /** A role change asked for by a call: the state after it. */
  function Called(s: State, n: NodeId, upstream: Option<NodeId>, rpc: Rpc): State
    requires n in s.nodes
  {
    if rpc == Refused then s else ChangeRole(s, n, upstream)
  }

  /** Pointing the local replica to the survivor with the longest log. */
  lemma PointedToBest(s: State, dead: set<NodeId>, p: NodeId, top: Log, best: NodeId, rpc: Rpc)
    requires Searching(s, dead, top) && Alive(s, dead, p) && Alive(s, dead, best) && s.nodes[best].log == top
    ensures var t := Called(s, p, Some(best), rpc);
            && Searching(t, dead, top) && Alive(t, dead, p) && t.nodes.Keys == s.nodes.Keys && Reaches(s, t)
            && (rpc != Refused ==> t.nodes[p].upstream == Some(best)) && (best != p ==> t.nodes[best].log == top)
  {
    if rpc == Refused {
      assert Executes(s, [], s);
    } else {
      ChangeRoleKeepsStopped(s, dead, p, Some(best));
      ChangeRoleBehindTop(s, dead, top, p, best);
    }
  }

  /** The replica pulls from a survivor whose log is the longest. */
  ghost predicate PullsFromLongest(s: State, dead: set<NodeId>, p: NodeId)
  {
    exists best :: PullsFrom(s, p, best) && LongestOf(s, dead, best)
  }

  ghost predicate PullsFrom(s: State, p: NodeId, best: NodeId)
  {
    p in s.nodes && best in s.nodes && best != p && s.nodes[p].upstream == Some(best)
  }

  ghost predicate LongestOf(s: State, dead: set<NodeId>, best: NodeId)
  {
    Alive(s, dead, best) && Longest(s, dead, best)
  }

  lemma PullsOn(s: State, t: State, dead: set<NodeId>, top: Log, p: NodeId, best: NodeId)
    requires Meanwhile(s, t, dead) && Searching(t, dead, top)
    requires PullsFrom(s, p, best) && Alive(t, dead, best) && s.nodes[best].log == top && Grown(s, t)
    ensures PullsFrom(t, p, best) && LongestOf(t, dead, best) && t.nodes[best].log == top
  {
    FollowGoesOn(s, t, dead, {p}, best);
    assert t.nodes[best].log <= top;
  }

  /** The catch-up wait: up to 600 looks at the local sequence number. It throws when the
      call fails or the local replica has not caught up by then; `looks` are the logs it saw.
      From the call on the local replica pulls from the survivor with the longest log. */
  method CatchUp(s0: State, dead: set<NodeId>, p: NodeId, best: NodeId, highestSeq: nat, rpc: Rpc,
                 ghost top: Log, ghost holder: NodeId)
    returns (s: State, caughtUp: bool, ghost looks: seq<Log>)
    requires SearchState(s0, dead, p, top, holder, Some(best), highestSeq) && highestSeq == SeqNo(top) && best != p
    ensures Searching(s, dead, top) && Alive(s, dead, p)
    ensures caughtUp ==> s.nodes[p].log == top
    ensures rpc == Ok && s.nodes[p].log == top ==> caughtUp
    ensures rpc == Ok ==> PullsFrom(s, p, best) && LongestOf(s, dead, best)
    ensures rpc == Ok && !caughtUp ==> |looks| == 600 && forall log | log in looks :: SeqNo(log) < highestSeq
    ensures s.nodes.Keys == s0.nodes.Keys && Reaches(s0, s)
  {
    ReachedTop(s0, dead, top, best);
    PointedToBest(s0, dead, p, top, best, rpc);
    s := Called(s0, p, Some(best), rpc);
    looks := [];
    if rpc != Ok {
      return s, false, looks;
    }
    caughtUp := false;
    var i := 0;
    while i < 600 && !caughtUp
      invariant Searching(s, dead, top) && Alive(s, dead, p) && Reaches(s0, s)
      invariant PullsFrom(s, p, best) && Alive(s, dead, best) && s.nodes[best].log == top
      invariant !caughtUp ==> |looks| == i && forall log | log in looks :: SeqNo(log) < highestSeq
      invariant i > 0 ==> (caughtUp <==> s.nodes[p].log == top)
      invariant i == 0 ==> !caughtUp
      invariant s.nodes.Keys == s0.nodes.Keys
      decreases 600 - i, !caughtUp
    {
      ghost var before := s;
      s := Interfere(s, dead);
      SearchGoesOn(before, s, dead, top);
      ReachesTransitive(s0, before, s);
      PullsOn(before, s, dead, top, p, best);
      ReachedTop(s, dead, top, p);
      caughtUp := highestSeq <= SeqNo(s.nodes[p].log);
      looks := looks + [s.nodes[p].log];
      i := i + 1;
    }
  }

  lemma ChangeRoleBehindTop(s: State, dead: set<NodeId>, top: Log, n: NodeId, upstream: NodeId)
    requires BehindTop(s, dead, top) && n in s.nodes
    ensures BehindTop(ChangeRole(s, n, Some(upstream)), dead, top)
  {
    var t := ChangeRole(s, n, Some(upstream));
    forall m {:trigger Alive(t, dead, m)} | Alive(t, dead, m)
      ensures t.nodes[m].upstream.Some? && t.nodes[m].log <= top
    {
      assert Alive(s, dead, m);
    }
  }

  lemma BecomesAhead(s: State, dead: set<NodeId>, p: NodeId)
    requires Alive(s, dead, p) && BehindTop(s, dead, s.nodes[p].log)
    ensures BehindMaster(ChangeRole(s, p, None), dead, p)
  {
    var t := ChangeRole(s, p, None);
    forall m {:trigger Alive(t, dead, m)} | Alive(t, dead, m)
      ensures t.nodes[m].log <= t.nodes[p].log && (m != p ==> t.nodes[m].upstream.Some?)
    {
      assert Alive(s, dead, m);
    }
  }

  lemma StaysAhead(s: State, dead: set<NodeId>, p: NodeId, n: NodeId)
    requires BehindMaster(s, dead, p) && n in s.nodes && n != p
    ensures BehindMaster(ChangeRole(s, n, Some(p)), dead, p)
  {
    var t := ChangeRole(s, n, Some(p));
    forall m {:trigger Alive(t, dead, m)} | Alive(t, dead, m)
      ensures t.nodes[m].log <= t.nodes[p].log && (m != p ==> t.nodes[m].upstream.Some?)
    {
      assert Alive(s, dead, m);
    }
  }

  lemma PromotionBegins(s: State, dead: set<NodeId>, p: NodeId, top: Log)
    requires Searching(s, dead, top) && Alive(s, dead, p) && s.nodes[p].log == top
    ensures Promoted(ChangeRole(s, p, None), dead, p) && Reaches(s, ChangeRole(s, p, None))
    ensures ChangeRole(s, p, None).nodes[p].log == top
  {
    ChangeRoleKeepsStopped(s, dead, p, None);
    BecomesAhead(s, dead, p);
  }

  lemma Repointed(s: State, dead: set<NodeId>, p: NodeId, n: NodeId)
    requires Promoted(s, dead, p) && Alive(s, dead, n) && n != p
    ensures Promoted(ChangeRole(s, n, Some(p)), dead, p) && Reaches(s, ChangeRole(s, n, Some(p)))
  {
    ChangeRoleKeepsStopped(s, dead, n, Some(p));
    StaysAhead(s, dead, p, n);
  }

  /** Search and catch up: afterwards the local log is the longest surviving one. */
  method Prepare(s0: State, dead: set<NodeId>, p: NodeId, hosts: seq<NodeId>, rpc: Rpc, ghost top: Log,
                 ghost holder: NodeId)
    returns (s: State, ready: bool)
    requires Searching(s0, dead, top) && Alive(s0, dead, p) && Alive(s0, dead, holder) && s0.nodes[holder].log == top
    requires holder in hosts && forall n | n in hosts :: n in s0.nodes
    ensures Searching(s, dead, top) && Alive(s, dead, p) && s.nodes.Keys == s0.nodes.Keys && Reaches(s0, s)
    ensures ready ==> s.nodes[p].log == top
    ensures s0.nodes[p].log == top ==> ready
    ensures rpc == Ok && !ready ==> PullsFromLongest(s, dead, p)
  {
    var best, highestSeq;
    s, best, highestSeq := FindHighestSeq(s0, dead, p, hosts, top, holder);
    ReachedTop(s, dead, top, p);
    ready := true;
    if best.Some? {
      ghost var before := s;
      ghost var looks;
      s, ready, looks := CatchUp(s, dead, p, best.value, highestSeq, rpc, top, holder);
      ReachesTransitive(s0, before, s);
    }
  }

  /** Upstreams change by role changes only. */
  lemma {:induction false} RunKeepsUpstream(s: State, steps: seq<Step>, t: State, n: NodeId)
    requires Executes(s, steps, t) && n in s.nodes && forall i | 0 <= i < |steps| :: !steps[i].SwitchRole?
    ensures n in t.nodes && t.nodes[n].upstream == s.nodes[n].upstream
    decreases |steps|
  {
    if steps != [] {
      assert !steps[0].SwitchRole?;
      StepKeepsUpstreams(s, steps[0], n);
      RunKeepsUpstream(Apply(s, steps[0]), steps[1..], t, n);
    }
  }

  /** The replicas in `followers` pull from the new master. */
  ghost predicate Follow(s: State, followers: set<NodeId>, p: NodeId)
  {
    forall n | n in followers :: n in s.nodes && s.nodes[n].upstream == Some(p)
  }

  lemma FollowGoesOn(s: State, t: State, dead: set<NodeId>, followers: set<NodeId>, p: NodeId)
    requires Meanwhile(s, t, dead) && Follow(s, followers, p)
    ensures Follow(t, followers, p)
  {
    var steps: seq<Step> :| RunsWithout(s, steps, t, dead);
    forall i | 0 <= i < |steps| ensures !steps[i].SwitchRole? {
      assert Spares(steps[i], dead);
    }
    forall n | n in followers ensures n in t.nodes && t.nodes[n].upstream == Some(p) {
      RunKeepsUpstream(s, steps, t, n);
    }
  }

  /** One turn of the closing loop; a host that is unreachable by now is skipped. */
  method RepointOne(s0: State, dead: set<NodeId>, p: NodeId, host: NodeId, reachable: bool,
                    ghost followers: set<NodeId>)
    returns (s: State)
    requires Promoted(s0, dead, p) && host in s0.nodes && Follow(s0, followers, p)
    ensures Promoted(s, dead, p) && s0.nodes[p].log <= s.nodes[p].log && s.nodes.Keys == s0.nodes.Keys && Reaches(s0, s)
    ensures Follow(s, followers, p)
    ensures host != p && host !in dead && reachable ==> s.nodes[host].upstream == Some(p)
  {
    s := Interfere(s0, dead);
    PromotionGoesOn(s0, s, dead, p);
    FollowGoesOn(s0, s, dead, followers, p);
    if host != p && host !in dead && reachable {
      Repointed(s, dead, p, host);
      ReachesTransitive(s0, s, ChangeRole(s, host, Some(p)));
      s := ChangeRole(s, host, Some(p));
    }
  }

  /** The closing loop: re-point the other replicas, with best effort. */
  method RepointOthers(s0: State, dead: set<NodeId>, p: NodeId, hosts: seq<NodeId>, reachable: NodeId -> bool)
    returns (s: State)
    requires Promoted(s0, dead, p) && forall n | n in hosts :: n in s0.nodes
    ensures Promoted(s, dead, p) && s0.nodes[p].log <= s.nodes[p].log && Reaches(s0, s)
    ensures forall n | n in hosts && n != p && n !in dead && reachable(n) ::
              n in s.nodes && s.nodes[n].upstream == Some(p)
  {
    s := s0;
    assert Executes(s0, [], s);
    var i := 0;
    ghost var followers: set<NodeId> := {};
    while i < |hosts|
      invariant 0 <= i <= |hosts| && s.nodes.Keys == s0.nodes.Keys && Reaches(s0, s)
      invariant Promoted(s, dead, p) && s0.nodes[p].log <= s.nodes[p].log
      invariant Follow(s, followers, p)
      invariant forall n | n in hosts[..i] && n != p && n !in dead && reachable(n) :: n in followers
    {
      assert hosts[..i + 1] == hosts[..i] + [hosts[i]];
      ghost var before := s;
      s := RepointOne(s, dead, p, hosts[i], reachable(hosts[i]), followers);
      ReachesTransitive(s0, before, s);
      if hosts[i] != p && hosts[i] !in dead && reachable(hosts[i]) {
        followers := followers + {hosts[i]};
      }
      i := i + 1;
    }
    assert hosts[..|hosts|] == hosts;
  }

  /** What the procedure meets: whether the external view still shows a master at each look,
      how the calls end that re-point and promote the local replica, and which hosts can be
      reached at the end. */
  datatype World = World(masterSeen: nat -> bool, repoint: Rpc, promote: Rpc, reachable: NodeId -> bool)

  ghost predicate ViewClears(world: World)
  {
    exists i: nat :: i < 60 && !world.masterSeen(i)
  }

  /** Wait until the external view shows no master, for 60 looks at most. */
  method AwaitNoMaster(world: World) returns (clear: bool)
    ensures clear <==> ViewClears(world)
  {
    for i := 0 to 60
      invariant forall k: nat | k < i :: world.masterSeen(k)
    {
      if !world.masterSeen(i) {
        return true;
      }
    }
    return false;
  }

  /** Promoting the local replica when its log is the longest surviving one. */
  method Promote(s0: State, dead: set<NodeId>, p: NodeId, hosts: seq<NodeId>, world: World, ghost top: Log)
    returns (s: State, completed: bool)
    requires Searching(s0, dead, top) && Alive(s0, dead, p) && s0.nodes[p].log == top
    requires forall n | n in hosts :: n in s0.nodes
    ensures Reaches(s0, s)
    ensures completed <==> world.promote == Ok
    ensures world.promote == Refused ==> Searching(s, dead, top)
    ensures world.promote != Refused ==> Promoted(s, dead, p) && top <= s.nodes[p].log
    ensures completed ==> forall n | n in hosts && n != p && n !in dead && world.reachable(n) ::
              n in s.nodes && s.nodes[n].upstream == Some(p)
  {
    s := Interfere(s0, dead);
    SearchGoesOn(s0, s, dead, top);
    ReachedTop(s, dead, top, p);
    LogsOnlyGrow(s0, s, p);
    completed := world.promote == Ok;
    if world.promote != Refused {
      PromotionBegins(s, dead, p, top);
      ReachesTransitive(s0, s, ChangeRole(s, p, None));
      s := ChangeRole(s, p, None);
    }
    if completed {
      ghost var before := s;
      s := RepointOthers(s, dead, p, hosts, world.reachable);
      ReachesTransitive(s0, before, s);
    }
  }

  /** onBecomeMasterFromSlave: wait for the old master to leave the view, search, catch up,
      promote, re-point the others with best effort. When it completes, the new master's log
      extends every survivor's log, the protocol's invariant holds of the new topology, no
      survivor is ahead of the new master, and every survivor that could be reached at the
      end pulls from it. When it throws, nobody was promoted, unless the promoting call was
      carried out and its reply lost; then the new master is as good as after completion. A
      replica with the longest log is promoted whenever the view clears and the call works; any
      other is then promoted, or pulls from a survivor with the longest log.
      All of it is a run of the protocol. */
  method OnBecomeMasterFromSlave(s0: State, dead: set<NodeId>, ghost m: NodeId, p: NodeId, hosts: seq<NodeId>,
                                 world: World)
    returns (s: State, completed: bool)
    requires MasterLost(s0, dead, m) && Alive(s0, dead, p)
    requires forall n | Alive(s0, dead, n) :: n in hosts
    requires forall n | n in hosts :: n in s0.nodes
    ensures Reaches(s0, s)
    ensures !ViewClears(world) ==> !completed && s == s0
    ensures completed ==> world.promote == Ok && Extends(s0, s, dead, p)
    ensures completed ==> forall n | n in hosts && n != p && n !in dead && world.reachable(n) ::
              n in s.nodes && s.nodes[n].upstream == Some(p)
    ensures !completed ==> AllSlaves(s, dead) || (world.promote == LostReply && Extends(s0, s, dead, p))
    ensures ViewClears(world) && world.promote == Ok && Longest(s0, dead, p) ==> completed
    ensures ViewClears(world) && world.repoint == Ok && world.promote == Ok ==>
              completed || PullsFromLongest(s, dead, p)
  {
    ghost var holder := TopOfSurvivors(s0, dead, m, p);
    ghost var top := s0.nodes[holder].log;
    s, completed := s0, false;
    assert Executes(s0, [], s);
    var clear := AwaitNoMaster(world);
    if clear {
      var ready;
      s, ready := Prepare(s0, dead, p, hosts, world.repoint, top, holder);
      if ready {
        ghost var before := s;
        s, completed := Promote(s, dead, p, hosts, world, top);
        ReachesTransitive(s0, before, s);
      }
    }
  }

  /** `p` is a master that no survivor is ahead of, and it has all that any survivor had. */
  ghost predicate Extends(s0: State, s: State, dead: set<NodeId>, p: NodeId)
  {
    && Promoted(s, dead, p)
    && forall n {:trigger Alive(s0, dead, n)} | Alive(s0, dead, n) :: s0.nodes[n].log <= s.nodes[p].log
  }

  ghost predicate AllSlaves(s: State, dead: set<NodeId>)
  {
    forall n {:trigger Alive(s, dead, n)} | Alive(s, dead, n) :: s.nodes[n].upstream.Some?
  }

  ghost predicate Longest(s: State, dead: set<NodeId>, p: NodeId)
    requires p in s.nodes
  {
    forall n {:trigger Alive(s, dead, n)} | Alive(s, dead, n) :: s.nodes[n].log <= s.nodes[p].log
  }

  // ----- acknowledged writes survive -----

  /** A survivor's log holds the write, at the place it has in the old master's. */
  ghost predicate HeldBySurvivor(s: State, dead: set<NodeId>, w: ClientWrite)
  {
    exists n :: Alive(s, dead, n) && w.index < |s.nodes[n].log| && s.nodes[n].log[w.index] == w.batch
  }

  ghost predicate InLog(log: Log, w: ClientWrite)
  {
    w.index < |log| && log[w.index] == w.batch
  }

  /** Every replica that holds the write pulls from its master, directly or through others: all
      replicas do in a tree under the master, and one that does not matters only if its log is
      long enough. */
  ghost predicate HoldersFollow(s: State, w: ClientWrite, chains: map<NodeId, seq<NodeId>>)
  {
    forall n {:trigger Durability.HeldBy(s, w, n)} | Durability.HeldBy(s, w, n) :: ChainTo(s, chains, n, w.master)
  }

  ghost predicate DirectSlavesSurvive(s: State, dead: set<NodeId>, m: NodeId)
  {
    forall c | c in s.nodes && c != m && s.nodes[c].upstream == Some(m) :: c !in dead
  }

  /** On the way from a replica to the master there is a direct slave, and it has all that the
      replica has. The last one before the master is taken. */
  lemma {:induction false} DirectSlaveAbove(s: State, chain: seq<NodeId>, m: NodeId) returns (d: NodeId)
    requires Inv(s) && UpstreamChain(s, chain) && chain[0] != m && chain[|chain| - 1] == m
    ensures d in s.nodes && d != m && s.nodes[d].upstream == Some(m) && s.nodes[chain[0]].log <= s.nodes[d].log
    decreases |chain|
  {
    assert s.nodes[chain[0]].upstream == Some(chain[1]);
    if chain[1] == m {
      d := chain[0];
    } else {
      var rest := chain[1..];
      assert UpstreamChain(s, rest) by {
        forall i, j | 0 <= i && j == i + 1 && j < |rest| ensures s.nodes[rest[i]].upstream == Some(rest[j]) {
          assert rest[i] == chain[i + 1] && rest[j] == chain[j + 1];
        }
      }
      d := DirectSlaveAbove(s, rest, m);
      assert s.nodes[chain[0]].log <= s.nodes[chain[1]].log;
    }
  }

  /** When the direct slaves of the old master survive, every write that it acknowledged in
      mode 2 and that only its followers hold is held by a survivor. */
  lemma SurvivorHolds(start: State, steps: seq<Step>, s: State, dead: set<NodeId>, w: ClientWrite,
                      chains: map<NodeId, seq<NodeId>>)
    requires Init(start) && start.mode == 2 && Executes(start, steps, s)
    requires w in s.writes && w.stage.Acknowledged?
    requires HoldersFollow(s, w, chains) && DirectSlavesSurvive(s, dead, w.master)
    ensures HeldBySurvivor(s, dead, w)
  {
    var c := AcknowledgedHolder(start, steps, s, w);
    HolderHasSurvivor(s, dead, w, c, chains[c]);
  }

  lemma AcknowledgedHolder(start: State, steps: seq<Step>, s: State, w: ClientWrite) returns (c: NodeId)
    requires Init(start) && start.mode == 2 && Executes(start, steps, s)
    requires w in s.writes && w.stage.Acknowledged?
    ensures Inv(s) && Durability.HeldBy(s, w, c)
  {
    InitIsInv(start);
    RunKeepsInv(start, steps, s);
    Durability.AcknowledgedMeansReplicated(start, steps, s, w);
    c :| Durability.HeldBy(s, w, c);
  }

  lemma HolderHasSurvivor(s: State, dead: set<NodeId>, w: ClientWrite, c: NodeId, chain: seq<NodeId>)
    requires Inv(s) && Durability.HeldBy(s, w, c) && DirectSlavesSurvive(s, dead, w.master)
    requires UpstreamChain(s, chain) && chain[0] == c && chain[|chain| - 1] == w.master
    ensures HeldBySurvivor(s, dead, w)
  {
    var d := DirectSlaveAbove(s, chain, w.master);
    assert Alive(s, dead, d);
  }

  /** Failover from the start of the system: run it in mode 2 through any number of writes and
      role changes, earlier failovers included, until the master that the survivors follow dies,
      then promote. When the promotion completes, every acknowledged write that a survivor holds
      is in the new master's log at its place; and that is every write the old master
      acknowledged if its direct slaves survived and only its followers hold the write. */
  method FailOver(ghost start: State, ghost steps: seq<Step>, s0: State, dead: set<NodeId>, ghost m: NodeId,
                  p: NodeId, hosts: seq<NodeId>, world: World, ghost chains: map<NodeId, seq<NodeId>>)
    returns (s: State, completed: bool)
    requires Init(start) && start.mode == 2 && Executes(start, steps, s0) && Drained(s0, dead)
    requires m in s0.nodes && m in dead && Alive(s0, dead, p)
    requires forall n {:trigger Alive(s0, dead, n)} | Alive(s0, dead, n) :: n in hosts && ChainTo(s0, chains, n, m)
    requires forall n | n in hosts :: n in s0.nodes
    ensures Reaches(start, s)
    ensures completed ==> Promoted(s, dead, p)
    ensures completed ==> forall w | w in s0.writes && w.stage.Acknowledged? && HeldBySurvivor(s0, dead, w) ::
              InLog(s.nodes[p].log, w)
    ensures completed && DirectSlavesSurvive(s0, dead, m) ==>
              forall w | w in s0.writes && w.stage.Acknowledged? && w.master == m && HoldersFollow(s0, w, chains) ::
                InLog(s.nodes[p].log, w)
    ensures forall w | w in s.writes && w.stage.Acknowledged? :: Durability.HeldElsewhere(s, w)
  {
    ReachableIsStopped(start, steps, s0, dead);
    ChainsFollowMaster(s0, dead, m, chains);
    s, completed := OnBecomeMasterFromSlave(s0, dead, m, p, hosts, world);
    ReachesTransitive(start, s0, s);
    if completed && DirectSlavesSurvive(s0, dead, m) {
      forall w | w in s0.writes && w.stage.Acknowledged? && w.master == m && HoldersFollow(s0, w, chains)
        ensures HeldBySurvivor(s0, dead, w)
      {
        SurvivorHolds(start, steps, s0, dead, w, chains);
      }
    }
    forall w | w in s.writes && w.stage.Acknowledged? ensures Durability.HeldElsewhere(s, w) {
      ghost var all :| Executes(start, all, s);
      Durability.AcknowledgedMeansReplicated(start, all, s, w);
    }
  }
}
