/** The pull-replication protocol of ReplicatedDB: masters append client writes, slaves
    pull runs of batches from their upstream (a master or another slave), over a network
    that may lose, delay or duplicate messages, and replicas change roles and upstreams.
    One step is one atomic action of one thread; a run is any interleaving of steps. */
module Replication {
  import opened Options
  import opened Wal
  import Serving

  type NodeId = nat

  /** A replicate request. `have` is the number of batches the slave held when it sent
      the request: it is not part of the message and no step reads it. */
  datatype Request = Request(id: nat, from: NodeId, to: NodeId, seqNo: nat, maxUpdates: int, have: nat)

  datatype Response = Response(request: Request, updates: Log)

  /** The pull chain of a slave: between two pulls (or waiting out the error delay),
      waiting for a reply, or applying the updates of a reply. */
  datatype Phase = Idle | Requested(request: Request) | Applying(rest: Log)

  /** An entry of cached_iters_. */
  datatype CachedIter = CachedIter(key: nat, cursor: Cursor)

  /** A replicate task that has handed its response over and has still to post its
      acknowledgement number and to put its iterator back. */
  datatype Job = Job(node: NodeId, request: Request, key: nat, iter: Option<Cursor>)

  datatype Replica = Replica(log: Log, upstream: Option<NodeId>, phase: Phase, acked: nat,
                             cache: multiset<CachedIter>)

  datatype Stage = Committed | Waiting(target: nat) | Acknowledged | TimedOut

  /** A client write on a master: the batch it committed, its place in the log, and how
      far Write has come. */
  datatype ClientWrite = ClientWrite(master: NodeId, index: nat, batch: Batch, stage: Stage)

  datatype State = State(mode: nat, nodes: map<NodeId, Replica>, requests: set<Request>,
                         responses: set<Response>, jobs: set<Job>, writes: seq<ClientWrite>, nextId: nat)

  datatype Step =
    | Write(master: NodeId, batch: Batch)
    | ReadSeqNo(w: nat)
    | Acknowledge(w: nat)
    | GiveUp(w: nat)
    | Pull(slave: NodeId, maxUpdates: int)
    | Deliver(request: Request)
    | Reply(request: Request, cached: Option<Cursor>, visible: nat)
    | Finish(job: Job)
    | Receive(slave: NodeId, response: Response)
    | ApplyOne(slave: NodeId)
    | ApplyEnd(slave: NodeId)
    | PullError(slave: NodeId)
    | DropIters(node: NodeId, kept: multiset<CachedIter>)
    | SwitchRole(node: NodeId, upstream: Option<NodeId>)

  /** Write has not returned yet. */
  predicate Unsettled(w: ClientWrite)
  {
    w.stage.Committed? || w.stage.Waiting?
  }

  predicate Enabled(s: State, step: Step)
  {
    match step
    case Write(m, _) => m in s.nodes && s.nodes[m].upstream.None?
    case ReadSeqNo(w) => w < |s.writes| && s.writes[w].stage.Committed? && s.writes[w].master in s.nodes
    case Acknowledge(w) =>
      && w < |s.writes| && s.writes[w].stage.Waiting? && s.writes[w].master in s.nodes
      && (s.mode in {1, 2} ==> s.writes[w].stage.target <= s.nodes[s.writes[w].master].acked)
    case GiveUp(w) =>
      && s.mode in {1, 2}
      && w < |s.writes| && s.writes[w].stage.Waiting? && s.writes[w].master in s.nodes
      && s.nodes[s.writes[w].master].acked < s.writes[w].stage.target
    case Pull(c, _) => c in s.nodes && s.nodes[c].upstream.Some? && s.nodes[c].phase.Idle?
    case Deliver(q) => q in s.requests && q.to in s.nodes
    case Reply(q, cached, visible) =>
      && q in s.requests && q.to in s.nodes
      && (cached.Some? ==> CachedIter(q.seqNo + 1, cached.value) in s.nodes[q.to].cache)
      && Serving.CanRead(s.nodes[q.to].log, q.seqNo + 1, cached, visible)
    case Finish(j) => j in s.jobs && j.node in s.nodes
    case Receive(c, r) => c in s.nodes && r in s.responses && s.nodes[c].phase == Requested(r.request)
    case ApplyOne(c) => c in s.nodes && s.nodes[c].phase.Applying? && s.nodes[c].phase.rest != []
    case ApplyEnd(c) => c in s.nodes && s.nodes[c].phase.Applying?
    case PullError(c) => c in s.nodes && s.nodes[c].phase.Requested?
    case DropIters(n, kept) => n in s.nodes && kept <= s.nodes[n].cache
    // removing a db waits for the writes at work on it; a new upstream must not be behind
    case SwitchRole(n, upstream) =>
      && n in s.nodes && (forall i | 0 <= i < |s.writes| && s.writes[i].master == n :: !Unsettled(s.writes[i]))
      && (upstream.Some? ==> upstream.value in s.nodes && s.nodes[n].log <= s.nodes[upstream.value].log)
  }

  function Max(a: nat, b: nat): nat { if a < b then b else a }

  /** MaxNumberBox::post, in the modes that use the box. */
  function Post(mode: nat, posting: set<nat>, acked: nat, num: nat): nat
  {
    if mode in posting then Max(acked, num) else acked
  }

  function SetNode(s: State, n: NodeId, r: Replica): State
  {
    s.(nodes := s.nodes[n := r])
  }

  /** db_->Write of a client's batch on a master. */
  function Commit(s: State, m: NodeId, batch: Batch): State
    requires m in s.nodes
  {
    var r := s.nodes[m];
    SetNode(s, m, r.(log := r.log + [batch]))
      .(writes := s.writes + [ClientWrite(m, |r.log|, batch, Committed)])
  }

  function SetStage(s: State, w: nat, stage: Stage): State
    requires w < |s.writes|
  {
    s.(writes := s.writes[w := s.writes[w].(stage := stage)])
  }

  /** pullFromUpstream: ask for what follows the local log. */
  function SendPull(s: State, c: NodeId, maxUpdates: int): State
    requires c in s.nodes && s.nodes[c].upstream.Some?
  {
    var r := s.nodes[c];
    var q := Request(s.nextId, c, r.upstream.value, SeqNo(r.log), maxUpdates, |r.log|);
    SetNode(s, c, r.(phase := Requested(q))).(requests := s.requests + {q}, nextId := s.nextId + 1)
  }

  /** A request reaches its target, which posts the slave's committed number. */
  function Arrive(s: State, q: Request): State
    requires q.to in s.nodes
  {
    var r := s.nodes[q.to];
    SetNode(s, q.to, r.(acked := Post(s.mode, {1, 2}, r.acked, q.seqNo)))
  }

  /** The response and the remainder of a task, before the iterator is taken from the cache. */
  function HandOver(s: State, q: Request, served: Serving.Served): State
  {
    s.(responses := s.responses + {Response(q, served.updates)},
       jobs := s.jobs + {Job(q.to, q, served.nextSeq, served.iter)})
  }

  /** The replicate task: take an iterator, read, hand the response over. */
  function Answer(s: State, q: Request, cached: Option<Cursor>, visible: nat): State
    requires q.to in s.nodes && Serving.CanRead(s.nodes[q.to].log, q.seqNo + 1, cached, visible)
  {
    var r := s.nodes[q.to];
    var served := Serving.Serve(r.log, q.seqNo + 1, cached, q.maxUpdates, visible);
    var cache := if cached.Some? then r.cache - multiset{CachedIter(q.seqNo + 1, cached.value)} else r.cache;
    Replied(s, q, served, cache)
  }

  /** The response is on its way, the task has still to finish, and the iterator is in its hands. */
  function Replied(s: State, q: Request, served: Serving.Served, cache: multiset<CachedIter>): State
    requires q.to in s.nodes
  {
    SetNode(HandOver(s, q, served), q.to, s.nodes[q.to].(cache := cache))
  }

  /** The rest of a task: post what was handed over (mode 1), put the iterator back. */
  function Complete(s: State, j: Job): State
    requires j.node in s.nodes
  {
    var r := s.nodes[j.node];
    var cache := if j.iter.Some? then r.cache + multiset{CachedIter(j.key, j.iter.value)} else r.cache;
    var num := if j.key == 0 then 0 else j.key - 1;
    SetNode(s, j.node, r.(cache := cache, acked := Post(s.mode, {1}, r.acked, num)))
      .(jobs := s.jobs - {j})
  }

  function SetPhase(s: State, c: NodeId, phase: Phase): State
    requires c in s.nodes
  {
    SetNode(s, c, s.nodes[c].(phase := phase))
  }

  /** One iteration of the slave's apply loop. */
  function ApplyUpdate(s: State, c: NodeId): State
    requires c in s.nodes && s.nodes[c].phase.Applying? && s.nodes[c].phase.rest != []
  {
    var r := s.nodes[c];
    SetNode(s, c, r.(log := r.log + [r.phase.rest[0]], phase := Applying(r.phase.rest[1..])))
  }

  /** changeDBRoleAndUpStream: the db is removed and added again, so its pull chain, its
      iterator cache, its acknowledgement number and its tasks start afresh; only the
      log stays. `None` makes it a master. */
  function ChangeRole(s: State, n: NodeId, upstream: Option<NodeId>): State
    requires n in s.nodes
  {
    SetNode(s, n, Replica(s.nodes[n].log, upstream, Idle, 0, multiset{}))
      .(jobs := set j | j in s.jobs && j.node != n)
  }

  function Apply(s: State, step: Step): State
    requires Enabled(s, step)
  {
    match step
    case Write(m, batch) => Commit(s, m, batch)
    case ReadSeqNo(w) => SetStage(s, w, Waiting(SeqNo(s.nodes[s.writes[w].master].log)))
    case Acknowledge(w) => SetStage(s, w, Acknowledged)
    case GiveUp(w) => SetStage(s, w, TimedOut)
    case Pull(c, maxUpdates) => SendPull(s, c, maxUpdates)
    case Deliver(q) => Arrive(s, q)
    case Reply(q, cached, visible) => Answer(s, q, cached, visible)
    case Finish(j) => Complete(s, j)
    case Receive(c, r) => SetPhase(s, c, Applying(r.updates))
    case ApplyOne(c) => ApplyUpdate(s, c)
    case ApplyEnd(c) => SetPhase(s, c, Idle)
    case PullError(c) => SetPhase(s, c, Idle)
    case DropIters(n, kept) => SetNode(s, n, s.nodes[n].(cache := kept))
    case SwitchRole(n, upstream) => ChangeRole(s, n, upstream)
  }

  // ----- the invariant -----

  ghost predicate Topology(s: State)
  {
    forall n {:trigger s.nodes[n].upstream} | n in s.nodes && s.nodes[n].upstream.Some? ::
      s.nodes[n].upstream.value in s.nodes
  }

  /** Every slave's log is a prefix of its upstream's. */
  ghost predicate Prefixes(s: State)
    requires Topology(s)
  {
    forall n {:trigger s.nodes[n].upstream} | n in s.nodes && s.nodes[n].upstream.Some? ::
      s.nodes[n].log <= s.nodes[s.nodes[n].upstream.value].log
  }

  /** A request names a batch boundary of its target's log. */
  ghost predicate GoodRequest(s: State, q: Request)
  {
    && q.to in s.nodes
    && q.have <= |s.nodes[q.to].log|
    && SeqNo(s.nodes[q.to].log[..q.have]) == q.seqNo
  }

  /** A response carries the target's batches from that boundary on. */
  ghost predicate GoodResponse(s: State, r: Response)
  {
    && r.request in s.requests
    && GoodRequest(s, r.request)
    && var log := s.nodes[r.request.to].log;
       && r.request.have + |r.updates| <= |log|
       && r.updates == log[r.request.have..r.request.have + |r.updates|]
  }

  /** `r` is the response its task has handed over; the key is the number at which
      that response ends. */
  ghost predicate HandedFor(s: State, j: Job, r: Response)
  {
    && r in s.responses && r.request == j.request && GoodResponse(s, r)
    && j.key == StartSeq(s.nodes[r.request.to].log, r.request.have + |r.updates|)
  }

  ghost predicate GoodJob(s: State, j: Job)
  {
    && j.node in s.nodes
    && j.node == j.request.to
    && (j.iter.Some? ==> StandsAt(j.iter.value, s.nodes[j.node].log, j.key))
    && exists r :: HandedFor(s, j, r)
  }

  ghost predicate Messages(s: State)
  {
    && (forall q | q in s.requests :: GoodRequest(s, q))
    && (forall r | r in s.responses :: GoodResponse(s, r))
    && (forall j | j in s.jobs :: GoodJob(s, j))
  }

  /** The pull chain of a slave works on its current log: the outstanding request asks
      for what follows it, the updates being applied are what follows it upstream. */
  ghost predicate PhaseFits(requests: set<Request>, c: NodeId, r: Replica, up: Log)
  {
    match r.phase
    case Idle => true
    case Requested(q) => r.upstream == Some(q.to) && q.from == c && q in requests && q.have == |r.log|
    case Applying(rest) => |r.log| + |rest| <= |up| && rest == up[|r.log|..|r.log| + |rest|]
  }

  ghost predicate GoodPhase(s: State, c: NodeId)
    requires c in s.nodes && Topology(s)
  {
    var r := s.nodes[c];
    if r.upstream.None? then r.phase == Idle
    else PhaseFits(s.requests, c, r, s.nodes[r.upstream.value].log)
  }

  ghost predicate GoodCache(r: Replica)
  {
    forall e | e in r.cache :: StandsAt(e.cursor, r.log, e.key)
  }

  ghost predicate Replicas(s: State)
    requires Topology(s)
  {
    forall n {:trigger GoodPhase(s, n)} {:trigger GoodCache(s.nodes[n])} | n in s.nodes ::
      GoodPhase(s, n) && GoodCache(s.nodes[n])
  }

  ghost predicate Inv(s: State)
  {
    Topology(s) && Prefixes(s) && Messages(s) && Replicas(s)
  }

  /** A system as addDB starts it: nothing in flight, every slave behind its upstream. */
  ghost predicate Init(s: State)
  {
    && Topology(s) && Prefixes(s)
    && (forall n | n in s.nodes ::
          s.nodes[n].phase == Idle && s.nodes[n].acked == 0 && s.nodes[n].cache == multiset{})
    && s.requests == {} && s.responses == {} && s.jobs == {} && s.writes == []
  }

  // ----- what every step keeps -----

  /** The same nodes, and logs that only grew. */
  ghost predicate Grown(s: State, t: State)
  {
    && t.nodes.Keys == s.nodes.Keys
    && forall n {:trigger t.nodes[n].log} | n in s.nodes :: s.nodes[n].log <= t.nodes[n].log
  }

  lemma GoodRequestGrows(s: State, t: State, q: Request)
    requires Grown(s, t) && GoodRequest(s, q)
    ensures GoodRequest(t, q)
  {
    assert t.nodes[q.to].log[..q.have] == s.nodes[q.to].log[..q.have];
  }

  lemma GoodResponseGrows(s: State, t: State, r: Response)
    requires Grown(s, t) && GoodResponse(s, r) && s.requests <= t.requests
    ensures GoodResponse(t, r)
  {
    GoodRequestGrows(s, t, r.request);
    var a, b := s.nodes[r.request.to].log, t.nodes[r.request.to].log;
    var end := r.request.have + |r.updates|;
    assert a[r.request.have..end] == b[r.request.have..end];
  }

  lemma GoodJobGrows(s: State, t: State, j: Job)
    requires Grown(s, t) && GoodJob(s, j) && s.requests <= t.requests && s.responses <= t.responses
    ensures GoodJob(t, j)
  {
    var a, b := s.nodes[j.node].log, t.nodes[j.node].log;
    if j.iter.Some? {
      StandsAtGrows(j.iter.value, a, b, j.key);
    }
    var r :| HandedFor(s, j, r);
    GoodResponseGrows(s, t, r);
    assert a[..j.request.have + |r.updates|] == b[..j.request.have + |r.updates|];
    assert HandedFor(t, j, r);
  }

  lemma OldMessagesGrow(s: State, t: State)
    requires Grown(s, t) && Messages(s) && s.requests <= t.requests && s.responses <= t.responses
    ensures forall q | q in s.requests :: GoodRequest(t, q)
    ensures forall r | r in s.responses :: GoodResponse(t, r)
    ensures forall j | j in s.jobs :: GoodJob(t, j)
  {
    forall q | q in s.requests ensures GoodRequest(t, q) { GoodRequestGrows(s, t, q); }
    forall r | r in s.responses ensures GoodResponse(t, r) { GoodResponseGrows(s, t, r); }
    forall j | j in s.jobs ensures GoodJob(t, j) { GoodJobGrows(s, t, j); }
  }

  lemma PhaseFitsGrows(requests: set<Request>, more: set<Request>, c: NodeId, r: Replica, up: Log, longer: Log)
    requires PhaseFits(requests, c, r, up) && up <= longer && requests <= more
    ensures PhaseFits(more, c, r, longer)
  {
    if r.phase.Applying? {
      var end := |r.log| + |r.phase.rest|;
      assert up[|r.log|..end] == longer[|r.log|..end];
    }
  }

  lemma GoodCacheGrows(r: Replica, longer: Log)
    requires GoodCache(r) && r.log <= longer
    ensures GoodCache(r.(log := longer))
  {
    forall e | e in r.cache ensures StandsAt(e.cursor, longer, e.key) {
      StandsAtGrows(e.cursor, r.log, longer, e.key);
    }
  }

  /** `r` may replace the replica at `a`: its log only grew and is still behind its
      upstream's, its pull chain works on that log, its cache is in order. */
  ghost predicate Fits(s: State, a: NodeId, r: Replica)
    requires a in s.nodes
  {
    && r.upstream == s.nodes[a].upstream && s.nodes[a].log <= r.log && GoodCache(r)
    && if r.upstream.None? then r.phase == Idle
       else
         && r.upstream.value in s.nodes
         && var up := if r.upstream.value == a then r.log else s.nodes[r.upstream.value].log;
            r.log <= up && PhaseFits(s.requests, a, r, up)
  }

  lemma FittingNode(s: State, a: NodeId, r: Replica, n: NodeId)
    requires Inv(s) && a in s.nodes && n in s.nodes && Fits(s, a, r)
    requires Topology(SetNode(s, a, r))
    ensures var t := SetNode(s, a, r);
            && GoodPhase(t, n) && GoodCache(t.nodes[n])
            && (t.nodes[n].upstream.Some? ==> t.nodes[n].log <= t.nodes[t.nodes[n].upstream.value].log)
  {
    var t := SetNode(s, a, r);
    assert GoodPhase(s, n) && GoodCache(s.nodes[n]);
    if n != a && s.nodes[n].upstream.Some? {
      var u := s.nodes[n].upstream.value;
      PhaseFitsGrows(s.requests, s.requests, n, s.nodes[n], s.nodes[u].log, t.nodes[u].log);
    }
  }

  lemma FittingGrows(s: State, a: NodeId, r: Replica)
    requires Topology(s) && a in s.nodes && Fits(s, a, r)
    ensures Grown(s, SetNode(s, a, r)) && Topology(SetNode(s, a, r))
  {
  }

  /** The one frame argument all steps share: replacing one replica by a fitting one. */
  lemma NodeChangeKeeps(s: State, a: NodeId, r: Replica)
    requires Inv(s) && a in s.nodes && Fits(s, a, r)
    ensures Grown(s, SetNode(s, a, r)) && Inv(SetNode(s, a, r))
  {
    var t := SetNode(s, a, r);
    FittingGrows(s, a, r);
    OldMessagesGrow(s, t);
    forall n | n in t.nodes
      ensures GoodPhase(t, n) && GoodCache(t.nodes[n])
      ensures t.nodes[n].upstream.Some? ==> t.nodes[n].log <= t.nodes[t.nodes[n].upstream.value].log
    {
      FittingNode(s, a, r, n);
    }
  }

  /** A replica whose log and pull chain are untouched fits. */
  lemma SameLogFits(s: State, a: NodeId, r: Replica)
    requires Inv(s) && a in s.nodes && r == s.nodes[a].(acked := r.acked, cache := r.cache) && GoodCache(r)
    ensures Fits(s, a, r)
  {
    assert GoodPhase(s, a);
    var old_r := s.nodes[a];
    if r.upstream.Some? && r.phase.Applying? {
      assert PhaseFits(s.requests, a, old_r, s.nodes[r.upstream.value].log);
    }
  }

  /** New requests, responses and tasks do no harm if they are good ones. */
  lemma NewMessagesKeep(s: State, t: State)
    requires Inv(s) && t.nodes == s.nodes && s.requests <= t.requests && s.responses <= t.responses
    requires forall q | q in t.requests && q !in s.requests :: GoodRequest(t, q)
    requires forall r | r in t.responses && r !in s.responses :: GoodResponse(t, r)
    requires forall j | j in t.jobs && j !in s.jobs :: GoodJob(t, j)
    ensures Inv(t) && Grown(s, t)
  {
    OldMessagesGrow(s, t);
    forall n | n in t.nodes ensures GoodPhase(t, n) {
      assert GoodPhase(s, n);
    }
  }

  lemma CommitKeeps(s: State, m: NodeId, batch: Batch)
    requires Inv(s) && m in s.nodes && s.nodes[m].upstream.None?
    ensures Grown(s, Commit(s, m, batch)) && Inv(Commit(s, m, batch))
  {
    var r := s.nodes[m];
    GoodCacheGrows(r, r.log + [batch]);
    assert GoodPhase(s, m);
    NodeChangeKeeps(s, m, r.(log := r.log + [batch]));
    NewMessagesKeep(SetNode(s, m, r.(log := r.log + [batch])), Commit(s, m, batch));
  }

  lemma SendPullKeeps(s: State, c: NodeId, maxUpdates: int)
    requires Inv(s) && c in s.nodes && s.nodes[c].upstream.Some?
    ensures Grown(s, SendPull(s, c, maxUpdates)) && Inv(SendPull(s, c, maxUpdates))
  {
    var t := SendPull(s, c, maxUpdates);
    var q := t.nodes[c].phase.request;
    var asked := s.(requests := t.requests, nextId := t.nextId);
    assert s.nodes[q.to].log[..q.have] == s.nodes[c].log;
    assert GoodRequest(asked, q);
    NewMessagesKeep(s, asked);
    assert GoodCache(s.nodes[c]);
    NodeChangeKeeps(asked, c, t.nodes[c]);
  }

  /** What a task read: a run of batches of the target's log from the request's boundary
      on, and an iterator standing where the run ends. */
  ghost predicate ReadFromBoundary(s: State, q: Request, served: Serving.Served)
    requires GoodRequest(s, q)
  {
    Serving.FollowsBoundary(s.nodes[q.to].log, q.have, served)
  }

  /** Whether a task reads through a cached iterator or a fresh one, what it reads is
      the run of batches that follows the slave's log. */
  lemma TaskReadsFromBoundary(s: State, q: Request, cached: Option<Cursor>, visible: nat)
    requires GoodRequest(s, q) && visible <= |s.nodes[q.to].log|
    requires cached.Some? ==> StandsAt(cached.value, s.nodes[q.to].log, q.seqNo + 1)
    ensures Serving.CanRead(s.nodes[q.to].log, q.seqNo + 1, cached, visible)
    ensures ReadFromBoundary(s, q,
              Serving.Serve(s.nodes[q.to].log, q.seqNo + 1, cached, q.maxUpdates, visible))
  {
    var log := s.nodes[q.to].log;
    assert StartSeq(log, q.have) == q.seqNo + 1;
    Serving.ServeFollowsBoundary(log, q.have, cached, q.maxUpdates, visible);
  }

  /** The guard of a reply never blocks: every request that has arrived can be answered, with
      any iterator filed under its number or with a fresh one, however far it sees. */
  lemma ReplyNeverBlocks(s: State, q: Request, cached: Option<Cursor>, visible: nat)
    requires Inv(s) && q in s.requests && visible <= |s.nodes[q.to].log|
    requires cached.Some? ==> CachedIter(q.seqNo + 1, cached.value) in s.nodes[q.to].cache
    ensures Enabled(s, Reply(q, cached, visible))
  {
    assert GoodRequest(s, q);
    assert GoodCache(s.nodes[q.to]);
    TaskReadsFromBoundary(s, q, cached, visible);
  }

  lemma HandOverIsGood(s: State, q: Request, served: Serving.Served)
    requires GoodRequest(s, q) && q in s.requests && ReadFromBoundary(s, q, served)
    ensures GoodResponse(HandOver(s, q, served), Response(q, served.updates))
    ensures GoodJob(HandOver(s, q, served), Job(q.to, q, served.nextSeq, served.iter))
  {
    var t, r := HandOver(s, q, served), Response(q, served.updates);
    assert GoodResponse(t, r);
    assert HandedFor(t, Job(q.to, q, served.nextSeq, served.iter), r);
  }

  lemma HandOverKeeps(s: State, q: Request, served: Serving.Served)
    requires Inv(s) && q in s.requests && GoodRequest(s, q) && ReadFromBoundary(s, q, served)
    ensures Inv(HandOver(s, q, served)) && Grown(s, HandOver(s, q, served))
  {
    HandOverIsGood(s, q, served);
    NewMessagesKeep(s, HandOver(s, q, served));
  }

  lemma AnswerKeeps(s: State, q: Request, cached: Option<Cursor>, visible: nat)
    requires Inv(s) && Enabled(s, Reply(q, cached, visible))
    ensures Grown(s, Answer(s, q, cached, visible)) && Inv(Answer(s, q, cached, visible))
  {
    assert GoodRequest(s, q);
    TaskReadsFromBoundary(s, q, cached, visible);
    var served := Serving.Serve(s.nodes[q.to].log, q.seqNo + 1, cached, q.maxUpdates, visible);
    HandOverKeeps(s, q, served);
    DropKeeps(HandOver(s, q, served), q.to, Answer(s, q, cached, visible).nodes[q.to].cache);
  }

  lemma CompleteKeeps(s: State, j: Job)
    requires Inv(s) && j in s.jobs && j.node in s.nodes
    ensures Grown(s, Complete(s, j)) && Inv(Complete(s, j))
  {
    assert GoodJob(s, j);
    var r := Complete(s, j).nodes[j.node];
    SameLogFits(s, j.node, r);
    NodeChangeKeeps(s, j.node, r);
    NewMessagesKeep(SetNode(s, j.node, r), Complete(s, j));
  }

  /** Receiving the reply to the outstanding request: what is to be applied is what
      follows the slave's log upstream. */
  lemma ReplyFits(s: State, c: NodeId, r: Response, up: Log)
    requires c in s.nodes && GoodResponse(s, r) && up == s.nodes[r.request.to].log
    requires s.nodes[c].phase == Requested(r.request) && PhaseFits(s.requests, c, s.nodes[c], up)
    ensures PhaseFits(s.requests, c, s.nodes[c].(phase := Applying(r.updates)), up)
  {
  }

  lemma ReceiveKeeps(s: State, c: NodeId, r: Response)
    requires Inv(s) && Enabled(s, Receive(c, r))
    ensures Grown(s, SetPhase(s, c, Applying(r.updates))) && Inv(SetPhase(s, c, Applying(r.updates)))
  {
    assert GoodPhase(s, c) && GoodResponse(s, r);
    ReplyFits(s, c, r, s.nodes[r.request.to].log);
    NodeChangeKeeps(s, c, s.nodes[c].(phase := Applying(r.updates)));
  }

  lemma IdleKeeps(s: State, c: NodeId)
    requires Inv(s) && c in s.nodes
    ensures Grown(s, SetPhase(s, c, Idle)) && Inv(SetPhase(s, c, Idle))
  {
    assert GoodCache(s.nodes[c]);
    NodeChangeKeeps(s, c, s.nodes[c].(phase := Idle));
  }

  /** One iteration of the apply loop moves one batch from the updates to the log. */
  lemma AppliedFits(requests: set<Request>, c: NodeId, r: Replica, up: Log)
    requires r.log <= up && PhaseFits(requests, c, r, up) && r.phase.Applying? && r.phase.rest != []
    ensures var next := r.(log := r.log + [r.phase.rest[0]], phase := Applying(r.phase.rest[1..]));
            next.log <= up && PhaseFits(requests, c, next, up)
  {
    assert r.phase.rest[0] == up[|r.log|];
    assert r.phase.rest[1..] == up[|r.log| + 1..|r.log| + |r.phase.rest|];
  }

  lemma ApplyUpdateKeeps(s: State, c: NodeId)
    requires Inv(s) && Enabled(s, ApplyOne(c))
    ensures Grown(s, ApplyUpdate(s, c)) && Inv(ApplyUpdate(s, c))
  {
    var r := s.nodes[c];
    var next := r.(log := r.log + [r.phase.rest[0]], phase := Applying(r.phase.rest[1..]));
    assert GoodPhase(s, c);
    AppliedFits(s.requests, c, r, s.nodes[r.upstream.value].log);
    GoodCacheGrows(r, next.log);
    NodeChangeKeeps(s, c, next);
  }

  lemma StepKeepsInv(s: State, step: Step)
    requires Inv(s) && Enabled(s, step)
    ensures Inv(Apply(s, step)) && Grown(s, Apply(s, step))
  {
    match step
    case Write(m, batch) => CommitKeeps(s, m, batch);
    case ReadSeqNo(w) => NewMessagesKeep(s, Apply(s, step));
    case Acknowledge(w) => NewMessagesKeep(s, Apply(s, step));
    case GiveUp(w) => NewMessagesKeep(s, Apply(s, step));
    case Pull(c, maxUpdates) => SendPullKeeps(s, c, maxUpdates);
    case Deliver(q) => AckKeeps(s, q.to, Arrive(s, q).nodes[q.to].acked);
    case Reply(q, cached, visible) => AnswerKeeps(s, q, cached, visible);
    case Finish(j) => CompleteKeeps(s, j);
    case Receive(c, r) => ReceiveKeeps(s, c, r);
    case ApplyOne(c) => ApplyUpdateKeeps(s, c);
    case ApplyEnd(c) => IdleKeeps(s, c);
    case PullError(c) => IdleKeeps(s, c);
    case DropIters(n, kept) => DropKeeps(s, n, kept);
    case SwitchRole(n, upstream) => ChangeRoleKeeps(s, n, upstream);
  }

  // ----- changing a replica's role -----

  /** Every replica keeps its log. */
  ghost predicate SameLogs(s: State, t: State)
  {
    t.nodes.Keys == s.nodes.Keys && forall n | n in s.nodes :: t.nodes[n].log == s.nodes[n].log
  }

  lemma ChangeRoleMessages(s: State, n: NodeId, upstream: Option<NodeId>)
    requires Messages(s) && n in s.nodes
    ensures Messages(ChangeRole(s, n, upstream))
  {
    var t := ChangeRole(s, n, upstream);
    assert SameLogs(s, t);
    forall q | q in t.requests ensures GoodRequest(t, q) { assert GoodRequest(s, q); }
    forall r | r in t.responses ensures GoodResponse(t, r) { assert GoodResponse(s, r); }
    forall j | j in t.jobs ensures GoodJob(t, j) {
      assert GoodJob(s, j);
      var r :| HandedFor(s, j, r);
      assert HandedFor(t, j, r);
    }
  }

  lemma ChangeRoleNode(s: State, n: NodeId, upstream: Option<NodeId>, m: NodeId)
    requires Inv(s) && n in s.nodes && m in s.nodes && Topology(ChangeRole(s, n, upstream))
    requires upstream.Some? ==> upstream.value in s.nodes && s.nodes[n].log <= s.nodes[upstream.value].log
    ensures var t := ChangeRole(s, n, upstream);
            && GoodPhase(t, m) && GoodCache(t.nodes[m])
            && (t.nodes[m].upstream.Some? ==> t.nodes[m].log <= t.nodes[t.nodes[m].upstream.value].log)
  {
    if m != n {
      assert GoodPhase(s, m) && GoodCache(s.nodes[m]);
    }
  }

  lemma ChangeRoleTopology(s: State, n: NodeId, upstream: Option<NodeId>)
    requires Topology(s) && n in s.nodes && (upstream.Some? ==> upstream.value in s.nodes)
    ensures Topology(ChangeRole(s, n, upstream)) && SameLogs(s, ChangeRole(s, n, upstream))
  {
  }

  /** A role change keeps the protocol's invariant when the new upstream is not behind. */
  lemma ChangeRoleKeeps(s: State, n: NodeId, upstream: Option<NodeId>)
    requires Inv(s) && n in s.nodes
    requires upstream.Some? ==> upstream.value in s.nodes && s.nodes[n].log <= s.nodes[upstream.value].log
    ensures var t := ChangeRole(s, n, upstream);
            && Inv(t) && SameLogs(s, t) && Grown(s, t)
            && t.nodes[n].upstream == upstream && t.nodes[n].phase == Idle && t.nodes[n].acked == 0
            && (forall j :: j in t.jobs <==> j in s.jobs && j.node != n)
  {
    var t := ChangeRole(s, n, upstream);
    ChangeRoleTopology(s, n, upstream);
    ChangeRoleMessages(s, n, upstream);
    forall m | m in t.nodes
      ensures GoodPhase(t, m) && GoodCache(t.nodes[m])
      ensures t.nodes[m].upstream.Some? ==> t.nodes[m].log <= t.nodes[t.nodes[m].upstream.value].log
    {
      ChangeRoleNode(s, n, upstream, m);
    }
  }

  /** The guard of a role change is exact: a new upstream keeps the invariant if and only if
      its log is not behind the replica's. */
  lemma NewUpstreamMustNotBeBehind(s: State, n: NodeId, u: NodeId)
    requires Inv(s) && n in s.nodes && u in s.nodes
    ensures Inv(ChangeRole(s, n, Some(u))) <==> s.nodes[n].log <= s.nodes[u].log
  {
    if s.nodes[n].log <= s.nodes[u].log {
      ChangeRoleKeeps(s, n, Some(u));
    } else {
      assert ChangeRole(s, n, Some(u)).nodes[n].upstream == Some(u);
    }
  }

  /** What a caller can check: of replicas whose logs are prefixes of one log, the new upstream
      keeps the invariant if and only if it does not show the smaller sequence number. */
  lemma NewUpstreamByNumber(s: State, n: NodeId, u: NodeId, common: Log)
    requires Inv(s) && n in s.nodes && u in s.nodes
    requires s.nodes[n].log <= common && s.nodes[u].log <= common
    ensures Inv(ChangeRole(s, n, Some(u))) <==> SeqNo(s.nodes[n].log) <= SeqNo(s.nodes[u].log)
  {
    NewUpstreamMustNotBeBehind(s, n, u);
    PrefixBySeqNo(s.nodes[n].log, s.nodes[u].log, common);
  }

  /** The wait for an acknowledgement has one way on at any time: in modes 1 and 2 the write can be
      acknowledged when its number has been posted, and only given up before. */
  lemma WaitHasOneWayOn(s: State, w: nat)
    requires w < |s.writes| && s.writes[w].stage.Waiting? && s.writes[w].master in s.nodes
    ensures var posted := s.writes[w].stage.target <= s.nodes[s.writes[w].master].acked;
            && (Enabled(s, Acknowledge(w)) <==> s.mode !in {1, 2} || posted)
            && (Enabled(s, GiveUp(w)) <==> s.mode in {1, 2} && !posted)
  {
  }

  lemma AckKeeps(s: State, n: NodeId, acked: nat)
    requires Inv(s) && n in s.nodes
    ensures var t := SetNode(s, n, s.nodes[n].(acked := acked)); Inv(t) && Grown(s, t)
  {
    assert GoodCache(s.nodes[n]);
    SameLogFits(s, n, s.nodes[n].(acked := acked));
    NodeChangeKeeps(s, n, s.nodes[n].(acked := acked));
  }

  lemma DropKeeps(s: State, n: NodeId, kept: multiset<CachedIter>)
    requires Inv(s) && n in s.nodes && kept <= s.nodes[n].cache
    ensures var t := SetNode(s, n, s.nodes[n].(cache := kept)); Inv(t) && Grown(s, t)
  {
    assert GoodCache(s.nodes[n]);
    SameLogFits(s, n, s.nodes[n].(cache := kept));
    NodeChangeKeeps(s, n, s.nodes[n].(cache := kept));
  }

  // ----- runs -----

  /** `steps` is a run of the system from `s` to `t`. */
  ghost predicate Executes(s: State, steps: seq<Step>, t: State)
    decreases |steps|
  {
    if steps == [] then s == t
    else Enabled(s, steps[0]) && Executes(Apply(s, steps[0]), steps[1..], t)
  }

  /** Some run of the system leads from `s` to `t`. */
  ghost predicate Reaches(s: State, t: State)
  {
    exists steps :: Executes(s, steps, t)
  }

  lemma {:induction false} RunsConcat(s: State, a: seq<Step>, t: State, b: seq<Step>, u: State)
    requires Executes(s, a, t) && Executes(t, b, u)
    ensures Executes(s, a + b, u)
    decreases |a|
  {
    if a == [] {
      assert a + b == b;
    } else {
      var next, rest := Apply(s, a[0]), a[1..];
      RunsConcat(next, rest, t, b, u);
      assert (a + b)[1..] == rest + b;
      assert (a + b)[0] == a[0];
    }
  }

  lemma ReachesTransitive(s: State, t: State, u: State)
    requires Reaches(s, t) && Reaches(t, u)
    ensures Reaches(s, u)
  {
    var a :| Executes(s, a, t);
    var b :| Executes(t, b, u);
    RunsConcat(s, a, t, b, u);
  }

  lemma ReachesInOne(s: State, step: Step)
    requires Enabled(s, step)
    ensures Reaches(s, Apply(s, step))
  {
    assert [step][1..] == [];
    assert Executes(s, [step], Apply(s, step));
  }

  lemma GrownTransitive(s: State, t: State, u: State)
    requires Grown(s, t) && Grown(t, u)
    ensures Grown(s, u)
  {
    forall n | n in s.nodes ensures s.nodes[n].log <= u.nodes[n].log {
      assert n in t.nodes;
    }
  }

  lemma {:induction false} RunKeepsInv(s: State, steps: seq<Step>, t: State)
    requires Inv(s) && Executes(s, steps, t)
    ensures Inv(t) && Grown(s, t)
    decreases |steps|
  {
    if steps != [] {
      var next := Apply(s, steps[0]);
      StepKeepsInv(s, steps[0]);
      RunKeepsInv(next, steps[1..], t);
      GrownTransitive(s, next, t);
    }
  }

  lemma InitIsInv(s: State)
    requires Init(s)
    ensures Inv(s)
  {
  }

  /** What a slave's log, its upstream's log and its pull chain have to do with each
      other: the log is a prefix of the upstream's, a reply to the outstanding request
      carries exactly the upstream's batches after it, and so do the updates still to
      be applied. */
  ghost predicate FollowsUpstream(s: State, c: NodeId)
    requires c in s.nodes
  {
    s.nodes[c].upstream.Some? ==>
      && s.nodes[c].upstream.value in s.nodes
      && var log, up := s.nodes[c].log, s.nodes[s.nodes[c].upstream.value].log;
         && log <= up
         && (forall r | r in s.responses && s.nodes[c].phase == Requested(r.request) :: log + r.updates <= up)
         && (s.nodes[c].phase.Applying? ==> log + s.nodes[c].phase.rest <= up)
  }

  lemma InvFollowsUpstream(s: State, c: NodeId)
    requires Inv(s) && c in s.nodes
    ensures FollowsUpstream(s, c)
  {
    assert GoodPhase(s, c);
    if s.nodes[c].upstream.Some? {
      var log, up := s.nodes[c].log, s.nodes[s.nodes[c].upstream.value].log;
      forall r | r in s.responses && s.nodes[c].phase == Requested(r.request) ensures log + r.updates <= up {
        assert GoodResponse(s, r);
      }
    }
  }

  /** Log-prefix safety, over every run: lost, late and duplicated messages, failed and
      partial applies, chopped replies, slaves chained to slaves, cached iterators, replicas
      that change their roles and upstreams. No log ever loses a batch. */
  lemma LogPrefixSafety(start: State, steps: seq<Step>, s: State, c: NodeId)
    requires Init(start) && Executes(start, steps, s) && c in s.nodes
    ensures FollowsUpstream(s, c)
    ensures c in start.nodes && start.nodes[c].log <= s.nodes[c].log
  {
    InitIsInv(start);
    RunKeepsInv(start, steps, s);
    InvFollowsUpstream(s, c);
  }

  /** `chain` follows upstream pointers from its first node to its last. */
  ghost predicate UpstreamChain(s: State, chain: seq<NodeId>)
  {
    && |chain| >= 1
    && (forall i | 0 <= i < |chain| :: chain[i] in s.nodes)
    && forall i, j | 0 <= i && j == i + 1 && j < |chain| :: s.nodes[chain[i]].upstream == Some(chain[j])
  }

  /** Slaves chained to slaves: along any chain of upstreams, however long, the logs are
      prefixes of one another. */
  lemma {:induction false} ChainPrefixSafety(s: State, chain: seq<NodeId>)
    requires Inv(s) && UpstreamChain(s, chain)
    ensures s.nodes[chain[0]].log <= s.nodes[chain[|chain| - 1]].log
  {
    if |chain| > 1 {
      var front := chain[..|chain| - 1];
      assert UpstreamChain(s, front);
      ChainPrefixSafety(s, front);
      assert s.nodes[front[|front| - 1]].upstream == Some(chain[|chain| - 1]);
    }
  }

  /** Replicas that pull from one master, directly or through others, may be re-pointed to one
      another by their sequence numbers alone. */
  lemma NewUpstreamUnderOneMaster(s: State, n: NodeId, u: NodeId, below: seq<NodeId>, above: seq<NodeId>)
    requires Inv(s) && UpstreamChain(s, below) && UpstreamChain(s, above)
    requires below[0] == n && above[0] == u && below[|below| - 1] == above[|above| - 1]
    ensures Inv(ChangeRole(s, n, Some(u))) <==> SeqNo(s.nodes[n].log) <= SeqNo(s.nodes[u].log)
  {
    ChainPrefixSafety(s, below);
    ChainPrefixSafety(s, above);
    NewUpstreamByNumber(s, n, u, s.nodes[above[|above| - 1]].log);
  }

  lemma SameReply(s: State, q: Request, c: Cursor)
    requires GoodRequest(s, q) && StandsAt(c, s.nodes[q.to].log, q.seqNo + 1)
    ensures var log := s.nodes[q.to].log;
            && Serving.CanRead(log, q.seqNo + 1, Some(c), |log|) && Serving.CanRead(log, q.seqNo + 1, None, |log|)
            && Serving.Serve(log, q.seqNo + 1, Some(c), q.maxUpdates, |log|)
               == Serving.Serve(log, q.seqNo + 1, None, q.maxUpdates, |log|)
  {
    Serving.CachedReplyEqualsFresh(s.nodes[q.to].log, q.have, c, q.maxUpdates, |s.nodes[q.to].log|);
  }

  /** Iterator-cache refinement: in every reachable state every iterator of a cache
      stands at the batch it is filed under, so a reply read through it equals the reply
      of a fresh GetUpdatesSince on the same log. */
  lemma CachesAreInvisible(start: State, steps: seq<Step>, s: State, q: Request, e: CachedIter)
    requires Init(start) && Executes(start, steps, s)
    requires q in s.requests && q.to in s.nodes && e in s.nodes[q.to].cache && e.key == q.seqNo + 1
    ensures var log := s.nodes[q.to].log;
            && StandsAt(e.cursor, log, e.key)
            && Serving.CanRead(log, e.key, Some(e.cursor), |log|) && Serving.CanRead(log, e.key, None, |log|)
            && Serving.Serve(log, e.key, Some(e.cursor), q.maxUpdates, |log|)
               == Serving.Serve(log, e.key, None, q.maxUpdates, |log|)
  {
    InitIsInv(start);
    RunKeepsInv(start, steps, s);
    assert GoodCache(s.nodes[q.to]);
    SameReply(s, q, e.cursor);
  }
}
