/** What a client may conclude from the outcome of Write in replication modes 1 and 2, over
    runs in which replicas also change their roles and upstreams. */
module Durability {
  import opened Options
  import opened Wal
  import opened Replication
  import Serving

  // ----- what an acknowledged write has to show -----

  ghost predicate HeldBy(s: State, w: ClientWrite, c: NodeId)
  {
    c in s.nodes && c != w.master && w.index < |s.nodes[c].log| && s.nodes[c].log[w.index] == w.batch
  }

  /** Another replica's committed log holds the batch, at the place it has in the master's. */
  ghost predicate HeldElsewhere(s: State, w: ClientWrite)
  {
    exists c :: HeldBy(s, w, c)
  }

  /** The response carries the batch, at the place it has in the master's log. */
  predicate Carries(r: Response, w: ClientWrite)
  {
    && r.request.to == w.master
    && r.request.have <= w.index < r.request.have + |r.updates|
    && r.updates[w.index - r.request.have] == w.batch
  }

  ghost predicate CarriedToSlave(s: State, w: ClientWrite)
  {
    exists r :: r in s.responses && Carries(r, w)
  }

  ghost predicate Evidence(s: State, w: ClientWrite)
  {
    HeldElsewhere(s, w) || (s.mode == 1 && CarriedToSlave(s, w))
  }

  // ----- what an acknowledgement number stands for -----

  /** The logs of two replicas agree in their first `k` batches. */
  ghost predicate Share(s: State, c: NodeId, n: NodeId, k: nat)
  {
    && c in s.nodes && n in s.nodes && k <= |s.nodes[c].log| && k <= |s.nodes[n].log|
    && s.nodes[c].log[..k] == s.nodes[n].log[..k]
  }

  /** Another replica has committed all of `n`'s log up to `num`. */
  ghost predicate CommittedBy(s: State, n: NodeId, num: nat, c: NodeId, k: nat)
  {
    c != n && Share(s, c, n, k) && num <= SeqNo(s.nodes[n].log[..k])
  }

  ghost predicate CommittedElsewhere(s: State, n: NodeId, num: nat)
  {
    exists c, k :: CommittedBy(s, n, num, c, k)
  }

  /** A response of `n` that reaches up to `num` or further was handed over to a slave. */
  ghost predicate ReachedBy(s: State, n: NodeId, num: nat, r: Response)
  {
    && r in s.responses && r.request.to == n && GoodResponse(s, r)
    && num <= SeqNo(s.nodes[n].log[..r.request.have + |r.updates|])
  }

  ghost predicate HandedToSlave(s: State, n: NodeId, num: nat)
  {
    exists r :: ReachedBy(s, n, num, r)
  }

  /** What an acknowledgement number stands for, in the mode the system runs in. */
  ghost predicate Earned(s: State, n: NodeId, num: nat)
  {
    num == 0 || CommittedElsewhere(s, n, num) || (s.mode == 1 && HandedToSlave(s, n, num))
  }

  /** The number of the last operation of a write. */
  function EndSeq(s: State, w: ClientWrite): nat
  {
    if w.master in s.nodes && w.index < |s.nodes[w.master].log|
    then SeqNo(s.nodes[w.master].log[..w.index + 1]) else 0
  }

  /** The number acknowledges none of the writes that are still at work on `n`. */
  ghost predicate Harmless(s: State, n: NodeId, num: nat)
  {
    forall w | w in s.writes && w.master == n && Unsettled(w) :: num < EndSeq(s, w)
  }

  /** A request reports a number that its sender has committed. A replica that was told to
      pull from itself reports only what it had before it was made a master again. */
  ghost predicate GoodSender(s: State, q: Request)
  {
    && Share(s, q.from, q.to, q.have) && q.seqNo <= SeqNo(s.nodes[q.to].log[..q.have])
    && (q.from == q.to ==> Harmless(s, q.to, q.seqNo))
  }

  ghost predicate GoodAck(s: State, n: NodeId)
    requires n in s.nodes
  {
    var acked := s.nodes[n].acked;
    acked <= SeqNo(s.nodes[n].log) && (Earned(s, n, acked) || Harmless(s, n, acked))
  }

  ghost predicate GoodWrite(s: State, w: ClientWrite)
  {
    && w.master in s.nodes
    && (Unsettled(w) ==> s.nodes[w.master].upstream.None?)
    && w.index < |s.nodes[w.master].log|
    && s.nodes[w.master].log[w.index] == w.batch
    && (w.stage.Waiting? ==> EndSeq(s, w) <= w.stage.target <= SeqNo(s.nodes[w.master].log))
    && (w.stage.Acknowledged? && s.mode in {1, 2} ==> Evidence(s, w))
  }

  ghost predicate AckInv(s: State)
  {
    && (forall q | q in s.requests :: GoodSender(s, q))
    && (forall n {:trigger GoodAck(s, n)} | n in s.nodes :: GoodAck(s, n))
    && (forall w | w in s.writes :: GoodWrite(s, w))
  }

  // ----- nothing earned is ever lost -----

  ghost predicate Later(s: State, t: State)
  {
    Grown(s, t) && t.mode == s.mode && s.requests <= t.requests && s.responses <= t.responses
  }

  lemma LongerLogMoreSeqNo(a: Log, b: Log)
    requires a <= b
    ensures SeqNo(a) <= SeqNo(b)
  {
    assert b[..|a|] == a && b[..|b|] == b;
    SeqNoMonotone(b, |a|, |b|);
  }

  lemma ShareStays(s: State, t: State, c: NodeId, n: NodeId, k: nat)
    requires Grown(s, t) && Share(s, c, n, k)
    ensures Share(t, c, n, k) && t.nodes[n].log[..k] == s.nodes[n].log[..k]
  {
    assert t.nodes[c].log[..k] == s.nodes[c].log[..k];
    assert t.nodes[n].log[..k] == s.nodes[n].log[..k];
  }

  lemma CommittedStays(s: State, t: State, n: NodeId, num: nat)
    requires Later(s, t) && CommittedElsewhere(s, n, num)
    ensures CommittedElsewhere(t, n, num)
  {
    var c, k :| CommittedBy(s, n, num, c, k);
    ShareStays(s, t, c, n, k);
    assert CommittedBy(t, n, num, c, k);
  }

  lemma ReachedStays(s: State, t: State, n: NodeId, num: nat, r: Response)
    requires Later(s, t) && ReachedBy(s, n, num, r)
    ensures ReachedBy(t, n, num, r)
  {
    GoodResponseGrows(s, t, r);
    var end := r.request.have + |r.updates|;
    assert t.nodes[n].log[..end] == s.nodes[n].log[..end];
  }

  lemma EarnedStays(s: State, t: State, n: NodeId, num: nat)
    requires Later(s, t) && Earned(s, n, num)
    ensures Earned(t, n, num)
  {
    if num != 0 {
      if CommittedElsewhere(s, n, num) {
        CommittedStays(s, t, n, num);
      } else {
        var r :| ReachedBy(s, n, num, r);
        ReachedStays(s, t, n, num, r);
      }
    }
  }

  lemma EvidenceStays(s: State, t: State, w: ClientWrite)
    requires Later(s, t) && Evidence(s, w)
    ensures Evidence(t, w)
  {
    if HeldElsewhere(s, w) {
      var c :| HeldBy(s, w, c);
      assert s.nodes[c].log <= t.nodes[c].log;
      assert HeldBy(t, w, c);
    }
  }

  lemma EndSeqStays(s: State, t: State, w: ClientWrite)
    requires Grown(s, t) && w.master in s.nodes && w.index < |s.nodes[w.master].log|
    ensures EndSeq(t, w) == EndSeq(s, w)
  {
    assert t.nodes[w.master].log[..w.index + 1] == s.nodes[w.master].log[..w.index + 1];
  }

  lemma HarmlessStays(s: State, t: State, n: NodeId, num: nat)
    requires Grown(s, t) && t.writes == s.writes && Harmless(s, n, num)
    requires forall w | w in s.writes :: GoodWrite(s, w)
    ensures Harmless(t, n, num)
  {
    forall w | w in t.writes && w.master == n && Unsettled(w) ensures num < EndSeq(t, w) {
      assert GoodWrite(s, w);
      EndSeqStays(s, t, w);
    }
  }

  lemma GoodWriteStays(s: State, t: State, w: ClientWrite)
    requires Later(s, t) && GoodWrite(s, w) && (Unsettled(w) ==> t.nodes[w.master].upstream.None?)
    ensures GoodWrite(t, w)
  {
    EndSeqStays(s, t, w);
    LongerLogMoreSeqNo(s.nodes[w.master].log, t.nodes[w.master].log);
    if w.stage.Acknowledged? && s.mode in {1, 2} {
      EvidenceStays(s, t, w);
    }
  }

  lemma GoodSenderStays(s: State, t: State, q: Request)
    requires Later(s, t) && t.writes == s.writes && GoodSender(s, q)
    requires forall w | w in s.writes :: GoodWrite(s, w)
    ensures GoodSender(t, q)
  {
    ShareStays(s, t, q.from, q.to, q.have);
    if q.from == q.to {
      HarmlessStays(s, t, q.to, q.seqNo);
    }
  }

  lemma GoodAckStays(s: State, t: State, n: NodeId)
    requires Later(s, t) && t.writes == s.writes && n in s.nodes && GoodAck(s, n)
    requires forall w | w in s.writes :: GoodWrite(s, w)
    requires t.nodes[n].acked == s.nodes[n].acked
    ensures GoodAck(t, n)
  {
    LongerLogMoreSeqNo(s.nodes[n].log, t.nodes[n].log);
    if Earned(s, n, s.nodes[n].acked) {
      EarnedStays(s, t, n, s.nodes[n].acked);
    } else {
      HarmlessStays(s, t, n, s.nodes[n].acked);
    }
  }

  /** The one frame argument of the steps that touch no write: new requests and new
      acknowledgement numbers must be good ones, and no write is at work where a role
      changes. */
  lemma LaterKeeps(s: State, t: State)
    requires AckInv(s) && Later(s, t) && t.writes == s.writes
    requires forall w | w in s.writes && Unsettled(w) :: w.master in t.nodes && t.nodes[w.master].upstream.None?
    requires forall q | q in t.requests && q !in s.requests :: GoodSender(t, q)
    requires forall n {:trigger GoodAck(t, n)} | n in t.nodes && n in s.nodes && t.nodes[n].acked != s.nodes[n].acked ::
               GoodAck(t, n)
    ensures AckInv(t)
  {
    forall q | q in t.requests ensures GoodSender(t, q) {
      if q in s.requests { GoodSenderStays(s, t, q); }
    }
    forall n | n in t.nodes ensures GoodAck(t, n) {
      assert n in s.nodes && GoodAck(s, n);
      if t.nodes[n].acked == s.nodes[n].acked { GoodAckStays(s, t, n); }
    }
    forall w | w in t.writes ensures GoodWrite(t, w) { GoodWriteStays(s, t, w); }
  }

  // ----- the steps that earn, post or use an acknowledgement -----

  /** Posting a number, as MaxNumberBox does: the larger one counts. */
  lemma PostKeeps(s: State, n: NodeId, num: nat)
    requires AckInv(s) && n in s.nodes && num <= SeqNo(s.nodes[n].log)
    requires Earned(s, n, num) || Harmless(s, n, num)
    ensures AckInv(SetNode(s, n, s.nodes[n].(acked := Max(s.nodes[n].acked, num))))
  {
    var t := SetNode(s, n, s.nodes[n].(acked := Max(s.nodes[n].acked, num)));
    assert Later(s, t);
    assert GoodAck(s, n);
    forall w | w in s.writes && Unsettled(w) ensures t.nodes[w.master].upstream.None? {
      assert GoodWrite(s, w);
    }
    if num > s.nodes[n].acked {
      if Earned(s, n, num) {
        EarnedStays(s, t, n, num);
      } else {
        HarmlessStays(s, t, n, num);
      }
      assert GoodAck(t, n);
    }
    LaterKeeps(s, t);
  }

  /** A request reports what its sender has committed. */
  lemma ArriveEarns(s: State, q: Request)
    requires AckInv(s) && q in s.requests && q.to in s.nodes
    ensures AckInv(Arrive(s, q))
  {
    assert GoodSender(s, q);
    var log := s.nodes[q.to].log;
    LongerLogMoreSeqNo(log[..q.have], log);
    if q.from != q.to {
      assert CommittedBy(s, q.to, q.seqNo, q.from, q.have);
    }
    if s.mode in {1, 2} {
      PostKeeps(s, q.to, q.seqNo);
    } else {
      assert Arrive(s, q).nodes == s.nodes;
    }
  }

  lemma TaskPostIsEarned(s: State, j: Job)
    requires GoodJob(s, j) && j.key >= 1
    ensures HandedToSlave(s, j.node, j.key - 1) && j.key - 1 <= SeqNo(s.nodes[j.node].log)
  {
    var r :| HandedFor(s, j, r);
    assert ReachedBy(s, j.node, j.key - 1, r);
    LongerLogMoreSeqNo(s.nodes[j.node].log[..r.request.have + |r.updates|], s.nodes[j.node].log);
  }

  /** In mode 1 a task posts the number of the last operation it handed over. */
  lemma TaskPosts(s: State, j: Job)
    requires AckInv(s) && GoodJob(s, j)
    ensures AckInv(SetNode(s, j.node, s.nodes[j.node].(acked := Complete(s, j).nodes[j.node].acked)))
  {
    if j.key >= 1 {
      TaskPostIsEarned(s, j);
    }
    if s.mode == 1 {
      PostKeeps(s, j.node, if j.key == 0 then 0 else j.key - 1);
    } else {
      assert SetNode(s, j.node, s.nodes[j.node].(acked := Complete(s, j).nodes[j.node].acked)).nodes == s.nodes;
    }
  }

  lemma CompleteEarns(s: State, j: Job)
    requires AckInv(s) && GoodJob(s, j)
    ensures AckInv(Complete(s, j))
  {
    TaskPosts(s, j);
    QuietKeeps(SetNode(s, j.node, s.nodes[j.node].(acked := Complete(s, j).nodes[j.node].acked)), Complete(s, j));
  }

  /** A later state in which nothing was posted, sent or written, and no role changed. */
  lemma QuietKeeps(s: State, t: State)
    requires AckInv(s) && Later(s, t) && t.requests == s.requests && t.writes == s.writes
    requires forall n | n in s.nodes ::
               t.nodes[n].acked == s.nodes[n].acked && t.nodes[n].upstream == s.nodes[n].upstream
    ensures AckInv(t)
  {
    forall w | w in s.writes && Unsettled(w) ensures w.master in t.nodes && t.nodes[w.master].upstream.None? {
      assert GoodWrite(s, w);
    }
    LaterKeeps(s, t);
  }

  lemma HarmlessBelow(s: State, n: NodeId, num: nat, w: ClientWrite)
    requires Harmless(s, n, num) && (w.master == n ==> num < EndSeq(s, w))
    ensures Harmless(s.(writes := s.writes + [w]), n, num)
  {
    var t := s.(writes := s.writes + [w]);
    forall v | v in t.writes && v.master == n && Unsettled(v) ensures num < EndSeq(t, v) {
      assert v in s.writes || v == w;
      assert EndSeq(t, v) == EndSeq(s, v);
    }
  }

  /** Nothing posted or on its way reaches up to a write. */
  ghost predicate AboveAll(s: State, w: ClientWrite)
  {
    && w.master in s.nodes && s.nodes[w.master].acked < EndSeq(s, w)
    && forall q | q in s.requests && q.to == w.master :: q.seqNo < EndSeq(s, w)
  }

  lemma NewWriteKeeps(s: State, w: ClientWrite)
    requires AckInv(s) && GoodWrite(s, w) && AboveAll(s, w)
    ensures AckInv(s.(writes := s.writes + [w]))
  {
    var t := s.(writes := s.writes + [w]);
    assert Later(s, t);
    forall q | q in t.requests ensures GoodSender(t, q) {
      assert GoodSender(s, q);
      if q.from == q.to { HarmlessBelow(s, q.to, q.seqNo, w); }
    }
    forall n | n in t.nodes ensures GoodAck(t, n) {
      assert GoodAck(s, n);
      if Earned(s, n, s.nodes[n].acked) {
        EarnedStays(s, t, n, s.nodes[n].acked);
      } else {
        HarmlessBelow(s, n, s.nodes[n].acked, w);
      }
    }
    forall v | v in t.writes ensures GoodWrite(t, v) {
      assert v in s.writes || v == w;
      GoodWriteStays(s, t, v);
    }
  }

  /** A new write is above all numbers that were posted or sent before it. */
  lemma NewWriteIsAbove(s: State, m: NodeId, batch: Batch)
    requires AckInv(s) && m in s.nodes
    ensures var r := s.nodes[m];
            AboveAll(SetNode(s, m, r.(log := r.log + [batch])), ClientWrite(m, |r.log|, batch, Committed))
  {
    var r := s.nodes[m];
    var log := r.log + [batch];
    assert log[..|r.log| + 1] == log && log[..|r.log|] == r.log;
    assert GoodAck(s, m);
    forall q | q in s.requests && q.to == m ensures q.seqNo < SeqNo(log) {
      assert GoodSender(s, q);
      LongerLogMoreSeqNo(r.log[..q.have], r.log);
    }
  }

  lemma CommitEarns(s: State, m: NodeId, batch: Batch)
    requires AckInv(s) && m in s.nodes && s.nodes[m].upstream.None?
    ensures AckInv(Commit(s, m, batch))
  {
    var r := s.nodes[m];
    var grown := SetNode(s, m, r.(log := r.log + [batch]));
    QuietKeeps(s, grown);
    NewWriteIsAbove(s, m, batch);
    NewWriteKeeps(grown, ClientWrite(m, |r.log|, batch, Committed));
  }

  /** A request is sent by a slave, on which no write is at work. */
  lemma PullEarns(s: State, c: NodeId, maxUpdates: int)
    requires Inv(s) && AckInv(s) && c in s.nodes && s.nodes[c].upstream.Some?
    ensures AckInv(SendPull(s, c, maxUpdates))
  {
    var t := SendPull(s, c, maxUpdates);
    var q := t.nodes[c].phase.request;
    assert Later(s, t);
    assert s.nodes[c].log <= s.nodes[q.to].log;
    assert t.nodes[q.to].log[..q.have] == s.nodes[c].log == s.nodes[c].log[..q.have];
    forall w | w in s.writes && Unsettled(w) ensures w.master != c && t.nodes[w.master].upstream.None? {
      assert GoodWrite(s, w);
    }
    assert GoodSender(t, q);
    LaterKeeps(s, t);
  }

  /** A changed role starts with no acknowledgement, and no write was at work. */
  lemma SwitchEarns(s: State, n: NodeId, upstream: Option<NodeId>)
    requires Inv(s) && AckInv(s) && Enabled(s, SwitchRole(n, upstream))
    ensures AckInv(ChangeRole(s, n, upstream))
  {
    var t := ChangeRole(s, n, upstream);
    ChangeRoleKeeps(s, n, upstream);
    assert Later(s, t);
    forall w | w in s.writes && Unsettled(w) ensures w.master in t.nodes && t.nodes[w.master].upstream.None? {
      assert GoodWrite(s, w);
    }
    assert GoodAck(t, n);
    LaterKeeps(s, t);
  }

  lemma HarmlessLess(s: State, n: NodeId, num: nat, w: nat, stage: Stage)
    requires Harmless(s, n, num) && w < |s.writes|
    requires Unsettled(s.writes[w].(stage := stage)) ==> Unsettled(s.writes[w])
    ensures Harmless(SetStage(s, w, stage), n, num)
  {
    var t := SetStage(s, w, stage);
    forall v | v in t.writes && v.master == n && Unsettled(v) ensures num < EndSeq(t, v) {
      var before := if v in s.writes then v else s.writes[w];
      assert v in s.writes || v == s.writes[w].(stage := stage);
      assert EndSeq(t, v) == EndSeq(s, before);
      assert before in s.writes && before.master == n && Unsettled(before);
    }
  }

  lemma StageKeeps(s: State, w: nat, stage: Stage)
    requires AckInv(s) && w < |s.writes| && GoodWrite(s, s.writes[w].(stage := stage))
    requires Unsettled(s.writes[w].(stage := stage)) ==> Unsettled(s.writes[w])
    ensures AckInv(SetStage(s, w, stage))
  {
    var t := SetStage(s, w, stage);
    assert Later(s, t);
    forall q | q in t.requests ensures GoodSender(t, q) {
      assert GoodSender(s, q);
      if q.from == q.to { HarmlessLess(s, q.to, q.seqNo, w, stage); }
    }
    forall n | n in t.nodes ensures GoodAck(t, n) {
      assert GoodAck(s, n);
      if Earned(s, n, s.nodes[n].acked) {
        EarnedStays(s, t, n, s.nodes[n].acked);
      } else {
        HarmlessLess(s, n, s.nodes[n].acked, w, stage);
      }
    }
    forall v | v in t.writes ensures GoodWrite(t, v) {
      assert v in s.writes || v == s.writes[w].(stage := stage);
      GoodWriteStays(s, t, v);
    }
  }

  /** The number Write waits for is at least that of its own batch. */
  lemma ReadSeqNoEarns(s: State, w: nat)
    requires AckInv(s) && Enabled(s, ReadSeqNo(w))
    ensures AckInv(Apply(s, ReadSeqNo(w)))
  {
    var write := s.writes[w];
    assert GoodWrite(s, write);
    var log := s.nodes[write.master].log;
    LongerLogMoreSeqNo(log[..write.index + 1], log);
    StageKeeps(s, w, Waiting(SeqNo(log)));
  }

  /** A shared prefix that reaches the write's number has the write. */
  lemma SharedHolds(s: State, w: ClientWrite, c: NodeId, k: nat)
    requires GoodWrite(s, w) && c != w.master && Share(s, c, w.master, k)
    requires EndSeq(s, w) <= SeqNo(s.nodes[w.master].log[..k])
    ensures HeldBy(s, w, c)
  {
    var log := s.nodes[w.master].log;
    PrefixBySeqNo(log[..w.index + 1], log[..k], log);
    assert s.nodes[c].log[..k][w.index] == log[..k][w.index];
  }

  lemma RunCarries(s: State, r: Response, w: ClientWrite)
    requires GoodWrite(s, w) && r.request.have <= w.index && ReachedBy(s, w.master, EndSeq(s, w), r)
    ensures Carries(r, w)
  {
    var log := s.nodes[w.master].log;
    PrefixBySeqNo(log[..w.index + 1], log[..r.request.have + |r.updates|], log);
  }

  /** A response that reaches past a write at work either carries it or was asked for by
      another replica that had it already. */
  lemma ResponseShows(s: State, r: Response, w: ClientWrite)
    requires GoodWrite(s, w) && w in s.writes && Unsettled(w) && GoodSender(s, r.request)
    requires ReachedBy(s, w.master, EndSeq(s, w), r)
    ensures Carries(r, w) || HeldElsewhere(s, w)
  {
    var q, log := r.request, s.nodes[w.master].log;
    if q.have <= w.index {
      RunCarries(s, r, w);
    } else {
      SeqNoMonotone(log, w.index + 1, q.have);
      assert q.from != q.to;
      SharedHolds(s, w, q.from, q.have);
    }
  }

  lemma EndSeqPositive(s: State, w: ClientWrite)
    requires GoodWrite(s, w)
    ensures EndSeq(s, w) > 0
  {
    SeqNoStrict(s.nodes[w.master].log, 0, w.index + 1);
  }

  /** An earned number that reaches a write at work shows what the write may claim. */
  lemma EarnedShows(s: State, num: nat, w: ClientWrite)
    requires AckInv(s) && w in s.writes && Unsettled(w) && Earned(s, w.master, num) && EndSeq(s, w) <= num
    ensures Evidence(s, w)
  {
    assert GoodWrite(s, w);
    EndSeqPositive(s, w);
    if CommittedElsewhere(s, w.master, num) {
      var c, k :| CommittedBy(s, w.master, num, c, k);
      SharedHolds(s, w, c, k);
    } else {
      var r :| ReachedBy(s, w.master, num, r);
      assert GoodSender(s, r.request);
      ResponseShows(s, r, w);
    }
  }

  lemma AcknowledgeEarns(s: State, w: nat)
    requires AckInv(s) && Enabled(s, Acknowledge(w))
    ensures AckInv(Apply(s, Acknowledge(w)))
  {
    var write := s.writes[w];
    assert write in s.writes && Unsettled(write) && GoodWrite(s, write) && GoodAck(s, write.master);
    if s.mode in {1, 2} {
      EarnedShows(s, s.nodes[write.master].acked, write);
      assert Evidence(s, write.(stage := Acknowledged)) by {
        EvidenceOfStage(s, write, Acknowledged);
      }
    }
    StageKeeps(s, w, Acknowledged);
  }

  lemma EvidenceOfStage(s: State, w: ClientWrite, stage: Stage)
    requires Evidence(s, w)
    ensures Evidence(s, w.(stage := stage))
  {
    if HeldElsewhere(s, w) {
      var c :| HeldBy(s, w, c);
      assert HeldBy(s, w.(stage := stage), c);
    } else {
      var r :| r in s.responses && Carries(r, w);
      assert Carries(r, w.(stage := stage));
    }
  }

  lemma GiveUpEarns(s: State, w: nat)
    requires AckInv(s) && Enabled(s, GiveUp(w))
    ensures AckInv(Apply(s, GiveUp(w)))
  {
    assert GoodWrite(s, s.writes[w]);
    StageKeeps(s, w, TimedOut);
  }

  /** The steps that neither post, nor send, nor touch a write, nor change a role. */
  lemma QuietStepEarns(s: State, step: Step)
    requires AckInv(s) && Enabled(s, step) && Grown(s, Apply(s, step))
    requires step.Receive? || step.ApplyOne? || step.ApplyEnd? || step.PullError? || step.DropIters?
    ensures AckInv(Apply(s, step))
  {
    QuietKeeps(s, Apply(s, step));
  }

  lemma RepliedEarns(s: State, q: Request, served: Serving.Served, cache: multiset<CachedIter>)
    requires AckInv(s) && q.to in s.nodes
    ensures AckInv(Replied(s, q, served, cache))
  {
    QuietKeeps(s, Replied(s, q, served, cache));
  }

  lemma AnswerHandsOver(s: State, q: Request, cached: Option<Cursor>, visible: nat)
    returns (served: Serving.Served, cache: multiset<CachedIter>)
    requires Enabled(s, Reply(q, cached, visible))
    ensures Apply(s, Reply(q, cached, visible)) == Replied(s, q, served, cache)
  {
    served := Serving.Serve(s.nodes[q.to].log, q.seqNo + 1, cached, q.maxUpdates, visible);
    cache := Answer(s, q, cached, visible).nodes[q.to].cache;
  }

  lemma AnswerEarns(s: State, q: Request, cached: Option<Cursor>, visible: nat)
    requires AckInv(s) && Enabled(s, Reply(q, cached, visible))
    ensures AckInv(Apply(s, Reply(q, cached, visible)))
  {
    var served, cache := AnswerHandsOver(s, q, cached, visible);
    RepliedEarns(s, q, served, cache);
  }

  lemma StepKeepsAckInv(s: State, step: Step)
    requires Inv(s) && AckInv(s) && Enabled(s, step)
    ensures AckInv(Apply(s, step))
  {
    StepKeepsInv(s, step);
    match step
    case Write(m, batch) => CommitEarns(s, m, batch);
    case ReadSeqNo(w) => ReadSeqNoEarns(s, w);
    case Acknowledge(w) => AcknowledgeEarns(s, w);
    case GiveUp(w) => GiveUpEarns(s, w);
    case Pull(c, maxUpdates) => PullEarns(s, c, maxUpdates);
    case Deliver(q) => ArriveEarns(s, q);
    case Finish(j) => assert GoodJob(s, j); CompleteEarns(s, j);
    case SwitchRole(n, upstream) => SwitchEarns(s, n, upstream);
    case Reply(q, cached, visible) => AnswerEarns(s, q, cached, visible);
    case _ => QuietStepEarns(s, step);
  }

  lemma {:induction false} RunKeepsAckInv(s: State, steps: seq<Step>, t: State)
    requires Inv(s) && AckInv(s) && Executes(s, steps, t)
    ensures Inv(t) && AckInv(t)
    decreases |steps|
  {
    if steps != [] {
      StepKeepsInv(s, steps[0]);
      StepKeepsAckInv(s, steps[0]);
      RunKeepsAckInv(Apply(s, steps[0]), steps[1..], t);
    }
  }

  lemma InitIsAckInv(s: State)
    requires Init(s)
    ensures Inv(s) && AckInv(s)
  {
    InitIsInv(s);
  }

  // ----- what the client learns -----

  lemma {:induction false} ModeStays(s: State, steps: seq<Step>, t: State)
    requires Executes(s, steps, t)
    ensures t.mode == s.mode
    decreases |steps|
  {
    if steps != [] {
      ModeStays(Apply(s, steps[0]), steps[1..], t);
    }
  }

  /** Mode 2: when Write has returned OK, another replica has committed the batch. This goes
      for every master there ever was, the promoted ones too. */
  lemma AcknowledgedMeansReplicated(start: State, steps: seq<Step>, s: State, w: ClientWrite)
    requires Init(start) && start.mode == 2 && Executes(start, steps, s)
    requires w in s.writes && w.stage.Acknowledged?
    ensures HeldElsewhere(s, w)
  {
    InitIsAckInv(start);
    RunKeepsAckInv(start, steps, s);
    ModeStays(start, steps, s);
    assert GoodWrite(s, w);
  }

  /** Mode 1: when Write has returned OK, another replica has committed the batch, or a
      response that carries it was handed over. */
  lemma AcknowledgedMeansHandedOver(start: State, steps: seq<Step>, s: State, w: ClientWrite)
    requires Init(start) && start.mode == 1 && Executes(start, steps, s)
    requires w in s.writes && w.stage.Acknowledged?
    ensures HeldElsewhere(s, w) || CarriedToSlave(s, w)
  {
    InitIsAckInv(start);
    RunKeepsAckInv(start, steps, s);
    ModeStays(start, steps, s);
    assert GoodWrite(s, w);
  }

  /** Any mode: whatever the outcome, WAIT_SLAVE_TIMEOUT included, the batch is and stays
      in the log of the master that wrote it. */
  lemma CommittedWhateverTheOutcome(start: State, steps: seq<Step>, s: State, w: ClientWrite)
    requires Init(start) && Executes(start, steps, s) && w in s.writes
    ensures w.master in s.nodes && w.index < |s.nodes[w.master].log| && s.nodes[w.master].log[w.index] == w.batch
  {
    InitIsAckInv(start);
    RunKeepsAckInv(start, steps, s);
    assert GoodWrite(s, w);
  }
}
