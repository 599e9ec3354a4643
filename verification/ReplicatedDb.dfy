/** ReplicatedDB as the code has it: an object whose log, iterator cache and
    acknowledgement number its methods update in place. Each method is proved to do what
    the protocol's steps say. */
module ReplicatedDb {
  import opened Options
  import opened Wal
  import Serving
  import Replication

  datatype Role = Master | Slave

  datatype ReturnCode = Ok | WriteToSlave | WriteError | WaitSlaveTimeout

  /** An entry of cached_iters_ with the time it was put there. */
  datatype Entry = Entry(iter: Replication.CachedIter, putAt: nat)

  /** The iterators of the cache, times forgotten. */
  function Iters(entries: seq<Entry>): multiset<Replication.CachedIter>
  {
    if entries == [] then multiset{} else multiset{entries[0].iter} + Iters(entries[1..])
  }

  lemma {:induction false} ItersAppend(a: seq<Entry>, b: seq<Entry>)
    ensures Iters(a + b) == Iters(a) + Iters(b)
  {
    if a == [] {
      assert a + b == b;
    } else {
      assert (a + b)[1..] == a[1..] + b;
      ItersAppend(a[1..], b);
    }
  }

  lemma ItersMiddle(front: seq<Entry>, e: Entry, back: seq<Entry>)
    ensures Iters(front + [e] + back) == Iters(front + back) + multiset{e.iter}
  {
    ItersAppend(front + [e], back);
    ItersAppend(front, [e]);
    ItersAppend(front, back);
  }

  lemma ItersErase(entries: seq<Entry>, i: nat)
    requires i < |entries|
    ensures entries[i].iter in Iters(entries)
    ensures Iters(entries[..i] + entries[i + 1..]) == Iters(entries) - multiset{entries[i].iter}
  {
    var front, e, back := entries[..i], entries[i], entries[i + 1..];
    SplitAt(entries, i);
    ItersMiddle(front, e, back);
    TakeBack(Iters(entries), Iters(front + back), e.iter);
  }

  lemma SplitAt(entries: seq<Entry>, i: nat)
    requires i < |entries|
    ensures entries == entries[..i] + [entries[i]] + entries[i + 1..]
  {
  }

  lemma TakeBack(all: multiset<Replication.CachedIter>, rest: multiset<Replication.CachedIter>,
                 e: Replication.CachedIter)
    requires all == rest + multiset{e}
    ensures e in all && rest == all - multiset{e}
  {
  }

  lemma {:induction false} ItersHas(entries: seq<Entry>, e: Replication.CachedIter)
    requires e in Iters(entries)
    ensures exists i :: 0 <= i < |entries| && entries[i].iter == e
  {
    if entries[0].iter != e {
      ItersHas(entries[1..], e);
      var i :| 0 <= i < |entries[1..]| && entries[1..][i].iter == e;
      assert entries[i + 1].iter == e;
    }
  }

  /** The entries that have not been idle for longer than the timeout. */
  function NotIdle(entries: seq<Entry>, now: nat, timeoutMs: nat): seq<Entry>
  {
    if entries == [] then []
    else
      var rest := NotIdle(entries[1..], now, timeoutMs);
      if entries[0].putAt + timeoutMs < now then rest else [entries[0]] + rest
  }

  lemma {:induction false} NotIdleShrinks(entries: seq<Entry>, now: nat, timeoutMs: nat)
    ensures Iters(NotIdle(entries, now, timeoutMs)) <= Iters(entries)
  {
    if entries != [] {
      NotIdleShrinks(entries[1..], now, timeoutMs);
      var rest := NotIdle(entries[1..], now, timeoutMs);
      assert ([entries[0]] + rest)[1..] == rest;
    }
  }

  /** An entry stays as often as it was there, unless it was put there too long ago. */
  lemma {:induction false} NotIdleCounts(entries: seq<Entry>, now: nat, timeoutMs: nat, e: Entry)
    ensures multiset(NotIdle(entries, now, timeoutMs))[e] ==
            if e.putAt + timeoutMs < now then 0 else multiset(entries)[e]
  {
    if entries != [] {
      NotIdleCounts(entries[1..], now, timeoutMs, e);
      assert entries == [entries[0]] + entries[1..];
    }
  }

  /** The cache when the cleaner has gone through the first `i` entries. */
  function CleanedFrom(entries: seq<Entry>, i: nat, now: nat, timeoutMs: nat): seq<Entry>
    requires i <= |entries|
  {
    entries[..i] + NotIdle(entries[i..], now, timeoutMs)
  }

  lemma CleanStep(entries: seq<Entry>, i: nat, now: nat, timeoutMs: nat)
    requires i < |entries|
    ensures CleanedFrom(entries, i, now, timeoutMs) ==
            if entries[i].putAt + timeoutMs < now
            then CleanedFrom(entries[..i] + entries[i + 1..], i, now, timeoutMs)
            else CleanedFrom(entries, i + 1, now, timeoutMs)
  {
    var erased := entries[..i] + entries[i + 1..];
    assert erased[..i] == entries[..i] && erased[i..] == entries[i + 1..];
    assert entries[i..][1..] == entries[i + 1..];
  }

  /** The cache entry an optional iterator stands for. */
  function Taken(key: nat, iter: Option<Cursor>): multiset<Replication.CachedIter>
  {
    if iter.Some? then multiset{Replication.CachedIter(key, iter.value)} else multiset{}
  }

  lemma ReadOneMore(log: Log, from: nat, to: nat)
    requires from <= to < |log|
    ensures log[from..to + 1] == log[from..to] + [log[to]]
    ensures SeqNo(log[from..to] + [log[to]]) == SeqNo(log[from..to]) + log[to].count
  {
    SeqNoAppend(log[from..to], [log[to]]);
  }

  /** The read loop of a task: at most `maxUpdates` batches from where the iterator
      stands, as far as it can read. */
  method ReadUpdates(log: Log, expected: nat, first: Cursor, maxUpdates: int, visible: nat)
    returns (updates: Log, nextSeq: nat, end: Cursor)
    requires visible <= |log| && first.pos < |log| && first.valid
    ensures end == Serving.ReadTo(first, maxUpdates, visible)
    ensures end.pos <= |log| && updates == log[first.pos..end.pos]
    ensures nextSeq == expected + SeqNo(updates)
  {
    updates, nextSeq, end := [], expected, first;
    var left := maxUpdates;
    while 0 < left && end.valid
      invariant first.pos <= end.pos <= |log|
      invariant end.valid ==> end.pos < |log|
      invariant updates == log[first.pos..end.pos]
      invariant nextSeq == expected + SeqNo(updates)
      invariant Serving.ReadTo(first, maxUpdates, visible) == Serving.ReadTo(end, left, visible)
      decreases left
    {
      ReadOneMore(log, first.pos, end.pos);
      nextSeq := nextSeq + log[end.pos].count;
      updates := updates + [log[end.pos]];
      left, end := left - 1, Advance(end, visible);
    }
  }

  method ServeFrom(log: Log, expected: nat, ghost cached: Option<Cursor>, iter: Option<Cursor>,
                   maxUpdates: int, visible: nat)
    returns (updates: Log, nextSeq: nat, end: Option<Cursor>)
    requires Serving.CanRead(log, expected, cached, visible)
    requires iter == Serving.PickIter(log, expected, cached, visible) && (iter.Some? ==> iter.value.valid)
    ensures Serving.Serve(log, expected, cached, maxUpdates, visible) == Serving.Served(updates, nextSeq, end)
    ensures expected <= nextSeq
  {
    updates, nextSeq, end := [], expected, None;
    if iter.Some? {
      var stop;
      updates, nextSeq, stop := ReadUpdates(log, expected, iter.value, maxUpdates, visible);
      end := Some(stop);
    }
  }

  // ----- what the protocol's steps do to a replica, in the terms of the object -----

  /** A task first hands its reply over, with the iterator filed under the requested number, if
      it takes one, out of the cache; nothing is posted yet. */
  lemma {:induction false} ReplyHandsOver(s: Replication.State, q: Replication.Request, cached: Option<Cursor>,
                                          visible: nat, served: Serving.Served)
    requires Replication.Enabled(s, Replication.Reply(q, cached, visible))
    requires served == Serving.Serve(s.nodes[q.to].log, q.seqNo + 1, cached, q.maxUpdates, visible)
    ensures Replication.Apply(s, Replication.Reply(q, cached, visible)) == s.(
              nodes := s.nodes[q.to := s.nodes[q.to].(cache := s.nodes[q.to].cache - Taken(q.seqNo + 1, cached))],
              responses := s.responses + {Replication.Response(q, served.updates)},
              jobs := s.jobs + {Replication.Job(q.to, q, served.nextSeq, served.iter)})
  {
    assert cached.None? ==> s.nodes[q.to].cache - Taken(q.seqNo + 1, cached) == s.nodes[q.to].cache;
  }

  /** Then it finishes: in mode 1, and in no other, the last number it handed over is posted, and
      the iterator goes back to the cache under the next number. */
  lemma {:induction false} FinishPosts(s: Replication.State, j: Replication.Job)
    requires Replication.Enabled(s, Replication.Finish(j)) && j.key >= 1
    ensures Replication.Apply(s, Replication.Finish(j)) == s.(
              nodes := s.nodes[j.node := s.nodes[j.node].(
                cache := s.nodes[j.node].cache + Taken(j.key, j.iter),
                acked := if s.mode == 1 && s.nodes[j.node].acked < j.key - 1 then j.key - 1
                         else s.nodes[j.node].acked)],
              jobs := s.jobs - {j})
  {
    assert j.iter.None? ==> s.nodes[j.node].cache + Taken(j.key, j.iter) == s.nodes[j.node].cache;
  }

  /** To its replica the arrival of a request posts the slave's number in modes 1 and 2. */
  lemma ArrivalIsDeliver(s: Replication.State, q: Replication.Request)
    requires Replication.Enabled(s, Replication.Deliver(q))
    ensures var r := s.nodes[q.to];
            Replication.Apply(s, Replication.Deliver(q)) == s.(nodes := s.nodes[q.to :=
              r.(acked := if s.mode in {1, 2} && r.acked < q.seqNo then q.seqNo else r.acked)])
  {
  }

  ghost predicate IsBoundary(log: Log, seqNo: nat)
  {
    exists pos: nat :: pos <= |log| && StartSeq(log, pos) == seqNo
  }

  lemma BoundaryIsLocated(log: Log, seqNo: nat)
    requires 1 <= seqNo <= SeqNo(log)
    ensures IsBoundary(log, seqNo) <==> StartSeq(log, Locate(log, seqNo)) == seqNo
  {
    if IsBoundary(log, seqNo) {
      var pos: nat :| pos <= |log| && StartSeq(log, pos) == seqNo;
      assert log[..|log|] == log;
      LocateBoundary(log, pos);
    }
  }

  /** A fresh iterator, asked for a number that has been written. */
  lemma FreshPutBack(log: Log, expected: nat, maxUpdates: int, visible: nat)
    requires visible <= |log| && 1 <= expected <= SeqNo(log)
    ensures Serving.CanRead(log, expected, None, visible)
    ensures var served := Serving.Serve(log, expected, None, maxUpdates, visible);
            && served.iter.Some?
            && (StandsAt(served.iter.value, log, served.nextSeq)
                <==> StartSeq(log, Locate(log, expected)) == expected)
  {
    Serving.AlwaysReads(log, expected, None, visible);
    var pos := Locate(log, expected);
    Serving.ReadToClosed(Cursor(pos, true), maxUpdates, visible);
    Serving.ReadToValid(Cursor(pos, true), maxUpdates, visible, |log|);
    var end := Serving.ReadTo(Cursor(pos, true), maxUpdates, visible);
    assert log[..end.pos] == log[..pos] + log[pos..end.pos];
    SeqNoAppend(log[..pos], log[pos..end.pos]);
  }

  /** When the cache stays in order: the iterator a task puts back stands at the batch it
      is filed under if and only if the request named a batch boundary of the log. The
      code does not check this of a request; log-prefix safety provides it. */
  lemma PutBackInOrder(log: Log, expected: nat, cached: Option<Cursor>, maxUpdates: int, visible: nat)
    requires visible <= |log| && 1 <= expected && (cached.Some? ==> StandsAt(cached.value, log, expected))
    ensures Serving.CanRead(log, expected, cached, visible)
    ensures var served := Serving.Serve(log, expected, cached, maxUpdates, visible);
            served.iter.Some? ==> (StandsAt(served.iter.value, log, served.nextSeq) <==> IsBoundary(log, expected))
  {
    Serving.AlwaysReads(log, expected, cached, visible);
    if cached.Some? {
      assert StartSeq(log, cached.value.pos) == expected;
      Serving.ServeFollowsBoundary(log, cached.value.pos, cached, maxUpdates, visible);
    } else if expected <= SeqNo(log) {
      FreshPutBack(log, expected, maxUpdates, visible);
      BoundaryIsLocated(log, expected);
    }
  }

  /** What a replicate request is answered with: updates, or one of two exceptions. */
  datatype TaskReply = Response(updates: Log) | SourceNotFound | SourceReadError

  /** The cached iterator is read with, possibly after one more Next. */
  predicate Reusable(cached: Option<Cursor>, visible: nat)
  {
    cached.Some? && (cached.value.valid || Advance(cached.value, visible).valid)
  }

  /** The task of handleReplicateRequest: it holds a weak pointer, so the db may be gone. */
  method RunReplicateTask(db: ReplicatedDb?, mode: nat, seqNo: nat, maxUpdates: int, visible: nat, now: nat,
                          readable: bool) returns (reply: TaskReply, ghost cached: Option<Cursor>)
    requires db != null ==> db.Valid() && visible <= |db.log|
    modifies if db == null then {} else {db}
    ensures reply == SourceNotFound <==> db == null
    ensures db != null && reply.Response? ==>
              && db.log == old(db.log) && Serving.CanRead(db.log, seqNo + 1, cached, visible)
              && reply.updates == Serving.Serve(db.log, seqNo + 1, cached, maxUpdates, visible).updates
    ensures readable && db != null ==> reply.Response?
  {
    if db == null {
      return SourceNotFound, None;
    }
    ghost var served;
    reply, cached, served := db.RunTask(mode, seqNo, maxUpdates, visible, now, readable);
  }

  class ReplicatedDb {
    const role: Role
    var log: Log
    var cachedIters: seq<Entry>
    var maxSeqNoAcked: nat

    constructor (role: Role, log: Log)
      ensures this.role == role && this.log == log && cachedIters == [] && maxSeqNoAcked == 0
      ensures Valid()
    {
      this.role := role;
      this.log := log;
      cachedIters := [];
      maxSeqNoAcked := 0;
    }

    /** Every cached iterator stands at the batch it is filed under. */
    ghost predicate Valid()
      reads this
    {
      forall e | e in Iters(cachedIters) :: StandsAt(e.cursor, log, e.key)
    }

    /** getCachedIter: find an entry filed under the number, and take it out. */
    method GetCachedIter(seqNo: nat) returns (r: Option<Cursor>)
      modifies this`cachedIters
      ensures r.None? ==> cachedIters == old(cachedIters)
                          && forall e | e in Iters(cachedIters) :: e.key != seqNo
      ensures r.Some? ==> var e := Replication.CachedIter(seqNo, r.value);
                          e in old(Iters(cachedIters)) && Iters(cachedIters) == old(Iters(cachedIters)) - multiset{e}
    {
      var i := 0;
      while i < |cachedIters|
        invariant 0 <= i <= |cachedIters| && cachedIters == old(cachedIters)
        invariant forall k | 0 <= k < i :: cachedIters[k].iter.key != seqNo
      {
        if cachedIters[i].iter.key == seqNo {
          r := Some(cachedIters[i].iter.cursor);
          ItersErase(cachedIters, i);
          cachedIters := cachedIters[..i] + cachedIters[i + 1..];
          return;
        }
        i := i + 1;
      }
      r := None;
      forall e | e in Iters(cachedIters) ensures e.key != seqNo {
        ItersHas(cachedIters, e);
      }
    }

    method PutCachedIter(seqNo: nat, cursor: Cursor, now: nat)
      modifies this`cachedIters
      ensures cachedIters == old(cachedIters) + [Entry(Replication.CachedIter(seqNo, cursor), now)]
      ensures Iters(cachedIters) == old(Iters(cachedIters)) + multiset{Replication.CachedIter(seqNo, cursor)}
    {
      ItersAppend(cachedIters, [Entry(Replication.CachedIter(seqNo, cursor), now)]);
      cachedIters := cachedIters + [Entry(Replication.CachedIter(seqNo, cursor), now)];
    }

    /** cleanIdleCachedIters erases exactly the idle entries; to the protocol this is a
        DropIters step. */
    method CleanIdleCachedIters(now: nat, timeoutMs: nat)
      modifies this`cachedIters
      ensures cachedIters == NotIdle(old(cachedIters), now, timeoutMs)
      ensures Iters(cachedIters) <= old(Iters(cachedIters))
      ensures old(Valid()) ==> Valid()
    {
      NotIdleShrinks(cachedIters, now, timeoutMs);
      var i := 0;
      assert cachedIters[..0] == [] && cachedIters[0..] == cachedIters;
      while i < |cachedIters|
        invariant 0 <= i <= |cachedIters|
        invariant CleanedFrom(cachedIters, i, now, timeoutMs) == NotIdle(old(cachedIters), now, timeoutMs)
        decreases |cachedIters| - i
      {
        CleanStep(cachedIters, i, now, timeoutMs);
        if cachedIters[i].putAt + timeoutMs < now {
          cachedIters := cachedIters[..i] + cachedIters[i + 1..];
        } else {
          i := i + 1;
        }
      }
      assert cachedIters[..i] == cachedIters;
    }

    /** handleReplicateRequest before it waits: the number the slave has committed is posted. */
    method PostCommitted(mode: nat, seqNo: nat)
      modifies this`maxSeqNoAcked
      ensures maxSeqNoAcked == if mode in {1, 2} && old(maxSeqNoAcked) < seqNo then seqNo else old(maxSeqNoAcked)
    {
      if mode in {1, 2} {
        maxSeqNoAcked := Replication.Max(maxSeqNoAcked, seqNo);
      }
    }

    /** The iterator a replicate task reads with, taken from the cache or made anew; no
        `iter` at all when GetUpdatesSince fails. */
    method TakeIter(expected: nat, visible: nat, readable: bool)
      returns (iter: Option<Cursor>, failed: bool, ghost cached: Option<Cursor>)
      requires Valid() && visible <= |log| && 1 <= expected
      modifies this`cachedIters
      ensures Serving.CanRead(log, expected, cached, visible)
      ensures failed <==> !readable && !Reusable(cached, visible)
      ensures !failed ==> iter == Serving.PickIter(log, expected, cached, visible) && (iter.Some? ==> iter.value.valid)
      ensures cached.None? ==> forall e | e in old(Iters(cachedIters)) :: e.key != expected
      ensures cached.Some? ==> Replication.CachedIter(expected, cached.value) in old(Iters(cachedIters))
      ensures Iters(cachedIters) == old(Iters(cachedIters)) - Taken(expected, cached)
    {
      iter := GetCachedIter(expected);
      cached := iter;
      failed := false;
      Serving.AlwaysReads(log, expected, cached, visible);
      if iter.Some? && !iter.value.valid {
        iter := Some(Advance(iter.value, visible));
        if !iter.value.valid {
          iter := None;
        }
      }
      if iter.None? {
        if readable {
          iter := Serving.Fresh(log, expected);
        } else {
          failed := true;
        }
      }
    }

    /** The body of handleReplicateRequest's task on a db that is still there, from taking
        the iterator to putting it back: the reply is what the protocol's Reply step serves,
        and cache and acknowledgement number are what its Reply and Finish steps leave. When
        GetUpdatesSince fails the requester gets an exception, nothing is posted, and an
        iterator taken from the cache is gone, as in the protocol's DropIters step. */
    method RunTask(mode: nat, seqNo: nat, maxUpdates: int, visible: nat, now: nat, readable: bool)
      returns (reply: TaskReply, ghost cached: Option<Cursor>, ghost served: Serving.Served)
      requires Valid() && visible <= |log|
      modifies this`cachedIters, this`maxSeqNoAcked
      ensures Serving.CanRead(log, seqNo + 1, cached, visible)
      ensures cached.None? ==> forall e | e in old(Iters(cachedIters)) :: e.key != seqNo + 1
      ensures cached.Some? ==> Replication.CachedIter(seqNo + 1, cached.value) in old(Iters(cachedIters))
      ensures reply != SourceNotFound
      ensures reply == SourceReadError <==> !readable && !Reusable(cached, visible)
      ensures reply == SourceReadError ==>
                && maxSeqNoAcked == old(maxSeqNoAcked)
                && Iters(cachedIters) == old(Iters(cachedIters)) - Taken(seqNo + 1, cached)
      ensures served == Serving.Serve(log, seqNo + 1, cached, maxUpdates, visible)
      ensures reply.Response? ==>
                && reply.updates == served.updates
                && maxSeqNoAcked == (if mode == 1 && old(maxSeqNoAcked) < served.nextSeq - 1 then served.nextSeq - 1
                                     else old(maxSeqNoAcked))
                && Iters(cachedIters) == old(Iters(cachedIters)) - Taken(seqNo + 1, cached)
                                         + Taken(served.nextSeq, served.iter)
    {
      var expected := seqNo + 1;
      var iter, failed;
      iter, failed, cached := TakeIter(expected, visible, readable);
      served := Serving.Serve(log, expected, cached, maxUpdates, visible);
      if failed {
        return SourceReadError, cached, served;
      }
      var updates, nextSeq, end := ServeFrom(log, expected, cached, iter, maxUpdates, visible);
      reply := Response(updates);
      FinishTask(mode, nextSeq, end, now);
    }

    /** After the reply: post what was handed over in mode 1, put the iterator back. */
    method FinishTask(mode: nat, nextSeq: nat, end: Option<Cursor>, now: nat)
      requires nextSeq >= 1
      modifies this`cachedIters, this`maxSeqNoAcked
      ensures maxSeqNoAcked == if mode == 1 && old(maxSeqNoAcked) < nextSeq - 1 then nextSeq - 1 else old(maxSeqNoAcked)
      ensures Iters(cachedIters) == old(Iters(cachedIters)) + Taken(nextSeq, end)
      ensures cachedIters == old(cachedIters) +
                             if end.Some? then [Entry(Replication.CachedIter(nextSeq, end.value), now)] else []
    {
      if mode == 1 {
        maxSeqNoAcked := Replication.Max(maxSeqNoAcked, nextSeq - 1);
      }
      if end.Some? {
        PutCachedIter(nextSeq, end.value, now);
      }
    }

    /** The apply loop of a slave: updates are written in order up to the first write
        that fails (`failAt`), and only that prefix reaches the log. */
    method ApplyUpdates(updates: Log, failAt: nat) returns (delayNextPull: bool)
      requires Valid()
      modifies this`log
      ensures Valid()
      ensures log == old(log) + updates[..if failAt < |updates| then failAt else |updates|]
      ensures delayNextPull <==> failAt < |updates|
    {
      delayNextPull := false;
      var i := 0;
      while i < |updates|
        invariant 0 <= i <= |updates| && i <= failAt
        invariant log == old(log) + updates[..i] && !delayNextPull
      {
        if i == failAt {
          delayNextPull := true;
          break;
        }
        log := log + [updates[i]];
        i := i + 1;
      }
      forall e | e in Iters(cachedIters) ensures StandsAt(e.cursor, log, e.key) {
        StandsAtGrows(e.cursor, old(log), log, e.key);
      }
    }

    /** Write up to its outcome: `committed` is what db_->Write answered, `acked` what the
        wait on the acknowledgement box answered. */
    method Write(mode: nat, batch: Batch, committed: bool, acked: bool) returns (code: ReturnCode, seqNo: nat)
      requires Valid() && mode in {0, 1, 2}
      modifies this`log
      ensures Valid()
      ensures code == WriteToSlave <==> role == Slave
      ensures code == WriteError <==> role == Master && !committed
      ensures code == WaitSlaveTimeout <==> role == Master && committed && mode in {1, 2} && !acked
      ensures code in {WriteToSlave, WriteError} ==> log == old(log)
      ensures code in {Ok, WaitSlaveTimeout} ==> log == old(log) + [batch] && seqNo == SeqNo(log)
    {
      seqNo := 0;
      if role == Slave {
        return WriteToSlave, seqNo;
      }
      if !committed {
        return WriteError, seqNo;
      }
      log := log + [batch];
      forall e | e in Iters(cachedIters) ensures StandsAt(e.cursor, log, e.key) {
        StandsAtGrows(e.cursor, old(log), log, e.key);
      }
      seqNo := SeqNo(log);
      if mode in {1, 2} && !acked {
        return WaitSlaveTimeout, seqNo;
      }
      code := Ok;
    }
  }
}
