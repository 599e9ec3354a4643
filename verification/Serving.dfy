/** What one replicate task reads from the log: the specification of the body that
    handleReplicateRequest hands to the condition variable. */
module Serving {
  import opened Options
  import opened Wal

  /** A reply's updates, the sequence number the next request is expected at, and the
      iterator to put back into the cache. */
  datatype Served = Served(updates: Log, nextSeq: nat, iter: Option<Cursor>)

  /** A fresh GetUpdatesSince; no iterator when the number has not been written yet. */
  function Fresh(log: Log, expected: nat): Option<Cursor>
  {
    if expected <= SeqNo(log) then Some(Cursor(Locate(log, expected), true)) else None
  }

  /** The iterator a task reads with: the cached one if it can be (re)validated,
      otherwise a fresh one. */
  function PickIter(log: Log, expected: nat, cached: Option<Cursor>, visible: nat): Option<Cursor>
  {
    if cached.None? then Fresh(log, expected)
    else if cached.value.valid then cached
    else
      var retried := Advance(cached.value, visible);
      if retried.valid then Some(retried) else Fresh(log, expected)
  }

  /** Where the read loop leaves the iterator. */
  function ReadTo(c: Cursor, maxUpdates: int, visible: nat): (e: Cursor)
    ensures c.pos <= e.pos
    decreases maxUpdates
  {
    if maxUpdates <= 0 || !c.valid then c else ReadTo(Advance(c, visible), maxUpdates - 1, visible)
  }

  lemma {:induction false} ReadToClosed(c: Cursor, maxUpdates: int, visible: nat)
    ensures ReadTo(c, maxUpdates, visible).pos ==
            if maxUpdates <= 0 || !c.valid then c.pos
            else if visible <= c.pos + 1 then c.pos + 1
            else if c.pos + maxUpdates < visible then c.pos + maxUpdates
            else visible
    decreases maxUpdates
  {
    if maxUpdates > 0 && c.valid {
      ReadToClosed(Advance(c, visible), maxUpdates - 1, visible);
    }
  }

  lemma {:induction false} ReadToValid(c: Cursor, maxUpdates: int, visible: nat, bound: nat)
    requires visible <= bound && (c.valid ==> c.pos < bound)
    ensures var e := ReadTo(c, maxUpdates, visible); e.valid ==> e.pos < bound
    decreases maxUpdates
  {
    if maxUpdates > 0 && c.valid {
      ReadToValid(Advance(c, visible), maxUpdates - 1, visible, bound);
    }
  }

  /** The reply to a request for updates from `expected` on. */
  function Serve(log: Log, expected: nat, cached: Option<Cursor>, maxUpdates: int, visible: nat): Served
    requires CanRead(log, expected, cached, visible)
  {
    var iter := PickIter(log, expected, cached, visible);
    if iter.None? then Served([], expected, None)
    else
      var end := ReadTo(iter.value, maxUpdates, visible);
      ReadToClosed(iter.value, maxUpdates, visible);
      var updates := log[iter.value.pos..end.pos];
      Served(updates, expected + SeqNo(updates), Some(end))
  }

  /** The chosen iterator reads inside the log. */
  predicate CanRead(log: Log, expected: nat, cached: Option<Cursor>, visible: nat)
  {
    && visible <= |log|
    && (cached.Some? ==> StandsAt(cached.value, log, expected))
    && var iter := PickIter(log, expected, cached, visible);
       iter.Some? ==> iter.value.pos < |log|
  }

  lemma {:induction false} LocateReads(log: Log, seqNo: nat)
    requires 1 <= seqNo <= SeqNo(log)
    ensures Locate(log, seqNo) < |log|
  {
    var front := log[..|log| - 1];
    if seqNo <= SeqNo(front) {
      LocateReads(front, seqNo);
    }
  }

  /** A task never reads outside the log, whatever number it is asked for. */
  lemma AlwaysReads(log: Log, expected: nat, cached: Option<Cursor>, visible: nat)
    requires visible <= |log| && 1 <= expected
    requires cached.Some? ==> StandsAt(cached.value, log, expected)
    ensures CanRead(log, expected, cached, visible)
  {
    if expected <= SeqNo(log) {
      LocateReads(log, expected);
    }
  }

  /** At a batch boundary every iterator a task may read with stands at that boundary;
      there is none exactly when nothing follows. */
  lemma PickAtBoundary(log: Log, have: nat, cached: Option<Cursor>, visible: nat)
    requires have <= |log| && visible <= |log|
    requires cached.Some? ==> StandsAt(cached.value, log, StartSeq(log, have))
    ensures PickIter(log, StartSeq(log, have), cached, visible) ==
            if have < |log| then Some(Cursor(have, true)) else None
  {
    if cached.Some? {
      BoundaryUnique(log, cached.value.pos, have);
    }
    if have < |log| {
      LocateBoundary(log, have);
    } else {
      assert log[..have] == log;
    }
  }

  lemma ReadKeepsPlace(log: Log, have: nat, maxUpdates: int, visible: nat)
    requires have < |log| && visible <= |log|
    ensures var end := ReadTo(Cursor(have, true), maxUpdates, visible);
            && have <= end.pos <= |log|
            && end.pos - have <= (if maxUpdates < 0 then 0 else maxUpdates)
            && StandsAt(end, log, StartSeq(log, have) + SeqNo(log[have..end.pos]))
  {
    ReadToClosed(Cursor(have, true), maxUpdates, visible);
    ReadToValid(Cursor(have, true), maxUpdates, visible, |log|);
    var end := ReadTo(Cursor(have, true), maxUpdates, visible);
    assert log[..end.pos] == log[..have] + log[have..end.pos];
    SeqNoAppend(log[..have], log[have..end.pos]);
  }

  /** What was read is the run of batches that follows a boundary, and the next request is
      expected at the end of it. */
  ghost predicate FollowsBoundary(log: Log, have: nat, r: Served)
  {
    var end := have + |r.updates|;
    && end <= |log|
    && r.updates == log[have..end]
    && r.nextSeq == StartSeq(log, end)
    && (r.iter.Some? ==> StandsAt(r.iter.value, log, r.nextSeq))
  }

  /** Asked from a batch boundary, the reply is the run of batches that follows it, no
      more than asked for, and the iterator put back stands exactly where the reply
      ends. */
  lemma ServeFollowsBoundary(log: Log, have: nat, cached: Option<Cursor>, maxUpdates: int, visible: nat)
    requires have <= |log| && visible <= |log|
    requires cached.Some? ==> StandsAt(cached.value, log, StartSeq(log, have))
    ensures CanRead(log, StartSeq(log, have), cached, visible)
    ensures var r := Serve(log, StartSeq(log, have), cached, maxUpdates, visible);
            && FollowsBoundary(log, have, r)
            && |r.updates| <= (if maxUpdates < 0 then 0 else maxUpdates)
  {
    PickAtBoundary(log, have, cached, visible);
    if have < |log| {
      ReadKeepsPlace(log, have, maxUpdates, visible);
    }
  }

  /** The cache is invisible: a reply read through a cached iterator equals the reply of
      a fresh GetUpdatesSince on the same log, when both see the whole log. An iterator
      stuck at a log-file boundary only shortens the reply. */
  lemma CachedReplyEqualsFresh(log: Log, have: nat, c: Cursor, maxUpdates: int, visible: nat)
    requires have <= |log| && visible <= |log|
    requires StandsAt(c, log, StartSeq(log, have))
    ensures CanRead(log, StartSeq(log, have), Some(c), visible)
    ensures CanRead(log, StartSeq(log, have), None, |log|)
    ensures var key := StartSeq(log, have);
            Serve(log, key, Some(c), maxUpdates, visible).updates <= Serve(log, key, None, maxUpdates, |log|).updates
    ensures visible == |log| ==>
              var key := StartSeq(log, have);
              Serve(log, key, Some(c), maxUpdates, visible) == Serve(log, key, None, maxUpdates, |log|)
  {
    PickAtBoundary(log, have, Some(c), visible);
    PickAtBoundary(log, have, None, |log|);
    ReadToClosed(Cursor(have, true), maxUpdates, visible);
    ReadToClosed(Cursor(have, true), maxUpdates, |log|);
  }
}
