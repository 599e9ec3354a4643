/** RocksDB's write-ahead log, as the replicator uses it: an append-only sequence of
    write batches, numbered by the operations they hold, read through log iterators. */
module Wal {

  datatype WriteBatch = WriteBatch(count: nat, ops: string)

  // A batch that holds no operation consumes no sequence number, so no sequence
  // number names it; the replicator only ever ships batches with operations.
  type Batch = b: WriteBatch | b.count >= 1 witness WriteBatch(1, "")

  type Log = seq<Batch>

  /** GetLatestSequenceNumber: one sequence number per operation written. */
  function SeqNo(log: Log): nat
  {
    if log == [] then 0 else SeqNo(log[..|log| - 1]) + log[|log| - 1].count
  }

  /** The sequence number of the first operation of the batch at `pos`. */
  function StartSeq(log: Log, pos: nat): nat
    requires pos <= |log|
  {
    SeqNo(log[..pos]) + 1
  }

  lemma {:induction false} SeqNoAppend(a: Log, b: Log)
    ensures SeqNo(a + b) == SeqNo(a) + SeqNo(b)
  {
    if b == [] {
      assert a + b == a;
    } else {
      var last := |b| - 1;
      assert (a + b)[..|a + b| - 1] == a + b[..last];
      SeqNoAppend(a, b[..last]);
    }
  }

  /** A batch boundary is determined by its sequence number: later boundaries are
      strictly larger. */
  lemma {:induction false} SeqNoStrict(log: Log, i: nat, j: nat)
    requires i < j <= |log|
    ensures SeqNo(log[..i]) < SeqNo(log[..j])
  {
    assert log[..j][..j - 1] == log[..j - 1];
    if i < j - 1 {
      SeqNoStrict(log, i, j - 1);
    }
  }

  lemma SeqNoMonotone(log: Log, i: nat, j: nat)
    requires i <= j <= |log|
    ensures SeqNo(log[..i]) <= SeqNo(log[..j])
  {
    if i < j {
      SeqNoStrict(log, i, j);
    }
  }

  lemma BoundaryUnique(log: Log, i: nat, j: nat)
    requires i <= |log| && j <= |log|
    requires SeqNo(log[..i]) == SeqNo(log[..j])
    ensures i == j
  {
    if i < j {
      SeqNoStrict(log, i, j);
    } else if j < i {
      SeqNoStrict(log, j, i);
    }
  }

  /** For two logs of which one extends the other, the longer one is the one with the
      larger sequence number. */
  lemma PrefixBySeqNo(a: Log, b: Log, common: Log)
    requires a <= common && b <= common
    ensures SeqNo(a) <= SeqNo(b) <==> a <= b
    ensures SeqNo(a) == SeqNo(b) <==> a == b
  {
    assert a == common[..|a|] && b == common[..|b|];
    if |a| < |b| {
      SeqNoStrict(common, |a|, |b|);
    } else if |b| < |a| {
      SeqNoStrict(common, |b|, |a|);
    }
  }

  /** GetUpdatesSince(seqNo): the position of the first batch holding an operation
      numbered `seqNo` or later. */
  function Locate(log: Log, seqNo: nat): (pos: nat)
    requires seqNo <= SeqNo(log)
    ensures pos <= |log|
  {
    if log == [] then 0
    else
      var front := log[..|log| - 1];
      if seqNo <= SeqNo(front) then Locate(front, seqNo) else |front|
  }

  /** GetUpdatesSince is exact on batch boundaries: asked for the number at which a
      batch starts, it positions the iterator at that very batch. */
  lemma {:induction false} LocateBoundary(log: Log, pos: nat)
    requires pos < |log|
    ensures StartSeq(log, pos) <= SeqNo(log)
    ensures Locate(log, StartSeq(log, pos)) == pos
  {
    var front := log[..|log| - 1];
    assert log[..|log|] == log;
    SeqNoStrict(log, pos, |log|);
    if pos < |front| {
      assert front[..pos] == log[..pos];
      LocateBoundary(front, pos);
    } else {
      assert front == log[..pos];
    }
  }

  /** A TransactionLogIterator: the batch it stands at and whether it could read it. */
  datatype Cursor = Cursor(pos: nat, valid: bool)

  /** TransactionLogIterator::Next. `visible` bounds what this iterator can read: the
      end of the log, or an earlier log-file boundary it cannot cross. An invalid
      iterator retries the batch it could not read. */
  function Advance(c: Cursor, visible: nat): Cursor
  {
    if c.valid then Cursor(c.pos + 1, c.pos + 1 < visible) else Cursor(c.pos, c.pos < visible)
  }

  /** A cursor whose next batch is the one numbered from `key`. */
  predicate StandsAt(c: Cursor, log: Log, key: nat)
  {
    && c.pos <= |log|
    && (c.valid ==> c.pos < |log|)
    && StartSeq(log, c.pos) == key
  }

  lemma StandsAtGrows(c: Cursor, log: Log, longer: Log, key: nat)
    requires StandsAt(c, log, key) && log <= longer
    ensures StandsAt(c, longer, key)
  {
    assert longer[..c.pos] == log[..c.pos];
  }
}
