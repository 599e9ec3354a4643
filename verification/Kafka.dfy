/** The Kafka consumer: seeks, deliveries and resets of the underlying client. */
module Kafka {
  import opened Options

  /** A topic and a partition. */
  datatype Partition = Partition(topic: string, id: int)

  /** The last known consumed offset and timestamp; -1 means unknown. */
  datatype ConsumedOffset = ConsumedOffset(offset: int, timestamp: int)

  /** What the consumer knows of a partition and where its client stands. */
  datatype Slot = Slot(known: ConsumedOffset, position: int)

  const UNKNOWN: int := -1

  const FRESH: Slot := Slot(ConsumedOffset(-1, -1), -1)

  /** What happened to the consumer, in order. */
  datatype Event =
    | SoughtOffset(at: Partition, offset: int)
    | SoughtTime(at: Partition, timestamp: int, offset: int)
    | Delivered(at: Partition, timestamp: int, offset: int)
    | Reset(found: map<Partition, int>)

  // ----- one event -----

  /** Seek behind a consumed offset, and remember it when it is one. */
  function SeekSlot(s: Slot, offset: int): Slot
  {
    Slot(if offset != UNKNOWN then ConsumedOffset(offset, UNKNOWN) else s.known, offset + 1)
  }

  /** Where a new client is put: at the last known offset, or where the timestamp is found. */
  function ResetPosition(s: Slot, found: map<Partition, int>, at: Partition): int
  {
    if s.known.offset != UNKNOWN then s.known.offset else if at in found then found[at] else UNKNOWN
  }

  function Next(s: Slot, e: Event, at: Partition): Slot
  {
    match e
    case SoughtOffset(p, offset) => if p == at then SeekSlot(s, offset) else s
    case SoughtTime(p, timestamp, offset) => if p == at then Slot(ConsumedOffset(offset, timestamp), offset) else s
    case Delivered(p, timestamp, offset) => if p == at then Slot(ConsumedOffset(offset, timestamp), offset + 1) else s
    case Reset(found) => s.(position := ResetPosition(s, found, at))
  }

  function SlotAfter(start: Slot, events: seq<Event>, at: Partition): Slot
  {
    if events == [] then start
    else Next(SlotAfter(start, events[..|events| - 1], at), events[|events| - 1], at)
  }

  /** Messages come from where the client stands. */
  ghost predicate InSequence(start: Slot, events: seq<Event>, at: Partition)
  {
    events != [] ==>
      var init, last := events[..|events| - 1], events[|events| - 1];
      && InSequence(start, init, at)
      && (last.Delivered? && last.at == at ==>
            var position := SlotAfter(start, init, at).position; position >= 0 ==> last.offset == position)
  }

  ghost predicate NoSeek(events: seq<Event>, at: Partition)
  {
    forall i | 0 <= i < |events| && (events[i].SoughtOffset? || events[i].SoughtTime?) :: events[i].at != at
  }

  // ----- what is delivered -----

  /** A delivered offset, and whether a reset happened since the delivery before it. */
  datatype Delivery = Delivery(offset: int, afterReset: bool)

  /** A reset happened since the last delivery. */
  function ResetSince(events: seq<Event>, at: Partition): bool
  {
    events != [] &&
    var init, last := events[..|events| - 1], events[|events| - 1];
    match last
    case Reset(_) => true
    case Delivered(p, _, _) => p != at && ResetSince(init, at)
    case _ => ResetSince(init, at)
  }

  function Deliveries(events: seq<Event>, at: Partition): seq<Delivery>
  {
    if events == [] then []
    else
      var init, last := events[..|events| - 1], events[|events| - 1];
      Deliveries(init, at) +
      (if last.Delivered? && last.at == at then [Delivery(last.offset, ResetSince(init, at))] else [])
  }

  function Resets(events: seq<Event>): nat
  {
    if events == [] then 0
    else Resets(events[..|events| - 1]) + (if events[|events| - 1].Reset? then 1 else 0)
  }

  lemma ResetsAppend(events: seq<Event>, e: Event)
    ensures Resets(events + [e]) == Resets(events) + if e.Reset? then 1 else 0
  {
    assert (events + [e])[..|events|] == events;
  }

  function Offsets(ds: seq<Delivery>): (r: seq<int>)
    ensures |r| == |ds| && forall i | 0 <= i < |r| :: r[i] == ds[i].offset
  {
    seq(|ds|, i requires 0 <= i < |ds| => ds[i].offset)
  }

  /** The consumer has a known offset and its client stands at it or behind it. */
  predicate Anchored(s: Slot)
  {
    s.known.offset >= 0 && (s.position == s.known.offset || s.position == s.known.offset + 1)
  }

  /** The offset before a delivery: the delivery before it, or the start. */
  function Last(start: Slot, ds: seq<Delivery>): int
  {
    if ds == [] then start.known.offset else ds[|ds| - 1].offset
  }

  /** Every delivery repeats the one before it, when the client was reset, or follows it. */
  ghost predicate Steady(start: Slot, ds: seq<Delivery>)
  {
    && (ds != [] ==> ds[0].offset == if ds[0].afterReset then start.known.offset else start.position)
    && (forall i, j | 0 <= i && j == i + 1 && j < |ds| ::
          ds[j].offset == ds[i].offset + (if ds[j].afterReset then 0 else 1))
  }

  /** Where the consumer stands after a run without seeks. */
  lemma {:induction false} Stands(start: Slot, events: seq<Event>, at: Partition)
    requires Anchored(start) && NoSeek(events, at) && InSequence(start, events, at)
    ensures var s, ds := SlotAfter(start, events, at), Deliveries(events, at);
            && Anchored(s) && s.known.offset == Last(start, ds)
            && s.position == (if ResetSince(events, at) then s.known.offset
                              else if ds == [] then start.position else s.known.offset + 1)
  {
    if events != [] {
      Stands(start, events[..|events| - 1], at);
    }
  }

  /** Successive deliveries repeat only across a reset, and grow by one otherwise. */
  lemma {:induction false} DeliveriesAreSteady(start: Slot, events: seq<Event>, at: Partition)
    requires Anchored(start) && NoSeek(events, at) && InSequence(start, events, at)
    ensures Steady(start, Deliveries(events, at))
  {
    if events != [] {
      var init, last := events[..|events| - 1], events[|events| - 1];
      DeliveriesAreSteady(start, init, at);
      Stands(start, init, at);
      if last.Delivered? && last.at == at {
        SteadyAppend(start, Deliveries(init, at), Delivery(last.offset, ResetSince(init, at)));
      } else {
        assert Deliveries(events, at) == Deliveries(init, at);
      }
    }
  }

  lemma SteadyAppend(start: Slot, ds: seq<Delivery>, d: Delivery)
    requires Steady(start, ds)
    requires d.offset == if d.afterReset then Last(start, ds)
                         else if ds == [] then start.position
                         else Last(start, ds) + 1
    ensures Steady(start, ds + [d])
  {
  }

  lemma {:induction false} SteadyCovers(start: Slot, ds: seq<Delivery>, x: int)
    requires Anchored(start) && Steady(start, ds) && start.position <= x <= Last(start, ds) && ds != []
    ensures x in Offsets(ds)
  {
    var init, last := ds[..|ds| - 1], ds[|ds| - 1];
    if x == last.offset {
      assert Offsets(ds)[|ds| - 1] == x;
    } else {
      assert init != [] ==> Last(start, init) == ds[|ds| - 2].offset;
      SteadyCovers(start, init, x);
      var i :| 0 <= i < |init| && Offsets(init)[i] == x;
      assert Offsets(ds)[i] == x;
    }
  }

  /** Nothing is skipped: every offset from the seek point to the latest delivered one has been
      delivered. */
  lemma AtLeastOnce(start: Slot, events: seq<Event>, at: Partition, x: int)
    requires Anchored(start) && NoSeek(events, at) && InSequence(start, events, at)
    requires Deliveries(events, at) != [] && start.position <= x <= Last(start, Deliveries(events, at))
    ensures x in Offsets(Deliveries(events, at))
  {
    DeliveriesAreSteady(start, events, at);
    SteadyCovers(start, Deliveries(events, at), x);
  }

  function Repeats(ds: seq<Delivery>): nat
  {
    if ds == [] then 0 else Repeats(ds[..|ds| - 1]) + (if ds[|ds| - 1].afterReset then 1 else 0)
  }

  lemma RepeatsAppend(ds: seq<Delivery>, d: Delivery)
    ensures Repeats(ds + [d]) == Repeats(ds) + (if d.afterReset then 1 else 0)
  {
    assert (ds + [d])[..|ds|] == ds;
  }

  lemma {:induction false} RepeatsNeedResets(events: seq<Event>, at: Partition)
    ensures Repeats(Deliveries(events, at)) + (if ResetSince(events, at) then 1 else 0) <= Resets(events)
  {
    if events != [] {
      var init, last := events[..|events| - 1], events[|events| - 1];
      RepeatsNeedResets(init, at);
      if last.Delivered? && last.at == at {
        RepeatsAppend(Deliveries(init, at), Delivery(last.offset, ResetSince(init, at)));
      } else {
        assert Deliveries(events, at) == Deliveries(init, at);
      }
    }
  }

  lemma {:induction false} SteadyCount(start: Slot, ds: seq<Delivery>)
    requires Anchored(start) && Steady(start, ds) && ds != []
    ensures |ds| <= Last(start, ds) + 1 - start.position + Repeats(ds)
  {
    var init := ds[..|ds| - 1];
    if init != [] {
      assert Last(start, init) == ds[|ds| - 2].offset;
      SteadyCount(start, init);
    }
  }

  /** Each reset redelivers one message at most per partition. */
  lemma OneRepeatPerReset(start: Slot, events: seq<Event>, at: Partition)
    requires Anchored(start) && NoSeek(events, at) && InSequence(start, events, at)
    ensures var ds := Deliveries(events, at);
            ds != [] ==> |ds| <= Last(start, ds) + 1 - start.position + Resets(events)
  {
    DeliveriesAreSteady(start, events, at);
    RepeatsNeedResets(events, at);
    if Deliveries(events, at) != [] {
      SteadyCount(start, Deliveries(events, at));
    }
  }

  /** A run can be cut anywhere. */
  lemma {:induction false} CutRun(start: Slot, a: seq<Event>, b: seq<Event>, at: Partition)
    ensures SlotAfter(start, a + b, at) == SlotAfter(SlotAfter(start, a, at), b, at)
    ensures InSequence(start, a + b, at) ==> InSequence(SlotAfter(start, a, at), b, at)
  {
    if b == [] {
      assert a + b == a;
    } else {
      CutRun(start, a, b[..|b| - 1], at);
      assert (a + b)[..|a + b| - 1] == a + b[..|b| - 1];
    }
  }

  /** The guarantee for a consumer: after a seek that stored a known offset, and until the next
      seek of the partition, deliveries are steady, skip nothing, and repeat one message at most
      per reset. */
  lemma AfterSeek(events: seq<Event>, i: nat, at: Partition)
    requires InSequence(FRESH, events, at) && i < |events| && NoSeek(events[i + 1..], at)
    requires (events[i].SoughtOffset? || events[i].SoughtTime?) && events[i].at == at && events[i].offset >= 0
    ensures var start, later := SlotAfter(FRESH, events[..i + 1], at), events[i + 1..];
            var ds := Deliveries(later, at);
            && start.position == (if events[i].SoughtOffset? then events[i].offset + 1 else events[i].offset)
            && Steady(start, ds)
            && (ds != [] ==> forall x | start.position <= x <= Last(start, ds) :: x in Offsets(ds))
            && (ds != [] ==> |ds| <= Last(start, ds) + 1 - start.position + Resets(later))
  {
    var before, later := events[..i + 1], events[i + 1..];
    assert events == before + later;
    CutRun(FRESH, before, later, at);
    var start := SlotAfter(FRESH, before, at);
    assert before[..i] == events[..i];
    DeliveriesAreSteady(start, later, at);
    OneRepeatPerReset(start, later, at);
    var ds := Deliveries(later, at);
    forall x | start.position <= x <= Last(start, ds) && ds != [] ensures x in Offsets(ds) {
      AtLeastOnce(start, later, at, x);
    }
  }

  // ----- the consumer object -----

  /** What a poll of the client gives: nothing, an error, the end of a partition or a timeout,
      or a message of a partition. The offset is that of the first message after a seek to the
      end. */
  datatype Poll = Nothing | Failure | EndOrTimeout | Message(at: Partition, timestamp: int, offset: int)

  datatype Outcome = NoMessage | Error | Ended | Got(at: Partition, offset: int) | Unfinished

  /** One attempt to reset: whether the assignment works, which seeks work, and the offsets that
      the timestamps are found at. */
  datatype Attempt = Attempt(assigns: bool, seeks: Partition -> bool, lookup: Partition -> Option<int>)

  /** What the world does between two steps of the consumer. */
  datatype Tick = Tick(raised: bool, poll: Poll, attempt: nat -> Attempt)

  /** What a poll means when no reset was asked for before it. */
  ghost predicate FirstPoll(tick: Tick, out: Outcome)
  {
    match tick.poll
    case Nothing => out == NoMessage && !tick.raised
    case Failure => out == Error && !tick.raised
    case EndOrTimeout => out == Ended
    case Message(p, _, _) => out.Got? && out.at == p
  }

  /** A poll without a message while a reset is asked for is repeated. */
  ghost predicate PollAgain(tick: Tick)
  {
    tick.raised && (tick.poll.Nothing? || tick.poll.Failure?)
  }

  class KafkaConsumer {
    const partitions: seq<Partition>
    var lastKnown: map<Partition, ConsumedOffset>
    var position: map<Partition, int>
    var shouldReset: bool
    ghost var events: seq<Event>

    /** The fields hold what the events lead to, and messages came in sequence. */
    ghost predicate Valid()
      reads this`lastKnown, this`position, this`events
    {
      && (forall p :: p in lastKnown <==> p in partitions)
      && (forall p :: p in position <==> p in partitions)
      && (forall p {:trigger Tracks(p)} | p in partitions :: Tracks(p))
    }

    ghost predicate Tracks(p: Partition)
      reads this`lastKnown, this`position, this`events
      requires p in lastKnown && p in position
    {
      Slot(lastKnown[p], position[p]) == SlotAfter(FRESH, events, p) && InSequence(FRESH, events, p)
    }

    constructor (ps: seq<Partition>)
      ensures Valid() && partitions == ps && events == [] && !shouldReset
    {
      partitions, shouldReset, events := ps, false, [];
      lastKnown := map p | p in ps :: ConsumedOffset(-1, -1);
      position := map p | p in ps :: -1;
    }

    /** Note an event that is not a reset; the fields of one partition change. */
    ghost method Note(e: Event)
      requires !e.Reset? && e.at in partitions
      requires forall p :: p in lastKnown <==> p in partitions
      requires forall p :: p in position <==> p in partitions
      requires forall p | p in partitions ::
                 Slot(lastKnown[p], position[p]) == Next(SlotAfter(FRESH, events, p), e, p)
      requires forall p | p in partitions :: InSequence(FRESH, events + [e], p)
      modifies this`events
      ensures Valid() && events == old(events) + [e]
    {
      assert (events + [e])[..|events|] == events;
      events := events + [e];
      forall p | p in partitions ensures Tracks(p) {
      }
    }

    /** Seek behind the given offsets, one partition after the other; the first seek that fails
        ends it. */
    method SeekToOffsets(offsets: seq<(Partition, int)>, seeks: nat -> bool) returns (ok: bool, ghost n: nat)
      requires Valid()
      modifies this`lastKnown, this`position, this`events
      ensures Valid()
      ensures n <= |offsets| && events == old(events) + OffsetEvents(offsets[..n]) && (ok <==> n == |offsets|)
      ensures ok <==> forall i | 0 <= i < |offsets| :: offsets[i].0 in partitions && seeks(i)
    {
      for i := 0 to |offsets|
        invariant Valid() && events == old(events) + OffsetEvents(offsets[..i])
        invariant forall k | 0 <= k < i :: offsets[k].0 in partitions && seeks(k)
      {
        var (p, offset) := offsets[i];
        if p !in partitions || !seeks(i) {
          return false, i;
        }
        SeekOne(p, offset);
        OffsetEventsStep(offsets, i);
      }
      return true, |offsets|;
    }

    method SeekOne(p: Partition, offset: int)
      requires Valid() && p in partitions
      modifies this`lastKnown, this`position, this`events
      ensures Valid() && events == old(events) + [SoughtOffset(p, offset)]
      ensures position == old(position)[p := offset + 1]
      ensures lastKnown ==
              if offset != -1 then old(lastKnown)[p := ConsumedOffset(offset, -1)] else old(lastKnown)
    {
      forall q | q in partitions
        ensures Slot(lastKnown[q], position[q]) == SlotAfter(FRESH, events, q) && InSequence(FRESH, events, q)
      {
        assert Tracks(q);
      }
      position := position[p := offset + 1];
      if offset != UNKNOWN {
        lastKnown := lastKnown[p := ConsumedOffset(offset, UNKNOWN)];
      }
      assert (events + [SoughtOffset(p, offset)])[..|events|] == events;
      Note(SoughtOffset(p, offset));
    }

    /** Seek the partitions to the offsets found for the timestamp and store them as known. */
    method SeekToTime(ps: seq<Partition>, timestamp: int, lookup: Partition -> Option<int>, seeks: nat -> bool)
        returns (ok: bool, ghost n: nat)
      requires Valid() && forall p | p in ps :: p in partitions
      modifies this`lastKnown, this`position, this`events
      ensures Valid()
      ensures n <= |ps| && events == old(events) + TimeEvents(ps[..n], timestamp, lookup)
      ensures ok ==> n == |ps|
      ensures ok <==> (forall i | 0 <= i < |ps| :: lookup(ps[i]).Some? && seeks(i))
      ensures ok ==> forall p | p in ps :: StandsWhereFound(p, timestamp, lookup)
    {
      var all := AllFound(ps, lookup);
      if !all {
        assert TimeEvents(ps[..0], timestamp, lookup) == [];
        return false, 0;
      }
      ok, n := SeekAllToTime(ps, timestamp, lookup, seeks);
    }

    /** Seek one topic; a topic that the consumer does not have is refused. */
    method SeekTopicToTime(topic: string, timestamp: int, lookup: Partition -> Option<int>, seeks: nat -> bool)
        returns (ok: bool, ghost n: nat)
      requires Valid()
      modifies this`lastKnown, this`position, this`events
      ensures Valid()
      ensures var ps := OfTopic(partitions, topic);
              && n <= |ps| && events == old(events) + TimeEvents(ps[..n], timestamp, lookup)
              && (ok <==> ps != [] && forall i | 0 <= i < |ps| :: lookup(ps[i]).Some? && seeks(i))
              && (ok ==> forall p | p in ps :: StandsWhereFound(p, timestamp, lookup))
    {
      var ps := OfTopic(partitions, topic);
      if ps == [] {
        assert TimeEvents(ps[..0], timestamp, lookup) == [];
        return false, 0;
      }
      ok, n := SeekToTime(ps, timestamp, lookup, seeks);
    }

    method SeekAllToTime(ps: seq<Partition>, timestamp: int, lookup: Partition -> Option<int>, seeks: nat -> bool)
        returns (ok: bool, ghost n: nat)
      requires Valid() && forall p | p in ps :: p in partitions
      modifies this`lastKnown, this`position, this`events
      ensures Valid()
      ensures n <= |ps| && events == old(events) + TimeEvents(ps[..n], timestamp, lookup)
      ensures ok ==> n == |ps|
      ensures ok <==> (forall i | 0 <= i < |ps| :: seeks(i))
      ensures ok && (forall p | p in ps :: lookup(p).Some?) ==>
                forall p | p in ps :: StandsWhereFound(p, timestamp, lookup)
    {
      for i := 0 to |ps|
        invariant Valid() && events == old(events) + TimeEvents(ps[..i], timestamp, lookup)
        invariant forall k | 0 <= k < i :: seeks(k)
        invariant (forall p | p in ps :: lookup(p).Some?) ==>
                    forall p | p in ps[..i] :: StandsWhereFound(p, timestamp, lookup)
      {
        var p := ps[i];
        if !seeks(i) {
          return false, i;
        }
        assert p in ps && ps[..i + 1] == ps[..i] + [p];
        SeekOneToTime(p, timestamp, FoundOr(lookup(p)));
        TimeEventsStep(ps, timestamp, lookup, i);
      }
      assert ps[..|ps|] == ps;
      return true, |ps|;
    }

    /** The partition is at the offset found for the timestamp, which is stored as known. */
    ghost predicate StandsWhereFound(p: Partition, timestamp: int, lookup: Partition -> Option<int>)
      reads this`lastKnown, this`position
    {
      && p in lastKnown && p in position && lookup(p).Some?
      && lastKnown[p] == ConsumedOffset(lookup(p).value, timestamp) && position[p] == lookup(p).value
    }

    method SeekOneToTime(p: Partition, timestamp: int, offset: int)
      requires Valid() && p in partitions
      modifies this`lastKnown, this`position, this`events
      ensures Valid() && events == old(events) + [SoughtTime(p, timestamp, offset)]
      ensures lastKnown == old(lastKnown)[p := ConsumedOffset(offset, timestamp)]
      ensures position == old(position)[p := offset]
    {
      forall q | q in partitions
        ensures Slot(lastKnown[q], position[q]) == SlotAfter(FRESH, events, q) && InSequence(FRESH, events, q)
      {
        assert Tracks(q);
      }
      position := position[p := offset];
      lastKnown := lastKnown[p := ConsumedOffset(offset, timestamp)];
      assert (events + [SoughtTime(p, timestamp, offset)])[..|events|] == events;
      Note(SoughtTime(p, timestamp, offset));
    }

    method AllFound(ps: seq<Partition>, lookup: Partition -> Option<int>) returns (all: bool)
      ensures all <==> forall i | 0 <= i < |ps| :: lookup(ps[i]).Some?
    {
      for i := 0 to |ps|
        invariant forall k | 0 <= k < i :: lookup(ps[k]).Some?
      {
        if lookup(ps[i]).None? {
          return false;
        }
      }
      return true;
    }

    /** Every partition can be placed in this attempt. */
    ghost predicate Placeable(a: Attempt)
      reads this
      requires forall p :: p in lastKnown <==> p in partitions
    {
      forall p | p in partitions ::
        a.seeks(p) && (lastKnown[p].offset != UNKNOWN || (lastKnown[p].timestamp != UNKNOWN && a.lookup(p).Some?))
    }

    /** Put a new client at the last known offsets, or where their timestamps are found. */
    method SeekToRelevantOffsets(a: Attempt) returns (r: Option<map<Partition, int>>)
      requires forall p :: p in lastKnown <==> p in partitions
      ensures r.Some? <==> Placeable(a)
      ensures r.Some? ==> forall p :: p in r.value <==> p in partitions
      ensures r.Some? ==> forall p | p in partitions ::
                && a.seeks(p)
                && (if lastKnown[p].offset != UNKNOWN then r.value[p] == lastKnown[p].offset
                    else lastKnown[p].timestamp != UNKNOWN && a.lookup(p) == Some(r.value[p]))
    {
      var m: map<Partition, int> := map[];
      for i := 0 to |partitions|
        invariant forall p :: p in m <==> p in partitions[..i]
        invariant forall p | p in m ::
                    && a.seeks(p)
                    && (if lastKnown[p].offset != UNKNOWN then m[p] == lastKnown[p].offset
                        else lastKnown[p].timestamp != UNKNOWN && a.lookup(p) == Some(m[p]))
      {
        var p := partitions[i];
        assert partitions[..i + 1] == partitions[..i] + [p];
        assert p in partitions;
        var known := lastKnown[p];
        if known.offset != UNKNOWN {
          if !a.seeks(p) {
            return None;
          }
          m := m[p := known.offset];
        } else if known.timestamp != UNKNOWN {
          var found := a.lookup(p);
          if found.None? || !a.seeks(p) {
            return None;
          }
          m := m[p := found.value];
        } else {
          return None;
        }
      }
      assert partitions[..|partitions|] == partitions;
      return Some(m);
    }

    /** Recreate the client until its partitions are assigned and placed. The attempts are
        bounded by `patience`. */
    method ResetInstance(attempt: nat -> Attempt, patience: nat) returns (done: bool)
      requires Valid()
      modifies this`position, this`events
      ensures Valid()
      ensures done <==> exists k :: 0 <= k < patience && attempt(k).assigns && old(Placeable(attempt(k)))
      ensures !done ==> events == old(events)
      ensures done ==> |events| == |old(events)| + 1 && old(events) <= events && events[|old(events)|].Reset?
      ensures done ==> forall p | p in partitions && lastKnown[p].offset != UNKNOWN ::
                position[p] == lastKnown[p].offset
    {
      for k := 0 to patience
        invariant Valid() && events == old(events) && position == old(position)
        invariant forall j | 0 <= j < k :: !(attempt(j).assigns && old(Placeable(attempt(j))))
      {
        var a := attempt(k);
        if a.assigns {
          var placed := SeekToRelevantOffsets(a);
          if placed.Some? {
            forall p | p in partitions
              ensures Slot(lastKnown[p], position[p]) == SlotAfter(FRESH, events, p) && InSequence(FRESH, events, p)
            {
              assert Tracks(p);
            }
            position := placed.value;
            ghost var e := Reset(placed.value);
            assert (events + [e])[..|events|] == events;
            events := events + [e];
            return true;
          }
        }
      }
      return false;
    }

    /** Record a delivered message. */
    method Deliver(p: Partition, timestamp: int, offset: int)
      requires Valid() && p in partitions && (position[p] >= 0 ==> offset == position[p])
      modifies this`lastKnown, this`position, this`events
      ensures Valid() && events == old(events) + [Delivered(p, timestamp, offset)]
      ensures lastKnown == old(lastKnown)[p := ConsumedOffset(offset, timestamp)]
      ensures position == old(position)[p := offset + 1]
    {
      forall q | q in partitions
        ensures Slot(lastKnown[q], position[q]) == SlotAfter(FRESH, events, q) && InSequence(FRESH, events, q)
      {
        assert Tracks(q);
      }
      position := position[p := offset + 1];
      lastKnown := lastKnown[p := ConsumedOffset(offset, timestamp)];
      assert (events + [Delivered(p, timestamp, offset)])[..|events|] == events;
      Note(Delivered(p, timestamp, offset));
    }

    /** One turn of Consume: a reset when one was asked for, else a poll. No outcome means that
        Consume goes on. */
    method Turn(tick: Tick, patience: nat) returns (out: Option<Outcome>)
      requires Valid() && (tick.poll.Message? ==> tick.poll.at in partitions)
      modifies this
      ensures Valid() && old(events) <= events
      ensures out.Some? && out.value.Got? ==>
                && |events| == |old(events)| + 1 && tick.poll.Message? && out.value.at == tick.poll.at
                && events[|events| - 1] == Delivered(out.value.at, tick.poll.timestamp, out.value.offset)
                && lastKnown == old(lastKnown)[out.value.at := ConsumedOffset(out.value.offset, tick.poll.timestamp)]
      ensures out.Some? && !out.value.Got? ==> events == old(events)
      ensures out.None? && old(shouldReset) ==> |events| == |old(events)| + 1 && events[|events| - 1].Reset?
      ensures out.None? && !old(shouldReset) ==>
                events == old(events) && tick.raised && (tick.poll.Nothing? || tick.poll.Failure?)
      ensures out.Some? && out.value.Got? ==>
                && tick.poll.Message? && tick.poll.at in old(position)
                && out.value.offset == if old(position)[tick.poll.at] >= 0 then old(position)[tick.poll.at]
                                       else tick.poll.offset
      ensures out.Some? ==> if old(shouldReset) then out.value == Unfinished else FirstPoll(tick, out.value)
      ensures out != Some(Unfinished) ==> shouldReset == tick.raised
      ensures out != Some(Unfinished) ==>
                |events| - |old(events)| + Flag(shouldReset) ==
                Flag(old(shouldReset)) + Flag(tick.raised) + Flag(out.Some? && out.value.Got?)
    {
      if shouldReset {
        shouldReset := false;
        var done := ResetInstance(tick.attempt, patience);
        if !done {
          return Some(Unfinished);
        }
        shouldReset := tick.raised;
        return None;
      }
      shouldReset := tick.raised;
      match tick.poll
      case Nothing =>
        return if shouldReset then None else Some(NoMessage);
      case Failure =>
        return if shouldReset then None else Some(Error);
      case EndOrTimeout =>
        return Some(Ended);
      case Message(p, timestamp, offset) =>
        var at := if position[p] >= 0 then position[p] else offset;
        Deliver(p, timestamp, at);
        return Some(Got(p, at));
    }

    /** Consume: reset while asked to, then poll; a poll without a message is repeated when a
        reset was asked for meanwhile. The turns are bounded by `patience`. No request to reset is
        lost and none is honoured twice: those that were pending or came up during the `turns` are
        the resets that happened and the one that is pending now. */
    method Consume(world: nat -> Tick, patience: nat) returns (out: Outcome, ghost turns: nat)
      requires Valid() && forall k :: world(k).poll.Message? ==> world(k).poll.at in partitions
      modifies this
      ensures Valid() && old(events) <= events
      ensures !old(shouldReset) && patience > 0 ==> FirstPoll(world(0), out) || PollAgain(world(0))
      ensures out == NoMessage || out == Error ==> !shouldReset
      ensures old(shouldReset) && out != Unfinished ==> |events| > |old(events)| && events[|old(events)|].Reset?
      ensures out.Got? ==> |events| > |old(events)|
      ensures out.Got? ==> exists timestamp :: events[|events| - 1] == Delivered(out.at, timestamp, out.offset)
      ensures forall i | |old(events)| <= i < |events| - (if out.Got? then 1 else 0) :: events[i].Reset?
      ensures out != Unfinished ==>
                |events| - |old(events)| - Flag(out.Got?) + Flag(shouldReset) ==
                Flag(old(shouldReset)) + Raised(world, turns)
    {
      var t := 0;
      turns := 0;
      while t < patience
        invariant Valid() && old(events) <= events && t <= patience
        invariant forall i | |old(events)| <= i < |events| :: events[i].Reset?
        invariant t == 0 ==> shouldReset == old(shouldReset) && events == old(events)
        invariant t > 0 && old(shouldReset) ==> |events| > |old(events)|
        invariant turns == t
        invariant |events| - |old(events)| + Flag(shouldReset) == Flag(old(shouldReset)) + Raised(world, t)
        invariant t > 0 && !old(shouldReset) ==> world(0).raised && (world(0).poll.Nothing? || world(0).poll.Failure?)
      {
        ghost var before := events;
        var result := Turn(world(t), patience);
        turns := t + 1;
        assert result.None? ==> forall i | |before| <= i < |events| :: events[i].Reset?;
        if result.Some? {
          return result.value, turns;
        }
        t := t + 1;
      }
      return Unfinished, turns;
    }
  }

  function Flag(b: bool): nat
  {
    if b then 1 else 0
  }

  /** How often a reset was asked for during the first turns. */
  function Raised(world: nat -> Tick, turns: nat): nat
  {
    if turns == 0 then 0 else Raised(world, turns - 1) + Flag(world(turns - 1).raised)
  }

  /** The partitions of a topic. */
  function OfTopic(ps: seq<Partition>, topic: string): (r: seq<Partition>)
    ensures forall p :: p in r <==> p in ps && p.topic == topic
  {
    if ps == [] then [] else (if ps[0].topic == topic then [ps[0]] else []) + OfTopic(ps[1..], topic)
  }

  function OffsetEvents(offsets: seq<(Partition, int)>): (es: seq<Event>)
    ensures |es| == |offsets| && forall i | 0 <= i < |es| :: es[i] == SoughtOffset(offsets[i].0, offsets[i].1)
  {
    seq(|offsets|, i requires 0 <= i < |offsets| => SoughtOffset(offsets[i].0, offsets[i].1))
  }

  lemma OffsetEventsStep(offsets: seq<(Partition, int)>, i: nat)
    requires i < |offsets|
    ensures OffsetEvents(offsets[..i + 1]) == OffsetEvents(offsets[..i]) + [SoughtOffset(offsets[i].0, offsets[i].1)]
  {
  }

  function FoundOr(found: Option<int>): int
  {
    if found.Some? then found.value else UNKNOWN
  }

  function TimeEvents(ps: seq<Partition>, timestamp: int, lookup: Partition -> Option<int>): (es: seq<Event>)
    ensures |es| == |ps| && forall i | 0 <= i < |es| :: es[i] == SoughtTime(ps[i], timestamp, FoundOr(lookup(ps[i])))
  {
    seq(|ps|, i requires 0 <= i < |ps| => SoughtTime(ps[i], timestamp, FoundOr(lookup(ps[i]))))
  }

  lemma TimeEventsStep(ps: seq<Partition>, timestamp: int, lookup: Partition -> Option<int>, i: nat)
    requires i < |ps|
    ensures TimeEvents(ps[..i + 1], timestamp, lookup) ==
            TimeEvents(ps[..i], timestamp, lookup) + [SoughtTime(ps[i], timestamp, FoundOr(lookup(ps[i])))]
  {
  }
}
