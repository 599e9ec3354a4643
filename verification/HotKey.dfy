/** The hot key detector: twelve buckets that estimate which keys take a share of the load. */
module HotKey {

  const BUCKETS: nat := 12

  datatype State<K> = State(keys: seq<K>, load: seq<nat>, next: nat, records: nat, total: nat)

  /** What happened to a detector: a key was recorded with a load, or all loads were halved. */
  datatype Event<K> = Record(key: K, load: nat) | Decay

  ghost predicate Shaped<K>(s: State<K>)
  {
    |s.keys| == BUCKETS && |s.load| == BUCKETS && s.next < BUCKETS
  }

  /** The first bucket of the key, or the number of buckets. */
  function Find<K(==)>(keys: seq<K>, key: K): (i: nat)
    ensures i <= |keys| && (forall j | 0 <= j < i :: keys[j] != key) && (i < |keys| ==> keys[i] == key)
  {
    if keys == [] then 0 else if keys[0] == key then 0 else Find(keys[1..], key) + 1
  }

  /** The first bucket without load, or the number of buckets. */
  function FindEmpty(load: seq<nat>): (i: nat)
    ensures i <= |load| && (forall j | 0 <= j < i :: load[j] != 0) && (i < |load| ==> load[i] == 0)
  {
    if load == [] then 0 else if load[0] == 0 then 0 else FindEmpty(load[1..]) + 1
  }

  function Halved(load: seq<nat>): (r: seq<nat>)
    ensures |r| == |load| && forall i | 0 <= i < |r| :: r[i] == load[i] / 2
  {
    if load == [] then [] else [load[0] / 2] + Halved(load[1..])
  }

  // ----- the two steps of the detector -----

  function Decayed<K>(s: State<K>): State<K>
  {
    s.(load := Halved(s.load), records := s.records / 2, total := s.total / 2)
  }

  /** A bucket's new key and load when the new pair meets a full detector. */
  function Collide<K>(key: K, load: nat, oldKey: K, oldLoad: nat): (K, nat)
  {
    if oldLoad == load then (key, oldLoad)
    else if oldLoad > load then (oldKey, oldLoad - load)
    else (key, load - oldLoad)
  }

  function Recorded<K(==)>(s: State<K>, key: K, load: nat): State<K>
    requires |s.keys| == BUCKETS && |s.load| == BUCKETS && s.next < BUCKETS
  {
    var t := s.(records := s.records + 1, total := s.total + load);
    var i, e := Find(s.keys, key), FindEmpty(s.load);
    if i < BUCKETS then t.(load := s.load[i := s.load[i] + load])
    else if e < BUCKETS then t.(keys := s.keys[e := key], load := s.load[e := load])
    else
      var (k, l) := Collide(key, load, s.keys[s.next], s.load[s.next]);
      t.(keys := s.keys[s.next := k], load := s.load[s.next := l], next := (s.next + 1) % BUCKETS)
  }

  // ----- what the loads are compared with -----

  /** The exact load of a key, decayed like the detector's own counters. */
  function Exact<K(==)>(events: seq<Event<K>>, key: K): nat
  {
    if events == [] then 0
    else
      var before := Exact(events[..|events| - 1], key);
      match events[|events| - 1]
      case Record(k, load) => if k == key then before + load else before
      case Decay => before / 2
  }

  /** The exact load of all keys. */
  function Total<K>(events: seq<Event<K>>): nat
  {
    if events == [] then 0
    else
      var before := Total(events[..|events| - 1]);
      match events[|events| - 1]
      case Record(_, load) => before + load
      case Decay => before / 2
  }

  function Sum(load: seq<nat>): nat
  {
    if load == [] then 0 else load[0] + Sum(load[1..])
  }

  /** The load in the buckets of one key. */
  function LoadOf<K(==)>(keys: seq<K>, load: seq<nat>, key: K): nat
    requires |keys| == |load|
  {
    if keys == [] then 0
    else (if keys[0] == key then load[0] else 0) + LoadOf(keys[1..], load[1..], key)
  }

  /** Of several buckets with the same key only the first may have load. */
  ghost predicate OneBucketEach<K>(s: State<K>)
    requires |s.keys| == |s.load|
  {
    forall i, j | 0 <= i < j < |s.keys| && s.keys[i] == s.keys[j] :: s.load[j] == 0
  }

  /** No bucket claims more than its key's exact load. */
  ghost predicate NoOverestimate<K>(s: State<K>, events: seq<Event<K>>)
    requires |s.keys| == |s.load|
  {
    forall i | 0 <= i < |s.keys| :: s.load[i] <= Exact(events, s.keys[i])
  }

  /** What a key lost is bounded by the load of the other keys. */
  ghost predicate Accounted<K>(s: State<K>, events: seq<Event<K>>, key: K)
    requires |s.keys| == |s.load|
  {
    3 * Exact(events, key) + Sum(s.load) <= 2 * s.total + 2 * LoadOf(s.keys, s.load, key) + 3
  }

  ghost predicate Inv<K(!new)>(s: State<K>, events: seq<Event<K>>)
  {
    && Shaped(s) && OneBucketEach(s) && NoOverestimate(s, events)
    && s.total == Total(events) && Sum(s.load) <= s.total
    && (forall key {:trigger Exact(events, key)} :: Accounted(s, events, key))
  }

  // ----- sums under an update -----

  lemma {:induction false} SumUpdate(load: seq<nat>, i: nat, l: nat)
    requires i < |load|
    ensures Sum(load[i := l]) + load[i] == Sum(load) + l
  {
    if i == 0 {
      assert load[0 := l][1..] == load[1..];
    } else {
      assert load[i := l][1..] == load[1..][i - 1 := l];
      SumUpdate(load[1..], i - 1, l);
    }
  }

  lemma {:induction false} LoadOfUpdate<K(!new)>(keys: seq<K>, load: seq<nat>, i: nat, k: K, l: nat, key: K)
    requires i < |keys| == |load|
    ensures LoadOf(keys[i := k], load[i := l], key) + (if keys[i] == key then load[i] else 0)
         == LoadOf(keys, load, key) + (if k == key then l else 0)
  {
    if i == 0 {
      assert keys[0 := k][1..] == keys[1..] && load[0 := l][1..] == load[1..];
    } else {
      assert keys[i := k][1..] == keys[1..][i - 1 := k] && load[i := l][1..] == load[1..][i - 1 := l];
      LoadOfUpdate(keys[1..], load[1..], i - 1, k, l, key);
    }
  }

  lemma {:induction false} LoadOfAbsent<K(!new)>(keys: seq<K>, load: seq<nat>, key: K)
    requires |keys| == |load| && key !in keys
    ensures LoadOf(keys, load, key) == 0
  {
    if keys != [] {
      LoadOfAbsent(keys[1..], load[1..], key);
    }
  }

  lemma {:induction false} LoadOfIdle<K(!new)>(keys: seq<K>, load: seq<nat>, key: K)
    requires |keys| == |load| && forall i | 0 <= i < |keys| && keys[i] == key :: load[i] == 0
    ensures LoadOf(keys, load, key) == 0
  {
    if keys != [] {
      LoadOfIdle(keys[1..], load[1..], key);
    }
  }

  /** The load of a key is in its first bucket. */
  lemma {:induction false} LoadOfFirst<K(!new)>(keys: seq<K>, load: seq<nat>, key: K)
    requires |keys| == |load| && key in keys
    requires forall i, j | 0 <= i < j < |keys| && keys[i] == keys[j] :: load[j] == 0
    ensures LoadOf(keys, load, key) == load[Find(keys, key)]
  {
    if keys[0] == key {
      LoadOfIdle(keys[1..], load[1..], key);
    } else {
      LoadOfFirst(keys[1..], load[1..], key);
    }
  }

  lemma {:induction false} SumHalved(load: seq<nat>)
    ensures 2 * Sum(Halved(load)) <= Sum(load)
  {
    if load != [] {
      assert Halved(load)[1..] == Halved(load[1..]);
      SumHalved(load[1..]);
    }
  }

  /** Halving costs a key one unit at most beyond its half. */
  lemma LoadOfHalved<K(!new)>(s: State<K>, key: K)
    requires Shaped(s) && OneBucketEach(s)
    ensures 2 * LoadOf(s.keys, Halved(s.load), key) + 1 >= LoadOf(s.keys, s.load, key)
  {
    if key in s.keys {
      LoadOfFirst(s.keys, s.load, key);
      LoadOfFirst(s.keys, Halved(s.load), key);
    } else {
      LoadOfAbsent(s.keys, s.load, key);
    }
  }

  // ----- every step keeps the invariant -----

  lemma ExactDecay<K(!new)>(events: seq<Event<K>>, key: K)
    ensures Exact(events + [Decay], key) == Exact(events, key) / 2
    ensures Total(events + [Decay]) == Total(events) / 2
  {
    assert (events + [Decay])[..|events|] == events;
  }

  lemma ExactRecord<K(!new)>(events: seq<Event<K>>, k: K, load: nat, key: K)
    ensures Exact(events + [Record(k, load)], key) == Exact(events, key) + (if k == key then load else 0)
    ensures Total(events + [Record(k, load)]) == Total(events) + load
  {
    assert (events + [Record(k, load)])[..|events|] == events;
  }

  lemma DecayKeepsInv<K(!new)>(s: State<K>, events: seq<Event<K>>)
    requires Inv(s, events)
    ensures Inv(Decayed(s), events + [Decay])
  {
    var t := Decayed(s);
    SumHalved(s.load);
    forall i | 0 <= i < BUCKETS ensures t.load[i] <= Exact(events + [Decay], t.keys[i]) {
      ExactDecay(events, t.keys[i]);
    }
    forall key ensures Accounted(t, events + [Decay], key) {
      ExactDecay(events, key);
      LoadOfHalved(s, key);
      assert Accounted(s, events, key);
    }
    ExactDecay(events, s.keys[0]);
  }

  /** What a bucket becomes when the key is recorded: more load for the key it has, or the
      outcome of the collision with the key it had. */
  ghost predicate BucketStep<K>(s: State<K>, key: K, load: nat, i: nat, k: K, l: nat)
    requires i < |s.keys| == |s.load|
  {
    if s.keys[i] == key then k == key && l == s.load[i] + load
    else key !in s.keys && (k, l) == Collide(key, load, s.keys[i], s.load[i])
  }

  /** The arithmetic of one bucket step: what any key has lost stays accounted for. */
  lemma StepAccounts<K(!new)>(s: State<K>, events: seq<Event<K>>, key: K, load: nat, i: nat, k: K, l: nat, x: K)
    requires Shaped(s) && i < BUCKETS && BucketStep(s, key, load, i, k, l) && Accounted(s, events, x)
    ensures 3 * Exact(events + [Record(key, load)], x) + Sum(s.load[i := l])
            <= 2 * (s.total + load) + 2 * LoadOf(s.keys[i := k], s.load[i := l], x) + 3
  {
    ExactRecord(events, key, load, x);
    SumUpdate(s.load, i, l);
    LoadOfUpdate(s.keys, s.load, i, k, l, x);
  }

  /** One bucket changed while the key was recorded with a load: what must hold of the new
      bucket for the invariant to stay. */
  lemma BucketChange<K(!new)>(s: State<K>, events: seq<Event<K>>, key: K, load: nat, i: nat, k: K, l: nat, t: State<K>)
    requires Inv(s, events) && i < BUCKETS && t.next < BUCKETS
    requires t.keys == s.keys[i := k] && t.load == s.load[i := l] && t.total == s.total + load
    requires OneBucketEach(t)
    requires l <= s.load[i] + load
    requires l <= Exact(events + [Record(key, load)], k)
    requires BucketStep(s, key, load, i, k, l)
    ensures Inv(t, events + [Record(key, load)])
  {
    var after := events + [Record(key, load)];
    SumUpdate(s.load, i, l);
    forall j | 0 <= j < BUCKETS ensures t.load[j] <= Exact(after, t.keys[j]) {
      ExactRecord(events, key, load, t.keys[j]);
    }
    forall x ensures Accounted(t, after, x) {
      assert Accounted(s, events, x);
      StepAccounts(s, events, key, load, i, k, l, x);
    }
    ExactRecord(events, key, load, key);
  }

  lemma RecordKeepsInv<K(!new)>(s: State<K>, events: seq<Event<K>>, key: K, load: nat)
    requires Inv(s, events)
    ensures Inv(Recorded(s, key, load), events + [Record(key, load)])
  {
    var t := Recorded(s, key, load);
    var i, e := Find(s.keys, key), FindEmpty(s.load);
    ExactRecord(events, key, load, key);
    if i < BUCKETS {
      assert t.keys == s.keys[i := key];
      BucketChange(s, events, key, load, i, key, s.load[i] + load, t);
    } else {
      assert key !in s.keys;
      if e < BUCKETS {
        BucketChange(s, events, key, load, e, key, load, t);
      } else {
        var n := s.next;
        var (k, l) := Collide(key, load, s.keys[n], s.load[n]);
        ExactRecord(events, key, load, s.keys[n]);
        BucketChange(s, events, key, load, n, k, l, t);
      }
    }
  }

  // ----- runs -----

  function Start<K>(key: K): State<K>
  {
    State(seq(BUCKETS, _ => key), seq(BUCKETS, _ => 0), 0, 0, 0)
  }

  /** The state after a stream of events; `key` is the default key of a fresh detector. */
  function StateAfter<K(==)>(key: K, events: seq<Event<K>>): (s: State<K>)
    ensures |s.keys| == BUCKETS && |s.load| == BUCKETS && s.next < BUCKETS
  {
    if events == [] then Start(key)
    else
      var before := StateAfter(key, events[..|events| - 1]);
      match events[|events| - 1]
      case Record(k, load) => Recorded(before, k, load)
      case Decay => Decayed(before)
  }

  lemma {:induction false} SumOfZeros(load: seq<nat>)
    requires forall i | 0 <= i < |load| :: load[i] == 0
    ensures Sum(load) == 0
  {
    if load != [] {
      SumOfZeros(load[1..]);
    }
  }

  lemma {:induction false} RunKeepsInv<K(!new)>(key: K, events: seq<Event<K>>)
    ensures Inv(StateAfter(key, events), events)
  {
    if events == [] {
      SumOfZeros(Start(key).load);
      forall k ensures Accounted(Start(key), events, k) {
        assert Exact(events, k) == 0;
      }
    } else {
      var init, last := events[..|events| - 1], events[|events| - 1];
      assert events == init + [last];
      RunKeepsInv(key, init);
      match last
      case Record(k, load) => RecordKeepsInv(StateAfter(key, init), init, k, load);
      case Decay => DecayKeepsInv(StateAfter(key, init), init);
    }
  }

  // ----- queries -----

  /** 1200 times the load that a key with this percentage is expected to show. */
  function Threshold(percents: nat, total: nat): int
  {
    ((BUCKETS + 1) * percents - 100) * total
  }

  predicate Exceeds(load: nat, threshold: int)
  {
    100 * BUCKETS * load > threshold
  }

  /** isAbove: enough records, and the key's first bucket exceeds the threshold. */
  predicate IsAbove<K(==)>(s: State<K>, key: K, percents: nat)
    requires |s.keys| == BUCKETS && |s.load| == BUCKETS
  {
    && s.records >= 50 && Find(s.keys, key) < BUCKETS
    && Exceeds(s.load[Find(s.keys, key)], Threshold(percents, s.total))
  }

  /** The keys of the buckets that exceed a threshold. */
  function KeysOver<K>(keys: seq<K>, load: seq<nat>, threshold: int): seq<K>
    requires |keys| == |load|
  {
    if keys == [] then []
    else (if Exceeds(load[0], threshold) then [keys[0]] else []) + KeysOver(keys[1..], load[1..], threshold)
  }

  lemma {:induction false} KeysOverConcat<K(!new)>(ks: seq<K>, ls: seq<nat>, k: K, l: nat, threshold: int)
    requires |ks| == |ls|
    ensures KeysOver(ks + [k], ls + [l], threshold) ==
            KeysOver(ks, ls, threshold) + (if Exceeds(l, threshold) then [k] else [])
  {
    if ks == [] {
      assert ks + [k] == [k] && ls + [l] == [l];
    } else {
      KeysOverConcat(ks[1..], ls[1..], k, l, threshold);
      assert (ks + [k])[1..] == ks[1..] + [k] && (ls + [l])[1..] == ls[1..] + [l];
    }
  }

  /** The loop of getKeysAbove over the buckets. */
  method CollectOver<K(!new)>(ks: seq<K>, ls: seq<nat>, threshold: int) returns (r: seq<K>)
    requires |ks| == |ls|
    ensures r == KeysOver(ks, ls, threshold)
  {
    r := [];
    for i := 0 to |ks|
      invariant r == KeysOver(ks[..i], ls[..i], threshold)
    {
      KeysOverConcat(ks[..i], ls[..i], ks[i], ls[i], threshold);
      assert ks[..i + 1] == ks[..i] + [ks[i]] && ls[..i + 1] == ls[..i] + [ls[i]];
      if Exceeds(ls[i], threshold) {
        r := r + [ks[i]];
      }
    }
    assert ks[..|ks|] == ks && ls[..|ls|] == ls;
  }

  /** getKeysAbove */
  function KeysAbove<K>(s: State<K>, percents: nat): seq<K>
    requires |s.keys| == |s.load|
  {
    KeysOver(s.keys, s.load, Threshold(percents, s.total))
  }

  lemma {:induction false} KeysOverMembers<K(!new)>(keys: seq<K>, load: seq<nat>, threshold: int, k: K)
    requires |keys| == |load|
    ensures k in KeysOver(keys, load, threshold) <==>
            exists j :: 0 <= j < |keys| && keys[j] == k && Exceeds(load[j], threshold)
  {
    if keys != [] {
      KeysOverMembers(keys[1..], load[1..], threshold, k);
      if j :| 0 <= j < |keys| && keys[j] == k && Exceeds(load[j], threshold) {
        assert j > 0 ==> keys[1..][j - 1] == k && load[1..][j - 1] == load[j];
      }
    }
  }

  ghost predicate Distinct<K>(keys: seq<K>)
  {
    forall a, b | 0 <= a < b < |keys| :: keys[a] != keys[b]
  }

  /** The keys reported together are distinct. */
  lemma {:induction false} KeysOverDistinct<K(!new)>(keys: seq<K>, load: seq<nat>, threshold: int)
    requires |keys| == |load| && threshold >= 0
    requires forall i, j | 0 <= i < j < |keys| && keys[i] == keys[j] :: load[j] == 0
    ensures Distinct(KeysOver(keys, load, threshold))
  {
    if keys != [] {
      KeysOverDistinct(keys[1..], load[1..], threshold);
      var rest := KeysOver(keys[1..], load[1..], threshold);
      if keys[0] in rest {
        KeysOverMembers(keys[1..], load[1..], threshold, keys[0]);
      }
      assert keys[0] !in rest;
    }
  }

  /** The reported keys' buckets together exceed the threshold once per key. */
  lemma {:induction false} KeysOverSum<K(!new)>(keys: seq<K>, load: seq<nat>, threshold: int)
    requires |keys| == |load| && threshold >= 0
    ensures var n := |KeysOver(keys, load, threshold)|;
            n * threshold <= 1200 * Sum(load) && (n > 0 ==> n * threshold < 1200 * Sum(load))
  {
    if keys != [] {
      KeysOverSum(keys[1..], load[1..], threshold);
      var n := |KeysOver(keys[1..], load[1..], threshold)|;
      assert (n + 1) * threshold == n * threshold + threshold;
    }
  }

  lemma ThresholdPositive(percents: nat, total: nat)
    requires percents >= 10
    ensures Threshold(percents, total) >= 0
  {
  }

  /** A key reported as hot really takes the share: its exact load is above the threshold. */
  lemma AboveIsSound<K(!new)>(key: K, events: seq<Event<K>>, k: K, percents: nat)
    requires IsAbove(StateAfter(key, events), k, percents)
    ensures 1200 * Exact(events, k) > (13 * percents - 100) * Total(events)
  {
    RunKeepsInv(key, events);
    var state := StateAfter(key, events);
    FoundIsSound(state, events, Find(state.keys, k), Threshold(percents, Total(events)));
  }

  lemma FoundIsSound<K(!new)>(s: State<K>, events: seq<Event<K>>, i: nat, threshold: int)
    requires |s.keys| == |s.load| && NoOverestimate(s, events) && i < |s.load| && Exceeds(s.load[i], threshold)
    ensures 1200 * Exact(events, s.keys[i]) > threshold
  {
  }

  lemma CancelTotal(n: nat, c: nat, total: nat)
    requires n * (c * total) < 1200 * total
    ensures n * c < 1200
  {
    assert n * (c * total) == (n * c) * total;
    if n * c >= 1200 {
      MulMonotone(1200, n * c, total);
      assert false;
    }
  }

  lemma MulMonotone(a: nat, b: nat, m: nat)
    requires a <= b
    ensures a * m <= b * m
  {
  }

  /** Not many keys can take the share: n keys above p percent means n * (13p - 100) < 1200. */
  lemma KeysAboveAreFew<K(!new)>(key: K, events: seq<Event<K>>, percents: nat)
    requires percents >= 10
    ensures |KeysAbove(StateAfter(key, events), percents)| * (13 * percents - 100) < 1200
  {
    RunKeepsInv(key, events);
    var s := StateAfter(key, events);
    ThresholdPositive(percents, s.total);
    KeysOverSum(s.keys, s.load, Threshold(percents, s.total));
    FewWhenOver(|KeysAbove(s, percents)|, percents, s.total, Sum(s.load));
  }

  lemma FewWhenOver(n: nat, percents: nat, total: nat, sum: nat)
    requires percents >= 10 && sum <= total && (n > 0 ==> n * Threshold(percents, total) < 1200 * sum)
    ensures n * (13 * percents - 100) < 1200
  {
    if n > 0 {
      var c: nat := 13 * percents - 100;
      assert Threshold(percents, total) == c * total;
      CancelTotal(n, c, total);
    }
  }

  /** The keys reported together are distinct, and each of them really takes the share. */
  lemma KeysAboveAreSound<K(!new)>(key: K, events: seq<Event<K>>, percents: nat)
    requires percents >= 10
    ensures var r := KeysAbove(StateAfter(key, events), percents);
            Distinct(r) && forall k | k in r :: 1200 * Exact(events, k) > (13 * percents - 100) * Total(events)
  {
    RunKeepsInv(key, events);
    var s := StateAfter(key, events);
    var threshold := Threshold(percents, s.total);
    ThresholdPositive(percents, s.total);
    KeysOverDistinct(s.keys, s.load, threshold);
    forall k | k in KeysOver(s.keys, s.load, threshold) ensures 1200 * Exact(events, k) > threshold {
      KeysOverMembers(s.keys, s.load, threshold, k);
      var j :| 0 <= j < |s.keys| && s.keys[j] == k && Exceeds(s.load[j], threshold);
      FoundIsSound(s, events, j, threshold);
    }
  }

  /** The two queries agree once fifty records are in; before that isAbove says no. */
  lemma QueriesAgree<K(!new)>(key: K, events: seq<Event<K>>, k: K, percents: nat)
    requires percents >= 10
    ensures var s := StateAfter(key, events);
            IsAbove(s, k, percents) <==> s.records >= 50 && k in KeysAbove(s, percents)
  {
    RunKeepsInv(key, events);
    var s := StateAfter(key, events);
    ThresholdPositive(percents, s.total);
    FirstDecides(s.keys, s.load, Threshold(percents, s.total), k);
  }

  lemma FirstDecides<K(!new)>(keys: seq<K>, load: seq<nat>, threshold: int, k: K)
    requires |keys| == |load| && threshold >= 0
    requires forall i, j | 0 <= i < j < |keys| && keys[i] == keys[j] :: load[j] == 0
    ensures k in KeysOver(keys, load, threshold) <==> Find(keys, k) < |keys| && Exceeds(load[Find(keys, k)], threshold)
  {
    KeysOverMembers(keys, load, threshold, k);
  }

  /** A key with more than two thirds of the load is always in a bucket, with a load that
      accounts for the excess. */
  lemma DominantKeyIsKept<K(!new)>(key: K, events: seq<Event<K>>, k: K)
    requires 3 * Exact(events, k) > 2 * Total(events) + 3
    ensures var s := StateAfter(key, events);
            var i := Find(s.keys, k);
            i < BUCKETS && 2 * s.load[i] + 3 >= 3 * Exact(events, k) - 2 * Total(events) + Sum(s.load)
  {
    RunKeepsInv(key, events);
    var s := StateAfter(key, events);
    assert Accounted(s, events, k);
    if k in s.keys {
      LoadOfFirst(s.keys, s.load, k);
    } else {
      LoadOfAbsent(s.keys, s.load, k);
    }
  }

  // ----- when the queries must say yes -----

  /** How many records there were, halved like all counters. */
  function RecordCount<K>(events: seq<Event<K>>): nat
  {
    if events == [] then 0
    else
      var before := RecordCount(events[..|events| - 1]);
      if events[|events| - 1].Decay? then before / 2 else before + 1
  }

  lemma {:induction false} RecordsAreCounted<K(!new)>(key: K, events: seq<Event<K>>)
    ensures StateAfter(key, events).records == RecordCount(events)
    ensures (forall e | e in events :: e.Record?) ==> RecordCount(events) == |events|
  {
    if events != [] {
      RecordsAreCounted(key, events[..|events| - 1]);
    }
  }

  /** A key whose load exceeds what it may lose must be reported: with fifty records, and when
      three times its load less twice the total, and a constant, exceeds the threshold. */
  lemma {:induction false} MustSayYes<K(!new)>(key: K, events: seq<Event<K>>, k: K, percents: nat)
    requires RecordCount(events) >= 50 && percents >= 10
    requires 1200 * (3 * Exact(events, k) - 2 * Total(events) - 3) > (13 * percents - 100) * Total(events)
    ensures IsAbove(StateAfter(key, events), k, percents) && k in KeysAbove(StateAfter(key, events), percents)
  {
    var s := StateAfter(key, events);
    RecordsAreCounted(key, events);
    RunKeepsInv(key, events);
    var threshold := Threshold(percents, s.total);
    ThresholdPositive(percents, s.total);
    assert 1200 * (3 * Exact(events, k) - 2 * Total(events) - 3) > threshold;
    DominantKeyIsKept(key, events, k);
    LoadInSum(s.load, Find(s.keys, k));
    FirstDecides(s.keys, s.load, threshold, k);
  }

  lemma {:induction false} LoadInSum(load: seq<nat>, i: nat)
    requires i < |load|
    ensures load[i] <= Sum(load)
  {
    if i > 0 {
      LoadInSum(load[1..], i - 1);
    }
  }

  /** The keys that were ever recorded. */
  function KeysOf<K(==)>(events: seq<Event<K>>): set<K>
  {
    if events == [] then {}
    else
      KeysOf(events[..|events| - 1]) +
      (if events[|events| - 1].Record? then {events[|events| - 1].key} else {})
  }

  /** Every key's load is in its bucket. */
  ghost predicate Precise<K(!new)>(s: State<K>, events: seq<Event<K>>)
    requires |s.keys| == |s.load|
  {
    forall k {:trigger Exact(events, k)} :: LoadOf(s.keys, s.load, k) == Exact(events, k)
  }

  lemma {:induction false} OnlyRecordedHaveLoad<K(!new)>(events: seq<Event<K>>, k: K)
    requires Exact(events, k) > 0
    ensures k in KeysOf(events)
  {
    var init, last := events[..|events| - 1], events[|events| - 1];
    if Exact(init, k) > 0 {
      OnlyRecordedHaveLoad(init, k);
    }
  }

  lemma {:induction false} DistinctKeys<K(!new)>(keys: seq<K>, all: set<K>)
    requires Distinct(keys) && forall i | 0 <= i < |keys| :: keys[i] in all
    ensures |keys| <= |all|
  {
    if keys != [] {
      var rest := keys[1..];
      forall i | 0 <= i < |rest| ensures rest[i] in all - {keys[0]} {
        assert rest[i] == keys[i + 1];
      }
      DistinctKeys(rest, all - {keys[0]});
    }
  }

  /** Thirteen keys are needed to fill all buckets and bring one more. */
  lemma {:induction false} RoomForFewKeys<K(!new)>(s: State<K>, events: seq<Event<K>>, key: K, all: set<K>)
    requires Shaped(s) && OneBucketEach(s) && NoOverestimate(s, events)
    requires KeysOf(events) <= all && key in all && |all| <= BUCKETS && key !in s.keys
    ensures FindEmpty(s.load) < BUCKETS
  {
    if FindEmpty(s.load) == BUCKETS {
      forall i | 0 <= i < BUCKETS ensures s.keys[i] in all - {key} {
        OnlyRecordedHaveLoad(events, s.keys[i]);
        assert s.keys[i] in s.keys;
      }
      DistinctKeys(s.keys, all - {key});
      assert false;
    }
  }

  lemma {:induction false} RecordStaysPrecise<K(!new)>(s: State<K>, events: seq<Event<K>>, key: K, load: nat,
                                                       all: set<K>)
    requires Shaped(s) && OneBucketEach(s) && NoOverestimate(s, events) && Precise(s, events)
    requires KeysOf(events) <= all && key in all && |all| <= BUCKETS
    ensures Precise(Recorded(s, key, load), events + [Record(key, load)])
  {
    var i := Find(s.keys, key);
    if i == BUCKETS {
      assert key !in s.keys;
      RoomForFewKeys(s, events, key, all);
      LoadOfAbsent(s.keys, s.load, key);
    }
    var e := if i < BUCKETS then i else FindEmpty(s.load);
    var t := Recorded(s, key, load);
    assert t.keys == s.keys[e := key] && t.load == s.load[e := s.load[e] + load];
    forall k ensures LoadOf(t.keys, t.load, k) == Exact(events + [Record(key, load)], k) {
      ExactRecord(events, key, load, k);
      LoadOfUpdate(s.keys, s.load, e, key, s.load[e] + load, k);
      assert LoadOf(s.keys, s.load, k) == Exact(events, k);
    }
  }

  lemma {:induction false} LoadOfDecayed<K(!new)>(s: State<K>, key: K)
    requires Shaped(s) && OneBucketEach(s)
    ensures LoadOf(s.keys, Halved(s.load), key) == LoadOf(s.keys, s.load, key) / 2
  {
    if key in s.keys {
      LoadOfFirst(s.keys, s.load, key);
      LoadOfFirst(s.keys, Halved(s.load), key);
    } else {
      LoadOfAbsent(s.keys, s.load, key);
      LoadOfAbsent(s.keys, Halved(s.load), key);
    }
  }

  lemma {:induction false} DecayStaysPrecise<K(!new)>(s: State<K>, events: seq<Event<K>>)
    requires Shaped(s) && OneBucketEach(s) && Precise(s, events)
    ensures Precise(Decayed(s), events + [Decay])
  {
    var t := Decayed(s);
    forall k ensures LoadOf(t.keys, t.load, k) == Exact(events + [Decay], k) {
      ExactDecay(events, k);
      LoadOfDecayed(s, k);
      assert LoadOf(s.keys, s.load, k) == Exact(events, k);
    }
  }

  lemma {:induction false} FewKeysStayPrecise<K(!new)>(key: K, events: seq<Event<K>>, all: set<K>)
    requires KeysOf(events) <= all && |all| <= BUCKETS
    ensures Precise(StateAfter(key, events), events)
  {
    var s := StateAfter(key, events);
    if events == [] {
      forall k ensures LoadOf(s.keys, s.load, k) == Exact(events, k) {
        LoadOfIdle(s.keys, s.load, k);
      }
    } else {
      var init, last := events[..|events| - 1], events[|events| - 1];
      assert events == init + [last];
      FewKeysStayPrecise(key, init, all);
      RunKeepsInv(key, init);
      match last
      case Record(k, load) => RecordStaysPrecise(StateAfter(key, init), init, k, load, all);
      case Decay => DecayStaysPrecise(StateAfter(key, init), init);
    }
  }

  /** With no more than twelve keys the detector is exact: after every stream of records and decays
      a key is reported if and only if there are fifty records and it takes the share. */
  lemma {:induction false} ExactForFewKeys<K(!new)>(key: K, events: seq<Event<K>>, k: K, percents: nat)
    requires |KeysOf(events)| <= BUCKETS && percents >= 10
    ensures var s := StateAfter(key, events);
            && (IsAbove(s, k, percents) <==>
                  RecordCount(events) >= 50 && 1200 * Exact(events, k) > (13 * percents - 100) * Total(events))
            && (k in KeysAbove(s, percents) <==> 1200 * Exact(events, k) > (13 * percents - 100) * Total(events))
  {
    var s := StateAfter(key, events);
    RecordsAreCounted(key, events);
    RunKeepsInv(key, events);
    FewKeysStayPrecise(key, events, KeysOf(events));
    var threshold := Threshold(percents, s.total);
    assert threshold == (13 * percents - 100) * Total(events);
    ThresholdPositive(percents, s.total);
    assert LoadOf(s.keys, s.load, k) == Exact(events, k);
    LoadDecides(s, k, threshold);
  }

  lemma {:induction false} LoadDecides<K(!new)>(s: State<K>, k: K, threshold: int)
    requires Shaped(s) && OneBucketEach(s) && threshold >= 0
    ensures k in KeysOver(s.keys, s.load, threshold) <==> 1200 * LoadOf(s.keys, s.load, k) > threshold
    ensures Find(s.keys, k) < BUCKETS && Exceeds(s.load[Find(s.keys, k)], threshold) <==>
            1200 * LoadOf(s.keys, s.load, k) > threshold
  {
    if k in s.keys {
      LoadOfFirst(s.keys, s.load, k);
    } else {
      LoadOfAbsent(s.keys, s.load, k);
    }
    FirstDecides(s.keys, s.load, threshold, k);
  }

  // ----- two thirds is sharp -----

  lemma DecayedLast<K(!new)>(key: K, events: seq<Event<K>>)
    ensures StateAfter(key, events + [Decay]) == Decayed(StateAfter(key, events))
  {
    assert (events + [Decay])[..|events|] == events;
  }

  lemma RecordedLast<K(!new)>(key: K, events: seq<Event<K>>, k: K, load: nat)
    ensures StateAfter(key, events + [Record(k, load)]) == Recorded(StateAfter(key, events), k, load)
  {
    assert (events + [Record(k, load)])[..|events|] == events;
  }

  /** An unknown key goes to the first empty bucket. */
  lemma TakesEmpty(s: State<int>, k: int, load: nat, e: nat)
    requires Shaped(s) && k !in s.keys && e < BUCKETS && s.load[e] == 0
    requires forall i | 0 <= i < e :: s.load[i] > 0
    ensures var t := Recorded(s, k, load);
            t.keys == s.keys[e := k] && t.load == s.load[e := load] && t.next == s.next
  {
    assert Find(s.keys, k) == BUCKETS;
    assert FindEmpty(s.load) == e;
  }

  /** In a full detector an unknown key takes the place of an equal load. */
  lemma TakesEqual(s: State<int>, k: int, load: nat)
    requires Shaped(s) && k !in s.keys && (forall i | 0 <= i < BUCKETS :: s.load[i] > 0) && s.load[s.next] == load
    ensures var t := Recorded(s, k, load);
            t.keys == s.keys[s.next := k] && t.load == s.load && t.next == (s.next + 1) % BUCKETS
  {
    assert Find(s.keys, k) == BUCKETS;
    assert FindEmpty(s.load) == BUCKETS;
    assert s.load[s.next := load] == s.load;
  }

  /** In a full detector a smaller load of an unknown key is only subtracted. */
  lemma IsSubtracted(s: State<int>, k: int, load: nat)
    requires Shaped(s) && k !in s.keys && (forall i | 0 <= i < BUCKETS :: s.load[i] > 0) && s.load[s.next] > load
    ensures Recorded(s, k, load).keys == s.keys
  {
    assert Find(s.keys, k) == BUCKETS;
    assert FindEmpty(s.load) == BUCKETS;
    assert s.keys[s.next := s.keys[s.next]] == s.keys;
  }

  /** Key -1 has load n in the first bucket, the keys 1 to j have load 1 in the next ones. */
  ghost predicate Filling(s: State<int>, n: nat, j: nat)
  {
    && Shaped(s) && s.next == 0 && s.keys[0] == -1 && s.load[0] == n
    && (forall i | 1 <= i < BUCKETS :: s.keys[i] == (if i <= j then i else 0))
    && (forall i | 1 <= i < BUCKETS :: s.load[i] == (if i <= j then 1 else 0))
  }

  /** Key 100 has taken the first bucket with load n, the keys 101 to 100 + j the next ones. */
  ghost predicate Turning(s: State<int>, n: nat, j: nat)
  {
    && Shaped(s) && s.next == (j + 1) % BUCKETS && s.keys[0] == 100 && s.load[0] == n
    && (forall i | 1 <= i < BUCKETS :: s.keys[i] == (if i <= j then 100 + i else i) && s.load[i] == 1)
  }

  /** The stream so far: the load of key -1 and the load of all keys. */
  ghost predicate Loads(events: seq<Event<int>>, exact: nat, total: nat)
  {
    Exact(events, -1) == exact && Total(events) == total
  }

  lemma Records(events: seq<Event<int>>, k: int, load: nat) returns (more: seq<Event<int>>)
    ensures more == events + [Record(k, load)]
    ensures StateAfter(0, more) == Recorded(StateAfter(0, events), k, load)
    ensures Loads(more, Exact(events, -1) + (if k == -1 then load else 0), Total(events) + load)
  {
    more := events + [Record(k, load)];
    RecordedLast(0, events, k, load);
    ExactRecord(events, k, load, -1);
  }

  lemma FillStep(s: State<int>, n: nat, j: nat)
    requires n > 0 && j < 11 && Filling(s, n, j)
    ensures Filling(Recorded(s, j + 1, 1), n, j + 1)
  {
    TakesEmpty(s, j + 1, 1, j + 1);
  }

  lemma {:induction false} Fills(n: nat, j: nat) returns (events: seq<Event<int>>)
    requires n > 0 && j <= 11
    ensures Filling(StateAfter(0, events), n, j) && Loads(events, n, n + j)
  {
    if j == 0 {
      TakesEmpty(Start(0), -1, n, 0);
      events := Records([], -1, n);
    } else {
      var before := Fills(n, j - 1);
      FillStep(StateAfter(0, before), n, j - 1);
      events := Records(before, j, 1);
    }
  }

  lemma TurnStep(s: State<int>, n: nat, j: nat)
    requires n > 0 && j < 11 && Turning(s, n, j)
    ensures Turning(Recorded(s, 101 + j, 1), n, j + 1)
  {
    TakesEqual(s, 101 + j, 1);
  }

  lemma {:induction false} Turns(n: nat, j: nat) returns (events: seq<Event<int>>)
    requires n > 0 && j <= 11
    ensures Turning(StateAfter(0, events), n, j) && Loads(events, n, 2 * n + 11 + j)
  {
    if j == 0 {
      var before := Fills(n, 11);
      TakesEqual(StateAfter(0, before), 100, n);
      events := Records(before, 100, n);
    } else {
      var before := Turns(n, j - 1);
      TurnStep(StateAfter(0, before), n, j - 1);
      events := Records(before, 100 + j, 1);
    }
  }

  /** For every n a stream in which a key has 2n - 1 of 3n + 21 and is in no bucket: an equal
      load evicts its first n, and its last n - 1 are only subtracted from another key. */
  lemma TwoThirdsIsSharp(n: nat) returns (events: seq<Event<int>>)
    requires n > 1
    ensures Exact(events, -1) == 2 * n - 1 && Total(events) == 3 * n + 21
    ensures -1 !in StateAfter(0, events).keys
  {
    var before := Turns(n, 11);
    IsSubtracted(StateAfter(0, before), -1, n - 1);
    events := Records(before, -1, n - 1);
  }

  /** The promise that a key with ten percent of the load is in some bucket does not hold: here
      a key has sixty percent and no bucket. */
  lemma HotKeyCanBeMissed() returns (events: seq<Event<int>>)
    ensures 100 * Exact(events, -1) >= 60 * Total(events) && Total(events) > 0
    ensures -1 !in StateAfter(0, events).keys
  {
    events := TwoThirdsIsSharp(100);
  }

  /** Whatever the stream, a key whose share of the load exceeds p/q, by a constant at least,
      is in a bucket. */
  ghost predicate Guarantees(p: nat, q: nat, slack: nat)
  {
    forall events: seq<Event<int>>, k :: ShareExceeds(events, k, p, q, slack) ==> k in StateAfter(0, events).keys
  }

  ghost predicate ShareExceeds(events: seq<Event<int>>, k: int, p: nat, q: nat, slack: nat)
  {
    q * Exact(events, k) > p * Total(events) + slack
  }

  lemma MulCancel(a: nat, b: nat, m: nat)
    requires a * m > b * m
    ensures a > b
  {
    if a <= b {
      MulMonotone(a, b, m);
      assert false;
    }
  }

  lemma ShareOfTwoThirds(p: nat, q: nat, exact: nat, total: nat)
    requires 3 * p >= 2 * q > 0 && q * exact > p * total + q
    ensures 3 * exact > 2 * total + 3
  {
    MulMonotone(2 * q, 3 * p, total);
    assert (3 * exact) * q == 3 * (q * exact);
    assert (2 * total + 3) * q == (2 * q) * total + 3 * q;
    assert (3 * p) * total == 3 * (p * total);
    MulCancel(3 * exact, 2 * total + 3, q);
  }

  lemma KeepsTwoThirds(p: nat, q: nat)
    requires 3 * p >= 2 * q > 0
    ensures Guarantees(p, q, q)
  {
    forall events: seq<Event<int>>, k | ShareExceeds(events, k, p, q, q) ensures k in StateAfter(0, events).keys {
      ShareOfTwoThirds(p, q, Exact(events, k), Total(events));
      DominantKeyIsKept(0, events, k);
    }
  }

  lemma MissesLess(p: nat, q: nat, slack: nat)
    requires 3 * p < 2 * q
    ensures !Guarantees(p, q, slack)
  {
    var n := q + 21 * p + slack + 2;
    var events := TwoThirdsIsSharp(n);
    ShortOfTwoThirds(p, q, slack, n);
    assert ShareExceeds(events, -1, p, q, slack);
  }

  lemma ShortOfTwoThirds(p: nat, q: nat, slack: nat, n: nat)
    requires 3 * p + 1 <= 2 * q && n > q + 21 * p + slack
    ensures q * (2 * n - 1) > p * (3 * n + 21) + slack
  {
    MulMonotone(3 * p + 1, 2 * q, n);
    assert (2 * q) * n == 2 * (q * n) && (3 * p + 1) * n == 3 * (p * n) + n;
    assert q * (2 * n - 1) == 2 * (q * n) - q;
    assert p * (3 * n + 21) == 3 * (p * n) + 21 * p;
  }

  /** Which shares are always caught: a key with more than p/q of the load, up to some
      constant, is in a bucket after every stream if and only if p/q is two thirds or more.
      The ten percent that the comment of the source names is below that. */
  lemma CaughtFromTwoThirdsOn(p: nat, q: nat)
    requires q > 0
    ensures (exists slack: nat :: Guarantees(p, q, slack)) <==> 3 * p >= 2 * q
  {
    if 3 * p >= 2 * q {
      KeepsTwoThirds(p, q);
    } else {
      forall slack: nat ensures !Guarantees(p, q, slack) {
        MissesLess(p, q, slack);
      }
    }
  }

  // ----- the detector object -----

  /** Times are in nanoseconds. */
  function WholeSeconds(duration: nat): nat
  {
    duration / 1_000_000_000
  }

  /** A decay is due when its time has passed to the nanosecond. */
  lemma DueInNanoseconds(duration: nat, seconds: nat)
    ensures WholeSeconds(duration) >= seconds <==> duration >= seconds * 1_000_000_000
  {
  }

  class HotKeyDetector<K(==,!new)> {
    const keys: array<K>
    const load: array<nat>
    var nextIdx: nat
    var totalRecords: nat
    var totalRecordedLoad: nat
    var lastDecayTime: nat
    const decayTimeSeconds: nat

    /** The default key of the empty buckets, and all that happened so far. */
    ghost const empty: K
    ghost var events: seq<Event<K>>

    function Contents(): State<K>
      reads this, keys, load
    {
      State(keys[..], load[..], nextIdx, totalRecords, totalRecordedLoad)
    }

    ghost predicate InShape()
      reads this
    {
      && keys.Length == BUCKETS && load.Length == BUCKETS && nextIdx < BUCKETS
      && keys as object != load as object
    }

    /** The object is in the state that its events lead to. */
    ghost predicate Valid()
      reads this, keys, load
    {
      && InShape()
      && Contents() == StateAfter(empty, events)
    }

    constructor (key: K, decaySeconds: nat, now: nat)
      ensures Valid() && events == [] && empty == key && lastDecayTime == now
      ensures decayTimeSeconds == decaySeconds && fresh(keys) && fresh(load)
    {
      keys, load := new K[BUCKETS](_ => key), new nat[BUCKETS](_ => 0);
      nextIdx, totalRecords, totalRecordedLoad := 0, 0, 0;
      lastDecayTime, decayTimeSeconds := now, decaySeconds;
      empty, events := key, [];
      new;
      assert keys[..] == Start(key).keys && load[..] == Start(key).load;
    }

    predicate DecayDue(now: nat)
      reads this
      requires now >= lastDecayTime
    {
      WholeSeconds(now - lastDecayTime) >= decayTimeSeconds
    }

    /** Halve all counters when the decay time has passed since the last decay. */
    method DecayByTime(now: nat)
      requires Valid() && now >= lastDecayTime
      modifies this, load
      ensures Valid()
      ensures events == old(events) + (if old(DecayDue(now)) then [Decay] else [])
      ensures lastDecayTime == if old(DecayDue(now)) then now else old(lastDecayTime)
    {
      if WholeSeconds(now - lastDecayTime) < decayTimeSeconds {
        return;
      }
      DecayedLast(empty, events);
      HalveAll();
      lastDecayTime := now;
      events := events + [Decay];
    }

    method HalveAll()
      requires InShape()
      modifies this`totalRecords, this`totalRecordedLoad, load
      ensures InShape()
      ensures Contents() == Decayed(old(Contents()))
    {
      totalRecords := totalRecords / 2;
      totalRecordedLoad := totalRecordedLoad / 2;
      for i := 0 to load.Length
        invariant forall j | 0 <= j < i :: load[j] == old(load[..])[j] / 2
        invariant forall j | i <= j < load.Length :: load[j] == old(load[..])[j]
        modifies load
      {
        load[i] := load[i] / 2;
      }
      assert load[..] == Halved(old(load[..]));
      assert keys[..] == old(keys[..]);
    }

    /** One pass over the buckets: the first with the key, and the first without load before it. */
    method FindBucket(key: K) returns (i: nat, firstEmpty: int)
      requires InShape()
      ensures i == Find(keys[..], key)
      ensures i == BUCKETS ==> firstEmpty == if FindEmpty(load[..]) < BUCKETS then FindEmpty(load[..]) else -1
    {
      i, firstEmpty := 0, -1;
      while i < BUCKETS
        invariant 0 <= i <= BUCKETS
        invariant forall j | 0 <= j < i :: keys[j] != key
        invariant firstEmpty == -1 ==> forall j | 0 <= j < i :: load[j] != 0
        invariant firstEmpty != -1 ==> 0 <= firstEmpty < i && load[firstEmpty] == 0
        invariant firstEmpty != -1 ==> forall j | 0 <= j < firstEmpty :: load[j] != 0
      {
        if key == keys[i] {
          return;
        }
        if firstEmpty == -1 && load[i] == 0 {
          firstEmpty := i;
        }
        i := i + 1;
      }
    }

    /** Record load for the key, after a decay if one is due. */
    method Record(key: K, amount: nat, now: nat)
      requires Valid() && now >= lastDecayTime
      modifies this, keys, load
      ensures Valid()
      ensures events == old(events) + (if old(DecayDue(now)) then [Decay] else []) + [Event.Record(key, amount)]
      ensures lastDecayTime == if old(DecayDue(now)) then now else old(lastDecayTime)
    {
      DecayByTime(now);
      ghost var more := events + [Event.Record(key, amount)];
      assert StateAfter(empty, more) == Recorded(Contents(), key, amount) by {
        RecordedLast(empty, events, key, amount);
      }
      AddToBucket(key, amount);
      events := more;
    }

    /** Put the pair into a bucket. */
    method AddToBucket(key: K, amount: nat)
      requires InShape()
      modifies this`nextIdx, this`totalRecords, this`totalRecordedLoad, keys, load
      ensures InShape()
      ensures Contents() == Recorded(old(Contents()), key, amount)
    {
      totalRecords := totalRecords + 1;
      totalRecordedLoad := totalRecordedLoad + amount;
      var i, firstEmpty := FindBucket(key);
      if i < BUCKETS {
        load[i] := load[i] + amount;
        assert load[..] == old(load[..])[i := old(load[..])[i] + amount];
        assert keys[..] == old(keys[..]);
      } else if firstEmpty != -1 {
        keys[firstEmpty] := key;
        load[firstEmpty] := amount;
        assert keys[..] == old(keys[..])[firstEmpty := key];
        assert load[..] == old(load[..])[firstEmpty := amount];
      } else {
        ReduceNext(key, amount);
      }
    }

    /** The key meets a full detector: reduce or replace the bucket whose turn it is. */
    method ReduceNext(key: K, amount: nat)
      requires InShape()
      modifies this`nextIdx, keys, load
      ensures InShape()
      ensures var (k, l) := Collide(key, amount, old(keys[nextIdx]), old(load[nextIdx]));
              keys[..] == old(keys[..][nextIdx := k]) && load[..] == old(load[..][nextIdx := l])
      ensures nextIdx == (old(nextIdx) + 1) % BUCKETS
    {
      if load[nextIdx] == amount {
        keys[nextIdx] := key;
      } else if load[nextIdx] > amount {
        load[nextIdx] := load[nextIdx] - amount;
      } else {
        keys[nextIdx] := key;
        load[nextIdx] := amount - load[nextIdx];
      }
      nextIdx := nextIdx + 1;
      if nextIdx >= BUCKETS {
        nextIdx := 0;
      }
    }

    method Above(key: K, percents: nat) returns (r: bool)
      requires Valid()
      ensures r <==> IsAbove(StateAfter(empty, events), key, percents)
    {
      if totalRecords < 50 {
        return false;
      }
      for i := 0 to BUCKETS
        invariant forall j | 0 <= j < i :: keys[j] != key
      {
        if keys[i] == key {
          assert Find(keys[..], key) == i;
          return Exceeds(load[i], Threshold(percents, totalRecordedLoad));
        }
      }
      assert Find(keys[..], key) == BUCKETS;
      return false;
    }

    method GetKeysAbove(percents: nat) returns (r: seq<K>)
      requires Valid()
      ensures r == KeysAbove(StateAfter(empty, events), percents)
    {
      r := CollectOver(keys[..], load[..], Threshold(percents, totalRecordedLoad));
    }
  }
}
