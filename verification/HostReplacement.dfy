/** remove_host, promote and add_host: replacing a host of a segment. */
module HostReplacement {
  import opened Layout
  import opened Options

  ghost predicate AllSound(written: seq<Config>)
  {
    forall w | w in written :: Sound(w)
  }

  lemma AllSoundGrows(written: seq<Config>, d: Config)
    requires AllSound(written) && Sound(d)
    ensures AllSound(written + [d])
  {
    forall w | w in written + [d] ensures Sound(w) {
      assert w in written || w == d;
    }
  }

  // ----- remove_host -----

  function RemoveHost(c: Config, h: Host): (r: Option<Config>)
    ensures r.None? <==> h !in c.hosts
    ensures r.Some? ==> forall g, s :: Hosts(r.value, g, s) <==> Hosts(c, g, s) && g != h
  {
    if h in c.hosts then Some(c.(hosts := c.hosts - {h})) else None
  }

  lemma RemoveHostKeeps(c: Config, h: Host)
    requires Sound(c) && h in c.hosts
    ensures var d := RemoveHost(c, h).value;
            && Sound(d) && d.numShards == c.numShards
            && (forall g, s :: IsMaster(d, g, s) <==> IsMaster(c, g, s) && g != h)
            && (forall g, s :: IsSlave(d, g, s) <==> IsSlave(c, g, s) && g != h)
  {
    var d := RemoveHost(c, h).value;
    assert forall g | g in d.hosts :: g in c.hosts && d.hosts[g] == c.hosts[g];
    forall g, k, s | Hosts(d, g, s) && Hosts(d, k, s) && g.zone == k.zone ensures g == k {
      assert Hosts(c, g, s) && Hosts(c, k, s);
    }
    forall g, k, s | IsMaster(d, g, s) && IsMaster(d, k, s) ensures g == k {
      assert IsMaster(c, g, s) && IsMaster(c, k, s);
    }
  }

  // ----- promote -----

  /** What one host's list does to the dictionary of masterless shards: a master pops its
      shard (a KeyError when it is gone already), a slave joins the list of its shard. */
  method ScanHost(h: Host, list: seq<Entry>, n: nat, before: map<nat, seq<Host>>)
      returns (r: Option<map<nat, seq<Host>>>)
    requires GoodList(list, n)
    ensures r.None? <==> exists e :: e in list && e.role == M && e.shard !in before
    ensures r.Some? ==> forall s :: s in r.value <==> s in before && Entry(s, M) !in list
    ensures r.Some? ==> forall s | s in r.value ::
              r.value[s] == before[s] + (if Entry(s, S) in list then [h] else [])
  {
    var d: map<nat, seq<Host>> := before;
    for i := 0 to |list|
      invariant forall e | e in list[..i] && e.role == M :: e.shard in before
      invariant forall s: nat :: s in d <==> s in before && Entry(s, M) !in list[..i]
      invariant forall s: nat | s in d :: d[s] == before[s] + (if Entry(s, S) in list[..i] then [h] else [])
    {
      var e := list[i];
      assert list[..i + 1] == list[..i] + [e];
      assert forall k | 0 <= k < i :: list[..i][k].shard != e.shard;
      if e.role == M {
        if e.shard !in d {
          assert e in list;
          return None;
        }
        d := d - {e.shard};
      } else if e.shard in d {
        d := d[e.shard := d[e.shard] + [h]];
      }
    }
    assert list[..|list|] == list;
    return Some(d);
  }

  ghost predicate NoMasterIn(c: Config, hosts: seq<Host>, s: nat)
  {
    forall k | 0 <= k < |hosts| :: !IsMaster(c, hosts[k], s)
  }

  /** The dictionary after the hosts in `hosts` were scanned. */
  ghost predicate Masterless(c: Config, hosts: seq<Host>, d: map<nat, seq<Host>>)
  {
    && (forall s: nat :: s in d <==> s < c.numShards && NoMasterIn(c, hosts, s))
    && (forall s | s in d :: d[s] == SlavesOf(c, hosts, s))
  }

  ghost predicate OneMasterIn(c: Config, hosts: seq<Host>)
  {
    forall i, j, s | 0 <= i < j < |hosts| && IsMaster(c, hosts[i], s) :: !IsMaster(c, hosts[j], s)
  }

  lemma ScanExtends(c: Config, hosts: seq<Host>, h: Host, d: map<nat, seq<Host>>, e: map<nat, seq<Host>>)
    requires h in c.hosts && Masterless(c, hosts, d)
    requires forall s :: s in e <==> s in d && Entry(s, M) !in c.hosts[h]
    requires forall s | s in e :: e[s] == d[s] + (if Entry(s, S) in c.hosts[h] then [h] else [])
    ensures Masterless(c, hosts + [h], e)
  {
    var both := hosts + [h];
    assert both[..|hosts|] == hosts;
    forall s: nat ensures NoMasterIn(c, both, s) <==> NoMasterIn(c, hosts, s) && !IsMaster(c, h, s) {
      if NoMasterIn(c, both, s) {
        forall k | 0 <= k < |hosts| ensures !IsMaster(c, hosts[k], s) {
          assert both[k] == hosts[k];
        }
        assert both[|hosts|] == h;
      }
    }
  }

  /** An empty list of slaves for every shard. */
  method EmptyLists(n: nat) returns (d: map<nat, seq<Host>>)
    ensures forall s: nat :: s in d <==> s < n
    ensures forall s | s in d :: d[s] == []
  {
    d := map[];
    for i := 0 to n
      invariant forall s: nat :: s in d <==> s < i
      invariant forall s | s in d :: d[s] == []
    {
      d := d[i := []];
    }
  }

  /** A scan that succeeds found no second master. */
  lemma StillOneMaster(c: Config, hosts: seq<Host>, h: Host, d: map<nat, seq<Host>>)
    requires h in c.hosts && Masterless(c, hosts, d) && OneMasterIn(c, hosts)
    requires !exists e :: e in c.hosts[h] && e.role == M && e.shard !in d
    ensures OneMasterIn(c, hosts + [h])
  {
    forall k, s | 0 <= k < |hosts| && IsMaster(c, hosts[k], s) ensures !IsMaster(c, h, s) {
      assert !NoMasterIn(c, hosts, s);
      assert Entry(s, M) in c.hosts[h] ==> s in d;
    }
  }

  lemma OneMasterEverywhere(c: Config, order: seq<Host>)
    requires Enumerates(order, c.hosts.Keys) && OneMasterIn(c, order)
    ensures AtMostOneMaster(c)
  {
    forall h, g, s | IsMaster(c, h, s) && IsMaster(c, g, s) ensures h == g {
      assert h in c.hosts.Keys && g in c.hosts.Keys;
      var i :| 0 <= i < |order| && order[i] == h;
      var j :| 0 <= j < |order| && order[j] == g;
    }
  }

  /** The dictionary of masterless shards and their slaves. The scan fails exactly when a
      shard has two masters. */
  method CollectMasterless(c: Config, order: seq<Host>) returns (r: Option<map<nat, seq<Host>>>)
    requires GoodLists(c) && Enumerates(order, c.hosts.Keys)
    ensures r.None? <==> !AtMostOneMaster(c)
    ensures r.Some? ==> Masterless(c, order, r.value)
  {
    var d := EmptyLists(c.numShards);
    for i := 0 to |order|
      invariant Masterless(c, order[..i], d)
      invariant OneMasterIn(c, order[..i])
    {
      var scanned := CollectHost(c, order, i, d);
      if scanned.None? {
        return None;
      }
      d := scanned.value;
    }
    assert order[..|order|] == order;
    OneMasterEverywhere(c, order);
    return Some(d);
  }

  /** One turn of the collecting loop. */
  method CollectHost(c: Config, order: seq<Host>, i: nat, d: map<nat, seq<Host>>)
      returns (r: Option<map<nat, seq<Host>>>)
    requires GoodLists(c) && Enumerates(order, c.hosts.Keys) && i < |order|
    requires Masterless(c, order[..i], d) && OneMasterIn(c, order[..i])
    ensures r.None? ==> !AtMostOneMaster(c)
    ensures r.Some? ==> Masterless(c, order[..i + 1], r.value) && OneMasterIn(c, order[..i + 1])
  {
    var h := order[i];
    assert h in c.hosts.Keys;
    assert order[..i + 1] == order[..i] + [h];
    r := ScanHost(h, c.hosts[h], c.numShards, d);
    if r.None? {
      TwoMasters(c, order, i, d);
    } else {
      ScanExtends(c, order[..i], h, d, r.value);
      StillOneMaster(c, order[..i], h, d);
    }
  }

  lemma TwoMasters(c: Config, order: seq<Host>, i: nat, d: map<nat, seq<Host>>)
    requires GoodLists(c) && Enumerates(order, c.hosts.Keys) && i < |order| && order[i] in c.hosts
    requires Masterless(c, order[..i], d)
    requires exists e :: e in c.hosts[order[i]] && e.role == M && e.shard !in d
    ensures !AtMostOneMaster(c)
  {
    var list := c.hosts[order[i]];
    var e :| e in list && e.role == M && e.shard !in d;
    assert GoodList(list, c.numShards);
    assert e.shard < c.numShards;
    assert !NoMasterIn(c, order[..i], e.shard);
    var k :| 0 <= k < i && IsMaster(c, order[..i][k], e.shard);
    assert IsMaster(c, order[i], e.shard) && IsMaster(c, order[k], e.shard);
  }

  /** The slave with the largest sequence number, the first of them on a tie. */
  method PickNewMaster(slaves: seq<Host>, seqNo: Host -> nat) returns (m: Host)
    requires slaves != []
    ensures exists k | 0 <= k < |slaves| ::
              && slaves[k] == m
              && (forall i | 0 <= i < k :: seqNo(slaves[i]) < seqNo(m))
              && (forall i | k <= i < |slaves| :: seqNo(slaves[i]) <= seqNo(m))
  {
    m := slaves[0];
    var largest := seqNo(m);
    ghost var k := 0;
    for i := 0 to |slaves|
      invariant largest == seqNo(m)
      invariant 0 <= k < |slaves| && slaves[k] == m
      invariant forall j | 0 <= j < k :: seqNo(slaves[j]) < largest
      invariant forall j | k <= j < i :: seqNo(slaves[j]) <= largest
      invariant k <= i
    {
      if slaves[i] != m {
        var n := seqNo(slaves[i]);
        if largest < n {
          largest, m, k := n, slaves[i], i;
        }
      }
    }
  }

  /** `m` leads the shard in `d`: it was a slave with the largest sequence number, and no
      other host is a master. */
  ghost predicate Leads(c: Config, d: Config, seqNo: (Host, nat) -> nat, s: nat, m: Host)
  {
    && IsSlave(c, m, s)
    && (forall h :: IsMaster(d, h, s) <==> h == m)
    && (forall h | IsSlave(c, h, s) :: seqNo(h, s) <= seqNo(m, s))
  }

  ghost predicate HasSlave(c: Config, s: nat)
  {
    exists h :: IsSlave(c, h, s)
  }

  ghost predicate SameMasters(c: Config, d: Config, s: nat)
  {
    forall h :: IsMaster(d, h, s) <==> IsMaster(c, h, s)
  }

  /** What promote does to one shard. */
  ghost predicate PromotedShard(c: Config, d: Config, seqNo: (Host, nat) -> nat, s: nat)
  {
    if HasMaster(c, s) || !HasSlave(c, s) then SameMasters(c, d, s)
    else exists m :: Leads(c, d, seqNo, s, m)
  }

  /** The replicas stay where they were, with one master per shard at most. */
  ghost predicate OnlyRolesChanged(c: Config, d: Config)
  {
    SameHosting(c, d) && GoodLists(d) && AtMostOneMaster(d)
  }

  /** The shards in `done` are promoted, the others have the masters they had. */
  ghost predicate PromotedSoFar(c: Config, d: Config, seqNo: (Host, nat) -> nat, done: set<nat>)
  {
    && OnlyRolesChanged(c, d)
    && (forall s | s in done :: PromotedShard(c, d, seqNo, s))
    && (forall s: nat | s !in done :: SameMasters(c, d, s))
  }

  /** On good lists the role of a replica is a slave exactly when it is not a master. */
  lemma SlaveOrMaster(c: Config, h: Host, s: nat)
    requires GoodLists(c)
    ensures IsSlave(c, h, s) <==> Hosts(c, h, s) && !IsMaster(c, h, s)
  {
    if IsSlave(c, h, s) && IsMaster(c, h, s) {
      GoodListEntry(c.hosts[h], c.numShards, Entry(s, S), Entry(s, M));
    }
  }

  lemma PromoteOne(c: Config, cur: Config, seqNo: (Host, nat) -> nat, done: set<nat>, s: nat, m: Host)
    requires GoodLists(c) && PromotedSoFar(c, cur, seqNo, done) && s !in done
    requires !HasMaster(c, s) && IsSlave(c, m, s)
    requires forall h | IsSlave(c, h, s) :: seqNo(h, s) <= seqNo(m, s)
    ensures IsSlave(cur, m, s)
    ensures PromotedSoFar(c, SetRole(cur, m, s, S, M), seqNo, done + {s})
  {
    SlaveOrMaster(c, m, s);
    SlaveOrMaster(cur, m, s);
    assert SameMasters(c, cur, s);
    assert Hosts(cur, m, s);
    var d := SetRole(cur, m, s, S, M);
    SetRoleMembers(cur, m, s, S, M);
    assert HasSlave(c, s);
    forall h ensures IsMaster(d, h, s) <==> h == m {
      assert !IsMaster(c, h, s);
    }
    assert Leads(c, d, seqNo, s, m);
    assert PromotedShard(c, d, seqNo, s);
    forall t | t in done ensures PromotedShard(c, d, seqNo, t) {
      PromotedKeeps(c, cur, d, seqNo, t);
    }
    assert forall t: nat | t !in done + {s} :: SameMasters(c, cur, t);
  }

  lemma PromotedKeeps(c: Config, cur: Config, d: Config, seqNo: (Host, nat) -> nat, t: nat)
    requires PromotedShard(c, cur, seqNo, t)
    requires forall h :: IsMaster(d, h, t) <==> IsMaster(cur, h, t)
    ensures PromotedShard(c, d, seqNo, t)
  {
    if !(HasMaster(c, t) || !HasSlave(c, t)) {
      var m :| Leads(c, cur, seqNo, t, m);
      assert Leads(c, d, seqNo, t, m);
    }
  }

  lemma PromoteSkips(c: Config, cur: Config, seqNo: (Host, nat) -> nat, done: set<nat>, s: nat)
    requires PromotedSoFar(c, cur, seqNo, done)
    requires HasMaster(c, s) || !HasSlave(c, s)
    ensures PromotedSoFar(c, cur, seqNo, done + {s})
  {
    assert s !in done ==> SameMasters(c, cur, s);
    assert PromotedShard(c, cur, seqNo, s);
  }

  /** The config that stands after the writes. */
  function LastOf(c: Config, written: seq<Config>): Config
  {
    if written == [] then c else written[|written| - 1]
  }

  /** promote: every shard that has a slave but no master gets the slave with the largest
      sequence number; nothing else changes, and no config written on the way has two masters
      of a shard. It fails before any write when a shard already has two. The dictionary
      orders of hosts and shards do not matter. */
  method Promote(c: Config, order: seq<Host>, shards: seq<nat>, seqNo: (Host, nat) -> nat)
      returns (r: Option<Config>, written: seq<Config>)
    requires GoodLists(c) && Enumerates(order, c.hosts.Keys)
    requires EnumeratesShards(shards, c.numShards)
    ensures r.None? <==> !AtMostOneMaster(c)
    ensures r.Some? ==> OnlyRolesChanged(c, r.value)
    ensures r.Some? ==> forall s: nat | s < c.numShards :: PromotedShard(c, r.value, seqNo, s)
    ensures forall w | w in written :: OnlyRolesChanged(c, w)
    ensures r.None? ==> written == []
    ensures r.Some? ==> LastOf(c, written) == r.value
  {
    written := [];
    var masterless := CollectMasterless(c, order);
    if masterless.None? {
      return None, [];
    }
    var cur := c;
    ghost var done: set<nat> := {};
    for i := 0 to |shards|
      invariant forall s: nat :: s in done <==> s in shards[..i]
      invariant PromotedSoFar(c, cur, seqNo, done)
      invariant forall w | w in written :: OnlyRolesChanged(c, w)
      invariant LastOf(c, written) == cur
    {
      var s := shards[i];
      assert s in shards;
      NotYet(shards, i);
      assert shards[..i + 1] == shards[..i] + [s];
      var promoted;
      cur, promoted := PromoteShard(c, order, masterless.value, cur, seqNo, s, done);
      if promoted {
        written := written + [cur];
      }
      done := done + {s};
    }
    assert shards[..|shards|] == shards;
    return Some(cur), written;
  }

  /** One turn of promote's loop over the masterless shards. */
  method PromoteShard(c: Config, ghost order: seq<Host>, slaves: map<nat, seq<Host>>, cur: Config,
                      seqNo: (Host, nat) -> nat, s: nat, ghost done: set<nat>)
      returns (d: Config, promoted: bool)
    requires GoodLists(c) && Enumerates(order, c.hosts.Keys) && Masterless(c, order, slaves)
    requires s < c.numShards && s !in done && PromotedSoFar(c, cur, seqNo, done)
    ensures PromotedSoFar(c, d, seqNo, done + {s})
    ensures promoted <==> !HasMaster(c, s) && HasSlave(c, s)
    ensures !promoted ==> d == cur
  {
    SlavesOfMembers(c, order, s);
    MasterlessMeans(c, order, slaves, s);
    promoted := s in slaves && slaves[s] != [];
    if promoted {
      var m := PickNewMaster(slaves[s], h => seqNo(h, s));
      PromoteOne(c, cur, seqNo, done, s, m);
      d := SetRole(cur, m, s, S, M);
    } else {
      PromoteSkips(c, cur, seqNo, done, s);
      d := cur;
    }
  }

  lemma NotYet(shards: seq<nat>, i: nat)
    requires i < |shards| && forall j, k | 0 <= j < k < |shards| :: shards[j] != shards[k]
    ensures shards[i] !in shards[..i]
  {
  }

  lemma AllSoundAfterPromote(c: Config, written: seq<Config>)
    requires AtMostOnePerZone(c) && forall w | w in written :: OnlyRolesChanged(c, w)
    ensures AllSound(written)
  {
    forall w | w in written ensures Sound(w) {
      assert OnlyRolesChanged(c, w);
    }
  }

  /** What the dictionary says about a shard in range. */
  lemma MasterlessMeans(c: Config, order: seq<Host>, d: map<nat, seq<Host>>, s: nat)
    requires Enumerates(order, c.hosts.Keys) && Masterless(c, order, d) && s < c.numShards
    requires forall h :: h in SlavesOf(c, order, s) <==> h in order && IsSlave(c, h, s)
    ensures s in d <==> !HasMaster(c, s)
    ensures s in d ==> (d[s] != [] <==> HasSlave(c, s))
    ensures s in d ==> forall h :: h in d[s] <==> IsSlave(c, h, s)
  {
    if HasMaster(c, s) {
      var h :| IsMaster(c, h, s);
      assert h in c.hosts.Keys;
      var k :| 0 <= k < |order| && order[k] == h;
      assert !NoMasterIn(c, order, s);
    } else {
      assert NoMasterIn(c, order, s);
    }
    forall h | IsSlave(c, h, s) ensures h in order {
      assert h in c.hosts.Keys;
    }
    if s in d && d[s] != [] {
      assert d[s][0] in d[s];
    }
  }

  // ----- add_host -----

  ghost predicate Ascending(shards: seq<nat>)
  {
    forall i, j | 0 <= i < j < |shards| :: shards[i] < shards[j]
  }

  lemma {:induction false} RemoveShard(shards: seq<nat>, s: nat)
    requires Ascending(shards)
    ensures Ascending(RemoveFirst(shards, s))
    ensures forall t :: t in RemoveFirst(shards, s) <==> t in shards && t != s
  {
    if shards != [] {
      var head, tail := shards[0], shards[1..];
      assert shards == [head] + tail;
      assert Ascending(tail) by {
        assert forall i | 0 <= i < |tail| :: tail[i] == shards[i + 1];
      }
      assert head !in tail;
      RemoveShard(tail, s);
      var rest := RemoveFirst(tail, s);
      forall i | 0 <= i < |rest| ensures head < rest[i] {
        assert rest[i] in tail;
      }
    }
  }

  /** Shards of a zone's hosts: what a prefix of the iteration has seen. */
  ghost predicate Seen(c: Config, hosts: seq<Host>, zone: string, s: nat)
  {
    exists k :: 0 <= k < |hosts| && hosts[k].zone == zone && Hosts(c, hosts[k], s)
  }

  /** No two of the hosts hold the same shard in the zone. */
  ghost predicate OncePerZone(c: Config, zone: string)
  {
    forall h, g, s | Hosts(c, h, s) && Hosts(c, g, s) && h.zone == zone && g.zone == zone :: h == g
  }

  /** Cross one host's shards off the list of missing ones; fails exactly when one of them is
      no longer there. */
  method CrossOff(list: seq<Entry>, n: nat, before: seq<nat>) returns (r: Option<seq<nat>>)
    requires GoodList(list, n) && Ascending(before)
    ensures r.None? <==> exists e :: e in list && e.shard !in before
    ensures r.Some? ==> Ascending(r.value)
    ensures r.Some? ==> forall s: nat :: s in r.value <==> s in before && !HasShard(list, s)
  {
    var shards := before;
    for i := 0 to |list|
      invariant Ascending(shards)
      invariant forall e | e in list[..i] :: e.shard in before
      invariant forall s: nat :: s in shards <==> s in before && !HasShard(list[..i], s)
    {
      var e := list[i];
      assert list[..i + 1] == list[..i] + [e];
      assert forall k | 0 <= k < i :: list[..i][k].shard != e.shard;
      assert !HasShard(list[..i], e.shard);
      if e.shard !in shards {
        assert e in list;
        return None;
      }
      RemoveShard(shards, e.shard);
      assert forall s: nat :: HasShard(list[..i + 1], s) <==> HasShard(list[..i], s) || s == e.shard by {
        EntryCases(e);
      }
      shards := RemoveFirst(shards, e.shard);
    }
    assert list[..|list|] == list;
    return Some(shards);
  }

  lemma SeenExtends(c: Config, hosts: seq<Host>, h: Host, zone: string, s: nat)
    ensures Seen(c, hosts + [h], zone, s) <==> Seen(c, hosts, zone, s) || (h.zone == zone && Hosts(c, h, s))
  {
    var both := hosts + [h];
    if Seen(c, hosts, zone, s) {
      var k :| 0 <= k < |hosts| && hosts[k].zone == zone && Hosts(c, hosts[k], s);
      assert both[k] == hosts[k];
    }
    assert both[|hosts|] == h;
  }

  /** Two hosts of the zone hold the same shard when a second one finds it crossed off. */
  lemma SeenTwice(c: Config, order: seq<Host>, i: nat, zone: string, shards: seq<nat>)
    requires GoodLists(c) && Enumerates(order, c.hosts.Keys) && i < |order| && order[i].zone == zone
    requires order[i] in c.hosts && LeftAfter(c, order[..i], zone, shards)
    requires exists e :: e in c.hosts[order[i]] && e.shard !in shards
    ensures !OncePerZone(c, zone)
  {
    var e :| e in c.hosts[order[i]] && e.shard !in shards;
    EntryCases(e);
    assert GoodList(c.hosts[order[i]], c.numShards);
    assert Seen(c, order[..i], zone, e.shard);
    var k :| 0 <= k < |order[..i]| && order[..i][k].zone == zone && Hosts(c, order[..i][k], e.shard);
    assert order[k] != order[i];
    assert Hosts(c, order[i], e.shard);
  }

  /** The shards left after the hosts in `hosts` were crossed off. */
  ghost predicate LeftAfter(c: Config, hosts: seq<Host>, zone: string, shards: seq<nat>)
  {
    Ascending(shards) && forall s: nat :: s in shards <==> s < c.numShards && !Seen(c, hosts, zone, s)
  }

  ghost predicate NoPair(c: Config, hosts: seq<Host>, zone: string)
  {
    forall j, k, s | 0 <= j < k < |hosts| && hosts[j].zone == zone && hosts[k].zone == zone &&
      Hosts(c, hosts[j], s) :: !Hosts(c, hosts[k], s)
  }

  lemma SkipHost(c: Config, hosts: seq<Host>, h: Host, zone: string, shards: seq<nat>)
    requires LeftAfter(c, hosts, zone, shards) && NoPair(c, hosts, zone) && h.zone != zone
    ensures LeftAfter(c, hosts + [h], zone, shards) && NoPair(c, hosts + [h], zone)
  {
    forall s: nat ensures Seen(c, hosts + [h], zone, s) <==> Seen(c, hosts, zone, s) {
      SeenExtends(c, hosts, h, zone, s);
    }
  }

  lemma CrossOffHost(c: Config, hosts: seq<Host>, h: Host, zone: string, shards: seq<nat>, left: seq<nat>)
    requires LeftAfter(c, hosts, zone, shards) && NoPair(c, hosts, zone) && h.zone == zone && h in c.hosts
    requires !exists e :: e in c.hosts[h] && e.shard !in shards
    requires Ascending(left) && forall s: nat :: s in left <==> s in shards && !HasShard(c.hosts[h], s)
    ensures LeftAfter(c, hosts + [h], zone, left) && NoPair(c, hosts + [h], zone)
  {
    forall s: nat ensures Seen(c, hosts + [h], zone, s) <==> Seen(c, hosts, zone, s) || Hosts(c, h, s) {
      SeenExtends(c, hosts, h, zone, s);
    }
    forall j, s | 0 <= j < |hosts| && hosts[j].zone == zone && Hosts(c, hosts[j], s) ensures !Hosts(c, h, s) {
      assert Seen(c, hosts, zone, s);
      assert Entry(s, M) in c.hosts[h] ==> Entry(s, M).shard in shards;
      assert Entry(s, S) in c.hosts[h] ==> Entry(s, S).shard in shards;
    }
  }

  /** Every shard number, ascending. */
  method AllShards(n: nat) returns (shards: seq<nat>)
    ensures Ascending(shards)
    ensures forall s: nat :: s in shards <==> s < n
  {
    shards := [];
    for i := 0 to n
      invariant Ascending(shards)
      invariant forall s: nat :: s in shards <==> s < i
    {
      assert forall k | 0 <= k < |shards| :: shards[k] in shards;
      shards := shards + [i];
    }
  }

  /** The shards the zone lacks, ascending; fails exactly when the zone holds one twice. */
  method MissingShards(c: Config, order: seq<Host>, zone: string) returns (r: Option<seq<nat>>)
    requires GoodLists(c) && Enumerates(order, c.hosts.Keys)
    ensures r.None? <==> !OncePerZone(c, zone)
    ensures r.Some? ==> Ascending(r.value)
    ensures r.Some? ==> forall s: nat :: s in r.value <==> s < c.numShards && !InZone(c, zone, s)
  {
    var shards := AllShards(c.numShards);
    for i := 0 to |order|
      invariant LeftAfter(c, order[..i], zone, shards) && NoPair(c, order[..i], zone)
    {
      var h := order[i];
      assert h in c.hosts.Keys;
      assert order[..i + 1] == order[..i] + [h];
      if h.zone != zone {
        SkipHost(c, order[..i], h, zone, shards);
      } else {
        var crossed := CrossOff(c.hosts[h], c.numShards, shards);
        if crossed.None? {
          SeenTwice(c, order, i, zone, shards);
          return None;
        }
        CrossOffHost(c, order[..i], h, zone, shards, crossed.value);
        shards := crossed.value;
      }
    }
    assert order[..|order|] == order;
    OnceWhenNoPair(c, order, zone);
    forall s: nat ensures Seen(c, order, zone, s) <==> InZone(c, zone, s) {
      SeenMeansInZone(c, order, zone, s);
    }
    return Some(shards);
  }

  lemma OnceWhenNoPair(c: Config, order: seq<Host>, zone: string)
    requires Enumerates(order, c.hosts.Keys) && NoPair(c, order, zone)
    ensures OncePerZone(c, zone)
  {
    forall h, g, s | Hosts(c, h, s) && Hosts(c, g, s) && h.zone == zone && g.zone == zone ensures h == g {
      assert h in c.hosts.Keys && g in c.hosts.Keys;
      var j :| 0 <= j < |order| && order[j] == h;
      var k :| 0 <= k < |order| && order[k] == g;
    }
  }

  lemma SeenMeansInZone(c: Config, order: seq<Host>, zone: string, s: nat)
    requires Enumerates(order, c.hosts.Keys)
    ensures Seen(c, order, zone, s) <==> InZone(c, zone, s)
  {
    if InZone(c, zone, s) {
      var h :| Hosts(c, h, s) && h.zone == zone;
      assert h in c.hosts.Keys;
      var k :| 0 <= k < |order| && order[k] == h;
    }
  }

  /** setdefault(host, []).append(shard + ":S") */
  function AppendSlave(c: Config, h: Host, s: nat): Config
  {
    c.(hosts := c.hosts[h := (if h in c.hosts then c.hosts[h] else []) + [Entry(s, S)]])
  }

  /** The host gained the shards in `added` as slave; nothing else changed. */
  ghost predicate Gained(c: Config, d: Config, h: Host, added: seq<nat>)
  {
    && d.numShards == c.numShards
    && d.hosts.Keys == c.hosts.Keys + (if added == [] then {} else {h})
    && (forall g, s :: Hosts(d, g, s) <==> Hosts(c, g, s) || (g == h && s in added))
    && (forall g, s :: IsMaster(d, g, s) <==> IsMaster(c, g, s))
  }

  /** The host took exactly the shards that its zone lacked. */
  ghost predicate Joined(c: Config, d: Config, h: Host)
  {
    exists added: seq<nat> ::
      && Gained(c, d, h, added)
      && (forall s: nat :: s in added <==> s < c.numShards && !InZone(c, h.zone, s))
  }

  lemma AppendSlaveGains(c: Config, d: Config, h: Host, added: seq<nat>, s: nat)
    requires Gained(c, d, h, added)
    ensures Gained(c, AppendSlave(d, h, s), h, added + [s])
  {
    var e := AppendSlave(d, h, s);
    var list := if h in d.hosts then d.hosts[h] else [];
    assert forall x :: x in e.hosts[h] <==> x in list || x == Entry(s, S);
    assert forall g, t :: Hosts(e, g, t) <==> Hosts(d, g, t) || (g == h && t == s);
    assert forall t :: t in added + [s] <==> t in added || t == s;
  }

  lemma AppendSlaveKeeps(d: Config, h: Host, s: nat)
    requires Sound(d) && s < d.numShards && !InZone(d, h.zone, s)
    ensures Sound(AppendSlave(d, h, s))
  {
    var e := AppendSlave(d, h, s);
    var list := if h in d.hosts then d.hosts[h] else [];
    assert forall x :: x in e.hosts[h] <==> x in list || x == Entry(s, S);
    assert !Hosts(d, h, s);
    forall i | 0 <= i < |list| ensures list[i].shard != s && list[i].shard < d.numShards {
      EntryCases(list[i]);
      assert list[i] in d.hosts[h];
      assert GoodList(d.hosts[h], d.numShards);
    }
    assert GoodList(e.hosts[h], e.numShards);
    assert forall g, t :: IsMaster(e, g, t) <==> IsMaster(d, g, t);
    assert forall g, t :: Hosts(e, g, t) <==> Hosts(d, g, t) || (g == h && t == s);
  }

  /** add_host: the host takes, as a slave, every shard its zone lacks. It fails before any
      write when the zone holds a shard twice, and stops at the first missing shard that has
      no master. A sound config stays sound at every write. */
  method AddHost(c: Config, order: seq<Host>, h: Host) returns (ok: bool, d: Config, written: seq<Config>)
    requires GoodLists(c) && Enumerates(order, c.hosts.Keys)
    ensures ok <==> && OncePerZone(c, h.zone)
                    && forall s: nat | s < c.numShards && !InZone(c, h.zone, s) :: HasMaster(c, s)
    ensures ok ==> Joined(c, d, h)
    ensures LastOf(c, written) == d
    ensures !OncePerZone(c, h.zone) ==> d == c && written == []
    ensures Sound(c) ==> Sound(d) && AllSound(written)
  {
    var missing := MissingShards(c, order, h.zone);
    if missing.None? {
      return false, c, [];
    }
    ok, d, written := RestoreShards(c, order, h, missing.value);
  }

  /** The loop of add_host over the missing shards. */
  method RestoreShards(c: Config, order: seq<Host>, h: Host, mine: seq<nat>)
      returns (ok: bool, d: Config, written: seq<Config>)
    requires Enumerates(order, c.hosts.Keys) && Ascending(mine)
    requires forall s | s in mine :: s < c.numShards && !InZone(c, h.zone, s)
    ensures ok <==> forall s | s in mine :: HasMaster(c, s)
    ensures ok ==> Gained(c, d, h, mine) && |written| == |mine|
    ensures LastOf(c, written) == d
    ensures Sound(c) ==> Sound(d) && AllSound(written)
  {
    ok, d, written := true, c, [];
    for i := 0 to |mine|
      invariant Gained(c, d, h, mine[..i]) && |written| == i && LastOf(c, written) == d
      invariant forall s | s in mine[..i] :: HasMaster(c, s)
      invariant Sound(c) ==> Sound(d) && AllSound(written)
    {
      assert mine[i] in mine;
      NotYet(mine, i);
      ok, d, written := RestoreShard(c, order, h, mine[i], d, mine[..i], written);
      if !ok {
        return;
      }
      assert mine[..i + 1] == mine[..i] + [mine[i]];
    }
    assert mine[..|mine|] == mine;
  }

  /** One shard: without a master to copy it from the host gains nothing. */
  method RestoreShard(c: Config, order: seq<Host>, h: Host, s: nat, d0: Config, ghost added: seq<nat>,
                      written0: seq<Config>) returns (ok: bool, d: Config, written: seq<Config>)
    requires Enumerates(order, c.hosts.Keys) && s < c.numShards && !InZone(c, h.zone, s)
    requires Gained(c, d0, h, added) && s !in added && (Sound(c) ==> Sound(d0) && AllSound(written0))
    ensures ok <==> HasMaster(c, s)
    ensures ok ==> Gained(c, d, h, added + [s])
    ensures if ok then written == written0 + [d] else d == d0 && written == written0
    ensures Sound(c) ==> Sound(d) && AllSound(written)
  {
    var master := FindMaster(c, order, s);
    if master.None? {
      return false, d0, written0;
    }
    RestoreKeeps(c, d0, h, added, s, written0);
    d := AppendSlave(d0, h, s);
    ok, written := true, written0 + [d];
  }

  /** One turn of the loop: the host gains one more shard, and sound configs stay sound. */
  lemma RestoreKeeps(c: Config, d: Config, h: Host, added: seq<nat>, s: nat, written: seq<Config>)
    requires Gained(c, d, h, added) && s < c.numShards && s !in added && !InZone(c, h.zone, s)
    requires Sound(c) ==> Sound(d) && AllSound(written)
    ensures Gained(c, AppendSlave(d, h, s), h, added + [s])
    ensures Sound(c) ==> Sound(AppendSlave(d, h, s)) && AllSound(written + [AppendSlave(d, h, s)])
  {
    StillMissing(c, d, h, added, s);
    AppendSlaveGains(c, d, h, added, s);
    if Sound(c) {
      AppendSlaveKeeps(d, h, s);
      AllSoundGrows(written, AppendSlave(d, h, s));
    }
  }

  lemma StillMissing(c: Config, d: Config, h: Host, added: seq<nat>, s: nat)
    requires Gained(c, d, h, added) && s !in added && !InZone(c, h.zone, s)
    ensures !InZone(d, h.zone, s)
  {
    forall g | Hosts(d, g, s) ensures g.zone != h.zone {
      assert Hosts(c, g, s);
    }
  }

  // ----- the workflow -----

  /** A zone other than a given one. */
  lemma AnotherZone(zones: set<string>, z: string) returns (other: string)
    requires |zones| > 1
    ensures other in zones && other != z
  {
    if zones - {z} == {} {
      assert zones <= {z};
      SubsetSize(zones, {z});
    }
    other :| other in zones - {z};
  }

  lemma {:induction false} SubsetSize<T>(a: set<T>, b: set<T>)
    requires a <= b
    ensures |a| <= |b|
  {
    if a != {} {
      var x :| x in a;
      SubsetSize(a - {x}, b - {x});
    }
  }

  /** After a host is gone, every shard still has a replica in another zone. */
  lemma ReplicaElsewhere(c: Config, zones: set<string>, gone: Host, s: nat) returns (h: Host)
    requires Complete(c, zones) && s < c.numShards
    ensures Hosts(c, h, s) && h != gone
  {
    var z := AnotherZone(zones, gone.zone);
    assert InZone(c, z, s);
    h :| Hosts(c, h, s) && h.zone == z;
  }

  /** promote gives every shard of a shrunken complete layout one master. */
  lemma PromoteCompletes(c: Config, zones: set<string>, gone: Host, d: Config, seqNo: (Host, nat) -> nat, s: nat)
    requires Complete(c, zones) && gone in c.hosts && s < c.numShards
    requires PromotedShard(RemoveHost(c, gone).value, d, seqNo, s)
    ensures HasMaster(d, s)
  {
    var rest := RemoveHost(c, gone).value;
    RemoveHostKeeps(c, gone);
    var h := ReplicaElsewhere(c, zones, gone, s);
    SlaveOrMaster(rest, h, s);
    if HasMaster(rest, s) {
      var m :| IsMaster(rest, m, s);
      assert IsMaster(d, m, s);
    } else {
      assert IsSlave(rest, h, s);
      var m :| Leads(rest, d, seqNo, s, m);
      assert IsMaster(d, m, s);
    }
  }

  /** add_host in the zone that lost a host completes the layout. */
  lemma AddCompletes(c: Config, zones: set<string>, gone: Host, p: Config, d: Config, h: Host)
    requires Complete(c, zones) && gone in c.hosts && h.zone == gone.zone
    requires SameHosting(RemoveHost(c, gone).value, p) && Sound(d)
    requires forall s: nat | s < c.numShards :: HasMaster(p, s)
    requires Joined(p, d, h)
    ensures Complete(d, zones)
    ensures d.numShards == c.numShards && d.hosts.Keys <= c.hosts.Keys - {gone} + {h}
    ensures forall g: Host, s | g.zone != h.zone :: Hosts(d, g, s) <==> Hosts(c, g, s)
  {
    var added: seq<nat> :| Gained(p, d, h, added) &&
      forall s: nat :: s in added <==> s < c.numShards && !InZone(p, h.zone, s);
    forall z, s: nat | z in zones && s < d.numShards ensures InZone(d, z, s) {
      if s in added && z == h.zone {
        assert Hosts(d, h, s);
      } else {
        assert InZone(c, z, s);
        var g :| Hosts(c, g, s) && g.zone == z;
        if z == h.zone {
          assert InZone(p, z, s);
          var k :| Hosts(p, k, s) && k.zone == z;
          assert Hosts(d, k, s);
        } else {
          assert Hosts(p, g, s);
          assert Hosts(d, g, s);
        }
      }
    }
    forall s: nat | s < d.numShards ensures HasMaster(d, s) {
      assert HasMaster(p, s);
      var m :| IsMaster(p, m, s);
      assert IsMaster(d, m, s);
    }
    forall g | g in d.hosts ensures g.zone in zones {
      assert g in d.hosts.Keys;
      assert g in p.hosts.Keys || g == h;
    }
  }

  /** Replacing a host: remove it, promote the shards it led, and add a host in its zone. From
      any complete layout this ends in a complete layout, whatever the dictionary orders and
      the slaves' sequence numbers, and every config written on the way is sound. */
  method ReplaceHost(c: Config, zones: set<string>, gone: Host, h: Host, order: seq<Host>, shards: seq<nat>,
                     order': seq<Host>, seqNo: (Host, nat) -> nat)
      returns (d: Config, written: seq<Config>)
    requires Complete(c, zones) && gone in c.hosts && h.zone == gone.zone
    requires Enumerates(order, c.hosts.Keys - {gone}) && Enumerates(order', c.hosts.Keys - {gone})
    requires EnumeratesShards(shards, c.numShards)
    ensures Complete(d, zones)
    ensures d.numShards == c.numShards && d.hosts.Keys <= c.hosts.Keys - {gone} + {h}
    ensures forall g: Host, s | g.zone != h.zone :: Hosts(d, g, s) <==> Hosts(c, g, s)
    ensures AllSound(written) && LastOf(c, written) == d
  {
    RemoveHostKeeps(c, gone);
    var removed := RemoveHost(c, gone).value;
    assert removed.hosts.Keys == c.hosts.Keys - {gone};
    var promoted, written1 := Promote(removed, order, shards, seqNo);
    forall s: nat | s < c.numShards ensures HasMaster(promoted.value, s) {
      PromoteCompletes(c, zones, gone, promoted.value, seqNo, s);
    }
    AllSoundAfterPromote(removed, written1);
    assert Sound(promoted.value);
    var ok, added, written2 := AddHost(promoted.value, order', h);
    AddCompletes(c, zones, gone, promoted.value, added, h);
    d, written := added, [removed] + written1 + written2;
  }
}
