/** config: the first placement of a segment over the hosts of several zones. */
module InitialLayout {
  import opened Layout
  import opened Options

  function MastersPerZone(n: nat, zones: nat): (m: nat)
    requires zones > 0
    ensures m >= 1
  {
    if n / zones > 1 then n / zones else 1
  }

  /** The zone at this place in the iteration leads the shard. */
  predicate LeadsShard(n: nat, zones: nat, zone: nat, s: nat)
    requires zones > 0
  {
    var begin := zone * MastersPerZone(n, zones);
    begin <= s < (if zone == zones - 1 then n else begin + MastersPerZone(n, zones))
  }

  lemma DivBounds(s: nat, m: nat)
    requires m > 0
    ensures (s / m) * m <= s < (s / m) * m + m
  {
  }

  lemma MulMonotone(a: nat, b: nat, m: nat)
    requires a <= b
    ensures a * m <= b * m
  {
  }

  lemma ZonesApart(n: nat, zones: nat, y: nat, z: nat, s: nat)
    requires y < z < zones
    ensures !(LeadsShard(n, zones, y, s) && LeadsShard(n, zones, z, s))
  {
    var m := MastersPerZone(n, zones);
    MulMonotone(y + 1, z, m);
    assert (y + 1) * m == y * m + m;
  }

  /** Every shard is led by exactly one zone, for every number of shards and zones. */
  lemma OneLeadingZone(n: nat, zones: nat, s: nat) returns (zone: nat)
    requires zones > 0 && s < n
    ensures zone < zones && LeadsShard(n, zones, zone, s)
    ensures forall z: nat | z < zones && LeadsShard(n, zones, z, s) :: z == zone
  {
    var m := MastersPerZone(n, zones);
    DivBounds(s, m);
    zone := if s / m < zones - 1 then s / m else zones - 1;
    MulMonotone(zone, s / m, m);
    forall z: nat | z < zone ensures !LeadsShard(n, zones, z, s) {
      ZonesApart(n, zones, z, zone, s);
    }
    forall z: nat | zone < z < zones ensures !LeadsShard(n, zones, z, s) {
      ZonesApart(n, zones, zone, z, s);
    }
  }

  /** What a zone leads: with no more shards than zones one shard or none, otherwise its share of
      consecutive shards, rounded down, and the last zone what is left. */
  lemma ZoneShare(n: nat, zones: nat, zone: nat) returns (from: nat, to: nat)
    requires zone < zones
    ensures from <= to <= n && forall s: nat | s < n :: LeadsShard(n, zones, zone, s) <==> from <= s < to
    ensures n <= zones ==> to - from == if zone < n then 1 else 0
    ensures zones <= n && zone < zones - 1 ==> (to - from) * zones <= n < (to - from + 1) * zones
    ensures zones <= n && zone == zones - 1 ==> to == n && (to - from) * zones >= n
  {
    var m := MastersPerZone(n, zones);
    DivBounds(n, zones);
    ShareFits(n, zones, zone);
    from := if zone * m < n then zone * m else n;
    to := if zone == zones - 1 then n else if zone * m + m < n then zone * m + m else n;
  }

  lemma ShareFits(n: nat, zones: nat, zone: nat)
    requires zone < zones
    ensures var m := MastersPerZone(n, zones);
            && (n <= zones ==> m == 1)
            && (zones <= n ==> m == n / zones && m * zones <= n && zone * m + m <= n)
            && (zones <= n && zone == zones - 1 ==> (n - zone * m) * zones >= n)
  {
    var m := MastersPerZone(n, zones);
    DivBounds(n, zones);
    if n < zones {
      if n / zones >= 1 {
        MulMonotone(1, n / zones, zones);
        assert false;
      }
    } else {
      assert n / zones >= 1;
      MulMonotone(zone + 1, zones, m);
      assert (zone + 1) * m == zone * m + m && zones * m == m * zones;
      if zone == zones - 1 {
        LastGetsTheRest(n, zones, m);
      }
      if n == zones {
        assert m * zones <= zones;
        if m >= 2 {
          MulMonotone(2, m, zones);
          assert false;
        }
      }
    }
  }

  lemma LastGetsTheRest(n: nat, zones: nat, m: nat)
    requires zones > 0 && m * zones <= n
    ensures (n - (zones - 1) * m) * zones >= n
  {
    var others := zones - 1;
    assert (others * m) * zones == others * (m * zones);
    MulMonotone(m * zones, n, others);
    assert others * n == zones * n - n;
    assert (n - others * m) * zones == n * zones - (others * m) * zones;
    assert others * (m * zones) == (m * zones) * others && n * others == others * n;
  }

  /** The shard list of a zone before it is shuffled. */
  method ZoneShards(n: nat, zones: nat, zone: nat) returns (shards: seq<Entry>)
    requires zones > 0
    ensures GoodList(shards, n) && |shards| == n
    ensures forall e :: e in shards <==> e.shard < n && (e.role == M <==> LeadsShard(n, zones, zone, e.shard))
  {
    shards := [];
    for i := 0 to n
      invariant GoodList(shards, i) && |shards| == i
      invariant forall e :: e in shards <==> e.shard < i && (e.role == M <==> LeadsShard(n, zones, zone, e.shard))
    {
      var e := Entry(i, if LeadsShard(n, zones, zone, i) then M else S);
      forall d: Entry | d.shard == i && (d.role == M <==> LeadsShard(n, zones, zone, i)) ensures d == e {
        EntryCases(d);
      }
      shards := shards + [e];
    }
  }

  lemma {:induction false} GoodListCounts(list: seq<Entry>, n: nat, e: Entry)
    requires GoodList(list, n)
    ensures multiset(list)[e] <= 1
  {
    if list != [] {
      var init, last := list[..|list| - 1], list[|list| - 1];
      assert list == init + [last];
      GoodListCounts(init, n, e);
      assert last !in init;
      assert multiset(list) == multiset(init) + multiset{last};
    }
  }

  lemma CountsTwice(list: seq<Entry>, i: nat, j: nat)
    requires i < j < |list| && list[i] == list[j]
    ensures multiset(list)[list[i]] >= 2
  {
    assert list == list[..j] + [list[j]] + list[j + 1..];
    assert list[i] in list[..j];
    assert multiset(list) == multiset(list[..j]) + multiset{list[j]} + multiset(list[j + 1..]);
  }

  /** A shuffle of a good list is a good list with the same members. */
  lemma ShuffleKeeps(list: seq<Entry>, shuffled: seq<Entry>, n: nat)
    requires GoodList(list, n) && multiset(shuffled) == multiset(list)
    ensures GoodList(shuffled, n)
    ensures forall e :: e in shuffled <==> e in list
  {
    forall e ensures e in shuffled <==> e in list {
      assert e in multiset(shuffled) <==> e in multiset(list);
    }
    forall i | 0 <= i < |shuffled| ensures shuffled[i].shard < n {
      assert shuffled[i] in list;
    }
    forall i, j | 0 <= i < j < |shuffled| ensures shuffled[i].shard != shuffled[j].shard {
      if shuffled[i].shard == shuffled[j].shard {
        assert shuffled[i] in list && shuffled[j] in list;
        GoodListEntry(list, n, shuffled[i], shuffled[j]);
        CountsTwice(shuffled, i, j);
        GoodListCounts(list, n, shuffled[i]);
      }
    }
  }

  /** The index of the host whose turn it is after `k` entries. */
  function Turn(k: nat, hosts: nat): (r: nat)
    requires hosts > 0
    ensures r < hosts
  {
    k % hosts
  }

  lemma NextTurn(k: nat, hosts: nat)
    requires hosts > 0
    ensures (Turn(k, hosts) + 1) % hosts == Turn(k + 1, hosts)
  {
    var q, r := k / hosts, k % hosts;
    assert k + 1 == q * hosts + (r + 1);
    if r + 1 < hosts {
      ModUnique(k + 1, hosts, q, r + 1);
      ModUnique(r + 1, hosts, 0, r + 1);
    } else {
      assert k + 1 == (q + 1) * hosts;
      ModUnique(k + 1, hosts, q + 1, 0);
      ModUnique(r + 1, hosts, 1, 0);
    }
  }

  lemma ModUnique(a: nat, m: nat, q: nat, r: nat)
    requires m > 0 && a == q * m + r && r < m
    ensures a % m == r
  {
    var p := a / m;
    assert a == p * m + a % m;
    if p < q {
      MulMonotone(p + 1, q, m);
      assert false;
    } else if q < p {
      MulMonotone(q + 1, p, m);
      assert false;
    }
  }

  /** The first `k` entries of the shuffled list are dealt, one host after the other. */
  ghost predicate Dealt(c: Config, hosts: seq<Host>, shuffled: seq<Entry>, k: nat)
    requires hosts != [] && k <= |shuffled|
  {
    && (forall i | 0 <= i < |hosts| :: hosts[i] in c.hosts)
    && (forall i | 0 <= i < |hosts| :: GoodList(c.hosts[hosts[i]], c.numShards))
    && (forall i, e | 0 <= i < |hosts| && e in c.hosts[hosts[i]] :: e in shuffled[..k])
    && (forall i | 0 <= i < k :: shuffled[i] in c.hosts[hosts[Turn(i, |hosts|)]])
    && (forall i, j, s | 0 <= i < |hosts| && 0 <= j < |hosts| && Hosts(c, hosts[i], s) && Hosts(c, hosts[j], s) ::
          hosts[i] == hosts[j])
  }

  function Append(c: Config, h: Host, e: Entry): Config
    requires h in c.hosts
  {
    c.(hosts := c.hosts[h := c.hosts[h] + [e]])
  }

  lemma DealOne(c: Config, hosts: seq<Host>, shuffled: seq<Entry>, k: nat)
    requires hosts != [] && k < |shuffled| && Dealt(c, hosts, shuffled, k) && GoodList(shuffled, c.numShards)
    requires hosts[Turn(k, |hosts|)] in c.hosts
    ensures Dealt(Append(c, hosts[Turn(k, |hosts|)], shuffled[k]), hosts, shuffled, k + 1)
  {
    var e, h := shuffled[k], hosts[Turn(k, |hosts|)];
    var d := Append(c, h, e);
    assert shuffled[..k + 1] == shuffled[..k] + [e];
    assert forall i | 0 <= i < k :: shuffled[..k][i].shard != e.shard;
    assert forall x :: x in d.hosts[h] <==> x in c.hosts[h] || x == e;
    forall i | 0 <= i < |hosts| ensures !Hosts(c, hosts[i], e.shard) {
      assert Entry(e.shard, M) !in shuffled[..k] && Entry(e.shard, S) !in shuffled[..k];
    }
    forall i, s | 0 <= i < |hosts|
      ensures Hosts(d, hosts[i], s) <==> Hosts(c, hosts[i], s) || (hosts[i] == h && s == e.shard)
    {
      EntryCases(e);
    }
    assert GoodList(d.hosts[h], d.numShards) by {
      forall i | 0 <= i < |c.hosts[h]| ensures c.hosts[h][i].shard != e.shard {
        EntryCases(c.hosts[h][i]);
        assert c.hosts[h][i] in c.hosts[h];
      }
    }
  }

  ghost predicate DistinctHosts(hosts: seq<Host>)
  {
    forall i, j | 0 <= i < j < |hosts| :: hosts[i] != hosts[j]
  }

  /** After `rounds` rounds and so many turns the first hosts have one entry more than the others. */
  ghost predicate InRounds(c: Config, hosts: seq<Host>, rounds: nat, turns: nat)
  {
    forall i | 0 <= i < |hosts| ::
      hosts[i] in c.hosts && |c.hosts[hosts[i]]| == rounds + if i < turns then 1 else 0
  }

  lemma NextInRound(c: Config, hosts: seq<Host>, rounds: nat, turns: nat, e: Entry)
    requires DistinctHosts(hosts) && turns < |hosts| && InRounds(c, hosts, rounds, turns)
    ensures InRounds(Append(c, hosts[turns], e), hosts, rounds, turns + 1)
    ensures turns + 1 == |hosts| ==> InRounds(Append(c, hosts[turns], e), hosts, rounds + 1, 0)
  {
  }

  /** Deal a zone's shuffled shards to its hosts in turn, so that no host gets two
      more than another. */
  method DealZone(c: Config, hosts: seq<Host>, shuffled: seq<Entry>) returns (d: Config)
    requires hosts != [] && GoodList(shuffled, c.numShards)
    requires forall i | 0 <= i < |hosts| :: hosts[i] in c.hosts && c.hosts[hosts[i]] == []
    ensures Dealt(d, hosts, shuffled, |shuffled|)
    ensures d.numShards == c.numShards && d.hosts.Keys == c.hosts.Keys
    ensures forall h | h in c.hosts && h !in hosts :: d.hosts[h] == c.hosts[h]
    ensures DistinctHosts(hosts) ==> Even(d, hosts)
  {
    d := c;
    var current := 0;
    ghost var rounds := 0;
    for k := 0 to |shuffled|
      invariant current == Turn(k, |hosts|)
      invariant d.numShards == c.numShards && d.hosts.Keys == c.hosts.Keys
      invariant forall h | h in c.hosts && h !in hosts :: d.hosts[h] == c.hosts[h]
      invariant Dealt(d, hosts, shuffled, k)
      invariant DistinctHosts(hosts) ==> InRounds(d, hosts, rounds, current)
    {
      var h := hosts[current];
      DealOne(d, hosts, shuffled, k);
      NextTurn(k, |hosts|);
      rounds := RoundGoesOn(d, hosts, rounds, current, shuffled[k]);
      d := Append(d, h, shuffled[k]);
      current := (current + 1) % |hosts|;
    }
    if DistinctHosts(hosts) {
      RoundsAreEven(d, hosts, rounds, current);
    }
  }

  lemma NextRound(hosts: nat, rounds: nat, turns: nat) returns (next: nat)
    requires turns < hosts
    ensures if turns + 1 < hosts then next == rounds && (turns + 1) % hosts == turns + 1
            else next == rounds + 1 && (turns + 1) % hosts == 0
  {
    if turns + 1 < hosts {
      next := rounds;
      ModUnique(turns + 1, hosts, 0, turns + 1);
    } else {
      next := rounds + 1;
      ModUnique(turns + 1, hosts, 1, 0);
    }
  }

  lemma RoundGoesOn(c: Config, hosts: seq<Host>, rounds: nat, turns: nat, e: Entry) returns (next: nat)
    requires turns < |hosts| && hosts[turns] in c.hosts
    requires DistinctHosts(hosts) ==> InRounds(c, hosts, rounds, turns)
    ensures DistinctHosts(hosts) ==> InRounds(Append(c, hosts[turns], e), hosts, next, (turns + 1) % |hosts|)
  {
    next := NextRound(|hosts|, rounds, turns);
    if DistinctHosts(hosts) {
      NextInRound(c, hosts, rounds, turns, e);
    }
  }

  /** The hosts differ by one entry at most. */
  ghost predicate Even(c: Config, hosts: seq<Host>)
  {
    forall g, h | g in hosts && h in hosts ::
      g in c.hosts && h in c.hosts && |c.hosts[g]| <= |c.hosts[h]| + 1
  }

  lemma RoundsAreEven(c: Config, hosts: seq<Host>, rounds: nat, turns: nat)
    requires InRounds(c, hosts, rounds, turns)
    ensures Even(c, hosts)
  {
  }

  /** The hosts of a zone, in file order. */
  function HostsIn(hosts: seq<Host>, zone: string): (r: seq<Host>)
    ensures forall h :: h in r <==> h in hosts && h.zone == zone
  {
    if hosts == [] then []
    else
      var rest := HostsIn(hosts[1..], zone);
      if hosts[0].zone == zone then [hosts[0]] + rest else rest
  }

  /** The shards of the first `k` zones are placed, the other hosts are still empty. */
  ghost predicate Placed(c: Config, hosts: seq<Host>, zones: seq<string>, k: nat)
    requires k <= |zones|
  {
    && (forall h :: h in c.hosts <==> h in hosts)
    && (forall h | h in c.hosts && h.zone !in zones[..k] :: c.hosts[h] == [])
    && (forall h | h in c.hosts :: GoodList(c.hosts[h], c.numShards))
    && (forall h, g, s | Hosts(c, h, s) && Hosts(c, g, s) && h.zone == g.zone :: h == g)
    && (forall z, s: nat {:trigger InZone(c, zones[z], s)} | 0 <= z < k && s < c.numShards :: InZone(c, zones[z], s))
    && (forall z, h, s | 0 <= z < k && Hosts(c, h, s) && h.zone == zones[z] ::
          IsMaster(c, h, s) <==> LeadsShard(c.numShards, |zones|, z, s))
  }

  /** A dealt zone holds every shard once, led by the zone exactly where it should be. */
  lemma DealtZone(c: Config, hosts: seq<Host>, zones: seq<string>, z: nat, mine: seq<Host>, shuffled: seq<Entry>)
    requires z < |zones| && mine != [] && Dealt(c, mine, shuffled, |shuffled|)
    requires forall h :: h in mine <==> h in hosts && h.zone == zones[z]
    requires forall h :: h in c.hosts <==> h in hosts
    requires forall e :: e in shuffled <==>
               e.shard < c.numShards && (e.role == M <==> LeadsShard(c.numShards, |zones|, z, e.shard))
    ensures forall s: nat | s < c.numShards :: InZone(c, zones[z], s)
    ensures forall h, s | Hosts(c, h, s) && h.zone == zones[z] ::
              IsMaster(c, h, s) <==> LeadsShard(c.numShards, |zones|, z, s)
    ensures forall h, g, s | Hosts(c, h, s) && Hosts(c, g, s) && h.zone == zones[z] && g.zone == zones[z] :: h == g
  {
    assert shuffled[..|shuffled|] == shuffled;
    forall s: nat | s < c.numShards ensures InZone(c, zones[z], s) {
      var e := Entry(s, if LeadsShard(c.numShards, |zones|, z, s) then M else S);
      assert e in shuffled;
      var i :| 0 <= i < |shuffled| && shuffled[i] == e;
      var h := mine[Turn(i, |mine|)];
      assert h in mine && Hosts(c, h, s);
    }
    forall h, s | Hosts(c, h, s) && h.zone == zones[z]
      ensures IsMaster(c, h, s) <==> LeadsShard(c.numShards, |zones|, z, s)
    {
      assert h in mine;
      var i :| 0 <= i < |mine| && mine[i] == h;
      assert Entry(s, M) in c.hosts[h] ==> Entry(s, M) in shuffled;
      assert Entry(s, S) in c.hosts[h] ==> Entry(s, S) in shuffled;
    }
    forall h, g, s | Hosts(c, h, s) && Hosts(c, g, s) && h.zone == zones[z] && g.zone == zones[z] ensures h == g {
      assert h in mine && g in mine;
      var i :| 0 <= i < |mine| && mine[i] == h;
      var j :| 0 <= j < |mine| && mine[j] == g;
    }
  }

  /** Dealing out one zone leaves the others as they were. */
  lemma OtherZonesStay(c: Config, d: Config, hosts: seq<Host>, zones: seq<string>, z: nat, mine: seq<Host>)
    requires z < |zones| && Placed(c, hosts, zones, z)
    requires forall i, j | 0 <= i < j < |zones| :: zones[i] != zones[j]
    requires forall h :: h in mine <==> h in hosts && h.zone == zones[z]
    requires d.numShards == c.numShards && d.hosts.Keys == c.hosts.Keys
    requires forall h | h in c.hosts && h !in mine :: d.hosts[h] == c.hosts[h]
    ensures forall h: Host, s | h.zone != zones[z] :: Hosts(d, h, s) <==> Hosts(c, h, s)
    ensures forall y, s: nat {:trigger InZone(d, zones[y], s)} | 0 <= y < z && s < d.numShards :: InZone(d, zones[y], s)
    ensures forall y, h, s | 0 <= y < z && Hosts(d, h, s) && h.zone == zones[y] ::
              IsMaster(d, h, s) <==> LeadsShard(d.numShards, |zones|, y, s)
  {
    assert forall h: Host, s | h.zone != zones[z] :: Hosts(d, h, s) <==> Hosts(c, h, s);
    forall y, s: nat | 0 <= y < z && s < d.numShards ensures InZone(d, zones[y], s) {
      assert InZone(c, zones[y], s);
      var h :| Hosts(c, h, s) && h.zone == zones[y];
      assert Hosts(d, h, s);
    }
    forall y, h, s | 0 <= y < z && Hosts(d, h, s) && h.zone == zones[y]
      ensures IsMaster(d, h, s) <==> LeadsShard(d.numShards, |zones|, y, s)
    {
      assert Hosts(c, h, s);
    }
  }

  lemma PlacedExtends(c: Config, d: Config, hosts: seq<Host>, zones: seq<string>, z: nat, mine: seq<Host>,
                      shuffled: seq<Entry>)
    requires z < |zones| && mine != [] && Placed(c, hosts, zones, z) && Dealt(d, mine, shuffled, |shuffled|)
    requires forall i, j | 0 <= i < j < |zones| :: zones[i] != zones[j]
    requires forall h :: h in mine <==> h in hosts && h.zone == zones[z]
    requires forall e :: e in shuffled <==>
               e.shard < c.numShards && (e.role == M <==> LeadsShard(c.numShards, |zones|, z, e.shard))
    requires d.numShards == c.numShards && d.hosts.Keys == c.hosts.Keys
    requires forall h | h in c.hosts && h !in mine :: d.hosts[h] == c.hosts[h]
    ensures Placed(d, hosts, zones, z + 1)
  {
    forall h ensures h in d.hosts <==> h in hosts {
      assert h in d.hosts.Keys <==> h in c.hosts.Keys;
    }
    DealtZone(d, hosts, zones, z, mine, shuffled);
    assert zones[..z + 1] == zones[..z] + [zones[z]];
    OtherZonesStay(c, d, hosts, zones, z, mine);
    forall h | h in d.hosts ensures GoodList(d.hosts[h], d.numShards) {
      if h in mine {
        var i :| 0 <= i < |mine| && mine[i] == h;
      }
    }
  }

  /** `zones` lists, in some order, the zones that the hosts are in. */
  ghost predicate ZonesOf(zones: seq<string>, hosts: seq<Host>)
  {
    && (forall i, j | 0 <= i < j < |zones| :: zones[i] != zones[j])
    && (forall h | h in hosts :: h.zone in zones)
    && (forall z | z in zones :: HostsIn(hosts, z) != [])
  }

  ghost predicate SameSizes(hosts: seq<Host>, zones: seq<string>)
  {
    forall y, z | y in zones && z in zones :: |HostsIn(hosts, y)| == |HostsIn(hosts, z)|
  }

  method CheckSizes(hosts: seq<Host>, zones: seq<string>) returns (same: bool)
    requires zones != []
    ensures same <==> SameSizes(hosts, zones)
  {
    var size := |HostsIn(hosts, zones[0])|;
    for i := 0 to |zones|
      invariant forall k | 0 <= k < i :: |HostsIn(hosts, zones[k])| == size
    {
      if |HostsIn(hosts, zones[i])| != size {
        assert zones[0] in zones && zones[i] in zones;
        return false;
      }
    }
    return true;
  }

  method EmptyConfig(hosts: seq<Host>, n: nat) returns (c: Config)
    ensures c.numShards == n
    ensures forall h :: h in c.hosts <==> h in hosts
    ensures forall h | h in c.hosts :: c.hosts[h] == []
  {
    c := Config(n, map[]);
    for i := 0 to |hosts|
      invariant c.numShards == n
      invariant forall h :: h in c.hosts <==> h in hosts[..i]
      invariant forall h | h in c.hosts :: c.hosts[h] == []
    {
      assert hosts[..i + 1] == hosts[..i] + [hosts[i]];
      c := c.(hosts := c.hosts[hosts[i] := []]);
    }
    assert hosts[..|hosts|] == hosts;
  }

  lemma PlacedIsComplete(c: Config, hosts: seq<Host>, zones: seq<string>, all: set<string>)
    requires Placed(c, hosts, zones, |zones|) && |all| > 1 && forall z :: z in all <==> z in zones
    requires forall h | h in hosts :: h.zone in zones
    ensures Complete(c, all)
  {
    assert zones[..|zones|] == zones;
    forall h, g, s: nat | IsMaster(c, h, s) && IsMaster(c, g, s) ensures h == g {
      assert Hosts(c, h, s) && Hosts(c, g, s);
      var y :| 0 <= y < |zones| && zones[y] == h.zone;
      var z :| 0 <= z < |zones| && zones[z] == g.zone;
      assert GoodList(c.hosts[h], c.numShards);
      assert s < c.numShards;
      var zone := OneLeadingZone(c.numShards, |zones|, s);
      assert LeadsShard(c.numShards, |zones|, y, s) && LeadsShard(c.numShards, |zones|, z, s);
    }
    forall s: nat | s < c.numShards ensures HasMaster(c, s) {
      var zone := OneLeadingZone(c.numShards, |zones|, s);
      assert InZone(c, zones[zone], s);
      var h :| Hosts(c, h, s) && h.zone == zones[zone];
      assert IsMaster(c, h, s);
    }
    forall z, s: nat | z in all && s < c.numShards ensures InZone(c, z, s) {
      var y :| 0 <= y < |zones| && zones[y] == z;
      assert InZone(c, zones[y], s);
    }
  }

  lemma {:induction false} DistinctSize(zones: seq<string>, all: set<string>)
    requires forall i, j | 0 <= i < j < |zones| :: zones[i] != zones[j]
    requires forall z :: z in all <==> z in zones
    ensures |all| == |zones|
  {
    if zones == [] {
      assert all == {};
    } else {
      var init, last := zones[..|zones| - 1], zones[|zones| - 1];
      assert zones == init + [last];
      assert last !in init;
      DistinctSize(init, all - {last});
      assert all == (all - {last}) + {last};
    }
  }

  /** config: a complete layout for every host file with more than one zone and zones of equal
      size, whatever the order of the zones and however each zone's shards are shuffled. Every
      other host file is refused. */
  method BuildConfig(hosts: seq<Host>, zones: seq<string>, n: nat, shuffle: (nat, seq<Entry>) -> seq<Entry>)
      returns (r: Option<Config>)
    requires ZonesOf(zones, hosts)
    requires forall z, list :: multiset(shuffle(z, list)) == multiset(list)
    ensures r.Some? <==> |zones| > 1 && SameSizes(hosts, zones)
    ensures r.Some? ==> r.value.numShards == n && forall h :: h in r.value.hosts <==> h in hosts
    ensures r.Some? ==> Complete(r.value, set z | z in zones)
    ensures r.Some? && DistinctHosts(hosts) ==> EvenUpTo(r.value, hosts, zones, |zones|)
  {
    if |zones| <= 1 {
      return None;
    }
    var same := CheckSizes(hosts, zones);
    if !same {
      return None;
    }
    var c := PlaceZones(hosts, zones, n, shuffle);
    ghost var all := set z | z in zones;
    DistinctSize(zones, all);
    PlacedIsComplete(c, hosts, zones, all);
    return Some(c);
  }

  /** config's loop over the zones. */
  method PlaceZones(hosts: seq<Host>, zones: seq<string>, n: nat, shuffle: (nat, seq<Entry>) -> seq<Entry>)
      returns (c: Config)
    requires ZonesOf(zones, hosts)
    requires forall z, list :: multiset(shuffle(z, list)) == multiset(list)
    ensures c.numShards == n && Placed(c, hosts, zones, |zones|)
    ensures DistinctHosts(hosts) ==> EvenUpTo(c, hosts, zones, |zones|)
  {
    c := EmptyConfig(hosts, n);
    NothingPlaced(c, hosts, zones);
    for z := 0 to |zones|
      invariant c.numShards == n && Placed(c, hosts, zones, z)
      invariant DistinctHosts(hosts) ==> EvenUpTo(c, hosts, zones, z)
    {
      c := PlaceZone(c, hosts, zones, z, shuffle);
    }
  }

  lemma NothingPlaced(c: Config, hosts: seq<Host>, zones: seq<string>)
    requires forall h :: h in c.hosts <==> h in hosts
    requires forall h | h in c.hosts :: c.hosts[h] == []
    ensures Placed(c, hosts, zones, 0)
  {
  }

  /** One turn of config's loop over the zones. */
  method PlaceZone(c: Config, hosts: seq<Host>, zones: seq<string>, z: nat,
                   shuffle: (nat, seq<Entry>) -> seq<Entry>) returns (d: Config)
    requires z < |zones| && ZonesOf(zones, hosts) && Placed(c, hosts, zones, z)
    requires forall z, list :: multiset(shuffle(z, list)) == multiset(list)
    ensures d.numShards == c.numShards && Placed(d, hosts, zones, z + 1)
    ensures DistinctHosts(hosts) && EvenUpTo(c, hosts, zones, z) ==> EvenUpTo(d, hosts, zones, z + 1)
  {
    var mine := HostsIn(hosts, zones[z]);
    var shards := ZoneShards(c.numShards, |zones|, z);
    var shuffled := shuffle(z, shards);
    ShuffleKeeps(shards, shuffled, c.numShards);
    if DistinctHosts(hosts) {
      ZoneIsDistinct(hosts, zones[z]);
    }
    assert zones[z] in zones;
    forall i | 0 <= i < |mine| ensures mine[i] in c.hosts && c.hosts[mine[i]] == [] {
      assert mine[i] in mine;
      assert zones[z] !in zones[..z];
    }
    d := DealZone(c, mine, shuffled);
    PlacedExtends(c, d, hosts, zones, z, mine, shuffled);
    if DistinctHosts(hosts) && EvenUpTo(c, hosts, zones, z) {
      EvenStays(c, d, hosts, zones, z);
    }
  }

  lemma {:induction false} ZoneIsDistinct(hosts: seq<Host>, zone: string)
    requires DistinctHosts(hosts)
    ensures DistinctHosts(HostsIn(hosts, zone))
  {
    if hosts != [] {
      ZoneIsDistinct(hosts[1..], zone);
      assert hosts[0] !in hosts[1..];
    }
  }

  /** In the first zones no host has two shards more than another host of its zone. */
  ghost predicate EvenUpTo(c: Config, hosts: seq<Host>, zones: seq<string>, k: nat)
    requires k <= |zones|
  {
    forall z | 0 <= z < k :: Even(c, HostsIn(hosts, zones[z]))
  }

  lemma EvenStays(c: Config, d: Config, hosts: seq<Host>, zones: seq<string>, z: nat)
    requires z < |zones| && ZonesOf(zones, hosts) && EvenUpTo(c, hosts, zones, z)
    requires d.hosts.Keys == c.hosts.Keys && Even(d, HostsIn(hosts, zones[z]))
    requires forall h | h in c.hosts && h !in HostsIn(hosts, zones[z]) :: d.hosts[h] == c.hosts[h]
    ensures EvenUpTo(d, hosts, zones, z + 1)
  {
    forall y | 0 <= y < z ensures Even(d, HostsIn(hosts, zones[y])) {
      assert Even(c, HostsIn(hosts, zones[y]));
      forall h | h in HostsIn(hosts, zones[y]) ensures h in c.hosts && d.hosts[h] == c.hosts[h] {
        assert h.zone != zones[z];
      }
      EvenElsewhere(c, d, HostsIn(hosts, zones[y]));
    }
  }

  lemma EvenElsewhere(c: Config, d: Config, list: seq<Host>)
    requires Even(c, list) && d.hosts.Keys == c.hosts.Keys
    requires forall h | h in list :: h in c.hosts && d.hosts[h] == c.hosts[h]
    ensures Even(d, list)
  {
    forall g, h | g in list && h in list
      ensures g in d.hosts && h in d.hosts && |d.hosts[g]| <= |d.hosts[h]| + 1
    {
      assert g in d.hosts.Keys && h in d.hosts.Keys;
    }
  }
}
