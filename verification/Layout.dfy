/** The shard placement of one segment: which hosts hold which shards in which role. */
module Layout {
  import opened Options

  datatype Host = Host(address: string, zone: string)

  datatype Role = M | S

  /** A "shard:role" string of the config. */
  datatype Entry = Entry(shard: nat, role: Role)

  /** A segment's dictionary: `num_shards` and the shard list of every host. */
  datatype Config = Config(numShards: nat, hosts: map<Host, seq<Entry>>)

  predicate HasShard(list: seq<Entry>, s: nat)
  {
    Entry(s, M) in list || Entry(s, S) in list
  }

  lemma EntryCases(e: Entry)
    ensures e == Entry(e.shard, M) || e == Entry(e.shard, S)
  {
    match e.role
    case M =>
    case S =>
  }

  predicate Hosts(c: Config, h: Host, s: nat)
  {
    h in c.hosts && HasShard(c.hosts[h], s)
  }

  predicate IsMaster(c: Config, h: Host, s: nat)
  {
    h in c.hosts && Entry(s, M) in c.hosts[h]
  }

  predicate IsSlave(c: Config, h: Host, s: nat)
  {
    h in c.hosts && Entry(s, S) in c.hosts[h]
  }

  /** No list names a shard twice, and all shards are in range. */
  ghost predicate GoodList(list: seq<Entry>, n: nat)
  {
    && (forall i, j | 0 <= i < j < |list| :: list[i].shard != list[j].shard)
    && (forall i | 0 <= i < |list| :: list[i].shard < n)
  }

  ghost predicate GoodLists(c: Config)
  {
    forall h {:trigger c.hosts[h]} | h in c.hosts :: GoodList(c.hosts[h], c.numShards)
  }

  /** A zone holds a shard on one host at most. */
  ghost predicate AtMostOnePerZone(c: Config)
  {
    forall h, g, s | Hosts(c, h, s) && Hosts(c, g, s) && h.zone == g.zone :: h == g
  }

  ghost predicate AtMostOneMaster(c: Config)
  {
    forall h, g, s | IsMaster(c, h, s) && IsMaster(c, g, s) :: h == g
  }

  ghost predicate InZone(c: Config, zone: string, s: nat)
  {
    exists h :: Hosts(c, h, s) && h.zone == zone
  }

  ghost predicate HasMaster(c: Config, s: nat)
  {
    exists h :: IsMaster(c, h, s)
  }

  /** What holds of every config the tool writes. */
  ghost predicate Sound(c: Config)
  {
    GoodLists(c) && AtMostOnePerZone(c) && AtMostOneMaster(c)
  }

  /** The layout the tool aims at: every zone hosts every shard exactly once, and every
      shard has exactly one master. */
  ghost predicate Complete(c: Config, zones: set<string>)
  {
    && Sound(c) && |zones| > 1
    && (forall h | h in c.hosts :: h.zone in zones)
    && (forall z, s: nat {:trigger InZone(c, z, s)} | z in zones && s < c.numShards :: InZone(c, z, s))
    && (forall s: nat {:trigger HasMaster(c, s)} | s < c.numShards :: HasMaster(c, s))
  }

  // ----- list.remove and list.append -----

  /** list.remove(e): drop the first occurrence. */
  function RemoveFirst<T(==)>(list: seq<T>, e: T): seq<T>
  {
    if list == [] then [] else if list[0] == e then list[1..] else [list[0]] + RemoveFirst(list[1..], e)
  }

  lemma GoodTail(list: seq<Entry>, n: nat)
    requires GoodList(list, n) && list != []
    ensures GoodList(list[1..], n) && forall d | d in list[1..] :: d.shard != list[0].shard
  {
    var tail := list[1..];
    assert forall i | 0 <= i < |tail| :: tail[i] == list[i + 1];
    forall d | d in tail ensures d.shard != list[0].shard {
      var i :| 0 <= i < |tail| && tail[i] == d;
      assert d == list[i + 1];
    }
  }

  lemma GoodCons(head: Entry, rest: seq<Entry>, n: nat)
    requires GoodList(rest, n) && head.shard < n && forall d | d in rest :: d.shard != head.shard
    ensures GoodList([head] + rest, n)
  {
    forall i | 0 <= i < |rest| ensures rest[i].shard != head.shard { assert rest[i] in rest; }
  }

  lemma {:induction false} RemoveFirstMembers(list: seq<Entry>, e: Entry, n: nat)
    requires GoodList(list, n)
    ensures GoodList(RemoveFirst(list, e), n)
    ensures forall d :: d in RemoveFirst(list, e) <==> d in list && d != e
    ensures e !in list ==> RemoveFirst(list, e) == list
  {
    if list != [] {
      var head, tail := list[0], list[1..];
      assert list == [head] + tail;
      GoodTail(list, n);
      if head != e {
        RemoveFirstMembers(tail, e, n);
        GoodCons(head, RemoveFirst(tail, e), n);
      } else {
        assert e !in tail;
      }
    }
  }

  /** Change the role of a shard on a host: remove the old entry, append the new one. */
  function SetRole(c: Config, h: Host, s: nat, from: Role, to: Role): Config
    requires h in c.hosts
  {
    c.(hosts := c.hosts[h := RemoveFirst(c.hosts[h], Entry(s, from)) + [Entry(s, to)]])
  }

  lemma GoodListEntry(list: seq<Entry>, n: nat, d: Entry, e: Entry)
    requires GoodList(list, n) && d in list && e in list && d.shard == e.shard
    ensures d == e
  {
  }

  /** On a good list a role change replaces exactly one entry. */
  lemma SetRoleMembers(c: Config, h: Host, s: nat, from: Role, to: Role)
    requires GoodLists(c) && h in c.hosts && Entry(s, from) in c.hosts[h] && from != to
    ensures var c' := SetRole(c, h, s, from, to);
            && GoodLists(c')
            && (forall d :: d in c'.hosts[h] <==> (d in c.hosts[h] && d != Entry(s, from)) || d == Entry(s, to))
            && (forall g, t :: Hosts(c', g, t) <==> Hosts(c, g, t))
            && (forall g, t :: IsMaster(c', g, t) <==>
                  if g == h && t == s then to == M else IsMaster(c, g, t))
            && (forall g, t :: IsSlave(c', g, t) <==>
                  if g == h && t == s then to == S else IsSlave(c, g, t))
  {
    var list := c.hosts[h];
    var c' := SetRole(c, h, s, from, to);
    RemoveFirstMembers(list, Entry(s, from), c.numShards);
    var rest := RemoveFirst(list, Entry(s, from));
    forall d | d in rest ensures d.shard != s {
      if d.shard == s {
        GoodListEntry(list, c.numShards, d, Entry(s, from));
      }
    }
    assert forall d :: d in c'.hosts[h] <==> d in rest || d == Entry(s, to);
  }

  // ----- iterating over the dictionary -----

  /** `order` is some iteration order of a dictionary with these keys. */
  ghost predicate Enumerates<T(!new)>(order: seq<T>, keys: set<T>)
  {
    && (forall i, j | 0 <= i < j < |order| :: order[i] != order[j])
    && (forall x :: x in order <==> x in keys)
  }

  /** `order` is some iteration order of the shards of a segment. */
  ghost predicate EnumeratesShards(order: seq<nat>, n: nat)
  {
    && (forall i, j | 0 <= i < j < |order| :: order[i] != order[j])
    && (forall s: nat :: s in order <==> s < n)
  }

  /** The same hosts with the same shards; only roles may differ. */
  ghost predicate SameHosting(c: Config, d: Config)
  {
    && d.numShards == c.numShards && d.hosts.Keys == c.hosts.Keys
    && (forall h, s :: Hosts(d, h, s) <==> Hosts(c, h, s))
  }

  /** The slaves of a shard, in iteration order. */
  function SlavesOf(c: Config, order: seq<Host>, s: nat): seq<Host>
  {
    if order == [] then []
    else
      var h := order[|order| - 1];
      SlavesOf(c, order[..|order| - 1], s) + (if IsSlave(c, h, s) then [h] else [])
  }

  lemma {:induction false} SlavesOfMembers(c: Config, order: seq<Host>, s: nat)
    ensures forall h :: h in SlavesOf(c, order, s) <==> h in order && IsSlave(c, h, s)
  {
    if order != [] {
      var init := order[..|order| - 1];
      SlavesOfMembers(c, init, s);
      assert order == init + [order[|order| - 1]];
    }
  }

  /** The first host that lists the shard as master; none when the shard has no master. */
  method FindMaster(c: Config, order: seq<Host>, s: nat) returns (r: Option<Host>)
    requires Enumerates(order, c.hosts.Keys)
    ensures r.Some? ==> IsMaster(c, r.value, s)
    ensures r.None? <==> !HasMaster(c, s)
  {
    for i := 0 to |order|
      invariant forall k | 0 <= k < i :: !IsMaster(c, order[k], s)
    {
      assert order[i] in c.hosts.Keys;
      if Entry(s, M) in c.hosts[order[i]] {
        assert IsMaster(c, order[i], s);
        return Some(order[i]);
      }
    }
    forall h ensures !IsMaster(c, h, s) {
      assert h in c.hosts.Keys ==> h in order;
    }
    return None;
  }

  /** One pass over every host's list collects the slaves of a shard. */
  method FindSlaves(c: Config, order: seq<Host>, s: nat) returns (slaves: seq<Host>)
    requires Enumerates(order, c.hosts.Keys) && GoodLists(c)
    ensures slaves == SlavesOf(c, order, s)
  {
    slaves := [];
    for i := 0 to |order|
      invariant slaves == SlavesOf(c, order[..i], s)
    {
      var h := order[i];
      assert h in c.hosts.Keys;
      var list := c.hosts[h];
      for j := 0 to |list|
        invariant slaves == SlavesOf(c, order[..i], s) + (if Entry(s, S) in list[..j] then [h] else [])
      {
        assert list[..j + 1] == list[..j] + [list[j]];
        if list[j] == Entry(s, S) {
          assert forall k | 0 <= k < j :: list[..j][k].shard != list[j].shard;
          slaves := slaves + [h];
        }
      }
      assert list[..|list|] == list;
      assert order[..i + 1][..i] == order[..i];
    }
    assert order[..|order|] == order;
  }
}
