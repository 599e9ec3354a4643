/** rebalance: move masters from overloaded to underloaded hosts, one shard at a time. */
module Rebalance {
  import opened Layout
  import opened Options

  // ----- loads -----

  function CountMasters(list: seq<Entry>): nat
  {
    if list == [] then 0
    else CountMasters(list[..|list| - 1]) + (if list[|list| - 1].role == M then 1 else 0)
  }

  /** How many shards the host leads. */
  function Load(c: Config, h: Host): nat
  {
    if h in c.hosts then CountMasters(c.hosts[h]) else 0
  }

  method CountMastersOf(c: Config, h: Host) returns (n: nat)
    requires h in c.hosts
    ensures n == Load(c, h)
  {
    n := 0;
    var list := c.hosts[h];
    for i := 0 to |list|
      invariant n == CountMasters(list[..i])
    {
      assert list[..i + 1][..i] == list[..i];
      if list[i].role == M {
        n := n + 1;
      }
    }
    assert list[..|list|] == list;
  }

  /** The shards of the master entries in a list. */
  function MasterShards(list: seq<Entry>): set<nat>
  {
    set i | 0 <= i < |list| && list[i].role == M :: list[i].shard
  }

  lemma MasterShardsAppend(list: seq<Entry>, e: Entry)
    ensures MasterShards(list + [e]) == MasterShards(list) + (if e.role == M then {e.shard} else {})
  {
    var more := list + [e];
    forall s ensures s in MasterShards(more) <==> s in MasterShards(list) || (e.role == M && s == e.shard) {
      if s in MasterShards(list) {
        var i :| 0 <= i < |list| && list[i].role == M && list[i].shard == s;
        assert more[i] == list[i];
      }
      if e.role == M && s == e.shard {
        assert more[|list|] == e;
      }
    }
  }

  lemma {:induction false} CountMastersIs(list: seq<Entry>, n: nat)
    requires GoodList(list, n)
    ensures CountMasters(list) == |MasterShards(list)|
  {
    if list != [] {
      var init, last := list[..|list| - 1], list[|list| - 1];
      assert list == init + [last];
      CountMastersIs(init, n);
      MasterShardsAppend(init, last);
      assert last.shard !in MasterShards(init);
    }
  }

  /** The load is the number of shards that the host leads. */
  lemma LoadIs(c: Config, h: Host)
    requires GoodLists(c)
    ensures Load(c, h) == |set s | 0 <= s < c.numShards && IsMaster(c, h, s)|
  {
    var led := set s | 0 <= s < c.numShards && IsMaster(c, h, s);
    if h in c.hosts {
      var list := c.hosts[h];
      assert GoodList(list, c.numShards);
      CountMastersIs(list, c.numShards);
      forall s ensures s in led <==> s in MasterShards(list) {
        if s in led {
          var i :| 0 <= i < |list| && list[i] == Entry(s, M);
        }
        if s in MasterShards(list) {
          var i :| 0 <= i < |list| && list[i].role == M && list[i].shard == s;
          assert list[i] == Entry(s, M);
        }
      }
      assert led == MasterShards(list);
    } else {
      assert led == {};
    }
  }

  lemma {:induction false} CountMastersConcat(a: seq<Entry>, b: seq<Entry>)
    ensures CountMasters(a + b) == CountMasters(a) + CountMasters(b)
  {
    if b == [] {
      assert a + b == a;
    } else {
      assert (a + b)[..|a + b| - 1] == a + b[..|b| - 1];
      CountMastersConcat(a, b[..|b| - 1]);
    }
  }

  lemma CountMastersOne(e: Entry)
    ensures CountMasters([e]) == if e.role == M then 1 else 0
  {
    assert [e][..0] == [];
  }

  lemma {:induction false} CountMastersRemove(list: seq<Entry>, e: Entry)
    requires e in list
    ensures CountMasters(list) == CountMasters(RemoveFirst(list, e)) + (if e.role == M then 1 else 0)
  {
    var head, tail := [list[0]], list[1..];
    assert list == head + tail;
    CountMastersConcat(head, tail);
    CountMastersOne(list[0]);
    if list[0] != e {
      CountMastersRemove(tail, e);
      CountMastersConcat(head, RemoveFirst(tail, e));
    }
  }

  /** A role change moves the load of its host by one and no other host's. */
  lemma SetRoleLoad(c: Config, h: Host, s: nat, from: Role, to: Role)
    requires h in c.hosts && Entry(s, from) in c.hosts[h]
    ensures var d := SetRole(c, h, s, from, to);
            && (forall g | g != h :: Load(d, g) == Load(c, g))
            && Load(d, h) + (if from == M then 1 else 0) == Load(c, h) + (if to == M then 1 else 0)
  {
    var rest := RemoveFirst(c.hosts[h], Entry(s, from));
    CountMastersRemove(c.hosts[h], Entry(s, from));
    CountMastersConcat(rest, [Entry(s, to)]);
    CountMastersOne(Entry(s, to));
  }

  /** The sum of squared loads: how uneven the hosts are. */
  function SumSquares(c: Config, hosts: seq<Host>): nat
  {
    if hosts == [] then 0
    else SumSquares(c, hosts[1..]) + Square(Load(c, hosts[0]))
  }

  function Square(n: nat): nat
  {
    n * n
  }

  lemma {:induction false} SumSquaresOne(c: Config, d: Config, hosts: seq<Host>, h: Host)
    requires forall i, j | 0 <= i < j < |hosts| :: hosts[i] != hosts[j]
    requires forall g | g != h :: Load(d, g) == Load(c, g)
    ensures SumSquares(d, hosts) + (if h in hosts then Square(Load(c, h)) else 0)
         == SumSquares(c, hosts) + (if h in hosts then Square(Load(d, h)) else 0)
  {
    if hosts != [] {
      assert hosts == [hosts[0]] + hosts[1..];
      SumSquaresOne(c, d, hosts[1..], h);
    }
  }

  lemma SquaresDrop(x: nat, y: nat)
    requires x >= y + 2
    ensures Square(x - 1) + Square(y + 1) < Square(x) + Square(y)
  {
    assert Square(x - 1) == x * x - 2 * x + 1;
    assert Square(y + 1) == y * y + 2 * y + 1;
  }

  // ----- one move -----

  function LowerBound(n: nat, hosts: nat): nat
    requires hosts > 0
  {
    n / hosts
  }

  function UpperBound(n: nat, hosts: nat): nat
    requires hosts > 0
  {
    if n % hosts == 0 then n / hosts else n / hosts + 1
  }

  /** Good lists, one master at most for every shard, and the replicas of the start. */
  ghost predicate Intact(start: Config, c: Config)
  {
    GoodLists(c) && AtMostOneMaster(c) && SameHosting(start, c)
  }

  ghost predicate AllIntact(start: Config, written: seq<Config>)
  {
    forall w | w in written :: Intact(start, w)
  }

  lemma AllIntactConcat(start: Config, a: seq<Config>, b: seq<Config>)
    requires AllIntact(start, a) && AllIntact(start, b)
    ensures AllIntact(start, a + b)
  {
    forall w | w in a + b ensures Intact(start, w) {
      assert w in a || w in b;
    }
  }

  lemma AllIntactOne(start: Config, d: Config)
    requires Intact(start, d)
    ensures AllIntact(start, [d])
  {
    forall w | w in [d] ensures Intact(start, w) {
      assert w == d;
    }
  }

  /** What stays the same during a run: the config it started from, the iteration order of the
      hosts, the two bounds, and the sequence numbers that a host reports for a shard, by poll. */
  datatype Run = Run(start: Config, order: seq<Host>, lower: nat, upper: nat, seqNo: (Host, nat, nat) -> nat)

  /** Visiting a shard: it is left alone, or its master moves. */
  datatype Visit = Kept(cfg: Config) | Moved(before: Config, demoted: Config, after: Config, from: Host, to: Host)

  function Before(v: Visit): Config
  {
    if v.Kept? then v.cfg else v.before
  }

  function After(v: Visit): Config
  {
    if v.Kept? then v.cfg else v.after
  }

  /** The configs a visit writes: after the demotion and after the promotion. */
  function WrittenBy(v: Visit): seq<Config>
  {
    if v.Kept? then [] else [v.demoted, v.after]
  }

  /** Nothing to do: no slave, a master that is not overloaded, or no underloaded slave. */
  ghost predicate NothingToDo(r: Run, c: Config, s: nat)
  {
    && HasMaster(c, s)
    && (|| (forall h :: !IsSlave(c, h, s))
        || (forall h | IsMaster(c, h, s) :: Load(c, h) <= r.upper)
        || (forall h | IsSlave(c, h, s) :: Load(c, h) >= r.lower))
  }

  /** The new master has been seen with the sequence number of the demoted one. */
  ghost predicate CaughtUp(seqNo: (Host, nat, nat) -> nat, from: Host, to: Host, s: nat)
  {
    exists k: nat :: k > 0 && seqNo(to, s, k) == seqNo(from, s, 0)
  }

  /** The master of the shard becomes a slave, then the slave `to` its master. */
  ghost predicate MovesMaster(v: Visit, s: nat)
    requires v.Moved?
  {
    && IsMaster(v.before, v.from, s) && IsSlave(v.before, v.to, s) && v.from != v.to
    && (forall h :: !IsMaster(v.demoted, h, s))
    && (forall h :: IsMaster(v.after, h, s) <==> h == v.to)
    && (forall h, t | t != s :: IsMaster(v.after, h, t) <==> IsMaster(v.before, h, t))
  }

  /** The load goes from an overloaded host to the least loaded slave, an underloaded one. */
  ghost predicate MovesLoad(r: Run, v: Visit, s: nat)
    requires v.Moved?
  {
    && (forall h | IsSlave(v.before, h, s) :: Load(v.before, v.to) <= Load(v.before, h))
    && Load(v.before, v.from) == Load(v.after, v.from) + 1 && Load(v.after, v.from) >= r.upper
    && Load(v.after, v.to) == Load(v.before, v.to) + 1 && Load(v.after, v.to) <= r.lower
    && (forall h | h != v.from && h != v.to :: Load(v.after, h) == Load(v.before, h))
  }

  ghost predicate GoodVisit(r: Run, v: Visit, s: nat)
  {
    && Intact(r.start, Before(v)) && Intact(r.start, After(v)) && HasMaster(After(v), s)
    && (if v.Kept? then NothingToDo(r, v.cfg, s)
        else
          && Intact(r.start, v.demoted) && MovesMaster(v, s) && MovesLoad(r, v, s)
          && SumSquares(v.after, r.order) < SumSquares(v.before, r.order)
          && CaughtUp(r.seqNo, v.from, v.to, s))
  }

  lemma VisitWritesIntact(r: Run, v: Visit, s: nat)
    requires GoodVisit(r, v, s)
    ensures AllIntact(r.start, WrittenBy(v))
  {
    if v.Moved? {
      AllIntactOne(r.start, v.demoted);
      AllIntactOne(r.start, v.after);
      AllIntactConcat(r.start, [v.demoted], [v.after]);
      assert WrittenBy(v) == [v.demoted] + [v.after];
    }
  }

  lemma SetRoleKeepsIntact(start: Config, c: Config, h: Host, s: nat, from: Role, to: Role)
    requires Intact(start, c) && h in c.hosts && Entry(s, from) in c.hosts[h] && from != to
    requires to == M ==> forall g :: !IsMaster(c, g, s)
    ensures Intact(start, SetRole(c, h, s, from, to))
  {
    SetRoleMembers(c, h, s, from, to);
  }

  /** What a host must be to give up a master or to take it. */
  ghost predicate CanMove(r: Run, c: Config, s: nat, from: Host, to: Host)
  {
    && Intact(r.start, c) && IsMaster(c, from, s) && IsSlave(c, to, s)
    && Load(c, from) > r.upper && Load(c, to) < r.lower
    && (forall h | IsSlave(c, h, s) :: Load(c, to) <= Load(c, h))
  }

  function Move(c: Config, s: nat, from: Host, to: Host): Visit
    requires from in c.hosts && to in c.hosts
  {
    var demoted := SetRole(c, from, s, M, S);
    Moved(c, demoted, SetRole(demoted, to, s, S, M), from, to)
  }

  /** The roles after a move. */
  lemma MoveRoles(r: Run, c: Config, s: nat, from: Host, to: Host)
    requires CanMove(r, c, s, from, to) && r.lower <= r.upper
    ensures var v := Move(c, s, from, to);
            && MovesMaster(v, s) && Intact(r.start, v.demoted) && Intact(r.start, v.after)
            && IsSlave(v.demoted, to, s) && HasMaster(v.after, s)
  {
    var demoted := SetRole(c, from, s, M, S);
    SetRoleMembers(c, from, s, M, S);
    SetRoleKeepsIntact(r.start, c, from, s, M, S);
    assert forall h :: !IsMaster(demoted, h, s);
    assert IsSlave(demoted, to, s);
    SetRoleMembers(demoted, to, s, S, M);
    SetRoleKeepsIntact(r.start, demoted, to, s, S, M);
    assert IsMaster(SetRole(demoted, to, s, S, M), to, s);
  }

  /** The loads after a move. */
  lemma MoveLoads(r: Run, c: Config, s: nat, from: Host, to: Host)
    requires CanMove(r, c, s, from, to) && from != to && r.lower <= r.upper
    requires IsSlave(SetRole(c, from, s, M, S), to, s)
    ensures MovesLoad(r, Move(c, s, from, to), s)
  {
    SetRoleLoad(c, from, s, M, S);
    SetRoleLoad(SetRole(c, from, s, M, S), to, s, S, M);
  }

  /** Two loads change by one towards each other, the others stay: the squares drop. */
  lemma SquaresOfMove(before: Config, demoted: Config, after: Config, order: seq<Host>, from: Host, to: Host)
    requires from != to && from in order && to in order
    requires forall i, j | 0 <= i < j < |order| :: order[i] != order[j]
    requires forall h | h != from :: Load(demoted, h) == Load(before, h)
    requires forall h | h != to :: Load(after, h) == Load(demoted, h)
    requires Load(before, from) == Load(demoted, from) + 1 && Load(after, to) == Load(demoted, to) + 1
    requires Load(before, from) >= Load(before, to) + 2
    ensures SumSquares(after, order) < SumSquares(before, order)
  {
    SumSquaresOne(before, demoted, order, from);
    SumSquaresOne(demoted, after, order, to);
    SquaresDrop(Load(before, from), Load(before, to));
  }

  lemma MoveSquares(r: Run, c: Config, s: nat, from: Host, to: Host)
    requires CanMove(r, c, s, from, to) && from != to && Enumerates(r.order, c.hosts.Keys) && r.lower <= r.upper
    requires IsSlave(SetRole(c, from, s, M, S), to, s)
    ensures var v := Move(c, s, from, to); SumSquares(v.after, r.order) < SumSquares(v.before, r.order)
  {
    var v := Move(c, s, from, to);
    SetRoleLoad(c, from, s, M, S);
    SetRoleLoad(v.demoted, to, s, S, M);
    assert from in c.hosts.Keys && to in c.hosts.Keys;
    SquaresOfMove(c, v.demoted, v.after, r.order, from, to);
  }

  lemma MoveIsGood(r: Run, c: Config, s: nat, from: Host, to: Host)
    requires CanMove(r, c, s, from, to) && Enumerates(r.order, c.hosts.Keys) && r.lower <= r.upper
    requires CaughtUp(r.seqNo, from, to, s)
    ensures GoodVisit(r, Move(c, s, from, to), s)
  {
    MoveRoles(r, c, s, from, to);
    MoveLoads(r, c, s, from, to);
    MoveSquares(r, c, s, from, to);
  }

  /** The least loaded slave, the first of them on a tie. */
  method LeastLoaded(c: Config, slaves: seq<Host>) returns (h: Host, n: nat)
    requires slaves != [] && forall g | g in slaves :: g in c.hosts
    ensures n == Load(c, h)
    ensures exists k | 0 <= k < |slaves| ::
              && slaves[k] == h
              && (forall i | 0 <= i < k :: n < Load(c, slaves[i]))
              && (forall i | k <= i < |slaves| :: n <= Load(c, slaves[i]))
  {
    h := slaves[0];
    n := CountMastersOf(c, h);
    ghost var k := 0;
    for i := 0 to |slaves|
      invariant n == Load(c, h)
      invariant 0 <= k < |slaves| && slaves[k] == h && k <= i
      invariant forall j | 0 <= j < k :: n < Load(c, slaves[j])
      invariant forall j | k <= j < i :: n <= Load(c, slaves[j])
    {
      var m := CountMastersOf(c, slaves[i]);
      if m < n {
        n, h, k := m, slaves[i], i;
      }
    }
  }

  /** None of the polls saw the new master with the old master's sequence number. */
  ghost predicate Behind(seqNo: (Host, nat, nat) -> nat, from: Host, to: Host, s: nat, patience: nat)
  {
    forall k: nat | 0 < k <= patience :: seqNo(to, s, k) != seqNo(from, s, 0)
  }

  /** The demoted master is waiting for a slave that should take over. */
  ghost predicate Stuck(r: Run, c: Config, s: nat, patience: nat)
  {
    exists from, to :: CanMove(r, c, s, from, to) && Behind(r.seqNo, from, to, s, patience)
  }

  /** Poll the new master until it has the old master's sequence number; the polls are
      bounded by `patience`. */
  method AwaitCatchUp(seqNo: (Host, nat, nat) -> nat, from: Host, to: Host, s: nat, patience: nat)
      returns (caught: bool)
    ensures caught ==> CaughtUp(seqNo, from, to, s)
    ensures !caught ==> Behind(seqNo, from, to, s, patience)
  {
    var oldSeq := seqNo(from, s, 0);
    for k := 1 to patience + 1
      invariant forall j: nat | 0 < j < k :: seqNo(to, s, j) != oldSeq
    {
      if seqNo(to, s, k) == oldSeq {
        return true;
      }
    }
    return false;
  }

  datatype Outcome = Finished | NoHosts | NoMaster | Waiting

  /** One turn of rebalance's loop over the shards. `written` holds the configs it wrote. */
  method VisitShard(r: Run, c: Config, s: nat, patience: nat) returns (out: Outcome, v: Visit, written: seq<Config>)
    requires Intact(r.start, c) && Enumerates(r.order, c.hosts.Keys) && r.lower <= r.upper
    ensures out == Finished || out == NoMaster || out == Waiting
    ensures out == NoMaster <==> !HasMaster(c, s)
    ensures out == Waiting ==> Stuck(r, c, s, patience)
    ensures out == Finished ==> GoodVisit(r, v, s) && Before(v) == c
    ensures out == Finished ==> written == WrittenBy(v)
    ensures AllIntact(r.start, written)
  {
    v, written := Kept(c), [];
    var master := FindMaster(c, r.order, s);
    if master.None? {
      return NoMaster, v, [];
    }
    var from := master.value;
    var slaves := FindSlaves(c, r.order, s);
    SlavesOfMembers(c, r.order, s);
    SlavesKnown(c, r.order, s, slaves);
    var n := CountMastersOf(c, from);
    if slaves == [] || n <= r.upper {
      SkipsRightly(r, c, s, from, slaves);
      return Finished, v, [];
    }
    var to, least := LeastLoaded(c, slaves);
    LeastOfAll(c, s, slaves, to);
    if least >= r.lower {
      return Finished, v, [];
    }
    out, v, written := MoveMaster(r, c, s, from, to, patience);
  }

  /** Move the master of a shard: demote, wait for the new one to catch up, promote. */
  method MoveMaster(r: Run, c: Config, s: nat, from: Host, to: Host, patience: nat)
      returns (out: Outcome, v: Visit, written: seq<Config>)
    requires CanMove(r, c, s, from, to) && Enumerates(r.order, c.hosts.Keys) && r.lower <= r.upper
    ensures out == Finished || out == Waiting
    ensures out == Waiting ==> Stuck(r, c, s, patience)
    ensures out == Finished ==> GoodVisit(r, v, s) && v == Move(c, s, from, to) && written == WrittenBy(v)
    ensures AllIntact(r.start, written)
  {
    var demoted := SetRole(c, from, s, M, S);
    var caught := AwaitCatchUp(r.seqNo, from, to, s, patience);
    if !caught {
      SetRoleKeepsIntact(r.start, c, from, s, M, S);
      AllIntactOne(r.start, demoted);
      return Waiting, Kept(c), [demoted];
    }
    MoveIsGood(r, c, s, from, to);
    VisitWritesIntact(r, Move(c, s, from, to), s);
    var after := SetRole(demoted, to, s, S, M);
    return Finished, Moved(c, demoted, after, from, to), [demoted, after];
  }

  lemma SlavesKnown(c: Config, order: seq<Host>, s: nat, slaves: seq<Host>)
    requires Enumerates(order, c.hosts.Keys)
    requires forall h :: h in slaves <==> h in order && IsSlave(c, h, s)
    ensures forall h :: h in slaves <==> IsSlave(c, h, s)
  {
    forall h | IsSlave(c, h, s) ensures h in order {
      assert h in c.hosts.Keys;
    }
  }

  lemma SkipsRightly(r: Run, c: Config, s: nat, from: Host, slaves: seq<Host>)
    requires AtMostOneMaster(c) && IsMaster(c, from, s) && forall h :: h in slaves <==> IsSlave(c, h, s)
    requires slaves == [] || Load(c, from) <= r.upper
    ensures NothingToDo(r, c, s)
  {
  }

  lemma LeastOfAll(c: Config, s: nat, slaves: seq<Host>, to: Host)
    requires forall h :: h in slaves <==> IsSlave(c, h, s)
    requires exists k | 0 <= k < |slaves| ::
               && slaves[k] == to
               && (forall i | 0 <= i < k :: Load(c, to) < Load(c, slaves[i]))
               && (forall i | k <= i < |slaves| :: Load(c, to) <= Load(c, slaves[i]))
    ensures IsSlave(c, to, s) && forall h | IsSlave(c, h, s) :: Load(c, to) <= Load(c, h)
  {
    forall h | IsSlave(c, h, s) ensures Load(c, to) <= Load(c, h) {
      assert h in slaves;
      var i :| 0 <= i < |slaves| && slaves[i] == h;
    }
  }

  // ----- the whole run -----

  /** Where a load may go: overloaded hosts come down to `upper` at most, underloaded ones go
      up to `lower` at most, the others stay. */
  predicate Settles(x: nat, y: nat, lower: nat, upper: nat)
  {
    if x > upper then upper <= y <= x
    else if x < lower then x <= y <= lower
    else y == x
  }

  lemma VisitSettles(r: Run, v: Visit, s: nat, h: Host)
    requires GoodVisit(r, v, s) && r.lower <= r.upper
    ensures Settles(Load(Before(v), h), Load(After(v), h), r.lower, r.upper)
  {
  }

  /** The visits of a run cover the shards in order, each from where the one before ended. */
  ghost predicate Chain(r: Run, visits: seq<Visit>, last: Config)
  {
    if visits == [] then last == r.start
    else
      var k := |visits| - 1;
      GoodVisit(r, visits[k], k) && After(visits[k]) == last && Chain(r, visits[..k], Before(visits[k]))
  }

  lemma ChainGrows(r: Run, visits: seq<Visit>, last: Config, v: Visit)
    requires Chain(r, visits, last) && GoodVisit(r, v, |visits|) && Before(v) == last
    ensures Chain(r, visits + [v], After(v))
    ensures Written(visits + [v]) == Written(visits) + WrittenBy(v)
    ensures Intact(r.start, After(v))
  {
    assert (visits + [v])[..|visits|] == visits;
  }

  /** The configs written by a run of visits, in order. */
  function Written(visits: seq<Visit>): seq<Config>
  {
    if visits == [] then []
    else
      Written(visits[..|visits| - 1]) + WrittenBy(visits[|visits| - 1])
  }

  /** Every config that a run writes has the replicas of the start and one master at most for
      every shard. */
  lemma {:induction false} WrittenIsIntact(r: Run, visits: seq<Visit>, last: Config)
    requires Chain(r, visits, last)
    ensures AllIntact(r.start, Written(visits))
  {
    if visits != [] {
      var k := |visits| - 1;
      WrittenIsIntact(r, visits[..k], Before(visits[k]));
      VisitWritesIntact(r, visits[k], k);
      AllIntactConcat(r.start, Written(visits[..k]), WrittenBy(visits[k]));
    }
  }

  /** Over a whole run every host's load settles: no host is pushed past its bound. */
  lemma {:induction false} RunSettles(r: Run, visits: seq<Visit>, last: Config, h: Host)
    requires Chain(r, visits, last) && r.lower <= r.upper
    ensures Settles(Load(r.start, h), Load(last, h), r.lower, r.upper)
  {
    if visits != [] {
      var k := |visits| - 1;
      RunSettles(r, visits[..k], Before(visits[k]), h);
      VisitSettles(r, visits[k], k, h);
    }
  }

  function Moves(visits: seq<Visit>): nat
  {
    if visits == [] then 0
    else Moves(visits[..|visits| - 1]) + (if visits[|visits| - 1].Moved? then 1 else 0)
  }

  lemma MovesAppend(visits: seq<Visit>, v: Visit)
    ensures Moves(visits + [v]) == Moves(visits) + if v.Moved? then 1 else 0
  {
    assert (visits + [v])[..|visits|] == visits;
  }

  /** Every move makes the hosts more even: the squares drop by one at least per move. */
  lemma {:induction false} RunEvens(r: Run, visits: seq<Visit>, last: Config)
    requires Chain(r, visits, last)
    ensures SumSquares(last, r.order) + Moves(visits) <= SumSquares(r.start, r.order)
  {
    if visits != [] {
      var k := |visits| - 1;
      RunEvens(r, visits[..k], Before(visits[k]));
    }
  }

  lemma VisitKeepsMasters(r: Run, v: Visit, s: nat)
    requires GoodVisit(r, v, s)
    ensures forall t: nat | t != s :: HasMaster(After(v), t) <==> HasMaster(Before(v), t)
  {
    if v.Moved? {
      forall t: nat | t != s ensures HasMaster(v.after, t) <==> HasMaster(v.before, t) {
        if HasMaster(v.after, t) {
          var h :| IsMaster(v.after, h, t);
          assert IsMaster(v.before, h, t);
        }
        if HasMaster(v.before, t) {
          var h :| IsMaster(v.before, h, t);
          assert IsMaster(v.after, h, t);
        }
      }
    }
  }

  /** The visited shards have a master; the others have one if they had one. */
  lemma {:induction false} RunKeepsMasters(r: Run, visits: seq<Visit>, last: Config, s: nat)
    requires Chain(r, visits, last) && AtMostOneMaster(r.start) && GoodLists(r.start)
    ensures Intact(r.start, last)
    ensures HasMaster(last, s) <==> s < |visits| || HasMaster(r.start, s)
  {
    if visits != [] {
      var k := |visits| - 1;
      RunKeepsMasters(r, visits[..k], Before(visits[k]), s);
      VisitKeepsMasters(r, visits[k], k);
    }
  }

  /** The bounds are the fair share of a host, rounded down and rounded up. */
  ghost predicate FairBounds(r: Run, n: nat, hosts: nat)
  {
    && r.lower <= r.upper
    && r.lower * hosts <= n < (r.lower + 1) * hosts
    && n <= r.upper * hosts < n + hosts
  }

  lemma BoundsAreFair(c: Config, order: seq<Host>, seqNo: (Host, nat, nat) -> nat)
    requires |c.hosts| > 0
    ensures FairBounds(RunOf(c, order, seqNo), c.numShards, |c.hosts|)
  {
    var n, hosts := c.numShards, |c.hosts|;
    assert n == (n / hosts) * hosts + n % hosts;
    assert (n / hosts + 1) * hosts == (n / hosts) * hosts + hosts;
  }

  /** The visit in numbers: with n shards on so many hosts a master moves when its host would
      still have the fair share without it, to a host that has no more than the fair share with
      it; and it stays when there is no such host to give or to take it. */
  ghost predicate MovesByShare(v: Visit, s: nat, n: nat, hosts: nat)
  {
    if v.Moved? then
      (Load(v.before, v.from) - 1) * hosts >= n && (Load(v.before, v.to) + 1) * hosts <= n
    else
      || (forall h :: !IsSlave(v.cfg, h, s))
      || (forall h | IsMaster(v.cfg, h, s) :: (Load(v.cfg, h) - 1) * hosts < n)
      || (forall h | IsSlave(v.cfg, h, s) :: (Load(v.cfg, h) + 1) * hosts > n)
  }

  lemma MulMonotone(a: int, b: int, m: nat)
    requires a <= b
    ensures a * m <= b * m
  {
  }

  /** Being above the upper bound and below the lower bound, by the fair share. */
  lemma BoundsByShare(r: Run, n: nat, hosts: nat, load: nat)
    requires hosts > 0 && FairBounds(r, n, hosts)
    ensures load > r.upper <==> (load - 1) * hosts >= n
    ensures load < r.lower <==> (load + 1) * hosts <= n
  {
    if load > r.upper {
      MulMonotone(r.upper, load - 1, hosts);
    } else {
      MulMonotone(load, r.upper, hosts);
      assert (load - 1) * hosts == load * hosts - hosts;
    }
    if load < r.lower {
      MulMonotone(load + 1, r.lower, hosts);
    } else {
      MulMonotone(r.lower + 1, load + 1, hosts);
    }
  }

  lemma VisitByShare(r: Run, v: Visit, s: nat, n: nat, hosts: nat)
    requires hosts > 0 && FairBounds(r, n, hosts) && GoodVisit(r, v, s)
    ensures MovesByShare(v, s, n, hosts)
  {
    if v.Moved? {
      BoundsByShare(r, n, hosts, Load(v.before, v.from));
      BoundsByShare(r, n, hosts, Load(v.before, v.to));
    } else {
      forall h ensures Load(v.cfg, h) > r.upper <==> (Load(v.cfg, h) - 1) * hosts >= n {
        BoundsByShare(r, n, hosts, Load(v.cfg, h));
      }
      forall h ensures Load(v.cfg, h) < r.lower <==> (Load(v.cfg, h) + 1) * hosts <= n {
        BoundsByShare(r, n, hosts, Load(v.cfg, h));
      }
    }
  }

  function RunOf(c: Config, order: seq<Host>, seqNo: (Host, nat, nat) -> nat): Run
    requires |c.hosts| > 0
  {
    Run(c, order, LowerBound(c.numShards, |c.hosts|), UpperBound(c.numShards, |c.hosts|), seqNo)
  }

  lemma BoundsOrdered(c: Config, order: seq<Host>, seqNo: (Host, nat, nat) -> nat)
    requires |c.hosts| > 0
    ensures var r := RunOf(c, order, seqNo); r.lower <= r.upper
  {
    BoundsAreFair(c, order, seqNo);
  }

  lemma {:induction false} ChainByShareAt(r: Run, visits: seq<Visit>, last: Config, n: nat, hosts: nat, k: nat)
    requires Chain(r, visits, last) && hosts > 0 && FairBounds(r, n, hosts) && k < |visits|
    ensures MovesByShare(visits[k], k, n, hosts)
    decreases |visits|
  {
    var end := |visits| - 1;
    if k == end {
      VisitByShare(r, visits[end], end, n, hosts);
    } else {
      ChainByShareAt(r, visits[..end], Before(visits[end]), n, hosts, k);
    }
  }

  lemma ChainByShare(r: Run, visits: seq<Visit>, last: Config, n: nat, hosts: nat)
    requires Chain(r, visits, last) && hosts > 0 && FairBounds(r, n, hosts)
    ensures forall k | 0 <= k < |visits| :: MovesByShare(visits[k], k, n, hosts)
  {
    forall k | 0 <= k < |visits| ensures MovesByShare(visits[k], k, n, hosts) {
      ChainByShareAt(r, visits, last, n, hosts, k);
    }
  }

  /** rebalance: fails without hosts; otherwise visits the shards in order, and fails at the
      first one without a master. A finished run visited them all and ends with exactly one
      master for every shard. The masters move by the fair share of a host. */
  method RebalanceSegment(c: Config, order: seq<Host>, seqNo: (Host, nat, nat) -> nat, patience: nat)
      returns (out: Outcome, d: Config, visits: seq<Visit>, written: seq<Config>)
    requires GoodLists(c) && AtMostOneMaster(c) && Enumerates(order, c.hosts.Keys)
    ensures out == NoHosts <==> |c.hosts| == 0
    ensures out == NoMaster ==> |visits| < c.numShards && !HasMaster(c, |visits|)
    ensures out == Waiting ==>
              |c.hosts| > 0 && |visits| < c.numShards && Stuck(RunOf(c, order, seqNo), d, |visits|, patience)
    ensures out != NoHosts ==>
              && Chain(RunOf(c, order, seqNo), visits, d)
              && FairBounds(RunOf(c, order, seqNo), c.numShards, |c.hosts|)
              && forall k | 0 <= k < |visits| :: MovesByShare(visits[k], k, c.numShards, |c.hosts|)
    ensures out == Finished ==> |visits| == c.numShards && written == Written(visits)
    ensures out == Finished ==> forall s: nat | s < c.numShards :: HasMaster(d, s)
    ensures Intact(c, d) && AllIntact(c, written)
  {
    out, d, visits, written := VisitShards(c, order, seqNo, patience);
    if out != NoHosts {
      BoundsAreFair(c, order, seqNo);
      ChainByShare(RunOf(c, order, seqNo), visits, d, c.numShards, |c.hosts|);
    }
  }

  method VisitShards(c: Config, order: seq<Host>, seqNo: (Host, nat, nat) -> nat, patience: nat)
      returns (out: Outcome, d: Config, visits: seq<Visit>, written: seq<Config>)
    requires GoodLists(c) && AtMostOneMaster(c) && Enumerates(order, c.hosts.Keys)
    ensures out == NoHosts <==> |c.hosts| == 0
    ensures out == NoMaster ==> |visits| < c.numShards && !HasMaster(c, |visits|)
    ensures out == Waiting ==>
              |c.hosts| > 0 && |visits| < c.numShards && Stuck(RunOf(c, order, seqNo), d, |visits|, patience)
    ensures out != NoHosts ==> Chain(RunOf(c, order, seqNo), visits, d)
    ensures out == Finished ==> |visits| == c.numShards && written == Written(visits)
    ensures out == Finished ==> forall s: nat | s < c.numShards :: HasMaster(d, s)
    ensures Intact(c, d) && AllIntact(c, written)
  {
    d, visits, written := c, [], [];
    if |c.hosts| == 0 {
      return NoHosts, d, visits, written;
    }
    var r := RunOf(c, order, seqNo);
    BoundsOrdered(c, order, seqNo);
    for s := 0 to c.numShards
      invariant |visits| == s && Chain(r, visits, d) && Intact(c, d)
      invariant written == Written(visits) && AllIntact(c, written)
    {
      var result, v, wrote := VisitShard(r, d, s, patience);
      AllIntactConcat(c, written, wrote);
      if result != Finished {
        RunKeepsMasters(r, visits, d, s);
        return result, d, visits, written + wrote;
      }
      ChainGrows(r, visits, d, v);
      visits, written, d := visits + [v], written + wrote, After(v);
    }
    forall s: nat | s < c.numShards ensures HasMaster(d, s) {
      RunKeepsMasters(r, visits, d, s);
    }
    return Finished, d, visits, written;
  }
}
