/** Host selection in the thrift router: filter, rank, shrink and pick clients for each shard. */
module Router {
  import opened Options
  import opened Ranking

  /** Hosts are known by their address. */
  datatype Host = Host(addr: string)

  datatype Role = ANY | MASTER | SLAVE

  datatype Quantity = ONE | TWO | ALL

  datatype ReturnCode = OK | NOT_FOUND | UNKNOWN_SEGMENT | UNKNOWN_SHARD | BAD_HOST

  type HostInfo = (Host, Role)

  /** What one call of getClientsFor compares hosts with: the length of the common group prefix
      in the segment, and the hash mixed with the call's rotation counter. */
  datatype Metric = Metric(prefix: Host -> nat, hash: Host -> nat)

  ghost predicate SameHash(m: Metric, a: Host, b: Host)
  {
    m.hash(a) == m.hash(b)
  }

  ghost predicate InjectiveHash(m: Metric)
  {
    forall a, b | SameHash(m, a, b) :: a == b
  }

  /** The comparator: longer prefix first, then smaller hash. */
  predicate Before(m: Metric, a: Host, b: Host)
  {
    if m.prefix(a) == m.prefix(b) then m.hash(a) < m.hash(b) else m.prefix(a) > m.prefix(b)
  }

  function HostOrder(m: Metric): (Host, Host) -> bool
  {
    (a, b) => Before(m, a, b)
  }

  lemma HostOrderIsTotal(m: Metric)
    requires InjectiveHash(m)
    ensures StrictTotal(HostOrder(m))
  {
    forall a, b | a != b ensures Before(m, a, b) || Before(m, b, a) {
      assert !SameHash(m, a, b);
    }
  }

  // ----- the reference: one total order over all matching hosts -----

  /** A host that matches the request, with the group it is ranked in: masters before slaves
      when the role matters, one group otherwise. */
  datatype Candidate = Candidate(group: nat, host: Host)

  /** Masters are preferred when any role will do and local hosts are not always preferred. */
  predicate MasterFirst(role: Role, preferLocal: bool)
  {
    role == ANY && !preferLocal
  }

  function Group(info: HostInfo, role: Role, preferLocal: bool): Option<nat>
  {
    if MasterFirst(role, preferLocal) then
      if info.1 == MASTER then Some(0) else if info.1 == SLAVE then Some(1) else None
    else if role == ANY || info.1 == role then Some(0)
    else None
  }

  function Candidates(infos: seq<HostInfo>, role: Role, preferLocal: bool): seq<Candidate>
  {
    if infos == [] then []
    else
      var init, last := infos[..|infos| - 1], infos[|infos| - 1];
      var g := Group(last, role, preferLocal);
      Candidates(init, role, preferLocal) + (if g.Some? then [Candidate(g.value, last.0)] else [])
  }

  predicate CandidateBefore(m: Metric, a: Candidate, b: Candidate)
  {
    if a.group == b.group then Before(m, a.host, b.host) else a.group < b.group
  }

  function CandidateOrder(m: Metric): (Candidate, Candidate) -> bool
  {
    (a, b) => CandidateBefore(m, a, b)
  }

  lemma CandidateOrderIsTotal(m: Metric)
    requires InjectiveHash(m)
    ensures StrictTotal(CandidateOrder(m))
  {
    HostOrderIsTotal(m);
    forall a, b | a != b ensures CandidateBefore(m, a, b) || CandidateBefore(m, b, a) {
      assert a.host != b.host ==> !SameHash(m, a.host, b.host);
    }
  }

  function HostsOf(cs: seq<Candidate>): (hs: seq<Host>)
    ensures |hs| == |cs| && forall i | 0 <= i < |hs| :: hs[i] == cs[i].host
  {
    if cs == [] then [] else [cs[0].host] + HostsOf(cs[1..])
  }

  /** The best `k` of all matching hosts. */
  function BestHosts(m: Metric, infos: seq<HostInfo>, role: Role, preferLocal: bool, k: nat): seq<Host>
  {
    HostsOf(Take(Sort(CandidateOrder(m), Candidates(infos, role, preferLocal)), k))
  }

  // ----- the router's way: split, rank, shrink, join, shrink -----

  function InGroup(g: nat, hosts: seq<Host>): (cs: seq<Candidate>)
    ensures |cs| == |hosts| && forall i | 0 <= i < |cs| :: cs[i] == Candidate(g, hosts[i])
  {
    if hosts == [] then [] else [Candidate(g, hosts[0])] + InGroup(g, hosts[1..])
  }

  /** Rank with a partial sort when the list is longer than the target, else with a full one. */
  method RankAndShrinkTo(m: Metric, v: seq<Host>, target: nat) returns (r: seq<Host>)
    requires InjectiveHash(m)
    ensures r == Take(Sort(HostOrder(m), v), target)
  {
    HostOrderIsTotal(m);
    if target < |v| {
      var w := PartialSort(HostOrder(m), v, target);
      PartialSortPrefix(HostOrder(m), v, w, target);
      r := w[..target];
    } else {
      SortRanks(HostOrder(m), v);
      assert |Sort(HostOrder(m), v)| == |multiset(v)|;
      r := Sort(HostOrder(m), v);
    }
  }

  /** Within a group, ranking candidates is ranking their hosts. */
  lemma SortInGroup(m: Metric, g: nat, hosts: seq<Host>)
    requires InjectiveHash(m)
    ensures Sort(CandidateOrder(m), InGroup(g, hosts)) == InGroup(g, Sort(HostOrder(m), hosts))
  {
    HostOrderIsTotal(m);
    CandidateOrderIsTotal(m);
    var sorted := Sort(HostOrder(m), hosts);
    SortRanks(HostOrder(m), hosts);
    SortRanks(CandidateOrder(m), InGroup(g, hosts));
    InGroupMultiset(g, hosts, sorted);
    RankedUnique(CandidateOrder(m), Sort(CandidateOrder(m), InGroup(g, hosts)), InGroup(g, sorted));
  }

  lemma {:induction false} InGroupCount(g: nat, hosts: seq<Host>, c: Candidate)
    ensures multiset(InGroup(g, hosts))[c] == if c.group == g then multiset(hosts)[c.host] else 0
  {
    if hosts != [] {
      var head, rest := hosts[0], hosts[1..];
      InGroupCount(g, rest, c);
      assert hosts == [head] + rest && multiset(hosts) == multiset{head} + multiset(rest);
      assert InGroup(g, hosts) == [Candidate(g, head)] + InGroup(g, rest);
    }
  }

  lemma InGroupMultiset(g: nat, a: seq<Host>, b: seq<Host>)
    requires multiset(a) == multiset(b)
    ensures multiset(InGroup(g, a)) == multiset(InGroup(g, b))
  {
    forall c ensures multiset(InGroup(g, a))[c] == multiset(InGroup(g, b))[c] {
      InGroupCount(g, a, c);
      InGroupCount(g, b, c);
    }
  }

  lemma HostsOfInGroup(g: nat, hosts: seq<Host>)
    ensures HostsOf(InGroup(g, hosts)) == hosts
  {
  }

  /** Shrinking both parts first and the whole afterwards is shrinking the whole. */
  lemma TakeOfTakes<T>(a: seq<T>, b: seq<T>, k: nat)
    ensures Take(Take(a, k) + Take(b, k), k) == Take(a + b, k)
  {
  }

  lemma HostsOfConcat(a: seq<Candidate>, b: seq<Candidate>)
    ensures HostsOf(a + b) == HostsOf(a) + HostsOf(b)
  {
  }

  lemma HostsOfTake(cs: seq<Candidate>, k: nat)
    ensures HostsOf(Take(cs, k)) == Take(HostsOf(cs), k)
  {
  }

  /** The split form and the single list both give the best `k` of all matching hosts. */
  lemma SplitIsBest(m: Metric, infos: seq<HostInfo>, role: Role, preferLocal: bool, masters: seq<Host>,
                    slaves: seq<Host>, k: nat)
    requires InjectiveHash(m)
    requires SplitInto(Candidates(infos, role, preferLocal), masters, slaves)
    ensures Take(Take(Sort(HostOrder(m), masters), k) + Take(Sort(HostOrder(m), slaves), k), k)
         == BestHosts(m, infos, role, preferLocal, k)
  {
    CandidateOrderIsTotal(m);
    var a, b := InGroup(0, masters), InGroup(1, slaves);
    var less, cs := CandidateOrder(m), Candidates(infos, role, preferLocal);
    SortConcat(less, a, b, cs);
    SortInGroup(m, 0, masters);
    SortInGroup(m, 1, slaves);
    var sm, ss := Sort(HostOrder(m), masters), Sort(HostOrder(m), slaves);
    HostsOfConcat(InGroup(0, sm), InGroup(1, ss));
    HostsOfInGroup(0, sm);
    HostsOfInGroup(1, ss);
    HostsOfTake(Sort(less, cs), k);
    TakeOfTakes(sm, ss, k);
  }

  /** Filter by role, rank and shrink. The result is the best hosts of one total order over all
      matching hosts, whichever way the router takes: `best` are the hosts it returns, `rest` the
      others that match. */
  method FilterAndRank(m: Metric, infos: seq<HostInfo>, role: Role, preferLocal: bool, target: nat)
      returns (v: seq<Host>, ghost best: seq<Candidate>, ghost rest: seq<Candidate>)
    requires InjectiveHash(m)
    ensures v == BestHosts(m, infos, role, preferLocal, target) == HostsOf(best)
    ensures Preferred(m, infos, role, preferLocal, target, best, rest)
  {
    best, rest := BestArePreferred(m, infos, role, preferLocal, target);
    if MasterFirst(role, preferLocal) {
      var masters, slaves := SplitByRole(infos, role, preferLocal);
      var a := RankAndShrinkTo(m, masters, target);
      var b := RankAndShrinkTo(m, slaves, target);
      v := a + b;
      if target < |v| {
        v := v[..target];
      }
      SplitIsBest(m, infos, role, preferLocal, masters, slaves, target);
    } else {
      var hosts := SelectByRole(infos, role, preferLocal);
      v := RankAndShrinkTo(m, hosts, target);
      SplitIsBest(m, infos, role, preferLocal, hosts, [], target);
      TakeOfTakes(Sort(HostOrder(m), hosts), [], target);
      assert Sort(HostOrder(m), hosts) + [] == Sort(HostOrder(m), hosts);
    }
  }

  lemma InGroupAppend(g: nat, hosts: seq<Host>, h: Host)
    ensures multiset(InGroup(g, hosts + [h])) == multiset(InGroup(g, hosts)) + multiset{Candidate(g, h)}
  {
    assert InGroup(g, hosts + [h]) == InGroup(g, hosts) + [Candidate(g, h)];
  }

  lemma CandidatesStep(infos: seq<HostInfo>, role: Role, preferLocal: bool, i: nat)
    requires i < |infos|
    ensures var g := Group(infos[i], role, preferLocal);
            Candidates(infos[..i + 1], role, preferLocal) ==
            Candidates(infos[..i], role, preferLocal) + (if g.Some? then [Candidate(g.value, infos[i].0)] else [])
  {
    assert infos[..i + 1][..i] == infos[..i];
  }

  /** The candidates are the masters and the slaves. */
  ghost predicate SplitInto(cs: seq<Candidate>, masters: seq<Host>, slaves: seq<Host>)
  {
    multiset(cs) == multiset(InGroup(0, masters)) + multiset(InGroup(1, slaves))
  }

  lemma SplitMaster(cs: seq<Candidate>, masters: seq<Host>, slaves: seq<Host>, h: Host)
    requires SplitInto(cs, masters, slaves)
    ensures SplitInto(cs + [Candidate(0, h)], masters + [h], slaves)
  {
    InGroupAppend(0, masters, h);
  }

  lemma SplitSlave(cs: seq<Candidate>, masters: seq<Host>, slaves: seq<Host>, h: Host)
    requires SplitInto(cs, masters, slaves)
    ensures SplitInto(cs + [Candidate(1, h)], masters, slaves + [h])
  {
    InGroupAppend(1, slaves, h);
  }

  method SplitByRole(infos: seq<HostInfo>, role: Role, preferLocal: bool)
    returns (masters: seq<Host>, slaves: seq<Host>)
    requires MasterFirst(role, preferLocal)
    ensures SplitInto(Candidates(infos, role, preferLocal), masters, slaves)
  {
    masters, slaves := [], [];
    for i := 0 to |infos|
      invariant SplitInto(Candidates(infos[..i], role, preferLocal), masters, slaves)
    {
      var info := infos[i];
      CandidatesStep(infos, role, preferLocal, i);
      ghost var cs := Candidates(infos[..i], role, preferLocal);
      if info.1 == SLAVE {
        SplitSlave(cs, masters, slaves, info.0);
        slaves := slaves + [info.0];
      } else if info.1 == MASTER {
        SplitMaster(cs, masters, slaves, info.0);
        masters := masters + [info.0];
      }
    }
    assert infos[..|infos|] == infos;
  }

  method SelectByRole(infos: seq<HostInfo>, role: Role, preferLocal: bool) returns (hosts: seq<Host>)
    requires !MasterFirst(role, preferLocal)
    ensures SplitInto(Candidates(infos, role, preferLocal), hosts, [])
  {
    hosts := [];
    for i := 0 to |infos|
      invariant SplitInto(Candidates(infos[..i], role, preferLocal), hosts, [])
    {
      var info := infos[i];
      CandidatesStep(infos, role, preferLocal, i);
      SplitMaster(Candidates(infos[..i], role, preferLocal), hosts, [], info.0);
      if role == ANY || info.1 == role {
        hosts := hosts + [info.0];
      }
    }
    assert infos[..|infos|] == infos;
  }

  // ----- the clients of a call -----

  /** The hosts with a good client, in order. */
  function GoodHosts(good: Host -> bool, hosts: seq<Host>): seq<Host>
  {
    if hosts == [] then []
    else (if good(hosts[0]) then [hosts[0]] else []) + GoodHosts(good, hosts[1..])
  }

  /** How many hosts of a shard are considered. */
  function ShrinkTarget(quantity: Quantity, maxHosts: int, hosts: nat): (k: nat)
    ensures k <= hosts && (quantity == ALL ==> k == hosts)
  {
    if quantity != ALL && 0 < maxHosts < hosts then maxHosts else hosts
  }

  function Wanted(quantity: Quantity, available: nat): nat
  {
    match quantity
    case ONE => 1
    case TWO => 2
    case ALL => available
  }

  /** What a shard gets: a code, and its clients. */
  function ShardAnswer(m: Metric, infos: seq<HostInfo>, role: Role, quantity: Quantity, good: Host -> bool,
                       preferLocal: bool, maxHosts: int): (ReturnCode, seq<Host>)
  {
    var best := BestHosts(m, infos, role, preferLocal, ShrinkTarget(quantity, maxHosts, |infos|));
    var usable := GoodHosts(good, best);
    if best == [] then (NOT_FOUND, [])
    else if (|usable| != |best| && quantity == ALL) || usable == [] then (BAD_HOST, [])
    else (OK, Take(usable, Wanted(quantity, |usable|)))
  }

  lemma GoodHostsStep(good: Host -> bool, hosts: seq<Host>, i: nat, r: seq<Host>)
    requires i < |hosts|
    ensures r + GoodHosts(good, hosts[i..]) ==
            (if good(hosts[i]) then r + [hosts[i]] else r) + GoodHosts(good, hosts[i + 1..])
  {
    assert hosts[i..][1..] == hosts[i + 1..];
  }

  method FilterBadHosts(good: Host -> bool, hosts: seq<Host>) returns (r: seq<Host>)
    ensures r == GoodHosts(good, hosts)
  {
    r := [];
    for i := 0 to |hosts|
      invariant r + GoodHosts(good, hosts[i..]) == GoodHosts(good, hosts)
    {
      GoodHostsStep(good, hosts, i, r);
      if good(hosts[i]) {
        r := r + [hosts[i]];
      }
    }
  }

  /** Push clients until the wanted quantity is reached. */
  method PickClients(hosts: seq<Host>, quantity: Quantity) returns (clients: seq<Host>)
    requires hosts != []
    ensures clients == Take(hosts, Wanted(quantity, |hosts|))
  {
    clients := [];
    for i := 0 to |hosts|
      invariant clients == hosts[..i]
      invariant quantity == ONE ==> i == 0
      invariant quantity == TWO ==> i < 2
    {
      clients := clients + [hosts[i]];
      if quantity == ONE {
        return;
      }
      if quantity == TWO && |clients| == 2 {
        return;
      }
    }
  }

  /** One shard of a call. */
  method ClientsForShard(m: Metric, infos: seq<HostInfo>, role: Role, quantity: Quantity, good: Host -> bool,
                         preferLocal: bool, maxHosts: int) returns (code: ReturnCode, clients: seq<Host>)
    requires InjectiveHash(m)
    ensures (code, clients) == ShardAnswer(m, infos, role, quantity, good, preferLocal, maxHosts)
  {
    var target := |infos|;
    if quantity != ALL && maxHosts > 0 && maxHosts < target {
      target := maxHosts;
    }
    var hosts, _, _ := FilterAndRank(m, infos, role, preferLocal, target);
    if hosts == [] {
      return NOT_FOUND, [];
    }
    var usable := FilterBadHosts(good, hosts);
    if |hosts| != |usable| && quantity == ALL {
      return BAD_HOST, [];
    }
    if usable == [] {
      return BAD_HOST, [];
    }
    clients := PickClients(usable, quantity);
    return OK, clients;
  }

  /** A call: the segment's shards, what is asked for, and the state of the clients when each
      shard is served. */
  datatype Call = Call(shards: seq<seq<HostInfo>>, role: Role, quantity: Quantity, metric: Metric,
                       good: (nat, Host) -> bool, preferLocal: bool, maxHosts: int)

  function Answer(c: Call, shard: nat): (ReturnCode, seq<Host>)
  {
    if shard >= |c.shards| then (UNKNOWN_SHARD, [])
    else ShardAnswer(c.metric, c.shards[shard], c.role, c.quantity, h => c.good(shard, h), c.preferLocal, c.maxHosts)
  }

  /** The answers of the asked shards. */
  ghost predicate Answers(c: Call, asked: seq<nat>, answers: seq<(ReturnCode, seq<Host>)>)
  {
    && |answers| <= |asked|
    && (forall i {:trigger Answer(c, asked[i])} | 0 <= i < |answers| ::
          asked[i] < |c.shards| && answers[i] == Answer(c, asked[i]))
  }

  function Codes(answers: seq<(ReturnCode, seq<Host>)>): (codes: seq<ReturnCode>)
    ensures |codes| == |answers| && forall i | 0 <= i < |codes| :: codes[i] == answers[i].0
  {
    seq(|answers|, i requires 0 <= i < |answers| => answers[i].0)
  }

  /** The last failure, OK when there is none. */
  function LastFailure(codes: seq<ReturnCode>): ReturnCode
  {
    if codes == [] then OK
    else if codes[|codes| - 1] != OK then codes[|codes| - 1]
    else LastFailure(codes[..|codes| - 1])
  }

  /** The call succeeds exactly when every shard does, and otherwise reports the failure after
      which all shards succeeded. */
  lemma {:induction false} LastFailureOk(codes: seq<ReturnCode>)
    ensures LastFailure(codes) == OK <==> forall i | 0 <= i < |codes| :: codes[i] == OK
    ensures LastFailure(codes) != OK ==> exists i: nat :: IsLastFailure(codes, i) && codes[i] == LastFailure(codes)
  {
    if codes != [] {
      var init, end := codes[..|codes| - 1], |codes| - 1;
      LastFailureOk(init);
      assert codes == init + [codes[end]];
      if codes[end] != OK {
        assert IsLastFailure(codes, end);
      } else if LastFailure(init) != OK {
        var i: nat :| IsLastFailure(init, i) && init[i] == LastFailure(init);
        assert IsLastFailure(codes, i);
      }
    }
  }

  ghost predicate IsLastFailure(codes: seq<ReturnCode>, i: nat)
  {
    i < |codes| && codes[i] != OK && forall j | i < j < |codes| :: codes[j] == OK
  }

  ghost predicate Ascending(shards: seq<nat>)
  {
    forall i, j | 0 <= i < j < |shards| :: shards[i] < shards[j]
  }

  /** The first asked shards have their answers, the others what they had. */
  ghost predicate Filled(asked: seq<nat>, before: map<nat, seq<Host>>, after: map<nat, seq<Host>>,
                         answers: seq<(ReturnCode, seq<Host>)>)
    requires |answers| <= |asked|
  {
    && after.Keys == before.Keys
    && (forall j | 0 <= j < |asked| :: asked[j] in before)
    && (forall j | 0 <= j < |answers| :: after[asked[j]] == answers[j].1)
    && (forall j | |answers| <= j < |asked| :: after[asked[j]] == before[asked[j]])
  }

  lemma FillNext(asked: seq<nat>, before: map<nat, seq<Host>>, after: map<nat, seq<Host>>,
                 answers: seq<(ReturnCode, seq<Host>)>, answer: (ReturnCode, seq<Host>))
    requires |answers| < |asked| && Ascending(asked) && Filled(asked, before, after, answers)
    ensures Filled(asked, before, after[asked[|answers|] := answer.1], answers + [answer])
    ensures LastFailure(Codes(answers + [answer])) == if answer.0 != OK then answer.0 else LastFailure(Codes(answers))
  {
    assert Codes(answers + [answer])[..|answers|] == Codes(answers);
  }

  lemma AnswersGrow(c: Call, asked: seq<nat>, answers: seq<(ReturnCode, seq<Host>)>, answer: (ReturnCode, seq<Host>))
    requires Answers(c, asked, answers) && |answers| < |asked| && asked[|answers|] < |c.shards|
    requires answer == Answer(c, asked[|answers|])
    ensures Answers(c, asked, answers + [answer])
  {
    var more := answers + [answer];
    forall i | 0 <= i < |more| ensures asked[i] < |c.shards| && more[i] == Answer(c, asked[i]) {
      if i < |answers| {
        assert answers[i] == Answer(c, asked[i]) && more[i] == answers[i];
      } else {
        assert i == |answers|;
      }
    }
  }

  /** What a call returns: every asked shard's answer and the last failure, or, when one of the
      shards is unknown, the answers of the shards before it. */
  ghost predicate Result(c: Call, asked: seq<nat>, before: map<nat, seq<Host>>, code: ReturnCode,
                         after: map<nat, seq<Host>>, answers: seq<(ReturnCode, seq<Host>)>)
  {
    && Answers(c, asked, answers) && Filled(asked, before, after, answers)
    && (if |answers| == |asked| then code == LastFailure(Codes(answers))
        else code == UNKNOWN_SHARD && asked[|answers|] >= |c.shards|)
  }

  /** getClientsFor: fills the asked shards in order. An unknown shard ends the call and leaves
      the entries from there on as they were; otherwise the last failure is reported. */
  method GetClientsFor(c: Call, asked: seq<nat>, before: map<nat, seq<Host>>)
      returns (code: ReturnCode, after: map<nat, seq<Host>>)
    requires InjectiveHash(c.metric) && Ascending(asked) && forall s :: s in before <==> s in asked
    ensures exists answers :: Result(c, asked, before, code, after, answers)
  {
    code, after := OK, before;
    ghost var answers := [];
    for i := 0 to |asked|
      invariant |answers| == i && Answers(c, asked, answers)
      invariant Filled(asked, before, after, answers)
      invariant code == LastFailure(Codes(answers))
    {
      var s := asked[i];
      if s >= |c.shards| {
        assert Result(c, asked, before, UNKNOWN_SHARD, after, answers);
        return UNKNOWN_SHARD, after;
      }
      var result, clients := ServeShard(c, s);
      FillNext(asked, before, after, answers, (result, clients));
      AnswersGrow(c, asked, answers, (result, clients));
      after := after[s := clients];
      answers := answers + [(result, clients)];
      if result != OK {
        code := result;
      }
    }
    assert Result(c, asked, before, code, after, answers);
  }

  method ServeShard(c: Call, s: nat) returns (code: ReturnCode, clients: seq<Host>)
    requires InjectiveHash(c.metric) && s < |c.shards|
    ensures (code, clients) == Answer(c, s)
  {
    code, clients :=
      ClientsForShard(c.metric, c.shards[s], c.role, c.quantity, h => c.good(s, h), c.preferLocal, c.maxHosts);
  }

  /** The public call: an unknown segment changes nothing. */
  method GetClients(segments: map<string, seq<seq<HostInfo>>>, segment: string, call: Call, asked: seq<nat>,
                    before: map<nat, seq<Host>>)
      returns (code: ReturnCode, after: map<nat, seq<Host>>)
    requires InjectiveHash(call.metric) && Ascending(asked) && forall s :: s in before <==> s in asked
    ensures segment !in segments ==> code == UNKNOWN_SEGMENT && after == before
    ensures segment in segments ==>
              exists answers :: Result(call.(shards := segments[segment]), asked, before, code, after, answers)
  {
    if segment !in segments {
      return UNKNOWN_SEGMENT, before;
    }
    code, after := GetClientsFor(call.(shards := segments[segment]), asked, before);
  }

  // ----- what the answers mean -----

  /** The considered hosts are in order, and no matching host that is left out precedes one. */
  lemma NothingBetterLeftOut(m: Metric, infos: seq<HostInfo>, role: Role, preferLocal: bool, k: nat)
      returns (best: seq<Candidate>, rest: seq<Candidate>)
    requires InjectiveHash(m)
    ensures BestHosts(m, infos, role, preferLocal, k) == HostsOf(best)
    ensures multiset(best) + multiset(rest) == multiset(Candidates(infos, role, preferLocal))
    ensures rest != [] ==> |best| == k
    ensures Ranked(CandidateOrder(m), best) && AllBefore(CandidateOrder(m), best, rest)
  {
    CandidateOrderIsTotal(m);
    best, rest := SortSplits(CandidateOrder(m), Candidates(infos, role, preferLocal), k);
  }

  lemma {:induction false} GoodHostsMembers(good: Host -> bool, hosts: seq<Host>, h: Host)
    ensures h in GoodHosts(good, hosts) <==> h in hosts && good(h)
  {
    if hosts != [] {
      GoodHostsMembers(good, hosts[1..], h);
    }
  }

  /** The candidates with a good client, in order. */
  function GoodCandidates(good: Host -> bool, cs: seq<Candidate>): seq<Candidate>
  {
    if cs == [] then []
    else (if good(cs[0].host) then [cs[0]] else []) + GoodCandidates(good, cs[1..])
  }

  lemma {:induction false} GoodCandidatesHosts(good: Host -> bool, cs: seq<Candidate>)
    ensures HostsOf(GoodCandidates(good, cs)) == GoodHosts(good, HostsOf(cs))
  {
    if cs != [] {
      GoodCandidatesHosts(good, cs[1..]);
      assert HostsOf(cs)[1..] == HostsOf(cs[1..]);
    }
  }

  lemma {:induction false} GoodCandidatesMembers(good: Host -> bool, cs: seq<Candidate>, x: Candidate)
    ensures x in GoodCandidates(good, cs) <==> x in cs && good(x.host)
  {
    if cs != [] {
      GoodCandidatesMembers(good, cs[1..], x);
    }
  }

  lemma {:induction false} GoodCandidatesRanked(less: (Candidate, Candidate) -> bool, good: Host -> bool,
                                                cs: seq<Candidate>)
    requires Ranked(less, cs)
    ensures Ranked(less, GoodCandidates(good, cs))
  {
    if cs != [] {
      var rest := GoodCandidates(good, cs[1..]);
      GoodCandidatesRanked(less, good, cs[1..]);
      forall i | 0 <= i < |rest| ensures !less(rest[i], cs[0]) {
        GoodCandidatesMembers(good, cs[1..], rest[i]);
        assert rest[i] in rest;
      }
      if good(cs[0].host) {
        ConsRanks(less, cs[0], rest);
      } else {
        assert GoodCandidates(good, cs) == rest;
      }
    }
  }

  lemma {:induction false} GoodHostsAll(good: Host -> bool, hosts: seq<Host>)
    ensures |GoodHosts(good, hosts)| <= |hosts|
    ensures |GoodHosts(good, hosts)| == |hosts| ==> GoodHosts(good, hosts) == hosts
  {
    if hosts != [] {
      GoodHostsAll(good, hosts[1..]);
      assert hosts == [hosts[0]] + hosts[1..];
    }
  }

  lemma {:induction false} CandidatesInOneGroup(infos: seq<HostInfo>, role: Role, preferLocal: bool)
    requires !MasterFirst(role, preferLocal)
    ensures forall c | c in Candidates(infos, role, preferLocal) :: c.group == 0
  {
    if infos != [] {
      CandidatesInOneGroup(infos[..|infos| - 1], role, preferLocal);
    }
  }

  /** Of the good ones among ranked candidates the first `n` are taken: they are ranked, and no
      good one that is left out precedes one of them. */
  lemma FirstGoodAreBest(less: (Candidate, Candidate) -> bool, good: Host -> bool, best: seq<Candidate>, n: nat)
      returns (chosen: seq<Candidate>)
    requires Ranked(less, best)
    ensures HostsOf(chosen) == Take(GoodHosts(good, HostsOf(best)), n) && Ranked(less, chosen)
    ensures forall x | x in chosen :: x in best && good(x.host)
    ensures forall x | x in best && good(x.host) :: x in chosen || AllBefore(less, chosen, [x])
    ensures |GoodHosts(good, HostsOf(best))| <= n ==> forall x | x in best && good(x.host) :: x in chosen
  {
    var usable := GoodCandidates(good, best);
    GoodCandidatesHosts(good, best);
    GoodCandidatesRanked(less, good, best);
    var k := if n < |usable| then n else |usable|;
    chosen := usable[..k];
    var spare := usable[k..];
    assert usable == chosen + spare;
    HostsOfTake(usable, n);
    SplitRanked(less, chosen, spare);
    forall x | x in chosen ensures x in best && good(x.host) {
      GoodCandidatesMembers(good, best, x);
    }
    forall x | x in best && good(x.host)
      ensures x in chosen || AllBefore(less, chosen, [x])
      ensures |usable| <= n ==> x in chosen
    {
      GoodCandidatesMembers(good, best, x);
    }
  }

  /** The clients of a filled shard are the best good ones: they follow the order, and neither
      a good considered host that is left out nor a matching host that was not considered
      precedes one of them. `chosen` are the clients with their groups, `best` the considered
      hosts, `rest` the others that match. This holds with masters first and with one list. */
  lemma ClientsAreBest(c: Call, shard: nat) returns (chosen: seq<Candidate>, best: seq<Candidate>, rest: seq<Candidate>)
    requires InjectiveHash(c.metric) && shard < |c.shards| && Answer(c, shard).0 == OK
    ensures var less := CandidateOrder(c.metric);
            && HostsOf(chosen) == Answer(c, shard).1 && Ranked(less, chosen)
            && multiset(best) + multiset(rest) == multiset(Candidates(c.shards[shard], c.role, c.preferLocal))
            && (forall x | x in chosen :: x in best && c.good(shard, x.host))
            && (forall x | x in best && c.good(shard, x.host) :: x in chosen || AllBefore(less, chosen, [x]))
            && AllBefore(less, chosen, rest)
  {
    var infos, good := c.shards[shard], (h => c.good(shard, h));
    var k := ShrinkTarget(c.quantity, c.maxHosts, |infos|);
    best, rest := NothingBetterLeftOut(c.metric, infos, c.role, c.preferLocal, k);
    chosen := FirstGoodAreBest(CandidateOrder(c.metric), good, best,
                               Wanted(c.quantity, |GoodHosts(good, HostsOf(best))|));
  }

  // ----- the same in prefixes, hashes, roles and numbers -----

  /** How often the shard lists the host in a role that the call asks for. With masters first the
      group says the role: 0 for masters, 1 for slaves; otherwise there is one group. */
  function Listings(infos: seq<HostInfo>, role: Role, preferLocal: bool, x: Candidate): nat
  {
    var listed := multiset(infos);
    if role == ANY && !preferLocal then
      if x.group == 0 then listed[(x.host, MASTER)] else if x.group == 1 then listed[(x.host, SLAVE)] else 0
    else if x.group != 0 then 0
    else if role == ANY then listed[(x.host, MASTER)] + listed[(x.host, SLAVE)] + listed[(x.host, ANY)]
    else listed[(x.host, role)]
  }

  lemma CountAppend(infos: seq<HostInfo>, last: HostInfo, p: HostInfo)
    ensures multiset(infos + [last])[p] == multiset(infos)[p] + if last == p then 1 else 0
  {
  }

  lemma ListingsAppend(infos: seq<HostInfo>, last: HostInfo, role: Role, preferLocal: bool, x: Candidate)
    ensures Listings(infos + [last], role, preferLocal, x) == Listings(infos, role, preferLocal, x)
         + if Group(last, role, preferLocal) == Some(x.group) && last.0 == x.host then 1 else 0
  {
    CountAppend(infos, last, (x.host, MASTER));
    CountAppend(infos, last, (x.host, SLAVE));
    CountAppend(infos, last, (x.host, ANY));
    assert forall r :: last == (x.host, r) <==> last.0 == x.host && last.1 == r;
    match last.1
    case ANY =>
    case MASTER =>
    case SLAVE =>
  }

  lemma CandidateAppend(cs: seq<Candidate>, y: Candidate, x: Candidate)
    ensures multiset(cs + [y])[x] == multiset(cs)[x] + if x == y then 1 else 0
  {
  }

  lemma {:induction false} CandidatesAppend(infos: seq<HostInfo>, last: HostInfo, role: Role, preferLocal: bool,
                                            x: Candidate)
    ensures multiset(Candidates(infos + [last], role, preferLocal))[x]
         == multiset(Candidates(infos, role, preferLocal))[x]
          + if Group(last, role, preferLocal) == Some(x.group) && last.0 == x.host then 1 else 0
  {
    assert (infos + [last])[..|infos|] == infos;
    var cs, g := Candidates(infos, role, preferLocal), Group(last, role, preferLocal);
    if g.Some? {
      CandidateAppend(cs, Candidate(g.value, last.0), x);
    } else {
      assert cs + [] == cs;
    }
  }

  lemma {:induction false} CandidatesAreListed(infos: seq<HostInfo>, role: Role, preferLocal: bool, x: Candidate)
    ensures multiset(Candidates(infos, role, preferLocal))[x] == Listings(infos, role, preferLocal, x)
  {
    if infos != [] {
      var init, last := infos[..|infos| - 1], infos[|infos| - 1];
      CandidatesAreListed(init, role, preferLocal, x);
      ListingsAppend(init, last, role, preferLocal, x);
      CandidatesAppend(init, last, role, preferLocal, x);
      assert infos == init + [last];
    }
  }

  /** Nothing speaks for `b` before `a`: masters come before slaves, then longer common prefixes
      before shorter ones, then smaller hashes before larger ones. */
  predicate NoWorse(m: Metric, a: Candidate, b: Candidate)
  {
    || a.group < b.group
    || (a.group == b.group && m.prefix(a.host) > m.prefix(b.host))
    || (a.group == b.group && m.prefix(a.host) == m.prefix(b.host) && m.hash(a.host) <= m.hash(b.host))
  }

  lemma NotBeforeIsNoWorse(m: Metric, a: Candidate, b: Candidate)
    requires !CandidateOrder(m)(b, a)
    ensures NoWorse(m, a, b)
  {
  }

  lemma RankedIsNoWorse(m: Metric, cs: seq<Candidate>)
    requires Ranked(CandidateOrder(m), cs)
    ensures forall i, j | 0 <= i < j < |cs| :: NoWorse(m, cs[i], cs[j])
  {
    forall i, j | 0 <= i < j < |cs| ensures NoWorse(m, cs[i], cs[j]) {
      NotBeforeIsNoWorse(m, cs[i], cs[j]);
    }
  }

  /** How many hosts are considered when `all` match. */
  ghost predicate Considers(quantity: Quantity, maxHosts: int, considered: nat, all: nat)
  {
    considered == if quantity != ALL && 0 < maxHosts < all then maxHosts else all
  }

  /** The best `k` hosts and the others, as the shard lists them: masters first when that is
      asked for, then by descending common prefix, then by ascending hash. */
  ghost predicate Preferred(m: Metric, infos: seq<HostInfo>, role: Role, preferLocal: bool, k: nat,
                            best: seq<Candidate>, rest: seq<Candidate>)
  {
    && (forall x :: multiset(best)[x] + multiset(rest)[x] == Listings(infos, role, preferLocal, x))
    && |best| <= k && (rest != [] ==> |best| == k)
    && (forall i, j | 0 <= i < j < |best| :: NoWorse(m, best[i], best[j]))
    && (forall x, y | x in best && y in rest :: NoWorse(m, x, y))
  }

  lemma BestArePreferred(m: Metric, infos: seq<HostInfo>, role: Role, preferLocal: bool, k: nat)
      returns (best: seq<Candidate>, rest: seq<Candidate>)
    requires InjectiveHash(m)
    ensures BestHosts(m, infos, role, preferLocal, k) == HostsOf(best) && Ranked(CandidateOrder(m), best)
    ensures Preferred(m, infos, role, preferLocal, k, best, rest)
  {
    best, rest := NothingBetterLeftOut(m, infos, role, preferLocal, k);
    forall x ensures multiset(best)[x] + multiset(rest)[x] == Listings(infos, role, preferLocal, x) {
      CandidatesAreListed(infos, role, preferLocal, x);
      assert (multiset(best) + multiset(rest))[x] == multiset(best)[x] + multiset(rest)[x];
    }
    RankedIsNoWorse(m, best);
    forall x, y | x in best && y in rest ensures NoWorse(m, x, y) {
      NotAfter(m, best, rest, x, y);
    }
  }

  /** The hosts that are considered and the other hosts that match, as the shard lists them: the
      considered ones are no worse, and as many as the flag allows. */
  ghost predicate Considered(c: Call, shard: nat, best: seq<Candidate>, rest: seq<Candidate>)
    requires shard < |c.shards|
  {
    && (forall x :: multiset(best)[x] + multiset(rest)[x] == Listings(c.shards[shard], c.role, c.preferLocal, x))
    && Considers(c.quantity, c.maxHosts, |best|, |best| + |rest|)
    && (forall x, y | x in best && y in rest :: NoWorse(c.metric, x, y))
  }

  lemma ConsideredHosts(c: Call, shard: nat) returns (best: seq<Candidate>, rest: seq<Candidate>)
    requires InjectiveHash(c.metric) && shard < |c.shards|
    ensures Considered(c, shard, best, rest) && Ranked(CandidateOrder(c.metric), best)
    ensures HostsOf(best) == ConsideredBy(c, shard)
  {
    var infos := c.shards[shard];
    best, rest := BestArePreferred(c.metric, infos, c.role, c.preferLocal,
                                   ShrinkTarget(c.quantity, c.maxHosts, |infos|));
    CountsConsidered(c, shard, best, rest);
  }

  function ConsideredBy(c: Call, shard: nat): seq<Host>
    requires shard < |c.shards|
  {
    var infos := c.shards[shard];
    BestHosts(c.metric, infos, c.role, c.preferLocal, ShrinkTarget(c.quantity, c.maxHosts, |infos|))
  }

  /** What a filled shard gets, in the caller's terms. `chosen` are the clients, `best` the hosts
      that were considered, `rest` the other hosts that match. The clients are good; each is
      followed, and left out, only by hosts that it is no worse than. */
  lemma {:induction false} ServedByPreference(c: Call, shard: nat)
      returns (chosen: seq<Candidate>, best: seq<Candidate>, rest: seq<Candidate>)
    requires InjectiveHash(c.metric) && shard < |c.shards| && Answer(c, shard).0 == OK
    ensures HostsOf(chosen) == Answer(c, shard).1 && Considered(c, shard, best, rest)
    ensures forall x | x in chosen :: x in best && c.good(shard, x.host)
    ensures forall i, j | 0 <= i < j < |chosen| :: NoWorse(c.metric, chosen[i], chosen[j])
    ensures forall x, y | x in chosen && y in best && c.good(shard, y.host) && y !in chosen :: NoWorse(c.metric, x, y)
    ensures c.quantity == ONE ==> |chosen| == 1
    ensures c.quantity == TWO ==>
              |chosen| == 2 || (|chosen| == 1 && forall y | y in best && c.good(shard, y.host) :: y in chosen)
    ensures c.quantity == ALL ==> rest == [] && |chosen| == |best| && forall y | y in best :: y in chosen
  {
    var m := c.metric;
    best, rest := ConsideredHosts(c, shard);
    chosen := PicksFrom(c, shard, best);
    RankedIsNoWorse(m, chosen);
    forall x, y | x in chosen && y in best && c.good(shard, y.host) && y !in chosen ensures NoWorse(m, x, y) {
      assert AllBefore(CandidateOrder(m), chosen, [y]);
      NotAfter(m, chosen, [y], x, y);
    }
  }

  lemma {:induction false} PicksFrom(c: Call, shard: nat, best: seq<Candidate>) returns (chosen: seq<Candidate>)
    requires shard < |c.shards| && Answer(c, shard).0 == OK
    requires HostsOf(best) == ConsideredBy(c, shard) && Ranked(CandidateOrder(c.metric), best)
    ensures HostsOf(chosen) == Answer(c, shard).1 && Ranked(CandidateOrder(c.metric), chosen)
    ensures forall x | x in chosen :: x in best && c.good(shard, x.host)
    ensures forall y | y in best && c.good(shard, y.host) ::
              y in chosen || AllBefore(CandidateOrder(c.metric), chosen, [y])
    ensures c.quantity == ONE ==> |chosen| == 1
    ensures c.quantity == TWO ==>
              |chosen| == 2 || (|chosen| == 1 && forall y | y in best && c.good(shard, y.host) :: y in chosen)
    ensures c.quantity == ALL ==> |chosen| == |best| && forall y | y in best :: y in chosen
  {
    var good := h => c.good(shard, h);
    var usable := GoodHosts(good, HostsOf(best));
    chosen := FirstGoodAreBest(CandidateOrder(c.metric), good, best, Wanted(c.quantity, |usable|));
    if c.quantity == ALL {
      forall y | y in best ensures y in chosen {
        AllAreGood(good, best, y);
      }
    }
  }

  lemma {:induction false} CountsConsidered(c: Call, shard: nat, best: seq<Candidate>, rest: seq<Candidate>)
    requires shard < |c.shards|
    requires var k := ShrinkTarget(c.quantity, c.maxHosts, |c.shards[shard]|);
             && HostsOf(best) == BestHosts(c.metric, c.shards[shard], c.role, c.preferLocal, k)
             && (rest != [] ==> |best| == k)
    requires forall x ::
               multiset(best)[x] + multiset(rest)[x] == Listings(c.shards[shard], c.role, c.preferLocal, x)
    ensures Considers(c.quantity, c.maxHosts, |best|, |best| + |rest|)
  {
    var all := Candidates(c.shards[shard], c.role, c.preferLocal);
    CandidatesSize(c.shards[shard], c.role, c.preferLocal);
    forall x ensures multiset(best)[x] + multiset(rest)[x] == multiset(all)[x] {
      CandidatesAreListed(c.shards[shard], c.role, c.preferLocal, x);
    }
    SameSize(best, rest, all);
  }

  lemma {:induction false} SameSize(best: seq<Candidate>, rest: seq<Candidate>, all: seq<Candidate>)
    requires forall x :: multiset(best)[x] + multiset(rest)[x] == multiset(all)[x]
    ensures |best| + |rest| == |all|
  {
    assert multiset(best) + multiset(rest) == multiset(all);
    assert |multiset(all)| == |multiset(best)| + |multiset(rest)|;
  }

  /** Every considered host is good when the shard is filled with all of them. */
  lemma AllAreGood(good: Host -> bool, best: seq<Candidate>, y: Candidate)
    requires y in best && |GoodHosts(good, HostsOf(best))| == |best|
    ensures good(y.host)
  {
    GoodHostsAll(good, HostsOf(best));
    var i :| 0 <= i < |best| && best[i] == y;
    assert HostsOf(best)[i] in GoodHosts(good, HostsOf(best));
    GoodHostsMembers(good, HostsOf(best), y.host);
  }

  /** Why a shard is not filled, in the caller's terms: no host matches; or some considered host is
      bad and all are wanted, or all considered hosts are bad. It gets no clients then. */
  lemma WhyNotFilled(c: Call, shard: nat) returns (best: seq<Candidate>, rest: seq<Candidate>)
    requires InjectiveHash(c.metric) && shard < |c.shards|
    ensures Considered(c, shard, best, rest)
    ensures CodeFor(c, shard, best, rest, Answer(c, shard).0)
    ensures Answer(c, shard).0 != OK ==> Answer(c, shard).1 == []
  {
    best, rest := ConsideredHosts(c, shard);
    SomeAreGood(h => c.good(shard, h), best);
  }

  ghost predicate CodeFor(c: Call, shard: nat, best: seq<Candidate>, rest: seq<Candidate>, code: ReturnCode)
  {
    if best == [] && rest == [] then code == NOT_FOUND
    else if (exists x | x in best :: c.good(shard, x.host))
            && (c.quantity == ALL ==> forall x | x in best :: c.good(shard, x.host)) then code == OK
    else code == BAD_HOST
  }

  lemma {:induction false} SomeAreGood(good: Host -> bool, best: seq<Candidate>)
    ensures |GoodHosts(good, HostsOf(best))| <= |best|
    ensures GoodHosts(good, HostsOf(best)) == [] <==> forall x | x in best :: !good(x.host)
    ensures |GoodHosts(good, HostsOf(best))| == |best| <==> forall x | x in best :: good(x.host)
  {
    if best != [] {
      var head, tail := best[0], best[1..];
      SomeAreGood(good, tail);
      assert best == [head] + tail;
      assert HostsOf(best)[0] == head.host && HostsOf(best)[1..] == HostsOf(tail);
    }
  }

  lemma NotAfter(m: Metric, a: seq<Candidate>, b: seq<Candidate>, x: Candidate, y: Candidate)
    requires AllBefore(CandidateOrder(m), a, b) && x in a && y in b
    ensures NoWorse(m, x, y)
  {
    NotBeforeIsNoWorse(m, x, y);
  }

  /** With one list the answer of every shard follows the order of the hosts. */
  lemma AnswersAreRanked(c: Call, shard: nat)
    requires InjectiveHash(c.metric) && !MasterFirst(c.role, c.preferLocal)
    ensures Ranked(HostOrder(c.metric), Answer(c, shard).1)
  {
    if shard < |c.shards| && Answer(c, shard).0 == OK {
      var chosen, best, rest := ClientsAreBest(c, shard);
      CandidatesInOneGroup(c.shards[shard], c.role, c.preferLocal);
      OneGroupRanked(c.metric, chosen, best, rest, Candidates(c.shards[shard], c.role, c.preferLocal));
    }
  }

  lemma OneGroupRanked(m: Metric, chosen: seq<Candidate>, best: seq<Candidate>, rest: seq<Candidate>,
                       all: seq<Candidate>)
    requires Ranked(CandidateOrder(m), chosen) && (forall x | x in chosen :: x in best)
    requires multiset(best) + multiset(rest) == multiset(all) && forall x | x in all :: x.group == 0
    ensures Ranked(HostOrder(m), HostsOf(chosen))
  {
    forall i | 0 <= i < |chosen| ensures chosen[i].group == 0 {
      assert chosen[i] in chosen && chosen[i] in best;
      assert chosen[i] in multiset(best);
      assert chosen[i] in multiset(all);
    }
    forall i, j | 0 <= i < j < |chosen| ensures !HostOrder(m)(chosen[j].host, chosen[i].host) {
      assert !CandidateOrder(m)(chosen[j], chosen[i]);
    }
  }

  lemma SameOrder(less: (Host, Host) -> bool, a: seq<Host>, b: seq<Host>, i: nat, j: nat, k: nat, l: nat)
    requires StrictTotal(less) && Ranked(less, a) && Ranked(less, b)
    requires i < j < |a| && k < |b| && l < |b| && a[i] == b[k] && a[j] == b[l] && a[i] != a[j]
    ensures k < l
  {
    assert less(a[i], a[j]);
  }

  /** With one list two hosts keep the same relative order in every shard of a call. */
  lemma SameOrderInEveryShard(c: Call, s: nat, t: nat, i: nat, j: nat, k: nat, l: nat)
    requires InjectiveHash(c.metric) && !MasterFirst(c.role, c.preferLocal)
    requires var a, b := Answer(c, s).1, Answer(c, t).1;
             i < j < |a| && k < |b| && l < |b| && a[i] == b[k] && a[j] == b[l] && a[i] != a[j]
    ensures k < l
  {
    HostOrderIsTotal(c.metric);
    AnswersAreRanked(c, s);
    AnswersAreRanked(c, t);
    SameOrder(HostOrder(c.metric), Answer(c, s).1, Answer(c, t).1, i, j, k, l);
  }

  /** The list holds every candidate's host, and no more. */
  ghost predicate HoldsAll(hosts: seq<Host>, all: seq<Candidate>)
  {
    |hosts| == |all| && forall x | x in all :: x.host in hosts
  }

  /** A filled shard has good hosts of the considered ones only, as many as wanted when there
      are that many; with ALL it has every matching host. */
  lemma FilledShard(c: Call, shard: nat)
    requires InjectiveHash(c.metric) && shard < |c.shards| && Answer(c, shard).0 == OK
    ensures var infos := c.shards[shard];
            var target := ShrinkTarget(c.quantity, c.maxHosts, |infos|);
            var best := BestHosts(c.metric, infos, c.role, c.preferLocal, target);
            var clients := Answer(c, shard).1;
            && clients != []
            && (forall h | h in clients :: h in best && c.good(shard, h))
            && (c.quantity == ALL ==> clients == best && HoldsAll(clients, Candidates(infos, c.role, c.preferLocal)))
            && (|clients| < Wanted(c.quantity, |best|) ==> forall h | h in best && c.good(shard, h) :: h in clients)
  {
    var infos := c.shards[shard];
    var k := ShrinkTarget(c.quantity, c.maxHosts, |infos|);
    var best := BestHosts(c.metric, infos, c.role, c.preferLocal, k);
    var good := h => c.good(shard, h);
    var usable := GoodHosts(good, best);
    forall h ensures h in usable <==> h in best && c.good(shard, h) {
      GoodHostsMembers(good, best, h);
    }
    GoodHostsAll(good, best);
    if c.quantity == ALL {
      AllAreConsidered(c.metric, infos, c.role, c.preferLocal);
    }
  }

  lemma {:induction false} CandidatesSize(infos: seq<HostInfo>, role: Role, preferLocal: bool)
    ensures |Candidates(infos, role, preferLocal)| <= |infos|
  {
    if infos != [] {
      CandidatesSize(infos[..|infos| - 1], role, preferLocal);
    }
  }

  lemma AllAreConsidered(m: Metric, infos: seq<HostInfo>, role: Role, preferLocal: bool)
    requires InjectiveHash(m)
    ensures HoldsAll(BestHosts(m, infos, role, preferLocal, |infos|), Candidates(infos, role, preferLocal))
  {
    var all := Candidates(infos, role, preferLocal);
    var best, rest := NothingBetterLeftOut(m, infos, role, preferLocal, |infos|);
    CandidatesSize(infos, role, preferLocal);
    assert |multiset(all)| == |multiset(best)| + |multiset(rest)|;
    assert rest == [];
    forall x | x in all ensures x.host in HostsOf(best) {
      assert x in multiset(all);
      assert x in multiset(best);
      var i :| 0 <= i < |best| && best[i] == x;
      assert HostsOf(best)[i] == x.host;
    }
  }
}
