/** ConcurrentRateLimiter: tokens refilled over time and taken with a compare-and-swap loop. */
module RateLimiter {
  import opened Options
  import opened CasLoop

  /** At most `rate` tokens in `seconds`. */
  datatype Limits = Limits(rate: real, seconds: real)

  predicate Valid(l: Limits)
  {
    l.rate > 0.0 && l.seconds > 0.0
  }

  datatype Bucket = Bucket(last: nat, tokens: real)

  /** The tokens that arrive in a time. */
  function Gain(l: Limits, seconds: nat): real
    requires Valid(l)
  {
    seconds as real * l.rate / l.seconds
  }

  lemma GainAdds(l: Limits, a: nat, b: nat)
    requires Valid(l)
    ensures Gain(l, a + b) == Gain(l, a) + Gain(l, b) && Gain(l, a) >= 0.0
  {
    assert (a as real + b as real) * l.rate == a as real * l.rate + b as real * l.rate;
  }

  function Min(a: real, b: real): real
  {
    if a < b then a else b
  }

  /** A clock reading that is not newer than the last update is ignored. */
  function Refill(l: Limits, b: Bucket, now: nat): Bucket
    requires Valid(l)
  {
    if now > b.last then Bucket(now, Min(b.tokens + Gain(l, now - b.last), l.rate)) else b
  }

  function Grant(l: Limits, b: Bucket, now: nat, tokens: nat): Option<Bucket>
    requires Valid(l)
  {
    var r := Refill(l, b, now);
    if r.tokens < tokens as real then None else Some(r.(tokens := r.tokens - tokens as real))
  }

  function Granting(l: Limits): Update<Bucket>
    requires Valid(l)
  {
    (b: Bucket, now: nat, tokens: nat) => Grant(l, b, now, tokens)
  }

  predicate InRange(l: Limits, b: Bucket)
  {
    0.0 <= b.tokens <= l.rate
  }

  /** One grant: time does not go back, and tokens come only from the time that passed. */
  lemma GrantBound(l: Limits, b: Bucket, now: nat, tokens: nat)
    requires Valid(l) && InRange(l, b) && Grant(l, b, now, tokens).Some?
    ensures var a := Grant(l, b, now, tokens).value;
            && InRange(l, a) && a.last >= b.last
            && a.tokens + tokens as real <= b.tokens + Gain(l, a.last - b.last)
  {
    GainAdds(l, 0, 0);
    GainAdds(l, if now > b.last then now - b.last else 0, 0);
  }

  /** The tokens do not suffice: not those in the bucket and those that arrived since its last
      update, or more are asked for than the bucket ever holds. */
  predicate Short(l: Limits, b: Bucket, now: nat, tokens: nat)
    requires Valid(l)
  {
    if now <= b.last then b.tokens < tokens as real
    else b.tokens + (now - b.last) as real * l.rate / l.seconds < tokens as real || l.rate < tokens as real
  }

  /** Tokens are refused exactly when they do not suffice. */
  lemma RefusedWhenShort(l: Limits, b: Bucket, now: nat, tokens: nat)
    requires Valid(l)
    ensures Grant(l, b, now, tokens).None? <==> Short(l, b, now, tokens)
  {
  }

  lemma GainInTime(l: Limits, seconds: nat)
    requires Valid(l) && seconds as real >= l.seconds
    ensures Gain(l, seconds) >= l.rate
  {
    MulMonotone(l.seconds, seconds as real, l.rate);
    DivMonotone(l.seconds * l.rate, seconds as real * l.rate, l.seconds);
    DivCancel(l.rate, l.seconds);
  }

  lemma MulMonotone(x: real, y: real, m: real)
    requires m > 0.0 && x <= y
    ensures x * m <= y * m
  {
  }

  lemma DivCancel(x: real, d: real)
    requires d > 0.0
    ensures (d * x) / d == x
  {
  }

  lemma DivMonotone(x: real, y: real, d: real)
    requires d > 0.0 && x <= y
    ensures x / d <= y / d
  {
  }

  /** A bucket that has not been used for the period is full again: it grants as much as the rate,
      and what it grants is missing afterwards. */
  lemma FullAgain(l: Limits, b: Bucket, now: nat, tokens: nat)
    requires Valid(l) && InRange(l, b) && now >= b.last && (now - b.last) as real >= l.seconds
    ensures Grant(l, b, now, tokens) ==
            if tokens as real <= l.rate then Some(Bucket(now, l.rate - tokens as real)) else None
  {
    assert now > b.last;
    GainInTime(l, now - b.last);
  }

  /** Nothing arrives without time: a bucket that is asked at once grants what it has. */
  lemma NothingAtOnce(l: Limits, b: Bucket, now: nat, tokens: nat)
    requires Valid(l) && now <= b.last
    ensures Grant(l, b, now, tokens) ==
            if tokens as real <= b.tokens then Some(Bucket(b.last, b.tokens - tokens as real)) else None
  {
  }

  function Granted(ledger: seq<Commit<Bucket>>): nat
  {
    if ledger == [] then 0 else Granted(ledger[..|ledger| - 1]) + ledger[|ledger| - 1].amount
  }

  /** Over a sequential history no more is granted than was there or arrived. */
  /** A grant counts with the tokens it took. */
  lemma GrantedAppend(ledger: seq<Commit<Bucket>>, c: Commit<Bucket>)
    ensures Granted(ledger + [c]) == Granted(ledger) + c.amount
  {
    assert (ledger + [c])[..|ledger|] == ledger;
  }

  lemma {:induction false} HistoryBound(l: Limits, a: Bucket, ledger: seq<Commit<Bucket>>, b: Bucket)
    requires Valid(l) && InRange(l, a) && History(Granting(l), a, ledger, b)
    ensures InRange(l, b) && b.last >= a.last
    ensures Granted(ledger) as real + b.tokens <= a.tokens + Gain(l, b.last - a.last)
  {
    if ledger == [] {
      GainAdds(l, 0, 0);
    } else {
      var c := ledger[|ledger| - 1];
      HistoryBound(l, a, ledger[..|ledger| - 1], c.before);
      assert Granting(l)(c.before, c.now, c.amount) == Grant(l, c.before, c.now, c.amount);
      GrantBound(l, c.before, c.now, c.amount);
      GainAdds(l, c.before.last - a.last, b.last - c.before.last);
    }
  }

  ghost predicate Started(l: Limits, s: System<Bucket>)
  {
    Init(s) && s.shared.tokens == l.rate
  }

  /** For every interleaving of the loops, with stale clock readings and failing swaps: the
      tokens granted between two states are at most the rate and what arrives between their
      last updates. */
  lemma RateIsKept(l: Limits, start: System<Bucket>, before: seq<Step>, s: System<Bucket>, steps: seq<Step>,
                   u: System<Bucket>)
    requires Valid(l) && Started(l, start)
    requires Executes(Granting(l), start, before, s) && Executes(Granting(l), s, steps, u)
    ensures u.shared.last >= s.shared.last
    ensures Granted(Between(s, u)) as real <= l.rate + Gain(l, u.shared.last - s.shared.last)
  {
    var f := Granting(l);
    RunKeepsInv(f, start.shared, start, before, s);
    HistoryBound(l, start.shared, s.ledger, s.shared);
    RunsAreLinear(f, start.shared, s, steps, u);
    HistoryBound(l, s.shared, Between(s, u), u.shared);
  }

  /** GetTokens: no tokens are always allowed; otherwise the loop decides. A thread that is
      allowed took its tokens once, one that is refused took none. */
  method GetTokens(l: Limits, ghost first: Bucket, s: System<Bucket>, t: nat, tokens: nat, clock: nat -> nat,
                   spurious: nat -> bool, patience: nat)
      returns (allowed: Option<bool>, u: System<Bucket>)
    requires Valid(l) && PhaseOf(s, t).Idle? && Inv(Granting(l), first, s)
    ensures Inv(Granting(l), first, u)
    ensures tokens == 0 ==> allowed == Some(true) && u == s
    ensures tokens > 0 ==> Own(u.ledger, t) == Own(s.ledger, t) + (if allowed == Some(true) then [tokens] else [])
    ensures allowed == Some(false) ==> exists k, n: nat, b ::
              && 0 <= k < patience && Stood(Granting(l), first, s, u, n, b)
              && Short(l, b, clock(k), tokens)
    ensures allowed.None? && (forall k :: !spurious(k)) ==> |u.ledger| >= |s.ledger| + patience
  {
    if tokens <= 0 {
      return Some(true), s;
    }
    var r;
    r, u := Loop(Granting(l), first, s, t, tokens, clock, spurious, patience);
    match r
    case Done => allowed := Some(true);
    case Refused =>
      ghost var k, n: nat, b :| && 0 <= k < patience && Stood(Granting(l), first, s, u, n, b)
                                && Granting(l)(b, clock(k), tokens).None?;
      assert Grant(l, b, clock(k), tokens).None?;
      RefusedWhenShort(l, b, clock(k), tokens);
      allowed := Some(false);
    case Spinning => allowed := None;
  }
}

/** AwsS3RateLimiter: a budget that costs may overdraw, and the delay that pays the debt. */
module S3RateLimiter {
  import opened Options
  import opened CasLoop

  datatype Account = Account(last: nat, budget: real)

  function Min(a: real, b: real): real
  {
    if a < b then a else b
  }

  function Charge(rate: real, a: Account, now: nat, cost: nat): Account
  {
    var r := if now > a.last then Account(now, Min(a.budget + (now - a.last) as real * rate, rate)) else a;
    r.(budget := r.budget - cost as real)
  }

  function Charging(rate: real): Update<Account>
  {
    (a: Account, now: nat, cost: nat) => Some(Charge(rate, a, now, cost))
  }

  /** The delay in whole milliseconds. */
  function Delay(rate: real, a: Account): int
    requires rate > 0.0
  {
    if a.budget < 0.0 then (-a.budget * 1000.0 / rate).Floor else 0
  }

  /** After the delay less than one millisecond's worth of the debt is left, and no more than
      the debt was waited for. */
  lemma DelayRepays(rate: real, a: Account)
    requires rate > 0.0
    ensures Delay(rate, a) >= 0
    ensures a.budget >= 0.0 ==> Delay(rate, a) == 0
    ensures a.budget < 0.0 ==> 0.0 <= 1000.0 * -a.budget - Delay(rate, a) as real * rate < rate
  {
    if a.budget < 0.0 {
      FloorLeavesLittle(-a.budget * 1000.0, rate);
    }
  }

  lemma FloorLeavesLittle(x: real, rate: real)
    requires rate > 0.0 && x > 0.0
    ensures var d := (x / rate).Floor; d >= 0 && 0.0 <= x - d as real * rate < rate
  {
    var q := x / rate;
    var d := q.Floor as real;
    assert q * rate == x;
    assert q >= 0.0;
    MulLess(q, d + 1.0, rate);
    DistributeReal(d, 1.0, rate);
    assert x < d * rate + rate;
    if d < q {
      MulLess(d, q, rate);
    }
    assert d * rate <= x;
  }

  lemma DistributeReal(x: real, y: real, rate: real)
    ensures (x + y) * rate == x * rate + y * rate
  {
  }

  lemma MulLess(x: real, y: real, rate: real)
    requires rate > 0.0 && x < y
    ensures x * rate < y * rate
  {
  }

  lemma ChargeBound(rate: real, a: Account, now: nat, cost: nat)
    requires rate > 0.0
    ensures var b := Charge(rate, a, now, cost);
            b.last >= a.last && b.budget + cost as real <= a.budget + (b.last - a.last) as real * rate
  {
  }

  /** An account without debt is full again after a second, whatever it was charged with. */
  lemma FullAgain(rate: real, a: Account, now: nat, cost: nat)
    requires rate > 0.0 && a.budget >= 0.0 && now > a.last
    ensures Charge(rate, a, now, cost) == Account(now, rate - cost as real)
  {
    MulMonotone(1.0, (now - a.last) as real, rate);
  }

  /** A charge at once comes out of what there is. */
  lemma NothingAtOnce(rate: real, a: Account, now: nat, cost: nat)
    requires now <= a.last
    ensures Charge(rate, a, now, cost) == Account(a.last, a.budget - cost as real)
  {
  }

  /** Whoever waits the delay, in whole milliseconds and one more, has paid the debt: the next
      charge finds nothing of it left. */
  lemma DelayPaysTheDebt(rate: real, a: Account, now: nat, cost: nat)
    requires rate > 0.0 && a.budget < 0.0 && now > a.last && (now - a.last) * 1000 > Delay(rate, a)
    ensures Charge(rate, a, now, cost).budget > -(cost as real)
  {
    DelayRepays(rate, a);
    WaitedForAll(rate, -a.budget, Delay(rate, a) as real, (now - a.last) as real);
  }

  lemma WaitedForAll(rate: real, debt: real, delay: real, waited: real)
    requires rate > 0.0 && 1000.0 * debt - delay * rate < rate && delay + 1.0 <= 1000.0 * waited
    ensures debt < waited * rate
  {
    MulMonotone(delay + 1.0, 1000.0 * waited, rate);
    DistributeReal(delay, 1.0, rate);
    Regroup(waited, rate);
  }

  lemma Regroup(x: real, rate: real)
    ensures (1000.0 * x) * rate == 1000.0 * (x * rate)
  {
  }

  lemma MulMonotone(x: real, y: real, rate: real)
    requires rate > 0.0 && x <= y
    ensures x * rate <= y * rate
  {
  }

  function Cost(ledger: seq<Commit<Account>>): nat
  {
    if ledger == [] then 0 else Cost(ledger[..|ledger| - 1]) + ledger[|ledger| - 1].amount
  }

  /** A charge counts with its cost. */
  lemma CostAppend(ledger: seq<Commit<Account>>, c: Commit<Account>)
    ensures Cost(ledger + [c]) == Cost(ledger) + c.amount
  {
    assert (ledger + [c])[..|ledger|] == ledger;
  }

  lemma {:induction false} HistoryBound(rate: real, a: Account, ledger: seq<Commit<Account>>, b: Account)
    requires rate > 0.0 && History(Charging(rate), a, ledger, b)
    ensures b.last >= a.last
    ensures Cost(ledger) as real + b.budget <= a.budget + (b.last - a.last) as real * rate
  {
    if ledger != [] {
      var c := ledger[|ledger| - 1];
      HistoryBound(rate, a, ledger[..|ledger| - 1], c.before);
      assert Charging(rate)(c.before, c.now, c.amount) == Some(Charge(rate, c.before, c.now, c.amount));
      ChargeBound(rate, c.before, c.now, c.amount);
      BoundsAddUp(rate, a, c.before, b, Cost(ledger[..|ledger| - 1]), c.amount);
    }
  }

  lemma BoundsAddUp(rate: real, a: Account, mid: Account, b: Account, cost: nat, amount: nat)
    requires a.last <= mid.last <= b.last
    requires cost as real + mid.budget <= a.budget + (mid.last - a.last) as real * rate
    requires b.budget + amount as real <= mid.budget + (b.last - mid.last) as real * rate
    ensures (cost + amount) as real + b.budget <= a.budget + (b.last - a.last) as real * rate
  {
    Distribute(mid.last - a.last, b.last - mid.last, rate);
  }

  lemma Distribute(a: nat, b: nat, rate: real)
    ensures (a + b) as real * rate == a as real * rate + b as real * rate
  {
  }

  /** For every interleaving: what has been charged and what is left never exceed the rate for
      one second and the time that passed. */
  lemma BudgetIsKept(rate: real, start: System<Account>, steps: seq<Step>, u: System<Account>)
    requires rate > 0.0 && Init(start) && start.shared.budget == rate
    requires Executes(Charging(rate), start, steps, u)
    ensures u.shared.last >= start.shared.last
    ensures Cost(u.ledger) as real + u.shared.budget <= rate * (1 + u.shared.last - start.shared.last) as real
  {
    RunKeepsInv(Charging(rate), start.shared, start, steps, u);
    HistoryBound(rate, start.shared, u.ledger, u.shared);
    Distribute(1, u.shared.last - start.shared.last, rate);
  }

  /** ApplyCost: the cost is charged once, and the delay is that of the account it left. */
  method ApplyCost(rate: real, ghost first: Account, s: System<Account>, t: nat, cost: nat, clock: nat -> nat,
                   spurious: nat -> bool, patience: nat)
      returns (delay: Option<int>, u: System<Account>)
    requires rate > 0.0 && PhaseOf(s, t).Idle? && Inv(Charging(rate), first, s)
    ensures Inv(Charging(rate), first, u)
    ensures Own(u.ledger, t) == Own(s.ledger, t) + (if delay.Some? then [cost] else [])
    ensures delay.Some? ==> && u.ledger != [] && Last(u).thread == t && Last(u).amount == cost
                            && delay.value == Delay(rate, Last(u).after)
    ensures delay.None? && (forall k :: !spurious(k)) ==> |u.ledger| >= |s.ledger| + patience
  {
    var r;
    r, u := Loop(Charging(rate), first, s, t, cost, clock, spurious, patience);
    if r == Done {
      delay := Some(Delay(rate, Last(u).after));
    } else {
      delay := None;
    }
  }
}
