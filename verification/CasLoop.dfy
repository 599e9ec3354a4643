/** Threads that update one shared word with compare-and-swap loops. */
module CasLoop {
  import opened Options

  /** What an update computes from the word, a clock reading and an amount; None refuses. */
  type Update<!S> = (S, nat, nat) -> Option<S>

  /** Where a thread is in its loop. */
  datatype Phase<S> = Idle | Loaded(pre: S, amount: nat) | Ready(pre: S, amount: nat, now: nat, next: S)

  /** A successful swap. */
  datatype Commit<S> = Commit(thread: nat, amount: nat, now: nat, before: S, after: S)

  datatype System<S> = System(shared: S, phases: map<nat, Phase<S>>, ledger: seq<Commit<S>>)

  /** Load the word; compute from it and any clock reading, also a stale one; swap, which may
      also fail for no reason. */
  datatype Step = Load(thread: nat, amount: nat) | Compute(thread: nat, now: nat) | Swap(thread: nat, spurious: bool)

  function PhaseOf<S>(s: System<S>, t: nat): Phase<S>
  {
    if t in s.phases then s.phases[t] else Idle
  }

  predicate Enabled<S>(s: System<S>, step: Step)
  {
    match step
    case Load(t, _) => PhaseOf(s, t).Idle?
    case Compute(t, _) => PhaseOf(s, t).Loaded?
    case Swap(t, _) => PhaseOf(s, t).Ready?
  }

  function SetPhase<S>(s: System<S>, t: nat, p: Phase<S>): System<S>
  {
    s.(phases := s.phases[t := p])
  }

  function Apply<S(==)>(f: Update<S>, s: System<S>, step: Step): System<S>
    requires Enabled(s, step)
  {
    match step
    case Load(t, amount) => SetPhase(s, t, Loaded(s.shared, amount))
    case Compute(t, now) =>
      var p := PhaseOf(s, t);
      var next := f(p.pre, now, p.amount);
      SetPhase(s, t, if next.Some? then Ready(p.pre, p.amount, now, next.value) else Idle)
    case Swap(t, spurious) =>
      var p := PhaseOf(s, t);
      if s.shared == p.pre && !spurious then
        SetPhase(s, t, Idle).(shared := p.next, ledger := s.ledger + [Commit(t, p.amount, p.now, p.pre, p.next)])
      else SetPhase(s, t, Loaded(s.shared, p.amount))
  }

  ghost predicate Executes<S>(f: Update<S>, s: System<S>, steps: seq<Step>, t: System<S>)
    decreases |steps|
  {
    if steps == [] then s == t
    else Enabled(s, steps[0]) && Executes(f, Apply(f, s, steps[0]), steps[1..], t)
  }

  // ----- the ledger is a sequential history -----

  /** The commits, taken one after the other, lead from `first` to `last`, each of them an
      update of the word the one before left. */
  ghost predicate History<S>(f: Update<S>, first: S, ledger: seq<Commit<S>>, last: S)
  {
    if ledger == [] then first == last
    else
      var c := ledger[|ledger| - 1];
      && f(c.before, c.now, c.amount) == Some(c.after) && c.after == last
      && History(f, first, ledger[..|ledger| - 1], c.before)
  }

  ghost predicate PhasesFit<S>(f: Update<S>, s: System<S>)
  {
    forall t {:trigger s.phases[t]} | t in s.phases && s.phases[t].Ready? ::
      f(s.phases[t].pre, s.phases[t].now, s.phases[t].amount) == Some(s.phases[t].next)
  }

  ghost predicate Inv<S>(f: Update<S>, first: S, s: System<S>)
  {
    History(f, first, s.ledger, s.shared) && PhasesFit(f, s)
  }

  ghost predicate Init<S>(s: System<S>)
  {
    s.phases == map[] && s.ledger == []
  }

  /** The ledger only grows, and the word changes only with it. */
  ghost predicate Later<S>(s: System<S>, u: System<S>)
  {
    s.ledger <= u.ledger && (s.ledger == u.ledger ==> s.shared == u.shared)
  }

  lemma HistoryAppend<S(!new)>(f: Update<S>, first: S, ledger: seq<Commit<S>>, c: Commit<S>)
    requires History(f, first, ledger, c.before) && f(c.before, c.now, c.amount) == Some(c.after)
    ensures History(f, first, ledger + [c], c.after)
  {
    assert (ledger + [c])[..|ledger|] == ledger;
  }

  /** The commit of a step, if it makes one. */
  function CommitOf<S(==)>(s: System<S>, step: Step): Option<Commit<S>>
    requires Enabled(s, step)
  {
    if step.Swap? then
      var p := PhaseOf(s, step.thread);
      if s.shared == p.pre && !step.spurious then Some(Commit(step.thread, p.amount, p.now, p.pre, p.next)) else None
    else None
  }

  /** A step makes one commit, which takes the word from what it was to what it is, or leaves
      word and ledger alone. */
  lemma StepCommits<S(!new)>(f: Update<S>, s: System<S>, step: Step)
    requires PhasesFit(f, s) && Enabled(s, step)
    ensures var u, c := Apply(f, s, step), CommitOf(s, step);
            && PhasesFit(f, u)
            && (c.None? ==> u.ledger == s.ledger && u.shared == s.shared)
            && (c.Some? ==> && u.ledger == s.ledger + [c.value]
                            && c.value.before == s.shared && c.value.after == u.shared
                            && f(c.value.before, c.value.now, c.value.amount) == Some(c.value.after))
  {
  }

  lemma StepKeepsInv<S(!new)>(f: Update<S>, first: S, s: System<S>, step: Step)
    requires Inv(f, first, s) && Enabled(s, step)
    ensures var u := Apply(f, s, step); Inv(f, first, u) && Later(s, u)
  {
    StepCommits(f, s, step);
    if CommitOf(s, step).Some? {
      HistoryAppend(f, first, s.ledger, CommitOf(s, step).value);
    }
  }

  /** Every run is linear: its swaps, in order, are a sequential history of updates. */
  lemma {:induction false} RunKeepsInv<S(!new)>(f: Update<S>, first: S, s: System<S>, steps: seq<Step>, t: System<S>)
    requires Inv(f, first, s) && Executes(f, s, steps, t)
    ensures Inv(f, first, t) && Later(s, t)
    decreases |steps|
  {
    if steps != [] {
      StepKeepsInv(f, first, s, steps[0]);
      RunKeepsInv(f, first, Apply(f, s, steps[0]), steps[1..], t);
    }
  }

  lemma {:induction false} HistoryPrepend<S(!new)>(f: Update<S>, c: Commit<S>, ledger: seq<Commit<S>>, last: S)
    requires f(c.before, c.now, c.amount) == Some(c.after) && History(f, c.after, ledger, last)
    ensures History(f, c.before, [c] + ledger, last)
  {
    var all := [c] + ledger;
    if ledger == [] {
      assert all == [c] && [c][..0] == [];
    } else {
      HistoryPrepend(f, c, ledger[..|ledger| - 1], ledger[|ledger| - 1].before);
      assert all[..|all| - 1] == [c] + ledger[..|ledger| - 1];
    }
  }

  /** The commits between two states of a run. */
  function Between<S>(s: System<S>, u: System<S>): seq<Commit<S>>
  {
    if |s.ledger| <= |u.ledger| then u.ledger[|s.ledger|..] else []
  }

  /** Between any two states of a run the word changed by the sequential history of the commits
      in between, whatever the threads read and when they read it. */
  lemma {:induction false} RunsAreLinear<S(!new)>(f: Update<S>, first: S, s: System<S>, steps: seq<Step>, u: System<S>)
    requires Inv(f, first, s) && Executes(f, s, steps, u)
    ensures History(f, s.shared, Between(s, u), u.shared)
    decreases |steps|
  {
    if steps != [] {
      var v := Apply(f, s, steps[0]);
      StepKeepsInv(f, first, s, steps[0]);
      RunsAreLinear(f, first, v, steps[1..], u);
      RunKeepsInv(f, first, v, steps[1..], u);
      LinearStep(f, s, steps[0], v, u);
    }
  }

  lemma LinearStep<S(!new)>(f: Update<S>, s: System<S>, step: Step, v: System<S>, u: System<S>)
    requires PhasesFit(f, s) && Enabled(s, step) && v == Apply(f, s, step) && v.ledger <= u.ledger
    requires History(f, v.shared, Between(v, u), u.shared)
    ensures History(f, s.shared, Between(s, u), u.shared)
  {
    StepCommits(f, s, step);
    if CommitOf(s, step).Some? {
      var c := CommitOf(s, step).value;
      HistoryPrepend(f, c, Between(v, u), u.shared);
      assert Between(s, u) == [c] + Between(v, u);
    }
  }

  // ----- one thread among others -----

  ghost predicate ByOthers(steps: seq<Step>, t: nat)
  {
    forall i | 0 <= i < |steps| :: steps[i].thread != t
  }

  ghost predicate Meanwhile<S(!new)>(f: Update<S>, s: System<S>, u: System<S>, t: nat)
  {
    exists steps :: Executes(f, s, steps, u) && ByOthers(steps, t)
  }

  /** The amounts a thread has committed. */
  function Own<S>(ledger: seq<Commit<S>>, t: nat): seq<nat>
  {
    if ledger == [] then []
    else
      var c := ledger[|ledger| - 1];
      Own(ledger[..|ledger| - 1], t) + (if c.thread == t then [c.amount] else [])
  }

  lemma OwnAppend<S>(ledger: seq<Commit<S>>, c: Commit<S>, t: nat)
    ensures Own(ledger + [c], t) == Own(ledger, t) + (if c.thread == t then [c.amount] else [])
  {
    assert (ledger + [c])[..|ledger|] == ledger;
  }

  lemma {:induction false} OthersKeep<S(!new)>(f: Update<S>, s: System<S>, steps: seq<Step>, u: System<S>, t: nat)
    requires Executes(f, s, steps, u) && ByOthers(steps, t)
    ensures PhaseOf(u, t) == PhaseOf(s, t) && Own(u.ledger, t) == Own(s.ledger, t)
    decreases |steps|
  {
    if steps != [] {
      var v := Apply(f, s, steps[0]);
      if |v.ledger| > |s.ledger| {
        OwnAppend(s.ledger, v.ledger[|s.ledger|], t);
      }
      OthersKeep(f, v, steps[1..], u, t);
    }
  }

  /** Anything the other threads may do. */
  method Interfere<S(!new)>(f: Update<S>, s: System<S>, t: nat) returns (u: System<S>)
    ensures Meanwhile(f, s, u, t)
  {
    u := s;
    assert Executes(f, s, [], u) && ByOthers([], t);
  }

  datatype Result = Done | Refused | Spinning

  function Last<S>(s: System<S>): Commit<S>
    requires s.ledger != []
  {
    s.ledger[|s.ledger| - 1]
  }

  /** Between two steps of a thread the others run. */
  method Pause<S(==,!new)>(f: Update<S>, ghost first: S, s: System<S>, t: nat) returns (u: System<S>)
    requires Inv(f, first, s)
    ensures Inv(f, first, u) && Later(s, u)
    ensures PhaseOf(u, t) == PhaseOf(s, t) && Own(u.ledger, t) == Own(s.ledger, t)
  {
    u := Interfere(f, s, t);
    ghost var steps :| Executes(f, s, steps, u) && ByOthers(steps, t);
    RunKeepsInv(f, first, s, steps, u);
    OthersKeep(f, s, steps, u, t);
  }

  /** One turn of the loop: compute from the loaded word, then swap. A swap that fails leaves
      the thread with the word as it is then. */
  method Turn<S(==,!new)>(f: Update<S>, ghost first: S, s: System<S>, t: nat, now: nat, spurious: bool)
      returns (r: Result, u: System<S>)
    requires Inv(f, first, s) && PhaseOf(s, t).Loaded?
    ensures Inv(f, first, u) && Later(s, u)
    ensures Own(u.ledger, t) == Own(s.ledger, t) + (if r == Done then [PhaseOf(s, t).amount] else [])
    ensures r == Refused <==> f(PhaseOf(s, t).pre, now, PhaseOf(s, t).amount).None?
    ensures r == Spinning ==> PhaseOf(u, t) == Loaded(u.shared, PhaseOf(s, t).amount)
    ensures r == Spinning && PhaseOf(s, t).pre == s.shared && !spurious ==> |s.ledger| < |u.ledger|
    ensures r != Spinning ==> PhaseOf(u, t).Idle?
    ensures r == Done ==> u.ledger != [] && Last(u).thread == t && Last(u).amount == PhaseOf(s, t).amount
  {
    var v := Pause(f, first, s, t);
    var w := Apply(f, v, Compute(t, now));
    StepKeepsInv(f, first, v, Compute(t, now));
    LaterTrans(s, v, w);
    if PhaseOf(w, t).Idle? {
      return Refused, w;
    }
    var x := Pause(f, first, w, t);
    u := Apply(f, x, Swap(t, spurious));
    StepKeepsInv(f, first, x, Swap(t, spurious));
    LaterTrans(s, w, x);
    LaterTrans(s, x, u);
    SwapEffect(f, x, t, spurious);
    r := if PhaseOf(u, t).Idle? then Done else Spinning;
  }

  lemma LaterTrans<S(!new)>(s: System<S>, v: System<S>, u: System<S>)
    requires Later(s, v) && Later(v, u)
    ensures Later(s, u)
  {
  }

  /** What a swap does: a commit, or a fresh load. */
  lemma SwapEffect<S(!new)>(f: Update<S>, s: System<S>, t: nat, spurious: bool)
    requires PhaseOf(s, t).Ready?
    ensures var p, u := PhaseOf(s, t), Apply(f, s, Swap(t, spurious));
            if s.shared == p.pre && !spurious then
              && PhaseOf(u, t).Idle? && u.ledger == s.ledger + [Commit(t, p.amount, p.now, p.pre, p.next)]
              && Own(u.ledger, t) == Own(s.ledger, t) + [p.amount]
            else
              PhaseOf(u, t) == Loaded(u.shared, p.amount) && u.ledger == s.ledger && u.shared == s.shared
  {
    var p := PhaseOf(s, t);
    OwnAppend(s.ledger, Commit(t, p.amount, p.now, p.pre, p.next), t);
  }

  /** The shared word was `word` after `n` commits, at some time between two states. */
  ghost predicate Stood<S>(f: Update<S>, first: S, s: System<S>, u: System<S>, n: nat, word: S)
  {
    |s.ledger| <= n <= |u.ledger| && History(f, first, u.ledger[..n], word)
  }

  /** The loop of a thread: load, then compute and swap until the swap succeeds or the update
      refuses, in `patience` turns at most. It commits its amount once or not at all, and it
      spins for `patience` turns without spurious failures only when the other threads
      committed that often. It is refused only when the update refuses a word that stood
      during the call. */
  method Loop<S(==,!new)>(f: Update<S>, ghost first: S, s: System<S>, t: nat, amount: nat, clock: nat -> nat,
                          spurious: nat -> bool, patience: nat)
      returns (r: Result, u: System<S>)
    requires PhaseOf(s, t).Idle? && Inv(f, first, s)
    ensures Inv(f, first, u) && s.ledger <= u.ledger
    ensures r != Spinning ==> PhaseOf(u, t).Idle?
    ensures Own(u.ledger, t) == Own(s.ledger, t) + (if r == Done then [amount] else [])
    ensures r == Done ==> u.ledger != [] && Last(u).thread == t && Last(u).amount == amount
    ensures r == Refused ==> exists k, n: nat, word ::
              0 <= k < patience && Stood(f, first, s, u, n, word) && f(word, clock(k), amount).None?
    ensures r == Spinning && (forall k :: !spurious(k)) ==> |u.ledger| >= |s.ledger| + patience
  {
    u := Apply(f, s, Load(t, amount));
    StepKeepsInv(f, first, s, Load(t, amount));
    for k := 0 to patience
      invariant Inv(f, first, u) && s.ledger <= u.ledger
      invariant PhaseOf(u, t) == Loaded(u.shared, amount)
      invariant Own(u.ledger, t) == Own(s.ledger, t)
      invariant (forall j :: !spurious(j)) ==> |u.ledger| >= |s.ledger| + k
    {
      var word, before := u.shared, u.ledger;
      r, u := Turn(f, first, u, t, clock(k), spurious(k));
      if r == Refused {
        assert u.ledger[..|before|] == before;
        assert Stood(f, first, s, u, |before|, word);
        return;
      }
      if r == Done {
        return;
      }
    }
    r := Spinning;
  }
}
