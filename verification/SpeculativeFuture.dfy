/** A future with a speculative backup: the context that its callbacks share. */
module SpeculativeFuture {
  import opened Options

  /** The outcome of a future. */
  datatype Try<V> = Value(value: V) | Exception(error: string)

  /** Where a callback is. `Checked` saw an unfulfilled promise and will try to fire the backup,
      `Storing` is about to store the exception, `Won` fulfilled the promise and is about to set
      it. A callback that is done has let go of the context. */
  datatype Phase = Waiting | Checked | Storing | Won | Done

  datatype Backup = NotFired | Running | Winning | Finished

  datatype State<V> = State(
    fulfilled: bool, backupFired: bool, promise: seq<Try<V>>, primaryException: Option<Try<V>>, destroyed: bool,
    primary: Phase, timeout: Phase, backup: Backup, fires: nat,
    primaryResult: Option<Try<V>>, backupResult: Option<Try<V>>)

  function Start<V>(): State<V>
  {
    State(false, false, [], None, false, Waiting, Waiting, NotFired, 0, None, None)
  }

  /** One atomic action of a callback or of the destructor. */
  datatype Step<V> =
    | PrimaryCompletes(primaryResult: Try<V>) | PrimaryFires | PrimaryStores | PrimarySets
    | TimeoutChecks | TimeoutFires
    | BackupCompletes(backupResult: Try<V>) | BackupSets
    | Destroy

  predicate Enabled<V>(s: State<V>, step: Step<V>)
  {
    match step
    case PrimaryCompletes(_) => s.primary == Waiting
    case PrimaryFires => s.primary == Checked
    case PrimaryStores => s.primary == Storing
    case PrimarySets => s.primary == Won
    case TimeoutChecks => s.timeout == Waiting
    case TimeoutFires => s.timeout == Checked
    case BackupCompletes(_) => s.backup == Running
    case BackupSets => s.backup == Winning
    case Destroy =>
      && !s.destroyed && s.primary == Done && s.timeout == Done
      && (s.backup == NotFired || s.backup == Finished)
  }

  /** backup_fired.exchange(true), and the call of the backup functor for the first who comes. */
  function Fire<V>(s: State<V>): State<V>
  {
    if s.backupFired then s else s.(backupFired := true, fires := s.fires + 1, backup := Running)
  }

  function Apply<V>(s: State<V>, step: Step<V>): State<V>
    requires Enabled(s, step)
  {
    match step
    case PrimaryCompletes(t) =>
      var u := s.(primaryResult := Some(t));
      if t.Exception? then u.(primary := if s.fulfilled then Done else Checked)
      else u.(fulfilled := true, primary := if s.fulfilled then Done else Won)
    case PrimaryFires => Fire(s).(primary := Storing)
    case PrimaryStores => s.(primaryException := s.primaryResult, primary := Done)
    case PrimarySets => s.(promise := s.promise + [Settled(s.primaryResult)], primary := Done)
    case TimeoutChecks => s.(timeout := if s.fulfilled then Done else Checked)
    case TimeoutFires => Fire(s).(timeout := Done)
    case BackupCompletes(t) =>
      var u := s.(backupResult := Some(t));
      if t.Exception? then u.(backup := Finished)
      else u.(fulfilled := true, backup := if s.fulfilled then Finished else Winning)
    case BackupSets => s.(promise := s.promise + [Settled(s.backupResult)], backup := Finished)
    case Destroy =>
      if s.fulfilled then s.(destroyed := true)
      else s.(destroyed := true, promise := s.promise + [Settled(s.primaryException)])
  }

  /** An unset Try carries the error of its own emptiness. */
  function Settled<V>(t: Option<Try<V>>): Try<V>
  {
    if t.Some? then t.value else Exception("empty Try")
  }

  ghost predicate Executes<V>(s: State<V>, steps: seq<Step<V>>, t: State<V>)
    decreases |steps|
  {
    if steps == [] then s == t
    else Enabled(s, steps[0]) && Executes(Apply(s, steps[0]), steps[1..], t)
  }

  predicate Succeeded<V>(t: Option<Try<V>>)
  {
    t.Some? && t.value.Value?
  }

  predicate Failed<V>(t: Option<Try<V>>)
  {
    t.Some? && t.value.Exception?
  }

  /** Who has fulfilled the promise without having set it yet. */
  function Setting<V>(s: State<V>): nat
  {
    (if s.primary == Won then 1 else 0) + (if s.backup == Winning then 1 else 0)
  }

  /** The promise holds a value of one of the two futures. */
  ghost predicate OneOfBoth<V>(s: State<V>, t: Try<V>)
  {
    t.Value? && (s.primaryResult == Some(t) || s.backupResult == Some(t))
  }

  ghost predicate Inv<V>(s: State<V>)
  {
    // the backup
    && s.fires == (if s.backupFired then 1 else 0) && (s.backupFired <==> s.backup != NotFired)
    && (s.backupFired ==> s.timeout == Done || Failed(s.primaryResult))
    && (s.timeout == Done ==> s.backupFired || s.fulfilled)
    // the results
    && (s.primary == Waiting <==> s.primaryResult.None?) && (s.backup in {NotFired, Running} <==> s.backupResult.None?)
    && (s.primary == Won ==> Succeeded(s.primaryResult))
    && (s.primary in {Checked, Storing} ==> Failed(s.primaryResult))
    && (s.backup == Winning ==> Succeeded(s.backupResult)) && (s.primary == Storing ==> s.backupFired)
    && (s.timeout == Waiting || s.timeout == Checked || s.timeout == Done)
    // who fulfils
    && (Succeeded(s.primaryResult) || Succeeded(s.backupResult) <==> s.fulfilled)
    && (s.primaryException.Some? ==> s.primaryException == s.primaryResult && Failed(s.primaryResult))
    && (s.primary == Done && !s.fulfilled ==> s.primaryException == s.primaryResult)
    && (s.primary == Done && Failed(s.primaryResult) && !s.backupFired ==> s.fulfilled)
    // the promise
    && (!s.destroyed ==> |s.promise| + Setting(s) == (if s.fulfilled then 1 else 0))
    && (s.destroyed ==> |s.promise| == 1 && s.primary == Done && s.timeout == Done && s.backup in {NotFired, Finished})
    && (s.fulfilled && s.promise != [] ==> OneOfBoth(s, s.promise[0]))
    && (s.destroyed && !s.fulfilled ==> s.primaryResult == Some(s.promise[0]))
  }

  lemma PrimaryKeepsInv<V>(s: State<V>, step: Step<V>)
    requires Inv(s) && Enabled(s, step)
    requires step.PrimaryCompletes? || step.PrimaryFires? || step.PrimaryStores? || step.PrimarySets?
    ensures Inv(Apply(s, step))
  {
  }

  lemma OthersKeepInv<V>(s: State<V>, step: Step<V>)
    requires Inv(s) && Enabled(s, step)
    requires step.TimeoutChecks? || step.TimeoutFires? || step.BackupCompletes? || step.BackupSets? || step.Destroy?
    ensures Inv(Apply(s, step))
  {
  }

  lemma StepKeepsInv<V>(s: State<V>, step: Step<V>)
    requires Inv(s) && Enabled(s, step)
    ensures Inv(Apply(s, step))
  {
    match step
    case PrimaryCompletes(_) => PrimaryKeepsInv(s, step);
    case PrimaryFires => PrimaryKeepsInv(s, step);
    case PrimaryStores => PrimaryKeepsInv(s, step);
    case PrimarySets => PrimaryKeepsInv(s, step);
    case _ => OthersKeepInv(s, step);
  }

  lemma {:induction false} RunKeepsInv<V>(s: State<V>, steps: seq<Step<V>>, t: State<V>)
    requires Inv(s) && Executes(s, steps, t)
    ensures Inv(t)
    decreases |steps|
  {
    if steps != [] {
      StepKeepsInv(s, steps[0]);
      RunKeepsInv(Apply(s, steps[0]), steps[1..], t);
    }
  }

  /** The backup functor is called once at most, and only after a timeout or a failed primary. */
  lemma BackupFiresAtMostOnce<V>(steps: seq<Step<V>>, s: State<V>)
    requires Executes(Start(), steps, s)
    ensures s.fires <= 1
    ensures s.fires == 1 ==> s.timeout == Done || Failed(s.primaryResult)
  {
    RunKeepsInv(Start(), steps, s);
  }

  /** The backup is fired in time: once the timeout has been handled, or a failed primary has, the
      backup has been fired, unless a value was there first. */
  lemma BackupIsFired<V>(steps: seq<Step<V>>, s: State<V>)
    requires Executes(Start(), steps, s)
    ensures s.timeout == Done || (s.primary == Done && Failed(s.primaryResult)) ==>
              s.fires == 1 || Succeeded(s.primaryResult) || Succeeded(s.backupResult)
  {
    RunKeepsInv(Start(), steps, s);
  }

  /** A value is passed on at once: when a future has succeeded and its callback is done, the promise
      has a value. */
  lemma ValueIsPassedOn<V>(steps: seq<Step<V>>, s: State<V>)
    requires Executes(Start(), steps, s)
    requires (Succeeded(s.primaryResult) && s.primary == Done) || (Succeeded(s.backupResult) && s.backup == Finished)
    requires s.primary != Won && s.backup != Winning
    ensures |s.promise| == 1 && OneOfBoth(s, s.promise[0])
  {
    RunKeepsInv(Start(), steps, s);
  }

  /** Nothing gets stuck: as long as the context is there some callback can go on or the context
      can be destroyed. */
  lemma NeverStuck<V>(steps: seq<Step<V>>, s: State<V>, t: Try<V>) returns (next: Step<V>)
    requires Executes(Start(), steps, s) && !s.destroyed
    ensures Enabled(s, next)
  {
    RunKeepsInv(Start(), steps, s);
    next := match s.primary
      case Waiting => PrimaryCompletes(t)
      case Checked => PrimaryFires
      case Storing => PrimaryStores
      case Won => PrimarySets
      case Done =>
        if s.timeout == Waiting then TimeoutChecks
        else if s.timeout == Checked then TimeoutFires
        else if s.backup == Running then BackupCompletes(t)
        else if s.backup == Winning then BackupSets
        else Destroy;
  }

  /** The destructor ends it: the context is gone, and the promise has been set. */
  lemma DestroyEnds<V>(steps: seq<Step<V>>, s: State<V>)
    requires Executes(Start(), steps, s) && Enabled(s, Destroy)
    ensures Apply(s, Destroy).destroyed && |Apply(s, Destroy).promise| == 1
  {
    RunKeepsInv(Start(), steps, s);
    StepKeepsInv(s, Destroy);
  }

  /** The promise is never set twice, and it is set when the context is gone. */
  lemma PromiseIsSetOnce<V>(steps: seq<Step<V>>, s: State<V>)
    requires Executes(Start(), steps, s)
    ensures |s.promise| <= 1 && (s.destroyed ==> |s.promise| == 1)
  {
    RunKeepsInv(Start(), steps, s);
  }

  /** What the caller gets in the end: a value when one of the futures had one, of a future that
      had it; otherwise the primary's exception, after a backup that failed too. */
  lemma FinalResult<V>(steps: seq<Step<V>>, s: State<V>)
    requires Executes(Start(), steps, s) && s.destroyed
    ensures |s.promise| == 1
    ensures if Succeeded(s.primaryResult) || Succeeded(s.backupResult) then OneOfBoth(s, s.promise[0])
            else
              && Failed(s.primaryResult) && s.promise == [s.primaryResult.value]
              && s.fires == 1 && Failed(s.backupResult)
  {
    RunKeepsInv(Start(), steps, s);
  }

  lemma {:induction false} PromiseStays<V>(s: State<V>, steps: seq<Step<V>>, t: State<V>)
    requires Executes(s, steps, t)
    ensures s.promise <= t.promise && (s.fulfilled ==> t.fulfilled)
    ensures s.fulfilled && s.timeout != Checked && s.primary != Checked ==> t.fires == s.fires
    decreases |steps|
  {
    if steps != [] {
      PromiseStays(Apply(s, steps[0]), steps[1..], t);
    }
  }

  /** A primary that succeeds before the timeout is checked answers alone: the backup is never
      fired, and the promise gets the primary's value. */
  lemma EarlyPrimaryAnswersAlone<V>(before: seq<Step<V>>, s: State<V>, v: V, steps: seq<Step<V>>, t: State<V>)
    requires Executes(Start(), before, s) && s.primary == Waiting && s.timeout == Waiting
    requires Executes(Apply(s, PrimaryCompletes(Value(v))), steps, t)
    ensures t.fires == 0 && (t.destroyed ==> t.promise == [Value(v)])
  {
    RunKeepsInv(Start(), before, s);
    var u := Apply(s, PrimaryCompletes(Value(v)));
    StepKeepsInv(s, PrimaryCompletes(Value(v)));
    RunKeepsInv(u, steps, t);
    PromiseStays(u, steps, t);
    PrimaryResultStays(u, steps, t);
  }

  lemma {:induction false} PrimaryResultStays<V>(s: State<V>, steps: seq<Step<V>>, t: State<V>)
    requires Executes(s, steps, t) && s.primaryResult.Some? && s.primary != Waiting
    ensures t.primaryResult == s.primaryResult && t.primary != Waiting
    decreases |steps|
  {
    if steps != [] {
      PrimaryResultStays(Apply(s, steps[0]), steps[1..], t);
    }
  }

  // ----- the callbacks, each run without a break -----

  class Context<V> {
    var fulfilled: bool
    var backupFired: bool
    var promise: seq<Try<V>>
    var primaryException: Option<Try<V>>
    ghost var state: State<V>

    ghost predicate Valid()
      reads this
    {
      && state.fulfilled == fulfilled && state.backupFired == backupFired && state.promise == promise
      && state.primaryException == primaryException && Inv(state)
    }

    constructor ()
      ensures Valid() && state == Start()
    {
      fulfilled, backupFired, promise, primaryException := false, false, [], None;
      state := Start();
    }

    /** The callback of the primary future; `fire` says that the backup functor is called. */
    method OnPrimary(t: Try<V>) returns (fire: bool)
      requires Valid() && Enabled(state, PrimaryCompletes(t))
      modifies this
      ensures Valid() && state.primary == Done
      ensures exists steps :: Executes(old(state), [PrimaryCompletes(t)] + steps, state)
      ensures fire <==> t.Exception? && !old(fulfilled) && !old(backupFired)
    {
      fire := false;
      ghost var s0 := state;
      ghost var s1 := Apply(s0, PrimaryCompletes(t));
      if t.Exception? {
        if !fulfilled {
          fire := !backupFired;
          backupFired := true;
          primaryException := Some(t);
          state := RunTwo(s1, PrimaryFires, PrimaryStores);
          RunsThree(s0, PrimaryCompletes(t), PrimaryFires, PrimaryStores);
        } else {
          state := s1;
          RunsOne(s0, PrimaryCompletes(t));
        }
      } else if !fulfilled {
        fulfilled := true;
        promise := promise + [t];
        state := Apply(s1, PrimarySets);
        RunsTwo(s0, PrimaryCompletes(t), PrimarySets);
      } else {
        state := s1;
        RunsOne(s0, PrimaryCompletes(t));
      }
    }

    /** The callback of the timeout. */
    method OnTimeout() returns (fire: bool)
      requires Valid() && Enabled(state, TimeoutChecks)
      modifies this
      ensures Valid() && state.timeout == Done
      ensures exists steps :: Executes(old(state), [TimeoutChecks] + steps, state)
      ensures fire <==> !old(fulfilled) && !old(backupFired)
    {
      fire := false;
      ghost var s0 := state;
      if !fulfilled {
        fire := !backupFired;
        backupFired := true;
        state := Apply(Apply(s0, TimeoutChecks), TimeoutFires);
        RunsTwo(s0, TimeoutChecks, TimeoutFires);
      } else {
        state := Apply(s0, TimeoutChecks);
        RunsOne(s0, TimeoutChecks);
      }
    }

    /** The callback of the backup future. */
    method OnBackup(t: Try<V>)
      requires Valid() && Enabled(state, BackupCompletes(t))
      modifies this
      ensures Valid() && state.backup == Finished
      ensures exists steps :: Executes(old(state), [BackupCompletes(t)] + steps, state)
    {
      ghost var s0 := state;
      if !t.Exception? && !fulfilled {
        fulfilled := true;
        promise := promise + [t];
        state := Apply(Apply(s0, BackupCompletes(t)), BackupSets);
        RunsTwo(s0, BackupCompletes(t), BackupSets);
      } else {
        state := Apply(s0, BackupCompletes(t));
        RunsOne(s0, BackupCompletes(t));
      }
    }

    /** The destructor: a promise that nobody fulfilled gets the primary's exception. */
    method Destruct()
      requires Valid() && Enabled(state, Destroy)
      modifies this
      ensures Valid() && state == Apply(old(state), Destroy)
      ensures |promise| == 1
    {
      ghost var s0 := state;
      if !fulfilled {
        promise := promise + [Settled(primaryException)];
      }
      state := Apply(s0, Destroy);
      StepKeepsInv(s0, Destroy);
    }
  }

  ghost function RunTwo<V>(s: State<V>, a: Step<V>, b: Step<V>): State<V>
    requires Enabled(s, a) && Enabled(Apply(s, a), b)
  {
    Apply(Apply(s, a), b)
  }

  lemma RunsOne<V>(s: State<V>, a: Step<V>)
    requires Inv(s) && Enabled(s, a)
    ensures Executes(s, [a] + [], Apply(s, a)) && Inv(Apply(s, a))
  {
    assert [a] + [] == [a] && [a][1..] == [];
    StepKeepsInv(s, a);
  }

  lemma RunsTwo<V>(s: State<V>, a: Step<V>, b: Step<V>)
    requires Inv(s) && Enabled(s, a) && Enabled(Apply(s, a), b)
    ensures Executes(s, [a] + [b], RunTwo(s, a, b)) && Inv(RunTwo(s, a, b))
  {
    StepKeepsInv(s, a);
    RunsOne(Apply(s, a), b);
    assert ([a] + [b])[1..] == [b] + [];
  }

  lemma RunsThree<V>(s: State<V>, a: Step<V>, b: Step<V>, c: Step<V>)
    requires Inv(s) && Enabled(s, a) && Enabled(Apply(s, a), b) && Enabled(Apply(Apply(s, a), b), c)
    ensures Executes(s, [a] + [b, c], RunTwo(Apply(s, a), b, c)) && Inv(RunTwo(Apply(s, a), b, c))
  {
    StepKeepsInv(s, a);
    RunsTwo(Apply(s, a), b, c);
    assert ([a] + [b, c])[1..] == [b] + [c];
  }
}
