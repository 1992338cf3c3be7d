/**
 * The control flow of the interpreter with its continuations written out as a
 * stack of frames, and its agreement with the meaning of effects.
 */
module EffectMachines {
  import opened Prelude
  import opened Effects

  datatype Frame = AndThen(k: Label) | Either(onFailure: Label, onSuccess: Label)

  /** The continuation passed to run: frames on top of the final callback. */
  datatype Stack = Bottom | Push(frame: Frame, rest: Stack)

  /** Where an exception goes: past the interpreter, or to the catch of the last resumed frame. */
  datatype Guard = Unguarded | Guarded(below: Stack)

  datatype Control<V> =
    | Run(eff: Effect<V>, stack: Stack, guard: Guard, calls: nat)
    | Deliver(exit: Exit<V>, stack: Stack, calls: nat)
    | Wait(register: Label, stack: Stack, at: nat)
    | Finished(outcome: Outcome<V>, calls: nat)

  function Raise<V>(e: V, guard: Guard, calls: nat): Control<V> {
    match guard
    case Unguarded => Finished(Raised(e), calls)
    case Guarded(below) => Deliver(Died(e), below, calls)
  }

  function Resume<V>(world: World<V>, k: Label, v: V, rest: Stack, calls: nat): Control<V> {
    match world.apply(k, v, calls)
    case Throws(e) => Deliver(Died(e), rest, calls + 1)
    case Returns(eff) => Run(eff, rest, Guarded(rest), calls + 1)
  }

  /** A continuation receives an exit. */
  function Pop<V>(world: World<V>, exit: Exit<V>, stack: Stack, calls: nat): Control<V> {
    match stack
    case Bottom => Finished(Exits(exit), calls)
    case Push(AndThen(k), rest) =>
      if exit.Success? then Resume(world, k, exit.value, rest, calls) else Deliver(exit, rest, calls)
    case Push(Either(onFailure, onSuccess), rest) =>
      if exit.Success? then Resume(world, onSuccess, exit.value, rest, calls)
      else if IsFailureOnly(exit.cause) && FirstFailure(exit.cause).Some?
      then Resume(world, onFailure, FirstFailure(exit.cause).value, rest, calls)
      else Deliver(exit, rest, calls)
  }

  /** One case of the switch in run. */
  function Visit<V>(world: World<V>, eff: Effect<V>, stack: Stack, guard: Guard, calls: nat): Control<V> {
    match eff
    case Succeed(v) => Deliver(Success(v), stack, calls)
    case Fails(e) => Deliver(Failure(Fail(e)), stack, calls)
    case Sync(thunk) =>
      (match world.thunk(thunk, calls)
       case Returns(v) => Deliver(Success(v), stack, calls + 1)
       case Throws(e) => Deliver(Died(e), stack, calls + 1))
    case Async(register) =>
      (match world.register(register, calls)
       case Throws(e) => Raise(e, guard, calls + 1)
       case Returns(_) => Wait(register, stack, calls))
    case FlatMap(first, andThen) => Run(first, Push(AndThen(andThen), stack), guard, calls)
    case Fold(first, onFailure, onSuccess) => Run(first, Push(Either(onFailure, onSuccess), stack), guard, calls)
    case Fork(_) => Deliver(Success(world.undefined), stack, calls)
    case Wrapped(inner) => Run(inner, stack, guard, calls)
    case Mask(body) =>
      (match world.body(body, calls)
       case Throws(e) => Raise(e, guard, calls + 1)
       case Returns(inner) => Run(inner, stack, guard, calls + 1))
  }

  /** One step; a finished control, or one waiting for an answer that never comes, stays. */
  function Next<V>(world: World<V>, c: Control<V>): Control<V> {
    match c
    case Run(eff, stack, guard, calls) => Visit(world, eff, stack, guard, calls)
    case Deliver(exit, stack, calls) => Pop(world, exit, stack, calls)
    case Wait(register, stack, at) =>
      (match world.answer(register, at)
       case None => c
       case Some(exit) => Deliver(exit, stack, at + 1))
    case Finished(_, _) => c
  }

  function Steps<V>(world: World<V>, c: Control<V>, n: nat): Control<V>
    decreases n
  {
    if n == 0 then c else Steps(world, Next(world, c), n - 1)
  }

  lemma {:induction false} StepsAdd<V>(world: World<V>, c: Control<V>, m: nat, n: nat)
    ensures Steps(world, c, m + n) == Steps(world, Steps(world, c, m), n)
    decreases m
  {
    if m > 0 {
      StepsAdd(world, Next(world, c), m - 1, n);
    }
  }

  lemma {:induction false} Settled<V>(world: World<V>, c: Control<V>, n: nat)
    requires Next(world, c) == c
    ensures Steps(world, c, n) == c
  {
    if n > 0 {
      Settled(world, c, n - 1);
    }
  }

  /** Where the machine stands once an effect, run on some stack, has its result. */
  function Returned<V>(r: Result<V>, stack: Stack, guard: Guard): Control<V> {
    match r.outcome
    case Exits(exit) => Deliver(exit, stack, r.calls)
    case Raised(e) => Raise(e, guard, r.calls)
  }

  // ----- from meaning to machine -----

  lemma {:induction false} Performs<V>(world: World<V>, eff: Effect<V>, w: nat, fuel: nat, stack: Stack, guard: Guard)
    returns (n: nat)
    requires Eval(world, eff, w, fuel).Some?
    ensures Steps(world, Run(eff, stack, guard, w), n) == Returned(Eval(world, eff, w, fuel).value, stack, guard)
    decreases fuel, 1
  {
    var c := Run(eff, stack, guard, w);
    match eff
    case FlatMap(first, andThen) =>
      var m := Performs(world, first, w, fuel - 1, Push(AndThen(andThen), stack), guard);
      var r := Eval(world, first, w, fuel - 1).value;
      n := PerformsRest(world, r, AndThen(andThen), stack, guard, fuel);
      StepsAdd(world, Next(world, c), m, n);
      n := 1 + m + n;
    case Fold(first, onFailure, onSuccess) =>
      var m := Performs(world, first, w, fuel - 1, Push(Either(onFailure, onSuccess), stack), guard);
      var r := Eval(world, first, w, fuel - 1).value;
      n := PerformsRest(world, r, Either(onFailure, onSuccess), stack, guard, fuel);
      StepsAdd(world, Next(world, c), m, n);
      n := 1 + m + n;
    case Wrapped(inner) =>
      n := Performs(world, inner, w, fuel - 1, stack, guard);
      n := n + 1;
    case Mask(body) =>
      match world.body(body, w) {
        case Throws(_) => n := 1; assert Steps(world, Next(world, c), 0) == Next(world, c);
        case Returns(inner) =>
          n := Performs(world, inner, w + 1, fuel - 1, stack, guard);
          n := n + 1;
      }
    case Async(register) =>
      n := 2;
      var c1 := Next(world, c);
      assert Steps(world, c, 2) == Next(world, c1) by {
        assert Steps(world, c1, 1) == Steps(world, Next(world, c1), 0);
      }
      if world.register(register, w).Throws? {
        n := 1;
        assert Steps(world, c1, 0) == c1;
      }
    case _ =>
      n := 1;
      assert Steps(world, Next(world, c), 0) == Next(world, c);
  }

  /** What a frame does with the result of the effect it waited for. */
  function Framed<V>(world: World<V>, r: Result<V>, frame: Frame, fuel: nat): Option<Result<V>>
    requires fuel > 0
  {
    match r.outcome
    case Raised(_) => Some(r)
    case Exits(Success(v)) =>
      Resumed(world, if frame.AndThen? then frame.k else frame.onSuccess, v, r.calls, fuel)
    case Exits(Failure(cause)) =>
      if frame.Either? && OnlyFailures(cause) && Errors(Leaves(cause)) != []
      then Resumed(world, frame.onFailure, Errors(Leaves(cause))[0], r.calls, fuel)
      else Some(r)
  }

  lemma {:induction false} PerformsRest<V>(world: World<V>, r: Result<V>, frame: Frame, stack: Stack, guard: Guard, fuel: nat)
    returns (n: nat)
    requires fuel > 0 && Framed(world, r, frame, fuel).Some?
    ensures Steps(world, Returned(r, Push(frame, stack), guard), n) == Returned(Framed(world, r, frame, fuel).value, stack, guard)
    decreases fuel, 0
  {
    var c := Returned(r, Push(frame, stack), guard);
    var c1 := Next(world, c);
    n := 0;
    if r.outcome.Exits? {
      var exit := r.outcome.exit;
      assert Steps(world, c1, 0) == c1;
      n := 1;
      if exit.Failure? {
        FailureOnlyMeansEveryLeaf(exit.cause);
      }
      if c1.Run? {
        n := Performs(world, c1.eff, c1.calls, fuel - 1, stack, Guarded(stack));
        n := n + 1;
      }
    }
  }

  // ----- from machine to meaning -----

  /**
   * A run that finishes passes through the result of the effect it is at, after
   * m of its n steps, and that result is the effect's meaning.
   */
  lemma {:induction false} Explains<V>(world: World<V>, eff: Effect<V>, w: nat, stack: Stack, guard: Guard, n: nat)
    returns (fuel: nat, m: nat)
    requires Steps(world, Run(eff, stack, guard, w), n).Finished?
    ensures m <= n
    ensures Eval(world, eff, w, fuel).Some?
    ensures Steps(world, Run(eff, stack, guard, w), m) == Returned(Eval(world, eff, w, fuel).value, stack, guard)
    decreases n, 1
  {
    var c := Run(eff, stack, guard, w);
    var c1 := Next(world, c);
    fuel, m := 1, 1;
    assert Steps(world, c1, 0) == c1;
    match eff
    case FlatMap(first, andThen) =>
      var frame := AndThen(andThen);
      var f1, m1 := Explains(world, first, w, Push(frame, stack), guard, n - 1);
      var r := Eval(world, first, w, f1).value;
      StepsAdd(world, c1, m1, n - 1 - m1);
      var f2, m2 := ExplainsRest(world, r, frame, stack, guard, n - 1 - m1);
      fuel := if f1 + 1 <= f2 then f2 else f1 + 1;
      MoreFuel(world, first, w, f1, fuel - 1);
      MoreToFrame(world, r, frame, f2, fuel);
      StepsAdd(world, c1, m1, m2);
      m := 1 + m1 + m2;
    case Fold(first, onFailure, onSuccess) =>
      var frame := Either(onFailure, onSuccess);
      var f1, m1 := Explains(world, first, w, Push(frame, stack), guard, n - 1);
      var r := Eval(world, first, w, f1).value;
      StepsAdd(world, c1, m1, n - 1 - m1);
      var f2, m2 := ExplainsRest(world, r, frame, stack, guard, n - 1 - m1);
      fuel := if f1 + 1 <= f2 then f2 else f1 + 1;
      MoreFuel(world, first, w, f1, fuel - 1);
      MoreToFrame(world, r, frame, f2, fuel);
      StepsAdd(world, c1, m1, m2);
      m := 1 + m1 + m2;
    case Wrapped(inner) =>
      fuel, m := Explains(world, inner, w, stack, guard, n - 1);
      fuel, m := fuel + 1, m + 1;
    case Mask(body) =>
      if world.body(body, w).Returns? {
        fuel, m := Explains(world, world.body(body, w).value, w + 1, stack, guard, n - 1);
        fuel, m := fuel + 1, m + 1;
      }
    case Async(register) =>
      if world.register(register, w).Returns? {
        m := 2;
        assert Steps(world, c1, 1) == Steps(world, Next(world, c1), 0);
        if world.answer(register, w).None? {
          Settled(world, c1, n - 1);
          assert false;
        }
      }
    case _ =>
  }

  lemma {:induction false} ExplainsRest<V>(world: World<V>, r: Result<V>, frame: Frame, stack: Stack, guard: Guard, n: nat)
    returns (fuel: nat, m: nat)
    requires Steps(world, Returned(r, Push(frame, stack), guard), n).Finished?
    ensures m <= n && fuel > 0
    ensures Framed(world, r, frame, fuel).Some?
    ensures Steps(world, Returned(r, Push(frame, stack), guard), m) == Returned(Framed(world, r, frame, fuel).value, stack, guard)
    decreases n, 0
  {
    fuel, m := 1, 0;
    if r.outcome.Exits? {
      var exit := r.outcome.exit;
      var c1 := Next(world, Returned(r, Push(frame, stack), guard));
      assert Steps(world, c1, 0) == c1;
      m := 1;
      if exit.Failure? {
        FailureOnlyMeansEveryLeaf(exit.cause);
      }
      if c1.Run? {
        fuel, m := Explains(world, c1.eff, c1.calls, stack, Guarded(stack), n - 1);
        fuel, m := fuel + 1, m + 1;
      }
    }
  }

  lemma MoreToFrame<V>(world: World<V>, r: Result<V>, frame: Frame, fuel: nat, more: nat)
    requires 0 < fuel <= more && Framed(world, r, frame, fuel).Some?
    ensures Framed(world, r, frame, more) == Framed(world, r, frame, fuel)
  {
    match r.outcome
    case Exits(Success(v)) =>
      MoreToResume(world, if frame.AndThen? then frame.k else frame.onSuccess, v, r.calls, fuel, more);
    case Exits(Failure(cause)) =>
      if frame.Either? && OnlyFailures(cause) && Errors(Leaves(cause)) != [] {
        MoreToResume(world, frame.onFailure, Errors(Leaves(cause))[0], r.calls, fuel, more);
      }
    case _ =>
  }

  // ----- adequacy -----

  function Begin<V>(eff: Effect<V>): Control<V> { Run(eff, Bottom, Unguarded, 0) }

  ghost predicate Means<V>(world: World<V>, eff: Effect<V>, outcome: Outcome<V>) {
    exists fuel, calls :: Eval(world, eff, 0, fuel) == Some(Result(outcome, calls))
  }

  ghost predicate EndsWith<V>(world: World<V>, c: Control<V>, outcome: Outcome<V>) {
    exists n, calls :: Steps(world, c, n) == Finished(outcome, calls)
  }

  /** The machine finishes with an outcome iff that outcome is the meaning of the effect. */
  lemma Adequacy<V>(world: World<V>, eff: Effect<V>, outcome: Outcome<V>)
    ensures EndsWith(world, Begin(eff), outcome) <==> Means(world, eff, outcome)
  {
    var c := Begin(eff);
    if EndsWith(world, c, outcome) {
      var n, calls :| Steps(world, c, n) == Finished(outcome, calls);
      var fuel, m := Explains(world, eff, 0, Bottom, Unguarded, n);
      var r := Eval(world, eff, 0, fuel).value;
      StepsAdd(world, c, m, n - m);
      EndOf(world, r, n - m);
      assert Eval(world, eff, 0, fuel) == Some(Result(outcome, r.calls));
    }
    if Means(world, eff, outcome) {
      var fuel, calls :| Eval(world, eff, 0, fuel) == Some(Result(outcome, calls));
      var n := Performs(world, eff, 0, fuel, Bottom, Unguarded);
      var r := Eval(world, eff, 0, fuel).value;
      StepsAdd(world, c, n, 1);
      EndOf(world, r, 1);
      assert Steps(world, Returned(r, Bottom, Unguarded), 1) == Finished(outcome, calls);
    }
  }

  lemma EndOf<V>(world: World<V>, r: Result<V>, n: nat)
    ensures n > 0 ==> Steps(world, Returned(r, Bottom, Unguarded), n) == Finished(r.outcome, r.calls)
    ensures n == 0 && Returned(r, Bottom, Unguarded).Finished? ==> r.outcome == Returned(r, Bottom, Unguarded).outcome
  {
    if n > 0 {
      Settled(world, Finished(r.outcome, r.calls), n - 1);
    }
  }
}
