/**
 * Effect trees, causes and exits, and what an effect means.
 *
 * The functions stored inside an effect (thunks, registrations, continuations,
 * mask bodies) are named by labels; a World says what calling each of them
 * does. Its answers may depend on how many such calls were made before, so two
 * calls of one function can differ. All values are of one type V, as the
 * interpreters treat them.
 */
module Effects {
  import opened Prelude

  datatype Cause<V> =
    | Fail(error: V)
    | Interrupt
    | Die(defect: V)
    | Then(left: Cause<V>, right: Cause<V>)
    | Both(left: Cause<V>, right: Cause<V>)

  datatype Exit<V> = Success(value: V) | Failure(cause: Cause<V>)

  // ----- the helpers of Cause, as the code has them -----

  predicate ContainsFailure<V>(c: Cause<V>) {
    match c
    case Fail(_) => true
    case Then(left, right) => ContainsFailure(left) || ContainsFailure(right)
    case Both(left, right) => ContainsFailure(left) || ContainsFailure(right)
    case _ => false
  }

  predicate ContainsDefect<V>(c: Cause<V>) {
    match c
    case Die(_) => true
    case Then(left, right) => ContainsDefect(left) || ContainsDefect(right)
    case Both(left, right) => ContainsDefect(left) || ContainsDefect(right)
    case _ => false
  }

  predicate ContainsInterrupt<V>(c: Cause<V>) {
    match c
    case Interrupt => true
    case Then(left, right) => ContainsInterrupt(left) || ContainsInterrupt(right)
    case Both(left, right) => ContainsInterrupt(left) || ContainsInterrupt(right)
    case _ => false
  }

  predicate IsFailureOnly<V>(c: Cause<V>) {
    ContainsFailure(c) && !ContainsInterrupt(c) && !ContainsDefect(c)
  }

  predicate IsInterruptedOnly<V>(c: Cause<V>) {
    ContainsInterrupt(c) && !ContainsFailure(c) && !ContainsDefect(c)
  }

  function FirstFailure<V>(c: Cause<V>): Option<V> {
    match c
    case Fail(e) => Some(e)
    case Then(left, right) => if FirstFailure(left).Some? then FirstFailure(left) else FirstFailure(right)
    case Both(left, right) => if FirstFailure(left).Some? then FirstFailure(left) else FirstFailure(right)
    case _ => None
  }

  // ----- what they compute, said of the leaves of the cause -----

  /** The leaves of a cause, left to right. */
  function Leaves<V>(c: Cause<V>): seq<Cause<V>> {
    match c
    case Then(left, right) => Leaves(left) + Leaves(right)
    case Both(left, right) => Leaves(left) + Leaves(right)
    case _ => [c]
  }

  /** The errors among the leaves, left to right. */
  function Errors<V>(leaves: seq<Cause<V>>): seq<V> {
    if leaves == [] then []
    else (if leaves[0].Fail? then [leaves[0].error] else []) + Errors(leaves[1..])
  }

  lemma {:induction false} ErrorsOfBoth<V>(a: seq<Cause<V>>, b: seq<Cause<V>>)
    ensures Errors(a + b) == Errors(a) + Errors(b)
  {
    if a == [] {
      assert a + b == b;
    } else {
      ErrorsOfBoth(a[1..], b);
      assert (a + b)[0] == a[0] && (a + b)[1..] == a[1..] + b;
      AppendAssociates(if a[0].Fail? then [a[0].error] else [], Errors(a[1..]), Errors(b));
    }
  }

  /** The three tests and the search, in terms of the leaves. */
  lemma {:induction false} CauseHelpers<V>(c: Cause<V>)
    ensures Leaves(c) != []
    ensures ContainsFailure(c) <==> Errors(Leaves(c)) != []
    ensures ContainsFailure(c) <==> exists x :: x in Leaves(c) && x.Fail?
    ensures ContainsDefect(c) <==> exists x :: x in Leaves(c) && x.Die?
    ensures ContainsInterrupt(c) <==> exists x :: x in Leaves(c) && x.Interrupt?
    ensures FirstFailure(c) == (if Errors(Leaves(c)) == [] then None else Some(Errors(Leaves(c))[0]))
  {
    match c
    case Then(left, right) =>
      CauseHelpers(left);
      CauseHelpers(right);
      ErrorsOfBoth(Leaves(left), Leaves(right));
    case Both(left, right) =>
      CauseHelpers(left);
      CauseHelpers(right);
      ErrorsOfBoth(Leaves(left), Leaves(right));
    case _ =>
      assert c in Leaves(c);
      assert Leaves(c)[1..] == [];
  }

  lemma {:induction false} LeavesAreLeaves<V>(c: Cause<V>, x: Cause<V>)
    requires x in Leaves(c)
    ensures x.Fail? || x.Die? || x.Interrupt?
  {
    match c
    case Then(left, right) =>
      if x in Leaves(left) { LeavesAreLeaves(left, x); } else { LeavesAreLeaves(right, x); }
    case Both(left, right) =>
      if x in Leaves(left) { LeavesAreLeaves(left, x); } else { LeavesAreLeaves(right, x); }
    case _ =>
  }

  /** Nothing but failures, so that a handler may take over. */
  predicate OnlyFailures<V>(c: Cause<V>) {
    forall i :: 0 <= i < |Leaves(c)| ==> Leaves(c)[i].Fail?
  }

  /** A cause is failure-only iff every leaf is a failure; the search then finds the leftmost. */
  lemma FailureOnlyMeansEveryLeaf<V>(c: Cause<V>)
    ensures IsFailureOnly(c) <==> OnlyFailures(c)
    ensures OnlyFailures(c) ==> Errors(Leaves(c)) != [] && FirstFailure(c) == Some(Errors(Leaves(c))[0])
  {
    CauseHelpers(c);
    assert Leaves(c)[0] in Leaves(c);
    forall x | x in Leaves(c) ensures x.Fail? || x.Die? || x.Interrupt? {
      LeavesAreLeaves(c, x);
    }
  }

  // ----- effects -----

  type Label = nat

  datatype Effect<V> =
    | Succeed(value: V)
    | Fails(error: V)
    | Sync(thunk: Label)
    | Async(register: Label)
    | FlatMap(first: Effect<V>, andThen: Label)
    | Fold(first: Effect<V>, onFailure: Label, onSuccess: Label)
    | Fork(effect: Effect<V>)
    | Wrapped(effect: Effect<V>)      // Interruptibility, InterruptibilityRestore, FiberRefLocally
    | Mask(body: Label)               // InterruptibilityMask

  /** What a call of a user function does. */
  datatype Attempt<T, V> = Returns(value: T) | Throws(error: V)

  /** What the user functions do, by label and by the number of calls made before. */
  datatype World<!V> = World(
    undefined: V,
    thunk: (Label, nat) -> Attempt<V, V>,
    register: (Label, nat) -> Attempt<bool, V>,             // whether a canceller is returned
    answer: (Label, nat) -> Option<Exit<V>>,                // the exit it calls back with, if ever
    apply: (Label, V, nat) -> Attempt<Effect<V>, V>,        // andThen, onSuccess, onFailure
    body: (Label, nat) -> Attempt<Effect<V>, V>)

  // ----- meaning -----

  /** An effect ends with an exit, or its first synchronous stretch throws past it. */
  datatype Outcome<V> = Exits(exit: Exit<V>) | Raised(error: V)

  datatype Result<V> = Result(outcome: Outcome<V>, calls: nat)

  function Died<V>(e: V): Exit<V> { Failure(Die(e)) }

  /**
   * The meaning of an effect, started when w user calls were made; None when it
   * never ends or needs more fuel.
   */
  function Eval<V>(world: World<V>, eff: Effect<V>, w: nat, fuel: nat): Option<Result<V>>
    decreases fuel, 1
  {
    if fuel == 0 then None else
    match eff
    case Succeed(v) => Some(Result(Exits(Success(v)), w))
    case Fails(e) => Some(Result(Exits(Failure(Fail(e))), w))
    case Sync(thunk) =>
      (match world.thunk(thunk, w)
       case Returns(v) => Some(Result(Exits(Success(v)), w + 1))
       case Throws(e) => Some(Result(Exits(Died(e)), w + 1)))
    case Async(register) =>
      (match world.register(register, w)
       case Throws(e) => Some(Result(Raised(e), w + 1))
       case Returns(_) =>
         (match world.answer(register, w)
          case None => None
          case Some(exit) => Some(Result(Exits(exit), w + 1))))
    case FlatMap(first, andThen) =>
      (match Eval(world, first, w, fuel - 1)
       case Some(Result(Exits(Success(v)), w1)) => Resumed(world, andThen, v, w1, fuel)
       case r => r)
    case Fold(first, onFailure, onSuccess) =>
      (match Eval(world, first, w, fuel - 1)
       case Some(Result(Exits(Success(v)), w1)) => Resumed(world, onSuccess, v, w1, fuel)
       case Some(Result(Exits(Failure(cause)), w1)) =>
         if OnlyFailures(cause) && Errors(Leaves(cause)) != []
         then Resumed(world, onFailure, Errors(Leaves(cause))[0], w1, fuel)
         else Some(Result(Exits(Failure(cause)), w1))
       case r => r)
    case Fork(_) => Some(Result(Exits(Success(world.undefined)), w))
    case Wrapped(inner) => Eval(world, inner, w, fuel - 1)
    case Mask(body) =>
      (match world.body(body, w)
       case Throws(e) => Some(Result(Raised(e), w + 1))
       case Returns(inner) => Eval(world, inner, w + 1, fuel - 1))
  }

  /** A continuation chooses the rest; whatever it or the rest throws becomes a defect. */
  function Resumed<V>(world: World<V>, k: Label, v: V, w: nat, fuel: nat): Option<Result<V>>
    requires fuel > 0
    decreases fuel, 0
  {
    match world.apply(k, v, w)
    case Throws(e) => Some(Result(Exits(Died(e)), w + 1))
    case Returns(rest) =>
      (match Eval(world, rest, w + 1, fuel - 1)
       case Some(Result(Raised(e), w1)) => Some(Result(Exits(Died(e)), w1))
       case r => r)
  }

  /** More fuel never changes a meaning. */
  lemma {:induction false} MoreFuel<V>(world: World<V>, eff: Effect<V>, w: nat, fuel: nat, more: nat)
    requires Eval(world, eff, w, fuel).Some? && fuel <= more
    ensures Eval(world, eff, w, more) == Eval(world, eff, w, fuel)
    decreases fuel
  {
    match eff
    case FlatMap(first, andThen) =>
      MoreFuel(world, first, w, fuel - 1, more - 1);
      match Eval(world, first, w, fuel - 1) {
        case Some(Result(Exits(Success(v)), w1)) => MoreToResume(world, andThen, v, w1, fuel, more);
        case _ =>
      }
    case Fold(first, onFailure, onSuccess) =>
      MoreFuel(world, first, w, fuel - 1, more - 1);
      match Eval(world, first, w, fuel - 1) {
        case Some(Result(Exits(Success(v)), w1)) => MoreToResume(world, onSuccess, v, w1, fuel, more);
        case Some(Result(Exits(Failure(cause)), w1)) =>
          if OnlyFailures(cause) && Errors(Leaves(cause)) != [] {
            MoreToResume(world, onFailure, Errors(Leaves(cause))[0], w1, fuel, more);
          }
        case _ =>
      }
    case Wrapped(inner) => MoreFuel(world, inner, w, fuel - 1, more - 1);
    case Mask(body) =>
      match world.body(body, w) {
        case Returns(inner) => MoreFuel(world, inner, w + 1, fuel - 1, more - 1);
        case _ =>
      }
    case _ =>
  }

  lemma {:induction false} MoreToResume<V>(world: World<V>, k: Label, v: V, w: nat, fuel: nat, more: nat)
    requires 0 < fuel <= more && Resumed(world, k, v, w, fuel).Some?
    ensures Resumed(world, k, v, w, more) == Resumed(world, k, v, w, fuel)
    decreases fuel, 0
  {
    match world.apply(k, v, w)
    case Returns(rest) => MoreFuel(world, rest, w + 1, fuel - 1, more - 1);
    case _ =>
  }

  /** An effect has at most one meaning. */
  lemma MeaningIsUnique<V>(world: World<V>, eff: Effect<V>, w: nat, fuel: nat, fuel': nat)
    requires Eval(world, eff, w, fuel).Some? && Eval(world, eff, w, fuel').Some?
    ensures Eval(world, eff, w, fuel) == Eval(world, eff, w, fuel')
  {
    if fuel <= fuel' {
      MoreFuel(world, eff, w, fuel, fuel');
    } else {
      MoreFuel(world, eff, w, fuel', fuel);
    }
  }
}
