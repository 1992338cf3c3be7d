/**
 * The meaning of effects as rules, one for each kind of effect and without fuel:
 * what an effect ends with, in terms of what its parts end with.
 */
module EffectLaws {
  import opened Prelude
  import opened Effects

  /** The effect, started after w user calls, ends with r. */
  ghost predicate Ends<V(!new)>(world: World<V>, eff: Effect<V>, w: nat, r: Result<V>) {
    exists fuel: nat :: Eval(world, eff, w, fuel) == Some(r)
  }

  function Ok<V>(v: V, w: nat): Result<V> { Result(Exits(Success(v)), w) }

  function Failed<V>(cause: Cause<V>, w: nat): Result<V> { Result(Exits(Failure(cause)), w) }

  /** What is thrown while a continuation runs becomes its defect. */
  function Caught<V>(r: Result<V>): Result<V> {
    if r.outcome.Raised? then Failed(Die(r.outcome.error), r.calls) else r
  }

  /** Continuation k, called with v after w user calls, leads to r. */
  ghost predicate Continues<V(!new)>(world: World<V>, k: Label, v: V, w: nat, r: Result<V>) {
    match world.apply(k, v, w)
    case Throws(e) => r == Failed(Die(e), w + 1)
    case Returns(rest) => exists s :: Ends(world, rest, w + 1, s) && r == Caught(s)
  }

  // ----- from and to fuel -----

  lemma Fuelled<V(!new)>(world: World<V>, eff: Effect<V>, w: nat, r: Result<V>) returns (fuel: nat)
    requires Ends(world, eff, w, r)
    ensures fuel > 0 && Eval(world, eff, w, fuel) == Some(r)
    ensures forall more :: more >= fuel ==> Eval(world, eff, w, more) == Some(r)
  {
    fuel :| Eval(world, eff, w, fuel) == Some(r);
    forall more | more >= fuel ensures Eval(world, eff, w, more) == Some(r) {
      MoreFuel(world, eff, w, fuel, more);
    }
  }

  lemma ResumedContinues<V(!new)>(world: World<V>, k: Label, v: V, w: nat, fuel: nat, r: Result<V>)
    requires fuel > 0 && Resumed(world, k, v, w, fuel) == Some(r)
    ensures Continues(world, k, v, w, r)
  {
    match world.apply(k, v, w)
    case Throws(e) =>
    case Returns(rest) =>
      var s := Eval(world, rest, w + 1, fuel - 1).value;
      assert Ends(world, rest, w + 1, s) && r == Caught(s);
  }

  lemma ContinuesResumed<V(!new)>(world: World<V>, k: Label, v: V, w: nat, r: Result<V>) returns (fuel: nat)
    requires Continues(world, k, v, w, r)
    ensures fuel > 0 && forall more :: more >= fuel ==> Resumed(world, k, v, w, more) == Some(r)
  {
    match world.apply(k, v, w)
    case Throws(e) => fuel := 1;
    case Returns(rest) =>
      var s :| Ends(world, rest, w + 1, s) && r == Caught(s);
      var n := Fuelled(world, rest, w + 1, s);
      fuel := n + 1;
  }

  // ----- the rules -----

  lemma Leaf<V(!new)>(world: World<V>, eff: Effect<V>, w: nat, r: Result<V>)
    requires eff.Succeed? || eff.Fails? || eff.Fork? || eff.Sync? || eff.Async?
    ensures Ends(world, eff, w, r) <==> Eval(world, eff, w, 1) == Some(r)
  {
    if Ends(world, eff, w, r) {
      var n := Fuelled(world, eff, w, r);
      assert Eval(world, eff, w, n) == Eval(world, eff, w, 1);
    }
  }

  /** Success and failure call nobody; a fork does not wait for what it forks. */
  lemma PureRules<V(!new)>(world: World<V>, v: V, eff: Effect<V>, w: nat, r: Result<V>)
    ensures Ends(world, Succeed(v), w, r) <==> r == Ok(v, w)
    ensures Ends(world, Fails(v), w, r) <==> r == Failed(Fail(v), w)
    ensures Ends(world, Fork(eff), w, r) <==> r == Ok(world.undefined, w)
  {
    Leaf(world, Succeed(v), w, r);
    Leaf(world, Fails(v), w, r);
    Leaf(world, Fork(eff), w, r);
  }

  /** A thunk that throws is a defect. */
  lemma SyncRule<V(!new)>(world: World<V>, thunk: Label, w: nat, r: Result<V>)
    ensures Ends(world, Sync(thunk), w, r) <==>
      match world.thunk(thunk, w)
      case Returns(v) => r == Ok(v, w + 1)
      case Throws(e) => r == Failed(Die(e), w + 1)
  {
    Leaf(world, Sync(thunk), w, r);
  }

  /** An Async ends with what its registration is answered, if ever; a register that throws is not caught here. */
  lemma AsyncRule<V(!new)>(world: World<V>, register: Label, w: nat, r: Result<V>)
    ensures Ends(world, Async(register), w, r) <==>
      match world.register(register, w)
      case Throws(e) => r == Result(Raised(e), w + 1)
      case Returns(_) => world.answer(register, w).Some? && r == Result(Exits(world.answer(register, w).value), w + 1)
  {
    Leaf(world, Async(register), w, r);
  }

  /** What a FlatMap does once its first effect has ended with s: the rest runs only on success. */
  ghost predicate Binds<V(!new)>(world: World<V>, k: Label, s: Result<V>, r: Result<V>) {
    if s.outcome.Exits? && s.outcome.exit.Success? then Continues(world, k, s.outcome.exit.value, s.calls, r) else r == s
  }

  lemma FlatMapRule<V(!new)>(world: World<V>, first: Effect<V>, k: Label, w: nat, r: Result<V>)
    ensures Ends(world, FlatMap(first, k), w, r) <==> exists s :: Ends(world, first, w, s) && Binds(world, k, s, r)
  {
    if Ends(world, FlatMap(first, k), w, r) {
      var n := Fuelled(world, FlatMap(first, k), w, r);
      var s := Eval(world, first, w, n - 1).value;
      assert Ends(world, first, w, s);
      if s.outcome.Exits? && s.outcome.exit.Success? {
        ResumedContinues(world, k, s.outcome.exit.value, s.calls, n, r);
      }
    }
    if s :| Ends(world, first, w, s) && Binds(world, k, s, r) {
      var n := Fuelled(world, first, w, s);
      BindsEval(world, first, k, w, s, n, r);
    }
  }

  lemma BindsEval<V(!new)>(world: World<V>, first: Effect<V>, k: Label, w: nat, s: Result<V>, n: nat, r: Result<V>)
    requires Binds(world, k, s, r) && forall more :: more >= n ==> Eval(world, first, w, more) == Some(s)
    ensures Ends(world, FlatMap(first, k), w, r)
  {
    var m := 0;
    if s.outcome.Exits? && s.outcome.exit.Success? {
      m := ContinuesResumed(world, k, s.outcome.exit.value, s.calls, r);
    }
    assert Eval(world, first, w, n + m) == Some(s);
    assert Eval(world, FlatMap(first, k), w, n + m + 1) == Some(r);
  }

  /** Whether a failure handler takes over: every leaf of the cause is a failure; it is given the leftmost. */
  ghost predicate Handled<V>(cause: Cause<V>) {
    forall x :: x in Leaves(cause) ==> x.Fail?
  }

  /** What a Fold does once its first effect has ended with s. */
  ghost predicate Folds<V(!new)>(world: World<V>, onFailure: Label, onSuccess: Label, s: Result<V>, r: Result<V>) {
    match s.outcome
    case Raised(_) => r == s
    case Exits(Success(v)) => Continues(world, onSuccess, v, s.calls, r)
    case Exits(Failure(cause)) =>
      if Handled(cause) then
        Leaves(cause) != [] && Leaves(cause)[0].Fail? && Continues(world, onFailure, Leaves(cause)[0].error, s.calls, r)
      else r == s
  }

  lemma HandledIs<V>(cause: Cause<V>)
    ensures Handled(cause) <==> OnlyFailures(cause) && Errors(Leaves(cause)) != []
    ensures Handled(cause) ==> Leaves(cause) != [] && Leaves(cause)[0] == Fail(Errors(Leaves(cause))[0])
  {
    CauseHelpers(cause);
    assert Leaves(cause)[0] in Leaves(cause);
  }

  lemma FoldRule<V(!new)>(world: World<V>, first: Effect<V>, onFailure: Label, onSuccess: Label, w: nat, r: Result<V>)
    ensures Ends(world, Fold(first, onFailure, onSuccess), w, r) <==>
      exists s :: Ends(world, first, w, s) && Folds(world, onFailure, onSuccess, s, r)
  {
    var eff := Fold(first, onFailure, onSuccess);
    if Ends(world, eff, w, r) {
      var n := Fuelled(world, eff, w, r);
      var s := Eval(world, first, w, n - 1).value;
      assert Ends(world, first, w, s);
      FoldedFolds(world, onFailure, onSuccess, s, n, r, eff, w);
    }
    if s :| Ends(world, first, w, s) && Folds(world, onFailure, onSuccess, s, r) {
      var n := Fuelled(world, first, w, s);
      FoldsFolded(world, onFailure, onSuccess, s, n, r, eff, w);
    }
  }

  lemma FoldedFolds<V(!new)>(world: World<V>, onFailure: Label, onSuccess: Label, s: Result<V>, n: nat, r: Result<V>,
                             eff: Effect<V>, w: nat)
    requires n > 0 && eff.Fold? && eff.onFailure == onFailure && eff.onSuccess == onSuccess
    requires Eval(world, eff.first, w, n - 1) == Some(s) && Eval(world, eff, w, n) == Some(r)
    ensures Folds(world, onFailure, onSuccess, s, r)
  {
    match s.outcome
    case Exits(Success(v)) => ResumedContinues(world, onSuccess, v, s.calls, n, r);
    case Exits(Failure(cause)) =>
      HandledIs(cause);
      if Handled(cause) {
        ResumedContinues(world, onFailure, Errors(Leaves(cause))[0], s.calls, n, r);
      }
    case _ =>
  }

  lemma FoldsFolded<V(!new)>(world: World<V>, onFailure: Label, onSuccess: Label, s: Result<V>, n: nat, r: Result<V>,
                             eff: Effect<V>, w: nat)
    requires eff.Fold? && eff.onFailure == onFailure && eff.onSuccess == onSuccess
    requires forall more :: more >= n ==> Eval(world, eff.first, w, more) == Some(s)
    requires Folds(world, onFailure, onSuccess, s, r)
    ensures Ends(world, eff, w, r)
  {
    var m := 0;
    match s.outcome {
      case Exits(Success(v)) => m := ContinuesResumed(world, onSuccess, v, s.calls, r);
      case Exits(Failure(cause)) =>
        HandledIs(cause);
        if Handled(cause) {
          m := ContinuesResumed(world, onFailure, Leaves(cause)[0].error, s.calls, r);
        }
      case _ =>
    }
    assert Eval(world, eff.first, w, n + m) == Some(s);
    assert Eval(world, eff, w, n + m + 1) == Some(r);
  }

  /** The wrappers change nothing here; a mask runs what its body returns, and does not catch what the body throws. */
  lemma WrapperRules<V(!new)>(world: World<V>, inner: Effect<V>, body: Label, w: nat, r: Result<V>)
    ensures Ends(world, Wrapped(inner), w, r) <==> Ends(world, inner, w, r)
    ensures Ends(world, Mask(body), w, r) <==>
      match world.body(body, w)
      case Throws(e) => r == Result(Raised(e), w + 1)
      case Returns(eff) => Ends(world, eff, w + 1, r)
  {
    if Ends(world, Wrapped(inner), w, r) {
      var n := Fuelled(world, Wrapped(inner), w, r);
      assert Eval(world, inner, w, n - 1) == Some(r);
    }
    if Ends(world, inner, w, r) {
      var n := Fuelled(world, inner, w, r);
      assert Eval(world, Wrapped(inner), w, n + 1) == Some(r);
    }
    match world.body(body, w)
    case Throws(e) => MaskThrows(world, body, e, w, r);
    case Returns(eff) => MaskRuns(world, body, eff, w, r);
  }

  lemma MaskThrows<V(!new)>(world: World<V>, body: Label, e: V, w: nat, r: Result<V>)
    requires world.body(body, w) == Throws(e)
    ensures Ends(world, Mask(body), w, r) <==> r == Result(Raised(e), w + 1)
  {
    assert Eval(world, Mask(body), w, 1) == Some(Result(Raised(e), w + 1));
  }

  lemma MaskRuns<V(!new)>(world: World<V>, body: Label, eff: Effect<V>, w: nat, r: Result<V>)
    requires world.body(body, w) == Returns(eff)
    ensures Ends(world, Mask(body), w, r) <==> Ends(world, eff, w + 1, r)
  {
    if Ends(world, Mask(body), w, r) {
      var n := Fuelled(world, Mask(body), w, r);
      assert Eval(world, eff, w + 1, n - 1) == Some(r);
    }
    if Ends(world, eff, w + 1, r) {
      var n := Fuelled(world, eff, w + 1, r);
      assert Eval(world, Mask(body), w, n + 1) == Some(r);
    }
  }
}
