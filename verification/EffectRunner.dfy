/**
 * The two effect runners as JavaScript executes them: calls of run, of
 * continuations and of register nest on the call stack, callbacks may arrive
 * while a register call is still on it, and the canceller may be called between
 * any two steps.
 */
module EffectRunners {
  import opened Prelude
  import opened Effects
  import opened EffectMachines

  /** registerHttpEffect, and the copy inside request batching. */
  datatype Runner = Http | Batch

  /** A call on the JavaScript stack. */
  datatype Act<V> =
    | Running(eff: Effect<V>, stack: Stack, guard: Guard)   // run(eff, cont)
    | Delivering(exit: Exit<V>, stack: Stack)               // cont(exit)
    | Registering(id: nat)                                  // inside register, before its canceller is stored
    | Cancelling                                            // inside the canceller, before the interrupt is delivered

  /**
   * A call of some Async's register: whether it returns a canceller, whether it
   * was made inside another register call, how many calls were below it on the
   * JavaScript stack, and how often it was answered.
   */
  datatype Registration = Registration(
    register: Label, stack: Stack, at: nat, cancellable: bool, nested: bool, depth: nat, answers: nat)

  /** The mutable variables of a runner, and the calls it made to its canceller and to its callback. */
  datatype Flags<V> = Flags(stopped: bool, current: Option<nat>, invoked: seq<nat>, delivered: seq<Exit<V>>)

  datatype Sys<V> = Sys(flags: Flags<V>, acts: seq<Act<V>>, regs: seq<Registration>, calls: nat, raised: Option<V>)

  datatype Event<V> = Advance | Answer(id: nat, exit: Exit<V>) | Cancel

  // ----- the variables -----

  function Finishing<V>(kind: Runner, f: Flags<V>, exit: Exit<V>): Flags<V> {
    if f.stopped then f
    else if kind.Http? then f.(stopped := true, current := None, delivered := f.delivered + [exit])
    else f.(delivered := f.delivered + [exit])
  }

  function Answering<V>(f: Flags<V>): Flags<V> { f.(current := None) }

  function Registered<V>(f: Flags<V>, id: nat, cancellable: bool): Flags<V> {
    f.(current := if cancellable then Some(id) else None)
  }

  /** The canceller up to and including its call of the stored one. */
  function Stopping<V>(kind: Runner, f: Flags<V>): Flags<V> {
    if f.stopped then f
    else f.(stopped := true,
            current := if kind.Http? then None else f.current,
            invoked := f.invoked + (if f.current.Some? then [f.current.value] else []))
  }

  function Interrupted<V>(f: Flags<V>): Flags<V> {
    f.(delivered := f.delivered + [Failure(Interrupt)])
  }

  // ----- steps -----

  predicate InRegister<V>(acts: seq<Act<V>>) {
    exists i :: 0 <= i < |acts| && acts[i].Registering?
  }

  /** The running call, whose caller is below it, becomes c. */
  function Place<V>(world: World<V>, s: Sys<V>, c: Control<V>): Sys<V>
    requires s.acts != []
  {
    var below := s.acts[1..];
    match c
    case Run(eff, stack, guard, calls) => s.(acts := [Running(eff, stack, guard)] + below, calls := calls)
    case Deliver(exit, stack, calls) => s.(acts := [Delivering(exit, stack)] + below, calls := calls)
    case Wait(register, stack, at) =>
      var cancellable := world.register(register, at) == Returns(true);
      s.(acts := [Registering(|s.regs|)] + below,
         regs := s.regs + [Registration(register, stack, at, cancellable, InRegister(below), |below|, 0)],
         calls := at + 1)
    case Finished(outcome, calls) =>
      s.(acts := below, calls := calls, raised := if outcome.Raised? then Some(outcome.error) else s.raised)
  }

  function Advanced<V>(world: World<V>, kind: Runner, s: Sys<V>): Sys<V>
    requires s.acts != []
  {
    var below := s.acts[1..];
    match s.acts[0]
    case Running(eff, stack, guard) =>
      if s.flags.stopped then s.(acts := below) else Place(world, s, Visit(world, eff, stack, guard, s.calls))
    case Delivering(exit, stack) =>
      if stack.Bottom? then s.(acts := below, flags := Finishing(kind, s.flags, exit))
      else if kind.Http? && s.flags.stopped then s.(acts := below)
      else Place(world, s, Pop(world, exit, stack, s.calls))
    case Registering(id) =>
      s.(acts := below, flags := Registered(s.flags, id, id < |s.regs| && s.regs[id].cancellable))
    case Cancelling => s.(acts := below, flags := Interrupted(s.flags))
  }

  function Answered<V>(kind: Runner, s: Sys<V>, id: nat, exit: Exit<V>): Sys<V>
    requires id < |s.regs|
  {
    var reg := s.regs[id];
    s.(flags := Answering(s.flags),
       regs := s.regs[id := reg.(answers := reg.answers + 1)],
       acts := if kind.Http? && s.flags.stopped then s.acts else [Delivering(exit, reg.stack)] + s.acts)
  }

  function Cancelled<V>(kind: Runner, s: Sys<V>): Sys<V> {
    s.(flags := Stopping(kind, s.flags),
       acts := if kind.Http? && !s.flags.stopped then [Cancelling] + s.acts else s.acts)
  }

  /** Any event at any time; one that is not possible changes nothing. */
  function Handle<V>(world: World<V>, kind: Runner, s: Sys<V>, e: Event<V>): Sys<V> {
    match e
    case Advance => if s.acts == [] then s else Advanced(world, kind, s)
    case Answer(id, exit) => if id < |s.regs| then Answered(kind, s, id, exit) else s
    case Cancel => Cancelled(kind, s)
  }

  function After<V>(world: World<V>, kind: Runner, s: Sys<V>, events: seq<Event<V>>): Sys<V>
    decreases |events|
  {
    if events == [] then s else After(world, kind, Handle(world, kind, s, events[0]), events[1..])
  }

  function Start<V>(eff: Effect<V>): Sys<V> {
    Sys(Flags(false, None, [], []), [Running(eff, Bottom, Unguarded)], [], 0, None)
  }

  // ----- registerHttpEffect: one callback, whatever happens -----

  function Cancels<V>(acts: seq<Act<V>>): nat {
    if acts == [] then 0 else (if acts[0].Cancelling? then 1 else 0) + Cancels(acts[1..])
  }

  lemma CancelsOf<V>(a: Act<V>, acts: seq<Act<V>>)
    ensures Cancels([a] + acts) == Cancels(acts) + (if a.Cancelling? then 1 else 0)
  {
    assert ([a] + acts)[1..] == acts;
  }

  /** Stopped means: delivered, or about to be by the canceller. */
  ghost predicate Once<V>(s: Sys<V>) {
    && |s.flags.delivered| + Cancels(s.acts) == (if s.flags.stopped then 1 else 0)
    && |s.flags.invoked| <= 1
    && (s.flags.invoked != [] ==> s.flags.stopped)
    && (s.flags.delivered != [] ==> s.flags.current.None? || s.flags.stopped)
  }

  lemma PlaceCancels<V>(world: World<V>, s: Sys<V>, c: Control<V>)
    requires s.acts != [] && !s.acts[0].Cancelling?
    ensures Cancels(Place(world, s, c).acts) == Cancels(s.acts)
    ensures Place(world, s, c).flags == s.flags
  {
    var below := s.acts[1..];
    match c
    case Run(eff, stack, guard, calls) => CancelsOf(Running(eff, stack, guard), below);
    case Deliver(exit, stack, calls) => CancelsOf(Delivering(exit, stack), below);
    case Wait(_, _, _) => CancelsOf(Act<V>.Registering(|s.regs|), below);
    case _ =>
  }

  lemma OnceKept<V>(world: World<V>, s: Sys<V>, e: Event<V>)
    requires Once(s)
    ensures Once(Handle(world, Http, s, e))
  {
    match e
    case Advance =>
      if s.acts != [] {
        match s.acts[0] {
          case Running(eff, stack, guard) => PlaceCancels(world, s, Visit(world, eff, stack, guard, s.calls));
          case Delivering(exit, stack) => PlaceCancels(world, s, Pop(world, exit, stack, s.calls));
          case _ =>
        }
      }
    case Answer(id, exit) =>
      if id < |s.regs| {
        CancelsOf(Delivering(exit, s.regs[id].stack), s.acts);
      }
    case Cancel => CancelsOf(Act<V>.Cancelling, s.acts);
  }

  /**
   * In every run, with callbacks repeated and cancellers called at any time, the
   * callback is called at most once, and exactly once when the runner is stopped
   * and no canceller call is still on the stack; at most one canceller is invoked.
   */
  lemma {:induction false} OneCallback<V>(world: World<V>, s: Sys<V>, events: seq<Event<V>>)
    requires Once(s)
    ensures var t := After(world, Http, s, events);
      && Once(t)
      && |t.flags.delivered| <= 1 && |t.flags.invoked| <= 1
      && (t.flags.stopped && Cancels(t.acts) == 0 ==> |t.flags.delivered| == 1)
    decreases |events|
  {
    if events != [] {
      OnceKept(world, s, events[0]);
      OneCallback(world, Handle(world, Http, s, events[0]), events[1..]);
    }
  }

  /** A stopped runner runs no user function and calls no canceller. */
  lemma {:induction false} NothingRunsAfterStop<V>(world: World<V>, s: Sys<V>, events: seq<Event<V>>)
    requires Once(s) && s.flags.stopped
    ensures var t := After(world, Http, s, events);
      && t.flags.stopped && t.calls == s.calls && |t.regs| == |s.regs| && t.raised == s.raised
      && t.flags.invoked == s.flags.invoked
      && t.flags.delivered == (if Cancels(t.acts) < Cancels(s.acts) then [Failure(Interrupt)] else s.flags.delivered)
    decreases |events|
  {
    if events != [] {
      var s1 := Handle(world, Http, s, events[0]);
      StoppedStep(world, s, events[0]);
      OnceKept(world, s, events[0]);
      NothingRunsAfterStop(world, s1, events[1..]);
      OneCallback(world, s1, events[1..]);
    }
  }

  lemma StoppedStep<V>(world: World<V>, s: Sys<V>, e: Event<V>)
    requires Once(s) && s.flags.stopped
    ensures var t := Handle(world, Http, s, e);
      && t.flags.stopped && t.calls == s.calls && |t.regs| == |s.regs| && t.raised == s.raised
      && t.flags.invoked == s.flags.invoked && Cancels(t.acts) <= Cancels(s.acts)
      && t.flags.delivered == (if Cancels(t.acts) < Cancels(s.acts) then [Failure(Interrupt)] else s.flags.delivered)
  {
    if e.Advance? && s.acts != [] && s.acts[0].Cancelling? {
      assert s.flags.delivered == [];
    }
  }

  /** Once cancelled, the callback has the interrupt as soon as no canceller call is left on the stack. */
  lemma CancelDeliversInterrupt<V>(world: World<V>, s: Sys<V>, events: seq<Event<V>>)
    requires Once(s) && !s.flags.stopped
    ensures var t := After(world, Http, Cancelled(Http, s), events);
      && t.calls == s.calls
      && t.flags.invoked == (if s.flags.current.Some? then [s.flags.current.value] else [])
      && t.flags.delivered == (if Cancels(t.acts) == 0 then [Failure(Interrupt)] else [])
  {
    var c := Cancelled(Http, s);
    OnceKept(world, s, Cancel);
    assert Handle(world, Http, s, Cancel) == c;
    CancelsOf(Act<V>.Cancelling, s.acts);
    NothingRunsAfterStop(world, c, events);
  }

  // ----- the runner of request batching, cancelled -----

  /** It then registers nothing, calls no canceller again and never calls back. */
  lemma {:induction false} BatchNeverCallsBackAfterStop<V>(world: World<V>, s: Sys<V>, events: seq<Event<V>>)
    requires s.flags.stopped && Cancels(s.acts) == 0
    ensures var t := After(world, Batch, s, events);
      && t.flags.stopped && |t.regs| == |s.regs|
      && t.flags.invoked == s.flags.invoked && t.flags.delivered == s.flags.delivered
    decreases |events|
  {
    if events != [] {
      BatchStoppedStep(world, s, events[0]);
      BatchNeverCallsBackAfterStop(world, Handle(world, Batch, s, events[0]), events[1..]);
    }
  }

  lemma BatchStoppedStep<V>(world: World<V>, s: Sys<V>, e: Event<V>)
    requires s.flags.stopped && Cancels(s.acts) == 0
    ensures var t := Handle(world, Batch, s, e);
      && t.flags.stopped && |t.regs| == |s.regs| && Cancels(t.acts) == 0
      && t.flags.invoked == s.flags.invoked && t.flags.delivered == s.flags.delivered
  {
    match e
    case Advance =>
      if s.acts != [] {
        match s.acts[0] {
          case Delivering(exit, stack) => PlaceCancels(world, s, Pop(world, exit, stack, s.calls));
          case _ =>
        }
      }
    case Answer(id, exit) =>
      if id < |s.regs| {
        CancelsOf(Delivering(exit, s.regs[id].stack), s.acts);
      }
    case Cancel =>
  }

  /** A frame runs a user function on the exit instead of passing it on. */
  predicate Takes<V>(frame: Frame, exit: Exit<V>) {
    exit.Success? || (frame.Either? && IsFailureOnly(exit.cause))
  }

  /** Some continuation on the stack takes the exit. */
  predicate Taken<V>(stack: Stack, exit: Exit<V>) {
    stack.Push? && (Takes(stack.frame, exit) || Taken(stack.rest, exit))
  }

  /** A success is taken by any continuation, a failure by a handler iff every leaf of its cause is a failure. */
  lemma {:induction false} TakenIff<V>(stack: Stack, exit: Exit<V>)
    ensures exit.Success? ==> (Taken(stack, exit) <==> stack.Push?)
    ensures exit.Failure? ==> (Taken(stack, exit) <==> OnlyFailures(exit.cause) && HasHandler(stack))
  {
    if exit.Failure? {
      FailureOnlyMeansEveryLeaf(exit.cause);
    }
    if stack.Push? {
      TakenIff(stack.rest, exit);
    }
  }

  predicate HasHandler(stack: Stack) { stack.Push? && (stack.frame.Either? || HasHandler(stack.rest)) }

  lemma {:induction false} DefectsAreNotTaken<V>(stack: Stack, e: V)
    ensures !Taken(stack, Died(e))
  {
    if stack.Push? {
      DefectsAreNotTaken(stack.rest, e);
    }
  }

  function Advances<V>(n: nat): seq<Event<V>> { seq(n, _ => Advance) }

  lemma {:induction false} OneMoreAdvance<V>(world: World<V>, kind: Runner, s: Sys<V>, n: nat)
    requires n > 0
    ensures After(world, kind, s, Advances(n)) == After(world, kind, Handle(world, kind, s, Advance), Advances(n - 1))
  {
    assert Advances<V>(n)[1..] == Advances<V>(n - 1);
  }

  /**
   * A continuation called after the canceller runs to its end and changes
   * nothing but the number of user calls: by one if some frame of the stack
   * takes the exit, by none otherwise.
   */
  lemma {:induction false} BatchDeliveryAfterStop<V>(world: World<V>, s: Sys<V>, exit: Exit<V>, stack: Stack) returns (n: nat)
    requires s.flags.stopped && s.acts != [] && s.acts[0] == Delivering(exit, stack)
    ensures After(world, Batch, s, Advances(n))
         == s.(acts := s.acts[1..], calls := s.calls + (if Taken(stack, exit) then 1 else 0))
    ensures forall k :: 0 <= k < n ==> |After(world, Batch, s, Advances(k)).acts| >= |s.acts|
    decreases stack
  {
    var t := Handle(world, Batch, s, Advance);
    n := 1;
    if stack.Push? {
      if exit.Failure? {
        FailureOnlyMeansEveryLeaf(exit.cause);
      }
      if t.acts[0].Delivering? {
        if Takes(stack.frame, exit) {
          DefectsAreNotTaken(stack.rest, t.acts[0].exit.cause.defect);
        }
        n := BatchDeliveryAfterStop(world, t, t.acts[0].exit, stack.rest);
      } else {
        OneMoreAdvance(world, Batch, t, 1);
      }
      n := n + 1;
    }
    OneMoreAdvance(world, Batch, s, n);
    forall k | 0 <= k < n ensures |After(world, Batch, s, Advances(k)).acts| >= |s.acts| {
      if k > 0 {
        OneMoreAdvance(world, Batch, s, k);
      }
    }
  }

  // ----- what late answers can still run -----

  /** How many of the continuations being called are still to run a user function. */
  function Owed<V>(acts: seq<Act<V>>): nat {
    if acts == [] then 0
    else (if acts[0].Delivering? && Taken(acts[0].stack, acts[0].exit) then 1 else 0) + Owed(acts[1..])
  }

  lemma OwedOf<V>(a: Act<V>, acts: seq<Act<V>>)
    ensures Owed([a] + acts) == Owed(acts) + (if a.Delivering? && Taken(a.stack, a.exit) then 1 else 0)
  {
    assert ([a] + acts)[1..] == acts;
  }

  predicate TakenAnswer<V>(regs: seq<Registration>, e: Event<V>) {
    e.Answer? && e.id < |regs| && Taken(regs[e.id].stack, e.exit)
  }

  /** The answers among the events that some continuation takes. */
  function TakenAnswers<V>(regs: seq<Registration>, events: seq<Event<V>>): nat {
    if events == [] then 0 else (if TakenAnswer(regs, events[0]) then 1 else 0) + TakenAnswers(regs, events[1..])
  }

  function Answers<V>(events: seq<Event<V>>): nat {
    if events == [] then 0 else (if events[0].Answer? then 1 else 0) + Answers(events[1..])
  }

  predicate SameStacks(regs: seq<Registration>, regs': seq<Registration>) {
    |regs| == |regs'| && forall i :: 0 <= i < |regs| ==> regs[i].stack == regs'[i].stack
  }

  lemma {:induction false} TakenAnswersSame<V>(regs: seq<Registration>, regs': seq<Registration>, events: seq<Event<V>>)
    requires SameStacks(regs, regs')
    ensures TakenAnswers(regs, events) == TakenAnswers(regs', events) <= Answers(events)
  {
    if events != [] {
      TakenAnswersSame(regs, regs', events[1..]);
    }
  }

  lemma BatchOwes<V>(world: World<V>, s: Sys<V>, e: Event<V>)
    requires s.flags.stopped && Cancels(s.acts) == 0
    ensures var t := Handle(world, Batch, s, e);
      && t.calls + Owed(t.acts) == s.calls + Owed(s.acts) + (if TakenAnswer(s.regs, e) then 1 else 0)
      && SameStacks(s.regs, t.regs)
  {
    match e
    case Advance =>
      if s.acts != [] && s.acts[0].Delivering? && s.acts[0].stack.Push? {
        BatchDeliveryOwes(world, s, s.acts[0].exit, s.acts[0].stack);
      }
    case Answer(id, exit) =>
      if id < |s.regs| {
        OwedOf(Delivering(exit, s.regs[id].stack), s.acts);
      }
    case Cancel =>
  }

  lemma BatchDeliveryOwes<V>(world: World<V>, s: Sys<V>, exit: Exit<V>, stack: Stack)
    requires s.flags.stopped && s.acts != [] && s.acts[0] == Delivering(exit, stack) && stack.Push?
    ensures var t := Advanced(world, Batch, s); t.calls + Owed(t.acts) == s.calls + Owed(s.acts) && t.regs == s.regs
  {
    var t := Advanced(world, Batch, s);
    if exit.Failure? {
      FailureOnlyMeansEveryLeaf(exit.cause);
    }
    OwedOf(t.acts[0], s.acts[1..]);
    if t.acts[0].Delivering? && Takes(stack.frame, exit) {
      DefectsAreNotTaken(stack.rest, t.acts[0].exit.cause.defect);
    }
  }

  /**
   * Over any run after the canceller was called: the user calls made are those
   * owed by continuations that were being called, and one for each late answer
   * that some continuation takes. So no user function runs iff nothing was owed
   * and no late answer is taken.
   */
  lemma {:induction false} BatchCallsAfterStop<V>(world: World<V>, s: Sys<V>, events: seq<Event<V>>)
    requires s.flags.stopped && Cancels(s.acts) == 0
    ensures var t := After(world, Batch, s, events);
      && t.calls + Owed(t.acts) == s.calls + Owed(s.acts) + TakenAnswers(s.regs, events)
      && t.calls <= s.calls + Owed(s.acts) + Answers(events)
      && (t.acts == [] ==> (t.calls == s.calls <==> Owed(s.acts) == 0 && TakenAnswers(s.regs, events) == 0))
    decreases |events|
  {
    TakenAnswersSame(s.regs, s.regs, events);
    if events != [] {
      var s1 := Handle(world, Batch, s, events[0]);
      BatchStoppedStep(world, s, events[0]);
      BatchOwes(world, s, events[0]);
      BatchCallsAfterStop(world, s1, events[1..]);
      TakenAnswersSame(s.regs, s1.regs, events[1..]);
    }
  }

  // ----- uncancelled runs with one answer per registration -----

  /** The registration that may still be answered is the last. */
  predicate Outstanding<V>(s: Sys<V>) {
    s.regs != [] && s.regs[|s.regs| - 1].answers == 0
  }

  predicate Busy<V>(s: Sys<V>) {
    s.acts != [] && (s.acts[0].Running? || s.acts[0].Delivering?)
  }

  /** The event does not cancel, and answers a registration once, as the world says. */
  predicate Orderly<V(==)>(world: World<V>, s: Sys<V>, e: Event<V>) {
    match e
    case Advance => s.acts != []
    case Answer(id, exit) =>
      && id < |s.regs| && s.regs[id].answers == 0
      && world.answer(s.regs[id].register, s.regs[id].at) == Some(exit)
    case Cancel => false
  }

  predicate OrderlyRun<V(==)>(world: World<V>, kind: Runner, s: Sys<V>, events: seq<Event<V>>)
    decreases |events|
  {
    events == [] ||
    (Orderly(world, s, events[0]) && OrderlyRun(world, kind, Handle(world, kind, s, events[0]), events[1..]))
  }

  /** Below the running call there are only register calls, and they are answered. */
  ghost predicate Linear<V>(s: Sys<V>) {
    && (forall i :: 0 <= i < |s.acts| ==> !s.acts[i].Cancelling? && (i > 0 ==> s.acts[i].Registering?))
    && (forall i :: 0 <= i < |s.regs| ==> s.regs[i].answers <= 1)
    && (forall i :: 0 <= i < |s.regs| - 1 ==> s.regs[i].answers == 1)
    && (forall i :: 0 <= i < |s.acts| && s.acts[i].Registering? ==> s.acts[i].id < |s.regs|)
    && (s.flags.current.Some? ==> s.flags.current.value < |s.regs|)
    && (Outstanding(s) ==> InFlight(s))
  }

  /** Which canceller is stored while the last registration is unanswered. */
  ghost predicate InFlight<V>(s: Sys<V>)
    requires s.regs != []
  {
    var b := |s.regs| - 1;
    && !Busy(s)
    && (forall i :: 1 <= i < |s.acts| ==> s.acts[i] != Registering(b))
    && (s.regs[b].nested <==> s.regs[b].depth > 0)
    && (if s.acts != [] && s.acts[0] == Registering(b)
        then s.regs[b].depth == |s.acts| - 1 && s.flags.current != Some(b)
        else && |s.acts| <= s.regs[b].depth
             && (|s.acts| == s.regs[b].depth ==> s.flags.current == if s.regs[b].cancellable then Some(b) else None)
             && (|s.acts| < s.regs[b].depth ==> s.flags.current != Some(b)))
  }

  /** The runner stands where the machine stands. */
  ghost predicate At<V>(kind: Runner, s: Sys<V>, c: Control<V>) {
    && (s.flags.stopped <==> kind.Http? && s.flags.delivered != [])
    && (c.Finished? || (s.flags.delivered == [] && s.raised.None?))
    && (match c
        case Run(eff, stack, guard, calls) =>
          s.acts != [] && s.acts[0] == Running(eff, stack, guard) && s.calls == calls && !Outstanding(s)
        case Deliver(exit, stack, calls) =>
          s.acts != [] && s.acts[0] == Delivering(exit, stack) && s.calls == calls && !Outstanding(s)
        case Wait(register, stack, at) =>
          && !Busy(s) && Outstanding(s) && s.calls == at + 1
          && var reg := s.regs[|s.regs| - 1]; reg.register == register && reg.stack == stack && reg.at == at
        case Finished(Exits(exit), calls) =>
          !Busy(s) && !Outstanding(s) && s.flags.delivered == [exit] && s.raised.None? && s.calls == calls
        case Finished(Raised(e), calls) =>
          !Busy(s) && !Outstanding(s) && s.flags.delivered == [] && s.raised == Some(e) && s.calls == calls)
  }

  lemma PlaceAt<V>(world: World<V>, kind: Runner, s: Sys<V>, c: Control<V>)
    requires Linear(s) && Busy(s) && !Outstanding(s)
    requires s.flags.delivered == [] && s.raised.None? && !s.flags.stopped
    requires !(c.Finished? && c.outcome.Exits?)
    ensures var t := Place(world, s, c);
      Linear(t) && At(kind, t, c) && |t.acts| <= |s.acts|
  {
    var t := Place(world, s, c);
    var below := s.acts[1..];
    assert forall i :: 0 <= i < |below| ==> below[i] == s.acts[i + 1];
    if c.Wait? {
      if below != [] {
        assert below[0].Registering?;
      }
    }
  }

  /** Each orderly event either moves the machine one step or ends one register call. */
  lemma Simulates<V>(world: World<V>, kind: Runner, s: Sys<V>, c: Control<V>, e: Event<V>)
    requires Linear(s) && At(kind, s, c) && Orderly(world, s, e)
    ensures var t := Handle(world, kind, s, e);
      && Linear(t)
      && ((At(kind, t, c) && |t.acts| < |s.acts|)
          || (At(kind, t, Next(world, c)) && |t.acts| <= |s.acts| + 1 && !c.Finished?))
  {
    match e
    case Advance =>
      match s.acts[0] {
        case Running(eff, stack, guard) => PlaceAt(world, kind, s, Visit(world, eff, stack, guard, s.calls));
        case Delivering(exit, stack) =>
          if stack.Push? {
            PlaceAt(world, kind, s, Pop(world, exit, stack, s.calls));
          } else {
            DeliveredAt(world, kind, s, exit);
          }
        case Registering(id) => RegisterReturns(world, kind, s, c);
        case _ =>
      }
    case Answer(id, exit) => AnswerArrives(world, kind, s, c, id, exit);
    case Cancel =>
  }

  lemma DeliveredAt<V>(world: World<V>, kind: Runner, s: Sys<V>, exit: Exit<V>)
    requires Linear(s) && At(kind, s, Deliver(exit, Bottom, s.calls))
    ensures var t := Advanced(world, kind, s);
      Linear(t) && At(kind, t, Finished(Exits(exit), s.calls)) && |t.acts| < |s.acts|
  {
    var below := s.acts[1..];
    assert forall i :: 0 <= i < |below| ==> below[i] == s.acts[i + 1];
  }

  lemma RegisterReturns<V>(world: World<V>, kind: Runner, s: Sys<V>, c: Control<V>)
    requires Linear(s) && At(kind, s, c) && s.acts != [] && s.acts[0].Registering?
    ensures var t := Advanced(world, kind, s); Linear(t) && At(kind, t, c) && |t.acts| < |s.acts|
  {
    var t := Advanced(world, kind, s);
    assert forall i :: 0 <= i < |t.acts| ==> t.acts[i] == s.acts[i + 1];
  }

  lemma AnswerArrives<V>(world: World<V>, kind: Runner, s: Sys<V>, c: Control<V>, id: nat, exit: Exit<V>)
    requires Linear(s) && At(kind, s, c) && Orderly(world, s, Answer(id, exit))
    ensures var t := Answered(kind, s, id, exit);
      Linear(t) && At(kind, t, Next(world, c)) && |t.acts| <= |s.acts| + 1 && !c.Finished?
  {
    assert id == |s.regs| - 1 && Outstanding(s);
    assert c.Wait?;
    var t := Answered(kind, s, id, exit);
    assert forall i :: 1 <= i < |t.acts| ==> t.acts[i] == s.acts[i - 1];
  }

  lemma {:induction false} RunsFollow<V>(world: World<V>, kind: Runner, s: Sys<V>, events: seq<Event<V>>, c: Control<V>)
    returns (n: nat)
    requires Linear(s) && At(kind, s, c) && OrderlyRun(world, kind, s, events)
    ensures Linear(After(world, kind, s, events)) && At(kind, After(world, kind, s, events), Steps(world, c, n))
    decreases |events|
  {
    n := 0;
    if events != [] {
      var s1 := Handle(world, kind, s, events[0]);
      Simulates(world, kind, s, c, events[0]);
      if At(kind, s1, c) && |s1.acts| < |s.acts| {
        n := RunsFollow(world, kind, s1, events[1..], c);
      } else {
        n := RunsFollow(world, kind, s1, events[1..], Next(world, c));
        n := n + 1;
        assert Steps(world, c, 0) == c;
      }
    }
  }

  /** Nothing is on the stack and nothing will be answered. */
  ghost predicate Quiescent<V>(world: World<V>, s: Sys<V>) {
    && s.acts == []
    && (Outstanding(s) ==> var reg := s.regs[|s.regs| - 1]; world.answer(reg.register, reg.at).None?)
  }

  /**
   * Adequacy of both runners: what an uncancelled run delivers or throws is what
   * the effect means, and a run with nothing left to do has delivered whatever
   * exit the effect means.
   */
  lemma RunnersAreAdequate<V>(world: World<V>, kind: Runner, eff: Effect<V>, events: seq<Event<V>>)
    requires OrderlyRun(world, kind, Start(eff), events)
    ensures var t := After(world, kind, Start(eff), events);
      && |t.flags.delivered| <= 1
      && (forall x :: t.flags.delivered == [x] ==> Means(world, eff, Exits(x)))
      && (forall e :: t.raised == Some(e) ==> Means(world, eff, Raised(e)))
      && (Quiescent(world, t) ==> forall x :: Means(world, eff, Exits(x)) ==> t.flags.delivered == [x])
      && (Quiescent(world, t) ==> forall e :: Means(world, eff, Raised(e)) ==> t.raised == Some(e))
  {
    var s, c := Start(eff), Begin(eff);
    var t := After(world, kind, s, events);
    var n := RunsFollow(world, kind, s, events, c);
    var d := Steps(world, c, n);
    if d.Finished? {
      assert EndsWith(world, c, d.outcome);
      Adequacy(world, eff, d.outcome);
    }
    if Quiescent(world, t) {
      forall o | Means(world, eff, o) ensures d.Finished? && d.outcome == o {
        Adequacy(world, eff, o);
        var k, calls :| Steps(world, c, k) == Finished(o, calls);
        Meet(world, c, n, k);
      }
    }
  }

  /** A machine that no longer moves and one that finished are the same machine. */
  lemma Meet<V>(world: World<V>, c: Control<V>, n: nat, k: nat)
    requires Next(world, Steps(world, c, n)) == Steps(world, c, n) && Steps(world, c, k).Finished?
    ensures Steps(world, c, n) == Steps(world, c, k)
  {
    if n <= k {
      StepsAdd(world, c, n, k - n);
      Settled(world, Steps(world, c, n), k - n);
    } else {
      StepsAdd(world, c, k, n - k);
      Settled(world, Steps(world, c, k), n - k);
    }
  }

  /** An effect with a meaning is run to its end: orderly runs have bounded length. */
  lemma {:induction false} RunsEnd<V>(world: World<V>, kind: Runner, s: Sys<V>, events: seq<Event<V>>, c: Control<V>, k: nat)
    requires Linear(s) && At(kind, s, c) && OrderlyRun(world, kind, s, events)
    requires Steps(world, c, k).Finished?
    ensures |events| <= 2 * k + |s.acts|
    decreases |events|
  {
    if events != [] {
      var s1 := Handle(world, kind, s, events[0]);
      Simulates(world, kind, s, c, events[0]);
      if At(kind, s1, c) && |s1.acts| < |s.acts| {
        RunsEnd(world, kind, s1, events[1..], c, k);
      } else {
        RunsEnd(world, kind, s1, events[1..], Next(world, c), k - 1);
      }
    }
  }

  /** Both runners deliver the same exit, whatever order the calls and answers came in. */
  lemma RunnersAgree<V>(world: World<V>, eff: Effect<V>, events: seq<Event<V>>, events': seq<Event<V>>)
    requires OrderlyRun(world, Http, Start(eff), events) && OrderlyRun(world, Batch, Start(eff), events')
    requires Quiescent(world, After(world, Http, Start(eff), events))
    requires Quiescent(world, After(world, Batch, Start(eff), events'))
    ensures After(world, Http, Start(eff), events).flags.delivered == After(world, Batch, Start(eff), events').flags.delivered
  {
    RunnersAreAdequate(world, Http, eff, events);
    RunnersAreAdequate(world, Batch, eff, events');
    var d := After(world, Http, Start(eff), events).flags.delivered;
    var d' := After(world, Batch, Start(eff), events').flags.delivered;
    if |d| == 1 {
      assert d == [d[0]];
      assert Means(world, eff, Exits(d[0]));
    }
    if |d'| == 1 {
      assert d' == [d'[0]];
      assert Means(world, eff, Exits(d'[0]));
    }
  }

  lemma {:induction false} NoCancelling<V>(acts: seq<Act<V>>)
    requires forall i :: 0 <= i < |acts| ==> !acts[i].Cancelling?
    ensures Cancels(acts) == 0
  {
    if acts != [] {
      NoCancelling(acts[1..]);
    }
  }

  /** Whatever happens after the canceller was called, no other canceller is. */
  lemma CancelIsFinal<V>(world: World<V>, kind: Runner, t: Sys<V>, later: seq<Event<V>>)
    requires Once(t) || kind.Batch?
    requires !t.flags.stopped && forall i :: 0 <= i < |t.acts| ==> !t.acts[i].Cancelling?
    ensures After(world, kind, Cancelled(kind, t), later).flags.invoked == Cancelled(kind, t).flags.invoked
    ensures Cancelled(kind, t).flags.invoked == t.flags.invoked + (if t.flags.current.Some? then [t.flags.current.value] else [])
  {
    if kind.Http? {
      CancelDeliversInterrupt(world, t, later);
    } else {
      NoCancelling(t.acts);
      BatchNeverCallsBackAfterStop(world, Cancelled(kind, t), later);
    }
  }

  /** Cancelling a run that has not ended, at any moment, calls the stored canceller, and no other one later. */
  lemma CancelCallsStored<V>(world: World<V>, kind: Runner, eff: Effect<V>, events: seq<Event<V>>, later: seq<Event<V>>)
    requires OrderlyRun(world, kind, Start(eff), events)
    ensures var t := After(world, kind, Start(eff), events);
      t.flags.delivered == [] ==>
        && !t.flags.stopped && Linear(t)
        && After(world, kind, Cancelled(kind, t), later).flags.invoked
           == (if t.flags.current.Some? then [t.flags.current.value] else [])
  {
    var t := After(world, kind, Start(eff), events);
    var n := RunsFollow(world, kind, Start(eff), events, Begin(eff));
    NothingInvoked(world, kind, Start(eff), events);
    if kind.Http? {
      OneCallback(world, Start(eff), events);
    }
    if t.flags.delivered == [] {
      CancelIsFinal(world, kind, t, later);
    }
  }

  /**
   * Cancelling a run at any moment at which the last registration b is in flight:
   * its canceller is the one called, once and for ever, iff it has one and the
   * stack is just what it was below its register call: that call has returned,
   * and none of those below it has. An idle run that has not ended is always at
   * such a moment, and there it means that b was not made inside another
   * register call, that is, that no Async completed synchronously around it.
   */
  lemma CancelReachesInFlight<V>(world: World<V>, kind: Runner, eff: Effect<V>, events: seq<Event<V>>, later: seq<Event<V>>)
    requires OrderlyRun(world, kind, Start(eff), events)
    ensures var t := After(world, kind, Start(eff), events);
      t.flags.delivered == [] && t.raised.None? && (t.acts == [] || Outstanding(t)) ==>
        && Outstanding(t)
        && var b, invoked := |t.regs| - 1, After(world, kind, Cancelled(kind, t), later).flags.invoked;
        && (invoked == [b] <==> t.regs[b].cancellable && |t.acts| == t.regs[b].depth)
        && (invoked != [b] ==> b !in invoked)
        && (t.acts == [] ==> (invoked == [b] <==> t.regs[b].cancellable && !t.regs[b].nested))
  {
    var t := After(world, kind, Start(eff), events);
    var n := RunsFollow(world, kind, Start(eff), events, Begin(eff));
    CancelCallsStored(world, kind, eff, events, later);
  }

  /** Answers come when no register call is on the stack: no Async completes synchronously. */
  predicate DeferredRun<V(==)>(world: World<V>, kind: Runner, s: Sys<V>, events: seq<Event<V>>)
    decreases |events|
  {
    events == [] ||
    (&& Orderly(world, s, events[0])
     && (events[0].Answer? ==> s.acts == [])
     && DeferredRun(world, kind, Handle(world, kind, s, events[0]), events[1..]))
  }

  /** In a deferred run nothing is below the running call, and no canceller is stored while there is one. */
  ghost predicate Flat<V>(s: Sys<V>) {
    && |s.acts| <= 1
    && (s.acts != [] ==> s.flags.current.None?)
    && (s.flags.current.Some? ==> Outstanding(s))
    && (s.acts != [] && s.acts[0].Registering? ==> Outstanding(s) && s.acts[0].id == |s.regs| - 1)
    && (forall i :: 0 <= i < |s.regs| ==> !s.regs[i].nested && s.regs[i].depth == 0)
  }

  lemma {:induction false} DeferredStaysFlat<V>(world: World<V>, kind: Runner, s: Sys<V>, events: seq<Event<V>>)
    requires DeferredRun(world, kind, s, events) && Flat(s)
    ensures OrderlyRun(world, kind, s, events) && Flat(After(world, kind, s, events))
    decreases |events|
  {
    if events != [] {
      DeferredStep(world, kind, s, events[0]);
      DeferredStaysFlat(world, kind, Handle(world, kind, s, events[0]), events[1..]);
    }
  }

  lemma DeferredStep<V>(world: World<V>, kind: Runner, s: Sys<V>, e: Event<V>)
    requires Flat(s) && Orderly(world, s, e) && (e.Answer? ==> s.acts == [])
    ensures Flat(Handle(world, kind, s, e))
  {
  }

  /**
   * If no Async completes synchronously, cancelling at any moment before the end
   * calls the in-flight canceller exactly once and no other one, if there is a
   * registration in flight whose register call has returned a canceller; and
   * otherwise none. So the in-flight canceller is missed exactly when the
   * cancellation comes while its register call is still on the stack.
   */
  lemma CancelInvokesInFlightOnce<V>(world: World<V>, kind: Runner, eff: Effect<V>, events: seq<Event<V>>, later: seq<Event<V>>)
    requires DeferredRun(world, kind, Start(eff), events)
    ensures var t := After(world, kind, Start(eff), events);
      t.flags.delivered == [] && t.raised.None? ==>
        && (t.acts == [] ==> Outstanding(t))
        && After(world, kind, Cancelled(kind, t), later).flags.invoked
           == (if t.acts == [] && t.regs[|t.regs| - 1].cancellable then [|t.regs| - 1] else [])
  {
    hide Cancelled, Handle;
    DeferredStaysFlat(world, kind, Start(eff), events);
    var t := After(world, kind, Start(eff), events);
    var n := RunsFollow(world, kind, Start(eff), events, Begin(eff));
    CancelCallsStored(world, kind, eff, events, later);
  }

  lemma {:induction false} NothingInvoked<V>(world: World<V>, kind: Runner, s: Sys<V>, events: seq<Event<V>>)
    requires OrderlyRun(world, kind, s, events)
    ensures After(world, kind, s, events).flags.invoked == s.flags.invoked
    decreases |events|
  {
    if events != [] {
      NothingInvoked(world, kind, Handle(world, kind, s, events[0]), events[1..]);
    }
  }

  // ----- where the runners fall short -----

  /**
   * A register call that completes synchronously overwrites, when it returns, the
   * canceller stored by what it started: the first Async below answers at once,
   * the second is in flight, and cancelling calls the first one's canceller.
   */
  lemma StaleCanceller<V(!new)>(world: World<V>, kind: Runner, v: V)
    requires world.register(0, 0) == Returns(true) && world.answer(0, 0) == Some(Success(v))
    requires world.apply(2, v, 1) == Returns(Async(1)) && world.register(1, 2) == Returns(true)
    ensures exists t ::
      && Reaches(world, kind, Start(FlatMap(Async(0), 2)), t)
      && t.acts == [] && |t.regs| == 2 && t.regs[0].answers == 1 && t.regs[1].answers == 0
      && Cancelled(kind, t).flags.invoked == [0]
  {
    var rest := Push(AndThen(2), Bottom);
    var s0, s1 := Start(FlatMap(Async(0), 2)), Sys(Start(Async(0)).flags, [Running(Async(0), rest, Unguarded)], [], 0, None);
    var r0 := Registration(0, rest, 0, true, false, 0, 0);
    var s2 := Sys(s0.flags, [Registering(0)], [r0], 1, None);
    var s3 := Sys(s0.flags, [Delivering(Success(v), rest), Registering(0)], [r0.(answers := 1)], 1, None);
    var t := SecondHalf(world, kind, v, s3, r0.(answers := 1));
    assert Handle(world, kind, s0, Advance) == s1;
    assert Handle(world, kind, s1, Advance) == s2;
    assert Handle(world, kind, s2, Answer(0, Success(v))) == s3;
    OneMore(world, kind, s2, Answer(0, Success(v)), s3, t);
    OneMore(world, kind, s1, Advance, s2, t);
    OneMore(world, kind, s0, Advance, s1, t);
  }

  lemma SecondHalf<V(!new)>(world: World<V>, kind: Runner, v: V, s3: Sys<V>, r0: Registration) returns (t: Sys<V>)
    requires world.apply(2, v, 1) == Returns(Async(1)) && world.register(1, 2) == Returns(true)
    requires r0.cancellable && r0.answers == 1
    requires s3 == Sys(Flags(false, None, [], []), [Delivering(Success(v), Push(AndThen(2), Bottom)), Registering(0)], [r0], 1, None)
    ensures Reaches(world, kind, s3, t)
    ensures t.acts == [] && |t.regs| == 2 && t.regs[0].answers == 1 && t.regs[1].answers == 0
    ensures Cancelled(kind, t).flags.invoked == [0]
  {
    var regs := [r0, Registration(1, Bottom, 2, true, true, 1, 0)];
    var s4 := s3.(acts := [Running(Async(1), Bottom, Guarded(Bottom)), Registering(0)], calls := 2);
    var s5 := s3.(acts := [Registering(1), Registering(0)], regs := regs, calls := 3);
    var s6 := s5.(acts := [Registering(0)], flags := s3.flags.(current := Some(1)));
    t := s5.(acts := [], flags := s3.flags.(current := Some(0)));
    assert Handle(world, kind, s3, Advance) == s4;
    assert Handle(world, kind, s4, Advance) == s5 by {
      assert s4.acts[1..][0].Registering?;
      assert InRegister(s4.acts[1..]);
    }
    assert Handle(world, kind, s5, Advance) == s6;
    assert Handle(world, kind, s6, Advance) == t;
    assert OrderlyRun(world, kind, t, []) && After(world, kind, t, []) == t;
    OneMore(world, kind, s6, Advance, t, t);
    OneMore(world, kind, s5, Advance, s6, t);
    OneMore(world, kind, s4, Advance, s5, t);
    OneMore(world, kind, s3, Advance, s4, t);
  }

  /** Some run in which no Async completes synchronously leads from s to t. */
  ghost predicate ReachesDeferred<V(!new)>(world: World<V>, kind: Runner, s: Sys<V>, t: Sys<V>) {
    exists events :: DeferredRun(world, kind, s, events) && After(world, kind, s, events) == t
  }

  lemma OneMoreDeferred<V(!new)>(world: World<V>, kind: Runner, s: Sys<V>, e: Event<V>, s1: Sys<V>, t: Sys<V>)
    requires Orderly(world, s, e) && (e.Answer? ==> s.acts == [])
    requires Handle(world, kind, s, e) == s1 && ReachesDeferred(world, kind, s1, t)
    ensures ReachesDeferred(world, kind, s, t)
  {
    var events :| DeferredRun(world, kind, s1, events) && After(world, kind, s1, events) == t;
    var longer := [e] + events;
    assert longer[1..] == events;
    assert DeferredRun(world, kind, s, longer) && After(world, kind, s, longer) == t;
  }

  /**
   * Without any synchronous completion, a cancellation that comes while register
   * runs misses the canceller which that call is about to return: the first
   * Async below has answered, the second is being registered with a canceller,
   * and neither the cancellation nor anything later calls it.
   */
  lemma CancelDuringRegister<V(!new)>(world: World<V>, kind: Runner, v: V) returns (t: Sys<V>)
    requires world.register(0, 0) == Returns(true) && world.answer(0, 0) == Some(Success(v))
    requires world.apply(2, v, 1) == Returns(Async(1)) && world.register(1, 2) == Returns(true)
    ensures ReachesDeferred(world, kind, Start(FlatMap(Async(0), 2)), t)
    ensures t.acts == [Registering(1)] && |t.regs| == 2 && t.regs[1].cancellable && t.regs[1].answers == 0
    ensures forall later :: After(world, kind, Cancelled(kind, t), later).flags.invoked == []
  {
    var rest := Push(AndThen(2), Bottom);
    var s0: Sys<V> := Start(FlatMap(Async(0), 2));
    var s1 := s0.(acts := [Running(Async(0), rest, Unguarded)]);
    var r0 := Registration(0, rest, 0, true, false, 0, 0);
    var s2 := s0.(acts := [Registering(0)], regs := [r0], calls := 1);
    var s3 := s2.(acts := [], flags := s0.flags.(current := Some(0)));
    t := MissedHalf(world, kind, v, s3, r0);
    assert Handle(world, kind, s0, Advance) == s1;
    assert Handle(world, kind, s1, Advance) == s2;
    assert Handle(world, kind, s2, Advance) == s3;
    OneMoreDeferred(world, kind, s2, Advance, s3, t);
    OneMoreDeferred(world, kind, s1, Advance, s2, t);
    OneMoreDeferred(world, kind, s0, Advance, s1, t);
    forall later ensures After(world, kind, Cancelled(kind, t), later).flags.invoked == [] {
      CancelIsFinal(world, kind, t, later);
    }
  }

  lemma MissedHalf<V(!new)>(world: World<V>, kind: Runner, v: V, s3: Sys<V>, r0: Registration) returns (t: Sys<V>)
    requires world.answer(0, 0) == Some(Success(v))
    requires world.apply(2, v, 1) == Returns(Async(1)) && world.register(1, 2) == Returns(true)
    requires r0 == Registration(0, Push(AndThen(2), Bottom), 0, true, false, 0, 0)
    requires s3 == Sys(Flags(false, Some(0), [], []), [], [r0], 1, None)
    ensures ReachesDeferred(world, kind, s3, t) && Once(t) && !t.flags.stopped
    ensures t.acts == [Registering(1)] && |t.regs| == 2 && t.regs[1].cancellable && t.regs[1].answers == 0
    ensures t.flags.current.None? && t.flags.invoked == []
  {
    var none := s3.flags.(current := None);
    var answered := [r0.(answers := 1)];
    var s4 := s3.(flags := none, acts := [Delivering(Success(v), r0.stack)], regs := answered);
    var s5 := s4.(acts := [Running(Async(1), Bottom, Guarded(Bottom))], calls := 2);
    t := s5.(acts := [Registering(1)], regs := answered + [Registration(1, Bottom, 2, true, false, 0, 0)], calls := 3);
    assert Handle(world, kind, s3, Answer(0, Success(v))) == s4;
    assert Handle(world, kind, s4, Advance) == s5;
    assert Handle(world, kind, s5, Advance) == t;
    assert DeferredRun(world, kind, t, []) && After(world, kind, t, []) == t;
    OneMoreDeferred(world, kind, s5, Advance, t, t);
    OneMoreDeferred(world, kind, s4, Advance, s5, t);
    OneMoreDeferred(world, kind, s3, Answer(0, Success(v)), s4, t);
  }

  /** Some orderly run leads from s to t. */
  ghost predicate Reaches<V(!new)>(world: World<V>, kind: Runner, s: Sys<V>, t: Sys<V>) {
    exists events :: OrderlyRun(world, kind, s, events) && After(world, kind, s, events) == t
  }

  lemma OneMore<V(!new)>(world: World<V>, kind: Runner, s: Sys<V>, e: Event<V>, s1: Sys<V>, t: Sys<V>)
    requires Orderly(world, s, e) && Handle(world, kind, s, e) == s1 && Reaches(world, kind, s1, t)
    ensures Reaches(world, kind, s, t)
  {
    var events :| OrderlyRun(world, kind, s1, events) && After(world, kind, s1, events) == t;
    var longer := [e] + events;
    assert longer[1..] == events;
    assert OrderlyRun(world, kind, s, longer) && After(world, kind, s, longer) == t;
  }

  /** Some run, whatever its events, leads from s to t. */
  ghost predicate Leads<V(!new)>(world: World<V>, kind: Runner, s: Sys<V>, t: Sys<V>) {
    exists events :: After(world, kind, s, events) == t
  }

  lemma LeadsOn<V(!new)>(world: World<V>, kind: Runner, s: Sys<V>, e: Event<V>, s1: Sys<V>, t: Sys<V>)
    requires Handle(world, kind, s, e) == s1 && Leads(world, kind, s1, t)
    ensures Leads(world, kind, s, t)
  {
    var events :| After(world, kind, s1, events) == t;
    assert ([e] + events)[1..] == events;
    assert After(world, kind, s, [e] + events) == t;
  }

  /**
   * The runner of request batching does run a user function after it was
   * cancelled: start, register, cancel, and let the answer come late. No run of
   * the other runner does (NothingRunsAfterStop).
   */
  lemma BatchResumesAfterStop<V(!new)>(world: World<V>, v: V) returns (s: Sys<V>)
    requires world.register(0, 0).Returns?
    ensures Leads(world, Batch, Start(FlatMap(Async(0), 2)), s)
    ensures s.flags.stopped && s.acts == [] && |s.regs| == 1
    ensures After(world, Batch, s, [Answer(0, Success(v)), Advance]).calls == s.calls + 1
  {
    var rest := Push(AndThen(2), Bottom);
    var cancellable := world.register(0, 0) == Returns(true);
    var current := if cancellable then Some(0) else None;
    var reg := Registration(0, rest, 0, cancellable, false, 0, 0);
    var none: seq<Exit<V>> := [];
    var s0: Sys<V> := Start(FlatMap(Async(0), 2));
    var s1 := s0.(acts := [Running(Async(0), rest, Unguarded)]);
    var s2 := Sys(s0.flags, [Act<V>.Registering(0)], [reg], 1, None);
    var s3 := Sys(Flags(false, current, [], none), [], [reg], 1, None);
    s := Sys(Flags(true, current, if cancellable then [0] else [], none), [], [reg], 1, None);
    assert Handle(world, Batch, s0, Advance) == s1;
    assert Handle(world, Batch, s1, Advance) == s2;
    assert Handle(world, Batch, s2, Advance) == s3;
    assert Handle(world, Batch, s3, Cancel) == s;
    assert After(world, Batch, s, []) == s;
    LeadsOn(world, Batch, s3, Cancel, s, s);
    LeadsOn(world, Batch, s2, Advance, s3, s);
    LeadsOn(world, Batch, s1, Advance, s2, s);
    LeadsOn(world, Batch, s0, Advance, s1, s);
    LateAnswer(world, s, v);
  }

  lemma LateAnswer<V>(world: World<V>, s: Sys<V>, v: V)
    requires s.flags.stopped && s.acts == [] && |s.regs| == 1 && s.regs[0].stack == Push(AndThen(2), Bottom)
    ensures After(world, Batch, s, [Answer(0, Success(v)), Advance]).calls == s.calls + 1
  {
    var t := Handle(world, Batch, s, Answer(0, Success(v)));
    assert [Answer(0, Success(v)), Advance][1..] == [Advance];
    assert After(world, Batch, t, [Advance]) == Handle(world, Batch, t, Advance);
    assert t.acts[0] == Delivering(Success(v), Push(AndThen(2), Bottom));
  }

  // ----- registerHttpEffect, its variables and its call stack updated in place -----

  /** The variables that the closures of the source share, and, as acts, the call stack of the host: a cancellation or an
      answer may find it in any state. */
  class EffectRun<V> {
    const world: World<V>
    var done: bool
    var currentCancel: Option<nat>
    var invoked: seq<nat>              // cancellers called
    var delivered: seq<Exit<V>>        // calls of the callback
    var acts: seq<Act<V>>
    var regs: seq<Registration>
    var calls: nat
    var raised: Option<V>

    function Now(): Flags<V>
      reads this
    {
      Flags(done, currentCancel, invoked, delivered)
    }

    function Model(): Sys<V>
      reads this
    {
      Sys(Now(), acts, regs, calls, raised)
    }

    constructor (world: World<V>, eff: Effect<V>)
      ensures this.world == world && Model() == Start(eff)
    {
      this.world := world;
      done, currentCancel, invoked, delivered := false, None, [], [];
      acts, regs, calls, raised := [Running(eff, Bottom, Unguarded)], [], 0, None;
    }

    method Finish(exit: Exit<V>)
      modifies this`done, this`currentCancel, this`delivered
      ensures Now() == Finishing(Http, old(Now()), exit)
    {
      if done { return; }
      done := true;
      currentCancel := None;
      delivered := delivered + [exit];
    }

    /** register is called: it is on the stack until it returns. */
    method EnterRegister(register: Label, stack: Stack, at: nat)
      requires acts != []
      modifies this`acts, this`regs, this`calls
      ensures Model() == Place(world, old(Model()), Wait(register, stack, at))
    {
      var cancellable := world.register(register, at) == Returns(true);
      regs := regs + [Registration(register, stack, at, cancellable, InRegister(acts[1..]), |acts| - 1, 0)];
      acts := [Registering(|regs| - 1)] + acts[1..];
      calls := at + 1;
    }

    /** The running call goes on as c. */
    method GoOn(c: Control<V>)
      requires acts != []
      modifies this`acts, this`regs, this`calls, this`raised
      ensures Model() == Place(world, old(Model()), c)
    {
      match c {
        case Run(eff, stack, guard, n) =>
          acts, calls := [Running(eff, stack, guard)] + acts[1..], n;
        case Deliver(exit, stack, n) =>
          acts, calls := [Delivering(exit, stack)] + acts[1..], n;
        case Wait(register, stack, at) =>
          EnterRegister(register, stack, at);
        case Finished(outcome, n) =>
          acts, calls := acts[1..], n;
          if outcome.Raised? {
            raised := Some(outcome.error);
          }
      }
    }

    /** The call on top of the stack takes one step. */
    method Advance()
      requires acts != []
      modifies this
      ensures Model() == Advanced(world, Http, old(Model()))
    {
      match acts[0] {
        case Running(eff, stack, guard) =>
          if done { acts := acts[1..]; return; }
          GoOn(Visit(world, eff, stack, guard, calls));
        case Delivering(exit, stack) =>
          if stack.Bottom? {
            acts := acts[1..];
            Finish(exit);
          } else if done {
            acts := acts[1..];
          } else {
            GoOn(Pop(world, exit, stack, calls));
          }
        case Registering(id) =>
          acts := acts[1..];
          currentCancel := if id < |regs| && regs[id].cancellable then Some(id) else None;
        case Cancelling =>
          acts := acts[1..];
          delivered := delivered + [Failure(Interrupt)];
      }
    }

    /** The callback given to register. */
    method OnAnswer(id: nat, exit: Exit<V>)
      requires id < |regs|
      modifies this`currentCancel, this`regs, this`acts
      ensures Model() == Answered(Http, old(Model()), id, exit)
    {
      currentCancel := None;
      regs := regs[id := regs[id].(answers := regs[id].answers + 1)];
      if done { return; }
      acts := [Delivering(exit, regs[id].stack)] + acts;
    }

    /** The returned canceller, up to its call of the stored one; the interrupt is delivered once that returns or throws. */
    method Cancel()
      modifies this`done, this`currentCancel, this`invoked, this`acts
      ensures Model() == Cancelled(Http, old(Model()))
    {
      if done { return; }
      var cancel := currentCancel;
      currentCancel := None;
      done := true;
      if cancel.Some? {
        invoked := invoked + [cancel.value];
      }
      acts := [Cancelling] + acts;
    }

    /** Any event, as the steps above. */
    method OnEvent(e: Event<V>)
      modifies this
      ensures Model() == Handle(world, Http, old(Model()), e)
    {
      match e {
        case Advance => if acts != [] { Advance(); }
        case Answer(id, exit) => if id < |regs| { OnAnswer(id, exit); }
        case Cancel => Cancel();
      }
    }
  }
}
