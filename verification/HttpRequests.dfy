/** The life of one request of src/http/client.ts over the pool (PoolRequestState and runPoolTransport; without a key it is
    a request that bypasses the pool, as runDirectTransport runs it). Each step is one synchronous run of the host. */
module HttpRequests {
  import opened Prelude
  import opened HttpStatistics
  import opened HttpPoolOwnership
  import Pool = HttpPoolSpec

  /** What the request waits for: nothing, its waiter in the pool, a granted or a refused promise not yet delivered. */
  datatype Wait = NoWait | OnWaiter(waiter: nat) | Posted(lease: nat) | Refused(tag: Tag)

  datatype Transport = Idle | Pending | Answered

  /** A transport either answers while it is started or suspends, with or without a canceller. */
  datatype Reply = Answers(outcome: Outcome) | Suspends(canceller: bool)

  /** The microtask queued by an external abort: its error and whether it holds the transport's canceller. */
  datatype AbortTask = AbortTask(tag: Tag, cancels: bool)

  /** done, lease, cancelInner, timer and listening mirror the fields of the state object; aborted is the request's own
      controller. callbacks holds what the final callback was called with; cancels counts calls of the canceller. late marks a
      transport that was started after the controller aborted and suspended; stranded marks a request whose abort
      microtask ran while such a transport had not answered; given says that the transport suspended with a canceller. */
  datatype Request = Request(
    key: Option<string>, done: bool, lease: Option<nat>, wait: Wait, aborted: bool, listening: bool, timer: bool,
    transport: Transport, cancelInner: bool, abortTask: Option<AbortTask>, cancellable: bool,
    callbacks: seq<Outcome>, cancels: nat, late: bool, stranded: bool, given: bool)

  /** A request together with the pool state of its key and the counters: all that one step can change. */
  datatype View = View(pool: Pool.KeyState, req: Request, stats: Stats)

  // ----- the pieces of a step -----

  /** The positions the request holds exist in the pool. */
  ghost predicate InRange(v: View) {
    && Pool.InRange(v.pool)
    && (v.req.lease.Some? ==> v.req.lease.value < |v.pool.leases|)
    && (v.req.wait.OnWaiter? ==> v.req.wait.waiter < |v.pool.waiters|)
    && (v.req.wait.Posted? ==> v.req.wait.lease < |v.pool.leases|)
  }

  function Finish(v: View, outcome: Outcome): View {
    if v.req.done then v
    else v.(req := v.req.(done := true, timer := false, listening := false, cancelInner := false, callbacks := v.req.callbacks + [outcome]),
            stats := Finished(v.stats, outcome))
  }

  /** The pool after `if (lease) release(lease)`; the field itself stays. */
  function Freed(c: Pool.Config, v: View): (p: Pool.KeyState)
    requires InRange(v)
    ensures InRange(v.(pool := p))
  {
    if v.req.lease.Some? then Pool.Release(c, v.pool, v.req.lease.value) else v.pool
  }

  /** The completion callback of the transport; freed is the pool once the lease is given back. */
  function AnswerWith(v: View, freed: Pool.KeyState, outcome: Outcome): View {
    if v.req.done then v.(req := v.req.(transport := Answered))
    else Finish(v.(pool := freed, req := v.req.(transport := Answered, cancelInner := false)), outcome)
  }

  function Answer(c: Pool.Config, v: View, outcome: Outcome): (r: View)
    requires InRange(v)
    ensures InRange(r)
  {
    AnswerWith(v, Freed(c, v), outcome)
  }

  /** runTransportInner. */
  function RunWith(v: View, freed: Pool.KeyState, reply: Reply): View {
    match reply
    case Answers(outcome) => Finish(v.(pool := freed, req := v.req.(transport := Answered)), outcome)
    case Suspends(canceller) =>
      var given := !v.req.done && canceller;
      v.(req := v.req.(transport := Pending, cancelInner := given, given := given))
  }

  function RunTransport(c: Pool.Config, v: View, reply: Reply): (r: View)
    requires InRange(v)
    ensures InRange(r)
  {
    RunWith(v, Freed(c, v), reply)
  }

  function AbortWaiter(p: Pool.KeyState, w: nat): (r: Pool.KeyState)
    requires Pool.InRange(p) && w < |p.waiters|
    ensures Pool.InRange(r) && |r.waiters| == |p.waiters| && r.leases == p.leases
  {
    var q := Pool.SignalAborts(p, w);
    LeaveInRange(q.queue, w);
    if q.waiters[w].listening then Pool.AbortListener(q, w) else q
  }

  lemma {:induction false} LeaveInRange(queue: seq<nat>, w: nat)
    ensures forall v :: v in Without(queue, w) ==> v in queue
  {
    if queue != [] {
      assert forall v :: v in queue[1..] ==> v in queue;
      if queue[0] != w {
        LeaveInRange(queue[1..], w);
      }
    }
  }

  /** controller.abort(): the listener of a queued waiter runs at once; a pending transport may answer at once. */
  function AbortOwn(c: Pool.Config, v: View, answer: Option<Outcome>): (r: View)
    requires InRange(v)
    ensures InRange(r)
  {
    if v.req.aborted then v
    else
      var t := v.(req := v.req.(aborted := true));
      if t.req.wait.OnWaiter? then t.(pool := AbortWaiter(t.pool, t.req.wait.waiter))
      else if t.req.transport.Pending? && answer.Some? then Answer(c, t, answer.value)
      else t
  }

  function UseCanceller(v: View, captured: bool): View {
    if captured then v.(req := v.req.(cancels := v.req.cancels + 1)) else v
  }

  // ----- the steps -----

  /** The promise of the pool has been granted and its continuation has not run. */
  predicate GrantReady(v: View) {
    || v.req.wait.Posted?
    || (v.req.wait.OnWaiter? && v.req.wait.waiter < |v.pool.waiters| && v.pool.waiters[v.req.wait.waiter].outcome.Granted?)
  }

  function GrantedLease(v: View): nat
    requires GrantReady(v)
  {
    if v.req.wait.Posted? then v.req.wait.lease else v.pool.waiters[v.req.wait.waiter].outcome.lease
  }

  function Grant(c: Pool.Config, v: View, reply: Reply): View
    requires InRange(v) && GrantReady(v)
  {
    var lease := GrantedLease(v);
    var t := v.(req := v.req.(wait := NoWait));
    if t.req.done then t.(pool := Pool.Release(c, t.pool, lease))
    else RunTransport(c, t.(req := t.req.(lease := Some(lease), late := t.req.aborted && reply.Suspends?)), reply)
  }

  predicate RejectReady(v: View) {
    || v.req.wait.Refused?
    || (v.req.wait.OnWaiter? && v.req.wait.waiter < |v.pool.waiters|
        && (v.pool.waiters[v.req.wait.waiter].outcome.Aborted? || v.pool.waiters[v.req.wait.waiter].outcome.TimedOut?))
  }

  function Reject(v: View): View
    requires RejectReady(v)
  {
    var tag := if v.req.wait.Refused? then v.req.wait.tag
               else if v.pool.waiters[v.req.wait.waiter].outcome.Aborted? then AbortTag else PoolTimeoutTag;
    Finish(v.(req := v.req.(wait := NoWait)), Failure(tag))
  }

  function TimeoutWith(v: View, freed: Pool.KeyState): View {
    Finish(v.(pool := freed, req := v.req.(lease := None, cancelInner := false)), TimedOut)
  }

  function Timeout(c: Pool.Config, v: View, answer: Option<Outcome>): View
    requires InRange(v)
  {
    UseCanceller(AbortOwn(c, TimeoutWith(v, Freed(c, v)), answer), v.req.cancelInner)
  }

  /** The canceller handed to the caller. */
  function Cancel(c: Pool.Config, v: View, answer: Option<Outcome>): View
    requires InRange(v)
  {
    if v.req.done then v
    else
      var t := AbortOwn(c, v.(req := v.req.(cancelInner := false)), answer);
      UseCanceller(Finish(t.(pool := Freed(c, t)), Interrupt), v.req.cancelInner)
  }

  /** The lease is given back at once, the rest waits for a microtask. */
  function AbortLater(c: Pool.Config, t: View, tag: Tag): View
    requires InRange(t)
  {
    t.(pool := Freed(c, t),
       req := t.req.(cancelInner := false, lease := None, abortTask := Some(AbortTask(tag, t.req.cancelInner))))
  }

  /** abortFromPrevious. */
  function ExternalAbort(c: Pool.Config, v: View, tag: Tag, answer: Option<Outcome>): View
    requires InRange(v)
  {
    AbortLater(c, AbortOwn(c, v.(req := v.req.(listening := false)), answer), tag)
  }

  ghost predicate HoldsOpen(v: View) {
    v.req.lease.Some? && v.req.lease.value < |v.pool.leases| && !v.pool.leases[v.req.lease.value]
  }

  function RunAbortTask(v: View): View
    requires v.req.abortTask.Some?
  {
    var task := v.req.abortTask.value;
    var t := v.(req := v.req.(abortTask := None, stranded := v.req.stranded || (!v.req.done && v.req.late)));
    UseCanceller(Finish(t, Failure(task.tag)), task.cancels)
  }

  function QueueTimeout(v: View): View
    requires v.req.wait.OnWaiter? && v.req.wait.waiter < |v.pool.waiters|
  {
    v.(pool := Pool.QueueTimeout(v.pool, v.req.wait.waiter))
  }

  datatype Step =
    | GrantTask(reply: Reply)
    | RejectTask
    | Complete(outcome: Outcome)
    | TimeoutFires(answer: Option<Outcome>)
    | CancelCalled(answer: Option<Outcome>)
    | SignalAborts(tag: Tag, answer: Option<Outcome>)
    | AbortMicrotask
    | QueueTimeoutFires

  predicate Enabled(v: View, e: Step) {
    match e
    case GrantTask(_) => GrantReady(v)
    case RejectTask => RejectReady(v)
    case Complete(_) => v.req.transport.Pending?
    case TimeoutFires(_) => v.req.timer
    case CancelCalled(_) => v.req.cancellable
    case SignalAborts(_, _) => v.req.listening
    case AbortMicrotask => v.req.abortTask.Some?
    case QueueTimeoutFires =>
      v.req.wait.OnWaiter? && v.req.wait.waiter < |v.pool.waiters| && v.pool.waiters[v.req.wait.waiter].timer
  }

  function Next(c: Pool.Config, v: View, e: Step): View
    requires InRange(v) && Enabled(v, e)
  {
    match e
    case GrantTask(reply) => Grant(c, v, reply)
    case RejectTask => Reject(v)
    case Complete(outcome) => Answer(c, v, outcome)
    case TimeoutFires(answer) => Timeout(c, v, answer)
    case CancelCalled(answer) => Cancel(c, v, answer)
    case SignalAborts(tag, answer) => ExternalAbort(c, v, tag, answer)
    case AbortMicrotask => RunAbortTask(v)
    case QueueTimeoutFires => QueueTimeout(v)
  }

  // ----- what holds of a request between steps -----

  /** The lease a request answers for: the one in its field or the one its pool promise was granted. */
  function Owned(v: View): Option<nat> {
    if v.req.lease.Some? then v.req.lease
    else match v.req.wait
      case Posted(lease) => Some(lease)
      case OnWaiter(w) =>
        if w < |v.pool.waiters| && v.pool.waiters[w].outcome.Granted? then Some(v.pool.waiters[w].outcome.lease) else None
      case _ => None
  }

  /** How often the transport's canceller was called or still is to be, stored or captured by the microtask. */
  function Cancellations(q: Request): nat {
    q.cancels + (if q.cancelInner then 1 else 0) + (if q.abortTask.Some? && q.abortTask.value.cancels then 1 else 0)
  }

  /** Its final callback has run exactly once if the request is done and not at all before; a done request has nothing
      armed; the canceller of a transport is used at most once, exactly once if the transport gives one and never answers,
      and never if the request is stranded. */
  ghost predicate Settled(q: Request) {
    && |q.callbacks| == (if q.done then 1 else 0)
    && (q.done ==> !q.timer && !q.listening && !q.cancelInner)
    && Cancellations(q) <= (if q.given && !q.stranded then 1 else 0)
    && (q.given && q.transport.Pending? && !q.stranded ==> Cancellations(q) == 1)
    && (q.transport.Idle? ==> !q.given)
    && (!q.done && q.late ==> q.cancels == 0 && (q.abortTask.Some? ==> !q.abortTask.value.cancels))
    && (!q.done && !q.late && q.abortTask.Some? ==> !q.cancelInner)
  }

  /** A waiting request has not started its transport and holds nothing; an unfinished one always has something to wait for. */
  ghost predicate Waiting(q: Request) {
    && (!q.wait.NoWait? ==> q.transport.Idle? && q.lease.None? && q.key.Some?)
    && (q.lease.Some? ==> q.key.Some?)
    && (!q.done ==> !q.wait.NoWait? || q.transport.Pending? || q.abortTask.Some?)
    && (q.aborted && !q.done ==> q.abortTask.Some?)
    && (q.abortTask.Some? ==> q.aborted)
  }

  /** A finished request holds no open lease unless it is stranded, and a stranded one does: only a transport started late
      can strand a lease, and one that has not answered holds it. A grant not yet delivered is an open lease. */
  ghost predicate GivesBack(v: View) {
    && (v.req.done && HoldsOpen(v) <==> v.req.stranded)
    && (v.req.stranded ==> v.req.late)
    && (!v.req.done && v.req.aborted && HoldsOpen(v) ==> v.req.late)
    && (v.req.wait.OnWaiter? && v.req.wait.waiter < |v.pool.waiters| && v.pool.waiters[v.req.wait.waiter].outcome.Queued? ==>
          !v.req.done && !v.req.aborted)
    && (v.req.late && !v.req.done ==> HoldsOpen(v) && v.req.aborted && v.req.transport.Pending?)
    && (v.req.lease.None? && Owned(v).Some? && Owned(v).value < |v.pool.leases| ==> !v.pool.leases[Owned(v).value])
    && (v.req.listening ==> !v.req.aborted)
  }

  /** The request's own part of soundness. */
  ghost predicate Proper(v: View) {
    Settled(v.req) && Waiting(v.req) && GivesBack(v)
  }

  ghost predicate Sound(c: Pool.Config, v: View) {
    Pool.Inv(c, v.pool) && InRange(v) && Proper(v)
  }

  /** What a step of a request may do to what it owns and to the counters. */
  ghost predicate Moves(v: View, v': View) {
    && v'.req.key == v.req.key
    && (Owned(v') == Owned(v) || Owned(v').None?)
    && (Owned(v').None? && Owned(v).Some? ==> Owned(v).value < |v'.pool.leases| && v'.pool.leases[Owned(v).value])
    && (v'.req.wait == v.req.wait
        || (v'.req.wait.NoWait? && (v.req.wait.OnWaiter? && v.req.wait.waiter < |v.pool.waiters| ==>
              !v.pool.waiters[v.req.wait.waiter].outcome.Queued?)))
    && (v.req.stranded ==> v'.req.stranded)
    && (if v'.req.done == v.req.done then v'.stats == v.stats && v'.req.callbacks == v.req.callbacks
        else v'.req.done && |v'.req.callbacks| == |v.req.callbacks| + 1 && v.req.callbacks <= v'.req.callbacks
             && v'.stats == Finished(v.stats, v'.req.callbacks[|v.req.callbacks|]))
  }

  /** What a step of a request may do to the pool. */
  ghost predicate PoolMoves(c: Pool.Config, v: View, v': View) {
    Pool.Inv(c, v'.pool) && Evolves(v.pool, v'.pool, Owned(v)) && (v.req.key.None? ==> v'.pool == v.pool)
  }

  // ----- every step is sound -----

  /** q is the pool of v, except that whatever lease the request had in its field is released. */
  ghost predicate GaveBack(v: View, q: Pool.KeyState) {
    && |q.waiters| == |v.pool.waiters| && |q.leases| >= |v.pool.leases|
    && (v.req.lease.Some? ==> v.req.lease.value < |q.leases| && q.leases[v.req.lease.value])
    && (v.req.lease.None? ==> q == v.pool)
  }

  lemma FreedFacts(c: Pool.Config, v: View)
    requires Pool.Inv(c, v.pool) && InRange(v)
    ensures GaveBack(v, Freed(c, v)) && Pool.Inv(c, Freed(c, v)) && Evolves(v.pool, Freed(c, v), v.req.lease)
  {
    if v.req.lease.Some? {
      ReleaseEvolves(c, v.pool, v.req.lease.value);
    } else {
      EvolvesSame(v.pool, v.req.lease);
    }
  }

  lemma AnswerProper(v: View, freed: Pool.KeyState, outcome: Outcome)
    requires Proper(v) && v.req.transport.Pending? && GaveBack(v, freed)
    ensures Proper(AnswerWith(v, freed, outcome)) && Moves(v, AnswerWith(v, freed, outcome))
  {
    var r := AnswerWith(v, freed, outcome);
    assert !v.req.done ==> r.stats == Finished(v.stats, outcome) && !HoldsOpen(r);
  }

  lemma AnswerSound(c: Pool.Config, v: View, outcome: Outcome)
    requires Sound(c, v) && v.req.transport.Pending?
    ensures Sound(c, Answer(c, v, outcome)) && Moves(v, Answer(c, v, outcome)) && PoolMoves(c, v, Answer(c, v, outcome))
  {
    hide Pool.Inv, Pool.Release, Finished;
    FreedFacts(c, v);
    AnswerProper(v, Freed(c, v), outcome);
    EvolvesSame(v.pool, Owned(v));
    EvolvesForMore(v.pool, Freed(c, v), v.req.lease, Owned(v));
  }

  lemma GrantProper(v: View, freed: Pool.KeyState, reply: Reply)
    requires Proper(v) && GrantReady(v) && GrantedLease(v) < |v.pool.leases|
    requires GaveBack(v.(req := v.req.(lease := Some(GrantedLease(v)))), freed) && Pool.Extends(v.pool, freed)
    ensures
      var t := v.(req := v.req.(wait := NoWait));
      var r := if v.req.done then t.(pool := freed)
               else RunWith(t.(req := t.req.(lease := Some(GrantedLease(v)), late := t.req.aborted && reply.Suspends?)), freed, reply);
      Proper(r) && Moves(v, r)
  {
    var t := v.(req := v.req.(wait := NoWait, lease := Some(GrantedLease(v)), late := v.req.aborted && reply.Suspends?));
    assert reply.Answers? && !v.req.done ==> RunWith(t, freed, reply).stats == Finished(v.stats, reply.outcome);
  }

  lemma GrantSound(c: Pool.Config, v: View, reply: Reply)
    requires Sound(c, v) && GrantReady(v)
    ensures Sound(c, Grant(c, v, reply)) && Moves(v, Grant(c, v, reply)) && PoolMoves(c, v, Grant(c, v, reply))
  {
    hide Pool.Release, Moves, Finished;
    var lease := GrantedLease(v);
    var t := v.(req := v.req.(wait := NoWait, lease := Some(lease)));
    FreedFacts(c, t);
    GrantProper(v, Freed(c, t), reply);
    EvolvesSame(v.pool, Owned(v));
  }

  lemma RejectSound(c: Pool.Config, v: View)
    requires Sound(c, v) && RejectReady(v)
    ensures Sound(c, Reject(v)) && Moves(v, Reject(v)) && PoolMoves(c, v, Reject(v))
  {
    EvolvesSame(v.pool, Owned(v));
    RejectProper(v);
  }

  lemma RejectProper(v: View)
    requires Proper(v) && RejectReady(v)
    ensures Proper(Reject(v)) && Moves(v, Reject(v))
  {
    var tag := if v.req.wait.Refused? then v.req.wait.tag
               else if v.pool.waiters[v.req.wait.waiter].outcome.Aborted? then AbortTag else PoolTimeoutTag;
    assert !v.req.done ==> Reject(v).stats == Finished(v.stats, Failure(tag));
  }

  /** What aborting the request's own controller does, by what the request is doing. */
  ghost predicate Aborts(c: Pool.Config, v: View, answer: Option<Outcome>, t: View) {
    var u := v.(req := v.req.(aborted := true));
    if v.req.aborted then t == v
    else if v.req.wait.OnWaiter? then
      var w := v.req.wait.waiter;
      && t == u.(pool := t.pool) && t.pool.leases == v.pool.leases
      && w < |t.pool.waiters| == |v.pool.waiters|
      && t.pool.waiters[w].outcome == (if v.pool.waiters[w].outcome.Queued? then Pool.Aborted else v.pool.waiters[w].outcome)
    else if v.req.transport.Pending? && answer.Some? then
      if v.req.done then t == AnswerWith(u, v.pool, answer.value)
      else t == AnswerWith(u, t.pool, answer.value) && GaveBack(v, t.pool)
    else t == u
  }

  lemma AbortOwnFacts(c: Pool.Config, v: View, answer: Option<Outcome>)
    requires Pool.Inv(c, v.pool) && InRange(v) && (v.req.lease.Some? ==> v.req.wait.NoWait?)
    ensures Aborts(c, v, answer, AbortOwn(c, v, answer))
    ensures Pool.Inv(c, AbortOwn(c, v, answer).pool) && Evolves(v.pool, AbortOwn(c, v, answer).pool, v.req.lease)
  {
    if v.req.aborted {
      EvolvesSame(v.pool, v.req.lease);
    } else if v.req.wait.OnWaiter? {
      AbortWaiterFacts(c, v.pool, v.req.wait.waiter);
    } else {
      AbortTransportFacts(c, v, answer);
    }
  }

  lemma AbortTransportFacts(c: Pool.Config, v: View, answer: Option<Outcome>)
    requires Pool.Inv(c, v.pool) && InRange(v) && !v.req.aborted && !v.req.wait.OnWaiter?
    ensures Aborts(c, v, answer, AbortOwn(c, v, answer))
    ensures Pool.Inv(c, AbortOwn(c, v, answer).pool) && Evolves(v.pool, AbortOwn(c, v, answer).pool, v.req.lease)
  {
    hide Pool.Inv, Pool.Release, Evolves;
    EvolvesSame(v.pool, v.req.lease);
    FreedFacts(c, v);
    assert Freed(c, v.(req := v.req.(aborted := true))) == Freed(c, v);
  }

  lemma AbortWaiterFacts(c: Pool.Config, p: Pool.KeyState, w: nat)
    requires Pool.Inv(c, p) && Pool.InRange(p) && w < |p.waiters|
    ensures
      var q := AbortWaiter(p, w);
      && Pool.Inv(c, q) && Evolves(p, q, None)
      && q.waiters[w].outcome == (if p.waiters[w].outcome.Queued? then Pool.Aborted else p.waiters[w].outcome)
  {
    var q := Pool.SignalAborts(p, w);
    SignalEvolves(c, p, w, None);
    assert q.waiters[w].listening == q.waiters[w].outcome.Queued?;
    if q.waiters[w].listening {
      LeavingEvolves(c, q, w, None);
      EvolvesThen(p, q, Pool.AbortListener(q, w), None);
    }
  }

  // ----- timeout, cancel and abort -----

  lemma TimeoutSound(c: Pool.Config, v: View, answer: Option<Outcome>)
    requires Sound(c, v) && v.req.timer
    ensures Sound(c, Timeout(c, v, answer)) && Moves(v, Timeout(c, v, answer)) && PoolMoves(c, v, Timeout(c, v, answer))
  {
    FreedFacts(c, v);
    var t := TimeoutWith(v, Freed(c, v));
    AbortOwnFacts(c, t, answer);
    var u := AbortOwn(c, t, answer);
    EvolvesForMore(v.pool, t.pool, v.req.lease, Owned(v));
    EvolvesForMore(t.pool, u.pool, None, Owned(v));
    OwnedInRange(v);
    EvolvesThen(v.pool, t.pool, u.pool, Owned(v));
    TimeoutProper(c, v, t, answer, u);
  }

  lemma OwnedInRange(v: View)
    requires InRange(v)
    ensures Owned(v).Some? ==> Owned(v).value < |v.pool.leases|
  {
  }

  lemma TimeoutProper(c: Pool.Config, v: View, t: View, answer: Option<Outcome>, u: View)
    requires Proper(v) && v.req.timer && GaveBack(v, t.pool) && t == TimeoutWith(v, t.pool) && InRange(v)
    requires Aborts(c, t, answer, u) && Pool.Extends(t.pool, u.pool)
    ensures Proper(UseCanceller(u, v.req.cancelInner)) && Moves(v, UseCanceller(u, v.req.cancelInner))
  {
    assert t.stats == Finished(v.stats, TimedOut);
    assert UseCanceller(u, v.req.cancelInner).stats == t.stats;
  }

  lemma CancelSound(c: Pool.Config, v: View, answer: Option<Outcome>)
    requires Sound(c, v)
    ensures Sound(c, Cancel(c, v, answer)) && Moves(v, Cancel(c, v, answer)) && PoolMoves(c, v, Cancel(c, v, answer))
  {
    hide Pool.Inv, Evolves, Finished, Pool.Release, Aborts, GaveBack;
    if v.req.done {
      EvolvesSame(v.pool, Owned(v));
    } else {
      var t := AbortOwn(c, v.(req := v.req.(cancelInner := false)), answer);
      AbortThenFree(c, v, v.(req := v.req.(cancelInner := false)), answer);
      CancelProper(c, v, answer, t, Freed(c, t));
    }
  }

  lemma AbortKeepsLease(c: Pool.Config, v: View, answer: Option<Outcome>)
    requires InRange(v)
    ensures AbortOwn(c, v, answer).req.lease == v.req.lease
  {
    hide Freed, AbortWaiter, Finished, Pool.InRange;
  }

  /** Aborting the own controller and then giving back the lease, seen from the pool. */
  lemma AbortThenFree(c: Pool.Config, v: View, s: View, answer: Option<Outcome>)
    requires Sound(c, v) && s.pool == v.pool && s.req.lease == v.req.lease && s.req.wait == v.req.wait
    ensures
      InRange(s) && var t := AbortOwn(c, s, answer);
      && Aborts(c, s, answer, t) && GaveBack(t, Freed(c, t))
      && Pool.Extends(v.pool, t.pool) && Pool.Extends(t.pool, Freed(c, t))
      && Pool.Inv(c, Freed(c, t)) && Evolves(v.pool, Freed(c, t), Owned(v))
  {
    hide AbortOwn, Freed, Aborts, GaveBack, Pool.Inv;
    AbortOwnFacts(c, s, answer);
    AbortKeepsLease(c, s, answer);
    var t := AbortOwn(c, s, answer);
    FreedFacts(c, t);
    OwnedInRange(v);
    EvolvesForMore(v.pool, t.pool, v.req.lease, Owned(v));
    EvolvesForMore(t.pool, Freed(c, t), v.req.lease, Owned(v));
    EvolvesThen(v.pool, t.pool, Freed(c, t), Owned(v));
  }

  lemma CancelProper(c: Pool.Config, v: View, answer: Option<Outcome>, t: View, freed: Pool.KeyState)
    requires Proper(v) && !v.req.done && InRange(v)
    requires Aborts(c, v.(req := v.req.(cancelInner := false)), answer, t) && GaveBack(t, freed)
    requires Pool.Extends(v.pool, t.pool) && Pool.Extends(t.pool, freed)
    ensures
      var r := UseCanceller(Finish(t.(pool := freed), Interrupt), v.req.cancelInner);
      Proper(r) && Moves(v, r)
  {
    hide Proper, Moves, Aborts, GaveBack;
    if t.req.done {
      CancelAnswered(c, v, answer, t, freed);
    } else {
      CancelUnanswered(c, v, answer, t, freed);
    }
  }

  lemma CancelAnswered(c: Pool.Config, v: View, answer: Option<Outcome>, t: View, freed: Pool.KeyState)
    requires Proper(v) && !v.req.done && InRange(v) && t.req.done
    requires Aborts(c, v.(req := v.req.(cancelInner := false)), answer, t) && GaveBack(t, freed)
    requires Pool.Extends(v.pool, t.pool) && Pool.Extends(t.pool, freed)
    ensures
      var r := UseCanceller(Finish(t.(pool := freed), Interrupt), v.req.cancelInner);
      Proper(r) && Moves(v, r)
  {
    hide InRange;
    var r := UseCanceller(Finish(t.(pool := freed), Interrupt), v.req.cancelInner);
    assert r.stats == Finished(v.stats, answer.value);
  }

  lemma CancelUnanswered(c: Pool.Config, v: View, answer: Option<Outcome>, t: View, freed: Pool.KeyState)
    requires Proper(v) && !v.req.done && InRange(v) && !t.req.done
    requires Aborts(c, v.(req := v.req.(cancelInner := false)), answer, t) && GaveBack(t, freed)
    requires Pool.Extends(v.pool, t.pool) && Pool.Extends(t.pool, freed)
    ensures
      var r := UseCanceller(Finish(t.(pool := freed), Interrupt), v.req.cancelInner);
      Proper(r) && Moves(v, r)
  {
    hide InRange, Finished;
    var r := UseCanceller(Finish(t.(pool := freed), Interrupt), v.req.cancelInner);
    assert r.stats == Finished(v.stats, Interrupt);
  }

  lemma ExternalAbortSound(c: Pool.Config, v: View, tag: Tag, answer: Option<Outcome>)
    requires Sound(c, v) && v.req.listening
    ensures Sound(c, ExternalAbort(c, v, tag, answer)) && Moves(v, ExternalAbort(c, v, tag, answer))
    ensures PoolMoves(c, v, ExternalAbort(c, v, tag, answer))
  {
    var s := v.(req := v.req.(listening := false));
    AbortThenFree(c, v, s, answer);
    var t := AbortOwn(c, s, answer);
    ExternalAbortProper(c, v, tag, answer, t, Freed(c, t));
  }

  lemma ExternalAbortProper(c: Pool.Config, v: View, tag: Tag, answer: Option<Outcome>, t: View, freed: Pool.KeyState)
    requires Proper(v) && v.req.listening && InRange(v)
    requires Aborts(c, v.(req := v.req.(listening := false)), answer, t) && GaveBack(t, freed)
    requires Pool.Extends(v.pool, t.pool) && Pool.Extends(t.pool, freed)
    ensures
      var r := t.(pool := freed,
                  req := t.req.(cancelInner := false, lease := None, abortTask := Some(AbortTask(tag, t.req.cancelInner))));
      Proper(r) && Moves(v, r)
  {
    if t.req.done {
      assert t.stats == Finished(v.stats, answer.value);
    }
  }

  lemma AbortTaskSound(c: Pool.Config, v: View)
    requires Sound(c, v) && v.req.abortTask.Some?
    ensures Sound(c, RunAbortTask(v)) && Moves(v, RunAbortTask(v)) && PoolMoves(c, v, RunAbortTask(v))
  {
    EvolvesSame(v.pool, Owned(v));
    AbortTaskProper(v);
  }

  lemma AbortTaskProper(v: View)
    requires Proper(v) && v.req.abortTask.Some?
    ensures Proper(RunAbortTask(v)) && Moves(v, RunAbortTask(v))
  {
    assert !v.req.done ==> RunAbortTask(v).stats == Finished(v.stats, Failure(v.req.abortTask.value.tag));
  }

  lemma QueueTimeoutSound(c: Pool.Config, v: View)
    requires Sound(c, v) && Enabled(v, QueueTimeoutFires)
    ensures Sound(c, QueueTimeout(v)) && Moves(v, QueueTimeout(v)) && PoolMoves(c, v, QueueTimeout(v))
  {
    LeavingEvolves(c, v.pool, v.req.wait.waiter, Owned(v));
    LeaveInRange(v.pool.queue, v.req.wait.waiter);
  }

  /** Every step of a request keeps it sound and treats the pool as Evolves allows. */
  lemma StepSound(c: Pool.Config, v: View, e: Step)
    requires Sound(c, v) && Enabled(v, e)
    ensures Sound(c, Next(c, v, e)) && Moves(v, Next(c, v, e)) && PoolMoves(c, v, Next(c, v, e))
  {
    match e
    case GrantTask(reply) => GrantSound(c, v, reply);
    case RejectTask => RejectSound(c, v);
    case Complete(outcome) => AnswerSound(c, v, outcome);
    case TimeoutFires(answer) => TimeoutSound(c, v, answer);
    case CancelCalled(answer) => CancelSound(c, v, answer);
    case SignalAborts(tag, answer) => ExternalAbortSound(c, v, tag, answer);
    case AbortMicrotask => AbortTaskSound(c, v);
    case QueueTimeoutFires => QueueTimeoutSound(c, v);
  }

  /** A transport started on an already aborted signal that suspends instead of answering. */
  predicate LateStart(v: View, e: Step) {
    e.GrantTask? && e.reply.Suspends? && !v.req.done && v.req.aborted
  }

  ghost predicate SameMarks(v: View, r: View) { r.req.late == v.req.late && r.req.stranded == v.req.stranded }

  lemma AnswerWithKeepsMarks(v: View, freed: Pool.KeyState, outcome: Outcome)
    ensures SameMarks(v, AnswerWith(v, freed, outcome))
  {
    hide Finished;
  }

  lemma AnswerKeepsMarks(c: Pool.Config, v: View, outcome: Outcome)
    requires InRange(v)
    ensures SameMarks(v, Answer(c, v, outcome))
  {
    hide Freed, AnswerWith;
    AnswerWithKeepsMarks(v, Freed(c, v), outcome);
  }

  lemma AbortKeepsMarks(c: Pool.Config, v: View, answer: Option<Outcome>)
    requires InRange(v)
    ensures SameMarks(v, AbortOwn(c, v, answer))
  {
    hide Answer, AbortWaiter, Pool.InRange;
    if answer.Some? {
      AnswerKeepsMarks(c, v.(req := v.req.(aborted := true)), answer.value);
    }
  }

  lemma TimeoutKeepsMarks(c: Pool.Config, v: View, answer: Option<Outcome>)
    requires InRange(v)
    ensures SameMarks(v, Timeout(c, v, answer))
  {
    hide AbortOwn, Freed, Finished;
    AbortKeepsMarks(c, TimeoutWith(v, Freed(c, v)), answer);
  }

  lemma CancelKeepsMarks(c: Pool.Config, v: View, answer: Option<Outcome>)
    requires InRange(v)
    ensures SameMarks(v, Cancel(c, v, answer))
  {
    hide AbortOwn, Freed, Finished;
    AbortKeepsMarks(c, v.(req := v.req.(cancelInner := false)), answer);
  }

  lemma ExternalAbortKeepsMarks(c: Pool.Config, v: View, tag: Tag, answer: Option<Outcome>)
    requires InRange(v)
    ensures SameMarks(v, ExternalAbort(c, v, tag, answer))
  {
    hide AbortOwn, Freed;
    AbortKeepsMarks(c, v.(req := v.req.(listening := false)), answer);
  }

  /** Only a grant sets late, and only the abort microtask sets stranded. */
  lemma MarksStay(c: Pool.Config, v: View, e: Step)
    requires InRange(v) && Enabled(v, e) && !e.GrantTask? && !e.AbortMicrotask?
    ensures SameMarks(v, Next(c, v, e))
  {
    hide AbortOwn, Freed, Finished;
    match e
    case TimeoutFires(answer) => TimeoutKeepsMarks(c, v, answer);
    case CancelCalled(answer) => CancelKeepsMarks(c, v, answer);
    case SignalAborts(tag, answer) => ExternalAbortKeepsMarks(c, v, tag, answer);
    case _ =>
  }

  lemma GrantMarks(c: Pool.Config, v: View, reply: Reply)
    requires InRange(v) && GrantReady(v)
    ensures Grant(c, v, reply).req.late == (if v.req.done then v.req.late else v.req.aborted && reply.Suspends?)
    ensures Grant(c, v, reply).req.stranded == v.req.stranded
  {
  }

  /** Only a late start makes a request late. */
  lemma LateOnlyByLateStart(c: Pool.Config, v: View, e: Step)
    requires InRange(v) && Enabled(v, e)
    ensures Next(c, v, e).req.late ==> v.req.late || LateStart(v, e)
  {
    if e.GrantTask? {
      GrantMarks(c, v, e.reply);
    } else if !e.AbortMicrotask? {
      MarksStay(c, v, e);
    }
  }

  /** The one step that strands a lease: the abort microtask of an unfinished request whose transport was started late, which
      then still has not answered and holds an open lease. */
  lemma StrandingStep(c: Pool.Config, v: View, e: Step)
    requires Sound(c, v) && Enabled(v, e) && !v.req.stranded
    ensures Next(c, v, e).req.stranded <==> e.AbortMicrotask? && !v.req.done && v.req.late
    ensures Next(c, v, e).req.stranded <==> e.AbortMicrotask? && !v.req.done && HoldsOpen(v)
    ensures Next(c, v, e).req.stranded ==> v.req.transport.Pending?
  {
    if e.GrantTask? {
      GrantMarks(c, v, e.reply);
    } else if !e.AbortMicrotask? {
      MarksStay(c, v, e);
    }
  }

  /** No second grant comes to a request whose transport was started late. */
  ghost predicate StartedOnce(v: View) { v.req.late && !v.req.done ==> !GrantReady(v) }

  lemma ProperStartsOnce(v: View)
    requires Proper(v)
    ensures StartedOnce(v)
  {
  }

  /** A request becomes late at a late start and nowhere else, and stays so. */
  lemma LateIffLateStart(c: Pool.Config, v: View, e: Step)
    requires InRange(v) && Enabled(v, e) && StartedOnce(v)
    ensures Next(c, v, e).req.late <==> v.req.late || LateStart(v, e)
    ensures Next(c, v, e).req.stranded <==> v.req.stranded || (e.AbortMicrotask? && !v.req.done && v.req.late)
  {
    hide Grant, Timeout, Cancel, ExternalAbort, Reject, Answer;
    if e.GrantTask? {
      GrantMarks(c, v, e.reply);
    } else if !e.AbortMicrotask? {
      MarksStay(c, v, e);
    }
  }
}
