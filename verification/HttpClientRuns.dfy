/** Any number of requests of src/http/client.ts sharing the pool, its keys and the counters, in every interleaving. */
module HttpClientRuns {
  import opened Prelude
  import opened HttpStatistics
  import opened HttpPoolOwnership
  import opened HttpRequests
  import Pool = HttpPoolSpec
  import opened HttpPools

  datatype Sys = Sys(keys: Keys, reqs: seq<Request>, stats: Stats)

  /** How a request is made: its key if it goes through the pool, whether it carries an external signal, already aborted
      or not, whether it has a timeout, and what its transport does when started at once. */
  datatype Setup = Setup(key: Option<string>, hasSignal: bool, preAborted: bool, tag: Tag, hasTimeout: bool, reply: Reply)

  datatype Event = Register(setup: Setup) | StepOf(request: nat, step: Step)

  function PoolOf(keys: Keys, key: Option<string>): Pool.KeyState {
    if key.Some? then At(keys, key.value) else Pool.EMPTY
  }

  function ViewOf(s: Sys, r: nat): View
    requires r < |s.reqs|
  {
    View(PoolOf(s.keys, s.reqs[r].key), s.reqs[r], s.stats)
  }

  function WithPool(keys: Keys, key: Option<string>, p: Pool.KeyState): Keys {
    if key.Some? then keys[key.value := p] else keys
  }

  function Put(s: Sys, r: nat, v: View): Sys
    requires r < |s.reqs|
  {
    Sys(WithPool(s.keys, s.reqs[r].key, v.pool), s.reqs[r := v.req], v.stats)
  }

  // ----- registering a request -----

  function NewRequest(setup: Setup): Request {
    Request(setup.key, false, None, NoWait, false, setup.hasSignal && !setup.preAborted, setup.hasTimeout && !setup.preAborted,
            Idle, false, None, !setup.preAborted, [], 0, false, false, false)
  }

  /** runPoolTransport up to the point where the transport is started, if it is; a pre-aborted signal only queues its
      microtask. The second component says whether the transport is to be started now. */
  function Arrive(c: Pool.Config, p: Pool.KeyState, stats: Stats, setup: Setup): (View, bool) {
    var q := NewRequest(setup);
    var stats' := Started(stats);
    if setup.preAborted then
      (View(p, q.(aborted := true, abortTask := Some(AbortTask(setup.tag, false))), stats'), false)
    else if setup.key.None? then (View(p, q, stats'), true)
    else
      match Pool.TryAcquireSync(c, p, false)
      case (p', Some(lease)) => (View(p', q.(lease := Some(lease)), stats'), true)
      case (_, None) =>
        match Pool.Acquire(c, p, false)
        case (p', Leased(lease)) => (View(p', q.(wait := Posted(lease)), stats'), false)
        case (p', Enqueued(w)) => (View(p', q.(wait := OnWaiter(w)), stats'), false)
        case (p', Rejected) => (View(p', q.(wait := Refused(PoolRejectedTag)), stats'), false)
        case (p', AbortedAtOnce) => (View(p', q.(wait := Refused(AbortTag)), stats'), false)
  }

  function Joined(c: Pool.Config, p: Pool.KeyState, stats: Stats, setup: Setup): View
    requires Pool.InRange(p)
  {
    var (v, start) := Arrive(c, p, stats, setup);
    ArriveInRange(c, p, stats, setup);
    if start then RunTransport(c, v, setup.reply) else v
  }

  lemma ArriveInRange(c: Pool.Config, p: Pool.KeyState, stats: Stats, setup: Setup)
    requires Pool.InRange(p)
    ensures InRange(Arrive(c, p, stats, setup).0)
  {
  }

  function Enrol(s: Sys, v: View): Sys {
    Sys(WithPool(s.keys, v.req.key, v.pool), s.reqs + [v.req], v.stats)
  }

  // ----- the invariant -----

  ghost predicate OwnsLease(s: Sys, r: nat, k: string, lease: nat) {
    r < |s.reqs| && s.reqs[r].key == Some(k) && Owned(ViewOf(s, r)) == Some(lease)
  }

  ghost predicate WaitsAs(s: Sys, r: nat, k: string, w: nat) {
    r < |s.reqs| && s.reqs[r].key == Some(k) && s.reqs[r].wait == OnWaiter(w)
  }

  ghost predicate AllProper(s: Sys) {
    forall r {:trigger ViewOf(s, r)} :: 0 <= r < |s.reqs| ==> InRange(ViewOf(s, r)) && Proper(ViewOf(s, r))
  }

  /** No two requests answer for the same lease or the same place in a queue. */
  ghost predicate Apart(s: Sys) {
    && (forall r, r', k, l {:trigger OwnsLease(s, r, k, l), OwnsLease(s, r', k, l)} ::
          OwnsLease(s, r, k, l) && OwnsLease(s, r', k, l) ==> r == r')
    && (forall r, r', k, w {:trigger WaitsAs(s, r, k, w), WaitsAs(s, r', k, w)} ::
          WaitsAs(s, r, k, w) && WaitsAs(s, r', k, w) ==> r == r')
  }

  ghost predicate OpenAt(s: Sys, k: string, l: nat) {
    k in s.keys && l < |s.keys[k].leases| && !s.keys[k].leases[l]
  }

  ghost predicate QueuedAt(s: Sys, k: string, w: nat) {
    k in s.keys && StillQueued(s.keys[k], w)
  }

  /** Every open lease and every queued waiter of the pool belongs to some request. */
  ghost predicate Covered(s: Sys) {
    && (forall k, l: nat {:trigger OpenAt(s, k, l)} :: OpenAt(s, k, l) ==> exists r: nat :: OwnsLease(s, r, k, l))
    && (forall k, w: nat {:trigger QueuedAt(s, k, w)} :: QueuedAt(s, k, w) ==> exists r: nat :: WaitsAs(s, r, k, w))
  }

  predicate Unfinished(q: Request) { !q.done }

  /** The requests whose callback was called with such an outcome. */
  function Ending(p: Outcome -> bool): Request -> bool {
    (q: Request) => q.callbacks != [] && p(q.callbacks[0])
  }

  ghost predicate Tallied(s: Sys) {
    && s.stats.succeeded == Count(s.reqs, Ending(IsSuccess)) && s.stats.aborted == Count(s.reqs, Ending(IsAbort))
    && s.stats.timedOut == Count(s.reqs, Ending(IsTimeout)) && s.stats.failed == Count(s.reqs, Ending(IsFailure))
    && s.stats.poolRejected == Count(s.reqs, Ending(IsPoolRejection))
    && s.stats.poolTimeouts == Count(s.reqs, Ending(IsPoolTimeout))
  }

  ghost predicate Accounted(s: Sys) {
    && Balanced(s.stats) && s.stats.started == |s.reqs| && s.stats.inFlight == Count(s.reqs, Unfinished)
    && Tallied(s)
  }

  ghost predicate SysInv(c: Pool.Config, s: Sys) {
    c.concurrency >= 1 && Lawful(c, s.keys) && AllProper(s) && Apart(s) && Covered(s) && Accounted(s)
  }

  // ----- what the other requests see of a step -----

  /** Another request on the same key stays proper; what it owns changes only when its queued waiter is granted a new lease. */
  lemma BystanderProper(p: Pool.KeyState, p': Pool.KeyState, q: Request, stats: Stats, stats': Stats, mine: Option<nat>)
    requires Pool.InRange(p') && Evolves(p, p', mine) && InRange(View(p, q, stats)) && Proper(View(p, q, stats))
    requires mine.Some? ==> Owned(View(p, q, stats)) != mine
    ensures InRange(View(p', q, stats')) && Proper(View(p', q, stats'))
    ensures
      var was, now := Owned(View(p, q, stats)), Owned(View(p', q, stats'));
      now == was || (was.None? && now.Some? && now.value >= |p.leases| && q.wait.OnWaiter?
                     && GrantedTo(p', q.wait.waiter, now.value))
  {
  }

  /** The hypotheses under which request r of s may become v, as far as the requests are concerned. */
  ghost predicate Acts(s: Sys, r: nat, v: View) {
    && AllProper(s) && Apart(s) && r < |s.reqs| && v.req.key == s.reqs[r].key
    && InRange(v) && Proper(v) && Moves(ViewOf(s, r), v)
    && Evolves(ViewOf(s, r).pool, v.pool, Owned(ViewOf(s, r)))
    && (v.req.key.None? ==> v.pool == ViewOf(s, r).pool)
  }

  ghost predicate Steps(c: Pool.Config, s: Sys, r: nat, v: View) {
    SysInv(c, s) && Acts(s, r, v) && Pool.Inv(c, v.pool)
  }

  lemma ViewAfter(s: Sys, r: nat, v: View, j: nat)
    requires r < |s.reqs| && v.req.key == s.reqs[r].key && j < |s.reqs|
    requires v.req.key.None? ==> v.pool == ViewOf(s, r).pool
    ensures
      var now := ViewOf(Put(s, r, v), j);
      now == if j == r then v
             else if s.reqs[j].key.Some? && s.reqs[j].key == s.reqs[r].key then View(v.pool, s.reqs[j], v.stats)
             else View(PoolOf(s.keys, s.reqs[j].key), s.reqs[j], v.stats)
  {
  }

  lemma OwnersApart(s: Sys, r: nat, j: nat)
    requires Apart(s) && r < |s.reqs| && j < |s.reqs| && r != j && s.reqs[r].key == s.reqs[j].key && s.reqs[r].key.Some?
    ensures Owned(ViewOf(s, r)).Some? ==> Owned(ViewOf(s, j)) != Owned(ViewOf(s, r))
  {
    var o := Owned(ViewOf(s, r));
    if o.Some? && Owned(ViewOf(s, j)) == o {
      assert OwnsLease(s, r, s.reqs[r].key.value, o.value) && OwnsLease(s, j, s.reqs[r].key.value, o.value);
    }
  }

  lemma OtherKey(p: Pool.KeyState, q: Request, stats: Stats, stats': Stats)
    requires InRange(View(p, q, stats)) && Proper(View(p, q, stats))
    ensures InRange(View(p, q, stats')) && Proper(View(p, q, stats'))
    ensures Owned(View(p, q, stats')) == Owned(View(p, q, stats))
  {
  }

  /** A bystander of a step: proper as before, owning what it owned unless its queued waiter was just granted. */
  lemma Bystander(s: Sys, r: nat, v: View, j: nat)
    requires Acts(s, r, v) && j < |s.reqs| && j != r
    ensures
      var now := ViewOf(Put(s, r, v), j);
      && InRange(now) && Proper(now)
      && (Owned(now) == Owned(ViewOf(s, j))
          || (s.reqs[j].key.Some? && s.reqs[j].key == s.reqs[r].key && Owned(ViewOf(s, j)).None?
              && NewlyGranted(ViewOf(s, r).pool, v.pool, s.reqs[j], Owned(now))))
  {
    ViewAfter(s, r, v, j);
    var was := ViewOf(s, j);
    assert InRange(was) && Proper(was);
    if s.reqs[j].key.Some? && s.reqs[j].key == s.reqs[r].key {
      OwnersApart(s, r, j);
      BystanderProper(was.pool, v.pool, s.reqs[j], s.stats, v.stats, Owned(ViewOf(s, r)));
    } else {
      OtherKey(was.pool, s.reqs[j], s.stats, v.stats);
    }
  }

  ghost predicate NewlyGranted(p: Pool.KeyState, p': Pool.KeyState, q: Request, now: Option<nat>) {
    now.Some? && now.value >= |p.leases| && q.wait.OnWaiter? && GrantedTo(p', q.wait.waiter, now.value)
  }

  lemma PutProper(s: Sys, r: nat, v: View)
    requires Acts(s, r, v)
    ensures AllProper(Put(s, r, v))
  {
    forall j: nat | j < |s.reqs|
      ensures InRange(ViewOf(Put(s, r, v), j)) && Proper(ViewOf(Put(s, r, v), j))
    {
      if j == r {
        ViewAfter(s, r, v, r);
      } else {
        Bystander(s, r, v, j);
      }
    }
  }

  /** The acting request owns what it owned, or nothing; and waits where it waited, or nowhere. */
  lemma Actor(s: Sys, r: nat, v: View)
    requires Acts(s, r, v)
    ensures ViewOf(Put(s, r, v), r) == v
    ensures Owned(v) == Owned(ViewOf(s, r)) || Owned(v).None?
    ensures v.req.wait == s.reqs[r].wait || v.req.wait.NoWait?
    ensures Owned(ViewOf(s, r)).Some? ==> Owned(ViewOf(s, r)).value < |ViewOf(s, r).pool.leases|
  {
    ViewAfter(s, r, v, r);
    assert InRange(ViewOf(s, r));
    OwnedInRange(ViewOf(s, r));
  }

  /** One lease is granted to one waiter. */
  lemma GrantsDiffer(c: Pool.Config, p: Pool.KeyState, w: nat, w': nat, l: nat)
    requires Pool.Inv(c, p) && GrantedTo(p, w, l) && GrantedTo(p, w', l)
    ensures w == w'
  {
    assert Pool.WasGranted(p.waiters[w]) && Pool.WasGranted(p.waiters[w']);
  }

  lemma BystandersApart(c: Pool.Config, s: Sys, r: nat, v: View, i: nat, j: nat, k: string, l: nat)
    requires Acts(s, r, v) && Pool.Inv(c, v.pool) && i != r && j != r
    requires OwnsLease(Put(s, r, v), i, k, l) && OwnsLease(Put(s, r, v), j, k, l)
    ensures i == j
  {
    Bystander(s, r, v, i);
    Bystander(s, r, v, j);
    BystanderOld(s, i, k);
    BystanderOld(s, j, k);
    if OwnsLease(s, i, k, l) {
      assert OwnsLease(s, j, k, l);
    } else {
      var p := ViewOf(s, r).pool;
      assert NewlyGranted(p, v.pool, s.reqs[i], Some(l)) && NewlyGranted(p, v.pool, s.reqs[j], Some(l));
      GrantsDiffer(c, v.pool, s.reqs[i].wait.waiter, s.reqs[j].wait.waiter, l);
      assert WaitsAs(s, i, k, s.reqs[i].wait.waiter) && WaitsAs(s, j, k, s.reqs[i].wait.waiter);
    }
  }

  lemma BystanderOld(s: Sys, i: nat, k: string)
    requires AllProper(s) && i < |s.reqs| && s.reqs[i].key == Some(k)
    ensures Owned(ViewOf(s, i)).Some? ==> Owned(ViewOf(s, i)).value < |At(s.keys, k).leases|
  {
    assert InRange(ViewOf(s, i));
    OwnedInRange(ViewOf(s, i));
  }

  lemma ActorApart(s: Sys, r: nat, v: View, j: nat, k: string, l: nat)
    requires Acts(s, r, v) && j != r && j < |s.reqs|
    requires OwnsLease(Put(s, r, v), r, k, l)
    ensures !OwnsLease(Put(s, r, v), j, k, l)
  {
    Actor(s, r, v);
    assert OwnsLease(s, r, k, l);
    Bystander(s, r, v, j);
    assert !NewlyGranted(ViewOf(s, r).pool, v.pool, s.reqs[j], Some(l));
    assert OwnsLease(Put(s, r, v), j, k, l) ==> OwnsLease(s, j, k, l);
  }

  lemma PutApart(c: Pool.Config, s: Sys, r: nat, v: View)
    requires Acts(s, r, v) && Pool.Inv(c, v.pool)
    ensures Apart(Put(s, r, v))
  {
    var s' := Put(s, r, v);
    forall i: nat, j: nat, k, l: nat | OwnsLease(s', i, k, l) && OwnsLease(s', j, k, l)
      ensures i == j
    {
      if i == r && j != r {
        ActorApart(s, r, v, j, k, l);
      } else if j == r && i != r {
        ActorApart(s, r, v, i, k, l);
      } else if i != r {
        BystandersApart(c, s, r, v, i, j, k, l);
      }
    }
    forall i: nat, j: nat, k, w: nat | WaitsAs(s', i, k, w) && WaitsAs(s', j, k, w)
      ensures i == j
    {
      Actor(s, r, v);
      assert WaitsAs(s, i, k, w) && WaitsAs(s, j, k, w);
    }
  }

  /** An open lease still has its owner. */
  lemma CoveredLease(s: Sys, r: nat, v: View, k: string, l: nat) returns (i: nat)
    requires Acts(s, r, v) && Covered(s)
    requires k in Put(s, r, v).keys && l < |Put(s, r, v).keys[k].leases| && !Put(s, r, v).keys[k].leases[l]
    ensures OwnsLease(Put(s, r, v), i, k, l)
  {
    var p := ViewOf(s, r).pool;
    Actor(s, r, v);
    if s.reqs[r].key != Some(k) {
      assert OpenAt(s, k, l);
      i :| OwnsLease(s, i, k, l);
      Bystander(s, r, v, i);
    } else if l < |p.leases| {
      assert OpenAt(s, k, l);
      i :| OwnsLease(s, i, k, l);
      if i != r {
        Bystander(s, r, v, i);
      }
    } else {
      assert !v.pool.leases[l];
      var w: nat :| GrantedTo(v.pool, w, l) && StillQueued(p, w);
      assert QueuedAt(s, k, w);
      i :| WaitsAs(s, i, k, w);
      assert Proper(ViewOf(s, i));
      if i != r {
        ViewAfter(s, r, v, i);
      }
    }
  }

  lemma CoveredWaiter(s: Sys, r: nat, v: View, k: string, w: nat) returns (i: nat)
    requires Acts(s, r, v) && Covered(s)
    requires k in Put(s, r, v).keys && StillQueued(Put(s, r, v).keys[k], w)
    ensures WaitsAs(Put(s, r, v), i, k, w)
  {
    assert s.reqs[r].key == Some(k) ==> StillQueued(ViewOf(s, r).pool, w);
    assert QueuedAt(s, k, w);
    i :| WaitsAs(s, i, k, w);
  }

  lemma PutCovered(s: Sys, r: nat, v: View)
    requires Acts(s, r, v) && Covered(s)
    ensures Covered(Put(s, r, v))
  {
    var s' := Put(s, r, v);
    forall k, l: nat | OpenAt(s', k, l)
      ensures exists i: nat :: OwnsLease(s', i, k, l)
    {
      var i := CoveredLease(s, r, v, k, l);
    }
    forall k, w: nat | QueuedAt(s', k, w)
      ensures exists i: nat :: WaitsAs(s', i, k, w)
    {
      var i := CoveredWaiter(s, r, v, k, w);
    }
  }

  lemma EndingMoves(s: Sys, r: nat, v: View, p: Outcome -> bool)
    requires r < |s.reqs| && Settled(s.reqs[r]) && Settled(v.req) && Moves(ViewOf(s, r), v)
    ensures
      var n, m := Count(s.reqs, Ending(p)), Count(Put(s, r, v).reqs, Ending(p));
      if v.req.done == s.reqs[r].done then m == n else v.req.callbacks != [] && OneMoreIf(n, m, p(v.req.callbacks[0]))
  {
    CountUpdate(s.reqs, r, v.req, Ending(p));
  }

  lemma PutTallied(s: Sys, r: nat, v: View)
    requires r < |s.reqs| && Settled(s.reqs[r]) && Settled(v.req) && Moves(ViewOf(s, r), v) && Tallied(s)
    ensures Tallied(Put(s, r, v))
  {
    hide Settled, Moves, Count, Finished;
    EndingMoves(s, r, v, IsSuccess);
    EndingMoves(s, r, v, IsAbort);
    EndingMoves(s, r, v, IsTimeout);
    EndingMoves(s, r, v, IsFailure);
    EndingMoves(s, r, v, IsPoolRejection);
    EndingMoves(s, r, v, IsPoolTimeout);
    MovesCount(ViewOf(s, r), v);
  }

  /** A step that finishes the request counts the outcome its callback got, and any other counts nothing. */
  lemma MovesCount(v: View, v': View)
    requires Settled(v.req) && Settled(v'.req) && Moves(v, v')
    ensures
      if v'.req.done == v.req.done then v'.stats == v.stats && v'.req.callbacks == v.req.callbacks
      else |v'.req.callbacks| == 1 && OneEnded(v.stats, v'.stats, v'.req.callbacks[0])
  {
    if v'.req.done != v.req.done {
      FinishedCounts(v.stats, v'.req.callbacks[0]);
    }
  }

  lemma PutAccounted(s: Sys, r: nat, v: View)
    requires Acts(s, r, v) && Accounted(s)
    ensures Accounted(Put(s, r, v))
  {
    hide Tallied, InRange, GivesBack, Waiting, Evolves;
    assert Proper(ViewOf(s, r)) && Proper(v);
    PutTallied(s, r, v);
    CountUpdate(s.reqs, r, v.req, Unfinished);
    CountZero(s.reqs, Unfinished);
    if v.req.done != s.reqs[r].done {
      assert Unfinished(s.reqs[r]);
      FinishedKeepsBalance(s.stats, v.req.callbacks[|s.reqs[r].callbacks|]);
    }
  }

  lemma PutKeeps(c: Pool.Config, s: Sys, r: nat, v: View)
    requires Steps(c, s, r, v)
    ensures SysInv(c, Put(s, r, v))
  {
    PutProper(s, r, v);
    PutApart(c, s, r, v);
    PutCovered(s, r, v);
    PutAccounted(s, r, v);
    if s.reqs[r].key.Some? {
      LawfulUpdate(c, s.keys, s.reqs[r].key.value, v.pool);
    }
  }

  // ----- a new request -----

  /** Arriving at the pool leaves old leases and waiters alone; the newcomer owns the new lease or is the new waiter. */
  ghost predicate Admits(p: Pool.KeyState, v: View) {
    && |p.waiters| <= |v.pool.waiters| && |p.leases| <= |v.pool.leases|
    && (forall w {:trigger v.pool.waiters[w]} :: 0 <= w < |p.waiters| ==> v.pool.waiters[w] == p.waiters[w])
    && (forall l {:trigger v.pool.leases[l]} :: 0 <= l < |p.leases| ==> v.pool.leases[l] == p.leases[l])
    && (|v.pool.leases| > |p.leases| ==> |v.pool.leases| == |p.leases| + 1 && Owned(v) == Some(|p.leases|))
    && (|v.pool.waiters| > |p.waiters| ==> |v.pool.waiters| == |p.waiters| + 1 && v.req.wait == OnWaiter(|p.waiters|))
    && (Owned(v).Some? ==> Owned(v).value == |p.leases|)
    && (v.req.wait.OnWaiter? ==> v.req.wait.waiter == |p.waiters|)
  }

  /** A newcomer whose transport is about to start stands in the books as one whose transport is pending. */
  function Standing(a: (View, bool)): View {
    if a.1 then a.0.(req := a.0.req.(transport := Pending)) else a.0
  }

  lemma ArriveFacts(c: Pool.Config, p: Pool.KeyState, stats: Stats, setup: Setup)
    requires Pool.InRange(p)
    ensures
      var v := Standing(Arrive(c, p, stats, setup));
      && Admits(p, v) && v.req.key == setup.key && !v.req.done
      && v.stats == Started(stats) && (setup.key.None? ==> v.pool == p)
  {
  }

  lemma ArrivePool(c: Pool.Config, p: Pool.KeyState, stats: Stats, setup: Setup)
    ensures
      var q := Arrive(c, p, stats, setup).0.pool;
      q == p || q == Pool.TryAcquireSync(c, p, false).0 || q == Pool.Acquire(c, p, false).0
  {
  }

  lemma ArriveKeepsPool(c: Pool.Config, p: Pool.KeyState, stats: Stats, setup: Setup)
    requires Pool.Inv(c, p)
    ensures Pool.Inv(c, Arrive(c, p, stats, setup).0.pool)
  {
    ArrivePool(c, p, stats, setup);
    Pool.AcquireKeeps(c, p, false);
  }

  lemma ArriveProper(c: Pool.Config, p: Pool.KeyState, stats: Stats, setup: Setup)
    requires Pool.InRange(p)
    ensures
      var v := Standing(Arrive(c, p, stats, setup));
      InRange(v) && Proper(v)
  {
    hide Pool.InRange, InRange;
    ArriveInRange(c, p, stats, setup);
    StandingInRange(Arrive(c, p, stats, setup));
  }

  lemma StandingInRange(a: (View, bool))
    requires InRange(a.0)
    ensures InRange(Standing(a))
  {
  }

  lemma RunStanding(c: Pool.Config, v: View, reply: Reply)
    requires Sound(c, v) && v.req.transport.Pending? && !v.req.done && !v.req.aborted && !v.req.cancelInner && v.req.cancels == 0
    requires v.req.abortTask.None?
    ensures
      var r := RunTransport(c, v, reply);
      Sound(c, r) && Moves(v, r) && PoolMoves(c, v, r)
  {
    if reply.Answers? {
      AnswerSound(c, v, reply.outcome);
      assert RunTransport(c, v, reply) == Answer(c, v, reply.outcome);
    } else {
      EvolvesSame(v.pool, Owned(v));
    }
  }

  lemma NewcomerViews(s: Sys, p: Pool.KeyState, v: View, j: nat)
    requires AllProper(s) && p == PoolOf(s.keys, v.req.key) && Admits(p, v) && InRange(v) && Proper(v)
    requires (v.req.key.None? ==> v.pool == p) && j <= |s.reqs|
    ensures
      var now := ViewOf(Enrol(s, v), j);
      if j == |s.reqs| then now == v
      else InRange(now) && Proper(now) && now.req == s.reqs[j] && Owned(now) == Owned(ViewOf(s, j))
           && (Owned(now).Some? && s.reqs[j].key == v.req.key ==> Owned(now).value < |p.leases|)
           && (s.reqs[j].wait.OnWaiter? && s.reqs[j].key == v.req.key ==> s.reqs[j].wait.waiter < |p.waiters|)
  {
    if j < |s.reqs| {
      assert InRange(ViewOf(s, j)) && Proper(ViewOf(s, j));
      OwnedInRange(ViewOf(s, j));
    }
  }

  /** The hypotheses under which v joins s as its newest request. */
  ghost predicate Joins(s: Sys, v: View) {
    && AllProper(s) && InRange(v) && Proper(v) && Admits(PoolOf(s.keys, v.req.key), v)
    && (v.req.key.None? ==> v.pool == PoolOf(s.keys, v.req.key)) && !v.req.done && v.stats == Started(s.stats)
  }

  lemma EnrolApart(s: Sys, v: View)
    requires Joins(s, v) && Apart(s)
    ensures AllProper(Enrol(s, v)) && Apart(Enrol(s, v))
  {
    var s', p := Enrol(s, v), PoolOf(s.keys, v.req.key);
    forall j: nat | j < |s'.reqs|
      ensures InRange(ViewOf(s', j)) && Proper(ViewOf(s', j))
    {
      NewcomerViews(s, p, v, j);
    }
    forall i: nat, j: nat, k, l: nat | OwnsLease(s', i, k, l) && OwnsLease(s', j, k, l)
      ensures i == j
    {
      NewcomerViews(s, p, v, i);
      NewcomerViews(s, p, v, j);
      if i < |s.reqs| {
        assert OwnsLease(s, i, k, l);
      }
      if j < |s.reqs| {
        assert OwnsLease(s, j, k, l);
      }
    }
    forall i: nat, j: nat, k, w: nat | WaitsAs(s', i, k, w) && WaitsAs(s', j, k, w)
      ensures i == j
    {
      NewcomerViews(s, p, v, i);
      NewcomerViews(s, p, v, j);
      if i < |s.reqs| {
        assert WaitsAs(s, i, k, w);
      }
      if j < |s.reqs| {
        assert WaitsAs(s, j, k, w);
      }
    }
  }

  lemma EnrolCovered(s: Sys, v: View)
    requires Joins(s, v) && Covered(s)
    ensures Covered(Enrol(s, v))
  {
    var s', p, n := Enrol(s, v), PoolOf(s.keys, v.req.key), |s.reqs|;
    NewcomerViews(s, p, v, n);
    forall k, l: nat | OpenAt(s', k, l)
      ensures exists i: nat :: OwnsLease(s', i, k, l)
    {
      if v.req.key == Some(k) && l >= |p.leases| {
        assert OwnsLease(s', n, k, l);
      } else {
        assert OpenAt(s, k, l);
        var i: nat :| OwnsLease(s, i, k, l);
        NewcomerViews(s, p, v, i);
        assert OwnsLease(s', i, k, l);
      }
    }
    forall k, w: nat | QueuedAt(s', k, w)
      ensures exists i: nat :: WaitsAs(s', i, k, w)
    {
      if v.req.key == Some(k) && w >= |p.waiters| {
        assert WaitsAs(s', n, k, w);
      } else {
        assert QueuedAt(s, k, w);
        var i: nat :| WaitsAs(s, i, k, w);
        assert WaitsAs(s', i, k, w);
      }
    }
  }

  lemma EnrolAccounted(s: Sys, v: View)
    requires Accounted(s) && !v.req.done && v.req.callbacks == [] && v.stats == Started(s.stats)
    ensures Accounted(Enrol(s, v))
  {
    CountAppend(s.reqs, v.req, Unfinished);
    CountAppend(s.reqs, v.req, Ending(IsSuccess));
    CountAppend(s.reqs, v.req, Ending(IsAbort));
    CountAppend(s.reqs, v.req, Ending(IsTimeout));
    CountAppend(s.reqs, v.req, Ending(IsFailure));
    CountAppend(s.reqs, v.req, Ending(IsPoolRejection));
    CountAppend(s.reqs, v.req, Ending(IsPoolTimeout));
  }

  lemma EnrolKeeps(c: Pool.Config, s: Sys, v: View)
    requires SysInv(c, s) && Joins(s, v) && Pool.Inv(c, v.pool)
    ensures SysInv(c, Enrol(s, v))
  {
    hide Apart, Covered, Pool.Inv;
    EnrolApart(s, v);
    EnrolCovered(s, v);
    EnrolAccounted(s, v);
    if v.req.key.Some? {
      LawfulUpdate(c, s.keys, v.req.key.value, v.pool);
    }
  }

  lemma PutOnNewest(s: Sys, v: View, r: View)
    requires r.req.key == v.req.key && (v.req.key.None? ==> r.pool == v.pool)
    ensures Put(Enrol(s, v), |s.reqs|, r) == Enrol(s, r)
  {
    assert (s.reqs + [v.req])[|s.reqs| := r.req] == s.reqs + [r.req];
    if v.req.key.Some? {
      assert s.keys[v.req.key.value := v.pool][v.req.key.value := r.pool] == s.keys[v.req.key.value := r.pool];
    }
  }

  lemma RunNewcomer(c: Pool.Config, s: Sys, v: View, r: View)
    requires SysInv(c, Enrol(s, v)) && Sound(c, r) && Moves(v, r) && PoolMoves(c, v, r) && ViewOf(Enrol(s, v), |s.reqs|) == v
    ensures SysInv(c, Enrol(s, r))
  {
    var n := |s.reqs|;
    assert Steps(c, Enrol(s, v), n, r);
    PutKeeps(c, Enrol(s, v), n, r);
    PutOnNewest(s, v, r);
  }

  lemma ArriveKeeps(c: Pool.Config, s: Sys, setup: Setup)
    requires SysInv(c, s) && Pool.Inv(c, PoolOf(s.keys, setup.key)) && Pool.InRange(PoolOf(s.keys, setup.key))
    ensures
      var v := Standing(Arrive(c, PoolOf(s.keys, setup.key), s.stats, setup));
      SysInv(c, Enrol(s, v)) && Sound(c, v) && ViewOf(Enrol(s, v), |s.reqs|) == v
  {
    hide Arrive, Admits, Proper, Apart, Covered, Pool.Inv, Accounted;
    var p := PoolOf(s.keys, setup.key);
    var v := Standing(Arrive(c, p, s.stats, setup));
    ArriveFacts(c, p, s.stats, setup);
    ArriveKeepsPool(c, p, s.stats, setup);
    ArriveProper(c, p, s.stats, setup);
    EnrolKeeps(c, s, v);
    NewcomerViews(s, p, v, |s.reqs|);
  }

  ghost predicate ReadyToRun(v: View) {
    && v.req.transport.Pending? && !v.req.done && !v.req.aborted && !v.req.cancelInner && v.req.cancels == 0
    && v.req.abortTask.None?
  }

  lemma StartNewcomer(c: Pool.Config, s: Sys, v: View, reply: Reply)
    requires SysInv(c, Enrol(s, v)) && Sound(c, v) && ViewOf(Enrol(s, v), |s.reqs|) == v && ReadyToRun(v)
    ensures SysInv(c, Enrol(s, RunTransport(c, v, reply)))
  {
    RunStanding(c, v, reply);
    RunNewcomer(c, s, v, RunTransport(c, v, reply));
  }

  lemma JoinedIs(c: Pool.Config, p: Pool.KeyState, stats: Stats, setup: Setup)
    requires Pool.InRange(p)
    ensures
      var a := Arrive(c, p, stats, setup);
      InRange(Standing(a)) &&
      if a.1 then ReadyToRun(Standing(a)) && Joined(c, p, stats, setup) == RunTransport(c, Standing(a), setup.reply)
      else Joined(c, p, stats, setup) == Standing(a)
  {
    ArriveInRange(c, p, stats, setup);
    StandingRuns(c, Arrive(c, p, stats, setup).0, setup.reply);
  }

  lemma RegisterKeeps(c: Pool.Config, s: Sys, setup: Setup)
    requires SysInv(c, s)
    ensures Pool.InRange(PoolOf(s.keys, setup.key))
    ensures SysInv(c, Enrol(s, Joined(c, PoolOf(s.keys, setup.key), s.stats, setup)))
  {
    var p := PoolOf(s.keys, setup.key);
    PoolOfLawful(c, s.keys, setup.key);
    ArriveKeeps(c, s, setup);
    JoinedIs(c, p, s.stats, setup);
    var a := Arrive(c, p, s.stats, setup);
    if a.1 {
      StartNewcomer(c, s, Standing(a), setup.reply);
    }
  }

  /** Starting the transport does not look at the transport field. */
  lemma StandingRuns(c: Pool.Config, v: View, reply: Reply)
    requires InRange(v)
    ensures
      var u := v.(req := v.req.(transport := Pending));
      InRange(u) && RunTransport(c, u, reply) == RunTransport(c, v, reply)
  {
    hide Pool.Release, Finished;
  }

  lemma PoolOfLawful(c: Pool.Config, keys: Keys, key: Option<string>)
    requires c.concurrency >= 1 && Lawful(c, keys)
    ensures Pool.Inv(c, PoolOf(keys, key)) && Pool.InRange(PoolOf(keys, key))
  {
    if key.Some? {
      LawfulAt(c, keys, key.value);
      Pool.InvInRange(c, At(keys, key.value));
    } else {
      Pool.EmptyKeeps(c);
      Pool.InvInRange(c, Pool.EMPTY);
    }
  }

  // ----- runs -----

  predicate EnabledAt(s: Sys, e: Event) {
    match e
    case Register(_) => true
    case StepOf(r, step) => r < |s.reqs| && Enabled(ViewOf(s, r), step)
  }

  /** The event is enabled, and what it refers to exists. */
  ghost predicate Possible(s: Sys, e: Event) {
    match e
    case Register(setup) => Pool.InRange(PoolOf(s.keys, setup.key))
    case StepOf(r, step) => r < |s.reqs| && InRange(ViewOf(s, r)) && Enabled(ViewOf(s, r), step)
  }

  ghost function NextOf(c: Pool.Config, s: Sys, e: Event): Sys
    requires Possible(s, e)
  {
    match e
    case Register(setup) => Enrol(s, Joined(c, PoolOf(s.keys, setup.key), s.stats, setup))
    case StepOf(r, step) => Put(s, r, Next(c, ViewOf(s, r), step))
  }

  lemma ViewSound(c: Pool.Config, s: Sys, r: nat)
    requires SysInv(c, s) && r < |s.reqs|
    ensures Sound(c, ViewOf(s, r))
  {
    PoolOfLawful(c, s.keys, s.reqs[r].key);
    assert InRange(ViewOf(s, r)) && Proper(ViewOf(s, r));
  }

  lemma StepOfKeeps(c: Pool.Config, s: Sys, r: nat, step: Step)
    requires SysInv(c, s) && r < |s.reqs| && Sound(c, ViewOf(s, r)) && Enabled(ViewOf(s, r), step)
    ensures SysInv(c, Put(s, r, Next(c, ViewOf(s, r), step)))
  {
    StepSound(c, ViewOf(s, r), step);
    PutKeeps(c, s, r, Next(c, ViewOf(s, r), step));
  }

  lemma EventKeeps(c: Pool.Config, s: Sys, e: Event)
    requires SysInv(c, s) && EnabledAt(s, e)
    ensures Possible(s, e) && SysInv(c, NextOf(c, s, e))
  {
    match e
    case Register(setup) => RegisterKeeps(c, s, setup);
    case StepOf(r, step) =>
      ViewSound(c, s, r);
      StepOfKeeps(c, s, r, step);
  }

  const START := Sys(map[], [], ZERO)

  lemma StartKeeps(c: Pool.Config)
    requires c.concurrency >= 1
    ensures SysInv(c, START) && NobodyLate(START)
  {
  }

  /** One event; one that is not possible changes nothing. */
  ghost function StepSys(c: Pool.Config, s: Sys, e: Event): Sys {
    if Possible(s, e) then NextOf(c, s, e) else s
  }

  /** The state after a sequence of events. */
  ghost function After(c: Pool.Config, s: Sys, es: seq<Event>): Sys
    decreases |es|
  {
    if es == [] then s else After(c, StepSys(c, s, es[0]), es[1..])
  }

  lemma StepSysKeeps(c: Pool.Config, s: Sys, e: Event)
    requires SysInv(c, s)
    ensures SysInv(c, StepSys(c, s, e))
  {
    if EnabledAt(s, e) {
      EventKeeps(c, s, e);
    }
  }

  lemma {:induction false} RunKeeps(c: Pool.Config, s: Sys, es: seq<Event>)
    requires SysInv(c, s)
    ensures SysInv(c, After(c, s, es))
    decreases |es|
  {
    if es != [] {
      StepSysKeeps(c, s, es[0]);
      RunKeeps(c, StepSys(c, s, es[0]), es[1..]);
    }
  }

  // ----- what every run promises -----

  /** After any run from a state with the invariant, which the state without requests has, a finished request holds an
      open permit exactly when it is stranded, its final callback has run once if it is finished and not otherwise, and two
      requests never answer for the same permit. Its transport, if it never answered, was cancelled exactly once, and that of
      a stranded request never. */
  lemma FinishedHoldNothing(c: Pool.Config, start: Sys, es: seq<Event>, r: nat)
    requires SysInv(c, start)
    ensures
      var s := After(c, start, es);
      r < |s.reqs| ==>
        && (s.reqs[r].done && HoldsOpen(ViewOf(s, r)) <==> s.reqs[r].stranded)
        && |s.reqs[r].callbacks| == (if s.reqs[r].done then 1 else 0)
        && s.reqs[r].cancels <= 1
        && (NeverAnswered(s.reqs[r]) ==> (s.reqs[r].cancels == 1 <==> !s.reqs[r].stranded))
        && (s.reqs[r].stranded ==> s.reqs[r].cancels == 0)
        && forall q, k, l :: OwnsLease(s, r, k, l) && OwnsLease(s, q, k, l) ==> q == r
  {
    hide Accounted;
    RunKeeps(c, start, es);
    var s := After(c, start, es);
    if r < |s.reqs| {
      assert Proper(ViewOf(s, r));
    }
  }

  /** Finished, with nothing left to run, though its transport suspended with a canceller and has not answered. */
  predicate NeverAnswered(q: Request) {
    q.done && q.abortTask.None? && q.given && q.transport.Pending?
  }

  lemma ClientAccounting(c: Pool.Config, start: Sys, es: seq<Event>)
    requires SysInv(c, start)
    ensures
      var s := After(c, start, es);
      && s.stats.started == s.stats.inFlight + s.stats.succeeded + s.stats.failed + s.stats.aborted + s.stats.timedOut
      && s.stats.poolRejected + s.stats.poolTimeouts <= s.stats.failed
      && s.stats.started == |s.reqs| && s.stats.inFlight == Count(s.reqs, Unfinished)
      && s.stats.succeeded == Count(s.reqs, Ending(IsSuccess)) && s.stats.aborted == Count(s.reqs, Ending(IsAbort))
      && s.stats.timedOut == Count(s.reqs, Ending(IsTimeout)) && s.stats.failed == Count(s.reqs, Ending(IsFailure))
      && s.stats.poolRejected == Count(s.reqs, Ending(IsPoolRejection))
      && s.stats.poolTimeouts == Count(s.reqs, Ending(IsPoolTimeout))
  {
    RunKeeps(c, start, es);
    assert Accounted(After(c, start, es));
  }

  /** Every request is done and no continuation or microtask is waiting to run. */
  ghost predicate Quiet(s: Sys) {
    forall r {:trigger ViewOf(s, r)} :: 0 <= r < |s.reqs| ==>
      s.reqs[r].done && s.reqs[r].abortTask.None? && !GrantReady(ViewOf(s, r)) && !RejectReady(ViewOf(s, r))
  }

  lemma QuietWaitsForNothing(s: Sys, r: nat)
    requires AllProper(s) && Quiet(s) && r < |s.reqs|
    ensures s.reqs[r].wait.NoWait?
  {
    var v := ViewOf(s, r);
    assert InRange(v) && Proper(v);
  }

  // ----- which requests leave their permit behind -----

  /** The event starts the transport of request r on an already aborted signal, and the transport suspends. */
  ghost predicate StartsLate(s: Sys, e: Event, r: nat) {
    e.StepOf? && e.request == r && Possible(s, e) && LateStart(ViewOf(s, r), e.step)
  }

  /** The event is the abort microtask of request r, not finished yet. */
  ghost predicate AbortsUnfinished(s: Sys, e: Event, r: nat) {
    e == StepOf(r, AbortMicrotask) && Possible(s, e) && !s.reqs[r].done
  }

  /** In the run, the abort microtask of request r finds it unfinished after a late start; late says that there was one
      before the run. */
  ghost predicate Abandons(c: Pool.Config, s: Sys, es: seq<Event>, r: nat, late: bool)
    decreases |es|
  {
    es != [] &&
    ((late && AbortsUnfinished(s, es[0], r)) || Abandons(c, StepSys(c, s, es[0]), es[1..], r, late || StartsLate(s, es[0], r)))
  }

  ghost predicate IsLate(s: Sys, r: nat) { r < |s.reqs| && s.reqs[r].late }

  ghost predicate IsStranded(s: Sys, r: nat) { r < |s.reqs| && s.reqs[r].stranded }

  /** Abandoned in the run, or stranded before it. */
  ghost predicate Abandoned(c: Pool.Config, s: Sys, es: seq<Event>, r: nat) {
    IsStranded(s, r) || Abandons(c, s, es, r, IsLate(s, r))
  }

  lemma ArriveUnmarked(c: Pool.Config, p: Pool.KeyState, stats: Stats, setup: Setup)
    ensures var q := Arrive(c, p, stats, setup).0.req; !q.late && !q.stranded
  {
  }

  lemma RunKeepsMarks(c: Pool.Config, v: View, reply: Reply)
    requires InRange(v)
    ensures SameMarks(v, RunTransport(c, v, reply))
  {
  }

  lemma NewcomerUnmarked(c: Pool.Config, p: Pool.KeyState, stats: Stats, setup: Setup)
    requires Pool.InRange(p)
    ensures !Joined(c, p, stats, setup).req.late && !Joined(c, p, stats, setup).req.stranded
  {
    ArriveInRange(c, p, stats, setup);
    ArriveUnmarked(c, p, stats, setup);
    RunKeepsMarks(c, Arrive(c, p, stats, setup).0, setup.reply);
  }

  lemma MarksOfPut(s: Sys, q: nat, v: View, r: nat)
    requires q < |s.reqs|
    ensures IsLate(Put(s, q, v), r) <==> if r == q then v.req.late else IsLate(s, r)
    ensures IsStranded(Put(s, q, v), r) <==> if r == q then v.req.stranded else IsStranded(s, r)
  {
  }

  /** Every request that is there starts its transport once. */
  ghost predicate AllStartOnce(s: Sys) {
    forall q {:trigger ViewOf(s, q)} :: 0 <= q < |s.reqs| ==> StartedOnce(ViewOf(s, q))
  }

  lemma MarksOfStep(c: Pool.Config, s: Sys, e: Event, r: nat)
    requires AllStartOnce(s) && Possible(s, e)
    ensures
      var t := NextOf(c, s, e);
      && (IsLate(t, r) <==> IsLate(s, r) || StartsLate(s, e, r))
      && (IsStranded(t, r) <==> IsStranded(s, r) || (IsLate(s, r) && AbortsUnfinished(s, e, r)))
  {
    match e
    case Register(setup) => NewcomerUnmarked(c, PoolOf(s.keys, setup.key), s.stats, setup);
    case StepOf(q, step) =>
      MarksOfPut(s, q, Next(c, ViewOf(s, q), step), r);
      LateIffLateStart(c, ViewOf(s, q), step);
  }

  lemma {:induction false} StrandedIffAbandoned(c: Pool.Config, s: Sys, es: seq<Event>, r: nat)
    requires SysInv(c, s)
    ensures IsStranded(After(c, s, es), r) <==> Abandoned(c, s, es, r)
    decreases |es|
  {
    hide Accounted;
    if es != [] {
      if Possible(s, es[0]) {
        forall q: nat | q < |s.reqs| ensures StartedOnce(ViewOf(s, q)) {
          ProperStartsOnce(ViewOf(s, q));
        }
        MarksOfStep(c, s, es[0], r);
      }
      StepSysKeeps(c, s, es[0]);
      StrandedIffAbandoned(c, StepSys(c, s, es[0]), es[1..], r);
    }
  }

  /** Once everything is quiet, a key has no running permit iff in the run no request of the key was abandoned: its transport
      started on the aborted signal and suspended, and its abort microtask came before the transport answered. */
  lemma QuietIffNoneStranded(c: Pool.Config, start: Sys, es: seq<Event>, k: string)
    requires SysInv(c, start)
    ensures
      var s := After(c, start, es);
      Quiet(s) && k in s.keys ==>
        && s.keys[k].queue == []
        && (s.keys[k].running == 0 <==>
              forall r :: 0 <= r < |s.reqs| && s.reqs[r].key == Some(k) ==> !Abandoned(c, start, es, r))
  {
    hide Accounted;
    RunKeeps(c, start, es);
    var s := After(c, start, es);
    if Quiet(s) && k in s.keys {
      QuietRunning(c, s, k);
      QuietQueue(c, s, k);
      forall r: nat ensures IsStranded(s, r) <==> Abandoned(c, start, es, r) {
        StrandedIffAbandoned(c, start, es, r);
      }
    }
  }

  lemma QuietRunning(c: Pool.Config, s: Sys, k: string)
    requires SysInv(c, s) && Quiet(s) && k in s.keys
    ensures s.keys[k].running == 0 <==> forall r :: 0 <= r < |s.reqs| && s.reqs[r].key == Some(k) ==> !s.reqs[r].stranded
  {
    hide Accounted;
    var leases := s.keys[k].leases;
    LawfulAt(c, s.keys, k);
    CountZero(leases, Pool.IsOpen);
    if s.keys[k].running != 0 {
      var l: nat :| l < |leases| && Pool.IsOpen(leases[l]);
      assert OpenAt(s, k, l);
      var r: nat :| OwnsLease(s, r, k, l);
      QuietWaitsForNothing(s, r);
      assert Proper(ViewOf(s, r)) && HoldsOpen(ViewOf(s, r));
    }
    if r :| 0 <= r < |s.reqs| && s.reqs[r].key == Some(k) && s.reqs[r].stranded {
      assert Proper(ViewOf(s, r)) && HoldsOpen(ViewOf(s, r));
      assert Pool.IsOpen(leases[s.reqs[r].lease.value]);
    }
  }

  lemma QuietQueue(c: Pool.Config, s: Sys, k: string)
    requires SysInv(c, s) && Quiet(s) && k in s.keys
    ensures s.keys[k].queue == []
  {
    hide Accounted;
    LawfulAt(c, s.keys, k);
    var p := s.keys[k];
    if p.queue != [] {
      var w := p.queue[0];
      assert w in p.queue && QueuedAt(s, k, w);
      var r: nat :| WaitsAs(s, r, k, w);
      QuietWaitsForNothing(s, r);
    }
  }

  // ----- transports that answer an already aborted signal at once -----

  ghost predicate PromptAt(s: Sys, e: Event) {
    e.StepOf? && e.request < |s.reqs| ==> !LateStart(ViewOf(s, e.request), e.step)
  }

  /** In this run every transport started on an already aborted signal answers while it is started. */
  ghost predicate Prompt(c: Pool.Config, s: Sys, es: seq<Event>)
    decreases |es|
  {
    es == [] || (PromptAt(s, es[0]) && Prompt(c, StepSys(c, s, es[0]), es[1..]))
  }

  ghost predicate NobodyLate(s: Sys) { forall r :: 0 <= r < |s.reqs| ==> !s.reqs[r].late }

  lemma {:induction false} PromptNeverLate(c: Pool.Config, s: Sys, es: seq<Event>)
    requires NobodyLate(s) && Prompt(c, s, es)
    ensures NobodyLate(After(c, s, es))
    decreases |es|
  {
    if es != [] {
      NotLateAfter(c, s, es[0]);
      PromptNeverLate(c, StepSys(c, s, es[0]), es[1..]);
    }
  }

  lemma NotLateAfter(c: Pool.Config, s: Sys, e: Event)
    requires NobodyLate(s) && PromptAt(s, e)
    ensures NobodyLate(StepSys(c, s, e))
  {
    if Possible(s, e) {
      match e
      case Register(setup) => NotLateNewcomer(c, s, setup);
      case StepOf(q, step) => NotLateStep(c, s, q, step);
    }
  }

  lemma NotLateNewcomer(c: Pool.Config, s: Sys, setup: Setup)
    requires NobodyLate(s) && Pool.InRange(PoolOf(s.keys, setup.key))
    ensures NobodyLate(NextOf(c, s, Register(setup)))
  {
    NewcomerUnmarked(c, PoolOf(s.keys, setup.key), s.stats, setup);
  }

  lemma NotLateStep(c: Pool.Config, s: Sys, q: nat, step: Step)
    requires NobodyLate(s) && q < |s.reqs|
    requires InRange(ViewOf(s, q)) && Enabled(ViewOf(s, q), step) && !LateStart(ViewOf(s, q), step)
    ensures NobodyLate(Put(s, q, Next(c, ViewOf(s, q), step)))
  {
    LateOnlyByLateStart(c, ViewOf(s, q), step);
  }

  /** With such transports, once everything is quiet no key has a running permit. */
  lemma PromptRunsGiveEverythingBack(c: Pool.Config, start: Sys, es: seq<Event>, k: string)
    requires SysInv(c, start) && NobodyLate(start) && Prompt(c, start, es)
    ensures
      var s := After(c, start, es);
      Quiet(s) && k in s.keys ==> s.keys[k].running == 0
  {
    hide Accounted;
    RunKeeps(c, start, es);
    PromptNeverLate(c, start, es);
    var s := After(c, start, es);
    if Quiet(s) && k in s.keys {
      NobodyStranded(s);
      QuietRunning(c, s, k);
    }
  }

  lemma NobodyStranded(s: Sys)
    requires AllProper(s) && NobodyLate(s)
    ensures forall r :: 0 <= r < |s.reqs| ==> !s.reqs[r].stranded
  {
    forall r: nat | r < |s.reqs|
      ensures !s.reqs[r].stranded
    {
      assert Proper(ViewOf(s, r));
    }
  }
}
