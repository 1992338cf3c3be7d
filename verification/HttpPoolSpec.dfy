/** What one key of the HTTP concurrency pool of src/http/pool.ts does (TypeScript engine): a bounded first-in first-out
    semaphore with abort, queue timeout and leases that release once. The classes in HttpPool.dfy refine this. */
module HttpPoolSpec {
  import opened Prelude

  /** What has become of the promise of a queued acquire. */
  datatype Outcome = Queued | Granted(lease: nat) | Aborted | TimedOut

  /** aborted: its signal is aborted. listening, timer: the abort listener and the queue timeout are still attached. */
  datatype Waiter = Waiter(aborted: bool, listening: bool, timer: bool, outcome: Outcome)

  datatype Config = Config(concurrency: nat, maxQueue: nat, queueTimeout: bool)

  /** Waiters and leases are known by their position: waiters in order of arrival, leases in order of issue.
      A lease is true once released. */
  datatype KeyState = KeyState(
    running: nat, queue: seq<nat>, acquired: nat, released: nat, rejected: nat, queueTimeouts: nat, abortedWhileQueued: nat,
    waiters: seq<Waiter>, leases: seq<bool>)

  datatype Acquired = Leased(lease: nat) | Enqueued(waiter: nat) | AbortedAtOnce | Rejected

  const EMPTY := KeyState(0, [], 0, 0, 0, 0, 0, [], [])

  // ----- operations -----

  /** A new lease: running and acquired go up together. */
  function Issue(s: KeyState): KeyState {
    s.(running := s.running + 1, acquired := s.acquired + 1, leases := s.leases + [false])
  }

  function TryAcquireSync(c: Config, s: KeyState, aborted: bool): (KeyState, Option<nat>) {
    if aborted then (s, None)
    else if s.running < c.concurrency then (Issue(s), Some(|s.leases|))
    else (s, None)
  }

  function Acquire(c: Config, s: KeyState, aborted: bool): (KeyState, Acquired) {
    if aborted then (s, AbortedAtOnce)
    else if s.running < c.concurrency then (Issue(s), Leased(|s.leases|))
    else if |s.queue| >= c.maxQueue then (s.(rejected := s.rejected + 1), Rejected)
    else
      var w := |s.waiters|;
      (s.(queue := s.queue + [w], waiters := s.waiters + [Waiter(false, true, c.queueTimeout, Queued)]), Enqueued(w))
  }

  function Settled(w: Waiter, outcome: Outcome): Waiter {
    w.(listening := false, timer := false, outcome := outcome)
  }

  /** The head of the queue is served: granted, or rejected if its signal is already aborted. */
  function ServeHead(s: KeyState): KeyState
    requires s.queue != [] && s.queue[0] < |s.waiters|
  {
    var w := s.queue[0];
    if s.waiters[w].aborted then
      s.(queue := s.queue[1..], waiters := s.waiters[w := Settled(s.waiters[w], Aborted)],
         abortedWhileQueued := s.abortedWhileQueued + 1)
    else
      Issue(s).(queue := s.queue[1..], waiters := s.waiters[w := Settled(s.waiters[w], Granted(|s.leases|))])
  }

  /** The positions in s are positions of existing waiters and leases. */
  ghost predicate InRange(s: KeyState) {
    && (forall w {:trigger w in s.queue} :: w in s.queue ==> w < |s.waiters|)
    && (forall w {:trigger s.waiters[w]} :: 0 <= w < |s.waiters| && s.waiters[w].outcome.Granted? ==>
          s.waiters[w].outcome.lease < |s.leases|)
  }

  function Drain(c: Config, s: KeyState): (r: KeyState)
    requires InRange(s)
    ensures InRange(r) && |r.waiters| == |s.waiters| && |r.leases| >= |s.leases|
    decreases |s.queue|
  {
    if s.running < c.concurrency && s.queue != [] then
      assert s.queue[0] in s.queue && forall w :: w in s.queue[1..] ==> w in s.queue;
      Drain(c, ServeHead(s))
    else s
  }

  /** Releasing an open lease frees its slot and serves the queue; releasing it again does nothing. */
  function Release(c: Config, s: KeyState, lease: nat): (r: KeyState)
    requires InRange(s) && lease < |s.leases|
    ensures InRange(r) && |r.waiters| == |s.waiters| && |r.leases| >= |s.leases|
  {
    if s.leases[lease] then s
    else
      Drain(c, s.(leases := s.leases[lease := true], running := if s.running > 0 then s.running - 1 else s.running,
                  released := s.released + 1))
  }

  /** The signal of waiter w becomes aborted; its listener runs in a separate step. */
  function SignalAborts(s: KeyState, w: nat): KeyState
    requires w < |s.waiters|
  {
    s.(waiters := s.waiters[w := s.waiters[w].(aborted := true)])
  }

  function AbortListener(s: KeyState, w: nat): KeyState
    requires w < |s.waiters|
  {
    s.(queue := Without(s.queue, w), waiters := s.waiters[w := Settled(s.waiters[w], Aborted)],
       abortedWhileQueued := s.abortedWhileQueued + 1)
  }

  function QueueTimeout(s: KeyState, w: nat): KeyState
    requires w < |s.waiters|
  {
    s.(queue := Without(s.queue, w), waiters := s.waiters[w := Settled(s.waiters[w], TimedOut)],
       queueTimeouts := s.queueTimeouts + 1)
  }

  // ----- the invariant -----

  predicate WasGranted(w: Waiter) { w.outcome.Granted? }
  predicate WasAborted(w: Waiter) { w.outcome.Aborted? }
  predicate WasTimedOut(w: Waiter) { w.outcome.TimedOut? }
  predicate IsQueued(w: Waiter) { w.outcome.Queued? }
  predicate IsOpen(lease: bool) { !lease }

  /** Capacity, queue bound, and no idle slot while somebody waits. */
  ghost predicate Bounded(c: Config, s: KeyState) {
    && s.running <= c.concurrency && |s.queue| <= c.maxQueue
    && (s.queue != [] ==> s.running == c.concurrency)
  }

  /** The counters are the numbers of leases and waiters of each kind. */
  ghost predicate Counted(s: KeyState) {
    && s.running == Count(s.leases, IsOpen)
    && s.acquired == |s.leases| && s.acquired == s.released + s.running
    && s.abortedWhileQueued == Count(s.waiters, WasAborted)
    && s.queueTimeouts == Count(s.waiters, WasTimedOut)
    && |s.queue| == Count(s.waiters, IsQueued)
  }

  /** The queue is the unsettled waiters in order of arrival, and exactly those still have their listener. */
  ghost predicate InOrder(s: KeyState) {
    && (forall i, j :: 0 <= i < j < |s.queue| ==> s.queue[i] < s.queue[j])
    && (forall w {:trigger w in s.queue} :: w in s.queue ==> w < |s.waiters| && IsQueued(s.waiters[w]))
    && (forall w {:trigger s.waiters[w]} :: 0 <= w < |s.waiters| ==>
          && (IsQueued(s.waiters[w]) <==> w in s.queue)
          && s.waiters[w].listening == IsQueued(s.waiters[w])
          && (s.waiters[w].timer ==> IsQueued(s.waiters[w])))
  }

  /** First come, first served: grants follow arrival, and nobody is granted past a waiter still queued. */
  ghost predicate Fair(s: KeyState) {
    && (forall w {:trigger s.waiters[w]} :: 0 <= w < |s.waiters| && WasGranted(s.waiters[w]) ==>
          s.waiters[w].outcome.lease < |s.leases|)
    && (forall v, w {:trigger s.waiters[v], s.waiters[w]} :: 0 <= v < w < |s.waiters| && WasGranted(s.waiters[w]) ==>
          && !IsQueued(s.waiters[v])
          && (WasGranted(s.waiters[v]) ==> s.waiters[v].outcome.lease < s.waiters[w].outcome.lease))
  }

  /** Where queue timeouts are configured, those who wait have theirs, and nobody else does. */
  ghost predicate Timed(c: Config, s: KeyState) {
    forall w {:trigger s.waiters[w]} :: 0 <= w < |s.waiters| ==>
      (s.waiters[w].timer <==> IsQueued(s.waiters[w]) && c.queueTimeout)
  }

  ghost predicate Inv(c: Config, s: KeyState) {
    c.concurrency >= 1 && Bounded(c, s) && Counted(s) && InOrder(s) && Fair(s) && Timed(c, s)
  }

  // ----- every operation keeps the invariant -----

  lemma IssueKeeps(c: Config, s: KeyState)
    requires Inv(c, s) && s.running < c.concurrency
    ensures Inv(c, Issue(s))
  {
    CountAppend(s.leases, false, IsOpen);
  }

  lemma EnqueueKeeps(c: Config, s: KeyState)
    requires Inv(c, s) && s.running == c.concurrency && |s.queue| < c.maxQueue
    ensures Inv(c, Acquire(c, s, false).0)
  {
    var w := Waiter(false, true, c.queueTimeout, Queued);
    CountAppend(s.waiters, w, WasAborted);
    CountAppend(s.waiters, w, WasTimedOut);
    CountAppend(s.waiters, w, IsQueued);
    EnqueueKeepsOrder(s, w);
  }

  lemma EnqueueKeepsOrder(s: KeyState, w: Waiter)
    requires InOrder(s) && Fair(s) && w.outcome.Queued? && w.listening
    ensures
      var s' := s.(queue := s.queue + [|s.waiters|], waiters := s.waiters + [w]);
      InOrder(s') && Fair(s')
  {
    var queue := s.queue + [|s.waiters|];
    assert forall v :: v in queue <==> v in s.queue || v == |s.waiters|;
    assert forall i :: 0 <= i < |s.queue| ==> queue[i] in s.queue;
  }

  lemma AcquireKeeps(c: Config, s: KeyState, aborted: bool)
    requires Inv(c, s)
    ensures Inv(c, TryAcquireSync(c, s, aborted).0) && Inv(c, Acquire(c, s, aborted).0)
  {
    if s.running < c.concurrency {
      IssueKeeps(c, s);
    } else if |s.queue| < c.maxQueue {
      EnqueueKeeps(c, s);
    }
  }

  lemma {:induction false} LeaveFacts(queue: seq<nat>, w: nat)
    requires w in queue && forall i, j :: 0 <= i < j < |queue| ==> queue[i] < queue[j]
    ensures |Without(queue, w)| == |queue| - 1
    ensures forall i, j :: 0 <= i < j < |Without(queue, w)| ==> Without(queue, w)[i] < Without(queue, w)[j]
    ensures forall v :: v in Without(queue, w) <==> v in queue && v != w
  {
    assert forall v :: v in queue <==> v == queue[0] || v in queue[1..];
    assert forall v :: v in queue[1..] ==> v > queue[0];
    if queue[0] != w {
      LeaveFacts(queue[1..], w);
      var rest := Without(queue[1..], w);
      assert forall j :: 0 <= j < |rest| ==> rest[j] in rest;
    }
  }

  lemma SettleCounts(s: KeyState, w: nat, outcome: Outcome)
    requires w < |s.waiters| && IsQueued(s.waiters[w]) && !outcome.Queued?
    ensures
      var waiters := s.waiters[w := Settled(s.waiters[w], outcome)];
      && Count(waiters, IsQueued) == Count(s.waiters, IsQueued) - 1
      && Count(waiters, WasAborted) == Count(s.waiters, WasAborted) + (if outcome.Aborted? then 1 else 0)
      && Count(waiters, WasTimedOut) == Count(s.waiters, WasTimedOut) + (if outcome.TimedOut? then 1 else 0)
  {
    CountUpdate(s.waiters, w, Settled(s.waiters[w], outcome), IsQueued);
    CountUpdate(s.waiters, w, Settled(s.waiters[w], outcome), WasAborted);
    CountUpdate(s.waiters, w, Settled(s.waiters[w], outcome), WasTimedOut);
  }

  lemma LeavingKeepsOrder(c: Config, s: KeyState, t: KeyState, w: nat, outcome: Outcome)
    requires InOrder(s) && Fair(s) && Timed(c, s) && w in s.queue && w < |s.waiters| && !outcome.Queued? && !outcome.Granted?
    requires t.queue == Without(s.queue, w) && t.waiters == s.waiters[w := Settled(s.waiters[w], outcome)]
    requires t.leases == s.leases
    ensures InOrder(t) && Fair(t) && Timed(c, t) && |t.queue| == |s.queue| - 1
  {
    LeaveFacts(s.queue, w);
  }

  lemma LeavingKeepsCounts(s: KeyState, w: nat)
    requires Counted(s) && InOrder(s) && w in s.queue && w < |s.waiters|
    ensures Counted(AbortListener(s, w)) && Counted(QueueTimeout(s, w))
  {
    LeaveFacts(s.queue, w);
    SettleCounts(s, w, Aborted);
    SettleCounts(s, w, TimedOut);
  }

  lemma LeavingKeeps(c: Config, s: KeyState, w: nat)
    requires Inv(c, s) && w < |s.waiters| && s.waiters[w].listening
    ensures Inv(c, AbortListener(s, w)) && Inv(c, QueueTimeout(s, w))
  {
    hide Counted, Fair, Timed, Count;
    LeavingKeepsOrder(c, s, AbortListener(s, w), w, Aborted);
    LeavingKeepsOrder(c, s, QueueTimeout(s, w), w, TimedOut);
    LeavingKeepsCounts(s, w);
  }

  lemma SignalKeeps(c: Config, s: KeyState, w: nat)
    requires Inv(c, s) && w < |s.waiters|
    ensures Inv(c, SignalAborts(s, w))
  {
    CountSame(s.waiters, SignalAborts(s, w).waiters, WasAborted);
    CountSame(s.waiters, SignalAborts(s, w).waiters, WasTimedOut);
    CountSame(s.waiters, SignalAborts(s, w).waiters, IsQueued);
  }

  /** The invariant without work conservation, which is suspended while a release serves the queue. */
  ghost predicate Draining(c: Config, s: KeyState) {
    && c.concurrency >= 1 && s.running <= c.concurrency && |s.queue| <= c.maxQueue
    && Counted(s) && InOrder(s) && Fair(s) && Timed(c, s)
  }

  lemma ServeHeadKeepsCounts(s: KeyState)
    requires s.queue != [] && Counted(s) && InOrder(s)
    ensures s.queue[0] < |s.waiters| && Counted(ServeHead(s))
  {
    var w := s.queue[0];
    assert w in s.queue;
    SettleCounts(s, w, Aborted);
    SettleCounts(s, w, Granted(|s.leases|));
    CountAppend(s.leases, false, IsOpen);
  }

  lemma ServeHeadKeepsOrder(s: KeyState)
    requires s.queue != [] && InOrder(s)
    ensures s.queue[0] < |s.waiters| && InOrder(ServeHead(s))
  {
    var w, rest := s.queue[0], s.queue[1..];
    assert w in s.queue;
    assert forall v :: v in s.queue <==> v == w || v in rest;
    assert w !in rest;
  }

  lemma ServeHeadIsFair(s: KeyState)
    requires s.queue != [] && InOrder(s) && Fair(s)
    ensures s.queue[0] < |s.waiters| && Fair(ServeHead(s))
  {
    var w := s.queue[0];
    assert w in s.queue;
    assert forall v :: v in s.queue ==> v >= w;
  }

  lemma ServeHeadKeeps(c: Config, s: KeyState)
    requires Draining(c, s) && s.queue != [] && s.running < c.concurrency
    ensures s.queue[0] < |s.waiters| && Draining(c, ServeHead(s))
  {
    ServeHeadKeepsCounts(s);
    ServeHeadKeepsOrder(s);
    ServeHeadIsFair(s);
  }

  lemma {:induction false} DrainKeeps(c: Config, s: KeyState)
    requires Draining(c, s)
    ensures Inv(c, Drain(c, s))
    decreases |s.queue|
  {
    if s.running < c.concurrency && s.queue != [] {
      ServeHeadKeeps(c, s);
      DrainKeeps(c, ServeHead(s));
    }
  }

  /** Releasing keeps the invariant, and the guard on running never bites: an open lease means running > 0. */
  lemma ReleaseKeeps(c: Config, s: KeyState, lease: nat)
    requires Inv(c, s) && lease < |s.leases|
    ensures Inv(c, Release(c, s, lease))
    ensures !s.leases[lease] ==> s.running > 0
  {
    hide Drain, Count, IsQueued, WasGranted;
    if !s.leases[lease] {
      CountUpdate(s.leases, lease, true, IsOpen);
      DrainKeeps(c, s.(leases := s.leases[lease := true], running := s.running - 1, released := s.released + 1));
    }
  }

  // ----- what one call promises -----

  /** What an acquire answers: a new lease while there is room, a place at the end of the queue with its listener and its
      timer, or a rejection, which is counted; an aborted signal is turned away unseen. */
  lemma AcquireAnswers(c: Config, s: KeyState, aborted: bool)
    ensures
      var (t, a) := Acquire(c, s, aborted);
      var full := s.running >= c.concurrency;
      && (a.AbortedAtOnce? <==> aborted)
      && (a.AbortedAtOnce? ==> t == s)
      && (a.Leased? <==> !aborted && !full)
      && (a.Leased? ==> a.lease == |s.leases| && t.leases == s.leases + [false] && t.running == s.running + 1
                        && t == s.(leases := t.leases, running := t.running, acquired := s.acquired + 1))
      && (a.Enqueued? <==> !aborted && full && |s.queue| < c.maxQueue)
      && (a.Enqueued? ==> a.waiter == |s.waiters| && t == s.(queue := s.queue + [a.waiter], waiters := t.waiters)
                          && t.waiters == s.waiters + [Waiter(false, true, c.queueTimeout, Queued)])
      && (a.Rejected? <==> !aborted && full && |s.queue| >= c.maxQueue)
      && (a.Rejected? ==> t == s.(rejected := s.rejected + 1))
  {
  }

  /** The synchronous acquire answers with a lease exactly when the asynchronous one would at once, and does the same. */
  lemma SyncAnswers(c: Config, s: KeyState, aborted: bool)
    ensures
      var (t, lease) := TryAcquireSync(c, s, aborted);
      && (lease.Some? <==> !aborted && s.running < c.concurrency)
      && (lease.Some? ==> (t, Leased(lease.value)) == Acquire(c, s, aborted))
      && (lease.None? ==> t == s)
  {
  }

  /** Waiter w has left the queue with this outcome, and nothing else about anybody has changed. */
  ghost predicate Left(s: KeyState, t: KeyState, w: nat, outcome: Outcome) {
    && |t.waiters| == |s.waiters| && w < |s.waiters| && t.waiters[w].outcome == outcome
    && (forall v {:trigger t.waiters[v]} :: 0 <= v < |s.waiters| && v != w ==> t.waiters[v] == s.waiters[v])
    && (forall v {:trigger v in t.queue} {:trigger v in s.queue} :: v in t.queue <==> v in s.queue && v != w)
    && t.leases == s.leases && t.running == s.running && t.acquired == s.acquired && t.rejected == s.rejected
  }

  /** The listener of a waiter turns it away as aborted and its timer as timed out, each in its own counter. */
  lemma LeavingAnswers(c: Config, s: KeyState, w: nat)
    requires Inv(c, s) && w < |s.waiters| && s.waiters[w].listening
    ensures
      var t := AbortListener(s, w);
      Left(s, t, w, Aborted) && t.abortedWhileQueued == s.abortedWhileQueued + 1 && t.queueTimeouts == s.queueTimeouts
    ensures
      var t := QueueTimeout(s, w);
      Left(s, t, w, TimedOut) && t.queueTimeouts == s.queueTimeouts + 1 && t.abortedWhileQueued == s.abortedWhileQueued
  {
    LeaveFacts(s.queue, w);
  }

  lemma SignalMarks(s: KeyState, w: nat)
    requires w < |s.waiters|
    ensures
      var t := SignalAborts(s, w);
      && |t.waiters| == |s.waiters| && t == s.(waiters := t.waiters) && t.waiters[w].aborted
      && t.waiters[w].outcome == s.waiters[w].outcome && t.waiters[w].listening == s.waiters[w].listening
      && forall v :: 0 <= v < |s.waiters| && v != w ==> t.waiters[v] == s.waiters[v]
  {
  }

  /** A lease counts once: its first release is counted, and a second does nothing. */
  lemma ReleaseCountsOnce(c: Config, s: KeyState, lease: nat)
    requires Inv(c, s) && lease < |s.leases|
    ensures InRange(s)
    ensures s.leases[lease] ==> Release(c, s, lease) == s
    ensures !s.leases[lease] ==> Release(c, s, lease).released == s.released + 1 && Release(c, s, lease).rejected == s.rejected
    ensures Release(c, s, lease).leases[lease]
  {
    InvInRange(c, s);
    if !s.leases[lease] {
      ReleaseKeeps(c, s, lease);
      DrainCounts(c, s.(leases := s.leases[lease := true], running := s.running - 1, released := s.released + 1));
    }
  }

  lemma {:induction false} DrainCounts(c: Config, s: KeyState)
    requires InRange(s)
    ensures var t := Drain(c, s); t.released == s.released && t.rejected == s.rejected && s.leases <= t.leases
    decreases |s.queue|
  {
    if s.running < c.concurrency && s.queue != [] {
      DrainCounts(c, ServeHeadInRange(s));
    }
  }

  /** A synchronous acquire takes a slot only when nobody is waiting. */
  lemma SyncNeverOvertakes(c: Config, s: KeyState, aborted: bool)
    requires Inv(c, s) && TryAcquireSync(c, s, aborted).1.Some?
    ensures s.queue == [] && !aborted && TryAcquireSync(c, s, aborted).0.queue == []
  {
  }

  /** The position in the queue of the first waiter whose signal is not aborted; |queue| when there is none. */
  function FirstLive(s: KeyState): (k: nat)
    requires InRange(s)
    ensures k <= |s.queue|
    ensures forall i :: 0 <= i < k ==> s.queue[i] < |s.waiters| && s.waiters[s.queue[i]].aborted
    ensures k < |s.queue| ==> s.queue[k] < |s.waiters| && !s.waiters[s.queue[k]].aborted
    decreases |s.queue|
  {
    if s.queue == [] then 0
    else
      assert s.queue[0] in s.queue && forall w :: w in s.queue[1..] ==> w in s.queue;
      if !s.waiters[s.queue[0]].aborted then 0 else FirstLive(s.(queue := s.queue[1..])) + 1
  }

  /** One freed slot goes to the first waiter whose signal is live; aborted ones ahead of it are turned away; everybody
      behind keeps waiting. */
  ghost predicate ServedFirstLive(s: KeyState, s': KeyState)
    requires InRange(s)
  {
    |s'.waiters| == |s.waiters| && ServedAt(s, s', FirstLive(s))
  }

  ghost predicate ServedAt(s: KeyState, s': KeyState, k: nat)
    requires k <= |s.queue| && |s'.waiters| == |s.waiters| && forall i :: 0 <= i < k ==> s.queue[i] < |s.waiters|
    requires k < |s.queue| ==> s.queue[k] < |s.waiters|
  {
    && s'.queue == (if k < |s.queue| then s.queue[k + 1..] else [])
    && s'.running == (if k < |s.queue| then s.running + 1 else s.running)
    && s'.leases == (if k < |s.queue| then s.leases + [false] else s.leases)
    && (k < |s.queue| ==> s'.waiters[s.queue[k]].outcome == Granted(|s.leases|))
    && TurnedAway(s, s', k)
    && OthersSame(s, s', if k < |s.queue| then k + 1 else k)
  }

  ghost predicate TurnedAway(s: KeyState, s': KeyState, k: nat)
    requires k <= |s.queue| && |s'.waiters| == |s.waiters| && forall i :: 0 <= i < k ==> s.queue[i] < |s.waiters|
  {
    forall i {:trigger s.queue[i]} :: 0 <= i < k ==> s'.waiters[s.queue[i]].outcome == Aborted
  }

  ghost predicate OthersSame(s: KeyState, s': KeyState, m: nat)
    requires m <= |s.queue| && |s'.waiters| == |s.waiters|
  {
    forall w {:trigger s'.waiters[w]} :: 0 <= w < |s.waiters| && w !in s.queue[..m] ==> s'.waiters[w] == s.waiters[w]
  }

  lemma {:induction false} DrainServesFirstLive(c: Config, s: KeyState)
    requires InRange(s) && s.running + 1 == c.concurrency && NoDuplicates(s.queue)
    ensures ServedFirstLive(s, Drain(c, s))
    decreases |s.queue|
  {
    if s.queue != [] {
      var t := ServeHeadInRange(s);
      if s.waiters[s.queue[0]].aborted {
        DrainServesFirstLive(c, t);
        TurnedAwayFirst(s, t, Drain(c, t));
      } else {
        assert Drain(c, s) == t;
        assert s.queue[..1] == [s.queue[0]];
      }
    }
  }

  lemma TurnedAwayFirst(s: KeyState, t: KeyState, s': KeyState)
    requires InRange(s) && s.queue != [] && NoDuplicates(s.queue) && InRange(t)
    requires s.queue[0] < |s.waiters| && s.waiters[s.queue[0]].aborted
    requires t == s.(queue := s.queue[1..], abortedWhileQueued := s.abortedWhileQueued + 1,
                     waiters := s.waiters[s.queue[0] := Settled(s.waiters[s.queue[0]], Aborted)])
    requires ServedFirstLive(t, s')
    ensures ServedFirstLive(s, s')
  {
    hide FirstLive, ServedAt;
    FirstLiveShifts(s, t);
    ServedAfterFirst(s, t, s', FirstLive(t));
  }

  lemma ServedAfterFirst(s: KeyState, t: KeyState, s': KeyState, k: nat)
    requires s.queue != [] && NoDuplicates(s.queue) && InRange(s) && s.queue[0] < |s.waiters|
    requires t.queue == s.queue[1..] && t.running == s.running && t.leases == s.leases
    requires |t.waiters| == |s.waiters| && t.waiters == s.waiters[s.queue[0] := t.waiters[s.queue[0]]]
    requires t.waiters[s.queue[0]].outcome == Aborted
    requires k <= |t.queue| && |s'.waiters| == |t.waiters| && forall i :: 0 <= i < k ==> t.queue[i] < |t.waiters|
    requires k < |t.queue| ==> t.queue[k] < |t.waiters|
    requires ServedAt(t, s', k)
    ensures forall i :: 0 <= i < k + 1 ==> s.queue[i] < |s.waiters|
    ensures k < |t.queue| ==> s.queue[k + 1] < |s.waiters|
    ensures ServedAt(s, s', k + 1)
  {
    hide InRange, NoDuplicates, OthersSame, TurnedAway;
    HeadAndRest(s, t);
    OneMoreSame(s, t, s', if k < |t.queue| then k + 1 else k);
    OneMoreTurnedAway(s, t, s', k);
    TailsAgree(s.queue, k);
  }

  lemma TailsAgree(q: seq<nat>, k: nat)
    requires q != []
    ensures k < |q| - 1 ==> q[k + 2..] == q[1..][k + 1..] && q[k + 1] == q[1..][k]
  {
  }

  lemma HeadAndRest(s: KeyState, t: KeyState)
    requires s.queue != [] && NoDuplicates(s.queue) && t.queue == s.queue[1..]
    ensures s.queue[0] !in t.queue && forall i {:trigger t.queue[i]} :: 0 <= i < |t.queue| ==> s.queue[i + 1] == t.queue[i]
  {
  }

  lemma OneMoreTurnedAway(s: KeyState, t: KeyState, s': KeyState, k: nat)
    requires s.queue != [] && t.queue == s.queue[1..] && k <= |t.queue| && |s'.waiters| == |t.waiters| == |s.waiters|
    requires forall i :: 0 <= i < k ==> t.queue[i] < |t.waiters|
    requires s.queue[0] < |s.waiters| && s'.waiters[s.queue[0]].outcome == Aborted && TurnedAway(t, s', k)
    ensures (forall i :: 0 <= i < k + 1 ==> s.queue[i] < |s.waiters|) && TurnedAway(s, s', k + 1)
  {
    forall i {:trigger s.queue[i]} | 0 <= i < k + 1
      ensures s.queue[i] < |s.waiters| && s'.waiters[s.queue[i]].outcome == Aborted
    {
      if i > 0 { assert s.queue[i] == t.queue[i - 1]; }
    }
  }

  lemma OneMoreSame(s: KeyState, t: KeyState, s': KeyState, m: nat)
    requires InRange(s) && s.queue != [] && NoDuplicates(s.queue) && t.queue == s.queue[1..] && m <= |t.queue|
    requires s.queue[0] < |s.waiters| == |t.waiters| == |s'.waiters| && OthersSame(t, s', m)
    requires forall w :: 0 <= w < |s.waiters| && w != s.queue[0] ==> t.waiters[w] == s.waiters[w]
    ensures OthersSame(s, s', m + 1) && s'.waiters[s.queue[0]] == t.waiters[s.queue[0]]
  {
    assert s.queue[..m + 1] == [s.queue[0]] + t.queue[..m];
    assert s.queue[0] !in t.queue[..m];
  }

  function ServeHeadInRange(s: KeyState): (t: KeyState)
    requires InRange(s) && s.queue != []
    ensures InRange(t) && s.queue[0] < |s.waiters|
  {
    assert s.queue[0] in s.queue && forall w :: w in s.queue[1..] ==> w in s.queue;
    ServeHead(s)
  }

  lemma {:induction false} FirstLiveShifts(s: KeyState, t: KeyState)
    requires InRange(s) && InRange(t) && s.queue != [] && NoDuplicates(s.queue) && t.queue == s.queue[1..]
    requires s.queue[0] < |s.waiters| && s.waiters[s.queue[0]].aborted
    requires |t.waiters| == |s.waiters| && forall w :: 0 <= w < |s.waiters| ==> t.waiters[w].aborted == s.waiters[w].aborted
    ensures FirstLive(s) == FirstLive(t) + 1
  {
    FirstLiveSame(s.(queue := s.queue[1..]), t);
  }

  lemma {:induction false} FirstLiveSame(s: KeyState, t: KeyState)
    requires InRange(s) && InRange(t) && t.queue == s.queue
    requires |t.waiters| == |s.waiters| && forall w :: 0 <= w < |s.waiters| ==> t.waiters[w].aborted == s.waiters[w].aborted
    ensures FirstLive(s) == FirstLive(t)
    decreases |s.queue|
  {
    if s.queue != [] {
      assert s.queue[0] in s.queue && forall w :: w in s.queue[1..] ==> w in s.queue;
      FirstLiveSame(s.(queue := s.queue[1..]), t.(queue := t.queue[1..]));
    }
  }

  /** A release hands the freed slot to the longest-waiting live waiter, or frees it when there is none. */
  lemma ReleaseServesFirstLive(c: Config, s: KeyState, lease: nat)
    requires Inv(c, s) && lease < |s.leases| && !s.leases[lease]
    ensures s.running > 0
    ensures
      var freed := s.(leases := s.leases[lease := true], running := s.running - 1, released := s.released + 1);
      InRange(freed) && ServedFirstLive(freed, Release(c, s, lease))
  {
    hide ServedFirstLive, Drain, Counted, Fair;
    InvInRange(c, s);
    ReleaseKeeps(c, s, lease);
    var freed := s.(leases := s.leases[lease := true], running := s.running - 1, released := s.released + 1);
    if s.queue == [] {
      NobodyToServe(c, freed);
    } else {
      DrainServesFirstLive(c, freed);
    }
  }

  lemma NobodyToServe(c: Config, s: KeyState)
    requires InRange(s) && s.queue == []
    ensures ServedFirstLive(s, Drain(c, s))
  {
  }

  // ----- runs -----

  /** A listener runs once its signal is aborted, a timer while it is set; both only while attached. */
  datatype Event =
    | TrySync(aborted: bool)
    | AcquireAsync(aborted: bool)
    | ReleaseLease(lease: nat)
    | SignalAborted(waiter: nat)
    | ListenerRuns(waiter: nat)
    | TimerFires(waiter: nat)

  predicate Enabled(s: KeyState, e: Event) {
    match e
    case TrySync(_) => true
    case AcquireAsync(_) => true
    case ReleaseLease(lease) => lease < |s.leases|
    case SignalAborted(w) => w < |s.waiters|
    case ListenerRuns(w) => w < |s.waiters| && s.waiters[w].listening && s.waiters[w].aborted
    case TimerFires(w) => w < |s.waiters| && s.waiters[w].timer
  }

  function Next(c: Config, s: KeyState, e: Event): KeyState
    requires InRange(s) && Enabled(s, e)
  {
    match e
    case TrySync(aborted) => TryAcquireSync(c, s, aborted).0
    case AcquireAsync(aborted) => Acquire(c, s, aborted).0
    case ReleaseLease(lease) => Release(c, s, lease)
    case SignalAborted(w) => SignalAborts(s, w)
    case ListenerRuns(w) => AbortListener(s, w)
    case TimerFires(w) => QueueTimeout(s, w)
  }

  lemma StepKeeps(c: Config, s: KeyState, e: Event)
    requires Inv(c, s) && Enabled(s, e)
    ensures Inv(c, Next(c, s, e))
  {
    match e
    case TrySync(aborted) => AcquireKeeps(c, s, aborted);
    case AcquireAsync(aborted) => AcquireKeeps(c, s, aborted);
    case ReleaseLease(lease) => ReleaseKeeps(c, s, lease);
    case SignalAborted(w) => SignalKeeps(c, s, w);
    case ListenerRuns(w) => LeavingKeeps(c, s, w);
    case TimerFires(w) => LeavingKeeps(c, s, w);
  }

  lemma EmptyKeeps(c: Config)
    requires c.concurrency >= 1
    ensures Inv(c, EMPTY)
  {
  }

  lemma InvInRange(c: Config, s: KeyState)
    requires Inv(c, s)
    ensures InRange(s)
  {
  }

  /** One event; one that is not possible changes nothing. */
  ghost function Step(c: Config, s: KeyState, e: Event): KeyState {
    if InRange(s) && Enabled(s, e) then Next(c, s, e) else s
  }

  /** The state after a sequence of events. */
  ghost function After(c: Config, s: KeyState, es: seq<Event>): KeyState
    decreases |es|
  {
    if es == [] then s else After(c, Step(c, s, es[0]), es[1..])
  }

  lemma {:induction false} RunKeeps(c: Config, s: KeyState, es: seq<Event>)
    requires Inv(c, s)
    ensures Inv(c, After(c, s, es))
    decreases |es|
  {
    if es != [] {
      InvInRange(c, s);
      if Enabled(s, es[0]) {
        StepKeeps(c, s, es[0]);
      }
      RunKeeps(c, Step(c, s, es[0]), es[1..]);
    }
  }

  /** After any run from a state with the invariant, which the fresh state has: capacity and queue bounds, no idle slot
      while somebody waits, acquired minus released is running, the number of leases not yet released, and every waiter
      is granted, aborted, timed out or still queued. */
  lemma PoolSafety(c: Config, start: KeyState, es: seq<Event>)
    requires Inv(c, start)
    ensures
      var s := After(c, start, es);
      && s.running <= c.concurrency && |s.queue| <= c.maxQueue
      && (s.queue != [] ==> s.running == c.concurrency)
      && (forall w :: w in s.queue ==> w < |s.waiters| && s.waiters[w].listening && s.waiters[w].timer == c.queueTimeout)
      && s.acquired - s.released == s.running == Count(s.leases, IsOpen)
      && |s.waiters| == Count(s.waiters, WasGranted) + s.abortedWhileQueued + s.queueTimeouts + |s.queue|
  {
    RunKeeps(c, start, es);
    OutcomesPartition(After(c, start, es).waiters);
  }

  lemma {:induction false} OutcomesPartition(ws: seq<Waiter>)
    ensures |ws| == Count(ws, WasGranted) + Count(ws, WasAborted) + Count(ws, WasTimedOut) + Count(ws, IsQueued)
  {
    if ws != [] {
      OutcomesPartition(ws[..|ws| - 1]);
    }
  }

  /** Grants follow arrival after any run. */
  lemma PoolFairness(c: Config, start: KeyState, es: seq<Event>, v: nat, w: nat)
    requires Inv(c, start) && v < w
    ensures
      var s := After(c, start, es);
      w < |s.waiters| && s.waiters[w].outcome.Granted? ==>
        && !s.waiters[v].outcome.Queued?
        && (s.waiters[v].outcome.Granted? ==> s.waiters[v].outcome.lease < s.waiters[w].outcome.lease)
  {
    RunKeeps(c, start, es);
    var s := After(c, start, es);
    if w < |s.waiters| && s.waiters[w].outcome.Granted? {
      assert WasGranted(s.waiters[w]) && (IsQueued(s.waiters[v]) <==> s.waiters[v].outcome.Queued?);
    }
  }

  /** Settled waiters and released leases stay as they are. */
  ghost predicate Extends(s: KeyState, s': KeyState) {
    && |s.waiters| <= |s'.waiters| && |s.leases| <= |s'.leases|
    && (forall w {:trigger s'.waiters[w]} :: 0 <= w < |s.waiters| && !IsQueued(s.waiters[w]) ==>
          s'.waiters[w].outcome == s.waiters[w].outcome)
    && (forall l {:trigger s'.leases[l]} :: 0 <= l < |s.leases| && s.leases[l] ==> s'.leases[l])
  }

  lemma {:induction false} DrainExtends(c: Config, s: KeyState)
    requires InOrder(s) && InRange(s)
    ensures Extends(s, Drain(c, s))
    decreases |s.queue|
  {
    if s.running < c.concurrency && s.queue != [] {
      ServeHeadKeepsOrder(s);
      DrainExtends(c, ServeHead(s));
    }
  }

  lemma StepExtends(c: Config, s: KeyState, e: Event)
    requires InOrder(s) && InRange(s) && Enabled(s, e)
    ensures Extends(s, Next(c, s, e))
  {
    if e.ReleaseLease? && !s.leases[e.lease] {
      DrainExtends(c, s.(leases := s.leases[e.lease := true], running := if s.running > 0 then s.running - 1 else s.running,
                         released := s.released + 1));
    }
  }

  lemma ExtendsIsTransitive(a: KeyState, b: KeyState, c: KeyState)
    requires Extends(a, b) && Extends(b, c)
    ensures Extends(a, c)
  {
  }

  /** Over any run a waiter settles at most once and a released lease is never open again. */
  lemma {:induction false} SettledOnce(c: Config, s: KeyState, es: seq<Event>)
    requires Inv(c, s)
    ensures Extends(s, After(c, s, es))
    decreases |es|
  {
    if es != [] {
      var t := Step(c, s, es[0]);
      InvInRange(c, s);
      if Enabled(s, es[0]) {
        StepKeeps(c, s, es[0]);
        StepExtends(c, s, es[0]);
      }
      SettledOnce(c, t, es[1..]);
      ExtendsIsTransitive(s, t, After(c, t, es[1..]));
    }
  }
}
