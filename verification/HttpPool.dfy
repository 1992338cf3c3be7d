/** The HttpConcurrencyPool class of src/http/pool.ts with its TypeScript engine: one PoolState per key, changed in place.
    A waiter or lease is its position in the state of its key. */
module HttpPools {
  import opened Prelude
  import opened JsString
  import Spec = HttpPoolSpec

  class PoolState {
    const key: string
    var running: nat
    var queue: seq<nat>
    var acquired: nat
    var released: nat
    var rejected: nat
    var queueTimeouts: nat
    var abortedWhileQueued: nat
    var waiters: seq<Spec.Waiter>
    var leases: seq<bool>

    ghost function Model(): Spec.KeyState
      reads this
    {
      Spec.KeyState(running, queue, acquired, released, rejected, queueTimeouts, abortedWhileQueued, waiters, leases)
    }

    constructor (key: string)
      ensures this.key == key && Model() == Spec.EMPTY
    {
      this.key := key;
      running, queue, acquired, released, rejected, queueTimeouts, abortedWhileQueued := 0, [], 0, 0, 0, 0, 0;
      waiters, leases := [], [];
    }

    /** Counting a grant and making its lease. */
    method Issue() returns (lease: nat)
      modifies this
      ensures Model() == Spec.Issue(old(Model())) && lease == |old(leases)|
    {
      running := running + 1;
      acquired := acquired + 1;
      lease := |leases|;
      leases := leases + [false];
    }

    method TryAcquireSync(c: Spec.Config, aborted: bool) returns (lease: Option<nat>)
      modifies this
      ensures (Model(), lease) == Spec.TryAcquireSync(c, old(Model()), aborted)
    {
      if aborted {
        return None;
      }
      if running < c.concurrency {
        var l := Issue();
        return Some(l);
      }
      lease := None;
    }

    method Acquire(c: Spec.Config, aborted: bool) returns (r: Spec.Acquired)
      modifies this
      ensures (Model(), r) == Spec.Acquire(c, old(Model()), aborted)
    {
      if aborted {
        return Spec.AbortedAtOnce;
      }
      if running < c.concurrency {
        var l := Issue();
        return Spec.Leased(l);
      }
      if |queue| >= c.maxQueue {
        rejected := rejected + 1;
        return Spec.Rejected;
      }
      var w := |waiters|;
      waiters := waiters + [Spec.Waiter(false, true, c.queueTimeout, Spec.Queued)];
      queue := queue + [w];
      r := Spec.Enqueued(w);
    }

    method CleanupWaiter(w: nat)
      requires w < |waiters|
      modifies this`waiters
      ensures waiters == old(waiters)[w := old(waiters)[w].(listening := false, timer := false)]
    {
      if waiters[w].timer {
        waiters := waiters[w := waiters[w].(timer := false)];
      }
      if waiters[w].listening {
        waiters := waiters[w := waiters[w].(listening := false)];
      }
    }

    /** Settling the promise of a waiter. */
    method Settle(w: nat, outcome: Spec.Outcome)
      requires w < |waiters|
      modifies this`waiters
      ensures waiters == old(waiters)[w := old(waiters)[w].(outcome := outcome)]
    {
      waiters := waiters[w := waiters[w].(outcome := outcome)];
    }

    method RemoveWaiter(w: nat)
      modifies this`queue
      ensures queue == Without(old(queue), w)
    {
      var idx := 0;
      LeaveAbsent(queue, w);
      while idx < |queue| && queue[idx] != w
        invariant 0 <= idx <= |queue| && Without(queue, w) == queue[..idx] + Without(queue[idx..], w)
      {
        assert queue[idx..] == [queue[idx]] + queue[idx + 1..];
        idx := idx + 1;
      }
      if idx < |queue| {
        assert queue[idx..][1..] == queue[idx + 1..];
        queue := RemoveAt(queue, idx);
      } else {
        assert queue[idx..] == [];
      }
    }

    lemma LeaveAbsent(queue: seq<nat>, w: nat)
      ensures queue[..0] + Without(queue[0..], w) == Without(queue, w)
    {
      assert queue[0..] == queue;
    }

    /** The abort listener of a queued waiter. */
    method AbortListener(w: nat)
      requires w < |waiters|
      modifies this
      ensures Model() == Spec.AbortListener(old(Model()), w)
    {
      CleanupWaiter(w);
      RemoveWaiter(w);
      abortedWhileQueued := abortedWhileQueued + 1;
      Settle(w, Spec.Aborted);
    }

    /** The queue timeout of a waiter. */
    method QueueTimeout(w: nat)
      requires w < |waiters|
      modifies this
      ensures Model() == Spec.QueueTimeout(old(Model()), w)
    {
      CleanupWaiter(w);
      RemoveWaiter(w);
      queueTimeouts := queueTimeouts + 1;
      Settle(w, Spec.TimedOut);
    }

    method SignalAborts(w: nat)
      requires w < |waiters|
      modifies this`waiters
      ensures Model() == Spec.SignalAborts(old(Model()), w)
    {
      waiters := waiters[w := waiters[w].(aborted := true)];
    }

    /** The release function of a lease. */
    method Release(c: Spec.Config, lease: nat)
      requires Spec.InRange(Model()) && lease < |leases|
      modifies this
      ensures Model() == Spec.Release(c, old(Model()), lease)
    {
      if leases[lease] {
        return;
      }
      leases := leases[lease := true];
      if running > 0 {
        running := running - 1;
      }
      released := released + 1;
      Drain(c);
    }

    method Drain(c: Spec.Config)
      requires Spec.InRange(Model())
      modifies this
      ensures Model() == Spec.Drain(c, old(Model()))
    {
      while running < c.concurrency && |queue| > 0
        invariant Spec.InRange(Model()) && Spec.Drain(c, Model()) == Spec.Drain(c, old(Model()))
        decreases |queue|
      {
        ghost var before := Model();
        var w := queue[0];
        assert w in queue;
        queue := queue[1..];
        CleanupWaiter(w);
        if waiters[w].aborted {
          abortedWhileQueued := abortedWhileQueued + 1;
          Settle(w, Spec.Aborted);
        } else {
          var lease := Issue();
          Settle(w, Spec.Granted(lease));
        }
        assert Model() == Spec.ServeHead(before);
        assert forall v :: v in queue ==> v in before.queue;
      }
    }
  }

  /** A numeric setting: absent, not a finite number, or finite. */
  datatype Setting = Unset | NotFinite | Number(value: real)

  function ClampInt(n: Setting, fallback: nat, min: nat): (r: nat)
    requires fallback >= min
    ensures !n.Number? ==> r == fallback
    ensures n.Number? && n.value < min as real ==> r == min
    ensures n.Number? && n.value >= min as real ==> min <= r && r as real <= n.value < r as real + 1.0
  {
    if n.Number? then (if n.value.Floor < min then min else n.value.Floor) else fallback
  }

  function NormalKey(key: string): (k: string)
    ensures 1 <= |k| <= 160
  {
    var k := Slice(Trim(key), 160);
    if k == "" then "global" else k
  }

  /** Keys differ unless they are the same in their first 160 characters once the blanks around them are gone; a blank key
      is that of everybody. */
  lemma NormalKeyIs(a: string, t: string, b: string)
    requires AllSpace(a) && AllSpace(b) && (t == [] || (!IsSpace(t[0]) && !IsSpace(t[|t| - 1])))
    ensures t != "" ==> NormalKey(a + t + b) == (if |t| <= 160 then t else t[..160])
    ensures t == "" ==> NormalKey(a + t + b) == "global"
  {
    TrimOfPadded(a, t, b);
  }

  /** The states of all keys used so far. */
  type Keys = map<string, Spec.KeyState>

  function At(keys: Keys, k: string): Spec.KeyState {
    if k in keys then keys[k] else Spec.EMPTY
  }

  ghost predicate Lawful(c: Spec.Config, keys: Keys) {
    forall k {:trigger keys[k]} :: k in keys ==> Spec.Inv(c, keys[k])
  }

  lemma LawfulAt(c: Spec.Config, keys: Keys, k: string)
    requires c.concurrency >= 1 && Lawful(c, keys)
    ensures Spec.Inv(c, At(keys, k))
  {
    if k in keys {
      assert Spec.Inv(c, keys[k]);
    } else {
      Spec.EmptyKeeps(c);
    }
  }

  /** Any step of one key keeps the invariant of every key. */
  lemma LawfulStep(c: Spec.Config, keys: Keys, k: string, e: Spec.Event)
    requires c.concurrency >= 1 && Lawful(c, keys) && Spec.Enabled(At(keys, k), e)
    ensures Spec.InRange(At(keys, k)) && Lawful(c, keys[k := Spec.Next(c, At(keys, k), e)])
  {
    LawfulAt(c, keys, k);
    LawfulNext(c, keys, k, At(keys, k), e);
  }

  lemma LawfulNext(c: Spec.Config, keys: Keys, k: string, s: Spec.KeyState, e: Spec.Event)
    requires Lawful(c, keys) && Spec.Inv(c, s) && Spec.Enabled(s, e)
    ensures Spec.InRange(s) && Lawful(c, keys[k := Spec.Next(c, s, e)])
  {
    Spec.InvInRange(c, s);
    Spec.StepKeeps(c, s, e);
    LawfulUpdate(c, keys, k, Spec.Next(c, s, e));
  }

  lemma LawfulUpdate(c: Spec.Config, keys: Keys, k: string, s: Spec.KeyState)
    requires Lawful(c, keys) && Spec.Inv(c, s)
    ensures Lawful(c, keys[k := s])
  {
  }

  class HttpConcurrencyPool {
    const concurrency: nat
    const maxQueue: nat
    const queueTimeoutMs: Option<nat>
    var states: map<string, PoolState>

    function Conf(): Spec.Config {
      Spec.Config(concurrency, maxQueue, queueTimeoutMs.Some? && queueTimeoutMs.value > 0)
    }

    /** Different keys have different states. */
    ghost predicate Separate()
      reads this
    {
      forall k, k' {:trigger states[k], states[k']} :: k in states && k' in states && k != k' ==> states[k] != states[k']
    }

    ghost function Model(): Keys
      reads this, states.Values
    {
      map k | k in states :: states[k].Model()
    }

    /** When only the state of k has changed, the states of all keys are those before with that one replaced. */
    twostate lemma OnlyOneChanges(k: string)
      requires Separate() && states == old(states) && k in states
      requires forall j {:trigger states[j]} :: j in states && states[j] != states[k] ==> unchanged(states[j])
      ensures Model() == old(Model())[k := states[k].Model()]
    {
      forall j | j in states
        ensures Model()[j] == old(Model())[k := states[k].Model()][j]
      {
        assert j != k ==> states[j] != states[k];
      }
    }

    constructor (configuredConcurrency: Setting, configuredMaxQueue: Setting, configuredQueueTimeoutMs: Setting)
      ensures Separate() && concurrency >= 1 && Model() == map[] && Lawful(Conf(), Model())
      ensures concurrency == ClampInt(configuredConcurrency, 64, 1) && maxQueue == ClampInt(configuredMaxQueue, 256, 0)
      ensures Conf().queueTimeout <==> configuredQueueTimeoutMs.Number? && configuredQueueTimeoutMs.value >= 1.0
    {
      concurrency := ClampInt(configuredConcurrency, 64, 1);
      maxQueue := ClampInt(configuredMaxQueue, 256, 0);
      queueTimeoutMs := if configuredQueueTimeoutMs.Number? then Some(ClampInt(configuredQueueTimeoutMs, 0, 0)) else None;
      states := map[];
    }

    method GetState(key: string) returns (state: PoolState)
      requires Separate()
      modifies this`states
      ensures Separate() && NormalKey(key) in states && state == states[NormalKey(key)]
      ensures Model() == old(Model())[NormalKey(key) := At(old(Model()), NormalKey(key))]
      ensures fresh(states.Values - old(states.Values))
    {
      var k := NormalKey(key);
      if k in states {
        state := states[k];
      } else {
        state := new PoolState(k);
        states := states[k := state];
      }
    }

    method TryAcquireSync(key: string, aborted: bool) returns (lease: Option<nat>)
      requires Separate()
      modifies this, states.Values
      ensures Separate() && fresh(states.Values - old(states.Values))
      ensures
        var k := NormalKey(key);
        var r := Spec.TryAcquireSync(Conf(), At(old(Model()), k), aborted);
        lease == r.1 && Model() == if aborted then old(Model()) else old(Model())[k := r.0]
    {
      if aborted {
        return None;
      }
      var state := GetState(key);
      assert state.Model() == Model()[NormalKey(key)];
      label found:
      lease := state.TryAcquireSync(Conf(), aborted);
      OnlyOneChanges@found(NormalKey(key));
    }

    method Acquire(key: string, aborted: bool) returns (r: Spec.Acquired)
      requires Separate()
      modifies this, states.Values
      ensures Separate() && fresh(states.Values - old(states.Values))
      ensures
        var k := NormalKey(key);
        var a := Spec.Acquire(Conf(), At(old(Model()), k), aborted);
        r == a.1 && Model() == old(Model())[k := a.0]
    {
      var state := GetState(key);
      assert state.Model() == Model()[NormalKey(key)];
      label found:
      r := state.Acquire(Conf(), aborted);
      OnlyOneChanges@found(NormalKey(key));
    }

    method Release(k: string, lease: nat)
      requires Separate() && k in states && lease < |states[k].leases| && Spec.InRange(states[k].Model())
      modifies states.Values
      ensures Separate()
      ensures Model() == old(Model())[k := Spec.Release(Conf(), old(Model())[k], lease)]
    {
      states[k].Release(Conf(), lease);
      OnlyOneChanges(k);
    }

    method AbortListener(k: string, w: nat)
      requires Separate() && k in states && Spec.Enabled(Model()[k], Spec.ListenerRuns(w))
      modifies states.Values
      ensures Separate() && Model() == old(Model())[k := Spec.AbortListener(old(Model())[k], w)]
    {
      states[k].AbortListener(w);
      OnlyOneChanges(k);
    }

    method QueueTimeout(k: string, w: nat)
      requires Separate() && k in states && Spec.Enabled(Model()[k], Spec.TimerFires(w))
      modifies states.Values
      ensures Separate() && Model() == old(Model())[k := Spec.QueueTimeout(old(Model())[k], w)]
    {
      states[k].QueueTimeout(w);
      OnlyOneChanges(k);
    }

    method SignalAborts(k: string, w: nat)
      requires Separate() && k in states && w < |states[k].waiters|
      modifies states.Values
      ensures Separate() && Model() == old(Model())[k := Spec.SignalAborts(old(Model())[k], w)]
    {
      states[k].SignalAborts(w);
      OnlyOneChanges(k);
    }
  }
}
