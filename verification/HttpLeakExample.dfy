/** A run of two requests in which a permit is never given back: the grant of the second request is already posted when its
    external signal aborts, its transport is then started on the aborted signal and suspends, and the abort microtask
    finishes the request without releasing the lease it has taken meanwhile (src/http/client.ts:683-697, 877-882). */
module HttpLeakExample {
  import opened Prelude
  import opened HttpStatistics
  import opened HttpRequests
  import opened HttpPools
  import opened HttpClientRuns
  import Pool = HttpPoolSpec

  const CONFIG := Pool.Config(1, 1, false)
  const FIRST := Setup(Some("k"), false, false, OtherTag, false, Suspends(true))
  const SECOND := Setup(Some("k"), true, false, AbortTag, false, Suspends(true))

  const RUN := [
    Register(FIRST), Register(SECOND), StepOf(0, Complete(Success)), StepOf(1, SignalAborts(AbortTag, None)),
    StepOf(1, GrantTask(Suspends(true))), StepOf(1, AbortMicrotask)]

  /** The pool of the one key after n events. */
  function PoolAfter(n: nat): Pool.KeyState {
    if n == 0 then Pool.EMPTY
    else if n == 1 then Pool.KeyState(1, [], 1, 0, 0, 0, 0, [], [false])
    else if n == 2 then Pool.KeyState(1, [0], 1, 0, 0, 0, 0, [Pool.Waiter(false, true, false, Pool.Queued)], [false])
    else Pool.KeyState(1, [], 2, 1, 0, 0, 0, [Pool.Waiter(n > 3, false, false, Pool.Granted(1))], [true, false])
  }

  function FirstAfter(n: nat): Request {
    var q := Request(Some("k"), false, Some(0), NoWait, false, false, false, Pending, true, None, true, [], 0, false, false, true);
    if n < 3 then q else q.(done := true, transport := Answered, cancelInner := false, callbacks := [Success])
  }

  function SecondAfter(n: nat): Request {
    var q := Request(Some("k"), false, None, OnWaiter(0), false, true, false, Idle, false, None, true, [], 0, false, false, false);
    var a := q.(aborted := true, listening := false, abortTask := Some(AbortTask(AbortTag, false)));
    var g := a.(wait := NoWait, lease := Some(1), late := true, transport := Pending, cancelInner := true, given := true);
    if n < 4 then q else if n == 4 then a else if n == 5 then g
    else g.(abortTask := None, stranded := true, done := true, cancelInner := false, callbacks := [Failure(AbortTag)])
  }

  function StatsAfter(n: nat): Stats {
    if n == 0 then ZERO
    else if n == 1 then Stats(1, 1, 0, 0, 0, 0, 0, 0)
    else if n == 2 then Stats(2, 2, 0, 0, 0, 0, 0, 0)
    else if n < 6 then Stats(1, 2, 1, 0, 0, 0, 0, 0)
    else Stats(0, 2, 1, 0, 1, 0, 0, 0)
  }

  function SysAfter(n: nat): Sys {
    if n == 0 then START
    else Sys(map["k" := PoolAfter(n)], if n == 1 then [FirstAfter(1)] else [FirstAfter(n), SecondAfter(n)], StatsAfter(n))
  }

  lemma FirstJoins()
    ensures Pool.InRange(Pool.EMPTY) && Joined(CONFIG, Pool.EMPTY, ZERO, FIRST) == View(PoolAfter(1), FirstAfter(1), StatsAfter(1))
  {
    assert Pool.Issue(Pool.EMPTY) == PoolAfter(1);
  }

  lemma SecondJoins()
    ensures Pool.InRange(PoolAfter(1))
    ensures Joined(CONFIG, PoolAfter(1), StatsAfter(1), SECOND) == View(PoolAfter(2), SecondAfter(2), StatsAfter(2))
  {
    assert [] + [0] == [0];
  }

  lemma FirstCompletes()
    ensures InRange(View(PoolAfter(2), FirstAfter(2), StatsAfter(2)))
    ensures Answer(CONFIG, View(PoolAfter(2), FirstAfter(2), StatsAfter(2)), Success) ==
            View(PoolAfter(3), FirstAfter(3), StatsAfter(3))
  {
    var p := PoolAfter(2).(leases := [true], running := 0, released := 1);
    assert [false][0 := true] == [true];
    assert Pool.ServeHead(p) == PoolAfter(3);
    assert Pool.Drain(CONFIG, PoolAfter(3)) == PoolAfter(3);
  }

  lemma SecondAborts()
    ensures InRange(View(PoolAfter(3), SecondAfter(3), StatsAfter(3)))
    ensures ExternalAbort(CONFIG, View(PoolAfter(3), SecondAfter(3), StatsAfter(3)), AbortTag, None) ==
            View(PoolAfter(4), SecondAfter(4), StatsAfter(4))
  {
    assert Pool.SignalAborts(PoolAfter(3), 0) == PoolAfter(4);
  }

  lemma SecondStartsLate()
    ensures
      var v := View(PoolAfter(4), SecondAfter(4), StatsAfter(4));
      InRange(v) && GrantReady(v) && Grant(CONFIG, v, Suspends(true)) == View(PoolAfter(5), SecondAfter(5), StatsAfter(5))
  {
  }

  lemma SecondStrands()
    ensures RunAbortTask(View(PoolAfter(5), SecondAfter(5), StatsAfter(5))) == View(PoolAfter(6), SecondAfter(6), StatsAfter(6))
  {
  }

  lemma {:induction false} Reaches(n: nat)
    requires n <= 6
    ensures After(CONFIG, SysAfter(n), RUN[n..]) == SysAfter(6)
    decreases 6 - n
  {
    if n < 6 {
      assert RUN[n..][0] == RUN[n] && RUN[n..][1..] == RUN[n + 1..];
      Reaches(n + 1);
      StepAt(n);
    }
  }

  /** Event n takes the view of its request from its state after n events to its state after n + 1. */
  lemma StepView(n: nat)
    requires 2 <= n < 6
    ensures
      var r, step := RUN[n].request, RUN[n].step;
      var v := View(PoolAfter(n), if r == 0 then FirstAfter(n) else SecondAfter(n), StatsAfter(n));
      InRange(v) && Enabled(v, step) &&
      Next(CONFIG, v, step) == View(PoolAfter(n + 1), if r == 0 then FirstAfter(n + 1) else SecondAfter(n + 1), StatsAfter(n + 1))
  {
    match n
    case 2 => FirstCompletes();
    case 3 => SecondAborts();
    case 4 => SecondStartsLate();
    case 5 => SecondStrands();
  }

  lemma PutAt(n: nat, r: nat, v: View)
    requires 2 <= n < 6 && r < 2 && (r == 0 <==> n == 2)
    requires v == View(PoolAfter(n + 1), if r == 0 then FirstAfter(n + 1) else SecondAfter(n + 1), StatsAfter(n + 1))
    ensures Put(SysAfter(n), r, v) == SysAfter(n + 1)
  {
    assert Put(SysAfter(n), r, v).reqs == SysAfter(n + 1).reqs;
    assert map["k" := PoolAfter(n)]["k" := PoolAfter(n + 1)] == map["k" := PoolAfter(n + 1)];
  }

  lemma StepAt(n: nat)
    requires n < 6
    ensures Possible(SysAfter(n), RUN[n]) && NextOf(CONFIG, SysAfter(n), RUN[n]) == SysAfter(n + 1)
  {
    if n < 2 {
      JoinAt(n);
    } else {
      StepView(n);
      var r, step := RUN[n].request, RUN[n].step;
      var v := View(PoolAfter(n), if r == 0 then FirstAfter(n) else SecondAfter(n), StatsAfter(n));
      assert ViewOf(SysAfter(n), r) == v;
      PutAt(n, r, Next(CONFIG, v, step));
    }
  }

  lemma EnrolAt(n: nat)
    requires n < 2
    ensures
      var v := View(PoolAfter(n + 1), if n == 0 then FirstAfter(1) else SecondAfter(2), StatsAfter(n + 1));
      Enrol(SysAfter(n), v) == SysAfter(n + 1)
  {
    if n == 0 {
      assert [] + [FirstAfter(1)] == [FirstAfter(1)];
    } else {
      assert [FirstAfter(1)] + [SecondAfter(2)] == [FirstAfter(2), SecondAfter(2)];
      assert map["k" := PoolAfter(1)]["k" := PoolAfter(2)] == map["k" := PoolAfter(2)];
    }
  }

  lemma JoinView(n: nat)
    requires n < 2
    ensures RUN[n].Register? && Pool.InRange(PoolOf(SysAfter(n).keys, RUN[n].setup.key))
    ensures Joined(CONFIG, PoolOf(SysAfter(n).keys, RUN[n].setup.key), SysAfter(n).stats, RUN[n].setup) ==
            View(PoolAfter(n + 1), if n == 0 then FirstAfter(1) else SecondAfter(2), StatsAfter(n + 1))
  {
    if n == 0 {
      FirstJoins();
    } else {
      SecondJoins();
    }
  }

  lemma JoinAt(n: nat)
    requires n < 2
    ensures Possible(SysAfter(n), RUN[n]) && NextOf(CONFIG, SysAfter(n), RUN[n]) == SysAfter(n + 1)
  {
    JoinView(n);
    EnrolAt(n);
  }

  /** Everything is finished and nothing is left to run, but the key still counts one running permit. */
  ghost predicate Leaked(s: Sys) {
    Quiet(s) && "k" in s.keys && s.keys["k"].running == 1 && |s.reqs| == 2 && s.reqs[1].stranded
  }

  lemma EndsLeaked()
    ensures Leaked(SysAfter(6))
  {
    var s := SysAfter(6);
    assert ViewOf(s, 0) == View(PoolAfter(6), FirstAfter(6), StatsAfter(6));
    assert ViewOf(s, 1) == View(PoolAfter(6), SecondAfter(6), StatsAfter(6));
  }

  /** The run leaks a permit. */
  lemma LeaksAPermit()
    ensures Leaked(After(CONFIG, START, RUN))
  {
    Reaches(0);
    assert RUN[0..] == RUN;
    EndsLeaked();
  }
}
