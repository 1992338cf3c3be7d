/** When exactly a timer runs, if every tick comes on time: the tick is known when the timer is scheduled, and so is
    whether it runs within a tick of its deadline. */
module TimerWheelTiming {
  import opened Prelude
  import opened TimerWheelSpec

  /** The first tick after a wheel armed at a at which the deadline has come. */
  function FirstDue(tickMs: nat, a: real, deadline: real): (q: nat)
    requires tickMs >= 1
    ensures q >= 1
  {
    var q := Ceil((deadline - a) / tickMs as real);
    if q < 1 then 1 else q
  }

  /** The first tick from then on that visits the slot n ticks away. */
  function FirstVisit(slots: nat, tickMs: nat, a: real, n: nat, deadline: real): nat
    requires slots >= 1 && tickMs >= 1
  {
    var q := FirstDue(tickMs, a, deadline);
    q + (n - q) % slots
  }

  /** The time of the k-th tick after a wheel armed at a. */
  function TimeOf(tickMs: nat, a: real, k: int): real { a + (k * tickMs) as real }

  lemma FirstDueFacts(tickMs: nat, a: real, deadline: real, k: nat)
    requires tickMs >= 1 && k >= 1
    ensures TimeOf(tickMs, a, k) >= deadline <==> k >= FirstDue(tickMs, a, deadline)
  {
    CeilIsLeast(deadline - a, tickMs, k);
  }

  lemma CeilIsLeast(x: real, m: nat, k: int)
    requires m >= 1
    ensures (k * m) as real >= x <==> k >= Ceil(x / m as real)
  {
    var r := m as real;
    assert (k * m) as real == k as real * r;
    if k >= Ceil(x / r) {
      assert k as real >= x / r;
      assert k as real * r >= x / r * r;
      assert x / r * r == x;
    }
    if (k * m) as real >= x {
      assert k as real * r / r >= x / r;
      assert k as real * r / r == k as real;
    }
  }

  lemma NextResidue(q: nat, n: nat, slots: nat)
    requires slots >= 1
    ensures (q + (n - q) % slots) % slots == n % slots && 0 <= (n - q) % slots < slots
  {
    ModShift(n - q, q, slots);
  }

  lemma LeastResidue(q: nat, n: nat, slots: nat, k: nat)
    requires slots >= 1 && q <= k && k % slots == n % slots
    ensures k >= q + (n - q) % slots
  {
    ModShift(k, -(q as int), slots);
    ModShift(n, -(q as int), slots);
    assert (k - q) % slots == (n - q) % slots;
    assert k - q == (k - q) / slots * slots + (k - q) % slots;
    if k - q < (k - q) % slots {
      MultipleGrows((k - q) / slots, slots);
    }
  }

  /** The first visit is due, and it is the first tick that visits the slot and is due. */
  lemma FirstVisitIsLeast(slots: nat, tickMs: nat, a: real, n: nat, deadline: real, k: nat)
    requires slots >= 1 && tickMs >= 1
    ensures
      var v := FirstVisit(slots, tickMs, a, n, deadline);
      && v >= 1 && v % slots == n % slots && TimeOf(tickMs, a, v) >= deadline
      && (k >= 1 && k % slots == n % slots && TimeOf(tickMs, a, k) >= deadline ==> k >= v)
  {
    var q := FirstDue(tickMs, a, deadline);
    NextResidue(q, n, slots);
    FirstDueFacts(tickMs, a, deadline, FirstVisit(slots, tickMs, a, n, deadline));
    if k >= 1 && k % slots == n % slots && TimeOf(tickMs, a, k) >= deadline {
      FirstDueFacts(tickMs, a, deadline, k);
      LeastResidue(q, n, slots, k);
    }
  }

  // ----- runs in which the timeouts run on time -----

  /** Every coarse tick runs exactly its delay after the timeout was set. */
  ghost predicate OnTime(c: Config, w: Wheel, es: seq<Event>)
    decreases |es|
  {
    es == [] ||
    (&& (es[0].TickAt? && Enabled(c, w, es[0]) ==> es[0].clock == w.armedAt + c.tickMs as real)
     && OnTime(c, Step(c, w, es[0]), es[1..]))
  }

  /** The same of the fine ticks. */
  ghost predicate FineOnTime(c: Config, w: Wheel, es: seq<Event>)
    decreases |es|
  {
    es == [] ||
    (&& (es[0].FineTickAt? && Enabled(c, w, es[0]) ==> es[0].clock == w.fineArmedAt + c.fineTickMs as real)
     && FineOnTime(c, Step(c, w, es[0]), es[1..]))
  }

  function VisitOf(c: Config, a: real, t: Timer): nat
    requires ValidConfig(c)
  {
    FirstVisit(c.slots, c.tickMs, a, Ticks(c, t.timeoutMs), t.deadline)
  }

  /** Timer t was scheduled on a wheel armed at a: while pending it waits for its first visit, and it ran at no other tick. */
  ghost predicate Timely(c: Config, w: Wheel, a: real, t: Timer)
    requires ValidConfig(c)
  {
    && (t.fate.Pending? ==> w.ticks < t.bornTick + VisitOf(c, a, t) && w.armedAt == TimeOf(c.tickMs, a, w.ticks - t.bornTick))
    && (t.fate.Fired? ==>
          && t.fate.tick == t.bornTick + VisitOf(c, a, t) && t.fate.at == TimeOf(c.tickMs, a, VisitOf(c, a, t))
          && t.deadline - t.timeoutMs <= TimeOf(c.tickMs, a, 1))
  }

  lemma ShiftBothWays(b: nat, k: nat, m: nat)
    requires m >= 1
    ensures (k % m + b) % m == (b + k) % m && ((b + k) % m + -(b as int)) % m == k % m
  {
    ModShift(k, b, m);
    ModShift(b + k, -(b as int), m);
  }

  lemma SlotIsVisited(born: nat, k: nat, n: nat, slots: nat)
    requires slots >= 1
    ensures (born + k) % slots == (born + n) % slots <==> k % slots == n % slots
  {
    ShiftBothWays(born, k, slots);
    ShiftBothWays(born, n, slots);
  }

  /** One tick on time. */
  lemma TickIsTimely(c: Config, w: Wheel, w': Wheel, a: real, t: Timer, t': Timer)
    requires ValidConfig(c) && PunctualCoarse(c, w, t) && Timely(c, w, a, t)
    requires w'.ticks == w.ticks + 1 && w'.armedAt == w.armedAt + c.tickMs as real && w.clock <= w'.armedAt
    requires
      var due := t.fate.Pending? && w'.ticks % c.slots == t.slot && t.deadline <= w'.armedAt;
      t' == if due then t.(fate := Fired(w'.armedAt, w'.ticks)) else t
    ensures Timely(c, w', a, t')
  {
    if t.fate.Pending? {
      var k, n := w'.ticks - t.bornTick, Ticks(c, t.timeoutMs);
      OneMoreTimes(k - 1, c.tickMs);
      SlotIsVisited(t.bornTick, k, n, c.slots);
      FirstVisitIsLeast(c.slots, c.tickMs, a, n, t.deadline, k);
    }
  }

  /** Timer id is still there, the same but for its fate, and timely. */
  ghost predicate StaysTimely(c: Config, w: Wheel, w': Wheel, a: real, id: nat)
    requires ValidConfig(c) && id < |w.timers|
  {
    id < |w'.timers| && w'.timers[id] == w.timers[id].(fate := w'.timers[id].fate) && Timely(c, w', a, w'.timers[id])
  }

  lemma TickStaysTimely(c: Config, w: Wheel, clock: real, a: real, id: nat)
    requires Inv(c, w) && id < |w.timers| && !w.timers[id].fine && Timely(c, w, a, w.timers[id])
    requires clock == w.armedAt + c.tickMs as real && w.clock <= clock
    ensures StaysTimely(c, w, Tick(c, w, clock), a, id)
  {
    hide TickOn, WellLinked, Counted, Logged;
    var slot := (w.current + 1) % c.slots;
    NextSlot(c.slots, w.current, w.ticks);
    TickOnStaysTimely(c, w, slot, clock, a, id);
  }

  lemma TickOnStaysTimely(c: Config, w: Wheel, slot: nat, clock: real, a: real, id: nat)
    requires ValidConfig(c) && WellLinked(c, w) && id < |w.timers|
    requires PunctualCoarse(c, w, w.timers[id]) && !w.timers[id].fine && Timely(c, w, a, w.timers[id])
    requires slot < c.slots && slot == (w.ticks + 1) % c.slots && clock == w.armedAt + c.tickMs as real && w.clock <= clock
    ensures StaysTimely(c, w, TickOn(w, slot, clock), a, id)
  {
    TickFiresExactly(c, w, slot, clock, id);
    TickIsTimely(c, w, TickOn(w, slot, clock), a, w.timers[id], TickOn(w, slot, clock).timers[id]);
  }

  lemma FineTickStaysTimely(c: Config, w: Wheel, clock: real, a: real, id: nat)
    requires ValidConfig(c) && WellLinked(c, w) && id < |w.timers| && !w.timers[id].fine && Timely(c, w, a, w.timers[id])
    ensures StaysTimely(c, w, FineTick(w, clock), a, id)
  {
    FineTickFiresExactly(c, w, clock, id);
  }

  lemma ScheduleStaysTimely(c: Config, w: Wheel, clock: real, now: real, timeoutMs: real, a: real, id: nat)
    requires ValidConfig(c) && WellLinked(c, w) && Counted(w)
    requires id < |w.timers| && !w.timers[id].fine && Timely(c, w, a, w.timers[id])
    ensures StaysTimely(c, w, Schedule(c, w, clock, now, timeoutMs), a, id)
  {
    CountZero(w.timers, PendingCoarse);
  }

  lemma CancelStaysTimely(c: Config, w: Wheel, clock: real, cancelled: nat, a: real, id: nat)
    requires ValidConfig(c) && WellLinked(c, w) && cancelled < |w.timers|
    requires id < |w.timers| && !w.timers[id].fine && Timely(c, w, a, w.timers[id])
    ensures StaysTimely(c, w, Cancel(w, clock, cancelled), a, id)
  {
  }

  lemma DestroyStaysTimely(c: Config, w: Wheel, clock: real, a: real, id: nat)
    requires ValidConfig(c) && id < |w.timers| && !w.timers[id].fine && Timely(c, w, a, w.timers[id])
    ensures StaysTimely(c, w, Destroy(w, clock), a, id)
  {
  }

  lemma NextIsTimely(c: Config, w: Wheel, e: Event, a: real, id: nat)
    requires Inv(c, w) && Enabled(c, w, e)
    requires id < |w.timers| && !w.timers[id].fine && Timely(c, w, a, w.timers[id])
    requires e.TickAt? ==> e.clock == w.armedAt + c.tickMs as real
    ensures StaysTimely(c, w, Next(c, w, e), a, id)
  {
    match e
    case ScheduleAt(clock, now, timeoutMs) => ScheduleStaysTimely(c, w, clock, now, timeoutMs, a, id);
    case CancelAt(clock, x) => CancelStaysTimely(c, w, clock, x, a, id);
    case TickAt(clock) => TickStaysTimely(c, w, clock, a, id);
    case FineTickAt(clock) => FineTickStaysTimely(c, w, clock, a, id);
    case DestroyAt(clock) => DestroyStaysTimely(c, w, clock, a, id);
  }

  lemma StepInv(c: Config, w: Wheel, e: Event)
    requires Inv(c, w)
    ensures Inv(c, Step(c, w, e))
  {
    if Enabled(c, w, e) {
      StepKeeps(c, w, e);
    }
  }

  lemma {:induction false} RunIsTimely(c: Config, w: Wheel, es: seq<Event>, a: real, id: nat)
    requires Inv(c, w) && id < |w.timers| && !w.timers[id].fine && Timely(c, w, a, w.timers[id]) && OnTime(c, w, es)
    ensures StaysTimely(c, w, After(c, w, es), a, id)
    decreases |es|
  {
    if es != [] {
      if Enabled(c, w, es[0]) {
        NextIsTimely(c, w, es[0], a, id);
      }
      StepInv(c, w, es[0]);
      RunIsTimely(c, Step(c, w, es[0]), es[1..], a, id);
    }
  }

  // ----- what a caller of schedule can know -----

  /** The tick at which a coarse timer scheduled now is to run, counted from the tick it was scheduled after, on a wheel
      whose running timeout was set at a. */
  function RunsAfter(c: Config, a: real, now: real, timeoutMs: real): nat
    requires ValidConfig(c)
  {
    FirstVisit(c.slots, c.tickMs, a, Ticks(c, timeoutMs), now + timeoutMs)
  }

  lemma NewCoarse(c: Config, w: Wheel, clock: real, now: real, timeoutMs: real)
    requires Inv(c, w) && now <= clock && w.clock <= clock && timeoutMs > c.fineThresholdMs
    ensures
      var s, id := Schedule(c, w, clock, now, timeoutMs), |w.timers|;
      && Inv(c, s) && |s.timers| == id + 1 && s.ticks == w.ticks
      && s.timers[id] == Timer(timeoutMs, now + timeoutMs, SlotFor(c, w, timeoutMs), false, w.ticks, Pending)
  {
    ScheduleKeeps(c, w, clock, now, timeoutMs);
  }

  /** In every run whose ticks are on time, the timer runs at that tick and no other, and is not pending after it. */
  lemma RunsExactlyAt(c: Config, w: Wheel, clock: real, now: real, timeoutMs: real, es: seq<Event>)
    requires Inv(c, w) && now <= clock && w.clock <= clock && timeoutMs > c.fineThresholdMs
    requires OnTime(c, Schedule(c, w, clock, now, timeoutMs), es)
    ensures
      var s := Schedule(c, w, clock, now, timeoutMs);
      var w', k := After(c, s, es), RunsAfter(c, s.armedAt, now, timeoutMs);
      && |w.timers| < |w'.timers|
      && var fate := w'.timers[|w.timers|].fate;
      && (fate.Fired? ==> fate == Fired(TimeOf(c.tickMs, s.armedAt, k), w.ticks + k) && now <= TimeOf(c.tickMs, s.armedAt, 1))
      && (fate.Pending? ==> w'.ticks < w.ticks + k)
  {
    var s := Schedule(c, w, clock, now, timeoutMs);
    NewCoarse(c, w, clock, now, timeoutMs);
    FirstVisitIsLeast(c.slots, c.tickMs, s.armedAt, Ticks(c, timeoutMs), now + timeoutMs, 1);
    RunIsTimely(c, s, es, s.armedAt, |w.timers|);
  }

  lemma ResidueIs(q: nat, n: nat, slots: nat)
    requires slots >= 1
    ensures (n - q) % slots == 0 <==> q % slots == n % slots
    ensures slots >= 2 ==> ((n - q) % slots == 1 <==> (q + 1) % slots == n % slots)
  {
    var r := (n - q) % slots;
    NextResidue(q, n, slots);
    if q % slots == n % slots {
      LeastResidue(q, n, slots, q);
    }
    if slots >= 2 && (q + 1) % slots == n % slots {
      LeastResidue(q, n, slots, q + 1);
      if r == 0 {
        TwoResidues(q, slots);
      }
    }
  }

  lemma TwoResidues(q: nat, m: nat)
    requires m >= 2
    ensures (q + 1) % m != q % m
  {
    var d, d' := q / m, (q + 1) / m;
    if (q + 1) % m == q % m {
      assert (d' - d) * m == 1;
      MultipleGrows(d' - d, m);
    }
  }

  lemma OneTickLess(tickMs: nat, a: real, k: int)
    ensures TimeOf(tickMs, a, k) == TimeOf(tickMs, a, k - 1) + tickMs as real
  {
    OneMoreTimes(k - 1, tickMs);
  }

  /** The first visit comes less than a tick after the deadline iff the slot is visited at the first tick that is due; and
      no more than a tick after it iff it is visited then, or at the next tick while the first one meets the deadline. */
  lemma VisitWithinATick(slots: nat, tickMs: nat, a: real, n: nat, deadline: real)
    requires slots >= 1 && tickMs >= 1
    ensures
      var q, v := FirstDue(tickMs, a, deadline), FirstVisit(slots, tickMs, a, n, deadline);
      && (TimeOf(tickMs, a, v) < deadline + tickMs as real <==> a < deadline && q % slots == n % slots)
      && (TimeOf(tickMs, a, v) <= deadline + tickMs as real <==>
            a <= deadline && (q % slots == n % slots || ((q + 1) % slots == n % slots && TimeOf(tickMs, a, q) == deadline)))
  {
    var q := FirstDue(tickMs, a, deadline);
    var v := FirstVisit(slots, tickMs, a, n, deadline);
    ResidueIs(q, n, slots);
    NextResidue(q, n, slots);
    OneTickLess(tickMs, a, v);
    DueBetween(tickMs, a, deadline, v - 1);
    DueBetween(tickMs, a, deadline, q);
    if v >= q + 2 {
      Later(tickMs, a, q, v - 1);
    }
    if slots == 1 {
      assert q % 1 == n % 1 == 0;
    }
    Later(tickMs, a, 0, q);
  }

  lemma DueBetween(tickMs: nat, a: real, deadline: real, k: nat)
    requires tickMs >= 1
    ensures k >= 1 ==> (TimeOf(tickMs, a, k) >= deadline <==> k >= FirstDue(tickMs, a, deadline))
    ensures k >= 1 ==> TimeOf(tickMs, a, k) > a
    ensures TimeOf(tickMs, a, 0) == a
  {
    if k >= 1 {
      FirstDueFacts(tickMs, a, deadline, k);
      MultipleGrows(k, tickMs);
    }
  }

  lemma Later(tickMs: nat, a: real, j: nat, k: nat)
    requires tickMs >= 1 && j < k
    ensures TimeOf(tickMs, a, j) < TimeOf(tickMs, a, k)
  {
    MultipleGrows(k - j, tickMs);
    assert k * tickMs == j * tickMs + (k - j) * tickMs;
  }

  /** The slot of a coarse timer scheduled now is visited at the first tick that is due. */
  predicate DueOnVisit(c: Config, a: real, now: real, timeoutMs: real)
    requires ValidConfig(c)
  {
    FirstDue(c.tickMs, a, now + timeoutMs) % c.slots == Ticks(c, timeoutMs) % c.slots
  }

  /** It is visited a tick later, and the first tick that is due comes exactly at the deadline. */
  predicate DueBeforeVisit(c: Config, a: real, now: real, timeoutMs: real)
    requires ValidConfig(c)
  {
    var q := FirstDue(c.tickMs, a, now + timeoutMs);
    (q + 1) % c.slots == Ticks(c, timeoutMs) % c.slots && TimeOf(c.tickMs, a, q) == now + timeoutMs
  }

  lemma RunTimeWithinATick(c: Config, a: real, now: real, timeoutMs: real)
    requires ValidConfig(c)
    ensures
      var at, deadline := TimeOf(c.tickMs, a, RunsAfter(c, a, now, timeoutMs)), now + timeoutMs;
      && at >= deadline
      && (at < deadline + c.tickMs as real <==> a < deadline && DueOnVisit(c, a, now, timeoutMs))
      && (at <= deadline + c.tickMs as real <==>
            a <= deadline && (DueOnVisit(c, a, now, timeoutMs) || DueBeforeVisit(c, a, now, timeoutMs)))
  {
    VisitWithinATick(c.slots, c.tickMs, a, Ticks(c, timeoutMs), now + timeoutMs);
    FirstVisitIsLeast(c.slots, c.tickMs, a, Ticks(c, timeoutMs), now + timeoutMs, 1);
  }

  /** A coarse timer that runs does so less than a tick after its deadline iff, when it was scheduled, the wheel had been
      armed before the deadline and its slot is the one of the first tick that is due; and within a tick of it, the
      property its tests state, iff so or its slot comes next and that tick falls on the deadline. */
  lemma CoarseWithinATickIff(c: Config, w: Wheel, clock: real, now: real, timeoutMs: real, es: seq<Event>)
    requires Inv(c, w) && now <= clock && w.clock <= clock && timeoutMs > c.fineThresholdMs
    requires OnTime(c, Schedule(c, w, clock, now, timeoutMs), es)
    ensures
      var s := Schedule(c, w, clock, now, timeoutMs);
      var w', a, deadline := After(c, s, es), s.armedAt, now + timeoutMs;
      && |w.timers| < |w'.timers|
      && var fate := w'.timers[|w.timers|].fate;
      fate.Fired? ==>
        && fate.at >= deadline
        && (fate.at < deadline + c.tickMs as real <==> a < deadline && DueOnVisit(c, a, now, timeoutMs))
        && (fate.at <= deadline + c.tickMs as real <==>
              a <= deadline && (DueOnVisit(c, a, now, timeoutMs) || DueBeforeVisit(c, a, now, timeoutMs)))
  {
    RunTimeWithinATick(c, Schedule(c, w, clock, now, timeoutMs).armedAt, now, timeoutMs);
    RunsExactlyAt(c, w, clock, now, timeoutMs, es);
  }

  // ----- the usual call: a positive timeout, on a wheel armed no later than now -----

  /** The ticks a positive timeout asks for cover it, and one fewer does not. */
  lemma TicksAreTight(c: Config, timeoutMs: real)
    requires ValidConfig(c) && timeoutMs > 0.0
    ensures
      var n := Ticks(c, timeoutMs);
      (n * c.tickMs) as real >= timeoutMs && ((n - 1) * c.tickMs) as real < timeoutMs
  {
    var n := Ticks(c, timeoutMs);
    CeilIsLeast(timeoutMs, c.tickMs, n);
    CeilIsLeast(timeoutMs, c.tickMs, n - 1);
  }

  lemma MinusOne(n: nat, slots: nat)
    requires slots >= 1
    ensures (n - (n + 1)) % slots == slots - 1
  {
    ModUnique(-1, -1, slots - 1, slots);
  }

  /** The first tick that is due is the one the timeout asks for or the next. */
  lemma DueAtOrNext(c: Config, a: real, now: real, timeoutMs: real)
    requires ValidConfig(c) && a <= now <= TimeOf(c.tickMs, a, 1) && timeoutMs > 0.0
    ensures
      var n, q := Ticks(c, timeoutMs), FirstDue(c.tickMs, a, now + timeoutMs);
      && (q == n || q == n + 1)
      && (q == n <==> TimeOf(c.tickMs, a, n) >= now + timeoutMs)
  {
    var n := Ticks(c, timeoutMs);
    TicksAreTight(c, timeoutMs);
    OneMoreTimes(n, c.tickMs);
    FirstDueFacts(c.tickMs, a, now + timeoutMs, n);
    FirstDueFacts(c.tickMs, a, now + timeoutMs, n + 1);
    if n > 1 {
      FirstDueFacts(c.tickMs, a, now + timeoutMs, n - 1);
    }
  }

  lemma VisitAtOrARotationLater(c: Config, a: real, now: real, timeoutMs: real)
    requires ValidConfig(c) && a <= now <= TimeOf(c.tickMs, a, 1) && timeoutMs > 0.0
    ensures
      var n := Ticks(c, timeoutMs);
      RunsAfter(c, a, now, timeoutMs) == if TimeOf(c.tickMs, a, n) >= now + timeoutMs then n else n + c.slots
  {
    var n := Ticks(c, timeoutMs);
    DueAtOrNext(c, a, now, timeoutMs);
    MinusOne(n, c.slots);
    assert 0 % c.slots == 0 by { ModUnique(0, 0, 0, c.slots); }
  }

  /** A timer that runs does so at the tick its timeout asks for iff that tick comes at or after its deadline, and otherwise
      exactly a rotation later. With more than one slot it is less than a tick late iff now - a, the part of the running
      tick already gone, is no more than what rounding the timeout up to whole ticks has added. */
  lemma RunsThenOrARotationLater(c: Config, w: Wheel, clock: real, now: real, timeoutMs: real, es: seq<Event>)
    requires Inv(c, w) && now <= clock && w.clock <= clock && timeoutMs > c.fineThresholdMs
    requires OnTime(c, Schedule(c, w, clock, now, timeoutMs), es)
    requires timeoutMs > 0.0 && Schedule(c, w, clock, now, timeoutMs).armedAt <= now
    ensures
      var s := Schedule(c, w, clock, now, timeoutMs);
      var w', a, n := After(c, s, es), s.armedAt, Ticks(c, timeoutMs);
      && |w.timers| < |w'.timers|
      && var fate := w'.timers[|w.timers|].fate;
      fate.Fired? ==>
        && fate.tick == w.ticks + (if TimeOf(c.tickMs, a, n) >= now + timeoutMs then n else n + c.slots)
        && (c.slots >= 2 ==>
              (fate.at < now + timeoutMs + c.tickMs as real <==> now - a <= (n * c.tickMs) as real - timeoutMs))
  {
    var s := Schedule(c, w, clock, now, timeoutMs);
    var a, n := s.armedAt, Ticks(c, timeoutMs);
    RunsExactlyAt(c, w, clock, now, timeoutMs, es);
    if After(c, s, es).timers[|w.timers|].fate.Fired? {
      VisitAtOrARotationLater(c, a, now, timeoutMs);
      LateIff(c, a, now, timeoutMs);
    }
  }

  lemma LateIff(c: Config, a: real, now: real, timeoutMs: real)
    requires ValidConfig(c) && a <= now <= TimeOf(c.tickMs, a, 1) && timeoutMs > 0.0
    ensures c.slots >= 2 ==>
      (TimeOf(c.tickMs, a, RunsAfter(c, a, now, timeoutMs)) < now + timeoutMs + c.tickMs as real
       <==> now - a <= (Ticks(c, timeoutMs) * c.tickMs) as real - timeoutMs)
  {
    var n, q := Ticks(c, timeoutMs), FirstDue(c.tickMs, a, now + timeoutMs);
    DueAtOrNext(c, a, now, timeoutMs);
    VisitWithinATick(c.slots, c.tickMs, a, n, now + timeoutMs);
    if c.slots >= 2 {
      TwoResidues(n, c.slots);
    }
  }

  /** On a wheel with nothing pending, a timer scheduled at once runs less than a tick after its deadline: the case its
      tests try. */
  lemma IdleWheelIsPrompt(c: Config, w: Wheel, now: real, timeoutMs: real, es: seq<Event>)
    requires Inv(c, w) && !w.armed && w.clock <= now && timeoutMs > c.fineThresholdMs && timeoutMs > 0.0
    requires OnTime(c, Schedule(c, w, now, now, timeoutMs), es)
    ensures
      var s := Schedule(c, w, now, now, timeoutMs);
      var w' := After(c, s, es);
      && |w.timers| < |w'.timers|
      && var fate := w'.timers[|w.timers|].fate;
      fate.Fired? ==> now + timeoutMs <= fate.at < now + timeoutMs + c.tickMs as real
  {
    RunsExactlyAt(c, w, now, now, timeoutMs, es);
    PromptVisit(c, now, timeoutMs);
  }

  lemma PromptVisit(c: Config, now: real, timeoutMs: real)
    requires ValidConfig(c) && timeoutMs > 0.0
    ensures
      var at := TimeOf(c.tickMs, now, RunsAfter(c, now, now, timeoutMs));
      now + timeoutMs <= at < now + timeoutMs + c.tickMs as real
  {
    TicksAreTight(c, timeoutMs);
    OneMoreTimes(Ticks(c, timeoutMs) - 1, c.tickMs);
    VisitAtOrARotationLater(c, now, now, timeoutMs);
  }

  // ----- fine timers -----

  /** Fine timer t was scheduled on a fine list armed at a. */
  ghost predicate FineTimely(c: Config, w: Wheel, a: real, t: Timer)
    requires ValidConfig(c)
  {
    var k := FirstDue(c.fineTickMs, a, t.deadline);
    && t.bornTick <= w.fineTicks
    && (t.fate.Pending? ==>
          w.fineTicks < t.bornTick + k && w.fineArmedAt == TimeOf(c.fineTickMs, a, w.fineTicks - t.bornTick))
    && (t.fate.Fired? ==> t.fate == Fired(TimeOf(c.fineTickMs, a, k), t.bornTick + k))
  }

  lemma FineTickIsTimely(c: Config, w: Wheel, w': Wheel, a: real, t: Timer, t': Timer)
    requires ValidConfig(c) && FineTimely(c, w, a, t)
    requires w'.fineTicks == w.fineTicks + 1 && w'.fineArmedAt == w.fineArmedAt + c.fineTickMs as real
    requires
      var due := t.fate.Pending? && t.deadline <= w'.fineArmedAt;
      t' == if due then t.(fate := Fired(w'.fineArmedAt, w'.fineTicks)) else t
    ensures FineTimely(c, w', a, t')
  {
    if t.fate.Pending? {
      var k := w'.fineTicks - t.bornTick;
      OneMoreTimes(k - 1, c.fineTickMs);
      FirstDueFacts(c.fineTickMs, a, t.deadline, k);
    }
  }

  ghost predicate StaysFineTimely(c: Config, w: Wheel, w': Wheel, a: real, id: nat)
    requires ValidConfig(c) && id < |w.timers|
  {
    id < |w'.timers| && w'.timers[id] == w.timers[id].(fate := w'.timers[id].fate) && FineTimely(c, w', a, w'.timers[id])
  }

  lemma FineTickStaysFineTimely(c: Config, w: Wheel, clock: real, a: real, id: nat)
    requires ValidConfig(c) && WellLinked(c, w) && id < |w.timers| && w.timers[id].fine && FineTimely(c, w, a, w.timers[id])
    requires clock == w.fineArmedAt + c.fineTickMs as real
    ensures StaysFineTimely(c, w, FineTick(w, clock), a, id)
  {
    FineTickFiresExactly(c, w, clock, id);
    FineTickIsTimely(c, w, FineTick(w, clock), a, w.timers[id], FineTick(w, clock).timers[id]);
  }

  lemma TickOnStaysFineTimely(c: Config, w: Wheel, slot: nat, clock: real, a: real, id: nat)
    requires ValidConfig(c) && WellLinked(c, w) && slot < c.slots
    requires id < |w.timers| && w.timers[id].fine && FineTimely(c, w, a, w.timers[id])
    ensures StaysFineTimely(c, w, TickOn(w, slot, clock), a, id)
  {
    TickFiresExactly(c, w, slot, clock, id);
  }

  lemma ScheduleStaysFineTimely(c: Config, w: Wheel, clock: real, now: real, timeoutMs: real, a: real, id: nat)
    requires ValidConfig(c) && WellLinked(c, w) && Counted(w)
    requires id < |w.timers| && w.timers[id].fine && FineTimely(c, w, a, w.timers[id])
    ensures StaysFineTimely(c, w, Schedule(c, w, clock, now, timeoutMs), a, id)
  {
    CountZero(w.timers, PendingFine);
  }

  lemma LeavingStaysFineTimely(c: Config, w: Wheel, clock: real, cancelled: nat, a: real, id: nat)
    requires ValidConfig(c) && WellLinked(c, w) && id < |w.timers| && w.timers[id].fine && FineTimely(c, w, a, w.timers[id])
    ensures StaysFineTimely(c, w, Destroy(w, clock), a, id)
    ensures cancelled < |w.timers| ==> StaysFineTimely(c, w, Cancel(w, clock, cancelled), a, id)
  {
  }

  lemma NextIsFineTimely(c: Config, w: Wheel, e: Event, a: real, id: nat)
    requires Inv(c, w) && Enabled(c, w, e)
    requires id < |w.timers| && w.timers[id].fine && FineTimely(c, w, a, w.timers[id])
    requires e.FineTickAt? ==> e.clock == w.fineArmedAt + c.fineTickMs as real
    ensures StaysFineTimely(c, w, Next(c, w, e), a, id)
  {
    match e
    case ScheduleAt(clock, now, timeoutMs) => ScheduleStaysFineTimely(c, w, clock, now, timeoutMs, a, id);
    case CancelAt(clock, x) => LeavingStaysFineTimely(c, w, clock, x, a, id);
    case TickAt(clock) => TickOnStaysFineTimely(c, w, (w.current + 1) % c.slots, clock, a, id);
    case FineTickAt(clock) => FineTickStaysFineTimely(c, w, clock, a, id);
    case DestroyAt(clock) => LeavingStaysFineTimely(c, w, clock, |w.timers|, a, id);
  }

  lemma {:induction false} FineRunIsTimely(c: Config, w: Wheel, es: seq<Event>, a: real, id: nat)
    requires Inv(c, w) && id < |w.timers| && w.timers[id].fine && FineTimely(c, w, a, w.timers[id]) && FineOnTime(c, w, es)
    ensures StaysFineTimely(c, w, After(c, w, es), a, id)
    decreases |es|
  {
    if es != [] {
      if Enabled(c, w, es[0]) {
        NextIsFineTimely(c, w, es[0], a, id);
      }
      StepInv(c, w, es[0]);
      FineRunIsTimely(c, Step(c, w, es[0]), es[1..], a, id);
    }
  }

  lemma FineVisitWithinATick(tickMs: nat, a: real, deadline: real)
    requires tickMs >= 1
    ensures
      var q := FirstDue(tickMs, a, deadline);
      && TimeOf(tickMs, a, q) >= deadline
      && (TimeOf(tickMs, a, q) < deadline + tickMs as real <==> a < deadline)
      && (TimeOf(tickMs, a, q) <= deadline + tickMs as real <==> a <= deadline)
  {
    var q := FirstDue(tickMs, a, deadline);
    OneTickLess(tickMs, a, q);
    DueBetween(tickMs, a, deadline, q - 1);
    DueBetween(tickMs, a, deadline, q);
  }

  lemma NewFine(c: Config, w: Wheel, clock: real, now: real, timeoutMs: real)
    requires Inv(c, w) && now <= clock && w.clock <= clock && timeoutMs <= c.fineThresholdMs
    ensures
      var s, id := Schedule(c, w, clock, now, timeoutMs), |w.timers|;
      && Inv(c, s) && |s.timers| == id + 1 && s.fineTicks == w.fineTicks
      && s.timers[id] == Timer(timeoutMs, now + timeoutMs, -1, true, w.fineTicks, Pending)
  {
    ScheduleKeeps(c, w, clock, now, timeoutMs);
  }

  /** A fine timer runs at the first fine tick that is due; that is within a fine tick of its deadline iff the fine list was
      armed no later than the deadline, and less than a fine tick after it iff it was armed before. */
  lemma FineWithinATickIff(c: Config, w: Wheel, clock: real, now: real, timeoutMs: real, es: seq<Event>)
    requires Inv(c, w) && now <= clock && w.clock <= clock && timeoutMs <= c.fineThresholdMs
    requires FineOnTime(c, Schedule(c, w, clock, now, timeoutMs), es)
    ensures
      var s := Schedule(c, w, clock, now, timeoutMs);
      var w', a, deadline := After(c, s, es), s.fineArmedAt, now + timeoutMs;
      var q := FirstDue(c.fineTickMs, a, deadline);
      && |w.timers| < |w'.timers|
      && var fate := w'.timers[|w.timers|].fate;
      && (fate.Pending? ==> w'.fineTicks < w.fineTicks + q)
      && (fate.Fired? ==>
            && fate == Fired(TimeOf(c.fineTickMs, a, q), w.fineTicks + q) && fate.at >= deadline
            && (fate.at < deadline + c.fineTickMs as real <==> a < deadline)
            && (fate.at <= deadline + c.fineTickMs as real <==> a <= deadline))
  {
    hide Counted, Logged, Punctual;
    var s := Schedule(c, w, clock, now, timeoutMs);
    NewFine(c, w, clock, now, timeoutMs);
    FineVisitWithinATick(c.fineTickMs, s.fineArmedAt, now + timeoutMs);
    FineRunIsTimely(c, s, es, s.fineArmedAt, |w.timers|);
  }
}
