/** What the timer wheel of src/http/timerWheel.ts means: slot lists of timer numbers, one fine list,
    and the fate of every timer ever scheduled. The heap class in TimerWheel.dfy refines this. */
module TimerWheelSpec {
  import opened Prelude

  datatype Fate = Pending | Fired(at: real, tick: nat) | Cancelled | Destroyed

  /** A timer is known by its number, its position in Wheel.timers. bornTick counts the ticks of its own kind
      (coarse or fine) that had run when it was scheduled. */
  datatype Timer = Timer(timeoutMs: real, deadline: real, slot: int, fine: bool, bornTick: nat, fate: Fate)

  datatype Config = Config(tickMs: nat, slots: nat, fineTickMs: nat, fineThresholdMs: real)

  /** lists, current, armed, pending, fine, fineArmed and finePending mirror the fields of the class; the rest is history.
      armedAt is the time at which the running timeout was last set, log the callbacks in the order they ran. */
  datatype Wheel = Wheel(
    lists: seq<seq<nat>>, current: nat, armed: bool, pending: int,
    fine: seq<nat>, fineArmed: bool, finePending: int,
    timers: seq<Timer>, log: seq<nat>, ticks: nat, fineTicks: nat, clock: real, armedAt: real, fineArmedAt: real)

  ghost predicate ValidConfig(c: Config) {
    1 <= c.tickMs <= 16 && 1 <= c.fineTickMs <= 16 && 1 <= c.slots
  }

  // ----- operations -----

  function Ceil(x: real): int {
    -(-x).Floor
  }

  function Ticks(c: Config, timeoutMs: real): (n: nat)
    requires ValidConfig(c)
    ensures n >= 1 && n as real * c.tickMs as real >= timeoutMs
  {
    var n := Ceil(timeoutMs / c.tickMs as real);
    assert timeoutMs / c.tickMs as real <= n as real;
    assert timeoutMs <= n as real * c.tickMs as real;
    if n < 1 then 1 else n
  }

  function Init(c: Config, clock: real): Wheel {
    Wheel(seq(c.slots, _ => []), 0, false, 0, [], false, 0, [], [], 0, 0, clock, clock, clock)
  }

  /** The slot for a coarse timeout taken now. */
  function SlotFor(c: Config, w: Wheel, timeoutMs: real): (slot: nat)
    requires ValidConfig(c)
    ensures slot < c.slots
  {
    (w.current + Ticks(c, timeoutMs)) % c.slots
  }

  function ScheduleOn(w: Wheel, slot: nat, clock: real, now: real, timeoutMs: real): Wheel
    requires slot < |w.lists|
  {
    var id := |w.timers|;
    w.(timers := w.timers + [Timer(timeoutMs, now + timeoutMs, slot, false, w.ticks, Pending)],
       lists := w.lists[slot := [id] + w.lists[slot]],
       pending := w.pending + 1, armed := true, clock := clock,
       armedAt := if w.armed then w.armedAt else clock)
  }

  function ScheduleNormal(c: Config, w: Wheel, clock: real, now: real, timeoutMs: real): Wheel
    requires ValidConfig(c) && |w.lists| == c.slots
  {
    ScheduleOn(w, SlotFor(c, w, timeoutMs), clock, now, timeoutMs)
  }

  function ScheduleFine(c: Config, w: Wheel, clock: real, now: real, timeoutMs: real): Wheel {
    var id := |w.timers|;
    w.(timers := w.timers + [Timer(timeoutMs, now + timeoutMs, -1, true, w.fineTicks, Pending)],
       fine := [id] + w.fine,
       finePending := w.finePending + 1, fineArmed := true, clock := clock,
       fineArmedAt := if w.fineArmed then w.fineArmedAt else clock)
  }

  function Schedule(c: Config, w: Wheel, clock: real, now: real, timeoutMs: real): Wheel
    requires ValidConfig(c) && |w.lists| == c.slots
  {
    if timeoutMs <= c.fineThresholdMs then ScheduleFine(c, w, clock, now, timeoutMs)
    else ScheduleNormal(c, w, clock, now, timeoutMs)
  }

  function SetFate(w: Wheel, id: nat, fate: Fate): Wheel
    requires id < |w.timers|
  {
    w.(timers := w.timers[id := w.timers[id].(fate := fate)])
  }

  function CancelNormal(w: Wheel, clock: real, id: nat): Wheel
    requires id < |w.timers| && 0 <= w.timers[id].slot < |w.lists|
  {
    var slot := w.timers[id].slot;
    SetFate(w, id, Cancelled).(lists := w.lists[slot := Without(w.lists[slot], id)], pending := w.pending - 1,
                              armed := w.armed && w.pending - 1 != 0, clock := clock)
  }

  function CancelFine(w: Wheel, clock: real, id: nat): Wheel
    requires id < |w.timers|
  {
    SetFate(w, id, Cancelled).(fine := Without(w.fine, id), finePending := w.finePending - 1,
                              fineArmed := w.fineArmed && w.finePending - 1 != 0, clock := clock)
  }

  /** The cancel handle: a no-op unless the timer is still pending. */
  function Cancel(w: Wheel, clock: real, id: nat): Wheel
    requires id < |w.timers|
    requires !w.timers[id].fine ==> 0 <= w.timers[id].slot < |w.lists|
  {
    if !w.timers[id].fate.Pending? then w.(clock := clock)
    else if w.timers[id].fine then CancelFine(w, clock, id)
    else CancelNormal(w, clock, id)
  }

  predicate Due(timers: seq<Timer>, id: nat, now: real) {
    id < |timers| && timers[id].deadline <= now
  }

  /** The members of list whose deadline has come, in list order. */
  function DueIn(timers: seq<Timer>, list: seq<nat>, now: real): seq<nat> {
    if list == [] then [] else (if Due(timers, list[0], now) then [list[0]] else []) + DueIn(timers, list[1..], now)
  }

  function KeptIn(timers: seq<Timer>, list: seq<nat>, now: real): seq<nat> {
    if list == [] then [] else (if Due(timers, list[0], now) then [] else [list[0]]) + KeptIn(timers, list[1..], now)
  }

  function Settle(timers: seq<Timer>, ids: seq<nat>, fate: Fate): seq<Timer> {
    seq(|timers|, i requires 0 <= i < |timers| => if i in ids then timers[i].(fate := fate) else timers[i])
  }

  /** The pass of a tick over one slot. */
  function TickOn(w: Wheel, slot: nat, now: real): Wheel
    requires slot < |w.lists|
  {
    var due := DueIn(w.timers, w.lists[slot], now);
    w.(current := slot,
       lists := w.lists[slot := KeptIn(w.timers, w.lists[slot], now)],
       timers := Settle(w.timers, due, Fired(now, w.ticks + 1)),
       log := w.log + due, pending := w.pending - |due|, armed := w.pending - |due| > 0,
       ticks := w.ticks + 1, clock := now, armedAt := now)
  }

  function Tick(c: Config, w: Wheel, now: real): Wheel
    requires ValidConfig(c) && |w.lists| == c.slots
  {
    TickOn(w, (w.current + 1) % c.slots, now)
  }

  function FineTick(w: Wheel, now: real): Wheel {
    var due := DueIn(w.timers, w.fine, now);
    w.(fine := KeptIn(w.timers, w.fine, now),
       timers := Settle(w.timers, due, Fired(now, w.fineTicks + 1)),
       log := w.log + due, finePending := w.finePending - |due|, fineArmed := w.finePending - |due| > 0,
       fineTicks := w.fineTicks + 1, clock := now, fineArmedAt := now)
  }

  function Destroy(w: Wheel, clock: real): Wheel {
    w.(lists := seq(|w.lists|, _ => []), pending := 0, armed := false, fine := [], finePending := 0, fineArmed := false,
       timers := seq(|w.timers|, i requires 0 <= i < |w.timers| =>
                     if w.timers[i].fate.Pending? then w.timers[i].(fate := Destroyed) else w.timers[i]),
       clock := clock)
  }

  // ----- the invariant -----

  predicate PendingCoarse(t: Timer) { t.fate.Pending? && !t.fine }
  predicate PendingFine(t: Timer) { t.fate.Pending? && t.fine }
  predicate HasFired(t: Timer) { t.fate.Fired? }
  predicate IsCancelled(t: Timer) { t.fate.Cancelled? }
  predicate IsDestroyed(t: Timer) { t.fate.Destroyed? }

  ghost predicate WellLinked(c: Config, w: Wheel) {
    && |w.lists| == c.slots && w.current < c.slots
    && (forall s :: 0 <= s < c.slots ==> NoDuplicates(w.lists[s]))
    && NoDuplicates(w.fine)
    && (forall s, id {:trigger id in w.lists[s]} :: 0 <= s < c.slots && id in w.lists[s] ==>
          id < |w.timers| && PendingCoarse(w.timers[id]) && w.timers[id].slot == s)
    && (forall id {:trigger id in w.fine} :: id in w.fine ==> id < |w.timers| && PendingFine(w.timers[id]))
    && (forall id {:trigger w.timers[id]} :: 0 <= id < |w.timers| && !w.timers[id].fine ==> 0 <= w.timers[id].slot < c.slots)
    && (forall id {:trigger w.timers[id]} :: 0 <= id < |w.timers| && PendingCoarse(w.timers[id]) ==> id in w.lists[w.timers[id].slot])
    && (forall id {:trigger w.timers[id]} :: 0 <= id < |w.timers| && PendingFine(w.timers[id]) ==> id in w.fine)
  }

  function TotalLength(lists: seq<seq<nat>>): nat {
    if lists == [] then 0 else TotalLength(lists[..|lists| - 1]) + |lists[|lists| - 1]|
  }

  /** The counters are both the list lengths and the numbers of unsettled timers. */
  ghost predicate Counted(w: Wheel) {
    && w.pending == TotalLength(w.lists) == Count(w.timers, PendingCoarse)
    && w.finePending == |w.fine| == Count(w.timers, PendingFine)
    && (w.armed <==> w.pending > 0)
    && (w.fineArmed <==> w.finePending > 0)
  }

  /** The log holds exactly the timers that ran, each once, none before its deadline. */
  ghost predicate LogOf(timers: seq<Timer>, log: seq<nat>, clock: real) {
    && NoDuplicates(log) && |log| == Count(timers, HasFired)
    && (forall id {:trigger id in log} :: id in log ==> id < |timers| && timers[id].fate.Fired?)
    && (forall id {:trigger timers[id]} :: 0 <= id < |timers| && timers[id].fate.Fired? ==>
          id in log && timers[id].deadline <= timers[id].fate.at <= clock)
  }

  ghost predicate Logged(w: Wheel) {
    LogOf(w.timers, w.log, w.clock)
  }

  /** The coarse tick by which a timer must have run. */
  function LastTick(c: Config, t: Timer): nat
    requires ValidConfig(c)
  {
    t.bornTick + Ticks(c, t.timeoutMs) + c.slots
  }

  function LastFineTick(c: Config, t: Timer): nat
    requires ValidConfig(c)
  {
    var n := Ceil(t.timeoutMs / c.fineTickMs as real);
    t.bornTick + (if n < 0 then 0 else n) + 1
  }

  ghost predicate PunctualCoarse(c: Config, w: Wheel, t: Timer)
    requires ValidConfig(c)
  {
    && t.bornTick <= w.ticks
    && t.slot == (t.bornTick + Ticks(c, t.timeoutMs)) % c.slots
    && (t.fate.Pending? ==>
          && w.ticks < LastTick(c, t)
          && t.deadline - t.timeoutMs <= w.clock
          && (w.ticks > t.bornTick ==>
                w.armedAt >= t.deadline - t.timeoutMs + ((w.ticks - t.bornTick - 1) * c.tickMs) as real))
    && (t.fate.Fired? ==> t.bornTick < t.fate.tick <= LastTick(c, t) && t.fate.tick % c.slots == t.slot)
  }

  ghost predicate PunctualFine(c: Config, w: Wheel, t: Timer)
    requires ValidConfig(c)
  {
    && t.bornTick <= w.fineTicks
    && (t.fate.Pending? ==>
          && w.fineTicks < LastFineTick(c, t)
          && t.deadline - t.timeoutMs <= w.clock
          && (w.fineTicks > t.bornTick ==>
                w.fineArmedAt >= t.deadline - t.timeoutMs + ((w.fineTicks - t.bornTick - 1) * c.fineTickMs) as real))
    && (t.fate.Fired? ==> t.bornTick < t.fate.tick <= LastFineTick(c, t))
  }

  ghost predicate Punctual(c: Config, w: Wheel)
    requires ValidConfig(c)
  {
    && w.current == w.ticks % c.slots && w.armedAt <= w.clock && w.fineArmedAt <= w.clock
    && (forall id :: 0 <= id < |w.timers| && !w.timers[id].fine ==> PunctualCoarse(c, w, w.timers[id]))
    && (forall id :: 0 <= id < |w.timers| && w.timers[id].fine ==> PunctualFine(c, w, w.timers[id]))
  }

  ghost predicate Inv(c: Config, w: Wheel) {
    ValidConfig(c) && WellLinked(c, w) && Counted(w) && Logged(w) && Punctual(c, w)
  }

  // ----- runs -----

  datatype Event =
    | ScheduleAt(clock: real, now: real, timeoutMs: real)
    | CancelAt(clock: real, id: nat)
    | TickAt(clock: real)
    | FineTickAt(clock: real)
    | DestroyAt(clock: real)

  /** Time never runs backwards, a captured `now` is not in the future, and a timeout runs only while it is set and
      not before its delay has passed. */
  ghost predicate Enabled(c: Config, w: Wheel, e: Event) {
    e.clock >= w.clock &&
    match e
    case ScheduleAt(clock, now, _) => now <= clock
    case CancelAt(_, id) => id < |w.timers|
    case TickAt(clock) => w.armed && clock >= w.armedAt + c.tickMs as real
    case FineTickAt(clock) => w.fineArmed && clock >= w.fineArmedAt + c.fineTickMs as real
    case DestroyAt(_) => true
  }

  ghost function Next(c: Config, w: Wheel, e: Event): Wheel
    requires ValidConfig(c) && WellLinked(c, w) && Enabled(c, w, e)
  {
    match e
    case ScheduleAt(clock, now, timeoutMs) => Schedule(c, w, clock, now, timeoutMs)
    case CancelAt(clock, id) => Cancel(w, clock, id)
    case TickAt(clock) => Tick(c, w, clock)
    case FineTickAt(clock) => FineTick(w, clock)
    case DestroyAt(clock) => Destroy(w, clock)
  }

  // ----- list lemmas -----

  lemma {:induction false} TotalLengthUpdate(lists: seq<seq<nat>>, i: nat, list: seq<nat>)
    requires i < |lists|
    ensures TotalLength(lists[i := list]) + |lists[i]| == TotalLength(lists) + |list|
  {
    var m := |lists| - 1;
    if i == m {
      assert lists[i := list][..m] == lists[..m];
    } else {
      assert lists[i := list][..m] == lists[..m][i := list];
      TotalLengthUpdate(lists[..m], i, list);
    }
  }

  lemma {:induction false} TotalLengthZero(lists: seq<seq<nat>>)
    requires forall i :: 0 <= i < |lists| ==> lists[i] == []
    ensures TotalLength(lists) == 0
  {
    if lists != [] {
      TotalLengthZero(lists[..|lists| - 1]);
    }
  }

  lemma {:induction false} WithoutFacts(list: seq<nat>, id: nat)
    requires NoDuplicates(list) && id in list
    ensures NoDuplicates(Without(list, id)) && |Without(list, id)| == |list| - 1
    ensures forall x :: x in Without(list, id) <==> x in list && x != id
  {
    if list[0] == id {
      assert forall x :: x in list <==> x == id || x in list[1..];
    } else {
      assert id in list[1..];
      WithoutFacts(list[1..], id);
      assert forall x :: x in list <==> x == list[0] || x in list[1..];
      assert list[0] !in list[1..];
    }
  }

  /** A pass over a list splits it into what is due and what is kept, losing nothing. */
  lemma {:induction false} PassFacts(timers: seq<Timer>, list: seq<nat>, now: real)
    requires NoDuplicates(list)
    ensures forall x :: x in DueIn(timers, list, now) <==> x in list && Due(timers, x, now)
    ensures forall x :: x in KeptIn(timers, list, now) <==> x in list && !Due(timers, x, now)
    ensures NoDuplicates(DueIn(timers, list, now)) && NoDuplicates(KeptIn(timers, list, now))
    ensures |DueIn(timers, list, now)| + |KeptIn(timers, list, now)| == |list|
  {
    if list != [] {
      PassFacts(timers, list[1..], now);
      assert list == [list[0]] + list[1..];
      assert list[0] !in list[1..];
    }
  }

  /** Settling n distinct timers of one kind that are pending lowers the count of that kind by n, and no other count. */
  lemma {:induction false} SettleCount(timers: seq<Timer>, ids: seq<nat>, fate: Fate, fine: bool)
    requires NoDuplicates(ids) && !fate.Pending?
    requires forall id :: id in ids ==> id < |timers| && timers[id].fate.Pending? && timers[id].fine == fine
    ensures Count(Settle(timers, ids, fate), PendingCoarse) == Count(timers, PendingCoarse) - (if fine then 0 else |ids|)
    ensures Count(Settle(timers, ids, fate), PendingFine) == Count(timers, PendingFine) - (if fine then |ids| else 0)
    ensures Count(Settle(timers, ids, fate), HasFired) == Count(timers, HasFired) + (if fate.Fired? then |ids| else 0)
    decreases ids
  {
    if ids == [] {
      assert Settle(timers, ids, fate) == timers;
    } else {
      var x, rest := ids[0], ids[1..];
      assert x in ids && forall id :: id in rest ==> id in ids;
      var t1 := timers[x := timers[x].(fate := fate)];
      assert ids == [x] + rest;
      assert x !in rest;
      assert Settle(timers, ids, fate) == Settle(t1, rest, fate);
      CountUpdate(timers, x, timers[x].(fate := fate), PendingCoarse);
      CountUpdate(timers, x, timers[x].(fate := fate), PendingFine);
      CountUpdate(timers, x, timers[x].(fate := fate), HasFired);
      SettleCount(t1, rest, fate, fine);
    }
  }

  /** due is a list of distinct pending timers of one kind whose deadlines have come. */
  ghost predicate Runnable(timers: seq<Timer>, due: seq<nat>, now: real, fine: bool) {
    && NoDuplicates(due)
    && forall id {:trigger id in due} :: id in due ==>
         id < |timers| && timers[id].fate.Pending? && timers[id].fine == fine && timers[id].deadline <= now
  }

  // ----- every operation keeps the invariant -----

  lemma InitKeeps(c: Config, clock: real)
    requires ValidConfig(c)
    ensures Inv(c, Init(c, clock))
  {
    TotalLengthZero(Init(c, clock).lists);
  }

  lemma ScheduleKeepsLinks(c: Config, w: Wheel, slot: nat, clock: real, now: real, timeoutMs: real)
    requires ValidConfig(c) && WellLinked(c, w) && slot < c.slots
    ensures WellLinked(c, ScheduleOn(w, slot, clock, now, timeoutMs))
    ensures WellLinked(c, ScheduleFine(c, w, clock, now, timeoutMs))
  {
    var id := |w.timers|;
    assert id !in w.lists[slot] && id !in w.fine;
    assert forall x :: x in [id] + w.lists[slot] <==> x == id || x in w.lists[slot];
    assert forall x :: x in [id] + w.fine <==> x == id || x in w.fine;
  }

  lemma ScheduleKeepsCounts(w: Wheel, slot: nat, t: Timer)
    requires slot < |w.lists| && Counted(w) && t.fate.Pending?
    ensures
      var lists := w.lists[slot := [|w.timers|] + w.lists[slot]];
      !t.fine ==> TotalLength(lists) == w.pending + 1
    ensures Count(w.timers + [t], PendingCoarse) == w.pending + (if t.fine then 0 else 1)
    ensures Count(w.timers + [t], PendingFine) == w.finePending + (if t.fine then 1 else 0)
    ensures Count(w.timers + [t], HasFired) == Count(w.timers, HasFired)
  {
    CountAppend(w.timers, t, PendingCoarse);
    CountAppend(w.timers, t, PendingFine);
    CountAppend(w.timers, t, HasFired);
    TotalLengthUpdate(w.lists, slot, [|w.timers|] + w.lists[slot]);
  }

  lemma ScheduleKeepsLog(timers: seq<Timer>, log: seq<nat>, clock: real, t: Timer, clock': real)
    requires LogOf(timers, log, clock) && clock <= clock' && t.fate.Pending?
    ensures LogOf(timers + [t], log, clock')
  {
    CountAppend(timers, t, HasFired);
  }

  lemma ScheduleOnPunctual(c: Config, w: Wheel, clock: real, now: real, timeoutMs: real)
    requires ValidConfig(c) && |w.lists| == c.slots && Punctual(c, w) && now <= clock && w.clock <= clock
    ensures Punctual(c, ScheduleNormal(c, w, clock, now, timeoutMs))
  {
    ModShift(w.ticks, Ticks(c, timeoutMs), c.slots);
  }

  lemma ScheduleFinePunctual(c: Config, w: Wheel, clock: real, now: real, timeoutMs: real)
    requires ValidConfig(c) && Punctual(c, w) && now <= clock && w.clock <= clock
    ensures Punctual(c, ScheduleFine(c, w, clock, now, timeoutMs))
  {
  }

  lemma ScheduleKeeps(c: Config, w: Wheel, clock: real, now: real, timeoutMs: real)
    requires Inv(c, w) && now <= clock && w.clock <= clock
    ensures Inv(c, Schedule(c, w, clock, now, timeoutMs))
  {
    var slot := SlotFor(c, w, timeoutMs);
    ScheduleKeepsLinks(c, w, slot, clock, now, timeoutMs);
    var w' := Schedule(c, w, clock, now, timeoutMs);
    var t := w'.timers[|w.timers|];
    assert w'.timers == w.timers + [t];
    ScheduleKeepsCounts(w, slot, t);
    ScheduleKeepsLog(w.timers, w.log, w.clock, t, clock);
    ScheduleOnPunctual(c, w, clock, now, timeoutMs);
    ScheduleFinePunctual(c, w, clock, now, timeoutMs);
  }

  lemma CancelKeepsLinks(c: Config, w: Wheel, clock: real, id: nat)
    requires ValidConfig(c) && WellLinked(c, w) && id < |w.timers|
    ensures WellLinked(c, Cancel(w, clock, id))
  {
    var t := w.timers[id];
    if PendingFine(t) {
      WithoutFacts(w.fine, id);
    } else if PendingCoarse(t) {
      WithoutFacts(w.lists[t.slot], id);
    }
  }

  lemma CancelKeepsCounts(c: Config, w: Wheel, clock: real, id: nat)
    requires ValidConfig(c) && WellLinked(c, w) && Counted(w) && id < |w.timers|
    ensures Counted(Cancel(w, clock, id))
  {
    var t := w.timers[id];
    CountUpdate(w.timers, id, t.(fate := Cancelled), PendingCoarse);
    CountUpdate(w.timers, id, t.(fate := Cancelled), PendingFine);
    if PendingFine(t) {
      WithoutFacts(w.fine, id);
    } else if PendingCoarse(t) {
      WithoutFacts(w.lists[t.slot], id);
      TotalLengthUpdate(w.lists, t.slot, Without(w.lists[t.slot], id));
    }
  }

  lemma CancelKeepsLog(c: Config, w: Wheel, clock: real, id: nat)
    requires ValidConfig(c) && WellLinked(c, w) && Logged(w) && id < |w.timers| && w.clock <= clock
    ensures Logged(Cancel(w, clock, id))
  {
    CountUpdate(w.timers, id, w.timers[id].(fate := Cancelled), HasFired);
  }

  lemma CancelPunctual(c: Config, w: Wheel, clock: real, id: nat)
    requires ValidConfig(c) && WellLinked(c, w) && Punctual(c, w) && id < |w.timers| && w.clock <= clock
    ensures Punctual(c, Cancel(w, clock, id))
  {
    hide Ticks, LastTick, LastFineTick;
  }

  lemma TickKeepsLinks(c: Config, w: Wheel, slot: nat, now: real)
    requires ValidConfig(c) && WellLinked(c, w) && slot < c.slots
    ensures WellLinked(c, TickOn(w, slot, now))
  {
    PassFacts(w.timers, w.lists[slot], now);
  }

  lemma DueOfSlot(c: Config, w: Wheel, slot: nat, now: real)
    requires ValidConfig(c) && WellLinked(c, w) && slot < c.slots
    ensures Runnable(w.timers, DueIn(w.timers, w.lists[slot], now), now, false)
    ensures |DueIn(w.timers, w.lists[slot], now)| + |KeptIn(w.timers, w.lists[slot], now)| == |w.lists[slot]|
  {
    PassFacts(w.timers, w.lists[slot], now);
  }

  lemma DueOfFine(c: Config, w: Wheel, now: real)
    requires ValidConfig(c) && WellLinked(c, w)
    ensures Runnable(w.timers, DueIn(w.timers, w.fine, now), now, true)
    ensures |DueIn(w.timers, w.fine, now)| + |KeptIn(w.timers, w.fine, now)| == |w.fine|
  {
    PassFacts(w.timers, w.fine, now);
  }

  lemma TickKeepsCounts(c: Config, w: Wheel, slot: nat, now: real)
    requires slot < |w.lists| && Counted(w)
    requires Runnable(w.timers, DueIn(w.timers, w.lists[slot], now), now, false)
    requires |DueIn(w.timers, w.lists[slot], now)| + |KeptIn(w.timers, w.lists[slot], now)| == |w.lists[slot]|
    ensures Counted(TickOn(w, slot, now))
  {
    hide DueIn, KeptIn, Settle;
    SettleCount(w.timers, DueIn(w.timers, w.lists[slot], now), Fired(now, w.ticks + 1), false);
    TotalLengthUpdate(w.lists, slot, KeptIn(w.timers, w.lists[slot], now));
  }

  lemma SettleKeepsLog(timers: seq<Timer>, log: seq<nat>, clock: real, due: seq<nat>, now: real, tick: nat, fine: bool)
    requires LogOf(timers, log, clock) && clock <= now && Runnable(timers, due, now, fine)
    ensures LogOf(Settle(timers, due, Fired(now, tick)), log + due, now)
  {
    var log' := log + due;
    SettleCount(timers, due, Fired(now, tick), fine);
    assert forall id :: id in log' <==> id in log || id in due;
    forall i, j | 0 <= i < j < |log'|
      ensures log'[i] != log'[j]
    {
      if i < |log| <= j {
        assert log'[i] in log && log'[j] in due;
      }
    }
  }

  /** The bound: at the last allowed tick the wheel stands on the slot of the timer and its deadline has passed. */
  lemma DueAtLastTick(c: Config, w: Wheel, now: real, t: Timer)
    requires ValidConfig(c) && PunctualCoarse(c, w, t) && t.fate.Pending?
    requires w.ticks + 1 == LastTick(c, t) && now >= w.armedAt + c.tickMs as real
    ensures (w.ticks + 1) % c.slots == t.slot && t.deadline <= now
  {
    var n := Ticks(c, t.timeoutMs);
    ModShift(t.bornTick + n, 0, c.slots);
    EnoughTicks(c.tickMs, n, c.slots, w.ticks - t.bornTick);
  }

  lemma EnoughTicks(tickMs: nat, n: nat, slots: nat, elapsed: nat)
    requires slots >= 1 && elapsed + 1 == n + slots
    ensures (elapsed - 1) * tickMs + tickMs >= n * tickMs
  {
    assert (elapsed - 1) * tickMs + tickMs == n * tickMs + (slots - 1) * tickMs;
    assert (slots - 1) * tickMs >= 0;
  }

  lemma CoarseAfterTick(c: Config, w: Wheel, w': Wheel, t: Timer, t': Timer)
    requires ValidConfig(c) && PunctualCoarse(c, w, t)
    requires w'.ticks == w.ticks + 1 && w'.clock == w'.armedAt && w'.clock >= w.armedAt + c.tickMs as real
    requires w'.clock >= w.clock
    requires
      var due := t.fate.Pending? && w'.ticks % c.slots == t.slot && t.deadline <= w'.clock;
      t' == if due then t.(fate := Fired(w'.clock, w'.ticks)) else t
    ensures PunctualCoarse(c, w', t')
  {
    if t.fate.Pending? && w'.ticks == LastTick(c, t) {
      DueAtLastTick(c, w, w'.clock, t);
    }
    OneMoreTimes(w.ticks - t.bornTick - 1, c.tickMs);
  }

  lemma TickPunctual(c: Config, w: Wheel, slot: nat, now: real)
    requires ValidConfig(c) && WellLinked(c, w) && Punctual(c, w)
    requires w.clock <= now && now >= w.armedAt + c.tickMs as real
    requires slot < c.slots && slot == (w.ticks + 1) % c.slots
    ensures Punctual(c, TickOn(w, slot, now))
  {
    var w' := TickOn(w, slot, now);
    forall id | 0 <= id < |w.timers|
      ensures !w'.timers[id].fine ==> PunctualCoarse(c, w', w'.timers[id])
      ensures w'.timers[id].fine ==> PunctualFine(c, w', w'.timers[id])
    {
      TickFiresExactly(c, w, slot, now, id);
      if w.timers[id].fine {
        assert PunctualFine(c, w, w.timers[id]);
      } else {
        CoarseAfterTick(c, w, w', w.timers[id], w'.timers[id]);
      }
    }
  }

  lemma FineTickKeepsLinks(c: Config, w: Wheel, now: real)
    requires ValidConfig(c) && WellLinked(c, w)
    ensures WellLinked(c, FineTick(w, now))
  {
    PassFacts(w.timers, w.fine, now);
  }

  lemma FineTickKeepsCounts(w: Wheel, now: real)
    requires Counted(w) && Runnable(w.timers, DueIn(w.timers, w.fine, now), now, true)
    requires |DueIn(w.timers, w.fine, now)| + |KeptIn(w.timers, w.fine, now)| == |w.fine|
    ensures Counted(FineTick(w, now))
  {
    SettleCount(w.timers, DueIn(w.timers, w.fine, now), Fired(now, w.fineTicks + 1), true);
  }

  lemma DueAtLastFineTick(c: Config, w: Wheel, now: real, t: Timer)
    requires ValidConfig(c) && PunctualFine(c, w, t) && t.fate.Pending?
    requires w.fineTicks + 1 == LastFineTick(c, t) && w.clock <= now && now >= w.fineArmedAt + c.fineTickMs as real
    ensures t.deadline <= now
  {
    var n := Ceil(t.timeoutMs / c.fineTickMs as real);
    CeilCovers(t.timeoutMs, c.fineTickMs);
    if n > 0 {
      OneMoreTimes(n - 1, c.fineTickMs);
    }
  }

  /** Rounding up to whole ticks covers the timeout. */
  lemma CeilCovers(x: real, m: nat)
    requires m >= 1
    ensures var n := Ceil(x / m as real); x <= (n * m) as real && (n <= 0 ==> x <= 0.0)
  {
    var n := Ceil(x / m as real);
    assert x / m as real <= n as real;
    assert x <= n as real * m as real;
    assert n as real * m as real == (n * m) as real;
    MultipleGrows(n, m);
  }

  lemma FineAfterTick(c: Config, w: Wheel, w': Wheel, t: Timer, t': Timer)
    requires ValidConfig(c) && PunctualFine(c, w, t)
    requires w'.fineTicks == w.fineTicks + 1 && w'.clock == w'.fineArmedAt
    requires w'.clock >= w.clock && w'.clock >= w.fineArmedAt + c.fineTickMs as real
    requires
      var due := t.fate.Pending? && t.deadline <= w'.clock;
      t' == if due then t.(fate := Fired(w'.clock, w'.fineTicks)) else t
    ensures PunctualFine(c, w', t')
  {
    if t.fate.Pending? && w'.fineTicks == LastFineTick(c, t) {
      DueAtLastFineTick(c, w, w'.clock, t);
    }
    OneMoreTimes(w.fineTicks - t.bornTick - 1, c.fineTickMs);
  }

  lemma FineTickPunctual(c: Config, w: Wheel, now: real)
    requires ValidConfig(c) && WellLinked(c, w) && Punctual(c, w)
    requires w.clock <= now && now >= w.fineArmedAt + c.fineTickMs as real
    ensures Punctual(c, FineTick(w, now))
  {
    hide Ticks, LastTick, LastFineTick;
    var w' := FineTick(w, now);
    PassFacts(w.timers, w.fine, now);
    forall id | 0 <= id < |w.timers|
      ensures !w'.timers[id].fine ==> PunctualCoarse(c, w', w'.timers[id])
      ensures w'.timers[id].fine ==> PunctualFine(c, w', w'.timers[id])
    {
      var t := w.timers[id];
      if t.fine {
        FineAfterTick(c, w, w', t, w'.timers[id]);
      } else {
        assert PunctualCoarse(c, w, t) && id !in w.fine;
      }
    }
  }

  lemma DestroyKeepsCounts(c: Config, w: Wheel, clock: real)
    requires ValidConfig(c) && WellLinked(c, w) && Counted(w)
    ensures WellLinked(c, Destroy(w, clock)) && Counted(Destroy(w, clock))
  {
    var w' := Destroy(w, clock);
    CountZero(w'.timers, PendingCoarse);
    CountZero(w'.timers, PendingFine);
    TotalLengthZero(w'.lists);
  }

  lemma DestroyKeepsLog(w: Wheel, clock: real)
    requires Logged(w) && w.clock <= clock
    ensures Logged(Destroy(w, clock))
  {
    CountSame(w.timers, Destroy(w, clock).timers, HasFired);
  }

  lemma DestroyPunctual(c: Config, w: Wheel, clock: real)
    requires ValidConfig(c) && WellLinked(c, w) && Punctual(c, w) && w.clock <= clock
    ensures Punctual(c, Destroy(w, clock))
  {
  }

  lemma TickKeeps(c: Config, w: Wheel, now: real)
    requires Inv(c, w) && w.clock <= now && now >= w.armedAt + c.tickMs as real
    ensures Inv(c, Tick(c, w, now))
  {
    hide WellLinked, Counted, Logged, Punctual;
    TickOverKeeps(c, w, (w.current + 1) % c.slots, now);
  }

  lemma TickOverKeeps(c: Config, w: Wheel, slot: nat, now: real)
    requires Inv(c, w) && w.clock <= now && now >= w.armedAt + c.tickMs as real
    requires slot == (w.current + 1) % c.slots
    ensures slot < c.slots && Inv(c, TickOn(w, slot, now))
  {
    NextSlot(c.slots, w.current, w.ticks);
    TickOnKeeps(c, w, slot, now);
  }

  lemma NextSlot(slots: nat, current: nat, ticks: nat)
    requires slots >= 1 && current == ticks % slots
    ensures (current + 1) % slots < slots && (current + 1) % slots == (ticks + 1) % slots
  {
    ModShift(ticks, 1, slots);
  }

  lemma TickOnKeeps(c: Config, w: Wheel, slot: nat, now: real)
    requires Inv(c, w) && w.clock <= now && now >= w.armedAt + c.tickMs as real
    requires slot < c.slots && slot == (w.ticks + 1) % c.slots
    ensures Inv(c, TickOn(w, slot, now))
  {
    TickKeepsLinks(c, w, slot, now);
    TickKeepsCounted(c, w, slot, now);
    TickKeepsLogged(c, w, slot, now);
    TickPunctual(c, w, slot, now);
  }

  lemma TickKeepsCounted(c: Config, w: Wheel, slot: nat, now: real)
    requires ValidConfig(c) && WellLinked(c, w) && Counted(w) && slot < c.slots
    ensures Counted(TickOn(w, slot, now))
  {
    DueOfSlot(c, w, slot, now);
    TickKeepsCounts(c, w, slot, now);
  }

  lemma TickKeepsLogged(c: Config, w: Wheel, slot: nat, now: real)
    requires ValidConfig(c) && WellLinked(c, w) && Logged(w) && w.clock <= now && slot < c.slots
    ensures Logged(TickOn(w, slot, now))
  {
    DueOfSlot(c, w, slot, now);
    SettleKeepsLog(w.timers, w.log, w.clock, DueIn(w.timers, w.lists[slot], now), now, w.ticks + 1, false);
  }

  lemma StepKeeps(c: Config, w: Wheel, e: Event)
    requires Inv(c, w) && Enabled(c, w, e)
    ensures Inv(c, Next(c, w, e))
  {
    match e
    case ScheduleAt(clock, now, timeoutMs) =>
      ScheduleKeeps(c, w, clock, now, timeoutMs);
    case CancelAt(clock, id) => CancelKeeps(c, w, clock, id);
    case TickAt(clock) => TickKeeps(c, w, clock);
    case FineTickAt(clock) => FineTickKeeps(c, w, clock);
    case DestroyAt(clock) => DestroyKeeps(c, w, clock);
  }

  lemma CancelKeeps(c: Config, w: Wheel, clock: real, id: nat)
    requires Inv(c, w) && id < |w.timers| && w.clock <= clock
    ensures Inv(c, Cancel(w, clock, id))
  {
    CancelKeepsLinks(c, w, clock, id);
    CancelKeepsCounts(c, w, clock, id);
    CancelKeepsLog(c, w, clock, id);
    CancelPunctual(c, w, clock, id);
  }

  lemma FineTickKeeps(c: Config, w: Wheel, now: real)
    requires Inv(c, w) && w.clock <= now && now >= w.fineArmedAt + c.fineTickMs as real
    ensures Inv(c, FineTick(w, now))
  {
    FineTickKeepsLinks(c, w, now);
    DueOfFine(c, w, now);
    FineTickKeepsCounts(w, now);
    SettleKeepsLog(w.timers, w.log, w.clock, DueIn(w.timers, w.fine, now), now, w.fineTicks + 1, true);
    FineTickPunctual(c, w, now);
  }

  lemma DestroyKeeps(c: Config, w: Wheel, clock: real)
    requires Inv(c, w) && w.clock <= clock
    ensures Inv(c, Destroy(w, clock))
  {
    DestroyKeepsCounts(c, w, clock);
    DestroyKeepsLog(w, clock);
    DestroyPunctual(c, w, clock);
  }

  // ----- runs -----

  /** One event; one that is not possible changes nothing. */
  ghost function Step(c: Config, w: Wheel, e: Event): Wheel {
    if ValidConfig(c) && WellLinked(c, w) && Enabled(c, w, e) then Next(c, w, e) else w
  }

  /** The state after a sequence of events. */
  ghost function After(c: Config, w: Wheel, es: seq<Event>): Wheel
    decreases |es|
  {
    if es == [] then w else After(c, Step(c, w, es[0]), es[1..])
  }

  lemma {:induction false} RunKeeps(c: Config, w: Wheel, es: seq<Event>)
    requires Inv(c, w)
    ensures Inv(c, After(c, w, es))
    decreases |es|
  {
    if es != [] {
      if Enabled(c, w, es[0]) {
        StepKeeps(c, w, es[0]);
      }
      RunKeeps(c, Step(c, w, es[0]), es[1..]);
    }
  }

  lemma {:induction false} FatesPartition(timers: seq<Timer>)
    ensures |timers| == Count(timers, PendingCoarse) + Count(timers, PendingFine) + Count(timers, HasFired)
                        + Count(timers, IsCancelled) + Count(timers, IsDestroyed)
  {
    if timers != [] {
      FatesPartition(timers[..|timers| - 1]);
    }
  }

  /** Conservation in every reachable state. */
  lemma Conservation(c: Config, start: real, es: seq<Event>)
    requires ValidConfig(c)
    ensures
      var w := After(c, Init(c, start), es);
      && |w.timers| == |w.log| + Count(w.timers, IsCancelled) + Count(w.timers, IsDestroyed) + w.pending + w.finePending
      && w.pending == TotalLength(w.lists) && w.finePending == |w.fine|
      && (w.armed <==> w.pending > 0) && (w.fineArmed <==> w.finePending > 0)
  {
    InitKeeps(c, start);
    RunKeeps(c, Init(c, start), es);
    FatesPartition(After(c, Init(c, start), es).timers);
  }

  /** In every reachable state a coarse timer runs no earlier than its deadline and no later than the slot-th tick
      after the ticks its timeout asks for; once that many ticks have run it is no longer pending. */
  lemma CoarseLateness(c: Config, start: real, es: seq<Event>, id: nat)
    requires ValidConfig(c)
    ensures
      var w := After(c, Init(c, start), es);
      id < |w.timers| && !w.timers[id].fine ==>
        && (w.timers[id].fate.Fired? ==>
              w.timers[id].fate.at >= w.timers[id].deadline && w.timers[id].fate.tick <= LastTick(c, w.timers[id]))
        && (w.ticks >= LastTick(c, w.timers[id]) ==> !w.timers[id].fate.Pending?)
  {
    InitKeeps(c, start);
    RunKeeps(c, Init(c, start), es);
    var w := After(c, Init(c, start), es);
    if id < |w.timers| && !w.timers[id].fine {
      assert PunctualCoarse(c, w, w.timers[id]);
    }
  }

  lemma FineLateness(c: Config, start: real, es: seq<Event>, id: nat)
    requires ValidConfig(c)
    ensures
      var w := After(c, Init(c, start), es);
      id < |w.timers| && w.timers[id].fine ==>
        && (w.timers[id].fate.Fired? ==>
              w.timers[id].fate.at >= w.timers[id].deadline && w.timers[id].fate.tick <= LastFineTick(c, w.timers[id]))
        && (w.fineTicks >= LastFineTick(c, w.timers[id]) ==> !w.timers[id].fate.Pending?)
  {
    InitKeeps(c, start);
    RunKeeps(c, Init(c, start), es);
    var w := After(c, Init(c, start), es);
    if id < |w.timers| && w.timers[id].fine {
      assert PunctualFine(c, w, w.timers[id]);
    }
  }

  /** A tick runs exactly the pending coarse timers of the slot it moves to whose deadline has come. */
  lemma TickFiresExactly(c: Config, w: Wheel, slot: nat, now: real, id: nat)
    requires ValidConfig(c) && WellLinked(c, w) && id < |w.timers| && slot < c.slots
    ensures
      var w', t := TickOn(w, slot, now), w.timers[id];
      var fires := PendingCoarse(t) && t.slot == slot && t.deadline <= now;
      && w'.timers[id] == (if fires then t.(fate := Fired(now, w.ticks + 1)) else t)
      && (id in w'.log[|w.log|..] <==> fires)
  {
    PassFacts(w.timers, w.lists[slot], now);
    assert TickOn(w, slot, now).log[|w.log|..] == DueIn(w.timers, w.lists[slot], now);
  }

  lemma FineTickFiresExactly(c: Config, w: Wheel, now: real, id: nat)
    requires ValidConfig(c) && WellLinked(c, w) && id < |w.timers|
    ensures
      var w', t := FineTick(w, now), w.timers[id];
      var fires := PendingFine(t) && t.deadline <= now;
      && w'.timers[id] == (if fires then t.(fate := Fired(now, w.fineTicks + 1)) else t)
      && (id in w'.log[|w.log|..] <==> fires)
  {
    PassFacts(w.timers, w.fine, now);
    assert FineTick(w, now).log[|w.log|..] == DueIn(w.timers, w.fine, now);
  }

  ghost predicate Extends(w: Wheel, w': Wheel) {
    && |w.timers| <= |w'.timers| && w.log <= w'.log && w.ticks <= w'.ticks && w.fineTicks <= w'.fineTicks
    && forall id {:trigger w'.timers[id]} :: 0 <= id < |w.timers| ==>
         var t, t' := w.timers[id], w'.timers[id];
         && t' == t.(fate := t'.fate)
         && (!t.fate.Pending? ==> t' == t)
         && (t.fate.Pending? && t'.fate.Fired? ==> t'.fate.tick > (if t.fine then w.fineTicks else w.ticks))
  }

  lemma TickExtends(c: Config, w: Wheel, slot: nat, now: real)
    requires ValidConfig(c) && WellLinked(c, w) && slot < c.slots
    ensures Extends(w, TickOn(w, slot, now)) && Extends(w, FineTick(w, now))
  {
    forall id | 0 <= id < |w.timers|
      ensures TickOn(w, slot, now).timers[id].fate == w.timers[id].fate
              || (PendingCoarse(w.timers[id]) && TickOn(w, slot, now).timers[id].fate == Fired(now, w.ticks + 1))
      ensures FineTick(w, now).timers[id].fate == w.timers[id].fate
              || (PendingFine(w.timers[id]) && FineTick(w, now).timers[id].fate == Fired(now, w.fineTicks + 1))
    {
      TickFiresExactly(c, w, slot, now, id);
      FineTickFiresExactly(c, w, now, id);
    }
  }

  lemma ScheduleExtends(c: Config, w: Wheel, clock: real, now: real, timeoutMs: real)
    requires ValidConfig(c) && |w.lists| == c.slots
    ensures Extends(w, Schedule(c, w, clock, now, timeoutMs))
  {
  }

  lemma CancelExtends(w: Wheel, clock: real, id: nat)
    requires id < |w.timers| && (!w.timers[id].fine ==> 0 <= w.timers[id].slot < |w.lists|)
    ensures Extends(w, Cancel(w, clock, id)) && Extends(w, Destroy(w, clock))
  {
  }

  lemma DestroyExtends(w: Wheel, clock: real)
    ensures Extends(w, Destroy(w, clock))
  {
  }

  lemma StepExtends(c: Config, w: Wheel, e: Event)
    requires ValidConfig(c) && WellLinked(c, w) && Enabled(c, w, e)
    ensures Extends(w, Next(c, w, e))
  {
    match e
    case ScheduleAt(clock, now, timeoutMs) => ScheduleExtends(c, w, clock, now, timeoutMs);
    case CancelAt(clock, id) => CancelExtends(w, clock, id);
    case TickAt(clock) => TickExtends(c, w, (w.current + 1) % c.slots, clock);
    case FineTickAt(clock) => TickExtends(c, w, w.current, clock);
    case DestroyAt(clock) => DestroyExtends(w, clock);
  }

  lemma ExtendsIsTransitive(u: Wheel, v: Wheel, w: Wheel)
    requires Extends(u, v) && Extends(v, w)
    ensures Extends(u, w)
  {
    forall id | 0 <= id < |u.timers|
      ensures w.timers[id] == u.timers[id].(fate := w.timers[id].fate)
    {
      assert v.timers[id] == u.timers[id].(fate := v.timers[id].fate);
    }
  }

  /** Over any run, a settled timer keeps its fate for ever and the log of callbacks only grows: nothing runs twice,
      or after it was cancelled or destroyed. */
  lemma {:induction false} SettledForGood(c: Config, w: Wheel, es: seq<Event>)
    requires Inv(c, w)
    ensures Extends(w, After(c, w, es))
    decreases |es|
  {
    if es != [] {
      var v := Step(c, w, es[0]);
      if Enabled(c, w, es[0]) {
        StepKeeps(c, w, es[0]);
        StepExtends(c, w, es[0]);
      }
      SettledForGood(c, v, es[1..]);
      ExtendsIsTransitive(w, v, After(c, v, es[1..]));
    }
  }

  /** A timer still pending on the slot the wheel stands on waits a full rotation: this is why firing within one tick
      of the deadline cannot be promised. */
  lemma MissedTurnWaitsARotation(c: Config, w: Wheel, es: seq<Event>, id: nat)
    requires Inv(c, w) && id < |w.timers| && PendingCoarse(w.timers[id]) && w.timers[id].slot == w.current
    ensures
      var w' := After(c, w, es);
      id < |w'.timers| && (w'.timers[id].fate.Fired? ==> w'.timers[id].fate.tick >= w.ticks + c.slots)
  {
    SettledForGood(c, w, es);
    RunKeeps(c, w, es);
    var w' := After(c, w, es);
    var t := w'.timers[id];
    assert w.timers[id].slot == t.slot;
    if t.fate.Fired? {
      assert PunctualCoarse(c, w', t);
      SameResidue(w.ticks, t.fate.tick, c.slots);
    }
  }

  lemma SameResidue(a: nat, b: nat, m: nat)
    requires m >= 1 && a < b && a % m == b % m
    ensures b >= a + m
  {
    assert b - a == (b / m - a / m) * m;
    MultipleGrows(b / m - a / m, m);
  }

  // ----- a run in which a timer is late by more than a tick -----

  const LATE_CONFIG := Config(10, 2, 4, 0.0)

  /** The wheel is already ticking when the second timer (timeout 15, deadline 21) is scheduled at time 6. */
  const LATE_RUN := [
    ScheduleAt(0.0, 0.0, 1000.0), ScheduleAt(6.0, 6.0, 15.0), TickAt(10.0), TickAt(20.0), TickAt(30.0), TickAt(40.0)]

  lemma Prepend(c: Config, w: Wheel, e: Event, w': Wheel, es: seq<Event>)
    requires ValidConfig(c) && WellLinked(c, w) && Enabled(c, w, e) && Next(c, w, e) == w'
    ensures After(c, w, [e] + es) == After(c, w', es)
  {
    assert ([e] + es)[1..] == es;
  }

  const LATE_TIMERS := [Timer(1000.0, 1000.0, 0, false, 0, Pending), Timer(15.0, 21.0, 0, false, 0, Pending)]
  const LATE_FIRST := Wheel([[0], []], 0, true, 1, [], false, 0, LATE_TIMERS[..1], [], 0, 0, 0.0, 0.0, 0.0)

  /** The states after the second timer is scheduled and n ticks have run. */
  function LateState(n: nat): Wheel {
    var clock := if n == 0 then 6.0 else 10.0 * n as real;
    Wheel([[1, 0], []], n % 2, true, 2, [], false, 0, LATE_TIMERS, [], n, 0, clock, if n == 0 then 0.0 else clock, 0.0)
  }

  lemma LateSchedules()
    ensures Schedule(LATE_CONFIG, Init(LATE_CONFIG, 0.0), 0.0, 0.0, 1000.0) == LATE_FIRST
    ensures Schedule(LATE_CONFIG, LATE_FIRST, 6.0, 6.0, 15.0) == LateState(0)
  {
    var c := LATE_CONFIG;
    assert c.tickMs as real == 10.0;
    assert Ceil(1000.0 / 10.0) == 100 && Ceil(15.0 / 10.0) == 2;
    assert Ticks(c, 1000.0) == 100 && Ticks(c, 15.0) == 2;
    assert Init(c, 0.0).lists == [[], []];
    assert SlotFor(c, LATE_FIRST, 15.0) == 0;
    assert [1] + [0] == [1, 0];
    assert Schedule(c, LATE_FIRST, 6.0, 6.0, 15.0).lists == [[1, 0], []];
    assert LATE_TIMERS == LATE_TIMERS[..1] + [LATE_TIMERS[1]];
    assert SlotFor(c, Init(c, 0.0), 1000.0) == 0 && [0] + [] == [0];
    assert Schedule(c, Init(c, 0.0), 0.0, 0.0, 1000.0).lists == [[0], []];
    assert [] + [LATE_TIMERS[0]] == LATE_TIMERS[..1];
  }

  /** A tick over the empty slot, or before the deadlines, runs nothing and keeps both timers. */
  lemma LatePass(w: Wheel, slot: nat, now: real)
    requires w.lists == [[1, 0], []] && w.timers == LATE_TIMERS && w.pending == 2 && w.armed
    requires slot < 2 && (slot == 0 ==> now < 21.0)
    ensures TickOn(w, slot, now) == w.(current := slot, ticks := w.ticks + 1, clock := now, armedAt := now)
  {
    var list := w.lists[slot];
    NoneDue(LATE_TIMERS, list, now);
    assert Settle(LATE_TIMERS, [], Fired(now, w.ticks + 1)) == LATE_TIMERS;
    assert w.log + [] == w.log;
  }

  lemma {:induction false} NoneDue(timers: seq<Timer>, list: seq<nat>, now: real)
    requires forall i :: 0 <= i < |list| ==> !Due(timers, list[i], now)
    ensures DueIn(timers, list, now) == [] && KeptIn(timers, list, now) == list
  {
    if list != [] {
      NoneDue(timers, list[1..], now);
    }
  }

  /** The n-th tick, over the slot it reaches. */
  lemma LateTickOn(n: nat, slot: nat, now: real)
    requires n < 3 && slot == (n + 1) % 2 && now == 10.0 * (n + 1) as real
    ensures TickOn(LateState(n), slot, now) == LateState(n + 1)
  {
    LatePass(LateState(n), slot, now);
  }

  lemma LateTick(n: nat)
    requires n < 3
    ensures Tick(LATE_CONFIG, LateState(n), 10.0 * (n + 1) as real) == LateState(n + 1)
  {
    hide TickOn;
    LateTickOn(n, (n + 1) % 2, 10.0 * (n + 1) as real);
  }

  lemma LateTickStep(n: nat)
    requires n < 3
    ensures
      var e := TickAt(10.0 * (n + 1) as real);
      && Enabled(LATE_CONFIG, LateState(n), e)
      && (WellLinked(LATE_CONFIG, LateState(n)) ==> Next(LATE_CONFIG, LateState(n), e) == LateState(n + 1))
  {
    hide TickOn;
    LateTick(n);
  }

  lemma LateFirstLinked()
    ensures Inv(LATE_CONFIG, Init(LATE_CONFIG, 0.0)) && Inv(LATE_CONFIG, LATE_FIRST)
  {
    InitKeeps(LATE_CONFIG, 0.0);
    LateSchedules();
    ScheduleKeeps(LATE_CONFIG, Init(LATE_CONFIG, 0.0), 0.0, 0.0, 1000.0);
  }

  lemma {:induction false} LateLinked(n: nat)
    requires n <= 3
    ensures Inv(LATE_CONFIG, LateState(n))
  {
    if n == 0 {
      LateFirstLinked();
      LateSchedules();
      ScheduleKeeps(LATE_CONFIG, LATE_FIRST, 6.0, 6.0, 15.0);
    } else {
      LateLinked(n - 1);
      LateNextLinked(n - 1, n % 2, 10.0 * n as real);
    }
  }

  lemma LateNextLinked(n: nat, slot: nat, now: real)
    requires n < 3 && slot == (n + 1) % 2 && now == 10.0 * (n + 1) as real && Inv(LATE_CONFIG, LateState(n))
    ensures Inv(LATE_CONFIG, LateState(n + 1))
  {
    LateTickOn(n, slot, now);
    TickOnKeeps(LATE_CONFIG, LateState(n), slot, now);
  }

  function LateEnd(): Wheel { TickOn(LateState(3), 0, 40.0) }

  /** What is left of the run after n ticks leads to its end. */
  lemma {:induction false} LateTail(n: nat)
    requires n <= 3
    ensures After(LATE_CONFIG, LateState(n), LATE_RUN[n + 2..]) == LateEnd()
    decreases 3 - n
  {
    LateLinked(n);
    if n == 3 {
      assert LATE_RUN[5..] == [LATE_RUN[5]] + [];
      LateLastTick();
      Prepend(LATE_CONFIG, LateState(3), LATE_RUN[5], LateEnd(), []);
    } else {
      LateSuffix(n);
      LateTickStep(n);
      LateTail(n + 1);
      Prepend(LATE_CONFIG, LateState(n), TickAt(10.0 * (n + 1) as real), LateState(n + 1), LATE_RUN[n + 3..]);
    }
  }

  lemma LateSuffix(n: nat)
    requires n < 3
    ensures LATE_RUN[n + 2..] == [TickAt(10.0 * (n + 1) as real)] + LATE_RUN[n + 3..]
  {
  }

  lemma LateRunEnds()
    ensures After(LATE_CONFIG, Init(LATE_CONFIG, 0.0), LATE_RUN) == LateEnd()
  {
    hide WellLinked, Schedule, LateState, TickOn;
    LateFirstLinked();
    LateSchedules();
    LateTail(0);
    assert LATE_RUN == [LATE_RUN[0]] + ([LATE_RUN[1]] + LATE_RUN[2..]);
    Prepend(LATE_CONFIG, LATE_FIRST, LATE_RUN[1], LateState(0), LATE_RUN[2..]);
    Prepend(LATE_CONFIG, Init(LATE_CONFIG, 0.0), LATE_RUN[0], LATE_FIRST, [LATE_RUN[1]] + LATE_RUN[2..]);
  }

  /** Every tick comes on time, the deadline is 21, and the callback runs at 40. */
  lemma LateByMoreThanATick()
    ensures
      var w := After(LATE_CONFIG, Init(LATE_CONFIG, 0.0), LATE_RUN);
      && |w.timers| == 2
      && w.timers[1].deadline == 21.0
      && w.timers[1].fate == Fired(40.0, 4)
      && w.timers[1].fate.at > w.timers[1].deadline + LATE_CONFIG.tickMs as real
  {
    LateRunEnds();
    LateLinked(3);
    TickFiresExactly(LATE_CONFIG, LateState(3), 0, 40.0, 1);
  }

  lemma LateLastTick()
    ensures Enabled(LATE_CONFIG, LateState(3), LATE_RUN[5])
    ensures WellLinked(LATE_CONFIG, LateState(3)) ==> Next(LATE_CONFIG, LateState(3), LATE_RUN[5]) == LateEnd()
  {
  }
}
