/** The TimerWheel class of src/http/timerWheel.ts: intrusive doubly linked lists in an array of slots, and one fine list.
    Every method is proved to perform the operation of the same name in TimerWheelSpec. A callback is one append to Ran. */
module TimerWheels {
  import opened Prelude
  import opened SlotMask
  import Spec = TimerWheelSpec

  class TimerEntry {
    ghost const id: nat
    const deadline: real
    const slot: int
    const fine: bool
    var prev: TimerEntry?
    var next: TimerEntry?
    var cancelled: bool

    constructor (ghost id: nat, deadline: real, slot: int, fine: bool)
      ensures this.id == id && this.deadline == deadline && this.slot == slot && this.fine == fine
      ensures prev == null && next == null && !cancelled
    {
      this.id, this.deadline, this.slot, this.fine := id, deadline, slot, fine;
      prev, next, cancelled := null, null, false;
    }
  }

  /** The nodes of list, in order, form a null-terminated doubly linked chain without repetition. */
  ghost predicate Chain(list: seq<TimerEntry>)
    reads list
  {
    && (forall k {:trigger list[k].prev} :: 0 <= k < |list| ==> list[k].prev == if k == 0 then null else list[k - 1])
    && (forall k {:trigger list[k].next} :: 0 <= k < |list| ==> list[k].next == if k == |list| - 1 then null else list[k + 1])
    && NoDuplicates(list)
  }

  ghost predicate HeadOf(list: seq<TimerEntry>, head: TimerEntry?) {
    head == if list == [] then null else list[0]
  }

  /** The part of unlinking that does not touch a list head: the neighbours of entry are joined and its own links cleared. */
  method JoinNeighbours(entry: TimerEntry, ghost list: seq<TimerEntry>, ghost k: nat)
    requires Chain(list) && k < |list| && list[k] == entry
    modifies list
    ensures Chain(RemoveAt(list, k)) && entry.prev == null && entry.next == null
    ensures forall j {:trigger list[j]} :: 0 <= j < |list| ==> list[j].cancelled == old(list[j].cancelled)
  {
    var prev, next := entry.prev, entry.next;
    if prev != null {
      prev.next := next;
    }
    if next != null {
      next.prev := prev;
    }
    entry.prev := null;
    entry.next := null;
    RejoinedChain(list, k);
  }

  /** The list without its k-th entry is a chain once the neighbours of that entry point at each other. */
  lemma RejoinedChain(list: seq<TimerEntry>, k: nat)
    requires NoDuplicates(list) && k < |list|
    requires forall j {:trigger list[j].prev} :: 0 <= j < |list| && j != k ==>
      list[j].prev == if j == k + 1 then (if k == 0 then null else list[k - 1]) else if j == 0 then null else list[j - 1]
    requires forall j {:trigger list[j].next} :: 0 <= j < |list| && j != k ==>
      list[j].next == if j + 1 == k then (if k == |list| - 1 then null else list[k + 1])
                      else if j == |list| - 1 then null else list[j + 1]
    ensures Chain(RemoveAt(list, k))
  {
    var rest := RemoveAt(list, k);
    forall j | 0 <= j < |rest|
      ensures rest[j].prev == if j == 0 then null else rest[j - 1]
      ensures rest[j].next == if j == |rest| - 1 then null else rest[j + 1]
    {
      assert rest[j] == if j < k then list[j] else list[j + 1];
    }
  }

  lemma OthersDiffer(list: seq<TimerEntry>, i: nat)
    requires NoDuplicates(list) && i < |list|
    ensures forall j {:trigger list[j]} :: 0 <= j < |list| && j != i ==> list[j] != list[i]
  {
  }

  /** Inserting at the head: the old head points back to entry. */
  method LinkBefore(entry: TimerEntry, head: TimerEntry?, ghost list: seq<TimerEntry>)
    requires Chain(list) && HeadOf(list, head) && entry !in list && entry.prev == null && entry.next == null
    modifies list, entry
    ensures Chain([entry] + list)
    ensures forall j {:trigger list[j]} :: 0 <= j < |list| ==> list[j].cancelled == old(list[j].cancelled)
    ensures entry.cancelled == old(entry.cancelled)
  {
    if head != null {
      head.prev := entry;
      entry.next := head;
    }
  }

  ghost function Ids(list: seq<TimerEntry>): seq<nat> {
    seq(|list|, k requires 0 <= k < |list| => list[k].id)
  }

  method Kill(entry: TimerEntry)
    modifies entry
    ensures entry.cancelled && entry.prev == null && entry.next == null
  {
    entry.cancelled := true;
    entry.prev := null;
    entry.next := null;
  }

  lemma ChainLinks(list: seq<TimerEntry>)
    requires Chain(list)
    ensures forall j {:trigger list[j]} :: 0 <= j < |list| ==> list[j].next == if j == |list| - 1 then null else list[j + 1]
    ensures NoDuplicates(list)
  {
  }

  /** Clearing a list for good: every node is cancelled and loses its links. */
  method ClearList(head: TimerEntry?, ghost list: seq<TimerEntry>)
    requires Chain(list) && HeadOf(list, head)
    modifies list
    ensures forall j {:trigger list[j]} :: 0 <= j < |list| ==> list[j].cancelled && list[j].prev == null && list[j].next == null
  {
    hide Chain, NoDuplicates;
    ChainLinks(list);
    var entry := head;
    ghost var i := 0;
    while entry != null
      invariant 0 <= i <= |list| && entry == if i < |list| then list[i] else null
      invariant forall j {:trigger list[j]} :: 0 <= j < i ==> list[j].cancelled && list[j].prev == null && list[j].next == null
      invariant forall j {:trigger list[j]} :: i <= j < |list| ==> list[j].next == if j == |list| - 1 then null else list[j + 1]
      decreases |list| - i
    {
      var next := entry.next;
      OthersDiffer(list, i);
      Kill(entry);
      entry := next;
      i := i + 1;
    }
  }

  lemma IdsWithout(list: seq<TimerEntry>, k: nat)
    requires k < |list| && NoDuplicates(Ids(list))
    ensures Ids(RemoveAt(list, k)) == Without(Ids(list), list[k].id)
  {
    if k == 0 {
      assert Ids(RemoveAt(list, 0)) == Ids(list)[1..];
    } else {
      assert Ids(list)[1..] == Ids(list[1..]) && Ids(list)[0] != Ids(list)[k];
      IdsWithout(list[1..], k - 1);
      assert RemoveAt(list, k) == [list[0]] + RemoveAt(list[1..], k - 1);
      assert Ids(RemoveAt(list, k)) == [list[0].id] + Ids(RemoveAt(list[1..], k - 1));
    }
  }

  lemma {:induction false} PassOneMore(timers: seq<Spec.Timer>, list: seq<nat>, x: nat, now: real)
    ensures Spec.DueIn(timers, list + [x], now) == Spec.DueIn(timers, list, now) + (if Spec.Due(timers, x, now) then [x] else [])
    ensures Spec.KeptIn(timers, list + [x], now) == Spec.KeptIn(timers, list, now) + (if Spec.Due(timers, x, now) then [] else [x])
  {
    if list == [] {
      assert [x][1..] == [];
    } else {
      assert (list + [x])[1..] == list[1..] + [x];
      PassOneMore(timers, list[1..], x, now);
    }
  }

  ghost predicate Known(issued: seq<TimerEntry>, e: TimerEntry) {
    e.id < |issued| && issued[e.id] == e
  }

  /** Where entries may be: slot lists hold coarse entries of that slot, the fine list fine ones. */
  ghost predicate Placed(lists: seq<seq<TimerEntry>>, fine: seq<TimerEntry>, issued: seq<TimerEntry>) {
    && (forall i {:trigger issued[i]} :: 0 <= i < |issued| ==> issued[i].id == i)
    && (forall s, k {:trigger lists[s][k]} :: 0 <= s < |lists| && 0 <= k < |lists[s]| ==>
          Known(issued, lists[s][k]) && lists[s][k].slot == s && !lists[s][k].fine)
    && (forall k {:trigger fine[k]} :: 0 <= k < |fine| ==> Known(issued, fine[k]) && fine[k].fine)
  }

  /** The lists and timers of an abstract wheel are those of the entries; cancelled holds their flags. */
  ghost predicate Mirrors(m: Spec.Wheel, lists: seq<seq<TimerEntry>>, fine: seq<TimerEntry>,
                          issued: seq<TimerEntry>, cancelled: seq<bool>) {
    && |m.lists| == |lists| && |m.timers| == |issued| == |cancelled|
    && (forall s {:trigger lists[s]} {:trigger m.lists[s]} :: 0 <= s < |lists| ==> m.lists[s] == Ids(lists[s]))
    && m.fine == Ids(fine)
    && (forall i {:trigger issued[i]} {:trigger m.timers[i]} {:trigger cancelled[i]} :: 0 <= i < |issued| ==>
          && m.timers[i].deadline == issued[i].deadline && m.timers[i].slot == issued[i].slot
          && m.timers[i].fine == issued[i].fine && (m.timers[i].fate.Pending? <==> !cancelled[i]))
  }

  /** The scalar fields of an abstract wheel. */
  ghost predicate Fields(m: Spec.Wheel, current: nat, armed: bool, pending: int, fineArmed: bool, finePending: int,
                         log: seq<nat>) {
    && m.current == current && m.armed == armed && m.pending == pending
    && m.fineArmed == fineArmed && m.finePending == finePending && m.log == log
  }

  lemma PlacedAfterRemoval(lists: seq<seq<TimerEntry>>, fine: seq<TimerEntry>, issued: seq<TimerEntry>, s: nat, k: nat)
    requires Placed(lists, fine, issued) && s < |lists| && k < |lists[s]|
    ensures Placed(lists[s := RemoveAt(lists[s], k)], fine, issued)
    ensures forall j, i {:trigger lists[j][i]} :: 0 <= j < |lists| && j != s && 0 <= i < |lists[j]| ==> lists[j][i] !in lists[s]
    ensures forall i {:trigger fine[i]} :: 0 <= i < |fine| ==> fine[i] !in lists[s]
    ensures forall i {:trigger lists[s][i]} :: 0 <= i < |lists[s]| ==> lists[s][i] in issued
  {
  }

  lemma PlacedAfterPush(lists: seq<seq<TimerEntry>>, fine: seq<TimerEntry>, issued: seq<TimerEntry>, entry: TimerEntry)
    requires Placed(lists, fine, issued) && entry.id == |issued| && 0 <= entry.slot < |lists| && !entry.fine
    ensures Placed(lists[entry.slot := [entry] + lists[entry.slot]], fine, issued + [entry])
    ensures forall s, i {:trigger lists[s][i]} :: 0 <= s < |lists| && 0 <= i < |lists[s]| ==>
              lists[s][i] != entry && lists[s][i] in issued && (s != entry.slot ==> lists[s][i] !in lists[entry.slot])
    ensures forall i {:trigger fine[i]} :: 0 <= i < |fine| ==> fine[i] != entry && fine[i] !in lists[entry.slot]
    ensures entry !in issued
  {
  }

  /** The head of a list whose k-th entry is unlinked. */
  lemma HeadAfterRemoval(list: seq<TimerEntry>, k: nat, head: TimerEntry?)
    requires Chain(list) && k < |list| && HeadOf(list, head)
    ensures HeadOf(RemoveAt(list, k), if list[k].prev == null then list[k].next else head)
  {
  }

  lemma MirrorsNormal(c: Spec.Config, m: Spec.Wheel, lists: seq<seq<TimerEntry>>, fine: seq<TimerEntry>,
                      issued: seq<TimerEntry>, cancelled: seq<bool>,
                      entry: TimerEntry, clock: real, now: real, timeoutMs: real)
    requires Spec.ValidConfig(c) && |m.lists| == c.slots && Mirrors(m, lists, fine, issued, cancelled)
    requires entry.id == |issued| && entry.slot == Spec.SlotFor(c, m, timeoutMs) && !entry.fine
    requires entry.deadline == now + timeoutMs
    ensures Mirrors(Spec.ScheduleNormal(c, m, clock, now, timeoutMs), lists[entry.slot := [entry] + lists[entry.slot]], fine,
                    issued + [entry], cancelled + [false])
  {
    assert Ids([entry] + lists[entry.slot]) == [entry.id] + Ids(lists[entry.slot]);
  }

  lemma MirrorsFine(c: Spec.Config, m: Spec.Wheel, lists: seq<seq<TimerEntry>>, fine: seq<TimerEntry>,
                    issued: seq<TimerEntry>, cancelled: seq<bool>,
                    entry: TimerEntry, clock: real, now: real, timeoutMs: real)
    requires Mirrors(m, lists, fine, issued, cancelled)
    requires entry.id == |issued| && entry.slot == -1 && entry.fine && entry.deadline == now + timeoutMs
    ensures Mirrors(Spec.ScheduleFine(c, m, clock, now, timeoutMs), lists, [entry] + fine, issued + [entry], cancelled + [false])
  {
    assert Ids([entry] + fine) == [entry.id] + Ids(fine);
  }

  lemma MirrorsCancelNormal(m: Spec.Wheel, lists: seq<seq<TimerEntry>>, fine: seq<TimerEntry>,
                            issued: seq<TimerEntry>, cancelled: seq<bool>, id: nat, k: nat, clock: real)
    requires Mirrors(m, lists, fine, issued, cancelled) && id < |issued|
    requires 0 <= issued[id].slot < |lists| && k < |lists[issued[id].slot]|
    requires lists[issued[id].slot][k].id == id && NoDuplicates(m.lists[issued[id].slot])
    ensures Mirrors(Spec.CancelNormal(m, clock, id), lists[issued[id].slot := RemoveAt(lists[issued[id].slot], k)], fine,
                    issued, cancelled[id := true])
  {
    IdsWithout(lists[issued[id].slot], k);
  }

  lemma MirrorsCancelFine(m: Spec.Wheel, lists: seq<seq<TimerEntry>>, fine: seq<TimerEntry>,
                          issued: seq<TimerEntry>, cancelled: seq<bool>, id: nat, k: nat, clock: real)
    requires Mirrors(m, lists, fine, issued, cancelled) && id < |issued|
    requires k < |fine| && fine[k].id == id && NoDuplicates(m.fine)
    ensures Mirrors(Spec.CancelFine(m, clock, id), lists, RemoveAt(fine, k), issued, cancelled[id := true])
  {
    IdsWithout(fine, k);
  }

  /** The flags after those of ids are raised. */
  ghost function Raise(cancelled: seq<bool>, ids: seq<nat>): seq<bool> {
    seq(|cancelled|, i requires 0 <= i < |cancelled| => cancelled[i] || i in ids)
  }

  /** Entries on a list are pending, so none of their flags is raised. */
  lemma ListedAreLive(c: Spec.Config, m: Spec.Wheel, lists: seq<seq<TimerEntry>>, fine: seq<TimerEntry>,
                      issued: seq<TimerEntry>, cancelled: seq<bool>)
    requires Spec.ValidConfig(c) && Spec.WellLinked(c, m) && Mirrors(m, lists, fine, issued, cancelled)
    ensures forall s {:trigger m.lists[s]} :: 0 <= s < |m.lists| ==> NoDuplicates(m.lists[s]) && AllLive(m.lists[s], cancelled)
    ensures NoDuplicates(m.fine) && AllLive(m.fine, cancelled)
  {
    forall s, k | 0 <= s < |m.lists| && 0 <= k < |m.lists[s]|
      ensures m.lists[s][k] < |cancelled| && !cancelled[m.lists[s][k]]
    {
      assert m.lists[s][k] in m.lists[s];
    }
    forall k | 0 <= k < |m.fine|
      ensures m.fine[k] < |cancelled| && !cancelled[m.fine[k]]
    {
      assert m.fine[k] in m.fine;
    }
  }

  ghost predicate AllLive(ids: seq<nat>, cancelled: seq<bool>) {
    forall k {:trigger ids[k]} :: 0 <= k < |ids| ==> ids[k] < |cancelled| && !cancelled[ids[k]]
  }

  /** A pass over list has visited its first i entries: kept stayed, due ran, and flags says so. */
  ghost predicate Swept(timers: seq<Spec.Timer>, list: seq<TimerEntry>, i: nat, now: real, before: seq<bool>,
                        kept: seq<TimerEntry>, due: seq<nat>, flags: seq<bool>) {
    && i <= |list|
    && Ids(kept) == Spec.KeptIn(timers, Ids(list)[..i], now)
    && due == Spec.DueIn(timers, Ids(list)[..i], now)
    && flags == Raise(before, due)
  }

  ghost predicate Sweepable(timers: seq<Spec.Timer>, list: seq<TimerEntry>, before: seq<bool>) {
    && NoDuplicates(Ids(list)) && AllLive(Ids(list), before)
    && forall k {:trigger list[k]} :: 0 <= k < |list| ==>
         list[k].id < |timers| == |before| && timers[list[k].id].deadline == list[k].deadline
  }

  ghost predicate OnSlot(list: seq<TimerEntry>, slot: nat) {
    forall k {:trigger list[k]} :: 0 <= k < |list| ==> list[k].slot == slot
  }

  lemma SweptStart(timers: seq<Spec.Timer>, list: seq<TimerEntry>, now: real, before: seq<bool>)
    ensures Swept(timers, list, 0, now, before, [], [], before)
  {
    assert Raise(before, []) == before;
  }

  lemma SweptNext(timers: seq<Spec.Timer>, list: seq<TimerEntry>, i: nat, now: real, before: seq<bool>,
                  kept: seq<TimerEntry>, due: seq<nat>, flags: seq<bool>)
    requires Sweepable(timers, list, before) && i < |list| && Swept(timers, list, i, now, before, kept, due, flags)
    ensures list[i].id < |flags| && !flags[list[i].id]
    ensures list[i].deadline <= now ==>
              Swept(timers, list, i + 1, now, before, kept, due + [list[i].id], flags[list[i].id := true])
    ensures list[i].deadline > now ==> Swept(timers, list, i + 1, now, before, kept + [list[i]], due, flags)
  {
    var ids, x := Ids(list), list[i].id;
    assert ids[..i + 1] == ids[..i] + [x];
    PassOneMore(timers, ids[..i], x, now);
    assert NoDuplicates(ids[..i]);
    Spec.PassFacts(timers, ids[..i], now);
    assert ids[i] == x && x !in ids[..i];
    assert Raise(before, due + [x]) == Raise(before, due)[x := true];
    assert Ids(kept + [list[i]]) == Ids(kept) + [x];
  }

  /** What the loop of a tick has done after i entries of list: the entries it left, the callbacks it ran, the flags. */
  ghost function Stay(list: seq<TimerEntry>, i: nat, now: real): seq<TimerEntry>
    requires i <= |list|
  {
    if i == 0 then [] else if list[i - 1].deadline <= now then Stay(list, i - 1, now) else Stay(list, i - 1, now) + [list[i - 1]]
  }

  ghost function Gone(list: seq<TimerEntry>, i: nat, now: real): seq<nat>
    requires i <= |list|
  {
    if i == 0 then [] else if list[i - 1].deadline <= now then Gone(list, i - 1, now) + [list[i - 1].id] else Gone(list, i - 1, now)
  }

  /** The list itself after i entries: what stayed, then what has not been visited. */
  ghost function Remaining(list: seq<TimerEntry>, i: nat, now: real): (r: seq<TimerEntry>)
    requires i <= |list|
    ensures |r| == |Stay(list, i, now)| + |list| - i
  {
    if i == 0 then list
    else if list[i - 1].deadline <= now then RemoveAt(Remaining(list, i - 1, now), |Stay(list, i - 1, now)|)
    else Remaining(list, i - 1, now)
  }

  lemma {:induction false} RemainingParts(list: seq<TimerEntry>, i: nat, now: real)
    requires i <= |list|
    ensures Remaining(list, i, now) == Stay(list, i, now) + list[i..]
  {
    if i > 0 {
      RemainingParts(list, i - 1, now);
      SplitAt(list, i - 1);
      MoveAcross(Stay(list, i - 1, now), list[i - 1], list[i..]);
    }
  }

  /** Where the loop stands: the next entry to visit is at position |Stay| of the remaining list. */
  lemma CursorFacts(list: seq<TimerEntry>, i: nat, now: real)
    requires i <= |list|
    ensures i < |list| ==> Remaining(list, i, now)[|Stay(list, i, now)|] == list[i]
    ensures i == |list| ==> Remaining(list, i, now) == Stay(list, i, now)
  {
    RemainingParts(list, i, now);
  }

  ghost function RanAfter(list: seq<TimerEntry>, i: nat, now: real, ran: seq<nat>): seq<nat>
    requires i <= |list|
  {
    if i == 0 then ran else if list[i - 1].deadline <= now then RanAfter(list, i - 1, now, ran) + [list[i - 1].id]
    else RanAfter(list, i - 1, now, ran)
  }

  lemma {:induction false} RanIsGone(list: seq<TimerEntry>, i: nat, now: real, ran: seq<nat>)
    requires i <= |list|
    ensures RanAfter(list, i, now, ran) == ran + Gone(list, i, now)
  {
    if i > 0 {
      RanIsGone(list, i - 1, now, ran);
      AppendAssociates(ran, Gone(list, i - 1, now), [list[i - 1].id]);
    }
  }

  ghost function Raised(list: seq<TimerEntry>, i: nat, now: real, before: seq<bool>): (r: seq<bool>)
    requires i <= |list| && forall k :: 0 <= k < |list| ==> list[k].id < |before|
    ensures |r| == |before|
  {
    if i == 0 then before
    else if list[i - 1].deadline <= now then Raised(list, i - 1, now, before)[list[i - 1].id := true]
    else Raised(list, i - 1, now, before)
  }

  lemma {:induction false} SweptAll(timers: seq<Spec.Timer>, list: seq<TimerEntry>, i: nat, now: real, before: seq<bool>)
    requires Sweepable(timers, list, before) && i <= |list|
    ensures Swept(timers, list, i, now, before, Stay(list, i, now), Gone(list, i, now), Raised(list, i, now, before))
  {
    if i == 0 {
      SweptStart(timers, list, now, before);
    } else {
      SweptAll(timers, list, i - 1, now, before);
      SweptNext(timers, list, i - 1, now, before, Stay(list, i - 1, now), Gone(list, i - 1, now), Raised(list, i - 1, now, before));
    }
  }

  lemma PassStarts(timers: seq<Spec.Timer>, list: seq<TimerEntry>, now: real, before: seq<bool>, ran: seq<nat>)
    requires Sweepable(timers, list, before)
    ensures forall k :: 0 <= k < |list| ==> list[k].id < |before|
    ensures Raised(list, 0, now, before) == before && RanAfter(list, 0, now, ran) == ran
  {
  }

  lemma PassMoves(list: seq<TimerEntry>, i: nat, now: real, before: seq<bool>, ran: seq<nat>)
    requires i < |list| && forall k :: 0 <= k < |list| ==> list[k].id < |before|
    ensures
      var flags, log := Raised(list, i, now, before), RanAfter(list, i, now, ran);
      if list[i].deadline <= now then
        Raised(list, i + 1, now, before) == flags[list[i].id := true] && RanAfter(list, i + 1, now, ran) == log + [list[i].id]
      else
        Raised(list, i + 1, now, before) == flags && RanAfter(list, i + 1, now, ran) == log
  {
  }

  /** The entry about to be visited is still live. */
  lemma NotYetRaised(timers: seq<Spec.Timer>, list: seq<TimerEntry>, i: nat, now: real, before: seq<bool>)
    requires Sweepable(timers, list, before) && i < |list|
    ensures !Raised(list, i, now, before)[list[i].id]
  {
    SweptAll(timers, list, i, now, before);
    SweptNext(timers, list, i, now, before, Stay(list, i, now), Gone(list, i, now), Raised(list, i, now, before));
  }

  lemma MirrorsTick(c: Spec.Config, m: Spec.Wheel, lists: seq<seq<TimerEntry>>, fine: seq<TimerEntry>,
                    issued: seq<TimerEntry>, before: seq<bool>, slot: nat, now: real)
    requires Spec.ValidConfig(c) && |m.lists| == c.slots && Mirrors(m, lists, fine, issued, before)
    requires slot == (m.current + 1) % c.slots && slot < |lists| && Sweepable(m.timers, lists[slot], before)
    ensures Mirrors(Spec.Tick(c, m, now), lists[slot := Stay(lists[slot], |lists[slot]|, now)], fine, issued,
                    Raised(lists[slot], |lists[slot]|, now, before))
    ensures m.lists[slot] == Ids(lists[slot]) && |before| == |m.timers|
  {
    hide Spec.KeptIn, Spec.DueIn, Spec.Settle, Sweepable, Stay, Raised, Raise;
    var list := lists[slot];
    SweptAll(m.timers, list, |list|, now, before);
    assert Ids(list)[..|list|] == Ids(list);
    var due := Spec.DueIn(m.timers, Ids(list), now);
    MirrorsSettled(m, Spec.Tick(c, m, now), lists, fine, issued, before, slot, Stay(list, |list|, now), due,
                   Spec.Fired(now, m.ticks + 1));
  }

  /** Settling the timers of due mirrors raising their flags. */
  lemma MirrorsSettled(m: Spec.Wheel, t: Spec.Wheel, lists: seq<seq<TimerEntry>>, fine: seq<TimerEntry>,
                       issued: seq<TimerEntry>, before: seq<bool>, slot: nat, stay: seq<TimerEntry>, due: seq<nat>,
                       fate: Spec.Fate)
    requires Mirrors(m, lists, fine, issued, before) && slot < |lists| && fate.Fired?
    requires t.lists == m.lists[slot := Ids(stay)] && t.fine == m.fine && t.timers == Spec.Settle(m.timers, due, fate)
    ensures Mirrors(t, lists[slot := stay], fine, issued, Raise(before, due))
  {
  }

  lemma FieldsTick(c: Spec.Config, m: Spec.Wheel, slot: nat, now: real, list: seq<TimerEntry>, before: seq<bool>)
    requires Spec.ValidConfig(c) && |m.lists| == c.slots && slot == (m.current + 1) % c.slots
    requires Ids(list) == m.lists[slot] && Sweepable(m.timers, list, before) && |before| == |m.timers|
    ensures
      var log := RanAfter(list, |list|, now, m.log);
      var left := m.pending + |m.log| - |log|;
      Fields(Spec.Tick(c, m, now), slot, left > 0, left, m.fineArmed, m.finePending, log)
  {
    RanIsGone(list, |list|, now, m.log);
    SweptAll(m.timers, list, |list|, now, before);
    assert Ids(list)[..|list|] == Ids(list);
  }

  lemma MirrorsFineTick(m: Spec.Wheel, lists: seq<seq<TimerEntry>>, fine: seq<TimerEntry>,
                        issued: seq<TimerEntry>, before: seq<bool>, now: real)
    requires Mirrors(m, lists, fine, issued, before) && Sweepable(m.timers, fine, before)
    ensures Mirrors(Spec.FineTick(m, now), lists, Stay(fine, |fine|, now), issued, Raised(fine, |fine|, now, before))
    ensures m.fine == Ids(fine) && |before| == |m.timers|
  {
    SweptAll(m.timers, fine, |fine|, now, before);
    assert Ids(fine)[..|fine|] == Ids(fine);
  }

  lemma FieldsFineTick(m: Spec.Wheel, now: real, list: seq<TimerEntry>, before: seq<bool>)
    requires Ids(list) == m.fine && Sweepable(m.timers, list, before) && |before| == |m.timers|
    ensures
      var log := RanAfter(list, |list|, now, m.log);
      var left := m.finePending + |m.log| - |log|;
      Fields(Spec.FineTick(m, now), m.current, m.armed, m.pending, left > 0, left, log)
  {
    RanIsGone(list, |list|, now, m.log);
    SweptAll(m.timers, list, |list|, now, before);
    assert Ids(list)[..|list|] == Ids(list);
  }

  lemma MirroredIsSweepable(m: Spec.Wheel, lists: seq<seq<TimerEntry>>, fine: seq<TimerEntry>,
                            issued: seq<TimerEntry>, cancelled: seq<bool>, slot: nat)
    requires Mirrors(m, lists, fine, issued, cancelled) && Placed(lists, fine, issued) && slot < |lists|
    requires NoDuplicates(m.lists[slot]) && AllLive(m.lists[slot], cancelled)
    ensures Sweepable(m.timers, lists[slot], cancelled) && OnSlot(lists[slot], slot)
  {
  }

  lemma MirroredFineIsSweepable(m: Spec.Wheel, lists: seq<seq<TimerEntry>>, fine: seq<TimerEntry>,
                                issued: seq<TimerEntry>, cancelled: seq<bool>)
    requires Mirrors(m, lists, fine, issued, cancelled) && Placed(lists, fine, issued)
    requires NoDuplicates(m.fine) && AllLive(m.fine, cancelled)
    ensures Sweepable(m.timers, fine, cancelled)
  {
  }

  /** When every flag is raised and every list empty, the entries mirror a destroyed wheel. */
  lemma MirrorsDestroy(m: Spec.Wheel, lists: seq<seq<TimerEntry>>, fine: seq<TimerEntry>,
                       issued: seq<TimerEntry>, before: seq<bool>, empty: seq<seq<TimerEntry>>, flags: seq<bool>, clock: real)
    requires Mirrors(m, lists, fine, issued, before) && |flags| == |before| && |empty| == |lists|
    requires forall i {:trigger flags[i]} :: 0 <= i < |flags| ==> flags[i]
    requires forall s {:trigger empty[s]} :: 0 <= s < |empty| ==> empty[s] == []
    ensures Mirrors(Spec.Destroy(m, clock), empty, [], issued, flags)
  {
  }

  /** Flags only rise from before to after, and those of list have risen. */
  ghost predicate Risen(issued: seq<TimerEntry>, before: seq<bool>, after: seq<bool>, list: seq<TimerEntry>) {
    && |before| == |after| == |issued|
    && (forall i {:trigger after[i]} {:trigger before[i]} :: 0 <= i < |after| && before[i] ==> after[i])
    && (forall k {:trigger list[k]} :: 0 <= k < |list| ==> list[k].id < |after| && after[list[k].id])
  }

  /** Every timer not yet settled is on a list, so clearing all lists raises every flag. */
  lemma AllRisen(c: Spec.Config, m: Spec.Wheel, lists: seq<seq<TimerEntry>>, fine: seq<TimerEntry>,
                 issued: seq<TimerEntry>, before: seq<bool>, after: seq<bool>)
    requires Spec.ValidConfig(c) && Spec.WellLinked(c, m) && Mirrors(m, lists, fine, issued, before)
    requires Risen(issued, before, after, fine)
    requires forall s {:trigger lists[s]} :: 0 <= s < |lists| ==> Risen(issued, before, after, lists[s])
    ensures forall i {:trigger after[i]} :: 0 <= i < |after| ==> after[i]
  {
    forall i | 0 <= i < |after|
      ensures after[i]
    {
      var t := m.timers[i];
      if Spec.PendingFine(t) {
        assert i in m.fine;
        var k :| 0 <= k < |m.fine| && m.fine[k] == i;
        assert fine[k].id == i;
      } else if Spec.PendingCoarse(t) {
        assert i in m.lists[t.slot];
        var k :| 0 <= k < |m.lists[t.slot]| && m.lists[t.slot][k] == i;
        assert lists[t.slot][k].id == i && Risen(issued, before, after, lists[t.slot]);
      }
    }
  }

  class TimerWheel {
    const tickMs: nat
    const mask: nat
    const wheel: array<TimerEntry?>
    var currentTick: nat
    var timer: bool
    var pending: int
    const fineTickMs: nat
    const fineThresholdMs: real
    var fineHead: TimerEntry?
    var fineTimer: bool
    var finePending: int

    ghost var Lists: seq<seq<TimerEntry>>
    ghost var Fine: seq<TimerEntry>
    ghost var Issued: seq<TimerEntry>
    ghost var Ran: seq<nat>
    ghost var M: Spec.Wheel

    ghost function Conf(): Spec.Config {
      Spec.Config(tickMs, mask + 1, fineTickMs, fineThresholdMs)
    }

    /** The pointers: every slot list and the fine list is a chain starting at its head. */
    ghost predicate Links()
      reads this`Lists, this`Fine, this`fineHead, wheel, this`Issued, Issued
    {
      && wheel.Length == |Lists|
      && Placed(Lists, Fine, Issued)
      && (forall s {:trigger Lists[s]} :: 0 <= s < |Lists| ==> Chain(Lists[s]) && HeadOf(Lists[s], wheel[s]))
      && Chain(Fine) && HeadOf(Fine, fineHead)
    }

    ghost predicate Shape()
      reads this`Lists, this`Fine, this`fineHead, wheel, this`Issued, Issued
    {
      wheel.Length == mask + 1 && IsPow2(mask + 1) && Links()
    }

    ghost function Flags(): seq<bool>
      reads this`Issued, Issued
    {
      var issued := Issued;
      seq(|issued|, i requires 0 <= i < |issued| reads issued => issued[i].cancelled)
    }

    /** The abstract state M is what the fields and pointers say. */
    ghost predicate Tied()
      reads this, Issued
    {
      && Mirrors(M, Lists, Fine, Issued, Flags())
      && Fields(M, currentTick, timer, pending, fineTimer, finePending, Ran)
    }

    ghost predicate Valid()
      reads this, wheel, Issued
    {
      Shape() && Tied() && Spec.Inv(Conf(), M)
    }

    /** With a slot count that neither loops for ever nor throws. */
    constructor (configuredTickMs: Option<real>, configuredSlots: Option<real>, configuredFineTickMs: Option<real>,
                 configuredFineThresholdMs: Option<real>, ghost clock: real)
      requires !Endless(Or(configuredSlots, 512.0)) && !Throws(Or(configuredSlots, 512.0))
      ensures Valid() && fresh(wheel)
      ensures M == Spec.Init(Conf(), clock)
      ensures
        var configured := Or(configuredSlots, 512.0);
        (mask + 1) as real >= configured && (forall p: nat :: IsPow2(p) && p as real >= configured ==> mask + 1 <= p)
      ensures fineThresholdMs == Or(configuredFineThresholdMs, 50.0)
      ensures tickMs == ClampTick(Or(configuredTickMs, 10.0)) && fineTickMs == ClampTick(Or(configuredFineTickMs, 4.0))
    {
      var rounded := RoundSlots(Or(configuredSlots, 512.0));
      var slots := rounded.value;
      tickMs := ClampTick(Or(configuredTickMs, 10.0));
      fineTickMs := ClampTick(Or(configuredFineTickMs, 4.0));
      fineThresholdMs := Or(configuredFineThresholdMs, 50.0);
      mask := slots - 1;
      wheel := new TimerEntry?[slots](_ => null);
      currentTick, timer, pending := 0, false, 0;
      fineHead, fineTimer, finePending := null, false, 0;
      Lists, Fine, Issued, Ran := seq(slots, _ => []), [], [], [];
      new;
      Spec.InitKeeps(Conf(), clock);
      assert Shape();
      Commit(Spec.Init(Conf(), clock));
    }

    /** new TimerWheel(config), for every slot count with which it returns or throws; null when it throws. */
    static method Create(configuredTickMs: Option<real>, configuredSlots: Option<real>, configuredFineTickMs: Option<real>,
                         configuredFineThresholdMs: Option<real>, ghost clock: real) returns (wheel: TimerWheel?)
      requires !Endless(Or(configuredSlots, 512.0))
      ensures wheel == null <==> Throws(Or(configuredSlots, 512.0))
      ensures wheel != null ==> fresh(wheel) && wheel.Valid() && wheel.M == Spec.Init(wheel.Conf(), clock)
    {
      var rounded := RoundSlots(Or(configuredSlots, 512.0));
      if rounded.None? { return null; }
      wheel := new TimerWheel(configuredTickMs, configuredSlots, configuredFineTickMs, configuredFineThresholdMs, clock);
    }

    static function ClampTick(ms: real): (t: nat)
      ensures ms < 1.0 ==> t == 1
      ensures ms >= 16.0 ==> t == 16
      ensures 1.0 <= ms < 16.0 ==> 1 <= t < 16 && t as real <= ms < t as real + 1.0
    {
      if ms.Floor < 1 then 1 else if ms.Floor > 16 then 16 else ms.Floor
    }

    /** Record that the operation leading to the abstract state m is complete. */
    ghost method Commit(m: Spec.Wheel)
      requires Shape() && Mirrors(m, Lists, Fine, Issued, Flags())
      requires Fields(m, currentTick, timer, pending, fineTimer, finePending, Ran)
      modifies this`M
      ensures M == m && Tied() && Shape()
    {
      M := m;
    }

    /** entry leaves its slot list; no other list, counter or flag changes. */
    method Unlink(entry: TimerEntry, ghost k: nat)
      requires Shape() && 0 <= entry.slot < |Lists| && k < |Lists[entry.slot]| && Lists[entry.slot][k] == entry
      modifies this`Lists, wheel, Issued
      ensures Shape() && Lists == old(Lists)[entry.slot := RemoveAt(old(Lists)[entry.slot], k)]
      ensures Flags() == old(Flags())
    {
      hide Chain, HeadOf, Placed;
      ghost var slot, list := entry.slot, Lists[entry.slot];
      var prev, next := entry.prev, entry.next;
      HeadAfterRemoval(list, k, wheel[slot]);
      PlacedAfterRemoval(Lists, Fine, Issued, slot, k);
      JoinNeighbours(entry, list, k);
      if prev == null {
        wheel[entry.slot] := next;
      }
      Lists := Lists[slot := RemoveAt(list, k)];
      forall s | 0 <= s < |Lists| && s != slot
        ensures Chain(Lists[s])
      {
        assert unchanged(Lists[s]);
      }
      assert unchanged(Fine);
    }

    method UnlinkFine(entry: TimerEntry, ghost k: nat)
      requires Shape() && k < |Fine| && Fine[k] == entry
      modifies this`Fine, this`fineHead, Issued
      ensures Shape() && Fine == RemoveAt(old(Fine), k)
      ensures Flags() == old(Flags())
    {
      var prev, next := entry.prev, entry.next;
      ghost var list := Fine;
      JoinNeighbours(entry, list, k);
      if prev == null {
        fineHead := next;
      }
      Fine := RemoveAt(list, k);
      forall s | 0 <= s < |Lists|
        ensures Chain(Lists[s])
      {
        assert forall j :: 0 <= j < |Lists[s]| ==> Lists[s][j] !in list;
        assert unchanged(Lists[s]);
      }
    }

    method Schedule(timeoutMs: real, now: real, ghost clock: real) returns (entry: TimerEntry)
      requires Valid() && now <= clock && M.clock <= clock
      modifies this, wheel, Issued
      ensures Valid() && fresh(entry) && Issued == old(Issued) + [entry]
      ensures M == Spec.Schedule(Conf(), old(M), clock, now, timeoutMs)
    {
      Spec.StepKeeps(Conf(), M, Spec.ScheduleAt(clock, now, timeoutMs));
      if timeoutMs <= fineThresholdMs {
        entry := ScheduleFine(timeoutMs, now, clock);
      } else {
        entry := ScheduleNormal(timeoutMs, now, clock);
      }
    }

    /** entry becomes the newest timer and the first of its slot list. */
    method PushNormal(entry: TimerEntry)
      requires Shape() && entry.id == |Issued| && 0 <= entry.slot < |Lists| && !entry.fine
      requires entry.prev == null && entry.next == null
      modifies this`Lists, this`Issued, wheel, Issued, entry
      ensures Shape() && Issued == old(Issued) + [entry]
      ensures Lists == old(Lists)[entry.slot := [entry] + old(Lists)[entry.slot]]
      ensures Flags() == old(Flags()) + [old(entry.cancelled)]
    {
      hide Chain, Placed;
      var head := wheel[entry.slot];
      ghost var list := Lists[entry.slot];
      PlacedAfterPush(Lists, Fine, Issued, entry);
      LinkBefore(entry, head, list);
      wheel[entry.slot] := entry;
      Lists := Lists[entry.slot := [entry] + list];
      Issued := Issued + [entry];
      forall s | 0 <= s < |Lists| && s != entry.slot
        ensures Chain(Lists[s])
      {
        assert forall j :: 0 <= j < |Lists[s]| ==> Lists[s][j] !in list && Lists[s][j] != entry;
        assert unchanged(Lists[s]);
      }
      assert forall j :: 0 <= j < |Fine| ==> Fine[j] !in list && Fine[j] != entry;
      assert unchanged(Fine);
    }

    method EnsureTimer()
      modifies this`timer
      ensures timer <==> old(timer) || pending > 0
    {
      if !timer && pending > 0 {
        timer := true;
      }
    }

    method SlotAfter(timeoutMs: real) returns (slot: nat)
      requires Spec.ValidConfig(Conf()) && IsPow2(mask + 1) && M.current == currentTick
      ensures slot == Spec.SlotFor(Conf(), M, timeoutMs) < mask + 1
    {
      var wanted := Spec.Ceil(timeoutMs / tickMs as real);
      var ticks := if wanted < 1 then 1 else wanted;
      slot := And(currentTick + ticks, mask);
      MaskSlot(currentTick + ticks);
    }

    method ScheduleNormal(timeoutMs: real, now: real, ghost clock: real) returns (entry: TimerEntry)
      requires Shape() && Tied() && Spec.ValidConfig(Conf()) && pending >= 0
      modifies this, wheel, Issued
      ensures Shape() && Tied() && fresh(entry) && Issued == old(Issued) + [entry]
      ensures M == Spec.ScheduleNormal(Conf(), old(M), clock, now, timeoutMs)
    {
      var deadline := now + timeoutMs;
      var slot := SlotAfter(timeoutMs);
      entry := new TimerEntry(|Issued|, deadline, slot, false);
      InsertNormal(entry, timeoutMs, now, clock);
    }

    method InsertNormal(entry: TimerEntry, ghost timeoutMs: real, ghost now: real, ghost clock: real)
      requires Shape() && Tied() && Spec.ValidConfig(Conf()) && pending >= 0
      requires entry.id == |Issued| && !entry.fine && entry.prev == null && entry.next == null && !entry.cancelled
      requires entry.slot == Spec.SlotFor(Conf(), M, timeoutMs) < |Lists| && entry.deadline == now + timeoutMs
      modifies this, wheel, Issued, entry
      ensures Shape() && Tied() && Issued == old(Issued) + [entry]
      ensures M == Spec.ScheduleNormal(Conf(), old(M), clock, now, timeoutMs)
    {
      ghost var m := Spec.ScheduleNormal(Conf(), M, clock, now, timeoutMs);
      MirrorsNormal(Conf(), M, Lists, Fine, Issued, Flags(), entry, clock, now, timeoutMs);
      PushNormal(entry);
      assert Mirrors(m, Lists, Fine, Issued, Flags());
      CountNormal();
      Commit(m);
    }

    method CountNormal()
      modifies this`pending, this`timer
      ensures pending == old(pending) + 1
      ensures timer <==> old(timer) || pending > 0
    {
      pending := pending + 1;
      EnsureTimer();
    }

    lemma MaskSlot(x: nat)
      requires IsPow2(mask + 1)
      ensures And(x, mask) == x % (mask + 1)
    {
      var k: nat :| mask + 1 == Pow2(k);
      MaskIsModulo(x, k);
    }

    method PushFine(entry: TimerEntry)
      requires Shape() && entry.id == |Issued| && entry.fine
      requires entry.prev == null && entry.next == null
      modifies this`Fine, this`fineHead, this`Issued, Issued, entry
      ensures Shape() && Issued == old(Issued) + [entry] && Fine == [entry] + old(Fine)
      ensures Flags() == old(Flags()) + [old(entry.cancelled)]
    {
      hide Chain;
      ghost var list := Fine;
      LinkBefore(entry, fineHead, list);
      fineHead := entry;
      Fine := [entry] + list;
      Issued := Issued + [entry];
      forall s | 0 <= s < |Lists|
        ensures Chain(Lists[s])
      {
        assert forall j :: 0 <= j < |Lists[s]| ==> Lists[s][j] !in list && Lists[s][j] != entry;
        assert unchanged(Lists[s]);
      }
    }

    method EnsureFineTimer()
      modifies this`fineTimer
      ensures fineTimer <==> old(fineTimer) || finePending > 0
    {
      if !fineTimer && finePending > 0 {
        fineTimer := true;
      }
    }

    method ScheduleFine(timeoutMs: real, now: real, ghost clock: real) returns (entry: TimerEntry)
      requires Shape() && Tied() && finePending >= 0
      modifies this, wheel, Issued
      ensures Shape() && Tied() && fresh(entry) && Issued == old(Issued) + [entry]
      ensures M == Spec.ScheduleFine(Conf(), old(M), clock, now, timeoutMs)
    {
      var deadline := now + timeoutMs;
      entry := new TimerEntry(|Issued|, deadline, -1, true);
      InsertFine(entry, timeoutMs, now, clock);
    }

    method InsertFine(entry: TimerEntry, ghost timeoutMs: real, ghost now: real, ghost clock: real)
      requires Shape() && Tied() && finePending >= 0
      requires entry.id == |Issued| && entry.fine && entry.prev == null && entry.next == null && !entry.cancelled
      requires entry.slot == -1 && entry.deadline == now + timeoutMs
      modifies this, wheel, Issued, entry
      ensures Shape() && Tied() && Issued == old(Issued) + [entry]
      ensures M == Spec.ScheduleFine(Conf(), old(M), clock, now, timeoutMs)
    {
      hide Chain, HeadOf, Placed;
      ghost var m := Spec.ScheduleFine(Conf(), M, clock, now, timeoutMs);
      MirrorsFine(Conf(), M, Lists, Fine, Issued, Flags(), entry, clock, now, timeoutMs);
      PushFine(entry);
      assert Mirrors(m, Lists, Fine, Issued, Flags());
      CountFine();
      Commit(m);
    }

    method CountFine()
      modifies this`finePending, this`fineTimer
      ensures finePending == old(finePending) + 1
      ensures fineTimer <==> old(fineTimer) || finePending > 0
    {
      finePending := finePending + 1;
      EnsureFineTimer();
    }

    // ----- cancelling -----

    method MaybeStopTimer()
      requires Shape()
      modifies this`timer
      ensures Shape()
      ensures timer <==> old(timer) && pending != 0
    {
      if pending == 0 && timer {
        timer := false;
      }
    }

    method MaybeStopFineTimer()
      requires Shape()
      modifies this`fineTimer
      ensures Shape()
      ensures fineTimer <==> old(fineTimer) && finePending != 0
    {
      if finePending == 0 && fineTimer {
        fineTimer := false;
      }
    }

    /** entry is marked as over and leaves its slot list. */
    method RetireNormal(entry: TimerEntry, ghost k: nat)
      requires Shape() && 0 <= entry.slot < |Lists| && k < |Lists[entry.slot]| && Lists[entry.slot][k] == entry
      modifies this`Lists, this`pending, wheel, Issued
      ensures Shape() && Lists == old(Lists)[entry.slot := RemoveAt(old(Lists)[entry.slot], k)]
      ensures entry.id < |Issued| && Flags() == old(Flags())[entry.id := true] && pending == old(pending) - 1
    {
      Mark(entry);
      Unlink(entry, k);
      pending := pending - 1;
    }

    method RetireFine(entry: TimerEntry, ghost k: nat)
      requires Shape() && k < |Fine| && Fine[k] == entry
      modifies this`Fine, this`fineHead, this`finePending, Issued
      ensures Shape() && Fine == RemoveAt(old(Fine), k)
      ensures entry.id < |Issued| && Flags() == old(Flags())[entry.id := true] && finePending == old(finePending) - 1
    {
      Mark(entry);
      UnlinkFine(entry, k);
      finePending := finePending - 1;
    }

    method Mark(entry: TimerEntry)
      requires Shape() && Known(Issued, entry)
      modifies entry`cancelled
      ensures Shape() && Flags() == old(Flags())[entry.id := true]
    {
      entry.cancelled := true;
    }

    /** The cancel handle of entry. */
    method Cancel(entry: TimerEntry, ghost clock: real)
      requires Valid() && Known(Issued, entry) && M.clock <= clock
      modifies this, wheel, Issued
      ensures Valid() && Issued == old(Issued) && M == Spec.Cancel(old(M), clock, entry.id)
      ensures entry.cancelled && (old(entry.cancelled) ==> unchanged(wheel) && Lists == old(Lists) && Fine == old(Fine))
    {
      hide Spec.Counted, Spec.Logged, Spec.Punctual, Chain, HeadOf;
      Spec.StepKeeps(Conf(), M, Spec.CancelAt(clock, entry.id));
      if entry.cancelled {
        Commit(Spec.Cancel(M, clock, entry.id));
        return;
      }
      if entry.fine {
        ghost var k: nat :| k < |M.fine| && M.fine[k] == entry.id;
        CancelFine(entry, k, clock);
      } else {
        ghost var k: nat :| k < |M.lists[entry.slot]| && M.lists[entry.slot][k] == entry.id;
        CancelNormal(entry, k, clock);
      }
    }

    method CancelNormal(entry: TimerEntry, ghost k: nat, ghost clock: real)
      requires Shape() && Tied() && 0 <= entry.slot < |Lists| && k < |Lists[entry.slot]| && Lists[entry.slot][k] == entry
      requires entry.id < |Issued| && Issued[entry.id] == entry && NoDuplicates(M.lists[entry.slot])
      modifies this, wheel, Issued
      ensures Shape() && Tied() && Issued == old(Issued) && M == Spec.CancelNormal(old(M), clock, entry.id)
    {
      MirrorsCancelNormal(M, Lists, Fine, Issued, Flags(), entry.id, k, clock);
      RetireNormal(entry, k);
      MaybeStopTimer();
      Commit(Spec.CancelNormal(M, clock, entry.id));
    }

    method CancelFine(entry: TimerEntry, ghost k: nat, ghost clock: real)
      requires Shape() && Tied() && k < |Fine| && Fine[k] == entry
      requires entry.id < |Issued| && Issued[entry.id] == entry && NoDuplicates(M.fine)
      modifies this, wheel, Issued
      ensures Shape() && Tied() && Issued == old(Issued) && M == Spec.CancelFine(old(M), clock, entry.id)
    {
      MirrorsCancelFine(M, Lists, Fine, Issued, Flags(), entry.id, k, clock);
      RetireFine(entry, k);
      MaybeStopFineTimer();
      Commit(Spec.CancelFine(M, clock, entry.id));
    }

    // ----- ticks -----

    /** The coarse timeout runs: the wheel moves on one slot and runs what is due there. */
    method Tick(now: real)
      requires Valid() && Spec.Enabled(Conf(), M, Spec.TickAt(now))
      modifies this, wheel, Issued
      ensures Valid() && Issued == old(Issued) && M == Spec.Tick(Conf(), old(M), now)
    {
      Spec.StepKeeps(Conf(), M, Spec.TickAt(now));
      ListedAreLive(Conf(), M, Lists, Fine, Issued, Flags());
      AdvanceAndSweep(now);
    }

    method AdvanceAndSweep(now: real)
      requires Shape() && Tied() && Spec.ValidConfig(Conf())
      requires
        var slot := (currentTick + 1) % (mask + 1);
        NoDuplicates(M.lists[slot]) && AllLive(M.lists[slot], Flags())
      modifies this, wheel, Issued
      ensures Shape() && Tied() && Issued == old(Issued) && M == Spec.Tick(Conf(), old(M), now)
    {
      MirroredIsSweepable(M, Lists, Fine, Issued, Flags(), (currentTick + 1) % (mask + 1));
      Advance();
      RunSlot(now);
    }

    method Advance()
      requires Shape()
      modifies this`timer, this`currentTick
      ensures Shape() && !timer && currentTick == (old(currentTick) + 1) % (mask + 1)
    {
      timer := false;
      MaskSlot(currentTick + 1);
      currentTick := And(currentTick + 1, mask);
    }

    /** The rest of a tick once the wheel has moved on: the pass over the slot, and the timeout set again if needed. */
    method RunSlot(now: real)
      requires Shape() && Spec.ValidConfig(Conf()) && |M.lists| == mask + 1
      requires Mirrors(M, Lists, Fine, Issued, Flags()) && Fields(M, M.current, M.armed, pending, fineTimer, finePending, Ran)
      requires !timer && currentTick == (M.current + 1) % (mask + 1)
      requires Sweepable(M.timers, Lists[currentTick], Flags()) && OnSlot(Lists[currentTick], currentTick)
      modifies this, wheel, Issued
      ensures Shape() && Tied() && Issued == old(Issued) && M == Spec.Tick(Conf(), old(M), now)
    {
      hide Mirrors, Sweepable, Spec.Tick, Stay, Raised, RanAfter;
      ghost var m, lists, flags := M, Lists, Flags();
      MirrorsTick(Conf(), m, lists, Fine, Issued, flags, currentTick, now);
      FieldsTick(Conf(), m, currentTick, now, lists[currentTick], flags);
      SweepSlot(now, m.timers, lists[currentTick], flags);
      EnsureTimer();
      Commit(Spec.Tick(Conf(), m, now));
    }

    /** A due entry is marked, unlinked and its callback runs. */
    method ExpireNormal(entry: TimerEntry, ghost k: nat)
      requires Shape() && 0 <= entry.slot < |Lists| && k < |Lists[entry.slot]| && Lists[entry.slot][k] == entry
      modifies this`Lists, this`pending, this`Ran, wheel, Issued
      ensures Shape() && Lists == old(Lists)[entry.slot := RemoveAt(old(Lists)[entry.slot], k)]
      ensures entry.id < |Issued| && Flags() == old(Flags())[entry.id := true]
      ensures pending == old(pending) - 1 && Ran == old(Ran) + [entry.id]
    {
      RetireNormal(entry, k);
      Ran := Ran + [entry.id];
    }

    /** One turn of the loop of a tick: the successor is saved first, then entry runs if it is due. */
    method Visit(entry: TimerEntry, now: real, ghost k: nat) returns (next: TimerEntry?)
      requires Shape() && 0 <= entry.slot < |Lists| && k < |Lists[entry.slot]| && Lists[entry.slot][k] == entry
      requires entry.id < |Issued| && !Flags()[entry.id]
      modifies this`Lists, this`pending, this`Ran, wheel, Issued
      ensures Shape() && next == if k == |old(Lists)[entry.slot]| - 1 then null else old(Lists)[entry.slot][k + 1]
      ensures
        if entry.deadline <= now then
          && Lists == old(Lists)[entry.slot := RemoveAt(old(Lists)[entry.slot], k)]
          && entry.id < |Issued| && Flags() == old(Flags())[entry.id := true]
          && pending == old(pending) - 1 && Ran == old(Ran) + [entry.id]
        else
          Lists == old(Lists) && Flags() == old(Flags()) && pending == old(pending) && Ran == old(Ran)
    {
      next := entry.next;
      if entry.deadline <= now {
        if !entry.cancelled {
          ExpireNormal(entry, k);
        } else {
          assert false;
        }
      }
    }

    /** The loop of a tick over the current slot. */
    method SweepSlot(now: real, ghost timers: seq<Spec.Timer>, ghost list: seq<TimerEntry>, ghost before: seq<bool>)
      requires Shape() && currentTick < |Lists| && list == Lists[currentTick] && before == Flags()
      requires OnSlot(list, currentTick) && Sweepable(timers, list, before)
      modifies this`Lists, this`pending, this`Ran, wheel, Issued
      ensures Shape() && Lists == old(Lists)[currentTick := Stay(list, |list|, now)]
      ensures Flags() == Raised(list, |list|, now, before)
      ensures Ran == RanAfter(list, |list|, now, old(Ran)) && pending + |Ran| == old(pending + |Ran|)
    {
      hide Sweepable, Raised, RanAfter, Chain, Placed;
      ghost var i, lists := 0, Lists;
      var entry := wheel[currentTick];
      PassStarts(timers, list, now, before, Ran);
      while entry != null
        invariant Shape() && i <= |list| && Lists == lists[currentTick := Remaining(list, i, now)]
        invariant entry == if i == |list| then null else Remaining(list, i, now)[|Stay(list, i, now)|]
        invariant Flags() == Raised(list, i, now, before)
        invariant Ran == RanAfter(list, i, now, old(Ran)) && pending + |Ran| == old(pending + |Ran|)
        decreases |list| - i
      {
        ghost var k, r := |Stay(list, i, now)|, Remaining(list, i, now);
        CursorFacts(list, i, now);
        NotYetRaised(timers, list, i, now, before);
        PassMoves(list, i, now, before, old(Ran));
        UpdateTwice(lists, currentTick, r, RemoveAt(r, k));
        entry := Visit(entry, now, k);
        i := i + 1;
      }
      CursorFacts(list, i, now);
    }

    /** The fine timeout runs: every fine entry that is due runs. */
    method FineTick(now: real)
      requires Valid() && Spec.Enabled(Conf(), M, Spec.FineTickAt(now))
      modifies this, wheel, Issued
      ensures Valid() && Issued == old(Issued) && M == Spec.FineTick(old(M), now)
    {
      hide Spec.FineTick, Spec.WellLinked, Spec.Counted, Spec.Logged, Spec.Punctual;
      Spec.StepKeeps(Conf(), M, Spec.FineTickAt(now));
      ListedAreLive(Conf(), M, Lists, Fine, Issued, Flags());
      MirroredFineIsSweepable(M, Lists, Fine, Issued, Flags());
      StopFineTimer();
      RunFine(now);
    }

    method RunFine(now: real)
      requires Shape() && Mirrors(M, Lists, Fine, Issued, Flags())
      requires Fields(M, currentTick, timer, pending, M.fineArmed, finePending, Ran) && !fineTimer
      requires Sweepable(M.timers, Fine, Flags())
      modifies this, wheel, Issued
      ensures Shape() && Tied() && Issued == old(Issued) && M == Spec.FineTick(old(M), now)
    {
      hide Mirrors, Sweepable, Spec.FineTick, Stay, Raised, RanAfter;
      ghost var m, fine, flags := M, Fine, Flags();
      MirrorsFineTick(m, Lists, fine, Issued, flags, now);
      FieldsFineTick(m, now, fine, flags);
      SweepFine(now, m.timers, fine, flags);
      EnsureFineTimer();
      Commit(Spec.FineTick(m, now));
    }

    method StopFineTimer()
      requires Shape()
      modifies this`fineTimer
      ensures Shape() && !fineTimer
    {
      fineTimer := false;
    }

    method ExpireFine(entry: TimerEntry, ghost k: nat)
      requires Shape() && k < |Fine| && Fine[k] == entry
      modifies this`Fine, this`fineHead, this`finePending, this`Ran, Issued
      ensures Shape() && Fine == RemoveAt(old(Fine), k)
      ensures entry.id < |Issued| && Flags() == old(Flags())[entry.id := true]
      ensures finePending == old(finePending) - 1 && Ran == old(Ran) + [entry.id]
    {
      RetireFine(entry, k);
      Ran := Ran + [entry.id];
    }

    method VisitFine(entry: TimerEntry, now: real, ghost k: nat) returns (next: TimerEntry?)
      requires Shape() && k < |Fine| && Fine[k] == entry && entry.id < |Issued| && !Flags()[entry.id]
      modifies this`Fine, this`fineHead, this`finePending, this`Ran, Issued
      ensures Shape() && next == if k == |old(Fine)| - 1 then null else old(Fine)[k + 1]
      ensures
        if entry.deadline <= now then
          && Fine == RemoveAt(old(Fine), k)
          && entry.id < |Issued| && Flags() == old(Flags())[entry.id := true]
          && finePending == old(finePending) - 1 && Ran == old(Ran) + [entry.id]
        else
          Fine == old(Fine) && Flags() == old(Flags()) && finePending == old(finePending) && Ran == old(Ran)
    {
      next := entry.next;
      if entry.deadline <= now {
        if !entry.cancelled {
          ExpireFine(entry, k);
        } else {
          assert false;
        }
      }
    }

    /** The loop of a fine tick. */
    method SweepFine(now: real, ghost timers: seq<Spec.Timer>, ghost list: seq<TimerEntry>, ghost before: seq<bool>)
      requires Shape() && list == Fine && before == Flags() && Sweepable(timers, list, before)
      modifies this`Fine, this`fineHead, this`finePending, this`Ran, Issued
      ensures Shape() && Fine == Stay(list, |list|, now)
      ensures Flags() == Raised(list, |list|, now, before)
      ensures Ran == RanAfter(list, |list|, now, old(Ran)) && finePending + |Ran| == old(finePending + |Ran|)
    {
      hide Sweepable, Raised, RanAfter;
      ghost var i := 0;
      var entry := fineHead;
      PassStarts(timers, list, now, before, Ran);
      while entry != null
        invariant Shape() && i <= |list| && Fine == Remaining(list, i, now)
        invariant entry == if i == |list| then null else Remaining(list, i, now)[|Stay(list, i, now)|]
        invariant Flags() == Raised(list, i, now, before)
        invariant Ran == RanAfter(list, i, now, old(Ran)) && finePending + |Ran| == old(finePending + |Ran|)
        decreases |list| - i
      {
        CursorFacts(list, i, now);
        NotYetRaised(timers, list, i, now, before);
        PassMoves(list, i, now, before, old(Ran));
        entry := VisitFine(entry, now, |Stay(list, i, now)|);
        i := i + 1;
      }
      CursorFacts(list, i, now);
    }

    /** Everything pending is cancelled without running and both timeouts stop. */
    method Destroy(ghost clock: real)
      requires Valid() && M.clock <= clock
      modifies this, wheel, Issued
      ensures Valid() && Issued == old(Issued) && M == Spec.Destroy(old(M), clock)
    {
      hide Mirrors, Risen, Chain, HeadOf, Placed, Spec.WellLinked, Spec.Counted, Spec.Logged, Spec.Punctual;
      Spec.StepKeeps(Conf(), M, Spec.DestroyAt(clock));
      ghost var m, lists, fine, before := M, Lists, Fine, Flags();
      ClearAll();
      AllRisen(Conf(), m, lists, fine, Issued, before, Flags());
      MirrorsDestroy(m, lists, fine, Issued, before, Lists, Flags(), clock);
      Commit(Spec.Destroy(m, clock));
    }

    method ClearAll()
      requires Shape()
      modifies this`Lists, this`Fine, this`fineHead, this`pending, this`timer, this`finePending, this`fineTimer, wheel, Issued
      ensures Shape() && |Lists| == |old(Lists)| && Fine == []
      ensures forall s {:trigger Lists[s]} :: 0 <= s < |Lists| ==> Lists[s] == []
      ensures pending == 0 && !timer && finePending == 0 && !fineTimer
      ensures Risen(Issued, old(Flags()), Flags(), old(Fine))
      ensures forall s {:trigger old(Lists)[s]} :: 0 <= s < |old(Lists)| ==> Risen(Issued, old(Flags()), Flags(), old(Lists)[s])
    {
      ClearSlots();
      StopCounting();
      ClearFine();
    }

    method StopCounting()
      requires Shape()
      modifies this`pending, this`timer
      ensures Shape() && pending == 0 && !timer
    {
      pending := 0;
      timer := false;
    }

    method ClearSlots()
      requires Shape()
      modifies this`Lists, wheel, Issued
      ensures Shape() && |Lists| == |old(Lists)|
      ensures forall s {:trigger Lists[s]} :: 0 <= s < |Lists| ==> Lists[s] == []
      ensures Risen(Issued, old(Flags()), Flags(), [])
      ensures forall s {:trigger old(Lists)[s]} :: 0 <= s < |old(Lists)| ==> Risen(Issued, old(Flags()), Flags(), old(Lists)[s])
    {
      ghost var lists, before := Lists, Flags();
      var i := 0;
      while i < wheel.Length
        invariant 0 <= i <= wheel.Length && Shape() && |Lists| == |lists|
        invariant forall s {:trigger Lists[s]} {:trigger lists[s]} :: 0 <= s < |Lists| ==> Lists[s] == if s < i then [] else lists[s]
        invariant Risen(Issued, before, Flags(), [])
        invariant forall s {:trigger lists[s]} :: 0 <= s < i ==> Risen(Issued, before, Flags(), lists[s])
      {
        ClearSlot(i);
        i := i + 1;
      }
    }

    method ClearSlot(i: nat)
      requires Shape() && i < |Lists|
      modifies this`Lists, wheel, Issued
      ensures Shape() && Lists == old(Lists)[i := []]
      ensures Risen(Issued, old(Flags()), Flags(), old(Lists)[i])
    {
      ghost var list := Lists[i];
      ClearList(wheel[i], list);
      wheel[i] := null;
      Lists := Lists[i := []];
      forall s | 0 <= s < |Lists| && s != i
        ensures Chain(Lists[s])
      {
        assert forall j :: 0 <= j < |Lists[s]| ==> Lists[s][j] !in list;
        assert unchanged(Lists[s]);
      }
      assert forall j :: 0 <= j < |Fine| ==> Fine[j] !in list;
      assert unchanged(Fine);
    }

    method ClearFine()
      requires Shape()
      modifies this`Fine, this`fineHead, this`finePending, this`fineTimer, Issued
      ensures Shape() && Fine == [] && finePending == 0 && !fineTimer
      ensures Risen(Issued, old(Flags()), Flags(), old(Fine))
    {
      ghost var list := Fine;
      ClearList(fineHead, list);
      fineHead := null;
      Fine := [];
      finePending := 0;
      fineTimer := false;
      forall s | 0 <= s < |Lists|
        ensures Chain(Lists[s])
      {
        assert forall j :: 0 <= j < |Lists[s]| ==> Lists[s][j] !in list;
        assert unchanged(Lists[s]);
      }
    }
  }
}
