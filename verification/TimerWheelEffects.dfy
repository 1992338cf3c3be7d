/** What scheduling, cancelling and destroying mean for the timers of src/http/timerWheel.ts, then and ever after. */
module TimerWheelEffects {
  import opened Prelude
  import opened TimerWheelSpec

  /** Timer id is on none of the lists. */
  ghost predicate Unlisted(w: Wheel, id: nat) {
    id !in w.fine && forall s :: 0 <= s < |w.lists| ==> id !in w.lists[s]
  }

  /** Every timer but id is where it was, on the same list or on none, and so settled or pending as it was. */
  ghost predicate OthersStay(w: Wheel, w': Wheel, id: nat) {
    && |w.timers| <= |w'.timers| && |w'.lists| == |w.lists|
    && (forall j {:trigger w'.timers[j]} :: 0 <= j < |w.timers| && j != id ==> w'.timers[j] == w.timers[j])
    && (forall j {:trigger j in w'.fine} {:trigger j in w.fine} :: j != id ==> (j in w'.fine <==> j in w.fine))
    && (forall s, j {:trigger j in w'.lists[s]} {:trigger j in w.lists[s]} :: 0 <= s < |w.lists| && j != id ==>
          (j in w'.lists[s] <==> j in w.lists[s]))
    && w'.log == w.log
  }

  // ----- schedule -----

  /** Scheduling adds one pending timer with the deadline asked for, on the one list it belongs to, and starts its timeout. */
  lemma ScheduleAdds(c: Config, w: Wheel, clock: real, now: real, timeoutMs: real)
    requires Inv(c, w)
    ensures
      var w', id := Schedule(c, w, clock, now, timeoutMs), |w.timers|;
      && |w'.timers| == id + 1 && w'.timers[id].fate == Pending && w'.timers[id].deadline == now + timeoutMs
      && (w'.timers[id].fine <==> timeoutMs <= c.fineThresholdMs)
      && OthersStay(w, w', id)
      && (if w'.timers[id].fine then id in w'.fine && w'.finePending == w.finePending + 1 && w'.fineArmed
          else 0 <= w'.timers[id].slot < c.slots && id in w'.lists[w'.timers[id].slot] && w'.pending == w.pending + 1 && w'.armed)
  {
  }

  // ----- cancel -----

  lemma {:induction false} WithoutOnly(list: seq<nat>, id: nat)
    requires NoDuplicates(list)
    ensures forall j :: j in Without(list, id) <==> j in list && j != id
  {
    if list != [] {
      assert forall j :: j in list <==> j == list[0] || j in list[1..];
      WithoutOnly(list[1..], id);
      assert list[0] !in list[1..];
    }
  }

  /** Cancelling a pending timer settles it as cancelled, takes it off its list and out of its count, and touches no other;
      cancelling one that is settled does nothing. */
  lemma CancelSettles(c: Config, w: Wheel, clock: real, id: nat)
    requires Inv(c, w) && id < |w.timers|
    ensures
      var w', t := Cancel(w, clock, id), w.timers[id];
      if t.fate.Pending? then
        && |w'.timers| == |w.timers| && w'.timers[id] == t.(fate := Cancelled) && Unlisted(w', id) && OthersStay(w, w', id)
        && (if t.fine then w'.finePending == w.finePending - 1 && w'.pending == w.pending
            else w'.pending == w.pending - 1 && w'.finePending == w.finePending)
      else
        w' == w.(clock := clock)
  {
    hide Counted, Logged, Punctual;
    var t := w.timers[id];
    if t.fate.Pending? && t.fine {
      WithoutOnly(w.fine, id);
    } else if t.fate.Pending? {
      WithoutOnly(w.lists[t.slot], id);
    }
  }

  /** Whatever happens after a pending timer was cancelled, it stays cancelled and its callback never runs. */
  lemma CancelledNeverRuns(c: Config, w: Wheel, clock: real, id: nat, es: seq<Event>)
    requires Inv(c, w) && w.clock <= clock && id < |w.timers| && w.timers[id].fate.Pending?
    ensures
      var w' := After(c, Cancel(w, clock, id), es);
      id < |w'.timers| && w'.timers[id].fate == Cancelled && id !in w'.log
  {
    CancelSettles(c, w, clock, id);
    StepKeeps(c, w, CancelAt(clock, id));
    SettledForGood(c, Cancel(w, clock, id), es);
    RunKeeps(c, Cancel(w, clock, id), es);
  }

  // ----- destroy -----

  /** Destroying settles every pending timer as destroyed and no other, empties every list and stops both timeouts. */
  lemma DestroySettles(w: Wheel, clock: real, id: nat)
    requires id < |w.timers|
    ensures
      var w', t := Destroy(w, clock), w.timers[id];
      && |w'.timers| == |w.timers| && w'.timers[id] == (if t.fate.Pending? then t.(fate := Destroyed) else t)
      && (forall j :: Unlisted(w', j)) && w'.log == w.log
      && !w'.armed && !w'.fineArmed && w'.pending == 0 && w'.finePending == 0
  {
  }

  /** No timer pending when the wheel is destroyed ever runs. */
  lemma DestroyedNeverRuns(c: Config, w: Wheel, clock: real, id: nat, es: seq<Event>)
    requires Inv(c, w) && w.clock <= clock && id < |w.timers| && w.timers[id].fate.Pending?
    ensures
      var w' := After(c, Destroy(w, clock), es);
      id < |w'.timers| && w'.timers[id].fate == Destroyed && id !in w'.log
  {
    DestroySettles(w, clock, id);
    StepKeeps(c, w, DestroyAt(clock));
    SettledForGood(c, Destroy(w, clock), es);
    RunKeeps(c, Destroy(w, clock), es);
  }
}
