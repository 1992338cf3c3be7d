/** What every run of the request batcher keeps. */
module BatchingSafety {
  import opened Prelude
  import opened Effects
  import opened BatchingSpec

  // ----- invariant -----

  /** Called back once settled; otherwise in the pending batch of its key, or in a running group. */
  ghost predicate EntryOk<Q, R>(s: State<Q, R>, e: nat)
    requires e < |s.entries|
  {
    var x := s.entries[e];
    && |x.calls| == (if x.done then 1 else 0)
    && (x.cancelled ==> x.done)
    && (x.group.Some? ==> x.group.value < |s.groups| && e in s.groups[x.group.value].entries)
    && (!x.done ==> if x.group.Some? then s.groups[x.group.value].phase.Running?
                    else x.key in s.pending && e in s.pending[x.key].entries)
  }

  ghost predicate Member<Q, R>(s: State<Q, R>, k: string, e: nat) {
    e < |s.entries| && s.entries[e].key == k && !s.entries[e].done && s.entries[e].group.None?
  }

  ghost predicate BatchOk<Q, R>(cfg: Settings<Q, R>, s: State<Q, R>, k: string)
    requires k in s.pending
  {
    var b := s.pending[k];
    && 1 <= |b.entries| <= cfg.maxBatchSize && NoDuplicates(b.entries)
    && (forall i :: 0 <= i < |b.entries| ==> Member(s, k, b.entries[i]))
    && (b.timer.Some? ==> b.timer.value < |s.timers| && s.timers[b.timer.value] == Timer(k, true))
  }

  /** Between steps a pending batch has room and an armed timer. */
  ghost predicate Waiting<Q, R>(cfg: Settings<Q, R>, s: State<Q, R>, k: string)
    requires k in s.pending
  {
    |s.pending[k].entries| < cfg.maxBatchSize && s.pending[k].timer.Some?
  }

  ghost predicate Grouped<Q, R>(s: State<Q, R>, g: nat, e: nat)
    requires g < |s.groups|
  {
    e < |s.entries| && s.entries[e].group == Some(g) && s.entries[e].key == s.groups[g].key
    && (if s.groups[g].phase.Running? then s.entries[e].done ==> s.entries[e].cancelled else s.entries[e].done)
  }

  ghost predicate GroupOk<Q, R>(cfg: Settings<Q, R>, s: State<Q, R>, g: nat)
    requires g < |s.groups|
  {
    var es := s.groups[g].entries;
    && 1 <= |es| <= cfg.maxBatchSize && NoDuplicates(es)
    && (forall i :: 0 <= i < |es| ==> Grouped(s, g, es[i]))
  }

  /** A live timer is the one its key's pending batch armed. */
  ghost predicate TimerOk<Q, R>(s: State<Q, R>, t: nat)
    requires t < |s.timers|
  {
    s.timers[t].live ==> s.timers[t].key in s.pending && s.pending[s.timers[t].key].timer == Some(t)
  }

  ghost predicate StopsOk<Q, R>(s: State<Q, R>) {
    && NoDuplicates(s.stops)
    && (forall i :: 0 <= i < |s.stops| ==> s.stops[i] < |s.groups| && s.groups[s.stops[i]].phase.Stopped?)
    && (forall g :: 0 <= g < |s.groups| && s.groups[g].phase.Stopped? ==> g in s.stops)
  }

  ghost predicate EntriesOk<Q, R>(s: State<Q, R>) {
    forall e :: 0 <= e < |s.entries| ==> EntryOk(s, e)
  }

  ghost predicate BatchesOk<Q, R>(cfg: Settings<Q, R>, s: State<Q, R>) {
    forall k :: k in s.pending ==> BatchOk(cfg, s, k)
  }

  ghost predicate GroupsOk<Q, R>(cfg: Settings<Q, R>, s: State<Q, R>) {
    forall g :: 0 <= g < |s.groups| ==> GroupOk(cfg, s, g)
  }

  ghost predicate TimersOk<Q, R>(s: State<Q, R>) {
    forall t :: 0 <= t < |s.timers| ==> TimerOk(s, t)
  }

  /** Inside a step, the batch of one key may be full or not yet have its timer. */
  ghost predicate Core<Q, R>(cfg: Settings<Q, R>, s: State<Q, R>) {
    EntriesOk(s) && BatchesOk(cfg, s) && GroupsOk(cfg, s) && TimersOk(s) && StopsOk(s)
  }

  ghost predicate OthersWait<Q, R>(cfg: Settings<Q, R>, s: State<Q, R>, key: string) {
    forall k :: k in s.pending && k != key ==> Waiting(cfg, s, k)
  }

  ghost predicate Inv<Q, R>(cfg: Settings<Q, R>, s: State<Q, R>) {
    Core(cfg, s) && forall k :: k in s.pending ==> Waiting(cfg, s, k)
  }

  lemma RefsHold<Q, R>(cfg: Settings<Q, R>, s: State<Q, R>)
    requires Core(cfg, s)
    ensures Refs(s)
  {
    forall k | k in s.pending ensures Known(s.entries, s.pending[k].entries) {
      assert BatchOk(cfg, s, k);
      forall i | 0 <= i < |s.pending[k].entries| ensures s.pending[k].entries[i] < |s.entries| {
        assert Member(s, k, s.pending[k].entries[i]);
      }
    }
    forall g | 0 <= g < |s.groups| ensures Known(s.entries, s.groups[g].entries) {
      assert GroupOk(cfg, s, g);
      forall i | 0 <= i < |s.groups[g].entries| ensures s.groups[g].entries[i] < |s.entries| {
        assert Grouped(s, g, s.groups[g].entries[i]);
      }
    }
    forall e | 0 <= e < |s.entries| && s.entries[e].group.Some? ensures s.entries[e].group.value < |s.groups| {
      assert EntryOk(s, e);
    }
  }

  // ----- flushing -----

  lemma {:induction false} AllUnsettled<Q, R>(entries: seq<Entry<Q, R>>, es: seq<nat>)
    requires Known(entries, es) && forall i :: 0 <= i < |es| ==> !entries[es[i]].cancelled && !entries[es[i]].done
    ensures Unsettled(entries, es) == es
  {
    if es != [] {
      AllUnsettled(entries, es[1..]);
    }
  }

  /** The members of a pending batch are all flushed. */
  lemma BatchIsUnsettled<Q, R>(cfg: Settings<Q, R>, s: State<Q, R>, key: string)
    requires Core(cfg, s) && key in s.pending
    ensures Known(s.entries, s.pending[key].entries)
    ensures Unsettled(s.entries, s.pending[key].entries) == s.pending[key].entries
  {
    var es := s.pending[key].entries;
    assert BatchOk(cfg, s, key);
    forall i | 0 <= i < |es| ensures es[i] < |s.entries| && !s.entries[es[i]].cancelled && !s.entries[es[i]].done {
      assert Member(s, key, es[i]) && EntryOk(s, es[i]);
    }
    AllUnsettled(s.entries, es);
  }

  /** Taking one batch out and changing only its members leaves the other batches and the timers right. */
  lemma OthersStay<Q, R>(cfg: Settings<Q, R>, s: State<Q, R>, key: string, t: State<Q, R>)
    requires Core(cfg, s) && OthersWait(cfg, s, key) && key in s.pending
    requires t.pending == s.pending - {key} && t.timers == Cleared(s.timers, s.pending[key].timer)
    requires |t.entries| == |s.entries|
    requires forall e :: 0 <= e < |s.entries| && e !in s.pending[key].entries ==> t.entries[e] == s.entries[e]
    ensures BatchesOk(cfg, t) && TimersOk(t)
    ensures forall k :: k in t.pending ==> Waiting(cfg, t, k)
  {
    assert BatchOk(cfg, s, key);
    forall k | k in t.pending ensures BatchOk(cfg, t, k) && Waiting(cfg, t, k) {
      assert BatchOk(cfg, s, k) && Waiting(cfg, s, k);
      var es := t.pending[k].entries;
      forall i | 0 <= i < |es| ensures Member(t, k, es[i]) {
        assert Member(s, k, es[i]);
      }
    }
    forall i | 0 <= i < |t.timers| ensures TimerOk(t, i) {
      assert TimerOk(s, i);
    }
  }

  lemma LaunchKeepsEntries<Q, R>(cfg: Settings<Q, R>, s: State<Q, R>, key: string)
    requires Core(cfg, s) && key in s.pending && Known(s.entries, s.pending[key].entries)
    ensures var t := Launched(cfg, Taken(s, key), key, s.pending[key].entries);
      EntriesOk(t) && GroupsOk(cfg, t) && StopsOk(t)
  {
    var es := s.pending[key].entries;
    var t := Launched(cfg, Taken(s, key), key, es);
    var g := |s.groups|;
    assert BatchOk(cfg, s, key);
    LaunchEffect(cfg, Taken(s, key), key, es);
    forall e | 0 <= e < |t.entries| ensures EntryOk(t, e) {
      assert EntryOk(s, e);
      if e in es {
        assert Member(s, key, e);
        assert |t.groups| > g ==> t.groups[g].entries == es;
      }
    }
    forall h | 0 <= h < |t.groups| ensures GroupOk(cfg, t, h) {
      if h < g {
        assert GroupOk(cfg, s, h) && t.groups[h] == s.groups[h];
        forall i | 0 <= i < |s.groups[h].entries| ensures Grouped(t, h, s.groups[h].entries[i]) {
          var e := s.groups[h].entries[i];
          assert Grouped(s, h, e);
        }
      } else {
        forall i | 0 <= i < |es| ensures Grouped(t, h, es[i]) {
          assert Member(s, key, es[i]);
        }
      }
    }
  }

  /** What launching does to its members, and to nobody else. */
  lemma LaunchEffect<Q, R>(cfg: Settings<Q, R>, s: State<Q, R>, key: string, es: seq<nat>)
    requires Known(s.entries, es) && NoDuplicates(es)
    ensures var t := Launched(cfg, s, key, es);
      && |t.entries| == |s.entries| && t.pending == s.pending && t.timers == s.timers && t.stops == s.stops
      && (forall e :: 0 <= e < |s.entries| && e !in es ==> t.entries[e] == s.entries[e])
      && (match cfg.encode(Requests(s.entries, es))
          case Throws(error) =>
            t.groups == s.groups && forall j :: 0 <= j < |es| ==> t.entries[es[j]] == Settle(s.entries[es[j]], Error(error))
          case Returns(wire) =>
            t.groups == s.groups + [Group(key, es, wire, Running)]
            && forall j :: 0 <= j < |es| ==> t.entries[es[j]] == Joined(s.entries[es[j]], |s.groups|))
  {
    assert es[0..] == es;
    match cfg.encode(Requests(s.entries, es))
    case Throws(error) => EachGetsItsOwn(s.entries, es, Repeated(Error(error), |es|), 0);
    case Returns(_) => AllJoin(s.entries, es, |s.groups|, 0);
  }

  lemma FlushKeeps<Q, R>(cfg: Settings<Q, R>, s: State<Q, R>, key: string)
    requires Core(cfg, s) && OthersWait(cfg, s, key) && key in s.pending
    ensures Known(s.entries, s.pending[key].entries)
    ensures Inv(cfg, Flushed(cfg, s, key))
  {
    var es := s.pending[key].entries;
    assert BatchOk(cfg, s, key);
    BatchIsUnsettled(cfg, s, key);
    LaunchEffect(cfg, Taken(s, key), key, es);
    LaunchKeepsEntries(cfg, s, key);
    OthersStay(cfg, s, key, Flushed(cfg, s, key));
  }

  // ----- registering -----

  lemma PushKeeps<Q, R>(cfg: Settings<Q, R>, s: State<Q, R>, key: string, req: Q)
    requires Inv(cfg, s) && cfg.maxBatchSize >= 1
    ensures var p := Pushed(s, key, req); Core(cfg, p) && OthersWait(cfg, p, key)
  {
    var p := Pushed(s, key, req);
    var n := |s.entries|;
    if key in s.pending { assert BatchOk(cfg, s, key) && Waiting(cfg, s, key); }
    PushKeepsBatches(cfg, s, key, req);
    forall e | 0 <= e < |p.entries| ensures EntryOk(p, e) {
      if e < n {
        assert EntryOk(s, e);
      } else {
        var es := p.pending[key].entries;
        assert es[|es| - 1] == n;
      }
    }
    forall g | 0 <= g < |p.groups| ensures GroupOk(cfg, p, g) {
      assert GroupOk(cfg, s, g);
      forall i | 0 <= i < |p.groups[g].entries| ensures Grouped(p, g, p.groups[g].entries[i]) {
        assert Grouped(s, g, p.groups[g].entries[i]);
      }
    }
    forall t | 0 <= t < |p.timers| ensures TimerOk(p, t) {
      assert TimerOk(s, t);
    }
  }

  lemma PushKeepsBatches<Q, R>(cfg: Settings<Q, R>, s: State<Q, R>, key: string, req: Q)
    requires BatchesOk(cfg, s) && cfg.maxBatchSize >= 1
    requires forall k :: k in s.pending ==> Waiting(cfg, s, k)
    ensures var p := Pushed(s, key, req); BatchesOk(cfg, p) && OthersWait(cfg, p, key)
  {
    var p := Pushed(s, key, req);
    forall k | k in p.pending ensures BatchOk(cfg, p, k) && (k != key ==> Waiting(cfg, p, k)) {
      var es := p.pending[k].entries;
      if k in s.pending { assert BatchOk(cfg, s, k) && Waiting(cfg, s, k); }
      forall i | 0 <= i < |es| ensures Member(p, k, es[i]) && (es[i] == |s.entries| ==> i == |es| - 1) {
        if k != key || i < |es| - 1 {
          assert es[i] == s.pending[k].entries[i];
          assert Member(s, k, s.pending[k].entries[i]);
        }
      }
    }
  }

  lemma ArmKeeps<Q, R>(cfg: Settings<Q, R>, p: State<Q, R>, key: string)
    requires Core(cfg, p) && OthersWait(cfg, p, key) && key in p.pending
    requires p.pending[key].timer.None? && |p.pending[key].entries| < cfg.maxBatchSize
    ensures Inv(cfg, Armed(p, key))
  {
    var a := Armed(p, key);
    forall k | k in a.pending ensures BatchOk(cfg, a, k) && Waiting(cfg, a, k) {
      assert BatchOk(cfg, p, k);
      if k != key { assert Waiting(cfg, p, k); }
      forall i | 0 <= i < |a.pending[k].entries| ensures Member(a, k, a.pending[k].entries[i]) {
        assert Member(p, k, p.pending[k].entries[i]);
      }
    }
    forall e | 0 <= e < |a.entries| ensures EntryOk(a, e) { assert EntryOk(p, e); }
    forall g | 0 <= g < |a.groups| ensures GroupOk(cfg, a, g) {
      assert GroupOk(cfg, p, g);
      forall i | 0 <= i < |a.groups[g].entries| ensures Grouped(a, g, a.groups[g].entries[i]) {
        assert Grouped(p, g, p.groups[g].entries[i]);
      }
    }
    forall t | 0 <= t < |a.timers| ensures TimerOk(a, t) {
      if t < |p.timers| { assert TimerOk(p, t); }
    }
  }

  lemma RegisterKeeps<Q, R>(cfg: Settings<Q, R>, s: State<Q, R>, key: string, req: Q)
    requires Inv(cfg, s) && cfg.maxBatchSize >= 1 && Refs(s)
    ensures Inv(cfg, Registered(cfg, s, key, req))
  {
    var p := Pushed(s, key, req);
    PushKeeps(cfg, s, key, req);
    if |p.pending[key].entries| >= cfg.maxBatchSize {
      FlushKeeps(cfg, p, key);
    } else if p.pending[key].timer.None? {
      ArmKeeps(cfg, p, key);
    }
  }

  // ----- timers -----

  /** A live timer fires for the batch that armed it, and flushes that batch. */
  lemma TimerFlushesItsBatch<Q, R>(cfg: Settings<Q, R>, s: State<Q, R>, t: nat)
    requires Inv(cfg, s) && Refs(s) && t < |s.timers| && s.timers[t].live
    ensures var key := s.timers[t].key;
      && key in s.pending && s.pending[key].timer == Some(t)
      && Fired(cfg, s, t) == Launched(cfg, Taken(s, key), key, s.pending[key].entries)
      && Fired(cfg, s, t) == Flushed(cfg, s, key)
  {
    assert TimerOk(s, t);
    var key := s.timers[t].key;
    assert BatchOk(cfg, s, key);
    BatchIsUnsettled(cfg, s, key);
    var c := s.(timers := Cleared(s.timers, Some(t)));
    assert Cleared(c.timers, Some(t)) == c.timers;
    assert Taken(c, key) == Taken(s, key);
  }

  // ----- answers -----

  lemma AnswerKeeps<Q, R>(cfg: Settings<Q, R>, s: State<Q, R>, g: nat, outcome: Ending<R>)
    requires Inv(cfg, s) && Refs(s) && g < |s.groups| && s.groups[g].phase.Running?
    ensures Inv(cfg, AnsweredGroup(cfg, s, g, outcome))
  {
    var es := s.groups[g].entries;
    var t := AnsweredGroup(cfg, s, g, outcome);
    assert GroupOk(cfg, s, g);
    AnswerEffect(cfg, s, g, outcome);
    forall e | 0 <= e < |t.entries| ensures EntryOk(t, e) {
      assert EntryOk(s, e);
      if s.entries[e].group == Some(g) { assert e in es; }
    }
    forall k | k in t.pending ensures BatchOk(cfg, t, k) && Waiting(cfg, t, k) {
      assert BatchOk(cfg, s, k) && Waiting(cfg, s, k);
      forall i | 0 <= i < |t.pending[k].entries| ensures Member(t, k, t.pending[k].entries[i]) {
        var e := s.pending[k].entries[i];
        assert Member(s, k, e);
      }
    }
    forall h | 0 <= h < |t.groups| ensures GroupOk(cfg, t, h) {
      assert GroupOk(cfg, s, h);
      forall i | 0 <= i < |t.groups[h].entries| ensures Grouped(t, h, t.groups[h].entries[i]) {
        var e := s.groups[h].entries[i];
        assert Grouped(s, h, e);
      }
    }
    forall i | 0 <= i < |t.timers| ensures TimerOk(t, i) { assert TimerOk(s, i); }
  }

  /** Every member gets the reply at its position unless it was settled before; nobody else changes. */
  lemma AnswerEffect<Q, R>(cfg: Settings<Q, R>, s: State<Q, R>, g: nat, outcome: Ending<R>)
    requires Refs(s) && g < |s.groups| && NoDuplicates(s.groups[g].entries)
    ensures var es := s.groups[g].entries;
      var replies := Replies(cfg, Requests(s.entries, es), outcome);
      var t := AnsweredGroup(cfg, s, g, outcome);
      && |t.entries| == |s.entries|
      && (forall j :: 0 <= j < |es| ==> t.entries[es[j]] == Settle(s.entries[es[j]], replies[j]))
      && (forall e :: 0 <= e < |s.entries| && e !in es ==> t.entries[e] == s.entries[e])
  {
    var es := s.groups[g].entries;
    assert es[0..] == es;
    EachGetsItsOwn(s.entries, es, Replies(cfg, Requests(s.entries, es), outcome), 0);
  }

  // ----- cancelling -----

  lemma {:induction false} DropFacts(es: seq<nat>, e: nat)
    requires NoDuplicates(es)
    ensures var r := Drop(es, e);
      && NoDuplicates(r) && |r| <= |es|
      && (forall i :: 0 <= i < |r| ==> r[i] in es && r[i] != e)
      && (forall i :: 0 <= i < |es| && es[i] != e ==> es[i] in r)
      && (e !in es ==> r == es)
  {
    if es != [] {
      assert es == [es[0]] + es[1..];
      DropFacts(es[1..], e);
    }
  }

  /** The cancelled entry is settled, and it alone. */
  lemma MarkedEntries<Q, R>(s: State<Q, R>, e: nat)
    requires EntriesOk(s) && e < |s.entries| && !s.entries[e].done
    ensures var x := Marked(s, e).entries[e];
      x.done && x.cancelled && x.calls == [Interrupted] && x.key == s.entries[e].key && x.group == s.entries[e].group
  {
    assert EntryOk(s, e);
  }

  /** Cancelling while the key has a pending batch. */
  lemma LeaveKeeps<Q, R>(cfg: Settings<Q, R>, s: State<Q, R>, e: nat)
    requires Inv(cfg, s) && Refs(s) && e < |s.entries| && !s.entries[e].done && s.entries[e].key in s.pending
    ensures Inv(cfg, LeftBatch(Marked(s, e), s.entries[e].key, e))
  {
    var key := s.entries[e].key;
    var t := LeftBatch(Marked(s, e), key, e);
    MarkedEntries(s, e);
    assert BatchOk(cfg, s, key) && Waiting(cfg, s, key);
    DropFacts(s.pending[key].entries, e);
    LeaveKeepsBatches(cfg, s, e);
    forall x | 0 <= x < |t.entries| ensures EntryOk(t, x) {
      assert EntryOk(s, x);
    }
    forall g | 0 <= g < |t.groups| ensures GroupOk(cfg, t, g) {
      assert GroupOk(cfg, s, g);
      forall i | 0 <= i < |t.groups[g].entries| ensures Grouped(t, g, t.groups[g].entries[i]) {
        assert Grouped(s, g, s.groups[g].entries[i]);
      }
    }
    forall i | 0 <= i < |t.timers| ensures TimerOk(t, i) {
      assert TimerOk(s, i);
    }
  }

  lemma LeaveKeepsBatches<Q, R>(cfg: Settings<Q, R>, s: State<Q, R>, e: nat)
    requires Inv(cfg, s) && e < |s.entries| && !s.entries[e].done && s.entries[e].key in s.pending
    ensures var t := LeftBatch(Marked(s, e), s.entries[e].key, e);
      BatchesOk(cfg, t) && forall k :: k in t.pending ==> Waiting(cfg, t, k)
  {
    var key := s.entries[e].key;
    var t := LeftBatch(Marked(s, e), key, e);
    assert BatchOk(cfg, s, key);
    MarkedEntries(s, e);
    DropFacts(s.pending[key].entries, e);
    forall k | k in t.pending ensures BatchOk(cfg, t, k) && Waiting(cfg, t, k) {
      assert BatchOk(cfg, s, k) && Waiting(cfg, s, k);
      forall i | 0 <= i < |t.pending[k].entries| ensures Member(t, k, t.pending[k].entries[i]) {
        var x := t.pending[k].entries[i];
        assert x in s.pending[k].entries;
        assert Member(s, k, x);
      }
    }
  }

  /** Cancelling a member of a running group while its key has no pending batch. */
  lemma StopKeeps<Q, R>(cfg: Settings<Q, R>, s: State<Q, R>, e: nat)
    requires Inv(cfg, s) && Refs(s) && e < |s.entries| && !s.entries[e].done && s.entries[e].key !in s.pending
    ensures s.entries[e].group.Some? && Inv(cfg, StoppedGroup(Marked(s, e), s.entries[e].group.value))
  {
    assert EntryOk(s, e);
    var g := s.entries[e].group.value;
    var m := Marked(s, e);
    var t := StoppedGroup(m, g);
    MarkedEntries(s, e);
    forall x | 0 <= x < |t.entries| ensures EntryOk(t, x) {
      assert EntryOk(s, x);
      if t.groups[g].phase.Stopped? && s.entries[x].group == Some(g) {
        assert x in s.groups[g].entries;
      }
    }
    forall k | k in t.pending ensures BatchOk(cfg, t, k) && Waiting(cfg, t, k) {
      assert BatchOk(cfg, s, k) && Waiting(cfg, s, k);
      forall i | 0 <= i < |t.pending[k].entries| ensures Member(t, k, t.pending[k].entries[i]) {
        assert Member(s, k, s.pending[k].entries[i]);
      }
    }
    StopKeepsGroups(cfg, s, e);
    forall i | 0 <= i < |t.timers| ensures TimerOk(t, i) { assert TimerOk(s, i); }
  }

  lemma StopKeepsGroups<Q, R>(cfg: Settings<Q, R>, s: State<Q, R>, e: nat)
    requires Inv(cfg, s) && Refs(s) && e < |s.entries| && !s.entries[e].done && s.entries[e].group.Some?
    ensures var t := StoppedGroup(Marked(s, e), s.entries[e].group.value); GroupsOk(cfg, t) && StopsOk(t)
  {
    var g := s.entries[e].group.value;
    var m := Marked(s, e);
    var t := StoppedGroup(m, g);
    MarkedEntries(s, e);
    assert EntryOk(s, e);
    forall h | 0 <= h < |t.groups| ensures GroupOk(cfg, t, h) {
      assert GroupOk(cfg, s, h);
      forall i | 0 <= i < |t.groups[h].entries| ensures Grouped(t, h, t.groups[h].entries[i]) {
        var x := s.groups[h].entries[i];
        assert Grouped(s, h, x) && EntryOk(s, x);
      }
    }
    if t.stops != s.stops {
      assert !s.groups[g].phase.Stopped?;
      assert t.stops[|s.stops|] == g;
      forall h | 0 <= h < |t.groups| && t.groups[h].phase.Stopped? ensures h in t.stops {
        if h != g { assert h in s.stops; }
      }
    }
  }

  lemma CancelKeeps<Q, R>(cfg: Settings<Q, R>, s: State<Q, R>, e: nat)
    requires Inv(cfg, s) && Refs(s) && e < |s.entries|
    ensures Inv(cfg, CancelledEntry(s, e))
  {
    assert EntryOk(s, e);
    if !s.entries[e].done {
      if s.entries[e].key in s.pending {
        LeaveKeeps(cfg, s, e);
      } else {
        StopKeeps(cfg, s, e);
      }
    }
  }

  /** Every other member of the group is settled. */
  ghost predicate LastOf<Q, R>(s: State<Q, R>, g: nat, e: nat)
    requires g < |s.groups| && Known(s.entries, s.groups[g].entries)
  {
    forall i :: 0 <= i < |s.groups[g].entries| && s.groups[g].entries[i] != e ==> s.entries[s.groups[g].entries[i]].done
  }

  /**
   * Cancelling an in-flight request calls the downstream canceller iff it is the
   * last unsettled member of its group and its key has no newer pending batch.
   */
  lemma CancelStopsGroupIff<Q, R>(cfg: Settings<Q, R>, s: State<Q, R>, e: nat)
    requires Inv(cfg, s) && Refs(s) && e < |s.entries| && !s.entries[e].done && s.entries[e].group.Some?
    ensures var g := s.entries[e].group.value;
      var t := CancelledEntry(s, e);
      var stops := LastOf(s, g, e) && s.entries[e].key !in s.pending;
      && s.groups[g].phase.Running? && g !in s.stops
      && t.stops == (if stops then s.stops + [g] else s.stops)
      && |t.groups| == |s.groups| && (t.groups[g].phase.Stopped? <==> stops)
      && t.entries[e].calls == [Interrupted]
  {
    var g := s.entries[e].group.value;
    var m := Marked(s, e);
    assert EntryOk(s, e);
    assert GroupOk(cfg, s, g);
    MarkedEntries(s, e);
    var es := s.groups[g].entries;
    forall i | 0 <= i < |es| ensures EntryOk(s, es[i]) {}
    if AllSettled(m.entries, es) {
      assert LastOf(s, g, e);
    }
  }

  // ----- every step, every run -----

  lemma StepKeeps<Q, R>(cfg: Settings<Q, R>, s: State<Q, R>, e: Event<Q, R>)
    requires Inv(cfg, s) && cfg.maxBatchSize >= 1
    ensures Inv(cfg, Step(cfg, s, e))
  {
    RefsHold(cfg, s);
    if Enabled(s, e) {
      match e
      case Register(key, req) => RegisterKeeps(cfg, s, key, req);
      case TimerFires(t) =>
        TimerFlushesItsBatch(cfg, s, t);
        FlushKeeps(cfg, s, s.timers[t].key);
      case GroupAnswers(g, outcome) => AnswerKeeps(cfg, s, g, outcome);
      case CancelEntry(x) => CancelKeeps(cfg, s, x);
    }
  }

  lemma {:induction false} RunKeeps<Q, R>(cfg: Settings<Q, R>, s: State<Q, R>, events: seq<Event<Q, R>>)
    requires Inv(cfg, s) && cfg.maxBatchSize >= 1
    ensures Inv(cfg, After(cfg, s, events))
    decreases |events|
  {
    if events != [] {
      StepKeeps(cfg, s, events[0]);
      RunKeeps(cfg, Step(cfg, s, events[0]), events[1..]);
    }
  }

  ghost predicate InBatch<Q, R>(s: State<Q, R>, e: nat, k: string) { k in s.pending && e in s.pending[k].entries }

  ghost predicate InRunningGroup<Q, R>(s: State<Q, R>, e: nat, g: nat) {
    g < |s.groups| && s.groups[g].phase.Running? && e in s.groups[g].entries
  }

  /** A member of a running group that was not cancelled. */
  ghost predicate Active<Q, R>(s: State<Q, R>, e: nat, g: nat) {
    InRunningGroup(s, e, g) && e < |s.entries| && !s.entries[e].cancelled
  }

  /**
   * In every run each request is settled, with exactly one callback, or waits in
   * exactly one pending batch, or is an active member of exactly one running
   * group, and only one of the three: the unsettled requests are exactly those
   * that wait or are active. A cancelled request may still be listed in its
   * group, and a settled one in a running group was cancelled.
   */
  lemma EveryRequestHasOnePlace<Q, R>(cfg: Settings<Q, R>, events: seq<Event<Q, R>>, e: nat)
    requires cfg.maxBatchSize >= 1
    ensures var s := After(cfg, Fresh(), events);
      e < |s.entries| ==>
        && |s.entries[e].calls| == (if s.entries[e].done then 1 else 0)
        && (!s.entries[e].done <==> (exists k :: InBatch(s, e, k)) || (exists g :: Active(s, e, g)))
        && (forall g: nat :: InRunningGroup(s, e, g) ==> (s.entries[e].done <==> s.entries[e].cancelled))
        && !((exists k :: InBatch(s, e, k)) && exists g: nat :: InRunningGroup(s, e, g))
        && (forall k, k' :: InBatch(s, e, k) && InBatch(s, e, k') ==> k == k')
        && (forall g: nat, g': nat :: InRunningGroup(s, e, g) && InRunningGroup(s, e, g') ==> g == g')
  {
    RunKeeps(cfg, Fresh(), events);
    var s := After(cfg, Fresh(), events);
    if e < |s.entries| {
      assert EntryOk(s, e);
      var x := s.entries[e];
      forall k | InBatch(s, e, k) ensures Member(s, k, e) { assert BatchOk(cfg, s, k); }
      forall g: nat | InRunningGroup(s, e, g) ensures x.group == Some(g) && (x.done <==> x.cancelled) {
        assert GroupOk(cfg, s, g);
        var i :| 0 <= i < |s.groups[g].entries| && s.groups[g].entries[i] == e;
        assert Grouped(s, g, s.groups[g].entries[i]);
      }
      if !x.done {
        if x.group.Some? {
          assert Active(s, e, x.group.value);
        } else {
          assert InBatch(s, e, x.key);
        }
      }
    }
  }

  /** The members of a stopped group are all settled. */
  ghost predicate StoppedIsSettled<Q, R>(s: State<Q, R>, g: nat)
    requires g < |s.groups|
  {
    g in s.stops ==>
      && Known(s.entries, s.groups[g].entries)
      && forall i :: 0 <= i < |s.groups[g].entries| ==> s.entries[s.groups[g].entries[i]].done
  }

  /**
   * Flushed batches have between one and maxBatchSize members; a group's
   * downstream canceller is called at most once, and only when all its members
   * are settled.
   */
  lemma GroupsInBounds<Q, R>(cfg: Settings<Q, R>, events: seq<Event<Q, R>>)
    requires cfg.maxBatchSize >= 1
    ensures var s := After(cfg, Fresh(), events);
      && NoDuplicates(s.stops)
      && (forall g :: 0 <= g < |s.groups| ==> 1 <= |s.groups[g].entries| <= cfg.maxBatchSize && StoppedIsSettled(s, g))
      && (forall k :: k in s.pending ==> 1 <= |s.pending[k].entries| < cfg.maxBatchSize && s.pending[k].timer.Some?)
  {
    RunKeeps(cfg, Fresh(), events);
    var s := After(cfg, Fresh(), events);
    forall g | 0 <= g < |s.groups|
      ensures 1 <= |s.groups[g].entries| <= cfg.maxBatchSize && StoppedIsSettled(s, g)
    {
      GroupInBounds(cfg, s, g);
    }
    forall k | k in s.pending
      ensures 1 <= |s.pending[k].entries| < cfg.maxBatchSize && s.pending[k].timer.Some?
    {
      assert BatchOk(cfg, s, k) && Waiting(cfg, s, k);
    }
  }

  lemma GroupInBounds<Q, R>(cfg: Settings<Q, R>, s: State<Q, R>, g: nat)
    requires GroupsOk(cfg, s) && StopsOk(s) && g < |s.groups|
    ensures 1 <= |s.groups[g].entries| <= cfg.maxBatchSize && StoppedIsSettled(s, g)
  {
    assert GroupOk(cfg, s, g);
    forall i | 0 <= i < |s.groups[g].entries| ensures Grouped(s, g, s.groups[g].entries[i]) {}
  }

  /** Once settled, a request is never called back again. */
  lemma SettledForGood<Q, R>(cfg: Settings<Q, R>, s: State<Q, R>, event: Event<Q, R>, e: nat)
    requires Inv(cfg, s) && cfg.maxBatchSize >= 1 && e < |s.entries| && s.entries[e].done
    ensures var t := Step(cfg, s, event); |t.entries| >= |s.entries| && t.entries[e].done && t.entries[e].calls == s.entries[e].calls
  {
    var t := Step(cfg, s, event);
    StepKeeps(cfg, s, event);
    RefsHold(cfg, s);
    SettledEntriesStay(cfg, s, event, e);
    assert EntryOk(s, e) && EntryOk(t, e);
  }

  lemma SettledEntriesStay<Q, R>(cfg: Settings<Q, R>, s: State<Q, R>, event: Event<Q, R>, e: nat)
    requires Inv(cfg, s) && Refs(s) && cfg.maxBatchSize >= 1 && e < |s.entries| && s.entries[e].done
    ensures var t := Step(cfg, s, event); |t.entries| >= |s.entries| && t.entries[e] == s.entries[e]
  {
    if Enabled(s, event) {
      match event
      case Register(key, req) =>
        var p := Pushed(s, key, req);
        PushKeeps(cfg, s, key, req);
        if |p.pending[key].entries| >= cfg.maxBatchSize { FlushSpares(cfg, p, key, e); }
      case TimerFires(t) =>
        TimerFlushesItsBatch(cfg, s, t);
        FlushSpares(cfg, s, s.timers[t].key, e);
      case GroupAnswers(g, outcome) =>
        assert GroupOk(cfg, s, g);
        AnswerEffect(cfg, s, g, outcome);
      case CancelEntry(x) =>
    }
  }

  lemma FlushSpares<Q, R>(cfg: Settings<Q, R>, s: State<Q, R>, key: string, e: nat)
    requires Core(cfg, s) && key in s.pending && e < |s.entries| && s.entries[e].done
    ensures Known(s.entries, s.pending[key].entries)
    ensures |Flushed(cfg, s, key).entries| == |s.entries| && Flushed(cfg, s, key).entries[e] == s.entries[e]
  {
    var es := s.pending[key].entries;
    assert BatchOk(cfg, s, key);
    BatchIsUnsettled(cfg, s, key);
    LaunchEffect(cfg, Taken(s, key), key, es);
    forall i | 0 <= i < |es| ensures es[i] != e {
      assert Member(s, key, es[i]);
    }
  }

  // ----- a group nobody waits for -----

  ghost predicate Stranded<Q, R>(s: State<Q, R>, g: nat) {
    && g < |s.groups| && s.groups[g].phase.Running? && Known(s.entries, s.groups[g].entries)
    && forall i :: 0 <= i < |s.groups[g].entries| ==> s.entries[s.groups[g].entries[i]].done
  }

  /** Cancelling the last member while a newer batch waits leaves the group running for nobody. */
  lemma NewerBatchStrands<Q, R>(cfg: Settings<Q, R>, s: State<Q, R>, e: nat)
    requires Inv(cfg, s) && Refs(s) && e < |s.entries| && !s.entries[e].done && s.entries[e].group.Some?
    requires LastOf(s, s.entries[e].group.value, e) && s.entries[e].key in s.pending
    ensures Stranded(CancelledEntry(s, e), s.entries[e].group.value)
  {
    CancelStopsGroupIff(cfg, s, e);
    assert GroupOk(cfg, s, s.entries[e].group.value);
    MarkedEntries(s, e);
    CancelKeeps(cfg, s, e);
    RefsHold(cfg, CancelledEntry(s, e));
  }

  /** And nothing but its own answer ever ends it: its downstream request is never cancelled. */
  lemma {:induction false} StrandedForever<Q, R>(cfg: Settings<Q, R>, s: State<Q, R>, g: nat, events: seq<Event<Q, R>>)
    requires Inv(cfg, s) && cfg.maxBatchSize >= 1 && Stranded(s, g)
    requires forall i :: 0 <= i < |events| ==> !(events[i].GroupAnswers? && events[i].group == g)
    ensures Stranded(After(cfg, s, events), g) && g !in After(cfg, s, events).stops
    decreases |events|
  {
    if events != [] {
      StepKeeps(cfg, s, events[0]);
      StrandedStep(cfg, s, g, events[0]);
      StrandedForever(cfg, Step(cfg, s, events[0]), g, events[1..]);
    }
  }

  lemma StrandedStep<Q, R>(cfg: Settings<Q, R>, s: State<Q, R>, g: nat, event: Event<Q, R>)
    requires Inv(cfg, s) && cfg.maxBatchSize >= 1 && Stranded(s, g)
    requires !(event.GroupAnswers? && event.group == g)
    ensures Stranded(Step(cfg, s, event), g)
  {
    var t := Step(cfg, s, event);
    var es := s.groups[g].entries;
    RefsHold(cfg, s);
    GroupStays(cfg, s, g, event);
    forall i | 0 <= i < |es| ensures es[i] < |t.entries| && t.entries[es[i]].done {
      SettledForGood(cfg, s, event, es[i]);
    }
  }

  lemma GroupStays<Q, R>(cfg: Settings<Q, R>, s: State<Q, R>, g: nat, event: Event<Q, R>)
    requires Inv(cfg, s) && Refs(s) && cfg.maxBatchSize >= 1 && Stranded(s, g)
    requires !(event.GroupAnswers? && event.group == g)
    ensures var t := Step(cfg, s, event); g < |t.groups| && t.groups[g] == s.groups[g]
  {
    if Enabled(s, event) {
      match event
      case Register(key, req) =>
        PushKeeps(cfg, s, key, req);
      case CancelEntry(x) =>
        assert EntryOk(s, x);
      case _ =>
    }
  }

  /** Such a group arises: the first request is flushed by its timer, a second one waits, the first is cancelled. */
  lemma StrandingHappens<Q(!new), R(!new)>(cfg: Settings<Q, R>, key: string, req: Q)
    requires cfg.maxBatchSize == 2 && cfg.encode([req]).Returns?
    ensures exists t :: Reaches(cfg, Fresh(), t) && Stranded(t, 0)
  {
    var waiting: Entry<Q, R> := Entry(key, req, false, false, None, []);
    var s0: State<Q, R> := Fresh();
    var s1 := State([waiting], map[key := Pending([0], Some(0))], [], [Timer(key, true)], []);
    var s2 := State([Joined(waiting, 0)], map[], [Group(key, [0], cfg.encode([req]).value, Running)], [Timer(key, false)], []);
    var s3 := State([Joined(waiting, 0), waiting], map[key := Pending([1], Some(1))], s2.groups,
                    [Timer(key, false), Timer(key, true)], []);
    FirstOfBatch(cfg, s0, key, req, s1);
    FirstFlush(cfg, key, req, s1, s2);
    FirstOfBatch(cfg, s2, key, req, s3);
    var t := StrandingCancel(cfg, key, s3);
    assert After(cfg, t, []) == t;
    OneMore(cfg, s3, CancelEntry(0), t, t);
    OneMore(cfg, s2, Register(key, req), s3, t);
    OneMore(cfg, s1, TimerFires(0), s2, t);
    OneMore(cfg, s0, Register(key, req), s1, t);
  }

  ghost predicate Reaches<Q(!new), R(!new)>(cfg: Settings<Q, R>, s: State<Q, R>, t: State<Q, R>) {
    exists events :: After(cfg, s, events) == t
  }

  lemma OneMore<Q(!new), R(!new)>(cfg: Settings<Q, R>, s: State<Q, R>, e: Event<Q, R>, s1: State<Q, R>, t: State<Q, R>)
    requires Step(cfg, s, e) == s1 && Reaches(cfg, s1, t)
    ensures Reaches(cfg, s, t)
  {
    var events :| After(cfg, s1, events) == t;
    var longer := [e] + events;
    assert longer[1..] == events;
    assert After(cfg, s, longer) == t;
  }

  /** The first request of a batch of two waits, with a new timer. */
  lemma FirstOfBatch<Q, R>(cfg: Settings<Q, R>, s: State<Q, R>, key: string, req: Q, t: State<Q, R>)
    requires cfg.maxBatchSize == 2 && Refs(s) && key !in s.pending
    requires t == s.(entries := s.entries + [Entry(key, req, false, false, None, [])],
                     pending := s.pending[key := Pending([|s.entries|], Some(|s.timers|))],
                     timers := s.timers + [Timer(key, true)])
    ensures Step(cfg, s, Register(key, req)) == t
  {
    assert [] + [|s.entries|] == [|s.entries|];
  }

  lemma StrandingCancel<Q, R>(cfg: Settings<Q, R>, key: string, s: State<Q, R>) returns (t: State<Q, R>)
    requires |s.entries| == 2 && s.entries[0].key == key && s.entries[0].group == Some(0)
    requires !s.entries[0].done && !s.entries[0].cancelled && s.entries[1].group.None?
    requires s.pending == map[key := Pending([1], Some(1))]
    requires |s.groups| == 1 && s.groups[0].entries == [0] && s.groups[0].phase.Running?
    ensures t == Step(cfg, s, CancelEntry(0)) && Stranded(t, 0)
  {
    assert Refs(s);
    assert Drop([1], 0) == [1];
    t := LeftBatch(Marked(s, 0), key, 0);
    assert t.entries[0].done;
  }

  lemma FirstFlush<Q, R>(cfg: Settings<Q, R>, key: string, req: Q, s1: State<Q, R>, s2: State<Q, R>)
    requires cfg.encode([req]).Returns?
    requires s1 == State([Entry(key, req, false, false, None, [])], map[key := Pending([0], Some(0))], [], [Timer(key, true)], [])
    requires s2 == State([Joined(s1.entries[0], 0)], map[], [Group(key, [0], cfg.encode([req]).value, Running)],
                         [Timer(key, false)], [])
    ensures Step(cfg, s1, TimerFires(0)) == s2
  {
    assert Known(s1.entries, s1.pending[key].entries);
    assert Refs(s1);
    assert Requests(s1.entries, [0]) == [req];
    assert Unsettled(s1.entries, [0]) == [0];
    assert JoinedFrom(s1.entries, [0], 0, 0) == s1.entries[0 := Joined(s1.entries[0], 0)];
  }
}
