/** How one key of the pool may change under the steps of a request that owns at most one lease: what the other
    requests on that key can rely on. */
module HttpPoolOwnership {
  import opened Prelude
  import opened HttpPoolSpec

  predicate GrantedTo(s: KeyState, w: nat, lease: nat) {
    w < |s.waiters| && s.waiters[w].outcome == Granted(lease)
  }

  predicate StillQueued(s: KeyState, w: nat) {
    w < |s.waiters| && s.waiters[w].outcome.Queued?
  }

  /** New leases are open and belong to waiters that were queued; settled waiters stay settled; no open lease but `mine`
      is released. */
  ghost predicate Evolves(s: KeyState, s': KeyState, mine: Option<nat>) {
    && Extends(s, s') && |s'.waiters| == |s.waiters|
    && (forall w {:trigger s'.waiters[w]} :: 0 <= w < |s.waiters| && IsQueued(s.waiters[w]) && WasGranted(s'.waiters[w]) ==>
          s'.waiters[w].outcome.lease >= |s.leases|)
    && (forall l: nat {:trigger s'.leases[l]} :: |s.leases| <= l < |s'.leases| ==>
          !s'.leases[l] && exists w: nat :: GrantedTo(s', w, l) && StillQueued(s, w))
    && (forall l {:trigger s'.leases[l]} :: 0 <= l < |s.leases| && !s.leases[l] && mine != Some(l) ==> !s'.leases[l])
  }

  lemma EvolvesSame(s: KeyState, mine: Option<nat>)
    ensures Evolves(s, s, mine)
  {
  }

  lemma EvolvesThen(s: KeyState, t: KeyState, u: KeyState, mine: Option<nat>)
    requires Evolves(s, t, mine) && Evolves(t, u, mine) && (mine.Some? ==> mine.value < |s.leases|)
    ensures Evolves(s, u, mine)
  {
    forall l: nat | |s.leases| <= l < |u.leases|
      ensures !u.leases[l] && exists w: nat :: GrantedTo(u, w, l) && StillQueued(s, w)
    {
      if l < |t.leases| {
        assert !t.leases[l];
        var w: nat :| GrantedTo(t, w, l) && StillQueued(s, w);
        assert u.waiters[w].outcome == t.waiters[w].outcome;
        assert GrantedTo(u, w, l);
      } else {
        assert !u.leases[l];
        var w: nat :| GrantedTo(u, w, l) && StillQueued(t, w);
        assert StillQueued(s, w) || t.waiters[w].outcome == s.waiters[w].outcome;
      }
    }
  }

  lemma ServeHeadEvolves(s: KeyState, mine: Option<nat>)
    requires InOrder(s) && s.queue != []
    ensures s.queue[0] < |s.waiters| && Evolves(s, ServeHead(s), mine)
  {
    var w := s.queue[0];
    assert w in s.queue && StillQueued(s, w);
    assert GrantedTo(ServeHead(s), w, |s.leases|) || s.waiters[w].aborted;
  }

  lemma {:induction false} DrainEvolves(c: Config, s: KeyState, mine: Option<nat>)
    requires InOrder(s) && InRange(s) && (mine.Some? ==> mine.value < |s.leases|)
    ensures Evolves(s, Drain(c, s), mine)
    decreases |s.queue|
  {
    if s.running < c.concurrency && s.queue != [] {
      ServeHeadEvolves(s, mine);
      ServeHeadKeepsOrder(s);
      DrainEvolves(c, ServeHead(s), mine);
      EvolvesThen(s, ServeHead(s), Drain(c, ServeHead(s)), mine);
    } else {
      EvolvesSame(s, mine);
    }
  }

  /** Releasing one's own lease, and only that, closes it. */
  lemma ReleaseEvolves(c: Config, s: KeyState, lease: nat)
    requires Inv(c, s) && lease < |s.leases|
    ensures InRange(s) && Inv(c, Release(c, s, lease)) && Evolves(s, Release(c, s, lease), Some(lease))
    ensures Release(c, s, lease).leases[lease]
  {
    hide Drain, Counted, Fair, Bounded;
    InvInRange(c, s);
    ReleaseKeeps(c, s, lease);
    if s.leases[lease] {
      EvolvesSame(s, Some(lease));
    } else {
      var freed := s.(leases := s.leases[lease := true], running := s.running - 1, released := s.released + 1);
      assert Evolves(s, freed, Some(lease));
      DrainEvolves(c, freed, Some(lease));
      EvolvesThen(s, freed, Drain(c, freed), Some(lease));
    }
  }

  lemma LeavingEvolves(c: Config, s: KeyState, w: nat, mine: Option<nat>)
    requires Inv(c, s) && w < |s.waiters| && s.waiters[w].listening
    ensures Evolves(s, AbortListener(s, w), mine) && Evolves(s, QueueTimeout(s, w), mine)
    ensures Inv(c, AbortListener(s, w)) && Inv(c, QueueTimeout(s, w))
  {
    LeavingKeeps(c, s, w);
  }

  lemma SignalEvolves(c: Config, s: KeyState, w: nat, mine: Option<nat>)
    requires Inv(c, s) && w < |s.waiters|
    ensures Evolves(s, SignalAborts(s, w), mine) && Inv(c, SignalAborts(s, w))
  {
    SignalKeeps(c, s, w);
  }

  lemma EvolvesForMore(s: KeyState, s': KeyState, mine: Option<nat>, mine': Option<nat>)
    requires Evolves(s, s', mine) && (mine.None? || mine == mine')
    ensures Evolves(s, s', mine')
  {
    forall l: nat | |s.leases| <= l < |s'.leases|
      ensures !s'.leases[l] && exists w: nat :: GrantedTo(s', w, l) && StillQueued(s, w)
    {
      assert !s'.leases[l];
    }
  }
}
