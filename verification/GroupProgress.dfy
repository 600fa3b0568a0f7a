/**
 Progress of get-or-create: from every reachable state a started call of `get` can still return.
 The threads that hold the lock leave it first, by themselves; then the call goes on alone.
 */
module GroupProgress {
  import Lock = SharedSpinlock
  import opened GroupModule

  ghost predicate IsPath(run: seq<State>, s: State, s': State) {
    && |run| > 0 && run[0] == s && run[|run| - 1] == s'
    && forall i :: 0 <= i < |run| - 1 ==> Step(run[i], run[i + 1])
  }

  ghost predicate CanReach(s: State, s': State) {
    exists run :: IsPath(run, s, s')
  }

  // The threads other than u have not moved.
  ghost predicate OnlyMoved(s: State, u: nat, s': State) {
    && |s'.clients| == |s.clients| && |s'.lock.threads| == |s.lock.threads|
    && (forall t :: 0 <= t < |s.clients| && t != u ==> s'.clients[t] == s.clients[t])
    && (u < |s.lock.threads| ==> s'.lock.threads == s.lock.threads[u := s'.lock.threads[u]])
  }

  lemma Do(r: State, s: State, u: nat, e: Event) returns (s': State)
    requires CanReach(r, s) && LockInv(s) && Possible(s, u, e)
    ensures s' == Next(s, u, e) && CanReach(r, s') && LockInv(s') && OnlyMoved(s, u, s')
  {
    s' := Next(s, u, e);
    LockStepInv(s, u, e);
    LongerPath(r, s, s');
    SameOthers(s, u, e);
  }

  lemma LongerPath(r: State, s: State, s': State)
    requires CanReach(r, s) && Step(s, s')
    ensures CanReach(r, s')
  {
    var run :| IsPath(run, r, s);
    var more := run + [s'];
    forall i | 0 <= i < |more| - 1 ensures Step(more[i], more[i + 1]) {
      if i < |run| - 1 {
        assert Step(run[i], run[i + 1]);
      }
    }
    assert IsPath(more, r, s');
  }

  lemma SameOthers(s: State, u: nat, e: Event)
    requires LockInv(s) && Possible(s, u, e)
    ensures OnlyMoved(s, u, Next(s, u, e))
  {
    assert s.lock.threads[u := s.lock.threads[u]] == s.lock.threads;
  }

  predicate Holds(s: State, u: nat) {
    u < |s.lock.threads| && (s.lock.threads[u].Shared? || s.lock.threads[u].Exclusive?)
  }

  lemma MovedTwice(s: State, u: nat, t: State, t': State)
    requires OnlyMoved(s, u, t) && OnlyMoved(t, u, t')
    ensures OnlyMoved(s, u, t')
  {
  }

  // A call that has emplaced gives the lock back.
  lemma LeavePlaced(r: State, s: State, u: nat) returns (s': State)
    requires CanReach(r, s) && LockInv(s) && u < |s.clients| && s.clients[u].Placed?
    ensures CanReach(r, s') && LockInv(s') && OnlyMoved(s, u, s') && !Holds(s', u)
    ensures s'.clients[u].Out? || s'.clients[u].Losing?
  {
    assert ThreadInv(s.clients[u], s.lock.threads[u], s.instances);
    s' := Do(r, s, u, Release);
  }

  lemma LeaveInserting(r: State, s: State, u: nat) returns (s': State)
    requires CanReach(r, s) && LockInv(s) && u < |s.clients| && s.clients[u].Inserting?
    ensures CanReach(r, s') && LockInv(s') && OnlyMoved(s, u, s') && !Holds(s', u)
    ensures s'.clients[u].Out? || s'.clients[u].Losing?
  {
    var t := Do(r, s, u, EmplaceInsert);
    s' := LeavePlaced(r, t, u);
    MovedTwice(s, u, t, s');
  }

  // A call with the exclusive lock emplaces and gives the lock back.
  lemma LeaveExclusive(r: State, s: State, u: nat) returns (s': State)
    requires CanReach(r, s) && LockInv(s) && u < |s.clients| && s.clients[u].Upgrading? && s.lock.threads[u].Exclusive?
    ensures CanReach(r, s') && LockInv(s') && OnlyMoved(s, u, s') && !Holds(s', u)
    ensures s'.clients[u].Out? || s'.clients[u].Losing?
  {
    var t := Do(r, s, u, EmplaceLookup);
    if t.clients[u].Placed? {
      s' := LeavePlaced(r, t, u);
    } else {
      s' := LeaveInserting(r, t, u);
    }
    MovedTwice(s, u, t, s');
  }

  // A call that has found its group returns; one that made its own gives the shared lock up.
  lemma LeaveShared(r: State, s: State, u: nat) returns (s': State)
    requires CanReach(r, s) && LockInv(s) && u < |s.clients| && (s.clients[u].Found? || s.clients[u].Made?)
    ensures CanReach(r, s') && LockInv(s') && OnlyMoved(s, u, s') && !Holds(s', u)
    ensures s'.clients[u].Out? || s'.clients[u].Upgrading?
  {
    assert ThreadInv(s.clients[u], s.lock.threads[u], s.instances);
    s' := Do(r, s, u, if s.clients[u].Found? then ReturnFound else Upgrade);
  }

  lemma LeaveSearching(r: State, s: State, u: nat) returns (s': State)
    requires CanReach(r, s) && LockInv(s) && u < |s.clients| && s.clients[u].Searching? && s.lock.threads[u].Shared?
    ensures CanReach(r, s') && LockInv(s') && OnlyMoved(s, u, s') && !Holds(s', u)
    ensures s'.clients[u].Out? || s'.clients[u].Upgrading?
  {
    var t := Do(r, s, u, Find);
    s' := LeaveShared(r, t, u);
    MovedTwice(s, u, t, s');
  }

  lemma LeaveStop(r: State, s: State, u: nat) returns (s': State)
    requires CanReach(r, s) && LockInv(s) && u < |s.clients| && s.lock.threads[u].Exclusive?
    requires s.clients[u].StopWaiting? || s.clients[u].Swapped?
    ensures CanReach(r, s') && LockInv(s') && OnlyMoved(s, u, s') && !Holds(s', u)
  {
    var t := s;
    if s.clients[u].StopWaiting? {
      t := Do(r, s, u, Swap);
    }
    s' := Do(r, t, u, ReleaseAfterSwap);
    if s.clients[u].StopWaiting? {
      MovedTwice(s, u, t, s');
    }
  }

  // Every holder of the lock can leave it without waiting for anybody.
  lemma Leave(r: State, s: State, u: nat) returns (s': State)
    requires CanReach(r, s) && LockInv(s) && Holds(s, u)
    ensures CanReach(r, s') && LockInv(s') && OnlyMoved(s, u, s') && !Holds(s', u)
  {
    assert ThreadInv(s.clients[u], s.lock.threads[u], s.instances);
    match s.clients[u]
    case Searching(_) => s' := LeaveSearching(r, s, u);
    case Found(_, _) => s' := LeaveShared(r, s, u);
    case Made(_, _) => s' := LeaveShared(r, s, u);
    case Upgrading(_, _) => s' := LeaveExclusive(r, s, u);
    case Inserting(_, _) => s' := LeaveInserting(r, s, u);
    case Placed(_, _, _) => s' := LeavePlaced(r, s, u);
    case StopWaiting => s' := LeaveStop(r, s, u);
    case Swapped(_) => s' := LeaveStop(r, s, u);
  }

  // All holders leave, and a thread that waits stays where it is.
  lemma {:induction false} AllLeave(r: State, s: State, w: nat) returns (s': State)
    requires CanReach(r, s) && LockInv(s) && w < |s.clients| && !Holds(s, w)
    ensures CanReach(r, s') && LockInv(s') && s'.lock.flag == 0
    ensures |s'.clients| == |s.clients| && s'.clients[w] == s.clients[w] && s'.lock.threads[w] == s.lock.threads[w]
    decreases Lock.Readers(s.lock.threads) + Lock.Writers(s.lock.threads)
  {
    if Lock.Readers(s.lock.threads) + Lock.Writers(s.lock.threads) == 0 {
      return s;
    }
    var u := Lock.SomeHolder(s.lock.threads);
    var t := Leave(r, s, u);
    Lock.CountsAfterUpdate(s.lock.threads, u, t.lock.threads[u]);
    s' := AllLeave(r, t, w);
  }

  // ----- the call goes on -----

  lemma EndsLosing(r: State, s: State, w: nat) returns (s': State)
    requires CanReach(r, s) && LockInv(s) && w < |s.clients| && (s.clients[w].Out? || s.clients[w].Losing?)
    ensures CanReach(r, s') && w < |s'.clients| && s'.clients[w].Out?
  {
    s' := s;
    if s.clients[w].Losing? {
      s' := Do(r, s, w, StopLoser);
    }
  }

  lemma EndsUpgrading(r: State, s: State, w: nat) returns (s': State)
    requires CanReach(r, s) && LockInv(s) && w < |s.clients| && s.clients[w].Upgrading?
    ensures CanReach(r, s') && w < |s'.clients| && s'.clients[w].Out?
  {
    assert ThreadInv(s.clients[w], s.lock.threads[w], s.instances);
    var t := s;
    if !s.lock.threads[w].Exclusive? {
      t := AllLeave(r, s, w);
      if !(t.lock.threads[w].LockLoop? && t.lock.threads[w].v == 0) {
        t := Do(r, t, w, LockStep(false));
      }
      t := Do(r, t, w, LockStep(false));
    }
    t := LeaveExclusive(r, t, w);
    s' := EndsLosing(r, t, w);
  }

  lemma EndsSearching(r: State, s: State, w: nat) returns (s': State)
    requires CanReach(r, s) && LockInv(s) && w < |s.clients| && s.clients[w].Searching?
    ensures CanReach(r, s') && w < |s'.clients| && s'.clients[w].Out?
  {
    assert ThreadInv(s.clients[w], s.lock.threads[w], s.instances);
    var t := s;
    if !s.lock.threads[w].Shared? {
      t := AllLeave(r, s, w);
      if !(t.lock.threads[w].SharedLoop? && t.lock.threads[w].v == 0) {
        t := Do(r, t, w, LockStep(false));
      }
      t := Do(r, t, w, LockStep(false));
    }
    t := LeaveSearching(r, t, w);
    s' := t;
    if t.clients[w].Upgrading? {
      s' := EndsUpgrading(r, t, w);
    }
  }

  predicate InGet(c: Client) {
    !c.Out? && !c.StopWaiting? && !c.Swapped? && !c.Sweeping?
  }

  // From every reachable state, every started call of `get` can still return.
  lemma GetCanReturn(run: seq<State>, i: nat, w: nat) returns (s': State)
    requires IsRun(run) && i < |run| && w < |run[i].clients| && InGet(run[i].clients[w])
    ensures CanReach(run[i], s') && w < |s'.clients| && s'.clients[w].Out?
  {
    var s := run[i];
    RunInv(run, i);
    assert IsPath([s], s, s);
    var c := s.clients[w];
    if c.Searching? {
      s' := EndsSearching(s, s, w);
    } else if c.Upgrading? {
      s' := EndsUpgrading(s, s, w);
    } else if c.Found? || c.Made? {
      s' := LeaveShared(s, s, w);
      if s'.clients[w].Upgrading? {
        s' := EndsUpgrading(s, s', w);
      }
    } else {
      s' := s;
      if c.Inserting? {
        s' := LeaveInserting(s, s, w);
      } else if c.Placed? {
        s' := LeavePlaced(s, s, w);
      }
      s' := EndsLosing(s, s', w);
    }
  }
}
