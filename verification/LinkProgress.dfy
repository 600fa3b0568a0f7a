/**
 When link operations can end. An operation that waits for a lock can end exactly when the chain of
 actors waiting for each other, from its own actor on, is no cycle; and no cycle comes up when all
 operations go from actors of lower to actors of higher rank.
 */
module LinkProgress {
  import Attachables
  import opened Links

  type ActorId = Attachables.ActorId

  predicate Waiting(s: State, a: ActorId) {
    a in s.actors && (s.actors[a].busy.WantLink? || s.actors[a].busy.WantUnlink?)
  }

  predicate WaitsFor(s: State, a: ActorId, b: ActorId) {
    Waiting(s, a) && s.actors[a].busy.other == b
  }

  // The chain from `a` comes to an actor that does not wait after n hops.
  predicate Reaches(s: State, a: ActorId, n: nat)
    decreases n
  {
    if n == 0 then !Waiting(s, a) else Waiting(s, a) && Reaches(s, s.actors[a].busy.other, n - 1)
  }

  // The chain from `a` leads to `b` in n hops.
  predicate Path(s: State, a: ActorId, n: nat, b: ActorId)
    decreases n
  {
    if n == 0 then a == b else Waiting(s, a) && Path(s, s.actors[a].busy.other, n - 1, b)
  }

  predicate Cycle(s: State, b: ActorId, n: nat) {
    n > 0 && Path(s, b, n, b)
  }

  ghost predicate LeadsToCycle(s: State, a: ActorId) {
    exists b, n: nat, m: nat :: Path(s, a, n, b) && Cycle(s, b, m)
  }

  // ----- ending an operation -----

  function Last(run: seq<State>): State
    requires run != []
  {
    run[|run| - 1]
  }

  // Some operations have ended, none has begun.
  ghost predicate OnlyEnds(s: State, t: State) {
    && t.actors.Keys == s.actors.Keys && AllSane(t)
    && (forall x :: x in s.actors ==> t.actors[x].busy.Idle? || t.actors[x].busy == s.actors[x].busy)
    && (forall x :: x in s.actors ==> t.actors[x].reason == s.actors[x].reason)
  }

  lemma Join(run: seq<State>, steps: seq<Step>, more: seq<State>, moreSteps: seq<Step>)
    requires IsRun(run, steps) && IsRun(more, moreSteps) && Last(run) == more[0]
    ensures IsRun(run + more[1..], steps + moreSteps)
    ensures Last(run + more[1..]) == Last(more) && (run + more[1..])[0] == run[0]
  {
    var (all, allSteps) := (run + more[1..], steps + moreSteps);
    forall i: nat | i < |allSteps| ensures StepAt(all, allSteps, i) {
      if i < |steps| {
        assert StepAt(run, steps, i);
      } else {
        assert StepAt(more, moreSteps, i - |steps|);
        assert all[i] == more[i - |steps|] && all[i + 1] == more[i - |steps| + 1];
      }
    }
  }

  // One step of an actor that leaves the other actors' operations alone.
  lemma OwnStep(s: State, step: Step)
    requires AllSane(s) && Enabled(s, step) && (step.LinkBack? || step.LinkEnd? || step.UnlinkBack?)
    ensures var t := Next(s, step);
            && t.actors.Keys == s.actors.Keys && AllSane(t)
            && (forall x :: x in s.actors && x != step.a ==> t.actors[x].busy == s.actors[x].busy)
            && (forall x :: x in s.actors ==> t.actors[x].reason == s.actors[x].reason)
            && (t.actors[step.a].busy.Idle? || (step.LinkBack? && t.actors[step.a].busy.HasLink?))
  {
    StepSane(s, step);
    assert Sane(s, step.a);
  }

  // An operation that has its second lock within reach ends in at most two steps.
  lemma Finish(s: State, a: ActorId) returns (run: seq<State>, steps: seq<Step>)
    requires AllSane(s) && a in s.actors && (Waiting(s, a) ==> Free(s, s.actors[a].busy.other))
    ensures IsRun(run, steps) && run[0] == s && OnlyEnds(s, Last(run)) && Free(Last(run), a)
  {
    run, steps := [s], [];
    if s.actors[a].busy.WantLink? {
      OwnStep(s, LinkBack(a));
      run, steps := Extend(run, steps, LinkBack(a));
    } else if s.actors[a].busy.WantUnlink? {
      OwnStep(s, UnlinkBack(a));
      run, steps := Extend(run, steps, UnlinkBack(a));
    }
    if Last(run).actors[a].busy.HasLink? {
      OwnStep(Last(run), LinkEnd(a));
      run, steps := Extend(run, steps, LinkEnd(a));
    }
  }

  // Down the chain and back: every operation on it ends.
  lemma {:induction false} EndsOperation(s: State, a: ActorId, n: nat) returns (run: seq<State>, steps: seq<Step>)
    requires AllSane(s) && a in s.actors && Reaches(s, a, n)
    ensures IsRun(run, steps) && run[0] == s && OnlyEnds(s, Last(run)) && Free(Last(run), a)
    decreases n
  {
    if n == 0 {
      run, steps := Finish(s, a);
    } else {
      assert Sane(s, a);
      run, steps := EndsOperation(s, s.actors[a].busy.other, n - 1);
      var more, moreSteps := Finish(Last(run), a);
      Join(run, steps, more, moreSteps);
      run, steps := run + more[1..], steps + moreSteps;
    }
  }

  // ----- operations that never end -----

  // Every actor of the set waits for another one of the set.
  ghost predicate Blocked(s: State, blocked: set<ActorId>) {
    forall x :: x in blocked ==> Waiting(s, x) && s.actors[x].busy.other in blocked
  }

  ghost predicate SameOperations(s: State, t: State, blocked: set<ActorId>) {
    forall x :: x in blocked ==>
      x in s.actors && x in t.actors && t.actors[x].busy == s.actors[x].busy && t.actors[x].reason == s.actors[x].reason
  }

  lemma StaysBlocked(s: State, step: Step, blocked: set<ActorId>)
    requires Enabled(s, step) && Blocked(s, blocked)
    ensures SameOperations(s, Next(s, step), blocked)
  {
    forall x | x in blocked
      ensures x in Next(s, step).actors && Next(s, step).actors[x].busy == s.actors[x].busy
              && Next(s, step).actors[x].reason == s.actors[x].reason
    {
      assert Waiting(s, x) && Waiting(s, s.actors[x].busy.other);
    }
  }

  lemma SameIsBlocked(s: State, t: State, blocked: set<ActorId>)
    requires Blocked(s, blocked) && SameOperations(s, t, blocked)
    ensures Blocked(t, blocked)
  {
  }

  lemma BlockedStep(r: State, s: State, step: Step, blocked: set<ActorId>)
    requires Enabled(s, step) && Blocked(r, blocked) && SameOperations(r, s, blocked)
    ensures SameOperations(r, Next(s, step), blocked)
  {
    SameIsBlocked(r, s, blocked);
    StaysBlocked(s, step, blocked);
  }

  lemma BlockedAt(run: seq<State>, steps: seq<Step>, r: State, j: nat, blocked: set<ActorId>)
    requires IsRun(run, steps) && j < |steps| && Blocked(r, blocked) && SameOperations(r, run[j], blocked)
    ensures SameOperations(r, run[j + 1], blocked)
  {
    assert StepAt(run, steps, j);
    BlockedStep(r, run[j], steps[j], blocked);
  }

  // Actors that wait for each other, in a cycle of any length or behind one, do so for ever: no
  // operation of theirs ends, and none of them exits.
  lemma {:induction false} BlockedForever(run: seq<State>, steps: seq<Step>, i: nat, j: nat, blocked: set<ActorId>)
    requires IsRun(run, steps) && i <= j < |run| && Blocked(run[i], blocked)
    ensures SameOperations(run[i], run[j], blocked)
  {
    if i < j {
      BlockedForever(run, steps, i, j - 1, blocked);
      BlockedAt(run, steps, run[i], j - 1, blocked);
    }
  }

  ghost predicate Ending(s: State, a: ActorId) {
    exists n: nat :: Reaches(s, a, n)
  }

  ghost predicate Endless(s: State, a: ActorId) {
    !Ending(s, a)
  }

  ghost function AllEndless(s: State): set<ActorId> {
    set x | x in s.actors && Endless(s, x)
  }

  lemma EndlessAreBlocked(s: State)
    requires AllSane(s)
    ensures Blocked(s, AllEndless(s))
  {
    forall x | x in AllEndless(s) ensures Waiting(s, x) && s.actors[x].busy.other in AllEndless(s) {
      assert !Reaches(s, x, 0) && Sane(s, x);
      forall n: nat ensures !Reaches(s, s.actors[x].busy.other, n) {
        assert !Reaches(s, x, n + 1);
      }
    }
  }

  // ----- exactly when an operation can end -----

  ghost predicate EndsIn(s: State, a: ActorId, run: seq<State>, steps: seq<Step>) {
    IsRun(run, steps) && run[0] == s && Free(Last(run), a)
  }

  // Some continuation ends the operation of `a`.
  ghost predicate CanEnd(s: State, a: ActorId) {
    exists run, steps :: EndsIn(s, a, run, steps)
  }

  lemma CanEndIff(s: State, a: ActorId)
    requires AllSane(s) && a in s.actors
    ensures CanEnd(s, a) <==> !Endless(s, a)
  {
    if Endless(s, a) {
      EndlessAreBlocked(s);
      forall run, steps ensures !EndsIn(s, a, run, steps) {
        if EndsIn(s, a, run, steps) {
          BlockedForever(run, steps, 0, |run| - 1, AllEndless(s));
        }
      }
    } else {
      var n: nat :| Reaches(s, a, n);
      var run, steps := EndsOperation(s, a, n);
      assert EndsIn(s, a, run, steps);
    }
  }

  // ----- cycles -----

  // The chain is a function: what is reached from `a` is reached from every actor on the way.
  lemma {:induction false} Onwards(s: State, a: ActorId, n: nat, b: ActorId, k: nat)
    requires Path(s, a, n, b) && Reaches(s, a, k)
    ensures n <= k && Reaches(s, b, k - n)
    decreases n
  {
    if n > 0 {
      Onwards(s, s.actors[a].busy.other, n - 1, b, k - 1);
    }
  }

  lemma {:induction false} CyclesAreEndless(s: State, b: ActorId, n: nat, k: nat)
    requires Cycle(s, b, n)
    ensures !Reaches(s, b, k)
    decreases k
  {
    if Reaches(s, b, k) {
      Onwards(s, b, n, b, k);
      CyclesAreEndless(s, b, n, k - n);
    }
  }

  ghost predicate Linked(s: State, chain: seq<ActorId>) {
    forall i, j :: 0 <= i && j == i + 1 < |chain| ==> WaitsFor(s, chain[i], chain[j])
  }

  // The first n actors of a chain that does not end.
  lemma {:induction false} LongChain(s: State, a: ActorId, n: nat) returns (chain: seq<ActorId>)
    requires AllSane(s) && a in s.actors && Endless(s, a)
    ensures |chain| == n && (n > 0 ==> chain[0] == a)
    ensures forall i :: 0 <= i < n ==> chain[i] in s.actors
    ensures Linked(s, chain)
    decreases n
  {
    if n == 0 {
      chain := [];
    } else {
      EndlessAreBlocked(s);
      assert a in AllEndless(s);
      var rest := LongChain(s, s.actors[a].busy.other, n - 1);
      chain := [a] + rest;
    }
  }

  lemma {:induction false} ChainPath(s: State, chain: seq<ActorId>, i: nat, j: nat)
    requires i <= j < |chain| && Linked(s, chain)
    ensures Path(s, chain[i], j - i, chain[j])
    decreases j - i
  {
    if i < j {
      assert WaitsFor(s, chain[i], chain[i + 1]);
      ChainPath(s, chain, i + 1, j);
    }
  }

  lemma {:induction false} Pigeonhole(chain: seq<ActorId>, all: set<ActorId>) returns (i: nat, j: nat)
    requires |chain| > |all| && forall k :: 0 <= k < |chain| ==> chain[k] in all
    ensures i < j < |chain| && chain[i] == chain[j]
    decreases |chain|
  {
    var last := chain[|chain| - 1];
    if k :| 0 <= k < |chain| - 1 && chain[k] == last {
      i, j := k, |chain| - 1;
    } else {
      i, j := Pigeonhole(chain[..|chain| - 1], all - {last});
    }
  }

  lemma EndlessIffCycle(s: State, a: ActorId)
    requires AllSane(s) && a in s.actors
    ensures Endless(s, a) <==> LeadsToCycle(s, a)
  {
    if Endless(s, a) {
      var chain := LongChain(s, a, |s.actors.Keys| + 1);
      var i, j := Pigeonhole(chain, s.actors.Keys);
      ChainPath(s, chain, 0, i);
      ChainPath(s, chain, i, j);
      assert Path(s, a, i, chain[i]) && Cycle(s, chain[i], j - i);
    } else if LeadsToCycle(s, a) {
      var b, n: nat, m: nat :| Path(s, a, n, b) && Cycle(s, b, m);
      var k: nat :| Reaches(s, a, k);
      Onwards(s, a, n, b, k);
      CyclesAreEndless(s, b, m, k - n);
    }
  }

  // In every reachable state, the operation of an actor can end exactly when its chain of waiting
  // actors leads to one that does not wait, and that is exactly when it leads to no cycle.
  lemma OperationEndsIff(run: seq<State>, steps: seq<Step>, i: nat, a: ActorId)
    requires IsRun(run, steps) && Starts(run[0]) && i < |run| && a in run[i].actors
    ensures CanEnd(run[i], a) <==> Ending(run[i], a)
    ensures CanEnd(run[i], a) <==> !LeadsToCycle(run[i], a)
  {
    RunInv(run, steps, i);
    CanEndIff(run[i], a);
    EndlessIffCycle(run[i], a);
  }

  function After(ring: seq<ActorId>, i: nat): ActorId
    requires i < |ring|
  {
    if i + 1 < |ring| then ring[i + 1] else ring[0]
  }

  predicate Distinct(ring: seq<ActorId>) {
    forall i, j :: 0 <= i < j < |ring| ==> ring[i] != ring[j]
  }

  // The first k links of a ring have begun, the others not yet.
  ghost predicate Begun(s: State, ring: seq<ActorId>, k: nat) {
    && (forall i :: 0 <= i < |ring| ==> ring[i] in s.actors)
    && (forall i :: 0 <= i < k && i < |ring| ==> WaitsFor(s, ring[i], After(ring, i)))
    && (forall i :: k <= i < |ring| ==> Running(s, ring[i]) && Free(s, ring[i]))
  }

  lemma {:induction false} BeginRing(s: State, ring: seq<ActorId>, k: nat) returns (run: seq<State>, steps: seq<Step>)
    requires |ring| >= 2 && Distinct(ring) && k <= |ring| && Begun(s, ring, 0)
    ensures IsRun(run, steps) && run[0] == s && Begun(Last(run), ring, k)
  {
    if k == 0 {
      run, steps := [s], [];
    } else {
      run, steps := BeginRing(s, ring, k - 1);
      run, steps := Extend(run, steps, LinkBegin(ring[k - 1], After(ring, k - 1)));
    }
  }

  // Linking running actors in a ring, of two or more, can block all of them.
  lemma LinkingInARingCanBlock(s: State, ring: seq<ActorId>) returns (run: seq<State>, steps: seq<Step>)
    requires |ring| >= 2 && Distinct(ring) && forall i :: 0 <= i < |ring| ==> Running(s, ring[i]) && Free(s, ring[i])
    ensures IsRun(run, steps) && run[0] == s && Blocked(Last(run), set x | x in ring)
  {
    run, steps := BeginRing(s, ring, |ring|);
    forall x | x in ring ensures Waiting(Last(run), x) && Last(run).actors[x].busy.other in ring {
      var i: nat :| i < |ring| && ring[i] == x;
      assert WaitsFor(Last(run), ring[i], After(ring, i));
    }
  }

  // ----- a rank that rules cycles out -----

  // Every link begins at an actor of lower rank than the other one, and so does every unlink from
  // an actor that is still running. Unlinking from an exited actor is free: this is what the
  // runtime does by itself when an actor handles an exit message.
  ghost predicate Ordered(run: seq<State>, steps: seq<Step>, rank: ActorId -> nat)
    requires |run| == |steps| + 1
  {
    forall i :: 0 <= i < |steps| ==> StepOrdered(run[i], steps[i], rank)
  }

  ghost predicate StepOrdered(s: State, step: Step, rank: ActorId -> nat) {
    && (step.LinkBegin? ==> rank(step.a) < rank(step.b))
    && (step.UnlinkBegin? && Running(s, step.b) ==> rank(step.a) < rank(step.b))
  }

  // Whoever waits, waits for an actor of higher rank or for one that has exited.
  ghost predicate Upwards(s: State, rank: ActorId -> nat) {
    forall x :: Waiting(s, x) ==> UpwardsAt(s, x, rank)
  }

  ghost predicate UpwardsAt(s: State, x: ActorId, rank: ActorId -> nat)
    requires Waiting(s, x)
  {
    rank(x) < rank(s.actors[x].busy.other) || !Running(s, s.actors[x].busy.other)
  }

  // The unlink that an actor does when it handles an exit message never breaks the order.
  lemma ExitHandlingIsOrdered(run: seq<State>, steps: seq<Step>, i: nat, m: ExitMsg, rank: ActorId -> nat)
    requires IsRun(run, steps) && Starts(run[0]) && i < |run| && Known(run[i].mail, m)
    ensures StepOrdered(run[i], UnlinkBegin(m.target, m.source), rank)
  {
    RunInv(run, steps, i);
    assert HonestMsg(run[i], m);
  }

  lemma {:induction false} RunUpwards(run: seq<State>, steps: seq<Step>, rank: ActorId -> nat, i: nat)
    requires IsRun(run, steps) && Starts(run[0]) && Ordered(run, steps, rank) && i < |run|
    ensures Upwards(run[i], rank)
  {
    if i > 0 {
      RunInv(run, steps, i - 1);
      RunUpwards(run, steps, rank, i - 1);
      assert StepAt(run, steps, i - 1) && StepOrdered(run[i - 1], steps[i - 1], rank);
      StepUpwards(run[i - 1], steps[i - 1], rank);
    }
  }

  lemma StepUpwards(s: State, step: Step, rank: ActorId -> nat)
    requires Enabled(s, step) && AllSane(s) && Upwards(s, rank) && StepOrdered(s, step, rank)
    ensures Upwards(Next(s, step), rank)
  {
    var t := Next(s, step);
    forall x | Waiting(t, x) ensures UpwardsAt(t, x, rank) {
      if Waiting(s, x) && t.actors[x].busy == s.actors[x].busy {
        assert UpwardsAt(s, x, rank) && Sane(s, x);
        if !Running(s, s.actors[x].busy.other) {
          ReasonStays(s, step, s.actors[x].busy.other);
        }
      }
    }
  }

  function Above(s: State, rank: ActorId -> nat, r: nat): set<ActorId> {
    set x | x in s.actors && rank(x) > r
  }

  lemma {:induction false} UpwardsReaches(s: State, rank: ActorId -> nat, a: ActorId) returns (n: nat)
    requires AllSane(s) && Upwards(s, rank) && a in s.actors
    ensures Reaches(s, a, n)
    decreases Above(s, rank, rank(a))
  {
    if Waiting(s, a) {
      var b := s.actors[a].busy.other;
      assert Sane(s, a) && Sane(s, b) && UpwardsAt(s, a, rank);
      if Running(s, b) {
        assert b in Above(s, rank, rank(a)) && b !in Above(s, rank, rank(b));
        n := UpwardsReaches(s, rank, b);
        n := n + 1;
      } else {
        assert !Waiting(s, b) && Reaches(s, b, 0);
        n := 1;
      }
    } else {
      n := 0;
    }
  }

  ghost function BusyActors(s: State): set<ActorId> {
    set x | x in s.actors && !Free(s, x)
  }

  lemma EndsKeepUpwards(s: State, t: State, rank: ActorId -> nat)
    requires Upwards(s, rank) && OnlyEnds(s, t)
    ensures Upwards(t, rank)
  {
    forall x | Waiting(t, x) ensures UpwardsAt(t, x, rank) {
      assert Waiting(s, x) && UpwardsAt(s, x, rank);
    }
  }

  lemma {:induction false} AllEnd(s: State, rank: ActorId -> nat) returns (run: seq<State>, steps: seq<Step>)
    requires AllSane(s) && Upwards(s, rank)
    ensures IsRun(run, steps) && run[0] == s && BusyActors(Last(run)) == {}
    decreases BusyActors(s)
  {
    if a :| a in BusyActors(s) {
      var n := UpwardsReaches(s, rank, a);
      run, steps := EndsOperation(s, a, n);
      var t := Last(run);
      EndsKeepUpwards(s, t, rank);
      assert BusyActors(t) <= BusyActors(s) && a !in BusyActors(t);
      var more, moreSteps := AllEnd(t, rank);
      Join(run, steps, more, moreSteps);
      run, steps := run + more[1..], steps + moreSteps;
    } else {
      run, steps := [s], [];
    }
  }

  // When every link of a run, and every unlink from an actor that is still running, goes from lower
  // to higher rank, for example by actor id, then from every state of the run all operations can
  // end. The unlinks that the runtime does for exit messages go either way and are covered.
  lemma RankedLinksNeverBlock(run: seq<State>, steps: seq<Step>, rank: ActorId -> nat, i: nat)
    returns (more: seq<State>, moreSteps: seq<Step>)
    requires IsRun(run, steps) && Starts(run[0]) && Ordered(run, steps, rank) && i < |run|
    ensures IsRun(more, moreSteps) && more[0] == run[i] && BusyActors(Last(more)) == {}
  {
    RunInv(run, steps, i);
    RunUpwards(run, steps, rank, i);
    more, moreSteps := AllEnd(run[i], rank);
  }
}
