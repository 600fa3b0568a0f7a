/**
 Get-or-create of local groups on top of the spinlock. A call looks the identifier up under the
 shared lock, makes its own instance, gives the shared lock up, takes the exclusive lock and
 emplaces; another thread may have emplaced in between. Emplacing takes two steps here, a lookup
 and an insertion, so that only the lock keeps them together.
 */
module GroupModule {
  import Lock = SharedSpinlock

  type Group = nat

  // Where a thread is in `get` or `stop`.
  datatype Client =
    | Out
    | Searching(id: string)
    | Found(id: string, result: Group)
    | Made(id: string, tmp: Group)
    | Upgrading(id: string, tmp: Group)
    | Inserting(id: string, tmp: Group)
    | Placed(id: string, tmp: Group, result: Group)
    | Losing(tmp: Group)
    | StopWaiting
    | Swapped(gone: set<Group>)
    | Sweeping(gone: set<Group>)

  // A call of `get` returned `group`, decided between the epoch-th and the next call of `stop`.
  datatype Answer = Answer(id: string, epoch: nat, group: Group)

  datatype State = State(
    lock: Lock.State,
    clients: seq<Client>,
    instances: map<string, Group>,
    created: nat,
    epoch: nat,
    stopped: set<Group>,
    answers: set<Answer>)

  datatype Event =
    | CallGet(id: string)
    | LockStep(spurious: bool)
    | Find
    | ReturnFound
    | Upgrade
    | EmplaceLookup
    | EmplaceInsert
    | Release
    | StopLoser
    | CallStop
    | Swap
    | ReleaseAfterSwap
    | Sweep

  predicate Possible(s: State, t: nat, e: Event) {
    && t < |s.clients| == |s.lock.threads|
    && var c, pc := s.clients[t], s.lock.threads[t];
       match e
       case CallGet(_) => c.Out? && pc.Idle?
       case LockStep(_) => (c.Searching? || c.Upgrading? || c.StopWaiting?) && Lock.Allowed(pc, Lock.Continue(false))
       case Find => c.Searching? && pc.Shared?
       case ReturnFound => c.Found? && pc.Shared?
       case Upgrade => c.Made? && pc.Shared?
       case EmplaceLookup => c.Upgrading? && pc.Exclusive?
       case EmplaceInsert => c.Inserting?
       case Release => c.Placed? && pc.Exclusive?
       case StopLoser => c.Losing?
       case CallStop => c.Out? && pc.Idle?
       case Swap => c.StopWaiting? && pc.Exclusive?
       case ReleaseAfterSwap => c.Swapped? && pc.Exclusive?
       case Sweep => c.Sweeping?
  }

  // The lock operation that goes with an event, if any.
  function LockAfter(s: State, t: nat, e: Event): Lock.State
    requires Possible(s, t, e)
  {
    match e
    case CallGet(_) => Lock.Next(s.lock, t, Lock.LockShared)
    case CallStop => Lock.Next(s.lock, t, Lock.Lock)
    case LockStep(spurious) => Lock.Next(s.lock, t, Lock.Continue(spurious))
    case ReturnFound => Lock.Next(s.lock, t, Lock.UnlockShared)
    case Upgrade => Lock.Next(s.lock, t, Lock.UpgradeAndLock)
    case Release => Lock.Next(s.lock, t, Lock.Unlock)
    case ReleaseAfterSwap => Lock.Next(s.lock, t, Lock.Unlock)
    case _ => s.lock
  }

  function Next(s: State, t: nat, e: Event): State
    requires Possible(s, t, e)
  {
    var s := s.(lock := LockAfter(s, t, e));
    var c := s.clients[t];
    match e
    case CallGet(id) => s.(clients := s.clients[t := Searching(id)])
    case CallStop => s.(clients := s.clients[t := StopWaiting])
    case LockStep(_) => s
    case Find =>
      if c.id in s.instances then
        s.(clients := s.clients[t := Found(c.id, s.instances[c.id])])
      else
        s.(clients := s.clients[t := Made(c.id, s.created)], created := s.created + 1)
    case ReturnFound =>
      s.(clients := s.clients[t := Out], answers := s.answers + {Answer(c.id, s.epoch, c.result)})
    case Upgrade => s.(clients := s.clients[t := Upgrading(c.id, c.tmp)])
    case EmplaceLookup =>
      if c.id in s.instances then
        s.(clients := s.clients[t := Placed(c.id, c.tmp, s.instances[c.id])])
      else
        s.(clients := s.clients[t := Inserting(c.id, c.tmp)])
    case EmplaceInsert =>
      s.(clients := s.clients[t := Placed(c.id, c.tmp, c.tmp)], instances := s.instances[c.id := c.tmp])
    case Release =>
      s.(clients := s.clients[t := if c.result != c.tmp then Losing(c.tmp) else Out],
         answers := s.answers + {Answer(c.id, s.epoch, c.result)})
    case StopLoser => s.(clients := s.clients[t := Out], stopped := s.stopped + {c.tmp})
    case Swap =>
      s.(clients := s.clients[t := Swapped(s.instances.Values)], instances := map[], epoch := s.epoch + 1)
    case ReleaseAfterSwap => s.(clients := s.clients[t := Sweeping(c.gone)])
    case Sweep => s.(clients := s.clients[t := Out], stopped := s.stopped + c.gone)
  }

  predicate Initial(s: State) {
    && Lock.Initial(s.lock)
    && |s.clients| == |s.lock.threads|
    && (forall t :: 0 <= t < |s.clients| ==> s.clients[t].Out?)
    && s.instances == map[] && s.created == 0 && s.epoch == 0 && s.stopped == {} && s.answers == {}
  }

  ghost predicate Step(s: State, s': State) {
    exists t: nat, e :: Possible(s, t, e) && s' == Next(s, t, e)
  }

  ghost predicate IsRun(run: seq<State>) {
    && |run| > 0
    && Initial(run[0])
    && forall i :: 0 <= i < |run| - 1 ==> Step(run[i], run[i + 1])
  }

  // ----- the invariant -----

  ghost predicate WantsShared(pc: Lock.Pc) { pc.SharedLoad? || pc.SharedLoop? || pc.Shared? }

  ghost predicate WantsExclusive(pc: Lock.Pc) { pc.LockLoad? || pc.LockLoop? || pc.Exclusive? }

  // A thread's place in `get` fits its place in the lock and what it has read from the map.
  ghost predicate ThreadInv(c: Client, pc: Lock.Pc, instances: map<string, Group>) {
    match c
    case Out => pc.Idle?
    case Searching(_) => WantsShared(pc)
    case Found(id, result) => pc.Shared? && id in instances && instances[id] == result
    case Made(_, _) => pc.Shared?
    case Upgrading(_, _) => WantsExclusive(pc)
    case Inserting(id, _) => pc.Exclusive? && id !in instances
    case Placed(id, _, result) => pc.Exclusive? && id in instances && instances[id] == result
    case Losing(_) => pc.Idle?
    case StopWaiting => WantsExclusive(pc)
    case Swapped(_) => pc.Exclusive?
    case Sweeping(_) => pc.Idle?
  }

  ghost predicate LockInv(s: State) {
    && |s.clients| == |s.lock.threads|
    && Lock.Inv(s.lock)
    && forall t :: 0 <= t < |s.clients| ==> ThreadInv(s.clients[t], s.lock.threads[t], s.instances)
  }

  // Answers of one epoch agree, and those of the current epoch agree with the map.
  ghost predicate AnswerInv(s: State) {
    && (forall a :: a in s.answers ==> a.epoch <= s.epoch)
    && (forall a :: a in s.answers && a.epoch == s.epoch ==> a.id in s.instances && s.instances[a.id] == a.group)
    && (forall a, b :: a in s.answers && b in s.answers && a.id == b.id && a.epoch == b.epoch ==> a.group == b.group)
  }

  // The instances a thread is responsible for.
  ghost function Owned(c: Client): set<Group> {
    match c
    case Made(_, tmp) => {tmp}
    case Upgrading(_, tmp) => {tmp}
    case Inserting(_, tmp) => {tmp}
    case Placed(_, tmp, result) => if result != tmp then {tmp} else {}
    case Losing(tmp) => {tmp}
    case Swapped(gone) => gone
    case Sweeping(gone) => gone
    case _ => {}
  }

  // Every instance ever made is in one place at most ...
  ghost predicate DisjointInv(s: State) {
    && (forall t, u :: 0 <= t < u < |s.clients| ==> Owned(s.clients[t]) !! Owned(s.clients[u]))
    && (forall t :: 0 <= t < |s.clients| ==>
          && Owned(s.clients[t]) !! s.instances.Values
          && Owned(s.clients[t]) !! s.stopped
          && (forall g :: g in Owned(s.clients[t]) ==> g < s.created))
    && s.instances.Values !! s.stopped
    && (forall g :: g in s.instances.Values ==> g < s.created)
    && (forall g :: g in s.stopped ==> g < s.created)
  }

  // ... and in one place at least: the map, a thread, or stopped.
  ghost predicate CoveredInv(s: State) {
    forall g: Group :: g < s.created ==> g in s.instances.Values || g in s.stopped || Held(s, g)
  }

  ghost predicate Held(s: State, g: Group) {
    exists t :: 0 <= t < |s.clients| && g in Owned(s.clients[t])
  }

  lemma LockStepInv(s: State, t: nat, e: Event)
    requires LockInv(s) && Possible(s, t, e)
    ensures LockInv(Next(s, t, e))
  {
    var s' := Next(s, t, e);
    match e {
      case CallGet(_) => Lock.StepInv(s.lock, t, Lock.LockShared);
      case CallStop => Lock.StepInv(s.lock, t, Lock.Lock);
      case LockStep(spurious) => Lock.StepInv(s.lock, t, Lock.Continue(spurious));
      case ReturnFound => Lock.StepInv(s.lock, t, Lock.UnlockShared);
      case Upgrade => Lock.StepInv(s.lock, t, Lock.UpgradeAndLock);
      case Release => Lock.StepInv(s.lock, t, Lock.Unlock);
      case ReleaseAfterSwap => Lock.StepInv(s.lock, t, Lock.Unlock);
      case _ =>
    }
    forall u | 0 <= u < |s.clients| ensures ThreadInv(s'.clients[u], s'.lock.threads[u], s'.instances) {
      assert ThreadInv(s.clients[u], s.lock.threads[u], s.instances);
      assert ThreadInv(s.clients[t], s.lock.threads[t], s.instances);
      if u != t && (e.Swap? || e.EmplaceInsert?) {
        Lock.Exclusion(s.lock, t, u);
      }
    }
  }

  lemma AnswerStepInv(s: State, t: nat, e: Event)
    requires LockInv(s) && AnswerInv(s) && Possible(s, t, e)
    ensures AnswerInv(Next(s, t, e))
  {
    assert ThreadInv(s.clients[t], s.lock.threads[t], s.instances);
  }

  // What one step does to the instances of its own thread, the map and the stopped ones.
  lemma OwnMove(s: State, t: nat, e: Event)
    requires LockInv(s) && DisjointInv(s) && Possible(s, t, e)
    ensures var s' := Next(s, t, e);
            && Owned(s'.clients[t]) !! s'.instances.Values
            && Owned(s'.clients[t]) !! s'.stopped
            && s'.instances.Values !! s'.stopped
            && Owned(s'.clients[t]) + s'.instances.Values + s'.stopped
               <= Owned(s.clients[t]) + s.instances.Values + s.stopped
                   + (if s'.created > s.created then {s.created} else {})
  {
    assert ThreadInv(s.clients[t], s.lock.threads[t], s.instances);
    assert Next(s, t, e).instances.Values <= s.instances.Values + Owned(s.clients[t]);
  }

  lemma DisjointStepInv(s: State, t: nat, e: Event)
    requires LockInv(s) && DisjointInv(s) && Possible(s, t, e)
    ensures DisjointInv(Next(s, t, e))
  {
    OwnMove(s, t, e);
    var s' := Next(s, t, e);
    assert forall u :: 0 <= u < |s.clients| && u != t ==> s'.clients[u] == s.clients[u];
    assert s.created <= s'.created;
  }

  lemma CoveredStepInv(s: State, t: nat, e: Event)
    requires LockInv(s) && CoveredInv(s) && Possible(s, t, e)
    ensures CoveredInv(Next(s, t, e))
  {
    var s' := Next(s, t, e);
    assert ThreadInv(s.clients[t], s.lock.threads[t], s.instances);
    forall g: Group | g < s'.created ensures g in s'.instances.Values || g in s'.stopped || Held(s', g) {
      if g == s.created {
        assert g in Owned(s'.clients[t]);
      } else if g in s.instances.Values {
        var k :| k in s.instances && s.instances[k] == g;
        assert k in s'.instances || g in Owned(s'.clients[t]);
      } else if g !in s.stopped {
        var u :| 0 <= u < |s.clients| && g in Owned(s.clients[u]);
        if u != t {
          assert s'.clients[u] == s.clients[u];
        } else if e.EmplaceInsert? {
          assert s'.instances[s.clients[t].id] == g;
        } else if !e.StopLoser? && !e.Sweep? {
          assert g in Owned(s'.clients[t]);
        }
      }
    }
  }

  ghost predicate Inv(s: State) {
    LockInv(s) && AnswerInv(s) && DisjointInv(s) && CoveredInv(s)
  }

  lemma {:induction false} RunInv(run: seq<State>, i: nat)
    requires IsRun(run) && i < |run|
    ensures Inv(run[i])
  {
    if i == 0 {
      Lock.NoneHolds(run[0].lock.threads);
    } else {
      RunInv(run, i - 1);
      assert Step(run[i - 1], run[i]);
      var t: nat, e :| Possible(run[i - 1], t, e) && run[i] == Next(run[i - 1], t, e);
      LockStepInv(run[i - 1], t, e);
      AnswerStepInv(run[i - 1], t, e);
      DisjointStepInv(run[i - 1], t, e);
      CoveredStepInv(run[i - 1], t, e);
    }
  }

  // ----- what it gives -----

  // Between two calls of `stop`, all calls with one identifier get the same group.
  lemma SameGroup(run: seq<State>, i: nat, a: Answer, b: Answer)
    requires IsRun(run) && i < |run|
    requires a in run[i].answers && b in run[i].answers && a.id == b.id && a.epoch == b.epoch
    ensures a.group == b.group
  {
    RunInv(run, i);
  }

  // A group handed out since the last `stop` has not been stopped, and is the one in the map.
  lemma AnsweredGroupIsLive(run: seq<State>, i: nat, a: Answer)
    requires IsRun(run) && i < |run| && a in run[i].answers && a.epoch == run[i].epoch
    ensures a.group !in run[i].stopped
    ensures a.id in run[i].instances && run[i].instances[a.id] == a.group
  {
    RunInv(run, i);
  }

  // When no call is under way, every instance ever made is either in the map or stopped.
  lemma LosersAreStopped(run: seq<State>, i: nat, g: Group)
    requires IsRun(run) && i < |run| && g < run[i].created
    requires forall t :: 0 <= t < |run[i].clients| ==> run[i].clients[t].Out?
    ensures g in run[i].instances.Values <==> g !in run[i].stopped
  {
    RunInv(run, i);
  }

  // While one thread inserts or swaps the map, no other thread reads or writes it.
  lemma MapIsNotShared(run: seq<State>, i: nat, t: nat, u: nat)
    requires IsRun(run) && i < |run| && t < |run[i].clients| && u < |run[i].clients| && t != u
    requires Possible(run[i], t, EmplaceLookup) || Possible(run[i], t, EmplaceInsert) || Possible(run[i], t, Swap)
    ensures forall e :: e == Find || e == EmplaceLookup || e == EmplaceInsert || e == Swap ==> !Possible(run[i], u, e)
  {
    RunInv(run, i);
    assert ThreadInv(run[i].clients[t], run[i].lock.threads[t], run[i].instances);
    assert ThreadInv(run[i].clients[u], run[i].lock.threads[u], run[i].instances);
    Lock.Exclusion(run[i].lock, t, u);
  }
}
