/**
 The reader/writer spinlock: any number of threads, interleaved at every atomic load,
 compare-and-swap, store and fetch_sub of `flag_`. A thread keeps a local copy `v` that may be
 stale, and a weak compare-and-swap may fail for no reason.
 */
module SharedSpinlock {

  const LONG_MIN: int := -0x8000_0000_0000_0000
  const LONG_MAX: int := 0x7fff_ffff_ffff_ffff

  // Addition on a 64-bit `long`.
  function Wrap(x: int): int {
    if x > LONG_MAX then x - 0x1_0000_0000_0000_0000
    else if x < LONG_MIN then x + 0x1_0000_0000_0000_0000
    else x
  }

  // Where a thread is. The `Loop` states carry the local variable `v`.
  datatype Pc =
    | Idle
    | LockLoad | LockLoop(v: int)
    | SharedLoad | SharedLoop(v: int)
    | TryLoad | TryCas(v: int)
    | TrySharedLoad | TrySharedCas(v: int)
    | Exclusive
    | Shared

  // What a thread does next: call an operation, or go on inside one.
  datatype Action =
    | Lock | LockShared | TryLock | TryLockShared
    | Unlock | UnlockShared
    | UpgradeAndLock       // unlock_upgrade_and_lock
    | UnlockAndLockUpgrade
    | Continue(spurious: bool)

  // Threads release only what they hold.
  predicate Allowed(pc: Pc, a: Action) {
    match a
    case Lock => pc.Idle?
    case LockShared => pc.Idle?
    case TryLock => pc.Idle?
    case TryLockShared => pc.Idle?
    case Unlock => pc.Exclusive?
    case UnlockAndLockUpgrade => pc.Exclusive?
    case UnlockShared => pc.Shared?
    case UpgradeAndLock => pc.Shared?
    case Continue(_) => !pc.Idle? && !pc.Exclusive? && !pc.Shared?
  }

  // One atomic step: the new flag and the thread's new place.
  function Advance(flag: int, pc: Pc, a: Action): (int, Pc)
    requires Allowed(pc, a)
  {
    match a
    case Lock => (flag, LockLoad)
    case LockShared => (flag, SharedLoad)
    case TryLock => (flag, TryLoad)
    case TryLockShared => (flag, TrySharedLoad)
    case Unlock => (0, Idle)
    case UnlockAndLockUpgrade => (0, SharedLoad)
    case UnlockShared => (Wrap(flag - 1), Idle)
    case UpgradeAndLock => (Wrap(flag - 1), LockLoad)
    case Continue(spurious) =>
      match pc {
        case LockLoad => (flag, LockLoop(flag))
        case LockLoop(v) =>
          if v != 0 then (flag, LockLoop(flag))
          else if flag == v && !spurious then (LONG_MIN, Exclusive)
          else (flag, LockLoop(flag))
        case SharedLoad => (flag, SharedLoop(flag))
        case SharedLoop(v) =>
          if v < 0 then (flag, SharedLoop(flag))
          else if flag == v && !spurious then (Wrap(v + 1), Shared)
          else (flag, SharedLoop(flag))
        case TryLoad => (flag, TryCas(flag))
        case TryCas(v) =>
          if v == 0 && flag == v && !spurious then (LONG_MIN, Exclusive) else (flag, Idle)
        case TrySharedLoad => (flag, TrySharedCas(flag))
        case TrySharedCas(v) =>
          if v >= 0 && flag == v && !spurious then (Wrap(v + 1), Shared) else (flag, Idle)
      }
  }

  datatype State = State(flag: int, threads: seq<Pc>)

  predicate Initial(s: State) {
    && s.flag == 0
    && |s.threads| <= LONG_MAX
    && forall t :: 0 <= t < |s.threads| ==> s.threads[t].Idle?
  }

  function Next(s: State, t: nat, a: Action): State
    requires t < |s.threads| && Allowed(s.threads[t], a)
  {
    var (flag, pc) := Advance(s.flag, s.threads[t], a);
    State(flag, s.threads[t := pc])
  }

  ghost predicate Step(s: State, s': State) {
    exists t: nat, a :: t < |s.threads| && Allowed(s.threads[t], a) && s' == Next(s, t, a)
  }

  ghost predicate Steps(run: seq<State>) {
    && |run| > 0
    && forall i :: 0 <= i < |run| - 1 ==> Step(run[i], run[i + 1])
  }

  ghost predicate IsRun(run: seq<State>) {
    Steps(run) && Initial(run[0])
  }

  // ----- the invariant -----

  ghost function One(b: bool): nat { if b then 1 else 0 }

  ghost function Readers(ts: seq<Pc>): nat {
    if ts == [] then 0 else One(ts[0].Shared?) + Readers(ts[1..])
  }

  ghost function Writers(ts: seq<Pc>): nat {
    if ts == [] then 0 else One(ts[0].Exclusive?) + Writers(ts[1..])
  }

  // The flag is the number of readers, or the mark of the single writer.
  ghost predicate Inv(s: State) {
    && |s.threads| <= LONG_MAX
    && (|| (Writers(s.threads) == 0 && s.flag == Readers(s.threads))
        || (Writers(s.threads) == 1 && Readers(s.threads) == 0 && s.flag == LONG_MIN))
  }

  lemma {:induction false} CountsAfterUpdate(ts: seq<Pc>, t: nat, pc: Pc)
    requires t < |ts|
    ensures Readers(ts[t := pc]) == Readers(ts) - One(ts[t].Shared?) + One(pc.Shared?)
    ensures Writers(ts[t := pc]) == Writers(ts) - One(ts[t].Exclusive?) + One(pc.Exclusive?)
  {
    if t > 0 {
      CountsAfterUpdate(ts[1..], t - 1, pc);
      assert ts[t := pc][1..] == ts[1..][t - 1 := pc];
    } else {
      assert ts[t := pc][1..] == ts[1..];
    }
  }

  lemma {:induction false} CountsOf(ts: seq<Pc>, t: nat)
    requires t < |ts|
    ensures One(ts[t].Shared?) <= Readers(ts)
    ensures One(ts[t].Exclusive?) <= Writers(ts)
    ensures Readers(ts) + One(!ts[t].Shared?) <= |ts|
  {
    CountsBounded(ts[1..]);
    if t > 0 {
      CountsOf(ts[1..], t - 1);
    }
  }

  lemma {:induction false} CountsBounded(ts: seq<Pc>)
    ensures Readers(ts) <= |ts|
  {
    if ts != [] {
      CountsBounded(ts[1..]);
    }
  }

  lemma {:induction false} NoneHolds(ts: seq<Pc>)
    requires forall t :: 0 <= t < |ts| ==> ts[t].Idle?
    ensures Readers(ts) == 0 && Writers(ts) == 0
  {
    if ts != [] {
      NoneHolds(ts[1..]);
    }
  }

  lemma StepInv(s: State, t: nat, a: Action)
    requires Inv(s) && t < |s.threads| && Allowed(s.threads[t], a)
    ensures Inv(Next(s, t, a))
  {
    CountsOf(s.threads, t);
    CountsAfterUpdate(s.threads, t, Advance(s.flag, s.threads[t], a).1);
  }

  lemma {:induction false} RunInv(run: seq<State>, i: nat)
    requires Steps(run) && Inv(run[0]) && i < |run|
    ensures Inv(run[i])
  {
    if i > 0 {
      RunInv(run, i - 1);
      assert Step(run[i - 1], run[i]);
      var t: nat, a :| t < |run[i - 1].threads| && Allowed(run[i - 1].threads[t], a)
          && run[i] == Next(run[i - 1], t, a);
      StepInv(run[i - 1], t, a);
    }
  }

  // ----- what it gives -----

  lemma {:induction false} TwoHolders(ts: seq<Pc>, a: nat, b: nat)
    requires a < |ts| && b < |ts| && a != b
    ensures One(ts[a].Exclusive?) + One(ts[b].Exclusive?) <= Writers(ts)
    ensures One(ts[a].Shared?) + One(ts[b].Shared?) <= Readers(ts)
  {
    if a == 0 {
      CountsOf(ts[1..], b - 1);
    } else if b == 0 {
      CountsOf(ts[1..], a - 1);
    } else {
      TwoHolders(ts[1..], a - 1, b - 1);
    }
  }

  // A writer excludes every reader and every other writer.
  lemma Exclusion(s: State, a: nat, b: nat)
    requires Inv(s) && a < |s.threads| && b < |s.threads| && a != b && s.threads[a].Exclusive?
    ensures !s.threads[b].Exclusive? && !s.threads[b].Shared?
  {
    TwoHolders(s.threads, a, b);
    CountsOf(s.threads, a);
    CountsOf(s.threads, b);
  }

  lemma WriterExcludesAll(run: seq<State>, i: nat, a: nat, b: nat)
    requires IsRun(run) && i < |run|
    requires a < |run[i].threads| && b < |run[i].threads| && a != b && run[i].threads[a].Exclusive?
    ensures !run[i].threads[b].Exclusive? && !run[i].threads[b].Shared?
  {
    NoneHolds(run[0].threads);
    RunInv(run, i);
    Exclusion(run[i], a, b);
  }

  lemma FlagCountsHolders(run: seq<State>, i: nat)
    requires IsRun(run) && i < |run|
    ensures run[i].flag == if Writers(run[i].threads) == 0 then Readers(run[i].threads) else LONG_MIN
    ensures Writers(run[i].threads) <= 1 && (Writers(run[i].threads) == 1 ==> Readers(run[i].threads) == 0)
    ensures LONG_MIN <= run[i].flag <= LONG_MAX
  {
    NoneHolds(run[0].threads);
    RunInv(run, i);
    CountsBounded(run[i].threads);
  }

  // ----- no state is stuck: a thread in lock() can still get the lock once the holders leave -----

  lemma {:induction false} SomeHolder(ts: seq<Pc>) returns (t: nat)
    requires Readers(ts) + Writers(ts) > 0
    ensures t < |ts| && (ts[t].Shared? || ts[t].Exclusive?)
  {
    if ts[0].Shared? || ts[0].Exclusive? {
      return 0;
    }
    t := SomeHolder(ts[1..]);
    t := t + 1;
  }

  lemma Extend(run: seq<State>, t: nat, a: Action) returns (more: seq<State>)
    requires Steps(run) && Inv(run[|run| - 1])
    requires t < |run[|run| - 1].threads| && Allowed(run[|run| - 1].threads[t], a)
    ensures more == run + [Next(run[|run| - 1], t, a)] && Steps(more) && Inv(more[|more| - 1])
  {
    var s := run[|run| - 1];
    StepInv(s, t, a);
    more := run + [Next(s, t, a)];
    forall i | 0 <= i < |more| - 1 ensures Step(more[i], more[i + 1]) {
      if i < |run| - 1 {
        assert Step(run[i], run[i + 1]);
      }
    }
  }

  lemma {:induction false} HoldersLeave(run: seq<State>, w: nat) returns (more: seq<State>)
    requires Steps(run) && Inv(run[|run| - 1])
    requires w < |run[|run| - 1].threads| && !run[|run| - 1].threads[w].Shared? && !run[|run| - 1].threads[w].Exclusive?
    ensures Steps(more) && more[0] == run[0] && Inv(more[|more| - 1]) && more[|more| - 1].flag == 0
    ensures |more[|more| - 1].threads| == |run[|run| - 1].threads|
        && more[|more| - 1].threads[w] == run[|run| - 1].threads[w]
    decreases Readers(run[|run| - 1].threads) + Writers(run[|run| - 1].threads)
  {
    var s := run[|run| - 1];
    if Readers(s.threads) + Writers(s.threads) == 0 {
      return run;
    }
    var t := SomeHolder(s.threads);
    var a := if s.threads[t].Shared? then UnlockShared else Unlock;
    CountsAfterUpdate(s.threads, t, Idle);
    more := Extend(run, t, a);
    more := HoldersLeave(more, w);
  }

  lemma CanAlwaysLock(run: seq<State>, i: nat, w: nat) returns (more: seq<State>)
    requires IsRun(run) && i < |run| && w < |run[i].threads|
    requires run[i].threads[w].LockLoad? || run[i].threads[w].LockLoop?
    ensures Steps(more) && more[0] == run[i]
    ensures w < |more[|more| - 1].threads| && more[|more| - 1].threads[w].Exclusive?
  {
    NoneHolds(run[0].threads);
    RunInv(run, i);
    more := HoldersLeave([run[i]], w);
    if !(more[|more| - 1].threads[w].LockLoop? && more[|more| - 1].threads[w].v == 0) {
      more := Extend(more, w, Continue(false));
    }
    more := Extend(more, w, Continue(false));
  }

  lemma CanAlwaysLockShared(run: seq<State>, i: nat, w: nat) returns (more: seq<State>)
    requires IsRun(run) && i < |run| && w < |run[i].threads|
    requires run[i].threads[w].SharedLoad? || run[i].threads[w].SharedLoop?
    ensures Steps(more) && more[0] == run[i]
    ensures w < |more[|more| - 1].threads| && more[|more| - 1].threads[w].Shared?
  {
    NoneHolds(run[0].threads);
    RunInv(run, i);
    more := HoldersLeave([run[i]], w);
    if !(more[|more| - 1].threads[w].SharedLoop? && more[|more| - 1].threads[w].v == 0) {
      more := Extend(more, w, Continue(false));
    }
    more := Extend(more, w, Continue(false));
  }
}
