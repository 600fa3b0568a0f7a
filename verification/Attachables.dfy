/**
 Attachables of an actor: the list that attach and detach change under the actor's lock, and the
 cleanup that takes the list out of the lock and then fires its elements one by one.
 */
module Attachables {

  type ActorId = nat
  type Reason = nat

  const NOT_EXITED: Reason := 0

  datatype Kind = Monitor | Link

  datatype Attachable =
    | Functor(id: nat)
    | Subscription(group: nat)
    | Observer(observer: ActorId, kind: Kind)

  // A functor has no token that selects it.
  predicate Matches(a: Attachable, what: Attachable) {
    a == what && !what.Functor?
  }

  // ----- the list -----

  // The list after detach_impl, which stops at the first hit or goes on to the end.
  function Detached(list: seq<Attachable>, what: Attachable, stopOnHit: bool): seq<Attachable> {
    if list == [] then []
    else if !Matches(list[0], what) then [list[0]] + Detached(list[1..], what, stopOnHit)
    else if stopOnHit then list[1..]
    else Detached(list[1..], what, stopOnHit)
  }

  // How many elements a call counts: all hits, or the first one.
  function Hits(list: seq<Attachable>, what: Attachable, stopOnHit: bool): nat {
    if what.Functor? || what !in list then 0 else if stopOnHit then 1 else multiset(list)[what]
  }

  lemma HitsCons(list: seq<Attachable>, what: Attachable, stopOnHit: bool)
    requires list != []
    ensures Hits(list, what, stopOnHit) ==
            if !Matches(list[0], what) then Hits(list[1..], what, stopOnHit)
            else if stopOnHit then 1
            else 1 + Hits(list[1..], what, stopOnHit)
  {
    assert list == [list[0]] + list[1..];
    assert multiset(list) == multiset{list[0]} + multiset(list[1..]);
  }

  // What is gone is what was counted, and it matched.
  lemma {:induction false} DetachedCounts(list: seq<Attachable>, what: Attachable, stopOnHit: bool, a: Attachable)
    ensures multiset(list)[a] == multiset(Detached(list, what, stopOnHit))[a]
                                 + if a == what then Hits(list, what, stopOnHit) else 0
  {
    if list != [] {
      DetachedCounts(list[1..], what, stopOnHit, a);
      HitsCons(list, what, stopOnHit);
      assert multiset([list[0]] + list[1..]) == multiset{list[0]} + multiset(list[1..]);
      assert list == [list[0]] + list[1..];
    }
  }

  predicate FirstAt(list: seq<Attachable>, what: Attachable, i: int) {
    0 <= i < |list| && list[i] == what && what !in list[..i]
  }

  // With stop_on_hit the list loses its first match, and everything else stays in order.
  lemma {:induction false} DetachedFirst(list: seq<Attachable>, what: Attachable) returns (i: nat)
    requires !what.Functor? && what in list
    ensures FirstAt(list, what, i) && Detached(list, what, true) == list[..i] + list[i + 1..]
  {
    if list[0] == what {
      i := 0;
    } else {
      var k := DetachedFirst(list[1..], what);
      i := k + 1;
      assert list[..i] == [list[0]] + list[1..][..k] && list[i + 1..] == list[1..][k + 1..];
    }
  }

  // Without stop_on_hit no match remains, and as many elements are gone as were counted.
  lemma {:induction false} DetachedAll(list: seq<Attachable>, what: Attachable)
    ensures what.Functor? ==> Detached(list, what, false) == list
    ensures !what.Functor? ==> what !in Detached(list, what, false)
    ensures Hits(list, what, false) == |list| - |Detached(list, what, false)|
  {
    if list != [] {
      DetachedAll(list[1..], what);
      HitsCons(list, what, false);
      assert list == [list[0]] + list[1..];
    }
  }

  lemma Reassociate(s: seq<Attachable>, a: Attachable, t: seq<Attachable>)
    ensures s + [a] + t == s + ([a] + t)
  {
  }

  // ----- the actor -----

  class AbstractActor {
    const addr: ActorId
    var reason: Reason
    var attachables: seq<Attachable>
    var fired: seq<(Attachable, Reason)>  // calls of actor_exited, in order
    var refusals: seq<(ActorId, Reason)>  // exit messages to actors that asked for a link too late

    constructor (id: ActorId)
      ensures addr == id && reason == NOT_EXITED && attachables == [] && fired == [] && refusals == []
    {
      addr, reason, attachables, fired, refusals := id, NOT_EXITED, [], [], [];
    }

    method Attach(a: Attachable)
      modifies this`attachables, this`fired
      ensures reason == old(reason)
      ensures reason == NOT_EXITED ==> attachables == [a] + old(attachables) && fired == old(fired)
      ensures reason != NOT_EXITED ==> attachables == old(attachables) && fired == old(fired) + [(a, reason)]
    {
      if reason == NOT_EXITED {
        attachables := [a] + attachables;
        return;
      }
      fired := fired + [(a, reason)];
    }

    // `i` is the place in the list that the source's pointer reference denotes. The source does
    // not return from a hit when it shall neither stop nor remove.
    method DetachImpl(what: Attachable, i: nat, stopOnHit: bool, dryRun: bool) returns (n: nat)
      requires i <= |attachables| && (stopOnHit || !dryRun)
      modifies this`attachables
      ensures n == Hits(old(attachables)[i..], what, stopOnHit)
      ensures attachables == if dryRun then old(attachables)
                             else old(attachables)[..i] + Detached(old(attachables)[i..], what, stopOnHit)
      decreases |attachables| - i
    {
      if i == |attachables| {
        return 0;
      }
      ghost var before, tail := attachables[..i], attachables[i..];
      HitsCons(tail, what, stopOnHit);
      if Matches(attachables[i], what) {
        if !dryRun {
          attachables := attachables[..i] + attachables[i + 1..];
          assert attachables[..i] == before && attachables[i..] == tail[1..];
        }
        if stopOnHit {
          return 1;
        }
        n := DetachImpl(what, i, stopOnHit, dryRun);
        n := 1 + n;
      } else {
        assert attachables[..i + 1] == before + [tail[0]] && attachables[i + 1..] == tail[1..];
        Reassociate(before, tail[0], Detached(tail[1..], what, stopOnHit));
        n := DetachImpl(what, i + 1, stopOnHit, dryRun);
      }
    }

    method Detach(what: Attachable) returns (n: nat)
      modifies this`attachables
      ensures n == Hits(old(attachables), what, false)
      ensures attachables == Detached(old(attachables), what, false)
    {
      assert attachables[0..] == attachables;
      n := DetachImpl(what, 0, false, false);
    }

    // Only the first cleanup has an effect.
    method Cleanup(r: Reason)
      requires r != NOT_EXITED
      modifies this`reason, this`attachables, this`fired
      ensures old(reason) != NOT_EXITED ==>
                reason == old(reason) && attachables == old(attachables) && fired == old(fired)
      ensures old(reason) == NOT_EXITED ==>
                reason == r && attachables == [] && fired == old(fired) + All(old(attachables), r)
    {
      if reason != NOT_EXITED {
        return;
      }
      reason := r;
      var head := attachables;
      attachables := [];
      for i := 0 to |head|
        invariant reason == r && attachables == [] && fired == old(fired) + All(head[..i], r)
      {
        assert All(head[..i + 1], r) == All(head[..i], r) + [(head[i], r)];
        fired := fired + [(head[i], r)];
      }
      assert head[..|head|] == head;
    }

    // The other side of a link: accepted once, refused by an exited actor with a message.
    method EstablishBacklink(other: ActorId) returns (ok: bool)
      modifies this`attachables, this`refusals
      ensures ok <==> other != addr && reason == NOT_EXITED && Observer(other, Link) !in old(attachables)
      ensures attachables == if ok then [Observer(other, Link)] + old(attachables) else old(attachables)
      ensures refusals == if other != addr && reason != NOT_EXITED then old(refusals) + [(other, reason)]
                          else old(refusals)
    {
      var r := NOT_EXITED;
      if other != addr {
        r := reason;
        if r == NOT_EXITED {
          assert attachables[0..] == attachables;
          var n := DetachImpl(Observer(other, Link), 0, true, true);
          if n == 0 {
            attachables := [Observer(other, Link)] + attachables;
            return true;
          }
        }
      }
      if r != NOT_EXITED {
        refusals := refusals + [(other, r)];
      }
      return false;
    }

    // A link adds an attachable on both sides or on none.
    method EstablishLink(other: AbstractActor) returns (ok: bool)
      requires other.addr == addr <==> other == this
      modifies this`attachables, this`refusals, other`attachables, other`refusals
      ensures ok <==> other != this && reason == NOT_EXITED && other.reason == NOT_EXITED
                      && Observer(addr, Link) !in old(other.attachables)
      ensures attachables == if ok then [Observer(other.addr, Link)] + old(attachables) else old(attachables)
      ensures other != this ==>
                other.attachables == if ok then [Observer(addr, Link)] + old(other.attachables)
                                     else old(other.attachables)
      ensures refusals == if other != this && reason != NOT_EXITED then old(refusals) + [(other.addr, reason)]
                          else old(refusals)
      ensures other != this ==>
                other.refusals == if reason == NOT_EXITED && other.reason != NOT_EXITED then
                                    old(other.refusals) + [(addr, other.reason)]
                                  else old(other.refusals)
    {
      if other == this {
        return false;
      }
      if reason != NOT_EXITED {
        refusals := refusals + [(other.addr, reason)];
        return false;
      }
      ok := other.EstablishBacklink(addr);
      if ok {
        attachables := [Observer(other.addr, Link)] + attachables;
      }
    }

    method RemoveBacklink(other: ActorId) returns (ok: bool)
      modifies this`attachables
      ensures ok <==> other != addr && Observer(other, Link) in old(attachables)
      ensures attachables == if other != addr then Detached(old(attachables), Observer(other, Link), true)
                             else old(attachables)
    {
      if other == addr {
        return false;
      }
      assert attachables[0..] == attachables;
      var n := DetachImpl(Observer(other, Link), 0, true, false);
      return n > 0;
    }

    // The other side is told only when this side had the link.
    method RemoveLink(other: AbstractActor) returns (ok: bool)
      requires other.addr == addr <==> other == this
      modifies this`attachables, other`attachables
      ensures ok <==> other != this && Observer(other.addr, Link) in old(attachables)
      ensures other != this ==> attachables == Detached(old(attachables), Observer(other.addr, Link), true)
      ensures other != this ==>
                other.attachables == if ok then Detached(old(other.attachables), Observer(addr, Link), true)
                                     else old(other.attachables)
      ensures other == this ==> attachables == old(attachables)
    {
      if other == this {
        return false;
      }
      assert attachables[0..] == attachables;
      var n := DetachImpl(Observer(other.addr, Link), 0, true, false);
      if n > 0 {
        var _ := other.RemoveBacklink(addr);
      }
      return n > 0;
    }
  }

  // ----- the firing of a whole list -----

  function All(list: seq<Attachable>, r: Reason): seq<(Attachable, Reason)> {
    seq(|list|, i requires 0 <= i < |list| => (list[i], r))
  }

  // ----- threads -----

  // `pending` holds the calls of actor_exited that some thread, outside the lock, is about to
  // make. `attached` and `detached` only record what the calls got and gave back.
  datatype State = State(
    reason: Reason,
    list: seq<Attachable>,
    pending: multiset<(Attachable, Reason)>,
    fired: multiset<(Attachable, Reason)>,
    detached: multiset<Attachable>,
    attached: multiset<Attachable>)

  datatype Step =
    | Attach(a: Attachable)
    | Detach(what: Attachable, stopOnHit: bool)
    | Cleanup(r: Reason)
    | Fire(call: (Attachable, Reason))

  predicate Enabled(s: State, step: Step) {
    match step
    case Attach(_) => true
    case Detach(_, _) => true
    case Cleanup(r) => r != NOT_EXITED
    case Fire(call) => call in s.pending
  }

  // One locked section, or one call outside of the lock.
  function Next(s: State, step: Step): State
    requires Enabled(s, step)
  {
    match step
    case Attach(a) =>
      if s.reason == NOT_EXITED then s.(list := [a] + s.list, attached := s.attached + multiset{a})
      else s.(pending := s.pending + multiset{(a, s.reason)}, attached := s.attached + multiset{a})
    case Detach(what, stopOnHit) =>
      s.(list := Detached(s.list, what, stopOnHit),
         detached := s.detached[what := s.detached[what] + Hits(s.list, what, stopOnHit)])
    case Cleanup(r) =>
      if s.reason != NOT_EXITED then s
      else s.(reason := r, list := [], pending := s.pending + multiset(All(s.list, r)))
    case Fire(call) => s.(pending := s.pending - multiset{call}, fired := s.fired + multiset{call})
  }

  ghost predicate IsRun(run: seq<State>, steps: seq<Step>) {
    && |run| == |steps| + 1
    && run[0] == State(NOT_EXITED, [], multiset{}, multiset{}, multiset{}, multiset{})
    && forall i :: 0 <= i < |steps| ==> Enabled(run[i], steps[i]) && run[i + 1] == Next(run[i], steps[i])
  }

  // ----- every attachable is listed, detached, about to fire, or fired -----

  // Every attachment of `a` is in exactly one of four places.
  ghost predicate Accounted(s: State, a: Attachable) {
    s.attached[a] == multiset(s.list)[a] + s.detached[a] + s.pending[(a, s.reason)] + s.fired[(a, s.reason)]
  }

  // All calls carry the exit reason, there are none before the exit, and after it the list is empty.
  ghost predicate Calls(s: State) {
    && (forall c :: c in s.pending ==> c.1 == s.reason)
    && (forall c :: c in s.fired ==> c.1 == s.reason)
    && (s.reason == NOT_EXITED ==> s.pending == multiset{} && s.fired == multiset{})
    && (s.reason != NOT_EXITED ==> s.list == [])
  }

  ghost predicate Inv(s: State) {
    Calls(s) && forall a :: Accounted(s, a)
  }

  lemma {:induction false} AllCounts(list: seq<Attachable>, r: Reason, a: Attachable)
    ensures multiset(All(list, r))[(a, r)] == multiset(list)[a]
  {
    if list != [] {
      AllCounts(list[1..], r, a);
      assert list == [list[0]] + list[1..];
      assert All(list, r) == [(list[0], r)] + All(list[1..], r);
    }
  }

  lemma StepCalls(s: State, step: Step)
    requires Calls(s) && Enabled(s, step)
    ensures Calls(Next(s, step))
  {
    if step.Cleanup? {
      AllReasons(s.list, step.r);
    }
  }

  lemma AllReasons(list: seq<Attachable>, r: Reason)
    ensures forall c :: c in multiset(All(list, r)) ==> c.1 == r
  {
    forall c | c in multiset(All(list, r)) ensures c.1 == r {
      assert c in All(list, r);
    }
  }

  lemma StepAccounted(s: State, step: Step, a: Attachable)
    requires Calls(s) && Accounted(s, a) && Enabled(s, step)
    ensures Accounted(Next(s, step), a)
  {
    match step
    case Attach(b) =>
      assert multiset([b] + s.list) == multiset{b} + multiset(s.list);
    case Detach(what, stopOnHit) => DetachedCounts(s.list, what, stopOnHit, a);
    case Cleanup(r) => AllCounts(s.list, r, a);
    case Fire(call) =>
  }

  lemma {:induction false} RunInv(run: seq<State>, steps: seq<Step>, i: nat)
    requires IsRun(run, steps) && i < |run|
    ensures Inv(run[i])
  {
    if i > 0 {
      RunInv(run, steps, i - 1);
      StepCalls(run[i - 1], steps[i - 1]);
      forall a ensures Accounted(run[i], a) {
        StepAccounted(run[i - 1], steps[i - 1], a);
      }
    }
  }

  // In every interleaving the first exit reason stays, whatever cleanups follow.
  lemma {:induction false} FirstReasonStays(run: seq<State>, steps: seq<Step>, i: nat, j: nat)
    requires IsRun(run, steps) && i <= j < |run| && run[i].reason != NOT_EXITED
    ensures run[j].reason == run[i].reason
  {
    if i < j {
      FirstReasonStays(run, steps, i, j - 1);
    }
  }

  // An attachable that was attached once is at every moment in exactly one place, and a call it
  // gets carries the exit reason.
  lemma OneFate(run: seq<State>, steps: seq<Step>, i: nat, a: Attachable)
    requires IsRun(run, steps) && i < |run| && run[i].attached[a] == 1
    ensures var s := run[i];
            multiset(s.list)[a] + s.detached[a] + s.pending[(a, s.reason)] + s.fired[(a, s.reason)] == 1
    ensures forall r :: (a, r) in run[i].pending || (a, r) in run[i].fired ==> r == run[i].reason != NOT_EXITED
  {
    RunInv(run, steps, i);
    assert Accounted(run[i], a);
  }

  // Once an exited actor has made its calls, everything attached was detached before the exit
  // or fired as often as it was attached.
  lemma AllFired(run: seq<State>, steps: seq<Step>, i: nat, a: Attachable)
    requires IsRun(run, steps) && i < |run| && run[i].reason != NOT_EXITED && run[i].pending == multiset{}
    ensures run[i].attached[a] == run[i].detached[a] + run[i].fired[(a, run[i].reason)]
  {
    RunInv(run, steps, i);
    assert Accounted(run[i], a);
  }
}
