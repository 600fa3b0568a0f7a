/**
 The mailbox of a priority-aware actor: an inbound queue, a first cache segment of messages that
 were read but not yet offered to the actor, and a second segment of messages the actor skipped.
 */
module PriorityMailbox {
  import opened MailboxElements

  datatype Option<T> = None | Some(value: T)

  // ----- classes of priority -----

  function One(m: Msg, high: bool): seq<Msg> {
    if m.mid.high == high then [m] else []
  }

  // The messages of one class, in order.
  function Of(s: seq<Msg>, high: bool): seq<Msg> {
    if s == [] then [] else One(s[0], high) + Of(s[1..], high)
  }

  lemma Assoc(a: seq<Msg>, b: seq<Msg>, c: seq<Msg>)
    ensures (a + b) + c == a + (b + c)
  {
  }

  lemma OfOne(m: Msg, high: bool)
    ensures Of([m], high) == One(m, high)
  {
    assert [m][1..] == [];
  }

  predicate Partitioned(s: seq<Msg>) {
    forall i, j :: 0 <= i < j < |s| && s[j].mid.high ==> s[i].mid.high
  }

  lemma {:induction false} OfConcat(a: seq<Msg>, b: seq<Msg>, high: bool)
    ensures Of(a + b, high) == Of(a, high) + Of(b, high)
  {
    if a == [] {
      assert a + b == b;
    } else {
      OfConcat(a[1..], b, high);
      assert (a + b)[0] == a[0] && (a + b)[1..] == a[1..] + b;
      Assoc(One(a[0], high), Of(a[1..], high), Of(b, high));
    }
  }

  lemma {:induction false} OfUniform(s: seq<Msg>, high: bool)
    requires forall m :: m in s ==> m.mid.high == high
    ensures Of(s, high) == s && Of(s, !high) == []
  {
    if s != [] {
      OfUniform(s[1..], high);
    }
  }

  lemma {:induction false} OfIsUniform(s: seq<Msg>, high: bool)
    ensures forall m :: m in Of(s, high) ==> m.mid.high == high && m in s
    ensures multiset(s) == multiset(Of(s, true)) + multiset(Of(s, false))
  {
    if s != [] {
      OfIsUniform(s[1..], high);
      assert s == [s[0]] + s[1..];
    }
  }

  // ----- next_message and push_to_cache on values -----

  // The first segment after the whole queue was read into it.
  function Drained(queue: seq<Msg>, first: seq<Msg>): seq<Msg> {
    Of(queue, true) + first + Of(queue, false)
  }

  predicate Reads(first: seq<Msg>) {
    first == [] || !first[0].mid.high
  }

  // A skipped message: after the other high ones, or at the end.
  function Pushed(second: seq<Msg>, m: Msg): seq<Msg> {
    if m.mid.high then Of(second, true) + [m] + Of(second, false) else second + [m]
  }

  predicate ThreeClasses(h: seq<Msg>, mid: seq<Msg>, l: seq<Msg>, midHigh: bool) {
    && (forall m :: m in h ==> m.mid.high)
    && (forall m :: m in mid ==> m.mid.high == midHigh)
    && (forall m :: m in l ==> !m.mid.high)
  }

  // The messages of both classes, around a middle that is of one class.
  lemma HighOfThree(h: seq<Msg>, mid: seq<Msg>, l: seq<Msg>, midHigh: bool)
    requires ThreeClasses(h, mid, l, midHigh)
    ensures Of(h + mid + l, true) == if midHigh then h + mid else h
  {
    OfConcat(h + mid, l, true);
    OfConcat(h, mid, true);
    OfUniform(h, true);
    OfUniform(mid, midHigh);
    OfUniform(l, false);
    assert h + mid + [] == h + mid && h + [] == h;
  }

  lemma LowOfThree(h: seq<Msg>, mid: seq<Msg>, l: seq<Msg>, midHigh: bool)
    requires ThreeClasses(h, mid, l, midHigh)
    ensures Of(h + mid + l, false) == if midHigh then l else mid + l
  {
    OfConcat(h + mid, l, false);
    OfConcat(h, mid, false);
    OfUniform(h, true);
    OfUniform(mid, midHigh);
    OfUniform(l, false);
    assert [] + mid == mid && [] + l == l;
  }

  lemma ThreePartitioned(h: seq<Msg>, mid: seq<Msg>, l: seq<Msg>, midHigh: bool)
    requires ThreeClasses(h, mid, l, midHigh)
    ensures Partitioned(h + mid + l)
  {
    var s := h + mid + l;
    assert forall k :: 0 <= k < |h| ==> s[k] in h;
    assert forall k :: |h| <= k < |h| + |mid| ==> s[k] in mid;
    assert forall k :: |h| + |mid| <= k < |s| ==> s[k] in l;
  }

  lemma LowOnly(first: seq<Msg>)
    requires Partitioned(first) && Reads(first)
    ensures forall m :: m in first ==> !m.mid.high
  {
  }

  // Reading the queue keeps the order within both classes,
  lemma DrainedInOrder(queue: seq<Msg>, first: seq<Msg>, high: bool)
    requires Partitioned(first) && Reads(first)
    ensures Of(Drained(queue, first), high) == Of(first, high) + Of(queue, high)
  {
    OfIsUniform(queue, true);
    OfIsUniform(queue, false);
    LowOnly(first);
    OfUniform(first, false);
    if high {
      HighOfThree(Of(queue, true), first, Of(queue, false), false);
      assert [] + Of(queue, true) == Of(queue, true);
    } else {
      LowOfThree(Of(queue, true), first, Of(queue, false), false);
    }
  }

  // and it keeps the segment partitioned.
  lemma DrainedKeeps(queue: seq<Msg>, first: seq<Msg>)
    requires Partitioned(first) && Reads(first)
    ensures Partitioned(Drained(queue, first))
    ensures multiset(Drained(queue, first)) == multiset(first) + multiset(queue)
  {
    OfIsUniform(queue, true);
    OfIsUniform(queue, false);
    LowOnly(first);
    ThreePartitioned(Of(queue, true), first, Of(queue, false), false);
  }

  lemma PushedInOrder(second: seq<Msg>, m: Msg, high: bool)
    requires Partitioned(second)
    ensures Of(Pushed(second, m), high) == Of(second, high) + One(m, high)
  {
    var (h, l) := (Of(second, true), Of(second, false));
    OfIsUniform(second, true);
    OfIsUniform(second, false);
    if m.mid.high {
      HighOfThree(h, [m], l, true);
      LowOfThree(h, [m], l, true);
      assert l + [] == l;
    } else {
      OfConcat(second, [m], high);
      OfOne(m, high);
    }
  }

  lemma PushedKeeps(second: seq<Msg>, m: Msg)
    requires Partitioned(second)
    ensures Partitioned(Pushed(second, m))
    ensures multiset(Pushed(second, m)) == multiset(second) + multiset{m}
  {
    OfIsUniform(second, true);
    OfIsUniform(second, false);
    if m.mid.high {
      ThreePartitioned(Of(second, true), [m], Of(second, false), true);
    }
  }

  // ----- the mailbox in place -----

  class Mailbox {
    const aware: bool
    var queue: seq<Msg>
    var first: seq<Msg>
    var second: seq<Msg>

    constructor (priorityAware: bool)
      ensures aware == priorityAware && queue == [] && first == [] && second == []
    {
      aware, queue, first, second := priorityAware, [], [], [];
    }

    method TryPop() returns (m: Option<Msg>)
      modifies this`queue
      ensures old(queue) == [] ==> m == None && queue == []
      ensures old(queue) != [] ==> m == Some(old(queue)[0]) && queue == old(queue)[1..]
    {
      if queue == [] {
        return None;
      }
      m := Some(queue[0]);
      queue := queue[1..];
    }

    // `hp` is the index of the element before which the next high message goes; inserting before
    // an element moves that element, and inserting at the end moves the end.
    method Insert(m: Msg, hp: nat) returns (hp': nat)
      requires hp <= |first|
      modifies this`first
      ensures hp' == if m.mid.high then hp + 1 else hp
      ensures first == if m.mid.high then old(first)[..hp] + [m] + old(first)[hp..] else old(first) + [m]
    {
      var atEnd := hp == |first|;
      if m.mid.high {
        first := first[..hp] + [m] + first[hp..];
        hp' := hp + 1;
      } else {
        first := first + [m];
        hp' := if atEnd then |first| else hp;
      }
      if hp' == |first| && !m.mid.high {
        hp' := hp' - 1;
      }
    }

    // Read the whole queue at once.
    method ReadQueue()
      modifies this`queue, this`first
      ensures queue == [] && first == Drained(old(queue), old(first))
    {
      ghost var q, start, n := queue, first, 0;
      NothingRead(q, start);
      var hp := 0;
      var tmp := TryPop();
      while tmp.Some?
        invariant n <= |q| && queue == q[if n < |q| then n + 1 else n..]
        invariant tmp == if n < |q| then Some(q[n]) else None
        invariant hp == |Of(q[..n], true)| && first == Drained(q[..n], start)
        decreases |q| - n
      {
        DrainedOneMore(q, n, start);
        hp := Insert(tmp.value, hp);
        n := n + 1;
        tmp := TryPop();
      }
      assert q[..n] == q;
    }

    method NextMessage() returns (result: Option<Msg>)
      modifies this`queue, this`first
      ensures (result, queue, first) == Taken(aware, old(queue), old(first))
    {
      if !aware {
        result := TryPop();
        return;
      }
      if Reads(first) {
        ReadQueue();
      }
      if first == [] {
        return None;
      }
      result := Some(first[0]);
      first := first[1..];
    }

    method PushToCache(m: Msg)
      requires aware ==> Partitioned(second)
      modifies this`second
      ensures second == if aware then Pushed(old(second), m) else old(second) + [m]
    {
      if !aware {
        second := second + [m];
        return;
      }
      var i := |second|;
      if m.mid.high {
        i := 0;
        while i < |second| && second[i].mid.high
          invariant 0 <= i <= |second| && forall k :: 0 <= k < i ==> second[k].mid.high
        {
          i := i + 1;
        }
        PartitionPoint(second, i);
      }
      second := second[..i] + [m] + second[i..];
    }
  }

  // What next_message returns and leaves behind.
  function Taken(aware: bool, queue: seq<Msg>, first: seq<Msg>): (Option<Msg>, seq<Msg>, seq<Msg>) {
    if !aware then (if queue == [] then (None, [], first) else (Some(queue[0]), queue[1..], first))
    else if Reads(first) then
      if Drained(queue, first) == [] then (None, [], [])
      else (Some(Drained(queue, first)[0]), [], Drained(queue, first)[1..])
    else (Some(first[0]), queue, first[1..])
  }

  lemma OfOneMore(read: seq<Msg>, m: Msg, high: bool)
    ensures Of(read + [m], high) == Of(read, high) + One(m, high)
  {
    OfConcat(read, [m], high);
    OfOne(m, high);
  }

  lemma NothingRead(q: seq<Msg>, first: seq<Msg>)
    ensures |Of(q[..0], true)| == 0 && Drained(q[..0], first) == first
  {
  }

  lemma DrainedOneMore(q: seq<Msg>, n: nat, first: seq<Msg>)
    requires n < |q|
    ensures var (m, h) := (q[n], |Of(q[..n], true)|);
            && |Of(q[..n + 1], true)| == (if m.mid.high then h + 1 else h)
            && Drained(q[..n + 1], first) ==
               if m.mid.high then Drained(q[..n], first)[..h] + [m] + Drained(q[..n], first)[h..]
               else Drained(q[..n], first) + [m]
  {
    var (read, m) := (q[..n], q[n]);
    assert q[..n + 1] == read + [m];
    OfOneMore(read, m, true);
    OfOneMore(read, m, false);
    assert Of(read, true) + [] == Of(read, true) && Of(read, false) + [] == Of(read, false);
    InsertBetween(Of(read, true), first, Of(read, false), m);
  }

  lemma InsertBetween(h: seq<Msg>, first: seq<Msg>, l: seq<Msg>, m: Msg)
    ensures (h + first + l)[..|h|] + [m] + (h + first + l)[|h|..] == h + [m] + first + l
    ensures h + first + l + [m] == h + first + (l + [m])
  {
  }

  lemma PartitionPoint(s: seq<Msg>, i: nat)
    requires Partitioned(s) && i <= |s| && (forall k :: 0 <= k < i ==> s[k].mid.high) && (i < |s| ==> !s[i].mid.high)
    ensures s[..i] == Of(s, true) && s[i..] == Of(s, false)
  {
    assert s == s[..i] + s[i..];
    OfConcat(s[..i], s[i..], true);
    OfConcat(s[..i], s[i..], false);
    OfUniform(s[..i], true);
    OfUniform(s[i..], false);
  }

  // ----- runs -----

  // `current` is the message the actor works on; the histories only record.
  datatype State = State(
    queue: seq<Msg>,
    first: seq<Msg>,
    second: seq<Msg>,
    current: Option<Msg>,
    enqueued: seq<Msg>,
    returned: seq<Msg>,
    consumed: multiset<Msg>)

  datatype Step =
    | Enqueue(m: Msg)
    | NextMessage
    | Consume           // the message is handled or dropped
    | Skip              // the message is pushed to the cache
    | FromCache(k: nat) // a skipped message is handled or dropped

  predicate Enabled(s: State, step: Step) {
    match step
    case Enqueue(_) => true
    case NextMessage => s.current.None?
    case Consume => s.current.Some?
    case Skip => s.current.Some?
    case FromCache(k) => k < |s.second|
  }

  function Read(s: State, taken: (Option<Msg>, seq<Msg>, seq<Msg>)): State {
    s.(current := taken.0, queue := taken.1, first := taken.2,
       returned := s.returned + if taken.0.Some? then [taken.0.value] else [])
  }

  function Next(aware: bool, s: State, step: Step): State
    requires Enabled(s, step)
  {
    match step
    case Enqueue(m) => s.(queue := s.queue + [m], enqueued := s.enqueued + [m])
    case NextMessage => Read(s, Taken(aware, s.queue, s.first))
    case Consume => s.(current := None, consumed := s.consumed + multiset{s.current.value})
    case Skip =>
      s.(current := None, second := if aware then Pushed(s.second, s.current.value) else s.second + [s.current.value])
    case FromCache(k) =>
      s.(second := s.second[..k] + s.second[k + 1..], consumed := s.consumed + multiset{s.second[k]})
  }

  ghost predicate IsRun(aware: bool, run: seq<State>, steps: seq<Step>) {
    && |run| == |steps| + 1
    && run[0] == State([], [], [], None, [], [], multiset{})
    && forall i :: 0 <= i < |steps| ==> Enabled(run[i], steps[i]) && run[i + 1] == Next(aware, run[i], steps[i])
  }

  ghost predicate Segments(aware: bool, s: State) {
    Partitioned(s.first) && (aware ==> Partitioned(s.second)) && (!aware ==> s.first == [])
  }

  // Messages of one class leave next_message in the order in which they came in.
  ghost predicate Fifo(s: State, high: bool) {
    Of(s.returned, high) + Of(s.first, high) + Of(s.queue, high) == Of(s.enqueued, high)
  }

  function Current(s: State): multiset<Msg> {
    if s.current.Some? then multiset{s.current.value} else multiset{}
  }

  // No message is lost or doubled.
  ghost predicate Conserved(s: State) {
    multiset(s.enqueued) == multiset(s.queue) + multiset(s.first) + multiset(s.second) + Current(s) + s.consumed
  }

  ghost predicate Inv(aware: bool, s: State) {
    Segments(aware, s) && Fifo(s, true) && Fifo(s, false) && Conserved(s)
  }

  // One message and what stays, against what was there.
  lemma TakenKeeps(aware: bool, queue: seq<Msg>, first: seq<Msg>)
    requires Partitioned(first) && (!aware ==> first == [])
    ensures Partitioned(Taken(aware, queue, first).2) && (!aware ==> Taken(aware, queue, first).2 == [])
  {
    if aware && Reads(first) {
      DrainedKeeps(queue, first);
    }
  }

  lemma TakenCounts(aware: bool, queue: seq<Msg>, first: seq<Msg>)
    requires Partitioned(first) && (!aware ==> first == [])
    ensures Taken(aware, queue, first).0.Some? ==>
              multiset{Taken(aware, queue, first).0.value} + multiset(Taken(aware, queue, first).2)
                + multiset(Taken(aware, queue, first).1) == multiset(first) + multiset(queue)
    ensures Taken(aware, queue, first).0.None? ==> first == [] && queue == []
    ensures Taken(aware, queue, first).0.None? ==>
              Taken(aware, queue, first).2 == [] && Taken(aware, queue, first).1 == []
  {
    if !aware {
      if queue != [] {
        HeadAndTail(queue, true);
      }
    } else if Reads(first) {
      DrainedKeeps(queue, first);
      if Drained(queue, first) != [] {
        HeadAndTail(Drained(queue, first), true);
      } else {
        assert |multiset(first) + multiset(queue)| == 0;
      }
    } else {
      HeadAndTail(first, true);
    }
  }

  lemma TakenInOrder(aware: bool, queue: seq<Msg>, first: seq<Msg>, high: bool)
    requires Partitioned(first) && (!aware ==> first == []) && Taken(aware, queue, first).0.Some?
    ensures One(Taken(aware, queue, first).0.value, high)
              + (Of(Taken(aware, queue, first).2, high) + Of(Taken(aware, queue, first).1, high))
            == Of(first, high) + Of(queue, high)
  {
    if !aware {
      HeadAndTail(queue, high);
      assert [] + Of(queue[1..], high) == Of(queue[1..], high) && [] + Of(queue, high) == Of(queue, high);
    } else if Reads(first) {
      var d := Drained(queue, first);
      DrainedInOrder(queue, first, high);
      HeadAndTail(d, high);
      assert Of(d[1..], high) + [] == Of(d[1..], high);
    } else {
      HeadAndTail(first, high);
      Assoc(One(first[0], high), Of(first[1..], high), Of(queue, high));
    }
  }

  lemma HeadAndTail(s: seq<Msg>, high: bool)
    requires s != []
    ensures Of(s, high) == One(s[0], high) + Of(s[1..], high)
    ensures multiset(s) == multiset{s[0]} + multiset(s[1..])
    ensures Partitioned(s) ==> Partitioned(s[1..])
  {
    assert s == [s[0]] + s[1..];
  }

  lemma StepSegments(aware: bool, s: State, step: Step)
    requires Segments(aware, s) && Enabled(s, step)
    ensures Segments(aware, Next(aware, s, step))
  {
    match step
    case NextMessage => TakenKeeps(aware, s.queue, s.first);
    case Skip =>
      if aware {
        PushedKeeps(s.second, s.current.value);
      }
    case _ =>
  }

  lemma StepFifo(aware: bool, s: State, step: Step, high: bool)
    requires Segments(aware, s) && Fifo(s, high) && Enabled(s, step)
    ensures Fifo(Next(aware, s, step), high)
  {
    match step
    case Enqueue(m) =>
      OfConcat(s.queue, [m], high);
      OfConcat(s.enqueued, [m], high);
      Assoc(Of(s.returned, high) + Of(s.first, high), Of(s.queue, high), Of([m], high));
    case NextMessage =>
      var taken := Taken(aware, s.queue, s.first);
      if taken.0.Some? {
        var m := taken.0.value;
        TakenInOrder(aware, s.queue, s.first, high);
        OfConcat(s.returned, [m], high);
        OfOne(m, high);
        Assoc(Of(s.returned, high), One(m, high), Of(taken.2, high));
        Assoc(Of(s.returned, high), One(m, high) + Of(taken.2, high), Of(taken.1, high));
        Assoc(One(m, high), Of(taken.2, high), Of(taken.1, high));
        Assoc(Of(s.returned, high), Of(s.first, high), Of(s.queue, high));
      } else {
        TakenCounts(aware, s.queue, s.first);
        assert s.returned + [] == s.returned;
      }
    case _ =>
  }

  lemma Regroup(q: multiset<Msg>, f: multiset<Msg>, q': multiset<Msg>, f': multiset<Msg>,
                second: multiset<Msg>, c: multiset<Msg>, m: Msg)
    requires multiset{m} + f' + q' == f + q
    ensures q' + f' + second + multiset{m} + c == q + f + second + multiset{} + c
  {
    forall x: Msg ensures (q' + f' + second + multiset{m} + c)[x] == (q + f + second + multiset{} + c)[x] {
      assert (multiset{m} + f' + q')[x] == (f + q)[x];
    }
  }

  lemma NextConserved(aware: bool, s: State)
    requires Segments(aware, s) && Conserved(s) && s.current.None?
    ensures Conserved(Next(aware, s, NextMessage))
  {
    var taken := Taken(aware, s.queue, s.first);
    TakenCounts(aware, s.queue, s.first);
    if taken.0.Some? {
      Regroup(multiset(s.queue), multiset(s.first), multiset(taken.1), multiset(taken.2),
              multiset(s.second), s.consumed, taken.0.value);
    }
  }

  lemma SkipConserved(aware: bool, s: State)
    requires Segments(aware, s) && Conserved(s) && s.current.Some?
    ensures Conserved(Next(aware, s, Skip))
  {
    if aware {
      PushedKeeps(s.second, s.current.value);
    }
  }

  lemma FromCacheConserved(aware: bool, s: State, k: nat)
    requires Conserved(s) && k < |s.second|
    ensures Conserved(Next(aware, s, FromCache(k)))
  {
    assert s.second == s.second[..k] + [s.second[k]] + s.second[k + 1..];
  }

  lemma StepConserved(aware: bool, s: State, step: Step)
    requires Segments(aware, s) && Conserved(s) && Enabled(s, step)
    ensures Conserved(Next(aware, s, step))
  {
    match step
    case NextMessage => NextConserved(aware, s);
    case Skip => SkipConserved(aware, s);
    case FromCache(k) => FromCacheConserved(aware, s, k);
    case _ =>
  }

  // In every run: both cache segments stay partitioned, each class is FIFO, nothing is lost.
  lemma {:induction false} RunInv(aware: bool, run: seq<State>, steps: seq<Step>, i: nat)
    requires IsRun(aware, run, steps) && i < |run|
    ensures Inv(aware, run[i])
  {
    if i > 0 {
      RunInv(aware, run, steps, i - 1);
      var (s, step) := (run[i - 1], steps[i - 1]);
      StepSegments(aware, s, step);
      StepFifo(aware, s, step, true);
      StepFifo(aware, s, step, false);
      StepConserved(aware, s, step);
    }
  }

  lemma AllIn(s: seq<Msg>)
    ensures forall k :: 0 <= k < |s| ==> s[k] in s
  {
  }

  // In every run of a priority-aware actor, next_message returns a normal message only when no
  // high-priority message waits in the queue or in the first segment.
  lemma HighFirst(run: seq<State>, steps: seq<Step>, i: nat)
    requires IsRun(true, run, steps) && i < |steps| && steps[i].NextMessage?
    requires run[i + 1].current.Some? && !run[i + 1].current.value.mid.high
    ensures forall m :: m in run[i].queue || m in run[i].first ==> !m.mid.high
  {
    RunInv(true, run, steps, i);
    var (queue, first) := (run[i].queue, run[i].first);
    OfIsUniform(queue, true);
    OfIsUniform(queue, false);
    AllIn(Of(queue, true));
    forall m | m in queue ensures !m.mid.high {
      assert m in multiset(queue);
    }
  }
}
