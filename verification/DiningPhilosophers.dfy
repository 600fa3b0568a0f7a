/**
 The dining philosophers protocol: chopstick actors, philosopher actors and the messages in
 flight between them, on a ring of any size. A message in flight may be delivered at any time
 and in any order; a message that the receiver's current behavior does not handle stays in its
 mailbox.
 */
module DiningPhilosophers {

  datatype Chopstick = Available | TakenBy(user: nat)

  datatype Behavior = Starting | Thinking | Hungry | Granted | Denied | Eating

  // `Take` and `Put` travel from a philosopher to a chopstick, `Taken` and `Busy` are the
  // chopstick's replies, `Eat` and `Think` are sent by a philosopher to itself.
  datatype Message =
    | Take(phil: nat, stick: nat)
    | Put(phil: nat, stick: nat)
    | Taken(phil: nat, stick: nat)
    | Busy(phil: nat, stick: nat)
    | Eat(phil: nat)
    | Think(phil: nat)

  datatype State = State(sticks: seq<Chopstick>, phils: seq<Behavior>, inFlight: multiset<Message>)

  // Philosopher p of n gets the chopsticks p and (p + 1) % n.
  function Left(p: nat): nat { p }

  function Right(n: nat, p: nat): nat { if p + 1 == n then 0 else p + 1 }

  function Other(n: nat, p: nat, c: nat): nat { if c == Left(p) then Right(n, p) else Left(p) }

  predicate Adjacent(n: nat, p: nat, c: nat) {
    p < n && (c == Left(p) || c == Right(n, p))
  }

  predicate Addressed(n: nat, m: Message) {
    m.phil < n && (m.Eat? || m.Think? || Adjacent(n, m.phil, m.stick))
  }

  // A chopstick handles take and put in both of its behaviors; a philosopher's behavior handles
  // only some messages.
  predicate Handles(b: Behavior, m: Message) {
    match m
    case Take(_, _) => true
    case Put(_, _) => true
    case Taken(_, _) => b.Hungry? || b.Granted? || b.Denied?
    case Busy(_, _) => b.Hungry? || b.Granted? || b.Denied?
    case Eat(_) => b.Thinking?
    case Think(_) => b.Starting? || b.Eating?
  }

  predicate Enabled(s: State, m: Message) {
    && m in s.inFlight
    && Addressed(|s.phils|, m)
    && |s.sticks| == |s.phils|
    && Handles(s.phils[m.phil], m)
  }

  // What a chopstick becomes and replies; only the recorded user can put it back.
  function StickReaction(stick: Chopstick, m: Message): (r: (Chopstick, multiset<Message>))
    requires m.Take? || m.Put?
  {
    match m
    case Take(p, c) =>
      if stick.Available? then (TakenBy(p), multiset{Taken(p, c)}) else (stick, multiset{Busy(p, c)})
    case Put(p, _) =>
      (if stick == TakenBy(p) then Available else stick, multiset{})
  }

  // What a philosopher becomes and sends.
  function PhilosopherReaction(n: nat, b: Behavior, m: Message): (r: (Behavior, multiset<Message>))
    requires Addressed(n, m) && !m.Take? && !m.Put? && Handles(b, m)
  {
    match m
    case Eat(p) => (Hungry, multiset{Take(p, Left(p)), Take(p, Right(n, p))})
    case Think(p) =>
      if b.Starting? then (Thinking, multiset{Eat(p)})
      else (Thinking, multiset{Put(p, Left(p)), Put(p, Right(n, p)), Eat(p)})
    case Taken(p, c) =>
      if b.Hungry? then (Granted, multiset{})
      else if b.Granted? then (Eating, multiset{Think(p)})
      else (Thinking, multiset{Put(p, c), Eat(p)})
    case Busy(p, c) =>
      if b.Hungry? then (Denied, multiset{})
      else if b.Granted? then (Thinking, multiset{Put(p, Other(n, p, c)), Eat(p)})
      else (Thinking, multiset{Eat(p)})
  }

  function Receive(s: State, m: Message): State
    requires Enabled(s, m)
  {
    if m.Take? || m.Put? then
      State(s.sticks[m.stick := StickReaction(s.sticks[m.stick], m).0], s.phils,
            s.inFlight - multiset{m} + StickReaction(s.sticks[m.stick], m).1)
    else
      State(s.sticks, s.phils[m.phil := PhilosopherReaction(|s.phils|, s.phils[m.phil], m).0],
            s.inFlight - multiset{m} + PhilosopherReaction(|s.phils|, s.phils[m.phil], m).1)
  }

  predicate Initial(s: State) {
    && |s.sticks| == |s.phils| >= 2
    && (forall c :: 0 <= c < |s.sticks| ==> s.sticks[c].Available?)
    && (forall p :: 0 <= p < |s.phils| ==> s.phils[p].Starting?)
    && s.inFlight == Spawned(|s.phils|)
  }

  // Each philosopher sends itself a think when it is spawned.
  function Spawned(n: nat): multiset<Message> {
    if n == 0 then multiset{} else Spawned(n - 1) + multiset{Think(n - 1)}
  }

  ghost predicate Step(s: State, t: State) {
    exists m :: Enabled(s, m) && t == Receive(s, m)
  }

  ghost predicate Steps(run: seq<State>) {
    && |run| > 0
    && forall i :: 0 <= i < |run| - 1 ==> Step(run[i], run[i + 1])
  }

  ghost predicate IsRun(run: seq<State>) {
    Steps(run) && Initial(run[0])
  }

  // ----- the inductive invariant -----

  ghost function One(b: bool): nat { if b then 1 else 0 }

  // Requests of p to c that have not been answered yet.
  ghost function Pending(ms: multiset<Message>, p: nat, c: nat): nat {
    ms[Take(p, c)] + ms[Taken(p, c)] + ms[Busy(p, c)]
  }

  // A granted philosopher holds the chopstick that has already answered.
  ghost predicate Holds(b: Behavior, ms: multiset<Message>, p: nat, c: nat) {
    b.Eating? || (b.Granted? && Pending(ms, p, c) == 0)
  }

  ghost predicate MailInv(b: Behavior, ms: multiset<Message>, p: nat, l: nat, r: nat) {
    && (b.Hungry? ==> Pending(ms, p, l) == 1 && Pending(ms, p, r) == 1)
    && (b.Granted? || b.Denied? ==> Pending(ms, p, l) + Pending(ms, p, r) == 1)
    && (b.Starting? || b.Thinking? || b.Eating? ==> Pending(ms, p, l) == 0 && Pending(ms, p, r) == 0)
    && ms[Eat(p)] == One(b.Thinking?)
    && ms[Think(p)] == One(b.Starting? || b.Eating?)
  }

  // The chopstick is taken by p exactly when there is one token for the pair: a taken in
  // flight, p holding it, or a put in flight.
  ghost predicate TokenInv(b: Behavior, ms: multiset<Message>, p: nat, c: nat, stick: Chopstick) {
    ms[Taken(p, c)] + ms[Put(p, c)] + One(Holds(b, ms, p, c)) == One(stick == TakenBy(p))
  }

  // What the invariant says about one philosopher and its two chopsticks.
  ghost predicate PairInv(s: State, p: nat) {
    && |s.sticks| == |s.phils| >= 2
    && p < |s.phils|
    && MailInv(s.phils[p], s.inFlight, p, Left(p), Right(|s.phils|, p))
    && TokenInv(s.phils[p], s.inFlight, p, Left(p), s.sticks[Left(p)])
    && TokenInv(s.phils[p], s.inFlight, p, Right(|s.phils|, p), s.sticks[Right(|s.phils|, p)])
  }

  ghost predicate Inv(s: State) {
    && |s.sticks| == |s.phils| >= 2
    && (forall m :: m in s.inFlight ==> Addressed(|s.phils|, m))
    && (forall c :: 0 <= c < |s.sticks| && s.sticks[c].TakenBy? ==> Adjacent(|s.phils|, s.sticks[c].user, c))
    && (forall p :: 0 <= p < |s.phils| ==> PairInv(s, p))
  }

  lemma {:induction false} SpawnedCounts(n: nat, m: Message)
    ensures Spawned(n)[m] == One(m.Think? && m.phil < n)
  {
    if n > 0 {
      SpawnedCounts(n - 1, m);
    }
  }

  lemma InitialInv(s: State)
    requires Initial(s)
    ensures Inv(s)
  {
    forall m ensures s.inFlight[m] == One(m.Think? && m.phil < |s.phils|) {
      SpawnedCounts(|s.phils|, m);
    }
  }

  lemma ReactionsAreOwn(n: nat, b: Behavior, m: Message, k: Message)
    requires Addressed(n, m) && !m.Take? && !m.Put? && Handles(b, m)
    requires k in PhilosopherReaction(n, b, m).1
    ensures k.phil == m.phil && Addressed(n, k)
  {
  }

  // Delivering a message of philosopher p leaves every other philosopher alone.
  lemma OthersUnchanged(s: State, m: Message, q: nat, k: Message)
    requires Enabled(s, m) && q == k.phil != m.phil && q < |s.phils|
    ensures Receive(s, m).phils[q] == s.phils[q]
    ensures Receive(s, m).inFlight[k] == s.inFlight[k]
  {
    if !m.Take? && !m.Put? && k in PhilosopherReaction(|s.phils|, s.phils[m.phil], m).1 {
      ReactionsAreOwn(|s.phils|, s.phils[m.phil], m, k);
    }
  }

  // One step of a philosopher, seen from its own mail and from one of its chopsticks.
  lemma PhilosopherMail(n: nat, b: Behavior, ms: multiset<Message>, m: Message)
    requires n >= 2 && Addressed(n, m) && !m.Take? && !m.Put? && Handles(b, m) && m in ms
    requires MailInv(b, ms, m.phil, Left(m.phil), Right(n, m.phil))
    ensures MailInv(PhilosopherReaction(n, b, m).0, ms - multiset{m} + PhilosopherReaction(n, b, m).1,
                    m.phil, Left(m.phil), Right(n, m.phil))
  {
  }

  lemma PhilosopherToken(n: nat, b: Behavior, ms: multiset<Message>, m: Message, c: nat, stick: Chopstick)
    requires n >= 2 && Addressed(n, m) && !m.Take? && !m.Put? && Handles(b, m) && m in ms && Adjacent(n, m.phil, c)
    requires MailInv(b, ms, m.phil, Left(m.phil), Right(n, m.phil)) && TokenInv(b, ms, m.phil, c, stick)
    ensures TokenInv(PhilosopherReaction(n, b, m).0, ms - multiset{m} + PhilosopherReaction(n, b, m).1,
                     m.phil, c, stick)
  {
  }

  // One step of a chopstick, seen from the philosopher that sent the message.
  lemma StickMail(n: nat, b: Behavior, ms: multiset<Message>, m: Message, stick: Chopstick)
    requires n >= 2 && Addressed(n, m) && (m.Take? || m.Put?) && m in ms
    requires MailInv(b, ms, m.phil, Left(m.phil), Right(n, m.phil))
    ensures MailInv(b, ms - multiset{m} + StickReaction(stick, m).1, m.phil, Left(m.phil), Right(n, m.phil))
  {
  }

  lemma StickToken(n: nat, b: Behavior, ms: multiset<Message>, m: Message, stick: Chopstick)
    requires n >= 2 && Addressed(n, m) && (m.Take? || m.Put?) && m in ms
    requires MailInv(b, ms, m.phil, Left(m.phil), Right(n, m.phil)) && TokenInv(b, ms, m.phil, m.stick, stick)
    ensures TokenInv(b, ms - multiset{m} + StickReaction(stick, m).1, m.phil, m.stick, StickReaction(stick, m).0)
  {
  }

  lemma StickOtherToken(b: Behavior, ms: multiset<Message>, m: Message, stick: Chopstick, c: nat, other: Chopstick)
    requires (m.Take? || m.Put?) && m in ms && c != m.stick && TokenInv(b, ms, m.phil, c, other)
    ensures TokenInv(b, ms - multiset{m} + StickReaction(stick, m).1, m.phil, c, other)
  {
  }

  lemma OwnPair(s: State, m: Message)
    requires PairInv(s, m.phil) && Enabled(s, m)
    ensures PairInv(Receive(s, m), m.phil)
  {
    var n, b, l, r := |s.phils|, s.phils[m.phil], Left(m.phil), Right(|s.phils|, m.phil);
    if m.Take? || m.Put? {
      var stick := s.sticks[m.stick];
      var o := Other(n, m.phil, m.stick);
      StickMail(n, b, s.inFlight, m, stick);
      StickToken(n, b, s.inFlight, m, stick);
      StickOtherToken(b, s.inFlight, m, stick, o, s.sticks[o]);
    } else {
      PhilosopherMail(n, b, s.inFlight, m);
      PhilosopherToken(n, b, s.inFlight, m, l, s.sticks[l]);
      PhilosopherToken(n, b, s.inFlight, m, r, s.sticks[r]);
    }
  }

  lemma OtherPair(s: State, m: Message, q: nat)
    requires PairInv(s, q) && Enabled(s, m) && q != m.phil
    ensures PairInv(Receive(s, m), q)
  {
    var t := Receive(s, m);
    forall k: Message | k.phil == q ensures t.phils[q] == s.phils[q] && t.inFlight[k] == s.inFlight[k] {
      OthersUnchanged(s, m, q, k);
    }
    assert Eat(q).phil == q && Think(q).phil == q;
    forall c | c == Left(q) || c == Right(|s.phils|, q)
      ensures Pending(t.inFlight, q, c) == Pending(s.inFlight, q, c)
      ensures t.inFlight[Taken(q, c)] == s.inFlight[Taken(q, c)] && t.inFlight[Put(q, c)] == s.inFlight[Put(q, c)]
    {
      assert Take(q, c).phil == q && Taken(q, c).phil == q && Busy(q, c).phil == q && Put(q, c).phil == q;
    }
  }

  lemma StepInv(s: State, m: Message)
    requires Inv(s) && Enabled(s, m)
    ensures Inv(Receive(s, m))
  {
    var t, n, p := Receive(s, m), |s.phils|, m.phil;
    forall k | k in t.inFlight ensures Addressed(n, k) {
      if k !in s.inFlight && !m.Take? && !m.Put? {
        ReactionsAreOwn(n, s.phils[p], m, k);
      }
    }
    forall q | 0 <= q < n ensures PairInv(t, q) {
      assert PairInv(s, q);
      if q != p {
        OtherPair(s, m, q);
      } else {
        OwnPair(s, m);
      }
    }
  }

  lemma {:induction false} RunInv(run: seq<State>, i: nat)
    requires Steps(run) && Inv(run[0]) && i < |run|
    ensures Inv(run[i])
  {
    if i > 0 {
      RunInv(run, i - 1);
      assert Step(run[i - 1], run[i]);
      var m :| Enabled(run[i - 1], m) && run[i] == Receive(run[i - 1], m);
      StepInv(run[i - 1], m);
    }
  }

  // ----- safety over whole runs -----

  // An eating philosopher is the recorded user of both its chopsticks.
  lemma EatingOwnsBothSticks(run: seq<State>, i: nat, p: nat)
    requires IsRun(run) && i < |run| && p < |run[i].phils| && run[i].phils[p].Eating?
    ensures |run[i].sticks| == |run[i].phils|
    ensures run[i].sticks[Left(p)] == TakenBy(p)
    ensures run[i].sticks[Right(|run[i].phils|, p)] == TakenBy(p)
  {
    InitialInv(run[0]);
    RunInv(run, i);
    assert PairInv(run[i], p);
  }

  // Two philosophers that share a chopstick never eat at the same time.
  lemma NeighboursNeverEatTogether(run: seq<State>, i: nat, p: nat, q: nat, c: nat)
    requires IsRun(run) && i < |run| && p != q
    requires Adjacent(|run[i].phils|, p, c) && Adjacent(|run[i].phils|, q, c)
    ensures !(run[i].phils[p].Eating? && run[i].phils[q].Eating?)
  {
    if run[i].phils[p].Eating? && run[i].phils[q].Eating? {
      EatingOwnsBothSticks(run, i, p);
      EatingOwnsBothSticks(run, i, q);
    }
  }

  // A put always comes from the recorded user, so an available chopstick never sees one.
  lemma PutComesFromUser(run: seq<State>, i: nat, p: nat, c: nat)
    requires IsRun(run) && i < |run| && Put(p, c) in run[i].inFlight
    ensures c < |run[i].sticks| && run[i].sticks[c] == TakenBy(p)
  {
    InitialInv(run[0]);
    RunInv(run, i);
    assert Addressed(|run[i].phils|, Put(p, c));
    assert PairInv(run[i], p);
  }

  // No message is ever left unhandled, and every philosopher has one that moves it on.
  lemma EveryMessageIsHandled(run: seq<State>, i: nat, m: Message)
    requires IsRun(run) && i < |run| && m in run[i].inFlight
    ensures Enabled(run[i], m)
  {
    InitialInv(run[0]);
    RunInv(run, i);
    HandledInInv(run[i], m);
  }

  lemma HandledInInv(s: State, m: Message)
    requires Inv(s) && m in s.inFlight
    ensures Enabled(s, m)
  {
    assert Addressed(|s.phils|, m);
    assert PairInv(s, m.phil);
  }

  lemma EveryPhilosopherCanMove(run: seq<State>, i: nat, p: nat)
    requires IsRun(run) && i < |run| && p < |run[i].phils|
    ensures exists m :: Enabled(run[i], m) && m.phil == p && !m.Put?
  {
    InitialInv(run[0]);
    RunInv(run, i);
    var m := SomeMessage(run[i], p);
    HandledInInv(run[i], m);
  }

  lemma SomeMessage(s: State, p: nat) returns (m: Message)
    requires Inv(s) && p < |s.phils|
    ensures m in s.inFlight && m.phil == p && !m.Put?
    ensures m.Eat? <==> s.phils[p].Thinking?
  {
    assert PairInv(s, p);
    var b, l, r := s.phils[p], Left(p), Right(|s.phils|, p);
    if b.Thinking? {
      return Eat(p);
    }
    if b.Starting? || b.Eating? {
      return Think(p);
    }
    var c := if Pending(s.inFlight, p, l) > 0 then l else r;
    m := if Take(p, c) in s.inFlight then Take(p, c)
         else if Taken(p, c) in s.inFlight then Taken(p, c)
         else Busy(p, c);
  }

  // ----- no state is hopeless: from every reachable state every philosopher can still get to eat -----

  ghost function Weight(m: Message): nat {
    match m
    case Eat(_) => 0
    case Put(_, _) => 1
    case Busy(_, _) => 2
    case Think(_) => 3
    case Taken(_, _) => 4
    case Take(_, _) => 5
  }

  ghost function Total(ms: multiset<Message>): nat
    decreases |ms|
  {
    if ms == multiset{} then 0 else
      var m :| m in ms;
      Weight(m) + Total(ms - multiset{m})
  }

  lemma {:induction false} TotalWith(ms: multiset<Message>, m: Message)
    ensures Total(ms + multiset{m}) == Total(ms) + Weight(m)
    decreases |ms|
  {
    var all := ms + multiset{m};
    var k :| k in all && Total(all) == Weight(k) + Total(all - multiset{k});
    if k == m {
      assert all - multiset{k} == ms;
    } else {
      var less := ms - multiset{k};
      assert all - multiset{k} == less + multiset{m};
      assert ms == less + multiset{k};
      TotalWith(less, m);
      TotalWith(less, k);
    }
  }

  // Delivering anything but an eat makes the messages in flight lighter.
  lemma DeliveryIsLighter(s: State, m: Message)
    requires Enabled(s, m) && !m.Eat?
    ensures Total(Receive(s, m).inFlight) < Total(s.inFlight)
  {
    var n, rest, p := |s.phils|, s.inFlight - multiset{m}, m.phil;
    assert s.inFlight == rest + multiset{m};
    TotalWith(rest, m);
    if m.Take? || m.Put? {
      var sent := StickReaction(s.sticks[m.stick], m).1;
      if m.Take? {
        TotalWith(rest, if s.sticks[m.stick].Available? then Taken(p, m.stick) else Busy(p, m.stick));
      } else {
        assert rest + sent == rest;
      }
    } else {
      PhilosopherIsLighter(n, s.phils[p], m, rest);
    }
  }

  lemma TotalWithTwo(ms: multiset<Message>, x: Message, y: Message)
    ensures Total(ms + multiset{x, y}) == Total(ms) + Weight(x) + Weight(y)
  {
    TotalWith(ms, x);
    TotalWith(ms + multiset{x}, y);
    assert ms + multiset{x} + multiset{y} == ms + multiset{x, y};
  }

  lemma TotalWithThree(ms: multiset<Message>, x: Message, y: Message, z: Message)
    ensures Total(ms + multiset{x, y, z}) == Total(ms) + Weight(x) + Weight(y) + Weight(z)
  {
    TotalWithTwo(ms, x, y);
    TotalWith(ms + multiset{x, y}, z);
    assert ms + multiset{x, y} + multiset{z} == ms + multiset{x, y, z};
  }

  lemma PhilosopherIsLighter(n: nat, b: Behavior, m: Message, rest: multiset<Message>)
    requires Addressed(n, m) && !m.Take? && !m.Put? && !m.Eat? && Handles(b, m)
    ensures Total(rest + PhilosopherReaction(n, b, m).1) < Total(rest) + Weight(m)
  {
    var p := m.phil;
    if b.Hungry? {
      assert rest + multiset{} == rest;
    } else if b.Starting? || (m.Busy? && b.Denied?) {
      TotalWith(rest, Eat(p));
    } else if b.Eating? {
      TotalWithThree(rest, Put(p, Left(p)), Put(p, Right(n, p)), Eat(p));
    } else if m.Taken? && b.Granted? {
      TotalWith(rest, Think(p));
    } else {
      TotalWithTwo(rest, Put(p, if m.Taken? then m.stick else Other(n, p, m.stick)), Eat(p));
    }
  }

  lemma {:induction false} Drain(s: State) returns (run: seq<State>)
    requires Inv(s)
    ensures Steps(run) && run[0] == s && Inv(run[|run| - 1])
    ensures forall m :: m in run[|run| - 1].inFlight ==> m.Eat?
    ensures |run[|run| - 1].phils| == |s.phils|
    decreases Total(s.inFlight)
  {
    if forall m :: m in s.inFlight ==> m.Eat? {
      return [s];
    }
    var m :| m in s.inFlight && !m.Eat?;
    HandledInInv(s, m);
    StepInv(s, m);
    DeliveryIsLighter(s, m);
    run := Drain(Receive(s, m));
    Prepend(s, m, run);
    run := [s] + run;
  }

  lemma Prepend(s: State, m: Message, run: seq<State>)
    requires Enabled(s, m) && Steps(run) && run[0] == Receive(s, m)
    ensures Steps([s] + run)
  {
    var longer := [s] + run;
    forall i | 0 <= i < |longer| - 1 ensures Step(longer[i], longer[i + 1]) {
      if i > 0 {
        assert Step(run[i - 1], run[i]);
      }
    }
  }

  lemma Extend(run: seq<State>, m: Message) returns (longer: seq<State>)
    requires Steps(run) && Inv(run[|run| - 1]) && m in run[|run| - 1].inFlight
    ensures Enabled(run[|run| - 1], m)
    ensures Steps(longer) && longer[0] == run[0]
    ensures longer == run + [Receive(run[|run| - 1], m)] && Inv(longer[|longer| - 1])
  {
    HandledInInv(run[|run| - 1], m);
    StepInv(run[|run| - 1], m);
    longer := run + [Receive(run[|run| - 1], m)];
    forall i | 0 <= i < |longer| - 1 ensures Step(longer[i], longer[i + 1]) {
      if i < |run| - 1 {
        assert Step(run[i], run[i + 1]);
      }
    }
  }

  lemma DrainedIsFree(s: State, c: nat)
    requires Inv(s) && c < |s.sticks|
    requires forall m :: m in s.inFlight ==> m.Eat?
    ensures s.sticks[c].Available?
  {
    if s.sticks[c].TakenBy? {
      var p := s.sticks[c].user;
      assert Adjacent(|s.phils|, p, c);
      assert PairInv(s, p);
      var k := SomeMessage(s, p);
    }
  }

  // A thinking philosopher next to two free chopsticks can take both ...
  lemma TakesBoth(run: seq<State>, p: nat) returns (more: seq<State>)
    requires Steps(run) && Inv(run[|run| - 1]) && p < |run[|run| - 1].phils|
    requires var s := run[|run| - 1];
             s.phils[p].Thinking? && s.sticks[Left(p)].Available? && s.sticks[Right(|s.phils|, p)].Available?
    ensures Steps(more) && more[0] == run[0] && Inv(more[|more| - 1])
    ensures var t := more[|more| - 1]; |t.phils| == |run[|run| - 1].phils| && t.phils[p].Hungry?
    ensures var t := more[|more| - 1]; Taken(p, Left(p)) in t.inFlight && Taken(p, Right(|t.phils|, p)) in t.inFlight
  {
    assert PairInv(run[|run| - 1], p);
    var l, r := Left(p), Right(|run[|run| - 1].phils|, p);
    more := Extend(run, Eat(p));
    more := Extend(more, Take(p, l));
    more := Extend(more, Take(p, r));
  }

  // ... and then eat.
  lemma StartsEating(run: seq<State>, p: nat) returns (more: seq<State>)
    requires Steps(run) && Inv(run[|run| - 1]) && p < |run[|run| - 1].phils| && run[|run| - 1].phils[p].Hungry?
    requires var t := run[|run| - 1]; Taken(p, Left(p)) in t.inFlight && Taken(p, Right(|t.phils|, p)) in t.inFlight
    ensures Steps(more) && more[0] == run[0]
    ensures p < |more[|more| - 1].phils| && more[|more| - 1].phils[p].Eating?
  {
    var l, r := Left(p), Right(|run[|run| - 1].phils|, p);
    more := Extend(run, Taken(p, l));
    more := Extend(more, Taken(p, r));
  }

  lemma CanAlwaysEat(run: seq<State>, i: nat, p: nat) returns (more: seq<State>)
    requires IsRun(run) && i < |run| && p < |run[i].phils|
    ensures Steps(more) && more[0] == run[i]
    ensures p < |more[|more| - 1].phils| && more[|more| - 1].phils[p].Eating?
  {
    InitialInv(run[0]);
    RunInv(run, i);
    more := Drain(run[i]);
    var s := more[|more| - 1];
    DrainedIsFree(s, Left(p));
    DrainedIsFree(s, Right(|s.phils|, p));
    var k := SomeMessage(s, p);
    more := TakesBoth(more, p);
    more := StartsEating(more, p);
  }

  // ----- the actors as they run: handlers that `become` and `send` step by step -----

  class ChopstickActor {
    var behavior: Chopstick

    constructor ()
      ensures behavior == Available
    {
      behavior := Available;
    }

    method OnMessage(m: Message) returns (sent: multiset<Message>)
      requires m.Take? || m.Put?
      modifies this
      ensures (behavior, sent) == StickReaction(old(behavior), m)
    {
      sent := multiset{};
      if behavior.Available? {
        if m.Take? {
          behavior := TakenBy(m.phil);
          sent := multiset{Taken(m.phil, m.stick)};
        }
      } else if m.Take? {
        sent := multiset{Busy(m.phil, m.stick)};
      } else if m.phil == behavior.user {
        behavior := Available;
      }
    }
  }

  class PhilosopherActor {
    const id: nat
    const left: nat
    const right: nat
    var behavior: Behavior

    constructor (n: nat, id: nat)
      requires id < n
      ensures this.id == id && left == Left(id) && right == Right(n, id) && behavior == Starting
    {
      this.id := id;
      left := Left(id);
      right := Right(n, id);
      behavior := Starting;
    }

    method OnMessage(ghost n: nat, m: Message) returns (sent: multiset<Message>)
      requires Addressed(n, m) && !m.Take? && !m.Put? && Handles(behavior, m)
      requires m.phil == id && left == Left(id) && right == Right(n, id)
      modifies this
      ensures (behavior, sent) == PhilosopherReaction(n, old(behavior), m)
    {
      sent := multiset{};
      match behavior {
        case Starting =>
          sent := multiset{Eat(id)};
          behavior := Thinking;
        case Thinking =>
          behavior := Hungry;
          sent := multiset{Take(id, left), Take(id, right)};
        case Hungry =>
          behavior := if m.Taken? then Granted else Denied;
        case Granted =>
          if m.Taken? {
            sent := multiset{Think(id)};
            behavior := Eating;
          } else {
            sent := multiset{Put(id, if m.stick == left then right else left), Eat(id)};
            behavior := Thinking;
          }
        case Denied =>
          if m.Taken? {
            sent := multiset{Put(id, if m.stick == left then left else right), Eat(id)};
          } else {
            sent := multiset{Eat(id)};
          }
          behavior := Thinking;
        case Eating =>
          sent := multiset{Put(id, left), Put(id, right), Eat(id)};
          behavior := Thinking;
      }
    }
  }
}
