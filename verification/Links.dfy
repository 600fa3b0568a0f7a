/**
 Links between local actors. A link or unlink holds the lock of the calling actor while it takes
 the lock of the other one, so it is three locked steps between which other threads run.
 */
module Links {
  import opened Attachables

  // The operation, if any, that holds an actor's lock, by how far it got.
  datatype Busy =
    | Idle
    | WantLink(other: ActorId)    // about to call establish_backlink
    | HasLink(other: ActorId)     // establish_backlink said yes, own attachable still missing
    | WantUnlink(other: ActorId)  // own attachable removed, about to call remove_backlink

  datatype Actor = Actor(reason: Reason, list: seq<Attachable>, busy: Busy)

  datatype ExitMsg = ExitMsg(source: ActorId, target: ActorId, reason: Reason)

  // `pending` holds the messages that exited actors, outside of their locks, are about to send,
  // `sent` those they have sent; `refused` records the messages that answer links to exited actors.
  datatype Mail = Mail(pending: multiset<ExitMsg>, sent: multiset<ExitMsg>, refused: multiset<ExitMsg>)

  datatype State = State(actors: map<ActorId, Actor>, mail: Mail)

  datatype Step =
    | LinkBegin(a: ActorId, b: ActorId)
    | LinkBack(a: ActorId)
    | LinkEnd(a: ActorId)
    | UnlinkBegin(a: ActorId, b: ActorId)
    | UnlinkBack(a: ActorId)
    | Exit(a: ActorId, r: Reason)
    | Send(a: ActorId, b: ActorId)
    | AttachOther(a: ActorId, x: Attachable)
    | DetachOther(a: ActorId, x: Attachable)

  function LinkTo(b: ActorId): Attachable {
    Observer(b, Link)
  }

  predicate IsLink(x: Attachable) {
    x.Observer? && x.kind.Link?
  }

  // ----- steps -----

  predicate Free(s: State, a: ActorId) {
    a in s.actors && s.actors[a].busy.Idle?
  }

  predicate Enabled(s: State, step: Step) {
    match step
    case LinkBegin(a, b) => a != b && Free(s, a) && b in s.actors
    case LinkBack(a) => a in s.actors && s.actors[a].busy.WantLink? && Free(s, s.actors[a].busy.other)
    case LinkEnd(a) => a in s.actors && s.actors[a].busy.HasLink?
    case UnlinkBegin(a, b) => a != b && Free(s, a) && b in s.actors
    case UnlinkBack(a) => a in s.actors && s.actors[a].busy.WantUnlink? && Free(s, s.actors[a].busy.other)
    case Exit(a, r) => Free(s, a) && r != NOT_EXITED
    case Send(a, b) => a in s.actors && ExitMsg(a, b, s.actors[a].reason) in s.mail.pending
    case AttachOther(a, x) => Free(s, a) && !IsLink(x)
    case DetachOther(a, x) => Free(s, a) && !IsLink(x)
  }

  // The messages that the link attachables of an exiting actor send.
  function ExitMsgs(a: ActorId, list: seq<Attachable>, r: Reason): multiset<ExitMsg> {
    if list == [] then multiset{}
    else (if IsLink(list[0]) then multiset{ExitMsg(a, list[0].observer, r)} else multiset{}) + ExitMsgs(a, list[1..], r)
  }

  function SetBusy(s: State, a: ActorId, busy: Busy): State
    requires a in s.actors
  {
    s.(actors := s.actors[a := s.actors[a].(busy := busy)])
  }

  function SetList(s: State, a: ActorId, list: seq<Attachable>): State
    requires a in s.actors
  {
    s.(actors := s.actors[a := s.actors[a].(list := list)])
  }

  function Refuse(s: State, m: ExitMsg): State {
    s.(mail := s.mail.(refused := s.mail.refused + multiset{m}))
  }

  function Expect(mail: Mail, ms: multiset<ExitMsg>): Mail {
    mail.(pending := mail.pending + ms)
  }

  function Deliver(mail: Mail, m: ExitMsg): Mail {
    mail.(pending := mail.pending - multiset{m}, sent := mail.sent + multiset{m})
  }

  function Next(s: State, step: Step): State
    requires Enabled(s, step)
  {
    match step
    case LinkBegin(a, b) =>
      if s.actors[a].reason != NOT_EXITED then Refuse(s, ExitMsg(a, b, s.actors[a].reason))
      else SetBusy(s, a, WantLink(b))
    case LinkBack(a) => Backlink(s, a, s.actors[a].busy.other)
    case LinkEnd(a) =>
      SetBusy(SetList(s, a, [LinkTo(s.actors[a].busy.other)] + s.actors[a].list), a, Idle)
    case UnlinkBegin(a, b) =>
      if LinkTo(b) !in s.actors[a].list then s
      else SetBusy(SetList(s, a, Detached(s.actors[a].list, LinkTo(b), true)), a, WantUnlink(b))
    case UnlinkBack(a) => Unbacklink(s, a, s.actors[a].busy.other)
    case Exit(a, r) =>
      if s.actors[a].reason != NOT_EXITED then s
      else s.(actors := s.actors[a := Actor(r, [], Idle)], mail := Expect(s.mail, ExitMsgs(a, s.actors[a].list, r)))
    case Send(a, b) => s.(mail := Deliver(s.mail, ExitMsg(a, b, s.actors[a].reason)))
    case AttachOther(a, x) =>
      if s.actors[a].reason != NOT_EXITED then s else SetList(s, a, [x] + s.actors[a].list)
    case DetachOther(a, x) => SetList(s, a, Detached(s.actors[a].list, x, false))
  }

  function Backlink(s: State, a: ActorId, b: ActorId): State
    requires a in s.actors && b in s.actors
  {
    if s.actors[b].reason != NOT_EXITED then
      SetBusy(Refuse(s, ExitMsg(b, a, s.actors[b].reason)), a, Idle)
    else if LinkTo(a) in s.actors[b].list then
      SetBusy(s, a, Idle)
    else
      SetBusy(SetList(s, b, [LinkTo(a)] + s.actors[b].list), a, HasLink(b))
  }

  function Unbacklink(s: State, a: ActorId, b: ActorId): State
    requires a in s.actors && b in s.actors
  {
    SetBusy(SetList(s, b, Detached(s.actors[b].list, LinkTo(a), true)), a, Idle)
  }

  ghost predicate Starts(s: State) {
    && s.mail == Mail(multiset{}, multiset{}, multiset{})
    && forall a :: a in s.actors ==> s.actors[a] == Actor(NOT_EXITED, [], Idle)
  }

  ghost predicate StepAt(run: seq<State>, steps: seq<Step>, i: nat)
    requires i < |steps| == |run| - 1
  {
    Enabled(run[i], steps[i]) && run[i + 1] == Next(run[i], steps[i])
  }

  ghost predicate IsRun(run: seq<State>, steps: seq<Step>) {
    |run| == |steps| + 1 && forall i: nat :: i < |steps| ==> StepAt(run, steps, i)
  }

  // ----- the invariant -----

  predicate Running(s: State, a: ActorId) {
    a in s.actors && s.actors[a].reason == NOT_EXITED
  }

  // An operation of this actor is half done: `b` holds its end of the link, this actor does not.
  predicate Halfway(busy: Busy, b: ActorId) {
    busy == HasLink(b) || busy == WantUnlink(b)
  }

  // The end of a link that an actor holds, or still owes, towards `b`.
  function End(actor: Actor, b: ActorId): nat {
    multiset(actor.list)[LinkTo(b)] + if Halfway(actor.busy, b) then 1 else 0
  }

  ghost predicate Pair(s: State, a: ActorId, b: ActorId)
    requires a in s.actors && b in s.actors
  {
    && (Running(s, a) ==> End(s.actors[a], b) <= 1)
    && (Running(s, a) && Running(s, b) ==> End(s.actors[a], b) == End(s.actors[b], a))
  }

  ghost predicate Pairs(s: State) {
    forall a, b :: a in s.actors && b in s.actors && a != b ==> Pair(s, a, b)
  }

  ghost predicate Sane(s: State, a: ActorId)
    requires a in s.actors
  {
    && (!Running(s, a) ==> s.actors[a].list == [] && s.actors[a].busy.Idle?)
    && (!s.actors[a].busy.Idle? ==> s.actors[a].busy.other in s.actors && s.actors[a].busy.other != a)
    && LinkTo(a) !in s.actors[a].list
  }

  ghost predicate AllSane(s: State) {
    forall a :: a in s.actors ==> Sane(s, a)
  }

  // Only exited actors send exit messages, and those carry the exit reason.
  predicate HonestMsg(s: State, m: ExitMsg) {
    m.source in s.actors && s.actors[m.source].reason == m.reason != NOT_EXITED
  }

  // How many messages `m` the attachables of an exited actor have sent or will send.
  function Fired(mail: Mail, m: ExitMsg): nat {
    mail.pending[m] + mail.sent[m]
  }

  predicate Known(mail: Mail, m: ExitMsg) {
    Fired(mail, m) > 0 || m in mail.refused
  }

  ghost predicate Honest(s: State) {
    forall m :: Known(s.mail, m) ==> HonestMsg(s, m)
  }

  ghost predicate Inv(s: State) {
    Pairs(s) && AllSane(s) && Honest(s)
  }

  // ----- every step keeps it -----

  lemma {:induction false} ExitMsgCount(a: ActorId, list: seq<Attachable>, r: Reason, m: ExitMsg)
    ensures ExitMsgs(a, list, r)[m] ==
            if m.source == a && m.reason == r then multiset(list)[LinkTo(m.target)] else 0
  {
    if list != [] {
      ExitMsgCount(a, list[1..], r, m);
      assert list == [list[0]] + list[1..];
      assert multiset(list) == multiset{list[0]} + multiset(list[1..]);
    }
  }

  // Ends do not change while the own attachable is added or removed by an operation half done,
  // nor with attachables of other kinds.
  lemma AddEnd(actor: Actor, x: Attachable, b: ActorId)
    ensures End(actor.(list := [x] + actor.list), b) == End(actor, b) + if x == LinkTo(b) then 1 else 0
  {
  }

  lemma RemoveEnd(actor: Actor, x: ActorId, b: ActorId)
    ensures End(actor.(list := Detached(actor.list, LinkTo(x), true)), b) ==
            End(actor, b) - if x == b && LinkTo(b) in actor.list then 1 else 0
  {
    DetachedCounts(actor.list, LinkTo(x), true, LinkTo(b));
  }

  lemma OtherEnd(actor: Actor, x: Attachable, b: ActorId)
    requires !IsLink(x)
    ensures End(actor.(list := Detached(actor.list, x, false)), b) == End(actor, b)
  {
    DetachedCounts(actor.list, x, false, LinkTo(b));
  }

  // The steps that leave all ends between running actors as they are.
  predicate KeepsEnds(s: State, step: Step)
    requires Enabled(s, step)
  {
    !step.LinkBack? && !step.UnlinkBack?
  }

  lemma EndKept(s: State, step: Step, x: ActorId, y: ActorId)
    requires Enabled(s, step) && KeepsEnds(s, step) && x in s.actors && Running(Next(s, step), x)
    ensures End(Next(s, step).actors[x], y) == End(s.actors[x], y)
  {
    if x == step.a {
      OwnEndKept(s, step, y);
    } else {
      assert Next(s, step).actors[x] == s.actors[x];
    }
  }

  lemma OwnEndKept(s: State, step: Step, y: ActorId)
    requires Enabled(s, step) && KeepsEnds(s, step) && Running(Next(s, step), step.a)
    ensures End(Next(s, step).actors[step.a], y) == End(s.actors[step.a], y)
  {
    match step
    case LinkEnd(a) => LinkEndKept(s, a, y);
    case UnlinkBegin(a, b) => UnlinkBeginKept(s, a, b, y);
    case AttachOther(a, z) => AddEnd(s.actors[a], z, y);
    case DetachOther(a, z) => OtherEnd(s.actors[a], z, y);
    case _ =>
  }

  lemma LinkEndKept(s: State, a: ActorId, y: ActorId)
    requires Enabled(s, LinkEnd(a))
    ensures End(Next(s, LinkEnd(a)).actors[a], y) == End(s.actors[a], y)
  {
    AddEnd(s.actors[a], LinkTo(s.actors[a].busy.other), y);
  }

  lemma UnlinkBeginKept(s: State, a: ActorId, b: ActorId, y: ActorId)
    requires Enabled(s, UnlinkBegin(a, b))
    ensures End(Next(s, UnlinkBegin(a, b)).actors[a], y) == End(s.actors[a], y)
  {
    RemoveEnd(s.actors[a], b, y);
  }

  lemma KeepsPair(s: State, step: Step, x: ActorId, y: ActorId)
    requires Enabled(s, step) && KeepsEnds(s, step) && x in s.actors && y in s.actors && Pair(s, x, y)
    ensures Pair(Next(s, step), x, y)
  {
    var s' := Next(s, step);
    if Running(s', x) {
      EndKept(s, step, x, y);
      if Running(s', y) {
        EndKept(s, step, y, x);
      }
    }
  }

  lemma JoinPair(s: State, a: ActorId, b: ActorId, x: ActorId, y: ActorId)
    requires a in s.actors && b in s.actors && a != b && s.actors[a].busy == WantLink(b) && s.actors[b].busy.Idle?
    requires x in s.actors && y in s.actors && x != y && Pair(s, x, y) && Pair(s, a, b)
    requires Running(s, a) && Running(s, b)
    requires LinkTo(a) !in s.actors[b].list
    ensures Pair(SetBusy(SetList(s, b, [LinkTo(a)] + s.actors[b].list), a, HasLink(b)), x, y)
  {
    AddEnd(s.actors[b], LinkTo(a), x);
    AddEnd(s.actors[b], LinkTo(a), y);
  }

  lemma SetBusyPair(s: State, a: ActorId, busy: Busy, x: ActorId, y: ActorId)
    requires a in s.actors && x in s.actors && y in s.actors && Pair(s, x, y)
    requires !s.actors[a].busy.HasLink? && !s.actors[a].busy.WantUnlink? && !busy.HasLink? && !busy.WantUnlink?
    ensures Pair(SetBusy(s, a, busy), x, y)
  {
  }

  lemma BacklinkPair(s: State, a: ActorId, b: ActorId, x: ActorId, y: ActorId)
    requires a in s.actors && b in s.actors && a != b && s.actors[a].busy == WantLink(b) && s.actors[b].busy.Idle?
    requires x in s.actors && y in s.actors && x != y && Pair(s, x, y) && Pair(s, a, b) && Running(s, a)
    ensures Pair(Backlink(s, a, b), x, y)
  {
    if Running(s, b) && LinkTo(a) !in s.actors[b].list {
      JoinPair(s, a, b, x, y);
    } else {
      SetBusyPair(s, a, Idle, x, y);
    }
  }

  lemma UnbacklinkPair(s: State, a: ActorId, b: ActorId, x: ActorId, y: ActorId)
    requires a in s.actors && b in s.actors && a != b && s.actors[a].busy == WantUnlink(b) && s.actors[b].busy.Idle?
    requires x in s.actors && y in s.actors && x != y && Pair(s, x, y) && Pair(s, a, b) && Running(s, a)
    ensures Pair(Unbacklink(s, a, b), x, y)
  {
    RemoveEnd(s.actors[b], a, x);
    RemoveEnd(s.actors[b], a, y);
  }

  lemma StepPairs(s: State, step: Step)
    requires Enabled(s, step) && Pairs(s) && AllSane(s)
    ensures Pairs(Next(s, step))
  {
    forall x, y | x in s.actors && y in s.actors && x != y ensures Pair(Next(s, step), x, y) {
      if KeepsEnds(s, step) {
        KeepsPair(s, step, x, y);
      } else {
        var a, b := step.a, s.actors[step.a].busy.other;
        assert Sane(s, a) && Pair(s, a, b);
        if step.LinkBack? {
          BacklinkPair(s, a, b, x, y);
        } else {
          UnbacklinkPair(s, a, b, x, y);
        }
      }
    }
  }

  lemma StepSane(s: State, step: Step)
    requires Enabled(s, step) && AllSane(s)
    ensures AllSane(Next(s, step))
  {
    forall x | x in s.actors ensures Sane(Next(s, step), x) {
      assert Sane(s, x) && Sane(s, step.a);
      OneSane(s, step, x);
    }
  }

  lemma OneSane(s: State, step: Step, x: ActorId)
    requires Enabled(s, step) && x in s.actors && Sane(s, x) && Sane(s, step.a)
    ensures Sane(Next(s, step), x)
  {
    match step
    case UnlinkBegin(a, b) => DetachedCounts(s.actors[a].list, LinkTo(b), true, LinkTo(x));
    case UnlinkBack(a) => DetachedCounts(s.actors[s.actors[a].busy.other].list, LinkTo(a), true, LinkTo(x));
    case DetachOther(a, z) => DetachedCounts(s.actors[a].list, z, false, LinkTo(x));
    case _ =>
  }

  lemma StepHonest(s: State, step: Step)
    requires Enabled(s, step) && Honest(s)
    ensures Honest(Next(s, step))
  {
    forall m | Known(Next(s, step).mail, m) ensures HonestMsg(Next(s, step), m) {
      OneHonest(s, step, m);
    }
  }

  lemma OneHonest(s: State, step: Step, m: ExitMsg)
    requires Enabled(s, step) && Known(Next(s, step).mail, m) && (Known(s.mail, m) ==> HonestMsg(s, m))
    ensures HonestMsg(Next(s, step), m)
  {
    if Known(s.mail, m) {
      ReasonStays(s, step, m.source);
    } else {
      NewIsHonest(s, step, m);
    }
  }

  lemma ReasonStays(s: State, step: Step, a: ActorId)
    requires Enabled(s, step) && a in s.actors && !Running(s, a)
    ensures a in Next(s, step).actors && Next(s, step).actors[a].reason == s.actors[a].reason
  {
  }

  lemma NewIsHonest(s: State, step: Step, m: ExitMsg)
    requires Enabled(s, step) && Known(Next(s, step).mail, m) && !Known(s.mail, m)
    ensures HonestMsg(Next(s, step), m)
  {
    match step
    case Exit(a, r) => ExitMsgCount(a, s.actors[a].list, r, m);
    case Send(a, b) => DeliverKeeps(s.mail, ExitMsg(a, b, s.actors[a].reason), m);
    case _ =>
  }

  // In every run, two running actors hold matching ends of at most one link, exited actors hold
  // none, and every exit message carries the reason of an exited actor.
  lemma {:induction false} RunInv(run: seq<State>, steps: seq<Step>, i: nat)
    requires IsRun(run, steps) && Starts(run[0]) && i < |run|
    ensures Inv(run[i])
  {
    if i > 0 {
      RunInv(run, steps, i - 1);
      assert StepAt(run, steps, i - 1);
      StepPairs(run[i - 1], steps[i - 1]);
      StepSane(run[i - 1], steps[i - 1]);
      StepHonest(run[i - 1], steps[i - 1]);
    }
  }

  // Two running actors without an operation between them hold matching link attachables.
  lemma MatchingLinks(run: seq<State>, steps: seq<Step>, i: nat, a: ActorId, b: ActorId)
    requires IsRun(run, steps) && Starts(run[0]) && i < |run| && a != b && Running(run[i], a) && Running(run[i], b)
    requires !Halfway(run[i].actors[a].busy, b) && !Halfway(run[i].actors[b].busy, a)
    ensures multiset(run[i].actors[a].list)[LinkTo(b)] == multiset(run[i].actors[b].list)[LinkTo(a)] <= 1
  {
    RunInv(run, steps, i);
    assert Pair(run[i], a, b);
  }

  // Once an actor has exited, what its attachables have sent or will send stays the same.
  lemma FiredStays(s: State, step: Step, m: ExitMsg)
    requires Enabled(s, step) && m.source in s.actors && !Running(s, m.source)
    ensures Fired(Next(s, step).mail, m) == Fired(s.mail, m) && !Running(Next(s, step), m.source)
  {
    match step
    case Exit(a, r) => ExitMsgCount(a, s.actors[a].list, r, m);
    case Send(a, b) => DeliverKeeps(s.mail, ExitMsg(a, b, s.actors[a].reason), m);
    case _ =>
  }

  lemma DeliverKeeps(mail: Mail, sent: ExitMsg, m: ExitMsg)
    requires sent in mail.pending
    ensures Fired(Deliver(mail, sent), m) == Fired(mail, m)
  {
  }

  lemma {:induction false} FiredOnExit(run: seq<State>, steps: seq<Step>, i: nat, j: nat, b: ActorId, q: Reason)
    requires IsRun(run, steps) && Starts(run[0]) && i < j < |run| && steps[i].Exit?
    requires Running(run[i], steps[i].a) && Running(run[i], b) && b != steps[i].a
    ensures steps[i].a in run[j].actors && !Running(run[j], steps[i].a)
    ensures Fired(run[j].mail, ExitMsg(steps[i].a, b, q)) ==
            if q == steps[i].r then End(run[i].actors[b], steps[i].a) else 0
  {
    var (a, m) := (steps[i].a, ExitMsg(steps[i].a, b, q));
    if i + 1 < j {
      FiredOnExit(run, steps, i, j - 1, b, q);
      assert StepAt(run, steps, j - 1);
      FiredStays(run[j - 1], steps[j - 1], m);
    } else {
      RunInv(run, steps, i);
      assert StepAt(run, steps, i) && Pair(run[i], a, b) && !Known(run[i].mail, m);
      FiredAtExit(run[i], a, steps[i].r, b, q);
    }
  }

  lemma FiredAtExit(s: State, a: ActorId, r: Reason, b: ActorId, q: Reason)
    requires Enabled(s, Exit(a, r)) && Running(s, a) && Running(s, b) && Pair(s, a, b)
    requires !Known(s.mail, ExitMsg(a, b, q))
    ensures Fired(Next(s, Exit(a, r)).mail, ExitMsg(a, b, q)) == if q == r then End(s.actors[b], a) else 0
  {
    ExitMsgCount(a, s.actors[a].list, r, ExitMsg(a, b, q));
  }

  // An actor that exits, in any run, sends to a running actor exactly as many messages as that
  // actor holds ends of a link to it at the exit: one or none, with the exit reason. It has sent
  // none before; afterwards each of them is about to be sent or sent, at every moment of the run.
  lemma ExitNotifies(run: seq<State>, steps: seq<Step>, i: nat, j: nat, b: ActorId)
    requires IsRun(run, steps) && Starts(run[0]) && i < j < |run| && steps[i].Exit?
    requires Running(run[i], steps[i].a) && Running(run[i], b) && b != steps[i].a
    ensures End(run[i].actors[b], steps[i].a) <= 1
    ensures forall q :: Fired(run[i].mail, ExitMsg(steps[i].a, b, q)) == 0
    ensures forall q :: Fired(run[j].mail, ExitMsg(steps[i].a, b, q)) ==
                        if q == steps[i].r then End(run[i].actors[b], steps[i].a) else 0
  {
    RunInv(run, steps, i);
    assert Pair(run[i], steps[i].a, b);
    forall q ensures Fired(run[i].mail, ExitMsg(steps[i].a, b, q)) == 0 {
      assert !Known(run[i].mail, ExitMsg(steps[i].a, b, q));
    }
    forall q ensures Fired(run[j].mail, ExitMsg(steps[i].a, b, q)) ==
                     if q == steps[i].r then End(run[i].actors[b], steps[i].a) else 0 {
      FiredOnExit(run, steps, i, j, b, q);
    }
  }

  // ----- the operations of an actor object, without interference -----

  // The object is the actor of the same id, and no operation holds its lock.
  ghost predicate Shows(s: State, o: AbstractActor)
    reads o
  {
    o.addr in s.actors && s.actors[o.addr] == Actor(o.reason, o.attachables, Idle)
  }

  // A link on two objects is the run of its three steps.
  method LinkObjects(a: AbstractActor, b: AbstractActor, ghost s: State)
    returns (ok: bool, ghost run: seq<State>, ghost steps: seq<Step>)
    requires a != b && a.addr != b.addr && Shows(s, a) && Shows(s, b)
    modifies a`attachables, a`refusals, b`attachables, b`refusals
    ensures IsRun(run, steps) && run[0] == s && Shows(run[|run| - 1], a) && Shows(run[|run| - 1], b)
    ensures steps != [] && steps[0] == LinkBegin(a.addr, b.addr)
  {
    ok := a.EstablishLink(b);
    steps := [LinkBegin(a.addr, b.addr)];
    run := [s, Next(s, steps[0])];
    if a.reason == NOT_EXITED {
      run, steps := Extend(run, steps, LinkBack(a.addr));
      if ok {
        run, steps := Extend(run, steps, LinkEnd(a.addr));
      }
    }
  }

  method UnlinkObjects(a: AbstractActor, b: AbstractActor, ghost s: State)
    returns (ok: bool, ghost run: seq<State>, ghost steps: seq<Step>)
    requires a != b && a.addr != b.addr && Shows(s, a) && Shows(s, b)
    modifies a`attachables, b`attachables
    ensures IsRun(run, steps) && run[0] == s && Shows(run[|run| - 1], a) && Shows(run[|run| - 1], b)
    ensures steps != [] && steps[0] == UnlinkBegin(a.addr, b.addr)
  {
    ok := a.RemoveLink(b);
    steps := [UnlinkBegin(a.addr, b.addr)];
    run := [s, Next(s, steps[0])];
    if ok {
      run, steps := Extend(run, steps, UnlinkBack(a.addr));
    } else {
      NothingDetached(old(a.attachables), LinkTo(b.addr));
    }
  }

  lemma Extend(run: seq<State>, steps: seq<Step>, step: Step) returns (run': seq<State>, steps': seq<Step>)
    requires IsRun(run, steps) && Enabled(run[|run| - 1], step)
    ensures run' == run + [Next(run[|run| - 1], step)] && steps' == steps + [step]
    ensures IsRun(run', steps')
  {
    run', steps' := run + [Next(run[|run| - 1], step)], steps + [step];
    forall i: nat | i < |steps'| ensures StepAt(run', steps', i) {
      assert i < |steps| ==> StepAt(run, steps, i);
    }
  }

  lemma {:induction false} NothingDetached(list: seq<Attachable>, what: Attachable)
    requires what !in list
    ensures Detached(list, what, true) == list
  {
    if list != [] {
      NothingDetached(list[1..], what);
    }
  }
}
