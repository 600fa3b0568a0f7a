/**
 Synchronous requests of an event-based actor: the list of pending responses with their handlers,
 the messages that wait in the mailbox or in its cache of skipped messages, and the loop that
 offers them to the handler of the response awaited first.
 */
module SyncRequests {
  import opened MailboxElements

  const NORMAL_EXIT: nat := 0x1
  const KILL: nat := 0x11

  // ----- the actor as a value -----

  // The handler of a request: not given yet, or given, with a timeout or without.
  datatype Handler = NoHandler | Given(timed: bool)

  // An entry of the list of pending responses.
  datatype Entry = Entry(mid: Mid, handler: Handler)

  // A completed request: the message that completed it, and whether its own handler was run.
  datatype Ran = Ran(mid: Mid, msg: Msg, own: bool)

  // `arrived` records all messages in the order of their arrival, `ran` the completed requests,
  // `sent` the ids of the requests as they were sent, `inTime` the requests for which a handler
  // was given before they were completed, and whether the last one has a timeout; `done` says that
  // the actor has ended.
  datatype State = State(
    last: nat,
    pending: seq<Entry>,
    inbox: seq<Msg>,
    cache: seq<Msg>,
    done: bool,
    arrived: seq<Msg>,
    ran: seq<Ran>,
    sent: seq<Mid>,
    inTime: map<nat, bool>)

  // What an actor does about requests: send one, or give the handler for request number k, with a
  // timeout or without. Returning the handle of a request from a handler is the latter, since it
  // wraps the handler given before in one without a timeout.
  datatype Op = Request(high: bool) | Then(k: nat, timed: bool)

  // What the actor does with a message: whether its behaviour matches, what the handler does
  // about requests, whether it ends the actor, whether exit messages are trapped, and whether a
  // behaviour timeout is the active one.
  datatype Effect = Effect(matches: bool, ops: seq<Op>, quits: bool, trapsExit: bool, active: bool)

  type Handlers = (State, Msg) -> Effect

  datatype Outcome = Dropped | Success | Skipped

  predicate Has(pending: seq<Entry>, mid: Mid) {
    exists e :: e in pending && e.mid == mid
  }

  // How often a request was completed.
  function Runs(ran: seq<Ran>, h: Mid): nat {
    if ran == [] then 0 else (if ran[0].mid == h then 1 else 0) + Runs(ran[1..], h)
  }

  function Issue(s: State, high: bool): State {
    s.(last := s.last + 1,
       pending := [Entry(Awaiting(s.last + 1), NoHandler)] + s.pending,
       sent := s.sent + [RequestId(s.last + 1, high)])
  }

  // The first entry with the id gets the handler.
  function Install(pending: seq<Entry>, mid: Mid, timed: bool): seq<Entry> {
    if pending == [] then []
    else if pending[0].mid == mid then [Entry(mid, Given(timed))] + pending[1..]
    else [pending[0]] + Install(pending[1..], mid, timed)
  }

  // set_response_handler looks for the id that sync_send returned: that of the request as it was
  // sent, with the response flag.
  function SetHandler(s: State, k: nat, timed: bool): State {
    if 1 <= k <= |s.sent| then
      s.(pending := Install(s.pending, ResponseId(s.sent[k - 1]), timed),
         inTime := if Has(s.pending, Awaiting(k)) && Runs(s.ran, Awaiting(k)) == 0 then s.inTime[k := timed]
                   else s.inTime)
    else s
  }

  function Do(s: State, op: Op): State {
    match op
    case Request(high) => Issue(s, high)
    case Then(k, timed) => SetHandler(s, k, timed)
  }

  function DoAll(s: State, ops: seq<Op>): State
    decreases |ops|
  {
    if ops == [] then s else DoAll(Do(s, ops[0]), ops[1..])
  }

  // remove_if on the pending list.
  function Without(pending: seq<Entry>, mid: Mid): seq<Entry> {
    if pending == [] then []
    else if pending[0].mid == mid then Without(pending[1..], mid)
    else [pending[0]] + Without(pending[1..], mid)
  }

  function Arrive(s: State, mid: Mid): State {
    s.(pending := Without(s.pending, mid))
  }

  function Record(s: State, m: Msg, own: bool): State {
    s.(ran := s.ran + [Ran(m.mid, m, own)])
  }

  function Quit(s: State, quits: bool): State {
    s.(done := s.done || quits)
  }

  // Is the handler run by the message? A timeout needs a handler with a timeout.
  predicate IsRunBy(handler: Handler, m: Msg) {
    if m.body.SyncTimeout? then handler == Given(true) else handler.Given?
  }

  // A response or its timeout completes the first pending request; a timeout without a handler for
  // it does nothing else.
  function Complete(s: State, m: Msg, e: Effect): State
    requires s.pending != []
  {
    if m.body.SyncTimeout? && !IsRunBy(s.pending[0].handler, m) then Arrive(Record(s, m, false), m.mid)
    else Quit(Arrive(DoAll(Record(s, m, IsRunBy(s.pending[0].handler, m)), e.ops), m.mid), e.quits)
  }

  function Handle(s: State, e: Effect): State {
    Quit(DoAll(s, e.ops), e.quits)
  }

  // Does an exit message end the actor, or is it dropped?
  predicate EndsActor(m: Msg, e: Effect) {
    m.body.ExitSignal? && (m.body.reason == KILL || (!e.trapsExit && m.body.reason != NORMAL_EXIT))
  }

  predicate DropsExit(m: Msg, e: Effect) {
    m.body.ExitSignal? && !e.trapsExit && m.body.reason == NORMAL_EXIT
  }

  // invoke_message for a message that was taken out of its queue.
  function Offer(f: Handlers, s: State, m: Msg): (Outcome, State) {
    if m.mid.response then
      if !Has(s.pending, m.mid) then (Dropped, s)
      else if s.pending == [] || m.mid != s.pending[0].mid then (Skipped, s)
      else (Success, Complete(s, m, f(s, m)))
    else if m.body.System? || DropsExit(m, f(s, m)) then (Dropped, s)
    else if EndsActor(m, f(s, m)) then (Success, Quit(s, true))
    else if m.body.Timeout? then
      if f(s, m).active && s.pending == [] then (Success, Handle(s, f(s, m))) else (Dropped, s)
    else if s.pending == [] && f(s, m).matches then (Success, Handle(s, f(s, m)))
    else (Skipped, s)
  }

  function Remove(s: seq<Msg>, i: nat): seq<Msg>
    requires i < |s|
  {
    s[..i] + s[i + 1..]
  }

  function WithoutCached(s: State, i: nat): State
    requires i < |s.cache|
  {
    s.(cache := Remove(s.cache, i))
  }

  // One pass over the cache from place i on: it ends with the first success.
  function Scan(f: Handlers, s: State, i: nat): (bool, State)
    requires i <= |s.cache|
    decreases |s.cache| - i
  {
    if i == |s.cache| then (false, s)
    else if Offer(f, WithoutCached(s, i), s.cache[i]).0 == Skipped then Scan(f, s, i + 1)
    else if Offer(f, WithoutCached(s, i), s.cache[i]).0 == Dropped then Scan(f, WithoutCached(s, i), i)
    else (true, Offer(f, WithoutCached(s, i), s.cache[i]).1)
  }

  lemma {:induction false} DoAllKeeps(s: State, ops: seq<Op>)
    ensures var t := DoAll(s, ops);
            && t.inbox == s.inbox && t.cache == s.cache && t.done == s.done
            && t.arrived == s.arrived && t.ran == s.ran && s.last <= t.last
    decreases |ops|
  {
    if ops != [] {
      DoAllKeeps(Do(s, ops[0]), ops[1..]);
    }
  }

  lemma OfferKeeps(f: Handlers, s: State, m: Msg)
    ensures Offer(f, s, m).1.inbox == s.inbox && Offer(f, s, m).1.cache == s.cache
        && Offer(f, s, m).1.arrived == s.arrived
  {
    DoAllKeeps(s, f(s, m).ops);
    if s.pending != [] {
      DoAllKeeps(Record(s, m, IsRunBy(s.pending[0].handler, m)), f(s, m).ops);
    }
  }

  lemma {:induction false} ScanShrinks(f: Handlers, s: State, i: nat)
    requires i <= |s.cache|
    ensures |Scan(f, s, i).1.cache| <= |s.cache|
    ensures Scan(f, s, i).0 ==> |Scan(f, s, i).1.cache| < |s.cache|
    decreases |s.cache| - i
  {
    if i < |s.cache| {
      var t := WithoutCached(s, i);
      OfferKeeps(f, t, s.cache[i]);
      match Offer(f, t, s.cache[i]).0
      case Skipped => ScanShrinks(f, s, i + 1);
      case Dropped => ScanShrinks(f, t, i);
      case Success =>
    }
  }

  // Passes over the cache until one finds nothing or the actor has ended.
  function Settle(f: Handlers, s: State): State
    decreases |s.cache|
  {
    ScanShrinks(f, s, 0);
    if s.done then s
    else if Scan(f, s, 0).0 then Settle(f, Scan(f, s, 0).1)
    else Scan(f, s, 0).1
  }

  // The end of one round of the loop in resume: on success go on with the cache; a skipped
  // message goes to the cache, which becomes `cache`.
  function Finish(f: Handlers, offered: (Outcome, State), cache: seq<Msg>): State {
    match offered.0
    case Success => Settle(f, offered.1)
    case Dropped => offered.1
    case Skipped => offered.1.(cache := cache)
  }

  function Taken(s: State, inbox: seq<Msg>): State {
    s.(inbox := inbox)
  }

  // ----- messages with one id -----

  function One(m: Msg, h: Mid): seq<Msg> {
    if m.mid == h then [m] else []
  }

  function OfMid(s: seq<Msg>, h: Mid): seq<Msg> {
    if s == [] then [] else One(s[0], h) + OfMid(s[1..], h)
  }

  // A mailbox may mix messages with different ids, but keeps the order of those with the same id
  // when it takes one out
  ghost predicate TakesInOrder(inbox: seq<Msg>, m: Msg, inbox': seq<Msg>) {
    forall h :: OfMid(inbox, h) == One(m, h) + OfMid(inbox', h)
  }

  // and when it puts one into its cache.
  ghost predicate PutsInOrder(cache: seq<Msg>, m: Msg, cache': seq<Msg>) {
    forall h :: OfMid(cache', h) == OfMid(cache, h) + One(m, h)
  }

  // ----- runs -----

  datatype Step =
    | Act(op: Op)      // outside of a handler, for example while the actor is set up
    | Deliver(m: Msg)  // a response, a timeout or any other message
    | Round(m: Msg, inbox: seq<Msg>, cache: seq<Msg>)

  // A response or timeout is delivered only for a request that was issued, with any flags.
  ghost predicate Enabled(s: State, step: Step) {
    match step
    case Act(_) => !s.done
    case Deliver(m) => m.mid.response ==> 1 <= m.mid.id <= s.last
    case Round(m, inbox, cache) => !s.done && TakesInOrder(s.inbox, m, inbox) && PutsInOrder(s.cache, m, cache)
  }

  function Next(f: Handlers, s: State, step: Step): State {
    match step
    case Act(op) => Do(s, op)
    case Deliver(m) => s.(inbox := s.inbox + [m], arrived := s.arrived + [m])
    case Round(m, inbox, cache) => Finish(f, Offer(f, Taken(s, inbox), m), cache)
  }

  ghost predicate IsPath(f: Handlers, run: seq<State>, steps: seq<Step>) {
    && |run| == |steps| + 1
    && forall i :: 0 <= i < |steps| ==> Enabled(run[i], steps[i]) && run[i + 1] == Next(f, run[i], steps[i])
  }

  ghost predicate IsRun(f: Handlers, run: seq<State>, steps: seq<Step>) {
    IsPath(f, run, steps) && run[0] == State(0, [], [], [], false, [], [], [], map[])
  }

  lemma Assoc(a: seq<Msg>, b: seq<Msg>, c: seq<Msg>)
    ensures (a + b) + c == a + (b + c)
  {
  }

  lemma {:induction false} OfMidConcat(a: seq<Msg>, b: seq<Msg>, h: Mid)
    ensures OfMid(a + b, h) == OfMid(a, h) + OfMid(b, h)
  {
    if a == [] {
      assert a + b == b;
    } else {
      OfMidConcat(a[1..], b, h);
      assert (a + b)[0] == a[0] && (a + b)[1..] == a[1..] + b;
      Assoc(One(a[0], h), OfMid(a[1..], h), OfMid(b, h));
    }
  }

  // Nothing has the id exactly when none of the messages has it.
  lemma {:induction false} OfMidNone(s: seq<Msg>, h: Mid)
    ensures OfMid(s, h) == [] <==> forall i :: 0 <= i < |s| ==> s[i].mid != h
    ensures OfMid(s, h) != [] ==> OfMid(s, h)[0] in s && OfMid(s, h)[0].mid == h
  {
    if s != [] {
      OfMidNone(s[1..], h);
      if s[0].mid == h {
        assert OfMid(s, h)[0] == s[0];
      }
    }
  }

  lemma {:induction false} OfMidMembers(s: seq<Msg>, h: Mid, m: Msg)
    ensures m in OfMid(s, h) <==> m in s && m.mid == h
  {
    if s != [] {
      OfMidMembers(s[1..], h, m);
    }
  }

  lemma OfMidAt(s: seq<Msg>, k: nat, h: Mid)
    requires k < |s|
    ensures OfMid(s, h) == OfMid(s[..k], h) + (One(s[k], h) + OfMid(s[k + 1..], h))
  {
    assert s == s[..k] + s[k..];
    OfMidConcat(s[..k], s[k..], h);
    assert s[k..][1..] == s[k + 1..];
  }

  lemma OfMidRemove(s: seq<Msg>, k: nat, h: Mid)
    requires k < |s| && s[k].mid != h
    ensures OfMid(Remove(s, k), h) == OfMid(s, h)
  {
    OfMidAt(s, k, h);
    OfMidConcat(s[..k], s[k + 1..], h);
    assert [] + OfMid(s[k + 1..], h) == OfMid(s[k + 1..], h);
  }

  lemma OfMidFirst(s: seq<Msg>, k: nat, h: Mid)
    requires k < |s| && s[k].mid == h && forall i :: 0 <= i < k ==> s[i].mid != h
    ensures OfMid(s, h) != [] && OfMid(s, h)[0] == s[k]
  {
    OfMidAt(s, k, h);
    OfMidNone(s[..k], h);
    assert [] + ([s[k]] + OfMid(s[k + 1..], h)) == [s[k]] + OfMid(s[k + 1..], h);
  }

  // ----- the invariant -----

  // The requests are numbered in the order in which they were sent,
  ghost predicate SentNumbered(s: State) {
    && |s.sent| == s.last && (forall i :: 0 <= i < |s.sent| ==> s.sent[i] == RequestId(i + 1, s.sent[i].high))
    && forall k :: k in s.inTime ==> k <= s.last
  }

  // and the list of pending ones has the youngest in front.
  ghost predicate Numbered(pending: seq<Entry>, last: nat) {
    (forall e :: e in pending ==> e.mid == Awaiting(e.mid.id) && 1 <= e.mid.id <= last) && Descending(pending)
  }

  ghost predicate Descending(pending: seq<Entry>) {
    forall i, j :: 0 <= i < j < |pending| ==> pending[i].mid.id > pending[j].mid.id
  }

  predicate OnceAt(s: State, k: nat) {
    Runs(s.ran, Awaiting(k)) + (if Has(s.pending, Awaiting(k)) then 1 else 0) == if k <= s.last then 1 else 0
  }

  // Every request but `x` is either pending or was completed once.
  ghost predicate Once(s: State, x: Mid) {
    forall k: nat | k >= 1 && Awaiting(k) != x :: OnceAt(s, k)
  }

  ghost predicate Known(s: State) {
    && (forall m :: m in s.arrived && m.mid.response ==> 1 <= m.mid.id <= s.last)
    && (forall m :: m in s.inbox ==> m in s.arrived)
    && (forall m :: m in s.cache ==> m in s.arrived)
  }

  predicate FirstFor(s: State, h: Mid, m: Msg) {
    m.mid == h && OfMid(s.arrived, h) != [] && OfMid(s.arrived, h)[0] == m
  }

  // A handler counts for request k when it was given in time, and the request has normal priority.
  predicate Counts(s: State, k: nat) {
    k in s.inTime && 1 <= k <= |s.sent| && !s.sent[k - 1].high
  }

  // For a timeout the handler given last has to have one.
  predicate CountsFor(s: State, k: nat, m: Msg) {
    Counts(s, k) && (m.body.SyncTimeout? ==> s.inTime[k])
  }

  predicate RanRight(s: State, e: Ran) {
    && FirstFor(s, e.mid, e.msg) && e.mid == Awaiting(e.mid.id) && 1 <= e.mid.id <= s.last
    && (e.own <==> CountsFor(s, e.mid.id, e.msg))
  }

  // Every request was completed by the message with its own id that arrived first, and its own
  // handler was run exactly when it counts.
  ghost predicate AllRanRight(s: State) {
    forall e :: e in s.ran ==> RanRight(s, e)
  }

  predicate EntryRight(s: State, e: Entry) {
    e.handler == if Counts(s, e.mid.id) then Given(s.inTime[e.mid.id]) else NoHandler
  }

  ghost predicate Entries(s: State, x: Mid) {
    forall e :: e in s.pending && e.mid != x ==> EntryRight(s, e)
  }

  predicate IntactAt(s: State, h: Mid) {
    OfMid(s.cache, h) + OfMid(s.inbox, h) == OfMid(s.arrived, h)
  }

  // Of the messages for a pending request other than `y` none is lost, and they are in order.
  ghost predicate Intact(s: State, y: Mid) {
    forall h :: Has(s.pending, h) && h != y ==> IntactAt(s, h)
  }

  ghost predicate Core(s: State, x: Mid, y: Mid) {
    && SentNumbered(s) && Numbered(s.pending, s.last) && Once(s, x) && Known(s) && AllRanRight(s) && Entries(s, x)
    && Intact(s, y)
  }

  // No message for the awaited response is left behind in the cache.
  ghost predicate Settled(s: State) {
    s.pending != [] ==> forall i :: 0 <= i < |s.cache| ==> s.cache[i].mid != s.pending[0].mid
  }

  ghost predicate Inv(s: State) {
    Core(s, NO_MID, NO_MID) && (!s.done ==> Settled(s))
  }

  // ----- requests -----

  lemma NewRequestIsFresh(s: State)
    requires Known(s)
    ensures IntactAt(s, Awaiting(s.last + 1))
  {
    var h := Awaiting(s.last + 1);
    OfMidNone(s.arrived, h);
    OfMidNone(s.cache, h);
    OfMidNone(s.inbox, h);
    assert forall m :: m in s.arrived ==> m.mid != h;
    assert forall i :: 0 <= i < |s.cache| ==> s.cache[i] in s.cache;
    assert forall i :: 0 <= i < |s.inbox| ==> s.inbox[i] in s.inbox;
  }

  lemma HasCons(e: Entry, pending: seq<Entry>, h: Mid)
    ensures Has([e] + pending, h) <==> e.mid == h || Has(pending, h)
  {
    assert e in [e] + pending;
    forall d | d in pending ensures d in [e] + pending {
    }
  }

  lemma IssueLists(s: State, high: bool, x: Mid)
    requires SentNumbered(s) && Numbered(s.pending, s.last) && Once(s, x)
    ensures SentNumbered(Issue(s, high)) && Numbered(Issue(s, high).pending, Issue(s, high).last)
        && Once(Issue(s, high), x)
  {
    var t := Issue(s, high);
    forall k: nat | k >= 1 && Awaiting(k) != x ensures OnceAt(t, k) {
      assert OnceAt(s, k);
      HasCons(t.pending[0], s.pending, Awaiting(k));
    }
    forall e | e in t.pending ensures e.mid == Awaiting(e.mid.id) && 1 <= e.mid.id <= t.last {
      assert e == t.pending[0] || e in s.pending;
    }
    ConsDescending(t.pending[0], s.pending);
  }

  lemma CountsStays(s: State, high: bool, k: nat)
    requires SentNumbered(s) && k <= s.last
    ensures Counts(Issue(s, high), k) <==> Counts(s, k)
  {
  }

  lemma IssueRest(s: State, high: bool, x: Mid, y: Mid)
    requires Core(s, x, y)
    ensures Known(Issue(s, high)) && AllRanRight(Issue(s, high)) && Entries(Issue(s, high), x)
        && Intact(Issue(s, high), y)
  {
    var t := Issue(s, high);
    forall e | e in t.ran ensures RanRight(t, e) {
      assert RanRight(s, e);
      CountsStays(s, high, e.mid.id);
    }
    forall e | e in t.pending && e.mid != x ensures EntryRight(t, e) {
      if e in s.pending {
        assert EntryRight(s, e);
        CountsStays(s, high, e.mid.id);
      }
    }
    NewRequestIsFresh(s);
    forall h | Has(t.pending, h) && h != y ensures IntactAt(t, h) {
      HasCons(t.pending[0], s.pending, h);
      assert Has(s.pending, h) ==> IntactAt(s, h);
    }
  }

  // ----- handlers are installed -----

  predicate FirstWith(pending: seq<Entry>, mid: Mid, i: nat)
    requires i < |pending|
  {
    pending[i].mid == mid && forall j :: 0 <= j < i ==> pending[j].mid != mid
  }

  lemma FirstInTail(pending: seq<Entry>, mid: Mid, i: nat)
    requires 0 < i < |pending| && pending[0].mid != mid
    ensures FirstWith(pending[1..], mid, i - 1) <==> FirstWith(pending, mid, i)
  {
    assert forall j :: 0 <= j < |pending| - 1 ==> pending[1..][j] == pending[j + 1];
    if FirstWith(pending[1..], mid, i - 1) {
      forall j | 0 <= j < i ensures pending[j].mid != mid {
        if j > 0 {
          assert pending[1..][j - 1].mid != mid;
        }
      }
    }
  }

  lemma {:induction false} InstallAt(pending: seq<Entry>, mid: Mid, timed: bool, i: nat)
    requires i < |pending|
    ensures |Install(pending, mid, timed)| == |pending|
    ensures Install(pending, mid, timed)[i] ==
            if FirstWith(pending, mid, i) then Entry(mid, Given(timed)) else pending[i]
  {
    if pending[0].mid != mid && |pending| > 1 {
      InstallAt(pending[1..], mid, timed, if i > 0 then i - 1 else 0);
      if i > 0 {
        FirstInTail(pending, mid, i);
      }
    } else if pending[0].mid != mid {
      assert pending[1..] == [];
    }
  }

  lemma InstallEffect(pending: seq<Entry>, mid: Mid, timed: bool)
    ensures |Install(pending, mid, timed)| == |pending|
    ensures forall i :: 0 <= i < |pending| ==>
              Install(pending, mid, timed)[i] ==
              if FirstWith(pending, mid, i) then Entry(mid, Given(timed)) else pending[i]
  {
    if pending != [] {
      InstallAt(pending, mid, timed, 0);
      forall i: nat | i < |pending|
        ensures Install(pending, mid, timed)[i] ==
                if FirstWith(pending, mid, i) then Entry(mid, Given(timed)) else pending[i]
      {
        InstallAt(pending, mid, timed, i);
      }
    }
  }

  lemma InstallMids(pending: seq<Entry>, mid: Mid, timed: bool, h: Mid)
    ensures Has(Install(pending, mid, timed), h) <==> Has(pending, h)
  {
    InstallEffect(pending, mid, timed);
    var p := Install(pending, mid, timed);
    if e :| e in p && e.mid == h {
      var i :| 0 <= i < |p| && p[i] == e;
      assert pending[i] in pending && pending[i].mid == h;
    }
    if e :| e in pending && e.mid == h {
      var i :| 0 <= i < |pending| && pending[i] == e;
      assert p[i] in p && p[i].mid == h;
    }
  }

  // For a request of normal priority the handler is found, for one of high priority it is not.
  lemma InstallFor(s: State, k: nat, timed: bool, e: Entry) returns (d: Entry)
    requires SentNumbered(s) && Numbered(s.pending, s.last) && 1 <= k <= s.last
    requires e in Install(s.pending, ResponseId(s.sent[k - 1]), timed)
    ensures d in s.pending && d.mid == e.mid
    ensures e.handler == if e.mid == Awaiting(k) && !s.sent[k - 1].high then Given(timed) else d.handler
  {
    var mid := ResponseId(s.sent[k - 1]);
    InstallEffect(s.pending, mid, timed);
    var i :| 0 <= i < |s.pending| && Install(s.pending, mid, timed)[i] == e;
    d := s.pending[i];
    assert mid == Mid(k, true, false, s.sent[k - 1].high);
    assert forall j :: 0 <= j < i ==> s.pending[j].mid.id > d.mid.id;
  }

  lemma SetHandlerNumbered(s: State, k: nat, timed: bool)
    requires SentNumbered(s) && Numbered(s.pending, s.last)
    ensures SentNumbered(SetHandler(s, k, timed))
        && Numbered(SetHandler(s, k, timed).pending, SetHandler(s, k, timed).last)
  {
    if 1 <= k <= |s.sent| {
      var t := SetHandler(s, k, timed);
      InstallEffect(s.pending, ResponseId(s.sent[k - 1]), timed);
      forall e | e in t.pending ensures e.mid == Awaiting(e.mid.id) && 1 <= e.mid.id <= t.last {
        var d := InstallFor(s, k, timed, e);
      }
    }
  }

  lemma SetHandlerOnce(s: State, k: nat, timed: bool, x: Mid)
    requires Once(s, x)
    ensures Once(SetHandler(s, k, timed), x)
  {
    if 1 <= k <= |s.sent| {
      forall i: nat | i >= 1 && Awaiting(i) != x ensures OnceAt(SetHandler(s, k, timed), i) {
        assert OnceAt(s, i);
        InstallMids(s.pending, ResponseId(s.sent[k - 1]), timed, Awaiting(i));
      }
    }
  }

  lemma {:induction false} RunsMember(ran: seq<Ran>, e: Ran)
    requires e in ran
    ensures Runs(ran, e.mid) > 0
  {
    if ran[0] != e {
      RunsMember(ran[1..], e);
    }
  }

  // Giving a handler changes what counts for its own request only, and only before completion.
  lemma CountsAfter(s: State, k: nat, timed: bool, i: nat)
    requires 1 <= k <= |s.sent|
    ensures var t := SetHandler(s, k, timed);
            if i == k && Has(s.pending, Awaiting(k)) && Runs(s.ran, Awaiting(k)) == 0 then
              k in t.inTime && t.inTime[k] == timed && (Counts(t, k) <==> !s.sent[k - 1].high)
            else
              (Counts(t, i) <==> Counts(s, i)) && (i in s.inTime ==> i in t.inTime && t.inTime[i] == s.inTime[i])
  {
  }

  lemma SetHandlerRan(s: State, k: nat, timed: bool)
    requires AllRanRight(s)
    ensures AllRanRight(SetHandler(s, k, timed))
  {
    if 1 <= k <= |s.sent| {
      forall e | e in s.ran ensures RanRight(SetHandler(s, k, timed), e) {
        assert RanRight(s, e);
        RunsMember(s.ran, e);
        CountsAfter(s, k, timed, e.mid.id);
      }
    }
  }

  lemma SetHandlerEntries(s: State, k: nat, timed: bool, x: Mid)
    requires SentNumbered(s) && Numbered(s.pending, s.last) && Once(s, x) && Entries(s, x)
    ensures Entries(SetHandler(s, k, timed), x)
  {
    if 1 <= k <= |s.sent| {
      var t := SetHandler(s, k, timed);
      forall e | e in t.pending && e.mid != x ensures EntryRight(t, e) {
        var d := InstallFor(s, k, timed, e);
        assert EntryRight(s, d);
        CountsAfter(s, k, timed, e.mid.id);
        assert OnceAt(s, e.mid.id);
        assert Has(s.pending, d.mid);
      }
    }
  }

  lemma SetHandlerIntact(s: State, k: nat, timed: bool, y: Mid)
    requires Intact(s, y)
    ensures Intact(SetHandler(s, k, timed), y)
  {
    if 1 <= k <= |s.sent| {
      forall h | Has(SetHandler(s, k, timed).pending, h) && h != y ensures IntactAt(SetHandler(s, k, timed), h) {
        InstallMids(s.pending, ResponseId(s.sent[k - 1]), timed, h);
        assert IntactAt(s, h);
      }
    }
  }

  lemma DoCore(s: State, op: Op, x: Mid, y: Mid)
    requires Core(s, x, y)
    ensures Core(Do(s, op), x, y)
  {
    match op
    case Request(high) =>
      IssueLists(s, high, x);
      IssueRest(s, high, x, y);
    case Then(k, timed) =>
      SetHandlerNumbered(s, k, timed);
      SetHandlerOnce(s, k, timed, x);
      SetHandlerRan(s, k, timed);
      SetHandlerEntries(s, k, timed, x);
      SetHandlerIntact(s, k, timed, y);
  }

  lemma {:induction false} DoAllCore(s: State, ops: seq<Op>, x: Mid, y: Mid)
    requires Core(s, x, y)
    ensures Core(DoAll(s, ops), x, y)
    decreases |ops|
  {
    if ops != [] {
      DoCore(s, ops[0], x, y);
      DoAllCore(Do(s, ops[0]), ops[1..], x, y);
    }
  }

  // ----- requests are completed -----

  lemma {:induction false} WithoutMembers(pending: seq<Entry>, mid: Mid, e: Entry)
    ensures e in Without(pending, mid) <==> e in pending && e.mid != mid
  {
    if pending != [] {
      WithoutMembers(pending[1..], mid, e);
    }
  }

  lemma ConsDescending(e: Entry, pending: seq<Entry>)
    requires Descending(pending) && forall d :: d in pending ==> e.mid.id > d.mid.id
    ensures Descending([e] + pending)
  {
  }

  lemma {:induction false} WithoutDescending(pending: seq<Entry>, mid: Mid)
    requires Descending(pending)
    ensures Descending(Without(pending, mid))
  {
    if pending != [] {
      WithoutDescending(pending[1..], mid);
      forall d | d in Without(pending[1..], mid) ensures pending[0].mid.id > d.mid.id {
        WithoutMembers(pending[1..], mid, d);
      }
      ConsDescending(pending[0], Without(pending[1..], mid));
    }
  }

  lemma WithoutNumbered(pending: seq<Entry>, mid: Mid, last: nat)
    requires Numbered(pending, last)
    ensures Numbered(Without(pending, mid), last)
  {
    WithoutDescending(pending, mid);
    forall e | e in Without(pending, mid) ensures e in pending {
      WithoutMembers(pending, mid, e);
    }
  }

  lemma WithoutHas(pending: seq<Entry>, mid: Mid, h: Mid)
    ensures Has(Without(pending, mid), h) <==> Has(pending, h) && h != mid
  {
    forall e: Entry ensures e in Without(pending, mid) <==> e in pending && e.mid != mid {
      WithoutMembers(pending, mid, e);
    }
  }

  lemma ArriveCore(s: State, h: Mid)
    requires Core(s, h, h) && Runs(s.ran, h) == 1 && 1 <= h.id <= s.last
    ensures Core(Arrive(s, h), NO_MID, NO_MID)
  {
    var t := Arrive(s, h);
    WithoutNumbered(s.pending, h, s.last);
    forall k: nat | k >= 1 && Awaiting(k) != NO_MID ensures OnceAt(t, k) {
      WithoutHas(s.pending, h, Awaiting(k));
      assert Awaiting(k) != h ==> OnceAt(s, k);
    }
    forall g | Has(t.pending, g) && g != NO_MID ensures IntactAt(t, g) {
      WithoutHas(s.pending, h, g);
      assert IntactAt(s, g);
    }
    forall e | e in t.ran ensures RanRight(t, e) {
      assert RanRight(s, e);
    }
    forall e | e in t.pending && e.mid != NO_MID ensures EntryRight(t, e) {
      WithoutMembers(s.pending, h, e);
      assert EntryRight(s, e);
    }
  }

  lemma {:induction false} RunsAppend(ran: seq<Ran>, e: Ran, h: Mid)
    ensures Runs(ran + [e], h) == Runs(ran, h) + if e.mid == h then 1 else 0
  {
    if ran == [] {
      assert ran + [e] == [e] && [e][1..] == [];
    } else {
      RunsAppend(ran[1..], e, h);
      assert (ran + [e])[0] == ran[0] && (ran + [e])[1..] == ran[1..] + [e];
    }
  }

  lemma RecordRan(s: State, m: Msg, own: bool)
    requires AllRanRight(s) && RanRight(s, Ran(m.mid, m, own))
    ensures AllRanRight(Record(s, m, own))
  {
    forall e | e in Record(s, m, own).ran ensures RanRight(Record(s, m, own), e) {
      assert e in s.ran ==> RanRight(s, e);
    }
  }

  lemma RecordOnce(s: State, m: Msg, own: bool)
    requires Numbered(s.pending, s.last) && Once(s, NO_MID) && Has(s.pending, m.mid)
    ensures Once(Record(s, m, own), m.mid) && Runs(Record(s, m, own).ran, m.mid) == 1
    ensures m.mid == Awaiting(m.mid.id) && 1 <= m.mid.id <= s.last
  {
    var t := Record(s, m, own);
    assert OnceAt(s, m.mid.id);
    RunsAppend(s.ran, Ran(m.mid, m, own), m.mid);
    forall k: nat | k >= 1 && Awaiting(k) != m.mid ensures OnceAt(t, k) {
      assert OnceAt(s, k);
      RunsAppend(s.ran, Ran(m.mid, m, own), Awaiting(k));
    }
  }

  lemma RecordCore(s: State, m: Msg)
    requires Core(s, NO_MID, m.mid) && s.pending != [] && s.pending[0].mid == m.mid && FirstFor(s, m.mid, m)
    ensures var t := Record(s, m, IsRunBy(s.pending[0].handler, m));
            Core(t, m.mid, m.mid) && Runs(t.ran, m.mid) == 1 && 1 <= m.mid.id <= t.last
  {
    var own := IsRunBy(s.pending[0].handler, m);
    var t := Record(s, m, own);
    assert s.pending[0] in s.pending && EntryRight(s, s.pending[0]);
    RecordOnce(s, m, own);
    RecordRan(s, m, own);
    forall e | e in t.pending && e.mid != m.mid ensures EntryRight(t, e) {
      assert EntryRight(s, e);
    }
    forall h | Has(t.pending, h) && h != m.mid ensures IntactAt(t, h) {
      assert IntactAt(s, h);
    }
  }

  lemma QuitCore(s: State, quits: bool)
    requires Core(s, NO_MID, NO_MID)
    ensures Core(Quit(s, quits), NO_MID, NO_MID)
  {
    var t := Quit(s, quits);
    forall k: nat | k >= 1 && Awaiting(k) != NO_MID ensures OnceAt(t, k) {
      assert OnceAt(s, k);
    }
    forall e | e in t.ran ensures RanRight(t, e) {
      assert RanRight(s, e);
    }
    forall e | e in t.pending && e.mid != NO_MID ensures EntryRight(t, e) {
      assert EntryRight(s, e);
    }
    forall h | Has(t.pending, h) && h != NO_MID ensures IntactAt(t, h) {
      assert IntactAt(s, h);
    }
  }

  lemma CompleteCore(s: State, m: Msg, e: Effect)
    requires Core(s, NO_MID, m.mid) && s.pending != [] && s.pending[0].mid == m.mid && FirstFor(s, m.mid, m)
    ensures Core(Complete(s, m, e), NO_MID, NO_MID)
  {
    var t := Record(s, m, IsRunBy(s.pending[0].handler, m));
    RecordCore(s, m);
    if m.body.SyncTimeout? && !IsRunBy(s.pending[0].handler, m) {
      ArriveCore(t, m.mid);
    } else {
      DoAllCore(t, e.ops, m.mid, m.mid);
      DoAllKeeps(t, e.ops);
      ArriveCore(DoAll(t, e.ops), m.mid);
      QuitCore(Arrive(DoAll(t, e.ops), m.mid), e.quits);
    }
  }

  lemma ForgetId(s: State, y: Mid)
    requires Core(s, NO_MID, y) && !Has(s.pending, y)
    ensures Core(s, NO_MID, NO_MID)
  {
    forall h | Has(s.pending, h) && h != NO_MID ensures IntactAt(s, h) {
    }
  }

  // A message that was dropped or handled leaves a sound state behind.
  lemma OfferCore(f: Handlers, s: State, m: Msg)
    requires Core(s, NO_MID, m.mid) && Offer(f, s, m).0 != Skipped
    requires s.pending != [] && s.pending[0].mid == m.mid ==> FirstFor(s, m.mid, m)
    ensures Core(Offer(f, s, m).1, NO_MID, NO_MID)
  {
    if Has(s.pending, m.mid) {
      CompleteCore(s, m, f(s, m));
    } else {
      ForgetId(s, m.mid);
      DoAllCore(s, f(s, m).ops, NO_MID, NO_MID);
      QuitCore(DoAll(s, f(s, m).ops), f(s, m).quits);
      QuitCore(s, true);
    }
  }

  // ----- the cache -----

  // Only the queues have changed.
  lemma Reframe(s: State, t: State, y: Mid)
    requires Core(s, NO_MID, NO_MID) && t == s.(inbox := t.inbox, cache := t.cache) && Intact(t, y)
    requires (forall m :: m in t.inbox ==> m in s.arrived) && forall m :: m in t.cache ==> m in s.arrived
    ensures Core(t, NO_MID, y)
  {
    forall k: nat | k >= 1 && Awaiting(k) != NO_MID ensures OnceAt(t, k) {
      assert OnceAt(s, k);
    }
    forall e | e in t.ran ensures RanRight(t, e) {
      assert RanRight(s, e);
    }
    forall e | e in t.pending && e.mid != NO_MID ensures EntryRight(t, e) {
      assert EntryRight(s, e);
    }
  }

  lemma Uncached(s: State, i: nat)
    requires Core(s, NO_MID, NO_MID) && i < |s.cache|
    ensures Core(WithoutCached(s, i), NO_MID, s.cache[i].mid)
  {
    var t := WithoutCached(s, i);
    forall h | Has(t.pending, h) && h != s.cache[i].mid ensures IntactAt(t, h) {
      assert IntactAt(s, h);
      OfMidRemove(s.cache, i, h);
    }
    Reframe(s, t, s.cache[i].mid);
  }

  lemma FirstCached(s: State, i: nat)
    requires Core(s, NO_MID, NO_MID) && i < |s.cache| && s.pending != [] && s.cache[i].mid == s.pending[0].mid
    requires forall k :: 0 <= k < i ==> s.cache[k].mid != s.pending[0].mid
    ensures FirstFor(WithoutCached(s, i), s.pending[0].mid, s.cache[i])
  {
    assert s.pending[0] in s.pending && Has(s.pending, s.pending[0].mid);
    assert IntactAt(s, s.pending[0].mid);
    OfMidFirst(s.cache, i, s.pending[0].mid);
  }

  predicate Passed(s: State, i: nat)
    requires i <= |s.cache|
  {
    s.pending != [] ==> forall k :: 0 <= k < i ==> s.cache[k].mid != s.pending[0].mid
  }

  lemma SkippedIsOther(f: Handlers, s: State, m: Msg)
    requires Numbered(s.pending, s.last) && Offer(f, s, m).0 == Skipped && s.pending != []
    ensures m.mid != s.pending[0].mid
  {
    assert s.pending[0] in s.pending;
  }

  // A pass that finds nothing has looked at every message.
  lemma {:induction false} ScanCore(f: Handlers, s: State, i: nat)
    requires Core(s, NO_MID, NO_MID) && i <= |s.cache| && Passed(s, i)
    ensures Core(Scan(f, s, i).1, NO_MID, NO_MID)
    ensures !Scan(f, s, i).0 ==> Settled(Scan(f, s, i).1)
    decreases |s.cache| - i
  {
    if i < |s.cache| {
      var t := WithoutCached(s, i);
      if Offer(f, t, s.cache[i]).0 == Skipped {
        if s.pending != [] {
          SkippedIsOther(f, t, s.cache[i]);
        }
        ScanCore(f, s, i + 1);
      } else {
        Uncached(s, i);
        if s.pending != [] && s.pending[0].mid == s.cache[i].mid {
          FirstCached(s, i);
        }
        OfferCore(f, t, s.cache[i]);
        if Offer(f, t, s.cache[i]).0 == Dropped {
          ScanCore(f, t, i);
        }
      }
    }
  }

  lemma {:induction false} SettleCore(f: Handlers, s: State)
    requires Core(s, NO_MID, NO_MID)
    ensures Inv(Settle(f, s))
    decreases |s.cache|
  {
    if !s.done {
      ScanCore(f, s, 0);
      ScanShrinks(f, s, 0);
      if Scan(f, s, 0).0 {
        SettleCore(f, Scan(f, s, 0).1);
      }
    }
  }

  // ----- one round -----

  lemma TakesMembers(inbox: seq<Msg>, m: Msg, inbox': seq<Msg>, x: Msg)
    requires TakesInOrder(inbox, m, inbox') && (x == m || x in inbox')
    ensures x in inbox
  {
    assert OfMid(inbox, x.mid) == One(m, x.mid) + OfMid(inbox', x.mid);
    OfMidMembers(inbox, x.mid, x);
    OfMidMembers(inbox', x.mid, x);
  }

  lemma PutsMembers(cache: seq<Msg>, m: Msg, cache': seq<Msg>, x: Msg)
    requires PutsInOrder(cache, m, cache') && x in cache'
    ensures x == m || x in cache
  {
    assert OfMid(cache', x.mid) == OfMid(cache, x.mid) + One(m, x.mid);
    OfMidMembers(cache, x.mid, x);
    OfMidMembers(cache', x.mid, x);
  }

  lemma TakenCore(s: State, m: Msg, inbox: seq<Msg>)
    requires Core(s, NO_MID, NO_MID) && TakesInOrder(s.inbox, m, inbox)
    ensures Core(Taken(s, inbox), NO_MID, m.mid)
  {
    var t := Taken(s, inbox);
    forall h | Has(t.pending, h) && h != m.mid ensures IntactAt(t, h) {
      assert IntactAt(s, h);
      assert OfMid(s.inbox, h) == [] + OfMid(inbox, h) == OfMid(inbox, h);
    }
    forall x | x in t.inbox ensures x in s.arrived {
      TakesMembers(s.inbox, m, inbox, x);
    }
    Reframe(s, t, m.mid);
  }

  lemma FirstTaken(s: State, m: Msg, inbox: seq<Msg>)
    requires Core(s, NO_MID, NO_MID) && Settled(s) && TakesInOrder(s.inbox, m, inbox)
    requires s.pending != [] && m.mid == s.pending[0].mid
    ensures FirstFor(Taken(s, inbox), m.mid, m)
  {
    assert s.pending[0] in s.pending && Has(s.pending, m.mid);
    assert IntactAt(s, m.mid);
    OfMidNone(s.cache, m.mid);
    assert OfMid(s.inbox, m.mid) == [m] + OfMid(inbox, m.mid);
    assert [] + OfMid(s.inbox, m.mid) == OfMid(s.inbox, m.mid);
  }

  lemma CachedIntact(s: State, m: Msg, inbox: seq<Msg>, cache: seq<Msg>, h: Mid)
    requires TakesInOrder(s.inbox, m, inbox) && PutsInOrder(s.cache, m, cache) && IntactAt(s, h)
    ensures IntactAt(s.(inbox := inbox, cache := cache), h)
  {
    assert OfMid(s.inbox, h) == One(m, h) + OfMid(inbox, h);
    assert OfMid(cache, h) == OfMid(s.cache, h) + One(m, h);
    Assoc(OfMid(s.cache, h), One(m, h), OfMid(inbox, h));
  }

  lemma CachedSettled(s: State, m: Msg, cache: seq<Msg>)
    requires Settled(s) && PutsInOrder(s.cache, m, cache) && s.pending != [] && m.mid != s.pending[0].mid
    ensures forall i :: 0 <= i < |cache| ==> cache[i].mid != s.pending[0].mid
  {
    var h := s.pending[0].mid;
    OfMidNone(s.cache, h);
    assert OfMid(cache, h) == OfMid(s.cache, h) + One(m, h);
    OfMidNone(cache, h);
  }

  lemma CachedInv(s: State, m: Msg, inbox: seq<Msg>, cache: seq<Msg>)
    requires Inv(s) && !s.done && TakesInOrder(s.inbox, m, inbox) && PutsInOrder(s.cache, m, cache)
    requires s.pending != [] ==> m.mid != s.pending[0].mid
    ensures Inv(s.(inbox := inbox, cache := cache))
  {
    var t := s.(inbox := inbox, cache := cache);
    forall h | Has(t.pending, h) && h != NO_MID ensures IntactAt(t, h) {
      assert IntactAt(s, h);
      CachedIntact(s, m, inbox, cache, h);
    }
    forall x | x in t.inbox || x in t.cache ensures x in s.arrived {
      TakesMembers(s.inbox, m, inbox, m);
      if x in t.inbox {
        TakesMembers(s.inbox, m, inbox, x);
      } else {
        PutsMembers(s.cache, m, cache, x);
      }
    }
    Reframe(s, t, NO_MID);
    if s.pending != [] {
      CachedSettled(s, m, cache);
    }
  }

  lemma TakenOfferCore(f: Handlers, s: State, m: Msg, inbox: seq<Msg>)
    requires Core(s, NO_MID, NO_MID) && Settled(s) && TakesInOrder(s.inbox, m, inbox)
    requires Offer(f, Taken(s, inbox), m).0 != Skipped
    ensures Core(Offer(f, Taken(s, inbox), m).1, NO_MID, NO_MID)
  {
    TakenCore(s, m, inbox);
    if s.pending != [] && m.mid == s.pending[0].mid {
      FirstTaken(s, m, inbox);
    }
    OfferCore(f, Taken(s, inbox), m);
  }

  lemma DroppedUnchanged(f: Handlers, s: State, m: Msg)
    requires Offer(f, s, m).0 == Dropped
    ensures Offer(f, s, m).1 == s
  {
  }

  lemma RoundInv(f: Handlers, s: State, m: Msg, inbox: seq<Msg>, cache: seq<Msg>)
    requires Inv(s) && Enabled(s, Round(m, inbox, cache))
    ensures Inv(Next(f, s, Round(m, inbox, cache)))
  {
    var t := Taken(s, inbox);
    var offered := Offer(f, t, m);
    match offered.0
    case Skipped =>
      if s.pending != [] {
        SkippedIsOther(f, t, m);
      }
      CachedInv(s, m, inbox, cache);
      SkippedUnchanged(f, t, m);
    case Dropped =>
      TakenOfferCore(f, s, m, inbox);
      DroppedUnchanged(f, t, m);
    case Success =>
      TakenOfferCore(f, s, m, inbox);
      SettleCore(f, offered.1);
  }

  lemma SkippedUnchanged(f: Handlers, s: State, m: Msg)
    requires Offer(f, s, m).0 == Skipped
    ensures Offer(f, s, m).1 == s
  {
  }

  // What the actor does about requests leaves no awaited response in the cache.
  lemma ActInv(s: State, op: Op)
    requires Inv(s) && !s.done
    ensures Inv(Do(s, op))
  {
    DoCore(s, op, NO_MID, NO_MID);
    match op
    case Request(high) =>
      assert forall i :: 0 <= i < |s.cache| ==> s.cache[i] in s.cache;
    case Then(k, timed) =>
      if 1 <= k <= |s.sent| {
        InstallEffect(s.pending, ResponseId(s.sent[k - 1]), timed);
      }
  }

  lemma DeliverInv(s: State, m: Msg)
    requires Inv(s) && Enabled(s, Deliver(m))
    ensures Inv(s.(inbox := s.inbox + [m], arrived := s.arrived + [m]))
  {
    var t := s.(inbox := s.inbox + [m], arrived := s.arrived + [m]);
    forall h | Has(t.pending, h) && h != NO_MID ensures IntactAt(t, h) {
      assert IntactAt(s, h);
      OfMidConcat(s.inbox, [m], h);
      OfMidConcat(s.arrived, [m], h);
      Assoc(OfMid(s.cache, h), OfMid(s.inbox, h), OfMid([m], h));
    }
    forall i: nat | i >= 1 && Awaiting(i) != NO_MID ensures OnceAt(t, i) {
      assert OnceAt(s, i);
    }
    forall e | e in t.ran ensures RanRight(t, e) {
      assert RanRight(s, e);
      OfMidConcat(s.arrived, [m], e.mid);
    }
    forall e | e in t.pending && e.mid != NO_MID ensures EntryRight(t, e) {
      assert EntryRight(s, e);
    }
  }

  // ----- every run -----

  lemma StepInv(f: Handlers, s: State, step: Step)
    requires Inv(s) && Enabled(s, step)
    ensures Inv(Next(f, s, step))
  {
    match step
    case Act(op) => ActInv(s, op);
    case Deliver(m) => DeliverInv(s, m);
    case Round(m, inbox, cache) => RoundInv(f, s, m, inbox, cache);
  }

  lemma {:induction false} RunInv(f: Handlers, run: seq<State>, steps: seq<Step>, i: nat)
    requires IsRun(f, run, steps) && i < |run|
    ensures Inv(run[i])
  {
    if i > 0 {
      RunInv(f, run, steps, i - 1);
      StepInv(f, run[i - 1], steps[i - 1]);
    }
  }

  // In every run, a request is either pending and not completed, or was completed once, by the
  // message with the id of this request that arrived first; and its own handler was then run
  // exactly when it had been given in time, for a timeout with one, and the request has normal
  // priority.
  lemma OnceByOwnResponse(f: Handlers, run: seq<State>, steps: seq<Step>, i: nat, k: nat)
    requires IsRun(f, run, steps) && i < |run| && 1 <= k <= run[i].last
    ensures Runs(run[i].ran, Awaiting(k)) == if Has(run[i].pending, Awaiting(k)) then 0 else 1
    ensures forall e :: e in run[i].ran && e.mid == Awaiting(k) ==>
              FirstFor(run[i], Awaiting(k), e.msg) && (e.own <==> CountsFor(run[i], k, e.msg))
  {
    RunInv(f, run, steps, i);
    assert OnceAt(run[i], k);
    forall e | e in run[i].ran && e.mid == Awaiting(k)
      ensures FirstFor(run[i], Awaiting(k), e.msg) && (e.own <==> CountsFor(run[i], k, e.msg))
    {
      assert RanRight(run[i], e);
    }
  }

  // A second message for a completed request is dropped, whenever it is offered.
  lemma DuplicatesAreDropped(f: Handlers, run: seq<State>, steps: seq<Step>, i: nat, k: nat, m: Msg)
    requires IsRun(f, run, steps) && i < |run| && k >= 1 && m.mid == Awaiting(k) && Runs(run[i].ran, m.mid) > 0
    ensures Offer(f, run[i], m) == (Dropped, run[i])
  {
    RunInv(f, run, steps, i);
    assert OnceAt(run[i], k);
  }

  // When a running actor has emptied its mailbox, no message with the awaited id has arrived.
  lemma AwaitedHasNotArrived(f: Handlers, run: seq<State>, steps: seq<Step>, i: nat)
    requires IsRun(f, run, steps) && i < |run| && !run[i].done && run[i].inbox == [] && run[i].pending != []
    ensures OfMid(run[i].arrived, run[i].pending[0].mid) == []
  {
    var s := run[i];
    RunInv(f, run, steps, i);
    assert s.pending[0] in s.pending && Has(s.pending, s.pending[0].mid);
    assert IntactAt(s, s.pending[0].mid);
    OfMidNone(s.cache, s.pending[0].mid);
  }

  lemma {:induction false} RanMember(ran: seq<Ran>, h: Mid) returns (e: Ran)
    requires Runs(ran, h) > 0
    ensures e in ran && e.mid == h
  {
    if ran[0].mid == h {
      e := ran[0];
    } else {
      e := RanMember(ran[1..], h);
    }
  }

  // The message with number k is the only one that has come for request k.
  ghost predicate OnlyAnswer(s: State, k: nat, m: Msg) {
    m in s.arrived && forall x :: x in s.arrived && x.mid.response && x.mid.id == k ==> x == m
  }

  // A request, its way to the actor that answers it, and its only answer. When the actor has
  // emptied its mailbox and no younger request is pending, the request's own handler was run by
  // the answer exactly when the handler was given in time (for a timeout: with one), the request
  // was sent with normal priority, the last priority set on the way was normal, and no promise was
  // made on the way before the one that answered.
  lemma OwnHandlerRunsIff(f: Handlers, run: seq<State>, steps: seq<Step>, i: nat, k: nat, hops: seq<Hop>, m: Msg)
    requires IsRun(f, run, steps) && i < |run| && !run[i].done && run[i].inbox == [] && 1 <= k <= |run[i].sent|
    requires m.mid == AnswerId(run[i].sent[k - 1], hops) && OnlyAnswer(run[i], k, m)
    requires Has(run[i].pending, Awaiting(k)) ==> run[i].pending[0].mid == Awaiting(k)
    ensures Ran(Awaiting(k), m, true) in run[i].ran <==>
            && k in run[i].inTime && (m.body.SyncTimeout? ==> run[i].inTime[k])
            && !run[i].sent[k - 1].high && !LastPriority(run[i].sent[k - 1].high, hops) && Promise !in hops
  {
    var s := run[i];
    RunInv(f, run, steps, i);
    AnswerFitsIff(k, s.sent[k - 1].high, hops);
    assert OnceAt(s, k);
    if m.mid == Awaiting(k) {
      OfMidMembers(s.arrived, m.mid, m);
      if Has(s.pending, Awaiting(k)) {
        AwaitedHasNotArrived(f, run, steps, i);
      }
      var e := RanMember(s.ran, Awaiting(k));
      assert RanRight(s, e);
      OfMidNone(s.arrived, Awaiting(k));
      assert e.msg == m;
    }
    assert Ran(Awaiting(k), m, true) in s.ran ==> RanRight(s, Ran(Awaiting(k), m, true));
  }

  lemma OneMessage(m: Msg)
    ensures TakesInOrder([m], m, []) && PutsInOrder([], m, [m])
  {
    assert [m][1..] == [];
    forall h ensures OfMid([m], h) == One(m, h) + OfMid([], h) && OfMid([m], h) == OfMid([], h) + One(m, h) {
      assert OfMid([m], h) == One(m, h) + OfMid([m][1..], h);
    }
  }

  // A request of normal priority with a handler, delegated once with high priority: whatever the
  // actor does otherwise, the answer is dropped and the request stays pending.
  lemma DelegatedWithHighPriority(f: Handlers, body: nat) returns (run: seq<State>, steps: seq<Step>, m: Msg)
    ensures IsRun(f, run, steps) && |run| == 5
        && m == Msg(AnswerId(RequestId(1, false), [ForwardWith(true)]), Ordinary(body))
    ensures run[4].inbox == [] && run[4].arrived == [m] && 1 in run[4].inTime && run[4].sent == [RequestId(1, false)]
    ensures run[4].ran == [] && Has(run[4].pending, Awaiting(1)) && !run[4].done
  {
    Travelled(1, false, [ForwardWith(true)]);
    m := Msg(Mid(1, true, false, true), Ordinary(body));
    OneMessage(m);
    steps := [Act(Request(false)), Act(Then(1, false)), Deliver(m), Round(m, [], [m])];
    var s0 := State(0, [], [], [], false, [], [], [], map[]);
    var s1 := Next(f, s0, steps[0]);
    var s2 := Next(f, s1, steps[1]);
    var s3 := Next(f, s2, steps[2]);
    var s4 := Next(f, s3, steps[3]);
    assert s1.pending == [Entry(Awaiting(1), NoHandler)] && s1.sent == [RequestId(1, false)];
    assert s1.pending[0] in s1.pending && Has(s1.pending, Awaiting(1));
    assert s2.pending == [Entry(Awaiting(1), Given(false))] && s2.inTime == map[1 := false];
    assert s3.inbox == [m] && s3.arrived == [m] && !Has(s3.pending, m.mid);
    assert s4 == s3.(inbox := []) && s4.pending[0] in s4.pending;
    run := [s0, s1, s2, s3, s4];
  }

  // A request none of whose answers has the right id stays pending and is never completed,
  lemma Unanswered(f: Handlers, run: seq<State>, steps: seq<Step>, i: nat, k: nat)
    requires IsRun(f, run, steps) && i < |run| && 1 <= k <= run[i].last
    requires forall m :: m in run[i].arrived ==> m.mid != Awaiting(k)
    ensures Has(run[i].pending, Awaiting(k)) && Runs(run[i].ran, Awaiting(k)) == 0
  {
    var s := run[i];
    RunInv(f, run, steps, i);
    assert OnceAt(s, k);
    if Runs(s.ran, Awaiting(k)) > 0 {
      var e := RanMember(s.ran, Awaiting(k));
      assert RanRight(s, e);
      OfMidNone(s.arrived, Awaiting(k));
    }
  }

  // and while it is awaited, only exit messages that end the actor get through.
  lemma AwaitingBlocks(f: Handlers, s: State, m: Msg)
    requires s.pending != [] && m.mid != s.pending[0].mid && Offer(f, s, m).0 == Success
    ensures EndsActor(m, f(s, m)) && !m.mid.response
  {
  }
}
