/**
 The event-based actor in place: its pending responses and the loop of resume over a mailbox, with
 or without priorities. Each round of the loop is a step of the relation whose runs keep the
 accounts of synchronous requests.
 */
module SyncActors {
  import opened MailboxElements
  import opened SyncRequests
  import P = PriorityMailbox

  // ----- both mailboxes keep the order of equal ids -----

  // All messages with one id have the same priority.
  lemma {:induction false} OfMidOfClass(s: seq<Msg>, h: Mid)
    ensures OfMid(P.Of(s, h.high), h) == OfMid(s, h)
  {
    if s != [] {
      OfMidOfClass(s[1..], h);
      OfMidConcat(P.One(s[0], h.high), P.Of(s[1..], h.high), h);
      OfMidOne(s[0], h);
    }
  }

  lemma OfMidOne(m: Msg, h: Mid)
    ensures OfMid([m], h) == One(m, h) && OfMid(P.One(m, h.high), h) == One(m, h)
  {
    assert [m][1..] == [];
  }

  lemma SameClassSameMid(a: seq<Msg>, b: seq<Msg>, h: Mid)
    requires P.Of(a, h.high) == P.Of(b, h.high)
    ensures OfMid(a, h) == OfMid(b, h)
  {
    OfMidOfClass(a, h);
    OfMidOfClass(b, h);
  }

  lemma TakesInOrderAt(aware: bool, queue: seq<Msg>, first: seq<Msg>, h: Mid)
    requires P.Partitioned(first) && (!aware ==> first == []) && P.Taken(aware, queue, first).0.Some?
    ensures var (m, queue', first') := P.Taken(aware, queue, first);
            OfMid(first + queue, h) == One(m.value, h) + OfMid(first' + queue', h)
  {
    var (m, queue', first') := P.Taken(aware, queue, first);
    P.TakenInOrder(aware, queue, first, h.high);
    P.OfConcat(first, queue, h.high);
    P.OfConcat(first', queue', h.high);
    P.OfConcat([m.value], first' + queue', h.high);
    P.OfOne(m.value, h.high);
    SameClassSameMid(first + queue, [m.value] + (first' + queue'), h);
    OfMidConcat([m.value], first' + queue', h);
    OfMidOne(m.value, h);
  }

  lemma MailboxTakesInOrder(aware: bool, queue: seq<Msg>, first: seq<Msg>)
    requires P.Partitioned(first) && (!aware ==> first == []) && P.Taken(aware, queue, first).0.Some?
    ensures var (m, queue', first') := P.Taken(aware, queue, first);
            TakesInOrder(first + queue, m.value, first' + queue')
  {
    var (m, queue', first') := P.Taken(aware, queue, first);
    forall h ensures OfMid(first + queue, h) == One(m.value, h) + OfMid(first' + queue', h) {
      TakesInOrderAt(aware, queue, first, h);
    }
  }

  function Put(aware: bool, second: seq<Msg>, m: Msg): seq<Msg> {
    if aware then P.Pushed(second, m) else second + [m]
  }

  lemma MailboxPutsInOrder(aware: bool, second: seq<Msg>, m: Msg)
    requires aware ==> P.Partitioned(second)
    ensures PutsInOrder(second, m, Put(aware, second, m))
  {
    forall h ensures OfMid(Put(aware, second, m), h) == OfMid(second, h) + One(m, h) {
      if aware {
        P.PushedInOrder(second, m, h.high);
        P.OfConcat(second, [m], h.high);
        P.OfOne(m, h.high);
        SameClassSameMid(P.Pushed(second, m), second + [m], h);
      }
      OfMidConcat(second, [m], h);
      OfMidOne(m, h);
    }
  }

  lemma RemovePartitioned(s: seq<Msg>, i: nat)
    requires i < |s| && P.Partitioned(s)
    ensures P.Partitioned(Remove(s, i))
  {
    var t := Remove(s, i);
    assert forall k :: 0 <= k < |t| ==> t[k] == if k < i then s[k] else s[k + 1];
  }

  lemma PutBack(s: seq<Msg>, i: nat)
    requires i < |s|
    ensures Remove(s, i)[..i] + [s[i]] + Remove(s, i)[i..] == s
  {
  }

  lemma InstallLater(p: seq<Entry>, i: nat, mid: Mid, timed: bool)
    requires i < |p| && p[i].mid != mid
    ensures p[..i] + Install(p[i..], mid, timed) == p[..i + 1] + Install(p[i + 1..], mid, timed)
  {
    assert p[i..][1..] == p[i + 1..];
    assert Install(p[i..], mid, timed) == [p[i]] + Install(p[i + 1..], mid, timed);
    assert p[..i + 1] == p[..i] + [p[i]];
  }

  lemma InstallHere(p: seq<Entry>, i: nat, mid: Mid, timed: bool)
    requires i < |p| && p[i].mid == mid
    ensures p[..i] + Install(p[i..], mid, timed) == p[i := Entry(mid, Given(timed))]
  {
    assert p[i..][1..] == p[i + 1..];
  }

  // ----- the actor -----

  class SyncActor {
    const mbox: P.Mailbox
    var last: nat
    var pending: seq<Entry>
    var done: bool
    var arrived: seq<Msg>
    var ran: seq<Ran>
    var sent: seq<Mid>
    var inTime: map<nat, bool>

    function View(): State
      reads this, mbox
    {
      State(last, pending, mbox.first + mbox.queue, mbox.second, done, arrived, ran, sent, inTime)
    }

    ghost predicate Valid()
      reads this, mbox
    {
      P.Partitioned(mbox.first) && (!mbox.aware ==> mbox.first == []) && (mbox.aware ==> P.Partitioned(mbox.second))
    }

    constructor (priorityAware: bool)
      ensures Valid() && fresh(mbox) && mbox.aware == priorityAware
      ensures View() == State(0, [], [], [], false, [], [], [], map[])
    {
      mbox := new P.Mailbox(priorityAware);
      last, pending, done, arrived, ran, sent, inTime := 0, [], false, [], [], [], map[];
    }

    // new_request_id and sync_send_impl: the id that is sent, and the one the response handle gets.
    method SyncSend(high: bool) returns (handle: Mid)
      modifies this
      ensures View() == Issue(old(View()), high) && handle == ResponseId(RequestId(last, high))
    {
      last := last + 1;
      var result := RequestId(last, false);
      pending := [Entry(ResponseId(result), NoHandler)] + pending;
      var mid := if high then result.(high := true) else result;
      sent := sent + [mid];
      handle := ResponseId(mid);
    }

    // find_pending_response: the first entry with the id gets the handler.
    method InstallFirst(mid: Mid, timed: bool)
      modifies this`pending
      ensures pending == Install(old(pending), mid, timed)
    {
      var i := 0;
      assert pending[0..] == pending && pending[..0] == [];
      while i < |pending| && pending[i].mid != mid
        invariant i <= |pending| && pending == old(pending)
        invariant Install(pending, mid, timed) == pending[..i] + Install(pending[i..], mid, timed)
      {
        InstallLater(pending, i, mid, timed);
        i := i + 1;
      }
      if i < |pending| {
        InstallHere(pending, i, mid, timed);
        pending := pending[i := Entry(mid, Given(timed))];
      } else {
        assert pending[..i] + [] == pending;
      }
    }

    // set_response_handler for the handle of request k.
    method SetResponseHandler(k: nat, timed: bool)
      requires 1 <= k <= |sent|
      modifies this
      ensures View() == SetHandler(old(View()), k, timed)
    {
      inTime := if Has(pending, Awaiting(k)) && Runs(ran, Awaiting(k)) == 0 then inTime[k := timed] else inTime;
      InstallFirst(ResponseId(sent[k - 1]), timed);
    }

    method MarkArrived(mid: Mid)
      modifies this`pending
      ensures pending == Without(old(pending), mid)
    {
      var kept, i := [], 0;
      while i < |pending|
        invariant i <= |pending| && pending == old(pending)
        invariant kept + Without(pending[i..], mid) == Without(pending, mid)
      {
        assert pending[i..][1..] == pending[i + 1..];
        if pending[i].mid != mid {
          kept := kept + [pending[i]];
        }
        i := i + 1;
      }
      pending := kept;
    }

    method Perform(ops: seq<Op>)
      modifies this
      ensures View() == DoAll(old(View()), ops)
    {
      for i := 0 to |ops|
        invariant DoAll(View(), ops[i..]) == DoAll(old(View()), ops)
      {
        assert ops[i..][1..] == ops[i + 1..];
        match ops[i]
        case Request(high) => var handle := SyncSend(high);
        case Then(k, timed) =>
          if 1 <= k <= |sent| {
            SetResponseHandler(k, timed);
          }
      }
    }

    // The response branch of invoke_message: the request is removed after its handler returned.
    method CompleteFirst(m: Msg, e: Effect)
      requires pending != [] && m.mid == pending[0].mid
      modifies this
      ensures View() == Complete(old(View()), m, e)
    {
      var handler := pending[0].handler;
      var own := if m.body.SyncTimeout? then handler == Given(true) else handler.Given?;
      ran := ran + [Ran(m.mid, m, own)];
      if !m.body.SyncTimeout? || own {
        Perform(e.ops);
        done := done || e.quits;
      }
      MarkArrived(m.mid);
    }

    method InvokeMessage(f: Handlers, m: Msg) returns (outcome: Outcome)
      modifies this
      ensures (outcome, View()) == Offer(f, old(View()), m)
    {
      var e := f(View(), m);
      if m.mid.response {
        if !Has(pending, m.mid) {
          return Dropped;
        }
        if m.mid == pending[0].mid {
          CompleteFirst(m, e);
          return Success;
        }
        return Skipped;
      }
      match m.body {
      case System => return Dropped;
      case ExitSignal(reason) =>
        if reason == KILL || (!e.trapsExit && reason != NORMAL_EXIT) {
          done := true;
          return Success;
        }
        if !e.trapsExit {
          return Dropped;
        }
      case Timeout(_) =>
        if e.active && pending == [] {
          Perform(e.ops);
          done := done || e.quits;
          return Success;
        }
        return Dropped;
      case _ =>
      }
      if pending == [] && e.matches {
        Perform(e.ops);
        done := done || e.quits;
        return Success;
      }
      return Skipped;
    }

    // The element is taken out before it is offered, and put back if it was skipped.
    method OfferCached(f: Handlers, i: nat) returns (outcome: Outcome)
      requires Valid() && i < |mbox.second|
      modifies this, mbox`second
      ensures Valid() && outcome == Offer(f, WithoutCached(old(View()), i), old(mbox.second)[i]).0
      ensures View() == if outcome == Skipped then old(View())
                        else Offer(f, WithoutCached(old(View()), i), old(mbox.second)[i]).1
    {
      var m := mbox.second[i];
      PutBack(mbox.second, i);
      if mbox.aware {
        RemovePartitioned(mbox.second, i);
      }
      mbox.second := Remove(mbox.second, i);
      outcome := InvokeMessage(f, m);
      if outcome == Skipped {
        mbox.second := mbox.second[..i] + [m] + mbox.second[i..];
      }
    }

    // One element of a pass over the cache.
    method ScanOne(f: Handlers, i: nat) returns (outcome: Outcome)
      requires Valid() && i < |mbox.second|
      modifies this, mbox`second
      ensures Valid()
      ensures outcome == Skipped ==> View() == old(View()) && Scan(f, old(View()), i) == Scan(f, View(), i + 1)
      ensures outcome == Dropped ==>
                |mbox.second| == old(|mbox.second|) - 1 && Scan(f, old(View()), i) == Scan(f, View(), i)
      ensures outcome == Success ==> Scan(f, old(View()), i) == (true, View())
    {
      ghost var s := View();
      outcome := OfferCached(f, i);
      if outcome == Dropped {
        DroppedUnchanged(f, WithoutCached(s, i), s.cache[i]);
      }
    }

    method InvokeFromCache(f: Handlers) returns (found: bool)
      requires Valid()
      modifies this, mbox`second
      ensures Valid() && (found, View()) == Scan(f, old(View()), 0)
    {
      var i := 0;
      ghost var s := View();
      ghost var goal := Scan(f, s, 0);
      found := false;
      while !found && i < |mbox.second|
        invariant Valid() && View() == s && (!found ==> i <= |s.cache|)
        invariant goal == if found then (true, s) else Scan(f, s, i)
        decreases !found, |mbox.second| - i
      {
        var outcome := ScanOne(f, i);
        s := View();
        found := outcome == Success;
        if outcome == Skipped {
          i := i + 1;
        }
      }
    }

    // Continue from the cache until nothing is found there or the actor has ended.
    method SettleCache(f: Handlers)
      requires Valid()
      modifies this, mbox`second
      ensures Valid() && View() == Settle(f, old(View()))
    {
      var more := !done;
      while more
        invariant Valid() && (if more then Settle(f, View()) else View()) == Settle(f, old(View()))
        invariant more ==> !done
        decreases |mbox.second| + if more then 1 else 0
      {
        ScanShrinks(f, View(), 0);
        more := InvokeFromCache(f);
        more := more && !done;
      }
    }

    // One round of the loop: nothing to read, or a step of the relation.
    method OneRound(f: Handlers) returns (found: bool, ghost step: Step)
      requires Valid() && !done
      modifies this, mbox
      ensures Valid()
      ensures !found ==> View() == old(View()) && View().inbox == []
      ensures found ==> step.Round? && Enabled(old(View()), step) && View() == Next(f, old(View()), step)
    {
      ghost var s := View();
      ghost var (q, fst, snd) := (mbox.queue, mbox.first, mbox.second);
      P.TakenKeeps(mbox.aware, q, fst);
      var next := mbox.NextMessage();
      if next.None? {
        P.TakenCounts(mbox.aware, q, fst);
        return false, Act(Request(false));
      }
      MailboxTakesInOrder(mbox.aware, q, fst);
      MailboxPutsInOrder(mbox.aware, snd, next.value);
      step := Round(next.value, mbox.first + mbox.queue, Put(mbox.aware, snd, next.value));
      ghost var t := View();
      assert t == Taken(s, step.inbox);
      var outcome := InvokeMessage(f, next.value);
      OfferKeeps(f, t, next.value);
      found := true;
      match outcome
      case Success => SettleCache(f);
      case Skipped =>
        if mbox.aware {
          P.PushedKeeps(mbox.second, next.value);
        }
        SkippedUnchanged(f, t, next.value);
        mbox.PushToCache(next.value);
      case Dropped =>
    }

    // Up to that many rounds: the loop stops early when the mailbox is empty or the actor ended.
    method Resume(f: Handlers, maxThroughput: nat) returns (ghost run: seq<State>, ghost steps: seq<Step>)
      requires Valid() && !done
      modifies this, mbox
      ensures Valid() && IsPath(f, run, steps) && run[0] == old(View()) && run[|run| - 1] == View()
      ensures |steps| <= maxThroughput && forall i :: 0 <= i < |steps| ==> steps[i].Round?
      ensures |steps| < maxThroughput ==> done || View().inbox == []
    {
      run, steps := [View()], [];
      var i := 0;
      while i < maxThroughput && !done
        invariant Valid() && i <= maxThroughput && |steps| == i
        invariant IsPath(f, run, steps) && run[0] == old(View()) && run[|run| - 1] == View()
        invariant forall k :: 0 <= k < |steps| ==> steps[k].Round?
        decreases maxThroughput - i
      {
        var found, step := OneRound(f);
        if !found {
          return;
        }
        run, steps := run + [View()], steps + [step];
        i := i + 1;
      }
    }
  }
}
