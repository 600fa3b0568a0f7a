/**
 The elements of a mailbox: message ids with their flags, what a request's id becomes on its way
 to the actor that answers it, and the kinds of messages that the runtime tells apart.
 */
module MailboxElements {

  // The bits of a message id: the request number, the response flag, the flag of a request that
  // already has a response promise, and the priority flag.
  datatype Mid = Mid(id: nat, response: bool, answered: bool, high: bool)

  const NO_MID := Mid(0, false, false, false)

  predicate IsRequest(m: Mid) {
    m.id != 0 && !m.response
  }

  function ResponseId(m: Mid): Mid {
    if IsRequest(m) then m.(response := true) else NO_MID
  }

  datatype Body =
    | Ordinary(tag: nat)
    | SyncTimeout
    | ExitSignal(reason: nat)
    | Timeout(timeoutId: nat)
    | System

  datatype Msg = Msg(mid: Mid, body: Body)

  // ----- requests on their way -----

  // What an actor that holds a request may do with it: pass it on as it is, pass it on or delegate
  // it with a priority, or make a response promise for it.
  datatype Hop = Forward | ForwardWith(high: bool) | Promise

  function AfterHop(m: Mid, hop: Hop): Mid {
    match hop
    case Forward => m
    case ForwardWith(high) => m.(high := high)
    case Promise => m.(answered := true)
  }

  function AfterHops(m: Mid, hops: seq<Hop>): Mid {
    if hops == [] then m else AfterHop(AfterHops(m, hops[..|hops| - 1]), hops[|hops| - 1])
  }

  // The id of the answer given at the end of the way.
  function AnswerId(m: Mid, hops: seq<Hop>): Mid {
    ResponseId(AfterHops(m, hops))
  }

  // The id of a request as it is sent, and of its entry in the list of pending responses.
  function RequestId(k: nat, high: bool): Mid {
    Mid(k, false, false, high)
  }

  function Awaiting(k: nat): Mid {
    Mid(k, true, false, false)
  }

  // The priority that was set last.
  function LastPriority(high: bool, hops: seq<Hop>): bool {
    if hops == [] then high
    else if hops[|hops| - 1].ForwardWith? then hops[|hops| - 1].high
    else LastPriority(high, hops[..|hops| - 1])
  }

  lemma {:induction false} Travelled(k: nat, high: bool, hops: seq<Hop>)
    ensures AfterHops(RequestId(k, high), hops) == Mid(k, false, Promise in hops, LastPriority(high, hops))
  {
    if hops != [] {
      Travelled(k, high, hops[..|hops| - 1]);
      assert hops == hops[..|hops| - 1] + [hops[|hops| - 1]];
    }
  }

  // The answer has the id of the pending entry exactly when the last priority set on the way, or
  // else that of the request, is normal and no promise was made before.
  lemma AnswerFitsIff(k: nat, high: bool, hops: seq<Hop>)
    requires k > 0
    ensures AnswerId(RequestId(k, high), hops) == Awaiting(k) <==> !LastPriority(high, hops) && Promise !in hops
  {
    Travelled(k, high, hops);
  }

  // Every combination of flags comes up.
  lemma AnyAnswerId(k: nat, high: bool, answer: Mid) returns (hops: seq<Hop>)
    requires k > 0 && answer.id == k && answer.response
    ensures AnswerId(RequestId(k, high), hops) == answer
  {
    hops := [ForwardWith(answer.high)] + if answer.answered then [Promise] else [];
    Travelled(k, high, hops);
    assert !answer.answered ==> hops[..0] == [];
    assert answer.answered ==> hops[..1] == [ForwardWith(answer.high)] && hops[..1][..0] == [];
  }
}
