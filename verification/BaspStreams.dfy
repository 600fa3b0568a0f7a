/**
 A connection from its bytes to the broker: which frames of a stream are read, and where reading
 stops because the broker closes the connection.
 */
module BaspStreams {
  import opened NodeIds
  import opened BaspFrames
  import opened BaspRouting

  // A server handshake from this node itself or from a node that is already connected directly.
  predicate Refused(me: NodeId, t: Table, h: Header) {
    h.operation == SERVER_HANDSHAKE && (h.sourceNode == me || h.sourceNode in t.byNid)
  }

  // For a valid header with its whole payload, this is all that closes a connection.
  lemma ClosesIff(me: NodeId, b: Broker, hdl: Handle, h: Header, b': Broker, close: bool)
    requires hdl in b.ctx && ValidHeader(h) && Handled(me, b, hdl, h, true, b', close)
    ensures close <==> Refused(me, b.tbl, h)
  {
  }

  // The broker before each frame of a stream; the last frame that is handled may close.
  ghost predicate Fed(me: NodeId, hdl: Handle, bs: seq<Broker>, closes: seq<bool>, fs: seq<Frame>) {
    && |bs| == |closes| + 1 && |closes| <= |fs|
    && (forall i: nat :: i < |closes| ==> FedAt(me, hdl, bs, closes, fs, i))
    && (forall i :: 0 <= i < |closes| - 1 ==> !closes[i])
    && (|closes| < |fs| ==> closes != [] && closes[|closes| - 1])
  }

  ghost predicate FedAt(me: NodeId, hdl: Handle, bs: seq<Broker>, closes: seq<bool>, fs: seq<Frame>, i: nat)
    requires i < |closes| < |bs| && i < |fs|
  {
    hdl in bs[i].ctx && Handled(me, bs[i], hdl, fs[i].hdr, true, bs[i + 1], closes[i])
  }

  // What the brokers decide about a frame, by how many frames came before it.
  function Decision(me: NodeId, bs: seq<Broker>): Refusal {
    (done: seq<Frame>, f: Frame) => |done| < |bs| && Refused(me, bs[|done|].tbl, f.hdr)
  }

  lemma DecidesAt(me: NodeId, hdl: Handle, bs: seq<Broker>, closes: seq<bool>, fs: seq<Frame>, i: nat)
    requires Fed(me, hdl, bs, closes, fs) && AllSendable(fs) && i < |closes|
    ensures Decision(me, bs)([] + fs[..i], fs[i]) <==> closes[i]
    ensures closes[i] <==> Refused(me, bs[i].tbl, fs[i].hdr)
  {
    assert FedAt(me, hdl, bs, closes, fs, i) && Sendable(fs[i]);
    ClosesIff(me, bs[i], hdl, fs[i].hdr, bs[i + 1], closes[i]);
    assert |[] + fs[..i]| == i;
  }

  // Nothing before the last handled frame is refused.
  lemma NoneBefore(me: NodeId, hdl: Handle, bs: seq<Broker>, closes: seq<bool>, fs: seq<Frame>, n: nat)
    requires Fed(me, hdl, bs, closes, fs) && AllSendable(fs) && n <= |closes|
    requires n < |closes| || closes == [] || !closes[|closes| - 1]
    ensures NoneRefused(Decision(me, bs), [], fs[..n])
  {
    forall k | 0 <= k < |fs[..n]| ensures !Decision(me, bs)([] + fs[..n][..k], fs[..n][k]) {
      assert fs[..n][..k] == fs[..k];
      DecidesAt(me, hdl, bs, closes, fs, k);
    }
  }

  // A stream of valid frames into the broker, with any bytes behind it: all frames are recovered when
  // the broker closes on none of them,
  lemma StreamIntoBroker(me: NodeId, hdl: Handle, bs: seq<Broker>, closes: seq<bool>, fs: seq<Frame>, rest: seq<Byte>)
    requires Fed(me, hdl, bs, closes, fs) && AllSendable(fs) && (closes == [] || !closes[|closes| - 1])
    ensures ReadAll(Decision(me, bs), [], AwaitHeader, Stream(fs) + rest) ==
            ReadAll(Decision(me, bs), [] + fs, AwaitHeader, rest)
    ensures forall i: nat :: i < |fs| ==> !Refused(me, bs[i].tbl, fs[i].hdr)
  {
    NoneBefore(me, hdl, bs, closes, fs, |closes|);
    assert fs[..|fs|] == fs;
    StreamRoundTrip(Decision(me, bs), [], fs, rest);
    forall i: nat | i < |fs| ensures !Refused(me, bs[i].tbl, fs[i].hdr) {
      DecidesAt(me, hdl, bs, closes, fs, i);
    }
  }

  // and otherwise reading stops exactly at the first server handshake from this node or from a
  // directly connected one, after the frames before it.
  lemma StreamStopsAtRefusal(me: NodeId, hdl: Handle, bs: seq<Broker>, closes: seq<bool>, fs: seq<Frame>, k: nat,
                             rest: seq<Byte>)
    requires Fed(me, hdl, bs, closes, fs) && AllSendable(fs) && |closes| == k + 1 && closes[k]
    ensures ReadAll(Decision(me, bs), [], AwaitHeader, Stream(fs) + rest) ==
            Progress(Reader.Closed, [] + fs[..k + 1], Stream(fs[k + 1..]) + rest)
    ensures Refused(me, bs[k].tbl, fs[k].hdr) && forall i: nat :: i < k ==> !Refused(me, bs[i].tbl, fs[i].hdr)
  {
    NoneBefore(me, hdl, bs, closes, fs, k);
    DecidesAt(me, hdl, bs, closes, fs, k);
    StreamUntilRefused(Decision(me, bs), [], fs, k, rest);
    forall i: nat | i < k ensures !Refused(me, bs[i].tbl, fs[i].hdr) {
      DecidesAt(me, hdl, bs, closes, fs, i);
    }
  }
}
