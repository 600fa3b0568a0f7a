/**
 The wire format of BASP: the header codec, header validity, the writer that reserves space for
 the header, appends the payload and then fills the header in, and the reader that alternates
 between awaiting a header and awaiting a payload.
 */
module BaspFrames {
  import opened NodeIds

  const SERVER_HANDSHAKE: U32 := 0
  const CLIENT_HANDSHAKE: U32 := 1
  const DISPATCH_MESSAGE: U32 := 2
  const ANNOUNCE_PROXY_INSTANCE: U32 := 3
  const KILL_PROXY_INSTANCE: U32 := 4

  const HEADER_SIZE: nat := 72

  datatype Header = Header(
    operation: U32,
    payloadLen: U32,
    operationData: U64,
    sourceNode: NodeId,
    destNode: NodeId,
    sourceActor: U32,
    destActor: U32)

  datatype Option<T> = None | Some(value: T)

  // ----- validity -----

  predicate ValidHeader(h: Header) {
    var source, dest := h.sourceNode.Node?, h.destNode.Node?;
    if h.operation == SERVER_HANDSHAKE then
      source && !dest && h.destActor == 0 && h.operationData != 0 && (h.sourceActor == 0 <==> h.payloadLen == 0)
    else if h.operation == CLIENT_HANDSHAKE then
      source && dest && !Same(h.sourceNode, h.destNode)
      && h.sourceActor == 0 && h.destActor == 0 && h.payloadLen == 0 && h.operationData == 0
    else if h.operation == DISPATCH_MESSAGE then
      dest && h.destActor != 0 && h.payloadLen != 0
    else if h.operation == ANNOUNCE_PROXY_INSTANCE then
      source && dest && !Same(h.sourceNode, h.destNode)
      && h.sourceActor == 0 && h.destActor != 0 && h.payloadLen == 0 && h.operationData == 0
    else if h.operation == KILL_PROXY_INSTANCE then
      source && dest && !Same(h.sourceNode, h.destNode)
      && h.sourceActor != 0 && h.destActor == 0 && h.payloadLen == 0 && h.operationData != 0
    else
      false
  }

  // ----- the header codec -----

  function WriteHeader(h: Header): (bs: seq<Byte>)
    ensures |bs| == HEADER_SIZE
  {
    Serialize(h.sourceNode) + Serialize(h.destNode)
    + ToBytes(h.sourceActor, 4) + ToBytes(h.destActor, 4)
    + ToBytes(h.payloadLen, 4) + ToBytes(h.operation, 4) + ToBytes(h.operationData, 8)
  }

  function ReadHeader(bs: seq<Byte>): (h: Header)
    requires |bs| == HEADER_SIZE
    ensures Canonical(h.sourceNode) && Canonical(h.destNode)
  {
    Widths();
    Header(FromBytes(bs[60..64]), FromBytes(bs[56..60]), FromBytes(bs[64..72]),
           Deserialize(bs[0..24]), Deserialize(bs[24..48]),
           FromBytes(bs[48..52]), FromBytes(bs[52..56]))
  }

  lemma HeaderParts(h: Header)
    ensures var bs := WriteHeader(h);
            && bs[0..24] == Serialize(h.sourceNode) && bs[24..48] == Serialize(h.destNode)
            && bs[48..52] == ToBytes(h.sourceActor, 4) && bs[52..56] == ToBytes(h.destActor, 4)
            && bs[56..60] == ToBytes(h.payloadLen, 4) && bs[60..64] == ToBytes(h.operation, 4)
            && bs[64..72] == ToBytes(h.operationData, 8)
  {
    SevenParts(Serialize(h.sourceNode), Serialize(h.destNode), ToBytes(h.sourceActor, 4), ToBytes(h.destActor, 4),
               ToBytes(h.payloadLen, 4), ToBytes(h.operation, 4), ToBytes(h.operationData, 8));
  }

  lemma SevenParts(a: seq<Byte>, b: seq<Byte>, c: seq<Byte>, d: seq<Byte>, e: seq<Byte>, f: seq<Byte>, g: seq<Byte>)
    requires |a| == |b| == 24 && |c| == |d| == |e| == |f| == 4 && |g| == 8
    ensures var bs := a + b + c + d + e + f + g;
            && bs[0..24] == a && bs[24..48] == b && bs[48..52] == c && bs[52..56] == d
            && bs[56..60] == e && bs[60..64] == f && bs[64..72] == g
  {
  }

  predicate CanonicalHeader(h: Header) {
    Canonical(h.sourceNode) && Canonical(h.destNode)
  }

  lemma HeaderRoundTrip(h: Header)
    ensures ReadHeader(WriteHeader(h)) == h <==> CanonicalHeader(h)
  {
    Widths();
    HeaderParts(h);
    NodeRoundTrip(h.sourceNode);
    NodeRoundTrip(h.destNode);
    BytesRoundTrip(h.sourceActor, 4);
    BytesRoundTrip(h.destActor, 4);
    BytesRoundTrip(h.payloadLen, 4);
    BytesRoundTrip(h.operation, 4);
    BytesRoundTrip(h.operationData, 8);
  }

  // Encoding a decoded header gives the same bytes back, whatever they were.
  lemma HeaderBytesRoundTrip(bs: seq<Byte>)
    requires |bs| == HEADER_SIZE
    ensures WriteHeader(ReadHeader(bs)) == bs
  {
    NodeBytesRoundTrip(bs[0..24]);
    NodeBytesRoundTrip(bs[24..48]);
    NumberRoundTrip(bs[48..52]);
    NumberRoundTrip(bs[52..56]);
    NumberRoundTrip(bs[56..60]);
    NumberRoundTrip(bs[60..64]);
    NumberRoundTrip(bs[64..72]);
    HeaderCuts(bs);
  }

  lemma HeaderCuts(bs: seq<Byte>)
    requires |bs| == HEADER_SIZE
    ensures bs[0..24] + bs[24..48] + bs[48..52] + bs[52..56] + bs[56..60] + bs[60..64] + bs[64..72] == bs
  {
    assert bs[0..24] + bs[24..48] == bs[..48];
    assert bs[..48] + bs[48..52] == bs[..52];
    assert bs[..52] + bs[52..56] == bs[..56];
    assert bs[..56] + bs[56..60] == bs[..60];
    assert bs[..60] + bs[60..64] == bs[..64];
    assert bs[..64] + bs[64..72] == bs;
  }

  // ----- the writer -----

  // What a frame looks like on the wire; the length field is the payload's length in 32 bits.
  function FrameBytes(h: Header, payload: seq<Byte>): seq<Byte> {
    WriteHeader(h.(payloadLen := |payload| % 0x1_0000_0000)) + payload
  }

  class WriteBuffer {
    var data: seq<Byte>

    method Append(bs: seq<Byte>)
      modifies this
      ensures data == old(data) + bs
    {
      data := data + bs;
    }

    // A serializer that writes through an iterator overwrites what is there.
    method Overwrite(pos: nat, bs: seq<Byte>)
      requires pos + |bs| <= |data|
      modifies this
      ensures data == old(data)[..pos] + bs + old(data)[pos + |bs|..]
    {
      data := data[..pos] + bs + data[pos + |bs|..];
    }
  }

  lemma Filled(before: seq<Byte>, placeholder: seq<Byte>, payload: seq<Byte>, header: seq<Byte>)
    requires |placeholder| == |header|
    ensures var all := before + placeholder + payload;
            all[..|before|] + header + all[|before| + |header|..] == before + (header + payload)
  {
  }

  method Write(buf: WriteBuffer, h: Header, payload: Option<seq<Byte>>) returns (payloadLen: U32)
    modifies buf
    ensures buf.data == old(buf.data) + FrameBytes(h, if payload.Some? then payload.value else [])
    ensures payloadLen == if payload.Some? then |payload.value| % 0x1_0000_0000 else h.payloadLen
  {
    if payload.None? {
      buf.Append(WriteHeader(h.(payloadLen := 0)));
      assert FrameBytes(h, []) == WriteHeader(h.(payloadLen := 0));
      payloadLen := h.payloadLen;
    } else {
      // reserve space for the header, whatever the placeholder holds
      var start := |buf.data|;
      var placeholder := SomeBytes();
      buf.Append(placeholder);
      var payloadPos := |buf.data|;
      buf.Append(payload.value);
      payloadLen := (|buf.data| - payloadPos) % 0x1_0000_0000;
      buf.Overwrite(start, WriteHeader(h.(payloadLen := payloadLen)));
      Filled(old(buf.data), placeholder, payload.value, WriteHeader(h.(payloadLen := payloadLen)));
    }
  }

  // The contents of an uninitialized array of header size.
  method SomeBytes() returns (bs: seq<Byte>)
    ensures |bs| == HEADER_SIZE
  {
    bs := ToBytes(0, HEADER_SIZE);
  }

  // ----- the reader -----

  datatype Reader = AwaitHeader | AwaitPayload(hdr: Header) | Closed

  datatype Frame = Frame(hdr: Header, payload: seq<Byte>)

  // The number of bytes the connection is configured to deliver next.
  function ReadSize(r: Reader): nat {
    if r.AwaitPayload? then r.hdr.payloadLen else HEADER_SIZE
  }

  // What the instance decides about a valid frame after the frames before it: to go on, or to
  // close the connection, as for a server handshake of a node that is already connected.
  type Refusal = (seq<Frame>, Frame) -> bool

  // A complete frame is handled, and the connection closed if the instance refuses it.
  function OnFrame(refuses: Refusal, done: seq<Frame>, f: Frame): (Reader, seq<Frame>) {
    if !ValidHeader(f.hdr) then (Closed, done)
    else (if refuses(done, f) then Closed else AwaitHeader, done + [f])
  }

  // One chunk of exactly the size that is read next.
  function OnData(refuses: Refusal, done: seq<Frame>, r: Reader, bs: seq<Byte>): (res: (Reader, seq<Frame>))
    requires !r.Closed? && |bs| == ReadSize(r)
  {
    if r.AwaitPayload? then OnFrame(refuses, done, Frame(r.hdr, bs))
    else if ReadHeader(bs).payloadLen > 0 then (AwaitPayload(ReadHeader(bs)), done)
    else OnFrame(refuses, done, Frame(ReadHeader(bs), []))
  }

  datatype Progress = Progress(reader: Reader, frames: seq<Frame>, rest: seq<Byte>)

  // Everything that can be read from the bytes that have arrived, after the frames in `done`.
  function ReadAll(refuses: Refusal, done: seq<Frame>, r: Reader, bs: seq<Byte>): Progress
    decreases |bs|
  {
    if r.Closed? || |bs| < ReadSize(r) || ReadSize(r) == 0 then Progress(r, done, bs)
    else
      var (r', frames) := OnData(refuses, done, r, bs[..ReadSize(r)]);
      ReadAll(refuses, frames, r', bs[ReadSize(r)..])
  }

  // A frame the protocol may send: valid, with the length of its payload in the header.
  ghost predicate Sendable(f: Frame) {
    CanonicalHeader(f.hdr) && |f.payload| == f.hdr.payloadLen && ValidHeader(f.hdr)
  }

  // What is read after one frame.
  function After(refuses: Refusal, done: seq<Frame>, f: Frame, rest: seq<Byte>): Progress {
    if refuses(done, f) then Progress(Closed, done + [f], rest) else ReadAll(refuses, done + [f], AwaitHeader, rest)
  }

  lemma ReadPayload(refuses: Refusal, done: seq<Frame>, f: Frame, rest: seq<Byte>)
    requires Sendable(f) && f.payload != []
    ensures ReadAll(refuses, done, AwaitPayload(f.hdr), f.payload + rest) == After(refuses, done, f, rest)
  {
    Cut(f.payload, rest);
  }

  lemma ReadHeaderFirst(refuses: Refusal, done: seq<Frame>, f: Frame, tail: seq<Byte>)
    requires Sendable(f)
    ensures ReadAll(refuses, done, AwaitHeader, WriteHeader(f.hdr) + tail) ==
            if f.payload == [] then After(refuses, done, f, tail) else ReadAll(refuses, done, AwaitPayload(f.hdr), tail)
  {
    HeaderRoundTrip(f.hdr);
    Cut(WriteHeader(f.hdr), tail);
  }

  lemma Cut<T>(a: seq<T>, b: seq<T>)
    ensures (a + b)[..|a|] == a && (a + b)[|a|..] == b
  {
  }

  lemma ReadOne(refuses: Refusal, done: seq<Frame>, f: Frame, rest: seq<Byte>)
    requires Sendable(f)
    ensures ReadAll(refuses, done, AwaitHeader, FrameBytes(f.hdr, f.payload) + rest) == After(refuses, done, f, rest)
  {
    assert f.hdr.(payloadLen := |f.payload| % 0x1_0000_0000) == f.hdr;
    Regroup(WriteHeader(f.hdr), f.payload, rest);
    ReadHeaderFirst(refuses, done, f, f.payload + rest);
    if f.payload == [] {
      assert f.payload + rest == rest;
    } else {
      ReadPayload(refuses, done, f, rest);
    }
  }

  function Stream(fs: seq<Frame>): seq<Byte> {
    if fs == [] then [] else FrameBytes(fs[0].hdr, fs[0].payload) + Stream(fs[1..])
  }

  // Writing one more frame behind a stream gives the stream of all of them.
  lemma {:induction false} StreamGrows(fs: seq<Frame>, f: Frame)
    ensures Stream(fs + [f]) == Stream(fs) + FrameBytes(f.hdr, f.payload)
  {
    if fs == [] {
      assert fs + [f] == [f] && Stream([]) + FrameBytes(f.hdr, f.payload) == FrameBytes(f.hdr, f.payload) + Stream([]);
    } else {
      assert (fs + [f])[1..] == fs[1..] + [f];
      StreamGrows(fs[1..], f);
      Regroup(FrameBytes(fs[0].hdr, fs[0].payload), Stream(fs[1..]), FrameBytes(f.hdr, f.payload));
    }
  }

  // Is frame k of a stream, after the frames before it, the first one that is refused?
  ghost predicate FirstRefused(refuses: Refusal, done: seq<Frame>, fs: seq<Frame>, k: nat) {
    k < |fs| && refuses(done + fs[..k], fs[k]) && NoneRefused(refuses, done, fs[..k])
  }

  ghost predicate NoneRefused(refuses: Refusal, done: seq<Frame>, fs: seq<Frame>) {
    forall k :: 0 <= k < |fs| ==> !refuses(done + fs[..k], fs[k])
  }

  lemma TailNotRefused(refuses: Refusal, done: seq<Frame>, fs: seq<Frame>)
    requires fs != [] && NoneRefused(refuses, done, fs)
    ensures !refuses(done, fs[0]) && NoneRefused(refuses, done + [fs[0]], fs[1..])
    ensures done + [fs[0]] + fs[1..] == done + fs
  {
    assert done + fs[..0] == done;
    forall k | 0 <= k < |fs[1..]| ensures !refuses(done + [fs[0]] + fs[1..][..k], fs[1..][k]) {
      assert done + [fs[0]] + fs[1..][..k] == done + fs[..k + 1];
    }
  }

  // The first frame of a stream, when it is not refused.
  lemma ReadFirst(refuses: Refusal, done: seq<Frame>, f: Frame, stream: seq<Byte>, rest: seq<Byte>)
    requires Sendable(f) && !refuses(done, f)
    ensures ReadAll(refuses, done, AwaitHeader, FrameBytes(f.hdr, f.payload) + stream + rest) ==
            ReadAll(refuses, done + [f], AwaitHeader, stream + rest)
  {
    Regroup(FrameBytes(f.hdr, f.payload), stream, rest);
    ReadOne(refuses, done, f, stream + rest);
  }

  ghost predicate AllSendable(fs: seq<Frame>) {
    forall i :: 0 <= i < |fs| ==> Sendable(fs[i])
  }

  // Exactly the frames that were written are recovered when none of them is refused,
  lemma {:induction false} StreamRoundTrip(refuses: Refusal, done: seq<Frame>, fs: seq<Frame>, rest: seq<Byte>)
    requires AllSendable(fs) && NoneRefused(refuses, done, fs)
    ensures ReadAll(refuses, done, AwaitHeader, Stream(fs) + rest) == ReadAll(refuses, done + fs, AwaitHeader, rest)
    decreases |fs|
  {
    if fs == [] {
      assert Stream(fs) + rest == rest && done + fs == done;
    } else {
      TailNotRefused(refuses, done, fs);
      ReadFirst(refuses, done, fs[0], Stream(fs[1..]), rest);
      StreamRoundTrip(refuses, done + [fs[0]], fs[1..], rest);
    }
  }

  // and exactly the frames up to the first refused one otherwise: then the connection is closed.
  lemma StreamUntilRefused(refuses: Refusal, done: seq<Frame>, fs: seq<Frame>, k: nat, rest: seq<Byte>)
    requires AllSendable(fs) && FirstRefused(refuses, done, fs, k)
    ensures ReadAll(refuses, done, AwaitHeader, Stream(fs) + rest) ==
            Progress(Closed, done + fs[..k + 1], Stream(fs[k + 1..]) + rest)
  {
    SplitStream(fs, k, rest);
    OneMore(done, fs, k);
    ReadRefused(refuses, done, fs[..k], fs[k], Stream(fs[k + 1..]) + rest);
  }

  lemma ReadRefused(refuses: Refusal, done: seq<Frame>, before: seq<Frame>, f: Frame, rest: seq<Byte>)
    requires AllSendable(before) && NoneRefused(refuses, done, before) && Sendable(f) && refuses(done + before, f)
    ensures ReadAll(refuses, done, AwaitHeader, Stream(before) + (FrameBytes(f.hdr, f.payload) + rest)) ==
            Progress(Closed, done + before + [f], rest)
  {
    StreamRoundTrip(refuses, done, before, FrameBytes(f.hdr, f.payload) + rest);
    ReadOne(refuses, done + before, f, rest);
  }

  lemma OneMore(done: seq<Frame>, fs: seq<Frame>, k: nat)
    requires k < |fs|
    ensures done + fs[..k] + [fs[k]] == done + fs[..k + 1]
  {
  }

  lemma {:induction false} SplitStream(fs: seq<Frame>, k: nat, rest: seq<Byte>)
    requires k < |fs|
    ensures Stream(fs) + rest == Stream(fs[..k]) + (FrameBytes(fs[k].hdr, fs[k].payload) + (Stream(fs[k + 1..]) + rest))
  {
    var first := FrameBytes(fs[0].hdr, fs[0].payload);
    Regroup(first, Stream(fs[1..]), rest);
    if k == 0 {
      Nothing(first + (Stream(fs[1..]) + rest));
    } else {
      SplitStream(fs[1..], k - 1, rest);
      assert fs[1..][..k - 1] == fs[..k][1..] && fs[1..][k..] == fs[k + 1..];
      Regroup(first, Stream(fs[..k][1..]), FrameBytes(fs[k].hdr, fs[k].payload) + (Stream(fs[k + 1..]) + rest));
    }
  }

  lemma Nothing(bs: seq<Byte>)
    ensures [] + bs == bs
  {
  }

  lemma Regroup<T>(a: seq<T>, b: seq<T>, c: seq<T>)
    ensures a + b + c == a + (b + c)
  {
  }

  // It does not matter how the bytes are cut into pieces on the way.
  lemma {:induction false} ReadInPieces(refuses: Refusal, done: seq<Frame>, r: Reader, a: seq<Byte>, b: seq<Byte>)
    ensures var p := ReadAll(refuses, done, r, a);
            ReadAll(refuses, done, r, a + b) == ReadAll(refuses, p.frames, p.reader, p.rest + b)
    decreases |a|
  {
    var n := ReadSize(r);
    if !r.Closed? && n <= |a| && n != 0 {
      assert (a + b)[..n] == a[..n] && (a + b)[n..] == a[n..] + b;
      var (r', frames) := OnData(refuses, done, r, a[..n]);
      ReadInPieces(refuses, frames, r', a[n..], b);
    }
  }
}
