/**
 Bytes, little-endian integers as the binary serializer writes them on the machine it runs on,
 and node identifiers: a 20-byte host hash and a process id, or the invalid id.
 */
module NodeIds {
  import opened Bits

  type Byte = x: int | 0 <= x < 256
  type U32 = x: int | 0 <= x < 0x1_0000_0000
  type U64 = x: int | 0 <= x < 0x1_0000_0000_0000_0000

  const HOST_ID_SIZE: nat := 20
  const NODE_ID_SIZE: nat := 24

  const ZERO_HOST: seq<Byte> :=
    [0, 0, 0, 0, 0, 0, 0, 0, 0, 0, 0, 0, 0, 0, 0, 0, 0, 0, 0, 0]

  type Host = s: seq<Byte> | |s| == HOST_ID_SIZE witness ZERO_HOST

  datatype NodeId = InvalidNode | Node(host: Host, pid: U32)

  // ----- integers -----

  function Pow256(k: nat): nat {
    if k == 0 then 1 else 256 * Pow256(k - 1)
  }

  function ToBytes(n: nat, k: nat): (bs: seq<Byte>)
    ensures |bs| == k
  {
    if k == 0 then [] else [n % 256] + ToBytes(n / 256, k - 1)
  }

  function FromBytes(bs: seq<Byte>): (n: nat)
    ensures n < Pow256(|bs|)
  {
    if bs == [] then 0 else bs[0] + 256 * FromBytes(bs[1..])
  }

  lemma {:induction false} BytesRoundTrip(n: nat, k: nat)
    requires n < Pow256(k)
    ensures FromBytes(ToBytes(n, k)) == n
  {
    if k > 0 {
      BytesRoundTrip(n / 256, k - 1);
    }
  }

  lemma LowByte(b: Byte, m: nat)
    ensures (b + 256 * m) % 256 == b && (b + 256 * m) / 256 == m
  {
  }

  lemma {:induction false} NumberRoundTrip(bs: seq<Byte>)
    ensures ToBytes(FromBytes(bs), |bs|) == bs
  {
    if bs != [] {
      NumberRoundTrip(bs[1..]);
      LowByte(bs[0], FromBytes(bs[1..]));
    }
  }

  lemma Widths()
    ensures Pow256(4) == 0x1_0000_0000 && Pow256(8) == 0x1_0000_0000_0000_0000
  {
    assert Pow256(2) == 0x1_0000;
    assert Pow256(3) == 0x100_0000;
    assert Pow256(4) == 0x1_0000_0000;
    assert Pow256(5) == 0x100_0000_0000;
    assert Pow256(6) == 0x1_0000_0000_0000;
    assert Pow256(7) == 0x100_0000_0000_0000;
  }

  // ----- serialization -----

  // The invalid id is written like host 0, process 0, and read back as invalid.
  function HostOf(n: NodeId): Host { if n.Node? then n.host else ZERO_HOST }

  function PidOf(n: NodeId): U32 { if n.Node? then n.pid else 0 }

  predicate Canonical(n: NodeId) { n != Node(ZERO_HOST, 0) }

  predicate AllZero(host: Host) {
    forall i :: 0 <= i < HOST_ID_SIZE ==> host[i] == 0
  }

  function Serialize(n: NodeId): (bs: seq<Byte>)
    ensures |bs| == NODE_ID_SIZE
  {
    HostOf(n) + ToBytes(PidOf(n), 4)
  }

  function Deserialize(bs: seq<Byte>): (n: NodeId)
    requires |bs| == NODE_ID_SIZE
    ensures Canonical(n)
  {
    Widths();
    if FromBytes(bs[HOST_ID_SIZE..]) == 0 && AllZero(bs[..HOST_ID_SIZE]) then InvalidNode
    else Node(bs[..HOST_ID_SIZE], FromBytes(bs[HOST_ID_SIZE..]))
  }

  lemma NodeRoundTrip(n: NodeId)
    ensures Deserialize(Serialize(n)) == n <==> Canonical(n)
  {
    Widths();
    var bs := Serialize(n);
    BytesRoundTrip(PidOf(n), 4);
    assert bs[..HOST_ID_SIZE] == HostOf(n);
    assert bs[HOST_ID_SIZE..] == ToBytes(PidOf(n), 4);
    if n.Node? && AllZero(n.host) {
      assert n.host == ZERO_HOST;
    }
  }

  lemma NodeBytesRoundTrip(bs: seq<Byte>)
    requires |bs| == NODE_ID_SIZE
    ensures Serialize(Deserialize(bs)) == bs
  {
    NumberRoundTrip(bs[HOST_ID_SIZE..]);
    if Deserialize(bs).InvalidNode? {
      assert bs[..HOST_ID_SIZE] == ZERO_HOST;
    }
    assert bs == bs[..HOST_ID_SIZE] + bs[HOST_ID_SIZE..];
  }

  // ----- comparison -----

  // strncmp: the first difference decides, unless both strings end before it.
  function StrNCmp(a: seq<Byte>, b: seq<Byte>): int
    requires |a| == |b|
  {
    if a == [] then 0
    else if a[0] != b[0] then a[0] - b[0]
    else if a[0] == 0 then 0
    else StrNCmp(a[1..], b[1..])
  }

  function Compare(a: NodeId, b: NodeId): int {
    if a.InvalidNode? && b.InvalidNode? then 0
    else if b.InvalidNode? then 1
    else if a.InvalidNode? then -1
    else if StrNCmp(a.host, b.host) != 0 then StrNCmp(a.host, b.host)
    else if a.pid < b.pid then -1
    else if a.pid == b.pid then 0
    else 1
  }

  predicate Same(a: NodeId, b: NodeId) { Compare(a, b) == 0 }

  lemma {:induction false} StrNCmpOrder(a: seq<Byte>, b: seq<Byte>, c: seq<Byte>)
    requires |a| == |b| == |c|
    ensures StrNCmp(a, b) < 0 <==> StrNCmp(b, a) > 0
    ensures StrNCmp(a, b) == 0 <==> StrNCmp(b, a) == 0
    ensures StrNCmp(a, b) <= 0 && StrNCmp(b, c) <= 0 ==> StrNCmp(a, c) <= 0
    ensures StrNCmp(a, b) == 0 && StrNCmp(b, c) == 0 ==> StrNCmp(a, c) == 0
    ensures StrNCmp(a, b) <= 0 && StrNCmp(b, c) <= 0 && StrNCmp(a, c) == 0 ==> StrNCmp(a, b) == 0 && StrNCmp(b, c) == 0
  {
    if a != [] {
      StrNCmpOrder(a[1..], b[1..], c[1..]);
    }
  }

  // Node ids are totally preordered by compare.
  lemma CompareIsAnOrder(a: NodeId, b: NodeId, c: NodeId)
    ensures Compare(a, a) == 0
    ensures Compare(a, b) < 0 <==> Compare(b, a) > 0
    ensures Compare(a, b) <= 0 && Compare(b, c) <= 0 ==> Compare(a, c) <= 0
    ensures Same(a, b) && Same(b, c) ==> Same(a, c)
  {
    if a.Node? {
      StrNCmpSelf(a.host);
    }
    if a.Node? && b.Node? {
      StrNCmpOrder(a.host, b.host, if c.Node? then c.host else b.host);
    }
  }

  lemma {:induction false} StrNCmpSelf(a: seq<Byte>)
    ensures StrNCmp(a, a) == 0
  {
    if a != [] {
      StrNCmpSelf(a[1..]);
    }
  }

  // Equal strings agree up to the first zero byte and in it,
  lemma {:induction false} AgreeBeforeZero(a: seq<Byte>, b: seq<Byte>, n: nat)
    requires |a| == |b| && n <= |a| && StrNCmp(a, b) == 0 && forall i :: 0 <= i < n - 1 ==> a[i] != 0
    ensures a[..n] == b[..n]
  {
    if n > 1 {
      assert forall i :: 0 <= i < n - 2 ==> a[1..][i] == a[i + 1];
      AgreeBeforeZero(a[1..], b[1..], n - 1);
      assert a[..n] == [a[0]] + a[1..][..n - 1] && b[..n] == [b[0]] + b[1..][..n - 1];
    }
  }

  // and whatever follows it does not matter.
  lemma {:induction false} StopsAtZero(a: seq<Byte>, b: seq<Byte>, n: nat)
    requires |a| == |b| && n <= |a| && a[..n] == b[..n] && 0 in a[..n]
    ensures StrNCmp(a, b) == 0
  {
    assert a[0] == a[..n][0] == b[..n][0] == b[0];
    if a[0] != 0 {
      var i :| 0 <= i < n && a[..n][i] == 0;
      assert a[1..][..n - 1] == a[..n][1..] && b[1..][..n - 1] == b[..n][1..];
      assert a[1..][..n - 1][i - 1] == 0;
      StopsAtZero(a[1..], b[1..], n - 1);
    }
  }

  // The same id but for one byte of the host, behind a zero byte.
  lemma DiffersBehindZero(a: NodeId, k: nat) returns (b: NodeId)
    requires a.Node? && k < HOST_ID_SIZE && 0 in a.host[..k]
    ensures Same(a, b) && b.Node? && b.pid == a.pid && b.host == a.host[k := 255 - a.host[k]]
  {
    var other: Host := a.host[k := 255 - a.host[k]];
    b := Node(other, a.pid);
    StopsAtZero(a.host, other, k);
  }

  // Equal in the sense of compare means identical exactly for ids whose host has no zero byte
  // before its last byte: strncmp stops at a zero byte.
  lemma SameIsIdentityIff(a: NodeId)
    ensures (forall b :: Same(a, b) ==> a == b) <==> (a.Node? ==> 0 !in a.host[..HOST_ID_SIZE - 1])
  {
    if a.Node? {
      if 0 in a.host[..HOST_ID_SIZE - 1] {
        var b := DiffersBehindZero(a, HOST_ID_SIZE - 1);
        assert b.host[HOST_ID_SIZE - 1] != a.host[HOST_ID_SIZE - 1];
      } else {
        assert forall i :: 0 <= i < HOST_ID_SIZE - 1 ==> a.host[i] == a.host[..HOST_ID_SIZE - 1][i];
        forall b | Same(a, b) ensures a == b {
          AgreeBeforeZero(a.host, b.host, HOST_ID_SIZE);
          assert a.host == a.host[..HOST_ID_SIZE] && b.host == b.host[..HOST_ID_SIZE];
        }
      }
    }
  }

  // ----- hashing -----

  // The hash of the unordered containers: the process id and the first eight bytes of the host,
  // read as one little-endian number.
  function HashOf(n: NodeId): nat {
    if n.InvalidNode? then 0 else Xor(n.pid, FromBytes(n.host[..8]))
  }

  // Ids that are equal in the sense of compare have equal hashes, as the unordered containers of
  // the routing table need, exactly when the host has no zero byte among its first seven.
  lemma SameHashesIff(a: NodeId)
    ensures (forall b :: Same(a, b) ==> HashOf(a) == HashOf(b)) <==> (a.Node? ==> 0 !in a.host[..7])
  {
    if a.Node? {
      if 0 in a.host[..7] {
        var b := DiffersBehindZero(a, 7);
        assert a.host[..8][7] != b.host[..8][7];
        if HashOf(a) == HashOf(b) {
          XorCancels(a.pid, FromBytes(a.host[..8]), FromBytes(b.host[..8]));
          NumberRoundTrip(a.host[..8]);
          NumberRoundTrip(b.host[..8]);
        }
        assert HashOf(a) != HashOf(b);
      } else {
        assert forall i :: 0 <= i < 7 ==> a.host[i] == a.host[..7][i];
        forall b | Same(a, b) ensures HashOf(a) == HashOf(b) {
          AgreeBeforeZero(a.host, b.host, 8);
        }
      }
    }
  }
}
