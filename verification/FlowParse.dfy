/** From a frame to the key of its flow: parsing and the canonical order of endpoints. */
module FlowParse {
  import opened Bytes
  import opened JsonTree
  import opened FlowTypes

  const TCP: byte := 6
  const UDP: byte := 17
  const ICMP: byte := 1
  const ICMPV6: byte := 58

  /** What the table needs of a packet. */
  datatype Parsed = Parsed(
    af: Family, proto: byte, src: seq<byte>, dst: seq<byte>, srcPort: nat, dstPort: nat,
    vlan: nat, tos: byte, flowLabel: nat, length: nat, flags: byte)

  predicate WfParsed(p: Parsed) {
    |p.src| == 16 && |p.dst| == 16 && p.af != OtherFamily
  }

  // ----- parsing -----

  function U16At(b: seq<byte>, i: nat): (n: nat)
    requires i + 2 <= |b|
  {
    256 * (b[i] as int) + b[i + 1] as int
  }

  function Pad16(a: seq<byte>): (r: seq<byte>)
    requires |a| <= 16
    ensures |r| == 16 && r[..|a|] == a
  {
    a + seq(16 - |a|, i => 0)
  }

  /** Ports and flags, when the transport header is there. */
  function WithTransport(p: Parsed, seg: seq<byte>, proto: byte): (r: Parsed)
    requires WfParsed(p)
    ensures WfParsed(r)
  {
    if proto == TCP && |seg| >= 14 then
      p.(proto := proto, srcPort := U16At(seg, 0), dstPort := U16At(seg, 2), flags := seg[13])
    else if proto == UDP && |seg| >= 4 then
      p.(proto := proto, srcPort := U16At(seg, 0), dstPort := U16At(seg, 2))
    else p.(proto := proto)
  }

  function ParseInet(b: seq<byte>, vlan: nat): (r: Option<Parsed>)
    ensures r.Some? ==> WfParsed(r.value)
  {
    if |b| < 20 || b[0] / 16 != 4 then None
    else
      var ihl := b[0] as int % 16 * 4;
      if ihl < 20 || ihl > |b| || U16At(b, 2) < ihl then None
      else
        var length := if U16At(b, 2) > |b| then |b| else U16At(b, 2);
        var p := Parsed(Inet, 0, Pad16(b[12..16]), Pad16(b[16..20]), 0, 0, vlan, b[1], 0, length, 0);
        Some(if |b| > ihl then WithTransport(p, b[ihl..], b[9]) else p.(proto := b[9]))
  }

  predicate Extension(nh: byte) {
    nh == 0 || nh == 43 || nh == 44 || nh == 60 || nh == 51
  }

  /** The length of an extension header. */
  function ExtensionSize(nh: byte, len: byte): (n: nat)
    ensures n >= 8
  {
    if nh == 44 then 8 else if nh == 51 then (len as int + 2) * 4 else (len as int + 1) * 8
  }

  /** Walks at most `left` extension headers. */
  function Walk(b: seq<byte>, nh: byte, off: nat, left: nat): (r: (byte, nat))
    decreases left
  {
    if !Extension(nh) || left == 0 || off + 2 > |b| then (nh, off)
    else Walk(b, b[off], off + ExtensionSize(nh, b[off + 1]), left - 1)
  }

  method WalkExtensions(b: seq<byte>, first: byte, at: nat, most: nat) returns (nh: byte, off: nat)
    ensures (nh, off) == Walk(b, first, at, most)
  {
    nh, off := first, at;
    var safety := most;
    while Extension(nh) && safety > 0 && off + 2 <= |b|
      invariant Walk(b, first, at, most) == Walk(b, nh, off, safety)
    {
      nh, off, safety := b[off], off + ExtensionSize(nh, b[off + 1]), safety - 1;
    }
  }

  function ParseInet6(b: seq<byte>, vlan: nat): (r: Option<Parsed>)
    ensures r.Some? ==> WfParsed(r.value)
  {
    if |b| < 40 || b[0] / 16 != 6 then None
    else
      var tos := b[0] as int % 16 * 16 + b[1] as int / 16;
      var flowLabel := b[1] as int % 16 * 65536 + b[2] as int * 256 + b[3] as int;
      var length := if 40 + U16At(b, 4) > |b| then |b| else 40 + U16At(b, 4);
      var (nh, off) := Walk(b, b[6], 40, 10);
      var p := Parsed(Inet6, nh, b[8..24], b[24..40], 0, 0, vlan, tos, flowLabel, length, 0);
      Some(if nh == 50 || nh == 59 || off >= |b| then p else WithTransport(p, b[off..], nh))
  }

  /** An Ethernet frame, with or without a VLAN tag. */
  function Parse(b: seq<byte>): (r: Option<Parsed>)
    ensures r.Some? ==> WfParsed(r.value)
  {
    if |b| < 14 then None
    else
      var kind := U16At(b, 12);
      if kind == 0x8100 then
        if |b| < 18 then None else ParseIp(U16At(b, 16), b[18..], U16At(b, 14) % 4096)
      else ParseIp(kind, b[14..], 0)
  }

  function ParseIp(kind: nat, b: seq<byte>, vlan: nat): (r: Option<Parsed>)
    ensures r.Some? ==> WfParsed(r.value)
  {
    if kind == 0x0800 then ParseInet(b, vlan) else if kind == 0x86DD then ParseInet6(b, vlan) else None
  }

  // ----- the canonical key -----

  /** `memcmp`, as the sign of the first difference. */
  function Cmp(a: seq<byte>, b: seq<byte>): (c: int)
    requires |a| == |b|
  {
    if |a| == 0 then 0 else if a[0] < b[0] then -1 else if a[0] > b[0] then 1 else Cmp(a[1..], b[1..])
  }

  function Address(a: seq<byte>, af: Family): (r: seq<byte>)
    requires |a| == 16
    ensures |r| == if af == Inet then 4 else 16
  {
    if af == Inet then a[..4] else a
  }

  predicate InOrder(p: Parsed)
    requires WfParsed(p)
  {
    var c := Cmp(Address(p.src, p.af), Address(p.dst, p.af));
    c < 0 || (c == 0 && p.srcPort <= p.dstPort)
  }

  /** The key at a track level, for endpoints given in canonical order. */
  function Ordered(p: Parsed, level: int, a: seq<byte>, b: seq<byte>, aPort: nat, bPort: nat): (k: Key)
    requires |a| == 16 && |b| == 16
  {
    Key(p.af, if level >= 1 then p.proto else 0,
        Pad16(Address(a, p.af)), Pad16(Address(b, p.af)),
        if level >= 2 then aPort else 0, if level >= 2 then bPort else 0,
        if level >= 4 then p.vlan else 0, if level >= 3 then p.tos else 0)
  }

  /** The key of a packet's flow and whether the packet goes against the canonical order. */
  function KeyOf(p: Parsed, level: int): (r: (Key, bool))
    requires WfParsed(p)
  {
    if InOrder(p) then (Ordered(p, level, p.src, p.dst, p.srcPort, p.dstPort), false)
    else (Ordered(p, level, p.dst, p.src, p.dstPort, p.srcPort), true)
  }

  function Swapped(p: Parsed): (r: Parsed) {
    p.(src := p.dst, dst := p.src, srcPort := p.dstPort, dstPort := p.srcPort)
  }

  lemma {:induction false} CmpAntisymmetric(a: seq<byte>, b: seq<byte>)
    requires |a| == |b|
    ensures Cmp(b, a) == -Cmp(a, b) && (Cmp(a, b) == 0 <==> a == b)
  {
    if |a| > 0 {
      CmpAntisymmetric(a[1..], b[1..]);
      if a[0] == b[0] {
        assert a == [a[0]] + a[1..] && b == [b[0]] + b[1..];
      }
    }
  }

  predicate SameEnds(p: Parsed)
    requires WfParsed(p)
  {
    Address(p.src, p.af) == Address(p.dst, p.af) && p.srcPort == p.dstPort
  }

  /** Symmetry: a packet and its answer belong to the same flow, in opposite directions unless
      both endpoints are the same. */
  lemma {:induction false} KeySymmetric(p: Parsed, level: int)
    requires WfParsed(p)
    ensures var (k, rev) := KeyOf(p, level);
            var (k1, rev1) := KeyOf(Swapped(p), level);
            k1 == k && (rev1 != rev <==> !SameEnds(p)) && (SameEnds(p) ==> !rev && !rev1)
  {
    CmpAntisymmetric(Address(p.src, p.af), Address(p.dst, p.af));
  }

  /** The parts of a packet that a track level tells apart. */
  predicate SameKind(p: Parsed, q: Parsed, level: int) {
    && p.af == q.af && (level >= 1 ==> p.proto == q.proto)
    && (level >= 3 ==> p.tos == q.tos) && (level >= 4 ==> p.vlan == q.vlan)
  }

  /** The same two endpoints in the same order; ports count from the level that tracks them. */
  predicate SameOrder(p: Parsed, q: Parsed, level: int)
    requires WfParsed(p) && WfParsed(q) && p.af == q.af
  {
    && Address(p.src, p.af) == Address(q.src, q.af) && Address(p.dst, p.af) == Address(q.dst, q.af)
    && (level >= 2 ==> p.srcPort == q.srcPort && p.dstPort == q.dstPort)
  }

  lemma {:induction false} PadInjective(a: seq<byte>, b: seq<byte>)
    requires |a| == |b| <= 16
    ensures Pad16(a) == Pad16(b) <==> a == b
  {
    if Pad16(a) == Pad16(b) {
      assert Pad16(a)[..|a|] == Pad16(b)[..|b|];
    }
  }

  lemma {:induction false} OrderedEqual(p: Parsed, q: Parsed, level: int)
    requires WfParsed(p) && WfParsed(q)
    ensures Ordered(p, level, p.src, p.dst, p.srcPort, p.dstPort) ==
            Ordered(q, level, q.src, q.dst, q.srcPort, q.dstPort) <==>
            SameKind(p, q, level) && SameOrder(p, q, level)
  {
    if p.af == q.af {
      PadInjective(Address(p.src, p.af), Address(q.src, q.af));
      PadInjective(Address(p.dst, p.af), Address(q.dst, q.af));
    }
  }

  /** Exactness: two packets share a flow exactly when the level does not tell them apart and
      their endpoints are the same, in either order. */
  lemma {:induction false} KeyExact(p: Parsed, q: Parsed, level: int)
    requires WfParsed(p) && WfParsed(q)
    ensures KeyOf(p, level).0 == KeyOf(q, level).0 <==>
            SameKind(p, q, level) && (SameOrder(p, q, level) || SameOrder(Swapped(p), q, level))
  {
    var a, b := if InOrder(p) then p else Swapped(p), if InOrder(q) then q else Swapped(q);
    CmpAntisymmetric(Address(p.src, p.af), Address(p.dst, p.af));
    CmpAntisymmetric(Address(q.src, q.af), Address(q.dst, q.af));
    OrderedEqual(a, b, level);
    assert KeyOf(p, level).0 == Ordered(a, level, a.src, a.dst, a.srcPort, a.dstPort);
    assert KeyOf(q, level).0 == Ordered(b, level, b.src, b.dst, b.srcPort, b.dstPort);
    if SameKind(p, q, level) && SameOrder(Swapped(a), b, level) {
      SwapSettled(a, b, level);
    }
  }

  /** Of two packets in canonical order with exchanged endpoints, both have equal endpoints as
      far as the level can tell. */
  lemma {:induction false} SwapSettled(a: Parsed, b: Parsed, level: int)
    requires WfParsed(a) && WfParsed(b) && a.af == b.af && InOrder(a) && InOrder(b)
    requires SameOrder(Swapped(a), b, level)
    ensures SameOrder(a, b, level)
  {
    CmpAntisymmetric(Address(a.src, a.af), Address(a.dst, a.af));
  }
}
