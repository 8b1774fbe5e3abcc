/** Frames built from their fields, and the proof that parsing finds these fields again. */
module FlowBuild {
  import opened Bytes
  import opened JsonTree
  import opened FlowTypes
  import opened FlowParse

  // ----- frames -----

  /** What follows the IP header. `seqAckOffset` is the TCP header between the ports and the flags. */
  datatype Segment =
    | Tcp(srcPort: nat, dstPort: nat, seqAckOffset: seq<byte>, flags: byte, rest: seq<byte>)
    | Udp(srcPort: nat, dstPort: nat, rest: seq<byte>)
    | Plain(proto: byte, rest: seq<byte>)

  predicate WfSegment(s: Segment) {
    match s
    case Tcp(a, b, mid, _, _) => a < 65536 && b < 65536 && |mid| == 9
    case Udp(a, b, _) => a < 65536 && b < 65536
    case Plain(proto, _) => proto != TCP && proto != UDP
  }

  function Two(n: nat): (b: seq<byte>)
    requires n < 65536
    ensures |b| == 2
  {
    [n / 256, n % 256]
  }

  function SegmentBytes(s: Segment): (b: seq<byte>)
    requires WfSegment(s)
  {
    match s
    case Tcp(a, b, mid, flags, rest) => Two(a) + Two(b) + mid + [flags] + rest
    case Udp(a, b, rest) => Two(a) + Two(b) + rest
    case Plain(_, rest) => rest
  }

  function ProtoOf(s: Segment): (p: byte) {
    match s
    case Tcp(_, _, _, _, _) => TCP
    case Udp(_, _, _) => UDP
    case Plain(p, _) => p
  }

  /** A packet with the protocol, ports and flags of a segment. */
  function Carrying(p: Parsed, s: Segment): (r: Parsed) {
    match s
    case Tcp(a, b, _, flags, _) => p.(proto := TCP, srcPort := a, dstPort := b, flags := flags)
    case Udp(a, b, _) => p.(proto := UDP, srcPort := a, dstPort := b)
    case Plain(proto, _) => p.(proto := proto)
  }

  lemma {:induction false} SegmentRead(p: Parsed, s: Segment)
    requires WfParsed(p) && WfSegment(s)
    ensures WithTransport(p, SegmentBytes(s), ProtoOf(s)) == Carrying(p, s)
  {
    var b := SegmentBytes(s);
    match s
    case Tcp(x, y, mid, flags, rest) =>
      assert b[0] == x / 256 && b[1] == x % 256 && b[2] == y / 256 && b[3] == y % 256 && b[13] == flags;
    case Udp(x, y, rest) =>
      assert b[0] == x / 256 && b[1] == x % 256 && b[2] == y / 256 && b[3] == y % 256;
    case Plain(_, _) =>
  }

  /** An IPv4 header: `words` is its length in 32-bit words; identification, time to live and
      checksum are free. */
  datatype Header4 = Header4(
    words: nat, tos: byte, total: nat, ident: seq<byte>, ttl: byte, check: seq<byte>,
    src: seq<byte>, dst: seq<byte>, options: seq<byte>)

  predicate WfHeader4(h: Header4) {
    && 5 <= h.words <= 15 && h.words * 4 <= h.total < 65536 && |h.ident| == 4 && |h.check| == 2
    && |h.src| == 4 && |h.dst| == 4 && |h.options| == h.words * 4 - 20
  }

  function Header4Bytes(h: Header4, proto: byte): (b: seq<byte>)
    requires WfHeader4(h)
    ensures |b| == h.words * 4
  {
    [64 + h.words, h.tos] + Two(h.total) + h.ident + [h.ttl, proto] + h.check + h.src + h.dst + h.options
  }

  /** Parsing an IPv4 packet finds its addresses, type of service, protocol, ports and flags,
      whatever its options and the fields it does not look at; the length is what was captured
      of it. */
  lemma {:induction false} Inet4Parsed(h: Header4, s: Segment, vlan: nat)
    requires WfHeader4(h) && WfSegment(s)
    ensures var b := Header4Bytes(h, ProtoOf(s)) + SegmentBytes(s);
            var p := Parsed(Inet, 0, Pad16(h.src), Pad16(h.dst), 0, 0, vlan, h.tos, 0,
                            if h.total > |b| then |b| else h.total, 0);
            ParseInet(b, vlan) == Some(Carrying(p, s))
  {
    var head, seg := Header4Bytes(h, ProtoOf(s)), SegmentBytes(s);
    var b := head + seg;
    Header4Fields(h, ProtoOf(s), seg);
    assert b[h.words * 4..] == seg;
    var p := Parsed(Inet, 0, Pad16(h.src), Pad16(h.dst), 0, 0, vlan, h.tos, 0,
                    if h.total > |b| then |b| else h.total, 0);
    SegmentRead(p, s);
  }

  lemma {:induction false} Header4Fields(h: Header4, proto: byte, seg: seq<byte>)
    requires WfHeader4(h)
    ensures var b := Header4Bytes(h, proto) + seg;
            && b[0] / 16 == 4 && b[0] % 16 == h.words && b[1] == h.tos && U16At(b, 2) == h.total && b[9] == proto
            && b[12..16] == h.src && b[16..20] == h.dst
  {
    var b := Header4Bytes(h, proto) + seg;
    assert b[0] == 64 + h.words;
    assert b[2] == h.total / 256 && b[3] == h.total % 256;
  }

  // ----- IPv6 -----

  /** An extension header: its kind, its length byte and the rest of it. */
  datatype Ext = Ext(kind: byte, len: byte, body: seq<byte>)

  predicate WfExts(es: seq<Ext>) {
    |es| > 0 ==> Extension(es[0].kind) && |es[0].body| + 2 == ExtensionSize(es[0].kind, es[0].len) && WfExts(es[1..])
  }

  /** The kind of what comes first. */
  function FirstKind(es: seq<Ext>, last: byte): (k: byte) {
    if |es| == 0 then last else es[0].kind
  }

  function ExtBytes(es: seq<Ext>, last: byte): (b: seq<byte>) {
    if |es| == 0 then []
    else [FirstKind(es[1..], last), es[0].len] + es[0].body + ExtBytes(es[1..], last)
  }

  lemma HeaderAhead(pre: seq<byte>, first: seq<byte>, rest: seq<byte>, tail: seq<byte>)
    requires |first| >= 2
    ensures var b := pre + (first + rest) + tail;
            b == pre + first + rest + tail && b[|pre|] == first[0] && b[|pre| + 1] == first[1]
  {
  }

  /** The walk passes over at most ten extension headers and stops at what they carry. */
  lemma {:induction false} ChainWalked(pre: seq<byte>, es: seq<Ext>, last: byte, tail: seq<byte>, left: nat)
    requires WfExts(es) && !Extension(last) && |es| <= left
    ensures var b := pre + ExtBytes(es, last) + tail;
            Walk(b, FirstKind(es, last), |pre|, left) == (last, |pre| + |ExtBytes(es, last)|)
    decreases |es|
  {
    if |es| > 0 {
      var e, rest := es[0], ExtBytes(es[1..], last);
      var first := [FirstKind(es[1..], last), e.len] + e.body;
      HeaderAhead(pre, first, rest, tail);
      ChainWalked(pre + first, es[1..], last, tail, left - 1);
    }
  }

  /** An IPv6 header; the hop limit is free. */
  datatype Header6 = Header6(tos: byte, flowLabel: nat, payload: nat, hops: byte, src: seq<byte>, dst: seq<byte>)

  predicate WfHeader6(h: Header6) {
    h.flowLabel < 0x10_0000 && h.payload < 65536 && |h.src| == 16 && |h.dst| == 16
  }

  function Header6Bytes(h: Header6, next: byte): (b: seq<byte>)
    requires WfHeader6(h)
    ensures |b| == 40
  {
    [96 + h.tos as int / 16, h.tos as int % 16 * 16 + h.flowLabel / 65536, h.flowLabel / 256 % 256, h.flowLabel % 256] +
    Two(h.payload) + [next, h.hops] + h.src + h.dst
  }

  lemma {:induction false} Header6Fields(h: Header6, next: byte, rest: seq<byte>)
    requires WfHeader6(h)
    ensures var b := Header6Bytes(h, next) + rest;
            && b[0] / 16 == 6 && b[0] as int % 16 * 16 + b[1] as int / 16 == h.tos
            && b[1] as int % 16 * 65536 + b[2] as int * 256 + b[3] as int == h.flowLabel
            && U16At(b, 4) == h.payload && b[6] == next && b[8..24] == h.src && b[24..40] == h.dst
  {
    var b := Header6Bytes(h, next) + rest;
    assert b[0] == 96 + h.tos as int / 16 && b[1] == h.tos as int % 16 * 16 + h.flowLabel / 65536;
    assert b[2] == h.flowLabel / 256 % 256 && b[3] == h.flowLabel % 256;
    assert b[4] == h.payload / 256 && b[5] == h.payload % 256 && b[6] == next;
    Label(h.flowLabel);
  }

  lemma Label(n: nat)
    requires n < 0x10_0000
    ensures n / 65536 < 16 && n / 65536 * 65536 + n / 256 % 256 * 256 + n % 256 == n
  {
    assert n == n / 256 * 256 + n % 256;
    assert n / 256 == n / 65536 * 256 + n / 256 % 256;
  }

  /** Parsing an IPv6 packet finds its fields through up to ten extension headers. A segment
      whose kind is itself an extension header, an encrypted payload or nothing is excluded:
      its transport is not looked at. */
  lemma {:induction false} Inet6Parsed(h: Header6, es: seq<Ext>, s: Segment, vlan: nat)
    requires WfHeader6(h) && WfExts(es) && |es| <= 10 && WfSegment(s)
    requires !Extension(ProtoOf(s)) && ProtoOf(s) != 50 && ProtoOf(s) != 59
    ensures var chain := ExtBytes(es, ProtoOf(s));
            var b := Header6Bytes(h, FirstKind(es, ProtoOf(s))) + chain + SegmentBytes(s);
            var p := Parsed(Inet6, ProtoOf(s), h.src, h.dst, 0, 0, vlan, h.tos, h.flowLabel,
                            if 40 + h.payload > |b| then |b| else 40 + h.payload, 0);
            ParseInet6(b, vlan) == Some(Carrying(p, s))
  {
    var next, chain, seg := FirstKind(es, ProtoOf(s)), ExtBytes(es, ProtoOf(s)), SegmentBytes(s);
    var head := Header6Bytes(h, next);
    var b := head + chain + seg;
    ThreeParts(head, chain, seg);
    Header6Fields(h, next, chain + seg);
    ChainWalked(head, es, ProtoOf(s), seg, 10);
    Inet6Fields(b, h, s, 40 + |chain|, vlan);
  }

  lemma ThreeParts(a: seq<byte>, b: seq<byte>, c: seq<byte>)
    ensures a + b + c == a + (b + c) && (a + b + c)[|a| + |b|..] == c
  {
  }

  lemma {:induction false} Inet6Fields(b: seq<byte>, h: Header6, s: Segment, off: nat, vlan: nat)
    requires WfHeader6(h) && WfSegment(s) && ProtoOf(s) != 50 && ProtoOf(s) != 59
    requires 40 <= off <= |b| && b[off..] == SegmentBytes(s)
    requires b[0] / 16 == 6 && b[0] as int % 16 * 16 + b[1] as int / 16 == h.tos
    requires b[1] as int % 16 * 65536 + b[2] as int * 256 + b[3] as int == h.flowLabel
    requires U16At(b, 4) == h.payload && b[8..24] == h.src && b[24..40] == h.dst
    requires Walk(b, b[6], 40, 10) == (ProtoOf(s), off)
    ensures var p := Parsed(Inet6, ProtoOf(s), h.src, h.dst, 0, 0, vlan, h.tos, h.flowLabel,
                            if 40 + h.payload > |b| then |b| else 40 + h.payload, 0);
            ParseInet6(b, vlan) == Some(Carrying(p, s))
  {
    var p := Parsed(Inet6, ProtoOf(s), h.src, h.dst, 0, 0, vlan, h.tos, h.flowLabel,
                    if 40 + h.payload > |b| then |b| else 40 + h.payload, 0);
    SegmentRead(p, s);
  }

  // ----- Ethernet -----

  /** A frame with any two hardware addresses, with or without a VLAN tag. */
  function FrameBytes(macs: seq<byte>, tag: Option<nat>, kind: nat, packet: seq<byte>): (b: seq<byte>)
    requires |macs| == 12 && kind < 65536 && (tag.Some? ==> tag.value < 65536)
  {
    match tag
    case None => macs + Two(kind) + packet
    case Some(t) => macs + Two(0x8100) + Two(t) + Two(kind) + packet
  }

  /** The frame around a packet does not matter, except for the VLAN number in its tag. */
  lemma {:induction false} FrameParsed(macs: seq<byte>, tag: Option<nat>, kind: nat, packet: seq<byte>)
    requires |macs| == 12 && kind < 65536 && kind != 0x8100 && (tag.Some? ==> tag.value < 65536)
    ensures Parse(FrameBytes(macs, tag, kind, packet))
         == ParseIp(kind, packet, if tag.Some? then tag.value % 4096 else 0)
  {
    match tag
    case None => Untagged(macs, kind, packet);
    case Some(t) => Tagged(macs, t, kind, packet);
  }

  lemma {:induction false} Untagged(macs: seq<byte>, kind: nat, packet: seq<byte>)
    requires |macs| == 12 && kind < 65536
    ensures var b := FrameBytes(macs, None, kind, packet); U16At(b, 12) == kind && b[14..] == packet
  {
    var b := FrameBytes(macs, None, kind, packet);
    assert b[12] == kind / 256 && b[13] == kind % 256;
  }

  lemma {:induction false} Tagged(macs: seq<byte>, t: nat, kind: nat, packet: seq<byte>)
    requires |macs| == 12 && kind < 65536 && t < 65536
    ensures var b := FrameBytes(macs, Some(t), kind, packet);
            |b| >= 18 && U16At(b, 12) == 0x8100 && U16At(b, 14) == t && U16At(b, 16) == kind && b[18..] == packet
  {
    var b := FrameBytes(macs, Some(t), kind, packet);
    assert b[12] == 0x81 && b[13] == 0 && b[14] == t / 256 && b[15] == t % 256;
    assert b[16] == kind / 256 && b[17] == kind % 256;
  }

  // ----- the answer to a packet -----

  /** A segment with the ports of another exchanged; the rest may differ. */
  predicate AnswerSegment(s: Segment, r: Segment) {
    match s
    case Tcp(a, b, _, _, _) => r.Tcp? && r.srcPort == b && r.dstPort == a
    case Udp(a, b, _) => r.Udp? && r.srcPort == b && r.dstPort == a
    case Plain(proto, _) => r.Plain? && r.proto == proto
  }

  /** A packet with the endpoints of another exchanged; length, flags and flow label may differ. */
  predicate Answers(p: Parsed, q: Parsed) {
    q == Swapped(p).(flowLabel := q.flowLabel, length := q.length, flags := q.flags)
  }

  /** Two frames are read as packets of the same flow, in the two directions unless both
      endpoints are the same. */
  ghost predicate SameFlow(b: seq<byte>, c: seq<byte>, level: int) {
    && Parse(b).Some? && Parse(c).Some?
    && var p, q := Parse(b).value, Parse(c).value;
       && KeyOf(p, level).0 == KeyOf(q, level).0
       && (KeyOf(p, level).1 != KeyOf(q, level).1 <==> !SameEnds(p))
  }

  lemma {:induction false} AnswerKey(p: Parsed, q: Parsed, level: int)
    requires WfParsed(p) && Answers(p, q)
    ensures KeyOf(p, level).0 == KeyOf(q, level).0 && (KeyOf(p, level).1 != KeyOf(q, level).1 <==> !SameEnds(p))
  {
    KeySymmetric(p, level);
    assert KeyOf(q, level) == KeyOf(Swapped(p), level);
  }

  predicate WfTag(tag: Option<nat>) {
    tag.Some? ==> tag.value < 65536
  }

  function Packet4(h: Header4, s: Segment): (b: seq<byte>)
    requires WfHeader4(h) && WfSegment(s)
  {
    Header4Bytes(h, ProtoOf(s)) + SegmentBytes(s)
  }

  /** On the bytes: an IPv4 frame with addresses and ports exchanged, and the same type of service
      and tag, belongs to the same flow, whatever else differs. */
  lemma {:induction false} AnswerOnTheWire(macs: seq<byte>, h: Header4, s: Segment, macs1: seq<byte>, h1: Header4,
                                           s1: Segment, tag: Option<nat>, level: int)
    requires |macs| == 12 && |macs1| == 12 && WfTag(tag)
    requires WfHeader4(h) && WfSegment(s) && WfHeader4(h1) && WfSegment(s1)
    requires h1.src == h.dst && h1.dst == h.src && h1.tos == h.tos && AnswerSegment(s, s1)
    ensures SameFlow(FrameBytes(macs, tag, 0x0800, Packet4(h, s)),
                     FrameBytes(macs1, tag, 0x0800, Packet4(h1, s1)), level)
  {
    var vlan := if tag.Some? then tag.value % 4096 else 0;
    FrameParsed(macs, tag, 0x0800, Packet4(h, s));
    FrameParsed(macs1, tag, 0x0800, Packet4(h1, s1));
    Inet4Parsed(h, s, vlan);
    Inet4Parsed(h1, s1, vlan);
    AnswerKey(ParseInet(Packet4(h, s), vlan).value, ParseInet(Packet4(h1, s1), vlan).value, level);
  }

  /** An IPv6 packet the walk gets through, with something in it that has ports or is looked at. */
  predicate WfPacket6(h: Header6, es: seq<Ext>, s: Segment) {
    && WfHeader6(h) && WfExts(es) && |es| <= 10 && WfSegment(s)
    && !Extension(ProtoOf(s)) && ProtoOf(s) != 50 && ProtoOf(s) != 59
  }

  function Packet6(h: Header6, es: seq<Ext>, s: Segment): (b: seq<byte>)
    requires WfPacket6(h, es, s)
  {
    Header6Bytes(h, FirstKind(es, ProtoOf(s))) + ExtBytes(es, ProtoOf(s)) + SegmentBytes(s)
  }

  /** The same for IPv6 frames, each with its own chain of extension headers. */
  lemma {:induction false} AnswerOnTheWire6(macs: seq<byte>, h: Header6, es: seq<Ext>, s: Segment, macs1: seq<byte>,
                                            h1: Header6, es1: seq<Ext>, s1: Segment, tag: Option<nat>, level: int)
    requires |macs| == 12 && |macs1| == 12 && WfTag(tag) && WfPacket6(h, es, s) && WfPacket6(h1, es1, s1)
    requires h1.src == h.dst && h1.dst == h.src && h1.tos == h.tos && AnswerSegment(s, s1)
    ensures SameFlow(FrameBytes(macs, tag, 0x86DD, Packet6(h, es, s)),
                     FrameBytes(macs1, tag, 0x86DD, Packet6(h1, es1, s1)), level)
  {
    var vlan := if tag.Some? then tag.value % 4096 else 0;
    FrameParsed(macs, tag, 0x86DD, Packet6(h, es, s));
    FrameParsed(macs1, tag, 0x86DD, Packet6(h1, es1, s1));
    Inet6Parsed(h, es, s, vlan);
    Inet6Parsed(h1, es1, s1, vlan);
    AnswerKey(ParseInet6(Packet6(h, es, s), vlan).value, ParseInet6(Packet6(h1, es1, s1), vlan).value, level);
  }
}
