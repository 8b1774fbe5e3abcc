/** Packing flows into NetFlow v9 and IPFIX messages, in a buffer of fixed size. */
module NetFlowPacket {
  import opened Bytes
  import opened Sequences
  import opened JsonTree
  import opened FlowTypes
  import opened NetFlowWire

  const MAX_PACKET: nat := 1400
  const TWO_32: nat := 0x1_0000_0000
  const TWO_64: nat := 0x1_0000_0000_0000_0000

  // ----- flows and the values they are exported with -----

  predicate WfFlow(f: Flow) {
    |f.key.src| == 16 && |f.key.dst| == 16
  }

  /** The four record layouts: protocol version and address family. */
  datatype Kind = V9Inet | V9Inet6 | IpfixInet | IpfixInet6

  const ID_INET: nat := 256
  const ID_INET6: nat := 257

  function IdOf(k: Kind): (id: nat) {
    if k.V9Inet? || k.IpfixInet? then ID_INET else ID_INET6
  }

  /** The template of a layout; the kinds are the registered information element numbers. */
  function FieldsOf(k: Kind): (fs: seq<Field>)
    ensures |fs| == 11
  {
    match k
    case V9Inet =>
      [Field(8, 4), Field(12, 4), Field(7, 2), Field(11, 2), Field(4, 1), Field(1, 4), Field(2, 4), Field(6, 1),
       Field(5, 1), Field(22, 4), Field(21, 4)]
    case V9Inet6 =>
      [Field(27, 16), Field(28, 16), Field(7, 2), Field(11, 2), Field(4, 1), Field(1, 4), Field(2, 4), Field(6, 1),
       Field(31, 4), Field(22, 4), Field(21, 4)]
    case IpfixInet =>
      [Field(8, 4), Field(12, 4), Field(7, 2), Field(11, 2), Field(4, 1), Field(6, 1), Field(5, 1), Field(85, 8),
       Field(86, 8), Field(152, 8), Field(153, 8)]
    case IpfixInet6 =>
      [Field(27, 16), Field(28, 16), Field(7, 2), Field(11, 2), Field(4, 1), Field(6, 1), Field(31, 4), Field(85, 8),
       Field(86, 8), Field(152, 8), Field(153, 8)]
  }

  /** The record length the packing loops use. */
  function LengthOf(k: Kind): (n: nat) {
    match k
    case V9Inet => 31
    case V9Inet6 => 58
    case IpfixInet => 47
    case IpfixInet6 => 74
  }

  /** Milliseconds since the exporter started, modulo 2^32; 0 for a flow older than that. */
  function Uptime(boot: nat, usec: nat): (ms: nat)
    ensures ms < TWO_32
  {
    var sec := usec / 1000000;
    if sec < boot then 0
    else ((sec - boot) % TWO_32 * 1000 + usec % 1000000 / 1000) % TWO_32
  }

  function Flags(f: Flow): (b: byte) {
    Or(f.flagsFwd, f.flagsRev)
  }

  /** The values a flow is exported with, in template order. */
  function ValuesOf(k: Kind, boot: nat, f: Flow): (vs: seq<seq<byte>>)
    requires WfFlow(f)
    ensures |vs| == 11
  {
    match k
    case V9Inet =>
      [f.key.src[..4], f.key.dst[..4], U16(f.key.srcPort), U16(f.key.dstPort), [f.key.proto], Be(Octets(f) % TWO_32, 4),
       Be(Packets(f) % TWO_32, 4), [Flags(f)], [f.key.tos], Be(Uptime(boot, f.start), 4), Be(Uptime(boot, f.last), 4)]
    case V9Inet6 =>
      [f.key.src, f.key.dst, U16(f.key.srcPort), U16(f.key.dstPort), [f.key.proto], Be(Octets(f) % TWO_32, 4),
       Be(Packets(f) % TWO_32, 4), [Flags(f)], Be(f.flowLabel, 4), Be(Uptime(boot, f.start), 4),
       Be(Uptime(boot, f.last), 4)]
    case IpfixInet =>
      [f.key.src[..4], f.key.dst[..4], U16(f.key.srcPort), U16(f.key.dstPort), [f.key.proto], [Flags(f)], [f.key.tos],
       Be(Octets(f) % TWO_64, 8), Be(Packets(f) % TWO_64, 8), Be(f.start / 1000, 8), Be(f.last / 1000, 8)]
    case IpfixInet6 =>
      [f.key.src, f.key.dst, U16(f.key.srcPort), U16(f.key.dstPort), [f.key.proto], [Flags(f)], Be(f.flowLabel, 4),
       Be(Octets(f) % TWO_64, 8), Be(Packets(f) % TWO_64, 8), Be(f.start / 1000, 8), Be(f.last / 1000, 8)]
  }

  function AllValues(k: Kind, boot: nat, flows: seq<Flow>): (r: seq<seq<seq<byte>>>)
    requires forall i | 0 <= i < |flows| :: WfFlow(flows[i])
    ensures |r| == |flows| && forall i | 0 <= i < |flows| :: r[i] == ValuesOf(k, boot, flows[i])
  {
    seq(|flows|, i requires 0 <= i < |flows| => ValuesOf(k, boot, flows[i]))
  }

  lemma ValuesMatch(k: Kind, boot: nat, f: Flow)
    requires WfFlow(f)
    ensures Matches(FieldsOf(k), ValuesOf(k, boot, f))
  {
  }

  /** What each information element means for a flow, whatever the layout. */
  function Element(boot: nat, f: Flow, kind: nat): (v: seq<byte>)
    requires WfFlow(f)
  {
    match kind
    case 1 => Be(Octets(f) % TWO_32, 4)
    case 2 => Be(Packets(f) % TWO_32, 4)
    case 4 => [f.key.proto]
    case 5 => [f.key.tos]
    case 6 => [Flags(f)]
    case 7 => U16(f.key.srcPort)
    case 8 => f.key.src[..4]
    case 11 => U16(f.key.dstPort)
    case 12 => f.key.dst[..4]
    case 21 => Be(Uptime(boot, f.last), 4)
    case 22 => Be(Uptime(boot, f.start), 4)
    case 27 => f.key.src
    case 28 => f.key.dst
    case 31 => Be(f.flowLabel, 4)
    case 85 => Be(Octets(f) % TWO_64, 8)
    case 86 => Be(Packets(f) % TWO_64, 8)
    case 152 => Be(f.start / 1000, 8)
    case 153 => Be(f.last / 1000, 8)
    case _ => []
  }

  /** Every record writer puts at each place the element its template announces there. */
  lemma {:induction false} ElementsInPlace(k: Kind, boot: nat, f: Flow, i: nat)
    requires WfFlow(f) && i < 11
    ensures ValuesOf(k, boot, f)[i] == Element(boot, f, FieldsOf(k)[i].kind)
  {
    match k
    case V9Inet =>
    case V9Inet6 =>
    case IpfixInet =>
    case IpfixInet6 =>
  }

  lemma {:induction false} LengthStep(fs: seq<Field>, n: nat)
    requires n < |fs|
    ensures RecordLength(fs[..n + 1]) == RecordLength(fs[..n]) + fs[n].len
  {
    assert fs[..n + 1][..n] == fs[..n];
  }

  /** The record lengths in the packing loops are those the templates announce. */
  lemma {:induction false} LengthsAgree(k: Kind)
    ensures RecordLength(FieldsOf(k)) == LengthOf(k)
  {
    var fs := FieldsOf(k);
    LengthStep(fs, 0);
    LengthStep(fs, 1);
    LengthStep(fs, 2);
    LengthStep(fs, 3);
    LengthStep(fs, 4);
    LengthStep(fs, 5);
    LengthStep(fs, 6);
    LengthStep(fs, 7);
    LengthStep(fs, 8);
    LengthStep(fs, 9);
    LengthStep(fs, 10);
    assert fs[..11] == fs;
  }

  lemma {:induction false} Powers()
    ensures Pow256(2) == 0x1_0000 && Pow256(4) == TWO_32 && Pow256(8) == TWO_64
  {
    assert Pow256(4) == 256 * Pow256(3) == 65536 * Pow256(2);
    assert Pow256(6) == 65536 * Pow256(4);
    assert Pow256(8) == 65536 * Pow256(6);
  }

  /** What a v9 collector computes from the values of a flow: counters modulo 2^32. */
  lemma {:induction false} V9Means(k: Kind, boot: nat, f: Flow)
    requires Aligned(k) && WfFlow(f) && f.key.srcPort < 0x1_0000 && f.key.dstPort < 0x1_0000
    ensures var vs := ValuesOf(k, boot, f);
            && Number(vs[2]) == f.key.srcPort && Number(vs[3]) == f.key.dstPort
            && Number(vs[5]) == Octets(f) % TWO_32 && Number(vs[6]) == Packets(f) % TWO_32
            && Number(vs[9]) == Uptime(boot, f.start) && Number(vs[10]) == Uptime(boot, f.last)
  {
    Powers();
    NumberRead(f.key.srcPort, 2);
    NumberRead(f.key.dstPort, 2);
    NumberRead(Octets(f) % TWO_32, 4);
    NumberRead(Packets(f) % TWO_32, 4);
    NumberRead(Uptime(boot, f.start), 4);
    NumberRead(Uptime(boot, f.last), 4);
  }

  lemma {:induction false} Read64(n: nat)
    requires n < TWO_64
    ensures Number(Be(n, 8)) == n
  {
    Powers();
    NumberRead(n, 8);
  }

  /** What an IPFIX collector computes: whole 64-bit counters. */
  lemma {:induction false} IpfixCounters(k: Kind, boot: nat, f: Flow)
    requires !Aligned(k) && WfFlow(f) && Octets(f) < TWO_64 && Packets(f) < TWO_64
    ensures var vs := ValuesOf(k, boot, f); Number(vs[7]) == Octets(f) && Number(vs[8]) == Packets(f)
  {
    var o, p := Octets(f) % TWO_64, Packets(f) % TWO_64;
    Read64(o);
    Read64(p);
    assert o == Octets(f) && p == Packets(f);
    assert ValuesOf(k, boot, f)[7] == Be(o, 8) && ValuesOf(k, boot, f)[8] == Be(p, 8);
  }

  /** ... and times in milliseconds. */
  lemma {:induction false} IpfixTimes(k: Kind, boot: nat, f: Flow)
    requires !Aligned(k) && WfFlow(f) && f.start < TWO_64 && f.last < TWO_64
    ensures var vs := ValuesOf(k, boot, f); Number(vs[9]) == f.start / 1000 && Number(vs[10]) == f.last / 1000
  {
    var a, b := f.start / 1000, f.last / 1000;
    Read64(a);
    Read64(b);
    assert ValuesOf(k, boot, f)[9] == Be(a, 8) && ValuesOf(k, boot, f)[10] == Be(b, 8);
  }

  // ----- the sets of a message -----

  predicate Aligned(k: Kind) {
    k.V9Inet? || k.V9Inet6?
  }

  /** Zero bytes after the records: v9 data sets end at a multiple of four. */
  function Padding(k: Kind, records: nat): (n: nat)
    ensures n <= 3
  {
    if Aligned(k) then Pad4(LengthOf(k) * records) else 0
  }

  function Pad4(len: nat): (n: nat)
    ensures n <= 3 && (len + n) % 4 == 0
  {
    (4 - len % 4) % 4
  }

  function DataBody(k: Kind, records: seq<seq<seq<byte>>>): (b: seq<byte>) {
    RecordBytes(records) + Zeros(Padding(k, |records|))
  }

  /** A data set, unless there is no record to put in it. */
  function DataSets(k: Kind, records: seq<seq<seq<byte>>>): (r: seq<RawSet>) {
    if |records| == 0 then [] else [RawSet(IdOf(k), DataBody(k, records))]
  }

  function TemplateSet(k: Kind): (s: RawSet) {
    RawSet(if Aligned(k) then 0 else 2, TemplateBody(IdOf(k), FieldsOf(k)))
  }

  /** A template set tells a collector the layout of the records that follow. */
  lemma {:induction false} TemplateAnnounced(k: Kind)
    ensures ReadTemplate(TemplateSet(k).body) == Some((IdOf(k), FieldsOf(k)))
  {
    TemplateRead(IdOf(k), FieldsOf(k));
  }

  lemma {:induction false} AllSetsAppend(a: seq<RawSet>, b: seq<RawSet>)
    ensures AllSets(a + b) == AllSets(a) + AllSets(b)
  {
    if |a| == 0 {
      assert a + b == b;
    } else {
      AllSetsAppend(a[1..], b);
      assert (a + b)[0] == a[0] && (a + b)[1..] == a[1..] + b;
      Concat3(SetBytes(a[0].id, a[0].body), AllSets(a[1..]), AllSets(b));
    }
  }

  /** The body of a data set is read back, whatever padding it has. */
  lemma {:induction false} DataRead(k: Kind, records: seq<seq<seq<byte>>>)
    requires AllMatch(FieldsOf(k), records)
    ensures RecordLength(FieldsOf(k)) == LengthOf(k)
    ensures ReadRecords(FieldsOf(k), DataBody(k, records)) == records
  {
    LengthsAgree(k);
    RecordsRead(FieldsOf(k), records, Zeros(Padding(k, |records|)));
  }

  /** The sets of a message: templates, IPv4 records, IPv6 records. */
  function MessageSets(ts: seq<RawSet>, k4: Kind, r4: seq<seq<seq<byte>>>, k6: Kind, r6: seq<seq<seq<byte>>>)
    : (r: seq<RawSet>)
  {
    ts + DataSets(k4, r4) + DataSets(k6, r6)
  }

  // ----- the buffer -----

  class Packet {
    const buf: array<byte>
    var off: nat

    ghost predicate Valid()
      reads this
    {
      buf.Length == MAX_PACKET && off <= MAX_PACKET
    }

    ghost function Bytes(): (b: seq<byte>)
      requires Valid()
      reads this, buf
    {
      buf[..off]
    }

    /** A buffer with room reserved for a header. */
    constructor (header: nat)
      requires header <= MAX_PACKET
      ensures Valid() && fresh(buf) && off == header
    {
      buf := new byte[MAX_PACKET](_ => 0);
      off := header;
    }

    method Put(bytes: seq<byte>)
      requires Valid() && off + |bytes| <= MAX_PACKET
      modifies `off, buf
      ensures Valid() && Bytes() == old(Bytes()) + bytes
    {
      ghost var before := Bytes();
      var at := off;
      for i := 0 to |bytes|
        invariant off == at + i && Bytes() == before + bytes[..i]
      {
        buf[off] := bytes[i];
        off := off + 1;
      }
      assert bytes[..|bytes|] == bytes;
    }

    method PutAll(values: seq<seq<byte>>)
      requires Valid() && off + |Concat(values)| <= MAX_PACKET
      modifies `off, buf
      ensures Valid() && Bytes() == old(Bytes()) + Concat(values)
    {
      ghost var before := Bytes();
      for i := 0 to |values|
        invariant Valid() && Bytes() == before + Concat(values[..i])
      {
        ConcatStep(values, i);
        Put(values[i]);
      }
      assert values[..|values|] == values;
    }

    /** Writes at a place that was reserved. */
    method Patch(at: nat, bytes: seq<byte>)
      requires Valid() && at + |bytes| <= off
      modifies buf
      ensures Valid() && Bytes() == old(Bytes())[..at] + bytes + old(Bytes())[at + |bytes|..]
    {
      ghost var before := Bytes();
      for i := 0 to |bytes|
        invariant Bytes() == before[..at] + bytes[..i] + before[at + i..]
      {
        buf[at + i] := bytes[i];
      }
      assert bytes[..|bytes|] == bytes;
    }

    method PutTemplate(k: Kind)
      requires Valid() && off + 52 <= MAX_PACKET
      modifies `off, buf
      ensures Valid() && off == old(off) + 52 && Bytes() == old(Bytes()) + AllSets([TemplateSet(k)])
    {
      PutFields(TemplateSet(k).id, IdOf(k), FieldsOf(k));
      OneSet(TemplateSet(k));
    }

    method PutFields(setId: nat, id: nat, fs: seq<Field>)
      requires Valid() && off + 8 + 4 * |fs| <= MAX_PACKET
      modifies `off, buf
      ensures Valid() && Bytes() == old(Bytes()) + SetBytes(setId, TemplateBody(id, fs))
    {
      ghost var before := Bytes();
      var head := U16(setId) + U16(8 + 4 * |fs|) + U16(id) + U16(|fs|);
      Put(head);
      for i := 0 to |fs|
        invariant off == |before| + 8 + 4 * i && Valid()
        invariant Bytes() == before + head + FieldBytes(fs[..i])
      {
        assert fs[..i + 1][..i] == fs[..i];
        Put(U16(fs[i].kind) + U16(fs[i].len));
      }
      assert fs[..|fs|] == fs;
      TemplateSetBytes(setId, id, fs);
    }

    /** Writes records while they fit, pads them and fills in the set header; without any record
        the reserved header is given back. */
    method PutData(k: Kind, records: seq<seq<seq<byte>>>) returns (n: nat)
      requires Valid() && off + 4 <= MAX_PACKET && (Aligned(k) ==> off % 4 == 0) && Sized(k, records)
      modifies `off, buf
      ensures Valid() && n <= |records|
      ensures Bytes() == old(Bytes()) + AllSets(DataSets(k, records[..n]))
      ensures off == old(off) + (if n == 0 then 0 else 4 + LengthOf(k) * n + Padding(k, n))
      ensures n < |records| ==> old(off) + 4 + LengthOf(k) * n + LengthOf(k) > MAX_PACKET
    {
      ghost var before := Bytes();
      var start := off;
      Put(Zeros(4));
      n := PutRecords(k, records);
      if n == 0 {
        off := start;
        assert Bytes() == before && AllSets([]) == [];
        return;
      }
      CloseSet(k, start, before, records[..n]);
      OneSet(RawSet(IdOf(k), DataBody(k, records[..n])));
    }

    /** Pads the records of a set and fills in its header. */
    method CloseSet(k: Kind, start: nat, ghost before: seq<byte>, ghost records: seq<seq<seq<byte>>>)
      requires Valid() && start == |before| && (Aligned(k) ==> start % 4 == 0)
      requires Bytes() == before + Zeros(4) + RecordBytes(records)
      requires off == start + 4 + LengthOf(k) * |records|
      modifies `off, buf
      ensures Valid() && Bytes() == before + SetBytes(IdOf(k), DataBody(k, records))
      ensures off == start + 4 + LengthOf(k) * |records| + Padding(k, |records|)
    {
      var pad := if Aligned(k) then Pad4(off - start) else 0;
      PaddingFits(k, start, |records|);
      Put(Zeros(pad));
      ghost var body := DataBody(k, records);
      Grouped(before, Zeros(4), RecordBytes(records), Zeros(pad));
      var head := U16(IdOf(k)) + U16(off - start);
      Patch(start, head);
      Patched(before, Zeros(4), body, head);
      assert off - start == 4 + |body|;
    }

    method PutRecords(k: Kind, records: seq<seq<seq<byte>>>) returns (n: nat)
      requires Valid() && Sized(k, records)
      modifies `off, buf
      ensures Valid() && n <= |records| && off == old(off) + LengthOf(k) * n
      ensures Bytes() == old(Bytes()) + RecordBytes(records[..n])
      ensures n < |records| ==> off + LengthOf(k) > MAX_PACKET
    {
      ghost var before := Bytes();
      n := 0;
      while n < |records| && off + LengthOf(k) <= MAX_PACKET
        invariant Valid() && n <= |records| && off == |before| + LengthOf(k) * n
        invariant Bytes() == before + RecordBytes(records[..n])
      {
        assert records[..n + 1][..n] == records[..n];
        OneMore(LengthOf(k), n);
        PutAll(records[n]);
        n := n + 1;
      }
    }
  }

  /** Records of the length the loops count with. */
  predicate Sized(k: Kind, records: seq<seq<seq<byte>>>) {
    forall i | 0 <= i < |records| :: |Concat(records[i])| == LengthOf(k)
  }

  lemma Grouped(a: seq<byte>, b: seq<byte>, c: seq<byte>, d: seq<byte>)
    ensures a + b + c + d == a + (b + (c + d))
  {
  }

  lemma {:induction false} RecordFits(k: Kind, boot: nat, f: Flow)
    requires WfFlow(f)
    ensures |Concat(ValuesOf(k, boot, f))| == LengthOf(k)
  {
    ValuesMatch(k, boot, f);
    LengthsAgree(k);
    ValuesRead(FieldsOf(k), ValuesOf(k, boot, f));
  }

  lemma {:induction false} OneSet(s: RawSet)
    ensures AllSets([s]) == SetBytes(s.id, s.body)
  {
    assert [s][1..] == [];
  }

  lemma TemplateSetBytes(setId: nat, id: nat, fs: seq<Field>)
    ensures SetBytes(setId, TemplateBody(id, fs))
         == U16(setId) + U16(8 + 4 * |fs|) + U16(id) + U16(|fs|) + FieldBytes(fs)
  {
  }

  /** Padding keeps within a buffer whose size is a multiple of four. */
  lemma {:induction false} PaddingFits(k: Kind, start: nat, n: nat)
    requires Aligned(k) ==> start % 4 == 0
    requires start + 4 + LengthOf(k) * n <= MAX_PACKET
    ensures start + 4 + LengthOf(k) * n + Padding(k, n) <= MAX_PACKET
    ensures Aligned(k) ==> Pad4(4 + LengthOf(k) * n) == Padding(k, n)
  {
    if Aligned(k) {
      RoundsUp(start, LengthOf(k) * n);
    }
  }

  lemma RoundsUp(start: nat, len: nat)
    requires start % 4 == 0 && start + 4 + len <= MAX_PACKET
    ensures start + 4 + len + Pad4(len) <= MAX_PACKET && Pad4(4 + len) == Pad4(len)
  {
  }

  /** A reserved place in front of the body is overwritten. */
  lemma {:induction false} Patched(before: seq<byte>, hole: seq<byte>, body: seq<byte>, head: seq<byte>)
    requires |hole| == |head|
    ensures var b := before + (hole + body);
            b[..|before|] + head + b[|before| + |head|..] == before + (head + body)
  {
    Pieces(before, hole, body);
  }

  lemma {:induction false} ConcatStep(values: seq<seq<byte>>, i: nat)
    requires i < |values|
    ensures Concat(values[..i + 1]) == Concat(values[..i]) + values[i]
    ensures |Concat(values[..i + 1])| <= |Concat(values)|
    decreases |values| - i
  {
    assert values[..i + 1][..i] == values[..i];
    if i + 1 < |values| {
      ConcatStep(values, i + 1);
    } else {
      assert values[..i + 1] == values;
    }
  }
}
