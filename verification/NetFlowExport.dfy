/** The exporter: batches of flows become NetFlow v9 or IPFIX messages.

    The clock and the socket are unknown functions of the number of earlier uses. */
module NetFlowExport {
  import opened Bytes
  import opened Sequences
  import opened JsonTree
  import opened FlowTypes
  import opened NetFlowWire
  import opened NetFlowPacket
  import opened NetFlowCollector

  const RESEND_PACKETS: nat := 20
  const RESEND_SECONDS: nat := 300
  const IPFIX_BATCH: nat := 960

  // ----- which flows -----

  function Only(flows: seq<Flow>, af: Family): (r: seq<Flow>)
    ensures |r| <= |flows|
  {
    if |flows| == 0 then []
    else
      var last := flows[|flows| - 1];
      Only(flows[..|flows| - 1], af) + (if last.key.af == af then [last] else [])
  }

  predicate AllWf(flows: seq<Flow>) {
    forall i | 0 <= i < |flows| :: WfFlow(flows[i])
  }

  lemma {:induction false} OnlyWf(flows: seq<Flow>, af: Family)
    requires AllWf(flows)
    ensures AllWf(Only(flows, af))
  {
    if |flows| > 0 {
      OnlyWf(flows[..|flows| - 1], af);
    }
  }

  /** Sorts the flows by family; stops once `max` have been taken. */
  method Select(flows: seq<Flow>, max: nat) returns (v4: seq<Flow>, v6: seq<Flow>, n: nat)
    ensures n <= |flows| && v4 == Only(flows[..n], Inet) && v6 == Only(flows[..n], Inet6)
    ensures n < |flows| ==> |v4| + |v6| >= max
    ensures |v4| + |v6| <= n && |v4| + |v6| <= max
  {
    v4, v6, n := [], [], 0;
    while n < |flows| && |v4| + |v6| < max
      invariant n <= |flows| && v4 == Only(flows[..n], Inet) && v6 == Only(flows[..n], Inet6)
      invariant |v4| + |v6| <= n && |v4| + |v6| <= max
    {
      assert flows[..n + 1][..n] == flows[..n];
      if flows[n].key.af == Inet {
        v4 := v4 + [flows[n]];
      } else if flows[n].key.af == Inet6 {
        v6 := v6 + [flows[n]];
      }
      n := n + 1;
    }
  }

  // ----- what a message is -----

  /** A v9 message: within the limit, all of it in sets, and their number in the header. */
  predicate V9Ok(msg: seq<byte>) {
    && V9_HEADER <= |msg| <= MAX_PACKET && msg[..2] == U16(9)
    && ParseSets(msg[V9_HEADER..]).Some? && msg[2..4] == U16(|ParseSets(msg[V9_HEADER..]).value|)
  }

  /** An IPFIX message: within the limit, all of it in sets, and its length in the header. */
  predicate IpfixOk(msg: seq<byte>) {
    && IPFIX_HEADER <= |msg| <= MAX_PACKET && msg[..2] == U16(10) && msg[2..4] == U16(|msg|)
    && ParseSets(msg[IPFIX_HEADER..]).Some?
  }

  /** The rest of a v9 header. */
  predicate V9Stamped(msg: seq<byte>, uptime: nat, secs: nat, sequence: nat, source: nat) {
    |msg| >= V9_HEADER && msg[4..V9_HEADER] == Be(uptime, 4) + Be(secs, 4) + Be(sequence, 4) + Be(source, 4)
  }

  /** The rest of an IPFIX header. */
  predicate IpfixStamped(msg: seq<byte>, secs: nat, sequence: nat, source: nat) {
    |msg| >= IPFIX_HEADER && msg[4..IPFIX_HEADER] == Be(secs, 4) + Be(sequence, 4) + Be(source, 4)
  }

  /** The sequence number and the observation domain of an IPFIX message. */
  predicate InBatch(msg: seq<byte>, sequence: nat, source: nat) {
    |msg| >= IPFIX_HEADER && msg[8..12] == Be(sequence, 4) && msg[12..16] == Be(source, 4)
  }

  lemma {:induction false} StampedInBatch(msg: seq<byte>, secs: nat, sequence: nat, source: nat)
    requires IpfixStamped(msg, secs, sequence, source)
    ensures InBatch(msg, sequence, source)
  {
    var h := Be(secs, 4) + Be(sequence, 4) + Be(source, 4);
    assert msg[8..12] == h[4..8] && msg[12..16] == h[8..12];
  }

  lemma {:induction false} SetsShort(sets: seq<RawSet>, i: nat)
    requires i < |sets|
    ensures 4 + |sets[i].body| <= |AllSets(sets)|
  {
    if i > 0 {
      SetsShort(sets[1..], i - 1);
    }
  }

  lemma {:induction false} SetsFit(sets: seq<RawSet>)
    requires |AllSets(sets)| <= MAX_PACKET && forall i | 0 <= i < |sets| :: sets[i].id < 0x1_0000
    ensures ParseSets(AllSets(sets)) == Some(sets)
  {
    forall i | 0 <= i < |sets| ensures WfSet(sets[i]) {
      SetsShort(sets, i);
    }
    SetsRead(sets);
  }

  /** A message made of a header and these sets carries them. */
  lemma {:induction false} SheetCarried(p: Protocol, msg: seq<byte>, head: seq<byte>, s: Sheet)
    requires WfSheet(p, s) && |head| == Header(p) && msg == head + AllSets(SheetSets(p, s)) && |msg| <= MAX_PACKET
    ensures Carries(p, msg, s)
  {
    SetsFit(SheetSets(p, s));
    assert msg[Header(p)..] == AllSets(SheetSets(p, s));
  }

  lemma {:induction false} ValuesSized(k: Kind, boot: nat, flows: seq<Flow>)
    requires AllWf(flows)
    ensures Sized(k, AllValues(k, boot, flows)) && AllMatch(FieldsOf(k), AllValues(k, boot, flows))
  {
    var vs := AllValues(k, boot, flows);
    forall i | 0 <= i < |vs| ensures |Concat(vs[i])| == LengthOf(k) && Matches(FieldsOf(k), vs[i]) {
      RecordFits(k, boot, flows[i]);
      ValuesMatch(k, boot, flows[i]);
    }
  }

  // ----- building one message -----

  lemma {:induction false} SetsCount(ts: seq<RawSet>, k4: Kind, r4: seq<seq<seq<byte>>>, k6: Kind,
                                     r6: seq<seq<seq<byte>>>)
    ensures AllSets(MessageSets(ts, k4, r4, k6, r6))
         == AllSets(ts) + AllSets(DataSets(k4, r4)) + AllSets(DataSets(k6, r6))
  {
    AllSetsAppend(ts + DataSets(k4, r4), DataSets(k6, r6));
    AllSetsAppend(ts, DataSets(k4, r4));
  }

  lemma {:induction false} TwoSets(s: RawSet, t: RawSet)
    ensures AllSets([s, t]) == AllSets([s]) + AllSets([t])
  {
    AllSetsAppend([s], [t]);
    assert [s] + [t] == [s, t];
  }

  method PutBoth(p: Packet, k4: Kind, k6: Kind)
    requires p.Valid() && p.off + 104 <= MAX_PACKET
    modifies p`off, p.buf
    ensures p.Valid() && p.off == old(p.off) + 104
    ensures p.Bytes() == old(p.Bytes()) + AllSets([TemplateSet(k4), TemplateSet(k6)])
  {
    ghost var before := p.Bytes();
    p.PutTemplate(k4);
    p.PutTemplate(k6);
    ghost var a, b := AllSets([TemplateSet(k4)]), AllSets([TemplateSet(k6)]);
    Pieces(before, a, b);
    TwoSets(TemplateSet(k4), TemplateSet(k6));
  }

  method PutTemplates(p: Packet, protocol: Protocol, n: nat)
    requires p.Valid() && n <= 2 && p.off + 104 <= MAX_PACKET
    modifies p`off, p.buf
    ensures p.Valid() && p.off == old(p.off) + 52 * n
    ensures p.Bytes() == old(p.Bytes()) + AllSets(Templates(protocol, n))
  {
    if n == 1 {
      p.PutTemplate(Layout(protocol, false));
    } else if n == 2 {
      PutBoth(p, Layout(protocol, false), Layout(protocol, true));
    }
  }

  /** Fills in the header and takes the message out of the buffer. */
  method Seal(p: Packet, head: seq<byte>, ghost hole: seq<byte>, ghost body: seq<byte>) returns (msg: seq<byte>)
    requires p.Valid() && p.Bytes() == hole + body && |hole| == |head|
    modifies p.buf
    ensures msg == head + body && |msg| == p.off
  {
    p.Patch(0, head);
    msg := p.buf[..p.off];
    assert (hole + body)[|head|..] == body;
    assert (hole + body)[..0] + head == head;
  }

  function V9Head(count: nat, uptime: nat, secs: nat, sequence: nat, source: nat): (h: seq<byte>)
    ensures |h| == V9_HEADER
  {
    U16(9) + U16(count) + (Be(uptime, 4) + Be(secs, 4) + Be(sequence, 4) + Be(source, 4))
  }

  function IpfixHead(length: nat, secs: nat, sequence: nat, source: nat): (h: seq<byte>)
    ensures |h| == IPFIX_HEADER
  {
    U16(10) + U16(length) + (Be(secs, 4) + Be(sequence, 4) + Be(source, 4))
  }

  lemma EndsAligned(off: nat, n: nat)
    requires off % 4 == 0
    ensures (off + 4 + LengthOf(V9Inet) * n + Padding(V9Inet, n)) % 4 == 0
  {
  }

  /** A v9 header as a collector reads it. */
  lemma {:induction false} V9HeadRead(count: nat, uptime: nat, secs: nat, sequence: nat, source: nat)
    requires count < 0x1_0000 && uptime < TWO_32 && secs < TWO_32 && sequence < TWO_32 && source < TWO_32
    ensures var h := V9Head(count, uptime, secs, sequence, source);
            && Number(h[..2]) == 9 && Number(h[2..4]) == count && Number(h[4..8]) == uptime
            && Number(h[8..12]) == secs && Number(h[12..16]) == sequence && Number(h[16..20]) == source
  {
    Powers();
    U16Read(9);
    U16Read(count);
    NumberRead(uptime, 4);
    NumberRead(secs, 4);
    NumberRead(sequence, 4);
    NumberRead(source, 4);
    V9HeadParts(U16(9), U16(count), Be(uptime, 4), Be(secs, 4), Be(sequence, 4), Be(source, 4));
  }

  lemma V9HeadParts(a: seq<byte>, b: seq<byte>, c: seq<byte>, d: seq<byte>, e: seq<byte>, f: seq<byte>)
    requires |a| == 2 && |b| == 2 && |c| == 4 && |d| == 4 && |e| == 4 && |f| == 4
    ensures var h := a + b + (c + d + e + f);
            h[..2] == a && h[2..4] == b && h[4..8] == c && h[8..12] == d && h[12..16] == e && h[16..20] == f
  {
  }

  /** An IPFIX header as a collector reads it. */
  lemma {:induction false} IpfixHeadRead(length: nat, secs: nat, sequence: nat, source: nat)
    requires length < 0x1_0000 && secs < TWO_32 && sequence < TWO_32 && source < TWO_32
    ensures var h := IpfixHead(length, secs, sequence, source);
            && Number(h[..2]) == 10 && Number(h[2..4]) == length && Number(h[4..8]) == secs
            && Number(h[8..12]) == sequence && Number(h[12..16]) == source
  {
    Powers();
    U16Read(10);
    U16Read(length);
    NumberRead(secs, 4);
    NumberRead(sequence, 4);
    NumberRead(source, 4);
    IpfixHeadParts(U16(10), U16(length), Be(secs, 4), Be(sequence, 4), Be(source, 4));
  }

  lemma IpfixHeadParts(a: seq<byte>, b: seq<byte>, c: seq<byte>, d: seq<byte>, e: seq<byte>)
    requires |a| == 2 && |b| == 2 && |c| == 4 && |d| == 4 && |e| == 4
    ensures var h := a + b + (c + d + e);
            h[..2] == a && h[2..4] == b && h[4..8] == c && h[8..12] == d && h[12..16] == e
  {
  }

  /** The data sets of a v9 message: at least one record, and never more than fit. */
  method PutDataV9(p: Packet, r4: seq<seq<seq<byte>>>, r6: seq<seq<seq<byte>>>) returns (n4: nat, n6: nat)
    requires p.Valid() && p.off <= 124 && p.off % 4 == 0
    requires |r4| + |r6| > 0 && Sized(V9Inet, r4) && Sized(V9Inet6, r6)
    modifies p`off, p.buf
    ensures p.Valid() && n4 <= |r4| && n6 <= |r6| && n4 + n6 > 0
    ensures p.Bytes() == old(p.Bytes()) + AllSets(DataSets(V9Inet, r4[..n4])) + AllSets(DataSets(V9Inet6, r6[..n6]))
  {
    ghost var before := p.Bytes();
    n4, n6 := 0, 0;
    if |r4| > 0 {
      n4 := p.PutData(V9Inet, r4);
    }
    EndsAligned(old(p.off), n4);
    ghost var middle := AllSets(DataSets(V9Inet, r4[..n4]));
    assert p.Bytes() == before + middle;
    if |r6| > 0 && p.off + 4 + LengthOf(V9Inet6) <= MAX_PACKET {
      n6 := p.PutData(V9Inet6, r6);
    }
  }

  /** One v9 message, with the number of its sets in the header. (The source gives up on a
      message without any set; there is always one.) */
  method BuildV9(n: nat, r4: seq<seq<seq<byte>>>, r6: seq<seq<seq<byte>>>,
                 uptime: nat, secs: nat, sequence: nat, source: nat)
    returns (msg: seq<byte>, n4: nat, n6: nat)
    requires n <= 2 && |r4| + |r6| > 0 && Sized(V9Inet, r4) && Sized(V9Inet6, r6)
    ensures n4 <= |r4| && n6 <= |r6| && n4 + n6 > 0 && V9_HEADER <= |msg| <= MAX_PACKET
    ensures var sets := MessageSets(Templates(V9, n), V9Inet, r4[..n4], V9Inet6, r6[..n6]);
            msg == V9Head(|sets|, uptime, secs, sequence, source) + AllSets(sets)
  {
    var p := new Packet(V9_HEADER);
    ghost var hole := p.Bytes();
    PutTemplates(p, V9, n);
    n4, n6 := PutDataV9(p, r4, r6);
    var count := n + (if n4 > 0 then 1 else 0) + (if n6 > 0 then 1 else 0);
    ghost var ts := Templates(V9, n);
    ghost var sets := MessageSets(ts, V9Inet, r4[..n4], V9Inet6, r6[..n6]);
    SetsCount(ts, V9Inet, r4[..n4], V9Inet6, r6[..n6]);
    Concat4(hole, AllSets(ts), AllSets(DataSets(V9Inet, r4[..n4])), AllSets(DataSets(V9Inet6, r6[..n6])));
    assert count == |sets|;
    msg := Seal(p, V9Head(count, uptime, secs, sequence, source), hole, AllSets(sets));
  }

  /** The data sets of an IPFIX message. After the IPv4 records there is always room for the
      header of the IPv6 set, which is written before it is known that a record fits. */
  method PutDataIpfix(p: Packet, r4: seq<seq<seq<byte>>>, r6: seq<seq<seq<byte>>>) returns (n4: nat, n6: nat)
    requires p.Valid() && (p.off == IPFIX_HEADER || p.off == IPFIX_HEADER + 104)
    requires |r4| + |r6| > 0 && Sized(IpfixInet, r4) && Sized(IpfixInet6, r6)
    modifies p`off, p.buf
    ensures p.Valid() && n4 <= |r4| && n6 <= |r6| && n4 + n6 > 0
    ensures p.Bytes()
         == old(p.Bytes()) + AllSets(DataSets(IpfixInet, r4[..n4])) + AllSets(DataSets(IpfixInet6, r6[..n6]))
  {
    ghost var before := p.Bytes();
    n4, n6 := 0, 0;
    if |r4| > 0 {
      n4 := p.PutData(IpfixInet, r4);
    }
    ghost var middle := AllSets(DataSets(IpfixInet, r4[..n4]));
    assert p.Bytes() == before + middle;
    if |r6| > 0 {
      n6 := p.PutData(IpfixInet6, r6);
    }
  }

  /** One IPFIX message, with its length in the header. */
  method BuildIpfix(n: nat, r4: seq<seq<seq<byte>>>, r6: seq<seq<seq<byte>>>,
                    secs: nat, sequence: nat, source: nat)
    returns (msg: seq<byte>, n4: nat, n6: nat)
    requires (n == 0 || n == 2) && |r4| + |r6| > 0 && Sized(IpfixInet, r4) && Sized(IpfixInet6, r6)
    ensures n4 <= |r4| && n6 <= |r6| && n4 + n6 > 0 && IPFIX_HEADER <= |msg| <= MAX_PACKET
    ensures var sets := MessageSets(Templates(Ipfix, n), IpfixInet, r4[..n4], IpfixInet6, r6[..n6]);
            msg == IpfixHead(|msg|, secs, sequence, source) + AllSets(sets)
  {
    var p := new Packet(IPFIX_HEADER);
    ghost var hole := p.Bytes();
    PutTemplates(p, Ipfix, n);
    n4, n6 := PutDataIpfix(p, r4, r6);
    ghost var ts := Templates(Ipfix, n);
    SetsCount(ts, IpfixInet, r4[..n4], IpfixInet6, r6[..n6]);
    Concat4(hole, AllSets(ts), AllSets(DataSets(IpfixInet, r4[..n4])), AllSets(DataSets(IpfixInet6, r6[..n6])));
    msg := Seal(p, IpfixHead(p.off, secs, sequence, source), hole,
                AllSets(MessageSets(ts, IpfixInet, r4[..n4], IpfixInet6, r6[..n6])));
  }

  // ----- streams of messages -----

  predicate AllV9(msgs: seq<seq<byte>>) {
    forall i | 0 <= i < |msgs| :: V9Ok(msgs[i])
  }

  predicate AllIpfix(msgs: seq<seq<byte>>) {
    forall i | 0 <= i < |msgs| :: IpfixOk(msgs[i])
  }

  lemma {:induction false} V9MessageOk(msg: seq<byte>, s: Sheet, uptime: nat, secs: nat, sequence: nat, source: nat)
    requires WfSheet(V9, s) && |msg| <= MAX_PACKET
    requires var sets := SheetSets(V9, s); msg == V9Head(|sets|, uptime, secs, sequence, source) + AllSets(sets)
    ensures V9Ok(msg) && V9Stamped(msg, uptime, secs, sequence, source) && Carries(V9, msg, s)
  {
    var sets := SheetSets(V9, s);
    var tail := Be(uptime, 4) + Be(secs, 4) + Be(sequence, 4) + Be(source, 4);
    HeadRead(U16(9), U16(|sets|), tail, AllSets(sets), msg);
    SheetCarried(V9, msg, V9Head(|sets|, uptime, secs, sequence, source), s);
  }

  lemma {:induction false} IpfixMessageOk(msg: seq<byte>, s: Sheet, secs: nat, sequence: nat, source: nat)
    requires WfSheet(Ipfix, s) && |msg| <= MAX_PACKET
    requires msg == IpfixHead(|msg|, secs, sequence, source) + AllSets(SheetSets(Ipfix, s))
    ensures IpfixOk(msg) && IpfixStamped(msg, secs, sequence, source) && Carries(Ipfix, msg, s)
  {
    var sets := SheetSets(Ipfix, s);
    HeadRead(U16(10), U16(|msg|), Be(secs, 4) + Be(sequence, 4) + Be(source, 4), AllSets(sets), msg);
    SheetCarried(Ipfix, msg, IpfixHead(|msg|, secs, sequence, source), s);
  }

  lemma HeadRead(a: seq<byte>, b: seq<byte>, tail: seq<byte>, body: seq<byte>, msg: seq<byte>)
    requires |a| == 2 && |b| == 2 && msg == a + b + tail + body
    ensures msg[..2] == a && msg[2..4] == b && msg[4..4 + |tail|] == tail && msg[4 + |tail|..] == body
  {
  }

  lemma AllMatchSlice(fs: seq<Field>, r: seq<seq<seq<byte>>>, i: nat, n: nat)
    requires AllMatch(fs, r) && i + n <= |r|
    ensures AllMatch(fs, r[i..][..n])
  {
  }

  /** The records of one message out of all. */
  function Part(templates: nat, r4: seq<seq<seq<byte>>>, r6: seq<seq<seq<byte>>>, s4: nat, n4: nat, s6: nat, n6: nat,
                taken: bool): (s: Sheet)
    requires s4 + n4 <= |r4| && s6 + n6 <= |r6|
  {
    Sheet(templates, r4[s4..][..n4], r6[s6..][..n6], taken)
  }

  /** The messages so far carry the first records of each family. */
  ghost predicate Packed(p: Protocol, msgs: seq<seq<byte>>, plan: seq<Sheet>, r4: seq<seq<seq<byte>>>,
                         r6: seq<seq<seq<byte>>>) {
    CarryAll(p, msgs, plan) && AllRecords(plan, false) == r4 && AllRecords(plan, true) == r6
  }

  lemma {:induction false} PackedMore(p: Protocol, msgs: seq<seq<byte>>, plan: seq<Sheet>, msg: seq<byte>,
                                      templates: nat, r4: seq<seq<seq<byte>>>, r6: seq<seq<seq<byte>>>,
                                      s4: nat, n4: nat, s6: nat, n6: nat, taken: bool)
    requires s4 + n4 <= |r4| && s6 + n6 <= |r6| && Packed(p, msgs, plan, r4[..s4], r6[..s6])
    requires Carries(p, msg, Part(templates, r4, r6, s4, n4, s6, n6, taken))
    ensures Packed(p, msgs + [msg], plan + [Part(templates, r4, r6, s4, n4, s6, n6, taken)],
                   r4[..s4 + n4], r6[..s6 + n6])
  {
    var s := Part(templates, r4, r6, s4, n4, s6, n6, taken);
    AllMore(plan, s, false);
    AllMore(plan, s, true);
    Slices(r4, s4, n4);
    Slices(r6, s6, n6);
    CarriesMore(p, msgs, plan, msg, s);
  }

  lemma {:induction false} CarriesMore(p: Protocol, msgs: seq<seq<byte>>, plan: seq<Sheet>, msg: seq<byte>, s: Sheet)
    requires CarryAll(p, msgs, plan) && Carries(p, msg, s)
    ensures CarryAll(p, msgs + [msg], plan + [s])
  {
    var ms, pl := msgs + [msg], plan + [s];
    forall i | 0 <= i < |ms| ensures Carries(p, ms[i], pl[i]) {
      if i < |msgs| {
        assert Carries(p, msgs[i], plan[i]);
      }
    }
  }

  lemma Slices<T>(r: seq<T>, i: nat, n: nat)
    requires i + n <= |r|
    ensures r[..i] + r[i..][..n] == r[..i + n]
  {
  }

  // ----- when templates are sent -----

  /** The packets since the last templates, and their time. */
  datatype Timer = Timer(since: nat, last: nat)

  /** Templates are due: never sent, 20 packets ago, or 300 seconds ago on the 32-bit clock. */
  predicate Due(t: Timer, now: nat) {
    t.since >= RESEND_PACKETS || (now - t.last % TWO_32) % TWO_32 >= RESEND_SECONDS || t.last == 0
  }

  /** The timer of v9 after a message: templates count as sent even if the socket fails. */
  function Ticked(t: Timer, s: Sheet, secs: nat): (r: Timer) {
    var u := if s.templates > 0 then Timer(0, secs) else t;
    if s.taken then u.(since := u.since + 1) else u
  }

  function TimerAfter(t: Timer, plan: seq<Sheet>, n: nat, secs: nat): (r: Timer)
    requires n <= |plan|
  {
    if n == 0 then t else Ticked(TimerAfter(t, plan, n - 1, secs), plan[n - 1], secs)
  }

  lemma {:induction false} TimerSame(t: Timer, plan: seq<Sheet>, s: Sheet, n: nat, secs: nat)
    requires n <= |plan|
    ensures TimerAfter(t, plan + [s], n, secs) == TimerAfter(t, plan, n, secs)
  {
    if n > 0 {
      TimerSame(t, plan, s, n - 1, secs);
    }
  }

  /** The templates a v9 message starts with: that of IPv4, and that of IPv6 if the batch has any
      IPv6 flow. */
  function TemplatesDue(t: Timer, now: nat, any6: bool): (n: nat) {
    if Due(t, now) then (if any6 then 2 else 1) else 0
  }

  /** Each message of a v9 batch has the templates that are due. */
  ghost predicate Scheduled(t: Timer, plan: seq<Sheet>, secs: nat, any6: bool, clock: nat -> nat, tick: nat) {
    forall i | 0 <= i < |plan| :: HasDue(t, plan, i, secs, any6, clock, tick)
  }

  ghost predicate HasDue(t: Timer, plan: seq<Sheet>, i: nat, secs: nat, any6: bool, clock: nat -> nat, tick: nat)
    requires i < |plan|
  {
    plan[i].templates == TemplatesDue(TimerAfter(t, plan, i, secs), clock(tick + i) % TWO_32, any6)
  }

  lemma {:induction false} ScheduledMore(t: Timer, plan: seq<Sheet>, s: Sheet, secs: nat, any6: bool, clock: nat -> nat,
                                         tick: nat)
    requires Scheduled(t, plan, secs, any6, clock, tick)
    requires s.templates == TemplatesDue(TimerAfter(t, plan, |plan|, secs), clock(tick + |plan|) % TWO_32, any6)
    ensures Scheduled(t, plan + [s], secs, any6, clock, tick)
    ensures TimerAfter(t, plan + [s], |plan| + 1, secs) == Ticked(TimerAfter(t, plan, |plan|, secs), s, secs)
  {
    var more := plan + [s];
    forall i | 0 <= i < |more| ensures HasDue(t, more, i, secs, any6, clock, tick) {
      TimerSame(t, plan, s, i, secs);
      assert i < |plan| ==> HasDue(t, plan, i, secs, any6, clock, tick);
    }
    TimerSame(t, plan, s, |plan|, secs);
  }

  /** How far an exporter is: its timer, and how often clock and socket were used. */
  datatype Progress = Progress(timer: Timer, ticks: nat, sends: nat)

  /** What a v9 batch has come to: well-formed messages, each with records and with the templates
      that were due. */
  ghost predicate BatchV9(msgs: seq<seq<byte>>, plan: seq<Sheet>, start: Progress, now: Progress, secs: nat, any6: bool,
                          clock: nat -> nat, delivers: nat -> bool) {
    && AllV9(msgs) && |msgs| == |plan| && Accepted(plan, start.sends, delivers)
    && Scheduled(start.timer, plan, secs, any6, clock, start.ticks)
    && now == Progress(TimerAfter(start.timer, plan, |plan|, secs), start.ticks + |plan|, start.sends + |plan|)
  }

  /** Which messages the socket took, and that none is without records. */
  ghost predicate Accepted(plan: seq<Sheet>, first: nat, delivers: nat -> bool) {
    forall i | 0 <= i < |plan| :: plan[i].taken == delivers(first + i) && |plan[i].r4| + |plan[i].r6| > 0
  }

  lemma {:induction false} BatchV9More(msgs: seq<seq<byte>>, plan: seq<Sheet>, msg: seq<byte>, s: Sheet,
                                       start: Progress, now: Progress, secs: nat, any6: bool, clock: nat -> nat,
                                       delivers: nat -> bool)
    requires BatchV9(msgs, plan, start, now, secs, any6, clock, delivers) && V9Ok(msg)
    requires s.templates == TemplatesDue(now.timer, clock(now.ticks) % TWO_32, any6)
    requires s.taken == delivers(now.sends) && |s.r4| + |s.r6| > 0
    ensures BatchV9(msgs + [msg], plan + [s], start, Progress(Ticked(now.timer, s, secs), now.ticks + 1, now.sends + 1),
                    secs, any6, clock, delivers)
  {
    ScheduledMore(start.timer, plan, s, secs, any6, clock, start.ticks);
  }

  /** The next value of a 32-bit counter. */
  function Bumped(n: nat): (r: nat) {
    if n + 1 == TWO_32 then 0 else n + 1
  }

  // ----- the exporter -----

  class Exporter {
    const sourceId: nat
    const boot: nat
    const clock: nat -> nat
    const delivers: nat -> bool
    var ticks: nat
    var sends: nat
    var flowSequence: nat
    var pktSequence: nat
    var sinceTemplate: nat
    var lastTemplate: nat

    /** Templates are never more than twenty packets away. */
    ghost predicate Valid()
      reads this
    {
      sinceTemplate <= RESEND_PACKETS && pktSequence < TWO_32 && flowSequence < TWO_32
    }

    ghost function Timing(): (t: Timer)
      reads this
    {
      Timer(sinceTemplate, lastTemplate)
    }

    /** A collector that has heard every message the socket took: once templates were sent over
        IPFIX, it knows them. */
    ghost predicate Told(c: Collector)
      reads this
    {
      Sane(Ipfix, c) && (lastTemplate != 0 ==> Knows(c, false) && Knows(c, true))
    }

    constructor (sourceId: nat, boot: nat, clock: nat -> nat, delivers: nat -> bool)
      ensures Valid() && this.boot == boot && this.clock == clock && this.delivers == delivers
      ensures ticks == 0 && sends == 0 && Timing() == Timer(0, 0) && Told(NEW_COLLECTOR)
    {
      this.sourceId, this.boot, this.clock, this.delivers := sourceId, boot, clock, delivers;
      ticks, sends, flowSequence, pktSequence, sinceTemplate, lastTemplate := 0, 0, 0, 0, 0, 0;
    }

    method Now() returns (t: nat)
      modifies `ticks
      ensures t == clock(old(ticks)) % TWO_32 && ticks == old(ticks) + 1
    {
      t := clock(ticks) % TWO_32;
      ticks := ticks + 1;
    }

    /** Milliseconds since the exporter started, on the 32-bit clock. */
    method ReadUptime() returns (ms: nat)
      modifies `ticks
      ensures ms == (clock(old(ticks)) % TWO_32 - boot) % TWO_32 * 1000 % TWO_32 && ticks == old(ticks) + 1
    {
      var now := Now();
      ms := (now - boot) % TWO_32 * 1000 % TWO_32;
    }

    method NeedTemplate() returns (yes: bool)
      modifies `ticks
      ensures yes == Due(old(Timing()), clock(old(ticks)) % TWO_32) && ticks == old(ticks) + 1
    {
      var now := Now();
      if sinceTemplate >= RESEND_PACKETS {
        return true;
      }
      if (now - lastTemplate % TWO_32) % TWO_32 >= RESEND_SECONDS {
        return true;
      }
      return lastTemplate == 0;
    }

    method Send() returns (ok: bool)
      modifies `sends
      ensures ok == delivers(old(sends)) && sends == old(sends) + 1
    {
      ok := delivers(sends);
      sends := sends + 1;
    }

    /** A batch as v9 messages. Every message handed to the socket is well formed and within
        1400 bytes, and together they carry the values of each IPv4 and each IPv6 flow of the batch
        exactly once, in order within each family. The plan says which templates each message
        starts with; what a collector understands follows by `UnderstoodIff`. */
    method ExportV9(flows: seq<Flow>) returns (packets: nat, msgs: seq<seq<byte>>, ghost plan: seq<Sheet>)
      requires Valid() && AllWf(flows)
      modifies this
      ensures Valid() && packets <= |msgs| && flowSequence == (old(flowSequence) + |flows|) % TWO_32
      ensures AllWf(Only(flows, Inet)) && AllWf(Only(flows, Inet6))
      ensures Packed(V9, msgs, plan, AllValues(V9Inet, boot, Only(flows, Inet)),
                     AllValues(V9Inet6, boot, Only(flows, Inet6)))
      ensures BatchV9(msgs, plan, Progress(old(Timing()), old(ticks) + 2, old(sends)), Progress(Timing(), ticks, sends),
                      clock(old(ticks) + 1) % TWO_32, Only(flows, Inet6) != [], clock, delivers)
    {
      var uptime := ReadUptime();
      var secs := Now();
      var v4, v6, all := Select(flows, |flows| + 1);
      assert flows[..all] == flows;
      OnlyWf(flows, Inet);
      OnlyWf(flows, Inet6);
      ValuesSized(V9Inet, boot, v4);
      ValuesSized(V9Inet6, boot, v6);
      packets, msgs, plan := RunV9(AllValues(V9Inet, boot, v4), AllValues(V9Inet6, boot, v6), uptime, secs);
      flowSequence := (flowSequence + |flows|) % TWO_32;
    }

    method RunV9(r4: seq<seq<seq<byte>>>, r6: seq<seq<seq<byte>>>, uptime: nat, secs: nat)
      returns (packets: nat, msgs: seq<seq<byte>>, ghost plan: seq<Sheet>)
      requires Valid() && Sized(V9Inet, r4) && Sized(V9Inet6, r6)
      requires AllMatch(FieldsOf(V9Inet), r4) && AllMatch(FieldsOf(V9Inet6), r6)
      modifies this
      ensures Valid() && packets <= |msgs| && flowSequence == old(flowSequence)
      ensures Packed(V9, msgs, plan, r4, r6)
      ensures BatchV9(msgs, plan, Progress(old(Timing()), old(ticks), old(sends)),
                          Progress(Timing(), ticks, sends), secs, |r6| > 0, clock, delivers)
    {
      packets, msgs, plan := 0, [], [];
      var s4: nat, s6: nat := 0, 0;
      while s4 < |r4| || s6 < |r6|
        invariant Valid() && s4 <= |r4| && s6 <= |r6| && flowSequence == old(flowSequence) && packets <= |msgs|
        invariant Packed(V9, msgs, plan, r4[..s4], r6[..s6])
        invariant BatchV9(msgs, plan, Progress(old(Timing()), old(ticks), old(sends)),
                          Progress(Timing(), ticks, sends), secs, |r6| > 0, clock, delivers)
        decreases |r4| - s4 + |r6| - s6
      {
        ghost var n;
        ghost var was := Progress(Timing(), ticks, sends);
        var msg, n4, n6, ok;
        msg, n4, n6, ok, n := NextV9(r4, r6, s4, s6, uptime, secs);
        ghost var s := Part(n, r4, r6, s4, n4, s6, n6, ok);
        PackedMore(V9, msgs, plan, msg, n, r4, r6, s4, n4, s6, n6, ok);
        BatchV9More(msgs, plan, msg, s, Progress(old(Timing()), old(ticks), old(sends)), was, secs, |r6| > 0, clock,
                    delivers);
        msgs, plan, s4, s6 := msgs + [msg], plan + [s], s4 + n4, s6 + n6;
        packets := if ok then packets + 1 else packets;
      }
      assert r4[..s4] == r4 && r6[..s6] == r6;
    }

    /** How many templates a v9 message starts with. */
    method StartMessage(any6: bool, secs: nat) returns (n: nat)
      requires Valid()
      modifies `ticks, `sinceTemplate, `lastTemplate
      ensures n == TemplatesDue(old(Timing()), clock(old(ticks)) % TWO_32, any6)
      ensures sinceTemplate < RESEND_PACKETS && Timing() == if n > 0 then Timer(0, secs) else old(Timing())
      ensures ticks == old(ticks) + 1
    {
      var due := NeedTemplate();
      if due {
        sinceTemplate, lastTemplate := 0, secs;
      }
      return if !due then 0 else if any6 then 2 else 1;
    }

    /** Builds the next v9 message, with the templates that are due, and hands it to the socket; it
        is counted if the socket took it. */
    method NextV9(r4: seq<seq<seq<byte>>>, r6: seq<seq<seq<byte>>>, s4: nat, s6: nat, uptime: nat, secs: nat)
      returns (msg: seq<byte>, n4: nat, n6: nat, ok: bool, ghost n: nat)
      requires Valid() && s4 <= |r4| && s6 <= |r6| && (s4 < |r4| || s6 < |r6|)
      requires Sized(V9Inet, r4) && Sized(V9Inet6, r6)
      requires AllMatch(FieldsOf(V9Inet), r4) && AllMatch(FieldsOf(V9Inet6), r6)
      modifies this
      ensures Valid() && flowSequence == old(flowSequence)
      ensures ok == delivers(old(sends)) && sends == old(sends) + 1 && ticks == old(ticks) + 1
      ensures pktSequence == if ok then Bumped(old(pktSequence)) else old(pktSequence)
      ensures n == TemplatesDue(old(Timing()), clock(old(ticks)) % TWO_32, |r6| > 0)
      ensures s4 + n4 <= |r4| && s6 + n6 <= |r6| && n4 + n6 > 0 && V9Ok(msg)
      ensures V9Stamped(msg, uptime, secs, old(pktSequence), sourceId)
      ensures Carries(V9, msg, Part(n, r4, r6, s4, n4, s6, n6, ok))
      ensures Timing() == Ticked(old(Timing()), Part(n, r4, r6, s4, n4, s6, n6, ok), secs)
    {
      var due := StartMessage(|r6| > 0, secs);
      n := due;
      ghost var taken := delivers(sends);
      msg, n4, n6 := StepV9(due, r4, r6, s4, s6, uptime, secs, taken);
      ok := Send();
      if ok {
        pktSequence := Bumped(pktSequence);
        sinceTemplate := sinceTemplate + 1;
      }
    }

    /** One message of a v9 batch, and what a collector reads in it. */
    method StepV9(n: nat, r4: seq<seq<seq<byte>>>, r6: seq<seq<seq<byte>>>, s4: nat, s6: nat, uptime: nat, secs: nat,
                  ghost taken: bool)
      returns (msg: seq<byte>, n4: nat, n6: nat)
      requires n <= 2 && s4 <= |r4| && s6 <= |r6| && (s4 < |r4| || s6 < |r6|)
      requires Sized(V9Inet, r4) && Sized(V9Inet6, r6)
      requires AllMatch(FieldsOf(V9Inet), r4) && AllMatch(FieldsOf(V9Inet6), r6)
      ensures s4 + n4 <= |r4| && s6 + n6 <= |r6| && n4 + n6 > 0 && V9Ok(msg)
      ensures V9Stamped(msg, uptime, secs, pktSequence, sourceId)
      ensures Carries(V9, msg, Part(n, r4, r6, s4, n4, s6, n6, taken))
    {
      msg, n4, n6 := BuildV9(n, r4[s4..], r6[s6..], uptime, secs, pktSequence, sourceId);
      AllMatchSlice(FieldsOf(V9Inet), r4, s4, n4);
      AllMatchSlice(FieldsOf(V9Inet6), r6, s6, n6);
      V9MessageOk(msg, Part(n, r4, r6, s4, n4, s6, n6, taken), uptime, secs, pktSequence, sourceId);
    }

    /** A batch as IPFIX messages: the first 960 flows of the two families. A failing socket ends
        the batch. A collector that has heard everything since the exporter was new understands
        all it hears: every flow of the batch, or a beginning of each family when the socket fails. */
    method ExportIpfix(flows: seq<Flow>, ghost c: Collector)
      returns (packets: int, msgs: seq<seq<byte>>, ghost n: nat, ghost r: Collector, ghost s4: nat, ghost s6: nat)
      requires Valid() && AllWf(flows) && Told(c)
      modifies this
      ensures Valid() && AllIpfix(msgs) && (packets == -1 || packets == |msgs|)
      ensures AllOfBatch(msgs, old(flowSequence), sourceId)
      ensures flowSequence == if packets >= 0 then (old(flowSequence) + |flows|) % TWO_32 else old(flowSequence)
      ensures n <= |flows| && AllWf(Only(flows[..n], Inet)) && AllWf(Only(flows[..n], Inet6))
      ensures |Only(flows[..n], Inet)| + |Only(flows[..n], Inet6)| <= IPFIX_BATCH
      ensures n < |flows| ==> |Only(flows[..n], Inet)| + |Only(flows[..n], Inet6)| == IPFIX_BATCH
      ensures exists plan :: CarryAll(Ipfix, msgs, plan) && r == HearsAll(Ipfix, c, msgs, plan)
      ensures Told(r) && s4 <= |Only(flows[..n], Inet)| && s6 <= |Only(flows[..n], Inet6)|
      ensures packets >= 0 ==> s4 == |Only(flows[..n], Inet)| && s6 == |Only(flows[..n], Inet6)|
      ensures Understood(r.got, FieldsOf(IpfixInet)) ==
              Understood(c.got, FieldsOf(IpfixInet)) + AllValues(IpfixInet, boot, Only(flows[..n], Inet))[..s4]
      ensures Understood(r.got, FieldsOf(IpfixInet6)) ==
              Understood(c.got, FieldsOf(IpfixInet6)) + AllValues(IpfixInet6, boot, Only(flows[..n], Inet6))[..s6]
    {
      var v4, v6, taken := Select(flows, IPFIX_BATCH);
      n := taken;
      assert AllWf(flows[..n]);
      OnlyWf(flows[..n], Inet);
      OnlyWf(flows[..n], Inet6);
      ValuesSized(IpfixInet, boot, v4);
      ValuesSized(IpfixInet6, boot, v6);
      ghost var plan;
      packets, msgs, plan, s4, s6 := RunIpfix(AllValues(IpfixInet, boot, v4), AllValues(IpfixInet6, boot, v6));
      r := HearsAll(Ipfix, c, msgs, plan);
      AllHeard(c, msgs, plan, old(lastTemplate) != 0, lastTemplate != 0);
      assert CarryAll(Ipfix, msgs, plan);
      if packets >= 0 {
        flowSequence := (flowSequence + |flows|) % TWO_32;
      }
    }

    method RunIpfix(r4: seq<seq<seq<byte>>>, r6: seq<seq<seq<byte>>>)
      returns (packets: int, msgs: seq<seq<byte>>, ghost plan: seq<Sheet>, ghost s4: nat, ghost s6: nat)
      requires Valid() && Sized(IpfixInet, r4) && Sized(IpfixInet6, r6)
      requires AllMatch(FieldsOf(IpfixInet), r4) && AllMatch(FieldsOf(IpfixInet6), r6)
      modifies this
      ensures Valid() && (packets == -1 || packets == |msgs|) && flowSequence == old(flowSequence)
      ensures s4 <= |r4| && s6 <= |r6| && (packets >= 0 ==> s4 == |r4| && s6 == |r6|)
      ensures BatchIpfix(msgs, plan, old(flowSequence), sourceId, old(lastTemplate) != 0, lastTemplate != 0)
      ensures HeardRecords(plan, |plan|, false) == r4[..s4] && HeardRecords(plan, |plan|, true) == r6[..s6]
    {
      packets, msgs, plan := 0, [], [];
      var i4: nat, i6: nat := 0, 0;
      while i4 < |r4| || i6 < |r6|
        invariant Valid() && i4 <= |r4| && i6 <= |r6| && packets == |msgs| && flowSequence == old(flowSequence)
        invariant BatchIpfix(msgs, plan, old(flowSequence), sourceId, old(lastTemplate) != 0, lastTemplate != 0)
        invariant HeardRecords(plan, |plan|, false) == r4[..i4] && HeardRecords(plan, |plan|, true) == r6[..i6]
        decreases |r4| - i4 + |r6| - i6
      {
        ghost var n;
        var msg, n4, n6, ok;
        ghost var known := lastTemplate != 0;
        msg, n4, n6, ok, n := NextIpfix(r4, r6, i4, i6);
        ghost var s := Part(n, r4, r6, i4, n4, i6, n6, ok);
        HeardPart(plan, n, r4, r6, i4, n4, i6, n6, ok);
        BatchIpfixMore(msgs, plan, msg, s, flowSequence, sourceId, old(lastTemplate) != 0, known, lastTemplate != 0);
        msgs, plan := msgs + [msg], plan + [s];
        if !ok {
          return -1, msgs, plan, i4, i6;
        }
        i4, i6 := i4 + n4, i6 + n6;
        packets := packets + 1;
      }
      return packets, msgs, plan, i4, i6;
    }

    /** Builds the next IPFIX message and hands it to the socket; templates count as sent only if
        the socket took it. */
    method NextIpfix(r4: seq<seq<seq<byte>>>, r6: seq<seq<seq<byte>>>, s4: nat, s6: nat)
      returns (msg: seq<byte>, n4: nat, n6: nat, ok: bool, ghost n: nat)
      requires Valid() && s4 <= |r4| && s6 <= |r6| && (s4 < |r4| || s6 < |r6|)
      requires Sized(IpfixInet, r4) && Sized(IpfixInet6, r6)
      requires AllMatch(FieldsOf(IpfixInet), r4) && AllMatch(FieldsOf(IpfixInet6), r6)
      modifies this
      ensures Valid() && flowSequence == old(flowSequence) && ok == delivers(old(sends)) && sends == old(sends) + 1
      ensures n == if Due(old(Timing()), clock(old(ticks)) % TWO_32) then 2 else 0
      ensures !ok ==> Timing() == old(Timing())
      ensures ok && n == 0 ==> Timing() == Timer(old(sinceTemplate) + 1, old(lastTemplate))
      ensures ok && n > 0 ==> sinceTemplate == 0
      ensures s4 + n4 <= |r4| && s6 + n6 <= |r6| && n4 + n6 > 0 && IpfixOk(msg)
      ensures InBatch(msg, flowSequence, sourceId)
      ensures Carries(Ipfix, msg, Part(n, r4, r6, s4, n4, s6, n6, ok))
    {
      var sendTemplate := NeedTemplate();
      n := if sendTemplate then 2 else 0;
      ghost var taken := delivers(sends);
      msg, n4, n6 := StepIpfix(if sendTemplate then 2 else 0, r4, r6, s4, s6, taken);
      ok := Send();
      if ok {
        sinceTemplate := sinceTemplate + 1;
        if sendTemplate {
          lastTemplate := Now();
          sinceTemplate := 0;
        }
      }
    }

    /** One message of an IPFIX batch, and what a collector reads in it. */
    method StepIpfix(n: nat, r4: seq<seq<seq<byte>>>, r6: seq<seq<seq<byte>>>, s4: nat, s6: nat, ghost taken: bool)
      returns (msg: seq<byte>, n4: nat, n6: nat)
      requires (n == 0 || n == 2) && s4 <= |r4| && s6 <= |r6| && (s4 < |r4| || s6 < |r6|)
      requires Sized(IpfixInet, r4) && Sized(IpfixInet6, r6)
      requires AllMatch(FieldsOf(IpfixInet), r4) && AllMatch(FieldsOf(IpfixInet6), r6)
      modifies `ticks
      ensures s4 + n4 <= |r4| && s6 + n6 <= |r6| && n4 + n6 > 0 && IpfixOk(msg)
      ensures IpfixStamped(msg, clock(old(ticks)) % TWO_32, flowSequence, sourceId)
      ensures InBatch(msg, flowSequence, sourceId)
      ensures Carries(Ipfix, msg, Part(n, r4, r6, s4, n4, s6, n6, taken))
    {
      var secs := Now();
      msg, n4, n6 := BuildIpfix(n, r4[s4..], r6[s6..], secs, flowSequence, sourceId);
      AllMatchSlice(FieldsOf(IpfixInet), r4, s4, n4);
      AllMatchSlice(FieldsOf(IpfixInet6), r6, s6, n6);
      IpfixMessageOk(msg, Part(n, r4, r6, s4, n4, s6, n6, taken), secs, flowSequence, sourceId);
      StampedInBatch(msg, secs, flowSequence, sourceId);
    }
  }

  lemma {:induction false} HeardPart(plan: seq<Sheet>, n: nat, r4: seq<seq<seq<byte>>>, r6: seq<seq<seq<byte>>>,
                                     i4: nat, n4: nat, i6: nat, n6: nat, taken: bool)
    requires i4 + n4 <= |r4| && i6 + n6 <= |r6|
    requires HeardRecords(plan, |plan|, false) == r4[..i4] && HeardRecords(plan, |plan|, true) == r6[..i6]
    ensures var more := plan + [Part(n, r4, r6, i4, n4, i6, n6, taken)];
            && HeardRecords(more, |more|, false) == r4[..if taken then i4 + n4 else i4]
            && HeardRecords(more, |more|, true) == r6[..if taken then i6 + n6 else i6]
  {
    var s := Part(n, r4, r6, i4, n4, i6, n6, taken);
    HeardSame(plan, s, |plan|, false);
    HeardSame(plan, s, |plan|, true);
    Slices(r4, i4, n4);
    Slices(r6, i6, n6);
    assert r4[..i4] + [] == r4[..i4] && r6[..i6] + [] == r6[..i6];
  }

  /** The headers of an IPFIX batch: one sequence number. */
  ghost predicate AllOfBatch(msgs: seq<seq<byte>>, sequence: nat, source: nat) {
    forall i | 0 <= i < |msgs| :: InBatch(msgs[i], sequence, source)
  }

  /** What an IPFIX batch has come to: every message comes with both templates or after them.
      Templates were sent before the batch (`told`), and have been sent by now (`tells`). */
  ghost predicate BatchIpfix(msgs: seq<seq<byte>>, plan: seq<Sheet>, sequence: nat, source: nat, told: bool,
                             tells: bool) {
    && AllIpfix(msgs) && AllOfBatch(msgs, sequence, source) && CarryAll(Ipfix, msgs, plan)
    && InTime(told, plan, |plan|, false) && InTime(told, plan, |plan|, true)
    && (tells ==> told || (Announced(plan, |plan|, false) && Announced(plan, |plan|, true)))
  }

  lemma {:induction false} BatchIpfixMore(msgs: seq<seq<byte>>, plan: seq<Sheet>, msg: seq<byte>, s: Sheet,
                                          sequence: nat, source: nat, told: bool, known: bool, tells: bool)
    requires BatchIpfix(msgs, plan, sequence, source, told, known) && IpfixOk(msg) && InBatch(msg, sequence, source)
    requires Carries(Ipfix, msg, s) && (s.templates == 2 || known) && (tells ==> known || s.taken)
    ensures BatchIpfix(msgs + [msg], plan + [s], sequence, source, told, tells)
  {
    CarriesMore(Ipfix, msgs, plan, msg, s);
    TimelyMore(plan, s, told, known);
  }

  /** A message without templates comes after templates. */
  lemma {:induction false} TimelyMore(plan: seq<Sheet>, s: Sheet, told: bool, known: bool)
    requires InTime(told, plan, |plan|, false) && InTime(told, plan, |plan|, true)
    requires known ==> told || (Announced(plan, |plan|, false) && Announced(plan, |plan|, true))
    requires s.templates == 2 || known
    ensures var more := plan + [s];
            && InTime(told, more, |more|, false) && InTime(told, more, |more|, true)
            && (known || s.taken ==> told || (Announced(more, |more|, false) && Announced(more, |more|, true)))
  {
    InTimeMore(told, plan, s, false);
    InTimeMore(told, plan, s, true);
    AnnouncedMore(plan, s, false);
    AnnouncedMore(plan, s, true);
  }

  /** What a collector has after a batch in which templates always come in time. */
  lemma {:induction false} AllHeard(c: Collector, msgs: seq<seq<byte>>, plan: seq<Sheet>, told: bool, tells: bool)
    requires Sane(Ipfix, c) && (told ==> Knows(c, false) && Knows(c, true)) && CarryAll(Ipfix, msgs, plan)
    requires InTime(told, plan, |plan|, false) && InTime(told, plan, |plan|, true)
    requires tells ==> told || (Announced(plan, |plan|, false) && Announced(plan, |plan|, true))
    ensures var r := HearsAll(Ipfix, c, msgs, plan);
            && Sane(Ipfix, r) && (tells ==> Knows(r, false) && Knows(r, true))
            && Understood(r.got, FieldsOf(IpfixInet)) ==
               Understood(c.got, FieldsOf(IpfixInet)) + HeardRecords(plan, |plan|, false)
            && Understood(r.got, FieldsOf(IpfixInet6)) ==
               Understood(c.got, FieldsOf(IpfixInet6)) + HeardRecords(plan, |plan|, true)
  {
    StreamTaken(Ipfix, c, msgs, plan, |plan|, false);
    StreamTaken(Ipfix, c, msgs, plan, |plan|, true);
    UnderstoodIff(Ipfix, c, msgs, plan, false);
    UnderstoodIff(Ipfix, c, msgs, plan, true);
  }

  // ----- v9 records without a template -----

  /** Templates were due for message `i` of a batch, and the socket took it. */
  ghost predicate DueAndTaken(plan: seq<Sheet>, i: nat, start: Progress, secs: nat, clock: nat -> nat)
    requires i < |plan|
  {
    plan[i].taken && Due(TimerAfter(start.timer, plan, i, secs), clock(start.ticks + i) % TWO_32)
  }

  /** The IPv6 records of a v9 batch: a collector understands all it hears if and only if it hears
      none, or knows the template from an earlier batch, or templates were due for the first
      message it hears with such records or an earlier one that it hears. */
  lemma {:induction false} Inet6Iff(c: Collector, msgs: seq<seq<byte>>, plan: seq<Sheet>, start: Progress,
                                    now: Progress, secs: nat, clock: nat -> nat, delivers: nat -> bool)
    requires Sane(V9, c) && CarryAll(V9, msgs, plan) && BatchV9(msgs, plan, start, now, secs, true, clock, delivers)
    ensures var r, k := HearsAll(V9, c, msgs, plan), FirstWith(plan, |plan|, true);
            Understood(r.got, FieldsOf(V9Inet6)) ==
            Understood(c.got, FieldsOf(V9Inet6)) + HeardRecords(plan, |plan|, true) <==>
            k == |plan| || Knows(c, true) || exists i | 0 <= i <= k :: DueAndTaken(plan, i, start, secs, clock)
  {
    var k := FirstWith(plan, |plan|, true);
    UnderstoodIff(V9, c, msgs, plan, true);
    InTimeIff(Knows(c, true), plan, true);
    if k < |plan| {
      DueAnnounced(plan, k, start, secs, clock);
    }
  }

  lemma {:induction false} DueAnnounced(plan: seq<Sheet>, k: nat, start: Progress, secs: nat, clock: nat -> nat)
    requires k < |plan| && Scheduled(start.timer, plan, secs, true, clock, start.ticks)
    ensures Announced(plan, k + 1, true) <==> exists i | 0 <= i <= k :: DueAndTaken(plan, i, start, secs, clock)
  {
    forall i | 0 <= i < |plan| ensures Announces(plan[i], true) <==> DueAndTaken(plan, i, start, secs, clock) {
      assert HasDue(start.timer, plan, i, secs, true, clock, start.ticks);
    }
    if Announced(plan, k + 1, true) {
      var i :| 0 <= i < k + 1 && Announces(plan[i], true);
      assert DueAndTaken(plan, i, start, secs, clock);
    }
  }

  /** Every message has a record. */
  lemma {:induction false} FewMessages(plan: seq<Sheet>)
    requires forall i | 0 <= i < |plan| :: |plan[i].r4| + |plan[i].r6| > 0
    ensures |plan| <= |AllRecords(plan, false)| + |AllRecords(plan, true)|
  {
    if |plan| > 0 {
      FewMessages(plan[..|plan| - 1]);
    }
  }

  /** The plan of a batch of one record. */
  lemma {:induction false} OneMessage(plan: seq<Sheet>)
    requires forall i | 0 <= i < |plan| :: |plan[i].r4| + |plan[i].r6| > 0
    requires |AllRecords(plan, false)| + |AllRecords(plan, true)| == 1
    ensures |plan| == 1 && plan[0].r4 == AllRecords(plan, false) && plan[0].r6 == AllRecords(plan, true)
  {
    FewMessages(plan);
    if |plan| == 1 {
      assert AllRecords(plan[..0], false) == [] && AllRecords(plan[..0], true) == [];
    }
  }

  /** A batch of one record on a socket that takes everything. */
  lemma {:induction false} SingleBatch(msgs: seq<seq<byte>>, plan: seq<Sheet>, r4: seq<seq<seq<byte>>>,
                                       r6: seq<seq<seq<byte>>>, start: Progress, now: Progress, secs: nat, any6: bool,
                                       clock: nat -> nat, delivers: nat -> bool)
    requires |r4| + |r6| == 1 && delivers(start.sends)
    requires Packed(V9, msgs, plan, r4, r6) && BatchV9(msgs, plan, start, now, secs, any6, clock, delivers)
    ensures plan == [Sheet(TemplatesDue(start.timer, clock(start.ticks) % TWO_32, any6), r4, r6, true)]
    ensures now == Progress(Ticked(start.timer, plan[0], secs), start.ticks + 1, start.sends + 1)
  {
    OneMessage(plan);
    assert HasDue(start.timer, plan, 0, secs, any6, clock, start.ticks);
    assert TimerAfter(start.timer, plan, 0, secs) == start.timer;
    assert plan == [plan[0]];
  }

  /** What a collector understands of a single message. */
  lemma {:induction false} OneHeard(c: Collector, msgs: seq<seq<byte>>, s: Sheet, six: bool)
    requires Sane(V9, c) && CarryAll(V9, msgs, [s]) && s.taken
    ensures var r := HearsAll(V9, c, msgs, [s]);
            var fs := FieldsOf(Layout(V9, six));
            && Sane(V9, r) && (Knows(r, six) <==> Knows(c, six) || Announces(s, six))
            && Understood(r.got, fs) == Understood(c.got, fs) + if Knows(r, six) then Records(s, six) else []
  {
    assert Carries(V9, msgs[0], [s][0]);
    assert Hears(V9, c, msgs, [s], 0) == c;
    MessageTaken(V9, c, msgs[0], s);
    FamilyTaken(V9, c, msgs[0], s, six);
  }

  /** An IPv4 record with its template, then an IPv6 record without. */
  lemma {:induction false} TwoHeard(first: seq<seq<byte>>, second: seq<seq<byte>>, v4: seq<seq<byte>>,
                                    v6: seq<seq<byte>>)
    requires CarryAll(V9, first, [Sheet(1, [v4], [], true)]) && CarryAll(V9, second, [Sheet(0, [], [v6], true)])
    ensures var c1 := HearsAll(V9, NEW_COLLECTOR, first, [Sheet(1, [v4], [], true)]);
            var c := HearsAll(V9, c1, second, [Sheet(0, [], [v6], true)]);
            Understood(c.got, FieldsOf(V9Inet)) == [v4] && Understood(c.got, FieldsOf(V9Inet6)) == []
  {
    var s1, s2 := Sheet(1, [v4], [], true), Sheet(0, [], [v6], true);
    OneHeard(NEW_COLLECTOR, first, s1, false);
    OneHeard(NEW_COLLECTOR, first, s1, true);
    var c1 := HearsAll(V9, NEW_COLLECTOR, first, [s1]);
    OneHeard(c1, second, s2, false);
    OneHeard(c1, second, s2, true);
  }

  /** The clock goes on, and the whole run takes less than 300 seconds. */
  ghost predicate Brief(clock: nat -> nat) {
    forall i: nat, j: nat | i <= j :: 0 < clock(i) <= clock(j) < clock(i) + RESEND_SECONDS && clock(j) < TWO_32
  }

  lemma {:induction false} NotDue(clock: nat -> nat, i: nat, j: nat)
    requires Brief(clock) && i <= j
    ensures !Due(Timer(1, clock(i) % TWO_32), clock(j) % TWO_32)
  {
    assert 0 < clock(i) <= clock(j) < clock(i) + RESEND_SECONDS && clock(j) < TWO_32;
  }

  /** The message of a single flow. */
  function OneSheet(templates: nat, boot: nat, f: Flow): (s: Sheet)
    requires WfFlow(f)
  {
    Sheet(templates, if f.key.af == Inet then [ValuesOf(V9Inet, boot, f)] else [],
          if f.key.af == Inet6 then [ValuesOf(V9Inet6, boot, f)] else [], true)
  }

  method ExportOne(e: Exporter, f: Flow) returns (msgs: seq<seq<byte>>)
    requires e.Valid() && WfFlow(f) && (f.key.af == Inet || f.key.af == Inet6) && e.delivers(e.sends)
    modifies e
    ensures e.Valid() && AllV9(msgs) && e.ticks == old(e.ticks) + 3 && e.sends == old(e.sends) + 1
    ensures var n := TemplatesDue(old(e.Timing()), e.clock(old(e.ticks) + 2) % TWO_32, f.key.af == Inet6);
            && CarryAll(V9, msgs, [OneSheet(n, e.boot, f)])
            && e.Timing() == Ticked(old(e.Timing()), OneSheet(n, e.boot, f), e.clock(old(e.ticks) + 1) % TWO_32)
  {
    OnlyOne(f);
    ghost var plan;
    ghost var start := Progress(e.Timing(), e.ticks + 2, e.sends);
    ghost var secs := e.clock(e.ticks + 1) % TWO_32;
    var packets;
    packets, msgs, plan := e.ExportV9([f]);
    ghost var s := OneSheet(0, e.boot, f);
    assert s.r4 == AllValues(V9Inet, e.boot, Only([f], Inet));
    assert s.r6 == AllValues(V9Inet6, e.boot, Only([f], Inet6));
    SingleBatch(msgs, plan, s.r4, s.r6, start, Progress(e.Timing(), e.ticks, e.sends), secs, f.key.af == Inet6, e.clock,
                e.delivers);
  }

  /** A v9 exporter that has sent an IPv4 flow and then sends an IPv6 flow within 300 seconds: the
      IPv6 template was not sent with the first batch, and is not due with the second, so no
      collector understands the IPv6 record, although every message arrives. */
  method TwoBatches(f4: Flow, f6: Flow, source: nat, boot: nat, clock: nat -> nat)
    returns (first: seq<seq<byte>>, second: seq<seq<byte>>)
    requires WfFlow(f4) && f4.key.af == Inet && WfFlow(f6) && f6.key.af == Inet6 && Brief(clock)
    ensures AllV9(first) && AllV9(second)
    ensures CarryAll(V9, first, [OneSheet(1, boot, f4)]) && CarryAll(V9, second, [OneSheet(0, boot, f6)])
    ensures var c := HearsAll(V9, HearsAll(V9, NEW_COLLECTOR, first, [OneSheet(1, boot, f4)]),
                              second, [OneSheet(0, boot, f6)]);
            && Understood(c.got, FieldsOf(V9Inet)) == [ValuesOf(V9Inet, boot, f4)]
            && Understood(c.got, FieldsOf(V9Inet6)) == []
  {
    var e := new Exporter(source, boot, clock, _ => true);
    first := ExportOne(e, f4);
    second := ExportOne(e, f6);
    NotDue(clock, 1, 5);
    TwoHeard(first, second, ValuesOf(V9Inet, boot, f4), ValuesOf(V9Inet6, boot, f6));
  }

  lemma {:induction false} OnlyOne(f: Flow)
    ensures Only([f], Inet) == (if f.key.af == Inet then [f] else [])
    ensures Only([f], Inet6) == (if f.key.af == Inet6 then [f] else [])
  {
    assert [f][..0] == [];
    assert Only([f][..0], Inet) == [] && Only([f][..0], Inet6) == [];
  }
}
