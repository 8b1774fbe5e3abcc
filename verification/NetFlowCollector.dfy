/** A collector that learns templates from the messages it hears, and what it understands of an
    exporter's messages. */
module NetFlowCollector {
  import opened Bytes
  import opened Sequences
  import opened JsonTree
  import opened NetFlowWire
  import opened NetFlowPacket

  datatype Protocol = V9 | Ipfix

  const V9_HEADER: nat := 20
  const IPFIX_HEADER: nat := 16

  function Header(p: Protocol): (n: nat) {
    if p.V9? then V9_HEADER else IPFIX_HEADER
  }

  /** The layout of the records of a family: IPv6 or IPv4. */
  function Layout(p: Protocol, six: bool): (k: Kind)
    ensures IdOf(k) == if six then ID_INET6 else ID_INET
  {
    if p.V9? then (if six then V9Inet6 else V9Inet) else if six then IpfixInet6 else IpfixInet
  }

  /** The set id of templates. */
  function TemplateId(p: Protocol): (id: nat)
    ensures TemplateSet(Layout(p, false)).id == id && TemplateSet(Layout(p, true)).id == id && id < 256
  {
    if p.V9? then 0 else 2
  }

  // ----- the collector -----

  /** What was understood of a record: its values, and what each of them is. */
  datatype Datum = Datum(fields: seq<Field>, values: seq<seq<byte>>)

  datatype Collector = Collector(known: map<nat, seq<Field>>, got: seq<Datum>)

  const NEW_COLLECTOR: Collector := Collector(map[], [])

  function Data(fs: seq<Field>, records: seq<seq<seq<byte>>>): (r: seq<Datum>)
    ensures |r| == |records| && forall i | 0 <= i < |r| :: r[i] == Datum(fs, records[i])
  {
    seq(|records|, i requires 0 <= i < |records| => Datum(fs, records[i]))
  }

  /** A template is remembered; the records of a known template are read; others are dropped. */
  function TakeSet(p: Protocol, c: Collector, s: RawSet): (r: Collector) {
    if s.id == TemplateId(p) then
      var t := ReadTemplate(s.body);
      if t.None? then c else c.(known := c.known[t.value.0 := t.value.1])
    else if s.id in c.known && RecordLength(c.known[s.id]) > 0 then
      c.(got := c.got + Data(c.known[s.id], ReadRecords(c.known[s.id], s.body)))
    else c
  }

  function TakeSets(p: Protocol, c: Collector, sets: seq<RawSet>): (r: Collector)
    decreases |sets|
  {
    if |sets| == 0 then c else TakeSets(p, TakeSet(p, c, sets[0]), sets[1..])
  }

  function TakeMessage(p: Protocol, c: Collector, msg: seq<byte>): (r: Collector) {
    if |msg| < Header(p) || ParseSets(msg[Header(p)..]).None? then c
    else TakeSets(p, c, ParseSets(msg[Header(p)..]).value)
  }

  /** The values understood under a layout, in order. */
  function Understood(got: seq<Datum>, fs: seq<Field>): (r: seq<seq<seq<byte>>>) {
    if |got| == 0 then []
    else
      var last := got[|got| - 1];
      Understood(got[..|got| - 1], fs) + if last.fields == fs then [last.values] else []
  }

  lemma {:induction false} UnderstoodAppend(a: seq<Datum>, b: seq<Datum>, fs: seq<Field>)
    ensures Understood(a + b, fs) == Understood(a, fs) + Understood(b, fs)
    decreases |b|
  {
    if |b| == 0 {
      assert a + b == a;
    } else {
      var n := |b| - 1;
      UnderstoodAppend(a, b[..n], fs);
      assert (a + b)[..|a + b| - 1] == a + b[..n];
    }
  }

  lemma {:induction false} UnderstoodData(gs: seq<Field>, records: seq<seq<seq<byte>>>, fs: seq<Field>)
    ensures Understood(Data(gs, records), fs) == if gs == fs then records else []
  {
    if |records| > 0 {
      var n := |records| - 1;
      UnderstoodData(gs, records[..n], fs);
      DataSplit(gs, records);
    }
  }

  lemma DataSplit(gs: seq<Field>, records: seq<seq<seq<byte>>>)
    requires |records| > 0
    ensures var n := |records| - 1;
            Data(gs, records)[..n] == Data(gs, records[..n]) && records[..n] + [records[n]] == records
  {
  }

  // ----- one message -----

  /** What one message carries: how many templates, the records of each family, and whether the
      socket took it. */
  datatype Sheet = Sheet(templates: nat, r4: seq<seq<seq<byte>>>, r6: seq<seq<seq<byte>>>, taken: bool)

  function Templates(p: Protocol, n: nat): (ts: seq<RawSet>) {
    var t4, t6 := TemplateSet(Layout(p, false)), TemplateSet(Layout(p, true));
    if n == 0 then [] else if n == 1 then [t4] else [t4, t6]
  }

  function SheetSets(p: Protocol, s: Sheet): (sets: seq<RawSet>) {
    MessageSets(Templates(p, s.templates), Layout(p, false), s.r4, Layout(p, true), s.r6)
  }

  predicate WfSheet(p: Protocol, s: Sheet) {
    s.templates <= 2 && AllMatch(FieldsOf(Layout(p, false)), s.r4) && AllMatch(FieldsOf(Layout(p, true)), s.r6)
  }

  /** The message consists of exactly these sets. */
  predicate Carries(p: Protocol, msg: seq<byte>, s: Sheet) {
    WfSheet(p, s) && |msg| >= Header(p) && ParseSets(msg[Header(p)..]) == Some(SheetSets(p, s))
  }

  /** The collector has no other idea of the exporter's templates. */
  predicate Sane(p: Protocol, c: Collector) {
    && (ID_INET in c.known ==> c.known[ID_INET] == FieldsOf(Layout(p, false)))
    && (ID_INET6 in c.known ==> c.known[ID_INET6] == FieldsOf(Layout(p, true)))
  }

  predicate Knows(c: Collector, six: bool) {
    (if six then ID_INET6 else ID_INET) in c.known
  }

  function Records(s: Sheet, six: bool): (r: seq<seq<seq<byte>>>) {
    if six then s.r6 else s.r4
  }

  lemma {:induction false} TakeSetsAppend(p: Protocol, c: Collector, a: seq<RawSet>, b: seq<RawSet>)
    ensures TakeSets(p, c, a + b) == TakeSets(p, TakeSets(p, c, a), b)
    decreases |a|
  {
    if |a| == 0 {
      assert a + b == b;
    } else {
      TakeSetsAppend(p, TakeSet(p, c, a[0]), a[1..], b);
      assert (a + b)[0] == a[0] && (a + b)[1..] == a[1..] + b;
    }
  }

  lemma {:induction false} TemplateTaken(p: Protocol, c: Collector, six: bool)
    ensures var k := Layout(p, six);
            TakeSet(p, c, TemplateSet(k)) == c.(known := c.known[IdOf(k) := FieldsOf(k)])
  {
    TemplateAnnounced(Layout(p, six));
  }

  /** The templates at the start of a message are learnt. */
  lemma {:induction false} TemplatesTaken(p: Protocol, c: Collector, n: nat)
    requires Sane(p, c) && n <= 2
    ensures var r := TakeSets(p, c, Templates(p, n));
            && Sane(p, r) && r.got == c.got
            && (Knows(r, false) <==> Knows(c, false) || n >= 1) && (Knows(r, true) <==> Knows(c, true) || n >= 2)
  {
    TemplateTaken(p, c, false);
    var t4, t6 := TemplateSet(Layout(p, false)), TemplateSet(Layout(p, true));
    var c1 := TakeSet(p, c, t4);
    TemplateTaken(p, c1, true);
    assert [t4][1..] == [] && [t4, t6][1..] == [t6] && [t6][1..] == [];
    assert TakeSets(p, c1, [t6]) == TakeSets(p, TakeSet(p, c1, t6), []);
  }

  /** The records of a family are read exactly if its template is known. */
  lemma {:induction false} DataTaken(p: Protocol, c: Collector, six: bool, records: seq<seq<seq<byte>>>)
    requires Sane(p, c) && AllMatch(FieldsOf(Layout(p, six)), records)
    ensures var k := Layout(p, six);
            TakeSets(p, c, DataSets(k, records)) ==
            c.(got := c.got + if Knows(c, six) then Data(FieldsOf(k), records) else [])
  {
    var k := Layout(p, six);
    DataRead(k, records);
    var sets := DataSets(k, records);
    if |records| > 0 {
      assert sets[1..] == [];
      assert TakeSets(p, c, sets) == TakeSet(p, c, sets[0]);
      assert c.got + [] == c.got;
    } else {
      assert Data(FieldsOf(k), records) == [] && c.got + [] == c.got;
    }
  }

  /** What a collector makes of one message. */
  lemma {:induction false} MessageTaken(p: Protocol, c: Collector, msg: seq<byte>, s: Sheet)
    requires Sane(p, c) && Carries(p, msg, s)
    ensures var r := TakeMessage(p, c, msg);
            && Sane(p, r)
            && (Knows(r, false) <==> Knows(c, false) || s.templates >= 1)
            && (Knows(r, true) <==> Knows(c, true) || s.templates >= 2)
            && r.got == c.got
                      + (if Knows(r, false) then Data(FieldsOf(Layout(p, false)), s.r4) else [])
                      + if Knows(r, true) then Data(FieldsOf(Layout(p, true)), s.r6) else []
  {
    var ts, d4, d6 := Templates(p, s.templates), DataSets(Layout(p, false), s.r4), DataSets(Layout(p, true), s.r6);
    TakeSetsAppend(p, c, ts + d4, d6);
    TakeSetsAppend(p, c, ts, d4);
    TemplatesTaken(p, c, s.templates);
    var c1 := TakeSets(p, c, ts);
    DataTaken(p, c1, false, s.r4);
    DataTaken(p, TakeSets(p, c1, d4), true, s.r6);
  }

  lemma {:induction false} LayoutsDiffer(p: Protocol)
    ensures FieldsOf(Layout(p, false)) != FieldsOf(Layout(p, true))
  {
    assert FieldsOf(Layout(p, false))[0] != FieldsOf(Layout(p, true))[0];
  }

  /** ... and what it then understands of a family. */
  lemma {:induction false} FamilyTaken(p: Protocol, c: Collector, msg: seq<byte>, s: Sheet, six: bool)
    requires Sane(p, c) && Carries(p, msg, s)
    ensures var r := TakeMessage(p, c, msg);
            var fs := FieldsOf(Layout(p, six));
            Understood(r.got, fs) == Understood(c.got, fs) + if Knows(r, six) then Records(s, six) else []
  {
    var r, fs := TakeMessage(p, c, msg), FieldsOf(Layout(p, six));
    MessageTaken(p, c, msg, s);
    var a := if Knows(r, false) then Data(FieldsOf(Layout(p, false)), s.r4) else [];
    var b := if Knows(r, true) then Data(FieldsOf(Layout(p, true)), s.r6) else [];
    PartUnderstood(p, Knows(r, false), false, s.r4, six);
    PartUnderstood(p, Knows(r, true), true, s.r6, six);
    BothUnderstood(c.got, a, b, fs);
  }

  /** One of two parts is of another layout. */
  lemma {:induction false} BothUnderstood(got: seq<Datum>, a: seq<Datum>, b: seq<Datum>, fs: seq<Field>)
    requires Understood(a, fs) == [] || Understood(b, fs) == []
    ensures Understood(got + a + b, fs) ==
            Understood(got, fs) + if Understood(a, fs) == [] then Understood(b, fs) else Understood(a, fs)
  {
    UnderstoodAppend(got + a, b, fs);
    UnderstoodAppend(got, a, fs);
  }

  lemma {:induction false} PartUnderstood(p: Protocol, known: bool, of: bool, records: seq<seq<seq<byte>>>, six: bool)
    ensures Understood(if known then Data(FieldsOf(Layout(p, of)), records) else [], FieldsOf(Layout(p, six))) ==
            if known && of == six then records else []
  {
    LayoutsDiffer(p);
    UnderstoodData(FieldsOf(Layout(p, of)), records, FieldsOf(Layout(p, six)));
  }

  // ----- streams -----

  predicate CarryAll(p: Protocol, msgs: seq<seq<byte>>, plan: seq<Sheet>) {
    && |msgs| == |plan|
    && forall i {:trigger Carries(p, msgs[i], plan[i])} | 0 <= i < |msgs| :: Carries(p, msgs[i], plan[i])
  }

  /** The collector after the first `n` messages, of which it hears those the socket took. */
  function Hears(p: Protocol, c: Collector, msgs: seq<seq<byte>>, plan: seq<Sheet>, n: nat): (r: Collector)
    requires |msgs| == |plan| && n <= |msgs|
  {
    if n == 0 then c
    else
      var r := Hears(p, c, msgs, plan, n - 1);
      if plan[n - 1].taken then TakeMessage(p, r, msgs[n - 1]) else r
  }

  function HearsAll(p: Protocol, c: Collector, msgs: seq<seq<byte>>, plan: seq<Sheet>): (r: Collector)
    requires |msgs| == |plan|
  {
    Hears(p, c, msgs, plan, |plan|)
  }

  /** All records of a family in the messages, heard or not. */
  function AllRecords(plan: seq<Sheet>, six: bool): (r: seq<seq<seq<byte>>>) {
    if |plan| == 0 then [] else AllRecords(plan[..|plan| - 1], six) + Records(plan[|plan| - 1], six)
  }

  /** The records of a family that are heard in the first `n` messages. */
  function HeardRecords(plan: seq<Sheet>, n: nat, six: bool): (r: seq<seq<seq<byte>>>)
    requires n <= |plan|
  {
    if n == 0 then []
    else HeardRecords(plan, n - 1, six) + if plan[n - 1].taken then Records(plan[n - 1], six) else []
  }

  /** One of the first `n` messages is heard and has the template. */
  predicate Announced(plan: seq<Sheet>, n: nat, six: bool)
    requires n <= |plan|
  {
    exists i | 0 <= i < n :: Announces(plan[i], six)
  }

  predicate Announces(s: Sheet, six: bool) {
    s.taken && s.templates >= if six then 2 else 1
  }

  /** The records of a family that are understood. */
  function Readable(known: bool, plan: seq<Sheet>, n: nat, six: bool): (r: seq<seq<seq<byte>>>)
    requires n <= |plan|
  {
    if n == 0 then []
    else
      Readable(known, plan, n - 1, six) +
      if plan[n - 1].taken && (known || Announced(plan, n, six)) then Records(plan[n - 1], six) else []
  }

  /** What a collector understands of a stream, exactly. */
  lemma {:induction false} StreamTaken(p: Protocol, c: Collector, msgs: seq<seq<byte>>, plan: seq<Sheet>, n: nat,
                                       six: bool)
    requires Sane(p, c) && CarryAll(p, msgs, plan) && n <= |plan|
    ensures Reads(p, c, Hears(p, c, msgs, plan, n), plan, n, six)
  {
    if n == 0 {
      ReadsNothing(p, c, plan, six);
    } else {
      StreamTaken(p, c, msgs, plan, n - 1, six);
      assert Carries(p, msgs[n - 1], plan[n - 1]);
      ReadsMore(p, c, Hears(p, c, msgs, plan, n - 1), msgs[n - 1], plan, n, six);
    }
  }

  /** What has become of a collector after `n` messages. */
  ghost predicate Reads(p: Protocol, c: Collector, r: Collector, plan: seq<Sheet>, n: nat, six: bool)
    requires n <= |plan|
  {
    var fs := FieldsOf(Layout(p, six));
    && Sane(p, r) && (Knows(r, six) <==> Knows(c, six) || Announced(plan, n, six))
    && Understood(r.got, fs) == Understood(c.got, fs) + Readable(Knows(c, six), plan, n, six)
  }

  lemma {:induction false} ReadsNothing(p: Protocol, c: Collector, plan: seq<Sheet>, six: bool)
    requires Sane(p, c)
    ensures Reads(p, c, c, plan, 0, six)
  {
    var u := Understood(c.got, FieldsOf(Layout(p, six)));
    assert u + [] == u;
  }

  lemma {:induction false} ReadsMore(p: Protocol, c: Collector, r: Collector, msg: seq<byte>, plan: seq<Sheet>, n: nat,
                                     six: bool)
    requires 0 < n <= |plan| && Reads(p, c, r, plan, n - 1, six) && Carries(p, msg, plan[n - 1])
    ensures Reads(p, c, if plan[n - 1].taken then TakeMessage(p, r, msg) else r, plan, n, six)
  {
    var last, fs, v := plan[n - 1], FieldsOf(Layout(p, six)), Readable(Knows(c, six), plan, n - 1, six);
    if last.taken {
      MessageTaken(p, r, msg, last);
      FamilyTaken(p, r, msg, last, six);
      var more := if Knows(c, six) || Announced(plan, n, six) then Records(last, six) else [];
      assert Readable(Knows(c, six), plan, n, six) == v + more;
      Concat3(Understood(c.got, fs), v, more);
    } else {
      SilentMore(Knows(c, six), plan, n, six);
    }
  }

  lemma {:induction false} SilentMore(known: bool, plan: seq<Sheet>, n: nat, six: bool)
    requires 0 < n <= |plan| && !plan[n - 1].taken
    ensures Readable(known, plan, n, six) == Readable(known, plan, n - 1, six)
    ensures Announced(plan, n, six) == Announced(plan, n - 1, six)
  {
  }

  /** Every message that is heard and has records of the family comes with the template or after
      a message that is heard and has it. */
  predicate InTime(known: bool, plan: seq<Sheet>, n: nat, six: bool)
    requires n <= |plan|
  {
    forall i | 0 <= i < n && plan[i].taken && Records(plan[i], six) != [] :: known || Announced(plan, i + 1, six)
  }

  lemma {:induction false} ReadableFewer(known: bool, plan: seq<Sheet>, n: nat, six: bool)
    requires n <= |plan|
    ensures |Readable(known, plan, n, six)| <= |HeardRecords(plan, n, six)|
  {
    if n > 0 {
      ReadableFewer(known, plan, n - 1, six);
    }
  }

  lemma {:induction false} ReadableIff(known: bool, plan: seq<Sheet>, n: nat, six: bool)
    requires n <= |plan|
    ensures Readable(known, plan, n, six) == HeardRecords(plan, n, six) <==> InTime(known, plan, n, six)
  {
    if n > 0 {
      ReadableIff(known, plan, n - 1, six);
      ReadableFewer(known, plan, n - 1, six);
      if InTime(known, plan, n - 1, six) && !InTime(known, plan, n, six) {
        assert |Readable(known, plan, n, six)| < |HeardRecords(plan, n, six)|;
      } else if !InTime(known, plan, n - 1, six) {
        SameEnd(Readable(known, plan, n - 1, six), HeardRecords(plan, n - 1, six), Records(plan[n - 1], six));
      }
    }
  }

  lemma SameEnd(a: seq<seq<seq<byte>>>, b: seq<seq<seq<byte>>>, r: seq<seq<seq<byte>>>)
    requires |a| <= |b| && a != b
    ensures a + r != b + r && a + [] != b + r && a + [] != b + []
  {
    assert a == (a + r)[..|a|] && b == (b + r)[..|b|];
    assert a + [] == a && b + [] == b;
  }

  /** A collector understands all records of a family that it hears if and only if the template
      is known or comes in time. */
  lemma {:induction false} UnderstoodIff(p: Protocol, c: Collector, msgs: seq<seq<byte>>, plan: seq<Sheet>, six: bool)
    requires Sane(p, c) && CarryAll(p, msgs, plan)
    ensures var r := HearsAll(p, c, msgs, plan);
            var fs := FieldsOf(Layout(p, six));
            Understood(r.got, fs) == Understood(c.got, fs) + HeardRecords(plan, |plan|, six) <==>
            InTime(Knows(c, six), plan, |plan|, six)
  {
    StreamTaken(p, c, msgs, plan, |plan|, six);
    ReadableIff(Knows(c, six), plan, |plan|, six);
    var u := Understood(c.got, FieldsOf(Layout(p, six)));
    SameStart(u, Readable(Knows(c, six), plan, |plan|, six), HeardRecords(plan, |plan|, six));
  }

  lemma SameStart<T>(u: seq<T>, a: seq<T>, b: seq<T>)
    ensures u + a == u + b <==> a == b
  {
    assert a == (u + a)[|u|..] && b == (u + b)[|u|..];
  }

  // ----- one message more -----

  lemma {:induction false} AllMore(plan: seq<Sheet>, s: Sheet, six: bool)
    ensures AllRecords(plan + [s], six) == AllRecords(plan, six) + Records(s, six)
  {
    assert (plan + [s])[..|plan|] == plan;
  }

  lemma {:induction false} HeardSame(plan: seq<Sheet>, s: Sheet, n: nat, six: bool)
    requires n <= |plan|
    ensures HeardRecords(plan + [s], n, six) == HeardRecords(plan, n, six)
  {
    if n > 0 {
      HeardSame(plan, s, n - 1, six);
    }
  }

  lemma {:induction false} AnnouncedSame(plan: seq<Sheet>, s: Sheet, n: nat, six: bool)
    requires n <= |plan|
    ensures Announced(plan + [s], n, six) == Announced(plan, n, six)
  {
    assert forall i | 0 <= i < n :: (plan + [s])[i] == plan[i];
  }

  lemma {:induction false} AnnouncedMore(plan: seq<Sheet>, s: Sheet, six: bool)
    ensures Announced(plan + [s], |plan| + 1, six) <==> Announced(plan, |plan|, six) || Announces(s, six)
  {
    var more := plan + [s];
    if Announced(plan, |plan|, six) {
      var j :| 0 <= j < |plan| && Announces(plan[j], six);
      assert Announces(more[j], six);
    }
    if Announced(more, |plan| + 1, six) {
      var j :| 0 <= j < |plan| + 1 && Announces(more[j], six);
      assert j < |plan| ==> Announces(plan[j], six);
    }
    assert more[|plan|] == s;
  }

  lemma {:induction false} InTimeMore(known: bool, plan: seq<Sheet>, s: Sheet, six: bool)
    requires InTime(known, plan, |plan|, six)
    requires s.taken ==> known || Announced(plan, |plan|, six) || Announces(s, six)
    ensures InTime(known, plan + [s], |plan| + 1, six)
  {
    var more := plan + [s];
    AnnouncedMore(plan, s, six);
    forall i | 0 <= i < |plan| + 1 && more[i].taken && Records(more[i], six) != []
      ensures known || Announced(more, i + 1, six)
    {
      if i < |plan| {
        assert more[i] == plan[i];
        AnnouncedSame(plan, s, i + 1, six);
      }
    }
  }

  /** The first message that is heard and has records of the family. */
  function FirstWith(plan: seq<Sheet>, n: nat, six: bool): (i: nat)
    requires n <= |plan|
    ensures i <= n && (i < n ==> plan[i].taken && Records(plan[i], six) != [])
    ensures forall j | 0 <= j < i :: !(plan[j].taken && Records(plan[j], six) != [])
  {
    if n == 0 then 0
    else
      var i := FirstWith(plan, n - 1, six);
      if i < n - 1 || (plan[n - 1].taken && Records(plan[n - 1], six) != []) then i else n
  }

  /** It depends on the first message with records of the family: all are understood if and only
      if there is none, or the template was known, or it is in that message or an earlier one. */
  lemma {:induction false} InTimeIff(known: bool, plan: seq<Sheet>, six: bool)
    ensures var i := FirstWith(plan, |plan|, six);
            InTime(known, plan, |plan|, six) <==> i == |plan| || known || Announced(plan, i + 1, six)
  {
    var i := FirstWith(plan, |plan|, six);
    if i < |plan| && Announced(plan, i + 1, six) {
      var j :| 0 <= j < i + 1 && Announces(plan[j], six);
      forall k | 0 <= k < |plan| && plan[k].taken && Records(plan[k], six) != []
        ensures known || Announced(plan, k + 1, six)
      {
        assert Announces(plan[j], six);
      }
    }
  }
}
