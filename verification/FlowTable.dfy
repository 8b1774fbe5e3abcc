/** The flow table: packets update flows, timeouts remove them.

    The table is a search tree in the source; here it is the sequence of its flows in the order
    of a walk, and where the tree puts a new flow in that order is an unknown function. */
module FlowTable {
  import opened Bytes
  import opened JsonTree
  import opened FlowTypes
  import opened FlowParse

  const SECOND: nat := 1000000
  const TCP_ESTABLISHED: nat := 3600 * SECOND
  const TCP_SHORT: nat := 30 * SECOND
  const UDP_IDLE: nat := 300 * SECOND
  const ICMP_IDLE: nat := 60 * SECOND
  const GENERAL_IDLE: nat := 3600 * SECOND
  const MAX_LIFETIME: nat := 86400 * SECOND
  const DEFAULT_MAX: int := 65536

  /** The settings of a table, and the order of its tree. */
  datatype Config = Config(maxFlows: int, level: int, place: (seq<Flow>, Key) -> nat)

  /** The flows and the statistics. The last two are not kept by the source: packets lost to a
      failed allocation, and packets of the flows that were expired. */
  datatype State = State(
    flows: seq<Flow>, total: nat, bad: nat, dropped: nat, expiredFlows: nat, lost: nat, expiredPackets: nat)

  const START: State := State([], 0, 0, 0, 0, 0, 0)

  // ----- one packet -----

  function IndexOf(flows: seq<Flow>, k: Key): (i: nat)
    ensures i <= |flows| && (i < |flows| ==> flows[i].key == k) && forall j | 0 <= j < i :: flows[j].key != k
  {
    if |flows| == 0 || flows[0].key == k then 0 else 1 + IndexOf(flows[1..], k)
  }

  function Updated(f: Flow, p: Parsed, reverse: bool, ts: nat): (r: Flow)
    ensures r.key == f.key && Packets(r) == Packets(f) + 1
  {
    if reverse then
      f.(packetsRev := f.packetsRev + 1, octetsRev := f.octetsRev + p.length, flagsRev := Or(f.flagsRev, p.flags),
        last := ts)
    else
      f.(packetsFwd := f.packetsFwd + 1, octetsFwd := f.octetsFwd + p.length, flagsFwd := Or(f.flagsFwd, p.flags),
        last := ts)
  }

  function NewFlow(k: Key, p: Parsed, reverse: bool, ts: nat): (r: Flow)
    ensures r.key == k && Packets(r) == 1
  {
    if reverse then Flow(k, 0, 1, 0, p.length, 0, p.flags, ts, ts, p.flowLabel)
    else Flow(k, 1, 0, p.length, 0, p.flags, 0, ts, ts, p.flowLabel)
  }

  function InsertAt(flows: seq<Flow>, i: nat, f: Flow): (r: seq<Flow>)
    ensures |r| == |flows| + 1
  {
    if i > |flows| then flows + [f] else flows[..i] + [f] + flows[i..]
  }

  /** A parsed packet; `memory` says whether a new flow can be allocated. */
  function Count(c: Config, s: State, p: Parsed, ts: nat, memory: bool): (r: (State, bool))
    requires WfParsed(p)
  {
    var (k, reverse) := KeyOf(p, c.level);
    var i := IndexOf(s.flows, k);
    if i < |s.flows| then (s.(flows := s.flows[i := Updated(s.flows[i], p, reverse, ts)]), true)
    else if |s.flows| >= c.maxFlows then (s.(dropped := s.dropped + 1), false)
    else if !memory then (s.(lost := s.lost + 1), false)
    else (s.(flows := InsertAt(s.flows, c.place(s.flows, k), NewFlow(k, p, reverse, ts))), true)
  }

  /** A frame. */
  function Process(c: Config, s: State, frame: seq<byte>, ts: nat, memory: bool): (r: (State, bool)) {
    if |frame| == 0 then (s, false)
    else
      var s1, p := s.(total := s.total + 1), Parse(frame);
      if p.None? then (s1.(bad := s1.bad + 1), false) else Count(c, s1, p.value, ts, memory)
  }

  // ----- expiry -----

  const FIN: nat := 0x01
  const SYN: nat := 0x02
  const RST: nat := 0x04

  predicate HasBit(flags: byte, bit: nat)
    requires bit > 0
  {
    flags as int / bit % 2 == 1
  }

  function IdleTimeout(f: Flow): (t: nat) {
    if f.key.proto == TCP then
      var all := Or(f.flagsFwd, f.flagsRev);
      if HasBit(all, FIN) || HasBit(all, RST) then TCP_SHORT
      else if !HasBit(all, SYN) then GENERAL_IDLE
      else TCP_ESTABLISHED
    else if f.key.proto == UDP then UDP_IDLE
    else if f.key.proto == ICMP || f.key.proto == ICMPV6 then ICMP_IDLE
    else GENERAL_IDLE
  }

  predicate Overdue(f: Flow, now: nat) {
    now > f.last + IdleTimeout(f) || now > f.start + MAX_LIFETIME
  }

  /** A walk that removes overdue flows until `room` of them were removed. */
  function Sweep(flows: seq<Flow>, now: nat, room: nat): (r: (seq<Flow>, seq<Flow>))
    decreases |flows|
  {
    if |flows| == 0 || room == 0 then (flows, [])
    else if Overdue(flows[0], now) then
      var (kept, out) := Sweep(flows[1..], now, room - 1);
      (kept, [flows[0]] + out)
    else
      var (kept, out) := Sweep(flows[1..], now, room);
      ([flows[0]] + kept, out)
  }

  function Room(maxOut: int): (n: nat) {
    if maxOut < 0 then 0 else maxOut
  }

  function Expire(s: State, now: nat, maxOut: int): (r: (State, seq<Flow>)) {
    var (kept, out) := Sweep(s.flows, now, Room(maxOut));
    (s.(flows := kept, expiredFlows := s.expiredFlows + |out|,
      expiredPackets := s.expiredPackets + AllPackets(out)), out)
  }

  // ----- runs -----

  datatype Op = Frame(bytes: seq<byte>, ts: nat, memory: bool) | Expiry(now: nat, maxOut: int)

  function Step(c: Config, s: State, op: Op): (r: State) {
    match op
    case Frame(bytes, ts, memory) => Process(c, s, bytes, ts, memory).0
    case Expiry(now, maxOut) => Expire(s, now, maxOut).0
  }

  function Run(c: Config, ops: seq<Op>): (s: State) {
    if |ops| == 0 then START else Step(c, Run(c, ops[..|ops| - 1]), ops[|ops| - 1])
  }

  function AllPackets(flows: seq<Flow>): (n: nat) {
    if |flows| == 0 then 0 else Packets(flows[0]) + AllPackets(flows[1..])
  }

  predicate DistinctKeys(flows: seq<Flow>) {
    forall i, j | 0 <= i < j < |flows| :: flows[i].key != flows[j].key
  }

  /** The packets that were counted somewhere. */
  ghost function Accounted(s: State): (n: nat) {
    s.bad + s.dropped + s.lost + AllPackets(s.flows) + s.expiredPackets
  }

  ghost predicate TableOk(c: Config, flows: seq<Flow>) {
    DistinctKeys(flows) && |flows| <= Room(c.maxFlows)
  }

  /** Every packet is accounted for, once. */
  ghost predicate Inv(c: Config, s: State) {
    s.total == Accounted(s) && TableOk(c, s.flows)
  }

  lemma {:induction false} PacketsAppend(a: seq<Flow>, b: seq<Flow>)
    ensures AllPackets(a + b) == AllPackets(a) + AllPackets(b)
  {
    if |a| == 0 {
      assert a + b == b;
    } else {
      PacketsAppend(a[1..], b);
      assert (a + b)[1..] == a[1..] + b;
    }
  }

  lemma {:induction false} PacketsInserted(flows: seq<Flow>, i: nat, f: Flow)
    ensures AllPackets(InsertAt(flows, i, f)) == AllPackets(flows) + Packets(f)
  {
    assert AllPackets([f]) == Packets(f);
    if i > |flows| {
      PacketsAppend(flows, [f]);
    } else {
      PacketsAppend(flows[..i] + [f], flows[i..]);
      PacketsAppend(flows[..i], [f]);
      PacketsAppend(flows[..i], flows[i..]);
      assert flows[..i] + flows[i..] == flows;
    }
  }

  lemma {:induction false} PacketsReplaced(flows: seq<Flow>, i: nat, f: Flow)
    requires i < |flows|
    ensures AllPackets(flows[i := f]) + Packets(flows[i]) == AllPackets(flows) + Packets(f)
  {
    var rest := flows[..i] + flows[i + 1..];
    PacketsInserted(rest, i, f);
    PacketsInserted(rest, i, flows[i]);
    assert InsertAt(rest, i, f) == flows[i := f];
    assert InsertAt(rest, i, flows[i]) == flows;
  }

  /** Where the flows of a table are after an insertion. */
  lemma InsertedAt(flows: seq<Flow>, i: nat, f: Flow, x: nat)
    requires x <= |flows|
    ensures var at := if i > |flows| then |flows| else i;
            InsertAt(flows, i, f)[x] == if x == at then f else flows[if x < at then x else x - 1]
  {
  }

  lemma {:induction false} InsertedKeys(flows: seq<Flow>, i: nat, f: Flow)
    requires DistinctKeys(flows) && IndexOf(flows, f.key) == |flows|
    ensures DistinctKeys(InsertAt(flows, i, f))
  {
    var r := InsertAt(flows, i, f);
    forall x, y | 0 <= x < y < |r| ensures r[x].key != r[y].key {
      InsertedAt(flows, i, f, x);
      InsertedAt(flows, i, f, y);
    }
  }

  lemma {:induction false} CountKeeps(c: Config, s: State, p: Parsed, ts: nat, memory: bool)
    requires WfParsed(p) && TableOk(c, s.flows)
    ensures var r := Count(c, s, p, ts, memory).0;
            Accounted(r) == Accounted(s) + 1 && r.total == s.total && TableOk(c, r.flows)
  {
    var (k, reverse) := KeyOf(p, c.level);
    var i := IndexOf(s.flows, k);
    if i < |s.flows| {
      PacketsReplaced(s.flows, i, Updated(s.flows[i], p, reverse, ts));
    } else if |s.flows| < c.maxFlows && memory {
      var f := NewFlow(k, p, reverse, ts);
      PacketsInserted(s.flows, c.place(s.flows, k), f);
      InsertedKeys(s.flows, c.place(s.flows, k), f);
    }
  }

  lemma {:induction false} ProcessKeeps(c: Config, s: State, frame: seq<byte>, ts: nat, memory: bool)
    requires Inv(c, s)
    ensures Inv(c, Process(c, s, frame, ts, memory).0)
  {
    var p := Parse(frame);
    if |frame| > 0 && p.Some? {
      CountKeeps(c, s.(total := s.total + 1), p.value, ts, memory);
    }
  }

  /** A sweep splits the flows ... */
  lemma {:induction false} SweepSplits(flows: seq<Flow>, now: nat, room: nat)
    ensures var (kept, out) := Sweep(flows, now, room); multiset(kept) + multiset(out) == multiset(flows)
    decreases |flows|
  {
    if |flows| > 0 && room > 0 {
      assert flows == [flows[0]] + flows[1..];
      SweepSplits(flows[1..], now, if Overdue(flows[0], now) then room - 1 else room);
    }
  }

  /** ... only overdue ones leave, and all of them if there was room ... */
  lemma {:induction false} SweepOverdue(flows: seq<Flow>, now: nat, room: nat)
    ensures var (kept, out) := Sweep(flows, now, room);
            && |out| <= room && (forall i | 0 <= i < |out| :: Overdue(out[i], now))
            && (|out| < room ==> forall i | 0 <= i < |kept| :: !Overdue(kept[i], now))
    decreases |flows|
  {
    if |flows| > 0 && room > 0 {
      SweepOverdue(flows[1..], now, if Overdue(flows[0], now) then room - 1 else room);
    }
  }

  /** ... and its packets are shared out. */
  lemma {:induction false} SweepPackets(flows: seq<Flow>, now: nat, room: nat)
    ensures var (kept, out) := Sweep(flows, now, room);
            AllPackets(kept) + AllPackets(out) == AllPackets(flows) && |kept| <= |flows|
    decreases |flows|
  {
    if |flows| > 0 && room > 0 {
      if Overdue(flows[0], now) {
        SweepPackets(flows[1..], now, room - 1);
      } else {
        SweepPackets(flows[1..], now, room);
      }
    }
  }

  lemma {:induction false} SweepKeys(flows: seq<Flow>, now: nat, room: nat)
    requires DistinctKeys(flows)
    ensures var (kept, out) := Sweep(flows, now, room);
            DistinctKeys(kept) && forall f | f in kept :: f in flows
    decreases |flows|
  {
    if |flows| > 0 && room > 0 {
      assert DistinctKeys(flows[1..]);
      if Overdue(flows[0], now) {
        SweepKeys(flows[1..], now, room - 1);
      } else {
        SweepKeys(flows[1..], now, room);
        var kept := Sweep(flows[1..], now, room).0;
        FreshKey(flows, kept);
      }
    }
  }

  lemma {:induction false} FreshKey(flows: seq<Flow>, kept: seq<Flow>)
    requires |flows| > 0 && DistinctKeys(flows) && DistinctKeys(kept) && forall f | f in kept :: f in flows[1..]
    ensures DistinctKeys([flows[0]] + kept)
  {
    var r := [flows[0]] + kept;
    forall x, y | 0 <= x < y < |r| ensures r[x].key != r[y].key {
      if x == 0 {
        assert r[y] in kept && r[y] in flows[1..];
      } else {
        assert r[x] == kept[x - 1] && r[y] == kept[y - 1];
      }
    }
  }

  lemma {:induction false} StepKeeps(c: Config, s: State, op: Op)
    requires Inv(c, s)
    ensures Inv(c, Step(c, s, op))
  {
    match op
    case Frame(bytes, ts, memory) => ProcessKeeps(c, s, bytes, ts, memory);
    case Expiry(now, maxOut) =>
      SweepPackets(s.flows, now, Room(maxOut));
      SweepKeys(s.flows, now, Room(maxOut));
  }

  lemma {:induction false} StartOk(c: Config)
    ensures Inv(c, START)
  {
    assert AllPackets([]) == 0;
    assert DistinctKeys([]);
    assert TableOk(c, []);
  }

  /** Conservation, over every run: the packets seen are those that could not be parsed, those
      dropped from a full table, those lost to a failed allocation, and those counted in flows,
      live or expired. No two live flows have the same key. */
  lemma {:induction false} PacketsConserved(c: Config, ops: seq<Op>)
    ensures Inv(c, Run(c, ops))
  {
    if |ops| == 0 {
      StartOk(c);
    } else {
      PacketsConserved(c, ops[..|ops| - 1]);
      StepKeeps(c, Run(c, ops[..|ops| - 1]), ops[|ops| - 1]);
    }
  }

  predicate Addressed(flows: seq<Flow>) {
    forall i | 0 <= i < |flows| :: |flows[i].key.src| == 16 && |flows[i].key.dst| == 16
  }

  lemma CountAddresses(c: Config, s: State, p: Parsed, ts: nat, memory: bool)
    requires WfParsed(p) && Addressed(s.flows)
    ensures Addressed(Count(c, s, p, ts, memory).0.flows)
  {
  }

  lemma {:induction false} SweepAddresses(flows: seq<Flow>, now: nat, room: nat)
    requires Addressed(flows)
    ensures Addressed(Sweep(flows, now, room).0) && Addressed(Sweep(flows, now, room).1)
    decreases |flows|
  {
    if |flows| > 0 && room > 0 {
      SweepAddresses(flows[1..], now, if Overdue(flows[0], now) then room - 1 else room);
    }
  }

  /** Every flow that a run keeps or expires has the full-length addresses the exporter reads. */
  lemma {:induction false} AddressesKept(c: Config, ops: seq<Op>, now: nat, maxOut: int)
    ensures Addressed(Run(c, ops).flows) && Addressed(Expire(Run(c, ops), now, maxOut).1)
  {
    if |ops| > 0 {
      var s, op := Run(c, ops[..|ops| - 1]), ops[|ops| - 1];
      AddressesKept(c, ops[..|ops| - 1], 0, 0);
      match op {
        case Frame(bytes, ts, memory) =>
          if |bytes| > 0 && Parse(bytes).Some? {
            CountAddresses(c, s.(total := s.total + 1), Parse(bytes).value, ts, memory);
          }
        case Expiry(at, most) => SweepAddresses(s.flows, at, Room(most));
      }
    }
    SweepAddresses(Run(c, ops).flows, now, Room(maxOut));
  }

  /** Expiry, in every state: only overdue flows are removed, the others stay as they are, and
      when fewer than `maxOut` are returned no overdue flow is left. */
  lemma {:induction false} ExpireExact(s: State, now: nat, maxOut: int)
    ensures var (r, out) := Expire(s, now, maxOut);
            && multiset(r.flows) + multiset(out) == multiset(s.flows)
            && (forall f | f in out :: Overdue(f, now))
            && (|out| < maxOut ==> forall f | f in r.flows :: !Overdue(f, now))
            && |out| <= Room(maxOut)
  {
    SweepSplits(s.flows, now, Room(maxOut));
    SweepOverdue(s.flows, now, Room(maxOut));
  }

  /** Both directions of a conversation are counted in one flow: an answer finds the flow its
      request made, and is counted on the other side unless both endpoints are the same. */
  lemma {:induction false} AnswerSameFlow(p: Parsed, level: int, flows: seq<Flow>, ts: nat, i: nat)
    requires WfParsed(p) && DistinctKeys(flows) && i < |flows| && flows[i].key == KeyOf(p, level).0
    ensures IndexOf(flows, KeyOf(Swapped(p), level).0) == i
    ensures var one, two := Updated(flows[i], p, KeyOf(p, level).1, ts),
                            Updated(Updated(flows[i], p, KeyOf(p, level).1, ts), Swapped(p), KeyOf(Swapped(p),
                              level).1, ts);
            Packets(two) == Packets(flows[i]) + 2 &&
            (!SameEnds(p) ==> two.packetsFwd == flows[i].packetsFwd + 1 && two.packetsRev == flows[i].packetsRev + 1)
  {
    KeySymmetric(p, level);
    assert IndexOf(flows, flows[i].key) <= i;
  }

  // ----- the table in place -----

  class Table {
    const place: (seq<Flow>, Key) -> nat
    const maxFlows: int
    const level: int
    var flows: seq<Flow>
    var numFlows: int
    var total: nat
    var bad: nat
    var dropped: nat
    var expired: nat
    ghost var lost: nat
    ghost var expiredPackets: nat

    ghost function Settings(): (c: Config) {
      Config(maxFlows, level, place)
    }

    ghost function View(): (s: State)
      reads this
    {
      State(flows, total, bad, dropped, expired, lost, expiredPackets)
    }

    ghost predicate Valid()
      reads this
    {
      numFlows == |flows| && total == Accounted(View()) && TableOk(Settings(), flows)
    }

    constructor (max: int, level: int, place: (seq<Flow>, Key) -> nat)
      ensures Valid() && View() == START && maxFlows > 0 && this.level == level
    {
      maxFlows := if max > 0 then max else DEFAULT_MAX;
      this.level, this.place := level, place;
      flows, numFlows, total, bad, dropped, expired := [], 0, 0, 0, 0, 0;
      lost, expiredPackets := 0, 0;
    }

    method Find(k: Key) returns (i: nat)
      ensures i == IndexOf(flows, k)
    {
      i := 0;
      while i < |flows| && flows[i].key != k
        invariant i <= |flows| && forall j | 0 <= j < i :: flows[j].key != k
      {
        i := i + 1;
      }
    }

    /** One frame: the state is that of the semantics, and stays accounted for. */
    method ProcessPacket(frame: seq<byte>, ts: nat, memory: bool) returns (ok: bool)
      requires Valid()
      modifies this
      ensures Valid() && (View(), ok) == Process(Settings(), old(View()), frame, ts, memory)
    {
      if |frame| == 0 {
        return false;
      }
      total := total + 1;
      var p := Parse(frame);
      if p.None? {
        bad := bad + 1;
        return false;
      }
      ok := Tally(p.value, ts, memory);
    }

    /** A parsed packet: its flow is updated or made, or the packet is dropped. */
    method Tally(p: Parsed, ts: nat, memory: bool) returns (ok: bool)
      requires numFlows == |flows| && WfParsed(p) && TableOk(Settings(), flows)
      modifies this
      ensures numFlows == |flows| && TableOk(Settings(), flows)
      ensures (View(), ok) == Count(Settings(), old(View()), p, ts, memory)
      ensures total == old(total) && Accounted(View()) == old(Accounted(View())) + 1
    {
      CountKeeps(Settings(), View(), p, ts, memory);
      var (k, reverse) := KeyOf(p, level);
      var i := Find(k);
      if i < |flows| {
        flows := flows[i := Updated(flows[i], p, reverse, ts)];
        return true;
      }
      if numFlows >= maxFlows {
        dropped := dropped + 1;
        return false;
      }
      if !memory {
        lost := lost + 1;
        return false;
      }
      flows := InsertAt(flows, place(flows, k), NewFlow(k, p, reverse, ts));
      numFlows := numFlows + 1;
      return true;
    }

    /** The walk that expires flows. */
    method ExpireFlows(now: nat, maxOut: int) returns (out: seq<Flow>)
      requires Valid()
      modifies this
      ensures Valid() && (View(), out) == Expire(old(View()), now, maxOut)
    {
      StepKeeps(Settings(), View(), Expiry(now, maxOut));
      out := SweepFlows(now, maxOut);
      expiredPackets := expiredPackets + AllPackets(out);
    }

    method SweepFlows(now: nat, maxOut: int) returns (out: seq<Flow>)
      requires numFlows == |flows|
      modifies `flows, `numFlows, `expired
      ensures numFlows == |flows| && (flows, out) == Sweep(old(flows), now, Room(maxOut))
      ensures expired == old(expired) + |out|
    {
      out := [];
      var kept, rest := [], flows;
      JoinedNothing(Sweep(flows, now, Room(maxOut)));
      while |rest| > 0 && |out| < maxOut
        invariant |out| <= Room(maxOut)
        invariant Sweep(old(flows), now, Room(maxOut)) == Joined(kept, out, Sweep(rest, now, Room(maxOut) - |out|))
        invariant numFlows == |kept| + |rest| && expired == old(expired) + |out|
        decreases |rest|
      {
        SweepFrom(kept, out, rest, now, Room(maxOut) - |out|);
        if Overdue(rest[0], now) {
          out := out + [rest[0]];
          numFlows := numFlows - 1;
          expired := expired + 1;
        } else {
          kept := kept + [rest[0]];
        }
        rest := rest[1..];
      }
      assert Sweep(rest, now, Room(maxOut) - |out|) == (rest, []);
      assert out + [] == out;
      flows := kept + rest;
    }
  }

  /** The outcome of a sweep of which a part is done. */
  ghost function Joined(kept: seq<Flow>, out: seq<Flow>, rest: (seq<Flow>, seq<Flow>)): (r: (seq<Flow>, seq<Flow>)) {
    (kept + rest.0, out + rest.1)
  }

  lemma {:induction false} SweepFrom(kept: seq<Flow>, out: seq<Flow>, rest: seq<Flow>, now: nat, room: nat)
    requires |rest| > 0 && room > 0
    ensures Joined(kept, out, Sweep(rest, now, room)) ==
            if Overdue(rest[0], now) then Joined(kept, out + [rest[0]], Sweep(rest[1..], now, room - 1))
            else Joined(kept + [rest[0]], out, Sweep(rest[1..], now, room))
  {
    var (k, o) := Sweep(rest[1..], now, if Overdue(rest[0], now) then room - 1 else room);
    assert kept + ([rest[0]] + k) == kept + [rest[0]] + k && out + ([rest[0]] + o) == out + [rest[0]] + o;
  }

  lemma {:induction false} JoinedNothing(r: (seq<Flow>, seq<Flow>))
    ensures Joined([], [], r) == r
  {
    assert [] + r.0 == r.0 && [] + r.1 == r.1;
  }
}
