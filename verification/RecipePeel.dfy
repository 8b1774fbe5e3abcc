/** Cipher peeling: what the enumeration of accepted ciphers finds. */
module RecipePeel {
  import opened JsonTree
  import opened RecipeTemplate
  import opened RecipeCheck
  import opened RecipeRun

  // ----- every backend: nothing is recorded that was not negotiated -----

  /** The name was recorded for a handshake with this server, from the given event on, that
      negotiated its cipher. */
  ghost predicate Seen(trace: seq<Event>, from: nat, q: Probe, name: string) {
    exists i | from <= i < |trace| :: Negotiates(trace[i], q, name)
  }

  predicate Negotiates(e: Event, q: Probe, name: string) {
    && e.Probed? && e.probe.host == q.host && e.probe.port == q.port && e.reply.Negotiated?
    && name == Cut(e.probe.proto + ":" + e.reply.cipher, 200)
  }

  ghost predicate AllSeen(trace: seq<Event>, from: nat, q: Probe, names: seq<string>) {
    forall i | 0 <= i < |names| :: Seen(trace, from, q, names[i])
  }

  lemma {:induction false} SeenLater(trace: seq<Event>, from: nat, q: Probe, e: Event, names: seq<string>)
    requires AllSeen(trace, from, q, names)
    ensures AllSeen(trace + [e], from, q, names)
  {
    forall i | 0 <= i < |names| ensures Seen(trace + [e], from, q, names[i]) {
      assert Seen(trace, from, q, names[i]);
      var j :| from <= j < |trace| && Negotiates(trace[j], q, names[i]);
      assert (trace + [e])[j] == trace[j];
    }
  }

  lemma {:induction false} SeenNow(trace: seq<Event>, from: nat, q: Probe, e: Event)
    requires from <= |trace| && e.Probed? && e.probe.host == q.host && e.probe.port == q.port && e.reply.Negotiated?
    ensures Seen(trace + [e], from, q, Cut(e.probe.proto + ":" + e.reply.cipher, 200))
  {
    assert Negotiates((trace + [e])[|trace|], q, Cut(e.probe.proto + ":" + e.reply.cipher, 200));
  }

  lemma {:induction false} PeelHonest(env: Env, rt: Rt, from: nat, q: Probe, last: string, added: bool, acc: Peeled)
    requires from <= |rt.trace| && AllSeen(rt.trace, from, q, acc.ciphers)
    ensures var (r, p, o) := Peel(env, rt, q, last, added, acc);
            |r.trace| >= |rt.trace| && AllSeen(r.trace, from, q, p.ciphers)
    decreases env.budgets.maxTlsProbes - rt.tls
  {
    var (rt1, o) := BudgetTls(env, rt);
    if o == Done {
      var reply := env.io.probe(rt1.trace, q);
      var e := Probed(q, reply);
      SeenLater(rt1.trace, from, q, e, acc.ciphers);
      if !(!reply.Negotiated? || reply.cipher == "" || reply.cipher == last) {
        SeenNow(rt1.trace, from, q, e);
        var q1, acc1 := Excluding(q, reply.cipher), Collected(acc, q.proto, reply.cipher, added);
        SeenSameServer(Log(rt1, e).trace, from, q, q1, acc1.ciphers);
        PeelHonest(env, Log(rt1, e), from, q1, Cut(reply.cipher, 128), added || |acc.protos| < PROTOS_MAX, acc1);
        var (r, p, _) := Peel(env, rt, q, last, added, acc);
        SeenSameServer(r.trace, from, q1, q, p.ciphers);
      }
    }
  }

  lemma {:induction false} SeenSameServer(trace: seq<Event>, from: nat, q: Probe, q1: Probe, names: seq<string>)
    requires q1.host == q.host && q1.port == q.port && AllSeen(trace, from, q, names)
    ensures AllSeen(trace, from, q1, names)
  {
    forall i | 0 <= i < |names| ensures Seen(trace, from, q1, names[i]) {
      assert Seen(trace, from, q, names[i]);
      var j :| from <= j < |trace| && Negotiates(trace[j], q, names[i]);
      assert Negotiates(trace[j], q1, names[i]);
    }
  }

  lemma {:induction false} PeelAllHonest(env: Env, rt: Rt, from: nat, q: Probe, protos: seq<string>, acc: Peeled)
    requires from <= |rt.trace| && AllSeen(rt.trace, from, q, acc.ciphers)
    ensures var (r, p, o) := PeelAll(env, rt, q, protos, acc);
            |r.trace| >= |rt.trace| && AllSeen(r.trace, from, q, p.ciphers)
    decreases |protos|
  {
    if |protos| > 0 {
      var q1 := q.(proto := protos[0], ciphers := EXCLUDE_BASE);
      SeenSameServer(rt.trace, from, q, q1, acc.ciphers);
      PeelHonest(env, rt, from, q1, "", false, acc);
      var (rt1, acc1, o) := Peel(env, rt, q1, "", false, acc);
      SeenSameServer(rt1.trace, from, q1, q, acc1.ciphers);
      if o == Done {
        PeelAllHonest(env, rt1, from, q, protos[1..], acc1);
      }
    }
  }

  /** Whatever the backend does, each cipher the enumeration reports was negotiated in one of the
      handshakes of this step, with its server and the protocol it is reported for. */
  lemma {:induction false} EnumHonest(env: Env, rt: Rt, s: Step)
    requires s.TlsEnum? && DoTlsEnum(env, rt, s).1 == Done
    ensures var r := DoTlsEnum(env, rt, s).0;
            && |r.bs| >= 2 && r.bs[|r.bs| - 1].name == "tls_accepted_ciphers" && r.bs[|r.bs| - 1].val.Strings?
            && Expand(s.host, rt.bs, env.target).Ok? && ResolveInt(env, rt, s.port).Ok?
            && AllSeen(r.trace, |rt.trace|, EnumProbe(env, rt, s), r.bs[|r.bs| - 1].val.items)
  {
    var protos := if |s.protocols| == 0 then DEFAULT_PROTOS else s.protocols;
    PeelAllHonest(env, rt, |rt.trace|, EnumProbe(env, rt, s), protos, Peeled([], []));
  }

  // ----- exclusion lists -----

  /** The items of a colon-separated list. */
  function Split(s: string): (r: seq<string>)
    ensures |r| > 0
  {
    if s == "" then [""]
    else
      var rest := Split(s[1..]);
      if s[0] == ':' then [""] + rest else [[s[0]] + rest[0]] + rest[1..]
  }

  predicate NoColon(c: string) {
    forall i | 0 <= i < |c| :: c[i] != ':'
  }

  lemma {:induction false} SplitWord(c: string)
    requires NoColon(c)
    ensures Split(c) == [c]
  {
    if c != "" {
      SplitWord(c[1..]);
      assert [c[0]] + c[1..] == c;
    }
  }

  lemma {:induction false} SplitAppend(a: string, c: string)
    requires NoColon(c)
    ensures Split(a + ":" + c) == Split(a) + [c]
  {
    var t := a + ":" + c;
    if a == "" {
      assert t[1..] == c;
      SplitWord(c);
    } else {
      assert t[1..] == a[1..] + ":" + c;
      SplitAppend(a[1..], c);
    }
  }

  /** The ciphers a list switches off: its items that start with an exclamation mark. */
  ghost predicate Excluded(list: string, c: string) {
    "!" + c in Split(list)
  }

  lemma {:induction false} ExcludedAppend(list: string, c: string, d: string)
    requires NoColon(c)
    ensures Excluded(list + ":!" + c, d) <==> Excluded(list, d) || d == c
  {
    assert list + ":!" + c == list + ":" + ("!" + c);
    SplitAppend(list, "!" + c);
    assert "!" + d == "!" + c ==> d == c by {
      assert ("!" + d)[1..] == d && ("!" + c)[1..] == c;
    }
  }

  // ----- a server that picks any accepted, not yet excluded cipher -----

  predicate CipherName(c: string) {
    0 < |c| < 64 && NoColon(c)
  }

  ghost predicate NoDuplicates(names: seq<string>) {
    forall i, j | 0 <= i < j < |names| :: names[i] != names[j]
  }

  /** The reply to a probe: some accepted cipher the list does not exclude, or a refusal when
      there is none. */
  ghost predicate Honours(reply: ProbeReply, list: string, accepted: seq<string>) {
    if exists c | c in accepted :: !Excluded(list, c) then
      reply.Negotiated? && reply.cipher in accepted && !Excluded(list, reply.cipher)
    else !reply.Negotiated?
  }

  ghost predicate Serves(env: Env, q: Probe, accepted: seq<string>) {
    forall h: seq<Event>, list: string :: Honours(env.io.probe(h, q.(ciphers := list)), list, accepted)
  }

  /** What excluding the names adds to the exclusion list. */
  function ExclusionLength(names: seq<string>): (n: nat) {
    if |names| == 0 then 0 else 2 + |names[0]| + ExclusionLength(names[1..])
  }

  function Without(names: seq<string>, i: nat): (r: seq<string>)
    requires i < |names|
  {
    names[..i] + names[i + 1..]
  }

  lemma {:induction false} WithoutLength(names: seq<string>, i: nat)
    requires i < |names|
    ensures ExclusionLength(names) == ExclusionLength(Without(names, i)) + 2 + |names[i]|
  {
    if i == 0 {
      assert Without(names, 0) == names[1..];
    } else {
      WithoutLength(names[1..], i - 1);
      assert Without(names, i)[1..] == Without(names[1..], i - 1);
    }
  }

  lemma {:induction false} WithoutKeeps(names: seq<string>, i: nat)
    requires i < |names| && NoDuplicates(names)
    ensures NoDuplicates(Without(names, i)) && multiset(Without(names, i)) + multiset{names[i]} == multiset(names)
    ensures forall c :: c in Without(names, i) <==> c in names && c != names[i]
  {
    assert names == names[..i] + [names[i]] + names[i + 1..];
    forall c ensures c in Without(names, i) <==> c in names && c != names[i] {
      if c in names && c != names[i] {
        var j :| 0 <= j < |names| && names[j] == c;
        assert c == Without(names, i)[if j < i then j else j - 1];
      }
    }
  }

  /** The reports for the ciphers of a protocol. */
  function Reports(proto: string, names: seq<string>): (r: seq<string>)
    ensures |r| == |names|
  {
    if |names| == 0 then [] else [proto + ":" + names[0]] + Reports(proto, names[1..])
  }

  /** The ciphers still to be found are those not excluded yet. */
  ghost predicate Remaining(list: string, accepted: seq<string>, left: seq<string>) {
    forall c :: c in left <==> c in accepted && !Excluded(list, c)
  }

  ghost predicate Fits(q: Probe, left: seq<string>, acc: Peeled) {
    && |q.ciphers| + ExclusionLength(left) < EXCLUDE_CAP
    && |acc.ciphers| + |left| <= CIPHERS_MAX
    && |q.proto| <= 32
    && forall i | 0 <= i < |left| :: CipherName(left[i])
  }

  /** One round that finds a cipher. */
  lemma {:induction false} RoundFinds(env: Env, rt: Rt, q: Probe, accepted: seq<string>, left: seq<string>,
                                      last: string, added: bool, acc: Peeled)
    returns (i: nat)
    requires Serves(env, q, accepted) && NoDuplicates(left) && Remaining(q.ciphers, accepted, left)
    requires Fits(q, left, acc) && last !in left && |left| > 0 && rt.tls < env.budgets.maxTlsProbes
    ensures i < |left|
    ensures var c, rest := left[i], Without(left, i);
            var rt1 := rt.(tls := rt.tls + 1);
            var rt2 := Log(rt1, Probed(q, env.io.probe(rt1.trace, q)));
            var q1, acc1 := Excluding(q, c), Collected(acc, q.proto, c, added);
            && Peel(env, rt, q, last, added, acc) == Peel(env, rt2, q1, c, added || |acc.protos| < PROTOS_MAX, acc1)
            && acc1.ciphers == acc.ciphers + [q.proto + ":" + c]
            && Serves(env, q1, accepted) && Remaining(q1.ciphers, accepted, rest) && Fits(q1, rest, acc1)
            && c !in rest
  {
    var rt1 := rt.(tls := rt.tls + 1);
    var reply := env.io.probe(rt1.trace, q);
    assert q == q.(ciphers := q.ciphers);
    assert left[0] in left;
    var c := reply.cipher;
    assert c in left;
    i :| 0 <= i < |left| && left[i] == c;
    WithoutLength(left, i);
    WithoutKeeps(left, i);
    assert Excluding(q, c).ciphers == q.ciphers + ":!" + c;
    forall d ensures Excluded(q.ciphers + ":!" + c, d) <==> Excluded(q.ciphers, d) || d == c {
      ExcludedAppend(q.ciphers, c, d);
    }
  }

  /** The last round: nothing is left, the server refuses. */
  lemma {:induction false} RoundEnds(env: Env, rt: Rt, q: Probe, accepted: seq<string>, left: seq<string>,
                                     last: string, added: bool, acc: Peeled)
    requires Serves(env, q, accepted) && Remaining(q.ciphers, accepted, left) && |left| == 0
    requires rt.tls < env.budgets.maxTlsProbes
    ensures var (r, p, o) := Peel(env, rt, q, last, added, acc);
            o == Done && p == acc && r.tls == rt.tls + 1
  {
    assert q == q.(ciphers := q.ciphers);
    forall c | c in accepted ensures Excluded(q.ciphers, c) {
      assert c !in left;
    }
  }

  /** Peeling one protocol finds exactly the accepted ciphers, each once, in some order, with one
      handshake for each and one more; it completes exactly when the budget allows these. */
  lemma {:induction false} PeelExact(env: Env, rt: Rt, q: Probe, accepted: seq<string>, left: seq<string>,
                                     last: string, added: bool, acc: Peeled) returns (order: seq<string>)
    requires Serves(env, q, accepted) && NoDuplicates(left) && Remaining(q.ciphers, accepted, left)
    requires Fits(q, left, acc) && last !in left && (added || |acc.protos| < PROTOS_MAX)
    ensures var (r, p, o) := Peel(env, rt, q, last, added, acc);
            && (o == Done <==> rt.tls + |left| + 1 <= env.budgets.maxTlsProbes)
            && (o == Done ==>
                  && r.tls == rt.tls + |left| + 1
                  && |order| == |left| && multiset(order) == multiset(left)
                  && p.ciphers == acc.ciphers + Reports(q.proto, order)
                  && p.protos == if |left| > 0 && !added then acc.protos + [q.proto] else acc.protos)
    decreases |left|
  {
    order := [];
    if rt.tls >= env.budgets.maxTlsProbes {
    } else if |left| == 0 {
      RoundEnds(env, rt, q, accepted, left, last, added, acc);
      assert left == [] && acc.ciphers + Reports(q.proto, order) == acc.ciphers;
    } else {
      var i := RoundFinds(env, rt, q, accepted, left, last, added, acc);
      var c, rest := left[i], Without(left, i);
      WithoutKeeps(left, i);
      var rt1 := rt.(tls := rt.tls + 1);
      var rt2 := Log(rt1, Probed(q, env.io.probe(rt1.trace, q)));
      var acc1 := Collected(acc, q.proto, c, added);
      var tail := PeelExact(env, rt2, Excluding(q, c), accepted, rest, c, true, acc1);
      order := [c] + tail;
      ReportsStep(acc.ciphers, q.proto, c, tail);
    }
  }

  lemma {:induction false} ReportsStep(a: seq<string>, proto: string, c: string, tail: seq<string>)
    ensures a + [proto + ":" + c] + Reports(proto, tail) == a + Reports(proto, [c] + tail)
  {
    assert ([c] + tail)[1..] == tail;
  }

  // ----- the whole enumeration -----

  /** What the enumeration tells of a server: the reports of each protocol, in the order found. */
  function AllReports(protos: seq<string>, orders: seq<seq<string>>): (r: seq<string>)
    requires |protos| == |orders|
  {
    if |protos| == 0 then [] else Reports(protos[0], orders[0]) + AllReports(protos[1..], orders[1..])
  }

  /** The protocols with at least one accepted cipher. */
  function Spoken(protos: seq<string>, accepted: seq<seq<string>>): (r: seq<string>)
    requires |protos| == |accepted|
  {
    if |protos| == 0 then []
    else (if |accepted[0]| > 0 then [protos[0]] else []) + Spoken(protos[1..], accepted[1..])
  }

  /** One handshake for each accepted cipher, and one more for each protocol. */
  function Handshakes(accepted: seq<seq<string>>): (n: nat) {
    if |accepted| == 0 then 0 else |accepted[0]| + 1 + Handshakes(accepted[1..])
  }

  function Count(accepted: seq<seq<string>>): (n: nat) {
    if |accepted| == 0 then 0 else |accepted[0]| + Count(accepted[1..])
  }

  /** The exclusion list has room for the ciphers and they are names it can exclude. */
  ghost predicate Listable(accepted: seq<string>) {
    && NoDuplicates(accepted)
    && |EXCLUDE_BASE| + ExclusionLength(accepted) < EXCLUDE_CAP
    && forall i | 0 <= i < |accepted| :: CipherName(accepted[i])
  }

  /** The backend answers like a server with these accepted ciphers, protocol by protocol. */
  ghost predicate Answers(env: Env, q: Probe, protos: seq<string>, accepted: seq<seq<string>>) {
    && |protos| == |accepted|
    && (|protos| > 0 ==>
          && |protos[0]| <= 32 && Listable(accepted[0]) && Serves(env, q.(proto := protos[0]), accepted[0])
          && Answers(env, q, protos[1..], accepted[1..]))
  }

  predicate NoBang(s: string) {
    '!' !in s
  }

  lemma {:induction false} SplitNoBang(s: string)
    requires NoBang(s)
    ensures forall i | 0 <= i < |Split(s)| :: NoBang(Split(s)[i])
  {
    if s != "" {
      SplitNoBang(s[1..]);
    }
  }

  lemma {:induction false} BaseExcludesNothing(c: string)
    ensures !Excluded(EXCLUDE_BASE, c)
  {
    SplitNoBang(EXCLUDE_BASE);
    assert ("!" + c)[0] == '!';
  }

  lemma {:induction false} PeelProtocol(env: Env, rt: Rt, q: Probe, proto: string, accepted: seq<string>, acc: Peeled)
    returns (order: seq<string>)
    requires Serves(env, q.(proto := proto), accepted) && Listable(accepted) && |proto| <= 32
    requires |acc.ciphers| + |accepted| <= CIPHERS_MAX && |acc.protos| < PROTOS_MAX
    ensures var (r, p, o) := Peel(env, rt, q.(proto := proto, ciphers := EXCLUDE_BASE), "", false, acc);
            && (o == Done <==> rt.tls + |accepted| + 1 <= env.budgets.maxTlsProbes)
            && (o == Done ==>
                  && r.tls == rt.tls + |accepted| + 1
                  && |order| == |accepted| && multiset(order) == multiset(accepted)
                  && p.ciphers == acc.ciphers + Reports(proto, order)
                  && p.protos == acc.protos + (if |accepted| > 0 then [proto] else []))
  {
    var q1 := q.(proto := proto, ciphers := EXCLUDE_BASE);
    SameServer(env, q.(proto := proto), q1, accepted);
    forall c ensures !Excluded(EXCLUDE_BASE, c) { BaseExcludesNothing(c); }
    order := PeelExact(env, rt, q1, accepted, accepted, "", false, acc);
  }

  ghost predicate SameCiphers(orders: seq<seq<string>>, accepted: seq<seq<string>>) {
    |orders| == |accepted| && forall i | 0 <= i < |orders| :: multiset(orders[i]) == multiset(accepted[i])
  }

  /** The enumeration of a server reports, protocol by protocol, exactly the accepted ciphers,
      each once; it completes exactly when the handshake budget covers one handshake for each
      cipher and one for each protocol. */
  lemma {:induction false} PeelAllExact(env: Env, rt: Rt, q: Probe, protos: seq<string>,
                                        accepted: seq<seq<string>>, acc: Peeled) returns (orders: seq<seq<string>>)
    requires Answers(env, q, protos, accepted)
    requires |acc.ciphers| + Count(accepted) <= CIPHERS_MAX && |acc.protos| + |protos| <= PROTOS_MAX
    ensures SameCiphers(orders, accepted)
    ensures var (r, p, o) := PeelAll(env, rt, q, protos, acc);
            && (o == Done <==> rt.tls + Handshakes(accepted) <= env.budgets.maxTlsProbes || |protos| == 0)
            && (o == Done ==>
                  && r.tls == rt.tls + Handshakes(accepted)
                  && p.ciphers == acc.ciphers + AllReports(protos, orders)
                  && p.protos == acc.protos + Spoken(protos, accepted))
    decreases |protos|
  {
    if |protos| == 0 {
      orders := [];
    } else {
      var order := PeelProtocol(env, rt, q, protos[0], accepted[0], acc);
      var (rt1, acc1, o) := Peel(env, rt, q.(proto := protos[0], ciphers := EXCLUDE_BASE), "", false, acc);
      if o == Done {
        var rest := PeelAllExact(env, rt1, q, protos[1..], accepted[1..], acc1);
        orders := [order] + rest;
        assert orders[1..] == rest;
        AllReportsStep(acc.ciphers, protos, orders);
        SpokenStep(acc.protos, protos, accepted);
      } else {
        orders := accepted;
      }
    }
  }

  lemma AllReportsStep(a: seq<string>, protos: seq<string>, orders: seq<seq<string>>)
    requires |protos| == |orders| > 0
    ensures a + Reports(protos[0], orders[0]) + AllReports(protos[1..], orders[1..]) == a + AllReports(protos, orders)
  {
  }

  lemma SpokenStep(a: seq<string>, protos: seq<string>, accepted: seq<seq<string>>)
    requires |protos| == |accepted| > 0
    ensures a + (if |accepted[0]| > 0 then [protos[0]] else []) + Spoken(protos[1..], accepted[1..])
         == a + Spoken(protos, accepted)
  {
  }

  /** The protocols a step enumerates. */
  function ProtosOf(s: Step): (r: seq<string>)
    requires s.TlsEnum?
    ensures |r| > 0
  {
    if |s.protocols| == 0 then DEFAULT_PROTOS else s.protocols
  }

  /** The step as a whole, on a server: the bound lists and the handshakes spent. */
  lemma {:induction false} EnumExact(env: Env, rt: Rt, s: Step, q: Probe, accepted: seq<seq<string>>)
    returns (orders: seq<seq<string>>)
    requires s.TlsEnum? && env.io.hasProbe && |ProtosOf(s)| <= PROTOS_MAX
    requires Expand(s.host, rt.bs, env.target).Ok? && ResolveInt(env, rt, s.port).Ok?
    requires q.(proto := "", ciphers := "") == EnumProbe(env, rt, s)
    requires Answers(env, q, ProtosOf(s), accepted)
    requires Count(accepted) <= CIPHERS_MAX && |rt.bs| + 2 <= BINDINGS_MAX
    ensures SameCiphers(orders, accepted)
    ensures var (r, o) := DoTlsEnum(env, rt, s);
            && (o == Done <==> rt.tls + Handshakes(accepted) <= env.budgets.maxTlsProbes)
            && (o == Done ==>
                  && r.tls == rt.tls + Handshakes(accepted)
                  && r.bs == rt.bs + [Binding("tls_accepted_protocols", Strings(Spoken(ProtosOf(s), accepted))),
                                      Binding("tls_accepted_ciphers", Strings(AllReports(ProtosOf(s), orders)))])
  {
    var q0 := q.(proto := "", ciphers := "");
    SameAnswers(env, q, q0, ProtosOf(s), accepted);
    orders := PeelAllExact(env, rt, q0, ProtosOf(s), accepted, Peeled([], []));
    var (rt1, acc, o) := PeelAll(env, rt, q0, ProtosOf(s), Peeled([], []));
    PeelAllKeepsBindings(env, rt, q0, ProtosOf(s), Peeled([], []));
    EnumBinds(env, rt, s, q0, rt1, acc, o);
    assert [] + AllReports(ProtosOf(s), orders) == AllReports(ProtosOf(s), orders);
    assert [] + Spoken(ProtosOf(s), accepted) == Spoken(ProtosOf(s), accepted);
  }

  lemma {:induction false} EnumBinds(env: Env, rt: Rt, s: Step, q0: Probe, rt1: Rt, acc: Peeled, o: Outcome)
    requires s.TlsEnum? && env.io.hasProbe && |rt.bs| + 2 <= BINDINGS_MAX
    requires Expand(s.host, rt.bs, env.target).Ok? && ResolveInt(env, rt, s.port).Ok? && q0 == EnumProbe(env, rt, s)
    requires PeelAll(env, rt, q0, ProtosOf(s), Peeled([], [])) == (rt1, acc, o) && rt1.bs == rt.bs
    ensures DoTlsEnum(env, rt, s)
         == if o.Failed? then (rt1, o)
            else (rt1.(bs := rt.bs + [Binding("tls_accepted_protocols", Strings(acc.protos)),
                                      Binding("tls_accepted_ciphers", Strings(acc.ciphers))]), Done)
  {
    if o == Done {
      var first := Binding("tls_accepted_protocols", Strings(acc.protos));
      var second := Binding("tls_accepted_ciphers", Strings(acc.ciphers));
      assert rt.bs + [first] + [second] == rt.bs + [first, second];
    }
  }

  lemma {:induction false} PeelKeepsBindings(env: Env, rt: Rt, q: Probe, last: string, added: bool, acc: Peeled)
    ensures Peel(env, rt, q, last, added, acc).0.bs == rt.bs
    decreases env.budgets.maxTlsProbes - rt.tls
  {
    var (rt1, o) := BudgetTls(env, rt);
    if o == Done {
      var reply := env.io.probe(rt1.trace, q);
      if reply.Negotiated? && reply.cipher != "" && reply.cipher != last {
        PeelKeepsBindings(env, Log(rt1, Probed(q, reply)), Excluding(q, reply.cipher), Cut(reply.cipher, 128),
                          added || |acc.protos| < PROTOS_MAX, Collected(acc, q.proto, reply.cipher, added));
      }
    }
  }

  lemma {:induction false} PeelAllKeepsBindings(env: Env, rt: Rt, q: Probe, protos: seq<string>, acc: Peeled)
    ensures PeelAll(env, rt, q, protos, acc).0.bs == rt.bs
    decreases |protos|
  {
    if |protos| > 0 {
      var q1 := q.(proto := protos[0], ciphers := EXCLUDE_BASE);
      PeelKeepsBindings(env, rt, q1, "", false, acc);
      var (rt1, acc1, o) := Peel(env, rt, q1, "", false, acc);
      if o == Done {
        PeelAllKeepsBindings(env, rt1, q, protos[1..], acc1);
      }
    }
  }

  /** How a server answers does not depend on the list of the previous probe. */
  lemma {:induction false} SameServer(env: Env, q: Probe, q1: Probe, accepted: seq<string>)
    requires Serves(env, q, accepted) && q1 == q.(ciphers := q1.ciphers)
    ensures Serves(env, q1, accepted)
  {
    forall h: seq<Event>, list: string ensures Honours(env.io.probe(h, q1.(ciphers := list)), list, accepted) {
      assert q1.(ciphers := list) == q.(ciphers := list);
    }
  }

  lemma {:induction false} SameAnswers(env: Env, q: Probe, q1: Probe, protos: seq<string>, accepted: seq<seq<string>>)
    requires Answers(env, q, protos, accepted) && q1 == q.(proto := q1.proto, ciphers := q1.ciphers)
    ensures Answers(env, q1, protos, accepted)
    decreases |protos|
  {
    if |protos| > 0 {
      SameServer(env, q.(proto := protos[0]), q1.(proto := protos[0]), accepted[0]);
      SameAnswers(env, q, q1, protos[1..], accepted[1..]);
    }
  }
}
