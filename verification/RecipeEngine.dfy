/** The recipe interpreter, with its runtime table updated in place.

    Each handler is proved to compute the state and the outcome that the semantics gives; what
    is proved of all runs of the semantics therefore holds of the interpreter. */
module RecipeEngine {
  import opened JsonTree
  import opened RecipeTemplate
  import opened RecipeCheck
  import opened RecipeRun

  class Engine {
    const env: Env
    const bs: array<Binding>
    var bsn: nat
    var steps: int
    var tls: int
    var recvBytes: int
    var trace: seq<Event>
    var findings: seq<Finding>
    var skipped: set<string>

    ghost predicate Valid()
      reads this
    {
      bs.Length == BINDINGS_MAX && bsn <= BINDINGS_MAX
    }

    function Table(): (r: seq<Binding>)
      requires Valid()
      reads this, bs
    {
      bs[..bsn]
    }

    function State(): (r: Rt)
      requires Valid()
      reads this, bs
    {
      Rt(Table(), steps, tls, recvBytes, trace, findings, skipped)
    }

    constructor (env: Env)
      ensures Valid() && fresh(bs) && this.env == env && State() == START
    {
      this.env := env;
      bs := new Binding[BINDINGS_MAX](_ => Binding("", Flag(false)));
      bsn, steps, tls, recvBytes := 0, 0, 0, 0;
      trace, findings, skipped := [], [], {};
    }

    // ----- the runtime table -----

    method LookUp(name: string) returns (i: nat)
      requires Valid()
      ensures i == IndexOf(Table(), name)
    {
      i := 0;
      while i < bsn && bs[i].name != name
        invariant i <= bsn && forall j | 0 <= j < i :: Table()[j].name != name
      {
        i := i + 1;
      }
    }

    method Find(name: string) returns (v: Option<Val>)
      requires Valid()
      ensures v == ValueOf(Table(), name)
    {
      var i := LookUp(name);
      v := if i < bsn then Some(bs[i].val) else None;
    }

    method FindConn(name: string) returns (r: Result<int>)
      requires Valid()
      ensures r == ConnOf(State(), name)
    {
      var v := Find(name);
      if v.None? {
        return Err(UnboundConn(name));
      }
      return if !v.value.Conn? then Err(WrongType(name)) else Ok(v.value.fd);
    }

    method Bind(name: string, v: Val) returns (o: Outcome)
      requires Valid()
      modifies `bsn, bs
      ensures Valid() && (State(), o) == BindNew(old(State()), name, v)
    {
      if bsn >= BINDINGS_MAX {
        return Failed(TableOverflow);
      }
      ghost var before := Table();
      bs[bsn] := Binding(name, v);
      bsn := bsn + 1;
      assert Table() == before + [Binding(name, v)];
      return Done;
    }

    method LogEvent(e: Event)
      requires Valid()
      modifies `trace
      ensures State() == Log(old(State()), e)
    {
      trace := trace + [e];
    }

    // ----- budgets -----

    method CountStep() returns (o: Outcome)
      requires Valid()
      modifies `steps
      ensures (State(), o) == BudgetStep(env, old(State()))
    {
      steps := steps + 1;
      if steps > env.budgets.maxSteps {
        return Failed(StepBudget);
      }
      if env.clock(steps) - env.clock(0) > env.budgets.maxWallclock {
        return Failed(TimeBudget);
      }
      return Done;
    }

    method CountTls() returns (o: Outcome)
      requires Valid()
      modifies `tls
      ensures (State(), o) == BudgetTls(env, old(State()))
    {
      tls := tls + 1;
      return if tls > env.budgets.maxTlsProbes then Failed(TlsBudget) else Done;
    }

    // ----- connections -----

    method Connect(s: Step) returns (o: Outcome)
      requires Valid() && s.Connect?
      modifies this, bs
      ensures Valid() && (State(), o) == DoConnect(env, old(State()), s)
    {
      var host := ExpandTemplate(s.host, Table(), env.target);
      if host.Err? {
        return Failed(host.why);
      }
      var port := ResolveInt(env, State(), s.port);
      if port.Err? {
        return Failed(port.why);
      }
      if port.value <= 0 || port.value > 65535 {
        return Failed(PortRange);
      }
      if !(if s.udp then env.io.hasUdp else env.io.hasTcp) {
        return Failed(NoCallback);
      }
      var fd := env.io.connect(trace, s.udp, host.value, port.value, s.timeout);
      LogEvent(Opened(s.udp, host.value, port.value, fd));
      if fd < 0 {
        return Failed(ConnectFailed);
      }
      o := Bind(s.out, Conn(fd));
    }

    method SendBytes(s: Step) returns (o: Outcome)
      requires Valid() && s.Send?
      modifies `trace
      ensures Valid() && (State(), o) == DoSend(env, old(State()), s)
    {
      var c := FindConn(s.conn);
      if c.Err? {
        return Failed(c.why);
      }
      var text: Result<string>;
      match s.payload {
        case Raw(bytes) => text := Ok(bytes);
        case Template(t) => text := ExpandTemplate(t, Table(), env.target);
      }
      if text.Err? {
        return Failed(text.why);
      }
      if !env.io.hasSend {
        return Failed(NoCallback);
      }
      var ok := env.io.send(trace, c.value, text.value);
      LogEvent(Sent(c.value, text.value, ok));
      return if ok then Done else Failed(SendFailed);
    }

    /** Reads until the stop condition, the end of the stream or a full buffer. */
    method Fill(fd: int, until: Until, cap: nat) returns (r: Result<string>)
      requires Valid()
      modifies `trace
      ensures Valid() && (State(), r) == RecvLoop(env, old(State()), fd, until, cap, "")
    {
      var got := "";
      while |got| < cap
        invariant |got| <= cap
        invariant RecvLoop(env, old(State()), fd, until, cap, "") == RecvLoop(env, State(), fd, until, cap, got)
      {
        var reply := RecvSome(env, State(), fd, cap - |got|);
        LogEvent(Received(fd, cap - |got|, reply));
        if reply.RecvError? {
          return Err(RecvFailed);
        }
        if reply.bytes == "" {
          break;
        }
        var stop := StopAt(until, got, reply.bytes);
        got := got + reply.bytes;
        if stop.Some? {
          return Ok(got[..stop.value]);
        }
      }
      return Ok(got);
    }

    method Receive(s: Step) returns (o: Outcome)
      requires Valid() && s.Recv?
      modifies this, bs
      ensures Valid() && (State(), o) == DoRecv(env, old(State()), s)
    {
      var c := FindConn(s.conn);
      if c.Err? {
        return Failed(c.why);
      }
      if s.maxBytes <= 0 || s.maxBytes > env.budgets.maxRecvBytes {
        return Failed(RecvRange);
      }
      if recvBytes + s.maxBytes > env.budgets.maxRecvBytes {
        return Failed(RecvBudget);
      }
      if !env.io.hasRecv {
        return Failed(NoCallback);
      }
      var got := Fill(c.value, s.until, s.maxBytes);
      if got.Err? {
        return Failed(got.why);
      }
      recvBytes := recvBytes + |got.value|;
      o := Bind(s.out, Bytes(got.value));
    }

    method CloseConn(s: Step) returns (o: Outcome)
      requires Valid() && s.Close?
      modifies this, bs
      ensures Valid() && (State(), o) == DoClose(env, old(State()), s)
    {
      var c := FindConn(s.conn);
      if c.Err? {
        return Failed(c.why);
      }
      if env.io.hasClose {
        LogEvent(Closed(c.value));
      }
      var i := LookUp(s.conn);
      ghost var before := Table();
      bs[i] := Binding(s.conn, Conn(-1));
      assert Table() == before[i := Binding(s.conn, Conn(-1))];
      return Done;
    }

    // ----- matching -----

    method SearchList(regex: string, items: seq<string>) returns (hit: Option<string>)
      ensures hit == FirstHit(env, regex, items)
    {
      var rest := items;
      while |rest| > 0
        invariant FirstHit(env, regex, items) == FirstHit(env, regex, rest)
        decreases |rest|
      {
        if env.regex.matches(regex, rest[0]) {
          return Some(rest[0]);
        }
        rest := rest[1..];
      }
      return None;
    }

    method MatchList(s: Step) returns (o: Outcome)
      requires Valid() && s.MatchAny?
      modifies `bsn, bs
      ensures Valid() && (State(), o) == DoMatchAny(env, old(State()), s)
    {
      var v := Find(s.list);
      if v.None? {
        return Failed(Unbound(s.list));
      }
      if !v.value.Strings? {
        return Failed(WrongType(s.list));
      }
      if !env.regex.compiles(s.regex) {
        return Failed(BadRegex);
      }
      var hit := SearchList(s.regex, v.value.items);
      if hit.Some? && s.hit.Some? {
        o := Bind(s.hit.value, Text(hit.value));
      } else {
        o := Done;
      }
    }

    method Capture(regex: string, hay: string, cs: seq<Capture>) returns (o: Outcome)
      requires Valid()
      modifies `bsn, bs
      ensures Valid() && (State(), o) == BindCaptures(env, old(State()), regex, hay, cs, 0)
    {
      var i := 0;
      while i < |cs|
        invariant i <= |cs| && Valid()
        invariant BindCaptures(env, old(State()), regex, hay, cs, 0)
               == BindCaptures(env, State(), regex, hay, cs, i)
      {
        var g := env.regex.group(regex, hay, i + 1);
        if g.Unset? {
          return Failed(UnsetCapture);
        }
        var text := SpanText(hay, g);
        var long := cs[i].isInt && |text| >= 32;
        o := Bind(cs[i].name,
                  if !cs[i].isInt then Text(text) else if long then Number(0) else Number(StrToLong(text).0));
        if o.Failed? {
          return;
        }
        if long {
          return Failed(CaptureTooLong);
        }
        i := i + 1;
      }
      return Done;
    }

    method MatchText(s: Step) returns (o: Outcome)
      requires Valid() && s.MatchIn?
      modifies `bsn, bs
      ensures Valid() && (State(), o) == DoMatchIn(env, old(State()), s)
    {
      var v := Find(s.input);
      if v.None? {
        return Failed(Unbound(s.input));
      }
      if !v.value.Bytes? && !v.value.Text? {
        return Failed(WrongType(s.input));
      }
      var hay := CString(if v.value.Bytes? then v.value.b else v.value.s);
      if !env.regex.compiles(s.regex) {
        return Failed(BadRegex);
      }
      if !env.regex.matches(s.regex, hay) {
        return Done;
      }
      o := Capture(s.regex, hay, s.captures);
    }

    // ----- emitting -----

    /** The evidence object, built in a buffer of fixed size. */
    method BuildEvidence(fs: seq<Field>) returns (r: Result<string>)
      requires Valid()
      ensures r == Evidence(env, State(), fs)
    {
      if |fs| == 0 {
        return Ok("");
      }
      var out, rest := "{", fs;
      while |rest| > 0
        invariant EvidenceFrom(env, State(), "{", fs) == EvidenceFrom(env, State(), out, rest)
        decreases |rest|
      {
        var head := out + FieldHead(out, rest[0].key);
        if |head| >= EVIDENCE_CAP {
          return Err(EvidenceOverflow);
        }
        var v := EvidenceValue(env, State(), rest[0]);
        if v.Err? {
          return v;
        }
        if |head| + |v.value| >= EVIDENCE_CAP {
          return Err(EvidenceOverflow);
        }
        out, rest := head + v.value, rest[1..];
      }
      return if |out| + 1 >= EVIDENCE_CAP then Err(EvidenceOverflow) else Ok(out + "}");
    }

    method EmitFinding(s: Step) returns (o: Outcome)
      requires Valid() && s.Emit?
      modifies `findings
      ensures Valid() && (State(), o) == DoEmit(env, old(State()), s)
    {
      var title := ExpandTemplate(s.title, Table(), env.target);
      if title.Err? {
        return Failed(title.why);
      }
      var ev := BuildEvidence(s.fields);
      if ev.Err? {
        return Failed(ev.why);
      }
      findings := findings + [Finding(s.kind, s.severity, s.confidence, title.value, ev.value)];
      return Done;
    }

    // ----- TLS -----

    method BindFacts(facts: seq<Binding>)
      requires Valid()
      modifies `bsn, bs
      ensures Valid() && State() == BindQuietly(old(State()), facts)
    {
      var rest := facts;
      while |rest| > 0
        invariant Valid() && BindQuietly(old(State()), facts) == BindQuietly(State(), rest)
        decreases |rest|
      {
        var _ := Bind(rest[0].name, rest[0].val);
        rest := rest[1..];
      }
    }

    method BindInfo(info: TlsInfo) returns (o: Outcome)
      requires Valid()
      modifies `bsn, bs
      ensures Valid() && (State(), o) == BindSession(old(State()), info)
    {
      var facts := TlsBindings(info);
      o := Bind(facts[0].name, facts[0].val);
      if o.Failed? {
        return;
      }
      o := Bind(facts[1].name, facts[1].val);
      if o.Failed? {
        return;
      }
      BindFacts(facts[2..]);
    }

    method Upgrade(s: Step) returns (o: Outcome)
      requires Valid() && s.TlsUpgrade?
      modifies this, bs
      ensures Valid() && (State(), o) == DoTlsUpgrade(env, old(State()), s)
    {
      var c := FindConn(s.conn);
      if c.Err? {
        return Failed(c.why);
      }
      if !env.io.hasTls {
        return Failed(NoCallback);
      }
      o := CountTls();
      if o.Failed? {
        return;
      }
      var sni := ExpandTemplate(s.sni, Table(), env.target);
      if sni.Err? {
        return Failed(sni.why);
      }
      var ok := env.io.upgrade(trace, c.value, sni.value, s.alpn, s.timeout);
      LogEvent(Upgraded(c.value, sni.value, s.alpn, ok));
      if !ok {
        return Done;
      }
      var info := env.io.session(trace, c.value);
      LogEvent(Session(c.value, info));
      if info.None? {
        return Failed(SessionFailed);
      }
      o := BindInfo(info.value);
    }

    /** Peels one protocol with a growing exclusion list. */
    method PeelOne(q: Probe, acc: Peeled) returns (r: Peeled, o: Outcome)
      requires Valid()
      modifies `tls, `trace
      ensures Valid() && (State(), r, o) == Peel(env, old(State()), q, "", false, acc)
    {
      r := acc;
      var next, last, added := q, "", false;
      while true
        invariant Peel(env, old(State()), q, "", false, acc) == Peel(env, State(), next, last, added, r)
        decreases env.budgets.maxTlsProbes - tls
      {
        o := CountTls();
        if o.Failed? {
          return;
        }
        var reply := env.io.probe(trace, next);
        LogEvent(Probed(next, reply));
        if !reply.Negotiated? || reply.cipher == "" || reply.cipher == last {
          return r, Done;
        }
        var room := |r.protos| < PROTOS_MAX;
        r := Collected(r, next.proto, reply.cipher, added);
        added := added || room;
        last := Cut(reply.cipher, 128);
        next := Excluding(next, reply.cipher);
      }
    }

    method PeelProtocols(q: Probe, protos: seq<string>) returns (acc: Peeled, o: Outcome)
      requires Valid()
      modifies `tls, `trace
      ensures Valid() && (State(), acc, o) == PeelAll(env, old(State()), q, protos, Peeled([], []))
    {
      acc := Peeled([], []);
      var rest := protos;
      while |rest| > 0
        invariant PeelAll(env, old(State()), q, protos, Peeled([], [])) == PeelAll(env, State(), q, rest, acc)
        decreases |rest|
      {
        acc, o := PeelOne(q.(proto := rest[0], ciphers := EXCLUDE_BASE), acc);
        if o.Failed? {
          return;
        }
        rest := rest[1..];
      }
      return acc, Done;
    }

    method Enumerate(s: Step) returns (o: Outcome)
      requires Valid() && s.TlsEnum?
      modifies this, bs
      ensures Valid() && (State(), o) == DoTlsEnum(env, old(State()), s)
    {
      if !env.io.hasProbe {
        return Failed(NoCallback);
      }
      var host := ExpandTemplate(s.host, Table(), env.target);
      if host.Err? {
        return Failed(host.why);
      }
      var port := ResolveInt(env, State(), s.port);
      if port.Err? {
        return Failed(port.why);
      }
      var acc: Peeled;
      acc, o := PeelProtocols(Probe(host.value, AsInt32(port.value), "", "", s.starttls, s.timeout),
                              if |s.protocols| == 0 then DEFAULT_PROTOS else s.protocols);
      if o.Failed? {
        return;
      }
      o := Bind(ENUM_LISTS[0].name, Strings(acc.protos));
      if o.Failed? {
        return;
      }
      o := Bind(ENUM_LISTS[1].name, Strings(acc.ciphers));
    }

    // ----- conditions and programs -----

    method AnyIn(items: seq<string>, members: seq<string>) returns (found: bool)
      ensures found == exists x | x in items :: x in members
    {
      for i := 0 to |items|
        invariant forall x | x in items[..i] :: x !in members
      {
        for j := 0 to |members|
          invariant items[i] !in members[..j]
        {
          if items[i] == members[j] {
            assert items[i] in items && items[i] in members;
            return true;
          }
        }
      }
      return false;
    }

    method Decide(c: Cond) returns (r: Result<bool>)
      requires Valid()
      ensures r == Taken(env, State(), c)
    {
      match c
      case Exists(b) =>
        var v := Find(b);
        return Ok(v.Some?);
      case Equals(b, literal) =>
        var v := Find(b);
        return Ok(v.Some? && CondText(v.value) == literal);
      case Matches(b, regex) =>
        var v := Find(b);
        if v.None? {
          return Ok(false);
        }
        return if !env.regex.compiles(regex) then Err(BadRegex) else Ok(env.regex.matches(regex, CondHay(v.value)));
      case AnyMatches(list, regex) =>
        var v := Find(list);
        if v.None? || !v.value.Strings? {
          return Ok(false);
        }
        if !env.regex.compiles(regex) {
          return Err(BadRegex);
        }
        var hit := SearchList(regex, v.value.items);
        return Ok(hit.Some?);
      case AnyIn(list, members) =>
        var v := Find(list);
        if v.None? || !v.value.Strings? {
          return Ok(false);
        }
        var found := AnyIn(v.value.items, members);
        return Ok(found);
    }

    method Plain(s: Step) returns (o: Outcome)
      requires Valid() && !s.If?
      modifies this, bs
      ensures Valid() && (State(), o) == DoPlain(env, old(State()), s)
    {
      match s
      case Connect(_, _, _, _, _) => o := Connect(s);
      case Send(_, _) => o := SendBytes(s);
      case Recv(_, _, _, _) => o := Receive(s);
      case Close(_) => o := CloseConn(s);
      case MatchAny(_, _, _) => o := MatchList(s);
      case MatchIn(_, _, _) => o := MatchText(s);
      case Emit(_, _, _, _, _) => o := EmitFinding(s);
      case TlsUpgrade(_, _, _, _) => o := Upgrade(s);
      case TlsEnum(_, _, _, _, _) => o := Enumerate(s);
    }

    method RunSteps(ss: seq<Step>) returns (o: Outcome)
      requires Valid()
      modifies this, bs
      ensures Valid() && (State(), o) == DoSteps(env, old(State()), ss)
      decreases ss
    {
      var rest := ss;
      while |rest| > 0
        invariant Valid() && DoSteps(env, old(State()), ss) == DoSteps(env, State(), rest)
        invariant |rest| <= |ss| && rest == ss[|ss| - |rest|..]
        decreases |rest|
      {
        o := CountStep();
        if o.Failed? {
          return;
        }
        if rest[0].If? {
          assert rest[0] == ss[|ss| - |rest|];
          var taken := Decide(rest[0].cond);
          if taken.Err? {
            return Failed(taken.why);
          }
          if taken.value {
            o := RunSteps(rest[0].body);
          } else {
            skipped := skipped + Names(DeclaresAll(rest[0].body));
          }
        } else {
          o := Plain(rest[0]);
        }
        if o.Failed? {
          return;
        }
        rest := rest[1..];
      }
      return Done;
    }

    /** Closes what the steps left open. */
    method CloseOpen()
      requires Valid()
      modifies `trace
      ensures Valid() && State() == old(State()).(trace := CloseAll(old(trace), old(Table())))
    {
      var i := 0;
      while i < bsn
        invariant i <= bsn
        invariant CloseAll(old(trace), Table()) == CloseAll(trace, Table()[i..])
        invariant State() == old(State()).(trace := trace)
      {
        assert Table()[i..][0] == bs[i] && Table()[i..][1..] == Table()[i + 1..];
        if bs[i].val.Conn? && bs[i].val.fd >= 0 {
          trace := trace + [Closed(bs[i].val.fd)];
        }
        i := i + 1;
      }
    }

    /** A whole run on a new engine computes the run of the semantics. */
    method Execute(ss: seq<Step>) returns (o: Outcome)
      requires Valid() && State() == START
      modifies this, bs
      ensures Valid() && (State(), o) == Run(env, ss)
    {
      o := RunSteps(ss);
      if env.io.hasClose {
        CloseOpen();
      }
    }
  }
}
