/** What running a recipe means: a big-step semantics over an arbitrary backend.

    The backend, the regular expressions and the clock are unknown functions; the backend's
    answers may depend on everything that happened before. Every call to the backend is logged
    as an event. A run either completes or stops for a reason. */
module RecipeRun {
  import opened JsonTree
  import opened RecipeTemplate
  import opened RecipeCheck

  const EVIDENCE_CAP: nat := 8192
  const PROTOS_MAX: nat := 16
  const CIPHERS_MAX: nat := 256
  const EXCLUDE_CAP: nat := 2048
  const LLONG_MAX: int := 0x7fff_ffff_ffff_ffff

  datatype Budgets = Budgets(maxSteps: int, maxRecvBytes: int, maxWallclock: int, maxTlsProbes: int)

  datatype RecvReply = RecvError | Data(bytes: string)

  datatype TlsInfo = TlsInfo(
    version: string, cipher: string, ja4: string, ja4s: string, ja4x: string, subject: string, issuer: string,
    notAfter: string, sigAlg: string, keyType: string, san: string, selfSigned: bool, daysToExpiry: int, keyBits: int)

  datatype ProbeReply = SetupFailed | Refused | Negotiated(cipher: string)

  datatype Probe = Probe(host: string, port: int, proto: string, ciphers: string, starttls: Option<string>,
    timeout: int)

  datatype Event =
    | Opened(udp: bool, host: string, port: int, fd: int)
    | Sent(fd: int, bytes: string, ok: bool)
    | Received(fd: int, room: nat, got: RecvReply)
    | Closed(fd: int)
    | Upgraded(fd: int, sni: string, alpn: seq<string>, ok: bool)
    | Session(fd: int, info: Option<TlsInfo>)
    | Probed(probe: Probe, reply: ProbeReply)

  datatype Io = Io(
    hasTcp: bool, hasUdp: bool, hasSend: bool, hasRecv: bool, hasClose: bool, hasTls: bool, hasProbe: bool,
    connect: (seq<Event>, bool, string, int, int) -> int,
    send: (seq<Event>, int, string) -> bool,
    recv: (seq<Event>, int, nat) -> RecvReply,
    upgrade: (seq<Event>, int, string, seq<string>, int) -> bool,
    session: (seq<Event>, int) -> Option<TlsInfo>,
    probe: (seq<Event>, Probe) -> ProbeReply)

  datatype Group = Unset | Span(lo: nat, hi: nat)

  /** POSIX regular expressions: whether a pattern compiles, whether it matches, and its groups. */
  datatype Regex = Regex(
    compiles: string -> bool,
    matches: (string, string) -> bool,
    group: (string, string, nat) -> Group)

  datatype Env = Env(budgets: Budgets, target: Target, io: Io, regex: Regex, clock: int -> int)

  datatype Finding = Finding(kind: string, severity: string, confidence: string, title: string, evidence: string)

  /** The state of a run. `skipped` collects the names declared in branches not taken. */
  datatype Rt = Rt(
    bs: seq<Binding>, steps: int, tls: int, recvBytes: int,
    trace: seq<Event>, findings: seq<Finding>, skipped: set<string>)

  datatype Outcome = Done | Failed(why: Reason)

  // ----- bindings and budgets -----

  function BindNew(rt: Rt, name: string, v: Val): (r: (Rt, Outcome)) {
    if |rt.bs| >= BINDINGS_MAX then (rt, Failed(TableOverflow))
    else (rt.(bs := rt.bs + [Binding(name, v)]), Done)
  }

  /** Bindings whose failure is ignored. */
  function BindQuietly(rt: Rt, news: seq<Binding>): (r: Rt)
    decreases |news|
  {
    if |news| == 0 then rt else BindQuietly(BindNew(rt, news[0].name, news[0].val).0, news[1..])
  }

  function BudgetStep(env: Env, rt: Rt): (r: (Rt, Outcome)) {
    var n := rt.steps + 1;
    (rt.(steps := n),
     if n > env.budgets.maxSteps then Failed(StepBudget)
     else if env.clock(n) - env.clock(0) > env.budgets.maxWallclock then Failed(TimeBudget)
     else Done)
  }

  function BudgetTls(env: Env, rt: Rt): (r: (Rt, Outcome)) {
    (rt.(tls := rt.tls + 1), if rt.tls + 1 > env.budgets.maxTlsProbes then Failed(TlsBudget) else Done)
  }

  function Log(rt: Rt, e: Event): (r: Rt) {
    rt.(trace := rt.trace + [e])
  }

  // ----- reading integers and booleans -----

  predicate IsSpace(c: char) {
    c == ' ' || 9 as char <= c <= 13 as char
  }

  function SkipSpaces(s: string): (r: string) {
    if s != "" && IsSpace(s[0]) then SkipSpaces(s[1..]) else s
  }

  function DigitCount(s: string): (n: nat)
    ensures n <= |s| && forall i | 0 <= i < n :: '0' <= s[i] <= '9'
  {
    if s != "" && '0' <= s[0] <= '9' then 1 + DigitCount(s[1..]) else 0
  }

  function DecimalValue(s: string): (v: nat)
    requires forall i | 0 <= i < |s| :: '0' <= s[i] <= '9'
  {
    if s == "" then 0 else 10 * DecimalValue(s[..|s| - 1]) + (s[|s| - 1] as int - '0' as int)
  }

  function Saturate(neg: bool, v: nat): (r: int) {
    if neg then (if v > LLONG_MAX + 1 then -LLONG_MAX - 1 else -(v as int)) else if v > LLONG_MAX then LLONG_MAX else v
  }

  /** `strtoll` in base ten: the value and the unread rest. */
  function StrToLong(s: string): (r: (int, string)) {
    var t := SkipSpaces(s);
    var signed := t != "" && (t[0] == '-' || t[0] == '+');
    var ds := if signed then t[1..] else t;
    var n := DigitCount(ds);
    if n == 0 then (0, s) else (Saturate(signed && t[0] == '-', DecimalValue(ds[..n])), ds[n..])
  }

  function WholeLong(s: string): (r: Result<int>) {
    var (v, rest) := StrToLong(s);
    if rest == "" then Ok(v) else Err(NotAnInteger)
  }

  /** An integer reference: a literal, one integer binding, or a template that expands to one. */
  function ResolveInt(env: Env, rt: Rt, text: string): (r: Result<int>) {
    if '$' !in text then WholeLong(text)
    else if text[0] == '$' && text[1..] == PORT then Ok(env.target.port)
    else if text[0] == '$' && ValueOf(rt.bs, text[1..]).Some? && ValueOf(rt.bs, text[1..]).value.Number? then
      Ok(ValueOf(rt.bs, text[1..]).value.n)
    else
      var s := Expand(text, rt.bs, env.target);
      if s.Err? then Err(s.why) else WholeLong(s.value)
  }

  function ResolveBool(env: Env, rt: Rt, text: string): (r: Result<bool>) {
    var s := Expand(text, rt.bs, env.target);
    if s.Err? then Err(s.why)
    else if s.value == "true" then Ok(true)
    else if s.value == "false" then Ok(false)
    else Err(NotABoolean)
  }

  // ----- connections -----

  /** The handle of a connection binding. */
  function ConnOf(rt: Rt, name: string): (r: Result<int>) {
    var v := ValueOf(rt.bs, name);
    if v.None? then Err(UnboundConn(name)) else if !v.value.Conn? then Err(WrongType(name)) else Ok(v.value.fd)
  }

  function DoConnect(env: Env, rt: Rt, s: Step): (r: (Rt, Outcome))
    requires s.Connect?
  {
    var host := Expand(s.host, rt.bs, env.target);
    if host.Err? then (rt, Failed(host.why))
    else
      var port := ResolveInt(env, rt, s.port);
      if port.Err? then (rt, Failed(port.why))
      else if port.value <= 0 || port.value > 65535 then (rt, Failed(PortRange))
      else if !(if s.udp then env.io.hasUdp else env.io.hasTcp) then (rt, Failed(NoCallback))
      else
        var fd := env.io.connect(rt.trace, s.udp, host.value, port.value, s.timeout);
        var rt1 := Log(rt, Opened(s.udp, host.value, port.value, fd));
        if fd < 0 then (rt1, Failed(ConnectFailed)) else BindNew(rt1, s.out, Conn(fd))
  }

  function PayloadText(env: Env, rt: Rt, p: Payload): (r: Result<string>) {
    match p
    case Raw(bytes) => Ok(bytes)
    case Template(text) => Expand(text, rt.bs, env.target)
  }

  function DoSend(env: Env, rt: Rt, s: Step): (r: (Rt, Outcome))
    requires s.Send?
  {
    var c := ConnOf(rt, s.conn);
    if c.Err? then (rt, Failed(c.why))
    else
      var p := PayloadText(env, rt, s.payload);
      if p.Err? then (rt, Failed(p.why))
      else if !env.io.hasSend then (rt, Failed(NoCallback))
      else
        var ok := env.io.send(rt.trace, c.value, p.value);
        (Log(rt, Sent(c.value, p.value, ok)), if ok then Done else Failed(SendFailed))
  }

  /** One read of at most `room` bytes; a backend gives no more than it is asked for. */
  function RecvSome(env: Env, rt: Rt, fd: int, room: nat): (r: RecvReply)
    ensures r.Data? ==> |r.bytes| <= room
  {
    var reply := env.io.recv(rt.trace, fd, room);
    if reply.Data? && |reply.bytes| > room then Data(reply.bytes[..room]) else reply
  }

  function IndexOfNewline(s: string): (i: nat)
    ensures i <= |s| && (i < |s| ==> s[i] == '\n') && forall j | 0 <= j < i :: s[j] != '\n'
  {
    if s == "" || s[0] == '\n' then 0 else 1 + IndexOfNewline(s[1..])
  }

  /** How much of the buffer is kept if reading stops after a chunk, by the stop condition. */
  function StopAt(until: Until, got: string, chunk: string): (r: Option<nat>)
    ensures r.Some? ==> r.value <= |got + chunk|
  {
    match until
    case Newline =>
      var i := IndexOfNewline(chunk);
      if i < |chunk| then Some(|got| + i + 1) else None
    case NBytes(n) => if 0 <= n <= |got + chunk| then Some(n) else None
    case UntilRegex => None
  }

  /** The reading loop: the state after it and the bytes kept. */
  function RecvLoop(env: Env, rt: Rt, fd: int, until: Until, cap: nat, got: string): (r: (Rt, Result<string>))
    requires |got| <= cap
    ensures r.1.Ok? ==> |r.1.value| <= cap
    decreases cap - |got|
  {
    if |got| == cap then (rt, Ok(got))
    else
      var reply := RecvSome(env, rt, fd, cap - |got|);
      var rt1 := Log(rt, Received(fd, cap - |got|, reply));
      if reply.RecvError? then (rt1, Err(RecvFailed))
      else if reply.bytes == "" then (rt1, Ok(got))
      else
        var stop := StopAt(until, got, reply.bytes);
        if stop.Some? then (rt1, Ok((got + reply.bytes)[..stop.value]))
        else RecvLoop(env, rt1, fd, until, cap, got + reply.bytes)
  }

  function DoRecv(env: Env, rt: Rt, s: Step): (r: (Rt, Outcome))
    requires s.Recv?
  {
    var c := ConnOf(rt, s.conn);
    if c.Err? then (rt, Failed(c.why))
    else if s.maxBytes <= 0 || s.maxBytes > env.budgets.maxRecvBytes then (rt, Failed(RecvRange))
    else if rt.recvBytes + s.maxBytes > env.budgets.maxRecvBytes then (rt, Failed(RecvBudget))
    else if !env.io.hasRecv then (rt, Failed(NoCallback))
    else
      var (rt1, got) := RecvLoop(env, rt, c.value, s.until, s.maxBytes, "");
      if got.Err? then (rt1, Failed(got.why))
      else BindNew(rt1.(recvBytes := rt1.recvBytes + |got.value|), s.out, Bytes(got.value))
  }

  function DoClose(env: Env, rt: Rt, s: Step): (r: (Rt, Outcome))
    requires s.Close?
  {
    var c := ConnOf(rt, s.conn);
    if c.Err? then (rt, Failed(c.why))
    else
      var rt1 := if env.io.hasClose then Log(rt, Closed(c.value)) else rt;
      var i := IndexOf(rt.bs, s.conn);
      (rt1.(bs := rt.bs[i := Binding(s.conn, Conn(-1))]), Done)
  }

  // ----- matching -----

  function FirstHit(env: Env, regex: string, items: seq<string>): (r: Option<string>) {
    if |items| == 0 then None
    else if env.regex.matches(regex, items[0]) then Some(items[0])
    else FirstHit(env, regex, items[1..])
  }

  function DoMatchAny(env: Env, rt: Rt, s: Step): (r: (Rt, Outcome))
    requires s.MatchAny?
  {
    var v := ValueOf(rt.bs, s.list);
    if v.None? then (rt, Failed(Unbound(s.list)))
    else if !v.value.Strings? then (rt, Failed(WrongType(s.list)))
    else if !env.regex.compiles(s.regex) then (rt, Failed(BadRegex))
    else
      var hit := FirstHit(env, s.regex, v.value.items);
      if hit.Some? && s.hit.Some? then BindNew(rt, s.hit.value, Text(hit.value)) else (rt, Done)
  }

  function SpanText(hay: string, g: Group): (r: string)
    requires g.Span?
  {
    if g.lo <= g.hi <= |hay| then hay[g.lo..g.hi] else ""
  }

  /** Binds the captures in order. An integer capture that is too long stops the run after its
      name is bound. */
  function BindCaptures(env: Env, rt: Rt, regex: string, hay: string, cs: seq<Capture>, i: nat): (r: (Rt, Outcome))
    requires i <= |cs|
    decreases |cs| - i
  {
    if i == |cs| then (rt, Done)
    else
      var g := env.regex.group(regex, hay, i + 1);
      if g.Unset? then (rt, Failed(UnsetCapture))
      else
        var text := SpanText(hay, g);
        var v := if !cs[i].isInt then Text(text) else if |text| >= 32 then Number(0) else Number(StrToLong(text).0);
        var (rt1, o) := BindNew(rt, cs[i].name, v);
        if o.Failed? then (rt1, o)
        else if cs[i].isInt && |text| >= 32 then (rt1, Failed(CaptureTooLong))
        else BindCaptures(env, rt1, regex, hay, cs, i + 1)
  }

  function DoMatchIn(env: Env, rt: Rt, s: Step): (r: (Rt, Outcome))
    requires s.MatchIn?
  {
    var v := ValueOf(rt.bs, s.input);
    if v.None? then (rt, Failed(Unbound(s.input)))
    else if !v.value.Bytes? && !v.value.Text? then (rt, Failed(WrongType(s.input)))
    else
      var hay := CString(if v.value.Bytes? then v.value.b else v.value.s);
      if !env.regex.compiles(s.regex) then (rt, Failed(BadRegex))
      else if !env.regex.matches(s.regex, hay) then (rt, Done)
      else BindCaptures(env, rt, s.regex, hay, s.captures, 0)
  }

  // ----- emitting -----

  function EvidenceValue(env: Env, rt: Rt, f: Field): (r: Result<string>) {
    match f.as_
    case TInt =>
      var n := ResolveInt(env, rt, f.value);
      if n.Err? then Err(n.why) else Ok(Decimal(n.value))
    case TBool =>
      var b := ResolveBool(env, rt, f.value);
      if b.Err? then Err(b.why) else Ok(if b.value then "true" else "false")
    case _ =>
      var s := Expand(f.value, rt.bs, env.target);
      if s.Err? then s else Ok(EngineQuote(s.value))
  }

  /** The engine's own string escaping, with `\b` and `\f`. */
  function EngineEscape(s: string): (r: string) {
    if s == "" then ""
    else
      (if s[0] == 8 as char then "\\b" else if s[0] == 12 as char then "\\f" else EscapeChar(s[0])) +
      EngineEscape(s[1..])
  }

  function EngineQuote(s: string): (r: string) {
    "\"" + EngineEscape(s) + "\""
  }

  /** The evidence of a list of fields, appended to what is already in the fixed buffer. */
  function EvidenceFrom(env: Env, rt: Rt, out: string, fs: seq<Field>): (r: Result<string>)
    decreases |fs|
  {
    if |fs| == 0 then (if |out| + 1 >= EVIDENCE_CAP then Err(EvidenceOverflow) else Ok(out + "}"))
    else
      var head := out + FieldHead(out, fs[0].key);
      if |head| >= EVIDENCE_CAP then Err(EvidenceOverflow)
      else
        var v := EvidenceValue(env, rt, fs[0]);
        if v.Err? then v
        else if |head| + |v.value| >= EVIDENCE_CAP then Err(EvidenceOverflow)
        else EvidenceFrom(env, rt, head + v.value, fs[1..])
  }

  function FieldHead(out: string, key: string): (r: string) {
    (if out == "{" then "" else ",") + EngineQuote(key) + ":"
  }

  function Evidence(env: Env, rt: Rt, fs: seq<Field>): (r: Result<string>) {
    if |fs| == 0 then Ok("") else EvidenceFrom(env, rt, "{", fs)
  }

  // What the buffer is meant to hold: the fields, separated by commas.

  function FieldTexts(env: Env, rt: Rt, out: string, fs: seq<Field>): (r: Result<string>)
    decreases |fs|
  {
    if |fs| == 0 then Ok(out)
    else
      var v := EvidenceValue(env, rt, fs[0]);
      if v.Err? then v else FieldTexts(env, rt, out + FieldHead(out, fs[0].key) + v.value, fs[1..])
  }

  lemma {:induction false} FieldTextsGrow(env: Env, rt: Rt, out: string, fs: seq<Field>)
    ensures FieldTexts(env, rt, out, fs).Ok? ==> |FieldTexts(env, rt, out, fs).value| >= |out|
    decreases |fs|
  {
    if |fs| > 0 {
      var v := EvidenceValue(env, rt, fs[0]);
      if v.Ok? {
        FieldTextsGrow(env, rt, out + FieldHead(out, fs[0].key) + v.value, fs[1..]);
      }
    }
  }

  /** The bounded buffer holds the whole object or nothing: evidence is built exactly when every
      value has a text and the object fits. */
  lemma {:induction false} EvidenceExact(env: Env, rt: Rt, out: string, fs: seq<Field>)
    ensures var full := FieldTexts(env, rt, out, fs);
            EvidenceFrom(env, rt, out, fs).Ok? <==> full.Ok? && |full.value| + 1 < EVIDENCE_CAP
    ensures EvidenceFrom(env, rt, out, fs).Ok? ==>
              EvidenceFrom(env, rt, out, fs).value == FieldTexts(env, rt, out, fs).value + "}"
    decreases |fs|
  {
    if |fs| > 0 {
      var v := EvidenceValue(env, rt, fs[0]);
      if v.Ok? {
        var next := out + FieldHead(out, fs[0].key) + v.value;
        FieldTextsGrow(env, rt, next, fs[1..]);
        EvidenceExact(env, rt, next, fs[1..]);
      }
    }
  }

  function DoEmit(env: Env, rt: Rt, s: Step): (r: (Rt, Outcome))
    requires s.Emit?
  {
    var title := Expand(s.title, rt.bs, env.target);
    if title.Err? then (rt, Failed(title.why))
    else
      var ev := Evidence(env, rt, s.fields);
      if ev.Err? then (rt, Failed(ev.why))
      else (rt.(findings := rt.findings + [Finding(s.kind, s.severity, s.confidence, title.value, ev.value)]), Done)
  }

  // ----- TLS -----

  function FactValue(t: TlsInfo, i: nat): (v: Val) {
    match i
    case 0 => Text(CString(t.version))
    case 1 => Text(CString(t.cipher))
    case 2 => Text(CString(t.ja4))
    case 3 => Text(CString(t.ja4s))
    case 4 => Text(CString(t.ja4x))
    case 5 => Text(CString(t.subject))
    case 6 => Text(CString(t.issuer))
    case 7 => Text(CString(t.notAfter))
    case 8 => Text(CString(t.sigAlg))
    case 9 => Text(CString(t.keyType))
    case 10 => Text(CString(t.san))
    case 11 => Text(if t.selfSigned then "1" else "0")
    case 12 => Number(t.daysToExpiry)
    case _ => Number(t.keyBits)
  }

  function TlsBindings(t: TlsInfo): (bs: seq<Binding>)
    ensures |bs| == TLS_FACTS && forall i | 0 <= i < TLS_FACTS :: bs[i] == Binding(FactName(i), FactValue(t, i))
  {
    seq(TLS_FACTS, i requires 0 <= i < TLS_FACTS => Binding(FactName(i), FactValue(t, i)))
  }

  function BindSession(rt: Rt, i: TlsInfo): (r: (Rt, Outcome)) {
    var bs := TlsBindings(i);
    var (rt1, o1) := BindNew(rt, bs[0].name, bs[0].val);
    if o1.Failed? then (rt1, o1)
    else
      var (rt2, o2) := BindNew(rt1, bs[1].name, bs[1].val);
      if o2.Failed? then (rt2, o2) else (BindQuietly(rt2, bs[2..]), Done)
  }

  /** Reads the facts of an upgraded session and binds them. */
  function SurfaceSession(env: Env, rt: Rt, fd: int): (r: (Rt, Outcome)) {
    var info := env.io.session(rt.trace, fd);
    var rt1 := Log(rt, Session(fd, info));
    if info.None? then (rt1, Failed(SessionFailed)) else BindSession(rt1, info.value)
  }

  function DoTlsUpgrade(env: Env, rt: Rt, s: Step): (r: (Rt, Outcome))
    requires s.TlsUpgrade?
  {
    var c := ConnOf(rt, s.conn);
    if c.Err? then (rt, Failed(c.why))
    else if !env.io.hasTls then (rt, Failed(NoCallback))
    else
      var (rt1, o) := BudgetTls(env, rt);
      if o.Failed? then (rt1, o)
      else
        var sni := Expand(s.sni, rt1.bs, env.target);
        if sni.Err? then (rt1, Failed(sni.why))
        else
          var ok := env.io.upgrade(rt1.trace, c.value, sni.value, s.alpn, s.timeout);
          var rt2 := Log(rt1, Upgraded(c.value, sni.value, s.alpn, ok));
          if ok then SurfaceSession(env, rt2, c.value) else (rt2, Done)
  }

  const DEFAULT_PROTOS: seq<string> := ["SSLv3", "TLS1.0", "TLS1.1", "TLS1.2", "TLS1.3"]
  const EXCLUDE_BASE: string := "ALL:COMPLEMENTOFALL:@SECLEVEL=0"

  function Cut(s: string, cap: nat): (r: string)
    requires cap > 0
    ensures |r| < cap
  {
    if |s| < cap then s else s[..cap - 1]
  }

  /** What peeling has collected so far. */
  datatype Peeled = Peeled(protos: seq<string>, ciphers: seq<string>)

  /** The next probe: the cipher just negotiated is excluded. */
  function Excluding(q: Probe, cipher: string): (r: Probe) {
    q.(ciphers := Cut(q.ciphers + ":!" + cipher, EXCLUDE_CAP))
  }

  /** One more cipher, and its protocol when it is the first one, if there is room. */
  function Collected(acc: Peeled, proto: string, cipher: string, added: bool): (r: Peeled) {
    Peeled(if !added && |acc.protos| < PROTOS_MAX then acc.protos + [proto] else acc.protos,
           if |acc.ciphers| < CIPHERS_MAX then acc.ciphers + [Cut(proto + ":" + cipher, 200)] else acc.ciphers)
  }

  /** Peeling one protocol: handshakes with a growing exclusion list, until the server refuses,
      repeats itself or the handshake budget runs out. */
  function Peel(env: Env, rt: Rt, q: Probe, last: string, added: bool, acc: Peeled): (r: (Rt, Peeled, Outcome))
    decreases env.budgets.maxTlsProbes - rt.tls
  {
    var (rt1, o) := BudgetTls(env, rt);
    if o.Failed? then (rt1, acc, o)
    else
      var reply := env.io.probe(rt1.trace, q);
      var rt2 := Log(rt1, Probed(q, reply));
      if !reply.Negotiated? || reply.cipher == "" || reply.cipher == last then (rt2, acc, Done)
      else
        Peel(env, rt2, Excluding(q, reply.cipher), Cut(reply.cipher, 128),
             added || |acc.protos| < PROTOS_MAX, Collected(acc, q.proto, reply.cipher, added))
  }

  function PeelAll(env: Env, rt: Rt, q: Probe, protos: seq<string>, acc: Peeled): (r: (Rt, Peeled, Outcome))
    decreases |protos|
  {
    if |protos| == 0 then (rt, acc, Done)
    else
      var (rt1, acc1, o) := Peel(env, rt, q.(proto := protos[0], ciphers := EXCLUDE_BASE), "", false, acc);
      if o.Failed? then (rt1, acc1, o) else PeelAll(env, rt1, q, protos[1..], acc1)
  }

  /** A 64-bit integer passed as a 32-bit one. */
  function AsInt32(n: int): (i: int)
    ensures -0x8000_0000 <= i < 0x8000_0000 && (-0x8000_0000 <= n < 0x8000_0000 ==> i == n)
  {
    (n + 0x8000_0000) % 0x1_0000_0000 - 0x8000_0000
  }

  /** The server an enumeration is about; the port is not checked, only narrowed. */
  function EnumProbe(env: Env, rt: Rt, s: Step): (q: Probe)
    requires s.TlsEnum? && Expand(s.host, rt.bs, env.target).Ok? && ResolveInt(env, rt, s.port).Ok?
  {
    Probe(Expand(s.host, rt.bs, env.target).value, AsInt32(ResolveInt(env, rt, s.port).value), "", "", s.starttls,
          s.timeout)
  }

  function DoTlsEnum(env: Env, rt: Rt, s: Step): (r: (Rt, Outcome))
    requires s.TlsEnum?
  {
    if !env.io.hasProbe then (rt, Failed(NoCallback))
    else
      var host := Expand(s.host, rt.bs, env.target);
      if host.Err? then (rt, Failed(host.why))
      else
        var port := ResolveInt(env, rt, s.port);
        if port.Err? then (rt, Failed(port.why))
        else
          var protos := if |s.protocols| == 0 then DEFAULT_PROTOS else s.protocols;
          var (rt1, acc, o) := PeelAll(env, rt, EnumProbe(env, rt, s), protos, Peeled([], []));
          if o.Failed? then (rt1, o)
          else
            var (rt2, o2) := BindNew(rt1, ENUM_LISTS[0].name, Strings(acc.protos));
            if o2.Failed? then (rt2, o2) else BindNew(rt2, ENUM_LISTS[1].name, Strings(acc.ciphers))
  }

  // ----- conditions and programs -----

  function CondText(v: Val): (r: string) {
    match v
    case Text(s) => CString(s)
    case Bytes(b) => CString(b)
    case Number(n) => Decimal(n)
    case _ => ""
  }

  function CondHay(v: Val): (r: string) {
    match v
    case Text(s) => CString(s)
    case Bytes(b) => CString(b)
    case _ => ""
  }

  /** Whether the branch is taken. */
  function Taken(env: Env, rt: Rt, c: Cond): (r: Result<bool>) {
    match c
    case Exists(b) => Ok(ValueOf(rt.bs, b).Some?)
    case Equals(b, literal) => Ok(ValueOf(rt.bs, b).Some? && CondText(ValueOf(rt.bs, b).value) == literal)
    case Matches(b, regex) =>
      if ValueOf(rt.bs, b).None? then Ok(false)
      else if !env.regex.compiles(regex) then Err(BadRegex)
      else Ok(env.regex.matches(regex, CondHay(ValueOf(rt.bs, b).value)))
    case AnyMatches(list, regex) =>
      var v := ValueOf(rt.bs, list);
      if v.None? || !v.value.Strings? then Ok(false)
      else if !env.regex.compiles(regex) then Err(BadRegex)
      else Ok(FirstHit(env, regex, v.value.items).Some?)
    case AnyIn(list, members) =>
      var v := ValueOf(rt.bs, list);
      Ok(v.Some? && v.value.Strings? && exists x | x in v.value.items :: x in members)
  }

  function Names(es: seq<Entry>): (r: set<string>) {
    set i | 0 <= i < |es| :: es[i].name
  }

  /** One step other than a condition. */
  function DoPlain(env: Env, rt: Rt, s: Step): (r: (Rt, Outcome))
    requires !s.If?
  {
    match s
    case Connect(_, _, _, _, _) => DoConnect(env, rt, s)
    case Send(_, _) => DoSend(env, rt, s)
    case Recv(_, _, _, _) => DoRecv(env, rt, s)
    case Close(_) => DoClose(env, rt, s)
    case MatchAny(_, _, _) => DoMatchAny(env, rt, s)
    case MatchIn(_, _, _) => DoMatchIn(env, rt, s)
    case Emit(_, _, _, _, _) => DoEmit(env, rt, s)
    case TlsUpgrade(_, _, _, _) => DoTlsUpgrade(env, rt, s)
    case TlsEnum(_, _, _, _, _) => DoTlsEnum(env, rt, s)
  }

  function DoStep(env: Env, rt: Rt, s: Step): (r: (Rt, Outcome))
    decreases s, 0
  {
    if !s.If? then DoPlain(env, rt, s)
    else
      var taken := Taken(env, rt, s.cond);
      if taken.Err? then (rt, Failed(taken.why))
      else if taken.value then DoSteps(env, rt, s.body)
      else (rt.(skipped := rt.skipped + Names(DeclaresAll(s.body))), Done)
  }

  function DoSteps(env: Env, rt: Rt, ss: seq<Step>): (r: (Rt, Outcome))
    decreases ss, 1
  {
    if |ss| == 0 then (rt, Done)
    else
      var (rt1, o1) := BudgetStep(env, rt);
      if o1.Failed? then (rt1, o1)
      else
        var (rt2, o2) := DoStep(env, rt1, ss[0]);
        if o2.Failed? then (rt2, o2) else DoSteps(env, rt2, ss[1..])
  }

  const START: Rt := Rt([], 0, 0, 0, [], [], {})

  /** The connections still open at the end, closed in table order. */
  function CloseAll(trace: seq<Event>, bs: seq<Binding>): (r: seq<Event>)
    decreases |bs|
  {
    if |bs| == 0 then trace
    else
      CloseAll(if bs[0].val.Conn? && bs[0].val.fd >= 0 then trace + [Closed(bs[0].val.fd)] else trace, bs[1..])
  }

  /** A whole run: the steps, then the closing of what is left open. */
  function Run(env: Env, ss: seq<Step>): (r: (Rt, Outcome)) {
    var (rt, o) := DoSteps(env, START, ss);
    (if env.io.hasClose then rt.(trace := CloseAll(rt.trace, rt.bs)) else rt, o)
  }
}
