/** Accepted recipes run soundly on every backend: the runtime table stays a well-typed,
    duplicate-free part of the static one, budgets are respected, and every handle the backend
    opened is closed exactly once and not used afterwards. */
module RecipeSound {
  import opened Sequences
  import opened JsonTree
  import opened RecipeTemplate
  import opened RecipeCheck
  import opened RecipeRun

  // ----- subsequences -----

  /** `a` is `b` with some entries left out, in the same order. */
  ghost predicate Subseq(a: seq<Entry>, b: seq<Entry>)
    decreases |b|
  {
    if |a| == 0 then true
    else if |b| == 0 then false
    else
      || (a[|a| - 1] == b[|b| - 1] && Subseq(a[..|a| - 1], b[..|b| - 1]))
      || Subseq(a, b[..|b| - 1])
  }

  lemma {:induction false} SubseqMembers(a: seq<Entry>, b: seq<Entry>)
    requires Subseq(a, b)
    ensures |a| <= |b| && forall x | x in a :: x in b
    decreases |b|
  {
    if |a| > 0 {
      var b' := b[..|b| - 1];
      if Subseq(a, b') {
        SubseqMembers(a, b');
      } else {
        SubseqMembers(a[..|a| - 1], b');
        assert a == a[..|a| - 1] + [a[|a| - 1]];
      }
    }
  }

  ghost predicate DistinctNames(t: seq<Entry>) {
    forall i, j | 0 <= i < j < |t| :: t[i].name != t[j].name
  }

  lemma {:induction false} SubseqDistinct(a: seq<Entry>, b: seq<Entry>)
    requires Subseq(a, b) && DistinctNames(b)
    ensures DistinctNames(a)
    decreases |b|
  {
    if |a| > 0 {
      var b' := b[..|b| - 1];
      if Subseq(a, b') {
        SubseqDistinct(a, b');
      } else {
        var a' := a[..|a| - 1];
        SubseqDistinct(a', b');
        SubseqMembers(a', b');
        forall i | 0 <= i < |a'| ensures a[i].name != a[|a| - 1].name {
          assert a'[i] in b';
        }
      }
    }
  }

  lemma {:induction false} SubseqWider(a: seq<Entry>, b: seq<Entry>, c: seq<Entry>)
    requires Subseq(a, b)
    ensures Subseq(a, b + c)
    decreases |c|
  {
    if |c| == 0 {
      assert b + c == b;
    } else {
      SubseqWider(a, b, c[..|c| - 1]);
      assert (b + c)[..|b + c| - 1] == b + c[..|c| - 1];
    }
  }

  lemma {:induction false} SubseqSnoc(a: seq<Entry>, b: seq<Entry>, x: Entry)
    requires Subseq(a, b)
    ensures Subseq(a + [x], b + [x])
  {
    assert (a + [x])[..|a|] == a && (b + [x])[..|b|] == b;
  }

  /** The names and types of the runtime table. */
  function Sig(bs: seq<Binding>): (t: seq<Entry>)
    ensures |t| == |bs| && forall i | 0 <= i < |bs| :: t[i] == Entry(bs[i].name, TypeOf(bs[i].val))
  {
    seq(|bs|, i requires 0 <= i < |bs| => Entry(bs[i].name, TypeOf(bs[i].val)))
  }

  lemma SigSnoc(bs: seq<Binding>, b: Binding)
    ensures Sig(bs + [b]) == Sig(bs) + [Entry(b.name, TypeOf(b.val))]
  {
  }

  /** A value found at run time has the type declared for its name. */
  lemma {:induction false} TypedLookup(t: seq<Entry>, bs: seq<Binding>, name: string)
    requires DistinctNames(t) && Subseq(Sig(bs), t) && ValueOf(bs, name).Some?
    ensures TypeIn(t, name) == Some(TypeOf(ValueOf(bs, name).value))
  {
    var i := IndexOf(bs, name);
    SubseqMembers(Sig(bs), t);
    assert Sig(bs)[i] in t;
  }

  // ----- handles -----

  function Opens(trace: seq<Event>, fd: int): (n: nat) {
    if |trace| == 0 then 0
    else
      var e := trace[|trace| - 1];
      Opens(trace[..|trace| - 1], fd) + if e.Opened? && e.fd == fd then 1 else 0
  }

  function Closes(trace: seq<Event>, fd: int): (n: nat) {
    if |trace| == 0 then 0
    else
      var e := trace[|trace| - 1];
      Closes(trace[..|trace| - 1], fd) + if e.Closed? && e.fd == fd then 1 else 0
  }

  function Handshakes(trace: seq<Event>): (n: nat) {
    if |trace| == 0 then 0
    else
      var e := trace[|trace| - 1];
      Handshakes(trace[..|trace| - 1]) + if e.Upgraded? || e.Probed? then 1 else 0
  }

  /** The handle an event passes to the backend, if it passes one. */
  function Uses(e: Event): (r: Option<int>) {
    match e
    case Sent(fd, _, _) => Some(fd)
    case Received(fd, _, _) => Some(fd)
    case Closed(fd) => Some(fd)
    case Upgraded(fd, _, _, _) => Some(fd)
    case Session(fd, _) => Some(fd)
    case _ => None
  }

  /** Every handle is used, and closed, only while it is open. */
  ghost predicate UsesOk(trace: seq<Event>) {
    |trace| > 0 ==>
      var before, e := trace[..|trace| - 1], trace[|trace| - 1];
      && UsesOk(before)
      && (Uses(e).Some? && Uses(e).value >= 0 ==> Opens(before, Uses(e).value) > Closes(before, Uses(e).value))
  }

  /** How many connection bindings hold a handle. */
  function Held(bs: seq<Binding>, fd: int): (n: nat) {
    if |bs| == 0 then 0
    else Held(bs[..|bs| - 1], fd) + if bs[|bs| - 1].val == Conn(fd) then 1 else 0
  }

  ghost predicate Balanced(trace: seq<Event>, bs: seq<Binding>) {
    forall fd | fd >= 0 :: Opens(trace, fd) == Closes(trace, fd) + Held(bs, fd)
  }

  lemma {:induction false} Snoc(trace: seq<Event>, e: Event, fd: int)
    ensures Opens(trace + [e], fd) == Opens(trace, fd) + if e.Opened? && e.fd == fd then 1 else 0
    ensures Closes(trace + [e], fd) == Closes(trace, fd) + if e.Closed? && e.fd == fd then 1 else 0
    ensures Handshakes(trace + [e]) == Handshakes(trace) + if e.Upgraded? || e.Probed? then 1 else 0
  {
    assert (trace + [e])[..|trace|] == trace;
  }

  lemma {:induction false} HeldSnoc(bs: seq<Binding>, b: Binding, fd: int)
    ensures Held(bs + [b], fd) == Held(bs, fd) + if b.val == Conn(fd) then 1 else 0
  {
    assert (bs + [b])[..|bs|] == bs;
  }

  lemma {:induction false} HeldAt(bs: seq<Binding>, i: nat)
    requires i < |bs| && bs[i].val.Conn?
    ensures Held(bs, bs[i].val.fd) > 0
    decreases |bs|
  {
    if i < |bs| - 1 {
      HeldAt(bs[..|bs| - 1], i);
    }
  }

  lemma {:induction false} HeldUpdate(bs: seq<Binding>, i: nat, b: Binding, fd: int)
    requires i < |bs|
    ensures Held(bs[i := b], fd) + (if bs[i].val == Conn(fd) then 1 else 0) ==
            Held(bs, fd) + if b.val == Conn(fd) then 1 else 0
    decreases |bs|
  {
    var n := |bs| - 1;
    if i < n {
      HeldUpdate(bs[..n], i, b, fd);
      assert bs[i := b][..n] == bs[..n][i := b];
    } else {
      assert bs[i := b][..n] == bs[..n];
    }
  }

  // ----- the invariant -----

  function NonNeg(n: int): (r: nat) {
    if n < 0 then 0 else n
  }

  /** What holds of a run's state at every moment, `t` being the bindings declared so far. */
  ghost predicate Safe(env: Env, t: seq<Entry>, rt: Rt) {
    && Subseq(Sig(rt.bs), t)
    && 0 <= rt.recvBytes <= NonNeg(env.budgets.maxRecvBytes)
    && Handshakes(rt.trace) <= rt.tls && Handshakes(rt.trace) <= NonNeg(env.budgets.maxTlsProbes)
    && (env.io.hasClose ==> Balanced(rt.trace, rt.bs) && UsesOk(rt.trace))
  }

  /** A declared connection is bound, unless its declaration lies in a branch not taken. */
  ghost predicate ConnsBound(t: seq<Entry>, rt: Rt) {
    forall i | 0 <= i < |t| && t[i].ty == TConn :: ValueOf(rt.bs, t[i].name).Some? || t[i].name in rt.skipped
  }

  /** Reasons that an accepted recipe never stops for, and what the others imply. */
  ghost predicate ReasonOk(t: seq<Entry>, rt: Rt, why: Reason) {
    && !why.TableOverflow? && !why.LoneDollar? && !why.NameTooLong? && !why.WrongType?
    && (why.UnboundConn? ==> why.name in rt.skipped)
    && (why.NonStringable? ==> TypeIn(t, why.name) == Some(TConn))
    && (why.Unbound? ==> TypeIn(t, why.name).Some? && ValueOf(rt.bs, why.name).None?)
  }

  /** Steps counted so far, less the one that was refused. */
  function Executed(rt: Rt, o: Outcome): (n: int) {
    if o == Failed(StepBudget) then rt.steps - 1 else rt.steps
  }

  ghost predicate Good(env: Env, t: seq<Entry>, rt: Rt, o: Outcome) {
    && Safe(env, t, rt)
    && Executed(rt, o) <= NonNeg(env.budgets.maxSteps)
    && match o
       case Done => ConnsBound(t, rt)
       case Failed(why) => ReasonOk(t, rt, why)
  }

  // ----- primitive changes -----

  /** A handle is held by some binding, or is not a handle at all. */
  ghost predicate Holds(rt: Rt, fd: int) {
    fd < 0 || Held(rt.bs, fd) > 0
  }

  lemma {:induction false} LogUse(env: Env, t: seq<Entry>, rt: Rt, e: Event)
    requires Safe(env, t, rt) && !e.Opened? && !e.Closed?
    requires Uses(e).Some? ==> Holds(rt, Uses(e).value)
    requires e.Upgraded? || e.Probed? ==>
               Handshakes(rt.trace) < rt.tls && Handshakes(rt.trace) < NonNeg(env.budgets.maxTlsProbes)
    ensures Safe(env, t, Log(rt, e))
  {
    forall fd
      ensures Opens(rt.trace + [e], fd) == Opens(rt.trace, fd) && Closes(rt.trace + [e], fd) == Closes(rt.trace, fd) {
      Snoc(rt.trace, e, fd);
    }
    Snoc(rt.trace, e, 0);
    assert (rt.trace + [e])[..|rt.trace|] == rt.trace;
  }

  lemma {:induction false} LogFailedOpen(env: Env, t: seq<Entry>, rt: Rt, e: Event)
    requires Safe(env, t, rt) && e.Opened? && e.fd < 0
    ensures Safe(env, t, Log(rt, e))
  {
    forall fd | fd >= 0
      ensures Opens(rt.trace + [e], fd) == Opens(rt.trace, fd) && Closes(rt.trace + [e], fd) == Closes(rt.trace, fd) {
      Snoc(rt.trace, e, fd);
    }
    Snoc(rt.trace, e, 0);
    assert (rt.trace + [e])[..|rt.trace|] == rt.trace;
  }

  lemma {:induction false} Widen(env: Env, t: seq<Entry>, es: seq<Entry>, rt: Rt)
    requires Safe(env, t, rt)
    ensures Safe(env, t + es, rt)
  {
    SubseqWider(Sig(rt.bs), t, es);
  }

  lemma {:induction false} Room(t: seq<Entry>, e: Entry, rt: Rt)
    requires Subseq(Sig(rt.bs), t) && |t| < BINDINGS_MAX
    ensures |rt.bs| < BINDINGS_MAX
  {
    SubseqMembers(Sig(rt.bs), t);
  }

  /** Binding the next declared name cannot fail. */
  lemma {:induction false} BindDeclared(env: Env, t: seq<Entry>, rt: Rt, name: string, v: Val)
    requires Safe(env, t, rt) && |t| < BINDINGS_MAX && !v.Conn?
    ensures var (r, o) := BindNew(rt, name, v);
            o == Done && r == rt.(bs := rt.bs + [Binding(name, v)]) && Safe(env, t + [Entry(name, TypeOf(v))], r)
  {
    var b := Binding(name, v);
    Room(t, Entry(name, TypeOf(v)), rt);
    SigSnoc(rt.bs, b);
    SubseqSnoc(Sig(rt.bs), t, Entry(name, TypeOf(v)));
    forall fd ensures Held(rt.bs + [b], fd) == Held(rt.bs, fd) {
      HeldSnoc(rt.bs, b, fd);
    }
  }

  lemma {:induction false} StillBound(bs: seq<Binding>, b: Binding, name: string)
    ensures ValueOf(bs, name).Some? ==> ValueOf(bs + [b], name).Some?
    ensures ValueOf(bs + [b], b.name).Some?
  {
    var i := IndexOf(bs, name);
    assert i < |bs| ==> (bs + [b])[i].name == name;
    assert (bs + [b])[|bs|] == b;
  }

  lemma {:induction false} ConnsStayBound(t: seq<Entry>, rt: Rt, name: string, v: Val)
    requires ConnsBound(t, rt)
    ensures ConnsBound(t + [Entry(name, TypeOf(v))], rt.(bs := rt.bs + [Binding(name, v)]))
  {
    var t', rt' := t + [Entry(name, TypeOf(v))], rt.(bs := rt.bs + [Binding(name, v)]);
    forall i | 0 <= i < |t'| && t'[i].ty == TConn
      ensures ValueOf(rt'.bs, t'[i].name).Some? || t'[i].name in rt'.skipped {
      StillBound(rt.bs, Binding(name, v), t'[i].name);
    }
  }

  lemma {:induction false} BindGood(env: Env, t: seq<Entry>, rt: Rt, name: string, v: Val)
    requires Good(env, t, rt, Done) && |t| < BINDINGS_MAX && !v.Conn?
    ensures var (r, o) := BindNew(rt, name, v); Good(env, t + [Entry(name, TypeOf(v))], r, o)
  {
    BindDeclared(env, t, rt, name, v);
    ConnsStayBound(t, rt, name, v);
  }

  lemma ConnsWiden(t: seq<Entry>, es: seq<Entry>, rt: Rt)
    requires ConnsBound(t, rt) && forall i | 0 <= i < |es| :: es[i].ty != TConn
    ensures ConnsBound(t + es, rt)
  {
  }

  /** A handle that was opened and bound: one more open, one more held. */
  lemma {:induction false} OpenAndBind(env: Env, t: seq<Entry>, rt: Rt, e: Event, name: string)
    requires Safe(env, t, rt) && |t| < BINDINGS_MAX && e.Opened? && e.fd >= 0
    ensures var (r, o) := BindNew(Log(rt, e), name, Conn(e.fd));
            && o == Done && r == Log(rt, e).(bs := rt.bs + [Binding(name, Conn(e.fd))])
            && Safe(env, t + [Entry(name, TConn)], r)
  {
    var b := Binding(name, Conn(e.fd));
    Room(t, Entry(name, TConn), rt);
    SigSnoc(rt.bs, b);
    SubseqSnoc(Sig(rt.bs), t, Entry(name, TConn));
    forall fd ensures && Held(rt.bs + [b], fd) == Held(rt.bs, fd) + (if fd == e.fd then 1 else 0)
                      && Opens(rt.trace + [e], fd) == Opens(rt.trace, fd) + (if fd == e.fd then 1 else 0)
                      && Closes(rt.trace + [e], fd) == Closes(rt.trace, fd) {
      HeldSnoc(rt.bs, b, fd);
      Snoc(rt.trace, e, fd);
    }
    Snoc(rt.trace, e, 0);
    assert (rt.trace + [e])[..|rt.trace|] == rt.trace;
  }

  lemma SameSig(bs: seq<Binding>, i: nat, fd: int)
    requires i < |bs| && bs[i].val.Conn?
    ensures Sig(bs[i := Binding(bs[i].name, Conn(fd))]) == Sig(bs)
  {
  }

  /** A handle that was closed and forgotten: one more close, one less held. */
  lemma {:induction false} CloseAndForget(env: Env, t: seq<Entry>, rt: Rt, i: nat)
    requires Safe(env, t, rt) && i < |rt.bs| && rt.bs[i].val.Conn?
    ensures var e, b := Closed(rt.bs[i].val.fd), Binding(rt.bs[i].name, Conn(-1));
            var rt1 := if env.io.hasClose then Log(rt, e) else rt;
            Safe(env, t, rt1.(bs := rt.bs[i := b]))
  {
    var e, b := Closed(rt.bs[i].val.fd), Binding(rt.bs[i].name, Conn(-1));
    SameSig(rt.bs, i, -1);
    if env.io.hasClose {
      HeldAt(rt.bs, i);
      forall fd | fd >= 0 ensures Opens(rt.trace + [e], fd) == Closes(rt.trace + [e], fd) + Held(rt.bs[i := b], fd) {
        HeldUpdate(rt.bs, i, b, fd);
        Snoc(rt.trace, e, fd);
      }
      Snoc(rt.trace, e, 0);
      assert (rt.trace + [e])[..|rt.trace|] == rt.trace;
    }
  }

  // ----- expressions of a step -----

  lemma {:induction false} TypeInWider(t: seq<Entry>, es: seq<Entry>, name: string)
    ensures TypeIn(t, name).Some? ==> TypeIn(t + es, name) == TypeIn(t, name)
  {
    if |t| > 0 {
      assert (t + es)[1..] == t[1..] + es;
      if t[0].name != name {
        TypeInWider(t[1..], es, name);
      }
    }
  }

  /** A state in which a step stops before changing anything. */
  lemma {:induction false} Stops(env: Env, t: seq<Entry>, es: seq<Entry>, rt: Rt, why: Reason)
    requires Safe(env, t, rt) && ReasonOk(t, rt, why) && Executed(rt, Failed(why)) <= NonNeg(env.budgets.maxSteps)
    ensures Good(env, t + es, rt, Failed(why))
  {
    Widen(env, t, es, rt);
    if why.NonStringable? || why.Unbound? {
      TypeInWider(t, es, why.name);
    }
  }

  /** A step that completes without binding what it declares. */
  lemma {:induction false} Skips(env: Env, t: seq<Entry>, es: seq<Entry>, rt: Rt)
    requires Good(env, t, rt, Done) && forall i | 0 <= i < |es| :: es[i].ty != TConn
    ensures Good(env, t + es, rt, Done)
  {
    Widen(env, t, es, rt);
    ConnsWiden(t, es, rt);
  }

  lemma {:induction false} TemplateStops(t: seq<Entry>, rt: Rt, tgt: Target, text: string)
    requires DistinctNames(t) && Subseq(Sig(rt.bs), t) && TemplateOk(text, t)
    ensures Expand(text, rt.bs, tgt).Err? ==> ReasonOk(t, rt, Expand(text, rt.bs, tgt).why)
  {
    TemplatesAgree(text, t, rt.bs, tgt);
    var r := Expand(text, rt.bs, tgt);
    if r.Err? && r.why.NonStringable? {
      TypedLookup(t, rt.bs, r.why.name);
    }
  }

  lemma {:induction false} IntStops(env: Env, t: seq<Entry>, rt: Rt, text: string)
    requires DistinctNames(t) && Subseq(Sig(rt.bs), t) && TemplateOk(text, t)
    ensures ResolveInt(env, rt, text).Err? ==> ReasonOk(t, rt, ResolveInt(env, rt, text).why)
  {
    TemplateStops(t, rt, env.target, text);
  }

  lemma {:induction false} ValueStops(env: Env, t: seq<Entry>, rt: Rt, f: Field)
    requires DistinctNames(t) && Subseq(Sig(rt.bs), t) && TemplateOk(f.value, t)
    ensures EvidenceValue(env, rt, f).Err? ==> ReasonOk(t, rt, EvidenceValue(env, rt, f).why)
  {
    IntStops(env, t, rt, f.value);
    TemplateStops(t, rt, env.target, f.value);
  }

  lemma {:induction false} FieldsStop(env: Env, t: seq<Entry>, rt: Rt, out: string, fs: seq<Field>)
    requires DistinctNames(t) && Subseq(Sig(rt.bs), t) && FieldsOk(fs, t)
    ensures EvidenceFrom(env, rt, out, fs).Err? ==> ReasonOk(t, rt, EvidenceFrom(env, rt, out, fs).why)
    decreases |fs|
  {
    if |fs| > 0 {
      ValueStops(env, t, rt, fs[0]);
      var v := EvidenceValue(env, rt, fs[0]);
      if v.Ok? {
        FieldsStop(env, t, rt, out + FieldHead(out, fs[0].key) + v.value, fs[1..]);
      }
    }
  }

  /** A connection name that type-checks is bound to a connection, or its declaration was
      skipped. */
  lemma {:induction false} ConnResolves(env: Env, t: seq<Entry>, rt: Rt, name: string)
    requires DistinctNames(t) && Safe(env, t, rt) && ConnsBound(t, rt) && IsConn(t, name)
    ensures match ConnOf(rt, name)
            case Ok(fd) => Holds(rt, fd) && ValueOf(rt.bs, name) == Some(Conn(fd))
            case Err(why) => ReasonOk(t, rt, why)
  {
    if ValueOf(rt.bs, name).Some? {
      TypedLookup(t, rt.bs, name);
      HeldAt(rt.bs, IndexOf(rt.bs, name));
    } else {
      assert Entry(name, TConn) in t;
    }
  }

  // ----- steps -----

  lemma {:induction false} ConnectSound(env: Env, t: seq<Entry>, rt: Rt, s: Step)
    requires TableOk(t) && Good(env, t, rt, Done) && s.Connect? && StepOk(s, t)
    ensures var (r, o) := DoConnect(env, rt, s); Good(env, t + Declares(s), r, o)
  {
    TemplateStops(t, rt, env.target, s.host);
    IntStops(env, t, rt, s.port);
    var host, port := Expand(s.host, rt.bs, env.target), ResolveInt(env, rt, s.port);
    if host.Err? {
      Stops(env, t, Declares(s), rt, host.why);
    } else if port.Err? {
      Stops(env, t, Declares(s), rt, port.why);
    } else if port.value <= 0 || port.value > 65535 {
      Stops(env, t, Declares(s), rt, PortRange);
    } else if !(if s.udp then env.io.hasUdp else env.io.hasTcp) {
      Stops(env, t, Declares(s), rt, NoCallback);
    } else {
      var fd := env.io.connect(rt.trace, s.udp, host.value, port.value, s.timeout);
      ConnectedSound(env, t, rt, s, Opened(s.udp, host.value, port.value, fd));
    }
  }

  lemma {:induction false} ConnectedSound(env: Env, t: seq<Entry>, rt: Rt, s: Step, e: Event)
    requires Good(env, t, rt, Done) && |t| < BINDINGS_MAX && s.Connect? && e.Opened?
    ensures var rt1 := Log(rt, e);
            var (r, o) := if e.fd < 0 then (rt1, Failed(ConnectFailed)) else BindNew(rt1, s.out, Conn(e.fd));
            Good(env, t + Declares(s), r, o)
  {
    if e.fd < 0 {
      LogFailedOpen(env, t, rt, e);
      Stops(env, t, Declares(s), Log(rt, e), ConnectFailed);
    } else {
      OpenAndBind(env, t, rt, e, s.out);
      ConnsStayBound(t, Log(rt, e), s.out, Conn(e.fd));
    }
  }

  lemma {:induction false} SendSound(env: Env, t: seq<Entry>, rt: Rt, s: Step)
    requires TableOk(t) && Good(env, t, rt, Done) && s.Send? && StepOk(s, t)
    ensures var (r, o) := DoSend(env, rt, s); Good(env, t + Declares(s), r, o)
  {
    ConnResolves(env, t, rt, s.conn);
    if s.payload.Template? {
      TemplateStops(t, rt, env.target, s.payload.text);
    }
    var (r, o) := DoSend(env, rt, s);
    assert t + Declares(s) == t;
    if r != rt {
      LogUse(env, t, rt, r.trace[|rt.trace|]);
    }
  }

  lemma {:induction false} CloseSound(env: Env, t: seq<Entry>, rt: Rt, s: Step)
    requires TableOk(t) && Good(env, t, rt, Done) && s.Close? && StepOk(s, t)
    ensures var (r, o) := DoClose(env, rt, s); Good(env, t + Declares(s), r, o)
  {
    ConnResolves(env, t, rt, s.conn);
    assert t + Declares(s) == t;
    var c := ConnOf(rt, s.conn);
    if c.Ok? {
      var i := IndexOf(rt.bs, s.conn);
      CloseAndForget(env, t, rt, i);
      NamesStay(rt.bs, i, Binding(s.conn, Conn(-1)));
    }
  }

  lemma {:induction false} NamesStay(bs: seq<Binding>, i: nat, b: Binding)
    requires i < |bs| && bs[i].name == b.name
    ensures forall name :: ValueOf(bs[i := b], name).Some? <==> ValueOf(bs, name).Some?
  {
    var r := bs[i := b];
    forall name ensures ValueOf(r, name).Some? <==> ValueOf(bs, name).Some? {
      assert forall j | 0 <= j < |bs| :: r[j].name == bs[j].name;
    }
  }

  lemma {:induction false} MatchAnySound(env: Env, t: seq<Entry>, rt: Rt, s: Step)
    requires TableOk(t) && Good(env, t, rt, Done) && s.MatchAny? && StepOk(s, t)
    ensures var (r, o) := DoMatchAny(env, rt, s); Good(env, t + Declares(s), r, o)
  {
    var v := ValueOf(rt.bs, s.list);
    if v.Some? {
      TypedLookup(t, rt.bs, s.list);
    }
    var (r, o) := DoMatchAny(env, rt, s);
    if o.Failed? && r == rt && !o.why.TableOverflow? {
      Stops(env, t, Declares(s), rt, o.why);
    } else if r == rt && o.Done? {
      Skips(env, t, Declares(s), rt);
    } else {
      var hit := FirstHit(env, s.regex, v.value.items).value;
      BindGood(env, t, rt, s.hit.value, Text(hit));
    }
  }

  lemma {:induction false} EmitSound(env: Env, t: seq<Entry>, rt: Rt, s: Step)
    requires TableOk(t) && Good(env, t, rt, Done) && s.Emit? && StepOk(s, t)
    ensures var (r, o) := DoEmit(env, rt, s); Good(env, t + Declares(s), r, o)
  {
    TemplateStops(t, rt, env.target, s.title);
    FieldsStop(env, t, rt, "{", s.fields);
    assert t + Declares(s) == t;
  }

  lemma {:induction false} RecvLoopSound(env: Env, t: seq<Entry>, rt: Rt, fd: int, until: Until, cap: nat, got: string)
    requires Safe(env, t, rt) && Holds(rt, fd) && |got| <= cap
    ensures var (r, g) := RecvLoop(env, rt, fd, until, cap, got);
            && Safe(env, t, r)
            && r == rt.(trace := r.trace)
            && (g.Err? ==> g.why == RecvFailed)
    decreases cap - |got|
  {
    if |got| < cap {
      var reply := RecvSome(env, rt, fd, cap - |got|);
      var rt1 := Log(rt, Received(fd, cap - |got|, reply));
      LogUse(env, t, rt, Received(fd, cap - |got|, reply));
      if reply.Data? && reply.bytes != "" && StopAt(until, got, reply.bytes).None? {
        RecvLoopSound(env, t, rt1, fd, until, cap, got + reply.bytes);
      }
    }
  }

  lemma {:induction false} RecvSound(env: Env, t: seq<Entry>, rt: Rt, s: Step)
    requires TableOk(t) && Good(env, t, rt, Done) && s.Recv? && StepOk(s, t)
    ensures var (r, o) := DoRecv(env, rt, s); Good(env, t + Declares(s), r, o)
  {
    ConnResolves(env, t, rt, s.conn);
    var c := ConnOf(rt, s.conn);
    if c.Err? {
      Stops(env, t, Declares(s), rt, c.why);
    } else if s.maxBytes <= 0 || s.maxBytes > env.budgets.maxRecvBytes {
      Stops(env, t, Declares(s), rt, RecvRange);
    } else if rt.recvBytes + s.maxBytes > env.budgets.maxRecvBytes {
      Stops(env, t, Declares(s), rt, RecvBudget);
    } else if !env.io.hasRecv {
      Stops(env, t, Declares(s), rt, NoCallback);
    } else {
      RecvAllowed(env, t, rt, s);
    }
  }

  lemma {:induction false} RecvAllowed(env: Env, t: seq<Entry>, rt: Rt, s: Step)
    requires Good(env, t, rt, Done) && s.Recv? && ConnOf(rt, s.conn).Ok? && Holds(rt, ConnOf(rt, s.conn).value)
    requires 0 < s.maxBytes <= env.budgets.maxRecvBytes && rt.recvBytes + s.maxBytes <= env.budgets.maxRecvBytes
    requires env.io.hasRecv && |t| < BINDINGS_MAX
    ensures var (r, o) := DoRecv(env, rt, s); Good(env, t + [Entry(s.out, TBytes)], r, o)
  {
    ReceivedSound(env, t, rt, ConnOf(rt, s.conn).value, s.until, s.maxBytes, s.out);
  }

  lemma {:induction false} ReceivedSound(env: Env, t: seq<Entry>, rt: Rt, fd: int, until: Until, cap: nat, out: string)
    requires Good(env, t, rt, Done) && Holds(rt, fd) && |t| < BINDINGS_MAX
    requires rt.recvBytes + cap <= env.budgets.maxRecvBytes
    ensures var (rt1, got) := RecvLoop(env, rt, fd, until, cap, "");
            if got.Err? then Good(env, t + [Entry(out, TBytes)], rt1, Failed(got.why))
            else
              var (r, o) := BindNew(rt1.(recvBytes := rt1.recvBytes + |got.value|), out, Bytes(got.value));
              Good(env, t + [Entry(out, TBytes)], r, o)
  {
    LoopGood(env, t, rt, fd, until, cap);
    var (rt1, got) := RecvLoop(env, rt, fd, until, cap, "");
    if got.Err? {
      Stops(env, t, [Entry(out, TBytes)], rt1, got.why);
    } else {
      KeptGood(env, t, rt1, |got.value|);
      BindGood(env, t, rt1.(recvBytes := rt1.recvBytes + |got.value|), out, Bytes(got.value));
    }
  }

  lemma {:induction false} LoopGood(env: Env, t: seq<Entry>, rt: Rt, fd: int, until: Until, cap: nat)
    requires Good(env, t, rt, Done) && Holds(rt, fd)
    ensures var (rt1, got) := RecvLoop(env, rt, fd, until, cap, "");
            Good(env, t, rt1, Done) && rt1.recvBytes == rt.recvBytes && (got.Err? ==> got.why == RecvFailed)
  {
    RecvLoopSound(env, t, rt, fd, until, cap, "");
  }

  lemma KeptGood(env: Env, t: seq<Entry>, rt: Rt, n: nat)
    requires Good(env, t, rt, Done) && rt.recvBytes + n <= env.budgets.maxRecvBytes
    ensures Good(env, t, rt.(recvBytes := rt.recvBytes + n), Done)
  {
  }

  lemma {:induction false} CanDeclareNext(t: seq<Entry>, es: seq<Entry>)
    requires CanDeclare(t, es) && |es| > 0
    ensures |t| < BINDINGS_MAX && CanDeclare(t + [es[0]], es[1..])
    ensures t + [es[0]] + es[1..] == t + es
  {
    assert es == [es[0]] + es[1..];
  }

  lemma CaptureHead(cs: seq<Capture>, i: nat)
    requires i < |cs|
    ensures var es := CaptureEntries(cs[i..]);
            && |es| > 0 && es[0] == Entry(cs[i].name, if cs[i].isInt then TInt else TString)
            && es[1..] == CaptureEntries(cs[i + 1..])
  {
  }

  lemma {:induction false} CaptureBound(env: Env, t: seq<Entry>, rt: Rt, es: seq<Entry>, name: string, v: Val)
    requires Good(env, t, rt, Done) && CanDeclare(t, es) && |es| > 0 && es[0] == Entry(name, TypeOf(v)) && !v.Conn?
    ensures var (rt1, o) := BindNew(rt, name, v);
            && o == Done && Good(env, t + [es[0]], rt1, Done) && Good(env, t + es, rt1, Failed(CaptureTooLong))
    ensures CanDeclare(t + [es[0]], es[1..]) && t + [es[0]] + es[1..] == t + es
  {
    CanDeclareNext(t, es);
    BindGood(env, t, rt, name, v);
    Stops(env, t + [es[0]], es[1..], BindNew(rt, name, v).0, CaptureTooLong);
  }

  lemma {:induction false} CapturesSound(env: Env, t: seq<Entry>, rt: Rt, regex: string, hay: string,
                                        cs: seq<Capture>, i: nat)
    requires i <= |cs| && Good(env, t, rt, Done) && CanDeclare(t, CaptureEntries(cs[i..]))
    ensures var (r, o) := BindCaptures(env, rt, regex, hay, cs, i); Good(env, t + CaptureEntries(cs[i..]), r, o)
    decreases |cs| - i
  {
    var es := CaptureEntries(cs[i..]);
    if i == |cs| {
      assert t + es == t;
    } else {
      var g := env.regex.group(regex, hay, i + 1);
      if g.Unset? {
        Stops(env, t, es, rt, UnsetCapture);
      } else {
        var text := SpanText(hay, g);
        var v := if !cs[i].isInt then Text(text) else if |text| >= 32 then Number(0) else Number(StrToLong(text).0);
        CaptureHead(cs, i);
        CaptureBound(env, t, rt, es, cs[i].name, v);
        if !(cs[i].isInt && |text| >= 32) {
          CapturesSound(env, t + [es[0]], BindNew(rt, cs[i].name, v).0, regex, hay, cs, i + 1);
        }
      }
    }
  }

  lemma {:induction false} MatchInSound(env: Env, t: seq<Entry>, rt: Rt, s: Step)
    requires TableOk(t) && Good(env, t, rt, Done) && s.MatchIn? && StepOk(s, t)
    ensures var (r, o) := DoMatchIn(env, rt, s); Good(env, t + Declares(s), r, o)
  {
    var v := ValueOf(rt.bs, s.input);
    if v.None? {
      Stops(env, t, Declares(s), rt, Unbound(s.input));
    } else {
      TypedLookup(t, rt.bs, s.input);
      var hay := CString(if v.value.Bytes? then v.value.b else v.value.s);
      if !env.regex.compiles(s.regex) {
        Stops(env, t, Declares(s), rt, BadRegex);
      } else if !env.regex.matches(s.regex, hay) {
        Skips(env, t, Declares(s), rt);
      } else {
        assert s.captures[0..] == s.captures;
        CapturesSound(env, t, rt, s.regex, hay, s.captures, 0);
      }
    }
  }

  // ----- TLS steps -----

  lemma {:induction false} QuietSound(env: Env, t: seq<Entry>, rt: Rt, news: seq<Binding>)
    requires Good(env, t, rt, Done) && CanDeclare(t, Sig(news)) && forall i | 0 <= i < |news| :: !news[i].val.Conn?
    ensures Good(env, t + Sig(news), BindQuietly(rt, news), Done)
    decreases |news|
  {
    if |news| == 0 {
      assert t + Sig(news) == t;
    } else {
      CanDeclareNext(t, Sig(news));
      assert Sig(news)[1..] == Sig(news[1..]);
      BindDeclared(env, t, rt, news[0].name, news[0].val);
      ConnsStayBound(t, rt, news[0].name, news[0].val);
      QuietSound(env, t + [Sig(news)[0]], BindNew(rt, news[0].name, news[0].val).0, news[1..]);
    }
  }

  lemma QuietStep(rt: Rt, news: seq<Binding>)
    requires |news| > 0
    ensures BindQuietly(rt, news) == BindQuietly(BindNew(rt, news[0].name, news[0].val).0, news[1..])
  {
  }

  lemma SessionFacts(i: TlsInfo)
    ensures Sig(TlsBindings(i)) == TlsFacts() && forall j | 0 <= j < TLS_FACTS :: !TlsBindings(i)[j].val.Conn?
  {
  }

  lemma {:induction false} SessionSound(env: Env, t: seq<Entry>, rt: Rt, i: TlsInfo)
    requires Good(env, t, rt, Done) && CanDeclare(t, TlsFacts())
    ensures BindSession(rt, i).1 == Done && Good(env, t + TlsFacts(), BindSession(rt, i).0, Done)
  {
    var bs := TlsBindings(i);
    SessionFacts(i);
    QuietSound(env, t, rt, bs);
    CanDeclareNext(t, Sig(bs));
    BindDeclared(env, t, rt, bs[0].name, bs[0].val);
    var rt1 := BindNew(rt, bs[0].name, bs[0].val).0;
    CanDeclareNext(t + [Sig(bs)[0]], Sig(bs)[1..]);
    BindDeclared(env, t + [Sig(bs)[0]], rt1, bs[1].name, bs[1].val);
    QuietStep(rt, bs);
    QuietStep(rt1, bs[1..]);
    assert bs[1..][1..] == bs[2..];
  }

  lemma HandshakeRoom(env: Env, t: seq<Entry>, rt: Rt)
    requires Safe(env, t, rt)
    ensures var (r, o) := BudgetTls(env, rt);
            && Safe(env, t, r)
            && (o == Done || o == Failed(TlsBudget))
            && (o == Done ==>
                  Handshakes(r.trace) < r.tls && Handshakes(r.trace) < NonNeg(env.budgets.maxTlsProbes))
  {
  }

  lemma {:induction false} SurfaceSound(env: Env, t: seq<Entry>, rt: Rt, fd: int)
    requires Good(env, t, rt, Done) && CanDeclare(t, TlsFacts()) && Holds(rt, fd)
    ensures var (r, o) := SurfaceSession(env, rt, fd); Good(env, t + TlsFacts(), r, o)
  {
    var info := env.io.session(rt.trace, fd);
    LogUse(env, t, rt, Session(fd, info));
    if info.None? {
      Stops(env, t, TlsFacts(), Log(rt, Session(fd, info)), SessionFailed);
    } else {
      SessionSound(env, t, Log(rt, Session(fd, info)), info.value);
    }
  }

  lemma {:induction false} UpgradedSound(env: Env, t: seq<Entry>, rt: Rt, e: Event)
    requires Good(env, t, rt, Done) && e.Upgraded? && CanDeclare(t, TlsFacts()) && Holds(rt, e.fd)
    requires Handshakes(rt.trace) < rt.tls && Handshakes(rt.trace) < NonNeg(env.budgets.maxTlsProbes)
    ensures var rt2 := Log(rt, e);
            var (r, o) := if e.ok then SurfaceSession(env, rt2, e.fd) else (rt2, Done);
            Good(env, t + TlsFacts(), r, o)
  {
    LogUse(env, t, rt, e);
    if e.ok {
      SurfaceSound(env, t, Log(rt, e), e.fd);
    } else {
      Skips(env, t, TlsFacts(), Log(rt, e));
    }
  }

  /** From the point where the handshake was counted. */
  lemma {:induction false} HandshakeSound(env: Env, t: seq<Entry>, rt: Rt, s: Step, fd: int)
    requires TableOk(t) && Good(env, t, rt, Done) && s.TlsUpgrade? && StepOk(s, t) && Holds(rt, fd)
    requires Handshakes(rt.trace) < rt.tls && Handshakes(rt.trace) < NonNeg(env.budgets.maxTlsProbes)
    ensures var sni := Expand(s.sni, rt.bs, env.target);
            if sni.Err? then Good(env, t + TlsFacts(), rt, Failed(sni.why))
            else
              var ok := env.io.upgrade(rt.trace, fd, sni.value, s.alpn, s.timeout);
              var rt2 := Log(rt, Upgraded(fd, sni.value, s.alpn, ok));
              var (r, o) := if ok then SurfaceSession(env, rt2, fd) else (rt2, Done);
              Good(env, t + TlsFacts(), r, o)
  {
    TemplateStops(t, rt, env.target, s.sni);
    var sni := Expand(s.sni, rt.bs, env.target);
    if sni.Err? {
      Stops(env, t, TlsFacts(), rt, sni.why);
    } else {
      var ok := env.io.upgrade(rt.trace, fd, sni.value, s.alpn, s.timeout);
      UpgradedSound(env, t, rt, Upgraded(fd, sni.value, s.alpn, ok));
    }
  }

  lemma {:induction false} TlsUpgradeSound(env: Env, t: seq<Entry>, rt: Rt, s: Step)
    requires TableOk(t) && Good(env, t, rt, Done) && s.TlsUpgrade? && StepOk(s, t)
    ensures var (r, o) := DoTlsUpgrade(env, rt, s); Good(env, t + Declares(s), r, o)
  {
    ConnResolves(env, t, rt, s.conn);
    HandshakeRoom(env, t, rt);
    var c := ConnOf(rt, s.conn);
    var (rt1, o) := BudgetTls(env, rt);
    if c.Err? {
      Stops(env, t, Declares(s), rt, c.why);
    } else if !env.io.hasTls {
      Stops(env, t, Declares(s), rt, NoCallback);
    } else if o.Failed? {
      Stops(env, t, Declares(s), rt1, TlsBudget);
    } else {
      HandshakeSound(env, t, rt1, s, c.value);
    }
  }

  lemma {:induction false} PeelSound(env: Env, t: seq<Entry>, rt: Rt, q: Probe, last: string, added: bool, acc: Peeled)
    requires Safe(env, t, rt)
    ensures var (r, p, o) := Peel(env, rt, q, last, added, acc);
            && Safe(env, t, r) && r == rt.(trace := r.trace, tls := r.tls)
            && (o == Done || o == Failed(TlsBudget))
    decreases env.budgets.maxTlsProbes - rt.tls
  {
    HandshakeRoom(env, t, rt);
    var (rt1, o) := BudgetTls(env, rt);
    if o == Done {
      var reply := env.io.probe(rt1.trace, q);
      var rt2 := Log(rt1, Probed(q, reply));
      LogUse(env, t, rt1, Probed(q, reply));
      if !(!reply.Negotiated? || reply.cipher == "" || reply.cipher == last) {
        PeelSound(env, t, rt2, Excluding(q, reply.cipher), Cut(reply.cipher, 128),
                  added || |acc.protos| < PROTOS_MAX, Collected(acc, q.proto, reply.cipher, added));
      }
    }
  }

  lemma {:induction false} PeelAllSound(env: Env, t: seq<Entry>, rt: Rt, q: Probe, protos: seq<string>, acc: Peeled)
    requires Safe(env, t, rt)
    ensures var (r, p, o) := PeelAll(env, rt, q, protos, acc);
            && Safe(env, t, r) && r == rt.(trace := r.trace, tls := r.tls)
            && (o == Done || o == Failed(TlsBudget))
    decreases |protos|
  {
    if |protos| > 0 {
      var q1 := q.(proto := protos[0], ciphers := EXCLUDE_BASE);
      PeelSound(env, t, rt, q1, "", false, acc);
      var (rt1, acc1, o) := Peel(env, rt, q1, "", false, acc);
      if o == Done {
        PeelAllSound(env, t, rt1, q, protos[1..], acc1);
      }
    }
  }

  lemma {:induction false} BindTwo(env: Env, t: seq<Entry>, rt: Rt, a: seq<string>, b: seq<string>)
    requires Good(env, t, rt, Done) && CanDeclare(t, ENUM_LISTS)
    ensures var (r1, o1) := BindNew(rt, ENUM_LISTS[0].name, Strings(a));
            var (r2, o2) := BindNew(r1, ENUM_LISTS[1].name, Strings(b));
            o1 == Done && o2 == Done && Good(env, t + ENUM_LISTS, r2, Done)
  {
    var news := [Binding(ENUM_LISTS[0].name, Strings(a)), Binding(ENUM_LISTS[1].name, Strings(b))];
    assert Sig(news) == ENUM_LISTS;
    QuietSound(env, t, rt, news);
    CanDeclareNext(t, ENUM_LISTS);
    BindDeclared(env, t, rt, news[0].name, news[0].val);
    var rt1 := BindNew(rt, news[0].name, news[0].val).0;
    BindDeclared(env, t + [ENUM_LISTS[0]], rt1, news[1].name, news[1].val);
    QuietStep(rt, news);
    QuietStep(rt1, news[1..]);
    assert news[1..][1..] == [];
  }

  lemma {:induction false} TlsEnumSound(env: Env, t: seq<Entry>, rt: Rt, s: Step)
    requires TableOk(t) && Good(env, t, rt, Done) && s.TlsEnum? && StepOk(s, t)
    ensures var (r, o) := DoTlsEnum(env, rt, s); Good(env, t + Declares(s), r, o)
  {
    TemplateStops(t, rt, env.target, s.host);
    IntStops(env, t, rt, s.port);
    var host, port := Expand(s.host, rt.bs, env.target), ResolveInt(env, rt, s.port);
    if !env.io.hasProbe {
      Stops(env, t, Declares(s), rt, NoCallback);
    } else if host.Err? {
      Stops(env, t, Declares(s), rt, host.why);
    } else if port.Err? {
      Stops(env, t, Declares(s), rt, port.why);
    } else {
      var protos := if |s.protocols| == 0 then DEFAULT_PROTOS else s.protocols;
      var q := EnumProbe(env, rt, s);
      PeelAllSound(env, t, rt, q, protos, Peeled([], []));
      var (rt1, acc, o) := PeelAll(env, rt, q, protos, Peeled([], []));
      if o.Failed? {
        Stops(env, t, Declares(s), rt1, TlsBudget);
      } else {
        BindTwo(env, t, rt1, acc.protos, acc.ciphers);
      }
    }
  }

  // ----- programs -----

  lemma {:induction false} PlainSound(env: Env, t: seq<Entry>, rt: Rt, s: Step)
    requires TableOk(t) && Good(env, t, rt, Done) && !s.If? && StepOk(s, t)
    ensures var (r, o) := DoPlain(env, rt, s); Good(env, t + Declares(s), r, o)
  {
    match s
    case Connect(_, _, _, _, _) => ConnectSound(env, t, rt, s);
    case Send(_, _) => SendSound(env, t, rt, s);
    case Recv(_, _, _, _) => RecvSound(env, t, rt, s);
    case Close(_) => CloseSound(env, t, rt, s);
    case MatchAny(_, _, _) => MatchAnySound(env, t, rt, s);
    case MatchIn(_, _, _) => MatchInSound(env, t, rt, s);
    case Emit(_, _, _, _, _) => EmitSound(env, t, rt, s);
    case TlsUpgrade(_, _, _, _) => TlsUpgradeSound(env, t, rt, s);
    case TlsEnum(_, _, _, _, _) => TlsEnumSound(env, t, rt, s);
  }

  lemma CondStops(env: Env, t: seq<Entry>, rt: Rt, c: Cond)
    ensures Taken(env, rt, c).Err? ==> ReasonOk(t, rt, Taken(env, rt, c).why)
  {
  }

  lemma {:induction false} SkipSound(env: Env, t: seq<Entry>, rt: Rt, body: seq<Step>)
    requires Good(env, t, rt, Done)
    ensures Good(env, t + DeclaresAll(body), rt.(skipped := rt.skipped + Names(DeclaresAll(body))), Done)
  {
    Widen(env, t, DeclaresAll(body), rt);
  }

  lemma {:induction false} StepSound(env: Env, t: seq<Entry>, rt: Rt, s: Step)
    requires TableOk(t) && Good(env, t, rt, Done) && StepOk(s, t)
    ensures var (r, o) := DoStep(env, rt, s); Good(env, t + Declares(s), r, o)
    decreases s, 0
  {
    if !s.If? {
      PlainSound(env, t, rt, s);
    } else {
      CondStops(env, t, rt, s.cond);
      var taken := Taken(env, rt, s.cond);
      if taken.Err? {
        Stops(env, t, Declares(s), rt, taken.why);
      } else if taken.value {
        StepsSound(env, t, rt, s.body);
      } else {
        SkipSound(env, t, rt, s.body);
      }
    }
  }

  /** Soundness of accepted programs, on every backend and from every sound state. */
  lemma {:induction false} StepsSound(env: Env, t: seq<Entry>, rt: Rt, ss: seq<Step>)
    requires TableOk(t) && Good(env, t, rt, Done) && StepsOk(ss, t)
    ensures var (r, o) := DoSteps(env, rt, ss); Good(env, t + DeclaresAll(ss), r, o)
    decreases ss, 1
  {
    if |ss| == 0 {
      assert t + DeclaresAll(ss) == t;
    } else {
      var (rt1, o1) := BudgetStep(env, rt);
      var t1 := t + Declares(ss[0]);
      Concat3(t, Declares(ss[0]), DeclaresAll(ss[1..]));
      if o1.Failed? {
        Stops(env, t, DeclaresAll(ss), rt1, o1.why);
      } else {
        StepSound(env, t, rt1, ss[0]);
        StepKeepsTable(ss[0], t);
        var (rt2, o2) := DoStep(env, rt1, ss[0]);
        if o2.Failed? {
          Stops(env, t1, DeclaresAll(ss[1..]), rt2, o2.why);
        } else {
          StepsSound(env, t1, rt2, ss[1..]);
        }
      }
    }
  }

  // ----- the end of a run -----

  lemma {:induction false} HeldFront(bs: seq<Binding>, fd: int)
    requires |bs| > 0
    ensures Held(bs, fd) == Held(bs[1..], fd) + if bs[0].val == Conn(fd) then 1 else 0
  {
    if |bs| > 1 {
      var n := |bs| - 1;
      HeldFront(bs[..n], fd);
      assert bs[..n][1..] == bs[1..][..n - 1];
    }
  }

  /** The final sweep closes each handle that is still held, once. */
  lemma {:induction false} CloseAllBalances(trace: seq<Event>, bs: seq<Binding>)
    requires UsesOk(trace) && Balanced(trace, bs)
    ensures UsesOk(CloseAll(trace, bs)) && Balanced(CloseAll(trace, bs), [])
    ensures forall fd :: Opens(CloseAll(trace, bs), fd) == Opens(trace, fd)
    decreases |bs|
  {
    if |bs| > 0 {
      var open := bs[0].val.Conn? && bs[0].val.fd >= 0;
      var e := Closed(if open then bs[0].val.fd else -1);
      var next := if open then trace + [e] else trace;
      forall fd ensures && Held(bs, fd) == Held(bs[1..], fd) + (if bs[0].val == Conn(fd) then 1 else 0)
                        && Opens(trace + [e], fd) == Opens(trace, fd)
                        && Closes(trace + [e], fd) == Closes(trace, fd) + (if e.fd == fd then 1 else 0) {
        HeldFront(bs, fd);
        Snoc(trace, e, fd);
      }
      assert (trace + [e])[..|trace|] == trace;
      CloseAllBalances(next, bs[1..]);
    }
  }

  lemma {:induction false} CloseAllShakesNothing(trace: seq<Event>, bs: seq<Binding>)
    ensures Handshakes(CloseAll(trace, bs)) == Handshakes(trace)
    decreases |bs|
  {
    if |bs| > 0 {
      var e := Closed(if bs[0].val.Conn? then bs[0].val.fd else -1);
      Snoc(trace, e, 0);
      CloseAllShakesNothing(if bs[0].val.Conn? && bs[0].val.fd >= 0 then trace + [e] else trace, bs[1..]);
    }
  }

  lemma StartGood(env: Env)
    ensures Good(env, [], START, Done)
  {
  }

  lemma {:induction false} RunGood(env: Env, ss: seq<Step>)
    requires StepsOk(ss, [])
    ensures var (r, o) := DoSteps(env, START, ss); Good(env, DeclaresAll(ss), r, o)
  {
    assert [] + DeclaresAll(ss) == DeclaresAll(ss);
    StartGood(env);
    StepsSound(env, [], START, ss);
  }

  /** Type soundness: on every backend, an accepted recipe leaves a runtime table that is part
      of the static table, in its order, with distinct names and the declared types and at most
      64 entries. It never stops for a full table, a wrongly typed binding, a lone dollar sign or
      an over-long name, and an unbound connection is one declared in a branch not taken. */
  lemma {:induction false} RecipeSoundness(env: Env, ss: seq<Step>)
    requires StepsOk(ss, [])
    ensures var (r, o) := Run(env, ss);
            && Subseq(Sig(r.bs), DeclaresAll(ss))
            && DistinctNames(Sig(r.bs)) && |r.bs| <= BINDINGS_MAX
            && (o.Failed? ==> ReasonOk(DeclaresAll(ss), r, o.why))
            && (o.Done? ==> ConnsBound(DeclaresAll(ss), r))
  {
    var t := DeclaresAll(ss);
    assert [] + t == t;
    RunGood(env, ss);
    StepsKeepTable(ss, []);
    var (r, o) := DoSteps(env, START, ss);
    SubseqDistinct(Sig(r.bs), t);
    SubseqMembers(Sig(r.bs), t);
  }

  /** Connection conservation: with a backend that can close connections, every handle opened
      during a run of an accepted recipe has been closed exactly as often as it was opened when
      the run returns, however it ends, and is used only while it is open. */
  lemma {:induction false} HandlesConserved(env: Env, ss: seq<Step>)
    requires StepsOk(ss, []) && env.io.hasClose
    ensures var (r, o) := Run(env, ss);
            && (forall fd | fd >= 0 :: Opens(r.trace, fd) == Closes(r.trace, fd))
            && UsesOk(r.trace)
  {
    RunGood(env, ss);
    var (r, o) := DoSteps(env, START, ss);
    CloseAllBalances(r.trace, r.bs);
  }

  /** Budgets: whatever the backend does, an accepted recipe executes at most `maxSteps` steps,
      keeps at most `maxRecvBytes` received bytes and attempts at most `maxTlsProbes` handshakes.
      (That every run ends is the termination of `Run`; the peeling loop ends because each of its
      rounds takes one handshake from the budget.) */
  lemma {:induction false} BudgetsKept(env: Env, ss: seq<Step>)
    requires StepsOk(ss, [])
    ensures var (r, o) := Run(env, ss);
            && Executed(r, o) <= NonNeg(env.budgets.maxSteps)
            && 0 <= r.recvBytes <= NonNeg(env.budgets.maxRecvBytes)
            && Handshakes(r.trace) <= NonNeg(env.budgets.maxTlsProbes)
  {
    RunGood(env, ss);
    var (r, o) := DoSteps(env, START, ss);
    CloseAllShakesNothing(r.trace, r.bs);
  }
}
