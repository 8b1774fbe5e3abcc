/** Recipe programs and their static checker.

    The checker walks the steps in order and keeps one table of declared bindings. The table is
    not scoped: what a conditional branch declares stays declared after it. */
module RecipeCheck {
  import opened Sequences
  import opened JsonTree
  import opened RecipeTemplate

  datatype Until = Newline | NBytes(n: int) | UntilRegex

  datatype Payload = Template(text: string) | Raw(bytes: string)

  /** A capture of a match: its name, and whether it is read as an integer. */
  datatype Capture = Capture(name: string, isInt: bool)

  datatype Field = Field(key: string, value: string, as_: Ty)

  datatype Cond =
    | Exists(binding: string)
    | Equals(binding: string, literal: string)
    | Matches(binding: string, regex: string)
    | AnyMatches(list: string, regex: string)
    | AnyIn(list: string, members: seq<string>)

  datatype Step =
    | Connect(udp: bool, host: string, port: string, timeout: int, out: string)
    | Send(conn: string, payload: Payload)
    | Recv(conn: string, until: Until, maxBytes: int, out: string)
    | Close(conn: string)
    | MatchAny(list: string, regex: string, hit: Option<string>)
    | MatchIn(input: string, regex: string, captures: seq<Capture>)
    | Emit(kind: string, severity: string, confidence: string, title: string, fields: seq<Field>)
    | If(cond: Cond, body: seq<Step>)
    | TlsUpgrade(conn: string, sni: string, alpn: seq<string>, timeout: int)
    | TlsEnum(host: string, port: string, protocols: seq<string>, starttls: Option<string>, timeout: int)

  // ----- what a step declares -----

  const TLS_FACTS: nat := 14

  /** The names under which the facts of an upgraded session are bound, in order. */
  function FactName(i: nat): (s: string) {
    match i
    case 0 => "tls_version"
    case 1 => "tls_cipher"
    case 2 => "tls_ja4"
    case 3 => "tls_ja4s"
    case 4 => "tls_ja4x"
    case 5 => "cert_subject_cn"
    case 6 => "cert_issuer_cn"
    case 7 => "cert_not_after"
    case 8 => "cert_sig_alg"
    case 9 => "cert_key_type"
    case 10 => "cert_san"
    case 11 => "cert_self_signed"
    case 12 => "cert_days_to_expiry"
    case _ => "cert_key_bits"
  }

  function TlsFacts(): (es: seq<Entry>)
    ensures |es| == TLS_FACTS
    ensures forall i | 0 <= i < TLS_FACTS :: es[i] == Entry(FactName(i), if i < 12 then TString else TInt)
  {
    seq(TLS_FACTS, i requires 0 <= i < TLS_FACTS => Entry(FactName(i), if i < 12 then TString else TInt))
  }

  const ENUM_LISTS: seq<Entry> :=
    [Entry("tls_accepted_protocols", TList), Entry("tls_accepted_ciphers", TList)]

  function CaptureEntry(c: Capture): (e: Entry) {
    Entry(c.name, if c.isInt then TInt else TString)
  }

  function CaptureEntries(cs: seq<Capture>): (es: seq<Entry>)
    ensures |es| == |cs| && forall i | 0 <= i < |cs| :: es[i] == CaptureEntry(cs[i])
  {
    seq(|cs|, i requires 0 <= i < |cs| => CaptureEntry(cs[i]))
  }

  function Declares(s: Step): (es: seq<Entry>)
    decreases s, 0
  {
    match s
    case Connect(_, _, _, _, out) => [Entry(out, TConn)]
    case Recv(_, _, _, out) => [Entry(out, TBytes)]
    case MatchAny(_, _, hit) => if hit.Some? then [Entry(hit.value, TString)] else []
    case MatchIn(_, _, cs) => CaptureEntries(cs)
    case If(_, body) => DeclaresAll(body)
    case TlsUpgrade(_, _, _, _) => TlsFacts()
    case TlsEnum(_, _, _, _, _) => ENUM_LISTS
    case _ => []
  }

  function DeclaresAll(ss: seq<Step>): (es: seq<Entry>)
    decreases ss, 1
  {
    if |ss| == 0 then [] else Declares(ss[0]) + DeclaresAll(ss[1..])
  }

  // ----- when a step is accepted -----

  predicate IsConn(t: seq<Entry>, name: string) {
    TypeIn(t, name) == Some(TConn)
  }

  predicate FieldsOk(fs: seq<Field>, t: seq<Entry>) {
    |fs| > 0 ==> TemplateOk(fs[0].value, t) && FieldsOk(fs[1..], t)
  }

  predicate CondOk(c: Cond, t: seq<Entry>) {
    match c
    case Exists(b) => TypeIn(t, b).Some?
    case Equals(b, _) => TypeIn(t, b).Some?
    case Matches(b, _) => TypeIn(t, b).Some?
    case AnyMatches(l, _) => TypeIn(t, l) == Some(TList)
    case AnyIn(l, _) => TypeIn(t, l) == Some(TList)
  }

  /** The references of a step are declared, with the types they are used at. */
  predicate RefsOk(s: Step, t: seq<Entry>) {
    match s
    case Connect(_, host, port, _, _) => TemplateOk(host, t) && TemplateOk(port, t)
    case Send(conn, payload) => IsConn(t, conn) && (payload.Template? ==> TemplateOk(payload.text, t))
    case Recv(conn, _, _, _) => IsConn(t, conn)
    case Close(conn) => IsConn(t, conn)
    case MatchAny(list, _, _) => TypeIn(t, list) == Some(TList)
    case MatchIn(input, _, _) => TypeIn(t, input) == Some(TBytes) || TypeIn(t, input) == Some(TString)
    case Emit(_, _, _, title, fields) => TemplateOk(title, t) && FieldsOk(fields, t)
    case If(cond, _) => CondOk(cond, t)
    case TlsUpgrade(conn, sni, _, _) => IsConn(t, conn) && TemplateOk(sni, t)
    case TlsEnum(host, port, _, _, _) => TemplateOk(host, t) && TemplateOk(port, t)
  }

  /** The entries can be added one after the other: names new each time, table not full. */
  predicate CanDeclare(t: seq<Entry>, es: seq<Entry>)
    decreases |es|
  {
    |es| > 0 ==> TypeIn(t, es[0].name).None? && |t| < BINDINGS_MAX && CanDeclare(t + [es[0]], es[1..])
  }

  predicate StepOk(s: Step, t: seq<Entry>)
    decreases s, 0
  {
    RefsOk(s, t) && if s.If? then StepsOk(s.body, t) else CanDeclare(t, Declares(s))
  }

  predicate StepsOk(ss: seq<Step>, t: seq<Entry>)
    decreases ss, 1
  {
    |ss| > 0 ==> StepOk(ss[0], t) && StepsOk(ss[1..], t + Declares(ss[0]))
  }

  // ----- the table stays small and free of duplicates -----

  ghost predicate TableOk(t: seq<Entry>) {
    && |t| <= BINDINGS_MAX
    && forall i, j | 0 <= i < j < |t| :: t[i].name != t[j].name
  }

  lemma {:induction false} DeclareKeeps(t: seq<Entry>, es: seq<Entry>)
    requires TableOk(t) && CanDeclare(t, es)
    ensures TableOk(t + es)
    decreases |es|
  {
    if |es| == 0 {
      assert t + es == t;
    } else {
      DeclareKeeps(t + [es[0]], es[1..]);
      assert t + [es[0]] + es[1..] == t + es;
    }
  }

  lemma {:induction false} StepKeepsTable(s: Step, t: seq<Entry>)
    requires TableOk(t) && StepOk(s, t)
    ensures TableOk(t + Declares(s))
    decreases s, 0
  {
    if s.If? {
      StepsKeepTable(s.body, t);
    } else {
      DeclareKeeps(t, Declares(s));
    }
  }

  /** Every accepted program leaves a table of at most 64 distinct names. */
  lemma {:induction false} StepsKeepTable(ss: seq<Step>, t: seq<Entry>)
    requires TableOk(t) && StepsOk(ss, t)
    ensures TableOk(t + DeclaresAll(ss))
    decreases ss, 1
  {
    if |ss| == 0 {
      assert t + DeclaresAll(ss) == t;
    } else {
      StepKeepsTable(ss[0], t);
      StepsKeepTable(ss[1..], t + Declares(ss[0]));
      assert t + Declares(ss[0]) + DeclaresAll(ss[1..]) == t + DeclaresAll(ss);
    }
  }

  // ----- the checker's table, updated in place -----

  class BindingTable {
    const e: array<Entry>
    var n: nat

    ghost predicate Valid()
      reads this`n
    {
      e.Length == BINDINGS_MAX && n <= BINDINGS_MAX
    }

    ghost function Entries(): (t: seq<Entry>)
      requires Valid()
      reads this`n, e
    {
      e[..n]
    }

    constructor ()
      ensures Valid() && fresh(e) && Entries() == []
    {
      e := new Entry[BINDINGS_MAX](_ => Entry("", TBool));
      n := 0;
    }

    /** Adds a binding; refuses a name that is taken and a full table. */
    method Declare(name: string, ty: Ty) returns (ok: bool)
      requires Valid()
      modifies this`n, e
      ensures Valid()
      ensures ok == (TypeIn(old(Entries()), name).None? && old(n) < BINDINGS_MAX)
      ensures Entries() == if ok then old(Entries()) + [Entry(name, ty)] else old(Entries())
    {
      var i := 0;
      while i < n
        invariant 0 <= i <= n && forall j | 0 <= j < i :: e[j].name != name
      {
        if e[i].name == name {
          assert Entries()[i].name == name;
          return false;
        }
        i := i + 1;
      }
      assert forall j | 0 <= j < n :: Entries()[j].name != name;
      if n >= BINDINGS_MAX {
        return false;
      }
      e[n] := Entry(name, ty);
      n := n + 1;
      return true;
    }

    method DeclareAll(es: seq<Entry>) returns (ok: bool)
      requires Valid()
      modifies this`n, e
      ensures Valid() && ok == CanDeclare(old(Entries()), es)
      ensures ok ==> Entries() == old(Entries()) + es
    {
      var i := 0;
      assert es[0..] == es && old(Entries()) + es[..0] == old(Entries());
      while i < |es|
        invariant 0 <= i <= |es| && Valid() && Entries() == old(Entries()) + es[..i]
        invariant CanDeclare(old(Entries()), es) == CanDeclare(Entries(), es[i..])
      {
        ok := Declare(es[i].name, es[i].ty);
        if !ok {
          return;
        }
        assert es[i..][0] == es[i] && es[i..][1..] == es[i + 1..];
        assert es[..i + 1] == es[..i] + [es[i]];
        i := i + 1;
      }
      assert es[..|es|] == es;
      return true;
    }

    method CheckRefs(s: Step) returns (ok: bool)
      requires Valid()
      ensures ok == RefsOk(s, Entries())
    {
      var t := e[..n];
      match s
      case Connect(_, host, port, _, _) =>
        ok := ValidateRefs(host, t);
        if ok {
          ok := ValidateRefs(port, t);
        }
      case Send(conn, payload) =>
        ok := TypeIn(t, conn) == Some(TConn);
        if ok && payload.Template? {
          ok := ValidateRefs(payload.text, t);
        }
      case Emit(_, _, _, title, fields) =>
        ok := ValidateRefs(title, t);
        if ok {
          ok := CheckFields(fields, t);
        }
      case TlsUpgrade(conn, sni, _, _) =>
        ok := TypeIn(t, conn) == Some(TConn);
        if ok {
          ok := ValidateRefs(sni, t);
        }
      case TlsEnum(host, port, _, _, _) =>
        ok := ValidateRefs(host, t);
        if ok {
          ok := ValidateRefs(port, t);
        }
      case _ => ok := RefsOk(s, t);
    }

    /** Checks one step and records what it declares. */
    method CheckStep(s: Step) returns (ok: bool)
      requires Valid()
      modifies this`n, e
      ensures Valid() && ok == StepOk(s, old(Entries()))
      ensures ok ==> Entries() == old(Entries()) + Declares(s)
      decreases s, 0
    {
      ok := CheckRefs(s);
      if ok {
        if s.If? {
          ok := CheckSteps(s.body);
        } else {
          ok := DeclareAll(Declares(s));
        }
      }
    }

    /** Accepts exactly the well-typed programs. */
    method CheckSteps(ss: seq<Step>) returns (ok: bool)
      requires Valid()
      modifies this`n, e
      ensures Valid() && ok == StepsOk(ss, old(Entries()))
      ensures ok ==> Entries() == old(Entries()) + DeclaresAll(ss)
      decreases ss, 1
    {
      if |ss| == 0 {
        return true;
      }
      ok := CheckStep(ss[0]);
      if ok {
        ok := CheckSteps(ss[1..]);
        Concat3(old(Entries()), Declares(ss[0]), DeclaresAll(ss[1..]));
      }
    }
  }

  method CheckFields(fs: seq<Field>, t: seq<Entry>) returns (ok: bool)
    ensures ok == FieldsOk(fs, t)
  {
    var p := fs;
    while |p| > 0
      invariant FieldsOk(fs, t) == FieldsOk(p, t)
      decreases |p|
    {
      ok := ValidateRefs(p[0].value, t);
      if !ok {
        return;
      }
      p := p[1..];
    }
    return true;
  }
}
