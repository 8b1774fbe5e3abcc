/** Binding tables and templates of recipes.

    A template is literal text with `$name`, `$target.host` and `$target.port` references and
    `$$` for a dollar sign. It is validated against the static binding table when a recipe is
    parsed, and expanded against the runtime table when it runs. */
module RecipeTemplate {
  import opened JsonTree

  const BINDINGS_MAX: nat := 64
  const NAME_CAP: nat := 64

  /** The static type of a binding. */
  datatype Ty = TConn | TBytes | TString | TInt | TBool | TList

  /** An entry of the static table: a name and its type. */
  datatype Entry = Entry(name: string, ty: Ty)

  /** The runtime value of a binding; a connection is the backend's handle, -1 once closed. */
  datatype Val =
    | Conn(fd: int)
    | Bytes(b: string)
    | Text(s: string)
    | Number(n: int)
    | Flag(v: bool)
    | Strings(items: seq<string>)

  datatype Binding = Binding(name: string, val: Val)

  datatype Target = Target(host: string, port: int)

  function TypeOf(v: Val): (t: Ty) {
    match v
    case Conn(_) => TConn
    case Bytes(_) => TBytes
    case Text(_) => TString
    case Number(_) => TInt
    case Flag(_) => TBool
    case Strings(_) => TList
  }

  // ----- lookup in both tables -----

  function TypeIn(t: seq<Entry>, name: string): (r: Option<Ty>)
    ensures r.Some? ==> Entry(name, r.value) in t
    ensures r.None? <==> forall i | 0 <= i < |t| :: t[i].name != name
  {
    if |t| == 0 then None else if t[0].name == name then Some(t[0].ty) else TypeIn(t[1..], name)
  }

  function IndexOf(bs: seq<Binding>, name: string): (i: nat)
    ensures i <= |bs|
    ensures i < |bs| ==> bs[i].name == name
    ensures forall j | 0 <= j < i :: bs[j].name != name
  {
    if |bs| == 0 || bs[0].name == name then 0 else 1 + IndexOf(bs[1..], name)
  }

  function ValueOf(bs: seq<Binding>, name: string): (r: Option<Val>)
    ensures r.Some? ==> Binding(name, r.value) in bs
    ensures r.None? <==> forall i | 0 <= i < |bs| :: bs[i].name != name
  {
    var i := IndexOf(bs, name);
    if i < |bs| then Some(bs[i].val) else None
  }

  // ----- pieces of a template -----

  datatype Piece = Lit(c: char) | TargetHost | TargetPort | Ref(name: string)

  predicate NameChar(c: char) {
    IdentChar(c)
  }

  function NameRun(text: string): (n: nat)
    ensures n <= |text|
    ensures forall i | 0 <= i < n :: NameChar(text[i])
    ensures n < |text| ==> !NameChar(text[n])
  {
    if text != "" && NameChar(text[0]) then 1 + NameRun(text[1..]) else 0
  }

  const HOST: string := "target.host"
  const PORT: string := "target.port"

  /** The piece at the start of a text and its length. */
  function FirstPiece(text: string): (r: (Piece, nat))
    requires text != ""
    ensures 0 < r.1 <= |text|
  {
    if text[0] != '$' then (Lit(text[0]), 1)
    else if |text| > 1 && text[1] == '$' then (Lit('$'), 2)
    else if HOST <= text[1..] then (TargetHost, 12)
    else if PORT <= text[1..] then (TargetPort, 12)
    else
      var n := NameRun(text[1..]);
      (Ref(text[1..][..n]), 1 + n)
  }

  function Pieces(text: string): (ps: seq<Piece>) {
    if text == "" then [] else [FirstPiece(text).0] + Pieces(text[FirstPiece(text).1..])
  }

  // ----- the validator -----

  predicate PieceOk(p: Piece, t: seq<Entry>) {
    p.Ref? ==> 0 < |p.name| < NAME_CAP && TypeIn(t, p.name).Some?
  }

  predicate PiecesOk(ps: seq<Piece>, t: seq<Entry>) {
    |ps| > 0 ==> PieceOk(ps[0], t) && PiecesOk(ps[1..], t)
  }

  /** Every reference names a declared binding. */
  predicate TemplateOk(text: string, t: seq<Entry>) {
    PiecesOk(Pieces(text), t)
  }

  lemma PiecesStep(here: string, rest: string)
    requires here != "" && rest == here[FirstPiece(here).1..]
    ensures Pieces(here) == [FirstPiece(here).0] + Pieces(rest)
    ensures |Pieces(here)| > 0 && Pieces(here)[0] == FirstPiece(here).0 && Pieces(here)[1..] == Pieces(rest)
  {
  }

  /** The scan over the references of a template; `p` is the text still to be scanned. */
  method ValidateRefs(text: string, t: seq<Entry>) returns (ok: bool)
    ensures ok == TemplateOk(text, t)
  {
    var p := text;
    while p != ""
      invariant TemplateOk(text, t) == TemplateOk(p, t)
      decreases |p|
    {
      PiecesStep(p, p[FirstPiece(p).1..]);
      if p[0] != '$' {
        p := p[1..];
      } else if |p| > 1 && p[1] == '$' {
        p := p[2..];
      } else if HOST <= p[1..] || PORT <= p[1..] {
        p := p[12..];
      } else {
        var n := ScanName(p[1..]);
        if n == 0 || n >= NAME_CAP || TypeIn(t, p[1..][..n]).None? {
          return false;
        }
        p := p[1 + n..];
      }
    }
    return true;
  }

  method ScanName(text: string) returns (n: nat)
    ensures n == NameRun(text)
  {
    n := 0;
    while n < |text| && NameChar(text[n])
      invariant n <= |text| && NameRun(text) == n + NameRun(text[n..])
    {
      n := n + 1;
    }
  }

  // ----- the expander -----

  datatype Reason =
    | LoneDollar | NameTooLong | TableOverflow | WrongType(name: string)
    | Unbound(name: string) | UnboundConn(name: string) | NonStringable(name: string)
    | NotAnInteger | NotABoolean | EvidenceOverflow
    | StepBudget | TimeBudget | TlsBudget | RecvBudget | RecvRange | PortRange
    | NoCallback | ConnectFailed | SendFailed | RecvFailed | SessionFailed
    | BadRegex | UnsetCapture | CaptureTooLong

  datatype Result<+T> = Ok(value: T) | Err(why: Reason)

  /** A C string ends at the first NUL. */
  function CString(s: string): (r: string) {
    if s == "" || s[0] == '\0' then "" else [s[0]] + CString(s[1..])
  }

  function Joined(items: seq<string>): (r: string) {
    if |items| == 0 then "" else if |items| == 1 then items[0] else items[0] + "," + Joined(items[1..])
  }

  /** The text of a binding's value; a connection has none. */
  function RenderVal(v: Val): (r: Option<string>)
    ensures r.None? <==> v.Conn?
  {
    match v
    case Conn(_) => None
    case Bytes(b) => Some(CString(b))
    case Text(s) => Some(s)
    case Number(n) => Some(Decimal(n))
    case Flag(b) => Some(if b then "true" else "false")
    case Strings(items) => Some(Joined(items))
  }

  function RenderPiece(p: Piece, bs: seq<Binding>, tgt: Target): (r: Result<string>) {
    match p
    case Lit(c) => Ok([c])
    case TargetHost => Ok(tgt.host)
    case TargetPort => Ok(Decimal(tgt.port))
    case Ref(name) =>
      if name == "" then Err(LoneDollar)
      else if |name| >= NAME_CAP then Err(NameTooLong)
      else
        var v := ValueOf(bs, name);
        if v.None? then Err(Unbound(name))
        else
          var s := RenderVal(v.value);
          if s.None? then Err(NonStringable(name)) else Ok(s.value)
  }

  function RenderPieces(ps: seq<Piece>, bs: seq<Binding>, tgt: Target): (r: Result<string>) {
    if |ps| == 0 then Ok("")
    else
      var a := RenderPiece(ps[0], bs, tgt);
      if a.Err? then a
      else
        var rest := RenderPieces(ps[1..], bs, tgt);
        if rest.Err? then rest else Ok(a.value + rest.value)
  }

  function Expand(text: string, bs: seq<Binding>, tgt: Target): (r: Result<string>) {
    RenderPieces(Pieces(text), bs, tgt)
  }

  function Append(a: string, r: Result<string>): (q: Result<string>) {
    if r.Err? then r else Ok(a + r.value)
  }

  lemma {:induction false} RenderStep(done: string, ps: seq<Piece>, bs: seq<Binding>, tgt: Target)
    requires |ps| > 0
    ensures Append(done, RenderPieces(ps, bs, tgt)) ==
            match RenderPiece(ps[0], bs, tgt)
            case Err(why) => Err(why)
            case Ok(s) => Append(done + s, RenderPieces(ps[1..], bs, tgt))
  {
    var a, rest := RenderPiece(ps[0], bs, tgt), RenderPieces(ps[1..], bs, tgt);
    if a.Ok? && rest.Ok? {
      assert done + (a.value + rest.value) == done + a.value + rest.value;
    }
  }

  lemma {:induction false} NoDollarExpands(text: string, bs: seq<Binding>, tgt: Target)
    requires forall i | 0 <= i < |text| :: text[i] != '$'
    ensures Expand(text, bs, tgt) == Ok(text)
  {
    if text != "" {
      NoDollarExpands(text[1..], bs, tgt);
      assert Pieces(text)[1..] == Pieces(text[1..]);
      assert [text[0]] + text[1..] == text;
    }
  }

  /** The expansion loop, with its own splitting of references. */
  method ExpandTemplate(text: string, bs: seq<Binding>, tgt: Target) returns (r: Result<string>)
    ensures r == Expand(text, bs, tgt)
  {
    if '$' !in text {
      NoDollarExpands(text, bs, tgt);
      return Ok(text);
    }
    var out, p := "", text;
    assert Expand(text, bs, tgt).Ok? ==> "" + Expand(text, bs, tgt).value == Expand(text, bs, tgt).value;
    while p != ""
      invariant Expand(text, bs, tgt) == Append(out, Expand(p, bs, tgt))
      decreases |p|
    {
      PiecesStep(p, p[FirstPiece(p).1..]);
      RenderStep(out, Pieces(p), bs, tgt);
      if p[0] != '$' {
        out, p := out + [p[0]], p[1..];
      } else if |p| > 1 && p[1] == '$' {
        out, p := out + "$", p[2..];
      } else if HOST <= p[1..] {
        out, p := out + tgt.host, p[12..];
      } else if PORT <= p[1..] {
        out, p := out + Decimal(tgt.port), p[12..];
      } else {
        var n := ScanName(p[1..]);
        var s := RenderPiece(Ref(p[1..][..n]), bs, tgt);
        if s.Err? {
          return s;
        }
        out, p := out + s.value, p[1 + n..];
      }
    }
    assert out + "" == out;
    return Ok(out);
  }

  // ----- validator and expander agree -----

  /** A reference of the template has no text: unbound, or bound to a connection. */
  predicate Stuck(p: Piece, bs: seq<Binding>) {
    p.Ref? && (ValueOf(bs, p.name).None? || ValueOf(bs, p.name).value.Conn?)
  }

  function Rendered(ps: seq<Piece>, bs: seq<Binding>, tgt: Target): (r: string)
    requires forall p | p in ps :: !Stuck(p, bs)
  {
    if |ps| == 0 then ""
    else
      assert !Stuck(ps[0], bs) by { assert ps[0] in ps; }
      (match ps[0]
       case Lit(c) => [c]
       case TargetHost => tgt.host
       case TargetPort => Decimal(tgt.port)
       case Ref(name) => RenderVal(ValueOf(bs, name).value).value) + Rendered(ps[1..], bs, tgt)
  }

  lemma {:induction false} PiecesAgree(ps: seq<Piece>, t: seq<Entry>, bs: seq<Binding>, tgt: Target)
    requires PiecesOk(ps, t)
    ensures RenderPieces(ps, bs, tgt).Err? <==> exists p | p in ps :: Stuck(p, bs)
    ensures RenderPieces(ps, bs, tgt).Ok? ==> RenderPieces(ps, bs, tgt).value == Rendered(ps, bs, tgt)
    ensures RenderPieces(ps, bs, tgt).Err? ==>
              var why := RenderPieces(ps, bs, tgt).why;
              || (why.Unbound? && ValueOf(bs, why.name).None? && TypeIn(t, why.name).Some?)
              || (why.NonStringable? && ValueOf(bs, why.name).Some? && ValueOf(bs, why.name).value.Conn?)
  {
    if |ps| > 0 {
      assert ps[0] in ps;
      assert forall p | p in ps[1..] :: p in ps;
      assert forall p | p in ps :: p == ps[0] || p in ps[1..];
      PiecesAgree(ps[1..], t, bs, tgt);
    }
  }

  /** A template accepted at parse time expands, at run time, exactly when each of its
      references is bound to something other than a connection; then the result is the
      concatenation of its literal text and the rendered values. It never fails for a lone
      dollar sign or an over-long name. */
  lemma {:induction false} TemplatesAgree(text: string, t: seq<Entry>, bs: seq<Binding>, tgt: Target)
    requires TemplateOk(text, t)
    ensures Expand(text, bs, tgt).Err? <==> exists p | p in Pieces(text) :: Stuck(p, bs)
    ensures Expand(text, bs, tgt).Ok? ==> Expand(text, bs, tgt).value == Rendered(Pieces(text), bs, tgt)
    ensures Expand(text, bs, tgt).Err? ==>
              var why := Expand(text, bs, tgt).why;
              || (why.Unbound? && ValueOf(bs, why.name).None? && TypeIn(t, why.name).Some?)
              || (why.NonStringable? && ValueOf(bs, why.name).Some? && ValueOf(bs, why.name).value.Conn?)
  {
    PiecesAgree(Pieces(text), t, bs, tgt);
  }
}
