/** The documents the streaming JSON writer can emit, and their text.

    A document is a tree; `Render` gives the exact characters the writer produces for it
    (no blanks, members separated by commas, strings escaped by `Escape`).
    `Lookup` is the reference meaning of "the value of a key": the first member with that
    key in document order, at any depth. */
module JsonTree {

  datatype Option<+T> = None | Some(value: T)

  datatype Value =
    | Str(s: string)
    | Int(n: int)
    | Dbl(text: string)
    | Bool(b: bool)
    | Null
    | Obj(members: seq<Member>)
    | Arr(items: seq<Value>)

  datatype Member = Member(key: string, value: Value)

  // ----- text -----

  function HexDigit(d: nat): (c: char)
    requires d < 16
    ensures c != '"' && c != '\\' && c >= ' '
  {
    "0123456789abcdef"[d]
  }

  function EscapeChar(c: char): (r: string)
    ensures |r| > 0 && r[0] != '"'
    ensures forall i | 0 <= i < |r| :: r[i] >= ' ' && (r[i] == '"' ==> i == 1 && r[0] == '\\')
  {
    if c == '"' then "\\\""
    else if c == '\\' then "\\\\"
    else if c == '\n' then "\\n"
    else if c == '\t' then "\\t"
    else if c == '\r' then "\\r"
    else if c < ' ' then "\\u00" + [HexDigit(c as int / 16), HexDigit(c as int % 16)]
    else [c]
  }

  function Escape(s: string): (r: string)
    ensures forall i | 0 <= i < |r| :: r[i] >= ' '
    ensures forall i | 0 <= i < |r| && r[i] == '"' :: i > 0 && r[i - 1] == '\\'
  {
    if s == "" then "" else EscapeChar(s[0]) + Escape(s[1..])
  }

  function Quote(s: string): (r: string) {
    "\"" + Escape(s) + "\""
  }

  /** Decimal digits of a natural number, without leading zeros. */
  function Digits(n: nat): (r: string)
    ensures |r| > 0
    ensures forall i | 0 <= i < |r| :: '0' <= r[i] <= '9'
  {
    if n < 10 then [(n + '0' as int) as char] else Digits(n / 10) + [(n % 10 + '0' as int) as char]
  }

  function Decimal(n: int): (r: string)
    ensures |r| > 0 && forall i | 0 <= i < |r| :: r[i] == '-' || '0' <= r[i] <= '9'
  {
    if n < 0 then "-" + Digits(-n) else Digits(n)
  }

  function Render(v: Value): (r: string)
    decreases v
  {
    match v
    case Str(s) => Quote(s)
    case Int(n) => Decimal(n)
    case Dbl(text) => text
    case Bool(b) => if b then "true" else "false"
    case Null => "null"
    case Obj(ms) => "{" + RenderMembers(ms) + "}"
    case Arr(vs) => "[" + RenderItems(vs) + "]"
  }

  function RenderMember(m: Member): (r: string)
    decreases m
  {
    Quote(m.key) + ":" + Render(m.value)
  }

  /** The members of an object, separated by commas. */
  function RenderMembers(ms: seq<Member>): (r: string)
    decreases ms, 0
  {
    if |ms| == 0 then "" else RenderMember(ms[0]) + RenderMoreMembers(ms[1..])
  }

  /** The members after the first one, with the comma before them. */
  function RenderMoreMembers(ms: seq<Member>): (r: string)
    decreases ms, 1
  {
    if |ms| == 0 then "" else "," + RenderMembers(ms)
  }

  function RenderItems(vs: seq<Value>): (r: string)
    decreases vs, 0
  {
    if |vs| == 0 then "" else Render(vs[0]) + RenderMoreItems(vs[1..])
  }

  function RenderMoreItems(vs: seq<Value>): (r: string)
    decreases vs, 1
  {
    if |vs| == 0 then "" else "," + RenderItems(vs)
  }

  lemma FirstMemberText(ms: seq<Member>, r: string)
    requires |ms| > 0
    ensures RenderMembers(ms) + r ==
            Quote(ms[0].key) + ":" + (Render(ms[0].value) + (RenderMoreMembers(ms[1..]) + r))
  {
  }

  lemma ObjectText(ms: seq<Member>, r: string)
    ensures Render(Obj(ms)) + r == "{" + (RenderMembers(ms) + ("}" + r))
  {
  }

  // ----- well-formed documents -----

  predicate IdentChar(c: char) {
    'a' <= c <= 'z' || 'A' <= c <= 'Z' || '0' <= c <= '9' || c == '_'
  }

  predicate Ident(k: string) {
    |k| > 0 && forall i | 0 <= i < |k| :: IdentChar(k[i])
  }

  /** Characters of a printed floating-point number, including "nan" and "inf". */
  predicate NumeralChar(c: char) {
    'a' <= c <= 'z' || '0' <= c <= '9' || c == '-' || c == '.'
  }

  predicate Wf(v: Value)
    decreases v
  {
    match v
    case Dbl(text) => |text| > 0 && forall i | 0 <= i < |text| :: NumeralChar(text[i])
    case Obj(ms) => WfMembers(ms)
    case Arr(vs) => WfItems(vs)
    case _ => true
  }

  predicate WfMembers(ms: seq<Member>)
    decreases ms
  {
    forall i | 0 <= i < |ms| :: Ident(ms[i].key) && Wf(ms[i].value)
  }

  predicate WfItems(vs: seq<Value>)
    decreases vs
  {
    forall i | 0 <= i < |vs| :: Wf(vs[i])
  }

  // ----- reference lookup -----

  function Lookup(v: Value, k: string): (r: Option<Value>)
    decreases v
  {
    match v
    case Obj(ms) => LookupMembers(ms, k)
    case Arr(vs) => LookupItems(vs, k)
    case _ => None
  }

  function LookupMembers(ms: seq<Member>, k: string): (r: Option<Value>)
    decreases ms
  {
    if |ms| == 0 then None
    else if ms[0].key == k then Some(ms[0].value)
    else
      var inside := Lookup(ms[0].value, k);
      if inside.Some? then inside else LookupMembers(ms[1..], k)
  }

  function LookupItems(vs: seq<Value>, k: string): (r: Option<Value>)
    decreases vs
  {
    if |vs| == 0 then None
    else
      var inside := Lookup(vs[0], k);
      if inside.Some? then inside else LookupItems(vs[1..], k)
  }

  /** Lookup by position: member `i` is the first one that has or contains the key. */
  lemma {:induction false} LookupAt(ms: seq<Member>, i: nat, k: string)
    requires i < |ms|
    requires forall j | 0 <= j < i :: ms[j].key != k && Lookup(ms[j].value, k) == None
    ensures LookupMembers(ms, k) ==
            if ms[i].key == k then Some(ms[i].value)
            else if Lookup(ms[i].value, k).Some? then Lookup(ms[i].value, k)
            else LookupMembers(ms[i + 1..], k)
  {
    if i > 0 {
      LookupAt(ms[1..], i - 1, k);
      assert ms[1..][i - 1 + 1..] == ms[i + 1..];
    }
  }

  lemma {:induction false} LookupHere(ms: seq<Member>, i: nat, k: string)
    requires i < |ms| && ms[i].key == k
    requires forall j | 0 <= j < i :: ms[j].key != k && Lookup(ms[j].value, k) == None
    ensures LookupMembers(ms, k) == Some(ms[i].value)
  {
    LookupAt(ms, i, k);
  }

  lemma {:induction false} LookupAbsent(ms: seq<Member>, k: string)
    requires forall j | 0 <= j < |ms| :: ms[j].key != k && Lookup(ms[j].value, k) == None
    ensures LookupMembers(ms, k) == None
  {
    if |ms| > 0 {
      LookupAbsent(ms[1..], k);
    }
  }
}
