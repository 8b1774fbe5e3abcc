/** The scanner that reads the `type` of a frame without parsing it.

    Strings stand for the unread part of the payload, so that a pointer into the payload is the
    text from there to its end. */
module TypeScanner {
  import opened JsonTree

  // ----- the scanner -----

  predicate IsWs(c: char) {
    c == ' ' || c == '\t' || c == '\n' || c == '\r'
  }

  function SkipWs(s: string): (r: string)
    ensures |r| <= |s| && (r != "" ==> !IsWs(r[0]))
  {
    if s != "" && IsWs(s[0]) then SkipWs(s[1..]) else s
  }

  /** What follows the closing quote; `s` starts after the opening one. */
  function StringEnd(s: string): (r: Option<string>)
    ensures r.Some? ==> |r.value| < |s|
  {
    if s == "" then None
    else if s[0] == '\\' then (if |s| < 2 then None else StringEnd(s[2..]))
    else if s[0] == '"' then Some(s[1..])
    else StringEnd(s[1..])
  }

  /** The raw string before what follows its closing quote. */
  function Raw(s: string, rest: string): (r: string)
    requires |rest| < |s|
  {
    s[..|s| - |rest| - 1]
  }

  function Closing(open: char): (c: char) {
    if open == '{' then '}' else ']'
  }

  /** Walks to where `depth` brackets of one kind are closed, over strings and everything else. */
  function Nested(s: string, open: char, depth: nat): (r: Option<string>)
    ensures r.Some? ==> |r.value| <= |s|
    decreases |s|
  {
    if depth == 0 then Some(s)
    else if s == "" then None
    else if s[0] == '"' then
      var e := StringEnd(s[1..]);
      if e.None? then None else Nested(e.value, open, depth)
    else if s[0] == open then Nested(s[1..], open, depth + 1)
    else if s[0] == Closing(open) then Nested(s[1..], open, depth - 1)
    else Nested(s[1..], open, depth)
  }

  predicate EndsScalar(c: char) {
    c == ',' || c == '}' || IsWs(c)
  }

  function ScalarEnd(s: string): (r: string)
    ensures |r| <= |s|
  {
    if s != "" && !EndsScalar(s[0]) then ScalarEnd(s[1..]) else s
  }

  function SkipValue(s: string): (r: Option<string>)
    ensures r.Some? ==> |r.value| <= |s|
  {
    var p := SkipWs(s);
    if p == "" then None
    else if p[0] == '"' then StringEnd(p[1..])
    else if p[0] == '{' || p[0] == '[' then Nested(p[1..], p[0], 1)
    else Some(ScalarEnd(p))
  }

  const TYPE: string := "type"

  /** From a member on: the value of the first `type`. */
  function Scan(s: string): (r: Option<string>)
    decreases |s|
  {
    var p := SkipWs(s);
    if p == "" || p[0] != '"' then None
    else
      var k := StringEnd(p[1..]);
      if k.None? then None
      else
        var q := SkipWs(k.value);
        if q == "" || q[0] != ':' then None
        else
          var v := SkipWs(q[1..]);
          if v == "" then None
          else if Raw(p[1..], k.value) == TYPE then TypeValue(v)
          else
            var w := SkipValue(v);
            if w.None? then None else Scan(AfterComma(SkipWs(w.value)))
  }

  function TypeValue(v: string): (r: Option<string>) {
    if v == "" || v[0] != '"' then None
    else
      var e := StringEnd(v[1..]);
      if e.None? then None else Some(Raw(v[1..], e.value))
  }

  function AfterComma(s: string): (r: string)
    ensures |r| <= |s|
  {
    if s != "" && s[0] == ',' then s[1..] else s
  }

  function FrameType(payload: string): (r: Option<string>) {
    var p := SkipWs(payload);
    if p == "" || p[0] != '{' then None else Scan(p[1..])
  }

  // ----- its loops -----

  method SkipWsLoop(s: string) returns (p: string)
    ensures p == SkipWs(s)
  {
    p := s;
    while p != "" && IsWs(p[0])
      invariant SkipWs(s) == SkipWs(p)
      decreases |p|
    {
      p := p[1..];
    }
  }

  method SkipStringLoop(s: string) returns (r: Option<string>)
    ensures r == StringEnd(s)
  {
    var p := s;
    while p != ""
      invariant StringEnd(s) == StringEnd(p)
      decreases |p|
    {
      if p[0] == '\\' {
        if |p| < 2 {
          return None;
        }
        p := p[2..];
      } else if p[0] == '"' {
        return Some(p[1..]);
      } else {
        p := p[1..];
      }
    }
    return None;
  }

  method SkipNestedLoop(s: string, open: char) returns (r: Option<string>)
    requires open == '{' || open == '['
    ensures r == Nested(s, open, 1)
  {
    var p, depth := s, 1;
    while p != "" && depth > 0
      invariant Nested(s, open, 1) == Nested(p, open, depth)
      decreases |p|
    {
      if p[0] == '"' {
        var e := SkipStringLoop(p[1..]);
        if e.None? {
          return None;
        }
        p := e.value;
      } else {
        if p[0] == open {
          depth := depth + 1;
        } else if p[0] == Closing(open) {
          depth := depth - 1;
        }
        p := p[1..];
      }
    }
    return if depth == 0 then Some(p) else None;
  }

  method SkipValueLoop(s: string) returns (r: Option<string>)
    ensures r == SkipValue(s)
  {
    var p := SkipWsLoop(s);
    if p == "" {
      return None;
    }
    if p[0] == '"' {
      r := SkipStringLoop(p[1..]);
    } else if p[0] == '{' || p[0] == '[' {
      r := SkipNestedLoop(p[1..], p[0]);
    } else {
      ghost var from := p;
      while p != "" && !EndsScalar(p[0])
        invariant ScalarEnd(from) == ScalarEnd(p)
        decreases |p|
      {
        p := p[1..];
      }
      return Some(p);
    }
  }

  /** At most `cap - 1` characters are kept, and none without room for the terminator. */
  function Kept(r: Option<string>, cap: nat): (k: Option<string>) {
    if cap == 0 || r.None? then None
    else if |r.value| >= cap then Some(r.value[..cap - 1])
    else r
  }

  method ReadType(payload: string, cap: nat) returns (r: Option<string>)
    ensures r == Kept(FrameType(payload), cap)
  {
    if cap == 0 {
      return None;
    }
    var p := SkipWsLoop(payload);
    if p == "" || p[0] != '{' {
      return None;
    }
    p := p[1..];
    while p != ""
      invariant FrameType(payload) == Scan(p)
      decreases |p|
    {
      var m := SkipWsLoop(p);
      if m == "" || m[0] != '"' {
        return None;
      }
      var k := SkipStringLoop(m[1..]);
      if k.None? {
        return None;
      }
      var q := SkipWsLoop(k.value);
      if q == "" || q[0] != ':' {
        return None;
      }
      var v := SkipWsLoop(q[1..]);
      if v == "" {
        return None;
      }
      if Raw(m[1..], k.value) == TYPE {
        if v[0] != '"' {
          return None;
        }
        var e := SkipStringLoop(v[1..]);
        return if e.None? then None else Kept(Some(Raw(v[1..], e.value)), cap);
      }
      var w := SkipValueLoop(v);
      if w.None? {
        return None;
      }
      p := SkipWsLoop(w.value);
      if p != "" && p[0] == ',' {
        p := p[1..];
      }
    }
    return None;
  }

  // ----- JSON texts -----

  /** A JSON text as a tree, with its white space and the raw contents of its strings. */
  datatype Json =
    | Quoted(raw: string)
    | Scalar(text: string)
    | Object(fields: seq<Field>, pad: string)
    | List(items: seq<Item>, pad: string)

  datatype Field = Field(before: string, key: string, mid: string, gap: string, value: Json, after: string)

  datatype Item = Item(before: string, value: Json, after: string)

  predicate Blank(s: string) {
    forall i | 0 <= i < |s| :: IsWs(s[i])
  }

  /** The inside of a quoted string: no bare quote, and no backslash at its end. */
  predicate RawOk(s: string) {
    s == "" ||
    if s[0] == '\\' then |s| >= 2 && RawOk(s[2..]) else s[0] != '"' && RawOk(s[1..])
  }

  predicate PlainChar(c: char) {
    c != '"' && c != '{' && c != '}' && c != '[' && c != ']'
  }

  predicate Plain(s: string) {
    forall i | 0 <= i < |s| :: PlainChar(s[i])
  }

  /** Numbers and the three literals are such texts. */
  predicate ScalarOk(s: string) {
    s != "" && Plain(s) && forall i | 0 <= i < |s| :: !EndsScalar(s[i])
  }

  predicate Wf(t: Json) {
    match t
    case Quoted(raw) => RawOk(raw)
    case Scalar(text) => ScalarOk(text)
    case Object(fields, pad) => Blank(pad) && WfFields(fields)
    case List(items, pad) => Blank(pad) && WfItems(items)
  }

  predicate WfField(f: Field) {
    Blank(f.before) && RawOk(f.key) && Blank(f.mid) && Blank(f.gap) && Wf(f.value) && Blank(f.after)
  }

  predicate WfFields(fs: seq<Field>) {
    |fs| > 0 ==> WfField(fs[0]) && WfFields(fs[1..])
  }

  predicate WfItems(items: seq<Item>) {
    |items| > 0 ==> Blank(items[0].before) && Wf(items[0].value) && Blank(items[0].after) && WfItems(items[1..])
  }

  /** The text of a tree, followed by a given rest. */
  function Put(t: Json, rest: string): (s: string)
    decreases t, 0
  {
    match t
    case Quoted(raw) => "\"" + (raw + ("\"" + rest))
    case Scalar(text) => text + rest
    case Object(fields, pad) => "{" + PutFields(fields, pad + ("}" + rest))
    case List(items, pad) => "[" + PutItems(items, pad + ("]" + rest))
  }

  function PutField(f: Field, rest: string): (s: string)
    decreases f, 1
  {
    f.before + ("\"" + (f.key + ("\"" + (f.mid + (":" + (f.gap + Put(f.value, f.after + rest)))))))
  }

  function PutFields(fs: seq<Field>, rest: string): (s: string)
    decreases fs, 2
  {
    if |fs| == 0 then rest else PutField(fs[0], Separated(|fs| > 1, PutFields(fs[1..], rest)))
  }

  function PutItems(items: seq<Item>, rest: string): (s: string)
    decreases items, 2
  {
    if |items| == 0 then rest
    else items[0].before + Put(items[0].value, items[0].after + Separated(|items| > 1, PutItems(items[1..], rest)))
  }

  function Separated(more: bool, rest: string): (s: string) {
    if more then "," + rest else rest
  }

  /** The document: its value for the first top-level member named `type`, if that is a string. */
  function FirstType(fs: seq<Field>): (r: Option<string>) {
    if |fs| == 0 then None
    else if fs[0].key == TYPE then (if fs[0].value.Quoted? then Some(fs[0].value.raw) else None)
    else FirstType(fs[1..])
  }

  // ----- the scanner follows the tree -----

  lemma {:induction false} BlankSkipped(w: string, r: string)
    requires Blank(w)
    ensures SkipWs(w + r) == SkipWs(r)
  {
    if w == "" {
      assert w + r == r;
    } else {
      BlankSkipped(w[1..], r);
      assert (w + r)[1..] == w[1..] + r;
    }
  }

  lemma {:induction false} StringSkipped(raw: string, r: string)
    requires RawOk(raw)
    ensures StringEnd(raw + ("\"" + r)) == Some(r)
  {
    var s := raw + ("\"" + r);
    if raw == "" {
      assert s == "\"" + r && s[1..] == r;
    } else {
      var n := if raw[0] == '\\' then 2 else 1;
      StringSkipped(raw[n..], r);
      assert s[n..] == raw[n..] + ("\"" + r);
    }
  }

  lemma {:induction false} RawRead(raw: string, r: string)
    requires RawOk(raw)
    ensures StringEnd(raw + ("\"" + r)) == Some(r) && Raw(raw + ("\"" + r), r) == raw
  {
    StringSkipped(raw, r);
  }

  lemma {:induction false} PlainSkipped(w: string, r: string, open: char, depth: nat)
    requires Plain(w) && depth > 0 && (open == '{' || open == '[')
    ensures Nested(w + r, open, depth) == Nested(r, open, depth)
  {
    if w == "" {
      assert w + r == r;
    } else {
      PlainSkipped(w[1..], r, open, depth);
      assert (w + r)[1..] == w[1..] + r;
    }
  }

  lemma {:induction false} QuotedNested(raw: string, r: string, open: char, depth: nat)
    requires RawOk(raw) && depth > 0 && (open == '{' || open == '[')
    ensures Nested("\"" + (raw + ("\"" + r)), open, depth) == Nested(r, open, depth)
  {
    var s := "\"" + (raw + ("\"" + r));
    StringSkipped(raw, r);
    assert s[1..] == raw + ("\"" + r);
  }

  /** One character in front. */
  lemma {:induction false} CharNested(c: char, r: string, open: char, depth: nat)
    requires depth > 0 && c != '"'
    ensures Nested([c] + r, open, depth) ==
            Nested(r, open, if c == open then depth + 1 else if c == Closing(open) then depth - 1 else depth)
  {
    assert ([c] + r)[1..] == r;
  }

  /** A value is balanced: walking over it leaves the depth as it was. */
  lemma {:induction false} ValueNested(t: Json, r: string, open: char, depth: nat)
    requires Wf(t) && depth > 0 && (open == '{' || open == '[')
    ensures Nested(Put(t, r), open, depth) == Nested(r, open, depth)
    decreases t, 0
  {
    match t
    case Quoted(raw) => QuotedNested(raw, r, open, depth);
    case Scalar(text) => PlainSkipped(text, r, open, depth);
    case Object(fields, pad) =>
      var inner := if open == '{' then depth + 1 else depth;
      CharNested('{', PutFields(fields, pad + ("}" + r)), open, depth);
      FieldsNested(fields, pad + ("}" + r), open, inner);
      PlainSkipped(pad, "}" + r, open, inner);
      CharNested('}', r, open, inner);
    case List(items, pad) =>
      var inner := if open == '[' then depth + 1 else depth;
      CharNested('[', PutItems(items, pad + ("]" + r)), open, depth);
      ItemsNested(items, pad + ("]" + r), open, inner);
      PlainSkipped(pad, "]" + r, open, inner);
      CharNested(']', r, open, inner);
  }

  lemma {:induction false} FieldNested(f: Field, r: string, open: char, depth: nat)
    requires WfField(f) && depth > 0 && (open == '{' || open == '[')
    ensures Nested(PutField(f, r), open, depth) == Nested(r, open, depth)
    decreases f, 1
  {
    var v := Put(f.value, f.after + r);
    PlainSkipped(f.before, "\"" + (f.key + ("\"" + (f.mid + (":" + (f.gap + v))))), open, depth);
    QuotedNested(f.key, f.mid + (":" + (f.gap + v)), open, depth);
    PlainSkipped(f.mid, ":" + (f.gap + v), open, depth);
    CharNested(':', f.gap + v, open, depth);
    PlainSkipped(f.gap, v, open, depth);
    ValueNested(f.value, f.after + r, open, depth);
    PlainSkipped(f.after, r, open, depth);
  }

  lemma {:induction false} FieldsNested(fs: seq<Field>, r: string, open: char, depth: nat)
    requires WfFields(fs) && depth > 0 && (open == '{' || open == '[')
    ensures Nested(PutFields(fs, r), open, depth) == Nested(r, open, depth)
    decreases fs, 2
  {
    if |fs| > 0 {
      var rest := PutFields(fs[1..], r);
      FieldNested(fs[0], Separated(|fs| > 1, rest), open, depth);
      CharNested(',', rest, open, depth);
      FieldsNested(fs[1..], r, open, depth);
    }
  }

  lemma {:induction false} ItemsNested(items: seq<Item>, r: string, open: char, depth: nat)
    requires WfItems(items) && depth > 0 && (open == '{' || open == '[')
    ensures Nested(PutItems(items, r), open, depth) == Nested(r, open, depth)
    decreases items, 2
  {
    if |items| > 0 {
      var rest := PutItems(items[1..], r);
      var next := Separated(|items| > 1, rest);
      var v := Put(items[0].value, items[0].after + next);
      PlainSkipped(items[0].before, v, open, depth);
      ValueNested(items[0].value, items[0].after + next, open, depth);
      PlainSkipped(items[0].after, next, open, depth);
      CharNested(',', rest, open, depth);
      ItemsNested(items[1..], r, open, depth);
    }
  }

  lemma {:induction false} ScalarSkipped(text: string, r: string)
    requires forall i | 0 <= i < |text| :: !EndsScalar(text[i])
    requires r != "" ==> EndsScalar(r[0])
    ensures ScalarEnd(text + r) == r
  {
    if text == "" {
      assert text + r == r;
    } else {
      ScalarSkipped(text[1..], r);
      assert (text + r)[1..] == text[1..] + r;
    }
  }

  /** The text of a value starts with neither white space nor a comma. */
  lemma {:induction false} ValueStarts(t: Json, r: string)
    requires Wf(t)
    ensures Put(t, r) != "" && !IsWs(Put(t, r)[0]) && SkipWs(Put(t, r)) == Put(t, r)
    ensures Put(t, r)[0] == '"' <==> t.Quoted?
  {
    if t.Scalar? {
      assert Put(t, r)[0] == t.text[0];
    }
  }

  /** `skip_value` skips exactly one value. */
  lemma {:induction false} ValueSkipped(t: Json, r: string)
    requires Wf(t) && r != "" && EndsScalar(r[0])
    ensures SkipValue(Put(t, r)) == Some(r)
  {
    ValueStarts(t, r);
    match t
    case Quoted(raw) =>
      StringSkipped(raw, r);
      assert Put(t, r)[1..] == raw + ("\"" + r);
    case Scalar(text) =>
      ScalarSkipped(text, r);
      assert Put(t, r)[0] == text[0];
    case Object(fields, pad) =>
      var inner := PutFields(fields, pad + ("}" + r));
      assert Put(t, r)[1..] == inner;
      FieldsNested(fields, pad + ("}" + r), '{', 1);
      PlainSkipped(pad, "}" + r, '{', 1);
      CharNested('}', r, '{', 1);
    case List(items, pad) =>
      var inner := PutItems(items, pad + ("]" + r));
      assert Put(t, r)[1..] == inner;
      ItemsNested(items, pad + ("]" + r), '[', 1);
      PlainSkipped(pad, "]" + r, '[', 1);
      CharNested(']', r, '[', 1);
  }

  lemma CharKept(c: char, r: string)
    requires !IsWs(c)
    ensures SkipWs([c] + r) == [c] + r && ([c] + r)[1..] == r
  {
  }

  /** The scan at a member reads its key and gets to its value. */
  lemma {:induction false} ScanKey(f: Field, r: string)
    requires WfField(f)
    ensures var v := Put(f.value, f.after + r);
            Scan(PutField(f, r)) ==
            if f.key == TYPE then TypeValue(v)
            else if SkipValue(v).None? then None
            else Scan(AfterComma(SkipWs(SkipValue(v).value)))
  {
    var v := Put(f.value, f.after + r);
    var colon := ":" + (f.gap + v);
    var afterKey := f.mid + colon;
    var p := "\"" + (f.key + ("\"" + afterKey));
    BlankSkipped(f.before, p);
    CharKept('"', f.key + ("\"" + afterKey));
    RawRead(f.key, afterKey);
    BlankSkipped(f.mid, colon);
    CharKept(':', f.gap + v);
    BlankSkipped(f.gap, v);
    ValueStarts(f.value, f.after + r);
  }

  lemma {:induction false} TypeRead(t: Json, r: string)
    requires Wf(t)
    ensures TypeValue(Put(t, r)) == if t.Quoted? then Some(t.raw) else None
  {
    ValueStarts(t, r);
    if t.Quoted? {
      RawRead(t.raw, r);
      CharKept('"', t.raw + ("\"" + r));
    }
  }

  /** What may follow the last member. */
  predicate Tail(s: string) {
    var t := SkipWs(s);
    s != "" && (IsWs(s[0]) || s[0] == '}') && t != "" && t[0] == '}'
  }

  lemma TailStops(s: string)
    requires Tail(s)
    ensures Scan(s) == None && Scan(AfterComma(SkipWs(s))) == None
  {
  }

  lemma EndsAfter(w: string, r: string)
    requires Blank(w) && r != "" && EndsScalar(r[0])
    ensures w + r != "" && EndsScalar((w + r)[0])
  {
  }

  lemma {:induction false} ScanFields(fs: seq<Field>, tail: string)
    requires WfFields(fs) && Tail(tail)
    ensures Scan(PutFields(fs, tail)) == FirstType(fs)
    decreases |fs|
  {
    if |fs| == 0 {
      TailStops(tail);
    } else {
      var rest := PutFields(fs[1..], tail);
      var next := Separated(|fs| > 1, rest);
      ScanKey(fs[0], next);
      if fs[0].key == TYPE {
        TypeRead(fs[0].value, fs[0].after + next);
      } else {
        EndsAfter(fs[0].after, next);
        ValueSkipped(fs[0].value, fs[0].after + next);
        BlankSkipped(fs[0].after, next);
        if |fs| > 1 {
          CharKept(',', rest);
          ScanFields(fs[1..], tail);
        } else {
          TailStops(tail);
        }
      }
    }
  }

  /** On every text of a JSON object, whatever its white space, its nesting and the characters
      in its strings, the scanner returns the raw value of the first top-level member named
      `type` when that is a string, and nothing otherwise. What follows the object is not
      looked at. */
  lemma {:induction false} TypeOfObject(lead: string, fields: seq<Field>, pad: string, trail: string)
    requires Blank(lead) && Wf(Object(fields, pad))
    ensures FrameType(lead + Put(Object(fields, pad), trail)) == FirstType(fields)
  {
    var tail := pad + ("}" + trail);
    BlankSkipped(lead, "{" + PutFields(fields, tail));
    CharKept('{', PutFields(fields, tail));
    BlankSkipped(pad, "}" + trail);
    CharKept('}', trail);
    assert Tail(tail) by {
      if pad != "" {
        assert tail[0] == pad[0];
      } else {
        assert tail == "}" + trail;
      }
    }
    ScanFields(fields, tail);
  }
}
