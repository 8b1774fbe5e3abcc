/** The streaming JSON writer: a fixed buffer, a fill level, a pending-comma flag and a sticky
    error flag.

    The ghost field `ideal` is the text an unbounded buffer would hold. The invariant ties the
    error flag to it: the writer fails exactly when that text does not fit. */
module JsonWriter {
  import opened JsonTree
  import opened Sequences

  class Writer {
    const buf: array<char>
    var len: nat
    var depth: int
    var needsComma: bool
    var error: bool
    ghost var ideal: string

    ghost predicate Valid()
      reads this`len, this`error, this`ideal, buf
    {
      && len <= buf.Length
      && (error ==> |ideal| >= buf.Length)
      && (!error ==> buf[..len] == ideal && (ideal == "" || |ideal| < buf.Length))
    }

    constructor (buf: array<char>)
      ensures Valid() && this.buf == buf
      ensures ideal == "" && !needsComma && !error && depth == 0
    {
      this.buf := buf;
      len, depth, needsComma, error, ideal := 0, 0, false, false, "";
    }

    method Emit(s: string)
      requires Valid()
      modifies this`len, this`error, this`ideal, buf
      ensures Valid() && ideal == old(ideal) + s
    {
      ideal := ideal + s;
      if error {
        return;
      }
      if len + |s| >= buf.Length {
        error := true;
        return;
      }
      forall i | 0 <= i < |s| {
        buf[len + i] := s[i];
      }
      assert buf[..len + |s|] == buf[..len] + s;
      assert buf[..len] == old(buf[..len]);
      len := len + |s|;
    }

    method MaybeComma()
      requires Valid()
      modifies this, buf
      ensures Valid() && !needsComma && depth == old(depth)
      ensures ideal == old(ideal) + Comma(old(needsComma))
    {
      if needsComma {
        Emit(",");
      }
      needsComma := false;
    }

    method EmitQuoted(s: string)
      requires Valid()
      modifies this`len, this`error, this`ideal, buf
      ensures Valid() && ideal == old(ideal) + Quote(s)
    {
      Emit("\"");
      ghost var start := ideal;
      var i := 0;
      assert s[0..] == s;
      while i < |s|
        invariant 0 <= i <= |s| && Valid()
        invariant ideal + Escape(s[i..]) == start + Escape(s)
      {
        ghost var before := ideal;
        Emit(EscapeChar(s[i]));
        EscapeStep(before, s[i..]);
        i := i + 1;
      }
      assert s[i..] == "" && ideal == start + Escape(s);
      Emit("\"");
      Concat4(old(ideal), "\"", Escape(s), "\"");
    }

    method ObjectBegin()
      requires Valid()
      modifies this, buf
      ensures Valid() && !needsComma && depth == old(depth) + 1
      ensures ideal == old(ideal) + Comma(old(needsComma)) + "{"
    {
      MaybeComma();
      Emit("{");
      needsComma := false;
      depth := depth + 1;
    }

    method ObjectEnd()
      requires Valid()
      modifies this, buf
      ensures Valid() && needsComma && depth == old(depth) - 1
      ensures ideal == old(ideal) + "}"
    {
      Emit("}");
      depth := depth - 1;
      needsComma := true;
    }

    method KeyObjectBegin(key: string)
      requires Valid()
      modifies this, buf
      ensures Valid() && !needsComma && depth == old(depth) + 1
      ensures ideal == old(ideal) + Comma(old(needsComma)) + Quote(key) + ":{"
    {
      MaybeComma();
      EmitQuoted(key);
      Emit(":{");
      needsComma := false;
      depth := depth + 1;
    }

    method ArrayBegin(key: string)
      requires Valid()
      modifies this, buf
      ensures Valid() && !needsComma && depth == old(depth)
      ensures ideal == old(ideal) + Comma(old(needsComma)) + Quote(key) + ":["
    {
      MaybeComma();
      EmitQuoted(key);
      Emit(":[");
      needsComma := false;
    }

    method ArrayEnd()
      requires Valid()
      modifies this, buf
      ensures Valid() && needsComma && depth == old(depth)
      ensures ideal == old(ideal) + "]"
    {
      Emit("]");
      needsComma := true;
    }

    method KeyString(key: string, val: string)
      requires Valid()
      modifies this, buf
      ensures Valid() && needsComma && depth == old(depth)
      ensures ideal == old(ideal) + Comma(old(needsComma)) + RenderMember(Member(key, Str(val)))
    {
      MaybeComma();
      EmitQuoted(key);
      Emit(":");
      EmitQuoted(val);
      needsComma := true;
      Concat4(old(ideal) + Comma(old(needsComma)), Quote(key), ":", Quote(val));
    }

    method KeyInt(key: string, val: int)
      requires Valid()
      modifies this, buf
      ensures Valid() && needsComma && depth == old(depth)
      ensures ideal == old(ideal) + Comma(old(needsComma)) + RenderMember(Member(key, Int(val)))
    {
      MaybeComma();
      EmitQuoted(key);
      Emit(":" + Decimal(val));
      needsComma := true;
      Concat4(old(ideal) + Comma(old(needsComma)), Quote(key), ":", Decimal(val));
    }

    /** `text` is the value printed with three decimals. */
    method KeyDouble(key: string, text: string)
      requires Valid()
      modifies this, buf
      ensures Valid() && needsComma && depth == old(depth)
      ensures ideal == old(ideal) + Comma(old(needsComma)) + RenderMember(Member(key, Dbl(text)))
    {
      MaybeComma();
      EmitQuoted(key);
      Emit(":" + text);
      needsComma := true;
      Concat4(old(ideal) + Comma(old(needsComma)), Quote(key), ":", text);
    }

    method KeyBool(key: string, val: bool)
      requires Valid()
      modifies this, buf
      ensures Valid() && needsComma && depth == old(depth)
      ensures ideal == old(ideal) + Comma(old(needsComma)) + RenderMember(Member(key, Bool(val)))
    {
      MaybeComma();
      EmitQuoted(key);
      Emit(":" + Render(Bool(val)));
      needsComma := true;
      Concat4(old(ideal) + Comma(old(needsComma)), Quote(key), ":", Render(Bool(val)));
    }

    method KeyNull(key: string)
      requires Valid()
      modifies this, buf
      ensures Valid() && needsComma && depth == old(depth)
      ensures ideal == old(ideal) + Comma(old(needsComma)) + RenderMember(Member(key, Null))
    {
      MaybeComma();
      EmitQuoted(key);
      Emit(":" + Render(Null));
      needsComma := true;
      Concat4(old(ideal) + Comma(old(needsComma)), Quote(key), ":", Render(Null));
    }

    method ArrayString(val: string)
      requires Valid()
      modifies this, buf
      ensures Valid() && needsComma && depth == old(depth)
      ensures ideal == old(ideal) + Comma(old(needsComma)) + Quote(val)
    {
      MaybeComma();
      EmitQuoted(val);
      needsComma := true;
    }

    method ArrayDouble(text: string)
      requires Valid()
      modifies this, buf
      ensures Valid() && needsComma && depth == old(depth)
      ensures ideal == old(ideal) + Comma(old(needsComma)) + text
    {
      MaybeComma();
      Emit(text);
      needsComma := true;
    }

    /** The written length, or -1 when the text and its terminator do not fit the buffer. */
    method Finish() returns (n: int)
      requires Valid()
      modifies buf
      ensures n >= 0 <==> |ideal| < buf.Length
      ensures n >= 0 ==> n < buf.Length && buf[..n] == ideal && buf[n] == '\0'
    {
      if error || len >= buf.Length {
        return -1;
      }
      buf[len] := '\0';
      assert buf[..len] == old(buf[..len]);
      return len;
    }

    // ----- whole documents -----

    /** The calls that write one member; every document is written by such calls. */
    method WriteMember(m: Member)
      requires Valid() && EmittableMember(m)
      modifies this, buf
      ensures Valid() && needsComma && depth == old(depth)
      ensures ideal == old(ideal) + Comma(old(needsComma)) + RenderMember(m)
      decreases m, 0
    {
      match m.value
      case Str(s) => KeyString(m.key, s);
      case Int(n) => KeyInt(m.key, n);
      case Dbl(text) => KeyDouble(m.key, text);
      case Bool(b) => KeyBool(m.key, b);
      case Null => KeyNull(m.key);
      case Obj(ms) => WriteNestedObject(m.key, ms);
      case Arr(vs) => WriteArray(m.key, vs);
    }

    method WriteNestedObject(key: string, ms: seq<Member>)
      requires Valid() && forall i | 0 <= i < |ms| :: EmittableMember(ms[i])
      modifies this, buf
      ensures Valid() && needsComma && depth == old(depth)
      ensures ideal == old(ideal) + Comma(old(needsComma)) + RenderMember(Member(key, Obj(ms)))
      decreases ms, 1
    {
      KeyObjectBegin(key);
      WriteMembers(ms);
      ObjectEnd();
      NestedText(old(ideal) + Comma(old(needsComma)), key, ":{", "{", RenderMembers(ms), "}");
    }

    method WriteArray(key: string, vs: seq<Value>)
      requires Valid() && forall i | 0 <= i < |vs| :: EmittableItem(vs[i])
      modifies this, buf
      ensures Valid() && needsComma && depth == old(depth)
      ensures ideal == old(ideal) + Comma(old(needsComma)) + RenderMember(Member(key, Arr(vs)))
      decreases vs, 1
    {
      ArrayBegin(key);
      WriteItems(vs);
      ArrayEnd();
      NestedText(old(ideal) + Comma(old(needsComma)), key, ":[", "[", RenderItems(vs), "]");
    }

    method WriteMembers(ms: seq<Member>)
      requires Valid() && forall i | 0 <= i < |ms| :: EmittableMember(ms[i])
      modifies this, buf
      ensures Valid() && needsComma == (old(needsComma) || |ms| > 0) && depth == old(depth)
      ensures ideal == old(ideal) + (if old(needsComma) then RenderMoreMembers(ms) else RenderMembers(ms))
      decreases ms, 0
    {
      if |ms| > 0 {
        WriteMember(ms[0]);
        WriteMembers(ms[1..]);
        MembersText(old(ideal), old(needsComma), ms);
      }
    }

    method WriteItems(vs: seq<Value>)
      requires Valid() && forall i | 0 <= i < |vs| :: EmittableItem(vs[i])
      modifies this, buf
      ensures Valid() && needsComma == (old(needsComma) || |vs| > 0) && depth == old(depth)
      ensures ideal == old(ideal) + (if old(needsComma) then RenderMoreItems(vs) else RenderItems(vs))
      decreases vs, 0
    {
      if |vs| > 0 {
        WriteItem(vs[0]);
        WriteItems(vs[1..]);
        ItemsText(old(ideal), old(needsComma), vs);
      }
    }

    method WriteItem(v: Value)
      requires Valid() && EmittableItem(v)
      modifies this, buf
      ensures Valid() && needsComma && depth == old(depth)
      ensures ideal == old(ideal) + Comma(old(needsComma)) + Render(v)
      decreases v, 0
    {
      match v
      case Str(s) => ArrayString(s);
      case Dbl(text) => ArrayDouble(text);
      case Obj(ms) => WriteObject(ms);
    }

    /** A root object or an array element. */
    method WriteObject(ms: seq<Member>)
      requires Valid() && forall i | 0 <= i < |ms| :: EmittableMember(ms[i])
      modifies this, buf
      ensures Valid() && needsComma && depth == old(depth)
      ensures ideal == old(ideal) + Comma(old(needsComma)) + Render(Obj(ms))
      decreases ms, 1
    {
      ObjectBegin();
      WriteMembers(ms);
      ObjectEnd();
      Concat4(old(ideal) + Comma(old(needsComma)), "{", RenderMembers(ms), "}");
    }
  }

  function Comma(needed: bool): (s: string) {
    if needed then "," else ""
  }

  /** Documents the writer's calls can produce: array elements are objects, strings or
      floating-point numbers. */
  predicate EmittableMember(m: Member)
    decreases m
  {
    match m.value
    case Obj(ms) => forall i | 0 <= i < |ms| :: EmittableMember(ms[i])
    case Arr(vs) => forall i | 0 <= i < |vs| :: EmittableItem(vs[i])
    case _ => true
  }

  predicate EmittableItem(v: Value)
    decreases v
  {
    match v
    case Str(_) => true
    case Dbl(_) => true
    case Obj(ms) => forall i | 0 <= i < |ms| :: EmittableMember(ms[i])
    case _ => false
  }

  lemma EscapeStep(before: string, s: string)
    requires s != ""
    ensures before + EscapeChar(s[0]) + Escape(s[1..]) == before + Escape(s)
  {
  }

  lemma {:induction false} MembersText(start: string, comma: bool, ms: seq<Member>)
    requires |ms| > 0
    ensures start + Comma(comma) + RenderMember(ms[0]) + RenderMoreMembers(ms[1..]) ==
            start + if comma then RenderMoreMembers(ms) else RenderMembers(ms)
  {
    Concat4(start, Comma(comma), RenderMember(ms[0]), RenderMoreMembers(ms[1..]));
    assert "" + RenderMembers(ms) == RenderMembers(ms);
  }

  lemma {:induction false} ItemsText(start: string, comma: bool, vs: seq<Value>)
    requires |vs| > 0
    ensures start + Comma(comma) + Render(vs[0]) + RenderMoreItems(vs[1..]) ==
            start + if comma then RenderMoreItems(vs) else RenderItems(vs)
  {
    Concat4(start, Comma(comma), Render(vs[0]), RenderMoreItems(vs[1..]));
    assert "" + RenderItems(vs) == RenderItems(vs);
  }

  lemma NestedText(start: string, key: string, lead: string, open: string, inner: string, close: string)
    requires lead == ":" + open
    ensures start + Quote(key) + lead + inner + close == start + (Quote(key) + ":" + (open + inner + close))
  {
  }
}
