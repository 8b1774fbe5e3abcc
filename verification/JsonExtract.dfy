/** The substring reader of JSON text.

    The reader finds a key by searching for `"key":` anywhere in the text and decodes what
    follows. On every document the writer can emit with identifier keys this agrees with the
    tree lookup `JsonTree.Lookup`, whatever the string values contain. */
module JsonExtract {
  import opened JsonTree

  const NEEDLE_CAP: nat := 128
  const LONG_MAX: int := 0x7fff_ffff_ffff_ffff

  // ----- specification of the reader -----

  /** The text after the first occurrence of `needle`, if there is one. */
  function After(text: string, needle: string): (r: Option<string>)
  {
    if |text| < |needle| then None
    else if text[..|needle|] == needle then Some(text[|needle|..])
    else if text == "" then None
    else After(text[1..], needle)
  }

  /** A key in quotes: what the readers of arrays search for. */
  function Tag(key: string): (r: string) {
    "\"" + key + "\""
  }

  /** A key in quotes with its colon: what the readers of fields search for. */
  function Needle(key: string): (r: string) {
    Tag(key) + ":"
  }

  function SkipBlanks(text: string): (r: string) {
    if text != "" && (text[0] == ' ' || text[0] == '\t') then SkipBlanks(text[1..]) else text
  }

  function HexVal(c: char): (r: int)
    ensures r == -1 || 0 <= r < 16
  {
    if '0' <= c <= '9' then c as int - '0' as int
    else if 'a' <= c <= 'f' then c as int - 'a' as int + 10
    else if 'A' <= c <= 'F' then c as int - 'A' as int + 10
    else -1
  }

  /** The character a two-character escape stands for. */
  function UnescapeSimple(e: char): (r: Option<char>) {
    if e == '"' || e == '\\' || e == '/' then Some(e)
    else if e == 'n' then Some('\n')
    else if e == 'r' then Some('\r')
    else if e == 't' then Some('\t')
    else if e == 'b' then Some(8 as char)
    else if e == 'f' then Some(12 as char)
    else None
  }

  /** The low byte of the code point of a `\uXXXX` escape. */
  function UnescapeHex(h: string): (r: Option<char>)
    requires |h| == 4
  {
    if HexVal(h[0]) < 0 || HexVal(h[1]) < 0 || HexVal(h[2]) < 0 || HexVal(h[3]) < 0 then None
    else Some((HexVal(h[2]) * 16 + HexVal(h[3])) as char)
  }

  /** One decoded character and the number of characters it took; `None` at the closing
      quote, at the end of the text and on a bad escape. */
  function DecodeOne(text: string): (r: Option<(char, nat)>)
    ensures r.Some? ==> 0 < r.value.1 <= |text|
  {
    if text == "" || text[0] == '"' then None
    else if text[0] != '\\' then Some((text[0], 1))
    else if |text| < 2 then None
    else if text[1] == 'u' then
      if |text| < 6 then None
      else
        var u := UnescapeHex(text[2..6]);
        if u.None? then None else Some((u.value, 6))
    else
      var u := UnescapeSimple(text[1]);
      if u.None? then None else Some((u.value, 2))
  }

  /** The decoded string that starts the text and ends at an unescaped quote. */
  function Decode(text: string): (r: Option<string>) {
    if text != "" && text[0] == '"' then Some("")
    else
      var c := DecodeOne(text);
      if c.None? then None
      else
        var rest := Decode(text[c.value.1..]);
        if rest.None? then None else Some([c.value.0] + rest.value)
  }

  /** What follows the key, blanks skipped; `None` when the key is missing or too long. */
  function Located(json: string, key: string): (r: Option<string>) {
    if |key| + 3 >= NEEDLE_CAP then None
    else
      var a := After(json, Needle(key));
      if a.None? then None else Some(SkipBlanks(a.value))
  }

  function ExtractString(json: string, key: string, cap: nat): (r: Option<string>) {
    var x := Located(json, key);
    if cap == 0 || x.None? || x.value == "" || x.value[0] != '"' then None
    else
      var s := Decode(x.value[1..]);
      if s.None? || |s.value| >= cap then None else s
  }

  /** The characters decoded before the closing quote, a bad escape or the end of the room:
      what a zeroed buffer holds after a read, whether or not the read succeeded. */
  function DecodePrefix(text: string, room: nat): (r: string) {
    var c := DecodeOne(text);
    if room == 0 || c.None? then "" else [c.value.0] + DecodePrefix(text[c.value.1..], room - 1)
  }

  function FieldText(json: string, key: string, cap: nat): (r: string) {
    var x := Located(json, key);
    if cap == 0 || x.None? || x.value == "" || x.value[0] != '"' then ""
    else DecodePrefix(x.value[1..], cap - 1)
  }

  datatype IntResult = Parsed(n: int) | Missing | Overflow

  function DigitRun(text: string): (n: nat)
    ensures n <= |text| && forall i | 0 <= i < n :: '0' <= text[i] <= '9'
  {
    if text != "" && '0' <= text[0] <= '9' then 1 + DigitRun(text[1..]) else 0
  }

  function DigitsValue(ds: string): (v: nat)
    requires forall i | 0 <= i < |ds| :: '0' <= ds[i] <= '9'
  {
    if ds == "" then 0
    else 10 * DigitsValue(ds[..|ds| - 1]) + (ds[|ds| - 1] as int - '0' as int)
  }

  function ParseDigits(ds: string, neg: bool): (r: IntResult) {
    var n := DigitRun(ds);
    if n == 0 then Missing
    else
      var v: int := DigitsValue(ds[..n]);
      if v > LONG_MAX then Overflow else Parsed(if neg then -v else v)
  }

  function ParseInt(text: string): (r: IntResult) {
    if text != "" && text[0] == '-' then ParseDigits(text[1..], true) else ParseDigits(text, false)
  }

  function ExtractInt(json: string, key: string): (r: IntResult) {
    var x := Located(json, key);
    if x.None? then Missing else ParseInt(x.value)
  }

  // ----- the search skips everything that is not the key -----

  /** An occurrence of `needle` starts at index `i` of `text`. */
  predicate OccursAt(text: string, i: nat, needle: string) {
    i + |needle| <= |text| && text[i..i + |needle|] == needle
  }

  lemma {:induction false} SkipPrefix(a: string, b: string, needle: string)
    requires forall i | 0 <= i < |a| :: !OccursAt(a + b, i, needle)
    ensures After(a + b, needle) == After(b, needle)
  {
    if a == "" {
      assert a + b == b;
    } else {
      var t := a + b;
      assert !OccursAt(t, 0, needle);
      assert t[1..] == a[1..] + b;
      forall i | 0 <= i < |a[1..]| ensures !OccursAt(a[1..] + b, i, needle) {
        assert !OccursAt(t, i + 1, needle);
        if i + |needle| <= |a[1..] + b| {
          assert t[1..][i..i + |needle|] == t[i + 1..i + 1 + |needle|];
        }
      }
      SkipPrefix(a[1..], b, needle);
      if |t| < |needle| {
        assert After(b, needle) == None;
      } else {
        assert t[0..0 + |needle|] == t[..|needle|];
      }
    }
  }

  /** Text after a complete value: empty, or a structural character that ends a value. */
  predicate Delimited(r: string) {
    r == "" || r[0] == ',' || r[0] == '}' || r[0] == ']'
  }

  /** A needle does not occur where one of its characters differs. */
  lemma {:induction false} Mismatch(text: string, i: nat, needle: string, d: nat)
    requires d < |needle|
    requires i + d >= |text| || text[i + d] != needle[d]
    ensures !OccursAt(text, i, needle)
  {
    if i + |needle| <= |text| {
      assert text[i..i + |needle|][d] == text[i + d];
    }
  }

  lemma {:induction false} TagOfNeedle(text: string, i: nat, k: string)
    requires OccursAt(text, i, Needle(k))
    ensures OccursAt(text, i, Tag(k))
  {
    assert text[i..i + |Tag(k)|] == text[i..i + |Needle(k)|][..|Tag(k)|];
  }

  lemma {:induction false} NoQuoteSkipped(a: string, b: string, needle: string)
    requires forall i | 0 <= i < |a| :: a[i] != '"'
    requires needle != "" && needle[0] == '"'
    ensures After(a + b, needle) == After(b, needle)
  {
    forall i | 0 <= i < |a| ensures !OccursAt(a + b, i, needle) {
      Mismatch(a + b, i, needle, 0);
    }
    SkipPrefix(a, b, needle);
  }

  /** A quote inside a quoted string is escaped. */
  lemma {:induction false} QuoteInside(s: string, i: nat)
    requires 0 < i < |Quote(s)| - 1 && Quote(s)[i] == '"'
    ensures Quote(s)[i - 1] == '\\'
  {
    assert Quote(s)[i] == Escape(s)[i - 1];
    assert i > 1 ==> Quote(s)[i - 1] == Escape(s)[i - 2];
  }

  /** A tag inside the text of a string value can only end at its closing quote. */
  lemma {:induction false} StringTag(s: string, r: string, k: string, i: nat)
    requires Ident(k) && Delimited(r) && i < |Quote(s)|
    ensures OccursAt(Quote(s) + r, i, Tag(k)) ==> i + |Tag(k)| == |Quote(s)|
  {
    var q := Quote(s);
    var e, j := |q| - 1, i + 1 + |k|;
    if j != e {
      var d := if q[i] != '"' then 0
               else if i == e then 1
               else if j > e then e - i
               else if q[j] != '"' then |k| + 1
               else |k|;
      if j < e && q[j] == '"' {
        QuoteInside(s, j);
      }
      assert 0 < d <= |k| ==> Tag(k)[d] == k[d - 1];
      Mismatch(q + r, i, Tag(k), d);
    }
  }

  lemma {:induction false} StringKeyless(s: string, r: string, k: string, i: nat)
    requires Ident(k) && Delimited(r) && i < |Quote(s)|
    ensures !OccursAt(Quote(s) + r, i, Needle(k))
  {
    StringTag(s, r, k, i);
    var t := Quote(s) + r;
    if OccursAt(t, i, Tag(k)) {
      Mismatch(t, i, Needle(k), |Tag(k)|);
    } else if OccursAt(t, i, Needle(k)) {
      TagOfNeedle(t, i, k);
    }
  }

  /** No string value, whatever it contains, imitates a key. */
  lemma {:induction false} StringHidesNoKey(s: string, r: string, k: string)
    requires Ident(k) && Delimited(r)
    ensures After(Quote(s) + r, Needle(k)) == After(r, Needle(k))
  {
    forall i | 0 <= i < |Quote(s)| ensures !OccursAt(Quote(s) + r, i, Needle(k)) {
      StringKeyless(s, r, k, i);
    }
    SkipPrefix(Quote(s), r, Needle(k));
  }

  lemma {:induction false} EscapeIdent(k: string)
    requires forall i | 0 <= i < |k| :: IdentChar(k[i])
    ensures Escape(k) == k
  {
    if k != "" {
      EscapeIdent(k[1..]);
      assert [k[0]] + k[1..] == k;
    }
  }

  lemma {:induction false} OtherKeyTag(key: string, r: string, k: string, i: nat)
    requires Ident(k) && Ident(key) && key != k && i < |Needle(key)|
    ensures !OccursAt(Needle(key) + r, i, Tag(k))
  {
    var t, n := Needle(key) + r, Tag(k);
    if i == 0 {
      var d := FirstDifference(key, k) + 1;
      assert t[d] == if d <= |key| then key[d - 1] else '"';
      assert n[d] == if d <= |k| then k[d - 1] else '"';
      Mismatch(t, i, n, d);
    } else if i == |key| + 1 {
      assert n[1] == k[0];
      Mismatch(t, i, n, 1);
    } else {
      assert i <= |key| ==> t[i] == key[i - 1];
      Mismatch(t, i, n, 0);
    }
  }

  lemma {:induction false} QuotedKey(key: string)
    requires Ident(key)
    ensures Quote(key) == Tag(key) && Quote(key) + ":" == Needle(key)
  {
    EscapeIdent(key);
  }

  /** The searches pass a key other than the one looked for. */
  lemma {:induction false} OtherKeySkipped(key: string, r: string, k: string)
    requires Ident(k) && Ident(key) && key != k
    ensures After(Quote(key) + ":" + r, Needle(k)) == After(r, Needle(k))
    ensures After(Quote(key) + ":" + r, Tag(k)) == After(r, Tag(k))
  {
    QuotedKey(key);
    var t := Needle(key) + r;
    forall i | 0 <= i < |Needle(key)| ensures !OccursAt(t, i, Needle(k)) && !OccursAt(t, i, Tag(k)) {
      OtherKeyTag(key, r, k, i);
      if OccursAt(t, i, Needle(k)) {
        TagOfNeedle(t, i, k);
      }
    }
    SkipPrefix(Needle(key), r, Needle(k));
    SkipPrefix(Needle(key), r, Tag(k));
  }

  /** The first index where two different strings differ; one of them may end there. */
  function FirstDifference(a: string, b: string): (d: nat)
    requires a != b
    ensures d <= |a| && d <= |b| && a[..d] == b[..d]
    ensures d < |a| && d < |b| ==> a[d] != b[d]
    ensures d < |a| || d < |b|
  {
    if a == "" || b == "" || a[0] != b[0] then 0
    else
      assert a == [a[0]] + a[1..] && b == [b[0]] + b[1..];
      1 + FirstDifference(a[1..], b[1..])
  }

  lemma {:induction false} ThisKeyFound(k: string, r: string)
    requires Ident(k)
    ensures After(Quote(k) + ":" + r, Needle(k)) == Some(r)
    ensures After(Quote(k) + ":" + r, Tag(k)) == Some(":" + r)
  {
    QuotedKey(k);
    var t := Needle(k) + r;
    assert t[..|Needle(k)|] == Needle(k) && t[|Needle(k)|..] == r;
    assert t[..|Tag(k)|] == Tag(k) && t[|Tag(k)|..] == ":" + r;
  }

  // ----- the search agrees with the tree -----

  /** Where the search ends up: just before the value the tree lookup gives, or past the
      whole document when the tree has no such key. */
  ghost predicate Agrees(found: Option<string>, want: Option<Value>, past: Option<string>, tail: string) {
    match want
    case None => found == past
    case Some(u) => Wf(u) && Delimited(tail) && found == Some(Render(u) + tail)
  }

  lemma {:induction false} SearchValue(v: Value, k: string, r: string) returns (tail: string)
    requires Wf(v) && Ident(k) && Delimited(r)
    ensures Agrees(After(Render(v) + r, Needle(k)), Lookup(v, k), After(r, Needle(k)), tail)
    decreases v, 1
  {
    tail := "";
    match v
    case Str(s) => StringHidesNoKey(s, r, k);
    case Obj(ms) =>
      tail := SearchMembers(ms, k, "}" + r);
      Bracketed("{", RenderMembers(ms), "}", r, k);
    case Arr(vs) =>
      tail := SearchItems(vs, k, "]" + r);
      Bracketed("[", RenderItems(vs), "]", r, k);
    case _ => NoQuoteSkipped(Render(v), r, Needle(k));
  }

  lemma {:induction false} Bracketed(open: string, inner: string, close: string, r: string, k: string)
    requires forall i | 0 <= i < |open| :: open[i] != '"'
    requires forall i | 0 <= i < |close| :: close[i] != '"'
    ensures After(open + inner + close + r, Needle(k)) == After(inner + (close + r), Needle(k))
    ensures After(close + r, Needle(k)) == After(r, Needle(k))
  {
    assert open + inner + close + r == open + (inner + (close + r));
    NoQuoteSkipped(open, inner + (close + r), Needle(k));
    NoQuoteSkipped(close, r, Needle(k));
  }

  lemma {:induction false} SearchMembers(ms: seq<Member>, k: string, r: string) returns (tail: string)
    requires WfMembers(ms) && Ident(k) && Delimited(r)
    ensures Agrees(After(RenderMembers(ms) + r, Needle(k)), LookupMembers(ms, k), After(r, Needle(k)), tail)
    decreases ms, 0
  {
    if |ms| == 0 {
      tail := "";
      assert RenderMembers(ms) + r == r;
    } else {
      var m, more := ms[0], RenderMoreMembers(ms[1..]) + r;
      assert RenderMembers(ms) + r == Quote(m.key) + ":" + (Render(m.value) + more);
      assert Delimited(more);
      if m.key == k {
        ThisKeyFound(k, Render(m.value) + more);
        tail := more;
      } else {
        OtherKeySkipped(m.key, Render(m.value) + more, k);
        tail := SearchValue(m.value, k, more);
        if Lookup(m.value, k).None? {
          tail := SearchMoreMembers(ms[1..], k, r);
        }
      }
    }
  }

  lemma {:induction false} SearchMoreMembers(ms: seq<Member>, k: string, r: string) returns (tail: string)
    requires WfMembers(ms) && Ident(k) && Delimited(r)
    ensures Agrees(After(RenderMoreMembers(ms) + r, Needle(k)), LookupMembers(ms, k), After(r, Needle(k)), tail)
    decreases ms, 1
  {
    tail := SearchMembers(ms, k, r);
    if |ms| == 0 {
      assert RenderMoreMembers(ms) + r == r;
    } else {
      assert RenderMoreMembers(ms) + r == "," + (RenderMembers(ms) + r);
      NoQuoteSkipped(",", RenderMembers(ms) + r, Needle(k));
    }
  }

  lemma {:induction false} SearchItems(vs: seq<Value>, k: string, r: string) returns (tail: string)
    requires WfItems(vs) && Ident(k) && Delimited(r)
    ensures Agrees(After(RenderItems(vs) + r, Needle(k)), LookupItems(vs, k), After(r, Needle(k)), tail)
    decreases vs, 0
  {
    if |vs| == 0 {
      tail := "";
      assert RenderItems(vs) + r == r;
    } else {
      var more := RenderMoreItems(vs[1..]) + r;
      assert RenderItems(vs) + r == Render(vs[0]) + more;
      assert Delimited(more);
      tail := SearchValue(vs[0], k, more);
      if Lookup(vs[0], k).None? {
        tail := SearchMoreItems(vs[1..], k, r);
      }
    }
  }

  lemma {:induction false} SearchMoreItems(vs: seq<Value>, k: string, r: string) returns (tail: string)
    requires WfItems(vs) && Ident(k) && Delimited(r)
    ensures Agrees(After(RenderMoreItems(vs) + r, Needle(k)), LookupItems(vs, k), After(r, Needle(k)), tail)
    decreases vs, 1
  {
    tail := SearchItems(vs, k, r);
    if |vs| == 0 {
      assert RenderMoreItems(vs) + r == r;
    } else {
      assert RenderMoreItems(vs) + r == "," + (RenderItems(vs) + r);
      NoQuoteSkipped(",", RenderItems(vs) + r, Needle(k));
    }
  }

  // ----- decoding undoes escaping -----

  lemma {:induction false} DecodeEscapedChar(c: char, r: string)
    ensures DecodeOne(EscapeChar(c) + r) == Some((c, |EscapeChar(c)|))
  {
    var e := EscapeChar(c);
    var t := e + r;
    if |e| == 6 {
      assert t[2..6] == e[2..6];
    } else if |e| == 2 {
      assert t[1] == e[1];
    }
  }

  lemma {:induction false} DecodeEscape(s: string, r: string)
    ensures Decode(Escape(s) + "\"" + r) == Some(s)
  {
    var t := Escape(s) + "\"" + r;
    if s == "" {
      assert t[0] == '"';
    } else {
      var e := EscapeChar(s[0]);
      var rest := Escape(s[1..]) + "\"" + r;
      assert t == e + rest;
      DecodeEscapedChar(s[0], rest);
      DecodeEscape(s[1..], r);
      assert t[|e|..] == rest;
      assert t[0] == e[0];
      assert s == [s[0]] + s[1..];
    }
  }

  /** The reader stops just before the value of the first such key. */
  lemma {:induction false} LocatedAgrees(v: Value, k: string) returns (tail: string)
    requires Wf(v) && Ident(k) && |k| + 3 < NEEDLE_CAP
    ensures Agrees(Located(Render(v), k), Lookup(v, k), None, tail)
  {
    tail := SearchValue(v, k, "");
    assert Render(v) + "" == Render(v);
    if Lookup(v, k).Some? {
      ValueStart(Lookup(v, k).value, tail);
    }
  }

  /** Extracting a string gives exactly what the tree lookup gives: the value of the first
      such key in document order when that value is a string that fits, and nothing else. */
  lemma {:induction false} ExtractStringAgrees(v: Value, k: string, cap: nat)
    requires Wf(v) && Ident(k) && |k| + 3 < NEEDLE_CAP
    ensures ExtractString(Render(v), k, cap) ==
            match Lookup(v, k)
            case Some(Str(s)) => if |s| < cap then Some(s) else None
            case _ => None
  {
    var tail := LocatedAgrees(v, k);
    if Lookup(v, k).Some? {
      var u := Lookup(v, k).value;
      ValueStart(u, tail);
      if u.Str? {
        DecodeQuoted(u.s, tail);
      }
    }
  }

  lemma {:induction false} DecodeQuoted(s: string, tail: string)
    ensures Decode((Quote(s) + tail)[1..]) == Some(s)
  {
    assert (Quote(s) + tail)[1..] == Escape(s) + "\"" + tail;
    DecodeEscape(s, tail);
  }

  lemma {:induction false} PrefixOfDecoded(text: string, room: nat)
    requires Decode(text).Some? && |Decode(text).value| <= room
    ensures DecodePrefix(text, room) == Decode(text).value
  {
    if text[0] != '"' {
      PrefixOfDecoded(text[DecodeOne(text).value.1..], room - 1);
    }
  }

  /** A field read into a zeroed buffer is the extracted string when that fits. */
  lemma {:induction false} FieldTextExtracted(json: string, key: string, cap: nat)
    requires ExtractString(json, key, cap).Some?
    ensures FieldText(json, key, cap) == ExtractString(json, key, cap).value
  {
    PrefixOfDecoded(Located(json, key).value[1..], cap - 1);
  }

  lemma {:induction false} ValueStart(u: Value, tail: string)
    requires Wf(u)
    ensures Render(u) != "" && (Render(u)[0] == '"' <==> u.Str?)
    ensures (Render(u) + tail)[0] == Render(u)[0]
    ensures SkipBlanks(Render(u) + tail) == Render(u) + tail
  {
    if u.Int? {
      assert Decimal(u.n)[0] != '"';
    }
  }

  lemma {:induction false} DigitRunAll(ds: string, tail: string)
    requires forall i | 0 <= i < |ds| :: '0' <= ds[i] <= '9'
    requires tail == "" || !('0' <= tail[0] <= '9')
    ensures DigitRun(ds + tail) == |ds|
  {
    if ds == "" {
      assert ds + tail == tail;
    } else {
      assert (ds + tail)[1..] == ds[1..] + tail;
      DigitRunAll(ds[1..], tail);
    }
  }

  lemma {:induction false} DigitsValueOfDigits(n: nat)
    ensures DigitsValue(Digits(n)) == n
  {
    var d := Digits(n);
    if n < 10 {
      assert d[..0] == "";
    } else {
      DigitsValueOfDigits(n / 10);
      assert d[..|d| - 1] == Digits(n / 10);
    }
  }

  lemma {:induction false} ParseNat(m: nat, neg: bool, tail: string)
    requires Delimited(tail)
    ensures ParseDigits(Digits(m) + tail, neg) ==
            if m <= LONG_MAX then Parsed(if neg then -(m as int) else m) else Overflow
  {
    var ds := Digits(m);
    DigitsValueOfDigits(m);
    DigitRunAll(ds, tail);
    assert (ds + tail)[..|ds|] == ds;
  }

  lemma {:induction false} ParseDecimal(n: int, tail: string)
    requires Delimited(tail)
    ensures ParseInt(Decimal(n) + tail) == if -LONG_MAX <= n <= LONG_MAX then Parsed(n) else Overflow
  {
    if n < 0 {
      ParseNat(-n, true, tail);
      var t := Decimal(n) + tail;
      assert t[0] == '-' && t[1..] == Digits(-n) + tail;
    } else {
      ParseNat(n, false, tail);
      assert (Decimal(n) + tail)[0] == Digits(n)[0] != '-';
    }
  }

  /** The integer reader on the text of a floating-point value: its digits before the point. */
  lemma {:induction false} DigitRunStops(text: string, tail: string)
    requires Delimited(tail)
    ensures DigitRun(text + tail) == DigitRun(text)
  {
    if text == "" {
      assert text + tail == tail;
    } else if '0' <= text[0] <= '9' {
      assert (text + tail)[1..] == text[1..] + tail;
      DigitRunStops(text[1..], tail);
    }
  }

  lemma {:induction false} ParseNumeral(text: string, tail: string)
    requires |text| > 0 && Delimited(tail)
    ensures ParseInt(text + tail) == ParseInt(text)
  {
    if text[0] == '-' {
      assert (text + tail)[1..] == text[1..] + tail;
      ParseDigitsStops(text[1..], true, tail);
    } else {
      ParseDigitsStops(text, false, tail);
    }
  }

  lemma {:induction false} ParseDigitsStops(ds: string, neg: bool, tail: string)
    requires Delimited(tail)
    ensures ParseDigits(ds + tail, neg) == ParseDigits(ds, neg)
  {
    DigitRunStops(ds, tail);
    var n := DigitRun(ds);
    assert (ds + tail)[..n] == ds[..n];
  }

  /** Extracting an integer gives the integer the tree lookup gives. */
  lemma {:induction false} ExtractIntAgrees(v: Value, k: string)
    requires Wf(v) && Ident(k) && |k| + 3 < NEEDLE_CAP
    ensures ExtractInt(Render(v), k) ==
            match Lookup(v, k)
            case Some(Int(n)) => if -LONG_MAX <= n <= LONG_MAX then Parsed(n) else Overflow
            case Some(Dbl(text)) => ParseInt(text)
            case _ => Missing
  {
    var tail := LocatedAgrees(v, k);
    if Lookup(v, k).Some? {
      var u := Lookup(v, k).value;
      ValueStart(u, tail);
      if u.Int? {
        ParseDecimal(u.n, tail);
      } else if u.Dbl? {
        ParseNumeral(u.text, tail);
      }
    }
  }

  // ----- the reader's loops -----

  function Prepend(a: string, r: Option<string>): (p: Option<string>) {
    if r.None? then None else Some(a + r.value)
  }

  lemma {:induction false} PrependStep(a: string, t: string)
    requires DecodeOne(t).Some?
    ensures Prepend(a, Decode(t)) == Prepend(a + [DecodeOne(t).value.0], Decode(t[DecodeOne(t).value.1..]))
  {
    var c := DecodeOne(t).value;
    var rest := Decode(t[c.1..]);
    assert Decode(t) == if rest.None? then None else Some([c.0] + rest.value);
    if rest.Some? {
      assert a + ([c.0] + rest.value) == a + [c.0] + rest.value;
    }
  }

  /** Decodes into a fixed buffer, one character at a time, up to the closing quote. */
  method DecodeInto(body: string, out: array<char>) returns (n: int)
    requires out.Length > 0
    modifies out
    ensures n >= 0 <==> Decode(body).Some? && |Decode(body).value| < out.Length
    ensures n >= 0 ==> n < out.Length && out[n] == '\0' && out[..n] == Decode(body).value
  {
    var p, o := 0, 0;
    assert body[0..] == body;
    assert Decode(body).Some? ==> out[..0] + Decode(body).value == Decode(body).value;
    while p < |body|
      invariant 0 <= p <= |body| && 0 <= o < out.Length
      invariant Decode(body) == Prepend(out[..o], Decode(body[p..]))
    {
      if body[p] == '"' {
        out[o] := '\0';
        assert out[..o] + "" == out[..o];
        return o;
      }
      var c := DecodeOne(body[p..]);
      if c.None? || o + 1 >= out.Length {
        return -1;
      }
      PrependStep(out[..o], body[p..]);
      assert body[p + c.value.1..] == body[p..][c.value.1..];
      out[o] := c.value.0;
      assert out[..o + 1] == out[..o] + [c.value.0];
      p, o := p + c.value.1, o + 1;
    }
    return -1;
  }

  method ReadString(json: string, key: string, out: array<char>) returns (n: int)
    modifies out
    ensures n >= 0 <==> ExtractString(json, key, out.Length).Some?
    ensures n >= 0 ==> n < out.Length && out[n] == '\0' &&
                       out[..n] == ExtractString(json, key, out.Length).value
  {
    if out.Length == 0 || |key| + 3 >= NEEDLE_CAP {
      return -1;
    }
    var hit := After(json, Needle(key));
    if hit.None? {
      return -1;
    }
    var x := hit.value;
    var p := 0;
    while p < |x| && (x[p] == ' ' || x[p] == '\t')
      invariant 0 <= p <= |x| && SkipBlanks(x) == SkipBlanks(x[p..])
    {
      p := p + 1;
    }
    if p >= |x| || x[p] != '"' {
      return -1;
    }
    assert x[p..][1..] == x[p + 1..];
    n := DecodeInto(x[p + 1..], out);
  }

  method ReadInt(json: string, key: string) returns (r: IntResult)
    ensures r == ExtractInt(json, key)
  {
    var hit := Located(json, key);
    if hit.None? {
      return Missing;
    }
    var x := hit.value;
    if |x| > 0 && x[0] == '-' {
      r := ReadDigits(x[1..], true);
    } else {
      r := ReadDigits(x, false);
    }
  }

  method ReadDigits(ds: string, neg: bool) returns (r: IntResult)
    ensures r == ParseDigits(ds, neg)
  {
    if |ds| == 0 || ds[0] < '0' || ds[0] > '9' {
      return Missing;
    }
    var v: int, p := 0, 0;
    while p < |ds| && '0' <= ds[p] <= '9'
      invariant 0 <= p <= |ds| && DigitRun(ds) == p + DigitRun(ds[p..])
      invariant v == DigitsValue(ds[..p])
    {
      assert ds[..p + 1][..p] == ds[..p];
      v := v * 10 + (ds[p] as int - '0' as int);
      p := p + 1;
    }
    return if v > LONG_MAX then Overflow else Parsed(if neg then -v else v);
  }
}
