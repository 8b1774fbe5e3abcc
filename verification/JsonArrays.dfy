/** Reading arrays of objects out of JSON text.

    The readers of activity records and profile frames find an array by searching for its
    quoted name, going on to the next `[`, and copying brace-balanced objects out one by one
    into a fixed buffer. */
module JsonArrays {
  import opened Sequences
  import opened JsonTree
  import opened JsonExtract

  // ----- finding the array -----

  function FromChar(text: string, c: char): (r: Option<string>) {
    if text == "" then None else if text[0] == c then Some(text) else FromChar(text[1..], c)
  }

  /** The text from the first `[` after the first occurrence of the quoted name. */
  function ArrayText(json: string, name: string): (r: Option<string>) {
    var a := After(json, Tag(name));
    if a.None? then None else FromChar(a.value, '[')
  }

  /** A string value whose text contains the quoted name: it is the name itself, or it ends
      in a quotation mark followed by the name. */
  predicate Imitates(s: string, name: string) {
    s == name || (|s| > |name| && s[|s| - |name| - 1..] == "\"" + name)
  }

  /** Some string value or key inside the value is mistaken for the quoted name. */
  predicate HidesTag(v: Value, name: string)
    decreases v
  {
    match v
    case Str(s) => Imitates(s, name)
    case Obj(ms) => MembersHideTag(ms, name)
    case Arr(vs) => ItemsHideTag(vs, name)
    case _ => false
  }

  predicate MembersHideTag(ms: seq<Member>, name: string)
    decreases ms
  {
    exists i | 0 <= i < |ms| :: ms[i].key == name || HidesTag(ms[i].value, name)
  }

  predicate ItemsHideTag(vs: seq<Value>, name: string)
    decreases vs
  {
    exists i | 0 <= i < |vs| :: HidesTag(vs[i], name)
  }

  lemma {:induction false} FirstOccurrence(t: string, i: nat, needle: string)
    requires OccursAt(t, i, needle)
    ensures After(t, needle).Some? && |After(t, needle).value| >= |t| - i - |needle|
  {
    if t[..|needle|] != needle {
      assert i > 0 && needle != "";
      assert t[1..][i - 1..i - 1 + |needle|] == t[i..i + |needle|];
      FirstOccurrence(t[1..], i - 1, needle);
    }
  }

  lemma {:induction false} EscapeAppend(a: string, b: string)
    ensures Escape(a + b) == Escape(a) + Escape(b)
  {
    if a == "" {
      assert a + b == b;
    } else {
      assert (a + b)[1..] == a[1..] + b;
      EscapeAppend(a[1..], b);
    }
  }

  lemma {:induction false} UnescapedIdent(s: string, k: string)
    requires Escape(s) == k && forall i | 0 <= i < |k| :: IdentChar(k[i])
    ensures s == k
  {
    if s != "" {
      var e := EscapeChar(s[0]);
      assert k == e + Escape(s[1..]);
      assert IdentChar(k[0]);
      assert e == [s[0]];
      UnescapedIdent(s[1..], k[1..]);
      assert s == [s[0]] + s[1..];
    }
  }

  lemma {:induction false} Overlap(a: string, b: string, c: string, d: string)
    requires a + b == c + d && |a| <= |c|
    ensures b == c[|a|..] + d
  {
    assert (a + b)[|a|..] == b && (c + d)[|a|..] == c[|a|..] + d;
  }

  lemma {:induction false} QuoteAtHead(s: string, x: string, k: string)
    requires Ident(k) && Escape(s) == x + ("\"" + k) && s != "" && |x| < |EscapeChar(s[0])|
    ensures s == "\"" + k
  {
    var e, rest := EscapeChar(s[0]), Escape(s[1..]);
    assert e[|x|] == (e + rest)[|x|] == (x + ("\"" + k))[|x|] == '"';
    assert rest == (e + rest)[2..] == (x + ("\"" + k))[2..] == k;
    UnescapedIdent(s[1..], k);
  }

  /** A quotation mark followed by a name, seen in the escaped text, is there in the string. */
  lemma {:induction false} QuoteSurvives(s: string, x: string, k: string)
    requires Ident(k) && Escape(s) == x + ("\"" + k)
    ensures |s| > |k| && s[|s| - |k| - 1..] == "\"" + k
  {
    var e := EscapeChar(s[0]);
    if |e| <= |x| {
      Overlap(e, Escape(s[1..]), x, "\"" + k);
      QuoteSurvives(s[1..], x[|e|..], k);
      assert s[|s| - |k| - 1..] == s[1..][|s[1..]| - |k| - 1..];
    } else {
      QuoteAtHead(s, x, k);
    }
  }

  lemma {:induction false} EscapedImitation(s: string, k: string)
    requires Ident(k) && |s| > |k| && s[|s| - |k| - 1..] == "\"" + k
    ensures Quote(s) == "\"" + Escape(s[..|s| - |k| - 1]) + "\\" + Tag(k)
  {
    var p := s[..|s| - |k| - 1];
    assert s == p + ("\"" + k);
    EscapeAppend(p, "\"" + k);
    EscapeIdent(k);
    assert Escape("\"" + k) == "\\\"" + k by {
      assert ("\"" + k)[1..] == k;
    }
    QuotedTail(Escape(p), k);
  }

  lemma QuotedTail(e: string, k: string)
    ensures "\"" + (e + ("\\\"" + k)) + "\"" == "\"" + e + "\\" + Tag(k)
  {
  }

  lemma {:induction false} ImitationOccurs(s: string, r: string, k: string)
    requires Ident(k) && Imitates(s, k)
    ensures |Quote(s)| >= |Tag(k)| && OccursAt(Quote(s) + r, |Quote(s)| - |Tag(k)|, Tag(k))
  {
    var q, n := Quote(s), Tag(k);
    EscapeIdent(k);
    if s != k {
      EscapedImitation(s, k);
    }
    var i := |q| - |n|;
    assert (q + r)[i..i + |n|] == q[i..] == n;
  }

  lemma {:induction false} OccurrenceImitates(s: string, r: string, k: string, i: nat)
    requires Ident(k) && Delimited(r) && i < |Quote(s)| && OccursAt(Quote(s) + r, i, Tag(k))
    ensures Imitates(s, k)
  {
    StringTag(s, r, k, i);
    var q, n := Quote(s), Tag(k);
    assert q[i..] == (q + r)[i..i + |n|] == n;
    assert n[1..|k| + 1] == k;
    if i == 0 {
      assert Escape(s) == q[1..|q| - 1] == n[1..|k| + 1];
      UnescapedIdent(s, k);
    } else {
      assert Escape(s) == q[1..|q| - 1] == q[1..i] + n[..|k| + 1];
      assert n[..|k| + 1] == "\"" + k;
      QuoteSurvives(s, q[1..i], k);
    }
  }

  /** What the search for a quoted name does on a text: it stops inside when something in it
      is mistaken for the name, and passes over all of it otherwise. */
  ghost predicate TagSearch(found: Option<string>, hides: bool, past: Option<string>, r: string) {
    if hides then found.Some? && |found.value| >= |r| else found == past
  }

  lemma {:induction false} TagInString(s: string, r: string, k: string)
    requires Ident(k) && Delimited(r)
    ensures TagSearch(After(Quote(s) + r, Tag(k)), Imitates(s, k), After(r, Tag(k)), r)
  {
    var q := Quote(s);
    if Imitates(s, k) {
      ImitationOccurs(s, r, k);
      FirstOccurrence(q + r, |q| - |Tag(k)|, Tag(k));
    } else {
      forall i | 0 <= i < |q| ensures !OccursAt(q + r, i, Tag(k)) {
        if OccursAt(q + r, i, Tag(k)) {
          OccurrenceImitates(s, r, k, i);
        }
      }
      SkipPrefix(q, r, Tag(k));
    }
  }

  lemma {:induction false} TagInValue(v: Value, k: string, r: string)
    requires Wf(v) && Ident(k) && Delimited(r)
    ensures TagSearch(After(Render(v) + r, Tag(k)), HidesTag(v, k), After(r, Tag(k)), r)
    decreases v, 1
  {
    match v
    case Str(s) => TagInString(s, r, k);
    case Obj(ms) =>
      TagInMembers(ms, k, "}" + r);
      BracketsSkipped("{", RenderMembers(ms), "}", r, k);
    case Arr(vs) =>
      TagInItems(vs, k, "]" + r);
      BracketsSkipped("[", RenderItems(vs), "]", r, k);
    case _ => NoQuoteSkipped(Render(v), r, Tag(k));
  }

  lemma {:induction false} BracketsSkipped(open: string, inner: string, close: string, r: string, k: string)
    requires forall i | 0 <= i < |open| :: open[i] != '"'
    requires forall i | 0 <= i < |close| :: close[i] != '"'
    ensures After(open + inner + close + r, Tag(k)) == After(inner + (close + r), Tag(k))
    ensures After(close + r, Tag(k)) == After(r, Tag(k))
  {
    assert open + inner + close + r == open + (inner + (close + r));
    NoQuoteSkipped(open, inner + (close + r), Tag(k));
    NoQuoteSkipped(close, r, Tag(k));
  }

  /** The first member: passed over, or where the search stops. */
  lemma {:induction false} TagInFirst(ms: seq<Member>, k: string, r: string)
    requires |ms| > 0 && WfMembers(ms) && Ident(k) && Delimited(r)
    ensures var more := RenderMoreMembers(ms[1..]) + r;
            TagSearch(After(RenderMembers(ms) + r, Tag(k)), ms[0].key == k || HidesTag(ms[0].value, k),
                      After(more, Tag(k)), more)
    ensures ms[0].key == k ==>
              After(RenderMembers(ms) + r, Tag(k)) ==
              Some(":" + (Render(ms[0].value) + (RenderMoreMembers(ms[1..]) + r)))
    decreases ms, 0
  {
    var m, more := ms[0], RenderMoreMembers(ms[1..]) + r;
    assert RenderMembers(ms) + r == Quote(m.key) + ":" + (Render(m.value) + more);
    assert Delimited(more);
    if m.key == k {
      ThisKeyFound(k, Render(m.value) + more);
    } else {
      OtherKeySkipped(m.key, Render(m.value) + more, k);
      TagInValue(m.value, k, more);
    }
  }

  lemma {:induction false} CommaSkipped(ms: seq<Member>, k: string, r: string)
    requires |ms| > 0
    ensures After(RenderMoreMembers(ms) + r, Tag(k)) == After(RenderMembers(ms) + r, Tag(k))
  {
    assert RenderMoreMembers(ms) + r == "," + (RenderMembers(ms) + r);
    NoQuoteSkipped(",", RenderMembers(ms) + r, Tag(k));
  }

  lemma {:induction false} TagInMembers(ms: seq<Member>, k: string, r: string)
    requires WfMembers(ms) && Ident(k) && Delimited(r)
    ensures TagSearch(After(RenderMembers(ms) + r, Tag(k)), MembersHideTag(ms, k), After(r, Tag(k)), r)
    decreases ms, 1
  {
    if |ms| == 0 {
      assert RenderMembers(ms) + r == r;
    } else {
      TagInFirst(ms, k, r);
      if ms[0].key != k && !HidesTag(ms[0].value, k) {
        HiddenLater(ms, k);
        TagInMembers(ms[1..], k, r);
        if |ms| > 1 {
          CommaSkipped(ms[1..], k, r);
        } else {
          assert RenderMoreMembers(ms[1..]) + r == r == RenderMembers(ms[1..]) + r;
        }
      }
    }
  }

  lemma {:induction false} TagInItems(vs: seq<Value>, k: string, r: string)
    requires WfItems(vs) && Ident(k) && Delimited(r)
    ensures TagSearch(After(RenderItems(vs) + r, Tag(k)), ItemsHideTag(vs, k), After(r, Tag(k)), r)
    decreases vs, 0
  {
    if |vs| == 0 {
      assert RenderItems(vs) + r == r;
    } else {
      var more := RenderMoreItems(vs[1..]) + r;
      Concat3(Render(vs[0]), RenderMoreItems(vs[1..]), r);
      assert Delimited(more);
      TagInValue(vs[0], k, more);
      if !HidesTag(vs[0], k) {
        HiddenLaterItem(vs, k);
        TagInItems(vs[1..], k, r);
        if |vs| > 1 {
          Concat3(",", RenderItems(vs[1..]), r);
          NoQuoteSkipped(",", RenderItems(vs[1..]) + r, Tag(k));
        } else {
          assert more == r == RenderItems(vs[1..]) + r;
        }
      }
    }
  }

  lemma {:induction false} HiddenLaterItem(vs: seq<Value>, k: string)
    requires |vs| > 0 && !HidesTag(vs[0], k)
    ensures ItemsHideTag(vs, k) <==> ItemsHideTag(vs[1..], k)
  {
    assert forall i | 0 <= i < |vs[1..]| :: vs[1..][i] == vs[i + 1];
    assert forall i | 1 <= i < |vs| :: vs[i] == vs[1..][i - 1];
  }

  lemma {:induction false} HiddenLater(ms: seq<Member>, k: string)
    requires |ms| > 0
    ensures MembersHideTag(ms, k) <==>
            ms[0].key == k || HidesTag(ms[0].value, k) || MembersHideTag(ms[1..], k)
  {
    if MembersHideTag(ms[1..], k) {
      var i :| 0 <= i < |ms[1..]| && (ms[1..][i].key == k || HidesTag(ms[1..][i].value, k));
      assert ms[i + 1] == ms[1..][i];
    } else {
      assert forall i | 1 <= i < |ms| :: ms[i] == ms[1..][i - 1];
    }
  }

  /** The text right after the quoted name of member `i`. */
  function AfterName(ms: seq<Member>, i: nat, r: string): (t: string)
    requires i < |ms|
  {
    ":" + (Render(ms[i].value) + (RenderMoreMembers(ms[i + 1..]) + r))
  }

  lemma {:induction false} AfterNameTail(ms: seq<Member>, i: nat, r: string)
    requires 0 < i < |ms|
    ensures AfterName(ms, i, r) == AfterName(ms[1..], i - 1, r)
  {
    assert ms[1..][i - 1 + 1..] == ms[i + 1..];
  }

  /** The text after a member's name is shorter than the text of the members. */
  lemma {:induction false} AfterNameInside(ms: seq<Member>, i: nat, r: string)
    requires i < |ms|
    ensures |AfterName(ms, i, r)| < |RenderMoreMembers(ms) + r|
    decreases i
  {
    var t := RenderMember(ms[0]);
    assert |t| == |Quote(ms[0].key)| + 1 + |Render(ms[0].value)|;
    assert |RenderMoreMembers(ms)| == 1 + |t| + |RenderMoreMembers(ms[1..])|;
    if i > 0 {
      AfterNameTail(ms, i, r);
      AfterNameInside(ms[1..], i - 1, r);
    }
  }

  /** The search for the quoted name of member `i` stops right after that name exactly when
      nothing before it is mistaken for the name. */
  lemma {:induction false} MemberFoundIff(ms: seq<Member>, i: nat, r: string)
    requires WfMembers(ms) && i < |ms| && Delimited(r)
    ensures After(RenderMembers(ms) + r, Tag(ms[i].key)) == Some(AfterName(ms, i, r))
            <==> !MembersHideTag(ms[..i], ms[i].key)
    ensures After(RenderMembers(ms) + r, Tag(ms[i].key)).Some?
    ensures |After(RenderMembers(ms) + r, Tag(ms[i].key)).value| >= |AfterName(ms, i, r)|
    decreases i
  {
    var k := ms[i].key;
    TagInFirst(ms, k, r);
    if i > 0 {
      HiddenLater(ms[..i], k);
      assert ms[..i][1..] == ms[1..][..i - 1];
      AfterNameTail(ms, i, r);
      if ms[0].key == k || HidesTag(ms[0].value, k) {
        AfterNameInside(ms[1..], i - 1, r);
      } else {
        CommaSkipped(ms[1..], k, r);
        MemberFoundIff(ms[1..], i - 1, r);
      }
    }
  }

  /** An imitation ends where its string ends, and there the search goes on. */
  lemma {:induction false} ImitationFound(s: string, r: string, k: string)
    requires Ident(k) && Delimited(r) && Imitates(s, k)
    ensures After(Quote(s) + r, Tag(k)) == Some(r)
  {
    var q, n := Quote(s), Tag(k);
    ImitationOccurs(s, r, k);
    var lead := q[..|q| - |n|];
    assert (q + r)[|lead|..|q|] == n;
    assert q + r == lead + (n + r);
    forall i | 0 <= i < |lead| ensures !OccursAt(lead + (n + r), i, n) {
      StringTag(s, r, k, i);
    }
    SkipPrefix(lead, n + r, n);
    assert (n + r)[..|n|] == n && (n + r)[|n|..] == r;
  }

  lemma {:induction false} ImitatorFound(ms: seq<Member>, k: string, r: string)
    requires |ms| > 0 && Ident(k) && Ident(ms[0].key) && ms[0].key != k && Delimited(r)
    requires ms[0].value.Str? && Imitates(ms[0].value.s, k)
    ensures After(RenderMembers(ms) + r, Tag(k)) == Some(RenderMoreMembers(ms[1..]) + r)
  {
    var s, more := ms[0].value.s, RenderMoreMembers(ms[1..]) + r;
    FirstMemberText(ms, r);
    OtherKeySkipped(ms[0].key, Quote(s) + more, k);
    assert Delimited(more);
    ImitationFound(s, more, k);
  }

  /** The search passes over leading members that hide nothing. */
  lemma {:induction false} MembersSkipped(pre: seq<Member>, ms: seq<Member>, k: string, r: string)
    requires WfMembers(pre + ms) && |ms| > 0 && Ident(k) && Delimited(r) && !MembersHideTag(pre, k)
    ensures After(RenderMembers(pre + ms) + r, Tag(k)) == After(RenderMembers(ms) + r, Tag(k))
    decreases |pre|
  {
    if |pre| == 0 {
      assert pre + ms == ms;
    } else {
      var all := pre + ms;
      HiddenLater(pre, k);
      TagInFirst(all, k, r);
      assert all[1..] == pre[1..] + ms;
      CommaSkipped(all[1..], k, r);
      MembersSkipped(pre[1..], ms, k, r);
    }
  }

  // ----- landing on the array -----

  predicate Suffix(t: string, text: string) {
    |t| <= |text| && text[|text| - |t|..] == t
  }

  lemma {:induction false} AfterSuffix(text: string, needle: string)
    requires After(text, needle).Some?
    ensures Suffix(After(text, needle).value, text)
  {
    if text[..|needle|] != needle {
      AfterSuffix(text[1..], needle);
    }
  }

  lemma {:induction false} AfterNameSuffix(ms: seq<Member>, i: nat, r: string)
    requires i < |ms|
    ensures Suffix(AfterName(ms, i, r), RenderMembers(ms) + r)
    decreases i
  {
    if i == 0 {
      FirstNameText(ms, r);
      SuffixPrepended(AfterName(ms, 0, r), Quote(ms[0].key), AfterName(ms, 0, r));
    } else {
      AfterNameTail(ms, i, r);
      AfterNameSuffix(ms[1..], i - 1, r);
      MoreMembersText(ms, r);
      SuffixPrepended(AfterName(ms, i, r), RenderMember(ms[0]) + ",", RenderMembers(ms[1..]) + r);
    }
  }

  lemma {:induction false} FirstNameText(ms: seq<Member>, r: string)
    requires |ms| > 0
    ensures RenderMembers(ms) + r == Quote(ms[0].key) + AfterName(ms, 0, r)
  {
    FirstMemberText(ms, r);
  }

  lemma {:induction false} MoreMembersText(ms: seq<Member>, r: string)
    requires |ms| > 1
    ensures RenderMembers(ms) + r == (RenderMember(ms[0]) + ",") + (RenderMembers(ms[1..]) + r)
  {
    Concat4(RenderMember(ms[0]), ",", RenderMembers(ms[1..]), r);
    Concat3(RenderMember(ms[0]), ",", RenderMembers(ms[1..]));
    Concat3(RenderMember(ms[0]) + ",", RenderMembers(ms[1..]), r);
  }

  lemma {:induction false} SuffixPrepended(t: string, lead: string, text: string)
    requires Suffix(t, text)
    ensures Suffix(t, lead + text)
  {
    assert (lead + text)[|lead| + |text| - |t|..] == text[|text| - |t|..];
  }

  /** The text from the array of member `i` of a root object to the end. */
  function ArrayOnward(ms: seq<Member>, i: nat): (arr: string)
    requires i < |ms|
  {
    Render(ms[i].value) + (RenderMoreMembers(ms[i + 1..]) + "}")
  }

  /** The text between the first place where the quoted name of member `i` is found and that
      member's value. */
  function Gap(ms: seq<Member>, i: nat): (gap: string)
    requires i < |ms|
  {
    var u := After(Render(Obj(ms)), Tag(ms[i].key));
    if u.None? || |u.value| < |ArrayOnward(ms, i)| then "" else u.value[..|u.value| - |ArrayOnward(ms, i)|]
  }

  lemma {:induction false} RootOpened(ms: seq<Member>, k: string)
    ensures After(Render(Obj(ms)), Tag(k)) == After(RenderMembers(ms) + "}", Tag(k))
  {
    assert Render(Obj(ms)) == "{" + (RenderMembers(ms) + "}");
    NoQuoteSkipped("{", RenderMembers(ms) + "}", Tag(k));
  }

  /** The search stops before the value, wherever else it may stop. */
  lemma {:induction false} GapBefore(ms: seq<Member>, i: nat)
    requires WfMembers(ms) && i < |ms|
    ensures After(Render(Obj(ms)), Tag(ms[i].key)) == Some(Gap(ms, i) + ArrayOnward(ms, i))
    ensures !MembersHideTag(ms[..i], ms[i].key) ==> Gap(ms, i) == ":"
  {
    var k, all := ms[i].key, RenderMembers(ms) + "}";
    RootOpened(ms, k);
    MemberFoundIff(ms, i, "}");
    AfterNameSuffix(ms, i, "}");
    AfterSuffix(all, Tag(k));
    var u, arr := After(all, Tag(k)).value, ArrayOnward(ms, i);
    assert AfterName(ms, i, "}") == ":" + arr;
    SuffixOfSuffix(arr, AfterName(ms, i, "}"), all);
    SuffixesNest(arr, u, all);
  }

  lemma {:induction false} SuffixOfSuffix(a: string, b: string, text: string)
    requires Suffix(b, text) && |b| > 0 && a == b[1..]
    ensures Suffix(a, text)
  {
  }

  lemma {:induction false} SuffixesNest(a: string, b: string, text: string)
    requires Suffix(a, text) && Suffix(b, text) && |a| <= |b|
    ensures b == b[..|b| - |a|] + a
  {
  }

  /** Going on to the next bracket, and from there to the next brace, leads past this text. */
  predicate Passable(gap: string) {
    var b := FromChar(gap, '[');
    b.None? || ('{' !in b.value && ']' !in b.value)
  }

  lemma {:induction false} FromCharInGap(gap: string, arr: string)
    requires arr != "" && arr[0] == '['
    ensures FromChar(gap + arr, '[') ==
            if FromChar(gap, '[').Some? then Some(FromChar(gap, '[').value + arr) else Some(arr)
    ensures FromChar(gap, '[').Some? <==> '[' in gap
    ensures '[' in gap ==> FromChar(gap, '[').value != ""
  {
    if gap == "" {
      assert gap + arr == arr;
    } else {
      assert (gap + arr)[1..] == gap[1..] + arr;
      FromCharInGap(gap[1..], arr);
    }
  }

  lemma {:induction false} ToBraceInGap(g: string, arr: string)
    ensures if '{' in g || ']' in g then |ToBrace(g + arr)| > |arr| else ToBrace(g + arr) == ToBrace(arr)
  {
    if g == "" {
      assert g + arr == arr;
    } else {
      assert (g + arr)[1..] == g[1..] + arr;
      if g[0] != '{' && g[0] != ']' {
        ToBraceInGap(g[1..], arr);
      }
    }
  }

  /** The reader finds the objects of this array. */
  predicate Reached(ms: seq<Member>, i: nat)
    requires i < |ms|
  {
    Passable(Gap(ms, i))
  }

  /** Reading an array of a root object, exactly: the reader lands on its opening bracket if and
      only if there is no bracket between the first place where the quoted name is found and the
      array; and it finds the objects of the array if and only if no brace and no closing
      bracket follows such a bracket before the array. */
  lemma {:induction false} ArrayReachedIff(ms: seq<Member>, i: nat)
    requires WfMembers(ms) && i < |ms| && ms[i].value.Arr?
    ensures ArrayText(Render(Obj(ms)), ms[i].key) == Some(ArrayOnward(ms, i)) <==> '[' !in Gap(ms, i)
    ensures ArrayText(Render(Obj(ms)), ms[i].key).Some?
    ensures ToBrace(ArrayText(Render(Obj(ms)), ms[i].key).value) == ToBrace(ArrayOnward(ms, i)) <==> Reached(ms, i)
  {
    var gap, arr := Gap(ms, i), ArrayOnward(ms, i);
    GapBefore(ms, i);
    FromCharInGap(gap, arr);
    if '[' in gap {
      ToBraceInGap(FromChar(gap, '[').value, arr);
    }
  }

  /** It is enough that nothing before the array is mistaken for its name. */
  lemma {:induction false} UnhiddenReached(ms: seq<Member>, i: nat)
    requires WfMembers(ms) && i < |ms| && !MembersHideTag(ms[..i], ms[i].key)
    ensures Reached(ms, i)
  {
    GapBefore(ms, i);
    assert FromChar(":", '[') == None by {
      assert ":"[1..] == "";
    }
  }

  // ----- copying objects out -----

  /** The text from the first `{`, or from an earlier `]`. */
  function ToBrace(text: string): (r: string)
    ensures |r| <= |text|
  {
    if text == "" || text[0] == '{' || text[0] == ']' then text else ToBrace(text[1..])
  }

  /** Length of the text up to the brace that brings the depth back to zero, strings
      skipped; all of the text when there is none. */
  function ScanLength(text: string, depth: int, inString: bool): (n: nat)
    ensures n <= |text|
  {
    if text == "" then 0
    else if inString then
      if text[0] == '\\' && |text| > 1 then 2 + ScanLength(text[2..], depth, true)
      else 1 + ScanLength(text[1..], depth, text[0] != '"')
    else if text[0] == '"' then 1 + ScanLength(text[1..], depth, true)
    else if text[0] == '{' then 1 + ScanLength(text[1..], depth + 1, false)
    else if text[0] == '}' then
      if depth == 1 then 1 else 1 + ScanLength(text[1..], depth - 1, false)
    else 1 + ScanLength(text[1..], depth, false)
  }

  /** The next object of an array and the text after it; `None` at the end of the array and
      when the object does not fit the buffer. */
  function NextObject(text: string, cap: nat): (r: Option<(string, string)>)
    ensures r.Some? ==> |r.value.1| < |text|
  {
    var t := ToBrace(text);
    if t == "" || t[0] != '{' then None
    else
      var n := ScanLength(t, 0, false);
      if n == 0 || n >= cap then None else Some((t[..n], t[n..]))
  }

  /** All objects the reader copies out, at most `max` of them. */
  function Objects(text: string, cap: nat, max: nat): (r: seq<string>)
    decreases max
  {
    if max == 0 then []
    else
      var o := NextObject(text, cap);
      if o.None? then [] else [o.value.0] + Objects(o.value.1, cap, max - 1)
  }

  function ArrayObjects(json: string, name: string, cap: nat, max: nat): (objs: seq<string>) {
    var p := ArrayText(json, name);
    if p.None? then [] else Objects(p.value, cap, max)
  }

  lemma {:induction false} ScanStep(c: char, r: string, depth: int, inString: bool)
    requires inString ==> c != '\\'
    requires !inString ==> !(c == '}' && depth == 1)
    ensures ScanLength([c] + r, depth, inString) ==
            1 + if inString then ScanLength(r, depth, c != '"')
                else ScanLength(r, if c == '{' then depth + 1 else if c == '}' then depth - 1 else depth, c == '"')
  {
    assert ([c] + r)[1..] == r;
  }

  lemma {:induction false} ScanPlain(a: string, r: string, depth: int)
    requires forall i | 0 <= i < |a| :: a[i] != '"' && a[i] != '{' && a[i] != '}'
    ensures ScanLength(a + r, depth, false) == |a| + ScanLength(r, depth, false)
  {
    if a == "" {
      assert a + r == r;
    } else {
      assert a + r == [a[0]] + (a[1..] + r);
      ScanStep(a[0], a[1..] + r, depth, false);
      ScanPlain(a[1..], r, depth);
    }
  }

  lemma {:induction false} ScanEscapedChar(c: char, r: string, depth: int)
    ensures ScanLength(EscapeChar(c) + r, depth, true) == |EscapeChar(c)| + ScanLength(r, depth, true)
  {
    var e := EscapeChar(c);
    var t := e + r;
    if |e| == 1 {
      assert t == [c] + r;
      ScanStep(c, r, depth, true);
    } else {
      assert t[2..] == e[2..] + r;
      ScanInside(e[2..], r, depth);
    }
  }

  lemma {:induction false} ScanInside(a: string, r: string, depth: int)
    requires forall i | 0 <= i < |a| :: a[i] != '"' && a[i] != '\\'
    ensures ScanLength(a + r, depth, true) == |a| + ScanLength(r, depth, true)
  {
    if a == "" {
      assert a + r == r;
    } else {
      assert a + r == [a[0]] + (a[1..] + r);
      ScanStep(a[0], a[1..] + r, depth, true);
      ScanInside(a[1..], r, depth);
    }
  }

  lemma {:induction false} ScanEscaped(s: string, r: string, depth: int)
    ensures ScanLength(Escape(s) + r, depth, true) == |Escape(s)| + ScanLength(r, depth, true)
  {
    if s == "" {
      assert Escape(s) + r == r;
    } else {
      assert Escape(s) + r == EscapeChar(s[0]) + (Escape(s[1..]) + r);
      ScanEscapedChar(s[0], Escape(s[1..]) + r, depth);
      ScanEscaped(s[1..], r, depth);
    }
  }

  lemma {:induction false} ScanQuoted(s: string, r: string, depth: int)
    ensures ScanLength(Quote(s) + r, depth, false) == |Quote(s)| + ScanLength(r, depth, false)
  {
    assert Quote(s) + r == ['"'] + (Escape(s) + (['"'] + r));
    ScanStep('"', Escape(s) + (['"'] + r), depth, false);
    ScanEscaped(s, ['"'] + r, depth);
    ScanStep('"', r, depth, true);
  }

  /** Inside an object, a whole value leaves the depth as it was. */
  lemma {:induction false} ScanValue(v: Value, r: string, depth: int)
    requires Wf(v) && depth >= 1
    ensures ScanLength(Render(v) + r, depth, false) == |Render(v)| + ScanLength(r, depth, false)
    decreases v, 1
  {
    match v
    case Str(s) => ScanQuoted(s, r, depth);
    case Obj(ms) =>
      ScanMembers(ms, ['}'] + r, depth + 1);
      ScanBraces(RenderMembers(ms), r, depth);
    case Arr(vs) =>
      ScanItems(vs, [']'] + r, depth);
      ScanBrackets(RenderItems(vs), r, depth);
    case _ => ScanPlain(Render(v), r, depth);
  }

  lemma {:induction false} ScanBraces(inner: string, r: string, depth: int)
    requires depth >= 1
    requires ScanLength(inner + (['}'] + r), depth + 1, false) ==
             |inner| + ScanLength(['}'] + r, depth + 1, false)
    ensures ScanLength("{" + inner + "}" + r, depth, false) == |inner| + 2 + ScanLength(r, depth, false)
  {
    assert "{" + inner + "}" + r == ['{'] + (inner + (['}'] + r));
    ScanStep('{', inner + (['}'] + r), depth, false);
    ScanStep('}', r, depth + 1, false);
  }

  lemma {:induction false} ScanBrackets(inner: string, r: string, depth: int)
    requires depth >= 1
    requires ScanLength(inner + ([']'] + r), depth, false) == |inner| + ScanLength([']'] + r, depth, false)
    ensures ScanLength("[" + inner + "]" + r, depth, false) == |inner| + 2 + ScanLength(r, depth, false)
  {
    assert "[" + inner + "]" + r == ['['] + (inner + ([']'] + r));
    ScanStep('[', inner + ([']'] + r), depth, false);
    ScanStep(']', r, depth, false);
  }

  lemma {:induction false} ScanMembers(ms: seq<Member>, r: string, depth: int)
    requires WfMembers(ms) && depth >= 1
    ensures ScanLength(RenderMembers(ms) + r, depth, false) == |RenderMembers(ms)| + ScanLength(r, depth, false)
    decreases ms, 0
  {
    if |ms| == 0 {
      assert RenderMembers(ms) + r == r;
    } else {
      var m, more := ms[0], RenderMoreMembers(ms[1..]) + r;
      assert RenderMembers(ms) + r == Quote(m.key) + (":" + (Render(m.value) + more));
      ScanQuoted(m.key, ":" + (Render(m.value) + more), depth);
      ScanPlain(":", Render(m.value) + more, depth);
      ScanValue(m.value, more, depth);
      ScanMoreMembers(ms[1..], r, depth);
    }
  }

  lemma {:induction false} ScanMoreMembers(ms: seq<Member>, r: string, depth: int)
    requires WfMembers(ms) && depth >= 1
    ensures ScanLength(RenderMoreMembers(ms) + r, depth, false) ==
            |RenderMoreMembers(ms)| + ScanLength(r, depth, false)
    decreases ms, 1
  {
    if |ms| == 0 {
      assert RenderMoreMembers(ms) + r == r;
    } else {
      assert RenderMoreMembers(ms) + r == "," + (RenderMembers(ms) + r);
      ScanPlain(",", RenderMembers(ms) + r, depth);
      ScanMembers(ms, r, depth);
    }
  }

  lemma {:induction false} ScanItems(vs: seq<Value>, r: string, depth: int)
    requires WfItems(vs) && depth >= 1
    ensures ScanLength(RenderItems(vs) + r, depth, false) == |RenderItems(vs)| + ScanLength(r, depth, false)
    decreases vs, 0
  {
    if |vs| == 0 {
      assert RenderItems(vs) + r == r;
    } else {
      var more := RenderMoreItems(vs[1..]) + r;
      assert RenderItems(vs) + r == Render(vs[0]) + more;
      ScanValue(vs[0], more, depth);
      ScanMoreItems(vs[1..], r, depth);
    }
  }

  lemma {:induction false} ScanMoreItems(vs: seq<Value>, r: string, depth: int)
    requires WfItems(vs) && depth >= 1
    ensures ScanLength(RenderMoreItems(vs) + r, depth, false) ==
            |RenderMoreItems(vs)| + ScanLength(r, depth, false)
    decreases vs, 1
  {
    if |vs| == 0 {
      assert RenderMoreItems(vs) + r == r;
    } else {
      assert RenderMoreItems(vs) + r == "," + (RenderItems(vs) + r);
      ScanPlain(",", RenderItems(vs) + r, depth);
      ScanItems(vs, r, depth);
    }
  }

  /** The scanner takes exactly the text of an object. */
  lemma {:induction false} ScanObject(ms: seq<Member>, r: string)
    requires WfMembers(ms)
    ensures ScanLength(Render(Obj(ms)) + r, 0, false) == |Render(Obj(ms))|
  {
    var inner := RenderMembers(ms);
    assert Render(Obj(ms)) + r == ['{'] + (inner + (['}'] + r));
    ScanStep('{', inner + (['}'] + r), 0, false);
    ScanMembers(ms, ['}'] + r, 1);
  }

  /** How many leading elements fit the reader's buffer. */
  function FittingPrefix(vs: seq<Value>, cap: nat): (n: nat)
    ensures n <= |vs|
  {
    if |vs| == 0 || |Render(vs[0])| >= cap then 0 else 1 + FittingPrefix(vs[1..], cap)
  }

  /** The texts of the first `n` values. */
  function Texts(vs: seq<Value>, n: nat): (r: seq<string>)
    requires n <= |vs|
    ensures |r| == n && forall i | 0 <= i < n :: r[i] == Render(vs[i])
  {
    if n == 0 then [] else [Render(vs[0])] + Texts(vs[1..], n - 1)
  }

  lemma {:induction false} NextObjectIs(lead: char, ms: seq<Member>, r: string, cap: nat)
    requires WfMembers(ms) && (lead == '[' || lead == ',')
    ensures NextObject([lead] + Render(Obj(ms)) + r, cap) ==
            if |Render(Obj(ms))| < cap then Some((Render(Obj(ms)), r)) else None
  {
    var o := Render(Obj(ms));
    ScanObject(ms, r);
    var t := [lead] + o + r;
    assert t[1..] == o + r && (o + r)[0] == '{';
    assert ToBrace(t) == o + r;
    assert (o + r)[..|o|] == o && (o + r)[|o|..] == r;
  }

  /** The reader copies out the elements of an array in order: all that fit, up to the first
      one that does not and up to its own limit. */
  lemma {:induction false} ObjectsOfArray(vs: seq<Value>, lead: char, tail: string, cap: nat, max: nat)
    requires WfItems(vs) && forall i | 0 <= i < |vs| :: vs[i].Obj?
    requires lead == '[' || (lead == ',' && |vs| > 0)
    ensures var n := FittingPrefix(vs, cap);
            Objects([lead] + RenderItems(vs) + "]" + tail, cap, max) ==
            Texts(vs, if n < max then n else max)
    decreases max
  {
    var text := [lead] + RenderItems(vs) + "]" + tail;
    if |vs| == 0 {
      assert text[1..] == "]" + tail;
      assert ToBrace(text) == text[1..];
    } else if max > 0 {
      var more := RenderMoreItems(vs[1..]) + "]" + tail;
      Concat5([lead], Render(vs[0]), RenderMoreItems(vs[1..]), "]", tail);
      NextObjectIs(lead, vs[0].members, more, cap);
      if |Render(vs[0])| < cap {
        if |vs| > 1 {
          ObjectsOfArray(vs[1..], ',', tail, cap, max - 1);
        } else {
          ArrayEnds(more, tail, cap);
        }
      }
    }
  }

  lemma {:induction false} SameObjects(t: string, u: string, cap: nat, max: nat)
    requires ToBrace(t) == ToBrace(u)
    ensures Objects(t, cap, max) == Objects(u, cap, max)
  {
  }

  /** What the reader gets out of an array it reaches. */
  lemma {:induction false} ReachedObjects(ms: seq<Member>, i: nat, cap: nat, max: nat)
    requires WfMembers(ms) && i < |ms| && ms[i].value.Arr? && Reached(ms, i)
    requires forall j | 0 <= j < |ms[i].value.items| :: ms[i].value.items[j].Obj?
    ensures var vs := ms[i].value.items;
            var n := FittingPrefix(vs, cap);
            ArrayObjects(Render(Obj(ms)), ms[i].key, cap, max) == Texts(vs, if n < max then n else max)
  {
    var vs, tail := ms[i].value.items, RenderMoreMembers(ms[i + 1..]) + "}";
    ArrayReachedIff(ms, i);
    assert Wf(ms[i].value);
    assert ArrayOnward(ms, i) == ['['] + RenderItems(vs) + "]" + tail;
    SameObjects(ArrayText(Render(Obj(ms)), ms[i].key).value, ArrayOnward(ms, i), cap, max);
    ObjectsOfArray(vs, '[', tail, cap, max);
  }

  lemma ArrayEnds(text: string, tail: string, cap: nat)
    requires text == "]" + tail
    ensures NextObject(text, cap) == None
  {
  }

  /** The reader's two loops: to the opening brace, then to the brace that closes it. */
  method ReadNextObject(text: string, cap: nat) returns (found: bool, obj: string, rest: string)
    ensures found <==> NextObject(text, cap).Some?
    ensures found ==> NextObject(text, cap) == Some((obj, rest))
  {
    obj, rest := "", text;
    var s := 0;
    while s < |text| && text[s] != '{'
      invariant 0 <= s <= |text| && ToBrace(text) == ToBrace(text[s..])
    {
      if text[s] == ']' {
        return false, "", text[s..];
      }
      s := s + 1;
    }
    if s == |text| {
      return false, "", text;
    }
    var t := text[s..];
    var n := FindClose(t);
    if n == 0 || n >= cap {
      return false, "", text;
    }
    return true, t[..n], t[n..];
  }

  method FindClose(t: string) returns (n: nat)
    ensures n == ScanLength(t, 0, false)
  {
    var depth, inString := 0, false;
    n := 0;
    assert t[0..] == t;
    while n < |t|
      invariant 0 <= n <= |t| && ScanLength(t, 0, false) == n + ScanLength(t[n..], depth, inString)
    {
      var c, step := t[n], 1;
      if inString {
        if c == '\\' && n + 1 < |t| {
          step := 2;
        } else if c == '"' {
          inString := false;
        }
      } else if c == '"' {
        inString := true;
      } else if c == '{' {
        depth := depth + 1;
      } else if c == '}' {
        depth := depth - 1;
        if depth == 0 {
          return n + 1;
        }
      }
      assert t[n..][step..] == t[n + step..];
      n := n + step;
    }
  }

  /** The loop that copies the objects of an array out one by one. */
  method CollectArray(json: string, name: string, cap: nat, max: nat) returns (objs: seq<string>)
    ensures objs == ArrayObjects(json, name, cap, max)
  {
    objs := [];
    var at := ArrayText(json, name);
    if at.None? {
      return;
    }
    var p := at.value;
    while |objs| < max
      invariant |objs| <= max
      invariant Objects(at.value, cap, max) == objs + Objects(p, cap, max - |objs|)
      decreases max - |objs|
    {
      var found, obj, rest := ReadNextObject(p, cap);
      if !found {
        return;
      }
      ObjectsStep(objs, p, cap, max - |objs|);
      objs, p := objs + [obj], rest;
    }
  }

  lemma ObjectsStep(done: seq<string>, text: string, cap: nat, max: nat)
    requires max > 0 && NextObject(text, cap).Some?
    ensures done + Objects(text, cap, max) ==
            done + [NextObject(text, cap).value.0] + Objects(NextObject(text, cap).value.1, cap, max - 1)
  {
  }
}
