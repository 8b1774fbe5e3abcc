/** Keyframes and deltas of a process profile: their text, and how a replica applies them. */
module ProfileDelta {
  import opened JsonTree
  import opened JsonExtract
  import opened JsonArrays
  import opened ActivityRecord
  import opened ProcProfile

  const OBJ_BUF: nat := 2048

  /** The subject of a profile and the printed rates: carried by keyframes. */
  datatype Header = Header(
    host: string, byPid: bool, pid: int, exe: string, uid: int, cgroup: string, macLabel: string,
    openRate: int, connectRate: int, execRate: int)

  /** A replica, or the part of a producer's model that frames carry. */
  datatype Model = Model(ents: seq<Entity>, epoch: string, seqNo: int, exe: string)

  datatype Applied = Ok | Desync

  // ----- names on the wire -----

  function VerdictText(v: Verdict): (s: string) {
    match v
    case Covered => "covered"
    case Novel => "novel"
    case Anomaly => "anomaly"
    case NotAvailable => "na"
  }

  function VerdictOf(s: string): (v: Verdict) {
    if s == "covered" then Covered else if s == "novel" then Novel
    else if s == "anomaly" then Anomaly else NotAvailable
  }

  function KindText(k: Kind): (s: string) {
    match k
    case File => "file"
    case Dest => "dest"
    case Program => "proc"
  }

  function KindOf(s: string): (k: Kind) {
    if s == "file" then File else if s == "dest" then Dest else Program
  }

  // ----- frames -----

  /** The fields of an entity; the state only when it has one. */
  function FieldMembers(e: Shown): (ms: seq<Member>) {
    if e.state == "" then
      [Member("id", Str(e.id)), Member("kind", Str(KindText(e.kind))), Member("value", Str(e.value)),
       Member("count", Int(ToInt64(e.count))), Member("first", Str(e.first)), Member("last", Str(e.last)),
       Member("verdict", Str(VerdictText(e.verdict)))]
    else
      [Member("id", Str(e.id)), Member("kind", Str(KindText(e.kind))), Member("value", Str(e.value)),
       Member("state", Str(e.state)),
       Member("count", Int(ToInt64(e.count))), Member("first", Str(e.first)), Member("last", Str(e.last)),
       Member("verdict", Str(VerdictText(e.verdict)))]
  }

  function EntityMembers(e: Shown, op: bool): (ms: seq<Member>) {
    if op then [Member("op", Str("entity_set"))] + FieldMembers(e) else FieldMembers(e)
  }

  function EntityDocs(v: seq<Shown>, op: bool): (vs: seq<Value>) {
    seq(|v|, i requires 0 <= i < |v| => Obj(EntityMembers(v[i], op)))
  }

  function SubjectMembers(h: Header): (ms: seq<Member>) {
    [Member("mode", Str(if h.byPid then "pid" else "exe")), Member("pid", Int(h.pid)), Member("exe", Str(h.exe)),
     Member("uid", Int(h.uid)), Member("cgroup", Str(h.cgroup)), Member("mac_label", Str(h.macLabel))]
  }

  function RateMembers(h: Header): (ms: seq<Member>) {
    [Member("open_s", Int(h.openRate)), Member("connect_s", Int(h.connectRate)), Member("exec_s", Int(h.execRate))]
  }

  /** A keyframe always carries sequence number zero. */
  function KeyframeMembers(v: seq<Shown>, epoch: string, h: Header): (ms: seq<Member>) {
    [Member("v", Int(1)), Member("type", Str("keyframe")), Member("epoch", Str(epoch)), Member("seq", Int(0)),
     Member("host", Str(h.host)), Member("subject", Obj(SubjectMembers(h))), Member("rates", Obj(RateMembers(h))),
     Member("entities", Arr(EntityDocs(v, false)))]
  }

  function DeltaMembers(ops: seq<Shown>, epoch: string, seqNo: int): (ms: seq<Member>) {
    [Member("v", Int(1)), Member("type", Str("delta")), Member("epoch", Str(epoch)), Member("seq", Int(seqNo)),
     Member("ops", Arr(EntityDocs(ops, true)))]
  }

  function KeyframeText(v: seq<Shown>, epoch: string, h: Header): (text: string) {
    Render(Obj(KeyframeMembers(v, epoch, h)))
  }

  function DeltaText(ops: seq<Shown>, epoch: string, seqNo: int): (text: string) {
    Render(Obj(DeltaMembers(ops, epoch, seqNo)))
  }

  /** The dirty entities, in table order. */
  function DirtyView(ents: seq<Entity>): (ops: seq<Shown>) {
    if |ents| == 0 then []
    else DirtyView(ents[..|ents| - 1]) + if ents[|ents| - 1].dirty then [ents[|ents| - 1].shown] else []
  }

  function Cleaned(ents: seq<Entity>): (r: seq<Entity>)
    ensures |r| == |ents| && forall i | 0 <= i < |ents| :: r[i] == ents[i].(dirty := false)
  {
    seq(|ents|, i requires 0 <= i < |ents| => ents[i].(dirty := false))
  }

  // ----- applying frames -----

  function ReadShown(obj: string, e: Shown): (r: Shown) {
    var kind := ExtractString(obj, "kind", 32);
    var value := ExtractString(obj, "value", 512);
    var state := ExtractString(obj, "state", 16);
    var count := ExtractInt(obj, "count");
    var first := ExtractString(obj, "first", 24);
    var last := ExtractString(obj, "last", 24);
    var verdict := ExtractString(obj, "verdict", 32);
    Shown(e.id,
          if kind.Some? then KindOf(kind.value) else e.kind,
          if value.Some? then value.value else e.value,
          if state.Some? then state.value else "",
          if count.Parsed? then ToUint64(count.n) else e.count,
          if first.Some? then first.value else e.first,
          if last.Some? then last.value else e.last,
          if verdict.Some? then VerdictOf(verdict.value) else e.verdict)
  }

  /** A new replica entity before its fields are read: all bytes zero. */
  function Zeroed(id: string): (e: Entity) {
    Entity(Shown(id, File, "", "", 0, "", "", Covered), false, 0)
  }

  function Upsert(ents: seq<Entity>, obj: string): (r: seq<Entity>) {
    var id := ExtractString(obj, "id", 544);
    if id.None? then ents
    else
      var i := FindId(ents, id.value);
      if i == |ents| && |ents| >= MAX_ENT then ents
      else
        var e := if i < |ents| then ents[i] else Zeroed(id.value);
        Put(ents, i, e.(shown := ReadShown(obj, e.shown)))
  }

  function UpsertAll(ents: seq<Entity>, objs: seq<string>): (r: seq<Entity>)
    decreases |objs|
  {
    if |objs| == 0 then ents else UpsertAll(Upsert(ents, objs[0]), objs[1..])
  }

  /** All objects of the named array, however many there are. */
  function FrameObjects(json: string, name: string): (objs: seq<string>) {
    ArrayObjects(json, name, OBJ_BUF, |json|)
  }

  function Apply(m: Model, json: string): (r: (Model, Applied)) {
    var kind := ExtractString(json, "type", 16);
    if kind.None? then (m, Desync)
    else
      var epoch := FieldText(json, "epoch", 24);
      var n := IntField(json, "seq");
      if kind.value == "keyframe" then
        var exe := ExtractString(json, "exe", 256);
        (Model(UpsertAll([], FrameObjects(json, "entities")), epoch, 0,
               if exe.Some? then exe.value else m.exe), Ok)
      else if epoch != m.epoch || ToUint64(n) != m.seqNo + 1 then (m, Desync)
      else (Model(UpsertAll(m.ents, FrameObjects(json, "ops")), m.epoch, ToUint64(n), m.exe), Ok)
  }

  // ----- reading an entity back -----

  predicate ShownFits(e: Shown) {
    && |e.id| < 544 && |e.value| < 512 && |e.state| < 16 && 0 <= e.count < TWO63
    && |e.first| < 24 && |e.last| < 24
    && |Render(Obj(EntityMembers(e, false)))| < OBJ_BUF && |Render(Obj(EntityMembers(e, true)))| < OBJ_BUF
  }

  predicate EntityTree(v: Value, e: Shown) {
    && Lookup(v, "id") == Some(Str(e.id)) && Lookup(v, "kind") == Some(Str(KindText(e.kind)))
    && Lookup(v, "value") == Some(Str(e.value)) && Lookup(v, "count") == Some(Int(ToInt64(e.count)))
    && Lookup(v, "state") == (if e.state != "" then Some(Str(e.state)) else None)
    && Lookup(v, "first") == Some(Str(e.first)) && Lookup(v, "last") == Some(Str(e.last))
    && Lookup(v, "verdict") == Some(Str(VerdictText(e.verdict)))
  }

  lemma {:induction false} FieldsWf(e: Shown)
    ensures WfMembers(FieldMembers(e))
  {
    EntityKeys();
  }

  lemma {:induction false} EntityWf(e: Shown, op: bool)
    ensures WfMembers(EntityMembers(e, op))
  {
    FieldsWf(e);
    assert Ident("op");
  }

  lemma {:induction false} FieldLookups(e: Shown)
    ensures EntityTree(Obj(FieldMembers(e)), e)
  {
    if e.state == "" {
      StatelessLookups(e);
    } else {
      StatefulLookups(e);
    }
  }

  lemma {:induction false} StatelessLookups(e: Shown)
    requires e.state == ""
    ensures EntityTree(Obj(FieldMembers(e)), e)
  {
    StatelessHead(e);
    var ms := FieldMembers(e);
    LookupHere(ms, 4, "first");
    LookupHere(ms, 5, "last");
    LookupHere(ms, 6, "verdict");
    LookupAbsent(ms, "state");
  }

  lemma {:induction false} StatelessHead(e: Shown)
    requires e.state == ""
    ensures var v := Obj(FieldMembers(e));
            && Lookup(v, "id") == Some(Str(e.id)) && Lookup(v, "kind") == Some(Str(KindText(e.kind)))
            && Lookup(v, "value") == Some(Str(e.value)) && Lookup(v, "count") == Some(Int(ToInt64(e.count)))
  {
    var ms := FieldMembers(e);
    LookupHere(ms, 0, "id");
    LookupHere(ms, 1, "kind");
    LookupHere(ms, 2, "value");
    LookupHere(ms, 3, "count");
  }

  lemma {:induction false} StatefulHead(e: Shown)
    requires e.state != ""
    ensures var v := Obj(FieldMembers(e));
            && Lookup(v, "id") == Some(Str(e.id)) && Lookup(v, "kind") == Some(Str(KindText(e.kind)))
            && Lookup(v, "value") == Some(Str(e.value)) && Lookup(v, "state") == Some(Str(e.state))
  {
    var ms := FieldMembers(e);
    LookupHere(ms, 0, "id");
    LookupHere(ms, 1, "kind");
    LookupHere(ms, 2, "value");
    LookupHere(ms, 3, "state");
  }

  lemma {:induction false} StatefulLookups(e: Shown)
    requires e.state != ""
    ensures EntityTree(Obj(FieldMembers(e)), e)
  {
    StatefulHead(e);
    var ms := FieldMembers(e);
    LookupHere(ms, 4, "count");
    LookupHere(ms, 5, "first");
    LookupHere(ms, 6, "last");
    LookupHere(ms, 7, "verdict");
  }

  lemma {:induction false} EntityLookups(e: Shown, op: bool)
    ensures EntityTree(Obj(EntityMembers(e, op)), e)
  {
    FieldLookups(e);
    if op {
      var fs := FieldMembers(e);
      var ms := EntityMembers(e, op);
      assert ms[0].key == "op" && ms[1..] == fs;
      assert forall k | k != "op" :: LookupMembers(ms, k) == LookupMembers(fs, k);
    }
  }

  lemma EntityKeys()
    ensures Key("id") && Key("kind") && Key("value") && Key("state") && Key("count")
    ensures Key("first") && Key("last") && Key("verdict")
  {
  }

  lemma NamesRoundTrip(k: Kind, v: Verdict)
    ensures KindOf(KindText(k)) == k && |KindText(k)| < 32
    ensures VerdictOf(VerdictText(v)) == v && |VerdictText(v)| < 32
  {
  }

  lemma {:induction false} EntityStrings(e: Shown, v: Value)
    requires ShownFits(e) && Wf(v) && EntityTree(v, e)
    ensures ExtractString(Render(v), "id", 544) == Some(e.id)
    ensures ExtractString(Render(v), "kind", 32) == Some(KindText(e.kind))
    ensures ExtractString(Render(v), "value", 512) == Some(e.value)
    ensures ExtractString(Render(v), "state", 16) == if e.state != "" then Some(e.state) else None
  {
    EntityKeys();
    NamesRoundTrip(e.kind, e.verdict);
    ExtractStringAgrees(v, "id", 544);
    ExtractStringAgrees(v, "kind", 32);
    ExtractStringAgrees(v, "value", 512);
    ExtractStringAgrees(v, "state", 16);
  }

  lemma {:induction false} EntityRead(e: Shown, v: Value, was: Shown)
    requires ShownFits(e) && Wf(v) && EntityTree(v, e) && was.id == e.id
    ensures ReadShown(Render(v), was) == e
  {
    EntityKeys();
    EntityStrings(e, v);
    NamesRoundTrip(e.kind, e.verdict);
    ExtractStringAgrees(v, "first", 24);
    ExtractStringAgrees(v, "last", 24);
    ExtractStringAgrees(v, "verdict", 32);
    ExtractIntAgrees(v, "count");
  }

  // ----- replicas on values -----

  /** Setting an entity of a replica: in place, or as a new last one while there is room. */
  function SetShown(v: seq<Shown>, e: Shown): (r: seq<Shown>) {
    var i := IndexOf(v, e.id);
    if i < |v| then v[i := e] else if |v| < MAX_ENT then v + [e] else v
  }

  function IndexOf(v: seq<Shown>, id: string): (i: nat)
    ensures i <= |v|
    ensures i < |v| ==> v[i].id == id
    ensures forall j | 0 <= j < i :: v[j].id != id
  {
    if |v| == 0 || v[0].id == id then 0 else 1 + IndexOf(v[1..], id)
  }

  function SetAll(v: seq<Shown>, ops: seq<Shown>): (r: seq<Shown>)
    decreases |ops|
  {
    if |ops| == 0 then v else SetAll(SetShown(v, ops[0]), ops[1..])
  }

  lemma {:induction false} UpsertPuts(ents: seq<Entity>, e: Shown, op: bool)
    requires ShownFits(e)
    ensures var i := FindId(ents, e.id);
            Upsert(ents, Render(Obj(EntityMembers(e, op)))) ==
            if i == |ents| && |ents| >= MAX_ENT then ents
            else Put(ents, i, (if i < |ents| then ents[i] else Zeroed(e.id)).(shown := e))
  {
    var v := Obj(EntityMembers(e, op));
    EntityWf(e, op);
    EntityLookups(e, op);
    EntityStrings(e, v);
    var i := FindId(ents, e.id);
    var was := if i < |ents| then ents[i] else Zeroed(e.id);
    EntityRead(e, v, was.shown);
  }

  lemma {:induction false} UpsertSets(ents: seq<Entity>, e: Shown, op: bool)
    requires ShownFits(e)
    ensures View(Upsert(ents, Render(Obj(EntityMembers(e, op))))) == SetShown(View(ents), e)
  {
    UpsertPuts(ents, e, op);
    SameIndex(ents, e.id);
  }

  lemma {:induction false} SameIndex(ents: seq<Entity>, id: string)
    ensures IndexOf(View(ents), id) == FindId(ents, id)
  {
    if |ents| > 0 && ents[0].shown.id != id {
      SameIndex(ents[1..], id);
      assert View(ents)[1..] == View(ents[1..]);
    }
  }

  // ----- whole frames -----

  lemma {:induction false} UpsertAllSets(ents: seq<Entity>, ops: seq<Shown>, op: bool)
    requires forall i | 0 <= i < |ops| :: ShownFits(ops[i])
    ensures View(UpsertAll(ents, Texts(EntityDocs(ops, op), |ops|))) == SetAll(View(ents), ops)
    decreases |ops|
  {
    if |ops| > 0 {
      var docs := EntityDocs(ops, op);
      UpsertSets(ents, ops[0], op);
      assert docs[1..] == EntityDocs(ops[1..], op);
      UpsertAllSets(Upsert(ents, Render(docs[0])), ops[1..], op);
      assert Texts(docs, |ops|)[1..] == Texts(docs[1..], |ops| - 1);
    }
  }

  lemma {:induction false} ItemsLength(vs: seq<Value>)
    requires forall i | 0 <= i < |vs| :: vs[i].Obj?
    ensures |RenderItems(vs)| >= |vs|
  {
    if |vs| > 0 {
      ItemsLength(vs[1..]);
      assert |Render(vs[0])| >= 2;
    }
  }

  lemma {:induction false} EntityDocsWf(v: seq<Shown>, op: bool)
    ensures WfItems(EntityDocs(v, op))
  {
    forall i | 0 <= i < |v| ensures Wf(EntityDocs(v, op)[i]) {
      EntityWf(v[i], op);
    }
  }

  lemma {:induction false} EntityDocsFit(v: seq<Shown>, op: bool)
    requires forall i | 0 <= i < |v| :: ShownFits(v[i])
    ensures FittingPrefix(EntityDocs(v, op), OBJ_BUF) == |v|
  {
    FittingAll(EntityDocs(v, op), OBJ_BUF);
  }

  /** The objects a replica copies out of a frame are the frame's entities, all of them. */
  lemma {:induction false} FrameObjectsAre(ms: seq<Member>, i: nat, v: seq<Shown>, op: bool)
    requires WfMembers(ms) && i < |ms| && ms[i].value == Arr(EntityDocs(v, op)) && Reached(ms, i)
    requires forall i | 0 <= i < |v| :: ShownFits(v[i])
    ensures FrameObjects(Render(Obj(ms)), ms[i].key) == Texts(EntityDocs(v, op), |v|)
  {
    var docs, json := EntityDocs(v, op), Render(Obj(ms));
    EntityDocsFit(v, op);
    ReachedObjects(ms, i, OBJ_BUF, |json|);
    ItemsLength(docs);
    GapBefore(ms, i);
    AfterSuffix(json, Tag(ms[i].key));
  }

  lemma FrameKeys()
    ensures Key("type") && Key("epoch") && Key("seq") && Key("exe")
    ensures Ident("v") && Ident("host") && Ident("subject") && Ident("rates") && Ident("entities") && Ident("ops")
  {
  }

  lemma SubjectWf(h: Header)
    ensures WfMembers(SubjectMembers(h)) && WfMembers(RateMembers(h))
  {
  }

  lemma {:induction false} KeyframeWf(v: seq<Shown>, epoch: string, h: Header)
    ensures WfMembers(KeyframeMembers(v, epoch, h))
  {
    FrameKeys();
    SubjectWf(h);
    EntityDocsWf(v, false);
  }

  lemma {:induction false} DeltaWf(ops: seq<Shown>, epoch: string, n: int)
    ensures WfMembers(DeltaMembers(ops, epoch, n))
  {
    FrameKeys();
    EntityDocsWf(ops, true);
  }

  lemma {:induction false} KeyframeHead(v: seq<Shown>, epoch: string, h: Header)
    requires |epoch| < 24
    ensures var text := KeyframeText(v, epoch, h);
            && ExtractString(text, "type", 16) == Some("keyframe")
            && FieldText(text, "epoch", 24) == epoch
  {
    var ms := KeyframeMembers(v, epoch, h);
    FrameKeys();
    KeyframeWf(v, epoch, h);
    LookupHere(ms, 1, "type");
    LookupHere(ms, 2, "epoch");
    StringRead(Obj(ms), "type", "keyframe", 16);
    StringRead(Obj(ms), "epoch", epoch, 24);
  }

  lemma {:induction false} DeltaHead(ops: seq<Shown>, epoch: string, n: int)
    requires |epoch| < 24 && 0 <= n <= LONG_MAX
    ensures var text := DeltaText(ops, epoch, n);
            && ExtractString(text, "type", 16) == Some("delta")
            && FieldText(text, "epoch", 24) == epoch
            && IntField(text, "seq") == n
  {
    var ms := DeltaMembers(ops, epoch, n);
    FrameKeys();
    DeltaWf(ops, epoch, n);
    LookupHere(ms, 1, "type");
    LookupHere(ms, 2, "epoch");
    LookupHere(ms, 3, "seq");
    StringRead(Obj(ms), "type", "delta", 16);
    StringRead(Obj(ms), "epoch", epoch, 24);
    IntRead(Obj(ms), "seq", n);
  }

  /** The replica finds the entities of the keyframe. */
  predicate KeyframeReadable(v: seq<Shown>, epoch: string, h: Header) {
    Reached(KeyframeMembers(v, epoch, h), 7)
  }

  /** No string before the entity array is mistaken for its name. */
  predicate KeyframeClear(epoch: string, h: Header) {
    && !Imitates(epoch, "entities") && !Imitates(h.host, "entities") && !Imitates(h.exe, "entities")
    && !Imitates(h.cgroup, "entities") && !Imitates(h.macLabel, "entities")
  }

  lemma {:induction false} SubjectHidesNothing(epoch: string, h: Header)
    requires KeyframeClear(epoch, h)
    ensures !HidesTag(Obj(SubjectMembers(h)), "entities") && !HidesTag(Obj(RateMembers(h)), "entities")
  {
    assert !MembersHideTag(SubjectMembers(h), "entities") && !MembersHideTag(RateMembers(h), "entities");
  }

  lemma {:induction false} TypesImitateNothing()
    ensures !Imitates("keyframe", "entities") && !Imitates("delta", "ops")
  {
    assert "keyframe"[0] != "entities"[0];
    assert "delta"[1..][0] != '"';
  }

  lemma {:induction false} KeyframeHidesNothing(v: seq<Shown>, epoch: string, h: Header, i: nat)
    requires KeyframeClear(epoch, h) && i < 7
    ensures var m := KeyframeMembers(v, epoch, h)[i]; m.key != "entities" && !HidesTag(m.value, "entities")
  {
    TypesImitateNothing();
    SubjectHidesNothing(epoch, h);
  }

  /** It is enough that no string of the header is mistaken for the name of the array. */
  lemma {:induction false} ClearReadable(v: seq<Shown>, epoch: string, h: Header)
    requires KeyframeClear(epoch, h)
    ensures KeyframeReadable(v, epoch, h)
  {
    var ms := KeyframeMembers(v, epoch, h);
    KeyframeWf(v, epoch, h);
    forall i | 0 <= i < |ms[..7]| ensures ms[..7][i].key != "entities" && !HidesTag(ms[..7][i].value, "entities") {
      KeyframeHidesNothing(v, epoch, h, i);
    }
    UnhiddenReached(ms, 7);
  }

  lemma {:induction false} DeltaHidesNothing(ops: seq<Shown>, epoch: string, n: int, i: nat)
    requires i < 4 && (i == 2 ==> !Imitates(epoch, "ops"))
    ensures var m := DeltaMembers(ops, epoch, n)[i]; m.key != "ops" && !HidesTag(m.value, "ops")
  {
    TypesImitateNothing();
  }

  /** The text of a delta from after its epoch to its array. */
  function EpochToOps(n: int): (r: string) {
    "," + Quote("seq") + ":" + Decimal(n) + "," + Quote("ops") + ":"
  }

  lemma {:induction false} ImitatedGap(ops: seq<Shown>, epoch: string, n: int)
    requires Imitates(epoch, "ops")
    ensures Gap(DeltaMembers(ops, epoch, n), 4) == EpochToOps(n)
  {
    var ms, k := DeltaMembers(ops, epoch, n), "ops";
    var pre, rest := ms[..2], ms[2..];
    FrameKeys();
    DeltaWf(ops, epoch, n);
    forall i | 0 <= i < |pre| ensures pre[i].key != k && !HidesTag(pre[i].value, k) {
      DeltaHidesNothing(ops, epoch, n, i);
    }
    assert ms == pre + rest;
    RootOpened(ms, k);
    MembersSkipped(pre, rest, k, "}");
    ImitatorFound(rest, k, "}");
    EpochToOpsText(ms);
    GapBefore(ms, 4);
    assert rest[1..] == ms[3..];
    SamePrefix(Gap(ms, 4), EpochToOps(n), ArrayOnward(ms, 4));
  }

  lemma {:induction false} SamePrefix(a: string, b: string, t: string)
    requires a + t == b + t
    ensures a == b
  {
    assert |a| == |b|;
    assert a == (a + t)[..|a|] && b == (b + t)[..|b|];
  }

  lemma {:induction false} EpochToOpsText(ms: seq<Member>)
    requires |ms| == 5 && ms[3].key == "seq" && ms[3].value.Int? && ms[4].key == "ops"
    ensures RenderMoreMembers(ms[3..]) + "}" == EpochToOps(ms[3].value.n) + ArrayOnward(ms, 4)
  {
    var ops := ms[4..];
    assert ms[3..][1..] == ops && ops[1..] == ms[4 + 1..] == [];
    LastTwoText(ms[3], ops);
  }

  lemma {:induction false} LastTwoText(m: Member, ops: seq<Member>)
    requires m.key == "seq" && m.value.Int? && |ops| == 1 && ops[0].key == "ops"
    ensures "," + (RenderMember(m) + RenderMoreMembers(ops)) + "}" ==
            EpochToOps(m.value.n) + (Render(ops[0].value) + (RenderMoreMembers(ops[1..]) + "}"))
  {
    assert RenderMembers(ops) == RenderMember(ops[0]) + RenderMoreMembers(ops[1..]);
    Spliced(Quote("seq"), Decimal(m.value.n), Quote("ops"), Render(ops[0].value), RenderMoreMembers(ops[1..]));
  }

  lemma Spliced(q: string, n: string, p: string, v: string, r: string)
    ensures "," + (q + ":" + n + ("," + (p + ":" + v + r))) + "}" ==
            "," + q + ":" + n + "," + p + ":" + (v + (r + "}"))
  {
  }

  lemma {:induction false} NoBracket(n: int)
    ensures '[' !in EpochToOps(n)
  {
    FrameKeys();
    QuotedKey("seq");
    QuotedKey("ops");
    PlainJoined("," + Quote("seq") + ":", Decimal(n), "," + Quote("ops") + ":");
    assert EpochToOps(n) == ("," + Quote("seq") + ":") + Decimal(n) + ("," + Quote("ops") + ":");
  }

  lemma PlainJoined(a: string, b: string, c: string)
    requires '[' !in a && '[' !in b && '[' !in c
    ensures '[' !in a + b + c
  {
  }

  /** Whatever the epoch, a replica finds the entities of a delta: only numbers and names
      come between the epoch and the array. */
  lemma {:induction false} DeltaReached(ops: seq<Shown>, epoch: string, n: int)
    ensures Reached(DeltaMembers(ops, epoch, n), 4)
  {
    var ms := DeltaMembers(ops, epoch, n);
    DeltaWf(ops, epoch, n);
    if Imitates(epoch, "ops") {
      ImitatedGap(ops, epoch, n);
      NoBracket(n);
      FromCharInGap(EpochToOps(n), "[");
    } else {
      forall i | 0 <= i < |ms[..4]| ensures ms[..4][i].key != "ops" && !HidesTag(ms[..4][i].value, "ops") {
        DeltaHidesNothing(ops, epoch, n, i);
      }
      UnhiddenReached(ms, 4);
    }
  }

  ghost predicate DistinctIds(v: seq<Shown>) {
    forall i, j | 0 <= i < j < |v| :: v[i].id != v[j].id
  }

  /** Setting entities with new identities appends them. */
  lemma {:induction false} SetAllAppends(v: seq<Shown>, ops: seq<Shown>)
    requires DistinctIds(v + ops) && |v + ops| <= MAX_ENT
    ensures SetAll(v, ops) == v + ops
    decreases |ops|
  {
    if |ops| > 0 {
      var i := IndexOf(v, ops[0].id);
      assert forall j | 0 <= j < |v| :: (v + ops)[j] == v[j];
      assert (v + ops)[|v|] == ops[0];
      assert i == |v|;
      assert v + [ops[0]] + ops[1..] == v + ops;
      SetAllAppends(v + [ops[0]], ops[1..]);
    } else {
      assert v + ops == v;
    }
  }

  /** A keyframe makes any replica an exact copy, at sequence number zero. */
  lemma {:induction false} ApplyKeyframe(m: Model, v: seq<Shown>, epoch: string, h: Header)
    requires |epoch| < 24 && KeyframeReadable(v, epoch, h)
    requires |v| <= MAX_ENT && DistinctIds(v) && forall i | 0 <= i < |v| :: ShownFits(v[i])
    ensures var (r, a) := Apply(m, KeyframeText(v, epoch, h));
            a == Ok && View(r.ents) == v && r.epoch == epoch && r.seqNo == 0
  {
    KeyframeHead(v, epoch, h);
    KeyframeWf(v, epoch, h);
    FrameObjectsAre(KeyframeMembers(v, epoch, h), 7, v, false);
    assert [] + v == v;
    SetAllAppends([], v);
    assert View([]) == [];
    UpsertAllSets([], v, false);
  }

  /** A delta is applied exactly when it directly follows; otherwise nothing changes. */
  lemma {:induction false} ApplyDelta(m: Model, ops: seq<Shown>, epoch: string, n: int)
    requires |epoch| < 24 && 0 <= n <= LONG_MAX && forall i | 0 <= i < |ops| :: ShownFits(ops[i])
    ensures var (r, a) := Apply(m, DeltaText(ops, epoch, n));
            if epoch == m.epoch && n == m.seqNo + 1 then
              a == Ok && View(r.ents) == SetAll(View(m.ents), ops) && r.epoch == epoch && r.seqNo == n
            else a == Desync && r == m
  {
    DeltaHead(ops, epoch, n);
    if epoch == m.epoch && n == m.seqNo + 1 {
      DeltaWf(ops, epoch, n);
      DeltaReached(ops, epoch, n);
      FrameObjectsAre(DeltaMembers(ops, epoch, n), 4, ops, true);
      UpsertAllSets(m.ents, ops, true);
    }
  }
}
