/** Activity records: their JSON document and the reader that restores them. */
module ActivityRecord {
  import opened JsonTree
  import opened JsonExtract
  import opened JsonArrays
  import opened JsonWriter

  const MAX_ANC: nat := 16
  const MAX_SOCK: nat := 32
  const ANC_BUF: nat := 256
  const SOCK_BUF: nat := 512
  const TWO32: int := 0x1_0000_0000
  const TWO63: int := 0x8000_0000_0000_0000
  const TWO64: int := 0x1_0000_0000_0000_0000

  datatype Process = Process(
    pid: int, ppid: int, uid: int, sid: int, startTime: int,
    comm: string, exe: string, cmdline: string, cgroup: string, macLabel: string, macMode: string)

  datatype Ancestor = Ancestor(pid: int, depth: int, startTime: int, comm: string)

  datatype Socket = Socket(
    ownerPid: int, depth: int, ownerComm: string, proto: string, laddr: string, raddr: string, state: string)

  datatype Activity = Activity(
    ts: string, event: string, path: string, partial: bool, provTrigger: string,
    proc: Process, anc: seq<Ancestor>, sock: seq<Socket>)

  // ----- machine integers -----

  /** An unsigned 64-bit value printed as a signed one. */
  function ToInt64(u: int): (i: int) {
    if u < TWO63 then u else u - TWO64
  }

  function ToUint64(i: int): (u: int) {
    if i < 0 then i + TWO64 else i
  }

  function ToInt32(i: int): (r: int) {
    (i + TWO32 / 2) % TWO32 - TWO32 / 2
  }

  predicate IsInt32(i: int) {
    -TWO32 / 2 <= i < TWO32 / 2
  }

  /** A 64-bit start time; 2^63 alone prints as a number the reader cannot hold. */
  predicate IsTicks(u: int) {
    0 <= u < TWO64 && u != TWO63
  }

  // ----- the document -----

  function MacDoc(p: Process): (v: Value) {
    Obj([Member("label", Str(p.macLabel)), Member("mode", Str(p.macMode))])
  }

  function ProcessMembers(p: Process): (ms: seq<Member>) {
    [Member("pid", Int(p.pid)), Member("ppid", Int(p.ppid)), Member("uid", Int(p.uid)),
     Member("sid", Int(p.sid)), Member("start_ticks", Int(ToInt64(p.startTime))),
     Member("comm", Str(p.comm)), Member("exe", Str(p.exe)), Member("cmdline", Str(p.cmdline)),
     Member("cgroup", Str(p.cgroup)), Member("mac", MacDoc(p))]
  }

  function AncestorMembers(a: Ancestor): (ms: seq<Member>) {
    [Member("pid", Int(a.pid)), Member("comm", Str(a.comm)), Member("depth", Int(a.depth)),
     Member("start_ticks", Int(ToInt64(a.startTime)))]
  }

  function SocketMembers(s: Socket): (ms: seq<Member>) {
    [Member("owner_pid", Int(s.ownerPid)), Member("owner_comm", Str(s.ownerComm)),
     Member("depth", Int(s.depth)), Member("proto", Str(s.proto)), Member("laddr", Str(s.laddr)),
     Member("raddr", Str(s.raddr)), Member("state", Str(s.state))]
  }

  function AncestorDocs(anc: seq<Ancestor>): (vs: seq<Value>) {
    seq(|anc|, i requires 0 <= i < |anc| => Obj(AncestorMembers(anc[i])))
  }

  function SocketDocs(sock: seq<Socket>): (vs: seq<Value>) {
    seq(|sock|, i requires 0 <= i < |sock| => Obj(SocketMembers(sock[i])))
  }

  /** The members before the process object; the provenance trigger only when there is one. */
  function HeadMembers(a: Activity): (ms: seq<Member>) {
    [Member("v", Int(1)), Member("ts", Str(a.ts)), Member("event", Str(a.event)),
     Member("path", Str(a.path)), Member("partial", Bool(a.partial))] +
    if a.provTrigger != "" then [Member("prov_trigger", Str(a.provTrigger))] else []
  }

  function RecordMembers(a: Activity): (ms: seq<Member>) {
    HeadMembers(a) + [Member("process", Obj(ProcessMembers(a.proc))),
                      Member("ancestry", Arr(AncestorDocs(a.anc))),
                      Member("sockets", Arr(SocketDocs(a.sock)))]
  }

  function ToJson(a: Activity): (text: string) {
    Render(Obj(RecordMembers(a)))
  }

  // ----- the reader -----

  function IntField(json: string, key: string): (n: int) {
    match ExtractInt(json, key)
    case Parsed(n) => n
    case _ => 0
  }

  function ReadProcess(json: string): (p: Process) {
    Process(ToInt32(IntField(json, "pid")), ToInt32(IntField(json, "ppid")), ToInt32(IntField(json, "uid")),
            ToInt32(IntField(json, "sid")), ToUint64(IntField(json, "start_ticks")),
            FieldText(json, "comm", 64), FieldText(json, "exe", 256), FieldText(json, "cmdline", 512),
            FieldText(json, "cgroup", 256), FieldText(json, "label", 128), FieldText(json, "mode", 32))
  }

  function ReadAncestor(obj: string): (a: Ancestor) {
    Ancestor(ToInt32(IntField(obj, "pid")), ToInt32(IntField(obj, "depth")),
             ToUint64(IntField(obj, "start_ticks")), FieldText(obj, "comm", 64))
  }

  function ReadSocket(obj: string): (s: Socket) {
    Socket(ToInt32(IntField(obj, "owner_pid")), ToInt32(IntField(obj, "depth")),
           FieldText(obj, "owner_comm", 64), FieldText(obj, "proto", 4), FieldText(obj, "laddr", 64),
           FieldText(obj, "raddr", 64), FieldText(obj, "state", 16))
  }

  function FromJson(json: string): (r: Option<Activity>) {
    if json == "" || json[0] != '{' || ExtractString(json, "ts", 24).None? then None
    else
      Some(Activity(ExtractString(json, "ts", 24).value, FieldText(json, "event", 8), FieldText(json, "path", 512),
                    false, FieldText(json, "prov_trigger", 24), ReadProcess(json),
                    ReadAncestors(ArrayObjects(json, "ancestry", ANC_BUF, MAX_ANC)),
                    ReadSockets(ArrayObjects(json, "sockets", SOCK_BUF, MAX_SOCK))))
  }

  function ReadAncestors(objs: seq<string>): (anc: seq<Ancestor>) {
    seq(|objs|, i requires 0 <= i < |objs| => ReadAncestor(objs[i]))
  }

  function ReadSockets(objs: seq<string>): (sock: seq<Socket>) {
    seq(|objs|, i requires 0 <= i < |objs| => ReadSocket(objs[i]))
  }

  // ----- records that fit their C structures -----

  predicate AncestorFits(a: Ancestor) {
    IsInt32(a.pid) && IsInt32(a.depth) && IsTicks(a.startTime) && |a.comm| < 64
  }

  predicate SocketFits(s: Socket) {
    && IsInt32(s.ownerPid) && IsInt32(s.depth) && |s.ownerComm| < 64 && |s.proto| < 4
    && |s.laddr| < 64 && |s.raddr| < 64 && |s.state| < 16
  }

  predicate ProcessFits(p: Process) {
    && IsInt32(p.pid) && IsInt32(p.ppid) && IsInt32(p.uid) && IsInt32(p.sid) && IsTicks(p.startTime)
    && |p.comm| < 64 && |p.exe| < 256 && |p.cmdline| < 512
    && |p.cgroup| < 256 && |p.macLabel| < 128 && |p.macMode| < 32
  }

  predicate Fits(a: Activity) {
    && |a.ts| < 24 && |a.event| < 8 && |a.path| < 512 && |a.provTrigger| < 24
    && ProcessFits(a.proc)
    && |a.anc| <= MAX_ANC && (forall i | 0 <= i < |a.anc| :: AncestorFits(a.anc[i]))
    && |a.sock| <= MAX_SOCK && (forall i | 0 <= i < |a.sock| :: SocketFits(a.sock[i]))
  }

  // ----- fields of documents -----

  predicate Key(k: string) {
    Ident(k) && |k| + 3 < NEEDLE_CAP
  }

  lemma {:induction false} StringRead(v: Value, k: string, s: string, cap: nat)
    requires Wf(v) && Key(k) && Lookup(v, k) == Some(Str(s)) && |s| < cap
    ensures ExtractString(Render(v), k, cap) == Some(s)
    ensures FieldText(Render(v), k, cap) == s
  {
    ExtractStringAgrees(v, k, cap);
    FieldTextExtracted(Render(v), k, cap);
  }

  lemma {:induction false} IntRead(v: Value, k: string, n: int)
    requires Wf(v) && Key(k) && Lookup(v, k) == Some(Int(n)) && -LONG_MAX <= n <= LONG_MAX
    ensures IntField(Render(v), k) == n
  {
    ExtractIntAgrees(v, k);
  }

  lemma Int32RoundTrip(i: int)
    requires IsInt32(i)
    ensures ToInt32(i) == i
  {
  }

  lemma {:induction false} AncestorLookups(a: Ancestor)
    ensures WfMembers(AncestorMembers(a)) && AncestorTree(Obj(AncestorMembers(a)), a)
  {
    var ms := AncestorMembers(a);
    LookupHere(ms, 0, "pid");
    LookupHere(ms, 1, "comm");
    LookupHere(ms, 2, "depth");
    LookupHere(ms, 3, "start_ticks");
  }

  /** The tree holds the fields of the ancestor under their keys. */
  predicate AncestorTree(v: Value, a: Ancestor) {
    && Lookup(v, "pid") == Some(Int(a.pid)) && Lookup(v, "comm") == Some(Str(a.comm))
    && Lookup(v, "depth") == Some(Int(a.depth)) && Lookup(v, "start_ticks") == Some(Int(ToInt64(a.startTime)))
  }

  lemma AncestorKeys()
    ensures Key("pid") && Key("comm") && Key("depth") && Key("start_ticks")
  {
  }

  lemma {:induction false} AncestorRead(a: Ancestor, v: Value)
    requires AncestorFits(a) && Wf(v) && AncestorTree(v, a)
    ensures ReadAncestor(Render(v)) == a
  {
    AncestorKeys();
    IntRead(v, "pid", a.pid);
    StringRead(v, "comm", a.comm, 64);
    IntRead(v, "depth", a.depth);
    IntRead(v, "start_ticks", ToInt64(a.startTime));
    Int32RoundTrip(a.pid);
    Int32RoundTrip(a.depth);
  }

  predicate SocketTree(v: Value, s: Socket) {
    && Lookup(v, "owner_pid") == Some(Int(s.ownerPid)) && Lookup(v, "owner_comm") == Some(Str(s.ownerComm))
    && Lookup(v, "depth") == Some(Int(s.depth)) && Lookup(v, "proto") == Some(Str(s.proto))
    && Lookup(v, "laddr") == Some(Str(s.laddr)) && Lookup(v, "raddr") == Some(Str(s.raddr))
    && Lookup(v, "state") == Some(Str(s.state))
  }

  lemma SocketWf(s: Socket)
    ensures WfMembers(SocketMembers(s))
  {
  }

  lemma {:induction false} SocketLookups(s: Socket)
    ensures SocketTree(Obj(SocketMembers(s)), s)
  {
    var ms := SocketMembers(s);
    LookupHere(ms, 0, "owner_pid");
    LookupHere(ms, 1, "owner_comm");
    LookupHere(ms, 2, "depth");
    LookupHere(ms, 3, "proto");
    LookupHere(ms, 4, "laddr");
    LookupHere(ms, 5, "raddr");
    LookupHere(ms, 6, "state");
  }

  lemma SocketKeys()
    ensures Key("owner_pid") && Key("owner_comm") && Key("depth") && Key("proto")
    ensures Key("laddr") && Key("raddr") && Key("state")
  {
  }

  lemma {:induction false} SocketNumbersRead(s: Socket, v: Value)
    requires SocketFits(s) && Wf(v) && SocketTree(v, s)
    ensures var t := ReadSocket(Render(v)); t.ownerPid == s.ownerPid && t.depth == s.depth
  {
    SocketKeys();
    IntRead(v, "owner_pid", s.ownerPid);
    IntRead(v, "depth", s.depth);
    Int32RoundTrip(s.ownerPid);
    Int32RoundTrip(s.depth);
  }

  lemma {:induction false} SocketRead(s: Socket, v: Value)
    requires SocketFits(s) && Wf(v) && SocketTree(v, s)
    ensures ReadSocket(Render(v)) == s
  {
    SocketKeys();
    SocketNumbersRead(s, v);
    StringRead(v, "owner_comm", s.ownerComm, 64);
    StringRead(v, "proto", s.proto, 4);
    StringRead(v, "laddr", s.laddr, 64);
    StringRead(v, "raddr", s.raddr, 64);
    StringRead(v, "state", s.state, 16);
  }

  predicate ProcessTree(v: Value, p: Process) {
    && Lookup(v, "pid") == Some(Int(p.pid)) && Lookup(v, "ppid") == Some(Int(p.ppid))
    && Lookup(v, "uid") == Some(Int(p.uid)) && Lookup(v, "sid") == Some(Int(p.sid))
    && Lookup(v, "start_ticks") == Some(Int(ToInt64(p.startTime)))
    && ProcessNames(v, p)
  }

  predicate ProcessNames(v: Value, p: Process) {
    && Lookup(v, "comm") == Some(Str(p.comm)) && Lookup(v, "exe") == Some(Str(p.exe))
    && Lookup(v, "cmdline") == Some(Str(p.cmdline)) && Lookup(v, "cgroup") == Some(Str(p.cgroup))
    && Lookup(v, "label") == Some(Str(p.macLabel)) && Lookup(v, "mode") == Some(Str(p.macMode))
  }

  lemma {:induction false} ProcessWf(p: Process)
    ensures WfMembers(ProcessMembers(p))
  {
    assert WfMembers(MacDoc(p).members);
  }

  lemma {:induction false} ProcessNumberLookups(p: Process)
    ensures var v := Obj(ProcessMembers(p));
            && Lookup(v, "pid") == Some(Int(p.pid)) && Lookup(v, "ppid") == Some(Int(p.ppid))
            && Lookup(v, "uid") == Some(Int(p.uid)) && Lookup(v, "sid") == Some(Int(p.sid))
            && Lookup(v, "start_ticks") == Some(Int(ToInt64(p.startTime)))
  {
    var ms := ProcessMembers(p);
    LookupHere(ms, 0, "pid");
    LookupHere(ms, 1, "ppid");
    LookupHere(ms, 2, "uid");
    LookupHere(ms, 3, "sid");
    LookupHere(ms, 4, "start_ticks");
  }

  lemma {:induction false} MacLookups(p: Process)
    ensures Lookup(MacDoc(p), "label") == Some(Str(p.macLabel))
    ensures Lookup(MacDoc(p), "mode") == Some(Str(p.macMode))
  {
    LookupHere(MacDoc(p).members, 0, "label");
    LookupHere(MacDoc(p).members, 1, "mode");
  }

  lemma {:induction false} ProcessNameLookups(p: Process)
    ensures ProcessNames(Obj(ProcessMembers(p)), p)
  {
    var ms := ProcessMembers(p);
    LookupHere(ms, 5, "comm");
    LookupHere(ms, 6, "exe");
    LookupHere(ms, 7, "cmdline");
    LookupHere(ms, 8, "cgroup");
    MacInProcess(p);
  }

  lemma {:induction false} MacInProcess(p: Process)
    ensures Lookup(Obj(ProcessMembers(p)), "label") == Some(Str(p.macLabel))
    ensures Lookup(Obj(ProcessMembers(p)), "mode") == Some(Str(p.macMode))
  {
    var ms := ProcessMembers(p);
    MacLookups(p);
    LookupAt(ms, 9, "label");
    LookupAt(ms, 9, "mode");
  }

  lemma ProcessKeys()
    ensures Key("pid") && Key("ppid") && Key("uid") && Key("sid") && Key("start_ticks")
    ensures Key("comm") && Key("exe") && Key("cmdline") && Key("cgroup") && Key("label") && Key("mode")
  {
  }

  lemma {:induction false} ProcessNumbersRead(p: Process, v: Value)
    requires ProcessFits(p) && Wf(v) && ProcessTree(v, p)
    ensures var q := ReadProcess(Render(v));
            q.pid == p.pid && q.ppid == p.ppid && q.uid == p.uid && q.sid == p.sid && q.startTime == p.startTime
  {
    ProcessKeys();
    IntRead(v, "pid", p.pid);
    IntRead(v, "ppid", p.ppid);
    IntRead(v, "uid", p.uid);
    IntRead(v, "sid", p.sid);
    IntRead(v, "start_ticks", ToInt64(p.startTime));
    Int32RoundTrip(p.pid);
    Int32RoundTrip(p.ppid);
    Int32RoundTrip(p.uid);
    Int32RoundTrip(p.sid);
  }

  lemma {:induction false} ProcessNamesRead(p: Process, v: Value)
    requires ProcessFits(p) && Wf(v) && ProcessTree(v, p)
    ensures var q := ReadProcess(Render(v));
            q.comm == p.comm && q.exe == p.exe && q.cmdline == p.cmdline
  {
    ProcessKeys();
    StringRead(v, "comm", p.comm, 64);
    StringRead(v, "exe", p.exe, 256);
    StringRead(v, "cmdline", p.cmdline, 512);
  }

  lemma {:induction false} ProcessRead(p: Process, v: Value)
    requires ProcessFits(p) && Wf(v) && ProcessTree(v, p)
    ensures ReadProcess(Render(v)) == p
  {
    ProcessKeys();
    ProcessNumbersRead(p, v);
    ProcessNamesRead(p, v);
    StringRead(v, "cgroup", p.cgroup, 256);
    StringRead(v, "label", p.macLabel, 128);
    StringRead(v, "mode", p.macMode, 32);
  }

  // ----- the whole record -----

  lemma {:induction false} AncestorDocsWf(anc: seq<Ancestor>)
    ensures WfItems(AncestorDocs(anc))
  {
    forall i | 0 <= i < |anc| ensures Wf(AncestorDocs(anc)[i]) {
      AncestorLookups(anc[i]);
    }
  }

  lemma {:induction false} SocketDocsWf(sock: seq<Socket>)
    ensures WfItems(SocketDocs(sock))
  {
    forall i | 0 <= i < |sock| ensures Wf(SocketDocs(sock)[i]) {
      SocketWf(sock[i]);
    }
  }

  lemma HeadWf(a: Activity)
    ensures WfMembers(HeadMembers(a))
  {
  }

  lemma {:induction false} RecordWf(a: Activity)
    ensures WfMembers(RecordMembers(a))
  {
    HeadWf(a);
    ProcessWf(a.proc);
    AncestorDocsWf(a.anc);
    SocketDocsWf(a.sock);
    var ms, h := RecordMembers(a), HeadMembers(a);
    assert forall i | 0 <= i < |h| :: ms[i] == h[i];
  }

  /** None of the members before the process object has one of its keys. */
  lemma {:induction false} ProcessFirst(a: Activity, k: string)
    requires Lookup(Obj(ProcessMembers(a.proc)), k).Some?
    requires k !in ["v", "ts", "event", "path", "partial", "prov_trigger", "process"]
    ensures Lookup(Obj(RecordMembers(a)), k) == Lookup(Obj(ProcessMembers(a.proc)), k)
  {
    var ms, h := RecordMembers(a), HeadMembers(a);
    forall j | 0 <= j < |h| ensures ms[j].key != k && Lookup(ms[j].value, k) == None {
      assert ms[j] == h[j];
      assert h[j].key in ["v", "ts", "event", "path", "partial", "prov_trigger", "process"];
    }
    LookupAt(ms, |h|, k);
  }

  lemma {:induction false} RecordProcessTree(a: Activity)
    ensures ProcessTree(Obj(RecordMembers(a)), a.proc)
  {
    ProcessNumberLookups(a.proc);
    ProcessNameLookups(a.proc);
    ProcessFirst(a, "pid");
    ProcessFirst(a, "ppid");
    ProcessFirst(a, "uid");
    ProcessFirst(a, "sid");
    ProcessFirst(a, "start_ticks");
    ProcessFirst(a, "comm");
    ProcessFirst(a, "exe");
    ProcessFirst(a, "cmdline");
    ProcessFirst(a, "cgroup");
    ProcessFirst(a, "label");
    ProcessFirst(a, "mode");
  }

  lemma {:induction false} HeadLookups(a: Activity)
    ensures var v := Obj(RecordMembers(a));
            && Lookup(v, "ts") == Some(Str(a.ts)) && Lookup(v, "event") == Some(Str(a.event))
            && Lookup(v, "path") == Some(Str(a.path))
  {
    var ms := RecordMembers(a);
    LookupHere(ms, 1, "ts");
    LookupHere(ms, 2, "event");
    LookupHere(ms, 3, "path");
  }

  lemma {:induction false} AncestorsLack(anc: seq<Ancestor>, k: string)
    requires k !in ["pid", "comm", "depth", "start_ticks"]
    ensures LookupItems(AncestorDocs(anc), k) == None
  {
    if |anc| > 0 {
      LookupAbsent(AncestorMembers(anc[0]), k);
      assert AncestorDocs(anc)[1..] == AncestorDocs(anc[1..]);
      AncestorsLack(anc[1..], k);
    }
  }

  lemma {:induction false} SocketsLack(sock: seq<Socket>, k: string)
    requires k !in ["owner_pid", "owner_comm", "depth", "proto", "laddr", "raddr", "state"]
    ensures LookupItems(SocketDocs(sock), k) == None
  {
    if |sock| > 0 {
      LookupAbsent(SocketMembers(sock[0]), k);
      assert SocketDocs(sock)[1..] == SocketDocs(sock[1..]);
      SocketsLack(sock[1..], k);
    }
  }

  lemma {:induction false} TriggerLookup(a: Activity)
    ensures Lookup(Obj(RecordMembers(a)), "prov_trigger") ==
            if a.provTrigger != "" then Some(Str(a.provTrigger)) else None
  {
    var ms, k := RecordMembers(a), "prov_trigger";
    if a.provTrigger != "" {
      LookupHere(ms, 5, k);
    } else {
      LookupAbsent(MacDoc(a.proc).members, k);
      LookupAbsent(ProcessMembers(a.proc), k);
      AncestorsLack(a.anc, k);
      SocketsLack(a.sock, k);
      LookupAbsent(ms, k);
    }
  }

  lemma {:induction false} HeadRead(a: Activity)
    requires Fits(a)
    ensures var text := ToJson(a);
            && ExtractString(text, "ts", 24) == Some(a.ts)
            && FieldText(text, "event", 8) == a.event
            && FieldText(text, "path", 512) == a.path
            && FieldText(text, "prov_trigger", 24) == a.provTrigger
  {
    var v := Obj(RecordMembers(a));
    RecordWf(a);
    HeadLookups(a);
    TriggerLookup(a);
    StringRead(v, "ts", a.ts, 24);
    StringRead(v, "event", a.event, 8);
    StringRead(v, "path", a.path, 512);
    if a.provTrigger != "" {
      StringRead(v, "prov_trigger", a.provTrigger, 24);
    } else {
      var tail := LocatedAgrees(v, "prov_trigger");
    }
  }

  // ----- arrays -----

  /** The strings that come before the ancestry array, in order. */
  function EarlyStrings(a: Activity): (r: seq<string>) {
    [a.ts, a.event, a.path, a.provTrigger, a.proc.comm, a.proc.exe, a.proc.cmdline, a.proc.cgroup,
     a.proc.macLabel, a.proc.macMode]
  }

  /** No string written before an array is mistaken for the quoted name of the array. */
  predicate Unambiguous(a: Activity) {
    && (forall s | s in EarlyStrings(a) :: !Imitates(s, "ancestry") && !Imitates(s, "sockets"))
    && (forall i | 0 <= i < |a.anc| :: !Imitates(a.anc[i].comm, "sockets"))
  }

  lemma {:induction false} HeadHidesNothing(a: Activity, name: string)
    requires name == "ancestry" || name == "sockets"
    requires forall s | s in EarlyStrings(a) :: !Imitates(s, name)
    ensures !MembersHideTag(HeadMembers(a), name)
  {
    var e, ms := EarlyStrings(a), HeadMembers(a);
    assert e[0] in e && e[1] in e && e[2] in e && e[3] in e;
    forall i | 0 <= i < |ms| ensures ms[i].key != name && !HidesTag(ms[i].value, name) {
      assert ms[i].value.Str? ==> ms[i].value.s in e;
    }
  }

  lemma {:induction false} ProcessHidesNothing(a: Activity, name: string)
    requires name == "ancestry" || name == "sockets"
    requires forall s | s in EarlyStrings(a) :: !Imitates(s, name)
    ensures !HidesTag(Obj(ProcessMembers(a.proc)), name)
  {
    var e := EarlyStrings(a);
    assert e[4] in e && e[5] in e && e[6] in e && e[7] in e && e[8] in e && e[9] in e;
    var ms := ProcessMembers(a.proc);
    forall i | 0 <= i < |ms| ensures ms[i].key != name && !HidesTag(ms[i].value, name) {
      if i == 9 {
        assert !MembersHideTag(MacDoc(a.proc).members, name);
      }
    }
  }

  lemma {:induction false} AncestorsHideNothing(a: Activity)
    requires Unambiguous(a)
    ensures !HidesTag(Arr(AncestorDocs(a.anc)), "sockets")
  {
    forall i | 0 <= i < |a.anc| ensures !HidesTag(AncestorDocs(a.anc)[i], "sockets") {
      assert !MembersHideTag(AncestorMembers(a.anc[i]), "sockets");
    }
  }

  /** The reader finds the objects of both arrays: for each array, no brace and no closing
      bracket follows a bracket between the first place where the array's quoted name is found
      and the array. */
  predicate ArraysReached(a: Activity) {
    AncestryReached(a) && SocketsReached(a)
  }

  predicate AncestryReached(a: Activity) {
    Reached(RecordMembers(a), |HeadMembers(a)| + 1)
  }

  predicate SocketsReached(a: Activity) {
    Reached(RecordMembers(a), |HeadMembers(a)| + 2)
  }

  /** Records in which no early string imitates an array name are among these. */
  lemma {:induction false} UnambiguousReached(a: Activity)
    requires Unambiguous(a)
    ensures ArraysReached(a)
  {
    var ms, h := RecordMembers(a), HeadMembers(a);
    RecordWf(a);
    HeadHidesNothing(a, "ancestry");
    ProcessHidesNothing(a, "ancestry");
    assert ms[..|h| + 1] == h + [ms[|h|]];
    UnhiddenReached(ms, |h| + 1);
    HeadHidesNothing(a, "sockets");
    ProcessHidesNothing(a, "sockets");
    AncestorsHideNothing(a);
    assert ms[..|h| + 2] == h + [ms[|h|], ms[|h| + 1]];
    UnhiddenReached(ms, |h| + 2);
  }

  lemma {:induction false} AncestryRead(a: Activity)
    requires Fits(a) && AncestryReached(a)
    ensures ArrayObjects(ToJson(a), "ancestry", ANC_BUF, MAX_ANC) ==
            Texts(AncestorDocs(a.anc), FittingPrefix(AncestorDocs(a.anc), ANC_BUF))
  {
    RecordWf(a);
    ReachedObjects(RecordMembers(a), |HeadMembers(a)| + 1, ANC_BUF, MAX_ANC);
  }

  lemma {:induction false} SocketsRead(a: Activity)
    requires Fits(a) && SocketsReached(a)
    ensures ArrayObjects(ToJson(a), "sockets", SOCK_BUF, MAX_SOCK) ==
            Texts(SocketDocs(a.sock), FittingPrefix(SocketDocs(a.sock), SOCK_BUF))
  {
    RecordWf(a);
    ReachedObjects(RecordMembers(a), |HeadMembers(a)| + 2, SOCK_BUF, MAX_SOCK);
  }

  /** What the reader restores of a record: everything but the `partial` flag, with the
      ancestors and sockets up to the first one whose text does not fit the reader's buffer. */
  function Restored(a: Activity): (r: Activity) {
    a.(partial := false,
       anc := a.anc[..FittingPrefix(AncestorDocs(a.anc), ANC_BUF)],
       sock := a.sock[..FittingPrefix(SocketDocs(a.sock), SOCK_BUF)])
  }

  lemma {:induction false} AncestorsRestored(a: Activity)
    requires Fits(a) && AncestryReached(a)
    ensures ReadAncestors(ArrayObjects(ToJson(a), "ancestry", ANC_BUF, MAX_ANC)) == Restored(a).anc
  {
    AncestryRead(a);
    forall i | 0 <= i < |a.anc| ensures ReadAncestor(Render(AncestorDocs(a.anc)[i])) == a.anc[i] {
      AncestorLookups(a.anc[i]);
      AncestorRead(a.anc[i], AncestorDocs(a.anc)[i]);
    }
  }

  lemma {:induction false} SocketsRestored(a: Activity)
    requires Fits(a) && SocketsReached(a)
    ensures ReadSockets(ArrayObjects(ToJson(a), "sockets", SOCK_BUF, MAX_SOCK)) == Restored(a).sock
  {
    SocketsRead(a);
    forall i | 0 <= i < |a.sock| ensures ReadSocket(Render(SocketDocs(a.sock)[i])) == a.sock[i] {
      SocketWf(a.sock[i]);
      SocketLookups(a.sock[i]);
      SocketRead(a.sock[i], SocketDocs(a.sock)[i]);
    }
  }

  lemma {:induction false} ProcessRestored(a: Activity)
    requires Fits(a)
    ensures ReadProcess(ToJson(a)) == a.proc
  {
    RecordWf(a);
    RecordProcessTree(a);
    ProcessRead(a.proc, Obj(RecordMembers(a)));
  }

  /** Round trip of activity records. */
  lemma {:induction false} RoundTrip(a: Activity)
    requires Fits(a) && ArraysReached(a)
    ensures FromJson(ToJson(a)) == Some(Restored(a))
  {
    HeadRead(a);
    ProcessRestored(a);
    AncestorsRestored(a);
    SocketsRestored(a);
    OpensWithBrace(a);
  }

  lemma {:induction false} OpensWithBrace(a: Activity)
    ensures ToJson(a) != "" && ToJson(a)[0] == '{'
  {
  }

  /** The whole record comes back exactly when every ancestor and socket fits the buffers the
      reader copies them into. */
  lemma {:induction false} RoundTripIff(a: Activity)
    requires Fits(a) && ArraysReached(a)
    ensures FromJson(ToJson(a)) == Some(a.(partial := false)) <==>
            && (forall i | 0 <= i < |a.anc| :: |Render(AncestorDocs(a.anc)[i])| < ANC_BUF)
            && (forall i | 0 <= i < |a.sock| :: |Render(SocketDocs(a.sock)[i])| < SOCK_BUF)
  {
    RoundTrip(a);
    FittingAll(AncestorDocs(a.anc), ANC_BUF);
    FittingAll(SocketDocs(a.sock), SOCK_BUF);
    RestoredAll(a);
  }

  lemma {:induction false} RestoredAll(a: Activity)
    ensures Restored(a) == a.(partial := false) <==>
            && FittingPrefix(AncestorDocs(a.anc), ANC_BUF) == |a.anc|
            && FittingPrefix(SocketDocs(a.sock), SOCK_BUF) == |a.sock|
  {
    var n, m := FittingPrefix(AncestorDocs(a.anc), ANC_BUF), FittingPrefix(SocketDocs(a.sock), SOCK_BUF);
    assert |a.anc[..n]| == n && |a.sock[..m]| == m;
    assert n == |a.anc| ==> a.anc[..n] == a.anc;
    assert m == |a.sock| ==> a.sock[..m] == a.sock;
  }

  lemma {:induction false} FittingAll(vs: seq<Value>, cap: nat)
    ensures FittingPrefix(vs, cap) == |vs| <==> forall i | 0 <= i < |vs| :: |Render(vs[i])| < cap
  {
    if |vs| > 0 && |Render(vs[0])| < cap {
      FittingAll(vs[1..], cap);
      assert forall i | 1 <= i < |vs| :: vs[i] == vs[1..][i - 1];
      assert forall i | 0 <= i < |vs[1..]| :: vs[1..][i] == vs[i + 1];
    }
  }

  // ----- why the strings must not imitate the array's name -----

  lemma {:induction false} NameFoundInProcess(p: Process, r: string)
    requires p.comm == "ancestry" && Delimited(r)
    ensures After(RenderMembers(ProcessMembers(p)) + r, Tag("ancestry")) ==
            Some(RenderMoreMembers(ProcessMembers(p)[6..]) + r)
  {
    var ms, k := ProcessMembers(p), "ancestry";
    var pre, rest := ms[..5], ms[5..];
    ProcessWf(p);
    assert ms == pre + rest && rest[1..] == ms[6..];
    assert !MembersHideTag(pre, k);
    MembersSkipped(pre, rest, k, r);
    ImitatorFound(rest, k, r);
  }

  lemma {:induction false} BracketFound(ms: seq<Member>, r: string) returns (tail: string)
    requires |ms| > 0 && ms[0] == Member("exe", Str("[]"))
    ensures FromChar(RenderMoreMembers(ms) + r, '[') == Some("[]" + tail)
  {
    QuotedKey("exe");
    EscapePlain("[]");
    FirstMemberText(ms, r);
    tail := "\"" + (RenderMoreMembers(ms[1..]) + r);
    assert Render(ms[0].value) + (RenderMoreMembers(ms[1..]) + r) == "\"" + ("[]" + tail);
    var lead := "," + Needle("exe") + "\"";
    assert RenderMoreMembers(ms) + r == lead + ("[]" + tail);
    FromCharSkips(lead, "[]" + tail);
  }

  lemma {:induction false} EscapePlain(s: string)
    requires s == "[]"
    ensures Escape(s) == s
  {
    assert s[1..] == "]" && s[1..][1..] == "";
    assert Escape("]") == "]" + Escape("");
  }

  lemma {:induction false} FromCharSkips(a: string, t: string)
    requires forall i | 0 <= i < |a| :: a[i] != '['
    requires t != "" && t[0] == '['
    ensures FromChar(a + t, '[') == Some(t)
  {
    if a == "" {
      assert a + t == t;
    } else {
      assert (a + t)[1..] == a[1..] + t;
      FromCharSkips(a[1..], t);
    }
  }

  /** A process named `ancestry` whose executable is called `[]` loses all its ancestors in
      the round trip, although every field and object fits. */
  lemma {:induction false} AncestryLost(a: Activity)
    requires Fits(a) && a.proc.comm == "ancestry" && a.proc.exe == "[]"
    requires a.ts == "" && a.event == "open" && a.path == "" && a.provTrigger == ""
    ensures FromJson(ToJson(a)).Some? && FromJson(ToJson(a)).value.anc == []
  {
    HeadRead(a);
    var tail := MisplacedArray(a);
    NoObjects(tail);
    assert ToJson(a)[0] == '{';
  }

  lemma {:induction false} MisplacedArray(a: Activity) returns (tail: string)
    requires a.proc.comm == "ancestry" && a.proc.exe == "[]"
    requires a.ts == "" && a.event == "open" && a.path == "" && a.provTrigger == ""
    ensures ArrayText(ToJson(a), "ancestry") == Some("[]" + tail)
  {
    var ms, h, k := RecordMembers(a), HeadMembers(a), "ancestry";
    RecordWf(a);
    assert !MembersHideTag(h, k);
    var rest := ms[|h|..];
    assert ms == h + rest;
    RootOpened(ms, k);
    MembersSkipped(h, rest, k, "}");
    var r := ProcessOpened(rest, ProcessMembers(a.proc));
    NameFoundInProcess(a.proc, r);
    tail := BracketFound(ProcessMembers(a.proc)[6..], r);
  }

  lemma {:induction false} ProcessOpened(rest: seq<Member>, ps: seq<Member>) returns (r: string)
    requires |rest| > 0 && rest[0] == Member("process", Obj(ps))
    ensures Delimited(r)
    ensures After(RenderMembers(rest) + "}", Tag("ancestry")) == After(RenderMembers(ps) + r, Tag("ancestry"))
  {
    var more := RenderMoreMembers(rest[1..]) + "}";
    r := "}" + more;
    FirstMemberText(rest, "}");
    OtherKeySkipped("process", Render(Obj(ps)) + more, "ancestry");
    ObjectText(ps, more);
    NoQuoteSkipped("{", RenderMembers(ps) + r, Tag("ancestry"));
  }

  lemma {:induction false} NoObjects(tail: string)
    ensures Objects("[]" + tail, ANC_BUF, MAX_ANC) == []
  {
    var t := "[]" + tail;
    assert t[1..] == "]" + tail;
    assert ToBrace(t) == t[1..];
  }

  // ----- the source's own loops -----

  lemma {:induction false} RecordEmittable(a: Activity)
    ensures forall i | 0 <= i < |RecordMembers(a)| :: EmittableMember(RecordMembers(a)[i])
  {
    var ms, h := RecordMembers(a), HeadMembers(a);
    assert forall i | 0 <= i < |h| :: ms[i] == h[i];
    assert EmittableMember(ProcessMembers(a.proc)[9]);
    assert EmittableMember(ms[|h|]);
    forall i | 0 <= i < |a.anc| ensures EmittableItem(AncestorDocs(a.anc)[i]) {
      assert AncestorDocs(a.anc)[i] == Obj(AncestorMembers(a.anc[i]));
    }
    forall i | 0 <= i < |a.sock| ensures EmittableItem(SocketDocs(a.sock)[i]) {
      assert SocketDocs(a.sock)[i] == Obj(SocketMembers(a.sock[i]));
    }
  }

  /** Writes the record through the streaming writer; fails exactly when it does not fit. */
  method WriteRecord(a: Activity, out: array<char>) returns (n: int)
    modifies out
    ensures n >= 0 <==> |ToJson(a)| < out.Length
    ensures n >= 0 ==> n < out.Length && out[..n] == ToJson(a) && out[n] == '\0'
  {
    RecordEmittable(a);
    var j := new Writer(out);
    j.WriteObject(RecordMembers(a));
    assert j.ideal == ToJson(a);
    n := j.Finish();
  }

  method ReadRecord(json: string) returns (r: Option<Activity>)
    ensures r == FromJson(json)
  {
    if json == "" || json[0] != '{' {
      return None;
    }
    var ts := ExtractString(json, "ts", 24);
    if ts.None? {
      return None;
    }
    var anc := CollectArray(json, "ancestry", ANC_BUF, MAX_ANC);
    var sock := CollectArray(json, "sockets", SOCK_BUF, MAX_SOCK);
    r := Some(Activity(ts.value, FieldText(json, "event", 8), FieldText(json, "path", 512), false,
                       FieldText(json, "prov_trigger", 24), ReadProcess(json), ReadAncestors(anc), ReadSockets(sock)));
  }
}
