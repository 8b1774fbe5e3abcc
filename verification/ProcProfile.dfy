/** The live profile of a process: a table of at most 512 entities (files, destinations,
    programs) into which observed activities are folded, with a dirty flag per entity. */
module ProcProfile {
  import opened JsonTree
  import opened ActivityRecord

  const MAX_ENT: nat := 512

  datatype Kind = File | Dest | Program

  datatype Verdict = Covered | Novel | Anomaly | NotAvailable

  /** What a replica of the profile shows of an entity. */
  datatype Shown = Shown(
    id: string, kind: Kind, value: string, state: string, count: int, first: string, last: string, verdict: Verdict)

  datatype Entity = Entity(shown: Shown, dirty: bool, lastMs: int)

  /** The decisions of the loaded baseline about a path and about a remote address. */
  datatype Baseline = Baseline(file: string -> Verdict, dest: string -> Verdict)

  /** One update of the table that an activity causes. */
  datatype Touch = Touch(id: string, kind: Kind, value: string, state: Option<string>, verdict: Verdict)

  // ----- specification -----

  function FindId(ents: seq<Entity>, id: string): (i: nat)
    ensures i <= |ents|
    ensures i < |ents| ==> ents[i].shown.id == id
    ensures forall j | 0 <= j < i :: ents[j].shown.id != id
  {
    if |ents| == 0 || ents[0].shown.id == id then 0 else 1 + FindId(ents[1..], id)
  }

  /** The first entity with the smallest time of last use. */
  function Oldest(ents: seq<Entity>): (i: nat)
    requires |ents| > 0
    ensures i < |ents|
    ensures forall j | 0 <= j < |ents| :: ents[i].lastMs <= ents[j].lastMs
    ensures forall j | 0 <= j < i :: ents[i].lastMs < ents[j].lastMs
  {
    if |ents| == 1 then 0
    else
      var k := Oldest(ents[..|ents| - 1]);
      if ents[|ents| - 1].lastMs < ents[k].lastMs then |ents| - 1 else k
  }

  function Blank(id: string, kind: Kind, value: string): (e: Entity) {
    Entity(Shown(id, kind, value, "", 0, "", "", NotAvailable), false, 0)
  }

  /** The slot of an entity: where it is, a new slot, or the least recently used one. */
  function SlotFor(ents: seq<Entity>, id: string): (i: nat)
    ensures i <= |ents| && (i == |ents| ==> |ents| < MAX_ENT)
  {
    var i := FindId(ents, id);
    if i < |ents| || |ents| < MAX_ENT then i else Oldest(ents)
  }

  function Put(ents: seq<Entity>, i: nat, e: Entity): (r: seq<Entity>)
    requires i <= |ents|
  {
    if i == |ents| then ents + [e] else ents[i := e]
  }

  function Touched(e: Entity, t: Touch, ts: string, now: int): (r: Entity) {
    Entity(e.shown.(state := if t.state.Some? then t.state.value else e.shown.state,
                    verdict := t.verdict,
                    first := if e.shown.count == 0 then ts else e.shown.first,
                    last := ts,
                    count := e.shown.count + 1), true, now)
  }

  function TouchEntity(ents: seq<Entity>, t: Touch, ts: string, now: int): (r: seq<Entity>) {
    var i := SlotFor(ents, t.id);
    var e := if FindId(ents, t.id) < |ents| then ents[i] else Blank(t.id, t.kind, t.value);
    Put(ents, i, Touched(e, t, ts, now))
  }

  function SocketTouches(sock: seq<Socket>, b: Baseline): (r: seq<Touch>) {
    if |sock| == 0 then []
    else
      var rest := SocketTouches(sock[1..], b);
      var s := sock[0];
      if s.raddr == "" then rest
      else [Touch("dest:" + s.raddr, Dest, s.raddr, Some(s.state), b.dest(s.raddr))] + rest
  }

  /** The updates an activity causes, in order. */
  function Touches(a: Activity, b: Baseline): (r: seq<Touch>) {
    (if a.path != "" then [Touch("file:" + a.path, File, a.path, None, b.file(a.path))] else []) +
    SocketTouches(a.sock, b) +
    if a.event == "exec" && a.path != "" then [Touch("proc:" + a.path, Program, a.path, None, NotAvailable)] else []
  }

  function TouchAll(ents: seq<Entity>, ts: seq<Touch>, stamp: string, now: int): (r: seq<Entity>)
    decreases |ts|
  {
    if |ts| == 0 then ents else TouchAll(TouchEntity(ents, ts[0], stamp, now), ts[1..], stamp, now)
  }

  function Fold(ents: seq<Entity>, a: Activity, b: Baseline, now: int): (r: seq<Entity>) {
    TouchAll(ents, Touches(a, b), a.ts, now)
  }

  // ----- what folding keeps -----

  ghost predicate Distinct(ents: seq<Entity>) {
    forall i, j | 0 <= i < j < |ents| :: ents[i].shown.id != ents[j].shown.id
  }

  function View(ents: seq<Entity>): (v: seq<Shown>)
    ensures |v| == |ents| && forall i | 0 <= i < |ents| :: v[i] == ents[i].shown
  {
    seq(|ents|, i requires 0 <= i < |ents| => ents[i].shown)
  }

  /** The first entities of `u` are those of `v`, in the same places. */
  ghost predicate InPlace(v: seq<Shown>, u: seq<Shown>) {
    |v| <= |u| && forall i | 0 <= i < |v| :: v[i].id == u[i].id
  }

  /** The entities that are not dirty are those of an earlier view, unchanged; the entities of
      the earlier view are still in their places. */
  ghost predicate Tracks(v: seq<Shown>, ents: seq<Entity>) {
    && InPlace(v, View(ents))
    && (forall i | 0 <= i < |ents| && !ents[i].dirty :: i < |v| && v[i] == ents[i].shown)
  }

  /** Whatever changed is dirty. */
  ghost predicate Marked(ents: seq<Entity>, r: seq<Entity>) {
    && |ents| <= |r|
    && forall i | 0 <= i < |r| && !r[i].dirty :: i < |ents| && r[i] == ents[i]
  }

  lemma TrackedOn(v: seq<Shown>, ents: seq<Entity>, r: seq<Entity>)
    requires Tracks(v, ents) && Marked(ents, r) && InPlace(v, View(r))
    ensures Tracks(v, r)
  {
  }

  /** The update finds its entity or a free slot: nothing is evicted. */
  predicate HasRoom(ents: seq<Entity>, id: string) {
    FindId(ents, id) < |ents| || |ents| < MAX_ENT
  }

  lemma TouchKeeps(ents: seq<Entity>, t: Touch, ts: string, now: int)
    requires Distinct(ents) && |ents| <= MAX_ENT
    ensures var r := TouchEntity(ents, t, ts, now);
            Distinct(r) && Marked(ents, r) && |r| <= MAX_ENT
  {
  }

  /** The entities of an earlier view stay in their places exactly when the update evicts
      nothing, or evicts an entity the view does not have. */
  lemma InPlaceIff(v: seq<Shown>, ents: seq<Entity>, t: Touch, ts: string, now: int)
    requires InPlace(v, View(ents)) && |ents| <= MAX_ENT
    ensures InPlace(v, View(TouchEntity(ents, t, ts, now))) <==>
            HasRoom(ents, t.id) || |v| <= Oldest(ents)
  {
  }

  /** Folding an activity marks whatever it changes. */
  lemma {:induction false} TouchAllKeeps(ents: seq<Entity>, ts: seq<Touch>, stamp: string, now: int)
    requires Distinct(ents) && |ents| <= MAX_ENT
    ensures var r := TouchAll(ents, ts, stamp, now);
            Distinct(r) && Marked(ents, r) && |r| <= MAX_ENT
    decreases |ts|
  {
    if |ts| > 0 {
      TouchKeeps(ents, ts[0], stamp, now);
      TouchAllKeeps(TouchEntity(ents, ts[0], stamp, now), ts[1..], stamp, now);
    }
  }

  /** No update evicts an entity among the first `n`. */
  predicate AllSpare(ents: seq<Entity>, ts: seq<Touch>, stamp: string, now: int, n: nat)
    decreases |ts|
  {
    |ts| > 0 ==>
      && (HasRoom(ents, ts[0].id) || n <= Oldest(ents))
      && AllSpare(TouchEntity(ents, ts[0], stamp, now), ts[1..], stamp, now, n)
  }

  /** Then an earlier view of `n` entities keeps them in place. */
  lemma {:induction false} SpareInPlace(v: seq<Shown>, ents: seq<Entity>, ts: seq<Touch>, stamp: string, now: int)
    requires Distinct(ents) && InPlace(v, View(ents)) && |ents| <= MAX_ENT && AllSpare(ents, ts, stamp, now, |v|)
    ensures InPlace(v, View(TouchAll(ents, ts, stamp, now)))
    decreases |ts|
  {
    if |ts| > 0 {
      TouchKeeps(ents, ts[0], stamp, now);
      InPlaceIff(v, ents, ts[0], stamp, now);
      SpareInPlace(v, TouchEntity(ents, ts[0], stamp, now), ts[1..], stamp, now);
    }
  }
}
