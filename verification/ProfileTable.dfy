/** The profile model as the source keeps it: a fixed array of entities updated in place. */
module ProfileTable {
  import opened JsonTree
  import opened JsonExtract
  import opened JsonArrays
  import opened JsonWriter
  import opened ActivityRecord
  import opened ProcProfile
  import opened ProfileDelta
  import opened Replication

  class Table {
    const ent: array<Entity>
    var nent: nat
    var epoch: string
    var seqNo: int
    var exe: string

    ghost predicate Valid()
      reads this`nent
    {
      ent.Length == MAX_ENT && nent <= MAX_ENT
    }

    ghost function Ents(): (s: seq<Entity>)
      requires Valid()
      reads this`nent, ent
    {
      ent[..nent]
    }

    ghost function State(): (m: Model)
      requires Valid()
      reads this, ent
    {
      Model(Ents(), epoch, seqNo, exe)
    }

    constructor (epoch: string, exe: string)
      ensures Valid() && fresh(ent) && State() == Model([], epoch, 0, exe)
    {
      ent := new Entity[MAX_ENT](_ => Zeroed(""));
      nent, seqNo := 0, 0;
      this.epoch, this.exe := epoch, exe;
    }

    /** One pass over the table: the entity's place if it is there, else the least recently used. */
    method Scan(id: string) returns (i: nat, oldest: nat)
      requires Valid()
      ensures i == FindId(Ents(), id)
      ensures i == nent > 0 ==> oldest == Oldest(Ents())
    {
      ghost var was := Ents();
      i, oldest := 0, 0;
      while i < nent
        invariant 0 <= i <= nent
        invariant forall j | 0 <= j < i :: was[j].shown.id != id
        invariant i > 0 ==> oldest == Oldest(was[..i])
      {
        if ent[i].shown.id == id {
          FoundAt(was, i, id);
          return;
        }
        OldestNext(was, i);
        if i == 0 || ent[i].lastMs < ent[oldest].lastMs {
          oldest := i;
        }
        i := i + 1;
      }
      NotFound(was, id);
      assert was[..nent] == was;
    }

    /** The slot of an entity, made blank when it is a new one; a full table gives up its least
        recently used entity. */
    method EntGet(id: string, kind: Kind, value: string) returns (slot: nat)
      requires Valid()
      modifies this`nent, ent
      ensures Valid() && slot == SlotFor(old(Ents()), id) && slot < nent
      ensures Ents() == if FindId(old(Ents()), id) < |old(Ents())| then old(Ents())
                        else Put(old(Ents()), slot, Blank(id, kind, value))
    {
      var i, oldest := Scan(id);
      if i < nent {
        return i;
      }
      if nent < MAX_ENT {
        slot := nent;
        ent[slot] := Blank(id, kind, value);
        nent := nent + 1;
      } else {
        slot := oldest;
        ent[slot] := Blank(id, kind, value);
      }
    }

    method TouchOne(t: Touch, ts: string, now: int)
      requires Valid()
      modifies this`nent, ent
      ensures Valid() && Ents() == TouchEntity(old(Ents()), t, ts, now)
    {
      var i := EntGet(t.id, t.kind, t.value);
      ghost var before := Ents();
      ent[i] := Touched(ent[i], t, ts, now);
      assert Ents() == before[i := Touched(before[i], t, ts, now)];
    }

    method TouchIf(yes: bool, t: Touch, ts: string, now: int)
      requires Valid()
      modifies this`nent, ent
      ensures Valid() && Ents() == TouchAll(old(Ents()), if yes then [t] else [], ts, now)
    {
      OneTouch(Ents(), t, ts, now);
      if yes {
        TouchOne(t, ts, now);
      }
    }

    method FoldSockets(sock: seq<Socket>, b: Baseline, ts: string, now: int)
      requires Valid()
      modifies this`nent, ent
      ensures Valid() && Ents() == TouchAll(old(Ents()), SocketTouches(sock, b), ts, now)
    {
      ghost var was := Ents();
      var i := 0;
      while i < |sock|
        invariant 0 <= i <= |sock| && Valid()
        invariant TouchAll(Ents(), SocketTouches(sock[i..], b), ts, now) ==
                  TouchAll(was, SocketTouches(sock, b), ts, now)
      {
        var s := sock[i];
        assert sock[i..][1..] == sock[i + 1..];
        if s.raddr != "" {
          TouchOne(Touch("dest:" + s.raddr, Dest, s.raddr, Some(s.state), b.dest(s.raddr)), ts, now);
        }
        i := i + 1;
      }
    }

    /** Folds an activity: its path, its sockets in order, and the program it starts. */
    method FoldActivity(a: Activity, b: Baseline, now: int)
      requires Valid()
      modifies this`nent, ent
      ensures Valid() && Ents() == Fold(old(Ents()), a, b, now)
    {
      var file := Touch("file:" + a.path, File, a.path, None, b.file(a.path));
      var program := Touch("proc:" + a.path, Program, a.path, None, NotAvailable);
      ghost var was := Ents();
      TouchIf(a.path != "", file, a.ts, now);
      FoldSockets(a.sock, b, a.ts, now);
      TouchIf(a.event == "exec" && a.path != "", program, a.ts, now);
      ghost var head := if a.path != "" then [file] else [];
      TouchAllConcat(was, head, SocketTouches(a.sock, b), a.ts, now);
      TouchAllConcat(was, head + SocketTouches(a.sock, b), if a.event == "exec" && a.path != "" then [program] else [],
                     a.ts, now);
    }

    /** Writes a keyframe of the whole table; fails exactly when it does not fit. */
    method KeyframeJson(h: Header, out: array<char>) returns (n: int)
      requires Valid()
      modifies out
      ensures var text := KeyframeText(View(Ents()), epoch, h);
              && (n >= 0 <==> |text| < out.Length)
              && (n >= 0 ==> n < out.Length && out[..n] == text && out[n] == '\0')
    {
      var v := View(ent[..nent]);
      KeyframeEmittable(v, epoch, h);
      var j := new Writer(out);
      j.WriteObject(KeyframeMembers(v, epoch, h));
      assert j.ideal == KeyframeText(v, epoch, h);
      n := j.Finish();
    }

    /** Takes the dirty entities out, in table order, clearing their flags. */
    method TakeDirty() returns (ops: seq<Shown>)
      requires Valid()
      modifies ent
      ensures Valid() && ops == DirtyView(old(Ents())) && Ents() == Cleaned(old(Ents()))
    {
      ghost var was := Ents();
      ops := [];
      var i := 0;
      while i < nent
        invariant 0 <= i <= nent && ops == DirtyView(was[..i])
        invariant forall j | 0 <= j < i :: ent[j] == was[j].(dirty := false)
        invariant forall j | i <= j < nent :: ent[j] == was[j]
      {
        DirtySnoc(was, i);
        if ent[i].dirty {
          ops := ops + [ent[i].shown];
          ent[i] := ent[i].(dirty := false);
        }
        i := i + 1;
      }
      assert was[..nent] == was;
    }

    /** Writes a delta of the dirty entities, if there are any: the sequence number advances and
        the flags are cleared even when the text does not fit. */
    method DeltaJson(out: array<char>) returns (n: int)
      requires Valid()
      modifies this`seqNo, ent, out
      ensures Valid()
      ensures !AnyDirty(old(Ents())) ==> n == 0 && State() == old(State())
      ensures AnyDirty(old(Ents())) ==>
                && State() == old(State()).(ents := Cleaned(old(Ents())), seqNo := old(seqNo) + 1)
                && var text := DeltaText(DirtyView(old(Ents())), epoch, seqNo);
                && (n >= 0 <==> |text| < out.Length)
                && (n >= 0 ==> n < out.Length && out[..n] == text && out[n] == '\0')
    {
      var any, i := false, 0;
      while i < nent && !any
        invariant 0 <= i <= nent
        invariant any ==> AnyDirty(Ents())
        invariant !any ==> forall j | 0 <= j < i :: !ent[j].dirty
      {
        if ent[i].dirty {
          assert Ents()[i].dirty;
          any := true;
        }
        i := i + 1;
      }
      if !any {
        return 0;
      }
      seqNo := seqNo + 1;
      var ops := TakeDirty();
      n := WriteDelta(ops, epoch, seqNo, out);
    }

    /** Sets one entity from the text of its object: in place, or in a new slot if there is one. */
    method UpsertObject(obj: string)
      requires Valid()
      modifies this`nent, ent
      ensures Valid() && Ents() == Upsert(old(Ents()), obj)
    {
      var id := ExtractString(obj, "id", 544);
      if id.None? {
        return;
      }
      ghost var was := Ents();
      var i := 0;
      while i < nent && ent[i].shown.id != id.value
        invariant 0 <= i <= nent && forall j | 0 <= j < i :: was[j].shown.id != id.value
      {
        i := i + 1;
      }
      if i < nent {
        FoundAt(was, i, id.value);
      } else {
        NotFound(was, id.value);
        if nent >= MAX_ENT {
          return;
        }
        ent[i] := Zeroed(id.value);
        nent := nent + 1;
      }
      ent[i] := ent[i].(shown := ReadShown(obj, ent[i].shown));
    }

    method UpsertObjects(objs: seq<string>)
      requires Valid()
      modifies this`nent, ent
      ensures Valid() && Ents() == UpsertAll(old(Ents()), objs)
    {
      var i := 0;
      assert objs[0..] == objs;
      while i < |objs|
        invariant 0 <= i <= |objs| && Valid()
        invariant UpsertAll(Ents(), objs[i..]) == UpsertAll(old(Ents()), objs)
      {
        assert objs[i..][1..] == objs[i + 1..];
        UpsertObject(objs[i]);
        i := i + 1;
      }
    }

    /** Applies the text of a frame: a keyframe always, a delta only when it directly follows. */
    method ApplyJson(json: string) returns (r: Applied)
      requires Valid()
      modifies this, ent
      ensures Valid() && (State(), r) == Apply(old(State()), json)
    {
      var kind := ExtractString(json, "type", 16);
      if kind.None? {
        return Desync;
      }
      var frameEpoch, n := FieldText(json, "epoch", 24), ToUint64(IntField(json, "seq"));
      if kind.value == "keyframe" {
        nent, epoch, seqNo := 0, frameEpoch, 0;
        var exeText := ExtractString(json, "exe", 256);
        if exeText.Some? {
          exe := exeText.value;
        }
        var objs := CollectArray(json, "entities", OBJ_BUF, |json|);
        UpsertObjects(objs);
        return Ok;
      }
      if frameEpoch != epoch || n != seqNo + 1 {
        return Desync;
      }
      seqNo := n;
      var objs := CollectArray(json, "ops", OBJ_BUF, |json|);
      UpsertObjects(objs);
      return Ok;
    }
  }

  method WriteDelta(ops: seq<Shown>, epoch: string, seqNo: int, out: array<char>) returns (n: int)
    modifies out
    ensures var text := DeltaText(ops, epoch, seqNo);
            && (n >= 0 <==> |text| < out.Length)
            && (n >= 0 ==> n < out.Length && out[..n] == text && out[n] == '\0')
  {
    DeltaEmittable(ops, epoch, seqNo);
    var j := new Writer(out);
    j.WriteObject(DeltaMembers(ops, epoch, seqNo));
    assert j.ideal == DeltaText(ops, epoch, seqNo);
    n := j.Finish();
  }

  lemma {:induction false} EntityEmittable(v: seq<Shown>, op: bool)
    ensures forall i | 0 <= i < |v| :: EmittableItem(EntityDocs(v, op)[i])
  {
    forall i | 0 <= i < |v| ensures EmittableItem(EntityDocs(v, op)[i]) {
      var ms := EntityMembers(v[i], op);
      assert forall j | 0 <= j < |ms| :: EmittableMember(ms[j]);
    }
  }

  lemma {:induction false} KeyframeEmittable(v: seq<Shown>, epoch: string, h: Header)
    ensures forall i | 0 <= i < |KeyframeMembers(v, epoch, h)| :: EmittableMember(KeyframeMembers(v, epoch, h)[i])
  {
    EntityEmittable(v, false);
    assert forall j | 0 <= j < 6 :: EmittableMember(SubjectMembers(h)[j]);
    assert forall j | 0 <= j < 3 :: EmittableMember(RateMembers(h)[j]);
  }

  lemma {:induction false} DeltaEmittable(ops: seq<Shown>, epoch: string, n: int)
    ensures forall i | 0 <= i < |DeltaMembers(ops, epoch, n)| :: EmittableMember(DeltaMembers(ops, epoch, n)[i])
  {
    EntityEmittable(ops, true);
  }

  lemma {:induction false} OldestNext(ents: seq<Entity>, i: nat)
    requires i < |ents|
    ensures Oldest(ents[..i + 1]) ==
            if i == 0 || ents[i].lastMs < ents[Oldest(ents[..i])].lastMs then i else Oldest(ents[..i])
  {
    assert ents[..i + 1][..i] == ents[..i];
  }

  lemma FoundAt(ents: seq<Entity>, i: nat, id: string)
    requires i < |ents| && ents[i].shown.id == id && forall j | 0 <= j < i :: ents[j].shown.id != id
    ensures FindId(ents, id) == i
  {
  }

  lemma NotFound(ents: seq<Entity>, id: string)
    requires forall j | 0 <= j < |ents| :: ents[j].shown.id != id
    ensures FindId(ents, id) == |ents|
  {
  }

  lemma {:induction false} OneTouch(ents: seq<Entity>, t: Touch, ts: string, now: int)
    ensures TouchAll(ents, [t], ts, now) == TouchEntity(ents, t, ts, now) && TouchAll(ents, [], ts, now) == ents
  {
    assert [t][1..] == [];
    assert TouchAll(TouchEntity(ents, t, ts, now), [], ts, now) == TouchEntity(ents, t, ts, now);
  }

  lemma {:induction false} TouchAllConcat(ents: seq<Entity>, a: seq<Touch>, b: seq<Touch>, ts: string, now: int)
    ensures TouchAll(ents, a + b, ts, now) == TouchAll(TouchAll(ents, a, ts, now), b, ts, now)
    decreases |a|
  {
    if |a| == 0 {
      assert a + b == b;
    } else {
      assert (a + b)[1..] == a[1..] + b;
      TouchAllConcat(TouchEntity(ents, a[0], ts, now), a[1..], b, ts, now);
    }
  }
}
