/** Replication of a process profile over an unreliable channel, as a state machine.

    One producer folds activities, and sends keyframes and deltas; the channel may lose,
    repeat and reorder frames; one replica applies the text of whatever arrives. The history
    variables record what the producer's table showed at each keyframe that was sent and at
    each delta. */
module Replication {
  import opened Sequences
  import opened JsonTree
  import opened JsonExtract
  import opened JsonArrays
  import opened ActivityRecord
  import opened ProcProfile
  import opened ProfileDelta

  datatype Frame = Keyframe(v: seq<Shown>, h: Header) | DeltaOf(k: nat)

  datatype World = World(
    prod: Model,
    cons: Model,
    sent: set<Frame>,
    keyViews: set<seq<Shown>>,
    snaps: seq<seq<Shown>>,
    deltas: seq<seq<Shown>>)

  datatype Step =
    | Observe(a: Activity, b: Baseline, now: int)
    | StartStream(h: Header, cap: nat)
    | SendKeyframe(h: Header, cap: nat)
    | SendDelta(cap: nat)
    | Deliver(f: Frame)

  predicate AllFit(v: seq<Shown>) {
    forall i | 0 <= i < |v| :: ShownFits(v[i])
  }

  predicate AnyDirty(ents: seq<Entity>) {
    exists i | 0 <= i < |ents| :: ents[i].dirty
  }

  /** What travels: the text of a frame. */
  function FrameText(w: World, f: Frame): (text: string)
    requires f.DeltaOf? ==> 1 <= f.k <= |w.deltas|
  {
    match f
    case Keyframe(v, h) => KeyframeText(v, w.prod.epoch, h)
    case DeltaOf(k) => DeltaText(w.deltas[k - 1], w.prod.epoch, k)
  }

  /** What the code lets happen, as long as entities fit their buffers, keyframes are readable
      and the sequence number does not overflow; only frames that were sent arrive. */
  predicate Possible(w: World, s: Step) {
    match s
    case Observe(a, b, now) => AllFit(View(Fold(w.prod.ents, a, b, now)))
    case StartStream(h, cap) => KeyframeReadable(View(w.prod.ents), w.prod.epoch, h)
    case SendKeyframe(h, cap) => KeyframeReadable(View(w.prod.ents), w.prod.epoch, h)
    case SendDelta(cap) => w.prod.seqNo < LONG_MAX
    case Deliver(f) => f in w.sent && (f.DeltaOf? ==> 1 <= f.k <= |w.deltas|)
  }

  /** The views a replica may be brought up to date from by the next delta. */
  function Exposed(w: World): (r: set<seq<Shown>>) {
    if w.deltas == [] then w.keyViews
    else if w.snaps == [] then {}
    else {w.snaps[|w.snaps| - 1]}
  }

  /** No entity that a replica may have is evicted. */
  ghost predicate Undisturbed(w: World, ents: seq<Entity>) {
    forall v | v in Exposed(w) :: InPlace(v, View(ents))
  }

  /** Since delta 1 no entity was added, and none changed but those delta 1 carries. */
  predicate Resumable(w: World) {
    && w.deltas != [] && w.snaps != [] && |w.prod.ents| == |w.snaps[0]|
    && forall i | 0 <= i < |w.snaps[0]| :: w.prod.ents[i].shown == w.snaps[0][i] || w.snaps[0][i] in w.deltas[0]
  }

  /** A keyframe that is not sent, or is taken before delta 1 or without delta 1 in the channel,
      or whose table delta 1 takes back to what it was. */
  predicate KeyframeHarmless(w: World, h: Header, cap: nat) {
    || |KeyframeText(View(w.prod.ents), w.prod.epoch, h)| >= cap
    || w.deltas == [] || DeltaOf(1) !in w.sent || Resumable(w)
  }

  /** The steps of the safety theorem. The streaming start comes before any frame. The other
      two conditions are exact, by `ObserveExact` and `KeyframeExact`. */
  ghost predicate Enabled(w: World, s: Step) {
    && Possible(w, s)
    && match s
       case Observe(a, b, now) => Undisturbed(w, Fold(w.prod.ents, a, b, now))
       case StartStream(h, cap) => w.keyViews == {} && w.deltas == []
       case SendKeyframe(h, cap) => KeyframeHarmless(w, h, cap)
       case _ => true
  }

  /** A frame that does not fit the sender's buffer is never sent. */
  function Sent(sent: set<Frame>, f: Frame, text: string, cap: nat): (r: set<Frame>) {
    if |text| < cap then sent + {f} else sent
  }

  /** The table as a keyframe. */
  function Announce(w: World, h: Header, cap: nat): (r: World) {
    var v := View(w.prod.ents);
    var text := KeyframeText(v, w.prod.epoch, h);
    w.(sent := Sent(w.sent, Keyframe(v, h), text, cap),
       keyViews := if |text| < cap then w.keyViews + {v} else w.keyViews)
  }

  function Next(w: World, s: Step): (r: World)
    requires Possible(w, s)
  {
    match s
    case Observe(a, b, now) => w.(prod := w.prod.(ents := Fold(w.prod.ents, a, b, now)))
    case StartStream(h, cap) =>
      Announce(w, h, cap).(prod := w.prod.(ents := Cleaned(w.prod.ents), seqNo := 0))
    case SendKeyframe(h, cap) => Announce(w, h, cap)
    case SendDelta(cap) =>
      if !AnyDirty(w.prod.ents) then w
      else
        var ops, k := DirtyView(w.prod.ents), |w.deltas| + 1;
        w.(prod := w.prod.(ents := Cleaned(w.prod.ents), seqNo := w.prod.seqNo + 1),
           snaps := w.snaps + [View(w.prod.ents)],
           deltas := w.deltas + [ops],
           sent := Sent(w.sent, DeltaOf(k), DeltaText(ops, w.prod.epoch, k), cap))
    case Deliver(f) => w.(cons := Apply(w.cons, FrameText(w, f)).0)
  }

  // ----- a delta carries exactly what changed -----

  lemma {:induction false} SetAllSnoc(v: seq<Shown>, ops: seq<Shown>, e: Shown)
    ensures SetAll(v, ops + [e]) == SetShown(SetAll(v, ops), e)
    decreases |ops|
  {
    if |ops| == 0 {
      assert ops + [e] == [e];
      assert SetAll(SetShown(v, e), []) == SetShown(v, e);
    } else {
      assert (ops + [e])[1..] == ops[1..] + [e];
      SetAllSnoc(SetShown(v, ops[0]), ops[1..], e);
    }
  }

  /** A view brought up to date in its first `j` places. */
  function Merged(v: seq<Shown>, ents: seq<Entity>, j: nat): (r: seq<Shown>)
    requires j <= |ents|
  {
    View(ents[..j]) + if j <= |v| then v[j..] else []
  }

  lemma {:induction false} SetInPlace(v: seq<Shown>, ents: seq<Entity>, j: nat)
    requires Distinct(ents) && |ents| <= MAX_ENT && Tracks(v, ents) && j < |ents| && ents[j].dirty
    ensures SetShown(Merged(v, ents, j), ents[j].shown) == Merged(v, ents, j + 1)
  {
    var m, e := Merged(v, ents, j), ents[j].shown;
    var i := IndexOf(m, e.id);
    assert forall l | 0 <= l < j :: m[l] == ents[l].shown;
    if j < |v| {
      assert m[j] == v[j];
      assert i == j;
      assert m[j := e] == Merged(v, ents, j + 1);
    } else {
      assert |m| == j && i == j;
      assert m + [e] == Merged(v, ents, j + 1);
    }
  }

  lemma {:induction false} UnchangedInPlace(v: seq<Shown>, ents: seq<Entity>, j: nat)
    requires Tracks(v, ents) && j < |ents| && !ents[j].dirty
    ensures Merged(v, ents, j) == Merged(v, ents, j + 1)
  {
    assert v[j] == ents[j].shown;
    NextShown(v, ents, j);
    Concat3(View(ents[..j]), [v[j]], v[j + 1..]);
  }

  lemma NextShown(v: seq<Shown>, ents: seq<Entity>, j: nat)
    requires j < |ents| && j < |v|
    ensures v[j..] == [v[j]] + v[j + 1..] && View(ents[..j + 1]) == View(ents[..j]) + [ents[j].shown]
  {
  }

  lemma {:induction false} DirtySnoc(ents: seq<Entity>, j: nat)
    requires j < |ents|
    ensures DirtyView(ents[..j + 1]) ==
            if ents[j].dirty then DirtyView(ents[..j]) + [ents[j].shown] else DirtyView(ents[..j])
  {
    assert ents[..j + 1][..j] == ents[..j];
    assert DirtyView(ents[..j]) + [] == DirtyView(ents[..j]);
  }

  lemma {:induction false} DirtyPrefix(v: seq<Shown>, ents: seq<Entity>, j: nat)
    requires Distinct(ents) && |ents| <= MAX_ENT && Tracks(v, ents) && j <= |ents|
    ensures SetAll(v, DirtyView(ents[..j])) == Merged(v, ents, j)
    decreases j
  {
    if j == 0 {
      assert Merged(v, ents, 0) == v;
    } else {
      var ops := DirtyView(ents[..j - 1]);
      DirtyPrefix(v, ents, j - 1);
      DirtySnoc(ents, j - 1);
      if ents[j - 1].dirty {
        SetAllSnoc(v, ops, ents[j - 1].shown);
        SetInPlace(v, ents, j - 1);
      } else {
        UnchangedInPlace(v, ents, j - 1);
      }
    }
  }

  /** Applying the dirty entities to any tracked view gives the current table. */
  lemma {:induction false} DeltaCatchesUp(v: seq<Shown>, ents: seq<Entity>)
    requires Distinct(ents) && |ents| <= MAX_ENT && Tracks(v, ents)
    ensures SetAll(v, DirtyView(ents)) == View(ents)
  {
    DirtyPrefix(v, ents, |ents|);
    assert ents[..|ents|] == ents;
    assert Merged(v, ents, |ents|) == View(ents);
  }

  // ----- a late keyframe -----

  /** Setting entities of a view `snap` over a view that has the same entities in place. */
  lemma {:induction false} SetAllOver(v: seq<Shown>, ops: seq<Shown>, snap: seq<Shown>)
    requires DistinctIds(v) && DistinctIds(snap) && InPlace(snap, v) && forall e | e in ops :: e in snap
    ensures |SetAll(v, ops)| == |v|
    ensures forall i | 0 <= i < |v| ::
              SetAll(v, ops)[i] == if i < |snap| && snap[i] in ops then snap[i] else v[i]
    decreases |ops|
  {
    if |ops| > 0 {
      var e := ops[0];
      assert e in ops;
      var j :| 0 <= j < |snap| && snap[j] == e;
      assert IndexOf(v, e.id) == j;
      SetAllOver(v[j := e], ops[1..], snap);
      InLater(ops, snap, j);
    }
  }

  lemma {:induction false} InLater(ops: seq<Shown>, snap: seq<Shown>, j: nat)
    requires |ops| > 0 && DistinctIds(snap) && j < |snap| && snap[j] == ops[0]
    ensures forall i | 0 <= i < |snap| :: snap[i] in ops <==> i == j || snap[i] in ops[1..]
  {
    assert ops == [ops[0]] + ops[1..];
  }

  /** Delta 1 takes the table back to what it was exactly when nothing else changed. */
  lemma {:induction false} ResumableIff(w: World)
    requires ProducerOk(w) && OriginOk(w) && w.deltas != []
    ensures SetAll(View(w.prod.ents), w.deltas[0]) == w.snaps[0] <==> Resumable(w)
  {
    var v, snap := View(w.prod.ents), w.snaps[0];
    SetAllOver(v, w.deltas[0], snap);
    var r := SetAll(v, w.deltas[0]);
    if |v| == |snap| {
      assert Resumable(w) <==> forall i | 0 <= i < |snap| :: r[i] == snap[i];
    }
  }

  // ----- the invariant -----

  ghost predicate ViewOk(v: seq<Shown>) {
    |v| <= MAX_ENT && DistinctIds(v) && AllFit(v)
  }

  /** A keyframe's view is one delta away from the first delta's view, or, before that delta,
      from the producer's table. */
  ghost predicate Base(w: World, v: seq<Shown>) {
    if |w.deltas| == 0 then Tracks(v, w.prod.ents)
    else |w.snaps| > 0 && (DeltaOf(1) in w.sent ==> SetAll(v, w.deltas[0]) == w.snaps[0])
  }

  ghost predicate ProducerOk(w: World) {
    && |w.prod.epoch| < 24
    && Distinct(w.prod.ents) && |w.prod.ents| <= MAX_ENT && AllFit(View(w.prod.ents))
    && w.prod.seqNo == |w.deltas| == |w.snaps| <= LONG_MAX
    && (|w.snaps| > 0 ==> Tracks(w.snaps[|w.snaps| - 1], w.prod.ents))
  }

  /** The entities of delta 1 are still in place, and delta 1 carries some of them. */
  ghost predicate OriginOk(w: World)
    requires |w.deltas| == |w.snaps|
  {
    |w.snaps| > 0 ==>
      && DistinctIds(w.snaps[0]) && InPlace(w.snaps[0], View(w.prod.ents))
      && forall e | e in w.deltas[0] :: e in w.snaps[0]
  }

  ghost predicate HistoryOk(w: World)
    requires |w.deltas| == |w.snaps|
  {
    BasesOk(w) && SizesOk(w) && ChainOk(w) && FramesOk(w) && OriginOk(w)
  }

  ghost predicate Carried(sent: set<Frame>, v: seq<Shown>) {
    exists h :: Keyframe(v, h) in sent
  }

  ghost predicate BasesOk(w: World) {
    forall v | v in w.keyViews :: ViewOk(v) && Base(w, v) && Carried(w.sent, v)
  }

  ghost predicate SizesOk(w: World)
    requires |w.deltas| == |w.snaps|
  {
    forall k | 0 <= k < |w.deltas| :: AllFit(w.deltas[k])
  }

  /** Each delta leads from the view before it to its own. */
  ghost predicate ChainOk(w: World)
    requires |w.deltas| == |w.snaps|
  {
    forall k | 1 <= k < |w.snaps| :: SetAll(w.snaps[k - 1], w.deltas[k]) == w.snaps[k]
  }

  ghost predicate FramesOk(w: World) {
    forall f | f in w.sent :: FrameOk(w, f)
  }

  ghost predicate FrameOk(w: World, f: Frame) {
    match f
    case Keyframe(v, h) => v in w.keyViews && KeyframeReadable(v, w.prod.epoch, h)
    case DeltaOf(k) => 1 <= k <= |w.deltas|
  }

  /** A replica in the producer's epoch shows a keyframe's view, or the view of its delta. */
  ghost predicate ReplicaOk(w: World) {
    w.cons.epoch == w.prod.epoch ==>
      || (w.cons.seqNo == 0 && View(w.cons.ents) in w.keyViews)
      || (1 <= w.cons.seqNo <= |w.snaps| && View(w.cons.ents) == w.snaps[w.cons.seqNo - 1])
  }

  ghost predicate Inv(w: World) {
    ProducerOk(w) && HistoryOk(w) && ReplicaOk(w)
  }

  ghost predicate Init(w: World) {
    && w.prod.ents == [] && w.prod.seqNo == 0 && |w.prod.epoch| < 24
    && w.cons.epoch != w.prod.epoch
    && w.sent == {} && w.keyViews == {} && w.snaps == [] && w.deltas == []
  }

  // ----- every step keeps it -----

  lemma SelfTracks(ents: seq<Entity>)
    ensures Tracks(View(ents), ents) && Tracks(View(ents), Cleaned(ents))
    ensures View(Cleaned(ents)) == View(ents)
    ensures Distinct(ents) ==> Distinct(Cleaned(ents)) && DistinctIds(View(ents))
  {
  }

  lemma {:induction false} FoldProducer(w: World, a: Activity, b: Baseline, now: int)
    requires ProducerOk(w) && Enabled(w, Observe(a, b, now))
    ensures ProducerOk(Next(w, Observe(a, b, now)))
  {
    TouchAllKeeps(w.prod.ents, Touches(a, b), a.ts, now);
    if |w.snaps| > 0 {
      var last := w.snaps[|w.snaps| - 1];
      assert last in Exposed(w);
      TrackedOn(last, w.prod.ents, Fold(w.prod.ents, a, b, now));
    }
  }

  lemma {:induction false} FoldOrigin(w: World, a: Activity, b: Baseline, now: int)
    requires ProducerOk(w) && OriginOk(w) && Enabled(w, Observe(a, b, now)) && |w.snaps| > 0
    requires ChainOk(w)
    ensures InPlace(w.snaps[0], View(Fold(w.prod.ents, a, b, now)))
  {
    var last := w.snaps[|w.snaps| - 1];
    assert last in Exposed(w);
    FirstInLast(w, |w.snaps| - 1);
  }

  /** Deltas leave the entities of delta 1 in place. */
  lemma {:induction false} FirstInLast(w: World, k: nat)
    requires |w.deltas| == |w.snaps| && ChainOk(w) && k < |w.snaps|
    ensures InPlace(w.snaps[0], w.snaps[k])
    decreases k
  {
    if k > 0 {
      FirstInLast(w, k - 1);
      SetAllInPlace(w.snaps[k - 1], w.deltas[k]);
      assert SetAll(w.snaps[k - 1], w.deltas[k]) == w.snaps[k];
    }
  }

  lemma {:induction false} SetAllInPlace(v: seq<Shown>, ops: seq<Shown>)
    ensures InPlace(v, SetAll(v, ops))
    decreases |ops|
  {
    if |ops| > 0 {
      SetAllInPlace(SetShown(v, ops[0]), ops[1..]);
    }
  }

  lemma {:induction false} ObserveBase(w: World, a: Activity, b: Baseline, now: int, v: seq<Shown>)
    requires ProducerOk(w) && Enabled(w, Observe(a, b, now)) && v in w.keyViews && Base(w, v)
    ensures Base(Next(w, Observe(a, b, now)), v)
  {
    if |w.deltas| == 0 {
      assert v in Exposed(w);
      TouchAllKeeps(w.prod.ents, Touches(a, b), a.ts, now);
      TrackedOn(v, w.prod.ents, Fold(w.prod.ents, a, b, now));
    }
  }

  lemma {:induction false} ObserveKeeps(w: World, a: Activity, b: Baseline, now: int)
    requires Inv(w) && Enabled(w, Observe(a, b, now))
    ensures Inv(Next(w, Observe(a, b, now)))
  {
    var w' := Next(w, Observe(a, b, now));
    FoldProducer(w, a, b, now);
    forall v | v in w.keyViews ensures Base(w', v) {
      ObserveBase(w, a, b, now, v);
    }
    if |w.snaps| > 0 {
      FoldOrigin(w, a, b, now);
    }
    assert forall f | f in w.sent :: FrameOk(w, f) ==> FrameOk(w', f);
  }

  lemma {:induction false} StartKeeps(w: World, h: Header, cap: nat)
    requires Inv(w) && Enabled(w, StartStream(h, cap))
    ensures Inv(Next(w, StartStream(h, cap)))
  {
    var w' := Next(w, StartStream(h, cap));
    SelfTracks(w.prod.ents);
    AnnounceFrames(w, h, cap);
    assert forall f | f in w'.sent :: FrameOk(Announce(w, h, cap), f) ==> FrameOk(w', f);
  }

  lemma {:induction false} AnnounceFrames(w: World, h: Header, cap: nat)
    requires FramesOk(w) && KeyframeReadable(View(w.prod.ents), w.prod.epoch, h)
    ensures FramesOk(Announce(w, h, cap))
    ensures forall v | v in Announce(w, h, cap).keyViews ::
              Carried(w.sent, v) || v !in w.keyViews ==> Carried(Announce(w, h, cap).sent, v)
  {
    var w' := Announce(w, h, cap);
    assert forall f | f in w.sent :: FrameOk(w, f) ==> FrameOk(w', f);
    forall v | v in w'.keyViews && (Carried(w.sent, v) || v !in w.keyViews) ensures Carried(w'.sent, v) {
      if Carried(w.sent, v) {
        var g :| Keyframe(v, g) in w.sent;
        assert Keyframe(v, g) in w'.sent;
      } else {
        assert Keyframe(v, h) in w'.sent;
      }
    }
  }

  lemma {:induction false} KeyframeKeeps(w: World, h: Header, cap: nat)
    requires Inv(w) && Enabled(w, SendKeyframe(h, cap))
    ensures Inv(Next(w, SendKeyframe(h, cap)))
  {
    var w' := Next(w, SendKeyframe(h, cap));
    AnnounceFrames(w, h, cap);
    forall v | v in w'.keyViews ensures ViewOk(v) && Base(w', v) {
      if v in w.keyViews {
        assert Base(w, v);
      } else {
        KeyframeBase(w, h, cap);
      }
    }
  }

  lemma {:induction false} KeyframeBase(w: World, h: Header, cap: nat)
    requires Inv(w) && Enabled(w, SendKeyframe(h, cap))
    requires |KeyframeText(View(w.prod.ents), w.prod.epoch, h)| < cap
    ensures ViewOk(View(w.prod.ents)) && Base(w, View(w.prod.ents))
  {
    SelfTracks(w.prod.ents);
    if w.deltas != [] {
      ResumableIff(w);
    }
  }

  lemma {:induction false} DirtyFits(ents: seq<Entity>)
    requires AllFit(View(ents))
    ensures AllFit(DirtyView(ents))
  {
    if |ents| > 0 {
      var n := |ents| - 1;
      assert forall i | 0 <= i < n :: View(ents[..n])[i] == View(ents)[i];
      DirtyFits(ents[..n]);
      assert View(ents)[n] == ents[n].shown;
    }
  }

  lemma {:induction false} DirtyShown(ents: seq<Entity>)
    ensures forall e | e in DirtyView(ents) :: e in View(ents)
  {
    if |ents| > 0 {
      var n := |ents| - 1;
      DirtyShown(ents[..n]);
      assert View(ents) == View(ents[..n]) + [ents[n].shown];
    }
  }

  lemma {:induction false} DeltaProducer(w: World, cap: nat)
    requires ProducerOk(w) && Enabled(w, SendDelta(cap))
    ensures ProducerOk(Next(w, SendDelta(cap)))
  {
    SelfTracks(w.prod.ents);
  }

  /** The views before a delta lead to the view at the delta. */
  lemma {:induction false} DeltaBase(w: World, cap: nat, v: seq<Shown>)
    requires Inv(w) && Enabled(w, SendDelta(cap)) && AnyDirty(w.prod.ents) && v in w.keyViews
    ensures Base(Next(w, SendDelta(cap)), v)
  {
    assert Base(w, v);
    if |w.snaps| == 0 {
      DeltaCatchesUp(v, w.prod.ents);
    }
  }

  lemma {:induction false} DeltaSizes(w: World, cap: nat)
    requires ProducerOk(w) && SizesOk(w) && Enabled(w, SendDelta(cap)) && AnyDirty(w.prod.ents)
    ensures SizesOk(Next(w, SendDelta(cap)))
  {
    DirtyFits(w.prod.ents);
  }

  lemma {:induction false} DeltaChain(w: World, cap: nat)
    requires Inv(w) && Enabled(w, SendDelta(cap)) && AnyDirty(w.prod.ents)
    ensures ChainOk(Next(w, SendDelta(cap)))
  {
    var w' := Next(w, SendDelta(cap));
    if |w.snaps| > 0 {
      DeltaCatchesUp(w.snaps[|w.snaps| - 1], w.prod.ents);
    }
    forall k | 1 <= k < |w'.snaps| ensures SetAll(w'.snaps[k - 1], w'.deltas[k]) == w'.snaps[k] {
      if k < |w.snaps| {
        assert w'.snaps[k - 1] == w.snaps[k - 1] && w'.deltas[k] == w.deltas[k] && w'.snaps[k] == w.snaps[k];
      }
    }
  }

  lemma {:induction false} DeltaFrames(w: World, cap: nat)
    requires Inv(w) && Enabled(w, SendDelta(cap)) && AnyDirty(w.prod.ents)
    ensures FramesOk(Next(w, SendDelta(cap)))
    ensures forall v | v in w.keyViews :: Carried(Next(w, SendDelta(cap)).sent, v)
  {
    var w' := Next(w, SendDelta(cap));
    assert forall f | f in w.sent :: FrameOk(w, f) ==> FrameOk(w', f);
    forall v | v in w.keyViews ensures Carried(w'.sent, v) {
      var h :| Keyframe(v, h) in w.sent;
      assert Keyframe(v, h) in w'.sent;
    }
  }

  lemma {:induction false} DeltaOrigin(w: World, cap: nat)
    requires Inv(w) && Enabled(w, SendDelta(cap)) && AnyDirty(w.prod.ents)
    ensures OriginOk(Next(w, SendDelta(cap)))
  {
    SelfTracks(w.prod.ents);
    DirtyShown(w.prod.ents);
  }

  lemma {:induction false} DeltaHistory(w: World, cap: nat)
    requires Inv(w) && Enabled(w, SendDelta(cap)) && AnyDirty(w.prod.ents)
    ensures HistoryOk(Next(w, SendDelta(cap)))
  {
    forall v | v in w.keyViews ensures Base(Next(w, SendDelta(cap)), v) {
      DeltaBase(w, cap, v);
    }
    DeltaSizes(w, cap);
    DeltaChain(w, cap);
    DeltaFrames(w, cap);
    DeltaOrigin(w, cap);
  }

  lemma {:induction false} DeltaKeeps(w: World, cap: nat)
    requires Inv(w) && Enabled(w, SendDelta(cap))
    ensures Inv(Next(w, SendDelta(cap)))
  {
    DeltaProducer(w, cap);
    if AnyDirty(w.prod.ents) {
      DeltaHistory(w, cap);
    }
  }

  /** What the replica shows after the frame: the heart of the argument. */
  lemma {:induction false} DeliverReplica(w: World, f: Frame)
    requires Inv(w) && Enabled(w, Deliver(f))
    ensures ReplicaOk(Next(w, Deliver(f)))
  {
    match f
    case Keyframe(v, h) =>
      ApplyKeyframe(w.cons, v, w.prod.epoch, h);
    case DeltaOf(k) => DeliverDelta(w, k);
  }

  lemma {:induction false} DeliverDelta(w: World, k: nat)
    requires Inv(w) && Enabled(w, Deliver(DeltaOf(k)))
    ensures ReplicaOk(Next(w, Deliver(DeltaOf(k))))
  {
    if w.cons.epoch == w.prod.epoch && k == w.cons.seqNo + 1 {
      DeliverNext(w, k);
    } else {
      GapRejected(w, k);
    }
  }

  lemma {:induction false} DeliverNext(w: World, k: nat)
    requires Inv(w) && Enabled(w, Deliver(DeltaOf(k))) && w.cons.epoch == w.prod.epoch && k == w.cons.seqNo + 1
    ensures ReplicaOk(Next(w, Deliver(DeltaOf(k))))
  {
    assert AllFit(w.deltas[k - 1]);
    NextView(w, k);
    NextDeltaShows(w, k);
  }

  lemma {:induction false} NextView(w: World, k: nat)
    requires Inv(w) && Enabled(w, Deliver(DeltaOf(k))) && w.cons.epoch == w.prod.epoch && k == w.cons.seqNo + 1
    ensures SetAll(View(w.cons.ents), w.deltas[k - 1]) == w.snaps[k - 1]
  {
  }

  lemma {:induction false} HistoryIgnoresReplica(w: World, c: Model)
    requires ProducerOk(w) && HistoryOk(w)
    ensures ProducerOk(w.(cons := c)) && HistoryOk(w.(cons := c))
  {
    var w' := w.(cons := c);
    assert forall v | v in w.keyViews :: Base(w, v) ==> Base(w', v);
    assert forall f | f in w.sent :: FrameOk(w, f) ==> FrameOk(w', f);
  }

  lemma {:induction false} DeliverKeeps(w: World, f: Frame)
    requires Inv(w) && Enabled(w, Deliver(f))
    ensures Inv(Next(w, Deliver(f)))
  {
    DeliverReplica(w, f);
    HistoryIgnoresReplica(w, Next(w, Deliver(f)).cons);
  }

  lemma {:induction false} StepKeeps(w: World, s: Step)
    requires Inv(w) && Enabled(w, s)
    ensures Inv(Next(w, s))
  {
    match s
    case Observe(a, b, now) => ObserveKeeps(w, a, b, now);
    case StartStream(h, cap) => StartKeeps(w, h, cap);
    case SendKeyframe(h, cap) => KeyframeKeeps(w, h, cap);
    case SendDelta(cap) => DeltaKeeps(w, cap);
    case Deliver(f) => DeliverKeeps(w, f);
  }

  // ----- whole runs -----

  /** The steps can be taken one after the other. */
  ghost predicate IsRun(w: World, steps: seq<Step>)
    decreases |steps|
  {
    |steps| > 0 ==> Enabled(w, steps[0]) && IsRun(Next(w, steps[0]), steps[1..])
  }

  ghost function RunEnd(w: World, steps: seq<Step>): (r: World)
    requires IsRun(w, steps)
    decreases |steps|
  {
    if |steps| == 0 then w else RunEnd(Next(w, steps[0]), steps[1..])
  }

  lemma {:induction false} RunKeeps(w: World, steps: seq<Step>)
    requires Inv(w) && IsRun(w, steps)
    ensures Inv(RunEnd(w, steps))
    decreases |steps|
  {
    if |steps| > 0 {
      StepKeeps(w, steps[0]);
      RunKeeps(Next(w, steps[0]), steps[1..]);
    }
  }

  /** A replica at sequence number `k` of the producer's epoch shows exactly what the producer's
      table showed when it sent delta `k`. */
  predicate Safe(w: World) {
    w.cons.epoch == w.prod.epoch && w.cons.seqNo >= 1 ==>
      w.cons.seqNo <= |w.snaps| && View(w.cons.ents) == w.snaps[w.cons.seqNo - 1]
  }

  /** Replication safety: after any run, under any loss, repetition and reordering. */
  lemma {:induction false} ReplicationSafe(w: World, steps: seq<Step>)
    requires Init(w) && IsRun(w, steps)
    ensures Safe(RunEnd(w, steps))
  {
    RunKeeps(w, steps);
  }

  /** A frame that does not directly follow leaves the replica as it is. */
  lemma {:induction false} GapRejected(w: World, k: nat)
    requires Inv(w) && Enabled(w, Deliver(DeltaOf(k)))
    requires w.cons.epoch != w.prod.epoch || k != w.cons.seqNo + 1
    ensures Apply(w.cons, FrameText(w, DeltaOf(k))) == (w.cons, Desync)
  {
    ApplyDelta(w.cons, w.deltas[k - 1], w.prod.epoch, k);
  }

  // ----- the conditions on steps are exact -----

  ghost predicate SafeForever(w: World) {
    forall steps :: IsRun(w, steps) ==> Safe(RunEnd(w, steps))
  }

  lemma {:induction false} InvSafe(w: World)
    requires Inv(w)
    ensures SafeForever(w)
  {
    forall steps | IsRun(w, steps) ensures Safe(RunEnd(w, steps)) {
      RunKeeps(w, steps);
    }
  }

  lemma {:induction false} RunStep(w: World, s: Step, steps: seq<Step>)
    requires Enabled(w, s) && IsRun(Next(w, s), steps)
    ensures IsRun(w, [s] + steps) && RunEnd(w, [s] + steps) == RunEnd(Next(w, s), steps)
  {
    assert ([s] + steps)[1..] == steps;
  }

  lemma {:induction false} SafeStep(w: World, s: Step)
    requires SafeForever(w) && Enabled(w, s)
    ensures SafeForever(Next(w, s)) && Safe(Next(w, s))
  {
    forall steps | IsRun(Next(w, s), steps) ensures Safe(RunEnd(Next(w, s), steps)) {
      RunStep(w, s, steps);
    }
    assert IsRun(Next(w, s), []);
  }

  /** A keyframe resets the replica to sequence number zero whatever the producer's is, so the
      producer's next delta is accepted after it exactly when it was taken before any delta. */
  lemma {:induction false} KeyframeThenDelta(m: Model, v: seq<Shown>, epoch: string, h: Header, ops: seq<Shown>, s: int)
    requires |epoch| < 24 && KeyframeReadable(v, epoch, h) && 0 <= s < LONG_MAX
    requires ViewOk(v) && AllFit(ops)
    ensures var r := Apply(m, KeyframeText(v, epoch, h)).0;
            Apply(r, DeltaText(ops, epoch, s + 1)).1 == Ok <==> s == 0
  {
    ApplyKeyframe(m, v, epoch, h);
    DeltaAfterReset(Apply(m, KeyframeText(v, epoch, h)).0, ops, epoch, s);
  }

  lemma {:induction false} DeltaAfterReset(r: Model, ops: seq<Shown>, epoch: string, s: int)
    requires |epoch| < 24 && 0 <= s < LONG_MAX && AllFit(ops) && r.epoch == epoch && r.seqNo == 0
    ensures Apply(r, DeltaText(ops, epoch, s + 1)).1 == Ok <==> s == 0
  {
    ApplyDelta(r, ops, epoch, s + 1);
  }

  /** The world after a keyframe, its arrival and the arrival of delta 1. */
  function Resumed(w: World, h: Header, cap: nat): (r: World)
    requires Possible(w, SendKeyframe(h, cap)) && |KeyframeText(View(w.prod.ents), w.prod.epoch, h)| < cap
    requires w.deltas != [] && DeltaOf(1) in w.sent
  {
    Next(Next(Next(w, SendKeyframe(h, cap)), Deliver(Keyframe(View(w.prod.ents), h))), Deliver(DeltaOf(1)))
  }

  /** A keyframe taken after delta 1, followed by a repetition of delta 1: the replica is at
      sequence number 1, and it shows what the producer showed there if and only if nothing was
      added since and nothing changed but what delta 1 carries. */
  lemma {:induction false} LateKeyframe(w: World, h: Header, cap: nat)
    requires Inv(w) && Possible(w, SendKeyframe(h, cap))
    requires |KeyframeText(View(w.prod.ents), w.prod.epoch, h)| < cap && w.deltas != [] && DeltaOf(1) in w.sent
    ensures var e := Resumed(w, h, cap);
            && e.cons.epoch == e.prod.epoch && e.cons.seqNo == 1
            && (View(e.cons.ents) == e.snaps[0] <==> Resumable(w))
  {
    var v := View(w.prod.ents);
    var w1 := Next(w, SendKeyframe(h, cap));
    var w2 := Next(w1, Deliver(Keyframe(v, h)));
    SelfTracks(w.prod.ents);
    ApplyKeyframe(w1.cons, v, w.prod.epoch, h);
    ApplyDelta(w2.cons, w.deltas[0], w.prod.epoch, 1);
    ResumableIff(w);
  }

  /** A keyframe leaves replication safe for all continuations if and only if it is harmless. */
  lemma {:induction false} KeyframeExact(w: World, h: Header, cap: nat)
    requires Inv(w) && Possible(w, SendKeyframe(h, cap))
    ensures SafeForever(Next(w, SendKeyframe(h, cap))) <==> KeyframeHarmless(w, h, cap)
  {
    var w1 := Next(w, SendKeyframe(h, cap));
    if KeyframeHarmless(w, h, cap) {
      KeyframeKeeps(w, h, cap);
      InvSafe(w1);
    } else {
      LateKeyframe(w, h, cap);
      if SafeForever(w1) {
        SafeStep(w1, Deliver(Keyframe(View(w.prod.ents), h)));
        SafeStep(Next(w1, Deliver(Keyframe(View(w.prod.ents), h))), Deliver(DeltaOf(1)));
      }
    }
  }

  /** A replica that has everything the producer sent. */
  predicate InStep(w: World) {
    w.cons.epoch == w.prod.epoch && w.cons.seqNo == |w.deltas|
  }

  lemma {:induction false} DisturbedDirty(v: seq<Shown>, ents: seq<Entity>, r: seq<Entity>)
    requires InPlace(v, View(ents)) && Marked(ents, r) && !InPlace(v, View(r))
    ensures AnyDirty(r)
  {
    var i :| 0 <= i < |v| && v[i].id != r[i].shown.id;
    assert r[i].dirty;
  }

  /** What the replica shows after the next delta. */
  lemma {:induction false} NextDeltaShows(w: World, k: nat)
    requires Possible(w, Deliver(DeltaOf(k))) && |w.prod.epoch| < 24 && k <= LONG_MAX && AllFit(w.deltas[k - 1])
    requires w.cons.epoch == w.prod.epoch && k == w.cons.seqNo + 1
    ensures var e := Next(w, Deliver(DeltaOf(k)));
            && e.cons.epoch == e.prod.epoch && e.cons.seqNo == k && e.snaps == w.snaps
            && View(e.cons.ents) == SetAll(View(w.cons.ents), w.deltas[k - 1])
  {
    ApplyDelta(w.cons, w.deltas[k - 1], w.prod.epoch, k);
  }

  /** If an entity of a replica in step is evicted, the next delta does not bring the replica up
      to date: it has no place for the new entity and no removal for the old one. */
  lemma {:induction false} DisturbedReplica(w: World, cap: nat)
    requires |w.prod.epoch| < 24 && AllFit(View(w.prod.ents))
    requires |w.deltas| == |w.snaps| == w.prod.seqNo < LONG_MAX && InStep(w) && AnyDirty(w.prod.ents)
    requires !InPlace(View(w.cons.ents), View(w.prod.ents))
    requires |DeltaText(DirtyView(w.prod.ents), w.prod.epoch, |w.deltas| + 1)| < cap
    ensures var w' := Next(w, SendDelta(cap));
            Possible(w', Deliver(DeltaOf(|w.deltas| + 1))) && !Safe(Next(w', Deliver(DeltaOf(|w.deltas| + 1))))
  {
    DirtyFits(w.prod.ents);
    NextDeltaShows(Next(w, SendDelta(cap)), |w.deltas| + 1);
    NeverShown(View(w.cons.ents), DirtyView(w.prod.ents), View(w.prod.ents));
  }

  lemma {:induction false} NeverShown(v: seq<Shown>, ops: seq<Shown>, u: seq<Shown>)
    requires !InPlace(v, u)
    ensures SetAll(v, ops) != u
  {
    SetAllInPlace(v, ops);
  }

  /** Folding an activity leaves replication safe for all continuations if and only if it evicts
      no entity a replica may have: of any keyframe sent, or, after the first delta, of the last
      delta, which a replica in step has. */
  lemma {:induction false} ObserveExact(w: World, a: Activity, b: Baseline, now: int)
    requires Inv(w) && Possible(w, Observe(a, b, now)) && |w.deltas| < LONG_MAX
    requires w.deltas != [] ==> InStep(w)
    ensures SafeForever(Next(w, Observe(a, b, now))) <==> Undisturbed(w, Fold(w.prod.ents, a, b, now))
  {
    var w1 := Next(w, Observe(a, b, now));
    if Undisturbed(w, w1.prod.ents) {
      ObserveKeeps(w, a, b, now);
      InvSafe(w1);
    } else if SafeForever(w1) {
      var v :| v in Exposed(w) && !InPlace(v, View(w1.prod.ents));
      TouchAllKeeps(w.prod.ents, Touches(a, b), a.ts, now);
      ExposedTracked(w, v);
      DisturbedDirty(v, w.prod.ents, w1.prod.ents);
      if w.deltas == [] {
        var h :| Keyframe(v, h) in w.sent;
        ApplyKeyframe(w1.cons, v, w.prod.epoch, h);
        SafeStep(w1, Deliver(Keyframe(v, h)));
        DisturbedRun(Next(w1, Deliver(Keyframe(v, h))));
      } else {
        DisturbedRun(w1);
      }
    }
  }

  lemma {:induction false} ExposedTracked(w: World, v: seq<Shown>)
    requires Inv(w) && v in Exposed(w)
    ensures Tracks(v, w.prod.ents)
  {
    assert w.deltas == [] ==> Base(w, v);
  }

  lemma {:induction false} DisturbedRun(w: World)
    requires |w.prod.epoch| < 24 && AllFit(View(w.prod.ents))
    requires |w.deltas| == |w.snaps| == w.prod.seqNo < LONG_MAX && InStep(w) && AnyDirty(w.prod.ents)
    requires !InPlace(View(w.cons.ents), View(w.prod.ents))
    ensures !SafeForever(w)
  {
    var cap := |DeltaText(DirtyView(w.prod.ents), w.prod.epoch, |w.deltas| + 1)| + 1;
    DisturbedReplica(w, cap);
    if SafeForever(w) {
      SafeStep(w, SendDelta(cap));
      SafeStep(Next(w, SendDelta(cap)), Deliver(DeltaOf(|w.deltas| + 1)));
    }
  }

  /** One update: a replica that shows the table shows the updated table after the entity's text
      if and only if nothing was evicted. */
  lemma {:induction false} EvictionIff(ents: seq<Entity>, cons: seq<Entity>, t: Touch, ts: string, now: int, op: bool)
    requires Distinct(ents) && |ents| <= MAX_ENT && View(cons) == View(ents)
    requires ShownFits(TouchEntity(ents, t, ts, now)[SlotFor(ents, t.id)].shown)
    ensures var r := TouchEntity(ents, t, ts, now);
            View(Upsert(cons, Render(Obj(EntityMembers(r[SlotFor(ents, t.id)].shown, op))))) == View(r) <==>
            HasRoom(ents, t.id)
  {
    var r, i := TouchEntity(ents, t, ts, now), SlotFor(ents, t.id);
    var e := r[i].shown;
    UpsertSets(cons, e, op);
    SameIndex(ents, t.id);
    assert e.id == t.id;
    if !HasRoom(ents, t.id) {
      assert View(ents)[i].id != View(r)[i].id;
    }
  }

  // ----- a run that breaks safety -----

  function Opened(path: string): (a: Activity) {
    Activity("", "open", path, false, "", Process(0, 0, 0, 0, 0, "", "", "", "", "", ""), [], [])
  }

  function OpenedEntity(path: string, b: Baseline, now: int): (e: Entity) {
    Entity(Shown("file:" + path, File, path, "", 1, "", "", b.file(path)), true, now)
  }

  lemma {:induction false} OpenedFold(ents: seq<Entity>, path: string, b: Baseline, now: int)
    requires path != "" && FindId(ents, "file:" + path) == |ents| < MAX_ENT
    ensures Fold(ents, Opened(path), b, now) == ents + [OpenedEntity(path, b, now)]
  {
    var t := Touch("file:" + path, File, path, None, b.file(path));
    assert Touches(Opened(path), b) == [t];
    assert [t][1..] == [];
    assert TouchEntity(ents, t, "", now) == ents + [OpenedEntity(path, b, now)];
    assert TouchAll(TouchEntity(ents, t, "", now), [], "", now) == TouchEntity(ents, t, "", now);
  }

  lemma {:induction false} EscapeBound(s: string)
    ensures |Escape(s)| <= 6 * |s|
  {
    if s != "" {
      EscapeBound(s[1..]);
    }
  }

  lemma {:induction false} MembersBound(ms: seq<Member>, b: nat)
    requires forall i | 0 <= i < |ms| :: |RenderMember(ms[i])| <= b
    ensures |RenderMembers(ms)| <= |ms| * (b + 1)
  {
    if |ms| > 0 {
      MembersBound(ms[1..], b);
      assert |ms| * (b + 1) == (|ms| - 1) * (b + 1) + b + 1;
      var more := RenderMoreMembers(ms[1..]);
      assert |more| <= 1 + |RenderMembers(ms[1..])|;
      assert |RenderMembers(ms)| == |RenderMember(ms[0])| + |more|;
    }
  }

  predicate SmallMember(m: Member) {
    |m.key| <= 7 && ((m.value.Str? && |m.value.s| <= 10) || (m.value.Int? && 0 <= m.value.n < 10))
  }

  lemma SmallFields(e: Shown)
    requires |e.id| <= 8 && |e.value| <= 8 && e.state == "" && e.count == 1 && e.first == "" && e.last == ""
    ensures |FieldMembers(e)| == 7 && forall i | 0 <= i < 7 :: SmallMember(FieldMembers(e)[i])
  {
  }

  lemma {:induction false} FieldBound(m: Member)
    requires SmallMember(m)
    ensures |RenderMember(m)| <= 107
  {
    EscapeBound(m.key);
    if m.value.Str? {
      EscapeBound(m.value.s);
    }
  }

  lemma {:induction false} SmallFits(e: Shown)
    requires |e.id| <= 8 && |e.value| <= 8 && e.state == "" && e.count == 1 && e.first == "" && e.last == ""
    ensures ShownFits(e)
  {
    SmallText(e, false);
    SmallText(e, true);
  }

  lemma {:induction false} SmallText(e: Shown, op: bool)
    requires |e.id| <= 8 && |e.value| <= 8 && e.state == "" && e.count == 1 && e.first == "" && e.last == ""
    ensures |Render(Obj(EntityMembers(e, op)))| < OBJ_BUF
  {
    var ms := EntityMembers(e, op);
    SmallFields(e);
    forall i | 0 <= i < |ms| ensures |RenderMember(ms[i])| <= 107 {
      FieldBound(ms[i]);
    }
    MembersBound(ms, 107);
  }

  /** The start of the run: one file is opened and sent as delta 1, then another is opened. */
  lemma {:induction false} TwoFiles(w: World, b: Baseline, now: int) returns (cap: nat, w3: World)
    requires Init(w)
    ensures IsRun(w, [Observe(Opened("/a"), b, now), SendDelta(cap), Observe(Opened("/b"), b, now)])
    ensures RunEnd(w, [Observe(Opened("/a"), b, now), SendDelta(cap), Observe(Opened("/b"), b, now)]) == w3
    ensures |w3.snaps| == |w3.deltas| == 1 && |w3.snaps[0]| == 1 && |w3.prod.ents| == 2 && DeltaOf(1) in w3.sent
    ensures w3.prod.epoch == w.prod.epoch
  {
    var o1, o2 := Observe(Opened("/a"), b, now), Observe(Opened("/b"), b, now);
    FirstFile(w, b, now);
    var w1 := Next(w, o1);
    assert w1.prod.ents[0].dirty;
    cap := |DeltaText(DirtyView(w1.prod.ents), w.prod.epoch, 1)| + 1;
    var w2 := Next(w1, SendDelta(cap));
    SecondFile(w2, b, now);
    w3 := Next(w2, o2);
    RunOfThree(w, o1, SendDelta(cap), o2);
  }

  lemma {:induction false} FirstFile(w: World, b: Baseline, now: int)
    requires w.prod.ents == [] && w.keyViews == {} && w.deltas == []
    ensures Enabled(w, Observe(Opened("/a"), b, now))
    ensures Next(w, Observe(Opened("/a"), b, now)).prod.ents == [OpenedEntity("/a", b, now)]
  {
    var e := OpenedEntity("/a", b, now);
    SmallFits(e.shown);
    OpenedFold([], "/a", b, now);
    assert [] + [e] == [e];
  }

  lemma {:induction false} SecondFile(w: World, b: Baseline, now: int)
    requires |w.prod.ents| == 1 && w.prod.ents[0].shown == OpenedEntity("/a", b, now).shown
    requires |w.deltas| == |w.snaps| == 1 && w.snaps[0] == View(w.prod.ents)
    ensures Enabled(w, Observe(Opened("/b"), b, now))
    ensures |Next(w, Observe(Opened("/b"), b, now)).prod.ents| == 2
  {
    var e1, e2 := w.prod.ents[0], OpenedEntity("/b", b, now);
    SmallFits(e1.shown);
    SmallFits(e2.shown);
    assert w.prod.ents == [e1];
    DifferentFile(e1);
    OpenedFold([e1], "/b", b, now);
    assert View([e1] + [e2]) == [e1.shown, e2.shown];
  }

  lemma {:induction false} DifferentFile(e: Entity)
    requires e.shown.id == "file:/a"
    ensures FindId([e], "file:/b") == 1
  {
    assert "file:/a"[6] != "file:/b"[6];
    assert FindId([e][1..], "file:/b") == 0;
  }

  lemma {:induction false} RunOfThree(w: World, r: Step, s: Step, t: Step)
    requires Enabled(w, r) && Enabled(Next(w, r), s) && Enabled(Next(Next(w, r), s), t)
    ensures IsRun(w, [r, s, t]) && RunEnd(w, [r, s, t]) == Next(Next(Next(w, r), s), t)
  {
    var w2 := Next(Next(w, r), s);
    assert [t] + [] == [t] && [s] + [t] == [s, t] && [r] + [s, t] == [r, s, t];
    RunStep(w2, t, []);
    RunStep(Next(w, r), s, [t]);
    RunStep(w, r, [s, t]);
  }

  /** The whole run, from any start: a file is opened, delta 1 is sent, another file is opened and
      a keyframe is sent. With the keyframe and a repetition of delta 1 the replica is at sequence
      number 1 with two files, where the producer had one. */
  lemma {:induction false} LateKeyframeRun(w: World, b: Baseline, now: int, h: Header)
    returns (first: nat, w3: World, cap: nat)
    requires Init(w) && KeyframeClear(w.prod.epoch, h)
    ensures var steps := [Observe(Opened("/a"), b, now), SendDelta(first), Observe(Opened("/b"), b, now)];
            IsRun(w, steps) && RunEnd(w, steps) == w3
    ensures Possible(w3, SendKeyframe(h, cap)) && |KeyframeText(View(w3.prod.ents), w3.prod.epoch, h)| < cap
    ensures w3.deltas != [] && DeltaOf(1) in w3.sent && !Safe(Resumed(w3, h, cap))
    ensures !SafeForever(Next(w3, SendKeyframe(h, cap)))
  {
    first, w3 := TwoFiles(w, b, now);
    RunKeeps(w, [Observe(Opened("/a"), b, now), SendDelta(first), Observe(Opened("/b"), b, now)]);
    ClearReadable(View(w3.prod.ents), w3.prod.epoch, h);
    cap := |KeyframeText(View(w3.prod.ents), w3.prod.epoch, h)| + 1;
    LateKeyframe(w3, h, cap);
    KeyframeExact(w3, h, cap);
  }
}
