/** The replay cache of discovery: a table of accepted probes and a ring of evicted ones. */
module ReplayCache {
  const CAP: nat := 4096
  const RING: nat := 256

  datatype Pair = Pair(pubkey: string, nonce: string)

  datatype Entry = Entry(pair: Pair, expires: nat)

  /** The table, and the ring with its next slot and the number of slots in use. */
  datatype Cache = Cache(entries: seq<Entry>, ring: seq<Pair>, head: nat, used: nat)

  predicate CacheOk(c: Cache) {
    |c.entries| <= CAP && |c.ring| == RING && c.head < RING && c.used <= RING
  }

  // ----- one check -----

  predicate Live(es: seq<Entry>, p: Pair, now: nat) {
    exists i | 0 <= i < |es| :: es[i].expires > now && es[i].pair == p
  }

  predicate InRing(c: Cache, p: Pair)
    requires CacheOk(c)
  {
    exists i | 0 <= i < c.used :: c.ring[i] == p
  }

  predicate IsReplay(c: Cache, p: Pair, now: nat)
    requires CacheOk(c)
  {
    Live(c.entries, p, now) || InRing(c, p)
  }

  function Unexpired(es: seq<Entry>, now: nat): (r: seq<Entry>)
    ensures |r| <= |es|
  {
    if |es| == 0 then []
    else
      var last := es[|es| - 1];
      Unexpired(es[..|es| - 1], now) + (if last.expires > now then [last] else [])
  }

  /** The first entry with the smallest expiry. */
  function Oldest(es: seq<Entry>): (o: nat)
    requires |es| > 0
    ensures o < |es| && forall i | 0 <= i < |es| :: es[o].expires <= es[i].expires
    ensures forall i | 0 <= i < o :: es[o].expires < es[i].expires
  {
    if |es| == 1 then 0
    else
      var o := Oldest(es[..|es| - 1]);
      if es[|es| - 1].expires < es[o].expires then |es| - 1 else o
  }

  function Record(c: Cache, p: Pair): (r: Cache)
    requires CacheOk(c)
    ensures CacheOk(r) && r.entries == c.entries
  {
    Cache(c.entries, c.ring[c.head := p], (c.head + 1) % RING, if c.used < RING then c.used + 1 else c.used)
  }

  /** The table when an entry is to be stored: expired entries go only when it is full. */
  function Purged(es: seq<Entry>, now: nat): (r: seq<Entry>)
    ensures |r| <= |es|
  {
    if |es| >= CAP then Unexpired(es, now) else es
  }

  function Insert(c: Cache, e: Entry, now: nat): (r: Cache)
    requires CacheOk(c)
    ensures CacheOk(r)
  {
    var es := Purged(c.entries, now);
    if |es| < CAP then c.(entries := es + [e])
    else
      var o := Oldest(es);
      Record(c.(entries := es[o := e]), es[o].pair)
  }

  /** The pair an insertion evicts, if any. */
  function Evicted(c: Cache, now: nat): (r: seq<Pair>)
    requires CacheOk(c)
  {
    var es := Purged(c.entries, now);
    if |es| < CAP then [] else [es[Oldest(es)].pair]
  }

  // ----- runs -----

  datatype Call = Call(pair: Pair, expires: nat, now: nat)

  /** An accepted probe and the number of evictions that had happened by then. */
  datatype Accept = Accept(pair: Pair, expires: nat, evictions: nat)

  /** The cache, all evictions so far, all accepted probes, and the time of the last check. */
  datatype World = World(cache: Cache, evictions: seq<Pair>, log: seq<Accept>, now: nat)

  function NoPair(): (p: Pair) {
    Pair("", "")
  }

  function Start(): (w: World)
    ensures CacheOk(w.cache)
  {
    World(Cache([], seq(RING, i => NoPair()), 0, 0), [], [], 0)
  }

  function Step(w: World, call: Call): (r: World)
    requires CacheOk(w.cache)
    ensures CacheOk(r.cache)
  {
    if IsReplay(w.cache, call.pair, call.now) then w.(now := call.now)
    else
      var gone := w.evictions + Evicted(w.cache, call.now);
      World(Insert(w.cache, Entry(call.pair, call.expires), call.now), gone,
            w.log + [Accept(call.pair, call.expires, |gone|)], call.now)
  }

  function Run(calls: seq<Call>): (w: World)
    ensures CacheOk(w.cache)
  {
    if |calls| == 0 then Start() else Step(Run(calls[..|calls| - 1]), calls[|calls| - 1])
  }

  /** The verdict of a call in a run. */
  predicate Replay(calls: seq<Call>, i: nat)
    requires i < |calls|
  {
    IsReplay(Run(calls[..i]).cache, calls[i].pair, calls[i].now)
  }

  predicate ClockForward(calls: seq<Call>) {
    forall i, j | 0 <= i < j < |calls| :: calls[i].now <= calls[j].now
  }

  // ----- what every step keeps -----

  /** The ring holds the last evictions, at most 256 of them. */
  ghost predicate RingOk(c: Cache, gone: seq<Pair>)
    requires CacheOk(c)
  {
    && c.used == (if |gone| < RING then |gone| else RING)
    && c.head == |gone| % RING
    && forall j | |gone| - c.used <= j < |gone| :: c.ring[j % RING] == gone[j]
  }

  predicate Logged(log: seq<Accept>, p: Pair) {
    exists i | 0 <= i < |log| :: log[i].pair == p
  }

  predicate LoggedEntry(log: seq<Accept>, e: Entry) {
    exists i | 0 <= i < |log| :: log[i].pair == e.pair && log[i].expires == e.expires
  }

  predicate EvictedSince(gone: seq<Pair>, p: Pair, from: nat) {
    exists k | from <= k < |gone| :: gone[k] == p
  }

  /** An accepted probe is expired, still in the table, or was evicted later. */
  predicate Kept(w: World, a: Accept) {
    a.expires <= w.now || Entry(a.pair, a.expires) in w.cache.entries || EvictedSince(w.evictions, a.pair, a.evictions)
  }

  ghost predicate Inv(w: World) {
    && CacheOk(w.cache) && RingOk(w.cache, w.evictions)
    && (forall i | 0 <= i < |w.log| :: w.log[i].evictions <= |w.evictions| && Kept(w, w.log[i]))
    && (forall i | 0 <= i < |w.cache.entries| :: LoggedEntry(w.log, w.cache.entries[i]))
    && (forall k | 0 <= k < |w.evictions| :: Logged(w.log, w.evictions[k]))
  }

  lemma {:induction false} UnexpiredExact(es: seq<Entry>, now: nat)
    ensures forall e :: e in Unexpired(es, now) <==> e in es && e.expires > now
  {
    if |es| > 0 {
      UnexpiredExact(es[..|es| - 1], now);
      assert es == es[..|es| - 1] + [es[|es| - 1]];
    }
  }

  lemma {:induction false} RecordKeepsRing(c: Cache, gone: seq<Pair>, p: Pair)
    requires CacheOk(c) && RingOk(c, gone)
    ensures RingOk(Record(c, p), gone + [p])
  {
    var r, n := Record(c, p), |gone|;
    forall j | n + 1 - r.used <= j < n + 1 ensures r.ring[j % RING] == (gone + [p])[j] {
      if j < n {
        assert j % RING != n % RING;
      }
    }
  }

  lemma {:induction false} KeptLater(w: World, v: World, a: Accept)
    requires Kept(w, a) && w.now <= v.now && w.evictions <= v.evictions
    requires forall e | e in w.cache.entries :: e.expires <= v.now || e in v.cache.entries ||
                                                EvictedSince(v.evictions, e.pair, |w.evictions|)
    requires a.evictions <= |w.evictions|
    ensures Kept(v, a)
  {
    var e := Entry(a.pair, a.expires);
    if e in w.cache.entries {
      assert e.expires <= v.now || e in v.cache.entries || EvictedSince(v.evictions, e.pair, |w.evictions|);
    } else if EvictedSince(w.evictions, a.pair, a.evictions) {
      var k :| a.evictions <= k < |w.evictions| && w.evictions[k] == a.pair;
      assert v.evictions[k] == a.pair;
    }
  }

  /** An insertion loses only expired entries, and the one it records as evicted. */
  lemma {:induction false} InsertLoses(c: Cache, e: Entry, now: nat, gone: seq<Pair>)
    requires CacheOk(c) && RingOk(c, gone)
    ensures var r, gone1 := Insert(c, e, now), gone + Evicted(c, now);
            && RingOk(r, gone1) && e in r.entries
            && (forall x | x in r.entries :: x in c.entries || x == e)
            && (forall x | x in c.entries :: x.expires <= now || x in r.entries || EvictedSince(gone1, x.pair, |gone|))
  {
    UnexpiredExact(c.entries, now);
    var es := Purged(c.entries, now);
    if |es| < CAP {
      assert gone + [] == gone;
    } else {
      var o := Oldest(es);
      RecordKeepsRing(c.(entries := es[o := e]), gone, es[o].pair);
      Overwritten(es, o, e, gone);
    }
  }

  /** An overwritten entry is among the evictions; the others stay. */
  lemma {:induction false} Overwritten(es: seq<Entry>, o: nat, e: Entry, gone: seq<Pair>)
    requires o < |es|
    ensures e in es[o := e] && forall x | x in es[o := e] :: x in es || x == e
    ensures forall x | x in es :: x in es[o := e] || EvictedSince(gone + [es[o].pair], x.pair, |gone|)
  {
    var r, gone1 := es[o := e], gone + [es[o].pair];
    assert r[o] == e;
    forall x | x in es ensures x in r || EvictedSince(gone1, x.pair, |gone|) {
      var i :| 0 <= i < |es| && es[i] == x;
      if i == o {
        assert gone1[|gone|] == x.pair;
      } else {
        assert r[i] == x;
      }
    }
  }

  lemma {:induction false} LoggedMore(log: seq<Accept>, a: Accept, e: Entry)
    requires LoggedEntry(log, e) || (e.pair == a.pair && e.expires == a.expires)
    ensures LoggedEntry(log + [a], e)
  {
    if LoggedEntry(log, e) {
      var i :| 0 <= i < |log| && log[i].pair == e.pair && log[i].expires == e.expires;
      assert (log + [a])[i] == log[i];
    } else {
      assert (log + [a])[|log|] == a;
    }
  }

  lemma {:induction false} LoggedPairMore(log: seq<Accept>, a: Accept, p: Pair)
    requires Logged(log, p)
    ensures Logged(log + [a], p)
  {
    var i :| 0 <= i < |log| && log[i].pair == p;
    assert (log + [a])[i] == log[i];
  }

  /** An accepted probe is logged and kept, and nothing accepted before is lost. */
  lemma {:induction false} AcceptKeeps(w: World, call: Call)
    requires Inv(w) && w.now <= call.now && !IsReplay(w.cache, call.pair, call.now)
    ensures var v := Step(w, call);
            forall i | 0 <= i < |v.log| :: v.log[i].evictions <= |v.evictions| && Kept(v, v.log[i])
  {
    var v := Step(w, call);
    InsertLoses(w.cache, Entry(call.pair, call.expires), call.now, w.evictions);
    forall i | 0 <= i < |v.log| ensures v.log[i].evictions <= |v.evictions| && Kept(v, v.log[i]) {
      if i < |w.log| {
        assert v.log[i] == w.log[i];
        KeptLater(w, v, w.log[i]);
      }
    }
  }

  /** Everything stored was accepted. */
  lemma {:induction false} AcceptLogs(w: World, call: Call)
    requires Inv(w) && !IsReplay(w.cache, call.pair, call.now)
    ensures var v := Step(w, call);
            && (forall i | 0 <= i < |v.cache.entries| :: LoggedEntry(v.log, v.cache.entries[i]))
            && (forall k | 0 <= k < |v.evictions| :: Logged(v.log, v.evictions[k]))
  {
    var v := Step(w, call);
    var e := Entry(call.pair, call.expires);
    var a := v.log[|w.log|];
    InsertLoses(w.cache, e, call.now, w.evictions);
    forall i | 0 <= i < |v.cache.entries| ensures LoggedEntry(v.log, v.cache.entries[i]) {
      assert v.cache.entries[i] in v.cache.entries;
      LoggedMore(w.log, a, v.cache.entries[i]);
    }
    forall k | 0 <= k < |v.evictions| ensures Logged(v.log, v.evictions[k]) {
      if k < |w.evictions| {
        assert v.evictions[k] == w.evictions[k];
        LoggedPairMore(w.log, a, w.evictions[k]);
      } else {
        EvictedWasStored(w.cache, call.now, w.log);
        LoggedPairMore(w.log, a, v.evictions[k]);
      }
    }
  }

  lemma {:induction false} EvictedWasStored(c: Cache, now: nat, log: seq<Accept>)
    requires CacheOk(c) && |Evicted(c, now)| > 0
    requires forall i | 0 <= i < |c.entries| :: LoggedEntry(log, c.entries[i])
    ensures Logged(log, Evicted(c, now)[0])
  {
    UnexpiredExact(c.entries, now);
    var es := Purged(c.entries, now);
    var x := es[Oldest(es)];
    assert x in es && x in c.entries;
    assert LoggedEntry(log, x);
  }

  lemma {:induction false} StepKeeps(w: World, call: Call)
    requires Inv(w) && w.now <= call.now
    ensures Inv(Step(w, call))
  {
    var v := Step(w, call);
    if IsReplay(w.cache, call.pair, call.now) {
      forall i | 0 <= i < |v.log| ensures Kept(v, v.log[i]) {
        KeptLater(w, v, w.log[i]);
      }
    } else {
      InsertLoses(w.cache, Entry(call.pair, call.expires), call.now, w.evictions);
      AcceptKeeps(w, call);
      AcceptLogs(w, call);
    }
  }

  lemma {:induction false} RunKeeps(calls: seq<Call>)
    requires ClockForward(calls)
    ensures Inv(Run(calls)) && (|calls| > 0 ==> Run(calls).now == calls[|calls| - 1].now)
  {
    if |calls| > 0 {
      var n := |calls| - 1;
      RunKeeps(calls[..n]);
      if n > 0 {
        assert calls[..n][n - 1] == calls[n - 1];
      }
      StepKeeps(Run(calls[..n]), calls[n]);
    }
  }

  lemma {:induction false} RunStep(calls: seq<Call>, i: nat)
    requires i < |calls|
    ensures Run(calls[..i + 1]) == Step(Run(calls[..i]), calls[i])
  {
    assert calls[..i + 1][..i] == calls[..i] && calls[..i + 1][i] == calls[i];
  }

  /** The log and the evictions only grow. */
  lemma {:induction false} HistoryGrows(calls: seq<Call>, i: nat, j: nat)
    requires i <= j <= |calls|
    ensures Run(calls[..i]).log <= Run(calls[..j]).log && Run(calls[..i]).evictions <= Run(calls[..j]).evictions
    decreases j
  {
    if i < j {
      HistoryGrows(calls, i, j - 1);
      RunStep(calls, j - 1);
    }
  }

  /** The last eviction written to a slot. */
  lemma {:induction false} SlotHolder(n: nat, i: nat) returns (j: nat)
    requires i < RING && i < n
    ensures n - RING <= j < n && j % RING == i
  {
    j := i + RING * ((n - 1 - i) / RING);
  }

  /** The ring holds a pair exactly when it is among the last 256 evictions. */
  lemma {:induction false} RingExact(c: Cache, gone: seq<Pair>, p: Pair)
    requires CacheOk(c) && RingOk(c, gone)
    ensures InRing(c, p) <==> EvictedSince(gone, p, if |gone| < RING then 0 else |gone| - RING)
  {
    var n := |gone|;
    if InRing(c, p) {
      var i :| 0 <= i < c.used && c.ring[i] == p;
      var j := SlotHolder(n, i);
      assert gone[j] == p;
    }
    if EvictedSince(gone, p, n - c.used) {
      var j :| n - c.used <= j < n && gone[j] == p;
      assert c.ring[j % RING] == p;
      assert j % RING < c.used;
    }
  }

  // ----- safety and exactness -----

  /** Safety: a probe accepted with an expiry is reported as a replay at every later check before
      that expiry, as long as fewer than 256 evictions followed any eviction of its own. */
  lemma {:induction false} ReplaysReported(calls: seq<Call>, i: nat, j: nat)
    requires ClockForward(calls) && i < j < |calls| && !Replay(calls, i)
    requires calls[j].pair == calls[i].pair && calls[j].now < calls[i].expires
    requires var gone := Run(calls[..j]).evictions;
             forall k | |Run(calls[..i + 1]).evictions| <= k < |gone| && gone[k] == calls[i].pair ::
               |gone| - (k + 1) < RING
    ensures Replay(calls, j)
  {
    RunStep(calls, i);
    var w, a := Run(calls[..j]), Run(calls[..i + 1]).log[|Run(calls[..i]).log|];
    HistoryGrows(calls, i + 1, j);
    RunKeeps(calls[..j]);
    assert a == Accept(calls[i].pair, calls[i].expires, |Run(calls[..i + 1]).evictions|);
    assert w.log[|Run(calls[..i]).log|] == a;
    assert Kept(w, a);
    assert w.now <= calls[j].now by {
      assert calls[..j][j - 1] == calls[j - 1];
    }
    RingExact(w.cache, w.evictions, a.pair);
    if Entry(a.pair, a.expires) in w.cache.entries {
      var x :| 0 <= x < |w.cache.entries| && w.cache.entries[x] == Entry(a.pair, a.expires);
      assert w.cache.entries[x].expires > calls[j].now;
    } else {
      var k :| a.evictions <= k < |w.evictions| && w.evictions[k] == a.pair;
    }
  }

  /** Exactness: a replay verdict is given only for a pair accepted earlier in the run, which
      has not expired or is among the last 256 evictions. */
  lemma {:induction false} ReplaysAccepted(calls: seq<Call>, j: nat) returns (i: nat)
    requires ClockForward(calls) && j < |calls| && Replay(calls, j)
    ensures i < j && !Replay(calls, i) && calls[i].pair == calls[j].pair
    ensures var gone := Run(calls[..j]).evictions;
            || calls[i].expires > calls[j].now
            || EvictedSince(gone, calls[j].pair, if |gone| < RING then 0 else |gone| - RING)
  {
    var w, p, now := Run(calls[..j]), calls[j].pair, calls[j].now;
    RunKeeps(calls[..j]);
    RingExact(w.cache, w.evictions, p);
    if Live(w.cache.entries, p, now) {
      var x :| 0 <= x < |w.cache.entries| && w.cache.entries[x].expires > now && w.cache.entries[x].pair == p;
      assert LoggedEntry(w.log, w.cache.entries[x]);
      var l :| 0 <= l < |w.log| && w.log[l].pair == p && w.log[l].expires == w.cache.entries[x].expires;
      i := LoggedCall(calls, j, l);
    } else {
      var k :| 0 <= k < |w.evictions| && w.evictions[k] == p;
      assert Logged(w.log, w.evictions[k]);
      var l :| 0 <= l < |w.log| && w.log[l].pair == p;
      i := LoggedCall(calls, j, l);
    }
  }

  /** The call that made a log entry. */
  lemma {:induction false} LoggedCall(calls: seq<Call>, j: nat, l: nat) returns (i: nat)
    requires j <= |calls| && l < |Run(calls[..j]).log|
    ensures i < j && !Replay(calls, i)
    ensures calls[i].pair == Run(calls[..j]).log[l].pair && calls[i].expires == Run(calls[..j]).log[l].expires
    decreases j
  {
    assert calls[..0] == [];
    RunStep(calls, j - 1);
    if l < |Run(calls[..j - 1]).log| {
      i := LoggedCall(calls, j - 1, l);
    } else {
      i := j - 1;
    }
  }

  // ----- the verdict in terms of the history alone -----

  /** Of two entries for one pair at most one is unexpired. */
  predicate UniqueLive(es: seq<Entry>, now: nat) {
    forall i, j | 0 <= i < j < |es| && es[i].pair == es[j].pair :: es[i].expires <= now || es[j].expires <= now
  }

  /** The entry was accepted, and its pair has not been evicted since. */
  predicate Unbroken(log: seq<Accept>, gone: seq<Pair>, e: Entry) {
    exists i | 0 <= i < |log| ::
      log[i].pair == e.pair && log[i].expires == e.expires && !EvictedSince(gone, e.pair, log[i].evictions)
  }

  ghost predicate Exact(w: World) {
    && UniqueLive(w.cache.entries, w.now)
    && forall i | 0 <= i < |w.cache.entries| && w.cache.entries[i].expires > w.now ::
         Unbroken(w.log, w.evictions, w.cache.entries[i])
  }

  lemma UniqueLater(es: seq<Entry>, now: nat, later: nat)
    requires UniqueLive(es, now) && now <= later
    ensures UniqueLive(es, later)
  {
  }

  lemma {:induction false} UniqueUnexpired(es: seq<Entry>, now: nat)
    requires UniqueLive(es, now)
    ensures UniqueLive(Unexpired(es, now), now)
  {
    if |es| > 0 {
      var init, last := es[..|es| - 1], es[|es| - 1];
      UniqueUnexpired(init, now);
      UnexpiredExact(init, now);
      var u := Unexpired(init, now);
      forall i | 0 <= i < |u| && last.expires > now ensures u[i].pair != last.pair {
        assert u[i] in init;
        var k :| 0 <= k < |init| && init[k] == u[i];
        assert es[k] == u[i];
      }
    }
  }

  lemma {:induction false} UnbrokenMore(log: seq<Accept>, a: Accept, gone: seq<Pair>, out: seq<Pair>, e: Entry)
    requires Unbroken(log, gone, e) && |out| <= 1 && (|out| == 1 ==> out[0] != e.pair)
    ensures Unbroken(log + [a], gone + out, e)
  {
    var i :| 0 <= i < |log| && log[i].pair == e.pair && log[i].expires == e.expires &&
             !EvictedSince(gone, e.pair, log[i].evictions);
    assert (log + [a])[i] == log[i];
    forall k | log[i].evictions <= k < |gone + out| ensures (gone + out)[k] != e.pair {
      assert k < |gone| ==> gone[k] != e.pair;
    }
  }

  lemma {:induction false} AcceptUnbroken(log: seq<Accept>, a: Accept, gone: seq<Pair>)
    requires a.evictions == |gone|
    ensures Unbroken(log + [a], gone, Entry(a.pair, a.expires))
  {
    assert (log + [a])[|log|] == a;
  }

  /** Storing an entry: at most one unexpired entry for each pair, as before. */
  lemma {:induction false} InsertUnique(c: Cache, e: Entry, now: nat)
    requires CacheOk(c) && UniqueLive(c.entries, now) && !Live(c.entries, e.pair, now)
    ensures UniqueLive(Insert(c, e, now).entries, now)
  {
    UniqueUnexpired(c.entries, now);
    UnexpiredExact(c.entries, now);
    var es := Purged(c.entries, now);
    forall i | 0 <= i < |es| && es[i].pair == e.pair ensures es[i].expires <= now {
      assert es[i] in es && es[i] in c.entries;
      var k :| 0 <= k < |c.entries| && c.entries[k] == es[i];
      assert c.entries[k].pair == e.pair;
    }
  }

  /** An evicted pair has no other unexpired entry. */
  lemma {:induction false} EvictedAlone(c: Cache, e: Entry, now: nat, i: nat)
    requires CacheOk(c) && UniqueLive(c.entries, now) && |Evicted(c, now)| > 0
    requires var r := Insert(c, e, now).entries; i < |r| && r[i].expires > now && i != Oldest(Purged(c.entries, now))
    ensures Evicted(c, now)[0] != Insert(c, e, now).entries[i].pair
  {
    UniqueUnexpired(c.entries, now);
    UnexpiredExact(c.entries, now);
    var es := Purged(c.entries, now);
    var o := Oldest(es);
    assert es[o] in es;
    assert UniqueLive(es, now) && es[o].expires > now;
  }

  lemma {:induction false} AcceptExact(w: World, call: Call)
    requires Inv(w) && Exact(w) && w.now <= call.now && !IsReplay(w.cache, call.pair, call.now)
    ensures Exact(Step(w, call))
  {
    var v, e := Step(w, call), Entry(call.pair, call.expires);
    var a := Accept(call.pair, call.expires, |v.evictions|);
    UniqueLater(w.cache.entries, w.now, call.now);
    InsertUnique(w.cache, e, call.now);
    AcceptUnbroken(w.log, a, v.evictions);
    forall i | 0 <= i < |v.cache.entries| && v.cache.entries[i].expires > v.now
      ensures Unbroken(v.log, v.evictions, v.cache.entries[i])
    {
      StoredUnbroken(w, call, i);
    }
  }

  lemma {:induction false} StoredUnbroken(w: World, call: Call, i: nat)
    requires Inv(w) && Exact(w) && w.now <= call.now && !IsReplay(w.cache, call.pair, call.now)
    requires i < |Step(w, call).cache.entries| && Step(w, call).cache.entries[i].expires > call.now
    ensures var v := Step(w, call); Unbroken(v.log, v.evictions, v.cache.entries[i])
  {
    var v, e := Step(w, call), Entry(call.pair, call.expires);
    var x, out := v.cache.entries[i], Evicted(w.cache, call.now);
    var a := Accept(call.pair, call.expires, |v.evictions|);
    AcceptUnbroken(w.log, a, v.evictions);
    if x != e {
      UniqueLater(w.cache.entries, w.now, call.now);
      InsertLoses(w.cache, e, call.now, w.evictions);
      assert x in v.cache.entries && x in w.cache.entries;
      var k :| 0 <= k < |w.cache.entries| && w.cache.entries[k] == x;
      assert Unbroken(w.log, w.evictions, w.cache.entries[k]);
      if |out| > 0 {
        EvictedAlone(w.cache, e, call.now, i);
      }
      UnbrokenMore(w.log, a, w.evictions, out, x);
    }
  }

  lemma {:induction false} RunExact(calls: seq<Call>)
    requires ClockForward(calls)
    ensures Exact(Run(calls))
  {
    if |calls| > 0 {
      var n := |calls| - 1;
      var w := Run(calls[..n]);
      RunKeeps(calls[..n]);
      RunExact(calls[..n]);
      if n > 0 {
        assert calls[..n][n - 1] == calls[n - 1];
      }
      if IsReplay(w.cache, calls[n].pair, calls[n].now) {
        UniqueLater(w.cache.entries, w.now, calls[n].now);
      } else {
        AcceptExact(w, calls[n]);
      }
    }
  }

  /** A pair is remembered at a check: it was accepted, has not expired and was not evicted
      since, or it is among the last 256 evictions. */
  ghost predicate Remembered(w: World, p: Pair, now: nat) {
    || (exists i | 0 <= i < |w.log| ::
          w.log[i].pair == p && w.log[i].expires > now && !EvictedSince(w.evictions, p, w.log[i].evictions))
    || EvictedSince(w.evictions, p, if |w.evictions| < RING then 0 else |w.evictions| - RING)
  }

  /** The verdict is exactly what the history of accepted and evicted pairs calls for. */
  lemma {:induction false} VerdictExact(calls: seq<Call>, j: nat)
    requires ClockForward(calls) && j < |calls|
    ensures Replay(calls, j) <==> Remembered(Run(calls[..j]), calls[j].pair, calls[j].now)
  {
    var w, p, now := Run(calls[..j]), calls[j].pair, calls[j].now;
    RunKeeps(calls[..j]);
    RunExact(calls[..j]);
    RingExact(w.cache, w.evictions, p);
    assert w.now <= now by {
      if j > 0 {
        assert calls[..j][j - 1] == calls[j - 1];
      }
    }
    if Live(w.cache.entries, p, now) {
      var x :| 0 <= x < |w.cache.entries| && w.cache.entries[x].expires > now && w.cache.entries[x].pair == p;
      assert Unbroken(w.log, w.evictions, w.cache.entries[x]);
    }
    if i :| 0 <= i < |w.log| && w.log[i].pair == p && w.log[i].expires > now &&
            !EvictedSince(w.evictions, p, w.log[i].evictions)
    {
      assert Kept(w, w.log[i]);
      var x :| 0 <= x < |w.cache.entries| && w.cache.entries[x] == Entry(p, w.log[i].expires);
    }
  }

  // ----- the cache in place -----

  class Table {
    const entries: array<Entry>
    var count: nat
    const evicted: array<Pair>
    var head: nat
    var used: nat

    ghost predicate Valid()
      reads this
    {
      entries.Length == CAP && count <= CAP && evicted.Length == RING && head < RING && used <= RING
    }

    ghost function View(): (c: Cache)
      requires Valid()
      reads this, entries, evicted
      ensures CacheOk(c)
    {
      Cache(entries[..count], evicted[..], head, used)
    }

    constructor ()
      ensures Valid() && fresh(entries) && fresh(evicted) && View() == Start().cache
    {
      entries := new Entry[CAP](_ => Entry(NoPair(), 0));
      evicted := new Pair[RING](_ => NoPair());
      count, head, used := 0, 0, 0;
      new;
      assert evicted[..] == Start().cache.ring;
    }

    /** Compacts the table in place. */
    method Purge(now: nat)
      requires Valid()
      modifies `count, entries
      ensures Valid() && View() == old(View()).(entries := Unexpired(old(entries[..count]), now))
    {
      ghost var was := entries[..count];
      var w := 0;
      for i := 0 to count
        invariant count == |was| && w <= i && entries[..w] == Unexpired(was[..i], now)
        invariant forall k | i <= k < count :: entries[k] == was[k]
      {
        assert was[..i + 1][..i] == was[..i] && was[..i + 1][i] == entries[i];
        if entries[i].expires > now {
          entries[w] := entries[i];
          w := w + 1;
        }
      }
      assert was[..count] == was;
      count := w;
    }

    method RecordEviction(p: Pair)
      requires Valid()
      modifies `head, `used, evicted
      ensures Valid() && View() == Record(old(View()), p)
    {
      ghost var was := evicted[..];
      evicted[head] := p;
      assert evicted[..] == was[head := p];
      head := (head + 1) % RING;
      if used < RING {
        used := used + 1;
      }
    }

    method SeenInEvicted(p: Pair) returns (seen: bool)
      requires Valid()
      ensures seen == InRing(View(), p)
    {
      for i := 0 to used
        invariant forall k | 0 <= k < i :: View().ring[k] != p
      {
        if evicted[i] == p {
          assert View().ring[i] == p;
          return true;
        }
      }
      return false;
    }

    method SeenLive(p: Pair, now: nat) returns (seen: bool)
      requires Valid()
      ensures seen == Live(View().entries, p, now)
    {
      for i := 0 to count
        invariant forall k | 0 <= k < i :: !(View().entries[k].expires > now && View().entries[k].pair == p)
      {
        if entries[i].expires > now && entries[i].pair == p {
          assert View().entries[i] == entries[i];
          return true;
        }
      }
      return false;
    }

    method FindOldest() returns (oldest: nat)
      requires Valid() && count > 0
      ensures oldest == Oldest(View().entries)
    {
      oldest := 0;
      for i := 1 to count
        invariant oldest == Oldest(entries[..i])
      {
        assert entries[..i + 1][..i] == entries[..i];
        if entries[i].expires < entries[oldest].expires {
          oldest := i;
        }
      }
    }

    method Store(e: Entry, now: nat)
      requires Valid()
      modifies this, entries, evicted
      ensures Valid() && View() == Insert(old(View()), e, now)
    {
      if count >= CAP {
        Purge(now);
      }
      ghost var es := entries[..count];
      if count < CAP {
        entries[count] := e;
        count := count + 1;
        assert entries[..count] == es + [e];
      } else {
        var oldest := FindOldest();
        var gone := entries[oldest].pair;
        entries[oldest] := e;
        assert entries[..count] == es[oldest := e];
        RecordEviction(gone);
      }
    }

    /** One check: the verdict, and the table as a run's step leaves it. */
    method Check(call: Call, ghost w: World) returns (replay: bool)
      requires Valid() && w.cache == View()
      modifies this, entries, evicted
      ensures Valid() && replay == IsReplay(old(View()), call.pair, call.now)
      ensures View() == Step(w, call).cache
    {
      var live := SeenLive(call.pair, call.now);
      if live {
        return true;
      }
      var recent := SeenInEvicted(call.pair);
      if recent {
        return true;
      }
      Store(Entry(call.pair, call.expires), call.now);
      return false;
    }
  }
}
