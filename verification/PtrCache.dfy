/** The reverse-name cache: one worker thread and any number of callers around a mutex.

    Each step of the system is what one party does while it holds the mutex; the resolver runs
    between two steps of the worker, while anything else may happen. A wait on the condition
    variable may wake at any time. */
module PtrCache {
  import opened JsonTree

  const PTR_MAX: nat := 256
  const IP_CAP: nat := 64
  const NAME_CAP: nat := 256

  /** `snprintf` into a buffer. */
  function Cut(s: string, cap: nat): (r: string)
    ensures cap > 0 ==> |r| < cap
    ensures |s| < cap ==> r == s
  {
    if |s| < cap then s else if cap == 0 then "" else s[..cap - 1]
  }

  datatype Entry = Entry(ip: string, name: string, resolved: bool)

  /** The worker: at its loop, between picking an entry and calling the resolver, between the
      resolver's answer and storing it, or gone. */
  datatype Worker = Idle | Picked(idx: nat) | Answered(idx: nat, answer: Option<string>) | Gone

  /** A call of the resolver. */
  datatype Call = Call(ip: string, answer: Option<string>)

  /** A call to the cache that returned 1. */
  datatype Hit = Hit(ip: string, name: string, cap: nat)

  datatype Sys = Sys(
    entries: seq<Entry>, pending: int, shutdown: bool, worker: Worker, waits: map<nat, Wait>,
    calls: seq<Call>, hits: seq<Hit>)

  /** A caller waiting for an entry. */
  datatype Wait = Wait(ip: string, idx: nat, cap: nat)

  const START: Sys := Sys([], 0, false, Idle, map[], [], [])

  // ----- the critical sections -----

  function Find(es: seq<Entry>, ip: string): (i: nat)
    ensures i <= |es| && (i < |es| ==> es[i].ip == ip) && forall j | 0 <= j < i :: es[j].ip != ip
  {
    if |es| == 0 || es[0].ip == ip then 0 else 1 + Find(es[1..], ip)
  }

  /** The entry of an address, made if need be; the index is 256 or more when there is no room. */
  function Ensure(s: Sys, ip: string): (r: (Sys, nat))
    ensures r.1 < |r.0.entries| || (r.0 == s && |s.entries| >= PTR_MAX)
  {
    var i := Find(s.entries, ip);
    if i < |s.entries| then (s, i)
    else if |s.entries| >= PTR_MAX then (s, |s.entries|)
    else (s.(entries := s.entries + [Entry(Cut(ip, IP_CAP), "", false)], pending := s.pending + 1), i)
  }

  function NameOf(answer: Option<string>): (name: string) {
    if answer.Some? then Cut(answer.value, NAME_CAP) else ""
  }

  function FirstPending(es: seq<Entry>): (i: nat)
    ensures i <= |es| && (i < |es| ==> !es[i].resolved) && forall j | 0 <= j < i :: es[j].resolved
  {
    if |es| == 0 || !es[0].resolved then 0 else 1 + FirstPending(es[1..])
  }

  // ----- steps -----

  datatype Step =
    | Lookup(ip: string, cap: nat)
    | WaitBegin(id: nat, ip: string, cap: nat)
    | WaitWake(id: nat, timedOut: bool)
    | WorkerPick
    | WorkerCall(answer: Option<string>)
    | WorkerStore
    | Shutdown
    | WorkerExit

  predicate Enabled(s: Sys, t: Step) {
    match t
    case Lookup(_, _) => true
    case WaitBegin(id, _, _) => id !in s.waits
    case WaitWake(id, _) => id in s.waits
    case WorkerPick => s.worker.Idle? && !s.shutdown && s.pending != 0
    case WorkerCall(_) => s.worker.Picked?
    case WorkerStore => s.worker.Answered?
    case Shutdown => true
    case WorkerExit => s.worker.Idle? && s.shutdown
  }

  function Returned(s: Sys, ip: string, i: nat, cap: nat): (r: Sys)
    requires i < |s.entries|
  {
    s.(hits := s.hits + [Hit(ip, Cut(s.entries[i].name, cap), cap)])
  }

  function Next(s: Sys, t: Step): (r: Sys)
    requires Enabled(s, t)
  {
    match t
    case Lookup(ip, cap) =>
      var i := Find(s.entries, ip);
      if i < |s.entries| && s.entries[i].resolved then Returned(s, ip, i, cap) else Ensure(s, ip).0
    case WaitBegin(id, ip, cap) =>
      var (s1, i) := Ensure(s, ip);
      if i >= |s1.entries| then s1
      else if s1.entries[i].resolved then Returned(s1, ip, i, cap)
      else s1.(waits := s1.waits[id := Wait(ip, i, cap)])
    case WaitWake(id, timedOut) =>
      var w := s.waits[id];
      if w.idx < |s.entries| && s.entries[w.idx].resolved then
        Returned(s, w.ip, w.idx, w.cap).(waits := s.waits - {id})
      else if timedOut then s.(waits := s.waits - {id})
      else s
    case WorkerPick =>
      var i := FirstPending(s.entries);
      // the branch for a count without an entry
      if i >= |s.entries| then (if s.pending > 0 then s.(pending := s.pending - 1) else s)
      else s.(worker := Picked(i))
    case WorkerCall(answer) =>
      var i := s.worker.idx;
      if i >= |s.entries| then s
      else s.(worker := Answered(i, answer), calls := s.calls + [Call(s.entries[i].ip, answer)])
    case WorkerStore =>
      var i := s.worker.idx;
      if i >= |s.entries| then s
      else
        s.(entries := s.entries[i := s.entries[i].(name := NameOf(s.worker.answer), resolved := true)],
           pending := if s.pending > 0 then s.pending - 1 else s.pending, worker := Idle)
    case Shutdown => s.(shutdown := true)
    case WorkerExit => s.(worker := Gone)
  }

  /** A run is any sequence of enabled steps. */
  ghost predicate Runs(steps: seq<Step>, states: seq<Sys>) {
    && |states| == |steps| + 1 && states[0] == START
    && forall i {:trigger steps[i]} | 0 <= i < |steps| ::
         Enabled(states[i], steps[i]) && states[i + 1] == Next(states[i], steps[i])
  }

  // ----- what every step keeps -----

  function CountPending(es: seq<Entry>): (n: nat) {
    if |es| == 0 then 0 else (if es[0].resolved then 0 else 1) + CountPending(es[1..])
  }

  /** The entry a call was made for: stored, or about to be. */
  predicate CallPlaced(s: Sys, c: Call, j: nat) {
    && j < |s.entries| && s.entries[j].ip == c.ip
    && (if s.entries[j].resolved then s.entries[j].name == NameOf(c.answer)
        else s.worker == Answered(j, c.answer))
  }

  /** A name in the table is the answer to a call for its address. */
  predicate Answers(calls: seq<Call>, ip: string, name: string) {
    exists k | 0 <= k < |calls| :: calls[k].ip == ip && NameOf(calls[k].answer) == name
  }

  ghost predicate WorkerOk(s: Sys) {
    match s.worker
    case Idle => true
    case Gone => true
    case Picked(i) => i < |s.entries| && !s.entries[i].resolved
    case Answered(i, answer) =>
      i < |s.entries| && !s.entries[i].resolved && Answers(s.calls, s.entries[i].ip, NameOf(answer))
  }

  ghost predicate Inv(s: Sys) {
    && s.pending == CountPending(s.entries) && |s.entries| <= PTR_MAX && WorkerOk(s)
    && (forall j | 0 <= j < |s.entries| :: |s.entries[j].ip| < IP_CAP)
    && (forall j | 0 <= j < |s.entries| :: s.entries[j].resolved ==> Answers(s.calls, s.entries[j].ip,
      s.entries[j].name))
    && (forall id | id in s.waits :: s.waits[id].idx < |s.entries| &&
                                     s.entries[s.waits[id].idx].ip == Cut(s.waits[id].ip, IP_CAP))
    && (forall h | 0 <= h < |s.hits| :: HitOk(s, s.hits[h]))
  }

  /** A return of 1 carries the resolver's answer for the address, as far as both buffers hold it. */
  ghost predicate HitOk(s: Sys, h: Hit) {
    exists name :: Answers(s.calls, Cut(h.ip, IP_CAP), name) && h.name == Cut(name, h.cap)
  }

  /** Entries never move, change their address or lose their answer. */
  predicate Extends(a: Sys, b: Sys) {
    && |a.entries| <= |b.entries| && a.calls <= b.calls && a.hits <= b.hits
    && forall j | 0 <= j < |a.entries| ::
         b.entries[j].ip == a.entries[j].ip && (a.entries[j].resolved ==> b.entries[j] == a.entries[j])
  }

  lemma {:induction false} CountAppend(es: seq<Entry>, e: Entry)
    ensures CountPending(es + [e]) == CountPending(es) + if e.resolved then 0 else 1
  {
    if |es| == 0 {
      assert es + [e] == [e] && [e][1..] == [];
    } else {
      CountAppend(es[1..], e);
      assert (es + [e])[1..] == es[1..] + [e];
    }
  }

  lemma {:induction false} CountResolved(es: seq<Entry>, i: nat, e: Entry)
    requires i < |es| && !es[i].resolved && e.resolved
    ensures CountPending(es[i := e]) == CountPending(es) - 1
  {
    if i == 0 {
      assert es[i := e][1..] == es[1..];
    } else {
      CountResolved(es[1..], i - 1, e);
      assert es[i := e][1..] == es[1..][i - 1 := e];
    }
  }

  lemma {:induction false} CountPositive(es: seq<Entry>)
    ensures CountPending(es) > 0 <==> FirstPending(es) < |es|
  {
    if |es| > 0 && es[0].resolved {
      CountPositive(es[1..]);
    }
  }

  lemma {:induction false} AnswersMore(a: seq<Call>, b: seq<Call>, ip: string, name: string)
    requires Answers(a, ip, name) && a <= b
    ensures Answers(b, ip, name)
  {
    var k :| 0 <= k < |a| && a[k].ip == ip && NameOf(a[k].answer) == name;
    assert b[k] == a[k];
  }

  lemma {:induction false} HitMore(a: Sys, b: Sys, h: Hit)
    requires HitOk(a, h) && a.calls <= b.calls
    ensures HitOk(b, h)
  {
    var name :| Answers(a.calls, Cut(h.ip, IP_CAP), name) && h.name == Cut(name, h.cap);
    AnswersMore(a.calls, b.calls, Cut(h.ip, IP_CAP), name);
  }

  lemma {:induction false} EnsureKeeps(s: Sys, ip: string)
    requires Inv(s)
    ensures var (r, i) := Ensure(s, ip);
            && Inv(r) && Extends(s, r) && r.calls == s.calls && r.hits == s.hits && r.waits == s.waits
            && (i < |r.entries| ==> r.entries[i].ip == Cut(ip, IP_CAP))
  {
    var (r, i) := Ensure(s, ip);
    var at := Find(s.entries, ip);
    if at == |s.entries| && |s.entries| < PTR_MAX {
      CountAppend(s.entries, Entry(Cut(ip, IP_CAP), "", false));
      forall h | 0 <= h < |r.hits| ensures HitOk(r, r.hits[h]) {
        HitMore(s, r, s.hits[h]);
      }
    }
  }

  lemma {:induction false} ReturnKeeps(s: Sys, ip: string, i: nat, cap: nat)
    requires Inv(s) && i < |s.entries| && s.entries[i].resolved && s.entries[i].ip == Cut(ip, IP_CAP)
    ensures Inv(Returned(s, ip, i, cap)) && Extends(s, Returned(s, ip, i, cap))
  {
    var r := Returned(s, ip, i, cap);
    forall h | 0 <= h < |r.hits| ensures HitOk(r, r.hits[h]) {
      if h < |s.hits| {
        HitMore(s, r, s.hits[h]);
      } else {
        assert Answers(r.calls, Cut(ip, IP_CAP), s.entries[i].name);
      }
    }
  }

  lemma {:induction false} CallKeeps(s: Sys, answer: Option<string>)
    requires Inv(s) && s.worker.Picked?
    ensures Inv(Next(s, WorkerCall(answer))) && Extends(s, Next(s, WorkerCall(answer)))
  {
    var r := Next(s, WorkerCall(answer));
    assert r.calls[|s.calls|] == Call(s.entries[s.worker.idx].ip, answer);
    forall h | 0 <= h < |r.hits| ensures HitOk(r, r.hits[h]) {
      HitMore(s, r, s.hits[h]);
    }
    forall j | 0 <= j < |r.entries| && r.entries[j].resolved
      ensures Answers(r.calls, r.entries[j].ip, r.entries[j].name)
    {
      AnswersMore(s.calls, r.calls, s.entries[j].ip, s.entries[j].name);
    }
  }

  lemma {:induction false} StoreKeeps(s: Sys)
    requires Inv(s) && s.worker.Answered?
    ensures Inv(Next(s, WorkerStore)) && Extends(s, Next(s, WorkerStore))
  {
    var r, i := Next(s, WorkerStore), s.worker.idx;
    CountResolved(s.entries, i, r.entries[i]);
    forall h | 0 <= h < |r.hits| ensures HitOk(r, r.hits[h]) {
      HitMore(s, r, s.hits[h]);
    }
  }

  /** The worker's guard against a count without an entry never fires. */
  lemma {:induction false} PickKeeps(s: Sys)
    requires Inv(s) && Enabled(s, WorkerPick)
    ensures FirstPending(s.entries) < |s.entries|
    ensures Inv(Next(s, WorkerPick)) && Extends(s, Next(s, WorkerPick))
  {
    CountPositive(s.entries);
    var r := Next(s, WorkerPick);
    forall h | 0 <= h < |r.hits| ensures HitOk(r, r.hits[h]) {
      HitMore(s, r, s.hits[h]);
    }
  }

  lemma {:induction false} WaitKeeps(s: Sys, t: Step)
    requires Inv(s) && Enabled(s, t) && (t.WaitBegin? || t.WaitWake?)
    ensures Inv(Next(s, t)) && Extends(s, Next(s, t))
  {
    if t.WaitBegin? {
      EnsureKeeps(s, t.ip);
      var (s1, i) := Ensure(s, t.ip);
      if i < |s1.entries| && s1.entries[i].resolved {
        ReturnKeeps(s1, t.ip, i, t.cap);
      } else {
        OnlyWaits(s1, Next(s, t));
      }
    } else {
      var w := s.waits[t.id];
      if s.entries[w.idx].resolved {
        ReturnKeeps(s, w.ip, w.idx, w.cap);
        OnlyWaits(Returned(s, w.ip, w.idx, w.cap), Next(s, t));
      } else {
        OnlyWaits(s, Next(s, t));
      }
    }
  }

  /** A step that only changes who waits. */
  lemma {:induction false} OnlyWaits(s: Sys, r: Sys)
    requires Inv(s) && r == s.(waits := r.waits)
    requires forall id | id in r.waits :: r.waits[id].idx < |r.entries| &&
                                          r.entries[r.waits[id].idx].ip == Cut(r.waits[id].ip, IP_CAP)
    ensures Inv(r) && Extends(s, r)
  {
    forall h | 0 <= h < |r.hits| ensures HitOk(r, r.hits[h]) {
      HitMore(s, r, s.hits[h]);
    }
  }

  lemma {:induction false} FlagKeeps(s: Sys, t: Step)
    requires Inv(s) && Enabled(s, t) && (t.Shutdown? || t.WorkerExit?)
    ensures Inv(Next(s, t)) && Extends(s, Next(s, t))
  {
    var r := Next(s, t);
    forall h | 0 <= h < |r.hits| ensures HitOk(r, r.hits[h]) {
      HitMore(s, r, s.hits[h]);
    }
  }

  lemma {:induction false} StepKeeps(s: Sys, t: Step)
    requires Inv(s) && Enabled(s, t)
    ensures Inv(Next(s, t)) && Extends(s, Next(s, t))
  {
    match t
    case Lookup(ip, cap) =>
      var i := Find(s.entries, ip);
      if i < |s.entries| && s.entries[i].resolved {
        ReturnKeeps(s, ip, i, cap);
      } else {
        EnsureKeeps(s, ip);
      }
    case WaitBegin(_, _, _) => WaitKeeps(s, t);
    case WaitWake(_, _) => WaitKeeps(s, t);
    case WorkerPick => PickKeeps(s);
    case WorkerCall(answer) => CallKeeps(s, answer);
    case WorkerStore => StoreKeeps(s);
    case Shutdown => FlagKeeps(s, t);
    case WorkerExit => FlagKeeps(s, t);
  }

  /** In every reachable state: the count is the number of pending entries, a picked entry is
      still pending, and every answer returned is the resolver's for that address. */
  lemma {:induction false} RunKeeps(steps: seq<Step>, states: seq<Sys>, i: nat)
    requires Runs(steps, states) && i <= |steps|
    ensures Inv(states[i])
  {
    if i > 0 {
      RunKeeps(steps, states, i - 1);
      assert Enabled(states[i - 1], steps[i - 1]) && states[i] == Next(states[i - 1], steps[i - 1]);
      StepKeeps(states[i - 1], steps[i - 1]);
    }
  }

  lemma {:induction false} StepExtends(steps: seq<Step>, states: seq<Sys>, i: nat)
    requires Runs(steps, states) && i < |steps|
    ensures Extends(states[i], states[i + 1])
  {
    RunKeeps(steps, states, i);
    assert Enabled(states[i], steps[i]) && states[i + 1] == Next(states[i], steps[i]);
    StepKeeps(states[i], steps[i]);
  }

  /** Between any two states of a run, entries keep their places, addresses and answers. */
  lemma {:induction false} EntriesStay(steps: seq<Step>, states: seq<Sys>, i: nat, j: nat)
    requires Runs(steps, states) && i <= j <= |steps|
    ensures Extends(states[i], states[j])
    decreases j
  {
    if i < j {
      EntriesStay(steps, states, i, j - 1);
      StepExtends(steps, states, j - 1);
      ExtendsMore(states[i], states[j - 1], states[j]);
    }
  }

  lemma ExtendsMore(a: Sys, b: Sys, c: Sys)
    requires Extends(a, b) && Extends(b, c)
    ensures Extends(a, c)
  {
  }

  // ----- how often an address is resolved -----

  /** A call does not ask for an address that is stored as `x` without being `x`. */
  predicate Faithful(t: Step, x: string) {
    t.Lookup? || t.WaitBegin? ==> Cut(t.ip, IP_CAP) == x ==> t.ip == x
  }

  predicate AtMostOne(ips: seq<string>, x: string) {
    forall i, j | 0 <= i < j < |ips| :: ips[i] == x ==> ips[j] != x
  }

  function EntryIps(es: seq<Entry>): (r: seq<string>)
    ensures |r| == |es| && forall i | 0 <= i < |es| :: r[i] == es[i].ip
  {
    seq(|es|, i requires 0 <= i < |es| => es[i].ip)
  }

  function CallIps(cs: seq<Call>): (r: seq<string>)
    ensures |r| == |cs| && forall i | 0 <= i < |cs| :: r[i] == cs[i].ip
  {
    seq(|cs|, i requires 0 <= i < |cs| => cs[i].ip)
  }

  ghost predicate Placed(s: Sys, c: Call) {
    exists j: nat :: CallPlaced(s, c, j)
  }

  /** The address has at most one entry, was resolved at most once, and then for its entry. */
  ghost predicate Once(s: Sys, x: string) {
    && AtMostOne(EntryIps(s.entries), x) && AtMostOne(CallIps(s.calls), x)
    && forall k | 0 <= k < |s.calls| && s.calls[k].ip == x :: Placed(s, s.calls[k])
  }

  lemma {:induction false} EnsureOnce(s: Sys, ip: string, x: string)
    requires Inv(s) && Once(s, x) && (Cut(ip, IP_CAP) == x ==> ip == x)
    ensures Once(Ensure(s, ip).0, x)
  {
    var r := Ensure(s, ip).0;
    forall k | 0 <= k < |r.calls| && r.calls[k].ip == x ensures Placed(r, r.calls[k]) {
      assert Placed(s, s.calls[k]);
      var j: nat :| CallPlaced(s, s.calls[k], j);
      assert CallPlaced(r, r.calls[k], j);
    }
  }

  lemma {:induction false} CallOnce(s: Sys, answer: Option<string>, x: string)
    requires Inv(s) && Once(s, x) && s.worker.Picked?
    ensures Once(Next(s, WorkerCall(answer)), x)
  {
    var r, i := Next(s, WorkerCall(answer)), s.worker.idx;
    forall k | 0 <= k < |s.calls| && s.calls[k].ip == x ensures s.entries[i].ip != x && Placed(r, r.calls[k]) {
      assert Placed(s, s.calls[k]);
      var j: nat :| CallPlaced(s, s.calls[k], j);
      assert s.entries[j].resolved && j != i;
      assert EntryIps(s.entries)[if i < j then i else j] == x ==> EntryIps(s.entries)[if i < j then j else i] != x;
      assert CallPlaced(r, r.calls[k], j);
    }
    assert CallPlaced(r, r.calls[|s.calls|], i);
  }

  lemma {:induction false} StoreOnce(s: Sys, x: string)
    requires Inv(s) && Once(s, x) && s.worker.Answered?
    ensures Once(Next(s, WorkerStore), x)
  {
    var r := Next(s, WorkerStore);
    assert EntryIps(r.entries) == EntryIps(s.entries);
    forall k | 0 <= k < |r.calls| && r.calls[k].ip == x ensures Placed(r, r.calls[k]) {
      assert Placed(s, s.calls[k]);
      var j: nat :| CallPlaced(s, s.calls[k], j);
      assert CallPlaced(r, r.calls[k], j);
    }
  }

  /** A step that leaves entries, worker and calls alone. */
  lemma {:induction false} SameOnce(s: Sys, r: Sys, x: string)
    requires Once(s, x) && r.entries == s.entries && r.calls == s.calls
    requires r.worker == s.worker || !s.worker.Answered?
    ensures Once(r, x)
  {
    forall k | 0 <= k < |r.calls| && r.calls[k].ip == x ensures Placed(r, r.calls[k]) {
      assert Placed(s, s.calls[k]);
      var j: nat :| CallPlaced(s, s.calls[k], j);
      assert CallPlaced(r, r.calls[k], j);
    }
  }

  lemma {:induction false} StepOnce(s: Sys, t: Step, x: string)
    requires Inv(s) && Once(s, x) && Enabled(s, t) && Faithful(t, x)
    ensures Once(Next(s, t), x)
  {
    match t
    case Lookup(ip, cap) =>
      EnsureOnce(s, ip, x);
      SameOnce(s, Returned1(s, ip, cap), x);
    case WaitBegin(id, ip, cap) =>
      EnsureOnce(s, ip, x);
      SameOnce(Ensure(s, ip).0, Next(s, t), x);
    case WaitWake(_, _) => SameOnce(s, Next(s, t), x);
    case WorkerPick => PickKeeps(s); SameOnce(s, Next(s, t), x);
    case WorkerCall(answer) => CallOnce(s, answer, x);
    case WorkerStore => StoreOnce(s, x);
    case Shutdown => SameOnce(s, Next(s, t), x);
    case WorkerExit => SameOnce(s, Next(s, t), x);
  }

  function Returned1(s: Sys, ip: string, cap: nat): (r: Sys) {
    var i := Find(s.entries, ip);
    if i < |s.entries| then Returned(s, ip, i, cap) else s
  }

  /** In every interleaving, an address reaches the resolver at most once as long as nobody asks
      for a longer address that is stored as this one. */
  lemma {:induction false} ResolvedOnce(steps: seq<Step>, states: seq<Sys>, i: nat, x: string)
    requires Runs(steps, states) && i <= |steps| && forall k | 0 <= k < |steps| :: Faithful(steps[k], x)
    ensures Once(states[i], x)
  {
    if i > 0 {
      ResolvedOnce(steps, states, i - 1, x);
      RunKeeps(steps, states, i - 1);
      assert Enabled(states[i - 1], steps[i - 1]) && states[i] == Next(states[i - 1], steps[i - 1]);
      assert Faithful(steps[i - 1], x);
      StepOnce(states[i - 1], steps[i - 1], x);
    }
  }

  ghost predicate OnceInAllRuns(x: string) {
    forall steps: seq<Step>, states: seq<Sys> | Runs(steps, states) :: AtMostOne(CallIps(states[|steps|].calls), x)
  }

  /** Whatever the callers do, an address is resolved at most once, unless it has exactly 63
      characters: such an address is resolved twice next to a longer one that begins with it. */
  lemma {:induction false} OnceIff(x: string)
    ensures OnceInAllRuns(x) <==> |x| != IP_CAP - 1
  {
    if |x| != IP_CAP - 1 {
      forall steps: seq<Step>, states: seq<Sys> | Runs(steps, states)
        ensures AtMostOne(CallIps(states[|steps|].calls), x)
      {
        ResolvedOnce(steps, states, |steps|, x);
      }
    } else {
      var steps, states := LongAddressTwice(x + "a", None, None);
      assert (x + "a")[..|x|] == x;
      var ips := CallIps(states[|steps|].calls);
      assert ips[0] == x && ips[1] == x;
    }
  }

  /** Every longer address, asked for twice, is resolved twice under the same shortened form,
      because the full address never matches what was stored. */
  lemma {:induction false} LongAddressTwice(ip: string, a: Option<string>, b: Option<string>)
    returns (steps: seq<Step>, states: seq<Sys>)
    requires |ip| >= IP_CAP
    ensures Runs(steps, states)
    ensures var s := states[|steps|]; |s.calls| == 2 && s.calls[0].ip == s.calls[1].ip == Cut(ip, IP_CAP)
  {
    var short := Cut(ip, IP_CAP);
    var e := Entry(short, "", false);
    var done := Entry(short, NameOf(a), true);
    var s1 := START.(entries := [e], pending := 1);
    var s2 := s1.(entries := [e, e], pending := 2);
    var s3 := s2.(worker := Picked(0));
    var s4 := s3.(worker := Answered(0, a), calls := [Call(short, a)]);
    var s5 := s4.(entries := [done, e], pending := 1, worker := Idle);
    var s6 := s5.(worker := Picked(1));
    var s7 := s6.(worker := Answered(1, b), calls := [Call(short, a), Call(short, b)]);
    TwoEntries(ip, e);
    steps := [Lookup(ip, 0), Lookup(ip, 0), WorkerPick, WorkerCall(a), WorkerStore, WorkerPick, WorkerCall(b)];
    states := [START, s1, s2, s3, s4, s5, s6, s7];
    assert Next(START, Lookup(ip, 0)) == s1;
    assert Next(s1, Lookup(ip, 0)) == s2;
    assert Next(s2, WorkerPick) == s3;
    assert Next(s3, WorkerCall(a)) == s4;
    SecondRound(s4, e, a, b);
    assert Next(s4, WorkerStore) == s5 && Next(s5, WorkerPick) == s6 && Next(s6, WorkerCall(b)) == s7;
  }

  lemma {:induction false} SecondRound(s: Sys, e: Entry, a: Option<string>, b: Option<string>)
    requires !e.resolved && s.entries == [e, e] && s.pending == 2 && !s.shutdown && s.worker == Answered(0, a)
    ensures var done := e.(name := NameOf(a), resolved := true);
            var s1 := s.(entries := [done, e], pending := 1, worker := Idle);
            var s2 := s1.(worker := Picked(1));
            && Next(s, WorkerStore) == s1 && Next(s1, WorkerPick) == s2
            && Next(s2, WorkerCall(b)) == s2.(worker := Answered(1, b), calls := s.calls + [Call(e.ip, b)])
  {
    var done := e.(name := NameOf(a), resolved := true);
    assert [e, e][0 := done] == [done, e];
    assert FirstPending([done, e]) == 1;
  }

  lemma TwoEntries(ip: string, e: Entry)
    requires e.ip != ip && |e.ip| < |ip|
    ensures Find([], ip) == 0 && Find([e], ip) == 1 && [] + [e] == [e] && [e] + [e] == [e, e]
  {
  }

  // ----- the critical sections in place -----

  class Cache {
    const e: array<Entry>
    var n: nat
    var pending: int

    ghost predicate Valid()
      reads this
    {
      e.Length == PTR_MAX && n <= PTR_MAX
    }

    ghost function Entries(): (es: seq<Entry>)
      requires Valid()
      reads this, e
    {
      e[..n]
    }

    constructor ()
      ensures Valid() && fresh(e) && Entries() == START.entries && pending == START.pending
    {
      e := new Entry[PTR_MAX](_ => Entry("", "", false));
      n, pending := 0, 0;
    }

    method FindIp(ip: string) returns (i: nat)
      requires Valid()
      ensures i == Find(Entries(), ip)
    {
      i := 0;
      while i < n && e[i].ip != ip
        invariant i <= n && forall j | 0 <= j < i :: Entries()[j].ip != ip
      {
        i := i + 1;
      }
    }

    /** Finds or makes the entry of an address. */
    method EnsureIp(ip: string, ghost s: Sys) returns (i: nat)
      requires Valid() && s.entries == Entries() && s.pending == pending
      modifies this, e
      ensures Valid() && Entries() == Ensure(s, ip).0.entries && pending == Ensure(s, ip).0.pending
      ensures i == Ensure(s, ip).1
    {
      i := FindIp(ip);
      if i < n || n >= PTR_MAX {
        return;
      }
      e[n] := Entry(Cut(ip, IP_CAP), "", false);
      n := n + 1;
      pending := pending + 1;
      assert Entries() == s.entries + [e[n - 1]];
    }

    /** A lookup: the name if the address is resolved, else it is scheduled. */
    method LookupIp(ip: string, cap: nat, ghost s: Sys) returns (name: Option<string>)
      requires Valid() && s.entries == Entries() && s.pending == pending
      modifies this, e
      ensures Valid() && Entries() == Next(s, Lookup(ip, cap)).entries && pending == Next(s, Lookup(ip, cap)).pending
      ensures Next(s, Lookup(ip, cap)).hits == if name.Some? then s.hits + [Hit(ip, name.value, cap)] else s.hits
    {
      var i := FindIp(ip);
      if i < n && e[i].resolved {
        return Some(Cut(e[i].name, cap));
      }
      var _ := EnsureIp(ip, s);
      return None;
    }

    /** The worker's scan for work. */
    method ScanPending() returns (i: nat)
      requires Valid()
      ensures i == FirstPending(Entries())
    {
      i := 0;
      while i < n && e[i].resolved
        invariant i <= n && forall j | 0 <= j < i :: Entries()[j].resolved
      {
        i := i + 1;
      }
    }

    /** The worker stores an answer. */
    method Store(i: nat, answer: Option<string>, ghost s: Sys)
      requires Valid() && i < n && s.entries == Entries() && s.pending == pending && s.worker == Answered(i, answer)
      modifies this, e
      ensures Valid() && Entries() == Next(s, WorkerStore).entries && pending == Next(s, WorkerStore).pending
    {
      e[i] := e[i].(name := NameOf(answer), resolved := true);
      assert Entries() == s.entries[i := e[i]];
      if pending > 0 {
        pending := pending - 1;
      }
    }
  }
}
