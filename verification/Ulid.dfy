/** Sortable identifiers: a 48-bit time and an 80-bit random part in Crockford's base 32. */
module Ulid {
  import opened Bytes
  import opened JsonTree

  const TIME_CHARS: nat := 10
  const RANDOM_CHARS: nat := 16
  const ULID_CHARS: nat := 26
  const TWO_48: nat := 0x1_0000_0000_0000
  const TWO_59: nat := 0x800_0000_0000_0000
  const TWO_64: nat := 0x1_0000_0000_0000_0000
  const TWO_80: nat := 0x1_0000_0000_0000_0000_0000

  // ----- digits -----

  /** Crockford's alphabet: no I, L, O and U. */
  function Crockford(d: nat): (c: char)
    requires d < 32
  {
    if d < 10 then ('0' as int + d) as char
    else if d < 18 then ('A' as int + d - 10) as char
    else if d < 20 then ('J' as int + d - 18) as char
    else if d < 22 then ('M' as int + d - 20) as char
    else if d < 27 then ('P' as int + d - 22) as char
    else ('V' as int + d - 27) as char
  }

  lemma AlphabetOrdered(a: nat, b: nat)
    requires a < 32 && b < 32
    ensures Crockford(a) < Crockford(b) <==> a < b
    ensures Crockford(a) == Crockford(b) <==> a == b
  {
  }

  function Pow32(n: nat): (p: nat)
    ensures p > 0
  {
    if n == 0 then 1 else 32 * Pow32(n - 1)
  }

  /** The last `n` base-32 digits of a number. */
  function Digits32(v: nat, n: nat): (s: string)
    ensures |s| == n
  {
    if n == 0 then "" else Digits32(v / 32, n - 1) + [Crockford(v % 32)]
  }

  /** Order of strings by their first difference, as `strcmp` has it. */
  predicate Less(a: string, b: string)
    requires |a| == |b|
  {
    |a| > 0 && (a[0] < b[0] || (a[0] == b[0] && Less(a[1..], b[1..])))
  }

  lemma {:induction false} LessAppend(a: string, b: string, c: string, d: string)
    requires |a| == |b| && |c| == |d|
    ensures Less(a + c, b + d) <==> Less(a, b) || (a == b && Less(c, d))
  {
    if |a| == 0 {
      assert a + c == c && b + d == d;
    } else {
      LessAppend(a[1..], b[1..], c, d);
      assert (a + c)[1..] == a[1..] + c && (b + d)[1..] == b[1..] + d;
      assert a == [a[0]] + a[1..] && b == [b[0]] + b[1..];
    }
  }

  lemma {:induction false} DigitsInjective(a: nat, b: nat, n: nat)
    requires a < Pow32(n) && b < Pow32(n)
    ensures Digits32(a, n) == Digits32(b, n) <==> a == b
  {
    if n > 0 {
      var x, y := Digits32(a, n), Digits32(b, n);
      DigitsInjective(a / 32, b / 32, n - 1);
      AlphabetOrdered(a % 32, b % 32);
      if x == y {
        assert x[..n - 1] == Digits32(a / 32, n - 1) && y[..n - 1] == Digits32(b / 32, n - 1);
        assert x[n - 1] == Crockford(a % 32) && y[n - 1] == Crockford(b % 32);
      }
    }
  }

  lemma LessOne(c: char, d: char)
    ensures Less([c], [d]) <==> c < d
  {
  }

  /** Fixed-width digit strings sort as the numbers do. */
  lemma {:induction false} DigitsOrdered(a: nat, b: nat, n: nat)
    requires a < Pow32(n) && b < Pow32(n)
    ensures Less(Digits32(a, n), Digits32(b, n)) <==> a < b
  {
    if n > 0 {
      DigitsOrdered(a / 32, b / 32, n - 1);
      DigitsInjective(a / 32, b / 32, n - 1);
      AlphabetOrdered(a % 32, b % 32);
      LessAppend(Digits32(a / 32, n - 1), Digits32(b / 32, n - 1), [Crockford(a % 32)], [Crockford(b % 32)]);
      LessOne(Crockford(a % 32), Crockford(b % 32));
    }
  }

  // ----- identifiers -----

  function Encode(ms: nat, random: nat): (s: string)
    ensures |s| == ULID_CHARS
  {
    Digits32(ms % TWO_48, TIME_CHARS) + Digits32(random, RANDOM_CHARS)
  }

  lemma {:induction false} Widths()
    ensures TWO_48 <= Pow32(TIME_CHARS) && TWO_80 == Pow32(RANDOM_CHARS) && TWO_80 == Pow256(10)
  {
    assert Pow32(4) == 32 * Pow32(3) == 1024 * Pow32(2) == 0x10_0000;
    assert Pow32(8) == 1024 * Pow32(6) == 0x10_0000 * Pow32(4);
    assert Pow32(10) == 1024 * Pow32(8);
    assert Pow32(12) == 0x400 * Pow32(10);
    assert Pow32(16) == 0x10_0000 * Pow32(12);
    assert Pow256(4) == 0x1_0000 * Pow256(2) == 0x1_0000_0000;
    assert Pow256(6) == 0x1_0000 * Pow256(4);
    assert Pow256(8) == 0x1_0000 * Pow256(6);
    assert Pow256(10) == 0x1_0000 * Pow256(8);
  }

  lemma {:induction false} PairsOrdered(a: nat, b: nat, a1: nat, b1: nat, n: nat, m: nat)
    requires a < Pow32(n) && a1 < Pow32(n) && b < Pow32(m) && b1 < Pow32(m)
    ensures Less(Digits32(a, n) + Digits32(b, m), Digits32(a1, n) + Digits32(b1, m)) <==> a < a1 || (a == a1 && b < b1)
  {
    DigitsOrdered(a, a1, n);
    DigitsInjective(a, a1, n);
    DigitsOrdered(b, b1, m);
    LessAppend(Digits32(a, n), Digits32(a1, n), Digits32(b, m), Digits32(b1, m));
  }

  /** Identifiers sort by time, then by their random part. */
  lemma {:induction false} UlidOrder(ms: nat, r: nat, ms1: nat, r1: nat)
    requires ms < TWO_48 && ms1 < TWO_48 && r < TWO_80 && r1 < TWO_80
    ensures Less(Encode(ms, r), Encode(ms1, r1)) <==> ms < ms1 || (ms == ms1 && r < r1)
  {
    Widths();
    assert ms % TWO_48 == ms && ms1 % TWO_48 == ms1;
    PairsOrdered(ms, r, ms1, r1, TIME_CHARS, RANDOM_CHARS);
  }

  // ----- the generator -----

  /** The last time and the last random part. */
  datatype State = State(lastMs: nat, last: nat)

  /** One call: the random part is drawn, unless the millisecond is the same as last time. */
  function Draw(s: State, ms: nat, drawn: nat): (r: State)
    requires s.last < TWO_80 && drawn < TWO_80
    ensures r.lastMs == ms && r.last < TWO_80
  {
    State(ms, if ms == s.lastMs then Wrapped(s.last, TWO_80) else drawn)
  }

  datatype Tick = Tick(ms: nat, drawn: nat)

  predicate TicksOk(ts: seq<Tick>) {
    && (forall i | 0 <= i < |ts| :: ts[i].ms < TWO_48 && ts[i].drawn < TWO_80)
    && (forall i, j | 0 <= i < j < |ts| :: ts[i].ms <= ts[j].ms)
  }

  function After(s: State, ts: seq<Tick>): (r: State)
    requires s.last < TWO_80 && forall i | 0 <= i < |ts| :: ts[i].drawn < TWO_80
    ensures r.last < TWO_80 && (|ts| > 0 ==> r.lastMs == ts[|ts| - 1].ms)
  {
    if |ts| == 0 then s else Draw(After(s, ts[..|ts| - 1]), ts[|ts| - 1].ms, ts[|ts| - 1].drawn)
  }

  /** The identifier of a call in a run. */
  function IdOf(s: State, ts: seq<Tick>, i: nat): (id: string)
    requires s.last < TWO_80 && TicksOk(ts) && i < |ts|
    ensures |id| == ULID_CHARS
  {
    Encode(ts[i].ms, After(s, ts[..i + 1]).last)
  }

  /** The counter of a millisecond overflows at a call. */
  predicate WrapsAt(s: State, ts: seq<Tick>, i: nat)
    requires s.last < TWO_80 && TicksOk(ts) && 0 < i < |ts|
  {
    ts[i].ms == ts[i - 1].ms && After(s, ts[..i]).last == TWO_80 - 1
  }

  lemma {:induction false} AfterStep(s: State, ts: seq<Tick>, i: nat)
    requires s.last < TWO_80 && TicksOk(ts) && i < |ts|
    ensures After(s, ts[..i + 1]) == Draw(After(s, ts[..i]), ts[i].ms, ts[i].drawn)
    ensures i > 0 ==> After(s, ts[..i]).lastMs == ts[i - 1].ms
  {
    assert ts[..i + 1][..i] == ts[..i];
  }

  /** Consecutive identifiers, under a clock that does not go back, increase exactly when the
      counter does not overflow. */
  lemma {:induction false} NextGreater(s: State, ts: seq<Tick>, i: nat)
    requires s.last < TWO_80 && TicksOk(ts) && 0 < i < |ts|
    ensures Less(IdOf(s, ts, i - 1), IdOf(s, ts, i)) <==> !WrapsAt(s, ts, i)
  {
    AfterStep(s, ts, i);
    AfterStep(s, ts, i - 1);
    UlidOrder(ts[i - 1].ms, After(s, ts[..i]).last, ts[i].ms, After(s, ts[..i + 1]).last);
  }

  lemma {:induction false} LessTransitive(a: string, b: string, c: string)
    requires |a| == |b| == |c| && Less(a, b) && Less(b, c)
    ensures Less(a, c)
  {
    if a[0] == b[0] == c[0] {
      LessTransitive(a[1..], b[1..], c[1..]);
    }
  }

  /** All identifiers of a run increase, if no counter overflows. */
  lemma {:induction false} Increasing(s: State, ts: seq<Tick>, i: nat, j: nat)
    requires s.last < TWO_80 && TicksOk(ts) && i < j < |ts|
    requires forall k | i < k <= j :: !WrapsAt(s, ts, k)
    ensures Less(IdOf(s, ts, i), IdOf(s, ts, j))
    decreases j
  {
    NextGreater(s, ts, j);
    if i < j - 1 {
      Increasing(s, ts, i, j - 1);
      LessTransitive(IdOf(s, ts, i), IdOf(s, ts, j - 1), IdOf(s, ts, j));
    }
  }

  // ----- in place -----

  function Incremented(r: seq<byte>): (n: seq<byte>)
    ensures |n| == |r|
  {
    if |r| == 0 then []
    else if r[|r| - 1] == 255 then Incremented(r[..|r| - 1]) + [0]
    else r[..|r| - 1] + [r[|r| - 1] + 1]
  }

  /** One more, and zero after the largest. */
  function Wrapped(v: nat, size: nat): (r: nat) {
    if v + 1 == size then 0 else v + 1
  }

  /** The counter adds one, modulo its size. */
  lemma {:induction false} IncrementedValue(r: seq<byte>)
    ensures Number(Incremented(r)) == Wrapped(Number(r), Pow256(|r|))
  {
    if |r| > 0 {
      var n := |r| - 1;
      if r[n] == 255 {
        IncrementedValue(r[..n]);
        assert Incremented(r)[..n] == Incremented(r[..n]);
      } else {
        assert Incremented(r)[..n] == r[..n];
      }
    }
  }

  /** The increment loop, from the last byte on. */
  method Inc80(r: array<byte>)
    requires r.Length == 10
    modifies r
    ensures r[..] == Incremented(old(r[..]))
  {
    var i := 10;
    assert r[..10] == r[..] && Incremented(r[..]) + r[10..] == Incremented(r[..]);
    while i > 0
      invariant 0 <= i <= 10
      invariant forall k | 0 <= k < i :: r[k] == old(r[k])
      invariant r[..] == old(r[..i]) + r[i..]
      invariant Incremented(old(r[..])) == Incremented(old(r[..i])) + r[i..]
    {
      i := i - 1;
      assert old(r[..i + 1])[..i] == old(r[..i]);
      if r[i] != 255 {
        r[i] := r[i] + 1;
        return;
      }
      r[i] := 0;
    }
  }

  /** The digits of the time, written from the back. */
  method WriteTime(buf: array<char>, ms: nat)
    requires buf.Length >= TIME_CHARS
    modifies buf
    ensures buf[..TIME_CHARS] == Digits32(ms % TWO_48, TIME_CHARS)
    ensures buf[TIME_CHARS..] == old(buf[TIME_CHARS..])
  {
    var t: nat, i := ms % TWO_48, TIME_CHARS;
    ghost var all := Digits32(t, TIME_CHARS);
    assert all + buf[TIME_CHARS..TIME_CHARS] == all;
    while i > 0
      invariant 0 <= i <= TIME_CHARS
      invariant all == Digits32(t, i) + buf[i..TIME_CHARS]
      invariant buf[TIME_CHARS..] == old(buf[TIME_CHARS..])
    {
      i := i - 1;
      ghost var tail := buf[i + 1..TIME_CHARS];
      buf[i] := Crockford(t % 32);
      assert buf[i..TIME_CHARS] == [Crockford(t % 32)] + tail;
      assert all == Digits32(t / 32, i) + ([Crockford(t % 32)] + tail);
      t := t / 32;
    }
    assert all == buf[0..TIME_CHARS];
  }

  lemma {:induction false} NumberAppend(a: seq<byte>, b: seq<byte>)
    ensures Number(a + b) == Number(a) * Pow256(|b|) + Number(b)
  {
    if |b| == 0 {
      assert a + b == a;
    } else {
      var n := |b| - 1;
      NumberAppend(a, b[..n]);
      assert (a + b)[..|a| + n] == a + b[..n] && (a + b)[|a| + n] == b[n];
      Recombine(Number(a), Pow256(n), Number(b[..n]), b[n]);
    }
  }

  lemma Recombine(v: nat, p: nat, y: nat, c: nat)
    ensures 256 * (v * p + y) + c == v * (256 * p) + (256 * y + c)
  {
  }

  /** The two halves of the random part make the whole number. */
  lemma {:induction false} Halves(r: seq<byte>)
    requires |r| == 10
    ensures Number(r) == Number(r[..2]) * TWO_64 + Number(r[2..])
    ensures Number(r[..2]) == 256 * (r[0] as int) + r[1] as int && Number(r[2..]) < TWO_64
  {
    NumberAppend(r[..2], r[2..]);
    assert r[..2] + r[2..] == r;
    assert Pow256(8) == 0x1_0000 * Pow256(6) == 0x1_0000_0000 * Pow256(4) == TWO_64;
    assert r[..2][..1][..0] == [] && r[..2][..1] == [r[0]];
    assert Number([r[0]]) == r[0] as int by {
      assert [r[0]][..0] == [];
    }
  }

  /** Shifting five bits out of the low half, with the carry from the high half, divides the
      whole number by 32. (The carry is or-ed into bits that the shift has cleared.) */
  lemma {:induction false} ShiftDivides(hi: nat, lo: nat)
    requires lo < TWO_64
    ensures var v, lo1 := hi * TWO_64 + lo, lo / 32 + hi % 32 * TWO_59;
            v % 32 == lo % 32 && v / 32 == hi / 32 * TWO_64 + lo1 && lo1 < TWO_64
  {
    var q, c, low, d := hi / 32, hi % 32, lo / 32, lo % 32;
    assert hi == 32 * q + c && lo == 32 * low + d;
    assert hi * TWO_64 == 32 * (q * TWO_64) + c * TWO_64;
    assert c * TWO_64 == 32 * (c * TWO_59);
    Quotient(hi * TWO_64 + lo, q * TWO_64 + c * TWO_59 + low, d);
  }

  lemma Quotient(x: nat, q: nat, d: nat)
    requires x == 32 * q + d && d < 32
    ensures x / 32 == q && x % 32 == d
  {
  }

  /** The digits of the random part: the two-word shifting loop. */
  method WriteRandom(buf: array<char>, r: seq<byte>)
    requires buf.Length >= ULID_CHARS && |r| == 10
    modifies buf
    ensures buf[TIME_CHARS..ULID_CHARS] == Digits32(Number(r), RANDOM_CHARS)
    ensures buf[..TIME_CHARS] == old(buf[..TIME_CHARS])
  {
    var lo := LowHalf(r);
    var hi := 256 * (r[0] as int) + r[1] as int;
    Halves(r);
    ghost var all := Digits32(Number(r), RANDOM_CHARS);
    ghost var v: nat := Number(r);
    var i := RANDOM_CHARS;
    assert all + buf[ULID_CHARS..ULID_CHARS] == all;
    while i > 0
      invariant 0 <= i <= RANDOM_CHARS && 0 <= lo < TWO_64 && 0 <= hi && v == hi * TWO_64 + lo
      invariant all == Digits32(v, i) + buf[TIME_CHARS + i..ULID_CHARS]
      invariant buf[..TIME_CHARS] == old(buf[..TIME_CHARS])
    {
      i := i - 1;
      ghost var tail := buf[TIME_CHARS + i + 1..ULID_CHARS];
      ShiftDivides(hi, lo);
      var five, carry := lo % 32, hi % 32;
      lo, hi := lo / 32 + carry * TWO_59, hi / 32;
      buf[TIME_CHARS + i] := Crockford(five);
      OneDigit(v, i, buf[TIME_CHARS + i..ULID_CHARS], tail);
      v := v / 32;
    }
    assert all == "" + buf[TIME_CHARS..ULID_CHARS];
  }

  lemma {:induction false} OneDigit(v: nat, i: nat, after: string, tail: string)
    requires |after| > 0 && after[0] == Crockford(v % 32) && after[1..] == tail
    ensures Digits32(v, i + 1) + tail == Digits32(v / 32, i) + after
  {
    assert after == [Crockford(v % 32)] + tail;
  }

  method LowHalf(r: seq<byte>) returns (lo: nat)
    requires |r| == 10
    ensures lo == Number(r[2..])
  {
    lo := 0;
    for i := 2 to 10
      invariant lo == Number(r[2..i])
    {
      assert r[2..i + 1][..i - 2] == r[2..i];
      lo := 256 * lo + r[i] as int;
    }
    assert r[2..10] == r[2..];
  }

  /** The random part read from the system, if it could be read. */
  ghost function Drawn(d: Option<seq<byte>>): (v: nat)
    requires d.Some? ==> |d.value| == 10
    ensures v < TWO_80
  {
    Widths();
    if d.None? then 0 else Number(d.value)
  }

  class Generator {
    var lastMs: nat
    const lastRand: array<byte>

    ghost predicate Valid() {
      lastRand.Length == 10
    }

    ghost function View(): (s: State)
      requires Valid()
      reads this, lastRand
      ensures s.last < TWO_80
    {
      Widths();
      State(lastMs, Number(lastRand[..]))
    }

    constructor ()
      ensures Valid() && fresh(lastRand) && lastMs == 0
    {
      lastMs := 0;
      lastRand := new byte[10](_ => 0);
    }

    /** A new identifier: the state of the semantics, and its encoding in the buffer. */
    method New(ms: nat, drawn: Option<seq<byte>>, buf: array<char>) returns (ok: bool)
      requires Valid() && (drawn.Some? ==> |drawn.value| == 10)
      modifies this, lastRand, buf
      ensures Valid() && ok == (buf.Length >= ULID_CHARS + 1 && (ms == old(lastMs) || drawn.Some?))
      ensures !ok ==> View() == old(View())
      ensures ok ==> View() == Draw(old(View()), ms, Drawn(drawn))
      ensures ok ==> buf[..ULID_CHARS] == Encode(ms, View().last) && buf[ULID_CHARS] == '\0'
    {
      if buf.Length < ULID_CHARS + 1 {
        return false;
      }
      if ms == lastMs {
        IncrementedValue(lastRand[..]);
        Widths();
        Inc80(lastRand);
      } else {
        if drawn.None? {
          return false;
        }
        forall i | 0 <= i < 10 {
          lastRand[i] := drawn.value[i];
        }
        assert lastRand[..] == drawn.value;
      }
      lastMs := ms;
      Write(buf, ms);
      return true;
    }

    method Write(buf: array<char>, ms: nat)
      requires Valid() && buf.Length >= ULID_CHARS + 1
      modifies buf
      ensures buf[..ULID_CHARS] == Encode(ms, Number(lastRand[..])) && buf[ULID_CHARS] == '\0'
    {
      WriteTime(buf, ms);
      WriteRandom(buf, lastRand[..]);
      buf[ULID_CHARS] := '\0';
      assert buf[..ULID_CHARS] == buf[..TIME_CHARS] + buf[TIME_CHARS..ULID_CHARS];
    }
  }
}
