/** Framing on the local socket: the encoder and the byte-at-a-time reader.

    A frame is a channel name and a payload, each preceded by its length in four little-endian
    bytes. */
module FrameCodec {
  import opened Bytes

  const MAX_CHANNEL: nat := 128
  const MAX_PAYLOAD: nat := 256 * 1024
  const TWO_32: nat := 0x1_0000_0000

  datatype Frame = Frame(channel: seq<byte>, payload: seq<byte>)

  // ----- lengths -----

  function Le32(n: nat): (r: seq<byte>)
    requires n < TWO_32
    ensures |r| == 4
  {
    [n % 256, n / 256 % 256, n / 65536 % 256, n / 16777216]
  }

  function Value(b: seq<byte>): (n: nat)
    requires |b| == 4
    ensures n < TWO_32
  {
    b[0] as int + 256 * (b[1] as int) + 65536 * (b[2] as int) + 16777216 * (b[3] as int)
  }

  lemma {:induction false} ValueOfLe(n: nat)
    requires n < TWO_32
    ensures Value(Le32(n)) == n
  {
    assert n == n % 256 + 256 * (n / 256);
    assert n / 256 == n / 256 % 256 + 256 * (n / 65536);
    assert n / 65536 == n / 65536 % 256 + 256 * (n / 16777216);
  }

  lemma {:induction false} LeOfValue(b: seq<byte>)
    requires |b| == 4
    ensures Le32(Value(b)) == b
  {
    var n := Value(b);
    assert n / 256 == b[1] as int + 256 * (b[2] as int) + 65536 * (b[3] as int);
    assert n / 65536 == b[2] as int + 256 * (b[3] as int);
    assert n / 16777216 == b[3];
  }

  // ----- frames as bytes -----

  function Encode(f: Frame): (r: seq<byte>)
    requires |f.channel| < TWO_32 && |f.payload| < TWO_32
    ensures |r| == 8 + |f.channel| + |f.payload|
  {
    Le32(|f.channel|) + f.channel + Le32(|f.payload|) + f.payload
  }

  predicate Acceptable(f: Frame) {
    0 < |f.channel| < MAX_CHANNEL && |f.payload| <= MAX_PAYLOAD
  }

  function EncodeAll(fs: seq<Frame>): (r: seq<byte>)
    requires forall i | 0 <= i < |fs| :: Acceptable(fs[i])
  {
    if |fs| == 0 then []
    else
      assert Acceptable(fs[0]);
      Encode(fs[0]) + EncodeAll(fs[1..])
  }

  // ----- reading, seen from the bytes -----

  datatype Verdict = More | Ready(frame: Frame) | Bad

  /** What the bytes of a frame received so far amount to. */
  function Judge(q: seq<byte>): (v: Verdict) {
    if |q| < 4 then More
    else
      var n := Value(q[..4]);
      if n == 0 || n >= MAX_CHANNEL then Bad
      else if |q| < 8 + n then More
      else
        var m := Value(q[4 + n..8 + n]);
        if m > MAX_PAYLOAD then Bad
        else if |q| < 8 + n + m then More
        else Ready(Frame(q[4..4 + n], q[8 + n..8 + n + m]))
  }

  /** Bytes fed one by one: the frames and the bytes of the last, unfinished one. */
  function Feeds(pending: seq<byte>, bytes: seq<byte>): (r: (seq<Frame>, seq<byte>, bool))
    decreases |bytes|
  {
    if |bytes| == 0 then ([], pending, true)
    else
      match Judge(pending + [bytes[0]])
      case Bad => ([], pending, false)
      case More => Feeds(pending + [bytes[0]], bytes[1..])
      case Ready(f) =>
        var (fs, left, ok) := Feeds([], bytes[1..]);
        ([f] + fs, left, ok)
  }

  // ----- the reader inverts the encoder -----

  lemma EncodeParts(f: Frame)
    requires Acceptable(f)
    ensures var e, n, m := Encode(f), |f.channel|, |f.payload|;
            && e[..4] == Le32(n) && e[4..4 + n] == f.channel
            && e[4 + n..8 + n] == Le32(m) && e[8 + n..8 + n + m] == f.payload
  {
  }

  /** Until its last byte, an encoded frame calls for more; with it, it is that frame. */
  lemma {:induction false} JudgePrefix(f: Frame, k: nat)
    requires Acceptable(f) && k <= |Encode(f)|
    ensures Judge(Encode(f)[..k]) == if k < |Encode(f)| then More else Ready(f)
  {
    var e, n, m := Encode(f), |f.channel|, |f.payload|;
    var q := e[..k];
    EncodeParts(f);
    ValueOfLe(n);
    ValueOfLe(m);
    if k >= 4 {
      assert q[..4] == e[..4];
      if k >= 8 + n {
        assert q[4 + n..8 + n] == e[4 + n..8 + n];
        if k == |e| {
          assert q == e;
        }
      }
    }
  }

  lemma NextByte(e: seq<byte>, k: nat, rest: seq<byte>)
    requires k < |e|
    ensures e[..k] + [(e[k..] + rest)[0]] == e[..k + 1] && (e[k..] + rest)[1..] == e[k + 1..] + rest
  {
  }

  lemma {:induction false} FeedsFrame(f: Frame, k: nat, rest: seq<byte>)
    requires Acceptable(f) && k < |Encode(f)|
    ensures var (fs, left, ok) := Feeds([], rest);
            Feeds(Encode(f)[..k], Encode(f)[k..] + rest) == ([f] + fs, left, ok)
    decreases |Encode(f)| - k
  {
    var e := Encode(f);
    var bytes := e[k..] + rest;
    NextByte(e, k, rest);
    JudgePrefix(f, k + 1);
    if k + 1 < |e| {
      FeedsFrame(f, k + 1, rest);
    } else {
      assert e[k + 1..] + rest == rest;
    }
  }

  /** Feeding any concatenation of encoded frames yields exactly those frames, in order, and
      leaves nothing over. */
  lemma {:induction false} ReaderInvertsEncoder(fs: seq<Frame>)
    requires forall i | 0 <= i < |fs| :: Acceptable(fs[i])
    ensures Feeds([], EncodeAll(fs)) == (fs, [], true)
  {
    if |fs| > 0 {
      var rest := EncodeAll(fs[1..]);
      ReaderInvertsEncoder(fs[1..]);
      FeedsFrame(fs[0], 0, rest);
      assert Encode(fs[0])[..0] == [] && Encode(fs[0])[0..] == Encode(fs[0]);
      assert [fs[0]] + fs[1..] == fs;
    }
  }

  /** Bytes that can be the beginning of a frame. */
  predicate Partial(q: seq<byte>) {
    Judge(q).More?
  }

  lemma FourParts(q: seq<byte>, i: nat, j: nat, k: nat)
    requires i <= j <= k <= |q|
    ensures q == q[..i] + q[i..j] + q[j..k] + q[k..]
  {
  }

  /** A frame is ready at its last byte and not later. */
  lemma {:induction false} ReadyLength(q: seq<byte>)
    requires |q| > 0 && Partial(q[..|q| - 1]) && Judge(q).Ready?
    ensures |q| >= 4 && |q| >= 8 + Value(q[..4])
    ensures var n := Value(q[..4]); |q| == 8 + n + Value(q[4 + n..8 + n])
  {
    var p, n := q[..|q| - 1], Value(q[..4]);
    if |p| >= 8 + n {
      assert p[..4] == q[..4] && p[4 + n..8 + n] == q[4 + n..8 + n];
    }
  }

  lemma {:induction false} ReadyIsEncoded(q: seq<byte>)
    requires |q| > 0 && Partial(q[..|q| - 1]) && Judge(q).Ready?
    ensures Acceptable(Judge(q).frame) && Encode(Judge(q).frame) == q
  {
    ReadyLength(q);
    var n := Value(q[..4]);
    LeOfValue(q[..4]);
    LeOfValue(q[4 + n..8 + n]);
    FourParts(q, 4, 4 + n, 8 + n);
  }

  /** Conversely, all bytes accepted without an error are the encodings of the frames
      delivered, followed by the beginning of another. */
  lemma {:induction false} OnlyEncodingsAccepted(pending: seq<byte>, bytes: seq<byte>)
    requires Partial(pending) && Feeds(pending, bytes).2
    ensures var (fs, left, _) := Feeds(pending, bytes);
            && (forall i | 0 <= i < |fs| :: Acceptable(fs[i]))
            && Partial(left) && pending + bytes == EncodeAll(fs) + left
    decreases |bytes|
  {
    if |bytes| > 0 {
      var q := pending + [bytes[0]];
      assert q[..|q| - 1] == pending;
      assert pending + bytes == q + bytes[1..];
      match Judge(q)
      case More => OnlyEncodingsAccepted(q, bytes[1..]);
      case Ready(f) =>
        ReadyIsEncoded(q);
        OnlyEncodingsAccepted([], bytes[1..]);
        var (fs, left, _) := Feeds([], bytes[1..]);
        Delivered(f, fs, left, bytes[1..]);
    } else {
      assert pending + bytes == [] + pending;
    }
  }

  lemma {:induction false} Delivered(f: Frame, fs: seq<Frame>, left: seq<byte>, rest: seq<byte>)
    requires Acceptable(f) && (forall i | 0 <= i < |fs| :: Acceptable(fs[i]))
    requires [] + rest == EncodeAll(fs) + left
    ensures forall i | 0 <= i < |[f] + fs| :: Acceptable(([f] + fs)[i])
    ensures Encode(f) + rest == EncodeAll([f] + fs) + left
  {
    assert ([f] + fs)[1..] == fs;
    assert [] + rest == rest;
    assert Encode(f) + (EncodeAll(fs) + left) == Encode(f) + EncodeAll(fs) + left;
  }

  /** What the bytes after the channel name amount to. */
  function JudgeBody(name: seq<byte>, body: seq<byte>): (v: Verdict) {
    if |body| < 4 then More
    else
      var m := Value(body[..4]);
      if m > MAX_PAYLOAD then Bad
      else if |body| < 4 + m then More
      else Ready(Frame(name, body[4..4 + m]))
  }

  lemma {:induction false} JudgeNamed(name: seq<byte>, body: seq<byte>)
    requires 0 < |name| < MAX_CHANNEL
    ensures Judge(Le32(|name|) + name + body) == JudgeBody(name, body)
  {
    var n := |name|;
    var q := Le32(n) + name + body;
    ValueOfLe(n);
    assert q[..4] == Le32(n);
    if |body| >= 4 {
      assert q[4 + n..8 + n] == body[..4];
      var m := Value(body[..4]);
      if |body| >= 4 + m {
        assert q[4..4 + n] == name && q[8 + n..8 + n + m] == body[4..4 + m];
      }
    }
  }

  /** The verdict on a payload length. */
  lemma {:induction false} LengthVerdict(name: seq<byte>, body: seq<byte>)
    requires |body| <= 4
    ensures JudgeBody(name, body) ==
            if |body| < 4 then More
            else if Value(body) > MAX_PAYLOAD then Bad
            else if Value(body) > 0 then More
            else Ready(Frame(name, []))
  {
    if |body| == 4 {
      assert body[..4] == body;
    }
  }

  lemma {:induction false} JudgePaid(name: seq<byte>, payload: seq<byte>, len: nat)
    requires 0 < |name| < MAX_CHANNEL && |payload| <= len <= MAX_PAYLOAD
    ensures Judge(Le32(|name|) + name + (Le32(len) + payload))
         == if |payload| < len then More else Ready(Frame(name, payload))
  {
    var body := Le32(len) + payload;
    JudgeNamed(name, body);
    ValueOfLe(len);
    assert body[..4] == Le32(len);
    if |payload| == len {
      assert body[4..4 + len] == payload;
    }
  }

  lemma Appended(name: seq<byte>, len: seq<byte>, got: seq<byte>, b: byte)
    ensures name + (len + got) + [b] == name + (len + (got + [b]))
  {
  }

  /** One byte of a stream of which the frames so far are known. */
  lemma {:induction false} FeedsStep(pending: seq<byte>, bytes: seq<byte>, i: nat, fs: seq<Frame>)
    requires i < |bytes|
    ensures var (rest, left, good) := Feeds(pending, bytes[i..]);
            match Judge(pending + [bytes[i]])
            case Bad => rest == [] && !good
            case More => Feeds(pending + [bytes[i]], bytes[i + 1..]) == (rest, left, good)
            case Ready(f) =>
              var (rest1, left1, good1) := Feeds([], bytes[i + 1..]);
              fs + rest == fs + [f] + rest1 && left1 == left && good1 == good
  {
    assert bytes[i..][0] == bytes[i] && bytes[i..][1..] == bytes[i + 1..];
    if Judge(pending + [bytes[i]]).Ready? {
      var f, rest1 := Judge(pending + [bytes[i]]).frame, Feeds([], bytes[i + 1..]).0;
      assert fs + ([f] + rest1) == fs + [f] + rest1;
    }
  }

  // ----- the encoder -----

  /** Appends to what was written so far; the rest of the buffer stays. */
  method PutBytes(buf: array<byte>, bytes: seq<byte>, off: nat, ghost done: seq<byte>, ghost before: seq<byte>)
    requires off == |done| && |before| == buf.Length && off + |bytes| <= buf.Length
    requires buf[..] == done + before[off..]
    modifies buf
    ensures buf[..] == (done + bytes) + before[off + |bytes|..]
  {
    for i := 0 to |bytes|
      invariant buf[..] == (done + bytes[..i]) + before[off + i..]
    {
      buf[off + i] := bytes[i];
    }
    assert bytes[..|bytes|] == bytes;
  }

  /** A length and that many bytes. */
  method PutSized(buf: array<byte>, bytes: seq<byte>, off: nat, ghost done: seq<byte>, ghost before: seq<byte>)
    requires off == |done| && |before| == buf.Length && off + 4 + |bytes| <= buf.Length && |bytes| < TWO_32
    requires buf[..] == done + before[off..]
    modifies buf
    ensures buf[..] == (done + Le32(|bytes|) + bytes) + before[off + 4 + |bytes|..]
  {
    var n := Le32(|bytes|);
    PutBytes(buf, n, off, done, before);
    PutBytes(buf, bytes, off + 4, done + n, before);
  }

  /** A frame is written whole, or the buffer is too small and left alone. */
  method EncodeFrame(buf: array<byte>, f: Frame) returns (n: int)
    requires |f.channel| < TWO_32 && |f.payload| < TWO_32
    modifies buf
    ensures n == if |Encode(f)| <= buf.Length then |Encode(f)| else -1
    ensures buf[..] == if n >= 0 then Encode(f) + old(buf[..])[n..] else old(buf[..])
  {
    var total := 4 + |f.channel| + 4 + |f.payload|;
    if total > buf.Length {
      return -1;
    }
    ghost var before := buf[..];
    assert [] + before[0..] == before;
    PutSized(buf, f.channel, 0, [], before);
    ghost var named := Le32(|f.channel|) + f.channel;
    assert [] + Le32(|f.channel|) + f.channel == named;
    PutSized(buf, f.payload, 4 + |f.channel|, named, before);
    return total;
  }

  // ----- the reader -----

  datatype State = ChLen | ChData | PlLen | PlData

  class FrameReader {
    var state: State
    const lenBuf: array<byte>
    var lenPos: nat
    const channel: array<byte>
    var channelLen: nat
    var channelPos: nat
    var payload: array?<byte>
    var payloadLen: nat
    var payloadPos: nat
    var payloadCap: nat

    ghost predicate Valid()
      reads this, channel
    {
      && lenBuf.Length == 4 && channel.Length == MAX_CHANNEL && lenBuf != channel
      && payload != lenBuf && payload != channel
      && lenPos < 4 && payloadCap <= MAX_PAYLOAD
      && (if payload == null then payloadCap == 0 else payload.Length == payloadCap + 1)
      && (state.ChLen? || 0 < channelLen < MAX_CHANNEL)
      && (state.PlLen? || state.PlData? ==> channel[channelLen] == 0)
      && (state.ChData? ==> channelPos < channelLen)
      && (state.PlData? ==> payloadPos < payloadLen <= payloadCap)
    }

    /** The bytes received of the frame that is not complete yet. */
    ghost function Pending(): (q: seq<byte>)
      requires Valid()
      reads this, lenBuf, channel, payload
    {
      match state
      case ChLen => lenBuf[..lenPos]
      case ChData => Le32(channelLen) + channel[..channelPos]
      case PlLen => Le32(channelLen) + channel[..channelLen] + lenBuf[..lenPos]
      case PlData => Le32(channelLen) + channel[..channelLen] + (Le32(payloadLen) + payload[..payloadPos])
    }

    /** The frame in the buffers, each with its terminator. */
    ghost predicate Holds(f: Frame)
      requires Valid()
      reads this, channel, payload
    {
      && channelLen == |f.channel| < MAX_CHANNEL && channel[..channelLen] == f.channel && channel[channelLen] == 0
      && payloadLen == |f.payload| <= payloadCap
      && (if payload == null then payloadLen == 0
          else payload[..payloadLen] == f.payload && payload[payloadLen] == 0)
    }

    constructor ()
      ensures Valid() && fresh(lenBuf) && fresh(channel) && payload == null && Pending() == []
    {
      state := ChLen;
      lenBuf := new byte[4](_ => 0);
      lenPos := 0;
      channel := new byte[MAX_CHANNEL](_ => 0);
      channelLen, channelPos, payload := 0, 0, null;
      payloadLen, payloadPos, payloadCap := 0, 0, 0;
    }

    method FeedChannelLength(b: byte) returns (v: Verdict)
      requires Valid() && state.ChLen?
      modifies this, lenBuf
      ensures Valid() && payload == old(payload) && payloadCap == old(payloadCap)
      ensures v == Judge(old(Pending()) + [b]) && !v.Ready?
      ensures Pending() == if v.Bad? then [] else old(Pending()) + [b]
    {
      ghost var q := Pending() + [b];
      lenBuf[lenPos] := b;
      lenPos := lenPos + 1;
      assert lenBuf[..lenPos] == q;
      if lenPos == 4 {
        channelLen := Value(lenBuf[..]);
        LeOfValue(lenBuf[..]);
        lenPos := 0;
        if channelLen == 0 || channelLen >= MAX_CHANNEL {
          return Bad;
        }
        channelPos := 0;
        state := ChData;
      }
      return More;
    }

    method FeedChannel(b: byte) returns (v: Verdict)
      requires Valid() && state.ChData?
      modifies this, channel
      ensures Valid() && payload == old(payload) && payloadCap == old(payloadCap)
      ensures v == More == Judge(old(Pending()) + [b])
      ensures Pending() == old(Pending()) + [b]
    {
      ghost var q := Pending() + [b];
      ValueOfLe(channelLen);
      assert q[..4] == Le32(channelLen);
      channel[channelPos] := b;
      channelPos := channelPos + 1;
      assert Le32(channelLen) + channel[..channelPos] == q;
      if channelPos == channelLen {
        channel[channelPos] := 0;
        assert Le32(channelLen) + channel[..channelLen] == q;
        lenPos := 0;
        state := PlLen;
      }
      return More;
    }

    /** Makes room for a payload; `room` says whether memory can be had. */
    method Reserve(room: bool) returns (ok: bool)
      requires Valid() && state.PlLen? && payloadLen <= MAX_PAYLOAD
      modifies `payload, `payloadCap
      ensures Valid() && ok == (payloadLen <= old(payloadCap) || room)
      ensures ok ==> payloadLen <= payloadCap
      ensures payload == old(payload) || payload == null || fresh(payload)
    {
      if payloadLen > payloadCap {
        if !room {
          payload, payloadCap := null, 0;
          return false;
        }
        payload := new byte[payloadLen + 1](_ => 0);
        payloadCap := payloadLen;
      }
      return true;
    }

    /** The payload length is known: an error, an empty payload, or a payload to come. */
    method StartPayload(room: bool) returns (v: Verdict)
      requires Valid() && state.PlLen? && lenPos == 0
      modifies `state, `lenPos, `channelPos, `payloadPos, `payload, `payloadCap, payload
      ensures Valid() && (payload == old(payload) || payload == null || fresh(payload))
      ensures v.Bad? <==> payloadLen > MAX_PAYLOAD || (payloadLen > old(payloadCap) && !room)
      ensures v.Bad? ==> state.PlLen? && lenPos == 0
      ensures v.More? ==> payloadLen > 0 && state.PlData? && payloadPos == 0
      ensures v.Ready? ==> payloadLen == 0 && state.ChLen? && lenPos == 0
      ensures v.Ready? ==> v.frame == Frame(channel[..channelLen], []) && Holds(v.frame)
    {
      if payloadLen > MAX_PAYLOAD {
        return Bad;
      }
      var ok := Reserve(room);
      if !ok {
        return Bad;
      }
      payloadPos := 0;
      if payloadLen == 0 {
        if payload != null {
          payload[0] := 0;
        }
        state, lenPos, channelPos := ChLen, 0, 0;
        return Ready(Frame(channel[..channelLen], []));
      }
      state := PlData;
      return More;
    }

    method FeedPayloadLength(b: byte, room: bool) returns (v: Verdict)
      requires Valid() && state.PlLen?
      modifies this, lenBuf, payload
      ensures Valid() && (payload == old(payload) || payload == null || fresh(payload))
      ensures room ==> v == Judge(old(Pending()) + [b])
      ensures v == Judge(old(Pending()) + [b]) || v == Bad
      ensures v.Ready? ==> Holds(v.frame)
      ensures v.Bad? ==> Pending() == Le32(old(channelLen)) + old(channel[..channelLen])
      ensures v.Ready? ==> Pending() == []
      ensures v.More? ==> Pending() == old(Pending()) + [b]
    {
      ghost var name := channel[..channelLen];
      ghost var body := lenBuf[..lenPos] + [b];
      assert Pending() + [b] == Le32(channelLen) + name + body;
      JudgeNamed(name, body);
      LengthVerdict(name, body);
      lenBuf[lenPos] := b;
      lenPos := lenPos + 1;
      assert lenBuf[..lenPos] == body;
      if lenPos < 4 {
        return More;
      }
      assert lenBuf[..] == body;
      payloadLen := Value(lenBuf[..]);
      LeOfValue(body);
      lenPos := 0;
      assert Le32(channelLen) + name + lenBuf[..0] == Le32(channelLen) + name;
      v := StartPayload(room);
      assert v.More? ==> Le32(payloadLen) + payload[..0] == body;
    }

    method FeedPayload(b: byte) returns (v: Verdict)
      requires Valid() && state.PlData?
      modifies this, payload
      ensures Valid() && payload == old(payload)
      ensures v == Judge(old(Pending()) + [b]) && !v.Bad?
      ensures v.Ready? ==> Holds(v.frame)
      ensures Pending() == if v.Ready? then [] else old(Pending()) + [b]
    {
      ghost var name := channel[..channelLen];
      ghost var got := payload[..payloadPos] + [b];
      Appended(Le32(channelLen) + name, Le32(payloadLen), payload[..payloadPos], b);
      JudgePaid(name, got, payloadLen);
      payload[payloadPos] := b;
      payloadPos := payloadPos + 1;
      assert payload[..payloadPos] == got;
      if payloadPos < payloadLen {
        return More;
      }
      payload[payloadPos] := 0;
      assert payload[..payloadLen] == got;
      state, lenPos, channelPos := ChLen, 0, 0;
      return Ready(Frame(channel[..channelLen], payload[..payloadLen]));
    }

    /** One byte. The verdict is what the bytes of the frame amount to, unless memory for the
        payload cannot be had; after an error the four length bytes are forgotten. Every write is
        inside its buffer, in every state that can be reached, errors included. */
    method Feed(b: byte, room: bool) returns (v: Verdict)
      requires Valid()
      modifies this, lenBuf, channel, payload
      ensures Valid() && (payload == old(payload) || payload == null || fresh(payload))
      ensures room ==> v == Judge(old(Pending()) + [b])
      ensures v == Judge(old(Pending()) + [b]) || v == Bad
      ensures v.Ready? ==> Holds(v.frame)
      ensures v.More? ==> Pending() == old(Pending()) + [b]
      ensures v.Ready? ==> Pending() == []
    {
      match state
      case ChLen => v := FeedChannelLength(b);
      case ChData => v := FeedChannel(b);
      case PlLen => v := FeedPayloadLength(b, room);
      case PlData => v := FeedPayload(b);
    }

    /** A stream of bytes: the frames delivered are those of the whole stream. */
    method FeedAll(bytes: seq<byte>) returns (fs: seq<Frame>, ok: bool)
      requires Valid()
      modifies this, lenBuf, channel, payload
      ensures Valid()
      ensures var (frames, left, good) := Feeds(old(Pending()), bytes);
              fs == frames && ok == good && (ok ==> Pending() == left)
    {
      fs := [];
      var i := 0;
      assert bytes[0..] == bytes && [] + Feeds(Pending(), bytes).0 == Feeds(Pending(), bytes).0;
      while i < |bytes|
        invariant i <= |bytes| && Valid() && (payload == old(payload) || payload == null || fresh(payload))
        invariant var (rest, left, good) := Feeds(Pending(), bytes[i..]);
                  Feeds(old(Pending()), bytes) == (fs + rest, left, good)
      {
        FeedsStep(Pending(), bytes, i, fs);
        var v := Feed(bytes[i], true);
        if v.Bad? {
          return fs, false;
        }
        if v.Ready? {
          fs := fs + [v.frame];
        }
        i := i + 1;
      }
      return fs, true;
    }
  }
}
