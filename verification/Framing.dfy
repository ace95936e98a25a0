/**
 The holder's wire: a length, a tag and a body a frame. Control bodies go through a
 codec this model only knows to be invertible; data bodies are raw bytes.
 */
module Framing {
  import opened Basics
  import opened Products

  const MAX_FRAME: nat := 16 * 1024 * 1024
  const TAG_CONTROL: Byte := 1
  const TAG_DATA: Byte := 2

  // ----- big-endian integers

  function Power256(width: nat): (p: nat)
    ensures p > 0
  {
    if width == 0 then 1 else 256 * Power256(width - 1)
  }

  function ToBigEndian(n: nat, width: nat): (bytes: seq<Byte>)
    ensures |bytes| == width
  {
    if width == 0 then [] else ToBigEndian(n / 256, width - 1) + [n % 256]
  }

  function FromBigEndian(bytes: seq<Byte>): (n: nat)
    ensures n < Power256(|bytes|)
  {
    if bytes == [] then 0 else 256 * FromBigEndian(bytes[..|bytes| - 1]) + bytes[|bytes| - 1]
  }

  lemma {:induction false} BigEndianRoundTrip(n: nat, width: nat)
    requires n < Power256(width)
    ensures FromBigEndian(ToBigEndian(n, width)) == n
  {
    hide ToBigEndian, FromBigEndian, Power256;
    if width == 0 {
      NoDigits(n);
    } else {
      var high, low := Digits(n, width);
      BigEndianRoundTrip(high, width - 1);
      LastByte(ToBigEndian(high, width - 1), low);
    }
  }

  lemma NoDigits(n: nat)
    requires n < Power256(0)
    ensures FromBigEndian(ToBigEndian(n, 0)) == n
  {
    assert ToBigEndian(n, 0) == [];
  }

  /** The most significant byte comes first. */
  lemma {:induction false} BigEndianOrder(bytes: seq<Byte>)
    requires bytes != []
    ensures FromBigEndian(bytes) == bytes[0] as int * Power256(|bytes| - 1) + FromBigEndian(bytes[1..])
  {
    var n := |bytes| - 1;
    if n > 0 {
      var high := bytes[..n];
      BigEndianOrder(high);
      assert bytes[1..][..n - 1] == high[1..] && bytes[1..][n - 1] == bytes[n];
      Carried(bytes[0] as int, Power256(n - 1));
    } else {
      assert bytes[1..] == [] && bytes[..0] == [];
    }
  }

  lemma Carried(digit: int, power: nat)
    ensures 256 * (digit * power) == digit * (256 * power)
  {
  }

  /** The last digit of a number, and the number before it. */
  lemma Digits(n: nat, width: nat) returns (high: nat, low: Byte)
    requires width > 0 && n < Power256(width)
    ensures ToBigEndian(n, width) == ToBigEndian(high, width - 1) + [low]
    ensures n == 256 * high + low && high < Power256(width - 1)
  {
    hide FromBigEndian;
    Divides(n, 256);
    high, low := n / 256, n % 256;
    HighDigits(high, low, Power256(width - 1));
  }

  lemma HighDigits(high: nat, low: Byte, power: nat)
    requires 256 * high + low < 256 * power
    ensures high < power
  {
  }

  lemma LastByte(high: seq<Byte>, low: Byte)
    ensures FromBigEndian(high + [low]) == 256 * FromBigEndian(high) + low
  {
    assert (high + [low])[..|high|] == high;
  }

  const OFFSET_LIMIT: nat := 0x1_0000_0000_0000_0000

  type U64 = n: int | 0 <= n < OFFSET_LIMIT

  lemma Widths()
    ensures Power256(4) == 0x1_0000_0000 && Power256(8) == OFFSET_LIMIT
  {
    assert Power256(2) == 0x1_0000;
    assert Power256(4) == 0x1_0000_0000;
    assert Power256(6) == 0x1_0000_0000_0000;
  }

  // ----- frames

  datatype Frame = Frame(tag: Byte, body: seq<Byte>)

  predicate Fits(f: Frame) {
    1 + |f.body| <= MAX_FRAME
  }

  function Encoded(f: Frame): (bytes: seq<Byte>)
    ensures |bytes| == 5 + |f.body|
  {
    ToBigEndian(1 + |f.body|, 4) + [f.tag] + f.body
  }

  /** Reads one frame off the front; `None` is an error of the reader. */
  function TakeFrame(s: seq<Byte>): (r: Option<(Frame, seq<Byte>)>)
    ensures r.Some? ==> |r.value.1| < |s|
  {
    if |s| < 4 then None
    else
      var len := FromBigEndian(s[..4]);
      if len == 0 || len > MAX_FRAME || |s| < 4 + len then None
      else Some((Frame(s[4], s[5..4 + len]), s[4 + len..]))
  }

  /** A written frame reads back, leaving exactly what follows it. */
  lemma FrameRoundTrip(f: Frame, rest: seq<Byte>)
    requires Fits(f)
    ensures TakeFrame(Encoded(f) + rest) == Some((f, rest))
  {
    var len := 1 + |f.body|;
    var s := Encoded(f) + rest;
    Widths();
    BigEndianRoundTrip(len, 4);
    assert s[..4] == ToBigEndian(len, 4);
    assert s[5..4 + len] == f.body && s[4 + len..] == rest;
  }

  /** On the wire a frame is the length of what follows, four bytes big-endian, and then its
      tag and its body. */
  lemma WireLayout(f: Frame)
    requires Fits(f)
    ensures var s := Encoded(f);
            && |s| == 5 + |f.body| && s[4] == f.tag && s[5..] == f.body
            && 0x100_0000 * s[0] as int + 0x1_0000 * s[1] as int + 0x100 * s[2] as int + s[3] == |s| - 4
  {
    var len := 1 + |f.body|;
    Widths();
    BigEndianRoundTrip(len, 4);
    FourBytes(ToBigEndian(len, 4));
  }

  lemma FourBytes(b: seq<Byte>)
    requires |b| == 4
    ensures FromBigEndian(b) == 0x100_0000 * b[0] as int + 0x1_0000 * b[1] as int + 0x100 * b[2] as int + b[3]
  {
    var one, two, three := b[..1], b[..2], b[..3];
    assert three[..2] == two && two[..1] == one && one[..0] == [];
    assert FromBigEndian(one) == b[0] as int;
    assert FromBigEndian(two) == 0x100 * b[0] as int + b[1];
    assert FromBigEndian(three) == 0x1_0000 * b[0] as int + 0x100 * b[1] as int + b[2];
  }

  /** What reads as a frame was written as one: nothing else does, and none too large. */
  lemma OnlyFramesRead(s: seq<Byte>)
    requires TakeFrame(s).Some?
    ensures var (f, rest) := TakeFrame(s).value; Fits(f) && s == Encoded(f) + rest
  {
    var len := FromBigEndian(s[..4]);
    var (f, rest) := TakeFrame(s).value;
    BigEndianBack(s[..4]);
    assert s == s[..4] + [s[4]] + s[5..4 + len] + s[4 + len..];
  }

  /** Bytes read as a number are those the number is written as. */
  lemma {:induction false} BigEndianBack(b: seq<Byte>)
    ensures ToBigEndian(FromBigEndian(b), |b|) == b
  {
    if b != [] {
      var n := |b| - 1;
      BigEndianBack(b[..n]);
      LowDigit(FromBigEndian(b[..n]), b[n]);
      assert b == b[..n] + [b[n]];
    }
  }

  lemma LowDigit(high: nat, low: Byte)
    ensures (256 * high + low) / 256 == high && (256 * high + low) % 256 == low
  {
  }

  /** A frame cut short is an error, never another frame. */
  lemma CutFrame(f: Frame, k: nat)
    requires Fits(f) && k < |Encoded(f)|
    ensures TakeFrame(Encoded(f)[..k]) == None
  {
    if k >= 4 {
      Widths();
      BigEndianRoundTrip(1 + |f.body|, 4);
      assert Encoded(f)[..k][..4] == ToBigEndian(1 + |f.body|, 4);
    }
  }

  // ----- streams of messages

  function Wire<M>(msgs: seq<M>, encode: M -> Frame): seq<Byte> {
    if msgs == [] then [] else Encoded(encode(msgs[0])) + Wire(msgs[1..], encode)
  }

  /** What a reader gets out of a stream, up to its first error, and what was left then. */
  function Received<M>(s: seq<Byte>, decode: Frame -> Option<M>): (r: (seq<M>, seq<Byte>))
    decreases |s|
  {
    match TakeFrame(s)
    case None => ([], s)
    case Some((frame, rest)) =>
      match decode(frame)
      case None => ([], s)
      case Some(m) => var (more, left) := Received(rest, decode); ([m] + more, left)
  }

  ghost predicate Carries<M>(msgs: seq<M>, encode: M -> Frame, decode: Frame -> Option<M>) {
    forall m :: m in msgs ==> Fits(encode(m)) && decode(encode(m)) == Some(m)
  }

  /** `got` are the whole messages of `msgs` a stream cut to `s` holds, `left` the beginnings
      of the next: not a frame. */
  ghost predicate Whole<M>(msgs: seq<M>, encode: M -> Frame, s: seq<Byte>, got: seq<M>, left: seq<Byte>) {
    && got <= msgs && s == Wire(got, encode) + left && TakeFrame(left) == None
    && (|got| < |msgs| ==> |left| < |Encoded(encode(msgs[|got|]))|)
    && (|got| == |msgs| <==> |s| == |Wire(msgs, encode)|)
  }

  lemma WholeMore<M>(msgs: seq<M>, encode: M -> Frame, s: seq<Byte>, more: seq<M>, left: seq<Byte>)
    requires msgs != [] && Whole(msgs[1..], encode, s, more, left)
    ensures Whole(msgs, encode, Encoded(encode(msgs[0])) + s, [msgs[0]] + more, left)
  {
    hide TakeFrame, Encoded;
    var got := [msgs[0]] + more;
    assert got[1..] == more;
    assert msgs == [msgs[0]] + msgs[1..];
    assert Wire(got, encode) + left == Encoded(encode(msgs[0])) + (Wire(more, encode) + left);
  }

  lemma ReceivedMore<M>(m: M, s: seq<Byte>, encode: M -> Frame, decode: Frame -> Option<M>)
    requires Carries([m], encode, decode)
    ensures var (more, left) := Received(s, decode);
            Received(Encoded(encode(m)) + s, decode) == ([m] + more, left)
  {
    hide TakeFrame, Encoded;
    assert m in [m];
    FrameRoundTrip(encode(m), s);
  }

  /** Messages written back to back read back as the same messages, nothing left over;
      a stream cut anywhere yields the whole messages before the cut and then an error. */
  lemma {:induction false} StreamRoundTrip<M>(msgs: seq<M>, encode: M -> Frame, decode: Frame -> Option<M>, k: nat)
    requires Carries(msgs, encode, decode) && k <= |Wire(msgs, encode)|
    ensures var s := Wire(msgs, encode)[..k];
            var (got, left) := Received(s, decode);
            Whole(msgs, encode, s, got, left)
  {
    hide TakeFrame, Encoded, Whole;
    var wire := Wire(msgs, encode);
    if msgs == [] {
      EmptyWhole(msgs, encode, wire[..k], decode);
      return;
    }
    var first := Encoded(encode(msgs[0]));
    if k < |first| {
      assert wire[..k] == first[..k];
      CutFirst(msgs, encode, decode, k);
    } else {
      var s := Wire(msgs[1..], encode)[..k - |first|];
      assert wire[..k] == first + s;
      ReceivedMore(msgs[0], s, encode, decode);
      assert forall m :: m in msgs[1..] ==> m in msgs;
      StreamRoundTrip(msgs[1..], encode, decode, k - |first|);
      var (more, left) := Received(s, decode);
      WholeMore(msgs, encode, s, more, left);
    }
  }

  lemma EmptyWhole<M>(msgs: seq<M>, encode: M -> Frame, s: seq<Byte>, decode: Frame -> Option<M>)
    requires |msgs| == 0 && |s| == 0
    ensures Received(s, decode) == ([], s) && Whole(msgs, encode, s, [], s)
  {
  }

  lemma CutFirst<M>(msgs: seq<M>, encode: M -> Frame, decode: Frame -> Option<M>, k: nat)
    requires msgs != [] && Carries(msgs, encode, decode) && k < |Encoded(encode(msgs[0]))|
    ensures var s := Encoded(encode(msgs[0]))[..k];
            Received(s, decode) == ([], s) && Whole(msgs, encode, s, [], s)
  {
    CutFrame(encode(msgs[0]), k);
  }

  // ----- the two directions

  datatype ToHolder<C> = Write(data: seq<Byte>) | ToControl(control: C)

  datatype FromHolder<C> = Bytes(at: U64, data: seq<Byte>) | FromControl(control: C)

  datatype Codec<!C> = Codec(encode: C -> seq<Byte>, decode: seq<Byte> -> Option<C>)

  ghost predicate Invertible<C(!new)>(codec: Codec<C>) {
    forall c :: codec.decode(codec.encode(c)) == Some(c)
  }

  function ToFrame<C>(codec: Codec<C>): ToHolder<C> -> Frame {
    (m: ToHolder<C>) =>
      match m
      case Write(data) => Frame(TAG_DATA, data)
      case ToControl(c) => Frame(TAG_CONTROL, codec.encode(c))
  }

  function OfToFrame<C>(codec: Codec<C>): Frame -> Option<ToHolder<C>> {
    (f: Frame) =>
      if f.tag == TAG_DATA then Some(Write(f.body))
      else if f.tag == TAG_CONTROL then
        match codec.decode(f.body) { case Some(c) => Some(ToControl(c)) case None => None }
      else None
  }

  function FromFrame<C>(codec: Codec<C>): FromHolder<C> -> Frame {
    (m: FromHolder<C>) =>
      match m
      case Bytes(at, data) => Frame(TAG_DATA, ToBigEndian(at, 8) + data)
      case FromControl(c) => Frame(TAG_CONTROL, codec.encode(c))
  }

  function OfFromFrame<C>(codec: Codec<C>): Frame -> Option<FromHolder<C>> {
    (f: Frame) =>
      if f.tag == TAG_DATA then
        if |f.body| < 8 then None
        else Widths(); Some(Bytes(FromBigEndian(f.body[..8]), f.body[8..]))
      else if f.tag == TAG_CONTROL then
        match codec.decode(f.body) { case Some(c) => Some(FromControl(c)) case None => None }
      else None
  }

  /** Everything a daemon can say to a holder survives the wire. */
  lemma ToHolderCarries<C(!new)>(codec: Codec<C>, msgs: seq<ToHolder<C>>)
    requires Invertible(codec) && forall m :: m in msgs ==> Fits(ToFrame(codec)(m))
    ensures Carries(msgs, ToFrame(codec), OfToFrame(codec))
  {
  }

  /** Everything a holder can say survives too, offsets included as far as 64 bits go. */
  lemma FromHolderCarries<C(!new)>(codec: Codec<C>, msgs: seq<FromHolder<C>>)
    requires Invertible(codec) && forall m :: m in msgs ==> Fits(FromFrame(codec)(m))
    ensures Carries(msgs, FromFrame(codec), OfFromFrame(codec))
  {
    forall m | m in msgs ensures OfFromFrame(codec)(FromFrame(codec)(m)) == Some(m) {
      if m.Bytes? {
        Widths();
        BigEndianRoundTrip(m.at, 8);
        var body := ToBigEndian(m.at, 8) + m.data;
        assert body[..8] == ToBigEndian(m.at, 8) && body[8..] == m.data;
      }
    }
  }

  /** What is read from a frame is what the frame was written for: the two tags and no other,
      a data body as it is, towards the daemon after eight bytes of offset. */
  lemma OnlyMessagesRead<C>(codec: Codec<C>, f: Frame)
    ensures OfToFrame(codec)(f).Some? ==>
              match OfToFrame(codec)(f).value
              case Write(data) => f == Frame(2, data)
              case ToControl(c) => f.tag == 1 && codec.decode(f.body) == Some(c)
    ensures OfFromFrame(codec)(f).Some? ==>
              match OfFromFrame(codec)(f).value
              case Bytes(at, data) => f == Frame(2, ToBigEndian(at, 8) + data)
              case FromControl(c) => f.tag == 1 && codec.decode(f.body) == Some(c)
  {
    if f.tag == 2 && |f.body| >= 8 {
      BigEndianBack(f.body[..8]);
      assert f.body == f.body[..8] + f.body[8..];
    }
  }

  // ----- the code over mutable streams

  /** The bytes a writer has sent, or a reader has not read yet. */
  class Stream {
    var bytes: seq<Byte>

    constructor (bytes: seq<Byte>)
      ensures this.bytes == bytes
    {
      this.bytes := bytes;
    }

    /** Takes exactly `n` bytes, or fails having taken what there was. */
    method ReadExact(n: nat) returns (r: Option<seq<Byte>>)
      modifies this
      ensures r == if n <= |old(bytes)| then Some(old(bytes)[..n]) else None
      ensures bytes == if r.Some? then old(bytes)[n..] else []
    {
      if |bytes| < n {
        bytes := [];
        return None;
      }
      r := Some(bytes[..n]);
      bytes := bytes[n..];
    }
  }

  function Concat(parts: seq<seq<Byte>>): seq<Byte> {
    if parts == [] then [] else Concat(parts[..|parts| - 1]) + parts[|parts| - 1]
  }

  lemma ConcatFew(a: seq<Byte>, b: seq<Byte>)
    ensures Concat([a]) == a && Concat([a, b]) == a + b
  {
    assert |[a][..0]| == 0;
    assert [a, b][..1] == [a];
  }

  /** Writes one frame whose body comes in parts; refuses a frame too large, writing nothing. */
  method WriteFrame(w: Stream, tag: Byte, parts: seq<seq<Byte>>) returns (ok: bool)
    modifies w
    ensures ok <==> Fits(Frame(tag, Concat(parts)))
    ensures w.bytes == old(w.bytes) + if ok then Encoded(Frame(tag, Concat(parts))) else []
  {
    var len := 1;
    for i := 0 to |parts|
      invariant len == 1 + |Concat(parts[..i])|
    {
      assert parts[..i + 1][..i] == parts[..i];
      len := len + |parts[i]|;
    }
    assert parts[..|parts|] == parts;
    if len > MAX_FRAME {
      return false;
    }
    var buf := ToBigEndian(len, 4);
    buf := buf + [tag];
    for i := 0 to |parts|
      invariant buf == ToBigEndian(len, 4) + [tag] + Concat(parts[..i])
    {
      assert parts[..i + 1][..i] == parts[..i];
      buf := buf + parts[i];
    }
    w.bytes := w.bytes + buf;
    return true;
  }

  /** Reads one frame; on failure the stream is of no further use. */
  method ReadFrame(r: Stream) returns (frame: Option<Frame>)
    modifies r
    ensures frame.Some? <==> TakeFrame(old(r.bytes)).Some?
    ensures frame.Some? ==> TakeFrame(old(r.bytes)) == Some((frame.value, r.bytes))
  {
    var prefix := r.ReadExact(4);
    if prefix == None {
      return None;
    }
    var len := FromBigEndian(prefix.value);
    if len == 0 || len > MAX_FRAME {
      return None;
    }
    var body := r.ReadExact(len);
    if body == None {
      return None;
    }
    var tag := body.value[0];
    assert body.value == old(r.bytes)[4..4 + len] && body.value[1..] == old(r.bytes)[5..4 + len];
    return Some(Frame(tag, body.value[1..]));
  }

  method WriteToHolder<C>(w: Stream, m: ToHolder<C>, codec: Codec<C>) returns (ok: bool)
    modifies w
    ensures ok <==> Fits(ToFrame(codec)(m))
    ensures w.bytes == old(w.bytes) + if ok then Encoded(ToFrame(codec)(m)) else []
  {
    match m
    case Write(data) =>
      ConcatFew(data, []);
      ok := WriteFrame(w, TAG_DATA, [data]);
    case ToControl(c) =>
      var body := codec.encode(c);
      ConcatFew(body, []);
      ok := WriteFrame(w, TAG_CONTROL, [body]);
  }

  method WriteFromHolder<C>(w: Stream, m: FromHolder<C>, codec: Codec<C>) returns (ok: bool)
    modifies w
    ensures ok <==> Fits(FromFrame(codec)(m))
    ensures w.bytes == old(w.bytes) + if ok then Encoded(FromFrame(codec)(m)) else []
  {
    match m
    case Bytes(at, data) =>
      var offset := ToBigEndian(at, 8);
      ConcatFew(offset, data);
      ok := WriteFrame(w, TAG_DATA, [offset, data]);
    case FromControl(c) =>
      var body := codec.encode(c);
      ConcatFew(body, []);
      ok := WriteFrame(w, TAG_CONTROL, [body]);
  }

  /** One message off the stream, as `Received` takes it. */
  method ReadFromHolder<C>(r: Stream, codec: Codec<C>) returns (m: Option<FromHolder<C>>)
    modifies r
    ensures |Received(old(r.bytes), OfFromFrame(codec)).0| == 0 <==> m.None?
    ensures m.Some? ==> var (more, left) := Received(r.bytes, OfFromFrame(codec));
                        Received(old(r.bytes), OfFromFrame(codec)) == ([m.value] + more, left)
  {
    var frame := ReadFrame(r);
    if frame == None {
      return None;
    }
    if frame.value.tag == TAG_DATA {
      var body := frame.value.body;
      if |body| < 8 {
        return None;
      }
      Widths();
      return Some(Bytes(FromBigEndian(body[..8]), body[8..]));
    }
    if frame.value.tag == TAG_CONTROL {
      var c := codec.decode(frame.value.body);
      return if c.Some? then Some(FromControl(c.value)) else None;
    }
    return None;
  }

  method ReadToHolder<C>(r: Stream, codec: Codec<C>) returns (m: Option<ToHolder<C>>)
    modifies r
    ensures |Received(old(r.bytes), OfToFrame(codec)).0| == 0 <==> m.None?
    ensures m.Some? ==> var (more, left) := Received(r.bytes, OfToFrame(codec));
                        Received(old(r.bytes), OfToFrame(codec)) == ([m.value] + more, left)
  {
    var frame := ReadFrame(r);
    if frame == None {
      return None;
    }
    if frame.value.tag == TAG_DATA {
      return Some(Write(frame.value.body));
    }
    if frame.value.tag == TAG_CONTROL {
      var c := codec.decode(frame.value.body);
      return if c.Some? then Some(ToControl(c.value)) else None;
    }
    return None;
  }
}
