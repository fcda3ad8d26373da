/** The MBUS2 framing automaton: one byte at a time, a running checksum, and events for what is printed. */
module Mbus2 {
  import opened Bytes

  const FRAME_ID: byte := 0x1F
  const DEVICE_PHONE: byte := 0x00
  const DEVICE_PC: byte := 0x10
  const DEVICE_PC1: byte := 0x1D
  const ACK_BYTE: byte := 0x7F

  /** The largest value of the 16-bit length field, plus the sequence number and the checksum. */
  const BODY_CAPACITY: nat := 0xFFFF + 2

  predicate Device(b: byte) {
    b == DEVICE_PC || b == DEVICE_PHONE || b == DEVICE_PC1
  }

  datatype RxState = Sync | GetDestination | GetSource | GetType | GetLength1 | GetLength2 | GetMessage

  datatype Message = Message(destination: byte, source: byte, msgType: byte, payload: seq<byte>)

  /** What the decoder reports: a frame passed on, a frame with a wrong checksum, or a byte out of place. */
  datatype Event = Frame(msg: Message) | ChecksumError(msg: Message) | IncorrectByte(b: byte)

  /** The decoder's state as a value; `body` is the part of the buffer filled so far. */
  datatype Rx = Rx(state: RxState, destination: byte, source: byte, msgType: byte,
                   length: nat, body: seq<byte>, checkSum1: byte)

  predicate ValidRx(d: Rx) {
    && d.length <= 0xFFFF
    && (d.state == GetLength2 ==> d.length + 255 <= 0xFFFF)
    && (d.state != Sync && d.state != GetMessage ==> d.body == [])
    && (d.state == GetMessage ==> |d.body| < d.length + 2)
    && |d.body| <= BODY_CAPACITY
  }

  function Received(d: Rx, body: seq<byte>): Message
    requires d.length <= |body|
  {
    Message(d.destination, d.source, d.msgType, body[..d.length])
  }

  function Step(d: Rx, b: byte): (r: (Rx, seq<Event>))
    requires ValidRx(d)
    ensures ValidRx(r.0)
  {
    var e := d.(checkSum1 := Mix(d.checkSum1, b));
    match d.state
    case GetMessage =>
      var f := e.(body := d.body + [b]);
      if |f.body| != d.length + 2 then (f, [])
      else if d.checkSum1 != b then (f.(state := Sync), [ChecksumError(Received(d, f.body))])
      else (f.(state := Sync), [Frame(Received(d, f.body))])
    case GetLength2 =>
      if d.msgType == ACK_BYTE then (e.(state := Sync), [])
      else (e.(length := d.length + b, state := GetMessage), [])
    case GetLength1 => (e.(length := b * 256, state := GetLength2), [])
    case GetType => (e.(msgType := b, state := GetLength1), [])
    case GetSource =>
      if !Device(b) then (e.(state := Sync), [IncorrectByte(b)])
      else (e.(source := b, state := GetType), [])
    case GetDestination =>
      if !Device(b) then (e.(state := Sync), [IncorrectByte(b)])
      else (e.(destination := b, state := GetSource), [])
    case Sync =>
      if b == FRAME_ID then (e.(checkSum1 := FRAME_ID, body := [], state := GetDestination), [])
      else (e, [IncorrectByte(b)])
  }

  function Run(d: Rx, s: seq<byte>): (r: (Rx, seq<Event>))
    requires ValidRx(d)
    ensures ValidRx(r.0)
    decreases |s|
  {
    if s == [] then (d, [])
    else
      var (d1, e1) := Step(d, s[0]);
      var (d2, e2) := Run(d1, s[1..]);
      (d2, e1 + e2)
  }

  lemma {:induction false} RunConcat(d: Rx, s: seq<byte>, t: seq<byte>)
    requires ValidRx(d)
    ensures Run(d, s + t).0 == Run(Run(d, s).0, t).0
    ensures Run(d, s + t).1 == Run(d, s).1 + Run(Run(d, s).0, t).1
    decreases |s|
  {
    if s == [] {
      assert s + t == t;
    } else {
      assert (s + t)[1..] == s[1..] + t;
      RunConcat(Step(d, s[0]).0, s[1..], t);
    }
  }

  /** The decoder as the program keeps it: fields updated in place and a buffer filled by index. */
  class Decoder {
    var msgRxState: RxState
    var destination: byte
    var source: byte
    var msgType: byte
    var length: nat
    var count: nat
    var buffer: array<byte>
    var checkSum0: byte
    var checkSum1: byte
    var printed: seq<Event>

    ghost predicate Valid()
      reads this, buffer
    {
      && buffer.Length == BODY_CAPACITY
      && count <= BODY_CAPACITY
      && ValidRx(View())
    }

    ghost function View(): Rx
      reads this, buffer
      requires count <= buffer.Length
    {
      Rx(msgRxState, destination, source, msgType, length, buffer[..count], checkSum1)
    }

    constructor ()
      ensures Valid() && fresh(buffer)
      ensures msgRxState == Sync && printed == []
    {
      msgRxState, destination, source, msgType := Sync, 0, 0, 0;
      length, count, checkSum0, checkSum1 := 0, 0, 0, 0;
      buffer := new byte[BODY_CAPACITY];
      printed := [];
    }

    /** A byte of a frame's body: payload, sequence number or checksum. */
    method DecodeBody(rxByte: byte)
      requires Valid() && msgRxState == GetMessage
      modifies this, buffer
      ensures Valid() && buffer == old(buffer)
      ensures View() == Step(old(View()), rxByte).0
      ensures printed == old(printed) + Step(old(View()), rxByte).1
    {
      ghost var d := View();
      checkSum0 := checkSum1;
      checkSum1 := Mix(checkSum1, rxByte);
      buffer[count] := rxByte;
      count := count + 1;
      assert buffer[..count] == d.body + [rxByte];
      if count != length + 2 { return; }
      assert buffer[..length] == buffer[..count][..length];
      var msg := Message(destination, source, msgType, buffer[..length]);
      msgRxState := Sync;
      if checkSum0 != rxByte {
        printed := printed + [ChecksumError(msg)];
        return;
      }
      printed := printed + [Frame(msg)];
    }

    method DecodeInput(rxByte: byte)
      requires Valid()
      modifies this, buffer
      ensures Valid() && buffer == old(buffer)
      ensures View() == Step(old(View()), rxByte).0
      ensures printed == old(printed) + Step(old(View()), rxByte).1
    {
      if msgRxState == GetMessage {
        DecodeBody(rxByte);
        return;
      }
      checkSum0 := checkSum1;
      checkSum1 := Mix(checkSum1, rxByte);
      if msgRxState == GetLength2 {
        if msgType == ACK_BYTE {
          msgRxState := Sync;
        } else {
          length := length + rxByte;
          msgRxState := GetMessage;
        }
        return;
      }
      if msgRxState == GetLength1 {
        length := rxByte * 256;
        msgRxState := GetLength2;
        return;
      }
      if msgRxState == GetType {
        msgType := rxByte;
        msgRxState := GetLength1;
        return;
      }
      if msgRxState == GetSource {
        if !Device(rxByte) {
          msgRxState := Sync;
          printed := printed + [IncorrectByte(rxByte)];
        } else {
          source := rxByte;
          msgRxState := GetType;
        }
        return;
      }
      if msgRxState == GetDestination {
        if !Device(rxByte) {
          msgRxState := Sync;
          printed := printed + [IncorrectByte(rxByte)];
        } else {
          destination := rxByte;
          msgRxState := GetSource;
        }
        return;
      }
      if rxByte == FRAME_ID {
        checkSum1 := FRAME_ID;
        count := 0;
        msgRxState := GetDestination;
      } else {
        printed := printed + [IncorrectByte(rxByte)];
      }
    }
  }

  // ----- Reference: reading the whole byte string at once

  function FrameLength(s: seq<byte>): (n: nat)
    requires |s| >= 6
  {
    8 + Length16(s[4], s[5])
  }

  function FrameMessage(f: seq<byte>): Message
    requires |f| >= 8
  {
    Message(f[1], f[2], f[3], f[6..|f| - 2])
  }

  /** A complete frame whose bytes XOR to zero. */
  predicate WellFormed(f: seq<byte>)
    ensures WellFormed(f) ==> |f| >= 8
  {
    && |f| >= 8
    && f[0] == FRAME_ID && Device(f[1]) && Device(f[2]) && f[3] != ACK_BYTE
    && |f| == FrameLength(f)
    && Xor(f) == 0
  }

  /** The length of the first item of the stream: a misplaced byte with what led to it, an acknowledgement,
      or a whole frame; 0 when the stream ends inside it. */
  function ItemLength(s: seq<byte>): (n: nat)
    ensures n <= |s|
  {
    if s == [] then 0
    else if s[0] != FRAME_ID then 1
    else if |s| < 2 then 0
    else if !Device(s[1]) then 2
    else if |s| < 3 then 0
    else if !Device(s[2]) then 3
    else if |s| < 6 then 0
    else if s[3] == ACK_BYTE then 6
    else if |s| < FrameLength(s) then 0
    else FrameLength(s)
  }

  /** What the decoder says about one item. */
  function Completion(q: seq<byte>): seq<Event>
    requires |q| >= 1
  {
    if |q| <= 3 then [IncorrectByte(q[|q| - 1])]
    else if |q| < 8 then []
    else [Verdict(q)]
  }

  /** What a stream of bytes means, by looking ahead over whole items. */
  function Parse(s: seq<byte>): seq<Event>
    decreases |s|
  {
    var n := ItemLength(s);
    if n == 0 then [] else Completion(s[..n]) + Parse(s[n..])
  }

  /** The stream ends where an item ends. */
  predicate Settled(s: seq<byte>)
    decreases |s|
  {
    var n := ItemLength(s);
    if n == 0 then s == [] else Settled(s[n..])
  }

  function Verdict(f: seq<byte>): Event
    requires |f| >= 8
  {
    if Xor(f) == 0 then Frame(FrameMessage(f)) else ChecksumError(FrameMessage(f))
  }

  /** `p` is the beginning of a frame that the next bytes can still complete. */
  predicate Pending(p: seq<byte>) {
    && (|p| >= 1 ==> p[0] == FRAME_ID)
    && (|p| >= 2 ==> Device(p[1]))
    && (|p| >= 3 ==> Device(p[2]))
    && (|p| >= 6 ==> p[3] != ACK_BYTE && |p| < FrameLength(p))
  }

  /** The decoder has just read the pending bytes `p` of a frame. */
  predicate Tracks(d: Rx, p: seq<byte>) {
    && ValidRx(d)
    && Pending(p)
    && d.state == (if |p| == 0 then Sync else if |p| == 1 then GetDestination else if |p| == 2 then GetSource
                   else if |p| == 3 then GetType else if |p| == 4 then GetLength1
                   else if |p| == 5 then GetLength2 else GetMessage)
    && (|p| >= 1 ==> d.checkSum1 == Xor(p) && d.body == if |p| < 6 then [] else p[6..])
    && (|p| >= 2 ==> d.destination == p[1])
    && (|p| >= 3 ==> d.source == p[2])
    && (|p| >= 4 ==> d.msgType == p[3])
    && (|p| == 5 ==> d.length == Length16(p[4], 0))
    && (|p| >= 6 ==> d.length == Length16(p[4], p[5]))
  }

  lemma StepTracks(d: Rx, p: seq<byte>, b: byte)
    requires Tracks(d, p)
    ensures Pending(p + [b]) ==> Tracks(Step(d, b).0, p + [b]) && Step(d, b).1 == []
    ensures !Pending(p + [b]) ==> Step(d, b).0.state == Sync && Step(d, b).1 == Completion(p + [b])
  {
    var q := p + [b];
    XorSnoc(p, b);
    if |p| == 0 {
      assert Xor([]) == 0;
      assert q == [b];
    } else if |p| >= 6 {
      assert q[6..] == p[6..] + [b];
      if |q| == d.length + 8 {
        MixZero(Xor(p), b);
        assert q[6..][..d.length] == q[6..|q| - 2];
      }
    }
  }

  lemma ParseCompletion(p: seq<byte>, b: byte, rest: seq<byte>)
    requires Pending(p) && !Pending(p + [b])
    ensures Parse(p + [b] + rest) == Completion(p + [b]) + Parse(rest)
    ensures Settled(p + [b] + rest) == Settled(rest)
  {
    var q := p + [b];
    var s := q + rest;
    assert s[|q|..] == rest && s[..|q|] == q;
    assert ItemLength(s) == |q|;
  }

  lemma ParsePending(p: seq<byte>)
    requires Pending(p)
    ensures Parse(p) == [] && (Settled(p) <==> p == [])
  {
  }

  /** From the middle of a frame, the automaton still reads the stream as the reference does. */
  lemma {:induction false} RunTracks(d: Rx, p: seq<byte>, s: seq<byte>)
    requires Tracks(d, p)
    ensures Run(d, s).1 == Parse(p + s)
    ensures Run(d, s).0.state == Sync <==> Settled(p + s)
    decreases |s|
  {
    if s == [] {
      assert p + s == p;
      ParsePending(p);
    } else {
      var b, rest := s[0], s[1..];
      var q := p + [b];
      assert p + s == q + rest;
      StepTracks(d, p, b);
      var d1 := Step(d, b).0;
      if Pending(q) {
        RunTracks(d1, q, rest);
      } else {
        ParseCompletion(p, b, rest);
        RunTracks(d1, [], rest);
        assert [] + rest == rest;
      }
    }
  }

  /** The byte-at-a-time automaton, started in sync, agrees with the whole-string reader on every input, and is in
      sync at the end exactly when the input ends where an item ends. */
  lemma DecoderIsParser(d: Rx, s: seq<byte>)
    requires ValidRx(d) && d.state == Sync
    ensures Run(d, s).1 == Parse(s)
    ensures Run(d, s).0.state == Sync <==> Settled(s)
  {
    RunTracks(d, [], s);
    assert [] + s == s;
  }

  function Accepted(es: seq<Event>): seq<Message> {
    if es == [] then []
    else (if es[0].Frame? then [es[0].msg] else []) + Accepted(es[1..])
  }

  lemma {:induction false} AcceptedConcat(a: seq<Event>, b: seq<Event>)
    ensures Accepted(a + b) == Accepted(a) + Accepted(b)
  {
    if a == [] {
      assert a + b == b;
    } else {
      var head := if a[0].Frame? then [a[0].msg] else [];
      AcceptedConcat(a[1..], b);
      assert Accepted(a) == head + Accepted(a[1..]);
      assert Accepted(a + b) == head + Accepted(a[1..] + b) by {
        assert (a + b)[0] == a[0] && (a + b)[1..] == a[1..] + b;
      }
    }
  }

  // ----- Soundness: accepted messages are disjoint, in-order, well-formed substrings

  datatype Span = Span(start: nat, end: nat)

  /** The frame at this place of the input carries the message. */
  predicate FrameAt(s: seq<byte>, span: Span, m: Message) {
    && span.start <= span.end <= |s|
    && WellFormed(s[span.start..span.end])
    && FrameMessage(s[span.start..span.end]) == m
  }

  ghost predicate Carries(s: seq<byte>, from: nat, spans: seq<Span>, ms: seq<Message>) {
    && |spans| == |ms|
    && (forall i :: 0 <= i < |spans| ==> FrameAt(s, spans[i], ms[i]))
    && (forall i :: 0 <= i < |spans| ==> from <= spans[i].start)
    && (forall i, j :: 0 <= i < j < |spans| ==> spans[i].end <= spans[j].start)
  }

  lemma CarriesPrepend(s: seq<byte>, from: nat, n: nat, m: Message, spans: seq<Span>, ms: seq<Message>)
    requires FrameAt(s, Span(from, from + n), m) && Carries(s, from + n, spans, ms)
    ensures Carries(s, from, [Span(from, from + n)] + spans, [m] + ms)
  {
    hide FrameAt;
    var all, ms' := [Span(from, from + n)] + spans, [m] + ms;
    assert FrameAt(s, all[0], ms'[0]);
    forall i | 0 < i < |all|
      ensures FrameAt(s, all[i], ms'[i]) && from + n <= all[i].start
    {
      assert all[i] == spans[i - 1] && ms'[i] == ms[i - 1];
    }
  }

  /** An item passes on a message only when it is a well-formed frame. */
  lemma ItemMessage(t: seq<byte>)
    requires ItemLength(t) > 0
    ensures var q := t[..ItemLength(t)];
            Accepted(Completion(q)) == if WellFormed(q) then [FrameMessage(q)] else []
  {
    var q := t[..ItemLength(t)];
    if |q| >= 8 {
      assert |q| == FrameLength(q);
    }
  }

  lemma CarriesLater(s: seq<byte>, from: nat, n: nat, spans: seq<Span>, ms: seq<Message>)
    requires Carries(s, from + n, spans, ms)
    ensures Carries(s, from, spans, ms)
  {
  }

  lemma ParseStep(s: seq<byte>, from: nat, n: nat)
    requires from <= |s| && n == ItemLength(s[from..])
    ensures Accepted(Parse(s[from..])) ==
            if n == 0 then []
            else (if WellFormed(s[from..from + n]) then [FrameMessage(s[from..from + n])] else [])
                 + Accepted(Parse(s[from + n..]))
  {
    var t := s[from..];
    if n != 0 {
      assert t[n..] == s[from + n..] && t[..n] == s[from..from + n];
      AcceptedConcat(Completion(t[..n]), Parse(t[n..]));
      ItemMessage(t);
    }
  }

  lemma {:induction false} ParseSpans(s: seq<byte>, from: nat) returns (spans: seq<Span>)
    requires from <= |s|
    ensures Carries(s, from, spans, Accepted(Parse(s[from..])))
    decreases |s| - from
  {
    hide Parse, Accepted, WellFormed, FrameMessage;
    var n := ItemLength(s[from..]);
    ParseStep(s, from, n);
    if n == 0 {
      spans := [];
    } else {
      var later := ParseSpans(s, from + n);
      var ms := Accepted(Parse(s[from + n..]));
      if WellFormed(s[from..from + n]) {
        CarriesPrepend(s, from, n, FrameMessage(s[from..from + n]), later, ms);
        spans := [Span(from, from + n)] + later;
      } else {
        CarriesLater(s, from, n, later, ms);
        assert [] + ms == ms;
        spans := later;
      }
    }
  }

  /** Every accepted message has its own well-formed frame in the input, disjoint from the others and in order. */
  lemma Sound(d: Rx, s: seq<byte>)
    requires ValidRx(d) && d.state == Sync
    ensures exists spans :: Carries(s, 0, spans, Accepted(Run(d, s).1))
  {
    DecoderIsParser(d, s);
    assert s[0..] == s;
    var spans := ParseSpans(s, 0);
  }

  // ----- Completeness: encoded frames come back out

  /** A device's number: the phone's, or one of the two of a computer. */
  predicate KnownDevice(b: byte) {
    b == 0x00 || b == 0x10 || b == 0x1D
  }

  predicate Encodable(m: Message) {
    KnownDevice(m.destination) && KnownDevice(m.source) && m.msgType != 0x7F && |m.payload| <= 0xFFFF
  }

  function Unsealed(m: Message, sequence: byte): seq<byte>
    requires |m.payload| <= 0xFFFF
  {
    [0x1F, m.destination, m.source, m.msgType, |m.payload| / 256, |m.payload| % 256] + m.payload + [sequence]
  }

  function Encode(m: Message, sequence: byte): seq<byte>
    requires |m.payload| <= 0xFFFF
  {
    Unsealed(m, sequence) + [Xor(Unsealed(m, sequence))]
  }

  lemma EncodeWellFormed(m: Message, sequence: byte)
    requires Encodable(m)
    ensures WellFormed(Encode(m, sequence)) && FrameMessage(Encode(m, sequence)) == m
  {
    var u := Unsealed(m, sequence);
    XorSnoc(u, Xor(u));
    MixZero(Xor(u), Xor(u));
    assert Encode(m, sequence)[6..|Encode(m, sequence)| - 2] == m.payload;
  }

  lemma EncodingOf(f: seq<byte>)
    requires WellFormed(f)
    ensures Encodable(FrameMessage(f)) && f == Encode(FrameMessage(f), f[|f| - 2])
  {
    var u, last := f[..|f| - 1], f[|f| - 1];
    assert f == u + [last];
    XorSnoc(u, last);
    MixZero(Xor(u), last);
    UnsealedOf(f);
  }

  lemma UnsealedOf(f: seq<byte>)
    requires |f| >= 8 && f[0] == FRAME_ID && |f| == FrameLength(f)
    ensures |f| - 8 <= 0xFFFF && f[..|f| - 1] == Unsealed(FrameMessage(f), f[|f| - 2])
  {
    var m := FrameMessage(f);
    assert |m.payload| == Length16(f[4], f[5]);
    assert [f[0], f[1], f[2], f[3], f[4], f[5]] + m.payload + [f[|f| - 2]] == f[..|f| - 1];
  }

  /** The well-formed frames are exactly the encodings of encodable messages. */
  lemma WellFormedIffEncoded(f: seq<byte>)
    ensures WellFormed(f) <==> exists m, q :: Encodable(m) && f == Encode(m, q)
  {
    if WellFormed(f) {
      EncodingOf(f);
    }
    forall m, q | Encodable(m) && f == Encode(m, q)
      ensures WellFormed(f)
    {
      EncodeWellFormed(m, q);
    }
  }

  /** A whole frame is judged by its exclusive or. */
  lemma ParseFrame(f: seq<byte>, rest: seq<byte>)
    requires |f| >= 8 && f[0] == FRAME_ID && Device(f[1]) && Device(f[2]) && f[3] != ACK_BYTE && |f| == FrameLength(f)
    ensures Parse(f + rest) == [Verdict(f)] + Parse(rest)
  {
    assert (f + rest)[..|f|] == f && (f + rest)[|f|..] == rest;
  }

  /** A byte after the frame ID that is no device's is complained about, and the frame is given up. */
  lemma ParseBadDevice(b: byte, d: byte, rest: seq<byte>)
    requires !KnownDevice(b)
    ensures Parse([0x1F, b] + rest) == [IncorrectByte(b)] + Parse(rest)
    ensures KnownDevice(d) ==> Parse([0x1F, d, b] + rest) == [IncorrectByte(b)] + Parse(rest)
  {
    var s := [0x1F, b] + rest;
    assert s[..2] == [0x1F, b] && s[2..] == rest;
    if KnownDevice(d) {
      var t := [0x1F, d, b] + rest;
      assert t[..3] == [0x1F, d, b] && t[3..] == rest;
    }
  }

  /** An acknowledgement has six bytes and is passed over in silence. */
  lemma ParseAcknowledgement(d: byte, e: byte, hi: byte, lo: byte, rest: seq<byte>)
    requires KnownDevice(d) && KnownDevice(e)
    ensures Parse([0x1F, d, e, 0x7F, hi, lo] + rest) == Parse(rest)
  {
    var s := [0x1F, d, e, 0x7F, hi, lo] + rest;
    assert s[6..] == rest && |s[..6]| == 6;
    assert [] + Parse(rest) == Parse(rest);
  }

  /** A frame whose last byte is not the checksum of the others is reported as such. */
  lemma ParseBadChecksum(m: Message, sequence: byte, c: byte, rest: seq<byte>)
    requires Encodable(m) && c != Xor(Unsealed(m, sequence))
    ensures Parse(Unsealed(m, sequence) + [c] + rest) == [ChecksumError(m)] + Parse(rest)
  {
    hide Parse, Xor;
    var u := Unsealed(m, sequence);
    var f := u + [c];
    XorSnoc(u, c);
    MixZero(Xor(u), c);
    assert f[6..|f| - 2] == m.payload;
    ParseFrame(f, rest);
  }

  /** A frame on the line, after some bytes that do not start a frame. */
  datatype Sent = Sent(gap: seq<byte>, frame: seq<byte>)

  predicate Framed(sent: seq<Sent>) {
    forall i :: 0 <= i < |sent| ==> |sent[i].frame| >= 8
  }

  predicate Clean(sent: seq<Sent>)
    ensures Clean(sent) ==> Framed(sent)
  {
    forall i :: 0 <= i < |sent| ==> WellFormed(sent[i].frame) && 0x1F !in sent[i].gap
  }

  function Line(sent: seq<Sent>): seq<byte> {
    if sent == [] then [] else sent[0].gap + sent[0].frame + Line(sent[1..])
  }

  function Complaints(gap: seq<byte>): seq<Event> {
    seq(|gap|, i requires 0 <= i < |gap| => IncorrectByte(gap[i]))
  }

  function Report(sent: seq<Sent>): seq<Event>
    requires Framed(sent)
  {
    if sent == [] then []
    else Complaints(sent[0].gap) + [Frame(FrameMessage(sent[0].frame))] + Report(sent[1..])
  }

  lemma {:induction false} ParseGap(gap: seq<byte>, rest: seq<byte>)
    requires 0x1F !in gap
    ensures Parse(gap + rest) == Complaints(gap) + Parse(rest)
  {
    if gap == [] {
      assert gap + rest == rest;
    } else {
      assert (gap + rest)[1..] == gap[1..] + rest;
      ParseGap(gap[1..], rest);
      assert Complaints(gap) == [IncorrectByte(gap[0])] + Complaints(gap[1..]);
    }
  }

  lemma ParseSent(x: Sent, rest: seq<byte>)
    requires WellFormed(x.frame) && 0x1F !in x.gap
    ensures Parse(x.gap + x.frame + rest)
         == Complaints(x.gap) + [Frame(FrameMessage(x.frame))] + Parse(rest)
  {
    assert x.gap + x.frame + rest == x.gap + (x.frame + rest);
    ParseGap(x.gap, x.frame + rest);
    ParseFrame(x.frame, rest);
  }

  /** Well-formed frames, separated by bytes other than the frame ID, all come out; the rest is complained about. */
  lemma {:induction false} ParseLine(sent: seq<Sent>)
    requires Clean(sent)
    ensures Parse(Line(sent)) == Report(sent)
  {
    if sent != [] {
      ParseLine(sent[1..]);
      ParseSent(sent[0], Line(sent[1..]));
    }
  }

  function Messages(sent: seq<Sent>): seq<Message>
    requires Framed(sent)
  {
    seq(|sent|, i requires 0 <= i < |sent| => FrameMessage(sent[i].frame))
  }

  lemma {:induction false} AcceptedComplaints(gap: seq<byte>)
    ensures Accepted(Complaints(gap)) == []
  {
    if gap != [] {
      assert Complaints(gap)[1..] == Complaints(gap[1..]);
      AcceptedComplaints(gap[1..]);
    }
  }

  lemma {:induction false} AcceptedReport(sent: seq<Sent>)
    requires Framed(sent)
    ensures Accepted(Report(sent)) == Messages(sent)
  {
    if sent != [] {
      var c, f := Complaints(sent[0].gap), [Frame(FrameMessage(sent[0].frame))];
      AcceptedConcat(c + f, Report(sent[1..]));
      AcceptedConcat(c, f);
      AcceptedComplaints(sent[0].gap);
      AcceptedReport(sent[1..]);
      assert Messages(sent) == [FrameMessage(sent[0].frame)] + Messages(sent[1..]);
    }
  }

  lemma Complete(d: Rx, sent: seq<Sent>)
    requires ValidRx(d) && d.state == Sync
    requires Clean(sent)
    ensures Run(d, Line(sent)).1 == Report(sent)
    ensures Accepted(Run(d, Line(sent)).1) == Messages(sent)
  {
    DecoderIsParser(d, Line(sent));
    ParseLine(sent);
    AcceptedReport(sent);
  }

  // ----- Errors and resynchronisation

  /** Changing one payload, sequence or checksum byte is always caught, and nothing after the frame is affected. */
  lemma CorruptionDetected(d: Rx, f: seq<byte>, k: nat, b: byte, rest: seq<byte>)
    requires ValidRx(d) && d.state == Sync
    requires WellFormed(f) && 6 <= k < |f| && f[k] != b
    ensures Run(d, f[k := b] + rest).1 == [ChecksumError(FrameMessage(f[k := b]))] + Parse(rest)
    ensures Run(d, f[k := b]).0.state == Sync
  {
    var g := f[k := b];
    XorDetectsOneByte(f, k, b);
    DecoderIsParser(d, g + rest);
    assert (g + rest)[..|g|] == g && (g + rest)[|g|..] == rest;
    InSyncAfter(d, g);
  }

  lemma RunSnoc(d: Rx, s: seq<byte>, b: byte)
    requires ValidRx(d)
    ensures Run(d, s + [b]).0 == Step(Run(d, s).0, b).0
    ensures Run(d, s + [b]).1 == Run(d, s).1 + Step(Run(d, s).0, b).1
  {
    RunConcat(d, s, [b]);
    var d1 := Run(d, s).0;
    assert Run(d1, [b]) == (Step(d1, b).0, Step(d1, b).1 + []);
  }

  lemma {:induction false} RunTracksPending(d: Rx, p: seq<byte>)
    requires ValidRx(d) && d.state == Sync && Pending(p)
    ensures Tracks(Run(d, p).0, p)
    decreases |p|
  {
    if p != [] {
      var q, b := p[..|p| - 1], p[|p| - 1];
      assert p == q + [b];
      PendingPrefix(p, |p| - 1);
      RunTracksPending(d, q);
      StepTracks(Run(d, q).0, q, b);
      RunSnoc(d, q, b);
    }
  }

  /** A frame of the declared length leaves the decoder in sync, whatever its checksum. */
  lemma InSyncAfter(d: Rx, f: seq<byte>)
    requires ValidRx(d) && d.state == Sync
    requires |f| >= 8 && |f| == FrameLength(f) && Pending(f[..|f| - 1])
    ensures Run(d, f).0.state == Sync
  {
    var p, b := f[..|f| - 1], f[|f| - 1];
    assert f == p + [b];
    RunTracksPending(d, p);
    StepTracks(Run(d, p).0, p, b);
    RunSnoc(d, p, b);
  }

  lemma PendingPrefix(p: seq<byte>, n: nat)
    requires Pending(p) && n <= |p|
    ensures Pending(p[..n])
  {
  }

  /** How many more bytes the decoder can read before it is next in sync. */
  function BytesToSync(d: Rx): (n: nat)
    requires ValidRx(d)
    ensures n <= 5 + 65537 && (n == 0 <==> d.state == Sync)
  {
    match d.state
    case Sync => 0
    case GetDestination => 5 + BODY_CAPACITY
    case GetSource => 4 + BODY_CAPACITY
    case GetType => 3 + BODY_CAPACITY
    case GetLength1 => 2 + BODY_CAPACITY
    case GetLength2 => 1 + d.length + 255 + 2
    case GetMessage => d.length + 2 - |d.body|
  }

  /** Whatever the input, no more than 5 + 65537 bytes pass before the decoder is in sync again. */
  lemma {:induction false} Resynchronises(d: Rx, s: seq<byte>)
    requires ValidRx(d) && |s| >= BytesToSync(d)
    ensures exists n :: 0 <= n <= BytesToSync(d) && Run(d, s[..n]).0.state == Sync
    decreases |s|
  {
    if d.state == Sync {
      assert Run(d, s[..0]).0.state == Sync;
    } else {
      var d1 := Step(d, s[0]).0;
      assert BytesToSync(d1) < BytesToSync(d);
      Resynchronises(d1, s[1..]);
      var n :| 0 <= n <= BytesToSync(d1) && Run(d1, s[1..][..n]).0.state == Sync;
      assert s[..n + 1][0] == s[0] && s[..n + 1][1..] == s[1..][..n];
      assert Run(d, s[..n + 1]).0.state == Sync;
    }
  }

  /** The bound is met: a frame announcing 65535 bytes keeps the decoder out of sync that long. */
  lemma ResyncBoundMet(d: Rx)
    requires ValidRx(d) && d.state == Sync
    ensures exists s: seq<byte> ::
              && |s| == 5 + 65537
              && forall n :: 1 <= n <= |s| ==> Run(d, s[..n]).0.state != Sync
  {
    var s := [FRAME_ID, DEVICE_PC, DEVICE_PHONE, 0, 255, 255] + seq(BODY_CAPACITY - 1, _ => DEVICE_PHONE);
    assert Pending(s);
    forall n | 1 <= n <= |s|
      ensures Run(d, s[..n]).0.state != Sync
    {
      PendingPrefix(s, n);
      RunTracksPending(d, s[..n]);
    }
  }
}
