/** The IrDA framing automaton of the sniffer: like MBUS2, without a checksum and without complaints. */
module Irda {
  import opened Bytes

  const FRAME_ID: byte := 0x14
  const DEVICE_PHONE: byte := 0x00
  const DEVICE_PC1: byte := 0x10
  const BLOCK: nat := 30000

  predicate Device(b: byte) {
    b == DEVICE_PHONE || b == DEVICE_PC1
  }

  datatype RxState = Sync | GetDestination | GetSource | GetType | GetLength1 | GetLength2 | GetMessage

  datatype Message = Message(destination: byte, source: byte, msgType: byte, payload: seq<byte>)

  datatype Rx = Rx(state: RxState, destination: byte, source: byte, msgType: byte,
                   length: nat, body: seq<byte>)

  predicate ValidRx(d: Rx) {
    d.state != Sync && d.state != GetMessage ==> d.body == []
  }

  function Step(d: Rx, b: byte): (r: (Rx, seq<Message>))
    requires ValidRx(d)
    ensures ValidRx(r.0)
  {
    match d.state
    case GetMessage =>
      var f := d.(body := d.body + [b]);
      if |f.body| != d.length then (f, [])
      else (f.(state := Sync), [Message(d.destination, d.source, d.msgType, f.body)])
    case GetLength2 => (d.(length := d.length + b, state := GetMessage), [])
    case GetLength1 => (d.(length := b * 256, state := GetLength2), [])
    case GetType => (d.(msgType := b, state := GetLength1), [])
    case GetSource =>
      if !Device(b) then (d.(state := Sync), []) else (d.(source := b, state := GetType), [])
    case GetDestination =>
      if !Device(b) then (d.(state := Sync), []) else (d.(destination := b, state := GetSource), [])
    case Sync =>
      if b == FRAME_ID then (d.(body := [], state := GetDestination), []) else (d, [])
  }

  function Run(d: Rx, s: seq<byte>): (r: (Rx, seq<Message>))
    requires ValidRx(d)
    ensures ValidRx(r.0)
    decreases |s|
  {
    if s == [] then (d, [])
    else
      var (d1, e1) := Step(d, s[0]);
      var (d2, e2) := Run(d1, s[1..]);
      (d2, e1 + e2)
  }

  lemma {:induction false} RunConcat(d: Rx, s: seq<byte>, t: seq<byte>)
    requires ValidRx(d)
    ensures Run(d, s + t).0 == Run(Run(d, s).0, t).0
    ensures Run(d, s + t).1 == Run(d, s).1 + Run(Run(d, s).0, t).1
    decreases |s|
  {
    if s == [] {
      assert s + t == t;
    } else {
      assert (s + t)[1..] == s[1..] + t;
      RunConcat(Step(d, s[0]).0, s[1..], t);
    }
  }

  lemma RunSnoc(d: Rx, s: seq<byte>, b: byte)
    requires ValidRx(d)
    ensures Run(d, s + [b]).0 == Step(Run(d, s).0, b).0
    ensures Run(d, s + [b]).1 == Run(d, s).1 + Step(Run(d, s).0, b).1
  {
    RunConcat(d, s, [b]);
    var d1 := Run(d, s).0;
    assert Run(d1, [b]) == (Step(d1, b).0, Step(d1, b).1 + []);
  }

  class Decoder {
    var msgRxState: RxState
    var destination: byte
    var source: byte
    var msgType: byte
    var length: nat
    var buffer: seq<byte>
    var printed: seq<Message>

    ghost predicate Valid()
      reads this
    {
      ValidRx(View())
    }

    ghost function View(): Rx
      reads this
    {
      Rx(msgRxState, destination, source, msgType, length, buffer)
    }

    constructor ()
      ensures Valid() && msgRxState == Sync && printed == []
    {
      msgRxState, destination, source, msgType, length, buffer := Sync, 0, 0, 0, 0, [];
      printed := [];
    }

    method DecodeInput(rxByte: byte)
      requires Valid()
      modifies this
      ensures Valid()
      ensures View() == Step(old(View()), rxByte).0
      ensures printed == old(printed) + Step(old(View()), rxByte).1
    {
      if msgRxState == GetMessage {
        buffer := buffer + [rxByte];
        if |buffer| != length { return; }
        printed := printed + [Message(destination, source, msgType, buffer)];
        msgRxState := Sync;
        return;
      }
      if msgRxState == GetLength2 {
        length := length + rxByte;
        msgRxState := GetMessage;
        return;
      }
      if msgRxState == GetLength1 {
        length := rxByte * 256;
        msgRxState := GetLength2;
        return;
      }
      if msgRxState == GetType {
        msgType := rxByte;
        msgRxState := GetLength1;
        return;
      }
      if msgRxState == GetSource {
        if !Device(rxByte) {
          msgRxState := Sync;
        } else {
          source := rxByte;
          msgRxState := GetType;
        }
        return;
      }
      if msgRxState == GetDestination {
        if !Device(rxByte) {
          msgRxState := Sync;
        } else {
          destination := rxByte;
          msgRxState := GetSource;
        }
        return;
      }
      if rxByte == FRAME_ID {
        buffer := [];
        msgRxState := GetDestination;
      }
    }

    /** Feeds a whole file, read in blocks; a short block ends the reading. */
    method DecodeSniff(file: seq<byte>)
      requires Valid() && msgRxState == Sync
      modifies this
      ensures Valid()
      ensures printed == old(printed) + Parse(file)
    {
      ghost var start := View();
      var read, len2 := 0, BLOCK;
      while len2 == BLOCK
        invariant 0 <= read <= |file| && Valid()
        invariant len2 != BLOCK ==> read == |file|
        invariant View() == Run(start, file[..read]).0
        invariant printed == old(printed) + Run(start, file[..read]).1
        decreases |file| - read, len2
      {
        len2 := if read + BLOCK <= |file| then BLOCK else |file| - read;
        for i := read to read + len2
          invariant Valid()
          invariant View() == Run(start, file[..i]).0
          invariant printed == old(printed) + Run(start, file[..i]).1
        {
          assert file[..i + 1] == file[..i] + [file[i]];
          RunSnoc(start, file[..i], file[i]);
          DecodeInput(file[i]);
        }
        read := read + len2;
      }
      assert file[..read] == file;
      DecoderIsParser(start, file);
    }
  }

  // ----- Reference: whole frames at a time

  /** The length of the first item: a byte out of place with what led to it, or a whole frame. It is 0 when
      the stream ends inside the item, and also when the frame announces no payload: such a frame has no end. */
  function ItemLength(s: seq<byte>): (n: nat)
    ensures n <= |s|
  {
    if s == [] then 0
    else if s[0] != FRAME_ID then 1
    else if |s| < 2 then 0
    else if !Device(s[1]) then 2
    else if |s| < 3 then 0
    else if !Device(s[2]) then 3
    else if |s| < 6 then 0
    else if Length16(s[4], s[5]) == 0 || |s| < 6 + Length16(s[4], s[5]) then 0
    else 6 + Length16(s[4], s[5])
  }

  function Completion(q: seq<byte>): seq<Message> {
    if |q| <= 6 then [] else [Message(q[1], q[2], q[3], q[6..])]
  }

  function Parse(s: seq<byte>): seq<Message>
    decreases |s|
  {
    var n := ItemLength(s);
    if n == 0 then [] else Completion(s[..n]) + Parse(s[n..])
  }

  predicate Pending(p: seq<byte>) {
    && (|p| >= 1 ==> p[0] == FRAME_ID)
    && (|p| >= 2 ==> Device(p[1]))
    && (|p| >= 3 ==> Device(p[2]))
    && (|p| >= 6 ==> var n := Length16(p[4], p[5]); n == 0 || |p| < 6 + n)
  }

  predicate Tracks(d: Rx, p: seq<byte>) {
    && ValidRx(d)
    && Pending(p)
    && d.state == (if |p| == 0 then Sync else if |p| == 1 then GetDestination else if |p| == 2 then GetSource
                   else if |p| == 3 then GetType else if |p| == 4 then GetLength1
                   else if |p| == 5 then GetLength2 else GetMessage)
    && (|p| >= 1 ==> d.body == if |p| < 6 then [] else p[6..])
    && (|p| >= 2 ==> d.destination == p[1])
    && (|p| >= 3 ==> d.source == p[2])
    && (|p| >= 4 ==> d.msgType == p[3])
    && (|p| == 5 ==> d.length == Length16(p[4], 0))
    && (|p| >= 6 ==> d.length == Length16(p[4], p[5]))
  }

  lemma StepTracks(d: Rx, p: seq<byte>, b: byte)
    requires Tracks(d, p)
    ensures Pending(p + [b]) ==> Tracks(Step(d, b).0, p + [b]) && Step(d, b).1 == []
    ensures !Pending(p + [b]) ==> Step(d, b).0.state == Sync && Step(d, b).1 == Completion(p + [b])
  {
    var q := p + [b];
    if |p| >= 6 {
      assert q[6..] == p[6..] + [b];
    }
  }

  lemma ParseCompletion(p: seq<byte>, b: byte, rest: seq<byte>)
    requires Pending(p) && !Pending(p + [b])
    ensures Parse(p + [b] + rest) == Completion(p + [b]) + Parse(rest)
  {
    var q := p + [b];
    var s := q + rest;
    assert s[|q|..] == rest && s[..|q|] == q;
    assert ItemLength(s) == |q|;
  }

  lemma {:induction false} RunTracks(d: Rx, p: seq<byte>, s: seq<byte>)
    requires Tracks(d, p)
    ensures Run(d, s).1 == Parse(p + s)
    decreases |s|
  {
    if s == [] {
      assert p + s == p;
      assert ItemLength(p) == 0;
    } else {
      var b, rest := s[0], s[1..];
      var q := p + [b];
      assert p + s == q + rest;
      StepTracks(d, p, b);
      var d1 := Step(d, b).0;
      if Pending(q) {
        RunTracks(d1, q, rest);
      } else {
        ParseCompletion(p, b, rest);
        RunTracks(d1, [], rest);
        assert [] + rest == rest;
      }
    }
  }

  /** The automaton, started in sync, agrees with the whole-frame reader on every input. */
  lemma DecoderIsParser(d: Rx, s: seq<byte>)
    requires ValidRx(d) && d.state == Sync
    ensures Run(d, s).1 == Parse(s)
  {
    RunTracks(d, [], s);
    assert [] + s == s;
  }

  /** A device's number: the phone's or the computer's. */
  predicate KnownDevice(b: byte) {
    b == 0x00 || b == 0x10
  }

  predicate Encodable(m: Message) {
    KnownDevice(m.destination) && KnownDevice(m.source) && |m.payload| <= 0xFFFF
  }

  function Encode(m: Message): seq<byte>
    requires |m.payload| <= 0xFFFF
  {
    [0x14, m.destination, m.source, m.msgType, |m.payload| / 256, |m.payload| % 256] + m.payload
  }

  lemma ParseEncoded(m: Message, rest: seq<byte>)
    requires Encodable(m)
    ensures Parse(Encode(m) + rest) == if m.payload == [] then [] else [m] + Parse(rest)
  {
    var f := Encode(m);
    var s := f + rest;
    assert Length16(s[4], s[5]) == |m.payload|;
    if m.payload != [] {
      assert s[..|f|] == f && s[|f|..] == rest && f[6..] == m.payload;
    }
  }

  /** Bytes that start no frame are passed over, and so is a frame with a byte that is no device's. */
  lemma ParseNothing(b: byte, d: byte, rest: seq<byte>)
    ensures b != 0x14 ==> Parse([b] + rest) == Parse(rest)
    ensures !KnownDevice(b) ==> Parse([0x14, b] + rest) == Parse(rest)
    ensures !KnownDevice(b) && KnownDevice(d) ==> Parse([0x14, d, b] + rest) == Parse(rest)
  {
    var s, t, u := [b] + rest, [0x14, b] + rest, [0x14, d, b] + rest;
    assert s[1..] == rest && t[2..] == rest && u[3..] == rest;
    assert [] + Parse(rest) == Parse(rest);
  }

  function Line(ms: seq<Message>): seq<byte>
    requires forall i :: 0 <= i < |ms| ==> Encodable(ms[i])
  {
    if ms == [] then []
    else
      assert Encodable(ms[0]);
      Encode(ms[0]) + Line(ms[1..])
  }

  /** The messages before the first one without a payload. */
  function BeforeEmpty(ms: seq<Message>): seq<Message> {
    if ms == [] || ms[0].payload == [] then [] else [ms[0]] + BeforeEmpty(ms[1..])
  }

  /** Encoded messages come out in order up to the first empty one, which swallows everything after it. */
  lemma {:induction false} EmptyFrameSwallowsRest(ms: seq<Message>)
    requires forall i :: 0 <= i < |ms| ==> Encodable(ms[i])
    ensures Parse(Line(ms)) == BeforeEmpty(ms)
  {
    if ms != [] {
      ParseEncoded(ms[0], Line(ms[1..]));
      EmptyFrameSwallowsRest(ms[1..]);
    }
  }

  lemma {:induction false} BeforeEmptyAll(ms: seq<Message>)
    ensures |BeforeEmpty(ms)| <= |ms|
    ensures |BeforeEmpty(ms)| == |ms| <==> forall m <- ms :: m.payload != []
    ensures |BeforeEmpty(ms)| == |ms| ==> BeforeEmpty(ms) == ms
  {
    if ms != [] {
      BeforeEmptyAll(ms[1..]);
      assert ms == [ms[0]] + ms[1..];
    }
  }

  /** So a run of encoded messages is decoded completely if and only if none of them is empty. */
  lemma CompleteIffNoEmptyFrame(ms: seq<Message>)
    requires forall i :: 0 <= i < |ms| ==> Encodable(ms[i])
    ensures Parse(Line(ms)) == ms <==> forall m <- ms :: m.payload != []
  {
    EmptyFrameSwallowsRest(ms);
    BeforeEmptyAll(ms);
  }
}
