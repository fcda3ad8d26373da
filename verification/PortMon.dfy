/** Reading a PortMon text log of an MBUS2 line, in blocks, and what a log means. */
module PortMon {
  import opened Bytes
  import Mbus2

  const BLOCK: nat := 30000

  const SPACE: byte := 0x20
  const COLON: byte := 0x3A
  const CR: byte := 13
  const LF: byte := 10
  const CAPITAL_A: byte := 0x41

  /** The numbered states of the text automaton, 0 to 6, by what each waits for. */
  datatype TextState = AwaitSpace | AfterSpace | AwaitColon | AwaitGap | HighNibble | LowNibble | AfterByte

  /** The text state and the half-read byte, which survive from one block to the next. */
  datatype Text = Text(state: TextState, myByte1: byte)

  function Nibble(c: byte): byte {
    if c > NINE then (c - CAPITAL_A + 10) % 256 else (c - ZERO) % 256
  }

  function TextStep(t: Text, c: byte): (Text, seq<byte>) {
    match t.state
    case AwaitSpace => (t.(state := if c == SPACE then AfterSpace else AwaitSpace), [])
    case AfterSpace => (t.(state := if c == ZERO then AwaitSpace else AwaitColon), [])
    case AwaitColon => (t.(state := if c == COLON then AwaitGap else AwaitColon), [])
    case AwaitGap => (t.(state := if c == SPACE then HighNibble else AwaitGap), [])
    case HighNibble =>
      if c == CR then (t.(state := AwaitSpace), []) else (Text(LowNibble, Nibble(c)), [])
    case LowNibble => (t.(state := AfterByte), [(t.myByte1 * 16 + Nibble(c)) % 256])
    case AfterByte => (t.(state := if c == SPACE then HighNibble else AwaitSpace), [])
  }

  function TextRun(t: Text, s: seq<byte>): (Text, seq<byte>)
    decreases |s|
  {
    if s == [] then (t, [])
    else
      var (t1, o1) := TextStep(t, s[0]);
      var (t2, o2) := TextRun(t1, s[1..]);
      (t2, o1 + o2)
  }

  lemma {:induction false} TextConcat(t: Text, a: seq<byte>, b: seq<byte>)
    ensures TextRun(t, a + b).0 == TextRun(TextRun(t, a).0, b).0
    ensures TextRun(t, a + b).1 == TextRun(t, a).1 + TextRun(TextRun(t, a).0, b).1
    decreases |a|
  {
    if a == [] {
      assert a + b == b;
    } else {
      assert (a + b)[1..] == a[1..] + b;
      TextConcat(TextStep(t, a[0]).0, a[1..], b);
    }
  }

  lemma TextSnoc(t: Text, a: seq<byte>, c: byte)
    ensures TextRun(t, a + [c]).0 == TextStep(TextRun(t, a).0, c).0
    ensures TextRun(t, a + [c]).1 == TextRun(t, a).1 + TextStep(TextRun(t, a).0, c).1
  {
    TextConcat(t, a, [c]);
    var t1 := TextRun(t, a).0;
    assert TextRun(t1, [c]) == (TextStep(t1, c).0, TextStep(t1, c).1 + []);
  }

  const START := Text(AwaitSpace, 0)

  /** The bytes a log stands for. */
  function LogBytes(file: seq<byte>): seq<byte> {
    TextRun(START, file).1
  }

  /** Reads one block of text, continuing from `t`, into the byte buffer. */
  method DecodeBlock(t: Text, block: seq<byte>, buffer2: array<byte>) returns (t': Text, bytes: seq<byte>)
    requires |block| <= BLOCK <= buffer2.Length
    modifies buffer2
    ensures t' == TextRun(t, block).0 && bytes == TextRun(t, block).1
  {
    var state, myByte1 := t.state, t.myByte1;
    var pos, len := 0, 0;
    while pos != |block|
      invariant 0 <= pos <= |block| && len <= pos
      invariant Text(state, myByte1) == TextRun(t, block[..pos]).0
      invariant buffer2[..len] == TextRun(t, block[..pos]).1
    {
      ghost var before, sofar := Text(state, myByte1), buffer2[..len];
      var c := block[pos];
      assert block[..pos + 1] == block[..pos] + [c];
      TextSnoc(t, block[..pos], c);
      match state {
        case AwaitSpace =>
          if c == SPACE { state := AfterSpace; }
        case AfterSpace =>
          state := AwaitColon;
          if c == ZERO { state := AwaitSpace; }
        case AwaitColon =>
          if c == COLON { state := AwaitGap; }
        case AwaitGap =>
          if c == SPACE { state := HighNibble; }
        case HighNibble =>
          if c == CR {
            state := AwaitSpace;
          } else {
            myByte1 := (c - ZERO) % 256;
            if c > NINE { myByte1 := (c - CAPITAL_A + 10) % 256; }
            state := LowNibble;
          }
        case LowNibble =>
          var myByte2 := (c - ZERO) % 256;
          if c > NINE { myByte2 := (c - CAPITAL_A + 10) % 256; }
          buffer2[len] := (myByte1 * 16 + myByte2) % 256;
          len := len + 1;
          state := AfterByte;
          assert buffer2[..len] == sofar + [buffer2[len - 1]];
        case AfterByte =>
          state := HighNibble;
          if c != SPACE { state := AwaitSpace; }
      }
      assert buffer2[..len] == sofar + TextStep(before, c).1;
      pos := pos + 1;
    }
    assert block[..pos] == block;
    t', bytes := Text(state, myByte1), buffer2[..len];
  }

  /** The decoder has been fed exactly these bytes. */
  ghost predicate Fed(decoder: Mbus2.Decoder, start: Mbus2.Rx, bytes: seq<byte>)
    reads decoder, decoder.buffer
  {
    && decoder.Valid() && Mbus2.ValidRx(start)
    && decoder.View() == Mbus2.Run(start, bytes).0
    && decoder.printed == Mbus2.Run(start, bytes).1
  }

  /** Feeds the decoded bytes of one block to the frame decoder. */
  method FeedBlock(decoder: Mbus2.Decoder, ghost start: Mbus2.Rx, ghost done: seq<byte>, bytes: seq<byte>)
    requires Fed(decoder, start, done)
    modifies decoder, decoder.buffer
    ensures Fed(decoder, start, done + bytes) && decoder.buffer == old(decoder.buffer)
  {
    assert done + bytes[..0] == done;
    for i := 0 to |bytes|
      invariant decoder.buffer == old(decoder.buffer)
      invariant Fed(decoder, start, done + bytes[..i])
    {
      assert done + bytes[..i + 1] == done + bytes[..i] + [bytes[i]];
      Mbus2.RunSnoc(start, done + bytes[..i], bytes[i]);
      decoder.DecodeInput(bytes[i]);
    }
    assert bytes[..|bytes|] == bytes;
  }

  /** Decodes a log: block by block, each block's text first and then its bytes. What comes out does not depend
      on where the block boundaries fall. */
  method DecodeSniff(file: seq<byte>) returns (printed: seq<Mbus2.Event>)
    ensures printed == Mbus2.Parse(LogBytes(file))
  {
    hide Mbus2.Parse, Mbus2.Step, Mbus2.ValidRx, TextStep;
    var decoder := new Mbus2.Decoder();
    ghost var start := decoder.View();
    var buffer2 := new byte[65536];
    var t := START;
    var read, len2 := 0, BLOCK;
    while len2 == BLOCK
      invariant 0 <= read <= |file| && fresh(decoder) && fresh(decoder.buffer) && fresh(buffer2)
      invariant len2 != BLOCK ==> read == |file|
      invariant t == TextRun(START, file[..read]).0
      invariant Fed(decoder, start, TextRun(START, file[..read]).1)
      decreases |file| - read, len2
    {
      len2 := if read + BLOCK <= |file| then BLOCK else |file| - read;
      var block := file[read..read + len2];
      ghost var done := TextRun(START, file[..read]).1;
      assert file[..read + len2] == file[..read] + block;
      TextConcat(START, file[..read], block);
      var t', bytes := DecodeBlock(t, block, buffer2);
      FeedBlock(decoder, start, done, bytes);
      t := t';
      read := read + len2;
    }
    assert file[..read] == file;
    Mbus2.DecoderIsParser(start, LogBytes(file));
    printed := decoder.printed;
  }

  // ----- Writing a log

  function HexDigit(n: nat): byte
    requires n < 16
  {
    if n < 10 then 0x30 + n else 0x41 + n - 10
  }

  function HexByte(b: byte): seq<byte> {
    [HexDigit(b / 16), HexDigit(b % 16)]
  }

  /** The bytes in hexadecimal, separated by single spaces. */
  function HexBytes(bs: seq<byte>): seq<byte> {
    if bs == [] then []
    else if |bs| == 1 then HexByte(bs[0])
    else HexByte(bs[0]) + [0x20] + HexBytes(bs[1..])
  }

  /** The word "Length " */
  const LENGTH: seq<byte> := [0x4C, 0x65, 0x6E, 0x67, 0x74, 0x68, 0x20]

  /** One line of a log: some text about the request, then the bytes; PortMon may or may not leave a space after the
      last one. */
  datatype LogLine = LogLine(about: seq<byte>, bytes: seq<byte>, trailing: bool)

  /** The text before the length has no colon in it. */
  predicate Plain(ls: seq<LogLine>) {
    forall i :: 0 <= i < |ls| ==> 0x3A !in ls[i].about
  }

  function RenderLine(l: LogLine): seq<byte> {
    l.about + LENGTH + Decimal(|l.bytes|) + [0x3A, 0x20] + HexBytes(l.bytes)
    + (if l.trailing && l.bytes != [] then [0x20] else []) + [0x0D, 0x0A]
  }

  function Render(ls: seq<LogLine>): seq<byte> {
    if ls == [] then [] else RenderLine(ls[0]) + Render(ls[1..])
  }

  function Logged(ls: seq<LogLine>): seq<byte> {
    if ls == [] then [] else ls[0].bytes + Logged(ls[1..])
  }

  lemma HexRoundTrip(b: byte)
    ensures (Nibble(HexDigit(b / 16)) * 16 + Nibble(HexDigit(b % 16))) % 256 == b
    ensures HexDigit(b / 16) != CR
  {
  }

  lemma Read1(t: Text, c: byte)
    ensures TextRun(t, [c]).0 == TextStep(t, c).0 && TextRun(t, [c]).1 == TextStep(t, c).1
  {
    assert [c][1..] == [];
  }

  lemma Read2(t: Text, c: byte, c': byte)
    ensures var t1 := TextStep(t, c).0;
            && TextRun(t, [c, c']).0 == TextStep(t1, c').0
            && TextRun(t, [c, c']).1 == TextStep(t, c).1 + TextStep(t1, c').1
  {
    assert [c, c'] == [c] + [c'];
    TextSnoc(t, [c], c');
    Read1(t, c);
  }

  lemma ReadByte(t: Text, b: byte)
    requires t.state == HighNibble
    ensures TextRun(t, HexByte(b)).0.state == AfterByte && TextRun(t, HexByte(b)).1 == [b]
  {
    HexRoundTrip(b);
    Read2(t, HexDigit(b / 16), HexDigit(b % 16));
  }

  lemma {:induction false} ReadBytes(t: Text, bs: seq<byte>)
    requires t.state == HighNibble && bs != []
    ensures TextRun(t, HexBytes(bs)).0.state == AfterByte && TextRun(t, HexBytes(bs)).1 == bs
    decreases |bs|
  {
    ReadByte(t, bs[0]);
    if |bs| > 1 {
      var t1 := TextRun(t, HexByte(bs[0])).0;
      TextSnoc(t, HexByte(bs[0]), SPACE);
      TextConcat(t, HexByte(bs[0]) + [SPACE], HexBytes(bs[1..]));
      ReadBytes(TextStep(t1, SPACE).0, bs[1..]);
      assert bs == [bs[0]] + bs[1..];
    }
  }

  /** A line's hexadecimal bytes, to the end of the line. */
  function Body(l: LogLine): seq<byte> {
    HexBytes(l.bytes) + ((if l.trailing && l.bytes != [] then [SPACE] else []) + [CR, LF])
  }

  lemma ReadBody(t: Text, l: LogLine)
    requires t.state == HighNibble
    ensures TextRun(t, Body(l)).1 == l.bytes && TextRun(t, Body(l)).0.state == AwaitSpace
  {
    var t1 := TextRun(t, HexBytes(l.bytes)).0;
    Read2(t1, CR, LF);
    if l.bytes == [] {
      assert Body(l) == [CR, LF];
    } else {
      ReadBytes(t, l.bytes);
      if l.trailing {
        TextConcat(t1, [SPACE], [CR, LF]);
        Read1(t1, SPACE);
        Read2(TextStep(t1, SPACE).0, CR, LF);
      } else {
        assert [] + [CR, LF] == [CR, LF];
      }
      TextConcat(t, HexBytes(l.bytes), (if l.trailing then [SPACE] else []) + [CR, LF]);
    }
  }

  /** Characters that are not what the automaton is waiting for are skipped. */
  lemma {:induction false} SkipOthers(t: Text, s: seq<byte>)
    requires (t.state == AwaitColon && COLON !in s) || (t.state == AwaitSpace && SPACE !in s)
    ensures TextRun(t, s).0 == t && TextRun(t, s).1 == []
    decreases |s|
  {
    if s != [] {
      SkipOthers(t, s[1..]);
    }
  }

  /** Between lines the automaton waits for a space, or, after an empty line, for the next line's colon. */
  predicate BetweenLines(t: Text) {
    t.state == AwaitSpace || t.state == AwaitColon
  }

  lemma ReadLine(t: Text, l: LogLine)
    requires BetweenLines(t) && 0x3A !in l.about
    ensures TextRun(t, RenderLine(l)).1 == l.bytes && BetweenLines(TextRun(t, RenderLine(l)).0)
  {
    var h := l.about + LENGTH + Decimal(|l.bytes|);
    assert RenderLine(l) == h + ([COLON, SPACE] + Body(l));
    TextConcat(t, h, [COLON, SPACE] + Body(l));
    ReadHeader(t, l.about, |l.bytes|);
    var t1 := TextRun(t, h).0;
    TextConcat(t1, [COLON, SPACE], Body(l));
    Read2(t1, COLON, SPACE);
    var t2 := TextRun(t1, [COLON, SPACE]).0;
    if t1.state == AwaitColon {
      ReadBody(t2, l);
    } else {
      assert Body(l) == [CR, LF];
      Read2(t2, CR, LF);
    }
  }

  /** Before its colon a line is waited for, or is being skipped. */
  predicate BeforeColon(t: Text) {
    t.state == AwaitSpace || t.state == AfterSpace || t.state == AwaitColon
  }

  lemma {:induction false} ReadAbout(t: Text, s: seq<byte>)
    requires BeforeColon(t) && COLON !in s
    ensures BeforeColon(TextRun(t, s).0) && TextRun(t, s).1 == []
    decreases |s|
  {
    if s != [] {
      ReadAbout(TextStep(t, s[0]).0, s[1..]);
    }
  }

  /** "Length n" leaves the automaton waiting for the colon, unless n is 0 and it was still waiting for a space. */
  lemma ReadLength(t: Text, n: nat)
    requires BeforeColon(t)
    ensures var r := TextRun(t, LENGTH + Decimal(n));
            r.1 == [] && r.0.state == if t.state == AwaitSpace && n == 0 then AwaitSpace else AwaitColon
  {
    var d := Decimal(n);
    var word := LENGTH[..6];
    assert LENGTH + d == word + ([SPACE, d[0]] + d[1..]);
    TextConcat(t, word, [SPACE, d[0]] + d[1..]);
    if t.state == AwaitSpace {
      SkipOthers(t, word);
      TextConcat(t, [SPACE, d[0]], d[1..]);
      Read2(t, SPACE, d[0]);
      SkipOthers(TextRun(t, [SPACE, d[0]]).0, d[1..]);
    } else {
      var t1 := TextStep(t, word[0]).0;
      assert word == [word[0]] + word[1..];
      TextConcat(t, [word[0]], word[1..]);
      Read1(t, word[0]);
      SkipOthers(t1, word[1..]);
      SkipOthers(t1, [SPACE, d[0]] + d[1..]);
    }
  }

  /** Up to its colon a line gives no bytes. */
  lemma ReadHeader(t: Text, about: seq<byte>, n: nat)
    requires BetweenLines(t) && COLON !in about
    ensures var r := TextRun(t, about + LENGTH + Decimal(n));
            r.1 == [] && (r.0.state == AwaitColon || (r.0.state == AwaitSpace && n == 0))
  {
    assert about + LENGTH + Decimal(n) == about + (LENGTH + Decimal(n));
    TextConcat(t, about, LENGTH + Decimal(n));
    ReadAbout(t, about);
    ReadLength(TextRun(t, about).0, n);
  }

  lemma {:induction false} ReadLines(t: Text, ls: seq<LogLine>)
    requires BetweenLines(t) && Plain(ls)
    ensures TextRun(t, Render(ls)).1 == Logged(ls)
    decreases |ls|
  {
    if ls != [] {
      TextConcat(t, RenderLine(ls[0]), Render(ls[1..]));
      ReadLine(t, ls[0]);
      ReadLines(TextRun(t, RenderLine(ls[0])).0, ls[1..]);
    }
  }

  /** A log of any byte lists, empty ones included, with any text before them, stands for their concatenation. */
  lemma LogRoundTrip(ls: seq<LogLine>)
    requires Plain(ls)
    ensures LogBytes(Render(ls)) == Logged(ls)
  {
    ReadLines(START, ls);
  }

  /** A line of well-formed frames, logged in pieces of any size, decodes to exactly those frames' messages. */
  lemma LoggedFramesDecode(ls: seq<LogLine>, sent: seq<Mbus2.Sent>)
    requires Plain(ls) && Mbus2.Clean(sent) && Logged(ls) == Mbus2.Line(sent)
    ensures Mbus2.Parse(LogBytes(Render(ls))) == Mbus2.Report(sent)
    ensures Mbus2.Accepted(Mbus2.Parse(LogBytes(Render(ls)))) == Mbus2.Messages(sent)
  {
    LogRoundTrip(ls);
    Mbus2.ParseLine(sent);
    Mbus2.AcceptedReport(sent);
  }
}
