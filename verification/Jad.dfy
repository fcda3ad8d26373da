/** Rewriting a JAD file in place: the declared jar size is corrected, then the line ends are made uniform. */
module Jad {
  import opened Bytes

  const CR: byte := 0x0D
  const LF: byte := 0x0A

  predicate Eol(b: byte) {
    b == CR || b == LF
  }

  function Lower(b: byte): byte {
    if 0x41 <= b <= 0x5A then b + 0x20 else b
  }

  /** "midlet-jar-size: " */
  const KEY: seq<byte> :=
    [0x6D, 0x69, 0x64, 0x6C, 0x65, 0x74, 0x2D, 0x6A, 0x61, 0x72, 0x2D, 0x73, 0x69, 0x7A, 0x65, 0x3A, 0x20]

  /** "\nMIDlet-Jar-Size: " */
  const SIZE_LINE: seq<byte> :=
    [LF, 0x4D, 0x49, 0x44, 0x6C, 0x65, 0x74, 0x2D, 0x4A, 0x61, 0x72, 0x2D, 0x53, 0x69, 0x7A, 0x65, 0x3A, 0x20]

  /** The key stands at position `i`, in any case. */
  predicate KeyAt(s: seq<byte>, i: nat) {
    i + 17 <= |s| && forall k :: 0 <= k < 17 ==> Lower(s[i + k]) == KEY[k]
  }

  /** At position `i` the text "midlet-jar-size: " stands, in any case. */
  predicate Declares(s: seq<byte>, i: nat) {
    i + 17 <= |s| && forall k :: 0 <= k < 17 ==>
      var c := "midlet-jar-size: "[k];
      s[i + k] == c as int || ('a' <= c <= 'z' && s[i + k] as int + 32 == c as int)
  }

  lemma KeyText(k: nat)
    requires k < 17
    ensures KEY[k] == "midlet-jar-size: "[k] as int && SIZE_LINE[k + 1] == "MIDlet-Jar-Size: "[k] as int
  {
  }

  lemma KeyAtIff(s: seq<byte>, i: nat)
    ensures KeyAt(s, i) <==> Declares(s, i)
  {
    if i + 17 <= |s| {
      forall k | 0 <= k < 17
        ensures Lower(s[i + k]) == KEY[k] <==>
                var c := "midlet-jar-size: "[k];
                s[i + k] == c as int || ('a' <= c <= 'z' && s[i + k] as int + 32 == c as int)
      {
        KeyText(k);
        KeyLetters(k);
      }
    }
  }

  lemma KeyLetters(k: nat)
    requires k < 17
    ensures KEY[k] < 128 && !(0x41 <= KEY[k] <= 0x5A)
  {
  }

  /** The first position of the key from `i` on, or the end of the file. */
  function KeyFrom(s: seq<byte>, i: nat): (k: nat)
    requires i <= |s|
    ensures i <= k <= |s| && (k < |s| ==> KeyAt(s, k))
    ensures forall j :: i <= j < k ==> !KeyAt(s, j)
    decreases |s| - i
  {
    if i == |s| || KeyAt(s, i) then i else KeyFrom(s, i + 1)
  }

  predicate HasKey(s: seq<byte>) {
    KeyFrom(s, 0) < |s|
  }

  /** Back to the line end before position `i`, or to the start of the file. */
  function LineStart(s: seq<byte>, i: nat): (p: nat)
    requires i < |s|
    ensures p <= i && (p == 0 || Eol(s[p])) && forall k :: p < k <= i ==> !Eol(s[k])
  {
    if i == 0 || Eol(s[i]) then i else LineStart(s, i - 1)
  }

  /** On to the next line end, or to the end of the file. */
  function LineEnd(s: seq<byte>, i: nat): (e: nat)
    requires i <= |s|
    ensures i <= e <= |s| && (e < |s| ==> Eol(s[e])) && forall k :: i <= k < e ==> !Eol(s[k])
    decreases |s| - i
  {
    if i == |s| || Eol(s[i]) then i else LineEnd(s, i + 1)
  }

  /** The file without the first line that declares a jar size, and without the line end before it. */
  function WithoutSize(s: seq<byte>): seq<byte>
    requires HasKey(s)
  {
    var i := KeyFrom(s, 0);
    s[..LineStart(s, i)] + s[LineEnd(s, i + 15)..]
  }

  lemma KeyHasNoEol(s: seq<byte>, i: nat, k: nat)
    requires KeyAt(s, i) && i <= k < i + 17
    ensures !Eol(s[k])
  {
    assert Lower(s[i + (k - i)]) == KEY[k - i];
  }

  /** Around 17 bytes without a line end, the line goes from the one before to the one after. */
  lemma LineOf(s: seq<byte>, i: nat)
    requires i + 17 <= |s| && forall k :: i <= k < i + 17 ==> !Eol(s[k])
    ensures LineEnd(s, i + 15) >= i + 17
    ensures forall k :: LineStart(s, i) < k < LineEnd(s, i + 15) ==> !Eol(s[k])
  {
    assert !Eol(s[i + 15]) && !Eol(s[i + 16]);
  }

  /** What is removed is one line: it holds the first declaration, it starts with the line end before it unless it
      is the first line, it runs up to a line end or the end, and has no other line end inside. */
  lemma OneLineRemoved(s: seq<byte>, i: nat)
    requires KeyAt(s, i)
    ensures var p, e := LineStart(s, i), LineEnd(s, i + 15);
            && p <= i && i + 17 <= e <= |s|
            && (p == 0 || Eol(s[p])) && (e == |s| || Eol(s[e]))
            && (forall k :: p < k < e ==> !Eol(s[k]))
  {
    forall k | i <= k < i + 17
      ensures !Eol(s[k])
    {
      KeyHasNoEol(s, i, k);
    }
    LineOf(s, i);
  }

  /** The file with its size line replaced by one at the end. */
  function WithSize(s: seq<byte>, size: nat): seq<byte>
    requires HasKey(s)
  {
    WithoutSize(s) + SIZE_LINE + Decimal(size)
  }

  lemma KeyMoved(s: seq<byte>, i: nat, t: seq<byte>, j: nat)
    requires KeyAt(t, j) && i + 17 <= |s| && s[i..i + 17] == t[j..j + 17]
    ensures KeyAt(s, i)
  {
    forall k | 0 <= k < 17
      ensures Lower(s[i + k]) == KEY[k]
    {
      assert s[i + k] == s[i..i + 17][k] && t[j + k] == t[j..j + 17][k];
    }
  }

  lemma KeyBefore(s: seq<byte>, j: nat, p: nat)
    requires KeyAt(s, j) && j < p < |s| && Eol(s[p])
    ensures j + 17 <= p
  {
    if p < j + 17 {
      KeyHasNoEol(s, j, p);
    }
  }

  /** A declaration left after the removal stood outside the removed line: joining its two sides makes none. */
  lemma DeclarationsLeft(s: seq<byte>, p: nat, e: nat, j: nat)
    requires p <= e <= |s| && (e < |s| ==> Eol(s[e]))
    requires KeyAt(s[..p] + s[e..], j)
    ensures (j + 17 <= p && KeyAt(s, j)) || (p <= j && KeyAt(s, j + (e - p)))
  {
    var r := s[..p] + s[e..];
    if j < p {
      if p < |r| {
        assert r[p] == s[e];
        KeyBefore(r, j, p);
      }
      assert s[j..j + 17] == r[j..j + 17];
      KeyMoved(s, j, r, j);
    } else {
      var q := j + (e - p);
      assert s[q..q + 17] == r[j..j + 17];
      KeyMoved(s, q, r, j);
    }
  }

  /** The text after the line end of the appended line. */
  lemma AppendedDeclaration(r: seq<byte>, size: nat, j: nat)
    requires KeyAt(r + SIZE_LINE + Decimal(size), j) && j + 17 > |r|
    ensures j == |r| + 1
  {
    var d := Decimal(size);
    var t := r + SIZE_LINE + d;
    assert t[|r|] == LF;
    if j < |r| {
      KeyBefore(t, j, |r|);
    }
    assert Lower(t[j + 0]) == KEY[0];
    assert Lower(t[j + 0]) == KEY[0] && Lower(t[j + 16]) == KEY[16];
  }

  lemma AppendedKey(r: seq<byte>, size: nat)
    ensures var t := r + SIZE_LINE + Decimal(size);
            KeyAt(t, |r| + 1) && t[|r| + 18..] == Decimal(size)
  {
    var t := r + SIZE_LINE + Decimal(size);
    var at := |r| + 1;
    forall k | 0 <= k < 17
      ensures Lower(t[at + k]) == KEY[k]
    {
      assert t[at + k] == SIZE_LINE[k + 1];
    }
  }

  lemma KeyInside(s: seq<byte>, j: nat)
    requires KeyAt(s, j)
    ensures j + 17 <= |s|
  {
  }

  /** A declaration behind the removed line is still there, further to the front. */
  lemma DeclarationKept(s: seq<byte>, p: nat, e: nat, j: nat, tail: seq<byte>)
    requires p <= e <= j && KeyAt(s, j)
    ensures KeyAt(s[..p] + s[e..] + tail, j - (e - p))
  {
    hide KeyAt;
    KeyInside(s, j);
    Shifted(s, p, e, tail, j, j + 17);
    KeyMoved(s[..p] + s[e..] + tail, j - (e - p), s, j);
  }

  lemma Shifted(s: seq<byte>, p: nat, e: nat, tail: seq<byte>, from: nat, to: nat)
    requires p <= e <= from <= to <= |s|
    ensures (s[..p] + s[e..] + tail)[from - (e - p)..to - (e - p)] == s[from..to]
  {
  }

  lemma InFront(r: seq<byte>, a: seq<byte>, b: seq<byte>, from: nat, to: nat)
    requires from <= to <= |r|
    ensures r[from..to] == (r + a + b)[from..to]
  {
  }

  /** Which declarations the corrected file has: those behind the removed line, and the new one. */
  lemma DeclarationsOf(s: seq<byte>, size: nat, j: nat)
    requires HasKey(s) && KeyAt(WithSize(s, size), j)
    ensures var p, e := LineStart(s, KeyFrom(s, 0)), LineEnd(s, KeyFrom(s, 0) + 15);
            j == |WithoutSize(s)| + 1 || (p <= e && p <= j && KeyAt(s, j + (e - p)))
  {
    hide LineStart, LineEnd, KeyFrom, KeyAt, Eol, Decimal;
    var r, t := WithoutSize(s), WithSize(s, size);
    var i := KeyFrom(s, 0);
    OneLineRemoved(s, i);
    if j + 17 <= |r| {
      InFront(r, SIZE_LINE, Decimal(size), j, j + 17);
      KeyMoved(r, j, t, j);
      DeclarationsLeft(s, LineStart(s, i), LineEnd(s, i + 15), j);
    } else {
      AppendedDeclaration(r, size, j);
    }
  }

  /** If the file declared its size once, the corrected file does too, and the number it gives is the new size. */
  lemma NewSizeDeclared(s: seq<byte>, size: nat)
    requires HasKey(s) && forall j: nat :: KeyAt(s, j) ==> j == KeyFrom(s, 0)
    ensures var t := WithSize(s, size);
            var at := |WithoutSize(s)| + 1;
            (forall j: nat :: KeyAt(t, j) <==> j == at) && Number(t[at + 17..]) == size
  {
    hide LineStart, LineEnd, KeyFrom, KeyAt, WithoutSize, Eol, Decimal;
    var r, t := WithoutSize(s), WithSize(s, size);
    var i := KeyFrom(s, 0);
    AppendedKey(r, size);
    DecimalNumber(size);
    OneLineRemoved(s, i);
    forall j: nat | KeyAt(t, j)
      ensures j == |r| + 1
    {
      DeclarationsOf(s, size, j);
    }
  }

  /** A size is declared behind position `e`. */
  ghost predicate DeclaredBehind(s: seq<byte>, e: nat) {
    exists j: nat :: e <= j && KeyAt(s, j)
  }

  /** The first declaration of the corrected file gives the new size exactly when no size was declared behind the
      removed line; otherwise it is that later, old declaration. */
  lemma NewSizeFirstIff(s: seq<byte>, size: nat)
    requires HasKey(s)
    ensures var t := WithSize(s, size);
            && HasKey(t)
            && (KeyFrom(t, 0) == |WithoutSize(s)| + 1 <==> !DeclaredBehind(s, LineEnd(s, KeyFrom(s, 0) + 15)))
            && Number(t[|WithoutSize(s)| + 18..]) == size
  {
    hide KeyAt, WithoutSize, WithSize, Eol, Decimal, Number;
    NewSizeThere(s, size);
    DecimalNumber(size);
    KeyInside(s, KeyFrom(s, 0));
    if DeclaredBehind(s, LineEnd(s, KeyFrom(s, 0) + 15)) {
      OldSizeFirst(s, size);
    } else {
      NewSizeFirst(s, size);
    }
  }

  lemma NewSizeThere(s: seq<byte>, size: nat)
    requires HasKey(s)
    ensures var t := WithSize(s, size);
            HasKey(t) && KeyFrom(t, 0) <= |WithoutSize(s)| + 1 && t[|WithoutSize(s)| + 18..] == Decimal(size)
  {
    hide KeyAt, WithoutSize, Eol, Decimal;
    AppendedKey(WithoutSize(s), size);
    KeyInside(WithSize(s, size), |WithoutSize(s)| + 1);
  }

  lemma NewSizeFirst(s: seq<byte>, size: nat)
    requires HasKey(s) && HasKey(WithSize(s, size)) && !DeclaredBehind(s, LineEnd(s, KeyFrom(s, 0) + 15))
    ensures KeyFrom(WithSize(s, size), 0) == |WithoutSize(s)| + 1
  {
    hide KeyAt, WithoutSize, WithSize, Eol, Decimal;
    DeclarationsOf(s, size, KeyFrom(WithSize(s, size), 0));
  }

  lemma OldSizeFirst(s: seq<byte>, size: nat)
    requires HasKey(s) && DeclaredBehind(s, LineEnd(s, KeyFrom(s, 0) + 15))
    ensures KeyFrom(WithSize(s, size), 0) <= |WithoutSize(s)|
  {
    hide KeyAt, Eol, Decimal;
    var i := KeyFrom(s, 0);
    var p, e := LineStart(s, i), LineEnd(s, i + 15);
    OneLineRemoved(s, i);
    var j: nat :| e <= j && KeyAt(s, j);
    KeyInside(s, j);
    var tail := SIZE_LINE + Decimal(size);
    assert WithSize(s, size) == s[..p] + s[e..] + tail;
    DeclarationKept(s, p, e, j, tail);
  }

  /** Looks for the first declaration; the end of the file stands for none. */
  method FindKey(buffer: array<byte>, used: nat) returns (i: nat)
    requires used <= buffer.Length
    ensures i == KeyFrom(buffer[..used], 0)
  {
    var s := buffer[..used];
    i := 0;
    while i < used && !KeyAt(s, i)
      invariant i <= KeyFrom(s, 0) == KeyFrom(s, i) <= used
      decreases used - i
    {
      i := i + 1;
    }
  }

  method FindLine(s: seq<byte>, at: nat) returns (pos: nat, i: nat)
    requires KeyAt(s, at)
    ensures pos == LineStart(s, at) && i == LineEnd(s, at + 15)
  {
    pos := at;
    while !(pos == 0 || s[pos] == CR || s[pos] == LF)
      invariant pos <= at && LineStart(s, pos) == LineStart(s, at)
      decreases pos
    {
      pos := pos - 1;
    }
    i := at + 15;
    while !(i == |s| || s[i] == CR || s[i] == LF)
      invariant i <= |s| && LineEnd(s, i) == LineEnd(s, at + 15)
      decreases |s| - i
    {
      i := i + 1;
    }
  }

  /** Deletes the first line declaring a jar size, shifting the rest of the buffer down. Without such a line the
      program would go on beyond the end of the file: its scan starts 15 bytes behind it. */
  method RemoveSizeLine(buffer: array<byte>, used: nat) returns (ok: bool, used': nat)
    requires used <= buffer.Length
    modifies buffer
    ensures ok == HasKey(old(buffer[..used])) && used' <= used
    ensures ok ==> buffer[..used'] == WithoutSize(old(buffer[..used]))
    ensures !ok ==> buffer[..] == old(buffer[..])
  {
    ghost var s := buffer[..used];
    var at := FindKey(buffer, used);
    if at == used { return false, used; }
    var pos, i := FindLine(buffer[..used], at);
    assert s[..pos] == buffer[..pos] && s[i..] == buffer[i..used];
    used' := ShiftDown(buffer, used, pos, i);
    ok := true;
  }

  /** Moves the bytes from `i` on down to `pos`. */
  method ShiftDown(buffer: array<byte>, used: nat, pos: nat, i: nat) returns (used': nat)
    requires pos <= i <= used <= buffer.Length
    modifies buffer
    ensures used' <= used && buffer[..used'] == old(buffer[..pos] + buffer[i..used])
  {
    ghost var s := buffer[..used];
    var from, to := i, pos;
    while from != used
      invariant i <= from <= used && to == pos + (from - i)
      invariant forall k :: 0 <= k < pos ==> buffer[k] == s[k]
      invariant forall k :: pos <= k < to ==> buffer[k] == s[k + (i - pos)]
      invariant forall k :: from <= k < used ==> buffer[k] == s[k]
      decreases used - from
    {
      buffer[to] := buffer[from];
      from := from + 1;
      to := to + 1;
    }
    used' := used - (from - to);
    assert buffer[..pos] == s[..pos] && buffer[pos..used'] == s[i..];
  }

  /** Corrects the declared size: the old line goes, a new one is added at the end. */
  method CorrectSize(buffer: array<byte>, used: nat, size2: nat) returns (ok: bool, file: array<byte>)
    requires used <= buffer.Length
    modifies buffer
    ensures ok == HasKey(old(buffer[..used]))
    ensures ok ==> fresh(file) && file[..] == WithSize(old(buffer[..used]), size2)
    ensures !ok ==> file == buffer && buffer[..] == old(buffer[..])
  {
    var used';
    ok, used' := RemoveSizeLine(buffer, used);
    if !ok { return false, buffer; }
    var content := buffer[..used'] + SIZE_LINE + Decimal(size2);
    file := new byte[|content|](k requires 0 <= k < |content| => content[k]);
    assert file[..] == content;
  }

  // ----- Line ends

  /** What the normaliser's loop writes for `s`, when the previous byte did or did not open a pair. */
  function Written(s: seq<byte>, wasClr: bool): seq<byte>
    decreases |s|
  {
    if s == [] then []
    else if Eol(s[0]) then (if wasClr then [] else [CR, LF]) + Written(s[1..], !wasClr)
    else [s[0]] + Written(s[1..], false)
  }

  /** Whether the last byte of `s` opened a pair. */
  function Opened(s: seq<byte>, wasClr: bool): bool
    decreases |s|
  {
    if s == [] then wasClr else Opened(s[1..], Eol(s[0]) && !wasClr)
  }

  lemma WrittenNothing(w: bool)
    ensures Written([], w) == [] && Opened([], w) == w
  {
  }

  lemma WrittenCons(b: byte, s: seq<byte>, w: bool)
    ensures Opened([b] + s, w) == Opened(s, Eol(b) && !w)
    ensures Written([b] + s, w) ==
            (if !Eol(b) then [b] else if w then [] else [CR, LF]) + Written(s, Eol(b) && !w)
  {
    assert ([b] + s)[1..] == s;
  }

  lemma {:induction false} WrittenConcat(s: seq<byte>, t: seq<byte>, w: bool)
    ensures Written(s + t, w) == Written(s, w) + Written(t, Opened(s, w))
    ensures Opened(s + t, w) == Opened(t, Opened(s, w))
    decreases |s|
  {
    hide Written, Opened;
    if s == [] {
      WrittenNothing(w);
      assert s + t == t;
    } else {
      var b, rest := s[0], s[1..];
      WrittenConcat(rest, t, Eol(b) && !w);
      WrittenCons(b, rest, w);
      WrittenCons(b, rest + t, w);
      assert s == [b] + rest && s + t == [b] + (rest + t);
    }
  }

  lemma WrittenSnoc(s: seq<byte>, b: byte, w: bool)
    ensures Opened(s + [b], w) == (Eol(b) && !Opened(s, w))
    ensures Written(s + [b], w) ==
            Written(s, w) + (if !Eol(b) then [b] else if Opened(s, w) then [] else [CR, LF])
  {
    WrittenConcat(s, [b], w);
    assert [b][1..] == [];
  }

  /** What is written up to position `i` and one byte further. */
  lemma WrittenUpTo(s: seq<byte>, i: nat)
    requires i < |s|
    ensures Opened(s[..i + 1], false) == (Eol(s[i]) && !Opened(s[..i], false))
    ensures Written(s[..i + 1], false) ==
            Written(s[..i], false) + (if !Eol(s[i]) then [s[i]] else if Opened(s[..i], false) then [] else [CR, LF])
    ensures |Written(s[..i + 1], false)| <= |Written(s, false)|
  {
    assert s[..i + 1] == s[..i] + [s[i]];
    WrittenSnoc(s[..i], s[i], false);
    WrittenConcat(s[..i + 1], s[i + 1..], false);
    assert s[..i + 1] + s[i + 1..] == s;
  }

  /** How many line-end bytes `s` begins with. */
  function RunLength(s: seq<byte>): (k: nat)
    ensures k <= |s| && (k < |s| ==> !Eol(s[k]))
  {
    if s == [] || !Eol(s[0]) then 0 else 1 + RunLength(s[1..])
  }

  function Pairs(n: nat): seq<byte> {
    if n == 0 then [] else [CR, LF] + Pairs(n - 1)
  }

  /** The intended reading: a run of k line-end bytes becomes k/2 pairs, rounded up. */
  function Normalised(s: seq<byte>): seq<byte>
    decreases |s|
  {
    if s == [] then []
    else if !Eol(s[0]) then [s[0]] + Normalised(s[1..])
    else Pairs((RunLength(s) + 1) / 2) + Normalised(s[RunLength(s)..])
  }

  lemma {:induction false} WrittenRun(s: seq<byte>, w: bool)
    ensures var k := RunLength(s);
            Written(s, w) == Pairs(if w then k / 2 else (k + 1) / 2) + Written(s[k..], false)
    decreases |s|
  {
    var k := RunLength(s);
    if k == 0 {
      assert s[k..] == s;
    } else {
      WrittenRun(s[1..], !w);
      assert s[1..][k - 1..] == s[k..];
    }
  }

  /** The loop with its flag does what was intended, run by run. */
  lemma {:induction false} WrittenIsNormalised(s: seq<byte>)
    ensures Written(s, false) == Normalised(s)
    decreases |s|
  {
    if s != [] {
      if Eol(s[0]) {
        WrittenRun(s, false);
        WrittenIsNormalised(s[RunLength(s)..]);
      } else {
        WrittenIsNormalised(s[1..]);
      }
    }
  }

  lemma RunLengthTwo(r: seq<byte>)
    ensures RunLength([CR, LF] + r) == 2 + RunLength(r)
  {
    var u, v := [CR, LF] + r, [LF] + r;
    assert u[1..] == v;
    assert v[1..] == r;
  }

  lemma {:induction false} PairsLength(n: nat)
    ensures |Pairs(n)| == 2 * n
  {
    if n > 0 {
      PairsLength(n - 1);
    }
  }

  lemma {:induction false} RunLengthPairs(n: nat, t: seq<byte>)
    requires t == [] || !Eol(t[0])
    ensures RunLength(Pairs(n) + t) == 2 * n
  {
    if n == 0 {
      assert Pairs(n) + t == t;
    } else {
      var r := Pairs(n - 1) + t;
      RunLengthPairs(n - 1, t);
      RunLengthTwo(r);
      assert [CR, LF] + Pairs(n - 1) + t == [CR, LF] + r;
    }
  }

  lemma NormalisedStart(s: seq<byte>)
    requires s == [] || !Eol(s[0])
    ensures Normalised(s) == [] || !Eol(Normalised(s)[0])
  {
  }

  lemma {:induction false} NormalisedIdempotent(s: seq<byte>)
    ensures Normalised(Normalised(s)) == Normalised(s)
    decreases |s|
  {
    if s != [] {
      if !Eol(s[0]) {
        NormalisedIdempotent(s[1..]);
        assert ([s[0]] + Normalised(s[1..]))[1..] == Normalised(s[1..]);
      } else {
        var k := RunLength(s);
        var n, t := (k + 1) / 2, Normalised(s[k..]);
        NormalisedIdempotent(s[k..]);
        NormalisedStart(s[k..]);
        RunLengthPairs(n, t);
        PairsLength(n);
        assert Pairs(n)[0] == CR && (Pairs(n) + t)[2 * n..] == t;
      }
    }
  }

  /** The bytes that are not line ends. */
  function Text(s: seq<byte>): seq<byte> {
    if s == [] then [] else (if Eol(s[0]) then [] else [s[0]]) + Text(s[1..])
  }

  lemma {:induction false} NormalisedKeepsText(s: seq<byte>)
    ensures Text(Written(s, false)) == Text(s)
  {
    WrittenKeepsText(s, false);
  }

  lemma {:induction false} WrittenKeepsText(s: seq<byte>, w: bool)
    ensures Text(Written(s, w)) == Text(s)
    decreases |s|
  {
    if s != [] {
      var w' := Eol(s[0]) && !w;
      var t := Written(s[1..], w');
      WrittenKeepsText(s[1..], w');
      if !Eol(s[0]) {
        assert ([s[0]] + t)[1..] == t;
      } else if w {
        assert [] + t == t;
      } else {
        assert ([CR, LF] + t)[1..] == [LF] + t && ([LF] + t)[1..] == t;
      }
    }
  }

  /** Copies the file to a second buffer with uniform line ends, as far as the buffer goes. */
  method Normalise(file: array<byte>, used: nat, buffer: array<byte>) returns (pos: nat)
    requires used <= file.Length && buffer != file
    requires |Normalised(file[..used])| <= buffer.Length
    modifies buffer
    ensures pos <= buffer.Length && buffer[..pos] == Normalised(file[..used])
  {
    ghost var s := file[..used];
    WrittenIsNormalised(s);
    pos := 0;
    var wasClr := false;
    for i := 0 to used
      invariant pos <= buffer.Length && file[..used] == s
      invariant buffer[..pos] == Written(s[..i], false) && wasClr == Opened(s[..i], false)
    {
      ghost var before := buffer[..pos];
      WrittenUpTo(s, i);
      assert file[i] == s[i];
      if file[i] == CR || file[i] == LF {
        if !wasClr {
          buffer[pos] := CR;
          buffer[pos + 1] := LF;
          pos := pos + 2;
          wasClr := true;
          assert buffer[..pos] == before + [CR, LF];
        } else {
          wasClr := false;
        }
      } else {
        buffer[pos] := file[i];
        pos := pos + 1;
        wasClr := false;
        assert buffer[..pos] == before + [s[i]];
      }
    }
    assert s[..used] == s;
  }

  lemma HasKeyIff(s: seq<byte>)
    ensures HasKey(s) <==> exists i: nat :: Declares(s, i)
  {
    if HasKey(s) { KeyAtIff(s, KeyFrom(s, 0)); }
    if i: nat :| Declares(s, i) {
      KeyAtIff(s, i);
    }
  }

  /** A wrong size is corrected and the line ends are made uniform; a file without a size line is corrected only if
      there is nothing to correct. */
  method RewriteJad(buffer: array<byte>, used: nat, size: int, size2: nat, work: array<byte>)
    returns (ok: bool, pos: nat)
    requires used <= buffer.Length && work != buffer
    requires size == size2 ==> |Normalised(buffer[..used])| <= work.Length
    requires size != size2 && HasKey(buffer[..used]) ==> |Normalised(WithSize(buffer[..used], size2))| <= work.Length
    modifies buffer, work
    ensures ok == old(size == size2 || exists i: nat :: Declares(buffer[..used], i))
    ensures ok ==> pos <= work.Length
    ensures size == size2 ==> work[..pos] == old(Normalised(buffer[..used]))
    ensures ok && size != size2 ==> old(HasKey(buffer[..used]))
    ensures ok && size != size2 ==> work[..pos] == old(Normalised(WithSize(buffer[..used], size2)))
    ensures !ok ==> buffer[..] == old(buffer[..]) && work[..] == old(work[..])
  {
    pos := 0;
    HasKeyIff(buffer[..used]);
    if size != size2 {
      var file;
      ok, file := CorrectSize(buffer, used, size2);
      if !ok { return; }
      assert file[..file.Length] == file[..];
      pos := Normalise(file, file.Length, work);
    } else {
      ok := true;
      pos := Normalise(buffer, used, work);
    }
  }

  // ----- The lines of the result

  /** The lines with text, in order: what stands between line ends. */
  function TextLines(s: seq<byte>): seq<seq<byte>>
    decreases |s|
  {
    if s == [] then []
    else if Eol(s[0]) then TextLines(s[1..])
    else [s[..LineEnd(s, 0)]] + TextLines(s[LineEnd(s, 0)..])
  }

  lemma {:induction false} LineEndAhead(a: seq<byte>, b: seq<byte>, i: nat)
    requires i <= |a| && (b == [] || Eol(b[0]))
    ensures LineEnd(a + b, i) == LineEnd(a, i)
    decreases |a| - i
  {
    if i < |a| {
      if !Eol(a[i]) { LineEndAhead(a, b, i + 1); }
    }
  }

  /** Text that ends with its last line keeps its lines when other lines follow. */
  lemma {:induction false} TextLinesConcat(a: seq<byte>, b: seq<byte>)
    requires b == [] || Eol(b[0])
    ensures TextLines(a + b) == TextLines(a) + TextLines(b)
    decreases |a|
  {
    if a == [] {
      assert a + b == b;
    } else if Eol(a[0]) {
      assert (a + b)[1..] == a[1..] + b;
      TextLinesConcat(a[1..], b);
    } else {
      var e := LineEnd(a, 0);
      LineEndAhead(a, b, 0);
      assert (a + b)[..e] == a[..e] && (a + b)[e..] == a[e..] + b;
      TextLinesConcat(a[e..], b);
    }
  }

  lemma TextLinesEol(b: byte, s: seq<byte>)
    requires Eol(b)
    ensures TextLines([b] + s) == TextLines(s)
  {
    assert ([b] + s)[1..] == s;
  }

  /** One line without line ends in it. */
  lemma {:induction false} LineEndNone(s: seq<byte>, i: nat)
    requires i <= |s| && forall k :: i <= k < |s| ==> !Eol(s[k])
    ensures LineEnd(s, i) == |s|
    decreases |s| - i
  {
    if i < |s| { LineEndNone(s, i + 1); }
  }

  lemma TextLinesOne(s: seq<byte>)
    requires s != [] && forall k :: 0 <= k < |s| ==> !Eol(s[k])
    ensures TextLines(s) == [s]
  {
    LineEndNone(s, 0);
    assert s[..|s|] == s && s[|s|..] == [];
  }

  lemma {:induction false} TextLinesRun(s: seq<byte>)
    ensures TextLines(s) == TextLines(s[RunLength(s)..])
    decreases |s|
  {
    if s != [] && Eol(s[0]) {
      TextLinesRun(s[1..]);
      assert s[1..][RunLength(s[1..])..] == s[RunLength(s)..];
    } else {
      assert s[0..] == s;
    }
  }

  lemma {:induction false} TextLinesPairs(n: nat, t: seq<byte>)
    ensures TextLines(Pairs(n) + t) == TextLines(t)
  {
    if n == 0 {
      assert Pairs(0) + t == t;
    } else {
      var r := Pairs(n - 1) + t;
      assert Pairs(n) + t == [CR] + ([LF] + r);
      TextLinesEol(CR, [LF] + r);
      TextLinesEol(LF, r);
      TextLinesPairs(n - 1, t);
    }
  }

  /** What stands before the first line end, and the rest. */
  lemma {:induction false} NormalisedText(s: seq<byte>, e: nat)
    requires e <= |s| && forall k :: 0 <= k < e ==> !Eol(s[k])
    ensures Normalised(s) == s[..e] + Normalised(s[e..])
    decreases e
  {
    if e > 0 {
      NormalisedText(s[1..], e - 1);
      assert s[..e] == [s[0]] + s[1..][..e - 1] && s[1..][e - 1..] == s[e..];
    } else {
      assert s[0..] == s;
    }
  }

  lemma NormalisedAfterLine(s: seq<byte>)
    requires s == [] || Eol(s[0])
    ensures Normalised(s) == [] || Eol(Normalised(s)[0])
  {
    if s != [] {
      assert Pairs((RunLength(s) + 1) / 2)[0] == CR;
    }
  }

  lemma NormalisedPairs(s: seq<byte>)
    requires s != [] && Eol(s[0])
    ensures Normalised(s) == Pairs((RunLength(s) + 1) / 2) + Normalised(s[RunLength(s)..])
  {
  }

  lemma NormalisedRun(s: seq<byte>)
    requires s != [] && Eol(s[0])
    ensures RunLength(s) > 0
    ensures TextLines(s) == TextLines(s[RunLength(s)..])
    ensures TextLines(Normalised(s)) == TextLines(Normalised(s[RunLength(s)..]))
  {
    hide TextLines, Normalised, Pairs;
    var k := RunLength(s);
    NormalisedPairs(s);
    TextLinesPairs((k + 1) / 2, Normalised(s[k..]));
    TextLinesRun(s);
  }

  lemma NormalisedLine(s: seq<byte>, e: nat)
    requires s != [] && !Eol(s[0]) && e == LineEnd(s, 0)
    ensures e > 0
    ensures TextLines(s) == [s[..e]] + TextLines(s[e..])
    ensures TextLines(Normalised(s)) == [s[..e]] + TextLines(Normalised(s[e..]))
  {
    hide TextLines, Normalised;
    LineBeyond(s);
    NormalisedText(s, e);
    NormalisedAfterLine(s[e..]);
    TextLinesConcat(s[..e], Normalised(s[e..]));
    TextLinesOne(s[..e]);
  }

  lemma LineBeyond(s: seq<byte>)
    requires s != [] && !Eol(s[0])
    ensures LineEnd(s, 0) > 0
    ensures TextLines(s) == [s[..LineEnd(s, 0)]] + TextLines(s[LineEnd(s, 0)..])
  {
  }

  /** Making line ends uniform changes no line. */
  lemma {:induction false} NormalisedKeepsLines(s: seq<byte>)
    ensures TextLines(Normalised(s)) == TextLines(s)
    decreases |s|
  {
    if s != [] {
      if Eol(s[0]) {
        NormalisedRun(s);
        NormalisedKeepsLines(s[RunLength(s)..]);
      } else {
        NormalisedLine(s, LineEnd(s, 0));
        NormalisedKeepsLines(s[LineEnd(s, 0)..]);
      }
    }
  }

  /** "MIDlet-Jar-Size: " and the number */
  function SizeText(size: nat): seq<byte> {
    seq(17, k requires 0 <= k < 17 => SizeChar(k)) + Decimal(size)
  }

  function SizeChar(k: nat): byte
    requires k < 17
  {
    KeyText(k);
    "MIDlet-Jar-Size: "[k] as int
  }

  lemma SizeTextIs(size: nat)
    ensures SizeText(size) == SIZE_LINE[1..] + Decimal(size)
    ensures [LF] + SizeText(size) == SIZE_LINE + Decimal(size)
    ensures SizeText(size) != [] && forall k :: 0 <= k < |SizeText(size)| ==> !Eol(SizeText(size)[k])
  {
    forall k | 0 <= k < 17
      ensures SizeChar(k) == SIZE_LINE[k + 1]
    {
      KeyText(k);
    }
    assert SizeText(size) == SIZE_LINE[1..] + Decimal(size);
    SizeLineText();
  }

  lemma SizeLineText()
    ensures SIZE_LINE[0] == LF && forall k :: 1 <= k < 18 ==> !Eol(SIZE_LINE[k])
  {
  }

  lemma SizeTextLine(size: nat)
    ensures TextLines(SizeText(size)) == [SizeText(size)]
  {
    SizeTextIs(size);
    TextLinesOne(SizeText(size));
  }

  /** A line with or without the line end before it. */
  lemma LineAlone(t: seq<byte>)
    requires |t| > 1 && forall k :: 0 < k < |t| ==> !Eol(t[k])
    ensures |TextLines(t)| == 1
  {
    if Eol(t[0]) {
      assert t == [t[0]] + t[1..];
      TextLinesEol(t[0], t[1..]);
      TextLinesOne(t[1..]);
    } else {
      TextLinesOne(t);
    }
  }

  lemma ThreeParts(s: seq<byte>, p: nat, e: nat)
    requires p <= e <= |s|
    ensures s == s[..p] + (s[p..e] + s[e..])
  {
  }

  lemma CutOut(s: seq<byte>, p: nat, e: nat)
    requires p < e <= |s| && (p == 0 || Eol(s[p])) && (e == |s| || Eol(s[e]))
    ensures TextLines(s) == TextLines(s[..p]) + TextLines(s[p..e]) + TextLines(s[e..])
    ensures TextLines(s[..p] + s[e..]) == TextLines(s[..p]) + TextLines(s[e..])
  {
    hide TextLines;
    var a, b, c := s[..p], s[p..e], s[e..];
    ThreeParts(s, p, e);
    assert (b + c)[0] == s[p];
    TextLinesStart(a, b + c);
    TextLinesConcat(b, c);
    TextLinesConcat(a, c);
  }

  /** The lines of a file around its size line. */
  lemma LinesAround(s: seq<byte>)
    requires HasKey(s)
    ensures var i := KeyFrom(s, 0);
            var p, e := LineStart(s, i), LineEnd(s, i + 15);
            && p <= e
            && TextLines(s) == TextLines(s[..p]) + TextLines(s[p..e]) + TextLines(s[e..])
            && TextLines(WithoutSize(s)) == TextLines(s[..p]) + TextLines(s[e..])
            && |TextLines(s[p..e])| == 1
  {
    hide TextLines;
    var i := KeyFrom(s, 0);
    var p, e := LineStart(s, i), LineEnd(s, i + 15);
    OneLineRemoved(s, i);
    CutOut(s, p, e);
    LineAlone(s[p..e]);
  }

  lemma TextLinesStart(a: seq<byte>, b: seq<byte>)
    requires a == [] || b == [] || Eol(b[0])
    ensures TextLines(a + b) == TextLines(a) + TextLines(b)
  {
    if a == [] {
      assert a + b == b;
    } else {
      TextLinesConcat(a, b);
    }
  }

  /** The lines with text of the corrected file are those of the original without the first size line, and the new
      size line after them. */
  lemma RewrittenLines(s: seq<byte>, size2: nat)
    requires HasKey(s)
    ensures var i := KeyFrom(s, 0);
            var p, e := LineStart(s, i), LineEnd(s, i + 15);
            && p <= e
            && TextLines(s) == TextLines(s[..p]) + TextLines(s[p..e]) + TextLines(s[e..]) && |TextLines(s[p..e])| == 1
            && TextLines(Normalised(WithSize(s, size2))) ==
               TextLines(s[..p]) + TextLines(s[e..]) + [SizeText(size2)]
  {
    hide TextLines, Normalised, KeyFrom, LineStart, LineEnd, KeyAt, WithoutSize;
    LinesAround(s);
    NormalisedKeepsLines(WithSize(s, size2));
    var tail := [LF] + SizeText(size2);
    SizeTextIs(size2);
    assert WithSize(s, size2) == WithoutSize(s) + tail;
    TextLinesConcat(WithoutSize(s), tail);
    TextLinesEol(LF, SizeText(size2));
    SizeTextLine(size2);
  }

  // ----- Blank lines

  /** Two line ends follow each other. */
  predicate BlankLine(s: seq<byte>) {
    |s| >= 4 && ((s[0] == CR && s[1] == LF && s[2] == CR && s[3] == LF) || BlankLine(s[1..]))
  }

  /** Three line-end bytes follow each other. */
  predicate Triple(s: seq<byte>) {
    |s| >= 3 && ((Eol(s[0]) && Eol(s[1]) && Eol(s[2])) || Triple(s[1..]))
  }

  lemma BlankCons(b: byte, s: seq<byte>)
    ensures BlankLine([b] + s) <==>
            BlankLine(s) || (b == CR && |s| >= 3 && s[0] == LF && s[1] == CR && s[2] == LF)
  {
    assert ([b] + s)[1..] == s;
  }

  lemma BlankPair(u: seq<byte>)
    ensures BlankLine([CR, LF] + u) <==> BlankLine(u) || (|u| >= 2 && u[0] == CR && u[1] == LF)
  {
    hide BlankLine;
    BlankCons(LF, u);
    BlankCons(CR, [LF] + u);
    assert [CR, LF] + u == [CR] + ([LF] + u);
  }

  lemma {:induction false} BlankPairs(n: nat, u: seq<byte>)
    requires u == [] || !Eol(u[0])
    ensures BlankLine(Pairs(n) + u) <==> n >= 2 || BlankLine(u)
  {
    if n == 0 {
      assert Pairs(n) + u == u;
    } else {
      var r := Pairs(n - 1) + u;
      BlankPairs(n - 1, u);
      BlankPair(r);
      assert Pairs(n) + u == [CR, LF] + r;
      assert n >= 2 ==> r[0] == CR && r[1] == LF;
      assert n == 1 ==> r == u;
    }
  }

  lemma TripleCons(b: byte, s: seq<byte>)
    ensures Triple([b] + s) <==> Triple(s) || (Eol(b) && |s| >= 2 && Eol(s[0]) && Eol(s[1]))
  {
    assert ([b] + s)[1..] == s;
  }

  lemma {:induction false} TripleRun(s: seq<byte>)
    ensures Triple(s) <==> RunLength(s) >= 3 || Triple(s[RunLength(s)..])
    decreases |s|
  {
    if s != [] && Eol(s[0]) {
      TripleRun(s[1..]);
      assert s[1..][RunLength(s[1..])..] == s[RunLength(s)..];
    } else {
      assert s[0..] == s;
    }
  }

  /** The result has a blank line exactly where three line-end bytes met. */
  lemma {:induction false} BlankIffTriple(s: seq<byte>)
    ensures BlankLine(Normalised(s)) <==> Triple(s)
    decreases |s|
  {
    if s != [] {
      if Eol(s[0]) {
        var k := RunLength(s);
        BlankIffTriple(s[k..]);
        NormalisedStart(s[k..]);
        BlankPairs((k + 1) / 2, Normalised(s[k..]));
        TripleRun(s);
      } else {
        BlankIffTriple(s[1..]);
        BlankCons(s[0], Normalised(s[1..]));
        assert s == [s[0]] + s[1..];
        TripleCons(s[0], s[1..]);
      }
    }
  }

  /** The last two bytes, or as many as there are. */
  function Last2(s: seq<byte>): seq<byte> {
    if |s| <= 2 then s else s[|s| - 2..]
  }

  function First2(s: seq<byte>): seq<byte> {
    if |s| <= 2 then s else s[..2]
  }

  lemma TripleShort(s: seq<byte>)
    requires |s| <= 2
    ensures !Triple(s)
  {
  }

  lemma TripleJoinShort(a: seq<byte>, b: seq<byte>)
    requires |a| <= 2 && !Triple(b)
    ensures Triple(a + b) <==> Triple(a + First2(b))
  {
    hide Triple;
    var c := First2(b);
    TripleShort(c);
    if a == [] {
      assert a + b == b && a + c == c;
    } else if |a| == 1 {
      TripleCons(a[0], b);
      TripleCons(a[0], c);
      assert a == [a[0]];
    } else {
      assert a + b == [a[0]] + ([a[1]] + b) && a + c == [a[0]] + ([a[1]] + c);
      TripleCons(a[1], b);
      TripleCons(a[1], c);
      TripleCons(a[0], [a[1]] + b);
      TripleCons(a[0], [a[1]] + c);
    }
  }

  lemma {:induction false} TripleJoin(a: seq<byte>, b: seq<byte>)
    requires !Triple(a) && !Triple(b)
    ensures Triple(a + b) <==> Triple(Last2(a) + First2(b))
    decreases |a|
  {
    hide Triple;
    if |a| <= 2 {
      TripleJoinShort(a, b);
    } else {
      var rest := a[1..];
      assert a == [a[0]] + rest && a + b == [a[0]] + (rest + b);
      TripleCons(a[0], rest);
      TripleJoin(rest, b);
      TripleCons(a[0], rest + b);
      assert Last2(rest) == Last2(a);
    }
  }

  lemma {:induction false} TriplePrefix(a: seq<byte>, b: seq<byte>)
    ensures Triple(a) ==> Triple(a + b)
    decreases |a|
  {
    if |a| >= 3 {
      TriplePrefix(a[1..], b);
      TripleCons(a[0], a[1..] + b);
      assert a + b == [a[0]] + (a[1..] + b);
    }
  }

  lemma {:induction false} TripleSuffix(a: seq<byte>, b: seq<byte>)
    ensures Triple(b) ==> Triple(a + b)
    decreases |a|
  {
    if a == [] {
      assert a + b == b;
    } else {
      TripleSuffix(a[1..], b);
      TripleCons(a[0], a[1..] + b);
      assert a + b == [a[0]] + (a[1..] + b);
    }
  }

  lemma {:induction false} NoTriple(s: seq<byte>)
    requires forall k :: 0 < k < |s| ==> !Eol(s[k])
    ensures !Triple(s)
    decreases |s|
  {
    if |s| >= 3 { NoTriple(s[1..]); }
  }

  /** Where three line-end bytes meet in the corrected file. */
  lemma SizedTriple(s: seq<byte>, size2: nat)
    requires HasKey(s)
    ensures Triple(WithSize(s, size2)) <==>
            Triple(WithoutSize(s)) || Triple(Last2(WithoutSize(s)) + [LF])
  {
    hide WithoutSize, SizeText, Decimal, Triple;
    var r, text := WithoutSize(s), SizeText(size2);
    SizeTextIs(size2);
    assert WithSize(s, size2) == r + ([LF] + text);
    TripleBefore(r, text);
  }

  /** A line end and a line without line ends after `r`. */
  lemma TripleBefore(r: seq<byte>, text: seq<byte>)
    requires text != [] && forall k :: 0 <= k < |text| ==> !Eol(text[k])
    ensures Triple(r + ([LF] + text)) <==> Triple(r) || Triple(Last2(r) + [LF])
  {
    hide Triple;
    var tail := [LF] + text;
    if Triple(r) {
      TriplePrefix(r, tail);
    } else {
      assert forall k :: 0 < k < |tail| ==> !Eol(tail[k]);
      NoTriple(tail);
      TripleJoin(r, tail);
      var a := Last2(r) + [LF];
      assert Last2(r) + First2(tail) == a + [text[0]];
      TripleSnoc(a, text[0]);
    }
  }

  lemma {:induction false} TripleSnoc(a: seq<byte>, b: byte)
    requires !Eol(b)
    ensures Triple(a + [b]) <==> Triple(a)
    decreases |a|
  {
    if a == [] {
      assert a + [b] == [b];
    } else {
      TripleSnoc(a[1..], b);
      TripleCons(a[0], a[1..]);
      TripleCons(a[0], a[1..] + [b]);
      assert a == [a[0]] + a[1..] && a + [b] == [a[0]] + (a[1..] + [b]);
    }
  }

  lemma CutTriple(s: seq<byte>, p: nat, e: nat)
    requires p <= e <= |s| && !Triple(s)
    ensures Triple(s[..p] + s[e..]) <==> Triple(Last2(s[..p]) + First2(s[e..]))
  {
    hide Triple;
    assert s == s[..p] + s[p..] && s == s[..e] + s[e..];
    TriplePrefix(s[..p], s[p..]);
    TripleSuffix(s[..e], s[e..]);
    TripleJoin(s[..p], s[e..]);
  }

  /** Whether the correction makes a blank line in a file that has none: exactly if three line-end bytes meet where
      the old line was, or the file without that line ends in two, before the line end of the new line. */
  lemma BlankLineAppearsIff(s: seq<byte>, size2: nat)
    requires HasKey(s) && !Triple(s)
    ensures var i := KeyFrom(s, 0);
            var p, e := LineStart(s, i), LineEnd(s, i + 15);
            && !BlankLine(Normalised(s))
            && p <= e
            && (BlankLine(Normalised(WithSize(s, size2))) <==>
                Triple(Last2(s[..p]) + First2(s[e..])) || Triple(Last2(WithoutSize(s)) + [LF]))
  {
    hide Triple, BlankLine, Normalised, KeyAt, LineStart, LineEnd, WithSize, Last2, First2, Eol;
    var i := KeyFrom(s, 0);
    OneLineRemoved(s, i);
    BlankIffTriple(s);
    BlankIffTriple(WithSize(s, size2));
    SizedTriple(s, size2);
    CutTriple(s, LineStart(s, i), LineEnd(s, i + 15));
  }

  /** With CR LF on both sides of the size line, a blank line appears in its place. */
  lemma CrLfBlankLine(s: seq<byte>, p: nat, e: nat, size2: nat)
    requires HasKey(s) && p == LineStart(s, KeyFrom(s, 0)) && e == LineEnd(s, KeyFrom(s, 0) + 15)
    requires p > 0 && s[p - 1] == CR && e + 1 < |s| && s[e] == CR && s[e + 1] == LF
    ensures BlankLine(Normalised(WithSize(s, size2)))
  {
    hide Triple, BlankLine, Normalised, KeyFrom, LineStart, LineEnd, WithSize, KeyAt;
    BlankIffTriple(WithSize(s, size2));
    SizedTriple(s, size2);
    TripleAcross(s[..p], s[e..]);
  }

  lemma TripleAcross(a: seq<byte>, b: seq<byte>)
    requires a != [] && Eol(a[|a| - 1]) && |b| >= 2 && Eol(b[0]) && Eol(b[1])
    ensures Triple(a + b)
  {
    var init, last := a[..|a| - 1], a[|a| - 1];
    TripleCons(last, b);
    TripleSuffix(init, [last] + b);
    assert a + b == init + ([last] + b);
  }

  // ----- Each line end by itself

  /** Every CR and every LF replaced by CR LF. */
  function EachEol(s: seq<byte>): seq<byte> {
    if s == [] then [] else (if s[0] == 0x0D || s[0] == 0x0A then [0x0D, 0x0A] else [s[0]]) + EachEol(s[1..])
  }

  /** Two line-end bytes follow each other. */
  predicate Adjacent(s: seq<byte>) {
    |s| >= 2 && ((s[0] in {0x0D, 0x0A} && s[1] in {0x0D, 0x0A}) || Adjacent(s[1..]))
  }

  lemma {:induction false} EachEolRun(s: seq<byte>)
    ensures EachEol(s) == Pairs(RunLength(s)) + EachEol(s[RunLength(s)..])
    decreases |s|
  {
    if s != [] && Eol(s[0]) {
      EachEolRun(s[1..]);
      assert s[1..][RunLength(s[1..])..] == s[RunLength(s)..];
    } else {
      assert s[0..] == s;
    }
  }

  lemma {:induction false} AdjacentRun(s: seq<byte>)
    ensures Adjacent(s) <==> RunLength(s) >= 2 || Adjacent(s[RunLength(s)..])
    decreases |s|
  {
    if s != [] && Eol(s[0]) {
      AdjacentRun(s[1..]);
      assert s[1..][RunLength(s[1..])..] == s[RunLength(s)..];
    } else {
      assert s[0..] == s;
    }
  }

  /** The normaliser never writes more than one pair for each line-end byte. */
  lemma {:induction false} NormalisedShorter(s: seq<byte>)
    ensures |Normalised(s)| <= |EachEol(s)|
    decreases |s|
  {
    if s != [] {
      if Eol(s[0]) {
        var k := RunLength(s);
        NormalisedShorter(s[k..]);
        EachEolRun(s);
        PairsLength(k);
        PairsLength((k + 1) / 2);
      } else {
        NormalisedShorter(s[1..]);
      }
    }
  }

  /** A run of line ends, written as pairs, and what follows it. */
  lemma SamePairs(m: nat, n: nat, t: seq<byte>, u: seq<byte>)
    requires m <= n && |t| <= |u|
    ensures Pairs(m) + t == Pairs(n) + u <==> m == n && t == u
  {
    PairsLength(m);
    PairsLength(n);
    if Pairs(m) + t == Pairs(n) + u {
      assert |Pairs(m) + t| == |Pairs(n) + u|;
      assert (Pairs(m) + t)[2 * m..] == t && (Pairs(n) + u)[2 * n..] == u;
    }
  }

  /** The normaliser replaces every CR and every LF by CR LF exactly in files without two line-end bytes in a row. */
  lemma {:induction false} EachEolIff(s: seq<byte>)
    ensures Normalised(s) == EachEol(s) <==> !Adjacent(s)
    decreases |s|
  {
    if s != [] {
      if Eol(s[0]) {
        var k := RunLength(s);
        EachEolIff(s[k..]);
        EachEolRun(s);
        AdjacentRun(s);
        NormalisedShorter(s[k..]);
        SamePairs((k + 1) / 2, k, Normalised(s[k..]), EachEol(s[k..]));
      } else {
        EachEolIff(s[1..]);
        EachEolText(s);
      }
    }
  }

  lemma EachEolText(s: seq<byte>)
    requires s != [] && !Eol(s[0])
    ensures Normalised(s) == EachEol(s) <==> Normalised(s[1..]) == EachEol(s[1..])
    ensures Adjacent(s) <==> Adjacent(s[1..])
  {
    var a, b := Normalised(s[1..]), EachEol(s[1..]);
    assert ([s[0]] + a)[1..] == a && ([s[0]] + b)[1..] == b;
  }

  /** Two line feeds become one line end. */
  lemma TwoLineFeeds()
    ensures Normalised([0x0A, 0x0A]) == [0x0D, 0x0A] && EachEol([0x0A, 0x0A]) == [0x0D, 0x0A, 0x0D, 0x0A]
  {
    var s := [LF, LF];
    assert s[1..] == [LF] && s[1..][1..] == [];
    assert EachEol([LF]) == [CR, LF] + EachEol([]);
    assert RunLength([LF]) == 1 && RunLength(s) == 2;
    assert s[2..] == [] && Pairs(1) == [CR, LF] + Pairs(0);
  }
}
