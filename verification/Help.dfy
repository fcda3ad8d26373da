/** Wrapping the help text of a command. */
module Help {

  /** Whether position `p` is inside an option: after a '[' and before the next ']'. */
  function InOption(s: string, p: nat): bool
    requires p <= |s|
  {
    if p == 0 then false
    else if InOption(s, p - 1) then s[p - 1] != ']'
    else s[p - 1] == '['
  }

  /** The '[' at position `q` is not closed before position `p`. */
  predicate OpenFrom(s: string, q: nat, p: nat)
    requires p <= |s|
  {
    q < p && s[q] == '[' && forall k :: q < k < p ==> s[k] != ']'
  }

  /** Some '[' before position `p` has no ']' behind it up to there. */
  predicate InBrackets(s: string, p: nat)
    requires p <= |s|
  {
    exists q :: 0 <= q < p && OpenFrom(s, q, p)
  }

  lemma {:induction false} InOptionIff(s: string, p: nat)
    requires p <= |s|
    ensures InOption(s, p) <==> InBrackets(s, p)
  {
    if p > 0 {
      InOptionIff(s, p - 1);
      if InBrackets(s, p - 1) {
        var q :| 0 <= q < p - 1 && OpenFrom(s, q, p - 1);
        if s[p - 1] != ']' { assert OpenFrom(s, q, p); }
      }
      if s[p - 1] == '[' { assert OpenFrom(s, p - 1, p); }
      if InBrackets(s, p) {
        var q :| 0 <= q < p && OpenFrom(s, q, p);
        if q < p - 1 { assert OpenFrom(s, q, p - 1); }
      }
    }
  }

  lemma OptionsAreBrackets(s: string)
    ensures forall p :: 0 <= p <= |s| ==> (InOption(s, p) <==> InBrackets(s, p))
  {
    forall p | 0 <= p <= |s|
      ensures InOption(s, p) <==> InBrackets(s, p)
    {
      InOptionIff(s, p);
    }
  }

  /** A line may end with the ']' at position `p`. */
  predicate ClosesAt(s: string, p: nat)
    requires p < |s|
  {
    InOption(s, p) && s[p] == ']'
  }

  /** A line may end before the space at position `p`. */
  predicate SpaceAt(s: string, p: nat)
    requires p < |s|
  {
    !InOption(s, p) && s[p] == ' '
  }

  /** Where the last character of the line may be, looking at positions below `pos`; 0 if nowhere, and -1 for a
      space at the very beginning. */
  function LastSplit(s: string, pos: nat): (split: int)
    requires pos <= |s|
    ensures -1 <= split < pos || split == 0
  {
    if pos == 0 then 0
    else if ClosesAt(s, pos - 1) then pos - 1
    else if SpaceAt(s, pos - 1) then pos - 2
    else LastSplit(s, pos - 1)
  }

  /** How many characters the scan looks at. */
  function Window(s: string, width: int): (n: nat)
    ensures n <= |s| && (n == 0 || n <= width)
  {
    if width <= 0 then 0 else if |s| < width then |s| else width
  }

  /** A split other than 0 is at the ']' of an option or before a space outside options. */
  lemma {:induction false} SplitPlace(s: string, pos: nat)
    requires pos <= |s| && LastSplit(s, pos) != 0
    ensures var end := LastSplit(s, pos) + 1;
            && end <= pos && !InBrackets(s, end)
            && (end == 0 ==> s[0] == ' ')
            && ((end < |s| && s[end] == ' ') || (end > 0 && s[end - 1] == ']'))
  {
    OptionsAreBrackets(s);
    if ClosesAt(s, pos - 1) || SpaceAt(s, pos - 1) {
    } else {
      SplitPlace(s, pos - 1);
    }
  }

  /** A line may end with the character at `split`, because of what stands at position `p`. */
  predicate Place(s: string, p: nat, split: int)
    requires p < |s|
  {
    IsPlace(s, p) && split == if s[p] == ']' then p else p - 1
  }

  /** A place to split: the bracket that closes an option, or a space outside options. */
  predicate IsPlace(s: string, p: nat)
    requires p < |s|
  {
    (s[p] == ']' && InBrackets(s, p)) || (s[p] == ' ' && !InBrackets(s, p))
  }

  /** Below `pos` there is no place to split. */
  predicate NoPlace(s: string, pos: nat)
    requires pos <= |s|
  {
    forall p :: 0 <= p < pos ==> !IsPlace(s, p)
  }

  /** The last place to split below `pos` is at `p`. */
  predicate LastPlace(s: string, pos: nat, p: nat)
    requires pos <= |s|
  {
    p < pos && IsPlace(s, p) && forall q :: p < q < pos ==> !IsPlace(s, q)
  }

  /** Of all places to split below `pos`, the split belongs to the last one; without one it is 0. As the space at
      position 1 gives 0 too, a line is not split there. */
  lemma {:induction false} SplitIsLast(s: string, pos: nat)
    requires pos <= |s|
    ensures forall p, split :: 0 <= p < pos && Place(s, p, split) ==> split <= LastSplit(s, pos)
    ensures LastSplit(s, pos) == 0 || exists p :: 0 <= p < pos && Place(s, p, LastSplit(s, pos))
    ensures NoPlace(s, pos) ==> LastSplit(s, pos) == 0
    ensures forall p :: 0 <= p < pos && LastPlace(s, pos, p) ==> Place(s, p, LastSplit(s, pos))
    ensures LastSplit(s, pos) == 0 <==> NoPlace(s, pos) || (pos > 1 && LastPlace(s, pos, 1) && s[1] == ' ')
  {
    OptionsAreBrackets(s);
    if pos > 0 {
      if IsPlace(s, pos - 1) {
        assert LastPlace(s, pos, pos - 1) && Place(s, pos - 1, LastSplit(s, pos));
      } else {
        SplitIsLast(s, pos - 1);
        assert LastSplit(s, pos) == LastSplit(s, pos - 1);
        assert NoPlace(s, pos) <==> NoPlace(s, pos - 1);
        assert forall p :: 0 <= p < pos - 1 ==> (LastPlace(s, pos, p) <==> LastPlace(s, pos - 1, p));
      }
    }
  }

  /** The length of the first line: all of the text when there is nowhere to split it. A shorter line ends
      outside options and fits. */
  function LineLength(s: string, width: int): (k: nat)
    requires s != ""
    ensures k <= |s| && (k == 0 ==> s[0] == ' ')
    ensures k < |s| ==> !InBrackets(s, k) && k <= width
  {
    var split := LastSplit(s, Window(s, width));
    if split == 0 then |s|
    else
      SplitPlace(s, Window(s, width));
      split + 1
  }

  /** What is left after a line: a space right after it is dropped. */
  function Rest(s: string, k: nat): string
    requires k <= |s|
  {
    if k < |s| && s[k] == ' ' then s[k + 1..] else s[k..]
  }

  function Wrap(s: string, width: int): seq<string>
    decreases |s|
  {
    if s == "" then []
    else
      var k := LineLength(s, width);
      [s[..k]] + Wrap(Rest(s, k), width)
  }

  function Spaces(n: nat): string {
    if n == 0 then "" else Spaces(n - 1) + " "
  }

  /** The lines as printed: every line but the first after the indentation. */
  function Rows(lines: seq<string>, indent: string): string {
    if lines == [] then ""
    else
      var last := |lines| - 1;
      Rows(lines[..last], indent) + if last == 0 then lines[last] + "\n" else indent + (lines[last] + "\n")
  }

  /** The lines after the first one, each indented by `len` spaces. */
  function Indented(lines: seq<string>, len: nat): string {
    if lines == [] then "" else seq(len, _ => ' ') + lines[0] + "\n" + Indented(lines[1..], len)
  }

  /** What is printed: a space and the first line, and the other lines indented. */
  function Printed(lines: seq<string>, len: nat): string {
    " " + if lines == [] then "" else lines[0] + "\n" + Indented(lines[1..], len)
  }

  function Lines(cols: int, len: nat, buff: string): seq<string> {
    if cols == 0 || len + |buff| < cols then [buff] else Wrap(buff, cols - len)
  }

  /** Scans for the last place to split within the width. */
  method FindSplit(remain: string, width: int) returns (split: int)
    ensures split == LastSplit(remain, Window(remain, width))
  {
    var pos, inOpt := 0, false;
    split := 0;
    while pos < width && pos < |remain|
      invariant pos <= Window(remain, width)
      invariant split == LastSplit(remain, pos) && inOpt == InOption(remain, pos)
      decreases |remain| - pos
    {
      if inOpt && remain[pos] == ']' {
        inOpt := false;
        split := pos;
      } else if remain[pos] == '[' {
        inOpt := true;
      } else if !inOpt && remain[pos] == ' ' {
        split := pos - 1;
      }
      pos := pos + 1;
    }
  }

  /** Prints one line and leaves the rest of the text. */
  method PrintLine(width: int, remain: string) returns (row: string, rest: string)
    requires remain != ""
    ensures row == remain[..LineLength(remain, width)] + "\n"
    ensures rest == Rest(remain, LineLength(remain, width)) && |rest| < |remain|
  {
    var split := FindSplit(remain, width);
    ghost var k := LineLength(remain, width);
    if split == 0 {
      assert remain[..k] == remain;
      return remain + "\n", "";
    }
    split := split + 1;
    assert split == k;
    row := remain[..split] + "\n";
    rest := remain[split..];
    if rest != "" && rest[0] == ' ' {
      rest := rest[1..];
    }
  }

  /** `lines` have been printed and `remain` is left. */
  ghost predicate Printing(out: string, lines: seq<string>, remain: string, width: int, spaces: string, buff: string) {
    out == Rows(lines, spaces) && lines + Wrap(remain, width) == Wrap(buff, width)
  }

  lemma PrintStep(out: string, lines: seq<string>, remain: string, width: int, spaces: string, buff: string)
    requires remain != "" && Printing(out, lines, remain, width, spaces, buff)
    ensures var k := LineLength(remain, width);
            var row := remain[..k] + "\n";
            Printing(out + if lines == [] then row else spaces + row, lines + [remain[..k]], Rest(remain, k),
                     width, spaces, buff)
  {
    WrapStep(lines, remain, width);
    RowsSnoc(lines, remain[..LineLength(remain, width)], spaces);
  }

  /** Prints line after line until nothing remains. */
  method PrintWrapped(width: int, spaces: string, buff: string) returns (out: string)
    ensures out == Rows(Wrap(buff, width), spaces)
  {
    out := "";
    var remain, first := buff, true;
    ghost var lines := [];
    assert [] + Wrap(buff, width) == Wrap(buff, width);
    while |remain| > 0
      invariant Printing(out, lines, remain, width, spaces, buff)
      invariant first <==> lines == []
      decreases |remain|
    {
      PrintStep(out, lines, remain, width, spaces, buff);
      var row, rest := PrintLine(width, remain);
      if !first {
        row := spaces + row;
      }
      lines := lines + [remain[..LineLength(remain, width)]];
      out := out + row;
      first := false;
      remain := rest;
    }
    assert lines + [] == lines;
  }

  /** Prints the text, wrapped to what the columns leave after an indentation of `len`. */
  method HelpSplit(cols: int, len: nat, buff: string) returns (out: string)
    ensures out == Printed(Lines(cols, len, buff), len)
  {
    RowsPrinted(Lines(cols, len, buff), len);
    OneRow(buff, Spaces(len));
    if cols == 0 {
      return " " + (buff + "\n");
    }
    out := " ";
    if len + |buff| < cols {
      out := out + (buff + "\n");
      return;
    }
    var spaces := "";
    for l := 0 to len
      invariant spaces == Spaces(l)
    {
      spaces := spaces + " ";
    }
    var wrapped := PrintWrapped(cols - len, spaces, buff);
    out := out + wrapped;
  }

  lemma OneRow(line: string, indent: string)
    ensures Rows([line], indent) == line + "\n"
  {
    assert [line][..0] == [];
  }

  lemma {:induction false} SpacesAre(n: nat)
    ensures Spaces(n) == seq(n, _ => ' ')
  {
    if n > 0 { SpacesAre(n - 1); }
  }

  lemma {:induction false} IndentedSnoc(lines: seq<string>, line: string, len: nat)
    ensures Indented(lines + [line], len) == Indented(lines, len) + (seq(len, _ => ' ') + line + "\n")
  {
    if lines == [] {
      assert [] + [line] == [line] && [line][1..] == [];
    } else {
      assert (lines + [line])[1..] == lines[1..] + [line];
      IndentedSnoc(lines[1..], line, len);
    }
  }

  lemma {:induction false} RowsPrinted(lines: seq<string>, len: nat)
    ensures " " + Rows(lines, Spaces(len)) == Printed(lines, len)
  {
    SpacesAre(len);
    if |lines| > 1 {
      var init, line := lines[..|lines| - 1], lines[|lines| - 1];
      assert lines == init + [line] && lines[1..] == init[1..] + [line];
      RowsPrinted(init, len);
      RowsSnoc(init, line, Spaces(len));
      IndentedSnoc(init[1..], line, len);
      var row, first := seq(len, _ => ' ') + line + "\n", lines[0] + "\n";
      assert Spaces(len) + (line + "\n") == row;
      assert " " + (Rows(init, Spaces(len)) + row) == " " + Rows(init, Spaces(len)) + row;
      assert " " + (first + Indented(init[1..], len)) + row == " " + (first + (Indented(init[1..], len) + row));
    } else if |lines| == 1 {
      OneRow(lines[0], Spaces(len));
      assert lines == [lines[0]] && Indented([], len) == "";
    }
  }

  lemma RowsSnoc(lines: seq<string>, line: string, indent: string)
    ensures Rows(lines + [line], indent) ==
            Rows(lines, indent) + if lines == [] then line + "\n" else indent + (line + "\n")
  {
    assert (lines + [line])[..|lines|] == lines;
  }

  lemma WrapStep(lines: seq<string>, s: string, width: int)
    requires s != ""
    ensures var k := LineLength(s, width);
            lines + Wrap(s, width) == (lines + [s[..k]]) + Wrap(Rest(s, k), width)
  {
  }

  // ----- What the wrapping keeps

  /** The window offers no place to split, or only ones before the space at position 1, which counts as none. */
  predicate CannotSplit(s: string, n: nat)
    requires n <= |s|
  {
    NoPlace(s, n) || (n > 1 && LastPlace(s, n, 1) && s[1] == ' ')
  }

  /** A line of `s` has `k` characters: up to the last place to split in the window, or all of them. */
  predicate EndsLine(s: string, width: int, k: nat) {
    var n := if width <= 0 then 0 else if |s| < width then |s| else width;
    if CannotSplit(s, n) then k == |s|
    else exists p :: 0 <= p < n && LastPlace(s, n, p) && k == if s[p] == ']' then p + 1 else p
  }

  /** From position `from` on, the text is the lines one after the other: each ends where it has to, a space after it
      is dropped, and no break is inside an option. */
  predicate Breaks(text: string, from: nat, lines: seq<string>, width: int)
    decreases |lines|
  {
    && from <= |text| && !InBrackets(text, from)
    && if lines == [] then from == |text|
       else
         var end := from + |lines[0]|;
         && end <= |text| && text[from..end] == lines[0] && EndsLine(text[from..], width, |lines[0]|)
         && if end == |text| then |lines| == 1
            else !InBrackets(text, end) && Breaks(text, if text[end] == ' ' then end + 1 else end, lines[1..], width)
  }

  /** The option brackets of the rest of the text read the same on their own when the break is outside options. */
  lemma {:induction false} InOptionRest(text: string, from: nat, p: nat)
    requires from + p <= |text| && !InBrackets(text, from)
    ensures InBrackets(text[from..], p) == InBrackets(text, from + p)
    decreases p
  {
    var s := text[from..];
    if InBrackets(s, p) {
      var q :| 0 <= q < p && OpenFrom(s, q, p);
      assert forall k :: from + q < k < from + p ==> text[k] == s[k - from];
      assert OpenFrom(text, from + q, from + p);
    }
    if InBrackets(text, from + p) {
      var q :| 0 <= q < from + p && OpenFrom(text, q, from + p);
      if q < from {
        assert OpenFrom(text, q, from);
      } else {
        assert OpenFrom(s, q - from, p);
      }
    }
  }

  lemma BreaksCons(text: string, from: nat, end: nat, next: nat, more: seq<string>, width: int)
    requires from <= end < |text| && !InBrackets(text, from) && !InBrackets(text, end)
    requires next == (if text[end] == ' ' then end + 1 else end) && Breaks(text, next, more, width)
    requires EndsLine(text[from..], width, end - from)
    ensures Breaks(text, from, [text[from..end]] + more, width)
  {
    hide InBrackets, EndsLine;
    var lines := [text[from..end]] + more;
    assert lines[0] == text[from..end] && lines[1..] == more;
  }

  lemma BreaksLast(text: string, from: nat, width: int)
    requires from <= |text| && !InBrackets(text, from) && EndsLine(text[from..], width, |text| - from)
    ensures Breaks(text, from, [text[from..|text|]] + [], width)
  {
    hide InBrackets, EndsLine;
    var lines := [text[from..|text|]] + [];
    assert lines[0] == text[from..|text|] && |lines| == 1;
  }

  /** Rejoining the lines, with the space dropped at a break put back, gives the text again; no option is broken, and
      each line is as long as it can be. */
  lemma {:induction false} WrapBreaks(text: string, from: nat, width: int)
    requires from <= |text| && !InBrackets(text, from)
    ensures Breaks(text, from, Wrap(text[from..], width), width)
    decreases |text| - from
  {
    hide InBrackets, EndsLine, Breaks;
    var s := text[from..];
    if s == "" {
      NothingToBreak(text, from, width);
    } else {
      var k := LineLength(s, width);
      var end, rest := from + k, Rest(s, k);
      assert s[..k] == text[from..end];
      LineOf(s, width);
      if end < |text| {
        InOptionRest(text, from, k);
        var next := if text[end] == ' ' then end + 1 else end;
        assert rest == text[next..];
        if text[end] == ' ' { OutsideAfterSpace(text, end); }
        WrapBreaks(text, next, width);
        BreaksCons(text, from, end, next, Wrap(rest, width), width);
      } else {
        assert rest == "";
        BreaksLast(text, from, width);
      }
    }
  }

  lemma NothingToBreak(text: string, from: nat, width: int)
    requires from == |text| && !InBrackets(text, from)
    ensures Breaks(text, from, [], width)
  {
  }

  lemma OutsideAfterSpace(text: string, end: nat)
    requires end < |text| && text[end] == ' ' && !InBrackets(text, end)
    ensures !InBrackets(text, end + 1)
  {
    InOptionIff(text, end);
    InOptionIff(text, end + 1);
  }

  /** Every line that is followed by another one fits in the width. */
  lemma {:induction false} WrapFits(s: string, width: int, i: nat)
    requires i + 1 < |Wrap(s, width)|
    ensures |Wrap(s, width)[i]| <= width
    decreases |s|
  {
    var k := LineLength(s, width);
    var rest := Rest(s, k);
    var more := Wrap(rest, width);
    assert Wrap(s, width) == [s[..k]] + more;
    if i > 0 {
      WrapFits(rest, width, i - 1);
    } else {
      assert more != [];
      assert k < |s|;
    }
  }

  /** The printed lines of any text are the text itself if they need not be wrapped; otherwise they rejoin to it,
      break no option, and are each as long as they can be. */
  lemma HelpKeepsText(cols: int, len: nat, buff: string)
    ensures if cols == 0 || len + |buff| < cols then Lines(cols, len, buff) == [buff]
            else Breaks(buff, 0, Lines(cols, len, buff), cols - len)
  {
    hide InBrackets, Breaks, Wrap;
    assert buff[0..] == buff;
    InOptionIff(buff, 0);
    WrapBreaks(buff, 0, cols - len);
  }

  lemma LineOf(s: string, width: int)
    requires s != ""
    ensures EndsLine(s, width, LineLength(s, width))
  {
    var n := Window(s, width);
    SplitIsLast(s, n);
    if !CannotSplit(s, n) {
      var p := SomeLastPlace(s, n);
      assert Place(s, p, LastSplit(s, n));
    }
  }

  lemma {:induction false} SomeLastPlace(s: string, pos: nat) returns (p: nat)
    requires pos <= |s| && !NoPlace(s, pos)
    ensures p < pos && LastPlace(s, pos, p)
  {
    if IsPlace(s, pos - 1) {
      p := pos - 1;
    } else {
      p := SomeLastPlace(s, pos - 1);
    }
  }

  /** A text that is wrapped stays on one line exactly when the window cannot be split, or its last place to split is
      the closing bracket that ends the text. */
  lemma OneLineIff(s: string, width: int)
    requires s != ""
    ensures var n := Window(s, width);
            Wrap(s, width) == [s] <==>
            CannotSplit(s, n) || (n == |s| && LastPlace(s, n, n - 1) && s[n - 1] == ']')
  {
    var k, n := LineLength(s, width), Window(s, width);
    LineOf(s, width);
    assert Wrap(s, width) == [s[..k]] + Wrap(Rest(s, k), width);
    if k < |s| {
      assert Wrap(s, width)[0] != s;
    } else {
      assert s[..k] == s && Rest(s, k) == "";
      assert Wrap(s, width) == [s];
    }
  }

  /** The first line fits exactly when the whole text does, or the window can be split. */
  lemma FirstLineFitsIff(s: string, width: int)
    requires s != ""
    ensures Wrap(s, width) != []
    ensures |Wrap(s, width)[0]| <= width <==> |s| <= width || !CannotSplit(s, Window(s, width))
  {
    LineOf(s, width);
    assert Wrap(s, width)[0] == s[..LineLength(s, width)];
  }

  /** A space at position 1 is a place to split that is not used: the line runs over. */
  lemma SpaceAtOneOverflows()
    ensures var s := "a bcdefghij";
            && Window(s, 4) == 4 && Place(s, 1, 0) && LastSplit(s, 4) == 0
            && Wrap(s, 4) == [s] && |s| > 4
  {
    var s := "a bcdefghij";
    assert !InOption(s, 1) && !InOption(s, 2) && !InOption(s, 3);
    assert LastPlace(s, 4, 1);
    OneLineIff(s, 4);
    SplitIsLast(s, 4);
  }

  /** A text that fits into the columns stays on one line exactly when it leaves one of them free, cannot be split, or
      ends in the closing bracket that is its last place to split. */
  lemma FittingTextIff(cols: nat, len: nat, buff: string)
    requires buff != "" && len + |buff| <= cols
    ensures Lines(cols, len, buff) == [buff] <==>
            || len + |buff| < cols
            || CannotSplit(buff, |buff|)
            || (LastPlace(buff, |buff|, |buff| - 1) && buff[|buff| - 1] == ']')
  {
    hide Wrap, CannotSplit, LastPlace;
    if len + |buff| == cols {
      OneLineIff(buff, cols - len);
    }
  }

  /** A text that fills the columns exactly is still broken at its last space. */
  lemma FittingTextBroken(len: nat)
    ensures Lines(len + 5, len, "ab cd") == ["ab", "cd"]
  {
    var s, t := "ab cd", "cd";
    assert LastSplit(t, 2) == 0;
    assert LastSplit(s, 5) == 1 by {
      assert !InOption(s, 1) && !InOption(s, 2) && !InOption(s, 3) && !InOption(s, 4);
      assert LastSplit(s, 4) == LastSplit(s, 3) == 1;
    }
    assert s[..2] == "ab" && Rest(s, 2) == t;
    assert LineLength(s, 5) == 2 && LineLength(t, 5) == 2;
    assert t[..2] == t && Rest(t, 2) == "";
    assert Wrap(t, 5) == [t] + [];
  }
}
