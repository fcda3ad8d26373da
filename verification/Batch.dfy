/** Splitting the lines of a batch file into arguments. */
module Batch {
  import opened Ascii
  import opened Wrappers

  const NUL: char := '\0'
  const LF: char := '\n'
  const MAX_ARGS: nat := 20
  /** What fits into the line buffer of 2000 characters as it is used. */
  const LINE_MAX: nat := 1997

  predicate IsQuote(c: char) {
    c == '\'' || c == '"'
  }

  // ----- What a line means

  /** The arguments in `s`, after the unquoted characters `w`: a space or the end finishes an argument, a quote
      drops what came before it and opens a quoted argument. */
  function Unquoted(s: string, w: string): seq<string>
    decreases |s|
  {
    if s == [] then [w]
    else if s[0] == ' ' then [w] + Unquoted(s[1..], "")
    else if IsQuote(s[0]) then Quoted(s[1..], s[0], "")
    else Unquoted(s[1..], w + [s[0]])
  }

  /** The arguments in `s`, after the characters `w` of an argument opened by `q`: the closing quote also eats the
      character after it; without a closing quote the argument is lost. */
  function Quoted(s: string, q: char, w: string): seq<string>
    decreases |s|
  {
    if s == [] then []
    else if s[0] == q then [w] + (if |s| == 1 then [] else Unquoted(s[2..], ""))
    else Quoted(s[1..], q, w + [s[0]])
  }

  function Words(s: string): seq<string> {
    Unquoted(s, "")
  }

  function Trimmed(s: string): string {
    if s != [] && IsSpace(s[|s| - 1]) then Trimmed(s[..|s| - 1]) else s
  }

  /** A line's arguments: none for an empty line or a comment. */
  function LineWords(line: string): seq<string> {
    var s := Trimmed(line);
    if s == [] || s[0] == '#' then [] else Words(s)
  }

  /** How many characters the first line of a file takes, its line feed included, but no more than `max`. */
  function LineWithin(file: string, max: nat): (n: nat)
    ensures n <= |file| && n <= max && (file != "" && max > 0 ==> n > 0)
    ensures forall i :: 0 <= i < n - 1 ==> file[i] != LF
  {
    if file == "" || max == 0 then 0 else if file[0] == LF then 1 else 1 + LineWithin(file[1..], max - 1)
  }

  /** How much of a file is read as one line. */
  function LineLength(file: string): (n: nat)
    ensures n <= |file| && n <= LINE_MAX && (file != "" ==> n > 0)
    ensures forall i :: 0 <= i < n - 1 ==> file[i] != LF
  {
    LineWithin(file, LINE_MAX)
  }

  /** What a C string holds of these characters. */
  function UpToNul(s: string): (t: string)
    ensures t <= s && NUL !in t
  {
    if s == "" || s[0] == NUL then "" else [s[0]] + UpToNul(s[1..])
  }

  /** The commands of a file: the arguments of each line that has any. */
  function Commands(file: string): seq<seq<string>>
    decreases |file|
  {
    if file == "" then []
    else
      var n := LineLength(file);
      var words := LineWords(UpToNul(file[..n]));
      (if words == [] then [] else [words]) + Commands(file[n..])
  }

  /** No line has more arguments than the vector takes. */
  predicate ArgsFit(file: string)
    decreases |file|
  {
    file == "" ||
    (var n := LineLength(file);
     |LineWords(UpToNul(file[..n]))| < MAX_ARGS && ArgsFit(file[n..]))
  }

  /** What running a file does: its commands, or an overflow of the argument vector. */
  function RunFile(file: string): Option<seq<seq<string>>> {
    if ArgsFit(file) then Some(Commands(file)) else None
  }

  // ----- The program

  /** The arguments still to be found, in the loop's own terms. */
  ghost function Ahead(ln: string, i: nat, j: nat, token: char): seq<string>
    requires i == |ln| + 1 || j <= i <= |ln|
  {
    if i == |ln| + 1 then []
    else if IsQuote(token) then Quoted(ln[i..], token, ln[j..i])
    else Unquoted(ln[i..], ln[j..i])
  }

  /** Adds an argument to the vector. */
  method Push(argsv: array<string>, argsc: nat, w: string, ghost done: seq<string>) returns (argsc': nat)
    requires argsc + 1 < argsv.Length && argsv[1..argsc + 1] == done
    modifies argsv
    ensures argsc' == argsc + 1 && argsv[1..argsc' + 1] == done + [w] && argsv[0] == old(argsv[0])
  {
    argsc' := argsc + 1;
    argsv[argsc'] := w;
  }

  /** Splits a line into the argument vector, from index 1 on. */
  method SplitWords(ln: string, argsv: array<string>) returns (argsc: nat)
    requires NUL !in ln && argsv.Length == MAX_ARGS && |Words(ln)| < MAX_ARGS
    modifies argsv
    ensures argsc == |Words(ln)| && argsv[1..argsc + 1] == Words(ln)
    ensures argsv[0] == old(argsv[0])
  {
    hide Ahead, Words;
    var i, j := 0, 0;
    argsc := 0;
    var len := |ln|;
    var token := NUL;
    ghost var done := [];
    SplitStart(ln);
    while i <= len
      invariant Splitting(ln, done, i, j, token)
      invariant argsc == |done| && argsv[1..argsc + 1] == done && argsv[0] == old(argsv[0])
      decreases len + 1 - i
    {
      var c := if i < len then ln[i] else NUL;
      SplitStep(ln, done, i, j, token);
      if token == '\'' || token == '"' {
        if c == token {
          token := NUL;
          argsc := Push(argsv, argsc, ln[j..i], done);
          done := done + [ln[j..i]];
          i := i + 1;
          j := i + 1;
        }
      } else if c == ' ' || c == NUL {
        argsc := Push(argsv, argsc, ln[j..i], done);
        done := done + [ln[j..i]];
        j := i + 1;
      } else if c == '\'' || c == '"' {
        token := c;
        j := i + 1;
      }
      i := i + 1;
    }
  }

  /** `done` are the arguments found so far. */
  ghost predicate Splitting(ln: string, done: seq<string>, i: nat, j: nat, token: char) {
    && (i == |ln| + 1 || j <= i <= |ln|)
    && done + Ahead(ln, i, j, token) == Words(ln)
    && |done| <= |Words(ln)|
    && (i == |ln| + 1 ==> done == Words(ln))
  }

  lemma SplitStart(ln: string)
    ensures Splitting(ln, [], 0, 0, NUL)
  {
    assert ln[0..] == ln && ln[0..0] == "";
  }

  lemma SplitStep(ln: string, done: seq<string>, i: nat, j: nat, token: char)
    requires NUL !in ln && j <= i <= |ln| && Splitting(ln, done, i, j, token)
    ensures var c := if i < |ln| then ln[i] else NUL;
            if IsQuote(token) then
              if c == token then Splitting(ln, done + [ln[j..i]], i + 2, i + 2, NUL) && |done| < |Words(ln)|
              else Splitting(ln, done, i + 1, j, token)
            else if c == ' ' || c == NUL then
              Splitting(ln, done + [ln[j..i]], i + 1, i + 1, token) && |done| < |Words(ln)|
            else if IsQuote(c) then Splitting(ln, done, i + 1, i + 1, c)
            else Splitting(ln, done, i + 1, j, token)
  {
    hide Ahead, Words;
    AheadStep(ln, i, j, token);
    var c := if i < |ln| then ln[i] else NUL;
    NothingAhead(ln, i + 1, j, token);
    NothingAhead(ln, i + 1, i + 1, token);
    NothingAhead(ln, i + 1, i + 1, c);
    if i < |ln| { NothingAhead(ln, i + 2, i + 2, NUL); }
    if c == (if IsQuote(token) then token else ' ') || (!IsQuote(token) && c == NUL) {
      var rest := if IsQuote(token) then Ahead(ln, i + 2, i + 2, NUL) else Ahead(ln, i + 1, i + 1, token);
      assert done + ([ln[j..i]] + rest) == (done + [ln[j..i]]) + rest;
    }
  }

  lemma NothingAhead(ln: string, i: nat, j: nat, token: char)
    requires i == |ln| + 1 || j <= i <= |ln|
    ensures i == |ln| + 1 ==> Ahead(ln, i, j, token) == []
  {
  }

  lemma DropOne(ln: string, i: nat)
    requires i < |ln|
    ensures ln[i..] != [] && ln[i..][0] == ln[i] && ln[i..][1..] == ln[i + 1..]
  {
  }

  /** One round of the loop. */
  lemma AheadStep(ln: string, i: nat, j: nat, token: char)
    requires NUL !in ln && j <= i <= |ln|
    ensures var c := if i < |ln| then ln[i] else NUL;
            Ahead(ln, i, j, token) ==
            if IsQuote(token) then
              if c == token then [ln[j..i]] + Ahead(ln, i + 2, i + 2, NUL) else Ahead(ln, i + 1, j, token)
            else if c == ' ' || c == NUL then [ln[j..i]] + Ahead(ln, i + 1, i + 1, token)
            else if IsQuote(c) then Ahead(ln, i + 1, i + 1, c)
            else Ahead(ln, i + 1, j, token)
  {
    if i < |ln| {
      DropOne(ln, i);
      assert ln[j..i] + [ln[i]] == ln[j..i + 1];
      assert ln[i + 1..i + 1] == "";
      if i + 1 < |ln| {
        assert ln[i..][2..] == ln[i + 2..] && ln[i + 2..i + 2] == "";
      }
    } else {
      assert [ln[j..i]] + [] == [ln[j..i]];
    }
  }

  /** Handles one line of a batch file. */
  method RunBatchLine(line: string, argsv: array<string>) returns (argsc: nat)
    requires NUL !in line && argsv.Length == MAX_ARGS && |LineWords(line)| < MAX_ARGS
    modifies argsv
    ensures argsc == |LineWords(line)| && argsv[1..argsc + 1] == LineWords(line)
    ensures argsv[0] == old(argsv[0])
  {
    var ln := line;
    var pos := |ln| - 1;
    while pos >= 0 && IsSpace(ln[pos])
      invariant -1 <= pos < |ln| || pos == -1
      invariant ln == line[..pos + 1] && Trimmed(ln) == Trimmed(line)
      decreases pos
    {
      ln := ln[..pos];
      pos := pos - 1;
    }
    if |ln| < 1 || ln[0] == '#' {
      return 0;
    }
    argsc := SplitWords(ln, argsv);
  }

  /** How far the next line reaches: to its line feed, the end of the buffer or the end of the file. */
  method FindLineEnd(rest: string) returns (n: nat)
    requires rest != ""
    ensures n == LineLength(rest)
  {
    n := 0;
    assert rest[0..] == rest;
    while n + 1 < |rest| && rest[n] != LF && n + 1 < LINE_MAX
      invariant n < |rest| && n < LINE_MAX && n + LineWithin(rest[n..], LINE_MAX - n) == LineLength(rest)
      decreases |rest| - n
    {
      LineWithinStep(rest, n, LINE_MAX - n);
      n := n + 1;
    }
    LineWithinStep(rest, n, LINE_MAX - n);
    n := n + 1;
  }

  lemma LineWithinStep(rest: string, n: nat, max: nat)
    requires n < |rest| && max > 0
    ensures LineWithin(rest[n..], max) ==
            if rest[n] == LF || n + 1 == |rest| || max == 1 then 1 else 1 + LineWithin(rest[n + 1..], max - 1)
  {
    assert rest[n..][1..] == rest[n + 1..];
  }

  /** The length of a C string. */
  method Strlen(s: string) returns (n: nat)
    ensures n <= |s| && s[..n] == UpToNul(s)
  {
    n := 0;
    assert s[0..] == s;
    while n < |s| && s[n] != NUL
      invariant n <= |s| && s[..n] + UpToNul(s[n..]) == UpToNul(s)
    {
      UpToNulStep(s, n);
      n := n + 1;
    }
    assert s[..n] + "" == s[..n];
  }

  lemma UpToNulStep(s: string, n: nat)
    requires n < |s| && s[n] != NUL
    ensures s[..n] + UpToNul(s[n..]) == s[..n + 1] + UpToNul(s[n + 1..])
  {
    assert s[n..][1..] == s[n + 1..];
    assert s[..n + 1] == s[..n] + [s[n]];
    assert s[..n] + ([s[n]] + UpToNul(s[n + 1..])) == s[..n] + [s[n]] + UpToNul(s[n + 1..]);
  }

  /** Reads a batch file line by line and runs the commands it finds. */
  method RunBatch(file: string, argsv: array<string>) returns (commands: seq<seq<string>>)
    requires argsv.Length == MAX_ARGS && ArgsFit(file)
    modifies argsv
    ensures commands == Commands(file)
  {
    hide UpToNul, LineWords, Commands, ArgsFit;
    commands := [];
    var rest := file;
    assert [] + Commands(file) == Commands(file);
    while rest != ""
      invariant ArgsFit(rest) && commands + Commands(rest) == Commands(file)
      decreases |rest|
    {
      NextCommand(rest, commands);
      var n := FindLineEnd(rest);
      var len := Strlen(rest[..n]);
      var argsc := RunBatchLine(rest[..n][..len], argsv);
      if argsc > 0 {
        commands := commands + [argsv[1..argsc + 1]];
      }
      rest := rest[n..];
    }
    NoCommand(commands);
  }

  lemma NoCommand(commands: seq<seq<string>>)
    ensures commands + Commands("") == commands
  {
  }

  lemma NextCommand(file: string, commands: seq<seq<string>>)
    requires file != "" && ArgsFit(file)
    ensures var n := LineLength(file);
            var words := LineWords(UpToNul(file[..n]));
            && |words| < MAX_ARGS && ArgsFit(file[n..])
            && commands + Commands(file) == (if words == [] then commands else commands + [words]) + Commands(file[n..])
  {
    hide LineWords, UpToNul, LineLength, Commands, ArgsFit;
    CommandsOf(file);
    var n := LineLength(file);
    AppendAll(commands, LineWords(UpToNul(file[..n])), Commands(file[n..]));
  }

  lemma CommandsOf(file: string)
    requires file != ""
    ensures var n := LineLength(file);
            var words := LineWords(UpToNul(file[..n]));
            && (ArgsFit(file) ==> |words| < MAX_ARGS && ArgsFit(file[n..]))
            && Commands(file) == (if words == [] then [] else [words]) + Commands(file[n..])
  {
    hide LineWords, UpToNul, LineLength;
  }

  lemma AppendAll(commands: seq<seq<string>>, words: seq<string>, later: seq<seq<string>>)
    ensures commands + ((if words == [] then [] else [words]) + later)
         == (if words == [] then commands else commands + [words]) + later
  {
  }

  // ----- Writing a line

  /** An argument as written on a line. */
  datatype Arg = Bare(text: string) | InQuotes(text: string, quote: char)

  /** A bare argument is not empty and has no space or quote; a quoted one does not contain its quote. */
  predicate BareText(text: string) {
    forall i :: 0 <= i < |text| ==> text[i] != ' ' && text[i] != '\'' && text[i] != '"'
  }

  predicate ValidArg(a: Arg) {
    match a
    case Bare(text) => text != "" && BareText(text)
    case InQuotes(text, quote) => (quote == '\'' || quote == '"') && quote !in text
  }

  predicate ValidArgs(args: seq<Arg>) {
    forall i :: 0 <= i < |args| ==> ValidArg(args[i])
  }

  function Written(a: Arg): string {
    match a
    case Bare(text) => text
    case InQuotes(text, quote) => [quote] + text + [quote]
  }

  function Render(args: seq<Arg>): string {
    if args == [] then ""
    else if |args| == 1 then Written(args[0])
    else Written(args[0]) + " " + Render(args[1..])
  }

  function Texts(args: seq<Arg>): seq<string> {
    seq(|args|, i requires 0 <= i < |args| => args[i].text)
  }

  lemma {:induction false} ReadBare(text: string, w: string, rest: string)
    requires BareText(text)
    ensures Unquoted(text + rest, w) == Unquoted(rest, w + text)
    decreases |text|
  {
    if text == "" {
      assert text + rest == rest && w + text == w;
    } else {
      assert (text + rest)[1..] == text[1..] + rest;
      assert (w + [text[0]]) + text[1..] == w + text;
      ReadBare(text[1..], w + [text[0]], rest);
    }
  }

  lemma {:induction false} ReadQuoted(text: string, q: char, w: string, rest: string)
    requires q !in text
    ensures Quoted(text + rest, q, w) == Quoted(rest, q, w + text)
    decreases |text|
  {
    if text == "" {
      assert text + rest == rest && w + text == w;
    } else {
      assert (text + rest)[1..] == text[1..] + rest;
      assert (w + [text[0]]) + text[1..] == w + text;
      ReadQuoted(text[1..], q, w + [text[0]], rest);
    }
  }

  /** The last argument of a line. */
  lemma ReadLast(a: Arg)
    requires ValidArg(a)
    ensures Words(Written(a)) == [a.text]
  {
    match a
    case Bare(text) =>
      ReadBare(text, "", "");
      assert text + "" == text && "" + text == text;
    case InQuotes(text, q) =>
      assert Written(a)[1..] == text + [q];
      ReadQuoted(text, q, "", [q]);
      assert "" + text == text;
  }

  /** An argument followed by a space. */
  lemma ReadArg(a: Arg, rest: string)
    requires ValidArg(a)
    ensures Words(Written(a) + " " + rest) == [a.text] + Words(rest)
  {
    match a
    case Bare(text) =>
      assert text + " " + rest == text + (" " + rest);
      ReadBare(text, "", " " + rest);
      assert "" + text == text && (" " + rest)[1..] == rest;
    case InQuotes(text, q) =>
      assert (Written(a) + " " + rest)[1..] == text + ([q, ' '] + rest);
      ReadQuoted(text, q, "", [q, ' '] + rest);
      assert "" + text == text && ([q, ' '] + rest)[2..] == rest;
  }

  /** What was written is split back, argument by argument. */
  lemma {:induction false} WordsOfRender(args: seq<Arg>)
    requires args != [] && ValidArgs(args)
    ensures Words(Render(args)) == Texts(args)
  {
    if |args| == 1 {
      ReadLast(args[0]);
    } else {
      ReadArg(args[0], Render(args[1..]));
      WordsOfRender(args[1..]);
      assert Texts(args) == [args[0].text] + Texts(args[1..]);
    }
  }

  // ----- Lines that are written in other ways

  predicate Quote(c: char) {
    c == '\'' || c == '"'
  }

  /** Without quotes, every space and the end of the line end an argument, an empty one too. */
  lemma WordsAtSpaces(text: string, rest: string)
    requires BareText(text)
    ensures Words(text) == [text]
    ensures Words(text + " " + rest) == [text] + Words(rest)
  {
    ReadBare(text, "", "");
    assert text + "" == text && "" + text == text;
    assert text + " " + rest == text + (" " + rest);
    ReadBare(text, "", " " + rest);
    assert (" " + rest)[1..] == rest;
  }

  /** A quote drops what stands right before it, whatever that is, and the character after its closing quote is
      dropped as well; without a closing quote the argument is lost. */
  lemma WordsAtQuotes(before: string, q: char, text: string, after: char, rest: string)
    requires BareText(before) && Quote(q) && q !in text
    ensures Words(before + [q] + text) == []
    ensures Words(before + [q] + text + [q]) == [text]
    ensures Words(before + [q] + text + [q, after] + rest) == [text] + Words(rest)
  {
    QuoteOpens(before, q, text, []);
    QuoteOpens(before, q, text, [q]);
    QuoteOpens(before, q, text, [q, after] + rest);
    assert before + [q] + text + [] == before + [q] + text;
    assert before + [q] + text + [q, after] + rest == before + [q] + text + ([q, after] + rest);
    assert ([q, after] + rest)[2..] == rest;
  }

  lemma QuoteOpens(before: string, q: char, text: string, rest: string)
    requires BareText(before) && Quote(q) && q !in text
    ensures Words(before + [q] + text + rest) == Quoted(rest, q, text)
  {
    var s := [q] + (text + rest);
    assert before + [q] + text + rest == before + s;
    ReadBare(before, "", s);
    assert s[1..] == text + rest;
    ReadQuoted(text, q, "", rest);
    assert "" + text == text;
  }

  // ----- Whole lines

  /** What stands before the last argument of a line. */
  function Before(init: seq<Arg>): string {
    if init == [] then "" else Render(init) + " "
  }

  lemma RenderParts(args: seq<Arg>)
    requires args != []
    ensures Render(args) == if |args| == 1 then Written(args[0]) else Written(args[0]) + " " + Render(args[1..])
  {
  }

  lemma {:induction false} RenderSnoc(init: seq<Arg>, a: Arg)
    ensures Render(init + [a]) == Before(init) + Written(a)
  {
    hide Render, Written;
    var all := init + [a];
    RenderParts(all);
    if init == [] {
      assert all == [a];
    } else {
      assert all[0] == init[0] && all[1..] == init[1..] + [a];
      RenderSnoc(init[1..], a);
      RenderParts(init);
    }
  }

  lemma {:induction false} TrimmedPrefix(s: string)
    ensures Trimmed(s) <= s
    ensures Trimmed(s) != [] ==> !IsSpace(Trimmed(s)[|Trimmed(s)| - 1])
  {
    if s != [] && IsSpace(s[|s| - 1]) {
      TrimmedPrefix(s[..|s| - 1]);
    }
  }

  /** Trimming a line whose end survives only trims that end. */
  lemma {:induction false} TrimmedConcat(s: string, t: string)
    ensures Trimmed(s + t) == if Trimmed(t) == [] then Trimmed(s) else s + Trimmed(t)
    decreases |t|
  {
    if t == [] {
      assert s + t == s;
    } else if IsSpace(t[|t| - 1]) {
      assert (s + t)[..|s + t| - 1] == s + t[..|t| - 1];
      TrimmedConcat(s, t[..|t| - 1]);
    }
  }

  /** Arguments written with the last one cut short are not split back into the originals. */
  lemma ShorterLast(init: seq<Arg>, last: Arg, kept: string)
    requires ValidArgs(init + [last]) && last.Bare? && kept != [] && kept <= last.text && kept != last.text
    ensures var words := Words(Before(init) + kept);
            |words| == |init| + 1 && words != Texts(init + [last])
  {
    var args := init + [Bare(kept)];
    forall i | 0 <= i < |args|
      ensures ValidArg(args[i])
    {
      assert (init + [last])[|init|] == last;
      if i < |init| { assert args[i] == (init + [last])[i]; }
    }
    RenderSnoc(init, Bare(kept));
    WordsOfRender(args);
    assert Texts(args)[|init|] == kept;
    assert Texts(init + [last])[|init|] == last.text;
  }

  /** A last argument that can be trimmed is bare. */
  lemma LastIsBare(init: seq<Arg>, last: Arg)
    requires ValidArg(last)
    ensures last.InQuotes? ==> Trimmed(Before(init) + Written(last)) == Before(init) + Written(last)
  {
    var line := Before(init) + Written(last);
    assert line[|line| - 1] == Written(last)[|Written(last)| - 1];
  }

  /** A last argument that is all white space disappears with the space before it. */
  lemma TrimmedAway(init: seq<Arg>, last: Arg)
    requires last.Bare? && Trimmed(last.text) == [] && Trimmed(Before(init) + last.text) != []
    ensures init != [] && Trimmed(Before(init) + last.text) == Trimmed(Render(init))
  {
    TrimmedConcat(Before(init), last.text);
    TrimmedBefore(init);
  }

  lemma ValidInit(init: seq<Arg>, last: Arg)
    requires ValidArgs(init + [last])
    ensures ValidArgs(init) && ValidArg(last)
  {
    assert (init + [last])[|init|] == last;
    assert forall i :: 0 <= i < |init| ==> init[i] == (init + [last])[i];
  }

  /** A line that ends in white space loses characters of its last arguments. */
  lemma {:induction false} TrimmingLoses(init: seq<Arg>, last: Arg, line: string)
    requires ValidArgs(init + [last]) && line == Before(init) + Written(last)
    requires Trimmed(line) != [] && Trimmed(line) != line
    ensures |Words(Trimmed(line))| <= |init| + 1 && Words(Trimmed(line)) != Texts(init + [last])
    decreases |init|, 0
  {
    ValidInit(init, last);
    LastIsBare(init, last);
    var kept := Trimmed(last.text);
    if kept != [] {
      TrimmedPrefix(last.text);
      TrimmedConcat(Before(init), last.text);
      ShorterLast(init, last, kept);
    } else {
      TrimmedAway(init, last);
      FewerWords(init, Render(init));
    }
  }

  /** A line has no more words than the arguments it was written from. */
  lemma {:induction false} FewerWords(args: seq<Arg>, line: string)
    requires args != [] && ValidArgs(args) && line == Render(args) && Trimmed(line) != []
    ensures |Words(Trimmed(line))| <= |args|
    decreases |args| - 1, 1
  {
    hide Words, Trimmed, Render, Written;
    if Trimmed(line) == line {
      WordsOfRender(args);
    } else {
      var init, last := args[..|args| - 1], args[|args| - 1];
      assert args == init + [last];
      RenderSnoc(init, last);
      TrimmingLoses(init, last, line);
    }
  }

  /** Trimming what stands before the last argument trims the line of the others. */
  lemma TrimmedBefore(init: seq<Arg>)
    ensures Trimmed(Before(init)) == Trimmed(if init == [] then "" else Render(init))
  {
    if init != [] {
      assert Trimmed(" ") == Trimmed(" "[..0]);
      TrimmedConcat(Render(init), " ");
    }
  }

  lemma RenderNotEmpty(args: seq<Arg>)
    requires args != [] && ValidArgs(args)
    ensures Render(args) != []
  {
    assert ValidArg(args[0]);
    assert Written(args[0]) != [];
  }

  /** A line written from arguments is split back into exactly those arguments, empty quoted ones included, if and
      only if it does not look like a comment and its last argument does not end in white space. */
  lemma LineRoundTripIff(args: seq<Arg>)
    requires args != [] && ValidArgs(args)
    ensures Render(args) != []
    ensures LineWords(Render(args)) == Texts(args) <==>
            Render(args)[0] != '#' && !IsSpace(Render(args)[|Render(args)| - 1])
  {
    var line := Render(args);
    RenderNotEmpty(args);
    TrimmedEnd(line);
    if Trimmed(line) == line {
      WordsOfRender(args);
    } else {
      TrimmedLineDiffers(args, line);
    }
  }

  lemma TrimmedLineDiffers(args: seq<Arg>, line: string)
    requires args != [] && ValidArgs(args) && line == Render(args) && Trimmed(line) != line
    ensures LineWords(line) != Texts(args)
  {
    hide Words, Trimmed, Render;
    if Trimmed(line) != [] {
      var init, last := args[..|args| - 1], args[|args| - 1];
      assert args == init + [last];
      RenderSnoc(init, last);
      TrimmingLoses(init, last, line);
    }
  }

  lemma TrimmedEnd(line: string)
    requires line != []
    ensures Trimmed(line) == line <==> !IsSpace(line[|line| - 1])
  {
    if IsSpace(line[|line| - 1]) {
      TrimmedPrefix(line[..|line| - 1]);
    }
  }

  // ----- Whole files

  /** The character does not occur in any of the words. */
  predicate Without(c: char, words: seq<string>) {
    forall i :: 0 <= i < |words| ==> c !in words[i]
  }

  /** Splitting makes no characters. */
  lemma {:induction false} UnquotedWithout(c: char, s: string, w: string)
    requires c !in s && c !in w
    ensures Without(c, Unquoted(s, w))
    decreases |s|
  {
    if s != "" {
      if s[0] == ' ' {
        UnquotedWithout(c, s[1..], "");
      } else if IsQuote(s[0]) {
        QuotedWithout(c, s[1..], s[0], "");
      } else {
        UnquotedWithout(c, s[1..], w + [s[0]]);
      }
    }
  }

  lemma {:induction false} QuotedWithout(c: char, s: string, q: char, w: string)
    requires c !in s && c !in w
    ensures Without(c, Quoted(s, q, w))
    decreases |s|
  {
    if s != "" {
      if s[0] != q {
        QuotedWithout(c, s[1..], q, w + [s[0]]);
      } else if |s| > 1 {
        UnquotedWithout(c, s[2..], "");
      }
    }
  }

  /** A line feed can only be the last character of a line, where it is cut off. */
  lemma TrimmedWithoutLf(s: string)
    requires forall i :: 0 <= i < |s| - 1 ==> s[i] != LF
    ensures LF !in Trimmed(s)
  {
    TrimmedPrefix(s);
    if s != "" && IsSpace(s[|s| - 1]) {
      TrimmedPrefix(s[..|s| - 1]);
    }
  }

  lemma LineWithout(ln: string, c: char)
    requires c == LF || c == NUL
    requires NUL !in ln && forall i :: 0 <= i < |ln| - 1 ==> ln[i] != LF
    ensures Without(c, LineWords(ln))
  {
    var s := Trimmed(ln);
    TrimmedPrefix(ln);
    TrimmedWithoutLf(ln);
    UnquotedWithout(c, s, "");
  }

  /** No command has an argument with a line feed or a NUL. */
  lemma {:induction false} CommandsWithout(file: string, c: char)
    requires c == LF || c == NUL
    ensures forall i :: 0 <= i < |Commands(file)| ==> Without(c, Commands(file)[i])
    decreases |file|
  {
    if file != "" {
      var n := LineLength(file);
      LineWithout(UpToNul(file[..n]), c);
      CommandsWithout(file[n..], c);
    }
  }

  /** A file with one line for each command. */
  function FileOf(cmds: seq<seq<Arg>>): string {
    if cmds == [] then "" else Render(cmds[0]) + "\n" + FileOf(cmds[1..])
  }

  function AllTexts(cmds: seq<seq<Arg>>): seq<seq<string>> {
    seq(|cmds|, i requires 0 <= i < |cmds| => Texts(cmds[i]))
  }

  predicate ValidCommands(cmds: seq<seq<Arg>>) {
    forall i :: 0 <= i < |cmds| ==> cmds[i] != [] && ValidArgs(cmds[i])
  }

  /** No argument contains a line feed or a NUL. */
  predicate OneLine(args: seq<Arg>) {
    forall i :: 0 <= i < |args| ==> '\n' !in args[i].text && '\0' !in args[i].text
  }

  /** The command does not look like a comment and its last argument does not end in white space. */
  predicate Survives(args: seq<Arg>)
    requires args != [] && ValidArgs(args)
  {
    RenderNotEmpty(args);
    var last := Render(args)[|Render(args)| - 1];
    Render(args)[0] != '#' && last != ' ' && !(9 <= last as int <= 13)
  }

  lemma {:induction false} RenderOneLine(args: seq<Arg>)
    requires ValidArgs(args) && OneLine(args)
    ensures LF !in Render(args) && NUL !in Render(args)
  {
    if args != [] {
      assert ValidArg(args[0]) && LF !in Written(args[0]) && NUL !in Written(args[0]);
      RenderOneLine(args[1..]);
    }
  }

  lemma {:induction false} LineWithinIs(line: string, rest: string, max: nat)
    requires LF !in line && max > 0
    ensures LineWithin(line + [LF] + rest, max) == if |line| < max then |line| + 1 else max
  {
    var file := line + [LF] + rest;
    if line != "" && max > 1 {
      assert file[1..] == line[1..] + [LF] + rest;
      LineWithinIs(line[1..], rest, max - 1);
    }
  }

  lemma {:induction false} UpToNulIs(s: string)
    requires NUL !in s
    ensures UpToNul(s) == s
  {
    if s != "" {
      UpToNulIs(s[1..]);
    }
  }

  /** The line of a command fits into the buffer. */
  predicate Fits(args: seq<Arg>) {
    |Render(args)| <= 1997
  }

  /** The first line of a file, when it was written for one command. A line that fills the buffer leaves its line feed
      to be read as a line of its own. */
  lemma FirstCommand(line: string, rest: string)
    requires LF !in line && NUL !in line && |line| <= LINE_MAX
    ensures var words := LineWords(line);
            Commands(line + [LF] + rest) == (if words == [] then [] else [words]) + Commands(rest)
  {
    hide LineWords, Commands, UpToNul, LineWithin;
    var file := line + [LF] + rest;
    CommandsOf(file);
    LineWithinIs(line, rest, LINE_MAX);
    if |line| < LINE_MAX {
      assert file[..|line| + 1] == line + [LF] && file[|line| + 1..] == rest;
      UpToNulIs(line + [LF]);
      SameLine(line);
    } else {
      var left := [LF] + rest;
      assert file[..LINE_MAX] == line && file[LINE_MAX..] == left;
      UpToNulIs(line);
      CommandsOf(left);
      LineWithinIs("", rest, LINE_MAX);
      assert "" + [LF] + rest == left;
      assert left[..1] == [LF] && left[1..] == rest;
      UpToNulIs([LF]);
      assert "" + [LF] == [LF];
      SameLine("");
      EmptyLine();
    }
  }

  lemma SameLine(line: string)
    ensures LineWords(line + [LF]) == LineWords(line)
  {
    TrimmedConcat(line, [LF]);
    assert Trimmed([LF]) == Trimmed([LF][..0]);
  }

  lemma EmptyLine()
    ensures LineWords("") == []
  {
  }

  lemma SurvivesIff(args: seq<Arg>)
    requires args != [] && ValidArgs(args)
    ensures LineWords(Render(args)) == Texts(args) <==> Survives(args)
  {
    LineRoundTripIff(args);
  }

  lemma NotOneLine(cmds: seq<seq<Arg>>, i: nat)
    requires ValidCommands(cmds) && i < |cmds| && !OneLine(cmds[i])
    ensures Commands(FileOf(cmds)) != AllTexts(cmds)
  {
    var j :| 0 <= j < |cmds[i]| && (LF in cmds[i][j].text || NUL in cmds[i][j].text);
    var c := if LF in cmds[i][j].text then LF else NUL;
    CommandsWithout(FileOf(cmds), c);
    assert AllTexts(cmds)[i] == Texts(cmds[i]) && Texts(cmds[i])[j] == cmds[i][j].text;
    assert !Without(c, AllTexts(cmds)[i]);
  }

  // ----- A line that does not fit

  /** What is run for the line of one command. */
  function Outcome(args: seq<Arg>): seq<seq<string>> {
    Commands(Render(args) + [LF])
  }

  /** Cutting a line short anywhere but at a space changes its words. */
  lemma {:induction false} CutShort(args: seq<Arg>, t: string)
    requires args != [] && ValidArgs(args) && t <= Render(args) && t != Render(args)
    requires t != "" && t[|t| - 1] != ' '
    ensures Words(t) != Texts(args)
  {
    hide Words, Render, Texts, Written;
    var a, rest := args[0], args[1..];
    var w := Written(a);
    assert ValidArg(a);
    RenderParts(args);
    TextsCons(args);
    if |t| < |w| {
      assert t == w[..|t|];
      CutArg(a, t);
    } else if |t| == |w| {
      assert t == w;
      ReadLast(a);
    } else {
      var t' := t[|w| + 1..];
      assert t == w + " " + t';
      ReadArg(a, t');
      CutShort(rest, t');
      assert ([a.text] + Words(t'))[1..] == Words(t');
    }
  }

  lemma TextsCons(args: seq<Arg>)
    requires args != []
    ensures |Texts(args)| == |args| && Texts(args)[0] == args[0].text && Texts(args)[1..] == Texts(args[1..])
  {
  }

  /** A part of an argument is read as something shorter, or as nothing if its closing quote is missing. */
  lemma CutArg(a: Arg, t: string)
    requires ValidArg(a) && t != "" && t <= Written(a) && t != Written(a)
    ensures Words(t) == [] || (|Words(t)| == 1 && Words(t)[0] != a.text)
  {
    match a
    case Bare(text) =>
      ReadBare(t, "", "");
      assert t + "" == t && "" + t == t;
    case InQuotes(text, q) =>
      var inside := t[1..];
      assert inside == text[..|inside|];
      ReadQuoted(inside, q, "", "");
      assert inside + "" == inside;
  }

  /** How many characters words have together. */
  function Total(words: seq<string>): nat {
    if words == [] then 0 else |words[0]| + Total(words[1..])
  }

  /** Splitting makes words no longer than the line. */
  lemma {:induction false} UnquotedTotal(s: string, w: string)
    ensures Total(Unquoted(s, w)) <= |s| + |w|
    decreases |s|
  {
    if s != "" {
      if s[0] == ' ' {
        UnquotedTotal(s[1..], "");
        assert ([w] + Unquoted(s[1..], ""))[1..] == Unquoted(s[1..], "");
      } else if IsQuote(s[0]) {
        QuotedTotal(s[1..], s[0], "");
      } else {
        UnquotedTotal(s[1..], w + [s[0]]);
      }
    }
  }

  lemma {:induction false} QuotedTotal(s: string, q: char, w: string)
    ensures Total(Quoted(s, q, w)) <= |s| + |w|
    decreases |s|
  {
    if s != "" {
      if s[0] != q {
        QuotedTotal(s[1..], q, w + [s[0]]);
      } else {
        var later := if |s| == 1 then [] else Unquoted(s[2..], "");
        if |s| > 1 { UnquotedTotal(s[2..], ""); }
        assert ([w] + later)[1..] == later;
      }
    }
  }

  lemma {:induction false} CommandsTotal(file: string)
    ensures forall i :: 0 <= i < |Commands(file)| ==> Total(Commands(file)[i]) <= |file|
    decreases |file|
  {
    if file != "" {
      var n := LineLength(file);
      var ln := UpToNul(file[..n]);
      TrimmedPrefix(ln);
      UnquotedTotal(Trimmed(ln), "");
      CommandsTotal(file[n..]);
    }
  }

  /** Quotes and spaces add at most three characters to an argument. */
  lemma {:induction false} RenderTotal(args: seq<Arg>)
    ensures |Render(args)| <= Total(Texts(args)) + 3 * |args|
  {
    if args != [] {
      RenderTotal(args[1..]);
      assert Texts(args)[1..] == Texts(args[1..]) && Texts(args)[0] == args[0].text;
    }
  }

  /** A command whose line does not fit is never run as it was written. */
  lemma TooLongLost(args: seq<Arg>)
    requires args != [] && ValidArgs(args) && OneLine(args) && |args| < MAX_ARGS && !Fits(args)
    ensures Texts(args) !in Outcome(args)
  {
    hide Commands, LineWords, UpToNul, LineWithin, Render, Texts, Total;
    var line := Render(args);
    var file := line + [LF];
    RenderOneLine(args);
    CommandsOf(file);
    LineWithinIs(line, "", LINE_MAX);
    assert file + "" == file;
    var read, left := file[..LINE_MAX], file[LINE_MAX..];
    assert read == line[..LINE_MAX];
    UpToNulIs(read);
    CutLineDiffers(args, read);
    CommandsTotal(left);
    RenderTotal(args);
  }

  lemma CutLineDiffers(args: seq<Arg>, read: string)
    requires args != [] && ValidArgs(args) && read <= Render(args) && read != Render(args)
    ensures LineWords(read) != Texts(args)
  {
    hide Words, Render;
    var t := Trimmed(read);
    TrimmedPrefix(read);
    assert |Texts(args)| == |args|;
    if t != "" {
      CutShort(args, t);
    }
  }

  // ----- Lines of a file

  predicate White(c: char) {
    c == ' ' || 9 <= c as int <= 13
  }

  lemma {:induction false} TrimmedWhite(spaces: string)
    requires forall i :: 0 <= i < |spaces| ==> White(spaces[i])
    ensures Trimmed(spaces) == ""
  {
    if spaces != "" {
      TrimmedWhite(spaces[..|spaces| - 1]);
    }
  }

  /** White space at the end of a line does not count; a line of nothing else and one that begins with "#" have no
      arguments, any other line is split. */
  lemma LineMeans(text: string, spaces: string)
    requires forall i :: 0 <= i < |spaces| ==> White(spaces[i])
    requires text != "" ==> !White(text[|text| - 1])
    ensures LineWords(text + spaces) == if text == "" || text[0] == '#' then [] else Words(text)
  {
    TrimmedConcat(text, spaces);
    TrimmedWhite(spaces);
    if text == "" {
      assert text + spaces == spaces;
    } else {
      TrimmedEnd(text);
    }
  }

  /** A line is cut at the end of the buffer, and the rest is read as a line of its own. */
  lemma LineCut(file: string)
    requires |file| >= 1997 && forall i :: 0 <= i < 1997 ==> file[i] != '\n' && file[i] != '\0'
    ensures var words := LineWords(file[..1997]);
            Commands(file) == (if words == [] then [] else [words]) + Commands(file[1997..])
  {
    hide LineWords, Commands, UpToNul, LineWithin, ArgsFit;
    CommandsOf(file);
    LineWithinNone(file, 1997);
    UpToNulIs(file[..1997]);
  }

  lemma {:induction false} LineWithinNone(file: string, max: nat)
    requires max <= |file| && forall i :: 0 <= i < max ==> file[i] != LF
    ensures LineWithin(file, max) == max
  {
    if max > 0 {
      LineWithinNone(file[1..], max - 1);
    }
  }

  /** What follows a NUL on a line is not read. */
  lemma AfterNul(line: string, junk: string, rest: string)
    requires '\n' !in line && '\0' !in line && '\n' !in junk && |line| + 1 + |junk| < 1997
    ensures Commands(line + "\0" + junk + "\n" + rest) == Commands(line + "\n" + rest)
  {
    hide LineWords, Commands, UpToNul, LineWithin, ArgsFit;
    var all := line + "\0" + junk;
    var file := all + [LF] + rest;
    assert line + "\0" + junk + "\n" + rest == file;
    CommandsOf(file);
    LineWithinIs(all, rest, LINE_MAX);
    assert file[..|all| + 1] == line + ([NUL] + junk + [LF]) && file[|all| + 1..] == rest;
    UpToNulStops(line, junk + [LF]);
    assert [NUL] + (junk + [LF]) == [NUL] + junk + [LF];
    FirstCommand(line, rest);
  }

  lemma {:induction false} UpToNulStops(s: string, more: string)
    requires NUL !in s
    ensures UpToNul(s + ([NUL] + more)) == s
  {
    if s == "" {
      assert s + ([NUL] + more) == [NUL] + more;
    } else {
      assert (s + ([NUL] + more))[1..] == s[1..] + ([NUL] + more);
      UpToNulStops(s[1..], more);
    }
  }

  // ----- A file of commands

  lemma {:induction false} LineWithinSplit(a: string, b: string, max: nat)
    requires a != "" && a[|a| - 1] == LF
    ensures LineWithin(a + b, max) == LineWithin(a, max)
  {
    if max > 0 && a[0] != LF {
      assert (a + b)[1..] == a[1..] + b;
      LineWithinSplit(a[1..], b, max - 1);
    }
  }

  /** Whole lines are run before what follows them. */
  lemma {:induction false} CommandsSplit(a: string, b: string)
    requires a != "" ==> a[|a| - 1] == LF
    ensures Commands(a + b) == Commands(a) + Commands(b)
    decreases |a|
  {
    hide LineWords, UpToNul, LineWithin, Commands, ArgsFit;
    NoCommand(Commands(b));
    if a == "" {
      NothingRun();
      assert a + b == b;
    } else {
      LineWithinSplit(a, b, LINE_MAX);
      CommandsOf(a);
      CommandsOf(a + b);
      var n := LineLength(a);
      assert (a + b)[..n] == a[..n] && (a + b)[n..] == a[n..] + b;
      CommandsSplit(a[n..], b);
    }
  }

  lemma NothingRun()
    ensures Commands("") == []
  {
  }

  lemma FileParts(cmds: seq<seq<Arg>>)
    requires cmds != []
    ensures FileOf(cmds) == Render(cmds[0]) + [LF] + FileOf(cmds[1..])
  {
    hide Render;
  }

  lemma TextsParts(cmds: seq<seq<Arg>>)
    requires cmds != []
    ensures AllTexts(cmds) == [Texts(cmds[0])] + AllTexts(cmds[1..])
  {
    hide Texts;
  }

  lemma FileOfCons(cmds: seq<seq<Arg>>)
    requires cmds != []
    ensures Commands(FileOf(cmds)) == Outcome(cmds[0]) + Commands(FileOf(cmds[1..]))
    ensures AllTexts(cmds) == [Texts(cmds[0])] + AllTexts(cmds[1..])
  {
    hide Commands, Render, Texts, FileOf, AllTexts;
    FileParts(cmds);
    TextsParts(cmds);
    CommandsSplit(Render(cmds[0]) + [LF], FileOf(cmds[1..]));
  }

  /** The line of a command that fits runs at most one command, and that command exactly if it survives. */
  lemma OutcomeOf(args: seq<Arg>)
    requires args != [] && ValidArgs(args) && OneLine(args) && Fits(args)
    ensures |Outcome(args)| <= 1 && (Outcome(args) == [Texts(args)] <==> Survives(args))
  {
    hide LineWords, Commands, Render, Survives, Texts;
    RenderOneLine(args);
    FirstCommand(Render(args), "");
    NothingRun();
    assert Render(args) + [LF] + "" == Render(args) + [LF];
    SurvivesIff(args);
    TextsCons(args);
    var words := LineWords(Render(args));
    assert Outcome(args) == if words == [] then [] else [words];
  }

  /** The command can be read back as far as the lengths and characters of its arguments go. */
  predicate Short(args: seq<Arg>) {
    args != [] && ValidArgs(args) && OneLine(args) && |args| < MAX_ARGS
  }

  /** Commands that were run too early are never caught up with. */
  lemma {:induction false} NeverCaughtUp(cmds: seq<seq<Arg>>, early: seq<seq<string>>)
    requires early != [] && forall i :: 0 <= i < |cmds| ==> Short(cmds[i])
    ensures Commands(FileOf(cmds)) != early + AllTexts(cmds)
  {
    hide Commands, Outcome, FileOf, AllTexts, Texts, Fits, OneLine, ValidArgs;
    if cmds == [] {
      assert Commands(FileOf(cmds)) == [] by { NoFile(); }
    } else if Commands(FileOf(cmds)) == early + AllTexts(cmds) {
      var args, rest := cmds[0], cmds[1..];
      FileOfCons(cmds);
      if Fits(args) { OutcomeOf(args); } else { TooLongLost(args); }
      var run, text := Outcome(args), Texts(args);
      NotInFront(run, Commands(FileOf(rest)), early, text, AllTexts(rest));
      NeverCaughtUp(rest, early[|run|..] + [text]);
    }
  }

  lemma NoFile()
    ensures Commands(FileOf([])) == []
  {
  }

  lemma NotInFront<T>(run: seq<T>, later: seq<T>, early: seq<T>, text: T, texts: seq<T>)
    requires run + later == early + ([text] + texts) && early != [] && (|run| <= 1 || text !in run)
    ensures |run| <= |early| && later == (early[|run|..] + [text]) + texts
  {
    var all := run + later;
    assert all[|early|] == text;
    var front := all[..|run|];
    assert front == run;
    assert |early| < |run| ==> text in front;
    assert all[|run|..] == later;
    assert (early + ([text] + texts))[|run|..] == early[|run|..] + ([text] + texts);
  }

  /** The line fits and is read back. */
  predicate ComesBack(args: seq<Arg>) {
    args != [] && ValidArgs(args) && Fits(args) && Survives(args)
  }

  lemma {:induction false} ShortCommandsIff(cmds: seq<seq<Arg>>)
    requires forall i :: 0 <= i < |cmds| ==> Short(cmds[i])
    ensures Commands(FileOf(cmds)) == AllTexts(cmds) <==> forall i :: 0 <= i < |cmds| ==> ComesBack(cmds[i])
  {
    hide Commands, Outcome, FileOf, AllTexts, Texts, Fits, OneLine, ValidArgs, Survives;
    if cmds == [] {
      NoFile();
      assert AllTexts(cmds) == [] by { NoTexts(); }
    } else {
      var args, rest := cmds[0], cmds[1..];
      FileOfCons(cmds);
      ShortCommandsIff(rest);
      assert cmds == [args] + rest;
      assert (forall i :: 0 <= i < |cmds| ==> ComesBack(cmds[i]))
        <==> ComesBack(args) && forall i :: 0 <= i < |rest| ==> ComesBack(rest[i]);
      if Fits(args) { OutcomeOf(args); } else { TooLongLost(args); }
      var run, text := Outcome(args), Texts(args);
      if run + Commands(FileOf(rest)) == [text] + AllTexts(rest) {
        if run == [] {
          assert run + Commands(FileOf(rest)) == Commands(FileOf(rest));
          NeverCaughtUp(rest, [text]);
        } else {
          assert run[0] == (run + Commands(FileOf(rest)))[0] == text;
          assert run == [text];
          assert (run + Commands(FileOf(rest)))[1..] == Commands(FileOf(rest));
          assert ([text] + AllTexts(rest))[1..] == AllTexts(rest);
        }
      }
    }
  }

  lemma NoTexts()
    ensures AllTexts([]) == []
  {
  }

  /** The argument vector overflows exactly when a command has too many arguments. */
  lemma {:induction false} ArgsFitIff(file: string)
    ensures ArgsFit(file) <==> forall i :: 0 <= i < |Commands(file)| ==> |Commands(file)[i]| < MAX_ARGS
    decreases |file|
  {
    hide LineWords, UpToNul, LineWithin;
    if file != "" {
      var n := LineLength(file);
      var words := LineWords(UpToNul(file[..n]));
      var later := Commands(file[n..]);
      ArgsFitIff(file[n..]);
      if words == [] {
        assert Commands(file) == later;
      } else {
        var all := [words] + later;
        assert Commands(file) == all && all[0] == words;
        assert forall i :: 0 <= i < |later| ==> later[i] == all[i + 1];
      }
    }
  }

  /** A file written from any commands runs exactly these commands if and only if every one of them has fewer than
      twenty arguments, none with a line feed or a NUL, and a line that fits into the buffer, does not begin with "#"
      and does not end in white space. */
  lemma FileRoundTripIff(cmds: seq<seq<Arg>>)
    requires ValidCommands(cmds)
    ensures RunFile(FileOf(cmds)) == Some(AllTexts(cmds)) <==>
            forall i :: 0 <= i < |cmds| ==>
              |cmds[i]| <= 19 && OneLine(cmds[i]) && Fits(cmds[i]) && Survives(cmds[i])
  {
    hide Commands, FileOf, Fits, OneLine, ValidArgs, Survives, ArgsFit;
    var file := FileOf(cmds);
    ArgsFitIff(file);
    assert forall i :: 0 <= i < |cmds| ==> |AllTexts(cmds)[i]| == |cmds[i]|;
    if i :| 0 <= i < |cmds| && !OneLine(cmds[i]) {
      NotOneLine(cmds, i);
    } else if forall i :: 0 <= i < |cmds| ==> |cmds[i]| < MAX_ARGS {
      ShortCommandsIff(cmds);
      assert forall i :: 0 <= i < |cmds| ==> (ComesBack(cmds[i]) <==> Fits(cmds[i]) && Survives(cmds[i]));
    }
  }

  /** One command comes back exactly if it has fewer than twenty arguments, none with a line feed or a NUL, and its
      line fits, does not begin with "#" and does not end in white space. */
  lemma CommandRoundTripIff(args: seq<Arg>)
    requires args != [] && ValidArgs(args)
    ensures RunFile(Render(args) + [LF]) == Some([Texts(args)]) <==>
            |args| <= 19 && OneLine(args) && Fits(args) && Survives(args)
  {
    hide RunFile, Render, Survives;
    var cmds := [args];
    FileOfOne(args);
    assert AllTexts(cmds) == [Texts(args)];
    FileRoundTripIff(cmds);
    assert cmds[0] == args;
  }

  lemma FileOfOne(args: seq<Arg>)
    ensures FileOf([args]) == Render(args) + [LF]
  {
    assert FileOf([args][1..]) == "";
  }
}
