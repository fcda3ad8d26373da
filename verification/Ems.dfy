/** The command-line options that compose an EMS message: a loop over the arguments, whose mode says what the next
    argument means, building the list of message entries. */
module Ems {
  import opened Ascii
  import opened Numerals
  import opened Wrappers

  datatype ToneKind = Sound10 | Sound10Long | Sound12 | Sound12Long | SonyEricsson | SonyEricssonLong

  datatype BitmapKind = Fixed | Variable | VariableLong

  /** What an entry is. */
  datatype Id = ConcatenatedText | ConcatenatedText16 | PredefinedSound | PredefinedAnimation
              | ToneEntry(tone: ToneKind) | BitmapEntry(bitmap: BitmapKind) | AnimationEntry | Unset

  /** An entry of the message; `frames` are the bitmaps, `format` the formatting letters seen so far. */
  datatype Entry = Entry(id: Id, text: string, number: int, ringtone: string, frames: seq<string>,
                         isProtected: bool, format: set<char>)

  const BLANK := Entry(Unset, "", 0, "", [], false, {})

  /** The files the options name, with what reading them gives; a ringtone or bitmap is known by its content. */
  datatype Files = Files(ringtones: map<string, string>, bitmaps: map<string, seq<string>>, texts: map<string, string>)

  // ----- The options

  /** What is done with the message: it is sent (or shown), saved, or sent and saved. */
  datatype Command = Send | Save | SendSaved

  datatype SmsState = Unread | Read | Unsent | Sent

  datatype Period = Hour | SixHours | Day | ThreeDays | Week | MaxTime

  /** Options of the whole message that await a value. */
  datatype Setting = FolderNumber | Sender | SmsName | Validity | SmscSet | SmscNumber | MaxSms

  /** What goes with the whole message. */
  datatype Envelope = Envelope(state: SmsState, report: bool, reply: bool, folder: int, sender: string, name: string,
                               validity: Option<Period>, smscSet: int, smsc: string, maxSms: int)

  datatype Switch = Protected | Unicode | Bit16 | Format | Text | UnicodeFileText | DefSound | DefAnimation
                  | Tone(tone: ToneKind) | Bitmap(bitmap: BitmapKind) | Animation
                  | SaveCopy | SetState(state: SmsState) | Report | Reply | MessageSetting(setting: Setting) | Unknown

  /** Some options are only compared for some commands. */
  predicate Available(command: Command, w: Switch) {
    match w
    case SaveCopy => command != Save
    case SetState(_) => command == Save
    case Report => command != Save
    case MessageSetting(FolderNumber) => command != Send
    case MessageSetting(Sender) => command == Save
    case MessageSetting(SmsName) => command == Save
    case MessageSetting(Validity) => command != Save
    case _ => true
  }

  /** The options, in the order in which they are compared. */
  function OptionName(k: nat): (string, Switch)
    requires k < OPTIONS
  {
    match k
    case 0 => ("-folder", MessageSetting(FolderNumber))
    case 1 => ("-unread", SetState(Unread))
    case 2 => ("-read", SetState(Read))
    case 3 => ("-unsent", SetState(Unsent))
    case 4 => ("-sent", SetState(Sent))
    case 5 => ("-sender", MessageSetting(Sender))
    case 6 => ("-smsname", MessageSetting(SmsName))
    case 7 => ("-save", SaveCopy)
    case 8 => ("-report", Report)
    case 9 => ("-validity", MessageSetting(Validity))
    case 10 => ("-smscset", MessageSetting(SmscSet))
    case 11 => ("-smscnumber", MessageSetting(SmscNumber))
    case 12 => ("-protected", Protected)
    case 13 => ("-reply", Reply)
    case 14 => ("-maxsms", MessageSetting(MaxSms))
    case 15 => ("-unicode", Unicode)
    case 16 => ("-16bit", Bit16)
    case 17 => ("-format", Format)
    case 18 => ("-text", Text)
    case 19 => ("-unicodefiletext", UnicodeFileText)
    case 20 => ("-defsound", DefSound)
    case 21 => ("-defanimation", DefAnimation)
    case 22 => ("-tone10", Tone(Sound10))
    case 23 => ("-tone10long", Tone(Sound10Long))
    case 24 => ("-tone12", Tone(Sound12))
    case 25 => ("-tone12long", Tone(Sound12Long))
    case 26 => ("-tonese", Tone(SonyEricsson))
    case 27 => ("-toneselong", Tone(SonyEricssonLong))
    case 28 => ("-fixedbitmap", Bitmap(Fixed))
    case 29 => ("-variablebitmap", Bitmap(Variable))
    case 30 => ("-variablebitmaplong", Bitmap(VariableLong))
    case _ => ("-animation", Animation)
  }

  const OPTIONS: nat := 32

  /** The first option of the list from position `k` on that the text names. */
  function Find(s: string, k: nat): Switch
    requires k <= OPTIONS
    decreases OPTIONS - k
  {
    if k == OPTIONS then Unknown else if OptionName(k).0 == s then OptionName(k).1 else Find(s, k + 1)
  }

  /** Names are compared without regard to case. */
  function Recognise(arg: string): Switch {
    Find(Lower(arg), 0)
  }

  /** A decimal number, with white space and a sign before it, and nothing after it. The empty string is 0. */
  function GetInt(s: string): Option<int> {
    if s == "" then Some(0) else Signed(s)
  }

  function Signed(s: string): Option<int> {
    if s == "" then None
    else if IsSpace(s[0]) then Signed(s[1..])
    else
      var digits := if s[0] == '-' || s[0] == '+' then s[1..] else s;
      if digits == "" || !AllDigits(digits) then None
      else Some(if s[0] == '-' then -(Digits(digits) as int) else Digits(digits))
  }

  function ReadPeriod(s: string): Option<Period> {
    var word := Lower(s);
    if word == "hour" then Some(Hour)
    else if word == "6hours" then Some(SixHours)
    else if word == "day" then Some(Day)
    else if word == "3days" then Some(ThreeDays)
    else if word == "week" then Some(Week)
    else if word == "max" then Some(MaxTime)
    else None
  }

  const MAX_NAME: nat := 200

  /** The value of a setting; a name that is too long is ignored. */
  function Configured(e: Envelope, setting: Setting, value: string): Option<Envelope> {
    match setting
    case Validity => if ReadPeriod(value).None? then None else Some(e.(validity := ReadPeriod(value)))
    case SmscNumber => Some(e.(smsc := value, smscSet := 0))
    case Sender => Some(e.(sender := value))
    case SmsName => Some(if |value| > MAX_NAME then e else e.(name := value))
    case FolderNumber => if GetInt(value).None? then None else Some(e.(folder := GetInt(value).value))
    case SmscSet => if GetInt(value).None? then None else Some(e.(smscSet := GetInt(value).value))
    case MaxSms => if GetInt(value).None? then None else Some(e.(maxSms := GetInt(value).value))
  }

  predicate FormatLetter(c: char) {
    LowerChar(c) in {'l', 'c', 'r', 'a', 's', 'b', 'i', 'u', 't'}
  }

  predicate FormatOk(s: string) {
    forall i :: 0 <= i < |s| ==> FormatLetter(s[i])
  }

  function Letters(s: string): set<char> {
    if s == "" then {} else Letters(s[..|s| - 1]) + {LowerChar(s[|s| - 1])}
  }

  // ----- The loop, as steps on values

  /** What the next argument means. */
  datatype Mode = AwaitOption | AwaitText | AwaitNumber | AwaitTone | AwaitBitmap | AwaitFrames | AwaitAnimationFile
                | AwaitTextFile | AwaitProtected | AwaitFormat | AwaitSetting(setting: Setting)

  /** `entries` are complete; `current` is the one being filled in; `left` counts the entries still to protect. */
  datatype Parser = Parser(entries: seq<Entry>, current: Entry, mode: Mode, framesNum: int, left: int,
                           unicode: bool, bit16: bool, command: Command, envelope: Envelope)

  /** Nothing read yet; the command line has already said who sends or receives the message, and the command where the
      number of the message centre comes from. */
  function Start(command: Command, sender: string, smscSet: int): Parser {
    Parser([], BLANK, AwaitOption, 0, 0, false, false, command,
           Envelope(Sent, false, false, 1, sender, "", None, smscSet, "", -1))
  }

  /** Starts an entry that can be protected. */
  function Begin(p: Parser, id: Id, mode: Mode): Parser {
    p.(current := p.current.(id := id, isProtected := p.left != 0),
       left := if p.left != 0 then p.left - 1 else 0, mode := mode)
  }

  /** Completes the current entry. */
  function Done(p: Parser, e: Entry): Parser {
    p.(entries := p.entries + [e], current := BLANK, mode := AwaitOption)
  }

  /** An option. */
  function StepOption(p: Parser, w: Switch): Option<Parser> {
    if !Available(p.command, w) then None else StepAvailable(p, w)
  }

  function StepAvailable(p: Parser, w: Switch): Option<Parser> {
    match w
    case SetState(state) => Some(p.(envelope := p.envelope.(state := state)))
    case Report => Some(p.(envelope := p.envelope.(report := true)))
    case Reply => Some(p.(envelope := p.envelope.(reply := true)))
    case SaveCopy => Some(p.(command := SendSaved))
    case MessageSetting(setting) => Some(p.(mode := AwaitSetting(setting)))
    case Protected => Some(p.(mode := AwaitProtected))
    case Unicode => Some(p.(unicode := true))
    case Bit16 => Some(p.(bit16 := true))
    case Format => Some(p.(mode := AwaitFormat))
    case Text => Some(p.(mode := AwaitText))
    case UnicodeFileText => Some(p.(mode := AwaitTextFile))
    case DefSound => Some(p.(current := p.current.(id := PredefinedSound), mode := AwaitNumber))
    case DefAnimation => Some(p.(current := p.current.(id := PredefinedAnimation), mode := AwaitNumber))
    case Tone(tone) => Some(Begin(p, ToneEntry(tone), AwaitTone))
    case Bitmap(bitmap) => Some(Begin(p, BitmapEntry(bitmap), AwaitBitmap))
    case Animation => Some(Begin(p, AnimationEntry, AwaitFrames))
    case Unknown => None
  }

  /** Adds a file's frames until the entry has as many as asked for. */
  function AddFrames(have: seq<string>, more: seq<string>, n: int): seq<string>
    decreases |more|
  {
    if more == [] || |have| == n then have else AddFrames(have + [more[0]], more[1..], n)
  }

  /** The argument an option awaits. */
  function StepValue(f: Files, p: Parser, arg: string): Option<Parser> {
    match p.mode
    case AwaitOption => None
    case AwaitText => Some(Done(p, p.current.(id := ConcatenatedText, text := arg)))
    case AwaitNumber =>
      if GetInt(arg).None? then None else Some(Done(p, p.current.(number := GetInt(arg).value)))
    case AwaitTone =>
      if arg !in f.ringtones then None else Some(Done(p, p.current.(ringtone := f.ringtones[arg])))
    case AwaitBitmap =>
      if arg !in f.bitmaps then None else Some(Done(p, p.current.(frames := f.bitmaps[arg])))
    case AwaitFrames =>
      if GetInt(arg).None? || GetInt(arg).value < 1 || GetInt(arg).value > 4 then None
      else Some(p.(framesNum := GetInt(arg).value, current := p.current.(frames := []), mode := AwaitAnimationFile))
    case AwaitAnimationFile =>
      if arg !in f.bitmaps then None
      else
        var e := p.current.(frames := AddFrames(p.current.frames, f.bitmaps[arg], p.framesNum));
        Some(if |e.frames| == p.framesNum then Done(p, e) else p.(current := e))
    case AwaitTextFile =>
      if arg !in f.texts then None
      else Some(Done(p, p.current.(id := ConcatenatedText, text := f.texts[arg])))
    case AwaitProtected =>
      if GetInt(arg).None? then None else Some(p.(left := GetInt(arg).value, mode := AwaitOption))
    case AwaitFormat =>
      var last := |p.entries| - 1;
      if last < 0 || p.entries[last].id != ConcatenatedText || !FormatOk(arg) then None
      else Some(p.(entries := p.entries[last := p.entries[last].(format := p.entries[last].format + Letters(arg))],
                   mode := AwaitOption))
    case AwaitSetting(setting) =>
      var e := Configured(p.envelope, setting, arg);
      if e.None? then None else Some(p.(envelope := e.value, mode := AwaitOption))
  }

  /** One argument; nothing when the program stops with an error. */
  function Step(f: Files, p: Parser, arg: string): Option<Parser> {
    if p.mode == AwaitOption then StepOption(p, Recognise(arg)) else StepValue(f, p, arg)
  }

  function Run(f: Files, p: Option<Parser>, args: seq<string>): Option<Parser>
    decreases |args|
  {
    if args == [] || p.None? then p else Run(f, Step(f, p.value, args[0]), args[1..])
  }

  /** The texts of a 16-bit message are marked as such at the end. */
  function Marked(es: seq<Entry>, bit16: bool): seq<Entry> {
    if bit16 then seq(|es|, i requires 0 <= i < |es| => Mark16(es[i])) else es
  }

  function Mark16(e: Entry): Entry {
    if e.id == ConcatenatedText then e.(id := ConcatenatedText16) else e
  }

  /** A composed message: what is done with it, its entries, whether it is in Unicode, and what goes with it. */
  datatype Message = Message(command: Command, entries: seq<Entry>, unicode: bool, envelope: Envelope)

  /** The message for a list of arguments, if they are accepted. */
  function Composed(f: Files, start: Parser, args: seq<string>): Option<Message> {
    var r := Run(f, Some(start), args);
    if r.None? || r.value.mode != AwaitOption then None
    else Some(Message(r.value.command, Marked(r.value.entries, r.value.bit16), r.value.unicode, r.value.envelope))
  }

  /** Nothing has been filled in yet, unless the argument awaited belongs to an entry begun before. */
  predicate Fresh(p: Parser) {
    p.mode in {AwaitNumber, AwaitTone, AwaitBitmap, AwaitFrames, AwaitAnimationFile} || p.current == BLANK
  }

  // ----- The program

  class MessageComposer {
    const files: Files
    var entries: seq<Entry>
    var current: Entry
    var nextlong: Mode
    var framesNum: int
    var left: int
    var unicode: bool
    var bit16: bool
    var command: Command
    var envelope: Envelope

    ghost function View(): Parser
      reads this
    {
      Parser(entries, current, nextlong, framesNum, left, unicode, bit16, command, envelope)
    }

    constructor (files: Files, command: Command, sender: string, smscSet: int)
      ensures this.files == files && View() == Start(command, sender, smscSet) && Fresh(View())
    {
      this.files := files;
      entries, current, nextlong, framesNum, left := [], BLANK, AwaitOption, 0, 0;
      unicode, bit16 := false, false;
      this.command, envelope := command, Envelope(Sent, false, false, 1, sender, "", None, smscSet, "", -1);
    }

    /** Gives the current entry its kind, and protects it if some entries are still to be protected. */
    method BeginEntry(id: Id, mode: Mode)
      requires !current.isProtected
      modifies this
      ensures View() == Begin(old(View()), id, mode)
    {
      current := current.(id := id);
      if left != 0 {
        current := current.(isProtected := true);
        left := left - 1;
      }
      nextlong := mode;
    }

    method EndEntry()
      modifies this
      ensures View() == Done(old(View()), old(current))
    {
      entries := entries + [current];
      current := BLANK;
      nextlong := AwaitOption;
    }

    method HandleOption(arg: string) returns (ok: bool)
      requires nextlong == AwaitOption && Fresh(View())
      modifies this
      ensures ok == StepOption(old(View()), Recognise(arg)).Some?
      ensures ok ==> Some(View()) == StepOption(old(View()), Recognise(arg)) && Fresh(View())
    {
      var option := Recognise(arg);
      ok := Available(command, option);
      if !ok { return; }
      match option
      case SetState(state) => envelope := envelope.(state := state);
      case Report => envelope := envelope.(report := true);
      case Reply => envelope := envelope.(reply := true);
      case SaveCopy => command := SendSaved;
      case MessageSetting(setting) => nextlong := AwaitSetting(setting);
      case Protected => nextlong := AwaitProtected;
      case Unicode => unicode := true;
      case Bit16 => bit16 := true;
      case Format => nextlong := AwaitFormat;
      case Text => nextlong := AwaitText;
      case UnicodeFileText => nextlong := AwaitTextFile;
      case DefSound =>
        current := current.(id := PredefinedSound);
        nextlong := AwaitNumber;
      case DefAnimation =>
        current := current.(id := PredefinedAnimation);
        nextlong := AwaitNumber;
      case Tone(tone) => BeginEntry(ToneEntry(tone), AwaitTone);
      case Bitmap(bitmap) => BeginEntry(BitmapEntry(bitmap), AwaitBitmap);
      case Animation => BeginEntry(AnimationEntry, AwaitFrames);
      case Unknown => ok := false;
    }

    /** Takes over frames one by one, until there are enough. */
    method CollectFrames(more: seq<string>)
      modifies this`current
      ensures current == old(current).(frames := AddFrames(old(current).frames, more, framesNum))
    {
      assert more[0..] == more;
      for j := 0 to |more|
        invariant current == old(current).(frames := current.frames)
        invariant AddFrames(current.frames, more[j..], framesNum) == AddFrames(old(current).frames, more, framesNum)
      {
        if |current.frames| == framesNum { return; }
        assert more[j..][1..] == more[j + 1..];
        current := current.(frames := current.frames + [more[j]]);
      }
    }

    /** Sets the formats of the last entry, letter by letter. */
    method ApplyFormat(arg: string) returns (ok: bool)
      requires entries != []
      modifies this`entries
      ensures ok == FormatOk(arg)
      ensures ok ==> var last := |old(entries)| - 1;
                entries == old(entries)[last := old(entries)[last].(format := old(entries)[last].format + Letters(arg))]
    {
      var last := |entries| - 1;
      ghost var before := entries;
      assert before[last].format + {} == before[last].format;
      assert before[last := before[last]] == before;
      for j := 0 to |arg|
        invariant forall k :: 0 <= k < j ==> FormatLetter(arg[k])
        invariant entries == before[last := before[last].(format := before[last].format + Letters(arg[..j]))]
      {
        if !FormatLetter(arg[j]) { return false; }
        assert arg[..j + 1][..j] == arg[..j];
        ghost var sofar := before[last].format + Letters(arg[..j]);
        entries := entries[last := entries[last].(format := entries[last].format + {LowerChar(arg[j])})];
        assert before[last].format + Letters(arg[..j + 1]) == sofar + {LowerChar(arg[j])};
      }
      assert arg[..|arg|] == arg;
      return true;
    }

    /** Stores the value of a setting, if it is one. */
    method Configure(setting: Setting, value: string) returns (ok: bool)
      modifies this`envelope
      ensures ok == Configured(old(envelope), setting, value).Some?
      ensures ok ==> Some(envelope) == Configured(old(envelope), setting, value)
    {
      ok := true;
      match setting
      case Validity =>
        if ReadPeriod(value).None? { return false; }
        envelope := envelope.(validity := ReadPeriod(value));
      case SmscNumber => envelope := envelope.(smsc := value, smscSet := 0);
      case Sender => envelope := envelope.(sender := value);
      case SmsName =>
        if |value| <= MAX_NAME { envelope := envelope.(name := value); }
      case FolderNumber =>
        if GetInt(value).None? { return false; }
        envelope := envelope.(folder := GetInt(value).value);
      case SmscSet =>
        if GetInt(value).None? { return false; }
        envelope := envelope.(smscSet := GetInt(value).value);
      case MaxSms =>
        if GetInt(value).None? { return false; }
        envelope := envelope.(maxSms := GetInt(value).value);
    }

    /** Handles the argument an option awaits. */
    method HandleValue(arg: string) returns (ok: bool)
      requires nextlong != AwaitOption && Fresh(View())
      modifies this
      ensures ok == StepValue(files, old(View()), arg).Some?
      ensures ok ==> Some(View()) == StepValue(files, old(View()), arg) && Fresh(View())
    {
      ok := true;
      match nextlong
      case AwaitOption =>
      case AwaitText =>
        current := current.(id := ConcatenatedText, text := arg);
        EndEntry();
      case AwaitNumber =>
        if GetInt(arg).None? { return false; }
        current := current.(number := GetInt(arg).value);
        EndEntry();
      case AwaitTone =>
        if arg !in files.ringtones { return false; }
        current := current.(ringtone := files.ringtones[arg]);
        EndEntry();
      case AwaitBitmap =>
        if arg !in files.bitmaps { return false; }
        current := current.(frames := files.bitmaps[arg]);
        EndEntry();
      case AwaitFrames =>
        if GetInt(arg).None? || GetInt(arg).value < 1 || GetInt(arg).value > 4 { return false; }
        framesNum := GetInt(arg).value;
        current := current.(frames := []);
        nextlong := AwaitAnimationFile;
      case AwaitAnimationFile =>
        if arg !in files.bitmaps { return false; }
        CollectFrames(files.bitmaps[arg]);
        if |current.frames| == framesNum { EndEntry(); }
      case AwaitTextFile =>
        if arg !in files.texts { return false; }
        current := current.(id := ConcatenatedText, text := files.texts[arg]);
        EndEntry();
      case AwaitProtected =>
        if GetInt(arg).None? { return false; }
        left := GetInt(arg).value;
        nextlong := AwaitOption;
      case AwaitFormat =>
        if entries == [] || entries[|entries| - 1].id != ConcatenatedText { return false; }
        ok := ApplyFormat(arg);
        nextlong := AwaitOption;
      case AwaitSetting(setting) =>
        ok := Configure(setting, arg);
        nextlong := AwaitOption;
    }

    /** Handles one argument. */
    method HandleArgument(arg: string) returns (ok: bool)
      requires Fresh(View())
      modifies this
      ensures ok == Step(files, old(View()), arg).Some?
      ensures ok ==> Some(View()) == Step(files, old(View()), arg) && Fresh(View())
    {
      if nextlong == AwaitOption {
        ok := HandleOption(arg);
      } else {
        ok := HandleValue(arg);
      }
    }

    /** Handles all arguments. An argument missing at the end is an error. */
    method Compose(args: seq<string>) returns (ok: bool)
      requires Fresh(View())
      modifies this
      ensures ok == Composed(files, old(View()), args).Some?
      ensures ok ==> Composed(files, old(View()), args) == Some(Message(command, entries, unicode, envelope))
    {
      assert args[0..] == args;
      for i := 0 to |args|
        invariant Fresh(View())
        invariant Run(files, Some(View()), args[i..]) == Run(files, Some(old(View())), args)
      {
        assert args[i..][1..] == args[i + 1..];
        ok := HandleArgument(args[i]);
        if !ok { return; }
      }
      if nextlong != AwaitOption { return false; }
      ok := true;
      ghost var p := View();
      if bit16 {
        for i := 0 to |entries|
          invariant |entries| == |p.entries| && View() == p.(entries := entries)
          invariant forall k :: 0 <= k < |entries| ==>
                      entries[k] == if k < i then Mark16(p.entries[k]) else p.entries[k]
        {
          if entries[i].id == ConcatenatedText {
            entries := entries[i := entries[i].(id := ConcatenatedText16)];
          }
        }
      }
      assert entries == Marked(p.entries, p.bit16);
    }
  }

  // ----- The options as they are written

  /** The text is the word, in any case. */
  predicate SameText(s: string, word: string) {
    |s| == |word| && forall i :: 0 <= i < |s| ==>
      s[i] == word[i] || ('a' <= word[i] <= 'z' && s[i] as int + 32 == word[i] as int)
  }

  function Name(w: Switch): string
    requires w != Unknown
  {
    match w
    case MessageSetting(FolderNumber) => "-folder"
    case SetState(Unread) => "-unread"
    case SetState(Read) => "-read"
    case SetState(Unsent) => "-unsent"
    case SetState(Sent) => "-sent"
    case MessageSetting(Sender) => "-sender"
    case MessageSetting(SmsName) => "-smsname"
    case SaveCopy => "-save"
    case Report => "-report"
    case MessageSetting(Validity) => "-validity"
    case MessageSetting(SmscSet) => "-smscset"
    case MessageSetting(SmscNumber) => "-smscnumber"
    case Protected => "-protected"
    case Reply => "-reply"
    case MessageSetting(MaxSms) => "-maxsms"
    case Unicode => "-unicode"
    case Bit16 => "-16bit"
    case Format => "-format"
    case Text => "-text"
    case UnicodeFileText => "-unicodefiletext"
    case DefSound => "-defsound"
    case DefAnimation => "-defanimation"
    case Tone(Sound10) => "-tone10"
    case Tone(Sound10Long) => "-tone10long"
    case Tone(Sound12) => "-tone12"
    case Tone(Sound12Long) => "-tone12long"
    case Tone(SonyEricsson) => "-tonese"
    case Tone(SonyEricssonLong) => "-toneselong"
    case Bitmap(Fixed) => "-fixedbitmap"
    case Bitmap(Variable) => "-variablebitmap"
    case Bitmap(VariableLong) => "-variablebitmaplong"
    case Animation => "-animation"
  }

  /** The position of an option in the list. */
  function Position(w: Switch): (k: nat)
    requires w != Unknown
    ensures k < OPTIONS
  {
    match w
    case MessageSetting(FolderNumber) => 0
    case SetState(Unread) => 1
    case SetState(Read) => 2
    case SetState(Unsent) => 3
    case SetState(Sent) => 4
    case MessageSetting(Sender) => 5
    case MessageSetting(SmsName) => 6
    case SaveCopy => 7
    case Report => 8
    case MessageSetting(Validity) => 9
    case MessageSetting(SmscSet) => 10
    case MessageSetting(SmscNumber) => 11
    case Protected => 12
    case Reply => 13
    case MessageSetting(MaxSms) => 14
    case Unicode => 15
    case Bit16 => 16
    case Format => 17
    case Text => 18
    case UnicodeFileText => 19
    case DefSound => 20
    case DefAnimation => 21
    case Tone(Sound10) => 22
    case Tone(Sound10Long) => 23
    case Tone(Sound12) => 24
    case Tone(Sound12Long) => 25
    case Tone(SonyEricsson) => 26
    case Tone(SonyEricssonLong) => 27
    case Bitmap(Fixed) => 28
    case Bitmap(Variable) => 29
    case Bitmap(VariableLong) => 30
    case Animation => 31
  }

  lemma NamedAt(w: Switch)
    requires w != Unknown
    ensures OptionName(Position(w)) == (Name(w), w)
  {
  }

  lemma PositionOf(k: nat)
    requires k < OPTIONS
    ensures OptionName(k).1 != Unknown && Position(OptionName(k).1) == k
  {
  }

  lemma LowerIff(s: string, word: string)
    requires forall i :: 0 <= i < |word| ==> !('A' <= word[i] <= 'Z')
    ensures Lower(s) == word <==> SameText(s, word)
  {
    if SameText(s, word) {
      assert forall i :: 0 <= i < |s| ==> Lower(s)[i] == word[i];
    }
    if Lower(s) == word {
      forall i | 0 <= i < |s|
        ensures s[i] == word[i] || ('a' <= word[i] <= 'z' && s[i] as int + 32 == word[i] as int)
      {
        assert Lower(s)[i] == word[i];
      }
    }
  }

  lemma NamesLowerCase0(w: Switch)
    requires w != Unknown && Position(w) < 12
    ensures forall i :: 0 <= i < |Name(w)| ==> !('A' <= Name(w)[i] <= 'Z')
  {
  }

  lemma NamesLowerCase1(w: Switch)
    requires w != Unknown && 12 <= Position(w) < 22
    ensures forall i :: 0 <= i < |Name(w)| ==> !('A' <= Name(w)[i] <= 'Z')
  {
  }

  lemma NamesLowerCase2(w: Switch)
    requires w != Unknown && 22 <= Position(w)
    ensures forall i :: 0 <= i < |Name(w)| ==> !('A' <= Name(w)[i] <= 'Z')
  {
  }

  lemma NamesDiffer(j: nat, k: nat)
    requires j < k < OPTIONS
    ensures OptionName(j).0 != OptionName(k).0
  {
  }

  lemma {:induction false} FindPosition(k: nat, j: nat)
    requires j <= k < OPTIONS
    ensures Find(OptionName(k).0, j) == OptionName(k).1
    decreases k - j
  {
    if j < k {
      NamesDiffer(j, k);
      FindPosition(k, j + 1);
    }
  }

  lemma {:induction false} FoundSomewhere(s: string, j: nat) returns (k: nat)
    requires j <= OPTIONS && Find(s, j) != Unknown
    ensures k < OPTIONS && OptionName(k) == (s, Find(s, j))
    decreases OPTIONS - j
  {
    hide OptionName;
    if OptionName(j).0 == s {
      k := j;
    } else {
      k := FoundSomewhere(s, j + 1);
    }
  }

  /** A text is recognised as an option exactly if it is the option's name, in any case. */
  lemma RecogniseIff(s: string, w: Switch)
    requires w != Unknown
    ensures Recognise(s) == w <==> SameText(s, Name(w))
  {
    hide OptionName, Name, Position, Lower, SameText;
    var k := Position(w);
    NamedAt(w);
    if k < 12 { NamesLowerCase0(w); } else if k < 22 { NamesLowerCase1(w); } else { NamesLowerCase2(w); }
    LowerIff(s, Name(w));
    if Lower(s) == Name(w) { FindPosition(k, 0); }
    if Recognise(s) == w {
      var j := FoundSomewhere(Lower(s), 0);
      PositionOf(j);
    }
  }

  lemma RecogniseName(w: Switch)
    requires w != Unknown
    ensures Recognise(Name(w)) == w
  {
    hide Recognise, Name;
    RecogniseIff(Name(w), w);
  }

  /** What is put on the command line, in order. */
  datatype Piece =
    | SetUnicode
    | Set16Bit
    | Protect(n: nat)
    | TextItem(text: string, formats: seq<string>)
    | FileTextItem(path: string, formats: seq<string>)
    | SoundItem(number: nat)
    | PictureItem(number: nat)
    | ToneItem(tone: ToneKind, path: string)
    | BitmapItem(bitmap: BitmapKind, path: string)
    | AnimationItem(count: nat, paths: seq<string>)
    | SaveToo
    | MarkAs(state: SmsState)
    | AskReport
    | AskReply
    | InFolder(n: nat)
    | From(phone: string)
    | Called(name: string)
    | ValidFor(period: Period)
    | CentreAt(n: nat)
    | CentreNumber(phone: string)
    | AtMost(n: nat)

  function PeriodWord(period: Period): string {
    match period
    case Hour => "HOUR"
    case SixHours => "6HOURS"
    case Day => "DAY"
    case ThreeDays => "3DAYS"
    case Week => "WEEK"
    case MaxTime => "MAX"
  }

  function FormatArgs(formats: seq<string>): seq<string> {
    if formats == [] then [] else FormatArgs(formats[..|formats| - 1]) + [Name(Format), formats[|formats| - 1]]
  }

  function Args(x: Piece): seq<string> {
    match x
    case SetUnicode => [Name(Unicode)]
    case Set16Bit => [Name(Bit16)]
    case Protect(n) => [Name(Protected), Decimal(n)]
    case TextItem(text, formats) => [Name(Text), text] + FormatArgs(formats)
    case FileTextItem(path, formats) => [Name(UnicodeFileText), path] + FormatArgs(formats)
    case SoundItem(number) => [Name(DefSound), Decimal(number)]
    case PictureItem(number) => [Name(DefAnimation), Decimal(number)]
    case ToneItem(tone, path) => [Name(Tone(tone)), path]
    case BitmapItem(bitmap, path) => [Name(Bitmap(bitmap)), path]
    case AnimationItem(count, paths) => [Name(Animation), Decimal(count)] + paths
    case SaveToo => [Name(SaveCopy)]
    case MarkAs(state) => [Name(SetState(state))]
    case AskReport => [Name(Report)]
    case AskReply => [Name(Reply)]
    case InFolder(n) => [Name(MessageSetting(FolderNumber)), Decimal(n)]
    case From(phone) => [Name(MessageSetting(Sender)), phone]
    case Called(name) => [Name(MessageSetting(SmsName)), name]
    case ValidFor(period) => [Name(MessageSetting(Validity)), PeriodWord(period)]
    case CentreAt(n) => [Name(MessageSetting(SmscSet)), Decimal(n)]
    case CentreNumber(phone) => [Name(MessageSetting(SmscNumber)), phone]
    case AtMost(n) => [Name(MessageSetting(MaxSms)), Decimal(n)]
  }

  /** The command line for a list of pieces. */
  function Render(xs: seq<Piece>): seq<string> {
    if xs == [] then [] else Args(xs[0]) + Render(xs[1..])
  }

  // ----- What the pieces mean

  /** Formatting is written with these letters only. */
  predicate Formatting(s: string) {
    forall i :: 0 <= i < |s| ==> s[i] in {'l', 'c', 'r', 'a', 's', 'b', 'i', 'u', 't',
                                          'L', 'C', 'R', 'A', 'S', 'B', 'I', 'U', 'T'}
  }

  predicate AllFormatting(formats: seq<string>) {
    forall i :: 0 <= i < |formats| ==> Formatting(formats[i])
  }

  /** One of the formats asks for the attribute, in lower or upper case. */
  predicate Asks(formats: seq<string>, c: char) {
    exists i, j :: 0 <= i < |formats| && 0 <= j < |formats[i]|
                   && (formats[i][j] == c || formats[i][j] as int + 32 == c as int)
  }

  function Attributes(formats: seq<string>): set<char> {
    set c <- {'l', 'c', 'r', 'a', 's', 'b', 'i', 'u', 't'} | Asks(formats, c)
  }

  /** All frames of the files, in order. */
  function AllFrames(f: Files, paths: seq<string>): seq<string>
    requires forall p <- paths :: p in f.bitmaps
  {
    if paths == [] then [] else AllFrames(f, paths[..|paths| - 1]) + f.bitmaps[paths[|paths| - 1]]
  }

  /** An animation of one to four frames gets enough of them, and no file is named in vain. */
  predicate FramesFit(f: Files, x: Piece) {
    x.AnimationItem? && 1 <= x.count <= 4 ==>
      && x.paths != [] && (forall p <- x.paths :: p in f.bitmaps)
      && |AllFrames(f, x.paths[..|x.paths| - 1])| < x.count <= |AllFrames(f, x.paths)|
  }

  predicate AllFramesFit(f: Files, xs: seq<Piece>) {
    forall i :: 0 <= i < |xs| ==> FramesFit(f, xs[i])
  }

  /** The file can be read, the formats are made of formatting letters, an animation has one to four frames. */
  predicate Readable(f: Files, x: Piece) {
    match x
    case TextItem(_, formats) => AllFormatting(formats)
    case FileTextItem(path, formats) => path in f.texts && AllFormatting(formats)
    case ToneItem(_, path) => path in f.ringtones
    case BitmapItem(_, path) => path in f.bitmaps
    case AnimationItem(count, _) => 1 <= count <= 4
    case _ => true
  }

  /** The option can be given for the command. */
  predicate Allowed(command: Command, x: Piece) {
    match x
    case MarkAs(_) => command == Save
    case From(_) => command == Save
    case Called(_) => command == Save
    case SaveToo => command != Save
    case AskReport => command != Save
    case ValidFor(_) => command != Save
    case InFolder(_) => command == Save || command == SendSaved
    case _ => true
  }

  function CommandAfter(command: Command, x: Piece): Command {
    if x == SaveToo then SendSaved else command
  }

  predicate Acceptable(f: Files, command: Command, xs: seq<Piece>)
    ensures Acceptable(f, command, xs) ==> forall i :: 0 <= i < |xs| ==> Readable(f, xs[i])
    decreases |xs|
  {
    xs == [] || (&& Readable(f, xs[0]) && Allowed(command, xs[0])
                 && Acceptable(f, CommandAfter(command, xs[0]), xs[1..]))
  }

  function CommandAtEnd(command: Command, xs: seq<Piece>): Command {
    if SaveToo in xs then SendSaved else command
  }

  function EnvelopeAfter(e: Envelope, x: Piece): Envelope {
    match x
    case MarkAs(state) => e.(state := state)
    case AskReport => e.(report := true)
    case AskReply => e.(reply := true)
    case InFolder(n) => e.(folder := n)
    case From(phone) => e.(sender := phone)
    case Called(name) => if |name| <= 200 then e.(name := name) else e
    case ValidFor(period) => e.(validity := Some(period))
    case CentreAt(n) => e.(smscSet := n)
    case CentreNumber(phone) => e.(smsc := phone, smscSet := 0)
    case AtMost(n) => e.(maxSms := n)
    case _ => e
  }

  function EnvelopeAtEnd(e: Envelope, xs: seq<Piece>): Envelope
    decreases |xs|
  {
    if xs == [] then e else EnvelopeAtEnd(EnvelopeAfter(e, xs[0]), xs[1..])
  }

  predicate Item(x: Piece) {
    || x.TextItem? || x.FileTextItem? || x.SoundItem? || x.PictureItem? || x.ToneItem? || x.BitmapItem?
    || x.AnimationItem?
  }

  predicate CanProtect(x: Piece) {
    x.ToneItem? || x.BitmapItem? || x.AnimationItem?
  }

  /** The entry of an item. */
  function Meaning(f: Files, x: Piece, isProtected: bool, bit16: bool): seq<Entry>
    requires FramesFit(f, x) && Readable(f, x)
  {
    var textId := if bit16 then ConcatenatedText16 else ConcatenatedText;
    match x
    case TextItem(text, formats) => [Entry(textId, text, 0, "", [], false, Attributes(formats))]
    case FileTextItem(path, formats) => [Entry(textId, f.texts[path], 0, "", [], false, Attributes(formats))]
    case SoundItem(number) => [Entry(PredefinedSound, "", number, "", [], false, {})]
    case PictureItem(number) => [Entry(PredefinedAnimation, "", number, "", [], false, {})]
    case ToneItem(tone, path) => [Entry(ToneEntry(tone), "", 0, f.ringtones[path], [], isProtected, {})]
    case BitmapItem(bitmap, path) => [Entry(BitmapEntry(bitmap), "", 0, "", f.bitmaps[path], isProtected, {})]
    case AnimationItem(count, paths) =>
      [Entry(AnimationEntry, "", 0, "", AllFrames(f, paths)[..count], isProtected, {})]
    case _ => []
  }

  /** How many entries are still to protect after a piece. */
  function LeftAfter(x: Piece, left: nat): nat {
    if x.Protect? then x.n else if CanProtect(x) && left > 0 then left - 1 else left
  }

  function Meanings(f: Files, xs: seq<Piece>, left: nat, bit16: bool): seq<Entry>
    requires AllFramesFit(f, xs) && forall i :: 0 <= i < |xs| ==> Readable(f, xs[i])
  {
    if xs == [] then []
    else Meaning(f, xs[0], left > 0, bit16) + Meanings(f, xs[1..], LeftAfter(xs[0], left), bit16)
  }

  // ----- Reading values

  lemma GetIntDecimal(n: nat)
    ensures GetInt(Decimal(n)) == Some(n)
  {
    DecimalDigits(n);
    assert '0' <= Decimal(n)[0] <= '9';
  }

  /** White space, perhaps a sign, and then digits and nothing else, from position `k` on. */
  predicate NumberFrom(s: string, k: nat) {
    && k < |s| && (forall i :: 0 <= i < k ==> s[i] == ' ' || 9 <= s[i] as int <= 13)
    && Numeral(if s[k] == '-' || s[k] == '+' then s[k + 1..] else s[k..])
  }

  predicate Numeral(s: string) {
    s != "" && forall i :: 0 <= i < |s| ==> '0' <= s[i] <= '9'
  }

  lemma NumberMoved(s: string, k: nat)
    requires s != "" && (s[0] == ' ' || 9 <= s[0] as int <= 13)
    ensures NumberFrom(s[1..], k) <==> NumberFrom(s, k + 1)
  {
    hide Numeral;
    var t := s[1..];
    if k < |t| {
      assert t[k..] == s[k + 1..] && t[k + 1..] == s[k + 2..];
      assert forall i :: 0 <= i < k ==> t[i] == s[i + 1];
      assert forall i :: 0 < i < k + 1 ==> s[i] == t[i - 1];
    }
  }

  lemma NumberNotAtSpace(s: string)
    requires s != "" && IsSpace(s[0])
    ensures !NumberFrom(s, 0)
  {
    assert s[0..][0] == s[0];
  }

  lemma NumberAtStart(s: string, k: nat)
    requires s != "" && !IsSpace(s[0])
    ensures NumberFrom(s, k) ==> k == 0
    ensures Signed(s).Some? <==> NumberFrom(s, 0)
  {
    assert s[0..] == s;
  }

  lemma {:induction false} SignedIff(s: string)
    ensures Signed(s).Some? <==> exists k: nat :: NumberFrom(s, k)
  {
    hide NumberFrom;
    if s == "" {
      forall k: nat
        ensures !NumberFrom(s, k)
      {
        NothingThere(k);
      }
    } else if IsSpace(s[0]) {
      SignedIff(s[1..]);
      NumberNotAtSpace(s);
      if k: nat :| NumberFrom(s[1..], k) { NumberMoved(s, k); }
      if k: nat :| NumberFrom(s, k) { NumberMoved(s, k - 1); }
    } else {
      NumberAtStart(s, 0);
      if k: nat :| NumberFrom(s, k) { NumberAtStart(s, k); }
    }
  }

  lemma NothingThere(k: nat)
    ensures !NumberFrom("", k)
  {
  }

  /** A text is read as a number exactly if it is one, or is empty. */
  lemma GetIntIff(s: string)
    ensures GetInt(s).Some? <==> s == "" || exists k: nat :: NumberFrom(s, k)
  {
    SignedIff(s);
  }

  lemma SignedDecimal(n: nat, sign: char)
    requires sign == '-' || sign == '+'
    ensures GetInt([sign] + Decimal(n)) == Some(if sign == '-' then -(n as int) else n)
  {
    DecimalDigits(n);
    assert ([sign] + Decimal(n))[1..] == Decimal(n);
  }

  /** A validity is read exactly from its word, in any case. */
  lemma ReadPeriodIff(s: string, period: Period)
    ensures ReadPeriod(s) == Some(period) <==> Lower(s) == Lower(PeriodWord(period))
  {
    assert Lower("HOUR") == "hour" && Lower("6HOURS") == "6hours" && Lower("DAY") == "day";
    assert Lower("3DAYS") == "3days" && Lower("WEEK") == "week" && Lower("MAX") == "max";
    assert Lower(s) == Lower(PeriodWord(period)) ==> ReadPeriod(s) == Some(period);
  }

  lemma FormatLetterIff(s: string)
    ensures FormatOk(s) <==> Formatting(s)
  {
    forall i | 0 <= i < |s|
      ensures FormatLetter(s[i]) <==> s[i] in {'l', 'c', 'r', 'a', 's', 'b', 'i', 'u', 't',
                                               'L', 'C', 'R', 'A', 'S', 'B', 'I', 'U', 'T'}
    {
    }
  }

  function FormatSet(formats: seq<string>): set<char> {
    if formats == [] then {} else FormatSet(formats[..|formats| - 1]) + Letters(formats[|formats| - 1])
  }

  lemma {:induction false} LettersIff(s: string, c: char)
    ensures c in Letters(s) <==> exists j :: 0 <= j < |s| && LowerChar(s[j]) == c
  {
    if s != "" {
      var init := s[..|s| - 1];
      LettersIff(init, c);
      if j :| 0 <= j < |init| && LowerChar(init[j]) == c { assert LowerChar(s[j]) == c; }
      if j :| 0 <= j < |s| && LowerChar(s[j]) == c { assert j < |init| ==> LowerChar(init[j]) == c; }
    }
  }

  lemma {:induction false} FormatSetIff(formats: seq<string>, c: char)
    ensures c in FormatSet(formats) <==>
            exists i, j :: 0 <= i < |formats| && 0 <= j < |formats[i]| && LowerChar(formats[i][j]) == c
  {
    if formats != [] {
      var init, last := formats[..|formats| - 1], formats[|formats| - 1];
      FormatSetIff(init, c);
      LettersIff(last, c);
      if j :| 0 <= j < |last| && LowerChar(last[j]) == c { assert LowerChar(formats[|init|][j]) == c; }
      if i, j :| 0 <= i < |init| && 0 <= j < |init[i]| && LowerChar(init[i][j]) == c {
        assert LowerChar(formats[i][j]) == c;
      }
      if i, j :| 0 <= i < |formats| && 0 <= j < |formats[i]| && LowerChar(formats[i][j]) == c {
        assert if i < |init| then LowerChar(init[i][j]) == c else LowerChar(last[j]) == c;
      }
    }
  }

  lemma FormatSetIs(formats: seq<string>)
    requires AllFormatting(formats)
    ensures FormatSet(formats) == Attributes(formats)
  {
    forall c: char
      ensures c in FormatSet(formats) <==> c in Attributes(formats)
    {
      FormatSetIff(formats, c);
      if i, j :| 0 <= i < |formats| && 0 <= j < |formats[i]| && LowerChar(formats[i][j]) == c {
        assert Formatting(formats[i]);
        assert Asks(formats, c) && c in {'l', 'c', 'r', 'a', 's', 'b', 'i', 'u', 't'};
      }
      if c in Attributes(formats) {
        var i, j :| 0 <= i < |formats| && 0 <= j < |formats[i]|
                    && (formats[i][j] == c || formats[i][j] as int + 32 == c as int);
        assert LowerChar(formats[i][j]) == c;
      }
    }
  }

  // ----- Running the rendered pieces

  lemma {:induction false} RunConcat(f: Files, p: Option<Parser>, a: seq<string>, b: seq<string>)
    ensures Run(f, p, a + b) == Run(f, Run(f, p, a), b)
    decreases |a|
  {
    if a == [] {
      assert a + b == b;
    } else if p.Some? {
      assert (a + b)[0] == a[0] && (a + b)[1..] == a[1..] + b;
      RunConcat(f, Step(f, p.value, a[0]), a[1..], b);
    }
  }

  lemma Run1(f: Files, p: Option<Parser>, a: string)
    ensures Run(f, p, [a]) == if p.None? then None else Step(f, p.value, a)
  {
    assert [a][1..] == [];
  }

  /** An option alone. */
  lemma RunOption(f: Files, p: Parser, w: Switch)
    requires w != Unknown && p.mode == AwaitOption
    ensures Run(f, Some(p), [Name(w)]) == StepOption(p, w)
  {
    hide StepOption, StepValue, Name, Recognise;
    RecogniseName(w);
    Run1(f, Some(p), Name(w));
  }

  /** An option and the argument it awaits. */
  lemma RunValue(f: Files, p: Parser, w: Switch, v: string)
    requires w != Unknown && p.mode == AwaitOption
    requires StepOption(p, w).Some? ==> StepOption(p, w).value.mode != AwaitOption
    ensures Run(f, Some(p), [Name(w), v]) ==
            if StepOption(p, w).None? then None else StepValue(f, StepOption(p, w).value, v)
  {
    hide StepOption, StepValue, Name, Recognise;
    assert [Name(w), v] == [Name(w)] + [v];
    RunConcat(f, Some(p), [Name(w)], [v]);
    RunOption(f, p, w);
    Run1(f, StepOption(p, w), v);
  }

  /** A format of the last entry. */
  lemma RunFormat(f: Files, p: Parser, init: seq<Entry>, e: Entry, format: string)
    requires p.entries == init + [e] && e.id == ConcatenatedText && p.mode == AwaitOption
    ensures Run(f, Some(p), [Name(Format), format]) ==
            if Formatting(format) then Some(p.(entries := init + [e.(format := e.format + Letters(format))])) else None
  {
    hide Formatting, FormatOk, Letters;
    RunValue(f, p, Format, format);
    FormatLetterIff(format);
    var e' := e.(format := e.format + Letters(format));
    assert p.entries[|init| := e'] == init + [e'];
  }

  /** The formats of a text are added to its entry; a wrong letter is an error. */
  lemma {:induction false} RunFormats(f: Files, p: Parser, init: seq<Entry>, e: Entry, formats: seq<string>)
    requires p.entries == init + [e] && e.id == ConcatenatedText && p.mode == AwaitOption
    ensures Run(f, Some(p), FormatArgs(formats)) ==
            if AllFormatting(formats) then Some(p.(entries := init + [e.(format := e.format + FormatSet(formats))]))
            else None
    decreases |formats|
  {
    hide Run, Formatting, Letters, Name;
    if formats == [] {
      assert e.format + {} == e.format;
      RunNone(f, Some(p));
    } else {
      var more, last := formats[..|formats| - 1], formats[|formats| - 1];
      RunFormats(f, p, init, e, more);
      RunConcat(f, Some(p), FormatArgs(more), [Name(Format), last]);
      assert AllFormatting(formats) <==> AllFormatting(more) && Formatting(last) by { assert formats == more + [last]; }
      if AllFormatting(more) {
        var e1 := e.(format := e.format + FormatSet(more));
        RunFormat(f, p.(entries := init + [e1]), init, e1, last);
        assert e.format + FormatSet(more) + Letters(last) == e.format + FormatSet(formats);
      } else {
        RunFailed(f, [Name(Format), last]);
      }
    }
  }

  lemma RunNone(f: Files, p: Option<Parser>)
    ensures Run(f, p, []) == p
  {
  }

  lemma RunFailed(f: Files, args: seq<string>)
    ensures Run(f, None, args) == None
  {
  }

  lemma {:induction false} AddFramesIs(have: seq<string>, more: seq<string>, n: nat)
    requires |have| <= n
    ensures AddFrames(have, more, n) == if |have + more| <= n then have + more else (have + more)[..n]
    decreases |more|
  {
    if more == [] {
      assert have + more == have;
    } else if |have| < n {
      AddFramesIs(have + [more[0]], more[1..], n);
      assert have + [more[0]] + more[1..] == have + more;
    }
  }

  /** Files that do not give enough frames yet. */
  lemma {:induction false} RunFiles(f: Files, p: Parser, paths: seq<string>)
    requires p.mode == AwaitAnimationFile && p.framesNum >= 1 && p.current.frames == []
    requires (forall x <- paths :: x in f.bitmaps) && |AllFrames(f, paths)| < p.framesNum
    ensures Run(f, Some(p), paths) == Some(p.(current := p.current.(frames := AllFrames(f, paths))))
    decreases |paths|
  {
    if paths != [] {
      var init, last := paths[..|paths| - 1], paths[|paths| - 1];
      assert paths == init + [last];
      RunFiles(f, p, init);
      RunConcat(f, Some(p), init, [last]);
      var p1 := p.(current := p.current.(frames := AllFrames(f, init)));
      Run1(f, Some(p1), last);
      AddFramesIs(AllFrames(f, init), f.bitmaps[last], p.framesNum);
    }
  }

  /** The files of an animation, the last of which completes it. */
  lemma RunAnimationFiles(f: Files, p: Parser, paths: seq<string>)
    requires p.mode == AwaitAnimationFile && p.framesNum >= 1 && p.current.frames == []
    requires paths != [] && forall x <- paths :: x in f.bitmaps
    requires |AllFrames(f, paths[..|paths| - 1])| < p.framesNum <= |AllFrames(f, paths)|
    ensures Run(f, Some(p), paths) == Some(Done(p, p.current.(frames := AllFrames(f, paths)[..p.framesNum])))
  {
    var init, last := paths[..|paths| - 1], paths[|paths| - 1];
    assert paths == init + [last];
    RunFiles(f, p, init);
    RunConcat(f, Some(p), init, [last]);
    var p1 := p.(current := p.current.(frames := AllFrames(f, init)));
    Run1(f, Some(p1), last);
    AddFramesIs(AllFrames(f, init), f.bitmaps[last], p.framesNum);
    var all := AllFrames(f, paths);
    assert all == AllFrames(f, init) + f.bitmaps[last];
    if |all| == p.framesNum { assert all[..p.framesNum] == all; }
  }

  // ----- One piece

  /** Between entries, with nothing pending. */
  predicate Idle(p: Parser, left: nat) {
    p.current == BLANK && p.mode == AwaitOption && p.left == left
  }

  /** After a piece, its entry has been added to those of `p`, and its setting made. */
  predicate Added(p: Parser, q: Parser, f: Files, x: Piece, left: nat)
    requires FramesFit(f, x) && Readable(f, x)
  {
    && Idle(q, LeftAfter(x, left)) && q.entries == p.entries + Meaning(f, x, left > 0, false)
    && q.unicode == (p.unicode || x.SetUnicode?) && q.bit16 == (p.bit16 || x.Set16Bit?)
    && q.command == CommandAfter(p.command, x) && q.envelope == EnvelopeAfter(p.envelope, x)
  }

  /** The piece is read, or it is an error: it cannot be read or not be given for the command. */
  predicate Handled(r: Option<Parser>, p: Parser, f: Files, x: Piece, left: nat)
    requires FramesFit(f, x)
  {
    if Readable(f, x) && Allowed(p.command, x) then r.Some? && Added(p, r.value, f, x, left) else r == None
  }

  /** The pieces that are no items only change what goes with the message. */
  lemma NoMeaning(f: Files, x: Piece, left: nat)
    requires !Item(x)
    ensures FramesFit(f, x) && Readable(f, x) && Meaning(f, x, left > 0, false) == []
    ensures LeftAfter(x, left) == if x.Protect? then x.n else left
  {
  }

  lemma RunFlag(f: Files, p: Parser, x: Piece, left: nat)
    requires (|| x.SetUnicode? || x.Set16Bit? || x.SaveToo? || x.MarkAs? || x.AskReport? || x.AskReply?)
    requires Idle(p, left)
    ensures Handled(Run(f, Some(p), Args(x)), p, f, x, left)
  {
    hide Run, Name, Meaning, LeftAfter, FramesFit, Readable;
    NoMeaning(f, x, left);
    match x
    case SetUnicode => RunOption(f, p, Unicode);
    case Set16Bit => RunOption(f, p, Bit16);
    case SaveToo => RunOption(f, p, SaveCopy);
    case MarkAs(state) => RunOption(f, p, SetState(state));
    case AskReport => RunOption(f, p, Report);
    case AskReply => RunOption(f, p, Reply);
  }

  lemma RunNumberedItem(f: Files, p: Parser, x: Piece, left: nat)
    requires (x.SoundItem? || x.PictureItem?) && Idle(p, left)
    ensures Handled(Run(f, Some(p), Args(x)), p, f, x, left)
  {
    hide Run, Name, GetInt, Attributes;
    GetIntDecimal(x.number);
    RunValue(f, p, if x.SoundItem? then DefSound else DefAnimation, Decimal(x.number));
  }

  lemma RunProtect(f: Files, p: Parser, n: nat, left: nat)
    requires Idle(p, left)
    ensures Handled(Run(f, Some(p), Args(Protect(n))), p, f, Protect(n), left)
  {
    hide Run, Name, GetInt, Meaning, LeftAfter, FramesFit, Readable;
    NoMeaning(f, Protect(n), left);
    GetIntDecimal(n);
    RunValue(f, p, Protected, Decimal(n));
  }

  /** A setting and its value. */
  lemma RunSetting(f: Files, p: Parser, setting: Setting, v: string)
    requires p.mode == AwaitOption
    ensures Run(f, Some(p), [Name(MessageSetting(setting)), v]) ==
            var e := Configured(p.envelope, setting, v);
            if !Available(p.command, MessageSetting(setting)) || e.None? then None else Some(p.(envelope := e.value))
  {
    hide Run, Name, Configured, Available;
    RunValue(f, p, MessageSetting(setting), v);
  }

  predicate IsSetting(x: Piece) {
    x.InFolder? || x.CentreAt? || x.AtMost? || x.From? || x.Called? || x.CentreNumber? || x.ValidFor?
  }

  /** The setting a piece is for, and its value. */
  function SettingOf(x: Piece): (Setting, string)
    requires IsSetting(x)
  {
    match x
    case InFolder(n) => (FolderNumber, Decimal(n))
    case CentreAt(n) => (SmscSet, Decimal(n))
    case AtMost(n) => (MaxSms, Decimal(n))
    case From(phone) => (Sender, phone)
    case Called(name) => (SmsName, name)
    case CentreNumber(phone) => (SmscNumber, phone)
    case ValidFor(period) => (Validity, PeriodWord(period))
  }

  lemma SettingArgs(x: Piece, command: Command)
    requires IsSetting(x)
    ensures Args(x) == [Name(MessageSetting(SettingOf(x).0)), SettingOf(x).1]
    ensures Available(command, MessageSetting(SettingOf(x).0)) <==> Allowed(command, x)
  {
    hide Name;
  }

  lemma SettingValue(x: Piece, e: Envelope)
    requires IsSetting(x)
    ensures Configured(e, SettingOf(x).0, SettingOf(x).1) == Some(EnvelopeAfter(e, x))
  {
    hide GetInt, ReadPeriod, PeriodWord;
    match x
    case InFolder(n) => GetIntDecimal(n);
    case CentreAt(n) => GetIntDecimal(n);
    case AtMost(n) => GetIntDecimal(n);
    case ValidFor(period) => ReadPeriodIff(PeriodWord(period), period);
    case _ =>
  }

  lemma RunSettingPiece(f: Files, p: Parser, x: Piece, left: nat)
    requires IsSetting(x) && Idle(p, left)
    ensures Handled(Run(f, Some(p), Args(x)), p, f, x, left)
  {
    hide Run, Args, SettingOf, Configured, EnvelopeAfter, Available, Allowed, Meaning, LeftAfter, FramesFit, Readable;
    NoMeaning(f, x, left);
    SettingArgs(x, p.command);
    SettingValue(x, p.envelope);
    RunSetting(f, p, SettingOf(x).0, SettingOf(x).1);
  }

  lemma RunFileItem(f: Files, p: Parser, x: Piece, left: nat)
    requires (x.ToneItem? || x.BitmapItem?) && Idle(p, left)
    ensures Handled(Run(f, Some(p), Args(x)), p, f, x, left)
  {
    hide Run, Name, Attributes;
    RunValue(f, p, if x.ToneItem? then Tone(x.tone) else Bitmap(x.bitmap), x.path);
  }

  lemma RunText(f: Files, p: Parser, x: Piece, left: nat)
    requires (x.TextItem? || x.FileTextItem?) && Idle(p, left)
    ensures Handled(Run(f, Some(p), Args(x)), p, f, x, left)
  {
    hide Run, Name, AllFormatting, FormatSet, Attributes;
    var w, v := if x.TextItem? then Text else UnicodeFileText, if x.TextItem? then x.text else x.path;
    RunValue(f, p, w, v);
    RunConcat(f, Some(p), [Name(w), v], FormatArgs(x.formats));
    if x.FileTextItem? && x.path !in f.texts {
      RunFailed(f, FormatArgs(x.formats));
    } else {
      var e := BLANK.(id := ConcatenatedText, text := if x.TextItem? then x.text else f.texts[x.path]);
      RunFormats(f, Done(p, e), p.entries, e, x.formats);
      if AllFormatting(x.formats) { FormatSetIs(x.formats); }
      assert {} + FormatSet(x.formats) == FormatSet(x.formats);
    }
  }

  lemma RunCount(f: Files, p: Parser, count: nat)
    requires p.mode == AwaitOption
    ensures Run(f, Some(p), [Name(Animation), Decimal(count)]) ==
            if count < 1 || count > 4 then None
            else
              var q := Begin(p, AnimationEntry, AwaitAnimationFile).(framesNum := count);
              Some(q.(current := q.current.(frames := [])))
  {
    hide Run, Name, GetInt;
    GetIntDecimal(count);
    RunValue(f, p, Animation, Decimal(count));
  }

  lemma RunAnimation(f: Files, p: Parser, x: Piece, left: nat)
    requires x.AnimationItem? && FramesFit(f, x) && Idle(p, left)
    ensures Handled(Run(f, Some(p), Args(x)), p, f, x, left)
  {
    hide Run, Name, Attributes;
    RunConcat(f, Some(p), [Name(Animation), Decimal(x.count)], x.paths);
    RunCount(f, p, x.count);
    if Readable(f, x) {
      var q := Begin(p, AnimationEntry, AwaitAnimationFile).(framesNum := x.count);
      RunAnimationFiles(f, q, x.paths);
    } else {
      RunFailed(f, x.paths);
    }
  }

  /** One piece. */
  lemma RunPiece(f: Files, p: Parser, x: Piece, left: nat)
    requires FramesFit(f, x) && Idle(p, left)
    ensures Handled(Run(f, Some(p), Args(x)), p, f, x, left)
  {
    hide Run, Args, Handled, FramesFit, Idle;
    match x
    case TextItem(_, _) => RunText(f, p, x, left);
    case FileTextItem(_, _) => RunText(f, p, x, left);
    case ToneItem(_, _) => RunFileItem(f, p, x, left);
    case BitmapItem(_, _) => RunFileItem(f, p, x, left);
    case AnimationItem(_, _) => RunAnimation(f, p, x, left);
    case Protect(n) => RunProtect(f, p, n, left);
    case SoundItem(_) => RunNumberedItem(f, p, x, left);
    case PictureItem(_) => RunNumberedItem(f, p, x, left);
    case _ => if IsSetting(x) { RunSettingPiece(f, p, x, left); } else { RunFlag(f, p, x, left); }
  }

  // ----- The whole command line

  /** What the whole command line leaves behind. */
  predicate AllAdded(p: Parser, q: Parser, f: Files, xs: seq<Piece>, left: nat)
    requires AllFramesFit(f, xs) && forall i :: 0 <= i < |xs| ==> Readable(f, xs[i])
  {
    && q.entries == p.entries + Meanings(f, xs, left, false) && q.mode == AwaitOption
    && q.unicode == (p.unicode || SetUnicode in xs) && q.bit16 == (p.bit16 || Set16Bit in xs)
    && q.command == CommandAtEnd(p.command, xs) && q.envelope == EnvelopeAtEnd(p.envelope, xs)
  }

  lemma AddedThenAll(p: Parser, q: Parser, r: Parser, f: Files, xs: seq<Piece>, left: nat)
    requires xs != [] && AllFramesFit(f, xs) && forall i :: 0 <= i < |xs| ==> Readable(f, xs[i])
    requires Added(p, q, f, xs[0], left) && AllAdded(q, r, f, xs[1..], LeftAfter(xs[0], left))
    ensures AllAdded(p, r, f, xs, left)
  {
    hide Meaning, Meanings, EnvelopeAfter;
    var x := xs[0];
    assert xs == [x] + xs[1..];
    MeaningsCons(f, xs, left);
    assert p.entries + (Meaning(f, x, left > 0, false) + Meanings(f, xs[1..], LeftAfter(x, left), false))
        == p.entries + Meaning(f, x, left > 0, false) + Meanings(f, xs[1..], LeftAfter(x, left), false);
  }

  lemma MeaningsCons(f: Files, xs: seq<Piece>, left: nat)
    requires xs != [] && AllFramesFit(f, xs) && forall i :: 0 <= i < |xs| ==> Readable(f, xs[i])
    ensures Meanings(f, xs, left, false)
         == Meaning(f, xs[0], left > 0, false) + Meanings(f, xs[1..], LeftAfter(xs[0], left), false)
  {
    hide Meaning;
  }

  /** From any state between entries, an acceptable list of pieces adds its entries; any other is rejected. */
  lemma {:induction false} RunPieces(f: Files, p: Parser, xs: seq<Piece>, left: nat)
    requires AllFramesFit(f, xs) && Idle(p, left)
    ensures var r := Run(f, Some(p), Render(xs));
            if Acceptable(f, p.command, xs) then r.Some? && AllAdded(p, r.value, f, xs, left) else r == None
    decreases |xs|
  {
    hide Run, FramesFit, Args, Readable, Allowed, Meaning, Meanings;
    if xs == [] {
      RunNone(f, Some(p));
      NoMeanings(f, p, left);
    } else {
      var x, rest := xs[0], xs[1..];
      var q := Run(f, Some(p), Args(x));
      RunPiece(f, p, x, left);
      RunConcat(f, Some(p), Args(x), Render(rest));
      if q.Some? {
        RunPieces(f, q.value, rest, LeftAfter(x, left));
        if Acceptable(f, q.value.command, rest) {
          AddedThenAll(p, q.value, Run(f, Some(p), Render(xs)).value, f, xs, left);
        }
      } else {
        RunFailed(f, Render(rest));
      }
    }
  }

  lemma NoMeanings(f: Files, p: Parser, left: nat)
    requires Idle(p, left)
    ensures AllAdded(p, p, f, [], left)
  {
  }

  /** Marking the texts at the end is reading them as 16-bit texts. */
  lemma {:induction false} MarkedMeanings(f: Files, xs: seq<Piece>, left: nat, bit16: bool)
    requires AllFramesFit(f, xs) && forall i :: 0 <= i < |xs| ==> Readable(f, xs[i])
    ensures Marked(Meanings(f, xs, left, false), bit16) == Meanings(f, xs, left, bit16)
  {
    if xs != [] && bit16 {
      var a, b := Meaning(f, xs[0], left > 0, false), Meanings(f, xs[1..], LeftAfter(xs[0], left), false);
      MarkedMeanings(f, xs[1..], LeftAfter(xs[0], left), bit16);
      MarkedConcat(a, b);
      MarkedMeaning(f, xs[0], left > 0);
    }
  }

  lemma MarkedMeaning(f: Files, x: Piece, isProtected: bool)
    requires FramesFit(f, x) && Readable(f, x)
    ensures Marked(Meaning(f, x, isProtected, false), true) == Meaning(f, x, isProtected, true)
  {
    hide Attributes, AllFrames;
  }

  lemma MarkedConcat(a: seq<Entry>, b: seq<Entry>)
    ensures Marked(a + b, true) == Marked(a, true) + Marked(b, true)
  {
  }

  /** A command line written for any list of pieces is accepted exactly if each of them can be read and be given for
      the command at its place; it is then read as their entries, in order, and their settings, the last one of a kind
      being the one that counts. */
  lemma OptionsRoundTrip(f: Files, command: Command, sender: string, smscSet: int, xs: seq<Piece>)
    requires AllFramesFit(f, xs)
    ensures Composed(f, Start(command, sender, smscSet), Render(xs)) ==
            if !Acceptable(f, command, xs) then None
            else
              var envelope := Envelope(Sent, false, false, 1, sender, "", None, smscSet, "", -1);
              Some(Message(CommandAtEnd(command, xs), Meanings(f, xs, 0, Set16Bit in xs), SetUnicode in xs,
                           EnvelopeAtEnd(envelope, xs)))
  {
    hide Run, FramesFit, Readable, Meanings, Acceptable, EnvelopeAtEnd, CommandAtEnd, Marked;
    var p := Start(command, sender, smscSet);
    RunPieces(f, p, xs, 0);
    if Acceptable(f, command, xs) {
      MarkedMeanings(f, xs, 0, Set16Bit in xs);
      assert [] + Meanings(f, xs, 0, false) == Meanings(f, xs, 0, false);
    }
  }

  /** Any other text where an option is expected is an error, and so is an option at the end whose argument is
      missing. */
  lemma Rejected(f: Files, command: Command, sender: string, smscSet: int, xs: seq<Piece>, arg: string)
    requires AllFramesFit(f, xs)
    requires (forall w :: w != Unknown ==> !SameText(arg, Name(w)))
             || SameText(arg, "-text") || SameText(arg, "-protected") || SameText(arg, "-format")
             || SameText(arg, "-smscset") || SameText(arg, "-animation")
    ensures Composed(f, Start(command, sender, smscSet), Render(xs) + [arg]) == None
  {
    hide Run, FramesFit, Readable, Acceptable, AllAdded, Recognise, SameText, Name;
    var p := Start(command, sender, smscSet);
    RunPieces(f, p, xs, 0);
    RunConcat(f, Some(p), Render(xs), [arg]);
    var r := Run(f, Some(p), Render(xs));
    Run1(f, r, arg);
    if r.Some? {
      AddedMode(p, r.value, f, xs, 0);
      RecognisedBad(arg);
    }
  }

  lemma AddedMode(p: Parser, q: Parser, f: Files, xs: seq<Piece>, left: nat)
    requires AllFramesFit(f, xs) && forall i :: 0 <= i < |xs| ==> Readable(f, xs[i])
    requires AllAdded(p, q, f, xs, left)
    ensures q.mode == AwaitOption
  {
  }

  lemma RecognisedBad(arg: string)
    requires (forall w :: w != Unknown ==> !SameText(arg, Name(w)))
             || SameText(arg, "-text") || SameText(arg, "-protected") || SameText(arg, "-format")
             || SameText(arg, "-smscset") || SameText(arg, "-animation")
    ensures Recognise(arg) in {Unknown, Text, Protected, Format, MessageSetting(SmscSet), Animation}
  {
    hide Recognise, SameText;
    var w := Recognise(arg);
    if w != Unknown { RecogniseIff(arg, w); }
    RecogniseIff(arg, Text);
    RecogniseIff(arg, Protected);
    RecogniseIff(arg, Format);
    RecogniseIff(arg, MessageSetting(SmscSet));
    RecogniseIff(arg, Animation);
  }

  // ----- The protected items

  /** How many of the pieces can be protected. */
  function CountProtectable(xs: seq<Piece>): nat {
    if xs == [] then 0 else (if CanProtect(xs[0]) then 1 else 0) + CountProtectable(xs[1..])
  }

  /** With `left` entries to protect, the entries protected are those of the next `left` items that can be. */
  lemma {:induction false} ProtectsNext(f: Files, xs: seq<Piece>, left: nat, bit16: bool, k: nat)
    requires AllFramesFit(f, xs) && (forall i :: 0 <= i < |xs| ==> Readable(f, xs[i]) && Item(xs[i])) && k < |xs|
    ensures |Meanings(f, xs, left, bit16)| == |xs|
    ensures Meanings(f, xs, left, bit16)[k].isProtected <==> CanProtect(xs[k]) && CountProtectable(xs[..k]) < left
    decreases |xs|
  {
    hide Attributes, AllFrames, FramesFit, Readable;
    var rest := Meanings(f, xs[1..], LeftAfter(xs[0], left), bit16);
    assert |Meaning(f, xs[0], left > 0, bit16)| == 1;
    if |xs| == 1 {
      assert rest == [];
    } else {
      ProtectsNext(f, xs[1..], LeftAfter(xs[0], left), bit16, if k == 0 then 0 else k - 1);
    }
    if k > 0 {
      assert xs[..k][1..] == xs[1..][..k - 1];
      assert Meanings(f, xs, left, bit16)[k] == rest[k - 1];
    } else {
      assert xs[..0] == [];
    }
  }

  /** "-protected n" before a list of items protects exactly the first n of those that can be protected. */
  lemma ProtectMarksNext(f: Files, n: nat, xs: seq<Piece>, bit16: bool, k: nat)
    requires AllFramesFit(f, xs) && (forall i :: 0 <= i < |xs| ==> Readable(f, xs[i]) && Item(xs[i])) && k < |xs|
    ensures var es := Meanings(f, [Protect(n)] + xs, 0, bit16);
            |es| == |xs| && (es[k].isProtected <==> CanProtect(xs[k]) && CountProtectable(xs[..k]) < n)
  {
    assert ([Protect(n)] + xs)[1..] == xs;
    assert [] + Meanings(f, xs, n, bit16) == Meanings(f, xs, n, bit16);
    ProtectsNext(f, xs, n, bit16, k);
  }
}
