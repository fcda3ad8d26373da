/** Compiling a ringtone to the keys to press in a phone's composer. */
module Composer {

  datatype Pitch = C | Cis | D | Dis | E | F | Fis | G | Gis | A | Ais | H | Pause | INVALID

  datatype Duration = Full | Half | Quarter | Eighth | Sixteenth | ThirtySecond | NoDuration

  datatype DurationSpec = NoSpecial | Dotted | DoubleDotted | TwoThirds

  /** Scales are numbered from 1 (55 Hz) to 9 (14080 Hz). */
  datatype Note = Note(pitch: Pitch, duration: Duration, spec: DurationSpec, scale: nat)

  datatype Command = Tone(note: Note) | Other

  datatype Key = Digit(n: nat) | Longer | Sharp | Star | Nine | Eight | Gap

  const SCALE_880: nat := 5
  const SCALE_3520: nat := 7
  const SCALE_7040: nat := 8
  const QUARTER: nat := 32

  // ----- What one note needs

  function DigitOf(p: Pitch): nat {
    match p
    case C => 1 case Cis => 1
    case D => 2 case Dis => 2
    case E => 3
    case F => 4 case Fis => 4
    case G => 5 case Gis => 5
    case A => 6 case Ais => 6
    case H => 7
    case _ => 0
  }

  predicate IsSharp(p: Pitch) {
    p == Cis || p == Dis || p == Fis || p == Gis || p == Ais
  }

  /** The composer's own measure of a duration, 128 for a full note; 0 stands for none. */
  function Value(d: Duration): nat {
    match d
    case Full => 128
    case Half => 64
    case Quarter => 32
    case Eighth => 16
    case Sixteenth => 8
    case ThirtySecond => 4
    case NoDuration => 0
  }

  predicate ComposerScale(s: nat) {
    SCALE_880 <= s <= SCALE_3520
  }

  /** The scale after pressing '*'. */
  function NextScale(s: nat): nat {
    if s + 1 == SCALE_7040 then SCALE_880 else s + 1
  }

  predicate ComposerValue(v: nat) {
    v == 4 || v == 8 || v == 16 || v == 32 || v == 64 || v == 128
  }

  /** The frequency of a scale: from 55 Hz on, each scale doubles it. */
  function Hertz(s: nat): nat {
    if s == 0 then 0 else if s == 1 then 55 else 2 * Hertz(s - 1)
  }

  lemma {:induction false} HertzGrows(s: nat, t: nat)
    requires s <= t
    ensures Hertz(s) <= Hertz(t)
    decreases t
  {
    if s < t {
      HertzGrows(s, t - 1);
    }
  }

  /** The composer's scales are those from 880 to 3520 Hz; '*' doubles the frequency, and from 3520 goes back to 880. */
  lemma ScaleFrequencies(s: nat)
    ensures ComposerScale(s) <==> 880 <= Hertz(s) <= 3520
    ensures ComposerScale(s) ==> Hertz(NextScale(s)) == if Hertz(s) == 3520 then 880 else 2 * Hertz(s)
  {
    assert Hertz(2) == 110 && Hertz(3) == 220 && Hertz(4) == 440 && Hertz(5) == 880;
    assert Hertz(6) == 1760 && Hertz(7) == 3520 && Hertz(8) == 7040;
    if s <= 4 { HertzGrows(s, 4); }
    if s >= 8 { HertzGrows(8, s); }
  }

  /** How many presses of '*' lead from one scale to another. */
  function Presses(from: nat, to: nat): nat
    requires ComposerScale(from) && ComposerScale(to)
  {
    if from <= to then to - from else to - from + 3
  }

  function Stars(n: nat): seq<Key> {
    seq(n, _ => Star)
  }

  /** The presses that turn duration `v` into `w`; a duration can always be halved away to nothing. */
  function DurationKeys(v: nat, w: nat): seq<Key>
    requires (ComposerValue(v) && ComposerValue(w)) || w == 0
    decreases if v < w then w - v else v - w
  {
    if v == w then []
    else if v < w then [Nine] + DurationKeys(v * 2, w)
    else [Eight] + DurationKeys(v / 2, w)
  }

  datatype Defaults = Defaults(scale: nat, duration: nat)

  const INITIAL := Defaults(SCALE_880, QUARTER)

  /** The defaults after a note: a pause leaves the scale alone. */
  function After(s: Defaults, n: Note): Defaults {
    Defaults(if n.pitch == Pause then s.scale else n.scale, Value(n.duration))
  }

  /** The loops of one note come to an end: the scale can be reached by cycling, the duration by doubling or halving. */
  predicate Enterable(s: Defaults, n: Note) {
    && ComposerScale(s.scale)
    && (n.pitch != Pause ==> ComposerScale(n.scale))
    && (ComposerValue(s.duration) || s.duration == 0)
    && (s.duration == 0 ==> n.duration == NoDuration)
  }

  function NoteKeys(s: Defaults, n: Note): seq<Key>
    requires Enterable(s, n)
  {
    [Digit(DigitOf(n.pitch))]
    + (if n.spec == Dotted then [Longer] else [])
    + (if IsSharp(n.pitch) then [Sharp] else [])
    + (if n.pitch == Pause then [] else Stars(Presses(s.scale, n.scale)))
    + DurationKeys(s.duration, Value(n.duration))
    + [Gap]
  }

  predicate AllEnterable(s: Defaults, ns: seq<Note>)
    decreases |ns|
  {
    ns == [] || (Enterable(s, ns[0]) && AllEnterable(After(s, ns[0]), ns[1..]))
  }

  function Compile(s: Defaults, ns: seq<Note>): seq<Key>
    requires AllEnterable(s, ns)
    decreases |ns|
  {
    if ns == [] then [] else NoteKeys(s, ns[0]) + Compile(After(s, ns[0]), ns[1..])
  }

  /** The notes that are entered: everything from the first note that is not a pause. */
  function Notes(cs: seq<Command>): seq<Note> {
    if cs == [] then []
    else if cs[0].Tone? && cs[0].note.pitch != Pause then AllNotes(cs)
    else Notes(cs[1..])
  }

  function AllNotes(cs: seq<Command>): seq<Note> {
    if cs == [] then [] else (if cs[0].Tone? then [cs[0].note] else []) + AllNotes(cs[1..])
  }

  function CountTones(cs: seq<Command>): nat {
    if cs == [] then 0 else (if cs[0].Tone? then 1 else 0) + CountTones(cs[1..])
  }

  /** Every tone is among the notes, in its place, and nothing else. */
  lemma {:induction false} NoteInPlace(cs: seq<Command>, i: nat)
    requires i < |cs|
    ensures |AllNotes(cs)| == CountTones(cs)
    ensures cs[i].Tone? ==> CountTones(cs[..i]) < |AllNotes(cs)| && AllNotes(cs)[CountTones(cs[..i])] == cs[i].note
    decreases |cs|
  {
    if |cs| > 1 {
      NoteInPlace(cs[1..], if i > 0 then i - 1 else 0);
    }
    if i > 0 {
      assert cs[..i][1..] == cs[1..][..i - 1];
    }
  }

  /** The notes that are entered are all but the leading pauses. */
  lemma {:induction false} NotesFrom(cs: seq<Command>) returns (k: nat)
    ensures k <= |AllNotes(cs)| && Notes(cs) == AllNotes(cs)[k..]
    ensures forall i :: 0 <= i < k ==> AllNotes(cs)[i].pitch == Pause
    ensures k < |AllNotes(cs)| ==> AllNotes(cs)[k].pitch != Pause
  {
    if cs == [] || (cs[0].Tone? && cs[0].note.pitch != Pause) {
      k := 0;
    } else {
      k := NotesFrom(cs[1..]);
      if cs[0].Tone? {
        k := k + 1;
        assert AllNotes(cs)[1..] == AllNotes(cs[1..]);
      }
    }
  }

  // ----- When the loops end

  function PressStar(s: nat, n: nat): nat {
    if n == 0 then s else NextScale(PressStar(s, n - 1))
  }

  /** Some number of stars leads from one scale to the other. */
  ghost predicate ScaleLoopEnds(from: nat, to: nat) {
    exists k: nat :: PressStar(from, k) == to
  }

  lemma {:induction false} PressStarStays(s: nat, n: nat)
    requires ComposerScale(s)
    ensures ComposerScale(PressStar(s, n))
  {
    if n > 0 {
      PressStarStays(s, n - 1);
    }
  }

  /** Pressing '*' reaches exactly the composer's three scales, each within two presses; for any other scale the
      program's loop never ends. */
  lemma ScaleReachable(from: nat, to: nat)
    requires ComposerScale(from)
    ensures ScaleLoopEnds(from, to) <==> ComposerScale(to)
    ensures ComposerScale(to) ==> Presses(from, to) <= 2 && PressStar(from, Presses(from, to)) == to
  {
    forall n: nat
      ensures ComposerScale(PressStar(from, n))
    {
      PressStarStays(from, n);
    }
    if ComposerScale(to) {
      assert PressStar(from, 1) == NextScale(PressStar(from, 0));
      assert PressStar(from, 2) == NextScale(PressStar(from, 1));
      assert PressStar(from, Presses(from, to)) == to;
    }
  }

  function Double(v: nat, n: nat): nat {
    if n == 0 then v else Double(v, n - 1) * 2
  }

  /** Once a note without a duration has been entered, no later duration can be reached by doubling. */
  lemma {:induction false} NothingDoubles(n: nat)
    ensures Double(0, n) == 0
  {
    if n > 0 {
      NothingDoubles(n - 1);
    }
  }

  /** No note takes more than two scale keys and five duration keys. */
  lemma KeysBounded(s: Defaults, n: Note)
    requires Enterable(s, n) && n.duration != NoDuration
    ensures |NoteKeys(s, n)| <= 4 + 2 + 5
    ensures |DurationKeys(s.duration, Value(n.duration))| <= 5
    ensures n.pitch != Pause ==> Presses(s.scale, n.scale) <= 2
  {
    DurationKeysBounded(s.duration, Value(n.duration));
  }

  /** The position of a duration on the composer's ladder. */
  function Rung(v: nat): nat
    requires ComposerValue(v)
  {
    if v == 4 then 0 else if v == 8 then 1 else if v == 16 then 2 else if v == 32 then 3 else if v == 64 then 4 else 5
  }

  lemma {:induction false} DurationKeysBounded(v: nat, w: nat)
    requires ComposerValue(v) && ComposerValue(w)
    ensures |DurationKeys(v, w)| == if v <= w then Rung(w) - Rung(v) else Rung(v) - Rung(w)
    decreases if v < w then w - v else v - w
  {
    if v < w {
      DurationKeysBounded(v * 2, w);
    } else if v > w {
      DurationKeysBounded(v / 2, w);
    }
  }

  // ----- The program

  /** Presses '*' until the scale is the note's. */
  method EnterScale(defNoteScale: nat, scale: nat) returns (keys: seq<Key>, s: nat)
    requires ComposerScale(defNoteScale) && ComposerScale(scale)
    ensures s == scale && keys == Stars(Presses(defNoteScale, scale))
  {
    s := defNoteScale;
    keys := [];
    if scale != s {
      while s != scale
        invariant ComposerScale(s)
        invariant keys + Stars(Presses(s, scale)) == Stars(Presses(defNoteScale, scale))
        decreases Presses(s, scale)
      {
        keys := keys + [Star];
        s := s + 1;
        if s == SCALE_7040 { s := SCALE_880; }
      }
    }
  }

  lemma PressNine(keys: seq<Key>, v: nat, w: nat)
    requires ComposerValue(v) && ComposerValue(w) && v < w
    ensures ComposerValue(v * 2) && v * 2 <= w
    ensures keys + DurationKeys(v, w) == (keys + [Nine]) + DurationKeys(v * 2, w)
  {
  }

  lemma PressEight(keys: seq<Key>, v: nat, w: nat)
    requires ((ComposerValue(v) && ComposerValue(w)) || w == 0) && v > w
    ensures (ComposerValue(v / 2) || w == 0) && v / 2 >= w
    ensures keys + DurationKeys(v, w) == (keys + [Eight]) + DurationKeys(v / 2, w)
  {
  }

  /** Presses '9' or '8' until the duration is the note's. */
  method EnterDuration(defNoteDuration: nat, duration: nat) returns (keys: seq<Key>, d: nat)
    requires (ComposerValue(defNoteDuration) && ComposerValue(duration)) || duration == 0
    ensures d == duration && keys == DurationKeys(defNoteDuration, duration)
  {
    d := defNoteDuration;
    keys := [];
    if duration > d {
      while d != duration
        invariant ComposerValue(d) && d <= duration
        invariant keys + DurationKeys(d, duration) == DurationKeys(defNoteDuration, duration)
        decreases duration - d
      {
        PressNine(keys, d, duration);
        keys := keys + [Nine];
        d := d * 2;
      }
    }
    if duration < d {
      while d != duration
        invariant ComposerValue(d) || duration == 0
        invariant duration <= d
        invariant keys + DurationKeys(d, duration) == DurationKeys(defNoteDuration, duration)
        decreases d - duration
      {
        PressEight(keys, d, duration);
        keys := keys + [Eight];
        d := d / 2;
      }
    }
  }

  /** Prints the keys for one note and updates the defaults. */
  method EnterNote(s: Defaults, note: Note) returns (keys: seq<Key>, s': Defaults)
    requires Enterable(s, note)
    ensures keys == NoteKeys(s, note) && s' == After(s, note)
  {
    hide NoteKeys;
    var defNoteScale := s.scale;
    keys := [Digit(DigitOf(note.pitch))];
    if note.spec == Dotted { keys := keys + [Longer]; }
    if IsSharp(note.pitch) { keys := keys + [Sharp]; }
    assert keys == Front(note);
    if note.pitch != Pause {
      var stars, scale := EnterScale(defNoteScale, note.scale);
      keys, defNoteScale := keys + stars, scale;
    }
    assert keys == Front(note) + TuningStars(s, note);
    var presses, defNoteDuration := EnterDuration(s.duration, Value(note.duration));
    keys := keys + presses;
    keys := keys + [Gap];
    NoteKeysParts(s, note);
    s' := Defaults(defNoteScale, defNoteDuration);
  }

  /** The digit of a note, and its '(longer)' and '#' marks. */
  function Front(n: Note): seq<Key> {
    [Digit(DigitOf(n.pitch))]
    + ((if n.spec == Dotted then [Longer] else []) + (if IsSharp(n.pitch) then [Sharp] else []))
  }

  function TuningStars(s: Defaults, n: Note): seq<Key>
    requires Enterable(s, n)
  {
    if n.pitch == Pause then [] else Stars(Presses(s.scale, n.scale))
  }

  lemma NoteKeysParts(s: Defaults, n: Note)
    requires Enterable(s, n)
    ensures NoteKeys(s, n) ==
            Front(n) + TuningStars(s, n) + DurationKeys(s.duration, Value(n.duration)) + [Gap]
  {
    var longer, sharp := if n.spec == Dotted then [Longer] else [], if IsSharp(n.pitch) then [Sharp] else [];
    assert [Digit(DigitOf(n.pitch))] + (longer + sharp) == [Digit(DigitOf(n.pitch))] + longer + sharp;
  }

  /** The notes still to be entered. */
  function Remaining(started: bool, cs: seq<Command>): seq<Note> {
    if started then AllNotes(cs) else Notes(cs)
  }

  lemma RemainingStep(started: bool, cs: seq<Command>, i: nat)
    requires i < |cs|
    ensures var now := started || (cs[i].Tone? && cs[i].note.pitch != Pause);
            var rest := Remaining(now, cs[i + 1..]);
            Remaining(started, cs[i..]) == if now && cs[i].Tone? then [cs[i].note] + rest else rest
  {
    assert cs[i..][1..] == cs[i + 1..];
  }

  /** `keys` have been pressed, leaving the defaults `s`, and the notes `ns` are still to come. */
  ghost predicate Progress(keys: seq<Key>, s: Defaults, ns: seq<Note>, all: seq<Note>) {
    && AllEnterable(INITIAL, all) && AllEnterable(s, ns)
    && keys + Compile(s, ns) == Compile(INITIAL, all)
  }

  /** Prints the keys for a ringtone. */
  method Compose(commands: seq<Command>) returns (keys: seq<Key>)
    requires AllEnterable(INITIAL, Notes(commands))
    ensures keys == Compile(INITIAL, Notes(commands))
  {
    var s := INITIAL;
    var started := false;
    keys := [];
    for i := 0 to |commands|
      invariant Progress(keys, s, Remaining(started, commands[i..]), Notes(commands))
    {
      RemainingStep(started, commands, i);
      if commands[i].Tone? {
        var note := commands[i].note;
        if !started && note.pitch != Pause { started := true; }
        if started {
          CompileCons(keys, s, note, Remaining(started, commands[i + 1..]));
          var ks, s' := EnterNote(s, note);
          keys, s := keys + ks, s';
        }
      }
    }
    assert commands[|commands|..] == [];
  }

  lemma CompileCons(keys: seq<Key>, s: Defaults, n: Note, rest: seq<Note>)
    requires AllEnterable(s, [n] + rest)
    ensures Enterable(s, n) && AllEnterable(After(s, n), rest)
    ensures keys + Compile(s, [n] + rest) == (keys + NoteKeys(s, n)) + Compile(After(s, n), rest)
  {
    assert ([n] + rest)[1..] == rest;
  }

  // ----- The phone's composer

  datatype Played = Sounded(pitch: Pitch, spec: DurationSpec, scale: nat, duration: Duration)
                  | Rest(spec: DurationSpec, duration: Duration)

  /** The note length the composer shows for its measure of a duration. */
  function DurationOf(v: nat): Duration {
    match v
    case 128 => Full
    case 64 => Half
    case 32 => Quarter
    case 16 => Eighth
    case 8 => Sixteenth
    case 4 => ThirtySecond
    case _ => NoDuration
  }

  /** The composer: the current scale and duration, and the note being entered. */
  datatype Phone = Phone(scale: nat, duration: nat, digit: nat, sharp: bool, longer: bool)

  function PitchOf(digit: nat, sharp: bool): Pitch {
    match digit
    case 1 => if sharp then Cis else C
    case 2 => if sharp then Dis else D
    case 3 => E
    case 4 => if sharp then Fis else F
    case 5 => if sharp then Gis else G
    case 6 => if sharp then Ais else A
    case 7 => H
    case _ => Pause
  }

  function Current(p: Phone): Played {
    var spec := if p.longer then Dotted else NoSpecial;
    if p.digit == 0 then Rest(spec, DurationOf(p.duration))
    else Sounded(PitchOf(p.digit, p.sharp), spec, p.scale, DurationOf(p.duration))
  }

  function Press(p: Phone, k: Key): (Phone, seq<Played>) {
    match k
    case Digit(n) => (p.(digit := n, sharp := false, longer := false), [])
    case Longer => (p.(longer := true), [])
    case Sharp => (p.(sharp := true), [])
    case Star => (p.(scale := NextScale(p.scale)), [])
    case Nine => (p.(duration := p.duration * 2), [])
    case Eight => (p.(duration := p.duration / 2), [])
    case Gap => (p, [Current(p)])
  }

  function Replay(p: Phone, ks: seq<Key>): (Phone, seq<Played>)
    decreases |ks|
  {
    if ks == [] then (p, [])
    else
      var (p1, n1) := Press(p, ks[0]);
      var (p2, n2) := Replay(p1, ks[1..]);
      (p2, n1 + n2)
  }

  lemma {:induction false} ReplayConcat(p: Phone, a: seq<Key>, b: seq<Key>)
    ensures Replay(p, a + b).0 == Replay(Replay(p, a).0, b).0
    ensures Replay(p, a + b).1 == Replay(p, a).1 + Replay(Replay(p, a).0, b).1
    decreases |a|
  {
    if a == [] {
      assert a + b == b;
    } else {
      var p1 := Press(p, a[0]).0;
      ReplayConcat(p1, a[1..], b);
      assert Replay(p, a + b).0 == Replay(p1, a[1..] + b).0
          && Replay(p, a + b).1 == Press(p, a[0]).1 + Replay(p1, a[1..] + b).1 by {
        assert (a + b)[0] == a[0] && (a + b)[1..] == a[1..] + b;
      }
    }
  }

  lemma ReplayCons(p: Phone, k: Key, ks: seq<Key>)
    ensures Replay(p, [k] + ks).0 == Replay(Press(p, k).0, ks).0
    ensures Replay(p, [k] + ks).1 == Press(p, k).1 + Replay(Press(p, k).0, ks).1
  {
    assert ([k] + ks)[1..] == ks;
  }

  lemma {:induction false} ReplayStars(p: Phone, to: nat)
    requires ComposerScale(p.scale) && ComposerScale(to)
    ensures Replay(p, Stars(Presses(p.scale, to))).0 == p.(scale := to)
    ensures Replay(p, Stars(Presses(p.scale, to))).1 == []
    decreases Presses(p.scale, to)
  {
    var n := Presses(p.scale, to);
    if n > 0 {
      assert Stars(n)[0] == Star && Stars(n)[1..] == Stars(n - 1);
      ReplayStars(p.(scale := NextScale(p.scale)), to);
    }
  }

  lemma {:induction false} ReplayDuration(p: Phone, w: nat)
    requires (ComposerValue(p.duration) && ComposerValue(w)) || w == 0
    ensures Replay(p, DurationKeys(p.duration, w)).0 == p.(duration := w)
    ensures Replay(p, DurationKeys(p.duration, w)).1 == []
    decreases if p.duration < w then w - p.duration else p.duration - w
  {
    var v := p.duration;
    if v < w {
      ReplayDuration(p.(duration := v * 2), w);
      ReplayCons(p, Nine, DurationKeys(v * 2, w));
    } else if v > w {
      ReplayDuration(p.(duration := v / 2), w);
      ReplayCons(p, Eight, DurationKeys(v / 2, w));
    }
  }

  /** What the phone hears for a note: an unknown pitch as a rest, and only plain or dotted durations. */
  function Heard(n: Note): Played {
    var spec := if n.spec == Dotted then Dotted else NoSpecial;
    if n.pitch == Pause || n.pitch == INVALID then Rest(spec, n.duration)
    else Sounded(n.pitch, spec, n.scale, n.duration)
  }

  /** A key that need not be pressed. */
  lemma ReplayIf(p: Phone, c: bool, k: Key)
    requires k == Longer || k == Sharp
    ensures var r := Replay(p, if c then [k] else []);
            r.0 == (if c then Press(p, k).0 else p) && r.1 == []
  {
    if c {
      assert [k] == [k] + [];
      ReplayCons(p, k, []);
    }
  }

  /** The part of a note's keys after its digit and marks. */
  function Tuning(s: Defaults, n: Note): seq<Key>
    requires Enterable(s, n)
  {
    (if n.pitch == Pause then [] else Stars(Presses(s.scale, n.scale)))
    + (DurationKeys(s.duration, Value(n.duration)) + [Gap])
  }

  lemma ReplayTuning(p: Phone, s: Defaults, n: Note)
    requires Enterable(s, n) && p.scale == s.scale && p.duration == s.duration
    ensures var r := Replay(p, Tuning(s, n));
            && r.0 == p.(scale := After(s, n).scale, duration := After(s, n).duration)
            && r.1 == [Current(r.0)]
  {
    var stars := if n.pitch == Pause then [] else Stars(Presses(s.scale, n.scale));
    var presses := DurationKeys(s.duration, Value(n.duration));
    ReplayConcat(p, stars, presses + [Gap]);
    if n.pitch != Pause {
      ReplayStars(p, n.scale);
    }
    var p2 := Replay(p, stars).0;
    ReplayConcat(p2, presses, [Gap]);
    ReplayDuration(p2, Value(n.duration));
    var p3 := Replay(p2, presses).0;
    assert [Gap] == [Gap] + [];
    ReplayCons(p3, Gap, []);
  }

  lemma ReplayFront(p: Phone, n: Note)
    ensures var r := Replay(p, Front(n));
            && r.0 == p.(digit := DigitOf(n.pitch), sharp := IsSharp(n.pitch), longer := n.spec == Dotted)
            && r.1 == []
  {
    var longer := if n.spec == Dotted then [Longer] else [];
    var sharp := if IsSharp(n.pitch) then [Sharp] else [];
    ReplayCons(p, Digit(DigitOf(n.pitch)), longer + sharp);
    var p1 := p.(digit := DigitOf(n.pitch), sharp := false, longer := false);
    ReplayConcat(p1, longer, sharp);
    ReplayIf(p1, n.spec == Dotted, Longer);
    ReplayIf(p1.(longer := n.spec == Dotted), IsSharp(n.pitch), Sharp);
  }

  lemma NoteKeysSplit(s: Defaults, n: Note)
    requires Enterable(s, n)
    ensures NoteKeys(s, n) == Front(n) + Tuning(s, n)
  {
  }

  lemma ReplayNote(p: Phone, s: Defaults, n: Note)
    requires Enterable(s, n) && p.scale == s.scale && p.duration == s.duration
    ensures var r := Replay(p, NoteKeys(s, n));
            && r.1 == [Heard(n)]
            && r.0.scale == After(s, n).scale && r.0.duration == After(s, n).duration
  {
    NoteKeysSplit(s, n);
    ReplayConcat(p, Front(n), Tuning(s, n));
    ReplayFront(p, n);
    ReplayTuning(Replay(p, Front(n)).0, s, n);
  }

  function AllHeard(ns: seq<Note>): seq<Played> {
    seq(|ns|, i requires 0 <= i < |ns| => Heard(ns[i]))
  }

  /** Pressing the compiled keys enters one note for each note of the ringtone after the leading pauses. */
  lemma {:induction false} ReplayCompiled(p: Phone, s: Defaults, ns: seq<Note>)
    requires AllEnterable(s, ns) && p.scale == s.scale && p.duration == s.duration
    ensures Replay(p, Compile(s, ns)).1 == AllHeard(ns)
    decreases |ns|
  {
    if ns != [] {
      ReplayConcat(p, NoteKeys(s, ns[0]), Compile(After(s, ns[0]), ns[1..]));
      ReplayNote(p, s, ns[0]);
      ReplayCompiled(Replay(p, NoteKeys(s, ns[0])).0, After(s, ns[0]), ns[1..]);
      assert AllHeard(ns) == [Heard(ns[0])] + AllHeard(ns[1..]);
    }
  }

  /** The note as the ringtone means it. */
  function Intended(n: Note): Played {
    if n.pitch == Pause then Rest(n.spec, n.duration) else Sounded(n.pitch, n.spec, n.scale, n.duration)
  }

  function AllIntended(ns: seq<Note>): seq<Played> {
    seq(|ns|, i requires 0 <= i < |ns| => Intended(ns[i]))
  }

  predicate Expressible(n: Note) {
    n.pitch != INVALID && (n.spec == NoSpecial || n.spec == Dotted)
  }

  /** The entered melody is the ringtone's exactly when every note has a known pitch and a plain or dotted duration:
      double dots and two-thirds lengths are lost, and an unknown pitch becomes a rest. */
  lemma CompilePreservesMeaning(p: Phone, commands: seq<Command>)
    requires AllEnterable(INITIAL, Notes(commands)) && p.scale == 5 && DurationOf(p.duration) == Quarter
    ensures Replay(p, Compile(INITIAL, Notes(commands))).1 == AllIntended(Notes(commands))
        <==> forall i :: 0 <= i < |Notes(commands)| ==> Expressible(Notes(commands)[i])
  {
    var ns := Notes(commands);
    ReplayCompiled(p, INITIAL, ns);
    if AllHeard(ns) == AllIntended(ns) {
      forall i | 0 <= i < |ns|
        ensures Expressible(ns[i])
      {
        assert AllHeard(ns)[i] == AllIntended(ns)[i];
      }
    }
  }

  function Halve(v: nat, n: nat): nat {
    if n == 0 then v else Halve(v, n - 1) / 2
  }

  /** Some number of rounds takes each of a note's loops to its end: the scale after enough stars is the note's, the
      duration doubled or halved often enough is the note's. */
  ghost predicate LoopsEnd(s: Defaults, n: Note) {
    && (n.pitch != Pause ==> ScaleLoopEnds(s.scale, n.scale))
    && DurationLoopsEnd(s.duration, Value(n.duration))
  }

  ghost predicate DurationLoopsEnd(v: nat, w: nat) {
    && (w > v ==> exists k: nat :: Double(v, k) == w)
    && (w < v ==> exists k: nat :: Halve(v, k) == w)
  }

  /** The defaults before any note of a ringtone. */
  predicate Reachable(s: Defaults) {
    ComposerScale(s.scale) && (ComposerValue(s.duration) || s.duration == 0)
  }

  lemma {:induction false} DoubleReaches(v: nat, w: nat)
    requires ComposerValue(v) && ComposerValue(w) && v <= w
    ensures Double(v, Rung(w) - Rung(v)) == w
    decreases w - v
  {
    if v < w {
      DoubleReaches(v, w / 2);
    }
  }

  lemma {:induction false} HalveReaches(v: nat, w: nat)
    requires ComposerValue(v) && ComposerValue(w) && w <= v
    ensures Halve(v, Rung(v) - Rung(w)) == w
    decreases v - w
  {
    if w < v {
      HalveReaches(v, w * 2);
    }
  }

  lemma HalveReachesNothing(v: nat) returns (k: nat)
    requires ComposerValue(v)
    ensures Halve(v, k) == 0
  {
    k := Rung(v) + 3;
    HalveReaches(v, 4);
    assert Halve(v, k - 3) == 4 && Halve(v, k - 2) == 2 && Halve(v, k - 1) == 1;
  }

  lemma DurationLoopsEndIff(v: nat, w: nat)
    requires (ComposerValue(v) || v == 0) && (ComposerValue(w) || w == 0)
    ensures DurationLoopsEnd(v, w) <==> (v == 0 ==> w == 0)
  {
    if v == 0 {
      forall k: nat
        ensures Double(v, k) == 0
      {
        NothingDoubles(k);
      }
    } else if w == 0 {
      var k := HalveReachesNothing(v);
      assert Halve(v, k) == w;
    } else if w > v {
      DoubleReaches(v, w);
      var k: nat := Rung(w) - Rung(v);
      assert Double(v, k) == w;
    } else {
      HalveReaches(v, w);
      var k: nat := Rung(v) - Rung(w);
      assert Halve(v, k) == w;
    }
  }

  /** The loops of a note end exactly when its scale is the composer's and no duration follows none. */
  lemma LoopsEndIff(s: Defaults, n: Note)
    requires Reachable(s)
    ensures LoopsEnd(s, n) <==> Enterable(s, n)
  {
    ScaleReachable(s.scale, n.scale);
    DurationLoopsEndIff(s.duration, Value(n.duration));
  }

  /** The loops of all notes end, each started with what the notes before it leave behind. */
  ghost predicate AllLoopsEnd(s: Defaults, ns: seq<Note>)
    decreases |ns|
  {
    ns == [] || (LoopsEnd(s, ns[0]) && AllLoopsEnd(After(s, ns[0]), ns[1..]))
  }

  lemma {:induction false} AllLoopsEndEnterable(s: Defaults, ns: seq<Note>)
    requires Reachable(s)
    ensures AllLoopsEnd(s, ns) <==> AllEnterable(s, ns)
    decreases |ns|
  {
    if ns != [] {
      LoopsEndIff(s, ns[0]);
      if Enterable(s, ns[0]) {
        AllLoopsEndEnterable(After(s, ns[0]), ns[1..]);
      }
    }
  }

  /** All loops for a ringtone end if and only if every scale after the leading pauses is one of the composer's and
      no note with a duration follows one without. */
  lemma AllLoopsEndIff(commands: seq<Command>)
    ensures var ns := Notes(commands);
            AllLoopsEnd(INITIAL, ns) <==>
            && (forall i :: 0 <= i < |ns| && ns[i].pitch != Pause ==> 880 <= Hertz(ns[i].scale) <= 3520)
            && (forall i, j :: 0 <= i < j < |ns| && ns[i].duration == NoDuration ==> ns[j].duration == NoDuration)
  {
    forall i | 0 <= i < |Notes(commands)|
      ensures ComposerScale(Notes(commands)[i].scale) <==> 880 <= Hertz(Notes(commands)[i].scale) <= 3520
    {
      ScaleFrequencies(Notes(commands)[i].scale);
    }
    AllLoopsEndEnterable(INITIAL, Notes(commands));
    EnterableIff(INITIAL, Notes(commands));
  }

  /** The same for the precondition of the compiler. */
  lemma {:induction false} EnterableIff(s: Defaults, ns: seq<Note>)
    requires ComposerScale(s.scale) && ComposerValue(s.duration)
    ensures AllEnterable(s, ns) <==>
            && (forall i :: 0 <= i < |ns| && ns[i].pitch != Pause ==> ComposerScale(ns[i].scale))
            && (forall i, j :: 0 <= i < j < |ns| && ns[i].duration == NoDuration ==> ns[j].duration == NoDuration)
    decreases |ns|
  {
    if ns != [] {
      var n, rest := ns[0], ns[1..];
      assert forall i :: 0 < i < |ns| ==> ns[i] == rest[i - 1];
      assert forall i :: 0 <= i < |rest| ==> rest[i] == ns[i + 1];
      if n.pitch != Pause && !ComposerScale(n.scale) {
      } else if n.duration != NoDuration {
        EnterableIff(After(s, n), rest);
      } else {
        SilentIff(After(s, n), rest);
        EnterableFrom(ns);
      }
    }
  }

  lemma EnterableFrom(ns: seq<Note>)
    requires ns != [] && ns[0].duration == NoDuration
    ensures (forall i, j :: 0 <= i < j < |ns| && ns[i].duration == NoDuration ==> ns[j].duration == NoDuration)
        <==> forall j :: 0 <= j < |ns| ==> ns[j].duration == NoDuration
  {
  }

  lemma {:induction false} SilentIff(s: Defaults, ns: seq<Note>)
    requires ComposerScale(s.scale) && s.duration == 0
    ensures AllEnterable(s, ns) <==>
            && (forall i :: 0 <= i < |ns| && ns[i].pitch != Pause ==> ComposerScale(ns[i].scale))
            && (forall i :: 0 <= i < |ns| ==> ns[i].duration == NoDuration)
    decreases |ns|
  {
    if ns != [] {
      var n, rest := ns[0], ns[1..];
      assert forall i :: 0 < i < |ns| ==> ns[i] == rest[i - 1];
      assert forall i :: 0 <= i < |rest| ==> rest[i] == ns[i + 1];
      if Enterable(s, n) {
        SilentIff(After(s, n), rest);
      }
    }
  }
}
