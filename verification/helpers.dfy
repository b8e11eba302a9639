/** The display and keyboard helpers of the application: capitalisation,
    the on-screen keyboard builder, chord comparison, key-signature text,
    note colours, note formatting and the octave of a MIDI note number. */
module Helpers {
  import opened Wrappers
  import opened Decimal
  import Sorting
  import Pitch

  // ---------------------------------------------------------------------
  // Keyboard builder
  // ---------------------------------------------------------------------

  /** Whole and half steps of a major scale from C. */
  const DiatonicScale: seq<int> := [2, 2, 1, 2, 2, 2, 1]

  const DefaultOctaveCount := 7
  /** Key number 24 is C1. */
  const DefaultInitialKey := 24

  /** One emitted key: its number (the `data-keyno` attribute) and whether
      it carries the `black` modifier. */
  datatype KeyDescriptor = KeyDescriptor(keyNo: int, isBlack: bool)

  /** The white (false) / black (true) pattern a run of scale steps draws:
      a whole step is a white key then a black key, any other step a white key. */
  function StepPattern(steps: seq<int>): seq<bool>
    decreases |steps|
  {
    if steps == [] then []
    else (if steps[0] == 2 then [false, true] else [false]) + StepPattern(steps[1..])
  }

  /** The keys `steps.forEach` emits from key number `key` on; the counter
      advances once per emitted key. */
  function ScaleKeys(steps: seq<int>, key: int): (r: seq<KeyDescriptor>)
    ensures |r| == |StepPattern(steps)|
    ensures forall m :: 0 <= m < |r| ==> r[m].keyNo == key + m
    ensures forall m :: 0 <= m < |r| ==> r[m].isBlack == StepPattern(steps)[m]
    decreases |steps|
  {
    if steps == [] then []
    else
      var first :=
        if steps[0] == 2 then [KeyDescriptor(key, false), KeyDescriptor(key + 1, true)]
        else [KeyDescriptor(key, false)];
      first + ScaleKeys(steps[1..], key + |first|)
  }

  /** Whatever the steps, a step pattern starts on a white key and each black
      key in it comes right after a white one. */
  lemma {:induction false} StepPatternAlternates(steps: seq<int>)
    ensures var p := StepPattern(steps);
      (|p| > 0 ==> !p[0]) && forall m :: 0 < m < |p| && p[m] ==> !p[m - 1]
    decreases |steps|
  {
    if steps != [] {
      StepPatternAlternates(steps[1..]);
    }
  }

  /** One pass over the diatonic steps emits exactly the twelve keys of an
      octave, black at semitones 1, 3, 6, 8 and 10. */
  lemma DiatonicOctave(key: int)
    ensures var r := ScaleKeys(DiatonicScale, key);
      |r| == 12 && forall m :: 0 <= m < 12 ==> r[m] == KeyDescriptor(key + m, Pitch.IsBlackOffset(m))
  {
    var r := ScaleKeys(DiatonicScale, key);
    DiatonicPattern();
    forall m | 0 <= m < 12
      ensures r[m] == KeyDescriptor(key + m, Pitch.IsBlackOffset(m))
    {
      assert r[m].keyNo == key + m;
      assert r[m].isBlack == StepPattern(DiatonicScale)[m];
    }
  }

  lemma DiatonicPattern()
    ensures forall m :: 0 <= m < 12 ==> StepPattern(DiatonicScale)[m] == Pitch.IsBlackOffset(m)
    ensures |StepPattern(DiatonicScale)| == 12
  {
    assert StepPattern(DiatonicScale)
      == [false, true, false, true, false, false, true, false, true, false, true, false];
  }

  /** Keys numbered from `key`, black exactly at semitones 1, 3, 6, 8, 10 of each octave. */
  predicate OctavesFrom(r: seq<KeyDescriptor>, key: int) {
    forall m :: 0 <= m < |r| ==> r[m] == KeyDescriptor(key + m, Pitch.IsBlackOffset(m % 12))
  }

  /** An octave from `key` followed by octaves from `key + 12` is octaves from `key`. */
  lemma OctavesAppend(octave: seq<KeyDescriptor>, rest: seq<KeyDescriptor>, key: int)
    requires |octave| == 12
    requires forall m :: 0 <= m < 12 ==> octave[m] == KeyDescriptor(key + m, Pitch.IsBlackOffset(m))
    requires OctavesFrom(rest, key + 12)
    ensures OctavesFrom(octave + rest, key)
  {
    var r := octave + rest;
    forall m | 0 <= m < |r|
      ensures r[m] == KeyDescriptor(key + m, Pitch.IsBlackOffset(m % 12))
    {
      if m < 12 {
        assert r[m] == octave[m];
      } else {
        assert r[m] == rest[m - 12];
        assert (m - 12) % 12 == m % 12;
      }
    }
  }

  /** The outer `for (let i = 0; i < octaveCount; i++)` loop from iteration `i` on. */
  function OctaveLoop(i: int, octaveCount: int, key: int): (r: seq<KeyDescriptor>)
    ensures |r| == if i < octaveCount then 12 * (octaveCount - i) else 0
    ensures OctavesFrom(r, key)
    decreases octaveCount - i
  {
    if i < octaveCount then
      var octave := ScaleKeys(DiatonicScale, key);
      DiatonicOctave(key);
      var rest := OctaveLoop(i + 1, octaveCount, key + |octave|);
      OctavesAppend(octave, rest, key);
      octave + rest
    else []
  }

  /** `buildKeyboard(container, octaveCount, initialKey)`, as the sequence of
      keys it writes into the container, in order. */
  function BuildKeyboard(octaveCount: int, initialKey: int): (r: seq<KeyDescriptor>)
    ensures |r| == if octaveCount > 0 then 12 * octaveCount else 0
    ensures forall m :: 0 <= m < |r| ==> r[m] == KeyDescriptor(initialKey + m, Pitch.IsBlackOffset(m % 12))
  {
    OctaveLoop(0, octaveCount, initialKey)
  }

  /** The keyboard numbers its keys consecutively from `initialKey`, so the
      last key is `initialKey + 12 * octaveCount - 1`. */
  lemma LastKeyNumber(octaveCount: int, initialKey: int)
    requires octaveCount > 0
    ensures var r := BuildKeyboard(octaveCount, initialKey);
      r[|r| - 1].keyNo == initialKey + 12 * octaveCount - 1
  {
  }

  lemma BlackNeighbours(m: int)
    requires 0 <= m && Pitch.IsBlackOffset(m % 12)
    ensures 0 < m && !Pitch.IsBlackOffset((m - 1) % 12) && !Pitch.IsBlackOffset((m + 1) % 12)
  {
    var q := m / 12;
    assert m == 12 * q + m % 12;
    assert (m - 1) % 12 == m % 12 - 1 by {
      assert m - 1 == 12 * q + (m % 12 - 1);
    }
    assert (m + 1) % 12 == m % 12 + 1 by {
      assert m + 1 == 12 * q + (m % 12 + 1);
    }
  }

  /** Every black key directly follows a white key and is directly followed
      by a white key (or ends the keyboard): no two black keys are adjacent. */
  lemma BlackKeysIsolated(octaveCount: int, initialKey: int)
    ensures var r := BuildKeyboard(octaveCount, initialKey);
      forall m :: 0 <= m < |r| && r[m].isBlack ==>
        0 < m && !r[m - 1].isBlack && (m + 1 < |r| ==> !r[m + 1].isBlack)
  {
    var r := BuildKeyboard(octaveCount, initialKey);
    forall m | 0 <= m < |r| && r[m].isBlack
      ensures 0 < m && !r[m - 1].isBlack && (m + 1 < |r| ==> !r[m + 1].isBlack)
    {
      BlackNeighbours(m);
    }
  }

  // ---------------------------------------------------------------------
  // Key markup
  // ---------------------------------------------------------------------

  const MarkupHead := "<div class=\"key "
  const NumberHead := "\" data-keyno=\""
  const MarkupTail := "\"></div>"

  /** `keyMarkup(keyNumber, modifier)`: the `div` drawn for one key. The
      class attribute keeps its trailing space when the modifier is empty. */
  function KeyMarkup(keyNumber: int, modifier: string): string {
    MarkupHead + modifier + NumberHead + IntToString(keyNumber) + MarkupTail
  }

  /** The markup `buildKeyboard` appends for one key: modifier `black` on
      black keys, the default empty modifier on white keys. */
  function DescriptorMarkup(k: KeyDescriptor): string {
    KeyMarkup(k.keyNo, if k.isBlack then "black" else "")
  }

  /** The container's content after the keys are appended one by one. */
  function RenderKeys(keys: seq<KeyDescriptor>): string
    decreases |keys|
  {
    if keys == [] then "" else DescriptorMarkup(keys[0]) + RenderKeys(keys[1..])
  }

  /** The markup `buildKeyboard(container, octaveCount, initialKey)` leaves
      in the container. */
  function RenderKeyboard(octaveCount: int, initialKey: int): string {
    RenderKeys(BuildKeyboard(octaveCount, initialKey))
  }

  /** The container's markup reads back as exactly the keyboard the builder
      walked: consecutive numbers from `initialKey`, black at the reference
      semitones, twelve per octave. */
  lemma RenderKeyboardRoundTrip(octaveCount: int, initialKey: int)
    ensures ParseKeys(RenderKeyboard(octaveCount, initialKey)) == Some(BuildKeyboard(octaveCount, initialKey))
  {
    RenderKeysRoundTrip(BuildKeyboard(octaveCount, initialKey));
  }

  predicate IsNumeralChar(c: char) {
    c == '-' || IsDigit(c)
  }

  /** The length of the longest prefix of `s` made of numeral characters. */
  function NumeralLength(s: string): (n: nat)
    ensures n <= |s|
    ensures forall i :: 0 <= i < n ==> IsNumeralChar(s[i])
    ensures n < |s| ==> !IsNumeralChar(s[n])
    decreases |s|
  {
    if s != [] && IsNumeralChar(s[0]) then 1 + NumeralLength(s[1..]) else 0
  }

  /** Reads one key's markup off the front of `s`: the key and the rest of `s`. */
  function ParseKeyMarkup(s: string): (r: Option<(KeyDescriptor, string)>)
    ensures r.Some? ==> |r.value.1| < |s|
  {
    if !(MarkupHead <= s) then None
    else
      var t := s[|MarkupHead|..];
      if "black" + NumberHead <= t then ParseKeyNumber(true, t[|"black" + NumberHead|..])
      else if NumberHead <= t then ParseKeyNumber(false, t[|NumberHead|..])
      else None
  }

  /** Reads the key number and the closing markup off the front of `u`. */
  function ParseKeyNumber(black: bool, u: string): (r: Option<(KeyDescriptor, string)>)
    ensures r.Some? ==> |r.value.1| < |u|
  {
    var n := NumeralLength(u);
    match ParseInt(u[..n])
    case None => None
    case Some(keyNo) =>
      if MarkupTail <= u[n..] then Some((KeyDescriptor(keyNo, black), u[n + |MarkupTail|..]))
      else None
  }

  /** Reads a whole container's markup back into the keys it shows. */
  function ParseKeys(s: string): Option<seq<KeyDescriptor>>
    decreases |s|
  {
    if s == [] then Some([])
    else
      match ParseKeyMarkup(s)
      case None => None
      case Some((k, rest)) =>
        match ParseKeys(rest)
        case None => None
        case Some(ks) => Some([k] + ks)
  }

  lemma {:induction false} NumeralLengthOfNumeral(num: string, rest: string)
    requires forall i :: 0 <= i < |num| ==> IsNumeralChar(num[i])
    requires rest != [] && !IsNumeralChar(rest[0])
    ensures NumeralLength(num + rest) == |num|
    decreases |num|
  {
    if num != [] {
      assert (num + rest)[1..] == num[1..] + rest;
      NumeralLengthOfNumeral(num[1..], rest);
    }
  }

  lemma ParseKeyNumberRoundTrip(black: bool, keyNo: int, rest: string)
    ensures ParseKeyNumber(black, IntToString(keyNo) + MarkupTail + rest) == Some((KeyDescriptor(keyNo, black), rest))
  {
    var num := IntToString(keyNo);
    var tail := MarkupTail + rest;
    var u := num + tail;
    assert IntToString(keyNo) + MarkupTail + rest == u;
    assert tail[0] == '"';
    NumeralLengthOfNumeral(num, tail);
    assert u[..|num|] == num;
    IntToStringRoundTrip(keyNo);
    assert u[|num|..] == tail;
    assert tail[|MarkupTail|..] == rest;
  }

  /** After the opening markup and modifier, parsing continues at the key number. */
  lemma ParseKeyMarkupHead(black: bool, u: string)
    ensures ParseKeyMarkup(MarkupHead + (if black then "black" else "") + NumberHead + u)
      == ParseKeyNumber(black, u)
  {
    var s := MarkupHead + (if black then "black" else "") + NumberHead + u;
    var t := s[|MarkupHead|..];
    if black {
      assert t == ("black" + NumberHead) + u;
      assert t[|"black" + NumberHead|..] == u;
    } else {
      assert t == NumberHead + u;
      assert t[0] == '"' && ("black" + NumberHead)[0] == 'b';
      assert t[|NumberHead|..] == u;
    }
  }

  /** One key's markup reads back as that key, leaving what follows it. */
  lemma ParseKeyMarkupRoundTrip(k: KeyDescriptor, rest: string)
    ensures ParseKeyMarkup(DescriptorMarkup(k) + rest) == Some((k, rest))
  {
    var modifier := if k.isBlack then "black" else "";
    var u := IntToString(k.keyNo) + MarkupTail + rest;
    assert DescriptorMarkup(k) + rest == MarkupHead + modifier + NumberHead + u;
    ParseKeyMarkupHead(k.isBlack, u);
    ParseKeyNumberRoundTrip(k.isBlack, k.keyNo, rest);
  }

  /** The rendered markup reads back as exactly the keys that were rendered:
      the markup carries each key's number and colour and nothing else. */
  lemma {:induction false} RenderKeysRoundTrip(keys: seq<KeyDescriptor>)
    ensures ParseKeys(RenderKeys(keys)) == Some(keys)
    decreases |keys|
  {
    if keys != [] {
      var rest := RenderKeys(keys[1..]);
      ParseKeyMarkupRoundTrip(keys[0], rest);
      RenderKeysRoundTrip(keys[1..]);
      assert keys == [keys[0]] + keys[1..];
    }
  }

  // ---------------------------------------------------------------------
  // Chord comparison
  // ---------------------------------------------------------------------

  /** `chordsEqual(a, b)`: compares the sorted copies of two chord lists
      position by position, after a length check. Two lists are equal in
      this sense exactly when they hold the same chords the same number of
      times, in any order. */
  method ChordsEqual(a: seq<string>, b: seq<string>) returns (equal: bool)
    ensures equal <==> multiset(a) == multiset(b)
  {
    if |a| != |b| {
      assert |multiset(a)| != |multiset(b)|;
      return false;
    }
    var sortedA := Sorting.Sort(a);
    var sortedB := Sorting.Sort(b);
    Sorting.SortCanonical(a, b);
    equal := SequencesEqual(sortedA, sortedB);
  }

  /** The element-by-element comparison loop: it stops at the first
      position where the sequences differ. */
  method SequencesEqual(x: seq<string>, y: seq<string>) returns (equal: bool)
    ensures equal <==> x == y
  {
    if |x| != |y| {
      return false;
    }
    var i := 0;
    while i < |x|
      invariant 0 <= i <= |x| == |y|
      invariant forall k :: 0 <= k < i ==> x[k] == y[k]
    {
      if x[i] != y[i] {
        return false;
      }
      i := i + 1;
    }
    assert x == y;
    return true;
  }

  // ---------------------------------------------------------------------
  // Accidental text
  // ---------------------------------------------------------------------

  function Plural(count: int): string {
    if count > 1 then "s" else ""
  }

  /** "(n noun)" or "(n nouns)". */
  function CountText(count: int, noun: string): string {
    "(" + IntToString(count) + " " + noun + Plural(count) + ")"
  }

  /** `renderAccidentalText({sharps, flats})`: a positive sharp count wins
      over the flat count; the noun is plural exactly when the shown count
      exceeds one; no positive count gives the empty string. */
  function RenderAccidentalText(sharps: int, flats: int): (r: string)
    ensures r == "" <==> sharps <= 0 && flats <= 0
    ensures r != "" ==> r[0] == '(' && r[|r| - 1] == ')'
    ensures r != "" ==> (r[|r| - 2] == 's' <==> (if sharps > 0 then sharps else flats) > 1)
  {
    if sharps > 0 then CountText(sharps, "sharp")
    else if flats > 0 then CountText(flats, "flat")
    else ""
  }

  /** What an accidental text announces. */
  datatype AccidentalCount = SharpCount(count: nat) | FlatCount(count: nat)

  function StripSuffix(s: string, suffix: string): (r: Option<string>)
    ensures r.Some? ==> s == r.value + suffix
  {
    if |suffix| <= |s| && s[|s| - |suffix|..] == suffix then
      assert s == s[..|s| - |suffix|] + s[|s| - |suffix|..];
      Some(s[..|s| - |suffix|])
    else None
  }

  /** Reads "n nouns" with n > 1, or "1 noun". */
  function ParseCount(body: string, noun: string): Option<nat> {
    match StripSuffix(body, " " + noun + "s")
    case Some(numeral) =>
      (match ParseNat(numeral)
       case Some(n) => if n > 1 then Some(n) else None
       case None => None)
    case None =>
      match StripSuffix(body, " " + noun)
      case Some(numeral) => if numeral == "1" then Some(1) else None
      case None => None
  }

  /** Reads an accidental text back; None for the empty text and for any
      text `RenderAccidentalText` does not produce. */
  function ParseAccidentalText(s: string): Option<AccidentalCount> {
    if |s| < 2 || s[0] != '(' || s[|s| - 1] != ')' then None
    else
      var body := s[1..|s| - 1];
      match ParseCount(body, "sharp")
      case Some(n) => Some(SharpCount(n))
      case None =>
        match ParseCount(body, "flat")
        case Some(n) => Some(FlatCount(n))
        case None => None
  }

  lemma ParseCountOfText(n: nat, noun: string, other: string)
    requires n > 0
    requires noun == "sharp" || noun == "flat"
    requires other == "sharp" || other == "flat"
    ensures var body := IntToString(n) + " " + noun + Plural(n);
      ParseCount(body, other) == if noun == other then Some(n) else None
  {
    if noun == other {
      ParseCountSameNoun(n, noun);
    } else {
      ParseCountOtherNoun(n, noun, other);
    }
  }

  /** "n nouns" and "1 noun" read back as their count. */
  lemma ParseCountSameNoun(n: nat, noun: string)
    requires n > 0
    requires noun == "sharp" || noun == "flat"
    ensures ParseCount(IntToString(n) + " " + noun + Plural(n), noun) == Some(n)
  {
    var numeral := IntToString(n);
    var body := numeral + " " + noun + Plural(n);
    assert numeral == NatToString(n);
    NatToStringRoundTrip(n);
    var pl := " " + noun + "s";
    var sg := " " + noun;
    if n > 1 {
      assert body == numeral + pl;
      assert StripSuffix(body, pl) == Some(numeral);
    } else {
      assert numeral == "1";
      assert body == numeral + sg;
      assert body == "1 " + noun;
      assert body[0] != pl[0];
      assert StripSuffix(body, pl) == None by {
        if |pl| <= |body| {
          assert body[|body| - |pl|..] == body;
        }
      }
      assert StripSuffix(body, sg) == Some(numeral);
    }
  }

  /** A count of sharps does not read as a count of flats, nor the reverse:
      the last four letters of the noun tell them apart. */
  lemma ParseCountOtherNoun(n: nat, noun: string, other: string)
    requires n > 0
    requires noun == "sharp" || noun == "flat"
    requires other == "sharp" || other == "flat"
    requires noun != other
    ensures ParseCount(IntToString(n) + " " + noun + Plural(n), other) == None
  {
    var body := IntToString(n) + " " + noun + Plural(n);
    var pl := " " + other + "s";
    var sg := " " + other;
    assert StripSuffix(body, pl) == None by {
      if |pl| <= |body| {
        var k := |body| - |pl|;
        assert body[k..] != pl by {
          assert body[k..][|pl| - 1] == body[|body| - 1];
          assert body[k..][|pl| - 2] == body[|body| - 2];
          assert body[k..][|pl| - 3] == body[|body| - 3];
          assert body[k..][|pl| - 4] == body[|body| - 4];
        }
      }
    }
    assert StripSuffix(body, sg) == None by {
      if |sg| <= |body| {
        var k := |body| - |sg|;
        assert body[k..] != sg by {
          assert body[k..][|sg| - 1] == body[|body| - 1];
          assert body[k..][|sg| - 2] == body[|body| - 2];
          assert body[k..][|sg| - 3] == body[|body| - 3];
          assert body[k..][|sg| - 4] == body[|body| - 4];
        }
      }
    }
  }

  /** The text announces the count the source chose to show, of the right kind. */
  lemma AccidentalTextRoundTrip(sharps: int, flats: int)
    ensures ParseAccidentalText(RenderAccidentalText(sharps, flats))
      == if sharps > 0 then Some(SharpCount(sharps))
         else if flats > 0 then Some(FlatCount(flats))
         else None
  {
    var s := RenderAccidentalText(sharps, flats);
    if sharps > 0 {
      assert s[1..|s| - 1] == IntToString(sharps) + " " + "sharp" + Plural(sharps);
      ParseCountOfText(sharps, "sharp", "sharp");
    } else if flats > 0 {
      assert s[1..|s| - 1] == IntToString(flats) + " " + "flat" + Plural(flats);
      ParseCountOfText(flats, "flat", "sharp");
      ParseCountOfText(flats, "flat", "flat");
    }
  }

  /** Any text the parser accepts is exactly the text rendered for its count. */
  lemma AccidentalTextCanonical(s: string)
    requires ParseAccidentalText(s).Some?
    ensures match ParseAccidentalText(s).value
      case SharpCount(n) => RenderAccidentalText(n, 0) == s
      case FlatCount(n) => RenderAccidentalText(0, n) == s
  {
    var body := s[1..|s| - 1];
    assert s == "(" + body + ")";
    if ParseCount(body, "sharp").Some? {
      CountTextCanonical(body, "sharp");
    } else {
      CountTextCanonical(body, "flat");
    }
  }

  lemma CountTextCanonical(body: string, noun: string)
    requires ParseCount(body, noun).Some?
    ensures var n := ParseCount(body, noun).value;
      n > 0 && CountText(n, noun) == "(" + body + ")"
  {
    ParseCountCanonical(body, noun);
  }

  lemma ParseCountCanonical(body: string, noun: string)
    requires ParseCount(body, noun).Some?
    ensures var n := ParseCount(body, noun).value;
      n > 0 && body == IntToString(n) + " " + noun + Plural(n)
  {
    var n := ParseCount(body, noun).value;
    match StripSuffix(body, " " + noun + "s")
    case Some(numeral) =>
      ValueNatToString(numeral);
      assert body == IntToString(n) + " " + noun + Plural(n);
    case None =>
      assert body == IntToString(n) + " " + noun + Plural(n);
  }

  // ---------------------------------------------------------------------
  // Note colours
  // ---------------------------------------------------------------------

  const DefaultNoteColor := "bg-gray-500"

  const NoteColors: map<string, string> := map[
    "C" := "bg-red-500",
    "C#" := "bg-red-600",
    "D" := "bg-orange-500",
    "D#" := "bg-orange-600",
    "E" := "bg-yellow-500",
    "F" := "bg-green-500",
    "F#" := "bg-green-600",
    "G" := "bg-blue-500",
    "G#" := "bg-blue-600",
    "A" := "bg-indigo-500",
    "A#" := "bg-indigo-600",
    "B" := "bg-purple-500"
  ]

  /** `getNoteColor(noteName)`: the colour class of a pitch-class name. A
      missing or empty entry falls back to the grey default, which is what
      JavaScript's `||` does. Total: the grey default marks exactly the
      strings that are not one of the twelve sharp-spelled pitch classes. */
  function GetNoteColor(noteName: string): (r: string)
    ensures r != DefaultNoteColor <==> noteName in Pitch.PitchClassNames
  {
    if noteName in NoteColors && NoteColors[noteName] != "" then NoteColors[noteName]
    else DefaultNoteColor
  }

  /** Rainbow hues for the seven letters C to B. */
  const Hues: seq<string> := ["red", "orange", "yellow", "green", "blue", "indigo", "purple"]

  function ColorClass(hue: string, shade: string): string {
    "bg-" + hue + "-" + shade
  }

  /** The colour of pitch class `j`: its letter's hue, at shade 500 on the
      white key and the darker shade 600 on its sharp. */
  predicate ColorOfPitchClass(j: int)
    requires 0 <= j < 12
  {
    GetNoteColor(Pitch.PitchClassNames[j])
      == ColorClass(Hues[Pitch.LetterIndex(j)], if Pitch.IsBlackOffset(j) then "600" else "500")
  }

  /** The colours of C, C# and D. */
  lemma ColorsCToD()
    ensures forall j :: 0 <= j < 3 ==> ColorOfPitchClass(j)
  {
    forall j | 0 <= j < 3
      ensures ColorOfPitchClass(j)
    {
      if j == 0 {
        assert ColorClass(Hues[0], "500") == "bg-red-500";
      } else if j == 1 {
        assert ColorClass(Hues[0], "600") == "bg-red-600";
      } else {
        assert ColorClass(Hues[1], "500") == "bg-orange-500";
      }
    }
  }

  /** The colours of D#, E and F. */
  lemma ColorsDSharpToF()
    ensures forall j :: 3 <= j < 6 ==> ColorOfPitchClass(j)
  {
    forall j | 3 <= j < 6
      ensures ColorOfPitchClass(j)
    {
      if j == 3 {
        assert ColorClass(Hues[1], "600") == "bg-orange-600";
      } else if j == 4 {
        assert ColorClass(Hues[2], "500") == "bg-yellow-500";
      } else {
        assert ColorClass(Hues[3], "500") == "bg-green-500";
      }
    }
  }

  /** The colours of F#, G and G#. */
  lemma ColorsFSharpToGSharp()
    ensures forall j :: 6 <= j < 9 ==> ColorOfPitchClass(j)
  {
    forall j | 6 <= j < 9
      ensures ColorOfPitchClass(j)
    {
      if j == 6 {
        assert ColorClass(Hues[3], "600") == "bg-green-600";
      } else if j == 7 {
        assert ColorClass(Hues[4], "500") == "bg-blue-500";
      } else {
        assert ColorClass(Hues[4], "600") == "bg-blue-600";
      }
    }
  }

  /** The colours of A, A# and B. */
  lemma ColorsAToB()
    ensures forall j :: 9 <= j < 12 ==> ColorOfPitchClass(j)
  {
    forall j | 9 <= j < 12
      ensures ColorOfPitchClass(j)
    {
      if j == 9 {
        assert ColorClass(Hues[5], "500") == "bg-indigo-500";
      } else if j == 10 {
        assert ColorClass(Hues[5], "600") == "bg-indigo-600";
      } else {
        assert ColorClass(Hues[6], "500") == "bg-purple-500";
      }
    }
  }

  /** Colour follows position in the octave: each letter has its own hue, at
      shade 500 on the white key and the darker shade 600 on its sharp. */
  lemma NoteColorByPitchClass()
    ensures forall j :: 0 <= j < 12 ==>
      GetNoteColor(Pitch.PitchClassNames[j])
        == ColorClass(Hues[Pitch.LetterIndex(j)], if Pitch.IsBlackOffset(j) then "600" else "500")
  {
    ColorsCToD();
    ColorsDSharpToF();
    ColorsFSharpToGSharp();
    ColorsAToB();
    forall j | 0 <= j < 12
      ensures GetNoteColor(Pitch.PitchClassNames[j])
        == ColorClass(Hues[Pitch.LetterIndex(j)], if Pitch.IsBlackOffset(j) then "600" else "500")
    {
      assert ColorOfPitchClass(j);
    }
  }

  lemma ColorClassInjective(h1: string, s1: string, h2: string, s2: string)
    requires |s1| == 3 && |s2| == 3
    requires ColorClass(h1, s1) == ColorClass(h2, s2)
    ensures h1 == h2 && s1 == s2
  {
    var c := ColorClass(h1, s1);
    assert |h1| == |h2|;
    assert h1 == c[3..3 + |h1|];
    assert h2 == c[3..3 + |h2|];
    assert s1 == c[|c| - 3..];
    assert s2 == c[|c| - 3..];
  }

  /** The seven hues are distinct; their first letters already differ. */
  lemma HuesDistinct()
    ensures forall a, b :: 0 <= a < 7 && 0 <= b < 7 && Hues[a] == Hues[b] ==> a == b
  {
    forall a, b | 0 <= a < 7 && 0 <= b < 7 && Hues[a] == Hues[b]
      ensures a == b
    {
      assert Hues[a][0] == Hues[b][0];
    }
  }

  /** Distinct pitch classes get distinct colours. */
  lemma NoteColorInjective()
    ensures forall i, j :: 0 <= i < 12 && 0 <= j < 12 && i != j ==>
      GetNoteColor(Pitch.PitchClassNames[i]) != GetNoteColor(Pitch.PitchClassNames[j])
  {
    NoteColorByPitchClass();
    HuesDistinct();
    Pitch.SemitoneOfLetter();
    forall i, j | 0 <= i < 12 && 0 <= j < 12 && i != j
      ensures GetNoteColor(Pitch.PitchClassNames[i]) != GetNoteColor(Pitch.PitchClassNames[j])
    {
      var si := if Pitch.IsBlackOffset(i) then "600" else "500";
      var sj := if Pitch.IsBlackOffset(j) then "600" else "500";
      if GetNoteColor(Pitch.PitchClassNames[i]) == GetNoteColor(Pitch.PitchClassNames[j]) {
        ColorClassInjective(Hues[Pitch.LetterIndex(i)], si, Hues[Pitch.LetterIndex(j)], sj);
        assert false;
      }
    }
  }

  // ---------------------------------------------------------------------
  // Note formatting
  // ---------------------------------------------------------------------

  /** A note as the display code passes it around; `accidental` is optional. */
  datatype NoteInfo = NoteInfo(name: string, accidental: Option<string>, octave: int)

  /** `${name}${accidental || ''}${octave}`. */
  function FormatNote(note: NoteInfo): string {
    note.name + note.accidental.GetOr("") + IntToString(note.octave)
  }

  /** `formatNotes(notes)`: one formatted string per note, in order. Notes
      named by a letter with no accidental, "#" or "b" read back from their
      text, so the text loses nothing but the difference between a missing
      and an empty accidental. */
  function FormatNotes(notes: seq<NoteInfo>): (r: seq<string>)
    ensures |r| == |notes|
    ensures forall i :: 0 <= i < |notes| ==> r[i] == FormatNote(notes[i])
    ensures forall i :: 0 <= i < |notes| && WellFormedNote(notes[i]) ==>
      ParseNote(r[i]) == Some(CanonicalNote(notes[i]))
    decreases |notes|
  {
    if notes == [] then []
    else
      FormatNoteRoundTrip(notes[0]);
      [FormatNote(notes[0])] + FormatNotes(notes[1..])
  }

  /** A letter name with no, an empty, a sharp or a flat accidental. */
  predicate WellFormedNote(note: NoteInfo) {
    note.name in Pitch.Letters && note.accidental in {None, Some(""), Some("#"), Some("b")}
  }

  /** An empty accidental reads the same as a missing one. */
  function CanonicalNote(note: NoteInfo): NoteInfo {
    if note.accidental == Some("") then note.(accidental := None) else note
  }

  /** Reads a formatted note: a letter, an optional '#' or 'b', an integer octave. */
  function ParseNote(s: string): Option<NoteInfo> {
    if |s| < 2 || [s[0]] !in Pitch.Letters then None
    else if s[1] == '#' || s[1] == 'b' then
      match ParseInt(s[2..])
      case Some(octave) => Some(NoteInfo([s[0]], Some([s[1]]), octave))
      case None => None
    else
      match ParseInt(s[1..])
      case Some(octave) => Some(NoteInfo([s[0]], None, octave))
      case None => None
  }

  lemma FormatNoteRoundTrip(note: NoteInfo)
    ensures WellFormedNote(note) ==> ParseNote(FormatNote(note)) == Some(CanonicalNote(note))
  {
    if WellFormedNote(note) {
      var s := FormatNote(note);
      var acc := note.accidental.GetOr("");
      var num := IntToString(note.octave);
      assert |note.name| == 1;
      assert s == note.name + acc + num;
      IntToStringRoundTrip(note.octave);
      if acc == "" {
        assert s[1..] == num;
        assert s[1] == num[0];
      } else {
        assert s[1] == acc[0];
        assert s[2..] == num;
      }
    }
  }

  /** Any text `ParseNote` accepts is the formatting of the note it reads. */
  lemma ParseNoteCanonical(s: string)
    requires ParseNote(s).Some?
    ensures FormatNote(ParseNote(s).value) == s
  {
    if s[1] == '#' || s[1] == 'b' {
      FormatAccidentalNote(s[0], s[1], s[2..]);
      assert s == [s[0]] + [s[1]] + s[2..];
    } else {
      FormatPlainNote(s[0], s[1..]);
      assert s == [s[0]] + s[1..];
    }
  }

  lemma FormatAccidentalNote(letter: char, accidental: char, rest: string)
    requires ParseInt(rest).Some?
    ensures FormatNote(NoteInfo([letter], Some([accidental]), ParseInt(rest).value)) == [letter] + [accidental] + rest
  {
    ParseIntRoundTrip(rest);
  }

  lemma FormatPlainNote(letter: char, rest: string)
    requires ParseInt(rest).Some?
    ensures FormatNote(NoteInfo([letter], None, ParseInt(rest).value)) == [letter] + rest
  {
    ParseIntRoundTrip(rest);
  }

  // ---------------------------------------------------------------------
  // Octave of a MIDI note number
  // ---------------------------------------------------------------------

  /** `getNoteOctave(midiNumber)` = floor(midiNumber / 12) - 1. Dafny's `/`
      with a positive divisor rounds down, as `Math.floor` does. The result
      is the octave r with MIDI numbers 12(r + 1) to 12(r + 2) - 1. */
  function GetNoteOctave(midiNumber: int): (r: int)
    ensures 12 * (r + 1) <= midiNumber < 12 * (r + 2)
  {
    midiNumber / 12 - 1
  }

  /** Middle C (MIDI 60) is in octave 4, and key number 24 (C1) in octave 1. */
  lemma NoteOctaveLandmarks()
    ensures GetNoteOctave(60) == 4
    ensures GetNoteOctave(24) == 1
    ensures GetNoteOctave(0) == -1
  {
  }

  /** Twelve semitones up is one octave up. */
  lemma NoteOctaveShift(n: int)
    ensures GetNoteOctave(n + 12) == GetNoteOctave(n) + 1
  {
  }

  lemma NoteOctaveMonotone(m: int, n: int)
    requires m <= n
    ensures GetNoteOctave(m) <= GetNoteOctave(n)
  {
  }

  // ---------------------------------------------------------------------
  // Capitalisation (ASCII letters only)
  // ---------------------------------------------------------------------

  predicate IsAsciiLower(c: char) {
    'a' <= c <= 'z'
  }

  predicate IsAsciiUpper(c: char) {
    'A' <= c <= 'Z'
  }

  function UpperChar(c: char): char {
    if IsAsciiLower(c) then (c as int - 32) as char else c
  }

  function LowerChar(c: char): char {
    if IsAsciiUpper(c) then (c as int + 32) as char else c
  }

  function LowerString(s: string): (r: string)
    ensures |r| == |s|
    ensures forall i :: 0 <= i < |s| ==> r[i] == LowerChar(s[i])
  {
    seq(|s|, i requires 0 <= i < |s| => LowerChar(s[i]))
  }

  /** `capitalize(str)`: first character upper case, the rest lower case; the
      empty string stays empty. The result spells the same word ignoring
      case, starts with no lower-case letter and has no upper-case letter
      after the first character. */
  function Capitalize(s: string): (r: string)
    ensures |r| == |s|
    ensures forall i :: 0 <= i < |s| ==> LowerChar(r[i]) == LowerChar(s[i])
    ensures |r| > 0 ==> !IsAsciiLower(r[0])
    ensures forall i :: 1 <= i < |r| ==> !IsAsciiUpper(r[i])
  {
    if s == "" then "" else [UpperChar(s[0])] + LowerString(s[1..])
  }

  /** Those three facts pin the result down: no other string has them. */
  lemma CapitalizeUnique(s: string, t: string)
    requires |t| == |s|
    requires forall i :: 0 <= i < |s| ==> LowerChar(t[i]) == LowerChar(s[i])
    requires |t| > 0 ==> !IsAsciiLower(t[0])
    requires forall i :: 1 <= i < |t| ==> !IsAsciiUpper(t[i])
    ensures t == Capitalize(s)
  {
    var r := Capitalize(s);
    forall i | 0 <= i < |s|
      ensures t[i] == r[i]
    {
      assert LowerChar(t[i]) == LowerChar(r[i]);
    }
  }

  /** Capitalising twice is capitalising once. */
  lemma CapitalizeIdempotent(s: string)
    ensures Capitalize(Capitalize(s)) == Capitalize(s)
  {
    CapitalizeUnique(Capitalize(s), Capitalize(s));
  }
}
