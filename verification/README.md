# pianoboi-web keyboard and music-theory core, in Dafny

This project models the pure part of the pianoboi-web front end: the
helpers that lay out and draw a piano keyboard, compare chord lists, name
and colour notes, and the fixed tables of piano keys and key signatures.
Everything in that core is a deterministic transform over small finite
data, so the model is a set of pure functions over immutable datatypes,
with lemmas that state what the program promises about them.

Modules, one per concern:

- `Wrappers` — the `Option` type used for partial results.
- `Decimal` — integers written in decimal, as a template literal prints a
  whole JavaScript number, together with a parser and both round trips.
- `Sorting` — a total lexicographic order on strings, an insertion sort,
  and the fact that two lists sort to the same list exactly when they are
  permutations of each other.
- `Pitch` — reference facts about the twelve-semitone octave (which
  semitones are black, pitch-class names, where each natural letter sits),
  written independently of the program so that its tables can be checked
  against them.
- `Helpers` — `src/lib/utils/helpers.ts`: the diatonic step pattern, the
  keyboard builder (as the sequence of numbered white/black keys it emits,
  and the markup those keys become), chord comparison, accidental text,
  note colours, note formatting, the octave of a MIDI number, and ASCII
  capitalisation.
- `Keys` — `src/lib/types/keys.ts`: the `PianoKey` record, the key
  generator as a method with the program's nested loops, and its 84-key
  result in closed form.
- `Signatures` — `src/lib/types/signatures.ts`: the `Signature` record,
  the `Accidental` symbols, and the 15-entry key-signature table.

A sharp key's rendering position is taken from the code: the position
counter is incremented after the natural is pushed
(src/lib/types/keys.ts:32) and the sharp is then pushed at the counter
minus 0.5 (src/lib/types/keys.ts:40), which is its natural's position plus
0.5, halfway to the next natural.

## Model

| member | source | states |
|---|---|---|
| Helpers.BuildKeyboard | src/lib/utils/helpers.ts:27-52 | emits 12 keys per octave and none for a non-positive octave count; key m is numbered initialKey + m and is black exactly when m mod 12 is 1, 3, 6, 8 or 10 |
| Helpers.LastKeyNumber | src/lib/utils/helpers.ts:35-48 | the last key emitted is numbered initialKey + 12·octaveCount − 1 |
| Helpers.StepPatternAlternates | src/lib/utils/helpers.ts:38-50 | for any step list, the emitted pattern never starts with a black key and never has two black keys in a row |
| Helpers.DiatonicOctave | src/lib/utils/helpers.ts:6 | one pass over the diatonic scale emits 12 consecutive keys whose black/white pattern is the reference octave's |
| Helpers.BlackKeysIsolated | src/lib/utils/helpers.ts:39-48 | every black key has a white key just before it and, if any key follows, a white key just after it |
| Helpers.RenderKeysRoundTrip | src/lib/utils/helpers.ts:23-25 | the concatenated key markup parses back to exactly the keys rendered, so it carries each key's number and colour |
| Helpers.RenderKeyboardRoundTrip | src/lib/utils/helpers.ts:37-51 | the markup the builder appends to the container reads back as exactly the keyboard it walked |
| Helpers.ChordsEqual | src/lib/utils/helpers.ts:55-67 | true exactly when the two chord lists hold the same chords the same number of times; hence reflexive, symmetric and blind to order |
| Helpers.SequencesEqual | src/lib/utils/helpers.ts:63-66 | the position-by-position comparison answers true exactly when the two sorted lists are equal |
| Helpers.RenderAccidentalText | src/lib/utils/helpers.ts:70-77 | empty exactly when neither count is positive; otherwise parenthesised, plural exactly when the count shown exceeds 1 |
| Helpers.AccidentalTextRoundTrip | src/lib/utils/helpers.ts:70-77 | the text reads back as the sharp count when sharps are positive (sharps take precedence), else as the flat count, else as nothing |
| Helpers.AccidentalTextCanonical | src/lib/utils/helpers.ts:72-74 | every text that reads as a count is exactly the text rendered for that count |
| Helpers.GetNoteColor | src/lib/utils/helpers.ts:80-97 | total; the grey default is returned exactly for names outside the twelve pitch-class names |
| Helpers.NoteColorByPitchClass | src/lib/utils/helpers.ts:81-94 | the colour of a pitch class is its natural letter's hue, shade 500 on white keys and 600 on black keys |
| Helpers.NoteColorInjective | src/lib/utils/helpers.ts:81-94 | distinct pitch classes get distinct colours |
| Helpers.FormatNotes | src/lib/utils/helpers.ts:106-108 | keeps length and order; element i is the note's name, accidental (or nothing) and decimal octave; a letter note whose accidental is none, "", "#" or "b" parses back to it, an empty accidental reading as none |
| Helpers.FormatNoteRoundTrip | src/lib/utils/helpers.ts:107 | a note with a natural letter and an accidental of nothing, "", "#" or "b" is recovered from its text, an empty accidental reading as none |
| Helpers.ParseNoteCanonical | src/lib/utils/helpers.ts:107 | every string that parses as a note is the text formatted for that note |
| Helpers.GetNoteOctave | src/lib/utils/helpers.ts:111-113 | the result r is the octave whose twelve MIDI numbers 12·(r+1) .. 12·(r+2)−1 contain the input |
| Helpers.NoteOctaveLandmarks | src/lib/utils/helpers.ts:111-113 | middle C (60) is octave 4, the keyboard's default first key (24) octave 1, MIDI 0 octave −1 |
| Helpers.NoteOctaveShift | src/lib/utils/helpers.ts:111-113 | twelve semitones up is one octave up |
| Helpers.NoteOctaveMonotone | src/lib/utils/helpers.ts:111-113 | a higher MIDI number never has a lower octave |
| Helpers.Capitalize | src/lib/utils/helpers.ts:1-4 | same length and same letters ignoring case, first character not lower case, no upper-case letter after it; empty stays empty |
| Helpers.CapitalizeUnique | src/lib/utils/helpers.ts:1-4 | those properties determine the result: any string having them is the capitalised string |
| Helpers.CapitalizeIdempotent | src/lib/utils/helpers.ts:1-4 | capitalising twice is capitalising once |
| Decimal.IntToStringRoundTrip | src/lib/utils/helpers.ts:24 | the decimal text of any integer parses back to that integer |
| Decimal.ParseIntRoundTrip | src/lib/utils/helpers.ts:72 | any text that parses as an integer is that integer's decimal text, so the parser accepts only canonical decimals |
| Decimal.IntToStringInjective | src/lib/utils/helpers.ts:72 | distinct integers are printed as distinct texts |
| Sorting.SortCanonical | src/lib/utils/helpers.ts:60-61 | two lists sort to the same list exactly when one is a permutation of the other |
| Keys.GenerateKeys | src/lib/types/keys.ts:12-47 | the nested octave/letter loops produce exactly the 84-key table |
| Keys.LayoutShape | src/lib/types/keys.ts:14-41 | octave is k/12 + 1, within 1..7 and non-decreasing; accidental is "" or "#"; sharps only on C, D, F, G, A, never E or B |
| Keys.KeyCounts | src/lib/types/keys.ts:20-44 | 84 keys: 49 naturals and 35 sharps |
| Keys.NaturalPositions | src/lib/types/keys.ts:17-32 | a natural's position is the number of naturals before it |
| Keys.NaturalAtPosition | src/lib/types/keys.ts:21-32 | for each p in 0..48 the natural at position p exists, with letter p mod 7 and octave p/7 + 1, so natural positions are exactly 0..48 |
| Keys.SharpFollowsNatural | src/lib/types/keys.ts:32-41 | every sharp directly follows the natural of the same note and octave, at that natural's position plus 0.5 |
| Keys.PositionsIncreasing | src/lib/types/keys.ts:17-41 | positions strictly increase along the table |
| Keys.KeyColors | src/lib/types/keys.ts:25-41 | every key's note and accidental spell its pitch class, which has a colour other than the grey default |
| Keys.MatchesKeyboardBuilder | src/lib/types/keys.ts:21-43 | a seven-octave keyboard has as many keys as the table, and key k is black exactly when table entry k is a sharp |
| Keys.KeyboardOctaves | src/lib/utils/helpers.ts:35-48 | on a keyboard starting at a C, key k lies k/12 octaves above the first key |
| Keys.DefaultKeyboardOctaves | src/lib/types/keys.ts:20-41 | from the default first key 24, the octave of key k's MIDI number is table entry k's octave |
| Signatures.Symbol | src/lib/types/signatures.ts:12 | an accidental is written as one character, "#" exactly for a sharp |
| Signatures.AccidentalRoundTrip | src/lib/types/signatures.ts:12 | each accidental reads back from its symbol |
| Signatures.ParseAccidentalCanonical | src/lib/types/signatures.ts:12 | only "#" and "b" read as accidentals, and each is its accidental's symbol |
| Signatures.FindSignature | src/lib/types/signatures.ts:14-65 | a found signature has the requested id and is in the table; nothing is found only when no entry has that id |
| Signatures.IdsIdentifyEntries | src/lib/types/signatures.ts:14-65 | 15 entries, each id equal to its major key, ids pairwise distinct |
| Signatures.FindSignatureOfEntry | src/lib/types/signatures.ts:14-65 | looking up any entry's id finds that entry |
| Signatures.AccidentalCounts | src/lib/types/signatures.ts:15-64 | counts within 0..7, never both sharps and flats, both zero only for C |
| Signatures.TableOrder | src/lib/types/signatures.ts:15-64 | C first, then 1..7 sharps ascending, then 1..7 flats ascending |
| Signatures.SlotOfCounts | src/lib/types/signatures.ts:15-64 | a slot is found exactly for valid count pairs (both within 0..7, not both positive) |
| Signatures.CountsIdentifyEntries | src/lib/types/signatures.ts:15-64 | the (sharps, flats) pair identifies an entry, and every valid pair names the entry with those counts |
| Signatures.LabelsMatchAccidentalText | src/lib/types/signatures.ts:15-64 | every label is the major, " major / ", the minor, " minor", then a space and the accidental text when that text is not empty |

## Left out

- `centerPiano` (src/lib/utils/helpers.ts:8-21): it reads element geometry from the DOM and scrolls it with floating-point arithmetic; nothing in it is pure.
- The container itself: clearing `innerHTML` and the browser re-serialising the markup after each append are not modelled. The builder is a function returning the keys it emits, and `RenderKeyboard` gives the markup as the plain concatenation of each key's `div`.
- The `container` and the default parameters of the builder: the defaults become the constants `DefaultOctaveCount` and `DefaultInitialKey`, and the builder takes both counts explicitly.
- JavaScript's default sort order (UTF-16 code units): the model sorts by code-point lexicographic order. Chord comparison only needs some total order, so its result is the same.
- The identity and null checks at the head of `chordsEqual`: a Dafny sequence is never null, and identical lists fall under the multiset contract anyway.
- Non-integer, non-finite and very large JavaScript numbers: counts, octaves and key numbers are integers, and their text is plain decimal with an optional minus sign (no exponent form).
- Object-prototype keys in the colour lookup (`getNoteColor("constructor")` and the like): the lookup is a finite map, so every name outside the twelve gets the default.
- Unicode case mapping in `capitalize`: only ASCII letters change case; every other character is left as it is.
- The `keys` constant (src/lib/types/keys.ts:50) is the function `Layout`, which `GenerateKeys` is proved to produce.
- `Accidental` is a two-constructor datatype with its symbol, rather than a string union.
- `FindSignature` is a lookup by id added to the model so that the distinct ids can be stated as "looking an id up finds its entry"; the table file itself exports only the array.
