/** Reference facts about the twelve-semitone octave of a piano keyboard,
    stated independently of how the program enumerates or draws keys. */
module Pitch {

  /** The pitch classes from C upwards, accidentals spelled as sharps. */
  const PitchClassNames: seq<string> :=
    ["C", "C#", "D", "D#", "E", "F", "F#", "G", "G#", "A", "A#", "B"]

  /** The seven natural letters in octave order. */
  const Letters: seq<string> := ["C", "D", "E", "F", "G", "A", "B"]

  /** Semitones 1, 3, 6, 8 and 10 above C are the black keys. */
  predicate IsBlackOffset(j: int) {
    j == 1 || j == 3 || j == 6 || j == 8 || j == 10
  }

  /** The number of white keys strictly below semitone `j` of an octave. */
  function NaturalsBelow(j: int): nat
    requires 0 <= j <= 12
  {
    [0, 1, 1, 2, 2, 3, 4, 4, 5, 5, 6, 6, 7][j]
  }

  /** The semitone above C of the `i`-th natural letter; 12 (the next C) for i = 7. */
  function NaturalOffset(i: int): int
    requires 0 <= i <= 7
  {
    [0, 2, 4, 5, 7, 9, 11, 12][i]
  }

  /** The index into `Letters` of the natural at, or just below, semitone `j`. */
  function LetterIndex(j: int): (i: nat)
    requires 0 <= j < 12
    ensures i < 7
  {
    NaturalsBelow(j + 1) - 1
  }

  /** The white-key count grows by one exactly at each white semitone, black
      pitch classes are exactly the two-character (sharp) names, and every
      name is the letter of its natural, followed by '#' on a black key. */
  lemma OctaveShape()
    ensures forall j :: 0 <= j < 12 ==>
      NaturalsBelow(j + 1) == NaturalsBelow(j) + (if IsBlackOffset(j) then 0 else 1)
    ensures forall j :: 0 <= j < 12 ==>
      (IsBlackOffset(j) <==> |PitchClassNames[j]| == 2)
    ensures forall j :: 0 <= j < 12 ==>
      PitchClassNames[j] == Letters[LetterIndex(j)] + (if IsBlackOffset(j) then "#" else "")
  {
  }

  /** A semitone is determined by its letter and by whether it is black: it
      is its natural's semitone, plus one on a black key. */
  lemma SemitoneOfLetter()
    ensures forall j :: 0 <= j < 12 ==>
      j == NaturalOffset(LetterIndex(j)) + (if IsBlackOffset(j) then 1 else 0)
  {
  }

  /** The i-th natural sits at a white semitone with i white keys below it,
      and the semitone just above it is black exactly when the next natural
      is a whole step up. */
  lemma NaturalOffsetShape()
    ensures forall i :: 0 <= i < 7 ==> NaturalShape(i)
  {
    forall i | 0 <= i < 7
      ensures NaturalShape(i)
    {
      if i == 0 {
        assert NaturalShape(0);
      } else if i == 1 {
        assert NaturalShape(1);
      } else if i == 2 {
        assert NaturalShape(2);
      } else if i == 3 {
        assert NaturalShape(3);
      } else if i == 4 {
        assert NaturalShape(4);
      } else if i == 5 {
        assert NaturalShape(5);
      } else {
        assert NaturalShape(6);
      }
    }
  }

  predicate NaturalShape(i: int)
    requires 0 <= i < 7
  {
    var j := NaturalOffset(i);
    0 <= j < 12 && !IsBlackOffset(j) && NaturalsBelow(j) == i && LetterIndex(j) == i
    && (IsBlackOffset(j + 1) <==> NaturalOffset(i + 1) == j + 2)
    && (NaturalOffset(i + 1) == j + 1 || NaturalOffset(i + 1) == j + 2)
    && (IsBlackOffset(j + 1) ==> LetterIndex(j + 1) == i && NaturalsBelow(j + 1) == i + 1)
  }
}
