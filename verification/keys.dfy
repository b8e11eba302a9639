/** The piano keys the application draws: seven octaves of naturals and
    sharps with their drawing positions (`generateKeys` and `keys`). */
module Keys {
  import Pitch
  import Helpers

  /** One key of the piano. `position` is the horizontal slot used for
      drawing: natural keys sit on whole numbers, a sharp half a slot to the
      right of its natural. */
  datatype PianoKey = PianoKey(note: string, accidental: string, octave: int, position: real)

  const NaturalNotes: seq<string> := ["C", "D", "E", "F", "G", "A", "B"]
  /** The naturals that have a sharp. */
  const SharpNotes: seq<string> := ["C", "D", "F", "G", "A"]

  /** The number of keys the generator emits. */
  const KeyCount := 84

  /** Key `k` of the keyboard in closed form: octave k / 12 + 1, semitone
      k % 12 of that octave, natural keys numbered left to right from 0 and
      each sharp half a slot right of the natural below it. */
  function KeyAt(k: int): PianoKey
    requires 0 <= k < KeyCount
  {
    var octave := k / 12;
    var j := k % 12;
    var black := Pitch.IsBlackOffset(j);
    PianoKey(
      Pitch.Letters[Pitch.LetterIndex(j)],
      if black then "#" else "",
      octave + 1,
      (7 * octave + Pitch.NaturalsBelow(j)) as real - (if black then 0.5 else 0.0))
  }

  /** The whole keyboard in closed form. */
  function Layout(): (r: seq<PianoKey>)
    ensures |r| == KeyCount
    ensures forall k :: 0 <= k < KeyCount ==> r[k] == KeyAt(k)
  {
    seq(KeyCount, k requires 0 <= k < KeyCount => KeyAt(k))
  }

  lemma DivMod12(q: int, j: int)
    requires 0 <= j < 12
    ensures (12 * q + j) / 12 == q && (12 * q + j) % 12 == j
  {
  }

  /** A natural has a sharp exactly when the semitone above it is black,
      that is, when the next natural is a whole step up. */
  lemma SharpNotesShape()
    ensures NaturalNotes == Pitch.Letters
    ensures forall i :: 0 <= i < 7 ==>
      && (NaturalNotes[i] in SharpNotes <==> Pitch.IsBlackOffset(Pitch.NaturalOffset(i) + 1))
      && (NaturalNotes[i] in SharpNotes ==> Pitch.NaturalOffset(i + 1) == Pitch.NaturalOffset(i) + 2)
      && (NaturalNotes[i] !in SharpNotes ==> Pitch.NaturalOffset(i + 1) == Pitch.NaturalOffset(i) + 1)
  {
    Pitch.NaturalOffsetShape();
    forall i | 0 <= i < 7
      ensures NaturalNotes[i] in SharpNotes <==> Pitch.IsBlackOffset(Pitch.NaturalOffset(i) + 1)
    {
      if i == 0 {
      } else if i == 1 {
      } else if i == 2 {
        assert "E" !in SharpNotes;
      } else if i == 3 {
      } else if i == 4 {
      } else if i == 5 {
      } else {
        assert "B" !in SharpNotes;
      }
    }
    forall i | 0 <= i < 7
      ensures NaturalNotes[i] in SharpNotes ==> Pitch.NaturalOffset(i + 1) == Pitch.NaturalOffset(i) + 2
      ensures NaturalNotes[i] !in SharpNotes ==> Pitch.NaturalOffset(i + 1) == Pitch.NaturalOffset(i) + 1
    {
      assert Pitch.NaturalShape(i);
    }
  }

  /** The natural the loop body pushes for letter `i` of `octave` is the next
      key of the closed-form layout. */
  lemma NaturalKey(octave: int, i: int)
    requires 1 <= octave <= 7 && 0 <= i < 7
    ensures var k := 12 * (octave - 1) + Pitch.NaturalOffset(i);
      && k < KeyCount
      && KeyAt(k) == PianoKey(NaturalNotes[i], "", octave, (7 * (octave - 1) + i) as real)
  {
    Pitch.NaturalOffsetShape();
    assert Pitch.NaturalShape(i);
    assert NaturalNotes == Pitch.Letters;
    DivMod12(octave - 1, Pitch.NaturalOffset(i));
  }

  /** The sharp it pushes after a natural that has one is the key after it. */
  lemma SharpKey(octave: int, i: int)
    requires 1 <= octave <= 7 && 0 <= i < 7
    requires NaturalNotes[i] in SharpNotes
    ensures var k := 12 * (octave - 1) + Pitch.NaturalOffset(i) + 1;
      && k < KeyCount
      && KeyAt(k) == PianoKey(NaturalNotes[i], "#", octave, (7 * (octave - 1) + i + 1) as real - 0.5)
  {
    var j := Pitch.NaturalOffset(i) + 1;
    assert Pitch.IsBlackOffset(j) by {
      SharpNotesShape();
    }
    assert Pitch.LetterIndex(j) == i && Pitch.NaturalsBelow(j) == i + 1 && j < 12 by {
      Pitch.NaturalOffsetShape();
      assert Pitch.NaturalShape(i);
    }
    assert NaturalNotes == Pitch.Letters;
    DivMod12(octave - 1, j);
  }

  /** Pushing the next key of the layout onto a prefix of the layout gives a
      longer prefix. */
  lemma PushKey(keys: seq<PianoKey>, key: PianoKey)
    requires |keys| < KeyCount && key == KeyAt(|keys|)
    requires forall k :: 0 <= k < |keys| ==> keys[k] == KeyAt(k)
    ensures forall k :: 0 <= k < |keys| + 1 ==> (keys + [key])[k] == KeyAt(k)
  {
  }

  /** `generateKeys()`: for octaves 1 to 7 and the naturals C to B, push the
      natural at the running position, advance the position, and push a sharp
      half a slot back from the advanced position for C, D, F, G and A. The
      result is exactly the closed-form layout. */
  method GenerateKeys() returns (keys: seq<PianoKey>)
    ensures |keys| == KeyCount
    ensures forall k :: 0 <= k < KeyCount ==> keys[k] == KeyAt(k)
  {
    keys := [];
    var position := 0;
    var octave := 1;
    while octave <= 7
      invariant 1 <= octave <= 8
      invariant position == 7 * (octave - 1)
      invariant |keys| == 12 * (octave - 1)
      invariant forall k :: 0 <= k < |keys| ==> keys[k] == KeyAt(k)
    {
      var i := 0;
      while i < |NaturalNotes|
        invariant 0 <= i <= 7
        invariant position == 7 * (octave - 1) + i
        invariant |keys| == 12 * (octave - 1) + Pitch.NaturalOffset(i)
        invariant forall k :: 0 <= k < |keys| ==> keys[k] == KeyAt(k)
      {
        var note := NaturalNotes[i];
        NaturalKey(octave, i);
        SharpNotesShape();
        PushKey(keys, PianoKey(note, "", octave, position as real));
        keys := keys + [PianoKey(note, "", octave, position as real)];
        position := position + 1;
        if note in SharpNotes {
          SharpKey(octave, i);
          PushKey(keys, PianoKey(note, "#", octave, position as real - 0.5));
          keys := keys + [PianoKey(note, "#", octave, position as real - 0.5)];
        }
        i := i + 1;
      }
      octave := octave + 1;
    }
  }

  // ---------------------------------------------------------------------
  // Properties of the generated keys
  // ---------------------------------------------------------------------

  /** Facts about semitone `j` of an octave that the layout lemmas use. */
  predicate SemitoneFacts(j: int)
    requires 0 <= j < 12
  {
    var black := Pitch.IsBlackOffset(j);
    var offset := Pitch.NaturalsBelow(j) as real - (if black then 0.5 else 0.0);
    && Pitch.NaturalsBelow(j) <= 6
    && 2.0 * offset == (j + (if j >= 5 then 1 else 0)) as real
    && (black ==>
          && Pitch.Letters[Pitch.LetterIndex(j)] in SharpNotes
          && 1 <= j && !Pitch.IsBlackOffset(j - 1)
          && Pitch.LetterIndex(j - 1) == Pitch.LetterIndex(j)
          && Pitch.NaturalsBelow(j) == Pitch.NaturalsBelow(j - 1) + 1)
  }

  lemma AllSemitoneFacts()
    ensures forall j :: 0 <= j < 12 ==> SemitoneFacts(j)
  {
    forall j | 0 <= j < 12
      ensures SemitoneFacts(j)
    {
      if j == 0 {
        assert SemitoneFacts(0);
      } else if j == 1 {
        assert SemitoneFacts(1);
      } else if j == 2 {
        assert SemitoneFacts(2);
      } else if j == 3 {
        assert SemitoneFacts(3);
      } else if j == 4 {
        assert SemitoneFacts(4);
      } else if j == 5 {
        assert SemitoneFacts(5);
      } else if j == 6 {
        assert SemitoneFacts(6);
      } else if j == 7 {
        assert SemitoneFacts(7);
      } else if j == 8 {
        assert SemitoneFacts(8);
      } else if j == 9 {
        assert SemitoneFacts(9);
      } else if j == 10 {
        assert SemitoneFacts(10);
      } else {
        assert SemitoneFacts(11);
      }
    }
  }

  /** Key k belongs to octave k / 12 + 1, so each octave 1 to 7 has exactly
      twelve consecutive keys and octaves never decrease; every key is a
      natural letter, plain or sharp, and only C, D, F, G and A carry a sharp. */
  lemma LayoutShape()
    ensures forall k :: 0 <= k < KeyCount ==>
      var key := Layout()[k];
      && key.octave == k / 12 + 1
      && 1 <= key.octave <= 7
      && key.note in NaturalNotes
      && (key.accidental == "" || key.accidental == "#")
      && (key.accidental == "#" ==> key.note in SharpNotes && key.note != "E" && key.note != "B")
    ensures forall k1, k2 :: 0 <= k1 <= k2 < KeyCount ==> Layout()[k1].octave <= Layout()[k2].octave
  {
    AllSemitoneFacts();
    SharpNotesShape();
    forall k | 0 <= k < KeyCount
      ensures Layout()[k].accidental == "#" ==> Layout()[k].note in SharpNotes
    {
      assert SemitoneFacts(k % 12);
    }
  }

  /** The number of keys in `s` with the given accidental. */
  function CountAccidental(s: seq<PianoKey>, accidental: string): nat
    decreases |s|
  {
    if s == [] then 0
    else CountAccidental(s[..|s| - 1], accidental) + (if s[|s| - 1].accidental == accidental then 1 else 0)
  }

  /** Among the first k keys, 7 per completed octave are natural, plus the
      naturals below the current semitone; every other key is a sharp. */
  lemma {:induction false} CountsBefore(k: int)
    requires 0 <= k <= KeyCount
    ensures CountAccidental(Layout()[..k], "") == 7 * (k / 12) + Pitch.NaturalsBelow(k % 12)
    ensures CountAccidental(Layout()[..k], "") + CountAccidental(Layout()[..k], "#") == k
  {
    if k > 0 {
      CountsBefore(k - 1);
      var s := Layout()[..k];
      assert s[..|s| - 1] == Layout()[..k - 1];
      assert s[|s| - 1] == KeyAt(k - 1);
      NaturalsStep(k);
    }
  }

  /** Key k - 1 is natural exactly when the running count of naturals grows
      from k - 1 keys to k keys. */
  lemma NaturalsStep(k: int)
    requires 0 < k <= KeyCount
    ensures 7 * (k / 12) + Pitch.NaturalsBelow(k % 12)
      == 7 * ((k - 1) / 12) + Pitch.NaturalsBelow((k - 1) % 12) + (if KeyAt(k - 1).accidental == "" then 1 else 0)
    ensures KeyAt(k - 1).accidental == "" || KeyAt(k - 1).accidental == "#"
  {
    var q := (k - 1) / 12;
    var j := (k - 1) % 12;
    DivMod12(q, j);
    Pitch.OctaveShape();
    assert Pitch.NaturalsBelow(j + 1) == Pitch.NaturalsBelow(j) + (if Pitch.IsBlackOffset(j) then 0 else 1);
    if j == 11 {
      DivMod12(q + 1, 0);
    } else {
      DivMod12(q, j + 1);
    }
  }

  /** The generator emits 84 keys: 49 naturals and 35 sharps. */
  lemma KeyCounts()
    ensures |Layout()| == 84
    ensures CountAccidental(Layout(), "") == 49
    ensures CountAccidental(Layout(), "#") == 35
  {
    CountsBefore(KeyCount);
    assert Layout()[..KeyCount] == Layout();
  }

  /** The natural keys are numbered in emission order: a natural's position
      is the number of naturals emitted before it. */
  lemma NaturalPositions()
    ensures forall k :: 0 <= k < KeyCount && Layout()[k].accidental == "" ==>
      Layout()[k].position == CountAccidental(Layout()[..k], "") as real
  {
    forall k | 0 <= k < KeyCount && Layout()[k].accidental == ""
      ensures Layout()[k].position == CountAccidental(Layout()[..k], "") as real
    {
      CountsBefore(k);
    }
  }

  /** Every whole position 0 to 48 holds a natural key: the naturals occupy
      exactly the positions 0..48, natural p being letter p % 7 of octave
      p / 7 + 1. */
  lemma NaturalAtPosition(p: int)
    requires 0 <= p < 49
    ensures var k := 12 * (p / 7) + Pitch.NaturalOffset(p % 7);
      && 0 <= k < KeyCount
      && Layout()[k] == PianoKey(NaturalNotes[p % 7], "", p / 7 + 1, p as real)
  {
    NaturalKey(p / 7 + 1, p % 7);
  }

  /** Each sharp comes right after the natural of the same letter and
      octave, half a position to its right. */
  lemma SharpFollowsNatural()
    ensures forall k :: 0 <= k < KeyCount && Layout()[k].accidental == "#" ==> SharpAfterNatural(k)
  {
    forall k | 0 <= k < KeyCount && Layout()[k].accidental == "#"
      ensures SharpAfterNatural(k)
    {
      SharpAt(k);
    }
  }

  predicate SharpAfterNatural(k: int)
    requires 0 <= k < KeyCount
  {
    && 0 < k
    && Layout()[k - 1].accidental == ""
    && Layout()[k - 1].note == Layout()[k].note
    && Layout()[k - 1].octave == Layout()[k].octave
    && Layout()[k].position == Layout()[k - 1].position + 0.5
  }

  lemma SharpAt(k: int)
    requires 0 <= k < KeyCount && Layout()[k].accidental == "#"
    ensures SharpAfterNatural(k)
  {
    var q := k / 12;
    var j := k % 12;
    assert Pitch.IsBlackOffset(j);
    assert SemitoneFacts(j) by {
      AllSemitoneFacts();
    }
    assert k - 1 == 12 * q + (j - 1);
    DivMod12(q, j - 1);
  }

  /** Positions strictly increase along the sequence. */
  lemma PositionsIncreasing()
    ensures forall k1, k2 :: 0 <= k1 < k2 < KeyCount ==> Layout()[k1].position < Layout()[k2].position
  {
    AllSemitoneFacts();
    forall k1, k2 | 0 <= k1 < k2 < KeyCount
      ensures Layout()[k1].position < Layout()[k2].position
    {
      assert SemitoneFacts(k1 % 12);
      assert SemitoneFacts(k2 % 12);
    }
  }

  // ---------------------------------------------------------------------
  // Agreement with the helpers
  // ---------------------------------------------------------------------

  /** Every generated key's name (letter and accidental) is the pitch class
      of its semitone, so `getNoteColor` gives it a real colour and never the
      grey default. */
  lemma KeyColors()
    ensures forall k :: 0 <= k < KeyCount ==>
      && Layout()[k].note + Layout()[k].accidental == Pitch.PitchClassNames[k % 12]
      && Helpers.GetNoteColor(Layout()[k].note + Layout()[k].accidental) != Helpers.DefaultNoteColor
  {
    Pitch.OctaveShape();
    forall k | 0 <= k < KeyCount
      ensures Layout()[k].note + Layout()[k].accidental == Pitch.PitchClassNames[k % 12]
    {
      assert Pitch.PitchClassNames[k % 12]
        == Pitch.Letters[Pitch.LetterIndex(k % 12)] + (if Pitch.IsBlackOffset(k % 12) then "#" else "");
    }
  }

  /** The generator and the keyboard builder draw the same keyboard: over
      seven octaves, key k is a sharp exactly when the builder's key k is
      black, whatever key number the builder starts from; so within each
      octave the generator's natural/sharp pattern is the white/black pattern
      of one octave of the builder. */
  lemma MatchesKeyboardBuilder(initialKey: int)
    ensures var board := Helpers.BuildKeyboard(Helpers.DefaultOctaveCount, initialKey);
      |board| == KeyCount
      && forall k :: 0 <= k < KeyCount ==> (Layout()[k].accidental == "#" <==> board[k].isBlack)
  {
    var board := Helpers.BuildKeyboard(Helpers.DefaultOctaveCount, initialKey);
    forall k | 0 <= k < KeyCount
      ensures Layout()[k].accidental == "#" <==> board[k].isBlack
    {
      assert board[k].isBlack <==> Pitch.IsBlackOffset(k % 12);
    }
  }

  /** Started on a C (a multiple of 12), the builder's key k lies k / 12
      octaves above the first key, by `getNoteOctave`, whatever the number of
      octaves. */
  lemma KeyboardOctaves(octaveCount: int, initialKey: int)
    requires initialKey % 12 == 0
    ensures var board := Helpers.BuildKeyboard(octaveCount, initialKey);
      forall k :: 0 <= k < |board| ==>
        Helpers.GetNoteOctave(board[k].keyNo) == Helpers.GetNoteOctave(initialKey) + k / 12
  {
    var board := Helpers.BuildKeyboard(octaveCount, initialKey);
    forall k | 0 <= k < |board|
      ensures Helpers.GetNoteOctave(board[k].keyNo) == Helpers.GetNoteOctave(initialKey) + k / 12
    {
      assert board[k].keyNo == initialKey + k;
      OctaveAbove(initialKey, k);
    }
  }

  /** From the builder's default first key (number 24, C1), the octave
      `getNoteOctave` gives key number 24 + k is the generator's octave of
      key k, for every key of the generated keyboard. */
  lemma DefaultKeyboardOctaves()
    ensures forall k :: 0 <= k < KeyCount ==>
      Helpers.GetNoteOctave(Helpers.DefaultInitialKey + k) == Layout()[k].octave
  {
    forall k | 0 <= k < KeyCount
      ensures Helpers.GetNoteOctave(Helpers.DefaultInitialKey + k) == Layout()[k].octave
    {
      OctaveAbove(Helpers.DefaultInitialKey, k);
      LayoutOctave(k);
    }
  }

  /** The generator puts key k in octave k / 12 + 1. */
  lemma LayoutOctave(k: nat)
    requires k < KeyCount
    ensures Layout()[k].octave == k / 12 + 1
  {
    assert Layout()[k] == KeyAt(k);
  }

  /** Counting up `k` keys from a C climbs k / 12 octaves. */
  lemma OctaveAbove(n: int, k: nat)
    requires n % 12 == 0
    ensures Helpers.GetNoteOctave(n + k) == Helpers.GetNoteOctave(n) + k / 12
  {
    var q := n / 12;
    DivMod12(q, 0);
    DivMod12(q + k / 12, k % 12);
    assert n + k == 12 * (q + k / 12) + k % 12;
  }
}
