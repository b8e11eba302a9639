/** The key-signature table: the fifteen major keys with their relative
    minors, how many sharps or flats each carries, and the label the key
    picker shows for it. */
module Signatures {
  import opened Wrappers
  import Helpers

  /** A key is identified by the name of its major tonic. */
  type KeyId = string

  datatype Signature = Signature(
    id: KeyId,
    major: string,
    minor: string,
    sharps: int,
    flats: int,
    labelText: string)

  /** The two accidentals a key signature can carry. */
  datatype Accidental = Sharp | Flat

  /** The accidental's written symbol: '#' for a sharp, 'b' for a flat. */
  function Symbol(a: Accidental): (s: string)
    ensures |s| == 1
    ensures s == "#" <==> a == Sharp
  {
    match a
    case Sharp => "#"
    case Flat => "b"
  }

  /** Reads an accidental symbol; any other string is not an accidental. */
  function ParseAccidental(s: string): Option<Accidental> {
    if s == "#" then Some(Sharp)
    else if s == "b" then Some(Flat)
    else None
  }

  lemma AccidentalRoundTrip(a: Accidental)
    ensures ParseAccidental(Symbol(a)) == Some(a)
  {
  }

  /** The symbols are the only strings the parser accepts. */
  lemma ParseAccidentalCanonical(s: string)
    requires ParseAccidental(s).Some?
    ensures Symbol(ParseAccidental(s).value) == s
  {
  }

  /** The table, in the order the key picker lists it. */
  const Table: seq<Signature> := [
    Signature("C", "C", "A", 0, 0, "C major / A minor"),
    Signature("G", "G", "E", 1, 0, "G major / E minor (1 sharp)"),
    Signature("D", "D", "B", 2, 0, "D major / B minor (2 sharps)"),
    Signature("A", "A", "F#", 3, 0, "A major / F# minor (3 sharps)"),
    Signature("E", "E", "C#", 4, 0, "E major / C# minor (4 sharps)"),
    Signature("B", "B", "G#", 5, 0, "B major / G# minor (5 sharps)"),
    Signature("F#", "F#", "D#", 6, 0, "F# major / D# minor (6 sharps)"),
    Signature("C#", "C#", "A#", 7, 0, "C# major / A# minor (7 sharps)"),
    Signature("F", "F", "D", 0, 1, "F major / D minor (1 flat)"),
    Signature("Bb", "Bb", "G", 0, 2, "Bb major / G minor (2 flats)"),
    Signature("Eb", "Eb", "C", 0, 3, "Eb major / C minor (3 flats)"),
    Signature("Ab", "Ab", "F", 0, 4, "Ab major / F minor (4 flats)"),
    Signature("Db", "Db", "Bb", 0, 5, "Db major / Bb minor (5 flats)"),
    Signature("Gb", "Gb", "Eb", 0, 6, "Gb major / Eb minor (6 flats)"),
    Signature("Cb", "Cb", "Ab", 0, 7, "Cb major / Ab minor (7 flats)")
  ]

  const TableSize := 15

  /** The label a key with these names and counts should carry: the two
      key names, then the accidental text when there is one. */
  function Label(major: string, minor: string, sharps: int, flats: int): string {
    var text := Helpers.RenderAccidentalText(sharps, flats);
    major + " major / " + minor + " minor" + (if text == "" then "" else " " + text)
  }

  /** Where in the table the key with these counts belongs: C first, then
      the sharp keys by ascending count, then the flat keys by ascending
      count; counts that no key signature has belong nowhere. */
  function SlotOfCounts(sharps: int, flats: int): (r: Option<nat>)
    ensures r.Some? ==> r.value < TableSize
    ensures r.Some? <==> 0 <= sharps <= 7 && 0 <= flats <= 7 && (sharps == 0 || flats == 0)
  {
    if sharps == 0 && flats == 0 then Some(0)
    else if flats == 0 && 1 <= sharps <= 7 then Some(sharps)
    else if sharps == 0 && 1 <= flats <= 7 then Some(7 + flats)
    else None
  }

  /** Position of the first entry with this id, as a search of the table
      from `from` onward would find it. */
  function FindFrom(id: KeyId, from: nat): (r: Option<nat>)
    requires from <= TableSize
    ensures r.Some? ==> from <= r.value < TableSize && Table[r.value].id == id
    ensures r.None? ==> forall i :: from <= i < TableSize ==> Table[i].id != id
    decreases TableSize - from
  {
    if from == TableSize then None
    else if Table[from].id == id then Some(from)
    else FindFrom(id, from + 1)
  }

  /** Looks a key signature up by its id. */
  function FindSignature(id: KeyId): (r: Option<Signature>)
    ensures r.Some? ==> r.value.id == id && r.value in Table
    ensures r.None? ==> forall i :: 0 <= i < TableSize ==> Table[i].id != id
  {
    match FindFrom(id, 0)
    case Some(i) => Some(Table[i])
    case None => None
  }

  /** What the table promises about the counts and names of entry `i`. */
  predicate CountFacts(i: int)
    requires 0 <= i < TableSize
  {
    var s := Table[i];
    && s.id == s.major
    && 0 <= s.sharps <= 7 && 0 <= s.flats <= 7
    && !(s.sharps > 0 && s.flats > 0)
    && (s.sharps == 0 && s.flats == 0 <==> s.id == "C")
    && SlotOfCounts(s.sharps, s.flats) == Some(i)
  }

  /** Where in the table an id sits, told from its first and last
      characters, which is enough to tell the fifteen ids apart; -1 for an
      id the table does not hold. Not part of the program: it only gives
      the distinct-ids proof a cheap witness for each entry. */
  function IdSlot(id: KeyId): int {
    if |id| == 0 then -1
    else
      var first, last := id[0], id[|id| - 1];
      if last == '#' then
        if first == 'F' then 6 else if first == 'C' then 7 else -1
      else if last == 'b' then
        if first == 'B' then 9 else if first == 'E' then 10 else if first == 'A' then 11
        else if first == 'D' then 12 else if first == 'G' then 13 else if first == 'C' then 14
        else -1
      else if first == 'C' then 0 else if first == 'G' then 1 else if first == 'D' then 2
      else if first == 'A' then 3 else if first == 'E' then 4 else if first == 'B' then 5
      else if first == 'F' then 8
      else -1
  }

  /** Entry `i`'s id sits in slot `i`. */
  predicate LookupFacts(i: int)
    requires 0 <= i < TableSize
  {
    IdSlot(Table[i].id) == i
  }

  /** Entry `i`'s label is the one its names and counts call for. */
  predicate LabelFacts(i: int)
    requires 0 <= i < TableSize
  {
    var s := Table[i];
    s.labelText == Label(s.major, s.minor, s.sharps, s.flats)
  }

  lemma AllCountFacts()
    ensures |Table| == TableSize
    ensures forall i :: 0 <= i < TableSize ==> CountFacts(i)
  {
    forall i | 0 <= i < TableSize
      ensures CountFacts(i)
    {
      if i == 0 { assert CountFacts(0); }
      else if i == 1 { assert CountFacts(1); }
      else if i == 2 { assert CountFacts(2); }
      else if i == 3 { assert CountFacts(3); }
      else if i == 4 { assert CountFacts(4); }
      else if i == 5 { assert CountFacts(5); }
      else if i == 6 { assert CountFacts(6); }
      else if i == 7 { assert CountFacts(7); }
      else if i == 8 { assert CountFacts(8); }
      else if i == 9 { assert CountFacts(9); }
      else if i == 10 { assert CountFacts(10); }
      else if i == 11 { assert CountFacts(11); }
      else if i == 12 { assert CountFacts(12); }
      else if i == 13 { assert CountFacts(13); }
      else { assert CountFacts(14); }
    }
  }

  lemma AllLookupFacts()
    ensures |Table| == TableSize
    ensures forall i :: 0 <= i < TableSize ==> LookupFacts(i)
  {
    forall i | 0 <= i < TableSize
      ensures LookupFacts(i)
    {
      if i == 0 { assert LookupFacts(0); }
      else if i == 1 { assert LookupFacts(1); }
      else if i == 2 { assert LookupFacts(2); }
      else if i == 3 { assert LookupFacts(3); }
      else if i == 4 { assert LookupFacts(4); }
      else if i == 5 { assert LookupFacts(5); }
      else if i == 6 { assert LookupFacts(6); }
      else if i == 7 { assert LookupFacts(7); }
      else if i == 8 { assert LookupFacts(8); }
      else if i == 9 { assert LookupFacts(9); }
      else if i == 10 { assert LookupFacts(10); }
      else if i == 11 { assert LookupFacts(11); }
      else if i == 12 { assert LookupFacts(12); }
      else if i == 13 { assert LookupFacts(13); }
      else { assert LookupFacts(14); }
    }
  }

  // The fifteen labels, one key at a time: each label is what `Label`
  // builds from the key's names and counts.

  lemma LabelC()
    ensures Label("C", "A", 0, 0) == "C major / A minor"
  {
  }

  lemma LabelG()
    ensures Label("G", "E", 1, 0) == "G major / E minor (1 sharp)"
  {
  }

  lemma LabelD()
    ensures Label("D", "B", 2, 0) == "D major / B minor (2 sharps)"
  {
  }

  lemma LabelA()
    ensures Label("A", "F#", 3, 0) == "A major / F# minor (3 sharps)"
  {
  }

  lemma LabelE()
    ensures Label("E", "C#", 4, 0) == "E major / C# minor (4 sharps)"
  {
  }

  lemma LabelB()
    ensures Label("B", "G#", 5, 0) == "B major / G# minor (5 sharps)"
  {
  }

  lemma LabelFSharp()
    ensures Label("F#", "D#", 6, 0) == "F# major / D# minor (6 sharps)"
  {
  }

  lemma LabelCSharp()
    ensures Label("C#", "A#", 7, 0) == "C# major / A# minor (7 sharps)"
  {
  }

  lemma LabelF()
    ensures Label("F", "D", 0, 1) == "F major / D minor (1 flat)"
  {
  }

  lemma LabelBFlat()
    ensures Label("Bb", "G", 0, 2) == "Bb major / G minor (2 flats)"
  {
  }

  lemma LabelEFlat()
    ensures Label("Eb", "C", 0, 3) == "Eb major / C minor (3 flats)"
  {
  }

  lemma LabelAFlat()
    ensures Label("Ab", "F", 0, 4) == "Ab major / F minor (4 flats)"
  {
  }

  lemma LabelDFlat()
    ensures Label("Db", "Bb", 0, 5) == "Db major / Bb minor (5 flats)"
  {
  }

  lemma LabelGFlat()
    ensures Label("Gb", "Eb", 0, 6) == "Gb major / Eb minor (6 flats)"
  {
  }

  lemma LabelCFlat()
    ensures Label("Cb", "Ab", 0, 7) == "Cb major / Ab minor (7 flats)"
  {
  }

  /** The labels of C and of the keys with one to three sharps. */
  lemma NaturalAndLowSharpLabelFacts()
    ensures forall i :: 0 <= i <= 3 ==> LabelFacts(i)
  {
    forall i | 0 <= i <= 3
      ensures LabelFacts(i)
    {
      if i == 0 {
        LabelC();
        assert Table[0] == Signature("C", "C", "A", 0, 0, "C major / A minor");
      }
      else if i == 1 {
        LabelG();
        assert Table[1] == Signature("G", "G", "E", 1, 0, "G major / E minor (1 sharp)");
      }
      else if i == 2 {
        LabelD();
        assert Table[2] == Signature("D", "D", "B", 2, 0, "D major / B minor (2 sharps)");
      }
      else {
        LabelA();
        assert Table[3] == Signature("A", "A", "F#", 3, 0, "A major / F# minor (3 sharps)");
      }
    }
  }

  /** The labels of the keys with four to seven sharps. */
  lemma HighSharpLabelFacts()
    ensures forall i :: 4 <= i <= 7 ==> LabelFacts(i)
  {
    forall i | 4 <= i <= 7
      ensures LabelFacts(i)
    {
      if i == 4 {
        LabelE();
        assert Table[4] == Signature("E", "E", "C#", 4, 0, "E major / C# minor (4 sharps)");
      }
      else if i == 5 {
        LabelB();
        assert Table[5] == Signature("B", "B", "G#", 5, 0, "B major / G# minor (5 sharps)");
      }
      else if i == 6 {
        LabelFSharp();
        assert Table[6] == Signature("F#", "F#", "D#", 6, 0, "F# major / D# minor (6 sharps)");
      }
      else {
        LabelCSharp();
        assert Table[7] == Signature("C#", "C#", "A#", 7, 0, "C# major / A# minor (7 sharps)");
      }
    }
  }

  /** The labels of the seven flat keys. */
  lemma FlatLabelFacts()
    ensures forall i :: 8 <= i <= 14 ==> LabelFacts(i)
  {
    forall i | 8 <= i <= 14
      ensures LabelFacts(i)
    {
      if i == 8 {
        LabelF();
        assert Table[8] == Signature("F", "F", "D", 0, 1, "F major / D minor (1 flat)");
      }
      else if i == 9 {
        LabelBFlat();
        assert Table[9] == Signature("Bb", "Bb", "G", 0, 2, "Bb major / G minor (2 flats)");
      }
      else if i == 10 {
        LabelEFlat();
        assert Table[10] == Signature("Eb", "Eb", "C", 0, 3, "Eb major / C minor (3 flats)");
      }
      else if i == 11 {
        LabelAFlat();
        assert Table[11] == Signature("Ab", "Ab", "F", 0, 4, "Ab major / F minor (4 flats)");
      }
      else if i == 12 {
        LabelDFlat();
        assert Table[12] == Signature("Db", "Db", "Bb", 0, 5, "Db major / Bb minor (5 flats)");
      }
      else if i == 13 {
        LabelGFlat();
        assert Table[13] == Signature("Gb", "Gb", "Eb", 0, 6, "Gb major / Eb minor (6 flats)");
      }
      else {
        LabelCFlat();
        assert Table[14] == Signature("Cb", "Cb", "Ab", 0, 7, "Cb major / Ab minor (7 flats)");
      }
    }
  }

  lemma AllLabelFacts()
    ensures |Table| == TableSize
    ensures forall i :: 0 <= i < TableSize ==> LabelFacts(i)
  {
    NaturalAndLowSharpLabelFacts();
    HighSharpLabelFacts();
    FlatLabelFacts();
  }

  /** Fifteen entries with pairwise distinct ids, each id naming its major
      key. */
  lemma IdsIdentifyEntries()
    ensures |Table| == TableSize
    ensures forall i :: 0 <= i < TableSize ==> Table[i].id == Table[i].major
    ensures forall i, j :: 0 <= i < j < TableSize ==> Table[i].id != Table[j].id
  {
    AllCountFacts();
    forall i | 0 <= i < TableSize
      ensures Table[i].id == Table[i].major
    {
      assert CountFacts(i);
    }
    AllLookupFacts();
    forall i, j | 0 <= i < j < TableSize
      ensures Table[i].id != Table[j].id
    {
      assert LookupFacts(i) && LookupFacts(j);
    }
  }

  /** Looking a key signature up by the id of an entry finds that entry. */
  lemma FindSignatureOfEntry()
    ensures forall i :: 0 <= i < TableSize ==> FindSignature(Table[i].id) == Some(Table[i])
  {
    AllLookupFacts();
    forall i | 0 <= i < TableSize
      ensures FindSignature(Table[i].id) == Some(Table[i])
    {
      var found := FindFrom(Table[i].id, 0);
      assert found.Some?;
      assert LookupFacts(found.value) && LookupFacts(i);
    }
  }

  /** A signature carries sharps or flats, never both, each count within
      0..7, and only C carries neither. */
  lemma AccidentalCounts()
    ensures forall i :: 0 <= i < TableSize ==>
      && 0 <= Table[i].sharps <= 7 && 0 <= Table[i].flats <= 7
      && !(Table[i].sharps > 0 && Table[i].flats > 0)
      && (Table[i].sharps == 0 && Table[i].flats == 0 <==> Table[i].id == "C")
  {
    AllCountFacts();
    forall i | 0 <= i < TableSize
      ensures (Table[i].sharps == 0 && Table[i].flats == 0 <==> Table[i].id == "C")
    {
      assert CountFacts(i);
    }
  }

  /** The order of the table: C, then one to seven sharps, then one to seven
      flats. */
  lemma TableOrder()
    ensures Table[0].id == "C"
    ensures forall i :: 1 <= i <= 7 ==> Table[i].sharps == i && Table[i].flats == 0
    ensures forall i :: 8 <= i < TableSize ==> Table[i].sharps == 0 && Table[i].flats == i - 7
  {
    AllCountFacts();
    forall i | 1 <= i < TableSize
      ensures 1 <= i <= 7 ==> Table[i].sharps == i && Table[i].flats == 0
      ensures 8 <= i ==> Table[i].sharps == 0 && Table[i].flats == i - 7
    {
      assert CountFacts(i);
    }
  }

  /** The pair of counts identifies an entry: two entries with the same
      counts are the same entry, and the counts of every possible key
      signature occur in the table. */
  lemma CountsIdentifyEntries()
    ensures forall i, j :: 0 <= i < TableSize && 0 <= j < TableSize ==>
      (Table[i].sharps == Table[j].sharps && Table[i].flats == Table[j].flats <==> i == j)
    ensures forall sharps, flats :: SlotOfCounts(sharps, flats).Some? ==>
      var s := Table[SlotOfCounts(sharps, flats).value];
      s.sharps == sharps && s.flats == flats
  {
    AllCountFacts();
    forall i, j | 0 <= i < TableSize && 0 <= j < TableSize
      && Table[i].sharps == Table[j].sharps && Table[i].flats == Table[j].flats
      ensures i == j
    {
      assert CountFacts(i) && CountFacts(j);
    }
    TableOrder();
  }

  /** Every label is the two key names followed by the text that
      `renderAccidentalText` gives the entry's counts, separated by a space
      when that text is not empty. */
  lemma LabelsMatchAccidentalText()
    ensures forall i :: 0 <= i < TableSize ==>
      Table[i].labelText == Label(Table[i].major, Table[i].minor, Table[i].sharps, Table[i].flats)
  {
    AllLabelFacts();
    forall i | 0 <= i < TableSize
      ensures Table[i].labelText == Label(Table[i].major, Table[i].minor, Table[i].sharps, Table[i].flats)
    {
      assert LabelFacts(i);
    }
  }
}
