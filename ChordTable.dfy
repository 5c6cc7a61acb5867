/** The table of every template in every transposition, as `all_chords` holds it. */
module ChordTable {
  import opened Common
  import opened Chords

  // ---------------------------------------------------------------------
  // The table of all transpositions
  // ---------------------------------------------------------------------

  /**
   * Element `i` of `list`, taken one element at a time. `Template` indexes
   * the template list through this function rather than directly because
   * `Template(i)` then does not unfold to the literal list wherever a
   * `TableEntry` appears, which keeps the proofs about the table cheap.
   */
  function ChordAt(list: seq<Chord>, i: int): Chord
    requires 0 <= i < |list|
    decreases i
  {
    if i == 0 then list[0] else ChordAt(list[1..], i - 1)
  }

  lemma {:induction false} ChordAtIsIndex(list: seq<Chord>, i: int)
    requires 0 <= i < |list|
    ensures ChordAt(list, i) == list[i]
    decreases i
  {
    if i > 0 {
      ChordAtIsIndex(list[1..], i - 1);
    }
  }

  /** Template `i` of the dictionary. */
  function Template(i: int): (t: Chord)
    requires 0 <= i < NUM_CHORD_TYPES
    ensures TemplateShaped(t)
  {
    TemplatesShape(i);
    ChordAtIsIndex(A_ROOT_CHORDS, i);
    ChordAt(A_ROOT_CHORDS, i)
  }

  /** `Template` reads the template list. */
  lemma TemplateIs(i: int)
    requires 0 <= i < NUM_CHORD_TYPES
    ensures Template(i) == A_ROOT_CHORDS[i]
  {
    TemplatesShape(i);
    ChordAtIsIndex(A_ROOT_CHORDS, i);
  }

  /**
   * Entry `i*12 + j` of `all_chords`: the used notes of template `i` moved
   * up `j` semitones under the root field of pitch class `j + 1`.
   */
  function TableEntry(k: int): (c: Chord)
    requires 0 <= k < TABLE_SIZE
    ensures WellFormed(c) && 2 <= c.numNotes
    ensures c.numNotes == Template(k / 12).numNotes
    ensures c.notes[0] == k % 12 + 1
    ensures c.name[0] != '\0' && c.name[CHORD_NAME_SIZE - 1] == '\0'
  {
    TransposedTemplateShape(Template(k / 12), k % 12);
    Transpose(Template(k / 12), k % 12).value
  }

  /** What a template transposed by `j` in [0, 12) looks like. */
  lemma TransposedTemplateShape(t: Chord, j: int)
    requires TemplateShaped(t) && 0 <= j < 12
    ensures Transpose(t, j).Success?
    ensures var c := Transpose(t, j).value;
            WellFormed(c) && c.numNotes == t.numNotes && c.notes[0] == j + 1
            && c.name[0] != '\0' && c.name[CHORD_NAME_SIZE - 1] == '\0'
  {
    TransposedTemplateNotes(t, j);
    TransposedTemplateName(t, j);
  }

  /** The transposed template's notes start at the new root. */
  lemma TransposedTemplateNotes(t: Chord, j: int)
    requires TemplateShaped(t) && 0 <= j < 12
    ensures Transpose(t, j).Success?
    ensures var c := Transpose(t, j).value;
            WellFormed(c) && c.numNotes == t.numNotes && c.notes[0] == j + 1
  {
    var c := Transpose(t, j).value;
    assert c.notes[0] == PitchClassShift(1, j) == j + 1;
  }

  /** The transposed template's name is a non-empty C string. */
  lemma TransposedTemplateName(t: Chord, j: int)
    requires TemplateShaped(t) && 0 <= j < 12
    ensures Transpose(t, j).Success?
    ensures var c := Transpose(t, j).value;
            c.name[0] != '\0' && c.name[CHORD_NAME_SIZE - 1] == '\0'
  {
    TransposedTemplateNotes(t, j);
    var c := Transpose(t, j).value;
    var root := RootLabel(j + 1);
    assert c.name[..2] == root;
    assert c.name[0] == root[0] != '\0';
    assert c.name[CHORD_NAME_SIZE - 1] == c.name[2..][CHORD_NAME_SIZE - 3] == t.name[CHORD_NAME_SIZE - 1];
  }

  /** Entry `i*12 + j` is template `i` transposed up `j` semitones. */
  lemma TableEntryIsTransposition(i: int, j: int)
    requires 0 <= i < NUM_CHORD_TYPES && 0 <= j < 12
    ensures Transpose(A_ROOT_CHORDS[i], j) == Success(TableEntry(i * 12 + j))
  {
    TemplateIs(i);
    assert (i * 12 + j) / 12 == i && (i * 12 + j) % 12 == j;
  }

  /** The source's own transposition builds the same entry (the templates' root field is "A "). */
  lemma TableEntryAsWritten(i: int, j: int)
    requires 0 <= i < NUM_CHORD_TYPES && 0 <= j < 12
    ensures TransposeAsWritten(A_ROOT_CHORDS[i], j) == Success(TableEntry(i * 12 + j))
  {
    TemplatesShape(i);
    TableEntryIsTransposition(i, j);
    TransposeAgreesOnTemplates(A_ROOT_CHORDS[i], j);
  }

  /** Every entry of `t` has the struct's shape. */
  ghost predicate AllWellFormed(t: seq<Chord>)
  {
    forall k :: 0 <= k < |t| ==> WellFormed(t[k])
  }

  /** `t` holds the contents of `all_chords` once the dictionary is initialised. */
  ghost predicate IsTable(t: seq<Chord>)
  {
    |t| == TABLE_SIZE && forall k {:trigger TableEntry(k)} :: 0 <= k < TABLE_SIZE ==> t[k] == TableEntry(k)
  }

  lemma TableWellFormed(t: seq<Chord>)
    requires IsTable(t)
    ensures AllWellFormed(t)
  {
    forall k | 0 <= k < |t|
      ensures WellFormed(t[k])
    {
      assert t[k] == TableEntry(k);
    }
  }
}
