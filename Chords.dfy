/** Chords: the struct, the eleven templates on A, containment and transposition. */
module Chords {
  import opened Common
  import Helper

  const CHORD_NAME_SIZE := 15
  const CHORD_MAX_NOTES := 5
  const NUM_CHORD_TYPES := 11
  const TABLE_SIZE := NUM_CHORD_TYPES * 12
  const INT_MAX := 0x7fff_ffff

  /**
   * `struct chord`: `notes` is the fixed array of CHORD_MAX_NOTES pitch
   * classes (1 = A .. 12 = G#) of which the first `numNotes` are used, and
   * `name` the fixed NUL-padded character buffer.
   */
  datatype Chord = Chord(numNotes: int, notes: seq<int>, name: string)

  /** The array sizes of the struct; more than CHORD_MAX_NOTES used notes would overrun `notes`. */
  predicate WellFormed(c: Chord)
  {
    |c.notes| == CHORD_MAX_NOTES && |c.name| == CHORD_NAME_SIZE && c.numNotes <= CHORD_MAX_NOTES
  }

  /** A statically zero-initialised entry of `all_chords`. */
  const EMPTY_CHORD := Chord(0, [0, 0, 0, 0, 0], seq(CHORD_NAME_SIZE, _ => '\0'))

  /** Length of the C string held in `name`: the position of its first NUL. */
  function NameLength(name: string): (n: nat)
    ensures n <= |name|
    ensures forall k :: 0 <= k < n ==> name[k] != '\0'
    ensures n < |name| ==> name[n] == '\0'
  {
    if |name| == 0 || name[0] == '\0' then 0 else 1 + NameLength(name[1..])
  }

  /** A terminator at `n` with none before it fixes the length. */
  lemma NameLengthIs(name: string, n: nat)
    requires n < |name| && name[n] == '\0'
    requires forall k :: 0 <= k < n ==> name[k] != '\0'
    ensures NameLength(name) == n
  {
  }

  /** The C string held in a chord's name buffer. */
  function DisplayName(c: Chord): (s: string)
    ensures |s| == NameLength(c.name) && s == c.name[..|s|]
  {
    c.name[..NameLength(c.name)]
  }

  /**
   * The root-position templates, all rooted on A (pitch class 1), as their
   * aggregate initialisers leave them: unused notes are 0 and the name is
   * NUL-padded to CHORD_NAME_SIZE characters.
   */
  const A_ROOT_CHORDS: seq<Chord> := [
    Chord(4, [1, 5, 8, 3, 0], "A add9\0\0\0\0\0\0\0\0\0"),
    Chord(4, [1, 5, 8, 12, 0], "A Maj7\0\0\0\0\0\0\0\0\0"),
    Chord(4, [1, 4, 8, 11, 0], "A min7\0\0\0\0\0\0\0\0\0"),
    Chord(4, [1, 5, 8, 11, 0], "A dom7\0\0\0\0\0\0\0\0\0"),
    Chord(4, [1, 4, 8, 12, 0], "A minMaj7\0\0\0\0\0\0"),
    Chord(3, [1, 4, 7, 0, 0], "A dim\0\0\0\0\0\0\0\0\0\0"),
    Chord(3, [1, 6, 8, 0, 0], "A sus4\0\0\0\0\0\0\0\0\0"),
    Chord(3, [1, 3, 8, 0, 0], "A sus2\0\0\0\0\0\0\0\0\0"),
    Chord(3, [1, 5, 8, 0, 0], "A Maj\0\0\0\0\0\0\0\0\0\0"),
    Chord(3, [1, 4, 8, 0, 0], "A min\0\0\0\0\0\0\0\0\0\0"),
    Chord(2, [1, 8, 0, 0, 0], "A 5\0\0\0\0\0\0\0\0\0\0\0\0")
  ]

  /** What the dictionary relies on about a template. */
  predicate TemplateShaped(c: Chord)
  {
    WellFormed(c) && 2 <= c.numNotes && c.notes[0] == 1
    && (forall n :: 0 <= n < c.numNotes ==> 1 <= c.notes[n] <= 12)
    && c.name[0] == 'A' && c.name[1] == ' ' && c.name[CHORD_NAME_SIZE - 1] == '\0'
  }

  lemma TemplatesShape(i: int)
    requires 0 <= i < NUM_CHORD_TYPES
    ensures |A_ROOT_CHORDS| == NUM_CHORD_TYPES && TemplateShaped(A_ROOT_CHORDS[i])
  {
    if i < 4 {
      SeventhTemplatesShape(i);
    } else {
      TriadTemplatesShape(i);
    }
  }

  lemma SeventhTemplatesShape(i: int)
    requires 0 <= i < 4
    ensures TemplateShaped(A_ROOT_CHORDS[i])
  {
    if i == 0 { assert TemplateShaped(A_ROOT_CHORDS[0]); }
    else if i == 1 { assert TemplateShaped(A_ROOT_CHORDS[1]); }
    else if i == 2 { assert TemplateShaped(A_ROOT_CHORDS[2]); }
    else { assert TemplateShaped(A_ROOT_CHORDS[3]); }
  }

  lemma TriadTemplatesShape(i: int)
    requires 4 <= i < NUM_CHORD_TYPES
    ensures TemplateShaped(A_ROOT_CHORDS[i])
  {
    if i == 4 { assert TemplateShaped(A_ROOT_CHORDS[4]); }
    else if i == 5 { assert TemplateShaped(A_ROOT_CHORDS[5]); }
    else if i == 6 { assert TemplateShaped(A_ROOT_CHORDS[6]); }
    else if i == 7 { assert TemplateShaped(A_ROOT_CHORDS[7]); }
    else if i == 8 { assert TemplateShaped(A_ROOT_CHORDS[8]); }
    else if i == 9 { assert TemplateShaped(A_ROOT_CHORDS[9]); }
    else { assert TemplateShaped(A_ROOT_CHORDS[10]); }
  }

  // ---------------------------------------------------------------------
  // Membership
  // ---------------------------------------------------------------------

  /** Whether `x` is among the first `count` entries of `notes`. */
  function HasNote(notes: seq<int>, count: int, x: int): (b: bool)
    requires count <= |notes|
    ensures b <==> exists j :: 0 <= j < count && notes[j] == x
  {
    count > 0 && (notes[count - 1] == x || HasNote(notes, count - 1, x))
  }

  /** `chord::contains`: the queried notes, first to last, are each among the chord's used notes. */
  function Contains(c: Chord, query: seq<int>): bool
    requires WellFormed(c)
  {
    |query| == 0 || (HasNote(c.notes, c.numNotes, query[0]) && Contains(c, query[1..]))
  }

  /** `Contains` is the subset test: every queried note occurs among the chord's used notes. */
  lemma {:induction false} ContainsMeans(c: Chord, query: seq<int>)
    requires WellFormed(c)
    ensures Contains(c, query) <==> forall i :: 0 <= i < |query| ==>
                                      exists j :: 0 <= j < c.numNotes && c.notes[j] == query[i]
  {
    if |query| > 0 {
      ContainsMeans(c, query[1..]);
      assert forall i :: 1 <= i < |query| ==> query[i] == query[1..][i - 1];
    }
  }

  /** A Maj contains {1, 5} but not {1, 6}. */
  lemma ContainsExamples()
    ensures Contains(A_ROOT_CHORDS[8], [1, 5])
    ensures !Contains(A_ROOT_CHORDS[8], [1, 6])
  {
    TemplatesShape(8);
    var c := A_ROOT_CHORDS[8];
    assert c.notes[..3] == [1, 5, 8];
    assert c.notes[0] == 1 && c.notes[1] == 5 && c.notes[2] == 8;
    assert !HasNote(c.notes, 3, 6);
  }

  // ---------------------------------------------------------------------
  // Transposition
  // ---------------------------------------------------------------------

  /** Adding a multiple of 12 does not change the pitch class. */
  lemma ModTwelve(x: int, k: int)
    ensures (x + 12 * k) % 12 == x % 12
  {
    var q := x / 12;
    assert x == 12 * q + x % 12;
    assert x + 12 * k == 12 * (q + k) + x % 12;
  }

  /** The pitch class of `n` moved up `s` semitones (down when `s` is negative). */
  function PitchClassShift(n: int, s: int): (m: int)
    ensures 1 <= m <= 12
  {
    (n + s - 1) % 12 + 1
  }

  /**
   * `((n + s - 1) % 12 + 12) % 12 + 1` with C++ `%`: whatever the signs, it
   * computes the pitch-class shift, which the rest of the model uses.
   */
  function ShiftNote(n: int, s: int): (m: int)
    ensures m == PitchClassShift(n, s)
  {
    var a := TruncMod(n + s - 1, 12);
    var b := TruncMod(a + 12, 12);
    assert b == (a + 12) % 12 by {
      TruncAgreesOnNonNegative(a + 12, 12);
    }
    assert (a + 12) % 12 == (n + s - 1) % 12 by {
      ModTwelve(n + s - 1, 1 - TruncDiv(n + s - 1, 12));
    }
    b + 1
  }

  /**
   * Shifting by 0 keeps a pitch class, shifting twice is one shift by the
   * sum, and only the shift modulo 12 matters.
   */
  lemma PitchClassShiftLaws(n: int, s: int, t: int)
    ensures 1 <= n <= 12 ==> PitchClassShift(n, 0) == n
    ensures PitchClassShift(PitchClassShift(n, s), t) == PitchClassShift(n, s + t)
    ensures PitchClassShift(n, s) == PitchClassShift(n, s % 12)
  {
    var x := n + s - 1;
    ModTwelve(x + t, -(x / 12));
    assert x == 12 * (x / 12) + x % 12;
    ModTwelve(n + s % 12 - 1, s / 12);
  }

  /** The notes of `c` with the first `numNotes` shifted by `s`. */
  function ShiftNotes(c: Chord, s: int): (notes: seq<int>)
    requires WellFormed(c)
    ensures |notes| == CHORD_MAX_NOTES
    ensures forall i :: 0 <= i < c.numNotes ==> notes[i] == PitchClassShift(c.notes[i], s)
    ensures forall i :: 0 <= i < CHORD_MAX_NOTES && c.numNotes <= i ==> notes[i] == c.notes[i]
  {
    [ShiftUsed(c, 0, s), ShiftUsed(c, 1, s), ShiftUsed(c, 2, s), ShiftUsed(c, 3, s), ShiftUsed(c, 4, s)]
  }

  /** Note `i` of `c`, shifted by `s` when it is one of the used notes. */
  function ShiftUsed(c: Chord, i: int, s: int): int
    requires WellFormed(c) && 0 <= i < CHORD_MAX_NOTES
  {
    if i < c.numNotes then PitchClassShift(c.notes[i], s) else c.notes[i]
  }

  /** `d` is `c` with its used notes moved up `s` semitones and nothing else about the notes changed. */
  ghost predicate ShiftedBy(c: Chord, s: int, d: Chord)
    requires WellFormed(c)
  {
    WellFormed(d) && d.numNotes == c.numNotes
    && (forall i :: 0 <= i < c.numNotes ==> d.notes[i] == PitchClassShift(c.notes[i], s))
    && (forall i :: 0 <= i < CHORD_MAX_NOTES && c.numNotes <= i ==> d.notes[i] == c.notes[i])
  }

  /**
   * `transpose_chord` as written: invalid_argument outside [-11, 11]; the
   * used notes are shifted; the pitch name of the new first note is copied
   * over the start of the name (1 or 2 characters, no terminator), and
   * pitchName throws out_of_range when that note is not a pitch class,
   * which can only happen when no note is used.
   */
  function TransposeAsWritten(c: Chord, s: int): (r: Result<Chord>)
    requires WellFormed(c)
    ensures r.Failure? <==> s < -11 || s > 11 || (c.numNotes <= 0 && !(1 <= c.notes[0] <= 12))
    ensures r.Failure? ==> r.error == (if s < -11 || s > 11 then InvalidArgument else OutOfRange)
    ensures r.Success? ==> ShiftedBy(c, s, r.value)
    ensures r.Success? ==>
              var p := Helper.PitchName(r.value.notes[0]).value;
              r.value.name[..|p|] == p && r.value.name[|p|..] == c.name[|p|..]
  {
    if s < -11 || s > 11 then Failure(InvalidArgument)
    else
      var notes := ShiftNotes(c, s);
      match Helper.PitchName(notes[0])
      case Failure(e) => Failure(e)
      case Success(p) => Success(Chord(c.numNotes, notes, p + c.name[|p|..]))
  }

  /** The root pitch name in the two-character root field of a chord name. */
  function RootLabel(pitch: int): (field: string)
    requires 1 <= pitch <= 12
    ensures |field| == 2 && field[0] == Helper.PitchName(pitch).value[0]
    ensures field[1] == (if |Helper.PitchName(pitch).value| == 2 then '#' else ' ')
  {
    var p := Helper.PitchName(pitch).value;
    if |p| == 2 then p else p + " "
  }

  /**
   * `transpose_chord` with the whole two-character root field rewritten, so
   * that a sharp left by an earlier root does not survive a natural one.
   * On the templates, whose root field is "A ", it agrees with the source
   * (TransposeAgreesOnTemplates).
   */
  function Transpose(c: Chord, s: int): (r: Result<Chord>)
    requires WellFormed(c)
    ensures r.Failure? <==> s < -11 || s > 11 || (c.numNotes <= 0 && !(1 <= c.notes[0] <= 12))
    ensures r.Failure? ==> r.error == (if s < -11 || s > 11 then InvalidArgument else OutOfRange)
    ensures r.Success? ==> ShiftedBy(c, s, r.value)
    ensures r.Success? ==> r.value.name[..2] == RootLabel(r.value.notes[0]) && r.value.name[2..] == c.name[2..]
  {
    if s < -11 || s > 11 then Failure(InvalidArgument)
    else
      var notes := ShiftNotes(c, s);
      if notes[0] < 1 || notes[0] > 12 then Failure(OutOfRange)
      else Success(Chord(c.numNotes, notes, RootLabel(notes[0]) + c.name[2..]))
  }

  /** Where the second character of the name is the blank of the root field, both transpositions agree. */
  lemma TransposeAgreesOnTemplates(c: Chord, s: int)
    requires WellFormed(c) && c.name[1] == ' '
    ensures TransposeAsWritten(c, s) == Transpose(c, s)
  {
    if -11 <= s <= 11 {
      var notes := ShiftNotes(c, s);
      if 1 <= notes[0] <= 12 {
        var p := Helper.PitchName(notes[0]).value;
        assert p + c.name[|p|..] == RootLabel(notes[0]) + c.name[2..];
      }
    }
  }

  /** Transposing twice is one transposition by the sum of the shifts, name included. */
  lemma TransposeComposes(c: Chord, s: int, t: int)
    requires WellFormed(c) && c.numNotes >= 1
    requires -11 <= s <= 11 && -11 <= t <= 11
    ensures Transpose(c, s).Success?
    ensures Transpose(Transpose(c, s).value, t) == Transpose(c, (s + t) % 12)
  {
    var once := Transpose(c, s).value;
    var twice := Transpose(once, t).value;
    var direct := Transpose(c, (s + t) % 12).value;
    ShiftsCompose(c, s, once, t, twice, direct);
    assert twice.name == RootLabel(twice.notes[0]) + c.name[2..];
  }

  /** Two shifts of the used notes are one shift by the sum modulo 12. */
  lemma ShiftsCompose(c: Chord, s: int, once: Chord, t: int, twice: Chord, direct: Chord)
    requires WellFormed(c) && ShiftedBy(c, s, once) && ShiftedBy(once, t, twice)
    requires ShiftedBy(c, (s + t) % 12, direct)
    ensures twice.notes == direct.notes
  {
    forall i | 0 <= i < CHORD_MAX_NOTES
      ensures twice.notes[i] == direct.notes[i]
    {
      if i < c.numNotes {
        PitchClassShiftLaws(c.notes[i], s, t);
        PitchClassShiftLaws(c.notes[i], s + t, 0);
      }
    }
  }

  /** A Maj moved up `s` semitones by the source: its notes, and its name start. */
  lemma TransposeAMaj(s: int)
    requires -11 <= s <= 11
    ensures var r := TransposeAsWritten(A_ROOT_CHORDS[8], s);
            r.Success? && r.value.numNotes == 3
            && r.value.notes[..3] == [PitchClassShift(1, s), PitchClassShift(5, s), PitchClassShift(8, s)]
            && r.value.name == Helper.PitchName(PitchClassShift(1, s)).value + "A Maj\0\0\0\0\0\0\0\0\0\0"[|Helper.PitchName(PitchClassShift(1, s)).value|..]
  {
    var c := A_ROOT_CHORDS[8];
    assert c == Chord(3, [1, 5, 8, 0, 0], "A Maj\0\0\0\0\0\0\0\0\0\0");
    var r := TransposeAsWritten(c, s).value;
    assert r.notes[..3] == [r.notes[0], r.notes[1], r.notes[2]];
  }

  /** Shifting a template by 0 leaves it as it is. */
  lemma TransposeTemplateByZero(c: Chord)
    requires TemplateShaped(c)
    ensures Transpose(c, 0) == Success(c)
  {
    var e := Transpose(c, 0).value;
    forall n | 0 <= n < CHORD_MAX_NOTES
      ensures e.notes[n] == c.notes[n]
    {
      if n < c.numNotes {
        PitchClassShiftLaws(c.notes[n], 0, 0);
      }
    }
    assert e.notes == c.notes;
    assert Helper.PitchName(1) == Success("A");
    assert RootLabel(1) == "A " == c.name[..2];
    assert e.name == c.name[..2] + c.name[2..] == c.name;
  }

  lemma TemplateTransposedByZero(i: int)
    requires 0 <= i < NUM_CHORD_TYPES
    ensures Transpose(A_ROOT_CHORDS[i], 0) == Success(A_ROOT_CHORDS[i])
  {
    TemplatesShape(i);
    TransposeTemplateByZero(A_ROOT_CHORDS[i]);
  }

  /** A Maj moved up two semitones is B Maj. */
  lemma MajorUpTwo()
    ensures TransposeAsWritten(A_ROOT_CHORDS[8], 2) == Success(Chord(3, [3, 7, 10, 0, 0], "B Maj\0\0\0\0\0\0\0\0\0\0"))
  {
    assert Helper.PitchName(3) == Success("B");
    assert ShiftNotes(A_ROOT_CHORDS[8], 2) == [3, 7, 10, 0, 0];
    assert "B" + A_ROOT_CHORDS[8].name[1..] == "B Maj\0\0\0\0\0\0\0\0\0\0";
  }

  /** A Maj moved up one semitone is A# Maj. */
  lemma MajorUpOne()
    ensures TransposeAsWritten(A_ROOT_CHORDS[8], 1) == Success(Chord(3, [2, 6, 9, 0, 0], "A#Maj\0\0\0\0\0\0\0\0\0\0"))
  {
    assert Helper.PitchName(2) == Success("A#");
    assert ShiftNotes(A_ROOT_CHORDS[8], 1) == [2, 6, 9, 0, 0];
    assert "A#" + A_ROOT_CHORDS[8].name[2..] == "A#Maj\0\0\0\0\0\0\0\0\0\0";
  }

  /** A Maj moved down eleven semitones is A# Maj as well. */
  lemma MajorDownEleven()
    ensures TransposeAsWritten(A_ROOT_CHORDS[8], -11) == Success(Chord(3, [2, 6, 9, 0, 0], "A#Maj\0\0\0\0\0\0\0\0\0\0"))
  {
    assert Helper.PitchName(2) == Success("A#");
    assert ShiftNotes(A_ROOT_CHORDS[8], -11) == [2, 6, 9, 0, 0];
    assert "A#" + A_ROOT_CHORDS[8].name[2..] == "A#Maj\0\0\0\0\0\0\0\0\0\0";
  }

  /** A Maj moved by 0 is A Maj, and moves of 12 either way are refused. */
  lemma MajorByZeroAndTwelve()
    ensures TransposeAsWritten(A_ROOT_CHORDS[8], 0) == Success(A_ROOT_CHORDS[8])
    ensures TransposeAsWritten(A_ROOT_CHORDS[8], 12) == Failure(InvalidArgument)
    ensures TransposeAsWritten(A_ROOT_CHORDS[8], -12) == Failure(InvalidArgument)
  {
    TemplatesShape(8);
    TransposeAgreesOnTemplates(A_ROOT_CHORDS[8], 0);
    TransposeTemplateByZero(A_ROOT_CHORDS[8]);
  }

  /** The source moves A# Maj up one semitone to a name buffer reading "B#Maj". */
  lemma SharpMajorUpOne()
    ensures TransposeAsWritten(Chord(3, [2, 6, 9, 0, 0], "A#Maj\0\0\0\0\0\0\0\0\0\0"), 1) == Success(Chord(3, [3, 7, 10, 0, 0], "B#Maj\0\0\0\0\0\0\0\0\0\0"))
  {
    var c := Chord(3, [2, 6, 9, 0, 0], "A#Maj\0\0\0\0\0\0\0\0\0\0");
    assert ShiftNotes(c, 1) == [3, 7, 10, 0, 0];
    assert Helper.PitchName(3) == Success("B");
    assert "B" + c.name[1..] == "B#Maj\0\0\0\0\0\0\0\0\0\0";
  }

  /**
   * Moving A Maj up one semitone twice with the source's transposition
   * leaves the sharp of A# behind ("B#Maj"), while moving it up two
   * semitones at once gives "B Maj": the same notes under two names.
   */
  lemma TransposeTwiceAsWritten()
    ensures TransposeAsWritten(A_ROOT_CHORDS[8], 1).Success?
    ensures TransposeAsWritten(TransposeAsWritten(A_ROOT_CHORDS[8], 1).value, 1) == Success(Chord(3, [3, 7, 10, 0, 0], "B#Maj\0\0\0\0\0\0\0\0\0\0"))
    ensures TransposeAsWritten(A_ROOT_CHORDS[8], 2) == Success(Chord(3, [3, 7, 10, 0, 0], "B Maj\0\0\0\0\0\0\0\0\0\0"))
  {
    MajorUpOne();
    SharpMajorUpOne();
    MajorUpTwo();
  }

  /** With the whole root field rewritten, moving up one semitone twice is moving up two. */
  lemma TransposeTwiceCorrected()
    ensures Transpose(A_ROOT_CHORDS[8], 1).Success?
    ensures Transpose(Transpose(A_ROOT_CHORDS[8], 1).value, 1) == Transpose(A_ROOT_CHORDS[8], 2)
    ensures Transpose(A_ROOT_CHORDS[8], 2) == Success(Chord(3, [3, 7, 10, 0, 0], "B Maj\0\0\0\0\0\0\0\0\0\0"))
  {
    TemplatesShape(8);
    TransposeComposes(A_ROOT_CHORDS[8], 1, 1);
    TransposeAgreesOnTemplates(A_ROOT_CHORDS[8], 2);
    MajorUpTwo();
  }
}
