/** The chord dictionary: the table lookup that names a set of pitch classes. */
module ChordDictionary {
  import opened Common
  import opened Chords
  import opened ChordTable

  /**
   * Entry `b` of the table `t` is a best match for `query`: it contains
   * every queried note, no containing entry has fewer notes, and it has
   * the queried root whenever some containing entry of that size does.
   */
  ghost predicate IsBestMatch(t: seq<Chord>, query: seq<int>, b: int)
  {
    AllWellFormed(t) && |query| > 0 && 0 <= b < |t| && Contains(t[b], query)
    && (forall k :: 0 <= k < |t| && Contains(t[k], query) ==> t[b].numNotes <= t[k].numNotes)
    && ((exists k :: 0 <= k < |t| && Contains(t[k], query) && t[k].numNotes == t[b].numNotes && t[k].notes[0] == query[0])
        ==> t[b].notes[0] == query[0])
  }

  /** An entry with fewer than 3 used notes cannot hold 3 different pitch classes. */
  lemma ThreeNotesNeedThree(c: Chord, query: seq<int>)
    requires WellFormed(c) && Contains(c, query)
    requires |query| >= 3 && query[0] != query[1] && query[0] != query[2] && query[1] != query[2]
    ensures c.numNotes >= 3
  {
    ContainsMeans(c, query);
    var j0 :| 0 <= j0 < c.numNotes && c.notes[j0] == query[0];
    var j1 :| 0 <= j1 < c.numNotes && c.notes[j1] == query[1];
    var j2 :| 0 <= j2 < c.numNotes && c.notes[j2] == query[2];
  }

  /** An entry with fewer than 4 used notes cannot hold 4 different pitch classes. */
  lemma FourNotesNeedFour(c: Chord, query: seq<int>)
    requires WellFormed(c) && Contains(c, query) && |query| >= 4
    requires query[0] != query[1] && query[0] != query[2] && query[0] != query[3]
    requires query[1] != query[2] && query[1] != query[3] && query[2] != query[3]
    ensures c.numNotes >= 4
  {
    ContainsMeans(c, query);
    var j0 :| 0 <= j0 < c.numNotes && c.notes[j0] == query[0];
    var j1 :| 0 <= j1 < c.numNotes && c.notes[j1] == query[1];
    var j2 :| 0 <= j2 < c.numNotes && c.notes[j2] == query[2];
    var j3 :| 0 <= j3 < c.numNotes && c.notes[j3] == query[3];
  }

  /** In the table, {1, 5, 8} is best matched by A Maj, and by it alone; the source names it "A Maj". */
  lemma IdentifyMajor(t: seq<Chord>)
    requires IsTable(t)
    ensures IsBestMatch(t, [1, 5, 8], 8 * 12) && DisplayName(t[8 * 12]) == "A Maj"
    ensures forall b :: IsBestMatch(t, [1, 5, 8], b) ==> b == 8 * 12
  {
    var q: seq<int> := [1, 5, 8];
    TableWellFormed(t);
    assert t[8 * 12] == TableEntry(8 * 12);
    MajorEntryContains();
    MajorEntryName();
    forall k | 0 <= k < |t| && Contains(t[k], q)
      ensures t[8 * 12].numNotes <= t[k].numNotes
    {
      ThreeNotesNeedThree(t[k], q);
    }
    forall b | IsBestMatch(t, q, b)
      ensures b == 8 * 12
    {
      OnlyMajorBestMatches(t, b);
    }
  }

  lemma OnlyMajorBestMatches(t: seq<Chord>, b: int)
    requires IsTable(t) && IsBestMatch(t, [1, 5, 8], b)
    ensures b == 8 * 12
  {
    var q: seq<int> := [1, 5, 8];
    assert t[8 * 12] == TableEntry(8 * 12);
    MajorEntryContains();
    ThreeNotesNeedThree(t[b], q);
    assert t[b] == TableEntry(b);
    EntryRootedOnA(b);
    MajorTriadTemplate(b / 12);
  }

  /** In the table, {1, 5, 8, 12} is best matched by A Maj7, and by it alone; the source names it "A Maj7". */
  lemma IdentifyMajorSeventh(t: seq<Chord>)
    requires IsTable(t)
    ensures IsBestMatch(t, [1, 5, 8, 12], 1 * 12) && DisplayName(t[1 * 12]) == "A Maj7"
    ensures forall b :: IsBestMatch(t, [1, 5, 8, 12], b) ==> b == 1 * 12
  {
    var q: seq<int> := [1, 5, 8, 12];
    TableWellFormed(t);
    assert t[1 * 12] == TableEntry(1 * 12);
    MajorSeventhEntryContains();
    MajorSeventhEntryName();
    forall k | 0 <= k < |t| && Contains(t[k], q)
      ensures t[1 * 12].numNotes <= t[k].numNotes
    {
      FourNotesNeedFour(t[k], q);
    }
    forall b | IsBestMatch(t, q, b)
      ensures b == 1 * 12
    {
      OnlyMajorSeventhBestMatches(t, b);
    }
  }

  lemma OnlyMajorSeventhBestMatches(t: seq<Chord>, b: int)
    requires IsTable(t) && IsBestMatch(t, [1, 5, 8, 12], b)
    ensures b == 1 * 12
  {
    var q: seq<int> := [1, 5, 8, 12];
    assert t[1 * 12] == TableEntry(1 * 12);
    MajorSeventhEntryContains();
    FourNotesNeedFour(t[b], q);
    assert t[b] == TableEntry(b);
    EntryRootedOnA(b);
    MajorSeventhTemplate(b / 12);
  }

  /** An entry whose root is A is its template in root position. */
  lemma EntryRootedOnA(k: int)
    requires 0 <= k < TABLE_SIZE && TableEntry(k).notes[0] == 1
    ensures k % 12 == 0 && TableEntry(k) == Template(k / 12)
  {
    var i := k / 12;
    assert k == i * 12 + 0;
    TableEntryIsTransposition(i, 0);
    TemplateTransposedByZero(i);
    TemplateIs(i);
  }

  /** Template 8, A Maj, is the one with three notes that holds {1, 5, 8}. */
  lemma MajorTriadTemplate(i: int)
    requires 0 <= i < NUM_CHORD_TYPES
    ensures Template(i).numNotes == 3 && Contains(Template(i), [1, 5, 8]) <==> i == 8
  {
    TemplateIs(i);
    MajorTriadTemplates(i);
  }

  /** Template 1, A Maj7, is the one with four notes that holds {1, 5, 8, 12}. */
  lemma MajorSeventhTemplate(i: int)
    requires 0 <= i < NUM_CHORD_TYPES
    ensures Template(i).numNotes == 4 && Contains(Template(i), [1, 5, 8, 12]) <==> i == 1
  {
    TemplateIs(i);
    MajorSeventhTemplates(i);
  }

  /** Among the templates, A Maj is the one with three notes that holds {1, 5, 8}. */
  lemma MajorTriadTemplates(i: int)
    requires 0 <= i < NUM_CHORD_TYPES
    ensures var c := A_ROOT_CHORDS[i];
            WellFormed(c) && c.numNotes == 3 && Contains(c, [1, 5, 8]) <==> i == 8
  {
    if i < 5 {
      SeventhOrNinthTemplateSize(i);
    } else if i == 5 {
      assert !HasNote(A_ROOT_CHORDS[5].notes, 3, 5);
    } else if i == 6 {
      assert !HasNote(A_ROOT_CHORDS[6].notes, 3, 5);
    } else if i == 7 {
      assert !HasNote(A_ROOT_CHORDS[7].notes, 3, 5);
    } else if i == 8 {
      assert Contains(A_ROOT_CHORDS[8], [1, 5, 8]);
    } else if i == 9 {
      assert !HasNote(A_ROOT_CHORDS[9].notes, 3, 5);
    } else {
      assert A_ROOT_CHORDS[10].numNotes == 2;
    }
  }

  /** Among the templates, A Maj7 is the one with four notes that holds {1, 5, 8, 12}. */
  lemma MajorSeventhTemplates(i: int)
    requires 0 <= i < NUM_CHORD_TYPES
    ensures var c := A_ROOT_CHORDS[i];
            WellFormed(c) && c.numNotes == 4 && Contains(c, [1, 5, 8, 12]) <==> i == 1
  {
    if i == 0 {
      assert !HasNote(A_ROOT_CHORDS[0].notes, 4, 12);
    } else if i == 1 {
      assert Contains(A_ROOT_CHORDS[1], [1, 5, 8, 12]);
    } else if i == 2 {
      assert !HasNote(A_ROOT_CHORDS[2].notes, 4, 5);
    } else if i == 3 {
      assert !HasNote(A_ROOT_CHORDS[3].notes, 4, 12);
    } else if i == 4 {
      assert !HasNote(A_ROOT_CHORDS[4].notes, 4, 5);
    } else {
      TriadTemplateSize(i);
    }
  }

  lemma SeventhOrNinthTemplateSize(i: int)
    requires 0 <= i < 5
    ensures A_ROOT_CHORDS[i].numNotes == 4
  {
    if i == 0 { assert A_ROOT_CHORDS[0].numNotes == 4; }
    else if i == 1 { assert A_ROOT_CHORDS[1].numNotes == 4; }
    else if i == 2 { assert A_ROOT_CHORDS[2].numNotes == 4; }
    else if i == 3 { assert A_ROOT_CHORDS[3].numNotes == 4; }
    else { assert A_ROOT_CHORDS[4].numNotes == 4; }
  }

  lemma TriadTemplateSize(i: int)
    requires 5 <= i < NUM_CHORD_TYPES
    ensures A_ROOT_CHORDS[i].numNotes <= 3
  {
    if i == 5 { assert A_ROOT_CHORDS[5].numNotes == 3; }
    else if i == 6 { assert A_ROOT_CHORDS[6].numNotes == 3; }
    else if i == 7 { assert A_ROOT_CHORDS[7].numNotes == 3; }
    else if i == 8 { assert A_ROOT_CHORDS[8].numNotes == 3; }
    else if i == 9 { assert A_ROOT_CHORDS[9].numNotes == 3; }
    else { assert A_ROOT_CHORDS[10].numNotes == 2; }
  }

  /** Entry 96 is the A Maj template. */
  lemma MajorEntry()
    ensures TableEntry(8 * 12) == Chord(3, [1, 5, 8, 0, 0], "A Maj\0\0\0\0\0\0\0\0\0\0")
  {
    TableEntryIsTransposition(8, 0);
    TemplateTransposedByZero(8);
  }

  /** Entry 12 is the A Maj7 template. */
  lemma MajorSeventhEntry()
    ensures TableEntry(1 * 12) == Chord(4, [1, 5, 8, 12, 0], "A Maj7\0\0\0\0\0\0\0\0\0")
  {
    TableEntryIsTransposition(1, 0);
    TemplateTransposedByZero(1);
  }

  lemma MajorEntryContains()
    ensures Contains(TableEntry(8 * 12), [1, 5, 8]) && TableEntry(8 * 12).numNotes == 3
  {
    MajorEntry();
    MajorChord(TableEntry(8 * 12));
  }

  lemma MajorEntryName()
    ensures DisplayName(TableEntry(8 * 12)) == "A Maj"
  {
    PaddedName("A Maj\0\0\0\0\0\0\0\0\0\0", "A Maj");
    MajorEntry();
  }

  lemma MajorChord(c: Chord)
    requires c == Chord(3, [1, 5, 8, 0, 0], "A Maj\0\0\0\0\0\0\0\0\0\0")
    ensures Contains(c, [1, 5, 8]) && c.numNotes == 3
  {
  }

  lemma MajorSeventhEntryContains()
    ensures Contains(TableEntry(1 * 12), [1, 5, 8, 12]) && TableEntry(1 * 12).numNotes == 4
  {
    MajorSeventhEntry();
    MajorSeventhChord(TableEntry(1 * 12));
  }

  lemma MajorSeventhEntryName()
    ensures DisplayName(TableEntry(1 * 12)) == "A Maj7"
  {
    PaddedName("A Maj7\0\0\0\0\0\0\0\0\0", "A Maj7");
    MajorSeventhEntry();
  }

  lemma MajorSeventhChord(c: Chord)
    requires c == Chord(4, [1, 5, 8, 12, 0], "A Maj7\0\0\0\0\0\0\0\0\0")
    ensures Contains(c, [1, 5, 8, 12]) && c.numNotes == 4
  {
  }

  /** Entry 11 is A add9 moved up eleven semitones: G# add9. */
  lemma EntryEleven()
    ensures TableEntry(11) == Chord(4, [12, 4, 7, 2, 0], "G#add9\0\0\0\0\0\0\0\0\0")
  {
    var t := A_ROOT_CHORDS[0];
    TableEntryIsTransposition(0, 11);
    assert ShiftNotes(t, 11) == [12, 4, 7, 2, 0];
    assert Helper.PitchName(12) == Success("G#");
    assert RootLabel(12) + t.name[2..] == "G#add9\0\0\0\0\0\0\0\0\0";
  }

  /** {2, 4, 7} is not unmatched: G#add9, entry 11, holds all three notes. */
  lemma SomeEntryContains247()
    ensures Contains(TableEntry(11), [2, 4, 7])
  {
    EntryEleven();
    SharpAdd9Chord(TableEntry(11));
  }

  /** The source names entry 11 "G#add9". */
  lemma EntryElevenName()
    ensures DisplayName(TableEntry(11)) == "G#add9"
  {
    PaddedName("G#add9\0\0\0\0\0\0\0\0\0", "G#add9");
    EntryEleven();
  }

  lemma SharpAdd9Chord(c: Chord)
    requires c == Chord(4, [12, 4, 7, 2, 0], "G#add9\0\0\0\0\0\0\0\0\0")
    ensures Contains(c, [2, 4, 7])
  {
  }

  /**
   * What the candidate and filtering loops establish over the table makes
   * their result a best match.
   */
  lemma SelectionIsBestMatch(t: seq<Chord>, query: seq<int>, candidates: seq<int>, best: int)
    requires AllWellFormed(t) && |query| > 0
    requires forall k :: 0 <= k < |t| && Contains(t[k], query) ==> k in candidates
    requires best in candidates && 0 <= best < |t| && Contains(t[best], query)
    requires forall p :: 0 <= p < |candidates| ==> 0 <= candidates[p] < |t|
    requires forall p :: 0 <= p < |candidates| ==> t[best].numNotes <= t[candidates[p]].numNotes
    requires query[0] != t[best].notes[0] ==>
               forall p :: 0 <= p < |candidates| && t[candidates[p]].numNotes == t[best].numNotes
                 ==> t[candidates[p]].notes[0] != query[0]
    ensures IsBestMatch(t, query, best)
  {
    forall k | 0 <= k < |t| && Contains(t[k], query)
      ensures t[best].numNotes <= t[k].numNotes
    {
      var p :| 0 <= p < |candidates| && candidates[p] == k;
    }
  }

  /** `all_chords` with the `chord_dictionary_initialized` flag. */
  class Dictionary {
    var initialized: bool
    const allChords: array<Chord>

    ghost predicate Valid()
      reads this, allChords
    {
      allChords.Length == TABLE_SIZE && AllWellFormed(allChords[..])
      && (initialized ==> IsTable(allChords[..]))
    }

    /** Program start: the flag is clear and every entry is zero. */
    constructor ()
      ensures Valid() && !initialized && fresh(allChords)
      ensures forall k :: 0 <= k < allChords.Length ==> allChords[k] == EMPTY_CHORD
    {
      initialized := false;
      allChords := new Chord[TABLE_SIZE](_ => EMPTY_CHORD);
    }

    /**
     * `initialize_chord_dictionary`: fills every entry with its transposed
     * template and sets the flag; a second call changes nothing.
     */
    method Initialize()
      requires Valid()
      modifies this, allChords
      ensures Valid() && initialized && IsTable(allChords[..])
      ensures old(initialized) ==> unchanged(allChords)
    {
      if initialized {
        return;
      }
      for i := 0 to NUM_CHORD_TYPES
        invariant forall k :: 0 <= k < i * 12 ==> allChords[k] == TableEntry(k)
      {
        for j := 0 to 12
          invariant forall k :: 0 <= k < i * 12 + j ==> allChords[k] == TableEntry(k)
        {
          var entry := TransposedTemplate(i, j);
          allChords[i * 12 + j] := entry;
        }
      }
      initialized := true;
      assert IsTable(allChords[..]);
      TableWellFormed(allChords[..]);
    }

    /** The loop body of `initialize_chord_dictionary`: template `i` moved up `j` semitones. */
    static method TransposedTemplate(i: int, j: int) returns (entry: Chord)
      requires 0 <= i < NUM_CHORD_TYPES && 0 <= j < 12
      ensures entry == TableEntry(i * 12 + j)
    {
      TemplatesShape(i);
      TableEntryAsWritten(i, j);
      entry := TransposeAsWritten(A_ROOT_CHORDS[i], j).value;
    }

    /** The candidate loop: the indices of every entry containing `query`, in table order. */
    method FindCandidates(query: seq<int>) returns (candidates: seq<int>)
      requires AllWellFormed(allChords[..])
      ensures forall p :: 0 <= p < |candidates| ==>
                0 <= candidates[p] < allChords.Length && Contains(allChords[candidates[p]], query)
      ensures forall p, q :: 0 <= p < q < |candidates| ==> candidates[p] < candidates[q]
      ensures forall k :: 0 <= k < allChords.Length && Contains(allChords[k], query) ==> k in candidates
    {
      candidates := [];
      for i := 0 to allChords.Length
        invariant forall p :: 0 <= p < |candidates| ==>
                    0 <= candidates[p] < i && Contains(allChords[candidates[p]], query)
        invariant forall p, q :: 0 <= p < q < |candidates| ==> candidates[p] < candidates[q]
        invariant forall k :: 0 <= k < i && Contains(allChords[k], query) ==> k in candidates
      {
        if Contains(allChords[i], query) {
          candidates := candidates + [i];
        }
      }
    }

    /**
     * The filtering loop: a candidate with fewer notes than the best so
     * far, or with as many and the queried root, becomes the best. The best
     * is a candidate of the fewest notes, and has the queried root whenever
     * a candidate of that size does.
     */
    method SelectBest(candidates: seq<int>, root: int) returns (best: int)
      requires AllWellFormed(allChords[..])
      requires forall p :: 0 <= p < |candidates| ==> 0 <= candidates[p] < allChords.Length
      ensures |candidates| == 0 ==> best == -1
      ensures |candidates| > 0 ==> best in candidates
      ensures |candidates| > 0 ==>
                forall p :: 0 <= p < |candidates| ==> allChords[best].numNotes <= allChords[candidates[p]].numNotes
      ensures |candidates| > 0 && root != allChords[best].notes[0] ==>
                forall p :: 0 <= p < |candidates| && allChords[candidates[p]].numNotes == allChords[best].numNotes
                  ==> allChords[candidates[p]].notes[0] != root
    {
      best := -1;
      var minSize := INT_MAX;
      for i := 0 to |candidates|
        invariant i == 0 ==> best == -1 && minSize == INT_MAX
        invariant i > 0 ==> best in candidates[..i] && minSize == allChords[best].numNotes
        invariant forall p :: 0 <= p < i ==> minSize <= allChords[candidates[p]].numNotes
        invariant i > 0 && root != allChords[best].notes[0] ==>
                    forall p :: 0 <= p < i && allChords[candidates[p]].numNotes == minSize
                      ==> allChords[candidates[p]].notes[0] != root
      {
        var c := candidates[i];
        if allChords[c].numNotes < minSize || (allChords[c].numNotes == minSize && allChords[c].notes[0] == root) {
          best := c;
          minSize := allChords[c].numNotes;
        }
        assert candidates[..i + 1] == candidates[..i] + [candidates[i]];
      }
      assert candidates[..|candidates|] == candidates;
    }

    /**
     * The copy at the end of `identify_chord`: the characters of `name` up
     * to its terminator, then the terminator, are written to the front of
     * `nameOut`; the rest of `nameOut` is left alone.
     */
    static method CopyName(nameOut: array<char>, name: string) returns (length: int)
      requires NameLength(name) < |name| && |name| <= nameOut.Length
      modifies nameOut
      ensures length == NameLength(name)
      ensures nameOut[..length] == name[..length] && nameOut[length] == '\0'
      ensures forall k :: length < k < nameOut.Length ==> nameOut[k] == old(nameOut[k])
    {
      length := 0;
      while name[length] != '\0'
        invariant 0 <= length <= NameLength(name)
        invariant nameOut[..length] == name[..length]
        invariant forall k :: length <= k < nameOut.Length ==> nameOut[k] == old(nameOut[k])
        decreases NameLength(name) - length
      {
        nameOut[length] := name[length];
        length := length + 1;
      }
      nameOut[length] := '\0';
    }

    /**
     * `identify_chord`: invalid_argument for a missing output buffer, lazy
     * initialisation, invalid_argument for an empty query; 0 when no entry
     * contains the query, otherwise the best match's name copied into
     * `nameOut` with its terminator, and its length.
     */
    method Identify(nameOut: array?<char>, notes: array<int>, numNotes: int) returns (r: Result<int>, ghost best: int)
      requires Valid() && numNotes <= notes.Length
      requires nameOut != null ==> nameOut.Length >= CHORD_NAME_SIZE
      modifies this, allChords, nameOut
      ensures Valid()
      ensures nameOut == null ==> r == Failure(InvalidArgument) && initialized == old(initialized) && unchanged(allChords)
      ensures nameOut != null ==> initialized && IsTable(allChords[..])
      ensures nameOut != null && numNotes <= 0 ==> r == Failure(InvalidArgument)
      ensures nameOut != null && numNotes > 0 ==> r.Success?
      ensures r.Success? ==> 0 <= r.value < CHORD_NAME_SIZE
      ensures r.Success? ==> (r.value == 0 <==> forall k :: 0 <= k < TABLE_SIZE ==> !Contains(allChords[k], notes[..numNotes]))
      ensures r.Success? && r.value > 0 ==> (nameOut != null && numNotes > 0 &&
                IsBestMatch(allChords[..], notes[..numNotes], best)
                && r.value == NameLength(allChords[best].name) && r.value < CHORD_NAME_SIZE
                && nameOut[..r.value] == allChords[best].name[..r.value] && nameOut[r.value] == '\0'
                && forall k :: r.value < k < nameOut.Length ==> nameOut[k] == old(nameOut[k]))
      ensures nameOut != null && (r.Failure? || r.value == 0) ==> unchanged(nameOut)
    {
      best := -1;
      if nameOut == null {
        return Failure(InvalidArgument), best;
      }
      if !initialized {
        Initialize();
      }
      if numNotes <= 0 {
        return Failure(InvalidArgument), best;
      }
      var query := notes[..numNotes];
      var candidates := FindCandidates(query);
      if |candidates| == 0 {
        return Success(0), best;
      }
      var chosen := SelectBest(candidates, notes[0]);
      assert allChords[chosen] == TableEntry(chosen);
      SelectionIsBestMatch(allChords[..], query, candidates, chosen);
      var length := CopyName(nameOut, allChords[chosen].name);
      return Success(length), chosen;
    }
  }

  /**
   * The dictionary's own test: once the table is initialised, {1, 5, 8} is
   * identified as "A Maj" and {1, 5, 8, 12} as "A Maj7", and each call
   * returns the length of the name it writes.
   */
  method IdentifyChordTest() returns (len1: Result<int>, name1: string, len2: Result<int>, name2: string)
    ensures len1 == Success(5) && name1 == "A Maj"
    ensures len2 == Success(6) && name2 == "A Maj7"
  {
    var d := new Dictionary();
    d.Initialize();
    var chordName := new char[20];
    var notes1 := new int[3];
    notes1[0], notes1[1], notes1[2] := 1, 5, 8;
    var notes2 := new int[4];
    notes2[0], notes2[1], notes2[2], notes2[3] := 1, 5, 8, 12;
    len1 := IdentifyMajorCall(d, chordName, notes1);
    name1 := chordName[..NameLength(chordName[..])];
    len2 := IdentifyMajorSeventhCall(d, chordName, notes2);
    name2 := chordName[..NameLength(chordName[..])];
  }

  /** `identify_chord` on {1, 5, 8} writes "A Maj" and returns 5. */
  method IdentifyMajorCall(d: Dictionary, nameOut: array<char>, notes: array<int>) returns (r: Result<int>)
    requires d.Valid() && nameOut.Length >= CHORD_NAME_SIZE && notes[..] == [1, 5, 8]
    modifies d, d.allChords, nameOut
    ensures d.Valid() && d.initialized && unchanged(notes)
    ensures r == Success(5) && nameOut[..NameLength(nameOut[..])] == "A Maj"
  {
    ghost var best;
    r, best := d.Identify(nameOut, notes, 3);
    assert notes[..3] == [1, 5, 8];
    MajorCallResult(d.allChords[..], r.value, best, nameOut[..]);
  }

  /** `identify_chord` on {1, 5, 8, 12} writes "A Maj7" and returns 6. */
  method IdentifyMajorSeventhCall(d: Dictionary, nameOut: array<char>, notes: array<int>) returns (r: Result<int>)
    requires d.Valid() && nameOut.Length >= CHORD_NAME_SIZE && notes[..] == [1, 5, 8, 12]
    modifies d, d.allChords, nameOut
    ensures d.Valid() && d.initialized && unchanged(notes)
    ensures r == Success(6) && nameOut[..NameLength(nameOut[..])] == "A Maj7"
  {
    ghost var best;
    r, best := d.Identify(nameOut, notes, 4);
    assert notes[..4] == [1, 5, 8, 12];
    MajorSeventhCallResult(d.allChords[..], r.value, best, nameOut[..]);
  }

  /** What `identify_chord` promises for [1, 5, 8] fixes its result: "A Maj", of length 5. */
  lemma MajorCallResult(t: seq<Chord>, length: int, best: int, out: string)
    requires IsTable(t) && AllWellFormed(t) && 0 <= length
    requires length == 0 <==> forall k :: 0 <= k < TABLE_SIZE ==> !Contains(t[k], [1, 5, 8])
    requires length > 0 ==> IsBestMatch(t, [1, 5, 8], best) && length == NameLength(t[best].name)
                            && length < |out| && out[..length] == t[best].name[..length] && out[length] == '\0'
    ensures length == 5 && out[..NameLength(out)] == "A Maj"
  {
    MajorInTable(t);
    FoundIsNonZero(t, [1, 5, 8], 8 * 12, length);
    MajorBestMatchName(t, best);
    CopiedFrom(out, length, t[best].name, "A Maj");
  }

  lemma MajorInTable(t: seq<Chord>)
    requires IsTable(t)
    ensures WellFormed(t[8 * 12]) && Contains(t[8 * 12], [1, 5, 8])
  {
    assert t[8 * 12] == TableEntry(8 * 12);
    MajorEntryContains();
  }

  lemma MajorSeventhInTable(t: seq<Chord>)
    requires IsTable(t)
    ensures WellFormed(t[1 * 12]) && Contains(t[1 * 12], [1, 5, 8, 12])
  {
    assert t[1 * 12] == TableEntry(1 * 12);
    MajorSeventhEntryContains();
  }

  /** A result that is zero exactly when no entry contains the query is non-zero once one does. */
  lemma FoundIsNonZero(t: seq<Chord>, query: seq<int>, k: int, length: int)
    requires AllWellFormed(t) && |t| == TABLE_SIZE && 0 <= k < |t| && Contains(t[k], query)
    requires length == 0 <==> forall j :: 0 <= j < TABLE_SIZE ==> !Contains(t[j], query)
    ensures length != 0
  {
  }

  /** A best match for {1, 5, 8} is named "A Maj". */
  lemma MajorBestMatchName(t: seq<Chord>, b: int)
    requires IsTable(t) && IsBestMatch(t, [1, 5, 8], b)
    ensures t[b].name[..NameLength(t[b].name)] == "A Maj"
  {
    IdentifyMajor(t);
  }

  /** What `identify_chord` promises for [1, 5, 8, 12] fixes its result: "A Maj7", of length 6. */
  lemma MajorSeventhCallResult(t: seq<Chord>, length: int, best: int, out: string)
    requires IsTable(t) && AllWellFormed(t) && 0 <= length
    requires length == 0 <==> forall k :: 0 <= k < TABLE_SIZE ==> !Contains(t[k], [1, 5, 8, 12])
    requires length > 0 ==> IsBestMatch(t, [1, 5, 8, 12], best) && length == NameLength(t[best].name)
                            && length < |out| && out[..length] == t[best].name[..length] && out[length] == '\0'
    ensures length == 6 && out[..NameLength(out)] == "A Maj7"
  {
    MajorSeventhInTable(t);
    FoundIsNonZero(t, [1, 5, 8, 12], 1 * 12, length);
    MajorSeventhBestMatchName(t, best);
    CopiedFrom(out, length, t[best].name, "A Maj7");
  }

  /** A best match for {1, 5, 8, 12} is named "A Maj7". */
  lemma MajorSeventhBestMatchName(t: seq<Chord>, b: int)
    requires IsTable(t) && IsBestMatch(t, [1, 5, 8, 12], b)
    ensures t[b].name[..NameLength(t[b].name)] == "A Maj7"
  {
    IdentifyMajorSeventh(t);
  }

  /** A terminated copy of the C string in `source` holds that string as its own C string. */
  lemma CopiedFrom(out: string, length: int, source: string, name: string)
    requires length == NameLength(source) && source[..length] == name
    requires length < |out| && out[..length] == source[..length] && out[length] == '\0'
    ensures length == |name| && out[..NameLength(out)] == name
  {
    HoldsName(out, length, name);
  }

  /** A name buffer holding `name` padded with NULs holds `name` as its C string. */
  lemma PaddedName(buffer: string, name: string)
    requires |name| < CHORD_NAME_SIZE && buffer == name + seq(CHORD_NAME_SIZE - |name|, _ => '\0')
    requires forall k :: 0 <= k < |name| ==> name[k] != '\0'
    ensures buffer[..NameLength(buffer)] == name
  {
    assert buffer[..|name|] == name;
    HoldsName(buffer, |name|, name);
  }

  /** A buffer that starts with `name` and then a terminator holds `name` as its C string. */
  lemma HoldsName(out: string, length: nat, name: string)
    requires length == |name| && length < |out| && out[..length] == name && out[length] == '\0'
    requires forall k :: 0 <= k < |name| ==> name[k] != '\0'
    ensures out[..NameLength(out)] == name
  {
    forall k | 0 <= k < length
      ensures out[k] != '\0'
    {
      assert out[k] == out[..length][k];
    }
    NameLengthIs(out, length);
  }
}
