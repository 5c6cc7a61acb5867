# AudioDSP analysis core in Dafny

This project models the sequential, integer-centred core of AudioDSP, a
real-time audio analyser and visualiser written in C++, and proves
properties of that model. It has four parts.

- **Sample queue** (`AudioProcessor.dfy`). `AudioQueue` is a fixed-capacity
  ring buffer of 16-bit samples with a write index `inpos` and a read index
  `outpos`. One slot always stays free, so equal indices mean empty. The
  Dafny class keeps the C++ fields (`len`, `audio`, `inpos`, `outpos`), and
  a ghost view `Contents()` holds the queued samples oldest first. `push`,
  `pop`, `peek` and `peekFreshData` are methods whose loops are proved
  against that view. The module also holds the transform-size guard of
  `fft` and `FindFrequencyContent` (a positive power of two, checked with
  `n & (n - 1)`).
- **Helpers** (`Helper.dfy`). This part covers:
  - the argument guards (`validate_size`, the `mapLin2Log` range check);
  - bin/frequency conversion over reals;
  - the approximate highest common factor, as written and as intended;
  - `Find_n_Largest`: index list, sort by value, a pick loop with optional
    de-clumping;
  - `pitchNumber`: the positivity guard, the two octave-folding loops and
    the clamp;
  - the `pitchName` lookup.
- **Chord dictionary** (`Chords.dfy`, `ChordTable.dfy`,
  `ChordDictionary.dfy`).
  - `Chords.dfy` holds the `chord` struct as a datatype with a 15-character
    NUL-padded name, the eleven A-rooted templates, `chord::contains` and
    `transpose_chord`.
  - `ChordTable.dfy` describes the 132-entry table.
  - `Dictionary` (in `ChordDictionary.dfy`) is a class holding the
    initialisation flag and the `all_chords` array. Its lazy initialiser and
    `identify_chord` are methods, and `identify_chord` is proved to return
    a best match: an entry that contains every queried note, has the fewest
    notes, and has the queried root whenever such an entry exists.
- **Histogram bookkeeping** (`Visualizer.dfy`). `Visualizer` holds
  `numbers`, `graphheight` and `bargraph`. Its methods are:
  - `initializeHistogram`;
  - the in-place `smoothHistogram` loop, proved against a left-to-right
    specification. The specification is characterised by the three
    properties the loop promises.
  - the linear bucket index and the accumulation loop of
    `LinearVisualizer::visualize`, with the bucket index proved in range.

`Common.dfy` holds the error kinds (one per C++ exception type), the
`Result`/`Outcome` wrappers that replace throwing, and C++'s truncating `/`
and `%` on `int`.

Where the code and its documentation disagree, the model follows the code:

- The documented example query {2, 4, 7} is said to match no chord. The
  table's entry 11, G#add9 = {12, 4, 7, 2}, contains it
  (`ChordDictionary.SomeEntryContains247`). By `identify_chord`'s proved
  contract (`ChordDictionary.Dictionary.Identify`), the result is therefore
  non-zero. Entry 27, C min7 = {4, 7, 11, 2}, also contains the query with
  four notes, and neither entry has root 2. The contract therefore leaves
  open which of the two is named. The code's tie rule (see "Left out")
  keeps the first candidate of the fewest notes, entry 11, whose name is
  "G#add9" (`ChordDictionary.EntryElevenName`).
- The documentation has a pair of inputs reduced to "the smaller input
  divided by the rounded ratio". The code divides `inputs[0]` by the
  unrounded ratio (`Helper.ApproxHcfAsWritten`). The documented rule also
  disagrees with the documentation's own example: it gives 220 for
  {440, 880}, and the example expects 440. The corrected reduction
  (`Helper.HcfPair`) follows the example: it divides the larger input by
  the rounded ratio.
- The documentation folds a frequency into the octave [440, 880). The
  halving loop of `pitchNumber` runs only while the frequency is above 880,
  so 880 Hz stays as it is and is clamped to pitch 12, G#
  (`Helper.OctaveOfAAsWritten`). The fold as documented is
  `Helper.PitchNumberIntended`. See "Findings".
- The documentation describes de-clumping as skipping an index adjacent to
  one already selected. The code compares only with the most recent pick,
  so a later pick can be adjacent to an earlier one
  (`Helper.DeclumpComparesLastPickOnly`). The model follows the code
  (`Helper.PickSpread`).
- `visualizer.h` declares the bar count as `numbars`, while
  `visualizer.cpp` uses `numbers`. The model follows the `.cpp`.

## Model

| member | source | states |
|---|---|---|
| Common.TruncDiv | src/visualizer.cpp:50 | C++ integer division: the remainder is smaller than the divisor in magnitude and has the dividend's sign |
| Common.TruncMod | src/chordDictionary.cpp:79 | C++ `%`: the dividend equals quotient times divisor plus remainder, and the remainder has the dividend's sign |
| Common.TruncAgreesOnNonNegative | src/visualizer.cpp:131 | on a non-negative dividend and a positive divisor, C++ `/` and `%` agree with Euclidean division |
| AudioProcessor.Queued | src/audioProcessor.cpp:115-120 | the `count` samples read from slot `first` onward, modulo the length: a sequence of exactly `count` samples |
| AudioProcessor.Written | src/audioProcessor.cpp:100-103 | the buffer after writing `data` from slot `first` onward: it keeps the buffer's length |
| AudioProcessor.WrittenSlots | src/audioProcessor.cpp:100-103 | after the write, slot `(first + i) % len` holds `data[i]` for every `i` |
| AudioProcessor.WrittenElsewhere | src/audioProcessor.cpp:100-103 | every slot outside the written stretch keeps its old sample |
| AudioProcessor.WrittenStep | src/audioProcessor.cpp:100-103 | one more loop step writes the next sample at the next slot |
| AudioProcessor.WrittenNothing | src/audioProcessor.cpp:100-103 | writing no samples leaves the buffer as it was |
| AudioProcessor.QueuedAfterWrite | src/audioProcessor.cpp:97-105 | appending `data` at the write index makes the queued samples the old ones followed by `data` |
| AudioProcessor.QueuedAfterRead | src/audioProcessor.cpp:114-122 | advancing the read index by `n` leaves the queued samples minus their first `n` |
| AudioProcessor.QueuedTail | src/audioProcessor.cpp:147-154 | the newest `n` queued samples are the `n` slots just before the write index |
| AudioProcessor.AudioQueue.Used | src/audioProcessor.cpp:75-89 | the used count lies in [0, len) and carries the read index to the write index |
| AudioProcessor.AudioQueue.Contents | src/audioProcessor.h:29-32 | the queued samples: exactly `Used()` of them, fewer than `len` |
| AudioProcessor.AudioQueue.Init | src/audioProcessor.cpp:17-26 | a queue of the given positive length is valid, empty, with both indices 0 and a fresh buffer |
| AudioProcessor.AudioQueue.Create | src/audioProcessor.cpp:17-26 | invalid_argument exactly when the length is not positive; otherwise a fresh, valid, empty queue with both indices 0 |
| AudioProcessor.AudioQueue.DataAvailable | src/audioProcessor.cpp:75-78 | true exactly when at least `n` samples are queued |
| AudioProcessor.AudioQueue.SpaceAvailable | src/audioProcessor.cpp:86-89 | true exactly when the free count `len - used` strictly exceeds `n` |
| AudioProcessor.AudioQueue.ValidateSpace | src/audioProcessor.cpp:45-52 | passes exactly when `n <= len - 1 - used`, otherwise overflow |
| AudioProcessor.AudioQueue.ValidateData | src/audioProcessor.cpp:60-67 | passes exactly when `n <= used`, otherwise underflow |
| AudioProcessor.AudioQueue.Push | src/audioProcessor.cpp:97-105 | overflow leaves everything unchanged. Otherwise sample `i` goes to slot `(inpos + i) % len`, `inpos` advances by `n` modulo `len`, `outpos` and the other slots are kept, and the queued samples gain `input[..n]` at the end |
| AudioProcessor.AudioQueue.Write | src/audioProcessor.cpp:100-103 | the copy loop leaves the buffer as the write of `input[..n]` from `inpos` |
| AudioProcessor.AudioQueue.Pop | src/audioProcessor.cpp:114-122 | underflow leaves everything unchanged. Otherwise the output holds the oldest `n` queued samples, `outpos` advances by `n` modulo `len`, `inpos` and the buffer are untouched, and those samples leave the queue |
| AudioProcessor.AudioQueue.Peek | src/audioProcessor.cpp:131-138 | the same guard and output as a pop, with no state change |
| AudioProcessor.AudioQueue.PeekFreshData | src/audioProcessor.cpp:147-154 | the guard is measured from `outpos`. On success the output holds the newest `n` queued samples oldest first and nothing else changes |
| AudioProcessor.AudioQueue.ReadLatest | src/audioProcessor.cpp:150-153 | the loop copies the `n` slots ending just before `inpos` into the output's first `n` places |
| AudioProcessor.PushThenPop | src/Tests/audioProcessorTest.cpp:53-67 | pushing `n` samples and popping everything returns the old contents followed by the pushed samples, and empties the queue |
| AudioProcessor.OverflowScenario | src/Tests/audioProcessorTest.cpp:46-51 | in a 1024-slot queue, pushing 512 succeeds and then pushing 513 overflows |
| AudioProcessor.UnderflowScenario | src/Tests/audioProcessorTest.cpp:98-102 | popping or peeking 512 from an empty 1024-slot queue underflows |
| AudioProcessor.PushIndexAsWritten | src/audioProcessor.cpp:104 | the write-index update with C++ `%`: in range for non-negative counts; a small negative sum stays negative |
| AudioProcessor.NegativeCountEscapesTheRing | src/audioProcessor.cpp:45-52 | a count of -1 passes the space check of an empty queue and drives `inpos` to -1 |
| AudioProcessor.BitAnd | src/audioProcessor.cpp:174 | bitwise `&` on naturals: no larger than either operand |
| AudioProcessor.BitAndSelf | src/audioProcessor.cpp:174 | `m & m == m` |
| AudioProcessor.PowerOfTwoBitTest | src/audioProcessor.cpp:174 | for positive `n`, `n & (n - 1) == 0` exactly when `n` is a power of two |
| AudioProcessor.CheckTransformSize | src/audioProcessor.cpp:174-178 | passes exactly when `n` is a positive power of two, otherwise invalid_argument (the same guard as lines 217-221) |
| AudioProcessor.TransformSizeExamples | src/Tests/audioProcessorTest.cpp:130-137 | 6 is rejected with invalid_argument and 8 is accepted |
| Helper.ValidateSize | src/helper.cpp:20-28 | passes exactly when `size > threshold`, otherwise invalid_argument |
| Helper.MapLin2LogArgument | src/helper.cpp:120-127 | out_of_range exactly when `LinVal < LinMin`; otherwise the logarithm's argument `LinVal + 1 - LinMin`, at least 1 |
| Helper.MapLin2LogExamples | src/Tests/helperTest.cpp:64-68 | 50 over minimum 0 is accepted; -10 is out_of_range |
| Helper.Index2Freq | src/helper.cpp:88-93 | `2 * index * RATE / FFTLEN`, non-negative exactly for non-negative indices |
| Helper.Freq2Index | src/helper.cpp:102-107 | `0.5 * freq * FFTLEN / RATE`, non-negative exactly for non-negative frequencies |
| Helper.FreqIndexRoundTrip | src/helper.cpp:88-107 | converting an index to a frequency and back gives the index; a frequency lies between the frequencies of its bin and the next |
| Helper.Freq2IndexMonotonic | src/helper.cpp:102-107 | a higher frequency never maps to a lower index |
| Helper.Round | src/helper.cpp:226 | `std::round` on a non-negative value: the nearest integer, halves rounding up |
| Helper.HcfPairAsWritten | src/helper.cpp:147-156 | the two-input case as written: 0 when the ratio exceeds the threshold, otherwise `inputs[0] / ratio`, never above the smaller input |
| Helper.ApproxHcfAsWritten | src/helper.cpp:142-165 | invalid_argument for fewer than two inputs; otherwise a non-negative result no larger than any input |
| Helper.HcfOrderDependsAsWritten | src/helper.cpp:155 | {440, 880} gives 220 but {880, 440} gives 440 at the default threshold 10 |
| Helper.HcfThresholdExampleAsWritten | src/Tests/helperTest.cpp:47-54 | {15, 10, 4.5} at threshold 1 gives 0 |
| Helper.HcfPair | src/helper.cpp:147-156 | the intended pair reduction: non-negative, at most the larger input, and non-zero only when the ratio is within the threshold |
| Helper.HcfPairSymmetric | src/helper.cpp:149 | the intended pair reduction does not depend on the order of the pair |
| Helper.HcfPairOfHarmonic | src/helper.cpp:147-156 | when one input is `k` times the other, with `k` within the threshold, the reduction gives the smaller, in either order |
| Helper.ApproxHcf | src/helper.cpp:142-165 | invalid_argument for fewer than two inputs; otherwise the tail is reduced first and the result does not exceed some input |
| Helper.HcfOctaveExample | src/helper.cpp:147-156 | {440, 880} in either order gives 440 |
| Helper.PitchName | src/helper.cpp:246-259 | out_of_range outside [1, 12]; otherwise a 1- or 2-character name: a letter A to G, then `#` for a sharp |
| Helper.PitchNameInjective | src/helper.cpp:248 | different pitch classes have different names |
| Helper.PitchNameOfA | src/Tests/helperTest.cpp:91-96 | pitch 1 is "A" |
| Helper.Clamp | src/helper.cpp:227 | `std::clamp` to [0, 11]: in range, and the identity inside it |
| Helper.PitchNumber | src/helper.cpp:212-236 | invalid_argument exactly when `freq <= 0`. Otherwise the folded frequency lies in [440, 880], is `freq` times a power of two, and equals `freq` when that is already in range. A frequency below 440 folds below 880, and one above 880 folds above 440. The result lies in [1, 12] and is the clamped rounded semitone index plus one |
| Helper.FoldUp | src/helper.cpp:221-222 | doubling until at least 440 reaches `freq * 2^k`, below 880 when any doubling happened |
| Helper.FoldDown | src/helper.cpp:223-224 | halving while above 880 reaches `freq / 2^k` in [440, 880] from a start of at least 440, and stays above 440 when any halving happened |
| Helper.PitchNumberOfA | src/Tests/helperTest.cpp:82-88 | 440 Hz is pitch 1 |
| Helper.OctaveOfAAsWritten | src/helper.cpp:221-227 | as written, 440 Hz is pitch 1 but 880 Hz, an octave higher, is pitch 12 |
| Helper.PitchNumberIntended | src/helper.cpp:212-236 | the documented fold: the same guard and result, but the folded frequency lies in [440, 880) |
| Helper.FoldBelow | src/helper.cpp:223-224 | halving while at least 880 reaches `freq / 2^k` in [440, 880), and leaves a start below 880 as it is |
| Helper.OctaveInvariantIntended | src/helper.cpp:212-236 | with the documented fold, `freq` and `2 * freq` get the same pitch number, and succeed exactly for positive `freq` |
| Helper.PitchNumberIntendedOfOctaveA | src/helper.cpp:212-236 | with the documented fold, 880 Hz is pitch 1, like 440 Hz |
| Helper.OctavesStep | src/helper.cpp:221-224 | one more octave doubles the frequency |
| Helper.OctavesOfDouble | src/helper.cpp:221-224 | octave `k` of `2 * freq` is octave `k + 1` of `freq` |
| Helper.OctavesGrow | src/helper.cpp:221-224 | going up at least one octave at least doubles a positive frequency |
| Helper.OctaveFoldUnique | src/helper.cpp:221-224 | only one octave of a positive frequency lies in [440, 880) |
| Helper.InsertByValue | src/helper.cpp:189-190 | inserting an index into a by-value order gives one more in-range index |
| Helper.SortByValue | src/helper.cpp:189-190 | the `std::sort` call by `a.second > b.second`: as many in-range indices as it was given (permutation, order and distinctness in the lemmas below) |
| Helper.SortKeepsTies | src/helper.cpp:189-190 | equal values keep their input order: {5, 5, 5} sorts {0, 1, 2} to itself |
| Helper.InsertPermutes | src/helper.cpp:189-190 | the insertion adds exactly that index to the multiset of indices |
| Helper.SortPermutes | src/helper.cpp:189-190 | the sort is a permutation of its input |
| Helper.InsertKeepsDescending | src/helper.cpp:189-190 | inserting into a non-increasing order keeps it non-increasing |
| Helper.InsertKeepsDistinct | src/helper.cpp:189-190 | inserting a new index keeps the indices distinct |
| Helper.SortByValueDescending | src/helper.cpp:189-190 | the sort's values are non-increasing (the comparator `a.second > b.second`) |
| Helper.SortByValueDistinct | src/helper.cpp:189-190 | sorting distinct indices keeps them distinct |
| Helper.Indices | src/helper.cpp:184-187 | the list 0, 1, …, n-1 |
| Helper.Ranked | src/helper.cpp:182-190 | every index of the input, ordered by value |
| Helper.Selection | src/helper.cpp:182-199 | what `Find_n_Largest` writes: the pick loop over the ranking (its properties are `Helper.SelectionProperties`) |
| Helper.RankedIsSortedPermutation | src/helper.cpp:182-190 | the ranking is a non-increasing, duplicate-free arrangement of exactly the indices 0 to n-1 |
| Helper.Pick | src/helper.cpp:192-199 | the pick loop only appends to what it has picked |
| Helper.PickBounds | src/helper.cpp:193 | the loop picks at most `n_out` entries, all taken from the ranking |
| Helper.PickDescending | src/helper.cpp:192-199 | picking preserves non-increasing order |
| Helper.PickDistinct | src/helper.cpp:192-199 | picking preserves distinctness |
| Helper.PickSpread | src/helper.cpp:196-197 | with de-clumping, no picked index is adjacent to the one before it |
| Helper.PickUnclumped | src/helper.cpp:192-199 | without de-clumping, the loop takes a prefix of the ranking of length `min(n_out, n_in)` |
| Helper.Clip | src/helper.cpp:193 | the number of entries the loop can take: a count clipped to [0, bound] |
| Helper.SelectionProperties | src/helper.cpp:182-199 | at most `n_out` distinct in-range indices with non-increasing values. With de-clumping no two neighbours are adjacent. Without it there are exactly `min(n_out, n_in)` of them, and no index left out has a larger value |
| Helper.UnclumpedSelectionIsTop | src/helper.cpp:182-199 | without de-clumping, every index left out has a value no larger than every picked one |
| Helper.PrefixHoldsLargest | src/helper.cpp:192-199 | a prefix of a non-increasing order holds values at least those of the rest |
| Helper.FindNLargest | src/helper.cpp:177-202 | invalid_argument exactly when `n_in <= 0`, writing nothing. Otherwise the output's first `count` entries are the selection, and the rest of the output is unchanged |
| Helper.PickInto | src/helper.cpp:192-199 | the pick loop writes the picked indices into the output's first `count` places and nothing else |
| Helper.IndexList | src/helper.cpp:184-187 | the index-pairing loop yields 0 to n-1 in order |
| Helper.SelectionExample | src/Tests/helperTest.cpp:71-79 | {5, 2, 9, 1, 7} with 3 gives {2, 4, 0} |
| Helper.RankedExample | src/Tests/helperTest.cpp:71-79 | {5, 2, 9, 1, 7} is ranked {2, 4, 0, 1, 3} |
| Helper.DeclumpComparesLastPickOnly | src/helper.cpp:196-197 | with de-clumping, {9, 7, 0, 8} with 3 gives {0, 3, 1}: the third pick is adjacent to the first |
| Helper.DeclumpRanked | src/helper.cpp:182-190 | {9, 7, 0, 8} is ranked {0, 3, 1, 2} |
| Helper.DeclumpSort | src/helper.cpp:189-190 | indices {1, 2, 3} of {9, 7, 0, 8} sort by value to {3, 1, 2} |
| Helper.DeclumpPick | src/helper.cpp:192-199 | de-clumped picking of 3 from {0, 3, 1, 2} skips index 2, which is adjacent to the last pick 1, and takes {0, 3, 1} |
| Chords.NameLength | src/chordDictionary.cpp:204-210 | the position of the first NUL in the name: no NUL before it, a NUL at it |
| Chords.NameLengthIs | src/chordDictionary.cpp:204-210 | a name with its first NUL at `n` has length `n` |
| Chords.DisplayName | src/chordDictionary.h:16 | the C string in the name buffer: the characters before the first NUL |
| Chords.TemplatesShape | src/chordDictionary.cpp:13-24 | there are 11 templates, each with 2 to 5 notes in [1, 12], root 1 and a name beginning "A " |
| Chords.HasNote | src/chordDictionary.cpp:45-52 | the inner loop: true exactly when `x` is among the first `count` notes |
| Chords.Contains | src/chordDictionary.cpp:40-57 | `chord::contains`: every queried note in turn is found by the inner loop (characterised by `Chords.ContainsMeans`) |
| Chords.A_ROOT_CHORDS | src/chordDictionary.cpp:13-24 | the eleven A-rooted templates with their notes, sizes and NUL-padded names (their shape is `Chords.TemplatesShape`) |
| Chords.ContainsMeans | src/chordDictionary.cpp:40-57 | `contains` holds exactly when every queried note is among the chord's used notes |
| Chords.ContainsExamples | src/Tests/chordDictionaryTest.cpp:13-21 | {1, 5} is in A Maj and {1, 6} is not |
| Chords.PitchClassShift | src/chordDictionary.cpp:79 | the pitch-class shift always lies in [1, 12] |
| Chords.ShiftNote | src/chordDictionary.cpp:79 | `((n + s - 1) % 12 + 12) % 12 + 1` with C++ `%` equals the pitch-class shift for every sign of `n + s - 1` |
| Chords.PitchClassShiftLaws | src/chordDictionary.cpp:79 | shifting by 0 is the identity on [1, 12], two shifts compose into one, and only the shift modulo 12 matters |
| Chords.ShiftNotes | src/chordDictionary.cpp:75-80 | the used notes are shifted and the unused slots are kept |
| Chords.TransposeAsWritten | src/chordDictionary.cpp:67-99 | invalid_argument outside [-11, 11]; the used notes are shifted and `num_notes` kept; the first 1 or 2 name characters become the new root's pitch name and the rest is kept |
| Chords.RootLabel | src/chordDictionary.cpp:82 | the two-character root field: the pitch name, padded with a blank for a natural |
| Chords.Transpose | src/chordDictionary.cpp:67-99 | as `TransposeAsWritten`, but the whole two-character root field is rewritten |
| Chords.TransposeAgreesOnTemplates | src/chordDictionary.cpp:82 | on names whose second character is the root field's blank, the corrected transposition equals the source's |
| Chords.TransposeComposes | src/chordDictionary.cpp:67-99 | transposing by `s` and then `t` is one transposition by `(s + t) % 12`, name included |
| Chords.ShiftsCompose | src/chordDictionary.cpp:77-80 | two note shifts give the same notes as their sum |
| Chords.TransposeAMaj | src/chordDictionary.cpp:67-99 | A Maj transposed by any allowed shift: 3 shifted notes, named by the new root followed by the rest of "A Maj" |
| Chords.TransposeTemplateByZero | src/Tests/chordDictionaryTest.cpp:36-40 | a template shifted by 0 is itself |
| Chords.TemplateTransposedByZero | src/chordDictionary.cpp:117 | every template shifted by 0 is itself |
| Chords.MajorUpTwo | src/Tests/chordDictionaryTest.cpp:29-33 | A Maj up 2 is {3, 7, 10} named "B Maj" |
| Chords.MajorUpOne | src/chordDictionary.cpp:77-82 | A Maj up 1 is {2, 6, 9} named "A#Maj" |
| Chords.MajorDownEleven | src/Tests/chordDictionaryTest.cpp:43-47 | A Maj down 11 is {2, 6, 9} named "A#Maj" |
| Chords.MajorByZeroAndTwelve | src/Tests/chordDictionaryTest.cpp:36-51 | A Maj by 0 is itself, and 12 and -12 are invalid_argument |
| Chords.SharpMajorUpOne | src/chordDictionary.cpp:82 | A#Maj up 1 is named "B#Maj": the sharp of the old root survives |
| Chords.TransposeTwiceAsWritten | src/chordDictionary.cpp:82 | A Maj up 1 twice is named "B#Maj", but up 2 at once is "B Maj", with the same notes |
| Chords.TransposeTwiceCorrected | src/chordDictionary.cpp:67-99 | with the corrected name rewrite, A Maj up 1 twice equals A Maj up 2, "B Maj" |
| ChordTable.Template | src/chordDictionary.cpp:13-24 | template `i` has the templates' shape |
| ChordTable.TemplateIs | src/chordDictionary.cpp:13-24 | the recursive lookup returns `A_root_chords[i]` |
| ChordTable.TableEntry | src/chordDictionary.cpp:113-119 | entry `k` is well formed with at least 2 notes, as many as template `k / 12`, root `k % 12 + 1`, and a terminated non-empty name |
| ChordTable.TransposedTemplateShape | src/chordDictionary.cpp:117 | a template moved up `j` in [0, 12) succeeds, keeps its size, has root `j + 1` and a terminated non-empty name |
| ChordTable.TransposedTemplateNotes | src/chordDictionary.cpp:117 | a template moved up `j` in [0, 12) succeeds, keeps its size and has root `j + 1` |
| ChordTable.TransposedTemplateName | src/chordDictionary.cpp:117 | a template moved up `j` in [0, 12) keeps a terminated, non-empty name |
| ChordTable.TableEntryIsTransposition | src/chordDictionary.cpp:117 | entry `i*12 + j` is template `i` transposed by `j` |
| ChordTable.TableEntryAsWritten | src/chordDictionary.cpp:117 | the source's own transposition builds the same entry |
| ChordTable.TableWellFormed | src/chordDictionary.cpp:31 | every entry of the built table is well formed |
| ChordDictionary.ThreeNotesNeedThree | src/chordDictionary.cpp:40-57 | a chord containing three distinct notes has at least three |
| ChordDictionary.FourNotesNeedFour | src/chordDictionary.cpp:40-57 | a chord containing four distinct notes has at least four |
| ChordDictionary.IdentifyMajor | src/Tests/chordDictionaryTest.cpp:55-68 | entry 96, named "A Maj" (length 5), is a best match for {1, 5, 8}, and the only one |
| ChordDictionary.OnlyMajorBestMatches | src/chordDictionary.cpp:156-189 | every best match for {1, 5, 8} is entry 96 |
| ChordDictionary.IdentifyMajorSeventh | src/Tests/chordDictionaryTest.cpp:70-73 | entry 12, named "A Maj7" (length 6), is a best match for {1, 5, 8, 12}, and the only one |
| ChordDictionary.OnlyMajorSeventhBestMatches | src/chordDictionary.cpp:156-189 | every best match for {1, 5, 8, 12} is entry 12 |
| ChordDictionary.EntryRootedOnA | src/chordDictionary.cpp:117 | an entry with root 1 is its template transposed by 0, at a multiple of 12 |
| ChordDictionary.MajorTriadTemplate | src/chordDictionary.cpp:13-24 | template `i` has three notes and holds {1, 5, 8} exactly when `i` is 8 |
| ChordDictionary.MajorSeventhTemplate | src/chordDictionary.cpp:13-24 | template `i` has four notes and holds {1, 5, 8, 12} exactly when `i` is 1 |
| ChordDictionary.MajorTriadTemplates | src/chordDictionary.cpp:13-24 | among `A_root_chords`, only A Maj has three notes and holds {1, 5, 8} |
| ChordDictionary.MajorSeventhTemplates | src/chordDictionary.cpp:13-24 | among `A_root_chords`, only A Maj7 has four notes and holds {1, 5, 8, 12} |
| ChordDictionary.SeventhOrNinthTemplateSize | src/chordDictionary.cpp:15-19 | the first five templates have four notes |
| ChordDictionary.TriadTemplateSize | src/chordDictionary.cpp:20-24 | the last six templates have at most three notes |
| ChordDictionary.MajorEntry | src/chordDictionary.cpp:117 | entry 96 is A Maj |
| ChordDictionary.MajorSeventhEntry | src/chordDictionary.cpp:117 | entry 12 is A Maj7 |
| ChordDictionary.MajorEntryContains | src/chordDictionary.cpp:40-57 | entry 96 has 3 notes and contains {1, 5, 8} |
| ChordDictionary.MajorSeventhEntryContains | src/chordDictionary.cpp:40-57 | entry 12 has 4 notes and contains {1, 5, 8, 12} |
| ChordDictionary.MajorEntryName | src/chordDictionary.cpp:204-210 | entry 96's name is "A Maj" |
| ChordDictionary.MajorChord | src/chordDictionary.cpp:40-57 | A Maj has 3 notes and contains {1, 5, 8} |
| ChordDictionary.MajorSeventhEntryName | src/chordDictionary.cpp:204-210 | entry 12's name is "A Maj7" |
| ChordDictionary.MajorSeventhChord | src/chordDictionary.cpp:40-57 | A Maj7 has 4 notes and contains {1, 5, 8, 12} |
| ChordDictionary.EntryEleven | src/chordDictionary.cpp:117 | entry 11 is A add9 moved up 11: {12, 4, 7, 2} named "G#add9" |
| ChordDictionary.SomeEntryContains247 | src/Tests/chordDictionaryTest.cpp:60 | {2, 4, 7} is contained in entry 11 |
| ChordDictionary.EntryElevenName | src/chordDictionary.cpp:204-210 | entry 11's name is "G#add9" |
| ChordDictionary.SharpAdd9Chord | src/chordDictionary.cpp:40-57 | G#add9 contains {2, 4, 7} |
| ChordDictionary.PaddedName | src/chordDictionary.cpp:204-207 | a name buffer holding a NUL-free name followed by NUL padding reads back as that name |
| ChordDictionary.HoldsName | src/chordDictionary.cpp:204-210 | a buffer holding a NUL-free name and then a NUL reads back as that name |
| ChordDictionary.CopiedFrom | src/chordDictionary.cpp:203-210 | a terminated copy of a source name reads back as that name, and the copied length is the name's length |
| ChordDictionary.SelectionIsBestMatch | src/chordDictionary.cpp:156-189 | a candidate of minimal size that has the queried root whenever one of that size does is a best match |
| ChordDictionary.Dictionary.constructor | src/chordDictionary.h:25 | uninitialised, with 132 zeroed entries |
| ChordDictionary.Dictionary.Initialize | src/chordDictionary.cpp:104-122 | afterwards the flag is set and entry `i*12 + j` is template `i` transposed by `j`; a second call changes nothing |
| ChordDictionary.Dictionary.TransposedTemplate | src/chordDictionary.cpp:117 | the loop body computes entry `i*12 + j` |
| ChordDictionary.Dictionary.FindCandidates | src/chordDictionary.cpp:156-166 | the candidates are exactly the entries containing the query, in increasing index order |
| ChordDictionary.Dictionary.SelectBest | src/chordDictionary.cpp:177-189 | -1 for no candidates. Otherwise a candidate of the fewest notes, with the queried root whenever a candidate of that size has it |
| ChordDictionary.Dictionary.CopyName | src/chordDictionary.cpp:204-213 | the name up to its NUL is copied with its terminator and its length returned; later places are untouched |
| ChordDictionary.Dictionary.Identify | src/chordDictionary.cpp:134-213 | a null buffer is invalid_argument and changes nothing; the table is built lazily; a non-positive count is invalid_argument. A result lies in [0, 15). It is 0 exactly when no entry contains the query. Otherwise it is the length of the name of a best match, returned as the ghost index `best`, and that name is copied with its terminator |
| ChordDictionary.IdentifyChordTest | src/Tests/chordDictionaryTest.cpp:55-74 | after initialisation, {1, 5, 8} gives length 5 and "A Maj", and {1, 5, 8, 12} gives length 6 and "A Maj7" |
| ChordDictionary.IdentifyMajorCall | src/Tests/chordDictionaryTest.cpp:65-67 | `identify_chord` on {1, 5, 8} returns 5 and writes "A Maj"; the notes are unchanged and the dictionary stays valid and initialised |
| ChordDictionary.IdentifyMajorSeventhCall | src/Tests/chordDictionaryTest.cpp:70-72 | `identify_chord` on {1, 5, 8, 12} returns 6 and writes "A Maj7"; the notes are unchanged and the dictionary stays valid and initialised |
| ChordDictionary.MajorCallResult | src/chordDictionary.cpp:134-213 | any result that meets `identify_chord`'s contract for {1, 5, 8} is 5, with "A Maj" in the buffer |
| ChordDictionary.MajorSeventhCallResult | src/chordDictionary.cpp:134-213 | any result that meets `identify_chord`'s contract for {1, 5, 8, 12} is 6, with "A Maj7" in the buffer |
| ChordDictionary.MajorInTable | src/chordDictionary.cpp:117 | table entry 96 is well formed and contains {1, 5, 8} |
| ChordDictionary.MajorSeventhInTable | src/chordDictionary.cpp:117 | table entry 12 is well formed and contains {1, 5, 8, 12} |
| ChordDictionary.FoundIsNonZero | src/chordDictionary.cpp:168-172 | once some entry contains the query, a result that is 0 only for no match is non-zero |
| ChordDictionary.MajorBestMatchName | src/chordDictionary.cpp:204-210 | every best match for {1, 5, 8} is named "A Maj" |
| ChordDictionary.MajorSeventhBestMatchName | src/chordDictionary.cpp:204-210 | every best match for {1, 5, 8, 12} is named "A Maj7" |
| Visualization.Zeros | src/visualizer.cpp:15 | `n` bars, each 0 |
| Visualization.SmoothStep | src/visualizer.cpp:49-50 | one loop step: a zero bar becomes the truncated mean of its neighbours, and all other bars are kept |
| Visualization.SmoothedUpTo | src/visualizer.cpp:47-51 | the bars after the first `i - 1` steps: the length is kept |
| Visualization.Smoothed | src/visualizer.cpp:45-54 | the whole smoothing pass: the length is kept |
| Visualization.SmoothKeepsEnds | src/visualizer.cpp:47 | the first bar and the bars from `numbers - 1` on are never changed |
| Visualization.SmoothKeepsNonZero | src/visualizer.cpp:49 | non-zero bars keep their values |
| Visualization.SmoothFillsZero | src/visualizer.cpp:49-50 | an interior zero bar becomes the mean of its already-updated left neighbour and its original right neighbour |
| Visualization.SmoothCharacterised | src/visualizer.cpp:45-54 | a bar sequence has those three properties exactly when it is the smoothing result |
| Visualization.AgreeUpTo | src/visualizer.cpp:47-51 | two sequences with the three properties agree bar by bar |
| Visualization.SmoothExample | src/visualizer.cpp:47-51 | {4, 0, 0, 8} smooths to {4, 2, 5, 8}: the second zero uses the already-filled first |
| Visualization.LinearBucket | src/visualizer.cpp:131 | for `Freq0idx <= i < FreqLidx`, the bucket index lies in [0, numbers) |
| Visualization.LinearBucketMonotonic | src/visualizer.cpp:131 | higher bins never go to lower bars |
| Visualization.LinearBucketFirst | src/visualizer.cpp:131 | the first bin goes to bar 0 |
| Visualization.LinearBucketOneToOne | src/visualizer.cpp:131 | when there are as many bins as bars, bin `i` goes to bar `i - Freq0idx` |
| Visualization.BucketWidth | src/visualizer.cpp:125 | `FFTLEN / numbers`, positive |
| Visualization.BucketTotal | src/visualizer.cpp:129-133 | what the `+=` of bins `lo` to `i - 1` adds to bar `k`: each bin whose bucket index is `k` contributes its value divided by the bucket width (`Visualization.BucketTotalOfOtherBars`, `Visualization.OneBinPerBar`) |
| Visualization.LinearBars | src/visualizer.cpp:129-133 | the bars after accumulation from zero, one per bar |
| Visualization.BucketTotalOfOtherBars | src/visualizer.cpp:129-133 | a bar that no bin maps to receives nothing |
| Visualization.OneBinPerBar | src/visualizer.cpp:129-133 | with a bin per bar, bar `k` receives exactly bin `Freq0idx + k` divided by the bucket width |
| Visualization.Visualizer.constructor | src/visualizer.h:14-16 | no bars, zero count and height |
| Visualization.Visualizer.InitializeHistogram | src/visualizer.cpp:13-17 | `bargraph` becomes exactly `numbers` zeros; std::length_error for a negative count |
| Visualization.Visualizer.SmoothHistogram | src/visualizer.cpp:45-54 | the in-place loop leaves exactly the smoothing of the old bars |
| Visualization.Visualizer.AccumulateLinear | src/visualizer.cpp:129-133 | each of the first `numbers` bars gains the quotients of the bins mapped to it; the length and the later bars are kept |
| Visualization.Visualizer.LinearVisualize | src/visualizer.cpp:111-135 | sets the count and height from the console size. A negative width fails with std::length_error from `initializeHistogram`, leaving the bars as they were; otherwise the bars are the smoothing of the linear accumulation |

## Left out

- Logging: every `logMessage` call, and `logger.cpp` with its file I/O and mutex. These calls write output only.
- Floating-point numerics:
  - the FFT butterfly and magnitudes (only the size guard is modelled);
  - the logarithms in `mapLin2Log` (only its range check and the logarithm's argument are modelled) and in `pitchNumber`;
  - cents, adaptive scaling, and the semilog, log-log, tuner and chord-guesser visualisers.
- Helper.PitchNumber: takes the rounding of `log(freq / 440) / log(2^(1/12))` as a function parameter, and does not compute cents. Dafny reals have no infinity or NaN, so a `float` input of +inf, which passes the guard and never leaves the halving loop, and NaN, which reaches the cast of `round(NaN)` to `int`, are outside the model.
- Volume: push, pop and peek use volume 1. Scaling by a float volume and truncating to 16 bits is not modelled.
- Concurrency: the audio callbacks share the queue with no lock. The queue is modelled sequentially.
- Console rendering and `main.cpp`: `show_bargraph`, `print_line`, `system("cls")`, the menu and the device setup. These are I/O.
- `max_iter` of `approx_hcf` is an unused parameter.
- Helper.ApproxHcf: the inputs are required to be positive reals, as in Helper.ApproxHcfAsWritten. Zero, NaN and infinite `float` inputs are outside the model, except for a zero tail result, which is modelled.
- Integer width: chord notes use unbounded integers, so `notes[i] + semitones_up - 1` cannot overflow.
- Visualization.LinearBucket: does not model the 32-bit overflow of `numbers * (i - Freq0idx)`, which would need more than 32768 bars.
- Visualization.Visualizer.LinearVisualize: takes the spectrum as a parameter, because `peekFreshData` and `FindFrequencyContent` are floating-point. It takes `Freq0idx` and `FreqLidx` as integers, because `freq2index` is a float-to-int conversion. Its precondition excludes a zero or larger-than-FFTLEN console width, for which the source divides by zero. A negative width is modelled: it fails with std::length_error.
- Visualization.Visualizer.constructor: zeroes the fields, which the C++ class leaves uninitialised.
- Helper.FindNLargest: does not fix the order among equal values, because `std::sort` is not stable. The model sorts with one admissible order, an insertion sort that keeps equal values in their input order (`Helper.SortKeepsTies`). The proved properties (non-increasing values, distinct indices, the largest values without de-clumping) hold for any sort by the source's comparator. Only the choice among equal values belongs to the model.
- ChordDictionary.Dictionary.Identify: does not state which of several equally good entries is returned. The contract says only that the result is a best match. The code returns the last candidate of the fewest notes with the queried root, or else the first candidate of the fewest notes.
- Two source branches cannot be reached once a candidate exists: `best_candidate == -1` (return 0) and an empty best name (runtime_error). The model has no path for them; `ChordTable.TableEntry` proves every name non-empty.
- `chordDictionary.h` declares the initialisation flag `static`, so every translation unit gets its own copy. The model has one dictionary object, whose flag is a field.

## Findings

| source | as written | input that shows it | evidently intended | confidence | as-written member | corrected member |
|---|---|---|---|---|---|---|
| src/helper.cpp:155 | two inputs reduce to `inputs[0] / ratio`, so the result depends on their order | {440, 880} gives 220, {880, 440} gives 440 | the larger input divided by the rounded ratio, whichever comes first (440 for both). This follows the documented example {440, 880} → 440; the documented formula, the smaller input over the rounded ratio, would give 220 | not executed | Helper.HcfOrderDependsAsWritten | Helper.HcfPairSymmetric |
| src/audioProcessor.cpp:45-52,104 | `push` takes a signed count: a negative count passes the space check and C++ `%` leaves `inpos` negative | `push(input, -1)` on an empty queue sets `inpos` to -1 | counts are non-negative, so the write index stays in [0, len) | not executed | AudioProcessor.NegativeCountEscapesTheRing | AudioProcessor.AudioQueue.Push |
| src/helper.cpp:223 | the halving loop runs only while the frequency is above 880, so 880 Hz is not folded and rounds to 12 semitones, clamped to 11 | 440 Hz is pitch 1 (A) but 880 Hz is pitch 12 (G#) | fold into [440, 880), so that every octave of a note has the same pitch number | not executed | Helper.OctaveOfAAsWritten | Helper.OctaveInvariantIntended |
| src/chordDictionary.cpp:82 | the new root's pitch name overwrites only its own 1 or 2 characters, so an old sharp survives a natural root | A Maj up 1 and then up 1 is named "B#Maj", while up 2 is "B Maj" | the whole two-character root field is rewritten, so that transposition composes | not executed | Chords.TransposeTwiceAsWritten | Chords.TransposeComposes |
