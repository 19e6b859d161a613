# computerMusic composition engine, in Dafny

A model of the generative core of the computerMusic Angular app, with proofs of what it
does. The model covers:

- **Scales and key ranges** (`Keys`). This is the chromatic list from A, and the major and
  harmonic-minor scales built by chaining `nextNote` over it. It also has `mode`, both as
  written (it always returns the empty list) and as evidently meant (a rotation). Last
  comes `keyRange`, which unrolls a scale into (note, octave) entries and bumps the octave
  at every C.
- **Motifs** (`MotifModel`, `Motifs`). These are the motif record and its `notes` view,
  and the bounded random walk that generates a motif. They also cover the six development
  kinds of `modifyMotif` with the shift that lifts negative pitches, plus `transpose`,
  `makeChordal`, `concatenate` and `totalLength`.
- **Phrases** (`Music`):
  - `chord`, stacking thirds through a key;
  - the legacy `modifyMotif`;
  - `applyMotif`, from scale offsets to tones of a 100-octave key range;
  - the greedy rest padding of `padWithRests`;
  - `developMotif`'s bar budget and accent pass;
  - `totalTime`.
- **First-species counterpoint** (`Harmony`): the per-tone rule table that picks a
  harmony index from a handful of candidates, then maps the indexes to tones.
- **The transport cursor** (`Transport`): bar, beat and sixteenth fields advanced by a
  note length, and their `bar:beat:sixteenth` text.

Conventions:

- **Durations.** All durations are integer sixteenths (semiquavers). A semibreve is 16,
  then 12, 8, 6, 4, 3, 2 and 1.
- **Randomness.** `Random.next(lo, hi)` is an oracle `Source`, asked for draw number `t`.
  A valid source answers inside `lo..hi`. `booleanByProbability(p)` is `Chance`: false for
  0, otherwise whether a draw from `1..round(1/p)` is 1. `developMotif` makes that draw
  itself for any `alterChance`, without the range test; this is `OneIn`. Once the draws
  are inputs, every operation is deterministic.
- **Failures.** A JavaScript failure is a `Result` error:
  - `TypeError` for reading a field of `undefined` or reducing an empty list;
  - `Diverges` for a loop or recursion that never ends;
  - `Undefined` for an array read past the end.
- **Tones.** A tone is one record `(note, octave, length, volume)`. A rest has no octave,
  and a volume never written is `None`. The id of a tone is its note and octave.
- **Code with loops stays imperative.** The following are methods with loop invariants,
  each proved equal to a specification function about which the properties are proved:
  - `keyRange`, `chord`, `applyMotif` and the padding loops;
  - the accent pass, which works on an array in place;
  - the motif walk and the counterpoint loops;
  - `addTime`, a method on a `TransportTime` class.

`music.service.ts` repeats `transpose` and `makeChordal` from `motif.service.ts` word for
word. They are modelled once, in `Motifs`.

## Model

| member | source | states |
|---|---|---|
| Enums.DurationAppend | src/app/music.service.ts:313-315 | the summed length of two phrases is the sum of their lengths |
| Keys.IndexOf | src/app/music.service.ts:15 | `indexOf`: -1 exactly when absent, otherwise an index holding the value with no earlier one |
| Keys.Chromatic | src/app/key.service.ts:11-26 | the chromatic list has twelve entries |
| Keys.ChromaticComplete | src/app/key.service.ts:11-26 | every pitched note exactly once, in ascending semitones from A (C at index 3), never the rest |
| Keys.ChromaticIndexIsSemitone | src/app/music.service.ts:18 | a note's position in the chromatic list is its semitone height above A, and -1 for the rest |
| Keys.SuccessorIsNextNote | src/app/music.service.ts:18 | `nextNote(n, chromatic, 1)` is the note one semitone up, wrapping from G sharp to A |
| Keys.ChromaticStepValue | src/app/music.service.ts:14-28 | over the chromatic list, `nextNote` moves `d` semitones cyclically |
| Keys.NextNoteResult | src/app/music.service.ts:14-28 | a start in the key gives `key[(i + d) mod n]` exactly when `i + d` is in `[0, 2n)`; a start outside the key is measured from its chromatic successor when that is in the key, and otherwise never returns; a result is always a key note |
| Keys.Wrap | src/app/music.service.ts:21-27 | one wrap only: defined iff `start + d` is in `[0, 2n)`, then the note `(start + d) mod n` |
| Keys.Chain | src/app/key.service.ts:28-47 | a successful chain has one note per step plus the start, beginning with the start |
| Keys.MajorDegrees | src/app/key.service.ts:28-47 | `major(t)` is the notes at 0, 2, 4, 5, 7, 9, 11 semitones above a pitched tonic; for the rest it never returns |
| Keys.MinorHarmonicDegrees | src/app/key.service.ts:49-68 | `minorHarmonic(t)` is the notes at 0, 2, 3, 5, 7, 8, 11 semitones above a pitched tonic; for the rest it never returns |
| Keys.MajorChain | src/app/key.service.ts:28-47 | chaining the major steps from a pitched tonic spells the scale at the major offsets |
| Keys.MinorHarmonicChain | src/app/key.service.ts:49-68 | chaining the harmonic-minor steps spells the scale at the harmonic-minor offsets |
| Keys.RestIsNoTonic | src/app/key.service.ts:29-33 | with the rest as tonic, both scales recurse without end |
| Keys.CMajor | src/app/key.service.ts:28-47 | `major(C)` is C D E F G A B |
| Keys.AMinorHarmonic | src/app/key.service.ts:49-68 | `minorHarmonic(A)` is A B C D E F G sharp |
| Keys.ModeAsWritten | src/app/key.service.ts:70-79 | `mode` returns the empty list for every input |
| Keys.ModeAsWrittenLosesTheKey | src/app/key.service.ts:73-76 | for the second mode of C major, the code returns nothing where the rotation is D E F G A B C |
| Keys.ModeRotates | src/app/key.service.ts:70-79 | the intended mode has the key's length, holds the key's notes rotated to start at the chosen degree, and is a permutation of the key |
| Keys.ModeTonic | src/app/key.service.ts:70-79 | the first mode is the key itself, and the chosen degree becomes the first note |
| Keys.ModeOfMode | src/app/key.service.ts:70-79 | a mode of a mode is a single mode of the key, with the degrees added |
| Keys.Repeat | src/app/key.service.ts:84-85 | the key repeated `n` times has `n` times its length |
| Keys.Numbered | src/app/key.service.ts:83-94 | one (note, octave) entry per note |
| Keys.KeyRange | src/app/key.service.ts:81-98 | the nested loops build exactly the repeated key, each note numbered with the count of C's up to and including it; a non-positive repeat count gives nothing |
| Keys.NumberKey | src/app/key.service.ts:85-94 | one pass over the key extends the range by the key, each note numbered with the C count so far |
| Keys.RangeNote | src/app/key.service.ts:84-94 | entry `j` of a key range holds the key's note `j mod n`, for a key of `n` notes |
| Keys.KeyRangeOctaves | src/app/key.service.ts:86-88 | the octave never falls along a key range, and it rises by one exactly at each C |
| Keys.CountCMonotone | src/app/key.service.ts:86-88 | the number of C's seen only grows along the range |
| Keys.NoCStaysAtOctaveZero | src/app/key.service.ts:83-93 | a key without C (F sharp major) keeps every entry of `Numbered(Repeat(key, n))` in octave 0 |
| Keys.TonicCOctaves | src/app/key.service.ts:83-93 | when the key's only C is its tonic, entry `j` of a key of `n` notes is in octave `j div n + 1`, so the range starts at octave 1 |
| Keys.CMajorRange | src/app/key.service.ts:83-93 | the range of C major starts at (C, 1) and moves up one octave every seven entries |
| MotifModel.NewMotif | src/app/model/motif.ts:14-17 | a new motif has no pitches and no rhythm |
| MotifModel.Notes | src/app/model/motif.ts:6-13 | one entry per pitch, pairing pitch `i` with rhythm `i`, which is missing exactly past the rhythm's end |
| MotifModel.NotesRoundTrip | src/app/model/motif.ts:6-13 | the pitches read back from `notes` are the motif's, and so is the rhythm when it is at least as long |
| Random.Next | src/app/helpers/random.ts:2-4 | a draw lies in `lo..hi`, and an empty range `hi = lo - 1` gives `lo` |
| Random.ChanceExtremes | src/app/helpers/random.ts:6-12 | probability 1 always holds and probability 0 never does |
| Random.RoundInverseAtLeastOne | src/app/helpers/random.ts:10 | for `0 < p <= 1` the range `1..round(1/p)` is never empty |
| Motifs.ValidLengths | src/app/motif.service.ts:64-66 | exactly the note lengths that fit, in descending order |
| Motifs.SemiquaverAlwaysFits | src/app/motif.service.ts:64-66 | with at least a semiquaver to fill, the semiquaver is a valid length |
| Motifs.Pick | src/app/motif.service.ts:67-72 | a drawn index inside the valid lengths picks that length, and otherwise the most likely length is returned |
| Motifs.RandomNoteLength | src/app/motif.service.ts:62-73 | the length is a note length or the most likely one, and at least a semiquaver |
| Motifs.RandomNoteLengthFits | src/app/motif.service.ts:62-73 | with factor 1 the drawn length always fits what is left to fill |
| Motifs.ChooseNextPitch | src/app/motif.service.ts:49-60 | the next pitch moves at most one step, and it stays within `0..maxSize` when the previous pitch was inside |
| Motifs.Transpose | src/app/motif.service.ts:156-158 | the length is kept and rests stay rests |
| Motifs.TransposeRoundTrip | src/app/music.service.ts:132-134 | transposing back undoes a transposition unless a sounding pitch landed on -1 |
| Motifs.TransposeOntoRest | src/app/music.service.ts:132-134 | a sounding pitch transposed onto -1 becomes a rest |
| Motifs.MakeChordal | src/app/motif.service.ts:75-81 | the same number of pitches, and the rhythm is copied |
| Motifs.MakeChordalHalves | src/app/music.service.ts:124-130 | rests stay put and every sounding pitch is doubled |
| Motifs.MakeChordalWithin | src/app/motif.service.ts:43-45 | doubling pitches in `0..maxSize` gives pitches in `0..2*maxSize` |
| Motifs.Concatenate | src/app/motif.service.ts:160-167 | the first motif's pitches and rhythm, followed by the second's |
| Motifs.TotalLength | src/app/motif.service.ts:83-87 | reducing the rhythm fails exactly when it is empty |
| Motifs.Reverse | src/app/motif.service.ts:99 | entry `i` of the reversal is entry `n-1-i` of the input |
| Motifs.ReverseInPlace | src/app/motif.service.ts:112-113 | reversing an array in place leaves its reversal |
| Motifs.ReverseInvolution | src/app/motif.service.ts:99 | reversing twice gives the input back, and a reversal is a permutation |
| Motifs.Generate | src/app/motif.service.ts:16-47 | equal numbers of pitches and rhythm entries; the rhythm reaches `length` and stops at the first entry that does; factor 1 fills `length` exactly; every entry is a note length or the most likely one; non-chordal pitches stay in `0..maxSize` with steps of at most one, and chordal ones are even and in `0..2*maxSize` |
| Motifs.WalkStep | src/app/motif.service.ts:25-41 | one pass of the walk appends one pitch and one length, keeps every length a note length or the most likely one, grows the rhythm total (never past `length` with factor 1), and keeps pitches in `0..maxSize` with steps of at most one |
| Motifs.ChordalWalk | src/app/motif.service.ts:43-45 | the chordal pass keeps the rhythm and the number of pitches, doubles the pitch bound and makes every sounding pitch even |
| Motifs.DrawPitch | src/app/motif.service.ts:25-36 | a drawn pitch is a rest or in range, and a step from a pitch it may step from moves by at most one |
| Motifs.ExtendWalk | src/app/motif.service.ts:28-38 | appending such a pitch keeps the walk in range and stepwise |
| Motifs.ExtendRhythm | src/app/motif.service.ts:39-41 | appending a length adds it to the total and keeps every entry a note length |
| Motifs.MinOf | src/app/motif.service.ts:144 | `Math.min` of a list is an entry no larger than any other |
| Motifs.MaxOf | src/app/motif.service.ts:138 | `Math.max` of a list is an entry no smaller than any other |
| Motifs.Invert | src/app/motif.service.ts:136-141 | case 6 keeps the number of pitches |
| Motifs.ReversedCopy | src/app/motif.service.ts:110-113 | a copy reversed in place is the reversal of the input |
| Motifs.DevelopCopies | src/app/motif.service.ts:96-142 | the switch over copies produces the development of the drawn kind |
| Motifs.ModifyMotif | src/app/motif.service.ts:89-153 | the result is the development of the first draw (kind 1..6) with the second draw (-1..1) as displacement |
| Motifs.NormaliseNonNegative | src/app/motif.service.ts:144-148 | the shift keeps the length, rests stay rests and every other pitch becomes non-negative |
| Motifs.NormaliseLiftsOverRest | src/app/motif.service.ts:144-148 | a motif with a rest and nothing lower has every sounding pitch raised by one |
| Motifs.ModifiedShape | src/app/motif.service.ts:89-153 | fails only for kind 5 with a non-null empty pool; otherwise as many pitches as rhythm entries, twice the input for kinds 2-4 and the same for 1, 5 and 6 |
| Motifs.ModifiedNonNegative | src/app/motif.service.ts:144-151 | after any development every pitch is a rest or non-negative |
| Motifs.ConcatenationDiscarded | src/app/motif.service.ts:128-151 | kind 5 returns the motif itself, only shifted: the concatenation is overwritten |
| Motifs.InversionSoundsRests | src/app/motif.service.ts:136-141 | kind 6 turns every rest into a sounding pitch |
| Music.Stacked | src/app/music.service.ts:30-43 | a successful stack has `count + 1` notes |
| Music.StackedFailureStays | src/app/music.service.ts:36-40 | once a push fails every longer stack fails: an `undefined` note makes the next push diverge, and any other failure stays |
| Music.Chord | src/app/music.service.ts:30-43 | the loop computes the chord function: the root, then repeated `nextNote(previous, key, 2)` |
| Music.StackThirds | src/app/music.service.ts:36-40 | the loop pushes `nextNote(previous, key, 2)` the given number of times, or stops at the first failing step |
| Music.StackedStaysInKey | src/app/music.service.ts:36-40 | every note of a chord on a key note is a key note |
| Music.StackedDefined | src/app/music.service.ts:36-40 | stacking from a key note fails only when a one-note key must stack more than the root |
| Music.ChordDefined | src/app/music.service.ts:30-43 | a chord exists iff the root number is in `1..n` for a key of `n` notes, and either at most one note is asked for or the key has at least two notes |
| Music.OneNoteKeyChord | src/app/music.service.ts:14-40 | over a one-note key the second note is `undefined`, and asking for a third recurses without end |
| Music.ChordIsThirds | src/app/music.service.ts:30-43 | for a key without repeats, the chord has `max(n, 1)` notes and note `k` is `key[(r - 1 + 2k) mod n]` for a key of `n` notes |
| Music.CMajorTriad | src/app/music.service.ts:30-43 | `chord(major(C), 1, 3)` is C E G |
| Music.ModifyMotifAsWritten | src/app/music.service.ts:145-197 | the legacy method draws a kind from 1..4 without a pool and 1..5 with one, and returns the legacy result for it |
| Music.LegacyNeverExtends | src/app/music.service.ts:145-197 | the legacy result keeps the input rhythm and its pitches are a permutation of the input's; kind 5 succeeds iff there is no pool |
| Music.LegacyDropsConcatenation | src/app/music.service.ts:158-163 | kind 2 returns the motif unchanged, where the development it evidently means doubles it |
| Music.ClampOctave | src/app/music.service.ts:213-221 | the octave used lies within the sound bounds, and is unchanged when already inside |
| Music.ApplyMotif | src/app/music.service.ts:199-230 | the loop builds exactly the applied tones: no pitches give no tones, an index outside the 100-octave range fails, a rhythm too short fails |
| Music.AppliedShape | src/app/music.service.ts:203-226 | one tone per pitch with length `rhythm[i]` and no volume; a tone has no octave iff its pitch is a rest, a rest pitch gives the rest note, and sounding octaves lie in the bounds |
| Music.AppliedStaysInKey | src/app/music.service.ts:213-222 | every sounding tone's note is a key note |
| Music.AppliedStartsAtStart | src/app/music.service.ts:200-222 | a sounding first pitch lands on entry `start + startOctave * n` of the key range (n the key length), with the key's note at that index |
| Music.StartIndexZeroIsAbsent | src/app/music.service.ts:200 | a start index of 0 behaves like no start index |
| Music.TotalTime | src/app/music.service.ts:313-315 | fails exactly on the empty phrase, and otherwise is the sum of the lengths |
| Music.GreedyRests | src/app/music.service.ts:271-310 | every rest is one of the lengths tried |
| Music.GreedyTotal | src/app/music.service.ts:271-310 | ending with length 1, the rests total nothing for no gap, one less than the gap with strict tests, and the gap otherwise |
| Music.RestTones | src/app/music.service.ts:272-276 | one rest tone without octave per length |
| Music.RestTonesDuration | src/app/music.service.ts:272-276 | the rest tones last as long as the lengths sum to |
| Music.PushRests | src/app/music.service.ts:271-278 | one while loop appends the greedy rests of one length and hands on the remaining gap |
| Music.FillWithRests | src/app/music.service.ts:271-310 | the five loops append exactly the greedy rests of 16, 8, 4, 2 and 1 |
| Music.PadWithRests | src/app/music.service.ts:267-311 | an empty phrase throws; otherwise the phrase followed by the greedy rests for `bar - total mod bar`, with strict tests |
| Music.PaddingEndsShortOfBar | src/app/music.service.ts:267-311 | the padding totals one less than the gap, so the padded phrase ends one semiquaver before a bar line, and an aligned phrase gets a bar minus a semiquaver |
| Music.PaddingOneCrotchet | src/app/music.service.ts:267-311 | one crotchet in a bar of 16 gets 8, 2, 1 as written and 8, 4 when corrected |
| Music.PadToBar | src/app/music.service.ts:267-311 | the corrected padding appends the greedy rests for the gap to the next bar line, with inclusive tests |
| Music.PadToBarEndsOnBarLine | src/app/music.service.ts:267-311 | the corrected padding ends on a bar line, adds less than a bar, and adds nothing for a bar of zero |
| Music.Accented | src/app/music.service.ts:253-261 | the accent pass keeps the number of tones |
| Music.AccentPass | src/app/music.service.ts:253-261 | the loop writes into the array exactly the accented phrase |
| Music.AccentedKeeps | src/app/music.service.ts:253-261 | notes, octaves and lengths are kept; a tone gets 0.3 iff the time from it to the end is a multiple of the bar, and 0.2 otherwise |
| Music.DevelopMotifAsWritten | src/app/music.service.ts:232-265 | as written, `developMotif` always throws a TypeError, for every `alterChance` |
| Music.CollectAdditions | src/app/music.service.ts:235-251 | the corrected budget loop computes `Collected`: start index by start index, the motif (altered by the music service's own `modifyMotif` when its draw is 1) is realised and joins the phrase when the two stay under `maxBars` bars, an empty phrase counting as zero long; an addition with a missing length is skipped, and any other failure is the result |
| Music.CollectedWithinBudget | src/app/music.service.ts:246-249 | the collected phrase is empty or strictly shorter than the budget, and no collected tone has a volume yet |
| Music.GatheredFailureStays | src/app/music.service.ts:235-251 | once a start index throws, the loop's result is that failure |
| Music.RealiseAt | src/app/music.service.ts:236-245 | one pass draws the alteration, applies the legacy `modifyMotif` when the draw is 1, and realises the motif from its start index: exactly `Addition` |
| Music.FinishPhrase | src/app/music.service.ts:253-262 | accenting then padding gives the accented phrase followed by the corrected padding |
| Music.DevelopPhrase | src/app/music.service.ts:232-265 | corrected in four ways (the budget test counts an empty phrase as zero long, the result of line 249 is kept, `applyMotif`'s `Length` is the length summed, and the padding is the inclusive `PadToBar`): it fails exactly when the collection fails, otherwise it is the collected phrase accented (values by `AccentedKeeps`) and followed by the corrected padding; it ends on a bar line, and every tone has a volume or is a padding rest |
| Music.FinishedPhrase | src/app/music.service.ts:253-262 | an accented and padded phrase is bar-aligned and every tone is accented or padding |
| Music.VolumesOrPadding | src/app/music.service.ts:253-262 | after padding, every tone has a volume or is a rest of a padding length |
| Harmony.NotesOf | src/app/harmony.service.ts:22-23 | the pitch classes of the key range, entry by entry |
| Harmony.Within | src/app/harmony.service.ts:47 | keeps exactly the candidates strictly between 0 and the range's length |
| Harmony.Stepwise | src/app/harmony.service.ts:49-51 | keeps exactly the choices one index from the previous harmony |
| Harmony.Contrary | src/app/harmony.service.ts:52-54 | keeps exactly the choices whose direction differs in sign from the melody's |
| Harmony.LastIn | src/app/harmony.service.ts:57-62 | the inner loop leaves a value in both lists, and leaves nothing exactly when no stepwise choice is contrary |
| Harmony.MinDistance | src/app/harmony.service.ts:70 | the least distance from a choice to the previous index |
| Harmony.HarmonyUpTo | src/app/harmony.service.ts:17-74 | a line built up to `n` has `n` indexes (its start at the unison index is proved by `LineStart`) |
| Harmony.FirstSpeciesCounterpoint | src/app/harmony.service.ts:13-93 | the loops compute exactly the counterpoint function |
| Harmony.HarmonyIndexFor | src/app/harmony.service.ts:20-73 | one iteration of the outer loop computes exactly one rule-table step |
| Harmony.LastContrary | src/app/harmony.service.ts:58-62 | the inner loop leaves the last stepwise choice that is also a contrary one, or nothing when there is none |
| Harmony.ChoiceRules | src/app/harmony.service.ts:57-72 | rules in order: the last stepwise contrary choice (one step away, against the melody), else the first stepwise, else the first contrary; the first three always pick a choice in range, and no choice at all pushes an index past the range |
| Harmony.EmptyRangeRests | src/app/harmony.service.ts:17-29 | over an empty key range the unison lookup never builds an id, so a melody that rests after its first tone (with or without an octave) gets a line of rests as long as its tones |
| Harmony.CounterpointShape | src/app/harmony.service.ts:75-92 | one harmony tone per melody tone, as long as it; a sounding one is a key-range entry with the melody tone's volume, any other a rest without octave or volume |
| Harmony.HarmonyPrefix | src/app/harmony.service.ts:17-74 | the loop only appends: a longer line starts with the shorter one |
| Harmony.HarmonyAt | src/app/harmony.service.ts:19-74 | index `i` of the line is the rule table applied to index `i - 1` |
| Harmony.RestsFollowMelody | src/app/harmony.service.ts:17-29 | the line starts on the melody's first tone when the range holds it (a unison) and on a rest otherwise; a melody rest after the first tone gives a rest |
| Harmony.SoundingAfterRestThrows | src/app/harmony.service.ts:24-32 | a sounding melody tone right after a harmony rest throws a TypeError |
| Harmony.NoStepwiseNoContrary | src/app/harmony.service.ts:49-54 | when every choice lies more than one below the previous index and the melody rises, both lists are empty |
| Harmony.CandidatesOfSeven | src/app/harmony.service.ts:35-47 | a melody tone at index 7 of a twelve-entry range has choices 7, 5, 3, 2 |
| Harmony.LastRuleDistanceWitness | src/app/harmony.service.ts:64-72 | with previous index 9 and a rising melody on index 7, the fourth rule pushes the distance 2 where the nearest choice is 7 |
| Harmony.Nearest | src/app/harmony.service.ts:70 | a choice at the least distance from the previous index |
| Harmony.ChooseNearestPicksAChoice | src/app/harmony.service.ts:64-72 | with the fourth rule corrected, any choice at all gives an index in range, and the fourth rule picks a nearest choice |
| Transport.ShowNat | src/app/model/TransportTime.ts:9-11 | `toString` of a whole number is a non-empty run of digits without a leading zero |
| Transport.ReadShow | src/app/model/TransportTime.ts:9-11 | reading a shown number gives it back |
| Transport.ParseJoined | src/app/model/TransportTime.ts:8-12 | three numerals joined by ':' read back as their values |
| Transport.TimeRoundTrip | src/app/model/TransportTime.ts:8-12 | the text of a time reads back as its bar, beat and sixteenth |
| Transport.QuarterSplit | src/app/model/TransportTime.ts:15-19 | the remainder and floor of the beat sum split into kept beats, left-over sixteenths and carried bars |
| Transport.TransportTime.constructor | src/app/model/TransportTime.ts:4-6 | a new cursor is at bar 0, beat 0, sixteenth 0 |
| Transport.TransportTime.Time | src/app/model/TransportTime.ts:8-12 | the cursor's text reads back as its three fields |
| Transport.TransportTime.AddTime | src/app/model/TransportTime.ts:14-26 | beat becomes `(beat + L div 4) mod B`; bar grows by `(beat + L div 4) div B` and stays put below a bar; sixteenth grows by `L mod 4` and is never carried; the position `4(B*bar + beat) + sixteenth` grows by exactly `L` |

## Left out

- Playback and the user interface are not part of this model: the Tone.js synth calls,
  `sound.service.ts`, `app.component.ts` and Angular's dependency injection. This includes
  the cycle between `KeyService` and `MusicService`.
- `Math.random` is an oracle parameter. Its floating-point arithmetic is not modelled, only
  the range of each draw.
- Random.Chance: requires `0 <= p <= 1`. Outside that range `booleanByProbability` throws
  an `Error`, and that throw is not modelled.
- Motifs.Generate, Motifs.WalkStep, Motifs.DrawPitch and Motifs.ChooseNextPitch: require
  `sameDirectionChance` and `restChance` in [0, 1]. `motif()` takes them from its caller,
  so the `Error` a probability outside that range throws is not modelled for them.
- Motifs.Generate and Music.DevelopPhrase: each draw is addressed by a number. The walk
  numbers its draws in the order its loop makes them. `DevelopPhrase` reserves four
  numbers per start index, so which draw feeds which choice is fixed by the model and is
  not stated in any contract.
- Volumes are the two constants 0.3 and 0.2. Note lengths are whole sixteenths, and so
  are `barTime` and the product `beats * beatType`: the source counts these in crotchets,
  so a value of `v` crotchets in the source is `4 * v` here. `beatsInBar` counts beats. `TimeSignature` and
  `SoundService`'s octave bounds are parameters, since neither is defined here.
- A tone's string `id` is the pair (note, octave). Building it from a tone without an
  octave throws, and this is modelled as a `TypeError`.
- `applyMotif` writes capitalised `Note`, `Octave` and `Length` fields. They map onto the
  one tone record, so the tone it returns has no volume.
- The legacy `motif`, `randomNoteLength` and `concatenate` in `music.service.ts`
  (lines 45-122 and 136-143) are not modelled. They push into arrays that `<Motif>{}`
  never creates, and `motif.service.ts` replaces them.
- Keys.NextNoteResult: the `while` loop of `nextNote` is one test. Its body never changes
  `start`, so it either stops after one pass or never stops (`Diverges`).
- Music.PadWithRests: the rests are pushed onto the caller's array in the source, and
  here the padded phrase is returned as a new sequence. Aliasing is therefore not modelled.
- Transport.TransportTime.AddTime: requires `beatsInBar > 0` and has no default of 4.
  The source accepts any count: 0 makes the remainder NaN, so `beat` and `sixteenth`
  become NaN, and a negative count floors the bar count below zero so the bar moves
  back. Neither case is modelled.
- Music.DevelopPhrase and Music.CollectAdditions: the corrected `developMotif` changes
  more than line 249. The budget test counts an empty phrase (and an empty addition) as
  zero long where `totalTime` throws. `applyMotif`'s capitalised `Length` is read as the
  `length` that `totalTime` sums; otherwise every sum is NaN and nothing ever joins. An
  addition with a missing length sums to NaN and is skipped. The padding is the inclusive
  `PadToBar`, not `padWithRests`.
- Harmony.ChooseNearest is the corrected fourth rule. The counterpoint method keeps the
  rule as written.

## Findings

| source | as written | input that shows it | evidently intended | confidence | as-written member | corrected member |
|---|---|---|---|---|---|---|
| src/app/key.service.ts:70-79 | both `concat` results are discarded, so `mode` always returns `[]`; even kept, the first slice ends at `key.length - modeIndex` instead of the key's end (line 73), giving D E F G A C for mode 2 and C D E F for mode 5 | C major, mode 2 (and mode 5 for the slice end) | the rotation D E F G A B C, which needs both the kept `concat`s and the first slice running to the key's end | not executed | Keys.ModeAsWrittenLosesTheKey | Keys.ModeRotates |
| src/app/music.service.ts:267-311 | the padding loops test `>`, so the rests total one less than the gap | one crotchet in a bar of 16: rests 8, 2, 1 end at 15 | rests 8, 4 ending on the bar line; the corrected padding both tests `>=` and takes the gap modulo the bar, so a phrase already on a bar line gets no rests where `>=` alone would add a whole bar | not executed | Music.PaddingEndsShortOfBar | Music.PadToBarEndsOnBarLine |
| src/app/music.service.ts:249 | the first pass's budget test runs `totalTime` on the empty phrase (line 246), which reduces an empty list and throws before line 249 is reached; line 249 would discard `phrase.concat(addition)` anyway | any key, motif and start indexes | the additions (altered by the music service's own `modifyMotif`, as written) appended within the bar budget, an empty phrase counting as zero long and `applyMotif`'s `Length` as the length, then accented and padded to the bar line | not executed | Music.DevelopMotifAsWritten | Music.DevelopPhrase |
| src/app/music.service.ts:160-181 | cases 2-4 of the legacy `modifyMotif` discard their `concat` results | motif pitches 0, 1, rhythm 4, 4, kind 2 | pitches 0, 1, 1, 2 with rhythm 4, 4, 4, 4 | not executed | Music.LegacyDropsConcatenation | Motifs.ModifiedShape |
| src/app/harmony.service.ts:70 | the fourth rule pushes the least distance as if it were an index | previous harmony 9, rising melody on index 7 of a twelve-entry range: pushes 2 | the nearest choice, 7 | not executed | Harmony.LastRuleDistanceWitness | Harmony.ChooseNearestPicksAChoice |
