/** The music service: chords over a key, the legacy motif development, the
    realisation of a motif as tones in a key, and the phrase builder with
    its bar budget, accent pass and padding with rests. */
module Music {
  import opened Wrappers
  import opened Enums
  import opened Arith
  import opened Keys
  import opened Random
  import opened MotifModel
  import opened Motifs

  /* ---------------------------------------------------------------- chords */

  /** `root`, then `count` times the note two scale degrees on from the last
      one pushed: `nextNote(previous, key, 2)`.  A push past the key is
      `undefined`, and the next `nextNote` from it looks for `undefined` in the
      chromatic list and recurses without end. */
  function Stacked(root: Note, key: seq<Note>, count: nat): (r: Result<seq<Note>>)
    ensures r.Ok? ==> |r.value| == count + 1
  {
    if count == 0 then Ok([root]) else PushThird(Stacked(root, key, count - 1), key)
  }

  /** One pass of the loop after `below`: the note two degrees on from its top. */
  function PushThird(below: Result<seq<Note>>, key: seq<Note>): (r: Result<seq<Note>>)
    requires below.Ok? ==> below.value != []
    ensures r.Ok? ==> below.Ok? && |r.value| == |below.value| + 1
  {
    if below.Err? then
      if below.fault == Undefined then Err(Diverges) else below
    else
      var next :- NextNote(below.value[|below.value| - 1], key, 2);
      Ok(below.value + [next])
  }

  /** Once a push fails, every longer chord fails: the same way, except that
      stepping on from an undefined note never ends. */
  lemma {:induction false} StackedFailureStays(root: Note, key: seq<Note>, i: nat, j: nat)
    requires i <= j && Stacked(root, key, i).Err?
    ensures Stacked(root, key, j).Err?
    ensures i < j && Stacked(root, key, i).fault == Undefined ==> Stacked(root, key, j) == Err(Diverges)
    ensures Stacked(root, key, i).fault != Undefined ==> Stacked(root, key, j) == Stacked(root, key, i)
    decreases j
  {
    if j > i {
      StackedFailureStays(root, key, i, j - 1);
      FailureStaysStep(root, key, i, j);
    }
  }

  lemma FailureStaysStep(root: Note, key: seq<Note>, i: nat, j: nat)
    requires i < j && Stacked(root, key, i).Err? && Stacked(root, key, j - 1).Err?
    requires i < j - 1 && Stacked(root, key, i).fault == Undefined ==> Stacked(root, key, j - 1) == Err(Diverges)
    requires Stacked(root, key, i).fault != Undefined ==> Stacked(root, key, j - 1) == Stacked(root, key, i)
    ensures Stacked(root, key, j).Err?
    ensures Stacked(root, key, i).fault == Undefined ==> Stacked(root, key, j) == Err(Diverges)
    ensures Stacked(root, key, i).fault != Undefined ==> Stacked(root, key, j) == Stacked(root, key, i)
  {
    FailureStep(root, key, j);
  }

  /** A push after a failure: an undefined top diverges, any other failure stays. */
  lemma FailureStep(root: Note, key: seq<Note>, j: nat)
    requires j > 0 && Stacked(root, key, j - 1).Err?
    ensures Stacked(root, key, j) ==
      if Stacked(root, key, j - 1).fault == Undefined then Err(Diverges) else Stacked(root, key, j - 1)
  {
  }

  /** A one-note key: the second note is `undefined`, and a third never comes. */
  lemma OneNoteKeyChord(x: Note, count: nat)
    requires x != Rest && count >= 1
    ensures Stacked(x, [x], count) == if count == 1 then Err(Undefined) else Err(Diverges)
  {
    NextNoteResult(x, [x], 2);
    if count > 1 {
      StackedFailureStays(x, [x], 1, count);
    }
  }

  /** What `chord(key, rootNumber, noOfNotes)` yields: the root and then
      `noOfNotes - 1` thirds.  A root outside the key is `undefined`: alone it
      is returned as such, and stepping from it recurses without end. */
  function ChordOf(key: seq<Note>, rootNumber: int, noOfNotes: int): Result<seq<Note>> {
    var count := if noOfNotes - 1 > 0 then noOfNotes - 1 else 0;
    if 0 <= rootNumber - 1 < |key| then Stacked(key[rootNumber - 1], key, count)
    else if count == 0 then Err(Undefined)
    else Err(Diverges)
  }

  /** `chord`: push the root, then `noOfNotes - 1` times the note two degrees on. */
  method Chord(key: seq<Note>, rootNumber: int, noOfNotes: int) returns (r: Result<seq<Note>>)
    ensures r == ChordOf(key, rootNumber, noOfNotes)
  {
    var rootIndex := rootNumber - 1;
    if !(0 <= rootIndex < |key|) {
      r := if noOfNotes - 1 > 0 then Err(Diverges) else Err(Undefined);
      return;
    }
    var root := key[rootIndex];
    var count: nat := if noOfNotes - 1 > 0 then noOfNotes - 1 else 0;
    r := StackThirds(root, key, count);
  }

  /** The loop of `chord`: push the note two degrees on from the last one,
      `count` times. */
  method StackThirds(root: Note, key: seq<Note>, count: nat) returns (r: Result<seq<Note>>)
    ensures r == Stacked(root, key, count)
  {
    var chord := [root];
    for i := 0 to count
      invariant Stacked(root, key, i) == Ok(chord)
    {
      var next := NextNote(chord[|chord| - 1], key, 2);
      StackedNext(root, key, i, chord);
      if next.Err? {
        StackedFailureStays(root, key, i + 1, count);
        // an undefined note pushed here makes the next pass recurse without end
        return if next.fault == Undefined && i + 1 < count then Err(Diverges) else Err(next.fault);
      }
      chord := chord + [next.value];
    }
    r := Ok(chord);
  }

  /** One more push: the next note two degrees on, or its failure. */
  lemma StackedNext(root: Note, key: seq<Note>, i: nat, chord: seq<Note>)
    requires Stacked(root, key, i) == Ok(chord)
    ensures var next := NextNote(chord[|chord| - 1], key, 2);
      Stacked(root, key, i + 1) == if next.Ok? then Ok(chord + [next.value]) else Err(next.fault)
  {
  }

  lemma {:induction false} StackedStaysInKey(root: Note, key: seq<Note>, count: nat)
    requires root in key && Stacked(root, key, count).Ok?
    ensures forall x :: x in Stacked(root, key, count).value ==> x in key
  {
    if count > 0 {
      var below := Stacked(root, key, count - 1).value;
      StackedStaysInKey(root, key, count - 1);
      NextNoteResult(below[|below| - 1], key, 2);
    }
  }

  /** A push on a chord of key notes succeeds exactly when the key has two notes or more. */
  lemma PushFromKey(root: Note, key: seq<Note>, i: nat)
    requires root in key && Stacked(root, key, i).Ok?
    ensures Stacked(root, key, i + 1).Ok? <==> |key| >= 2
  {
    var below := Stacked(root, key, i).value;
    StackedNext(root, key, i, below);
    StackedStaysInKey(root, key, i);
    assert below[|below| - 1] in below;
    NextNoteResult(below[|below| - 1], key, 2);
  }

  /** From a root inside the key, thirds can be stacked to any height exactly
      when the key has at least two notes. */
  lemma {:induction false} StackedDefined(root: Note, key: seq<Note>, count: nat)
    requires root in key
    ensures Stacked(root, key, count).Ok? <==> count == 0 || |key| >= 2
  {
    if count > 0 {
      StackedDefined(root, key, count - 1);
      DefinedStep(root, key, count);
    }
  }

  lemma DefinedStep(root: Note, key: seq<Note>, count: nat)
    requires root in key && count > 0
    requires Stacked(root, key, count - 1).Ok? <==> count == 1 || |key| >= 2
    ensures Stacked(root, key, count).Ok? <==> |key| >= 2
  {
    if Stacked(root, key, count - 1).Ok? {
      PushFromKey(root, key, count - 1);
    } else {
      FailureStep(root, key, count);
    }
  }

  /** `chord` delivers notes exactly when the root number names a degree of the
      key and, for more than one note, the key has at least two notes. */
  lemma ChordDefined(key: seq<Note>, rootNumber: int, noOfNotes: int)
    ensures ChordOf(key, rootNumber, noOfNotes).Ok? <==>
      1 <= rootNumber <= |key| && (noOfNotes <= 1 || |key| >= 2)
  {
    if 1 <= rootNumber <= |key| {
      StackedDefined(key[rootNumber - 1], key, if noOfNotes - 1 > 0 then noOfNotes - 1 else 0);
    }
  }

  /** `Distinct`, stated note by note from the end, so that a proof can carry it
      without every index of the key meeting every other. */
  predicate NoRepeats(key: seq<Note>) {
    key == [] || (key[|key| - 1] !in key[..|key| - 1] && NoRepeats(key[..|key| - 1]))
  }

  lemma {:induction false} NoRepeatsIsDistinct(key: seq<Note>)
    ensures NoRepeats(key) <==> Distinct(key)
  {
    if key != [] {
      var init := key[..|key| - 1];
      NoRepeatsIsDistinct(init);
      if Distinct(key) {
        assert Distinct(init) by {
          forall i, j | 0 <= i < j < |init| ensures init[i] != init[j] {
            assert init[i] == key[i] && init[j] == key[j];
          }
        }
      }
      if NoRepeats(key) {
        forall i, j | 0 <= i < j < |key| ensures key[i] != key[j] {
          if j < |key| - 1 {
            assert key[i] == init[i] && key[j] == init[j];
          } else {
            assert key[i] == init[i] && init[i] in init;
          }
        }
      }
    }
  }

  /** The index of the key degree `2k` above degree `j`, counted cyclically. */
  function ThirdsUp(j: int, k: int, n: int): int
    requires n > 0
  {
    (j + 2 * k) % n
  }

  /** The note two degrees above degree `k` thirds up is degree `k + 1` thirds up. */
  lemma ThirdAbove(key: seq<Note>, j: nat, k: nat, top: Note)
    requires Distinct(key) && |key| > 0
    requires NextNote(key[ThirdsUp(j, k, |key|)], key, 2) == Ok(top)
    ensures top == key[ThirdsUp(j, k + 1, |key|)]
  {
    var i := ThirdsUp(j, k, |key|);
    IndexOfDistinct(key, i);
    NextNoteResult(key[i], key, 2);
    ModAddMod(j + 2 * k, 2, |key|);
    assert j + 2 * k + 2 == j + 2 * (k + 1);
  }

  lemma {:induction false} StackedThirds(key: seq<Note>, j: nat, count: nat)
    requires j < |key| && Stacked(key[j], key, count).Ok?
    ensures NoRepeats(key) ==> forall k :: 0 <= k <= count ==>
      Stacked(key[j], key, count).value[k] == key[ThirdsUp(j, k, |key|)]
  {
    if count == 0 {
      ThirdsFromItself(j, |key|);
      assert Stacked(key[j], key, 0).value == [key[j]];
    } else {
      var _ := StackedPush(key[j], key, count);
      StackedThirds(key, j, count - 1);
      if NoRepeats(key) {
        ThirdsStep(key, j, count);
      }
    }
  }

  lemma ThirdsFromItself(j: nat, n: nat)
    requires j < n
    ensures ThirdsUp(j, 0, n) == j
  {
  }

  lemma ThirdsStep(key: seq<Note>, j: nat, count: nat)
    requires NoRepeats(key) && j < |key| && count > 0
    requires Stacked(key[j], key, count).Ok? && Stacked(key[j], key, count - 1).Ok?
    requires forall k :: 0 <= k <= count - 1 ==>
      Stacked(key[j], key, count - 1).value[k] == key[ThirdsUp(j, k, |key|)]
    ensures forall k :: 0 <= k <= count ==>
      Stacked(key[j], key, count).value[k] == key[ThirdsUp(j, k, |key|)]
  {
    var top := StackedPush(key[j], key, count);
    var below := Stacked(key[j], key, count - 1).value;
    assert below[|below| - 1] == key[ThirdsUp(j, count - 1, |key|)];
    NoRepeatsIsDistinct(key);
    ThirdAbove(key, j, count - 1, top);
    ThirdsPush(key, j, below, top);
  }

  lemma StackedPush(root: Note, key: seq<Note>, count: nat) returns (top: Note)
    requires count > 0 && Stacked(root, key, count).Ok?
    ensures Stacked(root, key, count - 1).Ok?
    ensures var below := Stacked(root, key, count - 1).value;
      NextNote(below[|below| - 1], key, 2) == Ok(top) &&
      Stacked(root, key, count).value == below + [top]
  {
    var below := Stacked(root, key, count - 1).value;
    top := NextNote(below[|below| - 1], key, 2).value;
  }

  lemma ThirdsPush(key: seq<Note>, j: nat, below: seq<Note>, top: Note)
    requires |key| > 0
    requires forall k :: 0 <= k < |below| ==> below[k] == key[ThirdsUp(j, k, |key|)]
    requires top == key[ThirdsUp(j, |below|, |key|)]
    ensures forall k :: 0 <= k <= |below| ==> (below + [top])[k] == key[ThirdsUp(j, k, |key|)]
  {
  }

  /** In a key without repeated notes, the `k`-th note of a chord on degree
      `rootNumber` is the key's degree `rootNumber + 2k`, counted cyclically. */
  lemma ChordIsThirds(key: seq<Note>, rootNumber: int, noOfNotes: int)
    requires Distinct(key)
    ensures ChordOf(key, rootNumber, noOfNotes).Ok? ==>
      |ChordOf(key, rootNumber, noOfNotes).value| == (if noOfNotes > 1 then noOfNotes else 1)
    ensures ChordOf(key, rootNumber, noOfNotes).Ok? ==>
      forall k :: 0 <= k < |ChordOf(key, rootNumber, noOfNotes).value| ==>
        ChordOf(key, rootNumber, noOfNotes).value[k] == key[(rootNumber - 1 + 2 * k) % |key|]
  {
    NoRepeatsIsDistinct(key);
    ChordThirds(key, rootNumber, noOfNotes);
    var chord := ChordOf(key, rootNumber, noOfNotes);
    if chord.Ok? {
      forall k | 0 <= k < |chord.value|
        ensures chord.value[k] == key[(rootNumber - 1 + 2 * k) % |key|]
      {
        assert chord.value[k] == key[ThirdsUp(rootNumber - 1, k, |key|)];
      }
    }
  }

  lemma ChordThirds(key: seq<Note>, rootNumber: int, noOfNotes: int)
    requires NoRepeats(key)
    ensures ChordOf(key, rootNumber, noOfNotes).Ok? ==>
      |ChordOf(key, rootNumber, noOfNotes).value| == (if noOfNotes > 1 then noOfNotes else 1)
    ensures ChordOf(key, rootNumber, noOfNotes).Ok? ==>
      forall k :: 0 <= k < |ChordOf(key, rootNumber, noOfNotes).value| ==>
        ChordOf(key, rootNumber, noOfNotes).value[k] == key[ThirdsUp(rootNumber - 1, k, |key|)]
  {
    if 1 <= rootNumber <= |key| {
      var count := if noOfNotes - 1 > 0 then noOfNotes - 1 else 0;
      if Stacked(key[rootNumber - 1], key, count).Ok? {
        StackedThirds(key, rootNumber - 1, count);
      }
    }
  }

  /** The tonic triad of C major. */
  lemma CMajorTriad()
    ensures ChordOf([C, D, E, F, G, A, B], 1, 3) == Ok([C, E, G])
  {
    var key := [C, D, E, F, G, A, B];
    ChordDefined(key, 1, 3);
    ChordIsThirds(key, 1, 3);
    var r := ChordOf(key, 1, 3).value;
    assert r[0] == key[0 % 7] && r[1] == key[2 % 7] && r[2] == key[4 % 7];
    assert r == [r[0], r[1], r[2]];
  }

  /* ------------------------------------------------- legacy motif development */

  /** What the music service's own `modifyMotif` returns for a drawn kind.  The
      concatenations of cases 2 to 4 are computed and thrown away, so only the
      reversals of cases 1 and 4 survive; case 5, drawn only when a pool is
      given, concatenates into an object without lists and throws. */
  function LegacyModified(kind: int, m: Motif, motifPool: Option<seq<Motif>>): Result<Motif> {
    if kind == 5 && motifPool.Some? then Err(TypeError)
    else if kind == 1 || kind == 4 then Ok(Motif(Reverse(m.pitches), m.rhythm))
    else Ok(m)
  }

  /** The kinds the legacy development draws from: four without a pool, five with one. */
  function LegacyKinds(motifPool: Option<seq<Motif>>): int {
    if motifPool.None? then 4 else 5
  }

  /** The music service's `modifyMotif`, as written: copies of the lists are
      developed, but the `concat` results of cases 2 to 4 are discarded. */
  method ModifyMotifAsWritten(src: Source, motif: Motif, motifPool: Option<seq<Motif>>) returns (r: Result<Motif>)
    requires ValidSource(src)
    ensures r == LegacyModified(Next(src, 0, 1, LegacyKinds(motifPool)), motif, motifPool)
  {
    var randomInt := Next(src, 0, 1, LegacyKinds(motifPool));
    var displacement := Next(src, 1, -1, 1);
    var developedMotifPitches := motif.pitches;
    var developedMotifRhythm := motif.rhythm;
    if randomInt == 1 || randomInt == 4 {
      developedMotifPitches := ReversedCopy(developedMotifPitches);
    } else if randomInt == 5 && motifPool.Some? {
      return Err(TypeError);
    }
    r := Ok(Motif(developedMotifPitches, developedMotifRhythm));
  }

  /** The legacy development never changes the rhythm or the number of pitches:
      every kind it can draw leaves the motif as long as it was, whereas the
      motif service's kinds 2 to 4 (`Motifs.Develop`) double it. */
  lemma LegacyNeverExtends(src: Source, m: Motif, motifPool: Option<seq<Motif>>)
    requires ValidSource(src)
    ensures var kind := Next(src, 0, 1, LegacyKinds(motifPool));
      1 <= kind <= LegacyKinds(motifPool) &&
      (LegacyModified(kind, m, motifPool).Ok? ==>
        LegacyModified(kind, m, motifPool).value.rhythm == m.rhythm &&
        multiset(LegacyModified(kind, m, motifPool).value.pitches) == multiset(m.pitches))
    ensures LegacyModified(5, m, motifPool).Ok? <==> motifPool.None?
  {
    var kind := Next(src, 0, 1, LegacyKinds(motifPool));
    if kind == 1 || kind == 4 {
      ReverseMultiset(m.pitches);
    }
  }

  /** A witness of the discarded concatenation: with a two-note motif, kind 2
      as written returns the motif itself, where the intended development is
      the motif followed by its transposition. */
  lemma LegacyDropsConcatenation()
    ensures LegacyModified(2, Motif([0, 1], [4, 4]), None) == Ok(Motif([0, 1], [4, 4]))
    ensures Develop(2, 1, Motif([0, 1], [4, 4])) == Motif([0, 1, 1, 2], [4, 4, 4, 4])
  {
    assert Transpose([0, 1], 1) == [1, 2];
  }

  /* ------------------------------------------------------------ applyMotif */

  /** A translated index that `keyRange[...]` can read: the rest or an entry. */
  predicate Readable(index: int, rangeLength: nat) {
    index == RestPitch || 0 <= index < rangeLength
  }

  /** `start + startOctave * |key| - pitches[0]`, where a missing or zero start
      index falls back to the first pitch (`startIndex || motif.pitches[0]`). */
  function Translation(m: Motif, startIndex: Option<int>, startOctave: int, keyLength: nat): int
    requires m.pitches != []
  {
    var start := if startIndex.Some? && startIndex.value != 0 then startIndex.value else m.pitches[0];
    start + startOctave * keyLength - m.pitches[0]
  }

  /** A pitch moved by the translation, unless it is a rest or would go below 0. */
  function Translated(p: int, amount: int): int {
    if p == RestPitch || p + amount < 0 then p else p + amount
  }

  /** The octave, held inside `minOctave..maxOctave` by testing the lower bound first. */
  function ClampOctave(octave: int, minOctave: int, maxOctave: int): (r: int)
    ensures minOctave <= maxOctave ==> minOctave <= r <= maxOctave
    ensures minOctave <= octave <= maxOctave ==> r == octave
  {
    if octave < minOctave then minOctave else if octave > maxOctave then maxOctave else octave
  }

  /** The tone for one translated index of the key range. */
  function ToneAt(range: seq<KeyTone>, index: int, length: nat, minOctave: int, maxOctave: int): Tone
    requires Readable(index, |range|)
  {
    if index == RestPitch then RestTone(length)
    else Tone(range[index].note, Some(ClampOctave(range[index].octave, minOctave, maxOctave)), length, None)
  }

  /** What `applyMotif` yields.  Reading a key-range entry that does not exist
      throws; a rhythm shorter than the pitches leaves `undefined` lengths. */
  function Applied(key: seq<Note>, m: Motif, startIndex: Option<int>, startOctave: int,
                   minOctave: int, maxOctave: int): Result<seq<Tone>>
  {
    if m.pitches == [] then Ok([])
    else
      var amount := Translation(m, startIndex, startOctave, |key|);
      var range := Numbered(Repeat(key, 100));
      if exists i :: 0 <= i < |m.pitches| && !Readable(Translated(m.pitches[i], amount), |range|) then
        Err(TypeError)
      else if |m.rhythm| < |m.pitches| then Err(Undefined)
      else
        Ok(seq(|m.pitches|, i requires 0 <= i < |m.pitches| =>
          ToneAt(range, Translated(m.pitches[i], amount), m.rhythm[i], minOctave, maxOctave)))
  }

  /** `applyMotif`: translate the pitches, build a key range of 100 repetitions,
      and push one tone per pitch. */
  method ApplyMotif(key: seq<Note>, motif: Motif, startIndex: Option<int>, startOctave: int,
                    minOctave: int, maxOctave: int) returns (r: Result<seq<Tone>>)
    ensures r == Applied(key, motif, startIndex, startOctave, minOctave, maxOctave)
  {
    if motif.pitches == [] {
      return Ok([]);
    }
    var amount := Translation(motif, startIndex, startOctave, |key|);
    var translated := seq(|motif.pitches|, i requires 0 <= i < |motif.pitches| => Translated(motif.pitches[i], amount));
    var range := KeyRange(key, 100);
    var applied: seq<Tone> := [];
    var lengthMissing := false;
    for i := 0 to |translated|
      invariant |applied| == i
      invariant lengthMissing <==> i > |motif.rhythm|
      invariant forall j :: 0 <= j < i ==> Readable(translated[j], |range|)
      invariant forall j :: 0 <= j < i && j < |motif.rhythm| ==>
        applied[j] == ToneAt(range, translated[j], motif.rhythm[j], minOctave, maxOctave)
    {
      var length: nat := 0;
      if i < |motif.rhythm| {
        length := motif.rhythm[i];
      } else {
        lengthMissing := true;
      }
      var tone: Tone;
      if translated[i] == RestPitch {
        tone := RestTone(length);
      } else {
        if !(0 <= translated[i] < |range|) {
          assert !Readable(Translated(motif.pitches[i], amount), |range|);
          return Err(TypeError);
        }
        var octave := range[translated[i]].octave;
        var octaveToUse := ClampOctave(octave, minOctave, maxOctave);
        tone := Tone(range[translated[i]].note, Some(octaveToUse), length, None);
      }
      applied := applied + [tone];
    }
    forall j | 0 <= j < |motif.pitches|
      ensures Readable(Translated(motif.pitches[j], amount), |range|)
    {
      assert translated[j] == Translated(motif.pitches[j], amount);
    }
    if lengthMissing {
      return Err(Undefined);
    }
    r := Ok(applied);
    assert applied == seq(|motif.pitches|, i requires 0 <= i < |motif.pitches| =>
      ToneAt(range, Translated(motif.pitches[i], amount), motif.rhythm[i], minOctave, maxOctave));
  }

  /** One tone per pitch, each as long as its rhythm entry and with no volume
      yet; rests stay rests without an octave, and every sounding tone gets an
      octave inside the bounds. */
  lemma AppliedShape(key: seq<Note>, m: Motif, startIndex: Option<int>, startOctave: int,
                     minOctave: int, maxOctave: int)
    requires Applied(key, m, startIndex, startOctave, minOctave, maxOctave).Ok?
    ensures var tones := Applied(key, m, startIndex, startOctave, minOctave, maxOctave).value;
      |tones| == |m.pitches| &&
      forall i :: 0 <= i < |tones| ==>
        tones[i].length == m.rhythm[i] && tones[i].volume == None &&
        (tones[i].octave == None <==> m.pitches[i] == RestPitch) &&
        (m.pitches[i] == RestPitch ==> tones[i].note == Rest) &&
        (minOctave <= maxOctave && tones[i].octave.Some? ==>
           minOctave <= tones[i].octave.value <= maxOctave)
  {
    var tones := Applied(key, m, startIndex, startOctave, minOctave, maxOctave).value;
    if m.pitches != [] {
      var amount := Translation(m, startIndex, startOctave, |key|);
      forall i | 0 <= i < |tones|
        ensures tones[i].octave == None <==> m.pitches[i] == RestPitch
      {
        assert Translated(m.pitches[i], amount) == RestPitch <==> m.pitches[i] == RestPitch;
      }
    }
  }

  /** Every sounding tone is a note of the key, read from the key range. */
  lemma AppliedStaysInKey(key: seq<Note>, m: Motif, startIndex: Option<int>, startOctave: int,
                          minOctave: int, maxOctave: int)
    requires Applied(key, m, startIndex, startOctave, minOctave, maxOctave).Ok?
    ensures var tones := Applied(key, m, startIndex, startOctave, minOctave, maxOctave).value;
      forall i :: 0 <= i < |tones| && m.pitches[i] != RestPitch ==> tones[i].note in key
  {
    var tones := Applied(key, m, startIndex, startOctave, minOctave, maxOctave).value;
    if m.pitches != [] {
      var amount := Translation(m, startIndex, startOctave, |key|);
      forall i | 0 <= i < |tones| && m.pitches[i] != RestPitch
        ensures tones[i].note in key
      {
        var index := Translated(m.pitches[i], amount);
        assert Readable(index, 100 * |key|);
        RangeNote(key, 100, index);
      }
    }
  }

  /** The first pitch lands on the start index in the block of octave
      `startOctave`: entry `index = start + startOctave * |key|` of the key
      range, where a start index of 0 counts as no start index at all. */
  lemma AppliedStartsAtStart(key: seq<Note>, m: Motif, startIndex: Option<int>, startOctave: int,
                             minOctave: int, maxOctave: int, start: int, index: int)
    requires m.pitches != [] && m.pitches[0] != RestPitch
    requires start == if startIndex.Some? && startIndex.value != 0 then startIndex.value else m.pitches[0]
    requires Applied(key, m, startIndex, startOctave, minOctave, maxOctave).Ok?
    requires index == start + startOctave * |key| && 0 <= index < 100 * |key|
    ensures Applied(key, m, startIndex, startOctave, minOctave, maxOctave).value[0] ==
      ToneAt(Numbered(Repeat(key, 100)), index, m.rhythm[0], minOctave, maxOctave)
    ensures Applied(key, m, startIndex, startOctave, minOctave, maxOctave).value[0].note == key[index % |key|]
  {
    TranslatedFirst(m, startIndex, startOctave, |key|, start);
    AppliedAt(key, m, startIndex, startOctave, minOctave, maxOctave, index);
  }

  lemma AppliedAt(key: seq<Note>, m: Motif, startIndex: Option<int>, startOctave: int,
                  minOctave: int, maxOctave: int, index: int)
    requires m.pitches != []
    requires Applied(key, m, startIndex, startOctave, minOctave, maxOctave).Ok?
    requires Translated(m.pitches[0], Translation(m, startIndex, startOctave, |key|)) == index
    requires 0 <= index < 100 * |key|
    ensures Applied(key, m, startIndex, startOctave, minOctave, maxOctave).value[0] ==
      ToneAt(Numbered(Repeat(key, 100)), index, m.rhythm[0], minOctave, maxOctave)
    ensures Applied(key, m, startIndex, startOctave, minOctave, maxOctave).value[0].note == key[index % |key|]
  {
    AppliedFirst(key, m, startIndex, startOctave, minOctave, maxOctave);
    RangeNote(key, 100, index);
  }

  /** The first pitch moves to the start index, `startOctave` key lengths up. */
  lemma TranslatedFirst(m: Motif, startIndex: Option<int>, startOctave: int, keyLength: nat, start: int)
    requires m.pitches != [] && m.pitches[0] != RestPitch
    requires start == if startIndex.Some? && startIndex.value != 0 then startIndex.value else m.pitches[0]
    requires 0 <= start + startOctave * keyLength
    ensures Translated(m.pitches[0], Translation(m, startIndex, startOctave, keyLength)) ==
      start + startOctave * keyLength
  {
  }

  /** The first tone applied is the tone for the first translated pitch. */
  lemma AppliedFirst(key: seq<Note>, m: Motif, startIndex: Option<int>, startOctave: int,
                     minOctave: int, maxOctave: int)
    requires m.pitches != []
    requires Applied(key, m, startIndex, startOctave, minOctave, maxOctave).Ok?
    ensures var range := Numbered(Repeat(key, 100));
      var first := Translated(m.pitches[0], Translation(m, startIndex, startOctave, |key|));
      Readable(first, |range|) && |m.rhythm| >= 1 &&
      Applied(key, m, startIndex, startOctave, minOctave, maxOctave).value[0] ==
        ToneAt(range, first, m.rhythm[0], minOctave, maxOctave)
  {
  }

  /** `startIndex || pitches[0]`: a start index of 0 is the same as none. */
  lemma StartIndexZeroIsAbsent(key: seq<Note>, m: Motif, startOctave: int, minOctave: int, maxOctave: int)
    ensures Applied(key, m, Some(0), startOctave, minOctave, maxOctave) ==
      Applied(key, m, None, startOctave, minOctave, maxOctave)
  {
  }

  /* ------------------------------------------------------------ totalTime */

  /** `totalTime`: the sum of the lengths, by a `reduce` without a start value,
      which throws on an empty phrase. */
  function TotalTime(phrase: seq<Tone>): (r: Result<nat>)
    ensures r.Ok? <==> phrase != []
    ensures r.Ok? ==> r.value == Duration(phrase)
  {
    if phrase == [] then Err(TypeError) else Ok(Duration(phrase))
  }

  /* ------------------------------------------------------------- padding */

  /** The rest lengths the padding loops try, longest first. */
  const PaddingLengths: seq<nat> := [Semibreve, Minim, Crotchet, Quaver, SemiQuaver]

  /** Whether a loop on rest length `length` goes round once more: `>` as
      written, `>=` where the padding is to reach the bar line. */
  predicate FitsRest(endRestTime: int, length: nat, strict: bool) {
    if strict then endRestTime > length else endRestTime >= length
  }

  /** The rests the loops push for `endRestTime` still to fill: as many of the
      first length as fit, then the rest of the lengths. */
  function GreedyRests(endRestTime: int, lengths: seq<nat>, strict: bool): (r: seq<nat>)
    requires forall k :: 0 <= k < |lengths| ==> lengths[k] > 0
    ensures forall x :: x in r ==> x in lengths
    decreases |lengths|, endRestTime
  {
    if lengths == [] then []
    else if FitsRest(endRestTime, lengths[0], strict) then
      [lengths[0]] + GreedyRests(endRestTime - lengths[0], lengths, strict)
    else GreedyRests(endRestTime, lengths[1..], strict)
  }

  /** With a semiquaver last, the strict loops leave exactly one semiquaver
      unfilled, and the inclusive ones fill everything. */
  lemma {:induction false} GreedyTotal(endRestTime: int, lengths: seq<nat>, strict: bool)
    requires forall k :: 0 <= k < |lengths| ==> lengths[k] > 0
    requires lengths != [] && lengths[|lengths| - 1] == 1
    ensures Total(GreedyRests(endRestTime, lengths, strict)) ==
      if endRestTime <= 0 then 0 else if strict then endRestTime - 1 else endRestTime
    decreases |lengths|, endRestTime
  {
    var r := GreedyRests(endRestTime, lengths, strict);
    if FitsRest(endRestTime, lengths[0], strict) {
      GreedyTotal(endRestTime - lengths[0], lengths, strict);
      TotalAppend([lengths[0]], GreedyRests(endRestTime - lengths[0], lengths, strict));
      assert Total([lengths[0]]) == lengths[0] by {
        assert [lengths[0]][..0] == [];
      }
    } else if |lengths| > 1 {
      GreedyTotal(endRestTime, lengths[1..], strict);
    } else {
      assert lengths[1..] == [];
      assert r == GreedyRests(endRestTime, [], strict) == [];
    }
  }

  /** Rest tones of the given lengths. */
  function RestTones(lengths: seq<nat>): (r: seq<Tone>)
    ensures |r| == |lengths|
    ensures forall i :: 0 <= i < |r| ==> r[i] == RestTone(lengths[i])
  {
    if lengths == [] then [] else [RestTone(lengths[0])] + RestTones(lengths[1..])
  }

  lemma {:induction false} RestTonesDuration(lengths: seq<nat>)
    ensures Duration(RestTones(lengths)) == Total(lengths)
  {
    if lengths != [] {
      var n := |lengths| - 1;
      assert RestTones(lengths)[..n] == RestTones(lengths[..n]);
      assert lengths[..n][..|lengths[..n]|] == lengths[..n];
      RestTonesDuration(lengths[..n]);
    }
  }

  /** One padding loop: push rests of `length` while the time still to fill
      passes the test. */
  method PushRests(padded: seq<Tone>, endRestTime: int, lengths: seq<nat>, strict: bool)
    returns (padded': seq<Tone>, endRestTime': int)
    requires lengths != [] && forall k :: 0 <= k < |lengths| ==> lengths[k] > 0
    ensures padded' + RestTones(GreedyRests(endRestTime', lengths[1..], strict)) ==
            padded + RestTones(GreedyRests(endRestTime, lengths, strict))
  {
    padded', endRestTime' := padded, endRestTime;
    while FitsRest(endRestTime', lengths[0], strict)
      invariant padded' + RestTones(GreedyRests(endRestTime', lengths, strict)) ==
                padded + RestTones(GreedyRests(endRestTime, lengths, strict))
      decreases endRestTime'
    {
      var rests := GreedyRests(endRestTime' - lengths[0], lengths, strict);
      assert RestTones([lengths[0]] + rests) == [RestTone(lengths[0])] + RestTones(rests);
      assert padded' + ([RestTone(lengths[0])] + RestTones(rests)) ==
             (padded' + [RestTone(lengths[0])]) + RestTones(rests);
      padded' := padded' + [RestTone(lengths[0])];
      endRestTime' := endRestTime' - lengths[0];
    }
  }

  /** The five padding loops, a semibreve, minim, crotchet, quaver and
      semiquaver at a time. */
  method FillWithRests(phrase: seq<Tone>, endRestTime: int, strict: bool) returns (padded: seq<Tone>)
    ensures padded == phrase + RestTones(GreedyRests(endRestTime, PaddingLengths, strict))
  {
    var time := endRestTime;
    padded := phrase;
    var lengths := PaddingLengths;
    while lengths != []
      invariant forall k :: 0 <= k < |lengths| ==> lengths[k] > 0
      invariant padded + RestTones(GreedyRests(time, lengths, strict)) ==
                phrase + RestTones(GreedyRests(endRestTime, PaddingLengths, strict))
    {
      padded, time := PushRests(padded, time, lengths, strict);
      lengths := lengths[1..];
    }
    assert padded + RestTones([]) == padded;
  }

  /** The time the padding starts from: `bar - total % bar`, where a bar of 0
      makes it NaN, which no loop test passes (modelled as 0).  For a negative
      bar JavaScript's `%` and the Euclidean one agree, as the total is not
      negative. */
  function EndRestTime(total: nat, singleBarTime: int): int {
    if singleBarTime == 0 then 0 else singleBarTime - total % singleBarTime
  }

  /** `padWithRests`, as written: with `E = bar - total mod bar`, the loops
      test `E > length`, so they stop one semiquaver short of the bar line. */
  method PadWithRests(phrase: seq<Tone>, singleBarTime: int) returns (r: Result<seq<Tone>>)
    ensures r.Ok? <==> phrase != []
    ensures r.Err? ==> r.fault == TypeError
    ensures r.Ok? ==>
      r.value == phrase + RestTones(GreedyRests(EndRestTime(Duration(phrase), singleBarTime), PaddingLengths, true))
  {
    var total :- TotalTime(phrase);
    if singleBarTime == 0 {
      // the remainder is NaN, and no loop runs
      NothingToFill(0, PaddingLengths, true);
      assert phrase + RestTones([]) == phrase;
      return Ok(phrase);
    }
    var remainder := total % singleBarTime;
    var endRestTime := singleBarTime - remainder;
    var padded := FillWithRests(phrase, endRestTime, true);
    r := Ok(padded);
  }

  /** The padding as written ends one semiquaver before a bar line: the rests
      make up `E - 1` of the `E` semiquavers missing, so a phrase already on a
      bar line gets a bar less a semiquaver of rests. */
  lemma PaddingEndsShortOfBar(phrase: seq<Tone>, singleBarTime: int)
    requires singleBarTime > 0
    ensures var rests := GreedyRests(EndRestTime(Duration(phrase), singleBarTime), PaddingLengths, true);
      Total(rests) == singleBarTime - Duration(phrase) % singleBarTime - 1 &&
      (Duration(phrase + RestTones(rests)) + 1) % singleBarTime == 0 &&
      (Duration(phrase) % singleBarTime == 0 ==> Total(rests) == singleBarTime - 1)
  {
    var total := Duration(phrase);
    var rests := GreedyRests(EndRestTime(total, singleBarTime), PaddingLengths, true);
    UpToMultiple(total, singleBarTime);
    GreedyTotal(EndRestTime(total, singleBarTime), PaddingLengths, true);
    DurationAppend(phrase, RestTones(rests));
    RestTonesDuration(rests);
  }

  /** A crotchet in a 4/4 bar gets a minim, a quaver and a semiquaver of
      rests: fifteen semiquavers in all, not sixteen. */
  lemma PaddingOneCrotchet()
    ensures GreedyRests(EndRestTime(4, 16), PaddingLengths, true) == [8, 2, 1]
    ensures GreedyRests(BarGap(4, 16), PaddingLengths, false) == [8, 4]
  {
    assert EndRestTime(4, 16) == 12 && BarGap(4, 16) == 12;
    assert GreedyRests(1, [1], true) == GreedyRests(1, [], true) == [];
    assert GreedyRests(2, [1], true) == [1] + GreedyRests(1, [1], true);
    assert GreedyRests(2, [2, 1], true) == GreedyRests(2, [1], true);
    assert GreedyRests(4, [2, 1], true) == [2] + GreedyRests(2, [2, 1], true);
    assert GreedyRests(4, [4, 2, 1], true) == GreedyRests(4, [2, 1], true);
    assert GreedyRests(4, [8, 4, 2, 1], true) == GreedyRests(4, [4, 2, 1], true);
    assert GreedyRests(12, [8, 4, 2, 1], true) == [8] + GreedyRests(4, [8, 4, 2, 1], true);
    assert GreedyRests(12, [16, 8, 4, 2, 1], true) == GreedyRests(12, [8, 4, 2, 1], true);
    NothingToFill(0, [4, 2, 1], false);
    assert GreedyRests(4, [4, 2, 1], false) == [4] + GreedyRests(0, [4, 2, 1], false);
    assert GreedyRests(4, [8, 4, 2, 1], false) == GreedyRests(4, [4, 2, 1], false);
    assert GreedyRests(12, [8, 4, 2, 1], false) == [8] + GreedyRests(4, [8, 4, 2, 1], false);
    assert GreedyRests(12, [16, 8, 4, 2, 1], false) == GreedyRests(12, [8, 4, 2, 1], false);
  }

  /** Nothing left to fill pushes no rest. */
  lemma {:induction false} NothingToFill(endRestTime: int, lengths: seq<nat>, strict: bool)
    requires endRestTime <= 0 && forall k :: 0 <= k < |lengths| ==> lengths[k] > 0
    ensures GreedyRests(endRestTime, lengths, strict) == []
    decreases |lengths|
  {
    if lengths != [] {
      NothingToFill(endRestTime, lengths[1..], strict);
    }
  }

  /** The time missing to the next bar line: nothing for a phrase already on
      one, and nothing for a bar that is not positive. */
  function BarGap(total: nat, singleBarTime: int): int {
    if singleBarTime > 0 then (singleBarTime - total % singleBarTime) % singleBarTime else 0
  }

  /** The padding as evidently intended: the loops test `>=` and start from the
      time missing to the next bar line, so the phrase ends on one.  An empty
      phrase counts as zero long. */
  method PadToBar(phrase: seq<Tone>, singleBarTime: int) returns (padded: seq<Tone>)
    ensures padded == phrase + RestTones(GreedyRests(BarGap(Duration(phrase), singleBarTime), PaddingLengths, false))
  {
    var total := Duration(phrase);
    var endRestTime := 0;
    if singleBarTime > 0 {
      endRestTime := (singleBarTime - total % singleBarTime) % singleBarTime;
    }
    padded := FillWithRests(phrase, endRestTime, false);
  }

  /** The intended padding ends on a bar line, adds less than a bar, keeps the
      phrase as its prefix and adds only rests of the padding lengths. */
  lemma PadToBarEndsOnBarLine(phrase: seq<Tone>, singleBarTime: int)
    ensures var rests := GreedyRests(BarGap(Duration(phrase), singleBarTime), PaddingLengths, false);
      (singleBarTime > 0 ==>
         Duration(phrase + RestTones(rests)) % singleBarTime == 0 && Total(rests) < singleBarTime) &&
      (singleBarTime <= 0 ==> rests == []) &&
      forall x :: x in rests ==> x in PaddingLengths
  {
    var total := Duration(phrase);
    var gap := BarGap(total, singleBarTime);
    var rests := GreedyRests(gap, PaddingLengths, false);
    GreedyTotal(gap, PaddingLengths, false);
    DurationAppend(phrase, RestTones(rests));
    RestTonesDuration(rests);
    if singleBarTime > 0 {
      BarGapCloses(total, singleBarTime);
    } else {
      NothingToFill(0, PaddingLengths, false);
    }
  }

  /** The gap to the next bar line is less than a bar and closes the bar. */
  lemma BarGapCloses(total: nat, singleBarTime: int)
    requires singleBarTime > 0
    ensures 0 <= BarGap(total, singleBarTime) < singleBarTime
    ensures (total + BarGap(total, singleBarTime)) % singleBarTime == 0
  {
    UpToMultiple(total, singleBarTime);
  }

  /* ----------------------------------------------------------- accent pass */

  /** Volume for a tone with `remaining` semiquavers from its start to the end
      of the phrase: accented when that is a whole number of bars.  A bar of 0
      makes the remainder NaN, which is never 0. */
  function AccentFor(remaining: nat, singleBarTime: int): real {
    if singleBarTime != 0 && remaining % singleBarTime == 0 then AccentVolume else PlainVolume
  }

  /** The phrase after the accent pass. */
  function Accented(tones: seq<Tone>, singleBarTime: int): (r: seq<Tone>)
    ensures |r| == |tones|
  {
    seq(|tones|, i requires 0 <= i < |tones| =>
      tones[i].(volume := Some(AccentFor(Duration(tones[i..]), singleBarTime))))
  }

  /** The accent pass of `developMotif`: write each tone's volume in place. */
  method AccentPass(phrase: array<Tone>, beats: int, beatType: int)
    modifies phrase
    ensures phrase[..] == Accented(old(phrase[..]), beats * beatType)
  {
    var singleBarTime := beats * beatType;
    for i := 0 to phrase.Length
      invariant forall j :: 0 <= j < i ==>
        phrase[j] == old(phrase[j]).(volume := Some(AccentFor(Duration(old(phrase[..])[j..]), singleBarTime)))
      invariant forall j :: i <= j < phrase.Length ==> phrase[j] == old(phrase[j])
    {
      assert phrase[i..] == old(phrase[..])[i..];
      var timeUpToThisTone := Duration(phrase[i..]);
      phrase[i] := phrase[i].(volume := Some(AccentFor(timeUpToThisTone, singleBarTime)));
    }
  }

  lemma {:induction false} SameLengthsSameDuration(a: seq<Tone>, b: seq<Tone>)
    requires |a| == |b| && forall i :: 0 <= i < |a| ==> a[i].length == b[i].length
    ensures Duration(a) == Duration(b)
  {
    if a != [] {
      SameLengthsSameDuration(a[..|a| - 1], b[..|b| - 1]);
    }
  }

  /** The accent pass changes only volumes: each tone is accented exactly when
      the tones from it to the end fill whole bars, and the phrase keeps its
      notes, octaves, lengths and so its duration. */
  lemma AccentedKeeps(tones: seq<Tone>, singleBarTime: int)
    ensures var r := Accented(tones, singleBarTime);
      Duration(r) == Duration(tones) &&
      forall i :: 0 <= i < |tones| ==>
        r[i].note == tones[i].note && r[i].octave == tones[i].octave && r[i].length == tones[i].length &&
        (r[i].volume == Some(AccentVolume) <==>
           singleBarTime != 0 && Duration(tones[i..]) % singleBarTime == 0) &&
        (r[i].volume == Some(AccentVolume) || r[i].volume == Some(PlainVolume))
  {
    SameLengthsSameDuration(Accented(tones, singleBarTime), tones);
  }

  /* ------------------------------------------------------------ developMotif */

  /** The oracle as seen by an operation that starts after `base` draws. */
  function Shift(src: Source, base: nat): (s: Source) {
    (t: nat, lo: int, hi: int) => src(base + t, lo, hi)
  }

  lemma ShiftValid(src: Source, base: nat)
    requires ValidSource(src)
    ensures ValidSource(Shift(src, base))
  {
    forall t: nat, lo: int, hi: int ensures InRange(Shift(src, base)(t, lo, hi), lo, hi) {
      assert Shift(src, base)(t, lo, hi) == src(base + t, lo, hi);
    }
  }

  /** The number of draws set aside for each start index: one for the alteration
      test and up to three for the development. */
  const DrawsPerAddition: nat := 4

  /** `developMotif`, as written.  The budget test of the first pass totals the
      still empty phrase, and `totalTime` reduces an empty array without a
      start value: it throws before the `concat` after the budget test is reached (which
      would discard its result anyway).  Without start indexes the padding
      totals the empty phrase and throws the same way, whatever `alterChance`. */
  method DevelopMotifAsWritten(src: Source, key: seq<Note>, motif: Motif, startIndexes: seq<int>,
                               beats: int, beatType: int, barTime: int, maxBars: int,
                               startOctave: int, alterChance: real, minOctave: int, maxOctave: int)
    returns (r: Result<seq<Tone>>)
    requires ValidSource(src)
    ensures r == Err(TypeError)
  {
    var phrase: seq<Tone> := [];
    if |startIndexes| > 0 {
      // the first start index: alteration, realisation, then the budget test
      var draws := Shift(src, 0);
      ShiftValid(src, 0);
      var altered := motif;
      if OneIn(draws, 0, alterChance) {
        ShiftValid(src, 1);
        var modified := ModifyMotifAsWritten(Shift(src, 1), motif, None);
        altered := modified.value;
      }
      var addition := ApplyMotif(key, altered, Some(startIndexes[0]), startOctave, minOctave, maxOctave);
      if addition.Err? && addition.fault == TypeError {
        return Err(TypeError);
      }
      // the phrase is still empty, so the budget test's `totalTime` throws
      var before := TotalTime(phrase);
      return Err(before.fault);
    }
    // without start indexes the accent loop does nothing and the padding
    // totals the empty phrase
    r := PadWithRests(phrase, beats * beatType);
  }

  /** The motif realised for the start index at position `k`: altered by the
      music service's own `modifyMotif` when draw `4 * k` comes up 1. */
  function AlteredFor(src: Source, motif: Motif, alterChance: real, k: nat): Result<Motif>
    requires ValidSource(src)
  {
    ShiftValid(src, DrawsPerAddition * k);
    ShiftValid(src, DrawsPerAddition * k + 1);
    if OneIn(Shift(src, DrawsPerAddition * k), 0, alterChance) then
      LegacyModified(Next(Shift(src, DrawsPerAddition * k + 1), 0, 1, LegacyKinds(None)), motif, None)
    else Ok(motif)
  }

  /** The tones start index `k` offers: the motif, altered or not, realised
      from that start index. */
  function Addition(src: Source, key: seq<Note>, motif: Motif, startIndexes: seq<int>, startOctave: int,
                    alterChance: real, minOctave: int, maxOctave: int, k: nat): Result<seq<Tone>>
    requires ValidSource(src) && k < |startIndexes|
  {
    var altered :- AlteredFor(src, motif, alterChance, k);
    Applied(key, altered, Some(startIndexes[k]), startOctave, minOctave, maxOctave)
  }

  /** The additions of every start index, as one function of the position. */
  function Additions(src: Source, key: seq<Note>, motif: Motif, startIndexes: seq<int>, startOctave: int,
                     alterChance: real, minOctave: int, maxOctave: int): nat -> Result<seq<Tone>>
    requires ValidSource(src)
  {
    (k: nat) => if k < |startIndexes| then
           Addition(src, key, motif, startIndexes, startOctave, alterChance, minOctave, maxOctave, k)
         else Ok([])
  }

  /** The phrase the budget loop holds after the first `k` additions: each one
      joins when the two together stay under `budget` sixteenths.  An addition
      with a missing length (`Undefined`) sums to NaN, which is never under the
      budget, so it is skipped; any other failure ends the loop. */
  function Gathered(additions: nat -> Result<seq<Tone>>, budget: int, k: nat): Result<seq<Tone>> {
    if k == 0 then Ok([])
    else
      var phrase :- Gathered(additions, budget, k - 1);
      Joined(phrase, additions(k - 1), budget)
  }

  /** The budget test of one pass. */
  function Joined(phrase: seq<Tone>, addition: Result<seq<Tone>>, budget: int): Result<seq<Tone>> {
    if addition.Err? then
      if addition.fault == Undefined then Ok(phrase) else Err(addition.fault)
    else if Duration(phrase) + Duration(addition.value) < budget then Ok(phrase + addition.value)
    else Ok(phrase)
  }

  /** The phrase the corrected `developMotif` collects from all its start indexes. */
  function Collected(src: Source, key: seq<Note>, motif: Motif, startIndexes: seq<int>, budget: int,
                     startOctave: int, alterChance: real, minOctave: int, maxOctave: int): Result<seq<Tone>>
    requires ValidSource(src)
  {
    Gathered(Additions(src, key, motif, startIndexes, startOctave, alterChance, minOctave, maxOctave),
             budget, |startIndexes|)
  }

  lemma AdditionAt(src: Source, key: seq<Note>, motif: Motif, startIndexes: seq<int>, startOctave: int,
                   alterChance: real, minOctave: int, maxOctave: int, k: nat)
    requires ValidSource(src) && k < |startIndexes|
    ensures Additions(src, key, motif, startIndexes, startOctave, alterChance, minOctave, maxOctave)(k) ==
      Addition(src, key, motif, startIndexes, startOctave, alterChance, minOctave, maxOctave, k)
  {
  }

  /** One more pass of the budget loop. */
  lemma GatheredNext(additions: nat -> Result<seq<Tone>>, budget: int, k: nat, phrase: seq<Tone>)
    requires Gathered(additions, budget, k) == Ok(phrase)
    ensures Gathered(additions, budget, k + 1) == Joined(phrase, additions(k), budget)
  {
  }

  /** A failure of the loop is its result. */
  lemma {:induction false} GatheredFailureStays(additions: nat -> Result<seq<Tone>>, budget: int, k: nat, n: nat)
    requires k <= n && Gathered(additions, budget, k).Err?
    ensures Gathered(additions, budget, n) == Gathered(additions, budget, k)
    decreases n
  {
    if n > k {
      GatheredFailureStays(additions, budget, k, n - 1);
    }
  }

  /** Gathering additions without volumes stays under the budget (or empty)
      and adds no volume. */
  lemma {:induction false} GatheredWithinBudget(additions: nat -> Result<seq<Tone>>, budget: int, k: nat)
    requires forall j: nat :: j < k && additions(j).Ok? ==> forall t :: t in additions(j).value ==> t.volume == None
    requires Gathered(additions, budget, k).Ok?
    ensures var phrase := Gathered(additions, budget, k).value;
      (phrase == [] || Duration(phrase) < budget) && forall t :: t in phrase ==> t.volume == None
  {
    if k > 0 {
      GatheredWithinBudget(additions, budget, k - 1);
      if additions(k - 1).Ok? {
        DurationAppend(Gathered(additions, budget, k - 1).value, additions(k - 1).value);
      }
    }
  }

  /** A realised motif has no volume yet. */
  lemma AdditionsUnvoiced(src: Source, key: seq<Note>, motif: Motif, startIndexes: seq<int>, startOctave: int,
                          alterChance: real, minOctave: int, maxOctave: int)
    requires ValidSource(src)
    ensures var additions := Additions(src, key, motif, startIndexes, startOctave, alterChance, minOctave, maxOctave);
      forall j: nat :: additions(j).Ok? ==> forall t :: t in additions(j).value ==> t.volume == None
  {
    var additions := Additions(src, key, motif, startIndexes, startOctave, alterChance, minOctave, maxOctave);
    forall j: nat | additions(j).Ok?
      ensures forall t :: t in additions(j).value ==> t.volume == None
    {
      if j < |startIndexes| {
        var altered := AlteredFor(src, motif, alterChance, j).value;
        AppliedShape(key, altered, Some(startIndexes[j]), startOctave, minOctave, maxOctave);
      }
    }
  }

  /** The collected phrase stays under the budget (or empty), and none of its
      tones has a volume yet. */
  lemma CollectedWithinBudget(src: Source, key: seq<Note>, motif: Motif, startIndexes: seq<int>, budget: int,
                              startOctave: int, alterChance: real, minOctave: int, maxOctave: int)
    requires ValidSource(src)
    requires Collected(src, key, motif, startIndexes, budget, startOctave, alterChance, minOctave, maxOctave).Ok?
    ensures var phrase := Collected(src, key, motif, startIndexes, budget, startOctave, alterChance,
                                    minOctave, maxOctave).value;
      (phrase == [] || Duration(phrase) < budget) && forall t :: t in phrase ==> t.volume == None
  {
    AdditionsUnvoiced(src, key, motif, startIndexes, startOctave, alterChance, minOctave, maxOctave);
    GatheredWithinBudget(Additions(src, key, motif, startIndexes, startOctave, alterChance, minOctave, maxOctave),
                         budget, |startIndexes|);
  }

  /** The additions of `developMotif` as evidently intended: each start index
      realises the motif, altered with the given chance, and the result joins
      the phrase when the phrase stays under `maxBars` bars of `barTime`.  An
      empty phrase counts as zero long, the result is kept, and the length
      `applyMotif` writes is the one summed. */
  method CollectAdditions(src: Source, key: seq<Note>, motif: Motif, startIndexes: seq<int>,
                          barTime: int, maxBars: int, startOctave: int, alterChance: real,
                          minOctave: int, maxOctave: int)
    returns (r: Result<seq<Tone>>)
    requires ValidSource(src)
    ensures r == Collected(src, key, motif, startIndexes, maxBars * barTime, startOctave, alterChance,
                           minOctave, maxOctave)
  {
    ghost var additions := Additions(src, key, motif, startIndexes, startOctave, alterChance, minOctave, maxOctave);
    var budget := maxBars * barTime;
    var phrase: seq<Tone> := [];
    for k := 0 to |startIndexes|
      invariant Gathered(additions, budget, k) == Ok(phrase)
    {
      var addition := RealiseAt(src, key, motif, startIndexes, startOctave, alterChance, minOctave, maxOctave, k);
      AdditionAt(src, key, motif, startIndexes, startOctave, alterChance, minOctave, maxOctave, k);
      GatheredNext(additions, budget, k, phrase);
      if addition.Err? && addition.fault != Undefined {
        GatheredFailureStays(additions, budget, k + 1, |startIndexes|);
        return Err(addition.fault);
      }
      // a missing length makes the sum NaN, and NaN is never under the budget
      if addition.Ok? {
        var timeWithAddition := Duration(phrase) + Duration(addition.value);
        if timeWithAddition < budget {
          phrase := phrase + addition.value;
        }
      }
    }
    r := Ok(phrase);
  }

  /** One pass of the budget loop up to the budget test: the alteration draw,
      the legacy `modifyMotif` when it comes up 1, and `applyMotif`. */
  method RealiseAt(src: Source, key: seq<Note>, motif: Motif, startIndexes: seq<int>, startOctave: int,
                   alterChance: real, minOctave: int, maxOctave: int, k: nat)
    returns (r: Result<seq<Tone>>)
    requires ValidSource(src) && k < |startIndexes|
    ensures r == Addition(src, key, motif, startIndexes, startOctave, alterChance, minOctave, maxOctave, k)
  {
    var draws := Shift(src, DrawsPerAddition * k);
    ShiftValid(src, DrawsPerAddition * k);
    var altered := motif;
    if OneIn(draws, 0, alterChance) {
      ShiftValid(src, DrawsPerAddition * k + 1);
      // without a pool every kind of the legacy `modifyMotif` succeeds
      var modified := ModifyMotifAsWritten(Shift(src, DrawsPerAddition * k + 1), motif, None);
      altered := modified.value;
    }
    r := ApplyMotif(key, altered, Some(startIndexes[k]), startOctave, minOctave, maxOctave);
  }

  /** The accent pass on a copy of the phrase, then the padding to the bar line. */
  method FinishPhrase(phrase: seq<Tone>, beats: int, beatType: int) returns (finished: seq<Tone>)
    ensures finished == Accented(phrase, beats * beatType) +
      RestTones(GreedyRests(BarGap(Duration(phrase), beats * beatType), PaddingLengths, false))
  {
    var tones := new Tone[|phrase|](i requires 0 <= i < |phrase| => phrase[i]);
    assert tones[..] == phrase;
    AccentPass(tones, beats, beatType);
    AccentedKeeps(phrase, beats * beatType);
    finished := PadToBar(tones[..], beats * beatType);
  }

  /** `developMotif` with the additions kept, an empty phrase counted as zero
      long and the inclusive padding: the collected phrase, accented and
      padded to the bar line. */
  method DevelopPhrase(src: Source, key: seq<Note>, motif: Motif, startIndexes: seq<int>,
                       beats: int, beatType: int, barTime: int, maxBars: int,
                       startOctave: int, alterChance: real, minOctave: int, maxOctave: int)
    returns (r: Result<seq<Tone>>)
    requires ValidSource(src)
    ensures var collected := Collected(src, key, motif, startIndexes, maxBars * barTime, startOctave,
                                       alterChance, minOctave, maxOctave);
      r.Ok? <==> collected.Ok?
    ensures var collected := Collected(src, key, motif, startIndexes, maxBars * barTime, startOctave,
                                       alterChance, minOctave, maxOctave);
      r.Ok? ==> (r.value == Accented(collected.value, beats * beatType) +
        RestTones(GreedyRests(BarGap(Duration(collected.value), beats * beatType), PaddingLengths, false)))
    ensures r.Ok? && beats * beatType > 0 ==> Duration(r.value) % (beats * beatType) == 0
    ensures r.Ok? ==> forall t :: t in r.value ==>
      t.volume.Some? || (t.note == Rest && t.octave == None && t.length in PaddingLengths)
  {
    var collected :- CollectAdditions(src, key, motif, startIndexes, barTime, maxBars,
                                      startOctave, alterChance, minOctave, maxOctave);
    var finished := FinishPhrase(collected, beats, beatType);
    FinishedPhrase(collected, beats * beatType);
    r := Ok(finished);
  }

  /** An accented phrase padded to the bar line: every tone has a volume except
      the padding rests, and the whole ends on a bar line. */
  lemma FinishedPhrase(collected: seq<Tone>, singleBarTime: int)
    ensures var finished := Accented(collected, singleBarTime) +
        RestTones(GreedyRests(BarGap(Duration(collected), singleBarTime), PaddingLengths, false));
      (singleBarTime > 0 ==> Duration(finished) % singleBarTime == 0) &&
      forall t :: t in finished ==>
        t.volume.Some? || (t.note == Rest && t.octave == None && t.length in PaddingLengths)
  {
    AccentedVolumes(collected, singleBarTime);
    PaddedVoiced(Accented(collected, singleBarTime), singleBarTime);
  }

  /** Padding a phrase whose tones all have a volume. */
  lemma PaddedVoiced(accented: seq<Tone>, singleBarTime: int)
    requires forall t :: t in accented ==> t.volume.Some?
    ensures var finished := accented +
        RestTones(GreedyRests(BarGap(Duration(accented), singleBarTime), PaddingLengths, false));
      (singleBarTime > 0 ==> Duration(finished) % singleBarTime == 0) &&
      forall t :: t in finished ==>
        t.volume.Some? || (t.note == Rest && t.octave == None && t.length in PaddingLengths)
  {
    PadToBarEndsOnBarLine(accented, singleBarTime);
    VolumesOrPadding(accented, GreedyRests(BarGap(Duration(accented), singleBarTime), PaddingLengths, false));
  }

  /** After the accent pass every tone has a volume, and the phrase is as long. */
  lemma AccentedVolumes(tones: seq<Tone>, singleBarTime: int)
    ensures Duration(Accented(tones, singleBarTime)) == Duration(tones)
    ensures forall t :: t in Accented(tones, singleBarTime) ==> t.volume.Some?
  {
    var r := Accented(tones, singleBarTime);
    AccentedKeeps(tones, singleBarTime);
    forall t | t in r
      ensures t.volume.Some?
    {
      var i :| 0 <= i < |r| && r[i] == t;
    }
  }

  lemma VolumesOrPadding(accented: seq<Tone>, rests: seq<nat>)
    requires forall t :: t in accented ==> t.volume.Some?
    requires forall x :: x in rests ==> x in PaddingLengths
    ensures forall t :: t in accented + RestTones(rests) ==>
      t.volume.Some? || (t.note == Rest && t.octave == None && t.length in PaddingLengths)
  {
    var finished := accented + RestTones(rests);
    forall t | t in finished
      ensures t.volume.Some? || (t.note == Rest && t.octave == None && t.length in PaddingLengths)
    {
      var i :| 0 <= i < |finished| && finished[i] == t;
      if i >= |accented| {
        assert t == RestTones(rests)[i - |accented|];
        assert rests[i - |accented|] in rests;
      } else {
        assert t == accented[i];
      }
    }
  }
}
