/** The motif service: random generation of a motif as a bounded walk over
    scale degrees, and its transformations (reversal, transposition,
    inversion, chordal doubling, concatenation) followed by a shift that
    removes negative pitches. */
module Motifs {
  import opened Wrappers
  import opened Enums
  import opened Random
  import opened MotifModel

  /* ------------------------------------------------------------ note lengths */

  /** The note lengths that fit in `lengthToFill`, longest first. */
  function ValidLengths(lengthToFill: int): (r: seq<nat>)
    ensures forall x :: x in r ==> x in NoteLengths && x <= lengthToFill
    ensures forall n :: n in NoteLengths && n <= lengthToFill ==> n in r
    ensures forall i, j :: 0 <= i < j < |r| ==> r[i] > r[j]
  {
    FitsFrom(NoteLengths, lengthToFill)
  }

  function FitsFrom(lengths: seq<nat>, lengthToFill: int): (r: seq<nat>)
    requires forall i, j :: 0 <= i < j < |lengths| ==> lengths[i] > lengths[j]
    ensures forall x :: x in r ==> x in lengths && x <= lengthToFill
    ensures forall n :: n in lengths && n <= lengthToFill ==> n in r
    ensures forall i, j :: 0 <= i < j < |r| ==> r[i] > r[j]
    ensures |r| <= |lengths|
    decreases |lengths|
  {
    if lengths == [] then []
    else
      var rest := FitsFrom(lengths[1..], lengthToFill);
      assert lengths == [lengths[0]] + lengths[1..];
      if lengths[0] <= lengthToFill then
        HeadAbove(lengths);
        assert forall k :: 0 <= k < |rest| ==> rest[k] in rest;
        [lengths[0]] + rest
      else rest
  }

  lemma HeadAbove(lengths: seq<nat>)
    requires lengths != []
    requires forall i, j :: 0 <= i < j < |lengths| ==> lengths[i] > lengths[j]
    ensures forall x :: x in lengths[1..] ==> x < lengths[0]
  {
    forall x | x in lengths[1..] ensures x < lengths[0] {
      var k :| 0 <= k < |lengths[1..]| && lengths[1..][k] == x;
      assert lengths[k + 1] == x;
    }
  }

  /** At least a semiquaver to fill leaves the semiquaver valid, so there is
      always a length to choose. */
  lemma SemiquaverAlwaysFits(lengthToFill: int)
    requires lengthToFill >= 1
    ensures |ValidLengths(lengthToFill)| >= 1 && SemiQuaver in ValidLengths(lengthToFill)
  {
    assert SemiQuaver in NoteLengths;
  }

  /** `randomNoteLength`: the draw picks a valid length when it falls inside the
      list; a larger factor widens the draw, and any draw past the list returns
      the most likely length (a missing one meaning a crotchet). */
  function RandomNoteLength(src: Source, t: nat, mostLikelyNoteLength: nat, factor: nat,
                            lengthToFill: int): (r: nat)
    requires ValidSource(src) && lengthToFill >= 1
    ensures r >= 1
    ensures r in NoteLengths || r == mostLikelyNoteLength
  {
    var valid := ValidLengths(lengthToFill);
    SemiquaverAlwaysFits(lengthToFill);
    Pick(valid, LengthDraw(src, t, factor, |valid|), mostLikelyNoteLength)
  }

  /** The draw `Random.next(0, factor * (count - 1))` of `randomNoteLength`. */
  function LengthDraw(src: Source, t: nat, factor: nat, count: nat): (index: nat)
    requires ValidSource(src) && count >= 1
    ensures index <= factor * (count - 1)
  {
    NonNegativeProduct(factor, count - 1);
    Next(src, t, 0, factor * (count - 1))
  }

  /** Entry `index` of the valid lengths when there is one, else the most likely
      length or, when that is missing, a crotchet. */
  function Pick(valid: seq<nat>, index: int, mostLikelyNoteLength: nat): (r: nat)
    requires 0 <= index && forall x :: x in valid ==> x in NoteLengths
    ensures r >= 1
    ensures r in NoteLengths || r == mostLikelyNoteLength
    ensures index < |valid| ==> r == valid[index]
  {
    if index < |valid| then
      assert valid[index] in valid;
      valid[index]
    else if mostLikelyNoteLength == 0 then Crotchet
    else mostLikelyNoteLength
  }

  lemma NonNegativeProduct(a: nat, b: nat)
    ensures a * b >= 0
  {
  }

  /** With factor 1 the draw never falls past the valid lengths, so the length
      drawn always fits what is left to fill. */
  lemma RandomNoteLengthFits(src: Source, t: nat, mostLikelyNoteLength: nat, lengthToFill: int)
    requires ValidSource(src) && lengthToFill >= 1
    ensures var r := RandomNoteLength(src, t, mostLikelyNoteLength, 1, lengthToFill);
      r in NoteLengths && r <= lengthToFill
  {
    var valid := ValidLengths(lengthToFill);
    SemiquaverAlwaysFits(lengthToFill);
    var index := LengthDraw(src, t, 1, |valid|);
    assert valid[index] in valid;
  }

  /* ------------------------------------------------------------- pitch walk */

  /** `chooseNextPitchBasedOnPrevious`, returning the pitch and the number of
      the next unused draw.  Keep the previous direction when the coin says so
      and it is not 0, else draw one of -1, 0, 1; a step below 0 becomes a draw
      of 0 or +1 from the previous pitch, a step above `maxSize` one of -1 or 0. */
  function ChooseNextPitch(src: Source, t: nat, sameDirectionChance: real, previousDirection: int,
                           previousPitch: int, maxSize: int): (r: (int, nat))
    requires ValidSource(src) && 0.0 <= sameDirectionChance <= 1.0
    ensures r.1 >= t
    ensures -1 <= previousDirection <= 1 ==> -1 <= r.0 - previousPitch <= 1
    ensures -1 <= previousDirection <= 1 && 0 < previousPitch <= maxSize ==> 0 <= r.0 <= maxSize
  {
    var shouldMoveInSameDirection := Chance(src, t, sameDirectionChance);
    var t1 := t + ChanceDraws(sameDirectionChance);
    var direction := if shouldMoveInSameDirection && previousDirection != 0 then previousDirection
                     else Next(src, t1, -1, 1);
    var t2 := if shouldMoveInSameDirection && previousDirection != 0 then t1 else t1 + 1;
    var potentialNextPitch := previousPitch + direction;
    if potentialNextPitch < 0 then (previousPitch + Next(src, t2, 0, 1), t2 + 1)
    else if potentialNextPitch > maxSize then (previousPitch + Next(src, t2, -1, 0), t2 + 1)
    else (potentialNextPitch, t2)
  }

  /* ------------------------------------------------------- pitch list maps */

  /** `transpose`: every pitch moved by `amount`, rests left alone. */
  function Transpose(pitches: seq<int>, amount: int): (r: seq<int>)
    ensures |r| == |pitches|
    ensures forall i :: 0 <= i < |r| ==> pitches[i] == RestPitch ==> r[i] == RestPitch
  {
    seq(|pitches|, i requires 0 <= i < |pitches| =>
      if pitches[i] == RestPitch then RestPitch else pitches[i] + amount)
  }

  /** Transposing back undoes a transposition, unless a sounding pitch landed
      on the rest sentinel on the way. */
  lemma TransposeRoundTrip(pitches: seq<int>, amount: int)
    requires forall i :: 0 <= i < |pitches| && pitches[i] != RestPitch ==> pitches[i] + amount != RestPitch
    ensures Transpose(Transpose(pitches, amount), -amount) == pitches
  {
  }

  /** A sounding pitch transposed onto -1 becomes a rest: pitch 0 moved down one. */
  lemma TransposeOntoRest()
    ensures Transpose([0, 2], -1) == [RestPitch, 1]
  {
  }

  /** `makeChordal`: every sounding pitch doubled, rests kept, rhythm copied. */
  function MakeChordal(m: Motif): (r: Motif)
    ensures |r.pitches| == |m.pitches| && r.rhythm == m.rhythm
  {
    Motif(seq(|m.pitches|, i requires 0 <= i < |m.pitches| =>
            if m.pitches[i] == RestPitch then RestPitch else m.pitches[i] * 2),
          m.rhythm)
  }

  /** Doubling is undone by halving: rests stay exactly where they were, and
      every other pitch is even and half of it is the original. */
  lemma MakeChordalHalves(m: Motif)
    ensures forall i :: 0 <= i < |m.pitches| ==>
      (MakeChordal(m).pitches[i] == RestPitch <==> m.pitches[i] == RestPitch)
    ensures forall i :: 0 <= i < |m.pitches| && m.pitches[i] != RestPitch ==>
      MakeChordal(m).pitches[i] % 2 == 0 && MakeChordal(m).pitches[i] / 2 == m.pitches[i]
  {
  }

  /** `concatenate`: the first motif followed by the second. */
  function Concatenate(m1: Motif, m2: Motif): (r: Motif)
    ensures |r.pitches| == |m1.pitches| + |m2.pitches| && |r.rhythm| == |m1.rhythm| + |m2.rhythm|
    ensures r.pitches[..|m1.pitches|] == m1.pitches && r.pitches[|m1.pitches|..] == m2.pitches
    ensures r.rhythm[..|m1.rhythm|] == m1.rhythm && r.rhythm[|m1.rhythm|..] == m2.rhythm
  {
    Motif(m1.pitches + m2.pitches, m1.rhythm + m2.rhythm)
  }

  /** `totalLength`: the sum of a rhythm; reducing an empty one throws. */
  function TotalLength(rhythm: seq<nat>): (r: Result<nat>)
    ensures r.Ok? <==> rhythm != []
  {
    if rhythm == [] then Err(TypeError) else Ok(Total(rhythm))
  }

  /** `Array.prototype.reverse`'s result. */
  function Reverse<T>(s: seq<T>): (r: seq<T>)
    ensures |r| == |s|
    ensures forall i :: 0 <= i < |s| ==> r[i] == s[|s| - 1 - i]
  {
    seq(|s|, i requires 0 <= i < |s| => s[|s| - 1 - i])
  }

  /** `reverse()` in place, as the source applies it to its copies. */
  method ReverseInPlace<T>(a: array<T>)
    modifies a
    ensures a[..] == Reverse(old(a[..]))
  {
    var i := 0;
    var j := a.Length - 1;
    while i < j
      invariant 0 <= i <= a.Length && j == a.Length - 1 - i
      invariant forall k :: 0 <= k < i ==> a[k] == old(a[a.Length - 1 - k]) && a[a.Length - 1 - k] == old(a[k])
      invariant forall k :: i <= k <= j ==> a[k] == old(a[k])
    {
      a[i], a[j] := a[j], a[i];
      i := i + 1;
      j := j - 1;
    }
  }

  lemma ReverseInvolution<T>(s: seq<T>)
    ensures Reverse(Reverse(s)) == s && multiset(Reverse(s)) == multiset(s)
  {
    ReverseMultiset(s);
  }

  lemma {:induction false} ReverseMultiset<T>(s: seq<T>)
    ensures multiset(Reverse(s)) == multiset(s)
    decreases |s|
  {
    if s != [] {
      var t := s[1..];
      ReverseMultiset(t);
      assert Reverse(s) == Reverse(t) + [s[0]];
      assert s == [s[0]] + t;
    }
  }

  /* --------------------------------------------------------------- motif */

  /** Whether a pitch lets the next one step from it: JavaScript's truthiness
      test on the previous pitch also fails for pitch 0. */
  predicate SteppedFrom(previousPitch: int) {
    previousPitch != 0 && previousPitch != RestPitch
  }

  /** Every pitch is a rest or lies in `lo..hi`. */
  predicate PitchesWithin(pitches: seq<int>, lo: int, hi: int) {
    forall i :: 0 <= i < |pitches| ==> pitches[i] == RestPitch || lo <= pitches[i] <= hi
  }

  /** Every pitch that follows a pitch it may step from moves by at most `width`. */
  predicate StepsWithin(pitches: seq<int>, width: int) {
    forall i :: 1 <= i < |pitches| && SteppedFrom(pitches[i - 1]) && pitches[i] != RestPitch ==>
      -width <= pitches[i] - pitches[i - 1] <= width
  }

  /** `motif`: draw pitches and lengths until the rhythm reaches `length`. */
  method Generate(src: Source, length: int, maxSize: int, sameDirectionChance: real, restChance: real,
                  mostLikelyNoteLength: nat, isChordal: bool, mostLikelyNoteLengthFactor: nat)
    returns (m: Motif)
    requires ValidSource(src)
    requires 0.0 <= sameDirectionChance <= 1.0 && 0.0 <= restChance <= 1.0
    ensures |m.pitches| == |m.rhythm|
    ensures length <= 0 <==> m.rhythm == []
    ensures m.rhythm != [] ==> length <= Total(m.rhythm) && Total(m.rhythm[..|m.rhythm| - 1]) < length
    ensures mostLikelyNoteLengthFactor == 1 && length > 0 ==> Total(m.rhythm) == length
    ensures forall i :: 0 <= i < |m.rhythm| ==> m.rhythm[i] in NoteLengths || m.rhythm[i] == mostLikelyNoteLength
    ensures !isChordal && 0 <= maxSize ==> PitchesWithin(m.pitches, 0, maxSize) && StepsWithin(m.pitches, 1)
    ensures isChordal && 0 <= maxSize ==> PitchesWithin(m.pitches, 0, 2 * maxSize)
    ensures isChordal ==> forall i :: 0 <= i < |m.pitches| && m.pitches[i] != RestPitch ==> m.pitches[i] % 2 == 0
  {
    var t: nat := ChanceDraws(restChance);  // the unused draw before the loop
    var pitches: seq<int> := [];
    var rhythm: seq<nat> := [];
    var previousDirection := 0;
    var previousPitch: Option<int> := None;
    var lengthSoFar := 0;
    while lengthSoFar < length
      invariant |pitches| == |rhythm| && lengthSoFar == Total(rhythm)
      invariant rhythm == [] <==> pitches == []
      invariant rhythm == [] ==> lengthSoFar == 0
      invariant RhythmSoFar(rhythm, length, mostLikelyNoteLength, mostLikelyNoteLengthFactor)
      invariant previousPitch == (if pitches == [] then None else Some(pitches[|pitches| - 1]))
      invariant -1 <= previousDirection <= 1
      invariant 0 <= maxSize ==> PitchesWithin(pitches, 0, maxSize) && StepsWithin(pitches, 1)
      decreases length - lengthSoFar
    {
      pitches, rhythm, previousDirection, t :=
        WalkStep(src, t, sameDirectionChance, restChance, mostLikelyNoteLength, mostLikelyNoteLengthFactor,
                 length, maxSize, pitches, rhythm, previousPitch, previousDirection);
      previousPitch := Some(pitches[|pitches| - 1]);
      var total := TotalLength(rhythm);
      lengthSoFar := total.value;
    }
    m := Motif(pitches, rhythm);
    if isChordal {
      ChordalWalk(m, maxSize);
      m := MakeChordal(m);
    }
  }

  /** What doubling does to a walk: the rhythm is kept, every sounding pitch
      becomes even, and a walk in `0..maxSize` lands in `0..2*maxSize`. */
  lemma ChordalWalk(m: Motif, maxSize: int)
    ensures |MakeChordal(m).pitches| == |m.pitches| && MakeChordal(m).rhythm == m.rhythm
    ensures 0 <= maxSize && PitchesWithin(m.pitches, 0, maxSize) ==>
      PitchesWithin(MakeChordal(m).pitches, 0, 2 * maxSize)
    ensures forall i :: 0 <= i < |MakeChordal(m).pitches| && MakeChordal(m).pitches[i] != RestPitch ==>
      MakeChordal(m).pitches[i] % 2 == 0
  {
    if 0 <= maxSize && PitchesWithin(m.pitches, 0, maxSize) {
      MakeChordalWithin(m, maxSize);
    }
    MakeChordalHalves(m);
  }

  /** One pass of the loop of `motif`: a pitch drawn from the previous one, and a
      note length drawn for what is left to fill. */
  method WalkStep(src: Source, t: nat, sameDirectionChance: real, restChance: real,
                  mostLikelyNoteLength: nat, factor: nat, length: int, maxSize: int,
                  pitches: seq<int>, rhythm: seq<nat>, previousPitch: Option<int>, previousDirection: int)
    returns (pitches': seq<int>, rhythm': seq<nat>, direction: int, next: nat)
    requires ValidSource(src)
    requires 0.0 <= sameDirectionChance <= 1.0 && 0.0 <= restChance <= 1.0
    requires |pitches| == |rhythm| && Total(rhythm) < length
    requires RhythmSoFar(rhythm, length, mostLikelyNoteLength, factor)
    requires previousPitch == (if pitches == [] then None else Some(pitches[|pitches| - 1]))
    requires -1 <= previousDirection <= 1
    requires 0 <= maxSize ==> PitchesWithin(pitches, 0, maxSize) && StepsWithin(pitches, 1)
    ensures |pitches'| == |rhythm'| == |rhythm| + 1 && Total(rhythm') > Total(rhythm)
    ensures pitches'[..|pitches|] == pitches && rhythm'[..|rhythm|] == rhythm
    ensures RhythmSoFar(rhythm', length, mostLikelyNoteLength, factor)
    ensures -1 <= direction <= 1 && next > t
    ensures 0 <= maxSize ==> PitchesWithin(pitches', 0, maxSize) && StepsWithin(pitches', 1)
  {
    var nextPitch;
    nextPitch, direction, next :=
      DrawPitch(src, t, sameDirectionChance, restChance, previousPitch, previousDirection, maxSize);
    if 0 <= maxSize {
      ExtendWalk(pitches, nextPitch, maxSize);
    }
    pitches' := pitches + [nextPitch];
    var lengthToFill := length - Total(rhythm);
    var noteLength := RandomNoteLength(src, next, mostLikelyNoteLength, factor, lengthToFill);
    if factor == 1 {
      RandomNoteLengthFits(src, next, mostLikelyNoteLength, lengthToFill);
    }
    next := next + 1;
    RhythmStep(rhythm, noteLength, length, mostLikelyNoteLength, factor);
    rhythm' := rhythm + [noteLength];
  }

  /** What the loop keeps of the rhythm: every entry but the last fell short of
      `length`, with factor 1 the total never passes it, and every entry is a
      note length or the most likely one. */
  predicate RhythmSoFar(rhythm: seq<nat>, length: int, mostLikelyNoteLength: nat, factor: nat) {
    (rhythm != [] ==> Total(rhythm[..|rhythm| - 1]) < length) &&
    (factor == 1 && length > 0 ==> Total(rhythm) <= length) &&
    forall i :: 0 <= i < |rhythm| ==> rhythm[i] in NoteLengths || rhythm[i] == mostLikelyNoteLength
  }

  /** Appending a drawn length while the total is short of `length` keeps it. */
  lemma RhythmStep(rhythm: seq<nat>, x: nat, length: int, mostLikelyNoteLength: nat, factor: nat)
    requires RhythmSoFar(rhythm, length, mostLikelyNoteLength, factor) && Total(rhythm) < length
    requires x in NoteLengths || x == mostLikelyNoteLength
    requires factor == 1 ==> x <= length - Total(rhythm)
    ensures RhythmSoFar(rhythm + [x], length, mostLikelyNoteLength, factor)
    ensures Total(rhythm + [x]) == Total(rhythm) + x
  {
    ExtendRhythm(rhythm, x, mostLikelyNoteLength);
  }

  /** One pitch of the walk: a rest if the rest coin says so; a step from the
      previous pitch when it may be stepped from; otherwise a fresh pitch and a
      fresh direction.  Returns the pitch, the new direction and the next draw. */
  method DrawPitch(src: Source, t: nat, sameDirectionChance: real, restChance: real,
                   previousPitch: Option<int>, previousDirection: int, maxSize: int)
    returns (nextPitch: int, direction: int, next: nat)
    requires ValidSource(src)
    requires 0.0 <= sameDirectionChance <= 1.0 && 0.0 <= restChance <= 1.0
    requires -1 <= previousDirection <= 1
    ensures -1 <= direction <= 1 && next >= t
    ensures 0 <= maxSize && (previousPitch.Some? ==> previousPitch.value == RestPitch || 0 <= previousPitch.value <= maxSize) ==>
      nextPitch == RestPitch || 0 <= nextPitch <= maxSize
    ensures previousPitch.Some? && SteppedFrom(previousPitch.value) && nextPitch != RestPitch ==>
      -1 <= nextPitch - previousPitch.value <= 1
  {
    var shouldAddRest := Chance(src, t, restChance);
    next := t + ChanceDraws(restChance);
    direction := previousDirection;
    if shouldAddRest {
      nextPitch := RestPitch;
    } else if previousPitch.Some? && SteppedFrom(previousPitch.value) {
      var step := ChooseNextPitch(src, next, sameDirectionChance, previousDirection, previousPitch.value, maxSize);
      nextPitch, next := step.0, step.1;
      direction := nextPitch - previousPitch.value;
    } else {
      nextPitch := Next(src, next, 0, maxSize);
      direction := Next(src, next + 1, -1, 1);
      next := next + 2;
    }
  }

  lemma ExtendWalk(pitches: seq<int>, x: int, maxSize: int)
    requires PitchesWithin(pitches, 0, maxSize) && StepsWithin(pitches, 1)
    requires x == RestPitch || 0 <= x <= maxSize
    requires pitches != [] && SteppedFrom(pitches[|pitches| - 1]) && x != RestPitch ==>
      -1 <= x - pitches[|pitches| - 1] <= 1
    ensures PitchesWithin(pitches + [x], 0, maxSize) && StepsWithin(pitches + [x], 1)
  {
    var longer := pitches + [x];
    forall i | 0 <= i < |longer|
      ensures longer[i] == RestPitch || 0 <= longer[i] <= maxSize
    {
      if i < |pitches| {
        assert longer[i] == pitches[i];
      }
    }
    forall i | 1 <= i < |longer| && SteppedFrom(longer[i - 1]) && longer[i] != RestPitch
      ensures -1 <= longer[i] - longer[i - 1] <= 1
    {
      assert longer[i - 1] == pitches[i - 1];
      if i < |pitches| {
        assert longer[i] == pitches[i];
      }
    }
  }

  lemma ExtendRhythm(rhythm: seq<nat>, x: nat, mostLikelyNoteLength: nat)
    requires forall i :: 0 <= i < |rhythm| ==> rhythm[i] in NoteLengths || rhythm[i] == mostLikelyNoteLength
    requires x in NoteLengths || x == mostLikelyNoteLength
    ensures forall i :: 0 <= i < |rhythm| + 1 ==>
      (rhythm + [x])[i] in NoteLengths || (rhythm + [x])[i] == mostLikelyNoteLength
    ensures Total(rhythm + [x]) == Total(rhythm) + x
    ensures (rhythm + [x])[..|rhythm|] == rhythm
  {
    TotalAppend(rhythm, [x]);
    assert Total([x]) == x by {
      assert [x][..0] == [];
    }
  }

  lemma MakeChordalWithin(m: Motif, maxSize: int)
    requires PitchesWithin(m.pitches, 0, maxSize)
    ensures PitchesWithin(MakeChordal(m).pitches, 0, 2 * maxSize)
  {
  }

  /* ------------------------------------------------------------ development */

  /** `Math.min` of a non-empty list. */
  function MinOf(s: seq<int>): (m: int)
    requires s != []
    ensures m in s && forall i :: 0 <= i < |s| ==> m <= s[i]
    decreases |s|
  {
    if |s| == 1 then s[0]
    else
      var rest := MinOf(s[1..]);
      assert forall i :: 1 <= i < |s| ==> s[i] == s[1..][i - 1];
      if s[0] <= rest then s[0] else rest
  }

  /** `Math.max` of a non-empty list. */
  function MaxOf(s: seq<int>): (m: int)
    requires s != []
    ensures m in s && forall i :: 0 <= i < |s| ==> s[i] <= m
    decreases |s|
  {
    if |s| == 1 then s[0]
    else
      var rest := MaxOf(s[1..]);
      assert forall i :: 1 <= i < |s| ==> s[i] == s[1..][i - 1];
      if s[0] >= rest then s[0] else rest
  }

  /** The shift after every development: when the lowest entry, the rest
      sentinel included, is negative, every sounding pitch is raised by its
      magnitude.  `Math.min` of no pitches is +Infinity, which is not negative. */
  function Normalise(pitches: seq<int>): seq<int> {
    if pitches == [] then pitches
    else
      var minValue := MinOf(pitches);
      if minValue < 0 then Transpose(pitches, -minValue) else pitches
  }

  /** Case 6: every pitch reflected below the highest; `Math.max` of no pitches
      is -Infinity, but there is then nothing to map. */
  function Invert(pitches: seq<int>): (r: seq<int>)
    ensures |r| == |pitches|
  {
    if pitches == [] then []
    else
      var max := MaxOf(pitches);
      seq(|pitches|, i requires 0 <= i < |pitches| => max - pitches[i])
  }

  /** The pitches and rhythm a development kind produces before the shift.
      Case 4 reverses the pitches it keeps but appends the transposition of the
      unreversed copy; case 5 keeps the motif, because the concatenation it
      builds is overwritten afterwards. */
  function Develop(kind: int, displacement: int, m: Motif): Motif {
    match kind
    case 1 => Motif(Reverse(m.pitches), m.rhythm)
    case 2 => Motif(m.pitches + Transpose(m.pitches, displacement), m.rhythm + m.rhythm)
    case 3 => Motif(m.pitches + Transpose(Reverse(m.pitches), displacement), m.rhythm + Reverse(m.rhythm))
    case 4 => Motif(Reverse(m.pitches) + Transpose(m.pitches, displacement), m.rhythm + Reverse(m.rhythm))
    case 6 => Motif(Invert(m.pitches), m.rhythm)
    case _ => m
  }

  /** What `modifyMotif` returns for a drawn kind and displacement: the
      development, shifted; in case 5 a pool that is given but empty makes the
      source read `pitches` of `motifPool[0]`, which is undefined. */
  function Modified(kind: int, displacement: int, m: Motif, motifPool: Option<seq<Motif>>): Result<Motif> {
    if kind == 5 && motifPool.Some? && |motifPool.value| == 0 then Err(TypeError)
    else
      var d := Develop(kind, displacement, m);
      Ok(Motif(Normalise(d.pitches), d.rhythm))
  }

  /** A copy of `s`, reversed in place. */
  method ReversedCopy<T>(s: seq<T>) returns (r: seq<T>)
    ensures r == Reverse(s)
  {
    var a := new T[|s|](i requires 0 <= i < |s| => s[i]);
    assert a[..] == s;
    ReverseInPlace(a);
    r := a[..];
  }

  /** The switch of `modifyMotif`, on copies of the motif's lists. */
  method DevelopCopies(kind: int, displacement: int, motif: Motif) returns (d: Motif)
    ensures d == Develop(kind, displacement, motif)
  {
    var developedMotifPitches := motif.pitches;
    var developedMotifRhythm := motif.rhythm;
    match kind {
      case 1 =>
        developedMotifPitches := ReversedCopy(developedMotifPitches);
      case 2 =>
        developedMotifPitches := developedMotifPitches + Transpose(developedMotifPitches, displacement);
        developedMotifRhythm := developedMotifRhythm + developedMotifRhythm;
      case 3 =>
        var copyPitches := ReversedCopy(developedMotifPitches);
        var copyRhythm := ReversedCopy(developedMotifRhythm);
        developedMotifPitches := developedMotifPitches + Transpose(copyPitches, displacement);
        developedMotifRhythm := developedMotifRhythm + copyRhythm;
      case 4 =>
        var copyPitches := developedMotifPitches;
        var copyRhythm := ReversedCopy(developedMotifRhythm);
        developedMotifPitches := ReversedCopy(developedMotifPitches);
        developedMotifPitches := developedMotifPitches + Transpose(copyPitches, displacement);
        developedMotifRhythm := developedMotifRhythm + copyRhythm;
      case 6 =>
        developedMotifPitches := Invert(motif.pitches);
      case _ =>
    }
    d := Motif(developedMotifPitches, developedMotifRhythm);
  }

  /** `modifyMotif`: draw a development kind 1..6 and a displacement -1..1,
      develop copies of the motif's lists, then shift away negative pitches. */
  method ModifyMotif(src: Source, motif: Motif, motifPool: Option<seq<Motif>>) returns (r: Result<Motif>)
    requires ValidSource(src)
    ensures r == Modified(Next(src, 0, 1, 6), Next(src, 1, -1, 1), motif, motifPool)
  {
    var randomInt := Next(src, 0, 1, 6);
    var displacement := Next(src, 1, -1, 1);
    if randomInt == 5 && motifPool.Some? {
      var poolSelection := Next(src, 2, 0, |motifPool.value| - 1);
      if !(0 <= poolSelection < |motifPool.value|) {
        return Err(TypeError);
      }
      var discarded := Concatenate(motif, motifPool.value[poolSelection]);
    }
    var developed := DevelopCopies(randomInt, displacement, motif);
    var developedMotifPitches := developed.pitches;
    if developedMotifPitches != [] {
      var minValue := MinOf(developedMotifPitches);
      if minValue < 0 {
        var transposeAmount := -minValue;
        developedMotifPitches := Transpose(developedMotifPitches, transposeAmount);
      }
    }
    r := Ok(Motif(developedMotifPitches, developed.rhythm));
  }

  /** The shift keeps the length and leaves every pitch a rest or non-negative. */
  lemma NormaliseNonNegative(pitches: seq<int>)
    ensures |Normalise(pitches)| == |pitches|
    ensures forall i :: 0 <= i < |pitches| ==> Normalise(pitches)[i] == RestPitch || Normalise(pitches)[i] >= 0
    ensures forall i :: 0 <= i < |pitches| ==> (Normalise(pitches)[i] == RestPitch <== pitches[i] == RestPitch)
  {
  }

  /** `Math.min` also sees the rest sentinel: a motif with a rest and no pitch
      below it has every sounding pitch raised by one. */
  lemma NormaliseLiftsOverRest(pitches: seq<int>)
    requires RestPitch in pitches
    requires forall i :: 0 <= i < |pitches| ==> pitches[i] >= RestPitch
    ensures Normalise(pitches) == Transpose(pitches, 1)
  {
    var k :| 0 <= k < |pitches| && pitches[k] == RestPitch;
    assert MinOf(pitches) == RestPitch;
  }

  /** Every kind returns as many pitches as rhythm entries for a well-formed motif:
      the motif's length for kinds 1, 5 and 6, twice it for kinds 2 to 4.  Only a
      given but empty pool in kind 5 fails. */
  lemma ModifiedShape(kind: int, displacement: int, m: Motif, motifPool: Option<seq<Motif>>)
    requires 1 <= kind <= 6 && |m.pitches| == |m.rhythm|
    ensures Modified(kind, displacement, m, motifPool).Err? <==>
      kind == 5 && motifPool.Some? && |motifPool.value| == 0
    ensures Modified(kind, displacement, m, motifPool).Ok? ==>
      var r := Modified(kind, displacement, m, motifPool).value;
      |r.pitches| == |r.rhythm| == (if 2 <= kind <= 4 then 2 * |m.pitches| else |m.pitches|)
  {
    NormaliseNonNegative(Develop(kind, displacement, m).pitches);
  }

  /** After any development every pitch is a rest or non-negative. */
  lemma ModifiedNonNegative(kind: int, displacement: int, m: Motif, motifPool: Option<seq<Motif>>)
    requires Modified(kind, displacement, m, motifPool).Ok?
    ensures forall p :: p in Modified(kind, displacement, m, motifPool).value.pitches ==> p == RestPitch || p >= 0
  {
    NormaliseNonNegative(Develop(kind, displacement, m).pitches);
  }

  /** Kind 5 returns the motif itself, only shifted: the concatenation is lost. */
  lemma ConcatenationDiscarded(displacement: int, m: Motif, motifPool: Option<seq<Motif>>)
    requires !(motifPool.Some? && |motifPool.value| == 0)
    ensures Modified(5, displacement, m, motifPool) == Ok(Motif(Normalise(m.pitches), m.rhythm))
  {
  }

  /** Kind 6 reflects the rest sentinel too: every rest becomes a sounding pitch. */
  lemma InversionSoundsRests(displacement: int, m: Motif, i: int)
    requires 0 <= i < |m.pitches| && m.pitches[i] == RestPitch
    ensures Modified(6, displacement, m, None).value.pitches[i] != RestPitch
  {
    var inverted := Invert(m.pitches);
    assert inverted[i] == MaxOf(m.pitches) + 1;
    NormaliseNonNegative(inverted);
  }
}
