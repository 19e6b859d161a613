/** The key and scale engine: the chromatic list, stepping through a scale
    (`nextNote`), the major and harmonic-minor scales, modes, chords and the
    octave-numbered key range that motif pitches index into. */
module Keys {
  import opened Wrappers
  import opened Enums
  import opened Arith

  /** The first index of `x` in `s`, or -1: JavaScript's `indexOf`. */
  function IndexOf<T(==)>(s: seq<T>, x: T): (i: int)
    ensures -1 <= i < |s|
    ensures i == -1 <==> x !in s
    ensures 0 <= i ==> s[i] == x && forall j :: 0 <= j < i ==> s[j] != x
  {
    IndexFrom(s, x, 0)
  }

  function IndexFrom<T(==)>(s: seq<T>, x: T, from: nat): (i: int)
    requires from <= |s|
    requires forall j :: 0 <= j < from ==> s[j] != x
    ensures -1 <= i < |s|
    ensures i == -1 <==> x !in s
    ensures 0 <= i ==> s[i] == x && forall j :: 0 <= j < i ==> s[j] != x
    decreases |s| - from
  {
    if from == |s| then -1
    else if s[from] == x then from
    else IndexFrom(s, x, from + 1)
  }

  predicate Distinct<T(==)>(s: seq<T>) {
    forall i, j :: 0 <= i < j < |s| ==> s[i] != s[j]
  }

  lemma IndexOfDistinct<T>(s: seq<T>, k: int)
    requires Distinct(s) && 0 <= k < |s|
    ensures IndexOf(s, s[k]) == k
  {
    var i := IndexOf(s, s[k]);
    assert s[i] == s[k];
  }

  /** The twelve sounding pitch classes in ascending semitones from A. */
  function Chromatic(): (r: seq<Note>)
    ensures |r| == 12
  {
    seq(12, ChromaticEntry)
  }

  /** Entry `i` of the chromatic list. */
  function ChromaticEntry(i: int): Note {
    match i
    case 0 => A case 1 => AsharpBflat case 2 => B case 3 => C
    case 4 => CsharpDflat case 5 => D case 6 => DsharpEflat case 7 => E
    case 8 => F case 9 => FsharpGflat case 10 => G case _ => GsharpAflat
  }

  /** Semitones above A, an independent table; -1 for the rest. */
  function Semitone(n: Note): int {
    match n
    case A => 0 case AsharpBflat => 1 case B => 2 case C => 3
    case CsharpDflat => 4 case D => 5 case DsharpEflat => 6 case E => 7
    case F => 8 case FsharpGflat => 9 case G => 10 case GsharpAflat => 11
    case Rest => -1
  }

  lemma SemitoneOfEntry(i: int)
    requires 0 <= i < 12
    ensures Semitone(Chromatic()[i]) == i
  {
  }

  lemma EntryOfSemitone(n: Note)
    requires n != Rest
    ensures 0 <= Semitone(n) < 12 && Chromatic()[Semitone(n)] == n
  {
  }

  /** Every sounding pitch class exactly once, in ascending semitone order from A
      (so C is entry 3), and never the rest. */
  lemma ChromaticComplete()
    ensures forall i :: 0 <= i < 12 ==> Semitone(Chromatic()[i]) == i
    ensures forall n :: n != Rest ==> n in Chromatic()
    ensures Distinct(Chromatic()) && Rest !in Chromatic()
    ensures Chromatic()[0] == A && Chromatic()[3] == C
  {
    forall i | 0 <= i < 12 ensures Semitone(Chromatic()[i]) == i {
      SemitoneOfEntry(i);
    }
    forall n | n != Rest ensures n in Chromatic() {
      EntryOfSemitone(n);
    }
  }

  /** Semitones above A, as the source finds it: by searching the chromatic list. */
  function ChromaticIndex(n: Note): int {
    IndexOf(Chromatic(), n)
  }

  lemma ChromaticIndexIsSemitone(n: Note)
    ensures ChromaticIndex(n) == Semitone(n)
  {
    ChromaticComplete();
    if n != Rest {
      EntryOfSemitone(n);
      IndexOfDistinct(Chromatic(), Semitone(n));
    }
  }

  /** The pitch class one semitone above `n`: what the source obtains as
      `nextNote(n, chromatic, 1)` (see `SuccessorIsNextNote`). */
  function Successor(n: Note): Note
    requires n != Rest
  {
    match n
    case A => AsharpBflat case AsharpBflat => B case B => C case C => CsharpDflat
    case CsharpDflat => D case D => DsharpEflat case DsharpEflat => E case E => F
    case F => FsharpGflat case FsharpGflat => G case G => GsharpAflat case GsharpAflat => A
  }

  /** The note `distance` scale steps from `start`, wrapped at most once past the end.
      A start outside the key is replaced by its chromatic successor, and only that
      one note is ever tried: if it is outside the key too, the source loops forever;
      if `start` is the rest, the source recurses forever on `undefined`.  A wrapped
      index still outside the key reads `undefined`. */
  function NextNote(start: Note, key: seq<Note>, distance: int): Result<Note> {
    var startIndex := IndexOf(key, start);
    if startIndex != -1 then Wrap(key, startIndex, distance)
    else if start == Rest then Err(Diverges)
    else
      var nextChromaticNote := Successor(start);
      var nextIndex := IndexOf(key, nextChromaticNote);
      if nextIndex == -1 then Err(Diverges)
      else Wrap(key, nextIndex, distance)
  }

  /** For a start inside the key, a note exists exactly when the index after one
      wrap lies inside the key, and it is the key's note `distance` steps on,
      counted cyclically.  For a start outside the key the same holds from its
      chromatic successor, when that is in the key; otherwise nothing comes back. */
  lemma NextNoteResult(start: Note, key: seq<Note>, distance: int)
    ensures start in key ==>
      (NextNote(start, key, distance).Ok? <==> 0 <= IndexOf(key, start) + distance < 2 * |key|)
    ensures start !in key ==>
      (NextNote(start, key, distance).Ok? <==>
         start != Rest && Successor(start) in key
         && 0 <= IndexOf(key, Successor(start)) + distance < 2 * |key|)
    ensures NextNote(start, key, distance).Ok? ==> NextNote(start, key, distance).value in key
    ensures start in key && NextNote(start, key, distance).Ok? ==>
      NextNote(start, key, distance).value == key[(IndexOf(key, start) + distance) % |key|]
    ensures start !in key && start != Rest && NextNote(start, key, distance).Ok? ==>
      NextNote(start, key, distance).value == key[(IndexOf(key, Successor(start)) + distance) % |key|]
  {
  }

  /** `key[startIndex + distance]`, after subtracting the key's length once if
      that index is past the end. */
  function Wrap(key: seq<Note>, startIndex: int, distance: int): (r: Result<Note>)
    requires 0 <= startIndex < |key|
    ensures r.Ok? <==> 0 <= startIndex + distance < 2 * |key|
    ensures r.Ok? ==> r.value == key[(startIndex + distance) % |key|]
  {
    var newIndex := startIndex + distance;
    var wrapped := if newIndex > |key| - 1 then newIndex - |key| else newIndex;
    WrappedIsMod(newIndex, |key|);
    if 0 <= wrapped < |key| then Ok(key[wrapped]) else Err(Undefined)
  }

  /** Subtracting `n` once from an index below `2 * n` past the end is taking it modulo `n`. */
  lemma WrappedIsMod(x: int, n: int)
    requires n > 0
    ensures var wrapped := if x > n - 1 then x - n else x;
      (0 <= wrapped < n <==> 0 <= x < 2 * n) && (0 <= x < 2 * n ==> wrapped == x % n)
  {
    if 0 <= x < 2 * n {
      if x > n - 1 {
        DivModUnique(x, 1, x - n, n);
      } else {
        DivModUnique(x, 0, x, n);
      }
    }
  }

  /** The notes at the given semitone offsets above `tonic`. */
  function ScaleAbove(tonic: Note, offsets: seq<int>): seq<Note>
    requires tonic != Rest
    requires forall k :: 0 <= k < |offsets| ==> 0 <= offsets[k]
  {
    ChromaticIndexIsSemitone(tonic);
    seq(|offsets|, k requires 0 <= k < |offsets| => Degree(ChromaticIndex(tonic), offsets[k]))
  }

  const MajorOffsets: seq<int> := [0, 2, 4, 5, 7, 9, 11]
  const MinorHarmonicOffsets: seq<int> := [0, 2, 3, 5, 7, 8, 11]

  /** Semitone steps between successive degrees. */
  const MajorSteps: seq<nat> := [2, 2, 1, 2, 2, 2]
  const MinorHarmonicSteps: seq<nat> := [2, 1, 2, 2, 1, 3]

  /** `start`, then each note `nextNote(previous, chromatic, step)` for the steps in
      turn: the straight-line chain of pushes that builds a scale. */
  function Chain(start: Note, key: seq<Note>, steps: seq<nat>): (r: Result<seq<Note>>)
    ensures r.Ok? ==> |r.value| == |steps| + 1 && r.value[0] == start
    decreases |steps|
  {
    if steps == [] then Ok([start])
    else
      var next :- NextNote(start, key, steps[0]);
      var rest :- Chain(next, key, steps[1..]);
      Ok([start] + rest)
  }

  function Major(tonic: Note): Result<seq<Note>> {
    Chain(tonic, Chromatic(), MajorSteps)
  }

  function MinorHarmonic(tonic: Note): Result<seq<Note>> {
    Chain(tonic, Chromatic(), MinorHarmonicSteps)
  }

  /** The notes at height `e` and at every partial sum of the steps above it. */
  function Heights(height: nat -> Note, e: nat, steps: seq<nat>): (r: seq<Note>)
    ensures |r| == |steps| + 1 && r[0] == height(e)
    decreases |steps|
  {
    if steps == [] then [height(e)] else [height(e)] + Heights(height, e + steps[0], steps[1..])
  }

  lemma ChromaticStepValue(n: Note, d: int)
    requires n != Rest && 0 <= d < 12
    ensures NextNote(n, Chromatic(), d) == Ok(Chromatic()[(ChromaticIndex(n) + d) % 12])
  {
    ChromaticIndexIsSemitone(n);
    ChromaticComplete();
    assert n in Chromatic();
    NextNoteResult(n, Chromatic(), d);
  }

  lemma SuccessorIsNextNote(n: Note)
    requires n != Rest
    ensures NextNote(n, Chromatic(), 1) == Ok(Successor(n))
  {
    ChromaticStepValue(n, 1);
    ChromaticIndexIsSemitone(n);
  }

  /** The chromatic note `e` semitones above entry `i`. */
  function Degree(i: int, e: int): Note {
    Chromatic()[(i + e) % 12]
  }

  lemma ModSum(x: int, e: int, d: int)
    requires 0 <= x < 12 && 0 <= e < 12 && 0 <= d < 12
    ensures ((x + e) % 12 + d) % 12 == (x + e + d) % 12
  {
    if x + e >= 12 {
      assert (x + e) % 12 == x + e - 12;
      assert (x + e - 12 + d + 12) % 12 == (x + e - 12 + d) % 12;
    }
  }

  /** `nextNote` over the chromatic list moves `d` semitones. */
  lemma ChromaticWalk(i: int, e: int, d: int)
    requires 0 <= i < 12 && 0 <= e < 12 && 0 <= d < 12
    ensures NextNote(Degree(i, e), Chromatic(), d) == Ok(Degree(i, e + d))
  {
    var k := (i + e) % 12;
    SemitoneOfEntry(k);
    ChromaticIndexIsSemitone(Chromatic()[k]);
    ChromaticStepValue(Chromatic()[k], d);
    ModSum(i, e, d);
  }

  lemma TonicDegree(t: Note)
    requires t != Rest
    ensures 0 <= ChromaticIndex(t) < 12 && Degree(ChromaticIndex(t), 0) == t
  {
    ChromaticIndexIsSemitone(t);
    EntryOfSemitone(t);
  }

  lemma ChainCons(start: Note, key: seq<Note>, steps: seq<nat>, next: Note, rest: seq<Note>)
    requires steps != [] && NextNote(start, key, steps[0]) == Ok(next)
    requires Chain(next, key, steps[1..]) == Ok(rest)
    ensures Chain(start, key, steps) == Ok([start] + rest)
  {
  }

  /** Chaining steps through a key in which a step of `d` from the note at height
      `h` always lands on the note at height `h + d` visits the notes at the
      heights the steps add up to. */
  lemma {:induction false} ChainAlong(height: nat -> Note, key: seq<Note>, e: nat, steps: seq<nat>)
    requires forall h: nat, d: nat {:trigger NextNote(height(h), key, d)} ::
      d in steps ==> NextNote(height(h), key, d) == Ok(height(h + d))
    ensures Chain(height(e), key, steps) == Ok(Heights(height, e, steps))
    decreases |steps|
  {
    if steps != [] {
      assert NextNote(height(e), key, steps[0]) == Ok(height(e + steps[0]));
      ChainAlong(height, key, e + steps[0], steps[1..]);
      ChainCons(height(e), key, steps, height(e + steps[0]), Heights(height, e + steps[0], steps[1..]));
    }
  }

  /** Over the chromatic list, a step of `d` below an octave from height `h`
      above entry `i` lands on height `h + d`. */
  lemma ChromaticHeight(i: int, h: nat, d: nat)
    requires 0 <= i < 12 && d < 12
    ensures NextNote(Degree(i, h), Chromatic(), d) == Ok(Degree(i, h + d))
  {
    ModAddMod(h, i, 12);
    ModAddMod(h, i + d, 12);
    assert Degree(i, h) == Degree(i, h % 12);
    assert Degree(i, h + d) == Degree(i, h % 12 + d);
    ChromaticWalk(i, h % 12, d);
  }

  /** So heights above entry `i` are a function `ChainAlong` can follow. */
  lemma ChromaticHeights(i: int, steps: seq<nat>)
    requires 0 <= i < 12
    requires forall d :: d in steps ==> d < 12
    ensures forall h: nat, d: nat {:trigger NextNote(HeightsAbove(i)(h), Chromatic(), d)} ::
      d in steps ==> NextNote(HeightsAbove(i)(h), Chromatic(), d) == Ok(HeightsAbove(i)(h + d))
  {
    forall h: nat, d: nat | d in steps
      ensures NextNote(HeightsAbove(i)(h), Chromatic(), d) == Ok(HeightsAbove(i)(h + d))
    {
      ChromaticHeight(i, h, d);
    }
  }

  /** The chromatic notes above entry `i`, by height in semitones. */
  function HeightsAbove(i: int): nat -> Note {
    (h: nat) => Degree(i, h)
  }

  /** Chaining chromatic steps below an octave from entry `i`. */
  lemma ChromaticChain(i: int, steps: seq<nat>)
    requires 0 <= i < 12
    requires forall d :: d in steps ==> d < 12
    ensures Chain(Degree(i, 0), Chromatic(), steps) == Ok(Heights(HeightsAbove(i), 0, steps))
  {
    ChromaticHeights(i, steps);
    assert Degree(i, 0) == HeightsAbove(i)(0);
    ChainAlong(HeightsAbove(i), Chromatic(), 0, steps);
  }

  /** Major: the chain from a sounding tonic spells the notes at its offsets. */
  lemma MajorChain(tonic: Note)
    requires tonic != Rest
    ensures Major(tonic) == Ok(ScaleAbove(tonic, MajorOffsets))
  {
    TonicDegree(tonic);
    ChromaticChain(ChromaticIndex(tonic), MajorSteps);
    MajorShape(tonic, ChromaticIndex(tonic));
  }

  lemma MajorShape(tonic: Note, i: int)
    requires tonic != Rest && i == ChromaticIndex(tonic) && 0 <= i < 12
    ensures Heights(HeightsAbove(i), 0, MajorSteps) == ScaleAbove(tonic, MajorOffsets)
  {
    ShapeFromSteps(tonic, i, MajorSteps, MajorOffsets);
  }

  /** Harmonic minor: the same, at the harmonic-minor offsets. */
  lemma MinorHarmonicChain(tonic: Note)
    requires tonic != Rest
    ensures MinorHarmonic(tonic) == Ok(ScaleAbove(tonic, MinorHarmonicOffsets))
  {
    TonicDegree(tonic);
    ChromaticChain(ChromaticIndex(tonic), MinorHarmonicSteps);
    MinorHarmonicShape(tonic, ChromaticIndex(tonic));
  }

  lemma MinorHarmonicShape(tonic: Note, i: int)
    requires tonic != Rest && i == ChromaticIndex(tonic) && 0 <= i < 12
    ensures Heights(HeightsAbove(i), 0, MinorHarmonicSteps) == ScaleAbove(tonic, MinorHarmonicOffsets)
  {
    ShapeFromSteps(tonic, i, MinorHarmonicSteps, MinorHarmonicOffsets);
  }

  /** Height `k` of a chain of steps is the start plus the first `k` steps. */
  lemma {:induction false} HeightsAt(height: nat -> Note, e: nat, steps: seq<nat>, k: nat)
    requires k <= |steps|
    ensures Heights(height, e, steps)[k] == height(e + Total(steps[..k]))
    decreases k
  {
    if k == 0 {
      assert steps[..0] == [];
    } else {
      HeightsAt(height, e + steps[0], steps[1..], k - 1);
      assert steps[..k] == [steps[0]] + steps[1..][..k - 1];
      TotalAppend([steps[0]], steps[1..][..k - 1]);
      assert [steps[0]][..0] == [];
    }
  }

  /** Offsets that start at 0 and grow by the steps are the steps' partial sums. */
  lemma {:induction false} PartialSums(steps: seq<nat>, offsets: seq<int>, k: nat)
    requires |offsets| == |steps| + 1 && offsets[0] == 0
    requires forall j :: 0 <= j < |steps| ==> offsets[j + 1] == offsets[j] + steps[j]
    requires k <= |steps|
    ensures Total(steps[..k]) == offsets[k]
  {
    if k > 0 {
      PartialSums(steps, offsets, k - 1);
      assert steps[..k][..k - 1] == steps[..k - 1];
    }
  }

  /** Chaining steps from entry `i` spells the notes at their partial sums. */
  lemma ShapeFromSteps(tonic: Note, i: int, steps: seq<nat>, offsets: seq<int>)
    requires tonic != Rest && i == ChromaticIndex(tonic) && 0 <= i < 12
    requires |offsets| == |steps| + 1 && offsets[0] == 0
    requires forall j :: 0 <= j < |steps| ==> offsets[j + 1] == offsets[j] + steps[j]
    requires forall k :: 0 <= k < |offsets| ==> 0 <= offsets[k]
    ensures Heights(HeightsAbove(i), 0, steps) == ScaleAbove(tonic, offsets)
  {
    var h := HeightsAbove(i);
    var scale := ScaleAbove(tonic, offsets);
    forall k | 0 <= k <= |steps|
      ensures Heights(h, 0, steps)[k] == scale[k]
    {
      HeightsAt(h, 0, steps, k);
      PartialSums(steps, offsets, k);
    }
  }

  lemma RestIsNoTonic()
    ensures Major(Rest) == Err(Diverges) && MinorHarmonic(Rest) == Err(Diverges)
  {
    ChromaticComplete();
  }

  /** Seven notes at semitone offsets 0, 2, 4, 5, 7, 9, 11 above the tonic; a rest
      as tonic never yields a scale. */
  lemma MajorDegrees(tonic: Note)
    ensures tonic == Rest ==> Major(tonic) == Err(Diverges)
    ensures tonic != Rest ==> Major(tonic) == Ok(ScaleAbove(tonic, MajorOffsets))
  {
    RestIsNoTonic();
    if tonic != Rest {
      MajorChain(tonic);
    }
  }

  /** Seven notes at semitone offsets 0, 2, 3, 5, 7, 8, 11 above the tonic; a rest
      as tonic never yields a scale. */
  lemma MinorHarmonicDegrees(tonic: Note)
    ensures tonic == Rest ==> MinorHarmonic(tonic) == Err(Diverges)
    ensures tonic != Rest ==> MinorHarmonic(tonic) == Ok(ScaleAbove(tonic, MinorHarmonicOffsets))
  {
    RestIsNoTonic();
    if tonic != Rest {
      MinorHarmonicChain(tonic);
    }
  }

  /** The notes at given offsets above C and above A. */
  lemma ScalesAboveCAndA()
    ensures ScaleAbove(C, MajorOffsets) == [C, D, E, F, G, A, B]
    ensures ScaleAbove(A, MinorHarmonicOffsets) == [A, B, C, D, E, F, GsharpAflat]
  {
    ChromaticIndexIsSemitone(C);
    ChromaticIndexIsSemitone(A);
  }

  /** C major is C D E F G A B. */
  lemma CMajor()
    ensures Major(C) == Ok([C, D, E, F, G, A, B])
  {
    MajorDegrees(C);
    ScalesAboveCAndA();
  }

  /** A harmonic minor is A B C D E F G sharp. */
  lemma AMinorHarmonic()
    ensures MinorHarmonic(A) == Ok([A, B, C, D, E, F, GsharpAflat])
  {
    MinorHarmonicDegrees(A);
    ScalesAboveCAndA();
  }

  /* ---------------------------------------------------------------- modes */

  /** `mode` as written: both `concat` results are discarded, so the list it
      returns is always the empty one it started with.  Even kept, the slices
      would not rotate the key: see `ModeSlices`. */
  function ModeAsWritten(key: seq<Note>, modeNumber: int): (r: seq<Note>)
    ensures |r| == 0
  {
    []
  }

  /** The two slices `mode` takes, joined as the discarded `concat`s would have
      joined them.  The first slice ends at `key.length - modeIndex` rather than
      at the key's end, and a slice whose end falls before its start is empty. */
  function ModeSlices(key: seq<Note>, modeNumber: int): seq<Note>
    requires 1 <= modeNumber <= |key|
  {
    var modeIndex := modeNumber - 1;
    var upTo := |key| - modeIndex;
    (if modeIndex <= upTo then key[modeIndex..upTo] else []) + key[..modeIndex]
  }

  /** The mode the method is evidently meant to build: the key read from its
      `modeNumber`-th degree up, followed by the degrees below it.  This needs
      two corrections: the `concat` results are kept, and the first slice runs
      to the key's end. */
  function Mode(key: seq<Note>, modeNumber: int): seq<Note>
    requires 1 <= modeNumber <= |key|
  {
    key[modeNumber - 1..] + key[..modeNumber - 1]
  }

  /** A mode is a rotation of the key: the same notes, starting at the chosen degree. */
  lemma ModeRotates(key: seq<Note>, modeNumber: int)
    requires 1 <= modeNumber <= |key|
    ensures |Mode(key, modeNumber)| == |key|
    ensures forall i :: 0 <= i < |key| ==> Mode(key, modeNumber)[i] == key[(i + modeNumber - 1) % |key|]
    ensures multiset(Mode(key, modeNumber)) == multiset(key)
  {
    var m := modeNumber - 1;
    forall i | 0 <= i < |key| ensures Mode(key, modeNumber)[i] == key[(i + m) % |key|] {
      ModeAt(key, modeNumber, i);
    }
    assert key == key[..m] + key[m..];
  }

  /** The first mode is the key itself; the chosen degree becomes the tonic. */
  lemma ModeTonic(key: seq<Note>, modeNumber: int)
    requires 1 <= modeNumber <= |key|
    ensures Mode(key, 1) == key
    ensures Mode(key, modeNumber)[0] == key[modeNumber - 1]
  {
  }

  lemma ModeAt(key: seq<Note>, modeNumber: int, i: int)
    requires 1 <= modeNumber <= |key| && 0 <= i < |key|
    ensures Mode(key, modeNumber)[i] == key[(i + modeNumber - 1) % |key|]
  {
    var m := modeNumber - 1;
    if i + m < |key| {
      DivModUnique(i + m, 0, i + m, |key|);
    } else {
      DivModUnique(i + m, 1, i + m - |key|, |key|);
    }
  }

  /** Taking the `b`-th mode of the `a`-th mode is taking one mode of the key. */
  lemma ModeOfMode(key: seq<Note>, a: int, b: int)
    requires 1 <= a <= |key| && 1 <= b <= |key|
    ensures Mode(Mode(key, a), b) == Mode(key, (a - 1 + b - 1) % |key| + 1)
  {
    var c := (a - 1 + b - 1) % |key| + 1;
    forall i | 0 <= i < |key| ensures Mode(Mode(key, a), b)[i] == Mode(key, c)[i] {
      ModeOfModeAt(key, a, b, i);
    }
  }

  lemma ModeOfModeAt(key: seq<Note>, a: int, b: int, i: int)
    requires 1 <= a <= |key| && 1 <= b <= |key| && 0 <= i < |key|
    ensures Mode(Mode(key, a), b)[i] == Mode(key, (a - 1 + b - 1) % |key| + 1)[i]
  {
    var n := |key|;
    var j := (i + b - 1) % n;
    ModeAt(Mode(key, a), b, i);
    ModeAt(key, a, j);
    ModeAt(key, (a - 1 + b - 1) % n + 1, i);
    ModeIndex(i, a, b, n);
  }

  /** Index arithmetic of two rotations: by `b - 1`, then by `a - 1`. */
  lemma ModeIndex(i: int, a: int, b: int, n: int)
    requires n > 0
    ensures ((i + b - 1) % n + a - 1) % n == (i + ((a - 1 + b - 1) % n + 1) - 1) % n
  {
    var x, y := i + b - 1, a - 1 + b - 1;
    ModAddMod(x, a - 1, n);
    ModAddMod(y, i, n);
    assert x + (a - 1) == y + i;
    assert i + (y % n + 1) - 1 == y % n + i;
  }

  /** As written, `mode` never returns the mode: for the second mode of C major
      it returns nothing instead of the Dorian D E F G A B C.  Keeping the
      `concat` results alone would not help: the short first slice loses B from
      the second mode, and the fifth mode's first slice is empty. */
  lemma ModeAsWrittenLosesTheKey()
    ensures ModeAsWritten([C, D, E, F, G, A, B], 2) == []
    ensures ModeSlices([C, D, E, F, G, A, B], 2) == [D, E, F, G, A, C]
    ensures ModeSlices([C, D, E, F, G, A, B], 5) == [C, D, E, F]
    ensures Mode([C, D, E, F, G, A, B], 2) == [D, E, F, G, A, B, C]
  {
  }

  /* ------------------------------------------------------------ key range */

  /** `key` repeated `n` times. */
  function Repeat(key: seq<Note>, n: nat): (r: seq<Note>)
    ensures |r| == n * |key|
  {
    if n == 0 then [] else Repeat(key, n - 1) + key
  }

  /** How many C's `s` holds. */
  function CountC(s: seq<Note>): nat {
    if s == [] then 0 else CountC(s[..|s| - 1]) + (if s[|s| - 1] == C then 1 else 0)
  }

  /** Each note with its octave: the number of C's up to and including it, so the
      octave goes up by one on every C and a range starting below C starts at 0. */
  function Numbered(s: seq<Note>): (r: seq<KeyTone>)
    ensures |r| == |s|
  {
    seq(|s|, j requires 0 <= j < |s| => KeyTone(s[j], CountC(s[..j + 1])))
  }

  lemma NumberedSnoc(s: seq<Note>, x: Note)
    ensures Numbered(s + [x]) == Numbered(s) + [KeyTone(x, CountC(s + [x]))]
  {
    var t := s + [x];
    assert t[..|t|] == t;
    forall j | 0 <= j < |s| ensures Numbered(t)[j] == Numbered(s)[j] {
      assert t[..j + 1] == s[..j + 1];
    }
  }

  /** The key repeated `noOfRepeats` times, each note numbered with its octave. */
  method KeyRange(key: seq<Note>, noOfRepeats: int) returns (range: seq<KeyTone>)
    ensures range == Numbered(Repeat(key, if noOfRepeats > 0 then noOfRepeats else 0))
  {
    range := [];
    var octave := 0;
    var i := 0;
    while i < noOfRepeats
      invariant 0 <= i <= (if noOfRepeats > 0 then noOfRepeats else 0)
      invariant range == Numbered(Repeat(key, i)) && octave == CountC(Repeat(key, i))
    {
      range, octave := NumberKey(key, range, octave, Repeat(key, i));
      i := i + 1;
    }
  }

  /** The inner loop of `keyRange`: push each note of the key, numbered with the
      octave, which goes up on every C. */
  method NumberKey(key: seq<Note>, range: seq<KeyTone>, octave: nat, ghost done: seq<Note>)
    returns (range': seq<KeyTone>, octave': nat)
    requires range == Numbered(done) && octave == CountC(done)
    ensures range' == Numbered(done + key) && octave' == CountC(done + key)
  {
    range', octave' := range, octave;
    ghost var sofar := done;
    for k := 0 to |key|
      invariant sofar == done + key[..k]
      invariant range' == Numbered(sofar) && octave' == CountC(sofar)
    {
      var note := key[k];
      if note == C {
        octave' := octave' + 1;
      }
      KeyRangeStep(sofar, note);
      range' := range' + [KeyTone(note, octave')];
      sofar := sofar + [note];
      assert key[..k + 1] == key[..k] + [note];
    }
    assert key[..|key|] == key;
  }

  /** One push of the inner loop: the next note, numbered with the C's so far. */
  lemma KeyRangeStep(done: seq<Note>, note: Note)
    ensures CountC(done + [note]) == CountC(done) + (if note == C then 1 else 0)
    ensures Numbered(done + [note]) == Numbered(done) + [KeyTone(note, CountC(done + [note]))]
  {
    NumberedSnoc(done, note);
    assert (done + [note])[..|done|] == done;
  }

  /** The octave never falls along a key range, and it rises exactly at each C. */
  lemma {:induction false} CountCMonotone(s: seq<Note>, j: nat, k: nat)
    requires j <= k <= |s|
    ensures CountC(s[..j]) <= CountC(s[..k])
    decreases k - j
  {
    if j < k {
      assert s[..k][..k - 1] == s[..k - 1];
      CountCMonotone(s, j, k - 1);
    }
  }

  lemma KeyRangeOctaves(s: seq<Note>, j: int)
    requires 0 < j < |s|
    ensures Numbered(s)[j - 1].octave <= Numbered(s)[j].octave
    ensures Numbered(s)[j].octave == Numbered(s)[j - 1].octave + (if s[j] == C then 1 else 0)
  {
    assert s[..j + 1][..j] == s[..j];
  }

  /** Notes without a C count no C. */
  lemma {:induction false} NoCCountsZero(s: seq<Note>)
    requires C !in s
    ensures CountC(s) == 0
  {
    if s != [] {
      assert s[|s| - 1] in s;
      assert C !in s[..|s| - 1];
      NoCCountsZero(s[..|s| - 1]);
    }
  }

  /** Repeating a key brings in no note the key lacks. */
  lemma {:induction false} RepeatLacks(key: seq<Note>, n: nat, x: Note)
    requires x !in key
    ensures x !in Repeat(key, n)
  {
    if n > 0 {
      RepeatLacks(key, n - 1, x);
    }
  }

  /** A key without C (F sharp major, say) keeps every entry of its range in
      octave 0. */
  lemma NoCStaysAtOctaveZero(key: seq<Note>, n: nat)
    requires C !in key
    ensures forall j :: 0 <= j < n * |key| ==> Numbered(Repeat(key, n))[j].octave == 0
  {
    var s := Repeat(key, n);
    RepeatLacks(key, n, C);
    forall j | 0 <= j < n * |key|
      ensures Numbered(s)[j].octave == 0
    {
      assert C !in s[..j + 1];
      NoCCountsZero(s[..j + 1]);
    }
  }

  lemma {:induction false} CountCAppend(s: seq<Note>, t: seq<Note>)
    ensures CountC(s + t) == CountC(s) + CountC(t)
  {
    if t == [] {
      assert s + t == s;
    } else {
      assert (s + t)[..|s + t| - 1] == s + t[..|t| - 1];
      CountCAppend(s, t[..|t| - 1]);
    }
  }

  lemma {:induction false} RepeatPrefix(key: seq<Note>, n: nat, i: nat, k: nat)
    requires i < n && k <= |key|
    ensures i * |key| + k <= |Repeat(key, n)|
    ensures Repeat(key, n)[..i * |key| + k] == Repeat(key, i) + key[..k]
  {
    var L := |key|;
    assert n * L == (n - 1) * L + L;
    if i == n - 1 {
      assert Repeat(key, n) == Repeat(key, n - 1) + key;
    } else {
      RepeatPrefix(key, n - 1, i, k);
      assert i * L + k <= (i + 1) * L <= (n - 1) * L;
    }
  }

  /** Entry `j` of a key range holds the key's note `j mod |key|`. */
  lemma RangeNote(key: seq<Note>, n: nat, j: int)
    requires 0 <= j < n * |key|
    ensures Numbered(Repeat(key, n))[j].note == key[j % |key|]
  {
    var L := |key|;
    var i := j / L;
    var k := j % L;
    QuotientBelow(j, n, L);
    RepeatPrefix(key, n, i, k + 1);
    assert Repeat(key, n)[..j + 1][j] == (Repeat(key, i) + key[..k + 1])[j];
  }

  /** A key with a single C, at its start, counts one C per repetition. */
  lemma {:induction false} CountCRepeat(key: seq<Note>, i: nat)
    requires |key| > 0 && key[0] == C && C !in key[1..]
    ensures CountC(Repeat(key, i)) == i
  {
    if i > 0 {
      CountCRepeat(key, i - 1);
      CountCAppend(Repeat(key, i - 1), key);
      TonicCPrefix(key, |key|);
      assert key[..|key|] == key;
    }
  }

  lemma TonicCPrefix(key: seq<Note>, m: nat)
    requires 1 <= m <= |key| && key[0] == C && C !in key[1..]
    ensures CountC(key[..m]) == 1
  {
    assert key[..m] == [C] + key[1..m];
    assert C !in key[1..m];
    CountCAppend([C], key[1..m]);
    NoCCountsZero(key[1..m]);
  }

  /** In the range of a key whose only C is its tonic (C major), the notes of
      the `i`-th repetition all sit in octave `i + 1`. */
  lemma TonicCOctaves(key: seq<Note>, n: nat, j: int)
    requires |key| > 0 && key[0] == C && C !in key[1..]
    requires 0 <= j < n * |key|
    ensures Numbered(Repeat(key, n))[j].octave == j / |key| + 1
  {
    var L := |key|;
    var i := j / L;
    var k := j % L;
    QuotientBelow(j, n, L);
    RepeatPrefix(key, n, i, k + 1);
    assert Repeat(key, n)[..j + 1] == Repeat(key, i) + key[..k + 1];
    CountCAppend(Repeat(key, i), key[..k + 1]);
    CountCRepeat(key, i);
    TonicCPrefix(key, k + 1);
  }

  lemma CMajorRange(n: nat, j: int)
    requires 0 <= j < n * 7
    ensures Numbered(Repeat([C, D, E, F, G, A, B], n))[j].octave == j / 7 + 1
  {
    var key := [C, D, E, F, G, A, B];
    assert key[1..] == [D, E, F, G, A, B];
    TonicCOctaves(key, n, j);
  }
}
