/** The harmony service: a first-species counterpoint line under a melody,
    chosen tone by tone from a key range by a fixed table of rules. */
module Harmony {
  import opened Wrappers
  import opened Enums
  import opened Keys

  /** The harmony index pushed for a melody rest. */
  const RestIndex: int := -1

  function Sign(x: int): int {
    if x > 0 then 1 else if x < 0 then -1 else 0
  }

  function Abs(x: int): nat {
    if x < 0 then -x else x
  }

  /** The pitch classes of a key range, for `findIndex(k => k.note === note)`. */
  function NotesOf(keyRange: seq<KeyTone>): (r: seq<Note>)
    ensures |r| == |keyRange| && forall j :: 0 <= j < |r| ==> r[j] == keyRange[j].note
  {
    seq(|keyRange|, j requires 0 <= j < |keyRange| => keyRange[j].note)
  }

  /** `findIndex(n => n.id === tone.id)`: a tone's id is its note and octave. */
  function IdIndex(keyRange: seq<KeyTone>, note: Note, octave: int): int {
    IndexOf(keyRange, KeyTone(note, octave))
  }

  /** The candidate harmony indices for a melody tone at `index` of the range:
      the octave (or unison) and the degrees 2, 4, 5 and 7 below, or only 2 and
      5 below after an octave. */
  function Candidates(index: int, previousWasOctave: bool): seq<int> {
    if previousWasOctave then [index - 2, index - 5]
    else [index, index - 2, index - 4, index - 5, index - 7]
  }

  /** `filter(h => h < keyRange.length && h > 0)`. */
  function Within(choices: seq<int>, rangeLength: int): (r: seq<int>)
    ensures forall x :: x in r <==> x in choices && 0 < x < rangeLength
    ensures |r| <= |choices|
  {
    if choices == [] then []
    else (if 0 < choices[0] < rangeLength then [choices[0]] else []) + Within(choices[1..], rangeLength)
  }

  /** The choices one degree away from the previous harmony index. */
  function Stepwise(choices: seq<int>, previous: int): (r: seq<int>)
    ensures forall x :: x in r <==> x in choices && Abs(previous - x) == 1
  {
    if choices == [] then []
    else (if Abs(previous - choices[0]) == 1 then [choices[0]] else []) + Stepwise(choices[1..], previous)
  }

  /** The choices whose direction from the previous harmony index differs from
      the melody's direction. */
  function Contrary(choices: seq<int>, previous: int, melodyChange: int): (r: seq<int>)
    ensures forall x :: x in r <==> x in choices && Sign(previous - x) != Sign(melodyChange)
  {
    if choices == [] then []
    else
      var head := if Sign(previous - choices[0]) != Sign(melodyChange) then [choices[0]] else [];
      head + Contrary(choices[1..], previous, melodyChange)
  }

  /** What the loop over the stepwise choices leaves in `noteChoice`: the last
      of them that is also a contrary choice. */
  function LastIn(stepwise: seq<int>, contrary: seq<int>): (r: Option<int>)
    ensures r.Some? ==> r.value in stepwise && r.value in contrary
    ensures r.None? <==> forall i :: 0 <= i < |stepwise| ==> stepwise[i] !in contrary
  {
    if stepwise == [] then None
    else if stepwise[|stepwise| - 1] in contrary then Some(stepwise[|stepwise| - 1])
    else
      var r := LastIn(stepwise[..|stepwise| - 1], contrary);
      assert forall i :: 0 <= i < |stepwise| - 1 ==> stepwise[..|stepwise| - 1][i] == stepwise[i];
      r
  }

  /** `Math.min(...choices.map(h => Math.abs(h - previous)))` for some choices. */
  function MinDistance(choices: seq<int>, previous: int): (r: nat)
    requires choices != []
    ensures forall i :: 0 <= i < |choices| ==> r <= Abs(choices[i] - previous)
    ensures exists i :: 0 <= i < |choices| && r == Abs(choices[i] - previous)
  {
    var last := Abs(choices[|choices| - 1] - previous);
    if |choices| == 1 then last
    else
      var rest := MinDistance(choices[..|choices| - 1], previous);
      assert forall i :: 0 <= i < |choices| - 1 ==> choices[..|choices| - 1][i] == choices[i];
      if rest <= last then rest else last
  }

  /** The harmony index pushed for a sounding melody tone, as written.  The last
      rule pushes a distance where an index is meant, and `Math.min()` of no
      choices is Infinity: a value no key range holds, here its length. */
  function ChooseHarmony(choices: seq<int>, previous: int, melodyChange: int, rangeLength: int): int {
    var stepwise := Stepwise(choices, previous);
    var contrary := Contrary(choices, previous, melodyChange);
    var noteChoice := LastIn(stepwise, contrary);
    if noteChoice.Some? && noteChoice.value != 0 then noteChoice.value
    else if |stepwise| > 0 then stepwise[0]
    else if |contrary| > 0 then contrary[0]
    else if choices == [] then rangeLength
    else MinDistance(choices, previous)
  }

  /** The harmony index for melody tone `i >= 1`, given the previous one.  A
      melody rest gives a harmony rest.  A sounding tone without an octave has
      no id, and a previous harmony index outside the range (a rest, or the
      Infinity of an empty choice) has no note: both throw. */
  function HarmonyStep(phrase: seq<Tone>, keyRange: seq<KeyTone>, previous: int, i: int): Result<int>
    requires 1 <= i < |phrase|
  {
    if phrase[i].note == Rest then Ok(RestIndex)
    else if phrase[i].octave.None? then Err(TypeError)
    else if !(0 <= previous < |keyRange|) then Err(TypeError)
    else
      var melodyChange := IndexOf(NotesOf(keyRange), phrase[i].note) - IndexOf(NotesOf(keyRange), phrase[i - 1].note);
      var indexOfToneInRange := IdIndex(keyRange, phrase[i].note, phrase[i].octave.value);
      var previousWasOctave := phrase[i - 1].note == keyRange[previous].note;
      var choices := Within(Candidates(indexOfToneInRange, previousWasOctave), |keyRange|);
      Ok(ChooseHarmony(choices, previous, melodyChange, |keyRange|))
  }

  /** Whether the unison lookup of the first tone can run: `findIndex` builds
      the first tone's id once per entry, so only a non-empty range needs its
      octave. */
  predicate FirstReadable(phrase: seq<Tone>, keyRange: seq<KeyTone>) {
    phrase != [] && (keyRange == [] || phrase[0].octave.Some?)
  }

  /** The unison index pushed first: -1 from an empty range. */
  function FirstIndex(phrase: seq<Tone>, keyRange: seq<KeyTone>): int
    requires FirstReadable(phrase, keyRange)
  {
    if keyRange == [] then RestIndex else IdIndex(keyRange, phrase[0].note, phrase[0].octave.value)
  }

  /** The harmony indices for the first `n` melody tones. */
  function HarmonyUpTo(phrase: seq<Tone>, keyRange: seq<KeyTone>, n: int): (r: Result<seq<int>>)
    requires 1 <= n <= |phrase| && FirstReadable(phrase, keyRange)
    ensures r.Ok? ==> |r.value| == n
  {
    if n == 1 then Ok([FirstIndex(phrase, keyRange)])
    else
      var harmony :- HarmonyUpTo(phrase, keyRange, n - 1);
      var next :- HarmonyStep(phrase, keyRange, harmony[n - 2], n - 1);
      Ok(harmony + [next])
  }

  /** The harmony tone for index `h` under a melody tone. */
  function HarmonyTone(keyRange: seq<KeyTone>, h: int, melody: Tone): Tone
    requires h == RestIndex || 0 <= h < |keyRange|
  {
    if h == RestIndex then Tone(Rest, None, melody.length, None)
    else Tone(keyRange[h].note, Some(keyRange[h].octave), melody.length, melody.volume)
  }

  /** The final `map` to tones: reading `.note` of an index outside the range throws. */
  function ToTones(phrase: seq<Tone>, keyRange: seq<KeyTone>, harmony: seq<int>): Result<seq<Tone>>
    requires |harmony| == |phrase|
  {
    if exists i :: 0 <= i < |harmony| && !(harmony[i] == RestIndex || 0 <= harmony[i] < |keyRange|) then
      Err(TypeError)
    else
      Ok(seq(|harmony|, i requires 0 <= i < |harmony| => HarmonyTone(keyRange, harmony[i], phrase[i])))
  }

  /** What `firstSpeciesCounterpoint` returns.  An empty phrase throws, and so
      does a first tone without an octave once the range has an entry whose
      id is compared with it. */
  function Counterpoint(phrase: seq<Tone>, keyRange: seq<KeyTone>): Result<seq<Tone>> {
    if !FirstReadable(phrase, keyRange) then Err(TypeError)
    else
      var harmony :- HarmonyUpTo(phrase, keyRange, |phrase|);
      ToTones(phrase, keyRange, harmony)
  }

  lemma {:induction false} HarmonyFailureStays(phrase: seq<Tone>, keyRange: seq<KeyTone>, i: int, n: int)
    requires 1 <= i <= n <= |phrase| && FirstReadable(phrase, keyRange)
    requires HarmonyUpTo(phrase, keyRange, i).Err?
    ensures HarmonyUpTo(phrase, keyRange, n) == HarmonyUpTo(phrase, keyRange, i)
    decreases n
  {
    if n > i {
      HarmonyFailureStays(phrase, keyRange, i, n - 1);
      FailurePropagates(phrase, keyRange, n);
    }
  }

  lemma FailurePropagates(phrase: seq<Tone>, keyRange: seq<KeyTone>, n: int)
    requires 2 <= n <= |phrase| && FirstReadable(phrase, keyRange)
    requires HarmonyUpTo(phrase, keyRange, n - 1).Err?
    ensures HarmonyUpTo(phrase, keyRange, n) == HarmonyUpTo(phrase, keyRange, n - 1)
  {
  }

  /** `firstSpeciesCounterpoint`: push the unison index, then one index per
      melody tone, then map the indices to tones. */
  method FirstSpeciesCounterpoint(phrase: seq<Tone>, keyRange: seq<KeyTone>) returns (r: Result<seq<Tone>>)
    ensures r == Counterpoint(phrase, keyRange)
  {
    if !FirstReadable(phrase, keyRange) {
      return Err(TypeError);
    }
    var harmony := [FirstIndex(phrase, keyRange)];
    for i := 1 to |phrase|
      invariant HarmonyUpTo(phrase, keyRange, i) == Ok(harmony)
    {
      var step := HarmonyIndexFor(phrase, keyRange, harmony[i - 1], i);
      HarmonyNext(phrase, keyRange, i, harmony);
      if step.Err? {
        HarmonyFailureStays(phrase, keyRange, i + 1, |phrase|);
        return Err(step.fault);
      }
      harmony := harmony + [step.value];
    }
    r := ToTones(phrase, keyRange, harmony);
  }

  /** One more pass: the line of `i + 1` indexes, or the failure of the step. */
  lemma HarmonyNext(phrase: seq<Tone>, keyRange: seq<KeyTone>, i: int, harmony: seq<int>)
    requires 1 <= i < |phrase| && FirstReadable(phrase, keyRange)
    requires HarmonyUpTo(phrase, keyRange, i) == Ok(harmony)
    ensures var step := HarmonyStep(phrase, keyRange, harmony[i - 1], i);
      HarmonyUpTo(phrase, keyRange, i + 1) == if step.Ok? then Ok(harmony + [step.value]) else Err(step.fault)
  {
  }

  /** One pass of the outer loop: the rule table for melody tone `i`. */
  method HarmonyIndexFor(phrase: seq<Tone>, keyRange: seq<KeyTone>, previousHarmonyNoteIndex: int, i: int)
    returns (r: Result<int>)
    requires 1 <= i < |phrase|
    ensures r == HarmonyStep(phrase, keyRange, previousHarmonyNoteIndex, i)
  {
    var melodyChange := IndexOf(NotesOf(keyRange), phrase[i].note) - IndexOf(NotesOf(keyRange), phrase[i - 1].note);
    if phrase[i].note == Rest {
      return Ok(RestIndex);
    }
    if phrase[i].octave.None? || !(0 <= previousHarmonyNoteIndex < |keyRange|) {
      return Err(TypeError);
    }
    var indexOfToneInRange := IdIndex(keyRange, phrase[i].note, phrase[i].octave.value);
    var previousWasOctave := phrase[i - 1].note == keyRange[previousHarmonyNoteIndex].note;
    var harmonyChoices := Within(Candidates(indexOfToneInRange, previousWasOctave), |keyRange|);
    var stepwiseChoices := Stepwise(harmonyChoices, previousHarmonyNoteIndex);
    var contraryMotionChoices := Contrary(harmonyChoices, previousHarmonyNoteIndex, melodyChange);
    var noteChoice := LastContrary(stepwiseChoices, contraryMotionChoices);
    var choice: int;
    if noteChoice.Some? && noteChoice.value != 0 {
      choice := noteChoice.value;
    } else if |stepwiseChoices| > 0 {
      choice := stepwiseChoices[0];
    } else if |contraryMotionChoices| > 0 {
      choice := contraryMotionChoices[0];
    } else if harmonyChoices == [] {
      choice := |keyRange|;
    } else {
      choice := MinDistance(harmonyChoices, previousHarmonyNoteIndex);
    }
    r := Ok(choice);
  }

  /** The inner loop: overwrite `noteChoice` with every stepwise choice that is
      also a contrary one. */
  method LastContrary(stepwiseChoices: seq<int>, contraryMotionChoices: seq<int>) returns (noteChoice: Option<int>)
    ensures noteChoice == LastIn(stepwiseChoices, contraryMotionChoices)
  {
    noteChoice := None;
    for j := 0 to |stepwiseChoices|
      invariant noteChoice == LastIn(stepwiseChoices[..j], contraryMotionChoices)
    {
      assert stepwiseChoices[..j + 1][..j] == stepwiseChoices[..j];
      if stepwiseChoices[j] in contraryMotionChoices {
        noteChoice := Some(stepwiseChoices[j]);
      }
    }
    assert stepwiseChoices[..|stepwiseChoices|] == stepwiseChoices;
  }

  /* -------------------------------------------------------------- properties */

  /** The rule order.  The first three rules always pick one of the choices;
      the first picks a stepwise contrary one, the last of them; and with no
      choice at all the pushed value is outside the range. */
  lemma ChoiceRules(choices: seq<int>, previous: int, melodyChange: int, rangeLength: int)
    requires forall i :: 0 <= i < |choices| ==> 0 < choices[i] < rangeLength
    ensures var stepwise := Stepwise(choices, previous);
      var contrary := Contrary(choices, previous, melodyChange);
      var h := ChooseHarmony(choices, previous, melodyChange, rangeLength);
      (stepwise != [] || contrary != [] ==> h in choices && 0 < h < rangeLength) &&
      (LastIn(stepwise, contrary).Some? ==>
         h == LastIn(stepwise, contrary).value && Abs(previous - h) == 1 &&
         Sign(previous - h) != Sign(melodyChange)) &&
      (LastIn(stepwise, contrary).None? && stepwise != [] ==> h == stepwise[0]) &&
      (stepwise == [] && contrary != [] ==> h == contrary[0]) &&
      (choices == [] ==> h == rangeLength)
  {
    var stepwise := Stepwise(choices, previous);
    var contrary := Contrary(choices, previous, melodyChange);
    if stepwise != [] {
      assert stepwise[0] in stepwise;
    }
    if contrary != [] {
      assert contrary[0] in contrary;
    }
  }

  /** Tones of the harmony line that sound are entries of the key range. */
  predicate FromRange(t: Tone, keyRange: seq<KeyTone>) {
    t.octave.Some? && KeyTone(t.note, t.octave.value) in keyRange
  }

  /** One harmony tone per melody tone, as long as it; a sounding one is an
      entry of the key range with the melody tone's volume, any other a rest
      without octave or volume. */
  lemma CounterpointShape(phrase: seq<Tone>, keyRange: seq<KeyTone>)
    requires Counterpoint(phrase, keyRange).Ok?
    ensures var line := Counterpoint(phrase, keyRange).value;
      |line| == |phrase| &&
      forall i :: 0 <= i < |line| ==>
        line[i].length == phrase[i].length &&
        (line[i].octave.Some? ==> FromRange(line[i], keyRange) && line[i].volume == phrase[i].volume) &&
        (line[i].octave.None? ==> line[i] == Tone(Rest, None, phrase[i].length, None))
  {
    var harmony := HarmonyUpTo(phrase, keyRange, |phrase|).value;
    var line := Counterpoint(phrase, keyRange).value;
    forall i | 0 <= i < |line| && line[i].octave.Some?
      ensures FromRange(line[i], keyRange)
    {
      assert keyRange[harmony[i]] == KeyTone(line[i].note, line[i].octave.value);
    }
  }

  /** A line of `n` indexes is the line of `n - 1` with one rule-table step on top. */
  lemma HarmonyUpToStep(phrase: seq<Tone>, keyRange: seq<KeyTone>, n: int)
    requires 2 <= n <= |phrase| && FirstReadable(phrase, keyRange)
    requires HarmonyUpTo(phrase, keyRange, n).Ok?
    ensures HarmonyUpTo(phrase, keyRange, n - 1).Ok?
    ensures var shorter := HarmonyUpTo(phrase, keyRange, n - 1).value;
      HarmonyStep(phrase, keyRange, shorter[n - 2], n - 1).Ok? &&
      HarmonyUpTo(phrase, keyRange, n).value ==
        shorter + [HarmonyStep(phrase, keyRange, shorter[n - 2], n - 1).value]
  {
  }

  lemma PrefixOfPrefix<T>(s: seq<T>, k: int, m: int)
    requires 0 <= m <= k <= |s|
    ensures s[..k][..m] == s[..m]
  {
  }

  /** Dropping the last index of a line of `n` gives the line of `n - 1`. */
  lemma HarmonyUpToShorter(phrase: seq<Tone>, keyRange: seq<KeyTone>, n: int)
    requires 2 <= n <= |phrase| && FirstReadable(phrase, keyRange)
    requires HarmonyUpTo(phrase, keyRange, n).Ok?
    ensures HarmonyUpTo(phrase, keyRange, n - 1) == Ok(HarmonyUpTo(phrase, keyRange, n).value[..n - 1])
  {
    HarmonyUpToStep(phrase, keyRange, n);
  }

  lemma PrefixOfAll<T>(s: seq<T>)
    ensures s[..|s|] == s
  {
  }

  /** Lines that each drop to the one below by cutting off their last index
      start with every shorter one. */
  lemma {:induction false} PrefixChain(f: int -> Result<seq<int>>, m: int, n: int)
    requires 0 <= m <= n && f(n).Ok?
    requires forall k :: m <= k <= n && f(k).Ok? ==> |f(k).value| == k
    requires forall k :: m < k <= n && f(k).Ok? ==> f(k - 1) == Ok(f(k).value[..k - 1])
    ensures f(m) == Ok(f(n).value[..m])
    decreases n - m
  {
    if m < n {
      PrefixChain(f, m + 1, n);
      PrefixOfPrefix(f(n).value, m + 1, m);
    } else {
      PrefixOfAll(f(n).value);
    }
  }

  /** Every line starts with the index of the melody's first tone. */
  lemma {:induction false} LineStart(phrase: seq<Tone>, keyRange: seq<KeyTone>, n: int)
    requires 1 <= n <= |phrase| && FirstReadable(phrase, keyRange)
    requires HarmonyUpTo(phrase, keyRange, n).Ok?
    ensures HarmonyUpTo(phrase, keyRange, n).value[0] == FirstIndex(phrase, keyRange)
  {
    if n > 1 {
      HarmonyUpToStep(phrase, keyRange, n);
      LineStart(phrase, keyRange, n - 1);
    }
  }

  /** A longer harmony line starts with the shorter one. */
  lemma HarmonyPrefix(phrase: seq<Tone>, keyRange: seq<KeyTone>, m: int, n: int)
    requires 1 <= m <= n <= |phrase| && FirstReadable(phrase, keyRange)
    requires HarmonyUpTo(phrase, keyRange, n).Ok?
    ensures HarmonyUpTo(phrase, keyRange, m) == Ok(HarmonyUpTo(phrase, keyRange, n).value[..m])
  {
    EveryLineShorter(phrase, keyRange);
    PrefixChain(Lines(phrase, keyRange), m, n);
  }

  /** The harmony lines of every length, as one function of the length. */
  function Lines(phrase: seq<Tone>, keyRange: seq<KeyTone>): int -> Result<seq<int>> {
    k => if 1 <= k <= |phrase| && FirstReadable(phrase, keyRange) then HarmonyUpTo(phrase, keyRange, k) else Err(Undefined)
  }

  lemma EveryLineShorter(phrase: seq<Tone>, keyRange: seq<KeyTone>)
    ensures var f := Lines(phrase, keyRange);
      forall k :: 1 <= k && f(k).Ok? ==> |f(k).value| == k && (k > 1 ==> f(k - 1) == Ok(f(k).value[..k - 1]))
  {
    var f := Lines(phrase, keyRange);
    forall k | 1 < k && f(k).Ok?
      ensures f(k - 1) == Ok(f(k).value[..k - 1])
    {
      HarmonyUpToShorter(phrase, keyRange, k);
    }
  }

  /** Index `i` of the line is the rule table applied to index `i - 1`. */
  lemma HarmonyAt(phrase: seq<Tone>, keyRange: seq<KeyTone>, n: int, i: int)
    requires 1 <= i < n <= |phrase| && FirstReadable(phrase, keyRange)
    requires HarmonyUpTo(phrase, keyRange, n).Ok?
    ensures var harmony := HarmonyUpTo(phrase, keyRange, n).value;
      HarmonyStep(phrase, keyRange, harmony[i - 1], i) == Ok(harmony[i])
  {
    var harmony := HarmonyUpTo(phrase, keyRange, n).value;
    HarmonyPrefix(phrase, keyRange, i + 1, n);
    LastStep(phrase, keyRange, i + 1, harmony[..i + 1]);
    assert harmony[..i + 1][i] == harmony[i] && harmony[..i + 1][i - 1] == harmony[i - 1];
  }

  /** The last index of a line is the rule table applied to the one before. */
  lemma LastStep(phrase: seq<Tone>, keyRange: seq<KeyTone>, k: int, line: seq<int>)
    requires 2 <= k <= |phrase| && FirstReadable(phrase, keyRange)
    requires HarmonyUpTo(phrase, keyRange, k) == Ok(line)
    ensures HarmonyStep(phrase, keyRange, line[k - 2], k - 1) == Ok(line[k - 1])
  {
    HarmonyUpToStep(phrase, keyRange, k);
  }

  /** The line starts on the melody's first tone when the key range holds it
      (a unison), and on a harmony rest otherwise; after the first tone, a
      melody rest gives a harmony rest. */
  lemma RestsFollowMelody(phrase: seq<Tone>, keyRange: seq<KeyTone>, i: int)
    requires Counterpoint(phrase, keyRange).Ok? && 0 <= i < |phrase|
    ensures i == 0 ==>
      (Counterpoint(phrase, keyRange).value[0].octave.Some? <==>
         phrase[0].octave.Some? && KeyTone(phrase[0].note, phrase[0].octave.value) in keyRange) &&
      (Counterpoint(phrase, keyRange).value[0].octave.Some? ==>
         Counterpoint(phrase, keyRange).value[0].note == phrase[0].note &&
         Counterpoint(phrase, keyRange).value[0].octave == phrase[0].octave)
    ensures i > 0 && phrase[i].note == Rest ==>
      Counterpoint(phrase, keyRange).value[i] == Tone(Rest, None, phrase[i].length, None)
  {
    if i > 0 {
      HarmonyAt(phrase, keyRange, |phrase|, i);
    } else {
      LineStart(phrase, keyRange, |phrase|);
    }
  }

  /** A sounding melody tone right after a harmony rest reads the note of a
      missing entry: the whole counterpoint throws. */
  lemma SoundingAfterRestThrows(phrase: seq<Tone>, keyRange: seq<KeyTone>, i: int)
    requires 1 <= i < |phrase| && FirstReadable(phrase, keyRange)
    requires HarmonyUpTo(phrase, keyRange, i).Ok?
    requires HarmonyUpTo(phrase, keyRange, i).value[i - 1] == RestIndex && phrase[i].note != Rest
    ensures Counterpoint(phrase, keyRange) == Err(TypeError)
  {
    assert HarmonyUpTo(phrase, keyRange, i + 1) == Err(TypeError);
    HarmonyFailureStays(phrase, keyRange, i + 1, |phrase|);
  }

  /** Over an empty key range every lookup gives -1: the first index is a
      harmony rest, and so is every later one under a melody rest. */
  lemma {:induction false} EmptyRangeLine(phrase: seq<Tone>, n: int)
    requires 1 <= n <= |phrase|
    requires forall i :: 1 <= i < |phrase| ==> phrase[i].note == Rest
    ensures HarmonyUpTo(phrase, [], n) == Ok(seq(n, _ => RestIndex))
  {
    if n > 1 {
      EmptyRangeLine(phrase, n - 1);
      HarmonyNext(phrase, [], n - 1, seq(n - 1, _ => RestIndex));
      assert seq(n - 1, _ => RestIndex) + [RestIndex] == seq(n, _ => RestIndex);
    } else {
      assert seq(1, _ => RestIndex) == [RestIndex];
    }
  }

  /** A melody that rests after its first tone, over an empty key range, gets
      a line of rests as long as its tones, whether or not the first tone has
      an octave. */
  lemma EmptyRangeRests(phrase: seq<Tone>)
    requires phrase != []
    requires forall i :: 1 <= i < |phrase| ==> phrase[i].note == Rest
    ensures Counterpoint(phrase, []) ==
      Ok(seq(|phrase|, i requires 0 <= i < |phrase| => Tone(Rest, None, phrase[i].length, None)))
  {
    EmptyRangeLine(phrase, |phrase|);
    var harmony := seq(|phrase|, _ => RestIndex);
    assert forall i :: 0 <= i < |harmony| ==> harmony[i] == RestIndex;
    var tones := seq(|harmony|, i requires 0 <= i < |harmony| => HarmonyTone([], harmony[i], phrase[i]));
    assert ToTones(phrase, [], harmony) == Ok(tones);
    assert tones == seq(|phrase|, i requires 0 <= i < |phrase| => Tone(Rest, None, phrase[i].length, None));
  }

  /* ------------------------------------------------ the last rule, corrected */

  /** The first choice at the least distance from the previous index. */
  function Nearest(choices: seq<int>, previous: int): (r: int)
    requires choices != []
    ensures r in choices
    ensures forall i :: 0 <= i < |choices| ==> Abs(r - previous) <= Abs(choices[i] - previous)
  {
    if |choices| == 1 then choices[0]
    else
      var rest := Nearest(choices[1..], previous);
      assert forall i :: 1 <= i < |choices| ==> choices[i] == choices[1..][i - 1];
      if Abs(choices[0] - previous) <= Abs(rest - previous) then choices[0] else rest
  }

  /** The rule table as evidently intended: the last rule pushes the choice
      nearest to the previous index rather than its distance. */
  function ChooseNearest(choices: seq<int>, previous: int, melodyChange: int, rangeLength: int): int {
    var stepwise := Stepwise(choices, previous);
    var contrary := Contrary(choices, previous, melodyChange);
    var noteChoice := LastIn(stepwise, contrary);
    if noteChoice.Some? && noteChoice.value != 0 then noteChoice.value
    else if |stepwise| > 0 then stepwise[0]
    else if |contrary| > 0 then contrary[0]
    else if choices == [] then rangeLength
    else Nearest(choices, previous)
  }

  /** With the correction every rule picks one of the choices, so any choice at
      all gives an index inside the range; the last rule picks a nearest one. */
  lemma ChooseNearestPicksAChoice(choices: seq<int>, previous: int, melodyChange: int, rangeLength: int)
    requires forall i :: 0 <= i < |choices| ==> 0 < choices[i] < rangeLength
    ensures var h := ChooseNearest(choices, previous, melodyChange, rangeLength);
      (choices != [] ==> h in choices && 0 < h < rangeLength) &&
      (Stepwise(choices, previous) == [] && Contrary(choices, previous, melodyChange) == [] && choices != [] ==>
         forall i :: 0 <= i < |choices| ==> Abs(h - previous) <= Abs(choices[i] - previous))
  {
    ChoiceRules(choices, previous, melodyChange, rangeLength);
  }

  /** When every choice lies more than a degree below the previous index and
      the melody rises, no choice is stepwise and none is contrary. */
  lemma NoStepwiseNoContrary(choices: seq<int>, previous: int, melodyChange: int)
    requires melodyChange > 0
    requires forall i :: 0 <= i < |choices| ==> choices[i] < previous - 1
    ensures Stepwise(choices, previous) == [] && Contrary(choices, previous, melodyChange) == []
  {
    NoneStepwise(choices, previous);
    NoneContrary(choices, previous, melodyChange);
  }

  lemma {:induction false} NoneStepwise(choices: seq<int>, previous: int)
    requires forall i :: 0 <= i < |choices| ==> Abs(previous - choices[i]) != 1
    ensures Stepwise(choices, previous) == []
  {
    if choices != [] {
      assert forall i :: 0 <= i < |choices| - 1 ==> choices[1..][i] == choices[i + 1];
      NoneStepwise(choices[1..], previous);
    }
  }

  lemma {:induction false} NoneContrary(choices: seq<int>, previous: int, melodyChange: int)
    requires forall i :: 0 <= i < |choices| ==> Sign(previous - choices[i]) == Sign(melodyChange)
    ensures Contrary(choices, previous, melodyChange) == []
  {
    if choices != [] {
      assert forall i :: 0 <= i < |choices| - 1 ==> choices[1..][i] == choices[i + 1];
      NoneContrary(choices[1..], previous, melodyChange);
    }
  }

  /** The candidates for a melody tone on index 7 of a twelve-entry range. */
  lemma CandidatesOfSeven()
    ensures Within(Candidates(7, false), 12) == [7, 5, 3, 2]
  {
    assert Candidates(7, false) == [7, 5, 3, 2, 0];
    assert Within([0], 12) == [] + Within([], 12);
    assert Within([2, 0], 12) == [2] + Within([0], 12);
    assert Within([3, 2, 0], 12) == [3] + Within([2, 0], 12);
    assert Within([5, 3, 2, 0], 12) == [5] + Within([3, 2, 0], 12);
  }

  /** A witness for the last rule as written: with the harmony on index 9, the
      melody rising and its tone on index 7 of a twelve-entry range, no choice is
      stepwise or contrary, and the rule pushes the distance 2 where the nearest
      choice is 7. */
  lemma LastRuleDistanceWitness()
    ensures Within(Candidates(7, false), 12) == [7, 5, 3, 2]
    ensures ChooseHarmony([7, 5, 3, 2], 9, 1, 12) == 2
    ensures ChooseNearest([7, 5, 3, 2], 9, 1, 12) == 7
  {
    CandidatesOfSeven();
    NoStepwiseNoContrary([7, 5, 3, 2], 9, 1);
    LastRuleApplies([7, 5, 3, 2], 9, 1, 12);
    DistanceOfSeven();
    NearestIsSeven();
  }

  /** With no stepwise and no contrary choice the last rule decides. */
  lemma LastRuleApplies(choices: seq<int>, previous: int, melodyChange: int, rangeLength: int)
    requires choices != []
    requires Stepwise(choices, previous) == [] && Contrary(choices, previous, melodyChange) == []
    ensures ChooseHarmony(choices, previous, melodyChange, rangeLength) == MinDistance(choices, previous)
    ensures ChooseNearest(choices, previous, melodyChange, rangeLength) == Nearest(choices, previous)
  {
  }

  lemma DistanceOfSeven()
    ensures MinDistance([7, 5, 3, 2], 9) == 2
  {
    var choices := [7, 5, 3, 2];
    assert MinDistance(choices, 9) <= Abs(choices[0] - 9);
  }

  lemma NearestIsSeven()
    ensures Nearest([7, 5, 3, 2], 9) == 7
  {
    var choices := [7, 5, 3, 2];
    assert Abs(Nearest(choices, 9) - 9) <= Abs(choices[0] - 9);
  }
}
