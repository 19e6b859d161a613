/** The value types every part of the composition engine shares: the
    thirteen pitch classes (twelve sounding ones and the rest), the eight
    note lengths, counted here in semiquavers (sixteenths), and the tone
    records that phrases are made of. */
module Enums {
  import opened Wrappers

  /** Twelve pitch classes spelled as enharmonic pairs, plus the rest. */
  datatype Note =
    | A | AsharpBflat | B | C | CsharpDflat | D | DsharpEflat
    | E | F | FsharpGflat | G | GsharpAflat
    | Rest

  /** The note lengths in semiquavers: a semibreve (4 beats) is 16. */
  const Semibreve: nat := 16
  const DottedMinim: nat := 12
  const Minim: nat := 8
  const DottedCrotchet: nat := 6
  const Crotchet: nat := 4
  const DottedQuaver: nat := 3
  const Quaver: nat := 2
  const SemiQuaver: nat := 1

  /** All note lengths, longest first, in the order they are declared. */
  const NoteLengths: seq<nat> := [16, 12, 8, 6, 4, 3, 2, 1]

  predicate IsNoteLength(n: int) {
    n in NoteLengths
  }

  /** The two loudness levels the accent pass writes. */
  const AccentVolume: real := 0.3
  const PlainVolume: real := 0.2

  /** A playable event.  A rest has no octave; a volume that was never set,
      or was set to null, is `None`. */
  datatype Tone = Tone(note: Note, octave: Option<int>, length: nat, volume: Option<real>)

  /** One entry of a key range: a pitch class in a numbered octave. */
  datatype KeyTone = KeyTone(note: Note, octave: int)

  /** The rest tone every part of the program builds the same way. */
  function RestTone(length: nat): (t: Tone)
    ensures t.note == Rest && t.octave == None && t.length == length
  {
    Tone(Rest, None, length, None)
  }

  /** Total length of a sequence of tones, in semiquavers. */
  function Duration(tones: seq<Tone>): nat {
    if tones == [] then 0 else Duration(tones[..|tones| - 1]) + tones[|tones| - 1].length
  }

  lemma {:induction false} DurationAppend(s: seq<Tone>, t: seq<Tone>)
    ensures Duration(s + t) == Duration(s) + Duration(t)
  {
    if t == [] {
      assert s + t == s;
    } else {
      assert (s + t)[..|s + t| - 1] == s + t[..|t| - 1];
      DurationAppend(s, t[..|t| - 1]);
    }
  }

  /** Total of a rhythm, in semiquavers. */
  function Total(rhythm: seq<nat>): nat {
    if rhythm == [] then 0 else Total(rhythm[..|rhythm| - 1]) + rhythm[|rhythm| - 1]
  }

  lemma {:induction false} TotalAppend(s: seq<nat>, t: seq<nat>)
    ensures Total(s + t) == Total(s) + Total(t)
  {
    if t == [] {
      assert s + t == s;
    } else {
      assert (s + t)[..|s + t| - 1] == s + t[..|t| - 1];
      TotalAppend(s, t[..|t| - 1]);
    }
  }
}
