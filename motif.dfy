/** The motif record: parallel lists of pitches (scale-degree offsets, with
    -1 standing for a rest) and rhythm (note lengths in semiquavers). */
module MotifModel {
  import opened Wrappers

  /** The sentinel pitch that marks a rest. */
  const RestPitch: int := -1

  datatype Motif = Motif(pitches: seq<int>, rhythm: seq<nat>)

  /** One entry of the `notes` view; the rhythm is missing (`undefined`) where
      the rhythm list is shorter than the pitch list. */
  datatype MotifNote = MotifNote(pitch: int, rhythm: Option<nat>)

  /** `new Motif()`. */
  function NewMotif(): (m: Motif)
    ensures m.pitches == [] && m.rhythm == []
  {
    Motif([], [])
  }

  /** The `notes` getter: pitch `i` with rhythm `i`, one entry per pitch. */
  function Notes(m: Motif): (r: seq<MotifNote>)
    ensures |r| == |m.pitches|
    ensures forall i :: 0 <= i < |r| ==> r[i].pitch == m.pitches[i]
    ensures forall i :: 0 <= i < |r| ==> (r[i].rhythm.Some? <==> i < |m.rhythm|)
  {
    seq(|m.pitches|, i requires 0 <= i < |m.pitches| =>
      MotifNote(m.pitches[i], if i < |m.rhythm| then Some(m.rhythm[i]) else None))
  }

  /** The pitches of a list of notes. */
  function PitchesOf(notes: seq<MotifNote>): (r: seq<int>)
    ensures |r| == |notes|
  {
    seq(|notes|, i requires 0 <= i < |notes| => notes[i].pitch)
  }

  /** The rhythm of a list of notes, as far as every one has a rhythm. */
  function RhythmOf(notes: seq<MotifNote>): seq<nat>
    decreases |notes|
  {
    if notes == [] || notes[0].rhythm.None? then []
    else [notes[0].rhythm.value] + RhythmOf(notes[1..])
  }

  /** Reading the motif back out of its notes gives the pitches unchanged, and
      the rhythm cut to one length per pitch when there are enough lengths. */
  lemma NotesRoundTrip(m: Motif)
    ensures PitchesOf(Notes(m)) == m.pitches
    ensures |m.rhythm| >= |m.pitches| ==> RhythmOf(Notes(m)) == m.rhythm[..|m.pitches|]
  {
    if |m.rhythm| >= |m.pitches| {
      RhythmOfPrefix(m, 0);
    }
  }

  lemma {:induction false} RhythmOfPrefix(m: Motif, k: nat)
    requires k <= |m.pitches| <= |m.rhythm|
    ensures RhythmOf(Notes(m)[k..]) == m.rhythm[k..|m.pitches|]
    decreases |m.pitches| - k
  {
    var ns := Notes(m)[k..];
    if k < |m.pitches| {
      RhythmOfPrefix(m, k + 1);
      assert ns[1..] == Notes(m)[k + 1..];
      assert ns[0].rhythm == Some(m.rhythm[k]);
      assert m.rhythm[k..|m.pitches|] == [m.rhythm[k]] + m.rhythm[k + 1..|m.pitches|];
    } else {
      assert ns == [];
    }
  }
}
