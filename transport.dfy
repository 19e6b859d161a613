// The transport cursor: a position in bars, beats and sixteenths that the
// player advances note by note.  Note lengths are counted in sixteenths here,
// so a length L stands for the source's L / 4 beats.

module Transport {
  import opened Wrappers
  import opened Arith
  import opened Keys

  /* ------------------------------------------------------ the time as text */

  function DigitChar(d: nat): char
    requires d < 10
  {
    (48 + d) as char
  }

  predicate Numeral(s: string) {
    |s| >= 1 && forall i :: 0 <= i < |s| ==> '0' <= s[i] <= '9'
  }

  /** The decimal numeral of `n`, as `toString` writes it. */
  function ShowNat(n: nat): (r: string)
    ensures Numeral(r)
    ensures |r| > 1 ==> r[0] != '0'
  {
    if n < 10 then [DigitChar(n)] else ShowNat(n / 10) + [DigitChar(n % 10)]
  }

  /** The value of a numeral. */
  function ReadNat(s: string): nat
    requires forall i :: 0 <= i < |s| ==> '0' <= s[i] <= '9'
  {
    if s == [] then 0 else ReadNat(s[..|s| - 1]) * 10 + (s[|s| - 1] as int - 48)
  }

  /** Reading a shown number gives the number back. */
  lemma {:induction false} ReadShow(n: nat)
    ensures ReadNat(ShowNat(n)) == n
  {
    if n >= 10 {
      ReadShow(n / 10);
      var s := ShowNat(n);
      assert s[..|s| - 1] == ShowNat(n / 10);
    }
  }

  /** Three fields joined by ':', read back; anything else is `None`. */
  function ParseTime(s: string): Option<(nat, nat, nat)> {
    var i := IndexOf(s, ':');
    if i < 0 then None else ParseFields(s[..i], s[i + 1..])
  }

  /** The first field, read, and the text after its ':', cut at the next ':'. */
  function ParseFields(first: string, rest: string): Option<(nat, nat, nat)> {
    var j := IndexOf(rest, ':');
    if j < 0 then None
    else if Numeral(first) && Numeral(rest[..j]) && Numeral(rest[j + 1..]) then
      Some((ReadNat(first), ReadNat(rest[..j]), ReadNat(rest[j + 1..])))
    else None
  }

  /** Cutting a numeral, a ':' and any text at the first ':' gives the numeral
      and the text back. */
  lemma SplitAtColon(p: string, q: string)
    requires Numeral(p)
    ensures IndexOf(p + [':'] + q, ':') == |p|
    ensures (p + [':'] + q)[..|p|] == p && (p + [':'] + q)[|p| + 1..] == q
  {
    assert (p + [':'] + q)[|p|] == ':';
  }

  /** Three numerals joined by ':' read back as their values. */
  lemma ParseJoined(a: string, b: string, c: string)
    requires Numeral(a) && Numeral(b) && Numeral(c)
    ensures ParseTime(a + ":" + b + ":" + c) == Some((ReadNat(a), ReadNat(b), ReadNat(c)))
  {
    assert a + ":" + b + ":" + c == a + [':'] + (b + [':'] + c);
    SplitAtColon(a, b + [':'] + c);
    ParseFieldsJoined(a, b, c);
  }

  lemma ParseFieldsJoined(a: string, b: string, c: string)
    requires Numeral(a) && Numeral(b) && Numeral(c)
    ensures ParseFields(a, b + [':'] + c) == Some((ReadNat(a), ReadNat(b), ReadNat(c)))
  {
    SplitAtColon(b, c);
  }

  /** The text of a time reads back as the same three fields. */
  lemma TimeRoundTrip(bar: nat, beat: nat, sixteenth: nat)
    ensures ParseTime(ShowNat(bar) + ":" + ShowNat(beat) + ":" + ShowNat(sixteenth)) ==
      Some((bar, beat, sixteenth))
  {
    ParseJoined(ShowNat(bar), ShowNat(beat), ShowNat(sixteenth));
    ReadShow(bar);
    ReadShow(beat);
    ReadShow(sixteenth);
  }

  /* --------------------------------------------------------- the cursor */

  /** Splitting `4 * beat + length` sixteenths into whole bars of `4 * beatsInBar`
      sixteenths, whole beats and left-over sixteenths. */
  lemma QuarterSplit(beat: nat, length: nat, beatsInBar: int)
    requires beatsInBar > 0
    ensures (4 * beat + length) % (4 * beatsInBar) / 4 == (beat + length / 4) % beatsInBar
    ensures (4 * beat + length) % (4 * beatsInBar) % 4 == length % 4
    ensures (4 * beat + length) / (4 * beatsInBar) == (beat + length / 4) / beatsInBar
  {
    var q, r := (beat + length / 4) / beatsInBar, (beat + length / 4) % beatsInBar;
    assert 4 * beat + length == q * (4 * beatsInBar) + (4 * r + length % 4);
    DivModUnique(4 * beat + length, q, 4 * r + length % 4, 4 * beatsInBar);
    DivModUnique(4 * r + length % 4, r, length % 4, 4);
  }

  /** Carrying `carried` bars and keeping `beat'` beats and `extra` sixteenths
      moves a position by the sixteenths they add up to. */
  lemma CarryKeepsPosition(beatsInBar: int, bar: int, beat: int, sixteenth: int,
                           carried: int, beat': int, extra: int, length: int)
    requires 4 * (beatsInBar * carried + beat') + extra == 4 * beat + length
    ensures 4 * (beatsInBar * (bar + carried) + beat') + (sixteenth + extra) ==
      4 * (beatsInBar * bar + beat) + sixteenth + length
  {
    assert beatsInBar * (bar + carried) == beatsInBar * bar + beatsInBar * carried;
  }

  class TransportTime {
    var bar: nat
    var beat: nat
    var sixteenth: nat

    /** A new cursor stands at the very start. */
    constructor()
      ensures bar == 0 && beat == 0 && sixteenth == 0
    {
      bar, beat, sixteenth := 0, 0, 0;
    }

    /** The position in sixteenths, for bars of `beatsInBar` beats. */
    function Position(beatsInBar: nat): int
      reads this
    {
      4 * (beatsInBar * bar + beat) + sixteenth
    }

    /** The cursor as text, "bar:beat:sixteenth". */
    function Time(): (r: string)
      reads this
      ensures ParseTime(r) == Some((bar, beat, sixteenth))
    {
      TimeRoundTrip(bar, beat, sixteenth);
      ShowNat(bar) + ":" + ShowNat(beat) + ":" + ShowNat(sixteenth)
    }

    /** Advances the cursor by a note of `length` sixteenths: whole beats carry
        into bars, the sixteenths are added on their own and never carried. */
    method AddTime(length: nat, beatsInBar: int)
      requires beatsInBar > 0
      modifies this
      ensures beat == (old(beat) + length / 4) % beatsInBar
      ensures bar == old(bar) + (old(beat) + length / 4) / beatsInBar
      ensures old(beat) + length / 4 < beatsInBar ==> bar == old(bar)
      ensures sixteenth == old(sixteenth) + length % 4
      ensures Position(beatsInBar) == old(Position(beatsInBar)) + length
    {
      var addedToBeat := 4 * beat + length;
      var remainder := addedToBeat % (4 * beatsInBar);
      var beats := remainder / 4;
      var sixteenths := remainder % 4;
      QuarterSplit(beat, length, beatsInBar);
      ghost var carried := (beat + length / 4) / beatsInBar;
      ghost var kept := (beat + length / 4) % beatsInBar;
      assert beat + length / 4 == beatsInBar * carried + kept;
      CarryKeepsPosition(beatsInBar, bar, beat, sixteenth, carried, kept, length % 4, length);
      beat := beats;
      sixteenth := sixteenth + sixteenths;
      if addedToBeat >= 4 * beatsInBar {
        var bars := addedToBeat / (4 * beatsInBar);
        bar := bar + bars;
      } else {
        DivModUnique(addedToBeat, 0, addedToBeat, 4 * beatsInBar);
      }
    }
  }
}
