/** The program's only source of chance, `Math.random`, replaced by an oracle.
    `Random.next(min, max)` floors `r * (max - min + 1) + min` for a draw
    `r` in [0, 1); every operation that draws takes the oracle and the number
    of draws it has already made, so that it is a plain function of its inputs. */
module Random {

  /** Draw number `t` of an operation, asked for in the range `lo`..`hi`. */
  type Source = (nat, int, int) -> int

  /** What `Math.floor(r * (hi - lo + 1) + lo)` can return for some `r` in [0, 1):
      a value in `lo..hi`; exactly `lo` when the range is empty by one; and
      `hi + 1`..`lo` when the bounds are reversed further. */
  predicate InRange(v: int, lo: int, hi: int) {
    if lo <= hi then lo <= v <= hi
    else if lo == hi + 1 then v == lo
    else hi + 1 <= v <= lo
  }

  ghost predicate ValidSource(src: Source) {
    forall t: nat, lo: int, hi: int :: InRange(src(t, lo, hi), lo, hi)
  }

  /** `Random.next(lo, hi)` as draw number `t`. */
  function Next(src: Source, t: nat, lo: int, hi: int): (v: int)
    requires ValidSource(src)
    ensures lo <= hi ==> lo <= v <= hi
    ensures hi == lo - 1 ==> v == lo
  {
    src(t, lo, hi)
  }

  /** JavaScript's `Math.round` on a positive value: halves round up. */
  function Round(x: real): int {
    (x + 0.5).Floor
  }

  /** `Random.next(1, Math.round(1 / p)) === 1` as draw number `t`, for any
      `p`.  For 0 the bound is Infinity and the draw Infinity or NaN, never 1;
      a negative `p`, or one above 1, gives a reversed or empty range. */
  function OneIn(src: Source, t: nat, p: real): bool
    requires ValidSource(src)
  {
    if p == 0.0 then false else Next(src, t, 1, Round(1.0 / p)) == 1
  }

  /** `Random.booleanByProbability(p)`: never for 0, otherwise a draw from
      1..round(1/p) that must come up 1.  Outside [0, 1] the source throws. */
  function Chance(src: Source, t: nat, p: real): bool
    requires ValidSource(src) && 0.0 <= p <= 1.0
  {
    OneIn(src, t, p)
  }

  /** How many draws `Chance` consumes: none for probability 0. */
  function ChanceDraws(p: real): nat {
    if p == 0.0 then 0 else 1
  }

  /** Probability 1 is certain and probability 0 impossible, whatever is drawn. */
  lemma ChanceExtremes(src: Source, t: nat)
    requires ValidSource(src)
    ensures Chance(src, t, 1.0) && !Chance(src, t, 0.0)
  {
    assert Round(1.0 / 1.0) == 1;
  }

  /** For 0 < p <= 1 the draw range 1..round(1/p) is never empty. */
  lemma RoundInverseAtLeastOne(p: real)
    requires 0.0 < p <= 1.0
    ensures Round(1.0 / p) >= 1
  {
    assert 1.0 / p >= 1.0 by {
      assert p * (1.0 / p) == 1.0;
    }
  }
}
