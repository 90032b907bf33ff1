/**
 * Classification of a stored set into the outcome the rating update expects,
 * seen from the first player's side (skillratings' `Outcomes`).
 */
module Outcomes {

  datatype Outcome = Win | Loss | Draw

  /** The 32-bit signed integers the two score columns are decoded into. */
  newtype i32 = x: int | -0x8000_0000 <= x < 0x8000_0000

  /** True when `a - b` is representable as an i32, so that the subtraction cannot overflow. */
  predicate SubFits(a: i32, b: i32) {
    -0x8000_0000 <= a as int - b as int < 0x8000_0000
  }

  /**
   * `a - b` on i32 as a release build computes it: the difference reduced into
   * the i32 range modulo 2^32 (two's-complement wrap-around).
   */
  function WrappingSub(a: i32, b: i32): (d: i32)
    ensures (d as int - (a as int - b as int)) % 0x1_0000_0000 == 0
    ensures SubFits(a, b) ==> d as int == a as int - b as int
  {
    var diff := a as int - b as int;
    if diff >= 0x8000_0000 then (diff - 0x1_0000_0000) as i32
    else if diff < -0x8000_0000 then (diff + 0x1_0000_0000) as i32
    else diff as i32
  }

  /**
   * The classification exactly as written: the sign of the wrapped difference.
   * It agrees with the intended classification whenever the subtraction fits.
   */
  function ClassifyAsWritten(p1Score: i32, p2Score: i32): (o: Outcome)
    ensures SubFits(p1Score, p2Score) ==> o == Classify(p1Score, p2Score)
  {
    var x := WrappingSub(p1Score, p2Score);
    if x > 0 then Win else if x < 0 then Loss else Draw
  }

  /**
   * With the largest first score and a second score of -1 the difference
   * overflows and wraps to the most negative i32: the set is recorded as a
   * loss for the player who scored more.
   */
  lemma ClassifyAsWrittenOverflows()
    ensures var p1: i32, p2: i32 := 0x7fff_ffff, -1;
      p1 > p2 && ClassifyAsWritten(p1, p2) == Loss && Classify(p1, p2) == Win
  {
    var p1: i32, p2: i32 := 0x7fff_ffff, -1;
    assert WrappingSub(p1, p2) == -0x8000_0000;
  }

  /**
   * The sign of the score difference, computed without overflow.
   * This is the classification the rest of the model uses.
   */
  function Classify(p1Score: i32, p2Score: i32): (o: Outcome)
    ensures o == Win <==> p1Score > p2Score
    ensures o == Loss <==> p1Score < p2Score
    ensures o == Draw <==> p1Score == p2Score
  {
    var x := p1Score as int - p2Score as int;
    if x > 0 then Win else if x < 0 then Loss else Draw
  }

  /** The outcome seen from the other side of the same set. */
  function Reversed(o: Outcome): Outcome {
    match o
    case Win => Loss
    case Loss => Win
    case Draw => Draw
  }

  /** Swapping the two players swaps a win and a loss and keeps a draw. */
  lemma ClassifySwapped(p1Score: i32, p2Score: i32)
    ensures Classify(p2Score, p1Score) == Reversed(Classify(p1Score, p2Score))
  {
  }
}
