/** The resolution ladder and the frame-rate driven choice of level. */
module LevelOfDetail {

  /** `int(w / 1.25)` for a positive integer `w`, read as exact division:
      the quotient 4w/5 has a fractional part that is a multiple of 1/5, so
      truncation gives the floor. Double-precision division agrees for `w`
      below 1.25 * 2^51 (2814749767106560); from there on its rounding can
      land on the next integer, first at `w` = 2814749767106561. */
  function Shrink(w: int): int
    requires w > 0
  {
    (4 * w) / 5
  }

  /** The chain of (width, height) pairs: the native size first, each next
      one the shrunken previous one, stopping after the first pair with a
      dimension of at most 2. */
  function Ladder(w: int, h: int): (r: seq<(int, int)>)
    decreases w
  {
    if w > 2 && h > 2 then [(w, h)] + Ladder(Shrink(w), Shrink(h)) else [(w, h)]
  }

  /** The first entry is the native size; every entry but the last has both
      dimensions above 2 and is followed by its shrunken self, with both
      dimensions strictly smaller; the last has a dimension of at most 2. */
  lemma {:induction false} LadderShape(w: int, h: int)
    ensures |Ladder(w, h)| >= 1 && Ladder(w, h)[0] == (w, h)
    ensures forall i :: 0 <= i < |Ladder(w, h)| - 1 ==>
      Ladder(w, h)[i].0 > 2 && Ladder(w, h)[i].1 > 2 &&
      Ladder(w, h)[i + 1] == (Shrink(Ladder(w, h)[i].0), Shrink(Ladder(w, h)[i].1)) &&
      Ladder(w, h)[i + 1].0 < Ladder(w, h)[i].0 && Ladder(w, h)[i + 1].1 < Ladder(w, h)[i].1
    ensures var last := Ladder(w, h)[|Ladder(w, h)| - 1];
      last.0 <= 2 || last.1 <= 2
    decreases w
  {
    if w > 2 && h > 2 {
      LadderShape(Shrink(w), Shrink(h));
      var all, rest := Ladder(w, h), Ladder(Shrink(w), Shrink(h));
      assert all == [(w, h)] + rest;
      forall i | 0 <= i < |all| - 1
        ensures all[i].0 > 2 && all[i].1 > 2 &&
          all[i + 1] == (Shrink(all[i].0), Shrink(all[i].1)) &&
          all[i + 1].0 < all[i].0 && all[i + 1].1 < all[i].1
      {
        if i > 0 {
          assert all[i] == rest[i - 1] && all[i + 1] == rest[i];
        }
      }
    }
  }

  /** Both dimensions decrease strictly along the whole ladder. */
  lemma {:induction false} LadderStrictlyDecreasing(w: int, h: int, i: int, j: int)
    requires 0 <= i < j < |Ladder(w, h)|
    ensures Ladder(w, h)[j].0 < Ladder(w, h)[i].0 && Ladder(w, h)[j].1 < Ladder(w, h)[i].1
    decreases j - i
  {
    LadderShape(w, h);
    if j > i + 1 {
      LadderStrictlyDecreasing(w, h, i + 1, j);
    }
  }

  /** The level after one frame-rate sample: one finer when the rate is above
      the band and a finer level exists, otherwise one coarser when it is
      below the band and a coarser level exists, otherwise unchanged. */
  function NextLevel(frameRate: real, target: real, margin: real, level: int, levels: int): (r: int)
  {
    if frameRate > target + margin && level > 0 then level - 1
    else if frameRate < target - margin && level < levels - 1 then level + 1
    else level
  }

  /** A level inside the ladder stays inside it and moves by at most one;
      inside the hysteresis band it does not move. */
  lemma NextLevelBounded(frameRate: real, target: real, margin: real, level: int, levels: int)
    requires 0 <= level < levels
    ensures 0 <= NextLevel(frameRate, target, margin, level, levels) < levels
    ensures -1 <= NextLevel(frameRate, target, margin, level, levels) - level <= 1
    ensures target - margin <= frameRate <= target + margin ==>
      NextLevel(frameRate, target, margin, level, levels) == level
  {
  }

  /** The level goes down exactly when the rate is above the band and a finer
      level exists, and up exactly when that does not apply, the rate is
      below the band and a coarser level exists. */
  lemma NextLevelMoves(frameRate: real, target: real, margin: real, level: int, levels: int)
    ensures NextLevel(frameRate, target, margin, level, levels) == level - 1 <==>
      frameRate > target + margin && level > 0
    ensures NextLevel(frameRate, target, margin, level, levels) == level + 1 <==>
      !(frameRate > target + margin && level > 0) &&
      frameRate < target - margin && level < levels - 1
  {
  }
}
