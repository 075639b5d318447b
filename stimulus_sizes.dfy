/** The stimulus size sampler of the diameter match-to-sample experiment.
 *
 *  A trial shows two comparison circles: the "correct" one, whose size
 *  matches the sample, and an "incorrect" one. Sizes live on a discrete scale
 *  of indices; index k is drawn as a circle of diameter 280 + 14*k pixels.
 *  The correct index is drawn from [1, 12]; the incorrect one is five steps
 *  above or below it, moved by a jitter, and mirrored to the other side when
 *  the first attempt leaves the scale [0, 13].
 *
 *  The random draws are parameters here:
 *    c    the correct index            (numpy randint(1, 13): 1..12)
 *    up   whether rand() > 0.5, i.e. whether the first attempt goes upwards
 *    j1   the jitter of the first attempt  (numpy randint(-1, 1): -1 or 0)
 *    j2   the jitter of the fallback attempt, drawn only when it is used
 */
module StimulusSizes {

  /** Diameter, in pixels, of scale index 0. */
  const BaseDiameter := 280
  /** Pixels added per scale index. */
  const DiameterStep := 14
  /** Nominal distance, in scale indices, between the two comparison stimuli. */
  const Shift := 5
  /** Largest index the incorrect stimulus may take before the fallback. */
  const MaxIndex := 13

  /** The range of numpy's randint(1, 13): the upper bound is exclusive. */
  predicate IsCorrectIndex(c: int) {
    1 <= c <= 12
  }

  /** The range of numpy's randint(-1, 1): -1 or 0, never +1. */
  predicate IsJitter(j: int) {
    j == -1 || j == 0
  }

  predicate IsValidDraw(c: int, j1: int, j2: int) {
    IsCorrectIndex(c) && IsJitter(j1) && IsJitter(j2)
  }

  /** The pixel diameter of a scale index. */
  function Diameter(k: int): int {
    BaseDiameter + DiameterStep * k
  }

  /** The index-to-pixel map is strictly increasing, and a difference of n
   *  indices is a difference of 14*n pixels; so distinct indices give
   *  distinct diameters. */
  lemma DiameterOrder(k: int, k': int)
    ensures Diameter(k) < Diameter(k') <==> k < k'
    ensures Diameter(k) == Diameter(k') <==> k == k'
    ensures Diameter(k') - Diameter(k) == DiameterStep * (k' - k)
  {
  }

  /** The index reached by moving Shift steps up or down from c, plus jitter j. */
  function Candidate(c: int, up: bool, j: int): int {
    if up then c + Shift + j else c - Shift + j
  }

  /** The incorrect scale index: the first attempt in direction `up`, and,
   *  when that attempt crosses the bound on its own side, a second attempt
   *  in the opposite direction with a fresh jitter. */
  function IncorrectIndex(c: int, up: bool, j1: int, j2: int): (r: int)
    requires IsValidDraw(c, j1, j2)
    ensures 0 <= r <= MaxIndex
    ensures r - c == 4 || r - c == 5 || c - r == 5 || c - r == 6
  {
    var first := Candidate(c, up, j1);
    if up then
      if first > MaxIndex then Candidate(c, !up, j2) else first
    else
      if first < 0 then Candidate(c, !up, j2) else first
  }

  /** The two diameters of one trial, in pixels. */
  datatype SizePair = SizePair(correct: int, incorrect: int)

  /** What every pair produced by the sampler satisfies. */
  predicate WellSeparated(p: SizePair) {
    && BaseDiameter + DiameterStep <= p.correct <= BaseDiameter + 12 * DiameterStep
    && BaseDiameter <= p.incorrect <= BaseDiameter + MaxIndex * DiameterStep
    && (p.correct - BaseDiameter) % DiameterStep == 0
    && (p.incorrect - BaseDiameter) % DiameterStep == 0
    && (p.incorrect - p.correct == 4 * DiameterStep || p.incorrect - p.correct == 5 * DiameterStep
        || p.correct - p.incorrect == 5 * DiameterStep || p.correct - p.incorrect == 6 * DiameterStep)
  }

  /** The sampler: the correct and incorrect diameters of one trial. */
  function StimuliDiameters(c: int, up: bool, j1: int, j2: int): (p: SizePair)
    requires IsValidDraw(c, j1, j2)
    ensures WellSeparated(p)
    ensures 294 <= p.correct <= 448 && 280 <= p.incorrect <= 462
    ensures p.correct != p.incorrect
    ensures var gap := if p.correct < p.incorrect then p.incorrect - p.correct else p.correct - p.incorrect;
            gap == 56 || gap == 70 || gap == 84
  {
    var r := IncorrectIndex(c, up, j1, j2);
    DiameterOrder(c, r);
    SizePair(Diameter(c), Diameter(r))
  }

  /** Conversely, every well-separated pair is the output of some valid
   *  draw: WellSeparated is exactly the range of the sampler. */
  lemma WellSeparatedIsSamplerRange(p: SizePair)
    requires WellSeparated(p)
    ensures exists c, up, j1, j2 :: IsValidDraw(c, j1, j2) && StimuliDiameters(c, up, j1, j2) == p
  {
    var c := (p.correct - BaseDiameter) / DiameterStep;
    var r := (p.incorrect - BaseDiameter) / DiameterStep;
    assert p.correct == Diameter(c) && p.incorrect == Diameter(r);
    DiameterOrder(c, r);
    IncorrectIndexOnto(c, r);
    var up, j1, j2 :| IsValidDraw(c, j1, j2) && IncorrectIndex(c, up, j1, j2) == r;
    assert StimuliDiameters(c, up, j1, j2) == p;
  }

  /** The fallback after an upward first attempt fires only for c >= 9, and
   *  then yields c - 5 + j2, which is at least 3. */
  lemma UpFallback(c: int, j1: int, j2: int)
    requires IsValidDraw(c, j1, j2)
    requires Candidate(c, true, j1) > MaxIndex
    ensures c >= 9
    ensures IncorrectIndex(c, true, j1, j2) == c - Shift + j2 >= 3
  {
  }

  /** The fallback after a downward first attempt fires only for c <= 5, and
   *  then yields c + 5 + j2, which is at most 10. */
  lemma DownFallback(c: int, j1: int, j2: int)
    requires IsValidDraw(c, j1, j2)
    requires Candidate(c, false, j1) < 0
    ensures c <= 5
    ensures IncorrectIndex(c, false, j1, j2) == c + Shift + j2 <= 10
  {
  }

  /** When the first attempt stays within its bound, it is kept unchanged
   *  and the second jitter plays no part. */
  lemma FirstAttemptKept(c: int, up: bool, j1: int, j2: int, j2': int)
    requires IsValidDraw(c, j1, j2) && IsJitter(j2')
    requires if up then Candidate(c, up, j1) <= MaxIndex else Candidate(c, up, j1) >= 0
    ensures IncorrectIndex(c, up, j1, j2) == Candidate(c, up, j1)
    ensures IncorrectIndex(c, up, j1, j2) == IncorrectIndex(c, up, j1, j2')
  {
  }

  /** Checking only the bound on the side the first attempt moves towards is
   *  enough: the sampler keeps the first attempt exactly when it lies on the
   *  scale [0, 13], and otherwise takes the mirrored attempt. */
  lemma OneSidedGuardSuffices(c: int, up: bool, j1: int, j2: int)
    requires IsValidDraw(c, j1, j2)
    ensures var first := Candidate(c, up, j1);
            IncorrectIndex(c, up, j1, j2)
            == if 0 <= first <= MaxIndex then first else Candidate(c, !up, j2)
  {
  }

  /** Every index the postcondition of IncorrectIndex allows is produced by
   *  some draw: its range is exactly the indices of [0, 13] that lie 4 or 5
   *  above c or 5 or 6 below it. */
  lemma IncorrectIndexOnto(c: int, r: int)
    requires IsCorrectIndex(c) && 0 <= r <= MaxIndex
    requires r - c == 4 || r - c == 5 || c - r == 5 || c - r == 6
    ensures exists up: bool, j1: int, j2: int ::
              IsValidDraw(c, j1, j2) && IncorrectIndex(c, up, j1, j2) == r
  {
    if r > c {
      var j1 := r - c - Shift;
      assert IsValidDraw(c, j1, 0) && IncorrectIndex(c, true, j1, 0) == r;
    } else {
      var j1 := r - c + Shift;
      assert IsValidDraw(c, j1, 0) && IncorrectIndex(c, false, j1, 0) == r;
    }
  }

  /** The boundary case of the design: with c = 1 a downward first attempt
   *  always falls below 0, and the fallback gives 5 or 6, never a negative
   *  index. */
  lemma SmallestCorrectGoesDown(j1: int, j2: int)
    requires IsJitter(j1) && IsJitter(j2)
    ensures Candidate(1, false, j1) < 0
    ensures IncorrectIndex(1, false, j1, j2) == 6 + j2
  {
  }

  /** With c = 10, an upward attempt with jitter 0 reaches 15, so the
   *  fallback fires and gives 4 or 5. */
  lemma UpAttemptFromTen(j2: int)
    requires IsJitter(j2)
    ensures Candidate(10, true, 0) == 15
    ensures IncorrectIndex(10, true, 0, j2) == 5 + j2
  {
  }
}
