/** The design of the diameter match-to-sample experiment: eight blocks of
 *  fourteen trials, each trial carrying its two comparison diameters, its
 *  delay and the side of the correct stimulus; and the score recorded after
 *  each response.
 *
 *  Stimulus 0 of a trial is the correct circle (it is also shown as the
 *  sample), stimulus 1 the incorrect one.
 */
module Experiment {
  import opened StimulusSizes
  import opened BlockOrder

  const BlockCount := 8
  const TrialsPerBlock := 14

  /** One trial: the diameters of stimulus 0 and stimulus 1, and the two
   *  factors `delay` and `position_correct`. */
  datatype Trial = Trial(correctDiameter: int, incorrectDiameter: int, delay: int, positionCorrect: int)

  /** A block: its name (the text of the number i + 1 for the i-th block) and
   *  its trials in presentation order. */
  datatype Block = Block(name: nat, trials: seq<Trial>)

  /** The (delay, side) rows a sequence of trials carries. */
  function TrialConditions(trials: seq<Trial>): (rows: seq<Row>)
    ensures |rows| == |trials|
  {
    seq(|trials|, k requires 0 <= k < |trials| => Row(trials[k].delay, trials[k].positionCorrect))
  }

  function Sizes(t: Trial): SizePair {
    SizePair(t.correctDiameter, t.incorrectDiameter)
  }

  /** The i-th block as the design promises it: named i + 1, 14 trials whose
   *  factors form an accepted order of the condition table, and every trial's
   *  diameters a pair the sampler can produce (WellSeparated is exactly the
   *  sampler's range, by WellSeparatedIsSamplerRange). */
  predicate ValidBlock(b: Block, i: int) {
    && b.name == i + 1
    && |b.trials| == TrialsPerBlock
    && IsAcceptedOrder(TrialConditions(b.trials))
    && forall t :: t in b.trials ==> WellSeparated(Sizes(t))
  }

  /** One call of the sampler with fresh random draws; which draws is left
   *  open. */
  method DrawDiameters() returns (p: SizePair)
    ensures exists c, up, j1, j2 :: IsValidDraw(c, j1, j2) && p == StimuliDiameters(c, up, j1, j2)
    ensures WellSeparated(p)
  {
    assert IsCorrectIndex(1);
    var c :| IsCorrectIndex(c);
    var up: bool :| true;
    var j1 :| IsJitter(j1);
    var j2 :| IsJitter(j2);
    p := StimuliDiameters(c, up, j1, j2);
  }

  /** The construction of the blocks. For each of the eight blocks an order
   *  is organized, and trial j takes its delay and side from row j of that
   *  order and its diameters from a fresh call of the sampler. The order
   *  generator is bounded by maxShuffles here; should it give up, the blocks
   *  built so far are returned and `complete` is false. */
  method BuildBlocks(maxShuffles: nat) returns (blocks: seq<Block>, complete: bool)
    requires maxShuffles > 0
    ensures |blocks| <= BlockCount
    ensures complete <==> |blocks| == BlockCount
    ensures forall i :: 0 <= i < |blocks| ==> ValidBlock(blocks[i], i)
  {
    blocks := [];
    var i := 0;
    while i < BlockCount
      invariant i <= BlockCount && |blocks| == i
      invariant forall k :: 0 <= k < i ==> ValidBlock(blocks[k], k)
    {
      var order, accepted, _ := OrganizeBlock(maxShuffles);
      if !accepted {
        complete := false;
        return;
      }
      var trials: seq<Trial> := [];
      var j := 0;
      while j < TrialsPerBlock
        invariant j <= TrialsPerBlock && |trials| == j
        invariant forall k :: 0 <= k < j ==> trials[k].delay == order[k].delay
        invariant forall k :: 0 <= k < j ==> trials[k].positionCorrect == order[k].side
        invariant forall t :: t in trials ==> WellSeparated(Sizes(t))
      {
        var sizes := DrawDiameters();
        trials := trials + [Trial(sizes.correct, sizes.incorrect, order[j].delay, order[j].side)];
        j := j + 1;
      }
      assert forall k :: 0 <= k < |order| ==> TrialConditions(trials)[k] == order[k];
      assert TrialConditions(trials) == order;
      blocks := blocks + [Block(i + 1, trials)];
      i := i + 1;
    }
    complete := true;
  }

  /** What the participant touched: stimulus k of the trial, or nothing. */
  datatype Response = Touched(stimulus: nat) | NoTouch

  /** The recorded correctness: 1 when the touched stimulus is stimulus 0,
   *  0 otherwise. */
  function Score(response: Response): (score: int)
    ensures score == 0 || score == 1
    ensures score == 1 <==> response == Touched(0)
  {
    if response == Touched(0) then 1 else 0
  }

  /** The diameter of stimulus k (0 or 1) of a trial. */
  function StimulusDiameter(t: Trial, k: nat): int
    requires k < 2
  {
    if k == 0 then t.correctDiameter else t.incorrectDiameter
  }

  /** On a trial built by the sampler, the score is 1 exactly when the
   *  touched circle has the diameter of the sample, which is stimulus 0. */
  lemma ScoreMeansMatch(t: Trial, k: nat)
    requires WellSeparated(Sizes(t)) && k < 2
    ensures Score(Touched(k)) == 1 <==> StimulusDiameter(t, k) == StimulusDiameter(t, 0)
  {
  }

  /** The data row appended after a trial: correct and incorrect diameters,
   *  side of the correct stimulus, delay, score and reaction time. */
  function DataRow(t: Trial, response: Response, rt: int): (row: seq<int>)
    ensures |row| == 6
    ensures row[4] == 1 <==> response == Touched(0)
  {
    [t.correctDiameter, t.incorrectDiameter, t.positionCorrect, t.delay, Score(response), rt]
  }

  /** Every row recorded for a trial of a block built by BuildBlocks has the
   *  diameters on the scale of the sampler and a side of -1 or +1. */
  lemma DataRowOfValidBlock(b: Block, i: int, j: int, response: Response, rt: int)
    requires ValidBlock(b, i) && 0 <= j < |b.trials|
    ensures var row := DataRow(b.trials[j], response, rt);
            && 294 <= row[0] <= 448 && 280 <= row[1] <= 462 && row[0] != row[1]
            && (row[2] == Left || row[2] == Right)
            && row[3] in Delays
  {
    var order := TrialConditions(b.trials);
    AcceptedOrderBalanced(order);
    assert order[j] in order;
    assert b.trials[j] in b.trials;
  }
}
