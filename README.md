# Diameter match-to-sample experiment: trial design

This project models the trial design of the delayed match-to-sample
experiment in `mts_diameter.py`. A participant sees a sample circle. After a
delay, two comparison circles appear, and the participant must touch the one
that matches the sample. The model covers three parts:

- **Stimulus size sampler** (`stimulus_sizes.dfy`, module `StimulusSizes`).
  It models `get_stimuli_diameters`. A correct scale index `c` is drawn from
  1..12. An incorrect index is placed five steps above or below `c` and moved
  by a jitter of -1 or 0. When that first attempt leaves the scale, a second
  attempt goes the other way with a fresh jitter. Index `k` is drawn as a
  circle of `280 + 14*k` pixels. The random draws are parameters, each with a
  precondition giving its range.
- **Trial order generator** (`block_order.dfy`, module `BlockOrder`). It
  models `organize_block`. The 14-row `(delay, side)` table is shuffled in
  place, as an array, by a Fisher-Yates pass whose swap partner is chosen
  nondeterministically. A loop then scans the side column and sets an
  acceptance flag. The shuffle-and-scan loop repeats until the flag is true.
  The scan examines only the windows ending at positions 2 .. n-2. So an
  accepted order may end with three rows on the same side. `LastWindowUnchecked`
  gives such an order, and `LastRowExempt` states the exact constraint.
- **Block construction and scoring** (`experiment.dfy`, module `Experiment`).
  It builds eight blocks of fourteen trials. Trial `j` takes its delay and side
  from row `j` of the block's order and its diameters from a fresh call of the
  sampler. The recorded score is 1 exactly when the touched stimulus is
  stimulus 0. The data row has the source's column order.

Two details of the code are easy to misread:

- The jitter is `randint(-1, 1)`, which is -1 or 0 and never +1. So the
  incorrect index lies 4 or 5 steps above the correct one, or 5 or 6 below.
- The run-length scan skips the window that ends at the last row.

## Model

| member | source | states |
|---|---|---|
| StimulusSizes.DiameterOrder | mts_diameter.py:48 | the index-to-pixel map is strictly increasing and injective, and n indices apart means 14*n pixels apart |
| StimulusSizes.IncorrectIndex | mts_diameter.py:39-46 | for every draw, the incorrect index is in [0, 13] and lies 4 or 5 above or 5 or 6 below the correct index |
| StimulusSizes.StimuliDiameters | mts_diameter.py:27-48 | the correct diameter is in [294, 448], the incorrect one in [280, 462], both are on the 14-pixel scale, they are never equal, and they differ by 56, 70 or 84 pixels |
| StimulusSizes.WellSeparatedIsSamplerRange | mts_diameter.py:36-48 | every well-separated pair (ranges, 14-pixel scale, gap of 56, 70 or 84 px in the allowed direction) is the output of some valid draw, so the sampler's contract is exact |
| StimulusSizes.UpFallback | mts_diameter.py:40-42 | the fallback after an upward attempt fires only for c >= 9 and yields c - 5 + j2, which is at least 3 |
| StimulusSizes.DownFallback | mts_diameter.py:44-46 | the fallback after a downward attempt fires only for c <= 5 and yields c + 5 + j2, which is at most 10 |
| StimulusSizes.FirstAttemptKept | mts_diameter.py:39-46 | a first attempt within its bound is kept unchanged, and the second jitter has no effect |
| StimulusSizes.OneSidedGuardSuffices | mts_diameter.py:39-46 | each branch checks only one bound, yet the first attempt is kept exactly when it lies in [0, 13]; otherwise the mirrored attempt is used |
| StimulusSizes.IncorrectIndexOnto | mts_diameter.py:36-46 | every index of [0, 13] that lies 4 or 5 above or 5 or 6 below c is produced by some draw, so the range bound is tight |
| StimulusSizes.SmallestCorrectGoesDown | mts_diameter.py:44-46 | with c = 1, a downward attempt always falls below 0 and the fallback yields 5 or 6 |
| StimulusSizes.UpAttemptFromTen | mts_diameter.py:40-42 | with c = 10 and jitter 0, the upward attempt reaches 15 and the fallback yields 4 or 5 |
| BlockOrder.Shuffle | mts_diameter.py:67 | the in-place shuffle leaves the multiset of rows unchanged |
| BlockOrder.ScanSides | mts_diameter.py:68-71 | the flag computed by the scan loop equals NoTripleRun: no window ending at positions 2 .. n-2 has three equal sides |
| BlockOrder.OrganizeBlock | mts_diameter.py:51-73 | the returned order has 14 rows and is a permutation of the condition table; it is accepted iff it passes the scan; only a run out of shuffles is not accepted |
| BlockOrder.ConditionsListed | mts_diameter.py:59-60 | the condition table is, row by row, the table of the source |
| BlockOrder.SideCountPermutation | mts_diameter.py:67 | the number of rows on a side depends only on the multiset of rows, so the shuffle keeps it |
| BlockOrder.ConditionsBalanced | mts_diameter.py:59-60 | the table has 14 rows; each delay in {0, 2, 4, 6, 8, 16, 32} occurs once on each side and nothing else occurs; seven rows are on each side |
| BlockOrder.AcceptedOrderBalanced | mts_diameter.py:59-67 | every permutation of the table, and so every order returned, has that same balance |
| BlockOrder.DelaysIrrelevant | mts_diameter.py:70 | the scan reads only the side column: two orders with equal sides are accepted or rejected together |
| BlockOrder.LastRowExempt | mts_diameter.py:69-70 | passing the scan is equivalent to having no run of three equal sides in all rows but the last |
| BlockOrder.LastWindowUnchecked | mts_diameter.py:62-71 | some accepted permutation of the table ends with three rows on the same side |
| Experiment.DrawDiameters | mts_diameter.py:89 | one call of the sampler yields the output of some valid draw, which is therefore well separated |
| Experiment.BuildBlocks | mts_diameter.py:83-101 | block i is named i + 1 and has 14 trials; their (delay, position_correct) factors form an accepted order, and each trial's diameters are well separated; all 8 blocks are built unless the order generator gives up |
| Experiment.Score | mts_diameter.py:162-166 | the score is 0 or 1, and it is 1 iff the response is stimulus 0 |
| Experiment.ScoreMeansMatch | mts_diameter.py:162-166 | on a sampled trial, the score is 1 iff the touched circle has the diameter of the sample |
| Experiment.DataRow | mts_diameter.py:173-175 | the recorded row has six fields, and its score field is 1 iff stimulus 0 was touched |
| Experiment.DataRowOfValidBlock | mts_diameter.py:173-175 | every row recorded for a built block has diameters in range and distinct, a side of -1 or +1, and a delay of the design |

## Left out

- BlockOrder.OrganizeBlock: the source repeats the shuffle without bound. The model stops after `maxShuffles` shuffles and returns `accepted = false`. Only partial correctness is proved: any accepted order satisfies the postconditions. Termination of the source loop, which holds with probability 1, is not modelled.
- Experiment.BuildBlocks: inherits that bound. If the order generator gives up, it returns the blocks built so far with `complete = false`. The source never does this.
- BlockOrder.Shuffle: the swap partners are chosen nondeterministically. The uniform distribution of numpy's shuffle is not modelled.
- The probabilities of the draws are not modelled: the 0.5 coin and the uniformity of `randint`. Every possible draw is covered instead.
- Block names are the text `str(i + 1)` in the source. The model keeps the number `i + 1`.
- The second call of `organize_block` at mts_diameter.py:131 is left out. Its result is never used.
- Presentation and I/O are left out: experiment setup, touchscreen button boxes, clock waits (including the delay wait at mts_diameter.py:140) and saving data. The response and the reaction time are parameters of `Score` and `DataRow`.
- The floating-point screen positions of the two comparison circles (mts_diameter.py:147-151) are left out.
- `ihtt.py` is not part of this model. It is a separate experiment that only calls the presentation toolkit.
