# TransitionDelta: one step of a pairwise-alignment traceback

This project models `TransitionDelta` from seqAlign, a Java program that aligns two
symbol sequences by dynamic programming. A transition delta takes one step of a
traceback: a `previous` and a `current` cell of the alignment matrix. From that step it
derives what the alignment renderer draws:

- the coordinate distance `current - previous`;
- the score contribution: the score the matrix stores at `current` minus the score it
  stores at `previous`;
- a display symbol for each sequence. This is the symbol the step consumed from that
  sequence when its index grew by exactly one, and the gap marker otherwise;
- the alignment-line symbol. This is the shared symbol when both display symbols agree.
  Otherwise it is the positive marker for a strictly positive contribution and the
  negative marker for any other contribution, zero included;
- a contribution level, set after construction relative to a caller-supplied maximum. It
  is "no data" until set, and again when the maximum is 0.

Modules:

- `Wrappers` (`wrappers.dfy`): `Option`.
- `Coordinates` (`coordinates.dfy`): the coordinate pair and its componentwise `Subtract`.
- `AlignmentMatrices` (`alignment_matrix.dfy`): `SequenceDesignator`, `Transition` (a
  cell's coordinates and the score it carries) and `AlignmentMatrix`. The matrix holds the
  two sequences and a dense `(|A| + 1) x (|B| + 1)` score grid. Only the two lookups a
  delta makes are modelled. `ReferencedTransition` returns the stored cell at the same
  coordinates. `ReferencedSymbol(d, t)` returns the symbol of sequence `d` at 1-based
  position `t.Index(d)`, or `None` at index 0 and past the end of the sequence.
- `AlignmentSolution` (`alignment_solution.dfy`): the three marker constants `GAP_SYMBOL`,
  `POSITIVE_SYMBOL` and `NEGATIVE_SYMBOL`. They are declared without a value, so no proof
  relies on what they are or on their being distinct.
- `ContributionLevels` (`contribution_level.dfy`): the level as an integer percent. A
  level `r` stands for `r / 100`, and `None` stands for the floating-point NaN.
  `Math.round` is modelled as round-half-up of the rational `100 * sc / max`.
- `TransitionDeltas` (`transition_delta.dfy`): the derivations as functions, and the class
  `TransitionDelta`. Its computed fields are `const`. Its one mutable field is
  `scoreContributionLevel`, which `SetMaxScoreContribution` updates. `Valid()` ties every
  computed field to the derivations. The Java getters `getSymbolA`, `getSymbolB`,
  `getSymbolAlignment`, `getPrevious`, `getCurrent`, `getDistance`,
  `getScoreContribution` and `getScoreContributionLevel` are read access to those fields.
- `DeltaProperties` (`delta_properties.dfy`): lemmas that relate several steps, cells or
  fields.

The two constructors, `SetMaxScoreContribution` and the class predicate `Valid` follow the
source: the object is built once and annotated later.

## Model

| member | source | states |
|---|---|---|
| Coordinates.Subtract | align-common/src/main/java/com/bop/seqAlign/framework/TransitionDelta.java:45 | the distance added to `previous` gives `current`, on both axes |
| AlignmentMatrices.AlignmentMatrix.ReferencedTransition | align-common/src/main/java/com/bop/seqAlign/framework/TransitionDelta.java:64 | the stored cell keeps the given coordinates and carries the grid's score, whatever score the given cell carries |
| AlignmentMatrices.AlignmentMatrix.ReferencedSymbol | align-common/src/main/java/com/bop/seqAlign/framework/TransitionDelta.java:76 | a symbol exists exactly when the axis index is between 1 and the sequence length, and it is the symbol at that 1-based position |
| TransitionDeltas.ReferencedScore | align-common/src/main/java/com/bop/seqAlign/framework/TransitionDelta.java:63-65 | the score of a cell is the one the matrix's grid stores at its coordinates, not the one the given cell carries |
| TransitionDeltas.ScoreContribution | align-common/src/main/java/com/bop/seqAlign/framework/TransitionDelta.java:46 | the stored score at `previous` plus the contribution is the stored score at `current` |
| TransitionDeltas.Advances | align-common/src/main/java/com/bop/seqAlign/framework/TransitionDelta.java:79-81 | a step consumes from sequence `d` exactly when the distance along that axis is 1 |
| TransitionDeltas.ComputeSymbol | align-common/src/main/java/com/bop/seqAlign/framework/TransitionDelta.java:75-77 | an advance by exactly one shows the sequence's symbol at `current`'s index, which lies within the sequence; no advance and larger jumps show the gap marker |
| TransitionDeltas.ScoreDifferenceSymbol | align-common/src/main/java/com/bop/seqAlign/framework/TransitionDelta.java:71-73 | a strictly positive contribution gives the positive marker; zero or negative gives the negative marker |
| TransitionDeltas.AlignmentSymbol | align-common/src/main/java/com/bop/seqAlign/framework/TransitionDelta.java:50 | equal display symbols give that symbol; different ones give the positive marker when the contribution is positive and the negative marker otherwise, zero included |
| TransitionDeltas.TransitionDelta.constructor | align-common/src/main/java/com/bop/seqAlign/framework/TransitionDelta.java:40-51 | every computed field equals its derivation from the matrix and the two cells; the level starts as no data |
| TransitionDeltas.TransitionDelta.Copy | align-common/src/main/java/com/bop/seqAlign/framework/TransitionDelta.java:36-38 | the copy has the same matrix, cells, distance, contribution and three symbols as the original; its level is reset to no data |
| TransitionDeltas.TransitionDelta.SetMaxScoreContribution | align-common/src/main/java/com/bop/seqAlign/framework/TransitionDelta.java:59-61 | the level becomes the contribution level for `max`; only the level field may change |
| TransitionDeltas.TransitionDelta.AccumulatedScore | align-common/src/main/java/com/bop/seqAlign/framework/TransitionDelta.java:67-69 | the accumulated score is the stored score at `previous` plus the step's contribution |
| TransitionDeltas.TransitionDelta.IsCurrentSameAsPrevious | align-common/src/main/java/com/bop/seqAlign/framework/TransitionDelta.java:79-81 | holds exactly when the delta's distance along axis `d` is 1 |
| TransitionDeltas.TransitionDelta.Symbol | align-common/src/main/java/com/bop/seqAlign/framework/TransitionDelta.java:83-85 | as written: the answer is `symbolA` for either designator |
| TransitionDeltas.TransitionDelta.SymbolOf | align-common/src/main/java/com/bop/seqAlign/framework/TransitionDelta.java:83-85 | corrected: the answer is the display symbol derived for the designated sequence |
| TransitionDeltas.TransitionDelta.IsIdentity | align-common/src/main/java/com/bop/seqAlign/framework/TransitionDelta.java:111-113 | holds exactly when the two display symbols agree; then the alignment line shows that symbol, otherwise it shows the marker for the contribution's sign |
| TransitionDeltas.TransitionDelta.IsPositive | align-common/src/main/java/com/bop/seqAlign/framework/TransitionDelta.java:115-117 | holds exactly when the stored score rose from `previous` to `current`, so zero is not positive; a non-identity step shows the positive marker exactly when this holds |
| ContributionLevels.RoundHalfUp | align-common/src/main/java/com/bop/seqAlign/framework/TransitionDelta.java:60 | the result `r` satisfies `r - 1/2 <= n / d < r + 1/2`, which is `Math.round`'s rounding of the quotient |
| ContributionLevels.RoundHalfUpUnique | align-common/src/main/java/com/bop/seqAlign/framework/TransitionDelta.java:60 | at most one integer is the half-up rounding of a quotient, so the level is determined by that characterisation |
| ContributionLevels.ContributionLevel | align-common/src/main/java/com/bop/seqAlign/framework/TransitionDelta.java:60 | no data exactly when `max` is 0; otherwise the half-up rounding of `100 * sc / max` |
| ContributionLevels.LevelBounded | align-common/src/main/java/com/bop/seqAlign/framework/TransitionDelta.java:53-61 | a contribution no larger in magnitude than `max` has a level between -100 and 100, i.e. between -1 and 1 |
| ContributionLevels.LevelOfExtremes | align-common/src/main/java/com/bop/seqAlign/framework/TransitionDelta.java:59-61 | for `max` other than 0: `max` has level 100, `-max` has level -100, and a zero contribution has level 0, which is not no data |
| DeltaProperties.NoAdvanceIsGapIdentity | align-common/src/main/java/com/bop/seqAlign/framework/TransitionDelta.java:111-113 | a delta that advances neither axis by exactly one shows gap for both sequences, is an identity, and its alignment symbol is the gap marker |
| DeltaProperties.DiagonalStep | align-common/src/main/java/com/bop/seqAlign/framework/TransitionDelta.java:48-50 | a (1, 1) step shows both consumed symbols; when they agree the alignment line shows that symbol |
| DeltaProperties.DerivedFromCoordinatesOnly | align-common/src/main/java/com/bop/seqAlign/framework/TransitionDelta.java:63-65 | the contribution and both symbols depend only on the matrix and the cells' coordinates, not on the scores the given cells carry |
| DeltaProperties.TotalContributionTelescopes | align-common/src/main/java/com/bop/seqAlign/framework/TransitionDelta.java:63-69 | the contributions of consecutive steps along a path add up to the stored score at its last cell minus that at its first |
| DeltaProperties.SymbolIgnoresDesignator | align-common/src/main/java/com/bop/seqAlign/framework/TransitionDelta.java:83-85 | when the two display symbols differ, the as-written lookup for sequence B disagrees with the symbol sequence B shows |
| DeltaProperties.SymbolMismatchExample | align-common/src/main/java/com/bop/seqAlign/framework/TransitionDelta.java:83-85 | the diagonal step (0, 0) to (1, 1) aligning "A" with "C" shows 'A' and 'C', so the discrepancy occurs |
| DeltaProperties.SymbolOfFollowsDesignator | align-common/src/main/java/com/bop/seqAlign/framework/TransitionDelta.java:83-85 | the corrected lookup gives `symbolA` for A and `symbolB` for B; for B that is the consumed symbol when B advanced and the gap marker otherwise |

## Left out

- align-swing/src/main/java/com/bop/common/swing/SegmentsDrawerPanel.java: Swing painting, `Graphics` calls, `repaint()` and scaling by `double` ratios. These are user-interface and floating-point code.
- ContributionLevels.ContributionLevel: the `float` result is not modelled. The level is an integer percent, and NaN is `None`. The exact rational quotient is rounded, not the `double` value `100.0 * sc / max`. The two roundings can differ only when the quotient lies within floating-point error of a half-integer.
- TransitionDeltas.ScoreContribution: scores are unbounded integers. Java's 32-bit `int` subtraction would wrap when two stored scores differ by more than `2^31 - 1`.
- TransitionDeltas.TransitionDelta.constructor: requires both cells to lie in the matrix's grid. The source of `AlignmentMatrix` is not shown, so what its lookups do for a cell outside the grid is unknown and not modelled.
- The internals of `AlignmentMatrix`, `Transition`, `TwoDimensionalCoordinates` and `AlignmentSolution` are not part of this model. That includes the dynamic-programming fill, the traceback, and the assembly of the three alignment lines. Only the lookups a delta makes are modelled.
- The values of the gap, positive and negative markers are not modelled. Nothing in the modelled code checks that they are distinct or absent from the sequences' alphabets.
- Object identity: the matrix and the two cells are values. A copy's `source`, `previous` and `current` are equal to the original's rather than the same objects.

## Findings

| source | as written | input that shows it | evidently intended | confidence | as-written member | corrected member |
|---|---|---|---|---|---|---|
| align-common/src/main/java/com/bop/seqAlign/framework/TransitionDelta.java:83-85 | `getSymbol(designator)` returns `symbolA` for every designator | sequences "A" and "C", diagonal step (0, 0) to (1, 1): `getSymbol(SEQUENCE_B)` returns 'A', but sequence B shows 'C' | return `symbolB` for `SEQUENCE_B` | medium, not executed | DeltaProperties.SymbolIgnoresDesignator | TransitionDeltas.TransitionDelta.SymbolOf |
