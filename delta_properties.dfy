/** Properties of transition deltas that relate several steps, cells or fields. */
module DeltaProperties {
  import opened Coordinates
  import opened AlignmentMatrices
  import opened AlignmentSolution
  import opened TransitionDeltas

  /**
   * A delta that consumes from neither sequence shows gaps for both, is an identity,
   * and shows the gap marker on the alignment line.
   */
  lemma NoAdvanceIsGapIdentity(t: TransitionDelta)
    requires t.Valid()
    requires !t.IsCurrentSameAsPrevious(SequenceA) && !t.IsCurrentSameAsPrevious(SequenceB)
    ensures t.symbolA == GAP_SYMBOL && t.symbolB == GAP_SYMBOL
    ensures t.IsIdentity() && t.symbolAlignment == GAP_SYMBOL
  {
  }

  /**
   * A diagonal step shows the symbols it consumed, at `current`'s indices; when they
   * agree the alignment line shows that symbol whatever the contribution.
   */
  lemma DiagonalStep(m: AlignmentMatrix, previous: Transition, current: Transition)
    requires Resolvable(m, previous, current)
    requires Subtract(current.coords, previous.coords) == TwoDimensionalCoordinates(1, 1)
    ensures 1 <= current.coords.x <= |m.seqA| && 1 <= current.coords.y <= |m.seqB|
    ensures ComputeSymbol(m, SequenceA, previous, current) == m.seqA[current.coords.x - 1]
    ensures ComputeSymbol(m, SequenceB, previous, current) == m.seqB[current.coords.y - 1]
    ensures m.seqA[current.coords.x - 1] == m.seqB[current.coords.y - 1] ==>
              AlignmentSymbol(ComputeSymbol(m, SequenceA, previous, current),
                              ComputeSymbol(m, SequenceB, previous, current),
                              ScoreContribution(m, previous, current)) == m.seqA[current.coords.x - 1]
  {
  }

  /**
   * What a step derives depends on the matrix and the two cells' coordinates only:
   * the scores the given transitions carry are ignored in favour of the stored ones.
   */
  lemma DerivedFromCoordinatesOnly(m: AlignmentMatrix, p1: Transition, c1: Transition, p2: Transition, c2: Transition)
    requires Resolvable(m, p1, c1)
    requires p2.coords == p1.coords && c2.coords == c1.coords
    ensures Resolvable(m, p2, c2)
    ensures ScoreContribution(m, p2, c2) == ScoreContribution(m, p1, c1)
    ensures ComputeSymbol(m, SequenceA, p2, c2) == ComputeSymbol(m, SequenceA, p1, c1)
    ensures ComputeSymbol(m, SequenceB, p2, c2) == ComputeSymbol(m, SequenceB, p1, c1)
  {
  }

  /** Every cell of a traceback path lies in the matrix's grid. */
  ghost predicate PathInGrid(m: AlignmentMatrix, path: seq<Transition>)
  {
    m.WellFormed() && forall k :: 0 <= k < |path| ==> m.Holds(path[k])
  }

  /** The sum of the contributions of the deltas of consecutive cells of `path`. */
  ghost function TotalContribution(m: AlignmentMatrix, path: seq<Transition>): int
    requires PathInGrid(m, path)
    decreases |path|
  {
    if |path| < 2 then 0
    else ScoreContribution(m, path[0], path[1]) + TotalContribution(m, path[1..])
  }

  /** The contributions along a path add up to the score gained from its first to its last cell. */
  lemma {:induction false} TotalContributionTelescopes(m: AlignmentMatrix, path: seq<Transition>)
    requires PathInGrid(m, path) && |path| >= 1
    ensures TotalContribution(m, path) == ReferencedScore(m, path[|path| - 1]) - ReferencedScore(m, path[0])
  {
    if |path| >= 2 {
      TotalContributionTelescopes(m, path[1..]);
    }
  }

  /**
   * `Symbol` as written answers `symbolA` for sequence B: whenever the two sequences show
   * different symbols, it disagrees with the symbol sequence B shows.
   */
  lemma SymbolIgnoresDesignator(t: TransitionDelta)
    requires t.Valid() && t.symbolA != t.symbolB
    ensures t.Symbol(SequenceB) != t.SymbolOf(SequenceB)
    ensures t.SymbolOf(SequenceB) == t.symbolB
  {
  }

  /**
   * Such a step exists: aligning "A" with "C", the diagonal step from (0, 0) to (1, 1)
   * shows 'A' for sequence A and 'C' for sequence B.
   */
  lemma SymbolMismatchExample()
    ensures var m := AlignmentMatrix(['A'], ['C'], [[0, -1], [-1, -1]]);
            var p := Transition(TwoDimensionalCoordinates(0, 0), 0);
            var c := Transition(TwoDimensionalCoordinates(1, 1), -1);
            && Resolvable(m, p, c)
            && ComputeSymbol(m, SequenceA, p, c) == 'A'
            && ComputeSymbol(m, SequenceB, p, c) == 'C'
  {
  }

  /** The corrected lookup answers, for each sequence, the symbol that sequence shows. */
  lemma SymbolOfFollowsDesignator(t: TransitionDelta)
    requires t.Valid()
    ensures t.SymbolOf(SequenceA) == t.symbolA && t.SymbolOf(SequenceB) == t.symbolB
    ensures t.IsCurrentSameAsPrevious(SequenceB) ==> t.SymbolOf(SequenceB) == t.source.seqB[t.current.coords.y - 1]
    ensures !t.IsCurrentSameAsPrevious(SequenceB) ==> t.SymbolOf(SequenceB) == GAP_SYMBOL
  {
  }
}
