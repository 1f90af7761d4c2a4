/**
 * One step of an alignment traceback, from a `previous` to a `current` matrix cell,
 * turned into what a renderer draws: the coordinate distance, the score contribution,
 * a display symbol per sequence, the alignment-line symbol and a contribution level.
 */
module TransitionDeltas {
  import opened Wrappers
  import opened Coordinates
  import opened AlignmentMatrices
  import opened AlignmentSolution
  import opened ContributionLevels

  /** Both cells of the step lie in the matrix's grid, so every lookup of a delta succeeds. */
  predicate Resolvable(m: AlignmentMatrix, previous: Transition, current: Transition)
  {
    m.WellFormed() && m.Holds(previous) && m.Holds(current)
  }

  /** The score the matrix stores for `t`'s cell (not the score `t` itself carries). */
  function ReferencedScore(m: AlignmentMatrix, t: Transition): (r: int)
    requires m.WellFormed() && m.Holds(t)
    ensures r == m.scores[t.coords.x][t.coords.y]
  {
    m.ReferencedTransition(t).score
  }

  /**
   * The score gained from `previous` to `current`, both resolved through the matrix:
   * adding it to the score stored at `previous` gives the score stored at `current`.
   */
  function ScoreContribution(m: AlignmentMatrix, previous: Transition, current: Transition): (sc: int)
    requires Resolvable(m, previous, current)
    ensures ReferencedScore(m, previous) + sc == ReferencedScore(m, current)
  {
    ReferencedScore(m, current) - ReferencedScore(m, previous)
  }

  /**
   * The step consumed a symbol of sequence `d`: its index along that axis grew by exactly
   * one, i.e. the distance along that axis is 1 (no advance and larger jumps do not count).
   */
  predicate Advances(d: SequenceDesignator, previous: Transition, current: Transition)
    ensures Advances(d, previous, current) <==>
            Component(Subtract(current.coords, previous.coords), d) == 1
  {
    current.Index(d) == previous.Index(d) + 1
  }

  /**
   * The symbol shown for sequence `d` at this step: the symbol the step consumed from
   * that sequence (the one at `current`'s index), or the gap marker when it consumed none.
   */
  function ComputeSymbol(m: AlignmentMatrix, d: SequenceDesignator, previous: Transition, current: Transition): (c: char)
    requires Resolvable(m, previous, current)
    ensures Advances(d, previous, current) ==>
              1 <= current.Index(d) <= |m.Sequence(d)| && c == m.Sequence(d)[current.Index(d) - 1]
    ensures !Advances(d, previous, current) ==> c == GAP_SYMBOL
  {
    if Advances(d, previous, current) then
      m.ReferencedSymbol(d, current).value
    else
      GAP_SYMBOL
  }

  /** The marker for two different symbols: positive only for a strictly positive contribution. */
  function ScoreDifferenceSymbol(sc: int): (c: char)
    ensures sc > 0 ==> c == POSITIVE_SYMBOL
    ensures sc <= 0 ==> c == NEGATIVE_SYMBOL
  {
    if sc > 0 then POSITIVE_SYMBOL else NEGATIVE_SYMBOL
  }

  /**
   * The alignment-line symbol: the shared symbol when both sequences show the same one,
   * otherwise the marker chosen by the sign of the contribution (zero gives the negative one).
   */
  function AlignmentSymbol(symbolA: char, symbolB: char, sc: int): (c: char)
    ensures symbolA == symbolB ==> c == symbolA
    ensures symbolA != symbolB && sc > 0 ==> c == POSITIVE_SYMBOL
    ensures symbolA != symbolB && sc <= 0 ==> c == NEGATIVE_SYMBOL
  {
    if symbolA == symbolB then symbolA else ScoreDifferenceSymbol(sc)
  }

  class TransitionDelta {
    const source: AlignmentMatrix
    const previous: Transition
    const current: Transition

    // Computed
    const symbolA: char
    const symbolB: char
    const symbolAlignment: char
    const distance: TwoDimensionalCoordinates
    const scoreContribution: int
    var scoreContributionLevel: Option<int>

    /** Every computed field is what the matrix and the two cells determine. */
    ghost predicate Valid()
    {
      && Resolvable(source, previous, current)
      && distance == Subtract(current.coords, previous.coords)
      && scoreContribution == ScoreContribution(source, previous, current)
      && symbolA == ComputeSymbol(source, SequenceA, previous, current)
      && symbolB == ComputeSymbol(source, SequenceB, previous, current)
      && symbolAlignment == AlignmentSymbol(symbolA, symbolB, scoreContribution)
    }

    constructor (matrix: AlignmentMatrix, previous: Transition, current: Transition)
      requires Resolvable(matrix, previous, current)
      ensures Valid()
      ensures source == matrix && this.previous == previous && this.current == current
      ensures scoreContributionLevel == None
    {
      source := matrix;
      this.previous := previous;
      this.current := current;
      distance := Subtract(current.coords, previous.coords);
      var sc := ScoreContribution(matrix, previous, current);
      var a := ComputeSymbol(matrix, SequenceA, previous, current);
      var b := ComputeSymbol(matrix, SequenceB, previous, current);
      scoreContribution := sc;
      symbolA := a;
      symbolB := b;
      symbolAlignment := AlignmentSymbol(a, b, sc);
      scoreContributionLevel := None;
    }

    /** A delta for the same matrix and cells as `target`; the level is not carried over. */
    constructor Copy(target: TransitionDelta)
      requires target.Valid()
      ensures Valid()
      ensures source == target.source && previous == target.previous && current == target.current
      ensures distance == target.distance && scoreContribution == target.scoreContribution
      ensures symbolA == target.symbolA && symbolB == target.symbolB
      ensures symbolAlignment == target.symbolAlignment
      ensures scoreContributionLevel == None
    {
      var matrix, p, c := target.source, target.previous, target.current;
      source := matrix;
      previous := p;
      current := c;
      distance := Subtract(c.coords, p.coords);
      var sc := ScoreContribution(matrix, p, c);
      var a := ComputeSymbol(matrix, SequenceA, p, c);
      var b := ComputeSymbol(matrix, SequenceB, p, c);
      scoreContribution := sc;
      symbolA := a;
      symbolB := b;
      symbolAlignment := AlignmentSymbol(a, b, sc);
      scoreContributionLevel := None;
    }

    /** Annotates the step with its level relative to `max`; nothing else changes. */
    method SetMaxScoreContribution(max: int)
      modifies this`scoreContributionLevel
      ensures scoreContributionLevel == ContributionLevel(scoreContribution, max)
    {
      scoreContributionLevel := ContributionLevel(scoreContribution, max);
    }

    /** The score stored at `current`: the score stored at `previous` plus this step's contribution. */
    function AccumulatedScore(): (r: int)
      requires Valid()
      ensures r == ReferencedScore(source, previous) + scoreContribution
    {
      ReferencedScore(source, current)
    }

    /** The step consumed a symbol of sequence `d`: the distance along that axis is 1. */
    predicate IsCurrentSameAsPrevious(d: SequenceDesignator)
      requires Valid()
      ensures IsCurrentSameAsPrevious(d) <==> Component(distance, d) == 1
    {
      Advances(d, previous, current)
    }

    /** The symbol for sequence `d`, as written: `symbolA` whatever `d` is. */
    function Symbol(d: SequenceDesignator): (c: char)
      ensures c == symbolA
    {
      symbolA
    }

    /** The symbol for sequence `d`: the display symbol that sequence shows at this step. */
    function SymbolOf(d: SequenceDesignator): (c: char)
      requires Valid()
      ensures c == ComputeSymbol(source, d, previous, current)
    {
      match d
      case SequenceA => symbolA
      case SequenceB => symbolB
    }

    /**
     * Both sequences show the same symbol; then the alignment line shows it too,
     * otherwise it shows the marker chosen by the sign of the contribution.
     */
    function IsIdentity(): (r: bool)
      requires Valid()
      ensures r <==> symbolA == symbolB
      ensures r ==> symbolAlignment == symbolA
      ensures !r ==> symbolAlignment == ScoreDifferenceSymbol(scoreContribution)
    {
      symbolA == symbolB
    }

    /**
     * The step raised the stored score; a zero contribution is not positive. A non-identity
     * step shows the positive marker exactly when it is positive.
     */
    function IsPositive(): (r: bool)
      requires Valid()
      ensures r <==> AccumulatedScore() > ReferencedScore(source, previous)
      ensures symbolA != symbolB ==> symbolAlignment == (if r then POSITIVE_SYMBOL else NEGATIVE_SYMBOL)
    {
      scoreContribution > 0
    }
  }
}
