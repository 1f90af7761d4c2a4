/**
 * The collaborators a transition delta reads: which sequence an operation is about,
 * a matrix cell (a transition), and the matrix itself with its two sequences and its
 * authoritative score grid. Only the lookups a delta performs are modelled.
 */
module AlignmentMatrices {
  import opened Wrappers
  import opened Coordinates

  datatype SequenceDesignator = SequenceA | SequenceB

  /** The component of `c` along the axis of sequence `d`. */
  function Component(c: TwoDimensionalCoordinates, d: SequenceDesignator): int
  {
    match d
    case SequenceA => c.x
    case SequenceB => c.y
  }

  /** A matrix cell: its coordinates and the cumulative score it carries. */
  datatype Transition = Transition(coords: TwoDimensionalCoordinates, score: int)
  {
    /** The index of this cell along the axis of sequence `d` (0 = no symbol consumed yet). */
    function Index(d: SequenceDesignator): int
    {
      Component(coords, d)
    }
  }

  /**
   * The two aligned sequences and a dense `(|seqA| + 1) x (|seqB| + 1)` grid of scores,
   * one per cell; `scores[i][j]` is the score of the stored transition at `(i, j)`.
   */
  datatype AlignmentMatrix = AlignmentMatrix(seqA: seq<char>, seqB: seq<char>, scores: seq<seq<int>>)
  {
    predicate WellFormed()
    {
      && |scores| == |seqA| + 1
      && forall i :: 0 <= i < |scores| ==> |scores[i]| == |seqB| + 1
    }

    /** The sequence along axis `d`. */
    function Sequence(d: SequenceDesignator): seq<char>
    {
      match d
      case SequenceA => seqA
      case SequenceB => seqB
    }

    /** `t`'s coordinates name a cell of the grid. */
    predicate Holds(t: Transition)
    {
      0 <= t.coords.x <= |seqA| && 0 <= t.coords.y <= |seqB|
    }

    /**
     * The stored transition at `t`'s coordinates: whatever score `t` itself carries,
     * the result carries the grid's score for that cell.
     */
    function ReferencedTransition(t: Transition): (r: Transition)
      requires WellFormed() && Holds(t)
      ensures r.coords == t.coords
      ensures r.score == scores[t.coords.x][t.coords.y]
    {
      Transition(t.coords, scores[t.coords.x][t.coords.y])
    }

    /**
     * The symbol of sequence `d` consumed on reaching `t`: the symbol at 1-based position
     * `t.Index(d)`; none at index 0 (nothing consumed) or past the end of the sequence.
     */
    function ReferencedSymbol(d: SequenceDesignator, t: Transition): (r: Option<char>)
      ensures r.Some? <==> 1 <= t.Index(d) <= |Sequence(d)|
      ensures r.Some? ==> r.value == Sequence(d)[t.Index(d) - 1]
    {
      var i := t.Index(d);
      if 1 <= i <= |Sequence(d)| then Some(Sequence(d)[i - 1]) else None
    }
  }
}
