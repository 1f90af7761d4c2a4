/**
 * The marker symbols owned by the alignment solution. Their values are not part of this
 * model: they are declared without a value, so nothing proved here depends on what they
 * are or on whether they differ from each other or from the sequences' symbols.
 */
module AlignmentSolution {
  /** Shown for a sequence that consumed no symbol at a step. */
  const GAP_SYMBOL: char
  /** Alignment-line marker for two different symbols with a positive score contribution. */
  const POSITIVE_SYMBOL: char
  /** Alignment-line marker for two different symbols with a zero or negative contribution. */
  const NEGATIVE_SYMBOL: char
}
