/** The values the review component works with: the structured review the
    remote model returns, its findings, and the four result tabs. */
module ReviewTypes {

  /** An optional value; `None` stands for JavaScript's `null`. */
  datatype Option<+T> = None | Some(value: T)

  /** One reviewer-reported suggestion with an optional code excerpt
      (the empty string when there is none). */
  datatype Finding = Finding(suggestion: string, codeSnippet: string)

  /** The parsed review: a free-text assessment and three ordered lists of findings. */
  datatype Review = Review(
    overallAssessment: string,
    readability: seq<Finding>,
    modularity: seq<Finding>,
    bugs: seq<Finding>)

  /** The ids of the result tabs. */
  datatype Tab = Overall | Readability | Modularity | Bugs
}
