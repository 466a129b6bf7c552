/** Error kinds the traversal engine distinguishes (message text is not modelled). */
module Errors {

  /** Why a filter was refused: one constructor per distinct `ErrInvalidFilter` message. */
  datatype FilterProblem =
    | SingularTarget          // "filter applied to singular attribute"
    | NoFilterFound           // "no filter found"
    | NotSingleEq             // "only a single Eq filter is applicable"
    | Unsupported             // "filter is not supported"
    | NoComparisonAttribute   // "invalid filter": the element has no sub-attribute by the filter key
    | BadFilterValue          // "invalid filter value": the literal does not normalise

  /** Errors surfaced by a traversal. Errors raised by the filter evaluator or by the
      caller's callback are passed through unchanged, so they may be any of these. */
  datatype Error =
    | InvalidFilter(problem: FilterProblem)
    | InvalidType
    | NoAttribute
    | InvalidPath
    | Failed(reason: string)
}
