/** The parsed path-and-filter query, as the traversal sees it. Parsing is not part
    of this model; a query is any value of this shape, and `None` is Go's nil. */
module Query {
  import opened Wrappers

  /** The token of an equality filter operator. */
  const EQ: string := "eq"

  /** One node of a query: a path segment or a filter operator/operand. `next` is the
      following path segment (for a filter root, the segment after the closing
      bracket); `left` and `right` are the operands of a filter operator. */
  datatype Expr = Expr(
    token: string,
    rootOfFilter: bool,
    path: bool,
    literal: bool,
    left: Option<Expr>,
    right: Option<Expr>,
    next: Option<Expr>)

  /** Number of nodes reachable from a query; the traversal's termination measure. */
  function Size(q: Option<Expr>): nat
  {
    match q
    case None => 0
    case Some(e) => 1 + Size(e.left) + Size(e.right) + Size(e.next)
  }

  /** A present node that is a path reference. */
  predicate IsPath(q: Option<Expr>)
  {
    q.Some? && q.value.path
  }

  /** A present node that is a literal. */
  predicate IsLiteral(q: Option<Expr>)
  {
    q.Some? && q.value.literal
  }
}
