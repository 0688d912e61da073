/*******************************************************************************
 *  Shared vocabulary of the Stellar3 binding-layer model: property names,
 *  optional (nullable) values, the two exception kinds the core throws, and
 *  the shape of a property-access lambda expression.
 *******************************************************************************/

module Common {

  /** A property or member name. */
  type Name = string

  /** A possibly-null reference: `None` models C#'s `null`. */
  datatype Option<+T> = None | Some(value: T)

  /** The exceptions the core throws synchronously at the call site. */
  datatype Error =
    | ArgumentNull(paramName: string)
    | Argument(message: string, argumentName: Option<string>)

  /** Either the result of an operation or the exception it throws. */
  datatype Result<+T> = Success(value: T) | Failure(error: Error)

  /** The body of a property-access lambda `x => ...`: a member access on an
      inner expression, the lambda parameter itself, or any other node
      (a method call, an indexer, a conversion, ...). */
  datatype Expr = Member(name: Name, inner: Expr) | Param | Other

  /** A property-access lambda: its body, and the member chain that
      `GetExpressionChain` resolved from that body, outermost member first
      (for `x => x.A.B` the chain is ["A", "B"]). */
  datatype PropertyExpression = PropertyExpression(body: Expr, chain: seq<Name>)

  /** `Select` over a finite emission sequence: the converter applied to each
      element, in order. */
  function Map<A, B>(f: A -> B, s: seq<A>): (r: seq<B>)
    ensures |r| == |s|
    ensures forall i :: 0 <= i < |s| ==> r[i] == f(s[i])
  {
    seq(|s|, i requires 0 <= i < |s| => f(s[i]))
  }
}
