/** What an expression evaluates to.

    Every runtime value of the interpreter is a host object with identity:
    two evaluations of the same literal give two distinct objects, a number
    incremented with `++` is changed in place, and `has` compares by
    reference. So a value is a reference into the heap of `Values`, except
    for the host's `undefined` (a missing argument, an out-of-range read) and
    the list of results a `return` carries, which only ever travel up to the
    enclosing call.

    This type lives apart from `Values` because the syntax tree embeds
    already-computed values (`EvaluatedExpr`) while function values hold
    syntax trees.
 */
module Refs {

  datatype Val =
    | Undefined
    | Ref(addr: nat)
    | FunctionReturn(values: seq<Val>)
}
