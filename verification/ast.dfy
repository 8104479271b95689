/** The syntax tree the parser builds and the evaluator walks. The set of node
    kinds is closed: one constructor per kind of the node-kind union, except
    `Property`, which only ever occurs inside an object literal. */
module Ast {
  import opened Wrappers
  import opened Refs

  datatype Stmt =
    | Program(body: seq<Stmt>)
      /** `identifier` is ordered; `initializers` is absent for `let x;`. */
    | VarDeclaration(constant: bool, identifier: seq<string>, isArray: bool, initializers: Option<seq<Stmt>>)
      /** A parse-time expansion of one declaration into several statements. */
    | AggregatedExpr(stmts: seq<Stmt>)
    | FunctionDeclaration(parameters: seq<string>, name: string, body: seq<Stmt>, isNative: bool)
    | AssignmentExpr(assigne: Stmt, value: Stmt)
    | MemberExpr(object: Stmt, property: Stmt, computed: bool)
    | CallExpr(args: seq<Stmt>, caller: Stmt)
    | IfExpr(condition: Stmt, body: seq<Stmt>, elseBody: Option<seq<Stmt>>)
    | WhileExpr(condition: Stmt, body: seq<Stmt>)
    | ForExpr(variable: Stmt, condition: Stmt, increment: Stmt, body: seq<Stmt>)
      /** A node that stands for a value computed earlier. */
    | EvaluatedExpr(evaluatedVal: Val)
    | ContinueBreak(isContinue: bool)
    | Return(returnVal: seq<Stmt>)
    | ObjectLiteral(properties: seq<Property>)
    | NumericLiteral(num: real)
    | StringLiteral(text: string)
    | NativeBlock(nativeParams: seq<Stmt>, sourceCode: string)
    | Identifier(symbol: string)
    | UnaryExpr(left: Stmt, operator: string)
      /** A kind the union names but nothing builds (negation is a `UnaryExpr`). */
    | NegationExpr(operand: Stmt)
    | BinaryExpr(left: Stmt, right: Stmt, operator: string)
    | ArrayDeclaration

  /** A key of an object literal; no value means the shorthand `{ key }`. */
  datatype Property = Property(key: string, value: Option<Stmt>)
}
