/**
 * The syntax the visitor reacts to, reduced to what its callbacks read. A
 * document is a tree of events: the driver calls `visit` on a node, walks
 * the children only when `visit` answers true, and always calls `endVisit`.
 * Expression nodes carry an identity so that the member-access recorder can
 * compare them the way the source compares node pointers.
 */
module Ast {
  import opened Options
  import opened Scopes

  type NodeId = nat

  datatype Operator = As | OtherOperator

  /** The base of a field access: parentheses around it, a binary expression, or any other node. */
  datatype ExprRef =
    | Nested(inner: ExprRef)
    | BinaryRef(node: NodeId, op: Operator, typeExpression: Option<string>)
    | ExprNode(node: NodeId)

  /** The expression of an expression statement, as far as a script binding inspects it. */
  datatype ExpressionShape = IdentifierShape(name: string) | FunctionShape | OtherShape

  datatype Statement =
    | ExprStatement(expression: ExpressionShape, first: Location, last: Location)
    | OtherStatement(first: Location, last: Location)
  {
    /** The statement is `identifier` alone, as an `id:` binding expects. */
    predicate IsIdentifierStatement() { ExprStatement? && expression.IdentifierShape? }

    /** The statement is a function-expression literal. */
    predicate IsFunctionBody() { ExprStatement? && expression.FunctionShape? }
  }

  datatype VariableScope = NoScope | Var | Let | Const

  datatype VariableDeclaration = VariableDeclaration(name: string, scope: VariableScope, location: Location)

  datatype UiParameter = UiParameter(name: string, typeName: string)

  datatype Event =
    | UiProgram
    | ClassExpression(className: string)
    | ClassDeclaration(className: string)
    | ForStatement
    | ForEachStatement
    | CaseBlock
    | WithStatement(location: Location)
    | ExpressionStatement
    | Block
    | Catch(bindingIdentifier: string, location: Location)
    | UiScriptBinding(bindingName: string, statement: Statement, location: Location)
    | UiPublicMember(isSignal: bool, memberName: string, parameters: seq<UiParameter>,
                     memberType: Option<string>, typeModifier: string, isReadonly: bool)
    | VariableDeclarationList(declarations: seq<VariableDeclaration>)
    | PatternElement(isVariableDeclaration: bool, boundNames: seq<string>, scope: VariableScope, location: Location)
    | FormalParameterList(parameterNames: seq<string>, location: Location)
    | FunctionExpression(functionName: string, location: Location)
    | FunctionDeclaration(functionName: string, location: Location)
    | UiObjectDefinition(typeName: seq<string>)
    | UiObjectBinding(propertyName: string, typeName: seq<string>)
    | IdentifierExpression(node: NodeId, name: string, location: Location)
    | FieldMemberExpression(node: NodeId, base: ExprRef, name: string, location: Location)
    | BinaryExpression(node: NodeId, op: Operator, left: NodeId)
    | OtherNode

  /** A syntax node and, for object definitions, its members as children. */
  datatype Tree = Node(event: Event, children: seq<Tree>)

  /** Strip parentheses, as the field-access visit does before comparing. */
  function Unwrap(e: ExprRef): (r: ExprRef)
    ensures !r.Nested?
  {
    match e
    case Nested(inner) => Unwrap(inner)
    case _ => e
  }

  /** The node identity of an expression that is not a parenthesis. */
  function NodeOf(e: ExprRef): NodeId
    requires !e.Nested?
  {
    match e
    case BinaryRef(n, _, _) => n
    case ExprNode(n) => n
  }

  /** The target type of an `as` cast whose right side is a type expression, else "". */
  function CastType(e: ExprRef): string {
    match e
    case BinaryRef(_, As, Some(t)) => t
    case _ => ""
  }
}
