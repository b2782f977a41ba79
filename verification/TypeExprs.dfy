/** Parsed type annotations. */
module TypeExprs {
  import opened Wrappers
  import opened Types
  import Decimal

  /** A type as written.  `resolved` carries a type attached when a definition is cloned. */
  datatype TypeExpr =
    | Named(parts: seq<string>, resolved: Option<Type>)
    | PointerTo(pointee: TypeExpr, linear: bool)
    | ArrayOf(element: TypeExpr, size: nat)
    | FunctionOf(params: seq<TypeExpr>, result: TypeExpr)
    | Applied(base: seq<string>, args: seq<TypeExpr>)
    | TupleOf(elements: seq<TypeExpr>)

  /** The parts of a qualified name joined by `::`. */
  function Mangled(parts: seq<string>): string
  {
    if parts == [] then ""
    else if |parts| == 1 then parts[0]
    else parts[0] + "::" + Mangled(parts[1..])
  }

  function Print(e: TypeExpr): string
  {
    match e
    case Named(parts, _) => Mangled(parts)
    case PointerTo(p, linear) => (if linear then "'" else "") + "ptr<" + Print(p) + ">"
    case ArrayOf(element, n) => "[" + Decimal.Show(n) + "]" + Print(element)
    case FunctionOf(ps, r) => "(" + PrintAll(ps) + ") -> " + Print(r)
    case Applied(base, args) => Mangled(base) + "<" + PrintAll(args) + ">"
    case TupleOf(es) => "(" + PrintAll(es) + ")"
  }

  function PrintAll(es: seq<TypeExpr>): string
  {
    if es == [] then "" else Print(es[0]) + PrintRest(es[1..])
  }

  function PrintRest(es: seq<TypeExpr>): string
    decreases es
  {
    if es == [] then "" else ", " + Print(es[0]) + PrintRest(es[1..])
  }
}
