/** The expressions the ownership checker dispatches on, and the fragment of them for which its
    verdict is claimed to be trustworthy.  Every construct of the language is an expression; a block
    is a sequence of expressions. */
module LinearSyntax {
  datatype Expr =
    | Leaf                                           // constants; also `len` and `dim`, whose operand never runs
    | Var(name: string)
    | ArrayVar(name: string)                         // a variable of array type: never an owner
    | Opaque(operands: seq<Expr>)                    // unary minus, field access, ranges: not walked
    | Literal(elements: seq<Expr>)                   // of a struct, an array or a tuple
    | Alloc(count: Expr)
    | Call(args: seq<Expr>, takes: seq<bool>, owned: bool)  // which parameters, and whether the result, own memory
    | Free(operand: Expr)
    | Deref(operand: Expr, toArray: bool)              // does the operand point to an array?
    | Index(base: Expr, index: Expr)
    | AddrOf(operand: Expr, linear: bool)            // does the operand's type own memory?
    | Binary(lhs: Expr, rhs: Expr)                   // any operator but `=`
    | Assign(lhs: Expr, rhs: Expr, escapes: bool)    // `=` through a pointer; does it store a stack pointer?
    | VarDef(name: string, linear: bool, init: Expr)
    | Return(result: Expr, escapes: bool)            // does it return a pointer that owns nothing?
    | If(cond: Expr, thn: seq<Expr>, els: Else)
    | While(cond: Expr, body: seq<Expr>)
    | For(counter: string, start: Expr, stop: Expr, body: seq<Expr>)
    | Case(scrutinee: Expr, arms: seq<Arm>)

  datatype Arm = Arm(bindings: set<string>, body: seq<Expr>)

  datatype Else = NoElse | Else(body: seq<Expr>)

  datatype Param = Param(name: string, linear: bool)

  datatype Function = Function(generic: bool, params: seq<Param>, body: seq<Expr>)

  // ---------- Declared names ----------

  /** The owning variables declared anywhere inside an expression. */
  function Decls(e: Expr): set<string>
  {
    match e
    case Leaf | Var(_) | ArrayVar(_) => {}
    case Opaque(operands) => DeclsAll(operands)
    case Literal(elements) => DeclsAll(elements)
    case Alloc(count) => Decls(count)
    case Call(args, _, _) => DeclsAll(args)
    case Free(operand) => Decls(operand)
    case Deref(operand, _) => Decls(operand)
    case Index(base, index) => Decls(base) + Decls(index)
    case AddrOf(operand, _) => Decls(operand)
    case Binary(lhs, rhs) => Decls(lhs) + Decls(rhs)
    case Assign(lhs, rhs, _) => Decls(lhs) + Decls(rhs)
    case VarDef(_, _, init) => Bound(e) + Decls(init)
    case Return(result, _) => Decls(result)
    case If(cond, thn, NoElse) => Decls(cond) + DeclsAll(thn)
    case If(cond, thn, Else(els)) => Decls(cond) + DeclsAll(thn) + DeclsAll(els)
    case While(cond, body) => Decls(cond) + DeclsAll(body)
    case For(_, start, stop, body) => Decls(start) + Decls(stop) + DeclsAll(body)
    case Case(scrutinee, arms) => Decls(scrutinee) + DeclsArms(arms)
  }

  function DeclsAll(es: seq<Expr>): set<string>
  {
    if es == [] then {} else Decls(es[0]) + DeclsAll(es[1..])
  }

  function DeclsArms(arms: seq<Arm>): set<string>
  {
    if arms == [] then {} else DeclsAll(arms[0].body) + DeclsArms(arms[1..])
  }

  /** The owning variable a statement adds to the block that contains it. */
  function Bound(e: Expr): set<string>
  {
    if e.VarDef? && e.linear then {e.name} else {}
  }

  function BoundAll(b: seq<Expr>): set<string>
  {
    if b == [] then {} else Bound(b[0]) + BoundAll(b[1..])
  }

  /** An array that may be the memory of somebody else: array values are not copied when they are named. */
  predicate IsArray(e: Expr)
  {
    e.ArrayVar? || (e.Deref? && e.toArray)
  }

  /** Evaluating the expression neither branches nor declares nor assigns. */
  predicate Flat(e: Expr)
  {
    match e
    case Leaf | Var(_) | ArrayVar(_) => true
    case Opaque(operands) => FlatAll(operands)
    case Literal(elements) => FlatAll(elements)
    case Alloc(count) => Flat(count)
    case Call(args, _, _) => FlatAll(args)
    case Free(operand) => Flat(operand)
    case Deref(operand, _) => Flat(operand)
    case Index(base, index) => Flat(base) && Flat(index)
    case AddrOf(operand, _) => Flat(operand)
    case Binary(lhs, rhs) => Flat(lhs) && Flat(rhs)
    case _ => false
  }

  predicate FlatAll(es: seq<Expr>)
  {
    es == [] || (Flat(es[0]) && FlatAll(es[1..]))
  }

  /** The value of the expression may be an owner, or an array that is somebody else's memory.  The value of a block
      is that of its last statement, even of a declaration. */
  predicate Yields(e: Expr, all: set<string>)
  {
    match e
    case Var(name) => name in all
    case ArrayVar(_) => true
    case Deref(_, toArray) => toArray
    case VarDef(_, linear, init) => linear || Yields(init, all)
    case If(_, thn, els) =>
      || (thn != [] && Yields(thn[|thn| - 1], all))
      || (els.Else? && els.body != [] && Yields(els.body[|els.body| - 1], all))
    case Case(_, arms) => YieldsArms(arms, all)
    case _ => false
  }

  predicate YieldsArms(arms: seq<Arm>, all: set<string>)
  {
    arms != [] &&
    ((arms[0].body != [] && Yields(arms[0].body[|arms[0].body| - 1], all)) || YieldsArms(arms[1..], all))
  }

  predicate YieldsLast(b: seq<Expr>, all: set<string>)
  {
    b != [] && Yields(b[|b| - 1], all)
  }

  // ---------- The fragment ----------
  // In each predicate `scope` holds the owning variables visible at this point and `all` every owning
  // variable of the function, so that a name in `all` but not in `scope` is out of reach.

  /** A variable that is in scope: a visible owner, or no owner at all. */
  predicate Reachable(name: string, scope: set<string>, all: set<string>)
  {
    name in scope || name !in all
  }

  /** A well-formed expression in a position that receives no ownership. */
  predicate Scalar(e: Expr, scope: set<string>, all: set<string>)
    decreases e, 1
  {
    match e
    case Leaf | ArrayVar(_) => true
    case Var(name) => Reachable(name, scope, all)
    case Opaque(operands) => Operands(operands, scope, all) && FlatAll(operands)
    case Literal(elements) => Operands(elements, scope, all) && Ownerless(elements, all)
    case Alloc(count) => Scalar(count, scope, all) && Flat(count)
    case Call(args, takes, _) => Args(args, takes, scope, all)
    case Free(operand) => Owned(operand, scope, all)
    case Deref(operand, _) => Scalar(operand, scope, all)
    case Index(base, index) => Scalar(base, scope, all) && Scalar(index, scope, all)
    case AddrOf(operand, linear) => operand.Var? && (linear || operand.name !in all)
    case Binary(lhs, rhs) => Scalar(lhs, scope, all) && Scalar(rhs, scope, all)
    case Assign(lhs, rhs, _) =>
      && (lhs.Deref? || lhs.Index?)
      && Scalar(lhs, scope, all) && Scalar(rhs, scope, all) && (rhs.Var? ==> rhs.name !in all)
    case VarDef(_, _, _) => false
    case Return(_, _) => false
    case If(_, _, _) | While(_, _) | For(_, _, _, _) | Case(_, _) => Flow(e, scope, all) && !Yields(e, all)
  }

  /** A branch or a loop, whatever its value. */
  predicate Flow(e: Expr, scope: set<string>, all: set<string>)
    decreases e, 0
  {
    match e
    case If(cond, thn, els) =>
      && Scalar(cond, scope, all) && Block(thn, scope, scope, all)
      && (els.Else? ==> Block(els.body, scope, scope, all))
    case While(cond, body) => Scalar(cond, scope, all) && Block(body, scope, scope, all)
    case For(counter, start, stop, body) =>
      counter !in all && Scalar(start, scope, all) && Scalar(stop, scope, all) && Block(body, scope, scope, all)
    case Case(scrutinee, arms) => Scalar(scrutinee, scope, all) && Arms(arms, scope, all)
    case _ => false
  }

  /** A well-formed expression in a position that receives ownership: a visible owner, an allocation or a call. */
  predicate Owned(e: Expr, scope: set<string>, all: set<string>)
    decreases e, 0
  {
    match e
    case Var(name) => name in scope
    case Alloc(count) => Scalar(count, scope, all) && Flat(count)
    case Call(args, takes, owned) => owned && Args(args, takes, scope, all)
    case _ => false
  }

  predicate Operands(es: seq<Expr>, scope: set<string>, all: set<string>)
    decreases es, 0
  {
    es == [] || (Scalar(es[0], scope, all) && Operands(es[1..], scope, all))
  }

  /** None of the expressions is an owner's name. */
  predicate Ownerless(es: seq<Expr>, all: set<string>)
  {
    es == [] || ((es[0].Var? ==> es[0].name !in all) && Ownerless(es[1..], all))
  }

  /** Arguments beyond the parameter list belong to a variadic tail, which is not walked. */
  predicate Args(args: seq<Expr>, takes: seq<bool>, scope: set<string>, all: set<string>)
    decreases args, 1
  {
    if args == [] then takes == []
    else if takes == [] then Operands(args, scope, all) && FlatAll(args)
    else
      && (if takes[0] then Owned(args[0], scope, all) else Scalar(args[0], scope, all))
      && Args(args[1..], takes[1..], scope, all)
  }

  predicate Stmt(e: Expr, scope: set<string>, all: set<string>)
    decreases e, 2
  {
    match e
    case VarDef(name, true, init) => name in all && Owned(init, scope, all)
    case VarDef(name, false, init) => name !in all && Scalar(init, scope, all) && (init.Var? ==> init.name !in all)
    case If(_, _, _) | While(_, _) | For(_, _, _, _) | Case(_, _) => Flow(e, scope, all)
    case _ => Scalar(e, scope, all)
  }

  /** Owners are used only after their declaration, inside the block that declares them.  A block may declare a name
      twice, or one that another block has declared before, but none that is visible around it. */
  predicate Block(b: seq<Expr>, outer: set<string>, scope: set<string>, all: set<string>)
    decreases b, 0
  {
    b == [] ||
    (&& Stmt(b[0], scope, all) && Bound(b[0]) !! outer
     && Block(b[1..], outer, scope + Bound(b[0]), all))
  }

  predicate Arms(arms: seq<Arm>, scope: set<string>, all: set<string>)
    decreases arms, 0
  {
    arms == [] ||
    (arms[0].bindings !! all && Block(arms[0].body, scope, scope, all) && Arms(arms[1..], scope, all))
  }

  /** What a function returns: owned memory, or something that owns nothing. */
  predicate Result(e: Expr, scope: set<string>, all: set<string>)
  {
    Owned(e, scope, all) || (Scalar(e, scope, all) && !e.Alloc? && !(e.Call? && e.owned) && (e.Var? ==> e.name !in all))
  }

  function OwningParams(params: seq<Param>): set<string>
  {
    if params == [] then {}
    else (if params[0].linear then {params[0].name} else {}) + OwningParams(params[1..])
  }

  function PlainParams(params: seq<Param>): set<string>
  {
    if params == [] then {}
    else (if params[0].linear then {} else {params[0].name}) + PlainParams(params[1..])
  }

  predicate DistinctParams(params: seq<Param>)
  {
    params == [] ||
    ((params[0].linear ==> params[0].name !in OwningParams(params[1..])) && DistinctParams(params[1..]))
  }

  /** The owning variables in reach after a block's statements. */
  function ScopeAfter(b: seq<Expr>, scope: set<string>): set<string>
  {
    if b == [] then scope else ScopeAfter(b[1..], scope + Bound(b[0]))
  }

  function Owners(f: Function): set<string>
  {
    OwningParams(f.params) + DeclsAll(f.body)
  }

  /** The statements of a body before a `return` at its end, and what is returned. */
  function Leading(b: seq<Expr>): seq<Expr>
  {
    if b != [] && b[|b| - 1].Return? then b[..|b| - 1] else b
  }

  predicate Returns(b: seq<Expr>)
  {
    b != [] && b[|b| - 1].Return?
  }

  // ---------- Array names ----------
  // Code generation opens a symbol scope for functions and `for` bodies only, so a name declared in the body of an
  // `if`, a `while` or a `case` still means the same afterwards.

  /** The names read as arrays. */
  function Arrays(e: Expr): set<string>
  {
    match e
    case Leaf | Var(_) => {}
    case ArrayVar(name) => {name}
    case Opaque(operands) => ArraysAll(operands)
    case Literal(elements) => ArraysAll(elements)
    case Alloc(count) => Arrays(count)
    case Call(args, _, _) => ArraysAll(args)
    case Free(operand) => Arrays(operand)
    case Deref(operand, _) => Arrays(operand)
    case Index(base, index) => Arrays(base) + Arrays(index)
    case AddrOf(operand, _) => Arrays(operand)
    case Binary(lhs, rhs) => Arrays(lhs) + Arrays(rhs)
    case Assign(lhs, rhs, _) => Arrays(lhs) + Arrays(rhs)
    case VarDef(_, _, init) => Arrays(init)
    case Return(result, _) => Arrays(result)
    case If(cond, thn, els) => Arrays(cond) + ArraysAll(thn) + if els.Else? then ArraysAll(els.body) else {}
    case While(cond, body) => Arrays(cond) + ArraysAll(body)
    case For(_, start, stop, body) => Arrays(start) + Arrays(stop) + ArraysAll(body)
    case Case(scrutinee, arms) => Arrays(scrutinee) + ArraysArms(arms)
  }

  function ArraysAll(es: seq<Expr>): set<string>
  {
    if es == [] then {} else Arrays(es[0]) + ArraysAll(es[1..])
  }

  function ArraysArms(arms: seq<Arm>): set<string>
  {
    if arms == [] then {} else ArraysAll(arms[0].body) + ArraysArms(arms[1..])
  }

  /** The name of a variable that owns nothing a statement adds to its block. */
  function Plain(e: Expr): set<string>
  {
    if e.VarDef? && !e.linear then {e.name} else {}
  }

  /** Array names are used only after their declaration, inside the block that declares them; a name from outside,
      a parameter's say, is one of `seen` from the start.  No block declares a name read as an array that is visible
      around it, except the body of a `for`; and no pattern binds one. */
  predicate Placed(e: Expr, seen: set<string>, arrays: set<string>)
    decreases e, 0
  {
    match e
    case Leaf | Var(_) => true
    case ArrayVar(name) => name in seen
    case Opaque(operands) => PlacedAll(operands, seen, arrays)
    case Literal(elements) => PlacedAll(elements, seen, arrays)
    case Alloc(count) => Placed(count, seen, arrays)
    case Call(args, _, _) => PlacedAll(args, seen, arrays)
    case Free(operand) => Placed(operand, seen, arrays)
    case Deref(operand, _) => Placed(operand, seen, arrays)
    case Index(base, index) => Placed(base, seen, arrays) && Placed(index, seen, arrays)
    case AddrOf(operand, _) => Placed(operand, seen, arrays)
    case Binary(lhs, rhs) => Placed(lhs, seen, arrays) && Placed(rhs, seen, arrays)
    case Assign(lhs, rhs, _) => Placed(lhs, seen, arrays) && Placed(rhs, seen, arrays)
    case VarDef(_, _, init) => Placed(init, seen, arrays)
    case Return(result, _) => Placed(result, seen, arrays)
    case If(cond, thn, els) =>
      && Placed(cond, seen, arrays) && PlacedBlock(thn, seen, seen, arrays)
      && (els.Else? ==> PlacedBlock(els.body, seen, seen, arrays))
    case While(cond, body) => Placed(cond, seen, arrays) && PlacedBlock(body, seen, seen, arrays)
    case For(_, start, stop, body) =>
      Placed(start, seen, arrays) && Placed(stop, seen, arrays) && PlacedBlock(body, {}, seen, arrays)
    case Case(scrutinee, arms) => Placed(scrutinee, seen, arrays) && PlacedArms(arms, seen, arrays)
  }

  predicate PlacedAll(es: seq<Expr>, seen: set<string>, arrays: set<string>)
    decreases es, 0
  {
    es == [] || (Placed(es[0], seen, arrays) && PlacedAll(es[1..], seen, arrays))
  }

  predicate PlacedBlock(b: seq<Expr>, outer: set<string>, seen: set<string>, arrays: set<string>)
    decreases b, 0
  {
    b == [] ||
    (&& Placed(b[0], seen, arrays) && Plain(b[0]) * arrays !! outer
     && PlacedBlock(b[1..], outer, seen + Plain(b[0]), arrays))
  }

  predicate PlacedArms(arms: seq<Arm>, seen: set<string>, arrays: set<string>)
    decreases arms, 0
  {
    arms == [] ||
    (&& arms[0].bindings !! arrays && PlacedBlock(arms[0].body, seen, seen, arrays)
     && PlacedArms(arms[1..], seen, arrays))
  }

  /** The names of variables that own nothing, declared anywhere inside an expression. */
  function Plains(e: Expr): set<string>
  {
    match e
    case Leaf | Var(_) | ArrayVar(_) => {}
    case Opaque(operands) => PlainsAll(operands)
    case Literal(elements) => PlainsAll(elements)
    case Alloc(count) => Plains(count)
    case Call(args, _, _) => PlainsAll(args)
    case Free(operand) => Plains(operand)
    case Deref(operand, _) => Plains(operand)
    case Index(base, index) => Plains(base) + Plains(index)
    case AddrOf(operand, _) => Plains(operand)
    case Binary(lhs, rhs) => Plains(lhs) + Plains(rhs)
    case Assign(lhs, rhs, _) => Plains(lhs) + Plains(rhs)
    case VarDef(_, _, init) => Plain(e) + Plains(init)
    case Return(result, _) => Plains(result)
    case If(cond, thn, els) => Plains(cond) + PlainsAll(thn) + if els.Else? then PlainsAll(els.body) else {}
    case While(cond, body) => Plains(cond) + PlainsAll(body)
    case For(_, start, stop, body) => Plains(start) + Plains(stop) + PlainsAll(body)
    case Case(scrutinee, arms) => Plains(scrutinee) + PlainsArms(arms)
  }

  function PlainsAll(es: seq<Expr>): set<string>
  {
    if es == [] then {} else Plains(es[0]) + PlainsAll(es[1..])
  }

  function PlainsArms(arms: seq<Arm>): set<string>
  {
    if arms == [] then {} else PlainsAll(arms[0].body) + PlainsArms(arms[1..])
  }

  /** The array names visible at the start of a function: its parameters', and those it does not declare at all. */
  function Known(f: Function): set<string>
  {
    PlainParams(f.params) + (ArraysAll(f.body) - PlainsAll(f.body))
  }

  predicate Lexical(f: Function)
  {
    PlacedBlock(f.body, {}, Known(f), ArraysAll(f.body))
  }

  // ---------- Functions ----------

  /** A function of the fragment, with a `return` only as its last statement. */
  predicate WellFormed(f: Function)
  {
    var inner, all := OwningParams(f.params), Owners(f);
    && DistinctParams(f.params) && PlainParams(f.params) !! all
    && Block(Leading(f.body), {}, inner, all)
    && (if Returns(f.body) then Result(f.body[|f.body| - 1].result, ScopeAfter(Leading(f.body), inner), all)
        else !YieldsLast(f.body, all))
    && Lexical(f)
  }
}
