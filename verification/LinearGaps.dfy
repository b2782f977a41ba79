/** What the ownership checker does not look at, as conditions on the program text.  They are read off along the
    checker's own pass, from the states it goes through. */
module LinearGaps {
  import opened LinearSyntax
  import opened LinearChecker

  /** Whose memory an array variable is: nobody's that is tracked, that of a variable, or that of an owner whose
      name has been given to another. */
  datatype Root = Unowned | Of(name: string) | Lost

  type Roots = map<string, Root>

  /** What else is known at a point of the pass: the owners passed to calls whose remaining arguments are still
      being evaluated, and whose memory the array variables are. */
  datatype Ties = Ties(pending: set<string>, roots: Roots)

  function RootOf(roots: Roots, e: Expr): Root
  {
    match e
    case Var(x) => Of(x)
    case ArrayVar(a) => if a in roots then roots[a] else Unowned
    case Deref(operand, true) => RootOf(roots, operand)
    case _ => Unowned
  }

  /** The memory is still there. */
  predicate Alive(vars: Vars, t: Ties, root: Root)
  {
    match root
    case Unowned => true
    case Of(x) => x in vars ==> vars[x] == Unconsumed || x in t.pending
    case Lost => false
  }

  /** If the value is an array, it can be read. */
  predicate Loads(vars: Vars, t: Ties, e: Expr)
  {
    IsArray(e) ==> Alive(vars, t, RootOf(t.roots, e))
  }

  function TakenName(e: Expr): set<string>
  {
    if e.Var? then {e.name} else {}
  }

  function Awaiting(t: Ties, e: Expr): Ties
  {
    t.(pending := t.pending + TakenName(e))
  }

  // ---------- What goes wrong unnoticed ----------
  // Some operands are not `walked`: the checker's state is after them what it was before.

  function After(walked: bool, c: Chk, e: Expr): Chk
  {
    if walked then CheckExpr(c, e) else c
  }

  function AfterOwned(walked: bool, c: Chk, e: Expr): Chk
  {
    if walked then CheckOwned(c, e) else c
  }

  /** Nothing goes wrong that the checker overlooks: what an expression looks through is still there when it
      does so, after its later operands have run; nothing owned is dropped, or taken where the checker does not
      look; no live owner's name is given to another or left behind; and no array is read after its memory is gone. */
  predicate Clear(walked: bool, c: Chk, t: Ties, e: Expr)
    decreases e, 1
  {
    match e
    case Leaf | Var(_) | ArrayVar(_) | AddrOf(_, _) => true
    case Opaque(operands) => ClearAll(false, c, t, operands)
    case Literal(elements) => ClearAll(walked, c, t, elements)
    case Alloc(_) => false
    case Call(args, takes, owned) => !owned && ClearArgs(walked, c, t, args, takes)
    case Free(operand) => ClearOwned(walked, c, t, operand)
    case Deref(operand, _) =>
      Clear(walked, c, t, operand) && Alive(After(walked, c, operand).vars, t, RootOf(t.roots, operand))
    case Index(base, index) =>
      var c1 := After(walked, c, base);
      && Clear(walked, c, t, base) && Clear(walked, c1, t, index)
      && Alive(After(walked, c1, index).vars, t, RootOf(t.roots, base))
    case Binary(lhs, rhs) =>
      var c1 := After(walked, c, lhs);
      var c2 := After(walked, c1, rhs);
      Clear(walked, c, t, lhs) && Clear(walked, c1, t, rhs) && Loads(c2.vars, t, lhs) && Loads(c2.vars, t, rhs)
    case Assign(lhs, rhs, _) =>
      var c1 := After(walked, c, lhs);
      var c2 := After(walked, c1, rhs);
      && ClearPlace(walked, c, t, lhs) && Clear(walked, c1, t, rhs)
      && Loads(c2.vars, t, rhs) && Alive(c2.vars, t, TargetRoot(t.roots, lhs))
    case VarDef(_, _, _) => true
    case Return(_, _) => true
    case If(cond, thn, els) =>
      var c0 := CheckExpr(c, cond);
      var c1 := CheckBlock(c0, thn);
      && Clear(walked, c, t, cond) && ClearInner(c0, t, thn)
      && (els.Else? ==> ClearInner(c1.(vars := Overwrite(c1.vars, c0.vars)), t, els.body))
    case While(cond, body) => Clear(walked, c, t, cond) && ClearInner(CheckExpr(c, cond), t, body)
    case For(_, start, stop, body) =>
      var c1 := CheckExpr(c, start);
      Clear(walked, c, t, start) && Clear(walked, c1, t, stop) && ClearInner(CheckExpr(c1, stop), t, body)
    case Case(scrutinee, arms) =>
      var c0 := CheckExpr(c, scrutinee);
      Clear(walked, c, t, scrutinee) && ClearArms(c0, c0.vars, t, arms)
  }

  /** The place an assignment stores to can be worked out. */
  predicate ClearPlace(walked: bool, c: Chk, t: Ties, lhs: Expr)
    decreases lhs, 2
  {
    match lhs
    case Deref(operand, _) => Clear(walked, c, t, operand)
    case Index(base, index) => Clear(walked, c, t, base) && Clear(walked, After(walked, c, base), t, index)
    case _ => Clear(walked, c, t, lhs)
  }

  function TargetRoot(roots: Roots, lhs: Expr): Root
  {
    match lhs
    case Deref(operand, _) => RootOf(roots, operand)
    case Index(base, _) => RootOf(roots, base)
    case _ => Unowned
  }

  predicate ClearOwned(walked: bool, c: Chk, t: Ties, e: Expr)
    decreases e, 0
  {
    match e
    case Var(_) => walked
    case Alloc(count) => Clear(false, c, t, count)
    case Call(args, takes, _) => ClearArgs(walked, c, t, args, takes)
    case _ => true
  }

  /** Operands whose values are copied. */
  predicate ClearAll(walked: bool, c: Chk, t: Ties, es: seq<Expr>)
    decreases es, 0
  {
    es == [] ||
    (var c1 := After(walked, c, es[0]);
     Clear(walked, c, t, es[0]) && Loads(c1.vars, t, es[0]) && ClearAll(walked, c1, t, es[1..]))
  }

  predicate ClearArgs(walked: bool, c: Chk, t: Ties, args: seq<Expr>, takes: seq<bool>)
    decreases args, 1
  {
    if args == [] then true
    else if takes == [] then ClearAll(false, c, t, args)
    else if takes[0] then
      && ClearOwned(walked, c, t, args[0])
      && ClearArgs(walked, AfterOwned(walked, c, args[0]), Awaiting(t, args[0]), args[1..], takes[1..])
    else
      var c1 := After(walked, c, args[0]);
      && Clear(walked, c, t, args[0]) && Loads(c1.vars, t, args[0])
      && ClearArgs(walked, c1, t, args[1..], takes[1..])
  }

  /** A declaration may not take the name of an owner that still has something; `own` are the block's so far. */
  predicate ClearStmt(c: Chk, t: Ties, own: set<string>, e: Expr)
    decreases e, 2
  {
    if !e.VarDef? then Clear(true, c, t, e)
    else if e.linear then
      && ClearOwned(true, c, t, e.init)
      && (e.name in own && e.name in CheckOwned(c, e.init).vars ==> CheckOwned(c, e.init).vars[e.name] == Consumed)
    else Clear(true, c, t, e.init)
  }

  /** A moved owner's arrays are the new owner's; those of an earlier owner of the name are nobody's. */
  function RootsAfter(roots: Roots, e: Expr): Roots
  {
    if !e.VarDef? then roots
    else if e.linear then
      map a | a in roots :: if e.init.Var? && roots[a] == Of(e.init.name) then Of(e.name)
                            else if roots[a] == Of(e.name) then Lost
                            else roots[a]
    else if IsArray(e.init) && RootOf(roots, e.init) != Unowned then roots[e.name := RootOf(roots, e.init)]
    else roots - {e.name}
  }

  function TiesAfter(t: Ties, e: Expr): Ties
  {
    t.(roots := RootsAfter(t.roots, e))
  }

  function TiesAfterAll(t: Ties, b: seq<Expr>): Ties
    decreases |b|
  {
    if b == [] then t else TiesAfterAll(TiesAfter(t, b[0]), b[1..])
  }

  predicate ClearBlock(c: Chk, t: Ties, own: set<string>, b: seq<Expr>)
    decreases b, 0
  {
    b == [] ||
    (&& ClearStmt(c, t, own, b[0])
     && ClearBlock(CheckStmt(c, b[0]), TiesAfter(t, b[0]), own + Bound(b[0]), b[1..]))
  }

  /** The owners that a block declares have been consumed when it is left. */
  predicate Settles(vars: Vars, b: seq<Expr>)
  {
    forall x | x in BoundAll(b) && x in vars :: vars[x] == Consumed
  }

  predicate ClearInner(c: Chk, t: Ties, b: seq<Expr>)
    decreases b, 1
  {
    ClearBlock(c, t, {}, b) && Settles(CheckBlock(c, b).vars, b)
  }

  predicate ClearArms(c: Chk, before: Vars, t: Ties, arms: seq<Arm>)
    decreases arms, 0
  {
    arms == [] ||
    (var c0 := c.(vars := Overwrite(c.vars, before));
     ClearInner(c0, t, arms[0].body) && ClearArms(CheckBlock(c0, arms[0].body), before, t, arms[1..]))
  }

  /** What is returned: an owner, or a value that is copied. */
  predicate ClearResult(c: Chk, t: Ties, e: Expr)
  {
    if (e.Var? && e.name in c.vars) || Discards(e) then ClearOwned(true, c, t, e)
    else Clear(true, c, t, e) && Loads(CheckExpr(c, e).vars, t, e)
  }

  const NoTies := Ties({}, map[])

  /** The condition on a whole function. */
  predicate Unobstructed(f: Function)
  {
    var c := Chk(Enter(f.params, map[]), false);
    var b := Leading(f.body);
    && ClearBlock(c, NoTies, OwningParams(f.params), b)
    && (Returns(f.body) ==> ClearResult(CheckBlock(c, b), TiesAfterAll(NoTies, b), f.body[|f.body| - 1].result))
  }

  // ---------- Where the checker is too strict ----------

  /** The owners whose names stand where an expression takes them. */
  function Taken(e: Expr): set<string>
  {
    match e
    case Literal(elements) => TakenAll(elements)
    case Call(args, takes, _) => TakenArgs(args, takes)
    case Free(operand) => TakenName(operand) + Taken(operand)
    case Deref(operand, _) => Taken(operand)
    case Index(base, index) => Taken(base) + Taken(index)
    case Binary(lhs, rhs) => Taken(lhs) + Taken(rhs)
    case Assign(lhs, rhs, _) => Taken(lhs) + Taken(rhs)
    case _ => {}
  }

  function TakenAll(es: seq<Expr>): set<string>
  {
    if es == [] then {} else Taken(es[0]) + TakenAll(es[1..])
  }

  function TakenArgs(args: seq<Expr>, takes: seq<bool>): set<string>
  {
    if args == [] || takes == [] then {}
    else (if takes[0] then TakenName(args[0]) else {}) + Taken(args[0]) + TakenArgs(args[1..], takes[1..])
  }

  /** No walked operand looks through an owner that an earlier argument of the same call passes, and no `for` takes
      an owner to work out its bounds. */
  predicate Prompt(pending: set<string>, e: Expr)
    decreases e, 1
  {
    match e
    case Literal(elements) => PromptAll(pending, elements)
    case Call(args, takes, _) => PromptArgs(pending, args, takes)
    case Free(operand) => Prompt(pending, operand)
    case Deref(operand, _) => (operand.Var? ==> operand.name !in pending) && Prompt(pending, operand)
    case Index(base, index) => (base.Var? ==> base.name !in pending) && Prompt(pending, base) && Prompt(pending, index)
    case Binary(lhs, rhs) => Prompt(pending, lhs) && Prompt(pending, rhs)
    case Assign(lhs, rhs, _) => Prompt(pending, lhs) && Prompt(pending, rhs)
    case VarDef(_, _, init) => Prompt(pending, init)
    case Return(result, _) => Prompt(pending, result)
    case If(cond, thn, els) =>
      Prompt(pending, cond) && PromptAll(pending, thn) && (els.Else? ==> PromptAll(pending, els.body))
    case While(cond, body) => Prompt(pending, cond) && PromptAll(pending, body)
    case For(_, start, stop, body) =>
      && Taken(start) == {} && Taken(stop) == {}
      && Prompt(pending, start) && Prompt(pending, stop) && PromptAll(pending, body)
    case Case(scrutinee, arms) => Prompt(pending, scrutinee) && PromptArms(pending, arms)
    case _ => true
  }

  predicate PromptAll(pending: set<string>, es: seq<Expr>)
    decreases es, 0
  {
    es == [] || (Prompt(pending, es[0]) && PromptAll(pending, es[1..]))
  }

  predicate PromptArgs(pending: set<string>, args: seq<Expr>, takes: seq<bool>)
    decreases args, 0
  {
    args == [] || takes == [] ||
    (Prompt(pending, args[0])
     && PromptArgs(if takes[0] then pending + TakenName(args[0]) else pending, args[1..], takes[1..]))
  }

  predicate PromptArms(pending: set<string>, arms: seq<Arm>)
    decreases arms, 0
  {
    arms == [] || (PromptAll(pending, arms[0].body) && PromptArms(pending, arms[1..]))
  }

  /** No owner is taken in an operand that is not walked. */
  predicate Overt(walked: bool, e: Expr)
    decreases e, 0
  {
    match e
    case Leaf | Var(_) | ArrayVar(_) | AddrOf(_, _) => true
    case Opaque(operands) => OvertAll(false, operands)
    case Literal(elements) => OvertAll(walked, elements)
    case Alloc(count) => Overt(false, count)
    case Call(args, takes, _) => OvertArgs(walked, args, takes)
    case Free(operand) => (operand.Var? ==> walked) && Overt(walked, operand)
    case Deref(operand, _) => Overt(walked, operand)
    case Index(base, index) => Overt(walked, base) && Overt(walked, index)
    case Binary(lhs, rhs) => Overt(walked, lhs) && Overt(walked, rhs)
    case Assign(lhs, rhs, _) => Overt(walked, lhs) && Overt(walked, rhs)
    case VarDef(_, _, init) => Overt(walked, init)
    case Return(result, _) => Overt(walked, result)
    case If(cond, thn, els) => Overt(walked, cond) && OvertAll(walked, thn) && (els.Else? ==> OvertAll(walked, els.body))
    case While(cond, body) => Overt(walked, cond) && OvertAll(walked, body)
    case For(_, start, stop, body) => Overt(walked, start) && Overt(walked, stop) && OvertAll(walked, body)
    case Case(scrutinee, arms) => Overt(walked, scrutinee) && OvertArms(walked, arms)
  }

  predicate OvertAll(walked: bool, es: seq<Expr>)
    decreases es, 0
  {
    es == [] || (Overt(walked, es[0]) && OvertAll(walked, es[1..]))
  }

  predicate OvertArgs(walked: bool, args: seq<Expr>, takes: seq<bool>)
    decreases args, 1
  {
    if args == [] then true
    else if takes == [] then OvertAll(false, args)
    else
      && (takes[0] && args[0].Var? ==> walked) && Overt(walked, args[0])
      && OvertArgs(walked, args[1..], takes[1..])
  }

  predicate OvertArms(walked: bool, arms: seq<Arm>)
    decreases arms, 0
  {
    arms == [] || (OvertAll(walked, arms[0].body) && OvertArms(walked, arms[1..]))
  }

  // ---------- What is taken unseen is overlooked ----------

  lemma {:induction false} ScalarOvert(walked: bool, c: Chk, t: Ties, e: Expr, scope: set<string>, all: set<string>)
    requires Scalar(e, scope, all) && (walked || Flat(e)) && Clear(walked, c, t, e)
    ensures Overt(walked, e)
    decreases e, 3
  {
    match e
    case Leaf | Var(_) | ArrayVar(_) | AddrOf(_, _) =>
    case Opaque(operands) => OperandsOvert(false, c, t, operands, scope, all);
    case Literal(elements) => OperandsOvert(walked, c, t, elements, scope, all);
    case Call(args, takes, _) => ArgsOvert(walked, c, t, args, takes, scope, all);
    case Free(operand) => OwnedOvert(walked, c, t, operand, scope, all);
    case Deref(operand, _) => ScalarOvert(walked, c, t, operand, scope, all);
    case Index(base, index) =>
      ScalarOvert(walked, c, t, base, scope, all);
      ScalarOvert(walked, After(walked, c, base), t, index, scope, all);
    case Binary(lhs, rhs) =>
      ScalarOvert(walked, c, t, lhs, scope, all);
      ScalarOvert(walked, After(walked, c, lhs), t, rhs, scope, all);
    case Assign(lhs, rhs, _) =>
      PlaceOvert(walked, c, t, lhs, scope, all);
      ScalarOvert(walked, After(walked, c, lhs), t, rhs, scope, all);
    case If(_, _, _) | While(_, _) | For(_, _, _, _) | Case(_, _) => FlowOvert(c, t, e, scope, all);
  }

  lemma {:induction false} PlaceOvert(walked: bool, c: Chk, t: Ties, lhs: Expr, scope: set<string>, all: set<string>)
    requires (lhs.Deref? || lhs.Index?) && Scalar(lhs, scope, all) && (walked || Flat(lhs))
    requires ClearPlace(walked, c, t, lhs)
    ensures Overt(walked, lhs)
    decreases lhs, 4
  {
    match lhs
    case Deref(operand, _) => ScalarOvert(walked, c, t, operand, scope, all);
    case Index(base, index) =>
      ScalarOvert(walked, c, t, base, scope, all);
      ScalarOvert(walked, After(walked, c, base), t, index, scope, all);
  }

  lemma {:induction false} OwnedOvert(walked: bool, c: Chk, t: Ties, e: Expr, scope: set<string>, all: set<string>)
    requires Owned(e, scope, all) && (walked || Flat(e)) && ClearOwned(walked, c, t, e)
    ensures Overt(walked, e) && (e.Var? ==> walked)
    decreases e, 2
  {
    match e
    case Var(_) =>
    case Alloc(count) => ScalarOvert(false, c, t, count, scope, all);
    case Call(args, takes, _) => ArgsOvert(walked, c, t, args, takes, scope, all);
  }

  lemma {:induction false} OperandsOvert(
    walked: bool, c: Chk, t: Ties, es: seq<Expr>, scope: set<string>, all: set<string>)
    requires Operands(es, scope, all) && (walked || FlatAll(es)) && ClearAll(walked, c, t, es)
    ensures OvertAll(walked, es)
    decreases es, 0
  {
    if es != [] {
      ScalarOvert(walked, c, t, es[0], scope, all);
      OperandsOvert(walked, After(walked, c, es[0]), t, es[1..], scope, all);
    }
  }

  lemma {:induction false} ArgsOvert(
    walked: bool, c: Chk, t: Ties, args: seq<Expr>, takes: seq<bool>, scope: set<string>, all: set<string>)
    requires Args(args, takes, scope, all) && (walked || FlatAll(args)) && ClearArgs(walked, c, t, args, takes)
    ensures OvertArgs(walked, args, takes)
    decreases args, 1
  {
    if args == [] {
    } else if takes == [] {
      OperandsOvert(false, c, t, args, scope, all);
    } else if takes[0] {
      OwnedOvert(walked, c, t, args[0], scope, all);
      ArgsOvert(walked, AfterOwned(walked, c, args[0]), Awaiting(t, args[0]), args[1..], takes[1..], scope, all);
    } else {
      ScalarOvert(walked, c, t, args[0], scope, all);
      ArgsOvert(walked, After(walked, c, args[0]), t, args[1..], takes[1..], scope, all);
    }
  }

  lemma {:induction false} FlowOvert(c: Chk, t: Ties, e: Expr, scope: set<string>, all: set<string>)
    requires Flow(e, scope, all) && Clear(true, c, t, e)
    ensures Overt(true, e)
    decreases e, 0
  {
    match e
    case If(cond, thn, els) =>
      var c0 := CheckExpr(c, cond);
      var c1 := CheckBlock(c0, thn);
      ScalarOvert(true, c, t, cond, scope, all);
      BlockOvert(c0, t, {}, thn, scope, scope, all);
      if els.Else? {
        BlockOvert(c1.(vars := Overwrite(c1.vars, c0.vars)), t, {}, els.body, scope, scope, all);
      }
    case While(cond, body) =>
      ScalarOvert(true, c, t, cond, scope, all);
      BlockOvert(CheckExpr(c, cond), t, {}, body, scope, scope, all);
    case For(_, start, stop, body) =>
      var c1 := CheckExpr(c, start);
      ScalarOvert(true, c, t, start, scope, all);
      ScalarOvert(true, c1, t, stop, scope, all);
      BlockOvert(CheckExpr(c1, stop), t, {}, body, scope, scope, all);
    case Case(scrutinee, arms) =>
      var c0 := CheckExpr(c, scrutinee);
      ScalarOvert(true, c, t, scrutinee, scope, all);
      ArmsOvert(c0, c0.vars, t, arms, scope, all);
  }

  lemma {:induction false} StmtOvert(c: Chk, t: Ties, own: set<string>, e: Expr, scope: set<string>, all: set<string>)
    requires Stmt(e, scope, all) && ClearStmt(c, t, own, e)
    ensures Overt(true, e)
    decreases e, 4
  {
    if e.VarDef? && e.linear {
      OwnedOvert(true, c, t, e.init, scope, all);
    } else if e.VarDef? {
      ScalarOvert(true, c, t, e.init, scope, all);
    } else if e.If? || e.While? || e.For? || e.Case? {
      FlowOvert(c, t, e, scope, all);
    } else {
      ScalarOvert(true, c, t, e, scope, all);
    }
  }

  lemma {:induction false} BlockOvert(
    c: Chk, t: Ties, own: set<string>, b: seq<Expr>, outer: set<string>, scope: set<string>, all: set<string>)
    requires Block(b, outer, scope, all) && ClearBlock(c, t, own, b)
    ensures OvertAll(true, b)
    decreases b, 0
  {
    if b != [] {
      StmtOvert(c, t, own, b[0], scope, all);
      BlockOvert(
        CheckStmt(c, b[0]), TiesAfter(t, b[0]), own + Bound(b[0]), b[1..], outer, scope + Bound(b[0]), all);
    }
  }

  lemma {:induction false} ArmsOvert(
    c: Chk, before: Vars, t: Ties, arms: seq<Arm>, scope: set<string>, all: set<string>)
    requires Arms(arms, scope, all) && ClearArms(c, before, t, arms)
    ensures OvertArms(true, arms)
    decreases arms, 0
  {
    if arms != [] {
      var c0 := c.(vars := Overwrite(c.vars, before));
      BlockOvert(c0, t, {}, arms[0].body, scope, scope, all);
      ArmsOvert(CheckBlock(c0, arms[0].body), before, t, arms[1..], scope, all);
    }
  }
}
