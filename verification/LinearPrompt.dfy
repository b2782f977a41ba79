/** What is accepted looks through no owner passed earlier in the same call, and takes none to bound a `for`. */
module LinearPrompt {
  import opened LinearSyntax
  import opened LinearChecker
  import opened LinearFlow
  import opened LinearGaps
  import opened LinearCalm
  import opened LinearPaths
  import opened LinearStraight
  import opened LinearRefusals

  // ---------- Straight-line code ----------

  ghost predicate Used(c: Chk, names: set<string>)
  {
    forall x | x in names :: x in c.vars && c.vars[x] == Consumed
  }

  lemma {:induction false} ScalarPrompt(c: Chk, e: Expr, scope: set<string>, all: set<string>, pending: set<string>)
    requires (Scalar(e, scope, all) || Owned(e, scope, all)) && Straight(e) && scope <= c.vars.Keys
    requires Used(c, pending) && !CheckExpr(c, e).failed
    ensures Prompt(pending, e)
    decreases e, 1
  {
    match e
    case Leaf | Var(_) | ArrayVar(_) | Opaque(_) | Alloc(_) | AddrOf(_, _) =>
    case Literal(elements) => OperandsPrompt(c, elements, scope, all, pending);
    case Call(args, takes, _) => ArgsPrompt(c, args, takes, scope, all, pending);
    case Free(operand) =>
      if !operand.Var? {
        ScalarPrompt(c, operand, scope, all, pending);
      }
    case Deref(operand, _) =>
      if !operand.Var? {
        ScalarPrompt(c, operand, scope, all, pending);
      }
    case Index(base, index) => PairPrompt(c, e, base, index, scope, all, pending);
    case Binary(lhs, rhs) => PairPrompt(c, e, lhs, rhs, scope, all, pending);
    case Assign(lhs, rhs, _) =>
      if rhs.Var? {
        assert CheckExpr(CheckExpr(c, lhs), rhs) == CheckExpr(c, lhs);
        OwnedGrows(CheckExpr(c, lhs), rhs);
      }
      PairPrompt(c, e, lhs, rhs, scope, all, pending);
  }

  lemma {:induction false} PairPrompt(
    c: Chk, whole: Expr, lhs: Expr, rhs: Expr, scope: set<string>, all: set<string>, pending: set<string>)
    requires lhs < whole && rhs < whole
    requires Scalar(lhs, scope, all) && Straight(lhs) && Scalar(rhs, scope, all) && Straight(rhs)
    requires scope <= c.vars.Keys && Used(c, pending) && !CheckExpr(CheckExpr(c, lhs), rhs).failed
    ensures Prompt(pending, lhs) && Prompt(pending, rhs)
    decreases whole, 0
  {
    ExprGrows(c, lhs);
    ExprGrows(CheckExpr(c, lhs), rhs);
    StraightDecls(lhs, scope, all);
    ScalarPrompt(c, lhs, scope, all, pending);
    ScalarPrompt(CheckExpr(c, lhs), rhs, scope, all, pending);
  }

  lemma {:induction false} OperandsPrompt(
    c: Chk, es: seq<Expr>, scope: set<string>, all: set<string>, pending: set<string>)
    requires Operands(es, scope, all) && StraightAll(es) && scope <= c.vars.Keys
    requires Used(c, pending) && !CheckElements(c, es).failed
    ensures PromptAll(pending, es)
    decreases es, 0
  {
    if es != [] {
      var c1 := CheckOwned(c, es[0]);
      OwnedGrows(c, es[0]);
      ElementsGrow(c1, es[1..]);
      StraightDecls(es[0], scope, all);
      if !es[0].Var? {
        ScalarPrompt(c, es[0], scope, all, pending);
      }
      OperandsPrompt(c1, es[1..], scope, all, pending);
    }
  }

  lemma {:induction false} ArgsPrompt(
    c: Chk, args: seq<Expr>, takes: seq<bool>, scope: set<string>, all: set<string>, pending: set<string>)
    requires Args(args, takes, scope, all) && StraightAll(args) && scope <= c.vars.Keys
    requires Used(c, pending) && !CheckArgs(c, args, takes).failed
    ensures PromptArgs(pending, args, takes)
    decreases args, 0
  {
    if args != [] && takes != [] {
      var c1 := if takes[0] then CheckOwned(c, args[0]) else CheckExpr(c, args[0]);
      OwnedGrows(c, args[0]);
      ExprGrows(c, args[0]);
      ArgsGrow(c1, args[1..], takes[1..]);
      StraightDecls(args[0], scope, all);
      if !args[0].Var? {
        ScalarPrompt(c, args[0], scope, all, pending);
      }
      ArgsPrompt(c1, args[1..], takes[1..], scope, all, if takes[0] then pending + TakenName(args[0]) else pending);
    }
  }

  /** So is an initializer or a result. */
  lemma OwnedPrompt(c: Chk, e: Expr, scope: set<string>, all: set<string>)
    requires (Scalar(e, scope, all) || Owned(e, scope, all)) && Straight(e) && scope <= c.vars.Keys
    requires !CheckOwned(c, e).failed
    ensures Prompt({}, e)
  {
    if !e.Var? {
      ScalarPrompt(c, e, scope, all, {});
    }
  }

  // ---------- Owners that are taken ----------

  /** The owners had something before, and have been consumed after. */
  predicate Emptied(names: set<string>, before: Vars, after: Vars)
  {
    forall x | x in names :: Pending(before, x) && x in after && after[x] == Consumed
  }

  lemma {:induction false} TakenEmptied(c: Chk, e: Expr, scope: set<string>, all: set<string>)
    requires (Scalar(e, scope, all) || Owned(e, scope, all)) && Straight(e) && scope <= c.vars.Keys
    requires !CheckExpr(c, e).failed
    ensures Taken(e) <= scope && Emptied(Taken(e), c.vars, CheckExpr(c, e).vars)
    decreases e, 1
  {
    match e
    case Leaf | Var(_) | ArrayVar(_) | Opaque(_) | Alloc(_) | AddrOf(_, _) =>
    case Literal(elements) => ElementsEmptied(c, elements, scope, all);
    case Call(args, takes, _) => ArgsEmptied(c, args, takes, scope, all);
    case Free(operand) => TakenEmptied(c, operand, scope, all);
    case Deref(operand, _) => TakenEmptied(c, operand, scope, all);
    case Index(base, index) => PairEmptied(c, e, base, index, scope, all);
    case Binary(lhs, rhs) => PairEmptied(c, e, lhs, rhs, scope, all);
    case Assign(lhs, rhs, _) => PairEmptied(c, e, lhs, rhs, scope, all);
  }

  lemma {:induction false} PairEmptied(
    c: Chk, whole: Expr, lhs: Expr, rhs: Expr, scope: set<string>, all: set<string>)
    requires lhs < whole && rhs < whole && Straight(lhs) && Straight(rhs)
    requires Scalar(lhs, scope, all) && Scalar(rhs, scope, all) && scope <= c.vars.Keys
    requires !CheckExpr(CheckExpr(c, lhs), rhs).failed
    ensures Taken(lhs) + Taken(rhs) <= scope
    ensures Emptied(Taken(lhs) + Taken(rhs), c.vars, CheckExpr(CheckExpr(c, lhs), rhs).vars)
    decreases whole, 0
  {
    ExprGrows(c, lhs);
    ExprGrows(CheckExpr(c, lhs), rhs);
    StraightDecls(lhs, scope, all);
    StraightDecls(rhs, scope, all);
    TakenEmptied(c, lhs, scope, all);
    TakenEmptied(CheckExpr(c, lhs), rhs, scope, all);
    BothEmptied(Taken(lhs), Taken(rhs), c.vars, CheckExpr(c, lhs).vars, CheckExpr(CheckExpr(c, lhs), rhs).vars);
  }

  /** One after the other; what has been consumed stays so. */
  lemma BothEmptied(a: set<string>, b: set<string>, before: Vars, between: Vars, after: Vars)
    requires Emptied(a, before, between) && Emptied(b, between, after) && b <= before.Keys
    requires forall x | x in before && before[x] == Consumed :: x in between && between[x] == Consumed
    requires forall x | x in between && between[x] == Consumed :: x in after && after[x] == Consumed
    ensures Emptied(a + b, before, after)
  {
  }

  lemma {:induction false} ElementsEmptied(c: Chk, es: seq<Expr>, scope: set<string>, all: set<string>)
    requires Operands(es, scope, all) && StraightAll(es) && scope <= c.vars.Keys && !CheckElements(c, es).failed
    ensures TakenAll(es) <= scope && Emptied(TakenAll(es), c.vars, CheckElements(c, es).vars)
    decreases es, 0
  {
    if es != [] {
      var c1 := CheckOwned(c, es[0]);
      OwnedGrows(c, es[0]);
      ElementsGrow(c1, es[1..]);
      StraightDecls(es[0], scope, all);
      OperandsDecls(es[1..], scope, all);
      if !es[0].Var? {
        TakenEmptied(c, es[0], scope, all);
      }
      ElementsEmptied(c1, es[1..], scope, all);
    }
  }

  lemma {:induction false} ArgsEmptied(c: Chk, args: seq<Expr>, takes: seq<bool>, scope: set<string>, all: set<string>)
    requires Args(args, takes, scope, all) && StraightAll(args) && scope <= c.vars.Keys
    requires !CheckArgs(c, args, takes).failed
    ensures TakenArgs(args, takes) <= scope
    ensures Emptied(TakenArgs(args, takes), c.vars, CheckArgs(c, args, takes).vars)
    decreases args, 0
  {
    if args != [] && takes != [] {
      var c1 := if takes[0] then CheckOwned(c, args[0]) else CheckExpr(c, args[0]);
      OwnedGrows(c, args[0]);
      ExprGrows(c, args[0]);
      ArgsGrow(c1, args[1..], takes[1..]);
      StraightDecls(args[0], scope, all);
      ArgsDecls(args[1..], takes[1..], scope, all);
      if !args[0].Var? {
        TakenEmptied(c, args[0], scope, all);
      }
      ArgsEmptied(c1, args[1..], takes[1..], scope, all);
    }
  }

  /** The bounds of an accepted loop take nothing: the loop could not leave the states as they were. */
  lemma BoundsTakeNothing(c: Chk, e: Expr, scope: set<string>, all: set<string>)
    requires e.For? && Flow(e, scope, all) && Structured(e) && scope <= c.vars.Keys && !CheckExpr(c, e).failed
    ensures Taken(e.start) == {} && Taken(e.stop) == {}
  {
    var c1 := CheckExpr(c, e.start);
    LoopInvariance(c, e);
    ScalarHides(e.start, scope, all);
    ScalarHides(e.stop, scope, all);
    BlockHides(e.body, scope, scope, all);
    ExprGrows(c, e.start);
    ExprGrows(c1, e.stop);
    PairEmptied(c, e, e.start, e.stop, scope, all);
  }

  // ---------- Branches and loops ----------

  lemma {:induction false} FlowPrompt(c: Chk, e: Expr, scope: set<string>, all: set<string>)
    requires Flow(e, scope, all) && Structured(e) && scope <= c.vars.Keys && !CheckExpr(c, e).failed
    ensures Prompt({}, e)
    decreases e, 1
  {
    match e
    case If(cond, thn, els) =>
      var c0 := CheckExpr(c, cond);
      IfParts(c, e);
      ScalarPrompt(c, cond, scope, all, {});
      BlockPrompt(c0, thn, scope, scope, all);
      if els.Else? {
        BlockPrompt(Second(c0, CheckBlock(c0, thn)), els.body, scope, scope, all);
      }
    case While(cond, body) =>
      LoopInvariance(c, e);
      ExprGrows(c, cond);
      ScalarPrompt(c, cond, scope, all, {});
      BlockPrompt(CheckExpr(c, cond), body, scope, scope, all);
    case For(_, start, stop, body) =>
      var c1 := CheckExpr(c, start);
      LoopInvariance(c, e);
      ExprGrows(c, start);
      ExprGrows(c1, stop);
      BoundsTakeNothing(c, e, scope, all);
      ScalarPrompt(c, start, scope, all, {});
      ScalarPrompt(c1, stop, scope, all, {});
      BlockPrompt(LoopHead(c, e), body, scope, scope, all);
    case Case(scrutinee, arms) =>
      var c0 := CheckExpr(c, scrutinee);
      ExprGrows(c, scrutinee);
      ArmsGrow(c0, c0.vars, arms);
      ScalarPrompt(c, scrutinee, scope, all, {});
      ArmsPrompt(c0, c0.vars, arms, scope, all);
  }

  lemma {:induction false} ArmsPrompt(c: Chk, before: Vars, arms: seq<Arm>, scope: set<string>, all: set<string>)
    requires Arms(arms, scope, all) && StructuredArms(arms) && scope <= c.vars.Keys
    requires !CheckArms(c, before, arms).0.failed
    ensures PromptArms({}, arms)
    decreases arms, 0
  {
    if arms != [] {
      var c0 := c.(vars := Overwrite(c.vars, before));
      var c1 := CheckBlock(c0, arms[0].body);
      BlockGrows(c0, arms[0].body);
      ArmsGrow(c1, before, arms[1..]);
      BlockPrompt(c0, arms[0].body, scope, scope, all);
      ArmsPrompt(c1, before, arms[1..], scope, all);
    }
  }

  lemma {:induction false} StmtPrompt(c: Chk, e: Expr, scope: set<string>, all: set<string>)
    requires Stmt(e, scope, all) && Structured(e) && scope <= c.vars.Keys && !CheckStmt(c, e).failed
    ensures Prompt({}, e)
    decreases e, 2
  {
    if e.VarDef? {
      OwnedGrows(c, e.init);
      if Straight(e.init) {
        OwnedPrompt(c, e.init, scope, all);
      } else {
        FlowPrompt(c, e.init, scope, all);
      }
    } else if Straight(e) {
      ScalarPrompt(c, e, scope, all, {});
    } else {
      FlowPrompt(c, e, scope, all);
    }
  }

  lemma {:induction false} BlockPrompt(c: Chk, b: seq<Expr>, outer: set<string>, scope: set<string>, all: set<string>)
    requires Block(b, outer, scope, all) && StructuredAll(b) && scope <= c.vars.Keys && !CheckBlock(c, b).failed
    ensures PromptAll({}, b) && ScopeAfter(b, scope) <= CheckBlock(c, b).vars.Keys
    decreases b, 0
  {
    if b != [] {
      var c1 := CheckStmt(c, b[0]);
      ExprGrows(c, b[0]);
      BlockGrows(c1, b[1..]);
      StmtPrompt(c, b[0], scope, all);
      BlockPrompt(c1, b[1..], outer, scope + Bound(b[0]), all);
    }
  }
}
