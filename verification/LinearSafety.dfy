/** An accepted function of the fragment in which nothing is overlooked keeps memory safe in every run. */
module LinearSafety {
  import opened Wrappers
  import opened LinearSyntax
  import opened LinearChecker
  import opened LinearFlow
  import opened LinearRuns
  import opened LinearScopes
  import opened LinearGaps
  import opened LinearCalm
  import opened LinearInvariant

  /** The check of an expression reports no error and overlooks nothing. */
  predicate Good(walked: bool, c: Chk, t: Ties, e: Expr)
  {
    (if walked then !CheckExpr(c, e).failed else Flat(e)) && Clear(walked, c, t, e)
  }

  predicate GoodOwned(walked: bool, c: Chk, t: Ties, e: Expr)
  {
    (if walked then !CheckOwned(c, e).failed else Flat(e)) && ClearOwned(walked, c, t, e)
  }

  function AfterArgs(walked: bool, c: Chk, args: seq<Expr>, takes: seq<bool>): Chk
  {
    if walked then CheckArgs(c, args, takes) else c
  }

  predicate GoodArgs(walked: bool, c: Chk, t: Ties, args: seq<Expr>, takes: seq<bool>)
  {
    (if walked then !CheckArgs(c, args, takes).failed else FlatAll(args)) && ClearArgs(walked, c, t, args, takes)
  }

  function AfterAll(walked: bool, c: Chk, es: seq<Expr>): Chk
  {
    if walked then CheckElements(c, es) else c
  }

  /** The same for operands, which are no owners' names if they are walked. */
  predicate GoodAll(walked: bool, c: Chk, t: Ties, es: seq<Expr>, all: set<string>)
  {
    (if walked then !CheckElements(c, es).failed && Ownerless(es, all) else FlatAll(es)) && ClearAll(walked, c, t, es)
  }

  lemma {:induction false} ScalarSafe(
    walked: bool, c: Chk, e: Expr, scope: set<string>, all: set<string>, t: Ties, s: Run, held: set<Ref>)
    requires Scalar(e, scope, all) && Good(walked, c, t, e) && Inv(scope, all, t, c.vars, s, held)
    ensures Inv(scope, all, t, After(walked, c, e).vars, Exec(e, s), held)
    decreases e, 4
  {
    match e
    case Leaf | Var(_) | ArrayVar(_) | AddrOf(_, _) => Unmoved(walked, c, t, e);
    case Opaque(operands) =>
      Unmoved(walked, c, t, e);
      OperandsSafe(false, c, operands, scope, all, t, s, held);
    case Literal(elements) =>
      ListParts(walked, c, t, e);
      OperandsSafe(walked, c, elements, scope, all, t, s, held);
    case Call(_, _, _) =>
      ListParts(walked, c, t, e);
      CallSafe(walked, c, e, scope, all, t, s, held);
    case Free(_) => FreeSafe(walked, c, e, scope, all, t, s, held);
    case Deref(_, _) => DerefSafe(walked, c, e, scope, all, t, s, held);
    case Index(_, _) => IndexSafe(walked, c, e, scope, all, t, s, held);
    case Binary(_, _) => BinarySafe(walked, c, e, scope, all, t, s, held);
    case Assign(_, _, _) => AssignSafe(c, e, scope, all, t, s, held);
    case If(_, _, _) | While(_, _) | For(_, _, _, _) | Case(_, _) => FlowSafe(c, e, scope, all, t, s, held);
  }

  /** The check goes on as if nothing had been there. */
  lemma Unmoved(walked: bool, c: Chk, t: Ties, e: Expr)
    requires e.Leaf? || e.Var? || e.ArrayVar? || e.Opaque? || (e.AddrOf? && e.operand.Var?)
    requires walked ==> !CheckExpr(c, e).failed
    ensures After(walked, c, e) == c
  {
    if e.AddrOf? {
      assert CheckExpr(c, e.operand) == c;
    }
  }

  lemma ListParts(walked: bool, c: Chk, t: Ties, e: Expr)
    requires (e.Literal? || e.Call?) && Good(walked, c, t, e)
    ensures e.Literal? ==> After(walked, c, e) == AfterAll(walked, c, e.elements) && ClearAll(walked, c, t, e.elements)
    ensures e.Literal? ==> if walked then !CheckElements(c, e.elements).failed else FlatAll(e.elements)
    ensures e.Call? ==> After(walked, c, e) == AfterArgs(walked, c, e.args, e.takes) && !e.owned
    ensures e.Call? ==> GoodArgs(walked, c, t, e.args, e.takes)
  {
  }

  lemma DerefParts(walked: bool, c: Chk, t: Ties, e: Expr)
    requires e.Deref? && Good(walked, c, t, e)
    ensures Good(walked, c, t, e.operand) && After(walked, c, e) == After(walked, c, e.operand)
    ensures Alive(After(walked, c, e).vars, t, RootOf(t.roots, e.operand))
  {
    assert CheckExpr(c, e) == CheckPlace(c, e.operand);
    if walked {
      assert CheckPlace(c, e.operand) == CheckExpr(c, e.operand);
    }
  }

  lemma {:induction false} FreeSafe(
    walked: bool, c: Chk, e: Expr, scope: set<string>, all: set<string>, t: Ties, s: Run, held: set<Ref>)
    requires e.Free? && Scalar(e, scope, all) && Good(walked, c, t, e) && Inv(scope, all, t, c.vars, s, held)
    ensures Inv(scope, all, t, After(walked, c, e).vars, Exec(e, s), held)
    decreases e, 3
  {
    OwnedSafe(walked, c, e.operand, scope, all, t, s, held);
    OwnedCalm(e.operand, scope, all, s);
    var (s1, v) := Take(e.operand, s);
    GivesUp(scope, all, t, Awaiting(t, e.operand), After(walked, c, e).vars, s1, Freed(v.value), held);
  }

  lemma {:induction false} DerefSafe(
    walked: bool, c: Chk, e: Expr, scope: set<string>, all: set<string>, t: Ties, s: Run, held: set<Ref>)
    requires e.Deref? && Scalar(e, scope, all) && Good(walked, c, t, e) && Inv(scope, all, t, c.vars, s, held)
    ensures Inv(scope, all, t, After(walked, c, e).vars, Exec(e, s), held)
    decreases e, 3
  {
    DerefParts(walked, c, t, e);
    ScalarSafe(walked, c, e.operand, scope, all, t, s, held);
    ScalarCalm(e.operand, scope, all, s);
    var s1 := Exec(e.operand, s);
    ValueSame(e.operand, s, s1);
    Touches(scope, all, t, After(walked, c, e.operand).vars, s1, e.operand, held);
  }

  /** Two operands, the second evaluated after the first. */
  lemma {:induction false} PairSafe(
    walked: bool, c: Chk, whole: Expr, lhs: Expr, rhs: Expr, scope: set<string>, all: set<string>, t: Ties, s: Run,
    held: set<Ref>)
    requires lhs < whole && rhs < whole
    requires Scalar(lhs, scope, all) && Scalar(rhs, scope, all)
    requires Clear(walked, c, t, lhs) && Good(walked, After(walked, c, lhs), t, rhs) && (!walked ==> Flat(lhs))
    requires Inv(scope, all, t, c.vars, s, held)
    ensures var c1, s1 := After(walked, c, lhs), Exec(lhs, s);
            var s2 := Exec(rhs, s1);
            && Inv(scope, all, t, c1.vars, s1, held) && Inv(scope, all, t, After(walked, c1, rhs).vars, s2, held)
            && Calm(s, s1) && Calm(s1, s2) && s1.value == ValueOf(lhs, s2) && s2.value == ValueOf(rhs, s2)
    decreases whole, 0
  {
    var c1, s1 := After(walked, c, lhs), Exec(lhs, s);
    if walked {
      ExprGrows(c1, rhs);
    }
    ScalarSafe(walked, c, lhs, scope, all, t, s, held);
    ScalarSafe(walked, c1, rhs, scope, all, t, s1, held);
    ScalarCalm(lhs, scope, all, s);
    ScalarCalm(rhs, scope, all, s1);
    ValueSame(lhs, s, Exec(rhs, s1));
    ValueSame(rhs, s1, Exec(rhs, s1));
  }

  lemma {:induction false} IndexSafe(
    walked: bool, c: Chk, e: Expr, scope: set<string>, all: set<string>, t: Ties, s: Run, held: set<Ref>)
    requires e.Index? && Scalar(e, scope, all) && Good(walked, c, t, e) && Inv(scope, all, t, c.vars, s, held)
    ensures Inv(scope, all, t, After(walked, c, e).vars, Exec(e, s), held)
    decreases e, 3
  {
    PairSafe(walked, c, e, e.base, e.index, scope, all, t, s, held);
    Touches(scope, all, t, After(walked, c, e).vars, Exec(e.index, Exec(e.base, s)), e.base, held);
  }

  lemma {:induction false} BinarySafe(
    walked: bool, c: Chk, e: Expr, scope: set<string>, all: set<string>, t: Ties, s: Run, held: set<Ref>)
    requires e.Binary? && Scalar(e, scope, all) && Good(walked, c, t, e) && Inv(scope, all, t, c.vars, s, held)
    ensures Inv(scope, all, t, After(walked, c, e).vars, Exec(e, s), held)
    decreases e, 3
  {
    PairSafe(walked, c, e, e.lhs, e.rhs, scope, all, t, s, held);
    LoadPairSafe(scope, all, t, After(walked, c, e).vars, Exec(e.rhs, Exec(e.lhs, s)), e.lhs, e.rhs, held);
  }

  /** Both operands are read once both have been evaluated. */
  lemma LoadPairSafe(
    scope: set<string>, all: set<string>, t: Ties, vars: Vars, s: Run, lhs: Expr, rhs: Expr, held: set<Ref>)
    requires Inv(scope, all, t, vars, s, held) && Loads(vars, t, lhs) && Loads(vars, t, rhs)
    ensures Inv(scope, all, t, vars, Load(Load(s, ValueOf(lhs, s)), ValueOf(rhs, s)), held)
  {
    var s1 := Load(s, ValueOf(lhs, s));
    LoadsKeep(scope, all, t, vars, s, lhs, held);
    ValueSame(rhs, s, s1);
    LoadsKeep(scope, all, t, vars, s1, rhs, held);
  }

  lemma {:induction false} AssignSafe(
    c: Chk, e: Expr, scope: set<string>, all: set<string>, t: Ties, s: Run, held: set<Ref>)
    requires e.Assign? && Scalar(e, scope, all) && Good(true, c, t, e) && Inv(scope, all, t, c.vars, s, held)
    ensures Inv(scope, all, t, CheckExpr(c, e).vars, Exec(e, s), held)
    decreases e, 3
  {
    var lhs, rhs, c1 := e.lhs, e.rhs, CheckExpr(c, e.lhs);
    var s1 := Locate(lhs, s);
    var s2 := Exec(rhs, s1);
    AssignChecked(c, e, scope, all);
    PlaceSafe(c, lhs, scope, all, t, s, held);
    PlaceCalm(lhs, scope, all, s);
    ScalarSafe(true, c1, rhs, scope, all, t, s1, held);
    ScalarCalm(rhs, scope, all, s1);
    ValueSame(Through(lhs), s, s2);
    ValueSame(rhs, s1, s2);
    StoreSafe(scope, all, t, CheckExpr(c1, rhs).vars, s2, lhs, rhs, held);
  }

  lemma AssignChecked(c: Chk, e: Expr, scope: set<string>, all: set<string>)
    requires e.Assign? && Scalar(e, scope, all) && !CheckExpr(c, e).failed && c.vars.Keys <= all
    ensures var c1 := CheckExpr(c, e.lhs);
            && !c1.failed && CheckExpr(c, e) == CheckOwned(c1, e.rhs) == CheckExpr(c1, e.rhs) && c1.vars.Keys <= all
  {
    ExprGrows(c, e.lhs);
    ScalarHides(e.lhs, scope, all);
    ExprGrows(CheckExpr(c, e.lhs), e.rhs);
  }

  /** The right-hand side is read, and then its value stored. */
  lemma StoreSafe(
    scope: set<string>, all: set<string>, t: Ties, vars: Vars, s: Run, lhs: Expr, rhs: Expr, held: set<Ref>)
    requires Inv(scope, all, t, vars, s, held) && (lhs.Deref? || lhs.Index?)
    requires Loads(vars, t, rhs) && Alive(vars, t, TargetRoot(t.roots, lhs))
    ensures Inv(scope, all, t, vars, Touch(Load(s, ValueOf(rhs, s)), ValueOf(Through(lhs), s)), held)
  {
    var s1 := Load(s, ValueOf(rhs, s));
    LoadsKeep(scope, all, t, vars, s, rhs, held);
    ValueSame(Through(lhs), s, s1);
    Touches(scope, all, t, vars, s1, Through(lhs), held);
  }

  lemma {:induction false} PlaceSafe(
    c: Chk, lhs: Expr, scope: set<string>, all: set<string>, t: Ties, s: Run, held: set<Ref>)
    requires (lhs.Deref? || lhs.Index?) && Scalar(lhs, scope, all)
    requires !CheckExpr(c, lhs).failed && ClearPlace(true, c, t, lhs) && Inv(scope, all, t, c.vars, s, held)
    ensures Inv(scope, all, t, CheckExpr(c, lhs).vars, Locate(lhs, s), held)
    decreases lhs, 3
  {
    if lhs.Deref? {
      ScalarSafe(true, c, lhs.operand, scope, all, t, s, held);
    } else {
      PairSafe(true, c, lhs, lhs.base, lhs.index, scope, all, t, s, held);
    }
  }

  lemma {:induction false} OwnedSafe(
    walked: bool, c: Chk, e: Expr, scope: set<string>, all: set<string>, t: Ties, s: Run, held: set<Ref>)
    requires Owned(e, scope, all) && GoodOwned(walked, c, t, e) && Inv(scope, all, t, c.vars, s, held)
    ensures var (s1, v) := Take(e, s);
            && v.Some? && v.value !in held && (e.Var? ==> v.value == s.env[e.name])
            && Inv(scope, all, Awaiting(t, e), AfterOwned(walked, c, e).vars, s1, held + {v.value})
    decreases e, 3
  {
    if e.Var? {
      assert walked && CheckOwned(c, e) == Consume(c, e.name);
      Takes(scope, all, t, c.vars, s, e.name, held);
    } else {
      assert Awaiting(t, e) == t;
      OwnedParts(walked, c, t, e);
      if e.Alloc? {
        ScalarSafe(false, c, e.count, scope, all, t, s, held);
        Creates(scope, all, t, c.vars, Exec(e.count, s), held);
      } else {
        CallSafe(walked, c, e, scope, all, t, s, held);
      }
    }
  }

  lemma OwnedParts(walked: bool, c: Chk, t: Ties, e: Expr)
    requires (e.Alloc? || e.Call?) && GoodOwned(walked, c, t, e)
    ensures e.Alloc? ==> AfterOwned(walked, c, e) == c && Clear(false, c, t, e.count)
    ensures e.Call? ==> AfterOwned(walked, c, e) == AfterArgs(walked, c, e.args, e.takes)
    ensures e.Call? ==> GoodArgs(walked, c, t, e.args, e.takes)
  {
    assert CheckOwned(c, e) == CheckExpr(c, e);
  }

  /** A call hands its owning arguments over; what it returns is on its way. */
  lemma {:induction false} CallSafe(
    walked: bool, c: Chk, e: Expr, scope: set<string>, all: set<string>, t: Ties, s: Run, held: set<Ref>)
    requires e.Call? && Args(e.args, e.takes, scope, all) && GoodArgs(walked, c, t, e.args, e.takes)
    requires Inv(scope, all, t, c.vars, s, held)
    ensures var (s1, v) := Obtain(e, s); var vars := AfterArgs(walked, c, e.args, e.takes).vars;
            if e.owned then v.Some? && v.value !in held && Inv(scope, all, t, vars, s1, held + {v.value})
            else v.None? && Inv(scope, all, t, vars, s1, held)
    decreases e, 0
  {
    var vars := AfterArgs(walked, c, e.args, e.takes).vars;
    var (s0, refs) := ExecArgs(e.args, e.takes, s);
    ArgsSafe(walked, c, e.args, e.takes, scope, all, t, s, held);
    ArgsCalm(e.args, e.takes, scope, all, s);
    PassesAll(scope, all, t, t.(pending := Waiting(s0.env, held + Refs(refs))), vars, s0, refs, held);
    Creates(scope, all, t, vars, Pass(s0, refs), held);
  }

  lemma {:induction false} OperandsSafe(
    walked: bool, c: Chk, es: seq<Expr>, scope: set<string>, all: set<string>, t: Ties, s: Run, held: set<Ref>)
    requires Operands(es, scope, all) && GoodAll(walked, c, t, es, all) && Inv(scope, all, t, c.vars, s, held)
    ensures Inv(scope, all, t, AfterAll(walked, c, es).vars, ExecArgs(es, [], s).0, held)
    ensures ExecArgs(es, [], s).1 == []
    decreases es, 0
  {
    if es != [] {
      var c1, s1 := After(walked, c, es[0]), Exec(es[0], s);
      if walked {
        assert CheckOwned(c, es[0]) == c1;
        ElementsGrow(c1, es[1..]);
      }
      ScalarSafe(walked, c, es[0], scope, all, t, s, held);
      ScalarCalm(es[0], scope, all, s);
      ValueSame(es[0], s, s1);
      LoadsKeep(scope, all, t, c1.vars, s1, es[0], held);
      OperandsSafe(walked, c1, es[1..], scope, all, t, Load(s1, s1.value), held);
    }
  }

  lemma {:induction false} ArgsSafe(
    walked: bool, c: Chk, args: seq<Expr>, takes: seq<bool>, scope: set<string>, all: set<string>, t: Ties, s: Run,
    held: set<Ref>)
    requires Args(args, takes, scope, all) && GoodArgs(walked, c, t, args, takes) && Inv(scope, all, t, c.vars, s, held)
    ensures var (s1, refs) := ExecArgs(args, takes, s); var held1 := held + Refs(refs);
            && Distinct(refs) && held !! Refs(refs)
            && Inv(scope, all, t.(pending := Waiting(s1.env, held1)), AfterArgs(walked, c, args, takes).vars, s1, held1)
    decreases args, 2
  {
    if args == [] {
      assert held + Refs([]) == held;
    } else if takes == [] {
      OperandsSafe(false, c, args, scope, all, t, s, held);
      assert held + Refs([]) == held;
    } else if takes[0] {
      OwnedArgSafe(walked, c, args, takes, scope, all, t, s, held);
    } else {
      PlainArgSafe(walked, c, args, takes, scope, all, t, s, held);
    }
  }

  lemma {:induction false} PlainArgSafe(
    walked: bool, c: Chk, args: seq<Expr>, takes: seq<bool>, scope: set<string>, all: set<string>, t: Ties, s: Run,
    held: set<Ref>)
    requires args != [] && takes != [] && !takes[0]
    requires Args(args, takes, scope, all) && GoodArgs(walked, c, t, args, takes) && Inv(scope, all, t, c.vars, s, held)
    ensures var (s1, refs) := ExecArgs(args, takes, s); var held1 := held + Refs(refs);
            && Distinct(refs) && held !! Refs(refs)
            && Inv(scope, all, t.(pending := Waiting(s1.env, held1)), AfterArgs(walked, c, args, takes).vars, s1, held1)
    decreases args, 1
  {
    var c1, s1 := After(walked, c, args[0]), Exec(args[0], s);
    if walked {
      ArgsGrow(c1, args[1..], takes[1..]);
    }
    ScalarSafe(walked, c, args[0], scope, all, t, s, held);
    ScalarCalm(args[0], scope, all, s);
    ValueSame(args[0], s, s1);
    LoadsKeep(scope, all, t, c1.vars, s1, args[0], held);
    ArgsSafe(walked, c1, args[1..], takes[1..], scope, all, t, Load(s1, s1.value), held);
  }

  lemma {:induction false} OwnedArgSafe(
    walked: bool, c: Chk, args: seq<Expr>, takes: seq<bool>, scope: set<string>, all: set<string>, t: Ties, s: Run,
    held: set<Ref>)
    requires args != [] && takes != [] && takes[0]
    requires Args(args, takes, scope, all) && GoodArgs(walked, c, t, args, takes) && Inv(scope, all, t, c.vars, s, held)
    ensures var (s1, refs) := ExecArgs(args, takes, s); var held1 := held + Refs(refs);
            && Distinct(refs) && held !! Refs(refs)
            && Inv(scope, all, t.(pending := Waiting(s1.env, held1)), AfterArgs(walked, c, args, takes).vars, s1, held1)
    decreases args, 1
  {
    var c1 := AfterOwned(walked, c, args[0]);
    if walked {
      ArgsGrow(c1, args[1..], takes[1..]);
    }
    OwnedSafe(walked, c, args[0], scope, all, t, s, held);
    var (s1, v) := Take(args[0], s);
    ArgsSafe(walked, c1, args[1..], takes[1..], scope, all, Awaiting(t, args[0]), s1, held + {v.value});
    OneMore(held, v.value, ExecArgs(args[1..], takes[1..], s1).1);
  }

  lemma OneMore(held: set<Ref>, r: Ref, refs: seq<Ref>)
    ensures held + {r} + Refs(refs) == held + Refs([r] + refs)
    ensures Distinct(refs) && r !in refs ==> Distinct([r] + refs)
  {
    assert ([r] + refs)[1..] == refs;
  }

  // ---------- Statements and blocks ----------

  lemma {:induction false} StmtSafe(
    c: Chk, e: Expr, scope: set<string>, all: set<string>, t: Ties, own: set<string>, s: Run, held: set<Ref>)
    requires Stmt(e, scope, all) && !CheckStmt(c, e).failed && ClearStmt(c, t, own, e)
    requires Inv(scope, all, t, c.vars, s, held) && Bound(e) !! t.pending && Bound(e) * scope <= own
    ensures Inv(scope + Bound(e), all, TiesAfter(t, e), CheckStmt(c, e).vars, Exec(e, s), held)
    decreases e, 6
  {
    if e.VarDef? && e.linear {
      DefinitionSafe(c, e, scope, all, t, own, s, held);
    } else if e.VarDef? {
      ViewSafe(c, e, scope, all, t, own, s, held);
    } else {
      assert scope + Bound(e) == scope && TiesAfter(t, e) == t;
      assert !Discards(e);
      if e.If? || e.While? || e.For? || e.Case? {
        FlowSafe(c, e, scope, all, t, s, held);
      } else {
        ScalarSafe(true, c, e, scope, all, t, s, held);
      }
    }
  }

  lemma {:induction false} ViewSafe(
    c: Chk, e: Expr, scope: set<string>, all: set<string>, t: Ties, own: set<string>, s: Run, held: set<Ref>)
    requires e.VarDef? && !e.linear && Stmt(e, scope, all) && !CheckStmt(c, e).failed && ClearStmt(c, t, own, e)
    requires Inv(scope, all, t, c.vars, s, held)
    ensures Inv(scope + Bound(e), all, TiesAfter(t, e), CheckStmt(c, e).vars, Exec(e, s), held)
    decreases e, 5
  {
    assert CheckOwned(c, e.init) == CheckExpr(c, e.init);
    ScalarSafe(true, c, e.init, scope, all, t, s, held);
    ScalarCalm(e.init, scope, all, s);
    ScalarInReach(e.init, scope, all);
    var s1 := Exec(e.init, s);
    ValueSame(e.init, s, s1);
    BindsView(scope, all, t, CheckExpr(c, e.init).vars, s1, e, held);
    assert scope + Bound(e) == scope;
  }

  lemma {:induction false} DefinitionSafe(
    c: Chk, e: Expr, scope: set<string>, all: set<string>, t: Ties, own: set<string>, s: Run, held: set<Ref>)
    requires e.VarDef? && e.linear && Stmt(e, scope, all) && !CheckStmt(c, e).failed && ClearStmt(c, t, own, e)
    requires Inv(scope, all, t, c.vars, s, held) && Bound(e) !! t.pending && Bound(e) * scope <= own
    ensures Inv(scope + Bound(e), all, TiesAfter(t, e), CheckStmt(c, e).vars, Exec(e, s), held)
    decreases e, 5
  {
    OwnedSafe(true, c, e.init, scope, all, t, s, held);
    OwnedCalm(e.init, scope, all, s);
    var (s1, v) := Take(e.init, s);
    var vars := CheckOwned(c, e.init).vars;
    assert e.name in scope ==> e.name in own && e.name in vars;
    Binds(scope, all, t, Awaiting(t, e.init), vars, s1, e, v.value, held);
  }

  lemma {:induction false} BlockSafe(
    c: Chk, b: seq<Expr>, outer: set<string>, scope: set<string>, all: set<string>, t: Ties, own: set<string>, s: Run,
    held: set<Ref>)
    requires Block(b, outer, scope, all) && scope == outer + own && t.pending <= outer
    requires !CheckBlock(c, b).failed && ClearBlock(c, t, own, b) && Inv(scope, all, t, c.vars, s, held)
    ensures Inv(ScopeAfter(b, scope), all, TiesAfterAll(t, b), CheckBlock(c, b).vars, ExecAll(b, s), held)
    decreases b, 0
  {
    if b != [] {
      var c1 := CheckStmt(c, b[0]);
      BlockGrows(c1, b[1..]);
      StmtSafe(c, b[0], scope, all, t, own, s, held);
      BlockSafe(c1, b[1..], outer, scope + Bound(b[0]), all, TiesAfter(t, b[0]), own + Bound(b[0]), Exec(b[0], s), held);
    }
  }

  /** A nested block whose own owners were all consumed leaves the scope around it. */
  lemma {:induction false} InnerSafe(
    c: Chk, b: seq<Expr>, scope: set<string>, all: set<string>, t: Ties, s: Run, held: set<Ref>, open: bool)
    requires Block(b, scope, scope, all) && !CheckBlock(c, b).failed && ClearInner(c, t, b)
    requires Inv(scope, all, t, c.vars, s, held)
    ensures Inv(scope, all, t, CheckBlock(c, b).vars, Inner(b, s, open), held)
    decreases b, 1
  {
    var s0 := Yielding(s, Nothing);
    var s1, vars, t1, inner := ExecAll(b, s0), CheckBlock(c, b).vars, TiesAfterAll(t, b), ScopeAfter(b, scope);
    assert scope == scope + {};
    BlockSafe(c, b, scope, scope, all, t, {}, s0, held);
    ScopeGrows(b, scope);
    BlockCalm(b, scope, scope, all, s0);
    TiesPending(t, b);
    Forgets(b, inner, all, t1, vars, s1, held);
    ForgetCalm(b, s1);
    Leaves(scope, inner, all, t, t1, c.vars, vars, s, Forget(b, s1), held);
  }

  lemma {:induction false} TiesPending(t: Ties, b: seq<Expr>)
    ensures TiesAfterAll(t, b).pending == t.pending
    decreases |b|
  {
    if b != [] {
      TiesPending(TiesAfter(t, b[0]), b[1..]);
    }
  }

  // ---------- Branches and loops ----------

  lemma {:induction false} FlowSafe(
    c: Chk, e: Expr, scope: set<string>, all: set<string>, t: Ties, s: Run, held: set<Ref>)
    requires Flow(e, scope, all) && !CheckExpr(c, e).failed && Clear(true, c, t, e)
    requires Inv(scope, all, t, c.vars, s, held)
    ensures Inv(scope, all, t, CheckExpr(c, e).vars, Exec(e, s), held)
    decreases e, 3
  {
    match e
    case If(_, _, _) => IfSafe(c, e, scope, all, t, s, held);
    case While(_, _) => WhileSafe(c, e, scope, all, t, s, held);
    case For(_, _, _, _) => ForSafe(c, e, scope, all, t, s, held);
    case Case(_, _) => CaseSafe(c, e, scope, all, t, s, held);
  }

  /** After a loop the visible owners are as before. */
  lemma LoopLeaves(c: Chk, e: Expr, scope: set<string>, all: set<string>)
    requires (e.While? || e.For?) && Flow(e, scope, all) && !CheckExpr(c, e).failed && scope <= c.vars.Keys <= all
    ensures var d := CheckExpr(c, e); d.vars.Keys <= all && forall x | x in scope :: x in d.vars && d.vars[x] == c.vars[x]
    ensures var h := LoopHead(c, e);
            !h.failed && h.vars.Keys <= all && forall x | x in scope :: x in h.vars && h.vars[x] == c.vars[x]
    ensures var d := CheckBlock(LoopHead(c, e), e.body);
            !d.failed && forall x | x in scope :: x in d.vars && d.vars[x] == c.vars[x]
  {
    LoopInvariance(c, e);
    HeadGrows(c, e);
    ExprGrows(c, e);
    FlowHides(e, scope, all);
  }

  lemma {:induction false} WhileSafe(
    c: Chk, e: Expr, scope: set<string>, all: set<string>, t: Ties, s: Run, held: set<Ref>)
    requires e.While? && Flow(e, scope, all) && !CheckExpr(c, e).failed && Clear(true, c, t, e)
    requires Inv(scope, all, t, c.vars, s, held)
    ensures Inv(scope, all, t, CheckExpr(c, e).vars, Exec(e, s), held)
    decreases e, 2
  {
    var (n, s1) := Choose(s);
    IterateSafe(c, e, n, scope, all, t, s1, held);
    LoopLeaves(c, e, scope, all);
    InvSame(scope, all, t, c.vars, CheckExpr(c, e).vars, Exec(e, s), held);
  }

  lemma {:induction false} ForSafe(
    c: Chk, e: Expr, scope: set<string>, all: set<string>, t: Ties, s: Run, held: set<Ref>)
    requires e.For? && Flow(e, scope, all) && !CheckExpr(c, e).failed && Clear(true, c, t, e)
    requires Inv(scope, all, t, c.vars, s, held)
    ensures Inv(scope, all, t, CheckExpr(c, e).vars, Exec(e, s), held)
    decreases e, 2
  {
    LoopLeaves(c, e, scope, all);
    PairSafe(true, c, e, e.start, e.stop, scope, all, t, s, held);
    var s2 := Exec(e.stop, Exec(e.start, s));
    InvSame(scope, all, t, LoopHead(c, e).vars, c.vars, s2, held);
    var (n, s1) := Choose(s2);
    IterateSafe(c, e, n, scope, all, t, s1, held);
    InvSame(scope, all, t, c.vars, CheckExpr(c, e).vars, Exec(e, s), held);
  }

  lemma {:induction false} IterateSafe(
    c: Chk, e: Expr, n: nat, scope: set<string>, all: set<string>, t: Ties, s: Run, held: set<Ref>)
    requires (e.While? || e.For?) && Flow(e, scope, all) && !CheckExpr(c, e).failed && Clear(true, c, t, e)
    requires Inv(scope, all, t, c.vars, s, held)
    ensures Inv(scope, all, t, c.vars, Iterate(e, n, s), held)
    decreases e, 1, n
  {
    var s1 := if e.While? then Exec(e.cond, s) else s;
    ConditionSafe(c, e, scope, all, t, s, held);
    if n > 0 {
      LoopBodySafe(c, e, scope, all, t, s1, held);
      IterateSafe(c, e, n - 1, scope, all, t, Inner(e.body, s1, e.While?), held);
    }
  }

  /** Evaluating a loop's condition changes no owner in sight. */
  lemma {:induction false} ConditionSafe(
    c: Chk, e: Expr, scope: set<string>, all: set<string>, t: Ties, s: Run, held: set<Ref>)
    requires (e.While? || e.For?) && Flow(e, scope, all) && !CheckExpr(c, e).failed && Clear(true, c, t, e)
    requires Inv(scope, all, t, c.vars, s, held)
    ensures Inv(scope, all, t, c.vars, if e.While? then Exec(e.cond, s) else s, held)
    decreases e, 0
  {
    if e.While? {
      LoopLeaves(c, e, scope, all);
      ScalarSafe(true, c, e.cond, scope, all, t, s, held);
      InvSame(scope, all, t, LoopHead(c, e).vars, c.vars, Exec(e.cond, s), held);
    }
  }

  /** One round of a loop's body changes no owner in sight. */
  lemma {:induction false} LoopBodySafe(
    c: Chk, e: Expr, scope: set<string>, all: set<string>, t: Ties, s: Run, held: set<Ref>)
    requires (e.While? || e.For?) && Flow(e, scope, all) && !CheckExpr(c, e).failed && Clear(true, c, t, e)
    requires Inv(scope, all, t, c.vars, s, held)
    ensures Inv(scope, all, t, c.vars, Inner(e.body, s, e.While?), held)
    decreases e, 0
  {
    var entered := LoopHead(c, e);
    LoopLeaves(c, e, scope, all);
    InvSame(scope, all, t, c.vars, entered.vars, s, held);
    InnerSafe(entered, e.body, scope, all, t, s, held, e.While?);
    InvSame(scope, all, t, CheckBlock(entered, e.body).vars, c.vars, Inner(e.body, s, e.While?), held);
  }

  lemma {:induction false} IfSafe(
    c: Chk, e: Expr, scope: set<string>, all: set<string>, t: Ties, s: Run, held: set<Ref>)
    requires e.If? && Flow(e, scope, all) && !CheckExpr(c, e).failed && Clear(true, c, t, e)
    requires Inv(scope, all, t, c.vars, s, held)
    ensures Inv(scope, all, t, CheckExpr(c, e).vars, Exec(e, s), held)
    decreases e, 2
  {
    ConditionalHead(c, e, scope, all);
    ScalarSafe(true, c, e.cond, scope, all, t, s, held);
    var (k, s1) := Choose(Exec(e.cond, s));
    BranchesSafe(c, e, scope, all, t, s1, k, held);
  }

  /** What an error-free check of an `if` says of the condition and the branches. */
  lemma ConditionalHead(c: Chk, e: Expr, scope: set<string>, all: set<string>)
    requires e.If? && Flow(e, scope, all) && !CheckExpr(c, e).failed && scope <= c.vars.Keys <= all
    ensures var c0 := CheckExpr(c, e.cond);
            var c1 := CheckBlock(c0, e.thn);
            && !c0.failed && !c1.failed && scope <= c0.vars.Keys <= all && c0.vars.Keys <= c1.vars.Keys <= all
            && (e.els.Else? ==> !CheckBlock(c1.(vars := Overwrite(c1.vars, c0.vars)), e.els.body).failed)
  {
    var c0 := CheckExpr(c, e.cond);
    var c1 := CheckBlock(c0, e.thn);
    ExprGrows(c, e.cond);
    BlockGrows(c0, e.thn);
    ScalarHides(e.cond, scope, all);
    BlockHides(e.thn, scope, scope, all);
    if e.els.Else? {
      BlockGrows(c1.(vars := Overwrite(c1.vars, c0.vars)), e.els.body);
    }
  }

  /** After a conditional each visible owner is as every branch ends with it. */
  lemma ConditionalLeaves(c: Chk, e: Expr, scope: set<string>, all: set<string>, end: Vars)
    requires (e.If? || e.Case?) && Flow(e, scope, all) && !CheckExpr(c, e).failed && scope <= c.vars.Keys <= all
    requires end in BranchEnds(c, e)
    ensures var d := CheckExpr(c, e);
            d.vars.Keys <= all && scope <= d.vars.Keys && forall x | x in scope :: x in end && end[x] == d.vars[x]
  {
    BranchMerge(c, e);
    ExprGrows(c, e);
    FlowHides(e, scope, all);
  }

  /** Either branch, run from the state after the condition. */
  lemma {:induction false} BranchesSafe(
    c: Chk, e: Expr, scope: set<string>, all: set<string>, t: Ties, s: Run, k: nat, held: set<Ref>)
    requires e.If? && Flow(e, scope, all) && !CheckExpr(c, e).failed && Clear(true, c, t, e)
    requires scope <= c.vars.Keys <= all && Inv(scope, all, t, CheckExpr(c, e.cond).vars, s, held)
    ensures var s' := if k != 0 then Inner(e.thn, s, true) else if e.els.Else? then Inner(e.els.body, s, true) else s;
            Inv(scope, all, t, CheckExpr(c, e).vars, s', held)
    decreases e, 1
  {
    var d, c0 := CheckExpr(c, e), CheckExpr(c, e.cond);
    var c1 := CheckBlock(c0, e.thn);
    ConditionalHead(c, e, scope, all);
    var ends := BranchEnds(c, e);
    if k != 0 {
      InnerSafe(c0, e.thn, scope, all, t, s, held, true);
      ConditionalLeaves(c, e, scope, all, ends[0]);
      InvSame(scope, all, t, c1.vars, d.vars, Inner(e.thn, s, true), held);
    } else {
      ConditionalLeaves(c, e, scope, all, ends[1]);
      if e.els.Else? {
        var c2 := c1.(vars := Overwrite(c1.vars, c0.vars));
        InvSame(scope, all, t, c0.vars, c2.vars, s, held);
        InnerSafe(c2, e.els.body, scope, all, t, s, held, true);
        InvSame(scope, all, t, CheckBlock(c2, e.els.body).vars, d.vars, Inner(e.els.body, s, true), held);
      } else {
        InvSame(scope, all, t, c0.vars, d.vars, s, held);
      }
    }
  }

  /** The arm that runs ends in the state the checker recorded for it. */
  lemma {:induction false} ArmSafe(
    c: Chk, before: Vars, arms: seq<Arm>, k: nat, scope: set<string>, all: set<string>, t: Ties, s: Run, held: set<Ref>)
    requires Arms(arms, scope, all) && before.Keys <= c.vars.Keys <= all && k < |arms|
    requires !CheckArms(c, before, arms).0.failed
    requires ClearArms(c, before, t, arms) && Inv(scope, all, t, before, s, held)
    ensures k < |CheckArms(c, before, arms).1|
    ensures Inv(scope, all, t, CheckArms(c, before, arms).1[k], Inner(arms[k].body, s, true), held)
    decreases arms, 0
  {
    var c0 := c.(vars := Overwrite(c.vars, before));
    var c1 := CheckBlock(c0, arms[0].body);
    BlockGrows(c0, arms[0].body);
    BlockHides(arms[0].body, scope, scope, all);
    ArmsGrow(c1, before, arms[1..]);
    if k == 0 {
      InvSame(scope, all, t, before, c0.vars, s, held);
      InnerSafe(c0, arms[0].body, scope, all, t, s, held, true);
    } else {
      ArmSafe(c1, before, arms[1..], k - 1, scope, all, t, s, held);
    }
  }

  lemma CaseHead(c: Chk, e: Expr, scope: set<string>, all: set<string>)
    requires e.Case? && Flow(e, scope, all) && !CheckExpr(c, e).failed && scope <= c.vars.Keys <= all
    ensures var c0 := CheckExpr(c, e.scrutinee);
            && !c0.failed && scope <= c0.vars.Keys <= all && !CheckArms(c0, c0.vars, e.arms).0.failed
            && BranchEnds(c, e) == CheckArms(c0, c0.vars, e.arms).1 && |BranchEnds(c, e)| == |e.arms|
  {
    var c0 := CheckExpr(c, e.scrutinee);
    ExprGrows(c, e.scrutinee);
    ScalarHides(e.scrutinee, scope, all);
    ArmsGrow(c0, c0.vars, e.arms);
  }

  lemma {:induction false} CaseSafe(
    c: Chk, e: Expr, scope: set<string>, all: set<string>, t: Ties, s: Run, held: set<Ref>)
    requires e.Case? && Flow(e, scope, all) && !CheckExpr(c, e).failed && Clear(true, c, t, e)
    requires Inv(scope, all, t, c.vars, s, held)
    ensures Inv(scope, all, t, CheckExpr(c, e).vars, Exec(e, s), held)
    decreases e, 2
  {
    var c0 := CheckExpr(c, e.scrutinee);
    CaseHead(c, e, scope, all);
    ScalarSafe(true, c, e.scrutinee, scope, all, t, s, held);
    var (n, s1) := Choose(Exec(e.scrutinee, s));
    if e.arms != [] {
      var k := n % |e.arms|;
      ArmSafe(c0, c0.vars, e.arms, k, scope, all, t, s1, held);
      var end := BranchEnds(c, e)[k];
      ConditionalLeaves(c, e, scope, all, end);
      InvSame(scope, all, t, end, CheckExpr(c, e).vars, Exec(e, s), held);
    } else {
      NoArms(c, e);
      InvSame(scope, all, t, c0.vars, CheckExpr(c, e).vars, s1, held);
    }
  }

  lemma NoArms(c: Chk, e: Expr)
    requires e.Case? && e.arms == []
    ensures CheckExpr(c, e).vars == CheckExpr(c, e.scrutinee).vars
  {
    var c0 := CheckExpr(c, e.scrutinee);
    assert CheckExpr(c, e) == Merge(c0, c0.vars, []);
  }

  // ---------- Whole functions ----------

  lemma ParamSafe(p: Param, vars: Vars, scope: set<string>, all: set<string>, s: Run)
    requires Inv(scope, all, NoTies, vars, s, {}) && p.linear && p.name in all && p.name !in scope
    ensures var (s1, r) := Create(s);
            Inv(scope + {p.name}, all, NoTies, vars[p.name := Unconsumed], Bind(s1, p.name, r, false), {})
  {
    Creates(scope, all, NoTies, vars, s, {});
    var (s1, r) := Create(s);
    var e := VarDef(p.name, true, Leaf);
    assert TiesAfter(NoTies, e) == NoTies;
    Binds(scope, all, NoTies, NoTies, vars, s1, e, r, {});
  }

  lemma FirstParam(params: seq<Param>, scope: set<string>)
    requires params != [] && DistinctParams(params) && OwningParams(params) !! scope
    ensures var first := if params[0].linear then {params[0].name} else {};
            && OwningParams(params) == first + OwningParams(params[1..]) && first !! scope
            && OwningParams(params[1..]) !! scope + first && DistinctParams(params[1..])
            && scope + first + OwningParams(params[1..]) == scope + OwningParams(params)
  {
  }

  lemma {:induction false} ParamsSafe(
    params: seq<Param>, vars: Vars, scope: set<string>, inner: set<string>, all: set<string>, s: Run)
    requires Inv(scope, all, NoTies, vars, s, {}) && DistinctParams(params) && inner == scope + OwningParams(params)
    requires OwningParams(params) <= all && OwningParams(params) !! scope && vars.Keys == scope
    ensures Inv(inner, all, NoTies, Enter(params, vars), Receive(params, s), {})
    ensures Enter(params, vars).Keys == inner
  {
    if params == [] {
      assert inner == scope;
    } else {
      FirstParam(params, scope);
      if params[0].linear {
        var name := params[0].name;
        var (s1, r) := Create(s);
        OwnerEnters(params, vars, s);
        ParamSafe(params[0], vars, scope, all, s);
        ParamsSafe(params[1..], vars[name := Unconsumed], scope + {name}, inner, all, Bind(s1, name, r, false));
      } else {
        ParamsSafe(params[1..], vars, scope, inner, all, s);
      }
    }
  }

  lemma OwnerEnters(params: seq<Param>, vars: Vars, s: Run)
    requires params != [] && params[0].linear
    ensures Enter(params, vars) == Enter(params[1..], vars[params[0].name := Unconsumed])
    ensures var (s1, r) := Create(s); Receive(params, s) == Receive(params[1..], Bind(s1, params[0].name, r, false))
  {
  }

  /** The check and the run of a function's body start in step. */
  lemma StartSafe(f: Function, choices: seq<nat>)
    requires DistinctParams(f.params)
    ensures var inner := OwningParams(f.params);
            && Inv(inner, Owners(f), NoTies, Enter(f.params, map[]), Receive(f.params, Start(choices, false)), {})
            && Enter(f.params, map[]).Keys == inner
  {
    ParamsSafe(f.params, map[], {}, OwningParams(f.params), Owners(f), Start(choices, false));
  }

  lemma {:induction false} CheckAppend(a: seq<Expr>, e: Expr, c: Chk)
    ensures CheckBlock(c, a + [e]) == CheckStmt(CheckBlock(c, a), e)
  {
    if a == [] {
      assert a + [e] == [e] && [e][1..] == [];
    } else {
      assert (a + [e])[1..] == a[1..] + [e];
      CheckAppend(a[1..], e, CheckStmt(c, a[0]));
    }
  }

  /** With every owner consumed nothing is live any more. */
  lemma Settled(scope: set<string>, all: set<string>, t: Ties, vars: Vars, s: Run)
    requires Inv(scope, all, t, vars, s, {}) && forall x | x in scope :: vars[x] == Consumed
    ensures Disciplined(s.trace)
  {
  }

  /** What is no owner has no value to hand over. */
  lemma ScalarYield(c: Chk, e: Expr, scope: set<string>, all: set<string>, s: Run)
    requires Result(e, scope, all) && !Owned(e, scope, all) && Running(s, all) && c.vars.Keys <= all
    ensures CheckOwned(c, e) == CheckExpr(c, e) && !Discards(e) && (e.Var? ==> e.name !in c.vars)
    ensures Yield(e, s) == Yielding(Load(Exec(e, s), ValueOf(e, Exec(e, s))), Yield(e, s).value)
    ensures Calm(s, Exec(e, s)) && Scalar(e, scope, all)
    ensures Calm(s, Yield(e, s))
  {
    ScalarCalm(e, scope, all, s);
    ValueSame(e, s, Exec(e, s));
    if e.Call? {
      CallCalm(e, scope, all, s);
    }
  }

  /** The check of what a body returns: `c` is the state before. */
  predicate BadResult(c: Chk, t: Ties, e: Expr)
  {
    CheckOwned(c, e).failed || !ClearResult(c, t, e)
  }

  /** Returning hands the last owner to the caller. */
  lemma ReturnSafe(c: Chk, e: Expr, scope: set<string>, all: set<string>, t: Ties, s: Run)
    requires Result(e, scope, all) && !BadResult(c, t, e) && Inv(scope, all, t, c.vars, s, {})
    ensures Inv(scope, all, t, CheckOwned(c, e).vars, Yield(e, s), {})
  {
    if Owned(e, scope, all) {
      OwnedReturnSafe(c, e, scope, all, t, s);
    } else {
      PlainReturnSafe(c, e, scope, all, t, s);
    }
  }

  lemma PlainReturnSafe(c: Chk, e: Expr, scope: set<string>, all: set<string>, t: Ties, s: Run)
    requires Result(e, scope, all) && !Owned(e, scope, all)
    requires !BadResult(c, t, e) && Inv(scope, all, t, c.vars, s, {})
    ensures Inv(scope, all, t, CheckOwned(c, e).vars, Yield(e, s), {})
  {
    var s1 := Exec(e, s);
    ScalarYield(c, e, scope, all, s);
    ReadSafe(c, e, scope, all, t, s);
    InvYielding(scope, all, t, CheckExpr(c, e).vars, Load(s1, ValueOf(e, s1)), {}, Yield(e, s).value);
  }

  /** A value is worked out and read. */
  lemma ReadSafe(c: Chk, e: Expr, scope: set<string>, all: set<string>, t: Ties, s: Run)
    requires Scalar(e, scope, all) && !CheckExpr(c, e).failed && Clear(true, c, t, e)
    requires Loads(CheckExpr(c, e).vars, t, e) && Inv(scope, all, t, c.vars, s, {})
    ensures var s1 := Exec(e, s); Inv(scope, all, t, CheckExpr(c, e).vars, Load(s1, ValueOf(e, s1)), {})
  {
    var vars, s1 := CheckExpr(c, e).vars, Exec(e, s);
    ScalarSafe(true, c, e, scope, all, t, s, {});
    LoadsKeep(scope, all, t, vars, s1, e, {});
  }

  lemma OwnedReturnSafe(c: Chk, e: Expr, scope: set<string>, all: set<string>, t: Ties, s: Run)
    requires Owned(e, scope, all) && !BadResult(c, t, e) && Inv(scope, all, t, c.vars, s, {})
    ensures Inv(scope, all, t, CheckOwned(c, e).vars, Yield(e, s), {})
  {
    OwnedSafe(true, c, e, scope, all, t, s, {});
    OwnedCalm(e, scope, all, s);
    var (s1, v) := Take(e, s);
    assert {} + {v.value} == {v.value};
    GivesUp(scope, all, t, Awaiting(t, e), CheckOwned(c, e).vars, s1, Returned(v.value), {});
  }

  /** A body, and what it returns if it does. */
  lemma BodySafe(f: Function, choices: seq<nat>)
    requires WellFormed(f) && Accepts(f) && Unobstructed(f)
    ensures Disciplined(ScopedRunOf(f, choices).trace)
  {
    var inner, all, b := OwningParams(f.params), Owners(f), Leading(f.body);
    var c, s := Chk(Enter(f.params, map[]), false), Receive(f.params, Start(choices, false));
    var c1, s1, t1, scope := CheckBlock(c, b), ExecAll(b, s), TiesAfterAll(NoTies, b), ScopeAfter(b, inner);
    StartSafe(f, choices);
    assert {} + inner == inner;
    if Returns(f.body) {
      var last := f.body[|f.body| - 1];
      EndChecked(f, c, s);
      BlockSafe(c, b, {}, inner, all, NoTies, inner, s, {});
      ReturnSafe(c1, last.result, scope, all, t1, s1);
      Settled(scope, all, t1, CheckOwned(c1, last.result).vars, Yield(last.result, s1));
    } else {
      BlockSafe(c, b, {}, inner, all, NoTies, inner, s, {});
      Settled(scope, all, t1, c1.vars, s1);
    }
  }

  /** A body that ends in a `return` of an accepted value. */
  lemma EndChecked(f: Function, c: Chk, s: Run)
    requires WellFormed(f) && Returns(f.body) && !CheckBlock(c, f.body).failed && !s.returned
    ensures var b, last := Leading(f.body), f.body[|f.body| - 1];
            var c1, s1 := CheckBlock(c, b), ExecAll(b, s);
            && !c1.failed && !CheckOwned(c1, last.result).failed && CheckBlock(c, f.body) == CheckOwned(c1, last.result)
            && (!s1.returned ==> ExecAll(f.body, s).trace == Yield(last.result, s1).trace)
  {
    var b, last := Leading(f.body), f.body[|f.body| - 1];
    ReturningBody(f);
    ExecAppend(b, last, s);
    CheckAppend(b, last, c);
    ReturnChecked(CheckBlock(c, b), last);
    OwnedGrows(CheckBlock(c, b), last.result);
  }

  lemma ReturnChecked(c: Chk, e: Expr)
    requires e.Return?
    ensures CheckStmt(c, e).failed || CheckStmt(c, e) == CheckOwned(c, e.result)
    ensures !e.escapes ==> CheckStmt(c, e) == CheckOwned(c, e.result)
  {
  }

  /** Soundness: if nothing is overlooked in an accepted function, then whatever choices its run makes, its
      owners are disciplined, and so every cell it allocates or receives is consumed exactly once and never
      used afterwards. */
  lemma AcceptedIsSafe(f: Function, choices: seq<nat>)
    requires WellFormed(f) && Accepts(f) && Unobstructed(f)
    ensures Disciplined(RunOf(f, choices).trace)
    ensures ExactlyOnce(RunOf(f, choices).trace)
  {
    ScopesAgree(f, choices);
    BodySafe(f, choices);
    DisciplineIsSafety(RunOf(f, choices).trace);
  }
}
