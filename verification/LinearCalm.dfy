/** What running code of the fragment leaves alone, when what a body declares is gone after it: it returns nowhere
    but at the end, forgets no event, and changes no variable but those it declares. */
module LinearCalm {
  import opened Wrappers
  import opened LinearSyntax
  import opened LinearRuns

  ghost predicate Calm(s: Run, s': Run)
  {
    && s'.env == s.env && s'.views == s.views && s.trace <= s'.trace && !s'.returned && !s'.flat
    && s.supply <= s'.supply
  }

  /** A run in the middle of a function's body. */
  ghost predicate Running(s: Run, all: set<string>)
  {
    !s.returned && !s.flat && s.env.Keys <= all
  }

  /** The value of an expression, as its variables have it. */
  function ValueOf(e: Expr, s: Run): Value
  {
    match e
    case Var(x) => if x in s.env then Direct(s.env[x]) else Nothing
    case ArrayVar(a) => if a in s.views then View(s.views[a]) else Nothing
    case Deref(operand, toArray) => Pointee(ValueOf(operand, s), toArray)
    case _ => Nothing
  }

  lemma ValueSame(e: Expr, s: Run, s': Run)
    requires s'.env == s.env && s'.views == s.views
    ensures ValueOf(e, s') == ValueOf(e, s)
  {
  }

  // ---------- Declarations in the fragment ----------

  lemma {:induction false} FlatDecls(e: Expr)
    requires Flat(e)
    ensures Decls(e) == {}
    decreases e
  {
    match e
    case Opaque(operands) => FlatAllDecls(operands);
    case Literal(elements) => FlatAllDecls(elements);
    case Alloc(count) => FlatDecls(count);
    case Call(args, _, _) => FlatAllDecls(args);
    case Free(operand) => FlatDecls(operand);
    case Deref(operand, _) => FlatDecls(operand);
    case Index(base, index) =>
      FlatDecls(base);
      FlatDecls(index);
    case AddrOf(operand, _) => FlatDecls(operand);
    case Binary(lhs, rhs) =>
      FlatDecls(lhs);
      FlatDecls(rhs);
    case _ =>
  }

  lemma {:induction false} FlatAllDecls(es: seq<Expr>)
    requires FlatAll(es)
    ensures DeclsAll(es) == {}
    decreases es
  {
    if es != [] {
      FlatDecls(es[0]);
      FlatAllDecls(es[1..]);
    }
  }

  /** What is declared inside an expression is an owner and hides none that is visible. */
  ghost predicate Hidden(declared: set<string>, scope: set<string>, all: set<string>)
  {
    declared <= all && declared !! scope
  }

  lemma {:induction false} ScalarHides(e: Expr, scope: set<string>, all: set<string>)
    requires Scalar(e, scope, all) || Owned(e, scope, all)
    ensures Hidden(Decls(e), scope, all)
    decreases e, 1
  {
    match e
    case Leaf | Var(_) | ArrayVar(_) =>
    case Opaque(operands) => FlatAllDecls(operands);
    case Literal(elements) => OperandsHide(elements, scope, all);
    case Alloc(count) => FlatDecls(count);
    case Call(args, takes, _) => ArgsHide(args, takes, scope, all);
    case Free(operand) => ScalarHides(operand, scope, all);
    case Deref(operand, _) => ScalarHides(operand, scope, all);
    case Index(base, index) =>
      ScalarHides(base, scope, all);
      ScalarHides(index, scope, all);
    case AddrOf(_, _) =>
    case Binary(lhs, rhs) =>
      ScalarHides(lhs, scope, all);
      ScalarHides(rhs, scope, all);
    case Assign(lhs, rhs, _) =>
      ScalarHides(lhs, scope, all);
      ScalarHides(rhs, scope, all);
    case If(_, _, _) | While(_, _) | For(_, _, _, _) | Case(_, _) => FlowHides(e, scope, all);
  }

  lemma {:induction false} FlowHides(e: Expr, scope: set<string>, all: set<string>)
    requires Flow(e, scope, all)
    ensures Hidden(Decls(e), scope, all)
    decreases e, 0
  {
    match e
    case If(cond, thn, els) =>
      ScalarHides(cond, scope, all);
      BlockHides(thn, scope, scope, all);
      if els.Else? {
        BlockHides(els.body, scope, scope, all);
      }
    case While(cond, body) =>
      ScalarHides(cond, scope, all);
      BlockHides(body, scope, scope, all);
    case For(_, start, stop, body) =>
      ScalarHides(start, scope, all);
      ScalarHides(stop, scope, all);
      BlockHides(body, scope, scope, all);
    case Case(scrutinee, arms) =>
      ScalarHides(scrutinee, scope, all);
      ArmsHide(arms, scope, all);
  }

  lemma {:induction false} OperandsHide(es: seq<Expr>, scope: set<string>, all: set<string>)
    requires Operands(es, scope, all)
    ensures Hidden(DeclsAll(es), scope, all)
    decreases es, 0
  {
    if es != [] {
      ScalarHides(es[0], scope, all);
      OperandsHide(es[1..], scope, all);
    }
  }

  lemma {:induction false} ArgsHide(args: seq<Expr>, takes: seq<bool>, scope: set<string>, all: set<string>)
    requires Args(args, takes, scope, all)
    ensures Hidden(DeclsAll(args), scope, all)
    decreases args, 0
  {
    if args != [] && takes == [] {
      FlatAllDecls(args);
    } else if args != [] {
      ScalarHides(args[0], scope, all);
      ArgsHide(args[1..], takes[1..], scope, all);
    }
  }

  lemma {:induction false} StmtHides(e: Expr, scope: set<string>, all: set<string>)
    requires Stmt(e, scope, all)
    ensures Decls(e) <= all && Decls(e) - Bound(e) !! scope
    ensures e.VarDef? ==> Hidden(Decls(e.init), scope, all)
    decreases e, 2
  {
    if e.VarDef? {
      ScalarHides(e.init, scope, all);
    } else if e.If? || e.While? || e.For? || e.Case? {
      FlowHides(e, scope, all);
    } else {
      ScalarHides(e, scope, all);
    }
  }

  lemma {:induction false} BlockHides(b: seq<Expr>, outer: set<string>, scope: set<string>, all: set<string>)
    requires Block(b, outer, scope, all) && outer <= scope
    ensures Hidden(DeclsAll(b), outer, all) && BoundAll(b) <= DeclsAll(b)
    decreases b, 0
  {
    if b != [] {
      StmtHides(b[0], scope, all);
      BlockHides(b[1..], outer, scope + Bound(b[0]), all);
      assert Bound(b[0]) <= Decls(b[0]);
    }
  }

  lemma {:induction false} ArmsHide(arms: seq<Arm>, scope: set<string>, all: set<string>)
    requires Arms(arms, scope, all)
    ensures Hidden(DeclsArms(arms), scope, all)
    decreases arms, 0
  {
    if arms != [] {
      BlockHides(arms[0].body, scope, scope, all);
      ArmsHide(arms[1..], scope, all);
    }
  }

  lemma {:induction false} ScopeGrows(b: seq<Expr>, scope: set<string>)
    ensures ScopeAfter(b, scope) == scope + BoundAll(b)
  {
    if b != [] {
      ScopeGrows(b[1..], scope + Bound(b[0]));
    } else {
      assert scope + {} == scope;
    }
  }

  lemma {:induction false} ArmBlock(arms: seq<Arm>, k: nat, scope: set<string>, all: set<string>)
    requires Arms(arms, scope, all) && k < |arms|
    ensures Block(arms[k].body, scope, scope, all)
    ensures !YieldsArms(arms, all) ==> !YieldsLast(arms[k].body, all)
  {
    if k > 0 {
      ArmBlock(arms[1..], k - 1, scope, all);
    }
  }

  // ---------- Runs in the fragment ----------

  lemma {:induction false} PassCalm(s: Run, refs: seq<Ref>)
    requires !s.returned && !s.flat
    ensures Calm(s, Pass(s, refs))
    decreases |refs|
  {
    if refs != [] {
      PassCalm(Emit(s, Passed(refs[0])), refs[1..]);
    }
  }

  lemma {:induction false} ForgetCalm(b: seq<Expr>, s: Run)
    requires !s.returned && !s.flat
    ensures Calm(s, Forget(b, s)) && Forget(b, s).value == s.value && Forget(b, s).choices == s.choices
    decreases |b|
  {
    if b != [] {
      var s1 := if b[0].VarDef? && b[0].linear && b[0].name in s.env then Emit(s, Hide(s.env[b[0].name])) else s;
      ForgetCalm(b[1..], s1);
    }
  }

  lemma {:induction false} ScalarCalm(e: Expr, scope: set<string>, all: set<string>, s: Run)
    requires Scalar(e, scope, all) && Running(s, all)
    ensures Calm(s, Exec(e, s)) && Exec(e, s).value == ValueOf(e, s)
    decreases e, 3
  {
    match e
    case Leaf | Var(_) | ArrayVar(_) | AddrOf(_, _) =>
    case Opaque(operands) => OperandsCalm(operands, scope, all, s);
    case Literal(elements) => OperandsCalm(elements, scope, all, s);
    case Alloc(_) => AllocCalm(e, scope, all, s);
    case Call(_, _, _) => CallCalm(e, scope, all, s);
    case Free(operand) => OwnedCalm(operand, scope, all, s);
    case Deref(operand, _) => ScalarCalm(operand, scope, all, s);
    case Index(_, _) => IndexCalm(e, scope, all, s);
    case Binary(_, _) => BinaryCalm(e, scope, all, s);
    case Assign(_, _, _) => AssignCalm(e, scope, all, s);
    case If(_, _, _) | While(_, _) | For(_, _, _, _) | Case(_, _) => FlowCalm(e, scope, all, s);
  }

  lemma {:induction false} AllocCalm(e: Expr, scope: set<string>, all: set<string>, s: Run)
    requires e.Alloc? && Scalar(e, scope, all) && Running(s, all)
    ensures Calm(s, Obtain(e, s).0) && Calm(s, Exec(e, s)) && Exec(e, s).value == Nothing
    ensures Obtain(e, s).1.Some? && Obtain(e, s).1.value.cell >= s.supply
    decreases e, 0
  {
    ScalarCalm(e.count, scope, all, s);
  }

  lemma {:induction false} IndexCalm(e: Expr, scope: set<string>, all: set<string>, s: Run)
    requires e.Index? && Scalar(e, scope, all) && Running(s, all)
    ensures Calm(s, Exec(e, s)) && Exec(e, s).value == Nothing
    decreases e, 0
  {
    ScalarCalm(e.base, scope, all, s);
    ScalarCalm(e.index, scope, all, Exec(e.base, s));
  }

  lemma {:induction false} BinaryCalm(e: Expr, scope: set<string>, all: set<string>, s: Run)
    requires e.Binary? && Scalar(e, scope, all) && Running(s, all)
    ensures Calm(s, Exec(e, s)) && Exec(e, s).value == Nothing
    decreases e, 0
  {
    ScalarCalm(e.lhs, scope, all, s);
    ScalarCalm(e.rhs, scope, all, Exec(e.lhs, s));
  }

  lemma {:induction false} AssignCalm(e: Expr, scope: set<string>, all: set<string>, s: Run)
    requires e.Assign? && Scalar(e, scope, all) && Running(s, all)
    ensures Calm(s, Exec(e, s)) && Exec(e, s).value == Nothing
    decreases e, 0
  {
    PlaceCalm(e.lhs, scope, all, s);
    ScalarCalm(e.rhs, scope, all, Locate(e.lhs, s));
  }

  /** What the store of an assignment goes through. */
  function Through(lhs: Expr): Expr
    requires lhs.Deref? || lhs.Index?
  {
    if lhs.Deref? then lhs.operand else lhs.base
  }

  lemma {:induction false} PlaceCalm(lhs: Expr, scope: set<string>, all: set<string>, s: Run)
    requires (lhs.Deref? || lhs.Index?) && Scalar(lhs, scope, all) && Running(s, all)
    ensures Calm(s, Locate(lhs, s)) && Locate(lhs, s).value == ValueOf(Through(lhs), s)
    decreases lhs, 2
  {
    match lhs
    case Deref(operand, _) => ScalarCalm(operand, scope, all, s);
    case Index(base, index) =>
      ScalarCalm(base, scope, all, s);
      ScalarCalm(index, scope, all, Exec(base, s));
  }

  lemma {:induction false} OwnedCalm(e: Expr, scope: set<string>, all: set<string>, s: Run)
    requires Owned(e, scope, all) && Running(s, all)
    ensures Calm(s, Take(e, s).0) && (scope <= s.env.Keys ==> Take(e, s).1.Some?)
    ensures !e.Var? && Take(e, s).1.Some? ==> Take(e, s).1.value.cell >= s.supply
    decreases e, 2
  {
    match e
    case Var(_) =>
    case Alloc(_) => AllocCalm(e, scope, all, s);
    case Call(_, _, _) => CallCalm(e, scope, all, s);
  }

  lemma {:induction false} CallCalm(e: Expr, scope: set<string>, all: set<string>, s: Run)
    requires e.Call? && Args(e.args, e.takes, scope, all) && Running(s, all)
    ensures Calm(s, Obtain(e, s).0) && Calm(s, Exec(e, s)) && Exec(e, s).value == Nothing
    ensures Obtain(e, s).1.Some? ==> Obtain(e, s).1.value.cell >= s.supply
    decreases e, 0
  {
    var (s0, refs) := ExecArgs(e.args, e.takes, s);
    ArgsCalm(e.args, e.takes, scope, all, s);
    PassCalm(s0, refs);
  }

  lemma {:induction false} OperandsCalm(es: seq<Expr>, scope: set<string>, all: set<string>, s: Run)
    requires Operands(es, scope, all) && Running(s, all)
    ensures Calm(s, ExecArgs(es, [], s).0) && ExecArgs(es, [], s).1 == []
    decreases es, 0
  {
    if es != [] {
      ScalarCalm(es[0], scope, all, s);
      var s1 := Exec(es[0], s);
      OperandsCalm(es[1..], scope, all, Load(s1, s1.value));
    }
  }

  lemma {:induction false} ArgsCalm(args: seq<Expr>, takes: seq<bool>, scope: set<string>, all: set<string>, s: Run)
    requires Args(args, takes, scope, all) && Running(s, all)
    ensures Calm(s, ExecArgs(args, takes, s).0)
    decreases args, 1
  {
    if args == [] {
    } else if takes == [] {
      OperandsCalm(args, scope, all, s);
    } else if takes[0] {
      OwnedCalm(args[0], scope, all, s);
      ArgsCalm(args[1..], takes[1..], scope, all, Take(args[0], s).0);
    } else {
      ScalarCalm(args[0], scope, all, s);
      var s1 := Exec(args[0], s);
      ArgsCalm(args[1..], takes[1..], scope, all, Load(s1, s1.value));
    }
  }

  lemma {:induction false} FlowCalm(e: Expr, scope: set<string>, all: set<string>, s: Run)
    requires Flow(e, scope, all) && Running(s, all)
    ensures Calm(s, Exec(e, s)) && (!Yields(e, all) ==> Exec(e, s).value == Nothing)
    decreases e, 2
  {
    match e
    case If(_, _, _) | Case(_, _) => BranchCalm(e, scope, all, s);
    case While(_, _) =>
      var (n, s1) := Choose(s);
      IterateCalm(e, n, scope, all, s1);
    case For(_, start, stop, _) =>
      ScalarCalm(start, scope, all, s);
      ScalarCalm(stop, scope, all, Exec(start, s));
      var (n, s1) := Choose(Exec(stop, Exec(start, s)));
      IterateCalm(e, n, scope, all, s1);
  }

  lemma {:induction false} BranchCalm(e: Expr, scope: set<string>, all: set<string>, s: Run)
    requires (e.If? || e.Case?) && Flow(e, scope, all) && Running(s, all)
    ensures Calm(s, Exec(e, s)) && (!Yields(e, all) ==> Exec(e, s).value == Nothing)
    decreases e, 1
  {
    var head := if e.If? then e.cond else e.scrutinee;
    ScalarCalm(head, scope, all, s);
    var (k, s1) := Choose(Exec(head, s));
    if e.If? && k != 0 {
      InnerCalm(e.thn, scope, all, s1, true);
    } else if e.If? && e.els.Else? {
      InnerCalm(e.els.body, scope, all, s1, true);
    } else if e.Case? && e.arms != [] {
      ArmBlock(e.arms, k % |e.arms|, scope, all);
      InnerCalm(e.arms[k % |e.arms|].body, scope, all, s1, true);
    }
  }

  lemma {:induction false} IterateCalm(e: Expr, n: nat, scope: set<string>, all: set<string>, s: Run)
    requires (e.While? || e.For?) && Flow(e, scope, all) && Running(s, all)
    ensures Calm(s, Iterate(e, n, s))
    decreases e, 1, n
  {
    if e.While? {
      ScalarCalm(e.cond, scope, all, s);
    }
    var s1 := if e.While? then Exec(e.cond, s) else s;
    if n > 0 {
      InnerCalm(e.body, scope, all, s1, e.While?);
      IterateCalm(e, n - 1, scope, all, Inner(e.body, s1, e.While?));
    }
  }

  lemma {:induction false} InnerCalm(b: seq<Expr>, scope: set<string>, all: set<string>, s: Run, open: bool)
    requires Block(b, scope, scope, all) && Running(s, all)
    ensures Calm(s, Inner(b, s, open)) && (!YieldsLast(b, all) ==> Inner(b, s, open).value == Nothing)
    decreases b, 1
  {
    var s0 := Yielding(s, Nothing);
    BlockCalm(b, scope, scope, all, s0);
    ForgetCalm(b, ExecAll(b, s0));
  }

  /** A statement changes no variable but the one it declares. */
  ghost predicate StmtKeeps(s: Run, s': Run, names: set<string>)
  {
    && s.trace <= s'.trace && !s'.returned && !s'.flat && s.supply <= s'.supply
    && s.env.Keys <= s'.env.Keys <= s.env.Keys + names
    && forall y | y in s.env && y !in names :: s'.env[y] == s.env[y]
  }

  lemma {:induction false} StmtCalm(e: Expr, scope: set<string>, all: set<string>, s: Run)
    requires Stmt(e, scope, all) && Running(s, all)
    ensures StmtKeeps(s, Exec(e, s), Bound(e)) && (!Yields(e, all) ==> Exec(e, s).value == Nothing)
    ensures scope == s.env.Keys ==> Exec(e, s).env.Keys == scope + Bound(e)
    decreases e, 4
  {
    if e.VarDef? && e.linear {
      OwnedCalm(e.init, scope, all, s);
    } else if e.VarDef? {
      ScalarCalm(e.init, scope, all, s);
      Yieldless(e.init, all, s);
    } else if e.If? || e.While? || e.For? || e.Case? {
      FlowCalm(e, scope, all, s);
    } else {
      ScalarCalm(e, scope, all, s);
      Yieldless(e, all, s);
    }
  }

  lemma Yieldless(e: Expr, all: set<string>, s: Run)
    requires s.env.Keys <= all
    ensures !Yields(e, all) ==> ValueOf(e, s) == Nothing
  {
  }

  lemma {:induction false} BlockCalm(b: seq<Expr>, outer: set<string>, scope: set<string>, all: set<string>, s: Run)
    requires Block(b, outer, scope, all) && Running(s, all)
    ensures StmtKeeps(s, ExecAll(b, s), BoundAll(b)) && BoundAll(b) !! outer
    ensures if b == [] then ExecAll(b, s) == s else !YieldsLast(b, all) ==> ExecAll(b, s).value == Nothing
    ensures scope == s.env.Keys ==> ExecAll(b, s).env.Keys == ScopeAfter(b, scope)
    decreases b, 0
  {
    if b != [] {
      var s1, inner := Exec(b[0], s), scope + Bound(b[0]);
      StmtCalm(b[0], scope, all, s);
      StmtHides(b[0], scope, all);
      BlockCalm(b[1..], outer, inner, all, s1);
      if b[1..] != [] {
        assert b[1..][|b[1..]| - 1] == b[|b| - 1];
      }
    }
  }

  lemma {:induction false} ExecAppend(a: seq<Expr>, e: Expr, s: Run)
    ensures ExecAll(a + [e], s) == Exec(e, ExecAll(a, s))
  {
    if a == [] {
      assert a + [e] == [e] && [e][1..] == [];
    } else {
      assert (a + [e])[1..] == a[1..] + [e];
      ExecAppend(a[1..], e, Exec(a[0], s));
    }
  }

  /** A body that ends in a `return`. */
  lemma ReturningBody(f: Function)
    requires Returns(f.body)
    ensures f.body == Leading(f.body) + [f.body[|f.body| - 1]]
  {
  }
}
