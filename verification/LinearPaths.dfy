/** The choices that lead a run to the first thing the checker overlooks. */
module LinearPaths {
  import opened Wrappers
  import opened LinearSyntax
  import opened LinearChecker
  import opened LinearRuns
  import opened LinearGaps
  import opened LinearCalm

  /** No branch and no loop, and none of the checker's errors about pointers that own nothing. */
  predicate Straight(e: Expr)
  {
    match e
    case Leaf | Var(_) | ArrayVar(_) => true
    case Opaque(operands) => StraightAll(operands)
    case Literal(elements) => StraightAll(elements)
    case Alloc(count) => Straight(count)
    case Call(args, _, _) => StraightAll(args)
    case Free(operand) => Straight(operand)
    case Deref(operand, _) => Straight(operand)
    case Index(base, index) => Straight(base) && Straight(index)
    case AddrOf(_, linear) => !linear
    case Binary(lhs, rhs) => Straight(lhs) && Straight(rhs)
    case Assign(lhs, rhs, escapes) => !escapes && Straight(lhs) && Straight(rhs)
    case VarDef(_, _, init) => Straight(init)
    case Return(result, escapes) => !escapes && Straight(result)
    case If(_, _, _) | While(_, _) | For(_, _, _, _) | Case(_, _) => false
  }

  predicate StraightAll(es: seq<Expr>)
  {
    es == [] || (Straight(es[0]) && StraightAll(es[1..]))
  }

  // ---------- Passing code by ----------

  function Zeroes(n: nat): seq<nat>
  {
    if n == 0 then [] else [0] + Zeroes(n - 1)
  }

  lemma {:induction false} ZeroesSum(m: nat, n: nat)
    ensures Zeroes(m + n) == Zeroes(m) + Zeroes(n)
  {
    if m > 0 {
      ZeroesSum(m - 1, n);
    }
  }

  lemma TwoParts(m: nat, n: nat, rest: seq<nat>)
    ensures Zeroes(m + n) + rest == Zeroes(m) + (Zeroes(n) + rest)
  {
    ZeroesSum(m, n);
  }

  /** How many choices an expression takes if it is to run no loop's body, and the last of branches. */
  function Skips(e: Expr): nat
  {
    match e
    case Leaf | Var(_) | ArrayVar(_) | AddrOf(_, _) => 0
    case Opaque(operands) => SkipsAll(operands)
    case Literal(elements) => SkipsAll(elements)
    case Alloc(count) => Skips(count)
    case Call(args, _, _) => SkipsAll(args)
    case Free(operand) => Skips(operand)
    case Deref(operand, _) => Skips(operand)
    case Index(base, index) => Skips(base) + Skips(index)
    case Binary(lhs, rhs) => Skips(lhs) + Skips(rhs)
    case Assign(lhs, rhs, _) => Skips(lhs) + Skips(rhs)
    case VarDef(_, _, init) => Skips(init)
    case Return(result, _) => Skips(result)
    case If(cond, _, els) => Skips(cond) + (1 + if els.Else? then SkipsAll(els.body) else 0)
    case While(cond, _) => 1 + Skips(cond)
    case For(_, start, stop, _) => (Skips(start) + Skips(stop)) + 1
    case Case(scrutinee, arms) => Skips(scrutinee) + (1 + if arms == [] then 0 else SkipsAll(arms[0].body))
  }

  function SkipsAll(es: seq<Expr>): nat
  {
    if es == [] then 0 else Skips(es[0]) + SkipsAll(es[1..])
  }

  /** After the zeroes an expression takes the choices go on with the rest. */
  lemma {:induction false} ScalarSkips(e: Expr, scope: set<string>, all: set<string>, s: Run, rest: seq<nat>)
    requires Scalar(e, scope, all) && Running(s, all) && s.choices == Zeroes(Skips(e)) + rest
    ensures Exec(e, s).choices == rest
    decreases e, 3
  {
    match e
    case Leaf | Var(_) | ArrayVar(_) | AddrOf(_, _) =>
    case Opaque(_) | Literal(_) => GroupSkips(e, scope, all, s, rest);
    case Alloc(count) => ScalarSkips(count, scope, all, s, rest);
    case Call(_, _, _) => CallSkips(e, scope, all, s, rest);
    case Free(operand) => OwnedSkips(operand, scope, all, s, rest);
    case Deref(operand, _) => ScalarSkips(operand, scope, all, s, rest);
    case Index(_, _) | Binary(_, _) => OperatorSkips(e, scope, all, s, rest);
    case Assign(_, _, _) => AssignSkips(e, scope, all, s, rest);
    case If(_, _, _) | While(_, _) | For(_, _, _, _) | Case(_, _) => FlowSkips(e, scope, all, s, rest);
  }

  lemma {:induction false} GroupSkips(e: Expr, scope: set<string>, all: set<string>, s: Run, rest: seq<nat>)
    requires (e.Opaque? || e.Literal?) && Scalar(e, scope, all) && Running(s, all)
    requires s.choices == Zeroes(Skips(e)) + rest
    ensures Exec(e, s).choices == rest
    decreases e, 0
  {
    OperandsSkip(if e.Opaque? then e.operands else e.elements, scope, all, s, rest);
  }

  lemma {:induction false} OperatorSkips(e: Expr, scope: set<string>, all: set<string>, s: Run, rest: seq<nat>)
    requires (e.Index? || e.Binary?) && Scalar(e, scope, all) && Running(s, all)
    requires s.choices == Zeroes(Skips(e)) + rest
    ensures Exec(e, s).choices == rest
    decreases e, 1
  {
    if e.Index? {
      PairSkips(e, e.base, e.index, scope, all, s, rest);
    } else {
      PairSkips(e, e.lhs, e.rhs, scope, all, s, rest);
    }
  }

  lemma {:induction false} PairSkips(
    whole: Expr, lhs: Expr, rhs: Expr, scope: set<string>, all: set<string>, s: Run, rest: seq<nat>)
    requires lhs < whole && rhs < whole && Scalar(lhs, scope, all) && Scalar(rhs, scope, all) && Running(s, all)
    requires s.choices == Zeroes(Skips(lhs) + Skips(rhs)) + rest
    ensures Exec(lhs, s).choices == Zeroes(Skips(rhs)) + rest && Exec(rhs, Exec(lhs, s)).choices == rest
    decreases whole, 0
  {
    TwoParts(Skips(lhs), Skips(rhs), rest);
    ScalarSkips(lhs, scope, all, s, Zeroes(Skips(rhs)) + rest);
    ScalarCalm(lhs, scope, all, s);
    ScalarSkips(rhs, scope, all, Exec(lhs, s), rest);
  }

  lemma {:induction false} AssignSkips(e: Expr, scope: set<string>, all: set<string>, s: Run, rest: seq<nat>)
    requires e.Assign? && Scalar(e, scope, all) && Running(s, all)
    requires s.choices == Zeroes(Skips(e.lhs) + Skips(e.rhs)) + rest
    ensures Locate(e.lhs, s).choices == Zeroes(Skips(e.rhs)) + rest && Exec(e, s).choices == rest
    decreases e, 0
  {
    TwoParts(Skips(e.lhs), Skips(e.rhs), rest);
    PlaceSkips(e.lhs, scope, all, s, Zeroes(Skips(e.rhs)) + rest);
    PlaceCalm(e.lhs, scope, all, s);
    ScalarSkips(e.rhs, scope, all, Locate(e.lhs, s), rest);
  }

  lemma {:induction false} PlaceSkips(lhs: Expr, scope: set<string>, all: set<string>, s: Run, rest: seq<nat>)
    requires (lhs.Deref? || lhs.Index?) && Scalar(lhs, scope, all) && Running(s, all)
    requires s.choices == Zeroes(Skips(lhs)) + rest
    ensures Locate(lhs, s).choices == rest
    decreases lhs, 1
  {
    if lhs.Deref? {
      ScalarSkips(lhs.operand, scope, all, s, rest);
    } else {
      PairSkips(lhs, lhs.base, lhs.index, scope, all, s, rest);
    }
  }

  lemma {:induction false} OwnedSkips(e: Expr, scope: set<string>, all: set<string>, s: Run, rest: seq<nat>)
    requires Owned(e, scope, all) && Running(s, all) && s.choices == Zeroes(Skips(e)) + rest
    ensures Take(e, s).0.choices == rest
    decreases e, 2
  {
    match e
    case Var(_) =>
    case Alloc(count) => ScalarSkips(count, scope, all, s, rest);
    case Call(_, _, _) => CallSkips(e, scope, all, s, rest);
  }

  lemma {:induction false} CallSkips(e: Expr, scope: set<string>, all: set<string>, s: Run, rest: seq<nat>)
    requires e.Call? && Args(e.args, e.takes, scope, all) && Running(s, all)
    requires s.choices == Zeroes(SkipsAll(e.args)) + rest
    ensures Obtain(e, s).0.choices == rest && Exec(e, s).choices == rest
    decreases e, 0
  {
    ArgsSkip(e.args, e.takes, scope, all, s, rest);
    var (s0, refs) := ExecArgs(e.args, e.takes, s);
    PassSkips(s0, refs);
  }

  lemma {:induction false} PassSkips(s: Run, refs: seq<Ref>)
    ensures Pass(s, refs).choices == s.choices
    decreases |refs|
  {
    if refs != [] && !s.returned {
      PassSkips(Emit(s, Passed(refs[0])), refs[1..]);
    }
  }

  lemma {:induction false} OperandsSkip(es: seq<Expr>, scope: set<string>, all: set<string>, s: Run, rest: seq<nat>)
    requires Operands(es, scope, all) && Running(s, all) && s.choices == Zeroes(SkipsAll(es)) + rest
    ensures ExecArgs(es, [], s).0.choices == rest
    decreases es, 0
  {
    if es != [] {
      TwoParts(Skips(es[0]), SkipsAll(es[1..]), rest);
      ScalarSkips(es[0], scope, all, s, Zeroes(SkipsAll(es[1..])) + rest);
      ScalarCalm(es[0], scope, all, s);
      var s1 := Exec(es[0], s);
      OperandsSkip(es[1..], scope, all, Load(s1, s1.value), rest);
    }
  }

  lemma {:induction false} ArgsSkip(
    args: seq<Expr>, takes: seq<bool>, scope: set<string>, all: set<string>, s: Run, rest: seq<nat>)
    requires Args(args, takes, scope, all) && Running(s, all) && s.choices == Zeroes(SkipsAll(args)) + rest
    ensures ExecArgs(args, takes, s).0.choices == rest
    decreases args, 1
  {
    if args == [] {
    } else if takes == [] {
      OperandsSkip(args, scope, all, s, rest);
    } else {
      var next := Zeroes(SkipsAll(args[1..])) + rest;
      TwoParts(Skips(args[0]), SkipsAll(args[1..]), rest);
      if takes[0] {
        OwnedSkips(args[0], scope, all, s, next);
        OwnedCalm(args[0], scope, all, s);
        ArgsSkip(args[1..], takes[1..], scope, all, Take(args[0], s).0, rest);
      } else {
        ScalarSkips(args[0], scope, all, s, next);
        ScalarCalm(args[0], scope, all, s);
        var s1 := Exec(args[0], s);
        ArgsSkip(args[1..], takes[1..], scope, all, Load(s1, s1.value), rest);
      }
    }
  }

  lemma {:induction false} FlowSkips(e: Expr, scope: set<string>, all: set<string>, s: Run, rest: seq<nat>)
    requires Flow(e, scope, all) && Running(s, all) && s.choices == Zeroes(Skips(e)) + rest
    ensures Exec(e, s).choices == rest
    decreases e, 2
  {
    match e
    case If(_, _, _) | Case(_, _) => BranchSkips(e, scope, all, s, rest);
    case While(cond, _) =>
      TwoParts(1, Skips(cond), rest);
      ScalarSkips(cond, scope, all, Choose(s).1, rest);
    case For(_, start, stop, _) =>
      TwoParts(Skips(start) + Skips(stop), 1, rest);
      PairSkips(e, start, stop, scope, all, s, Zeroes(1) + rest);
  }

  lemma {:induction false} BranchSkips(e: Expr, scope: set<string>, all: set<string>, s: Run, rest: seq<nat>)
    requires (e.If? || e.Case?) && Flow(e, scope, all) && Running(s, all) && s.choices == Zeroes(Skips(e)) + rest
    ensures Exec(e, s).choices == rest
    decreases e, 1
  {
    var head := if e.If? then e.cond else e.scrutinee;
    var body := if e.If? then (if e.els.Else? then e.els.body else []) else if e.arms == [] then [] else e.arms[0].body;
    var s1 := Exec(head, s);
    TwoParts(Skips(head), 1 + SkipsAll(body), rest);
    ScalarSkips(head, scope, all, s, Zeroes(1 + SkipsAll(body)) + rest);
    ScalarCalm(head, scope, all, s);
    TwoParts(1, SkipsAll(body), rest);
    assert Choose(s1).0 == 0 && Choose(s1).1.choices == Zeroes(SkipsAll(body)) + rest;
    if (e.If? && e.els.Else?) || (e.Case? && e.arms != []) {
      InnerSkips(body, scope, all, Choose(s1).1, rest);
    }
  }

  lemma {:induction false} InnerSkips(b: seq<Expr>, scope: set<string>, all: set<string>, s: Run, rest: seq<nat>)
    requires Block(b, scope, scope, all) && Running(s, all) && s.choices == Zeroes(SkipsAll(b)) + rest
    ensures Inner(b, s, true).choices == rest
    decreases b, 1
  {
    var s0 := Yielding(s, Nothing);
    BlockSkips(b, scope, scope, all, s0, rest);
    BlockCalm(b, scope, scope, all, s0);
    ForgetCalm(b, ExecAll(b, s0));
  }

  lemma {:induction false} StmtSkips(e: Expr, scope: set<string>, all: set<string>, s: Run, rest: seq<nat>)
    requires Stmt(e, scope, all) && Running(s, all) && s.choices == Zeroes(Skips(e)) + rest
    ensures Exec(e, s).choices == rest
    decreases e, 4
  {
    if e.VarDef? && e.linear {
      OwnedSkips(e.init, scope, all, s, rest);
    } else if e.VarDef? {
      ScalarSkips(e.init, scope, all, s, rest);
    } else if e.If? || e.While? || e.For? || e.Case? {
      FlowSkips(e, scope, all, s, rest);
    } else {
      ScalarSkips(e, scope, all, s, rest);
    }
  }

  lemma {:induction false} BlockSkips(
    b: seq<Expr>, outer: set<string>, scope: set<string>, all: set<string>, s: Run, rest: seq<nat>)
    requires Block(b, outer, scope, all) && Running(s, all) && s.choices == Zeroes(SkipsAll(b)) + rest
    ensures ExecAll(b, s).choices == rest
    decreases b, 0
  {
    if b != [] {
      TwoParts(Skips(b[0]), SkipsAll(b[1..]), rest);
      StmtSkips(b[0], scope, all, s, Zeroes(SkipsAll(b[1..])) + rest);
      StmtCalm(b[0], scope, all, s);
      StmtHides(b[0], scope, all);
      BlockSkips(b[1..], outer, scope + Bound(b[0]), all, Exec(b[0], s), rest);
    }
  }

  lemma {:induction false} StraightSkips(e: Expr)
    requires Straight(e)
    ensures Skips(e) == 0
    decreases e
  {
    match e
    case Leaf | Var(_) | ArrayVar(_) | AddrOf(_, _) =>
    case Opaque(operands) => StraightAllSkip(operands);
    case Literal(elements) => StraightAllSkip(elements);
    case Alloc(count) => StraightSkips(count);
    case Call(args, _, _) => StraightAllSkip(args);
    case Free(operand) => StraightSkips(operand);
    case Deref(operand, _) => StraightSkips(operand);
    case Index(base, index) =>
      StraightSkips(base);
      StraightSkips(index);
    case Binary(lhs, rhs) =>
      StraightSkips(lhs);
      StraightSkips(rhs);
    case Assign(lhs, rhs, _) =>
      StraightSkips(lhs);
      StraightSkips(rhs);
    case VarDef(_, _, init) => StraightSkips(init);
    case Return(result, _) => StraightSkips(result);
  }

  lemma {:induction false} StraightAllSkip(es: seq<Expr>)
    requires StraightAll(es)
    ensures SkipsAll(es) == 0
    decreases es
  {
    if es != [] {
      StraightSkips(es[0]);
      StraightAllSkip(es[1..]);
    }
  }

  // ---------- The way to what is overlooked ----------

  /** Choices that lead to the first part of the expression in which something is overlooked. */
  function Path(c: Chk, t: Ties, e: Expr): seq<nat>
    decreases e, 1
  {
    match e
    case Literal(elements) => PathAll(c, t, elements)
    case Call(args, takes, _) => PathArgs(c, t, args, takes)
    case Free(operand) => PathOwned(c, t, operand)
    case Deref(operand, _) => Path(c, t, operand)
    case Index(base, index) =>
      if !Clear(true, c, t, base) then Path(c, t, base) else Zeroes(Skips(base)) + Path(CheckExpr(c, base), t, index)
    case Binary(lhs, rhs) =>
      if !Clear(true, c, t, lhs) then Path(c, t, lhs) else Zeroes(Skips(lhs)) + Path(CheckExpr(c, lhs), t, rhs)
    case Assign(lhs, rhs, _) =>
      if !ClearPlace(true, c, t, lhs) then PathPlace(c, t, lhs)
      else Zeroes(Skips(lhs)) + Path(CheckExpr(c, lhs), t, rhs)
    case If(cond, thn, els) =>
      var c0 := CheckExpr(c, cond);
      var c1 := CheckBlock(c0, thn);
      if !Clear(true, c, t, cond) then Path(c, t, cond)
      else if !ClearInner(c0, t, thn) then Zeroes(Skips(cond)) + ([1] + PathBlock(c0, t, {}, thn))
      else if els.NoElse? then []
      else Zeroes(Skips(cond)) + ([0] + PathBlock(c1.(vars := Overwrite(c1.vars, c0.vars)), t, {}, els.body))
    case While(cond, body) =>
      if !Clear(true, c, t, cond) then [0] + Path(c, t, cond)
      else [1] + (Zeroes(Skips(cond)) + PathBlock(CheckExpr(c, cond), t, {}, body))
    case For(_, start, stop, body) =>
      var c1 := CheckExpr(c, start);
      if !Clear(true, c, t, start) then Path(c, t, start)
      else if !Clear(true, c1, t, stop) then Zeroes(Skips(start)) + Path(c1, t, stop)
      else Zeroes(Skips(start) + Skips(stop)) + ([1] + PathBlock(CheckExpr(c1, stop), t, {}, body))
    case Case(scrutinee, arms) =>
      var c0 := CheckExpr(c, scrutinee);
      if !Clear(true, c, t, scrutinee) then Path(c, t, scrutinee)
      else Zeroes(Skips(scrutinee)) + PathArms(c0, c0.vars, t, arms, 0)
    case VarDef(_, linear, init) => if linear then PathOwned(c, t, init) else Path(c, t, init)
    case _ => []
  }

  function PathPlace(c: Chk, t: Ties, lhs: Expr): seq<nat>
    decreases lhs, 2
  {
    match lhs
    case Deref(operand, _) => Path(c, t, operand)
    case Index(base, index) =>
      if !Clear(true, c, t, base) then Path(c, t, base) else Zeroes(Skips(base)) + Path(CheckExpr(c, base), t, index)
    case _ => []
  }

  function PathOwned(c: Chk, t: Ties, e: Expr): seq<nat>
    decreases e, 0
  {
    if e.Call? then PathArgs(c, t, e.args, e.takes) else []
  }

  function PathAll(c: Chk, t: Ties, es: seq<Expr>): seq<nat>
    decreases es, 0
  {
    if es == [] then []
    else if !Clear(true, c, t, es[0]) then Path(c, t, es[0])
    else Zeroes(Skips(es[0])) + PathAll(CheckExpr(c, es[0]), t, es[1..])
  }

  function PathArgs(c: Chk, t: Ties, args: seq<Expr>, takes: seq<bool>): seq<nat>
    decreases args, 0
  {
    if args == [] || takes == [] then []
    else if takes[0] then
      if !ClearOwned(true, c, t, args[0]) then PathOwned(c, t, args[0])
      else Zeroes(Skips(args[0])) + PathArgs(CheckOwned(c, args[0]), Awaiting(t, args[0]), args[1..], takes[1..])
    else
      if !Clear(true, c, t, args[0]) then Path(c, t, args[0])
      else Zeroes(Skips(args[0])) + PathArgs(CheckExpr(c, args[0]), t, args[1..], takes[1..])
  }

  function PathBlock(c: Chk, t: Ties, own: set<string>, b: seq<Expr>): seq<nat>
    decreases b, 0
  {
    if b == [] then []
    else if !ClearStmt(c, t, own, b[0]) then Path(c, t, b[0])
    else Zeroes(Skips(b[0])) + PathBlock(CheckStmt(c, b[0]), TiesAfter(t, b[0]), own + Bound(b[0]), b[1..])
  }

  /** The first arm to go wrong, counting from `k`. */
  function PathArms(c: Chk, before: Vars, t: Ties, arms: seq<Arm>, k: nat): seq<nat>
    decreases arms, 0
  {
    if arms == [] then []
    else
      var c0 := c.(vars := Overwrite(c.vars, before));
      if !ClearInner(c0, t, arms[0].body) then [k] + PathBlock(c0, t, {}, arms[0].body)
      else PathArms(CheckBlock(c0, arms[0].body), before, t, arms[1..], k + 1)
  }
}
