/** What the checker refuses breaks a rule in some run, also where there are branches and loops. */
module LinearRefusals {
  import opened Wrappers
  import opened LinearSyntax
  import opened LinearChecker
  import opened LinearFlow
  import opened LinearRuns
  import opened LinearGaps
  import opened LinearCalm
  import opened LinearInvariant
  import opened LinearSafety
  import opened LinearBreaks
  import opened LinearPaths
  import opened LinearLater
  import opened LinearOverlooked
  import opened LinearStraight

  // ---------- Structured code ----------

  /** Branches and loops are statements or the values of variables, and what they test is straight. */
  predicate Structured(e: Expr)
    decreases e
  {
    match e
    case If(cond, thn, els) =>
      Straight(cond) && StructuredAll(thn) && (els.Else? ==> StructuredAll(els.body))
    case While(cond, body) => Straight(cond) && StructuredAll(body)
    case For(_, start, stop, body) => Straight(start) && Straight(stop) && StructuredAll(body)
    case Case(scrutinee, arms) => Straight(scrutinee) && StructuredArms(arms)
    case VarDef(_, linear, init) => if linear then Straight(init) else Structured(init)
    case _ => Straight(e)
  }

  predicate StructuredAll(b: seq<Expr>)
    decreases b
  {
    b == [] || (Structured(b[0]) && StructuredAll(b[1..]))
  }

  predicate StructuredArms(arms: seq<Arm>)
    decreases arms
  {
    arms == [] || (StructuredAll(arms[0].body) && StructuredArms(arms[1..]))
  }

  // ---------- Straight code makes no choices ----------

  function Fed(s: Run, choices: seq<nat>): Run
  {
    s.(choices := choices)
  }

  lemma {:induction false} StraightFed(e: Expr, scope: set<string>, all: set<string>, s: Run, r: seq<nat>)
    requires (Scalar(e, scope, all) || Owned(e, scope, all)) && Straight(e)
    ensures Exec(e, Fed(s, r)) == Fed(Exec(e, s), r)
    decreases e, 3
  {
    match e
    case Leaf | Var(_) | ArrayVar(_) | AddrOf(_, _) =>
    case Opaque(_) | Literal(_) => GroupFed(e, scope, all, s, r);
    case Alloc(_) | Call(_, _, _) => ObtainFed(e, scope, all, s, r);
    case Free(_) => FreeFed(e, scope, all, s, r);
    case Deref(_, _) => DerefFed(e, scope, all, s, r);
    case Index(_, _) => IndexFed(e, scope, all, s, r);
    case Binary(_, _) => BinaryFed(e, scope, all, s, r);
    case Assign(_, _, _) => AssignFed(e, scope, all, s, r);
  }

  lemma TouchFed(s: Run, v: Value, r: seq<nat>)
    ensures Touch(Fed(s, r), v) == Fed(Touch(s, v), r) && Load(Fed(s, r), v) == Fed(Load(s, v), r)
  {
  }

  lemma {:induction false} GroupFed(e: Expr, scope: set<string>, all: set<string>, s: Run, r: seq<nat>)
    requires (e.Opaque? || e.Literal?) && Scalar(e, scope, all) && Straight(e)
    ensures Exec(e, Fed(s, r)) == Fed(Exec(e, s), r)
    decreases e, 0
  {
    OperandsFed(if e.Opaque? then e.operands else e.elements, scope, all, s, r);
  }

  lemma {:induction false} FreeFed(e: Expr, scope: set<string>, all: set<string>, s: Run, r: seq<nat>)
    requires e.Free? && Scalar(e, scope, all) && Straight(e)
    ensures Exec(e, Fed(s, r)) == Fed(Exec(e, s), r)
    decreases e, 0
  {
    TakeFed(e.operand, scope, all, s, r);
  }

  lemma {:induction false} DerefFed(e: Expr, scope: set<string>, all: set<string>, s: Run, r: seq<nat>)
    requires e.Deref? && Scalar(e, scope, all) && Straight(e)
    ensures Exec(e, Fed(s, r)) == Fed(Exec(e, s), r)
    decreases e, 0
  {
    StraightFed(e.operand, scope, all, s, r);
    TouchFed(Exec(e.operand, s), Exec(e.operand, s).value, r);
  }

  lemma {:induction false} IndexFed(e: Expr, scope: set<string>, all: set<string>, s: Run, r: seq<nat>)
    requires e.Index? && Scalar(e, scope, all) && Straight(e)
    ensures Exec(e, Fed(s, r)) == Fed(Exec(e, s), r)
    decreases e, 0
  {
    var s1 := Exec(e.base, s);
    StraightFed(e.base, scope, all, s, r);
    StraightFed(e.index, scope, all, s1, r);
    TouchFed(Exec(e.index, s1), s1.value, r);
  }

  lemma {:induction false} BinaryFed(e: Expr, scope: set<string>, all: set<string>, s: Run, r: seq<nat>)
    requires e.Binary? && Scalar(e, scope, all) && Straight(e)
    ensures Exec(e, Fed(s, r)) == Fed(Exec(e, s), r)
    decreases e, 0
  {
    var s1 := Exec(e.lhs, s);
    var s2 := Exec(e.rhs, s1);
    StraightFed(e.lhs, scope, all, s, r);
    StraightFed(e.rhs, scope, all, s1, r);
    TouchFed(s2, s1.value, r);
    TouchFed(Load(s2, s1.value), s2.value, r);
  }

  lemma {:induction false} AssignFed(e: Expr, scope: set<string>, all: set<string>, s: Run, r: seq<nat>)
    requires e.Assign? && Scalar(e, scope, all) && Straight(e)
    ensures Exec(e, Fed(s, r)) == Fed(Exec(e, s), r)
    decreases e, 1
  {
    var s1 := Locate(e.lhs, s);
    var s2 := Exec(e.rhs, s1);
    PlaceFed(e.lhs, scope, all, s, r);
    StraightFed(e.rhs, scope, all, s1, r);
    TouchFed(s2, s2.value, r);
    TouchFed(Load(s2, s2.value), s1.value, r);
  }

  lemma {:induction false} PlaceFed(lhs: Expr, scope: set<string>, all: set<string>, s: Run, r: seq<nat>)
    requires (lhs.Deref? || lhs.Index?) && Scalar(lhs, scope, all) && Straight(lhs)
    ensures Locate(lhs, Fed(s, r)) == Fed(Locate(lhs, s), r)
    decreases lhs, 0
  {
    if lhs.Deref? {
      StraightFed(lhs.operand, scope, all, s, r);
    } else {
      StraightFed(lhs.base, scope, all, s, r);
      StraightFed(lhs.index, scope, all, Exec(lhs.base, s), r);
    }
  }

  lemma {:induction false} TakeFed(e: Expr, scope: set<string>, all: set<string>, s: Run, r: seq<nat>)
    requires (Scalar(e, scope, all) || Owned(e, scope, all)) && Straight(e)
    ensures Take(e, Fed(s, r)) == (Fed(Take(e, s).0, r), Take(e, s).1)
    decreases e, 4
  {
    if e.Alloc? || e.Call? {
      ObtainFed(e, scope, all, s, r);
    } else {
      StraightFed(e, scope, all, s, r);
    }
  }

  lemma {:induction false} ObtainFed(e: Expr, scope: set<string>, all: set<string>, s: Run, r: seq<nat>)
    requires (e.Alloc? || e.Call?) && (Scalar(e, scope, all) || Owned(e, scope, all)) && Straight(e)
    ensures Obtain(e, Fed(s, r)) == (Fed(Obtain(e, s).0, r), Obtain(e, s).1)
    ensures Exec(e, Fed(s, r)) == Fed(Exec(e, s), r)
    decreases e, 2
  {
    if e.Alloc? {
      StraightFed(e.count, scope, all, s, r);
    } else {
      ArgsFed(e.args, e.takes, scope, all, s, r);
      var (s1, refs) := ExecArgs(e.args, e.takes, s);
      PassFed(s1, refs, r);
    }
  }

  lemma {:induction false} PassFed(s: Run, refs: seq<Ref>, r: seq<nat>)
    ensures Pass(Fed(s, r), refs) == Fed(Pass(s, refs), r)
    decreases |refs|
  {
    if refs != [] && !s.returned {
      assert Emit(Fed(s, r), Passed(refs[0])) == Fed(Emit(s, Passed(refs[0])), r);
      PassFed(Emit(s, Passed(refs[0])), refs[1..], r);
    }
  }

  lemma {:induction false} OperandsFed(es: seq<Expr>, scope: set<string>, all: set<string>, s: Run, r: seq<nat>)
    requires Operands(es, scope, all) && StraightAll(es)
    ensures ExecArgs(es, [], Fed(s, r)) == (Fed(ExecArgs(es, [], s).0, r), ExecArgs(es, [], s).1)
    decreases es, 0
  {
    if es != [] {
      var s1 := Exec(es[0], s);
      StraightFed(es[0], scope, all, s, r);
      assert Load(Fed(s1, r), s1.value) == Fed(Load(s1, s1.value), r);
      OperandsFed(es[1..], scope, all, Load(s1, s1.value), r);
    }
  }

  lemma {:induction false} ArgsFed(
    args: seq<Expr>, takes: seq<bool>, scope: set<string>, all: set<string>, s: Run, r: seq<nat>)
    requires Args(args, takes, scope, all) && StraightAll(args)
    ensures ExecArgs(args, takes, Fed(s, r)) == (Fed(ExecArgs(args, takes, s).0, r), ExecArgs(args, takes, s).1)
    decreases args, 1
  {
    if args == [] {
    } else if takes == [] {
      OperandsFed(args, scope, all, s, r);
    } else if takes[0] {
      TakeFed(args[0], scope, all, s, r);
      ArgsFed(args[1..], takes[1..], scope, all, Take(args[0], s).0, r);
    } else {
      var s1 := Exec(args[0], s);
      StraightFed(args[0], scope, all, s, r);
      assert Load(Fed(s1, r), s1.value) == Fed(Load(s1, s1.value), r);
      ArgsFed(args[1..], takes[1..], scope, all, Load(s1, s1.value), r);
    }
  }

  lemma StraightStmtFed(e: Expr, scope: set<string>, all: set<string>, s: Run, r: seq<nat>)
    requires Stmt(e, scope, all) && Straight(e)
    ensures Exec(e, Fed(s, r)) == Fed(Exec(e, s), r)
  {
    if e.VarDef? && e.linear {
      TakeFed(e.init, scope, all, s, r);
    } else if e.VarDef? {
      StraightFed(e.init, scope, all, s, r);
    } else {
      StraightFed(e, scope, all, s, r);
    }
  }

  lemma {:induction false} ForgetFed(b: seq<Expr>, s: Run, r: seq<nat>)
    ensures Forget(b, Fed(s, r)) == Fed(Forget(b, s), r)
    decreases |b|
  {
    if b != [] && !s.returned {
      if b[0].VarDef? && b[0].linear && b[0].name in s.env {
        var h := Hide(s.env[b[0].name]);
        assert Emit(Fed(s, r), h) == Fed(Emit(s, h), r);
        ForgetFed(b[1..], Emit(s, h), r);
      } else {
        ForgetFed(b[1..], s, r);
      }
    }
  }

  // ---------- Ways through code ----------

  /** The choices lead through the expression, and what the run does there does not depend on later ones. */
  ghost predicate Leads(e: Expr, s: Run, p: seq<nat>)
  {
    forall rest :: Exec(e, Fed(s, p + rest)) == Fed(Exec(e, Fed(s, p)), rest)
  }

  ghost predicate LeadsAll(b: seq<Expr>, s: Run, p: seq<nat>)
  {
    forall rest :: ExecAll(b, Fed(s, p + rest)) == Fed(ExecAll(b, Fed(s, p)), rest)
  }

  ghost predicate LeadsInner(b: seq<Expr>, s: Run, p: seq<nat>, open: bool)
  {
    forall rest :: Inner(b, Fed(s, p + rest), open) == Fed(Inner(b, Fed(s, p), open), rest)
  }

  lemma LeadsThen(e: Expr, b: seq<Expr>, s: Run, p: seq<nat>, q: seq<nat>)
    requires Leads(e, s, p) && LeadsAll(b, Exec(e, Fed(s, p)), q)
    ensures LeadsAll([e] + b, s, p + q)
    ensures ExecAll([e] + b, Fed(s, p + q)) == ExecAll(b, Fed(Exec(e, Fed(s, p)), q))
  {
    assert ([e] + b)[1..] == b;
    forall rest
      ensures ExecAll([e] + b, Fed(s, p + q + rest)) == Fed(ExecAll(b, Fed(Exec(e, Fed(s, p)), q)), rest)
    {
      assert p + q + rest == p + (q + rest);
      assert Exec(e, Fed(s, p + (q + rest))) == Fed(Exec(e, Fed(s, p)), q + rest);
      assert Fed(Exec(e, Fed(s, p)), q + rest) == Fed(Fed(Exec(e, Fed(s, p)), q + rest), q + rest);
    }
    assert p + q + [] == p + q;
    assert ExecAll([e] + b, Fed(s, p + q + [])) == Fed(ExecAll(b, Fed(Exec(e, Fed(s, p)), q)), []);
    assert Exec(e, Fed(s, p + q)) == Fed(Exec(e, Fed(s, p)), q);
  }

  /** A way through code: choices, and the states in which the checker would follow it. */
  datatype Way = Way(path: seq<nat>, vars: Vars)

  /** Either code is accepted and nothing in it overlooked, and it can be got through; or some choices lead to the
      breach of a rule; or there are two ways through it, at the end of which the same owner has been consumed and has
      not. */
  datatype Outcome =
    | Fine(path: seq<nat>)
    | Breaks(path: seq<nat>)
    | Splits(name: string, gone: Way, left: Way)

  /** Names that are out of scope have been consumed. */
  predicate Tidy(vars: Vars, scope: set<string>)
  {
    forall x | x in vars && x !in scope :: vars[x] == Consumed
  }

  /** What has been consumed stays consumed. */
  predicate Kept(names: set<string>, vars: Vars, vars': Vars)
  {
    forall y | y in names && y in vars && vars[y] == Consumed :: y in vars' && vars'[y] == Consumed
  }

  predicate Parted(x: string, scope: set<string>, gone: Vars, left: Vars)
  {
    x in scope && x in gone && gone[x] == Consumed && x in left && left[x] == Unconsumed
  }

  ghost predicate Illegal(s: Run)
  {
    !Audit(s.trace).legal
  }

  /** The checker's state describes the end of a way that leaves the variables around it as they are. */
  ghost predicate Ends(scope: set<string>, all: set<string>, t: Ties, before: Vars, w: Way, s: Run)
  {
    Inv(scope, all, t, w.vars, s, {}) && Tidy(w.vars, scope) && Kept(scope, before, w.vars)
  }

  ghost predicate InnerOutcome(
    c: Chk, b: seq<Expr>, scope: set<string>, all: set<string>, t: Ties, s: Run, open: bool, r: Outcome)
  {
    match r
    case Fine(p) =>
      && !CheckBlock(c, b).failed && ClearInner(c, t, b) && LeadsInner(b, s, p, open)
      && Ends(scope, all, t, c.vars, Way(p, CheckBlock(c, b).vars), Inner(b, Fed(s, p), open))
    case Breaks(p) => forall rest :: Illegal(Inner(b, Fed(s, p + rest), open))
    case Splits(x, a, l) =>
      && Parted(x, scope, a.vars, l.vars) && LeadsInner(b, s, a.path, open) && LeadsInner(b, s, l.path, open)
      && Ends(scope, all, t, c.vars, a, Inner(b, Fed(s, a.path), open))
      && Ends(scope, all, t, c.vars, l, Inner(b, Fed(s, l.path), open))
  }

  ghost predicate FlowOutcome(c: Chk, e: Expr, scope: set<string>, all: set<string>, t: Ties, s: Run, r: Outcome)
  {
    match r
    case Fine(p) =>
      && !CheckExpr(c, e).failed && Clear(true, c, t, e) && Leads(e, s, p) && Tidy(CheckExpr(c, e).vars, scope)
    case Breaks(p) => forall rest :: Illegal(Exec(e, Fed(s, p + rest)))
    case Splits(x, a, l) =>
      && Parted(x, scope, a.vars, l.vars) && Leads(e, s, a.path) && Leads(e, s, l.path)
      && Ends(scope, all, t, c.vars, a, Exec(e, Fed(s, a.path)))
      && Ends(scope, all, t, c.vars, l, Exec(e, Fed(s, l.path)))
  }

  /** The same between the statements of a block. */
  ghost predicate Point(scope: set<string>, all: set<string>, t: Ties, vars: Vars, s: Run)
  {
    Full(scope, all, t, vars, s, {}) && Tidy(vars, scope)
  }

  ghost predicate StmtOutcome(
    c: Chk, e: Expr, outer: set<string>, scope: set<string>, all: set<string>, t: Ties, own: set<string>, s: Run,
    r: Outcome)
  {
    var inner, t1 := scope + Bound(e), TiesAfter(t, e);
    match r
    case Fine(p) =>
      && !CheckStmt(c, e).failed && ClearStmt(c, t, own, e) && Leads(e, s, p)
      && Point(inner, all, t1, CheckStmt(c, e).vars, Exec(e, Fed(s, p))) && Kept(outer, c.vars, CheckStmt(c, e).vars)
    case Breaks(p) => forall rest :: Illegal(Exec(e, Fed(s, p + rest)))
    case Splits(x, a, l) =>
      && Parted(x, inner, a.vars, l.vars) && Leads(e, s, a.path) && Leads(e, s, l.path)
      && Point(inner, all, t1, a.vars, Exec(e, Fed(s, a.path))) && Kept(outer, c.vars, a.vars)
      && Point(inner, all, t1, l.vars, Exec(e, Fed(s, l.path))) && Kept(outer, c.vars, l.vars)
  }

  ghost predicate BlockOutcome(
    c: Chk, b: seq<Expr>, outer: set<string>, scope: set<string>, all: set<string>, t: Ties, own: set<string>, s: Run,
    r: Outcome)
  {
    var inner, t1 := ScopeAfter(b, scope), TiesAfterAll(t, b);
    match r
    case Fine(p) =>
      && !CheckBlock(c, b).failed && ClearBlock(c, t, own, b) && LeadsAll(b, s, p)
      && Point(inner, all, t1, CheckBlock(c, b).vars, ExecAll(b, Fed(s, p))) && Kept(outer, c.vars, CheckBlock(c, b).vars)
    case Breaks(p) => forall rest :: Illegal(ExecAll(b, Fed(s, p + rest)))
    case Splits(x, a, l) =>
      && Parted(x, inner, a.vars, l.vars) && LeadsAll(b, s, a.path) && LeadsAll(b, s, l.path)
      && Point(inner, all, t1, a.vars, ExecAll(b, Fed(s, a.path))) && Kept(outer, c.vars, a.vars)
      && Point(inner, all, t1, l.vars, ExecAll(b, Fed(s, l.path))) && Kept(outer, c.vars, l.vars)
  }

  /** Which choices are still to come makes no difference. */
  lemma FedFull(scope: set<string>, all: set<string>, t: Ties, vars: Vars, s: Run, r: seq<nat>)
    requires Full(scope, all, t, vars, s, {})
    ensures Full(scope, all, t, vars, Fed(s, r), {}) && t.pending == {}
  {
    assert Waiting(s.env, {}) == {};
  }

  // ---------- Leaving a block ----------

  lemma InnerLeads(b: seq<Expr>, s: Run, p: seq<nat>, open: bool)
    requires LeadsAll(b, Yielding(s, Nothing), p)
    ensures LeadsInner(b, s, p, open)
  {
    var s0 := Yielding(s, Nothing);
    forall rest ensures Inner(b, Fed(s, p + rest), open) == Fed(Inner(b, Fed(s, p), open), rest) {
      assert Yielding(Fed(s, p + rest), Nothing) == Fed(s0, p + rest) && Yielding(Fed(s, p), Nothing) == Fed(s0, p);
      var s1 := ExecAll(b, Fed(s0, p));
      assert ExecAll(b, Fed(s0, p + rest)) == Fed(s1, rest);
      ForgetFed(b, s1, rest);
    }
  }

  /** At the end of a way through a block all its own owners have been consumed. */
  lemma InnerEnds(
    b: seq<Expr>, scope: set<string>, all: set<string>, t: Ties, before: Vars, s: Run, w: Way, open: bool)
    requires Block(b, scope, scope, all) && Inv(scope, all, t, before, s, {})
    requires Point(ScopeAfter(b, scope), all, TiesAfterAll(t, b), w.vars, ExecAll(b, Fed(Yielding(s, Nothing), w.path)))
    requires Kept(scope, before, w.vars) && forall y | y in BoundAll(b) :: y in w.vars && w.vars[y] == Consumed
    ensures Ends(scope, all, t, before, w, Inner(b, Fed(s, w.path), open))
  {
    var s0 := Yielding(Fed(s, w.path), Nothing);
    assert s0 == Fed(Yielding(s, Nothing), w.path);
    var s1, t1, inner := ExecAll(b, s0), TiesAfterAll(t, b), ScopeAfter(b, scope);
    ScopeGrows(b, scope);
    BlockCalm(b, scope, scope, all, s0);
    TiesPending(t, b);
    assert Waiting(s.env, {}) == {} && t1.pending == {};
    Forgets(b, inner, all, t1, w.vars, s1, {});
    ForgetCalm(b, s1);
    Leaves(scope, inner, all, t, t1, before, w.vars, s, Forget(b, s1), {});
    assert Inner(b, Fed(s, w.path), open) ==
           Forget(b, s1).(env := s.env, views := s.views);
  }

  /** Or one of them has not, which breaks a rule. */
  lemma InnerLeaks(
    b: seq<Expr>, scope: set<string>, all: set<string>, t: Ties, s: Run, w: Way, y: string, open: bool)
    requires Block(b, scope, scope, all) && LeadsAll(b, Yielding(s, Nothing), w.path)
    requires Point(ScopeAfter(b, scope), all, TiesAfterAll(t, b), w.vars, ExecAll(b, Fed(Yielding(s, Nothing), w.path)))
    requires y in BoundAll(b) && y in w.vars && w.vars[y] == Unconsumed
    ensures forall rest :: Illegal(Inner(b, Fed(s, w.path + rest), open))
  {
    var s0 := Yielding(s, Nothing);
    var s1 := ExecAll(b, Fed(s0, w.path));
    ScopeGrows(b, scope);
    forall rest ensures Illegal(Inner(b, Fed(s, w.path + rest), open)) {
      assert Yielding(Fed(s, w.path + rest), Nothing) == Fed(s0, w.path + rest);
      assert ExecAll(b, Fed(s0, w.path + rest)) == Fed(s1, rest);
      ForgetBreaks(b, Fed(s1, rest), y);
    }
  }

  /** What goes wrong in a block goes wrong. */
  lemma InnerBreaks(b: seq<Expr>, scope: set<string>, all: set<string>, s: Run, p: seq<nat>, open: bool)
    requires Block(b, scope, scope, all) && Running(s, all)
    requires forall rest :: Illegal(ExecAll(b, Fed(Yielding(s, Nothing), p + rest)))
    ensures forall rest :: Illegal(Inner(b, Fed(s, p + rest), open))
  {
    forall rest ensures Illegal(Inner(b, Fed(s, p + rest), open)) {
      var s0 := Fed(Yielding(s, Nothing), p + rest);
      assert Yielding(Fed(s, p + rest), Nothing) == s0;
      assert Illegal(ExecAll(b, s0));
      BlockCalm(b, scope, scope, all, s0);
      ForgetCalm(b, ExecAll(b, s0));
      Stays(ExecAll(b, s0), Inner(b, Fed(s, p + rest), open));
    }
  }

  /** The owners of its own with which a block is left. */
  function Unsettled(vars: Vars, b: seq<Expr>): set<string>
  {
    set y | y in BoundAll(b) && y in vars && vars[y] == Unconsumed
  }

  lemma InnerSettles(c: Chk, b: seq<Expr>, scope: set<string>, all: set<string>, t: Ties, s: Run, open: bool, r0: Outcome)
    returns (r: Outcome)
    requires Block(b, scope, scope, all) && Point(scope, all, t, c.vars, s)
    requires BlockOutcome(c, b, scope, scope, all, t, {}, Yielding(s, Nothing), r0)
    ensures InnerOutcome(c, b, scope, all, t, s, open, r)
  {
    ScopeGrows(b, scope);
    match r0
    case Breaks(p) =>
      InnerBreaks(b, scope, all, s, p, open);
      r := Breaks(p);
    case Fine(p) =>
      var w := Way(p, CheckBlock(c, b).vars);
      var bad := Unsettled(w.vars, b);
      if bad == {} {
        InnerLeads(b, s, p, open);
        SettledAll(w.vars, b, scope);
        InnerEnds(b, scope, all, t, c.vars, s, w, open);
        r := Fine(p);
      } else {
        var y :| y in bad;
        InnerLeaks(b, scope, all, t, s, w, y, open);
        r := Breaks(p);
      }
    case Splits(x, a, l) =>
      var bad, bad' := Unsettled(a.vars, b), Unsettled(l.vars, b);
      if bad != {} {
        var y :| y in bad;
        InnerLeaks(b, scope, all, t, s, a, y, open);
        r := Breaks(a.path);
      } else if bad' != {} {
        var y :| y in bad';
        InnerLeaks(b, scope, all, t, s, l, y, open);
        r := Breaks(l.path);
      } else {
        InnerLeads(b, s, a.path, open);
        InnerLeads(b, s, l.path, open);
        SettledAll(a.vars, b, scope);
        SettledAll(l.vars, b, scope);
        InnerEnds(b, scope, all, t, c.vars, s, a, open);
        InnerEnds(b, scope, all, t, c.vars, s, l, open);
        r := Splits(x, a, l);
      }
  }

  lemma SettledAll(vars: Vars, b: seq<Expr>, scope: set<string>)
    requires Unsettled(vars, b) == {} && ScopeAfter(b, scope) <= vars.Keys
    ensures Settles(vars, b) && forall y | y in BoundAll(b) :: y in vars && vars[y] == Consumed
  {
    ScopeGrows(b, scope);
    forall y | y in BoundAll(b) ensures y in vars && vars[y] == Consumed {
      assert y !in Unsettled(vars, b);
    }
  }
}
