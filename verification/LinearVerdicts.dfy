/** Structured code is accepted, or some of its runs break a rule, or two of its runs part over an owner. */
module LinearVerdicts {
  import opened Wrappers
  import opened LinearSyntax
  import opened LinearChecker
  import opened LinearFlow
  import opened LinearRuns
  import opened LinearGaps
  import opened LinearCalm
  import opened LinearInvariant
  import opened LinearSafety
  import opened LinearBreaks
  import opened LinearPaths
  import opened LinearLater
  import opened LinearOverlooked
  import opened LinearStraight
  import opened LinearRefusals

  // ---------- One after the other ----------

  /** A state in which there is no error yet. */
  function Clean(vars: Vars): Chk
  {
    Chk(vars, false)
  }

  /** What code does that two ways have led to, and that is accepted behind both. */
  lemma {:induction false} BlockParted(
    c: Chk, d: Chk, b: seq<Expr>, outer: set<string>, scope: set<string>, all: set<string>, t: Ties, own: set<string>,
    x: string)
    requires Block(b, outer, scope, all) && scope == outer + own && x in scope && Differ(c, d, x)
    requires !CheckBlock(c, b).failed && !CheckBlock(d, b).failed && ClearBlock(d, t, own, b)
    ensures Differ(CheckBlock(c, b), CheckBlock(d, b), x)
    decreases b
  {
    if b != [] {
      var c1, d1 := CheckStmt(c, b[0]), CheckStmt(d, b[0]);
      BlockGrows(c1, b[1..]);
      BlockGrows(d1, b[1..]);
      NotRedeclared(c, d, b[0], outer, scope, all, t, own, x);
      ExprUntouched(c, d, b[0], x);
      BlockParted(c1, d1, b[1..], outer, scope + Bound(b[0]), all, TiesAfter(t, b[0]), own + Bound(b[0]), x);
    }
  }

  /** The owner's name cannot be given to another. */
  lemma NotRedeclared(
    c: Chk, d: Chk, e: Expr, outer: set<string>, scope: set<string>, all: set<string>, t: Ties, own: set<string>, x: string)
    requires Stmt(e, scope, all) && Bound(e) !! outer && scope == outer + own && x in scope && Differ(c, d, x)
    requires !CheckStmt(c, e).failed && !CheckStmt(d, e).failed && ClearStmt(d, t, own, e)
    ensures x !in Decls(e)
  {
    StmtHides(e, scope, all);
    if e.VarDef? && e.linear && e.name == x {
      OwnedUntouched(c, d, e.init, x);
      assert false;
    }
  }

  /** A statement, and then the rest of the block. */
  lemma FirstBreaks(
    b: seq<Expr>, outer: set<string>, scope: set<string>, all: set<string>, s: Run, p: seq<nat>)
    requires b != [] && Block(b, outer, scope, all) && Running(s, all)
    requires forall rest :: Illegal(Exec(b[0], Fed(s, p + rest)))
    ensures forall rest :: Illegal(ExecAll(b, Fed(s, p + rest)))
  {
    forall rest ensures Illegal(ExecAll(b, Fed(s, p + rest))) {
      var s0 := Fed(s, p + rest);
      assert Illegal(Exec(b[0], s0));
      RestRuns(b, outer, scope, all, s0);
      Stays(Exec(b[0], s0), ExecAll(b, s0));
    }
  }

  lemma RestBreaks(b: seq<Expr>, s: Run, p: seq<nat>, q: seq<nat>)
    requires b != [] && Leads(b[0], s, p)
    requires forall rest :: Illegal(ExecAll(b[1..], Fed(Exec(b[0], Fed(s, p)), q + rest)))
    ensures forall rest :: Illegal(ExecAll(b, Fed(s, p + q + rest)))
  {
    forall rest ensures Illegal(ExecAll(b, Fed(s, p + q + rest))) {
      Regroup(p, q, rest);
      assert Illegal(ExecAll(b[1..], Fed(Exec(b[0], Fed(s, p)), q + rest)));
      FirstLeads(b, s, p, q + rest);
    }
  }

  lemma Regroup(p: seq<nat>, q: seq<nat>, r: seq<nat>)
    ensures p + q + r == p + (q + r)
  {
  }

  lemma FirstLeads(b: seq<Expr>, s: Run, p: seq<nat>, rest: seq<nat>)
    requires b != [] && Leads(b[0], s, p)
    ensures ExecAll(b, Fed(s, p + rest)) == ExecAll(b[1..], Fed(Exec(b[0], Fed(s, p)), rest))
  {
    assert Exec(b[0], Fed(s, p + rest)) == Fed(Exec(b[0], Fed(s, p)), rest);
  }

  /** A way through a statement goes on through the rest of the block. */
  lemma RestLeads(b: seq<Expr>, s: Run, p: seq<nat>, q: seq<nat>)
    requires b != [] && Leads(b[0], s, p) && LeadsAll(b[1..], Exec(b[0], Fed(s, p)), q)
    ensures LeadsAll(b, s, p + q)
    ensures ExecAll(b, Fed(s, p + q)) == ExecAll(b[1..], Fed(Exec(b[0], Fed(s, p)), q))
  {
    assert b == [b[0]] + b[1..];
    LeadsThen(b[0], b[1..], s, p, q);
  }

  /** One way through a statement, and what becomes of it in the rest. */
  lemma OneWay(
    c: Chk, b: seq<Expr>, outer: set<string>, scope: set<string>, all: set<string>, t: Ties, own: set<string>, s: Run,
    w: Way, r1: Outcome) returns (r: Outcome)
    requires b != [] && Block(b, outer, scope, all) && Leads(b[0], s, w.path) && Kept(outer, c.vars, w.vars)
    requires BlockOutcome(
      Clean(w.vars), b[1..], outer, scope + Bound(b[0]), all, TiesAfter(t, b[0]), own + Bound(b[0]),
      Exec(b[0], Fed(s, w.path)), r1) && !r1.Fine?
    ensures !r.Fine? && BlockOutcome(c, b, outer, scope, all, t, own, s, r)
  {
    match r1
    case Breaks(q) =>
      RestBreaks(b, s, w.path, q);
      r := Breaks(w.path + q);
    case Splits(x, a, l) =>
      RestLeads(b, s, w.path, a.path);
      RestLeads(b, s, w.path, l.path);
      r := Splits(x, Way(w.path + a.path, a.vars), Way(w.path + l.path, l.vars));
  }

  /** The rest of a block does not bring two ways together that have parted. */
  lemma StillParted(
    b: seq<Expr>, outer: set<string>, scope: set<string>, all: set<string>, t: Ties, own: set<string>, x: string,
    gone: Vars, left: Vars)
    requires b != [] && Block(b, outer, scope, all) && scope == outer + own
    requires Parted(x, scope + Bound(b[0]), gone, left)
    requires !CheckBlock(Clean(gone), b[1..]).failed && !CheckBlock(Clean(left), b[1..]).failed
    requires ClearBlock(Clean(left), TiesAfter(t, b[0]), own + Bound(b[0]), b[1..])
    ensures Parted(x, ScopeAfter(b, scope), CheckBlock(Clean(gone), b[1..]).vars, CheckBlock(Clean(left), b[1..]).vars)
  {
    var inner, own' := scope + Bound(b[0]), own + Bound(b[0]);
    assert inner == outer + own';
    BlockParted(Clean(gone), Clean(left), b[1..], outer, inner, all, TiesAfter(t, b[0]), own', x);
    ScopeGrows(b[1..], inner);
  }

  /** Two ways through a statement that part over an owner, and both get through the rest. */
  lemma TwoWays(
    c: Chk, b: seq<Expr>, outer: set<string>, scope: set<string>, all: set<string>, t: Ties, own: set<string>, s: Run,
    x: string, a: Way, l: Way, q: seq<nat>, q': seq<nat>) returns (r: Outcome)
    requires b != [] && Block(b, outer, scope, all) && scope == outer + own
    requires StmtOutcome(c, b[0], outer, scope, all, t, own, s, Splits(x, a, l))
    requires BlockOutcome(
      Clean(a.vars), b[1..], outer, scope + Bound(b[0]), all, TiesAfter(t, b[0]), own + Bound(b[0]),
      Exec(b[0], Fed(s, a.path)), Fine(q))
    requires BlockOutcome(
      Clean(l.vars), b[1..], outer, scope + Bound(b[0]), all, TiesAfter(t, b[0]), own + Bound(b[0]),
      Exec(b[0], Fed(s, l.path)), Fine(q'))
    ensures !r.Fine? && BlockOutcome(c, b, outer, scope, all, t, own, s, r)
  {
    var inner, rest := scope + Bound(b[0]), b[1..];
    StillParted(b, outer, scope, all, t, own, x, a.vars, l.vars);
    RestLeads(b, s, a.path, q);
    RestLeads(b, s, l.path, q');
    r := Splits(
      x, Way(a.path + q, CheckBlock(Clean(a.vars), rest).vars), Way(l.path + q', CheckBlock(Clean(l.vars), rest).vars));
  }

  lemma {:induction false} BlockSettles(
    c: Chk, b: seq<Expr>, outer: set<string>, scope: set<string>, all: set<string>, t: Ties, own: set<string>, s: Run)
    returns (r: Outcome)
    requires Block(b, outer, scope, all) && StructuredAll(b) && PromptAll({}, b) && OvertAll(true, b)
    requires !c.failed && scope == outer + own && Point(scope, all, t, c.vars, s)
    ensures BlockOutcome(c, b, outer, scope, all, t, own, s, r)
    decreases b, 1
  {
    if b == [] {
      FedFull(scope, all, t, c.vars, s, []);
      r := Fine([]);
    } else {
      var r1 := StmtSettles(c, b[0], outer, scope, all, t, own, s);
      match r1
      case Breaks(p) =>
        FirstBreaks(b, outer, scope, all, s, p);
        r := Breaks(p);
      case Fine(p) =>
        var w := Way(p, CheckStmt(c, b[0]).vars);
        var r2 := RestSettles(c, b, outer, scope, all, t, own, s, w);
        if r2.Fine? {
          RestLeads(b, s, p, r2.path);
          assert Clean(w.vars) == CheckStmt(c, b[0]);
          r := Fine(p + r2.path);
        } else {
          r := OneWay(c, b, outer, scope, all, t, own, s, w, r2);
        }
      case Splits(x, a, l) =>
        var r2 := RestSettles(c, b, outer, scope, all, t, own, s, a);
        var r3 := RestSettles(c, b, outer, scope, all, t, own, s, l);
        if !r2.Fine? {
          r := OneWay(c, b, outer, scope, all, t, own, s, a, r2);
        } else if !r3.Fine? {
          r := OneWay(c, b, outer, scope, all, t, own, s, l, r3);
        } else {
          r := TwoWays(c, b, outer, scope, all, t, own, s, x, a, l, r2.path, r3.path);
        }
    }
  }

  lemma {:induction false} RestSettles(
    c: Chk, b: seq<Expr>, outer: set<string>, scope: set<string>, all: set<string>, t: Ties, own: set<string>, s: Run,
    w: Way) returns (r: Outcome)
    requires b != [] && Block(b, outer, scope, all) && StructuredAll(b) && PromptAll({}, b) && OvertAll(true, b)
    requires scope == outer + own
    requires Point(scope + Bound(b[0]), all, TiesAfter(t, b[0]), w.vars, Exec(b[0], Fed(s, w.path)))
    ensures BlockOutcome(
      Clean(w.vars), b[1..], outer, scope + Bound(b[0]), all, TiesAfter(t, b[0]), own + Bound(b[0]),
      Exec(b[0], Fed(s, w.path)), r)
    decreases b, 0
  {
    assert scope + Bound(b[0]) == outer + (own + Bound(b[0]));
    r := BlockSettles(
      Clean(w.vars), b[1..], outer, scope + Bound(b[0]), all, TiesAfter(t, b[0]), own + Bound(b[0]),
      Exec(b[0], Fed(s, w.path)));
  }

  // ---------- Statements ----------

  /** After a way that leaves the variables around it as they are. */
  lemma EndsPoint(
    scope: set<string>, all: set<string>, t: Ties, before: Vars, s: Run, w: Way, s': Run)
    requires Full(scope, all, t, before, s, {}) && Ends(scope, all, t, before, w, s') && Calm(s, s')
    ensures Point(scope, all, t, w.vars, s')
  {
    SpentKept(scope, all, t, before, s, {}, t, w.vars, s', {});
  }

  lemma StraightSettles(
    c: Chk, e: Expr, outer: set<string>, scope: set<string>, all: set<string>, t: Ties, own: set<string>, s: Run)
    returns (r: Outcome)
    requires Stmt(e, scope, all) && Bound(e) !! outer && Straight(e) && Prompt({}, e) && Overt(true, e)
    requires !c.failed && scope == outer + own && Point(scope, all, t, c.vars, s)
    ensures StmtOutcome(c, e, outer, scope, all, t, own, s, r)
  {
    FedFull(scope, all, t, c.vars, s, []);
    if CheckStmt(c, e).failed || !ClearStmt(c, t, own, e) {
      StraightBreaks(c, e, scope, all, t, own, s);
      r := Breaks([]);
    } else {
      StraightLeads(e, scope, all, s);
      StmtLater(c, e, scope, all, t, own, Fed(s, []), {});
      StmtKeeps(c, e, scope, all);
      r := Fine([]);
    }
  }

  lemma StraightBreaks(
    c: Chk, e: Expr, scope: set<string>, all: set<string>, t: Ties, own: set<string>, s: Run)
    requires Stmt(e, scope, all) && Fair(t, e) && !c.failed && own <= scope && Full(scope, all, t, c.vars, s, {})
    requires CheckStmt(c, e).failed || !ClearStmt(c, t, own, e)
    ensures forall rest :: Illegal(Exec(e, Fed(s, [] + rest)))
  {
    forall rest ensures Illegal(Exec(e, Fed(s, [] + rest))) {
      FedFull(scope, all, t, c.vars, s, [] + rest);
      StmtBreaks(c, e, scope, all, t, own, Fed(s, [] + rest));
    }
  }

  lemma StraightLeads(e: Expr, scope: set<string>, all: set<string>, s: Run)
    requires Stmt(e, scope, all) && Straight(e)
    ensures Leads(e, s, [])
  {
    forall rest ensures Exec(e, Fed(s, [] + rest)) == Fed(Exec(e, Fed(s, [])), rest) {
      assert [] + rest == rest && Fed(s, rest) == Fed(Fed(s, []), rest);
      StraightStmtFed(e, scope, all, Fed(s, []), rest);
    }
  }

  /** The checker's states after a statement without branches and loops. */
  lemma StmtKeeps(c: Chk, e: Expr, scope: set<string>, all: set<string>)
    requires Stmt(e, scope, all) && Straight(e) && Tidy(c.vars, scope) && scope <= c.vars.Keys
    ensures Tidy(CheckStmt(c, e).vars, scope + Bound(e)) && Kept(scope - Bound(e), c.vars, CheckStmt(c, e).vars)
  {
    ExprGrows(c, e);
    if e.VarDef? {
      StraightDecls(e.init, scope, all);
    } else {
      StraightDecls(e, scope, all);
    }
  }

  lemma {:induction false} StmtSettles(
    c: Chk, e: Expr, outer: set<string>, scope: set<string>, all: set<string>, t: Ties, own: set<string>, s: Run)
    returns (r: Outcome)
    requires Stmt(e, scope, all) && Bound(e) !! outer && Structured(e) && Prompt({}, e) && Overt(true, e)
    requires !c.failed && scope == outer + own && Point(scope, all, t, c.vars, s)
    ensures StmtOutcome(c, e, outer, scope, all, t, own, s, r)
    decreases e, 4
  {
    if Straight(e) {
      r := StraightSettles(c, e, outer, scope, all, t, own, s);
    } else if e.VarDef? {
      var r1 := FlowSettles(c, e.init, scope, all, t, s);
      r := ValueSettles(c, e, outer, scope, all, t, own, s, r1);
    } else {
      var r1 := FlowSettles(c, e, scope, all, t, s);
      r := PlainSettles(c, e, outer, scope, all, t, own, s, r1);
    }
  }

  /** A branch or a loop as a statement. */
  lemma PlainSettles(
    c: Chk, e: Expr, outer: set<string>, scope: set<string>, all: set<string>, t: Ties, own: set<string>, s: Run,
    r: Outcome) returns (r': Outcome)
    requires Flow(e, scope, all) && scope == outer + own && Point(scope, all, t, c.vars, s)
    requires FlowOutcome(c, e, scope, all, t, s, r)
    ensures StmtOutcome(c, e, outer, scope, all, t, own, s, r')
  {
    assert scope + Bound(e) == scope && TiesAfter(t, e) == t && !Discards(e);
    r' := r;
    match r
    case Fine(p) =>
      FedFull(scope, all, t, c.vars, s, p);
      StmtLater(c, e, scope, all, t, own, Fed(s, p), {});
      StaysConsumed(c, e, scope, all);
    case Breaks(_) =>
    case Splits(_, a, l) =>
      FlowCalm(e, scope, all, Fed(s, a.path));
      FlowCalm(e, scope, all, Fed(s, l.path));
      EndsPoint(scope, all, t, c.vars, s, a, Exec(e, Fed(s, a.path)));
      EndsPoint(scope, all, t, c.vars, s, l, Exec(e, Fed(s, l.path)));
  }

  /** A branch or a loop as the value of a variable. */
  lemma ValueSettles(
    c: Chk, e: Expr, outer: set<string>, scope: set<string>, all: set<string>, t: Ties, own: set<string>, s: Run,
    r: Outcome) returns (r': Outcome)
    requires e.VarDef? && !e.linear && Stmt(e, scope, all) && Flow(e.init, scope, all) && scope == outer + own
    requires Point(scope, all, t, c.vars, s) && FlowOutcome(c, e.init, scope, all, t, s, r)
    ensures StmtOutcome(c, e, outer, scope, all, t, own, s, r')
  {
    DefinitionChecked(c, t, own, e);
    assert scope + Bound(e) == scope && CheckOwned(c, e.init) == CheckExpr(c, e.init);
    r' := r;
    match r
    case Fine(p) =>
      FedFull(scope, all, t, c.vars, s, p);
      ValueLeads(e, scope, all, s, p);
      StmtLater(c, e, scope, all, t, own, Fed(s, p), {});
      StaysConsumed(c, e.init, scope, all);
    case Breaks(p) =>
      forall rest ensures Illegal(Exec(e, Fed(s, p + rest))) {
        ValueRuns(e, scope, all, Fed(s, p + rest));
        assert Illegal(Exec(e.init, Fed(s, p + rest)));
      }
    case Splits(_, a, l) =>
      ValueLeads(e, scope, all, s, a.path);
      ValueLeads(e, scope, all, s, l.path);
      ValueEnds(c, e, scope, all, t, s, a);
      ValueEnds(c, e, scope, all, t, s, l);
  }

  lemma ValueRuns(e: Expr, scope: set<string>, all: set<string>, s: Run)
    requires e.VarDef? && !e.linear && Stmt(e, scope, all) && Flow(e.init, scope, all) && Running(s, all)
    ensures Calm(s, Exec(e.init, s)) && Exec(e, s) == BindView(Exec(e.init, s), e.name)
    ensures Exec(e.init, s).value == ValueOf(e.init, Exec(e.init, s)) == Nothing
  {
    FlowCalm(e.init, scope, all, s);
  }

  lemma ValueLeads(e: Expr, scope: set<string>, all: set<string>, s: Run, p: seq<nat>)
    requires e.VarDef? && !e.linear && Stmt(e, scope, all) && Flow(e.init, scope, all) && Running(s, all)
    requires Leads(e.init, s, p)
    ensures Leads(e, s, p)
  {
    forall rest ensures Exec(e, Fed(s, p + rest)) == Fed(Exec(e, Fed(s, p)), rest) {
      ValueRuns(e, scope, all, Fed(s, p + rest));
      ValueRuns(e, scope, all, Fed(s, p));
      assert Exec(e.init, Fed(s, p + rest)) == Fed(Exec(e.init, Fed(s, p)), rest);
    }
  }

  lemma ValueEnds(c: Chk, e: Expr, scope: set<string>, all: set<string>, t: Ties, s: Run, w: Way)
    requires e.VarDef? && !e.linear && Stmt(e, scope, all) && Flow(e.init, scope, all)
    requires Point(scope, all, t, c.vars, s) && Ends(scope, all, t, c.vars, w, Exec(e.init, Fed(s, w.path)))
    ensures Point(scope, all, TiesAfter(t, e), w.vars, Exec(e, Fed(s, w.path)))
  {
    var s1 := Exec(e.init, Fed(s, w.path));
    ValueRuns(e, scope, all, Fed(s, w.path));
    EndsPoint(scope, all, t, c.vars, s, w, s1);
    ScalarInReach(e.init, scope, all);
    BindsView(scope, all, t, w.vars, s1, e, {});
    SpentBindsView(scope, all, t, w.vars, s1, e, {});
  }

  // ---------- Branches ----------

  lemma {:induction false} FlowSettles(c: Chk, e: Expr, scope: set<string>, all: set<string>, t: Ties, s: Run)
    returns (r: Outcome)
    requires Flow(e, scope, all) && Structured(e) && Prompt({}, e) && Overt(true, e)
    requires !c.failed && Point(scope, all, t, c.vars, s)
    ensures FlowOutcome(c, e, scope, all, t, s, r)
    decreases e, 3
  {
    match e
    case If(_, _, _) => r := IfSettles(c, e, scope, all, t, s);
    case While(_, _) => r := WhileSettles(c, e, scope, all, t, s);
    case For(_, _, _, _) => r := ForSettles(c, e, scope, all, t, s);
    case Case(_, _) => r := CaseSettles(c, e, scope, all, t, s);
  }

  /** What a branch or a loop tests. */
  lemma HeadFine(c: Chk, h: Expr, scope: set<string>, all: set<string>, t: Ties, s: Run)
    requires Scalar(h, scope, all) && Straight(h) && !Bad(c, t, h) && Point(scope, all, t, c.vars, s)
    ensures Point(scope, all, t, CheckExpr(c, h).vars, Exec(h, s)) && Kept(scope, c.vars, CheckExpr(c, h).vars)
    ensures !CheckExpr(c, h).failed && Calm(s, Exec(h, s))
  {
    ScalarLater(true, c, h, scope, all, t, s, {});
    ScalarKeeps(c, h, scope, all);
  }

  lemma ScalarKeeps(c: Chk, e: Expr, scope: set<string>, all: set<string>)
    requires Scalar(e, scope, all) && Straight(e) && Tidy(c.vars, scope) && scope <= c.vars.Keys
    ensures Tidy(CheckExpr(c, e).vars, scope) && Kept(scope, c.vars, CheckExpr(c, e).vars)
  {
    ExprGrows(c, e);
    StraightDecls(e, scope, all);
  }

  lemma HeadBreaks(c: Chk, h: Expr, scope: set<string>, all: set<string>, t: Ties, s: Run)
    requires Scalar(h, scope, all) && Straight(h) && Prompt({}, h) && Overt(true, h) && !c.failed && Bad(c, t, h)
    requires Point(scope, all, t, c.vars, s)
    ensures Illegal(Exec(h, s))
  {
    FedFull(scope, all, t, c.vars, s, []);
    ScalarBreaks(c, h, scope, all, t, s, {});
  }

  function Head(e: Expr): Expr
    requires e.If? || e.Case?
  {
    if e.If? then e.cond else e.scrutinee
  }

  /** The block that the choice `k` leads to. */
  predicate Choosable(e: Expr, k: nat)
  {
    (e.If? && (k == 1 || (k == 0 && e.els.Else?))) || (e.Case? && k < |e.arms|)
  }

  function Chosen(e: Expr, k: nat): seq<Expr>
    requires Choosable(e, k)
  {
    if e.Case? then e.arms[k].body else if k == 1 then e.thn else e.els.body
  }

  lemma ChosenRuns(e: Expr, scope: set<string>, all: set<string>, s: Run, k: nat, rest: seq<nat>)
    requires Choosable(e, k) && Flow(e, scope, all) && Structured(e) && Running(s, all)
    ensures Exec(e, Fed(s, [k] + rest)) == Inner(Chosen(e, k), Fed(Exec(Head(e), s), rest), true)
  {
    StraightFed(Head(e), scope, all, s, [k] + rest);
    ScalarCalm(Head(e), scope, all, s);
    assert ([k] + rest)[1..] == rest;
    if e.Case? {
      SmallRest(k, |e.arms|);
    }
  }

  lemma ChosenLeads(e: Expr, scope: set<string>, all: set<string>, s: Run, k: nat, p: seq<nat>)
    requires Choosable(e, k) && Flow(e, scope, all) && Structured(e) && Running(s, all)
    requires LeadsInner(Chosen(e, k), Exec(Head(e), s), p, true)
    ensures Leads(e, s, [k] + p) && Exec(e, Fed(s, [k] + p)) == Inner(Chosen(e, k), Fed(Exec(Head(e), s), p), true)
  {
    ChosenRuns(e, scope, all, s, k, p);
    forall rest ensures Exec(e, Fed(s, [k] + p + rest)) == Fed(Exec(e, Fed(s, [k] + p)), rest) {
      assert [k] + p + rest == [k] + (p + rest);
      ChosenRuns(e, scope, all, s, k, p + rest);
    }
  }

  /** A block that has been chosen does not end well. */
  lemma ChosenWay(
    c: Chk, e: Expr, scope: set<string>, all: set<string>, t: Ties, s: Run, c1: Chk, k: nat, r1: Outcome)
    returns (r: Outcome)
    requires Choosable(e, k) && Flow(e, scope, all) && Structured(e) && Running(s, all) && Kept(scope, c.vars, c1.vars)
    requires scope <= c1.vars.Keys
    requires !r1.Fine? && InnerOutcome(c1, Chosen(e, k), scope, all, t, Exec(Head(e), s), true, r1)
    ensures !r.Fine? && FlowOutcome(c, e, scope, all, t, s, r)
  {
    match r1
    case Breaks(p) =>
      forall rest ensures Illegal(Exec(e, Fed(s, [k] + p + rest))) {
        assert [k] + p + rest == [k] + (p + rest);
        ChosenRuns(e, scope, all, s, k, p + rest);
      }
      r := Breaks([k] + p);
    case Splits(x, a, l) =>
      ChosenLeads(e, scope, all, s, k, a.path);
      ChosenLeads(e, scope, all, s, k, l.path);
      r := Splits(x, Way([k] + a.path, a.vars), Way([k] + l.path, l.vars));
  }

  /** Two blocks that may be chosen end well, but not with the same states. */
  lemma ChosenParted(
    c: Chk, e: Expr, scope: set<string>, all: set<string>, t: Ties, s: Run, before: Vars, i: nat, a: Way, j: nat, l: Way,
    x: string) returns (r: Outcome)
    requires Choosable(e, i) && Choosable(e, j) && Flow(e, scope, all) && Structured(e) && Running(s, all)
    requires Kept(scope, c.vars, before) && scope <= before.Keys && Parted(x, scope, a.vars, l.vars)
    requires LeadsInner(Chosen(e, i), Exec(Head(e), s), a.path, true)
    requires LeadsInner(Chosen(e, j), Exec(Head(e), s), l.path, true)
    requires Ends(scope, all, t, before, a, Inner(Chosen(e, i), Fed(Exec(Head(e), s), a.path), true))
    requires Ends(scope, all, t, before, l, Inner(Chosen(e, j), Fed(Exec(Head(e), s), l.path), true))
    ensures !r.Fine? && FlowOutcome(c, e, scope, all, t, s, r)
  {
    ChosenLeads(e, scope, all, s, i, a.path);
    ChosenLeads(e, scope, all, s, j, l.path);
    r := Splits(x, Way([i] + a.path, a.vars), Way([j] + l.path, l.vars));
  }

  /** The block that the choice leads to, whatever its outcome. */
  lemma {:induction false} ChosenSettles(
    c: Chk, b: seq<Expr>, scope: set<string>, all: set<string>, t: Ties, s: Run, open: bool) returns (r: Outcome)
    requires Block(b, scope, scope, all) && StructuredAll(b) && PromptAll({}, b) && OvertAll(true, b)
    requires !c.failed && Point(scope, all, t, c.vars, s)
    ensures InnerOutcome(c, b, scope, all, t, s, open, r)
    decreases b, 2
  {
    assert scope == scope + {};
    var r0 := BlockSettles(c, b, scope, scope, all, t, {}, Yielding(s, Nothing));
    r := InnerSettles(c, b, scope, all, t, s, open, r0);
  }

  lemma {:induction false} IfSettles(c: Chk, e: Expr, scope: set<string>, all: set<string>, t: Ties, s: Run)
    returns (r: Outcome)
    requires e.If? && Flow(e, scope, all) && Structured(e) && Prompt({}, e) && Overt(true, e)
    requires !c.failed && Point(scope, all, t, c.vars, s)
    ensures FlowOutcome(c, e, scope, all, t, s, r)
    decreases e, 2
  {
    if Bad(c, t, e.cond) {
      BranchHeadBreaks(c, e, scope, all, t, s);
      r := Breaks([]);
    } else {
      var c0, s0 := CheckExpr(c, e.cond), Exec(e.cond, s);
      HeadFine(c, e.cond, scope, all, t, s);
      var r1 := ChosenSettles(c0, e.thn, scope, all, t, s0, true);
      if !r1.Fine? {
        r := ChosenWay(c, e, scope, all, t, s, c0, 1, r1);
      } else if e.els.NoElse? {
        r := OneBranch(c, e, scope, all, t, s, r1.path);
      } else {
        r := ElseSettles(c, e, scope, all, t, s, r1.path);
      }
    }
  }

  /** The first branch ends well, and there is a second. */
  lemma {:induction false} ElseSettles(
    c: Chk, e: Expr, scope: set<string>, all: set<string>, t: Ties, s: Run, p: seq<nat>) returns (r: Outcome)
    requires e.If? && e.els.Else? && Flow(e, scope, all) && Structured(e) && Prompt({}, e) && Overt(true, e)
    requires !c.failed && Point(scope, all, t, c.vars, s) && !Bad(c, t, e.cond)
    requires InnerOutcome(CheckExpr(c, e.cond), e.thn, scope, all, t, Exec(e.cond, s), true, Fine(p))
    ensures FlowOutcome(c, e, scope, all, t, s, r)
    decreases e, 1
  {
    var c0, s0 := CheckExpr(c, e.cond), Exec(e.cond, s);
    var c1 := CheckBlock(c0, e.thn);
    HeadFine(c, e.cond, scope, all, t, s);
    BlockGrows(c0, e.thn);
    SecondPoint(c0, c1, scope, all, t, s0);
    var r2 := ChosenSettles(Second(c0, c1), e.els.body, scope, all, t, s0, true);
    if !r2.Fine? {
      r := ChosenWay(c, e, scope, all, t, s, Second(c0, c1), 0, r2);
    } else {
      r := TwoBranches(c, e, scope, all, t, s, p, r2.path);
    }
  }

  lemma BranchHeadBreaks(c: Chk, e: Expr, scope: set<string>, all: set<string>, t: Ties, s: Run)
    requires (e.If? || e.Case?) && Flow(e, scope, all) && Structured(e) && Prompt({}, e) && Overt(true, e)
    requires !c.failed && Point(scope, all, t, c.vars, s) && Bad(c, t, Head(e))
    ensures forall rest :: Illegal(Exec(e, Fed(s, [] + rest)))
  {
    forall rest ensures Illegal(Exec(e, Fed(s, [] + rest))) {
      var s0 := Fed(s, [] + rest);
      FedFull(scope, all, t, c.vars, s, [] + rest);
      HeadBreaks(c, Head(e), scope, all, t, s0);
      HeadRuns(e, scope, all, s0);
      Stays(Exec(Head(e), s0), Exec(e, s0));
    }
  }

  /** The second branch starts where the first did. */
  lemma SecondPoint(c0: Chk, c1: Chk, scope: set<string>, all: set<string>, t: Ties, s: Run)
    requires Point(scope, all, t, c0.vars, s) && c0.vars.Keys <= c1.vars.Keys <= all && Tidy(c1.vars, scope)
    ensures Point(scope, all, t, Second(c0, c1).vars, s)
    ensures Kept(scope, c0.vars, Second(c0, c1).vars)
  {
    FullSame(scope, all, t, c0.vars, Second(c0, c1).vars, s, {});
  }

  /** The name in which the ends of two branches differ. */
  lemma Disagree(c: Chk, before: Vars, branches: seq<Vars>, scope: set<string>) returns (x: string, i: nat, j: nat)
    requires !c.failed && Merge(c, before, branches).failed && Tidy(before, scope)
    ensures i < |branches| && j < |branches| && Parted(x, scope, branches[i], branches[j])
    ensures x in before && before[x] == Unconsumed
  {
    x :| x in before && Pending(before, x) && Mismatch(branches, x);
    var b :| b in branches && x in b && b[x] == Consumed;
    var b' :| b' in branches && x in b' && b'[x] == Unconsumed;
    i :| 0 <= i < |branches| && branches[i] == b;
    j :| 0 <= j < |branches| && branches[j] == b';
  }

  lemma MergeTidy(c: Chk, before: Vars, branches: seq<Vars>, scope: set<string>)
    requires Tidy(before, scope) && Tidy(c.vars, scope)
    ensures Tidy(Merge(c, before, branches).vars, scope)
  {
  }

  /** The states between the parts of an `if`. */
  lemma IfSetup(c: Chk, e: Expr, scope: set<string>, all: set<string>, t: Ties, s: Run)
    requires e.If? && Flow(e, scope, all) && Structured(e) && Point(scope, all, t, c.vars, s) && !Bad(c, t, e.cond)
    requires var c1 := CheckBlock(CheckExpr(c, e.cond), e.thn); c1.vars.Keys <= all && Tidy(c1.vars, scope)
    ensures var c0 := CheckExpr(c, e.cond);
            var c2 := Second(c0, CheckBlock(c0, e.thn));
            && Running(s, all) && Kept(scope, c.vars, c0.vars) && Tidy(c0.vars, scope) && scope <= c0.vars.Keys
            && Kept(scope, c0.vars, c2.vars) && Tidy(c2.vars, scope) && scope <= c2.vars.Keys
            && Clear(true, c, t, e.cond)
  {
    var c0 := CheckExpr(c, e.cond);
    HeadFine(c, e.cond, scope, all, t, s);
    BlockGrows(c0, e.thn);
    SecondPoint(c0, CheckBlock(c0, e.thn), scope, all, t, Exec(e.cond, s));
  }

  lemma TwoBranches(
    c: Chk, e: Expr, scope: set<string>, all: set<string>, t: Ties, s: Run, p: seq<nat>, q: seq<nat>) returns (r: Outcome)
    requires e.If? && e.els.Else? && Flow(e, scope, all) && Structured(e) && !c.failed && Point(scope, all, t, c.vars, s)
    requires !Bad(c, t, e.cond)
    requires var c0 := CheckExpr(c, e.cond);
             InnerOutcome(c0, e.thn, scope, all, t, Exec(e.cond, s), true, Fine(p))
    requires var c0 := CheckExpr(c, e.cond);
             var c2 := Second(c0, CheckBlock(c0, e.thn));
             InnerOutcome(c2, e.els.body, scope, all, t, Exec(e.cond, s), true, Fine(q))
    ensures FlowOutcome(c, e, scope, all, t, s, r)
  {
    var c0 := CheckExpr(c, e.cond);
    var c1 := CheckBlock(c0, e.thn);
    var c3 := CheckBlock(Second(c0, c1), e.els.body);
    IfSetup(c, e, scope, all, t, s);
    IfChecked(c, e);
    if CheckExpr(c, e).failed {
      r := BranchesPart(c, e, scope, all, t, s, c0.vars, Second(c0, c1).vars, Way(p, c1.vars), Way(q, c3.vars), c3);
    } else {
      BranchesMeet(c, e, scope, all, t, s, c3, [c1.vars, c3.vars], p);
      r := Fine([1] + p);
    }
  }

  lemma EndsSooner(scope: set<string>, all: set<string>, t: Ties, before: Vars, before': Vars, w: Way, s: Run)
    requires Kept(scope, before, before') && scope <= before'.Keys && Ends(scope, all, t, before', w, s)
    ensures Ends(scope, all, t, before, w, s)
  {
  }

  /** The branches end well, but not with the same states. */
  lemma BranchesPart(
    c: Chk, e: Expr, scope: set<string>, all: set<string>, t: Ties, s: Run, before: Vars, second: Vars, w: Way, w': Way,
    d: Chk) returns (r: Outcome)
    requires e.If? && e.els.Else? && Flow(e, scope, all) && Structured(e) && Running(s, all)
    requires Kept(scope, c.vars, before) && scope <= before.Keys && Kept(scope, before, second) && scope <= second.Keys
    requires !d.failed && Merge(d, before, [w.vars, w'.vars]).failed && Tidy(before, scope)
    requires LeadsInner(e.thn, Exec(e.cond, s), w.path, true) && LeadsInner(e.els.body, Exec(e.cond, s), w'.path, true)
    requires Ends(scope, all, t, before, w, Inner(e.thn, Fed(Exec(e.cond, s), w.path), true))
    requires Ends(scope, all, t, second, w', Inner(e.els.body, Fed(Exec(e.cond, s), w'.path), true))
    ensures !r.Fine? && FlowOutcome(c, e, scope, all, t, s, r)
  {
    var x, i, j := Disagree(d, before, [w.vars, w'.vars], scope);
    EndsSooner(scope, all, t, before, second, w', Inner(e.els.body, Fed(Exec(e.cond, s), w'.path), true));
    if i == 0 {
      r := ChosenParted(c, e, scope, all, t, s, before, 1, w, 0, w', x);
    } else {
      r := ChosenParted(c, e, scope, all, t, s, before, 0, w', 1, w, x);
    }
  }

  /** The branches end well, and with the same states. */
  lemma BranchesMeet(
    c: Chk, e: Expr, scope: set<string>, all: set<string>, t: Ties, s: Run, d: Chk, ends: seq<Vars>, p: seq<nat>)
    requires e.If? && Flow(e, scope, all) && Structured(e) && Running(s, all)
    requires CheckExpr(c, e) == Merge(d, CheckExpr(c, e.cond).vars, ends) && !CheckExpr(c, e).failed
    requires Tidy(CheckExpr(c, e.cond).vars, scope) && Tidy(d.vars, scope)
    requires Clear(true, c, t, e.cond) && ClearInner(CheckExpr(c, e.cond), t, e.thn)
    requires e.els.Else? ==>
               var c0 := CheckExpr(c, e.cond); ClearInner(Second(c0, CheckBlock(c0, e.thn)), t, e.els.body)
    requires LeadsInner(e.thn, Exec(e.cond, s), p, true)
    ensures FlowOutcome(c, e, scope, all, t, s, Fine([1] + p))
  {
    MergeTidy(d, CheckExpr(c, e.cond).vars, ends, scope);
    ChosenLeads(e, scope, all, s, 1, p);
    IfClear(c, e, t);
  }

  lemma IfChecked(c: Chk, e: Expr)
    requires e.If?
    ensures var c0 := CheckExpr(c, e.cond);
            var c1 := CheckBlock(c0, e.thn);
            CheckExpr(c, e) == if e.els.NoElse? then Merge(Second(c0, c1), c0.vars, [c1.vars, c0.vars])
                               else var c3 := CheckBlock(Second(c0, c1), e.els.body);
                                    Merge(c3, c0.vars, [c1.vars, c3.vars])
  {
  }

  lemma IfClear(c: Chk, e: Expr, t: Ties)
    requires e.If?
    ensures var c0 := CheckExpr(c, e.cond);
            Clear(true, c, t, e) <==>
            && Clear(true, c, t, e.cond) && ClearInner(c0, t, e.thn)
            && (e.els.Else? ==> ClearInner(Second(c0, CheckBlock(c0, e.thn)), t, e.els.body))
  {
  }

  lemma SkippedRuns(e: Expr, scope: set<string>, all: set<string>, s: Run, rest: seq<nat>)
    requires e.If? && e.els.NoElse? && Flow(e, scope, all) && Structured(e) && Running(s, all)
    ensures Exec(e, Fed(s, [0] + rest)) == Yielding(Fed(Exec(e.cond, s), rest), Nothing)
  {
    StraightFed(e.cond, scope, all, s, [0] + rest);
    ScalarCalm(e.cond, scope, all, s);
    assert ([0] + rest)[1..] == rest;
  }

  lemma OneBranch(c: Chk, e: Expr, scope: set<string>, all: set<string>, t: Ties, s: Run, p: seq<nat>)
    returns (r: Outcome)
    requires e.If? && e.els.NoElse? && Flow(e, scope, all) && Structured(e) && !c.failed && Point(scope, all, t, c.vars, s)
    requires !Bad(c, t, e.cond)
    requires InnerOutcome(CheckExpr(c, e.cond), e.thn, scope, all, t, Exec(e.cond, s), true, Fine(p))
    ensures FlowOutcome(c, e, scope, all, t, s, r)
  {
    var c0 := CheckExpr(c, e.cond);
    var c1 := CheckBlock(c0, e.thn);
    var c2, ends := Second(c0, c1), [c1.vars, c0.vars];
    IfSetup(c, e, scope, all, t, s);
    IfChecked(c, e);
    if CheckExpr(c, e).failed {
      var x, i, j := Disagree(c2, c0.vars, ends, scope);
      assert i == 0 && j == 1;
      r := SkipParts(c, e, scope, all, t, s, c0.vars, Way(p, c1.vars), x);
    } else {
      BranchesMeet(c, e, scope, all, t, s, c2, ends, p);
      r := Fine([1] + p);
    }
  }

  lemma SkipParts(
    c: Chk, e: Expr, scope: set<string>, all: set<string>, t: Ties, s: Run, before: Vars, w: Way, x: string)
    returns (r: Outcome)
    requires e.If? && e.els.NoElse? && Flow(e, scope, all) && Structured(e) && Point(scope, all, t, c.vars, s)
    requires !Bad(c, t, e.cond) && before == CheckExpr(c, e.cond).vars && Kept(scope, c.vars, before)
    requires LeadsInner(e.thn, Exec(e.cond, s), w.path, true) && Parted(x, scope, w.vars, before)
    requires Ends(scope, all, t, before, w, Inner(e.thn, Fed(Exec(e.cond, s), w.path), true)) && scope <= before.Keys
    ensures !r.Fine? && FlowOutcome(c, e, scope, all, t, s, r)
  {
    ChosenLeads(e, scope, all, s, 1, w.path);
    SkipEnds(c, e, scope, all, t, s);
    r := Splits(x, Way([1] + w.path, w.vars), Way([0], before));
  }

  /** No branch is taken. */
  lemma SkipEnds(c: Chk, e: Expr, scope: set<string>, all: set<string>, t: Ties, s: Run)
    requires e.If? && e.els.NoElse? && Flow(e, scope, all) && Structured(e) && Point(scope, all, t, c.vars, s)
    requires !Bad(c, t, e.cond)
    ensures Leads(e, s, [0])
    ensures Ends(scope, all, t, c.vars, Way([0], CheckExpr(c, e.cond).vars), Exec(e, Fed(s, [0])))
  {
    HeadFine(c, e.cond, scope, all, t, s);
    var s0 := Exec(e.cond, s);
    assert [0] + [] == [0];
    SkippedRuns(e, scope, all, s, []);
    forall rest ensures Exec(e, Fed(s, [0] + rest)) == Fed(Exec(e, Fed(s, [0])), rest) {
      SkippedRuns(e, scope, all, s, rest);
    }
  }

  // ---------- `case` ----------

  lemma {:induction false} CaseSettles(c: Chk, e: Expr, scope: set<string>, all: set<string>, t: Ties, s: Run)
    returns (r: Outcome)
    requires e.Case? && Flow(e, scope, all) && Structured(e) && Prompt({}, e) && Overt(true, e)
    requires !c.failed && Point(scope, all, t, c.vars, s)
    ensures FlowOutcome(c, e, scope, all, t, s, r)
    decreases e, 2
  {
    if Bad(c, t, e.scrutinee) {
      BranchHeadBreaks(c, e, scope, all, t, s);
      r := Breaks([]);
    } else {
      var c0, s0 := CheckExpr(c, e.scrutinee), Exec(e.scrutinee, s);
      HeadFine(c, e.scrutinee, scope, all, t, s);
      var stuck, paths := ArmsSettle(c0, c0.vars, e.arms, scope, all, t, s0);
      match stuck
      case Some((i, c1, r1)) => r := ChosenWay(c, e, scope, all, t, s, c1, i, r1);
      case None => r := ArmsMeet(c, e, scope, all, t, s, paths);
    }
  }

  /** Every arm starts where the first does; the first not to end well, or ways through all of them. */
  lemma {:induction false} ArmsSettle(
    c: Chk, before: Vars, arms: seq<Arm>, scope: set<string>, all: set<string>, t: Ties, s: Run)
    returns (stuck: Option<(nat, Chk, Outcome)>, paths: seq<seq<nat>>)
    requires Arms(arms, scope, all) && StructuredArms(arms) && PromptArms({}, arms) && OvertArms(true, arms)
    requires !c.failed && Point(scope, all, t, before, s) && before.Keys <= c.vars.Keys <= all && Tidy(c.vars, scope)
    ensures stuck.Some? ==>
              var (i, c1, r) := stuck.value;
              && i < |arms| && !r.Fine? && InnerOutcome(c1, arms[i].body, scope, all, t, s, true, r)
              && Kept(scope, before, c1.vars) && scope <= c1.vars.Keys
    ensures stuck.None? ==> ArmsFine(c, before, arms, scope, all, t, s, paths)
    decreases arms, 0
  {
    if arms == [] {
      stuck, paths := None, [];
    } else {
      var c0 := c.(vars := Overwrite(c.vars, before));
      FullSame(scope, all, t, before, c0.vars, s, {});
      var r := ChosenSettles(c0, arms[0].body, scope, all, t, s, true);
      if !r.Fine? {
        stuck, paths := Some((0, c0, r)), [];
      } else {
        var c1 := CheckBlock(c0, arms[0].body);
        BlockGrows(c0, arms[0].body);
        var later, others := ArmsSettle(c1, before, arms[1..], scope, all, t, s);
        paths := [r.path] + others;
        if later.Some? {
          stuck := Some((later.value.0 + 1, later.value.1, later.value.2));
        } else {
          stuck := None;
          var w := Way(r.path, c1.vars);
          EndsSooner(scope, all, t, before, c0.vars, w, Inner(arms[0].body, Fed(s, w.path), true));
          ArmsJoin(c, before, arms, scope, all, t, s, r.path, others);
        }
      }
    }
  }

  /** One more arm at the front. */
  lemma ArmsJoin(
    c: Chk, before: Vars, arms: seq<Arm>, scope: set<string>, all: set<string>, t: Ties, s: Run, p: seq<nat>,
    others: seq<seq<nat>>)
    requires arms != []
    requires var c0 := c.(vars := Overwrite(c.vars, before));
             var c1 := CheckBlock(c0, arms[0].body);
             && ClearInner(c0, t, arms[0].body) && ArmsFine(c1, before, arms[1..], scope, all, t, s, others)
             && LeadsInner(arms[0].body, s, p, true)
             && Ends(scope, all, t, before, Way(p, c1.vars), Inner(arms[0].body, Fed(s, p), true))
    ensures ArmsFine(c, before, arms, scope, all, t, s, [p] + others)
  {
    var c1 := CheckBlock(c.(vars := Overwrite(c.vars, before)), arms[0].body);
    var paths := [p] + others;
    assert CheckArms(c, before, arms) ==
           (CheckArms(c1, before, arms[1..]).0, [c1.vars] + CheckArms(c1, before, arms[1..]).1);
    forall i | 0 <= i < |arms| ensures ArmFine(before, arms, scope, all, t, s, paths[i], CheckArms(c, before, arms).1[i], i) {
      if i > 0 {
        ArmShifts(before, arms, scope, all, t, s, others[i - 1], CheckArms(c1, before, arms[1..]).1[i - 1], i);
      }
    }
  }

  lemma ArmShifts(
    before: Vars, arms: seq<Arm>, scope: set<string>, all: set<string>, t: Ties, s: Run, p: seq<nat>, end: Vars, i: nat)
    requires 0 < i < |arms| && ArmFine(before, arms[1..], scope, all, t, s, p, end, i - 1)
    ensures ArmFine(before, arms, scope, all, t, s, p, end, i)
  {
    assert arms[i] == arms[1..][i - 1];
  }

  /** There is a way through the arm, to the end that the checker has recorded. */
  ghost predicate ArmFine(
    before: Vars, arms: seq<Arm>, scope: set<string>, all: set<string>, t: Ties, s: Run, p: seq<nat>, end: Vars, i: nat)
    requires i < |arms|
  {
    && LeadsInner(arms[i].body, s, p, true)
    && Ends(scope, all, t, before, Way(p, end), Inner(arms[i].body, Fed(s, p), true))
  }

  ghost predicate ArmsFine(
    c: Chk, before: Vars, arms: seq<Arm>, scope: set<string>, all: set<string>, t: Ties, s: Run, paths: seq<seq<nat>>)
  {
    var (c1, ends) := CheckArms(c, before, arms);
    && !c1.failed && ClearArms(c, before, t, arms) && Tidy(c1.vars, scope) && |paths| == |arms| == |ends|
    && forall i | 0 <= i < |arms| :: ArmFine(before, arms, scope, all, t, s, paths[i], ends[i], i)
  }

  /** All arms end well, but perhaps not with the same states. */
  lemma ArmsMeet(
    c: Chk, e: Expr, scope: set<string>, all: set<string>, t: Ties, s: Run, paths: seq<seq<nat>>) returns (r: Outcome)
    requires e.Case? && Flow(e, scope, all) && Structured(e) && !c.failed && Point(scope, all, t, c.vars, s)
    requires !Bad(c, t, e.scrutinee)
    requires var c0 := CheckExpr(c, e.scrutinee); ArmsFine(c0, c0.vars, e.arms, scope, all, t, Exec(e.scrutinee, s), paths)
    ensures FlowOutcome(c, e, scope, all, t, s, r)
  {
    var c0 := CheckExpr(c, e.scrutinee);
    var (c1, ends) := CheckArms(c0, c0.vars, e.arms);
    HeadFine(c, e.scrutinee, scope, all, t, s);
    assert CheckExpr(c, e) == Merge(c1, c0.vars, ends);
    if CheckExpr(c, e).failed {
      var x, i, j := Disagree(c1, c0.vars, ends, scope);
      assert ArmFine(c0.vars, e.arms, scope, all, t, Exec(e.scrutinee, s), paths[i], ends[i], i);
      assert ArmFine(c0.vars, e.arms, scope, all, t, Exec(e.scrutinee, s), paths[j], ends[j], j);
      r := ChosenParted(c, e, scope, all, t, s, c0.vars, i, Way(paths[i], ends[i]), j, Way(paths[j], ends[j]), x);
    } else {
      MergeTidy(c1, c0.vars, ends, scope);
      if e.arms == [] {
        NoArmLeads(e, scope, all, s);
        r := Fine([0]);
      } else {
        assert ArmFine(c0.vars, e.arms, scope, all, t, Exec(e.scrutinee, s), paths[0], ends[0], 0);
        ChosenLeads(e, scope, all, s, 0, paths[0]);
        r := Fine([0] + paths[0]);
      }
    }
  }

  lemma NoArmRuns(e: Expr, scope: set<string>, all: set<string>, s: Run, rest: seq<nat>)
    requires e.Case? && e.arms == [] && Flow(e, scope, all) && Structured(e) && Running(s, all)
    ensures Exec(e, Fed(s, [0] + rest)) == Yielding(Fed(Exec(e.scrutinee, s), rest), Nothing)
  {
    StraightFed(e.scrutinee, scope, all, s, [0] + rest);
    ScalarCalm(e.scrutinee, scope, all, s);
    assert ([0] + rest)[1..] == rest;
  }

  lemma NoArmLeads(e: Expr, scope: set<string>, all: set<string>, s: Run)
    requires e.Case? && e.arms == [] && Flow(e, scope, all) && Structured(e) && Running(s, all)
    ensures Leads(e, s, [0])
  {
    assert [0] + [] == [0];
    NoArmRuns(e, scope, all, s, []);
    forall rest ensures Exec(e, Fed(s, [0] + rest)) == Fed(Exec(e, Fed(s, [0])), rest) {
      NoArmRuns(e, scope, all, s, rest);
    }
  }

  // ---------- Loops ----------

  lemma NoRound(e: Expr, scope: set<string>, all: set<string>, s: Run, rest: seq<nat>)
    requires e.While? && Flow(e, scope, all) && Structured(e) && Running(s, all)
    ensures Exec(e, Fed(s, [0] + rest)) == Yielding(Fed(Exec(e.cond, s), rest), Nothing)
  {
    assert ([0] + rest)[1..] == rest;
    assert Exec(e, Fed(s, [0] + rest)) == Yielding(Iterate(e, 0, Fed(s, rest)), Nothing);
    StraightFed(e.cond, scope, all, s, rest);
  }

  lemma FirstRound(e: Expr, scope: set<string>, all: set<string>, s: Run, rest: seq<nat>)
    requires e.While? && Flow(e, scope, all) && Structured(e) && Running(s, all)
    ensures var s1 := Inner(e.body, Fed(Exec(e.cond, s), rest), true);
            Exec(e, Fed(s, [1] + rest)) == Yielding(Exec(e.cond, s1), Nothing)
  {
    assert ([1] + rest)[1..] == rest;
    StraightFed(e.cond, scope, all, s, rest);
    var s1 := Inner(e.body, Fed(Exec(e.cond, s), rest), true);
    assert Iterate(e, 0, s1) == Exec(e.cond, s1);
    assert Iterate(e, 1, Fed(s, rest)) == Iterate(e, 0, s1);
    assert Exec(e, Fed(s, [1] + rest)) == Yielding(Iterate(e, 1, Fed(s, rest)), Nothing);
  }

  lemma WhileHeadBreaks(c: Chk, e: Expr, scope: set<string>, all: set<string>, t: Ties, s: Run)
    requires e.While? && Flow(e, scope, all) && Structured(e) && Prompt({}, e) && Overt(true, e)
    requires !c.failed && Point(scope, all, t, c.vars, s) && Bad(c, t, e.cond)
    ensures forall rest :: Illegal(Exec(e, Fed(s, [0] + rest)))
  {
    HeadBreaks(c, e.cond, scope, all, t, s);
    forall rest ensures Illegal(Exec(e, Fed(s, [0] + rest))) {
      NoRound(e, scope, all, s, rest);
    }
  }

  lemma NoRoundLeads(e: Expr, scope: set<string>, all: set<string>, s: Run)
    requires e.While? && Flow(e, scope, all) && Structured(e) && Running(s, all)
    ensures Leads(e, s, [0]) && Exec(e, Fed(s, [0])) == Yielding(Fed(Exec(e.cond, s), []), Nothing)
  {
    assert [0] + [] == [0];
    NoRound(e, scope, all, s, []);
    forall rest ensures Exec(e, Fed(s, [0] + rest)) == Fed(Exec(e, Fed(s, [0])), rest) {
      NoRound(e, scope, all, s, rest);
    }
  }

  /** The first round of a loop breaks a rule. */
  lemma RoundBreaks(e: Expr, scope: set<string>, all: set<string>, s: Run, p: seq<nat>)
    requires e.While? && Flow(e, scope, all) && Structured(e) && Running(s, all)
    requires forall rest :: Illegal(Inner(e.body, Fed(Exec(e.cond, s), p + rest), true))
    ensures forall rest :: Illegal(Exec(e, Fed(s, [1] + p + rest)))
  {
    ScalarCalm(e.cond, scope, all, s);
    forall rest ensures Illegal(Exec(e, Fed(s, [1] + p + rest))) {
      assert [1] + p + rest == [1] + (p + rest);
      FirstRound(e, scope, all, s, p + rest);
      var s0 := Fed(Exec(e.cond, s), p + rest);
      var s1 := Inner(e.body, s0, true);
      InnerCalm(e.body, scope, all, s0, true);
      ScalarCalm(e.cond, scope, all, s1);
      assert Illegal(s1);
      Stays(s1, Exec(e.cond, s1));
    }
  }

  /** What is run after a way through the body: the condition once more. */
  lemma RoundLeads(e: Expr, scope: set<string>, all: set<string>, s: Run, p: seq<nat>)
    requires e.While? && Flow(e, scope, all) && Structured(e) && Running(s, all)
    requires LeadsInner(e.body, Exec(e.cond, s), p, true)
    ensures var s1 := Inner(e.body, Fed(Exec(e.cond, s), p), true);
            Leads(e, s, [1] + p) && Exec(e, Fed(s, [1] + p)) == Yielding(Exec(e.cond, s1), Nothing)
  {
    var s0 := Exec(e.cond, s);
    var s1 := Inner(e.body, Fed(s0, p), true);
    FirstRound(e, scope, all, s, p);
    forall rest ensures Exec(e, Fed(s, [1] + p + rest)) == Fed(Exec(e, Fed(s, [1] + p)), rest) {
      assert [1] + p + rest == [1] + (p + rest);
      FirstRound(e, scope, all, s, p + rest);
      assert Inner(e.body, Fed(s0, p + rest), true) == Fed(s1, rest);
      StraightFed(e.cond, scope, all, s1, rest);
    }
  }

  /** The state after the body and the condition. */
  function Around(e: Expr, w: Way): Way
    requires e.While?
  {
    Way([1] + w.path, CheckExpr(Clean(w.vars), e.cond).vars)
  }

  /** The condition cannot be evaluated a second time. */
  lemma AgainBreaks(c: Chk, e: Expr, scope: set<string>, all: set<string>, t: Ties, s: Run, before: Vars, w: Way)
    requires e.While? && Flow(e, scope, all) && Structured(e) && Prompt({}, e) && Overt(true, e)
    requires Running(s, all) && LeadsInner(e.body, Exec(e.cond, s), w.path, true)
    requires Full(scope, all, t, before, Exec(e.cond, s), {})
    requires Ends(scope, all, t, before, w, Inner(e.body, Fed(Exec(e.cond, s), w.path), true))
    requires Bad(Clean(w.vars), t, e.cond)
    ensures forall rest :: Illegal(Exec(e, Fed(s, [1] + w.path + rest)))
  {
    var s0 := Exec(e.cond, s);
    var s1 := Inner(e.body, Fed(s0, w.path), true);
    FedFull(scope, all, t, before, s0, w.path);
    InnerCalm(e.body, scope, all, Fed(s0, w.path), true);
    EndsPoint(scope, all, t, before, Fed(s0, w.path), w, s1);
    HeadBreaks(Clean(w.vars), e.cond, scope, all, t, s1);
    RoundLeads(e, scope, all, s, w.path);
    forall rest ensures Illegal(Exec(e, Fed(s, [1] + w.path + rest))) {
      assert Exec(e, Fed(s, [1] + w.path + rest)) == Fed(Exec(e, Fed(s, [1] + w.path)), rest);
    }
  }

  /** It can. */
  lemma AgainEnds(c: Chk, e: Expr, scope: set<string>, all: set<string>, t: Ties, s: Run, before: Vars, w: Way)
    requires e.While? && Flow(e, scope, all) && Structured(e) && Running(s, all) && scope <= before.Keys
    requires LeadsInner(e.body, Exec(e.cond, s), w.path, true)
    requires Full(scope, all, t, before, Exec(e.cond, s), {}) && Kept(scope, c.vars, before)
    requires Ends(scope, all, t, before, w, Inner(e.body, Fed(Exec(e.cond, s), w.path), true))
    requires !Bad(Clean(w.vars), t, e.cond)
    ensures Leads(e, s, [1] + w.path) && Ends(scope, all, t, c.vars, Around(e, w), Exec(e, Fed(s, [1] + w.path)))
  {
    var s0 := Exec(e.cond, s);
    var s1 := Inner(e.body, Fed(s0, w.path), true);
    FedFull(scope, all, t, before, s0, w.path);
    InnerCalm(e.body, scope, all, Fed(s0, w.path), true);
    EndsPoint(scope, all, t, before, Fed(s0, w.path), w, s1);
    HeadFine(Clean(w.vars), e.cond, scope, all, t, s1);
    RoundLeads(e, scope, all, s, w.path);
    InvYielding(scope, all, t, Around(e, w).vars, Exec(e.cond, s1), {}, Nothing);
  }

  /** Two ways through a loop's body that part. */
  lemma RoundsPart(
    c: Chk, e: Expr, scope: set<string>, all: set<string>, t: Ties, s: Run, x: string, a: Way, l: Way) returns (r: Outcome)
    requires e.While? && Flow(e, scope, all) && Structured(e) && Prompt({}, e) && Overt(true, e)
    requires !c.failed && Point(scope, all, t, c.vars, s) && !Bad(c, t, e.cond)
    requires InnerOutcome(CheckExpr(c, e.cond), e.body, scope, all, t, Exec(e.cond, s), true, Splits(x, a, l))
    ensures !r.Fine? && FlowOutcome(c, e, scope, all, t, s, r)
  {
    var before := CheckExpr(c, e.cond).vars;
    HeadFine(c, e.cond, scope, all, t, s);
    if Bad(Clean(a.vars), t, e.cond) {
      AgainBreaks(c, e, scope, all, t, s, before, a);
      r := Breaks([1] + a.path);
    } else if Bad(Clean(l.vars), t, e.cond) {
      AgainBreaks(c, e, scope, all, t, s, before, l);
      r := Breaks([1] + l.path);
    } else {
      AgainEnds(c, e, scope, all, t, s, before, a);
      AgainEnds(c, e, scope, all, t, s, before, l);
      ScalarHides(e.cond, scope, all);
      ExprUntouched(Clean(a.vars), Clean(l.vars), e.cond, x);
      r := Splits(x, Around(e, a), Around(e, l));
    }
  }

  lemma {:induction false} WhileSettles(c: Chk, e: Expr, scope: set<string>, all: set<string>, t: Ties, s: Run)
    returns (r: Outcome)
    requires e.While? && Flow(e, scope, all) && Structured(e) && Prompt({}, e) && Overt(true, e)
    requires !c.failed && Point(scope, all, t, c.vars, s)
    ensures FlowOutcome(c, e, scope, all, t, s, r)
    decreases e, 2
  {
    if Bad(c, t, e.cond) {
      WhileHeadBreaks(c, e, scope, all, t, s);
      r := Breaks([0]);
    } else {
      HeadFine(c, e.cond, scope, all, t, s);
      var r1 := ChosenSettles(CheckExpr(c, e.cond), e.body, scope, all, t, Exec(e.cond, s), true);
      match r1
      case Breaks(p) =>
        RoundBreaks(e, scope, all, s, p);
        r := Breaks([1] + p);
      case Splits(x, a, l) => r := RoundsPart(c, e, scope, all, t, s, x, a, l);
      case Fine(p) => r := RoundEnds(c, e, scope, all, t, s, p);
    }
  }

  /** The check of a loop fails behind its body only for an owner from around it. */
  lemma LoopRefused(c: Chk, e: Expr, scope: set<string>) returns (x: string)
    requires (e.While? || e.For?) && Tidy(c.vars, scope) && CheckExpr(c, e).failed
    requires !CheckBlock(LoopHead(c, e), e.body).failed
    ensures x in scope && x in c.vars && c.vars[x] == Unconsumed
    ensures var done := CheckBlock(LoopHead(c, e), e.body); x in done.vars && done.vars[x] == Consumed
  {
    var done := CheckBlock(LoopHead(c, e), e.body);
    assert CheckExpr(c, e) == LeaveLoop(done, c.vars);
    x :| x in c.vars && Pending(c.vars, x) && x in done.vars && done.vars[x] == Consumed;
  }

  /** The body is accepted: is the loop? */
  lemma RoundEnds(c: Chk, e: Expr, scope: set<string>, all: set<string>, t: Ties, s: Run, p: seq<nat>)
    returns (r: Outcome)
    requires e.While? && Flow(e, scope, all) && Structured(e) && Prompt({}, e) && Overt(true, e)
    requires !c.failed && Point(scope, all, t, c.vars, s) && !Bad(c, t, e.cond)
    requires InnerOutcome(CheckExpr(c, e.cond), e.body, scope, all, t, Exec(e.cond, s), true, Fine(p))
    ensures FlowOutcome(c, e, scope, all, t, s, r)
  {
    var c0 := CheckExpr(c, e.cond);
    var w := Way(p, CheckBlock(c0, e.body).vars);
    HeadFine(c, e.cond, scope, all, t, s);
    NoRoundLeads(e, scope, all, s);
    if !CheckExpr(c, e).failed {
      LoopTidy(c, e, scope);
      r := Fine([0]);
    } else if Bad(Clean(w.vars), t, e.cond) {
      AgainBreaks(c, e, scope, all, t, s, c0.vars, w);
      r := Breaks([1] + p);
    } else {
      var x := LoopRefused(c, e, scope);
      AgainEnds(c, e, scope, all, t, s, c0.vars, w);
      NotTakenTwice(c, Clean(w.vars), e.cond, scope, all, x);
      InvYielding(scope, all, t, c0.vars, Fed(Exec(e.cond, s), []), {}, Nothing);
      r := Splits(x, Around(e, w), Way([0], c0.vars));
    }
  }

  lemma LoopTidy(c: Chk, e: Expr, scope: set<string>)
    requires (e.While? || e.For?) && Tidy(c.vars, scope) && Tidy(CheckBlock(LoopHead(c, e), e.body).vars, scope)
    ensures Tidy(CheckExpr(c, e).vars, scope)
  {
  }

  /** A condition that can be evaluated after an owner has been consumed does not take the owner. */
  lemma NotTakenTwice(c: Chk, d: Chk, e: Expr, scope: set<string>, all: set<string>, x: string)
    requires Scalar(e, scope, all) && x in scope && Differ(d, c, x) && !CheckExpr(c, e).failed && !CheckExpr(d, e).failed
    ensures Differ(CheckExpr(d, e), CheckExpr(c, e), x)
  {
    ScalarHides(e, scope, all);
    ExprUntouched(d, c, e, x);
  }

  // ---------- `for` ----------

  /** What takes no owner leaves the checker's states. */
  lemma {:induction false} NothingTaken(c: Chk, e: Expr, scope: set<string>, all: set<string>)
    requires (Scalar(e, scope, all) || (Owned(e, scope, all) && !e.Var?)) && Straight(e) && Taken(e) == {}
    requires c.vars.Keys <= all
    ensures CheckExpr(c, e).vars == c.vars
    decreases e, 1
  {
    match e
    case Leaf | Var(_) | ArrayVar(_) | Opaque(_) | Alloc(_) | AddrOf(_, _) =>
    case Literal(elements) => NoneTaken(c, elements, scope, all);
    case Call(args, takes, _) => NoArgTaken(c, args, takes, scope, all);
    case Free(operand) => NothingTaken(c, operand, scope, all);
    case Deref(operand, _) => NothingTaken(c, operand, scope, all);
    case Index(base, index) =>
      NothingTaken(c, base, scope, all);
      NothingTaken(CheckExpr(c, base), index, scope, all);
    case Binary(lhs, rhs) =>
      NothingTaken(c, lhs, scope, all);
      NothingTaken(CheckExpr(c, lhs), rhs, scope, all);
    case Assign(lhs, rhs, _) =>
      NothingTaken(c, lhs, scope, all);
      NothingTaken(CheckExpr(c, lhs), rhs, scope, all);
  }

  lemma {:induction false} NoneTaken(c: Chk, es: seq<Expr>, scope: set<string>, all: set<string>)
    requires Operands(es, scope, all) && Ownerless(es, all) && StraightAll(es) && TakenAll(es) == {}
    requires c.vars.Keys <= all
    ensures CheckElements(c, es).vars == c.vars
    decreases es, 0
  {
    if es != [] {
      NothingTaken(c, es[0], scope, all);
      NoneTaken(CheckOwned(c, es[0]), es[1..], scope, all);
    }
  }

  lemma {:induction false} NoArgTaken(
    c: Chk, args: seq<Expr>, takes: seq<bool>, scope: set<string>, all: set<string>)
    requires Args(args, takes, scope, all) && StraightAll(args) && TakenArgs(args, takes) == {}
    requires c.vars.Keys <= all
    ensures CheckArgs(c, args, takes).vars == c.vars
    decreases args, 0
  {
    if args != [] && takes != [] {
      assert takes[0] ==> !args[0].Var?;
      NothingTaken(c, args[0], scope, all);
      NoArgTaken(if takes[0] then CheckOwned(c, args[0]) else CheckExpr(c, args[0]), args[1..], takes[1..], scope, all);
    }
  }

  /** No round of a `for`, or one. */
  lemma ForRuns(e: Expr, scope: set<string>, all: set<string>, s: Run, rest: seq<nat>)
    requires e.For? && Flow(e, scope, all) && Structured(e) && Running(s, all)
    ensures var s2 := Exec(e.stop, Exec(e.start, s));
            && Calm(s, s2)
            && Exec(e, Fed(s, [0] + rest)) == Yielding(Fed(s2, rest), Nothing)
            && Exec(e, Fed(s, [1] + rest)) == Yielding(Inner(e.body, Fed(s2, rest), false), Nothing)
  {
    var s1 := Exec(e.start, s);
    var s2 := Exec(e.stop, s1);
    ScalarCalm(e.start, scope, all, s);
    ScalarCalm(e.stop, scope, all, s1);
    ForHead(e, scope, all, s, [0] + rest);
    ForHead(e, scope, all, s, [1] + rest);
    assert ([0] + rest)[1..] == rest && ([1] + rest)[1..] == rest;
    assert Iterate(e, 0, Fed(s2, rest)) == Fed(s2, rest);
    var s3 := Inner(e.body, Fed(s2, rest), false);
    assert Iterate(e, 1, Fed(s2, rest)) == Iterate(e, 0, s3) == s3;
  }

  lemma ForHead(e: Expr, scope: set<string>, all: set<string>, s: Run, r: seq<nat>)
    requires e.For? && Flow(e, scope, all) && Structured(e)
    ensures Exec(e.stop, Exec(e.start, Fed(s, r))) == Fed(Exec(e.stop, Exec(e.start, s)), r)
  {
    StraightFed(e.start, scope, all, s, r);
    StraightFed(e.stop, scope, all, Exec(e.start, s), r);
  }

  /** Its bounds take nothing. */
  lemma BoundsFine(c: Chk, e: Expr, scope: set<string>, all: set<string>, t: Ties, s: Run)
    requires e.For? && Flow(e, scope, all) && Structured(e) && Prompt({}, e) && Point(scope, all, t, c.vars, s)
    requires !Bad(c, t, e.start) && !Bad(CheckExpr(c, e.start), t, e.stop)
    ensures var c2 := LoopHead(c, e);
            !c2.failed && c2.vars == c.vars && Point(scope, all, t, c2.vars, Exec(e.stop, Exec(e.start, s)))
  {
    HeadFine(c, e.start, scope, all, t, s);
    NothingTaken(c, e.start, scope, all);
    HeadFine(CheckExpr(c, e.start), e.stop, scope, all, t, Exec(e.start, s));
    NothingTaken(CheckExpr(c, e.start), e.stop, scope, all);
  }

  lemma BoundsBreak(c: Chk, e: Expr, scope: set<string>, all: set<string>, t: Ties, s: Run)
    requires e.For? && Flow(e, scope, all) && Structured(e) && Prompt({}, e) && Overt(true, e)
    requires !c.failed && Point(scope, all, t, c.vars, s)
    requires Bad(c, t, e.start) || Bad(CheckExpr(c, e.start), t, e.stop)
    ensures Illegal(Exec(e.stop, Exec(e.start, s)))
  {
    var s1 := Exec(e.start, s);
    if Bad(c, t, e.start) {
      HeadBreaks(c, e.start, scope, all, t, s);
      ScalarCalm(e.start, scope, all, s);
      ScalarCalm(e.stop, scope, all, s1);
      Stays(s1, Exec(e.stop, s1));
    } else {
      HeadFine(c, e.start, scope, all, t, s);
      HeadBreaks(CheckExpr(c, e.start), e.stop, scope, all, t, s1);
    }
  }

  lemma {:induction false} ForSettles(c: Chk, e: Expr, scope: set<string>, all: set<string>, t: Ties, s: Run)
    returns (r: Outcome)
    requires e.For? && Flow(e, scope, all) && Structured(e) && Prompt({}, e) && Overt(true, e)
    requires !c.failed && Point(scope, all, t, c.vars, s)
    ensures FlowOutcome(c, e, scope, all, t, s, r)
    decreases e, 2
  {
    var s2 := Exec(e.stop, Exec(e.start, s));
    if Bad(c, t, e.start) || Bad(CheckExpr(c, e.start), t, e.stop) {
      BoundsBreak(c, e, scope, all, t, s);
      ForBreaks(e, scope, all, s);
      r := Breaks([0]);
    } else {
      BoundsFine(c, e, scope, all, t, s);
      var r1 := ChosenSettles(LoopHead(c, e), e.body, scope, all, t, s2, false);
      match r1
      case Breaks(p) =>
        ForBodyBreaks(e, scope, all, s, p);
        r := Breaks([1] + p);
      case Splits(x, a, l) =>
        ForLeads(c, e, scope, all, t, s, a);
        ForLeads(c, e, scope, all, t, s, l);
        r := Splits(x, Way([1] + a.path, a.vars), Way([1] + l.path, l.vars));
      case Fine(p) => r := ForEnds(c, e, scope, all, t, s, p);
    }
  }

  lemma ForBreaks(e: Expr, scope: set<string>, all: set<string>, s: Run)
    requires e.For? && Flow(e, scope, all) && Structured(e) && Running(s, all)
    requires Illegal(Exec(e.stop, Exec(e.start, s)))
    ensures forall rest :: Illegal(Exec(e, Fed(s, [0] + rest)))
  {
    forall rest ensures Illegal(Exec(e, Fed(s, [0] + rest))) {
      ForRuns(e, scope, all, s, rest);
    }
  }

  lemma ForBodyBreaks(e: Expr, scope: set<string>, all: set<string>, s: Run, p: seq<nat>)
    requires e.For? && Flow(e, scope, all) && Structured(e) && Running(s, all)
    requires forall rest :: Illegal(Inner(e.body, Fed(Exec(e.stop, Exec(e.start, s)), p + rest), false))
    ensures forall rest :: Illegal(Exec(e, Fed(s, [1] + p + rest)))
  {
    forall rest ensures Illegal(Exec(e, Fed(s, [1] + p + rest))) {
      assert [1] + p + rest == [1] + (p + rest);
      ForRuns(e, scope, all, s, p + rest);
      assert Illegal(Inner(e.body, Fed(Exec(e.stop, Exec(e.start, s)), p + rest), false));
    }
  }

  /** A way through the body is one through the loop. */
  lemma ForLeads(c: Chk, e: Expr, scope: set<string>, all: set<string>, t: Ties, s: Run, w: Way)
    requires e.For? && Flow(e, scope, all) && Structured(e) && Running(s, all)
    requires LeadsInner(e.body, Exec(e.stop, Exec(e.start, s)), w.path, false)
    requires Ends(scope, all, t, c.vars, w, Inner(e.body, Fed(Exec(e.stop, Exec(e.start, s)), w.path), false))
    ensures Leads(e, s, [1] + w.path)
    ensures Ends(scope, all, t, c.vars, Way([1] + w.path, w.vars), Exec(e, Fed(s, [1] + w.path)))
  {
    var s2 := Exec(e.stop, Exec(e.start, s));
    ForRuns(e, scope, all, s, w.path);
    ForOnward(e, scope, all, s, w.path);
    InvYielding(scope, all, t, w.vars, Inner(e.body, Fed(s2, w.path), false), {}, Nothing);
  }

  lemma ForOnward(e: Expr, scope: set<string>, all: set<string>, s: Run, p: seq<nat>)
    requires e.For? && Flow(e, scope, all) && Structured(e) && Running(s, all)
    requires LeadsInner(e.body, Exec(e.stop, Exec(e.start, s)), p, false)
    ensures Leads(e, s, [1] + p)
  {
    var s2 := Exec(e.stop, Exec(e.start, s));
    ForRuns(e, scope, all, s, p);
    forall rest ensures Exec(e, Fed(s, [1] + p + rest)) == Fed(Exec(e, Fed(s, [1] + p)), rest) {
      assert [1] + p + rest == [1] + (p + rest);
      ForRuns(e, scope, all, s, p + rest);
      assert Inner(e.body, Fed(s2, p + rest), false) == Fed(Inner(e.body, Fed(s2, p), false), rest);
    }
  }

  lemma ForSkips(c: Chk, e: Expr, scope: set<string>, all: set<string>, t: Ties, s: Run)
    requires e.For? && Flow(e, scope, all) && Structured(e) && Running(s, all)
    requires Point(scope, all, t, c.vars, Exec(e.stop, Exec(e.start, s)))
    ensures Leads(e, s, [0]) && Ends(scope, all, t, c.vars, Way([0], c.vars), Exec(e, Fed(s, [0])))
  {
    var s2 := Exec(e.stop, Exec(e.start, s));
    assert [0] + [] == [0];
    ForRuns(e, scope, all, s, []);
    forall rest ensures Exec(e, Fed(s, [0] + rest)) == Fed(Exec(e, Fed(s, [0])), rest) {
      ForRuns(e, scope, all, s, rest);
    }
    InvYielding(scope, all, t, c.vars, Fed(s2, []), {}, Nothing);
  }

  lemma ForEnds(c: Chk, e: Expr, scope: set<string>, all: set<string>, t: Ties, s: Run, p: seq<nat>)
    returns (r: Outcome)
    requires e.For? && Flow(e, scope, all) && Structured(e) && Prompt({}, e) && !c.failed
    requires Point(scope, all, t, c.vars, s) && !Bad(c, t, e.start) && !Bad(CheckExpr(c, e.start), t, e.stop)
    requires InnerOutcome(LoopHead(c, e), e.body, scope, all, t, Exec(e.stop, Exec(e.start, s)), false, Fine(p))
    ensures FlowOutcome(c, e, scope, all, t, s, r)
  {
    var w := Way(p, CheckBlock(LoopHead(c, e), e.body).vars);
    BoundsFine(c, e, scope, all, t, s);
    if CheckExpr(c, e).failed {
      var x := LoopRefused(c, e, scope);
      r := RoundParts(c, e, scope, all, t, s, w, x);
    } else {
      ForSkips(c, e, scope, all, t, s);
      LoopTidy(c, e, scope);
      ForClear(c, e, t);
      r := Fine([0]);
    }
  }

  /** A round of the loop, and none. */
  lemma RoundParts(c: Chk, e: Expr, scope: set<string>, all: set<string>, t: Ties, s: Run, w: Way, x: string)
    returns (r: Outcome)
    requires e.For? && Flow(e, scope, all) && Structured(e) && Running(s, all) && Parted(x, scope, w.vars, c.vars)
    requires Point(scope, all, t, c.vars, Exec(e.stop, Exec(e.start, s)))
    requires LeadsInner(e.body, Exec(e.stop, Exec(e.start, s)), w.path, false)
    requires Ends(scope, all, t, c.vars, w, Inner(e.body, Fed(Exec(e.stop, Exec(e.start, s)), w.path), false))
    ensures !r.Fine? && FlowOutcome(c, e, scope, all, t, s, r)
  {
    ForSkips(c, e, scope, all, t, s);
    ForLeads(c, e, scope, all, t, s, w);
    r := Splits(x, Way([1] + w.path, w.vars), Way([0], c.vars));
  }

  lemma ForClear(c: Chk, e: Expr, t: Ties)
    requires e.For?
    ensures Clear(true, c, t, e) <==>
            && Clear(true, c, t, e.start) && Clear(true, CheckExpr(c, e.start), t, e.stop)
            && ClearInner(LoopHead(c, e), t, e.body)
  {
  }
}
