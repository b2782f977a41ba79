/** Good code, in which no error is reported and nothing overlooked, leads from one well-understood point of a run
    to the next. */
module LinearLater {
  import opened Wrappers
  import opened LinearSyntax
  import opened LinearChecker
  import opened LinearFlow
  import opened LinearRuns
  import opened LinearGaps
  import opened LinearCalm
  import opened LinearInvariant
  import opened LinearSafety
  import opened LinearBreaks

  /** Owners in sight that have been consumed are still so after more code, unless it declares them again. */
  lemma StaysConsumed(c: Chk, e: Expr, scope: set<string>, all: set<string>)
    requires (Scalar(e, scope, all) || Flow(e, scope, all) || Owned(e, scope, all)) && scope <= c.vars.Keys
    ensures forall y | y in scope && c.vars[y] == Consumed :: y in CheckExpr(c, e).vars && CheckExpr(c, e).vars[y] == Consumed
  {
    ExprGrows(c, e);
    if Flow(e, scope, all) {
      FlowHides(e, scope, all);
    } else {
      ScalarHides(e, scope, all);
    }
  }

  lemma ScalarLater(
    walked: bool, c: Chk, e: Expr, scope: set<string>, all: set<string>, t: Ties, s: Run, held: set<Ref>)
    requires Scalar(e, scope, all) && Good(walked, c, t, e) && Full(scope, all, t, c.vars, s, held)
    ensures var vars, s' := After(walked, c, e).vars, Exec(e, s);
            && Later(scope, all, t, c.vars, s, held, t, vars, s', held) && Full(scope, all, t, vars, s', held)
            && Calm(s, s') && s'.value == ValueOf(e, s')
  {
    var s' := Exec(e, s);
    ScalarSafe(walked, c, e, scope, all, t, s, held);
    ScalarCalm(e, scope, all, s);
    StaysConsumed(c, e, scope, all);
    ValueSame(e, s, s');
    SpentKept(scope, all, t, c.vars, s, held, t, After(walked, c, e).vars, s', held);
  }

  lemma FlowLater(c: Chk, e: Expr, scope: set<string>, all: set<string>, t: Ties, s: Run, held: set<Ref>)
    requires Flow(e, scope, all) && !CheckExpr(c, e).failed && Clear(true, c, t, e)
    requires Full(scope, all, t, c.vars, s, held)
    ensures Full(scope, all, t, CheckExpr(c, e).vars, Exec(e, s), held) && Calm(s, Exec(e, s))
  {
    FlowSafe(c, e, scope, all, t, s, held);
    FlowCalm(e, scope, all, s);
    StaysConsumed(c, e, scope, all);
    SpentKept(scope, all, t, c.vars, s, held, t, CheckExpr(c, e).vars, Exec(e, s), held);
  }

  lemma OwnedLater(
    walked: bool, c: Chk, e: Expr, scope: set<string>, all: set<string>, t: Ties, s: Run, held: set<Ref>)
    requires Owned(e, scope, all) && GoodOwned(walked, c, t, e) && Full(scope, all, t, c.vars, s, held)
    ensures var vars, t', (s', v) := AfterOwned(walked, c, e).vars, Awaiting(t, e), Take(e, s);
            && v.Some? && v.value !in held && (e.Var? ==> v.value == s.env[e.name])
            && Later(scope, all, t, c.vars, s, held, t', vars, s', held + {v.value})
            && Full(scope, all, t', vars, s', held + {v.value}) && Calm(s, s')
  {
    OwnedSafe(walked, c, e, scope, all, t, s, held);
    OwnedCalm(e, scope, all, s);
    OwnedStays(walked, c, e, scope, all);
    var (s', v) := Take(e, s);
    SpentKept(scope, all, t, c.vars, s, held, Awaiting(t, e), AfterOwned(walked, c, e).vars, s', held + {v.value});
  }

  lemma OwnedStays(walked: bool, c: Chk, e: Expr, scope: set<string>, all: set<string>)
    requires Owned(e, scope, all) && scope <= c.vars.Keys
    ensures var d := AfterOwned(walked, c, e);
            forall y | y in scope && c.vars[y] == Consumed :: y in d.vars && d.vars[y] == Consumed
  {
    if !e.Var? {
      StaysConsumed(c, e, scope, all);
      assert CheckOwned(c, e) == CheckExpr(c, e);
    }
  }

  /** The states agree on the owners in sight. */
  lemma FullSame(scope: set<string>, all: set<string>, t: Ties, vars: Vars, vars': Vars, s: Run, held: set<Ref>)
    requires Full(scope, all, t, vars, s, held)
    requires scope <= vars'.Keys <= all && forall x | x in scope :: vars'[x] == vars[x]
    ensures Full(scope, all, t, vars', s, held)
  {
    InvSame(scope, all, t, vars, vars', s, held);
    forall a | a in s.views && !Alive(vars', t, t.roots[a]) ensures !Alive(vars, t, t.roots[a]) {
    }
  }

  // ---------- Declarations ----------

  lemma DefinitionChecked(c: Chk, t: Ties, own: set<string>, e: Expr)
    requires e.VarDef?
    ensures CheckStmt(c, e) == Register(CheckOwned(c, e.init), e.name, e.linear)
    ensures var vars := CheckOwned(c, e.init).vars;
            ClearStmt(c, t, own, e) <==>
            if !e.linear then Clear(true, c, t, e.init)
            else ClearOwned(true, c, t, e.init) && (e.name in own && e.name in vars ==> vars[e.name] == Consumed)
  {
  }

  /** Binding a reference brings no cell back to life. */
  lemma BindLive(s: Run, name: string, r: Ref, moved: bool)
    requires moved ==> r in Audit(s.trace).live
    ensures forall q | q in Audit(Bind(s, name, r, moved).trace).live :: LiveCell(Audit(s.trace).live, q.cell)
  {
    var to := if moved then Ref(r.cell, s.supply) else r;
    var s1 := if moved then Emit(s, Move(r, to)).(supply := s.supply + 1) else s;
    AuditEmit(s, Move(r, to));
    if name in s.env {
      AuditEmit(s1, Hide(s.env[name]));
    }
    assert Bind(s, name, r, moved).trace == if name in s.env then Emit(s1, Hide(s.env[name])).trace else s1.trace;
  }

  /** An array's memory that is gone stays gone when an owner is declared. */
  lemma SpentBinds(
    scope: set<string>, all: set<string>, t: Ties, t': Ties, vars: Vars, s: Run, e: Expr, r: Ref, held: set<Ref>)
    requires Full(scope, all, t', vars, s, held + {r}) && t'.roots == t.roots
    requires e.VarDef? && e.linear && t'.pending == t.pending + TakenName(e.init)
    requires e.name in scope ==> vars[e.name] == Consumed && e.name !in t.pending
    ensures Spent(TiesAfter(t, e), vars[e.name := Unconsumed], Bind(s, e.name, r, e.init.Var?))
  {
    BindLive(s, e.name, r, e.init.Var?);
    var t1, vars1 := TiesAfter(t, e), vars[e.name := Unconsumed];
    forall a | a in s.views && !Alive(vars1, t1, t1.roots[a]) ensures !Alive(vars, t', t.roots[a]) {
    }
  }

  lemma DefinitionLater(
    c: Chk, e: Expr, scope: set<string>, all: set<string>, t: Ties, own: set<string>, s: Run, held: set<Ref>)
    requires e.VarDef? && e.linear && Stmt(e, scope, all) && !CheckStmt(c, e).failed && ClearStmt(c, t, own, e)
    requires Full(scope, all, t, c.vars, s, held) && Bound(e) !! t.pending && Bound(e) * scope <= own
    ensures Spent(TiesAfter(t, e), CheckStmt(c, e).vars, Exec(e, s))
  {
    DefinitionChecked(c, t, own, e);
    OwnedLater(true, c, e.init, scope, all, t, s, held);
    var (s1, v) := Take(e.init, s);
    var vars := CheckOwned(c, e.init).vars;
    assert e.name in scope ==> e.name in own && e.name in vars;
    SpentBinds(scope, all, t, Awaiting(t, e.init), vars, s1, e, v.value, held);
  }

  /** An array reached through a pointer was there when it was named. */
  lemma ArrayWasThere(walked: bool, c: Chk, t: Ties, e: Expr)
    requires Good(walked, c, t, e)
    ensures e.Deref? ==> Alive(After(walked, c, e).vars, t, RootOf(t.roots, e.operand))
    ensures e.Deref? && e.toArray ==> Alive(After(walked, c, e).vars, t, RootOf(t.roots, e))
  {
    if e.Deref? {
      DerefParts(walked, c, t, e);
    }
  }

  lemma ViewLater(
    c: Chk, e: Expr, scope: set<string>, all: set<string>, t: Ties, own: set<string>, s: Run, held: set<Ref>)
    requires e.VarDef? && !e.linear && Stmt(e, scope, all) && !CheckStmt(c, e).failed && ClearStmt(c, t, own, e)
    requires Full(scope, all, t, c.vars, s, held)
    ensures Spent(TiesAfter(t, e), CheckStmt(c, e).vars, Exec(e, s))
  {
    DefinitionChecked(c, t, own, e);
    assert CheckOwned(c, e.init) == CheckExpr(c, e.init);
    ScalarLater(true, c, e.init, scope, all, t, s, held);
    ArrayWasThere(true, c, t, e.init);
    SpentBindsView(scope, all, t, CheckExpr(c, e.init).vars, Exec(e.init, s), e, held);
  }

  lemma SpentBindsView(
    scope: set<string>, all: set<string>, t: Ties, vars: Vars, s: Run, e: Expr, held: set<Ref>)
    requires Full(scope, all, t, vars, s, held) && e.VarDef? && !e.linear && s.value == ValueOf(e.init, s)
    requires e.init.Deref? && e.init.toArray ==> Alive(vars, t, RootOf(t.roots, e.init))
    ensures Spent(TiesAfter(t, e), vars, BindView(s, e.name))
  {
    ValueRoot(all, t.roots, s, e.init);
    var v := ValueOf(e.init, s);
    if v.View? && e.init.Deref? {
      assert RootOf(t.roots, e.init).Of?;
    }
  }

  lemma StmtLater(
    c: Chk, e: Expr, scope: set<string>, all: set<string>, t: Ties, own: set<string>, s: Run, held: set<Ref>)
    requires Stmt(e, scope, all) && !CheckStmt(c, e).failed && ClearStmt(c, t, own, e)
    requires Full(scope, all, t, c.vars, s, held) && Bound(e) !! t.pending && Bound(e) * scope <= own
    ensures Full(scope + Bound(e), all, TiesAfter(t, e), CheckStmt(c, e).vars, Exec(e, s), held)
  {
    StmtSafe(c, e, scope, all, t, own, s, held);
    if e.VarDef? && e.linear {
      DefinitionLater(c, e, scope, all, t, own, s, held);
    } else if e.VarDef? {
      ViewLater(c, e, scope, all, t, own, s, held);
    } else {
      PlainLater(c, e, scope, all, t, own, s, held);
    }
  }

  lemma PlainLater(
    c: Chk, e: Expr, scope: set<string>, all: set<string>, t: Ties, own: set<string>, s: Run, held: set<Ref>)
    requires !e.VarDef? && Stmt(e, scope, all) && !CheckStmt(c, e).failed && ClearStmt(c, t, own, e)
    requires Full(scope, all, t, c.vars, s, held)
    ensures Spent(TiesAfter(t, e), CheckStmt(c, e).vars, Exec(e, s))
  {
    assert TiesAfter(t, e) == t && !Discards(e);
    if e.If? || e.While? || e.For? || e.Case? {
      FlowLater(c, e, scope, all, t, s, held);
    } else {
      ScalarLater(true, c, e, scope, all, t, s, held);
    }
  }

  lemma {:induction false} BlockLater(
    c: Chk, b: seq<Expr>, outer: set<string>, scope: set<string>, all: set<string>, t: Ties, own: set<string>, s: Run,
    held: set<Ref>)
    requires Block(b, outer, scope, all) && scope == outer + own && t.pending <= outer
    requires !CheckBlock(c, b).failed && ClearBlock(c, t, own, b) && Full(scope, all, t, c.vars, s, held)
    ensures Full(ScopeAfter(b, scope), all, TiesAfterAll(t, b), CheckBlock(c, b).vars, ExecAll(b, s), held)
    decreases b
  {
    if b != [] {
      var c1 := CheckStmt(c, b[0]);
      BlockGrows(c1, b[1..]);
      StmtLater(c, b[0], scope, all, t, own, s, held);
      BlockLater(c1, b[1..], outer, scope + Bound(b[0]), all, TiesAfter(t, b[0]), own + Bound(b[0]), Exec(b[0], s), held);
    }
  }
}
