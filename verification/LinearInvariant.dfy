/** The checker's state describes memory: how it does, and what each event changes. */
module LinearInvariant {
  import opened Wrappers
  import opened LinearSyntax
  import opened LinearChecker
  import opened LinearRuns
  import opened LinearGaps
  import opened LinearCalm

  /** The variables whose references are on their way to a new owner. */
  function Waiting(env: map<string, Ref>, held: set<Ref>): set<string>
  {
    set x | x in env && env[x] in held
  }

  /** Each owner in scope has a reference of its own, which is live and not on its way exactly if the owner has
      not been consumed; and no other reference is live. */
  ghost predicate Owning(vars: Vars, env: map<string, Ref>, l: Ledger, held: set<Ref>)
    requires env.Keys <= vars.Keys
  {
    && held <= l.live
    && (forall x | x in env :: env[x].owner in l.owners && env[x].cell in l.cells)
    && (forall x | x in env :: vars[x] == Unconsumed <==> env[x] in l.live && env[x] !in held)
    && (forall r | r in l.live && r !in held :: r in env.Values)
    && (forall x, y | x in env && y in env && x != y :: env[x] != env[y])
  }

  /** The array variables that are some owner's memory are those the text says are. */
  ghost predicate Viewing(all: set<string>, roots: Roots, env: map<string, Ref>, views: map<string, Ref>)
  {
    && (forall a | a in views :: a in roots && !roots[a].Unowned?)
    && (forall a | a in views && roots[a].Of? :: roots[a].name in env && env[roots[a].name].cell == views[a].cell)
    && (forall a | a in roots && (roots[a].Lost? || (roots[a].Of? && roots[a].name in all)) :: a in views)
  }

  ghost predicate Counted(s: Run)
  {
    var l := Audit(s.trace);
    l.legal && (forall o | o in l.owners :: o < s.supply) && (forall o | o in l.cells :: o < s.supply)
  }

  /** The invariant of a run and the check of its code.  The references in `held` are arguments whose call has not
      been made yet. */
  ghost predicate Inv(scope: set<string>, all: set<string>, t: Ties, vars: Vars, s: Run, held: set<Ref>)
  {
    && !s.returned && !s.flat && Counted(s)
    && scope <= vars.Keys <= all && s.env.Keys == scope
    && t.pending == Waiting(s.env, held)
    && Owning(vars, s.env, Audit(s.trace), held)
    && Viewing(all, t.roots, s.env, s.views)
  }

  lemma InvSame(scope: set<string>, all: set<string>, t: Ties, vars: Vars, vars': Vars, s: Run, held: set<Ref>)
    requires Inv(scope, all, t, vars, s, held)
    requires scope <= vars'.Keys <= all && forall x | x in scope :: vars'[x] == vars[x]
    ensures Inv(scope, all, t, vars', s, held)
  {
  }

  /** A visible owner is taken from its variable. */
  lemma Takes(scope: set<string>, all: set<string>, t: Ties, vars: Vars, s: Run, x: string, held: set<Ref>)
    requires Inv(scope, all, t, vars, s, held) && x in scope && vars[x] == Unconsumed
    ensures s.env[x] !in held
    ensures Inv(scope, all, Awaiting(t, Var(x)), vars[x := Consumed], s, held + {s.env[x]})
  {
    assert Waiting(s.env, held + {s.env[x]}) == Waiting(s.env, held) + {x};
  }

  /** A new cell comes into being. */
  lemma Creates(scope: set<string>, all: set<string>, t: Ties, vars: Vars, s: Run, held: set<Ref>)
    requires Inv(scope, all, t, vars, s, held)
    ensures var (s', r) := Create(s); r !in held && Inv(scope, all, t, vars, s', held + {r})
  {
    var r := Ref(s.supply, s.supply);
    AuditEmit(s, New(r));
    LiveRefs(s.trace);
    assert Waiting(s.env, held + {r}) == Waiting(s.env, held);
  }

  /** A reference on its way is handed to somebody for good. */
  lemma GivesUp(scope: set<string>, all: set<string>, t: Ties, t': Ties, vars: Vars, s: Run, e: Event, held: set<Ref>)
    requires Consumes(e) && Inv(scope, all, t', vars, s, held + {e.ref}) && e.ref !in held
    requires t.roots == t'.roots && t.pending == Waiting(s.env, held)
    ensures Inv(scope, all, t, vars, Emit(s, e), held)
  {
    AuditEmit(s, e);
  }

  /** What an expression has yielded makes no difference. */
  lemma InvYielding(scope: set<string>, all: set<string>, t: Ties, vars: Vars, s: Run, held: set<Ref>, v: Value)
    requires Inv(scope, all, t, vars, s, held)
    ensures Inv(scope, all, t, vars, Yielding(s, v), held)
  {
  }

  predicate Distinct(refs: seq<Ref>)
  {
    refs == [] || (refs[0] !in refs[1..] && Distinct(refs[1..]))
  }

  function Refs(refs: seq<Ref>): set<Ref>
  {
    set r | r in refs
  }

  /** A call hands over all its owning arguments. */
  lemma {:induction false} PassesAll(
    scope: set<string>, all: set<string>, t: Ties, t': Ties, vars: Vars, s: Run, refs: seq<Ref>, held: set<Ref>)
    requires Inv(scope, all, t', vars, s, held + Refs(refs)) && held !! Refs(refs) && Distinct(refs)
    requires t.roots == t'.roots && t.pending == Waiting(s.env, held)
    ensures Inv(scope, all, t, vars, Pass(s, refs), held)
    decreases |refs|
  {
    if refs == [] {
      assert held + Refs(refs) == held;
    } else {
      var left := held + Refs(refs[1..]);
      assert refs[0] in refs && held + Refs(refs) == left + {refs[0]};
      var t1 := t.(pending := Waiting(s.env, left));
      GivesUp(scope, all, t1, t', vars, s, Passed(refs[0]), left);
      PassesAll(scope, all, t, t1, vars, Emit(s, Passed(refs[0])), refs[1..], held);
    }
  }

  /** Nothing of the ledger changes. */
  lemma Notes(scope: set<string>, all: set<string>, t: Ties, vars: Vars, s: Run, e: Event, held: set<Ref>)
    requires Inv(scope, all, t, vars, s, held)
    requires match e
             case Use(r) => r in Audit(s.trace).live
             case Look(r) => LiveCell(Audit(s.trace).live, r.cell)
             case Hide(r) => r !in Audit(s.trace).live
             case _ => false
    ensures Inv(scope, all, t, vars, Emit(s, e), held)
  {
    AuditEmit(s, e);
  }

  // ---------- Values and their roots ----------

  /** What the run finds behind a value is the memory of the owner the text names. */
  lemma {:induction false} ValueRoot(all: set<string>, roots: Roots, s: Run, e: Expr)
    requires Viewing(all, roots, s.env, s.views)
    ensures var v, root := ValueOf(e, s), RootOf(roots, e);
            && (v.Direct? ==> root.Of? && root.name in s.env && v.ref == s.env[root.name])
            && (v.View? ==> IsArray(e) && !root.Unowned?)
            && (v.View? && root.Of? ==> root.name in s.env && v.ref.cell == s.env[root.name].cell)
            && (!v.Nothing? ==> !root.Unowned?)
  {
    if e.Deref? && e.toArray {
      ValueRoot(all, roots, s, e.operand);
    }
  }

  lemma Touches(scope: set<string>, all: set<string>, t: Ties, vars: Vars, s: Run, e: Expr, held: set<Ref>)
    requires Inv(scope, all, t, vars, s, held) && Alive(vars, t, RootOf(t.roots, e))
    ensures Inv(scope, all, t, vars, Touch(s, ValueOf(e, s)), held)
  {
    ValueRoot(all, t.roots, s, e);
    var v, root := ValueOf(e, s), RootOf(t.roots, e);
    if !v.Nothing? {
      var l := Audit(s.trace);
      assert root.Of? && s.env[root.name] in l.live;
      Notes(scope, all, t, vars, s, if v.View? then Look(v.ref) else Use(v.ref), held);
    }
  }

  lemma LoadsKeep(scope: set<string>, all: set<string>, t: Ties, vars: Vars, s: Run, e: Expr, held: set<Ref>)
    requires Inv(scope, all, t, vars, s, held) && Loads(vars, t, e)
    ensures Inv(scope, all, t, vars, Load(s, ValueOf(e, s)), held)
  {
    ValueRoot(all, t.roots, s, e);
    if ValueOf(e, s).View? {
      Touches(scope, all, t, vars, s, e, held);
    }
  }

  /** The names of a value are in reach. */
  predicate InReach(e: Expr, scope: set<string>, all: set<string>)
  {
    match e
    case Var(x) => Reachable(x, scope, all)
    case Deref(operand, true) => InReach(operand, scope, all)
    case _ => true
  }

  lemma {:induction false} ScalarInReach(e: Expr, scope: set<string>, all: set<string>)
    requires Scalar(e, scope, all)
    ensures InReach(e, scope, all)
  {
    if e.Deref? {
      ScalarInReach(e.operand, scope, all);
    }
  }

  predicate Tracked(root: Root, all: set<string>)
  {
    root.Lost? || (root.Of? && root.name in all)
  }

  /** A value that the text says is some owner's memory is. */
  lemma {:induction false} TrackedValue(scope: set<string>, all: set<string>, roots: Roots, s: Run, e: Expr)
    requires Viewing(all, roots, s.env, s.views) && s.env.Keys == scope && InReach(e, scope, all)
    ensures Tracked(RootOf(roots, e), all) ==> !ValueOf(e, s).Nothing? && (IsArray(e) ==> ValueOf(e, s).View?)
  {
    if e.Deref? && e.toArray {
      TrackedValue(scope, all, roots, s, e.operand);
    }
  }

  // ---------- Declarations ----------

  /** An array variable is declared, or another variable that owns nothing. */
  lemma BindsView(scope: set<string>, all: set<string>, t: Ties, vars: Vars, s: Run, e: Expr, held: set<Ref>)
    requires Inv(scope, all, t, vars, s, held) && e.VarDef? && !e.linear && s.value == ValueOf(e.init, s)
    requires InReach(e.init, scope, all) && (e.init.Var? ==> e.init.name !in all)
    ensures Inv(scope, all, TiesAfter(t, e), vars, BindView(s, e.name), held)
  {
    ValueRoot(all, t.roots, s, e.init);
    TrackedValue(scope, all, t.roots, s, e.init);
  }

  /** The views after an owner has been declared. */
  lemma RebindsViews(all: set<string>, roots: Roots, env: map<string, Ref>, views: map<string, Ref>, e: Expr, to: Ref)
    requires Viewing(all, roots, env, views) && e.VarDef? && e.linear && e.name in all && env.Keys <= all
    requires e.init.Var? ==> e.init.name in env && env[e.init.name].cell == to.cell
    ensures Viewing(all, RootsAfter(roots, e), env[e.name := to], views)
  {
  }

  /** A reference on its way reaches a new variable, or one that has nothing any more. */
  lemma Binds(
    scope: set<string>, all: set<string>, t: Ties, t': Ties, vars: Vars, s: Run, e: Expr, r: Ref, held: set<Ref>)
    requires Inv(scope, all, t', vars, s, held + {r}) && r !in held
    requires t.roots == t'.roots && t.pending == Waiting(s.env, held)
    requires e.VarDef? && e.linear && e.name in all
    requires e.name in scope ==> vars[e.name] == Consumed && e.name !in t.pending
    requires if e.init.Var? then e.init.name in scope && r == s.env[e.init.name] else t'.pending == t.pending
    ensures Inv(scope + {e.name}, all, TiesAfter(t, e), vars[e.name := Unconsumed], Bind(s, e.name, r, e.init.Var?), held)
  {
    LiveRefs(s.trace);
    if e.init.Var? {
      MovesTo(scope, all, t, t', vars, s, e, r, held);
    } else {
      ArrivesAt(scope, all, t, t', vars, s, e, r, held);
    }
  }

  lemma ArrivesAt(
    scope: set<string>, all: set<string>, t: Ties, t': Ties, vars: Vars, s: Run, e: Expr, r: Ref, held: set<Ref>)
    requires Inv(scope, all, t', vars, s, held + {r}) && r !in held
    requires t.roots == t'.roots && t.pending == t'.pending == Waiting(s.env, held)
    requires e.VarDef? && e.linear && e.name in all && !e.init.Var?
    requires e.name in scope ==> vars[e.name] == Consumed && e.name !in t.pending
    ensures Inv(scope + {e.name}, all, TiesAfter(t, e), vars[e.name := Unconsumed], Bind(s, e.name, r, false), held)
  {
    var x := e.name;
    LiveRefs(s.trace);
    forall y | y in s.env ensures s.env[y] != r {
      assert y in Waiting(s.env, held + {r}) <==> y in Waiting(s.env, held);
    }
    var s2 := if x in s.env then Emit(s, Hide(s.env[x])) else s;
    if x in s.env {
      AuditEmit(s, Hide(s.env[x]));
    }
    RebindsViews(all, t.roots, s.env, s.views, e, r);
    var env' := s.env[x := r];
    assert Waiting(env', held) == Waiting(s.env, held);
    Rebinds(vars, s.env, Audit(s.trace), x, r, held);
  }

  /** The owners after a reference on its way has become a variable's. */
  lemma Rebinds(vars: Vars, env: map<string, Ref>, l: Ledger, x: string, r: Ref, held: set<Ref>)
    requires env.Keys <= vars.Keys && r !in held && r.owner in l.owners && r.cell in l.cells
    requires Owning(vars, env, l, held + {r}) && r !in env.Values
    requires x in env ==> env[x] !in l.live
    ensures Owning(vars[x := Unconsumed], env[x := r], l, held)
  {
    var env' := env[x := r];
    forall q | q in l.live && q !in held ensures q in env'.Values {
      if q == r {
        assert env'[x] == q;
      } else {
        var y :| y in env && env[y] == q;
        assert env'[y] == q;
      }
    }
  }

  lemma MovesTo(
    scope: set<string>, all: set<string>, t: Ties, t': Ties, vars: Vars, s: Run, e: Expr, r: Ref, held: set<Ref>)
    requires Inv(scope, all, t', vars, s, held + {r}) && r !in held
    requires t.roots == t'.roots && t.pending == Waiting(s.env, held)
    requires e.VarDef? && e.linear && e.name in all && e.init.Var?
    requires e.init.name in scope && r == s.env[e.init.name]
    requires e.name in scope ==> vars[e.name] == Consumed && e.name !in t.pending
    ensures Inv(scope + {e.name}, all, TiesAfter(t, e), vars[e.name := Unconsumed], Bind(s, e.name, r, true), held)
  {
    var x, to := e.name, Ref(r.cell, s.supply);
    LiveRefs(s.trace);
    AuditEmit(s, Move(r, to));
    var s1 := Emit(s, Move(r, to)).(supply := s.supply + 1);
    assert Counted(s1);
    Moves(vars, s.env, Audit(s.trace), Audit(s1.trace), r, to, held);
    if x in s.env {
      AuditEmit(s1, Hide(s.env[x]));
    }
    RebindsViews(all, t.roots, s.env, s.views, e, to);
    assert Waiting(s.env[x := to], held) == Waiting(s.env, held);
    Rebinds(vars, s.env, Audit(s1.trace), x, to, held);
  }

  /** A reference on its way gets a new owner. */
  lemma Moves(vars: Vars, env: map<string, Ref>, l: Ledger, l': Ledger, r: Ref, to: Ref, held: set<Ref>)
    requires env.Keys <= vars.Keys && Owning(vars, env, l, held + {r}) && r !in held
    requires l'.live == l.live - {r} + {to} && l'.owners == l.owners + {to.owner} && l'.cells == l.cells
    requires to.owner !in l.owners && forall q | q in l.live :: q.owner in l.owners
    ensures Owning(vars, env, l', held + {to}) && to !in env.Values
  {
    assert to !in l.live && r in l.live;
  }

  /** The variables a block has declared have nothing any more. */
  lemma {:induction false} Forgets(
    b: seq<Expr>, scope: set<string>, all: set<string>, t: Ties, vars: Vars, s: Run, held: set<Ref>)
    requires Inv(scope, all, t, vars, s, held) && BoundAll(b) <= scope && BoundAll(b) !! t.pending
    requires forall x | x in BoundAll(b) :: vars[x] == Consumed
    ensures Inv(scope, all, t, vars, Forget(b, s), held)
    decreases |b|
  {
    if b != [] {
      if b[0].VarDef? && b[0].linear {
        var x := b[0].name;
        assert x in Bound(b[0]) && x !in Waiting(s.env, held);
        Notes(scope, all, t, vars, s, Hide(s.env[x]), held);
        Forgets(b[1..], scope, all, t, vars, Emit(s, Hide(s.env[x])), held);
      } else {
        Forgets(b[1..], scope, all, t, vars, s, held);
      }
    }
  }

  /** A block is left: what it declared has been consumed. */
  lemma Leaves(
    scope: set<string>, inner: set<string>, all: set<string>, t: Ties, t': Ties,
    vars: Vars, vars': Vars, s: Run, s': Run, held: set<Ref>)
    requires Inv(scope, all, t, vars, s, held) && Inv(inner, all, t', vars', s', held) && scope <= inner
    requires forall y | y in scope :: s'.env[y] == s.env[y]
    requires forall y | y in inner && y !in scope :: vars'[y] == Consumed
    ensures Inv(scope, all, t, vars', s'.(env := s.env, views := s.views), held)
  {
    forall r | r in Audit(s'.trace).live && r !in held ensures r in s.env.Values {
      var y :| y in s'.env && s'.env[y] == r;
      assert vars'[y] == Unconsumed && y in s.env && s.env[y] == r;
    }
  }
}
