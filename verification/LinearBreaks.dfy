/** How a rule of ownership is broken, and that it stays broken. */
module LinearBreaks {
  import opened Wrappers
  import opened LinearSyntax
  import opened LinearChecker
  import opened LinearRuns
  import opened LinearGaps
  import opened LinearCalm
  import opened LinearInvariant

  // ---------- Breaking a rule is never undone ----------

  lemma {:induction false} LegalPrefix(t: seq<Event>, t': seq<Event>)
    requires t <= t' && Audit(t').legal
    ensures Audit(t).legal && Audit(t).owners <= Audit(t').owners
    ensures forall q: Ref | q.owner in Audit(t).owners && q in Audit(t').live :: q in Audit(t).live
    decreases |t'|
  {
    if t != t' {
      var u := t'[..|t'| - 1];
      assert t <= u;
      LegalPrefix(t, u);
    }
  }

  /** A rule has been broken, or will be when the references in `due` are handed over, one after the other. */
  ghost predicate Broken(l: Ledger, due: multiset<Ref>)
  {
    !l.legal || exists q: Ref | q in due :: (q.owner in l.owners && q !in l.live) || due[q] > 1
  }

  lemma BrokenStays(t: seq<Event>, t': seq<Event>, due: multiset<Ref>, due': multiset<Ref>)
    requires Broken(Audit(t), due) && t <= t' && due <= due'
    ensures Broken(Audit(t'), due')
  {
    if Audit(t').legal {
      LegalPrefix(t, t');
      var q: Ref :| q in due && ((q.owner in Audit(t).owners && q !in Audit(t).live) || due[q] > 1);
      assert q in due';
    }
  }

  /** One of the references due is handed over. */
  lemma BrokenGive(s: Run, e: Event, due: multiset<Ref>)
    requires Broken(Audit(s.trace), due + multiset{e.ref}) && Consumes(e)
    ensures Broken(Audit(Emit(s, e).trace), due)
  {
    AuditEmit(s, e);
    LiveOwned(s);
    var l, l' := Audit(s.trace), Audit(Emit(s, e).trace);
    if l'.legal {
      var all := due + multiset{e.ref};
      var q: Ref :| q in all && ((q.owner in l.owners && q !in l.live) || all[q] > 1);
      assert q in due;
    }
  }

  lemma LiveOwned(s: Run)
    ensures Audit(s.trace).legal ==> forall r | r in Audit(s.trace).live :: r.owner in Audit(s.trace).owners
  {
    if Audit(s.trace).legal {
      LiveRefs(s.trace);
    }
  }

  lemma {:induction false} BrokenPass(s: Run, refs: seq<Ref>, due: multiset<Ref>)
    requires Broken(Audit(s.trace), due + multiset(refs)) && !s.returned
    ensures Broken(Audit(Pass(s, refs).trace), due)
    decreases |refs|
  {
    if refs == [] {
      assert due + multiset(refs) == due;
    } else {
      assert refs == [refs[0]] + refs[1..];
      assert due + multiset(refs) == due + multiset(refs[1..]) + multiset{refs[0]};
      BrokenGive(s, Passed(refs[0]), due + multiset(refs[1..]));
      BrokenPass(Emit(s, Passed(refs[0])), refs[1..], due);
    }
  }

  // ---------- Memory that is gone ----------

  /** The root names the owner of the cell. */
  ghost predicate Reached(root: Root, k: nat, env: map<string, Ref>)
  {
    root.Lost? || (root.Of? && root.name in env && env[root.name].cell == k)
  }

  /** An array whose memory the text says is gone is one whose memory is gone. */
  ghost predicate Spent(t: Ties, vars: Vars, s: Run)
  {
    forall a | a in s.views && a in t.roots ::
      && s.views[a].cell < s.supply
      && (!Alive(vars, t, t.roots[a]) ==> !LiveCell(Audit(s.trace).live, s.views[a].cell))
  }

  ghost predicate Full(scope: set<string>, all: set<string>, t: Ties, vars: Vars, s: Run, held: set<Ref>)
  {
    Inv(scope, all, t, vars, s, held) && Spent(t, vars, s)
  }

  /** From one point of an expression to a later one. */
  ghost predicate Later(
    scope: set<string>, all: set<string>, t: Ties, vars: Vars, s: Run, held: set<Ref>,
    t': Ties, vars': Vars, s': Run, held': set<Ref>)
  {
    && Inv(scope, all, t, vars, s, held) && Inv(scope, all, t', vars', s', held')
    && s'.env == s.env && s'.views == s.views && s.supply <= s'.supply && t'.roots == t.roots
    && (forall q | q in held' :: q in Audit(s.trace).live || q.cell >= s.supply)
    && (forall y | y in scope && vars[y] == Consumed :: vars'[y] == Consumed)
  }

  /** Memory that is gone by the text's account is gone. */
  lemma RootDies(
    scope: set<string>, all: set<string>, t: Ties, vars: Vars, s: Run, held: set<Ref>,
    t': Ties, vars': Vars, s': Run, held': set<Ref>, root: Root, k: nat)
    requires Later(scope, all, t, vars, s, held, t', vars', s', held')
    requires Reached(root, k, s.env) && k < s.supply && !Alive(vars', t', root)
    requires Alive(vars, t, root) || !LiveCell(Audit(s.trace).live, k)
    ensures !LiveCell(Audit(s'.trace).live, k)
  {
    LiveRefs(s.trace);
  }

  lemma SpentKept(
    scope: set<string>, all: set<string>, t: Ties, vars: Vars, s: Run, held: set<Ref>,
    t': Ties, vars': Vars, s': Run, held': set<Ref>)
    requires Later(scope, all, t, vars, s, held, t', vars', s', held') && Spent(t, vars, s)
    ensures Full(scope, all, t', vars', s', held')
  {
    forall a | a in s.views && !Alive(vars', t', t.roots[a])
      ensures !LiveCell(Audit(s'.trace).live, s.views[a].cell)
    {
      RootDies(scope, all, t, vars, s, held, t', vars', s', held', t.roots[a], s.views[a].cell);
    }
  }

  /** A value evaluated at one point is looked through at a later one, when its memory is gone. */
  lemma TouchBreaks(
    scope: set<string>, all: set<string>, t: Ties, vars: Vars, s: Run, vars': Vars, s': Run, held: set<Ref>, e: Expr)
    requires Later(scope, all, t, vars, s, held, t, vars', s', held) && Spent(t, vars, s) && InReach(e, scope, all)
    requires e.Deref? && e.toArray ==> Alive(vars, t, RootOf(t.roots, e))
    requires !Alive(vars', t, RootOf(t.roots, e))
    ensures !Audit(Touch(s', ValueOf(e, s')).trace).legal
    ensures IsArray(e) ==> Load(s', ValueOf(e, s')) == Touch(s', ValueOf(e, s'))
  {
    var v, root := ValueOf(e, s'), RootOf(t.roots, e);
    ValueRoot(all, t.roots, s', e);
    TrackedValue(scope, all, t.roots, s', e);
    if v.Direct? {
      AuditEmit(s', Use(v.ref));
    } else {
      RootDies(scope, all, t, vars, s, held, t, vars', s', held, root, v.ref.cell);
      AuditEmit(s', Look(v.ref));
    }
  }

  /** Reading a value leaves everything as it is. */
  lemma LoadLater(scope: set<string>, all: set<string>, t: Ties, vars: Vars, s: Run, held: set<Ref>, e: Expr)
    requires Full(scope, all, t, vars, s, held) && Loads(vars, t, e)
    ensures Later(scope, all, t, vars, s, held, t, vars, Load(s, ValueOf(e, s)), held)
    ensures Full(scope, all, t, vars, Load(s, ValueOf(e, s)), held)
  {
    LoadsKeep(scope, all, t, vars, s, e, held);
    SpentKept(scope, all, t, vars, s, held, t, vars, Load(s, ValueOf(e, s)), held);
  }

  /** An illegal trace stays illegal. */
  lemma Stays(s: Run, s': Run)
    requires !Audit(s.trace).legal && s.trace <= s'.trace
    ensures !Audit(s'.trace).legal
  {
    if Audit(s'.trace).legal {
      LegalPrefix(s.trace, s'.trace);
    }
  }

  /** What is lost, or given up when it is not live, breaks a rule. */
  lemma DropBreaks(s: Run, e: Event)
    requires e.Drop? || (!e.New? && !e.Look? && !e.Hide? && e.ref !in Audit(s.trace).live)
    ensures !Audit(Emit(s, e).trace).legal
  {
    AuditEmit(s, e);
  }

  /** Two values are read after both have been evaluated, and the memory of one is gone. */
  lemma ReadsBreak(
    scope: set<string>, all: set<string>, t: Ties, vars: Vars, s: Run, vars': Vars, s': Run, held: set<Ref>,
    lhs: Expr, rhs: Expr)
    requires Later(scope, all, t, vars, s, held, t, vars', s', held) && Spent(t, vars, s) && Spent(t, vars', s')
    requires InReach(lhs, scope, all) && InReach(rhs, scope, all)
    requires lhs.Deref? && lhs.toArray ==> Alive(vars, t, RootOf(t.roots, lhs))
    requires rhs.Deref? && rhs.toArray ==> Alive(vars', t, RootOf(t.roots, rhs))
    requires !Loads(vars', t, lhs) || !Loads(vars', t, rhs)
    ensures !Audit(Load(Load(s', ValueOf(lhs, s')), ValueOf(rhs, s')).trace).legal
  {
    var s1 := Load(s', ValueOf(lhs, s'));
    if !Loads(vars', t, lhs) {
      TouchBreaks(scope, all, t, vars, s, vars', s', held, lhs);
      Stays(s1, Load(s1, ValueOf(rhs, s')));
    } else {
      LoadLater(scope, all, t, vars', s', held, lhs);
      ValueSame(rhs, s', s1);
      TouchBreaks(scope, all, t, vars', s', vars', s1, held, rhs);
    }
  }
}
