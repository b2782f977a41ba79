/** What the checker reports by itself: every use of an owner that has been consumed, and nothing else because of
    it. */
module LinearUses {
  import opened LinearSyntax
  import opened LinearChecker
  import opened LinearFlow

  // ---------- Offences ----------

  /** Somewhere in what the checker walks, one of the given variables is looked through or taken, an owner's address
      is taken, a pointer that owns nothing is stored where it outlives its owner or returned, or a statement's owned
      value goes to nobody. */
  predicate Offends(e: Expr, gone: set<string>)
    decreases e, 1
  {
    match e
    case Leaf | Var(_) | ArrayVar(_) | Opaque(_) | Alloc(_) => false
    case Literal(elements) => OffendsAny(elements, gone)
    case Call(args, takes, _) => OffendsArgs(args, takes, gone)
    case Free(operand) => Needs(operand, gone)
    case Deref(operand, _) => Needs(operand, gone)
    case Index(base, index) => Needs(base, gone) || Offends(index, gone)
    case AddrOf(operand, linear) => linear || Offends(operand, gone)
    case Binary(lhs, rhs) => Offends(lhs, gone) || Offends(rhs, gone)
    case Assign(lhs, rhs, escapes) => escapes || Offends(lhs, gone) || Needs(rhs, gone)
    case VarDef(_, _, init) => Needs(init, gone)
    case Return(result, escapes) => (escapes && !result.Var?) || Needs(result, gone)
    case If(cond, thn, els) => Offends(cond, gone) || OffendsAll(thn, gone) || (els.Else? && OffendsAll(els.body, gone))
    case While(cond, body) => Offends(cond, gone) || OffendsAll(body, gone)
    case For(_, start, stop, body) => Offends(start, gone) || Offends(stop, gone) || OffendsAll(body, gone)
    case Case(scrutinee, arms) => Offends(scrutinee, gone) || OffendsArms(arms, gone)
  }

  /** The operand is one of the variables, or offends. */
  predicate Needs(e: Expr, gone: set<string>)
    decreases e, 2
  {
    (e.Var? && e.name in gone) || Offends(e, gone)
  }

  predicate OffendsAny(es: seq<Expr>, gone: set<string>)
    decreases es, 0
  {
    es != [] && (Needs(es[0], gone) || OffendsAny(es[1..], gone))
  }

  predicate OffendsArgs(args: seq<Expr>, takes: seq<bool>, gone: set<string>)
    decreases args, 0
  {
    args != [] && takes != [] &&
    ((if takes[0] then Needs(args[0], gone) else Offends(args[0], gone)) || OffendsArgs(args[1..], takes[1..], gone))
  }

  predicate OffendsAll(b: seq<Expr>, gone: set<string>)
    decreases b, 0
  {
    b != [] && (Discards(b[0]) || Offends(b[0], gone) || OffendsAll(b[1..], gone))
  }

  predicate OffendsArms(arms: seq<Arm>, gone: set<string>)
    decreases arms, 0
  {
    arms != [] && (OffendsAll(arms[0].body, gone) || OffendsArms(arms[1..], gone))
  }

  // ---------- Every offence is reported ----------

  /** The variables are owners that have been consumed. */
  predicate Gone(c: Chk, gone: set<string>)
  {
    forall x | x in gone :: x in c.vars && c.vars[x] == Consumed
  }

  lemma {:induction false} Reported(c: Chk, e: Expr, gone: set<string>)
    requires Gone(c, gone) && gone !! Decls(e) && Offends(e, gone)
    ensures CheckExpr(c, e).failed
    decreases e, 2
  {
    match e
    case Literal(elements) => ElementsReported(c, elements, gone);
    case Call(args, takes, _) => ArgsReported(c, args, takes, gone);
    case Free(operand) => NeedReported(c, operand, gone);
    case Deref(operand, _) => NeedReported(c, operand, gone);
    case Index(base, index) =>
      if !(base.Var? && base.name in gone) {
        PairReported(c, e, base, index, gone);
      }
    case AddrOf(operand, linear) =>
      if !linear {
        Reported(c, operand, gone);
      }
    case Binary(lhs, rhs) => PairReported(c, e, lhs, rhs, gone);
    case Assign(lhs, rhs, escapes) =>
      ExprGrows(c, lhs);
      OwnedGrows(CheckExpr(c, lhs), rhs);
      if escapes {
      } else if Offends(lhs, gone) {
        Reported(c, lhs, gone);
      } else {
        NeedReported(CheckExpr(c, lhs), rhs, gone);
      }
    case VarDef(_, _, init) => NeedReported(c, init, gone);
    case Return(result, escapes) =>
      if !escapes || result.Var? {
        NeedReported(c, result, gone);
      }
    case If(_, _, _) | Case(_, _) => BranchReported(c, e, gone);
    case While(_, _) | For(_, _, _, _) => LoopReported(c, e, gone);
  }

  lemma {:induction false} NeedReported(c: Chk, e: Expr, gone: set<string>)
    requires Gone(c, gone) && gone !! Decls(e) && Needs(e, gone)
    ensures CheckOwned(c, e).failed && (CheckExpr(c, e).failed || (e.Var? && e.name in gone))
    decreases e, 3
  {
    if !e.Var? {
      Reported(c, e, gone);
    }
  }

  lemma {:induction false} PairReported(c: Chk, whole: Expr, a: Expr, b: Expr, gone: set<string>)
    requires a < whole && b < whole && Gone(c, gone) && gone !! Decls(a) && gone !! Decls(b)
    requires Offends(a, gone) || Offends(b, gone)
    ensures CheckExpr(CheckExpr(c, a), b).failed
    decreases whole, 0
  {
    ExprGrows(c, a);
    ExprGrows(CheckExpr(c, a), b);
    if Offends(a, gone) {
      Reported(c, a, gone);
    } else {
      Reported(CheckExpr(c, a), b, gone);
    }
  }

  lemma {:induction false} ElementsReported(c: Chk, es: seq<Expr>, gone: set<string>)
    requires Gone(c, gone) && gone !! DeclsAll(es) && OffendsAny(es, gone)
    ensures CheckElements(c, es).failed
    decreases es, 0
  {
    var c1 := CheckOwned(c, es[0]);
    OwnedGrows(c, es[0]);
    ElementsGrow(c1, es[1..]);
    if Needs(es[0], gone) {
      NeedReported(c, es[0], gone);
    } else {
      ElementsReported(c1, es[1..], gone);
    }
  }

  lemma {:induction false} ArgsReported(c: Chk, args: seq<Expr>, takes: seq<bool>, gone: set<string>)
    requires Gone(c, gone) && gone !! DeclsAll(args) && OffendsArgs(args, takes, gone)
    ensures CheckArgs(c, args, takes).failed
    decreases args, 0
  {
    var c1 := if takes[0] then CheckOwned(c, args[0]) else CheckExpr(c, args[0]);
    OwnedGrows(c, args[0]);
    ExprGrows(c, args[0]);
    ArgsGrow(c1, args[1..], takes[1..]);
    if takes[0] && Needs(args[0], gone) {
      NeedReported(c, args[0], gone);
    } else if !takes[0] && Offends(args[0], gone) {
      Reported(c, args[0], gone);
    } else {
      ArgsReported(c1, args[1..], takes[1..], gone);
    }
  }

  lemma {:induction false} BlockReported(c: Chk, b: seq<Expr>, gone: set<string>)
    requires Gone(c, gone) && gone !! DeclsAll(b) && OffendsAll(b, gone)
    ensures CheckBlock(c, b).failed
    decreases b, 0
  {
    ExprGrows(c, b[0]);
    BlockGrows(CheckStmt(c, b[0]), b[1..]);
    if Discards(b[0]) {
    } else if Offends(b[0], gone) {
      Reported(c, b[0], gone);
    } else {
      BlockReported(CheckStmt(c, b[0]), b[1..], gone);
    }
  }

  lemma {:induction false} LoopReported(c: Chk, e: Expr, gone: set<string>)
    requires (e.While? || e.For?) && Gone(c, gone) && gone !! Decls(e) && Offends(e, gone)
    ensures CheckExpr(c, e).failed
    decreases e, 1
  {
    HeadGrows(c, e);
    BlockGrows(LoopHead(c, e), e.body);
    if OffendsAll(e.body, gone) {
      BlockReported(LoopHead(c, e), e.body, gone);
    } else if e.While? {
      Reported(c, e.cond, gone);
    } else {
      PairReported(c, e, e.start, e.stop, gone);
    }
  }

  lemma {:induction false} BranchReported(c: Chk, e: Expr, gone: set<string>)
    requires (e.If? || e.Case?) && Gone(c, gone) && gone !! Decls(e) && Offends(e, gone)
    ensures CheckExpr(c, e).failed
    decreases e, 1
  {
    if !CheckExpr(c, e).failed {
      var c0 := BranchHead(c, e);
      if e.If? {
        var c1 := CheckBlock(c0, e.thn);
        IfParts(c, e);
        ExprGrows(c, e.cond);
        BlockGrows(c0, e.thn);
        if Offends(e.cond, gone) {
          Reported(c, e.cond, gone);
        } else if OffendsAll(e.thn, gone) {
          BlockReported(c0, e.thn, gone);
        } else {
          BlockReported(Second(c0, c1), e.els.body, gone);
        }
      } else {
        ExprGrows(c, e.scrutinee);
        ArmsGrow(c0, c0.vars, e.arms);
        if Offends(e.scrutinee, gone) {
          Reported(c, e.scrutinee, gone);
        } else {
          ArmReported(c0, c0.vars, e.arms, gone);
        }
      }
    }
  }

  lemma {:induction false} ArmReported(c: Chk, before: Vars, arms: seq<Arm>, gone: set<string>)
    requires forall x | x in gone :: x in c.vars && x in before && before[x] == Consumed
    requires gone !! DeclsArms(arms) && OffendsArms(arms, gone)
    ensures CheckArms(c, before, arms).0.failed
    decreases arms, 0
  {
    var c0 := c.(vars := Overwrite(c.vars, before));
    var c1 := CheckBlock(c0, arms[0].body);
    BlockGrows(c0, arms[0].body);
    ArmsGrow(c1, before, arms[1..]);
    if OffendsAll(arms[0].body, gone) {
      BlockReported(c0, arms[0].body, gone);
    } else {
      ArmReported(c1, before, arms[1..], gone);
    }
  }

  // ---------- What is not used does not matter ----------

  function Put(c: Chk, x: string, v: VarState): Chk
  {
    c.(vars := c.vars[x := v])
  }

  /** The owner is left as it is, and could be in any state. */
  predicate Same(c: Chk, x: string, v: VarState, after: Chk, after': Chk)
  {
    x in c.vars && x in after.vars && after.vars[x] == c.vars[x] && after' == Put(after, x, v)
  }

  lemma {:induction false} UnusedSame(c: Chk, e: Expr, x: string, v: VarState)
    requires x in c.vars && x !in Decls(e) && !Offends(e, {x})
    ensures Same(c, x, v, CheckExpr(c, e), CheckExpr(Put(c, x, v), e))
    decreases e, 2
  {
    match e
    case Leaf | Var(_) | ArrayVar(_) | Opaque(_) | Alloc(_) =>
    case Literal(elements) => ElementsSame(c, elements, x, v);
    case Call(args, takes, _) => ArgsSame(c, args, takes, x, v);
    case Free(operand) => NeedSame(c, operand, x, v);
    case Deref(operand, _) => UnusedSame(c, operand, x, v);
    case Index(base, index) => PairSame(c, e, base, index, x, v);
    case AddrOf(operand, _) => UnusedSame(c, operand, x, v);
    case Binary(lhs, rhs) => PairSame(c, e, lhs, rhs, x, v);
    case Assign(lhs, rhs, _) =>
      UnusedSame(c, lhs, x, v);
      NeedSame(CheckExpr(c, lhs), rhs, x, v);
    case VarDef(_, _, init) => NeedSame(c, init, x, v);
    case Return(result, _) => NeedSame(c, result, x, v);
    case If(_, _, _) => IfSame(c, e, x, v);
    case While(_, _) | For(_, _, _, _) => LoopSame(c, e, x, v);
    case Case(_, _) => CaseSame(c, e, x, v);
  }

  lemma {:induction false} NeedSame(c: Chk, e: Expr, x: string, v: VarState)
    requires x in c.vars && x !in Decls(e) && !Needs(e, {x})
    ensures Same(c, x, v, CheckOwned(c, e), CheckOwned(Put(c, x, v), e))
    decreases e, 3
  {
    UnusedSame(c, e, x, v);
  }

  lemma {:induction false} PairSame(c: Chk, whole: Expr, a: Expr, b: Expr, x: string, v: VarState)
    requires a < whole && b < whole && x in c.vars && x !in Decls(a) && x !in Decls(b)
    requires !Offends(a, {x}) && !Offends(b, {x})
    ensures Same(c, x, v, CheckExpr(CheckExpr(c, a), b), CheckExpr(CheckExpr(Put(c, x, v), a), b))
    decreases whole, 0
  {
    UnusedSame(c, a, x, v);
    UnusedSame(CheckExpr(c, a), b, x, v);
  }

  lemma {:induction false} ElementsSame(c: Chk, es: seq<Expr>, x: string, v: VarState)
    requires x in c.vars && x !in DeclsAll(es) && !OffendsAny(es, {x})
    ensures Same(c, x, v, CheckElements(c, es), CheckElements(Put(c, x, v), es))
    decreases es, 0
  {
    if es != [] {
      NeedSame(c, es[0], x, v);
      ElementsSame(CheckOwned(c, es[0]), es[1..], x, v);
    }
  }

  lemma {:induction false} ArgsSame(c: Chk, args: seq<Expr>, takes: seq<bool>, x: string, v: VarState)
    requires x in c.vars && x !in DeclsAll(args) && !OffendsArgs(args, takes, {x})
    ensures Same(c, x, v, CheckArgs(c, args, takes), CheckArgs(Put(c, x, v), args, takes))
    decreases args, 0
  {
    if args != [] && takes != [] {
      if takes[0] {
        NeedSame(c, args[0], x, v);
      } else {
        UnusedSame(c, args[0], x, v);
      }
      var c1 := if takes[0] then CheckOwned(c, args[0]) else CheckExpr(c, args[0]);
      ArgsSame(c1, args[1..], takes[1..], x, v);
    }
  }

  lemma {:induction false} BlockSame(c: Chk, b: seq<Expr>, x: string, v: VarState)
    requires x in c.vars && x !in DeclsAll(b) && !OffendsAll(b, {x})
    ensures Same(c, x, v, CheckBlock(c, b), CheckBlock(Put(c, x, v), b))
    decreases b, 0
  {
    if b != [] {
      UnusedSame(c, b[0], x, v);
      BlockSame(CheckStmt(c, b[0]), b[1..], x, v);
    }
  }

  lemma {:induction false} LoopSame(c: Chk, e: Expr, x: string, v: VarState)
    requires (e.While? || e.For?) && x in c.vars && x !in Decls(e) && !Offends(e, {x})
    ensures Same(c, x, v, CheckExpr(c, e), CheckExpr(Put(c, x, v), e))
    decreases e, 1
  {
    if e.While? {
      UnusedSame(c, e.cond, x, v);
    } else {
      PairSame(c, e, e.start, e.stop, x, v);
    }
    BlockSame(LoopHead(c, e), e.body, x, v);
    LeaveSame(CheckBlock(LoopHead(c, e), e.body), c.vars, x, v);
  }

  lemma LeaveSame(done: Chk, before: Vars, x: string, v: VarState)
    requires x in done.vars && x in before && done.vars[x] == before[x]
    ensures LeaveLoop(Put(done, x, v), before[x := v]) == Put(LeaveLoop(done, before), x, v)
    ensures LeaveLoop(done, before).vars[x] == before[x]
  {
    var left, left' := LeaveLoop(done, before), LeaveLoop(Put(done, x, v), before[x := v]);
    assert left'.vars == left.vars[x := v];
    if left.failed && !done.failed {
      var y :| y in before && Pending(before, y) && y in done.vars && done.vars[y] == Consumed;
      assert y in before[x := v] && Pending(before[x := v], y) && done.vars[x := v][y] == Consumed;
    }
    if left'.failed && !done.failed {
      var y :| && y in before[x := v] && Pending(before[x := v], y)
               && y in done.vars[x := v] && done.vars[x := v][y] == Consumed;
      assert y in before && Pending(before, y) && done.vars[y] == Consumed;
    }
  }

  // ---------- Merging ----------

  function PutAll(branches: seq<Vars>, x: string, v: VarState): seq<Vars>
  {
    seq(|branches|, i requires 0 <= i < |branches| => branches[i][x := v])
  }

  lemma SameBranches(branches: seq<Vars>, x: string, v: VarState, y: string, state: VarState)
    requires y != x
    ensures SomeBranch(PutAll(branches, x, v), y, state) <==> SomeBranch(branches, y, state)
  {
    var branches' := PutAll(branches, x, v);
    if SomeBranch(branches, y, state) {
      var i :| 0 <= i < |branches| && y in branches[i] && branches[i][y] == state;
      assert branches'[i] in branches';
    }
    if SomeBranch(branches', y, state) {
      var i :| 0 <= i < |branches'| && y in branches'[i] && branches'[i][y] == state;
      assert branches[i] in branches;
    }
  }

  /** For other names the branches are as before. */
  lemma OthersSame(before: Vars, branches: seq<Vars>, x: string, v: VarState, y: string)
    requires y != x
    ensures Mismatch(PutAll(branches, x, v), y) <==> Mismatch(branches, y)
    ensures SomeBranch(PutAll(branches, x, v), y, Consumed) <==> SomeBranch(branches, y, Consumed)
    ensures Pending(before[x := v], y) <==> Pending(before, y)
  {
    SameBranches(branches, x, v, y, Consumed);
    SameBranches(branches, x, v, y, Unconsumed);
  }

  /** For the name itself they agree. */
  lemma NoMismatch(branches: seq<Vars>, x: string, v: VarState)
    requires forall b | b in branches :: x in b ==> b[x] == v
    ensures !Mismatch(branches, x)
  {
  }

  lemma MergeSame(c: Chk, before: Vars, branches: seq<Vars>, x: string, v: VarState)
    requires x in c.vars && x in before && forall b | b in branches :: x in b && b[x] == before[x]
    ensures Merge(Put(c, x, v), before[x := v], PutAll(branches, x, v)) == Put(Merge(c, before, branches), x, v)
    ensures Merge(c, before, branches).vars[x] == before[x]
  {
    MergedVars(c, before, branches, x, v);
    MergedErrors(c, before, branches, x, v);
  }

  lemma MergedVars(c: Chk, before: Vars, branches: seq<Vars>, x: string, v: VarState)
    requires x in c.vars && x in before && forall b | b in branches :: x in b && b[x] == before[x]
    ensures var m := Merge(c, before, branches).vars;
            m[x] == before[x] && Merge(Put(c, x, v), before[x := v], PutAll(branches, x, v)).vars == m[x := v]
  {
    var m, m' := Merge(c, before, branches).vars, Merge(Put(c, x, v), before[x := v], PutAll(branches, x, v)).vars;
    assert forall b | b in PutAll(branches, x, v) :: b[x] == v;
    forall y | y in m && y != x ensures m'[y] == m[y] {
      OthersSame(before, branches, x, v, y);
    }
    assert m' == m[x := v];
  }

  lemma MergedErrors(c: Chk, before: Vars, branches: seq<Vars>, x: string, v: VarState)
    requires x in c.vars && x in before && forall b | b in branches :: x in b && b[x] == before[x]
    ensures Merge(Put(c, x, v), before[x := v], PutAll(branches, x, v)).failed == Merge(c, before, branches).failed
  {
    var before', branches' := before[x := v], PutAll(branches, x, v);
    NoMismatch(branches, x, before[x]);
    NoMismatch(branches', x, v);
    forall y | y in before'
      ensures Pending(before', y) && Mismatch(branches', y) <==> Pending(before, y) && Mismatch(branches, y)
    {
      if y != x {
        OthersSame(before, branches, x, v, y);
      }
    }
    assert before'.Keys == before.Keys;
  }

  lemma {:induction false} IfSame(c: Chk, e: Expr, x: string, v: VarState)
    requires e.If? && x in c.vars && x !in Decls(e) && !Offends(e, {x})
    ensures Same(c, x, v, CheckExpr(c, e), CheckExpr(Put(c, x, v), e))
    decreases e, 1
  {
    var c0 := CheckExpr(c, e.cond);
    var c1 := CheckBlock(c0, e.thn);
    UnusedSame(c, e.cond, x, v);
    BlockSame(c0, e.thn, x, v);
    var c2 := Second(c0, c1);
    SecondSame(c0, c1, x, v);
    if e.els.Else? {
      BlockSame(c2, e.els.body, x, v);
      var c3 := CheckBlock(c2, e.els.body);
      MergeSame(c3, c0.vars, [c1.vars, c3.vars], x, v);
      assert PutAll([c1.vars, c3.vars], x, v) == [c1.vars[x := v], c3.vars[x := v]];
    } else {
      MergeSame(c2, c0.vars, [c1.vars, c0.vars], x, v);
      assert PutAll([c1.vars, c0.vars], x, v) == [c1.vars[x := v], c0.vars[x := v]];
    }
  }

  lemma SecondSame(c0: Chk, c1: Chk, x: string, v: VarState)
    requires x in c0.vars && x in c1.vars
    ensures Second(Put(c0, x, v), Put(c1, x, v)) == Put(Second(c0, c1), x, v) && Second(c0, c1).vars[x] == c0.vars[x]
  {
    assert Overwrite(c1.vars[x := v], c0.vars[x := v]) == Overwrite(c1.vars, c0.vars)[x := v];
  }

  lemma {:induction false} CaseSame(c: Chk, e: Expr, x: string, v: VarState)
    requires e.Case? && x in c.vars && x !in Decls(e) && !Offends(e, {x})
    ensures Same(c, x, v, CheckExpr(c, e), CheckExpr(Put(c, x, v), e))
    decreases e, 1
  {
    var c0 := CheckExpr(c, e.scrutinee);
    var (c1, ends) := CheckArms(c0, c0.vars, e.arms);
    UnusedSame(c, e.scrutinee, x, v);
    ArmsSame(c0, c0.vars, e.arms, x, v);
    MergeSame(c1, c0.vars, ends, x, v);
  }

  lemma {:induction false} ArmsSame(c: Chk, before: Vars, arms: seq<Arm>, x: string, v: VarState)
    requires x in c.vars && x in before && x !in DeclsArms(arms) && !OffendsArms(arms, {x})
    ensures var (c1, ends) := CheckArms(c, before, arms);
            && x in c1.vars && CheckArms(Put(c, x, v), before[x := v], arms) == (Put(c1, x, v), PutAll(ends, x, v))
            && forall b | b in ends :: x in b && b[x] == before[x]
    decreases arms, 0
  {
    if arms != [] {
      var c0 := c.(vars := Overwrite(c.vars, before));
      var c1 := CheckBlock(c0, arms[0].body);
      assert Overwrite(c.vars[x := v], before[x := v]) == Overwrite(c.vars, before)[x := v];
      BlockSame(c0, arms[0].body, x, v);
      ArmsSame(c1, before, arms[1..], x, v);
      var (c2, ends) := CheckArms(c1, before, arms[1..]);
      assert PutAll([c1.vars] + ends, x, v) == [c1.vars[x := v]] + PutAll(ends, x, v);
    } else {
      assert PutAll([], x, v) == [];
    }
  }

  // ---------- Exactly the uses ----------

  /** What is accepted is refused once an owner has been consumed if and only if it looks through the owner or takes
      it. */
  lemma UseReportedIff(c: Chk, e: Expr, x: string)
    requires x in c.vars && x !in Decls(e) && !CheckExpr(c, e).failed
    ensures CheckExpr(Put(c, x, Consumed), e).failed <==> Offends(e, {x})
  {
    if Offends(e, {x}) {
      Reported(Put(c, x, Consumed), e, {x});
    } else {
      UnusedSame(c, e, x, Consumed);
    }
  }

  lemma BlockUseReportedIff(c: Chk, b: seq<Expr>, x: string)
    requires x in c.vars && x !in DeclsAll(b) && !CheckBlock(c, b).failed
    ensures CheckBlock(Put(c, x, Consumed), b).failed <==> OffendsAll(b, {x})
  {
    if OffendsAll(b, {x}) {
      BlockReported(Put(c, x, Consumed), b, {x});
    } else {
      BlockSame(c, b, x, Consumed);
    }
  }

  // ---------- Exactly what is taken is consumed ----------

  /** Somewhere in what the checker walks, outside loops, the variable stands where its owner is taken. */
  predicate Takes(e: Expr, x: string)
    decreases e, 1
  {
    match e
    case Leaf | Var(_) | ArrayVar(_) | Opaque(_) | Alloc(_) | While(_, _) | For(_, _, _, _) => false
    case Literal(elements) => TakesAny(elements, x)
    case Call(args, takes, _) => TakesArgs(args, takes, x)
    case Free(operand) => Moves(operand, x)
    case Deref(operand, _) => Takes(operand, x)
    case Index(base, index) => Takes(base, x) || Takes(index, x)
    case AddrOf(operand, _) => Takes(operand, x)
    case Binary(lhs, rhs) => Takes(lhs, x) || Takes(rhs, x)
    case Assign(lhs, rhs, _) => Takes(lhs, x) || Moves(rhs, x)
    case VarDef(_, _, init) => Moves(init, x)
    case Return(result, _) => Moves(result, x)
    case If(cond, thn, els) => Takes(cond, x) || TakesAll(thn, x) || (els.Else? && TakesAll(els.body, x))
    case Case(scrutinee, arms) => Takes(scrutinee, x) || TakesArms(arms, x)
  }

  predicate Moves(e: Expr, x: string)
    decreases e, 2
  {
    (e.Var? && e.name == x) || Takes(e, x)
  }

  predicate TakesAny(es: seq<Expr>, x: string)
    decreases es, 0
  {
    es != [] && (Moves(es[0], x) || TakesAny(es[1..], x))
  }

  predicate TakesArgs(args: seq<Expr>, takes: seq<bool>, x: string)
    decreases args, 0
  {
    args != [] && takes != [] &&
    ((if takes[0] then Moves(args[0], x) else Takes(args[0], x)) || TakesArgs(args[1..], takes[1..], x))
  }

  predicate TakesAll(b: seq<Expr>, x: string)
    decreases b, 0
  {
    b != [] && (Takes(b[0], x) || TakesAll(b[1..], x))
  }

  predicate TakesArms(arms: seq<Arm>, x: string)
    decreases arms, 0
  {
    arms != [] && (TakesAll(arms[0].body, x) || TakesArms(arms[1..], x))
  }

  /** The owner has been consumed after if it had been before, or is taken. */
  predicate Settled(before: Vars, after: Vars, x: string, taken: bool)
  {
    x in before && x in after && (after[x] == Consumed <==> before[x] == Consumed || taken)
  }

  /** After what is accepted, an owner that existed before has been consumed if and only if it had been before or is
      taken.  A loop takes nothing for good: it could not be accepted. */
  lemma {:induction false} ConsumedIff(c: Chk, e: Expr, x: string)
    requires x in c.vars && x !in Decls(e) && !CheckExpr(c, e).failed
    ensures Settled(c.vars, CheckExpr(c, e).vars, x, Takes(e, x))
    decreases e, 2
  {
    match e
    case Leaf | Var(_) | ArrayVar(_) | Opaque(_) | Alloc(_) =>
    case Literal(elements) => ElementsConsumed(c, elements, x);
    case Call(args, takes, _) => ArgsConsumed(c, args, takes, x);
    case Free(operand) => MovedIff(c, operand, x);
    case Deref(operand, _) => ConsumedIff(c, operand, x);
    case Index(base, index) => PairConsumed(c, e, base, index, x);
    case AddrOf(operand, _) => ConsumedIff(c, operand, x);
    case Binary(lhs, rhs) => PairConsumed(c, e, lhs, rhs, x);
    case Assign(lhs, rhs, _) =>
      OwnedGrows(CheckExpr(c, lhs), rhs);
      ConsumedIff(c, lhs, x);
      MovedIff(CheckExpr(c, lhs), rhs, x);
    case VarDef(_, _, init) => MovedIff(c, init, x);
    case Return(result, _) => MovedIff(c, result, x);
    case If(_, _, _) => IfConsumed(c, e, x);
    case While(_, _) | For(_, _, _, _) =>
      ExprGrows(c, e);
      LoopInvariance(c, e);
    case Case(_, _) => CaseConsumed(c, e, x);
  }

  lemma {:induction false} MovedIff(c: Chk, e: Expr, x: string)
    requires x in c.vars && x !in Decls(e) && !CheckOwned(c, e).failed
    ensures Settled(c.vars, CheckOwned(c, e).vars, x, Moves(e, x))
    decreases e, 3
  {
    if !e.Var? {
      ConsumedIff(c, e, x);
    }
  }

  lemma {:induction false} PairConsumed(c: Chk, whole: Expr, a: Expr, b: Expr, x: string)
    requires a < whole && b < whole && x in c.vars && x !in Decls(a) && x !in Decls(b)
    requires !CheckExpr(CheckExpr(c, a), b).failed
    ensures Settled(c.vars, CheckExpr(CheckExpr(c, a), b).vars, x, Takes(a, x) || Takes(b, x))
    decreases whole, 0
  {
    ExprGrows(CheckExpr(c, a), b);
    ConsumedIff(c, a, x);
    ConsumedIff(CheckExpr(c, a), b, x);
  }

  lemma {:induction false} ElementsConsumed(c: Chk, es: seq<Expr>, x: string)
    requires x in c.vars && x !in DeclsAll(es) && !CheckElements(c, es).failed
    ensures Settled(c.vars, CheckElements(c, es).vars, x, TakesAny(es, x))
    decreases es, 0
  {
    if es != [] {
      ElementsGrow(CheckOwned(c, es[0]), es[1..]);
      MovedIff(c, es[0], x);
      ElementsConsumed(CheckOwned(c, es[0]), es[1..], x);
    }
  }

  lemma {:induction false} ArgsConsumed(c: Chk, args: seq<Expr>, takes: seq<bool>, x: string)
    requires x in c.vars && x !in DeclsAll(args) && !CheckArgs(c, args, takes).failed
    ensures Settled(c.vars, CheckArgs(c, args, takes).vars, x, TakesArgs(args, takes, x))
    decreases args, 0
  {
    if args != [] && takes != [] {
      var c1 := if takes[0] then CheckOwned(c, args[0]) else CheckExpr(c, args[0]);
      ArgsGrow(c1, args[1..], takes[1..]);
      if takes[0] {
        MovedIff(c, args[0], x);
      } else {
        ConsumedIff(c, args[0], x);
      }
      ArgsConsumed(c1, args[1..], takes[1..], x);
    }
  }

  lemma {:induction false} BlockConsumed(c: Chk, b: seq<Expr>, x: string)
    requires x in c.vars && x !in DeclsAll(b) && !CheckBlock(c, b).failed
    ensures Settled(c.vars, CheckBlock(c, b).vars, x, TakesAll(b, x))
    decreases b, 0
  {
    if b != [] {
      BlockGrows(CheckStmt(c, b[0]), b[1..]);
      ConsumedIff(c, b[0], x);
      BlockConsumed(CheckStmt(c, b[0]), b[1..], x);
    }
  }

  lemma {:induction false} IfConsumed(c: Chk, e: Expr, x: string)
    requires e.If? && x in c.vars && x !in Decls(e) && !CheckExpr(c, e).failed
    ensures Settled(c.vars, CheckExpr(c, e).vars, x, Takes(e, x))
    decreases e, 1
  {
    var c0 := CheckExpr(c, e.cond);
    var c1 := CheckBlock(c0, e.thn);
    IfParts(c, e);
    IfMerge(c, e, x);
    ConsumedIff(c, e.cond, x);
    BlockConsumed(c0, e.thn, x);
    assert BranchEnds(c, e)[0] in BranchEnds(c, e) && BranchEnds(c, e)[1] in BranchEnds(c, e);
    if e.els.Else? {
      BlockConsumed(Second(c0, c1), e.els.body, x);
    }
  }

  lemma {:induction false} CaseConsumed(c: Chk, e: Expr, x: string)
    requires e.Case? && x in c.vars && x !in Decls(e) && !CheckExpr(c, e).failed
    ensures Settled(c.vars, CheckExpr(c, e).vars, x, Takes(e, x))
    decreases e, 1
  {
    var c0 := CheckExpr(c, e.scrutinee);
    var (c1, ends) := CheckArms(c0, c0.vars, e.arms);
    ExprGrows(c, e.scrutinee);
    ArmsGrow(c0, c0.vars, e.arms);
    CaseMerge(c, e, x);
    ConsumedIff(c, e.scrutinee, x);
    ArmsConsumed(c0, c0.vars, e.arms, x);
    if e.arms != [] {
      assert ends[0] in ends;
    }
  }

  /** If the arms end alike, they end as any one of them taking the owner makes them end. */
  lemma {:induction false} ArmsConsumed(c: Chk, before: Vars, arms: seq<Arm>, x: string)
    requires x in c.vars && x in before && x !in DeclsArms(arms) && !CheckArms(c, before, arms).0.failed
    ensures forall end | end in CheckArms(c, before, arms).1 ::
              x in end && (end[x] == Consumed ==> before[x] == Consumed || TakesArms(arms, x))
    ensures TakesArms(arms, x) ==> exists end | end in CheckArms(c, before, arms).1 :: x in end && end[x] == Consumed
    ensures before[x] == Consumed ==> forall end | end in CheckArms(c, before, arms).1 :: x in end && end[x] == Consumed
    decreases arms, 0
  {
    if arms != [] {
      var c0 := c.(vars := Overwrite(c.vars, before));
      var c1 := CheckBlock(c0, arms[0].body);
      ArmsGrow(c1, before, arms[1..]);
      BlockGrows(c0, arms[0].body);
      BlockConsumed(c0, arms[0].body, x);
      ArmsConsumed(c1, before, arms[1..], x);
      var (c2, ends) := CheckArms(c1, before, arms[1..]);
      assert ([c1.vars] + ends)[0] in [c1.vars] + ends && forall end | end in ends :: end in [c1.vars] + ends;
    }
  }

  // ---------- Whole functions ----------

  /** An accepted function drops no owned value, takes no owner's address, and lets no pointer outlive its owner. */
  lemma AcceptedOffendsNot(f: Function)
    requires Accepts(f)
    ensures !OffendsAll(f.body, {})
  {
    if OffendsAll(f.body, {}) {
      BlockReported(Chk(Enter(f.params, map[]), false), f.body, {});
    }
  }
}
