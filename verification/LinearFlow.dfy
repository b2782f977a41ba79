/** How ownership states flow through branches and loops. */
module LinearFlow {
  import opened LinearSyntax
  import opened LinearChecker

  // ---------- Branches and loops ----------

  /** The state in which the body of a loop starts. */
  function LoopHead(c: Chk, e: Expr): Chk
    requires e.While? || e.For?
  {
    if e.While? then CheckExpr(c, e.cond) else CheckExpr(CheckExpr(c, e.start), e.stop)
  }

  lemma HeadGrows(c: Chk, e: Expr)
    requires e.While? || e.For?
    ensures Grows(c, LoopHead(c, e), Decls(e))
  {
    if e.While? {
      ExprGrows(c, e.cond);
    } else {
      ExprGrows(c, e.start);
      ExprGrows(CheckExpr(c, e.start), e.stop);
    }
  }

  /** If a loop is checked without error, its body ends with every outer owner in the state it started
      in, so checking the body once covers any number of iterations. */
  lemma LoopInvariance(c: Chk, e: Expr)
    requires (e.While? || e.For?) && !CheckExpr(c, e).failed
    ensures var entered := LoopHead(c, e);
            var done := CheckBlock(entered, e.body);
            && !entered.failed && !done.failed
            && forall x | x in c.vars && x !in Decls(e) ::
                 && x in entered.vars && x in done.vars
                 && entered.vars[x] == done.vars[x] == CheckExpr(c, e).vars[x] == c.vars[x]
  {
    HeadGrows(c, e);
    BlockGrows(LoopHead(c, e), e.body);
  }

  /** The states in which the branches of a conditional end. */
  function BranchEnds(c: Chk, e: Expr): seq<Vars>
    requires e.If? || e.Case?
  {
    if e.If? then
      var c0 := CheckExpr(c, e.cond);
      var c1 := CheckBlock(c0, e.thn);
      if e.els.NoElse? then [c1.vars, c0.vars]
      else [c1.vars, CheckBlock(c1.(vars := Overwrite(c1.vars, c0.vars)), e.els.body).vars]
    else
      var c0 := CheckExpr(c, e.scrutinee);
      CheckArms(c0, c0.vars, e.arms).1
  }

  /** An error-free merge settles on the state every branch ended in. */
  lemma MergeExact(c: Chk, before: Vars, branches: seq<Vars>, x: string)
    requires x in before && x in c.vars && !Merge(c, before, branches).failed
    requires forall b | b in branches :: x in b && (before[x] == Consumed ==> b[x] == Consumed)
    ensures forall b | b in branches :: b[x] == Merge(c, before, branches).vars[x]
  {
    if before[x] == Unconsumed {
      assert !Mismatch(branches, x);
    }
  }

  /** If a conditional is checked without error, every branch ends with each outer owner in the merged state. */
  lemma BranchMerge(c: Chk, e: Expr)
    requires (e.If? || e.Case?) && !CheckExpr(c, e).failed
    ensures forall x, end | x in c.vars && x !in Decls(e) && end in BranchEnds(c, e) ::
              x in end && x in CheckExpr(c, e).vars && end[x] == CheckExpr(c, e).vars[x]
  {
    ExprGrows(c, e);
    forall x | x in c.vars && x !in Decls(e)
      ensures forall end | end in BranchEnds(c, e) :: x in end && end[x] == CheckExpr(c, e).vars[x]
    {
      if e.If? {
        IfMerge(c, e, x);
      } else {
        CaseMerge(c, e, x);
      }
    }
  }

  lemma IfMerge(c: Chk, e: Expr, x: string)
    requires e.If? && !CheckExpr(c, e).failed && x in c.vars && x !in Decls(e)
    ensures x in CheckExpr(c, e).vars
    ensures forall end | end in BranchEnds(c, e) :: x in end && end[x] == CheckExpr(c, e).vars[x]
  {
    ExprGrows(c, e.cond);
    var c0 := CheckExpr(c, e.cond);
    BlockGrows(c0, e.thn);
    var c1 := CheckBlock(c0, e.thn);
    var c2 := c1.(vars := Overwrite(c1.vars, c0.vars));
    if e.els.Else? {
      BlockGrows(c2, e.els.body);
      var c3 := CheckBlock(c2, e.els.body);
      MergeExact(c3, c0.vars, [c1.vars, c3.vars], x);
    } else {
      MergeExact(c2, c0.vars, [c1.vars, c0.vars], x);
    }
  }

  lemma CaseMerge(c: Chk, e: Expr, x: string)
    requires e.Case? && !CheckExpr(c, e).failed && x in c.vars && x !in Decls(e)
    ensures x in CheckExpr(c, e).vars
    ensures forall end | end in BranchEnds(c, e) :: x in end && end[x] == CheckExpr(c, e).vars[x]
  {
    ExprGrows(c, e.scrutinee);
    var c0 := CheckExpr(c, e.scrutinee);
    ArmsGrow(c0, c0.vars, e.arms);
    ArmEndsGrow(c0, c0.vars, e.arms);
    var (c1, ends) := CheckArms(c0, c0.vars, e.arms);
    MergeExact(c1, c0.vars, ends, x);
  }

  lemma {:induction false} ArmEndsGrow(c: Chk, before: Vars, arms: seq<Arm>)
    requires before.Keys <= c.vars.Keys
    ensures forall x, end | x in before && x !in DeclsArms(arms) && end in CheckArms(c, before, arms).1 ::
              x in end && (before[x] == Consumed ==> end[x] == Consumed)
    decreases arms
  {
    if arms != [] {
      var c0 := c.(vars := Overwrite(c.vars, before));
      BlockGrows(c0, arms[0].body);
      ArmEndsGrow(CheckBlock(c0, arms[0].body), before, arms[1..]);
    }
  }

  // ---------- What a loop or a merge is refused for ----------

  /** A loop whose body is checked without error is refused exactly for an owner that had something before the loop
      and has nothing after a round of it: one that has been consumed before may stay so. */
  lemma LoopRefusedIff(c: Chk, e: Expr)
    requires (e.While? || e.For?) && !CheckBlock(LoopHead(c, e), e.body).failed
    ensures var done := CheckBlock(LoopHead(c, e), e.body);
            CheckExpr(c, e).failed <==>
            exists x | x in c.vars :: c.vars[x] == Unconsumed && x in done.vars && done.vars[x] == Consumed
  {
    var done := CheckBlock(LoopHead(c, e), e.body);
    assert CheckExpr(c, e) == LeaveLoop(done, c.vars);
    assert forall x | x in c.vars :: Pending(c.vars, x) <==> c.vars[x] == Unconsumed;
  }

  /** The state in which the branches of a conditional start. */
  function BranchHead(c: Chk, e: Expr): Chk
    requires e.If? || e.Case?
  {
    if e.If? then CheckExpr(c, e.cond) else CheckExpr(c, e.scrutinee)
  }

  /** The state behind the last branch, before the merge. */
  function Branched(c: Chk, e: Expr): Chk
    requires e.If? || e.Case?
  {
    var c0 := BranchHead(c, e);
    if e.Case? then CheckArms(c0, c0.vars, e.arms).0
    else
      var c2 := Second(c0, CheckBlock(c0, e.thn));
      if e.els.NoElse? then c2 else CheckBlock(c2, e.els.body)
  }

  /** The branches end differently for an owner. */
  predicate AtOdds(ends: seq<Vars>, x: string)
  {
    exists a, b | a in ends && b in ends :: x in a && x in b && a[x] != b[x]
  }

  lemma AtOddsIff(ends: seq<Vars>, x: string)
    ensures AtOdds(ends, x) <==> Mismatch(ends, x)
  {
    if AtOdds(ends, x) {
      var a, b :| a in ends && b in ends && x in a && x in b && a[x] != b[x];
      assert SomeBranch(ends, x, a[x]) && SomeBranch(ends, x, b[x]);
    }
  }

  /** A conditional whose branches are checked without error is refused exactly for an owner that had something before
      them and on which two of them disagree. */
  lemma BranchRefusedIff(c: Chk, e: Expr)
    requires (e.If? || e.Case?) && !Branched(c, e).failed
    ensures var before := BranchHead(c, e).vars;
            CheckExpr(c, e).failed <==>
            exists x | x in before :: before[x] == Unconsumed && AtOdds(BranchEnds(c, e), x)
  {
    var before, ends := BranchHead(c, e).vars, BranchEnds(c, e);
    assert CheckExpr(c, e) == Merge(Branched(c, e), before, ends);
    forall x ensures AtOdds(ends, x) <==> Mismatch(ends, x) {
      AtOddsIff(ends, x);
    }
    assert forall x | x in before :: Pending(before, x) <==> before[x] == Unconsumed;
  }

  // ---------- Owners that may not be touched ----------

  /** Two states that differ in an owner: consumed in the first, not in the second. */
  predicate Differ(c: Chk, d: Chk, x: string)
  {
    x in c.vars && c.vars[x] == Consumed && x in d.vars && d.vars[x] == Unconsumed
  }

  /** What is accepted from a state in which an owner has been consumed does not touch the owner, so from a state in
      which it has not it leaves it so. */
  lemma {:induction false} ExprUntouched(c: Chk, d: Chk, e: Expr, x: string)
    requires Differ(c, d, x) && x !in Decls(e) && !CheckExpr(c, e).failed && !CheckExpr(d, e).failed
    ensures Differ(CheckExpr(c, e), CheckExpr(d, e), x)
    decreases e, 2
  {
    match e
    case Leaf | Var(_) | ArrayVar(_) | Opaque(_) | Alloc(_) =>
    case Literal(elements) => ElementsUntouched(c, d, elements, x);
    case Call(args, takes, _) => ArgsUntouched(c, d, args, takes, x);
    case Free(operand) => OwnedUntouched(c, d, operand, x);
    case Deref(operand, _) => ExprUntouched(c, d, operand, x);
    case Index(base, index) => PairUntouched(c, d, e, base, index, x);
    case AddrOf(operand, _) => ExprUntouched(c, d, operand, x);
    case Binary(lhs, rhs) => PairUntouched(c, d, e, lhs, rhs, x);
    case Assign(lhs, rhs, _) =>
      OwnedGrows(CheckExpr(c, lhs), rhs);
      OwnedGrows(CheckExpr(d, lhs), rhs);
      ExprUntouched(c, d, lhs, x);
      OwnedUntouched(CheckExpr(c, lhs), CheckExpr(d, lhs), rhs, x);
    case VarDef(_, _, init) => OwnedUntouched(c, d, init, x);
    case Return(result, _) => OwnedUntouched(c, d, result, x);
    case If(_, _, _) => IfUntouched(c, d, e, x);
    case While(_, _) | For(_, _, _, _) => LoopUntouched(c, d, e, x);
    case Case(_, _) => CaseUntouched(c, d, e, x);
  }

  lemma {:induction false} PairUntouched(c: Chk, d: Chk, whole: Expr, a: Expr, b: Expr, x: string)
    requires a < whole && b < whole && Differ(c, d, x) && x !in Decls(a) && x !in Decls(b)
    requires !CheckExpr(CheckExpr(c, a), b).failed && !CheckExpr(CheckExpr(d, a), b).failed
    ensures Differ(CheckExpr(CheckExpr(c, a), b), CheckExpr(CheckExpr(d, a), b), x)
    decreases whole, 0
  {
    ExprGrows(CheckExpr(c, a), b);
    ExprGrows(CheckExpr(d, a), b);
    ExprUntouched(c, d, a, x);
    ExprUntouched(CheckExpr(c, a), CheckExpr(d, a), b, x);
  }

  lemma {:induction false} OwnedUntouched(c: Chk, d: Chk, e: Expr, x: string)
    requires Differ(c, d, x) && x !in Decls(e) && !CheckOwned(c, e).failed && !CheckOwned(d, e).failed
    ensures Differ(CheckOwned(c, e), CheckOwned(d, e), x)
    decreases e, 3
  {
    if !e.Var? {
      ExprUntouched(c, d, e, x);
    }
  }

  lemma {:induction false} ElementsUntouched(c: Chk, d: Chk, es: seq<Expr>, x: string)
    requires Differ(c, d, x) && x !in DeclsAll(es) && !CheckElements(c, es).failed && !CheckElements(d, es).failed
    ensures Differ(CheckElements(c, es), CheckElements(d, es), x)
    decreases es, 0
  {
    if es != [] {
      ElementsGrow(CheckOwned(c, es[0]), es[1..]);
      ElementsGrow(CheckOwned(d, es[0]), es[1..]);
      OwnedUntouched(c, d, es[0], x);
      ElementsUntouched(CheckOwned(c, es[0]), CheckOwned(d, es[0]), es[1..], x);
    }
  }

  lemma {:induction false} ArgsUntouched(c: Chk, d: Chk, args: seq<Expr>, takes: seq<bool>, x: string)
    requires Differ(c, d, x) && x !in DeclsAll(args) && !CheckArgs(c, args, takes).failed && !CheckArgs(d, args, takes).failed
    ensures Differ(CheckArgs(c, args, takes), CheckArgs(d, args, takes), x)
    decreases args, 0
  {
    if args != [] && takes != [] {
      var c1 := if takes[0] then CheckOwned(c, args[0]) else CheckExpr(c, args[0]);
      var d1 := if takes[0] then CheckOwned(d, args[0]) else CheckExpr(d, args[0]);
      ArgsGrow(c1, args[1..], takes[1..]);
      ArgsGrow(d1, args[1..], takes[1..]);
      if takes[0] {
        OwnedUntouched(c, d, args[0], x);
      } else {
        ExprUntouched(c, d, args[0], x);
      }
      ArgsUntouched(c1, d1, args[1..], takes[1..], x);
    }
  }

  /** A loop restores the states anyway. */
  lemma LoopUntouched(c: Chk, d: Chk, e: Expr, x: string)
    requires (e.While? || e.For?) && Differ(c, d, x) && x !in Decls(e)
    ensures Differ(CheckExpr(c, e), CheckExpr(d, e), x)
  {
    HeadGrows(c, e);
    HeadGrows(d, e);
    BlockGrows(LoopHead(c, e), e.body);
    BlockGrows(LoopHead(d, e), e.body);
  }

  lemma {:induction false} BlockUntouched(c: Chk, d: Chk, b: seq<Expr>, x: string)
    requires Differ(c, d, x) && x !in DeclsAll(b) && !CheckBlock(c, b).failed && !CheckBlock(d, b).failed
    ensures Differ(CheckBlock(c, b), CheckBlock(d, b), x)
    decreases b, 0
  {
    if b != [] {
      BlockGrows(CheckStmt(c, b[0]), b[1..]);
      BlockGrows(CheckStmt(d, b[0]), b[1..]);
      ExprUntouched(c, d, b[0], x);
      BlockUntouched(CheckStmt(c, b[0]), CheckStmt(d, b[0]), b[1..], x);
    }
  }

  /** The state in which the second branch of an `if` starts. */
  function Second(c0: Chk, c1: Chk): Chk
  {
    c1.(vars := Overwrite(c1.vars, c0.vars))
  }

  lemma IfParts(c: Chk, e: Expr)
    requires e.If? && !CheckExpr(c, e).failed
    ensures var c0 := CheckExpr(c, e.cond);
            var c1 := CheckBlock(c0, e.thn);
            && !c0.failed && !c1.failed && c.vars.Keys <= c0.vars.Keys <= c1.vars.Keys
            && (e.els.Else? ==> !CheckBlock(Second(c0, c1), e.els.body).failed)
            && CheckExpr(c, e) == if e.els.NoElse? then Merge(Second(c0, c1), c0.vars, [c1.vars, c0.vars])
                                  else var c3 := CheckBlock(Second(c0, c1), e.els.body);
                                       Merge(c3, c0.vars, [c1.vars, c3.vars])
  {
    var c0 := CheckExpr(c, e.cond);
    var c1 := CheckBlock(c0, e.thn);
    ExprGrows(c, e.cond);
    BlockGrows(c0, e.thn);
    if e.els.Else? {
      BlockGrows(Second(c0, c1), e.els.body);
    }
  }

  lemma {:induction false} IfUntouched(c: Chk, d: Chk, e: Expr, x: string)
    requires e.If? && Differ(c, d, x) && x !in Decls(e) && !CheckExpr(c, e).failed && !CheckExpr(d, e).failed
    ensures Differ(CheckExpr(c, e), CheckExpr(d, e), x)
    decreases e, 1
  {
    var c0, d0 := CheckExpr(c, e.cond), CheckExpr(d, e.cond);
    var c1, d1 := CheckBlock(c0, e.thn), CheckBlock(d0, e.thn);
    IfParts(c, e);
    IfParts(d, e);
    ExprUntouched(c, d, e.cond, x);
    BlockUntouched(c0, d0, e.thn, x);
    if e.els.Else? {
      BlockUntouched(Second(c0, c1), Second(d0, d1), e.els.body, x);
      var c3, d3 := CheckBlock(Second(c0, c1), e.els.body), CheckBlock(Second(d0, d1), e.els.body);
      MergeUntouched(c3, c0.vars, [c1.vars, c3.vars], d3, d0.vars, [d1.vars, d3.vars], x);
    } else {
      MergeUntouched(Second(c0, c1), c0.vars, [c1.vars, c0.vars], Second(d0, d1), d0.vars, [d1.vars, d0.vars], x);
    }
  }

  lemma MergeUntouched(
    c: Chk, before: Vars, branches: seq<Vars>, d: Chk, before': Vars, branches': seq<Vars>, x: string)
    requires x in before && before[x] == Consumed && x in c.vars && x in before' && before'[x] == Unconsumed && x in d.vars
    requires forall b | b in branches' :: x in b ==> b[x] == Unconsumed
    ensures Differ(Merge(c, before, branches), Merge(d, before', branches'), x)
  {
  }

  lemma {:induction false} CaseUntouched(c: Chk, d: Chk, e: Expr, x: string)
    requires e.Case? && Differ(c, d, x) && x !in Decls(e) && !CheckExpr(c, e).failed && !CheckExpr(d, e).failed
    ensures Differ(CheckExpr(c, e), CheckExpr(d, e), x)
    decreases e, 1
  {
    var c0, d0 := CheckExpr(c, e.scrutinee), CheckExpr(d, e.scrutinee);
    ArmsGrow(c0, c0.vars, e.arms);
    ArmsGrow(d0, d0.vars, e.arms);
    ExprGrows(c, e.scrutinee);
    ExprGrows(d, e.scrutinee);
    ExprUntouched(c, d, e.scrutinee, x);
    ArmsUntouched(c0, c0.vars, d0, d0.vars, e.arms, x);
    var (c1, ends) := CheckArms(c0, c0.vars, e.arms);
    var (d1, ends') := CheckArms(d0, d0.vars, e.arms);
    MergeUntouched(c1, c0.vars, ends, d1, d0.vars, ends', x);
  }

  lemma {:induction false} ArmsUntouched(
    c: Chk, before: Vars, d: Chk, before': Vars, arms: seq<Arm>, x: string)
    requires x in before && before[x] == Consumed && x in c.vars && x in before' && before'[x] == Unconsumed && x in d.vars
    requires x !in DeclsArms(arms) && !CheckArms(c, before, arms).0.failed && !CheckArms(d, before', arms).0.failed
    ensures forall end | end in CheckArms(d, before', arms).1 :: x in end && end[x] == Unconsumed
    decreases arms, 0
  {
    if arms != [] {
      var c0, d0 := c.(vars := Overwrite(c.vars, before)), d.(vars := Overwrite(d.vars, before'));
      var c1, d1 := CheckBlock(c0, arms[0].body), CheckBlock(d0, arms[0].body);
      ArmsGrow(c1, before, arms[1..]);
      ArmsGrow(d1, before', arms[1..]);
      BlockUntouched(c0, d0, arms[0].body, x);
      ArmsUntouched(c1, before, d1, before', arms[1..], x);
    }
  }
}
