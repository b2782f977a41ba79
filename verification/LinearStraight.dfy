/** In straight-line code whatever the checker reports breaks a rule of ownership when it runs, if no operand looks
    through an owner passed earlier in the same call and no owner is taken unseen. */
module LinearStraight {
  import opened Wrappers
  import opened LinearSyntax
  import opened LinearChecker
  import opened LinearRuns
  import opened LinearGaps
  import opened LinearCalm
  import opened LinearInvariant
  import opened LinearSafety
  import opened LinearBreaks
  import opened LinearPaths
  import opened LinearLater
  import opened LinearOverlooked

  /** The check reports an error, or overlooks something. */
  predicate Bad(c: Chk, t: Ties, e: Expr)
  {
    CheckExpr(c, e).failed || !Clear(true, c, t, e)
  }

  /** Straight-line code about which the checker is no stricter than a run. */
  predicate Fair(t: Ties, e: Expr)
  {
    Straight(e) && Prompt(t.pending, e) && Overt(true, e)
  }

  lemma {:induction false} ScalarBreaks(
    c: Chk, e: Expr, scope: set<string>, all: set<string>, t: Ties, s: Run, held: set<Ref>)
    requires Scalar(e, scope, all) && Fair(t, e) && !c.failed && Bad(c, t, e) && Full(scope, all, t, c.vars, s, held)
    ensures Broken(Audit(Exec(e, s).trace), multiset(held))
    decreases e, 4
  {
    if !CheckExpr(c, e).failed {
      ScalarMissed(true, c, e, scope, all, t, s, held);
    } else {
      match e
      case Leaf | Var(_) | ArrayVar(_) | Opaque(_) | Alloc(_) =>
      case AddrOf(operand, _) => Unmoved(true, c, t, operand);
      case Literal(elements) => OperandsBreak(c, elements, scope, all, t, s, held);
      case Call(_, _, _) => CallBreaks(c, e, scope, all, t, s, held);
      case Free(_) => FreeBreaks(c, e, scope, all, t, s, held);
      case Deref(_, _) => DerefBreaks(c, e, scope, all, t, s, held);
      case Index(_, _) => IndexBreaks(c, e, scope, all, t, s, held);
      case Binary(_, _) => BinaryBreaks(c, e, scope, all, t, s, held);
      case Assign(_, _, _) => AssignBreaks(c, e, scope, all, t, s, held);
    }
  }

  lemma {:induction false} FreeBreaks(
    c: Chk, e: Expr, scope: set<string>, all: set<string>, t: Ties, s: Run, held: set<Ref>)
    requires e.Free? && Scalar(e, scope, all) && Fair(t, e) && !c.failed && CheckExpr(c, e).failed
    requires Full(scope, all, t, c.vars, s, held)
    ensures Broken(Audit(Exec(e, s).trace), multiset(held))
    decreases e, 3
  {
    OwnedBreaks(c, e.operand, scope, all, t, s, held);
    var (s1, v) := Take(e.operand, s);
    var given := Freed(v.value);
    assert given.ref == v.value;
    BrokenGive(s1, given, multiset(held));
  }

  lemma {:induction false} DerefBreaks(
    c: Chk, e: Expr, scope: set<string>, all: set<string>, t: Ties, s: Run, held: set<Ref>)
    requires e.Deref? && Scalar(e, scope, all) && Fair(t, e) && !c.failed && CheckExpr(c, e).failed
    requires Full(scope, all, t, c.vars, s, held)
    ensures Broken(Audit(Exec(e, s).trace), multiset(held))
    decreases e, 3
  {
    var s1, vars := Exec(e.operand, s), CheckExpr(c, e.operand).vars;
    if Bad(c, t, e.operand) {
      ScalarBreaks(c, e.operand, scope, all, t, s, held);
      BrokenStays(s1.trace, Touch(s1, s1.value).trace, multiset(held), multiset(held));
    } else {
      ScalarLater(true, c, e.operand, scope, all, t, s, held);
      ScalarInReach(e.operand, scope, all);
      ArrayWasThere(true, c, t, e.operand);
      DerefRefused(c, t, e);
      TouchBreaks(scope, all, t, vars, s1, vars, s1, held, e.operand);
    }
  }

  /** A dereference is refused because of the operand, or because its owner has been consumed. */
  lemma DerefRefused(c: Chk, t: Ties, e: Expr)
    requires e.Deref? && CheckExpr(c, e).failed && !Bad(c, t, e.operand) && Prompt(t.pending, e)
    ensures !Alive(CheckExpr(c, e.operand).vars, t, RootOf(t.roots, e.operand))
  {
    var operand := e.operand;
    assert CheckExpr(c, e) == CheckPlace(c, operand);
    assert operand.Var? && CheckExpr(c, operand) == c && operand.name !in t.pending;
  }

  /** Of two operands one is bad. */
  lemma {:induction false} PairBreaks(
    c: Chk, whole: Expr, lhs: Expr, rhs: Expr, scope: set<string>, all: set<string>, t: Ties, s: Run, held: set<Ref>)
    requires lhs < whole && rhs < whole && Scalar(lhs, scope, all) && Scalar(rhs, scope, all)
    requires Fair(t, lhs) && Fair(t, rhs) && !c.failed && (Bad(c, t, lhs) || Bad(CheckExpr(c, lhs), t, rhs))
    requires Full(scope, all, t, c.vars, s, held)
    ensures Broken(Audit(Exec(rhs, Exec(lhs, s)).trace), multiset(held))
    decreases whole, 0
  {
    var s1 := Exec(lhs, s);
    if Bad(c, t, lhs) {
      ScalarBreaks(c, lhs, scope, all, t, s, held);
      ScalarCalm(lhs, scope, all, s);
      ScalarCalm(rhs, scope, all, s1);
      BrokenStays(s1.trace, Exec(rhs, s1).trace, multiset(held), multiset(held));
    } else {
      ScalarLater(true, c, lhs, scope, all, t, s, held);
      ScalarBreaks(CheckExpr(c, lhs), rhs, scope, all, t, s1, held);
    }
  }

  lemma {:induction false} IndexBreaks(
    c: Chk, e: Expr, scope: set<string>, all: set<string>, t: Ties, s: Run, held: set<Ref>)
    requires e.Index? && Scalar(e, scope, all) && Fair(t, e) && !c.failed && CheckExpr(c, e).failed
    requires Full(scope, all, t, c.vars, s, held)
    ensures Broken(Audit(Exec(e, s).trace), multiset(held))
    decreases e, 3
  {
    var base, c1, s1 := e.base, CheckExpr(c, e.base), Exec(e.base, s);
    var s2 := Exec(e.index, s1);
    if Bad(c, t, base) || Bad(c1, t, e.index) {
      PairBreaks(c, e, base, e.index, scope, all, t, s, held);
      BrokenStays(s2.trace, Touch(s2, s1.value).trace, multiset(held), multiset(held));
    } else {
      PairLater(true, c, base, e.index, scope, all, t, s, held);
      ScalarInReach(base, scope, all);
      ArrayWasThere(true, c, t, base);
      StaleLater(c, t, base, e.index, scope, all);
      TouchBreaks(scope, all, t, c1.vars, s1, CheckExpr(c1, e.index).vars, s2, held, base);
    }
  }

  /** An owner that has been consumed, and not just passed, is gone after more operands as well. */
  lemma StaleLater(c: Chk, t: Ties, first: Expr, second: Expr, scope: set<string>, all: set<string>)
    requires first.Var? && first.name in c.vars && c.vars[first.name] == Consumed && first.name !in t.pending
    requires Scalar(first, scope, all) && Scalar(second, scope, all) && scope <= c.vars.Keys <= all
    ensures CheckExpr(c, first) == c
    ensures !Alive(CheckExpr(CheckExpr(c, first), second).vars, t, RootOf(t.roots, first))
  {
    assert first.name in scope;
    StaysConsumed(c, second, scope, all);
  }

  lemma {:induction false} BinaryBreaks(
    c: Chk, e: Expr, scope: set<string>, all: set<string>, t: Ties, s: Run, held: set<Ref>)
    requires e.Binary? && Scalar(e, scope, all) && Fair(t, e) && !c.failed && CheckExpr(c, e).failed
    requires Full(scope, all, t, c.vars, s, held)
    ensures Broken(Audit(Exec(e, s).trace), multiset(held))
    decreases e, 3
  {
    var s1 := Exec(e.lhs, s);
    var s2 := Exec(e.rhs, s1);
    PairBreaks(c, e, e.lhs, e.rhs, scope, all, t, s, held);
    BrokenStays(s2.trace, Load(Load(s2, s1.value), s2.value).trace, multiset(held), multiset(held));
  }

  // ---------- Assignments ----------

  /** A place is looked through after its owner has been consumed. */
  predicate Stale(c: Chk, lhs: Expr)
    requires lhs.Deref? || lhs.Index?
  {
    var through := Through(lhs);
    through.Var? && through.name in c.vars && c.vars[through.name] == Consumed
  }

  lemma {:induction false} PlaceBreaks(
    c: Chk, lhs: Expr, scope: set<string>, all: set<string>, t: Ties, s: Run, held: set<Ref>)
    requires (lhs.Deref? || lhs.Index?) && Scalar(lhs, scope, all) && Fair(t, lhs) && !c.failed
    requires PlaceState(c, lhs).failed || !ClearPlace(true, c, t, lhs)
    requires Full(scope, all, t, c.vars, s, held)
    ensures Broken(Audit(Locate(lhs, s).trace), multiset(held))
    decreases lhs, 3
  {
    if lhs.Deref? {
      ScalarBreaks(c, lhs.operand, scope, all, t, s, held);
    } else {
      PairBreaks(c, lhs, lhs.base, lhs.index, scope, all, t, s, held);
    }
  }

  lemma {:induction false} AssignBreaks(
    c: Chk, e: Expr, scope: set<string>, all: set<string>, t: Ties, s: Run, held: set<Ref>)
    requires e.Assign? && Scalar(e, scope, all) && Fair(t, e) && !c.failed && CheckExpr(c, e).failed
    requires Full(scope, all, t, c.vars, s, held)
    ensures Broken(Audit(Exec(e, s).trace), multiset(held))
    decreases e, 3
  {
    var lhs, rhs, c1, s1 := e.lhs, e.rhs, PlaceState(c, e.lhs), Locate(e.lhs, s);
    AssignRuns(e, s);
    PlaceCalm(lhs, scope, all, s);
    ScalarCalm(rhs, scope, all, s1);
    var s2 := Exec(rhs, s1);
    if c1.failed || !ClearPlace(true, c, t, lhs) || Bad(c1, t, rhs) {
      SideBreaks(c, e, scope, all, t, s, held);
      BrokenStays(s2.trace, Store(s1, s2).trace, multiset(held), multiset(held));
    } else {
      StoreRefused(c, e, scope, all, t);
      StoreBreaks(c, e, scope, all, t, s, held);
    }
  }

  lemma {:induction false} SideBreaks(
    c: Chk, e: Expr, scope: set<string>, all: set<string>, t: Ties, s: Run, held: set<Ref>)
    requires e.Assign? && Scalar(e, scope, all) && Fair(t, e) && !c.failed
    requires PlaceState(c, e.lhs).failed || !ClearPlace(true, c, t, e.lhs) || Bad(PlaceState(c, e.lhs), t, e.rhs)
    requires Full(scope, all, t, c.vars, s, held)
    ensures Broken(Audit(Exec(e.rhs, Locate(e.lhs, s)).trace), multiset(held))
    decreases e, 2
  {
    var lhs, rhs, c1, s1 := e.lhs, e.rhs, PlaceState(c, e.lhs), Locate(e.lhs, s);
    if c1.failed || !ClearPlace(true, c, t, lhs) {
      PlaceBreaks(c, lhs, scope, all, t, s, held);
      PlaceCalm(lhs, scope, all, s);
      ScalarCalm(rhs, scope, all, s1);
      BrokenStays(s1.trace, Exec(rhs, s1).trace, multiset(held), multiset(held));
    } else {
      PlaceLater(c, lhs, scope, all, t, s, held);
      ScalarBreaks(c1, rhs, scope, all, t, s1, held);
    }
  }

  /** An assignment is refused for its operands, or because the owner stored through has been consumed. */
  lemma StoreRefused(c: Chk, e: Expr, scope: set<string>, all: set<string>, t: Ties)
    requires e.Assign? && Scalar(e, scope, all) && Fair(t, e) && !c.failed && CheckExpr(c, e).failed
    requires var c1 := PlaceState(c, e.lhs); !c1.failed && !Bad(c1, t, e.rhs)
    requires scope <= c.vars.Keys <= all
    ensures !Alive(CheckExpr(PlaceState(c, e.lhs), e.rhs).vars, t, RootOf(t.roots, Through(e.lhs)))
  {
    var lhs, rhs, c1 := e.lhs, e.rhs, PlaceState(c, e.lhs);
    if Stale(c, lhs) {
      PlaceStale(c, lhs, t, scope, all);
      StaysConsumed(c1, rhs, scope, all);
    } else {
      PlaceFresh(c, lhs, scope, all);
    }
  }

  lemma PlaceStale(c: Chk, lhs: Expr, t: Ties, scope: set<string>, all: set<string>)
    requires (lhs.Deref? || lhs.Index?) && Scalar(lhs, scope, all) && Stale(c, lhs) && Prompt(t.pending, lhs)
    requires scope <= c.vars.Keys <= all
    ensures var x, vars := Through(lhs).name, PlaceState(c, lhs).vars;
            x in scope && scope <= vars.Keys && x in vars && vars[x] == Consumed && x !in t.pending
  {
    if lhs.Index? {
      assert CheckExpr(c, lhs.base) == c;
      ExprGrows(c, lhs.index);
      StaysConsumed(c, lhs.index, scope, all);
    } else {
      assert CheckExpr(c, lhs.operand) == c;
    }
  }

  lemma PlaceFresh(c: Chk, lhs: Expr, scope: set<string>, all: set<string>)
    requires (lhs.Deref? || lhs.Index?) && !Stale(c, lhs) && Scalar(lhs, scope, all) && c.vars.Keys <= all
    ensures CheckExpr(c, lhs) == PlaceState(c, lhs) && PlaceState(c, lhs).vars.Keys <= all
  {
    ExprGrows(c, lhs);
    ScalarHides(lhs, scope, all);
    if lhs.Deref? {
      assert CheckExpr(c, lhs) == CheckPlace(c, lhs.operand);
    }
  }

  // ---------- Operands and arguments ----------

  lemma {:induction false} OperandsBreak(
    c: Chk, es: seq<Expr>, scope: set<string>, all: set<string>, t: Ties, s: Run, held: set<Ref>)
    requires Operands(es, scope, all) && Ownerless(es, all) && StraightAll(es) && !c.failed
    requires PromptAll(t.pending, es) && OvertAll(true, es)
    requires CheckElements(c, es).failed || !ClearAll(true, c, t, es)
    requires Full(scope, all, t, c.vars, s, held)
    ensures Broken(Audit(ExecArgs(es, [], s).0.trace), multiset(held))
    decreases es, 0
  {
    var c1, s1 := CheckExpr(c, es[0]), Exec(es[0], s);
    var s2 := Load(s1, s1.value);
    var s3 := ExecArgs(es[1..], [], s2).0;
    assert CheckOwned(c, es[0]) == c1;
    ScalarCalm(es[0], scope, all, s);
    OperandsCalm(es[1..], scope, all, s2);
    if Bad(c, t, es[0]) {
      ScalarBreaks(c, es[0], scope, all, t, s, held);
      BrokenStays(s1.trace, s3.trace, multiset(held), multiset(held));
    } else if !Loads(c1.vars, t, es[0]) {
      ReadBreaks(true, c, es[0], scope, all, t, s, held);
      Stays(s2, s3);
    } else {
      ScalarLater(true, c, es[0], scope, all, t, s, held);
      LoadLater(scope, all, t, c1.vars, s1, held, es[0]);
      OperandsBreak(c1, es[1..], scope, all, t, s2, held);
    }
  }

  /** What is bad about an expression that is taken breaks a rule, now or when it is handed over. */
  lemma {:induction false} OwnedBreaks(
    c: Chk, e: Expr, scope: set<string>, all: set<string>, t: Ties, s: Run, held: set<Ref>)
    requires Owned(e, scope, all) && Fair(t, e) && !c.failed && (CheckOwned(c, e).failed || !ClearOwned(true, c, t, e))
    requires Full(scope, all, t, c.vars, s, held)
    ensures var (s1, v) := Take(e, s);
            && Calm(s, s1) && v.Some?
            && Broken(Audit(s1.trace), multiset(held) + multiset{v.value})
            && (!e.Var? ==> Broken(Audit(s1.trace), multiset(held)))
    decreases e, 2
  {
    OwnedCalm(e, scope, all, s);
    var (s1, v) := Take(e, s);
    var due := multiset(held) + multiset{v.value};
    if e.Var? {
      assert CheckOwned(c, e) == Consume(c, e.name);
      assert v.value in due;
    } else {
      assert CheckOwned(c, e) == CheckExpr(c, e);
      if e.Alloc? {
        OwnedMissed(true, c, e, scope, all, t, s, held);
      } else {
        HandsBreak(c, e, scope, all, t, s, held);
      }
      BrokenStays(s1.trace, s1.trace, multiset(held), due);
    }
  }

  lemma {:induction false} CallBreaks(
    c: Chk, e: Expr, scope: set<string>, all: set<string>, t: Ties, s: Run, held: set<Ref>)
    requires e.Call? && Scalar(e, scope, all) && Fair(t, e) && !c.failed && CheckExpr(c, e).failed
    requires Full(scope, all, t, c.vars, s, held)
    ensures Broken(Audit(Exec(e, s).trace), multiset(held))
    decreases e, 3
  {
    if e.owned {
      DropsBreak(e, scope, all, s);
    } else {
      HandsBreak(c, e, scope, all, t, s, held);
    }
  }

  lemma {:induction false} HandsBreak(
    c: Chk, e: Expr, scope: set<string>, all: set<string>, t: Ties, s: Run, held: set<Ref>)
    requires e.Call? && Args(e.args, e.takes, scope, all) && StraightAll(e.args) && !c.failed
    requires PromptArgs(t.pending, e.args, e.takes) && OvertArgs(true, e.args, e.takes)
    requires CheckArgs(c, e.args, e.takes).failed || !ClearArgs(true, c, t, e.args, e.takes)
    requires Full(scope, all, t, c.vars, s, held)
    ensures Broken(Audit(Obtain(e, s).0.trace), multiset(held))
    decreases e, 0
  {
    var (s1, refs) := ExecArgs(e.args, e.takes, s);
    ArgsCalm(e.args, e.takes, scope, all, s);
    ArgsBreak(c, e.args, e.takes, scope, all, t, s, held);
    BrokenPass(s1, refs, multiset(held));
    BrokenStays(Pass(s1, refs).trace, Obtain(e, s).0.trace, multiset(held), multiset(held));
  }

  lemma {:induction false} ArgsBreak(
    c: Chk, args: seq<Expr>, takes: seq<bool>, scope: set<string>, all: set<string>, t: Ties, s: Run, held: set<Ref>)
    requires Args(args, takes, scope, all) && StraightAll(args) && !c.failed
    requires PromptArgs(t.pending, args, takes) && OvertArgs(true, args, takes)
    requires CheckArgs(c, args, takes).failed || !ClearArgs(true, c, t, args, takes)
    requires Full(scope, all, t, c.vars, s, held)
    ensures var (s1, refs) := ExecArgs(args, takes, s);
            Broken(Audit(s1.trace), multiset(held) + multiset(refs))
    decreases args, 2
  {
    if takes == [] {
      OperandsMissed(false, c, args, scope, all, t, s, held);
      OperandsCalm(args, scope, all, s);
      assert multiset(held) + multiset([]) == multiset(held);
    } else if takes[0] {
      OwnedArgBreaks(c, args, takes, scope, all, t, s, held);
    } else {
      PlainArgBreaks(c, args, takes, scope, all, t, s, held);
    }
  }

  lemma {:induction false} PlainArgBreaks(
    c: Chk, args: seq<Expr>, takes: seq<bool>, scope: set<string>, all: set<string>, t: Ties, s: Run, held: set<Ref>)
    requires args != [] && takes != [] && !takes[0]
    requires Args(args, takes, scope, all) && StraightAll(args) && !c.failed
    requires PromptArgs(t.pending, args, takes) && OvertArgs(true, args, takes)
    requires CheckArgs(c, args, takes).failed || !ClearArgs(true, c, t, args, takes)
    requires Full(scope, all, t, c.vars, s, held)
    ensures var (s1, refs) := ExecArgs(args, takes, s);
            Broken(Audit(s1.trace), multiset(held) + multiset(refs))
    decreases args, 1
  {
    var c1, s1 := CheckExpr(c, args[0]), Exec(args[0], s);
    var s2 := Load(s1, s1.value);
    var (s3, refs) := ExecArgs(args[1..], takes[1..], s2);
    ScalarCalm(args[0], scope, all, s);
    ArgsCalm(args[1..], takes[1..], scope, all, s2);
    if Bad(c, t, args[0]) {
      ScalarBreaks(c, args[0], scope, all, t, s, held);
      BrokenStays(s1.trace, s3.trace, multiset(held), multiset(held) + multiset(refs));
    } else if !Loads(c1.vars, t, args[0]) {
      ReadBreaks(true, c, args[0], scope, all, t, s, held);
      Stays(s2, s3);
    } else {
      ScalarLater(true, c, args[0], scope, all, t, s, held);
      LoadLater(scope, all, t, c1.vars, s1, held, args[0]);
      ArgsBreak(c1, args[1..], takes[1..], scope, all, t, s2, held);
    }
  }

  lemma {:induction false} OwnedArgBreaks(
    c: Chk, args: seq<Expr>, takes: seq<bool>, scope: set<string>, all: set<string>, t: Ties, s: Run, held: set<Ref>)
    requires args != [] && takes != [] && takes[0]
    requires Args(args, takes, scope, all) && StraightAll(args) && !c.failed
    requires PromptArgs(t.pending, args, takes) && OvertArgs(true, args, takes)
    requires CheckArgs(c, args, takes).failed || !ClearArgs(true, c, t, args, takes)
    requires Full(scope, all, t, c.vars, s, held)
    ensures var (s1, refs) := ExecArgs(args, takes, s);
            Broken(Audit(s1.trace), multiset(held) + multiset(refs))
    decreases args, 1
  {
    var c1 := CheckOwned(c, args[0]);
    var (s1, v) := Take(args[0], s);
    OwnedCalm(args[0], scope, all, s);
    var (s2, refs) := ExecArgs(args[1..], takes[1..], s1);
    ArgsCalm(args[1..], takes[1..], scope, all, s1);
    var due, now := multiset(held) + multiset([v.value] + refs), multiset(held) + multiset{v.value};
    assert due == now + multiset(refs);
    if c1.failed || !ClearOwned(true, c, t, args[0]) {
      OwnedBreaks(c, args[0], scope, all, t, s, held);
      BrokenStays(s1.trace, s2.trace, now, due);
    } else {
      OwnedLater(true, c, args[0], scope, all, t, s, held);
      ArgsBreak(c1, args[1..], takes[1..], scope, all, Awaiting(t, args[0]), s1, held + {v.value});
      assert multiset(held + {v.value}) == now;
    }
  }

  // ---------- Declared names ----------

  /** Straight-line expressions declare nothing. */
  lemma {:induction false} StraightDecls(e: Expr, scope: set<string>, all: set<string>)
    requires (Scalar(e, scope, all) || Owned(e, scope, all)) && Straight(e)
    ensures Decls(e) == {}
    decreases e, 1
  {
    match e
    case Leaf | Var(_) | ArrayVar(_) | AddrOf(_, _) =>
    case Opaque(operands) => OperandsDecls(operands, scope, all);
    case Literal(elements) => OperandsDecls(elements, scope, all);
    case Alloc(count) => StraightDecls(count, scope, all);
    case Call(args, takes, _) => ArgsDecls(args, takes, scope, all);
    case Free(operand) => StraightDecls(operand, scope, all);
    case Deref(operand, _) => StraightDecls(operand, scope, all);
    case Index(base, index) =>
      StraightDecls(base, scope, all);
      StraightDecls(index, scope, all);
    case Binary(lhs, rhs) =>
      StraightDecls(lhs, scope, all);
      StraightDecls(rhs, scope, all);
    case Assign(lhs, rhs, _) =>
      StraightDecls(lhs, scope, all);
      StraightDecls(rhs, scope, all);
  }

  lemma {:induction false} OperandsDecls(es: seq<Expr>, scope: set<string>, all: set<string>)
    requires Operands(es, scope, all) && StraightAll(es)
    ensures DeclsAll(es) == {}
    decreases es, 0
  {
    if es != [] {
      StraightDecls(es[0], scope, all);
      OperandsDecls(es[1..], scope, all);
    }
  }

  lemma {:induction false} ArgsDecls(args: seq<Expr>, takes: seq<bool>, scope: set<string>, all: set<string>)
    requires Args(args, takes, scope, all) && StraightAll(args)
    ensures DeclsAll(args) == {}
    decreases args, 1
  {
    if args != [] && takes == [] {
      OperandsDecls(args, scope, all);
    } else if args != [] {
      StraightDecls(args[0], scope, all);
      ArgsDecls(args[1..], takes[1..], scope, all);
    }
  }

  // ---------- Statements ----------

  /** A statement that is refused, or in which something is overlooked, breaks a rule. */
  lemma StmtBreaks(c: Chk, e: Expr, scope: set<string>, all: set<string>, t: Ties, own: set<string>, s: Run)
    requires Stmt(e, scope, all) && Fair(t, e) && !c.failed && own <= scope && Full(scope, all, t, c.vars, s, {})
    requires CheckStmt(c, e).failed || !ClearStmt(c, t, own, e)
    ensures !Audit(Exec(e, s).trace).legal
  {
    if !CheckStmt(c, e).failed {
      StmtMissed(c, e, scope, all, t, own, s, {});
    } else if e.VarDef? {
      DefinitionBreaks(c, e, scope, all, t, s);
    } else if Discards(e) {
      DropsBreak(e, scope, all, s);
    } else {
      ScalarBreaks(c, e, scope, all, t, s, {});
    }
  }

  lemma DefinitionBreaks(c: Chk, e: Expr, scope: set<string>, all: set<string>, t: Ties, s: Run)
    requires e.VarDef? && Stmt(e, scope, all) && Fair(t, e) && !c.failed && CheckStmt(c, e).failed
    requires Full(scope, all, t, c.vars, s, {})
    ensures !Audit(Exec(e, s).trace).legal
  {
    DefinitionChecked(c, t, scope, e);
    if e.linear {
      OwnedBreaks(c, e.init, scope, all, t, s, {});
      var (s1, v) := Take(e.init, s);
      BindBreaks(s1, e.name, v.value, e.init.Var?);
    } else {
      assert CheckOwned(c, e.init) == CheckExpr(c, e.init);
      ScalarBreaks(c, e.init, scope, all, t, s, {});
    }
  }

  /** What is bound was not there. */
  lemma BindBreaks(s: Run, name: string, r: Ref, moved: bool)
    requires Broken(Audit(s.trace), multiset({}) + multiset{r}) && (!moved ==> Broken(Audit(s.trace), multiset({})))
    ensures !Audit(Bind(s, name, r, moved).trace).legal
  {
    var to := if moved then Ref(r.cell, s.supply) else r;
    var s1 := if moved then Emit(s, Move(r, to)).(supply := s.supply + 1) else s;
    AuditEmit(s, Move(r, to));
    assert !Audit(s1.trace).legal;
    Stays(s1, Bind(s, name, r, moved));
  }
}
