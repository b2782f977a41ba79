/** Whatever the checker overlooks breaks a rule of ownership in the run that is led there. */
module LinearOverlooked {
  import opened Wrappers
  import opened LinearSyntax
  import opened LinearChecker
  import opened LinearFlow
  import opened LinearRuns
  import opened LinearGaps
  import opened LinearCalm
  import opened LinearInvariant
  import opened LinearSafety
  import opened LinearBreaks
  import opened LinearPaths
  import opened LinearLater

  /** No error is reported, and something is overlooked that is no owner taken unseen. */
  predicate Missed(walked: bool, c: Chk, t: Ties, e: Expr)
  {
    (if walked then !CheckExpr(c, e).failed else Flat(e)) && Overt(walked, e) && !Clear(walked, c, t, e)
  }

  /** The run is led to it: where there are branches and loops, by its choices. */
  predicate Led(walked: bool, c: Chk, t: Ties, e: Expr, s: Run)
  {
    walked && !Straight(e) ==> Path(c, t, e) <= s.choices
  }

  // ---------- Going on with the path ----------

  lemma Remaining(n: nat, p: seq<nat>, choices: seq<nat>) returns (rest: seq<nat>)
    requires Zeroes(n) + p <= choices
    ensures choices == Zeroes(n) + rest && p <= rest
  {
    rest := choices[|Zeroes(n)|..];
  }

  lemma FirstChoice(s: Run, k: nat, p: seq<nat>)
    requires [k] + p <= s.choices
    ensures Choose(s).0 == k && p <= Choose(s).1.choices
    ensures Choose(s).1 == s.(choices := s.choices[1..])
  {
    assert p == ([k] + p)[1..];
  }

  lemma Onward(e: Expr, scope: set<string>, all: set<string>, s: Run, p: seq<nat>)
    requires Scalar(e, scope, all) && Running(s, all) && Zeroes(Skips(e)) + p <= s.choices
    ensures p <= Exec(e, s).choices
  {
    var rest := Remaining(Skips(e), p, s.choices);
    ScalarSkips(e, scope, all, s, rest);
  }

  lemma OwnedOnward(e: Expr, scope: set<string>, all: set<string>, s: Run, p: seq<nat>)
    requires Owned(e, scope, all) && Running(s, all) && Zeroes(Skips(e)) + p <= s.choices
    ensures p <= Take(e, s).0.choices
  {
    var rest := Remaining(Skips(e), p, s.choices);
    OwnedSkips(e, scope, all, s, rest);
  }

  lemma PlaceOnward(lhs: Expr, scope: set<string>, all: set<string>, s: Run, p: seq<nat>)
    requires (lhs.Deref? || lhs.Index?) && Scalar(lhs, scope, all) && Running(s, all)
    requires Zeroes(Skips(lhs)) + p <= s.choices
    ensures p <= Locate(lhs, s).choices
  {
    var rest := Remaining(Skips(lhs), p, s.choices);
    PlaceSkips(lhs, scope, all, s, rest);
  }

  lemma StmtOnward(e: Expr, scope: set<string>, all: set<string>, s: Run, p: seq<nat>)
    requires Stmt(e, scope, all) && Running(s, all) && Zeroes(Skips(e)) + p <= s.choices
    ensures p <= Exec(e, s).choices
  {
    var rest := Remaining(Skips(e), p, s.choices);
    StmtSkips(e, scope, all, s, rest);
  }

  // ---------- Expressions ----------

  lemma {:induction false} ScalarMissed(
    walked: bool, c: Chk, e: Expr, scope: set<string>, all: set<string>, t: Ties, s: Run, held: set<Ref>)
    requires Scalar(e, scope, all) && Missed(walked, c, t, e) && Led(walked, c, t, e, s)
    requires Full(scope, all, t, c.vars, s, held)
    ensures Broken(Audit(Exec(e, s).trace), multiset(held))
    decreases e, 4
  {
    match e
    case Leaf | Var(_) | ArrayVar(_) | AddrOf(_, _) =>
    case Opaque(operands) => OperandsMissed(false, c, operands, scope, all, t, s, held);
    case Literal(_) => LiteralMissed(walked, c, e, scope, all, t, s, held);
    case Alloc(_) => DropsBreak(e, scope, all, s);
    case Call(_, _, _) => CallMissed(walked, c, e, scope, all, t, s, held);
    case Free(_) => FreeMissed(walked, c, e, scope, all, t, s, held);
    case Deref(_, _) => DerefMissed(walked, c, e, scope, all, t, s, held);
    case Index(_, _) => IndexMissed(walked, c, e, scope, all, t, s, held);
    case Binary(_, _) => BinaryMissed(walked, c, e, scope, all, t, s, held);
    case Assign(_, _, _) => AssignMissed(c, e, scope, all, t, s, held);
    case If(_, _, _) | While(_, _) | For(_, _, _, _) | Case(_, _) => FlowMissed(c, e, scope, all, t, s, held);
  }

  /** Nobody receives what is allocated or returned here. */
  lemma DropsBreak(e: Expr, scope: set<string>, all: set<string>, s: Run)
    requires Discards(e) && Scalar(e, scope, all) && Running(s, all)
    ensures !Audit(Exec(e, s).trace).legal
  {
    if e.Alloc? {
      AllocCalm(e, scope, all, s);
    } else {
      CallCalm(e, scope, all, s);
    }
    var (s1, v) := Obtain(e, s);
    DropBreaks(s1, Drop(v.value));
  }

  lemma {:induction false} LiteralMissed(
    walked: bool, c: Chk, e: Expr, scope: set<string>, all: set<string>, t: Ties, s: Run, held: set<Ref>)
    requires e.Literal? && Scalar(e, scope, all) && Missed(walked, c, t, e) && Led(walked, c, t, e, s)
    requires Full(scope, all, t, c.vars, s, held)
    ensures Broken(Audit(Exec(e, s).trace), multiset(held))
    decreases e, 3
  {
    OperandsMissed(walked, c, e.elements, scope, all, t, s, held);
  }

  lemma {:induction false} FreeMissed(
    walked: bool, c: Chk, e: Expr, scope: set<string>, all: set<string>, t: Ties, s: Run, held: set<Ref>)
    requires e.Free? && Scalar(e, scope, all) && Missed(walked, c, t, e) && Led(walked, c, t, e, s)
    requires Full(scope, all, t, c.vars, s, held)
    ensures Broken(Audit(Exec(e, s).trace), multiset(held))
    decreases e, 3
  {
    OwnedMissed(walked, c, e.operand, scope, all, t, s, held);
    var (s1, v) := Take(e.operand, s);
    BrokenStays(s1.trace, Emit(s1, Freed(v.value)).trace, multiset(held), multiset(held));
  }

  /** What a dereference looks through is gone, and was not seen to be. */
  lemma DerefIsStale(walked: bool, c: Chk, t: Ties, e: Expr)
    requires e.Deref? && Missed(walked, c, t, e)
    ensures Missed(walked, c, t, e.operand) ||
            (Good(walked, c, t, e.operand) && !Alive(After(walked, c, e.operand).vars, t, RootOf(t.roots, e.operand)))
  {
    assert CheckExpr(c, e) == CheckPlace(c, e.operand);
    if walked {
      assert CheckPlace(c, e.operand) == CheckExpr(c, e.operand);
    }
  }

  lemma {:induction false} DerefMissed(
    walked: bool, c: Chk, e: Expr, scope: set<string>, all: set<string>, t: Ties, s: Run, held: set<Ref>)
    requires e.Deref? && Scalar(e, scope, all) && Missed(walked, c, t, e) && Led(walked, c, t, e, s)
    requires Full(scope, all, t, c.vars, s, held)
    ensures Broken(Audit(Exec(e, s).trace), multiset(held))
    decreases e, 3
  {
    var s1, vars := Exec(e.operand, s), After(walked, c, e.operand).vars;
    DerefIsStale(walked, c, t, e);
    if Missed(walked, c, t, e.operand) {
      ScalarMissed(walked, c, e.operand, scope, all, t, s, held);
      BrokenStays(s1.trace, Touch(s1, s1.value).trace, multiset(held), multiset(held));
    } else {
      ScalarLater(walked, c, e.operand, scope, all, t, s, held);
      ScalarInReach(e.operand, scope, all);
      ArrayWasThere(walked, c, t, e.operand);
      TouchBreaks(scope, all, t, vars, s1, vars, s1, held, e.operand);
    }
  }

  /** Of two operands one is missed. */
  lemma {:induction false} PairMissed(
    walked: bool, c: Chk, whole: Expr, lhs: Expr, rhs: Expr, scope: set<string>, all: set<string>, t: Ties, s: Run,
    held: set<Ref>)
    requires lhs < whole && rhs < whole && Scalar(lhs, scope, all) && Scalar(rhs, scope, all)
    requires if walked then !CheckExpr(CheckExpr(c, lhs), rhs).failed else Flat(lhs) && Flat(rhs)
    requires Overt(walked, lhs) && Overt(walked, rhs)
    requires !Clear(walked, c, t, lhs) || !Clear(walked, After(walked, c, lhs), t, rhs)
    requires walked && !(Straight(lhs) && Straight(rhs)) ==>
               (if !Clear(true, c, t, lhs) then Path(c, t, lhs)
                else Zeroes(Skips(lhs)) + Path(CheckExpr(c, lhs), t, rhs)) <= s.choices
    requires Full(scope, all, t, c.vars, s, held)
    ensures Broken(Audit(Exec(rhs, Exec(lhs, s)).trace), multiset(held))
    ensures Calm(s, Exec(rhs, Exec(lhs, s)))
    decreases whole, 0
  {
    var c1, s1 := After(walked, c, lhs), Exec(lhs, s);
    if walked {
      ExprGrows(c1, rhs);
    }
    ScalarCalm(lhs, scope, all, s);
    ScalarCalm(rhs, scope, all, s1);
    if !Clear(walked, c, t, lhs) {
      ScalarMissed(walked, c, lhs, scope, all, t, s, held);
      BrokenStays(s1.trace, Exec(rhs, s1).trace, multiset(held), multiset(held));
    } else {
      ScalarLater(walked, c, lhs, scope, all, t, s, held);
      if walked && !(Straight(lhs) && Straight(rhs)) {
        Onward(lhs, scope, all, s, Path(c1, t, rhs));
      }
      ScalarMissed(walked, c1, rhs, scope, all, t, s1, held);
    }
  }

  /** Neither of two operands is. */
  lemma PairLater(
    walked: bool, c: Chk, lhs: Expr, rhs: Expr, scope: set<string>, all: set<string>, t: Ties, s: Run, held: set<Ref>)
    requires Scalar(lhs, scope, all) && Scalar(rhs, scope, all)
    requires Good(walked, c, t, lhs) && Good(walked, After(walked, c, lhs), t, rhs)
    requires Full(scope, all, t, c.vars, s, held)
    ensures var c1, s1 := After(walked, c, lhs), Exec(lhs, s);
            var c2, s2 := After(walked, c1, rhs), Exec(rhs, s1);
            && Spent(t, c1.vars, s1) && Later(scope, all, t, c1.vars, s1, held, t, c2.vars, s2, held)
            && Full(scope, all, t, c2.vars, s2, held)
            && s1.value == ValueOf(lhs, s2) && s2.value == ValueOf(rhs, s2)
  {
    var s1 := Exec(lhs, s);
    ScalarLater(walked, c, lhs, scope, all, t, s, held);
    ScalarLater(walked, After(walked, c, lhs), rhs, scope, all, t, s1, held);
    ValueSame(lhs, s1, Exec(rhs, s1));
  }

  lemma {:induction false} IndexMissed(
    walked: bool, c: Chk, e: Expr, scope: set<string>, all: set<string>, t: Ties, s: Run, held: set<Ref>)
    requires e.Index? && Scalar(e, scope, all) && Missed(walked, c, t, e) && Led(walked, c, t, e, s)
    requires Full(scope, all, t, c.vars, s, held)
    ensures Broken(Audit(Exec(e, s).trace), multiset(held))
    decreases e, 3
  {
    var s1 := Exec(e.base, s);
    var s2 := Exec(e.index, s1);
    IndexOverlooks(walked, c, t, e, s);
    if !Clear(walked, c, t, e.base) || !Clear(walked, After(walked, c, e.base), t, e.index) {
      PairMissed(walked, c, e, e.base, e.index, scope, all, t, s, held);
      TouchComesLater(s2, s1.value, held);
    } else {
      PairGood(walked, c, t, e.base, e.index);
      BaseGone(walked, c, e.base, e.index, scope, all, t, s, held);
    }
  }

  lemma TouchComesLater(s: Run, v: Value, held: set<Ref>)
    requires Broken(Audit(s.trace), multiset(held)) && !s.returned
    ensures Broken(Audit(Touch(s, v).trace), multiset(held))
  {
    BrokenStays(s.trace, Touch(s, v).trace, multiset(held), multiset(held));
  }

  lemma IndexOverlooks(walked: bool, c: Chk, t: Ties, e: Expr, s: Run)
    requires e.Index? && Missed(walked, c, t, e) && Led(walked, c, t, e, s) && !s.returned
    ensures if walked then !CheckExpr(CheckExpr(c, e.base), e.index).failed else Flat(e.base) && Flat(e.index)
    ensures Overt(walked, e.base) && Overt(walked, e.index)
    ensures var c1 := After(walked, c, e.base);
            || !Clear(walked, c, t, e.base) || !Clear(walked, c1, t, e.index)
            || !Alive(After(walked, c1, e.index).vars, t, RootOf(t.roots, e.base))
    ensures walked && !(Straight(e.base) && Straight(e.index)) ==>
              (if !Clear(true, c, t, e.base) then Path(c, t, e.base)
               else Zeroes(Skips(e.base)) + Path(CheckExpr(c, e.base), t, e.index)) <= s.choices
    ensures var s1 := Exec(e.base, s); Exec(e, s).trace == Touch(Exec(e.index, s1), s1.value).trace
  {
  }

  /** What is indexed is gone once the index has been evaluated. */
  lemma BaseGone(
    walked: bool, c: Chk, base: Expr, index: Expr, scope: set<string>, all: set<string>, t: Ties, s: Run,
    held: set<Ref>)
    requires Scalar(base, scope, all) && Scalar(index, scope, all)
    requires Good(walked, c, t, base) && Good(walked, After(walked, c, base), t, index)
    requires !Alive(After(walked, After(walked, c, base), index).vars, t, RootOf(t.roots, base))
    requires Full(scope, all, t, c.vars, s, held)
    ensures var s1 := Exec(base, s); !Audit(Touch(Exec(index, s1), s1.value).trace).legal
  {
    var c1, s1 := After(walked, c, base), Exec(base, s);
    PairLater(walked, c, base, index, scope, all, t, s, held);
    ScalarInReach(base, scope, all);
    ArrayWasThere(walked, c, t, base);
    TouchBreaks(scope, all, t, c1.vars, s1, After(walked, c1, index).vars, Exec(index, s1), held, base);
  }

  lemma PairGood(walked: bool, c: Chk, t: Ties, lhs: Expr, rhs: Expr)
    requires if walked then !CheckExpr(CheckExpr(c, lhs), rhs).failed else Flat(lhs) && Flat(rhs)
    requires Clear(walked, c, t, lhs) && Clear(walked, After(walked, c, lhs), t, rhs)
    ensures Good(walked, c, t, lhs) && Good(walked, After(walked, c, lhs), t, rhs)
  {
    ExprGrows(CheckExpr(c, lhs), rhs);
  }

  lemma {:induction false} BinaryMissed(
    walked: bool, c: Chk, e: Expr, scope: set<string>, all: set<string>, t: Ties, s: Run, held: set<Ref>)
    requires e.Binary? && Scalar(e, scope, all) && Missed(walked, c, t, e) && Led(walked, c, t, e, s)
    requires Full(scope, all, t, c.vars, s, held)
    ensures Broken(Audit(Exec(e, s).trace), multiset(held))
    decreases e, 3
  {
    var lhs, rhs, c1, s1 := e.lhs, e.rhs, After(walked, c, e.lhs), Exec(e.lhs, s);
    var s2 := Exec(rhs, s1);
    if !Clear(walked, c, t, lhs) || !Clear(walked, c1, t, rhs) {
      PairMissed(walked, c, e, lhs, rhs, scope, all, t, s, held);
      BrokenStays(s2.trace, Load(Load(s2, s1.value), s2.value).trace, multiset(held), multiset(held));
    } else {
      PairGood(walked, c, t, lhs, rhs);
      OperandGone(walked, c, lhs, rhs, scope, all, t, s, held);
    }
  }

  /** Both operands can be evaluated, but then one can no longer be read. */
  lemma OperandGone(
    walked: bool, c: Chk, lhs: Expr, rhs: Expr, scope: set<string>, all: set<string>, t: Ties, s: Run, held: set<Ref>)
    requires Scalar(lhs, scope, all) && Scalar(rhs, scope, all)
    requires Good(walked, c, t, lhs) && Good(walked, After(walked, c, lhs), t, rhs)
    requires var c2 := After(walked, After(walked, c, lhs), rhs); !Loads(c2.vars, t, lhs) || !Loads(c2.vars, t, rhs)
    requires Full(scope, all, t, c.vars, s, held)
    ensures var s1 := Exec(lhs, s);
            var s2 := Exec(rhs, s1);
            !Audit(Load(Load(s2, s1.value), s2.value).trace).legal
  {
    var c1, s1 := After(walked, c, lhs), Exec(lhs, s);
    PairLater(walked, c, lhs, rhs, scope, all, t, s, held);
    ScalarInReach(lhs, scope, all);
    ScalarInReach(rhs, scope, all);
    ArrayWasThere(walked, c, t, lhs);
    ArrayWasThere(walked, c1, t, rhs);
    ReadsBreak(scope, all, t, c1.vars, s1, After(walked, c1, rhs).vars, Exec(rhs, s1), held, lhs, rhs);
  }

  // ---------- Assignments ----------

  lemma {:induction false} PlaceMissed(
    c: Chk, lhs: Expr, scope: set<string>, all: set<string>, t: Ties, s: Run, held: set<Ref>)
    requires (lhs.Deref? || lhs.Index?) && Scalar(lhs, scope, all) && !CheckExpr(c, lhs).failed && Overt(true, lhs)
    requires !ClearPlace(true, c, t, lhs) && (!Straight(lhs) ==> PathPlace(c, t, lhs) <= s.choices)
    requires Full(scope, all, t, c.vars, s, held)
    ensures Broken(Audit(Locate(lhs, s).trace), multiset(held))
    decreases lhs, 3
  {
    PlaceChecked(c, lhs);
    if lhs.Deref? {
      ScalarMissed(true, c, lhs.operand, scope, all, t, s, held);
    } else {
      PairMissed(true, c, lhs, lhs.base, lhs.index, scope, all, t, s, held);
    }
  }

  /** The check of the operands of a place, whatever it says of the place. */
  function PlaceState(c: Chk, lhs: Expr): Chk
    requires lhs.Deref? || lhs.Index?
  {
    if lhs.Deref? then CheckExpr(c, lhs.operand) else CheckExpr(CheckExpr(c, lhs.base), lhs.index)
  }

  lemma PlaceChecked(c: Chk, lhs: Expr)
    requires (lhs.Deref? || lhs.Index?) && !CheckExpr(c, lhs).failed
    ensures CheckExpr(c, lhs) == PlaceState(c, lhs)
  {
    if lhs.Deref? {
      assert CheckExpr(c, lhs) == CheckPlace(c, lhs.operand);
    }
  }

  /** What is stored through was there when it was evaluated, and the place is known. */
  ghost predicate Placing(
    c: Chk, lhs: Expr, scope: set<string>, all: set<string>, t: Ties, s: Run, held: set<Ref>)
    requires lhs.Deref? || lhs.Index?
  {
    var c0, s0 := CheckExpr(c, Through(lhs)), Exec(Through(lhs), s);
    var c1, s1 := PlaceState(c, lhs), Locate(lhs, s);
    && Spent(t, c0.vars, s0) && Later(scope, all, t, c0.vars, s0, held, t, c1.vars, s1, held)
    && Full(scope, all, t, c1.vars, s1, held) && s1.value == ValueOf(Through(lhs), s1)
    && (Through(lhs).Deref? && Through(lhs).toArray ==> Alive(c0.vars, t, RootOf(t.roots, Through(lhs))))
  }

  lemma PlaceLater(c: Chk, lhs: Expr, scope: set<string>, all: set<string>, t: Ties, s: Run, held: set<Ref>)
    requires (lhs.Deref? || lhs.Index?) && Scalar(lhs, scope, all) && !PlaceState(c, lhs).failed
    requires ClearPlace(true, c, t, lhs) && Full(scope, all, t, c.vars, s, held)
    ensures Placing(c, lhs, scope, all, t, s, held)
  {
    if lhs.Deref? {
      ScalarLater(true, c, lhs.operand, scope, all, t, s, held);
      ArrayWasThere(true, c, t, lhs.operand);
    } else {
      IndexPlaceLater(c, lhs, scope, all, t, s, held);
    }
  }

  lemma IndexPlaceLater(c: Chk, lhs: Expr, scope: set<string>, all: set<string>, t: Ties, s: Run, held: set<Ref>)
    requires lhs.Index? && Scalar(lhs, scope, all) && !PlaceState(c, lhs).failed
    requires ClearPlace(true, c, t, lhs) && Full(scope, all, t, c.vars, s, held)
    ensures Placing(c, lhs, scope, all, t, s, held)
  {
    var s1 := Exec(lhs.base, s);
    var s2, c0 := Exec(lhs.index, s1), CheckExpr(c, lhs.base);
    PairGood(true, c, t, lhs.base, lhs.index);
    PairLater(true, c, lhs.base, lhs.index, scope, all, t, s, held);
    ArrayWasThere(true, c, t, lhs.base);
    assert Locate(lhs, s) == Yielding(s2, s1.value);
    ValueSame(lhs.base, s2, Yielding(s2, s1.value));
    YieldingLater(scope, all, t, c0.vars, s1, PlaceState(c, lhs).vars, s2, held, s1.value);
  }

  lemma YieldingLater(
    scope: set<string>, all: set<string>, t: Ties, vars: Vars, s: Run, vars': Vars, s': Run, held: set<Ref>, v: Value)
    requires Later(scope, all, t, vars, s, held, t, vars', s', held) && Spent(t, vars', s')
    ensures Later(scope, all, t, vars, s, held, t, vars', Yielding(s', v), held) && Full(scope, all, t, vars', Yielding(s', v), held)
  {
  }

  lemma {:induction false} AssignMissed(
    c: Chk, e: Expr, scope: set<string>, all: set<string>, t: Ties, s: Run, held: set<Ref>)
    requires e.Assign? && Scalar(e, scope, all) && Missed(true, c, t, e) && Led(true, c, t, e, s)
    requires Full(scope, all, t, c.vars, s, held)
    ensures Broken(Audit(Exec(e, s).trace), multiset(held))
    decreases e, 3
  {
    var lhs, rhs, c1, s1 := e.lhs, e.rhs, CheckExpr(c, e.lhs), Locate(e.lhs, s);
    AssignChecked(c, e, scope, all);
    AssignRuns(e, s);
    if !ClearPlace(true, c, t, lhs) || !Clear(true, c1, t, rhs) {
      SideMissed(c, e, scope, all, t, s, held);
      PlaceCalm(lhs, scope, all, s);
      ScalarCalm(rhs, scope, all, s1);
      StoreComesLater(s1, Exec(rhs, s1), held);
    } else {
      StoreMissed(c, e, scope, all, t, s, held);
    }
  }

  lemma StoreComesLater(s1: Run, s2: Run, held: set<Ref>)
    requires Broken(Audit(s2.trace), multiset(held)) && !s2.returned
    ensures Broken(Audit(Store(s1, s2).trace), multiset(held))
  {
    BrokenStays(s2.trace, Store(s1, s2).trace, multiset(held), multiset(held));
  }

  lemma AssignRuns(e: Expr, s: Run)
    requires e.Assign? && !s.returned
    ensures var s1 := Locate(e.lhs, s); Exec(e, s).trace == Store(s1, Exec(e.rhs, s1)).trace
  {
  }

  lemma {:induction false} SideMissed(
    c: Chk, e: Expr, scope: set<string>, all: set<string>, t: Ties, s: Run, held: set<Ref>)
    requires e.Assign? && Scalar(e, scope, all) && Missed(true, c, t, e) && Led(true, c, t, e, s)
    requires !ClearPlace(true, c, t, e.lhs) || !Clear(true, CheckExpr(c, e.lhs), t, e.rhs)
    requires Full(scope, all, t, c.vars, s, held)
    ensures Broken(Audit(Exec(e.rhs, Locate(e.lhs, s)).trace), multiset(held))
    decreases e, 2
  {
    var lhs, rhs, c1, s1 := e.lhs, e.rhs, CheckExpr(c, e.lhs), Locate(e.lhs, s);
    AssignChecked(c, e, scope, all);
    if !ClearPlace(true, c, t, lhs) {
      PlaceMissed(c, lhs, scope, all, t, s, held);
      PlaceCalm(lhs, scope, all, s);
      ScalarCalm(rhs, scope, all, s1);
      BrokenStays(s1.trace, Exec(rhs, s1).trace, multiset(held), multiset(held));
    } else {
      PlaceChecked(c, lhs);
      PlaceLater(c, lhs, scope, all, t, s, held);
      if !Straight(e) {
        PlaceOnward(lhs, scope, all, s, Path(c1, t, rhs));
      }
      ScalarMissed(true, c1, rhs, scope, all, t, s1, held);
    }
  }

  /** The last step of an assignment. */
  function Store(s1: Run, s2: Run): Run
  {
    Touch(Load(s2, s2.value), s1.value)
  }

  lemma StoreMissed(c: Chk, e: Expr, scope: set<string>, all: set<string>, t: Ties, s: Run, held: set<Ref>)
    requires e.Assign? && Scalar(e, scope, all) && Missed(true, c, t, e)
    requires ClearPlace(true, c, t, e.lhs) && Clear(true, CheckExpr(c, e.lhs), t, e.rhs)
    requires Full(scope, all, t, c.vars, s, held)
    ensures var s1 := Locate(e.lhs, s); !Audit(Store(s1, Exec(e.rhs, s1)).trace).legal
  {
    AssignChecked(c, e, scope, all);
    PlaceChecked(c, e.lhs);
    StoreBreaks(c, e, scope, all, t, s, held);
  }

  /** Both sides can be evaluated, but the store cannot be made. */
  lemma StoreBreaks(c: Chk, e: Expr, scope: set<string>, all: set<string>, t: Ties, s: Run, held: set<Ref>)
    requires e.Assign? && Scalar(e, scope, all) && Full(scope, all, t, c.vars, s, held)
    requires !PlaceState(c, e.lhs).failed && ClearPlace(true, c, t, e.lhs) && Good(true, PlaceState(c, e.lhs), t, e.rhs)
    requires var vars := CheckExpr(PlaceState(c, e.lhs), e.rhs).vars;
             !Loads(vars, t, e.rhs) || !Alive(vars, t, RootOf(t.roots, Through(e.lhs)))
    ensures var s1 := Locate(e.lhs, s); !Audit(Store(s1, Exec(e.rhs, s1)).trace).legal
  {
    var lhs, rhs, c1, s1 := e.lhs, e.rhs, PlaceState(c, e.lhs), Locate(e.lhs, s);
    var through := Through(lhs);
    PlaceLater(c, lhs, scope, all, t, s, held);
    ScalarLater(true, c1, rhs, scope, all, t, s1, held);
    var vars, s2 := CheckExpr(c1, rhs).vars, Exec(rhs, s1);
    ScalarInReach(rhs, scope, all);
    ScalarInReach(through, scope, all);
    ArrayWasThere(true, c1, t, rhs);
    ValueSame(through, s1, s2);
    LaterTwice(scope, all, t, held, CheckExpr(c, through).vars, Exec(through, s), c1.vars, s1, vars, s2);
    StaleStoreBreaks(scope, all, t, CheckExpr(c, through).vars, Exec(through, s), vars, s2, held, through, rhs);
  }

  lemma LaterTwice(
    scope: set<string>, all: set<string>, t: Ties, held: set<Ref>,
    vars: Vars, s: Run, vars': Vars, s': Run, vars'': Vars, s'': Run)
    requires Later(scope, all, t, vars, s, held, t, vars', s', held)
    requires Later(scope, all, t, vars', s', held, t, vars'', s'', held)
    ensures Later(scope, all, t, vars, s, held, t, vars'', s'', held)
  {
  }

  /** What is stored, or stored through, is gone by the time the right-hand side has been evaluated. */
  lemma StaleStoreBreaks(
    scope: set<string>, all: set<string>, t: Ties, vars: Vars, s: Run, vars': Vars, s': Run, held: set<Ref>,
    through: Expr, rhs: Expr)
    requires Later(scope, all, t, vars, s, held, t, vars', s', held) && Spent(t, vars, s) && Spent(t, vars', s')
    requires InReach(through, scope, all) && InReach(rhs, scope, all)
    requires through.Deref? && through.toArray ==> Alive(vars, t, RootOf(t.roots, through))
    requires rhs.Deref? && rhs.toArray ==> Alive(vars', t, RootOf(t.roots, rhs))
    requires Loads(vars', t, rhs) ==> !Alive(vars', t, RootOf(t.roots, through))
    ensures !Audit(Touch(Load(s', ValueOf(rhs, s')), ValueOf(through, s')).trace).legal
  {
    if Loads(vars', t, rhs) {
      StaleTouchBreaks(scope, all, t, vars, s, vars', s', held, through, rhs);
    } else {
      var s3 := Load(s', ValueOf(rhs, s'));
      TouchBreaks(scope, all, t, vars', s', vars', s', held, rhs);
      Stays(s3, Touch(s3, ValueOf(through, s')));
    }
  }

  lemma StaleTouchBreaks(
    scope: set<string>, all: set<string>, t: Ties, vars: Vars, s: Run, vars': Vars, s': Run, held: set<Ref>,
    through: Expr, rhs: Expr)
    requires Later(scope, all, t, vars, s, held, t, vars', s', held) && Spent(t, vars, s) && Spent(t, vars', s')
    requires InReach(through, scope, all)
    requires through.Deref? && through.toArray ==> Alive(vars, t, RootOf(t.roots, through))
    requires Loads(vars', t, rhs) && !Alive(vars', t, RootOf(t.roots, through))
    ensures !Audit(Touch(Load(s', ValueOf(rhs, s')), ValueOf(through, s')).trace).legal
  {
    var s3 := Load(s', ValueOf(rhs, s'));
    LoadLater(scope, all, t, vars', s', held, rhs);
    LaterTwice(scope, all, t, held, vars, s, vars', s', vars', s3);
    ValueSame(through, s', s3);
    TouchBreaks(scope, all, t, vars, s, vars', s3, held, through);
  }

  // ---------- Operands and arguments ----------

  /** The value read at once. */
  lemma ReadBreaks(
    walked: bool, c: Chk, e: Expr, scope: set<string>, all: set<string>, t: Ties, s: Run, held: set<Ref>)
    requires Scalar(e, scope, all) && Good(walked, c, t, e) && !Loads(After(walked, c, e).vars, t, e)
    requires Full(scope, all, t, c.vars, s, held)
    ensures var s1 := Exec(e, s); !Audit(Load(s1, s1.value).trace).legal
  {
    var vars, s1 := After(walked, c, e).vars, Exec(e, s);
    ScalarLater(walked, c, e, scope, all, t, s, held);
    ScalarInReach(e, scope, all);
    ArrayWasThere(walked, c, t, e);
    TouchBreaks(scope, all, t, vars, s1, vars, s1, held, e);
  }

  lemma {:induction false} OperandsMissed(
    walked: bool, c: Chk, es: seq<Expr>, scope: set<string>, all: set<string>, t: Ties, s: Run, held: set<Ref>)
    requires Operands(es, scope, all) && !ClearAll(walked, c, t, es) && OvertAll(walked, es)
    requires if walked then !CheckElements(c, es).failed && Ownerless(es, all) else FlatAll(es)
    requires walked && !StraightAll(es) ==> PathAll(c, t, es) <= s.choices
    requires Full(scope, all, t, c.vars, s, held)
    ensures Broken(Audit(ExecArgs(es, [], s).0.trace), multiset(held))
    decreases es, 0
  {
    var c1, s1 := After(walked, c, es[0]), Exec(es[0], s);
    var s2 := Load(s1, s1.value);
    var s3 := ExecArgs(es[1..], [], s2).0;
    if walked {
      assert CheckOwned(c, es[0]) == c1;
      ElementsGrow(c1, es[1..]);
    }
    ScalarCalm(es[0], scope, all, s);
    OperandsCalm(es[1..], scope, all, s2);
    if !Clear(walked, c, t, es[0]) {
      ScalarMissed(walked, c, es[0], scope, all, t, s, held);
      BrokenStays(s1.trace, s3.trace, multiset(held), multiset(held));
    } else if !Loads(c1.vars, t, es[0]) {
      ReadBreaks(walked, c, es[0], scope, all, t, s, held);
      Stays(s2, s3);
    } else {
      ScalarLater(walked, c, es[0], scope, all, t, s, held);
      LoadLater(scope, all, t, c1.vars, s1, held, es[0]);
      if walked && !StraightAll(es) {
        Onward(es[0], scope, all, s, PathAll(c1, t, es[1..]));
      }
      OperandsMissed(walked, c1, es[1..], scope, all, t, s2, held);
    }
  }

  lemma {:induction false} OwnedMissed(
    walked: bool, c: Chk, e: Expr, scope: set<string>, all: set<string>, t: Ties, s: Run, held: set<Ref>)
    requires Owned(e, scope, all) && !ClearOwned(walked, c, t, e) && Overt(walked, e) && (e.Var? ==> walked)
    requires if walked then !CheckOwned(c, e).failed else Flat(e)
    requires walked && !Straight(e) ==> PathOwned(c, t, e) <= s.choices
    requires Full(scope, all, t, c.vars, s, held)
    ensures var (s1, v) := Take(e, s);
            Calm(s, s1) && v.Some? && Broken(Audit(s1.trace), multiset(held))
    decreases e, 2
  {
    OwnedCalm(e, scope, all, s);
    var s1 := Take(e, s).0;
    if e.Alloc? {
      ScalarMissed(false, c, e.count, scope, all, t, s, held);
      ScalarCalm(e.count, scope, all, s);
      BrokenStays(Exec(e.count, s).trace, s1.trace, multiset(held), multiset(held));
    } else {
      assert CheckOwned(c, e) == CheckExpr(c, e);
      HandsMissed(walked, c, e, scope, all, t, s, held);
    }
  }

  lemma {:induction false} CallMissed(
    walked: bool, c: Chk, e: Expr, scope: set<string>, all: set<string>, t: Ties, s: Run, held: set<Ref>)
    requires e.Call? && Scalar(e, scope, all) && Missed(walked, c, t, e) && Led(walked, c, t, e, s)
    requires Full(scope, all, t, c.vars, s, held)
    ensures Broken(Audit(Exec(e, s).trace), multiset(held))
    decreases e, 3
  {
    if e.owned {
      DropsBreak(e, scope, all, s);
    } else {
      HandsMissed(walked, c, e, scope, all, t, s, held);
    }
  }

  lemma {:induction false} HandsMissed(
    walked: bool, c: Chk, e: Expr, scope: set<string>, all: set<string>, t: Ties, s: Run, held: set<Ref>)
    requires e.Call? && Args(e.args, e.takes, scope, all) && !ClearArgs(walked, c, t, e.args, e.takes)
    requires OvertArgs(walked, e.args, e.takes)
    requires if walked then !CheckArgs(c, e.args, e.takes).failed else FlatAll(e.args)
    requires walked && !StraightAll(e.args) ==> PathArgs(c, t, e.args, e.takes) <= s.choices
    requires Full(scope, all, t, c.vars, s, held)
    ensures Broken(Audit(Obtain(e, s).0.trace), multiset(held))
    decreases e, 0
  {
    var (s1, refs) := ExecArgs(e.args, e.takes, s);
    ArgsCalm(e.args, e.takes, scope, all, s);
    ArgsMissed(walked, c, e.args, e.takes, scope, all, t, s, held);
    BrokenPass(s1, refs, multiset(held));
    BrokenStays(Pass(s1, refs).trace, Obtain(e, s).0.trace, multiset(held), multiset(held));
  }

  lemma {:induction false} ArgsMissed(
    walked: bool, c: Chk, args: seq<Expr>, takes: seq<bool>, scope: set<string>, all: set<string>, t: Ties, s: Run,
    held: set<Ref>)
    requires Args(args, takes, scope, all) && !ClearArgs(walked, c, t, args, takes) && OvertArgs(walked, args, takes)
    requires if walked then !CheckArgs(c, args, takes).failed else FlatAll(args)
    requires walked && !StraightAll(args) ==> PathArgs(c, t, args, takes) <= s.choices
    requires Full(scope, all, t, c.vars, s, held)
    ensures var (s1, refs) := ExecArgs(args, takes, s);
            Broken(Audit(s1.trace), multiset(held) + multiset(refs))
    decreases args, 2
  {
    if takes == [] {
      OperandsMissed(false, c, args, scope, all, t, s, held);
      OperandsCalm(args, scope, all, s);
      assert multiset(held) + multiset([]) == multiset(held);
    } else if takes[0] {
      OwnedArgMissed(walked, c, args, takes, scope, all, t, s, held);
    } else {
      PlainArgMissed(walked, c, args, takes, scope, all, t, s, held);
    }
  }

  lemma {:induction false} PlainArgMissed(
    walked: bool, c: Chk, args: seq<Expr>, takes: seq<bool>, scope: set<string>, all: set<string>, t: Ties, s: Run,
    held: set<Ref>)
    requires args != [] && takes != [] && !takes[0]
    requires Args(args, takes, scope, all) && !ClearArgs(walked, c, t, args, takes) && OvertArgs(walked, args, takes)
    requires if walked then !CheckArgs(c, args, takes).failed else FlatAll(args)
    requires walked && !StraightAll(args) ==> PathArgs(c, t, args, takes) <= s.choices
    requires Full(scope, all, t, c.vars, s, held)
    ensures var (s1, refs) := ExecArgs(args, takes, s);
            Broken(Audit(s1.trace), multiset(held) + multiset(refs))
    decreases args, 1
  {
    var c1, s1 := After(walked, c, args[0]), Exec(args[0], s);
    var s2 := Load(s1, s1.value);
    var (s3, refs) := ExecArgs(args[1..], takes[1..], s2);
    if walked {
      ArgsGrow(c1, args[1..], takes[1..]);
    }
    ScalarCalm(args[0], scope, all, s);
    ArgsCalm(args[1..], takes[1..], scope, all, s2);
    if !Clear(walked, c, t, args[0]) {
      ScalarMissed(walked, c, args[0], scope, all, t, s, held);
      BrokenStays(s1.trace, s3.trace, multiset(held), multiset(held) + multiset(refs));
    } else if !Loads(c1.vars, t, args[0]) {
      ReadBreaks(walked, c, args[0], scope, all, t, s, held);
      Stays(s2, s3);
    } else {
      ScalarLater(walked, c, args[0], scope, all, t, s, held);
      LoadLater(scope, all, t, c1.vars, s1, held, args[0]);
      if walked && !StraightAll(args) {
        Onward(args[0], scope, all, s, PathArgs(c1, t, args[1..], takes[1..]));
      }
      ArgsMissed(walked, c1, args[1..], takes[1..], scope, all, t, s2, held);
    }
  }

  lemma {:induction false} OwnedArgMissed(
    walked: bool, c: Chk, args: seq<Expr>, takes: seq<bool>, scope: set<string>, all: set<string>, t: Ties, s: Run,
    held: set<Ref>)
    requires args != [] && takes != [] && takes[0]
    requires Args(args, takes, scope, all) && !ClearArgs(walked, c, t, args, takes) && OvertArgs(walked, args, takes)
    requires if walked then !CheckArgs(c, args, takes).failed else FlatAll(args)
    requires walked && !StraightAll(args) ==> PathArgs(c, t, args, takes) <= s.choices
    requires Full(scope, all, t, c.vars, s, held)
    ensures var (s1, refs) := ExecArgs(args, takes, s);
            Broken(Audit(s1.trace), multiset(held) + multiset(refs))
    decreases args, 1
  {
    var c1 := AfterOwned(walked, c, args[0]);
    var (s1, v) := Take(args[0], s);
    if walked {
      ArgsGrow(c1, args[1..], takes[1..]);
    }
    OwnedCalm(args[0], scope, all, s);
    var (s2, refs) := ExecArgs(args[1..], takes[1..], s1);
    ArgsCalm(args[1..], takes[1..], scope, all, s1);
    var due, now := multiset(held) + multiset([v.value] + refs), multiset(held) + multiset{v.value};
    assert due == now + multiset(refs);
    if !ClearOwned(walked, c, t, args[0]) {
      OwnedMissed(walked, c, args[0], scope, all, t, s, held);
      BrokenStays(s1.trace, s2.trace, multiset(held), due);
    } else {
      OwnedLater(walked, c, args[0], scope, all, t, s, held);
      if walked && !StraightAll(args) {
        OwnedOnward(args[0], scope, all, s, PathArgs(c1, Awaiting(t, args[0]), args[1..], takes[1..]));
      }
      ArgsMissed(walked, c1, args[1..], takes[1..], scope, all, Awaiting(t, args[0]), s1, held + {v.value});
      assert multiset(held + {v.value}) == now;
    }
  }

  // ---------- Statements and blocks ----------

  /** The name still belongs to an owner. */
  lemma HideBreaks(
    scope: set<string>, all: set<string>, t: Ties, vars: Vars, s: Run, name: string, r: Ref, moved: bool, held: set<Ref>)
    requires Inv(scope, all, t, vars, s, held) && r in held && name in scope && vars[name] == Unconsumed
    ensures !Audit(Bind(s, name, r, moved).trace).legal
  {
    var to := if moved then Ref(r.cell, s.supply) else r;
    var s1 := if moved then Emit(s, Move(r, to)).(supply := s.supply + 1) else s;
    AuditEmit(s, Move(r, to));
    AuditEmit(s1, Hide(s.env[name]));
    assert s.env[name] in Audit(s1.trace).live;
    assert Bind(s, name, r, moved).trace == Emit(s1, Hide(s.env[name])).trace;
  }

  lemma {:induction false} DefinitionMissed(
    c: Chk, e: Expr, scope: set<string>, all: set<string>, t: Ties, own: set<string>, s: Run, held: set<Ref>)
    requires e.VarDef? && e.linear && Stmt(e, scope, all) && !CheckStmt(c, e).failed && !ClearStmt(c, t, own, e)
    requires Overt(true, e) && Led(true, c, t, e, s) && Full(scope, all, t, c.vars, s, held) && own <= scope
    ensures Broken(Audit(Exec(e, s).trace), multiset(held))
    decreases e, 5
  {
    DefinitionChecked(c, t, own, e);
    OwnedCalm(e.init, scope, all, s);
    var (s1, v) := Take(e.init, s);
    if !ClearOwned(true, c, t, e.init) {
      OwnedMissed(true, c, e.init, scope, all, t, s, held);
      BrokenStays(s1.trace, Bind(s1, e.name, v.value, e.init.Var?).trace, multiset(held), multiset(held));
    } else {
      OwnedLater(true, c, e.init, scope, all, t, s, held);
      var vars, held1 := CheckOwned(c, e.init).vars, held + {v.value};
      HideBreaks(scope, all, Awaiting(t, e.init), vars, s1, e.name, v.value, e.init.Var?, held1);
    }
  }

  lemma {:induction false} StmtMissed(
    c: Chk, e: Expr, scope: set<string>, all: set<string>, t: Ties, own: set<string>, s: Run, held: set<Ref>)
    requires Stmt(e, scope, all) && !CheckStmt(c, e).failed && !ClearStmt(c, t, own, e)
    requires Overt(true, e) && Led(true, c, t, e, s) && Full(scope, all, t, c.vars, s, held) && own <= scope
    ensures Broken(Audit(Exec(e, s).trace), multiset(held))
    decreases e, 6
  {
    if e.VarDef? && e.linear {
      DefinitionMissed(c, e, scope, all, t, own, s, held);
    } else if e.VarDef? {
      DefinitionChecked(c, t, own, e);
      assert CheckOwned(c, e.init) == CheckExpr(c, e.init);
      ScalarMissed(true, c, e.init, scope, all, t, s, held);
    } else {
      assert !Discards(e);
      if e.If? || e.While? || e.For? || e.Case? {
        FlowMissed(c, e, scope, all, t, s, held);
      } else {
        ScalarMissed(true, c, e, scope, all, t, s, held);
      }
    }
  }

  lemma {:induction false} BlockMissed(
    c: Chk, b: seq<Expr>, outer: set<string>, scope: set<string>, all: set<string>, t: Ties, own: set<string>, s: Run,
    held: set<Ref>)
    requires Block(b, outer, scope, all) && scope == outer + own && t.pending <= outer
    requires !CheckBlock(c, b).failed && !ClearBlock(c, t, own, b) && OvertAll(true, b)
    requires !StraightAll(b) ==> PathBlock(c, t, own, b) <= s.choices
    requires Full(scope, all, t, c.vars, s, held)
    ensures Broken(Audit(ExecAll(b, s).trace), multiset(held))
    decreases b, 0
  {
    var c1, s1, inner := CheckStmt(c, b[0]), Exec(b[0], s), scope + Bound(b[0]);
    BlockGrows(c1, b[1..]);
    if !ClearStmt(c, t, own, b[0]) {
      StmtMissed(c, b[0], scope, all, t, own, s, held);
      RestRuns(b, outer, scope, all, s);
      BrokenStays(s1.trace, ExecAll(b, s).trace, multiset(held), multiset(held));
    } else {
      StmtLater(c, b[0], scope, all, t, own, s, held);
      if !StraightAll(b) {
        StmtOnward(b[0], scope, all, s, PathBlock(c1, TiesAfter(t, b[0]), own + Bound(b[0]), b[1..]));
      }
      BlockMissed(c1, b[1..], outer, inner, all, TiesAfter(t, b[0]), own + Bound(b[0]), s1, held);
    }
  }

  lemma RestRuns(b: seq<Expr>, outer: set<string>, scope: set<string>, all: set<string>, s: Run)
    requires b != [] && Block(b, outer, scope, all) && Running(s, all)
    ensures Exec(b[0], s).trace <= ExecAll(b, s).trace
  {
    StmtCalm(b[0], scope, all, s);
    StmtHides(b[0], scope, all);
    BlockCalm(b[1..], outer, scope + Bound(b[0]), all, Exec(b[0], s));
  }

  /** A block is left while one of its owners still has something. */
  lemma {:induction false} ForgetBreaks(b: seq<Expr>, s: Run, x: string)
    requires x in BoundAll(b) && x in s.env && s.env[x] in Audit(s.trace).live && !s.returned && !s.flat
    ensures !Audit(Forget(b, s).trace).legal
    decreases |b|
  {
    if b[0].VarDef? && b[0].linear && b[0].name in s.env {
      var s1 := Emit(s, Hide(s.env[b[0].name]));
      AuditEmit(s, Hide(s.env[b[0].name]));
      if b[0].name == x {
        ForgetCalm(b[1..], s1);
        Stays(s1, Forget(b, s));
      } else {
        ForgetBreaks(b[1..], s1, x);
      }
    } else {
      ForgetBreaks(b[1..], s, x);
    }
  }

  lemma {:induction false} InnerMissed(
    c: Chk, b: seq<Expr>, scope: set<string>, all: set<string>, t: Ties, s: Run, held: set<Ref>, open: bool)
    requires Block(b, scope, scope, all) && !CheckBlock(c, b).failed && !ClearInner(c, t, b) && OvertAll(true, b)
    requires PathBlock(c, t, {}, b) <= s.choices && Full(scope, all, t, c.vars, s, held)
    ensures Broken(Audit(Inner(b, s, open).trace), multiset(held))
    decreases b, 1
  {
    var s0 := Yielding(s, Nothing);
    var s1 := ExecAll(b, s0);
    assert scope == scope + {};
    BlockCalm(b, scope, scope, all, s0);
    ForgetCalm(b, s1);
    if !ClearBlock(c, t, {}, b) {
      BlockMissed(c, b, scope, scope, all, t, {}, s0, held);
      BrokenStays(s1.trace, Forget(b, s1).trace, multiset(held), multiset(held));
    } else {
      BlockLater(c, b, scope, scope, all, t, {}, s0, held);
      ScopeGrows(b, scope);
      var vars := CheckBlock(c, b).vars;
      var x :| x in BoundAll(b) && x in vars && vars[x] == Unconsumed;
      ForgetBreaks(b, s1, x);
    }
  }

  // ---------- Branches and loops ----------

  lemma {:induction false} FlowMissed(
    c: Chk, e: Expr, scope: set<string>, all: set<string>, t: Ties, s: Run, held: set<Ref>)
    requires Flow(e, scope, all) && Missed(true, c, t, e) && Led(true, c, t, e, s) && Full(scope, all, t, c.vars, s, held)
    ensures Broken(Audit(Exec(e, s).trace), multiset(held))
    decreases e, 3
  {
    match e
    case If(_, _, _) => IfMissed(c, e, scope, all, t, s, held);
    case While(_, _) => WhileMissed(c, e, scope, all, t, s, held);
    case For(_, _, _, _) => ForMissed(c, e, scope, all, t, s, held);
    case Case(_, _) => CaseMissed(c, e, scope, all, t, s, held);
  }

  /** The run goes on after the condition or the scrutinee. */
  lemma HeadRuns(e: Expr, scope: set<string>, all: set<string>, s: Run)
    requires (e.If? || e.Case?) && Flow(e, scope, all) && Running(s, all)
    ensures var head := if e.If? then e.cond else e.scrutinee;
            Calm(s, Exec(head, s)) && Exec(head, s).trace <= Exec(e, s).trace
  {
    var head := if e.If? then e.cond else e.scrutinee;
    ScalarCalm(head, scope, all, s);
    var (k, s1) := Choose(Exec(head, s));
    if e.If? && k != 0 {
      InnerCalm(e.thn, scope, all, s1, true);
    } else if e.If? && e.els.Else? {
      InnerCalm(e.els.body, scope, all, s1, true);
    } else if e.Case? && e.arms != [] {
      ArmBlock(e.arms, k % |e.arms|, scope, all);
      InnerCalm(e.arms[k % |e.arms|].body, scope, all, s1, true);
    }
  }

  lemma {:induction false} IfMissed(
    c: Chk, e: Expr, scope: set<string>, all: set<string>, t: Ties, s: Run, held: set<Ref>)
    requires e.If? && Flow(e, scope, all) && Missed(true, c, t, e) && Led(true, c, t, e, s)
    requires Full(scope, all, t, c.vars, s, held)
    ensures Broken(Audit(Exec(e, s).trace), multiset(held))
    decreases e, 2
  {
    ConditionalHead(c, e, scope, all);
    HeadRuns(e, scope, all, s);
    if !Clear(true, c, t, e.cond) {
      ScalarMissed(true, c, e.cond, scope, all, t, s, held);
      BrokenStays(Exec(e.cond, s).trace, Exec(e, s).trace, multiset(held), multiset(held));
    } else {
      ScalarLater(true, c, e.cond, scope, all, t, s, held);
      BranchMissed(c, e, scope, all, t, s, held);
    }
  }

  lemma {:induction false} BranchMissed(
    c: Chk, e: Expr, scope: set<string>, all: set<string>, t: Ties, s: Run, held: set<Ref>)
    requires e.If? && Flow(e, scope, all) && Missed(true, c, t, e) && Led(true, c, t, e, s) && Clear(true, c, t, e.cond)
    requires Running(s, all) && scope <= c.vars.Keys <= all
    requires Full(scope, all, t, CheckExpr(c, e.cond).vars, Exec(e.cond, s), held)
    ensures Broken(Audit(Exec(e, s).trace), multiset(held))
    decreases e, 1
  {
    var c0 := CheckExpr(c, e.cond);
    ConditionalHead(c, e, scope, all);
    if !ClearInner(c0, t, e.thn) {
      var p := PathBlock(c0, t, {}, e.thn);
      Onward(e.cond, scope, all, s, [1] + p);
      FirstChoice(Exec(e.cond, s), 1, p);
      InnerMissed(c0, e.thn, scope, all, t, Choose(Exec(e.cond, s)).1, held, true);
    } else {
      ElseMissed(c, e, scope, all, t, s, held);
    }
  }

  lemma {:induction false} ElseMissed(
    c: Chk, e: Expr, scope: set<string>, all: set<string>, t: Ties, s: Run, held: set<Ref>)
    requires e.If? && Flow(e, scope, all) && Missed(true, c, t, e) && Led(true, c, t, e, s) && Clear(true, c, t, e.cond)
    requires Running(s, all) && scope <= c.vars.Keys <= all && ClearInner(CheckExpr(c, e.cond), t, e.thn)
    requires Full(scope, all, t, CheckExpr(c, e.cond).vars, Exec(e.cond, s), held)
    ensures Broken(Audit(Exec(e, s).trace), multiset(held))
    decreases e, 0
  {
    var c0 := CheckExpr(c, e.cond);
    var c1 := CheckBlock(c0, e.thn);
    var c2 := c1.(vars := Overwrite(c1.vars, c0.vars));
    var p := PathBlock(c2, t, {}, e.els.body);
    ConditionalHead(c, e, scope, all);
    Onward(e.cond, scope, all, s, [0] + p);
    FirstChoice(Exec(e.cond, s), 0, p);
    var s1 := Choose(Exec(e.cond, s)).1;
    FullSame(scope, all, t, c0.vars, c2.vars, s1, held);
    InnerMissed(c2, e.els.body, scope, all, t, s1, held, true);
  }

  lemma {:induction false} WhileMissed(
    c: Chk, e: Expr, scope: set<string>, all: set<string>, t: Ties, s: Run, held: set<Ref>)
    requires e.While? && Flow(e, scope, all) && Missed(true, c, t, e) && Led(true, c, t, e, s)
    requires Full(scope, all, t, c.vars, s, held)
    ensures Broken(Audit(Exec(e, s).trace), multiset(held))
    decreases e, 2
  {
    var s1, c0 := Choose(s).1, CheckExpr(c, e.cond);
    LoopLeaves(c, e, scope, all);
    if !Clear(true, c, t, e.cond) {
      ScalarMissed(true, c, e.cond, scope, all, t, s1, held);
      assert Exec(e, s).trace == Exec(e.cond, s1).trace;
    } else {
      ScalarLater(true, c, e.cond, scope, all, t, s1, held);
      Onward(e.cond, scope, all, s1, PathBlock(c0, t, {}, e.body));
      var s2 := Exec(e.cond, s1);
      InnerMissed(c0, e.body, scope, all, t, s2, held, true);
      InnerCalm(e.body, scope, all, s2, true);
      var s3 := Inner(e.body, s2, true);
      ScalarCalm(e.cond, scope, all, s3);
      OneRound(e, s);
      BrokenStays(s3.trace, Exec(e.cond, s3).trace, multiset(held), multiset(held));
    }
  }

  lemma OneRound(e: Expr, s: Run)
    requires e.While? && !s.returned && s.choices != [] && s.choices[0] == 1
    ensures var s2 := Exec(e.cond, Choose(s).1);
            Exec(e, s).trace == Exec(e.cond, Inner(e.body, s2, true)).trace
  {
    var s1 := Choose(s).1;
    assert Iterate(e, 1, s1) == Iterate(e, 0, Inner(e.body, Exec(e.cond, s1), true));
  }

  lemma {:induction false} ForMissed(
    c: Chk, e: Expr, scope: set<string>, all: set<string>, t: Ties, s: Run, held: set<Ref>)
    requires e.For? && Flow(e, scope, all) && Missed(true, c, t, e) && Led(true, c, t, e, s)
    requires Full(scope, all, t, c.vars, s, held)
    ensures Broken(Audit(Exec(e, s).trace), multiset(held))
    decreases e, 2
  {
    var c1, s2 := CheckExpr(c, e.start), Exec(e.stop, Exec(e.start, s));
    var (n, s3) := Choose(s2);
    LoopLeaves(c, e, scope, all);
    ScalarCalm(e.start, scope, all, s);
    ScalarCalm(e.stop, scope, all, Exec(e.start, s));
    if !Clear(true, c, t, e.start) || !Clear(true, c1, t, e.stop) {
      PairMissed(true, c, e, e.start, e.stop, scope, all, t, s, held);
      IterateCalm(e, n, scope, all, s3);
      BrokenStays(s2.trace, Exec(e, s).trace, multiset(held), multiset(held));
    } else {
      ForBodyMissed(c, e, scope, all, t, s, held);
    }
  }

  lemma {:induction false} ForBodyMissed(
    c: Chk, e: Expr, scope: set<string>, all: set<string>, t: Ties, s: Run, held: set<Ref>)
    requires e.For? && Flow(e, scope, all) && Missed(true, c, t, e) && Led(true, c, t, e, s)
    requires Clear(true, c, t, e.start) && Clear(true, CheckExpr(c, e.start), t, e.stop)
    requires Full(scope, all, t, c.vars, s, held)
    ensures Broken(Audit(Exec(e, s).trace), multiset(held))
    decreases e, 1
  {
    var c2, s2 := LoopHead(c, e), Exec(e.stop, Exec(e.start, s));
    var p := PathBlock(c2, t, {}, e.body);
    ForPath(c, e, t);
    LoopLeaves(c, e, scope, all);
    ForHeadLater(c, e, scope, all, t, s, held);
    PairOnward(e.start, e.stop, scope, all, s, [1] + p);
    OneForRound(e, s, p);
    InnerMissed(c2, e.body, scope, all, t, Choose(s2).1, held, false);
  }

  lemma ForHeadLater(c: Chk, e: Expr, scope: set<string>, all: set<string>, t: Ties, s: Run, held: set<Ref>)
    requires e.For? && Flow(e, scope, all) && !LoopHead(c, e).failed && Full(scope, all, t, c.vars, s, held)
    requires Clear(true, c, t, e.start) && Clear(true, CheckExpr(c, e.start), t, e.stop)
    ensures var (n, s3) := Choose(Exec(e.stop, Exec(e.start, s))); Full(scope, all, t, LoopHead(c, e).vars, s3, held)
  {
    PairGood(true, c, t, e.start, e.stop);
    PairLater(true, c, e.start, e.stop, scope, all, t, s, held);
  }

  lemma ForPath(c: Chk, e: Expr, t: Ties)
    requires e.For? && Missed(true, c, t, e) && Clear(true, c, t, e.start) && Clear(true, CheckExpr(c, e.start), t, e.stop)
    ensures var c2 := LoopHead(c, e);
            && Path(c, t, e) == Zeroes(Skips(e.start)) + (Zeroes(Skips(e.stop)) + ([1] + PathBlock(c2, t, {}, e.body)))
            && !ClearInner(c2, t, e.body) && OvertAll(true, e.body)
  {
    TwoParts(Skips(e.start), Skips(e.stop), [1] + PathBlock(LoopHead(c, e), t, {}, e.body));
  }

  lemma OneForRound(e: Expr, s: Run, p: seq<nat>)
    requires e.For? && !s.returned && [1] + p <= Exec(e.stop, Exec(e.start, s)).choices
    ensures var s3 := Choose(Exec(e.stop, Exec(e.start, s))).1;
            p <= s3.choices && Exec(e, s).trace == Inner(e.body, s3, false).trace
  {
    var s2 := Exec(e.stop, Exec(e.start, s));
    FirstChoice(s2, 1, p);
    var s3 := Choose(s2).1;
    assert Iterate(e, 1, s3) == Iterate(e, 0, Inner(e.body, s3, false));
    assert Exec(e, s) == Yielding(Iterate(e, 1, s3), Nothing);
  }

  lemma PairOnward(lhs: Expr, rhs: Expr, scope: set<string>, all: set<string>, s: Run, p: seq<nat>)
    requires Scalar(lhs, scope, all) && Scalar(rhs, scope, all) && Running(s, all)
    requires Zeroes(Skips(lhs)) + (Zeroes(Skips(rhs)) + p) <= s.choices
    ensures p <= Exec(rhs, Exec(lhs, s)).choices
  {
    Onward(lhs, scope, all, s, Zeroes(Skips(rhs)) + p);
    ScalarCalm(lhs, scope, all, s);
    Onward(rhs, scope, all, Exec(lhs, s), p);
  }

  /** The first arm to go wrong. */
  lemma {:induction false} FirstArm(
    c: Chk, before: Vars, t: Ties, arms: seq<Arm>, k: nat, scope: set<string>, all: set<string>)
    returns (i: nat, c0: Chk)
    requires Arms(arms, scope, all) && before.Keys <= c.vars.Keys <= all && scope <= before.Keys
    requires !CheckArms(c, before, arms).0.failed && !ClearArms(c, before, t, arms) && OvertArms(true, arms)
    ensures i < |arms| && PathArms(c, before, t, arms, k) == [k + i] + PathBlock(c0, t, {}, arms[i].body)
    ensures !CheckBlock(c0, arms[i].body).failed && !ClearInner(c0, t, arms[i].body) && OvertAll(true, arms[i].body)
    ensures scope <= c0.vars.Keys <= all && forall x | x in scope :: c0.vars[x] == before[x]
    decreases arms
  {
    c0 := c.(vars := Overwrite(c.vars, before));
    var c1 := CheckBlock(c0, arms[0].body);
    BlockGrows(c0, arms[0].body);
    BlockHides(arms[0].body, scope, scope, all);
    ArmsGrow(c1, before, arms[1..]);
    i := 0;
    if ClearInner(c0, t, arms[0].body) {
      i, c0 := FirstArm(c1, before, t, arms[1..], k + 1, scope, all);
      i := i + 1;
    }
  }

  lemma {:induction false} CaseMissed(
    c: Chk, e: Expr, scope: set<string>, all: set<string>, t: Ties, s: Run, held: set<Ref>)
    requires e.Case? && Flow(e, scope, all) && Missed(true, c, t, e) && Led(true, c, t, e, s)
    requires Full(scope, all, t, c.vars, s, held)
    ensures Broken(Audit(Exec(e, s).trace), multiset(held))
    decreases e, 2
  {
    var c0, head := CheckExpr(c, e.scrutinee), e.scrutinee;
    CaseHead(c, e, scope, all);
    HeadRuns(e, scope, all, s);
    if !Clear(true, c, t, head) {
      ScalarMissed(true, c, head, scope, all, t, s, held);
      BrokenStays(Exec(head, s).trace, Exec(e, s).trace, multiset(held), multiset(held));
    } else {
      ScalarLater(true, c, head, scope, all, t, s, held);
      ArmMissed(c, e, scope, all, t, s, held);
    }
  }

  lemma {:induction false} ArmMissed(
    c: Chk, e: Expr, scope: set<string>, all: set<string>, t: Ties, s: Run, held: set<Ref>)
    requires e.Case? && Flow(e, scope, all) && Missed(true, c, t, e) && Led(true, c, t, e, s)
    requires Running(s, all) && scope <= c.vars.Keys <= all && Clear(true, c, t, e.scrutinee)
    requires Full(scope, all, t, CheckExpr(c, e.scrutinee).vars, Exec(e.scrutinee, s), held)
    ensures Broken(Audit(Exec(e, s).trace), multiset(held))
    decreases e, 1
  {
    var c0, head := CheckExpr(c, e.scrutinee), e.scrutinee;
    CaseHead(c, e, scope, all);
    var i, ci := FirstArm(c0, c0.vars, t, e.arms, 0, scope, all);
    var p := PathBlock(ci, t, {}, e.arms[i].body);
    CasePath(c, t, e);
    Onward(head, scope, all, s, [i] + p);
    var s1 := Choose(Exec(head, s)).1;
    ArmRuns(e, s, i, p);
    ArmBlock(e.arms, i, scope, all);
    FullSame(scope, all, t, c0.vars, ci.vars, s1, held);
    InnerMissed(ci, e.arms[i].body, scope, all, t, s1, held, true);
  }

  lemma CasePath(c: Chk, t: Ties, e: Expr)
    requires e.Case? && Clear(true, c, t, e.scrutinee)
    ensures var c0 := CheckExpr(c, e.scrutinee);
            Path(c, t, e) == Zeroes(Skips(e.scrutinee)) + PathArms(c0, c0.vars, t, e.arms, 0)
  {
  }

  lemma SmallRest(i: nat, n: nat)
    requires i < n
    ensures i % n == i
  {
  }

  lemma ArmRuns(e: Expr, s: Run, i: nat, p: seq<nat>)
    requires e.Case? && i < |e.arms| && !s.returned && [i] + p <= Exec(e.scrutinee, s).choices
    ensures var s1 := Choose(Exec(e.scrutinee, s)).1;
            p <= s1.choices && Exec(e, s).trace == Inner(e.arms[i].body, s1, true).trace
  {
    FirstChoice(Exec(e.scrutinee, s), i, p);
    SmallRest(i, |e.arms|);
    ChosenArm(e, s, i);
  }

  lemma ChosenArm(e: Expr, s: Run, i: nat)
    requires e.Case? && i < |e.arms| && !s.returned && Choose(Exec(e.scrutinee, s)).0 % |e.arms| == i
    ensures Exec(e, s) == Inner(e.arms[i].body, Choose(Exec(e.scrutinee, s)).1, true)
  {
    var (k, s1) := Choose(Exec(e.scrutinee, s));
    assert Exec(e, s) == Inner(e.arms[k % |e.arms|].body, s1, true);
  }
}
