/** The ownership checker: a map from owning variables to their state, updated while the body of a
    function is walked, copied and restored around branches and loops. */
module LinearChecker {
  import opened LinearSyntax

  datatype VarState = Unconsumed | Consumed

  type Vars = map<string, VarState>

  /** What one pass of the checker has learnt: the state of each registered owner, and whether an
      error has been reported. */
  datatype Chk = Chk(vars: Vars, failed: bool)

  // ---------- Specification of one pass ----------

  function Register(c: Chk, name: string, linear: bool): Chk
  {
    if linear then c.(vars := c.vars[name := Unconsumed]) else c
  }

  function Consume(c: Chk, name: string): Chk
    requires name in c.vars
  {
    if c.vars[name] == Consumed then c.(failed := true) else c.(vars := c.vars[name := Consumed])
  }

  /** Keep the names of `m`, taking the states recorded in `snap` where there are any. */
  function Overwrite(m: Vars, snap: Vars): Vars
  {
    map x | x in m :: if x in snap then snap[x] else m[x]
  }

  predicate SomeBranch(branches: seq<Vars>, name: string, state: VarState)
  {
    exists b | b in branches :: name in b && b[name] == state
  }

  predicate Mismatch(branches: seq<Vars>, name: string)
  {
    SomeBranch(branches, name, Consumed) && SomeBranch(branches, name, Unconsumed)
  }

  predicate Pending(before: Vars, name: string)
  {
    name in before && before[name] == Unconsumed
  }

  /** Merge the branches' final states for the given names into the state before them. */
  function MergeOn(c: Chk, names: set<string>, before: Vars, branches: seq<Vars>): Chk
  {
    Chk(map x | x in c.vars ::
          if x in names && Pending(before, x) && SomeBranch(branches, x, Consumed) then Consumed else c.vars[x],
        c.failed || exists x | x in names :: Pending(before, x) && Mismatch(branches, x))
  }

  function Merge(c: Chk, before: Vars, branches: seq<Vars>): Chk
  {
    MergeOn(c.(vars := Overwrite(c.vars, before)), before.Keys, before, branches)
  }

  /** Leave a loop whose body ended in `c`: no owner from outside may have been consumed. */
  function LeaveLoop(c: Chk, before: Vars): Chk
  {
    Chk(Overwrite(c.vars, before),
        c.failed || exists x | x in before :: Pending(before, x) && x in c.vars && c.vars[x] == Consumed)
  }

  function CheckExpr(c: Chk, e: Expr): Chk
    decreases e, 1
  {
    match e
    case Leaf | Var(_) | ArrayVar(_) | Opaque(_) | Alloc(_) => c
    case Literal(elements) => CheckElements(c, elements)
    case Call(args, takes, _) => CheckArgs(c, args, takes)
    case Free(operand) => CheckOwned(c, operand)
    case Deref(operand, _) => CheckPlace(c, operand)
    case Index(base, index) =>
      if base.Var? && base.name in c.vars && c.vars[base.name] == Consumed then c.(failed := true)
      else CheckExpr(CheckExpr(c, base), index)
    case AddrOf(operand, linear) => if linear then c.(failed := true) else CheckExpr(c, operand)
    case Binary(lhs, rhs) => CheckExpr(CheckExpr(c, lhs), rhs)
    case Assign(lhs, rhs, escapes) =>
      var c1 := CheckExpr(c, lhs);
      if escapes then c1.(failed := true) else CheckOwned(c1, rhs)
    case VarDef(name, linear, init) => Register(CheckOwned(c, init), name, linear)
    case Return(result, escapes) =>
      if escapes && !(result.Var? && result.name in c.vars) then c.(failed := true) else CheckOwned(c, result)
    case If(cond, thn, els) =>
      var c0 := CheckExpr(c, cond);
      var c1 := CheckBlock(c0, thn);
      var c2 := c1.(vars := Overwrite(c1.vars, c0.vars));
      (match els
       case NoElse => Merge(c2, c0.vars, [c1.vars, c0.vars])
       case Else(body) =>
         var c3 := CheckBlock(c2, body);
         Merge(c3, c0.vars, [c1.vars, c3.vars]))
    case While(cond, body) => LeaveLoop(CheckBlock(CheckExpr(c, cond), body), c.vars)
    case For(_, start, stop, body) =>
      LeaveLoop(CheckBlock(CheckExpr(CheckExpr(c, start), stop), body), c.vars)
    case Case(scrutinee, arms) =>
      var c0 := CheckExpr(c, scrutinee);
      var (c1, ends) := CheckArms(c0, c0.vars, arms);
      Merge(c1, c0.vars, ends)
  }

  /** An operand in a consuming position: a registered owner is consumed, anything else is walked. */
  function CheckOwned(c: Chk, e: Expr): Chk
    decreases e, 2
  {
    if e.Var? && e.name in c.vars then Consume(c, e.name) else CheckExpr(c, e)
  }

  /** An operand that is only looked through: a consumed owner is an error. */
  function CheckPlace(c: Chk, e: Expr): Chk
    decreases e, 2
  {
    if e.Var? && e.name in c.vars && c.vars[e.name] == Consumed then c.(failed := true) else CheckExpr(c, e)
  }

  /** Elements of a literal: an owner among them is moved into it. */
  function CheckElements(c: Chk, es: seq<Expr>): Chk
    decreases es, 0
  {
    if es == [] then c else CheckElements(CheckOwned(c, es[0]), es[1..])
  }

  function CheckArgs(c: Chk, args: seq<Expr>, takes: seq<bool>): Chk
    decreases args, 0
  {
    if args == [] || takes == [] then c
    else
      var c1 := if takes[0] then CheckOwned(c, args[0]) else CheckExpr(c, args[0]);
      CheckArgs(c1, args[1..], takes[1..])
  }

  /** Statements whose owned value nobody receives. */
  predicate Discards(e: Expr)
  {
    e.Alloc? || (e.Call? && e.owned)
  }

  function CheckStmt(c: Chk, e: Expr): Chk
    decreases e, 2
  {
    var c1 := CheckExpr(c, e);
    if Discards(e) then c1.(failed := true) else c1
  }

  function CheckBlock(c: Chk, b: seq<Expr>): Chk
    decreases b, 0
  {
    if b == [] then c else CheckBlock(CheckStmt(c, b[0]), b[1..])
  }

  /** Check every arm from the same state; also collect the state each arm ends in. */
  function CheckArms(c: Chk, before: Vars, arms: seq<Arm>): (Chk, seq<Vars>)
    decreases arms, 0
  {
    if arms == [] then (c, [])
    else
      var c1 := CheckBlock(c.(vars := Overwrite(c.vars, before)), arms[0].body);
      var (c2, ends) := CheckArms(c1, before, arms[1..]);
      (c2, [c1.vars] + ends)
  }

  function Enter(params: seq<Param>, vars: Vars): Vars
  {
    if params == [] then vars
    else Enter(params[1..], if params[0].linear then vars[params[0].name := Unconsumed] else vars)
  }

  /** The state in which the check of a function's body ends. */
  function BodyState(f: Function): Chk
  {
    CheckBlock(Chk(Enter(f.params, map[]), false), f.body)
  }

  /** No error is reported for the function. */
  predicate Accepts(f: Function)
  {
    var c := BodyState(f);
    !c.failed && forall x | x in c.vars :: c.vars[x] == Consumed
  }

  // ---------- What every pass preserves ----------

  /** `d` knows every name of `c` and at most the names of `declared` besides; errors stay, and a consumed
      owner stays consumed unless it is declared again. */
  ghost predicate Grows(c: Chk, d: Chk, declared: set<string>)
  {
    && c.vars.Keys <= d.vars.Keys <= c.vars.Keys + declared
    && (c.failed ==> d.failed)
    && forall y | y in c.vars && y !in declared && c.vars[y] == Consumed :: d.vars[y] == Consumed
  }

  lemma {:induction false} ExprGrows(c: Chk, e: Expr)
    ensures Grows(c, CheckExpr(c, e), Decls(e))
    decreases e, 1
  {
    match e
    case Leaf | Var(_) | ArrayVar(_) | Opaque(_) | Alloc(_) =>
    case Literal(elements) => ElementsGrow(c, elements);
    case Call(args, takes, _) => ArgsGrow(c, args, takes);
    case Free(operand) => OwnedGrows(c, operand);
    case Deref(operand, _) => ExprGrows(c, operand);
    case Index(base, index) =>
      ExprGrows(c, base);
      ExprGrows(CheckExpr(c, base), index);
    case AddrOf(operand, _) => ExprGrows(c, operand);
    case Binary(lhs, rhs) =>
      ExprGrows(c, lhs);
      ExprGrows(CheckExpr(c, lhs), rhs);
    case Assign(lhs, rhs, _) =>
      ExprGrows(c, lhs);
      OwnedGrows(CheckExpr(c, lhs), rhs);
    case VarDef(_, _, init) => OwnedGrows(c, init);
    case Return(result, _) => OwnedGrows(c, result);
    case If(_, _, _) => IfGrows(c, e);
    case While(cond, body) =>
      ExprGrows(c, cond);
      BlockGrows(CheckExpr(c, cond), body);
    case For(_, _, _, _) => ForGrows(c, e);
    case Case(scrutinee, arms) =>
      ExprGrows(c, scrutinee);
      var c0 := CheckExpr(c, scrutinee);
      ArmsGrow(c0, c0.vars, arms);
  }

  lemma {:induction false} IfGrows(c: Chk, e: Expr)
    requires e.If?
    ensures Grows(c, CheckExpr(c, e), Decls(e))
    decreases e, 0
  {
    var c0 := CheckExpr(c, e.cond);
    var c1 := CheckBlock(c0, e.thn);
    ExprGrows(c, e.cond);
    BlockGrows(c0, e.thn);
    if e.els.Else? {
      BlockGrows(c1.(vars := Overwrite(c1.vars, c0.vars)), e.els.body);
    }
  }

  lemma {:induction false} ForGrows(c: Chk, e: Expr)
    requires e.For?
    ensures Grows(c, CheckExpr(c, e), Decls(e))
    decreases e, 0
  {
    var c1 := CheckExpr(c, e.start);
    ExprGrows(c, e.start);
    ExprGrows(c1, e.stop);
    BlockGrows(CheckExpr(c1, e.stop), e.body);
  }

  lemma {:induction false} OwnedGrows(c: Chk, e: Expr)
    ensures Grows(c, CheckOwned(c, e), Decls(e))
    decreases e, 2
  {
    ExprGrows(c, e);
  }

  lemma {:induction false} ElementsGrow(c: Chk, es: seq<Expr>)
    ensures Grows(c, CheckElements(c, es), DeclsAll(es))
    decreases es, 0
  {
    if es != [] {
      OwnedGrows(c, es[0]);
      ElementsGrow(CheckOwned(c, es[0]), es[1..]);
    }
  }

  lemma {:induction false} ArgsGrow(c: Chk, args: seq<Expr>, takes: seq<bool>)
    ensures Grows(c, CheckArgs(c, args, takes), DeclsAll(args))
    decreases args, 0
  {
    if args != [] && takes != [] {
      var c1 := if takes[0] then CheckOwned(c, args[0]) else CheckExpr(c, args[0]);
      OwnedGrows(c, args[0]);
      ExprGrows(c, args[0]);
      ArgsGrow(c1, args[1..], takes[1..]);
    }
  }

  lemma {:induction false} BlockGrows(c: Chk, b: seq<Expr>)
    ensures Grows(c, CheckBlock(c, b), DeclsAll(b))
    decreases b, 0
  {
    if b != [] {
      ExprGrows(c, b[0]);
      BlockGrows(CheckStmt(c, b[0]), b[1..]);
    }
  }

  lemma {:induction false} ArmsGrow(c: Chk, before: Vars, arms: seq<Arm>)
    ensures Grows(c.(vars := Overwrite(c.vars, before)),
                  Chk(Overwrite(CheckArms(c, before, arms).0.vars, before), CheckArms(c, before, arms).0.failed),
                  DeclsArms(arms))
    ensures |CheckArms(c, before, arms).1| == |arms|
    decreases arms, 0
  {
    if arms != [] {
      BlockGrows(c.(vars := Overwrite(c.vars, before)), arms[0].body);
      var c1 := CheckBlock(c.(vars := Overwrite(c.vars, before)), arms[0].body);
      ArmsGrow(c1, before, arms[1..]);
    }
  }

  lemma MergeOneMore(c: Chk, names: set<string>, name: string, before: Vars, branches: seq<Vars>)
    requires name in before
    ensures var m := MergeOn(c, names, before, branches);
            var n := MergeOn(c, names + {name}, before, branches);
            if before[name] == Unconsumed then
              && n.failed == (m.failed || Mismatch(branches, name))
              && n.vars == (if name in m.vars && SomeBranch(branches, name, Consumed) then m.vars[name := Consumed] else m.vars)
            else n == m
  {
    var m := MergeOn(c, names, before, branches);
    var n := MergeOn(c, names + {name}, before, branches);
    if Pending(before, name) && Mismatch(branches, name) {
      assert name in names + {name};
    }
    assert forall x | x in names :: x in names + {name};
    assert n.failed == (m.failed || (Pending(before, name) && Mismatch(branches, name)));
  }

  // ---------- The checker ----------

  ghost function Merged(scopes: seq<Vars>): Vars
  {
    if scopes == [] then map[] else Merged(scopes[..|scopes| - 1]) + scopes[|scopes| - 1]
  }

  class LinearTypeChecker {
    var scopes: seq<Vars>
    var loopDepth: int
    var failed: bool

    constructor ()
      ensures scopes == [] && loopDepth == 0 && !failed
    {
      scopes, loopDepth, failed := [], 0, false;
    }

    /** Only the entry point opens a scope, so every walk of a body runs with exactly one. */
    ghost predicate InBody()
      reads this
    {
      |scopes| == 1
    }

    ghost function State(): Chk
      reads this
      requires InBody()
    {
      Chk(scopes[0], failed)
    }

    method PushScope()
      modifies this`scopes
      ensures scopes == old(scopes) + [map[]]
    {
      scopes := scopes + [map[]];
    }

    method PopScopeAndCheck()
      modifies this`scopes, this`failed
      ensures old(scopes) == [] ==> scopes == [] && failed == old(failed)
      ensures old(scopes) != [] ==>
                var top := old(scopes)[|old(scopes)| - 1];
                && scopes == old(scopes)[..|old(scopes)| - 1]
                && failed == (old(failed) || exists x | x in top :: top[x] == Unconsumed)
    {
      if scopes == [] {
        return;
      }
      var top := scopes[|scopes| - 1];
      var names := top.Keys;
      while names != {}
        invariant names <= top.Keys
        invariant scopes == old(scopes)
        invariant failed == (old(failed) || exists x | x in top.Keys - names :: top[x] == Unconsumed)
      {
        var name :| name in names;
        if top[name] == Unconsumed {
          failed := true;
        }
        names := names - {name};
      }
      scopes := scopes[..|scopes| - 1];
    }

    method RegisterLinear(name: string)
      modifies this`scopes
      ensures old(scopes) == [] ==> scopes == []
      ensures old(scopes) != [] ==>
                var n := |old(scopes)| - 1;
                scopes == old(scopes)[n := old(scopes)[n][name := Unconsumed]]
    {
      if scopes == [] {
        return;
      }
      var n := |scopes| - 1;
      scopes := scopes[n := scopes[n][name := Unconsumed]];
    }

    method RegisterIfLinear(name: string, linear: bool)
      requires InBody()
      modifies this`scopes
      ensures InBody() && State() == Register(old(State()), name, linear)
    {
      if linear {
        RegisterLinear(name);
      }
    }

    /** The innermost scope that registers the name, or -1. */
    method FindLinear(name: string) returns (i: int)
      ensures -1 <= i < |scopes|
      ensures i >= 0 ==> name in scopes[i]
      ensures forall j | i < j < |scopes| :: name !in scopes[j]
    {
      i := |scopes| - 1;
      while i >= 0 && name !in scopes[i]
        invariant -1 <= i < |scopes|
        invariant forall j | i < j < |scopes| :: name !in scopes[j]
      {
        i := i - 1;
      }
    }

    method ConsumeAt(i: nat, name: string)
      requires i < |scopes| && name in scopes[i]
      modifies this`scopes, this`failed
      ensures old(scopes[i][name]) == Consumed ==> failed && scopes == old(scopes)
      ensures old(scopes[i][name]) == Unconsumed ==>
                failed == old(failed) && scopes == old(scopes)[i := old(scopes)[i][name := Consumed]]
    {
      if scopes[i][name] == Consumed {
        failed := true;
        return;
      }
      scopes := scopes[i := scopes[i][name := Consumed]];
    }

    /** Report a use of a consumed owner; `used` says the caller should stop. */
    method CheckUseAfterConsume(name: string) returns (used: bool)
      requires InBody()
      modifies this`failed
      ensures used == (name in scopes[0] && scopes[0][name] == Consumed)
      ensures failed == (old(failed) || used)
    {
      var i := FindLinear(name);
      if i == -1 || scopes[i][name] != Consumed {
        return false;
      }
      failed := true;
      return true;
    }

    method Snapshot() returns (merged: Vars)
      ensures merged == Merged(scopes)
      ensures |scopes| == 1 ==> merged == scopes[0]
    {
      merged := map[];
      var i := 0;
      while i < |scopes|
        invariant 0 <= i <= |scopes|
        invariant merged == Merged(scopes[..i])
        invariant i == 1 ==> merged == scopes[0]
      {
        merged := merged + scopes[i];
        assert scopes[..i + 1][..i] == scopes[..i];
        i := i + 1;
      }
      assert scopes[..i] == scopes;
    }

    method Restore(snap: Vars)
      modifies this`scopes
      ensures |scopes| == |old(scopes)|
      ensures forall j | 0 <= j < |scopes| :: scopes[j] == Overwrite(old(scopes)[j], snap)
    {
      var i := 0;
      while i < |scopes|
        invariant 0 <= i <= |scopes| == |old(scopes)|
        invariant forall j | 0 <= j < i :: scopes[j] == Overwrite(old(scopes)[j], snap)
        invariant forall j | i <= j < |scopes| :: scopes[j] == old(scopes)[j]
      {
        scopes := scopes[i := Overwrite(scopes[i], snap)];
        i := i + 1;
      }
    }

    /** Do the branches that know the name end with it in the same state, and in which? */
    static method CheckAgreement(branches: seq<Vars>, name: string) returns (mismatch: bool, consumed: bool)
      ensures mismatch == Mismatch(branches, name)
      ensures !mismatch ==> consumed == SomeBranch(branches, name, Consumed)
    {
      var firstConsumed, seenFirst := false, false;
      var i := 0;
      while i < |branches|
        invariant 0 <= i <= |branches|
        invariant forall j | 0 <= j < i && name in branches[j] ::
                    seenFirst && (branches[j][name] == Consumed) == firstConsumed
        invariant seenFirst ==> exists j | 0 <= j < i :: name in branches[j] && (branches[j][name] == Consumed) == firstConsumed
      {
        if name in branches[i] {
          var now := branches[i][name] == Consumed;
          if !seenFirst {
            firstConsumed, seenFirst := now, true;
          } else if now != firstConsumed {
            ghost var j :| 0 <= j < i && name in branches[j] && (branches[j][name] == Consumed) == firstConsumed;
            assert branches[i] in branches && branches[j] in branches;
            return true, true;
          }
        }
        i := i + 1;
      }
      if SomeBranch(branches, name, Consumed) {
        ghost var b :| b in branches && name in b && b[name] == Consumed;
      }
      return false, seenFirst && firstConsumed;
    }

    /** Apply the verdict for one name to its registration, if it still has one. */
    method ApplyConsistency(name: string, mismatch: bool, consumed: bool)
      requires InBody()
      modifies this`scopes, this`failed
      ensures InBody() && failed == (old(failed) || mismatch)
      ensures (mismatch || consumed) && name in old(scopes)[0] ==> scopes[0] == old(scopes)[0][name := Consumed]
      ensures !((mismatch || consumed) && name in old(scopes)[0]) ==> scopes == old(scopes)
    {
      var i := FindLinear(name);
      if mismatch {
        failed := true;
      }
      if (mismatch || consumed) && i >= 0 {
        scopes := scopes[i := scopes[i][name := Consumed]];
      }
    }

    method CheckBranchConsistency(before: Vars, branches: seq<Vars>)
      requires InBody()
      modifies this`scopes, this`failed
      ensures InBody() && State() == MergeOn(old(State()), before.Keys, before, branches)
    {
      ghost var start := State();
      var names := before.Keys;
      assert before.Keys - names == {};
      while names != {}
        invariant names <= before.Keys
        invariant InBody() && State() == MergeOn(start, before.Keys - names, before, branches)
      {
        var name :| name in names;
        MergeOneMore(start, before.Keys - names, name, before, branches);
        if before[name] == Unconsumed {
          var mismatch, consumed := CheckAgreement(branches, name);
          ApplyConsistency(name, mismatch, consumed);
        }
        assert before.Keys - (names - {name}) == before.Keys - names + {name};
        names := names - {name};
      }
      assert before.Keys - names == before.Keys;
    }

    method CheckProgram(program: seq<Function>)
      requires scopes == [] && !failed
      modifies this
      ensures scopes == []
      ensures failed <==> exists f | f in program :: !f.generic && !Accepts(f)
    {
      var i := 0;
      while i < |program|
        invariant 0 <= i <= |program|
        invariant scopes == []
        invariant failed <==> exists f | f in program[..i] :: !f.generic && !Accepts(f)
      {
        assert program[..i + 1] == program[..i] + [program[i]];
        CheckFunc(program[i]);
        i := i + 1;
      }
      assert program[..i] == program;
    }

    method CheckFunc(f: Function)
      requires scopes == []
      modifies this
      ensures scopes == []
      ensures old(failed) ==> failed
      ensures !old(failed) ==> failed == (!f.generic && !Accepts(f))
    {
      if f.generic {
        return;
      }
      PushScope();
      var i := 0;
      while i < |f.params|
        invariant 0 <= i <= |f.params|
        invariant InBody() && failed == old(failed)
        invariant Enter(f.params[i..], scopes[0]) == Enter(f.params, map[])
      {
        RegisterIfLinear(f.params[i].name, f.params[i].linear);
        assert f.params[i..][1..] == f.params[i + 1..];
        i := i + 1;
      }
      BlockGrows(State(), f.body);
      DoBlock(f.body);
      PopScopeAndCheck();
    }

    method DoBlock(b: seq<Expr>)
      requires InBody()
      modifies this
      ensures InBody() && loopDepth == old(loopDepth) && State() == CheckBlock(old(State()), b)
      decreases b, 0
    {
      var i := 0;
      while i < |b|
        invariant 0 <= i <= |b|
        invariant InBody() && loopDepth == old(loopDepth)
        invariant CheckBlock(State(), b[i..]) == CheckBlock(old(State()), b)
      {
        assert b[i..][0] == b[i] && b[i..][1..] == b[i + 1..];
        DoExpr(b[i]);
        if Discards(b[i]) {
          failed := true;
        }
        i := i + 1;
      }
    }

    method DoExpr(e: Expr)
      requires InBody()
      modifies this
      ensures InBody() && loopDepth == old(loopDepth) && State() == CheckExpr(old(State()), e)
      decreases e, 1
    {
      match e
      case Leaf =>
      case Var(_) =>
      case ArrayVar(_) =>
      case Opaque(_) =>
      case Alloc(_) =>
      case Literal(elements) => ConsumeElements(elements);
      case Call(args, takes, _) =>
        var i := 0;
        while i < |args| && i < |takes|
          invariant 0 <= i <= |args| && i <= |takes|
          invariant InBody() && loopDepth == old(loopDepth)
          invariant CheckArgs(State(), args[i..], takes[i..]) == CheckArgs(old(State()), args, takes)
        {
          assert args[i..][0] == args[i] && args[i..][1..] == args[i + 1..];
          assert takes[i..][0] == takes[i] && takes[i..][1..] == takes[i + 1..];
          if takes[i] {
            DoOwned(args[i]);
          } else {
            DoExpr(args[i]);
          }
          i := i + 1;
        }
      case Free(operand) => DoOwned(operand);
      case Deref(operand, _) =>
        if operand.Var? {
          var used := CheckUseAfterConsume(operand.name);
          if used {
            return;
          }
        }
        DoExpr(operand);
      case Index(base, index) =>
        if base.Var? {
          var used := CheckUseAfterConsume(base.name);
          if used {
            return;
          }
        }
        DoExpr(base);
        DoExpr(index);
      case AddrOf(operand, linear) =>
        if linear {
          failed := true;
          return;
        }
        DoExpr(operand);
      case Binary(lhs, rhs) =>
        DoExpr(lhs);
        DoExpr(rhs);
      case Assign(lhs, rhs, escapes) =>
        DoExpr(lhs);
        if escapes {
          failed := true;
          return;
        }
        DoOwned(rhs);
      case VarDef(name, linear, init) =>
        DoOwned(init);
        RegisterIfLinear(name, linear);
      case Return(result, escapes) => DoReturn(result, escapes);
      case If(_, _, _) => DoIf(e);
      case While(_, _) => DoLoop(e);
      case For(_, _, _, _) => DoLoop(e);
      case Case(_, _) => DoCase(e);
    }

    /** An owner is handed to the caller; another pointer must not be, when it is a variable's. */
    method DoReturn(result: Expr, escapes: bool)
      requires InBody()
      modifies this
      ensures InBody() && loopDepth == old(loopDepth) && State() == CheckExpr(old(State()), Return(result, escapes))
      decreases result, 2
    {
      if result.Var? {
        var i := FindLinear(result.name);
        if i >= 0 {
          ConsumeAt(i, result.name);
          return;
        }
      }
      if escapes {
        failed := true;
        return;
      }
      DoExpr(result);
    }

    method DoOwned(e: Expr)
      requires InBody()
      modifies this
      ensures InBody() && loopDepth == old(loopDepth) && State() == CheckOwned(old(State()), e)
      decreases e, 2
    {
      if e.Var? {
        var i := FindLinear(e.name);
        if i >= 0 {
          ConsumeAt(i, e.name);
          return;
        }
      }
      DoExpr(e);
    }

    method ConsumeElements(es: seq<Expr>)
      requires InBody()
      modifies this
      ensures InBody() && loopDepth == old(loopDepth) && State() == CheckElements(old(State()), es)
      decreases es, 0
    {
      var i := 0;
      while i < |es|
        invariant 0 <= i <= |es|
        invariant InBody() && loopDepth == old(loopDepth)
        invariant CheckElements(State(), es[i..]) == CheckElements(old(State()), es)
      {
        assert es[i..][0] == es[i] && es[i..][1..] == es[i + 1..];
        DoOwned(es[i]);
        i := i + 1;
      }
    }

    method DoIf(e: Expr)
      requires InBody() && e.If?
      modifies this
      ensures InBody() && loopDepth == old(loopDepth) && State() == CheckExpr(old(State()), e)
      decreases e, 0
    {
      DoExpr(e.cond);
      var before := Snapshot();
      DoBlock(e.thn);
      var stateThen := Snapshot();
      Restore(before);
      var stateElse;
      if e.els.Else? {
        DoBlock(e.els.body);
        stateElse := Snapshot();
      } else {
        stateElse := before;
      }
      Restore(before);
      CheckBranchConsistency(before, [stateThen, stateElse]);
    }

    method DoLoop(e: Expr)
      requires InBody() && (e.While? || e.For?)
      modifies this
      ensures InBody() && loopDepth == old(loopDepth) && State() == CheckExpr(old(State()), e)
      decreases e, 0
    {
      var before := Snapshot();
      loopDepth := loopDepth + 1;
      if e.While? {
        DoExpr(e.cond);
      } else {
        DoExpr(e.start);
        DoExpr(e.stop);
      }
      DoBlock(e.body);
      ghost var done := State();
      var after := Snapshot();
      loopDepth := loopDepth - 1;
      var names := before.Keys;
      while names != {}
        invariant names <= before.Keys
        invariant scopes == [done.vars] && loopDepth == old(loopDepth)
        invariant failed == (done.failed || exists x | x in before.Keys - names ::
                               Pending(before, x) && x in after && after[x] == Consumed)
      {
        var name :| name in names;
        if before[name] == Unconsumed && name in after && after[name] == Consumed {
          failed := true;
        }
        names := names - {name};
      }
      Restore(before);
    }

    /** Check one arm from the state before all of them. */
    method DoArm(arm: Arm, before: Vars) returns (end: Vars)
      requires InBody()
      modifies this
      ensures InBody() && loopDepth == old(loopDepth)
      ensures var c := old(State());
              State() == CheckBlock(c.(vars := Overwrite(c.vars, before)), arm.body)
      ensures end == scopes[0]
      decreases arm, 0
    {
      Restore(before);
      DoBlock(arm.body);
      end := Snapshot();
    }

    method DoArms(arms: seq<Arm>, before: Vars) returns (ends: seq<Vars>)
      requires InBody()
      modifies this
      ensures InBody() && loopDepth == old(loopDepth)
      ensures (State(), ends) == CheckArms(old(State()), before, arms)
      decreases arms, 1
    {
      ends := [];
      var i := 0;
      ghost var target := CheckArms(State(), before, arms);
      assert arms[0..] == arms && [] + target.1 == target.1;
      while i < |arms|
        invariant 0 <= i <= |arms|
        invariant InBody() && loopDepth == old(loopDepth)
        invariant target.0 == CheckArms(State(), before, arms[i..]).0
        invariant target.1 == ends + CheckArms(State(), before, arms[i..]).1
      {
        assert arms[i..][0] == arms[i] && arms[i..][1..] == arms[i + 1..];
        var end := DoArm(arms[i], before);
        assert target.1 == ends + ([end] + CheckArms(State(), before, arms[i + 1..]).1);
        ends := ends + [end];
        i := i + 1;
      }
      assert arms[i..] == [] && target.1 == ends;
    }

    method DoCase(e: Expr)
      requires InBody() && e.Case?
      modifies this
      ensures InBody() && loopDepth == old(loopDepth) && State() == CheckExpr(old(State()), e)
      decreases e, 0
    {
      DoExpr(e.scrutinee);
      var before := Snapshot();
      var ends := DoArms(e.arms, before);
      Restore(before);
      CheckBranchConsistency(before, ends);
    }
  }
}
