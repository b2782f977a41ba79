/** Code generation opens no symbol scope for the bodies of `if`, `while` and `case`.  If array names are used only
    where they are visible and hide no visible one, that makes no difference. */
module LinearScopes {
  import opened Wrappers
  import opened LinearSyntax
  import opened LinearRuns
  import opened LinearCalm

  ghost predicate Agree(names: set<string>, v: map<string, Ref>, v': map<string, Ref>)
  {
    forall a | a in names :: (a in v <==> a in v') && (a in v ==> v[a] == v'[a])
  }

  /** The same point of the emitted code's run and of the run in which what a body declares is gone after it. */
  ghost predicate Twins(names: set<string>, s: Run, s': Run)
  {
    s.flat && s' == s.(views := s'.views, flat := false) && Agree(names, s.views, s'.views)
  }

  lemma Fewer(names: set<string>, more: set<string>, s: Run, s': Run)
    requires Twins(more, s, s') && names <= more
    ensures Twins(names, s, s')
  {
  }

  lemma {:induction false} PassTwins(names: set<string>, s: Run, s': Run, refs: seq<Ref>)
    requires Twins(names, s, s')
    ensures Twins(names, Pass(s, refs), Pass(s', refs))
    decreases |refs|
  {
    if refs != [] && !s.returned {
      PassTwins(names, Emit(s, Passed(refs[0])), Emit(s', Passed(refs[0])), refs[1..]);
    }
  }

  lemma {:induction false} ForgetTwins(names: set<string>, b: seq<Expr>, s: Run, s': Run)
    requires Twins(names, s, s')
    ensures Twins(names, Forget(b, s), Forget(b, s'))
    decreases |b|
  {
    if b != [] && !s.returned {
      if b[0].VarDef? && b[0].linear && b[0].name in s.env {
        var h := Hide(s.env[b[0].name]);
        ForgetTwins(names, b[1..], Emit(s, h), Emit(s', h));
      } else {
        ForgetTwins(names, b[1..], s, s');
      }
    }
  }

  /** The part of a fragment that is about array names. */
  ghost predicate Fits(e: Expr, seen: set<string>, arrays: set<string>)
  {
    Placed(e, seen, arrays) && Arrays(e) <= arrays
  }

  ghost predicate FitsAll(es: seq<Expr>, seen: set<string>, arrays: set<string>)
  {
    PlacedAll(es, seen, arrays) && ArraysAll(es) <= arrays
  }

  ghost predicate FitsBlock(b: seq<Expr>, outer: set<string>, seen: set<string>, arrays: set<string>)
  {
    PlacedBlock(b, outer, seen, arrays) && ArraysAll(b) <= arrays
  }

  lemma {:induction false} ScalarTwins(
    e: Expr, scope: set<string>, all: set<string>, seen: set<string>, arrays: set<string>, s: Run, s': Run)
    requires Scalar(e, scope, all) && Fits(e, seen, arrays) && Twins(seen * arrays, s, s') && Running(s', all)
    ensures Twins(seen * arrays, Exec(e, s), Exec(e, s'))
    decreases e, 4
  {
    match e
    case Leaf | Var(_) | ArrayVar(_) | AddrOf(_, _) =>
    case Opaque(_) | Literal(_) => GroupTwins(e, scope, all, seen, arrays, s, s');
    case Alloc(_) | Free(_) => GivenTwins(e, scope, all, seen, arrays, s, s');
    case Call(_, _, _) => CallTwins(e, scope, all, seen, arrays, s, s');
    case Deref(_, _) => DerefTwins(e, scope, all, seen, arrays, s, s');
    case Index(_, _) => IndexTwins(e, scope, all, seen, arrays, s, s');
    case Binary(_, _) => BinaryTwins(e, scope, all, seen, arrays, s, s');
    case Assign(_, _, _) => AssignTwins(e, scope, all, seen, arrays, s, s');
    case If(_, _, _) | While(_, _) | For(_, _, _, _) | Case(_, _) => FlowTwins(e, scope, all, seen, arrays, s, s');
  }

  lemma {:induction false} GroupTwins(
    e: Expr, scope: set<string>, all: set<string>, seen: set<string>, arrays: set<string>, s: Run, s': Run)
    requires (e.Opaque? || e.Literal?) && Scalar(e, scope, all) && Fits(e, seen, arrays)
    requires Twins(seen * arrays, s, s') && Running(s', all)
    ensures Twins(seen * arrays, Exec(e, s), Exec(e, s'))
    decreases e, 0
  {
    OperandsTwins(if e.Opaque? then e.operands else e.elements, scope, all, seen, arrays, s, s');
  }

  lemma {:induction false} DerefTwins(
    e: Expr, scope: set<string>, all: set<string>, seen: set<string>, arrays: set<string>, s: Run, s': Run)
    requires e.Deref? && Scalar(e, scope, all) && Fits(e, seen, arrays)
    requires Twins(seen * arrays, s, s') && Running(s', all)
    ensures Twins(seen * arrays, Exec(e, s), Exec(e, s'))
    decreases e, 0
  {
    ScalarTwins(e.operand, scope, all, seen, arrays, s, s');
  }

  /** Memory is touched, and values are read, alike. */
  lemma TouchTwins(names: set<string>, s: Run, s': Run, v: Value)
    requires Twins(names, s, s')
    ensures Twins(names, Touch(s, v), Touch(s', v)) && Twins(names, Load(s, v), Load(s', v))
  {
  }

  lemma {:induction false} IndexTwins(
    e: Expr, scope: set<string>, all: set<string>, seen: set<string>, arrays: set<string>, s: Run, s': Run)
    requires e.Index? && Scalar(e, scope, all) && Fits(e, seen, arrays)
    requires Twins(seen * arrays, s, s') && Running(s', all)
    ensures Twins(seen * arrays, Exec(e, s), Exec(e, s'))
    decreases e, 0
  {
    ScalarTwins(e.base, scope, all, seen, arrays, s, s');
    ScalarCalm(e.base, scope, all, s');
    ScalarTwins(e.index, scope, all, seen, arrays, Exec(e.base, s), Exec(e.base, s'));
  }

  lemma {:induction false} BinaryTwins(
    e: Expr, scope: set<string>, all: set<string>, seen: set<string>, arrays: set<string>, s: Run, s': Run)
    requires e.Binary? && Scalar(e, scope, all) && Fits(e, seen, arrays)
    requires Twins(seen * arrays, s, s') && Running(s', all)
    ensures Twins(seen * arrays, Exec(e, s), Exec(e, s'))
    decreases e, 0
  {
    ScalarTwins(e.lhs, scope, all, seen, arrays, s, s');
    ScalarCalm(e.lhs, scope, all, s');
    var s1, s1' := Exec(e.lhs, s), Exec(e.lhs, s');
    ScalarTwins(e.rhs, scope, all, seen, arrays, s1, s1');
    var s2, s2' := Exec(e.rhs, s1), Exec(e.rhs, s1');
    TouchTwins(seen * arrays, s2, s2', s1.value);
    TouchTwins(seen * arrays, Load(s2, s1.value), Load(s2', s1.value), s2.value);
  }

  lemma {:induction false} GivenTwins(
    e: Expr, scope: set<string>, all: set<string>, seen: set<string>, arrays: set<string>, s: Run, s': Run)
    requires (e.Alloc? || e.Free?) && Scalar(e, scope, all) && Fits(e, seen, arrays)
    requires Twins(seen * arrays, s, s') && Running(s', all)
    ensures Twins(seen * arrays, Exec(e, s), Exec(e, s'))
    decreases e, 0
  {
    if e.Alloc? {
      ScalarTwins(e.count, scope, all, seen, arrays, s, s');
    } else {
      OwnedTwins(e.operand, scope, all, seen, arrays, s, s');
    }
  }

  lemma {:induction false} AssignTwins(
    e: Expr, scope: set<string>, all: set<string>, seen: set<string>, arrays: set<string>, s: Run, s': Run)
    requires e.Assign? && Scalar(e, scope, all) && Fits(e, seen, arrays)
    requires Twins(seen * arrays, s, s') && Running(s', all)
    ensures Twins(seen * arrays, Exec(e, s), Exec(e, s'))
    decreases e, 0
  {
    PlaceTwins(e.lhs, scope, all, seen, arrays, s, s');
    PlaceCalm(e.lhs, scope, all, s');
    var s1, s1' := Locate(e.lhs, s), Locate(e.lhs, s');
    ScalarTwins(e.rhs, scope, all, seen, arrays, s1, s1');
    var s2, s2' := Exec(e.rhs, s1), Exec(e.rhs, s1');
    TouchTwins(seen * arrays, s2, s2', s2.value);
    TouchTwins(seen * arrays, Load(s2, s2.value), Load(s2', s2.value), s1.value);
  }

  lemma {:induction false} PlaceTwins(
    lhs: Expr, scope: set<string>, all: set<string>, seen: set<string>, arrays: set<string>, s: Run, s': Run)
    requires (lhs.Deref? || lhs.Index?) && Scalar(lhs, scope, all) && Fits(lhs, seen, arrays)
    requires Twins(seen * arrays, s, s') && Running(s', all)
    ensures Twins(seen * arrays, Locate(lhs, s), Locate(lhs, s'))
    decreases lhs, 0
  {
    if lhs.Deref? {
      ScalarTwins(lhs.operand, scope, all, seen, arrays, s, s');
    } else {
      ScalarTwins(lhs.base, scope, all, seen, arrays, s, s');
      ScalarCalm(lhs.base, scope, all, s');
      ScalarTwins(lhs.index, scope, all, seen, arrays, Exec(lhs.base, s), Exec(lhs.base, s'));
    }
  }

  lemma {:induction false} OwnedTwins(
    e: Expr, scope: set<string>, all: set<string>, seen: set<string>, arrays: set<string>, s: Run, s': Run)
    requires Owned(e, scope, all) && Fits(e, seen, arrays) && Twins(seen * arrays, s, s') && Running(s', all)
    ensures Twins(seen * arrays, Take(e, s).0, Take(e, s').0) && Take(e, s).1 == Take(e, s').1
    decreases e, 3
  {
    match e
    case Var(_) =>
    case Alloc(count) => ScalarTwins(count, scope, all, seen, arrays, s, s');
    case Call(_, _, _) => CallTwins(e, scope, all, seen, arrays, s, s');
  }

  lemma {:induction false} CallTwins(
    e: Expr, scope: set<string>, all: set<string>, seen: set<string>, arrays: set<string>, s: Run, s': Run)
    requires e.Call? && Args(e.args, e.takes, scope, all) && Fits(e, seen, arrays)
    requires Twins(seen * arrays, s, s') && Running(s', all)
    ensures Twins(seen * arrays, Obtain(e, s).0, Obtain(e, s').0) && Obtain(e, s).1 == Obtain(e, s').1
    ensures Twins(seen * arrays, Exec(e, s), Exec(e, s'))
    decreases e, 0
  {
    ArgsTwins(e.args, e.takes, scope, all, seen, arrays, s, s');
    var refs := ExecArgs(e.args, e.takes, s).1;
    PassTwins(seen * arrays, ExecArgs(e.args, e.takes, s).0, ExecArgs(e.args, e.takes, s').0, refs);
  }

  lemma {:induction false} OperandsTwins(
    es: seq<Expr>, scope: set<string>, all: set<string>, seen: set<string>, arrays: set<string>, s: Run, s': Run)
    requires Operands(es, scope, all) && FitsAll(es, seen, arrays) && Twins(seen * arrays, s, s') && Running(s', all)
    ensures Twins(seen * arrays, ExecArgs(es, [], s).0, ExecArgs(es, [], s').0)
    ensures ExecArgs(es, [], s).1 == ExecArgs(es, [], s').1
    decreases es, 0
  {
    if es != [] {
      var s1, s1' := Exec(es[0], s), Exec(es[0], s');
      ScalarTwins(es[0], scope, all, seen, arrays, s, s');
      ScalarCalm(es[0], scope, all, s');
      OperandsTwins(es[1..], scope, all, seen, arrays, Load(s1, s1.value), Load(s1', s1'.value));
    }
  }

  lemma {:induction false} ArgsTwins(
    args: seq<Expr>, takes: seq<bool>, scope: set<string>, all: set<string>, seen: set<string>, arrays: set<string>,
    s: Run, s': Run)
    requires Args(args, takes, scope, all) && FitsAll(args, seen, arrays)
    requires Twins(seen * arrays, s, s') && Running(s', all)
    ensures Twins(seen * arrays, ExecArgs(args, takes, s).0, ExecArgs(args, takes, s').0)
    ensures ExecArgs(args, takes, s).1 == ExecArgs(args, takes, s').1
    decreases args, 1
  {
    if args == [] {
    } else if takes == [] {
      OperandsTwins(args, scope, all, seen, arrays, s, s');
    } else if takes[0] {
      OwnedTwins(args[0], scope, all, seen, arrays, s, s');
      OwnedCalm(args[0], scope, all, s');
      ArgsTwins(args[1..], takes[1..], scope, all, seen, arrays, Take(args[0], s).0, Take(args[0], s').0);
    } else {
      var s1, s1' := Exec(args[0], s), Exec(args[0], s');
      ScalarTwins(args[0], scope, all, seen, arrays, s, s');
      ScalarCalm(args[0], scope, all, s');
      ArgsTwins(args[1..], takes[1..], scope, all, seen, arrays, Load(s1, s1.value), Load(s1', s1'.value));
    }
  }

  lemma {:induction false} FlowTwins(
    e: Expr, scope: set<string>, all: set<string>, seen: set<string>, arrays: set<string>, s: Run, s': Run)
    requires Flow(e, scope, all) && Fits(e, seen, arrays) && Twins(seen * arrays, s, s') && Running(s', all)
    ensures Twins(seen * arrays, Exec(e, s), Exec(e, s'))
    decreases e, 3
  {
    match e
    case If(_, _, _) | Case(_, _) => BranchTwins(e, scope, all, seen, arrays, s, s');
    case While(_, _) => IterateTwins(e, Choose(s).0, scope, all, seen, arrays, Choose(s).1, Choose(s').1);
    case For(_, start, stop, _) =>
      ScalarTwins(start, scope, all, seen, arrays, s, s');
      ScalarCalm(start, scope, all, s');
      ScalarTwins(stop, scope, all, seen, arrays, Exec(start, s), Exec(start, s'));
      ScalarCalm(stop, scope, all, Exec(start, s'));
      var s1, s1' := Exec(stop, Exec(start, s)), Exec(stop, Exec(start, s'));
      IterateTwins(e, Choose(s1).0, scope, all, seen, arrays, Choose(s1).1, Choose(s1').1);
  }

  lemma {:induction false} BranchTwins(
    e: Expr, scope: set<string>, all: set<string>, seen: set<string>, arrays: set<string>, s: Run, s': Run)
    requires (e.If? || e.Case?) && Flow(e, scope, all) && Fits(e, seen, arrays)
    requires Twins(seen * arrays, s, s') && Running(s', all)
    ensures Twins(seen * arrays, Exec(e, s), Exec(e, s'))
    decreases e, 2
  {
    var head := if e.If? then e.cond else e.scrutinee;
    ScalarTwins(head, scope, all, seen, arrays, s, s');
    ScalarCalm(head, scope, all, s');
    var (k, s1) := Choose(Exec(head, s));
    var s1' := Choose(Exec(head, s')).1;
    if e.If? && k != 0 {
      InnerTwins(e.thn, scope, all, seen, arrays, s1, s1');
    } else if e.If? && e.els.Else? {
      InnerTwins(e.els.body, scope, all, seen, arrays, s1, s1');
    } else if e.Case? && e.arms != [] {
      ArmBlock(e.arms, k % |e.arms|, scope, all);
      ArmFits(e.arms, k % |e.arms|, seen, arrays);
      InnerTwins(e.arms[k % |e.arms|].body, scope, all, seen, arrays, s1, s1');
    }
  }

  lemma {:induction false} ArmFits(arms: seq<Arm>, k: nat, seen: set<string>, arrays: set<string>)
    requires PlacedArms(arms, seen, arrays) && ArraysArms(arms) <= arrays && k < |arms|
    ensures FitsBlock(arms[k].body, seen, seen, arrays)
  {
    if k > 0 {
      ArmFits(arms[1..], k - 1, seen, arrays);
    }
  }

  lemma {:induction false} IterateTwins(
    e: Expr, n: nat, scope: set<string>, all: set<string>, seen: set<string>, arrays: set<string>, s: Run, s': Run)
    requires (e.While? || e.For?) && Flow(e, scope, all) && Fits(e, seen, arrays)
    requires Twins(seen * arrays, s, s') && Running(s', all)
    ensures Twins(seen * arrays, Iterate(e, n, s), Iterate(e, n, s'))
    decreases e, 1, n
  {
    if e.While? {
      ScalarTwins(e.cond, scope, all, seen, arrays, s, s');
      ScalarCalm(e.cond, scope, all, s');
    }
    var s1, s1' := if e.While? then Exec(e.cond, s) else s, if e.While? then Exec(e.cond, s') else s';
    if n > 0 {
      if e.While? {
        InnerTwins(e.body, scope, all, seen, arrays, s1, s1');
      } else {
        ScopedTwins(e.body, scope, all, seen, arrays, s1, s1');
      }
      InnerCalm(e.body, scope, all, s1', e.While?);
      IterateTwins(e, n - 1, scope, all, seen, arrays, Inner(e.body, s1, e.While?), Inner(e.body, s1', e.While?));
    }
  }

  /** A body without a symbol scope of its own. */
  lemma {:induction false} InnerTwins(
    b: seq<Expr>, scope: set<string>, all: set<string>, seen: set<string>, arrays: set<string>, s: Run, s': Run)
    requires Block(b, scope, scope, all) && FitsBlock(b, seen, seen, arrays)
    requires Twins(seen * arrays, s, s') && Running(s', all)
    ensures Twins(seen * arrays, Inner(b, s, true), Inner(b, s', true))
    decreases b, 1
  {
    var s0, s0' := Yielding(s, Nothing), Yielding(s', Nothing);
    BlockTwins(b, scope, scope, all, seen, seen, arrays, s0, s0');
    BlockCalm(b, scope, scope, all, s0');
    Fewer(seen * arrays, SeenAfter(b, seen) * arrays, ExecAll(b, s0), ExecAll(b, s0'));
    ForgetTwins(seen * arrays, b, ExecAll(b, s0), ExecAll(b, s0'));
    ForgetCalm(b, ExecAll(b, s0'));
  }

  /** The body of a `for` has one. */
  lemma {:induction false} ScopedTwins(
    b: seq<Expr>, scope: set<string>, all: set<string>, seen: set<string>, arrays: set<string>, s: Run, s': Run)
    requires Block(b, scope, scope, all) && FitsBlock(b, {}, seen, arrays)
    requires Twins(seen * arrays, s, s') && Running(s', all)
    ensures Twins(seen * arrays, Inner(b, s, false), Inner(b, s', false))
    decreases b, 1
  {
    var s0, s0' := Yielding(s, Nothing), Yielding(s', Nothing);
    BlockTwins(b, scope, scope, all, {}, seen, arrays, s0, s0');
    Fewer({}, SeenAfter(b, seen) * arrays, ExecAll(b, s0), ExecAll(b, s0'));
    ForgetTwins({}, b, ExecAll(b, s0), ExecAll(b, s0'));
  }

  function SeenAfter(b: seq<Expr>, seen: set<string>): (r: set<string>)
    ensures seen <= r
  {
    if b == [] then seen else SeenAfter(b[1..], seen + Plain(b[0]))
  }

  lemma {:induction false} StmtTwins(
    e: Expr, scope: set<string>, all: set<string>, seen: set<string>, arrays: set<string>, s: Run, s': Run)
    requires Stmt(e, scope, all) && Fits(e, seen, arrays) && Twins(seen * arrays, s, s') && Running(s', all)
    ensures Twins((seen + Plain(e)) * arrays, Exec(e, s), Exec(e, s'))
    ensures Agree(arrays - Plain(e), s'.views, Exec(e, s').views)
    decreases e, 5
  {
    if e.VarDef? {
      DefinitionTwins(e, scope, all, seen, arrays, s, s');
    } else {
      assert seen + Plain(e) == seen;
      if e.If? || e.While? || e.For? || e.Case? {
        FlowTwins(e, scope, all, seen, arrays, s, s');
        FlowCalm(e, scope, all, s');
      } else {
        ScalarTwins(e, scope, all, seen, arrays, s, s');
        ScalarCalm(e, scope, all, s');
      }
    }
  }

  lemma {:induction false} DefinitionTwins(
    e: Expr, scope: set<string>, all: set<string>, seen: set<string>, arrays: set<string>, s: Run, s': Run)
    requires e.VarDef? && Stmt(e, scope, all) && Fits(e, seen, arrays)
    requires Twins(seen * arrays, s, s') && Running(s', all)
    ensures Twins((seen + Plain(e)) * arrays, Exec(e, s), Exec(e, s'))
    ensures Agree(arrays - Plain(e), s'.views, Exec(e, s').views)
    decreases e, 0
  {
    if e.linear {
      OwnedTwins(e.init, scope, all, seen, arrays, s, s');
      OwnedCalm(e.init, scope, all, s');
      assert seen + Plain(e) == seen;
    } else {
      ScalarTwins(e.init, scope, all, seen, arrays, s, s');
      ScalarCalm(e.init, scope, all, s');
    }
  }

  lemma {:induction false} BlockTwins(
    b: seq<Expr>, before: set<string>, scope: set<string>, all: set<string>, outer: set<string>, seen: set<string>,
    arrays: set<string>, s: Run, s': Run)
    requires Block(b, before, scope, all) && FitsBlock(b, outer, seen, arrays)
    requires Twins(seen * arrays, s, s') && Running(s', all)
    ensures Twins(SeenAfter(b, seen) * arrays, ExecAll(b, s), ExecAll(b, s'))
    ensures Agree(outer * arrays, s'.views, ExecAll(b, s').views)
    decreases b, 0
  {
    if b != [] {
      StmtTwins(b[0], scope, all, seen, arrays, s, s');
      StmtCalm(b[0], scope, all, s');
      StmtHides(b[0], scope, all);
      assert outer * arrays <= arrays - Plain(b[0]);
      BlockTwins(b[1..], before, scope + Bound(b[0]), all, outer, seen + Plain(b[0]), arrays, Exec(b[0], s), Exec(b[0], s'));
    }
  }

  // ---------- Whole functions ----------

  lemma {:induction false} ReceiveTwins(params: seq<Param>, s: Run, s': Run)
    requires s.flat && s' == s.(flat := false)
    ensures Receive(params, s).flat && Receive(params, s') == Receive(params, s).(flat := false)
  {
    if params != [] && params[0].linear {
      var (s1, r) := Create(s);
      var s1' := Create(s').0;
      ReceiveTwins(params[1..], Bind(s1, params[0].name, r, false), Bind(s1', params[0].name, r, false));
    } else if params != [] {
      ReceiveTwins(params[1..], s, s');
    }
  }

  lemma {:induction false} ReceiveKeeps(params: seq<Param>, s: Run, all: set<string>)
    requires s.env.Keys <= all && OwningParams(params) <= all && !s.returned
    ensures Receive(params, s).env.Keys <= all && !Receive(params, s).returned && Receive(params, s).flat == s.flat
  {
    if params != [] {
      var (s1, r) := Create(s);
      ReceiveKeeps(params[1..], if params[0].linear then Bind(s1, params[0].name, r, false) else s, all);
    }
  }

  lemma {:induction false} FitsAppend(b: seq<Expr>, e: Expr, outer: set<string>, seen: set<string>, arrays: set<string>)
    requires FitsBlock(b + [e], outer, seen, arrays)
    ensures FitsBlock(b, outer, seen, arrays) && Fits(e, SeenAfter(b, seen), arrays)
  {
    if b == [] {
      assert b + [e] == [e];
    } else {
      assert (b + [e])[1..] == b[1..] + [e];
      FitsAppend(b[1..], e, outer, seen + Plain(b[0]), arrays);
    }
  }

  lemma YieldTwins(
    e: Expr, scope: set<string>, all: set<string>, seen: set<string>, arrays: set<string>, s: Run, s': Run)
    requires Result(e, scope, all) && Fits(e, seen, arrays) && Twins(seen * arrays, s, s') && Running(s', all)
    ensures Yield(e, s).trace == Yield(e, s').trace
  {
    if e.Alloc? || (e.Var? && e.name in scope) {
      OwnedTwins(e, scope, all, seen, arrays, s, s');
    } else if e.Call? {
      CallTwins(e, scope, all, seen, arrays, s, s');
    } else {
      ScalarTwins(e, scope, all, seen, arrays, s, s');
    }
  }

  /** The run of the emitted code leaves the same trace as the run in which what a body declares is gone after it. */
  lemma ScopesAgree(f: Function, choices: seq<nat>)
    requires WellFormed(f)
    ensures RunOf(f, choices).trace == ScopedRunOf(f, choices).trace
  {
    var inner, all, b := OwningParams(f.params), Owners(f), Leading(f.body);
    var arrays, seen := ArraysAll(f.body), Known(f);
    var s, s' := Receive(f.params, Start(choices, true)), Receive(f.params, Start(choices, false));
    ReceiveTwins(f.params, Start(choices, true), Start(choices, false));
    ReceiveKeeps(f.params, Start(choices, false), all);
    if Returns(f.body) {
      var last := f.body[|f.body| - 1];
      ReturningBody(f);
      FitsAppend(b, last, {}, seen, arrays);
      BlockTwins(b, {}, inner, all, {}, seen, arrays, s, s');
      BlockCalm(b, {}, inner, all, s');
      BlockHides(b, {}, inner, all);
      ExecAppend(b, last, s);
      ExecAppend(b, last, s');
      BodyKeys(f);
      YieldTwins(last.result, ScopeAfter(b, inner), all, SeenAfter(b, seen), arrays, ExecAll(b, s), ExecAll(b, s'));
    } else {
      BlockTwins(b, {}, inner, all, {}, seen, arrays, s, s');
    }
  }

  lemma BodyKeys(f: Function)
    requires WellFormed(f)
    ensures BoundAll(Leading(f.body)) <= Owners(f)
  {
    BlockHides(Leading(f.body), {}, OwningParams(f.params), Owners(f));
  }
}
