/** Inputs on which the ownership checker and the memory disagree, one for each thing the checker overlooks and for
    what it rejects needlessly. */
module LinearExamples {
  import opened Wrappers
  import opened LinearSyntax
  import opened LinearChecker
  import opened LinearFlow
  import opened LinearRuns
  import opened LinearGaps
  import opened LinearPaths
  import opened LinearSafety
  import opened LinearRefusals
  import opened LinearExactness

  /** The function is accepted, and a run of it ends in the given events, which break the discipline of memory. */
  ghost predicate Misbehaves(f: Function, choices: seq<nat>, trace: seq<Event>)
  {
    Accepts(f) && RunOf(f, choices).trace == trace && !ExactlyOnce(trace)
  }

  /** A function with one owning parameter `p`. */
  function Taking(body: seq<Expr>): Function
  {
    Function(false, [Param("p", true)], body)
  }

  const R := Ref(0, 0)
  const Ours := Chk(map["p" := Unconsumed], false)
  const Gone := Chk(map["p" := Consumed], false)
  const Empty := Chk(map[], false)
  const P := Var("p")
  const ViewP := Deref(P, true)

  function AtStart(choices: seq<nat>): Run
  {
    Run(map["p" := R], map[], Direct(R), 1, [New(R)], choices, false, true)
  }

  lemma FirstStatement(a: Expr, rest: seq<Expr>, c: Chk, s: Run)
    ensures CheckBlock(c, [a] + rest) == CheckBlock(CheckStmt(c, a), rest)
    ensures ExecAll([a] + rest, s) == ExecAll(rest, Exec(a, s))
  {
    assert ([a] + rest)[1..] == rest;
  }

  /** How bodies of one, two and three statements are checked and run. */
  lemma Bodies(a: Expr, b: Expr, d: Expr, c: Chk, s: Run)
    ensures CheckBlock(c, [a]) == CheckStmt(c, a) && ExecAll([a], s) == Exec(a, s)
    ensures CheckBlock(c, [a, b]) == CheckStmt(CheckStmt(c, a), b) && ExecAll([a, b], s) == Exec(b, Exec(a, s))
    ensures CheckBlock(c, [a, b, d]) == CheckStmt(CheckStmt(CheckStmt(c, a), b), d)
    ensures ExecAll([a, b, d], s) == Exec(d, Exec(b, Exec(a, s)))
  {
    var c1, s1 := CheckStmt(c, a), Exec(a, s);
    assert [a] == [a] + [] && [b] == [b] + [] && [d] == [d] + [] && [a, b] == [a] + [b];
    assert [b, d] == [b] + [d] && [a, b, d] == [a] + [b, d];
    FirstStatement(a, [], c, s);
    FirstStatement(a, [b], c, s);
    FirstStatement(a, [b, d], c, s);
    FirstStatement(b, [], c1, s1);
    FirstStatement(b, [d], c1, s1);
    FirstStatement(d, [], CheckStmt(c1, b), Exec(b, s1));
  }

  lemma TakingStarts(body: seq<Expr>, choices: seq<nat>)
    ensures BodyState(Taking(body)) == CheckBlock(Ours, body)
    ensures RunOf(Taking(body), choices) == ExecAll(body, AtStart(choices))
  {
    var p := Param("p", true);
    assert [p][1..] == [];
    var (s1, r) := Create(Start(choices, true));
    assert s1.trace == [New(R)];
    assert Receive([p], Start(choices, true)) == Receive([], Bind(s1, "p", r, false));
    assert Enter([p], map[]) == Enter([], map["p" := Unconsumed]);
    assert BodyState(Taking(body)) == CheckBlock(Ours, body);
  }

  lemma TakingAccepted(body: seq<Expr>)
    requires CheckBlock(Ours, body) == Gone
    ensures Accepts(Taking(body))
  {
    TakingStarts(body, []);
  }

  /** How a function that takes `p` misbehaves. */
  lemma TakingMisbehaves(body: seq<Expr>, choices: seq<nat>, trace: seq<Event>)
    requires CheckBlock(Ours, body) == Gone && ExecAll(body, AtStart(choices)).trace == trace && !ExactlyOnce(trace)
    ensures Misbehaves(Taking(body), choices, trace)
  {
    TakingStarts(body, choices);
  }

  /** Memory is reached or given up after it has been given up. */
  lemma TouchedAfter(t: seq<Event>, i: nat, j: nat)
    requires i < j < |t| && Consumes(t[i]) && !t[j].Hide? && t[j].ref.cell == t[i].ref.cell
    ensures !ExactlyOnce(t)
  {
    if Once(t, t[j].ref.cell) {
      var i', j' :| ConsumedOnce(t, t[j].ref.cell, i', j');
      assert On(t[i], t[j].ref.cell) && On(t[j], t[j].ref.cell) && i == j';
      assert false;
    }
  }

  lemma NeverConsumed(t: seq<Event>, k: nat)
    requires k < |t| && !t[k].Hide?
    requires forall j | 0 <= j < |t| && Consumes(t[j]) :: t[j].ref.cell != t[k].ref.cell
    ensures !ExactlyOnce(t)
  {
    assert !Once(t, t[k].ref.cell);
  }

  // ---------- The expressions the inputs are made of ----------

  /** A call that takes `p`. */
  function Consuming(): Expr
  {
    Call([P], [true], false)
  }

  lemma ConsumingRuns(s: Run)
    requires !s.returned && "p" in s.env
    ensures Exec(Consuming(), s) == Yielding(Emit(s, Passed(s.env["p"])), Nothing)
  {
    var args, r := [P], s.env["p"];
    assert args[1..] == [] && [true][1..] == [] && [r][1..] == [] && [r] + [] == [r];
    var s1 := Yielding(s, Direct(r));
    assert Take(P, s) == (s1, Some(r));
    assert ExecArgs([], [], s1) == (s1, []);
    assert ExecArgs(args, [true], s) == (s1, [r]);
    assert Pass(s1, [r]) == Pass(Emit(s1, Passed(r)), []);
    assert Obtain(Consuming(), s) == (Emit(s1, Passed(r)), None);
  }

  lemma ConsumingChecked()
    ensures CheckExpr(Ours, Consuming()) == Gone
  {
    assert [P][1..] == [] && [true][1..] == [];
    assert CheckArgs(Gone, [], []) == Gone;
  }

  lemma LookRuns(s: Run, toArray: bool)
    requires !s.returned && "p" in s.env
    ensures Exec(Deref(P, toArray), s) == Yielding(Emit(s, Use(s.env["p"])), Pointee(Direct(s.env["p"]), toArray))
  {
    assert Exec(P, s) == Yielding(s, Direct(s.env["p"]));
  }

  /** `let a = *p` for an owner of an array: the array is not copied. */
  lemma ViewRuns(name: string, s: Run)
    requires !s.returned && "p" in s.env
    ensures var r := s.env["p"];
            Exec(VarDef(name, false, ViewP), s) ==
            Emit(s, Use(r)).(value := View(r), views := s.views[name := r])
  {
    LookRuns(s, true);
  }

  lemma ViewChecked(name: string)
    ensures CheckStmt(Ours, VarDef(name, false, ViewP)) == Ours
  {
    assert CheckExpr(Ours, P) == Ours;
    assert CheckOwned(Ours, ViewP) == Ours;
  }

  lemma FreeingRuns(s: Run)
    requires !s.returned && "p" in s.env
    ensures Exec(Free(P), s) == Yielding(Emit(s, Freed(s.env["p"])), Nothing)
    ensures CheckStmt(Ours, Free(P)) == Gone
  {
    assert CheckOwned(Ours, P) == Gone;
    assert Take(P, s) == (Yielding(s, Direct(s.env["p"])), Some(s.env["p"]));
  }

  /** `a[0]`. */
  lemma ElementRuns(name: string, s: Run, c: Chk)
    requires !s.returned && name in s.views
    ensures Exec(Index(ArrayVar(name), Leaf), s) == Yielding(Emit(s, Look(s.views[name])), Nothing)
    ensures CheckStmt(c, Index(ArrayVar(name), Leaf)) == c
  {
    var s1 := Yielding(s, View(s.views[name]));
    assert Exec(ArrayVar(name), s) == s1 && Exec(Leaf, s1) == Yielding(s1, Nothing);
    assert CheckExpr(c, ArrayVar(name)) == c && CheckExpr(c, Leaf) == c;
  }

  /** `let p = alloc()`. */
  function Allocating(): Expr
  {
    VarDef("p", true, Alloc(Leaf))
  }

  lemma AllocatingChecked(c: Chk)
    ensures CheckStmt(c, Allocating()) == c.(vars := c.vars["p" := Unconsumed])
  {
    assert CheckOwned(c, Alloc(Leaf)) == c;
  }

  lemma AllocatingRuns(s: Run)
    requires !s.returned
    ensures var (s1, r) := Create(Yielding(s, Nothing)); Exec(Allocating(), s) == Bind(s1, "p", r, false)
  {
    var (s1, r) := Create(Yielding(s, Nothing));
    AllocRuns(s);
    BindRuns(Allocating(), s, s1, r);
  }

  lemma AllocRuns(s: Run)
    requires !s.returned
    ensures var (s1, r) := Create(Yielding(s, Nothing)); Take(Alloc(Leaf), s) == (s1, Some(r))
  {
    assert Exec(Leaf, s) == Yielding(s, Nothing);
    assert Take(Alloc(Leaf), s) == Obtain(Alloc(Leaf), s);
  }

  lemma BindRuns(e: Expr, s: Run, s1: Run, r: Ref)
    requires e.VarDef? && e.linear && !e.init.Var? && !s.returned && !s1.returned
    requires Take(e.init, s) == (s1, Some(r))
    ensures Exec(e, s) == Bind(s1, e.name, r, false)
  {
  }

  /** A block with one more statement at its front, in a function that reads no name as an array. */
  lemma FirstFits(
    a: Expr, rest: seq<Expr>, outer: set<string>, scope: set<string>, all: set<string>, seen: set<string>)
    ensures var b := [a] + rest;
            && (Block(b, outer, scope, all) <==>
                Stmt(a, scope, all) && Bound(a) !! outer && Block(rest, outer, scope + Bound(a), all))
            && (PlacedBlock(b, outer, seen, {}) <==> Placed(a, seen, {}) && PlacedBlock(rest, outer, seen + Plain(a), {}))
            && DeclsAll(b) == Decls(a) + DeclsAll(rest) && ArraysAll(b) == Arrays(a) + ArraysAll(rest)
            && (StraightAll(b) <==> Straight(a) && StraightAll(rest))
  {
    assert ([a] + rest)[1..] == rest;
  }

  /** A body of one statement that declares nothing. */
  lemma OneStatement(e: Expr)
    requires Scalar(e, {"p"}, {"p"}) && Straight(e) && Decls(e) == {} && Arrays(e) == {} && Placed(e, {}, {})
    requires !e.VarDef? && !e.Return? && !Yields(e, {"p"})
    ensures WellFormed(Taking([e])) && StraightAll([e])
  {
    FirstFits(e, [], {}, {"p"}, {"p"}, {});
    assert [e] == [e] + [];
    TakingFits([e]);
  }

  /** A function that takes `p` and reads no name as an array. */
  lemma TakingFits(b: seq<Expr>)
    requires Block(b, {}, {"p"}, {"p"}) && PlacedBlock(b, {}, {}, {}) && ArraysAll(b) == {} && DeclsAll(b) <= {"p"}
    requires !Returns(b) && !YieldsLast(b, {"p"})
    ensures WellFormed(Taking(b))
  {
    TakingParams([Param("p", true)]);
    assert Owners(Taking(b)) == {"p"};
    KnowsNone(Taking(b));
  }

  lemma TakingParams(params: seq<Param>)
    requires params == [Param("p", true)]
    ensures OwningParams(params) == {"p"} && PlainParams(params) == {} && DistinctParams(params)
  {
    assert params[1..] == [] && OwningParams(params[1..]) == {} && PlainParams(params[1..]) == {};
  }

  /** No name is read as an array. */
  lemma KnowsNone(f: Function)
    requires PlainParams(f.params) == {} && ArraysAll(f.body) == {}
    ensures Known(f) == {}
  {
  }

  // ---------- Looked through too late ----------

  /** `*p = consume(p)`: the store comes after the call. */
  function StoreThroughPassed(): Function
  {
    Taking([Assign(Deref(P, false), Consuming(), false)])
  }

  lemma StoreThroughPassedMisbehaves()
    ensures WellFormed(StoreThroughPassed()) && StraightAll(StoreThroughPassed().body)
    ensures Misbehaves(StoreThroughPassed(), [], [New(R), Passed(R), Use(R)])
  {
    var e := Assign(Deref(P, false), Consuming(), false);
    StoreIsScalar(e);
    OneStatement(e);
    StoreChecked(e);
    StoreRuns(e);
    PassedThenUsed(e);
  }

  lemma PassedThenUsed(e: Expr)
    requires CheckStmt(Ours, e) == Gone && Exec(e, AtStart([])).trace == [New(R), Passed(R), Use(R)]
    ensures Misbehaves(Taking([e]), [], [New(R), Passed(R), Use(R)])
  {
    Bodies(e, Leaf, Leaf, Ours, AtStart([]));
    TouchedAfter([New(R), Passed(R), Use(R)], 1, 2);
    TakingMisbehaves([e], [], [New(R), Passed(R), Use(R)]);
  }

  lemma ConsumingIsScalar()
    ensures var e := Consuming(); Scalar(e, {"p"}, {"p"}) && Straight(e) && Flat(e)
    ensures var e := Consuming(); Decls(e) == {} && Arrays(e) == {} && Placed(e, {}, {}) && !Overt(false, e)
  {
    var args := [P];
    assert args[1..] == [] && [true][1..] == [];
    assert Args([], [], {"p"}, {"p"}) && StraightAll([]) && FlatAll([]) && DeclsAll([]) == {} && ArraysAll([]) == {};
    assert Args(args, [true], {"p"}, {"p"}) && StraightAll(args) && FlatAll(args);
    assert DeclsAll(args) == {} && ArraysAll(args) == {};
    assert PlacedAll(args[1..], {}, {}) && Placed(P, {}, {});
    assert PlacedAll(args, {}, {});
    assert !OvertArgs(false, args, [true]);
  }

  lemma StoreIsScalar(e: Expr)
    requires e == Assign(Deref(P, false), Consuming(), false)
    ensures Scalar(e, {"p"}, {"p"}) && Straight(e) && Decls(e) == {} && Arrays(e) == {} && Placed(e, {}, {})
  {
    ConsumingIsScalar();
    assert Scalar(e.lhs, {"p"}, {"p"}) && Scalar(e.rhs, {"p"}, {"p"});
    assert Arrays(e.lhs) == {} && Placed(e.lhs, {}, {});
  }

  lemma StoreChecked(e: Expr)
    requires e == Assign(Deref(P, false), Consuming(), false)
    ensures CheckStmt(Ours, e) == Gone
  {
    ConsumingChecked();
    assert CheckExpr(Ours, P) == Ours;
    assert CheckExpr(Ours, e.lhs) == Ours;
    assert CheckOwned(Ours, e.rhs) == Gone;
    assert CheckExpr(Ours, e) == CheckOwned(CheckExpr(Ours, e.lhs), e.rhs);
  }

  lemma StoreRuns(e: Expr)
    requires e == Assign(Deref(P, false), Consuming(), false)
    ensures Exec(e, AtStart([])).trace == [New(R), Passed(R), Use(R)]
  {
    var s := AtStart([]);
    assert Exec(P, s) == s;
    assert Locate(e.lhs, s) == s;
    ConsumingRuns(s);
    var s2 := Yielding(Emit(s, Passed(R)), Nothing);
    assert Exec(e, s) == Yielding(Touch(Load(s2, s2.value), s.value), Nothing);
  }

  /** `p[consume(p)]`: so does the load. */
  function IndexByPassed(): Function
  {
    Taking([Index(P, Consuming())])
  }

  lemma IndexByPassedMisbehaves()
    ensures WellFormed(IndexByPassed()) && StraightAll(IndexByPassed().body)
    ensures Misbehaves(IndexByPassed(), [], [New(R), Passed(R), Use(R)])
  {
    var e := Index(P, Consuming());
    IndexIsScalar(e);
    OneStatement(e);
    IndexChecked(e);
    IndexRuns(e);
    PassedThenUsed(e);
  }

  lemma IndexIsScalar(e: Expr)
    requires e == Index(P, Consuming())
    ensures Scalar(e, {"p"}, {"p"}) && Straight(e) && Decls(e) == {} && Arrays(e) == {} && Placed(e, {}, {})
  {
    ConsumingIsScalar();
    assert Scalar(e.base, {"p"}, {"p"}) && Scalar(e.index, {"p"}, {"p"});
    assert Arrays(e.base) == {} && Placed(e.base, {}, {});
  }

  lemma IndexChecked(e: Expr)
    requires e == Index(P, Consuming())
    ensures CheckStmt(Ours, e) == Gone
  {
    ConsumingChecked();
    assert CheckExpr(Ours, e.base) == Ours;
    assert CheckExpr(Ours, e) == CheckExpr(CheckExpr(Ours, e.base), e.index);
  }

  lemma IndexRuns(e: Expr)
    requires e == Index(P, Consuming())
    ensures Exec(e, AtStart([])).trace == [New(R), Passed(R), Use(R)]
  {
    var s := AtStart([]);
    assert Exec(P, s) == s;
    ConsumingRuns(s);
    assert Exec(e, s) == Yielding(Touch(Exec(e.index, s), s.value), Nothing);
  }

  // ---------- Memory under another name ----------

  /** `let a = *p; free(p); a[0]` for an owner of an array: the array is not copied. */
  function ArrayOutlivesOwner(): Function
  {
    Taking([VarDef("a", false, ViewP), Free(P), Index(ArrayVar("a"), Leaf)])
  }

  const ReadAfterFree := [New(R), Use(R), Freed(R), Look(R)]

  lemma ArrayOutlivesOwnerMisbehaves()
    ensures Misbehaves(ArrayOutlivesOwner(), [], ReadAfterFree)
  {
    ViewRuns("a", AtStart([]));
    assert CheckExpr(Ours, P) == Ours;
    OutlivesMisbehaves("a", ViewP, []);
  }

  /** A name becomes the memory of `p`, which is given up before the name is read. */
  lemma OutlivesMisbehaves(name: string, init: Expr, choices: seq<nat>)
    requires CheckOwned(Ours, init) == Ours
    requires var s := Exec(VarDef(name, false, init), AtStart(choices));
             && !s.returned && s.env == map["p" := R] && s.trace == [New(R), Use(R)]
             && name in s.views && s.views[name] == R
    ensures Misbehaves(Taking([VarDef(name, false, init), Free(P), Index(ArrayVar(name), Leaf)]), choices, ReadAfterFree)
  {
    var e, free, read := VarDef(name, false, init), Free(P), Index(ArrayVar(name), Leaf);
    assert CheckStmt(Ours, e) == Ours;
    Bodies(e, free, read, Ours, AtStart(choices));
    FreedAndRead(name, Exec(e, AtStart(choices)));
    TouchedAfter(ReadAfterFree, 2, 3);
    TakingMisbehaves([e, free, read], choices, ReadAfterFree);
  }

  /** `free(p); a[0]`, where `a` is the memory of `p`. */
  lemma FreedAndRead(name: string, s: Run)
    requires !s.returned && "p" in s.env && s.env["p"] == R && name in s.views && s.views[name] == R
    requires s.trace == [New(R), Use(R)]
    ensures var free, read := Free(P), Index(ArrayVar(name), Leaf);
            && CheckStmt(CheckStmt(Ours, free), read) == Gone
            && Exec(read, Exec(free, s)).trace == ReadAfterFree
  {
    FreeingRuns(s);
    ElementRuns(name, Exec(Free(P), s), Gone);
  }

  /** `let r = if c { let a = *p } else { let b = *p }; free(p); r[0]`: the value of a block is that of its last
      statement, even of a declaration. */
  function BranchYieldsArray(): Function
  {
    Taking([VarDef("r", false, EitherView()), Free(P), Index(ArrayVar("r"), Leaf)])
  }

  function EitherView(): Expr
  {
    If(Leaf, [VarDef("a", false, ViewP)], Else([VarDef("b", false, ViewP)]))
  }

  lemma BranchYieldsArrayMisbehaves()
    ensures !WellFormed(BranchYieldsArray()) && Yields(EitherView(), {"p"})
    ensures Misbehaves(BranchYieldsArray(), [1], ReadAfterFree)
  {
    EitherViewChecked();
    EitherViewRuns();
    OutlivesMisbehaves("r", EitherView(), [1]);
    EitherViewYields(BranchYieldsArray());
  }

  lemma EitherViewYields(f: Function)
    requires f == BranchYieldsArray()
    ensures !WellFormed(f) && Yields(EitherView(), {"p"})
  {
    var all, e := Owners(f), VarDef("r", false, EitherView());
    assert Leading(f.body) == f.body && f.body[0] == e;
    assert Yields(EitherView(), all);
    assert !Stmt(e, OwningParams(f.params), all);
  }

  lemma EitherViewChecked()
    ensures CheckOwned(Ours, EitherView()) == Ours
  {
    ViewChecked("a");
    ViewChecked("b");
    Bodies(VarDef("a", false, ViewP), Leaf, Leaf, Ours, AtStart([]));
    Bodies(VarDef("b", false, ViewP), Leaf, Leaf, Ours, AtStart([]));
    SameMerge(Ours);
    BranchesChecked(Ours, [VarDef("a", false, ViewP)], [VarDef("b", false, ViewP)]);
  }

  lemma BranchesChecked(c: Chk, thn: seq<Expr>, els: seq<Expr>)
    ensures var c1 := CheckBlock(c, thn);
            var c2 := CheckBlock(c1.(vars := Overwrite(c1.vars, c.vars)), els);
            CheckStmt(c, If(Leaf, thn, Else(els))) == Merge(c2, c.vars, [c1.vars, c2.vars])
  {
    assert CheckExpr(c, Leaf) == c;
  }

  lemma SameMerge(c: Chk)
    ensures Overwrite(c.vars, c.vars) == c.vars && Merge(c, c.vars, [c.vars, c.vars]) == c
  {
    assert forall m | m in [c.vars, c.vars] :: m == c.vars;
  }

  lemma EitherViewRuns()
    ensures var s := Exec(VarDef("r", false, EitherView()), AtStart([1]));
            && !s.returned && s.env == map["p" := R] && s.trace == [New(R), Use(R)]
            && "r" in s.views && s.views["r"] == R
  {
    var s, d := AtStart([]), VarDef("a", false, ViewP);
    TakesBranch(AtStart([1]), [d], Else([VarDef("b", false, ViewP)]));
    var s0 := Yielding(s, Nothing);
    ViewRuns("a", s0);
    Bodies(d, Leaf, Leaf, Ours, s0);
    assert Forget([d], Exec(d, s0)) == Forget([d][1..], Exec(d, s0)) == Exec(d, s0);
  }

  /** `if` with the first branch chosen. */
  lemma TakesBranch(s: Run, thn: seq<Expr>, els: Else)
    requires !s.returned && s.choices == [1]
    ensures Exec(If(Leaf, thn, els), s) == Inner(thn, Yielding(s.(choices := []), Nothing), true)
  {
    assert s.choices[1..] == [];
    assert Choose(Exec(Leaf, s)) == (1, Yielding(s.(choices := []), Nothing));
  }

  /** `let a = [1]; let b = *p; while c { let a = b }; free(p); a[0]`, with the first statement or without it: the
      name declared in the body of a `while` means the same afterwards. */
  function NameLeaves(declared: bool): Function
  {
    Taking((if declared then [VarDef("a", false, Literal([Leaf]))] else []) + Leaving())
  }

  function Leaving(): seq<Expr>
  {
    [VarDef("b", false, ViewP)] + [While(Leaf, [Rebinding]), Free(P), Index(ArrayVar("a"), Leaf)]
  }

  const Rebinding := VarDef("a", false, ArrayVar("b"))

  lemma NameLeavesMisbehaves(declared: bool)
    ensures !Lexical(NameLeaves(declared))
    ensures Misbehaves(NameLeaves(declared), [1], ReadAfterFree)
  {
    var first, f, s := VarDef("a", false, Literal([Leaf])), NameLeaves(declared), AtStart([1]);
    NotLexical(declared);
    if declared {
      assert f.body == [first] + Leaving();
      FirstStatement(first, Leaving(), Ours, s);
      LiteralRuns(s);
      LeavingRuns(Exec(first, s));
    } else {
      assert f.body == Leaving();
      LeavingRuns(s);
    }
    TouchedAfter(ReadAfterFree, 2, 3);
    TakingMisbehaves(f.body, [1], ReadAfterFree);
  }

  lemma NotLexical(declared: bool)
    ensures !Lexical(NameLeaves(declared))
  {
    var first, f := VarDef("a", false, Literal([Leaf])), NameLeaves(declared);
    var view, loop, free, read := VarDef("b", false, ViewP), While(Leaf, [Rebinding]), Free(P), Index(ArrayVar("a"), Leaf);
    if declared {
      assert f.body == [first, view, loop, free, read];
      HidesVisible(first, view, free, read, f);
    } else {
      assert f.body == [view, loop, free, read];
      UsedOutside(view, free, f);
    }
  }

  lemma LiteralRuns(s: Run)
    requires s == AtStart([1])
    ensures var first := VarDef("a", false, Literal([Leaf]));
            Exec(first, s) == Yielding(s, Nothing) && CheckStmt(Ours, first) == Ours
  {
    var e, s1 := Literal([Leaf]), Yielding(s, Nothing);
    assert [Leaf][1..] == [];
    assert ExecArgs([], [], s1) == (s1, []);
    assert Exec(Leaf, s) == s1 && Load(s1, Nothing) == s1;
    assert ExecArgs([Leaf], [], s) == (s1, []);
    assert Exec(e, s) == s1;
    assert s1.views - {"a"} == s1.views;
    assert CheckElements(Ours, []) == Ours && CheckOwned(Ours, Leaf) == Ours && CheckElements(Ours, [Leaf]) == Ours;
    assert CheckOwned(Ours, e) == Ours;
  }

  lemma LeavingRuns(s: Run)
    requires !s.returned && s.flat && s.env == map["p" := R] && s.trace == [New(R)] && s.choices == [1]
    ensures CheckBlock(Ours, Leaving()) == Gone && ExecAll(Leaving(), s).trace == ReadAfterFree
  {
    var view, loop, free, read := VarDef("b", false, ViewP), While(Leaf, [Rebinding]), Free(P), Index(ArrayVar("a"), Leaf);
    var s1 := Exec(view, s);
    FirstStatement(view, [loop, free, read], Ours, s);
    Bodies(loop, free, read, Ours, s1);
    ViewChecked("b");
    ViewRuns("b", s);
    RoundChecked();
    RoundRuns(s1);
    FreedAndRead("a", Exec(loop, s1));
  }

  lemma RoundChecked()
    ensures CheckStmt(Ours, While(Leaf, [Rebinding])) == Ours
  {
    Bodies(Rebinding, Leaf, Leaf, Ours, AtStart([]));
    assert CheckExpr(Ours, ArrayVar("b")) == Ours && CheckOwned(Ours, ArrayVar("b")) == Ours;
    assert CheckStmt(Ours, Rebinding) == Ours;
    assert CheckExpr(Ours, Leaf) == Ours;
    assert Overwrite(Ours.vars, Ours.vars) == Ours.vars;
    assert LeaveLoop(Ours, Ours.vars) == Ours;
  }

  /** One round of the loop. */
  lemma RoundRuns(s: Run)
    requires !s.returned && s.flat && s.choices == [1] && "b" in s.views && s.views["b"] == R
    ensures Exec(While(Leaf, [Rebinding]), s) == s.(choices := [], views := s.views["a" := R], value := Nothing)
  {
    var e, s0 := While(Leaf, [Rebinding]), s.(choices := []);
    assert s.choices[1..] == [] && Choose(s) == (1, s0);
    var s1 := Yielding(s0, Nothing);
    RebindingRuns(s1);
    var s2 := Inner([Rebinding], s1, true);
    assert Exec(Leaf, s0) == s1 && Exec(Leaf, s2) == Yielding(s2, Nothing);
    assert Iterate(e, 0, s2) == Exec(Leaf, s2);
    assert Iterate(e, 1, s0) == Iterate(e, 0, s2);
    assert Exec(e, s) == Yielding(Iterate(e, 1, s0), Nothing);
  }

  lemma RebindingRuns(s: Run)
    requires !s.returned && s.flat && s.value == Nothing && "b" in s.views && s.views["b"] == R
    ensures Inner([Rebinding], s, true) == s.(views := s.views["a" := R], value := View(R))
  {
    assert Yielding(s, Nothing) == s;
    Bodies(Rebinding, Leaf, Leaf, Ours, s);
    assert Exec(ArrayVar("b"), s) == Yielding(s, View(R));
    var s1 := Exec(Rebinding, s);
    assert [Rebinding][1..] == [] && Forget([Rebinding], s1) == Forget([], s1) == s1;
  }

  /** The names that own nothing in front of a statement. */
  function SeenBefore(b: seq<Expr>, k: nat, seen: set<string>): set<string>
    requires k < |b|
  {
    if k == 0 then seen else SeenBefore(b[1..], k - 1, seen + Plain(b[0]))
  }

  lemma {:induction false} PlacedAt(b: seq<Expr>, k: nat, outer: set<string>, seen: set<string>, arrays: set<string>)
    requires k < |b|
    ensures PlacedBlock(b, outer, seen, arrays) ==> Placed(b[k], SeenBefore(b, k, seen), arrays)
    ensures Arrays(b[k]) <= ArraysAll(b) && Plains(b[k]) <= PlainsAll(b)
    ensures seen <= SeenBefore(b, k, seen)
  {
    if k > 0 {
      PlacedAt(b[1..], k - 1, outer, seen + Plain(b[0]), arrays);
    }
  }

  /** The body of the loop declares a name that is visible around it. */
  lemma HidesVisible(first: Expr, view: Expr, free: Expr, read: Expr, f: Function)
    requires Plain(first) == {"a"} && "a" in Arrays(read)
    requires f.body == [first, view, While(Leaf, [Rebinding]), free, read]
    ensures !Lexical(f)
  {
    var b, known, arrays := f.body, Known(f), ArraysAll(f.body);
    PlacedAt(b, 2, {}, known, arrays);
    PlacedAt(b, 4, {}, known, arrays);
    PlacedAt(b[1..], 1, {}, known + Plain(first), arrays);
    var seen := SeenBefore(b, 2, known);
    assert seen == SeenBefore(b[1..], 1, known + Plain(first));
    assert !PlacedBlock([Rebinding], seen, seen, arrays);
  }

  /** It declares one that is used after it. */
  lemma UsedOutside(view: Expr, free: Expr, f: Function)
    requires Plain(view) == {"b"} && Plain(free) == {}
    requires f.params == [Param("p", true)]
    requires f.body == [view, While(Leaf, [Rebinding]), free, Index(ArrayVar("a"), Leaf)]
    ensures !Lexical(f)
  {
    var b, known, arrays := f.body, Known(f), ArraysAll(f.body);
    PlacedAt(b, 3, {}, known, arrays);
    PlacedAt(b, 1, {}, known, arrays);
    LoopDeclares(f);
    var seen, b1, b2 := known + Plain(view), b[1..], b[2..];
    assert b1[1..] == b2 && b1[0] == b[1] && b2[0] == free && seen + Plain(b[1]) == seen && seen + Plain(free) == seen;
    assert SeenBefore(b, 3, known) == SeenBefore(b1, 2, seen) == SeenBefore(b2, 1, seen) == seen;
    assert !Placed(ArrayVar("a"), seen, arrays);
  }

  lemma LoopDeclares(f: Function)
    requires f.params == [Param("p", true)] && Plains(While(Leaf, [Rebinding])) <= PlainsAll(f.body)
    ensures "a" !in Known(f)
  {
    assert [Rebinding][1..] == [] && Plains(Rebinding) == {"a"};
    assert PlainsAll([Rebinding]) == {"a"} + PlainsAll([]);
    assert f.params[1..] == [] && PlainParams(f.params) == {};
  }

  // ---------- Names declared again ----------

  const Q := Ref(1, 1)

  /** `let p = alloc(); let p = alloc(); free(p)`: registering a name again forgets the first cell. */
  function NameTaken(): Function
  {
    Function(false, [], [Allocating(), Allocating(), Free(P)])
  }

  lemma NameTakenMisbehaves()
    ensures Misbehaves(NameTaken(), [], [New(R), New(Q), Hide(R), Freed(Q)])
  {
    var b, s := NameTaken().body, Start([], true);
    Bodies(b[0], b[1], b[2], Empty, s);
    AllocatingChecked(Empty);
    AllocatingChecked(Ours);
    AllocatingRuns(s);
    assert Exec(b[0], s) == AtStart([]) by {
      assert Create(Yielding(s, Nothing)).0.trace == [New(R)];
    }
    AgainRuns(AtStart([]));
    FreeingRuns(Exec(b[1], AtStart([])));
    assert BodyState(NameTaken()) == Gone;
    NeverConsumed([New(R), New(Q), Hide(R), Freed(Q)], 0);
  }

  /** `let p = alloc()` once more. */
  lemma AgainRuns(s: Run)
    requires !s.returned && "p" in s.env && s.env["p"] == R && s.supply == 1
    ensures var s1 := Exec(Allocating(), s);
            !s1.returned && s1.env == s.env["p" := Q] && s1.trace == s.trace + [New(Q), Hide(R)]
  {
    AllocatingRuns(s);
    assert s.trace + [New(Q)] + [Hide(R)] == s.trace + [New(Q), Hide(R)];
  }

  /** `if c { let p = alloc() } else { let p = alloc(); free(p) } return 0`: the second branch registers the name
      again, and what became of the first cell is forgotten. */
  function NameShared(): Function
  {
    Function(false, [], [SharedIn(), Return(Leaf, false)])
  }

  function SharedIn(): Expr
  {
    If(Leaf, [Allocating()], Else([Allocating(), Free(P)]))
  }

  lemma NameSharedMisbehaves()
    ensures WellFormed(NameShared()) && !Unobstructed(NameShared())
    ensures Misbehaves(NameShared(), [1], [New(R), Hide(R)])
  {
    var b, s := NameShared().body, Start([1], true);
    Bodies(b[0], b[1], Leaf, Empty, s);
    SharedChecked();
    SharedRuns(s);
    ReturnRuns(Exec(b[0], s));
    assert BodyState(NameShared()) == Gone;
    NeverConsumed([New(R), Hide(R)], 0);
    SharedWellFormed();
    Overlooks(NameShared(), [1]);
  }

  /** What is well formed and accepted but misbehaves does not meet the condition. */
  lemma Overlooks(f: Function, choices: seq<nat>)
    requires WellFormed(f) && Misbehaves(f, choices, RunOf(f, choices).trace)
    ensures !Unobstructed(f)
  {
    if Unobstructed(f) {
      AcceptedIsSafe(f, choices);
    }
  }

  lemma SharedChecked()
    ensures CheckStmt(Empty, SharedIn()) == Gone
  {
    AllocatingChecked(Empty);
    AllocatingChecked(Ours);
    FreeingRuns(AtStart([]));
    Bodies(Allocating(), Leaf, Leaf, Empty, AtStart([]));
    Bodies(Allocating(), Free(P), Leaf, Ours, AtStart([]));
    BranchesChecked(Empty, [Allocating()], [Allocating(), Free(P)]);
    assert Overwrite(Ours.vars, Empty.vars) == Ours.vars && Overwrite(Gone.vars, Empty.vars) == Gone.vars;
    assert Merge(Gone, Empty.vars, [Ours.vars, Gone.vars]) == Gone;
  }

  lemma SharedRuns(s: Run)
    requires s == Start([1], true)
    ensures var s1 := Exec(SharedIn(), s); !s1.returned && s1.trace == [New(R), Hide(R)]
  {
    var s0 := s.(choices := []);
    TakesBranch(s, [Allocating()], Else([Allocating(), Free(P)]));
    assert Yielding(s0, Nothing) == s0;
    Bodies(Allocating(), Leaf, Leaf, Empty, s0);
    AllocatingRuns(s0);
    assert Exec(Allocating(), s0) == AtStart([]) by {
      assert Create(s0).0.trace == [New(R)];
    }
    assert [Allocating()][1..] == [];
    assert Forget([Allocating()], AtStart([])) == Forget([], Emit(AtStart([]), Hide(R)));
  }

  lemma ReturnRuns(s: Run)
    requires !s.returned
    ensures Exec(Return(Leaf, false), s).trace == s.trace
    ensures forall c :: CheckStmt(c, Return(Leaf, false)) == c
  {
    assert Take(Leaf, s) == (Yielding(s, Nothing), None);
    assert Yield(Leaf, s) == Yielding(s, Nothing);
    forall c ensures CheckStmt(c, Return(Leaf, false)) == c {
      assert CheckOwned(c, Leaf) == c;
    }
  }

  lemma SharedWellFormed()
    ensures WellFormed(NameShared())
  {
    SharedFits(Allocating(), Free(P));
    ThenReturns(SharedIn(), Return(Leaf, false));
  }

  /** A function of a branch and a `return`. */
  lemma ThenReturns(e: Expr, last: Expr)
    requires Flow(e, {}, {"p"}) && Decls(e) == {"p"} && Arrays(e) == {} && Placed(e, {}, {}) && last == Return(Leaf, false)
    ensures WellFormed(Function(false, [], [e, last]))
  {
    var f, all := Function(false, [], [e, last]), {"p"};
    assert f.body == [e] + [last] && Leading(f.body) == [e];
    FirstFits(e, [], {}, {}, all, {});
    FirstFits(last, [], {}, {}, all, {});
    FirstFits(e, [last], {}, {}, all, {});
    assert [e] == [e] + [] && [last] == [last] + [] && Stmt(e, {}, all);
    assert Owners(f) == all && ArraysAll(f.body) == {};
    KnowsNone(f);
  }

  lemma SharedFits(a: Expr, free: Expr)
    requires a == Allocating() && free == Free(P)
    ensures var e := SharedIn(); Flow(e, {}, {"p"}) && Decls(e) == {"p"} && Arrays(e) == {} && Placed(e, {}, {})
  {
    var all := {"p"};
    FirstFits(a, [], {}, {}, all, {});
    FirstFits(free, [], {}, all, all, {});
    FirstFits(a, [free], {}, {}, all, {});
    assert [a] == [a] + [] && [free] == [free] + [] && [a, free] == [a] + [free];
    assert Stmt(a, {}, all) && Stmt(free, all, all);
  }

  // ---------- Not looked at ----------

  /** `free(p); -(*p)`: operands of the kinds the dispatch ignores are never walked. */
  function HiddenUse(): Function
  {
    Taking([Free(P), Opaque([Deref(P, false)])])
  }

  lemma HiddenUseMisbehaves()
    ensures Misbehaves(HiddenUse(), [], [New(R), Freed(R), Use(R)])
  {
    var free, e, s := Free(P), Opaque([Deref(P, false)]), AtStart([]);
    Bodies(free, e, Leaf, Ours, s);
    FreeingRuns(s);
    assert CheckStmt(Gone, e) == Gone;
    HiddenRuns(Deref(P, false), Exec(free, s));
    LookRuns(Exec(free, s), false);
    TouchedAfter([New(R), Freed(R), Use(R)], 1, 2);
    TakingMisbehaves([free, e], [], [New(R), Freed(R), Use(R)]);
  }

  lemma HiddenRuns(operand: Expr, s: Run)
    requires !s.returned && !Exec(operand, s).value.View?
    ensures Exec(Opaque([operand]), s) == Yielding(Exec(operand, s), Nothing)
  {
    var s1 := Exec(operand, s);
    assert [operand][1..] == [] && Load(s1, s1.value) == s1;
    assert ExecArgs([], [], s1) == (s1, []);
    assert ExecArgs([operand], [], s) == ExecArgs([], [], Load(s1, s1.value));
  }

  /** `let x = -consume(p); free(p)`: so an owner can be given up unseen, and then again. */
  function HiddenTake(): Function
  {
    Taking([Negating(), Free(P)])
  }

  function Negating(): Expr
  {
    VarDef("x", false, Opaque([Consuming()]))
  }

  lemma HiddenTakeMisbehaves()
    ensures WellFormed(HiddenTake()) && !OvertAll(true, HiddenTake().body) && !Unobstructed(HiddenTake())
    ensures Misbehaves(HiddenTake(), [], [New(R), Passed(R), Freed(R)])
  {
    var e, free := Negating(), Free(P);
    GivenTwice(e, free);
    TwiceFits(e, free);
    Overlooks(HiddenTake(), []);
  }

  lemma TwiceFits(e: Expr, free: Expr)
    requires e == Negating() && free == Free(P)
    ensures WellFormed(Taking([e, free])) && !OvertAll(true, [e, free])
  {
    NegatingFits(e);
    TwoFit(e, free, []);
    assert [e, free] + [] == [e, free];
  }

  lemma GivenTwice(e: Expr, free: Expr)
    requires e == Negating() && free == Free(P)
    ensures Misbehaves(Taking([e, free]), [], [New(R), Passed(R), Freed(R)])
  {
    var s := AtStart([]);
    Bodies(e, free, Leaf, Ours, s);
    NegatingRuns([]);
    FreeingRuns(Exec(e, s));
    TouchedAfter([New(R), Passed(R), Freed(R)], 1, 2);
    TakingMisbehaves([e, free], [], [New(R), Passed(R), Freed(R)]);
  }

  lemma NegatingRuns(choices: seq<nat>)
    ensures CheckStmt(Ours, Negating()) == Ours
    ensures Exec(Negating(), AtStart(choices)) == Yielding(Emit(AtStart(choices), Passed(R)), Nothing)
  {
    var s := AtStart(choices);
    ConsumingRuns(s);
    HiddenRuns(Consuming(), s);
    assert s.views - {"x"} == s.views;
    assert CheckOwned(Ours, Opaque([Consuming()])) == Ours;
  }

  /** `x` is declared, then `p` is given up or declared again, in a function that takes `p`. */
  ghost predicate Fitting(x: Expr, e: Expr, rest: seq<Expr>)
  {
    var all := {"p"};
    && Stmt(x, all, all) && Decls(x) == {} && Arrays(x) == {} && Placed(x, {}, {}) && Plain(x) == {"x"} && Bound(x) == {}
    && Stmt(e, all, all) && Decls(e) <= all && Arrays(e) == {} && Placed(e, {"x"}, {}) && Plain(e) == {}
    && Block(rest, {}, all, all) && DeclsAll(rest) == {} && ArraysAll(rest) == {} && PlacedBlock(rest, {}, {"x"}, {})
    && (if rest == [] then !e.Return? && !Yields(e, all) else !Returns(rest) && !YieldsLast(rest, all))
  }

  lemma TwoFit(x: Expr, e: Expr, rest: seq<Expr>)
    requires Fitting(x, e, rest)
    ensures WellFormed(Taking([x, e] + rest)) && (!Overt(true, x) ==> !OvertAll(true, [x, e] + rest))
  {
    var b, all := [x, e] + rest, {"p"};
    assert b == [x] + ([e] + rest) && Bound(e) <= Decls(e) by { BoundDeclared(e); }
    assert all + Bound(e) == all && all + Bound(x) == all && {} + Plain(x) == {"x"} && {"x"} + Plain(e) == {"x"};
    FirstFits(e, rest, {}, all, all, {"x"});
    FirstFits(x, [e] + rest, {}, all, all, {});
    assert b[|b| - 1] == if rest == [] then e else rest[|rest| - 1];
    TakingFits(b);
  }

  lemma BoundDeclared(e: Expr)
    ensures Bound(e) <= Decls(e)
  {
  }

  lemma NegatingFits(x: Expr)
    requires x == Negating()
    ensures Stmt(x, {"p"}, {"p"}) && Decls(x) == {} && Arrays(x) == {} && Placed(x, {}, {}) && !Overt(true, x)
  {
    HiddenFits();
  }

  lemma HiddenFits()
    ensures var e := Opaque([Consuming()]); Scalar(e, {"p"}, {"p"}) && !Overt(true, e)
    ensures var e := Opaque([Consuming()]); Decls(e) == {} && Arrays(e) == {} && Placed(e, {}, {})
  {
    var es := [Consuming()];
    ConsumingIsScalar();
    assert es[1..] == [] && Operands([], {"p"}, {"p"}) && FlatAll([]);
    assert Operands(es, {"p"}, {"p"}) && FlatAll(es) && !OvertAll(false, es);
    assert DeclsAll(es) == {} && ArraysAll(es) == {};
    assert PlacedAll(es[1..], {}, {}) && PlacedAll(es, {}, {});
  }

  /** `let x = -consume(p); let p = alloc(); free(p)`: but if the name is then declared again, no harm is done. */
  function TakenThenNew(): Function
  {
    Taking([Negating(), Allocating(), Free(P)])
  }

  lemma TakenThenNewIsDisciplined()
    ensures WellFormed(TakenThenNew()) && Accepts(TakenThenNew()) && !Unobstructed(TakenThenNew())
    ensures forall choices :: Disciplined(RunOf(TakenThenNew(), choices).trace)
  {
    var x, e, free := Negating(), Allocating(), Free(P);
    ThenNewFits(x, e, free);
    OvertNeeded(TakenThenNew());
    ThenNewChecked(x, e, free);
    TakingAccepted([x, e, free]);
    forall choices ensures Disciplined(RunOf(TakenThenNew(), choices).trace) {
      TakingStarts([x, e, free], choices);
      ThenNewRuns(x, e, free, choices);
      LegalReplacement(R, Q);
    }
  }

  lemma OvertNeeded(f: Function)
    requires WellFormed(f) && !OvertAll(true, f.body)
    ensures !Unobstructed(f)
  {
    if Unobstructed(f) {
      UnobstructedOvert(f);
    }
  }

  lemma ThenNewFits(x: Expr, e: Expr, free: Expr)
    requires x == Negating() && e == Allocating() && free == Free(P)
    ensures WellFormed(Taking([x, e, free])) && !OvertAll(true, [x, e, free])
  {
    NegatingFits(x);
    assert [free] == [free] + [] && [x, e] + [free] == [x, e, free];
    FirstFits(free, [], {}, {"p"}, {"p"}, {"x"});
    assert Stmt(free, {"p"}, {"p"}) && Decls(free) == {} && Arrays(free) == {} && Placed(free, {"x"}, {});
    assert Stmt(e, {"p"}, {"p"}) && Decls(e) == {"p"} && Arrays(e) == {} && Placed(e, {"x"}, {});
    TwoFit(x, e, [free]);
  }

  lemma ThenNewChecked(x: Expr, e: Expr, free: Expr)
    requires x == Negating() && e == Allocating() && free == Free(P)
    ensures CheckBlock(Ours, [x, e, free]) == Gone
  {
    Bodies(x, e, free, Ours, AtStart([]));
    NegatingRuns([]);
    AllocatingChecked(Ours);
    FreeingRuns(AtStart([]));
  }

  lemma ThenNewRuns(x: Expr, e: Expr, free: Expr, choices: seq<nat>)
    requires x == Negating() && e == Allocating() && free == Free(P)
    ensures ExecAll([x, e, free], AtStart(choices)).trace == [New(R), Passed(R), New(Q), Hide(R), Freed(Q)]
  {
    var s := AtStart(choices);
    Bodies(x, e, free, Ours, s);
    NegatingRuns(choices);
    AgainRuns(Exec(x, s));
    FreeingRuns(Exec(e, Exec(x, s)));
  }

  lemma Step(t: seq<Event>, e: Event)
    ensures Audit(t + [e]) == Post(Audit(t), e)
  {
    assert (t + [e])[..|t|] == t;
  }

  lemma LegalReplacement(r: Ref, q: Ref)
    requires r.cell != q.cell && r.owner != q.owner
    ensures Disciplined([New(r), Passed(r), New(q), Hide(r), Freed(q)])
  {
    LegalPass(r);
    var t := [New(r), Passed(r)];
    Step(t, New(q));
    Step(t + [New(q)], Hide(r));
    Step(t + [New(q)] + [Hide(r)], Freed(q));
    assert t + [New(q)] + [Hide(r)] + [Freed(q)] == [New(r), Passed(r), New(q), Hide(r), Freed(q)];
  }

  lemma LegalPass(r: Ref)
    ensures Disciplined([New(r), Passed(r)])
    ensures var l := Audit([New(r), Passed(r)]); l.owners == {r.owner} && l.cells == {r.cell}
  {
    Step([], New(r));
    assert [] + [New(r)] == [New(r)];
    Step([New(r)], Passed(r));
    assert [New(r)] + [Passed(r)] == [New(r), Passed(r)];
  }

  /** `*alloc(n)`: nobody frees what is looked through. */
  function DroppedTemporary(): Function
  {
    Function(false, [], [Deref(Alloc(Leaf), false)])
  }

  lemma DroppedTemporaryMisbehaves()
    ensures Misbehaves(DroppedTemporary(), [], [New(R), Drop(R)])
  {
    var e, s := DroppedTemporary().body[0], Start([], true);
    Bodies(e, Leaf, Leaf, Empty, s);
    assert CheckExpr(Empty, e.operand) == Empty;
    assert CheckStmt(Empty, e) == Empty;
    DroppingRuns(s);
    NeverConsumed([New(R), Drop(R)], 0);
  }

  lemma DroppingRuns(s: Run)
    requires s == Start([], true)
    ensures Exec(Deref(Alloc(Leaf), false), s).trace == [New(R), Drop(R)]
  {
    AllocRuns(s);
    var (s1, r) := Create(Yielding(s, Nothing));
    assert Take(Alloc(Leaf), s) == Obtain(Alloc(Leaf), s);
    assert Exec(Alloc(Leaf), s) == Yielding(Emit(s1, Drop(r)), Nothing);
  }

  /** `if c { return } free(p)`: leaving early skips the check at the end of the scope. */
  function EarlyReturn(): Function
  {
    Taking([If(Leaf, [Ending()], NoElse), Free(P)])
  }

  function Ending(): Expr
  {
    Return(Leaf, false)
  }

  lemma EarlyReturnMisbehaves()
    ensures Misbehaves(EarlyReturn(), [1], [New(R)])
  {
    var e, free, s := If(Leaf, [Ending()], NoElse), Free(P), AtStart([1]);
    Bodies(e, free, Leaf, Ours, s);
    BranchChecked(Ending());
    FreeingRuns(s);
    TakesReturn(Ending(), s);
    assert Exec(free, Exec(e, s)) == Exec(e, s);
    NeverConsumed([New(R)], 0);
    TakingMisbehaves([e, free], [1], [New(R)]);
  }

  lemma BranchChecked(ret: Expr)
    requires ret == Return(Leaf, false)
    ensures CheckStmt(Ours, If(Leaf, [ret], NoElse)) == Ours
  {
    Bodies(ret, Leaf, Leaf, Ours, AtStart([]));
    ReturnRuns(AtStart([]));
    assert CheckExpr(Ours, Leaf) == Ours;
    SameMerge(Ours);
    assert CheckExpr(Ours, If(Leaf, [ret], NoElse)) ==
           Merge(Ours.(vars := Overwrite(Ours.vars, Ours.vars)), Ours.vars, [Ours.vars, Ours.vars]);
  }

  lemma TakesReturn(ret: Expr, s: Run)
    requires ret == Return(Leaf, false) && !s.returned && s.choices == [1]
    ensures var s1 := Exec(If(Leaf, [ret], NoElse), s); s1.returned && s1.trace == s.trace
  {
    var s0 := Yielding(s.(choices := []), Nothing);
    TakesBranch(s, [ret], NoElse);
    Bodies(ret, Leaf, Leaf, Ours, s0);
    ReturnRuns(s0);
    assert Forget([ret], Exec(ret, s0)) == Exec(ret, s0);
  }

  // ---------- Rejected needlessly ----------

  /** `f(p, *p)`: the second argument is evaluated before the call. */
  function PassedAndLookedThrough(): Function
  {
    Taking([Call([P, Deref(P, false)], [true, false], false)])
  }

  lemma PassedAndLookedThroughIsRejected()
    ensures WellFormed(PassedAndLookedThrough()) && StraightAll(PassedAndLookedThrough().body)
    ensures var f := PassedAndLookedThrough();
            && !Accepts(f) && !PromptAll({}, f.body)
            && RunOf(f, []).trace == [New(R), Use(R), Passed(R)] && Disciplined(RunOf(f, []).trace)
  {
    var d := Deref(P, false);
    var e := Call([P, d], [true, false], false);
    LateLookFits(d);
    OneStatement(e);
    LateLookChecked(d);
    LateLookRuns(d);
    TakingStarts([e], []);
    Bodies(e, Leaf, Leaf, Ours, AtStart([]));
    LegalTrace(R);
  }

  lemma LateLookFits(d: Expr)
    requires d == Deref(P, false)
    ensures var e := Call([P, d], [true, false], false);
            Scalar(e, {"p"}, {"p"}) && Straight(e) && Decls(e) == {} && Arrays(e) == {} && Placed(e, {}, {})
  {
    var all := {"p"};
    assert [d] == [d] + [] && [P, d] == [P] + [d] && [false] == [false] + [] && [true, false] == [true] + [false];
    FirstArg(d, [], false, [], all, all);
    FirstArg(P, [d], true, [false], all, all);
    FirstFits(d, [], {}, all, all, {});
    FirstFits(P, [d], {}, all, all, {});
    assert Owned(P, all, all) && Straight(P) && Decls(P) == {} && Arrays(P) == {} && Placed(P, {}, {});
    assert Scalar(d, all, all) && Straight(d) && Decls(d) == {} && Arrays(d) == {} && Placed(d, {}, {});
  }

  /** Arguments with one more at their front. */
  lemma FirstArg(a: Expr, rest: seq<Expr>, take: bool, takes: seq<bool>, scope: set<string>, all: set<string>)
    ensures PlacedAll([a] + rest, {}, {}) <==> Placed(a, {}, {}) && PlacedAll(rest, {}, {})
    ensures Args([a] + rest, [take] + takes, scope, all) <==>
            (if take then Owned(a, scope, all) else Scalar(a, scope, all)) && Args(rest, takes, scope, all)
  {
    assert ([a] + rest)[1..] == rest && ([take] + takes)[1..] == takes;
  }

  lemma LateLookChecked(d: Expr)
    requires d == Deref(P, false)
    ensures CheckStmt(Ours, Call([P, d], [true, false], false)).failed
    ensures !PromptAll({}, [Call([P, d], [true, false], false)])
  {
    assert [P, d][1..] == [d] && [true, false][1..] == [false] && [d][1..] == [] && [false][1..] == [];
    assert CheckOwned(Ours, P) == Gone;
    assert CheckExpr(Gone, d).failed;
    assert CheckArgs(Ours, [P, d], [true, false]) == CheckArgs(Gone, [d], [false]);
    assert CheckArgs(Gone, [d], [false]) == CheckArgs(CheckExpr(Gone, d), [], []);
    assert !PromptArgs({"p"}, [d], [false]);
    assert {} + TakenName(P) == {"p"};
    assert !PromptArgs({}, [P, d], [true, false]);
  }

  lemma LateLookRuns(d: Expr)
    requires d == Deref(P, false)
    ensures Exec(Call([P, d], [true, false], false), AtStart([])).trace == [New(R), Use(R), Passed(R)]
  {
    var s := AtStart([]);
    assert [P, d][1..] == [d] && [true, false][1..] == [false] && [d][1..] == [] && [false][1..] == [] && [R][1..] == [];
    LookRuns(s, false);
    var s1 := Exec(d, s);
    assert Take(P, s) == (s, Some(R)) && Load(s1, s1.value) == s1;
    assert ExecArgs([], [], s1) == (s1, []);
    assert ExecArgs([d], [false], s) == (s1, []);
    assert [R] + [] == [R];
    assert ExecArgs([P, d], [true, false], s) == (s1, [R]);
    assert Pass(s1, [R]) == Pass(Emit(s1, Passed(R)), []);
  }

  lemma LegalTrace(r: Ref)
    ensures Disciplined([New(r), Use(r), Passed(r)])
  {
    Step([], New(r));
    assert [] + [New(r)] == [New(r)];
    Step([New(r)], Use(r));
    Step([New(r)] + [Use(r)], Passed(r));
    assert [New(r)] + [Use(r)] + [Passed(r)] == [New(r), Use(r), Passed(r)];
  }

  /** `for i in consume(p)..n {}`: the bounds are worked out once, before the first round. */
  function BoundTakes(): Function
  {
    Taking([Bounded()])
  }

  function Bounded(): Expr
  {
    For("i", Consuming(), Leaf, [])
  }

  lemma BoundTakesIsRejected()
    ensures var f := BoundTakes();
            && WellFormed(f) && StructuredAll(f.body) && OvertAll(true, f.body)
            && !Accepts(f) && !PromptAll({}, f.body) && forall choices :: Disciplined(RunOf(f, choices).trace)
  {
    var f, e := BoundTakes(), Bounded();
    BoundedFits(e);
    assert [e][1..] == [];
    BoundedChecked(e);
    TakingStarts([e], []);
    Bodies(e, Leaf, Leaf, Ours, AtStart([]));
    forall choices ensures Disciplined(RunOf(f, choices).trace) {
      TakingStarts([e], choices);
      Bodies(e, Leaf, Leaf, Ours, AtStart(choices));
      BoundedRuns(e, choices);
      LegalPass(R);
    }
  }

  lemma BoundedFits(e: Expr)
    requires e == Bounded()
    ensures WellFormed(BoundTakes()) && Structured(e) && Overt(true, e) && !Prompt({}, e)
  {
    ConsumingIsScalar();
    BoundedIsFlow(e);
    assert [e] == [e] + [];
    FirstFits(e, [], {}, {"p"}, {"p"}, {});
    TakingFits([e]);
  }

  lemma BoundedIsFlow(e: Expr)
    requires e == Bounded() && Scalar(Consuming(), {"p"}, {"p"})
    ensures Flow(e, {"p"}, {"p"}) && Structured(e) && Overt(true, e) && !Prompt({}, e)
    ensures Decls(e) == {} && Arrays(e) == {} && Placed(e, {}, {})
  {
    assert [P][1..] == [] && [true][1..] == [] && TakenArgs([P], [true]) == {"p"};
    assert Decls(Consuming()) == {} && Arrays(Consuming()) == {} && PlacedAll([P], {}, {});
  }

  lemma BoundedChecked(e: Expr)
    requires e == Bounded()
    ensures CheckStmt(Ours, e).failed
  {
    ConsumingChecked();
    assert LoopHead(Ours, e) == Gone && CheckBlock(Gone, e.body) == Gone;
    assert "p" in Ours.vars;
    LoopRefusedIff(Ours, e);
  }

  lemma BoundedRuns(e: Expr, choices: seq<nat>)
    requires e == Bounded()
    ensures Exec(e, AtStart(choices)).trace == [New(R), Passed(R)]
  {
    var s := AtStart(choices);
    ConsumingRuns(s);
    var (n, s1) := Choose(Yielding(Exec(Consuming(), s), Nothing));
    EmptyRounds(e, n, s1);
  }

  lemma {:induction false} EmptyRounds(e: Expr, n: nat, s: Run)
    requires e.For? && e.body == []
    ensures Iterate(e, n, s).trace == s.trace
  {
    if n > 0 {
      EmptyRounds(e, n - 1, Inner([], s, false));
    }
  }

  /** `-consume(p)` alone: `p` is given up, but not to the checker's knowledge. */
  function TakenUnseen(): Function
  {
    Taking([Negating()])
  }

  lemma TakenUnseenIsRejected()
    ensures var f := TakenUnseen(); !Accepts(f) && !OvertAll(true, f.body) && Disciplined(RunOf(f, []).trace)
  {
    var x := Negating();
    NegatingFits(x);
    NegatingRuns([]);
    TakingStarts([x], []);
    Bodies(x, Leaf, Leaf, Ours, AtStart([]));
    LegalPass(R);
  }

  /** `return q` for a parameter that owns nothing, from a function that returns pointers. */
  function ReturnsBorrowed(): Function
  {
    Function(false, [Param("q", false)], [Return(Var("q"), true)])
  }

  lemma ReturnsBorrowedIsRejected()
    ensures WellFormed(ReturnsBorrowed()) && !Accepts(ReturnsBorrowed())
    ensures forall choices :: Disciplined(RunOf(ReturnsBorrowed(), choices).trace)
  {
    var f, e := ReturnsBorrowed(), Return(Var("q"), true);
    BorrowedFits(f, e);
    BorrowedChecked(f, e);
    forall choices ensures Disciplined(RunOf(f, choices).trace) {
      BorrowedRuns(f, e, choices);
    }
  }

  lemma BorrowedChecked(f: Function, e: Expr)
    requires e == Return(Var("q"), true) && f == Function(false, [Param("q", false)], [e])
    ensures !Accepts(f)
  {
    assert f.params[1..] == [] && Enter(f.params, map[]) == Enter([], map[]);
    Bodies(e, Leaf, Leaf, Empty, Start([], true));
    assert CheckStmt(Empty, e).failed;
  }

  lemma BorrowedRuns(f: Function, e: Expr, choices: seq<nat>)
    requires e == Return(Var("q"), true) && f == Function(false, [Param("q", false)], [e])
    ensures RunOf(f, choices).trace == []
  {
    var s := Start(choices, true);
    assert f.params[1..] == [] && Receive(f.params, s) == Receive([], s);
    Bodies(e, Leaf, Leaf, Empty, s);
    assert Take(Var("q"), s) == (Yielding(s, Nothing), None);
  }

  lemma BorrowedFits(f: Function, e: Expr)
    requires e == Return(Var("q"), true) && f == Function(false, [Param("q", false)], [e])
    ensures WellFormed(f)
  {
    assert f.params[1..] == [] && Leading(f.body) == [] && f.body == [e] + [];
    assert OwningParams(f.params) == {} && PlainParams(f.params) == {"q"};
    FirstFits(e, [], {}, {}, {}, {"q"});
    assert Arrays(e) == {} && ArraysAll(f.body) == {} && Owners(f) == {};
    assert Known(f) == {"q"};
  }
}
