/** Which accepted functions keep memory safe, exactly, and which functions that do are accepted. */
module LinearExactness {
  import opened Wrappers
  import opened LinearSyntax
  import opened LinearChecker
  import opened LinearFlow
  import opened LinearRuns
  import opened LinearScopes
  import opened LinearGaps
  import opened LinearCalm
  import opened LinearInvariant
  import opened LinearSafety
  import opened LinearBreaks
  import opened LinearPaths
  import opened LinearLater
  import opened LinearOverlooked
  import opened LinearStraight
  import opened LinearRefusals
  import opened LinearVerdicts
  import opened LinearPrompt

  // ---------- What is overlooked misbehaves in some run ----------

  /** The check and the run of a function's body start in step. */
  lemma StartFull(f: Function, choices: seq<nat>)
    requires WellFormed(f)
    ensures var inner, vars := OwningParams(f.params), Enter(f.params, map[]);
            Full(inner, Owners(f), NoTies, vars, Receive(f.params, Start(choices, false)), {}) && vars.Keys == inner
    ensures Receive(f.params, Start(choices, false)).choices == choices
  {
    StartSafe(f, choices);
    StartViews(f.params, Start(choices, false));
  }

  lemma {:induction false} StartViews(params: seq<Param>, s: Run)
    ensures Receive(params, s).views == s.views && Receive(params, s).choices == s.choices
  {
    if params != [] {
      var (s1, r) := Create(s);
      StartViews(params[1..], if params[0].linear then Bind(s1, params[0].name, r, false) else s);
    }
  }

  /** The choices that lead to the first thing overlooked in a function. */
  function BodyPath(f: Function): seq<nat>
  {
    var c := Chk(Enter(f.params, map[]), false);
    var b, own := Leading(f.body), OwningParams(f.params);
    if !ClearBlock(c, NoTies, own, b) || !Returns(f.body) then PathBlock(c, NoTies, own, b)
    else Zeroes(SkipsAll(b)) + PathResult(CheckBlock(c, b), TiesAfterAll(NoTies, b), f.body[|f.body| - 1].result)
  }

  function PathResult(c: Chk, t: Ties, e: Expr): seq<nat>
  {
    if (e.Var? && e.name in c.vars) || Discards(e) then PathOwned(c, t, e) else Path(c, t, e)
  }

  lemma ResultMissed(c: Chk, e: Expr, scope: set<string>, all: set<string>, t: Ties, s: Run)
    requires Result(e, scope, all) && !CheckOwned(c, e).failed && !ClearResult(c, t, e) && Overt(true, e)
    requires Full(scope, all, t, c.vars, s, {}) && c.vars.Keys <= all
    requires !Straight(e) ==> PathResult(c, t, e) <= s.choices
    ensures !Audit(Yield(e, s).trace).legal
  {
    if Owned(e, scope, all) {
      OwnedMissed(true, c, e, scope, all, t, s, {});
      HandedOver(e, scope, all, s);
    } else {
      PlainResultMissed(c, e, scope, all, t, s);
    }
  }

  /** An owner that is returned after a rule has been broken, or by breaking one. */
  lemma HandedOver(e: Expr, scope: set<string>, all: set<string>, s: Run)
    requires Owned(e, scope, all) && Running(s, all) && Take(e, s).1.Some?
    requires var (s1, v) := Take(e, s);
             Broken(Audit(s1.trace), multiset({})) || Broken(Audit(s1.trace), multiset({}) + multiset{v.value})
    ensures !Audit(Yield(e, s).trace).legal
  {
    OwnedCalm(e, scope, all, s);
    var (s1, v) := Take(e, s);
    var given := Returned(v.value);
    assert given.ref == v.value;
    if Broken(Audit(s1.trace), multiset({})) {
      BrokenStays(s1.trace, s1.trace, multiset({}), multiset({}) + multiset{v.value});
    }
    BrokenGive(s1, given, multiset({}));
  }

  lemma PlainResultMissed(c: Chk, e: Expr, scope: set<string>, all: set<string>, t: Ties, s: Run)
    requires Result(e, scope, all) && !Owned(e, scope, all) && Overt(true, e)
    requires !CheckOwned(c, e).failed && !ClearResult(c, t, e)
    requires Full(scope, all, t, c.vars, s, {}) && c.vars.Keys <= all
    requires !Straight(e) ==> PathResult(c, t, e) <= s.choices
    ensures !Audit(Yield(e, s).trace).legal
  {
    ScalarYield(c, e, scope, all, s);
    ScalarResultBreaks(c, e, scope, all, t, s);
  }

  /** A value that is returned cannot be evaluated or read. */
  lemma ScalarResultBreaks(c: Chk, e: Expr, scope: set<string>, all: set<string>, t: Ties, s: Run)
    requires Scalar(e, scope, all) && !CheckExpr(c, e).failed && Overt(true, e) && Full(scope, all, t, c.vars, s, {})
    requires !Clear(true, c, t, e) || !Loads(CheckExpr(c, e).vars, t, e)
    requires Led(true, c, t, e, s)
    ensures var s1 := Exec(e, s); !Audit(Load(s1, ValueOf(e, s1)).trace).legal
  {
    var s1 := Exec(e, s);
    ScalarCalm(e, scope, all, s);
    ValueSame(e, s, s1);
    if Clear(true, c, t, e) {
      ReadBreaks(true, c, e, scope, all, t, s, {});
    } else {
      ScalarMissed(true, c, e, scope, all, t, s, {});
      Stays(s1, Load(s1, ValueOf(e, s1)));
    }
  }

  /** A function that is accepted although something in it is overlooked breaks the discipline in some run. */
  lemma OverlookedMisbehaves(f: Function)
    requires WellFormed(f) && Accepts(f) && OvertAll(true, f.body) && !Unobstructed(f)
    ensures !Disciplined(RunOf(f, BodyPath(f)).trace)
  {
    var inner, all, b := OwningParams(f.params), Owners(f), Leading(f.body);
    var c, s := Chk(Enter(f.params, map[]), false), Receive(f.params, Start(BodyPath(f), false));
    ScopesAgree(f, BodyPath(f));
    StartFull(f, BodyPath(f));
    assert {} + inner == inner;
    if Returns(f.body) {
      ReturningOverlooked(f, c, s);
    } else {
      BlockMissed(c, b, {}, inner, all, NoTies, inner, s, {});
    }
  }

  lemma {:induction false} OvertAppend(b: seq<Expr>, e: Expr)
    ensures OvertAll(true, b + [e]) <==> OvertAll(true, b) && Overt(true, e)
    ensures StraightAll(b + [e]) <==> StraightAll(b) && Straight(e)
    ensures PromptAll({}, b + [e]) <==> PromptAll({}, b) && Prompt({}, e)
  {
    if b == [] {
      assert b + [e] == [e] && [e][1..] == [];
    } else {
      assert (b + [e])[1..] == b[1..] + [e];
      OvertAppend(b[1..], e);
    }
  }

  /** The body ends in a `return`. */
  lemma ReturningOverlooked(f: Function, c: Chk, s: Run)
    requires WellFormed(f) && Returns(f.body) && OvertAll(true, f.body) && !Unobstructed(f)
    requires c == Chk(Enter(f.params, map[]), false) && !CheckBlock(c, f.body).failed
    requires var inner := OwningParams(f.params);
             Full(inner, Owners(f), NoTies, c.vars, s, {}) && c.vars.Keys == inner && s.choices == BodyPath(f)
    ensures !Audit(ExecAll(f.body, s).trace).legal
  {
    var inner, all, b, last := OwningParams(f.params), Owners(f), Leading(f.body), f.body[|f.body| - 1];
    var c1, s1, scope, t1 := CheckBlock(c, b), ExecAll(b, s), ScopeAfter(b, inner), TiesAfterAll(NoTies, b);
    ReturningChecked(f, c);
    BlockHides(b, {}, inner, all);
    ReturnRuns(b, last, {}, inner, scope, all, s);
    assert {} + inner == inner;
    if !ClearBlock(c, NoTies, inner, b) {
      BlockMissed(c, b, {}, inner, all, NoTies, inner, s, {});
      Stays(s1, ExecAll(f.body, s));
    } else {
      BlockLater(c, b, {}, inner, all, NoTies, inner, s, {});
      BlockSkips(b, {}, inner, all, s, PathResult(c1, t1, last.result));
      ResultMissed(c1, last.result, scope, all, t1, s1);
    }
  }

  /** The check and the conditions on a body that ends in a `return`. */
  lemma ReturningChecked(f: Function, c: Chk)
    requires Returns(f.body) && c == Chk(Enter(f.params, map[]), false)
    ensures var b, last := Leading(f.body), f.body[|f.body| - 1];
            var c1 := CheckBlock(c, b);
            && f.body == b + [last] && CheckBlock(c, f.body) == CheckStmt(c1, last)
            && (c1.failed ==> CheckStmt(c1, last).failed)
            && (!CheckStmt(c1, last).failed ==> CheckStmt(c1, last) == CheckOwned(c1, last.result))
            && (!last.escapes ==> CheckStmt(c1, last) == CheckOwned(c1, last.result))
            && (OvertAll(true, f.body) <==> OvertAll(true, b) && Overt(true, last.result))
            && (StraightAll(f.body) <==> StraightAll(b) && Straight(last))
            && (PromptAll({}, f.body) <==> PromptAll({}, b) && Prompt({}, last.result))
  {
    var b, last := Leading(f.body), f.body[|f.body| - 1];
    ReturningBody(f);
    OvertAppend(b, last);
    CheckAppend(b, last, c);
    ReturnChecked(CheckBlock(c, b), last);
    OwnedGrows(CheckBlock(c, b), last.result);
  }

  lemma ReturnRuns(
    b: seq<Expr>, last: Expr, outer: set<string>, inner: set<string>, scope: set<string>, all: set<string>, s: Run)
    requires Block(b, outer, inner, all) && last.Return? && Result(last.result, scope, all) && Running(s, all)
    requires inner <= all && BoundAll(b) <= all
    ensures var s1 := ExecAll(b, s);
            && Running(s1, all) && ExecAll(b + [last], s).trace == Yield(last.result, s1).trace
            && s1.trace <= Yield(last.result, s1).trace
  {
    var s1 := ExecAll(b, s);
    BlockCalm(b, outer, inner, all, s);
    ExecAppend(b, last, s);
    ReturnEnds(last, s1);
    YieldCalm(last.result, scope, all, s1);
  }

  lemma ReturnEnds(e: Expr, s: Run)
    requires e.Return? && !s.returned
    ensures Exec(e, s).trace == Yield(e.result, s).trace
  {
  }

  lemma YieldCalm(e: Expr, scope: set<string>, all: set<string>, s: Run)
    requires Result(e, scope, all) && Running(s, all)
    ensures s.trace <= Yield(e, s).trace
  {
    if e.Alloc? || (e.Var? && e.name in scope) {
      OwnedCalm(e, scope, all, s);
    } else if e.Call? {
      CallCalm(e, scope, all, s);
    } else {
      ScalarCalm(e, scope, all, s);
    }
  }

  /** A function that takes an owner where the checker does not look is one in which something is overlooked. */
  lemma UnobstructedOvert(f: Function)
    requires WellFormed(f) && Unobstructed(f)
    ensures OvertAll(true, f.body)
  {
    var inner, all, b := OwningParams(f.params), Owners(f), Leading(f.body);
    var c, scope := Chk(Enter(f.params, map[]), false), ScopeAfter(b, inner);
    BlockOvert(c, NoTies, inner, b, {}, inner, all);
    if Returns(f.body) {
      ReturningChecked(f, c);
      ResultOvert(CheckBlock(c, b), TiesAfterAll(NoTies, b), f.body[|f.body| - 1].result, scope, all);
    }
  }

  lemma ResultOvert(c: Chk, t: Ties, e: Expr, scope: set<string>, all: set<string>)
    requires Result(e, scope, all) && ClearResult(c, t, e)
    ensures Overt(true, e)
  {
    if !e.Var? && Owned(e, scope, all) {
      OwnedOvert(true, c, t, e, scope, all);
    } else if !e.Var? {
      ScalarOvert(true, c, t, e, scope, all);
    }
  }

  /** Exactness: in an accepted function nothing is overlooked if and only if it is disciplined in all its runs and
      takes no owner unseen. */
  lemma AcceptedDisciplinedIff(f: Function)
    requires WellFormed(f) && Accepts(f)
    ensures (forall choices :: Disciplined(RunOf(f, choices).trace)) && OvertAll(true, f.body) <==> Unobstructed(f)
  {
    if Unobstructed(f) {
      UnobstructedOvert(f);
      forall choices ensures Disciplined(RunOf(f, choices).trace) {
        AcceptedIsSafe(f, choices);
      }
    } else if OvertAll(true, f.body) {
      OverlookedMisbehaves(f);
    }
  }

  // ---------- The end of a run ----------

  predicate AllConsumed(vars: Vars)
  {
    forall x | x in vars :: vars[x] == Consumed
  }

  /** Nothing is live if and only if every owner has been consumed. */
  lemma SettledIff(scope: set<string>, all: set<string>, t: Ties, vars: Vars, s: Run)
    requires Inv(scope, all, t, vars, s, {}) && Tidy(vars, scope)
    ensures Disciplined(s.trace) <==> AllConsumed(vars)
  {
    if Disciplined(s.trace) {
      assert forall x | x in s.env :: s.env[x] !in Audit(s.trace).live;
    } else if AllConsumed(vars) {
      Settled(scope, all, t, vars, s);
    }
  }

  lemma ResultTidy(c: Chk, e: Expr, scope: set<string>, all: set<string>)
    requires Result(e, scope, all) && Straight(e) && Tidy(c.vars, scope)
    ensures Tidy(CheckOwned(c, e).vars, scope)
  {
    StraightDecls(e, scope, all);
    OwnedGrows(c, e);
  }

  /** A result is handed over well or breaks a rule. */
  lemma ResultExact(c: Chk, e: Expr, scope: set<string>, all: set<string>, t: Ties, s: Run)
    requires Result(e, scope, all) && Fair(t, e) && !c.failed && Point(scope, all, t, c.vars, s)
    ensures if BadResult(c, t, e) then !Audit(Yield(e, s).trace).legal
            else Inv(scope, all, t, CheckOwned(c, e).vars, Yield(e, s), {}) && Tidy(CheckOwned(c, e).vars, scope)
  {
    if BadResult(c, t, e) {
      ResultBreaks(c, e, scope, all, t, s);
    } else {
      ReturnSafe(c, e, scope, all, t, s);
      ResultTidy(c, e, scope, all);
    }
  }

  /** After the result nothing is live if and only if it is not bad and every owner has been consumed. */
  lemma ResultSettles(c: Chk, e: Expr, scope: set<string>, all: set<string>, t: Ties, s: Run)
    requires Result(e, scope, all) && Fair(t, e) && !c.failed && Point(scope, all, t, c.vars, s)
    ensures Disciplined(Yield(e, s).trace) <==> !BadResult(c, t, e) && AllConsumed(CheckOwned(c, e).vars)
  {
    ResultExact(c, e, scope, all, t, s);
    if !BadResult(c, t, e) {
      SettledIff(scope, all, t, CheckOwned(c, e).vars, Yield(e, s));
    }
  }

  lemma ResultBreaks(c: Chk, e: Expr, scope: set<string>, all: set<string>, t: Ties, s: Run)
    requires Result(e, scope, all) && Fair(t, e) && !c.failed && BadResult(c, t, e) && Full(scope, all, t, c.vars, s, {})
    ensures !Audit(Yield(e, s).trace).legal
  {
    if !CheckOwned(c, e).failed {
      ResultMissed(c, e, scope, all, t, s);
    } else if Owned(e, scope, all) {
      OwnedBreaks(c, e, scope, all, t, s, {});
      HandedOver(e, scope, all, s);
    } else {
      PlainResultBreaks(c, e, scope, all, t, s);
    }
  }

  lemma PlainResultBreaks(c: Chk, e: Expr, scope: set<string>, all: set<string>, t: Ties, s: Run)
    requires Result(e, scope, all) && !Owned(e, scope, all) && Fair(t, e) && !c.failed && CheckOwned(c, e).failed
    requires Full(scope, all, t, c.vars, s, {})
    ensures !Audit(Yield(e, s).trace).legal
  {
    var s1 := Exec(e, s);
    ScalarYield(c, e, scope, all, s);
    ScalarBreaks(c, e, scope, all, t, s, {});
    Stays(s1, Load(s1, ValueOf(e, s1)));
  }

  // ---------- What the checker refuses misbehaves in some run ----------

  /** The function is well-formed, its branches and loops are statements or values of variables, and the checker is
      neither stricter than a run in it nor blind. */
  ghost predicate Judged(f: Function)
  {
    WellFormed(f) && StructuredAll(f.body) && PromptAll({}, f.body) && OvertAll(true, f.body)
  }

  /** The checker is content with the end of a body whose statements before a `return` leave these states. */
  predicate Ended(f: Function, vars: Vars)
  {
    if Returns(f.body) then
      var e := f.body[|f.body| - 1].result;
      && !BadResult(Clean(vars), TiesAfterAll(NoTies, Leading(f.body)), e)
      && AllConsumed(CheckOwned(Clean(vars), e).vars)
    else AllConsumed(vars)
  }

  lemma {:induction false} StructuredAppend(b: seq<Expr>, e: Expr)
    ensures StructuredAll(b + [e]) <==> StructuredAll(b) && Structured(e)
  {
    if b == [] {
      assert b + [e] == [e] && [e][1..] == [];
    } else {
      assert (b + [e])[1..] == b[1..] + [e];
      StructuredAppend(b[1..], e);
    }
  }

  /** A body is its statements before a `return`, and perhaps the `return`. */
  lemma BodyParts(f: Function)
    requires Judged(f)
    ensures var b := Leading(f.body);
            && StructuredAll(b) && PromptAll({}, b) && OvertAll(true, b) && BoundAll(b) <= Owners(f)
            && (Returns(f.body) ==> Fair(NoTies, f.body[|f.body| - 1].result) && !f.body[|f.body| - 1].escapes)
  {
    var b := Leading(f.body);
    BlockHides(b, {}, OwningParams(f.params), Owners(f));
    if Returns(f.body) {
      ReturningChecked(f, Clean(Enter(f.params, map[])));
      StructuredAppend(b, f.body[|f.body| - 1]);
    }
  }

  lemma Verdict(f: Function)
    requires Judged(f)
    ensures var c, b := Clean(Enter(f.params, map[])), Leading(f.body);
            Accepts(f) && Unobstructed(f) <==>
            && !CheckBlock(c, b).failed && ClearBlock(c, NoTies, OwningParams(f.params), b)
            && Ended(f, CheckBlock(c, b).vars)
  {
    var c, b := Clean(Enter(f.params, map[])), Leading(f.body);
    BodyParts(f);
    if Returns(f.body) {
      ReturningChecked(f, c);
    }
  }

  /** The state in which a body starts. */
  function Entered(f: Function): Run
  {
    Receive(f.params, Start([], false))
  }

  lemma {:induction false} ReceiveFed(params: seq<Param>, s: Run, r: seq<nat>)
    ensures Receive(params, Fed(s, r)) == Fed(Receive(params, s), r)
  {
    if params != [] {
      var (s1, p) := Create(s);
      assert Bind(Fed(s1, r), params[0].name, p, false) == Fed(Bind(s1, params[0].name, p, false), r);
      ReceiveFed(params[1..], if params[0].linear then Bind(s1, params[0].name, p, false) else s, r);
    }
  }

  /** What a run does before a `return`, and after. */
  lemma BodyRuns(f: Function, p: seq<nat>)
    requires Judged(f)
    ensures var s := ExecAll(Leading(f.body), Fed(Entered(f), p));
            && RunOf(f, p).trace == (if Returns(f.body) then Yield(f.body[|f.body| - 1].result, s) else s).trace
            && s.trace <= RunOf(f, p).trace
  {
    var inner, all, b, s := OwningParams(f.params), Owners(f), Leading(f.body), Fed(Entered(f), p);
    ScopesAgree(f, p);
    StartFull(f, p);
    ReceiveFed(f.params, Start([], false), p);
    assert Fed(Start([], false), p) == Start(p, false);
    if Returns(f.body) {
      BodyParts(f);
      ReturningBody(f);
      ReturnRuns(b, f.body[|f.body| - 1], {}, inner, ScopeAfter(b, inner), all, s);
    }
  }

  /** The run that takes a way through the body is disciplined if and only if the checker, following it, is content
      at the end. */
  lemma WayEnds(f: Function, w: Way)
    requires Judged(f)
    requires var b := Leading(f.body);
             Point(ScopeAfter(b, OwningParams(f.params)), Owners(f), TiesAfterAll(NoTies, b), w.vars,
                   ExecAll(b, Fed(Entered(f), w.path)))
    ensures Disciplined(RunOf(f, w.path).trace) <==> Ended(f, w.vars)
  {
    var b := Leading(f.body);
    var scope, t, s := ScopeAfter(b, OwningParams(f.params)), TiesAfterAll(NoTies, b), ExecAll(b, Fed(Entered(f), w.path));
    BodyRuns(f, w.path);
    if Returns(f.body) {
      ResultFair(f);
      ResultSettles(Clean(w.vars), f.body[|f.body| - 1].result, scope, Owners(f), t, s);
    } else {
      SettledIff(scope, Owners(f), t, w.vars, s);
    }
  }

  lemma ResultFair(f: Function)
    requires Judged(f) && Returns(f.body)
    ensures Fair(TiesAfterAll(NoTies, Leading(f.body)), f.body[|f.body| - 1].result)
    ensures Result(f.body[|f.body| - 1].result, ScopeAfter(Leading(f.body), OwningParams(f.params)), Owners(f))
  {
    BodyParts(f);
    TiesPending(NoTies, Leading(f.body));
  }

  /** Of two ways that part over an owner one ends badly. */
  lemma OneEndsBadly(f: Function, x: string, gone: Vars, left: Vars)
    requires Judged(f) && Parted(x, ScopeAfter(Leading(f.body), OwningParams(f.params)), gone, left)
    ensures !Ended(f, gone) || !Ended(f, left)
  {
    if Returns(f.body) && Ended(f, gone) && Ended(f, left) {
      var e := f.body[|f.body| - 1].result;
      BodyParts(f);
      StraightDecls(e, ScopeAfter(Leading(f.body), OwningParams(f.params)), Owners(f));
      OwnedUntouched(Clean(gone), Clean(left), e, x);
    }
  }

  /** A function that is refused, or in which something is overlooked, breaks the discipline in some run. */
  lemma RefusedMisbehaves(f: Function) returns (choices: seq<nat>)
    requires Judged(f) && !(Accepts(f) && Unobstructed(f))
    ensures !Disciplined(RunOf(f, choices).trace)
  {
    var inner, all, b, s := OwningParams(f.params), Owners(f), Leading(f.body), Entered(f);
    var c := Clean(Enter(f.params, map[]));
    StartFull(f, []);
    BodyParts(f);
    Verdict(f);
    assert {} + inner == inner;
    var r := BlockSettles(c, b, {}, inner, all, NoTies, inner, s);
    match r
    case Breaks(p) =>
      choices := p;
      assert p + [] == p;
      BodyRuns(f, p);
      Stays(ExecAll(b, Fed(s, p)), RunOf(f, p));
    case Fine(p) =>
      choices := p;
      WayEnds(f, Way(p, CheckBlock(c, b).vars));
    case Splits(x, a, l) =>
      OneEndsBadly(f, x, a.vars, l.vars);
      WayEnds(f, a);
      WayEnds(f, l);
      choices := if Ended(f, a.vars) then l.path else a.path;
  }

  // ---------- Whole functions ----------

  /** What is accepted looks through no owner passed earlier in the same call, and takes none to bound a `for`. */
  lemma AcceptedIsPrompt(f: Function)
    requires WellFormed(f) && StructuredAll(f.body) && Accepts(f)
    ensures PromptAll({}, f.body)
  {
    var c, b, inner := Chk(Enter(f.params, map[]), false), Leading(f.body), OwningParams(f.params);
    StartSafe(f, []);
    if Returns(f.body) {
      var last := f.body[|f.body| - 1];
      ReturningChecked(f, c);
      StructuredAppend(b, last);
      BlockPrompt(c, b, {}, inner, Owners(f));
      OwnedPrompt(CheckBlock(c, b), last.result, ScopeAfter(b, inner), Owners(f));
    } else {
      BlockPrompt(c, b, {}, inner, Owners(f));
    }
  }

  /** Exactness: where branches and loops are statements or values of variables, the functions that are disciplined in
      all their runs, in which no operand looks through an owner passed earlier in the same call, no `for` takes one to
      work out its bounds, and none is taken unseen, are the accepted ones in which nothing is overlooked. */
  lemma StructuredExact(f: Function)
    requires WellFormed(f) && StructuredAll(f.body)
    ensures (forall choices :: Disciplined(RunOf(f, choices).trace)) && PromptAll({}, f.body) && OvertAll(true, f.body)
            <==> Accepts(f) && Unobstructed(f)
  {
    if Accepts(f) && Unobstructed(f) {
      UnobstructedOvert(f);
      AcceptedIsPrompt(f);
      forall choices ensures Disciplined(RunOf(f, choices).trace) {
        AcceptedIsSafe(f, choices);
      }
    } else if Judged(f) {
      var choices := RefusedMisbehaves(f);
    }
  }

  /** Of the functions that are disciplined in all their runs the accepted ones are those in which no operand looks
      through an owner passed earlier in the same call, and no `for` takes one to work out its bounds. */
  lemma DisciplinedAcceptedIff(f: Function)
    requires WellFormed(f) && StructuredAll(f.body) && OvertAll(true, f.body)
    requires forall choices :: Disciplined(RunOf(f, choices).trace)
    ensures Accepts(f) <==> PromptAll({}, f.body)
  {
    StructuredExact(f);
    if Accepts(f) {
      AcceptedIsPrompt(f);
    }
  }

  // ---------- Straight-line functions ----------

  lemma {:induction false} StraightBlockFed(
    b: seq<Expr>, outer: set<string>, scope: set<string>, all: set<string>, s: Run, r: seq<nat>)
    requires Block(b, outer, scope, all) && StraightAll(b)
    ensures ExecAll(b, Fed(s, r)) == Fed(ExecAll(b, s), r)
    decreases b
  {
    if b != [] {
      StraightStmtFed(b[0], scope, all, s, r);
      StraightBlockFed(b[1..], outer, scope + Bound(b[0]), all, Exec(b[0], s), r);
    }
  }

  /** A straight-line function has one run. */
  lemma OneRun(f: Function, choices: seq<nat>)
    requires WellFormed(f) && StraightAll(f.body)
    ensures RunOf(f, choices).trace == RunOf(f, []).trace
  {
    var inner, all, b, s := OwningParams(f.params), Owners(f), Leading(f.body), Receive(f.params, Start([], true));
    ReceiveFed(f.params, Start([], true), choices);
    assert Fed(Start([], true), choices) == Start(choices, true);
    if Returns(f.body) {
      var last := f.body[|f.body| - 1];
      ReturningBody(f);
      OvertAppend(b, last);
      StraightBlockFed(b, {}, inner, all, s, choices);
      ExecAppend(b, last, s);
      ExecAppend(b, last, Fed(s, choices));
      ReturnFed(last, ScopeAfter(b, inner), all, ExecAll(b, s), choices);
    } else {
      StraightBlockFed(b, {}, inner, all, s, choices);
    }
  }

  lemma ReturnFed(e: Expr, scope: set<string>, all: set<string>, s: Run, r: seq<nat>)
    requires e.Return? && Straight(e) && Result(e.result, scope, all)
    ensures Exec(e, Fed(s, r)) == Fed(Exec(e, s), r)
  {
    TakeFed(e.result, scope, all, s, r);
  }

  lemma {:induction false} StraightIsStructured(b: seq<Expr>)
    requires StraightAll(b)
    ensures StructuredAll(b)
    decreases b, 0
  {
    if b != [] {
      StraightExprIsStructured(b[0]);
      StraightIsStructured(b[1..]);
    }
  }

  lemma {:induction false} StraightExprIsStructured(e: Expr)
    requires Straight(e)
    ensures Structured(e)
    decreases e, 1
  {
    if e.VarDef? {
      StraightExprIsStructured(e.init);
    }
  }

  /** For straight-line functions any one run decides. */
  lemma StraightLineExact(f: Function, choices: seq<nat>)
    requires WellFormed(f) && StraightAll(f.body)
    ensures Disciplined(RunOf(f, choices).trace) && PromptAll({}, f.body) && OvertAll(true, f.body) <==>
            Accepts(f) && Unobstructed(f)
  {
    StraightIsStructured(f.body);
    StructuredExact(f);
    forall other ensures RunOf(f, other).trace == RunOf(f, choices).trace {
      OneRun(f, other);
      OneRun(f, choices);
    }
  }
}
