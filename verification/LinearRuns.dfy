/** What a function does to memory when it runs.  A run is driven by a list of choices - the branch
    taken, the arm selected, the number of iterations - and leaves a trace of ownership events.  Every
    terminating run of the function is the run of some list of choices.  Events come in the order of the
    emitted code: an indexed load after the index, a store after its right-hand side, and the hand-over of
    arguments after all of them. */
module LinearRuns {
  import opened Wrappers
  import opened LinearSyntax

  /** A pointer to an owned cell.  Moving a pointer keeps its cell and gives it a new owner. */
  datatype Ref = Ref(cell: nat, owner: nat)

  datatype Event =
    | New(ref: Ref)                // allocated, received as a parameter, or returned by a callee
    | Move(ref: Ref, to: Ref)      // bound to another variable
    | Freed(ref: Ref)
    | Passed(ref: Ref)             // handed to a callee
    | Returned(ref: Ref)           // handed to the caller
    | Use(ref: Ref)                // dereferenced or indexed
    | Look(ref: Ref)               // its memory reached through an array that was not copied
    | Drop(ref: Ref)               // the value of an expression nobody receives
    | Hide(ref: Ref)               // the variable that had it is declared again, or its block is left

  /** What an expression yields: a variable's own pointer, or an array that is an owner's memory.  Other
      values have nothing to do with owned memory. */
  datatype Value = Nothing | Direct(ref: Ref) | View(ref: Ref)

  /** `env` holds the owners in scope, `views` the array variables that are some owner's memory, and `value` what
      the latest expression or block has yielded.  A `flat` run leaves the array names that the body of an `if`, a
      `while` or a `case` has declared as the emitted code does, known and changed after the body; otherwise what a
      body declares is gone afterwards. */
  datatype Run = Run(
    env: map<string, Ref>,
    views: map<string, Ref>,
    value: Value,
    supply: nat,
    trace: seq<Event>,
    choices: seq<nat>,
    returned: bool,
    flat: bool)

  // ---------- Running a function ----------

  function Emit(s: Run, e: Event): (r: Run)
  {
    s.(trace := s.trace + [e])
  }

  function Yielding(s: Run, v: Value): Run
  {
    s.(value := v)
  }

  function Choose(s: Run): (nat, Run)
  {
    if s.choices == [] then (0, s) else (s.choices[0], s.(choices := s.choices[1..]))
  }

  /** A cell that did not exist before. */
  function Create(s: Run): (Run, Ref)
  {
    var r := Ref(s.supply, s.supply);
    (Emit(s, New(r)).(supply := s.supply + 1), r)
  }

  /** Bind an owned value, which comes out of another variable if it is `moved`. */
  function Bind(s: Run, name: string, r: Ref, moved: bool): Run
  {
    var to := if moved then Ref(r.cell, s.supply) else r;
    var s1 := if moved then Emit(s, Move(r, to)).(supply := s.supply + 1) else s;
    var s2 := if name in s.env then Emit(s1, Hide(s.env[name])) else s1;
    s2.(env := s.env[name := to], value := Direct(to))
  }

  /** Bind a value that owns nothing: an array is not copied. */
  function BindView(s: Run, name: string): Run
  {
    s.(views := if s.value.View? then s.views[name := s.value.ref] else s.views - {name})
  }

  /** Reach the memory behind a value. */
  function Touch(s: Run, v: Value): Run
  {
    if s.returned then s
    else match v
      case Nothing => s
      case Direct(r) => Emit(s, Use(r))
      case View(r) => Emit(s, Look(r))
  }

  /** Copy a value: an array is read. */
  function Load(s: Run, v: Value): Run
  {
    if v.View? then Touch(s, v) else s
  }

  /** What a dereferenced pointer yields: an array that is not read yet, or something that has been. */
  function Pointee(v: Value, toArray: bool): Value
  {
    if toArray && !v.Nothing? then View(v.ref) else Nothing
  }

  /** Evaluate an expression; an owned value it yields is lost, unless it is a variable's.  Dereferencing a pointer
      to an array reads nothing yet, but it names the pointer, which counts as a use. */
  function Exec(e: Expr, s: Run): Run
    decreases e, 1
  {
    if s.returned then s
    else match e
      case Leaf => Yielding(s, Nothing)
      case Var(x) => Yielding(s, if x in s.env then Direct(s.env[x]) else Nothing)
      case ArrayVar(a) => Yielding(s, if a in s.views then View(s.views[a]) else Nothing)
      case Opaque(operands) => Yielding(ExecArgs(operands, [], s).0, Nothing)
      case Literal(elements) => Yielding(ExecArgs(elements, [], s).0, Nothing)
      case Alloc(_) => var (s1, v) := Obtain(e, s); Yielding(Give(s1, v, r => Drop(r)), Nothing)
      case Call(_, _, _) => var (s1, v) := Obtain(e, s); Yielding(Give(s1, v, r => Drop(r)), Nothing)
      case Free(operand) => var (s1, v) := Take(operand, s); Yielding(Give(s1, v, r => Freed(r)), Nothing)
      case Deref(operand, toArray) =>
        var s1 := Exec(operand, s);
        Yielding(Touch(s1, s1.value), Pointee(s1.value, toArray))
      case Index(base, index) =>
        var s1 := Exec(base, s);
        Yielding(Touch(Exec(index, s1), s1.value), Nothing)
      case AddrOf(operand, _) => Yielding(Exec(operand, s), Nothing)
      case Binary(lhs, rhs) =>
        var s1 := Exec(lhs, s);
        var s2 := Exec(rhs, s1);
        Yielding(Load(Load(s2, s1.value), s2.value), Nothing)
      case Assign(lhs, rhs, _) =>
        var s1 := Locate(lhs, s);
        var s2 := Exec(rhs, s1);
        Yielding(Touch(Load(s2, s2.value), s1.value), Nothing)
      case VarDef(name, linear, init) =>
        if linear then
          var (s1, v) := Take(init, s);
          if s1.returned || v.None? then s1 else Bind(s1, name, v.value, init.Var?)
        else
          var s1 := Exec(init, s);
          if s1.returned then s1 else BindView(s1, name)
      case Return(result, _) => Yield(result, s).(returned := true)
      case If(cond, thn, els) =>
        var (k, s1) := Choose(Exec(cond, s));
        if k != 0 then Inner(thn, s1, true)
        else if els.Else? then Inner(els.body, s1, true)
        else Yielding(s1, Nothing)
      case While(_, _) =>
        var (n, s1) := Choose(s);
        Yielding(Iterate(e, n, s1), Nothing)
      case For(_, start, stop, _) =>
        var (n, s1) := Choose(Exec(stop, Exec(start, s)));
        Yielding(Iterate(e, n, s1), Nothing)
      case Case(scrutinee, arms) =>
        var (k, s1) := Choose(Exec(scrutinee, s));
        if arms == [] then Yielding(s1, Nothing) else Inner(arms[k % |arms|].body, s1, true)
  }

  /** Work out where an assignment stores, without reaching the memory there; what is yielded is the value it
      stores through. */
  function Locate(lhs: Expr, s: Run): Run
    decreases lhs, 2
  {
    if s.returned then s
    else match lhs
      case Deref(operand, _) => Exec(operand, s)
      case Index(base, index) => var s1 := Exec(base, s); Yielding(Exec(index, s1), s1.value)
      case _ => Yielding(Exec(lhs, s), Nothing)
  }

  /** Evaluate an allocation or a call to the reference it yields, if any.  A callee gets its arguments once all
      of them have been evaluated. */
  function Obtain(e: Expr, s: Run): (Run, Option<Ref>)
    requires e.Alloc? || e.Call?
    decreases e, 0
  {
    var s1 := if e.Alloc? then Exec(e.count, s) else var (s0, refs) := ExecArgs(e.args, e.takes, s); Pass(s0, refs);
    if s1.returned || (e.Call? && !e.owned) then (s1, None)
    else
      var (s2, r) := Create(s1);
      (s2, Some(r))
  }

  /** Evaluate an expression in a position that receives ownership. */
  function Take(e: Expr, s: Run): (Run, Option<Ref>)
    decreases e, 2
  {
    if s.returned then (s, None)
    else if e.Var? then (Exec(e, s), if e.name in s.env then Some(s.env[e.name]) else None)
    else if e.Alloc? || e.Call? then Obtain(e, s)
    else (Exec(e, s), None)
  }

  /** Hand the value of an expression to the caller. */
  function Yield(e: Expr, s: Run): Run
    decreases e, 3
  {
    var (s1, v) := Take(e, s);
    if v.None? && !e.Alloc? && !e.Call? then Load(s1, s1.value) else Give(s1, v, r => Returned(r))
  }

  function Give(s: Run, v: Option<Ref>, how: Ref -> Event): Run
  {
    if s.returned || v.None? then s else Emit(s, how(v.value))
  }

  function Pass(s: Run, refs: seq<Ref>): Run
    decreases |refs|
  {
    if s.returned || refs == [] then s else Pass(Emit(s, Passed(refs[0])), refs[1..])
  }

  function ExecAll(es: seq<Expr>, s: Run): Run
    decreases es, 0
  {
    if es == [] then s else ExecAll(es[1..], Exec(es[0], s))
  }

  /** The owners a block declares are out of reach when it is left. */
  function Forget(b: seq<Expr>, s: Run): Run
    decreases |b|
  {
    if b == [] || s.returned then s
    else Forget(b[1..], if b[0].VarDef? && b[0].linear && b[0].name in s.env then Emit(s, Hide(s.env[b[0].name])) else s)
  }

  /** A block of its own.  It is `open` if code generation opens no symbol scope for it. */
  function Inner(b: seq<Expr>, s: Run, open: bool): Run
    decreases b, 1
  {
    var s1 := Forget(b, ExecAll(b, Yielding(s, Nothing)));
    s1.(env := s.env, views := if open && s.flat then s1.views else s.views)
  }

  /** Arguments are evaluated left to right; also collect the references to be handed over. */
  function ExecArgs(args: seq<Expr>, takes: seq<bool>, s: Run): (Run, seq<Ref>)
    decreases args
  {
    if args == [] then (s, [])
    else if takes == [] || !takes[0] then
      var s1 := Exec(args[0], s);
      ExecArgs(args[1..], if takes == [] then [] else takes[1..], Load(s1, s1.value))
    else
      var (s1, v) := Take(args[0], s);
      var (s2, refs) := ExecArgs(args[1..], takes[1..], s1);
      (s2, (if v.Some? then [v.value] else []) + refs)
  }

  /** `n` rounds of a loop; a `while` evaluates its condition once more at the end. */
  function Iterate(loop: Expr, n: nat, s: Run): Run
    requires loop.While? || loop.For?
    decreases loop, 0, n
  {
    var s1 := if loop.While? then Exec(loop.cond, s) else s;
    if n == 0 then s1 else Iterate(loop, n - 1, Inner(loop.body, s1, loop.While?))
  }

  function Receive(params: seq<Param>, s: Run): Run
  {
    if params == [] then s
    else if params[0].linear then
      var (s1, r) := Create(s);
      Receive(params[1..], Bind(s1, params[0].name, r, false))
    else Receive(params[1..], s)
  }

  function Start(choices: seq<nat>, flat: bool): Run
  {
    Run(map[], map[], Nothing, 0, [], choices, false, flat)
  }

  /** The run of a function's emitted code under the given choices. */
  function RunOf(f: Function, choices: seq<nat>): Run
  {
    ExecAll(f.body, Receive(f.params, Start(choices, true)))
  }

  /** The run under the reading that what a body declares is gone after it. */
  function ScopedRunOf(f: Function, choices: seq<nat>): Run
  {
    ExecAll(f.body, Receive(f.params, Start(choices, false)))
  }

  // ---------- Ownership discipline of a trace ----------

  predicate LiveCell(live: set<Ref>, c: nat)
  {
    exists r | r in live :: r.cell == c
  }

  /** What an auditor following the trace knows: who owns what now, and whether a rule was broken. */
  datatype Ledger = Ledger(live: set<Ref>, owners: set<nat>, cells: set<nat>, legal: bool)

  function Post(l: Ledger, e: Event): Ledger
  {
    match e
    case New(r) =>
      Ledger(l.live + {r}, l.owners + {r.owner}, l.cells + {r.cell},
             l.legal && r.owner !in l.owners && r.cell !in l.cells)
    case Move(r, to) =>
      Ledger(l.live - {r} + {to}, l.owners + {to.owner}, l.cells,
             l.legal && r in l.live && to.owner !in l.owners && to.cell == r.cell)
    case Use(r) => l.(legal := l.legal && r in l.live)
    case Look(r) => l.(legal := l.legal && LiveCell(l.live, r.cell))
    case Drop(_) => l.(legal := false)
    case Hide(r) => l.(legal := l.legal && r !in l.live)
    case _ => l.(live := l.live - {e.ref}, legal := l.legal && e.ref in l.live)
  }

  function Audit(t: seq<Event>): Ledger
  {
    if t == [] then Ledger({}, {}, {}, true) else Post(Audit(t[..|t| - 1]), t[|t| - 1])
  }

  /** Every owner is given up exactly once, is never used afterwards, and none is left at the end. */
  predicate Disciplined(t: seq<Event>)
  {
    Audit(t).legal && Audit(t).live == {}
  }

  lemma AuditEmit(s: Run, e: Event)
    ensures Audit(Emit(s, e).trace) == Post(Audit(s.trace), e)
  {
    assert (s.trace + [e])[..|s.trace|] == s.trace;
  }

  // ---------- What discipline means for each cell ----------

  predicate Consumes(e: Event)
  {
    e.Freed? || e.Passed? || e.Returned?
  }

  /** The event concerns the cell; forgetting a name does not. */
  predicate On(e: Event, c: nat)
  {
    !e.Hide? && e.ref.cell == c
  }

  /** Cell `c` is created by event `i`, and every other event on it comes later and does not consume it. */
  ghost predicate HeldSince(t: seq<Event>, c: nat, i: nat)
  {
    && i < |t| && t[i].New? && On(t[i], c)
    && forall k | 0 <= k < |t| && k != i && On(t[k], c) :: i < k && !t[k].New? && !Consumes(t[k])
  }

  /** Cell `c` is created by event `i` and consumed by event `j`; every other event on it lies between
      them and neither creates nor consumes it. */
  ghost predicate ConsumedOnce(t: seq<Event>, c: nat, i: nat, j: nat)
  {
    && i < j < |t| && t[i].New? && Consumes(t[j]) && On(t[i], c) && On(t[j], c)
    && forall k | 0 <= k < |t| && k != i && k != j && On(t[k], c) ::
         i < k < j && !t[k].New? && !Consumes(t[k])
  }

  ghost predicate Once(t: seq<Event>, c: nat)
  {
    exists i, j :: ConsumedOnce(t, c, i, j)
  }

  /** The memory-safety reading of a trace, cell by cell: every cell an event concerns is allocated
      once and consumed once, and all its uses lie in between.  Nothing is said of owners. */
  ghost predicate ExactlyOnce(t: seq<Event>)
  {
    forall k | 0 <= k < |t| && !t[k].Hide? :: Once(t, t[k].ref.cell)
  }

  /** Along a legal trace live references are recorded, and no two of them share a cell. */
  lemma {:induction false} LiveRefs(t: seq<Event>)
    requires Audit(t).legal
    ensures forall r | r in Audit(t).live :: r.cell in Audit(t).cells && r.owner in Audit(t).owners
    ensures forall r, q | r in Audit(t).live && q in Audit(t).live && r != q :: r.cell != q.cell && r.owner != q.owner
  {
    if t != [] {
      LiveRefs(t[..|t| - 1]);
    }
  }

  ghost predicate Held(t: seq<Event>, c: nat)
  {
    exists i :: HeldSince(t, c, i)
  }

  lemma HeldStep(t: seq<Event>, e: Event, c: nat)
    requires Held(t, c)
    ensures !(On(e, c) && (e.New? || Consumes(e))) ==> Held(t + [e], c)
    ensures On(e, c) && Consumes(e) ==> Once(t + [e], c)
  {
    var i :| HeldSince(t, c, i);
    if On(e, c) && Consumes(e) {
      assert ConsumedOnce(t + [e], c, i, |t|);
    } else if !(On(e, c) && e.New?) {
      assert HeldSince(t + [e], c, i);
    }
  }

  lemma OnceStep(t: seq<Event>, e: Event, c: nat)
    requires Once(t, c) && !On(e, c)
    ensures Once(t + [e], c)
  {
    var i, j :| ConsumedOnce(t, c, i, j);
    assert ConsumedOnce(t + [e], c, i, j);
  }

  predicate Mentions(t: seq<Event>, c: nat)
  {
    exists k | 0 <= k < |t| :: On(t[k], c)
  }

  /** The history of one cell along a legal trace: unheard of, held, or consumed once. */
  lemma {:induction false} CellHistory(t: seq<Event>, c: nat)
    requires Audit(t).legal
    ensures c !in Audit(t).cells ==> !Mentions(t, c)
    ensures c in Audit(t).cells ==> if LiveCell(Audit(t).live, c) then Held(t, c) else Once(t, c)
  {
    if t != [] {
      var u, e := t[..|t| - 1], t[|t| - 1];
      assert t == u + [e];
      CellHistory(u, c);
      LiveRefs(u);
      CellStep(u, e, c);
    }
  }

  lemma CellStep(u: seq<Event>, e: Event, c: nat)
    requires Audit(u + [e]) == Post(Audit(u), e) && Audit(u + [e]).legal
    requires forall r | r in Audit(u).live :: r.cell in Audit(u).cells
    requires forall r, q | r in Audit(u).live && q in Audit(u).live && r != q :: r.cell != q.cell
    requires c !in Audit(u).cells ==> !Mentions(u, c)
    requires c in Audit(u).cells ==> if LiveCell(Audit(u).live, c) then Held(u, c) else Once(u, c)
    ensures c !in Audit(u + [e]).cells ==> !Mentions(u + [e], c)
    ensures c in Audit(u + [e]).cells ==>
              if LiveCell(Audit(u + [e]).live, c) then Held(u + [e], c) else Once(u + [e], c)
  {
    if !On(e, c) {
      OtherCell(u, e, c);
    } else if e.New? {
      assert HeldSince(u + [e], c, |u|);
      assert e.ref in Audit(u + [e]).live;
    } else {
      SameCell(u, e, c);
    }
  }

  lemma OtherCell(u: seq<Event>, e: Event, c: nat)
    requires Audit(u + [e]) == Post(Audit(u), e) && Audit(u + [e]).legal && !On(e, c)
    requires c !in Audit(u).cells ==> !Mentions(u, c)
    requires c in Audit(u).cells ==> if LiveCell(Audit(u).live, c) then Held(u, c) else Once(u, c)
    ensures c !in Audit(u + [e]).cells ==> !Mentions(u + [e], c)
    ensures c in Audit(u + [e]).cells ==>
              if LiveCell(Audit(u + [e]).live, c) then Held(u + [e], c) else Once(u + [e], c)
  {
    var before, after := Audit(u), Audit(u + [e]);
    assert forall r: Ref | r.cell == c :: r in after.live <==> r in before.live;
    assert LiveCell(after.live, c) == LiveCell(before.live, c);
    if c in before.cells {
      if LiveCell(before.live, c) {
        HeldStep(u, e, c);
      } else {
        OnceStep(u, e, c);
      }
    }
  }

  lemma SameCell(u: seq<Event>, e: Event, c: nat)
    requires Audit(u + [e]) == Post(Audit(u), e) && Audit(u + [e]).legal && On(e, c) && !e.New?
    requires forall r | r in Audit(u).live :: r.cell in Audit(u).cells
    requires forall r, q | r in Audit(u).live && q in Audit(u).live && r != q :: r.cell != q.cell
    requires c in Audit(u).cells ==> if LiveCell(Audit(u).live, c) then Held(u, c) else Once(u, c)
    ensures c in Audit(u + [e]).cells
    ensures if LiveCell(Audit(u + [e]).live, c) then Held(u + [e], c) else Once(u + [e], c)
  {
    var before, after := Audit(u), Audit(u + [e]);
    assert LiveCell(before.live, c);
    HeldStep(u, e, c);
    if e.Move? {
      assert e.to in after.live;
    } else if e.Use? {
      assert e.ref in after.live;
    } else if e.Look? {
      assert after.live == before.live;
    }
  }

  /** A disciplined trace keeps memory safe: no double free, no use after free, no leak. */
  lemma DisciplineIsSafety(t: seq<Event>)
    requires Disciplined(t)
    ensures ExactlyOnce(t)
  {
    forall k | 0 <= k < |t| && !t[k].Hide? ensures Once(t, t[k].ref.cell) {
      CellHistory(t, t[k].ref.cell);
      assert Mentions(t, t[k].ref.cell);
    }
  }
}
