/** Import resolution: a depth-first search over the modules, each of whose surviving definitions is put in
    front of the program once. */
module Imports {
  import opened Wrappers

  datatype Kind =
    | FuncDef(generic: bool) | Extern | StructDef | EnumDef | AliasDef | ClassDecl | ClassInstance | OtherDef

  /** A definition; `home` is the module its name has been qualified with. */
  datatype Def = Def(kind: Kind, home: Option<string>, name: string, exported: bool)

  /** What is found under a module's name: a parsed module, or one with syntax errors. */
  datatype Source = Module(imports: seq<string>, defs: seq<Def>) | Unparsable

  type Graph = map<string, Source>

  // ---------- Surviving definitions ----------

  /** What an importer sees of a definition.  Code is imported by direct imports only, except that generic
      functions always are; exported functions become declarations. */
  function Survivor(d: Def, name: string, transitive: bool): Option<Def>
  {
    match d.kind
    case FuncDef(generic) =>
      if generic then Some(d.(home := Some(name)))
      else if !transitive && d.exported then Some(Def(Extern, Some(name), d.name, true))
      else None
    case Extern => if !transitive && d.exported then Some(d.(home := Some(name))) else None
    case StructDef | EnumDef => if d.exported then Some(d.(home := Some(name))) else None
    case AliasDef => if d.exported then Some(d) else None
    case ClassDecl | ClassInstance => if transitive then None else Some(d)
    case OtherDef => None
  }

  function Surviving(defs: seq<Def>, name: string, transitive: bool): seq<Def>
  {
    if defs == [] then []
    else
      var s := Survivor(defs[0], name, transitive);
      (if s.Some? then [s.value] else []) + Surviving(defs[1..], name, transitive)
  }

  /** A direct import shows what is exported, and besides that generic functions, type classes and their instances;
      a function that is not generic is shown as a declaration, everything else as what it is. */
  lemma DirectShowsIff(d: Def, name: string)
    ensures Survivor(d, name, false).Some? <==>
              d.kind != OtherDef && (d.exported || d.kind in {FuncDef(true), ClassDecl, ClassInstance})
    ensures Survivor(d, name, false).Some? ==>
              var s := Survivor(d, name, false).value;
              && s.name == d.name && s.kind == (if d.kind == FuncDef(false) then Extern else d.kind)
              && s.home == (if d.kind in {AliasDef, ClassDecl, ClassInstance} then d.home else Some(name))
              && s.exported == d.exported
  {
  }

  /** A direct import shows all that a transitive one does, and in the same way. */
  lemma DirectShowsMore(d: Def, name: string)
    ensures Survivor(d, name, true).Some? ==> Survivor(d, name, false) == Survivor(d, name, true)
  {
  }

  /** What is lost by importing a module transitively only: type classes, and exported functions that are not
      generic. */
  lemma LostIff(d: Def, name: string)
    ensures Survivor(d, name, false).Some? && Survivor(d, name, true).None?
            <==> d.kind.ClassDecl? || d.kind.ClassInstance? || (d.exported && d.kind in {Extern, FuncDef(false)})
  {
  }

  // ---------- Reachability ----------

  predicate Parsed(graph: Graph, m: string) { m in graph && graph[m].Module? }

  predicate Broken(graph: Graph, m: string) { m in graph && graph[m].Unparsable? }

  predicate Imports(graph: Graph, a: string, b: string)
  {
    Parsed(graph, a) && b in graph[a].imports
  }

  ghost predicate Path(graph: Graph, p: seq<string>)
  {
    p != [] && forall i, j | 0 <= i && j == i + 1 < |p| :: Imports(graph, p[i], p[j])
  }

  /** `b` is `a` itself or imported from it, directly or not. */
  ghost predicate Reaches(graph: Graph, a: string, b: string)
  {
    exists p :: Path(graph, p) && p[0] == a && p[|p| - 1] == b
  }

  lemma ReachesSelf(graph: Graph, a: string)
    ensures Reaches(graph, a, a)
  {
    assert Path(graph, [a]);
  }

  lemma ReachesImport(graph: Graph, a: string, b: string, c: string)
    requires Imports(graph, b, c)
    ensures Reaches(graph, a, b) ==> Reaches(graph, a, c)
  {
    if Reaches(graph, a, b) {
      var p :| Path(graph, p) && p[0] == a && p[|p| - 1] == b;
      assert Path(graph, p + [c]);
    }
  }

  lemma ImportReaches(graph: Graph, a: string, b: string, c: string)
    requires Imports(graph, a, b) && Reaches(graph, b, c)
    ensures Reaches(graph, a, c)
  {
    var p :| Path(graph, p) && p[0] == b && p[|p| - 1] == c;
    assert Path(graph, [a] + p);
  }

  /** One of the first `n` roots leads to the module. */
  ghost predicate ReachedFrom(graph: Graph, roots: seq<string>, n: nat, m: string)
    requires n <= |roots|
  {
    exists k | 0 <= k < n :: Reaches(graph, roots[k], m)
  }

  /** A set closed under imports contains everything reachable from its members. */
  lemma {:induction false} ClosedContains(graph: Graph, s: set<string>, p: seq<string>)
    requires Path(graph, p) && p[0] in s && forall a, b | a in s && Imports(graph, a, b) :: b in s
    ensures p[|p| - 1] in s
    decreases |p|
  {
    if |p| > 1 {
      assert Imports(graph, p[0], p[1]);
      forall i, j | 0 <= i && j == i + 1 < |p| - 1 ensures Imports(graph, p[1..][i], p[1..][j]) {
        assert Imports(graph, p[i + 1], p[j + 1]);
      }
      ClosedContains(graph, s, p[1..]);
    }
  }

  // ---------- The order of injection ----------

  datatype Visit = Visit(name: string, transitive: bool)

  function Names(order: seq<Visit>): set<string>
  {
    set v | v in order :: v.name
  }

  /** The program's own definitions with those of the visited modules in front, the last visited first. */
  function Assemble(graph: Graph, order: seq<Visit>, own: seq<Def>): seq<Def>
    requires forall v | v in order :: Parsed(graph, v.name)
  {
    if order == [] then own
    else
      var v := order[|order| - 1];
      assert v in order && Parsed(graph, v.name);
      Surviving(graph[v.name].defs, v.name, v.transitive) + Assemble(graph, order[..|order| - 1], own)
  }

  function DirectNames(order: seq<Visit>): seq<string>
  {
    if order == [] then []
    else
      var v := order[|order| - 1];
      DirectNames(order[..|order| - 1]) + (if v.transitive then [] else [v.name])
  }

  predicate Distinct(order: seq<Visit>)
  {
    forall i, j | 0 <= i < j < |order| :: order[i].name != order[j].name
  }

  /** Whatever a module imports has been visited before it, unless it leads back to the module. */
  ghost predicate DependenciesFirst(graph: Graph, order: seq<Visit>)
  {
    forall i, d | 0 <= i < |order| && Imports(graph, order[i].name, d) && Parsed(graph, d) ::
      VisitedBefore(order, i, d) || Reaches(graph, d, order[i].name)
  }

  predicate VisitedBefore(order: seq<Visit>, i: nat, m: string)
    requires i <= |order|
  {
    exists j | 0 <= j < i :: order[j].name == m
  }

  lemma OneMore(graph: Graph, order: seq<Visit>, v: Visit, own: seq<Def>)
    requires (forall w | w in order :: Parsed(graph, w.name)) && Parsed(graph, v.name)
    ensures Names(order + [v]) == Names(order) + {v.name}
    ensures Assemble(graph, order + [v], own) == Surviving(graph[v.name].defs, v.name, v.transitive) + Assemble(graph, order, own)
    ensures DirectNames(order + [v]) == DirectNames(order) + (if v.transitive then [] else [v.name])
  {
    assert (order + [v])[..|order|] == order;
  }

  lemma DependenciesFirstMore(graph: Graph, order: seq<Visit>, v: Visit)
    requires DependenciesFirst(graph, order)
    requires forall d | Imports(graph, v.name, d) && Parsed(graph, d) :: d in Names(order) || Reaches(graph, d, v.name)
    ensures DependenciesFirst(graph, order + [v])
  {
    var more := order + [v];
    forall i, d | 0 <= i < |more| && Imports(graph, more[i].name, d) && Parsed(graph, d)
      ensures VisitedBefore(more, i, d) || Reaches(graph, d, more[i].name)
    {
      assert forall j | 0 <= j < |order| :: more[j] == order[j];
      if i < |order| && VisitedBefore(order, i, d) {
        var j :| 0 <= j < i && order[j].name == d;
        assert more[j].name == d;
      } else if i == |order| && d in Names(order) {
        var v :| v in order && v.name == d;
        var j :| 0 <= j < |order| && order[j] == v;
        assert more[j].name == d;
      }
    }
  }

  // ---------- The resolver ----------

  /** Where the search stands: modules on the way to the current one have been entered but not injected. */
  datatype Search = Search(
    imported: set<string>,
    order: seq<Visit>,
    program: seq<Def>,
    objects: seq<string>,
    errors: bool)

  /** A module is injected once, after it has been entered; the program is put together from the visits. */
  ghost predicate Consistent(graph: Graph, own: seq<Def>, s: Search)
  {
    && (forall v | v in s.order :: Parsed(graph, v.name)) && Distinct(s.order)
    && Names(s.order) <= s.imported
    && s.program == Assemble(graph, s.order, own) && s.objects == DirectNames(s.order)
    && DependenciesFirst(graph, s.order)
  }

  /** Every module entered but not yet injected leads to `name`. */
  ghost predicate OnTheWay(graph: Graph, s: Search, name: string)
  {
    forall m | m in s.imported && Parsed(graph, m) && m !in Names(s.order) :: Reaches(graph, m, name)
  }

  /** Going from `a` to `b` entered only what `name` reaches, with all its imports, and injected it: as a
      transitive import, but for `name` itself. */
  ghost predicate Explored(graph: Graph, a: Search, b: Search, name: string, transitive: bool)
  {
    && a.imported <= b.imported && a.order <= b.order
    && (forall m | m in b.imported - a.imported :: Reaches(graph, name, m))
    && (forall m, d | m in b.imported - a.imported && Imports(graph, m, d) :: d in b.imported)
    && (forall m {:trigger m in Names(b.order)} | m in b.imported && Parsed(graph, m) && m !in Names(b.order) ::
          m in a.imported && m !in Names(a.order))
    && (forall i | |a.order| <= i < |b.order| ::
          && b.order[i].name !in a.imported
          && b.order[i].transitive == (transitive || b.order[i].name != name))
    && (b.errors <==> a.errors || exists m | m in b.imported - a.imported ::
          Broken(graph, m) || (m == name && m !in graph && !transitive))
  }

  /** The same while the imports of `name`, a parsed module, are being explored. */
  ghost predicate Exploring(graph: Graph, a: Search, b: Search, name: string)
  {
    && Parsed(graph, name) && name !in a.imported && name in b.imported
    && a.imported <= b.imported && a.order <= b.order && name !in Names(b.order)
    && (forall m | m in b.imported - a.imported :: Reaches(graph, name, m))
    && (forall m, d | m in b.imported - a.imported && m != name && Imports(graph, m, d) :: d in b.imported)
    && (forall m {:trigger m in Names(b.order)} | m in b.imported && Parsed(graph, m) && m !in Names(b.order) ::
          m == name || (m in a.imported && m !in Names(a.order)))
    && (forall i | |a.order| <= i < |b.order| :: b.order[i].name !in a.imported && b.order[i].transitive)
    && (b.errors <==> a.errors || exists m | m in b.imported - a.imported :: Broken(graph, m))
  }

  /** The first `n` imports have been entered. */
  predicate Entered(imports: seq<string>, n: nat, imported: set<string>)
    requires n <= |imports|
  {
    forall k | 0 <= k < n :: imports[k] in imported
  }

  lemma ExploringStep(graph: Graph, a: Search, b: Search, c: Search, name: string, next: string)
    requires Exploring(graph, a, b, name) && Imports(graph, name, next) && Explored(graph, b, c, next, true)
    requires Distinct(c.order)
    ensures Exploring(graph, a, c, name)
  {
    forall m | m in c.imported - a.imported ensures Reaches(graph, name, m) {
      if m !in b.imported {
        ImportReaches(graph, name, next, m);
      }
    }
    forall i | 0 <= i < |c.order| ensures c.order[i].name != name {
      if i < |b.order| {
        assert c.order[i] == b.order[i] && b.order[i] in b.order;
      }
    }
    forall i | |a.order| <= i < |c.order| ensures c.order[i].name !in a.imported && c.order[i].transitive {
      if i < |b.order| {
        assert c.order[i] == b.order[i];
      }
    }
  }

  /** What is on the way to a module is on the way to what it imports. */
  lemma OnTheWayStep(graph: Graph, a: Search, b: Search, name: string, next: string)
    requires OnTheWay(graph, a, name) && Exploring(graph, a, b, name) && Imports(graph, name, next)
    ensures OnTheWay(graph, b, next)
  {
    forall m | m in b.imported && Parsed(graph, m) && m !in Names(b.order) ensures Reaches(graph, m, next) {
      ReachesSelf(graph, name);
      assert Reaches(graph, m, name);
      ReachesImport(graph, m, name, next);
    }
  }

  /** Once the imports are explored the module itself is injected. */
  lemma ExploringEnd(graph: Graph, own: seq<Def>, a: Search, b: Search, c: Search, name: string, transitive: bool)
    requires Exploring(graph, a, b, name) && Consistent(graph, own, b) && OnTheWay(graph, a, name)
    requires forall d | Imports(graph, name, d) :: d in b.imported
    requires var v := Visit(name, transitive);
             && c.imported == b.imported && c.order == b.order + [v] && c.errors == b.errors
             && c.program == Surviving(graph[name].defs, name, transitive) + b.program
             && c.objects == b.objects + (if transitive then [] else [name])
    ensures Explored(graph, a, c, name, transitive) && Consistent(graph, own, c)
  {
    var v := Visit(name, transitive);
    OneMore(graph, b.order, v, own);
    ReachesSelf(graph, name);
    forall d | Imports(graph, name, d) && Parsed(graph, d) ensures d in Names(b.order) || Reaches(graph, d, name) {
    }
    DependenciesFirstMore(graph, b.order, v);
    forall i | 0 <= i < |b.order| ensures b.order[i].name != name {
      assert b.order[i] in b.order;
    }
    assert Names(c.order) == Names(b.order) + {name};
    assert Distinct(c.order);
  }

  lemma NothingFound(graph: Graph, a: Search, b: Search, name: string, transitive: bool)
    requires !Parsed(graph, name) && name !in a.imported
    requires b == a.(imported := a.imported + {name}, errors := a.errors || Broken(graph, name) || !transitive)
    ensures Explored(graph, a, b, name, transitive)
  {
    ReachesSelf(graph, name);
    assert name in b.imported - a.imported;
  }

  lemma Smaller(a: set<string>, b: set<string>, x: string)
    requires a <= b && x in b && x !in a
    ensures |a| < |b|
  {
    Larger(a + {x}, b);
  }

  lemma {:induction false} Larger(a: set<string>, b: set<string>)
    requires a <= b
    ensures |a| <= |b|
  {
    if a != {} {
      var x :| x in a;
      Larger(a - {x}, b - {x});
    }
  }

  // ---------- The program's imports ----------

  /** Import `i` brings in a module with syntax errors, or is missing and has not been looked for before. */
  ghost predicate Faulty(graph: Graph, imports: seq<string>, i: nat)
    requires i < |imports|
  {
    || (exists m :: Reaches(graph, imports[i], m) && Broken(graph, m))
    || (imports[i] !in graph && !ReachedFrom(graph, imports, i, imports[i]))
  }

  /** The program imports the module, and no earlier import of the program has brought it in already. */
  ghost predicate Direct(graph: Graph, imports: seq<string>, m: string)
  {
    exists i | 0 <= i < |imports| :: imports[i] == m && !ReachedFrom(graph, imports, i, m)
  }

  /** The first `i` imports have been dealt with. */
  ghost predicate Resolved(graph: Graph, imports: seq<string>, i: nat, s: Search)
    requires i <= |imports|
  {
    && (forall m :: m in s.imported <==> ReachedFrom(graph, imports, i, m))
    && (forall m :: m in Names(s.order) <==> m in s.imported && Parsed(graph, m))
    && (forall a, b | a in s.imported && Imports(graph, a, b) :: b in s.imported)
    && (forall v | v in s.order :: v.transitive <==> !Direct(graph, imports, v.name))
    && (forall m | m in s.imported :: !Broken(graph, m))
  }

  lemma ReachedFromMore(graph: Graph, imports: seq<string>, i: nat, m: string)
    requires i < |imports|
    ensures ReachedFrom(graph, imports, i + 1, m) <==> ReachedFrom(graph, imports, i, m) || Reaches(graph, imports[i], m)
  {
  }

  /** What was newly entered for import `i` is exactly what it reaches and no earlier one does. */
  lemma ReachedStep(graph: Graph, imports: seq<string>, i: nat, a: Search, b: Search, m: string)
    requires i < |imports| && Resolved(graph, imports, i, a)
    requires Explored(graph, a, b, imports[i], false) && imports[i] in b.imported
    ensures m in b.imported <==> ReachedFrom(graph, imports, i + 1, m)
  {
    ReachedFromMore(graph, imports, i, m);
    if Reaches(graph, imports[i], m) {
      var p :| Path(graph, p) && p[0] == imports[i] && p[|p| - 1] == m;
      ClosedContains(graph, b.imported, p);
    }
  }

  lemma ModeStep(graph: Graph, imports: seq<string>, i: nat, a: Search, b: Search, v: Visit)
    requires i < |imports| && Resolved(graph, imports, i, a) && v in b.order && Names(b.order) <= b.imported
    requires Explored(graph, a, b, imports[i], false)
    ensures v.transitive <==> !Direct(graph, imports, v.name)
  {
    var k :| 0 <= k < |b.order| && b.order[k] == v;
    if k < |a.order| {
      assert v == a.order[k];
    } else if v.name == imports[i] {
      assert !ReachedFrom(graph, imports, i, v.name);
    } else {
      assert v.name in Names(b.order);
      forall j | 0 <= j < |imports| && imports[j] == v.name ensures ReachedFrom(graph, imports, j, v.name) {
        ReachesSelf(graph, v.name);
        assert Reaches(graph, imports[j], v.name);
        assert i < j && Reaches(graph, imports[i], v.name);
      }
    }
  }

  lemma ResolvedStep(graph: Graph, imports: seq<string>, i: nat, a: Search, b: Search)
    requires i < |imports| && Resolved(graph, imports, i, a) && !a.errors && !b.errors
    requires Explored(graph, a, b, imports[i], false) && imports[i] in b.imported
    requires Names(b.order) <= b.imported && forall v | v in b.order :: Parsed(graph, v.name)
    ensures Resolved(graph, imports, i + 1, b) && !Faulty(graph, imports, i)
  {
    forall m ensures m in b.imported <==> ReachedFrom(graph, imports, i + 1, m) {
      ReachedStep(graph, imports, i, a, b, m);
    }
    forall v | v in b.order ensures v.transitive <==> !Direct(graph, imports, v.name) {
      ModeStep(graph, imports, i, a, b, v);
    }
    forall m | Reaches(graph, imports[i], m) ensures !Broken(graph, m) {
      ReachedFromMore(graph, imports, i, m);
    }
  }

  /** An error is reported only for a faulty import. */
  lemma FaultFound(graph: Graph, imports: seq<string>, i: nat, a: Search, b: Search)
    requires i < |imports| && Resolved(graph, imports, i, a) && !a.errors && b.errors
    requires Explored(graph, a, b, imports[i], false)
    ensures Faulty(graph, imports, i)
  {
  }

  /** The order of the program's imports matters: behind a module that imports it, a module is not imported
      directly, and its functions are missing. */
  lemma OrderDecides(graph: Graph, a: string, b: string)
    requires Imports(graph, a, b) && a != b
    ensures !Direct(graph, [a, b], b) && Direct(graph, [b, a], b)
  {
    ReachesSelf(graph, a);
    ReachesImport(graph, a, a, b);
    assert [a, b][0] == a && ReachedFrom(graph, [a, b], 1, b);
    assert [b, a][0] == b && !ReachedFrom(graph, [b, a], 0, b);
  }

  class Resolver {
    const graph: Graph
    const own: seq<Def>                // the program's own definitions
    var imported: set<string>
    var program: seq<Def>
    var objects: seq<string>           // the modules whose object files are linked
    var errors: bool
    ghost var order: seq<Visit>

    ghost function State(): Search
      reads this
    {
      Search(imported, order, program, objects, errors)
    }

    constructor (graph: Graph, own: seq<Def>)
      ensures this.graph == graph && this.own == own && State() == Search({}, [], own, [], false)
      ensures Consistent(graph, own, State())
    {
      this.graph, this.own := graph, own;
      imported, program, objects, errors, order := {}, own, [], false, [];
    }

    /** Last definition first, each put in front of the program: they end up in their own order. */
    method InjectDefinitions(defs: seq<Def>, name: string, transitive: bool)
      modifies this`program
      ensures program == Surviving(defs, name, transitive) + old(program)
    {
      var i: nat := |defs|;
      while i > 0
        invariant i <= |defs| && program == Surviving(defs[i..], name, transitive) + old(program)
      {
        i := i - 1;
        assert defs[i..][1..] == defs[i + 1..];
        var survivor := Survivor(defs[i], name, transitive);
        if survivor.Some? {
          program := [survivor.value] + program;
        }
      }
      assert defs[0..] == defs;
    }

    /** Import a module and, first, whatever it imports.  A missing module is an error only if the program
        itself names it. */
    method ImportModule(name: string, transitive: bool) returns (ok: bool)
      requires Consistent(graph, own, State()) && OnTheWay(graph, State(), name)
      modifies this
      ensures Consistent(graph, own, State()) && name in imported
      ensures Explored(graph, old(State()), State(), name, transitive)
      ensures ok <==> name in old(imported) || Parsed(graph, name)
      decreases |graph.Keys - imported|, 0
    {
      ghost var s0 := State();
      if name in imported {
        return true;
      }
      ReachesSelf(graph, name);
      imported := imported + {name};
      if name !in graph {
        errors := errors || !transitive;
        NothingFound(graph, s0, State(), name, transitive);
        return false;
      }
      if graph[name].Unparsable? {
        errors := true;
        NothingFound(graph, s0, State(), name, transitive);
        return false;
      }
      Smaller(graph.Keys - imported, graph.Keys - s0.imported, name);
      ExploreImports(name, s0);
      ghost var s1 := State();
      Inject(name, transitive);
      ExploringEnd(graph, own, s0, s1, State(), name, transitive);
      return true;
    }

    method ExploreImports(name: string, ghost s0: Search)
      requires Consistent(graph, own, State()) && Exploring(graph, s0, State(), name) && OnTheWay(graph, s0, name)
      modifies this
      ensures Consistent(graph, own, State()) && Exploring(graph, s0, State(), name)
      ensures forall d | Imports(graph, name, d) :: d in imported
      decreases |graph.Keys - imported|, 2
    {
      var imports := graph[name].imports;
      ghost var before, s := imported, State();
      for i := 0 to |imports|
        invariant s == State() && Consistent(graph, own, s) && Exploring(graph, s0, s, name)
        invariant before <= s.imported && Entered(imports, i, s.imported)
      {
        Larger(graph.Keys - imported, graph.Keys - before);
        ExploreImport(name, imports[i], s0);
        s := State();
      }
    }

    method ExploreImport(name: string, next: string, ghost s0: Search)
      requires Imports(graph, name, next)
      requires Consistent(graph, own, State()) && Exploring(graph, s0, State(), name) && OnTheWay(graph, s0, name)
      modifies this
      ensures Consistent(graph, own, State()) && Exploring(graph, s0, State(), name)
      ensures next in imported && old(imported) <= imported
      decreases |graph.Keys - imported|, 1
    {
      ghost var s1 := State();
      OnTheWayStep(graph, s0, s1, name, next);
      var _ := ImportModule(next, true);
      ExploringStep(graph, s0, s1, State(), name, next);
    }

    method Inject(name: string, transitive: bool)
      requires Parsed(graph, name)
      modifies this
      ensures imported == old(imported) && errors == old(errors) && order == old(order) + [Visit(name, transitive)]
      ensures program == Surviving(graph[name].defs, name, transitive) + old(program)
      ensures objects == old(objects) + (if transitive then [] else [name])
    {
      InjectDefinitions(graph[name].defs, name, transitive);
      if !transitive {
        objects := objects + [name];
      }
      order := order + [Visit(name, transitive)];
    }

    /** Resolve the program's imports.  Without faults exactly the modules they reach have been injected, each
        once; and as a direct import exactly those that no earlier import had brought in already. */
    method Resolve(imports: seq<string>)
      requires State() == Search({}, [], own, [], false)
      modifies this
      ensures Consistent(graph, own, State())
      ensures errors <==> exists i | 0 <= i < |imports| :: Faulty(graph, imports, i)
      ensures !errors ==> Resolved(graph, imports, |imports|, State())
    {
      ghost var s := State();
      for i := 0 to |imports|
        invariant s == State() && Consistent(graph, own, s) && Resolved(graph, imports, i, s) && !s.errors
        invariant forall k | 0 <= k < i :: !Faulty(graph, imports, k)
      {
        ResolveImport(imports, i);
        if errors {
          return;
        }
        s := State();
      }
    }

    method ResolveImport(imports: seq<string>, i: nat)
      requires i < |imports| && Consistent(graph, own, State()) && Resolved(graph, imports, i, State()) && !errors
      modifies this
      ensures Consistent(graph, own, State()) && (errors <==> Faulty(graph, imports, i))
      ensures !errors ==> Resolved(graph, imports, i + 1, State())
    {
      ghost var s0 := State();
      var _ := ImportModule(imports[i], false);
      if errors {
        FaultFound(graph, imports, i, s0, State());
      } else {
        ResolvedStep(graph, imports, i, s0, State());
      }
    }
  }
}
