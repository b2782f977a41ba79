/** Cloning a generic definition at concrete types, and resolving the types written in it. */
module Monomorphization {
  import opened Wrappers
  import opened Types
  import opened TypeExprs
  import opened Unification
  import opened Mangling

  type Scope = map<string, Type>

  // ---------- Resolving and cloning ----------

  /** The type an annotation stands for; applied generic names are not covered. */
  function Resolve(e: TypeExpr, scope: Scope): Type
  {
    match e
    case Named(parts, resolved) =>
      if resolved.Some? then resolved.value
      else if Mangled(parts) in scope then scope[Mangled(parts)]
      else Poisoned("")
    case PointerTo(p, linear) =>
      var t := Resolve(p, scope);
      if t.Poisoned? then t else Pointer(t, linear)
    case ArrayOf(element, n) =>
      var t := Resolve(element, scope);
      if t.Poisoned? then t else Array(t, n)
    case FunctionOf(ps, r) =>
      var ts := ResolveAll(ps, scope);
      if ts.None? then Poisoned("")
      else
        var t := Resolve(r, scope);
        if t.Poisoned? then Poisoned("") else Function(ts.value, t, false)
    case TupleOf(es) =>
      var ts := ResolveAll(es, scope);
      if ts.None? then Poisoned("") else Tuple(ts.value)
    case Applied(_, _) => Basic(NonExistent)
  }

  function ResolveAll(es: seq<TypeExpr>, scope: Scope): (r: Option<seq<Type>>)
    ensures r.Some? ==> |r.value| == |es|
  {
    if es == [] then Some([])
    else
      var t := Resolve(es[0], scope);
      if t.Poisoned? then None
      else
        var ts := ResolveAll(es[1..], scope);
        if ts.None? then None else Some([t] + ts.value)
  }

  /** The clone used by an instantiation: a bound parameter becomes a name that carries its type. */
  function Clone(e: TypeExpr, b: Bindings): TypeExpr
  {
    match e
    case Named(parts, _) =>
      if Mangled(parts) in b then Named([Show(b[Mangled(parts)])], Some(b[Mangled(parts)]))
      else Named([Mangled(parts)], None)
    case PointerTo(p, linear) => PointerTo(Clone(p, b), linear)
    case ArrayOf(element, n) => ArrayOf(Clone(element, b), n)
    case FunctionOf(ps, r) => FunctionOf(CloneAll(ps, b), Clone(r, b))
    case Applied(base, args) => Applied(base, CloneAll(args, b))
    case TupleOf(es) => TupleOf(CloneAll(es, b))
  }

  function CloneAll(es: seq<TypeExpr>, b: Bindings): (r: seq<TypeExpr>)
    ensures |r| == |es|
  {
    if es == [] then [] else [Clone(es[0], b)] + CloneAll(es[1..], b)
  }

  // ---------- What an annotation stands for ----------

  /** The annotation as the parser leaves it, without applied generic names. */
  predicate Source(e: TypeExpr)
  {
    match e
    case Named(_, resolved) => resolved.None?
    case PointerTo(p, _) => Source(p)
    case ArrayOf(element, _) => Source(element)
    case FunctionOf(ps, r) => SourceAll(ps) && Source(r)
    case Applied(_, _) => false
    case TupleOf(es) => SourceAll(es)
  }

  predicate SourceAll(es: seq<TypeExpr>)
  {
    es == [] || (Source(es[0]) && SourceAll(es[1..]))
  }

  /** The names every scope has. */
  const BUILTINS: Scope := map[
    "i32" := Basic(I32), "i64" := Basic(I64), "u32" := Basic(U32), "u64" := Basic(U64), "f64" := Basic(F64),
    "f32" := Basic(F32), "bool" := Basic(Bool), "char" := Basic(Char), "unit" := Basic(Unit)]

  /** Every name stands for a type that prints as the name. */
  ghost predicate Faithful(scope: Scope)
  {
    forall n | n in scope :: Show(scope[n]) == n
  }

  /** The built-in names do, but for `unit`. */
  lemma BuiltinsFaithful()
    ensures Faithful(BUILTINS - {"unit"}) && Show(BUILTINS["unit"]) == "()"
    ensures BUILTINS.Keys == BUILTIN + {"unit"}
  {
  }

  /** An annotation resolves to the type that prints as the annotation. */
  lemma {:induction false} ResolvePrints(e: TypeExpr, scope: Scope)
    requires Source(e) && Faithful(scope) && !Resolve(e, scope).Poisoned?
    ensures Show(Resolve(e, scope)) == Print(e)
    decreases e
  {
    match e
    case Named(_, _) =>
    case PointerTo(p, _) => ResolvePrints(p, scope);
    case ArrayOf(element, _) => ResolvePrints(element, scope);
    case FunctionOf(ps, r) => ResolveAllPrints(ps, scope); ResolvePrints(r, scope);
    case TupleOf(es) => ResolveAllPrints(es, scope);
  }

  lemma {:induction false} ResolveAllPrints(es: seq<TypeExpr>, scope: Scope)
    requires SourceAll(es) && Faithful(scope) && ResolveAll(es, scope).Some?
    ensures var ts := ResolveAll(es, scope).value; ShowAll(ts) == PrintAll(es) && ShowRest(ts) == PrintRest(es)
    decreases es
  {
    if es != [] {
      ResolvePrints(es[0], scope);
      ResolveAllPrints(es[1..], scope);
      assert ResolveAll(es, scope).value[1..] == ResolveAll(es[1..], scope).value;
    }
  }

  /** The names in an annotation. */
  function Names(e: TypeExpr): set<string>
  {
    match e
    case Named(parts, _) => {Mangled(parts)}
    case PointerTo(p, _) => Names(p)
    case ArrayOf(element, _) => Names(element)
    case FunctionOf(ps, r) => NamesAll(ps) + Names(r)
    case Applied(_, args) => NamesAll(args)
    case TupleOf(es) => NamesAll(es)
  }

  function NamesAll(es: seq<TypeExpr>): set<string>
  {
    if es == [] then {} else Names(es[0]) + NamesAll(es[1..])
  }

  predicate Stands(name: string, scope: Scope)
  {
    name in scope && !scope[name].Poisoned?
  }

  /** It resolves exactly if all its names do. */
  lemma {:induction false} ResolvesIff(e: TypeExpr, scope: Scope)
    requires Source(e)
    ensures !Resolve(e, scope).Poisoned? <==> forall n | n in Names(e) :: Stands(n, scope)
    decreases e
  {
    match e
    case Named(parts, _) => assert Mangled(parts) in Names(e);
    case PointerTo(p, _) => ResolvesIff(p, scope);
    case ArrayOf(element, _) => ResolvesIff(element, scope);
    case FunctionOf(ps, r) =>
      ResolvesAllIff(ps, scope);
      ResolvesIff(r, scope);
      assert Names(e) == NamesAll(ps) + Names(r);
    case TupleOf(es) => ResolvesAllIff(es, scope);
  }

  lemma {:induction false} ResolvesAllIff(es: seq<TypeExpr>, scope: Scope)
    requires SourceAll(es)
    ensures ResolveAll(es, scope).Some? <==> forall n | n in NamesAll(es) :: Stands(n, scope)
    decreases es
  {
    if es != [] {
      ResolvesIff(es[0], scope);
      ResolvesAllIff(es[1..], scope);
      assert NamesAll(es) == Names(es[0]) + NamesAll(es[1..]);
    }
  }

  // ---------- Cloning commutes with substitution ----------

  /** Bound parameters stand for themselves in the scope, every other name for a type without bound
      parameters, and no parameter is bound to an error. */
  ghost predicate Generic(scope: Scope, b: Bindings)
  {
    && (forall n | n in b :: n in scope && scope[n] == TypeParam(n) && !b[n].Poisoned?)
    && (forall n | n in scope && n !in b :: Params(scope[n]) !! b.Keys)
  }

  lemma {:induction false} SubstituteClosed(t: Type, b: Bindings)
    requires Params(t) !! b.Keys
    ensures Eq(Substitute(t, b), t)
  {
    match t
    case TypeParam(name) => assert name in Params(t);
    case Function(ps, r, _) => SubstituteAllClosed(ps, b); SubstituteClosed(r, b);
    case Pointer(p, _) => SubstituteClosed(p, b);
    case Array(e, _) => SubstituteClosed(e, b);
    case Tuple(es) => SubstituteAllClosed(es, b);
    case _ => EqReflexive(t);
  }

  lemma {:induction false} SubstituteAllClosed(ts: seq<Type>, b: Bindings)
    requires ParamsAll(ts) !! b.Keys
    ensures EqAll(SubstituteAll(ts, b), ts)
  {
    if ts != [] {
      SubstituteClosed(ts[0], b);
      SubstituteAllClosed(ts[1..], b);
    }
  }

  // ---------- Variadic tails ----------

  /** No function type in it, outside structs and enums, has a variadic tail. */
  predicate Tailless(t: Type)
  {
    match t
    case Function(ps, r, varArg) => !varArg && TaillessAll(ps) && Tailless(r)
    case Pointer(p, _) => Tailless(p)
    case Array(e, _) => Tailless(e)
    case Tuple(es) => TaillessAll(es)
    case _ => true
  }

  predicate TaillessAll(ts: seq<Type>)
  {
    ts == [] || (Tailless(ts[0]) && TaillessAll(ts[1..]))
  }

  /** Nobody can write a variadic function type down. */
  lemma {:induction false} ResolveTailless(e: TypeExpr, scope: Scope)
    requires Source(e) && forall n | n in scope :: Tailless(scope[n])
    ensures Tailless(Resolve(e, scope))
  {
    match e
    case Named(_, _) | Applied(_, _) =>
    case PointerTo(p, _) => ResolveTailless(p, scope);
    case ArrayOf(element, _) => ResolveTailless(element, scope);
    case FunctionOf(ps, r) => ResolveAllTailless(ps, scope); ResolveTailless(r, scope);
    case TupleOf(es) => ResolveAllTailless(es, scope);
  }

  lemma {:induction false} ResolveAllTailless(es: seq<TypeExpr>, scope: Scope)
    requires SourceAll(es) && forall n | n in scope :: Tailless(scope[n])
    ensures ResolveAll(es, scope).Some? ==> TaillessAll(ResolveAll(es, scope).value)
  {
    if es != [] {
      ResolveTailless(es[0], scope);
      ResolveAllTailless(es[1..], scope);
    }
  }

  /** Substituting drops the tail even of a function type that has nothing to be substituted. */
  lemma {:induction false} SubstituteTailless(t: Type, b: Bindings)
    requires forall n | n in b :: Tailless(b[n])
    ensures Tailless(Substitute(t, b))
  {
    match t
    case Function(ps, r, _) => SubstituteAllTailless(ps, b); SubstituteTailless(r, b);
    case Pointer(p, _) => SubstituteTailless(p, b);
    case Array(e, _) => SubstituteTailless(e, b);
    case Tuple(es) => SubstituteAllTailless(es, b);
    case _ =>
  }

  lemma {:induction false} SubstituteAllTailless(ts: seq<Type>, b: Bindings)
    requires forall n | n in b :: Tailless(b[n])
    ensures TaillessAll(SubstituteAll(ts, b))
  {
    if ts != [] {
      SubstituteTailless(ts[0], b);
      SubstituteAllTailless(ts[1..], b);
    }
  }

  // ---------- Cloning ----------

  /** Resolving the clone gives the same type as substituting into the resolved original. */
  lemma {:induction false} CloneCommutes(e: TypeExpr, scope: Scope, b: Bindings)
    requires Source(e) && Generic(scope, b)
    ensures Eq(Resolve(Clone(e, b), scope), Substitute(Resolve(e, scope), b))
    ensures Resolve(Clone(e, b), scope).Poisoned? <==> Resolve(e, scope).Poisoned?
    decreases e
  {
    match e
    case Named(parts, _) =>
      var n := Mangled(parts);
      assert Mangled([n]) == n;
      if n in b {
        EqReflexive(b[n]);
      } else if n in scope {
        SubstituteClosed(scope[n], b);
        EqSymmetric(Substitute(scope[n], b), scope[n]);
      }
    case PointerTo(p, _) => CloneCommutes(p, scope, b);
    case ArrayOf(element, _) => CloneCommutes(element, scope, b);
    case FunctionOf(ps, r) => CloneAllCommutes(ps, scope, b); CloneCommutes(r, scope, b);
    case TupleOf(es) => CloneAllCommutes(es, scope, b);
  }

  lemma {:induction false} CloneAllCommutes(es: seq<TypeExpr>, scope: Scope, b: Bindings)
    requires SourceAll(es) && Generic(scope, b)
    ensures var ts, us := ResolveAll(CloneAll(es, b), scope), ResolveAll(es, scope);
            && (ts.None? <==> us.None?)
            && (ts.Some? ==> EqAll(ts.value, SubstituteAll(us.value, b)))
    decreases es
  {
    if es != [] {
      CloneCommutes(es[0], scope, b);
      CloneAllCommutes(es[1..], scope, b);
      assert CloneAll(es, b)[1..] == CloneAll(es[1..], b);
      var ts, us := ResolveAll(CloneAll(es, b), scope), ResolveAll(es, scope);
      if us.Some? {
        assert us.value[1..] == ResolveAll(es[1..], scope).value;
        assert ts.value[1..] == ResolveAll(CloneAll(es[1..], b), scope).value;
      }
    }
  }

  // ---------- Ownership ----------
  // The clone keeps the ownership of every pointer; substitution rebuilds pointers without it.

  /** An owning pointer occurs outside every struct and enum. */
  predicate OwnsVisibly(t: Type)
  {
    match t
    case Pointer(p, linear) => linear || OwnsVisibly(p)
    case Array(e, _) => OwnsVisibly(e)
    case Function(ps, r, _) => AnyOwnsVisibly(ps) || OwnsVisibly(r)
    case Tuple(es) => AnyOwnsVisibly(es)
    case _ => false
  }

  predicate AnyOwnsVisibly(ts: seq<Type>)
  {
    ts != [] && (OwnsVisibly(ts[0]) || AnyOwnsVisibly(ts[1..]))
  }

  lemma {:induction false} SubstituteClosedSame(t: Type, b: Bindings)
    requires Params(t) !! b.Keys
    ensures Same(t, Substitute(t, b)) <==> !OwnsVisibly(t)
  {
    match t
    case TypeParam(name) => assert name in Params(t);
    case Function(ps, r, _) => SubstituteAllClosedSame(ps, b); SubstituteClosedSame(r, b);
    case Pointer(p, _) => SubstituteClosedSame(p, b);
    case Array(e, _) => SubstituteClosedSame(e, b);
    case Tuple(es) => SubstituteAllClosedSame(es, b);
    case _ => EqReflexive(t);
  }

  lemma {:induction false} SubstituteAllClosedSame(ts: seq<Type>, b: Bindings)
    requires ParamsAll(ts) !! b.Keys
    ensures SameAll(ts, SubstituteAll(ts, b)) <==> !AnyOwnsVisibly(ts)
  {
    if ts != [] {
      SubstituteClosedSame(ts[0], b);
      SubstituteAllClosedSame(ts[1..], b);
    }
  }

  lemma {:induction false} SameReflexive(t: Type)
    ensures Same(t, t)
  {
    match t
    case Function(ps, r, _) => SameAllReflexive(ps); SameReflexive(r);
    case Pointer(p, _) => SameReflexive(p);
    case Array(e, _) => SameReflexive(e);
    case Tuple(es) => SameAllReflexive(es);
    case _ => EqReflexive(t);
  }

  lemma {:induction false} SameAllReflexive(ts: seq<Type>)
    ensures SameAll(ts, ts)
  {
    if ts != [] {
      SameReflexive(ts[0]);
      SameAllReflexive(ts[1..]);
    }
  }

  /** The two routes agree on ownership too if and only if the original, outside its parameters, owns nothing. */
  lemma {:induction false} CloneKeepsOwnershipIff(e: TypeExpr, scope: Scope, b: Bindings)
    requires Source(e) && Generic(scope, b) && !Resolve(e, scope).Poisoned?
    ensures Same(Resolve(Clone(e, b), scope), Substitute(Resolve(e, scope), b)) <==> !OwnsVisibly(Resolve(e, scope))
    decreases e
  {
    CloneCommutes(e, scope, b);
    match e
    case Named(parts, _) =>
      var n := Mangled(parts);
      assert Mangled([n]) == n;
      if n in b {
        SameReflexive(b[n]);
      } else {
        SubstituteClosedSame(scope[n], b);
      }
    case PointerTo(p, _) => CloneKeepsOwnershipIff(p, scope, b);
    case ArrayOf(element, _) => CloneKeepsOwnershipIff(element, scope, b);
    case FunctionOf(ps, r) =>
      CloneAllCommutes(ps, scope, b);
      CloneAllKeepsOwnershipIff(ps, scope, b);
      CloneKeepsOwnershipIff(r, scope, b);
      CloneCommutes(r, scope, b);
    case TupleOf(es) =>
      CloneAllCommutes(es, scope, b);
      CloneAllKeepsOwnershipIff(es, scope, b);
  }

  lemma {:induction false} CloneAllKeepsOwnershipIff(es: seq<TypeExpr>, scope: Scope, b: Bindings)
    requires SourceAll(es) && Generic(scope, b) && ResolveAll(es, scope).Some? && ResolveAll(CloneAll(es, b), scope).Some?
    ensures SameAll(ResolveAll(CloneAll(es, b), scope).value, SubstituteAll(ResolveAll(es, scope).value, b))
       <==> !AnyOwnsVisibly(ResolveAll(es, scope).value)
    decreases es
  {
    if es != [] {
      CloneKeepsOwnershipIff(es[0], scope, b);
      CloneCommutes(es[0], scope, b);
      assert CloneAll(es, b)[1..] == CloneAll(es[1..], b);
      CloneAllKeepsOwnershipIff(es[1..], scope, b);
      var ts, us := ResolveAll(CloneAll(es, b), scope), ResolveAll(es, scope);
      assert us.value[1..] == ResolveAll(es[1..], scope).value;
      assert ts.value[1..] == ResolveAll(CloneAll(es[1..], b), scope).value;
    }
  }

  // ---------- Instantiating functions once ----------

  predicate Instantiable(k: MonomorphizedKey, enums: set<string>)
  {
    Plain(k.name) && ConcreteAll(k.args, enums)
  }

  class Monomorphizer {
    var instantiated: seq<MonomorphizedKey>
    var defs: seq<string>  // the symbols of the instantiated functions, in order

    ghost predicate Valid(enums: set<string>)
      reads this
    {
      && |defs| == |instantiated|
      && (forall i | 0 <= i < |defs| :: Instantiable(instantiated[i], enums)
                                     && defs[i] == GenericName(instantiated[i].name, instantiated[i].args))
      && (forall i, j | 0 <= i < j < |defs| :: !SameKey(instantiated[i], instantiated[j]))
    }

    constructor ()
      ensures instantiated == [] && defs == []
    {
      instantiated, defs := [], [];
    }

    method Contains(key: MonomorphizedKey) returns (found: bool)
      ensures found <==> exists k | k in instantiated :: SameKey(k, key)
    {
      var i := 0;
      while i < |instantiated|
        invariant 0 <= i <= |instantiated|
        invariant forall j | 0 <= j < i :: !SameKey(instantiated[j], key)
      {
        if SameKey(instantiated[i], key) {
          return true;
        }
        i := i + 1;
      }
      return false;
    }

    /** A key seen before adds nothing; a new one adds a definition whose symbol no other definition has. */
    method TryInstantiateFunc(key: MonomorphizedKey, ghost enums: set<string>) returns (symbol: Option<string>)
      requires Valid(enums) && Instantiable(key, enums)
      modifies this
      ensures Valid(enums)
      ensures symbol.None? <==> exists k | k in old(instantiated) :: SameKey(k, key)
      ensures symbol.None? ==> instantiated == old(instantiated) && defs == old(defs)
      ensures symbol.Some? ==>
                && instantiated == old(instantiated) + [key]
                && defs == old(defs) + [symbol.value] && symbol.value !in old(defs)
    {
      var seen := Contains(key);
      if seen {
        return None;
      }
      var name := GenericName(key.name, key.args);
      forall i | 0 <= i < |defs| ensures defs[i] != name {
        assert instantiated[i] in instantiated;
        if defs[i] == name {
          KeysHaveOwnSymbols(instantiated[i], key, enums);
        }
      }
      instantiated := instantiated + [key];
      defs := defs + [name];
      return Some(name);
    }
  }
}
