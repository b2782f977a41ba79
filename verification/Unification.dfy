/** One-sided unification of a generic pattern with a concrete type, and substitution. */
module Unification {
  import opened Wrappers
  import opened Types

  type Bindings = map<string, Type>

  // ---------- Substitution ----------

  /** Replace bound parameters.  A struct or enum is rebuilt only if some part of it changes. */
  function Substitute(t: Type, b: Bindings): Type
  {
    match t
    case TypeParam(name) => if name in b then b[name] else t
    case Pointer(p, _) => Pointer(Substitute(p, b), false)
    case Array(e, n) => Array(Substitute(e, b), n)
    case Function(ps, r, _) => Function(SubstituteAll(ps, b), Substitute(r, b), false)
    case Tuple(es) => Tuple(SubstituteAll(es, b))
    case Struct(name, names, fields) =>
      var fields' := SubstituteAll(fields, b);
      if EqAll(fields', fields) then t else Struct(name, names, fields')
    case Enum(name, variants, backed, backing) =>
      var variants' := SubstituteVariants(variants, b);
      if SameVariants(variants', variants) then t else Enum(name, variants', backed, backing)
    case _ => t
  }

  function SubstituteAll(ts: seq<Type>, b: Bindings): (r: seq<Type>)
    ensures |r| == |ts|
  {
    if ts == [] then [] else [Substitute(ts[0], b)] + SubstituteAll(ts[1..], b)
  }

  function SubstituteVariants(vs: seq<Variant>, b: Bindings): (r: seq<Variant>)
    ensures |r| == |vs|
  {
    if vs == [] then []
    else [vs[0].(payload := SubstituteAll(vs[0].payload, b))] + SubstituteVariants(vs[1..], b)
  }

  predicate SameVariants(vs: seq<Variant>, ws: seq<Variant>)
  {
    |vs| == |ws| && (vs == [] || (EqAll(vs[0].payload, ws[0].payload) && SameVariants(vs[1..], ws[1..])))
  }

  // ---------- Unification ----------

  function Unify(p: Type, c: Type, b: Bindings): (bool, Bindings)
    decreases p
  {
    match (p, c)
    case (TypeParam(name), _) =>
      if ContainsParam(c, name) then (false, b)
      else if name in b then (Eq(b[name], c), b)
      else (true, b[name := c])
    case (Basic(k), Basic(l)) => (k == l, b)
    case (Str(_), Str(_)) => (true, b)
    case (Poisoned(_), Poisoned(_)) => (true, b)
    case (Pointer(q, _), Pointer(d, _)) => Unify(q, d, b)
    case (Array(q, m), Array(d, n)) => if m != n then (false, b) else Unify(q, d, b)
    case (Function(ps, r, _), Function(cs, s, _)) =>
      var (ok, b1) := UnifyAll(ps, cs, b);
      if ok then Unify(r, s, b1) else (false, b1)
    case (Tuple(ps), Tuple(cs)) => UnifyAll(ps, cs, b)
    case (Struct(m, _, ps), Struct(n, _, cs)) => if m != n then (false, b) else UnifyAll(ps, cs, b)
    case (Enum(m, ps, _, _), Enum(n, cs, _, _)) =>
      if m != n || |ps| != |cs| then (false, b) else UnifyVariants(ps, cs, b)
    case _ => (false, b)
  }

  function UnifyAll(ps: seq<Type>, cs: seq<Type>, b: Bindings): (bool, Bindings)
    decreases ps
  {
    if |ps| != |cs| then (false, b)
    else if ps == [] then (true, b)
    else
      var (ok, b1) := Unify(ps[0], cs[0], b);
      if ok then UnifyAll(ps[1..], cs[1..], b1) else (false, b1)
  }

  function UnifyVariants(ps: seq<Variant>, cs: seq<Variant>, b: Bindings): (bool, Bindings)
    requires |ps| == |cs|
    decreases ps
  {
    if ps == [] then (true, b)
    else if ps[0].name != cs[0].name then (false, b)
    else
      var (ok, b1) := UnifyAll(ps[0].payload, cs[0].payload, b);
      if ok then UnifyVariants(ps[1..], cs[1..], b1) else (false, b1)
  }

  /** The bindings a caller passes by reference; they grow even when unification fails. */
  class BindingTable {
    var entries: Bindings

    constructor (initial: Bindings)
      ensures entries == initial
    {
      entries := initial;
    }

    method Solve(p: Type, c: Type) returns (ok: bool)
      modifies this
      ensures (ok, entries) == Unify(p, c, old(entries))
      decreases p
    {
      match (p, c)
      case (TypeParam(name), _) =>
        if ContainsParam(c, name) {
          return false;
        }
        if name in entries {
          return Eq(entries[name], c);
        }
        entries := entries[name := c];
        return true;
      case (Basic(k), Basic(l)) => return k == l;
      case (Str(_), Str(_)) => return true;
      case (Poisoned(_), Poisoned(_)) => return true;
      case (Pointer(q, _), Pointer(d, _)) => ok := Solve(q, d);
      case (Array(q, m), Array(d, n)) =>
        if m != n {
          return false;
        }
        ok := Solve(q, d);
      case (Function(ps, r, _), Function(cs, s, _)) =>
        ok := SolveAll(ps, cs);
        if ok {
          ok := Solve(r, s);
        }
      case (Tuple(ps), Tuple(cs)) => ok := SolveAll(ps, cs);
      case (Struct(m, _, ps), Struct(n, _, cs)) =>
        if m != n {
          return false;
        }
        ok := SolveAll(ps, cs);
      case (Enum(m, ps, _, _), Enum(n, cs, _, _)) =>
        if m != n || |ps| != |cs| {
          return false;
        }
        ok := SolveVariants(ps, cs);
      case _ => return false;
    }

    method SolveAll(ps: seq<Type>, cs: seq<Type>) returns (ok: bool)
      modifies this
      ensures (ok, entries) == UnifyAll(ps, cs, old(entries))
      decreases ps, 0
    {
      if |ps| != |cs| {
        return false;
      }
      var i := 0;
      while i < |ps|
        invariant 0 <= i <= |ps|
        invariant UnifyAll(ps[i..], cs[i..], entries) == UnifyAll(ps, cs, old(entries))
      {
        assert ps[i..][0] == ps[i] && cs[i..][0] == cs[i] && ps[i..][1..] == ps[i + 1..] && cs[i..][1..] == cs[i + 1..];
        ok := Solve(ps[i], cs[i]);
        if !ok {
          return false;
        }
        i := i + 1;
      }
      return true;
    }

    method SolveVariants(ps: seq<Variant>, cs: seq<Variant>) returns (ok: bool)
      requires |ps| == |cs|
      modifies this
      ensures (ok, entries) == UnifyVariants(ps, cs, old(entries))
      decreases ps, 0
    {
      var i := 0;
      while i < |ps|
        invariant 0 <= i <= |ps|
        invariant UnifyVariants(ps[i..], cs[i..], entries) == UnifyVariants(ps, cs, old(entries))
      {
        var v := ps[i];
        assert v in ps && ps[i..][0] == v && cs[i..][0] == cs[i];
        assert ps[i..][1..] == ps[i + 1..] && cs[i..][1..] == cs[i + 1..];
        if v.name != cs[i].name {
          return false;
        }
        ok := SolveAll(v.payload, cs[i].payload);
        if !ok {
          return false;
        }
        i := i + 1;
      }
      return true;
    }
  }

  // ---------- What unification means ----------

  /** Under the assignment `s` the pattern becomes the concrete type, part by part, through the fields of
      structs and enums; no parameter stands for a type that mentions it. */
  predicate Fits(p: Type, s: Bindings, c: Type)
  {
    match (p, c)
    case (TypeParam(name), _) => name in s && !ContainsParam(c, name) && Eq(s[name], c)
    case (Basic(k), Basic(l)) => k == l
    case (Str(_), Str(_)) => true
    case (Poisoned(_), Poisoned(_)) => true
    case (Pointer(q, _), Pointer(d, _)) => Fits(q, s, d)
    case (Array(q, m), Array(d, n)) => m == n && Fits(q, s, d)
    case (Function(ps, r, _), Function(cs, t, _)) => FitsAll(ps, s, cs) && Fits(r, s, t)
    case (Tuple(ps), Tuple(cs)) => FitsAll(ps, s, cs)
    case (Struct(m, _, ps), Struct(n, _, cs)) => m == n && FitsAll(ps, s, cs)
    case (Enum(m, ps, _, _), Enum(n, cs, _, _)) => m == n && FitsVariants(ps, s, cs)
    case _ => false
  }

  predicate FitsAll(ps: seq<Type>, s: Bindings, cs: seq<Type>)
  {
    |ps| == |cs| && (ps == [] || (Fits(ps[0], s, cs[0]) && FitsAll(ps[1..], s, cs[1..])))
  }

  predicate FitsVariants(ps: seq<Variant>, s: Bindings, cs: seq<Variant>)
  {
    |ps| == |cs| &&
    (ps == [] || (ps[0].name == cs[0].name && FitsAll(ps[0].payload, s, cs[0].payload) && FitsVariants(ps[1..], s, cs[1..])))
  }

  /** `s` agrees with every binding of `b`, up to the equality of types. */
  ghost predicate Agrees(b: Bindings, s: Bindings)
  {
    forall n | n in b :: n in s && Eq(b[n], s[n])
  }

  ghost predicate Includes(b: Bindings, b': Bindings)
  {
    forall n | n in b :: n in b' && b'[n] == b[n]
  }

  // Fitting survives more bindings.

  lemma {:induction false} FitsMore(p: Type, b: Bindings, b': Bindings, c: Type)
    requires Fits(p, b, c) && Includes(b, b')
    ensures Fits(p, b', c)
    decreases p
  {
    match p
    case Pointer(q, _) => FitsMore(q, b, b', c.pointee);
    case Array(q, _) => FitsMore(q, b, b', c.element);
    case Function(ps, r, _) => FitsAllMore(ps, b, b', c.params); FitsMore(r, b, b', c.result);
    case Tuple(ps) => FitsAllMore(ps, b, b', c.elements);
    case Struct(_, _, ps) => FitsAllMore(ps, b, b', c.fields);
    case Enum(_, ps, _, _) => FitsVariantsMore(ps, b, b', c.variants);
    case _ =>
  }

  lemma {:induction false} FitsAllMore(ps: seq<Type>, b: Bindings, b': Bindings, cs: seq<Type>)
    requires FitsAll(ps, b, cs) && Includes(b, b')
    ensures FitsAll(ps, b', cs)
    decreases ps
  {
    if ps != [] {
      FitsMore(ps[0], b, b', cs[0]);
      FitsAllMore(ps[1..], b, b', cs[1..]);
    }
  }

  lemma {:induction false} FitsVariantsMore(ps: seq<Variant>, b: Bindings, b': Bindings, cs: seq<Variant>)
    requires FitsVariants(ps, b, cs) && Includes(b, b')
    ensures FitsVariants(ps, b', cs)
    decreases ps
  {
    if ps != [] {
      FitsAllMore(ps[0].payload, b, b', cs[0].payload);
      FitsVariantsMore(ps[1..], b, b', cs[1..]);
    }
  }

  /** What one call of `Unify` does to the bindings, and what success means. */
  ghost predicate Solves(b: Bindings, ok: bool, b': Bindings, params: set<string>, fits: bool)
  {
    && Includes(b, b')
    && (ok ==> fits && b'.Keys == b.Keys + params)
  }

  lemma {:induction false} UnifySolves(p: Type, c: Type, b: Bindings)
    ensures var (ok, b') := Unify(p, c, b);
            Solves(b, ok, b', Params(p), ok ==> Fits(p, b', c))
    decreases p
  {
    match p
    case TypeParam(_) => EqReflexive(c);
    case Pointer(q, _) => if c.Pointer? { UnifySolves(q, c.pointee, b); }
    case Array(q, _) => if c.Array? { UnifySolves(q, c.element, b); }
    case Function(ps, r, _) =>
      if c.Function? {
        UnifyAllSolves(ps, c.params, b);
        var (ok, b1) := UnifyAll(ps, c.params, b);
        UnifySolves(r, c.result, b1);
        var (ok2, b2) := Unify(r, c.result, b1);
        if ok && ok2 {
          FitsAllMore(ps, b1, b2, c.params);
        }
      }
    case Tuple(ps) => if c.Tuple? { UnifyAllSolves(ps, c.elements, b); }
    case Struct(_, _, ps) => if c.Struct? { UnifyAllSolves(ps, c.fields, b); }
    case Enum(_, ps, _, _) => if c.Enum? && |ps| == |c.variants| { UnifyVariantsSolves(ps, c.variants, b); }
    case _ =>
  }

  lemma {:induction false} UnifyAllSolves(ps: seq<Type>, cs: seq<Type>, b: Bindings)
    ensures var (ok, b') := UnifyAll(ps, cs, b);
            Solves(b, ok, b', ParamsAll(ps), ok ==> FitsAll(ps, b', cs))
    decreases ps
  {
    if |ps| == |cs| && ps != [] {
      UnifySolves(ps[0], cs[0], b);
      var (ok, b1) := Unify(ps[0], cs[0], b);
      UnifyAllSolves(ps[1..], cs[1..], b1);
      var (ok2, b2) := UnifyAll(ps[1..], cs[1..], b1);
      if ok && ok2 {
        FitsMore(ps[0], b1, b2, cs[0]);
      }
    }
  }

  lemma {:induction false} UnifyVariantsSolves(ps: seq<Variant>, cs: seq<Variant>, b: Bindings)
    requires |ps| == |cs|
    ensures var (ok, b') := UnifyVariants(ps, cs, b);
            Solves(b, ok, b', ParamsVariants(ps), ok ==> FitsVariants(ps, b', cs))
    decreases ps
  {
    if ps != [] {
      UnifyAllSolves(ps[0].payload, cs[0].payload, b);
      var (ok, b1) := UnifyAll(ps[0].payload, cs[0].payload, b);
      UnifyVariantsSolves(ps[1..], cs[1..], b1);
      var (ok2, b2) := UnifyVariants(ps[1..], cs[1..], b1);
      if ok && ok2 {
        FitsAllMore(ps[0].payload, b1, b2, cs[0].payload);
      }
    }
  }

  // Any assignment that fits is one the unifier's bindings agree with.

  lemma {:induction false} UnifyGeneral(p: Type, c: Type, b: Bindings, s: Bindings)
    requires Agrees(b, s) && Fits(p, s, c)
    ensures var (ok, b') := Unify(p, c, b); ok && Agrees(b', s)
    decreases p
  {
    match p
    case TypeParam(name) =>
      EqSymmetric(s[name], c);
      if name in b {
        EqTransitive(b[name], s[name], c);
      }
    case Pointer(q, _) => UnifyGeneral(q, c.pointee, b, s);
    case Array(q, _) => UnifyGeneral(q, c.element, b, s);
    case Function(ps, r, _) =>
      UnifyAllGeneral(ps, c.params, b, s);
      UnifyGeneral(r, c.result, UnifyAll(ps, c.params, b).1, s);
    case Tuple(ps) => UnifyAllGeneral(ps, c.elements, b, s);
    case Struct(_, _, ps) => UnifyAllGeneral(ps, c.fields, b, s);
    case Enum(_, ps, _, _) => UnifyVariantsGeneral(ps, c.variants, b, s);
    case _ =>
  }

  lemma {:induction false} UnifyAllGeneral(ps: seq<Type>, cs: seq<Type>, b: Bindings, s: Bindings)
    requires Agrees(b, s) && FitsAll(ps, s, cs)
    ensures var (ok, b') := UnifyAll(ps, cs, b); ok && Agrees(b', s)
    decreases ps
  {
    if ps != [] {
      UnifyGeneral(ps[0], cs[0], b, s);
      UnifyAllGeneral(ps[1..], cs[1..], Unify(ps[0], cs[0], b).1, s);
    }
  }

  lemma {:induction false} UnifyVariantsGeneral(ps: seq<Variant>, cs: seq<Variant>, b: Bindings, s: Bindings)
    requires Agrees(b, s) && FitsVariants(ps, s, cs)
    ensures var (ok, b') := UnifyVariants(ps, cs, b); ok && Agrees(b', s)
    decreases ps
  {
    if ps != [] {
      UnifyAllGeneral(ps[0].payload, cs[0].payload, b, s);
      UnifyVariantsGeneral(ps[1..], cs[1..], UnifyAll(ps[0].payload, cs[0].payload, b).1, s);
    }
  }

  /** Unification succeeds exactly when some assignment consistent with the bindings fits. */
  lemma UnifyIff(p: Type, c: Type, b: Bindings)
    ensures Unify(p, c, b).0 <==> exists s :: Agrees(b, s) && Fits(p, s, c)
  {
    var (ok, b') := Unify(p, c, b);
    UnifySolves(p, c, b);
    if ok {
      forall n | n in b ensures Eq(b[n], b'[n]) {
        EqReflexive(b[n]);
      }
      assert Agrees(b, b') && Fits(p, b', c);
    }
    if s :| Agrees(b, s) && Fits(p, s, c) {
      UnifyGeneral(p, c, b, s);
    }
  }

  // ---------- Substituting the solution ----------

  lemma {:induction false} FitsSubstitute(p: Type, s: Bindings, c: Type)
    requires Fits(p, s, c)
    ensures Eq(Substitute(p, s), c)
    decreases p
  {
    match p
    case Pointer(q, _) => FitsSubstitute(q, s, c.pointee);
    case Array(q, _) => FitsSubstitute(q, s, c.element);
    case Function(ps, r, _) => FitsSubstituteAll(ps, s, c.params); FitsSubstitute(r, s, c.result);
    case Tuple(ps) => FitsSubstituteAll(ps, s, c.elements);
    case _ =>
  }

  lemma {:induction false} FitsSubstituteAll(ps: seq<Type>, s: Bindings, cs: seq<Type>)
    requires FitsAll(ps, s, cs)
    ensures EqAll(SubstituteAll(ps, s), cs)
    decreases ps
  {
    if ps != [] {
      FitsSubstitute(ps[0], s, cs[0]);
      FitsSubstituteAll(ps[1..], s, cs[1..]);
    }
  }

  /** Soundness: success extends the bindings to all parameters of the pattern, and substituting them
      turns the pattern into the concrete type. */
  lemma UnifySound(p: Type, c: Type, b: Bindings)
    requires Unify(p, c, b).0
    ensures var b' := Unify(p, c, b).1;
            Includes(b, b') && b'.Keys == b.Keys + Params(p) && Eq(Substitute(p, b'), c)
  {
    UnifySolves(p, c, b);
    FitsSubstitute(p, Unify(p, c, b).1, c);
  }

  // ---------- Deep instantiation ----------

  /** The pattern with its parameters replaced everywhere, inside structs and enums too. */
  function Instantiate(t: Type, s: Bindings): Type
  {
    match t
    case TypeParam(name) => if name in s then s[name] else t
    case Pointer(p, linear) => Pointer(Instantiate(p, s), linear)
    case Array(e, n) => Array(Instantiate(e, s), n)
    case Function(ps, r, v) => Function(InstantiateAll(ps, s), Instantiate(r, s), v)
    case Tuple(es) => Tuple(InstantiateAll(es, s))
    case Struct(name, names, fields) => Struct(name, names, InstantiateAll(fields, s))
    case Enum(name, variants, backed, backing) => Enum(name, InstantiateVariants(variants, s), backed, backing)
    case _ => t
  }

  function InstantiateAll(ts: seq<Type>, s: Bindings): seq<Type>
  {
    if ts == [] then [] else [Instantiate(ts[0], s)] + InstantiateAll(ts[1..], s)
  }

  function InstantiateVariants(vs: seq<Variant>, s: Bindings): seq<Variant>
  {
    if vs == [] then []
    else [vs[0].(payload := InstantiateAll(vs[0].payload, s))] + InstantiateVariants(vs[1..], s)
  }

  /** Equal all the way down, up to ownership and variadic tails. */
  predicate DeepEq(a: Type, b: Type)
  {
    match (a, b)
    case (Struct(m, _, ps), Struct(n, _, qs)) => m == n && DeepEqAll(ps, qs)
    case (Enum(m, vs, _, _), Enum(n, ws, _, _)) => m == n && DeepEqVariants(vs, ws)
    case (Function(ps, r, _), Function(qs, q, _)) => DeepEqAll(ps, qs) && DeepEq(r, q)
    case (Pointer(p, _), Pointer(q, _)) => DeepEq(p, q)
    case (Array(e, m), Array(f, n)) => DeepEq(e, f) && m == n
    case (Tuple(ps), Tuple(qs)) => DeepEqAll(ps, qs)
    case _ => Eq(a, b)
  }

  predicate DeepEqAll(a: seq<Type>, b: seq<Type>)
  {
    |a| == |b| && (a == [] || (DeepEq(a[0], b[0]) && DeepEqAll(a[1..], b[1..])))
  }

  predicate DeepEqVariants(a: seq<Variant>, b: seq<Variant>)
  {
    |a| == |b| &&
    (a == [] || (a[0].name == b[0].name && DeepEqAll(a[0].payload, b[0].payload) && DeepEqVariants(a[1..], b[1..])))
  }

  lemma {:induction false} DeepEqIsEq(a: Type, b: Type)
    requires DeepEq(a, b)
    ensures Eq(a, b)
  {
    match a
    case Function(ps, r, _) => DeepEqAllIsEq(ps, b.params); DeepEqIsEq(r, b.result);
    case Pointer(p, _) => DeepEqIsEq(p, b.pointee);
    case Array(e, _) => DeepEqIsEq(e, b.element);
    case Tuple(ps) => DeepEqAllIsEq(ps, b.elements);
    case _ =>
  }

  lemma {:induction false} DeepEqAllIsEq(a: seq<Type>, b: seq<Type>)
    requires DeepEqAll(a, b)
    ensures EqAll(a, b)
  {
    if a != [] {
      DeepEqIsEq(a[0], b[0]);
      DeepEqAllIsEq(a[1..], b[1..]);
    }
  }

  lemma {:induction false} InstanceFits(p: Type, s: Bindings, c: Type)
    requires DeepEq(Instantiate(p, s), c) && Params(p) !! Params(c)
    ensures Fits(p, s, c)
    decreases p
  {
    match p
    case TypeParam(name) =>
      DeepEqIsEq(Instantiate(p, s), c);
      ContainsParamIff(c, name);
      assert name in Params(p);
    case Pointer(q, _) => InstanceFits(q, s, c.pointee);
    case Array(q, _) => InstanceFits(q, s, c.element);
    case Function(ps, r, _) => InstancesFit(ps, s, c.params); InstanceFits(r, s, c.result);
    case Tuple(ps) => InstancesFit(ps, s, c.elements);
    case Struct(_, _, ps) => InstancesFit(ps, s, c.fields);
    case Enum(_, ps, _, _) => VariantInstancesFit(ps, s, c.variants);
    case _ =>
  }

  lemma {:induction false} InstancesFit(ps: seq<Type>, s: Bindings, cs: seq<Type>)
    requires DeepEqAll(InstantiateAll(ps, s), cs) && ParamsAll(ps) !! ParamsAll(cs)
    ensures FitsAll(ps, s, cs)
    decreases ps
  {
    if ps != [] {
      InstanceFits(ps[0], s, cs[0]);
      InstancesFit(ps[1..], s, cs[1..]);
    }
  }

  lemma {:induction false} VariantInstancesFit(ps: seq<Variant>, s: Bindings, cs: seq<Variant>)
    requires DeepEqVariants(InstantiateVariants(ps, s), cs) && ParamsVariants(ps) !! ParamsVariants(cs)
    ensures FitsVariants(ps, s, cs)
    decreases ps
  {
    if ps != [] {
      InstancesFit(ps[0].payload, s, cs[0].payload);
      VariantInstancesFit(ps[1..], s, cs[1..]);
    }
  }

  /** Completeness: if some assignment extending the bindings instantiates the pattern to the concrete type,
      unification succeeds with bindings that agree with it on every parameter. */
  lemma UnifyComplete(p: Type, c: Type, b: Bindings, s: Bindings)
    requires Params(p) !! Params(c) && Agrees(b, s) && DeepEq(Instantiate(p, s), c)
    ensures var (ok, b') := Unify(p, c, b);
            ok && Agrees(b', s) && forall n | n in Params(p) :: n in b' && Eq(b'[n], s[n])
  {
    InstanceFits(p, s, c);
    UnifyGeneral(p, c, b, s);
    UnifySolves(p, c, b);
  }

  // ---------- Where substitution stops short ----------

  ghost predicate Closed(b: Bindings)
  {
    forall n | n in b :: Params(b[n]) == {}
  }

  /** A bound parameter occurs outside every struct and enum. */
  predicate Visible(t: Type, b: Bindings)
  {
    match t
    case TypeParam(name) => name in b
    case Pointer(p, _) => Visible(p, b)
    case Array(e, _) => Visible(e, b)
    case Function(ps, r, _) => AnyVisible(ps, b) || Visible(r, b)
    case Tuple(es) => AnyVisible(es, b)
    case _ => false
  }

  predicate AnyVisible(ts: seq<Type>, b: Bindings)
  {
    ts != [] && (Visible(ts[0], b) || AnyVisible(ts[1..], b))
  }

  predicate AnyVisibleVariant(vs: seq<Variant>, b: Bindings)
  {
    vs != [] && (AnyVisible(vs[0].payload, b) || AnyVisibleVariant(vs[1..], b))
  }

  /** Every struct and enum that mentions a bound parameter also has a visible one, so that it is rebuilt. */
  predicate Reached(t: Type, b: Bindings)
  {
    match t
    case Pointer(p, _) => Reached(p, b)
    case Array(e, _) => Reached(e, b)
    case Function(ps, r, _) => ReachedAll(ps, b) && Reached(r, b)
    case Tuple(es) => ReachedAll(es, b)
    case Struct(_, _, fields) =>
      if AnyVisible(fields, b) then ReachedAll(fields, b) else ParamsAll(fields) !! b.Keys
    case Enum(_, variants, _, _) =>
      if AnyVisibleVariant(variants, b) then ReachedVariants(variants, b) else ParamsVariants(variants) !! b.Keys
    case _ => true
  }

  predicate ReachedAll(ts: seq<Type>, b: Bindings)
  {
    ts == [] || (Reached(ts[0], b) && ReachedAll(ts[1..], b))
  }

  predicate ReachedVariants(vs: seq<Variant>, b: Bindings)
  {
    vs == [] || (ReachedAll(vs[0].payload, b) && ReachedVariants(vs[1..], b))
  }

  // The equality test in `Substitute` sees exactly the visible parameters.

  lemma {:induction false} EqSameParams(a: Type, b: Type)
    requires Eq(a, b) && a.TypeParam?
    ensures Params(a) == Params(b) != {}
  {
    assert a.name in Params(a);
  }

  lemma {:induction false} VisibleIff(t: Type, b: Bindings)
    requires Closed(b)
    ensures Visible(t, b) <==> !Eq(Substitute(t, b), t)
  {
    match t
    case TypeParam(name) =>
      EqReflexive(t);
      if name in b && Eq(b[name], t) {
        EqSymmetric(b[name], t);
        EqSameParams(t, b[name]);
      }
    case Pointer(p, _) => VisibleIff(p, b);
    case Array(e, _) => VisibleIff(e, b);
    case Function(ps, r, _) => AnyVisibleIff(ps, b); VisibleIff(r, b);
    case Tuple(es) => AnyVisibleIff(es, b);
    case _ => EqReflexive(t);
  }

  lemma {:induction false} AnyVisibleIff(ts: seq<Type>, b: Bindings)
    requires Closed(b)
    ensures AnyVisible(ts, b) <==> !EqAll(SubstituteAll(ts, b), ts)
  {
    if ts != [] {
      VisibleIff(ts[0], b);
      AnyVisibleIff(ts[1..], b);
    }
  }

  lemma {:induction false} AnyVisibleVariantIff(vs: seq<Variant>, b: Bindings)
    requires Closed(b)
    ensures AnyVisibleVariant(vs, b) <==> !SameVariants(SubstituteVariants(vs, b), vs)
  {
    if vs != [] {
      AnyVisibleIff(vs[0].payload, b);
      AnyVisibleVariantIff(vs[1..], b);
    }
  }

  // Deeply equal types mention the same parameters.

  lemma {:induction false} DeepEqParams(a: Type, b: Type)
    requires DeepEq(a, b)
    ensures Params(a) == Params(b)
  {
    match a
    case Function(ps, r, _) => DeepEqAllParams(ps, b.params); DeepEqParams(r, b.result);
    case Pointer(p, _) => DeepEqParams(p, b.pointee);
    case Array(e, _) => DeepEqParams(e, b.element);
    case Tuple(ps) => DeepEqAllParams(ps, b.elements);
    case Struct(_, _, ps) => DeepEqAllParams(ps, b.fields);
    case Enum(_, vs, _, _) => DeepEqVariantsParams(vs, b.variants);
    case _ =>
  }

  lemma {:induction false} DeepEqAllParams(a: seq<Type>, b: seq<Type>)
    requires DeepEqAll(a, b)
    ensures ParamsAll(a) == ParamsAll(b)
  {
    if a != [] {
      DeepEqParams(a[0], b[0]);
      DeepEqAllParams(a[1..], b[1..]);
    }
  }

  lemma {:induction false} DeepEqVariantsParams(a: seq<Variant>, b: seq<Variant>)
    requires DeepEqVariants(a, b)
    ensures ParamsVariants(a) == ParamsVariants(b)
  {
    if a != [] {
      DeepEqAllParams(a[0].payload, b[0].payload);
      DeepEqVariantsParams(a[1..], b[1..]);
    }
  }

  // Deep instantiation leaves no bound parameter, and changes nothing where there is none.

  lemma {:induction false} InstantiateParams(t: Type, b: Bindings)
    requires Closed(b)
    ensures Params(Instantiate(t, b)) !! b.Keys
    ensures Params(t) !! b.Keys ==> DeepEq(t, Instantiate(t, b))
  {
    match t
    case TypeParam(name) => assert name in Params(t);
    case Function(ps, r, _) => InstantiateAllParams(ps, b); InstantiateParams(r, b);
    case Pointer(p, _) => InstantiateParams(p, b);
    case Array(e, _) => InstantiateParams(e, b);
    case Tuple(ps) => InstantiateAllParams(ps, b);
    case Struct(_, _, ps) => InstantiateAllParams(ps, b);
    case Enum(_, vs, _, _) => InstantiateVariantsParams(vs, b);
    case _ =>
  }

  lemma {:induction false} InstantiateAllParams(ts: seq<Type>, b: Bindings)
    requires Closed(b)
    ensures ParamsAll(InstantiateAll(ts, b)) !! b.Keys
    ensures ParamsAll(ts) !! b.Keys ==> DeepEqAll(ts, InstantiateAll(ts, b))
  {
    if ts != [] {
      InstantiateParams(ts[0], b);
      InstantiateAllParams(ts[1..], b);
    }
  }

  lemma {:induction false} InstantiateVariantsParams(vs: seq<Variant>, b: Bindings)
    requires Closed(b)
    ensures ParamsVariants(InstantiateVariants(vs, b)) !! b.Keys
    ensures ParamsVariants(vs) !! b.Keys ==> DeepEqVariants(vs, InstantiateVariants(vs, b))
  {
    if vs != [] {
      InstantiateAllParams(vs[0].payload, b);
      InstantiateVariantsParams(vs[1..], b);
    }
  }

  lemma {:induction false} DeepEqReflexive(t: Type)
    ensures DeepEq(t, t)
  {
    match t
    case Function(ps, r, _) => DeepEqAllReflexive(ps); DeepEqReflexive(r);
    case Pointer(p, _) => DeepEqReflexive(p);
    case Array(e, _) => DeepEqReflexive(e);
    case Tuple(ps) => DeepEqAllReflexive(ps);
    case Struct(_, _, ps) => DeepEqAllReflexive(ps);
    case Enum(_, vs, _, _) => DeepEqVariantsReflexive(vs);
    case _ => EqReflexive(t);
  }

  lemma {:induction false} DeepEqAllReflexive(ts: seq<Type>)
    ensures DeepEqAll(ts, ts)
  {
    if ts != [] {
      DeepEqReflexive(ts[0]);
      DeepEqAllReflexive(ts[1..]);
    }
  }

  lemma {:induction false} DeepEqVariantsReflexive(vs: seq<Variant>)
    ensures DeepEqVariants(vs, vs)
  {
    if vs != [] {
      DeepEqAllReflexive(vs[0].payload);
      DeepEqVariantsReflexive(vs[1..]);
    }
  }

  /** Substitution replaces every bound parameter if and only if each struct and enum that mentions one
      has one in plain sight. */
  lemma {:induction false} SubstituteDeepIff(t: Type, b: Bindings)
    requires Closed(b)
    ensures DeepEq(Substitute(t, b), Instantiate(t, b)) <==> Reached(t, b)
  {
    match t
    case TypeParam(_) => DeepEqReflexive(Substitute(t, b));
    case Pointer(p, _) => SubstituteDeepIff(p, b);
    case Array(e, _) => SubstituteDeepIff(e, b);
    case Function(ps, r, _) => SubstituteAllDeepIff(ps, b); SubstituteDeepIff(r, b);
    case Tuple(ps) => SubstituteAllDeepIff(ps, b);
    case Struct(_, _, ps) => SubstituteAllDeepIff(ps, b); StructDeepIff(t, b);
    case Enum(_, vs, _, _) => SubstituteVariantsDeepIff(vs, b); EnumDeepIff(t, b);
    case _ => EqReflexive(t);
  }

  lemma StructDeepIff(t: Type, b: Bindings)
    requires Closed(b) && t.Struct?
    requires DeepEqAll(SubstituteAll(t.fields, b), InstantiateAll(t.fields, b)) <==> ReachedAll(t.fields, b)
    ensures DeepEq(Substitute(t, b), Instantiate(t, b)) <==> Reached(t, b)
  {
    AnyVisibleIff(t.fields, b);
    Untouched(t, b);
  }

  lemma EnumDeepIff(t: Type, b: Bindings)
    requires Closed(b) && t.Enum?
    requires DeepEqVariants(SubstituteVariants(t.variants, b), InstantiateVariants(t.variants, b))
             <==> ReachedVariants(t.variants, b)
    ensures DeepEq(Substitute(t, b), Instantiate(t, b)) <==> Reached(t, b)
  {
    AnyVisibleVariantIff(t.variants, b);
    Untouched(t, b);
  }

  /** Leaving a type as it is, is right exactly when it mentions no bound parameter. */
  lemma Untouched(t: Type, b: Bindings)
    requires Closed(b)
    ensures DeepEq(t, Instantiate(t, b)) <==> Params(t) !! b.Keys
  {
    InstantiateParams(t, b);
    if DeepEq(t, Instantiate(t, b)) {
      DeepEqParams(t, Instantiate(t, b));
    }
  }

  lemma {:induction false} SubstituteAllDeepIff(ts: seq<Type>, b: Bindings)
    requires Closed(b)
    ensures DeepEqAll(SubstituteAll(ts, b), InstantiateAll(ts, b)) <==> ReachedAll(ts, b)
  {
    if ts != [] {
      SubstituteDeepIff(ts[0], b);
      SubstituteAllDeepIff(ts[1..], b);
    }
  }

  lemma {:induction false} SubstituteVariantsDeepIff(vs: seq<Variant>, b: Bindings)
    requires Closed(b)
    ensures DeepEqVariants(SubstituteVariants(vs, b), InstantiateVariants(vs, b)) <==> ReachedVariants(vs, b)
  {
    if vs != [] {
      SubstituteAllDeepIff(vs[0].payload, b);
      SubstituteVariantsDeepIff(vs[1..], b);
    }
  }

  /** `struct Outer<T> { inner: Inner<T> }` keeps its `T`: nothing in `Outer` itself seems to change. */
  lemma NestedGenericIsMissed()
    ensures var inner := Struct("Inner<T>", ["x"], [TypeParam("T")]);
            var outer := Struct("Outer<T>", ["inner"], [inner]);
            var b := map["T" := Basic(I32)];
            Substitute(outer, b) == outer && "T" in Params(Substitute(outer, b)) && !Reached(outer, b)
  {
    var t := TypeParam("T");
    var inner := Struct("Inner<T>", ["x"], [t]);
    var outer := Struct("Outer<T>", ["inner"], [inner]);
    var b := map["T" := Basic(I32)];
    assert [t][1..] == [] && [inner][1..] == [];
    assert SubstituteAll([t], b) == [Substitute(t, b)] + SubstituteAll([], b) == [Basic(I32)];
    assert !Eq(Basic(I32), t) && !EqAll([Basic(I32)], [t]);
    assert Substitute(inner, b) == Struct("Inner<T>", ["x"], [Basic(I32)]);
    assert SubstituteAll([inner], b) == [Substitute(inner, b)] + SubstituteAll([], b) == [Substitute(inner, b)];
    assert [Substitute(inner, b)][1..] == [] && Eq(Substitute(inner, b), inner);
    assert EqAll([Substitute(inner, b)], [inner]);
    assert ParamsAll([t]) == Params(t) + ParamsAll([]) == {"T"};
    assert ParamsAll([inner]) == Params(inner) + ParamsAll([]) == {"T"};
    assert !AnyVisible([inner], b);
    assert "T" in ParamsAll([inner]) && "T" in b.Keys;
  }
}
