/** The compiler's representation of types and the equality it decides with. */
module Types {
  import opened Wrappers

  /** Types without parts; the last five exist only while checking. */
  datatype Prim = I32 | I64 | U32 | U64 | F64 | F32 | Unit | Bool | Char
                | Never | NonExistent | Integer | Flt | Generic

  datatype Type =
    | Basic(kind: Prim)
    | Str(text: string)
    | Poisoned(origin: string)
    | Function(params: seq<Type>, result: Type, varArg: bool)
    | Pointer(pointee: Type, linear: bool)
    | Array(element: Type, size: nat)
    | Struct(name: string, fieldNames: seq<string>, fields: seq<Type>)
    | Enum(name: string, variants: seq<Variant>, integerBacked: bool, backing: Prim)
    | Tuple(elements: seq<Type>)
    | TypeParam(name: string)

  datatype Variant = Variant(name: string, payload: seq<Type>, discriminant: Option<int>)

  /** Equality of types: nominal for structs and enums, and blind to ownership and variadic tails. */
  predicate Eq(a: Type, b: Type)
  {
    match (a, b)
    case (Basic(k), Basic(l)) => k == l
    case (Str(_), Str(_)) => true
    case (Poisoned(_), Poisoned(_)) => true
    case (Function(ps, r, _), Function(qs, q, _)) => EqAll(ps, qs) && Eq(r, q)
    case (Pointer(p, _), Pointer(q, _)) => Eq(p, q)
    case (Array(e, m), Array(f, n)) => Eq(e, f) && m == n
    case (Struct(m, _, _), Struct(n, _, _)) => m == n
    case (Enum(m, _, _, _), Enum(n, _, _, _)) => m == n
    case (Tuple(ps), Tuple(qs)) => EqAll(ps, qs)
    case (TypeParam(m), TypeParam(n)) => m == n
    case _ => false
  }

  predicate EqAll(a: seq<Type>, b: seq<Type>)
  {
    |a| == |b| && (a == [] || (Eq(a[0], b[0]) && EqAll(a[1..], b[1..])))
  }

  lemma {:induction false} EqReflexive(a: Type)
    ensures Eq(a, a)
  {
    match a
    case Function(ps, r, _) => EqAllReflexive(ps); EqReflexive(r);
    case Pointer(p, _) => EqReflexive(p);
    case Array(e, _) => EqReflexive(e);
    case Tuple(ps) => EqAllReflexive(ps);
    case _ =>
  }

  lemma {:induction false} EqAllReflexive(a: seq<Type>)
    ensures EqAll(a, a)
  {
    if a != [] {
      EqReflexive(a[0]);
      EqAllReflexive(a[1..]);
    }
  }

  lemma {:induction false} EqSymmetric(a: Type, b: Type)
    requires Eq(a, b)
    ensures Eq(b, a)
  {
    match a
    case Function(ps, r, _) => EqAllSymmetric(ps, b.params); EqSymmetric(r, b.result);
    case Pointer(p, _) => EqSymmetric(p, b.pointee);
    case Array(e, _) => EqSymmetric(e, b.element);
    case Tuple(ps) => EqAllSymmetric(ps, b.elements);
    case _ =>
  }

  lemma {:induction false} EqAllSymmetric(a: seq<Type>, b: seq<Type>)
    requires EqAll(a, b)
    ensures EqAll(b, a)
  {
    if a != [] {
      EqSymmetric(a[0], b[0]);
      EqAllSymmetric(a[1..], b[1..]);
    }
  }

  lemma {:induction false} EqTransitive(a: Type, b: Type, c: Type)
    requires Eq(a, b) && Eq(b, c)
    ensures Eq(a, c)
  {
    match a
    case Function(ps, r, _) => EqAllTransitive(ps, b.params, c.params); EqTransitive(r, b.result, c.result);
    case Pointer(p, _) => EqTransitive(p, b.pointee, c.pointee);
    case Array(e, _) => EqTransitive(e, b.element, c.element);
    case Tuple(ps) => EqAllTransitive(ps, b.elements, c.elements);
    case _ =>
  }

  lemma {:induction false} EqAllTransitive(a: seq<Type>, b: seq<Type>, c: seq<Type>)
    requires EqAll(a, b) && EqAll(b, c)
    ensures EqAll(a, c)
  {
    if a != [] {
      EqTransitive(a[0], b[0], c[0]);
      EqAllTransitive(a[1..], b[1..], c[1..]);
    }
  }

  /** What equality looks at: of a struct or an enum the name, of everything else its structure, and nowhere who
      owns what. */
  function Core(t: Type): Type
  {
    match t
    case Basic(_) | TypeParam(_) => t
    case Str(_) => Str("")
    case Poisoned(_) => Poisoned("")
    case Function(ps, r, _) => Function(CoreAll(ps), Core(r), false)
    case Pointer(p, _) => Pointer(Core(p), false)
    case Array(e, n) => Array(Core(e), n)
    case Struct(name, _, _) => Struct(name, [], [])
    case Enum(name, _, _, _) => Enum(name, [], false, I32)
    case Tuple(es) => Tuple(CoreAll(es))
  }

  function CoreAll(ts: seq<Type>): (r: seq<Type>)
    ensures |r| == |ts|
  {
    if ts == [] then [] else [Core(ts[0])] + CoreAll(ts[1..])
  }

  lemma {:induction false} EqIff(a: Type, b: Type)
    ensures Eq(a, b) <==> Core(a) == Core(b)
  {
    match (a, b)
    case (Function(ps, r, _), Function(qs, q, _)) => EqAllIff(ps, qs); EqIff(r, q);
    case (Pointer(p, _), Pointer(q, _)) => EqIff(p, q);
    case (Array(e, _), Array(f, _)) => EqIff(e, f);
    case (Tuple(ps), Tuple(qs)) => EqAllIff(ps, qs);
    case _ =>
  }

  lemma {:induction false} EqAllIff(a: seq<Type>, b: seq<Type>)
    ensures EqAll(a, b) <==> CoreAll(a) == CoreAll(b)
  {
    if a != [] && b != [] {
      EqIff(a[0], b[0]);
      EqAllIff(a[1..], b[1..]);
      assert CoreAll(a)[0] == Core(a[0]) && CoreAll(a)[1..] == CoreAll(a[1..]);
      assert CoreAll(b)[0] == Core(b[0]) && CoreAll(b)[1..] == CoreAll(b[1..]);
    }
  }

  // ---------- Type parameters ----------

  function Params(t: Type): set<string>
  {
    match t
    case TypeParam(name) => {name}
    case Function(ps, r, _) => ParamsAll(ps) + Params(r)
    case Pointer(p, _) => Params(p)
    case Array(e, _) => Params(e)
    case Struct(_, _, fields) => ParamsAll(fields)
    case Enum(_, variants, _, _) => ParamsVariants(variants)
    case Tuple(es) => ParamsAll(es)
    case _ => {}
  }

  function ParamsAll(ts: seq<Type>): set<string>
  {
    if ts == [] then {} else Params(ts[0]) + ParamsAll(ts[1..])
  }

  function ParamsVariants(vs: seq<Variant>): set<string>
  {
    if vs == [] then {} else ParamsAll(vs[0].payload) + ParamsVariants(vs[1..])
  }

  /** Does the type mention the parameter? */
  predicate ContainsParam(t: Type, name: string)
  {
    match t
    case TypeParam(n) => n == name
    case Function(ps, r, _) => AnyContainsParam(ps, name) || ContainsParam(r, name)
    case Pointer(p, _) => ContainsParam(p, name)
    case Array(e, _) => ContainsParam(e, name)
    case Struct(_, _, fields) => AnyContainsParam(fields, name)
    case Enum(_, variants, _, _) => AnyVariantContainsParam(variants, name)
    case Tuple(es) => AnyContainsParam(es, name)
    case _ => false
  }

  predicate AnyContainsParam(ts: seq<Type>, name: string)
  {
    ts != [] && (ContainsParam(ts[0], name) || AnyContainsParam(ts[1..], name))
  }

  predicate AnyVariantContainsParam(vs: seq<Variant>, name: string)
  {
    vs != [] && (AnyContainsParam(vs[0].payload, name) || AnyVariantContainsParam(vs[1..], name))
  }

  lemma {:induction false} ContainsParamIff(t: Type, name: string)
    ensures ContainsParam(t, name) <==> name in Params(t)
  {
    match t
    case Function(ps, r, _) => AnyContainsParamIff(ps, name); ContainsParamIff(r, name);
    case Pointer(p, _) => ContainsParamIff(p, name);
    case Array(e, _) => ContainsParamIff(e, name);
    case Struct(_, _, fields) => AnyContainsParamIff(fields, name);
    case Enum(_, variants, _, _) => AnyVariantContainsParamIff(variants, name);
    case Tuple(es) => AnyContainsParamIff(es, name);
    case _ =>
  }

  lemma {:induction false} AnyContainsParamIff(ts: seq<Type>, name: string)
    ensures AnyContainsParam(ts, name) <==> name in ParamsAll(ts)
  {
    if ts != [] {
      ContainsParamIff(ts[0], name);
      AnyContainsParamIff(ts[1..], name);
    }
  }

  lemma {:induction false} AnyVariantContainsParamIff(vs: seq<Variant>, name: string)
    ensures AnyVariantContainsParam(vs, name) <==> name in ParamsVariants(vs)
  {
    if vs != [] {
      AnyContainsParamIff(vs[0].payload, name);
      AnyVariantContainsParamIff(vs[1..], name);
    }
  }
}
