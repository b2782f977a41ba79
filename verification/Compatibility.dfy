/** Which type a value of another type may flow into. */
module Compatibility {
  import opened Types

  // ---------- The lattice of numeric literals ----------

  /** Every sized number type refines the type of unsuffixed literals of its sort. */
  const LATTICE: map<Prim, Prim> :=
    map[I32 := Integer, I64 := Integer, U32 := Integer, U64 := Integer, F32 := Flt, F64 := Flt]

  function Ancestors(t: Type): seq<Type>
  {
    if t.Basic? && t.kind in LATTICE then [t, Basic(LATTICE[t.kind])] else [t]
  }

  class TypeMapOrdering {
    var typeMap: map<Prim, Prim>

    constructor ()
      ensures typeMap == map[]
    {
      typeMap := map[];
    }

    method Populate()
      requires typeMap == map[]
      modifies this
      ensures typeMap == LATTICE
    {
      typeMap := typeMap[I32 := Integer];
      typeMap := typeMap[I64 := Integer];
      typeMap := typeMap[U32 := Integer];
      typeMap := typeMap[U64 := Integer];
      typeMap := typeMap[F32 := Flt];
      typeMap := typeMap[F64 := Flt];
    }

    /** Follow the parents of a type; over the populated map no type is met twice. */
    method VisitAncestor(t: Type) returns (result: seq<Type>)
      requires typeMap == LATTICE
      ensures result == Ancestors(t)
    {
      result := [t];
      var visited := {t};
      while result[|result| - 1].Basic? && result[|result| - 1].kind in typeMap
        invariant result == [t] || (|result| == 2 && result == Ancestors(t))
        invariant forall x :: x in visited <==> x in result
        decreases 2 - |result|
      {
        var next := Basic(typeMap[result[|result| - 1].kind]);
        assert next !in visited;
        visited := visited + {next};
        result := result + [next];
      }
    }
  }

  // ---------- Compatibility ----------

  /** Pointers must agree on who owns the memory. */
  predicate QualifierCompatible(to: Type, from: Type)
  {
    to.Pointer? && from.Pointer? ==> to.linear == from.linear
  }

  predicate StructurallyCompatible(to: Type, from: Type)
    decreases to, 0
  {
    if from == Basic(Never) then true
    else if to == Basic(NonExistent) && from != Basic(NonExistent) then true
    else if from == Basic(Integer) || from == Basic(Flt) then
      exists i | 0 <= i < |Ancestors(to)| :: Eq(Ancestors(to)[i], from)
    else if from.Enum? && from.integerBacked && to == Basic(from.backing) then true
    else if to.Array? && from.Array? then to.size == from.size && Compatible(to.element, from.element)
    else if to.Tuple? && from.Tuple? then CompatibleAll(to.elements, from.elements)
    else Eq(to, from)
  }

  predicate Compatible(to: Type, from: Type)
    decreases to, 1
  {
    QualifierCompatible(to, from) && StructurallyCompatible(to, from)
  }

  predicate CompatibleAll(to: seq<Type>, from: seq<Type>)
    decreases to, 0
  {
    |to| == |from| && (to == [] || (Compatible(to[0], from[0]) && CompatibleAll(to[1..], from[1..])))
  }

  // ---------- Declarations ----------

  datatype Backing = Payloads | Backed(kind: Prim)

  function BackingOf(t: Type): Backing
    requires t.Enum?
  {
    if t.integerBacked then Backed(t.backing) else Payloads
  }

  /** Every enum in sight is the one its name declares, and is backed by a sized integer if by anything. */
  predicate Declared(t: Type, decls: map<string, Backing>)
  {
    match t
    case Enum(name, _, backed, backing) =>
      && name in decls && decls[name] == BackingOf(t)
      && (backed ==> backing in {I32, I64, U32, U64})
    case Array(e, _) => Declared(e, decls)
    case Tuple(es) => DeclaredAll(es, decls)
    case _ => true
  }

  predicate DeclaredAll(ts: seq<Type>, decls: map<string, Backing>)
  {
    ts == [] || (Declared(ts[0], decls) && DeclaredAll(ts[1..], decls))
  }

  // ---------- A partial order ----------

  lemma NeverIsBottom(t: Type)
    ensures Compatible(t, Basic(Never))
  {
  }

  lemma NonExistentIsTop(t: Type)
    ensures Compatible(Basic(NonExistent), t)
  {
  }

  /** The only types a literal type reaches, and the only way out of a sized number. */
  lemma LiteralReach(to: Type, from: Type)
    requires from == Basic(Integer) || from == Basic(Flt)
    ensures Compatible(to, from) <==>
              || to == Basic(NonExistent) || to == from
              || (to.Basic? && to.kind in if from == Basic(Integer) then {I32, I64, U32, U64} else {F32, F64})
  {
    var chain := Ancestors(to);
    if to == from || (to.Basic? && to.kind in LATTICE && Basic(LATTICE[to.kind]) == from) {
      assert Eq(chain[|chain| - 1], from);
    }
  }

  lemma {:induction false} CompatibleReflexive(t: Type)
    ensures Compatible(t, t)
  {
    match t
    case Basic(_) =>
      assert Eq(t, t) && Ancestors(t)[0] == t;
    case Array(e, _) => CompatibleReflexive(e);
    case Tuple(es) => CompatibleAllReflexive(es);
    case _ => EqReflexive(t);
  }

  lemma {:induction false} CompatibleAllReflexive(ts: seq<Type>)
    ensures CompatibleAll(ts, ts)
  {
    if ts != [] {
      CompatibleReflexive(ts[0]);
      CompatibleAllReflexive(ts[1..]);
    }
  }

  lemma {:induction false} CompatibleAntisymmetric(a: Type, b: Type, decls: map<string, Backing>)
    requires Declared(a, decls) && Declared(b, decls) && Compatible(a, b) && Compatible(b, a)
    ensures Eq(a, b)
    decreases a
  {
    if a.Array? && b.Array? {
      CompatibleAntisymmetric(a.element, b.element, decls);
    } else if a.Tuple? && b.Tuple? {
      CompatibleAllAntisymmetric(a.elements, b.elements, decls);
    } else {
      OtherAntisymmetric(a, b, decls);
    }
  }

  lemma OtherAntisymmetric(a: Type, b: Type, decls: map<string, Backing>)
    requires !(a.Array? && b.Array?) && !(a.Tuple? && b.Tuple?)
    requires Declared(a, decls) && Declared(b, decls) && Compatible(a, b) && Compatible(b, a)
    ensures Eq(a, b)
  {
    if b == Basic(Integer) || b == Basic(Flt) {
      LiteralReach(a, b);
    } else if a == Basic(Integer) || a == Basic(Flt) {
      LiteralReach(b, a);
    } else if Eq(b, a) {
      EqSymmetric(b, a);
    }
  }

  lemma {:induction false} CompatibleAllAntisymmetric(a: seq<Type>, b: seq<Type>, decls: map<string, Backing>)
    requires DeclaredAll(a, decls) && DeclaredAll(b, decls) && CompatibleAll(a, b) && CompatibleAll(b, a)
    ensures EqAll(a, b)
    decreases a
  {
    if a != [] {
      CompatibleAntisymmetric(a[0], b[0], decls);
      CompatibleAllAntisymmetric(a[1..], b[1..], decls);
    }
  }

  // ---------- Who flows where ----------

  /** An owner meets an owner, and a pointer that owns nothing one that owns nothing, also inside arrays and
      tuples. */
  predicate OwnersAgree(to: Type, from: Type)
  {
    match (to, from)
    case (Pointer(_, l), Pointer(_, m)) => l == m
    case (Array(e, _), Array(f, _)) => OwnersAgree(e, f)
    case (Tuple(ps), Tuple(qs)) => OwnersAgreeAll(ps, qs)
    case _ => true
  }

  predicate OwnersAgreeAll(to: seq<Type>, from: seq<Type>)
  {
    to == [] || from == [] || (OwnersAgree(to[0], from[0]) && OwnersAgreeAll(to[1..], from[1..]))
  }

  lemma {:induction false} OwnersFlowToOwners(a: Type, b: Type)
    requires Compatible(a, b)
    ensures OwnersAgree(a, b)
    decreases a
  {
    match (a, b)
    case (Array(e, _), Array(f, _)) => OwnersFlowToOwners(e, f);
    case (Tuple(ps), Tuple(qs)) => AllOwnersFlowToOwners(ps, qs);
    case _ =>
  }

  lemma {:induction false} AllOwnersFlowToOwners(a: seq<Type>, b: seq<Type>)
    requires CompatibleAll(a, b)
    ensures OwnersAgreeAll(a, b)
    decreases a
  {
    if a != [] {
      OwnersFlowToOwners(a[0], b[0]);
      AllOwnersFlowToOwners(a[1..], b[1..]);
    }
  }

  /** Neither a type that adapts nor an array or a tuple of such: no literal's, `Never`, `NonExistent` or enum backed
      by integers. */
  predicate Rigid(t: Type)
  {
    match t
    case Basic(k) => k !in {Never, NonExistent, Integer, Flt}
    case Enum(_, _, backed, _) => !backed
    case Array(e, _) => Rigid(e)
    case Tuple(es) => RigidAll(es)
    case _ => true
  }

  predicate RigidAll(ts: seq<Type>)
  {
    ts == [] || (Rigid(ts[0]) && RigidAll(ts[1..]))
  }

  /** Rigid types flow into each other exactly if they are equal and owned alike. */
  lemma {:induction false} RigidFlowIff(a: Type, b: Type)
    requires Rigid(a) && Rigid(b)
    ensures Compatible(a, b) <==> Eq(a, b) && OwnersAgree(a, b)
    decreases a
  {
    match (a, b)
    case (Array(e, _), Array(f, _)) => RigidFlowIff(e, f);
    case (Tuple(ps), Tuple(qs)) => RigidAllFlowIff(ps, qs);
    case _ =>
  }

  lemma {:induction false} RigidAllFlowIff(a: seq<Type>, b: seq<Type>)
    requires RigidAll(a) && RigidAll(b)
    ensures CompatibleAll(a, b) <==> EqAll(a, b) && OwnersAgreeAll(a, b)
    decreases a
  {
    if a != [] && b != [] {
      RigidFlowIff(a[0], b[0]);
      RigidAllFlowIff(a[1..], b[1..]);
    }
  }

  /** Pointers flow exactly if what they point to is equal and both own it or neither does. */
  lemma PointersFlowIff(p: Type, l: bool, q: Type, m: bool)
    ensures Compatible(Pointer(p, l), Pointer(q, m)) <==> l == m && Eq(p, q)
  {
  }

  /** What flows into a type without parts. */
  lemma IntoBasicIff(k: Prim, from: Type)
    ensures Compatible(Basic(k), from) <==>
              || k == NonExistent || from == Basic(Never) || from == Basic(k)
              || (from == Basic(Integer) && k in {I32, I64, U32, U64}) || (from == Basic(Flt) && k in {F32, F64})
              || (from.Enum? && from.integerBacked && from.backing == k)
  {
    if from == Basic(Integer) || from == Basic(Flt) {
      LiteralReach(Basic(k), from);
    }
  }

  /** Where an enum flows. */
  lemma EnumReach(to: Type, from: Type)
    requires from.Enum?
    ensures Compatible(to, from) <==>
              || to == Basic(NonExistent) || (to.Enum? && to.name == from.name)
              || (from.integerBacked && to == Basic(from.backing))
  {
  }

  // ---------- Transitivity ----------

  /** How a type that is neither `Never` nor a literal's may flow into one that is not `NonExistent`. */
  lemma FlowCases(to: Type, from: Type)
    requires from != Basic(Never) && from != Basic(Integer) && from != Basic(Flt) && to != Basic(NonExistent)
    ensures Compatible(to, from) <==>
              || (from.Enum? && from.integerBacked && to == Basic(from.backing))
              || (to.Array? && from.Array? && to.size == from.size && Compatible(to.element, from.element))
              || (to.Tuple? && from.Tuple? && CompatibleAll(to.elements, from.elements))
              || (Eq(to, from) && QualifierCompatible(to, from) && !to.Array? && !to.Tuple?)
  {
  }

  lemma BasicFlows(b: Type, c: Type)
    requires b == Basic(Never) || b == Basic(NonExistent) || b == Basic(Integer) || b == Basic(Flt)
    requires Compatible(b, c) && c != Basic(Never)
    requires c.Enum? && c.integerBacked ==> c.backing in {I32, I64, U32, U64}
    ensures b == c || b == Basic(NonExistent)
  {
    if c == Basic(Integer) || c == Basic(Flt) {
      LiteralReach(b, c);
    }
  }

  /** Transitivity where a literal, `Never` or `NonExistent` is involved. */
  lemma EndsTransitive(a: Type, b: Type, c: Type, decls: map<string, Backing>)
    requires Declared(b, decls) && Declared(c, decls) && Compatible(a, b) && Compatible(b, c)
    requires a == Basic(NonExistent) || c == Basic(Never) || c == Basic(Integer) || c == Basic(Flt)
          || b == Basic(Never) || b == Basic(NonExistent) || b == Basic(Integer) || b == Basic(Flt)
    ensures Compatible(a, c)
  {
    if c == Basic(Never) || a == Basic(NonExistent) {
      NeverIsBottom(a);
      NonExistentIsTop(c);
    } else if c == Basic(Integer) || c == Basic(Flt) {
      LiteralReach(b, c);
      LiteralReach(a, c);
      if b == c {
        LiteralReach(a, b);
      }
    } else {
      BasicFlows(b, c);
    }
  }

  /** Transitivity where no part has to be compared in turn. */
  lemma FlatTransitive(a: Type, b: Type, c: Type, decls: map<string, Backing>)
    requires Declared(b, decls) && Declared(c, decls) && Compatible(a, b) && Compatible(b, c)
    requires a != Basic(NonExistent) && c != Basic(Never) && c != Basic(Integer) && c != Basic(Flt)
    requires b != Basic(Never) && b != Basic(NonExistent) && b != Basic(Integer) && b != Basic(Flt)
    requires !b.Array? && !b.Tuple?
    ensures Compatible(a, c)
  {
    FlowCases(a, b);
    FlowCases(b, c);
    FlowCases(a, c);
    if Eq(a, b) && Eq(b, c) {
      EqTransitive(a, b, c);
    }
  }

  lemma {:induction false} CompatibleTransitive(a: Type, b: Type, c: Type, decls: map<string, Backing>)
    requires Declared(b, decls) && Declared(c, decls) && Compatible(a, b) && Compatible(b, c)
    ensures Compatible(a, c)
    decreases a
  {
    if a == Basic(NonExistent) || c == Basic(Never) || c == Basic(Integer) || c == Basic(Flt)
       || b == Basic(Never) || b == Basic(NonExistent) || b == Basic(Integer) || b == Basic(Flt) {
      EndsTransitive(a, b, c, decls);
    } else if b.Array? {
      CompatibleTransitive(a.element, b.element, c.element, decls);
    } else if b.Tuple? {
      CompatibleAllTransitive(a.elements, b.elements, c.elements, decls);
    } else {
      FlatTransitive(a, b, c, decls);
    }
  }

  lemma {:induction false} CompatibleAllTransitive(a: seq<Type>, b: seq<Type>, c: seq<Type>, decls: map<string, Backing>)
    requires DeclaredAll(b, decls) && DeclaredAll(c, decls) && CompatibleAll(a, b) && CompatibleAll(b, c)
    ensures CompatibleAll(a, c)
    decreases a
  {
    if a != [] {
      CompatibleTransitive(a[0], b[0], c[0], decls);
      CompatibleAllTransitive(a[1..], b[1..], c[1..], decls);
    }
  }

  /** Two enums of the same name with different declarations break transitivity. */
  lemma NameClashBreaksTransitivity()
    ensures var backed := Enum("E", [], true, I32);
            var plain := Enum("E", [], false, I32);
            && Compatible(Basic(I32), backed) && Compatible(backed, plain) && !Compatible(Basic(I32), plain)
  {
  }
}
