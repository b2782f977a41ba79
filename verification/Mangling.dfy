/** Printed types and the symbols of monomorphised functions built from them. */
module Mangling {
  import opened Types
  import Decimal

  // ---------- Printing ----------

  function Show(t: Type): string
  {
    match t
    case Basic(k) => ShowPrim(k)
    case Str(text) => "\"" + text + "\""
    case Poisoned(origin) => "Poisoned(" + origin + ")"
    case Function(ps, r, _) => "(" + ShowAll(ps) + ") -> " + Show(r)
    case Pointer(p, linear) => (if linear then "'" else "") + "ptr<" + Show(p) + ">"
    case Array(e, n) => "[" + Decimal.Show(n) + "]" + Show(e)
    case Struct(name, _, _) => name
    case Enum(name, _, _, _) => name
    case Tuple(es) => "(" + ShowAll(es) + ")"
    case TypeParam(name) => name
  }

  function ShowPrim(k: Prim): string
  {
    match k
    case I32 => "i32"
    case I64 => "i64"
    case U32 => "u32"
    case U64 => "u64"
    case F64 => "f64"
    case F32 => "f32"
    case Unit => "()"
    case Bool => "bool"
    case Char => "char"
    case Never => "!"
    case NonExistent => "??"
    case Integer => "numeric literal"
    case Flt => "float literal"
    case Generic => "generic template"
  }

  function ShowAll(ts: seq<Type>): string
  {
    if ts == [] then "" else Show(ts[0]) + ShowRest(ts[1..])
  }

  function ShowRest(ts: seq<Type>): string
    decreases ts
  {
    if ts == [] then "" else ", " + Show(ts[0]) + ShowRest(ts[1..])
  }

  /** The separator is written before every element but the first. */
  method TypeArgsString(args: seq<Type>) returns (s: string)
    ensures s == ShowAll(args)
  {
    s := "";
    var i := 0;
    while i < |args|
      invariant 0 <= i <= |args|
      invariant i == 0 ==> s == ""
      invariant i > 0 ==> s + ShowRest(args[i..]) == ShowAll(args)
    {
      assert i > 0 ==> s + ShowRest(args[i..]) == s + ", " + Show(args[i]) + ShowRest(args[i + 1..]);
      if i > 0 {
        s := s + ", ";
      }
      s := s + Show(args[i]);
      i := i + 1;
    }
    assert args[i..] == [];
  }

  /** The symbol of a generic function, struct or enum at the given type arguments. */
  function GenericName(base: string, args: seq<Type>): string
  {
    base + "<" + ShowAll(args) + ">"
  }

  /** The symbol of a method of a type class instance. */
  function TypeclassName(class_: string, args: seq<Type>, method_: string): string
  {
    GenericName(class_, args) + "::" + method_
  }

  // ---------- Names ----------

  predicate IsNameChar(c: char)
  {
    'a' <= c <= 'z' || 'A' <= c <= 'Z' || '0' <= c <= '9' || c == '_' || c == '$' || c == ':'
  }

  /** Reading `s` as the rest of a name inside `depth` open brackets reaches its end with all of them
      closed.  The arrow of a function type closes nothing. */
  predicate Closes(s: string, depth: nat)
    decreases |s|
  {
    if s == "" then depth == 0
    else if depth == 0 then
      if s[0] == '<' then Closes(s[1..], 1) else IsNameChar(s[0]) && Closes(s[1..], 0)
    else if s[0] == '<' then Closes(s[1..], depth + 1)
    else if s[0] == '>' then Closes(s[1..], depth - 1)
    else if s[0] == '-' && |s| > 1 && s[1] == '>' then Closes(s[2..], depth)
    else Closes(s[1..], depth)
  }

  /** A name without type arguments: identifiers joined by `::`. */
  predicate Plain(name: string)
  {
    name != "" && !('0' <= name[0] <= '9') && forall i | 0 <= i < |name| :: IsNameChar(name[i])
  }

  const BUILTIN: set<string> := {"i32", "i64", "u32", "u64", "f64", "f32", "bool", "char"}

  /** A name a struct or an enum may have: identifiers, possibly applied to type arguments, and neither a
      built-in type nor the pointer keyword. */
  predicate Nominal(name: string)
  {
    name != "" && IsNameChar(name[0]) && Closes(name, 0) && name !in BUILTIN && !("ptr<" <= name)
  }

  /** A type that can reach code generation; `enums` tells which names are enums. */
  predicate Concrete(t: Type, enums: set<string>)
  {
    match t
    case Basic(k) => k in {I32, I64, U32, U64, F64, F32, Unit, Bool, Char}
    case Function(ps, r, _) => ConcreteAll(ps, enums) && Concrete(r, enums)
    case Pointer(p, _) => Concrete(p, enums)
    case Array(e, _) => Concrete(e, enums)
    case Struct(name, _, _) => Nominal(name) && name !in enums
    case Enum(name, _, _, _) => Nominal(name) && name in enums
    case Tuple(es) => es != [] && ConcreteAll(es, enums)
    case Str(_) | Poisoned(_) | TypeParam(_) => false
  }

  predicate ConcreteAll(ts: seq<Type>, enums: set<string>)
  {
    ts == [] || (Concrete(ts[0], enums) && ConcreteAll(ts[1..], enums))
  }

  /** What may follow a printed type. */
  predicate Stops(r: string)
  {
    r == "" || r[0] in {',', ')', '>'}
  }

  // ---------- Reading names back ----------

  lemma {:induction false} NameUnambiguous(m: string, n: string, r: string, q: string, depth: nat)
    requires Closes(m, depth) && Closes(n, depth) && m + r == n + q && Stops(r) && Stops(q)
    ensures m == n && r == q
    decreases |m|
  {
    assert (m == "" ==> m + r == r) && (n == "" ==> n + q == q);
    assert (m != "" ==> (m + r)[0] == m[0]) && (n != "" ==> (n + q)[0] == n[0]);
    if m == "" && n == "" {
    } else if m == "" || n == "" {
      assert false;
    } else {
      assert m[0] == (m + r)[0] == n[0];
      assert (m + r)[1..] == m[1..] + r && (n + q)[1..] == n[1..] + q;
      if depth > 0 && m[0] == '-' {
        ArrowUnambiguous(m, n, r, q, depth);
      } else if m[0] == '<' {
        NameUnambiguous(m[1..], n[1..], r, q, depth + 1);
      } else if depth > 0 && m[0] == '>' {
        NameUnambiguous(m[1..], n[1..], r, q, depth - 1);
      } else {
        NameUnambiguous(m[1..], n[1..], r, q, depth);
      }
    }
  }

  lemma {:induction false} ArrowUnambiguous(m: string, n: string, r: string, q: string, depth: nat)
    requires Closes(m, depth) && Closes(n, depth) && m + r == n + q && Stops(r) && Stops(q)
    requires m != "" && n != "" && depth > 0 && m[0] == n[0] == '-'
    ensures m == n && r == q
    decreases |m|, 0
  {
    assert |m| > 1 && |n| > 1;
    assert m[1] == (m + r)[1] == n[1];
    if m[1] == '>' {
      assert (m + r)[2..] == m[2..] + r && (n + q)[2..] == n[2..] + q;
      NameUnambiguous(m[2..], n[2..], r, q, depth);
    } else {
      assert (m + r)[1..] == m[1..] + r && (n + q)[1..] == n[1..] + q;
      NameUnambiguous(m[1..], n[1..], r, q, depth);
    }
  }

  // ---------- Reading types back ----------

  /** Equality that also looks at who owns the memory behind each pointer. */
  predicate Same(a: Type, b: Type)
  {
    match (a, b)
    case (Pointer(p, l), Pointer(q, m)) => l == m && Same(p, q)
    case (Function(ps, r, _), Function(qs, q, _)) => SameAll(ps, qs) && Same(r, q)
    case (Array(e, m), Array(f, n)) => m == n && Same(e, f)
    case (Tuple(ps), Tuple(qs)) => SameAll(ps, qs)
    case _ => Eq(a, b)
  }

  predicate SameAll(a: seq<Type>, b: seq<Type>)
  {
    |a| == |b| && (a == [] || (Same(a[0], b[0]) && SameAll(a[1..], b[1..])))
  }

  lemma {:induction false} SameIsEq(a: Type, b: Type)
    requires Same(a, b)
    ensures Eq(a, b)
  {
    match a
    case Function(ps, r, _) => SameAllIsEq(ps, b.params); SameIsEq(r, b.result);
    case Pointer(p, _) => SameIsEq(p, b.pointee);
    case Array(e, _) => SameIsEq(e, b.element);
    case Tuple(ps) => SameAllIsEq(ps, b.elements);
    case _ =>
  }

  lemma {:induction false} SameAllIsEq(a: seq<Type>, b: seq<Type>)
    requires SameAll(a, b)
    ensures EqAll(a, b)
  {
    if a != [] {
      SameIsEq(a[0], b[0]);
      SameAllIsEq(a[1..], b[1..]);
    }
  }

  /** How a printed concrete type begins. */
  lemma ShowBegins(t: Type, enums: set<string>)
    requires Concrete(t, enums)
    ensures var s := Show(t);
            && s != "" && s[0] !in {',', ')', '>', ' '}
            && (s[0] == '(' <==> t == Basic(Unit) || t.Function? || t.Tuple?)
            && (s[0] == '[' <==> t.Array?)
            && (s[0] == '\'' <==> t.Pointer? && t.linear)
  {
  }

  lemma Cancel(p: string, x: string, y: string)
    requires p + x == p + y
    ensures x == y
  {
    assert x == (p + x)[|p|..] == (p + y)[|p|..] == y;
  }

  /** A built-in type or the name of a struct or enum. */
  predicate Word(t: Type)
  {
    (t.Basic? && t.kind != Unit) || t.Struct? || t.Enum?
  }

  lemma BuiltinCloses(k: Prim)
    requires k in {I32, I64, U32, U64, F64, F32, Bool, Char}
    ensures Closes(ShowPrim(k), 0)
  {
    PlainCloses(ShowPrim(k));
  }

  lemma {:induction false} PlainCloses(s: string)
    requires forall i | 0 <= i < |s| :: IsNameChar(s[i])
    ensures Closes(s, 0)
  {
    if s != "" {
      PlainCloses(s[1..]);
    }
  }

  lemma WordsUnambiguous(a: Type, b: Type, r: string, q: string, enums: set<string>)
    requires Concrete(a, enums) && Concrete(b, enums) && Word(a) && Word(b)
    requires Show(a) + r == Show(b) + q && Stops(r) && Stops(q)
    ensures Same(a, b) && r == q
  {
    if a.Basic? {
      BuiltinCloses(a.kind);
    }
    if b.Basic? {
      BuiltinCloses(b.kind);
    }
    NameUnambiguous(Show(a), Show(b), r, q, 0);
  }

  lemma PointerIsNoWord(a: Type, b: Type, r: string, q: string, enums: set<string>)
    requires a.Pointer? && !a.linear && Concrete(b, enums) && Word(b) && Stops(q)
    ensures Show(a) + r != Show(b) + q
  {
    var n := Show(b);
    var s, t := Show(a) + r, n + q;
    assert s[..4] == "ptr<";
    assert forall i | 0 <= i < |n| :: t[i] == n[i];
    assert q != "" ==> t[|n|] == q[0];
    assert |n| >= 4 ==> n[..4] == t[..4];
    assert |n| >= 4 && t[..4] == "ptr<" ==> "ptr<" <= n;
  }

  /** What a type printed in parentheses lists, and what it prints from the closing one on. */
  function Listed(t: Type): seq<Type>
  {
    if t.Function? then t.params else if t.Tuple? then t.elements else []
  }

  function FromClosing(t: Type, r: string): string
  {
    if t.Function? then ") -> " + (Show(t.result) + r) else ")" + r
  }

  lemma ShowListed(t: Type, r: string)
    requires t == Basic(Unit) || t.Function? || t.Tuple?
    ensures Show(t) + r == "(" + (ShowAll(Listed(t)) + FromClosing(t, r))
  {
    if t.Function? {
      Regroup(ShowAll(t.params), ") -> ", Show(t.result), r);
    } else if t.Tuple? {
      Regroup(ShowAll(t.elements), "", ")", r);
    } else {
      assert Show(t) + r == "(" + ("" + (")" + r));
    }
  }

  lemma Regroup(a: string, b: string, c: string, r: string)
    ensures ("(" + a + b + c) + r == "(" + (a + (b + (c + r)))
    ensures b == "" ==> ("(" + a + c) + r == "(" + (a + (c + r))
  {
  }

  /** Printed concrete types can be read back: two of them that begin the same text, and stop, agree. */
  lemma {:induction false} ShowUnambiguous(a: Type, b: Type, r: string, q: string, enums: set<string>)
    requires Concrete(a, enums) && Concrete(b, enums) && Show(a) + r == Show(b) + q && Stops(r) && Stops(q)
    ensures Same(a, b) && r == q
    decreases a
  {
    ShowBegins(a, enums);
    ShowBegins(b, enums);
    assert Show(a)[0] == (Show(a) + r)[0] == Show(b)[0];
    if a.Pointer? && b.Pointer? {
      PointersUnambiguous(a, b, r, q, enums);
    } else if a.Pointer? && !a.linear {
      PointerIsNoWord(a, b, r, q, enums);
    } else if b.Pointer? && !b.linear {
      PointerIsNoWord(b, a, q, r, enums);
    } else if a.Array? {
      ArraysUnambiguous(a, b, r, q, enums);
    } else if Word(a) {
      WordsUnambiguous(a, b, r, q, enums);
    } else {
      ListsUnambiguous(a, b, r, q, enums);
    }
  }

  function PointerPrefix(linear: bool): string
  {
    if linear then "'ptr<" else "ptr<"
  }

  lemma ShowPointer(t: Type, r: string)
    requires t.Pointer?
    ensures Show(t) + r == PointerPrefix(t.linear) + (Show(t.pointee) + (">" + r))
  {
    assert Show(t) == PointerPrefix(t.linear) + Show(t.pointee) + ">";
  }

  lemma {:induction false} PointersUnambiguous(a: Type, b: Type, r: string, q: string, enums: set<string>)
    requires Concrete(a, enums) && Concrete(b, enums) && Show(a) + r == Show(b) + q && Stops(r) && Stops(q)
    requires a.Pointer? && b.Pointer?
    ensures Same(a, b) && r == q
    decreases a, 0
  {
    ShowPointer(a, r);
    ShowPointer(b, q);
    var p := PointerPrefix(a.linear);
    assert p[0] == (Show(a) + r)[0] == PointerPrefix(b.linear)[0];
    Cancel(p, Show(a.pointee) + (">" + r), Show(b.pointee) + (">" + q));
    ShowUnambiguous(a.pointee, b.pointee, ">" + r, ">" + q, enums);
    Cancel(">", r, q);
  }

  lemma ShowArray(t: Type, r: string)
    requires t.Array?
    ensures Show(t) + r == "[" + (Decimal.Show(t.size) + ("]" + (Show(t.element) + r)))
  {
  }

  lemma {:induction false} ArraysUnambiguous(a: Type, b: Type, r: string, q: string, enums: set<string>)
    requires Concrete(a, enums) && Concrete(b, enums) && Show(a) + r == Show(b) + q && Stops(r) && Stops(q)
    requires a.Array? && b.Array?
    ensures Same(a, b) && r == q
    decreases a, 0
  {
    var x, y := "]" + (Show(a.element) + r), "]" + (Show(b.element) + q);
    ShowArray(a, r);
    ShowArray(b, q);
    Cancel("[", Decimal.Show(a.size) + x, Decimal.Show(b.size) + y);
    Decimal.ShowUnambiguous(a.size, b.size, x, y);
    Cancel("]", Show(a.element) + r, Show(b.element) + q);
    ShowUnambiguous(a.element, b.element, r, q, enums);
  }

  lemma {:induction false} ListsUnambiguous(a: Type, b: Type, r: string, q: string, enums: set<string>)
    requires Concrete(a, enums) && Concrete(b, enums) && Show(a) + r == Show(b) + q && Stops(r) && Stops(q)
    requires a == Basic(Unit) || a.Function? || a.Tuple?
    requires b == Basic(Unit) || b.Function? || b.Tuple?
    ensures Same(a, b) && r == q
    decreases a, 0
  {
    ShowListed(a, r);
    ShowListed(b, q);
    var x, y := FromClosing(a, r), FromClosing(b, q);
    Cancel("(", ShowAll(Listed(a)) + x, ShowAll(Listed(b)) + y);
    if Listed(a) == [] {
      EmptyUnambiguous(Listed(b), x, y, enums);
    } else {
      ShowAllUnambiguous(if a.Function? then a.params else a.elements, Listed(b), x, y, enums);
    }
    assert (a.Function? ==> |x| > 1 && x[1] == ' ') && (b.Function? ==> |y| > 1 && y[1] == ' ');
    assert (!a.Function? ==> x[1..] == r) && (!b.Function? ==> y[1..] == q);
    if a.Function? && b.Function? {
      Cancel(") -> ", Show(a.result) + r, Show(b.result) + q);
      ShowUnambiguous(a.result, b.result, r, q, enums);
    }
  }

  lemma ListBegins(ts: seq<Type>, r: string, enums: set<string>)
    requires ts != [] && ConcreteAll(ts, enums)
    ensures var s := ShowAll(ts) + r; s != "" && s[0] !in {')', '>'}
  {
    ShowBegins(ts[0], enums);
    assert (ShowAll(ts) + r)[0] == Show(ts[0])[0];
  }

  lemma EmptyUnambiguous(b: seq<Type>, r: string, q: string, enums: set<string>)
    requires ConcreteAll(b, enums) && ShowAll([]) + r == ShowAll(b) + q && r != "" && r[0] in {')', '>'}
    ensures b == [] && r == q
  {
    assert ShowAll([]) + r == r && (b == [] ==> ShowAll(b) + q == q);
    if b != [] {
      ListBegins(b, q, enums);
    }
  }

  lemma {:induction false} ShowAllUnambiguous(a: seq<Type>, b: seq<Type>, r: string, q: string, enums: set<string>)
    requires ConcreteAll(a, enums) && ConcreteAll(b, enums) && ShowAll(a) + r == ShowAll(b) + q
    requires r != "" && q != "" && r[0] in {')', '>'} && q[0] in {')', '>'}
    ensures SameAll(a, b) && r == q
    decreases a
  {
    assert (a == [] ==> ShowAll(a) + r == r) && (b == [] ==> ShowAll(b) + q == q);
    if a != [] {
      ListBegins(a, r, enums);
    }
    if b != [] {
      ListBegins(b, q, enums);
    }
    if a != [] && b != [] {
      var x, y := ShowRest(a[1..]) + r, ShowRest(b[1..]) + q;
      ShowNext(a, r);
      ShowNext(b, q);
      ShowUnambiguous(a[0], b[0], x, y, enums);
      ShowRestUnambiguous(a[1..], b[1..], r, q, enums);
    }
  }

  lemma ShowNext(ts: seq<Type>, r: string)
    requires ts != []
    ensures ShowRest(ts) + r == ", " + (Show(ts[0]) + (ShowRest(ts[1..]) + r))
    ensures ShowAll(ts) + r == Show(ts[0]) + (ShowRest(ts[1..]) + r)
  {
    Associate(", ", Show(ts[0]), ShowRest(ts[1..]), r);
  }

  lemma Associate(a: string, b: string, c: string, r: string)
    ensures (a + b + c) + r == a + (b + (c + r)) && (b + c) + r == b + (c + r)
  {
  }

  lemma {:induction false} ShowRestUnambiguous(a: seq<Type>, b: seq<Type>, r: string, q: string, enums: set<string>)
    requires ConcreteAll(a, enums) && ConcreteAll(b, enums) && ShowRest(a) + r == ShowRest(b) + q
    requires r != "" && q != "" && r[0] in {')', '>'} && q[0] in {')', '>'}
    ensures SameAll(a, b) && r == q
    decreases a
  {
    assert (a == [] ==> ShowRest(a) + r == r) && (b == [] ==> ShowRest(b) + q == q);
    assert (a != [] ==> (ShowRest(a) + r)[0] == ',') && (b != [] ==> (ShowRest(b) + q)[0] == ',');
    if a != [] && b != [] {
      var x, y := ShowRest(a[1..]) + r, ShowRest(b[1..]) + q;
      ShowNext(a, r);
      ShowNext(b, q);
      Cancel(", ", Show(a[0]) + x, Show(b[0]) + y);
      ShowUnambiguous(a[0], b[0], x, y, enums);
      ShowRestUnambiguous(a[1..], b[1..], r, q, enums);
    }
  }

  lemma {:induction false} SameShows(a: Type, b: Type, enums: set<string>)
    requires Same(a, b) && Concrete(a, enums) && Concrete(b, enums)
    ensures Show(a) == Show(b)
  {
    match a
    case Function(ps, r, _) => SameAllShow(ps, b.params, enums); SameShows(r, b.result, enums);
    case Pointer(p, _) => SameShows(p, b.pointee, enums);
    case Array(e, _) => SameShows(e, b.element, enums);
    case Tuple(ps) => SameAllShow(ps, b.elements, enums);
    case _ =>
  }

  lemma {:induction false} SameAllShow(a: seq<Type>, b: seq<Type>, enums: set<string>)
    requires SameAll(a, b) && ConcreteAll(a, enums) && ConcreteAll(b, enums)
    ensures ShowAll(a) == ShowAll(b) && ShowRest(a) == ShowRest(b)
  {
    if a != [] {
      SameShows(a[0], b[0], enums);
      SameAllShow(a[1..], b[1..], enums);
    }
  }

  /** Concrete types print alike exactly if they are the same, ownership included. */
  lemma SameIff(a: Type, b: Type, enums: set<string>)
    requires Concrete(a, enums) && Concrete(b, enums)
    ensures Same(a, b) <==> Show(a) == Show(b)
  {
    if Same(a, b) {
      SameShows(a, b, enums);
    } else if Show(a) == Show(b) {
      ShowUnambiguous(a, b, "", "", enums);
    }
  }

  /** The type without its ownership marks. */
  function Unmarked(t: Type): Type
  {
    match t
    case Function(ps, r, v) => Function(UnmarkedAll(ps), Unmarked(r), v)
    case Pointer(p, _) => Pointer(Unmarked(p), false)
    case Array(e, n) => Array(Unmarked(e), n)
    case Tuple(es) => Tuple(UnmarkedAll(es))
    case _ => t
  }

  function UnmarkedAll(ts: seq<Type>): (r: seq<Type>)
    ensures |r| == |ts|
  {
    if ts == [] then [] else [Unmarked(ts[0])] + UnmarkedAll(ts[1..])
  }

  lemma {:induction false} UnmarkedConcrete(t: Type, enums: set<string>)
    requires Concrete(t, enums)
    ensures Concrete(Unmarked(t), enums)
  {
    match t
    case Function(ps, r, _) => UnmarkedAllConcrete(ps, enums); UnmarkedConcrete(r, enums);
    case Pointer(p, _) => UnmarkedConcrete(p, enums);
    case Array(e, _) => UnmarkedConcrete(e, enums);
    case Tuple(es) => UnmarkedAllConcrete(es, enums);
    case _ =>
  }

  lemma {:induction false} UnmarkedAllConcrete(ts: seq<Type>, enums: set<string>)
    requires ConcreteAll(ts, enums)
    ensures ConcreteAll(UnmarkedAll(ts), enums)
  {
    if ts != [] {
      UnmarkedConcrete(ts[0], enums);
      UnmarkedAllConcrete(ts[1..], enums);
    }
  }

  /** Without marks, being the same is being equal. */
  lemma {:induction false} UnmarkedSame(a: Type, b: Type)
    ensures Same(Unmarked(a), Unmarked(b)) <==> Eq(a, b)
  {
    match (a, b)
    case (Function(ps, r, _), Function(qs, q, _)) => UnmarkedAllSame(ps, qs); UnmarkedSame(r, q);
    case (Pointer(p, _), Pointer(q, _)) => UnmarkedSame(p, q);
    case (Array(e, _), Array(f, _)) => UnmarkedSame(e, f);
    case (Tuple(ps), Tuple(qs)) => UnmarkedAllSame(ps, qs);
    case _ =>
  }

  lemma {:induction false} UnmarkedAllSame(a: seq<Type>, b: seq<Type>)
    ensures SameAll(UnmarkedAll(a), UnmarkedAll(b)) <==> EqAll(a, b)
  {
    if a != [] && b != [] {
      UnmarkedSame(a[0], b[0]);
      UnmarkedAllSame(a[1..], b[1..]);
      assert UnmarkedAll(a)[1..] == UnmarkedAll(a[1..]) && UnmarkedAll(b)[1..] == UnmarkedAll(b[1..]);
    }
  }

  /** Concrete types are equal exactly if they print alike without their ownership marks. */
  lemma EqIffShow(a: Type, b: Type, enums: set<string>)
    requires Concrete(a, enums) && Concrete(b, enums)
    ensures Eq(a, b) <==> Show(Unmarked(a)) == Show(Unmarked(b))
  {
    UnmarkedConcrete(a, enums);
    UnmarkedConcrete(b, enums);
    UnmarkedSame(a, b);
    SameIff(Unmarked(a), Unmarked(b), enums);
  }

  // ---------- Symbols ----------

  lemma {:induction false} PlainUnambiguous(m: string, n: string, r: string, q: string)
    requires m + r == n + q && r != "" && q != "" && r[0] == q[0] == '<'
    requires (forall i | 0 <= i < |m| :: IsNameChar(m[i])) && (forall i | 0 <= i < |n| :: IsNameChar(n[i]))
    ensures m == n && r == q
  {
    assert |m| < |m + r| && (m + r)[|m|] == '<';
    assert |n| < |n + q| && (n + q)[|n|] == '<';
    assert forall i | 0 <= i < |m| :: (m + r)[i] == m[i];
    assert forall i | 0 <= i < |n| :: (n + q)[i] == n[i];
    assert |m| == |n|;
    assert m == (m + r)[..|m|] == n;
    Cancel(m, r, q);
  }

  /** A name, its type arguments in brackets and what follows are told apart. */
  lemma InstanceUnambiguous(m: string, a: seq<Type>, r: string, n: string, b: seq<Type>, q: string, enums: set<string>)
    requires Plain(m) && Plain(n) && ConcreteAll(a, enums) && ConcreteAll(b, enums)
    requires GenericName(m, a) + r == GenericName(n, b) + q
    ensures m == n && SameAll(a, b) && r == q
  {
    var x, y := "<" + (ShowAll(a) + (">" + r)), "<" + (ShowAll(b) + (">" + q));
    assert GenericName(m, a) + r == m + x && GenericName(n, b) + q == n + y;
    PlainUnambiguous(m, n, x, y);
    Cancel("<", ShowAll(a) + (">" + r), ShowAll(b) + (">" + q));
    ShowAllUnambiguous(a, b, ">" + r, ">" + q, enums);
    Cancel(">", r, q);
  }

  /** Two instantiations share a symbol exactly when they apply the same definition to the same types,
      ownership included. */
  lemma GenericNameIff(m: string, a: seq<Type>, n: string, b: seq<Type>, enums: set<string>)
    requires Plain(m) && Plain(n) && ConcreteAll(a, enums) && ConcreteAll(b, enums)
    ensures GenericName(m, a) == GenericName(n, b) <==> m == n && SameAll(a, b)
  {
    if GenericName(m, a) == GenericName(n, b) {
      InstanceUnambiguous(m, a, "", n, b, "", enums);
    }
    if SameAll(a, b) {
      SameAllShow(a, b, enums);
    }
  }

  /** The same for the methods of type class instances, whose symbols are no instantiation's either. */
  lemma TypeclassNameIff(m: string, a: seq<Type>, f: string, n: string, b: seq<Type>, g: string, enums: set<string>)
    requires Plain(m) && Plain(n) && ConcreteAll(a, enums) && ConcreteAll(b, enums)
    ensures TypeclassName(m, a, f) == TypeclassName(n, b, g) <==> m == n && SameAll(a, b) && f == g
    ensures TypeclassName(m, a, f) != GenericName(n, b)
  {
    var r, q := "::" + f, "::" + g;
    assert TypeclassName(m, a, f) == GenericName(m, a) + r && TypeclassName(n, b, g) == GenericName(n, b) + q;
    if TypeclassName(m, a, f) == TypeclassName(n, b, g) {
      InstanceUnambiguous(m, a, r, n, b, q, enums);
      Cancel("::", f, g);
    }
    if SameAll(a, b) {
      SameAllShow(a, b, enums);
    }
    if TypeclassName(m, a, f) == GenericName(n, b) {
      assert GenericName(n, b) + "" == GenericName(n, b);
      InstanceUnambiguous(m, a, r, n, b, "", enums);
      assert false;
    }
  }

  /** The key under which instantiations are remembered. */
  datatype MonomorphizedKey = MonomorphizedKey(name: string, args: seq<Type>)

  predicate SameKey(k: MonomorphizedKey, l: MonomorphizedKey)
  {
    k.name == l.name && EqAll(k.args, l.args)
  }

  /** Different keys never share a symbol. */
  lemma KeysHaveOwnSymbols(k: MonomorphizedKey, l: MonomorphizedKey, enums: set<string>)
    requires Plain(k.name) && Plain(l.name) && ConcreteAll(k.args, enums) && ConcreteAll(l.args, enums)
    requires GenericName(k.name, k.args) == GenericName(l.name, l.args)
    ensures SameKey(k, l)
  {
    GenericNameIff(k.name, k.args, l.name, l.args, enums);
    SameAllIsEq(k.args, l.args);
  }

  /** The converse fails: equal keys may print differently, because keys ignore ownership. */
  lemma OwnershipSplitsSymbols()
    ensures var k := MonomorphizedKey("id", [Pointer(Basic(I32), false)]);
            var l := MonomorphizedKey("id", [Pointer(Basic(I32), true)]);
            SameKey(k, l) && GenericName(k.name, k.args) != GenericName(l.name, l.args)
  {
    var a, b := [Pointer(Basic(I32), false)], [Pointer(Basic(I32), true)];
    assert !SameAll(a, b);
    GenericNameIff("id", a, "id", b, {});
  }

  // ---------- Instantiated names are names again ----------

  lemma {:induction false} ClosesInside(n: string, k: nat, r: string, depth: nat)
    requires Closes(n, k) && depth > 0
    ensures Closes(n + r, k + depth) == Closes(r, depth)
    decreases |n|
  {
    var s := n + r;
    if n == "" {
      assert s == r;
    } else {
      assert s[0] == n[0] && s[1..] == n[1..] + r;
      if k > 0 && n[0] == '-' && |n| > 1 && n[1] == '>' {
        assert s[1] == '>' && s[2..] == n[2..] + r;
        ClosesInside(n[2..], k, r, depth);
      } else if n[0] == '<' {
        ClosesInside(n[1..], k + 1, r, depth);
      } else if k > 0 && n[0] == '>' {
        ClosesInside(n[1..], k - 1, r, depth);
      } else {
        assert n[0] == '-' ==> k > 0 && |n| > 1 && s[1] == n[1];
        ClosesInside(n[1..], k, r, depth);
      }
    }
  }

  lemma {:induction false} ShowInside(t: Type, r: string, depth: nat, enums: set<string>)
    requires Concrete(t, enums) && depth > 0
    ensures Closes(Show(t) + r, depth) == Closes(r, depth)
    decreases t
  {
    match t
    case Basic(k) => PlainInside(ShowPrim(k), r, depth);
    case Struct(name, _, _) => ClosesInside(name, 0, r, depth);
    case Enum(name, _, _, _) => ClosesInside(name, 0, r, depth);
    case Pointer(p, linear) =>
      ShowInside(p, ">" + r, depth + 1, enums);
      PointerInside(t, r, depth);
    case Array(e, n) =>
      ShowInside(e, r, depth, enums);
      PlainInside("[" + Decimal.Show(n) + "]", Show(e) + r, depth);
      assert Show(t) + r == ("[" + Decimal.Show(n) + "]") + (Show(e) + r);
    case Tuple(es) =>
      ShowAllInside(es, ")" + r, depth, enums);
      TupleInside(t, r, depth);
    case Function(ps, result, _) =>
      ShowAllInside(ps, ") -> " + (Show(result) + r), depth, enums);
      ShowInside(result, r, depth, enums);
      FunctionInside(t, r, depth);
  }

  lemma PointerInside(t: Type, r: string, depth: nat)
    requires t.Pointer? && depth > 0 && Closes(Show(t.pointee) + (">" + r), depth + 1) == Closes(">" + r, depth + 1)
    ensures Closes(Show(t) + r, depth) == Closes(r, depth)
  {
    ShowPointer(t, r);
    PrefixInside(t.linear, Show(t.pointee) + (">" + r), depth);
    assert (">" + r)[1..] == r;
  }

  lemma PrefixInside(linear: bool, rest: string, depth: nat)
    requires depth > 0
    ensures Closes(PointerPrefix(linear) + rest, depth) == Closes(rest, depth + 1)
  {
    var word := if linear then "'ptr" else "ptr";
    assert PointerPrefix(linear) + rest == word + ("<" + rest);
    PlainInside(word, "<" + rest, depth);
    assert ("<" + rest)[1..] == rest;
  }

  lemma TupleInside(t: Type, r: string, depth: nat)
    requires t.Tuple? && depth > 0 && Closes(ShowAll(t.elements) + (")" + r), depth) == Closes(")" + r, depth)
    ensures Closes(Show(t) + r, depth) == Closes(r, depth)
  {
    ShowListed(t, r);
    PlainInside("(", ShowAll(t.elements) + (")" + r), depth);
    PlainInside(")", r, depth);
  }

  lemma FunctionInside(t: Type, r: string, depth: nat)
    requires t.Function? && depth > 0 && Closes(Show(t.result) + r, depth) == Closes(r, depth)
    requires var rest := ") -> " + (Show(t.result) + r);
             Closes(ShowAll(t.params) + rest, depth) == Closes(rest, depth)
    ensures Closes(Show(t) + r, depth) == Closes(r, depth)
  {
    ShowListed(t, r);
    PlainInside("(", ShowAll(t.params) + (") -> " + (Show(t.result) + r)), depth);
    ArrowInside(Show(t.result) + r, depth);
  }

  /** Text without brackets or arrows changes nothing. */
  lemma {:induction false} PlainInside(s: string, r: string, depth: nat)
    requires depth > 0 && forall i | 0 <= i < |s| :: s[i] !in {'<', '>', '-'}
    ensures Closes(s + r, depth) == Closes(r, depth)
  {
    if s == "" {
      assert s + r == r;
    } else {
      assert (s + r)[1..] == s[1..] + r;
      PlainInside(s[1..], r, depth);
    }
  }

  lemma ArrowInside(r: string, depth: nat)
    requires depth > 0
    ensures Closes(") -> " + r, depth) == Closes(r, depth)
  {
    var s := "-> " + r;
    assert ") -> " + r == ") " + s && s[2..] == " " + r;
    PlainInside(") ", s, depth);
    PlainInside(" ", r, depth);
  }

  lemma {:induction false} ShowAllInside(ts: seq<Type>, r: string, depth: nat, enums: set<string>)
    requires ConcreteAll(ts, enums) && depth > 0
    ensures Closes(ShowAll(ts) + r, depth) == Closes(r, depth)
    decreases ts, 1
  {
    if ts == [] {
      assert ShowAll(ts) + r == r;
    } else {
      assert ShowAll(ts) + r == Show(ts[0]) + (ShowRest(ts[1..]) + r);
      ShowInside(ts[0], ShowRest(ts[1..]) + r, depth, enums);
      ShowRestInside(ts[1..], r, depth, enums);
    }
  }

  lemma {:induction false} ShowRestInside(ts: seq<Type>, r: string, depth: nat, enums: set<string>)
    requires ConcreteAll(ts, enums) && depth > 0
    ensures Closes(ShowRest(ts) + r, depth) == Closes(r, depth)
    decreases ts, 0
  {
    if ts == [] {
      assert ShowRest(ts) + r == r;
    } else {
      var rest := ShowRest(ts[1..]) + r;
      assert ShowRest(ts) + r == ", " + (Show(ts[0]) + rest);
      PlainInside(", ", Show(ts[0]) + rest, depth);
      ShowInside(ts[0], rest, depth, enums);
      ShowRestInside(ts[1..], r, depth, enums);
    }
  }

  /** Instantiating a definition at concrete types gives a name that may itself occur in type arguments,
      so the uniqueness of symbols covers nested instantiations. */
  lemma GenericNameIsNominal(base: string, args: seq<Type>, enums: set<string>)
    requires Plain(base) && ConcreteAll(args, enums) && base != "ptr"
    ensures Nominal(GenericName(base, args))
  {
    var inner := ShowAll(args) + ">";
    assert GenericName(base, args) == base + ("<" + inner);
    ShowAllInside(args, ">", 1, enums);
    BracketedIsNominal(base, inner);
  }

  lemma BracketedIsNominal(base: string, inner: string)
    requires Plain(base) && base != "ptr" && Closes(inner, 1)
    ensures Nominal(base + ("<" + inner))
  {
    PlainThenBracket(base, inner);
    NotAPointer(base, inner);
    assert forall w | w in BUILTIN :: '<' !in w;
  }

  lemma NotAPointer(base: string, inner: string)
    requires Plain(base) && base != "ptr"
    ensures var name := base + ("<" + inner); name[|base|] == '<' && !("ptr<" <= name)
  {
    var name, p := base + ("<" + inner), "ptr<";
    assert name[|base|] == '<' && forall i | 0 <= i < |base| :: name[i] == base[i] && base[i] != '<';
    assert (|base| == 3 ==> base == name[..3]) && (|base| > 3 ==> name[3] != '<') && (|base| < 3 ==> p[|base|] != '<');
    PrefixChars(p, name);
  }

  lemma PrefixChars(p: string, s: string)
    ensures p <= s ==> |p| <= |s| && forall i | 0 <= i < |p| :: s[i] == p[i]
  {
  }

  lemma {:induction false} PlainThenBracket(base: string, inner: string)
    requires (forall i | 0 <= i < |base| :: IsNameChar(base[i])) && Closes(inner, 1)
    ensures Closes(base + ("<" + inner), 0)
  {
    var s := base + ("<" + inner);
    if base == "" {
      assert s[1..] == inner;
    } else {
      assert s[1..] == base[1..] + ("<" + inner);
      PlainThenBracket(base[1..], inner);
    }
  }
}
