/** `case` expressions: the exhaustiveness check of the type checker, the chain of compare-and-branch blocks
    that code generation emits, and why its `unreachable` block is. */
module CaseLowering {
  import opened Wrappers
  import Decimal

  datatype LiteralKind = IntegerLiteral | BoolLiteral | CharLiteral

  datatype Pattern =
    | Wildcard
    | VariantPattern(name: string, bindings: nat)
    | LiteralPattern(kind: LiteralKind, text: string)

  datatype Variant = Variant(name: string, fields: nat)

  /** The type of the scrutinee. */
  datatype Scrutinee = EnumType(variants: seq<Variant>) | BoolType | CharType | IntegerType | OtherType

  /** The position of the first variant of the name, or the number of variants. */
  function VariantIndex(variants: seq<Variant>, name: string): (i: nat)
    ensures i <= |variants| && (i < |variants| ==> variants[i].name == name)
    ensures forall j | 0 <= j < i :: variants[j].name != name
  {
    if variants == [] || variants[0].name == name then 0 else 1 + VariantIndex(variants[1..], name)
  }

  // ---------- The type checker ----------

  predicate ValidPattern(t: Scrutinee, p: Pattern)
  {
    match p
    case Wildcard => true
    case VariantPattern(name, bindings) =>
      && t.EnumType? && VariantIndex(t.variants, name) < |t.variants|
      && bindings == t.variants[VariantIndex(t.variants, name)].fields
    case LiteralPattern(kind, text) =>
      match t
      case BoolType => kind == BoolLiteral && (text == "true" || text == "false")
      case CharType => kind == CharLiteral && |text| == 1 && text[0] as int < 256
      case IntegerType => kind == IntegerLiteral
      case _ => false
  }

  /** The number a pattern is compared with: a variant's index, or the literal. */
  function Constant(t: Scrutinee, p: Pattern): int
    requires ValidPattern(t, p) && !p.Wildcard?
  {
    match p
    case VariantPattern(name, _) => VariantIndex(t.variants, name)
    case LiteralPattern(BoolLiteral, text) => if text == "true" then 1 else 0
    case LiteralPattern(CharLiteral, text) => text[0] as int
    case LiteralPattern(IntegerLiteral, text) =>
      if text != "" && text[0] == '-' then 0 - Decimal.ReadLeading(text[1..]) as int
      else Decimal.ReadLeading(text)
  }

  /** The pattern that is written for a value. */
  function PatternOf(t: Scrutinee, v: int): Pattern
    requires HasType(v, t) && !t.OtherType?
  {
    if t.EnumType? then VariantPattern(t.variants[v].name, t.variants[v].fields)
    else if t.BoolType? then LiteralPattern(BoolLiteral, if v == 1 then "true" else "false")
    else if t.CharType? then LiteralPattern(CharLiteral, [v as char])
    else LiteralPattern(IntegerLiteral, if v < 0 then "-" + Decimal.Show(-v) else Decimal.Show(v))
  }

  /** It is valid and compared with exactly that value. */
  lemma ConstantOfPattern(t: Scrutinee, v: int)
    requires HasType(v, t) && !t.OtherType?
    requires t.EnumType? ==> forall i, j | 0 <= i < j < |t.variants| :: t.variants[i].name != t.variants[j].name
    ensures ValidPattern(t, PatternOf(t, v)) && Constant(t, PatternOf(t, v)) == v
  {
    if t.IntegerType? {
      var digits := Decimal.Show(if v < 0 then -v else v);
      Decimal.ReadShow(if v < 0 then -v else v);
      Decimal.LeadingShow(digits, "");
      assert digits + "" == digits && digits[..|digits|] == digits && ("-" + digits)[1..] == digits;
    }
  }

  /** The values a scrutinee can have at run time. */
  predicate HasType(v: int, t: Scrutinee)
  {
    match t
    case EnumType(variants) => 0 <= v < |variants|
    case BoolType => v == 0 || v == 1
    case CharType => 0 <= v < 256
    case _ => true
  }

  predicate LiteralMode(ps: seq<Pattern>) { exists i | 0 <= i < |ps| :: ps[i].LiteralPattern? }

  predicate VariantMode(ps: seq<Pattern>) { exists i | 0 <= i < |ps| :: ps[i].VariantPattern? }

  predicate HasWildcard(ps: seq<Pattern>) { exists i | 0 <= i < |ps| :: ps[i].Wildcard? }

  predicate AllValid(t: Scrutinee, ps: seq<Pattern>)
  {
    forall i | 0 <= i < |ps| :: ValidPattern(t, ps[i])
  }

  predicate NoLiteralTwice(ps: seq<Pattern>)
  {
    forall i, j | 0 <= i < j < |ps| && ps[i].LiteralPattern? && ps[j].LiteralPattern? :: ps[i].text != ps[j].text
  }

  predicate SomeConstant(t: Scrutinee, ps: seq<Pattern>, v: int)
    requires AllValid(t, ps)
  {
    exists i | 0 <= i < |ps| :: !ps[i].Wildcard? && Constant(t, ps[i]) == v
  }

  /** The patterns cover the scrutinee's type as far as the checker looks: it wants a wildcard for integers
      and characters. */
  predicate Exhaustive(t: Scrutinee, ps: seq<Pattern>)
    requires AllValid(t, ps)
  {
    || HasWildcard(ps)
    || (t.EnumType? && forall v | 0 <= v < |t.variants| :: SomeConstant(t, ps, v))
    || (t.BoolType? && SomeConstant(t, ps, 0) && SomeConstant(t, ps, 1))
  }

  /** What the type checker accepts. */
  predicate Accepts(t: Scrutinee, ps: seq<Pattern>)
  {
    && !(LiteralMode(ps) && VariantMode(ps))
    && (LiteralMode(ps) || t.EnumType?)
    && AllValid(t, ps) && NoLiteralTwice(ps) && Exhaustive(t, ps)
  }

  // ---------- Which arm runs ----------

  /** What an arm is compared with; `None` for a wildcard. */
  type Tests = seq<Option<int>>

  function TestsOf(t: Scrutinee, ps: seq<Pattern>): (tests: Tests)
    requires AllValid(t, ps)
    ensures |tests| == |ps|
    ensures forall i | 0 <= i < |ps| :: tests[i] == if ps[i].Wildcard? then None else Some(Constant(t, ps[i]))
  {
    seq(|ps|, i requires 0 <= i < |ps| => if ps[i].Wildcard? then None else Some(Constant(t, ps[i])))
  }

  /** The first arm compared with `v`, or the number of arms. */
  function Find(tests: Tests, v: int): (i: nat)
    ensures i <= |tests| && (i < |tests| ==> tests[i] == Some(v))
    ensures forall j | 0 <= j < i :: tests[j] != Some(v)
  {
    if tests == [] || tests[0] == Some(v) then 0 else 1 + Find(tests[1..], v)
  }

  function LastWildcard(tests: Tests): (w: Option<nat>)
    ensures w.Some? ==> w.value < |tests| && tests[w.value].None?
    ensures forall j | (if w.Some? then w.value + 1 else 0) <= j < |tests| :: tests[j].Some?
  {
    if tests == [] then None
    else if tests[|tests| - 1].None? then Some(|tests| - 1)
    else LastWildcard(tests[..|tests| - 1])
  }

  /** The arm the emitted code reaches: the first one compared with `v`, wherever the wildcards are, and
      otherwise the last wildcard. */
  function Select(tests: Tests, v: int): Option<nat>
  {
    if Find(tests, v) < |tests| then Some(Find(tests, v)) else LastWildcard(tests)
  }

  /** The arm that comes first in the source among those that apply. */
  function FirstApplicable(tests: Tests, v: int): (r: Option<nat>)
    ensures r.Some? ==> r.value < |tests| && (tests[r.value].None? || tests[r.value] == Some(v))
    ensures forall j | 0 <= j < (if r.Some? then r.value else |tests|) :: tests[j].Some? && tests[j] != Some(v)
  {
    if tests == [] then None
    else if tests[0].None? || tests[0] == Some(v) then Some(0)
    else
      var r := FirstApplicable(tests[1..], v);
      if r.Some? then Some(r.value + 1) else None
  }

  /** For `v`, the wildcard at `i` is passed over in favour of the later arm at `j`. */
  predicate Overtaken(tests: Tests, i: nat, j: nat, v: int)
    requires i < j < |tests|
  {
    && tests[i].None?
    && (tests[j] == Some(v) || (tests[j].None? && Find(tests, v) == |tests|))
    && Find(tests, v) >= j
  }

  /** The emitted code takes the first applicable arm exactly when no wildcard is overtaken by a later arm. */
  lemma SelectIsFirstIff(tests: Tests, v: int)
    ensures Select(tests, v) == FirstApplicable(tests, v)
            <==> forall i, j | 0 <= i < j < |tests| :: !Overtaken(tests, i, j, v)
  {
    var s, f := Select(tests, v), FirstApplicable(tests, v);
    if s.Some? && f.Some? && f.value < s.value {
      assert tests[f.value] != Some(v);
      assert Overtaken(tests, f.value, s.value, v);
    }
    forall i, j | 0 <= i < j < |tests| && Overtaken(tests, i, j, v) ensures s != f {
      assert f.Some? && f.value <= i;
      assert s.Some? && s.value >= j;
    }
  }

  /** `case b { _ => .., true => .. }` is accepted, and its second arm runs. */
  lemma WildcardIsOvertaken()
    ensures var t, ps := BoolType, [Wildcard, LiteralPattern(BoolLiteral, "true")];
            && Accepts(t, ps) && HasType(1, t)
            && Select(TestsOf(t, ps), 1) == Some(1) && FirstApplicable(TestsOf(t, ps), 1) == Some(0)
  {
    var t, ps := BoolType, [Wildcard, LiteralPattern(BoolLiteral, "true")];
    var tests := TestsOf(t, ps);
    assert ps[0].Wildcard? && HasWildcard(ps);
    assert tests[0] == None && tests[1] == Some(1);
    assert tests[1..][0] == Some(1);
  }

  lemma FoundBefore(tests: Tests, i: nat, v: int)
    requires i < |tests| && tests[i].None? && Find(tests, v) < |tests|
    requires Select(tests, v) == FirstApplicable(tests, v)
    ensures Find(tests, v) < i
  {
    assert FirstApplicable(tests, v).Some? && FirstApplicable(tests, v).value <= i;
  }

  /** Over all values of a type it takes the first applicable arm exactly when every arm behind a wildcard is
      useless: a constant already tested before every wildcard in front of it, or a wildcard although all
      values are tested. */
  lemma SelectIsAlwaysFirstIff(t: Scrutinee, ps: seq<Pattern>)
    requires AllValid(t, ps)
    ensures var tests := TestsOf(t, ps);
            (forall v | HasType(v, t) :: Select(tests, v) == FirstApplicable(tests, v))
            <==> (forall i, j | 0 <= i < j < |ps| && ps[i].Wildcard? ::
                    if ps[j].Wildcard? then forall v | HasType(v, t) :: Find(tests, v) < |tests|
                    else Find(tests, Constant(t, ps[j])) < i)
  {
    var tests := TestsOf(t, ps);
    if forall v | HasType(v, t) :: Select(tests, v) == FirstApplicable(tests, v) {
      forall i, j | 0 <= i < j < |ps| && ps[i].Wildcard?
        ensures if ps[j].Wildcard? then forall v | HasType(v, t) :: Find(tests, v) < |tests|
                else Find(tests, Constant(t, ps[j])) < i
      {
        if ps[j].Wildcard? {
          forall v | HasType(v, t) ensures Find(tests, v) < |tests| {
            SelectIsFirstIff(tests, v);
            assert Find(tests, v) == |tests| ==> Overtaken(tests, i, j, v);
          }
        } else {
          var v := Constant(t, ps[j]);
          assert HasType(v, t);
          assert Find(tests, v) <= j;
          FoundBefore(tests, i, v);
        }
      }
    }
    if forall i, j | 0 <= i < j < |ps| && ps[i].Wildcard? ::
         if ps[j].Wildcard? then forall v | HasType(v, t) :: Find(tests, v) < |tests|
         else Find(tests, Constant(t, ps[j])) < i
    {
      forall v | HasType(v, t) ensures Select(tests, v) == FirstApplicable(tests, v) {
        forall i, j | 0 <= i < j < |tests| ensures !Overtaken(tests, i, j, v) {
        }
        SelectIsFirstIff(tests, v);
      }
    }
  }

  // ---------- Exhaustiveness ----------

  /** What the checker accepts never reaches the default block without a wildcard. */
  lemma AcceptedNeverTraps(t: Scrutinee, ps: seq<Pattern>, v: int)
    requires Accepts(t, ps) && HasType(v, t)
    ensures Select(TestsOf(t, ps), v).Some?
  {
    var tests := TestsOf(t, ps);
    if HasWildcard(ps) {
      var i :| 0 <= i < |ps| && ps[i].Wildcard?;
      assert tests[i].None?;
    } else {
      assert SomeConstant(t, ps, v);
      var i :| 0 <= i < |ps| && !ps[i].Wildcard? && Constant(t, ps[i]) == v;
      assert tests[i] == Some(v);
    }
  }

  /** For enums and booleans the check refuses nothing that could not go wrong. */
  lemma ExhaustiveIff(t: Scrutinee, ps: seq<Pattern>)
    requires AllValid(t, ps) && (t.EnumType? || t.BoolType?)
    ensures Exhaustive(t, ps) <==> forall v | HasType(v, t) :: Select(TestsOf(t, ps), v).Some?
  {
    var tests := TestsOf(t, ps);
    forall v ensures Select(tests, v).Some? <==> HasWildcard(ps) || SomeConstant(t, ps, v) {
      if SomeConstant(t, ps, v) {
        var i :| 0 <= i < |ps| && !ps[i].Wildcard? && Constant(t, ps[i]) == v;
        assert tests[i] == Some(v);
      }
      if HasWildcard(ps) {
        var i :| 0 <= i < |ps| && ps[i].Wildcard?;
        assert tests[i].None?;
      }
      if Select(tests, v).Some? {
        assert ps[Select(tests, v).value].Wildcard? || Constant(t, ps[Select(tests, v).value]) == v;
      }
    }
    if forall v | HasType(v, t) :: Select(tests, v).Some? {
      if t.BoolType? {
        assert HasType(0, t) && HasType(1, t);
      } else {
        assert forall v | 0 <= v < |t.variants| :: HasType(v, t);
      }
    }
  }

  /** No finite number of arms covers all integers, so there the demand for a wildcard refuses nothing needlessly
      either. */
  lemma IntegersNeedWildcard(ps: seq<Pattern>)
    requires AllValid(IntegerType, ps)
    ensures Exhaustive(IntegerType, ps) <==> forall v :: Select(TestsOf(IntegerType, ps), v).Some?
  {
    var tests := TestsOf(IntegerType, ps);
    if HasWildcard(ps) {
      var i :| 0 <= i < |ps| && ps[i].Wildcard?;
      assert tests[i].None?;
      assert LastWildcard(tests).Some?;
    } else {
      AboveAll(tests);
      assert LastWildcard(tests).None?;
      assert Select(tests, Above(tests)).None?;
    }
  }

  /** A number no arm is compared with. */
  function Above(tests: Tests): int
  {
    if tests == [] then 0
    else if tests[0].Some? && tests[0].value >= Above(tests[1..]) then tests[0].value + 1
    else Above(tests[1..])
  }

  lemma {:induction false} AboveAll(tests: Tests)
    ensures forall i | 0 <= i < |tests| && tests[i].Some? :: tests[i].value < Above(tests)
  {
    if tests != [] {
      AboveAll(tests[1..]);
      assert forall i | 0 < i < |tests| :: tests[i] == tests[1..][i - 1];
    }
  }

  /** A `case` whose arms are all wildcards is refused unless its scrutinee is an enum, although no value lacks an
      arm. */
  lemma WildcardsAloneAreRefused(t: Scrutinee, ps: seq<Pattern>, v: int)
    requires ps != [] && !t.EnumType? && forall i | 0 <= i < |ps| :: ps[i].Wildcard?
    ensures !Accepts(t, ps) && AllValid(t, ps) && Exhaustive(t, ps) && Select(TestsOf(t, ps), v).Some?
  {
    assert ps[0].Wildcard?;
    assert TestsOf(t, ps)[0].None?;
  }

  /** An arm of an accepted `case` runs for its own value exactly if no earlier arm is compared with that value.  For
      booleans and characters none can be; an enum's variant and a number written in two ways may come twice. */
  lemma ArmRunsIff(t: Scrutinee, ps: seq<Pattern>, j: nat)
    requires Accepts(t, ps) && j < |ps| && !ps[j].Wildcard?
    ensures Select(TestsOf(t, ps), Constant(t, ps[j])) == Some(j)
            <==> forall i | 0 <= i < j && !ps[i].Wildcard? :: Constant(t, ps[i]) != Constant(t, ps[j])
    ensures t.BoolType? || t.CharType? ==> Select(TestsOf(t, ps), Constant(t, ps[j])) == Some(j)
  {
    var tests, v := TestsOf(t, ps), Constant(t, ps[j]);
    assert ValidPattern(t, ps[j]) && tests[j] == Some(v);
    assert Find(tests, v) <= j;
    forall i | 0 <= i < j && !ps[i].Wildcard? ensures tests[i] == Some(Constant(t, ps[i])) {
    }
    if t.BoolType? || t.CharType? {
      forall i | 0 <= i < j && !ps[i].Wildcard? ensures Constant(t, ps[i]) != v {
        assert ValidPattern(t, ps[i]) && ps[i].text != ps[j].text;
      }
    }
  }

  /** The number 1 may come twice. */
  lemma SameNumberTwice()
    ensures var ps := [LiteralPattern(IntegerLiteral, "1"), LiteralPattern(IntegerLiteral, "01"), Wildcard];
            Accepts(IntegerType, ps) && Constant(IntegerType, ps[0]) == Constant(IntegerType, ps[1])
  {
    var ps := [LiteralPattern(IntegerLiteral, "1"), LiteralPattern(IntegerLiteral, "01"), Wildcard];
    assert ps[0].LiteralPattern? && ps[2].Wildcard? && |ps[0].text| != |ps[1].text|;
    assert Decimal.ReadLeading("1") == 1 && Decimal.ReadLeading("01") == 1;
  }

  // ---------- The check, as it is carried out ----------

  /** The indices below `n`. */
  function Below(n: nat): (s: set<nat>)
    ensures |s| == n && forall i: nat :: i in s <==> i < n
  {
    if n == 0 then {} else Below(n - 1) + {n - 1}
  }

  lemma CoversAll(covered: set<nat>, n: nat)
    requires forall i | i in covered :: i < n
    ensures |covered| >= n <==> forall i: nat | i < n :: i in covered
  {
    Subset(covered, Below(n));
    if forall i: nat | i < n :: i in covered {
      assert covered == Below(n);
    }
  }

  lemma {:induction false} Subset(a: set<nat>, b: set<nat>)
    requires a <= b
    ensures |a| <= |b| && (|a| == |b| ==> a == b)
  {
    if a != {} {
      var x :| x in a;
      Subset(a - {x}, b - {x});
    }
  }

  method CheckEnumPatterns(variants: seq<Variant>, ps: seq<Pattern>) returns (ok: bool)
    requires !LiteralMode(ps)
    ensures var t := EnumType(variants); ok <==> AllValid(t, ps) && Exhaustive(t, ps)
  {
    ghost var t := EnumType(variants);
    ok := true;
    for n := 0 to |ps|
      invariant ok <==> AllValid(t, ps[..n])
    {
      if ps[n].VariantPattern? {
        var i := VariantIndex(variants, ps[n].name);
        ok := ok && i < |variants| && ps[n].bindings == variants[i].fields;
      }
      assert ps[..n + 1] == ps[..n] + [ps[n]];
    }
    assert ps[..|ps|] == ps;
    if !ok {
      return;
    }
    var covered: set<nat> := {};
    for n := 0 to |ps|
      invariant forall i | 0 <= i < n :: !ps[i].Wildcard?
      invariant forall v | v in covered :: v < |variants| && SomeConstant(t, ps, v)
      invariant forall i | 0 <= i < n :: Constant(t, ps[i]) in covered
    {
      if ps[n].Wildcard? {
        return true;
      }
      assert ValidPattern(t, ps[n]) && Constant(t, ps[n]) == VariantIndex(variants, ps[n].name);
      covered := covered + {VariantIndex(variants, ps[n].name)};
    }
    CoversAll(covered, |variants|);
    ok := |covered| >= |variants|;
    if ok {
      assert forall v: nat | v < |variants| :: v in covered;
      assert forall v | 0 <= v < |variants| :: SomeConstant(t, ps, v);
    } else {
      var v: nat :| v < |variants| && v !in covered;
      assert !SomeConstant(t, ps, v);
    }
  }

  method CheckLiteralPatterns(t: Scrutinee, ps: seq<Pattern>) returns (ok: bool)
    requires LiteralMode(ps) && !VariantMode(ps)
    requires forall i | 0 <= i < |ps| && ps[i].LiteralPattern? :: WellLexed(ps[i])
    ensures ok <==> AllValid(t, ps) && NoLiteralTwice(ps) && Exhaustive(t, ps)
  {
    if !(t.BoolType? || t.CharType? || t.IntegerType?) {
      var i :| 0 <= i < |ps| && ps[i].LiteralPattern?;
      assert !ValidPattern(t, ps[i]);
      return false;
    }
    var seen, hasWildcard;
    ok, seen, hasWildcard := ScanLiterals(t, ps);
    if ok {
      if t.BoolType? {
        BothLiterals(t, ps);
        ok := hasWildcard || ("true" in seen && "false" in seen);
      } else {
        ok := hasWildcard;
      }
    }
  }

  /** One pass over the arms: duplicates and kinds, the literals seen, and whether there is a wildcard. */
  method ScanLiterals(t: Scrutinee, ps: seq<Pattern>) returns (ok: bool, seen: set<string>, hasWildcard: bool)
    requires !VariantMode(ps) && (t.BoolType? || t.CharType? || t.IntegerType?)
    requires forall i | 0 <= i < |ps| && ps[i].LiteralPattern? :: WellLexed(ps[i])
    ensures ok <==> AllValid(t, ps) && NoLiteralTwice(ps)
    ensures hasWildcard <==> HasWildcard(ps)
    ensures ok ==> forall w :: w in seen <==> exists i | 0 <= i < |ps| :: ps[i].LiteralPattern? && ps[i].text == w
  {
    var wanted := if t.BoolType? then BoolLiteral else if t.CharType? then CharLiteral else IntegerLiteral;
    seen, hasWildcard, ok := {}, false, true;
    for n := 0 to |ps|
      invariant hasWildcard <==> HasWildcard(ps[..n])
      invariant ok ==> (forall w | w in seen :: exists i | 0 <= i < n :: ps[i].LiteralPattern? && ps[i].text == w)
      invariant ok ==> forall i | 0 <= i < n && ps[i].LiteralPattern? :: ps[i].text in seen
      invariant ok <==> AllValid(t, ps[..n]) && NoLiteralTwice(ps[..n])
    {
      ghost var before := ps[..n];
      assert ps[..n + 1] == before + [ps[n]];
      if ps[n].Wildcard? {
        hasWildcard := true;
        assert ps[..n + 1][n].Wildcard?;
      } else {
        assert ps[n].LiteralPattern? && WellLexed(ps[n]);
        var twice := ps[n].text in seen;
        if ok {
          assert twice <==> exists i | 0 <= i < n :: before[i].LiteralPattern? && before[i].text == ps[n].text;
        }
        ok := ok && !twice && ps[n].kind == wanted;
        seen := seen + {ps[n].text};
      }
    }
    assert ps[..|ps|] == ps;
  }

  /** What the parser makes of a literal: `true` or `false`, or one character of one byte. */
  predicate WellLexed(p: Pattern)
    requires p.LiteralPattern?
  {
    match p.kind
    case BoolLiteral => p.text == "true" || p.text == "false"
    case CharLiteral => |p.text| == 1 && p.text[0] as int < 256
    case IntegerLiteral => true
  }

  lemma BothLiterals(t: Scrutinee, ps: seq<Pattern>)
    requires AllValid(t, ps) && t.BoolType?
    ensures SomeConstant(t, ps, 1) <==> exists i | 0 <= i < |ps| :: ps[i].LiteralPattern? && ps[i].text == "true"
    ensures SomeConstant(t, ps, 0) <==> exists i | 0 <= i < |ps| :: ps[i].LiteralPattern? && ps[i].text == "false"
  {
    assert forall i | 0 <= i < |ps| :: ValidPattern(t, ps[i]);
    assert "true" != "false" by { assert |"true"| != |"false"|; }
  }

  /** The whole check. */
  method CheckCase(t: Scrutinee, ps: seq<Pattern>) returns (ok: bool)
    requires forall i | 0 <= i < |ps| && ps[i].LiteralPattern? :: WellLexed(ps[i])
    ensures ok <==> Accepts(t, ps)
  {
    var literal, variant := false, false;
    for n := 0 to |ps|
      invariant literal <==> LiteralMode(ps[..n])
      invariant variant <==> VariantMode(ps[..n])
    {
      assert ps[..n + 1] == ps[..n] + [ps[n]];
      assert ps[..n + 1][n] == ps[n];
      literal := literal || ps[n].LiteralPattern?;
      variant := variant || ps[n].VariantPattern?;
    }
    assert ps[..|ps|] == ps;
    if literal && variant {
      return false;
    }
    if literal {
      ok := CheckLiteralPatterns(t, ps);
    } else if t.EnumType? {
      ok := CheckEnumPatterns(t.variants, ps);
    } else {
      ok := false;
    }
  }
}
