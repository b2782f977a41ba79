/** How tightly the operators bind, by their spelling. */
module OperatorLevels {
  import opened Wrappers
  import opened Tokens
  import opened Precedence
  import Lexing

  /** The levels of the language reference. */
  function Documented(text: string): int
  {
    if text == "|>" then 1
    else if text == "=" then 2
    else if text == "|" then 3
    else if text == "||" then 4
    else if text == "&" then 5
    else if text == "^" then 6
    else if text == "&&" then 7
    else if text in {"==", "!=", "<", ">", "<=", ">="} then 10
    else if text in {"<<", ">>"} then 15
    else if text in {"+", "-"} then 20
    else if text in {"*", "/", "%"} then 40
    else -1
  }

  /** The parser binds an operator as documented exactly if it is none of four. */
  lemma DocumentedIff(kind: TokenType)
    requires Lexing.TokenText(kind) != ""
    ensures Binding(kind) == Documented(Lexing.TokenText(kind)) <==> kind !in {Or, OrLogical, And, AndLogical}
  {
  }

  /** `||` binds less tightly than `|`, and `&&` less tightly than `&`, where the reference has it the other way
      round. */
  lemma SwappedLevels()
    ensures Binding(Or) < Binding(OrLogical) < Binding(And) < Binding(Xor) < Binding(AndLogical)
    ensures Documented(Lexing.TokenText(Or)) == Binding(OrLogical) && Documented(Lexing.TokenText(OrLogical)) == Binding(Or)
    ensures Documented(Lexing.TokenText(And)) == Binding(AndLogical)
    ensures Documented(Lexing.TokenText(AndLogical)) == Binding(And)
  {
  }

  /** The items of `a o1 b o2 c` behind `a`. */
  function Rest(o1: TokenType, b: Expr, o2: TokenType, c: Expr): seq<Item>
  {
    [Symbol(o1), Operand(b), Symbol(o2), Operand(c)]
  }

  /** Of two operators the one that binds more tightly gets the middle operand, and the first if they bind
      alike. */
  lemma MiddleOperand(a: Expr, o1: TokenType, b: Expr, o2: TokenType, c: Expr)
    requires Binding(o1) > 0 && Binding(o2) > 0
    ensures Climb(0, Leaf(a), Rest(o1, b, o2, c)) ==
            (Some(if Binding(o2) > Binding(o1) then Node(o1, Leaf(a), Node(o2, Leaf(b), Leaf(c)))
                  else Node(o2, Node(o1, Leaf(a), Leaf(b)), Leaf(c))), [])
  {
    var items, more := Rest(o1, b, o2, c), [Symbol(o2), Operand(c)];
    assert items[2..] == more && more[2..] == [];
    assert Climb(0, Node(o2, Node(o1, Leaf(a), Leaf(b)), Leaf(c)), []).0 == Some(Node(o2, Node(o1, Leaf(a), Leaf(b)), Leaf(c)));
    if Binding(o2) > Binding(o1) {
      assert Climb(Binding(o1) + 1, Leaf(b), more) == (Some(Node(o2, Leaf(b), Leaf(c))), []);
    } else {
      assert Climb(0, Node(o1, Leaf(a), Leaf(b)), more) == (Some(Node(o2, Node(o1, Leaf(a), Leaf(b)), Leaf(c))), []);
    }
  }

  /** Multiplication before addition, and subtraction from the left. */
  lemma Arithmetic(a: Expr, b: Expr, c: Expr)
    ensures Climb(0, Leaf(a), Rest(Add, b, Mul, c)).0 == Some(Node(Add, Leaf(a), Node(Mul, Leaf(b), Leaf(c))))
    ensures Climb(0, Leaf(a), Rest(Sub, b, Sub, c)).0 == Some(Node(Sub, Node(Sub, Leaf(a), Leaf(b)), Leaf(c)))
  {
    MiddleOperand(a, Add, b, Mul, c);
    MiddleOperand(a, Sub, b, Sub, c);
  }

  // ---------- Pipes ----------

  /** A name is piped into as a call without arguments. */
  predicate Target(e: Expr) { e.Call? || e.Name? }

  /** The items of `|> f(x) |> g(y) |> ..`. */
  function Stages(targets: seq<Expr>): seq<Item>
  {
    if targets == [] then [] else [Symbol(Pipe), Operand(targets[0])] + Stages(targets[1..])
  }

  /** The call of the last stage, which gets what the stages before it yield in front of its own arguments. */
  function Nested(first: Expr, targets: seq<Expr>): Expr
    requires forall i | 0 <= i < |targets| :: Target(targets[i])
  {
    if targets == [] then first
    else
      var last, inner := targets[|targets| - 1], Nested(first, targets[..|targets| - 1]);
      assert Target(last);
      if last.Call? then Call(last.callee, [inner] + last.args) else Call(last.name, [inner])
  }

  lemma {:induction false} NestedFirst(first: Expr, targets: seq<Expr>)
    requires targets != [] && forall i | 0 <= i < |targets| :: Target(targets[i])
    ensures Nested(first, targets) == Nested(Nested(first, targets[..1]), targets[1..])
  {
    var n := |targets| - 1;
    if n > 0 {
      NestedFirst(first, targets[..n]);
      assert targets[..n][..1] == targets[..1] && targets[..n][1..] == targets[1..][..n - 1];
    } else {
      assert targets[..1] == targets;
    }
  }

  lemma {:induction false} StagesNest(lhs: Tree, first: Expr, targets: seq<Expr>)
    requires Desugar(lhs) == Some(first) && forall i | 0 <= i < |targets| :: Target(targets[i])
    ensures var (t, rest) := Climb(0, lhs, Stages(targets));
            rest == [] && t.Some? && Desugar(t.value) == Some(Nested(first, targets))
    decreases |targets|
  {
    if targets != [] {
      var more, next := Stages(targets[1..]), Node(Pipe, lhs, Leaf(targets[0]));
      assert Stages(targets)[2..] == more;
      assert Climb(0, lhs, Stages(targets)) == Climb(0, next, more);
      assert Nested(first, targets[..0]) == first && targets[..1][..0] == targets[..0];
      NestedFirst(first, targets);
      StagesNest(next, Nested(first, targets[..1]), targets[1..]);
    }
  }

  /** A chain of pipes is a nest of calls: each target gets what stands before it as its first argument. */
  lemma PipesNest(first: Expr, targets: seq<Expr>)
    requires forall i | 0 <= i < |targets| :: Target(targets[i])
    ensures var (t, rest) := Climb(0, Leaf(first), Stages(targets));
            rest == [] && t.Some? && Desugar(t.value) == Some(Nested(first, targets))
  {
    StagesNest(Leaf(first), first, targets);
  }
}
