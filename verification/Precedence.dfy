/** Binary expressions: precedence climbing, and the one tree it can build. */
module Precedence {
  import opened Wrappers
  import opened Tokens

  /** Expressions as far as this parser looks into them. */
  datatype Expr =
    | Name(name: string)
    | Call(callee: string, args: seq<Expr>)
    | Primary(id: nat)
    | Binary(op: TokenType, left: Expr, right: Expr)

  /** The input: primary expressions already recognised, primaries that fail to parse, and other tokens. */
  datatype Item = Operand(expr: Expr) | Broken | Symbol(kind: TokenType)

  /** How operands are grouped, before pipes are turned into calls. */
  datatype Tree = Leaf(expr: Expr) | Node(op: TokenType, left: Tree, right: Tree)

  datatype Outcome = Success(expr: Expr) | NonCommitted | Failed

  /** How tightly an operator binds; tokens that are none do not bind at all. */
  function Binding(kind: TokenType): (p: int)
    ensures p == -1 || 0 < p <= 40
  {
    match kind
    case Pipe => 1
    case Assign => 2
    case Or => 3
    case OrLogical => 4
    case And => 5
    case Xor => 6
    case AndLogical => 7
    case Less | LessEqual | GreaterEqual | Greater | Equal | NotEqual => 10
    case Shl | Shr => 15
    case Add | Sub => 20
    case Mul | Div | Mod => 40
    case _ => -1
  }

  /** The binding of the next token. */
  function Next(items: seq<Item>): int
  {
    if items != [] && items[0].Symbol? then Binding(items[0].kind) else -1
  }

  // ---------- Trees ----------

  function Flatten(t: Tree): (items: seq<Item>)
    ensures items != []
  {
    match t
    case Leaf(e) => [Operand(e)]
    case Node(op, l, r) => Flatten(l) + [Symbol(op)] + Flatten(r)
  }

  /** The binding at the root; an operand binds more tightly than any operator. */
  function Root(t: Tree): int
  {
    if t.Leaf? then 100 else Binding(t.op)
  }

  /** Every left child binds at least as tightly as its parent, every right child strictly more. */
  predicate Ordered(t: Tree)
  {
    t.Node? ==>
      && Binding(t.op) > 0 && Ordered(t.left) && Ordered(t.right)
      && Root(t.left) >= Binding(t.op) && Root(t.right) > Binding(t.op)
  }

  // ---------- Pipes ----------

  /** `x |> f(y)` is `f(x, y)`; nothing but a name or a call can be piped into. */
  function PipeInto(argument: Expr, target: Expr): Option<Expr>
  {
    match target
    case Call(f, args) => Some(Call(f, [argument] + args))
    case Name(f) => Some(Call(f, [argument]))
    case _ => None
  }

  function Combine(op: TokenType, left: Expr, right: Expr): Option<Expr>
  {
    if op == Pipe then PipeInto(left, right) else Some(Binary(op, left, right))
  }

  /** The expression a tree stands for, if all its pipes have a target. */
  function Desugar(t: Tree): Option<Expr>
  {
    match t
    case Leaf(e) => Some(e)
    case Node(op, l, r) =>
      if Desugar(l).None? || Desugar(r).None? then None
      else Combine(op, Desugar(l).value, Desugar(r).value)
  }

  // ---------- Climbing ----------

  /** Extend `lhs` with the operators that bind at least as tightly as `level`. */
  function Climb(level: nat, lhs: Tree, items: seq<Item>): (r: (Option<Tree>, seq<Item>))
    ensures |r.1| <= |items|
    decreases |items|
  {
    if Next(items) < level then (Some(lhs), items)
    else if |items| < 2 || !items[1].Operand? then (None, items[1..])
    else
      var p := Next(items);
      var rhs := Leaf(items[1].expr);
      var (right, rest) := if p < Next(items[2..]) then Climb(p + 1, rhs, items[2..]) else (Some(rhs), items[2..]);
      if right.None? then (None, rest) else Climb(level, Node(items[0].kind, lhs, right.value), rest)
  }

  /** The tree keeps every token in place and is ordered, and climbing stops only at a token that binds less
      tightly than the level. */
  lemma {:induction false} ClimbOrders(level: nat, lhs: Tree, items: seq<Item>)
    requires Ordered(lhs) && Root(lhs) >= level && Next(items) <= Root(lhs)
    ensures var (t, rest) := Climb(level, lhs, items);
            t.Some? ==> && Flatten(lhs) + items == Flatten(t.value) + rest && Ordered(t.value)
                        && Root(t.value) >= level && Next(rest) < level
    decreases |items|
  {
    if Next(items) >= level && |items| >= 2 && items[1].Operand? {
      var p, rhs := Next(items), Leaf(items[1].expr);
      assert [items[0]] + ([items[1]] + items[2..]) == items;
      ClimbOrders(p + 1, rhs, items[2..]);
      var (right, rest) := if p < Next(items[2..]) then Climb(p + 1, rhs, items[2..]) else (Some(rhs), items[2..]);
      if right.Some? {
        var node := Node(items[0].kind, lhs, right.value);
        assert Flatten(rhs) + items[2..] == Flatten(right.value) + rest;
        Regroup(Flatten(lhs), [items[0]], Flatten(right.value), rest);
        ClimbOrders(level, node, rest);
      }
    }
  }

  lemma Regroup(a: seq<Item>, b: seq<Item>, c: seq<Item>, d: seq<Item>)
    ensures a + (b + (c + d)) == (a + b + c) + d
  {
  }

  // ---------- Only one tree ----------

  /** No operator of an ordered tree binds less tightly than its root. */
  lemma {:induction false} RootIsLeast(t: Tree, i: nat)
    requires Ordered(t) && i < |Flatten(t)| && Flatten(t)[i].Symbol?
    ensures t.Node? && Binding(Flatten(t)[i].kind) >= Root(t)
  {
    if t.Node? {
      var n := |Flatten(t.left)|;
      if i < n {
        RootIsLeast(t.left, i);
      } else if i > n {
        assert Flatten(t)[i] == Flatten(t.right)[i - n - 1];
        RootIsLeast(t.right, i - n - 1);
      }
    }
  }

  lemma TokenAt(t: Tree, i: nat)
    requires t.Node? && i < |Flatten(t)|
    ensures var n := |Flatten(t.left)|;
            Flatten(t)[i] == if i < n then Flatten(t.left)[i]
                             else if i == n then Symbol(t.op) else Flatten(t.right)[i - n - 1]
  {
  }

  /** The root of an ordered tree is the last operator of those that bind least, so two trees of the same
      tokens cannot have it in different places. */
  lemma RootsAgree(a: Tree, b: Tree)
    requires a.Node? && b.Node? && Ordered(a) && Ordered(b) && Flatten(a) == Flatten(b)
    ensures |Flatten(a.left)| >= |Flatten(b.left)|
  {
    var i, j := |Flatten(a.left)|, |Flatten(b.left)|;
    if i < j {
      BindsBefore(a, b.op, j);
      BindsBehind(b, a.op, i);
    }
  }

  lemma BindsBefore(t: Tree, op: TokenType, j: nat)
    requires t.Node? && Ordered(t) && |Flatten(t.left)| < j < |Flatten(t)| && Flatten(t)[j] == Symbol(op)
    ensures Binding(op) > Binding(t.op)
  {
    TokenAt(t, j);
    RootIsLeast(t.right, j - |Flatten(t.left)| - 1);
  }

  lemma BindsBehind(t: Tree, op: TokenType, i: nat)
    requires t.Node? && Ordered(t) && i < |Flatten(t.left)| && Flatten(t)[i] == Symbol(op)
    ensures Binding(op) >= Binding(t.op)
  {
    TokenAt(t, i);
    RootIsLeast(t.left, i);
  }

  /** A token sequence has at most one ordered tree. */
  lemma {:induction false} OrderedTreeIsUnique(a: Tree, b: Tree)
    requires Ordered(a) && Ordered(b) && Flatten(a) == Flatten(b)
    ensures a == b
  {
    if a.Node? && b.Node? {
      RootsAgree(a, b);
      RootsAgree(b, a);
      var n := |Flatten(a.left)|;
      assert Flatten(a)[..n] == Flatten(a.left) && Flatten(b)[..n] == Flatten(b.left);
      assert Flatten(a)[n] == Symbol(a.op) && Flatten(b)[n] == Symbol(b.op);
      assert Flatten(a)[n + 1..] == Flatten(a.right) && Flatten(b)[n + 1..] == Flatten(b.right);
      OrderedTreeIsUnique(a.left, b.left);
      OrderedTreeIsUnique(a.right, b.right);
    }
  }

  // ---------- When climbing succeeds ----------

  /** Every operator, up to the first token that is none, is followed by an operand. */
  predicate Chain(items: seq<Item>)
  {
    Next(items) > 0 ==> |items| >= 2 && items[1].Operand? && Chain(items[2..])
  }

  /** What comes after the chain. */
  function Remainder(items: seq<Item>): seq<Item>
  {
    if Next(items) > 0 && |items| >= 2 then Remainder(items[2..]) else items
  }

  /** Climbing fails only if some operator has no operand, and gives up nothing of the chain. */
  lemma {:induction false} ClimbSucceeds(level: nat, lhs: Tree, items: seq<Item>)
    ensures var (t, rest) := Climb(level, lhs, items);
            && (Chain(items) ==> t.Some?)
            && (t.Some? ==> (Chain(rest) <==> Chain(items)) && Remainder(rest) == Remainder(items))
    decreases |items|
  {
    if Next(items) >= level && |items| >= 2 && items[1].Operand? {
      var p, rhs := Next(items), Leaf(items[1].expr);
      ClimbSucceeds(p + 1, rhs, items[2..]);
      var (right, rest) := if p < Next(items[2..]) then Climb(p + 1, rhs, items[2..]) else (Some(rhs), items[2..]);
      if right.Some? {
        ClimbSucceeds(level, Node(items[0].kind, lhs, right.value), rest);
      }
    }
  }

  /** At the lowest level climbing succeeds exactly on chains, and reads the whole chain. */
  lemma ClimbSucceedsIff(e: Expr, items: seq<Item>)
    ensures var (t, rest) := Climb(0, Leaf(e), items);
            && (t.Some? <==> Chain(items))
            && (t.Some? ==> rest == Remainder(items))
  {
    ClimbSucceeds(0, Leaf(e), items);
    ClimbOrders(0, Leaf(e), items);
  }

  lemma FlattenNode(t: Tree, rest: seq<Item>)
    requires t.Node?
    ensures Flatten(t) + rest == Flatten(t.left) + ([Symbol(t.op)] + (Flatten(t.right) + rest))
    ensures Flatten(t)[0] == Flatten(t.left)[0]
  {
    Regroup(Flatten(t.left), [Symbol(t.op)], Flatten(t.right), rest);
  }

  lemma {:induction false} FlattenChain(t: Tree, rest: seq<Item>)
    requires Ordered(t) && Chain(rest)
    ensures Flatten(t)[0].Operand? && Chain((Flatten(t) + rest)[1..])
    ensures Remainder((Flatten(t) + rest)[1..]) == Remainder(rest)
  {
    if t.Node? {
      var right := Flatten(t.right) + rest;
      var tail := [Symbol(t.op)] + right;
      FlattenChain(t.right, rest);
      assert tail[1] == Flatten(t.right)[0] && tail[2..] == right[1..];
      assert Chain(tail) && Remainder(tail) == Remainder(right[1..]);
      FlattenChain(t.left, tail);
      FlattenNode(t, rest);
    } else {
      assert (Flatten(t) + rest)[1..] == rest;
    }
  }

  /** Writing an ordered tree down and parsing it gives the tree back, and leaves what follows. */
  lemma ClimbFlatten(t: Tree, rest: seq<Item>)
    requires Ordered(t) && Next(rest) < 0
    ensures var items := Flatten(t) + rest;
            items[0].Operand? && Climb(0, Leaf(items[0].expr), items[1..]) == (Some(t), rest)
  {
    var items := Flatten(t) + rest;
    FlattenChain(t, rest);
    assert items[0] == Flatten(t)[0];
    var e := items[0].expr;
    ClimbSucceedsIff(e, items[1..]);
    ClimbOrders(0, Leaf(e), items[1..]);
    var t' := Climb(0, Leaf(e), items[1..]).0.value;
    assert Flatten(Leaf(e)) + items[1..] == items;
    assert Flatten(t') == items[..|items| - |rest|] == Flatten(t);
    OrderedTreeIsUnique(t', t);
  }

  // ---------- The parser ----------

  function Desugared(t: Option<Tree>): Option<Expr>
  {
    if t.Some? then Desugar(t.value) else None
  }

  /** A pipe without a target is not repaired by what follows. */
  lemma {:induction false} FailureStays(level: nat, lhs: Tree, items: seq<Item>)
    requires Desugar(lhs).None?
    ensures Desugared(Climb(level, lhs, items).0).None?
    decreases |items|
  {
    if Next(items) >= level && |items| >= 2 && items[1].Operand? {
      var p, rhs := Next(items), Leaf(items[1].expr);
      var (right, rest) := if p < Next(items[2..]) then Climb(p + 1, rhs, items[2..]) else (Some(rhs), items[2..]);
      if right.Some? {
        FailureStays(level, Node(items[0].kind, lhs, right.value), rest);
      }
    }
  }

  class ExprParser {
    var items: seq<Item>

    constructor (items: seq<Item>)
      ensures this.items == items
    {
      this.items := items;
    }

    method ParsePrimary() returns (r: Outcome)
      modifies this
      ensures if old(items) == [] || old(items[0]).Symbol? then r == NonCommitted && items == old(items)
              else if old(items[0]).Broken? then r == Failed && items == old(items[1..])
              else r == Success(old(items[0].expr)) && items == old(items[1..])
    {
      if items == [] || items[0].Symbol? {
        return NonCommitted;
      }
      r := if items[0].Broken? then Failed else Success(items[0].expr);
      items := items[1..];
    }

    /** Read operators that bind at least as tightly as `level`; pipes become calls as they are read. */
    method ParseBinaryExpr(level: nat, lhs: Expr, ghost tree: Tree) returns (r: Option<Expr>)
      requires Desugar(tree) == Some(lhs)
      modifies this
      ensures r == Desugared(Climb(level, tree, old(items)).0)
      ensures r.Some? ==> items == Climb(level, tree, old(items)).1
      ensures |items| <= |old(items)|
      decreases |items|
    {
      var left := lhs;
      ghost var t := tree;
      while true
        invariant Desugar(t) == Some(left) && |items| <= |old(items)|
        invariant Climb(level, t, items) == Climb(level, tree, old(items))
        decreases |items|
      {
        var p := Next(items);
        if p < level {
          return Some(left);
        }
        ghost var all := items;
        var op := items[0].kind;
        items := items[1..];
        var primary := ParsePrimary();
        if !primary.Success? {
          return None;
        }
        assert items == all[2..];
        var right := Some(primary.expr);
        ghost var node := Leaf(primary.expr);
        if p < Next(items) {
          right := ParseBinaryExpr(p + 1, primary.expr, node);
          ghost var (nested, _) := Climb(p + 1, node, all[2..]);
          if right.None? {
            if nested.Some? {
              FailureStays(level, Node(op, t, nested.value), Climb(p + 1, node, all[2..]).1);
            }
            return None;
          }
          node := nested.value;
        }
        t := Node(op, t, node);
        var combined := Combine(op, left, right.value);
        if combined.None? {
          FailureStays(level, t, items);
          return None;
        }
        left := combined.value;
      }
    }

    method ParseExpr() returns (r: Outcome)
      modifies this
      ensures if old(items) == [] || old(items[0]).Symbol? then r == NonCommitted && items == old(items)
              else if old(items[0]).Broken? then r == Failed
              else
                var (t, rest) := Climb(0, Leaf(old(items[0]).expr), old(items)[1..]);
                if Desugared(t).Some? then r == Success(Desugared(t).value) && items == rest else r == Failed
    {
      r := ParsePrimary();
      if r.Success? {
        var binary := ParseBinaryExpr(0, r.expr, Leaf(r.expr));
        r := if binary.Some? then Success(binary.value) else Failed;
      }
    }
  }
}
