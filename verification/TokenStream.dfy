/** The token list of the parser: a linked list with a cursor into it, a record of the tokens split in
    two, and a stack of points a speculative parse can return to.  Positions are node identities, as list
    iterators are: inserting or erasing one node leaves the others where they are. */
module TokenStream {
  import opened Wrappers
  import opened Tokens

  datatype Node = Node(id: nat, token: Token)

  datatype SplitRecord = SplitRecord(inserted: nat, original: Token)

  /** A saved cursor (`None` is the end of the list) and the number of splits made before it. */
  datatype RollbackPoint = RollbackPoint(cursor: Option<nat>, splits: nat)

  datatype Stream = Stream(
    list: seq<Node>,
    supply: nat,                      // the identity of the next node
    cursor: Option<nat>,
    pending: seq<SplitRecord>,
    stack: seq<RollbackPoint>,
    errors: seq<Token>)

  // ---------- Positions ----------

  /** The position of a node, or the length of the list. */
  function IndexOf(list: seq<Node>, id: nat): (i: nat)
    ensures i <= |list| && (i < |list| ==> list[i].id == id)
    ensures forall j | 0 <= j < i :: list[j].id != id
  {
    if list == [] || list[0].id == id then 0 else 1 + IndexOf(list[1..], id)
  }

  function Position(s: Stream): (i: nat)
    ensures i <= |s.list|
  {
    if s.cursor.None? then |s.list| else IndexOf(s.list, s.cursor.value)
  }

  ghost predicate Distinct(list: seq<Node>, supply: nat)
  {
    && (forall i | 0 <= i < |list| :: list[i].id < supply)
    && (forall i, j | 0 <= i < j < |list| :: list[i].id != list[j].id)
  }

  /** A position refers to a node of the list, or to its end. */
  predicate Refers(cursor: Option<nat>, list: seq<Node>)
  {
    cursor.Some? ==> IndexOf(list, cursor.value) < |list|
  }

  /** Nodes have identities of their own, the cursor and every saved cursor refer to nodes that exist - now,
      or once the later splits have been undone - and rollback points are nested. */
  ghost predicate Valid(s: Stream)
  {
    && Distinct(s.list, s.supply) && Refers(s.cursor, s.list)
    && (forall r | r in s.pending :: r.inserted < s.supply)
    && (forall i | 0 <= i < |s.stack| :: s.stack[i].splits <= |s.pending|)
    && (forall i | 0 <= i < |s.stack| :: Refers(s.stack[i].cursor, UndoTo(s.list, s.pending, s.stack[i].splits)))
    && (forall i, j | 0 <= i < j < |s.stack| :: s.stack[i].splits <= s.stack[j].splits)
  }

  function TokensOf(list: seq<Node>): (r: seq<Token>)
    ensures |r| == |list| && forall i | 0 <= i < |r| :: r[i] == list[i].token
  {
    seq(|list|, i requires 0 <= i < |list| => list[i].token)
  }

  /** The tokens still to be read. */
  function Rest(s: Stream): seq<Token>
  {
    TokensOf(s.list[Position(s)..])
  }

  function CursorAt(list: seq<Node>, i: nat): Option<nat>
  {
    if i < |list| then Some(list[i].id) else None
  }

  // ---------- Operations ----------

  function PushBack(s: Stream, t: Token): Stream
  {
    if t.kind == Invalid then s.(errors := s.errors + [t])
    else
      var n := Node(s.supply, t);
      s.(list := s.list + [n], supply := s.supply + 1, cursor := if s.cursor.None? then Some(n.id) else s.cursor)
  }

  function Mark(s: Stream): Stream
  {
    s.(stack := s.stack + [RollbackPoint(s.cursor, |s.pending|)])
  }

  /** Undo one split: the first half gets its original token back and the second half is erased. */
  function UndoSplit(list: seq<Node>, r: SplitRecord): seq<Node>
  {
    var i := IndexOf(list, r.inserted);
    if 0 < i < |list| then list[..i - 1] + [list[i - 1].(token := r.original)] + list[i + 1..] else list
  }

  /** Undo the latest splits until only the first `k` are left. */
  function UndoTo(list: seq<Node>, pending: seq<SplitRecord>, k: nat): seq<Node>
    decreases |pending|
  {
    if |pending| <= k then list
    else UndoTo(UndoSplit(list, pending[|pending| - 1]), pending[..|pending| - 1], k)
  }

  function Rollback(s: Stream): Stream
    requires s.stack != []
  {
    var p := s.stack[|s.stack| - 1];
    s.(list := UndoTo(s.list, s.pending, p.splits),
       pending := if p.splits < |s.pending| then s.pending[..p.splits] else s.pending,
       cursor := p.cursor,
       stack := s.stack[..|s.stack| - 1])
  }

  function Commit(s: Stream): Stream
    requires s.stack != []
  {
    s.(stack := s.stack[..|s.stack| - 1])
  }

  function StepBack(s: Stream, n: nat): Stream
    requires n <= Position(s)
  {
    s.(cursor := CursorAt(s.list, Position(s) - n))
  }

  /** Reading the end-of-file token does not move past it. */
  function Consume(s: Stream): Stream
    requires Position(s) < |s.list|
  {
    if s.list[Position(s)].token.kind == Eof then s else s.(cursor := CursorAt(s.list, Position(s) + 1))
  }

  function Split(s: Stream, first: Token, second: Token): Stream
    requires Position(s) < |s.list|
  {
    var i := Position(s);
    s.(list := s.list[..i] + [s.list[i].(token := first), Node(s.supply, second)] + s.list[i + 1..],
       supply := s.supply + 1,
       pending := s.pending + [SplitRecord(s.supply, s.list[i].token)])
  }

  // ---------- Sequences of operations ----------

  datatype Op =
    | PushOp(token: Token)           // the lexer produces a token
    | MarkOp
    | RollbackOp
    | CommitOp
    | StepBackOp(count: nat)
    | ConsumeOp
    | SplitOp(first: Token, second: Token)

  /** The operation's own assertions hold, and it pops no rollback point below `floor`. */
  predicate Enabled(s: Stream, op: Op, floor: nat)
  {
    match op
    case PushOp(_) | MarkOp => true
    case RollbackOp | CommitOp => |s.stack| > floor
    case StepBackOp(n) => n <= Position(s)
    case ConsumeOp | SplitOp(_, _) => Position(s) < |s.list|
  }

  function Apply(s: Stream, op: Op, floor: nat): Stream
    requires Enabled(s, op, floor)
  {
    match op
    case PushOp(t) => PushBack(s, t)
    case MarkOp => Mark(s)
    case RollbackOp => Rollback(s)
    case CommitOp => Commit(s)
    case StepBackOp(n) => StepBack(s, n)
    case ConsumeOp => Consume(s)
    case SplitOp(first, second) => Split(s, first, second)
  }

  predicate AllEnabled(s: Stream, ops: seq<Op>, floor: nat)
    decreases |ops|
  {
    ops == [] || (Enabled(s, ops[0], floor) && AllEnabled(Apply(s, ops[0], floor), ops[1..], floor))
  }

  function ApplyAll(s: Stream, ops: seq<Op>, floor: nat): Stream
    requires AllEnabled(s, ops, floor)
    decreases |ops|
  {
    if ops == [] then s else ApplyAll(Apply(s, ops[0], floor), ops[1..], floor)
  }

  /** The token an operation adds to the list, if any. */
  function Produces(op: Op): seq<Token>
  {
    if op.PushOp? && op.token.kind != Invalid then [op.token] else []
  }

  function Produced(ops: seq<Op>): seq<Token>
  {
    if ops == [] then [] else Produces(ops[0]) + Produced(ops[1..])
  }

  // ---------- Undoing splits ----------

  lemma {:induction false} IndexOfAt(list: seq<Node>, i: nat)
    requires i < |list| && forall j | 0 <= j < i :: list[j].id != list[i].id
    ensures IndexOf(list, list[i].id) == i
  {
  }

  /** The list after a split, and after the split has been undone by hand. */
  lemma SplitParts(list: seq<Node>, i: nat, first: Token, n: Node)
    requires i < |list|
    ensures var u := list[..i] + [list[i].(token := first), n] + list[i + 1..];
            && |u| == |list| + 1 && u[i + 1] == n && (forall j | 0 <= j <= i :: u[j].id == list[j].id)
            && u[..i] + [u[i].(token := list[i].token)] + u[i + 2..] == list
  {
    var u := list[..i] + [list[i].(token := first), n] + list[i + 1..];
    assert u[i].(token := list[i].token) == list[i];
    assert u[..i] == list[..i] && u[i + 2..] == list[i + 1..];
  }

  /** Splitting a token and undoing it changes nothing. */
  lemma UndoOfSplit(s: Stream, first: Token, second: Token)
    requires Distinct(s.list, s.supply) && Position(s) < |s.list|
    ensures UndoSplit(Split(s, first, second).list, SplitRecord(s.supply, s.list[Position(s)].token)) == s.list
  {
    var i := Position(s);
    SplitParts(s.list, i, first, Node(s.supply, second));
    IndexOfAt(Split(s, first, second).list, i + 1);
  }

  /** A node appended at the end is not affected by undoing older splits. */
  lemma {:induction false} UndoToAppend(list: seq<Node>, pending: seq<SplitRecord>, k: nat, n: Node)
    requires forall r | r in pending :: r.inserted != n.id
    ensures UndoTo(list + [n], pending, k) == UndoTo(list, pending, k) + [n]
    decreases |pending|
  {
    if |pending| > k {
      var r := pending[|pending| - 1];
      UndoSplitAppend(list, r, n);
      UndoToAppend(UndoSplit(list, r), pending[..|pending| - 1], k, n);
    }
  }

  lemma {:induction false} IndexOfAppend(list: seq<Node>, id: nat, n: Node)
    requires n.id != id
    ensures IndexOf(list + [n], id) == if IndexOf(list, id) < |list| then IndexOf(list, id) else |list| + 1
  {
    if list != [] {
      assert (list + [n])[1..] == list[1..] + [n];
      if list[0].id != id {
        IndexOfAppend(list[1..], id, n);
      }
    }
  }

  lemma UndoSplitAppend(list: seq<Node>, r: SplitRecord, n: Node)
    requires r.inserted != n.id
    ensures UndoSplit(list + [n], r) == UndoSplit(list, r) + [n]
  {
    IndexOfAppend(list, r.inserted, n);
    var i := IndexOf(list, r.inserted);
    if 0 < i < |list| {
      assert (list + [n])[i + 1..] == list[i + 1..] + [n];
    }
  }

  /** Undoing in two steps is undoing in one. */
  lemma {:induction false} UndoToTwice(list: seq<Node>, pending: seq<SplitRecord>, k: nat, l: nat)
    requires l <= k <= |pending|
    ensures UndoTo(UndoTo(list, pending, k), pending[..k], l) == UndoTo(list, pending, l)
    decreases |pending|
  {
    if |pending| > k {
      var init := pending[..|pending| - 1];
      assert init[..k] == pending[..k];
      UndoToTwice(UndoSplit(list, pending[|pending| - 1]), init, k, l);
    } else {
      assert pending[..k] == pending;
    }
  }

  lemma UndoSplitDistinct(list: seq<Node>, r: SplitRecord, supply: nat)
    requires Distinct(list, supply)
    ensures Distinct(UndoSplit(list, r), supply)
  {
    var i, u := IndexOf(list, r.inserted), UndoSplit(list, r);
    if 0 < i < |list| {
      assert forall j | 0 <= j < |u| :: u[j].id == list[if i <= j then j + 1 else j].id;
    }
  }

  lemma {:induction false} UndoToDistinct(list: seq<Node>, pending: seq<SplitRecord>, k: nat, supply: nat)
    requires Distinct(list, supply)
    ensures Distinct(UndoTo(list, pending, k), supply)
    decreases |pending|
  {
    if |pending| > k {
      UndoSplitDistinct(list, pending[|pending| - 1], supply);
      UndoToDistinct(UndoSplit(list, pending[|pending| - 1]), pending[..|pending| - 1], k, supply);
    }
  }

  // ---------- Operations keep the stream valid ----------

  lemma PushValid(s: Stream, t: Token)
    requires Valid(s)
    ensures Valid(PushBack(s, t))
  {
    var s' := PushBack(s, t);
    if t.kind != Invalid {
      var n := Node(s.supply, t);
      forall i | 0 <= i < |s.stack| ensures Refers(s.stack[i].cursor, UndoTo(s'.list, s.pending, s.stack[i].splits)) {
        UndoToAppend(s.list, s.pending, s.stack[i].splits, n);
        RefersAppend(s.stack[i].cursor, UndoTo(s.list, s.pending, s.stack[i].splits), n);
      }
      RefersAppend(s.cursor, s.list, n);
      if s.cursor.None? {
        IndexOfAt(s'.list, |s.list|);
      }
    }
  }

  lemma RefersAppend(cursor: Option<nat>, list: seq<Node>, n: Node)
    requires Refers(cursor, list)
    ensures Refers(cursor, list + [n])
  {
    if cursor.Some? {
      var i := IndexOf(list, cursor.value);
      assert (list + [n])[i].id == cursor.value;
    }
  }

  /** Inserting a node of a new identity keeps identities apart. */
  lemma InsertDistinct(list: seq<Node>, i: nat, first: Token, n: Node)
    requires Distinct(list, n.id) && i < |list|
    ensures Distinct(list[..i] + [list[i].(token := first), n] + list[i + 1..], n.id + 1)
  {
    var u := list[..i] + [list[i].(token := first), n] + list[i + 1..];
    forall j | 0 <= j < |u| ensures u[j].id == (if j <= i then list[j].id else if j == i + 1 then n.id else list[j - 1].id) {
    }
  }

  lemma SplitDistinct(s: Stream, first: Token, second: Token)
    requires Distinct(s.list, s.supply) && s.cursor.Some? && Position(s) < |s.list|
    ensures var s' := Split(s, first, second); Distinct(s'.list, s'.supply) && Position(s') == Position(s)
  {
    var s', i := Split(s, first, second), Position(s);
    InsertDistinct(s.list, i, first, Node(s.supply, second));
    assert s'.list[i].id == s.list[i].id;
    IndexOfAt(s'.list, i);
  }

  lemma SplitUndoes(s: Stream, first: Token, second: Token, k: nat)
    requires Distinct(s.list, s.supply) && Position(s) < |s.list| && k <= |s.pending|
    ensures UndoTo(Split(s, first, second).list, Split(s, first, second).pending, k) == UndoTo(s.list, s.pending, k)
  {
    UndoOfSplit(s, first, second);
    assert Split(s, first, second).pending[..|s.pending|] == s.pending;
  }

  lemma SplitValid(s: Stream, first: Token, second: Token)
    requires Valid(s) && Position(s) < |s.list|
    ensures Valid(Split(s, first, second))
  {
    var s' := Split(s, first, second);
    SplitDistinct(s, first, second);
    forall i | 0 <= i < |s.stack|
      ensures UndoTo(s'.list, s'.pending, s.stack[i].splits) == UndoTo(s.list, s.pending, s.stack[i].splits)
    {
      SplitUndoes(s, first, second, s.stack[i].splits);
    }
  }

  lemma MoveValid(s: Stream, i: nat)
    requires Valid(s) && i <= |s.list|
    ensures Valid(s.(cursor := CursorAt(s.list, i))) && Position(s.(cursor := CursorAt(s.list, i))) == i
  {
    if i < |s.list| {
      IndexOfAt(s.list, i);
    }
  }

  lemma RollbackFields(s: Stream)
    requires Valid(s) && s.stack != []
    ensures var p := s.stack[|s.stack| - 1];
            && p.splits <= |s.pending| && Rollback(s).pending == s.pending[..p.splits]
            && Rollback(s).list == UndoTo(s.list, s.pending, p.splits)
  {
    assert s.pending[..|s.pending|] == s.pending;
  }

  lemma RollbackValid(s: Stream)
    requires Valid(s) && s.stack != []
    ensures Valid(Rollback(s))
  {
    var s' := Rollback(s);
    var p := s.stack[|s.stack| - 1];
    UndoToDistinct(s.list, s.pending, p.splits, s.supply);
    forall i | 0 <= i < |s'.stack| ensures Refers(s'.stack[i].cursor, UndoTo(s'.list, s'.pending, s'.stack[i].splits)) {
      assert s'.pending == s.pending[..p.splits];
      UndoToTwice(s.list, s.pending, p.splits, s.stack[i].splits);
    }
  }

  /** No operation leaves the cursor, or a saved cursor, pointing at an erased node. */
  lemma ApplyValid(s: Stream, op: Op, floor: nat)
    requires Valid(s) && Enabled(s, op, floor)
    ensures Valid(Apply(s, op, floor))
  {
    match op
    case PushOp(t) => PushValid(s, t);
    case MarkOp =>
    case RollbackOp => RollbackValid(s);
    case CommitOp =>
    case StepBackOp(n) => MoveValid(s, Position(s) - n);
    case ConsumeOp => MoveValid(s, Position(s) + 1);
    case SplitOp(first, second) => SplitValid(s, first, second);
  }

  // ---------- Speculation ----------

  /** `s` has been reached from `m` without giving up `m`'s rollback points, and `produced` was appended
      meanwhile: undoing the splits since `m` gives back `m`'s list, followed by `produced`. */
  ghost predicate Speculates(m: Stream, s: Stream, produced: seq<Token>)
  {
    var undone := UndoTo(s.list, s.pending, |m.pending|);
    && m.pending <= s.pending && m.stack <= s.stack
    && (forall i | |m.stack| <= i < |s.stack| :: |m.pending| <= s.stack[i].splits)
    && m.list <= undone && Appended(undone, |m.list|, produced)
  }

  /** From position `n` on, the list holds the given tokens. */
  ghost predicate Appended(list: seq<Node>, n: nat, tokens: seq<Token>)
  {
    |list| == n + |tokens| && forall i | 0 <= i < |tokens| :: list[n + i].token == tokens[i]
  }

  lemma PushSpeculates(m: Stream, s: Stream, t: Token, produced: seq<Token>)
    requires (forall r | r in s.pending :: r.inserted < s.supply) && Speculates(m, s, produced) && t.kind != Invalid
    ensures Speculates(m, PushBack(s, t), produced + [t])
  {
    UndoToAppend(s.list, s.pending, |m.pending|, Node(s.supply, t));
  }

  lemma RollbackSpeculates(m: Stream, s: Stream, produced: seq<Token>)
    requires |s.stack| > |m.stack| && s.stack[|s.stack| - 1].splits <= |s.pending|
    requires Speculates(m, s, produced)
    ensures Speculates(m, Rollback(s), produced)
  {
    var p := s.stack[|s.stack| - 1];
    assert Rollback(s).pending == s.pending[..p.splits];
    assert Rollback(s).list == UndoTo(s.list, s.pending, p.splits);
    UndoToTwice(s.list, s.pending, p.splits, |m.pending|);
  }

  lemma ApplySpeculates(m: Stream, s: Stream, op: Op, produced: seq<Token>)
    requires Valid(s) && Speculates(m, s, produced) && Enabled(s, op, |m.stack|)
    ensures Speculates(m, Apply(s, op, |m.stack|), produced + Produces(op))
  {
    assert Produces(op) == [] ==> produced + Produces(op) == produced;
    match op
    case PushOp(t) =>
      if t.kind != Invalid {
        PushSpeculates(m, s, t, produced);
      }
    case RollbackOp => RollbackSpeculates(m, s, produced);
    case SplitOp(first, second) => SplitUndoes(s, first, second, |m.pending|);
    case _ =>
  }

  lemma {:induction false} ApplyAllValid(s: Stream, ops: seq<Op>, floor: nat)
    requires Valid(s) && AllEnabled(s, ops, floor)
    ensures Valid(ApplyAll(s, ops, floor))
    decreases |ops|
  {
    if ops != [] {
      ApplyValid(s, ops[0], floor);
      ApplyAllValid(Apply(s, ops[0], floor), ops[1..], floor);
    }
  }

  lemma Regrouped(a: seq<Token>, b: seq<Token>, c: seq<Token>)
    ensures a + (b + c) == (a + b) + c
  {
  }

  lemma {:induction false} ApplyAllSpeculates(m: Stream, s: Stream, ops: seq<Op>, end: Stream, produced: seq<Token>, all: seq<Token>)
    requires Valid(s) && Speculates(m, s, produced)
    requires AllEnabled(s, ops, |m.stack|) && end == ApplyAll(s, ops, |m.stack|)
    requires all == produced + Produced(ops)
    ensures Speculates(m, end, all)
    decreases |ops|
  {
    if ops == [] {
      assert all == produced;
    } else {
      var s1 := Apply(s, ops[0], |m.stack|);
      Regrouped(produced, Produces(ops[0]), Produced(ops[1..]));
      ApplyStep(m, s, ops[0], produced);
      ApplyAllSpeculates(m, s1, ops[1..], end, produced + Produces(ops[0]), all);
    }
  }

  lemma ApplyStep(m: Stream, s: Stream, op: Op, produced: seq<Token>)
    requires Valid(s) && Speculates(m, s, produced) && Enabled(s, op, |m.stack|)
    ensures Valid(Apply(s, op, |m.stack|)) && Speculates(m, Apply(s, op, |m.stack|), produced + Produces(op))
  {
    ApplyValid(s, op, |m.stack|);
    ApplySpeculates(m, s, op, produced);
  }

  /** Returning to a mark undoes everything since, whatever was consumed, split, stepped back over or nested
      in between; only newly lexed tokens stay, appended. */
  lemma NestedRollback(s: Stream, ops: seq<Op>)
    requires Valid(s)
    requires var m := Mark(s);
             AllEnabled(m, ops, |m.stack|) && |ApplyAll(m, ops, |m.stack|).stack| == |m.stack|
    ensures var m := Mark(s);
            var r := Rollback(ApplyAll(m, ops, |m.stack|));
            && Valid(r) && s.list <= r.list && Appended(r.list, |s.list|, Produced(ops))
            && r.cursor == s.cursor && r.pending == s.pending && r.stack == s.stack
  {
    var m := Mark(s);
    var e := ApplyAll(m, ops, |m.stack|);
    ApplyValid(s, MarkOp, 0);
    ApplyAllValid(m, ops, |m.stack|);
    ApplyAllSpeculates(m, m, ops, e, [], Produced(ops));
    Returns(s, e, Produced(ops));
  }

  lemma Returns(s: Stream, e: Stream, produced: seq<Token>)
    requires Valid(e) && Speculates(Mark(s), e, produced) && |e.stack| == |s.stack| + 1
    ensures var r := Rollback(e);
            && Valid(r) && s.list <= r.list && Appended(r.list, |s.list|, produced)
            && r.cursor == s.cursor && r.pending == s.pending && r.stack == s.stack
  {
    RollbackValid(e);
    assert e.stack == Mark(s).stack && e.pending[..|s.pending|] == s.pending;
  }

  /** What is left to read after the rollback is what was left before plus the new tokens - unless the mark
      was taken at the end of the list and tokens were produced since: those are then skipped. */
  lemma RollbackRereadsIff(s: Stream, ops: seq<Op>)
    requires Valid(s)
    requires var m := Mark(s);
             AllEnabled(m, ops, |m.stack|) && |ApplyAll(m, ops, |m.stack|).stack| == |m.stack|
    ensures var m := Mark(s);
            Rest(Rollback(ApplyAll(m, ops, |m.stack|))) == Rest(s) + Produced(ops)
            <==> s.cursor.Some? || Produced(ops) == []
  {
    NestedRollback(s, ops);
    var m := Mark(s);
    RestAppend(s, Rollback(ApplyAll(m, ops, |m.stack|)), Produced(ops));
  }

  /** A mark in an empty list, a token produced, and back to the mark: the token is skipped. */
  lemma LateMarkSkips(t: Token)
    requires t.kind != Invalid
    ensures var s := Stream([], 0, None, [], [], []);
            Valid(s) && Rest(s) == [] && Rest(Rollback(PushBack(Mark(s), t))) != Rest(s) + [t]
  {
    var s := Stream([], 0, None, [], [], []);
    assert Mark(s).stack == [RollbackPoint(None, 0)];
  }

  lemma RestAppend(s: Stream, r: Stream, produced: seq<Token>)
    requires s.list <= r.list && Appended(r.list, |s.list|, produced) && r.cursor == s.cursor && Refers(s.cursor, s.list)
    ensures Rest(r) == Rest(s) + produced <==> s.cursor.Some? || produced == []
  {
    if s.cursor.Some? {
      var i := Position(s);
      assert forall j | 0 <= j <= i :: r.list[j] == s.list[j];
      IndexOfAt(r.list, i);
      assert Rest(r) == Rest(s) + produced;
    }
  }

  // ---------- The stream ----------

  class TokenList {
    var list: seq<Node>
    var supply: nat
    var cursor: Option<nat>
    var pendingSplits: seq<SplitRecord>
    var rollbackStack: seq<RollbackPoint>
    var errors: seq<Token>

    ghost function State(): Stream
      reads this
    {
      Stream(list, supply, cursor, pendingSplits, rollbackStack, errors)
    }

    constructor ()
      ensures State() == Stream([], 0, None, [], [], []) && Valid(State())
    {
      list, supply, cursor, pendingSplits, rollbackStack, errors := [], 0, None, [], [], [];
    }

    /** The position of the cursor. */
    method Locate() returns (i: nat)
      ensures i == Position(State())
    {
      if cursor.None? {
        return |list|;
      }
      i := 0;
      while i < |list| && list[i].id != cursor.value
        invariant 0 <= i <= |list|
        invariant IndexOf(list, cursor.value) == i + IndexOf(list[i..], cursor.value)
      {
        assert list[i..][1..] == list[i + 1..];
        i := i + 1;
      }
    }

    method Push(token: Token)
      requires Valid(State())
      modifies this
      ensures State() == PushBack(old(State()), token) && Valid(State())
    {
      PushValid(State(), token);
      if token.kind == Invalid {
        errors := errors + [token];
        return;
      }
      var wasAtEnd := cursor.None?;
      list := list + [Node(supply, token)];
      if wasAtEnd {
        cursor := Some(supply);
      }
      supply := supply + 1;
    }

    /** Put the cursor on the last token. */
    method MoveToLast()
      requires Valid(State()) && list != []
      modifies this`cursor
      ensures State() == old(State()).(cursor := CursorAt(list, |list| - 1)) && Valid(State())
    {
      MoveValid(State(), |list| - 1);
      cursor := CursorAt(list, |list| - 1);
    }

    method MarkRollback()
      requires Valid(State())
      modifies this
      ensures State() == Mark(old(State())) && Valid(State())
    {
      ApplyValid(State(), MarkOp, 0);
      rollbackStack := rollbackStack + [RollbackPoint(cursor, |pendingSplits|)];
    }

    /** Undo the latest splits until `k` are left. */
    method UndoSplits(k: nat)
      requires k <= |pendingSplits|
      modifies this`list, this`pendingSplits
      ensures list == UndoTo(old(list), old(pendingSplits), k) && pendingSplits == old(pendingSplits)[..k]
    {
      while |pendingSplits| > k
        invariant k <= |pendingSplits| && pendingSplits <= old(pendingSplits)
        invariant UndoTo(list, pendingSplits, k) == UndoTo(old(list), old(pendingSplits), k)
      {
        list := UndoSplit(list, pendingSplits[|pendingSplits| - 1]);
        pendingSplits := pendingSplits[..|pendingSplits| - 1];
      }
    }

    method RollbackToMark()
      requires Valid(State()) && rollbackStack != []
      modifies this
      ensures State() == Rollback(old(State())) && Valid(State())
    {
      RollbackValid(State());
      RollbackFields(State());
      var point := rollbackStack[|rollbackStack| - 1];
      UndoSplits(point.splits);
      cursor := point.cursor;
      rollbackStack := rollbackStack[..|rollbackStack| - 1];
    }

    method CommitRollback()
      requires Valid(State()) && rollbackStack != []
      modifies this
      ensures State() == Commit(old(State())) && Valid(State())
    {
      rollbackStack := rollbackStack[..|rollbackStack| - 1];
    }

    method RollbackTokens(count: nat)
      requires Valid(State()) && count <= Position(State())
      modifies this
      ensures State() == StepBack(old(State()), count) && Valid(State())
    {
      var i := Locate();
      MoveValid(State(), i - count);
      cursor := CursorAt(list, i - count);
    }

    method Peek() returns (token: Token)
      requires Valid(State()) && cursor.Some?
      ensures Rest(State()) != [] && token == Rest(State())[0]
    {
      var i := Locate();
      token := list[i].token;
    }

    method ConsumeToken() returns (token: Token)
      requires Valid(State()) && cursor.Some?
      modifies this
      ensures token == old(list)[Position(old(State()))].token
      ensures State() == Consume(old(State())) && Valid(State())
    {
      var i := Locate();
      token := list[i].token;
      if token.kind != Eof {
        MoveValid(State(), i + 1);
        cursor := CursorAt(list, i + 1);
      }
    }

    method SplitCurrent(first: Token, second: Token)
      requires Valid(State()) && cursor.Some?
      modifies this
      ensures State() == Split(old(State()), first, second) && Valid(State())
    {
      SplitValid(State(), first, second);
      var i := Locate();
      var original := list[i].token;
      list := list[..i] + [list[i].(token := first), Node(supply, second)] + list[i + 1..];
      pendingSplits := pendingSplits + [SplitRecord(supply, original)];
      supply := supply + 1;
    }
  }
}
