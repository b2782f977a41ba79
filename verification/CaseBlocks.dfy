/** The blocks emitted for a `case`: one per arm, a chain of comparisons, and a default. */
module CaseBlocks {
  import opened Wrappers
  import opened CaseLowering

  /** How a block ends.  An arm's block runs its body and, unless the body has left already, goes on to the
      merge block. */
  datatype Block =
    | Open
    | CondBranch(constant: int, ifEqual: nat, otherwise: nat)
    | Branch(target: nat)
    | Unreachable
    | Body(arm: nat, merges: bool)

  datatype Outcome = RunsArm(arm: nat, merges: bool) | Traps | Unfinished

  /** Run from a block with the scrutinee `v`, taking at most `fuel` branches. */
  function Walk(blocks: seq<Block>, b: nat, v: int, fuel: nat): Outcome
    decreases fuel
  {
    if b >= |blocks| then Unfinished
    else
      match blocks[b]
      case Open => Unfinished
      case Unreachable => Traps
      case Body(arm, merges) => RunsArm(arm, merges)
      case Branch(target) => if fuel == 0 then Unfinished else Walk(blocks, target, v, fuel - 1)
      case CondBranch(constant, ifEqual, otherwise) =>
        if fuel == 0 then Unfinished
        else Walk(blocks, if v == constant then ifEqual else otherwise, v, fuel - 1)
  }

  /** What running a `case` should come to. */
  function Expected(tests: Tests, terminates: seq<bool>, v: int): Outcome
    requires |terminates| == |tests|
  {
    match Select(tests, v)
    case Some(i) => RunsArm(i, !terminates[i])
    case None => Traps
  }

  /** A `case` the type checker accepts runs an arm for every value its scrutinee can have, and one whose
      pattern is a wildcard or stands for that value. */
  lemma AcceptedRunsAnArm(t: Scrutinee, ps: seq<Pattern>, terminates: seq<bool>, v: int)
    requires Accepts(t, ps) && HasType(v, t) && |terminates| == |ps|
    ensures var r := Expected(TestsOf(t, ps), terminates, v);
            && r.RunsArm? && r.arm < |ps| && r.merges == !terminates[r.arm]
            && (ps[r.arm].Wildcard? || Constant(t, ps[r.arm]) == v)
  {
    AcceptedNeverTraps(t, ps, v);
  }

  // ---------- The shape of the emitted blocks ----------

  /** The arms that are compared, in order. */
  predicate Compared(tests: Tests, order: seq<nat>)
  {
    && (forall k | 0 <= k < |order| :: order[k] < |tests| && tests[order[k]].Some?)
    && (forall k, l | 0 <= k < l < |order| :: order[k] < order[l])
    && (forall i | 0 <= i < |tests| && tests[i].Some? :: i in order)
  }

  /** Arm `i` has the block `base + i`, and the wildcard's block is the default one. */
  predicate ArmsPlaced(blocks: seq<Block>, tests: Tests, terminates: seq<bool>, base: nat, default_: nat)
    requires |terminates| == |tests|
  {
    && base + |tests| <= |blocks| && default_ < |blocks|
    && (forall i | 0 <= i < |tests| :: blocks[base + i] == Body(i, !terminates[i]))
    && (if LastWildcard(tests).Some? then default_ == base + LastWildcard(tests).value
        else blocks[default_] == Unreachable)
  }

  /** The chain's `k`-th block compares with the `k`-th test, and the last one falls through to the default. */
  predicate Chained(blocks: seq<Block>, tests: Tests, order: seq<nat>, chain: seq<nat>, base: nat)
    requires Compared(tests, order)
  {
    && |chain| == |order| + 1
    && forall k | 0 <= k < |order| ::
         chain[k] < |blocks| && blocks[chain[k]] == CondBranch(tests[order[k]].value, base + order[k], chain[k + 1])
  }

  /** From the `k`-th comparison on, if none before it holds, the right arm is reached. */
  lemma {:induction false} ChainReaches(blocks: seq<Block>, tests: Tests, terminates: seq<bool>, order: seq<nat>,
                                        chain: seq<nat>, base: nat, v: int, k: nat, fuel: nat)
    requires |terminates| == |tests| && Compared(tests, order) && k <= |order|
    requires Chained(blocks, tests, order, chain, base) && ArmsPlaced(blocks, tests, terminates, base, chain[|order|])
    requires (forall l | 0 <= l < k :: tests[order[l]] != Some(v)) && fuel >= |order| - k
    ensures Walk(blocks, chain[k], v, fuel) == Expected(tests, terminates, v)
    decreases |order| - k
  {
    if k == |order| {
      assert Find(tests, v) == |tests|;
    } else if tests[order[k]] == Some(v) {
      FirstCompared(tests, order, v, k);
      assert blocks[chain[k]] == CondBranch(v, base + order[k], chain[k + 1]);
      assert blocks[base + order[k]] == Body(order[k], !terminates[order[k]]);
    } else {
      ChainReaches(blocks, tests, terminates, order, chain, base, v, k + 1, fuel - 1);
    }
  }

  lemma FirstCompared(tests: Tests, order: seq<nat>, v: int, k: nat)
    requires Compared(tests, order) && k < |order| && tests[order[k]] == Some(v)
    requires forall l | 0 <= l < k :: tests[order[l]] != Some(v)
    ensures Find(tests, v) == order[k]
  {
    var i := Find(tests, v);
    assert i <= order[k] && i in order;
    var l :| 0 <= l < |order| && order[l] == i;
    assert !(l < k);
  }

  lemma LastWildcardAppend(tests: Tests, test: Option<int>)
    ensures LastWildcard(tests + [test]) == if test.None? then Some(|tests|) else LastWildcard(tests)
  {
    assert (tests + [test])[..|tests|] == tests;
  }

  // ---------- Emission ----------

  class Builder {
    var blocks: seq<Block>

    constructor ()
      ensures blocks == [Open]
    {
      blocks := [Open];
    }

    method AddBlock() returns (b: nat)
      modifies this
      ensures b == |old(blocks)| && blocks == old(blocks) + [Open]
    {
      b := |blocks|;
      blocks := blocks + [Open];
    }

    method Terminate(b: nat, end: Block)
      requires b < |blocks|
      modifies this
      ensures blocks == old(blocks)[b := end]
    {
      blocks := blocks[b := end];
    }

    /** One block per arm; the last wildcard's is the default. */
    method AddArmBlocks(tests: Tests) returns (default_: Option<nat>)
      modifies this
      ensures |blocks| == |old(blocks)| + |tests| && old(blocks) <= blocks
      ensures if LastWildcard(tests).Some? then default_ == Some(|old(blocks)| + LastWildcard(tests).value)
              else default_ == None
    {
      default_ := None;
      var i := 0;
      while i < |tests|
        invariant i <= |tests| && |blocks| == |old(blocks)| + i && old(blocks) <= blocks
        invariant if LastWildcard(tests[..i]).Some?
                  then default_ == Some(|old(blocks)| + LastWildcard(tests[..i]).value) else default_ == None
      {
        var b := AddBlock();
        if tests[i].None? {
          default_ := Some(b);
        }
        LastWildcardAppend(tests[..i], tests[i]);
        assert tests[..i + 1] == tests[..i] + [tests[i]];
        i := i + 1;
      }
      assert tests[..i] == tests;
    }

    method ComparedArms(tests: Tests) returns (order: seq<nat>)
      ensures Compared(tests, order)
    {
      order := [];
      for i := 0 to |tests|
        invariant forall k | 0 <= k < |order| :: order[k] < i && tests[order[k]].Some?
        invariant forall k, l | 0 <= k < l < |order| :: order[k] < order[l]
        invariant forall j | 0 <= j < i && tests[j].Some? :: j in order
      {
        if tests[i].Some? {
          ghost var before := order;
          order := order + [i];
          assert forall j | j in before :: j in order;
          assert order[|order| - 1] == i;
        }
      }
    }

    /** Compare with the tests one after the other, starting in `entry`. */
    method EmitChain(tests: Tests, order: seq<nat>, entry: nat, base: nat, default_: nat) returns (ghost chain: seq<nat>)
      requires Compared(tests, order) && order != [] && entry < |blocks|
      modifies this
      ensures |old(blocks)| <= |blocks|
      ensures forall b | 0 <= b < |old(blocks)| && b != entry :: blocks[b] == old(blocks[b])
      ensures Chained(blocks, tests, order, chain, base) && chain[0] == entry && chain[|order|] == default_
      ensures forall k | 0 < k < |order| :: chain[k] >= |old(blocks)|
    {
      chain := [entry];
      var current := entry;
      for k := 0 to |order|
        invariant |chain| == k + 1 && chain[0] == entry
        invariant current == chain[k] && (k == |order| ==> current == default_)
        invariant |old(blocks)| <= |blocks| && forall l | 0 <= l <= k && l < |order| :: chain[l] < |blocks|
        invariant forall l | 0 < l <= k && l < |order| :: chain[l] >= |old(blocks)|
        invariant forall l | 0 <= l < k && k < |order| :: chain[l] != current
        invariant forall l | 0 <= l < k ::
          blocks[chain[l]] == CondBranch(tests[order[l]].value, base + order[l], chain[l + 1])
        invariant forall b | 0 <= b < |old(blocks)| && b != entry :: blocks[b] == old(blocks[b])
      {
        var next := default_;
        if k + 1 < |order| {
          next := AddBlock();
        }
        Terminate(current, CondBranch(tests[order[k]].value, base + order[k], next));
        chain := chain + [next];
        current := next;
      }
    }

    /** Emit the arms' bodies; a merge block is needed if some arm falls through. */
    method EmitBodies(terminates: seq<bool>, base: nat) returns (merge: bool)
      requires base + |terminates| <= |blocks|
      modifies this
      ensures |blocks| == |old(blocks)|
      ensures forall i | 0 <= i < |terminates| :: blocks[base + i] == Body(i, !terminates[i])
      ensures forall b | 0 <= b < |blocks| && !(base <= b < base + |terminates|) :: blocks[b] == old(blocks[b])
      ensures merge <==> exists i | 0 <= i < |terminates| :: !terminates[i]
    {
      merge := false;
      for i := 0 to |terminates|
        invariant |blocks| == |old(blocks)|
        invariant forall j | 0 <= j < i :: blocks[base + j] == Body(j, !terminates[j])
        invariant forall b | 0 <= b < |blocks| && !(base <= b < base + |terminates|) :: blocks[b] == old(blocks[b])
        invariant merge <==> exists j | 0 <= j < i :: !terminates[j]
      {
        Terminate(base + i, Body(i, !terminates[i]));
        merge := merge || !terminates[i];
      }
    }

    /** Emit a `case` into the open block `entry`: whatever the scrutinee, running from there reaches the arm
        that `Select` names, or the unreachable default if there is none. */
    method EmitScalarCase(tests: Tests, terminates: seq<bool>, entry: nat) returns (merge: bool)
      requires |terminates| == |tests| && entry < |blocks|
      modifies this
      ensures forall v, fuel: nat | fuel > |tests| :: Walk(blocks, entry, v, fuel) == Expected(tests, terminates, v)
      ensures |old(blocks)| <= |blocks|
      ensures forall b | 0 <= b < |old(blocks)| && b != entry :: blocks[b] == old(blocks[b])
      ensures merge <==> exists i | 0 <= i < |terminates| :: !terminates[i]
    {
      var base := |blocks|;
      var wildcard := AddArmBlocks(tests);
      var default_;
      if wildcard.Some? {
        default_ := wildcard.value;
      } else {
        default_ := AddBlock();
        Terminate(default_, Unreachable);
      }
      var order := ComparedArms(tests);
      ghost var chain: seq<nat>;
      if order == [] {
        Terminate(entry, Branch(default_));
        chain := [default_];
      } else {
        chain := EmitChain(tests, order, entry, base, default_);
      }
      merge := EmitBodies(terminates, base);
      assert ArmsPlaced(blocks, tests, terminates, base, default_);
      assert Chained(blocks, tests, order, chain, base);
      OrderLength(tests, order);
      forall v, fuel: nat | fuel > |tests|
        ensures Walk(blocks, entry, v, fuel) == Expected(tests, terminates, v)
      {
        ChainReaches(blocks, tests, terminates, order, chain, base, v, 0, if order == [] then fuel - 1 else fuel);
      }
    }
  }

  lemma {:induction false} OrderLength(tests: Tests, order: seq<nat>)
    requires Compared(tests, order)
    ensures |order| <= |tests|
  {
    if order != [] {
      OrderBound(tests, order, |order| - 1);
    }
  }

  lemma {:induction false} OrderBound(tests: Tests, order: seq<nat>, k: nat)
    requires Compared(tests, order) && k < |order|
    ensures order[k] >= k
  {
    if k > 0 {
      OrderBound(tests, order, k - 1);
    }
  }
}
