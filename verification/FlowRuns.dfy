/**
 What the graph says about executions: every run of the method follows its edges, and where handlers
 start blocks the graph reaches no block that a run could not.
 */
module FlowRuns {
  import opened ControlFlow

  /** Control may go from instruction i to instruction j. */
  ghost predicate Step(code: Code, i: nat, j: nat)
    requires i < |code| && j < |code|
  {
    || (j == i + 1 && FallsThrough(code[i].kind))
    || Pc(code, j) in JumpsTo(code[i].kind)
    || Pc(code, j) in Handlers(code[i])
  }

  ghost predicate IsRun(code: Code, run: seq<nat>) {
    && run != [] && (forall k :: 0 <= k < |run| ==> run[k] < |code|)
    && (forall k :: 0 < k < |run| ==> Step(code, run[k - 1], run[k]))
  }

  /** The graph of a method, as the builder promises it. */
  ghost predicate IsGraph(code: Code, g: Graph) {
    && RegularUpTo(code, |code|, g.regular) && TakenUpTo(code, |code|, g.taken) && ExceptionsExact(code, g.exceptions)
  }

  ghost predicate Linked(g: Graph, a: nat, b: nat) {
    || (exists e :: e in g.regular && e.node == a && e.toNode == b)
    || (exists e :: e in g.taken && e.node == a && e.toNode == b)
    || (exists e :: e in g.exceptions && e.node == a && e.handlerNode == b)
  }

  ghost predicate IsPath(g: Graph, path: seq<nat>) {
    path != [] && forall k :: 0 < k < |path| ==> Linked(g, path[k - 1], path[k])
  }

  /** A step stays in its block, going to the next instruction, or follows an edge. */
  lemma {:induction false} StepFollowsGraph(code: Code, g: Graph, i: nat, j: nat)
    requires IsGraph(code, g) && i < |code| && j < |code| && Step(code, i, j)
    ensures (j == i + 1 && Id(code, i) == Id(code, j)) || Linked(g, Id(code, i), Id(code, j))
  {
    hide IsStart, Pc, FallsThrough, JumpsTo, Handlers;
    if j == i + 1 && FallsThrough(code[i].kind) {
      if IsStart(code, j) {
        assert FallAt(code, j, Edge(Id(code, i), Pc(code, i), Id(code, j), Pc(code, j)));
      }
    } else if Pc(code, j) in JumpsTo(code[i].kind) {
      hide Id;
      assert InsnAt(code, Id(code, j), Pc(code, j));
      assert JumpAt(code, i, Edge(Id(code, i), Pc(code, i), Id(code, j), Pc(code, j)));
    } else {
      hide Id;
      ThrowFollowsGraph(code, g, i, j);
    }
  }

  lemma {:induction false} ThrowFollowsGraph(code: Code, g: Graph, i: nat, j: nat)
    requires IsGraph(code, g) && i < |code| && j < |code| && Pc(code, j) in Handlers(code[i])
    ensures Linked(g, Id(code, i), Id(code, j))
  {
    hide Id, Pc, Handlers, RegularUpTo, TakenUpTo;
    assert IsPc(code, Pc(code, j));
    assert MayThrow(code, Id(code, i), Pc(code, j));
    assert Draws(g.exceptions, Id(code, i), Pc(code, j));
    var e :| e in g.exceptions && e.node == Id(code, i) && e.handler == Pc(code, j);
    var t :| 0 <= t < |code| && ThrowsAlong(code, t, e);
    var k :| 0 <= k < |code| && Pc(code, k) == e.handler && Id(code, k) == e.handlerNode;
    PcIsUnique(code, j, k);
  }

  /** Every run, however long, passes through blocks along a path of the graph. */
  lemma {:induction false} RunFollowsPath(code: Code, g: Graph, run: seq<nat>) returns (path: seq<nat>)
    requires IsGraph(code, g) && IsRun(code, run)
    ensures IsPath(g, path) && path[0] == Id(code, run[0]) && path[|path| - 1] == Id(code, run[|run| - 1])
  {
    hide IsGraph, Step, Linked, Id;
    var n := |run| - 1;
    if n == 0 {
      path := [Id(code, run[0])];
    } else {
      path := RunFollowsPath(code, g, run[..n]);
      StepFollowsGraph(code, g, run[n - 1], run[n]);
      if Id(code, run[n - 1]) != Id(code, run[n]) {
        path := path + [Id(code, run[n])];
      }
    }
  }

  // ---- the converse

  ghost predicate RunTo(code: Code, run: seq<nat>, i: nat) {
    IsRun(code, run) && run[0] == 0 && run[|run| - 1] == i
  }

  ghost predicate Reached(code: Code, i: nat) {
    exists run :: RunTo(code, run, i)
  }

  /** Some run gets into the block. */
  ghost predicate BlockReached(code: Code, node: nat) {
    exists i :: 0 <= i < |code| && Reached(code, i) && Id(code, i) == node
  }

  ghost predicate PathTo(g: Graph, path: seq<nat>, node: nat) {
    IsPath(g, path) && path[0] == 0 && path[|path| - 1] == node
  }

  ghost predicate PathReached(g: Graph, node: nat) {
    exists path :: PathTo(g, path, node)
  }

  lemma {:induction false} ReachedMore(code: Code, i: nat, j: nat)
    requires i < |code| && j < |code| && Reached(code, i) && Step(code, i, j)
    ensures Reached(code, j)
  {
    hide Step;
    var run :| RunTo(code, run, i);
    assert RunTo(code, run + [j], j);
  }

  /** Once in a block, control can reach each later instruction of it. */
  lemma {:induction false} ReachedInside(code: Code, from: nat, i: nat)
    requires from <= i < |code| && Leader(code, i) <= from && Reached(code, from)
    ensures Reached(code, i)
  {
    hide Pc, JumpsTo, Handlers, IsStart, Reached;
    if from < i {
      InsideIsPlain(code, i);
      ReachedInside(code, from, i - 1);
      ReachedMore(code, i - 1, i);
    }
  }

  /** Nothing of the block comes after instruction i. */
  ghost predicate EndsAt(code: Code, i: nat)
    requires i < |code|
  {
    i + 1 < |code| ==> IsStart(code, i + 1)
  }

  lemma {:induction false} LastIsReached(code: Code, i: nat)
    requires i < |code| && EndsAt(code, i) && BlockReached(code, Id(code, i))
    ensures Reached(code, i)
  {
    hide IsStart, Reached, Id;
    var k :| 0 <= k < |code| && Reached(code, k) && Id(code, k) == Id(code, i);
    SameBlock(code, k, i);
    if i < k {
      IdGrows(code, i, i + 1);
      if i + 1 < k {
        IdGrows(code, i + 1, k);
      }
    } else {
      ReachedInside(code, k, i);
    }
  }

  /** An edge leaves from the end of its block, or from an instruction that may throw. */
  lemma {:induction false} EdgeIsStep(code: Code, g: Graph, a: nat, b: nat) returns (i: nat, j: nat)
    requires IsGraph(code, g) && Linked(g, a, b)
    ensures i < |code| && j < |code| && Step(code, i, j) && Id(code, i) == a && Id(code, j) == b
    ensures EndsAt(code, i) || Pc(code, j) in Handlers(code[i])
  {
    hide Id, Pc, FallsThrough, Handlers, Draws, MayThrow;
    if e :| e in g.regular && e.node == a && e.toNode == b {
      j :| 0 < j < |code| && FallAt(code, j, e);
      i := j - 1;
    } else if e :| e in g.taken && e.node == a && e.toNode == b {
      i :| 0 <= i < |code| && JumpAt(code, i, e);
      j :| 0 <= j < |code| && Pc(code, j) == e.toPc && Id(code, j) == b;
    } else {
      var e :| e in g.exceptions && e.node == a && e.handlerNode == b;
      assert Justified(code, e);
      i :| 0 <= i < |code| && ThrowsAlong(code, i, e);
      j :| 0 <= j < |code| && Pc(code, j) == e.handler && Id(code, j) == b;
    }
  }

  /** Where a run gets into a block but not to one of its instructions, the handlers of that instruction
      are in blocks that runs get into all the same. */
  ghost predicate HandlersAreReached(code: Code) {
    forall i, j :: 0 <= i < |code| && 0 <= j < |code| && Pc(code, j) in Handlers(code[i]) ==>
      BlockReached(code, Id(code, i)) && !Reached(code, i) ==> BlockReached(code, Id(code, j))
  }

  lemma {:induction false} PathIsReached(code: Code, g: Graph, path: seq<nat>)
    requires |code| > 0 && IsGraph(code, g) && HandlersAreReached(code) && IsPath(g, path) && path[0] == 0
    ensures BlockReached(code, path[|path| - 1])
  {
    hide IsGraph, Linked, Id, Reached, EndsAt, Step, Pc, Handlers, BlockReached;
    var n := |path| - 1;
    if n == 0 {
      EntryIsReached(code);
    } else {
      PathIsReached(code, g, path[..n]);
      var i, j := EdgeIsStep(code, g, path[n - 1], path[n]);
      if EndsAt(code, i) {
        LastIsReached(code, i);
      }
      if Reached(code, i) {
        ReachedMore(code, i, j);
        ReachedBlock(code, j);
      }
    }
  }

  lemma {:induction false} ReachedBlock(code: Code, i: nat)
    requires i < |code| && Reached(code, i)
    ensures BlockReached(code, Id(code, i))
  {
    hide Id, Reached;
  }

  lemma {:induction false} EntryIsReached(code: Code)
    requires |code| > 0
    ensures Id(code, 0) == 0 && BlockReached(code, 0)
  {
    assert RunTo(code, [0], 0);
  }

  lemma {:induction false} ReachedHasPath(code: Code, g: Graph, node: nat)
    requires |code| > 0 && IsGraph(code, g) && BlockReached(code, node)
    ensures PathReached(g, node)
  {
    hide IsGraph, Linked, Step, Id;
    var i :| 0 <= i < |code| && Reached(code, i) && Id(code, i) == node;
    var run :| RunTo(code, run, i);
    var path := RunFollowsPath(code, g, run);
    EntryIsReached(code);
    assert PathTo(g, path, node);
  }

  lemma {:induction false} LinkedReached(g: Graph, a: nat, b: nat)
    requires PathReached(g, a) && Linked(g, a, b)
    ensures PathReached(g, b)
  {
    hide Linked;
    var path :| PathTo(g, path, a);
    assert PathTo(g, path + [b], b);
  }

  /** The graph reaches exactly the blocks that runs reach, if and only if handlers are reached where an
      instruction is not. */
  lemma {:induction false} ReachabilityIsExactIff(code: Code, g: Graph)
    requires |code| > 0 && IsGraph(code, g)
    ensures (forall node: nat :: PathReached(g, node) <==> BlockReached(code, node)) <==> HandlersAreReached(code)
  {
    hide IsGraph, Reached, Pc, Handlers, Id, BlockReached;
    if HandlersAreReached(code) {
      forall node: nat
        ensures PathReached(g, node) <==> BlockReached(code, node)
      {
        if PathReached(g, node) {
          var path :| PathTo(g, path, node);
          PathIsReached(code, g, path);
        }
        if BlockReached(code, node) {
          ReachedHasPath(code, g, node);
        }
      }
    }
    if forall node: nat :: PathReached(g, node) <==> BlockReached(code, node) {
      hide PathReached;
      forall i, j | 0 <= i < |code| && 0 <= j < |code| && Pc(code, j) in Handlers(code[i])
                    && BlockReached(code, Id(code, i)) && !Reached(code, i)
        ensures BlockReached(code, Id(code, j))
      {
        ThrowFollowsGraph(code, g, i, j);
        LinkedReached(g, Id(code, i), Id(code, j));
      }
    }
  }

  /** No handler lies in the middle of a block. */
  ghost predicate HandlersStartBlocks(code: Code) {
    forall i, j :: 0 <= i < |code| && 0 <= j < |code| && Pc(code, j) in Handlers(code[i]) ==> IsStart(code, j)
  }

  /** Then a run gets into a block through its first instruction. */
  lemma {:induction false} LeaderIsReached(code: Code, run: seq<nat>, i: nat)
    requires HandlersStartBlocks(code) && i < |code| && RunTo(code, run, i)
    ensures Reached(code, Leader(code, i))
  {
    hide Pc, JumpsTo, Handlers, Id;
    var n := |run| - 1;
    if !IsStart(code, i) {
      assert Step(code, run[n - 1], i);
      assert IsTarget(code, Pc(code, i)) || run[n - 1] == i - 1;
      LeaderIsReached(code, run[..n], i - 1);
    }
  }

  /** Where handlers start blocks, the graph reaches exactly the blocks that runs reach. */
  lemma {:induction false} ReachabilityIsExact(code: Code, g: Graph, node: nat)
    requires |code| > 0 && IsGraph(code, g) && HandlersStartBlocks(code)
    ensures PathReached(g, node) <==> BlockReached(code, node)
  {
    hide IsGraph, Reached, PathReached, Pc, Handlers, Id, HandlersStartBlocks;
    forall i, j | 0 <= i < |code| && 0 <= j < |code| && Pc(code, j) in Handlers(code[i])
        && BlockReached(code, Id(code, i))
      ensures Reached(code, i)
    {
      WholeBlockIsReached(code, i);
    }
    ReachabilityIsExactIff(code, g);
  }

  lemma {:induction false} WholeBlockIsReached(code: Code, i: nat)
    requires i < |code| && HandlersStartBlocks(code) && BlockReached(code, Id(code, i))
    ensures Reached(code, i)
  {
    hide Id, HandlersStartBlocks, Step, IsRun;
    var k :| 0 <= k < |code| && Reached(code, k) && Id(code, k) == Id(code, i);
    var run :| RunTo(code, run, k);
    LeaderIsReached(code, run, k);
    SameBlock(code, k, i);
    ReachedInside(code, Leader(code, i), i);
  }

  /** A throw whose handler is in the middle of the next block, whose first instruction could throw
      to the last one. */
  const MID_BLOCK_HANDLER: Code :=
    [Insn(1, Throw, [2]), Insn(1, Plain, [3]), Insn(1, Return, []), Insn(1, Return, [])]

  lemma {:induction false} FourPcs()
    ensures var c := MID_BLOCK_HANDLER;
            |c| == 4 && Pc(c, 0) == 0 && Pc(c, 1) == 1 && Pc(c, 2) == 2 && Pc(c, 3) == 3
  {
    var c := MID_BLOCK_HANDLER;
    assert Pc(c, 1) == Pc(c, 0) + 1;
    assert Pc(c, 2) == Pc(c, 1) + 1;
    assert Pc(c, 3) == Pc(c, 2) + 1;
  }

  lemma {:induction false} FourIds()
    ensures var c := MID_BLOCK_HANDLER;
            Id(c, 0) == 0 && Id(c, 1) == 1 && Id(c, 2) == 1 && Id(c, 3) == 2
  {
    var c := MID_BLOCK_HANDLER;
    assert IsStart(c, 1) && !IsStart(c, 2) && IsStart(c, 3) by {
      assert forall k :: 0 <= k < 4 ==> JumpsTo(c[k].kind) == {};
    }
    assert Id(c, 1) == Id(c, 0) + 1;
    assert Id(c, 2) == Id(c, 1);
    assert Id(c, 3) == Id(c, 2) + 1;
  }

  /** In general the graph may reach too much: entering a block in its middle is drawn like entering it
      at its start. */
  lemma {:induction false} MidBlockHandlerReachesTooMuch(g: Graph)
    requires IsGraph(MID_BLOCK_HANDLER, g)
    ensures PathReached(g, 2) && !BlockReached(MID_BLOCK_HANDLER, 2)
    ensures !HandlersAreReached(MID_BLOCK_HANDLER)
  {
    hide IsGraph, Linked, Id, IsStart, HandlersAreReached;
    var c := MID_BLOCK_HANDLER;
    FourPcs();
    FourIds();
    ThrowFollowsGraph(c, g, 0, 2);
    ThrowFollowsGraph(c, g, 1, 3);
    assert PathTo(g, [0, 1, 2], 2);
    forall run, i: nat | RunTo(c, run, i)
      ensures i < 4 && Id(c, i) != 2
    {
      OnlyFirstAndThird(run);
    }
    ReachabilityIsExactIff(c, g);
  }

  lemma {:induction false} OnlyFirstAndThird(run: seq<nat>)
    requires IsRun(MID_BLOCK_HANDLER, run) && run[0] == 0
    ensures run[|run| - 1] == 0 || run[|run| - 1] == 2
  {
    var c, n := MID_BLOCK_HANDLER, |run| - 1;
    if n > 0 {
      hide Pc;
      FourPcs();
      OnlyFirstAndThird(run[..n]);
      assert Step(c, run[n - 1], run[n]);
    }
  }
}
