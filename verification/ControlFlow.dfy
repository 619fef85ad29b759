/**
 The control-flow graph of a method: blocks, fall-through and taken edges, and exception edges that
 are drawn once per block where one set of handlers will do.
 */
module ControlFlow {
  import opened Leb128

  datatype Kind = Plain | Return | Throw | Branch(conditional: bool, target: nat) | Switch(targets: seq<nat>)

  /** Handlers are the addresses that a throw here may continue at, in the order they are tried. */
  datatype Insn = Insn(size: nat, kind: Kind, handlers: seq<nat>)

  type Code = c: seq<Insn> | forall i :: 0 <= i < |c| ==> c[i].size > 0

  function Pc(code: Code, i: nat): nat
    requires i <= |code|
  {
    if i == 0 then 0 else Pc(code, i - 1) + code[i - 1].size
  }

  lemma {:induction false} PcGrows(code: Code, i: nat, j: nat)
    requires i < j <= |code|
    ensures Pc(code, i) < Pc(code, j)
  {
    if i < j - 1 {
      PcGrows(code, i, j - 1);
    }
  }

  lemma {:induction false} PcIsUnique(code: Code, i: nat, j: nat)
    requires i <= |code| && j <= |code| && Pc(code, i) == Pc(code, j)
    ensures i == j
  {
    if i < j {
      PcGrows(code, i, j);
    } else if j < i {
      PcGrows(code, j, i);
    }
  }

  function JumpsTo(k: Kind): set<nat> {
    match k
    case Branch(_, t) => {t}
    case Switch(ts) => set t | t in ts
    case _ => {}
  }

  function Handlers(insn: Insn): set<nat> {
    set h | h in insn.handlers
  }

  predicate IsBasicBlockEnd(k: Kind) {
    k.Branch? || k.Return? || k.Throw?
  }

  predicate EndsBlock(k: Kind) {
    k.Switch? || IsBasicBlockEnd(k)
  }

  /** Control may go on to the next instruction. */
  predicate FallsThrough(k: Kind) {
    k.Plain? || k.Switch? || (k.Branch? && k.conditional)
  }

  // ---- what the blocks should be

  ghost predicate IsTarget(code: Code, pc: nat) {
    exists k :: 0 <= k < |code| && pc in JumpsTo(code[k].kind)
  }

  ghost predicate IsStart(code: Code, i: nat)
    requires i < |code|
  {
    i == 0 || IsTarget(code, Pc(code, i)) || !code[i - 1].kind.Plain?
  }

  /** The first instruction of the block that instruction i is in. */
  ghost function Leader(code: Code, i: nat): (l: nat)
    requires i < |code|
    ensures l <= i && IsStart(code, l)
  {
    if IsStart(code, i) then i else Leader(code, i - 1)
  }

  /** Blocks are numbered in the order of their first instructions. */
  ghost function Id(code: Code, i: nat): nat
    requires i < |code|
  {
    if i == 0 then 0 else Id(code, i - 1) + (if IsStart(code, i) then 1 else 0)
  }

  lemma {:induction false} IdOfLeader(code: Code, i: nat)
    requires i < |code|
    ensures Id(code, Leader(code, i)) == Id(code, i)
  {
    if !IsStart(code, i) {
      IdOfLeader(code, i - 1);
    }
  }

  lemma {:induction false} IdGrows(code: Code, i: nat, j: nat)
    requires i < j < |code|
    ensures Id(code, i) <= Id(code, j) && Leader(code, i) <= Leader(code, j)
    ensures IsStart(code, j) ==> Id(code, i) < Id(code, j)
    ensures Leader(code, i) != Leader(code, j) ==> Id(code, i) < Id(code, j)
  {
    if i < j - 1 {
      IdGrows(code, i, j - 1);
    }
  }

  /** Two instructions share a number exactly when they share a first instruction. */
  lemma {:induction false} SameBlock(code: Code, i: nat, j: nat)
    requires i < |code| && j < |code|
    ensures Id(code, i) == Id(code, j) <==> Leader(code, i) == Leader(code, j)
  {
    IdOfLeader(code, i);
    IdOfLeader(code, j);
    if i < j {
      IdGrows(code, i, j);
    } else if j < i {
      IdGrows(code, j, i);
    }
  }

  /** Inside a block control only falls through from one instruction to the next. */
  lemma {:induction false} InsideIsPlain(code: Code, i: nat)
    requires 0 < i < |code| && Leader(code, i) != i
    ensures code[i - 1].kind.Plain? && Leader(code, i - 1) == Leader(code, i)
  {
  }

  // ---- finding the blocks

  method BranchTargets(code: Code) returns (targets: set<nat>)
    ensures forall pc :: pc in targets <==> IsTarget(code, pc)
  {
    targets := {};
    for i := 0 to |code|
      invariant forall pc :: pc in targets ==> IsTarget(code, pc)
      invariant forall k :: 0 <= k < i ==> JumpsTo(code[k].kind) <= targets
    {
      var insn := code[i];
      if insn.kind.Branch? {
        targets := targets + {insn.kind.target};
      } else if insn.kind.Switch? {
        for t := 0 to |insn.kind.targets|
          invariant forall pc :: pc in targets ==> IsTarget(code, pc)
          invariant forall k :: 0 <= k < i ==> JumpsTo(code[k].kind) <= targets
          invariant forall u :: 0 <= u < t ==> insn.kind.targets[u] in targets
        {
          assert insn.kind.targets[t] in JumpsTo(insn.kind);
          targets := targets + {insn.kind.targets[t]};
        }
      }
    }
  }

  /** Every block start among the first n instructions, and nothing else, has its number. */
  ghost predicate Numbered(code: Code, n: nat, nodeOf: map<nat, nat>)
    requires n <= |code|
  {
    && (forall i :: 0 <= i < n && IsStart(code, i) ==> Pc(code, i) in nodeOf && nodeOf[Pc(code, i)] == Id(code, i))
    && (forall pc :: pc in nodeOf ==> exists i :: 0 <= i < n && IsStart(code, i) && Pc(code, i) == pc)
  }

  /** Every one of the first n instructions, and nothing else, has the number of its block. */
  ghost predicate Included(code: Code, n: nat, inclOf: map<nat, nat>)
    requires n <= |code|
  {
    && (forall i :: 0 <= i < n ==> Pc(code, i) in inclOf && inclOf[Pc(code, i)] == Id(code, i))
    && (forall pc :: pc in inclOf ==> exists i :: 0 <= i < n && Pc(code, i) == pc)
  }

  lemma {:induction false} NotYetNumbered(code: Code, n: nat, nodeOf: map<nat, nat>)
    requires n < |code| && Numbered(code, n, nodeOf)
    ensures Pc(code, n) !in nodeOf
  {
    hide IsStart, Id;
    if Pc(code, n) in nodeOf {
      var i :| 0 <= i < n && IsStart(code, i) && Pc(code, i) == Pc(code, n);
      PcGrows(code, i, n);
    }
  }

  lemma {:induction false} NumberMore(code: Code, n: nat, nodeOf: map<nat, nat>)
    requires n < |code| && Numbered(code, n, nodeOf)
    ensures Numbered(code, n + 1, if IsStart(code, n) then nodeOf[Pc(code, n) := Id(code, n)] else nodeOf)
  {
    hide IsStart, Id, Pc;
    NotYetNumbered(code, n, nodeOf);
  }

  lemma {:induction false} IncludeMore(code: Code, n: nat, inclOf: map<nat, nat>)
    requires n < |code| && Included(code, n, inclOf)
    ensures Included(code, n + 1, inclOf[Pc(code, n) := Id(code, n)])
  {
    hide Id, Pc;
    forall i | 0 <= i < n
      ensures Pc(code, i) != Pc(code, n)
    {
      PcGrows(code, i, n);
    }
  }

  method FindBlocks(code: Code, targets: set<nat>) returns (nodeOf: map<nat, nat>, inclOf: map<nat, nat>)
    requires forall pc :: pc in targets <==> IsTarget(code, pc)
    ensures Numbered(code, |code|, nodeOf) && Included(code, |code|, inclOf)
  {
    hide Numbered, Included, IsTarget;
    nodeOf, inclOf := map[], map[];
    NothingNumbered(code);
    var forceNewBlock := false;
    var pc := 0;
    for i := 0 to |code|
      invariant pc == Pc(code, i) && Numbered(code, i, nodeOf) && Included(code, i, inclOf)
      invariant |nodeOf| == if i == 0 then 0 else Id(code, i - 1) + 1
      invariant i > 0 ==> forceNewBlock == EndsBlock(code[i - 1].kind)
    {
      PcGrowsFromZero(code, i);
      NumberMore(code, i, nodeOf);
      NotYetNumbered(code, i, nodeOf);
      IncludeMore(code, i, inclOf);
      if pc == 0 || pc in targets || forceNewBlock {
        nodeOf := nodeOf[pc := |nodeOf|];
        forceNewBlock := false;
      }
      inclOf := inclOf[pc := |nodeOf| - 1];
      forceNewBlock := EndsBlock(code[i].kind);
      pc := pc + code[i].size;
    }
  }

  lemma {:induction false} NothingNumbered(code: Code)
    ensures Numbered(code, 0, map[]) && Included(code, 0, map[])
  {
  }

  lemma {:induction false} PcGrowsFromZero(code: Code, i: nat)
    requires i < |code|
    ensures Pc(code, i) == 0 <==> i == 0
  {
    if i > 0 {
      PcGrows(code, 0, i);
    }
  }

  // ---- what the edges should be

  datatype Edge = Edge(node: nat, pc: nat, toNode: nat, toPc: nat)

  /** Control falls into instruction k, which starts a block. */
  ghost predicate FallAt(code: Code, k: nat, e: Edge)
    requires 0 < k < |code|
  {
    && IsStart(code, k) && FallsThrough(code[k - 1].kind)
    && e == Edge(Id(code, k - 1), Pc(code, k - 1), Id(code, k), Pc(code, k))
  }

  /** Instruction k jumps to an address where an instruction starts. */
  ghost predicate JumpAt(code: Code, k: nat, e: Edge)
    requires k < |code|
  {
    && e.toPc in JumpsTo(code[k].kind) && InsnAt(code, e.toNode, e.toPc)
    && e.node == Id(code, k) && e.pc == Pc(code, k)
  }

  /** There is an instruction at this address, in this block. */
  ghost predicate InsnAt(code: Code, node: nat, pc: nat) {
    exists k :: 0 <= k < |code| && Pc(code, k) == pc && Id(code, k) == node
  }

  ghost predicate RegularUpTo(code: Code, n: nat, edges: seq<Edge>)
    requires n <= |code|
  {
    forall e :: e in edges <==> exists k :: 0 < k < n && FallAt(code, k, e)
  }

  ghost predicate TakenUpTo(code: Code, n: nat, edges: seq<Edge>)
    requires n <= |code|
  {
    forall e :: e in edges <==> exists k :: 0 <= k < n && JumpAt(code, k, e)
  }

  ghost predicate Distinct<T>(s: seq<T>) {
    forall i, j :: 0 <= i < j < |s| ==> s[i] != s[j]
  }

  lemma {:induction false} DistinctAppend<T>(a: seq<T>, b: seq<T>)
    requires Distinct(a) && Distinct(b) && forall x :: x in a ==> x !in b
    ensures Distinct(a + b)
  {
    assert forall i :: 0 <= i < |a| ==> a[i] in a;
  }

  /** The targets of a jump, one for each case of a switch. */
  ghost function TargetsOf(k: Kind): seq<nat> {
    match k
    case Branch(_, t) => [t]
    case Switch(ts) => ts
    case _ => []
  }

  /** A taken edge is drawn as often as its instruction has the target. */
  ghost predicate Counted(code: Code, n: nat, edges: seq<Edge>)
    requires n <= |code|
  {
    forall k, e :: 0 <= k < n && JumpAt(code, k, e) ==> CountedAt(code, k, edges, e)
  }

  ghost predicate CountedAt(code: Code, k: nat, edges: seq<Edge>, e: Edge)
    requires k < |code|
  {
    multiset(edges)[e] == multiset(TargetsOf(code[k].kind))[e.toPc]
  }

  datatype ExceptionEdge =
    | FromBlock(node: nat, handlerNode: nat, handler: nat)
    | FromInsn(node: nat, pc: nat, handlerNode: nat, handler: nat)

  /** Some instruction of the edge's block can throw to this handler. */
  ghost predicate Justified(code: Code, e: ExceptionEdge) {
    exists j :: 0 <= j < |code| && ThrowsAlong(code, j, e)
  }

  ghost predicate ThrowsAlong(code: Code, j: nat, e: ExceptionEdge)
    requires j < |code|
  {
    && Id(code, j) == e.node && e.handler in Handlers(code[j]) && InsnAt(code, e.handlerNode, e.handler)
    && (e.FromInsn? ==> e.pc == Pc(code, j))
  }

  ghost predicate IsPc(code: Code, pc: nat) {
    exists k :: 0 <= k < |code| && Pc(code, k) == pc
  }

  /** Every handler of instruction j is reached by an edge of its block. */
  ghost predicate Covered(code: Code, edges: seq<ExceptionEdge>, j: nat)
    requires j < |code|
  {
    forall h :: h in Handlers(code[j]) && IsPc(code, h) ==>
      exists e :: e in edges && e.FromBlock? && e.node == Id(code, j) && e.handler == h
  }

  /** Every handler of instruction j is reached by an edge of its own. */
  ghost predicate CoveredItself(code: Code, edges: seq<ExceptionEdge>, j: nat)
    requires j < |code|
  {
    forall h :: h in Handlers(code[j]) && IsPc(code, h) ==>
      exists e :: e in edges && e.FromInsn? && e.node == Id(code, j) && e.pc == Pc(code, j) && e.handler == h
  }

  /** A handler of the instruction before it, in the same block, is missing here. */
  ghost predicate LosesHandler(code: Code, j: nat)
    requires j < |code|
  {
    0 < j && Leader(code, j) != j && !(Handlers(code[j - 1]) <= Handlers(code[j]))
  }

  /** The blocks singled out are those in which some instruction loses a handler. */
  ghost predicate DetailedUpTo(code: Code, n: nat, detailed: set<nat>)
    requires n <= |code|
  {
    && (forall j :: 0 <= j < n && LosesHandler(code, j) ==> Pc(code, Leader(code, j)) in detailed)
    && (forall pc :: pc in detailed ==>
          exists j :: 0 <= j < n && LosesHandler(code, j) && pc == Pc(code, Leader(code, j)))
  }

  // ---- one instruction at a time

  lemma {:induction false} NodeHere(code: Code, nodeOf: map<nat, nat>, i: nat)
    requires i < |code| && Numbered(code, |code|, nodeOf)
    ensures Pc(code, i) in nodeOf <==> IsStart(code, i)
    ensures Pc(code, i) in nodeOf ==> nodeOf[Pc(code, i)] == Id(code, i)
  {
    hide IsStart, Id;
    if Pc(code, i) in nodeOf {
      var j :| 0 <= j < |code| && IsStart(code, j) && Pc(code, j) == Pc(code, i);
      PcIsUnique(code, i, j);
    }
  }

  /** A jump target is in the block table exactly when an instruction starts there. */
  lemma {:induction false} TargetNode(code: Code, nodeOf: map<nat, nat>, k: nat, t: nat)
    requires k < |code| && Numbered(code, |code|, nodeOf) && t in JumpsTo(code[k].kind)
    ensures t in nodeOf <==> IsPc(code, t)
    ensures t in nodeOf ==> InsnAt(code, nodeOf[t], t)
    ensures forall node :: InsnAt(code, node, t) ==> t in nodeOf && node == nodeOf[t]
  {
    hide Id, JumpsTo, Pc;
    forall j | 0 <= j < |code| && Pc(code, j) == t
      ensures t in nodeOf && nodeOf[t] == Id(code, j)
    {
      assert IsTarget(code, t);
      assert IsStart(code, j);
    }
  }

  lemma {:induction false} HandlerNode(code: Code, inclOf: map<nat, nat>, h: nat)
    requires Included(code, |code|, inclOf)
    ensures h in inclOf <==> IsPc(code, h)
    ensures h in inclOf ==> InsnAt(code, inclOf[h], h)
  {
    hide Id, Pc;
  }

  method AddTaken(code: Code, ghost i: nat, pc: nat, target: nat, lastNode: nat, nodeOf: map<nat, nat>)
    returns (edges: seq<Edge>)
    requires i < |code| && Numbered(code, |code|, nodeOf) && pc == Pc(code, i) && lastNode == Id(code, i)
    requires target in JumpsTo(code[i].kind)
    ensures |edges| <= 1 && forall e :: e in edges <==> JumpAt(code, i, e) && e.toPc == target
  {
    hide Numbered, InsnAt, IsPc, Id, Pc, JumpsTo;
    TargetNode(code, nodeOf, i, target);
    edges := [];
    if target in nodeOf {
      edges := [Edge(lastNode, pc, nodeOf[target], target)];
    }
  }

  /** Edges to the targets of a branch or switch that are known block starts. */
  method TakenEdges(code: Code, i: nat, pc: nat, lastNode: nat, nodeOf: map<nat, nat>) returns (edges: seq<Edge>)
    requires i < |code| && Numbered(code, |code|, nodeOf) && pc == Pc(code, i) && lastNode == Id(code, i)
    ensures forall e :: e in edges <==> JumpAt(code, i, e)
    ensures forall e :: JumpAt(code, i, e) ==> CountedAt(code, i, edges, e)
  {
    hide Numbered, InsnAt, IsPc, Id, Pc;
    edges := [];
    var kind := code[i].kind;
    if kind.Branch? {
      edges := AddTaken(code, i, pc, kind.target, lastNode, nodeOf);
      OneTaken(code, i, edges, kind.target);
    } else if kind.Switch? {
      for t := 0 to |kind.targets|
        invariant forall e :: e in edges <==> JumpAt(code, i, e) && e.toPc in kind.targets[..t]
        invariant forall e :: JumpAt(code, i, e) ==> multiset(edges)[e] == multiset(kind.targets[..t])[e.toPc]
      {
        assert kind.targets[t] in JumpsTo(kind);
        var more := AddTaken(code, i, pc, kind.targets[t], lastNode, nodeOf);
        assert kind.targets[..t + 1] == kind.targets[..t] + [kind.targets[t]];
        OneTaken(code, i, more, kind.targets[t]);
        edges := edges + more;
      }
      assert kind.targets[..|kind.targets|] == kind.targets;
    }
  }

  lemma {:induction false} OneTaken(code: Code, i: nat, edges: seq<Edge>, target: nat)
    requires i < |code| && |edges| <= 1 && forall e :: e in edges <==> JumpAt(code, i, e) && e.toPc == target
    ensures forall e :: JumpAt(code, i, e) ==> multiset(edges)[e] == multiset([target])[e.toPc]
  {
    hide JumpAt;
    forall e | JumpAt(code, i, e)
      ensures multiset(edges)[e] == multiset([target])[e.toPc]
    {
      if |edges| == 1 {
        assert edges == [edges[0]];
      }
    }
  }

  lemma {:induction false} CountMore(code: Code, n: nat, edges: seq<Edge>, more: seq<Edge>)
    requires n < |code| && Counted(code, n, edges) && TakenUpTo(code, n, edges)
    requires forall e :: e in more <==> JumpAt(code, n, e)
    requires forall e :: JumpAt(code, n, e) ==> CountedAt(code, n, more, e)
    ensures Counted(code, n + 1, edges + more)
  {
    hide TargetsOf, InsnAt, JumpsTo, Id, Pc;
    forall k, e | 0 <= k < n + 1 && JumpAt(code, k, e)
      ensures CountedAt(code, k, edges + more, e)
    {
      if k < n {
        PcGrows(code, k, n);
        assert e !in more;
      } else {
        forall j | 0 <= j < n
          ensures !JumpAt(code, j, e)
        {
          PcGrows(code, j, n);
        }
        assert e !in edges;
      }
    }
  }

  /** The edges a whole block shares. */
  method CommonEdges(targets: set<nat>, node: nat, inclOf: map<nat, nat>) returns (edges: seq<ExceptionEdge>)
    ensures CommonTo(edges, targets, node, inclOf) && Distinct(edges)
  {
    edges := [];
    var left := targets;
    while left != {}
      invariant left <= targets && Distinct(edges)
      invariant CommonTo(edges, targets - left, node, inclOf)
    {
      var h :| h in left;
      left := left - {h};
      if h in inclOf {
        edges := edges + [FromBlock(node, inclOf[h], h)];
      }
    }
  }

  /** The edges of one instruction. */
  method OwnEdges(handlers: seq<nat>, node: nat, pc: nat, inclOf: map<nat, nat>) returns (edges: seq<ExceptionEdge>)
    ensures OwnTo(edges, handlers, node, pc, inclOf) && Distinct(edges)
  {
    edges := [];
    var handled := {};
    for i := 0 to |handlers|
      invariant Distinct(edges)
      invariant forall h :: h in handled <==> h in handlers[..i]
      invariant OwnTo(edges, handlers[..i], node, pc, inclOf)
    {
      var h := handlers[i];
      assert handlers[..i + 1] == handlers[..i] + [h];
      if h !in handled {
        if h in inclOf {
          edges := edges + [FromInsn(node, pc, inclOf[h], h)];
        }
        handled := handled + {h};
      }
    }
    assert handlers[..|handlers|] == handlers;
  }

  // ---- the first pass

  /** After n instructions, with the current block's handlers not yet drawn. */
  ghost predicate Pending(code: Code, n: nat, edges: seq<ExceptionEdge>, targets: set<nat>, blockStart: nat,
                          detailed: set<nat>)
    requires 0 < n <= |code|
  {
    && blockStart == Pc(code, Leader(code, n - 1))
    && (targets == Handlers(code[n - 1]) || (targets == {} && blockStart in detailed))
    && DetailedUpTo(code, n, detailed)
    && (forall e :: e in edges ==> Justified(code, e))
    && (forall j :: 0 <= j < n && Leader(code, j) < Leader(code, n - 1) && Pc(code, Leader(code, j)) !in detailed ==>
        Covered(code, edges, j))
  }

  /** After n instructions, with everything drawn that the first pass draws. */
  ghost predicate Drawn(code: Code, n: nat, edges: seq<ExceptionEdge>, detailed: set<nat>)
    requires n <= |code|
  {
    && DetailedUpTo(code, n, detailed)
    && (forall e :: e in edges ==> Justified(code, e))
    && (forall j :: 0 <= j < n && Pc(code, Leader(code, j)) !in detailed ==> Covered(code, edges, j))
  }

  /** As long as no handler is lost, handlers only accumulate along a block. */
  lemma {:induction false} HandlersAccumulate(code: Code, j: nat, m: nat)
    requires j <= m < |code| && Leader(code, j) == Leader(code, m)
    requires forall k :: j < k <= m ==> !LosesHandler(code, k)
    ensures Handlers(code[j]) <= Handlers(code[m])
  {
    hide IsStart, Handlers;
    if j < m {
      SharedLeader(code, j, m);
      assert !LosesHandler(code, m);
      HandlersAccumulate(code, j, m - 1);
    }
  }

  lemma {:induction false} SharedLeader(code: Code, j: nat, m: nat)
    requires j < m < |code| && Leader(code, j) == Leader(code, m)
    ensures Leader(code, m) != m && Leader(code, m - 1) == Leader(code, m)
    ensures forall k :: j <= k <= m ==> Leader(code, k) == Leader(code, m)
  {
    hide IsStart, Id;
    forall k | j <= k <= m
      ensures Leader(code, k) == Leader(code, m)
    {
      if j < k { IdGrows(code, j, k); }
      if k < m { IdGrows(code, k, m); }
    }
  }

  lemma {:induction false} CoveredMore(code: Code, edges: seq<ExceptionEdge>, more: seq<ExceptionEdge>, j: nat)
    requires j < |code| && Covered(code, edges, j)
    ensures Covered(code, edges + more, j)
  {
    hide Handlers, IsPc, Id;
    forall h | h in Handlers(code[j]) && IsPc(code, h)
      ensures exists e :: e in edges + more && e.FromBlock? && e.node == Id(code, j) && e.handler == h
    {
      var e :| e in edges && e.FromBlock? && e.node == Id(code, j) && e.handler == h;
      assert e in edges + more;
    }
  }

  ghost predicate CommonTo(edges: seq<ExceptionEdge>, targets: set<nat>, node: nat, inclOf: map<nat, nat>) {
    forall e :: e in edges <==>
      e.FromBlock? && e.node == node && e.handler in targets && e.handler in inclOf
          && e.handlerNode == inclOf[e.handler]
  }

  lemma {:induction false} CommonAreJustified(code: Code, n: nat, inclOf: map<nat, nat>, targets: set<nat>,
                                              more: seq<ExceptionEdge>)
    requires 0 < n <= |code| && Included(code, |code|, inclOf) && targets <= Handlers(code[n - 1])
    requires CommonTo(more, targets, Id(code, n - 1), inclOf)
    ensures forall e :: e in more ==> Justified(code, e)
  {
    hide Included, Id, Pc, InsnAt, IsPc;
    forall e | e in more
      ensures Justified(code, e)
    {
      HandlerNode(code, inclOf, e.handler);
      assert ThrowsAlong(code, n - 1, e);
    }
  }

  lemma {:induction false} CommonCover(code: Code, n: nat, inclOf: map<nat, nat>, targets: set<nat>,
                                       more: seq<ExceptionEdge>, j: nat)
    requires 0 < n <= |code| && Included(code, |code|, inclOf) && targets == Handlers(code[n - 1])
    requires CommonTo(more, targets, Id(code, n - 1), inclOf)
    requires j < n && Leader(code, j) == Leader(code, n - 1) && Handlers(code[j]) <= targets
    ensures Covered(code, more, j)
  {
    hide Included, Id, Pc, InsnAt, IsPc, Leader, Handlers;
    SameBlock(code, j, n - 1);
    forall h | h in Handlers(code[j]) && IsPc(code, h)
      ensures exists e :: e in more && e.FromBlock? && e.node == Id(code, j) && e.handler == h
    {
      HandlerNode(code, inclOf, h);
      assert FromBlock(Id(code, j), inclOf[h], h) in more;
    }
  }

  lemma {:induction false} CoveredAppend(code: Code, edges: seq<ExceptionEdge>, more: seq<ExceptionEdge>, j: nat)
    requires j < |code| && Covered(code, more, j)
    ensures Covered(code, edges + more, j)
  {
    hide Handlers, IsPc, Id;
    forall h | h in Handlers(code[j]) && IsPc(code, h)
      ensures exists e :: e in edges + more && e.FromBlock? && e.node == Id(code, j) && e.handler == h
    {
      var e :| e in more && e.FromBlock? && e.node == Id(code, j) && e.handler == h;
      assert e in edges + more;
    }
  }

  /** Drawing the accumulated handlers completes the block that ends here. */
  lemma {:induction false} DrawKeeps(code: Code, n: nat, edges: seq<ExceptionEdge>, targets: set<nat>, blockStart: nat,
                                     detailed: set<nat>, inclOf: map<nat, nat>, more: seq<ExceptionEdge>)
    requires 0 < n <= |code| && Pending(code, n, edges, targets, blockStart, detailed) && Included(code, |code|, inclOf)
    requires CommonTo(more, targets, Id(code, n - 1), inclOf)
    ensures Drawn(code, n, edges + more, detailed)
  {
    hide Included, Id, Pc, Justified, Covered, Handlers, CommonTo, LosesHandler, Leader;
    CommonAreJustified(code, n, inclOf, targets, more);
    forall j | 0 <= j < n && Pc(code, Leader(code, j)) !in detailed
      ensures Covered(code, edges + more, j)
    {
      if j < n - 1 { IdGrows(code, j, n - 1); }
      if Leader(code, j) < Leader(code, n - 1) {
        CoveredMore(code, edges, more, j);
      } else {
        NothingLost(code, n, detailed, j);
        HandlersAccumulate(code, j, n - 1);
        CommonCover(code, n, inclOf, targets, more, j);
        CoveredAppend(code, edges, more, j);
      }
    }
  }

  lemma {:induction false} NothingLost(code: Code, n: nat, detailed: set<nat>, j: nat)
    requires 0 < n <= |code| && DetailedUpTo(code, n, detailed) && j < n && Leader(code, j) == Leader(code, n - 1)
    requires Pc(code, Leader(code, j)) !in detailed
    ensures forall k :: j < k <= n - 1 ==> !LosesHandler(code, k)
  {
    hide IsStart, Pc, LosesHandler;
    if j < n - 1 {
      SharedLeader(code, j, n - 1);
    }
  }

  lemma {:induction false} StartKeeps(code: Code, n: nat, edges: seq<ExceptionEdge>, detailed: set<nat>)
    requires n < |code| && IsStart(code, n) && Drawn(code, n, edges, detailed)
    ensures Pending(code, n + 1, edges, Handlers(code[n]), Pc(code, n), detailed)
  {
    hide Pc, Justified, Covered, Handlers, IsStart;
    assert Leader(code, n) == n && !LosesHandler(code, n);
    hide LosesHandler;
  }

  ghost function Kept(targets: set<nat>, current: set<nat>): set<nat> {
    if targets + current != current then {} else targets + current
  }

  lemma {:induction false} InsideKeeps(code: Code, n: nat, edges: seq<ExceptionEdge>, targets: set<nat>,
                                       blockStart: nat, detailed: set<nat>)
    requires 0 < n < |code| && !IsStart(code, n) && Pending(code, n, edges, targets, blockStart, detailed)
    ensures var current := Handlers(code[n]);
            Pending(code, n + 1, edges, Kept(targets, current), blockStart,
                    if targets + current != current then detailed + {blockStart} else detailed)
  {
    hide Pc, Justified, Covered, Handlers, IsStart;
    var current := Handlers(code[n]);
    assert Leader(code, n) == Leader(code, n - 1) != n;
    assert LosesHandler(code, n) <==> !(Handlers(code[n - 1]) <= current);
    assert targets + current == current <==> targets <= current;
    hide LosesHandler, Leader;
  }

  lemma {:induction false} RegularMore(code: Code, n: nat, edges: seq<Edge>, lastNode: Option<nat>)
    requires n < |code| && RegularUpTo(code, n, edges) && (n == 0 ==> lastNode == None)
    requires n > 0 ==> lastNode == if FallsThrough(code[n - 1].kind) then Some(Id(code, n - 1)) else None
    ensures if n > 0 && lastNode.Some? && IsStart(code, n)
            then RegularUpTo(code, n + 1, edges + [Edge(lastNode.value, Pc(code, n - 1), Id(code, n), Pc(code, n))])
            else RegularUpTo(code, n + 1, edges)
  {
    hide IsStart, Id, Pc, FallsThrough;
    if n > 0 && lastNode.Some? && IsStart(code, n) {
      var e' := Edge(lastNode.value, Pc(code, n - 1), Id(code, n), Pc(code, n));
      assert FallAt(code, n, e');
    }
  }

  lemma {:induction false} TakenMore(code: Code, n: nat, edges: seq<Edge>, more: seq<Edge>)
    requires n < |code| && TakenUpTo(code, n, edges) && forall e :: e in more <==> JumpAt(code, n, e)
    ensures TakenUpTo(code, n + 1, edges + more)
  {
    hide JumpAt;
  }

  lemma {:induction false} NothingDrawn(code: Code)
    ensures RegularUpTo(code, 0, []) && TakenUpTo(code, 0, []) && Drawn(code, 0, [], {})
    ensures Leads([], 0) && Counted(code, 0, [])
  {
  }

  lemma {:induction false} InsideStart(code: Code, i: nat)
    requires i < |code| && !IsStart(code, i)
    ensures i > 0 && code[i - 1].kind.Plain? && Id(code, i) == Id(code, i - 1)
  {
  }

  lemma {:induction false} StartIsBefore(code: Code, i: nat, edges: seq<ExceptionEdge>, targets: set<nat>,
                                         blockStart: nat, detailed: set<nat>)
    requires 0 < i < |code| && !IsStart(code, i) && Pending(code, i, edges, targets, blockStart, detailed)
    ensures blockStart != Pc(code, i)
  {
    hide IsStart, DetailedUpTo, Justified, Covered;
    PcGrows(code, Leader(code, i - 1), i);
  }

  lemma {:induction false} PendingNode(code: Code, n: nat, edges: seq<ExceptionEdge>, targets: set<nat>,
                                       blockStart: nat, detailed: set<nat>, nodeOf: map<nat, nat>)
    requires 0 < n <= |code| && Pending(code, n, edges, targets, blockStart, detailed) && Numbered(code, |code|, nodeOf)
    ensures blockStart in nodeOf && nodeOf[blockStart] == Id(code, n - 1)
  {
    hide DetailedUpTo, Justified, Covered, Numbered;
    NodeHere(code, nodeOf, Leader(code, n - 1));
    IdOfLeader(code, n - 1);
  }

  lemma {:induction false} NothingInCommon(node: nat, inclOf: map<nat, nat>)
    ensures CommonTo([], {}, node, inclOf)
  {
  }

  /** No edge is drawn twice, and all are edges of blocks below this one. */
  ghost predicate OfBlocks(edges: seq<ExceptionEdge>, node: nat) {
    Distinct(edges) && forall e :: e in edges ==> e.FromBlock? && e.node < node
  }

  lemma {:induction false} OneBlockMore(edges: seq<ExceptionEdge>, more: seq<ExceptionEdge>, node: nat,
                                        targets: set<nat>, inclOf: map<nat, nat>)
    requires OfBlocks(edges, node) && CommonTo(more, targets, node, inclOf) && Distinct(more)
    ensures OfBlocks(edges + more, node + 1)
  {
    DistinctAppend(edges, more);
  }

  method FlushBlock(code: Code, ghost n: nat, edges: seq<ExceptionEdge>, targets: set<nat>, blockStart: nat,
                    ghost detailed: set<nat>, nodeOf: map<nat, nat>, inclOf: map<nat, nat>)
    returns (all: seq<ExceptionEdge>)
    requires n <= |code| && Numbered(code, |code|, nodeOf) && Included(code, |code|, inclOf)
    requires n == 0 ==> Drawn(code, 0, edges, detailed) && targets == {} && edges == []
    requires n > 0 ==> Pending(code, n, edges, targets, blockStart, detailed) && OfBlocks(edges, Id(code, n - 1))
    ensures Drawn(code, n, all, detailed)
    ensures if n == 0 then all == [] else OfBlocks(all, Id(code, n - 1) + 1)
  {
    hide Numbered, Included, Drawn, Pending, CommonTo, OfBlocks;
    all := edges;
    if n > 0 {
      PendingNode(code, n, edges, targets, blockStart, detailed, nodeOf);
      NothingInCommon(Id(code, n - 1), inclOf);
    }
    if targets != {} {
      var more := CommonEdges(targets, nodeOf[blockStart], inclOf);
      DrawKeeps(code, n, edges, targets, blockStart, detailed, inclOf, more);
      OneBlockMore(edges, more, Id(code, n - 1), targets, inclOf);
      all := all + more;
    } else if n > 0 {
      DrawKeeps(code, n, edges, targets, blockStart, detailed, inclOf, []);
      OneBlockMore(edges, [], Id(code, n - 1), {}, inclOf);
      assert edges + [] == edges;
    }
  }

  /** Draws all regular and taken edges, and the exception edges that whole blocks share. */
  method FirstPass(code: Code, nodeOf: map<nat, nat>, inclOf: map<nat, nat>)
    returns (regular: seq<Edge>, taken: seq<Edge>, exceptions: seq<ExceptionEdge>, detailed: set<nat>)
    requires Numbered(code, |code|, nodeOf) && Included(code, |code|, inclOf)
    ensures RegularUpTo(code, |code|, regular) && TakenUpTo(code, |code|, taken)
        && Drawn(code, |code|, exceptions, detailed)
    ensures Distinct(regular) && Counted(code, |code|, taken)
    ensures Distinct(exceptions) && forall e :: e in exceptions ==> e.FromBlock?
  {
    hide Numbered, Included, RegularUpTo, TakenUpTo, Drawn, Pending, IsStart, JumpAt, CommonTo, Handlers, OfBlocks,
        Counted, CountedAt, Leads;
    regular, taken, exceptions, detailed := [], [], [], {};
    NothingDrawn(code);
    var targets: set<nat> := {};
    var lastNode: Option<nat> := None;
    var oldPc: nat, pc: nat, blockStart: nat := 0, 0, 0;
    for i := 0 to |code|
      invariant pc == Pc(code, i) && RegularUpTo(code, i, regular) && TakenUpTo(code, i, taken)
      invariant Leads(regular, pc) && Counted(code, i, taken)
      invariant i == 0 ==> Drawn(code, 0, exceptions, detailed) && targets == {} && lastNode == None
      invariant i == 0 ==> exceptions == []
      invariant i > 0 ==> Pending(code, i, exceptions, targets, blockStart, detailed) && oldPc == Pc(code, i - 1)
      invariant i > 0 ==> OfBlocks(exceptions, Id(code, i - 1))
      invariant i > 0 ==> lastNode == if FallsThrough(code[i - 1].kind) then Some(Id(code, i - 1)) else None
    {
      NodeHere(code, nodeOf, i);
      RegularMore(code, i, regular, lastNode);
      LeadOn(regular, pc, pc + 1);
      var insn := code[i];
      if pc in nodeOf {
        exceptions := FlushBlock(code, i, exceptions, targets, blockStart, detailed, nodeOf, inclOf);
        StartKeeps(code, i, exceptions, detailed);
        targets := {};
        blockStart := pc;
        var oldLast := lastNode;
        lastNode := Some(nodeOf[pc]);
        if oldLast.Some? {
          LeadMore(regular, Edge(oldLast.value, oldPc, nodeOf[pc], pc));
          regular := regular + [Edge(oldLast.value, oldPc, nodeOf[pc], pc)];
        }
      } else {
        InsideStart(code, i);
        StartIsBefore(code, i, exceptions, targets, blockStart, detailed);
        InsideKeeps(code, i, exceptions, targets, blockStart, detailed);
      }
      var current := Handlers(insn);
      targets := targets + current;
      assert pc in nodeOf ==> targets == current;
      var more := TakenEdges(code, i, pc, lastNode.value, nodeOf);
      TakenMore(code, i, taken, more);
      CountMore(code, i, taken, more);
      taken := taken + more;
      if blockStart != pc && current != targets {
        targets := {};
        detailed := detailed + {blockStart};
      }
      if insn.kind.Return? || insn.kind.Throw? || (insn.kind.Branch? && !insn.kind.conditional) {
        lastNode := None;
      }
      NextBlock(code, i);
      if i == 0 {
        NoBlocks(Id(code, 0));
      }
      LeadOn(regular, pc + 1, pc + insn.size);
      oldPc := pc;
      pc := pc + insn.size;
    }
    exceptions := FlushBlock(code, |code|, exceptions, targets, blockStart, detailed, nodeOf, inclOf);
    AllOfBlocks(regular, pc, exceptions, if code == [] then 0 else Id(code, |code| - 1) + 1);
  }

  /** No edge is drawn twice, and all lead to addresses before this one. */
  ghost predicate Leads(edges: seq<Edge>, pc: nat) {
    Distinct(edges) && forall e :: e in edges ==> e.toPc < pc
  }

  lemma {:induction false} LeadMore(edges: seq<Edge>, e: Edge)
    requires Leads(edges, e.toPc)
    ensures Leads(edges + [e], e.toPc + 1)
  {
    DistinctAppend(edges, [e]);
  }

  lemma {:induction false} LeadOn(edges: seq<Edge>, pc: nat, next: nat)
    requires pc <= next && Leads(edges, pc)
    ensures Leads(edges, next)
  {
  }

  lemma {:induction false} NextBlock(code: Code, i: nat)
    requires i < |code|
    ensures i > 0 ==> Id(code, i) == Id(code, i - 1) + if IsStart(code, i) then 1 else 0
  {
  }

  lemma {:induction false} NoBlocks(node: nat)
    ensures OfBlocks([], node)
  {
  }

  lemma {:induction false} AllOfBlocks(regular: seq<Edge>, pc: nat, exceptions: seq<ExceptionEdge>, node: nat)
    requires Leads(regular, pc) && (exceptions == [] || OfBlocks(exceptions, node))
    ensures Distinct(regular) && Distinct(exceptions) && forall e :: e in exceptions ==> e.FromBlock?
  {
  }

  // ---- the second pass

  ghost predicate OwnTo(edges: seq<ExceptionEdge>, handlers: seq<nat>, node: nat, pc: nat, inclOf: map<nat, nat>) {
    forall e :: e in edges <==>
      && e.FromInsn? && e.node == node && e.pc == pc
      && e.handler in handlers && e.handler in inclOf && e.handlerNode == inclOf[e.handler]
  }

  lemma {:induction false} OwnAreRight(code: Code, inclOf: map<nat, nat>, j: nat, edges: seq<ExceptionEdge>)
    requires j < |code| && Included(code, |code|, inclOf)
        && OwnTo(edges, code[j].handlers, Id(code, j), Pc(code, j), inclOf)
    ensures CoveredItself(code, edges, j) && forall e :: e in edges ==> Justified(code, e)
  {
    hide Included, Id, Pc, InsnAt, IsPc;
    forall e | e in edges
      ensures Justified(code, e)
    {
      HandlerNode(code, inclOf, e.handler);
      assert ThrowsAlong(code, j, e);
    }
    forall h | h in Handlers(code[j]) && IsPc(code, h)
      ensures exists e :: e in edges && e.FromInsn? && e.node == Id(code, j) && e.pc == Pc(code, j) && e.handler == h
    {
      HandlerNode(code, inclOf, h);
      assert FromInsn(Id(code, j), Pc(code, j), inclOf[h], h) in edges;
    }
  }

  lemma {:induction false} CoveredItselfMore(code: Code, before: seq<ExceptionEdge>, edges: seq<ExceptionEdge>,
                                             after: seq<ExceptionEdge>, j: nat)
    requires j < |code| && CoveredItself(code, edges, j)
    ensures CoveredItself(code, before + edges + after, j)
  {
    hide Handlers, IsPc, Id, Pc;
    forall h | h in Handlers(code[j]) && IsPc(code, h)
      ensures exists e ::
          e in before + edges + after && e.FromInsn? && e.node == Id(code, j) && e.pc == Pc(code, j) && e.handler == h
    {
      var e :| e in edges && e.FromInsn? && e.node == Id(code, j) && e.pc == Pc(code, j) && e.handler == h;
      assert e in before + edges + after;
    }
  }

  /** The instruction after i starts a block, so i's block ends with i. */
  lemma {:induction false} BlockEnds(code: Code, i: nat, j: nat)
    requires i < j < |code| && IsStart(code, i + 1)
    ensures Leader(code, j) > i
  {
    hide IsStart, Id;
    if i + 1 < j { IdGrows(code, i + 1, j); }
  }

  /** Edges of the block's instructions from the first up to, but not including, n. */
  ghost predicate WalkedTo(code: Code, l: nat, n: nat, edges: seq<ExceptionEdge>)
    requires l <= n <= |code|
  {
    && (forall e :: e in edges ==> Justified(code, e))
    && (forall j :: l <= j < n ==> CoveredItself(code, edges, j))
  }

  lemma {:induction false} WalkMore(code: Code, l: nat, n: nat, edges: seq<ExceptionEdge>, inclOf: map<nat, nat>,
                                    more: seq<ExceptionEdge>)
    requires l <= n < |code| && WalkedTo(code, l, n, edges) && Included(code, |code|, inclOf)
    requires OwnTo(more, code[n].handlers, Id(code, n), Pc(code, n), inclOf)
    ensures WalkedTo(code, l, n + 1, edges + more)
  {
    hide Included, Id, Pc, CoveredItself, Justified, OwnTo;
    OwnAreRight(code, inclOf, n, more);
    forall j | l <= j < n + 1
      ensures CoveredItself(code, edges + more, j)
    {
      assert [] + edges + more == edges + more && edges + more + [] == edges + more;
      if j < n {
        CoveredItselfMore(code, [], edges, more, j);
      } else {
        CoveredItselfMore(code, edges, more, [], j);
      }
    }
  }

  /** Follows one block from its first instruction, drawing each instruction's own edges. */
  method DetailBlock(code: Code, l: nat, start: nat, node: nat, nodeOf: map<nat, nat>, inclOf: map<nat, nat>, size: nat)
    returns (edges: seq<ExceptionEdge>)
    requires l < |code| && Leader(code, l) == l && start == Pc(code, l) && node == Id(code, l)
        && size == Pc(code, |code|)
    requires Numbered(code, |code|, nodeOf) && Included(code, |code|, inclOf)
    ensures forall e :: e in edges ==> Justified(code, e)
    ensures forall j :: 0 <= j < |code| && Leader(code, j) == l ==> CoveredItself(code, edges, j)
    ensures Distinct(edges) && forall e :: e in edges ==> e.FromInsn? && e.node == node
  {
    hide Numbered, Included, IsStart, WalkedTo, OwnTo, Id, Justified, CoveredItself, Distinct;
    edges := [];
    NothingWalked(code, l);
    var i, pc := l, start;
    while true
      invariant l <= i < |code| && pc == Pc(code, i) && Leader(code, i) == l && Id(code, i) == node
      invariant WalkedTo(code, l, i, edges)
      invariant Distinct(edges) && forall e :: e in edges ==> e.FromInsn? && e.node == node && e.pc < pc
      decreases |code| - i
    {
      var more := OwnEdges(code[i].handlers, node, pc, inclOf);
      WalkMore(code, l, i, edges, inclOf, more);
      OwnOnce(edges, code[i].handlers, node, pc, inclOf, more);
      edges := edges + more;
      Onwards(code, i, nodeOf);
      if IsBasicBlockEnd(code[i].kind) {
        break;
      }
      pc := pc + code[i].size;
      if pc >= size || pc in nodeOf {
        break;
      }
      i := i + 1;
    }
    WholeBlock(code, l, i, edges);
  }

  lemma {:induction false} NothingWalked(code: Code, l: nat)
    requires l <= |code|
    ensures WalkedTo(code, l, l, []) && Distinct<ExceptionEdge>([])
  {
  }

  lemma {:induction false} OwnOnce(edges: seq<ExceptionEdge>, handlers: seq<nat>, node: nat, pc: nat,
                                   inclOf: map<nat, nat>, more: seq<ExceptionEdge>)
    requires OwnTo(more, handlers, node, pc, inclOf) && Distinct(more) && Distinct(edges)
    requires forall e :: e in edges ==> e.FromInsn? && e.node == node && e.pc < pc
    ensures Distinct(edges + more) && forall e :: e in edges + more ==> e.FromInsn? && e.node == node && e.pc <= pc
  {
    DistinctAppend(edges, more);
  }

  /** The three ways to leave a block in the walk are the three ways a block can end. */
  lemma {:induction false} Onwards(code: Code, i: nat, nodeOf: map<nat, nat>)
    requires i < |code| && Numbered(code, |code|, nodeOf)
    ensures Pc(code, i + 1) >= Pc(code, |code|) <==> i + 1 == |code|
    ensures i + 1 < |code| ==> (Pc(code, i + 1) in nodeOf <==> IsStart(code, i + 1))
    ensures i + 1 < |code| && IsBasicBlockEnd(code[i].kind) ==> IsStart(code, i + 1)
    ensures i + 1 < |code| && !IsStart(code, i + 1) ==>
        Leader(code, i + 1) == Leader(code, i) && Id(code, i + 1) == Id(code, i)
  {
    if i + 1 < |code| {
      PcGrows(code, i + 1, |code|);
      NodeHere(code, nodeOf, i + 1);
    }
  }

  lemma {:induction false} WholeBlock(code: Code, l: nat, i: nat, edges: seq<ExceptionEdge>)
    requires l <= i < |code| && WalkedTo(code, l, i + 1, edges) && (i + 1 < |code| ==> IsStart(code, i + 1))
    ensures forall e :: e in edges ==> Justified(code, e)
    ensures forall j :: 0 <= j < |code| && Leader(code, j) == l ==> CoveredItself(code, edges, j)
  {
    hide IsStart, Justified, CoveredItself;
    forall j | 0 <= j < |code| && Leader(code, j) == l
      ensures CoveredItself(code, edges, j)
    {
      if j > i {
        BlockEnds(code, i, j);
      }
    }
  }

  /** The instruction at an address. */
  method InstructionAt(code: Code, pc: nat) returns (i: nat)
    requires IsPc(code, pc)
    ensures i < |code| && Pc(code, i) == pc
  {
    i := 0;
    var at := 0;
    while at != pc
      invariant i < |code| && at == Pc(code, i) && exists k :: i <= k < |code| && Pc(code, k) == pc
      decreases |code| - i
    {
      at := at + code[i].size;
      i := i + 1;
    }
  }

  lemma {:induction false} DetailedIsStart(code: Code, detailed: set<nat>, pc: nat)
    requires DetailedUpTo(code, |code|, detailed) && pc in detailed
    ensures IsPc(code, pc)
    ensures forall i :: 0 <= i < |code| && Pc(code, i) == pc ==> Leader(code, i) == i
  {
    hide LosesHandler, IsStart, Pc;
    var j :| 0 <= j < |code| && LosesHandler(code, j) && pc == Pc(code, Leader(code, j));
    var l := Leader(code, j);
    forall i | 0 <= i < |code| && Pc(code, i) == pc
      ensures Leader(code, i) == i
    {
      PcIsUnique(code, i, l);
    }
  }

  /** What is drawn once the blocks outside `left` have been detailed. */
  ghost predicate DetailedBut(code: Code, edges: seq<ExceptionEdge>, detailed: set<nat>, left: set<nat>) {
    && (forall e :: e in edges ==> Justified(code, e))
    && (forall j :: 0 <= j < |code| && Pc(code, Leader(code, j)) !in detailed ==> Covered(code, edges, j))
    && (forall j :: 0 <= j < |code| && Pc(code, Leader(code, j)) in detailed - left ==> CoveredItself(code, edges, j))
  }

  lemma {:induction false} DetailOneMore(code: Code, edges: seq<ExceptionEdge>, detailed: set<nat>, left: set<nat>,
                                         l: nat, more: seq<ExceptionEdge>)
    requires DetailedBut(code, edges, detailed, left) && l < |code| && Pc(code, l) in left && left <= detailed
    requires forall e :: e in more ==> Justified(code, e)
    requires forall j :: 0 <= j < |code| && Leader(code, j) == l ==> CoveredItself(code, more, j)
    ensures DetailedBut(code, edges + more, detailed, left - {Pc(code, l)})
  {
    hide Pc, Leader, Justified, Covered, CoveredItself;
    forall j | 0 <= j < |code| && Pc(code, Leader(code, j)) !in detailed
      ensures Covered(code, edges + more, j)
    {
      CoveredMore(code, edges, more, j);
    }
    forall j | 0 <= j < |code| && Pc(code, Leader(code, j)) in detailed - (left - {Pc(code, l)})
      ensures CoveredItself(code, edges + more, j)
    {
      assert [] + edges + more == edges + more && edges + more + [] == edges + more;
      if Pc(code, Leader(code, j)) == Pc(code, l) {
        PcIsUnique(code, Leader(code, j), l);
        CoveredItselfMore(code, edges, more, [], j);
      } else {
        CoveredItselfMore(code, [], edges, more, j);
      }
    }
  }

  lemma {:induction false} NoneDetailedYet(code: Code, edges: seq<ExceptionEdge>, detailed: set<nat>)
    requires Drawn(code, |code|, edges, detailed)
    ensures DetailedBut(code, edges, detailed, detailed) && DetailedUpTo(code, |code|, detailed)
  {
    hide Pc, Leader, Justified, Covered, CoveredItself, DetailedUpTo;
  }

  /** No edge of an instruction belongs to one of these blocks. */
  ghost predicate Spared(edges: seq<ExceptionEdge>, left: set<nat>, inclOf: map<nat, nat>) {
    forall e, pc :: e in edges && e.FromInsn? && pc in left && pc in inclOf ==> e.node != inclOf[pc]
  }

  lemma {:induction false} StartsDiffer(code: Code, i: nat, j: nat)
    requires i < |code| && j < |code| && i != j && Leader(code, i) == i && Leader(code, j) == j
    ensures Id(code, i) != Id(code, j)
  {
    hide Id, Leader;
    SameBlock(code, i, j);
  }

  lemma {:induction false} SpareOthers(code: Code, inclOf: map<nat, nat>, detailed: set<nat>, left: set<nat>, pc: nat,
                                       edges: seq<ExceptionEdge>, more: seq<ExceptionEdge>)
    requires Included(code, |code|, inclOf) && DetailedUpTo(code, |code|, detailed) && left <= detailed
    requires pc in left && pc in inclOf && Spared(edges, left, inclOf) && Distinct(edges) && Distinct(more)
    requires forall e :: e in more ==> e.FromInsn? && e.node == inclOf[pc]
    ensures Distinct(edges + more) && Spared(edges + more, left - {pc}, inclOf)
  {
    hide Included, DetailedUpTo, Distinct, Id, Leader;
    DistinctAppend(edges, more);
    forall other | other in left - {pc} && other in inclOf
      ensures inclOf[other] != inclOf[pc]
    {
      DetailedIsStart(code, detailed, pc);
      DetailedIsStart(code, detailed, other);
      var i :| 0 <= i < |code| && Pc(code, i) == pc;
      var j :| 0 <= j < |code| && Pc(code, j) == other;
      InclHere(code, inclOf, i);
      InclHere(code, inclOf, j);
      StartsDiffer(code, i, j);
    }
  }

  method SecondPass(code: Code, nodeOf: map<nat, nat>, inclOf: map<nat, nat>, detailed: set<nat>, size: nat,
                    edges: seq<ExceptionEdge>)
    returns (all: seq<ExceptionEdge>)
    requires Numbered(code, |code|, nodeOf) && Included(code, |code|, inclOf) && size == Pc(code, |code|)
    requires Drawn(code, |code|, edges, detailed)
    requires Distinct(edges) && forall e :: e in edges ==> e.FromBlock?
    ensures DetailedBut(code, all, detailed, {}) && DetailedUpTo(code, |code|, detailed) && Distinct(all)
  {
    hide Numbered, Included, Drawn, DetailedBut, DetailedUpTo, Pc, Leader, Justified, CoveredItself, Distinct;
    all := edges;
    NoneDetailedYet(code, edges, detailed);
    var left := detailed;
    while left != {}
      invariant left <= detailed && DetailedBut(code, all, detailed, left)
      invariant Distinct(all) && Spared(all, left, inclOf)
    {
      var pc :| pc in left;
      DetailedIsStart(code, detailed, pc);
      var l := InstructionAt(code, pc);
      InclHere(code, inclOf, l);
      var more := DetailBlock(code, l, pc, inclOf[pc], nodeOf, inclOf, size);
      DetailOneMore(code, all, detailed, left, l, more);
      SpareOthers(code, inclOf, detailed, left, pc, all, more);
      all := all + more;
      left := left - {pc};
    }
  }

  lemma {:induction false} InclHere(code: Code, inclOf: map<nat, nat>, i: nat)
    requires i < |code| && Included(code, |code|, inclOf)
    ensures Pc(code, i) in inclOf && inclOf[Pc(code, i)] == Id(code, i)
  {
    hide Pc, Id;
  }

  // ---- the whole graph

  datatype Graph = Graph(regular: seq<Edge>, taken: seq<Edge>, exceptions: seq<ExceptionEdge>)

  /** Some edge leads from this block to this handler. */
  ghost predicate Draws(edges: seq<ExceptionEdge>, node: nat, handler: nat) {
    exists e :: e in edges && e.node == node && e.handler == handler
  }

  /** Some instruction of this block has this handler, and there is an instruction there. */
  ghost predicate MayThrow(code: Code, node: nat, handler: nat) {
    exists j :: 0 <= j < |code| && Id(code, j) == node && handler in Handlers(code[j]) && IsPc(code, handler)
  }

  ghost predicate ExceptionsExact(code: Code, edges: seq<ExceptionEdge>) {
    && (forall node, handler :: Draws(edges, node, handler) <==> MayThrow(code, node, handler))
    && (forall e :: e in edges ==> Justified(code, e))
  }

  lemma {:induction false} DrawnIsThrown(code: Code, edges: seq<ExceptionEdge>, node: nat, handler: nat)
    requires (forall e :: e in edges ==> Justified(code, e)) && Draws(edges, node, handler)
    ensures MayThrow(code, node, handler)
  {
    hide Id, Pc, Handlers;
    var e :| e in edges && e.node == node && e.handler == handler;
    var j :| 0 <= j < |code| && ThrowsAlong(code, j, e);
  }

  lemma {:induction false} ThrownIsDrawn(code: Code, edges: seq<ExceptionEdge>, detailed: set<nat>, node: nat,
                                         handler: nat)
    requires DetailedBut(code, edges, detailed, {}) && MayThrow(code, node, handler)
    ensures Draws(edges, node, handler)
  {
    hide Id, Pc, Handlers, IsPc, Justified, Leader;
    var j :| 0 <= j < |code| && Id(code, j) == node && handler in Handlers(code[j]) && IsPc(code, handler);
    if Pc(code, Leader(code, j)) in detailed {
      assert CoveredItself(code, edges, j);
    } else {
      assert Covered(code, edges, j);
    }
  }

  /** Seen per block, the two passes draw exactly the exceptional successors of its instructions. */
  lemma {:induction false} TwoPassesAreExact(code: Code, edges: seq<ExceptionEdge>, detailed: set<nat>)
    requires DetailedBut(code, edges, detailed, {})
    ensures ExceptionsExact(code, edges)
  {
    hide Draws, MayThrow, Justified, Covered, CoveredItself, Leader, Pc;
    forall node, handler
      ensures Draws(edges, node, handler) <==> MayThrow(code, node, handler)
    {
      if Draws(edges, node, handler) {
        DrawnIsThrown(code, edges, node, handler);
      }
      if MayThrow(code, node, handler) {
        ThrownIsDrawn(code, edges, detailed, node, handler);
      }
    }
  }

  method BuildGraph(code: Code, size: nat)
    returns (nodeOf: map<nat, nat>, inclOf: map<nat, nat>, g: Graph, detailed: set<nat>)
    requires size == Pc(code, |code|)
    ensures Numbered(code, |code|, nodeOf) && Included(code, |code|, inclOf)
    ensures RegularUpTo(code, |code|, g.regular) && TakenUpTo(code, |code|, g.taken)
    ensures ExceptionsExact(code, g.exceptions)
    ensures DetailedUpTo(code, |code|, detailed) && DetailedBut(code, g.exceptions, detailed, {})
    ensures Distinct(g.regular) && Counted(code, |code|, g.taken) && Distinct(g.exceptions)
  {
    hide Distinct, Counted, IsTarget, Numbered, Included, RegularUpTo, TakenUpTo, ExceptionsExact, DetailedUpTo,
        DetailedBut, Drawn, Pc;
    var targets := BranchTargets(code);
    nodeOf, inclOf := FindBlocks(code, targets);
    var regular, taken, exceptions;
    regular, taken, exceptions, detailed := FirstPass(code, nodeOf, inclOf);
    exceptions := SecondPass(code, nodeOf, inclOf, detailed, size, exceptions);
    TwoPassesAreExact(code, exceptions, detailed);
    g := Graph(regular, taken, exceptions);
  }
}
