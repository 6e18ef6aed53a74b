/** What the finished graph of a function means: its blocks, its edges, and the runs it describes. */
module CfgPaths {
  import opened Bpf
  import opened SortedSeq
  import opened CfgNodes
  import opened CfgFuncs
  import opened CfgBlocks
  import opened CfgEdges
  import opened CfgBuild

  ghost predicate InBlock(b: BbNode, pc: int)
    reads b
  {
    b.head.At? && b.tail.At? && b.head.pos <= pc <= b.tail.pos
  }

  ghost predicate Good(prog: Program, func: FuncNode)
    reads func, func.bbs
  {
    Laid(prog, func) && Closed(prog, func.start, func.end)
  }

  lemma GoodBounds(prog: Program, func: FuncNode)
    requires Good(prog, func)
    ensures 0 <= func.start <= func.end < |prog| && |func.bbs| >= 3
  {
  }

  /** The heads of the function's blocks, in list order. */
  ghost function FuncHeads(prog: Program, func: FuncNode): seq<int>
    reads func, func.bbs
    requires Laid(prog, func)
  {
    Heads(Blocks(func))
  }

  lemma SomeBlock(prog: Program, func: FuncNode, pc: int)
    requires Good(prog, func) && func.start <= pc <= func.end
    ensures exists i: nat :: 0 < i < |func.bbs| - 1 && InBlock(func.bbs[i], pc)
  {
    var heads := FuncHeads(prog, func);
    var i := Pos(heads, pc + 1);
    assert IsLeader(prog, func.start, func.end, func.start);
    assert i > 0;
    TailsInside(prog, func);
    assert TailOk(Blocks(func), i - 1, func.end);
    assert InBlock(func.bbs[i], pc);
  }

  /** The position in the list of the block that holds pc. */
  ghost function IndexOf(prog: Program, func: FuncNode, pc: int): (i: nat)
    reads func, func.bbs
    requires Good(prog, func) && func.start <= pc <= func.end
    ensures 0 < i < |func.bbs| - 1 && InBlock(func.bbs[i], pc)
  {
    SomeBlock(prog, func, pc);
    var i: nat :| 0 < i < |func.bbs| - 1 && InBlock(func.bbs[i], pc);
    i
  }

  ghost function BlockOf(prog: Program, func: FuncNode, pc: int): BbNode
    reads func, func.bbs
    requires Good(prog, func) && func.start <= pc <= func.end
  {
    func.bbs[IndexOf(prog, func, pc)]
  }

  // ----- block partition

  /** Block i of the list: it is not empty, it starts at a leader, and the next one starts right after it. */
  lemma BlockShape(prog: Program, func: FuncNode, i: nat)
    requires Good(prog, func) && 0 < i < |func.bbs| - 1
    ensures
      var b := func.bbs[i];
      && b.head.At? && b.tail.At? && b in Blocks(func)
      && func.start <= b.head.pos <= b.tail.pos <= func.end
      && IsLeader(prog, func.start, func.end, b.head.pos)
      && b.idx == i + 1
      && (i == 1 ==> b.head.pos == func.start)
      && (i == |func.bbs| - 2 ==> b.tail.pos == func.end)
      && (i < |func.bbs| - 2 ==> func.bbs[i + 1].head == At(b.tail.pos + 1))
  {
    var blocks := Blocks(func);
    var heads := Heads(blocks);
    TailsInside(prog, func);
    assert func.bbs[i] == blocks[i - 1] && heads[i - 1] in heads && TailOk(blocks, i - 1, func.end);
    assert IsLeader(prog, func.start, func.end, func.start);
    assert func.start in heads;
    var k :| 0 <= k < |heads| && heads[k] == func.start;
    assert heads[0] in heads && IsLeader(prog, func.start, func.end, heads[0]);
    assert heads[0] <= heads[k];
    assert i < |func.bbs| - 2 ==> func.bbs[i + 1] == blocks[i];
  }

  /** Every instruction of the function is in exactly one block. */
  lemma BlocksDisjoint(prog: Program, func: FuncNode, pc: int, i: nat)
    requires Good(prog, func) && func.start <= pc <= func.end && 0 < i < |func.bbs| - 1
    ensures InBlock(func.bbs[i], pc) <==> i == IndexOf(prog, func, pc)
  {
    var j := IndexOf(prog, func, pc);
    if InBlock(func.bbs[i], pc) {
      if i < j { BlocksApart(prog, func, i, j); }
      if j < i { BlocksApart(prog, func, j, i); }
    }
  }

  lemma BlocksApart(prog: Program, func: FuncNode, i: nat, j: nat)
    requires Good(prog, func) && 0 < i < j < |func.bbs| - 1
    ensures func.bbs[i].tail.At? && func.bbs[j].head.At? && func.bbs[i].tail.pos < func.bbs[j].head.pos
  {
    var heads := FuncHeads(prog, func);
    BlockShape(prog, func, i);
    BlockShape(prog, func, i + 1);
    BlockShape(prog, func, j);
    assert heads[i] == func.bbs[i + 1].head.pos && heads[j - 1] == func.bbs[j].head.pos;
  }

  /** A pc is the head of its block exactly when it is a leader. */
  lemma HeadIffLeader(prog: Program, func: FuncNode, pc: int)
    requires Good(prog, func) && func.start <= pc <= func.end
    ensures BlockOf(prog, func, pc).head == At(pc) <==> IsLeader(prog, func.start, func.end, pc)
  {
    hide IsLeader, IndexOf, Good;
    GoodBounds(prog, func);
    BlockShape(prog, func, IndexOf(prog, func, pc));
    if IsLeader(prog, func.start, func.end, pc) {
      var k := LeaderBlock(prog, func, pc);
      BlockShape(prog, func, k);
      BlocksDisjoint(prog, func, pc, k);
    }
  }

  lemma LeaderBlock(prog: Program, func: FuncNode, pc: int) returns (k: nat)
    requires Good(prog, func) && IsLeader(prog, func.start, func.end, pc)
    ensures 0 < k < |func.bbs| - 1 && func.bbs[k].head == At(pc)
  {
    hide IsLeader;
    var heads := FuncHeads(prog, func);
    assert pc in heads;
    var j :| 0 <= j < |heads| && heads[j] == pc;
    k := j + 1;
    assert func.bbs[k] == Blocks(func)[j];
  }

  /** Inside a block control moves on to the next pc of the same block, which is no leader. */
  lemma InsideBlock(prog: Program, func: FuncNode, pc: int)
    requires Good(prog, func) && func.start <= pc <= func.end && BlockOf(prog, func, pc).tail != At(pc)
    ensures pc < func.end && !IsLeader(prog, func.start, func.end, pc + 1)
    ensures BlockOf(prog, func, pc + 1) == BlockOf(prog, func, pc)
  {
    var i := IndexOf(prog, func, pc);
    BlockShape(prog, func, i);
    BlocksDisjoint(prog, func, pc + 1, i);
    HeadIffLeader(prog, func, pc + 1);
  }

  /** A pc is the tail of its block exactly when the function ends there or the next pc is a leader. */
  lemma TailIffLeaderNext(prog: Program, func: FuncNode, pc: int)
    requires Good(prog, func) && func.start <= pc <= func.end
    ensures BlockOf(prog, func, pc).tail == At(pc) <==> pc == func.end || IsLeader(prog, func.start, func.end, pc + 1)
  {
    var i := IndexOf(prog, func, pc);
    BlockShape(prog, func, i);
    if func.bbs[i].tail != At(pc) {
      InsideBlock(prog, func, pc);
    } else if i < |func.bbs| - 2 {
      BlockShape(prog, func, i + 1);
    }
  }

  /** The heads do not depend on the order in which the targets were met. */
  lemma HeadsDetermined(prog: Program, f: FuncNode, g: FuncNode)
    requires Laid(prog, f) && Laid(prog, g) && f.start == g.start && f.end == g.end
    ensures FuncHeads(prog, f) == FuncHeads(prog, g) && f.bbNum == g.bbNum
  {
    IncreasingUnique(FuncHeads(prog, f), FuncHeads(prog, g));
  }

  // ----- edge table

  /** Some outgoing edge of b leads to d. */
  ghost predicate HasEdge(b: BbNode, d: BbNode)
    reads b, b.eSuccs
  {
    exists k | 0 <= k < |b.eSuccs| :: b.eSuccs[k].dst == d
  }

  /** The search for the block that starts at x finds it if x is a leader, and null otherwise. */
  lemma FoundIff(prog: Program, func: FuncNode, x: int, d: BbNode?)
    requires Good(prog, func) && Found(func.bbs, x, d)
    ensures d == null <==> !IsLeader(prog, func.start, func.end, x)
    ensures d != null ==> func.start <= x <= func.end && d == BlockOf(prog, func, x) && d.head == At(x)
  {
    if IsLeader(prog, func.start, func.end, x) {
      HeadIffLeader(prog, func, x);
      assert BlockOf(prog, func, x) in func.bbs;
    }
    assert Special(Entry(func), 0) && Special(Exit(func), 1);
    if d != null {
      var k :| 0 <= k < |func.bbs| && func.bbs[k] == d;
      BlockShape(prog, func, k);
      BlocksDisjoint(prog, func, x, k);
    }
  }

  /** The successors of block i, as the edge pass leaves them. */
  lemma Wiring(prog: Program, func: FuncNode, i: nat)
    requires Good(prog, func) && Graph(prog, func) && 0 < i < |func.bbs| - 1
    ensures
      var b := func.bbs[i];
      && b.tail.At? && func.start <= b.tail.pos <= func.end
      && SuccsOk(prog[b.tail.pos], b.tail.pos, func.bbs, b, func.bbs[i + 1])
  {
    assert BlockWired(prog, func.bbs, func.bbs[i], func.bbs[i + 1]);
    BlockShape(prog, func, i);
  }

  /** After a tail that is not the last instruction comes the next block. */
  lemma AfterTail(prog: Program, func: FuncNode, i: nat)
    requires Good(prog, func) && 0 < i < |func.bbs| - 1 && func.bbs[i].tail.At?
    ensures 0 <= func.start <= func.bbs[i].tail.pos <= func.end < |prog|
    ensures func.bbs[i].tail.pos == func.end ==> IsExit(prog[func.end]) || IsJa(prog[func.end])
    ensures func.bbs[i].tail.pos < func.end ==> func.bbs[i + 1].head == At(func.bbs[i].tail.pos + 1)
  {
    BlockShape(prog, func, i);
  }

  /** A block that ends in an unconditional jump has one edge, to the block that starts at insn + off + 1. */
  lemma JaEdges(prog: Program, func: FuncNode, i: nat)
    requires Good(prog, func) && Graph(prog, func) && 0 < i < |func.bbs| - 1
    requires func.bbs[i].tail.At? && 0 <= func.bbs[i].tail.pos < |prog| && IsJa(prog[func.bbs[i].tail.pos])
    ensures
      var b := func.bbs[i];
      var x := b.tail.pos + prog[b.tail.pos].off + 1;
      && func.start <= x <= func.end
      && |b.eSuccs| == 1 && b.eSuccs[0].flags == EDGE_FLAG_JUMP
      && b.eSuccs[0].dst == BlockOf(prog, func, x) && BlockOf(prog, func, x).head == At(x)
      && HasEdge(b, BlockOf(prog, func, x))
  {
    hide Good, Graph, IndexOf, BlockOf, IsLeader;
    Wiring(prog, func, i);
    AfterTail(prog, func, i);
    var b := func.bbs[i];
    var x := TargetIsLeader(prog, func.start, func.end, b.tail.pos);
    FoundIff(prog, func, x, b.eSuccs[0].dst);
  }

  lemma TargetIsLeader(prog: Program, lo: int, hi: int, s: int) returns (x: int)
    requires 0 <= lo <= s <= hi < |prog| && (IsJa(prog[s]) || IsCond(prog[s]))
    ensures x == s + prog[s].off + 1 && IsLeader(prog, lo, hi, x)
  {
    x := s + prog[s].off + 1;
    assert JumpTarget(prog, lo, hi, x);
  }

  /** A block that ends in a conditional jump has two: to the block right after it, and to insn + off + 1. */
  lemma CondEdges(prog: Program, func: FuncNode, i: nat)
    requires Good(prog, func) && Graph(prog, func) && 0 < i < |func.bbs| - 1
    requires func.bbs[i].tail.At? && 0 <= func.bbs[i].tail.pos < |prog| && IsCond(prog[func.bbs[i].tail.pos])
    ensures
      var b := func.bbs[i];
      var x := b.tail.pos + prog[b.tail.pos].off + 1;
      && func.start <= x <= func.end && b.tail.pos < func.end
      && |b.eSuccs| == 2
      && b.eSuccs[0].flags == EDGE_FLAG_FALLTHROUGH && b.eSuccs[1].flags == EDGE_FLAG_JUMP
      && b.eSuccs[0].dst == func.bbs[i + 1] && func.bbs[i + 1].head == At(b.tail.pos + 1)
      && b.eSuccs[1].dst == BlockOf(prog, func, x) && BlockOf(prog, func, x).head == At(x)
      && HasEdge(b, BlockOf(prog, func, x))
  {
    hide Good, Graph, IndexOf, BlockOf, IsLeader;
    Wiring(prog, func, i);
    AfterTail(prog, func, i);
    var b := func.bbs[i];
    var x := TargetIsLeader(prog, func.start, func.end, b.tail.pos);
    FoundIff(prog, func, x, b.eSuccs[1].dst);
  }

  /** A block that ends in anything else but a call has one edge, to the next block in list order.
      After an exit that edge stands for no step; it leads to EXIT only from the end of the function. */
  lemma FallEdges(prog: Program, func: FuncNode, i: nat)
    requires Good(prog, func) && Graph(prog, func) && 0 < i < |func.bbs| - 1
    requires func.bbs[i].tail.At? && 0 <= func.bbs[i].tail.pos < |prog|
    requires !IsJmpInsn(prog[func.bbs[i].tail.pos].code) || IsExit(prog[func.bbs[i].tail.pos])
    ensures
      var b := func.bbs[i];
      && |b.eSuccs| == 1 && b.eSuccs[0].flags == EDGE_FLAG_FALLTHROUGH
      && b.eSuccs[0].dst == func.bbs[i + 1]
      && (func.bbs[i + 1] == Exit(func) <==> b.tail.pos == func.end)
      && (b.tail.pos < func.end ==> func.bbs[i + 1].head == At(b.tail.pos + 1))
  {
    Wiring(prog, func, i);
    BlockShape(prog, func, i);
    if i < |func.bbs| - 2 {
      BlockShape(prog, func, i + 1);
    }
    assert Special(Exit(func), 1);
  }

  /** A block that ends in a call takes the conditional path: its second edge goes to the block that starts
      at insn + off + 1, and is null exactly when no block does. */
  lemma CallEdges(prog: Program, func: FuncNode, i: nat)
    requires Good(prog, func) && Graph(prog, func) && 0 < i < |func.bbs| - 1
    requires func.bbs[i].tail.At? && 0 <= func.bbs[i].tail.pos < |prog| && IsCall(prog[func.bbs[i].tail.pos])
    ensures
      var b := func.bbs[i];
      var x := b.tail.pos + prog[b.tail.pos].off + 1;
      && |b.eSuccs| == 2 && b.tail.pos < func.end
      && b.eSuccs[0].dst == func.bbs[i + 1] && func.bbs[i + 1].head == At(b.tail.pos + 1)
      && (b.eSuccs[1].dst == null <==> !IsLeader(prog, func.start, func.end, x))
      && (b.eSuccs[1].dst != null ==>
            func.start <= x <= func.end && b.eSuccs[1].dst == BlockOf(prog, func, x) && b.eSuccs[1].dst.head == At(x))
  {
    hide Good, Graph, IndexOf, BlockOf, IsLeader;
    Wiring(prog, func, i);
    AfterTail(prog, func, i);
    var b := func.bbs[i];
    var x := b.tail.pos + prog[b.tail.pos].off + 1;
    FoundIff(prog, func, x, b.eSuccs[1].dst);
  }

  /** The second edge of a call at s does no harm: it leads where the call returns to, or nowhere. */
  ghost predicate CallHarmless(prog: Program, lo: int, hi: int, s: int)
    requires 0 <= lo <= s <= hi < |prog|
  {
    prog[s].off == 0 || !IsLeader(prog, lo, hi, s + prog[s].off + 1)
  }

  /** The edges of a block that ends in a call lead only to the return point if and only if the second one is
      harmless; an ordinary helper call, whose off is zero, always is. */
  lemma CallEdgesIff(prog: Program, func: FuncNode, i: nat)
    requires Good(prog, func) && Graph(prog, func) && 0 < i < |func.bbs| - 1
    requires func.bbs[i].tail.At? && func.start <= func.bbs[i].tail.pos <= func.end
    requires IsCall(prog[func.bbs[i].tail.pos])
    ensures
      var s := func.bbs[i].tail.pos;
      && s < func.end
      && ((forall d | d in Blocks(func) && HasEdge(func.bbs[i], d) :: d == BlockOf(prog, func, s + 1))
          <==> CallHarmless(prog, func.start, func.end, s))
  {
    hide Good, Graph, IndexOf, BlockOf, HasEdge, CallHarmless;
    NotAtEnd(prog, func, func.bbs[i].tail.pos);
    if CallHarmless(prog, func.start, func.end, func.bbs[i].tail.pos) {
      forall d | d in Blocks(func) && HasEdge(func.bbs[i], d)
        ensures d == BlockOf(prog, func, func.bbs[i].tail.pos + 1)
      {
        HarmlessCallReturns(prog, func, i, d);
      }
    } else {
      var d := CallStrays(prog, func, i);
    }
  }

  lemma HarmlessCallReturns(prog: Program, func: FuncNode, i: nat, d: BbNode)
    requires Good(prog, func) && Graph(prog, func)
    requires 0 < i < |func.bbs| - 1 && func.bbs[i].tail.At? && func.start <= func.bbs[i].tail.pos <= func.end
    requires IsCall(prog[func.bbs[i].tail.pos]) && HasEdge(func.bbs[i], d)
    requires CallHarmless(prog, func.start, func.end, func.bbs[i].tail.pos)
    ensures func.bbs[i].tail.pos < func.end
    ensures d == BlockOf(prog, func, func.bbs[i].tail.pos + 1) && d.head == At(func.bbs[i].tail.pos + 1)
  {
    hide Good, Graph, IndexOf, BlockOf, IsLeader, HasEdge;
    NotAtEnd(prog, func, func.bbs[i].tail.pos);
    FewEdges(func.bbs[i], d);
    CallEdges(prog, func, i);
    NextBlock(prog, func, i);
  }

  lemma CallStrays(prog: Program, func: FuncNode, i: nat) returns (d: BbNode)
    requires Good(prog, func) && Graph(prog, func)
    requires 0 < i < |func.bbs| - 1 && func.bbs[i].tail.At? && func.start <= func.bbs[i].tail.pos <= func.end
    requires IsCall(prog[func.bbs[i].tail.pos]) && !CallHarmless(prog, func.start, func.end, func.bbs[i].tail.pos)
    ensures d in Blocks(func) && HasEdge(func.bbs[i], d)
    ensures func.bbs[i].tail.pos < func.end && d != BlockOf(prog, func, func.bbs[i].tail.pos + 1)
  {
    hide Good, Graph, IndexOf, BlockOf, IsLeader, HasEdge;
    NotAtEnd(prog, func, func.bbs[i].tail.pos);
    CallEdges(prog, func, i);
    var x := func.bbs[i].tail.pos + prog[func.bbs[i].tail.pos].off + 1;
    StrayEdge(prog, func, func.bbs[i].eSuccs[1], x);
    NextBlock(prog, func, i);
    d := func.bbs[i].eSuccs[1].dst;
    FewEdges(func.bbs[i], d);
  }

  lemma StrayEdge(prog: Program, func: FuncNode, e: EdgeNode, x: int)
    requires Good(prog, func) && func.start <= x <= func.end && e.dst == BlockOf(prog, func, x)
    ensures e.dst in Blocks(func)
  {
    BlockShape(prog, func, IndexOf(prog, func, x));
  }

  /** A block with one or two edges has an edge to d if one of them leads there. */
  lemma FewEdges(b: BbNode, d: BbNode)
    ensures |b.eSuccs| == 1 ==> (HasEdge(b, d) <==> b.eSuccs[0].dst == d)
    ensures |b.eSuccs| == 2 ==> (HasEdge(b, d) <==> b.eSuccs[0].dst == d || b.eSuccs[1].dst == d)
  {
  }

  // ----- edges and steps

  /** No instruction after an unconditional jump or an exit is hidden inside a block. */
  ghost predicate TerminatorsEndBlocks(prog: Program, lo: int, hi: int)
    requires 0 <= lo <= hi < |prog|
  {
    forall s | lo <= s < hi && (IsJa(prog[s]) || IsExit(prog[s])) :: IsLeader(prog, lo, hi, s + 1)
  }

  lemma ReachableEndsBlocks(prog: Program, lo: int, hi: int)
    requires Closed(prog, lo, hi) && LongJumpsAgree(prog, lo, hi) && AllReachable(prog, lo, hi)
    ensures TerminatorsEndBlocks(prog, lo, hi)
  {
    forall s | lo <= s < hi && (IsJa(prog[s]) || IsExit(prog[s])) ensures IsLeader(prog, lo, hi, s + 1) {
      assert Reachable(prog, lo, hi, s + 1);
      ReachedByJump(prog, lo, hi, s + 1);
    }
  }

  /** Jumps and exits are block tails, all of them, if and only if no terminator hides inside a block. */
  lemma StraightLineIff(prog: Program, func: FuncNode)
    requires Good(prog, func)
    ensures TerminatorsEndBlocks(prog, func.start, func.end)
            <==> forall s | func.start <= s <= func.end && (IsJa(prog[s]) || IsExit(prog[s]) || IsCond(prog[s])) ::
                   BlockOf(prog, func, s).tail == At(s)
  {
    forall s | func.start <= s <= func.end
      ensures BlockOf(prog, func, s).tail == At(s) <==> s == func.end || IsLeader(prog, func.start, func.end, s + 1) {
      TailIffLeaderNext(prog, func, s);
    }
  }

  /** In a program whose instructions are all reachable, every jump and every exit ends its block. */
  lemma StraightLine(prog: Program, func: FuncNode, s: int)
    requires Good(prog, func) && LongJumpsAgree(prog, func.start, func.end)
    requires AllReachable(prog, func.start, func.end)
    requires func.start <= s <= func.end && (IsJa(prog[s]) || IsExit(prog[s]) || IsCond(prog[s]))
    ensures BlockOf(prog, func, s).tail == At(s)
  {
    ReachableEndsBlocks(prog, func.start, func.end);
    TailIffLeaderNext(prog, func, s);
  }

  /** A step stays in its block, one instruction on, or goes from a tail along a recorded edge to a head. */
  lemma StepIsEdge(prog: Program, func: FuncNode, s: int, t: int)
    requires Good(prog, func) && Graph(prog, func) && LongJumpsAgree(prog, func.start, func.end)
    requires TerminatorsEndBlocks(prog, func.start, func.end)
    requires Steps(prog, func.start, func.end, s, t)
    ensures func.start <= t <= func.end
    ensures
      var b := BlockOf(prog, func, s);
      var d := BlockOf(prog, func, t);
      if d.head == At(t) then b.tail == At(s) && HasEdge(b, d)
      else b.tail != At(s) && t == s + 1 && d == b
  {
    StepStaysInside(prog, func.start, func.end, s, t);
    TailIffLeaderNext(prog, func, s);
    var i := IndexOf(prog, func, s);
    BlockShape(prog, func, i);
    if func.bbs[i].tail != At(s) {
      InsideBlock(prog, func, s);
      HeadIffLeader(prog, func, s + 1);
    } else {
      TailStepIsEdge(prog, func, i, t);
    }
  }

  lemma GoodStepStays(prog: Program, func: FuncNode, s: int, t: int)
    requires Good(prog, func) && func.start <= s <= func.end && LongJumpsAgree(prog, func.start, func.end)
    requires Steps(prog, func.start, func.end, s, t)
    ensures func.start <= t <= func.end
  {
    StepStaysInside(prog, func.start, func.end, s, t);
  }

  /** Only an exit or an unconditional jump ends the function. */
  lemma NotAtEnd(prog: Program, func: FuncNode, s: int)
    requires Good(prog, func) && func.start <= s <= func.end
    ensures 0 <= func.start && func.end < |prog|
    ensures s == func.end ==> IsExit(prog[s]) || IsJa(prog[s])
  {
  }

  lemma TailStepIsEdge(prog: Program, func: FuncNode, i: nat, t: int)
    requires Good(prog, func) && Graph(prog, func) && LongJumpsAgree(prog, func.start, func.end)
    requires 0 < i < |func.bbs| - 1 && func.bbs[i].tail.At? && func.start <= func.bbs[i].tail.pos <= func.end
    requires Steps(prog, func.start, func.end, func.bbs[i].tail.pos, t)
    ensures func.start <= t <= func.end
    ensures BlockOf(prog, func, t).head == At(t) && HasEdge(func.bbs[i], BlockOf(prog, func, t))
  {
    var s := func.bbs[i].tail.pos;
    hide Good, Graph, IndexOf, BlockOf, HasEdge, LongJumpsAgree;
    NotAtEnd(prog, func, s);
    GoodStepStays(prog, func, s, t);
    if IsJa(prog[s]) || (IsCond(prog[s]) && t != s + 1) {
      JumpIsEdge(prog, func, i, s, t);
    } else {
      NextBlockIsEdge(prog, func, i);
    }
  }

  /** Taking the jump at the end of a block follows one of its edges. */
  lemma JumpIsEdge(prog: Program, func: FuncNode, i: nat, s: int, t: int)
    requires Good(prog, func) && Graph(prog, func) && 0 < i < |func.bbs| - 1
    requires func.bbs[i].tail == At(s) && func.start <= s <= func.end
    requires (IsJa(prog[s]) || IsCond(prog[s])) && t == s + prog[s].off + 1
    ensures func.start <= t <= func.end
    ensures BlockOf(prog, func, t).head == At(t) && HasEdge(func.bbs[i], BlockOf(prog, func, t))
  {
    hide Good, Graph, IndexOf, BlockOf, HasEdge;
    GoodBounds(prog, func);
    if IsJa(prog[s]) {
      JaEdges(prog, func, i);
    } else {
      CondEdges(prog, func, i);
    }
  }

  /** The block after block i in the list is the block of the next pc. */
  lemma NextBlock(prog: Program, func: FuncNode, i: nat)
    requires Good(prog, func) && 0 < i < |func.bbs| - 1
    requires func.bbs[i].tail.At? && func.start <= func.bbs[i].tail.pos < func.end
    ensures
      var t := func.bbs[i].tail.pos + 1;
      func.bbs[i + 1] == BlockOf(prog, func, t) && func.bbs[i + 1].head == At(t)
  {
    BlockShape(prog, func, i);
    BlockShape(prog, func, i + 1);
    BlocksDisjoint(prog, func, func.bbs[i].tail.pos + 1, i + 1);
  }

  /** Falling off the end of a block follows its first edge. */
  lemma NextBlockIsEdge(prog: Program, func: FuncNode, i: nat)
    requires Good(prog, func) && Graph(prog, func) && 0 < i < |func.bbs| - 1
    requires func.bbs[i].tail.At? && func.start <= func.bbs[i].tail.pos < func.end
    requires !IsJa(prog[func.bbs[i].tail.pos])
    ensures
      var t := func.bbs[i].tail.pos + 1;
      BlockOf(prog, func, t).head == At(t) && HasEdge(func.bbs[i], BlockOf(prog, func, t))
  {
    Wiring(prog, func, i);
    NextBlock(prog, func, i);
    assert func.bbs[i].eSuccs[0].dst == func.bbs[i + 1];
  }

  /** Where the edges of a block that ends in insn at e lead, as far as they lead to leaders. */
  predicate LeadsTo(insn: Insn, e: int, t: int) {
    if IsJa(insn) then t == e + insn.off + 1
    else if IsJmpInsn(insn.code) && !IsExit(insn) then t == e + 1 || t == e + insn.off + 1
    else t == e + 1
  }

  /** So the edges of every block can be told from its last instruction. */
  lemma EdgesTold(prog: Program, func: FuncNode, i: nat, t: int)
    requires Good(prog, func) && Graph(prog, func) && 0 < i < |func.bbs| - 1
    requires func.bbs[i].tail.At? && func.start <= func.bbs[i].tail.pos <= func.end < |prog|
    requires func.start <= t <= func.end && IsLeader(prog, func.start, func.end, t)
    ensures HasEdge(func.bbs[i], BlockOf(prog, func, t))
            <==> LeadsTo(prog[func.bbs[i].tail.pos], func.bbs[i].tail.pos, t)
  {
    hide Good, Graph, IsLeader, IndexOf, BlockOf, HasEdge, LeadsTo;
    GoodBounds(prog, func);
    HeadIffLeader(prog, func, t);
    if IsJa(prog[func.bbs[i].tail.pos]) || IsCond(prog[func.bbs[i].tail.pos]) {
      JumpEdgesTold(prog, func, i, t);
    } else if IsCall(prog[func.bbs[i].tail.pos]) {
      CallEdgesTold(prog, func, i, t);
    } else {
      FallEdgesTold(prog, func, i, t);
    }
  }

  lemma JumpEdgesTold(prog: Program, func: FuncNode, i: nat, t: int)
    requires Good(prog, func) && Graph(prog, func) && 0 < i < |func.bbs| - 1
    requires func.bbs[i].tail.At? && func.start <= func.bbs[i].tail.pos <= func.end < |prog|
    requires IsJa(prog[func.bbs[i].tail.pos]) || IsCond(prog[func.bbs[i].tail.pos])
    requires func.start <= t <= func.end && BlockOf(prog, func, t).head == At(t)
    ensures HasEdge(func.bbs[i], BlockOf(prog, func, t))
            <==> LeadsTo(prog[func.bbs[i].tail.pos], func.bbs[i].tail.pos, t)
  {
    hide Good, Graph, IndexOf, BlockOf, HasEdge;
    GoodBounds(prog, func);
    var e := func.bbs[i].tail.pos;
    FewEdges(func.bbs[i], BlockOf(prog, func, t));
    if IsJa(prog[e]) {
      JaEdges(prog, func, i);
      assert func.bbs[i].eSuccs[0].dst.head == At(e + prog[e].off + 1);
    } else {
      CondEdges(prog, func, i);
      NextBlock(prog, func, i);
      assert func.bbs[i].eSuccs[1].dst.head == At(e + prog[e].off + 1);
    }
  }

  lemma CallEdgesTold(prog: Program, func: FuncNode, i: nat, t: int)
    requires Good(prog, func) && Graph(prog, func) && 0 < i < |func.bbs| - 1
    requires func.bbs[i].tail.At? && func.start <= func.bbs[i].tail.pos <= func.end < |prog|
    requires IsCall(prog[func.bbs[i].tail.pos])
    requires func.start <= t <= func.end && BlockOf(prog, func, t).head == At(t)
    ensures HasEdge(func.bbs[i], BlockOf(prog, func, t))
            <==> LeadsTo(prog[func.bbs[i].tail.pos], func.bbs[i].tail.pos, t)
  {
    hide Good, Graph, IndexOf, BlockOf, HasEdge;
    GoodBounds(prog, func);
    FewEdges(func.bbs[i], BlockOf(prog, func, t));
    CallEdges(prog, func, i);
    NextBlock(prog, func, i);
    FoundLeader(prog, func, t);
  }

  lemma FoundLeader(prog: Program, func: FuncNode, t: int)
    requires Good(prog, func) && func.start <= t <= func.end && BlockOf(prog, func, t).head == At(t)
    ensures IsLeader(prog, func.start, func.end, t)
  {
    HeadIffLeader(prog, func, t);
  }

  lemma FallEdgesTold(prog: Program, func: FuncNode, i: nat, t: int)
    requires Good(prog, func) && Graph(prog, func) && 0 < i < |func.bbs| - 1
    requires func.bbs[i].tail.At? && func.start <= func.bbs[i].tail.pos <= func.end < |prog|
    requires !IsJmpInsn(prog[func.bbs[i].tail.pos].code) || IsExit(prog[func.bbs[i].tail.pos])
    requires func.start <= t <= func.end && BlockOf(prog, func, t).head == At(t)
    ensures HasEdge(func.bbs[i], BlockOf(prog, func, t))
            <==> LeadsTo(prog[func.bbs[i].tail.pos], func.bbs[i].tail.pos, t)
  {
    hide Good, Graph, IndexOf, BlockOf, HasEdge;
    GoodBounds(prog, func);
    FewEdges(func.bbs[i], BlockOf(prog, func, t));
    FallEdges(prog, func, i);
    if func.bbs[i].tail.pos < func.end {
      NextBlock(prog, func, i);
    } else {
      ExitHasNoHead(prog, func, t);
    }
  }

  lemma ExitHasNoHead(prog: Program, func: FuncNode, t: int)
    requires Good(prog, func) && func.start <= t <= func.end
    ensures BlockOf(prog, func, t) != Exit(func)
  {
    assert Special(Exit(func), 1);
  }
}
