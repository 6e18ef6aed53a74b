/** func_add_special_bb, func_search_bb_with_head and func_add_bb_edges of cfg.c. */
module CfgEdges {
  import opened Bpf
  import opened SortedSeq
  import opened CfgNodes
  import opened CfgBlocks

  // ----- ENTRY and EXIT

  ghost predicate Special(bb: BbNode, idx: nat)
    reads bb`head, bb`idx
  {
    bb.head == Null && bb.idx == idx
  }

  method FuncInsertDummyBb(heap: Heap, func: FuncNode, p: nat) returns (bb: BbNode)
    requires p <= |func.bbs|
    modifies heap, func`bbs
    ensures fresh(bb) && func.bbs == InsertAt(old(func.bbs), p, bb)
    ensures Special(bb, 0) && bb.l == func && bb.ePrevs == [] && bb.eSuccs == []
    ensures heap.live == old(heap.live) + {bb}
  {
    bb := new BbNode();
    heap.live := heap.live + {bb};
    bb.l := func;
    func.bbs := InsertAt(func.bbs, p, bb);
  }

  method FuncAddSpecialBb(heap: Heap, func: FuncNode)
    modifies heap, func`bbs
    ensures |func.bbs| == |old(func.bbs)| + 2
    ensures Blocks(func) == old(func.bbs)
    ensures fresh(Entry(func)) && fresh(Exit(func)) && Entry(func) != Exit(func)
    ensures Special(Entry(func), ENTRY_BLOCK_INDEX) && Special(Exit(func), EXIT_BLOCK_INDEX)
    ensures Bare(Entry(func), func) && Bare(Exit(func), func)
    ensures heap.live == old(heap.live) + {Entry(func), Exit(func)}
  {
    var bb := FuncInsertDummyBb(heap, func, 0);
    bb.idx := ENTRY_BLOCK_INDEX;
    bb := FuncInsertDummyBb(heap, func, |func.bbs|);
    bb.idx := EXIT_BLOCK_INDEX;
  }

  ghost predicate Bare(bb: BbNode, func: FuncNode)
    reads bb
  {
    bb.l == func && bb.ePrevs == [] && bb.eSuccs == []
  }

  function Entry(func: FuncNode): BbNode
    reads func
    requires |func.bbs| >= 2
  {
    func.bbs[0]
  }

  function Exit(func: FuncNode): BbNode
    reads func
    requires |func.bbs| >= 2
  {
    func.bbs[|func.bbs| - 1]
  }

  /** The blocks between ENTRY and EXIT. */
  function Blocks(func: FuncNode): seq<BbNode>
    reads func
    requires |func.bbs| >= 2
  {
    func.bbs[1..|func.bbs| - 1]
  }

  // ----- the layout of one function

  /** Blocks start at exactly the leaders, in order, and each ends before the next one. */
  ghost predicate BlocksLaid(prog: Program, lo: int, hi: int, blocks: seq<BbNode>)
    reads blocks
  {
    && 0 <= lo <= hi < |prog|
    && blocks != []
    && TailsSet(blocks, hi)
    && LeaderSeq(prog, lo, hi, Heads(blocks))
  }

  ghost predicate Laid(prog: Program, func: FuncNode)
    reads func, func.bbs
  {
    && |func.bbs| >= 3
    && Special(Entry(func), ENTRY_BLOCK_INDEX)
    && Special(Exit(func), EXIT_BLOCK_INDEX)
    && BlocksLaid(prog, func.start, func.end, Blocks(func))
    && func.bbNum == |func.bbs|
    && NoDup(func.bbs)
  }

  // ----- edges

  ghost predicate EdgeIs(e: EdgeNode, l: EdgeLink, src: BbNode, flags: Flags)
    reads e
  {
    e.l == l && e.src == src && e.flags == flags
  }

  /** What the search returns: the block headed by x, or null if there is none. */
  ghost predicate Found(bbs: seq<BbNode>, x: int, bb: BbNode?)
    reads bbs`head
  {
    if bb == null then forall b | b in bbs :: b.head != At(x)
    else bb in bbs && bb.head == At(x)
  }

  method FuncSearchBbWithHead(func: FuncNode, insn: int) returns (bb: BbNode?)
    ensures Found(func.bbs, insn, bb)
  {
    for i := 0 to |func.bbs|
      invariant forall j | 0 <= j < i :: func.bbs[j].head != At(insn)
    {
      if func.bbs[i].head == At(insn) {
        return func.bbs[i];
      }
    }
    return null;
  }

  ghost predicate FallEdge(e: EdgeNode, b: BbNode, next: BbNode)
    reads e
  {
    EdgeIs(e, OnSuccs(b), b, EDGE_FLAG_FALLTHROUGH) && e.dst == next
  }

  ghost predicate JumpEdge(e: EdgeNode, b: BbNode, bbs: seq<BbNode>, x: int)
    reads e, bbs`head
  {
    EdgeIs(e, OnSuccs(b), b, EDGE_FLAG_JUMP) && Found(bbs, x, e.dst)
  }

  /** The outgoing edges of b, whose last instruction is insn at pc, and which next follows in the list. */
  ghost predicate SuccsOk(insn: Insn, pc: int, bbs: seq<BbNode>, b: BbNode, next: BbNode)
    reads b`eSuccs, b.eSuccs, bbs`head
  {
    if !IsJmpInsn(insn.code) || insn.code.op == BPF_EXIT then
      |b.eSuccs| == 1 && FallEdge(b.eSuccs[0], b, next)
    else if insn.code.op == BPF_JA then
      |b.eSuccs| == 1 && JumpEdge(b.eSuccs[0], b, bbs, pc + insn.off + 1)
    else
      |b.eSuccs| == 2 && b.eSuccs[0] != b.eSuccs[1]
      && FallEdge(b.eSuccs[0], b, next) && JumpEdge(b.eSuccs[1], b, bbs, pc + insn.off + 1)
  }

  /** new_edge, the assignments to dst and flags, and list_add_tail on the successor list. */
  method AddSucc(heap: Heap, bb: BbNode, dst: BbNode?, flags: Flags) returns (e: EdgeNode)
    modifies heap, bb`eSuccs
    ensures fresh(e) && bb.eSuccs == old(bb.eSuccs) + [e]
    ensures EdgeIs(e, OnSuccs(bb), bb, flags) && e.dst == dst
    ensures heap.live == old(heap.live) + {e}
  {
    e := new EdgeNode(bb, null, EDGE_FLAG_EMPTY);
    heap.live := heap.live + {e};
    e.dst := dst;
    e.flags := e.flags.Or(flags);
    bb.eSuccs := bb.eSuccs + [e];
    e.l := OnSuccs(bb);
  }

  /** new_edge and list_add_tail on the predecessor list of the exit block. */
  method AddPred(heap: Heap, exit: BbNode, src: BbNode) returns (p: EdgeNode)
    modifies heap, exit`ePrevs
    ensures fresh(p) && exit.ePrevs == old(exit.ePrevs) + [p]
    ensures EdgeIs(p, OnPrevs(exit), src, EDGE_FLAG_FALLTHROUGH) && p.dst == exit
    ensures heap.live == old(heap.live) + {p}
  {
    p := new EdgeNode(src, exit, EDGE_FLAG_FALLTHROUGH);
    heap.live := heap.live + {p};
    exit.ePrevs := exit.ePrevs + [p];
    p.l := OnPrevs(exit);
  }

  /** The body of func_add_bb_edges's loop: the outgoing edges of one block. */
  method AddSuccs(heap: Heap, prog: Program, func: FuncNode, bb: BbNode, next: BbNode)
    requires bb.eSuccs == []
    requires bb.tail.At? && 0 <= bb.tail.pos < |prog|
    modifies heap, bb`eSuccs
    ensures SuccsOk(prog[bb.tail.pos], bb.tail.pos, func.bbs, bb, next)
    ensures forall e | e in bb.eSuccs :: fresh(e)
    ensures heap.live == old(heap.live) + set e | e in bb.eSuccs
  {
    var insn, pc := prog[bb.tail.pos], bb.tail.pos;
    if !IsJmpInsn(insn.code) || insn.code.op == BPF_EXIT {
      var e := AddSucc(heap, bb, next, EDGE_FLAG_FALLTHROUGH);
      return;
    } else if insn.code.op == BPF_JA {
      var dst := FuncSearchBbWithHead(func, pc + insn.off + 1);
      var e := AddSucc(heap, bb, dst, EDGE_FLAG_JUMP);
      return;
    }
    var e := AddSucc(heap, bb, next, EDGE_FLAG_FALLTHROUGH);
    var dst := FuncSearchBbWithHead(func, pc + insn.off + 1);
    e := AddSucc(heap, bb, dst, EDGE_FLAG_JUMP);
  }

  ghost predicate EntryWired(entry: BbNode, first: BbNode)
    reads entry, entry.eSuccs
  {
    |entry.eSuccs| == 1 && FallEdge(entry.eSuccs[0], entry, first) && entry.ePrevs == []
  }

  ghost predicate ExitWired(exit: BbNode, last: BbNode)
    reads exit, exit.ePrevs
  {
    && |exit.ePrevs| == 1
    && EdgeIs(exit.ePrevs[0], OnPrevs(exit), last, EDGE_FLAG_FALLTHROUGH)
    && exit.ePrevs[0].dst == exit
    && exit.eSuccs == []
  }

  /** Block b has its outgoing edges. */
  ghost predicate BlockWired(prog: Program, bbs: seq<BbNode>, b: BbNode, next: BbNode)
    reads b, b.eSuccs, bbs`head
  {
    && b.ePrevs == []
    && b.tail.At? && 0 <= b.tail.pos < |prog|
    && SuccsOk(prog[b.tail.pos], b.tail.pos, bbs, b, next)
  }

  ghost function EdgesOf(bbs: seq<BbNode>): set<EdgeNode>
    reads bbs`eSuccs, bbs`ePrevs
  {
    set b, e | b in bbs && e in b.eSuccs + b.ePrevs :: e
  }

  /** func_add_bb_edges before its loop: the edge out of ENTRY and the edge into EXIT. */
  method AddEntryExitEdges(heap: Heap, func: FuncNode)
    requires |func.bbs| >= 3 && NoDup(func.bbs)
    requires forall b | b in func.bbs :: b.eSuccs == [] && b.ePrevs == []
    modifies heap, func.bbs`eSuccs, func.bbs`ePrevs
    ensures EntryWired(Entry(func), func.bbs[1]) && ExitWired(Exit(func), func.bbs[|func.bbs| - 2])
    ensures forall i | 0 < i < |func.bbs| - 1 :: func.bbs[i].eSuccs == [] && func.bbs[i].ePrevs == []
    ensures forall e | e in EdgesOf(func.bbs) :: fresh(e)
    ensures heap.live == old(heap.live) + EdgesOf(func.bbs)
  {
    var entry, exit := Entry(func), Exit(func);
    assert forall i | 0 <= i < |func.bbs| :: func.bbs[i] in func.bbs;
    var e := AddSucc(heap, entry, func.bbs[1], EDGE_FLAG_FALLTHROUGH);
    var p := AddPred(heap, exit, func.bbs[|func.bbs| - 2]);
    assert EdgesOf(func.bbs) == {e, p} by {
      assert e in entry.eSuccs + entry.ePrevs && p in exit.eSuccs + exit.ePrevs;
    }
  }

  /** The special blocks have their edges, and so have the blocks before position n. */
  ghost predicate WiredUpTo(prog: Program, bbs: seq<BbNode>, n: nat)
    reads bbs, EdgesOf(bbs)
  {
    assert forall i, e | 0 <= i < |bbs| && e in bbs[i].eSuccs + bbs[i].ePrevs :: bbs[i] in bbs && e in EdgesOf(bbs);
    && |bbs| >= 3
    && n < |bbs|
    && EntryWired(bbs[0], bbs[1])
    && ExitWired(bbs[|bbs| - 1], bbs[|bbs| - 2])
    && (forall i | 0 < i < n :: BlockWired(prog, bbs, bbs[i], bbs[i + 1]))
    && forall i | n <= i < |bbs| - 1 :: bbs[i].eSuccs == [] && bbs[i].ePrevs == []
  }

  /** Every block of the list, special ones included, has exactly its edges. */
  ghost predicate AllWired(prog: Program, bbs: seq<BbNode>)
    reads bbs, EdgesOf(bbs)
  {
    |bbs| >= 3 && WiredUpTo(prog, bbs, |bbs| - 1)
  }

  /** AddSuccs adds its edges, and no others, to those of the list. */
  method AddSuccsAndCount(heap: Heap, prog: Program, func: FuncNode, bb: BbNode, next: BbNode)
    requires bb in func.bbs && bb.eSuccs == [] && bb.ePrevs == []
    requires bb.tail.At? && 0 <= bb.tail.pos < |prog|
    modifies heap, bb`eSuccs
    ensures SuccsOk(prog[bb.tail.pos], bb.tail.pos, func.bbs, bb, next)
    ensures forall e | e in EdgesOf(func.bbs) :: e in old(EdgesOf(func.bbs)) || fresh(e)
    ensures old(EdgesOf(func.bbs)) <= EdgesOf(func.bbs)
    ensures heap.live == old(heap.live) + (EdgesOf(func.bbs) - old(EdgesOf(func.bbs)))
  {
    AddSuccs(heap, prog, func, bb, next);
    ghost var added := set e | e in bb.eSuccs;
    forall x | x in EdgesOf(func.bbs) ensures x in old(EdgesOf(func.bbs)) || x in added {
      var b, e :| b in func.bbs && e in b.eSuccs + b.ePrevs && e == x;
      assert b != bb ==> e in old(b.eSuccs + b.ePrevs);
    }
    forall x | x in old(EdgesOf(func.bbs)) ensures x in EdgesOf(func.bbs) {
      var b, e :| b in func.bbs && e in old(b.eSuccs + b.ePrevs) && e == x;
      assert e in b.eSuccs + b.ePrevs;
    }
    forall e | e in bb.eSuccs ensures e in EdgesOf(func.bbs) {
      assert bb in func.bbs && e in bb.eSuccs + bb.ePrevs;
    }
  }

  /** One turn of func_add_bb_edges's loop. */
  method WireBlock(heap: Heap, prog: Program, func: FuncNode, n: nat)
    requires 0 < n < |func.bbs| - 1 && NoDup(func.bbs)
    requires WiredUpTo(prog, func.bbs, n)
    requires func.bbs[n].tail.At? && 0 <= func.bbs[n].tail.pos < |prog|
    modifies heap, func.bbs`eSuccs
    ensures WiredUpTo(prog, func.bbs, n + 1)
    ensures forall e | e in EdgesOf(func.bbs) :: e in old(EdgesOf(func.bbs)) || fresh(e)
    ensures old(EdgesOf(func.bbs)) <= EdgesOf(func.bbs)
    ensures heap.live == old(heap.live) + (EdgesOf(func.bbs) - old(EdgesOf(func.bbs)))
  {
    hide SuccsOk;
    var bb := func.bbs[n];
    AddSuccsAndCount(heap, prog, func, bb, func.bbs[n + 1]);
    forall i | 0 < i < n ensures BlockWired(prog, func.bbs, func.bbs[i], func.bbs[i + 1]) {
      var b := func.bbs[i];
      assert old(BlockWired(prog, func.bbs, b, func.bbs[i + 1]));
      assert forall k | 0 <= k < |b.eSuccs| :: b.eSuccs[k] == old(b.eSuccs)[k] && unchanged(old(b.eSuccs)[k]);
    }
  }

  /** The loop of func_add_bb_edges. */
  method WireBlocks(heap: Heap, prog: Program, func: FuncNode)
    requires NoDup(func.bbs) && WiredUpTo(prog, func.bbs, 1)
    requires forall i | 0 < i < |func.bbs| - 1 :: func.bbs[i].tail.At? && 0 <= func.bbs[i].tail.pos < |prog|
    requires EdgesOf(func.bbs) <= heap.live
    modifies heap, func.bbs`eSuccs
    ensures AllWired(prog, func.bbs)
    ensures forall e | e in EdgesOf(func.bbs) :: e in old(EdgesOf(func.bbs)) || fresh(e)
    ensures heap.live == old(heap.live) + EdgesOf(func.bbs) && old(EdgesOf(func.bbs)) <= EdgesOf(func.bbs)
  {
    for i := 1 to |func.bbs| - 1
      invariant WiredUpTo(prog, func.bbs, i)
      invariant forall e | e in EdgesOf(func.bbs) :: e in old(EdgesOf(func.bbs)) || fresh(e)
      invariant heap.live == old(heap.live) + EdgesOf(func.bbs) && old(EdgesOf(func.bbs)) <= EdgesOf(func.bbs)
    {
      WireBlock(heap, prog, func, i);
    }
  }

  /** func_add_bb_edges. */
  method FuncAddBbEdges(heap: Heap, prog: Program, func: FuncNode)
    requires |func.bbs| >= 3 && NoDup(func.bbs)
    requires forall i | 0 < i < |func.bbs| - 1 :: func.bbs[i].tail.At? && 0 <= func.bbs[i].tail.pos < |prog|
    requires forall b | b in func.bbs :: b.eSuccs == [] && b.ePrevs == []
    modifies heap, func.bbs`eSuccs, func.bbs`ePrevs
    ensures AllWired(prog, func.bbs)
    ensures forall e | e in EdgesOf(func.bbs) :: fresh(e)
    ensures heap.live == old(heap.live) + EdgesOf(func.bbs)
  {
    hide EntryWired, ExitWired, BlockWired, SuccsOk;
    AddEntryExitEdges(heap, func);
    WireBlocks(heap, prog, func);
  }

  /** When jumps stay inside, every block ends inside the function and not before it starts. */
  lemma TailsInside(prog: Program, func: FuncNode)
    requires Laid(prog, func) && Closed(prog, func.start, func.end)
    ensures forall i | 0 < i < |func.bbs| - 1 ::
              && func.bbs[i].head.At? && func.bbs[i].tail.At?
              && func.start <= func.bbs[i].head.pos <= func.bbs[i].tail.pos <= func.end
  {
    var blocks := Blocks(func);
    var heads := Heads(blocks);
    forall i | 0 <= i < |blocks|
      ensures blocks[i].tail.At? && func.start <= blocks[i].head.pos <= blocks[i].tail.pos <= func.end {
      assert heads[i] in heads && TailOk(blocks, i, func.end);
      assert IsLeader(prog, func.start, func.end, heads[i]);
      if i + 1 < |blocks| {
        assert heads[i + 1] in heads;
        assert IsLeader(prog, func.start, func.end, heads[i + 1]);
      }
    }
    forall i | 0 < i < |func.bbs| - 1 ensures func.bbs[i] == blocks[i - 1] {
    }
  }
}
