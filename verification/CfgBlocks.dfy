/** func_append_bb and func_partition_bb of cfg.c: the basic blocks of one function, built in place. */
module CfgBlocks {
  import opened Bpf
  import opened SortedSeq
  import opened CfgNodes

  /** Every block has a first instruction, as all but the two special ones do. */
  ghost predicate Real(bbs: seq<BbNode>)
    reads bbs`head
  {
    forall i | 0 <= i < |bbs| :: bbs[i].head.At?
  }

  ghost function Heads(bbs: seq<BbNode>): (s: seq<int>)
    reads bbs
    requires Real(bbs)
    ensures |s| == |bbs| && forall i | 0 <= i < |s| :: s[i] == bbs[i].head.pos
  {
    seq(|bbs|, i requires 0 <= i < |bbs| && Real(bbs) reads bbs => bbs[i].head.pos)
  }

  ghost function BbSet(bbs: seq<BbNode>): set<BbNode> { set b | b in bbs }

  lemma HeadsAfterInsert(bbs: seq<BbNode>, heads: seq<int>, p: nat, bb: BbNode)
    requires p <= |bbs| && Real(bbs) && Heads(bbs) == heads && bb.head.At?
    ensures Real(InsertAt(bbs, p, bb))
    ensures Heads(InsertAt(bbs, p, bb)) == InsertAt(heads, p, bb.head.pos)
    ensures bb in InsertAt(bbs, p, bb)
  {
    assert InsertAt(bbs, p, bb)[p] == bb;
  }

  /** The new list, if any, differs from the old one by one fresh node, put where heads stay increasing. */
  method FuncAppendBb(heap: Heap, func: FuncNode, insn: int) returns (bb: BbNode)
    requires Real(func.bbs)
    modifies heap, func`bbs
    ensures Real(func.bbs) && bb in func.bbs && bb.head == At(insn)
    ensures Heads(func.bbs) == old(Inserted(Heads(func.bbs), insn))
    ensures
      var p := old(Pos(Heads(func.bbs), insn));
      if old(Has(Heads(func.bbs), insn)) then
        bb == old(func.bbs)[p] && func.bbs == old(func.bbs) && heap.live == old(heap.live)
      else
        fresh(bb) && func.bbs == InsertAt(old(func.bbs), p, bb) && heap.live == old(heap.live) + {bb}
        && bb.l == func && bb.ePrevs == [] && bb.eSuccs == []
  {
    hide Pos, InsertAt;
    ghost var heads := Heads(func.bbs);
    var i := 0;
    while i < |func.bbs|
      invariant 0 <= i <= |func.bbs|
      invariant forall j | 0 <= j < i :: heads[j] < insn
    {
      if func.bbs[i].head.pos == insn {
        PosUnique(heads, insn, i);
        return func.bbs[i];
      } else if func.bbs[i].head.pos > insn {
        break;
      }
      i := i + 1;
    }
    PosUnique(heads, insn, i);
    bb := new BbNode();
    heap.live := heap.live + {bb};
    bb.head := At(insn);
    bb.l := func;
    ghost var before := func.bbs;
    func.bbs := InsertAt(func.bbs, i, bb);
    HeadsAfterInsert(before, heads, i, bb);
  }

  /** Blocks in order that carry no edges yet. */
  ghost predicate BlocksBlank(func: FuncNode)
    reads func, func.bbs
  {
    && Real(func.bbs)
    && Increasing(Heads(func.bbs))
    && forall b | b in func.bbs :: b.l == func && b.ePrevs == [] && b.eSuccs == []
  }

  /** FuncAppendBb on a list in order, as the partition pass uses it. */
  method AddBlock(heap: Heap, func: FuncNode, insn: int)
    requires BlocksBlank(func) && BbSet(func.bbs) <= heap.live
    modifies heap, func`bbs
    ensures BlocksBlank(func)
    ensures forall x :: x in Heads(func.bbs) <==> x in old(Heads(func.bbs)) || x == insn
    ensures forall b | b in func.bbs :: b in old(func.bbs) || fresh(b)
    ensures heap.live == old(heap.live) + BbSet(func.bbs)
    ensures old(BbSet(func.bbs)) <= BbSet(func.bbs)
  {
    ghost var before, heads := func.bbs, Heads(func.bbs);
    InsertedMeaning(heads, insn);
    var bb := FuncAppendBb(heap, func, insn);
    if !Has(heads, insn) {
      InsertAtMembers(before, Pos(heads, insn), bb);
    }
  }

  lemma IncreasingHeadsNoDup(bbs: seq<BbNode>)
    requires Real(bbs) && Increasing(Heads(bbs))
    ensures NoDup(bbs)
  {
    forall i, j | 0 <= i < j < |bbs| ensures bbs[i] != bbs[j] {
      assert Heads(bbs)[i] < Heads(bbs)[j];
    }
  }

  /** The body of func_partition_bb_head's loop. */
  method AddLeaders(heap: Heap, insn: Insn, func: FuncNode, cur: int)
    requires BlocksBlank(func) && BbSet(func.bbs) <= heap.live
    modifies heap, func`bbs
    ensures BlocksBlank(func)
    ensures forall x :: x in Heads(func.bbs) <==> x in old(Heads(func.bbs)) || NewLeader(insn, cur, x)
    ensures forall b | b in func.bbs :: b in old(func.bbs) || fresh(b)
    ensures heap.live == old(heap.live) + BbSet(func.bbs)
    ensures old(BbSet(func.bbs)) <= BbSet(func.bbs)
  {
    if IsJmpInsn(insn.code) {
      var opcode := insn.code.op;
      if opcode == BPF_EXIT || opcode == BPF_CALL {
        return;
      }
      AddBlock(heap, func, cur + insn.off + 1);
      if opcode != BPF_JA {
        AddBlock(heap, func, cur + 1);
      }
    }
  }

  /** func_partition_bb_head: the block heads are the leaders, in whatever order they are met. */
  method FuncPartitionBbHead(heap: Heap, prog: Program, func: FuncNode)
    requires 0 <= func.start <= func.end < |prog|
    modifies heap, func`bbs
    ensures BlocksBlank(func) && forall b | b in func.bbs :: fresh(b)
    ensures func.bbs != [] && NoDup(func.bbs) && LeaderSeq(prog, func.start, func.end, Heads(func.bbs))
    ensures heap.live == old(heap.live) + BbSet(func.bbs)
  {
    func.bbs := [];
    AddBlock(heap, func, func.start);
    for cur := func.start to func.end + 1
      invariant BlocksBlank(func) && forall b | b in func.bbs :: fresh(b)
      invariant forall x :: x in Heads(func.bbs) <==> IsLeader(prog, func.start, cur - 1, x)
      invariant heap.live == old(heap.live) + BbSet(func.bbs)
    {
      LeaderStep(prog, func.start, cur);
      AddLeaders(heap, prog[cur], func, cur);
    }
    assert IsLeader(prog, func.start, func.end, func.start) && func.start in Heads(func.bbs);
    IncreasingHeadsNoDup(func.bbs);
  }

  /** The leaders that one instruction contributes. */
  predicate NewLeader(insn: Insn, cur: int, x: int) {
    || ((IsJa(insn) || IsCond(insn)) && x == cur + insn.off + 1)
    || (IsCond(insn) && x == cur + 1)
  }

  lemma LeaderStep(prog: Program, lo: int, cur: int)
    requires 0 <= lo <= cur < |prog|
    ensures forall x :: IsLeader(prog, lo, cur, x) <==> IsLeader(prog, lo, cur - 1, x) || NewLeader(prog[cur], cur, x)
  {
    forall x ensures JumpTarget(prog, lo, cur, x) <==>
                     || JumpTarget(prog, lo, cur - 1, x)
                     || ((IsJa(prog[cur]) || IsCond(prog[cur])) && x == cur + prog[cur].off + 1) {
    }
  }

  /** Block i ends where the next one starts, and its index counts from 2. */
  ghost predicate TailOk(bbs: seq<BbNode>, i: nat, end: int)
    reads bbs`head, bbs`tail, bbs`idx
    requires i < |bbs| && Real(bbs)
  {
    && bbs[i].idx == i + NUM_FIXED_BLOCKS
    && bbs[i].tail == At(if i == |bbs| - 1 then end else bbs[i + 1].head.pos - 1)
  }

  ghost predicate TailsSet(bbs: seq<BbNode>, end: int)
    reads bbs`head, bbs`tail, bbs`idx
  {
    Real(bbs) && forall i | 0 <= i < |bbs| :: TailOk(bbs, i, end)
  }

  method FuncPartitionBbTail(func: FuncNode)
    requires Real(func.bbs) && func.bbs != [] && NoDup(func.bbs)
    modifies func`bbNum, func.bbs`tail, func.bbs`idx
    ensures TailsSet(func.bbs, func.end) && func.bbNum == |func.bbs| + NUM_FIXED_BLOCKS
  {
    var bbIdx := NUM_FIXED_BLOCKS;
    var last := |func.bbs| - 1;
    func.bbs[last].tail := At(func.end);
    for i := 0 to last
      invariant bbIdx == i + NUM_FIXED_BLOCKS
      invariant func.bbs[last].tail == At(func.end)
      invariant forall j | 0 <= j < i :: TailOk(func.bbs, j, func.end)
    {
      label L:
      func.bbs[i].tail := At(func.bbs[i + 1].head.pos - 1);
      func.bbs[i].idx := bbIdx;
      bbIdx := bbIdx + 1;
      forall j | 0 <= j <= i ensures TailOk(func.bbs, j, func.end) {
        assert j < i ==> old@L(TailOk(func.bbs, j, func.end));
      }
    }
    label M:
    func.bbs[last].idx := bbIdx;
    bbIdx := bbIdx + 1;
    func.bbNum := bbIdx;
    forall j | 0 <= j <= last ensures TailOk(func.bbs, j, func.end) {
      assert j < last ==> old@M(TailOk(func.bbs, j, func.end));
    }
  }
}
