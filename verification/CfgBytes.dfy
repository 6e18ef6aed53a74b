/** The functions, blocks and edges of a finished graph, told from the bytes of the instructions alone. */
module CfgBytes {
  import opened Bpf
  import opened SortedSeq
  import opened CfgNodes
  import opened CfgFuncs
  import opened CfgBlocks
  import opened CfgEdges
  import opened CfgBuild

  /** Block 0 is ENTRY and the last one EXIT; the others are numbered from 2, start in increasing order, and
      reach as far as the next one or the end of the function. */
  lemma LayoutBytes(prog: Program, func: FuncNode, i: nat)
    requires Graph(prog, func) && i < |func.bbs|
    ensures
      var b, last := func.bbs[i], |func.bbs| - 1;
      && last >= 2 && func.bbNum == last + 1 && b.l == func
      && (if i == 0 then b.head == Null && b.idx == 0
          else if i == last then b.head == Null && b.idx == 1
          else && b.head.At? && b.idx == i + 1
               && b.tail == At(if i + 1 == last then func.end else Start(func, i + 1) - 1)
               && forall j | i < j < last :: func.bbs[j].head.At? && b.head.pos < func.bbs[j].head.pos)
  {
    var blocks := Blocks(func);
    assert func.bbs[i] in func.bbs;
    if 0 < i < |func.bbs| - 1 {
      assert func.bbs[i] == blocks[i - 1] && TailOk(blocks, i - 1, func.end);
      forall j | i < j < |func.bbs| - 1 ensures func.bbs[j].head.At? && func.bbs[i].head.pos < func.bbs[j].head.pos {
        assert func.bbs[j] == blocks[j - 1] && Heads(blocks)[i - 1] < Heads(blocks)[j - 1];
      }
    }
  }

  /** The first instruction of a block that has one. */
  ghost function Start(func: FuncNode, i: nat): int
    reads func, func.bbs
    requires i < |func.bbs|
  {
    if func.bbs[i].head.At? then func.bbs[i].head.pos else 0
  }

  /** A block starts at x exactly when the function does, or a jump that is no call and no exit leads to x, or a
      conditional one comes right before x. */
  lemma HeadBytes(prog: Program, func: FuncNode, x: int)
    requires Graph(prog, func)
    ensures 0 <= func.start <= func.end < |prog|
    ensures (exists i :: 0 < i < |func.bbs| - 1 && func.bbs[i].head == At(x))
            <==> || x == func.start
                 || exists k :: && func.start <= k <= func.end
                                && JumpByte(Byte(prog[k].code))
                                && (x == k + prog[k].off + 1 || (x == k + 1 && Byte(prog[k].code) / 16 != 0))
  {
    var blocks := Blocks(func);
    forall k | func.start <= k <= func.end
      ensures JumpByte(Byte(prog[k].code)) <==> IsJa(prog[k]) || IsCond(prog[k])
      ensures JumpByte(Byte(prog[k].code)) ==> (IsCond(prog[k]) <==> Byte(prog[k].code) / 16 != 0)
    {
      JumpKinds(prog[k]);
    }
    HeadsAreLeaders(prog, func, x);
    if AfterCond(prog, func.start, func.end, x) {
      assert JumpByte(Byte(prog[x - 1].code));
    }
  }

  /** The class is 5 or 6, and the operation neither 8 (a call) nor 9 (an exit). */
  predicate JumpByte(b: nat) {
    (b % 8 == 5 || b % 8 == 6) && b / 16 != 8 && b / 16 != 9
  }

  lemma JumpKinds(insn: Insn)
    ensures JumpByte(Byte(insn.code)) <==> IsJa(insn) || IsCond(insn)
    ensures JumpByte(Byte(insn.code)) ==> (IsCond(insn) <==> Byte(insn.code) / 16 != 0)
  {
    ByteFields(insn.code);
  }

  lemma HeadsAreLeaders(prog: Program, func: FuncNode, x: int)
    requires Laid(prog, func)
    ensures (exists i :: 0 < i < |func.bbs| - 1 && func.bbs[i].head == At(x))
            <==> IsLeader(prog, func.start, func.end, x)
  {
    hide IsLeader;
    var blocks := Blocks(func);
    if i :| 0 < i < |func.bbs| - 1 && func.bbs[i].head == At(x) {
      assert func.bbs[i] == blocks[i - 1] && Heads(blocks)[i - 1] == x;
    }
    if IsLeader(prog, func.start, func.end, x) {
      assert x in Heads(blocks);
      var j :| 0 <= j < |blocks| && Heads(blocks)[j] == x;
      assert func.bbs[j + 1] == blocks[j];
    }
  }

  /** An edge on the successor list of b: where it leads and its flag word. */
  ghost predicate Leads(e: EdgeNode, b: BbNode, dst: BbNode?, fallthrough: bool, jump: bool)
    reads e
  {
    e.l == OnSuccs(b) && e.src == b && e.dst == dst && e.flags == Flags(fallthrough, jump)
  }

  /** A jump edge leads to the block that starts at x, and nowhere when there is none. */
  ghost predicate LeadsToHead(e: EdgeNode, b: BbNode, func: FuncNode, x: int)
    reads e, func, func.bbs
  {
    && Leads(e, b, e.dst, false, true)
    && (e.dst == null ==> forall i | 0 <= i < |func.bbs| :: func.bbs[i].head != At(x))
    && (e.dst != null ==> exists i :: 0 <= i < |func.bbs| && func.bbs[i] == e.dst && func.bbs[i].head == At(x))
  }

  /** The edges of every block, told from the opcode byte of its last instruction. */
  lemma EdgeBytes(prog: Program, func: FuncNode, i: nat)
    requires Graph(prog, func) && 0 < i < |func.bbs| - 1
    ensures func.bbs[i].tail.At? && 0 <= func.bbs[i].tail.pos < |prog|
    ensures
      var b := func.bbs[i];
      var p := b.tail.pos;
      var code := Byte(prog[p].code);
      && b.ePrevs == []
      && if (code % 8 != 5 && code % 8 != 6) || code / 16 == 9 then
           |b.eSuccs| == 1 && Leads(b.eSuccs[0], b, func.bbs[i + 1], true, false)
         else if code / 16 == 0 then
           |b.eSuccs| == 1 && LeadsToHead(b.eSuccs[0], b, func, p + prog[p].off + 1)
         else
           |b.eSuccs| == 2 && b.eSuccs[0] != b.eSuccs[1]
           && Leads(b.eSuccs[0], b, func.bbs[i + 1], true, false)
           && LeadsToHead(b.eSuccs[1], b, func, p + prog[p].off + 1)
  {
    var b := func.bbs[i];
    assert BlockWired(prog, func.bbs, b, func.bbs[i + 1]);
    ByteFields(prog[b.tail.pos].code);
    forall x, e | e in b.eSuccs && JumpEdge(e, b, func.bbs, x) ensures LeadsToHead(e, b, func, x) {
    }
  }

  /** ENTRY has one edge, to the first block; EXIT has one on its predecessor list, from the last. */
  lemma SpecialEdges(prog: Program, func: FuncNode)
    requires Graph(prog, func)
    ensures
      var entry, exit := func.bbs[0], func.bbs[|func.bbs| - 1];
      && |func.bbs| >= 3 && |entry.eSuccs| == |exit.ePrevs| == 1 && entry.ePrevs == [] && exit.eSuccs == []
      && Leads(entry.eSuccs[0], entry, func.bbs[1], true, false)
      && var p := exit.ePrevs[0];
         p.l == OnPrevs(exit) && p.src == func.bbs[|func.bbs| - 2] && p.dst == exit && p.flags == Flags(true, false)
  {
  }

  /** What Build asks of one function lo..hi: jumps that are no calls and no exits stay inside, and the last
      instruction is an exit or an unconditional jump. */
  lemma ClosedBytes(prog: Program, lo: int, hi: int)
    requires 0 <= lo <= hi < |prog|
    ensures Closed(prog, lo, hi)
            <==> && (forall k | lo <= k <= hi && JumpByte(Byte(prog[k].code)) :: lo <= k + prog[k].off + 1 <= hi)
                 && (Byte(prog[hi].code) % 8 == 5 || Byte(prog[hi].code) % 8 == 6)
                 && (Byte(prog[hi].code) / 16 == 9 || Byte(prog[hi].code) / 16 == 0)
  {
    forall k | lo <= k <= hi ensures JumpByte(Byte(prog[k].code)) <==> IsJa(prog[k]) || IsCond(prog[k]) {
      JumpKinds(prog[k]);
    }
    ByteFields(prog[hi].code);
  }

  /** A call to the instruction after the next, an exit, and the function called, which is another exit. */
  const CALLER: Program := [
    Insn(Opcode(8, 0, 5), 1, 1, 0),
    Insn(Opcode(9, 0, 5), 0, 0, 0),
    Insn(Opcode(9, 0, 5), 0, 0, 0)
  ]

  lemma CallerStarts()
    ensures forall x :: FuncStart(CALLER, x) <==> x == 0 || x == 2
  {
    assert IsPseudoCall(CALLER[0]) && CallTarget(CALLER, 3, 2);
  }

  /** It meets what Build asks. */
  lemma CallerWellFormed()
    ensures WellFormedProgram(CALLER) && Byte(CALLER[0].code) == 0x85 && Byte(CALLER[1].code) == 0x95
  {
    hide FuncStart;
    CallerStarts();
    forall lo, hi | FuncRange(CALLER, lo, hi) ensures (lo, hi) == (0, 1) || (lo, hi) == (2, 2) {
      assert FuncStart(CALLER, 2);
    }
    assert Closed(CALLER, 0, 1) && Closed(CALLER, 2, 2);
  }

  /** Every finished list of its functions holds two: 0..1 and 2..2. */
  lemma CallerPartition(cfg: CfgRoot)
    requires FuncsPartitioned(CALLER, cfg)
    ensures Starts(cfg.funcs) == [0, 2] && Ends(cfg.funcs) == [1, 2]
  {
    hide FuncStart;
    CallerStarts();
    CallerList(Starts(cfg.funcs));
  }

  lemma CallerList(starts: seq<int>)
    requires Increasing(starts) && forall x :: x in starts <==> x == 0 || x == 2
    ensures starts == [0, 2]
  {
    IncreasingUnique(starts, [0, 2]);
  }
}
