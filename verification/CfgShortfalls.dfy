/** Programs whose graph falls short of their runs. */
module CfgShortfalls {
  import opened Bpf
  import opened CfgNodes
  import opened CfgEdges
  import opened CfgBuild
  import opened CfgPaths
  import opened CfgRuns

  /** After an unconditional jump the edge leads where the jump goes, except for the long form, whose
      displacement is imm: there it does if and only if off says the same. */
  lemma LongJumpIff(prog: Program, func: FuncNode, i: nat)
    requires Good(prog, func) && Graph(prog, func) && 0 < i < |func.bbs| - 1
    requires func.bbs[i].tail.At? && 0 <= func.bbs[i].tail.pos < |prog| && IsJa(prog[func.bbs[i].tail.pos])
    ensures
      var s := func.bbs[i].tail.pos;
      |func.bbs[i].eSuccs| == 1
      && ((forall t | t in Next(prog[s], s) ::
             func.bbs[i].eSuccs[0].dst != null && func.bbs[i].eSuccs[0].dst.head == At(t))
          <==> !IsLongJa(prog[s]) || prog[s].imm == prog[s].off)
  {
    JaEdges(prog, func, i);
    var s := func.bbs[i].tail.pos;
    if IsLongJa(prog[s]) {
      assert s + prog[s].imm + 1 in Next(prog[s], s);
    }
  }

  /** A program without pseudo calls is one function. */
  lemma OneFunction(prog: Program)
    requires prog != [] && Closed(prog, 0, |prog| - 1)
    requires forall i | 0 <= i < |prog| :: !IsPseudoCall(prog[i])
    ensures WellFormedProgram(prog)
  {
    assert forall x :: FuncStart(prog, x) <==> x == 0;
  }

  /** A jump that is not accounted for takes a run out of the graph. */
  lemma JumpLost(prog: Program, func: FuncNode, t: int)
    requires Good(prog, func) && Graph(prog, func)
    requires Steps(prog, func.start, func.end, func.start, t) && !JumpOk(prog, func.start, func.end, func.start, t)
    ensures IsRun(prog, func.start, func.end, [func.start, t]) && !DescribesRun(prog, func, [func.start, t])
  {
    hide Graph, DescribesRun, JumpOk, Covered, Laid;
    StartDescribed(prog, func);
    CoveredIff(prog, func, func.start, t);
    StepDescribed(prog, func, [func.start], t);
    assert [func.start] + [t] == [func.start, t];
  }

  /** A JMP32 ja with imm +1 and off 0; exit; exit. */
  const LONG_JUMP: Program := [
    Insn(Opcode(BPF_JA, 0, BPF_JMP32), 0, 0, 1),
    Insn(Opcode(BPF_EXIT, 0, BPF_JMP), 0, 0, 0),
    Insn(Opcode(BPF_EXIT, 0, BPF_JMP), 0, 0, 0)
  ]

  lemma LongJumpLost(func: FuncNode)
    requires Good(LONG_JUMP, func) && Graph(LONG_JUMP, func) && func.start == 0 && func.end == 2
    ensures WellFormedProgram(LONG_JUMP)
    ensures IsRun(LONG_JUMP, 0, 2, [0, 2]) && !DescribesRun(LONG_JUMP, func, [0, 2])
  {
    OneFunction(LONG_JUMP);
    assert IsJa(LONG_JUMP[0]) && 1 == 0 + LONG_JUMP[0].off + 1;
    assert IsLeader(LONG_JUMP, 0, 2, 1) && !IsLeader(LONG_JUMP, 0, 2, 2);
    JumpLost(LONG_JUMP, func, 2);
  }

  /** ja +2; an unreachable instruction; ja +1, also unreachable; exit; exit. */
  const LOST_JUMP: Program := [
    Insn(Opcode(BPF_JA, 0, BPF_JMP), 0, 2, 0),
    Insn(Opcode(0, 0, 7), 0, 0, 0),
    Insn(Opcode(BPF_JA, 0, BPF_JMP), 0, 1, 0),
    Insn(Opcode(BPF_EXIT, 0, BPF_JMP), 0, 0, 0),
    Insn(Opcode(BPF_EXIT, 0, BPF_JMP), 0, 0, 0)
  ]

  /** With unreachable code a run can leave the graph: the block of the first jump has only the edge of the second. */
  lemma UnreachableCodeLosesRun(func: FuncNode)
    requires Good(LOST_JUMP, func) && Graph(LOST_JUMP, func) && func.start == 0 && func.end == 4
    ensures WellFormedProgram(LOST_JUMP)
    ensures IsRun(LOST_JUMP, 0, 4, [0, 3]) && !DescribesRun(LOST_JUMP, func, [0, 3])
  {
    OneFunction(LOST_JUMP);
    assert IsJa(LOST_JUMP[0]) && 3 == 0 + LOST_JUMP[0].off + 1;
    assert IsLeader(LOST_JUMP, 0, 4, 3) && !IsLeader(LOST_JUMP, 0, 4, 1) && !IsLeader(LOST_JUMP, 0, 4, 2);
    assert !EndsAt(LOST_JUMP, 0, 4, 0, 0) && !EndsAt(LOST_JUMP, 0, 4, 0, 1);
    assert !LeadsTo(LOST_JUMP[2], 2, 3);
    assert forall e | 3 <= e <= 4 :: !NoLeader(LOST_JUMP, 0, 4, 0, e);
    JumpLost(LOST_JUMP, func, 3);
  }

  /** ja +1; an unreachable instruction; exit. */
  const HIDDEN_JUMP: Program := [
    Insn(Opcode(BPF_JA, 0, BPF_JMP), 0, 1, 0),
    Insn(Opcode(0, 0, 7), 0, 0, 0),
    Insn(Opcode(BPF_EXIT, 0, BPF_JMP), 0, 0, 0)
  ]

  /** With unreachable code the leader pass can leave a jump in the middle of a block. */
  lemma UnreachableCodeHidesJump(func: FuncNode)
    requires Good(HIDDEN_JUMP, func) && func.start == 0 && func.end == 2
    ensures WellFormedProgram(HIDDEN_JUMP)
    ensures !TerminatorsEndBlocks(HIDDEN_JUMP, 0, 2) && !Reachable(HIDDEN_JUMP, 0, 2, 1)
    ensures IsJa(HIDDEN_JUMP[0]) && BlockOf(HIDDEN_JUMP, func, 0).tail == At(1)
  {
    OneFunction(HIDDEN_JUMP);
    assert !IsLeader(HIDDEN_JUMP, 0, 2, 1);
    assert JumpTarget(HIDDEN_JUMP, 0, 2, 2) by {
      assert IsJa(HIDDEN_JUMP[0]) && 2 == 0 + HIDDEN_JUMP[0].off + 1;
    }
    TailIffLeaderNext(HIDDEN_JUMP, func, 0);
    InsideBlock(HIDDEN_JUMP, func, 0);
    TailIffLeaderNext(HIDDEN_JUMP, func, 1);
    if Reachable(HIDDEN_JUMP, 0, 2, 1) {
      ReachedByJump(HIDDEN_JUMP, 0, 2, 1);
      assert false;
    }
  }
}