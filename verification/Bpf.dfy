/** eBPF instructions as cfg.c reads them, and the control flow that section 4.3 of RFC 9669
    gives them.  A program counter is an index into the instruction array. */
module Bpf {
  import opened SortedSeq

  const BPF_JMP := 5
  const BPF_JMP32 := 6
  const BPF_JA := 0
  const BPF_CALL := 8
  const BPF_EXIT := 9
  const BPF_PSEUDO_CALL := 1

  type Operation = op: nat | op < 16
  type SourceBit = bit: nat | bit < 2
  type Class = c: nat | c < 8

  /** The opcode byte in its three fields: the high four bits, the source bit and the low three bits. */
  datatype Opcode = Opcode(op: Operation, source: SourceBit, class_: Class)

  const PSEUDO_CALL_CODE := Opcode(BPF_CALL, 0, BPF_JMP)

  datatype Insn = Insn(code: Opcode, srcReg: nat, off: int, imm: int)

  type Program = seq<Insn>

  predicate IsJmpInsn(code: Opcode) {
    code.class_ == BPF_JMP || code.class_ == BPF_JMP32
  }

  predicate IsExit(insn: Insn) { IsJmpInsn(insn.code) && insn.code.op == BPF_EXIT }

  predicate IsCall(insn: Insn) { IsJmpInsn(insn.code) && insn.code.op == BPF_CALL }

  predicate IsJa(insn: Insn) { IsJmpInsn(insn.code) && insn.code.op == BPF_JA }

  predicate IsCond(insn: Insn) {
    IsJmpInsn(insn.code) && insn.code.op != BPF_EXIT && insn.code.op != BPF_CALL && insn.code.op != BPF_JA
  }

  predicate IsPseudoCall(insn: Insn) {
    insn.code == PSEUDO_CALL_CODE && insn.srcReg == BPF_PSEUDO_CALL
  }

  /** The jump with a 32-bit offset: class JMP32, operation JA.  It moves by imm, not by off. */
  predicate IsLongJa(insn: Insn) { IsJa(insn) && insn.code.class_ == BPF_JMP32 }

  /** Where control can go from pc, staying in the same function: a call comes back. */
  function Next(insn: Insn, pc: int): set<int> {
    if IsExit(insn) then {}
    else if IsLongJa(insn) then {pc + insn.imm + 1}
    else if IsJa(insn) then {pc + insn.off + 1}
    else if IsCond(insn) then {pc + 1, pc + insn.off + 1}
    else {pc + 1}
  }

  // ----- opcode bytes

  /** The byte that the three fields make up. */
  function Byte(code: Opcode): (b: nat)
    ensures b < 256
  {
    16 * code.op + 8 * code.source + code.class_
  }

  /** BPF_OP, BPF_SRC and BPF_CLASS of the byte give the fields back. */
  lemma ByteFields(code: Opcode)
    ensures code.op == Byte(code) / 16 && code.source == Byte(code) % 16 / 8 && code.class_ == Byte(code) % 8
  {
    Sixteens(code.op, 8 * code.source + code.class_);
    Eights(2 * code.op + code.source, code.class_);
    Eights(code.source, code.class_);
  }

  lemma Sixteens(q: nat, r: nat)
    requires r < 16
    ensures (16 * q + r) / 16 == q && (16 * q + r) % 16 == r
  {
  }

  lemma Eights(q: nat, r: nat)
    requires r < 8
    ensures (8 * q + r) / 8 == q && (8 * q + r) % 8 == r
  {
  }

  /** Every byte is an opcode. */
  lemma EveryByte(b: nat) returns (code: Opcode)
    requires b < 256
    ensures Byte(code) == b
  {
    code := Opcode(b / 16, b % 16 / 8, b % 16 % 8);
  }

  /** What kind of instruction a byte stands for. */
  lemma KindBytes(insn: Insn)
    ensures
      var b := Byte(insn.code);
      && (IsJmpInsn(insn.code) <==> b % 8 == 5 || b % 8 == 6)
      && (IsJa(insn) <==> b in {0x05, 0x06, 0x0D, 0x0E})
      && (IsCall(insn) <==> b in {0x85, 0x86, 0x8D, 0x8E})
      && (IsExit(insn) <==> b in {0x95, 0x96, 0x9D, 0x9E})
      && (IsCond(insn) <==> (b % 8 == 5 || b % 8 == 6) && b / 16 != 0 && b / 16 != 8 && b / 16 != 9)
      && (IsLongJa(insn) <==> b == 0x06 || b == 0x0E)
      && (IsPseudoCall(insn) <==> b == 0x85 && insn.srcReg == 1)
  {
    ByteFields(insn.code);
  }

  /** Where control goes, told from the byte, as section 4.3 of RFC 9669 has it. */
  lemma NextBytes(insn: Insn, pc: int)
    ensures
      var b := Byte(insn.code);
      Next(insn, pc) ==
        if b % 8 != 5 && b % 8 != 6 then {pc + 1}
        else if b / 16 == 0 then {pc + 1 + if b % 8 == 5 then insn.off else insn.imm}
        else if b / 16 == 8 then {pc + 1}
        else if b / 16 == 9 then {}
        else {pc + 1, pc + 1 + insn.off}
  {
    ByteFields(insn.code);
  }

  // ----- functions of a program

  /** x starts a function: it is the first instruction or the target of a pseudo call. */
  ghost predicate FuncStart(prog: Program, x: int) {
    x == 0 || CallTarget(prog, |prog|, x)
  }

  /** x is the target of a pseudo call among the first n instructions. */
  ghost predicate CallTarget(prog: Program, n: nat, x: int)
    requires n <= |prog|
  {
    exists i | 0 <= i < n :: IsPseudoCall(prog[i]) && x == i + prog[i].off + 1
  }

  lemma CallTargetStep(prog: Program, n: nat)
    requires n < |prog|
    ensures forall x :: CallTarget(prog, n + 1, x)
                        <==> CallTarget(prog, n, x) || (IsPseudoCall(prog[n]) && x == n + prog[n].off + 1)
  {
  }

  /** Functions start at the first instruction and where a call with opcode byte 0x85 and source register 1 leads. */
  lemma FuncStartBytes(prog: Program)
    ensures forall x :: FuncStart(prog, x) <==>
                        || x == 0
                        || exists i :: 0 <= i < |prog| && Byte(prog[i].code) == 0x85 && prog[i].srcReg == 1
                                       && x == i + prog[i].off + 1
  {
    forall i | 0 <= i < |prog|
      ensures IsPseudoCall(prog[i]) <==> Byte(prog[i].code) == 0x85 && prog[i].srcReg == 1
    {
      KindBytes(prog[i]);
    }
  }

  /** lo..hi are the instructions of one function. */
  ghost predicate FuncRange(prog: Program, lo: int, hi: int) {
    && 0 <= lo <= hi < |prog|
    && FuncStart(prog, lo)
    && (hi == |prog| - 1 || FuncStart(prog, hi + 1))
    && forall x | lo < x <= hi :: !FuncStart(prog, x)
  }

  ghost predicate CallsInside(prog: Program) {
    forall i | 0 <= i < |prog| && IsPseudoCall(prog[i]) :: 0 <= i + prog[i].off + 1 < |prog|
  }

  // ----- well-formedness of one function lo..hi

  ghost predicate JumpsInside(prog: Program, lo: int, hi: int)
    requires 0 <= lo <= hi < |prog|
  {
    forall i | lo <= i <= hi && (IsJa(prog[i]) || IsCond(prog[i])) :: lo <= i + prog[i].off + 1 <= hi
  }

  /** Jumps stay inside the function and its last instruction does not fall through. */
  ghost predicate Closed(prog: Program, lo: int, hi: int) {
    && 0 <= lo <= hi < |prog|
    && JumpsInside(prog, lo, hi)
    && (IsExit(prog[hi]) || IsJa(prog[hi]))
  }

  /** Every long jump is also encoded in off, the only field cfg.c reads. */
  ghost predicate LongJumpsAgree(prog: Program, lo: int, hi: int)
    requires 0 <= lo <= hi < |prog|
  {
    forall i | lo <= i <= hi && IsLongJa(prog[i]) :: prog[i].imm == prog[i].off
  }

  ghost predicate WellFormedProgram(prog: Program) {
    && prog != []
    && CallsInside(prog)
    && forall lo, hi | FuncRange(prog, lo, hi) :: Closed(prog, lo, hi)
  }

  // ----- runs

  ghost predicate Steps(prog: Program, lo: int, hi: int, s: int, t: int)
    requires 0 <= lo <= hi < |prog|
  {
    lo <= s <= hi && t in Next(prog[s], s)
  }

  /** A finite run of the function: it starts at lo, and each pc is a successor of the one before. */
  ghost predicate IsRun(prog: Program, lo: int, hi: int, run: seq<int>)
    requires 0 <= lo <= hi < |prog|
  {
    && |run| > 0
    && run[0] == lo
    && forall k | 0 <= k < |run| - 1 :: Steps(prog, lo, hi, run[k], run[k + 1])
  }

  ghost predicate Reachable(prog: Program, lo: int, hi: int, x: int)
    requires 0 <= lo <= hi < |prog|
  {
    exists run :: IsRun(prog, lo, hi, run) && run[|run| - 1] == x
  }

  ghost predicate AllReachable(prog: Program, lo: int, hi: int)
    requires 0 <= lo <= hi < |prog|
  {
    forall x | lo <= x <= hi :: Reachable(prog, lo, hi, x)
  }

  // ----- block leaders of one function

  ghost predicate JumpTarget(prog: Program, lo: int, hi: int, x: int)
    requires 0 <= lo <= hi + 1 <= |prog|
  {
    exists i | lo <= i <= hi :: (IsJa(prog[i]) || IsCond(prog[i])) && x == i + prog[i].off + 1
  }

  ghost predicate AfterCond(prog: Program, lo: int, hi: int, x: int)
    requires 0 <= lo <= hi + 1 <= |prog|
  {
    lo < x <= hi + 1 && IsCond(prog[x - 1])
  }

  ghost predicate IsLeader(prog: Program, lo: int, hi: int, x: int)
    requires 0 <= lo <= hi + 1 <= |prog|
  {
    x == lo || JumpTarget(prog, lo, hi, x) || AfterCond(prog, lo, hi, x)
  }

  /** The leaders in order, each once. */
  ghost predicate LeaderSeq(prog: Program, lo: int, hi: int, heads: seq<int>)
    requires 0 <= lo <= hi + 1 <= |prog|
  {
    Increasing(heads) && forall x :: x in heads <==> IsLeader(prog, lo, hi, x)
  }

  lemma StepStaysInside(prog: Program, lo: int, hi: int, s: int, t: int)
    requires Closed(prog, lo, hi) && LongJumpsAgree(prog, lo, hi)
    requires Steps(prog, lo, hi, s, t)
    ensures lo <= t <= hi
  {
  }

  /** A step either moves to the next instruction or lands on a leader. */
  lemma StepTarget(prog: Program, lo: int, hi: int, s: int, t: int)
    requires Closed(prog, lo, hi) && LongJumpsAgree(prog, lo, hi)
    requires Steps(prog, lo, hi, s, t)
    ensures IsLeader(prog, lo, hi, t) || (t == s + 1 && !IsCond(prog[s]) && !IsJa(prog[s]) && !IsExit(prog[s]))
  {
    if IsJa(prog[s]) || (IsCond(prog[s]) && t != s + 1) {
      assert JumpTarget(prog, lo, hi, t);
    }
  }

  lemma RunStaysInside(prog: Program, lo: int, hi: int, run: seq<int>, k: nat)
    requires Closed(prog, lo, hi) && LongJumpsAgree(prog, lo, hi)
    requires IsRun(prog, lo, hi, run) && k < |run|
    ensures lo <= run[k] <= hi
  {
    if k > 0 {
      assert Steps(prog, lo, hi, run[k - 1], run[k - 1 + 1]);
      StepStaysInside(prog, lo, hi, run[k - 1], run[k]);
    }
  }

  /** If x is reachable and the instruction before it never falls through, some jump leads to x. */
  lemma ReachedByJump(prog: Program, lo: int, hi: int, x: int)
    requires Closed(prog, lo, hi) && LongJumpsAgree(prog, lo, hi)
    requires lo < x <= hi && Reachable(prog, lo, hi, x)
    requires IsJa(prog[x - 1]) || IsExit(prog[x - 1])
    ensures IsLeader(prog, lo, hi, x)
  {
    var run :| IsRun(prog, lo, hi, run) && run[|run| - 1] == x;
    var k := |run| - 2;
    assert Steps(prog, lo, hi, run[k], run[k + 1]);
    StepTarget(prog, lo, hi, run[k], x);
  }
}
