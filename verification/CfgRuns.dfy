/** The graph of a function against its runs. */
module CfgRuns {
  import opened Bpf
  import opened SortedSeq
  import opened CfgNodes
  import opened CfgFuncs
  import opened CfgBlocks
  import opened CfgEdges
  import opened CfgBuild
  import opened CfgPaths

  // ----- runs and paths

  /** Consecutive blocks are joined by recorded edges. */
  ghost predicate IsWalk(path: seq<BbNode>)
    reads path, set b, e | b in path && e in b.eSuccs :: e
  {
    assert forall i, k | 0 <= i < |path| && 0 <= k < |path[i].eSuccs| ::
      path[i] in path && path[i].eSuccs[k] in path[i].eSuccs;
    forall i | 0 <= i < |path| - 1 :: HasEdge(path[i], path[i + 1])
  }

  ghost predicate InRange(func: FuncNode, run: seq<int>)
    reads func
  {
    forall k | 0 <= k < |run| :: func.start <= run[k] <= func.end
  }

  /** The blocks a run goes through: ENTRY, then one block each time a head is reached. */
  ghost function Project(prog: Program, func: FuncNode, run: seq<int>): seq<BbNode>
    reads func, func.bbs
    requires Good(prog, func) && InRange(func, run)
  {
    if run == [] then [Entry(func)]
    else
      var before := Project(prog, func, run[..|run| - 1]);
      var b := BlockOf(prog, func, run[|run| - 1]);
      if b.head == At(run[|run| - 1]) then before + [b] else before
  }

  /** Seen as blocks, the run is a path from ENTRY along recorded edges, and the run is in its last block. */
  ghost predicate DescribesRun(prog: Program, func: FuncNode, run: seq<int>)
    reads *
    requires Good(prog, func)
  {
    && run != [] && InRange(func, run)
    && var path := Project(prog, func, run);
       && |path| >= 2
       && path[0] == Entry(func)
       && path[|path| - 1] == BlockOf(prog, func, run[|run| - 1])
       && IsWalk(path)
  }

  lemma StartDescribed(prog: Program, func: FuncNode)
    requires Good(prog, func) && Graph(prog, func)
    ensures DescribesRun(prog, func, [func.start])
  {
    assert [func.start][..0] == [];
    BlocksDisjoint(prog, func, func.start, 1);
    BlockShape(prog, func, 1);
    assert Entry(func).eSuccs[0].dst == func.bbs[1];
  }

  /** The graph accounts for the step from s to t: along an edge to a head, or inside one block. */
  ghost predicate Covered(prog: Program, func: FuncNode, s: int, t: int)
    reads *
    requires Good(prog, func) && func.start <= s <= func.end
  {
    && func.start <= t <= func.end
    && if BlockOf(prog, func, t).head == At(t) then HasEdge(BlockOf(prog, func, s), BlockOf(prog, func, t))
       else BlockOf(prog, func, t) == BlockOf(prog, func, s)
  }

  /** One more step keeps the run described exactly when the graph accounts for it. */
  lemma StepDescribed(prog: Program, func: FuncNode, run: seq<int>, t: int)
    requires Good(prog, func) && DescribesRun(prog, func, run)
    ensures DescribesRun(prog, func, run + [t]) <==> Covered(prog, func, run[|run| - 1], t)
  {
    hide Good, IndexOf, BlockOf, HasEdge;
    var next := run + [t];
    assert next[..|next| - 1] == run && next[|run|] == t;
    if func.start <= t <= func.end {
      assert InRange(func, next);
      var path := Project(prog, func, run);
      if BlockOf(prog, func, t).head == At(t) {
        assert Project(prog, func, next) == path + [BlockOf(prog, func, t)];
        LongerWalk(path, BlockOf(prog, func, t));
      }
    }
  }

  lemma LongerWalk(path: seq<BbNode>, d: BbNode)
    requires path != [] && IsWalk(path)
    ensures IsWalk(path + [d]) <==> HasEdge(path[|path| - 1], d)
  {
    hide HasEdge;
    var longer := path + [d];
    if IsWalk(longer) {
      assert HasEdge(longer[|path| - 1], longer[|path| - 1 + 1]);
    }
    if HasEdge(path[|path| - 1], d) {
      forall i | 0 <= i < |longer| - 1 ensures HasEdge(longer[i], longer[i + 1]) {
        assert i < |path| - 1 ==> HasEdge(path[i], path[i + 1]);
      }
    }
  }

  /** The graph accounts for every step but those of unconditional jumps, whatever the program. */
  lemma PlainStepCovered(prog: Program, func: FuncNode, s: int, t: int)
    requires Good(prog, func) && Graph(prog, func)
    requires Steps(prog, func.start, func.end, s, t) && !IsJa(prog[s])
    ensures Covered(prog, func, s, t)
  {
    hide Good, Graph, IndexOf, BlockOf, HasEdge, IsLeader;
    NotAtEnd(prog, func, s);
    var i := TailBlock(prog, func, s);
    if IsCond(prog[s]) && t != s + 1 {
      JumpIsEdge(prog, func, i, s, t);
    } else if func.bbs[i].tail == At(s) {
      NextBlockIsEdge(prog, func, i);
    } else {
      InsideBlock(prog, func, s);
      HeadIffLeader(prog, func, s + 1);
    }
  }

  /** The block of s; a conditional jump ends it. */
  lemma TailBlock(prog: Program, func: FuncNode, s: int) returns (i: nat)
    requires Good(prog, func) && func.start <= s <= func.end < |prog|
    ensures 0 < i < |func.bbs| - 1 && func.bbs[i] == BlockOf(prog, func, s) && func.bbs[i].tail.At?
    ensures func.start <= func.bbs[i].tail.pos <= func.end
    ensures IsCond(prog[s]) ==> func.bbs[i].tail == At(s)
  {
    i := IndexOf(prog, func, s);
    BlockShape(prog, func, i);
    TailIffLeaderNext(prog, func, s);
    assert IsCond(prog[s]) ==> s == func.end || AfterCond(prog, func.start, func.end, s + 1);
  }

  /** The graph accounts for every unconditional jump that a run can come to. */
  ghost predicate JumpsCovered(prog: Program, func: FuncNode)
    reads *
    requires Good(prog, func)
  {
    forall s, t |
      Reachable(prog, func.start, func.end, s) && Steps(prog, func.start, func.end, s, t) && IsJa(prog[s]) ::
      Covered(prog, func, s, t)
  }

  lemma ReachedStepCovered(prog: Program, func: FuncNode, run: seq<int>, t: int)
    requires Good(prog, func) && Graph(prog, func) && JumpsCovered(prog, func)
    requires IsRun(prog, func.start, func.end, run) && Steps(prog, func.start, func.end, run[|run| - 1], t)
    ensures Covered(prog, func, run[|run| - 1], t)
  {
    hide Good, Graph, Covered, IsRun;
    GoodBounds(prog, func);
    RunStarts(prog, func.start, func.end, run);
    var s := run[|run| - 1];
    assert Reachable(prog, func.start, func.end, s);
    if !IsJa(prog[s]) {
      PlainStepCovered(prog, func, s, t);
    }
  }

  lemma {:induction false} CoveredIsDescribed(prog: Program, func: FuncNode, run: seq<int>)
    requires Good(prog, func) && Graph(prog, func) && JumpsCovered(prog, func)
    requires IsRun(prog, func.start, func.end, run)
    ensures DescribesRun(prog, func, run)
    decreases |run|
  {
    hide Good, Graph, DescribesRun, Covered, JumpsCovered, IsRun;
    GoodBounds(prog, func);
    RunStarts(prog, func.start, func.end, run);
    if |run| == 1 {
      StartDescribed(prog, func);
      assert run == [func.start];
    } else {
      var before, t := run[..|run| - 1], run[|run| - 1];
      RunPrefix(prog, func.start, func.end, run);
      CoveredIsDescribed(prog, func, before);
      ReachedStepCovered(prog, func, before, t);
      StepDescribed(prog, func, before, t);
      assert before + [t] == run;
    }
  }

  lemma RunStarts(prog: Program, lo: int, hi: int, run: seq<int>)
    requires 0 <= lo <= hi < |prog| && IsRun(prog, lo, hi, run)
    ensures run != [] && run[0] == lo
  {
  }

  lemma RunPrefix(prog: Program, lo: int, hi: int, run: seq<int>)
    requires 0 <= lo <= hi < |prog| && IsRun(prog, lo, hi, run) && |run| > 1
    ensures IsRun(prog, lo, hi, run[..|run| - 1])
    ensures Steps(prog, lo, hi, run[|run| - 2], run[|run| - 1])
  {
    var before := run[..|run| - 1];
    forall k | 0 <= k < |before| - 1 ensures Steps(prog, lo, hi, before[k], before[k + 1]) {
      assert Steps(prog, lo, hi, run[k], run[k + 1]);
    }
    assert Steps(prog, lo, hi, run[|run| - 2], run[|run| - 2 + 1]);
  }

  lemma RunExtended(prog: Program, lo: int, hi: int, run: seq<int>, t: int)
    requires 0 <= lo <= hi < |prog| && IsRun(prog, lo, hi, run) && Steps(prog, lo, hi, run[|run| - 1], t)
    ensures IsRun(prog, lo, hi, run + [t])
  {
    var next := run + [t];
    forall k | 0 <= k < |next| - 1 ensures Steps(prog, lo, hi, next[k], next[k + 1]) {
      assert k < |run| - 1 ==> Steps(prog, lo, hi, run[k], run[k + 1]);
    }
  }

  /** Where jumps and exits end their blocks, and long jumps say the same in off, every finite run of a function,
      seen as blocks, is a path from ENTRY along recorded edges that ends in the run's last block. */
  lemma Simulation(prog: Program, func: FuncNode, run: seq<int>)
    requires Good(prog, func) && Graph(prog, func) && LongJumpsAgree(prog, func.start, func.end)
    requires TerminatorsEndBlocks(prog, func.start, func.end)
    requires IsRun(prog, func.start, func.end, run)
    ensures DescribesRun(prog, func, run)
  {
    hide Good, Graph, LongJumpsAgree, TerminatorsEndBlocks, DescribesRun, Covered, IsRun;
    GoodBounds(prog, func);
    forall s, t | Steps(prog, func.start, func.end, s, t) && IsJa(prog[s]) ensures Covered(prog, func, s, t) {
      StraightStepCovered(prog, func, s, t);
    }
    CoveredIsDescribed(prog, func, run);
  }

  lemma StraightStepCovered(prog: Program, func: FuncNode, s: int, t: int)
    requires Good(prog, func) && Graph(prog, func) && LongJumpsAgree(prog, func.start, func.end)
    requires TerminatorsEndBlocks(prog, func.start, func.end)
    requires Steps(prog, func.start, func.end, s, t)
    ensures Covered(prog, func, s, t)
  {
    hide Good, Graph, LongJumpsAgree, TerminatorsEndBlocks, IndexOf, BlockOf, HasEdge;
    GoodBounds(prog, func);
    StepIsEdge(prog, func, s, t);
  }

  // ----- exactly when the graph describes the runs

  /** The block of s ends at e. */
  ghost predicate EndsAt(prog: Program, lo: int, hi: int, s: int, e: int)
    requires 0 <= lo <= hi < |prog|
  {
    && s <= e <= hi
    && (e == hi || IsLeader(prog, lo, hi, e + 1))
    && NoLeader(prog, lo, hi, s, e)
  }

  /** No leader among s + 1 .. t. */
  ghost predicate NoLeader(prog: Program, lo: int, hi: int, s: int, t: int)
    requires 0 <= lo <= hi < |prog|
  {
    forall x | s < x <= t :: !IsLeader(prog, lo, hi, x)
  }

  /** The jump from s to t is accounted for: t is a leader that the last instruction of the block of s leads to as
      well, or a place in the same block.  Only the instructions decide this. */
  ghost predicate JumpOk(prog: Program, lo: int, hi: int, s: int, t: int)
    requires 0 <= lo <= s <= hi < |prog|
  {
    && lo <= t <= hi
    && if IsLeader(prog, lo, hi, t) then exists e | s <= e <= hi :: EndsAt(prog, lo, hi, s, e) && LeadsTo(prog[e], e, t)
       else if s <= t then NoLeader(prog, lo, hi, s, t) else NoLeader(prog, lo, hi, t, s)
  }

  ghost predicate JumpsOk(prog: Program, lo: int, hi: int)
    requires 0 <= lo <= hi < |prog|
  {
    forall s, t | Reachable(prog, lo, hi, s) && Steps(prog, lo, hi, s, t) && IsJa(prog[s]) :: JumpOk(prog, lo, hi, s, t)
  }

  lemma {:induction false} SameBlockIff(prog: Program, func: FuncNode, s: int, t: int)
    requires Good(prog, func) && func.start <= s <= t <= func.end
    ensures BlockOf(prog, func, s) == BlockOf(prog, func, t) <==> NoLeader(prog, func.start, func.end, s, t)
    decreases t - s
  {
    hide Good, IsLeader, IndexOf, BlockOf;
    GoodBounds(prog, func);
    if s < t {
      SameBlockIff(prog, func, s, t - 1);
      TailIffLeaderNext(prog, func, t - 1);
      if BlockOf(prog, func, t - 1).tail == At(t - 1) {
        HeadBlocksDiffer(prog, func, s, t);
      } else {
        InsideBlock(prog, func, t - 1);
      }
    }
  }

  /** The block that a leader heads holds nothing before it. */
  lemma HeadBlocksDiffer(prog: Program, func: FuncNode, s: int, t: int)
    requires Good(prog, func) && func.start <= s < t <= func.end && IsLeader(prog, func.start, func.end, t)
    ensures BlockOf(prog, func, s) != BlockOf(prog, func, t)
  {
    HeadIffLeader(prog, func, t);
  }

  lemma EndsAtTail(prog: Program, func: FuncNode, s: int, e: int)
    requires Good(prog, func) && func.start <= s <= e <= func.end
    ensures EndsAt(prog, func.start, func.end, s, e) <==> BlockOf(prog, func, s).tail == At(e)
  {
    SameBlockIff(prog, func, s, e);
    TailIffLeaderNext(prog, func, e);
    if BlockOf(prog, func, s).tail == At(e) {
      BlocksDisjoint(prog, func, e, IndexOf(prog, func, s));
    }
  }

  lemma CoveredIff(prog: Program, func: FuncNode, s: int, t: int)
    requires Good(prog, func) && Graph(prog, func) && func.start <= s <= func.end
    ensures Covered(prog, func, s, t) <==> JumpOk(prog, func.start, func.end, s, t)
  {
    if func.start <= t <= func.end {
      HeadIffLeader(prog, func, t);
      if IsLeader(prog, func.start, func.end, t) {
        CoveredAlongEdge(prog, func, s, t);
      } else if s <= t {
        SameBlockIff(prog, func, s, t);
      } else {
        SameBlockIff(prog, func, t, s);
      }
    }
  }

  lemma TailAfter(prog: Program, func: FuncNode, s: int)
    requires Good(prog, func) && func.start <= s <= func.end
    ensures BlockOf(prog, func, s).tail.At? && s <= BlockOf(prog, func, s).tail.pos
  {
  }

  lemma CoveredAlongEdge(prog: Program, func: FuncNode, s: int, t: int)
    requires Good(prog, func) && Graph(prog, func) && func.start <= s <= func.end
    requires func.start <= t <= func.end && IsLeader(prog, func.start, func.end, t)
    ensures HasEdge(BlockOf(prog, func, s), BlockOf(prog, func, t))
      <==> exists e | s <= e <= func.end :: EndsAt(prog, func.start, func.end, s, e) && LeadsTo(prog[e], e, t)
  {
    hide Good, IsLeader, Graph, LeadsTo, EndsAt, BlockOf, HasEdge;
    GoodBounds(prog, func);
    var i := TailBlock(prog, func, s);
    var tail := func.bbs[i].tail.pos;
    EdgesTold(prog, func, i, t);
    TailAfter(prog, func, s);
    EndsAtTail(prog, func, s, tail);
    forall e | s <= e <= func.end ensures EndsAt(prog, func.start, func.end, s, e) <==> e == tail {
      EndsAtTail(prog, func, s, e);
    }
  }

  /** The graph describes every run of the function if and only if each unconditional jump that a run can come to goes
      where the end of its block leads as well, or stays in the block. */
  lemma SimulationIff(prog: Program, func: FuncNode)
    requires Good(prog, func) && Graph(prog, func)
    ensures (forall run | IsRun(prog, func.start, func.end, run) :: DescribesRun(prog, func, run))
      <==> JumpsOk(prog, func.start, func.end)
  {
    hide Good, Graph, DescribesRun, Covered, JumpOk;
    GoodBounds(prog, func);
    forall s, t | Steps(prog, func.start, func.end, s, t)
      ensures Covered(prog, func, s, t) <==> JumpOk(prog, func.start, func.end, s, t)
    {
      CoveredIff(prog, func, s, t);
    }
    if JumpsOk(prog, func.start, func.end) {
      forall run | IsRun(prog, func.start, func.end, run) ensures DescribesRun(prog, func, run) {
        CoveredIsDescribed(prog, func, run);
      }
    }
    if forall run | IsRun(prog, func.start, func.end, run) :: DescribesRun(prog, func, run) {
      forall s, t | Reachable(prog, func.start, func.end, s) && Steps(prog, func.start, func.end, s, t)
        ensures Covered(prog, func, s, t)
      {
        var run :| IsRun(prog, func.start, func.end, run) && run[|run| - 1] == s;
        RunExtended(prog, func.start, func.end, run, t);
        StepDescribed(prog, func, run, t);
      }
    }
  }

  // ----- and back: paths are runs

  /** Away from exits the recorded edges are exactly the steps from the tail, if the second edge of a call is harmless
      where the tail is one. */
  lemma EdgesExact(prog: Program, func: FuncNode, i: nat, d: BbNode)
    requires Good(prog, func) && Graph(prog, func) && LongJumpsAgree(prog, func.start, func.end)
    requires 0 < i < |func.bbs| - 1 && func.bbs[i].tail.At? && func.start <= func.bbs[i].tail.pos <= func.end
    requires !IsExit(prog[func.bbs[i].tail.pos])
    requires IsCall(prog[func.bbs[i].tail.pos]) ==> CallHarmless(prog, func.start, func.end, func.bbs[i].tail.pos)
    ensures HasEdge(func.bbs[i], d) <==>
            exists t :: Steps(prog, func.start, func.end, func.bbs[i].tail.pos, t)
                        && func.start <= t <= func.end && d == BlockOf(prog, func, t)
  {
    var s := func.bbs[i].tail.pos;
    forall t | Steps(prog, func.start, func.end, s, t)
      ensures func.start <= t <= func.end && HasEdge(func.bbs[i], BlockOf(prog, func, t))
    {
      TailStepIsEdge(prog, func, i, t);
    }
    if HasEdge(func.bbs[i], d) {
      if IsCall(prog[s]) { HarmlessCallReturns(prog, func, i, d); }
      var t := EdgeIsStep(prog, func, i, d);
    }
  }

  /** A block is left as a step leaves it: not from an exit, and from a call to where it returns. */
  ghost predicate LeavesAsStep(prog: Program, b: BbNode, d: BbNode)
    reads b, d
  {
    && b.tail.At? && 0 <= b.tail.pos < |prog|
    && !IsExit(prog[b.tail.pos])
    && (IsCall(prog[b.tail.pos]) ==> d.head == At(b.tail.pos + 1))
  }

  lemma EdgeIsStep(prog: Program, func: FuncNode, i: nat, d: BbNode) returns (t: int)
    requires Good(prog, func) && Graph(prog, func) && LongJumpsAgree(prog, func.start, func.end)
    requires 0 < i < |func.bbs| - 1 && func.bbs[i].tail.At? && func.start <= func.bbs[i].tail.pos <= func.end
    requires LeavesAsStep(prog, func.bbs[i], d) && HasEdge(func.bbs[i], d)
    ensures Steps(prog, func.start, func.end, func.bbs[i].tail.pos, t)
    ensures func.start <= t <= func.end && d == BlockOf(prog, func, t) && d.head == At(t)
  {
    hide Good, Graph, IndexOf, BlockOf, HasEdge, IsLeader, LongJumpsAgree;
    var s := func.bbs[i].tail.pos;
    NotAtEnd(prog, func, s);
    if IsJa(prog[s]) {
      t := s + prog[s].off + 1;
      JaEdges(prog, func, i);
      FewEdges(func.bbs[i], d);
      JumpStep(prog, func.start, func.end, s);
    } else if IsCond(prog[s]) {
      t := CondEdgeIsStep(prog, func, i, d);
    } else {
      t := s + 1;
      ReturnEdgeIsStep(prog, func, i, d);
    }
  }

  lemma ReturnEdgeIsStep(prog: Program, func: FuncNode, i: nat, d: BbNode)
    requires Good(prog, func) && Graph(prog, func)
    requires 0 < i < |func.bbs| - 1 && func.bbs[i].tail.At? && func.start <= func.bbs[i].tail.pos < func.end < |prog|
    requires LeavesAsStep(prog, func.bbs[i], d) && HasEdge(func.bbs[i], d)
    requires !IsJa(prog[func.bbs[i].tail.pos]) && !IsCond(prog[func.bbs[i].tail.pos])
    ensures d == BlockOf(prog, func, func.bbs[i].tail.pos + 1) && d.head == At(func.bbs[i].tail.pos + 1)
  {
    hide Good, Graph, IndexOf, BlockOf, HasEdge, IsLeader;
    NotAtEnd(prog, func, func.bbs[i].tail.pos);
    FewEdges(func.bbs[i], d);
    NextBlock(prog, func, i);
    if IsCall(prog[func.bbs[i].tail.pos]) {
      CallEdges(prog, func, i);
    } else {
      FallEdges(prog, func, i);
    }
  }

  lemma JumpStep(prog: Program, lo: int, hi: int, s: int)
    requires 0 <= lo <= s <= hi < |prog| && LongJumpsAgree(prog, lo, hi) && IsJa(prog[s])
    ensures Steps(prog, lo, hi, s, s + prog[s].off + 1)
  {
  }

  lemma CondEdgeIsStep(prog: Program, func: FuncNode, i: nat, d: BbNode) returns (t: int)
    requires Good(prog, func) && Graph(prog, func)
    requires 0 < i < |func.bbs| - 1 && func.bbs[i].tail.At? && func.start <= func.bbs[i].tail.pos < func.end < |prog|
    requires IsCond(prog[func.bbs[i].tail.pos]) && HasEdge(func.bbs[i], d)
    ensures Steps(prog, func.start, func.end, func.bbs[i].tail.pos, t)
    ensures func.start <= t <= func.end && d == BlockOf(prog, func, t) && d.head == At(t)
  {
    hide Good, Graph, IndexOf, BlockOf, HasEdge;
    var s := func.bbs[i].tail.pos;
    NotAtEnd(prog, func, s);
    FewEdges(func.bbs[i], d);
    CondEdges(prog, func, i);
    NextBlock(prog, func, i);
    t := if d == func.bbs[i + 1] then s + 1 else s + prog[s].off + 1;
  }

  /** A run can always go on to the end of the block it is in, without leaving the block. */
  lemma {:induction false} RunToTail(prog: Program, func: FuncNode, run: seq<int>, n: nat) returns (longer: seq<int>)
    requires Good(prog, func) && TerminatorsEndBlocks(prog, func.start, func.end)
    requires LongJumpsAgree(prog, func.start, func.end)
    requires IsRun(prog, func.start, func.end, run) && InRange(func, run) && n == func.end - run[|run| - 1]
    ensures IsRun(prog, func.start, func.end, longer) && InRange(func, longer)
    ensures Project(prog, func, longer) == Project(prog, func, run)
    ensures
      var b := BlockOf(prog, func, run[|run| - 1]);
      b == BlockOf(prog, func, longer[|longer| - 1]) && b.tail == At(longer[|longer| - 1])
    decreases n
  {
    hide Good, TerminatorsEndBlocks, LongJumpsAgree, IsRun, BlockOf;
    GoodBounds(prog, func);
    RunStarts(prog, func.start, func.end, run);
    var s := run[|run| - 1];
    if BlockOf(prog, func, s).tail == At(s) {
      longer := run;
    } else {
      InnerStep(prog, func, s);
      RunExtended(prog, func.start, func.end, run, s + 1);
      var next := run + [s + 1];
      assert next[..|next| - 1] == run;
      longer := RunToTail(prog, func, next, n - 1);
    }
  }

  /** Inside a block control moves on by one instruction. */
  lemma InnerStep(prog: Program, func: FuncNode, s: int)
    requires Good(prog, func) && TerminatorsEndBlocks(prog, func.start, func.end)
    requires func.start <= s <= func.end && BlockOf(prog, func, s).tail != At(s)
    ensures s < func.end && Steps(prog, func.start, func.end, s, s + 1)
    ensures BlockOf(prog, func, s + 1) == BlockOf(prog, func, s) && BlockOf(prog, func, s + 1).head != At(s + 1)
  {
    hide IndexOf, BlockOf, Laid;
    InsideBlock(prog, func, s);
    HeadIffLeader(prog, func, s + 1);
  }

  /** A path of blocks from ENTRY along edges that leaves every block as a step does. */
  ghost predicate PlainPath(prog: Program, func: FuncNode, path: seq<BbNode>)
    reads func, func.bbs, path, set b, e | b in path && e in b.eSuccs :: e
  {
    && |func.bbs| >= 2
    && |path| >= 2
    && path[0] == Entry(func)
    && IsWalk(path)
    && (forall k | 0 < k < |path| :: path[k] in Blocks(func))
    && forall k | 0 < k < |path| - 1 :: LeavesAsStep(prog, path[k], path[k + 1])
  }

  lemma StartRun(prog: Program, func: FuncNode)
    requires Good(prog, func)
    ensures IsRun(prog, func.start, func.end, [func.start]) && InRange(func, [func.start])
    ensures Project(prog, func, [func.start]) == [Entry(func), func.bbs[1]]
    ensures func.bbs[1] == BlockOf(prog, func, func.start)
  {
    BlockShape(prog, func, 1);
    BlocksDisjoint(prog, func, func.start, 1);
    assert [func.start][..0] == [];
  }

  /** A run that stands at the end of a block can take any edge that leaves the block as a step does. */
  lemma StepRun(prog: Program, func: FuncNode, run: seq<int>, d: BbNode) returns (next: seq<int>)
    requires Good(prog, func) && Graph(prog, func) && LongJumpsAgree(prog, func.start, func.end)
    requires IsRun(prog, func.start, func.end, run) && InRange(func, run)
    requires
      var s := run[|run| - 1];
      var b := BlockOf(prog, func, s);
      b.tail == At(s) && HasEdge(b, d) && LeavesAsStep(prog, b, d)
    ensures IsRun(prog, func.start, func.end, next) && InRange(func, next)
    ensures Project(prog, func, next) == Project(prog, func, run) + [d]
    ensures BlockOf(prog, func, next[|next| - 1]) == d
  {
    var s := run[|run| - 1];
    var t := EdgeIsStep(prog, func, IndexOf(prog, func, s), d);
    next := run + [t];
    assert next[..|next| - 1] == run;
  }

  lemma PlainPrefix(prog: Program, func: FuncNode, path: seq<BbNode>)
    requires PlainPath(prog, func, path) && |path| > 2
    ensures PlainPath(prog, func, path[..|path| - 1])
    ensures HasEdge(path[|path| - 2], path[|path| - 1])
    ensures LeavesAsStep(prog, path[|path| - 2], path[|path| - 1])
  {
    hide LeavesAsStep, HasEdge;
    assert LeavesAsStep(prog, path[|path| - 2], path[|path| - 2 + 1]);
    var before := path[..|path| - 1];
    forall i | 0 <= i < |path| - 1 ensures HasEdge(path[i], path[i + 1]) {
    }
    assert HasEdge(path[|path| - 2], path[|path| - 2 + 1]);
    forall i | 0 <= i < |before| - 1 ensures HasEdge(before[i], before[i + 1]) {
      assert HasEdge(path[i], path[i + 1]);
    }
    forall k | 0 < k < |before| - 1 ensures LeavesAsStep(prog, before[k], before[k + 1]) {
      assert LeavesAsStep(prog, path[k], path[k + 1]);
    }
  }

  lemma FirstEdge(prog: Program, func: FuncNode, path: seq<BbNode>)
    requires Graph(prog, func) && PlainPath(prog, func, path) && |path| == 2
    ensures path == [Entry(func), func.bbs[1]]
  {
    assert HasEdge(path[0], path[0 + 1]);
  }

  /** Conversely, every such path is what some run looks like: the graph invents nothing else. */
  lemma {:induction false} PathIsRun(prog: Program, func: FuncNode, path: seq<BbNode>) returns (run: seq<int>)
    requires Good(prog, func) && Graph(prog, func) && LongJumpsAgree(prog, func.start, func.end)
    requires TerminatorsEndBlocks(prog, func.start, func.end)
    requires PlainPath(prog, func, path)
    ensures IsRun(prog, func.start, func.end, run) && InRange(func, run)
    ensures Project(prog, func, run) == path
    ensures path[|path| - 1].tail == At(run[|run| - 1])
    ensures path[|path| - 1] == BlockOf(prog, func, run[|run| - 1])
    decreases |path|
  {
    hide Good, Graph, LongJumpsAgree, TerminatorsEndBlocks, IsRun, Project, IndexOf, HasEdge, LeavesAsStep;
    var n := |path| - 1;
    if n == 1 {
      StartRun(prog, func);
      FirstEdge(prog, func, path);
      run := [func.start];
    } else {
      PlainPrefix(prog, func, path);
      var before := PathIsRun(prog, func, path[..n]);
      run := StepRun(prog, func, before, path[n]);
      assert path[..n] + [path[n]] == path;
    }
    run := RunToTail(prog, func, run, func.end - run[|run| - 1]);
  }

  /** A run seen as blocks leaves every block as a step does. */
  lemma {:induction false} RunIsPlain(prog: Program, func: FuncNode, run: seq<int>)
    requires Good(prog, func) && Graph(prog, func) && LongJumpsAgree(prog, func.start, func.end)
    requires TerminatorsEndBlocks(prog, func.start, func.end)
    requires IsRun(prog, func.start, func.end, run)
    ensures DescribesRun(prog, func, run) && PlainPath(prog, func, Project(prog, func, run))
    decreases |run|
  {
    hide Good, Graph, LongJumpsAgree, TerminatorsEndBlocks, IsRun, PlainPath, DescribesRun, Project;
    GoodBounds(prog, func);
    RunStarts(prog, func.start, func.end, run);
    if |run| == 1 {
      assert run == [func.start];
      FirstPlain(prog, func);
    } else {
      var before, t := run[..|run| - 1], run[|run| - 1];
      RunPrefix(prog, func.start, func.end, run);
      RunIsPlain(prog, func, before);
      LongerPlain(prog, func, before, t);
      assert before + [t] == run;
    }
  }

  lemma FirstPlain(prog: Program, func: FuncNode)
    requires Good(prog, func) && Graph(prog, func)
    ensures DescribesRun(prog, func, [func.start]) && PlainPath(prog, func, Project(prog, func, [func.start]))
  {
    BlockShape(prog, func, 1);
    StartDescribed(prog, func);
    StartRun(prog, func);
  }

  lemma LongerPlain(prog: Program, func: FuncNode, run: seq<int>, t: int)
    requires Good(prog, func) && Graph(prog, func) && LongJumpsAgree(prog, func.start, func.end)
    requires TerminatorsEndBlocks(prog, func.start, func.end)
    requires DescribesRun(prog, func, run) && PlainPath(prog, func, Project(prog, func, run))
    requires Steps(prog, func.start, func.end, run[|run| - 1], t)
    ensures DescribesRun(prog, func, run + [t]) && PlainPath(prog, func, Project(prog, func, run + [t]))
  {
    hide Graph, LongJumpsAgree, TerminatorsEndBlocks, PlainPath, Closed, Laid, HasEdge, IndexOf;
    var s, next := run[|run| - 1], run + [t];
    StepIsEdge(prog, func, s, t);
    StepDescribed(prog, func, run, t);
    assert next[..|next| - 1] == run && next[|run|] == t;
    if BlockOf(prog, func, t).head == At(t) {
      StepLeaves(prog, func, s, t);
      PathLonger(prog, func, Project(prog, func, run), BlockOf(prog, func, t));
    }
  }

  lemma StepLeaves(prog: Program, func: FuncNode, s: int, t: int)
    requires Good(prog, func) && func.start <= t <= func.end && Steps(prog, func.start, func.end, s, t)
    requires BlockOf(prog, func, s).tail == At(s) && BlockOf(prog, func, t).head == At(t)
    ensures LeavesAsStep(prog, BlockOf(prog, func, s), BlockOf(prog, func, t))
    ensures BlockOf(prog, func, t) in Blocks(func)
  {
    BlockShape(prog, func, IndexOf(prog, func, t));
  }

  lemma PathLonger(prog: Program, func: FuncNode, path: seq<BbNode>, d: BbNode)
    requires PlainPath(prog, func, path) && d in Blocks(func)
    requires HasEdge(path[|path| - 1], d) && LeavesAsStep(prog, path[|path| - 1], d)
    ensures PlainPath(prog, func, path + [d])
  {
    hide HasEdge, LeavesAsStep;
    var longer := path + [d];
    LongerWalk(path, d);
    forall k | 0 < k < |longer| - 1 ensures LeavesAsStep(prog, longer[k], longer[k + 1]) {
      assert k < |path| - 1 ==> LeavesAsStep(prog, path[k], path[k + 1]);
    }
  }

  /** The paths of the graph that are runs are exactly those from ENTRY that leave no exit and leave a call to where it
      returns: apart from the edges of exits and the second edges of calls, the graph invents nothing. */
  lemma PathIff(prog: Program, func: FuncNode, path: seq<BbNode>)
    requires Good(prog, func) && Graph(prog, func) && LongJumpsAgree(prog, func.start, func.end)
    requires TerminatorsEndBlocks(prog, func.start, func.end)
    ensures PlainPath(prog, func, path)
      <==> exists run :: && IsRun(prog, func.start, func.end, run) && InRange(func, run)
                         && Project(prog, func, run) == path
  {
    hide Graph, LongJumpsAgree, TerminatorsEndBlocks, PlainPath, Project, Laid, IsRun;
    if PlainPath(prog, func, path) {
      var run := PathIsRun(prog, func, path);
    }
    forall run | IsRun(prog, func.start, func.end, run) && InRange(func, run) && Project(prog, func, run) == path
      ensures PlainPath(prog, func, path)
    {
      RunIsPlain(prog, func, run);
    }
  }

  /** In particular, where the calls on the way are harmless, every path that leaves no exit is a run. */
  lemma HarmlessPathIsPlain(prog: Program, func: FuncNode, path: seq<BbNode>)
    requires Good(prog, func) && Graph(prog, func)
    requires |path| >= 2 && path[0] == Entry(func) && IsWalk(path)
    requires forall k | 0 < k < |path| :: path[k] in Blocks(func)
    requires forall k | 0 < k < |path| - 1 :: HarmlessBlock(prog, func, path[k])
    ensures PlainPath(prog, func, path)
  {
    hide Good, Graph, HasEdge, LeavesAsStep, HarmlessBlock;
    GoodBounds(prog, func);
    forall k | 0 < k < |path| - 1 ensures LeavesAsStep(prog, path[k], path[k + 1]) {
      assert HarmlessBlock(prog, func, path[k]) && HasEdge(path[k], path[k + 1]);
      HarmlessLeaves(prog, func, path[k], path[k + 1]);
    }
  }

  ghost predicate HarmlessBlock(prog: Program, func: FuncNode, b: BbNode)
    reads func, b
  {
    && b.tail.At? && 0 <= func.start <= b.tail.pos <= func.end < |prog| && !IsExit(prog[b.tail.pos])
    && (IsCall(prog[b.tail.pos]) ==> CallHarmless(prog, func.start, func.end, b.tail.pos))
  }

  lemma HarmlessLeaves(prog: Program, func: FuncNode, b: BbNode, d: BbNode)
    requires Good(prog, func) && Graph(prog, func) && b in Blocks(func) && HasEdge(b, d) && HarmlessBlock(prog, func, b)
    ensures LeavesAsStep(prog, b, d)
  {
    var j :| 0 <= j < |Blocks(func)| && Blocks(func)[j] == b;
    assert func.bbs[j + 1] == b;
    if IsCall(prog[b.tail.pos]) {
      HarmlessCallReturns(prog, func, j + 1, d);
    }
  }

  // ----- the whole program

  lemma FuncOfBuilt(prog: Program, cfg: CfgRoot, func: FuncNode)
    requires WellFormedProgram(prog) && Built(prog, cfg) && func in cfg.funcs
    ensures FuncRange(prog, func.start, func.end) && Good(prog, func) && Graph(prog, func)
  {
    var n :| 0 <= n < |cfg.funcs| && cfg.funcs[n] == func;
    FuncRangeOf(prog, cfg, n);
    assert Graph(prog, func);
  }

  lemma GoodClosed(prog: Program, func: FuncNode)
    requires Good(prog, func)
    ensures Closed(prog, func.start, func.end)
  {
  }

  /** In the graph of a well-formed program, a function's runs are all described if and only if the unconditional jumps
      that they can come to are accounted for. */
  lemma ProgramSimulationIff(prog: Program, cfg: CfgRoot, func: FuncNode)
    requires WellFormedProgram(prog) && Built(prog, cfg) && func in cfg.funcs
    ensures FuncRange(prog, func.start, func.end) && Good(prog, func)
    ensures (forall run | IsRun(prog, func.start, func.end, run) :: DescribesRun(prog, func, run))
      <==> JumpsOk(prog, func.start, func.end)
  {
    hide WellFormedProgram, Built, DescribesRun, JumpsOk, Graph;
    FuncOfBuilt(prog, cfg, func);
    SimulationIff(prog, func);
  }

  /** In the graph of a well-formed program, every function whose instructions are all reachable
      describes its runs: seen as blocks, each run is a path from ENTRY along recorded edges. */
  lemma ProgramSimulation(prog: Program, cfg: CfgRoot, func: FuncNode, run: seq<int>)
    requires WellFormedProgram(prog) && Built(prog, cfg) && func in cfg.funcs
    requires FuncRange(prog, func.start, func.end) ==>
               && AllReachable(prog, func.start, func.end) && LongJumpsAgree(prog, func.start, func.end)
               && IsRun(prog, func.start, func.end, run)
    ensures FuncRange(prog, func.start, func.end) && Good(prog, func)
    ensures DescribesRun(prog, func, run)
  {
    hide WellFormedProgram, Built, Good, Graph, DescribesRun, LongJumpsAgree, TerminatorsEndBlocks, AllReachable;
    FuncOfBuilt(prog, cfg, func);
    GoodClosed(prog, func);
    ReachableEndsBlocks(prog, func.start, func.end);
    Simulation(prog, func, run);
  }
}
