/** cfg_append_func and cfg_partition_funcs of cfg.c: the list of functions, built in place. */
module CfgFuncs {
  import opened Bpf
  import opened SortedSeq
  import opened CfgNodes

  ghost function Starts(funcs: seq<FuncNode>): (s: seq<int>)
    reads funcs
    ensures |s| == |funcs| && forall i | 0 <= i < |s| :: s[i] == funcs[i].start
  {
    seq(|funcs|, i requires 0 <= i < |funcs| reads funcs => funcs[i].start)
  }

  ghost function Ends(funcs: seq<FuncNode>): (s: seq<int>)
    reads funcs
    ensures |s| == |funcs| && forall i | 0 <= i < |s| :: s[i] == funcs[i].end
  {
    seq(|funcs|, i requires 0 <= i < |funcs| reads funcs => funcs[i].end)
  }

  ghost function Indices(funcs: seq<FuncNode>): (s: seq<nat>)
    reads funcs
    ensures |s| == |funcs| && forall i | 0 <= i < |s| :: s[i] == funcs[i].idx
  {
    seq(|funcs|, i requires 0 <= i < |funcs| reads funcs => funcs[i].idx)
  }

  ghost function FuncSet(funcs: seq<FuncNode>): set<FuncNode> { set f | f in funcs }

  lemma StartsAfterInsert(funcs: seq<FuncNode>, starts: seq<int>, p: nat, func: FuncNode)
    requires p <= |funcs| && Starts(funcs) == starts
    ensures Starts(InsertAt(funcs, p, func)) == InsertAt(starts, p, func.start)
    ensures func in InsertAt(funcs, p, func)
  {
    assert InsertAt(funcs, p, func)[p] == func;
  }

  /** The new list, if any, differs from the old one by one fresh node, put where starts stay increasing. */
  method CfgAppendFunc(heap: Heap, cfg: CfgRoot, insn: int) returns (func: FuncNode)
    modifies heap, cfg
    ensures func in cfg.funcs && func.start == insn
    ensures Starts(cfg.funcs) == old(Inserted(Starts(cfg.funcs), insn))
    ensures
      var p := old(Pos(Starts(cfg.funcs), insn));
      if old(Has(Starts(cfg.funcs), insn)) then
        func == old(cfg.funcs)[p] && cfg.funcs == old(cfg.funcs) && heap.live == old(heap.live)
        && cfg.funcNum == old(cfg.funcNum)
      else
        fresh(func) && cfg.funcs == InsertAt(old(cfg.funcs), p, func) && heap.live == old(heap.live) + {func}
        && func.idx == old(cfg.funcNum) && func.bbs == [] && cfg.funcNum == old(cfg.funcNum) + 1
  {
    hide Pos, InsertAt;
    ghost var starts := Starts(cfg.funcs);
    var i := 0;
    while i < |cfg.funcs|
      invariant 0 <= i <= |cfg.funcs|
      invariant forall j | 0 <= j < i :: starts[j] < insn
    {
      if cfg.funcs[i].start == insn {
        PosUnique(starts, insn, i);
        return cfg.funcs[i];
      } else if cfg.funcs[i].start > insn {
        break;
      }
      i := i + 1;
    }
    PosUnique(starts, insn, i);
    func := new FuncNode();
    heap.live := heap.live + {func};
    func.start := insn;
    func.idx := cfg.funcNum;
    ghost var before := cfg.funcs;
    cfg.funcs := InsertAt(cfg.funcs, i, func);
    cfg.funcNum := cfg.funcNum + 1;
    StartsAfterInsert(before, starts, i, func);
  }

  ghost predicate FuncsBlank(cfg: CfgRoot)
    reads cfg, cfg.funcs
  {
    && Increasing(Starts(cfg.funcs))
    && IsPermutation(Indices(cfg.funcs))
    && cfg.funcNum == |cfg.funcs|
    && forall f | f in cfg.funcs :: f.bbs == []
  }

  /** What one call of CfgAppendFunc does to a list that is already in order. */
  lemma AppendKeepsFuncs(before: seq<FuncNode>, p: nat, func: FuncNode)
    requires p <= |before| && IsPermutation(Indices(before)) && func.idx == |before|
    ensures IsPermutation(Indices(InsertAt(before, p, func)))
    ensures FuncSet(InsertAt(before, p, func)) == FuncSet(before) + {func}
    ensures forall f | f in InsertAt(before, p, func) :: f in before || f == func
  {
    InsertFreshIndex(Indices(before), p);
    assert Indices(InsertAt(before, p, func)) == InsertAt(Indices(before), p, |before|);
    InsertAtMembers(before, p, func);
  }

  /** CfgAppendFunc on a list in order, as the partition pass uses it. */
  method AddFunc(heap: Heap, cfg: CfgRoot, insn: int)
    requires FuncsBlank(cfg) && FuncSet(cfg.funcs) <= heap.live
    modifies heap, cfg
    ensures FuncsBlank(cfg)
    ensures forall x :: x in Starts(cfg.funcs) <==> x in old(Starts(cfg.funcs)) || x == insn
    ensures forall f | f in cfg.funcs :: f in old(cfg.funcs) || fresh(f)
    ensures heap.live == old(heap.live) + FuncSet(cfg.funcs)
    ensures old(FuncSet(cfg.funcs)) <= FuncSet(cfg.funcs)
  {
    ghost var before, starts := cfg.funcs, Starts(cfg.funcs);
    InsertedMeaning(starts, insn);
    var func := CfgAppendFunc(heap, cfg, insn);
    if !Has(starts, insn) {
      AppendKeepsFuncs(before, Pos(starts, insn), func);
    }
  }

  ghost predicate EndsSet(starts: seq<int>, ends: seq<int>, n: nat) {
    && |ends| == |starts|
    && forall i | 0 <= i < |ends| :: ends[i] == if i + 1 < |starts| then starts[i + 1] - 1 else n - 1
  }

  /** cfg_partition_funcs: the start of the array and every pseudo-call target begin a function. */
  method CfgPartitionFuncs(heap: Heap, prog: Program, cfg: CfgRoot)
    requires prog != [] && cfg.funcs == [] && cfg.funcNum == 0
    modifies heap, cfg
    ensures FuncsPartitioned(prog, cfg)
    ensures forall f | f in cfg.funcs :: fresh(f) && f.bbs == []
    ensures heap.live == old(heap.live) + FuncSet(cfg.funcs)
  {
    DiscoverFuncs(heap, prog, cfg);
    FuncStartBytes(prog);
    ghost var starts, indices := Starts(cfg.funcs), Indices(cfg.funcs);
    assert 0 in starts;
    forall i | 0 <= i < |cfg.funcs| ensures fresh(cfg.funcs[i]) {
      assert cfg.funcs[i] in cfg.funcs;
    }
    assert forall i, j | 0 <= i < j < |starts| :: starts[i] < starts[j];
    SetEnds(prog, cfg);
    EndsFollowAsSets(cfg.funcs, |prog|);
    assert Starts(cfg.funcs) == starts && Indices(cfg.funcs) == indices;
  }

  method DiscoverFuncs(heap: Heap, prog: Program, cfg: CfgRoot)
    requires prog != [] && cfg.funcs == [] && cfg.funcNum == 0
    modifies heap, cfg
    ensures FuncsBlank(cfg) && forall f | f in cfg.funcs :: fresh(f)
    ensures forall x :: x in Starts(cfg.funcs) <==>
                        || x == 0
                        || exists i :: 0 <= i < |prog| && Byte(prog[i].code) == 0x85 && prog[i].srcReg == 1
                                       && x == i + prog[i].off + 1
    ensures heap.live == old(heap.live) + FuncSet(cfg.funcs)
  {
    AddFunc(heap, cfg, 0);
    for cur := 0 to |prog|
      invariant FuncsBlank(cfg) && forall f | f in cfg.funcs :: fresh(f)
      invariant forall x :: x in Starts(cfg.funcs) <==> x == 0 || CallTarget(prog, cur, x)
      invariant heap.live == old(heap.live) + FuncSet(cfg.funcs)
    {
      CallTargetStep(prog, cur);
      if prog[cur].code != PSEUDO_CALL_CODE {
        continue;
      }
      if prog[cur].srcReg != BPF_PSEUDO_CALL {
        continue;
      }
      AddFunc(heap, cfg, cur + prog[cur].off + 1);
    }
    FuncStartBytes(prog);
  }

  /** The end of every function but the last is the instruction before the next start. */
  method SetEnds(prog: Program, cfg: CfgRoot)
    requires NoDup(cfg.funcs) && cfg.funcs != []
    modifies cfg.funcs`end
    ensures EndsFollow(cfg.funcs, |prog|)
  {
    var last := |cfg.funcs| - 1;
    cfg.funcs[last].end := |prog| - 1;
    for i := 0 to last
      invariant cfg.funcs[last].end == |prog| - 1
      invariant forall j | 0 <= j < i :: cfg.funcs[j].end == cfg.funcs[j + 1].start - 1
    {
      cfg.funcs[i].end := cfg.funcs[i + 1].start - 1;
    }
  }

  ghost predicate EndsFollow(funcs: seq<FuncNode>, n: nat)
    reads funcs`start, funcs`end
  {
    forall i | 0 <= i < |funcs| :: funcs[i].end == if i + 1 < |funcs| then funcs[i + 1].start - 1 else n - 1
  }

  lemma EndsFollowAsSets(funcs: seq<FuncNode>, n: nat)
    requires EndsFollow(funcs, n)
    ensures EndsSet(Starts(funcs), Ends(funcs), n)
  {
  }

  /** The finished function list of a program. */
  ghost predicate FuncsPartitioned(prog: Program, cfg: CfgRoot)
    reads cfg, cfg.funcs
  {
    && PartitionOf(prog, Starts(cfg.funcs), Ends(cfg.funcs), Indices(cfg.funcs))
    && cfg.funcNum == |cfg.funcs|
  }

  ghost predicate PartitionOf(prog: Program, starts: seq<int>, ends: seq<int>, indices: seq<nat>) {
    && starts != []
    && Increasing(starts)
    && (forall x :: x in starts <==> FuncStart(prog, x))
    && EndsSet(starts, ends, |prog|)
    && IsPermutation(indices)
  }

  /** Each function of the list is one of the program's functions. */
  lemma FuncRangeOf(prog: Program, cfg: CfgRoot, i: nat)
    requires prog != [] && CallsInside(prog) && FuncsPartitioned(prog, cfg) && i < |cfg.funcs|
    ensures FuncRange(prog, cfg.funcs[i].start, cfg.funcs[i].end)
  {
    RangesOf(prog, Starts(cfg.funcs), Ends(cfg.funcs), Indices(cfg.funcs));
  }

  /** The functions tile the instruction array, and each is one of the program's functions. */
  lemma RangesOf(prog: Program, starts: seq<int>, ends: seq<int>, indices: seq<nat>)
    requires prog != [] && CallsInside(prog) && PartitionOf(prog, starts, ends, indices)
    ensures starts[0] == 0 && ends[|ends| - 1] == |prog| - 1
    ensures forall i | 0 <= i < |starts| - 1 :: starts[i + 1] == ends[i] + 1
    ensures forall i | 0 <= i < |starts| :: FuncRange(prog, starts[i], ends[i])
  {
    assert FuncStart(prog, 0) && 0 in starts;
    assert starts[0] in starts;
    forall i | 0 <= i < |starts| ensures 0 <= starts[i] < |prog| {
      assert starts[i] in starts;
    }
    forall i | 0 <= i < |starts| ensures FuncRange(prog, starts[i], ends[i]) {
      assert starts[i] in starts;
      assert i + 1 < |starts| ==> starts[i + 1] in starts;
      assert forall k | i < k < |starts| :: ends[i] < starts[k];
    }
  }
}
