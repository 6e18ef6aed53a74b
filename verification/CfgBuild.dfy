/** cfg_build of cfg.c, and what a finished graph is. */
module CfgBuild {
  import opened Bpf
  import opened SortedSeq
  import opened CfgNodes
  import opened CfgFuncs
  import opened CfgBlocks
  import opened CfgEdges

  /** The finished graph of one function. */
  ghost predicate Graph(prog: Program, func: FuncNode)
    reads func, func.bbs, EdgesOf(func.bbs)
  {
    Laid(prog, func) && AllWired(prog, func.bbs) && forall b | b in func.bbs :: b.l == func
  }

  /** The nodes that belong to one function, besides its own. */
  ghost function NodesOf(func: FuncNode): set<object>
    reads func, func.bbs
  {
    BbSet(func.bbs) + EdgesOf(func.bbs)
  }

  /** func_partition_bb. */
  method FuncPartitionBb(heap: Heap, prog: Program, func: FuncNode)
    requires 0 <= func.start <= func.end < |prog|
    modifies heap, func`bbs, func`bbNum
    ensures BlocksLaid(prog, func.start, func.end, func.bbs) && NoDup(func.bbs)
    ensures func.bbNum == |func.bbs| + NUM_FIXED_BLOCKS
    ensures forall b | b in func.bbs :: fresh(b) && Bare(b, func)
    ensures heap.live == old(heap.live) + BbSet(func.bbs)
  {
    hide LeaderSeq, TailsSet, BlocksBlank, NoDup, Real;
    FuncPartitionBbHead(heap, prog, func);
    BlankBlocks(func);
    ghost var heads := Heads(func.bbs);
    forall i | 0 <= i < |func.bbs| ensures fresh(func.bbs[i]) {
      assert func.bbs[i] in func.bbs;
    }
    FuncPartitionBbTail(func);
    TailsReal(func);
    assert Heads(func.bbs) == heads;
  }

  lemma BlankBlocks(func: FuncNode)
    requires BlocksBlank(func)
    ensures Real(func.bbs) && forall b | b in func.bbs :: Bare(b, func)
  {
  }

  lemma TailsReal(func: FuncNode)
    requires TailsSet(func.bbs, func.end)
    ensures Real(func.bbs)
  {
  }

  /** The special blocks around the others complete the layout. */
  lemma FrameBlocks(prog: Program, func: FuncNode, blocks: seq<BbNode>, entry: BbNode, exit: BbNode)
    requires func.bbs == [entry] + blocks + [exit] && entry != exit
    requires Special(entry, ENTRY_BLOCK_INDEX) && Special(exit, EXIT_BLOCK_INDEX)
    requires BlocksLaid(prog, func.start, func.end, blocks) && NoDup(blocks)
    requires func.bbNum == |blocks| + NUM_FIXED_BLOCKS
    ensures Laid(prog, func)
    ensures BbSet(func.bbs) == BbSet(blocks) + {entry, exit}
  {
    assert Blocks(func) == blocks;
  }

  method PartitionAndFrame(heap: Heap, prog: Program, func: FuncNode)
    requires 0 <= func.start <= func.end < |prog|
    modifies heap, func`bbs, func`bbNum
    ensures Laid(prog, func)
    ensures forall b | b in func.bbs :: fresh(b) && Bare(b, func)
    ensures heap.live == old(heap.live) + BbSet(func.bbs)
  {
    hide BlocksLaid, Laid, Special, NoDup;
    FuncPartitionBb(heap, prog, func);
    ghost var blocks := func.bbs;
    FuncAddSpecialBb(heap, func);
    assert func.bbs == [Entry(func)] + blocks + [Exit(func)];
    FrameBlocks(prog, func, blocks, Entry(func), Exit(func));
  }

  /** Adding the edges leaves the layout alone. */
  method WireLaid(heap: Heap, prog: Program, func: FuncNode)
    requires Laid(prog, func) && Closed(prog, func.start, func.end)
    requires forall b | b in func.bbs :: Bare(b, func)
    modifies heap, func.bbs`eSuccs, func.bbs`ePrevs
    ensures Laid(prog, func) && AllWired(prog, func.bbs)
    ensures forall e | e in EdgesOf(func.bbs) :: fresh(e)
    ensures heap.live == old(heap.live) + EdgesOf(func.bbs)
  {
    hide LeaderSeq, AllWired, Closed, EdgesOf;
    TailsInside(prog, func);
    ghost var heads := Heads(Blocks(func));
    FuncAddBbEdges(heap, prog, func);
    assert Heads(Blocks(func)) == heads;
  }

  /** The body of cfg_build's loop. */
  method BuildFunc(heap: Heap, prog: Program, func: FuncNode)
    requires Closed(prog, func.start, func.end)
    modifies heap, func`bbs, func`bbNum
    ensures Graph(prog, func)
    ensures forall o | o in NodesOf(func) :: fresh(o)
    ensures heap.live == old(heap.live) + NodesOf(func)
  {
    PartitionAndFrame(heap, prog, func);
    forall i | 0 <= i < |func.bbs| ensures fresh(func.bbs[i]) {
      assert func.bbs[i] in func.bbs;
    }
    WireLaid(heap, prog, func);
  }

  // ----- the whole graph

  ghost function AllBbs(funcs: seq<FuncNode>): set<BbNode>
    reads funcs
  {
    set f, b | f in funcs && b in f.bbs :: b
  }

  ghost function AllEdges(funcs: seq<FuncNode>): set<EdgeNode>
    reads funcs, AllBbs(funcs)
  {
    assert forall f, i | f in funcs && 0 <= i < |f.bbs| :: f.bbs[i] in f.bbs;
    set f, e | f in funcs && e in EdgesOf(f.bbs) :: e
  }

  /** Every node of the graph. */
  ghost function AllNodes(funcs: seq<FuncNode>): set<object>
    reads funcs, AllBbs(funcs)
  {
    FuncSet(funcs) + AllBbs(funcs) + AllEdges(funcs)
  }

  /** The first n functions are finished and the others have not been touched. */
  ghost predicate BuiltUpTo(prog: Program, funcs: seq<FuncNode>, n: nat)
    reads funcs, AllBbs(funcs), AllEdges(funcs)
  {
    assert forall f, i | f in funcs && 0 <= i < |f.bbs| :: f.bbs[i] in f.bbs;
    && n <= |funcs|
    && (forall i | 0 <= i < n :: Graph(prog, funcs[i]))
    && forall i | n <= i < |funcs| :: funcs[i].bbs == []
  }

  ghost predicate Built(prog: Program, cfg: CfgRoot)
    reads cfg, cfg.funcs, AllBbs(cfg.funcs), AllEdges(cfg.funcs)
  {
    FuncsPartitioned(prog, cfg) && BuiltUpTo(prog, cfg.funcs, |cfg.funcs|)
  }

  /** All blocks and edges of the functions in the list. */
  ghost function Parts(funcs: seq<FuncNode>): set<object>
    reads funcs, AllBbs(funcs)
  {
    AllBbs(funcs) + AllEdges(funcs)
  }

  /** Building one function touches nothing reachable from the others. */
  method BuildApart(heap: Heap, prog: Program, funcs: seq<FuncNode>, func: FuncNode)
    requires func in funcs && Closed(prog, func.start, func.end) && func.bbs == []
    modifies heap, func`bbs, func`bbNum
    ensures Graph(prog, func)
    ensures forall o | o in NodesOf(func) :: fresh(o)
    ensures Parts(funcs) == old(Parts(funcs)) + NodesOf(func)
    ensures heap.live == old(heap.live) + NodesOf(func)
    ensures forall g | g in funcs && g != func && old(Graph(prog, g)) :: Graph(prog, g)
  {
    hide Graph, Closed;
    BuildFunc(heap, prog, func);
    forall g | g in funcs && g != func ensures EdgesOf(g.bbs) == old(EdgesOf(g.bbs)) {
      assert forall i | 0 <= i < |g.bbs| :: unchanged(g.bbs[i]);
    }
    assert AllBbs(funcs) == old(AllBbs(funcs)) + BbSet(func.bbs);
    assert AllEdges(funcs) == old(AllEdges(funcs)) + EdgesOf(func.bbs);
  }

  method BuildOne(heap: Heap, prog: Program, funcs: seq<FuncNode>, n: nat)
    requires n < |funcs| && NoDup(funcs) && Closed(prog, funcs[n].start, funcs[n].end)
    requires BuiltUpTo(prog, funcs, n)
    modifies heap, funcs`bbs, funcs`bbNum
    ensures BuiltUpTo(prog, funcs, n + 1)
    ensures forall o | o in NodesOf(funcs[n]) :: fresh(o)
    ensures Parts(funcs) == old(Parts(funcs)) + NodesOf(funcs[n])
    ensures heap.live == old(heap.live) + NodesOf(funcs[n])
  {
    hide Graph, Closed, AllBbs, AllEdges, NodesOf;
    BuildApart(heap, prog, funcs, funcs[n]);
    forall i | 0 <= i < n ensures Graph(prog, funcs[i]) {
      assert funcs[i] in funcs && old(Graph(prog, funcs[i]));
    }
  }

  /** One turn of cfg_build's loop, with the account of what was allocated since base. */
  method BuildNext(heap: Heap, prog: Program, funcs: seq<FuncNode>, n: nat, ghost base: set<object>)
    requires n < |funcs| && NoDup(funcs) && Closed(prog, funcs[n].start, funcs[n].end)
    requires BuiltUpTo(prog, funcs, n)
    requires heap.live == base + Parts(funcs)
    modifies heap, funcs`bbs, funcs`bbNum
    ensures BuiltUpTo(prog, funcs, n + 1)
    ensures heap.live == base + Parts(funcs)
    ensures forall o | o in Parts(funcs) :: o in old(Parts(funcs)) || fresh(o)
  {
    BuildOne(heap, prog, funcs, n);
  }

  lemma NothingBuilt(prog: Program, funcs: seq<FuncNode>)
    requires forall i | 0 <= i < |funcs| :: funcs[i].bbs == []
    ensures BuiltUpTo(prog, funcs, 0) && Parts(funcs) == {}
  {
    assert forall f | f in funcs :: f.bbs == [];
  }

  /** Functions that keep their jumps to themselves and have no blocks yet. */
  ghost predicate Ready(prog: Program, funcs: seq<FuncNode>)
    reads funcs
  {
    && NoDup(funcs)
    && forall i | 0 <= i < |funcs| :: Closed(prog, funcs[i].start, funcs[i].end) && funcs[i].bbs == []
  }

  /** The loop of cfg_build. */
  method BuildFuncs(heap: Heap, prog: Program, funcs: seq<FuncNode>)
    requires Ready(prog, funcs)
    modifies heap, funcs`bbs, funcs`bbNum
    ensures BuiltUpTo(prog, funcs, |funcs|)
    ensures heap.live == old(heap.live) + Parts(funcs) && forall o | o in Parts(funcs) :: fresh(o)
  {
    NothingBuilt(prog, funcs);
    for n := 0 to |funcs|
      invariant BuiltUpTo(prog, funcs, n)
      invariant heap.live == old(heap.live) + Parts(funcs) && forall o | o in Parts(funcs) :: fresh(o)
    {
      BuildNext(heap, prog, funcs, n, old(heap.live));
    }
  }

  lemma SameList(prog: Program, cfg: CfgRoot, starts: seq<int>, ends: seq<int>, indices: seq<nat>)
    requires |starts| == |ends| == |indices| == |cfg.funcs| == cfg.funcNum
    requires forall i | 0 <= i < |cfg.funcs| ::
               cfg.funcs[i].start == starts[i] && cfg.funcs[i].end == ends[i] && cfg.funcs[i].idx == indices[i]
    requires PartitionOf(prog, starts, ends, indices)
    ensures FuncsPartitioned(prog, cfg)
  {
    assert Starts(cfg.funcs) == starts && Ends(cfg.funcs) == ends && Indices(cfg.funcs) == indices;
  }

  /** Building the blocks leaves the function list as it was. */
  method BuildKeepingList(heap: Heap, prog: Program, cfg: CfgRoot)
    requires FuncsPartitioned(prog, cfg) && Ready(prog, cfg.funcs)
    modifies heap, cfg.funcs`bbs, cfg.funcs`bbNum
    ensures Built(prog, cfg)
    ensures heap.live == old(heap.live) + Parts(cfg.funcs) && forall o | o in Parts(cfg.funcs) :: fresh(o)
  {
    hide Ready, BuiltUpTo, Parts;
    ghost var starts, ends, indices := Starts(cfg.funcs), Ends(cfg.funcs), Indices(cfg.funcs);
    BuildFuncs(heap, prog, cfg.funcs);
    SameList(prog, cfg, starts, ends, indices);
  }

  /** cfg_build: on return the graph is complete, and its nodes are exactly what was allocated. */
  method Build(heap: Heap, prog: Program, cfg: CfgRoot)
    requires WellFormedProgram(prog) && cfg.funcs == [] && cfg.funcNum == 0
    modifies heap, cfg
    ensures Built(prog, cfg)
    ensures forall o | o in AllNodes(cfg.funcs) :: fresh(o)
    ensures heap.live == old(heap.live) + AllNodes(cfg.funcs)
  {
    hide WellFormedProgram, FuncsPartitioned, BuiltUpTo, Closed, AllBbs, AllEdges, AllNodes, Parts, Ready;
    NotEmpty(prog);
    CfgPartitionFuncs(heap, prog, cfg);
    ReadyToBuild(prog, cfg);
    BuildKeepingList(heap, prog, cfg);
    FuncsAndParts(cfg.funcs);
  }

  lemma NotEmpty(prog: Program)
    requires WellFormedProgram(prog)
    ensures prog != []
  {
  }

  lemma FuncsAndParts(funcs: seq<FuncNode>)
    ensures AllNodes(funcs) == FuncSet(funcs) + Parts(funcs)
  {
  }

  lemma ReadyToBuild(prog: Program, cfg: CfgRoot)
    requires WellFormedProgram(prog) && FuncsPartitioned(prog, cfg)
    requires forall f | f in cfg.funcs :: f.bbs == []
    ensures Ready(prog, cfg.funcs)
  {
    forall i | 0 <= i < |cfg.funcs|
      ensures FuncRange(prog, cfg.funcs[i].start, cfg.funcs[i].end) && cfg.funcs[i].bbs == []
    {
      FuncRangeOf(prog, cfg, i);
      assert cfg.funcs[i] in cfg.funcs;
    }
    assert forall i, j | 0 <= i < j < |cfg.funcs| :: Starts(cfg.funcs)[i] < Starts(cfg.funcs)[j];
  }
}