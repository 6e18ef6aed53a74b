/** cfg_destroy of cfg.c: every node is unlinked and freed, once. */
module CfgDestroy {
  import opened Bpf
  import opened SortedSeq
  import opened CfgNodes
  import opened CfgBlocks
  import opened CfgEdges
  import opened CfgBuild
  import opened CfgFuncs

  // ----- each node is on one list

  /** The edges on b's two lists are linked there, each once. */
  ghost predicate EdgesOwned(b: BbNode)
    reads b, b.eSuccs, b.ePrevs
  {
    && NoDup(b.eSuccs) && NoDup(b.ePrevs)
    && (forall i | 0 <= i < |b.eSuccs| :: b.eSuccs[i].l == OnSuccs(b))
    && (forall i | 0 <= i < |b.ePrevs| :: b.ePrevs[i].l == OnPrevs(b))
  }

  /** In a finished graph every block is linked on its function's list only, and every edge on one list only. */
  lemma GraphOwned(prog: Program, func: FuncNode)
    requires Graph(prog, func)
    ensures NoDup(func.bbs) && forall b | b in func.bbs :: b.l == func && EdgesOwned(b)
  {
    forall b | b in func.bbs ensures EdgesOwned(b) {
      var i :| 0 <= i < |func.bbs| && func.bbs[i] == b;
      assert 0 < i < |func.bbs| - 1 ==> BlockWired(prog, func.bbs, b, func.bbs[i + 1]);
    }
  }

  // ----- one block

  method DestroyPrevs(heap: Heap, b: BbNode)
    requires NoDup(b.ePrevs) && forall e | e in b.ePrevs :: e in heap.live
    modifies heap, b`ePrevs
    ensures b.ePrevs == []
    ensures heap.live == old(heap.live) - old(set e | e in b.ePrevs)
  {
    ghost var all := b.ePrevs;
    ghost var n := 0;
    while b.ePrevs != []
      invariant n <= |all| && b.ePrevs == all[n..]
      invariant heap.live == old(heap.live) - set e | e in all[..n]
      decreases |b.ePrevs|
    {
      var e := b.ePrevs[0];
      assert e == all[n] && all[..n + 1] == all[..n] + [e];
      b.ePrevs := b.ePrevs[1..];
      heap.Free(e);
      n := n + 1;
    }
    assert all[..n] == all;
  }

  method DestroySuccs(heap: Heap, b: BbNode)
    requires NoDup(b.eSuccs) && forall e | e in b.eSuccs :: e in heap.live
    modifies heap, b`eSuccs
    ensures b.eSuccs == []
    ensures heap.live == old(heap.live) - old(set e | e in b.eSuccs)
  {
    ghost var all := b.eSuccs;
    ghost var n := 0;
    while b.eSuccs != []
      invariant n <= |all| && b.eSuccs == all[n..]
      invariant heap.live == old(heap.live) - set e | e in all[..n]
      decreases |b.eSuccs|
    {
      var e := b.eSuccs[0];
      assert e == all[n] && all[..n + 1] == all[..n] + [e];
      b.eSuccs := b.eSuccs[1..];
      heap.Free(e);
      n := n + 1;
    }
    assert all[..n] == all;
  }

  ghost function EdgeSet(b: BbNode): set<EdgeNode>
    reads b
  {
    (set e | e in b.ePrevs) + (set e | e in b.eSuccs)
  }

  method DestroyBlock(heap: Heap, b: BbNode)
    requires EdgesOwned(b) && b in heap.live && EdgeSet(b) <= heap.live
    modifies heap, b`ePrevs, b`eSuccs
    ensures heap.live == old(heap.live) - old(EdgeSet(b)) - {b}
    ensures b.ePrevs == [] && b.eSuccs == []
  {
    DestroyPrevs(heap, b);
    DestroySuccs(heap, b);
    heap.Free(b);
  }

  // ----- one function

  ghost predicate Owned(bbs: seq<BbNode>)
    reads bbs, EdgesOf(bbs)
  {
    assert forall b, i | b in bbs && 0 <= i < |b.eSuccs| :: b.eSuccs[i] in b.eSuccs + b.ePrevs;
    assert forall b, i | b in bbs && 0 <= i < |b.ePrevs| :: b.ePrevs[i] in b.eSuccs + b.ePrevs;
    NoDup(bbs) && forall b | b in bbs :: EdgesOwned(b)
  }

  /** The edges of a block are not those of the blocks after it. */
  lemma FirstApart(bbs: seq<BbNode>)
    requires bbs != [] && Owned(bbs)
    ensures bbs[0] !in bbs[1..] && EdgeSet(bbs[0]) !! EdgesOf(bbs[1..])
    ensures EdgesOf(bbs) == EdgeSet(bbs[0]) + EdgesOf(bbs[1..])
    ensures BbSet(bbs) == {bbs[0]} + BbSet(bbs[1..])
    ensures Owned(bbs[1..])
  {
    var b := bbs[0];
    assert b in bbs && bbs == [b] + bbs[1..];
    forall e | e in EdgeSet(b) ensures e !in EdgesOf(bbs[1..]) && e in EdgesOf(bbs) {
      assert e in b.eSuccs + b.ePrevs;
      assert e.l == OnSuccs(b) || e.l == OnPrevs(b);
      forall c | c in bbs[1..] ensures e !in c.eSuccs + c.ePrevs {
        assert EdgesOwned(c) && c != b;
      }
    }
  }

  /** One turn of the block loop of cfg_destroy. */
  method DestroyFirst(heap: Heap, func: FuncNode)
    requires func.bbs != [] && Owned(func.bbs) && NodesOf(func) <= heap.live
    modifies heap, func`bbs, func.bbs`ePrevs, func.bbs`eSuccs
    ensures func.bbs == old(func.bbs[1..]) && Owned(func.bbs) && NodesOf(func) <= heap.live
    ensures NodesOf(func) <= old(NodesOf(func))
    ensures heap.live == old(heap.live) - (old(NodesOf(func)) - NodesOf(func))
  {
    FirstApart(func.bbs);
    var bb := func.bbs[0];
    ghost var rest := func.bbs[1..];
    assert bb in func.bbs;
    func.bbs := func.bbs[1..];
    DestroyBlock(heap, bb);
    assert EdgesOf(rest) == old(EdgesOf(rest));
  }

  /** The block loop of cfg_destroy. */
  method DestroyBlocks(heap: Heap, func: FuncNode)
    requires Owned(func.bbs) && NodesOf(func) <= heap.live
    modifies heap, func`bbs, func.bbs`ePrevs, func.bbs`eSuccs
    ensures func.bbs == []
    ensures heap.live == old(heap.live) - old(NodesOf(func))
  {
    while func.bbs != []
      invariant Owned(func.bbs) && NodesOf(func) <= heap.live
      invariant forall i | 0 <= i < |func.bbs| :: func.bbs[i] in old(func.bbs)
      invariant NodesOf(func) <= old(NodesOf(func))
      invariant heap.live == old(heap.live) - (old(NodesOf(func)) - NodesOf(func))
      decreases |func.bbs|
    {
      DestroyFirst(heap, func);
    }
  }

  // ----- the whole graph

  /** No node is on two lists, and all are live. */
  ghost predicate Destroyable(heap: Heap, funcs: seq<FuncNode>)
    reads heap, funcs, AllBbs(funcs), AllEdges(funcs)
  {
    assert forall f, i | f in funcs && 0 <= i < |f.bbs| :: f.bbs[i] in f.bbs;
    && NoDup(funcs)
    && FuncsOwned(funcs)
    && AllNodes(funcs) <= heap.live
  }

  lemma FirstFuncApart(heap: Heap, funcs: seq<FuncNode>)
    requires funcs != [] && Destroyable(heap, funcs)
    ensures funcs[0] !in funcs[1..] && NodesOf(funcs[0]) !! Parts(funcs[1..])
    ensures AllNodes(funcs) == {funcs[0]} + NodesOf(funcs[0]) + AllNodes(funcs[1..])
    ensures Destroyable(heap, funcs[1..])
  {
    var f := funcs[0];
    assert f in funcs && funcs == [f] + funcs[1..];
    forall b | b in f.bbs ensures b !in AllBbs(funcs[1..]) {
      assert b.l == f;
    }
    forall e | e in EdgesOf(f.bbs) ensures e !in AllEdges(funcs[1..]) {
      var b :| b in f.bbs && e in b.eSuccs + b.ePrevs;
      assert EdgesOwned(b) && (e.l == OnSuccs(b) || e.l == OnPrevs(b));
      forall g | g in funcs[1..] ensures e !in EdgesOf(g.bbs) {
        forall c | c in g.bbs ensures e !in c.eSuccs + c.ePrevs {
          assert EdgesOwned(c) && c.l == g && c != b;
        }
      }
    }
  }

  ghost predicate FuncsOwned(funcs: seq<FuncNode>)
    reads funcs, AllBbs(funcs), AllEdges(funcs)
  {
    assert forall f, i | f in funcs && 0 <= i < |f.bbs| :: f.bbs[i] in f.bbs;
    forall f | f in funcs :: Owned(f.bbs) && forall b | b in f.bbs :: b.l == f
  }

  /** The body of the outer loop of cfg_destroy; the functions after the first are left alone. */
  method DestroyFunc(heap: Heap, cfg: CfgRoot, func: FuncNode, ghost rest: seq<FuncNode>)
    requires cfg.funcs == [func] + rest && func !in rest
    requires Owned(func.bbs) && {func} + NodesOf(func) <= heap.live
    requires BbSet(func.bbs) !! AllBbs(rest) && FuncsOwned(rest)
    modifies heap, cfg`funcs, func`bbs, func.bbs`ePrevs, func.bbs`eSuccs
    ensures cfg.funcs == rest && FuncsOwned(rest)
    ensures heap.live == old(heap.live) - old(NodesOf(func)) - {func}
    ensures AllBbs(rest) == old(AllBbs(rest)) && AllEdges(rest) == old(AllEdges(rest))
  {
    hide Owned;
    DestroyBlocks(heap, func);
    cfg.funcs := cfg.funcs[1..];
    heap.Free(func);
    forall g | g in rest ensures EdgesOf(g.bbs) == old(EdgesOf(g.bbs)) && Owned(g.bbs) {
      forall i | 0 <= i < |g.bbs| ensures unchanged(g.bbs[i]) {
        assert g.bbs[i] in g.bbs && g.bbs[i] in AllBbs(rest) && g.bbs[i] !in old(func.bbs);
      }
      assert old(Owned(g.bbs));
    }
  }

  method DestroyFirstFunc(heap: Heap, cfg: CfgRoot)
    requires cfg.funcs != [] && Destroyable(heap, cfg.funcs)
    modifies heap, cfg`funcs, cfg.funcs`bbs, AllBbs(cfg.funcs)`ePrevs, AllBbs(cfg.funcs)`eSuccs
    ensures cfg.funcs == old(cfg.funcs[1..]) && Destroyable(heap, cfg.funcs)
    ensures AllNodes(cfg.funcs) <= old(AllNodes(cfg.funcs)) && AllBbs(cfg.funcs) <= old(AllBbs(cfg.funcs))
    ensures heap.live == old(heap.live) - (old(AllNodes(cfg.funcs)) - AllNodes(cfg.funcs))
  {
    FirstFuncApart(heap, cfg.funcs);
    var func := cfg.funcs[0];
    assert func in cfg.funcs;
    forall i | 0 <= i < |func.bbs| ensures func.bbs[i] in AllBbs(cfg.funcs) {
      assert func.bbs[i] in func.bbs;
    }
    DestroyFunc(heap, cfg, func, cfg.funcs[1..]);
  }

  /** cfg_destroy: every node of the graph is freed, each exactly once, and nothing else is. */
  method Destroy(heap: Heap, cfg: CfgRoot)
    requires Destroyable(heap, cfg.funcs)
    modifies heap, cfg`funcs, cfg.funcs`bbs, AllBbs(cfg.funcs)`ePrevs, AllBbs(cfg.funcs)`eSuccs
    ensures cfg.funcs == []
    ensures heap.live == old(heap.live) - old(AllNodes(cfg.funcs))
  {
    while cfg.funcs != []
      invariant Destroyable(heap, cfg.funcs)
      invariant forall i | 0 <= i < |cfg.funcs| :: cfg.funcs[i] in old(cfg.funcs)
      invariant AllBbs(cfg.funcs) <= old(AllBbs(cfg.funcs)) && AllNodes(cfg.funcs) <= old(AllNodes(cfg.funcs))
      invariant heap.live == old(heap.live) - (old(AllNodes(cfg.funcs)) - AllNodes(cfg.funcs))
      decreases |cfg.funcs|
    {
      DestroyFirstFunc(heap, cfg);
    }
  }

  /** A finished graph can be destroyed: its nodes are linked on one list each. */
  lemma BuiltIsDestroyable(heap: Heap, prog: Program, cfg: CfgRoot)
    requires Built(prog, cfg) && AllNodes(cfg.funcs) <= heap.live
    ensures Destroyable(heap, cfg.funcs)
  {
    var starts := Starts(cfg.funcs);
    forall i, j | 0 <= i < j < |cfg.funcs| ensures cfg.funcs[i] != cfg.funcs[j] {
      assert starts[i] < starts[j];
    }
    forall f | f in cfg.funcs ensures Owned(f.bbs) && forall b | b in f.bbs :: b.l == f {
      GraphOwned(prog, f);
    }
  }

  /** dump_xlated_cfg, without the drawing: building and destroying leaves no node behind. */
  method BuildAndDestroy(heap: Heap, prog: Program) returns (cfg: CfgRoot)
    requires WellFormedProgram(prog)
    modifies heap
    ensures cfg.funcs == [] && heap.live == old(heap.live)
  {
    cfg := new CfgRoot();
    Build(heap, prog, cfg);
    BuiltIsDestroyable(heap, prog, cfg);
    forall i | 0 <= i < |cfg.funcs| ensures cfg.funcs[i] in AllNodes(cfg.funcs) {
      assert cfg.funcs[i] in cfg.funcs;
    }
    Destroy(heap, cfg);
  }
}
