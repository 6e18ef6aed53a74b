/** The nodes of cfg.c's control-flow graph, and the allocator they come from. */
module CfgNodes {

  const ENTRY_BLOCK_INDEX := 0
  const EXIT_BLOCK_INDEX := 1
  const NUM_FIXED_BLOCKS := 2

  /** An edge's flag word, bit by bit. */
  datatype Flags = Flags(fallthrough: bool, jump: bool) {
    function Or(other: Flags): Flags {
      Flags(fallthrough || other.fallthrough, jump || other.jump)
    }
  }

  const EDGE_FLAG_EMPTY := Flags(false, false)
  const EDGE_FLAG_FALLTHROUGH := Flags(true, false)
  const EDGE_FLAG_JUMP := Flags(false, true)

  /** A pointer into the instruction array; the two special blocks keep the null of calloc. */
  datatype Ptr = Null | At(pos: int)

  /** The list that an edge is linked on through its field l. */
  datatype EdgeLink = Unlinked | OnSuccs(bb: BbNode) | OnPrevs(bb: BbNode)

  /** What calloc has handed out and free has not taken back. */
  class Heap {
    ghost var live: set<object>

    constructor ()
      ensures live == {}
    {
      live := {};
    }

    method Free(o: object)
      requires o in live
      modifies this
      ensures live == old(live) - {o}
    {
      live := live - {o};
    }
  }

  class EdgeNode {
    var l: EdgeLink
    var src: BbNode?
    var dst: BbNode?
    var flags: Flags

    constructor (src: BbNode?, dst: BbNode?, flags: Flags)
      ensures this.l == Unlinked && this.src == src && this.dst == dst && this.flags == flags
    {
      this.l, this.src, this.dst, this.flags := Unlinked, src, dst, flags;
    }
  }

  class BbNode {
    var l: FuncNode?
    var ePrevs: seq<EdgeNode>
    var eSuccs: seq<EdgeNode>
    var head: Ptr
    var tail: Ptr
    var idx: nat

    constructor ()
      ensures l == null && ePrevs == [] && eSuccs == [] && head == Null && tail == Null && idx == 0
    {
      l, ePrevs, eSuccs, head, tail, idx := null, [], [], Null, Null, 0;
    }
  }

  class FuncNode {
    var bbs: seq<BbNode>
    var start: int
    var end: int
    var idx: nat
    var bbNum: nat

    constructor ()
      ensures bbs == [] && start == 0 && end == 0 && idx == 0 && bbNum == 0
    {
      bbs, start, end, idx, bbNum := [], 0, 0, 0, 0;
    }
  }

  class CfgRoot {
    var funcs: seq<FuncNode>
    var funcNum: nat

    constructor ()
      ensures funcs == [] && funcNum == 0
    {
      funcs, funcNum := [], 0;
    }
  }
}
