/**
 * WrapInAsyncExecPattern::matchAndRewrite: the blocks of a function are
 * visited in post-order (a block after the blocks nested in its
 * operations); each one whose owner is not a tfrt_gpu_conversion
 * async.execute is rewritten by the block rule, and the rewrite of the
 * function succeeds when some block was.
 */
module WrapFunctions {
  import opened Wrappers
  import opened Ir
  import opened WrapRuns
  import opened WrapInAsyncExec
  import opened Rewriting

  /** The blocks nested in the regions of operations `os`, post-order, down to `fuel` levels of nesting. */
  function WalkOps(g: Graph, os: seq<OpId>, fuel: nat): (r: seq<BlockId>)
    ensures forall c :: c in r ==> c in g.blocks
    decreases fuel, 0, |os|
  {
    if os == [] then []
    else
      var o := Last(os);
      WalkOps(g, os[..|os| - 1], fuel)
      + (if o in g.ops && fuel > 0 then WalkRegion(g, g.ops[o].regions, fuel - 1) else [])
  }

  /** The blocks `rs` of a region, each after the blocks nested in its operations. */
  function WalkRegion(g: Graph, rs: seq<BlockId>, fuel: nat): (r: seq<BlockId>)
    ensures forall c :: c in r ==> c in g.blocks
    ensures forall c :: c in rs && c in g.blocks ==> c in r
    decreases fuel, 1, |rs|
  {
    if rs == [] then []
    else
      var c := Last(rs);
      WalkRegion(g, rs[..|rs| - 1], fuel)
      + (if c in g.blocks then WalkOps(g, g.blocks[c].ops, fuel) + [c] else [])
  }

  /** op.walk over the blocks of function `f`; nesting is bounded by the number of operations. */
  function Walk(g: Graph, f: OpId): (r: seq<BlockId>)
    ensures forall c :: c in r ==> c in g.blocks
  {
    if f in g.ops then WalkRegion(g, g.ops[f].regions, |g.ops|) else []
  }

  /** Block `c` is the body of a tfrt_gpu_conversion.async.execute. */
  predicate ExecBody(g: Graph, c: BlockId) {
    c in g.blocks && g.blocks[c].parent in g.ops && g.ops[g.blocks[c].parent].kind == AsyncExecute
  }

  /** The walk callback applied to the blocks `bs` in turn; `changed` records whether some block was rewritten. */
  function WrapBlocks(g: Graph, bs: seq<BlockId>, legal: set<OpId>, changed: bool): (Graph, bool)
    decreases |bs|
  {
    if bs == [] then (g, changed)
    else if bs[0] in g.blocks && !ExecBody(g, bs[0]) then
      match WrapBlock(g, bs[0], legal)
      case Success(r) => WrapBlocks(r, bs[1..], legal, true)
      case Failure(_) => WrapBlocks(g, bs[1..], legal, changed)
    else WrapBlocks(g, bs[1..], legal, changed)
  }

  /** The rewrite of function `f`; it fails when no block changed. */
  function WrapFunction(g: Graph, f: OpId, legal: set<OpId>): Result<Graph, MatchFailure> {
    var (r, changed) := WrapBlocks(g, Walk(g, f), legal, false);
    if changed then Success(r) else Failure(NoLegalRun)
  }

  /** When no block was rewritten the graph is the one the walk started from. */
  lemma {:induction false} WrapBlocksUnchanged(g: Graph, bs: seq<BlockId>, legal: set<OpId>, changed: bool)
    ensures WrapBlocks(g, bs, legal, changed).1 == (changed || WrapBlocks(g, bs, legal, false).1)
    ensures !WrapBlocks(g, bs, legal, changed).1 ==> WrapBlocks(g, bs, legal, changed).0 == g
    decreases |bs|
  {
    if bs != [] {
      WrapBlocksUnchanged(g, bs[1..], legal, changed);
      WrapBlocksUnchanged(g, bs[1..], legal, false);
      if bs[0] in g.blocks && !ExecBody(g, bs[0]) && WrapBlock(g, bs[0], legal).Success? {
        WrapBlocksUnchanged(WrapBlock(g, bs[0], legal).value, bs[1..], legal, true);
      }
    }
  }

  /**
   * The walk keeps the graph valid, keeps every existing block and
   * operation, and never touches the body of an async.execute, which stays
   * such a body.
   */
  lemma {:induction false} WrapBlocksKeeps(g: Graph, bs: seq<BlockId>, legal: set<OpId>, changed: bool)
    requires Valid(g)
    ensures var r := WrapBlocks(g, bs, legal, changed).0;
      && Valid(r)
      && (forall o :: o in g.ops ==> o in r.ops && r.ops[o].kind == g.ops[o].kind)
      && (forall c :: c in g.blocks ==> c in r.blocks && r.blocks[c].parent == g.blocks[c].parent)
      && (forall c :: ExecBody(g, c) ==> ExecBody(r, c) && r.blocks[c] == g.blocks[c])
    decreases |bs|
  {
    if bs != [] && bs[0] in g.blocks && !ExecBody(g, bs[0]) && WrapBlock(g, bs[0], legal).Success? {
      var r := WrapBlock(g, bs[0], legal).value;
      WrapBlockKeeps(g, bs[0], legal);
      assert forall o :: o in g.ops ==> o in r.ops && r.ops[o].kind == g.ops[o].kind;
      WrapBlocksKeeps(r, bs[1..], legal, true);
    } else if bs != [] {
      WrapBlocksKeeps(g, bs[1..], legal, changed);
    }
  }

  /** The rewrite of a function keeps the graph valid and leaves async.execute bodies as they were. */
  lemma {:induction false} WrapFunctionKeeps(g: Graph, f: OpId, legal: set<OpId>)
    requires Valid(g) && WrapFunction(g, f, legal).Success?
    ensures Valid(WrapFunction(g, f, legal).value)
    ensures forall c :: ExecBody(g, c) ==>
      ExecBody(WrapFunction(g, f, legal).value, c) && WrapFunction(g, f, legal).value.blocks[c] == g.blocks[c]
  {
    WrapBlocksKeeps(g, Walk(g, f), legal, false);
  }

  /** Block `c` is visited by the walk callback and holds a legal operation directly followed by an illegal one. */
  predicate Wrappable(g: Graph, c: BlockId, legal: set<OpId>) {
    c in g.blocks && !ExecBody(g, c)
    && exists i :: 0 <= i < |g.blocks[c].ops| - 1 && g.blocks[c].ops[i] in legal && g.blocks[c].ops[i + 1] !in legal
  }

  /**
   * The walk rewrites something exactly when one of the blocks, as it stood
   * before the walk, is wrappable: up to the first rewritten block the
   * graph is unchanged.
   */
  lemma {:induction false} WrapBlocksApplies(g: Graph, bs: seq<BlockId>, legal: set<OpId>)
    ensures WrapBlocks(g, bs, legal, false).1 <==> exists k :: 0 <= k < |bs| && Wrappable(g, bs[k], legal)
    decreases |bs|
  {
    if bs != [] {
      var c := bs[0];
      var rest := bs[1..];
      if c in g.blocks {
        WrapBlockApplies(g, c, legal);
      }
      if c in g.blocks && !ExecBody(g, c) && WrapBlock(g, c, legal).Success? {
        var r := WrapBlock(g, c, legal).value;
        assert Wrappable(g, bs[0], legal);
        WrapBlocksUnchanged(r, rest, legal, true);
      } else {
        assert !Wrappable(g, c, legal);
        WrapBlocksUnchanged(g, rest, legal, false);
        WrapBlocksApplies(g, rest, legal);
        assert forall k :: 0 < k < |bs| ==> bs[k] == rest[k - 1];
        assert (exists k :: 0 <= k < |bs| && Wrappable(g, bs[k], legal))
            <==> (exists k :: 0 <= k < |rest| && Wrappable(g, rest[k], legal)) by {
          if exists k :: 0 <= k < |bs| && Wrappable(g, bs[k], legal) {
            var k :| 0 <= k < |bs| && Wrappable(g, bs[k], legal);
            assert k > 0 && Wrappable(g, rest[k - 1], legal);
          }
          if exists k :: 0 <= k < |rest| && Wrappable(g, rest[k], legal) {
            var k :| 0 <= k < |rest| && Wrappable(g, rest[k], legal);
            assert Wrappable(g, bs[k + 1], legal);
          }
        }
      }
    }
  }

  /**
   * The rewrite of a function succeeds exactly when one of its blocks
   * outside an async.execute holds a legal operation directly followed by
   * an illegal one.
   */
  lemma {:induction false} WrapFunctionApplies(g: Graph, f: OpId, legal: set<OpId>)
    ensures WrapFunction(g, f, legal).Success? <==> exists c :: c in Walk(g, f) && Wrappable(g, c, legal)
  {
    var bs := Walk(g, f);
    WrapBlocksApplies(g, bs, legal);
    if exists c :: c in bs && Wrappable(g, c, legal) {
      var c :| c in bs && Wrappable(g, c, legal);
      var k :| 0 <= k < |bs| && bs[k] == c;
    }
  }

  /** No block is visited twice. */
  predicate Distinct(bs: seq<BlockId>) {
    forall i, j :: 0 <= i < j < |bs| ==> bs[i] != bs[j]
  }

  /** `o` is an async.execute whose one body block exists and was created by the walk (id at least `nb`). */
  ghost predicate WrapperAbove(h: Graph, o: OpId, nb: BlockId) {
    o in h.ops && h.ops[o].kind == AsyncExecute && |h.ops[o].regions| == 1
    && h.ops[o].regions[0] in h.blocks && h.ops[o].regions[0] >= nb
  }

  /**
   * Every block of `g` is still in `h`, lists operations of `g` and new
   * async.execute operations only, and undoing those gives back the block
   * as it was in `g`.
   */
  ghost predicate Restores(g: Graph, h: Graph) {
    forall c :: c in g.blocks ==>
      && c in h.blocks
      && (forall o :: o in h.blocks[c].ops ==> o < g.nextOp || WrapperAbove(h, o, g.nextBlock))
      && Inline(h, h.blocks[c].ops, g.nextOp) == g.blocks[c].ops
  }

  /** Operations that are all below `base` stand for themselves. */
  lemma {:induction false} InlineBelow(g: Graph, os: seq<OpId>, base: OpId)
    requires forall o :: o in os ==> o < base
    ensures Inline(g, os, base) == os
    decreases |os|
  {
    if os != [] {
      var n := |os| - 1;
      assert os == os[..n] + [os[n]] && os[n] in os;
      assert forall o :: o in os[..n] ==> o in os;
      InlineBelow(g, os[..n], base);
      InlineLast(g, os, base);
    }
  }

  /** Two graphs that undo each listed operation alike undo the whole list alike. */
  lemma {:induction false} InlineAgree(g: Graph, h: Graph, os: seq<OpId>, base: OpId)
    requires forall o :: o in os ==> Unwrapped(g, o, base) == Unwrapped(h, o, base)
    ensures Inline(g, os, base) == Inline(h, os, base)
    decreases |os|
  {
    if os != [] {
      var n := |os| - 1;
      assert forall o :: o in os[..n] ==> o in os;
      InlineAgree(g, h, os[..n], base);
    }
  }

  /** Raising the threshold from `lo` to `hi` changes nothing when no listed id lies in between. */
  lemma {:induction false} InlineBase(g: Graph, os: seq<OpId>, lo: OpId, hi: OpId)
    requires lo <= hi && forall o :: o in os ==> o < lo || o >= hi
    ensures Inline(g, os, lo) == Inline(g, os, hi)
    decreases |os|
  {
    if os != [] {
      var n := |os| - 1;
      assert forall o :: o in os[..n] ==> o in os;
      assert os[n] in os;
      InlineBase(g, os[..n], lo, hi);
      InlineLast(g, os, lo);
      InlineLast(g, os, hi);
    }
  }

  /** Before the walk every block restores itself. */
  lemma {:induction false} RestoresStart(g: Graph)
    requires WellFormed(g)
    ensures Restores(g, g)
  {
    forall c | c in g.blocks
      ensures Inline(g, g.blocks[c].ops, g.nextOp) == g.blocks[c].ops
    {
      forall o | o in g.blocks[c].ops
        ensures o < g.nextOp
      {
        var k :| 0 <= k < |g.blocks[c].ops| && g.blocks[c].ops[k] == o;
      }
      InlineBelow(g, g.blocks[c].ops, g.nextOp);
    }
  }

  /** A block rewrite leaves every other block of `g` as restorable as it was. */
  lemma {:induction false} RestoresOther(g: Graph, h: Graph, b: BlockId, r: Graph, c: BlockId)
    requires Valid(g) && b in g.blocks && b in h.blocks && KeepsOutside(h, b, r)
    requires c in g.blocks && c != b && Restores(g, h)
    ensures c in r.blocks
    ensures forall o :: o in r.blocks[c].ops ==> o < g.nextOp || WrapperAbove(r, o, g.nextBlock)
    ensures Inline(r, r.blocks[c].ops, g.nextOp) == g.blocks[c].ops
  {
    var os := h.blocks[c].ops;
    forall o | o in os
      ensures Unwrapped(h, o, g.nextOp) == Unwrapped(r, o, g.nextOp)
      ensures o < g.nextOp || WrapperAbove(r, o, g.nextBlock)
    {
      if o >= g.nextOp {
        var body := h.ops[o].regions[0];
        assert body != b;
        assert r.ops[o].regions == h.ops[o].regions && r.blocks[body] == h.blocks[body];
      }
    }
    InlineAgree(h, r, os, g.nextOp);
  }

  /** The rewritten block itself: its new async.execute operations undo to the block as it was in `g`. */
  lemma {:induction false} RestoresWrapped(g: Graph, h: Graph, b: BlockId, legal: set<OpId>)
    requires WellFormed(g) && Valid(h) && h.nextOp >= g.nextOp && h.nextBlock >= g.nextBlock
    requires b in g.blocks && b in h.blocks && h.blocks[b] == g.blocks[b]
    requires WrapBlock(h, b, legal).Success?
    ensures var r := WrapBlock(h, b, legal).value;
      && b in r.blocks
      && (forall o :: o in r.blocks[b].ops ==> o < g.nextOp || WrapperAbove(r, o, g.nextBlock))
      && Inline(r, r.blocks[b].ops, g.nextOp) == g.blocks[b].ops
  {
    var r := WrapBlock(h, b, legal).value;
    InlineBelowListed(g, b);
    WrappedIds(h, b, legal);
    WrapBlockRoundTrip(h, b, legal);
    var ids := r.blocks[b].ops;
    assert forall o :: o in ids ==> o < g.nextOp || (o >= h.nextOp && WrapperAbove(r, o, g.nextBlock));
    InlineBase(r, ids, g.nextOp, h.nextOp);
  }

  /** The rewritten block lists operations it listed before and new async.execute operations, each with a new body. */
  lemma {:induction false} WrappedIds(h: Graph, b: BlockId, legal: set<OpId>)
    requires Valid(h) && b in h.blocks && ListedBelow(h, b)
    requires WrapBlock(h, b, legal).Success?
    ensures var r := WrapBlock(h, b, legal).value;
      && b in r.blocks
      && forall o :: o in r.blocks[b].ops ==>
           o in h.blocks[b].ops || (o >= h.nextOp && WrapperAbove(r, o, h.nextBlock))
  {
    var r := WrapBlock(h, b, legal).value;
    var slots := Grouped(h.blocks[b].ops, legal);
    WrapBlockSpec(h, b, legal);
    var ids := r.blocks[b].ops;
    forall o | o in ids
      ensures o in h.blocks[b].ops || (o >= h.nextOp && WrapperAbove(r, o, h.nextBlock))
    {
      var j :| 0 <= j < |ids| && ids[j] == o;
      if slots[j].Group? {
        IdsGroupRange(slots, h.nextOp, j);
        BodiesRange(slots, h.nextBlock, j);
        assert IsWrapper(r, Ids(slots, h.nextOp)[j], Bodies(slots, h.nextBlock)[j], b, slots[j].run);
      } else {
        KeptId(slots, h.nextOp, j);
        FlattenHas(slots, j);
      }
    }
  }

  /** The operations a well-formed block lists lie below the next free id. */
  lemma {:induction false} InlineBelowListed(g: Graph, b: BlockId)
    requires WellFormed(g) && b in g.blocks
    ensures ListedBelow(g, b)
  {
    forall o | o in g.blocks[b].ops
      ensures o < g.nextOp
    {
      var k :| 0 <= k < |g.blocks[b].ops| && g.blocks[b].ops[k] == o;
    }
  }

  /** A block rewrite keeps every block of `g` restorable; the blocks still to visit stay as they were. */
  lemma {:induction false} RestoresStep(g: Graph, h: Graph, b: BlockId, legal: set<OpId>)
    requires WellFormed(g) && Valid(h) && h.nextOp >= g.nextOp && h.nextBlock >= g.nextBlock
    requires Restores(g, h) && b in g.blocks && b in h.blocks && h.blocks[b] == g.blocks[b]
    requires WrapBlock(h, b, legal).Success?
    ensures var r := WrapBlock(h, b, legal).value;
      && Valid(r) && r.nextOp >= g.nextOp && r.nextBlock >= g.nextBlock
      && Restores(g, r) && KeepsOutside(h, b, r)
  {
    var r := WrapBlock(h, b, legal).value;
    WrapBlockKeeps(h, b, legal);
    RestoresWrapped(g, h, b, legal);
    forall c | c in g.blocks && c != b
      ensures c in r.blocks
      ensures forall o :: o in r.blocks[c].ops ==> o < g.nextOp || WrapperAbove(r, o, g.nextBlock)
      ensures Inline(r, r.blocks[c].ops, g.nextOp) == g.blocks[c].ops
    {
      RestoresOther(g, h, b, r, c);
    }
  }

  /**
   * The walk over distinct blocks `bs`, started from `h`, keeps every block
   * of `g` restorable, as long as the blocks still to visit are as they
   * were in `g`.
   */
  lemma {:induction false} WrapBlocksRestores(g: Graph, h: Graph, bs: seq<BlockId>, legal: set<OpId>, changed: bool)
    requires WellFormed(g) && Valid(h) && h.nextOp >= g.nextOp && h.nextBlock >= g.nextBlock
    requires Restores(g, h) && Distinct(bs)
    requires forall c :: c in bs ==> c in g.blocks && c in h.blocks && h.blocks[c] == g.blocks[c]
    ensures Restores(g, WrapBlocks(h, bs, legal, changed).0)
    decreases |bs|
  {
    if bs != [] {
      var b := bs[0];
      var rest := bs[1..];
      assert forall c :: c in rest ==> c in bs && c != b by {
        forall c | c in rest
          ensures c in bs && c != b
        {
          var k :| 0 <= k < |rest| && rest[k] == c;
          assert bs[k + 1] == c;
        }
      }
      assert Distinct(rest) by {
        forall i, j | 0 <= i < j < |rest|
          ensures rest[i] != rest[j]
        {
          assert rest[i] == bs[i + 1] && rest[j] == bs[j + 1];
        }
      }
      if b in h.blocks && !ExecBody(h, b) && WrapBlock(h, b, legal).Success? {
        var r := WrapBlock(h, b, legal).value;
        RestoresStep(g, h, b, legal);
        WrapBlocksRestores(g, r, rest, legal, true);
      } else {
        WrapBlocksRestores(g, h, rest, legal, changed);
      }
    }
  }

  /** The walk leaves alone every block it does not visit. */
  lemma {:induction false} WrapBlocksFrame(h: Graph, bs: seq<BlockId>, legal: set<OpId>, changed: bool)
    requires Valid(h)
    ensures forall c :: c in h.blocks && c !in bs ==>
      c in WrapBlocks(h, bs, legal, changed).0.blocks && WrapBlocks(h, bs, legal, changed).0.blocks[c] == h.blocks[c]
    decreases |bs|
  {
    if bs != [] {
      var b := bs[0];
      var rest := bs[1..];
      assert forall c :: c in rest ==> c in bs;
      if b in h.blocks && !ExecBody(h, b) && WrapBlock(h, b, legal).Success? {
        var r := WrapBlock(h, b, legal).value;
        WrapBlockKeeps(h, b, legal);
        WrapBlocksFrame(r, rest, legal, true);
      } else {
        WrapBlocksFrame(h, rest, legal, changed);
      }
    }
  }

  /**
   * Undoing the rewrite of a function: in every block of the function's
   * graph, inlining the bodies of the new async.execute operations gives
   * back the block's operations as they were, and a block the walk does not
   * visit is left exactly as it was.
   */
  lemma {:induction false} WrapFunctionRoundTrip(g: Graph, f: OpId, legal: set<OpId>)
    requires WellFormed(g) && Distinct(Walk(g, f)) && WrapFunction(g, f, legal).Success?
    ensures var r := WrapFunction(g, f, legal).value;
      && (forall c :: c in g.blocks ==> c in r.blocks && Inline(r, r.blocks[c].ops, g.nextOp) == g.blocks[c].ops)
      && (forall c :: c in g.blocks && c !in Walk(g, f) ==> r.blocks[c] == g.blocks[c])
  {
    var bs := Walk(g, f);
    RestoresStart(g);
    WrapBlocksRestores(g, g, bs, legal, false);
    WrapBlocksFrame(g, bs, legal, false);
  }

  /** matchAndRewrite of WrapInAsyncExecPattern. */
  method WrapFunctionInPlace(rw: Rewriter, f: OpId, legal: set<OpId>) returns (ok: bool)
    requires Valid(rw.G())
    modifies rw
    ensures ok == WrapFunction(old(rw.G()), f, legal).Success?
    ensures rw.G() == if ok then WrapFunction(old(rw.G()), f, legal).value else old(rw.G())
  {
    ghost var g0 := rw.G();
    var bs := Walk(rw.G(), f);
    ok := false;
    for k := 0 to |bs|
      invariant Valid(rw.G())
      invariant WrapBlocks(rw.G(), bs[k..], legal, ok) == WrapBlocks(g0, bs, legal, false)
    {
      assert bs[k..][1..] == bs[k + 1..];
      var c := bs[k];
      if c in rw.blocks && !ExecBody(rw.G(), c) {
        ghost var cur := rw.G();
        var changed := WrapBlockInPlace(rw, c, legal);
        if changed {
          WrapBlockKeeps(cur, c, legal);
          ok := true;
        }
      }
    }
    WrapBlocksUnchanged(g0, bs, legal, false);
  }
}
