/**
 * The pattern rewriter: it owns the arena and updates it in place.  Each
 * primitive edit is the matching function of module Edits applied to the
 * current arena, so the rewrite methods built on top of it can be proved
 * against the rewrite functions.
 */
module Rewriting {
  import opened Ir
  import Edits

  class Rewriter {
    var ops: map<OpId, Op>
    var blocks: map<BlockId, Block>
    var nextOp: OpId
    var nextBlock: BlockId

    /** The arena as it currently stands. */
    function G(): Graph
      reads this
    {
      Graph(ops, blocks, nextOp, nextBlock)
    }

    constructor (g: Graph)
      ensures G() == g
    {
      ops, blocks, nextOp, nextBlock := g.ops, g.blocks, g.nextOp, g.nextBlock;
    }

    /** Replaces the whole arena; every primitive edit ends with this. */
    method Set(g: Graph)
      modifies this
      ensures G() == g
    {
      ops, blocks, nextOp, nextBlock := g.ops, g.blocks, g.nextOp, g.nextBlock;
    }

    method InsertBefore(anchor: OpId, op: Op) returns (id: OpId)
      requires Edits.Placed(G(), anchor)
      modifies this
      ensures (G(), id) == Edits.InsertBefore(old(G()), anchor, op)
    {
      var r := Edits.InsertBefore(G(), anchor, op);
      Set(r.0);
      id := r.1;
    }

    /** Creates the operations `os`, in order, right before `anchor`. */
    method InsertAll(anchor: OpId, os: seq<Op>)
      requires Valid(G()) && Edits.Placed(G(), anchor)
      modifies this
      ensures G() == Edits.InsertSeq(old(G()), anchor, os)
    {
      ghost var g := G();
      Edits.InsertSeqNone(g, anchor);
      var k := 0;
      while k < |os|
        invariant k <= |os|
        invariant G() == Edits.InsertSeq(g, anchor, os[..k])
      {
        Edits.InsertSeqStep(g, anchor, os[..k], os[k]);
        var _ := InsertBefore(anchor, os[k]);
        Edits.PrefixSnoc(os, k);
        k := k + 1;
      }
      Edits.PrefixWhole(os);
    }

    method Erase(x: OpId)
      modifies this
      ensures G() == Edits.Erase(old(G()), x)
    {
      Set(Edits.Erase(G(), x));
    }

    method ReplaceOp(x: OpId, op: Op) returns (id: OpId)
      requires Edits.Placed(G(), x)
      modifies this
      ensures (G(), id) == Edits.ReplaceOp(old(G()), x, op)
    {
      var r := Edits.ReplaceOp(G(), x, op);
      Set(r.0);
      id := r.1;
    }

    method SetOperand(x: OpId, i: nat, v: Value)
      requires x in ops && i < |ops[x].operands|
      modifies this
      ensures G() == Edits.SetOperand(old(G()), x, i, v)
    {
      Set(Edits.SetOperand(G(), x, i, v));
    }

    method SetOperands(x: OpId, vs: seq<Value>)
      requires x in ops
      modifies this
      ensures G() == Edits.SetOperands(old(G()), x, vs)
    {
      Set(Edits.SetOperands(G(), x, vs));
    }

    method SetKind(x: OpId, k: OpKind)
      requires x in ops
      modifies this
      ensures G() == Edits.SetKind(old(G()), x, k)
    {
      Set(Edits.SetKind(G(), x, k));
    }

    method CreateBlock(owner: OpId, before: BlockId, args: seq<Type>) returns (id: BlockId)
      requires owner in ops
      modifies this
      ensures (G(), id) == Edits.CreateBlock(old(G()), owner, before, args)
    {
      var r := Edits.CreateBlock(G(), owner, before, args);
      Set(r.0);
      id := r.1;
    }

    method MergeBlockBefore(src: BlockId, anchor: OpId, vals: seq<Value>)
      requires src in blocks && Edits.Placed(G(), anchor) && ops[anchor].parent != src
      modifies this
      ensures G() == Edits.MergeBlockBefore(old(G()), src, anchor, vals)
    {
      Set(Edits.MergeBlockBefore(G(), src, anchor, vals));
    }

    method MergeBlocks(src: BlockId, dst: BlockId, vals: seq<Value>)
      requires src in blocks && dst in blocks && src != dst
      modifies this
      ensures G() == Edits.MergeBlocks(old(G()), src, dst, vals)
    {
      Set(Edits.MergeBlocks(G(), src, dst, vals));
    }

    method CreateExecAt(b: BlockId, pos: nat) returns (exec: OpId, body: BlockId)
      requires b in blocks && pos <= |blocks[b].ops|
      modifies this
      ensures (G(), exec, body) == Edits.CreateExecAt(old(G()), b, pos)
    {
      var r := Edits.CreateExecAt(G(), b, pos);
      Set(r.0);
      exec, body := r.1, r.2;
    }

    method SpliceToFront(b: BlockId, i: nat, n: nat, dst: BlockId)
      requires b in blocks && dst in blocks && b != dst && i + n <= |blocks[b].ops|
      modifies this
      ensures G() == Edits.SpliceToFront(old(G()), b, i, n, dst)
    {
      Set(Edits.SpliceToFront(G(), b, i, n, dst));
    }
  }
}
