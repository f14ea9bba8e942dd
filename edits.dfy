/**
 * The primitive edits of the pattern rewriter, as functions on the arena:
 * creating an operation before another one, erasing an operation, replacing
 * the uses of a value, merging a block into another and moving a run of
 * operations into a block.  The rewrites are compositions of these.
 */
module Edits {
  import opened Wrappers
  import opened Ir

  /** `s` with every occurrence of `x` removed. */
  function Without(s: seq<nat>, x: nat): (r: seq<nat>)
    ensures forall y :: y in r <==> y in s && y != x
    ensures x !in s ==> r == s
  {
    if s == [] then [] else (if s[0] == x then [] else [s[0]]) + Without(s[1..], x)
  }

  lemma {:induction false} WithoutSingle(y: nat, x: nat)
    ensures Without([y], x) == if y == x then [] else [y]
  {
    assert [y][1..] == [];
  }

  lemma {:induction false} WithoutAppend(a: seq<nat>, b: seq<nat>, x: nat)
    ensures Without(a + b, x) == Without(a, x) + Without(b, x)
  {
    if a == [] {
      assert a + b == b;
    } else {
      assert (a + b)[1..] == a[1..] + b;
      WithoutAppend(a[1..], b, x);
    }
  }

  /** The index of the first occurrence of `x` in `s`, or |s| when there is none. */
  function IndexOf(s: seq<nat>, x: nat): (i: nat)
    ensures i <= |s|
    ensures i < |s| <==> x in s
    ensures i < |s| ==> s[i] == x
  {
    if s == [] then 0
    else if s[0] == x then 0
    else IndexOf(s[1..], x) + 1
  }

  /** No occurrence of `x` comes before the one IndexOf finds. */
  lemma {:induction false} IndexOfFirst(s: seq<nat>, x: nat)
    ensures x !in s[..IndexOf(s, x)]
  {
    if s != [] && s[0] != x {
      var j := IndexOf(s[1..], x);
      IndexOfFirst(s[1..], x);
      assert s[..j + 1] == [s[0]] + s[1..][..j];
    }
  }

  function SubstValue(v: Value, from: Value, to: Value): Value {
    if v == from then to else v
  }

  function Subst(vs: seq<Value>, from: Value, to: Value): (r: seq<Value>)
    ensures |r| == |vs|
  {
    seq(|vs|, k requires 0 <= k < |vs| => SubstValue(vs[k], from, to))
  }

  /** Every use of `from`, in every operation, becomes a use of `to`. */
  function ReplaceUses(g: Graph, from: Value, to: Value): (r: Graph)
    ensures r.ops.Keys == g.ops.Keys && r.blocks == g.blocks
    ensures r.nextOp == g.nextOp && r.nextBlock == g.nextBlock
  {
    g.(ops := map o | o in g.ops :: g.ops[o].(operands := Subst(g.ops[o].operands, from, to)))
  }

  /** Argument `i` of block `src` stands for vals[i]. */
  function ArgValue(v: Value, src: BlockId, vals: seq<Value>): Value {
    if v.Arg? && v.block == src && v.index < |vals| then vals[v.index] else v
  }

  function SubstArgs(vs: seq<Value>, src: BlockId, vals: seq<Value>): (r: seq<Value>)
    ensures |r| == |vs|
  {
    seq(|vs|, k requires 0 <= k < |vs| => ArgValue(vs[k], src, vals))
  }

  /** Every use of an argument of `src` becomes a use of the matching value in `vals`. */
  function ReplaceArgs(g: Graph, src: BlockId, vals: seq<Value>): (r: Graph)
    ensures r.ops.Keys == g.ops.Keys && r.blocks == g.blocks
    ensures r.nextOp == g.nextOp && r.nextBlock == g.nextBlock
  {
    g.(ops := map o | o in g.ops :: g.ops[o].(operands := SubstArgs(g.ops[o].operands, src, vals)))
  }

  /** The operations of `run` now record `b` as their block. */
  function Reparent(ops: map<OpId, Op>, run: seq<OpId>, b: BlockId): (r: map<OpId, Op>)
    ensures r.Keys == ops.Keys
  {
    map o | o in ops :: if o in run then ops[o].(parent := b) else ops[o]
  }

  /** The block `anchor` is placed in exists. */
  predicate Placed(g: Graph, anchor: OpId) {
    anchor in g.ops && g.ops[anchor].parent in g.blocks
  }

  /**
   * Creates `op` under the next free id, in the block of `anchor`, right
   * before `anchor`.
   */
  function InsertBefore(g: Graph, anchor: OpId, op: Op): (r: (Graph, OpId))
    requires Placed(g, anchor)
    ensures r.1 == g.nextOp && r.0.nextOp == g.nextOp + 1 && r.0.nextBlock == g.nextBlock
    ensures r.0.ops.Keys == g.ops.Keys + {r.1} && r.0.blocks.Keys == g.blocks.Keys
  {
    var b := g.ops[anchor].parent;
    var s := g.blocks[b].ops;
    var i := IndexOf(s, anchor);
    var id := g.nextOp;
    (g.(ops := g.ops[id := op.(parent := b)],
        blocks := g.blocks[b := g.blocks[b].(ops := s[..i] + [id] + s[i..])],
        nextOp := id + 1),
     id)
  }

  /** Removes `x` from the arena and from the block it is placed in. */
  function Erase(g: Graph, x: OpId): (r: Graph)
    ensures r.ops.Keys == g.ops.Keys - {x} && r.blocks.Keys == g.blocks.Keys
    ensures r.nextOp == g.nextOp && r.nextBlock == g.nextBlock
  {
    if x !in g.ops then g
    else
      var b := g.ops[x].parent;
      var g1 := g.(ops := g.ops - {x});
      if b in g.blocks then g1.(blocks := g.blocks[b := g.blocks[b].(ops := Without(g.blocks[b].ops, x))]) else g1
  }

  /** replaceOpWithNewOp: creates `op` before `x`, redirects the uses of x's result to it and erases `x`. */
  function ReplaceOp(g: Graph, x: OpId, op: Op): (r: (Graph, OpId))
    requires Placed(g, x)
    ensures r.1 == g.nextOp && r.0.nextOp == g.nextOp + 1 && r.0.nextBlock == g.nextBlock
    ensures r.0.ops.Keys == (g.ops.Keys + {r.1}) - {x} && r.0.blocks.Keys == g.blocks.Keys
  {
    var (g1, n) := InsertBefore(g, x, op);
    var g2 := if |g.ops[x].results| > 0 then ReplaceUses(g1, Res(x, 0), Res(n, 0)) else g1;
    (Erase(g2, x), n)
  }

  function SetOperand(g: Graph, x: OpId, i: nat, v: Value): (r: Graph)
    requires x in g.ops && i < |g.ops[x].operands|
    ensures r.ops.Keys == g.ops.Keys && r.blocks == g.blocks
    ensures r.nextOp == g.nextOp && r.nextBlock == g.nextBlock
  {
    g.(ops := g.ops[x := g.ops[x].(operands := g.ops[x].operands[i := v])])
  }

  function SetOperands(g: Graph, x: OpId, vs: seq<Value>): (r: Graph)
    requires x in g.ops
    ensures r.ops.Keys == g.ops.Keys && r.blocks == g.blocks
    ensures r.nextOp == g.nextOp && r.nextBlock == g.nextBlock
  {
    g.(ops := g.ops[x := g.ops[x].(operands := vs)])
  }

  function SetKind(g: Graph, x: OpId, k: OpKind): (r: Graph)
    requires x in g.ops
    ensures r.ops.Keys == g.ops.Keys && r.blocks == g.blocks
    ensures r.nextOp == g.nextOp && r.nextBlock == g.nextBlock
  {
    g.(ops := g.ops[x := g.ops[x].(kind := k)])
  }

  /**
   * createBlock: a new empty block owned by `owner`, with argument types
   * `args`, placed in owner's region right before block `before`.
   */
  function CreateBlock(g: Graph, owner: OpId, before: BlockId, args: seq<Type>): (r: (Graph, BlockId))
    requires owner in g.ops
    ensures r.1 == g.nextBlock && r.0.nextBlock == g.nextBlock + 1 && r.0.nextOp == g.nextOp
    ensures r.0.ops.Keys == g.ops.Keys && r.0.blocks.Keys == g.blocks.Keys + {r.1}
  {
    var id := g.nextBlock;
    var rs := g.ops[owner].regions;
    var i := IndexOf(rs, before);
    (g.(ops := g.ops[owner := g.ops[owner].(regions := rs[..i] + [id] + rs[i..])],
        blocks := g.blocks[id := Block(owner, args, [])],
        nextBlock := id + 1),
     id)
  }

  /** The block `src` leaves the arena and the region of its owner. */
  function DropBlock(g: Graph, src: BlockId): (r: Graph)
    requires src in g.blocks
    ensures r.ops.Keys == g.ops.Keys && r.blocks.Keys == g.blocks.Keys - {src}
    ensures r.nextOp == g.nextOp && r.nextBlock == g.nextBlock
  {
    var owner := g.blocks[src].parent;
    var g1 := g.(blocks := g.blocks - {src});
    if owner in g.ops then g1.(ops := g.ops[owner := g.ops[owner].(regions := Without(g.ops[owner].regions, src))])
    else g1
  }

  /**
   * mergeBlockBefore: the operations of `src` move, in order, right before
   * `anchor`; its arguments are replaced by `vals`; `src` is removed.
   */
  function MergeBlockBefore(g: Graph, src: BlockId, anchor: OpId, vals: seq<Value>): (r: Graph)
    requires src in g.blocks && Placed(g, anchor) && g.ops[anchor].parent != src
    ensures r.ops.Keys == g.ops.Keys && r.blocks.Keys == g.blocks.Keys - {src}
    ensures r.nextOp == g.nextOp && r.nextBlock == g.nextBlock
  {
    var moved := g.blocks[src].ops;
    var b := g.ops[anchor].parent;
    var s := g.blocks[b].ops;
    var i := IndexOf(s, anchor);
    var g1 := ReplaceArgs(g, src, vals);
    var g2 := g1.(ops := Reparent(g1.ops, moved, b),
                  blocks := g1.blocks[b := g1.blocks[b].(ops := s[..i] + moved + s[i..])]);
    DropBlock(g2, src)
  }

  /**
   * mergeBlocks: the operations of `src` move to the end of `dst`; its
   * arguments are replaced by `vals`; `src` is removed.
   */
  function MergeBlocks(g: Graph, src: BlockId, dst: BlockId, vals: seq<Value>): (r: Graph)
    requires src in g.blocks && dst in g.blocks && src != dst
    ensures r.ops.Keys == g.ops.Keys && r.blocks.Keys == g.blocks.Keys - {src}
    ensures r.nextOp == g.nextOp && r.nextBlock == g.nextBlock
  {
    var moved := g.blocks[src].ops;
    var g1 := ReplaceArgs(g, src, vals);
    var g2 := g1.(ops := Reparent(g1.ops, moved, dst),
                  blocks := g1.blocks[dst := g1.blocks[dst].(ops := g1.blocks[dst].ops + moved)]);
    DropBlock(g2, src)
  }

  /**
   * Builds an async.execute in block `b` at index `pos`: it has no operands
   * and one token result, and its body is a new block with arguments
   * (chain, stream) holding only a terminator that returns the chain
   * argument.
   */
  function CreateExecAt(g: Graph, b: BlockId, pos: nat): (r: (Graph, OpId, BlockId))
    requires b in g.blocks && pos <= |g.blocks[b].ops|
    ensures r.1 == g.nextOp && r.2 == g.nextBlock
    ensures r.0.nextOp == g.nextOp + 2 && r.0.nextBlock == g.nextBlock + 1
    ensures r.0.ops.Keys == g.ops.Keys + {g.nextOp, g.nextOp + 1}
    ensures r.0.blocks.Keys == g.blocks.Keys + {g.nextBlock}
  {
    var a := g.nextOp;
    var t := a + 1;
    var body := g.nextBlock;
    var s := g.blocks[b].ops;
    (g.(ops := g.ops[a := Op(AsyncExecute, [], [TokenT], [body], b)][t := Op(Return, [Arg(body, 0)], [], [], body)],
        blocks := g.blocks[b := g.blocks[b].(ops := s[..pos] + [a] + s[pos..])][body := Block(a, [ChainT, StreamT], [t])],
        nextOp := t + 1,
        nextBlock := body + 1),
     a, body)
  }

  /** Moves the `n` operations of block `b` from index `i` on to the front of block `dst`, keeping their order. */
  function SpliceToFront(g: Graph, b: BlockId, i: nat, n: nat, dst: BlockId): (r: Graph)
    requires b in g.blocks && dst in g.blocks && b != dst && i + n <= |g.blocks[b].ops|
    ensures r.ops.Keys == g.ops.Keys && r.blocks.Keys == g.blocks.Keys
    ensures r.nextOp == g.nextOp && r.nextBlock == g.nextBlock
  {
    var s := g.blocks[b].ops;
    var run := s[i..i + n];
    g.(ops := Reparent(g.ops, run, dst),
       blocks := g.blocks[b := g.blocks[b].(ops := s[..i] + s[i + n..])][dst := g.blocks[dst].(ops := run + g.blocks[dst].ops)])
  }

  /** Removing the one occurrence of `x`, at index `k`. */
  lemma {:induction false} WithoutOnce(s: seq<nat>, x: nat, k: nat)
    requires k < |s| && s[k] == x && x !in s[..k] && x !in s[k + 1..]
    ensures Without(s, x) == s[..k] + s[k + 1..]
  {
    var pre := s[..k];
    var post := s[k + 1..];
    assert s == pre + ([x] + post);
    WithoutAppend(pre, [x] + post, x);
    WithoutAppend([x], post, x);
    WithoutSingle(x, x);
    assert Without([x] + post, x) == post by {
      assert Without(post, x) == post;
      assert [] + post == post;
    }
    assert Without(pre, x) == pre;
  }

  lemma {:induction false} PrefixMembers(s: seq<nat>, i: nat)
    requires i <= |s|
    ensures forall y :: y in s[..i] ==> y in s
  {
    forall y | y in s[..i]
      ensures y in s
    {
      var k :| 0 <= k < i && s[..i][k] == y;
      assert s[k] == y;
    }
  }

  lemma {:induction false} SliceMembers(s: seq<nat>, i: nat)
    requires i <= |s|
    ensures forall y :: y in s[i..] ==> exists k :: i <= k < |s| && s[k] == y
  {
    forall y | y in s[i..]
      ensures exists k :: i <= k < |s| && s[k] == y
    {
      var k :| 0 <= k < |s| - i && s[i..][k] == y;
      assert s[i + k] == y;
    }
  }

  /** The index of `x` is the position of its only occurrence up to there. */
  lemma {:induction false} IndexOfAt(s: seq<nat>, k: nat, x: nat)
    requires k < |s| && s[k] == x && x !in s[..k]
    ensures IndexOf(s, x) == k
  {
    var j := IndexOf(s, x);
    IndexOfFirst(s, x);
    forall l | 0 <= l < j
      ensures s[l] != x
    {
      assert s[l] == s[..j][l];
    }
    forall l | 0 <= l < k
      ensures s[l] != x
    {
      assert s[l] == s[..k][l];
    }
  }

  /** Uses of the first result of `x` redirected to the first result of `n`, when `x` has results. */
  function Redirect(vs: seq<Value>, hasResult: bool, x: OpId, n: OpId): (r: seq<Value>)
    ensures |r| == |vs|
  {
    if hasResult then Subst(vs, Res(x, 0), Res(n, 0)) else vs
  }

  /** The operations once ReplaceOp replaced an operation with a result, given the graph after its insertion. */
  lemma {:induction false} ReplaceOpSteps(g: Graph, x: OpId, op: Op, g1: Graph)
    requires Placed(g, x) && g.ops[x].results != [] && g1 == InsertBefore(g, x, op).0
    ensures ReplaceOp(g, x, op).0.ops == ReplaceUses(g1, Res(x, 0), Res(g.nextOp, 0)).ops - {x}
  {
  }

  /** What ReplaceOp does, operation by operation and block by block. */
  lemma {:induction false} ReplaceOpEffect(g: Graph, x: OpId, op: Op)
    requires Valid(g) && Placed(g, x)
    ensures var (r, n) := ReplaceOp(g, x, op);
      var b := g.ops[x].parent;
      var s := g.blocks[b].ops;
      var i := IndexOf(s, x);
      var has := |g.ops[x].results| > 0;
      && n in r.ops && r.ops[n] == op.(parent := b, operands := Redirect(op.operands, has, x, n))
      && (forall o :: o in g.ops && o != x ==>
            o in r.ops && r.ops[o] == g.ops[o].(operands := Redirect(g.ops[o].operands, has, x, n)))
      && r.blocks == g.blocks[b := g.blocks[b].(ops := Without(s[..i] + [n] + s[i..], x))]
  {
    ReplaceOpOps(g, x, op);
    ReplaceOpBlocks(g, x, op);
  }

  lemma {:induction false} ReplaceOpOps(g: Graph, x: OpId, op: Op)
    requires Valid(g) && Placed(g, x)
    ensures var (r, n) := ReplaceOp(g, x, op);
      var has := |g.ops[x].results| > 0;
      && n in r.ops && r.ops[n] == op.(parent := g.ops[x].parent, operands := Redirect(op.operands, has, x, n))
      && (forall o :: o in g.ops && o != x ==>
            o in r.ops && r.ops[o] == g.ops[o].(operands := Redirect(g.ops[o].operands, has, x, n)))
  {
    var has := |g.ops[x].results| > 0;
    var n := g.nextOp;
    var g1 := InsertBefore(g, x, op).0;
    var g2 := if has then ReplaceUses(g1, Res(x, 0), Res(n, 0)) else g1;
    ReplaceOpIsErase(g, x, op);
    EraseOps(g2, x);
    ReplaceOpNew(g, x, op, g1, g2);
    ReplaceOpOld(g, x, op, g1, g2);
  }

  lemma {:induction false} ReplaceOpNew(g: Graph, x: OpId, op: Op, g1: Graph, g2: Graph)
    requires Valid(g) && Placed(g, x) && g1 == InsertBefore(g, x, op).0
    requires g2 == if |g.ops[x].results| > 0 then ReplaceUses(g1, Res(x, 0), Res(g.nextOp, 0)) else g1
    ensures g.nextOp in g2.ops && g.nextOp != x
    ensures g2.ops[g.nextOp]
         == op.(parent := g.ops[x].parent, operands := Redirect(op.operands, |g.ops[x].results| > 0, x, g.nextOp))
  {
    InsertBeforeOps(g, x, op);
    RedirectOps(g1, x, g.nextOp, |g.ops[x].results| > 0);
  }

  lemma {:induction false} ReplaceOpOld(g: Graph, x: OpId, op: Op, g1: Graph, g2: Graph)
    requires Valid(g) && Placed(g, x) && g1 == InsertBefore(g, x, op).0
    requires g2 == if |g.ops[x].results| > 0 then ReplaceUses(g1, Res(x, 0), Res(g.nextOp, 0)) else g1
    ensures forall o :: o in g.ops ==>
      o in g2.ops && g2.ops[o] == g.ops[o].(operands := Redirect(g.ops[o].operands, |g.ops[x].results| > 0, x, g.nextOp))
  {
    InsertBeforeOps(g, x, op);
    RedirectOps(g1, x, g.nextOp, |g.ops[x].results| > 0);
  }

  /** InsertBefore records the new operation in the block of `anchor`. */
  lemma {:induction false} InsertBeforeOps(g: Graph, anchor: OpId, op: Op)
    requires Placed(g, anchor)
    ensures InsertBefore(g, anchor, op).0.ops == g.ops[g.nextOp := op.(parent := g.ops[anchor].parent)]
  {
  }

  /** Redirecting the uses of x's result, when it has one, rewrites the operands of every operation. */
  lemma {:induction false} RedirectOps(g: Graph, x: OpId, n: OpId, has: bool)
    ensures var r := if has then ReplaceUses(g, Res(x, 0), Res(n, 0)) else g;
      r.ops.Keys == g.ops.Keys && r.blocks == g.blocks
      && forall o :: o in g.ops ==> r.ops[o] == g.ops[o].(operands := Redirect(g.ops[o].operands, has, x, n))
  {
  }

  /** Erase removes `x` and keeps every other operation. */
  lemma {:induction false} EraseOps(g: Graph, x: OpId)
    ensures Erase(g, x).ops == g.ops - {x}
  {
  }

  lemma {:induction false} ReplaceOpBlocks(g: Graph, x: OpId, op: Op)
    requires Valid(g) && Placed(g, x)
    ensures var b := g.ops[x].parent;
      var s := g.blocks[b].ops;
      var i := IndexOf(s, x);
      ReplaceOp(g, x, op).0.blocks == g.blocks[b := g.blocks[b].(ops := Without(s[..i] + [g.nextOp] + s[i..], x))]
  {
    var b := g.ops[x].parent;
    var s := g.blocks[b].ops;
    var ins := s[..IndexOf(s, x)] + [g.nextOp] + s[IndexOf(s, x)..];
    var g1 := InsertBefore(g, x, op).0;
    InsertBeforeBlocks(g, x, op, b, s, IndexOf(s, x), g.nextOp);
    InsertBeforeKeeps(g, x, op);
    var g2 := if |g.ops[x].results| > 0 then ReplaceUses(g1, Res(x, 0), Res(g.nextOp, 0)) else g1;
    ReplaceUsesKeeps(g1, Res(x, 0), Res(g.nextOp, 0), x);
    ReplaceOpIsErase(g, x, op);
    EraseListedAt(g2, x, g.blocks, b, ins);
  }

  /** Erasing `x` from block `b`, which lists `ins`, leaves `ins` without `x` there. */
  lemma {:induction false} EraseListedAt(h: Graph, x: OpId, bs: map<BlockId, Block>, b: BlockId, ins: seq<OpId>)
    requires b in bs && h.blocks == bs[b := bs[b].(ops := ins)] && x in h.ops && h.ops[x].parent == b
    ensures Erase(h, x).blocks == bs[b := bs[b].(ops := Without(ins, x))]
  {
    EraseEffect(h, x);
    UpdateTwice(bs, b, ins, Without(ins, x));
  }

  /** ReplaceOp erases `x` once the new operation was inserted and the uses redirected. */
  lemma {:induction false} ReplaceOpIsErase(g: Graph, x: OpId, op: Op)
    requires Placed(g, x)
    ensures ReplaceOp(g, x, op).0
         == Erase(if |g.ops[x].results| > 0 then ReplaceUses(InsertBefore(g, x, op).0, Res(x, 0), Res(g.nextOp, 0))
                  else InsertBefore(g, x, op).0, x)
  {
  }

  /** InsertBefore leaves the operations already there as they were. */
  lemma {:induction false} InsertBeforeKeeps(g: Graph, anchor: OpId, op: Op)
    requires Placed(g, anchor) && g.nextOp !in g.ops
    ensures forall o :: o in g.ops ==> InsertBefore(g, anchor, op).0.ops[o] == g.ops[o]
  {
  }

  /** ReplaceUses keeps operation `o` where it was placed. */
  lemma {:induction false} ReplaceUsesKeeps(g: Graph, from: Value, to: Value, o: OpId)
    requires o in g.ops
    ensures o in ReplaceUses(g, from, to).ops && ReplaceUses(g, from, to).ops[o].parent == g.ops[o].parent
  {
  }

  /** What Erase does to a placed operation. */
  lemma {:induction false} EraseEffect(g: Graph, x: OpId)
    requires Placed(g, x)
    ensures var r := Erase(g, x);
      && r.ops == g.ops - {x}
      && r.blocks == g.blocks[g.ops[x].parent := g.blocks[g.ops[x].parent].(ops := Without(g.blocks[g.ops[x].parent].ops, x))]
  {
  }

  /** What MergeBlockBefore does, operation by operation and block by block. */
  lemma {:induction false} MergeBlockBeforeEffect(g: Graph, src: BlockId, anchor: OpId, vals: seq<Value>)
    requires src in g.blocks && Placed(g, anchor) && g.ops[anchor].parent != src
    ensures var r := MergeBlockBefore(g, src, anchor, vals);
      var b := g.ops[anchor].parent;
      var s := g.blocks[b].ops;
      var moved := g.blocks[src].ops;
      && (forall o :: o in g.ops ==>
            r.ops[o] == g.ops[o].(operands := SubstArgs(g.ops[o].operands, src, vals),
                                  parent := if o in moved then b else g.ops[o].parent,
                                  regions := if o == g.blocks[src].parent then Without(g.ops[o].regions, src) else g.ops[o].regions))
      && r.blocks == (g.blocks - {src})[b := g.blocks[b].(ops := s[..IndexOf(s, anchor)] + moved + s[IndexOf(s, anchor)..])]
  {
    var r := MergeBlockBefore(g, src, anchor, vals);
    var b := g.ops[anchor].parent;
    var s := g.blocks[b].ops;
    var moved := g.blocks[src].ops;
    var nb := g.blocks[b].(ops := s[..IndexOf(s, anchor)] + moved + s[IndexOf(s, anchor)..]);
    assert r.blocks == (g.blocks - {src})[b := nb] by {
      assert r.blocks == g.blocks[b := nb] - {src};
    }
  }

  /** What MergeBlocks does, operation by operation and block by block. */
  lemma {:induction false} MergeBlocksEffect(g: Graph, src: BlockId, dst: BlockId, vals: seq<Value>)
    requires src in g.blocks && dst in g.blocks && src != dst
    ensures var r := MergeBlocks(g, src, dst, vals);
      var moved := g.blocks[src].ops;
      && (forall o :: o in g.ops ==>
            r.ops[o] == g.ops[o].(operands := SubstArgs(g.ops[o].operands, src, vals),
                                  parent := if o in moved then dst else g.ops[o].parent,
                                  regions := if o == g.blocks[src].parent then Without(g.ops[o].regions, src) else g.ops[o].regions))
      && r.blocks == (g.blocks - {src})[dst := g.blocks[dst].(ops := g.blocks[dst].ops + moved)]
  {
    var r := MergeBlocks(g, src, dst, vals);
    var nb := g.blocks[dst].(ops := g.blocks[dst].ops + g.blocks[src].ops);
    assert r.blocks == (g.blocks - {src})[dst := nb] by {
      assert r.blocks == g.blocks[dst := nb] - {src};
    }
  }

  /** The ids `n`, `n + 1`, ..., `n + m - 1`. */
  function Ids(n: OpId, m: nat): (r: seq<OpId>)
    ensures |r| == m && forall j :: 0 <= j < m ==> r[j] == n + j
  {
    seq(m, j requires 0 <= j < m => n + j)
  }

  /** The blocks of `g` once `m` operations were created before `anchor`, under the next free ids. */
  function InsertedBlocks(g: Graph, anchor: OpId, m: nat): map<BlockId, Block>
    requires Placed(g, anchor)
  {
    var b := g.ops[anchor].parent;
    var s := g.blocks[b].ops;
    var i := IndexOf(s, anchor);
    g.blocks[b := g.blocks[b].(ops := s[..i] + Ids(g.nextOp, m) + s[i..])]
  }

  /** Operation `os[o - n]`, placed in block `b`. */
  function NumberedOp(os: seq<Op>, n: OpId, b: BlockId, o: OpId): Op
    requires n <= o < n + |os|
  {
    os[o - n].(parent := b)
  }

  /** The operations `os` numbered from `n` on, placed in block `b`. */
  function Numbered(os: seq<Op>, n: OpId, b: BlockId): (r: map<OpId, Op>)
    ensures forall o :: o in r <==> n <= o < n + |os|
    ensures forall j :: 0 <= j < |os| ==> r[n + j] == os[j].(parent := b)
  {
    map o: OpId | n <= o < n + |os| :: NumberedOp(os, n, b, o)
  }

  lemma {:induction false} NumberedSnoc(os: seq<Op>, op: Op, n: OpId, b: BlockId)
    ensures Numbered(os + [op], n, b) == Numbered(os, n, b)[n + |os| := op.(parent := b)]
  {
    var a := Numbered(os + [op], n, b);
    var c := Numbered(os, n, b)[n + |os| := op.(parent := b)];
    forall o | o in a
      ensures o in c && a[o] == c[o]
    {
      if o < n + |os| {
        assert a[o] == (os + [op])[o - n].(parent := b);
        assert (os + [op])[o - n] == os[o - n];
        assert c[o] == Numbered(os, n, b)[n + (o - n)];
      }
    }
  }

  /** One more numbered operation, added to the arena after the others. */
  lemma {:induction false} UnionSnoc(a: map<OpId, Op>, os: seq<Op>, op: Op, n: OpId, b: BlockId)
    ensures (a + Numbered(os, n, b))[n + |os| := op.(parent := b)] == a + Numbered(os + [op], n, b)
  {
    NumberedSnoc(os, op, n, b);
    UpdateUnion(a, Numbered(os, n, b), n + |os|, op.(parent := b));
  }

  lemma {:induction false} UpdateUnion(a: map<OpId, Op>, c: map<OpId, Op>, k: OpId, v: Op)
    ensures (a + c)[k := v] == a + c[k := v]
  {
  }

  /**
   * The operations `os` created, in this order, right before `anchor` under
   * consecutive fresh ids: every existing operation stays as it was and the
   * block of `anchor` lists the new ones just before it.
   */
  function InsertSeq(g: Graph, anchor: OpId, os: seq<Op>): (r: Graph)
    requires Placed(g, anchor)
    ensures r.nextOp == g.nextOp + |os| && r.nextBlock == g.nextBlock && r.blocks.Keys == g.blocks.Keys
  {
    g.(ops := g.ops + Numbered(os, g.nextOp, g.ops[anchor].parent),
       blocks := InsertedBlocks(g, anchor, |os|),
       nextOp := g.nextOp + |os|)
  }

  /** Creating nothing changes nothing. */
  lemma {:induction false} InsertSeqNone(g: Graph, anchor: OpId)
    requires Placed(g, anchor)
    ensures InsertSeq(g, anchor, []) == g
  {
    var b := g.ops[anchor].parent;
    var s := g.blocks[b].ops;
    var i := IndexOf(s, anchor);
    assert s[..i] + Ids(g.nextOp, 0) + s[i..] == s;
    assert g.blocks[b := g.blocks[b].(ops := s)] == g.blocks;
    assert g.ops + Numbered([], g.nextOp, b) == g.ops;
  }

  /** Creating one more operation before `anchor` extends the sequence created so far. */
  lemma {:induction false} InsertSeqStep(g: Graph, anchor: OpId, os: seq<Op>, op: Op)
    requires Valid(g) && Placed(g, anchor)
    ensures Placed(InsertSeq(g, anchor, os), anchor)
    ensures InsertBefore(InsertSeq(g, anchor, os), anchor, op).0 == InsertSeq(g, anchor, os + [op])
  {
    var r1 := InsertSeq(g, anchor, os);
    assert r1.ops[anchor] == g.ops[anchor];
    InsertStepOps(g, anchor, os, op);
    InsertStepBlocks(g, anchor, os, op);
  }

  lemma {:induction false} InsertStepOps(g: Graph, anchor: OpId, os: seq<Op>, op: Op)
    requires Valid(g) && Placed(g, anchor)
    requires InsertSeq(g, anchor, os).ops[anchor] == g.ops[anchor]
    ensures InsertBefore(InsertSeq(g, anchor, os), anchor, op).0.ops == InsertSeq(g, anchor, os + [op]).ops
  {
    var b := g.ops[anchor].parent;
    var n := g.nextOp;
    var r1 := InsertSeq(g, anchor, os);
    InsertSeqOps(g, anchor, os);
    InsertSeqOps(g, anchor, os + [op]);
    InsertBeforeOps(r1, anchor, op);
    UnionSnoc(g.ops, os, op, n, b);
  }

  lemma {:induction false} InsertSeqOps(g: Graph, anchor: OpId, os: seq<Op>)
    requires Placed(g, anchor)
    ensures InsertSeq(g, anchor, os).ops == g.ops + Numbered(os, g.nextOp, g.ops[anchor].parent)
  {
  }

  lemma {:induction false} InsertStepBlocks(g: Graph, anchor: OpId, os: seq<Op>, op: Op)
    requires anchor < g.nextOp && Placed(g, anchor)
    requires InsertSeq(g, anchor, os).ops[anchor] == g.ops[anchor]
    ensures InsertBefore(InsertSeq(g, anchor, os), anchor, op).0.blocks == InsertSeq(g, anchor, os + [op]).blocks
  {
    var b := g.ops[anchor].parent;
    var s := g.blocks[b].ops;
    var i := IndexOf(s, anchor);
    InsertSeqBlocks(g, anchor, os, b, s, i, g.nextOp, |os|);
    InsertSeqBlocks(g, anchor, os + [op], b, s, i, g.nextOp, |os| + 1);
    IndexAfterInsert(s, i, anchor, g.nextOp, |os|);
    InsertBeforeBlocks(InsertSeq(g, anchor, os), anchor, op, b, s[..i] + Ids(g.nextOp, |os|) + s[i..], i + |os|, g.nextOp + |os|);
    ChainBlocks(g.blocks, b, s, i, g.nextOp, |os|, i + |os|, g.nextOp + |os|, InsertSeq(g, anchor, os).blocks,
                InsertBefore(InsertSeq(g, anchor, os), anchor, op).0.blocks, InsertSeq(g, anchor, os + [op]).blocks);
  }

  /** Where InsertSeq lists the operations it creates. */
  lemma {:induction false} InsertSeqBlocks(g: Graph, anchor: OpId, os: seq<Op>, b: BlockId, s: seq<OpId>, i: nat, n: OpId, m: nat)
    requires Placed(g, anchor) && b == g.ops[anchor].parent && s == g.blocks[b].ops && i == IndexOf(s, anchor)
    requires n == g.nextOp && m == |os|
    ensures InsertSeq(g, anchor, os).blocks == g.blocks[b := g.blocks[b].(ops := s[..i] + Ids(n, m) + s[i..])]
  {
  }

  /** Listing one more new operation in block `b`, as InsertBefore does, gives the listing InsertSeq makes. */
  lemma {:induction false} ChainBlocks(bs: map<BlockId, Block>, b: BlockId, s: seq<OpId>, i: nat, n: OpId, m: nat, k: nat, id: OpId,
                    b1: map<BlockId, Block>, b2: map<BlockId, Block>, b3: map<BlockId, Block>)
    requires b in bs && i <= |s| && k == i + m && id == n + m
    requires b1 == bs[b := bs[b].(ops := s[..i] + Ids(n, m) + s[i..])]
    requires b2 == b1[b := b1[b].(ops := (s[..i] + Ids(n, m) + s[i..])[..k] + [id] + (s[..i] + Ids(n, m) + s[i..])[k..])]
    requires b3 == bs[b := bs[b].(ops := s[..i] + Ids(n, m + 1) + s[i..])]
    ensures b2 == b3
  {
    InsertOneMore(s, i, n, m, k);
    UpdateTwice(bs, b, s[..i] + Ids(n, m) + s[i..], s[..i] + Ids(n, m + 1) + s[i..]);
  }

  /** Where InsertBefore lists the operation it creates. */
  lemma {:induction false} InsertBeforeBlocks(h: Graph, anchor: OpId, op: Op, b: BlockId, s: seq<OpId>, k: nat, id: OpId)
    requires Placed(h, anchor) && h.ops[anchor].parent == b && h.blocks[b].ops == s
    requires k == IndexOf(s, anchor) && id == h.nextOp
    ensures InsertBefore(h, anchor, op).0.blocks == h.blocks[b := h.blocks[b].(ops := s[..k] + [id] + s[k..])]
  {
  }

  /** Erases the operations `xs` in turn. */
  function EraseAll(g: Graph, xs: seq<OpId>): (r: Graph)
    ensures r.ops.Keys == g.ops.Keys - (set x | x in xs) && r.blocks.Keys == g.blocks.Keys
    ensures r.nextOp == g.nextOp && r.nextBlock == g.nextBlock
    decreases |xs|
  {
    if xs == [] then g else EraseAll(Erase(g, xs[0]), xs[1..])
  }

  lemma {:induction false} IndexOfAfter(a: seq<nat>, c: seq<nat>, x: nat)
    requires x !in a
    ensures IndexOf(a + c, x) == |a| + IndexOf(c, x)
    decreases |a|
  {
    if a != [] {
      assert (a + c)[1..] == a[1..] + c;
      assert x !in a[1..] by {
        PrefixMembers(a, |a|);
        SliceMembers(a, 1);
      }
      IndexOfAfter(a[1..], c, x);
    } else {
      assert a + c == c;
    }
  }

  /** Where `anchor` stands once `m` operations were created before it. */
  lemma {:induction false} IndexAfterInsert(s: seq<OpId>, i: nat, anchor: OpId, n: OpId, m: nat)
    requires i == IndexOf(s, anchor) && anchor < n
    ensures IndexOf(s[..i] + Ids(n, m) + s[i..], anchor) == i + m
  {
    assert anchor !in Ids(n, m) by {
      forall j | 0 <= j < m
        ensures Ids(n, m)[j] != anchor
      {
      }
    }
    assert s[..i] + Ids(n, m) + s[i..] == (s[..i] + Ids(n, m)) + s[i..];
    IndexOfFirst(s, anchor);
    IndexOfAfter(s[..i] + Ids(n, m), s[i..], anchor);
    assert IndexOf(s[i..], anchor) == 0 by {
      if i < |s| {
        assert s[i..][0] == anchor;
      } else {
        assert s[i..] == [];
      }
    }
  }

  /** Creating one more operation before `anchor` extends the run of created ids. */
  lemma {:induction false} InsertOneMore(s: seq<OpId>, i: nat, n: OpId, m: nat, k: nat)
    requires i <= |s| && k == i + m
    ensures (s[..i] + Ids(n, m) + s[i..])[..k] + [n + m] + (s[..i] + Ids(n, m) + s[i..])[k..]
         == s[..i] + Ids(n, m + 1) + s[i..]
  {
    InsertInto(s[..i], Ids(n, m), s[i..], n + m);
    IdsSnoc(n, m);
  }

  /** Inserting `x` right after the middle part `c` of `a + c + d`. */
  lemma {:induction false} InsertInto(a: seq<OpId>, c: seq<OpId>, d: seq<OpId>, x: OpId)
    ensures (a + c + d)[..|a| + |c|] + [x] + (a + c + d)[|a| + |c|..] == a + (c + [x]) + d
  {
    assert (a + c + d)[..|a| + |c|] == a + c;
    assert (a + c + d)[|a| + |c|..] == d;
  }

  lemma {:induction false} IdsSnoc(n: OpId, m: nat)
    ensures Ids(n, m) + [n + m] == Ids(n, m + 1)
  {
  }

  lemma {:induction false} PrefixSnoc<T>(s: seq<T>, k: nat)
    requires k < |s|
    ensures s[..k] + [s[k]] == s[..k + 1]
  {
  }

  lemma {:induction false} PrefixWhole<T>(s: seq<T>)
    ensures s[..|s|] == s
  {
  }

  lemma {:induction false} UpdateTwice(bs: map<BlockId, Block>, b: BlockId, x: seq<OpId>, y: seq<OpId>)
    requires b in bs
    ensures var u := bs[b := bs[b].(ops := x)];
      u[b := u[b].(ops := y)] == bs[b := bs[b].(ops := y)]
  {
  }

  /** `s` without the operations `xs`. */
  function Drop(s: seq<OpId>, xs: seq<OpId>): (r: seq<OpId>)
    decreases |xs|
  {
    if xs == [] then s else Drop(Without(s, xs[0]), xs[1..])
  }

  /** Every block of `bs` without the operations `xs`. */
  function Removed(bs: map<BlockId, Block>, xs: seq<OpId>): (r: map<BlockId, Block>)
    ensures r.Keys == bs.Keys
  {
    map c | c in bs :: bs[c].(ops := Drop(bs[c].ops, xs))
  }

  /** Erasing an operation listed in no block but its own removes it from every block. */
  lemma {:induction false} EraseListed(g: Graph, x: OpId)
    requires Placed(g, x)
    requires forall q :: q in g.blocks && q != g.ops[x].parent ==> x !in g.blocks[q].ops
    ensures Erase(g, x).blocks == Removed(g.blocks, [x])
  {
    var r := Erase(g, x);
    forall q | q in g.blocks
      ensures r.blocks[q] == Removed(g.blocks, [x])[q]
    {
      assert Drop(g.blocks[q].ops, [x]) == Without(g.blocks[q].ops, x);
    }
  }

  lemma {:induction false} RemovedNone(bs: map<BlockId, Block>)
    ensures Removed(bs, []) == bs
  {
  }

  /** In a well-formed graph an operation is listed exactly once, in its own block. */
  lemma {:induction false} ListedOnce(g: Graph, x: OpId)
    requires WellFormed(g) && x in g.ops
    ensures var s := g.blocks[g.ops[x].parent].ops;
      IndexOf(s, x) < |s| && x !in s[IndexOf(s, x) + 1..]
  {
    var s := g.blocks[g.ops[x].parent].ops;
    var i := IndexOf(s, x);
    forall k | i < k < |s|
      ensures s[k] != x
    {
    }
    SliceMembers(s, i + 1);
  }

  /** In a well-formed graph no block but its own lists an operation. */
  lemma {:induction false} NotListedElsewhere(g: Graph, x: OpId, q: BlockId)
    requires WellFormed(g) && x in g.ops && q in g.blocks && q != g.ops[x].parent
    ensures x !in g.blocks[q].ops
  {
    var s := g.blocks[q].ops;
    forall k | 0 <= k < |s|
      ensures s[k] != x
    {
    }
    PrefixMembers(s, |s|);
    assert s[..|s|] == s;
  }

  /** Removing `x` once the operations `Ids(n, m)` were listed just before its only occurrence. */
  lemma {:induction false} WithoutAt(s: seq<OpId>, i: nat, n: OpId, m: nat, x: OpId)
    requires i < |s| && s[i] == x && x !in s[..i] && x !in s[i + 1..] && x < n
    ensures Without(s[..i] + Ids(n, m) + s[i..], x) == s[..i] + Ids(n, m) + s[i + 1..]
  {
    var t := s[..i] + Ids(n, m) + s[i..];
    var k := i + m;
    assert t[..k] == s[..i] + Ids(n, m);
    assert t[k + 1..] == s[i + 1..];
    assert x !in Ids(n, m) by {
      forall j | 0 <= j < m
        ensures Ids(n, m)[j] != x
      {
      }
    }
    WithoutOnce(t, x, k);
  }

  /**
   * Erasing at most one operation that is placed and listed in no other
   * block removes it from the arena and from every block.
   */
  lemma {:induction false} EraseAtMostOne(g: Graph, xs: seq<OpId>)
    requires |xs| <= 1
    requires forall x :: x in xs ==> Placed(g, x)
    requires forall x, q :: x in xs && x in g.ops && q in g.blocks && q != g.ops[x].parent ==> x !in g.blocks[q].ops
    ensures EraseAll(g, xs).ops == g.ops - (set x | x in xs)
    ensures EraseAll(g, xs).blocks == Removed(g.blocks, xs)
  {
    if xs == [] {
      RemovedNone(g.blocks);
      assert (set x | x in xs) == {};
    } else {
      var x := xs[0];
      assert xs == [x] && xs[1..] == [];
      assert EraseAll(g, xs) == Erase(g, x);
      EraseListed(g, x);
      assert (set y | y in xs) == {x};
    }
  }
}
