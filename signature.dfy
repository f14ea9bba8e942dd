/**
 * SignatureRewritePattern and the dynamic legality of functions: a function
 * without results gets a chain and a stream as new leading inputs and a
 * chain as its only result; its entry block is replaced by one with the new
 * arguments, and its final terminator returns the incoming chain.
 */
module SignatureRewrite {
  import opened Wrappers
  import opened Ir
  import opened Edits
  import opened Rewriting

  /**
   * `f` is a function with a body, as the func verifier makes it: its region
   * blocks exist, the entry block is owned by `f`, appears once and has the
   * function inputs as arguments, and the last block ends in a terminator
   * without results that sits in it.
   */
  predicate FuncShaped(g: Graph, f: OpId) {
    && f in g.ops && g.ops[f].kind.Func?
    && var rs := g.ops[f].regions;
    && rs != [] && (forall b :: b in rs ==> b in g.blocks)
    && g.blocks[rs[0]].parent == f && rs[0] !in rs[1..]
    && g.blocks[rs[0]].args == g.ops[f].kind.inputs
    && g.blocks[Last(rs)].ops != []
    && var t := Last(g.blocks[Last(rs)].ops);
    && t in g.ops && t != f && g.ops[t].parent == Last(rs) && g.ops[t].results == []
  }

  /** The new function type: chain and stream in front of the old inputs, one chain result. */
  function ChainStreamType(inputs: seq<Type>): (k: OpKind)
    ensures FuncLegal(k)
  {
    Func([ChainT, StreamT] + inputs, [ChainT])
  }

  /** The arguments of block `e` from index 2 on: what the old entry arguments are bound to. */
  function Shifted(e: BlockId, m: nat): (r: seq<Value>)
    ensures |r| == m
  {
    seq(m, i requires 0 <= i < m => Arg(e, i + 2))
  }

  /**
   * The rewrite of function `f`.  The terminator replaced at the end is the
   * one of the last block of the region; after the merge it is the same
   * operation, whether it now sits in the new entry block or not.  The new
   * return takes the old terminator's place; SignatureAsWritten below builds
   * it where the code's insertion point actually is.
   */
  function Signature(g: Graph, f: OpId): Result<Graph, MatchFailure>
    requires Valid(g) && FuncShaped(g, f)
  {
    var k := g.ops[f].kind;
    if k.outputs != [] then Failure(ExpectedNoResult)
    else
      var rs := g.ops[f].regions;
      var first := rs[0];
      var t := Last(g.blocks[Last(rs)].ops);
      var g1 := SetKind(g, f, ChainStreamType(k.inputs));
      var (g2, e) := CreateBlock(g1, f, first, [ChainT, StreamT] + k.inputs);
      var g3 := MergeBlocks(g2, first, e, Shifted(e, |k.inputs|));
      MergeBlocksEffect(g2, first, e, Shifted(e, |k.inputs|));
      Success(ReplaceOp(g3, t, Op(Return, [Arg(e, 0)], [], [], e)).0)
  }

  /** matchAndRewrite of SignatureRewritePattern; on success it returns the new entry block. */
  method SignatureInPlace(rw: Rewriter, f: OpId) returns (res: Result<BlockId, MatchFailure>)
    requires Valid(rw.G()) && FuncShaped(rw.G(), f)
    modifies rw
    ensures res.Success? == Signature(old(rw.G()), f).Success?
    ensures res.Failure? ==> res.error == Signature(old(rw.G()), f).error && rw.G() == old(rw.G())
    ensures res.Success? ==> rw.G() == Signature(old(rw.G()), f).value && res.value == old(rw.nextBlock)
  {
    var k := rw.ops[f].kind;
    if k.outputs != [] {
      return Failure(ExpectedNoResult);
    }
    var rs := rw.ops[f].regions;
    var first := rs[0];
    var t := Last(rw.blocks[Last(rs)].ops);
    var inputs := [ChainT, StreamT] + k.inputs;
    rw.SetKind(f, ChainStreamType(k.inputs));
    var e := rw.CreateBlock(f, first, inputs);
    rw.MergeBlocks(first, e, Shifted(e, |k.inputs|));
    var n := rw.ReplaceOp(t, Op(Return, [Arg(e, 0)], [], [], e));
    return Success(e);
  }

  /**
   * `r` is `g` with function `f` rewritten: `f` has the new type, and its
   * region starts with a new entry block numbered g.nextBlock whose
   * arguments are a chain, a stream and then the old inputs, and which holds
   * the operations of the old entry block, now gone; every use of old entry
   * argument i is a use of new argument i + 2; the terminator of the last
   * block is replaced by a return, numbered g.nextOp, of new argument 0;
   * nothing else changes.
   */
  ghost predicate Resigned(g: Graph, f: OpId, r: Graph)
    requires FuncShaped(g, f)
  {
    var k := g.ops[f].kind;
    var rs := g.ops[f].regions;
    var first := rs[0];
    var last := Last(rs);
    var e := g.nextBlock;
    var n := g.nextOp;
    var t := Last(g.blocks[last].ops);
    var vals := Shifted(e, |k.inputs|);
    var ops0 := g.blocks[first].ops;
    var lops := g.blocks[last].ops;
    var entry := Block(f, [ChainT, StreamT] + k.inputs, ops0);
    && r.nextOp == n + 1 && r.nextBlock == e + 1
    && r.ops.Keys == g.ops.Keys - {t} + {n}
    && r.ops[f] == g.ops[f].(kind := ChainStreamType(k.inputs), operands := SubstArgs(g.ops[f].operands, first, vals),
                             parent := if f in ops0 then e else g.ops[f].parent, regions := [e] + rs[1..])
    && (forall o :: o in g.ops && o != f && o != t ==>
          r.ops[o] == g.ops[o].(operands := SubstArgs(g.ops[o].operands, first, vals),
                                parent := if o in ops0 then e else g.ops[o].parent))
    && r.ops[n] == Op(Return, [Arg(e, 0)], [], [], if last == first then e else last)
    && r.blocks == if last == first then (g.blocks - {first})[e := entry.(ops := ops0[..|ops0| - 1] + [n])]
                   else (g.blocks - {first})[e := entry][last := g.blocks[last].(ops := lops[..|lops| - 1] + [n])]
  }

  /**
   * The rewrite fails, with ExpectedNoResult, exactly when the function has
   * results; otherwise it rewrites the function as Resigned says.
   */
  lemma {:induction false} SignatureSpec(g: Graph, f: OpId)
    requires WellFormed(g) && FuncShaped(g, f)
    ensures Signature(g, f).Failure? <==> g.ops[f].kind.outputs != []
    ensures Signature(g, f).Failure? ==> Signature(g, f).error == ExpectedNoResult
    ensures Signature(g, f).Success? ==> Resigned(g, f, Signature(g, f).value)
  {
    if g.ops[f].kind.outputs == [] {
      var g3 := SigMerge(g, f);
      SigFacts(g, f);
      var r := SigReplace(g, f, g3);
    }
  }

  /** A rewritten function satisfies the legality predicate: (chain, stream, old inputs...) -> (chain). */
  lemma {:induction false} SignatureLegal(g: Graph, f: OpId)
    requires WellFormed(g) && FuncShaped(g, f) && Signature(g, f).Success?
    ensures var r := Signature(g, f).value;
      f in r.ops && FuncLegal(r.ops[f].kind) && r.ops[f].kind.inputs[2..] == g.ops[f].kind.inputs
  {
    SignatureSpec(g, f);
  }

  /**
   * In `r` the region of `f` starts with block g.nextBlock, whose arguments
   * are a chain, a stream and then those of the old entry block of `f`,
   * which is gone; old argument i stands for new argument i + 2.
   */
  ghost predicate EntryShifted(g: Graph, f: OpId, r: Graph) {
    && f in g.ops && g.ops[f].kind.Func? && g.ops[f].regions != [] && f in r.ops && r.ops[f].regions != []
    && var first := g.ops[f].regions[0];
    && var e := r.ops[f].regions[0];
    && var m := |g.ops[f].kind.inputs|;
    && e == g.nextBlock && first !in r.blocks
    && TypeOf(r, Arg(e, 0)) == Some(ChainT) && TypeOf(r, Arg(e, 1)) == Some(StreamT)
    && (forall i :: 0 <= i < m ==>
          ArgValue(Arg(first, i), first, Shifted(e, m)) == Arg(e, i + 2)
          && TypeOf(r, Arg(e, i + 2)) == TypeOf(g, Arg(first, i)))
  }

  /**
   * The new entry block takes a chain, a stream and then the old inputs;
   * a use of old entry argument i became a use of new argument i + 2, of
   * the same type; the old entry block is gone.
   */
  lemma {:induction false} SignatureArgs(g: Graph, f: OpId)
    requires WellFormed(g) && FuncShaped(g, f) && Signature(g, f).Success?
    ensures EntryShifted(g, f, Signature(g, f).value)
  {
    SignatureSpec(g, f);
    SigEntry(g, f, Signature(g, f).value);
  }

  lemma {:induction false} SigEntry(g: Graph, f: OpId, r: Graph)
    requires Valid(g) && FuncShaped(g, f) && Resigned(g, f, r)
    ensures EntryShifted(g, f, r)
  {
    var rs := g.ops[f].regions;
    var e := g.nextBlock;
    var ins := g.ops[f].kind.inputs;
    assert e in r.blocks && r.blocks[e].args == [ChainT, StreamT] + ins by {
      assert Last(rs) in g.blocks;
    }
    forall i | 0 <= i < |ins|
      ensures ArgValue(Arg(rs[0], i), rs[0], Shifted(e, |ins|)) == Arg(e, i + 2)
      ensures TypeOf(r, Arg(e, i + 2)) == TypeOf(g, Arg(rs[0], i))
    {
      assert ([ChainT, StreamT] + ins)[i + 2] == ins[i];
    }
  }

  /** The terminator of the last block of the rewritten function returns the new chain argument, and only it. */
  lemma {:induction false} SignatureTerminator(g: Graph, f: OpId)
    requires WellFormed(g) && FuncShaped(g, f) && Signature(g, f).Success?
    ensures var r := Signature(g, f).value;
      && f in r.ops && r.ops[f].regions != [] && g.nextOp in r.ops
      && RegionTerminator(r, f) == Some(g.nextOp)
      && r.ops[g.nextOp].kind == Return && r.ops[g.nextOp].operands == [Arg(r.ops[f].regions[0], 0)]
  {
    SignatureSpec(g, f);
    SigFacts(g, f);
    SigShape(g, f, Signature(g, f).value);
  }

  /** A rewritten function keeps its shape and has a result, so the rewrite does not apply twice. */
  lemma {:induction false} SignatureOnce(g: Graph, f: OpId)
    requires WellFormed(g) && FuncShaped(g, f) && Signature(g, f).Success?
    ensures Valid(Signature(g, f).value) && FuncShaped(Signature(g, f).value, f)
    ensures Signature(Signature(g, f).value, f) == Failure(ExpectedNoResult)
  {
    SignatureSpec(g, f);
    SigFacts(g, f);
    SigShape(g, f, Signature(g, f).value);
  }

  /** The shape of a rewritten function: its last block is the new entry or the old last block. */
  lemma {:induction false} SigShape(g: Graph, f: OpId, r: Graph)
    requires Valid(g) && FuncShaped(g, f) && SigFree(g, f) && Resigned(g, f, r)
    ensures var rs := g.ops[f].regions;
      var e := g.nextBlock;
      && Valid(r) && FuncShaped(r, f)
      && Last(r.ops[f].regions) == (if Last(rs) == rs[0] then e else Last(rs))
      && Last(r.blocks[Last(r.ops[f].regions)].ops) == g.nextOp
  {
    var rs := g.ops[f].regions;
    var first := rs[0];
    var e := g.nextBlock;
    var nrs := [e] + rs[1..];
    assert r.ops[f].regions == nrs;
    if |rs| > 1 {
      assert Last(rs) in rs[1..];
      assert Last(nrs) == Last(rs);
    }
    forall b | b in nrs
      ensures b in r.blocks
    {
      if b != e {
        assert b in rs[1..];
        assert b in rs;
      }
    }
    assert e !in rs[1..] by {
      forall b | b in rs[1..]
        ensures b != e
      {
        assert b in rs;
      }
    }
  }

  /** The state after the old entry block was merged into the new one. */
  ghost predicate AfterSigMerge(g: Graph, f: OpId, g3: Graph)
    requires FuncShaped(g, f)
  {
    var k := g.ops[f].kind;
    var rs := g.ops[f].regions;
    var first := rs[0];
    var e := g.nextBlock;
    var vals := Shifted(e, |k.inputs|);
    var ops0 := g.blocks[first].ops;
    && Valid(g3) && g3.nextOp == g.nextOp && g3.nextBlock == g.nextBlock + 1
    && g3.ops.Keys == g.ops.Keys
    && g3.ops[f] == g.ops[f].(kind := ChainStreamType(k.inputs), operands := SubstArgs(g.ops[f].operands, first, vals),
                              parent := if f in ops0 then e else g.ops[f].parent, regions := [e] + rs[1..])
    && (forall o :: o in g.ops && o != f ==>
          g3.ops[o] == g.ops[o].(operands := SubstArgs(g.ops[o].operands, first, vals),
                                 parent := if o in ops0 then e else g.ops[o].parent))
    && g3.blocks == (g.blocks - {first})[e := Block(f, [ChainT, StreamT] + k.inputs, ops0)]
  }

  lemma {:induction false} WithoutFirst(e: BlockId, rs: seq<BlockId>)
    requires rs != [] && rs[0] !in rs[1..] && e != rs[0]
    ensures Without([e] + rs, rs[0]) == [e] + rs[1..]
  {
    var x := rs[0];
    var tail := rs[1..];
    assert rs == [x] + tail;
    WithoutAppend([x], tail, x);
    WithoutSingle(x, x);
    var w := Without(rs, x);
    assert w == tail by {
      assert Without(tail, x) == tail;
      assert w == [] + tail;
    }
    WithoutAppend([e], rs, x);
    WithoutSingle(e, x);
  }

  lemma {:induction false} SigMerge(g: Graph, f: OpId) returns (g3: Graph)
    requires Valid(g) && FuncShaped(g, f) && g.ops[f].kind.outputs == []
    ensures var k := g.ops[f].kind;
      var first := g.ops[f].regions[0];
      var g1 := SetKind(g, f, ChainStreamType(k.inputs));
      var (g2, e) := CreateBlock(g1, f, first, [ChainT, StreamT] + k.inputs);
      && first in g2.blocks && e in g2.blocks && first != e
      && g3 == MergeBlocks(g2, first, e, Shifted(e, |k.inputs|))
    ensures AfterSigMerge(g, f, g3)
  {
    var k := g.ops[f].kind;
    var first := g.ops[f].regions[0];
    var g1 := SetKind(g, f, ChainStreamType(k.inputs));
    var (g2, e) := CreateBlock(g1, f, first, [ChainT, StreamT] + k.inputs);
    SigCreate(g, f);
    g3 := MergeBlocks(g2, first, e, Shifted(e, |k.inputs|));
    SigMergeOps(g, f, g2, g3);
    SigMergeBlocks(g, f, g2, g3);
  }

  /** The function retyped and the new, empty entry block created in front of the old one. */
  lemma {:induction false} SigCreate(g: Graph, f: OpId)
    requires Valid(g) && FuncShaped(g, f)
    ensures var k := g.ops[f].kind;
      var rs := g.ops[f].regions;
      var g1 := SetKind(g, f, ChainStreamType(k.inputs));
      var (g2, e) := CreateBlock(g1, f, rs[0], [ChainT, StreamT] + k.inputs);
      && e == g.nextBlock && g2.nextOp == g.nextOp && g2.nextBlock == e + 1
      && g2.ops == g.ops[f := g.ops[f].(kind := ChainStreamType(k.inputs), regions := [e] + rs)]
      && g2.blocks == g.blocks[e := Block(f, [ChainT, StreamT] + k.inputs, [])]
  {
    var rs := g.ops[f].regions;
    var e := g.nextBlock;
    assert IndexOf(rs, rs[0]) == 0;
    assert rs[..0] + [e] + rs[0..] == [e] + rs;
  }

  lemma {:induction false} SigMergeOps(g: Graph, f: OpId, g2: Graph, g3: Graph)
    requires Valid(g) && FuncShaped(g, f)
    requires var k := g.ops[f].kind;
      var rs := g.ops[f].regions;
      var e := g.nextBlock;
      && g2.ops == g.ops[f := g.ops[f].(kind := ChainStreamType(k.inputs), regions := [e] + rs)]
      && g2.blocks == g.blocks[e := Block(f, [ChainT, StreamT] + k.inputs, [])]
      && g3 == MergeBlocks(g2, rs[0], e, Shifted(e, |k.inputs|))
    ensures var k := g.ops[f].kind;
      var rs := g.ops[f].regions;
      var first := rs[0];
      var e := g.nextBlock;
      var vals := Shifted(e, |k.inputs|);
      var ops0 := g.blocks[first].ops;
      && g3.ops.Keys == g.ops.Keys
      && g3.ops[f] == g.ops[f].(kind := ChainStreamType(k.inputs), operands := SubstArgs(g.ops[f].operands, first, vals),
                                parent := if f in ops0 then e else g.ops[f].parent, regions := [e] + rs[1..])
      && (forall o :: o in g.ops && o != f ==>
            g3.ops[o] == g.ops[o].(operands := SubstArgs(g.ops[o].operands, first, vals),
                                   parent := if o in ops0 then e else g.ops[o].parent))
  {
    var k := g.ops[f].kind;
    var rs := g.ops[f].regions;
    var e := g.nextBlock;
    MergeBlocksEffect(g2, rs[0], e, Shifted(e, |k.inputs|));
    assert g2.blocks[rs[0]].parent == f;
    WithoutFirst(e, rs);
    SigMergeOthers(g, f, g2, g3);
  }

  /** Every operation but the function keeps its kind and regions and is moved and substituted. */
  lemma {:induction false} SigMergeOthers(g: Graph, f: OpId, g2: Graph, g3: Graph)
    requires Valid(g) && FuncShaped(g, f)
    requires var rs := g.ops[f].regions;
      var e := g.nextBlock;
      && f in g2.ops && g2.ops == g.ops[f := g2.ops[f]]
      && rs[0] in g2.blocks && e in g2.blocks && rs[0] != e
      && g2.blocks[rs[0]] == g.blocks[rs[0]]
      && g3 == MergeBlocks(g2, rs[0], e, Shifted(e, |g.ops[f].kind.inputs|))
    ensures var first := g.ops[f].regions[0];
      var vals := Shifted(g.nextBlock, |g.ops[f].kind.inputs|);
      var ops0 := g.blocks[first].ops;
      forall o :: o in g.ops && o != f ==>
        g3.ops[o] == g.ops[o].(operands := SubstArgs(g.ops[o].operands, first, vals),
                               parent := if o in ops0 then g.nextBlock else g.ops[o].parent)
  {
    var first := g.ops[f].regions[0];
    var e := g.nextBlock;
    MergeBlocksEffect(g2, first, e, Shifted(e, |g.ops[f].kind.inputs|));
    forall o | o in g.ops && o != f
      ensures g2.ops[o] == g.ops[o] && o in g2.ops
    {
    }
  }

  lemma {:induction false} SigMergeBlocks(g: Graph, f: OpId, g2: Graph, g3: Graph)
    requires Valid(g) && FuncShaped(g, f)
    requires var k := g.ops[f].kind;
      var rs := g.ops[f].regions;
      var e := g.nextBlock;
      && g2.nextOp == g.nextOp && g2.nextBlock == e + 1
      && g2.ops.Keys == g.ops.Keys
      && g2.blocks == g.blocks[e := Block(f, [ChainT, StreamT] + k.inputs, [])]
      && g3 == MergeBlocks(g2, rs[0], e, Shifted(e, |k.inputs|))
    ensures var k := g.ops[f].kind;
      var first := g.ops[f].regions[0];
      && Valid(g3) && g3.nextOp == g.nextOp && g3.nextBlock == g.nextBlock + 1
      && g3.blocks == (g.blocks - {first})[g.nextBlock := Block(f, [ChainT, StreamT] + k.inputs, g.blocks[first].ops)]
  {
    var k := g.ops[f].kind;
    var first := g.ops[f].regions[0];
    var e := g.nextBlock;
    var b0 := Block(f, [ChainT, StreamT] + k.inputs, []);
    MergeBlocksEffect(g2, first, e, Shifted(e, |k.inputs|));
    assert g2.blocks[e] == b0 && g2.blocks[first] == g.blocks[first];
    EntryMerged(g.blocks, first, e, b0, g.blocks[first].ops, g3.blocks);
  }

  /** The operations of the old entry block end up in the new, empty one. */
  lemma {:induction false} EntryMerged(bs: map<BlockId, Block>, first: BlockId, e: BlockId, b0: Block, ops0: seq<OpId>,
                                       r: map<BlockId, Block>)
    requires first != e && b0.ops == []
    requires r == (bs[e := b0] - {first})[e := b0.(ops := b0.ops + ops0)]
    ensures r == (bs - {first})[e := b0.(ops := ops0)]
  {
    assert b0.ops + ops0 == ops0;
  }

  /** What well-formedness says about the terminator of the last block. */
  predicate SigFree(g: Graph, f: OpId)
    requires FuncShaped(g, f)
  {
    var rs := g.ops[f].regions;
    var lops := g.blocks[Last(rs)].ops;
    var t := Last(lops);
    && t !in lops[..|lops| - 1]
    && (t in g.blocks[rs[0]].ops <==> Last(rs) == rs[0])
    && (t < g.nextOp) && g.nextBlock !in g.blocks
  }

  lemma {:induction false} SigFacts(g: Graph, f: OpId)
    requires WellFormed(g) && FuncShaped(g, f)
    ensures SigFree(g, f)
  {
    var rs := g.ops[f].regions;
    var first := rs[0];
    var last := Last(rs);
    var lops := g.blocks[last].ops;
    var ops0 := g.blocks[first].ops;
    var t := Last(lops);
    forall j | 0 <= j < |lops| - 1
      ensures lops[j] != t
    {
      assert lops[j] != lops[|lops| - 1];
    }
    PrefixMembers(lops, |lops| - 1);
    if last != first {
      forall j | 0 <= j < |ops0|
        ensures ops0[j] != t
      {
        assert g.ops[ops0[j]].parent == first;
      }
    }
  }

  /** Replacing the last element `t` of `s`, which occurs only there. */
  lemma {:induction false} LastReplaced(s: seq<OpId>, n: OpId)
    requires s != [] && Last(s) !in s[..|s| - 1] && n != Last(s)
    ensures Without(s[..IndexOf(s, Last(s))] + [n] + s[IndexOf(s, Last(s))..], Last(s)) == s[..|s| - 1] + [n]
  {
    var t := Last(s);
    var k := |s| - 1;
    IndexOfAt(s, k, t);
    assert s[k..] == [t];
    assert s[..k] + [n] + s[k..] == (s[..k] + [n]) + [t];
    assert (s[..k] + [n]) + [t] == (s[..k] + [n]) + [t] + [];
    PrefixMembers(s, k);
    WithoutOnce((s[..k] + [n]) + [t], t, k + 1);
    assert ((s[..k] + [n]) + [t])[..k + 1] == s[..k] + [n];
  }

  lemma {:induction false} SigReplace(g: Graph, f: OpId, g3: Graph) returns (r: Graph)
    requires FuncShaped(g, f) && SigFree(g, f) && AfterSigMerge(g, f, g3)
    ensures var rs := g.ops[f].regions;
      var t := Last(g.blocks[Last(rs)].ops);
      var e := g.nextBlock;
      && Placed(g3, t)
      && r == ReplaceOp(g3, t, Op(Return, [Arg(e, 0)], [], [], e)).0
    ensures Resigned(g, f, r)
  {
    var rs := g.ops[f].regions;
    var t := Last(g.blocks[Last(rs)].ops);
    var e := g.nextBlock;
    var op := Op(Return, [Arg(e, 0)], [], [], e);
    assert t != f;
    r := ReplaceOp(g3, t, op).0;
    SigReplaceOps(g, f, g3, op);
    SigReplaceBlocks(g, f, g3, op);
  }

  lemma {:induction false} SigReplaceOps(g: Graph, f: OpId, g3: Graph, op: Op)
    requires FuncShaped(g, f) && SigFree(g, f) && AfterSigMerge(g, f, g3)
    requires op == Op(Return, [Arg(g.nextBlock, 0)], [], [], g.nextBlock)
    ensures var rs := g.ops[f].regions;
      var first := rs[0];
      var last := Last(rs);
      var t := Last(g.blocks[last].ops);
      var e := g.nextBlock;
      var n := g.nextOp;
      var r := ReplaceOp(g3, t, op).0;
      && Placed(g3, t)
      && r.ops.Keys == g.ops.Keys - {t} + {n}
      && r.ops[f] == g3.ops[f]
      && (forall o :: o in g.ops && o != t ==> r.ops[o] == g3.ops[o])
      && r.ops[n] == Op(Return, [Arg(e, 0)], [], [], if last == first then e else last)
  {
    var rs := g.ops[f].regions;
    var t := Last(g.blocks[Last(rs)].ops);
    assert t != f;
    ReplaceOpOps(g3, t, op);
  }

  lemma {:induction false} SigReplaceBlocks(g: Graph, f: OpId, g3: Graph, op: Op)
    requires FuncShaped(g, f) && SigFree(g, f) && AfterSigMerge(g, f, g3)
    ensures var k := g.ops[f].kind;
      var rs := g.ops[f].regions;
      var first := rs[0];
      var last := Last(rs);
      var e := g.nextBlock;
      var n := g.nextOp;
      var t := Last(g.blocks[last].ops);
      var ops0 := g.blocks[first].ops;
      var lops := g.blocks[last].ops;
      var entry := Block(f, [ChainT, StreamT] + k.inputs, ops0);
      && Placed(g3, t)
      && ReplaceOp(g3, t, op).0.blocks ==
           if last == first then (g.blocks - {first})[e := entry.(ops := ops0[..|ops0| - 1] + [n])]
           else (g.blocks - {first})[e := entry][last := g.blocks[last].(ops := lops[..|lops| - 1] + [n])]
  {
    var rs := g.ops[f].regions;
    var first := rs[0];
    var last := Last(rs);
    var t := Last(g.blocks[last].ops);
    var lb := if last == first then g.nextBlock else last;
    assert t != f;
    assert g3.ops[t].parent == lb;
    ReplaceOpBlocks(g3, t, op);
    var s := g3.blocks[lb].ops;
    LastReplaced(s, g.nextOp);
    var k := g.ops[f].kind;
    SigBlocksJoin(g.blocks, first, g.nextBlock, Block(f, [ChainT, StreamT] + k.inputs, g.blocks[first].ops), last, lb,
                  s[..|s| - 1] + [g.nextOp], ReplaceOp(g3, t, op).0.blocks);
  }

  /** The block of the old terminator lists the new return in its place. */
  lemma {:induction false} SigBlocksJoin(bs: map<BlockId, Block>, first: BlockId, e: BlockId, entry: Block, last: BlockId,
                                         lb: BlockId, x: seq<OpId>, r: map<BlockId, Block>)
    requires last in bs && e !in bs && lb == (if last == first then e else last)
    requires var m := (bs - {first})[e := entry];
      r == m[lb := m[lb].(ops := x)]
    ensures r == if last == first then (bs - {first})[e := entry.(ops := x)]
                 else (bs - {first})[e := entry][last := bs[last].(ops := x)]
  {
  }

  /**
   * Creates `op` under the next free id at the end of block `b`: where
   * the rewriter's insertion point stands after createBlock.
   */
  function AppendOp(g: Graph, b: BlockId, op: Op): (r: (Graph, OpId))
    requires b in g.blocks
    ensures r.1 == g.nextOp && r.0.nextOp == g.nextOp + 1 && r.0.nextBlock == g.nextBlock
    ensures r.0.ops.Keys == g.ops.Keys + {r.1} && r.0.blocks.Keys == g.blocks.Keys
  {
    var id := g.nextOp;
    (g.(ops := g.ops[id := op.(parent := b)],
        blocks := g.blocks[b := g.blocks[b].(ops := g.blocks[b].ops + [id])],
        nextOp := id + 1),
     id)
  }

  /**
   * The rewrite as the code performs it: createBlock leaves the insertion
   * point at the end of the new entry block, so replaceOpWithNewOp creates
   * the return there, not where the old terminator stood, and then erases
   * the old terminator.
   */
  function SignatureAsWritten(g: Graph, f: OpId): Result<Graph, MatchFailure>
    requires Valid(g) && FuncShaped(g, f)
  {
    var k := g.ops[f].kind;
    if k.outputs != [] then Failure(ExpectedNoResult)
    else
      var rs := g.ops[f].regions;
      var first := rs[0];
      var t := Last(g.blocks[Last(rs)].ops);
      var g1 := SetKind(g, f, ChainStreamType(k.inputs));
      var (g2, e) := CreateBlock(g1, f, first, [ChainT, StreamT] + k.inputs);
      var g3 := MergeBlocks(g2, first, e, Shifted(e, |k.inputs|));
      Success(Erase(AppendOp(g3, e, Op(Return, [Arg(e, 0)], [], [], e)).0, t))
  }

  /**
   * As written, the new return ends the new entry block.  With one block
   * that is where the old terminator stood; with more, the entry block
   * keeps its own terminator before the return and the last block loses
   * its terminator.
   */
  lemma {:induction false} SignatureAsWrittenBlocks(g: Graph, f: OpId)
    requires WellFormed(g) && FuncShaped(g, f) && g.ops[f].kind.outputs == []
    ensures var rs := g.ops[f].regions;
      var first := rs[0];
      var last := Last(rs);
      var e := g.nextBlock;
      var ops0 := g.blocks[first].ops;
      var lops := g.blocks[last].ops;
      var r := SignatureAsWritten(g, f).value;
      && e in r.blocks && last in g.blocks
      && r.blocks[e].ops == (if last == first then ops0[..|ops0| - 1] + [g.nextOp] else ops0 + [g.nextOp])
      && (last != first ==> last in r.blocks && r.blocks[last].ops == lops[..|lops| - 1])
  {
    var rs := g.ops[f].regions;
    var first := rs[0];
    var last := Last(rs);
    var e := g.nextBlock;
    var t := Last(g.blocks[last].ops);
    var g3 := SigMerge(g, f);
    SigFacts(g, f);
    assert t != f;
    var g4 := AppendOp(g3, e, Op(Return, [Arg(e, 0)], [], [], e)).0;
    AsWrittenErase(g, f, g3, g4);
  }

  lemma {:induction false} AsWrittenErase(g: Graph, f: OpId, g3: Graph, g4: Graph)
    requires FuncShaped(g, f) && SigFree(g, f) && AfterSigMerge(g, f, g3)
    requires g.nextBlock in g3.blocks && g4 == AppendOp(g3, g.nextBlock, Op(Return, [Arg(g.nextBlock, 0)], [], [], g.nextBlock)).0
    ensures var rs := g.ops[f].regions;
      var first := rs[0];
      var last := Last(rs);
      var e := g.nextBlock;
      var ops0 := g.blocks[first].ops;
      var lops := g.blocks[last].ops;
      var r := Erase(g4, Last(lops));
      && e in r.blocks
      && r.blocks[e].ops == (if last == first then ops0[..|ops0| - 1] + [g.nextOp] else ops0 + [g.nextOp])
      && (last != first ==> last in r.blocks && r.blocks[last].ops == lops[..|lops| - 1])
  {
    var rs := g.ops[f].regions;
    var first := rs[0];
    var last := Last(rs);
    var e := g.nextBlock;
    var ops0 := g.blocks[first].ops;
    var lops := g.blocks[last].ops;
    var t := Last(lops);
    var n := g.nextOp;
    assert t in g.ops && t != n;
    if last == first {
      assert g4.ops[t].parent == e;
      var s := ops0 + [n];
      var k := |ops0| - 1;
      assert s[..k] == ops0[..k] && s[k + 1..] == [n];
      assert t !in [n];
      WithoutOnce(s, t, k);
    } else {
      assert last in rs;
      assert g4.ops[t].parent == last;
      assert g4.blocks[last] == g.blocks[last];
      var k := |lops| - 1;
      assert lops[k + 1..] == [];
      WithoutOnce(lops, t, k);
    }
  }

  /**
   * A function, placed in a top-level block, whose body has two blocks: the
   * entry block holds an operation and the next block holds the
   * terminator.
   */
  function TwoBlockFunc(): Graph {
    Graph(map[0 := Op(Func([], []), [], [], [1, 2], 0), 1 := Op(Generic, [], [], [], 1), 2 := Op(Return, [], [], [], 2)],
          map[0 := Block(9, [], [0]), 1 := Block(0, [], [1]), 2 := Block(0, [], [2])],
          3, 3)
  }

  /**
   * On that function the code leaves the return in the new entry block,
   * after the entry's operation, and the second block, the last of the
   * region, empty: the region no longer ends in a terminator.
   */
  lemma {:induction false} SignatureAsWrittenTwoBlocks(g: Graph)
    requires g == TwoBlockFunc()
    ensures WellFormed(g) && FuncShaped(g, 0)
    ensures var r := SignatureAsWritten(g, 0);
      r.Success? && 3 in r.value.blocks && r.value.blocks[3].ops == [1, 3]
      && 2 in r.value.blocks && r.value.blocks[2].ops == []
  {
    TwoBlockFuncShaped();
    TwoBlockLookups();
    TwoRegionAsWritten(g);
  }

  /** The step above on any function of that shape. */
  lemma {:induction false} TwoRegionAsWritten(g: Graph)
    requires WellFormed(g) && FuncShaped(g, 0) && g.ops[0].kind.outputs == []
    requires g.ops[0].regions == [1, 2] && g.blocks[1].ops == [1] && g.blocks[2].ops == [2]
    requires g.nextOp == 3 && g.nextBlock == 3
    ensures var r := SignatureAsWritten(g, 0);
      r.Success? && 3 in r.value.blocks && r.value.blocks[3].ops == [1, 3]
      && 2 in r.value.blocks && r.value.blocks[2].ops == []
  {
    SignatureAsWrittenSplit(g, 0, 1, 2);
  }

  /** The as-written result on a function whose region has more than one block. */
  lemma {:induction false} SignatureAsWrittenSplit(g: Graph, f: OpId, first: BlockId, last: BlockId)
    requires WellFormed(g) && FuncShaped(g, f) && g.ops[f].kind.outputs == []
    requires first == g.ops[f].regions[0] && last == Last(g.ops[f].regions) && first != last
    ensures SignatureAsWritten(g, f).Success?
    ensures g.nextBlock in SignatureAsWritten(g, f).value.blocks
    ensures SignatureAsWritten(g, f).value.blocks[g.nextBlock].ops == g.blocks[first].ops + [g.nextOp]
    ensures last in g.blocks && last in SignatureAsWritten(g, f).value.blocks
    ensures SignatureAsWritten(g, f).value.blocks[last].ops == g.blocks[last].ops[..|g.blocks[last].ops| - 1]
  {
    SignatureAsWrittenBlocks(g, f);
  }

  lemma {:induction false} TwoBlockFuncShaped()
    ensures WellFormed(TwoBlockFunc()) && FuncShaped(TwoBlockFunc(), 0)
    ensures TwoBlockFunc().ops[0].regions == [1, 2] && TwoBlockFunc().nextBlock == 3 && TwoBlockFunc().nextOp == 3
    ensures TwoBlockFunc().blocks[1].ops == [1] && TwoBlockFunc().blocks[2].ops == [2]
  {
    TwoBlockWellFormed();
    TwoBlockShape();
  }

  lemma TwoBlockWellFormed()
    ensures WellFormed(TwoBlockFunc())
  {
    TwoBlockLookups();
    TwoBlockPlaced();
    TwoBlockListed();
  }

  lemma TwoBlockShape()
    ensures FuncShaped(TwoBlockFunc(), 0)
  {
    TwoBlockLookups();
    var g := TwoBlockFunc();
    var rs := g.ops[0].regions;
    assert rs == [1, 2] && rs[1..] == [2];
    assert Last(rs) == 2 && Last(g.blocks[2].ops) == 2;
  }

  lemma TwoBlockLookups()
    ensures TwoBlockFunc().ops.Keys == {0, 1, 2} && TwoBlockFunc().blocks.Keys == {0, 1, 2}
    ensures TwoBlockFunc().ops[0] == Op(Func([], []), [], [], [1, 2], 0)
    ensures TwoBlockFunc().ops[1] == Op(Generic, [], [], [], 1)
    ensures TwoBlockFunc().ops[2] == Op(Return, [], [], [], 2)
    ensures TwoBlockFunc().blocks[0] == Block(9, [], [0])
    ensures TwoBlockFunc().blocks[1] == Block(0, [], [1])
    ensures TwoBlockFunc().blocks[2] == Block(0, [], [2])
    ensures Valid(TwoBlockFunc())
  {
  }

  lemma TwoBlockPlaced()
    ensures var g := TwoBlockFunc();
      forall o :: o in g.ops ==> g.ops[o].parent in g.blocks && o in g.blocks[g.ops[o].parent].ops
  {
    TwoBlockLookups();
    var g := TwoBlockFunc();
    forall o | o in g.ops
      ensures g.ops[o].parent in g.blocks && o in g.blocks[g.ops[o].parent].ops
    {
      assert o == 0 || o == 1 || o == 2;
    }
  }

  lemma TwoBlockListed()
    ensures var g := TwoBlockFunc();
      && (forall c, k :: c in g.blocks && 0 <= k < |g.blocks[c].ops| ==>
            g.blocks[c].ops[k] in g.ops && g.ops[g.blocks[c].ops[k]].parent == c)
      && (forall c, k, l :: c in g.blocks && 0 <= k < l < |g.blocks[c].ops| ==> g.blocks[c].ops[k] != g.blocks[c].ops[l])
  {
    TwoBlockLookups();
    var g := TwoBlockFunc();
    forall c, k | c in g.blocks && 0 <= k < |g.blocks[c].ops|
      ensures g.blocks[c].ops[k] in g.ops && g.ops[g.blocks[c].ops[k]].parent == c
    {
      assert c == 0 || c == 1 || c == 2;
    }
  }
}
