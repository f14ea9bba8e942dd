/**
 * UnwrapAsyncExecPattern: a tfrt_gpu_conversion.async.execute whose first
 * operand is a token cast from a chain and a stream is dissolved: its body
 * moves in front of it with the body arguments bound to the cast's chain and
 * stream, and the operation itself becomes a cast of the chain its body
 * returned and of the same stream.
 */
module UnwrapAsyncExec {
  import opened Wrappers
  import opened Ir
  import opened Edits
  import opened Rewriting

  /**
   * `x` is an async.execute as its builder and verifier make it: placed in
   * a block, with one body block owned by it and ending in a terminator
   * that returns at least one value.
   */
  predicate ExecShaped(g: Graph, x: OpId) {
    && x in g.ops && g.ops[x].kind == AsyncExecute && |g.ops[x].regions| == 1
    && Placed(g, x) && x in g.blocks[g.ops[x].parent].ops
    && var body := g.ops[x].regions[0];
    && body in g.blocks && body != g.ops[x].parent && g.blocks[body].parent == x
    && g.blocks[body].ops != []
    && Last(g.blocks[body].ops) in g.ops
    && g.ops[Last(g.blocks[body].ops)].kind == Return
    && g.ops[Last(g.blocks[body].ops)].operands != []
  }

  /** The cast that replaces the async.execute: of the chain the body returned and of the stream of the old cast. */
  function TokenCast(chain: Value, stream: Value, b: BlockId): Op {
    Op(Cast, [chain, stream], [TokenT], [], b)
  }

  /** The rewrite of async.execute `x`; a failure leaves the graph as it was. */
  function Unwrap(g: Graph, x: OpId): Result<Graph, MatchFailure>
    requires ExecShaped(g, x)
  {
    var op := g.ops[x];
    if op.operands == [] || op.results == [] then Failure(NoOperandsOrResult)
    else match DefiningCast(g, op.operands[0])
      case None => Failure(ExpectedCastToToken)
      case Some(c) =>
        var body := op.regions[0];
        var term := Last(g.blocks[body].ops);
        var g1 := MergeBlockBefore(g, body, x, g.ops[c].operands);
        var (g2, n) := ReplaceOp(g1, x, TokenCast(g1.ops[term].operands[0], g1.ops[c].operands[1], op.parent));
        Success(Erase(Erase(g2, term), c))
  }

  /**
   * `r` is `g` with async.execute `x` unwrapped through cast `c`: in the
   * block of `x`, the body's operations but its terminator, then the new
   * cast numbered g.nextOp, stand where `x` stood, and `c` is gone from every
   * block; the body block is gone; the new cast combines the chain the
   * terminator returned and the stream of `c`, with the body arguments
   * bound to the operands of `c`; every other operation keeps its kind,
   * results and regions, sees the body arguments bound to the operands of
   * `c` and the token of `x` replaced by the new cast, and the moved ones now
   * sit in the block of `x`.
   */
  ghost predicate Unwrapped(g: Graph, x: OpId, c: OpId, r: Graph)
    requires ExecShaped(g, x) && IsChainStreamCast(g, c)
  {
    UnwrappedBlocks(g, x, c, r.blocks) && MovedOps(g, x, c, {x, Last(g.blocks[g.ops[x].regions[0]].ops), c}, r.ops)
  }

  /**
   * The blocks once `x` was unwrapped through `c`: in the block of `x`, the
   * body's operations but its terminator, then the new cast numbered
   * g.nextOp, stand where `x` stood, and `c` is gone from every block; the
   * body block is gone.
   */
  ghost predicate UnwrappedBlocks(g: Graph, x: OpId, c: OpId, bs: map<BlockId, Block>)
    requires ExecShaped(g, x)
  {
    var p := g.ops[x].parent;
    var s := g.blocks[p].ops;
    var i := IndexOf(s, x);
    var body := g.ops[x].regions[0];
    var bops := g.blocks[body].ops;
    && bs.Keys == g.blocks.Keys - {body}
    && p in bs && bs[p] == g.blocks[p].(ops := Without(s[..i] + bops[..|bops| - 1] + [g.nextOp] + s[i + 1..], c))
    && (forall b :: b in g.blocks && b != p && b != body ==> b in bs && bs[b] == g.blocks[b].(ops := Without(g.blocks[b].ops, c)))
  }

  /**
   * `ops` holds the operations of `g` but those in `drop`, and the new cast
   * numbered g.nextOp in the block of `x`: the cast combines the chain the
   * terminator returned and the stream of `c`, with the body arguments bound
   * to the operands of `c`; every other operation keeps its kind, results and
   * regions, sees the body arguments bound to the operands of `c` and the
   * token of `x` replaced by the new cast, and the moved ones now sit in the
   * block of `x`.
   */
  ghost predicate MovedOps(g: Graph, x: OpId, c: OpId, drop: set<OpId>, ops: map<OpId, Op>)
    requires ExecShaped(g, x) && IsChainStreamCast(g, c)
  {
    var p := g.ops[x].parent;
    var body := g.ops[x].regions[0];
    var bops := g.blocks[body].ops;
    var term := Last(bops);
    var vals := g.ops[c].operands;
    var n := g.nextOp;
    && ops.Keys == g.ops.Keys - drop + {n}
    && n in ops
    && ops[n] == Op(Cast, Redirect([ArgValue(g.ops[term].operands[0], body, vals), ArgValue(vals[1], body, vals)], true, x, n),
                    [TokenT], [], p)
    && (forall o :: o in g.ops && o !in drop ==>
          o in ops && ops[o] == g.ops[o].(operands := Redirect(SubstArgs(g.ops[o].operands, body, vals), true, x, n),
                                          parent := if o in bops then p else g.ops[o].parent))
  }

  /** Erasing one more old operation `y` from the operations. */
  lemma {:induction false} MovedErase(g: Graph, x: OpId, c: OpId, drop: set<OpId>, ops: map<OpId, Op>, y: OpId, drop2: set<OpId>,
                                      ops2: map<OpId, Op>)
    requires ExecShaped(g, x) && IsChainStreamCast(g, c)
    requires MovedOps(g, x, c, drop, ops) && y != g.nextOp && drop2 == drop + {y} && ops2 == ops - {y}
    ensures MovedOps(g, x, c, drop2, ops2)
  {
  }

  /**
   * The rewrite fails exactly when `x` has no operand or no result, or its
   * first operand is not a token cast from a chain and a stream; otherwise
   * it unwraps `x` through that cast.
   */
  lemma {:induction false} UnwrapSpec(g: Graph, x: OpId)
    requires WellFormed(g) && ExecShaped(g, x)
    ensures Unwrap(g, x) == Failure(NoOperandsOrResult) <==> g.ops[x].operands == [] || g.ops[x].results == []
    ensures Unwrap(g, x) == Failure(ExpectedCastToToken)
        <==> g.ops[x].operands != [] && g.ops[x].results != [] && DefiningCast(g, g.ops[x].operands[0]).None?
    ensures Unwrap(g, x).Success? ==> Unwrapped(g, x, DefiningCast(g, g.ops[x].operands[0]).value, Unwrap(g, x).value)
  {
    if Unwrap(g, x).Success? {
      var c := DefiningCast(g, g.ops[x].operands[0]).value;
      UnwrapSteps(g, x, c);
    }
  }

  lemma {:induction false} UnwrapSteps(g: Graph, x: OpId, c: OpId)
    requires WellFormed(g) && ExecShaped(g, x) && IsChainStreamCast(g, c)
    requires g.ops[x].results != []
    ensures var body := g.ops[x].regions[0];
      var term := Last(g.blocks[body].ops);
      var g1 := MergeBlockBefore(g, body, x, g.ops[c].operands);
      && Placed(g1, x) && term in g1.ops && |g1.ops[term].operands| > 0 && c in g1.ops && |g1.ops[c].operands| == 2
      && var (g2, n) := ReplaceOp(g1, x, TokenCast(g1.ops[term].operands[0], g1.ops[c].operands[1], g.ops[x].parent));
      Unwrapped(g, x, c, Erase(Erase(g2, term), c))
  {
    var p := g.ops[x].parent;
    var s := g.blocks[p].ops;
    var i := IndexOf(s, x);
    var body := g.ops[x].regions[0];
    var bops := g.blocks[body].ops;
    var term := Last(bops);
    var vals := g.ops[c].operands;
    var g1 := MergeStep(g, x, c);
    var g2, n := ReplaceStep(g, x, c, g1);
    TermFacts(g, x);
    var g3 := TermStep(g, x, c, g2);
    CastFacts(g, x, c);
    CastStep(g, x, c, g3);
  }

  /** matchAndRewrite of UnwrapAsyncExecPattern; on success it returns the new cast. */
  method UnwrapInPlace(rw: Rewriter, x: OpId) returns (res: Result<OpId, MatchFailure>)
    requires ExecShaped(rw.G(), x)
    modifies rw
    ensures res.Success? == Unwrap(old(rw.G()), x).Success?
    ensures res.Failure? ==> res.error == Unwrap(old(rw.G()), x).error && rw.G() == old(rw.G())
    ensures res.Success? ==> rw.G() == Unwrap(old(rw.G()), x).value && res.value == old(rw.nextOp)
  {
    var op := rw.ops[x];
    if op.operands == [] || op.results == [] {
      return Failure(NoOperandsOrResult);
    }
    var cast := DefiningCast(rw.G(), op.operands[0]);
    if cast.None? {
      return Failure(ExpectedCastToToken);
    }
    var c := cast.value;
    var body := op.regions[0];
    var term := Last(rw.blocks[body].ops);
    rw.MergeBlockBefore(body, x, rw.ops[c].operands);
    var n := rw.ReplaceOp(x, TokenCast(rw.ops[term].operands[0], rw.ops[c].operands[1], op.parent));
    rw.Erase(term);
    rw.Erase(c);
    return Success(n);
  }

  /** The state after the body was merged in front of `x`. */
  ghost predicate AfterMerge(g: Graph, x: OpId, c: OpId, g1: Graph)
    requires ExecShaped(g, x) && IsChainStreamCast(g, c)
  {
    var p := g.ops[x].parent;
    var s := g.blocks[p].ops;
    var body := g.ops[x].regions[0];
    var bops := g.blocks[body].ops;
    var vals := g.ops[c].operands;
    && Valid(g1) && g1.nextOp == g.nextOp
    && g1.blocks == (g.blocks - {body})[p := g.blocks[p].(ops := s[..IndexOf(s, x)] + bops + s[IndexOf(s, x)..])]
    && g1.ops.Keys == g.ops.Keys
    && (forall o :: o in g.ops && o != x ==>
          g1.ops[o] == g.ops[o].(operands := SubstArgs(g.ops[o].operands, body, vals),
                                 parent := if o in bops then p else g.ops[o].parent))
    && g1.ops[x].parent == p && g1.ops[x].results == g.ops[x].results
  }

  lemma {:induction false} MergeStep(g: Graph, x: OpId, c: OpId) returns (g1: Graph)
    requires WellFormed(g) && ExecShaped(g, x) && IsChainStreamCast(g, c)
    ensures g1 == MergeBlockBefore(g, g.ops[x].regions[0], x, g.ops[c].operands)
    ensures AfterMerge(g, x, c, g1)
  {
    var body := g.ops[x].regions[0];
    g1 := MergeBlockBefore(g, body, x, g.ops[c].operands);
    MergeBlockBeforeEffect(g, body, x, g.ops[c].operands);
    assert x !in g.blocks[body].ops;
  }

  /** The state after `x` was replaced by the new cast. */
  ghost predicate AfterReplace(g: Graph, x: OpId, c: OpId, g2: Graph)
    requires ExecShaped(g, x) && IsChainStreamCast(g, c)
  {
    var p := g.ops[x].parent;
    var s := g.blocks[p].ops;
    var i := IndexOf(s, x);
    var body := g.ops[x].regions[0];
    var bops := g.blocks[body].ops;
    var term := Last(bops);
    var vals := g.ops[c].operands;
    var n := g.nextOp;
    && g2.blocks == (g.blocks - {body})[p := g.blocks[p].(ops := s[..i] + bops + [n] + s[i + 1..])]
    && MovedOps(g, x, c, {x}, g2.ops)
  }

  /** Replacing the one occurrence of `x`, after `mid` was inserted in front of it, by `n`. */
  lemma {:induction false} ReplaceSeq(s: seq<OpId>, i: nat, mid: seq<OpId>, x: OpId, n: OpId)
    requires i < |s| && s[i] == x && x !in s[..i] && x !in s[i + 1..] && x !in mid && n != x
    ensures var s1 := s[..i] + mid + s[i..];
      IndexOf(s1, x) == i + |mid|
      && Without(s1[..i + |mid|] + [n] + s1[i + |mid|..], x) == s[..i] + mid + [n] + s[i + 1..]
  {
    var s1 := s[..i] + mid + s[i..];
    var k := i + |mid|;
    assert s1[k] == x;
    assert s1[..k] == s[..i] + mid;
    IndexOfAt(s1, k, x);
    var t := s1[..k] + [n] + s1[k..];
    assert s1[k..] == [x] + s[i + 1..];
    assert t == (s[..i] + mid + [n]) + [x] + s[i + 1..];
    WithoutOnce(t, x, k + 1);
    assert t[..k + 1] == s[..i] + mid + [n];
    assert t[k + 2..] == s[i + 1..];
  }

  lemma {:induction false} ReplaceStep(g: Graph, x: OpId, c: OpId, g1: Graph) returns (g2: Graph, n: OpId)
    requires WellFormed(g) && ExecShaped(g, x) && IsChainStreamCast(g, c) && g.ops[x].results != []
    requires AfterMerge(g, x, c, g1)
    ensures var term := Last(g.blocks[g.ops[x].regions[0]].ops);
      && Placed(g1, x) && term in g1.ops && |g1.ops[term].operands| > 0 && c in g1.ops && |g1.ops[c].operands| == 2
      && (g2, n) == ReplaceOp(g1, x, TokenCast(g1.ops[term].operands[0], g1.ops[c].operands[1], g.ops[x].parent))
    ensures AfterReplace(g, x, c, g2)
  {
    var body := g.ops[x].regions[0];
    var term := Last(g.blocks[body].ops);
    assert c != x && term != x;
    var op := TokenCast(g1.ops[term].operands[0], g1.ops[c].operands[1], g.ops[x].parent);
    g2, n := ReplaceOp(g1, x, op).0, ReplaceOp(g1, x, op).1;
    ReplaceStepKeys(g, x, g1, op);
    ReplaceStepNew(g, x, c, g1, op);
    ReplaceStepOld(g, x, c, g1, op);
    var s := g.blocks[g.ops[x].parent].ops;
    var i := IndexOf(s, x);
    assert x in s by {
      assert x in g.blocks[g.ops[x].parent].ops;
    }
    assert x !in s[i + 1..] by {
      forall k | i + 1 <= k < |s|
        ensures s[k] != x
      {
        assert s[k] != s[i];
      }
      SliceMembers(s, i + 1);
    }
    ReplaceStepBlocks(g, x, c, g1, op);
  }

  /** The new cast, under the next free id. */
  lemma {:induction false} ReplaceStepNew(g: Graph, x: OpId, c: OpId, g1: Graph, op: Op)
    requires ExecShaped(g, x) && IsChainStreamCast(g, c) && g.ops[x].results != []
    requires AfterMerge(g, x, c, g1)
    requires var term := Last(g.blocks[g.ops[x].regions[0]].ops);
      op == TokenCast(g1.ops[term].operands[0], g1.ops[c].operands[1], g.ops[x].parent)
    ensures var body := g.ops[x].regions[0];
      var term := Last(g.blocks[body].ops);
      var vals := g.ops[c].operands;
      var n := g.nextOp;
      && ReplaceOp(g1, x, op).1 == n && n in ReplaceOp(g1, x, op).0.ops
      && ReplaceOp(g1, x, op).0.ops[n]
         == Op(Cast, Redirect([ArgValue(g.ops[term].operands[0], body, vals), ArgValue(vals[1], body, vals)], true, x, n),
               [TokenT], [], g.ops[x].parent)
  {
    var body := g.ops[x].regions[0];
    var term := Last(g.blocks[body].ops);
    ReplaceOpOps(g1, x, op);
    ComposeNew(op, g.ops[term], g.ops[c], g1.ops[term], g1.ops[c], g.ops[x].parent, x, g.nextOp, body);
  }

  /** The operations after the replacement: those of `g` but `x`, and the new cast. */
  lemma {:induction false} ReplaceStepKeys(g: Graph, x: OpId, g1: Graph, op: Op)
    requires Valid(g1) && Placed(g1, x) && g1.nextOp == g.nextOp && g1.ops.Keys == g.ops.Keys
    ensures ReplaceOp(g1, x, op).0.ops.Keys == g.ops.Keys - {x} + {g.nextOp}
  {
    assert x != g.nextOp;
  }

  /** Every other operation sees the body arguments bound and the token of `x` redirected to the new cast. */
  lemma {:induction false} ReplaceStepOld(g: Graph, x: OpId, c: OpId, g1: Graph, op: Op)
    requires ExecShaped(g, x) && IsChainStreamCast(g, c) && g.ops[x].results != []
    requires AfterMerge(g, x, c, g1)
    ensures var p := g.ops[x].parent;
      var body := g.ops[x].regions[0];
      var bops := g.blocks[body].ops;
      var vals := g.ops[c].operands;
      forall o :: o in g.ops && o != x ==>
        o in ReplaceOp(g1, x, op).0.ops && ReplaceOp(g1, x, op).0.ops[o]
        == g.ops[o].(operands := Redirect(SubstArgs(g.ops[o].operands, body, vals), true, x, g.nextOp),
                     parent := if o in bops then p else g.ops[o].parent)
  {
    var body := g.ops[x].regions[0];
    ReplaceOpOps(g1, x, op);
    ComposeOld(g.ops, g1.ops, ReplaceOp(g1, x, op).0.ops, x, g.nextOp, body, g.ops[c].operands, g.blocks[body].ops, g.ops[x].parent);
  }

  /** Merging the body, then replacing `x`: every other operation sees both substitutions. */
  lemma {:induction false} ComposeOld(a: map<OpId, Op>, a1: map<OpId, Op>, r: map<OpId, Op>, x: OpId, n: OpId,
                                      body: BlockId, vals: seq<Value>, bops: seq<OpId>, p: BlockId)
    requires forall o :: o in a && o != x ==>
      o in a1 && a1[o] == a[o].(operands := SubstArgs(a[o].operands, body, vals), parent := if o in bops then p else a[o].parent)
    requires forall o :: o in a1 && o != x ==> o in r && r[o] == a1[o].(operands := Redirect(a1[o].operands, true, x, n))
    ensures forall o :: o in a && o != x ==>
      r[o] == a[o].(operands := Redirect(SubstArgs(a[o].operands, body, vals), true, x, n),
                    parent := if o in bops then p else a[o].parent)
  {
  }

  /** The new cast reads the terminator's chain and the stream of the old cast, with the body arguments bound. */
  lemma {:induction false} ComposeNew(op: Op, t: Op, cop: Op, t1: Op, c1: Op, p: BlockId, x: OpId, n: OpId, body: BlockId)
    requires |t.operands| > 0 && |cop.operands| == 2
    requires t1.operands == SubstArgs(t.operands, body, cop.operands)
    requires c1.operands == SubstArgs(cop.operands, body, cop.operands)
    requires op == TokenCast(t1.operands[0], c1.operands[1], p)
    ensures op.(parent := p, operands := Redirect(op.operands, true, x, n))
         == Op(Cast, Redirect([ArgValue(t.operands[0], body, cop.operands), ArgValue(cop.operands[1], body, cop.operands)], true, x, n),
               [TokenT], [], p)
  {
  }

  lemma {:induction false} ReplaceStepBlocks(g: Graph, x: OpId, c: OpId, g1: Graph, op: Op)
    requires ExecShaped(g, x) && Valid(g1) && g1.nextOp == g.nextOp
    requires var s := g.blocks[g.ops[x].parent].ops;
      && g1.blocks == (g.blocks - {g.ops[x].regions[0]})[g.ops[x].parent := g.blocks[g.ops[x].parent].(ops :=
           s[..IndexOf(s, x)] + g.blocks[g.ops[x].regions[0]].ops + s[IndexOf(s, x)..])]
      && x in g1.ops && g1.ops[x].parent == g.ops[x].parent
    requires var s := g.blocks[g.ops[x].parent].ops;
      x in s && x !in s[IndexOf(s, x) + 1..] && x !in g.blocks[g.ops[x].regions[0]].ops
    ensures var p := g.ops[x].parent;
      var s := g.blocks[p].ops;
      var i := IndexOf(s, x);
      var body := g.ops[x].regions[0];
      var bops := g.blocks[body].ops;
      ReplaceOp(g1, x, op).0.blocks == (g.blocks - {body})[p := g.blocks[p].(ops := s[..i] + bops + [g.nextOp] + s[i + 1..])]
  {
    var p := g.ops[x].parent;
    var s := g.blocks[p].ops;
    var i := IndexOf(s, x);
    var body := g.ops[x].regions[0];
    var bops := g.blocks[body].ops;
    ReplaceOpBlocks(g1, x, op);
    IndexOfFirst(s, x);
    BlockMapStep(g.blocks, g1.blocks, body, p, s, IndexOf(s, x), bops, x, g.nextOp, ReplaceOp(g1, x, op).0.blocks);
  }

  lemma {:induction false} BlockMapStep(b0: map<BlockId, Block>, b1: map<BlockId, Block>, body: BlockId, p: BlockId,
                     s: seq<OpId>, i: nat, bops: seq<OpId>, x: OpId, n: OpId, r: map<BlockId, Block>)
    requires p in b0 && p != body && i < |s| && s[i] == x && x !in s[..i] && x !in s[i + 1..] && x !in bops && n != x
    requires b1 == (b0 - {body})[p := b0[p].(ops := s[..i] + bops + s[i..])]
    requires r == b1[p := b1[p].(ops := Without(b1[p].ops[..IndexOf(b1[p].ops, x)] + [n] + b1[p].ops[IndexOf(b1[p].ops, x)..], x))]
    ensures r == (b0 - {body})[p := b0[p].(ops := s[..i] + bops + [n] + s[i + 1..])]
  {
    ReplaceSeq(s, i, bops, x, n);
  }

  /** The state after the body's terminator was erased. */
  ghost predicate AfterTerm(g: Graph, x: OpId, c: OpId, g3: Graph)
    requires ExecShaped(g, x) && IsChainStreamCast(g, c)
  {
    var p := g.ops[x].parent;
    var s := g.blocks[p].ops;
    var i := IndexOf(s, x);
    var body := g.ops[x].regions[0];
    var bops := g.blocks[body].ops;
    var term := Last(bops);
    var vals := g.ops[c].operands;
    var n := g.nextOp;
    && g3.blocks == (g.blocks - {body})[p := g.blocks[p].(ops := s[..i] + bops[..|bops| - 1] + [n] + s[i + 1..])]
    && MovedOps(g, x, c, {x, term}, g3.ops)
  }

  lemma {:induction false} NotInSlices(s: seq<OpId>, i: nat, y: OpId)
    requires i < |s| && y !in s
    ensures y !in s[..i] && y !in s[i + 1..]
  {
    PrefixMembers(s, i);
    SliceMembers(s, i + 1);
  }

  lemma {:induction false} DropOne(a: seq<OpId>, y: OpId, b: seq<OpId>)
    requires y !in a && y !in b
    ensures Without(a + [y] + b, y) == a + b
  {
    var ay := a + [y];
    WithoutAppend(ay, b, y);
    WithoutAppend(a, [y], y);
    WithoutSingle(y, y);
    assert Without(ay, y) == a by {
      assert Without(a, y) == a;
      assert a + [] == a;
    }
    assert Without(b, y) == b;
  }

  lemma {:induction false} Regroup(a: seq<OpId>, b: seq<OpId>, y: OpId, n: OpId, c: seq<OpId>)
    ensures a + (b + [y]) + [n] + c == (a + b) + [y] + ([n] + c)
    ensures a + b + [n] + c == (a + b) + ([n] + c)
  {
  }

  lemma {:induction false} TermSeq(s: seq<OpId>, i: nat, bops: seq<OpId>, n: OpId)
    requires i < |s| && bops != [] && Last(bops) !in s && Last(bops) !in bops[..|bops| - 1] && n != Last(bops)
    ensures Without(s[..i] + bops + [n] + s[i + 1..], Last(bops)) == s[..i] + bops[..|bops| - 1] + [n] + s[i + 1..]
  {
    var term := Last(bops);
    var pre := s[..i];
    var post := s[i + 1..];
    var inner := bops[..|bops| - 1];
    NotInSlices(s, i, term);
    assert bops == inner + [term];
    Regroup(pre, inner, term, n, post);
    DropOne(pre + inner, term, [n] + post);
  }

  /** What well-formedness says about the body's terminator. */
  predicate TermFree(g: Graph, x: OpId)
    requires ExecShaped(g, x)
  {
    var s := g.blocks[g.ops[x].parent].ops;
    var bops := g.blocks[g.ops[x].regions[0]].ops;
    var term := Last(bops);
    && IndexOf(s, x) < |s| && term != x && term !in s && term !in bops[..|bops| - 1] && term < g.nextOp
  }

  lemma {:induction false} TermFacts(g: Graph, x: OpId)
    requires WellFormed(g) && ExecShaped(g, x)
    ensures TermFree(g, x)
  {
    var p := g.ops[x].parent;
    var s := g.blocks[p].ops;
    var body := g.ops[x].regions[0];
    var bops := g.blocks[body].ops;
    var term := Last(bops);
    assert x in s;
    assert term in bops;
    assert g.ops[bops[|bops| - 1]].parent == body;
    forall k | 0 <= k < |s|
      ensures s[k] != term
    {
      assert g.ops[s[k]].parent == p;
    }
    forall k | 0 <= k < |bops| - 1
      ensures bops[k] != term
    {
      assert bops[k] != bops[|bops| - 1];
    }
    PrefixMembers(bops, |bops| - 1);
  }

  lemma {:induction false} TermStep(g: Graph, x: OpId, c: OpId, g2: Graph) returns (g3: Graph)
    requires ExecShaped(g, x) && IsChainStreamCast(g, c) && TermFree(g, x)
    requires AfterReplace(g, x, c, g2)
    ensures g3 == Erase(g2, Last(g.blocks[g.ops[x].regions[0]].ops))
    ensures AfterTerm(g, x, c, g3)
  {
    var p := g.ops[x].parent;
    var body := g.ops[x].regions[0];
    var bops := g.blocks[body].ops;
    var term := Last(bops);
    assert term in bops;
    assert g2.ops[term].parent == p;
    g3 := Erase(g2, term);
    EraseEffect(g2, term);
    MovedErase(g, x, c, {x}, g2.ops, term, {x, term}, g3.ops);
    TermStepBlocks(g, x, g2.blocks, g3.blocks);
  }

  lemma {:induction false} TermStepBlocks(g: Graph, x: OpId, b2: map<BlockId, Block>, b3: map<BlockId, Block>)
    requires ExecShaped(g, x) && TermFree(g, x)
    requires var p := g.ops[x].parent;
      var s := g.blocks[p].ops;
      var i := IndexOf(s, x);
      var bops := g.blocks[g.ops[x].regions[0]].ops;
      && b2 == (g.blocks - {g.ops[x].regions[0]})[p := g.blocks[p].(ops := s[..i] + bops + [g.nextOp] + s[i + 1..])]
      && b3 == b2[p := b2[p].(ops := Without(b2[p].ops, Last(bops)))]
    ensures var p := g.ops[x].parent;
      var s := g.blocks[p].ops;
      var i := IndexOf(s, x);
      var bops := g.blocks[g.ops[x].regions[0]].ops;
      b3 == (g.blocks - {g.ops[x].regions[0]})[p := g.blocks[p].(ops := s[..i] + bops[..|bops| - 1] + [g.nextOp] + s[i + 1..])]
  {
    var p := g.ops[x].parent;
    var s := g.blocks[p].ops;
    var i := IndexOf(s, x);
    var body := g.ops[x].regions[0];
    var bops := g.blocks[body].ops;
    var m := g.blocks - {body};
    assert p in m && m[p] == g.blocks[p];
    TermSeq(s, i, bops, g.nextOp);
    UpdateTwice(m, p, s[..i] + bops + [g.nextOp] + s[i + 1..], s[..i] + bops[..|bops| - 1] + [g.nextOp] + s[i + 1..]);
  }

  lemma {:induction false} CastBlocks(b0: map<BlockId, Block>, b3: map<BlockId, Block>, r: map<BlockId, Block>,
                   body: BlockId, p: BlockId, q: BlockId, l: seq<OpId>, c: OpId)
    requires p in b0 && body != p && q in b3
    requires b3 == (b0 - {body})[p := b0[p].(ops := l)]
    requires r == b3[q := b3[q].(ops := Without(b3[q].ops, c))]
    requires q != p ==> c !in l
    requires forall b :: b in b0 && b != p && b != body && b != q ==> c !in b0[b].ops
    ensures r.Keys == b0.Keys - {body}
    ensures r[p] == b0[p].(ops := Without(l, c))
    ensures forall b :: b in b0 && b != p && b != body ==> r[b] == b0[b].(ops := Without(b0[b].ops, c))
  {
    if q == p {
      assert r[p] == b0[p].(ops := Without(l, c));
    } else {
      assert Without(l, c) == l;
      assert r[p] == b3[p];
    }
    forall b | b in b0 && b != p && b != body
      ensures r[b] == b0[b].(ops := Without(b0[b].ops, c))
    {
      assert b3[b] == b0[b];
      if b != q {
        assert r[b] == b0[b];
        assert Without(b0[b].ops, c) == b0[b].ops;
      }
    }
  }

  /** What well-formedness says about the cast: it is listed in its own block only. */
  predicate CastFree(g: Graph, x: OpId, c: OpId)
    requires ExecShaped(g, x) && IsChainStreamCast(g, c)
  {
    var p := g.ops[x].parent;
    var body := g.ops[x].regions[0];
    var bops := g.blocks[body].ops;
    var q := g.ops[c].parent;
    && q in g.blocks && (c in bops <==> q == body) && c < g.nextOp && c != x && c != Last(bops)
    && (q != p && q != body ==> c !in g.blocks[p].ops)
    && forall b :: b in g.blocks && b != q ==> c !in g.blocks[b].ops
  }

  lemma {:induction false} CastFacts(g: Graph, x: OpId, c: OpId)
    requires WellFormed(g) && ExecShaped(g, x) && IsChainStreamCast(g, c)
    ensures CastFree(g, x, c)
  {
    var p := g.ops[x].parent;
    var body := g.ops[x].regions[0];
    var bops := g.blocks[body].ops;
    var q := g.ops[c].parent;
    forall b | b in g.blocks && b != q
      ensures c !in g.blocks[b].ops
    {
      forall k | 0 <= k < |g.blocks[b].ops|
        ensures g.blocks[b].ops[k] != c
      {
        assert g.ops[g.blocks[b].ops[k]].parent == b;
      }
    }
  }

  lemma {:induction false} CastSeq(s: seq<OpId>, i: nat, bops: seq<OpId>, n: OpId, y: OpId)
    requires i < |s| && bops != [] && y !in s && y !in bops && n != y
    ensures y !in s[..i] + bops[..|bops| - 1] + [n] + s[i + 1..]
  {
    NotInSlices(s, i, y);
    PrefixMembers(bops, |bops| - 1);
  }

  lemma {:induction false} CastStep(g: Graph, x: OpId, c: OpId, g3: Graph)
    requires ExecShaped(g, x) && IsChainStreamCast(g, c) && CastFree(g, x, c)
    requires AfterTerm(g, x, c, g3)
    ensures Unwrapped(g, x, c, Erase(g3, c))
  {
    CastPlaced(g, x, c, g3);
    var q3 := g3.ops[c].parent;
    var term := Last(g.blocks[g.ops[x].regions[0]].ops);
    EraseEffect(g3, c);
    CastStepBlocks(g, x, c, g3.blocks, q3, Erase(g3, c).blocks);
    MovedErase(g, x, c, {x, term}, g3.ops, c, {x, term, c}, Erase(g3, c).ops);
  }

  /** Before its erasure the cast sits in the block of `x` when it was in the body, in its own block otherwise. */
  lemma {:induction false} CastPlaced(g: Graph, x: OpId, c: OpId, g3: Graph)
    requires ExecShaped(g, x) && IsChainStreamCast(g, c) && CastFree(g, x, c)
    requires AfterTerm(g, x, c, g3)
    ensures c in g3.ops && g3.ops[c].parent in g3.blocks
    ensures g3.ops[c].parent == if c in g.blocks[g.ops[x].regions[0]].ops then g.ops[x].parent else g.ops[c].parent
  {
    assert c !in {x, Last(g.blocks[g.ops[x].regions[0]].ops)};
  }

  lemma {:induction false} CastStepBlocks(g: Graph, x: OpId, c: OpId, b3: map<BlockId, Block>, q3: BlockId, r: map<BlockId, Block>)
    requires ExecShaped(g, x) && IsChainStreamCast(g, c) && CastFree(g, x, c)
    requires var p := g.ops[x].parent;
      var s := g.blocks[p].ops;
      var i := IndexOf(s, x);
      var body := g.ops[x].regions[0];
      var bops := g.blocks[body].ops;
      && b3 == (g.blocks - {body})[p := g.blocks[p].(ops := s[..i] + bops[..|bops| - 1] + [g.nextOp] + s[i + 1..])]
      && q3 == (if c in bops then p else g.ops[c].parent)
    requires q3 in b3 && r == b3[q3 := b3[q3].(ops := Without(b3[q3].ops, c))]
    ensures UnwrappedBlocks(g, x, c, r)
  {
    var p := g.ops[x].parent;
    var s := g.blocks[p].ops;
    var i := IndexOf(s, x);
    var body := g.ops[x].regions[0];
    var bops := g.blocks[body].ops;
    var l := s[..i] + bops[..|bops| - 1] + [g.nextOp] + s[i + 1..];
    if q3 != p {
      CastSeq(s, i, bops, g.nextOp, c);
    }
    CastBlocks(g.blocks, b3, r, body, p, q3, l, c);
  }
}
