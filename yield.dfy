/**
 * YieldOpRewritePattern: an async.yield that yields a token cast from a
 * chain and a stream yields an event instead.  Only the first such operand
 * is converted per application: an event is created on the context of the
 * cast's stream and recorded on that stream against the cast's chain, the
 * operand becomes the event and the cast is erased.
 */
module YieldOpRewrite {
  import opened Wrappers
  import opened Ir
  import opened Edits
  import opened Rewriting

  /**
   * The first index from `i` on whose operand is a token cast from a chain
   * and a stream, as any_of over the enumerated operands finds it.
   */
  function FirstCast(g: Graph, vs: seq<Value>, i: nat): (r: Option<nat>)
    requires i <= |vs|
    ensures r.Some? ==> i <= r.value < |vs| && DefiningCast(g, vs[r.value]).Some?
    ensures r.Some? ==> forall j :: i <= j < r.value ==> DefiningCast(g, vs[j]).None?
    ensures r.None? ==> forall j :: i <= j < |vs| ==> DefiningCast(g, vs[j]).None?
    decreases |vs| - i
  {
    if i == |vs| then None
    else if DefiningCast(g, vs[i]).Some? then Some(i)
    else FirstCast(g, vs, i + 1)
  }

  /**
   * What the rewrite creates before the yield, numbered from `n`: the
   * context of `stream`, an event created on it, and the recording of that
   * event on `stream` against `chain`.
   */
  function Recorded(n: OpId, b: BlockId, chain: Value, stream: Value): seq<Op> {
    [Op(StreamGetContext, [stream], [ContextT], [], b),
     Op(EventCreate, [Res(n, 0)], [EventT], [], b),
     Op(EventRecord, [Res(n + 1, 0), stream, chain], [ChainT], [], b)]
  }

  /**
   * Operand `k` of `y`, defined by cast `c`, becomes an event recorded on the
   * cast's stream against its chain, created right before `y`; the cast is
   * erased.
   */
  function Convert(g: Graph, y: OpId, k: nat, c: OpId): Graph
    requires Valid(g) && Placed(g, y) && k < |g.ops[y].operands| && IsChainStreamCast(g, c)
  {
    var os := Recorded(g.nextOp, g.ops[y].parent, g.ops[c].operands[0], g.ops[c].operands[1]);
    var g2 := InsertSeq(g, y, os);
    assert g2.ops[y] == g.ops[y];
    Erase(SetOperand(g2, y, k, Res(g.nextOp + 1, 0)), c)
  }

  /** The rewrite of async.yield `y`; a failure leaves the graph as it was. */
  function Yield(g: Graph, y: OpId): Result<Graph, MatchFailure>
    requires Valid(g) && Placed(g, y)
  {
    var vs := g.ops[y].operands;
    match FirstCast(g, vs, 0)
    case None => Failure(NoCastToTokenOperand)
    case Some(k) => Success(Convert(g, y, k, DefiningCast(g, vs[k]).value))
  }

  /** The rewrite fails, leaving the graph as it was, exactly when no operand is a token cast from a chain and a stream. */
  lemma {:induction false} YieldFails(g: Graph, y: OpId)
    requires Valid(g) && Placed(g, y)
    ensures Yield(g, y).Failure? <==> forall j :: 0 <= j < |g.ops[y].operands| ==> DefiningCast(g, g.ops[y].operands[j]).None?
    ensures Yield(g, y).Failure? ==> Yield(g, y).error == NoCastToTokenOperand
  {
    var vs := g.ops[y].operands;
    var r := FirstCast(g, vs, 0);
    if r.Some? {
      assert DefiningCast(g, vs[r.value]).Some?;
    }
  }

  /**
   * `rs` holds the operations of `a` but cast `c`, the operations `os`
   * numbered from `n` in block `b`, and yield `y` with operand `k` set to
   * `ev`.
   */
  ghost predicate YieldOps(a: map<OpId, Op>, n: OpId, b: BlockId, y: OpId, k: nat, ev: Value, c: OpId, os: seq<Op>, rs: map<OpId, Op>) {
    && (forall o :: o in rs <==> (o in a && o != c) || n <= o < n + |os|)
    && (forall j :: 0 <= j < |os| ==> n + j in rs && rs[n + j] == os[j].(parent := b))
    && (forall o :: o in a && o != c && o != y ==> o in rs && rs[o] == a[o])
    && (y in a && y != c && k < |a[y].operands| ==> y in rs && rs[y] == a[y].(operands := a[y].operands[k := ev]))
  }

  /**
   * Converting operand `k` of `y`, defined by cast `c`, changes that operand
   * and only that one: the context, event and record operations
   * exist under the next free ids in the block of `y`, which lists them right
   * before `y`; operand `k` is now the event and every other operand is as
   * it was; cast `c` is gone from the arena and from every block; every other
   * operation is unchanged.
   */
  lemma {:induction false} YieldEffect(g: Graph, y: OpId, k: nat, c: OpId)
    requires WellFormed(g) && Placed(g, y) && g.ops[y].kind == OpKind.Yield
    requires k < |g.ops[y].operands| && IsChainStreamCast(g, c)
    ensures YieldOps(g.ops, g.nextOp, g.ops[y].parent, y, k, Res(g.nextOp + 1, 0), c,
                     Recorded(g.nextOp, g.ops[y].parent, g.ops[c].operands[0], g.ops[c].operands[1]), Convert(g, y, k, c).ops)
    ensures Convert(g, y, k, c).blocks == Removed(InsertedBlocks(g, y, 3), [c])
  {
    assert c != y;
    ConvertOps(g, y, k, c);
    YieldMap(g.ops, g.nextOp, g.ops[y].parent, y, k, Res(g.nextOp + 1, 0), c,
             Recorded(g.nextOp, g.ops[y].parent, g.ops[c].operands[0], g.ops[c].operands[1]), Convert(g, y, k, c).ops);
    ConvertBlocks(g, y, k, c);
  }

  /** A successful rewrite converts the first operand `k` that is a token cast, defined by cast `c`. */
  lemma {:induction false} YieldConverts(g: Graph, y: OpId, k: nat, c: OpId)
    requires Valid(g) && Placed(g, y)
    requires FirstCast(g, g.ops[y].operands, 0) == Some(k) && DefiningCast(g, g.ops[y].operands[k]) == Some(c)
    ensures Yield(g, y) == Success(Convert(g, y, k, c))
  {
  }

  lemma {:induction false} ConvertOps(g: Graph, y: OpId, k: nat, c: OpId)
    requires Valid(g) && Placed(g, y) && k < |g.ops[y].operands| && IsChainStreamCast(g, c)
    ensures Convert(g, y, k, c).ops
      == (g.ops + Numbered(Recorded(g.nextOp, g.ops[y].parent, g.ops[c].operands[0], g.ops[c].operands[1]), g.nextOp, g.ops[y].parent))
         [y := g.ops[y].(operands := g.ops[y].operands[k := Res(g.nextOp + 1, 0)])] - {c}
  {
    var os := Recorded(g.nextOp, g.ops[y].parent, g.ops[c].operands[0], g.ops[c].operands[1]);
    var g2 := InsertSeq(g, y, os);
    assert g2.ops == g.ops + Numbered(os, g.nextOp, g.ops[y].parent);
    assert g2.ops[y] == g.ops[y];
    var g3 := SetOperand(g2, y, k, Res(g.nextOp + 1, 0));
    assert g3.ops == g2.ops[y := g.ops[y].(operands := g.ops[y].operands[k := Res(g.nextOp + 1, 0)])];
    assert Convert(g, y, k, c).ops == Erase(g3, c).ops;
  }

  lemma {:induction false} ConvertBlocks(g: Graph, y: OpId, k: nat, c: OpId)
    requires WellFormed(g) && Placed(g, y) && k < |g.ops[y].operands| && IsChainStreamCast(g, c) && c != y
    ensures Convert(g, y, k, c).blocks == Removed(InsertedBlocks(g, y, 3), [c])
  {
    var os := Recorded(g.nextOp, g.ops[y].parent, g.ops[c].operands[0], g.ops[c].operands[1]);
    var g2 := InsertSeq(g, y, os);
    assert g2.ops[y] == g.ops[y] && g2.ops[c] == g.ops[c];
    var g3 := SetOperand(g2, y, k, Res(g.nextOp + 1, 0));
    assert Convert(g, y, k, c).blocks == Erase(g3, c).blocks;
    YieldBlocks(g, y, c, g3);
  }

  /** The operations `rs`, built from those of `a` as the rewrite builds them. */
  lemma {:induction false} YieldMap(a: map<OpId, Op>, n: OpId, b: BlockId, y: OpId, k: nat, ev: Value, c: OpId, os: seq<Op>, rs: map<OpId, Op>)
    requires (forall o :: o in a ==> o < n) && y in a && c in a && k < |a[y].operands|
    requires rs == (a + Numbered(os, n, b))[y := a[y].(operands := a[y].operands[k := ev])] - {c}
    ensures YieldOps(a, n, b, y, k, ev, c, os, rs)
  {
  }

  /** Erasing cast `c` once three operations were created before `y`. */
  lemma {:induction false} YieldBlocks(g: Graph, y: OpId, c: OpId, h: Graph)
    requires WellFormed(g) && Placed(g, y) && c in g.ops && c != y
    requires h.blocks == InsertedBlocks(g, y, 3) && c in h.ops && h.ops[c].parent == g.ops[c].parent
    ensures Erase(h, c).blocks == Removed(InsertedBlocks(g, y, 3), [c])
  {
    var b := g.ops[y].parent;
    var s := g.blocks[b].ops;
    var i := IndexOf(s, y);
    forall q | q in h.blocks && q != h.ops[c].parent
      ensures c !in h.blocks[q].ops
    {
      NotListedElsewhere(g, c, q);
      if q == b {
        NotInInserted(s, i, g.nextOp, 3, c);
      }
    }
    EraseListed(h, c);
  }

  /** An old operation not listed in a block is not listed once new ones were inserted into it. */
  lemma {:induction false} NotInInserted(s: seq<OpId>, i: nat, n: OpId, m: nat, x: OpId)
    requires i <= |s| && x !in s && x < n
    ensures x !in s[..i] + Ids(n, m) + s[i..]
  {
    PrefixMembers(s, i);
    SliceMembers(s, i);
    assert x !in Ids(n, m) by {
      forall j | 0 <= j < m
        ensures Ids(n, m)[j] != x
      {
      }
    }
  }

  /**
   * YieldOpRewritePattern::matchAndRewrite on the rewriter's arena: the
   * any_of loop over the operands stops at the first token cast, creates the
   * context, event and record before the yield, sets that operand to the
   * event and erases the cast.
   */
  method YieldInPlace(rw: Rewriter, y: OpId) returns (res: Result<(), MatchFailure>)
    requires Valid(rw.G()) && Placed(rw.G(), y)
    modifies rw
    ensures res.Success? == Yield(old(rw.G()), y).Success?
    ensures res.Failure? ==> res.error == Yield(old(rw.G()), y).error && rw.G() == old(rw.G())
    ensures res.Success? ==> rw.G() == Yield(old(rw.G()), y).value
  {
    var g := rw.G();
    var vs := g.ops[y].operands;
    var i := 0;
    while i < |vs|
      invariant i <= |vs|
      invariant FirstCast(g, vs, i) == FirstCast(g, vs, 0)
    {
      var cast := DefiningCast(g, vs[i]);
      if cast.Some? {
        var c := cast.value;
        var n := rw.nextOp;
        rw.InsertAll(y, Recorded(n, g.ops[y].parent, g.ops[c].operands[0], g.ops[c].operands[1]));
        assert rw.ops[y] == g.ops[y];
        rw.SetOperand(y, i, Res(n + 1, 0));
        rw.Erase(c);
        return Success(());
      }
      i := i + 1;
    }
    return Failure(NoCastToTokenOperand);
  }
}
