/**
 * GpuAsyncOpConversionPattern: the envelope around the lowering of one
 * operation placed directly in the body of a tfrt_gpu_conversion.async.execute.
 * The envelope reads the stream (argument 1 of the body) and the current
 * chain (operand 0 of the body's terminator), hands both to the op-specific
 * lowering, and threads the chain the lowering returns into the terminator,
 * so that the next operation lowered in the same body starts from it.
 */
module AsyncOpConversion {
  import opened Wrappers
  import opened Ir
  import opened Edits
  import opened Rewriting

  /**
   * The op-specific lowering (matchAndRewriteOp): given the arena, the
   * operation, the input chain and the stream, either the rewritten arena
   * and the output chain, or None when it fails.
   */
  type Lowering = (Graph, OpId, Value, Value) -> Option<(Graph, Value)>

  /** `p` is an async.execute of the conversion dialect. */
  predicate IsExec(g: Graph, p: OpId) {
    p in g.ops && g.ops[p].kind == AsyncExecute
  }

  /**
   * What the op definition guarantees of an async.execute: a body whose
   * last block ends in a terminator with an operand, the chain it returns.
   */
  predicate ExecBody(g: Graph, p: OpId) {
    && IsExec(g, p) && g.ops[p].regions != []
    && RegionTerminator(g, p).Some? && RegionTerminator(g, p).value in g.ops
    && g.ops[RegionTerminator(g, p).value].operands != []
  }

  /** Every async.execute of the arena has the body its op definition guarantees. */
  ghost predicate ExecsShaped(g: Graph) {
    forall p :: IsExec(g, p) ==> ExecBody(g, p)
  }

  /** GpuAsyncOpConversionGetStream: argument 1 of the body of an async.execute `parent`, none otherwise. */
  function GetStream(g: Graph, parent: Option<OpId>): (r: Option<Value>)
    requires parent.Some? && IsExec(g, parent.value) ==> ExecBody(g, parent.value)
    ensures r.Some? <==> parent.Some? && IsExec(g, parent.value)
    ensures r.Some? ==> r.value == Arg(g.ops[parent.value].regions[0], 1)
  {
    if parent.Some? && IsExec(g, parent.value) then Some(Arg(g.ops[parent.value].regions[0], 1)) else None
  }

  /**
   * GpuAsyncOpConversionGetChain: operand 0 of the terminator of the last
   * block of the body of an async.execute `parent`, none otherwise.
   */
  function GetChain(g: Graph, parent: Option<OpId>): (r: Option<Value>)
    requires parent.Some? && IsExec(g, parent.value) ==> ExecBody(g, parent.value)
    ensures r.Some? <==> parent.Some? && IsExec(g, parent.value)
    ensures r.Some? ==> r.value == g.ops[RegionTerminator(g, parent.value).value].operands[0]
  {
    if parent.Some? && IsExec(g, parent.value) then Some(g.ops[RegionTerminator(g, parent.value).value].operands[0]) else None
  }

  /** The operation whose region holds the definition of `v`. */
  function RegionOwner(g: Graph, v: Value): Option<OpId> {
    match v
    case Res(o, _) => ParentOp(g, o)
    case Arg(b, _) => if b in g.blocks then Some(g.blocks[b].parent) else None
  }

  /**
   * GpuAsyncOpConversionSetChain: the terminator of the last block of the
   * region defining `chain` returns exactly `chain`.  Without such a
   * terminator the arena is left as it is.
   */
  function SetChain(g: Graph, chain: Value): Graph {
    var owner := RegionOwner(g, chain);
    if owner.Some? && RegionTerminator(g, owner.value).Some? && RegionTerminator(g, owner.value).value in g.ops
    then SetOperands(g, RegionTerminator(g, owner.value).value, [chain])
    else g
  }

  /**
   * The envelope's matchAndRewrite on operation `x`: it fails without
   * consulting the lowering unless `x` sits in an async.execute; it fails
   * when the lowering fails; otherwise it threads the lowering's output
   * chain into the terminator.  A failure leaves the arena as it was.
   */
  function Envelope(g: Graph, x: OpId, lower: Lowering): Result<Graph, MatchFailure>
    requires ExecsShaped(g)
  {
    var parent := ParentOp(g, x);
    var inChain := GetChain(g, parent);
    var stream := GetStream(g, parent);
    if inChain.None? || stream.None? then Failure(NoChainAndStream)
    else match lower(g, x, inChain.value, stream.value)
      case None => Failure(LoweringFailed)
      case Some(out) => Success(SetChain(out.0, out.1))
  }

  /**
   * The envelope fails with NoChainAndStream exactly when `x` is not placed
   * directly in an async.execute; then its result is the same whatever the
   * lowering, which is not consulted.
   */
  lemma {:induction false} EnvelopeNeedsExec(g: Graph, x: OpId, lower: Lowering, other: Lowering)
    requires ExecsShaped(g)
    ensures Envelope(g, x, lower) == Failure(NoChainAndStream)
      <==> !(ParentOp(g, x).Some? && IsExec(g, ParentOp(g, x).value))
    ensures !(ParentOp(g, x).Some? && IsExec(g, ParentOp(g, x).value)) ==> Envelope(g, x, lower) == Envelope(g, x, other)
  {
  }

  /**
   * Inside async.execute `p`, the envelope consults the lowering only on the
   * chain the body's terminator returns and on argument 1 of the body: two
   * lowerings that agree there give the same result.  When the lowering
   * fails, so does the envelope, leaving the arena as it was.
   */
  lemma {:induction false} EnvelopeInputs(g: Graph, x: OpId, p: OpId, lower: Lowering, other: Lowering)
    requires ExecsShaped(g) && ParentOp(g, x) == Some(p) && IsExec(g, p)
    requires var chain := g.ops[RegionTerminator(g, p).value].operands[0];
      lower(g, x, chain, Arg(g.ops[p].regions[0], 1)) == other(g, x, chain, Arg(g.ops[p].regions[0], 1))
    ensures Envelope(g, x, lower) == Envelope(g, x, other)
    ensures lower(g, x, g.ops[RegionTerminator(g, p).value].operands[0], Arg(g.ops[p].regions[0], 1)).None?
      <==> Envelope(g, x, lower) == Failure(LoweringFailed)
  {
  }

  /**
   * Once the lowering succeeded with arena `h` and output chain `out`
   * defined in the body of async.execute `p`, the terminator of that body
   * returns exactly `out` and nothing else changed; the chain the next
   * lowering in the same body starts from is `out`, and the stream is the
   * same.
   */
  lemma {:induction false} SetChainThreads(h: Graph, p: OpId, out: Value)
    requires ExecBody(h, p) && RegionOwner(h, out) == Some(p)
    ensures var t := RegionTerminator(h, p).value;
      && SetChain(h, out).ops == h.ops[t := h.ops[t].(operands := [out])]
      && SetChain(h, out).blocks == h.blocks
    ensures ExecBody(SetChain(h, out), p)
    ensures GetChain(SetChain(h, out), Some(p)) == Some(out)
    ensures GetStream(SetChain(h, out), Some(p)) == GetStream(h, Some(p))
  {
    var t := RegionTerminator(h, p).value;
    var r := SetChain(h, out);
    assert r == SetOperands(h, t, [out]);
    if t == p {
      assert r.ops[p].regions == h.ops[p].regions;
    }
    assert RegionTerminator(r, p) == RegionTerminator(h, p);
  }

  /**
   * GpuAsyncOpConversionPattern::matchAndRewrite on the rewriter's arena: it
   * reads chain and stream from the parent, runs the lowering, and on success
   * sets the operands of the terminator of the output chain's region.
   */
  method EnvelopeInPlace(rw: Rewriter, x: OpId, lower: Lowering) returns (res: Result<(), MatchFailure>)
    requires ExecsShaped(rw.G())
    modifies rw
    ensures res.Success? == Envelope(old(rw.G()), x, lower).Success?
    ensures res.Failure? ==> res.error == Envelope(old(rw.G()), x, lower).error && rw.G() == old(rw.G())
    ensures res.Success? ==> rw.G() == Envelope(old(rw.G()), x, lower).value
  {
    var g := rw.G();
    var parent := ParentOp(g, x);
    var inChain := GetChain(g, parent);
    var stream := GetStream(g, parent);
    if inChain.None? || stream.None? {
      return Failure(NoChainAndStream);
    }
    var out := lower(g, x, inChain.value, stream.value);
    if out.None? {
      return Failure(LoweringFailed);
    }
    rw.Set(out.value.0);
    var chain := out.value.1;
    var owner := RegionOwner(rw.G(), chain);
    if owner.Some? {
      var t := RegionTerminator(rw.G(), owner.value);
      if t.Some? && t.value in rw.ops {
        rw.SetOperands(t.value, [chain]);
      }
    }
    return Success(());
  }
}
