/**
 * The program representation the GPU async lowering works on: an arena of
 * operations addressed by integer ids, grouped into blocks that list their
 * operations in program order.  Each operation may own a region (a list of
 * blocks) and records the block it sits in; each block records the operation
 * that owns it.  Values are SSA values: a result of an operation or an
 * argument of a block.
 */
module Ir {
  import opened Wrappers

  type OpId = nat
  type BlockId = nat

  /** The value types the rewrites distinguish; every other type is OtherT. */
  datatype Type = ChainT | StreamT | EventT | TokenT | ContextT | OtherT

  datatype Value = Res(op: OpId, index: nat) | Arg(block: BlockId, index: nat)

  /** The closed set of operation kinds the rewrites look at. */
  datatype OpKind =
    | Generic                                      // any operation of another dialect
    | Func(inputs: seq<Type>, outputs: seq<Type>)  // a function and its function type
    | AsyncExecute                                 // tfrt_gpu_conversion.async.execute
    | AsyncRegion                                  // async.execute of the async dialect
    | Cast                                         // tfrt_gpu_conversion.cast
    | Wait                                         // gpu.wait, async when it has a result
    | Yield                                        // async.yield
    | Return                                       // a block terminator returning its operands
    | NewChain
    | StreamGetContext
    | EventCreate
    | EventRecord
    | StreamCreate
    | StreamWait

  /**
   * An operation: its kind, operands, result types, the blocks of its region
   * (empty when it has none) and the block it is placed in.
   */
  datatype Op = Op(kind: OpKind, operands: seq<Value>, results: seq<Type>, regions: seq<BlockId>, parent: BlockId)

  /** A block: the operation owning it, its argument types and its operations in order. */
  datatype Block = Block(parent: OpId, args: seq<Type>, ops: seq<OpId>)

  /** The arena, with the next free operation and block ids. */
  datatype Graph = Graph(ops: map<OpId, Op>, blocks: map<BlockId, Block>, nextOp: OpId, nextBlock: BlockId)

  /** Why a rewrite did not apply; a failed rewrite leaves the graph untouched. */
  datatype MatchFailure =
    | NoLegalRun               // the wrapping rewrite changed no block
    | NoOperandsOrResult
    | ExpectedCastToToken
    | ExpectedNoResult
    | NotInChainStreamFunc
    | NotInFuncReturningChain
    | ExpectedEventOrCast
    | MoreThanOneToken
    | NoCastToTokenOperand
    | NoChainAndStream
    | LoweringFailed

  /** Every id in use lies below the next free id, so freshly created ids are unused. */
  ghost predicate Valid(g: Graph) {
    (forall o :: o in g.ops ==> o < g.nextOp) && (forall b :: b in g.blocks ==> b < g.nextBlock)
  }

  /**
   * The structural invariants of the IR that the rewrites rely on: ids are
   * valid, every operation sits in an existing block that lists it, every
   * operation listed in a block exists and records that block, and no block
   * lists an operation twice.
   */
  ghost predicate WellFormed(g: Graph) {
    && Valid(g)
    && (forall o :: o in g.ops ==> g.ops[o].parent in g.blocks && o in g.blocks[g.ops[o].parent].ops)
    && (forall c, k :: c in g.blocks && 0 <= k < |g.blocks[c].ops| ==>
          g.blocks[c].ops[k] in g.ops && g.ops[g.blocks[c].ops[k]].parent == c)
    && (forall c, k, l :: c in g.blocks && 0 <= k < l < |g.blocks[c].ops| ==> g.blocks[c].ops[k] != g.blocks[c].ops[l])
  }

  function TypeOf(g: Graph, v: Value): Option<Type> {
    match v
    case Res(o, i) => if o in g.ops && i < |g.ops[o].results| then Some(g.ops[o].results[i]) else None
    case Arg(b, i) => if b in g.blocks && i < |g.blocks[b].args| then Some(g.blocks[b].args[i]) else None
  }

  predicate HasType(g: Graph, v: Value, t: Type) {
    TypeOf(g, v) == Some(t)
  }

  /** A cast of exactly two operands typed chain and stream. */
  predicate IsChainStreamCast(g: Graph, c: OpId) {
    c in g.ops && g.ops[c].kind == Cast && |g.ops[c].operands| == 2
    && HasType(g, g.ops[c].operands[0], ChainT) && HasType(g, g.ops[c].operands[1], StreamT)
  }

  /** The cast defining `v`, when `v` is a result of a (chain, stream) cast. */
  function DefiningCast(g: Graph, v: Value): (r: Option<OpId>)
    ensures r.Some? ==> v == Res(r.value, v.index) && IsChainStreamCast(g, r.value)
    ensures r.None? ==> !(v.Res? && IsChainStreamCast(g, v.op))
  {
    if v.Res? && IsChainStreamCast(g, v.op) then Some(v.op) else None
  }

  /** The operation owning the block that `o` is placed in. */
  function ParentOp(g: Graph, o: OpId): Option<OpId> {
    if o in g.ops && g.ops[o].parent in g.blocks then Some(g.blocks[g.ops[o].parent].parent) else None
  }

  /** The enclosing operations of `o`, nearest first, at most `fuel` of them. */
  function Ancestors(g: Graph, o: OpId, fuel: nat): seq<OpId>
    decreases fuel
  {
    if fuel == 0 then []
    else match ParentOp(g, o)
      case None => []
      case Some(p) => [p] + Ancestors(g, p, fuel - 1)
  }

  /** The first function among `anc`. */
  function FirstFunc(g: Graph, anc: seq<OpId>): (r: Option<OpId>)
    ensures r.Some? ==> r.value in anc && r.value in g.ops && g.ops[r.value].kind.Func?
  {
    if anc == [] then None
    else if anc[0] in g.ops && g.ops[anc[0]].kind.Func? then Some(anc[0])
    else FirstFunc(g, anc[1..])
  }

  /** getParentOfType<FuncOp>: the nearest enclosing function of `o`. */
  function EnclosingFunc(g: Graph, o: OpId): Option<OpId> {
    FirstFunc(g, Ancestors(g, o, |g.ops|))
  }

  /** getParentOfType<async::ExecuteOp> is non-null: some enclosing operation is an async.execute. */
  predicate InsideAsyncRegion(g: Graph, o: OpId) {
    exists a :: a in Ancestors(g, o, |g.ops|) && a in g.ops && g.ops[a].kind == AsyncRegion
  }

  function Last<T>(s: seq<T>): T
    requires s != []
  {
    s[|s| - 1]
  }

  /** The terminator of block `b`: its last operation. */
  function Terminator(g: Graph, b: BlockId): Option<OpId> {
    if b in g.blocks && g.blocks[b].ops != [] then Some(Last(g.blocks[b].ops)) else None
  }

  /** The terminator of the last block of the region of `o`. */
  function RegionTerminator(g: Graph, o: OpId): Option<OpId> {
    if o in g.ops && g.ops[o].regions != [] then Terminator(g, Last(g.ops[o].regions)) else None
  }

  /**
   * The dynamic legality of a function once converted: it returns exactly
   * one chain and takes at least a chain and a stream as leading inputs.
   */
  predicate FuncLegal(k: OpKind) {
    k.Func? && |k.outputs| == 1 && k.outputs[0] == ChainT
    && |k.inputs| >= 2 && k.inputs[0] == ChainT && k.inputs[1] == StreamT
  }
}
