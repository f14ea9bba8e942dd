# GPU async lowering, modelled in Dafny

This project models the rewrite patterns that lower GPU code from the `gpu`
and `async` dialects to TFRT's chain-and-stream form, together with the
chain-threading envelope shared by the per-op lowerings. It also models the
metadata function of the CPU `tf.Mean` kernel.

The program representation is an arena (`Ir.Graph`). Operations and blocks
are addressed by integer ids. Blocks list their operations in program order.
Every operation records the block it sits in, and every block records the
operation owning it. Values are SSA values: a result of an operation or an
argument of a block. Each rewrite pattern appears in two forms:

- A function on the arena, returning `Result<Graph, MatchFailure>`. A match
  failure returns no arena, which stands for MLIR's rollback: the input is
  unchanged.
- A method on the class `Rewriting.Rewriter`, which owns the arena fields and
  updates them in place. The method follows the source's loops and edits,
  and is proved to produce exactly what the function produces.

The primitive edits of MLIR's rewriter live in module `Edits`: insert before,
erase, replace an operation, set operands, create a block, merge blocks and
splice. Every pattern is built from them.

Modules:

- `WrapRuns` groups a block into runs of legal operations.
- `WrapInAsyncExec` materialises those runs as `tfrt_gpu_conversion.async.execute` operations.
- `WrapFunctions` is the walk over the blocks of a function.
- `UnwrapAsyncExec`, `SignatureRewrite`, `WaitOpRewrite` and `YieldOpRewrite` are the remaining patterns of `pass.cc`.
- `AsyncOpConversion` is the envelope of `pass.h`.
- `TfMean` is `TfMeanOutputMd`.

Some lemmas require `Ir.WellFormed`, the structural invariant every MLIR
program satisfies: each operation is listed in its block exactly once, and
each block lists only operations that record it. The patterns assume the
shapes their op definitions guarantee:

- `UnwrapAsyncExec.ExecShaped`: an async.execute with one body block ending in a return with an operand.
- `SignatureRewrite.FuncShaped`: a function with an entry block whose arguments match its inputs, and a final terminator.
- `AsyncOpConversion.ExecsShaped`: every async.execute has a body ending in a terminator with an operand.

Three behaviours of the code are worth noting:

- **Trailing legal runs.** A trailing legal run at the end of a block is
  left unwrapped. The loop wraps a run only when it reaches an illegal
  operation after it (`pass.cc:193-203`; `WrapRuns.TrailingRunNotWrapped`).
- **Yield.** One application of the yield rewrite converts only the first
  operand that is a token cast. `any_of` stops at the first operand for
  which the conversion succeeds (`pass.cc:380-398`; `YieldOpRewrite.YieldConverts`).
- **Async waits.** For an async wait inside an async region, the emitted
  order is new chain, stream context, then (only without event operands) an
  event created and recorded, then a new stream, then the waits
  (`pass.cc:333-353`; `WaitOpRewrite.EmittedInAsync`).

## Model

| member | source | states |
|---|---|---|
| Ir.DefiningCast | backends/gpu/lib/pass/pass.cc:224-232 | A cast is returned only when the value is a result of a cast with exactly two operands, typed chain and stream. When none is returned, the value is not defined by such a cast. |
| WrapRuns.FlattenGrouped | backends/gpu/lib/pass/pass.cc:183-206 | Putting each group back in place of itself, in slot order, gives the original operation sequence of the block. |
| WrapRuns.GroupedShape | backends/gpu/lib/pass/pass.cc:186-203 | Every group is a non-empty, maximal run of legal operations, immediately followed by an illegal operation that stays in place. A legal operation stays in place only in the trailing run. |
| WrapRuns.GroupedChanges | backends/gpu/lib/pass/pass.cc:193-203 | Some group is created exactly when some legal operation is immediately followed by an illegal one. |
| WrapRuns.GroupedSplit | backends/gpu/lib/pass/pass.cc:187-204 | The grouping of a block splits at any point that follows an illegal operation: no run crosses it. |
| WrapRuns.GroupedClosedRun | backends/gpu/lib/pass/pass.cc:188-203 | A run of legal operations closed by an illegal one becomes one group followed by that illegal operation. |
| WrapRuns.TrailingRunNotWrapped | backends/gpu/lib/pass/pass.cc:188-194 | For legal a, b, d and illegal c, the block [a, b, c, d] becomes a group [a, b], then c and d in place: the trailing d is not wrapped. |
| WrapInAsyncExec.WrapBlockApplies | backends/gpu/lib/pass/pass.cc:185-205 | The block rewrite succeeds exactly when some legal operation is immediately followed by an illegal one. |
| WrapInAsyncExec.WrapBlockSpec | backends/gpu/lib/pass/pass.cc:196-202 | The block now lists the kept operations in place and one new async.execute per group. Each new async.execute has a new body block holding its run in the original order. The groups and kept operations give back the original block. Everything else is unchanged except the block of the moved operations. Ids stay valid. |
| WrapInAsyncExec.WrapBlockRoundTrip | backends/gpu/lib/pass/pass.cc:196-202 | Replacing every new async.execute of the rewritten block by the operations of its body gives back the original operation sequence. |
| WrapInAsyncExec.WrapBlockKeeps | backends/gpu/lib/pass/pass.cc:196-202 | The rewrite keeps ids valid and never reuses an id. It leaves every other block alone. Every existing operation keeps its kind, operands, results and region. |
| WrapInAsyncExec.MaterializeShape | backends/gpu/lib/pass/pass.cc:196-202 | Materialising slots lists the kept operations and one new async.execute per group, and uses two fresh operation ids and one fresh block id per group. |
| WrapInAsyncExec.ScanIsWrapBlock | backends/gpu/lib/pass/pass.cc:185-205 | The loop's sequence of wraps, with the legal-run cursor and the first illegal operation after it, performs exactly the block rewrite. The loop wraps something exactly when the rewrite succeeds. |
| WrapInAsyncExec.BlockLoopStep | backends/gpu/lib/pass/pass.cc:188-203 | One iteration of the loop over the block's operations preserves the loop state: cursor, position, success flag and the wraps performed so far. |
| WrapInAsyncExec.WrapBlockInPlace | backends/gpu/lib/pass/pass.cc:183-206 | The in-place loop reports success exactly when the block rewrite succeeds. On success it leaves the rewritten arena, otherwise the arena as it was. |
| WrapFunctions.WrapBlocksUnchanged | backends/gpu/lib/pass/pass.cc:168-178 | While no block was rewritten, the arena is the one the walk started from. The result flag is the incoming flag or the result of the walk. |
| WrapFunctions.WrapBlocksApplies | backends/gpu/lib/pass/pass.cc:169-175 | The walk rewrites something exactly when one of the visited blocks, as it stood before the walk, is outside an async.execute and holds a legal operation directly followed by an illegal one. |
| WrapFunctions.WrapFunctionApplies | backends/gpu/lib/pass/pass.cc:165-179 | The function rewrite succeeds exactly when some block of the function that is not an async.execute body can be wrapped. |
| WrapFunctions.WrapFunctionKeeps | backends/gpu/lib/pass/pass.cc:169-171 | The function rewrite keeps ids valid and leaves every async.execute body exactly as it was. |
| WrapFunctions.WrapBlocksRestores | backends/gpu/lib/pass/pass.cc:169-175 | Walking distinct blocks keeps every block of the original arena restorable. Each block lists only its original operations and new async.execute operations, each with a new body. Inlining those bodies gives back the block's original operations. |
| WrapFunctions.WrapBlocksFrame | backends/gpu/lib/pass/pass.cc:169-175 | A block the walk does not visit is left exactly as it was. |
| WrapFunctions.WrapFunctionRoundTrip | backends/gpu/lib/pass/pass.cc:165-179 | After the function rewrite, for every block of the arena, inlining the bodies of the new async.execute operations gives back that block's original operations. Blocks the walk skips are unchanged. |
| WrapFunctions.WrapFunctionInPlace | backends/gpu/lib/pass/pass.cc:165-179 | The in-place walk reports success exactly when the function rewrite succeeds. On failure the arena is as it was. |
| UnwrapAsyncExec.UnwrapSpec | backends/gpu/lib/pass/pass.cc:234-252 | The rewrite fails with "no operands or no result" exactly when the async.execute lacks operands or a token result. It fails with "expected cast to token" exactly when its first operand is not a chain-and-stream cast. Otherwise: the body's operations other than the terminator are spliced, in order, where the async.execute stood; body arguments are bound to the cast's operands; the async.execute is replaced by a cast of the returned chain and the cast's stream; the terminator, the body block and the old cast are gone. |
| UnwrapAsyncExec.UnwrapInPlace | backends/gpu/lib/pass/pass.cc:234-252 | The in-place merge, replace and erase steps succeed exactly when the rewrite does, and leave its result; they return the new cast. |
| SignatureRewrite.SignatureSpec | backends/gpu/lib/pass/pass.cc:254-284 | The rewrite fails with "Expected no result" exactly when the function has results. Otherwise: the function takes chain, stream, then the old inputs, and returns one chain; a new entry block holds the old entry's operations; the last terminator becomes a return of the new chain argument; nothing else changes. |
| SignatureRewrite.SignatureLegal | backends/gpu/lib/pass/pass.cc:430-437 | The rewritten function satisfies the dynamic legality predicate: one chain result, and chain and stream as leading inputs followed by the old inputs. |
| SignatureRewrite.SignatureArgs | backends/gpu/lib/pass/pass.cc:271-276 | The new entry block takes a chain, a stream and then the old argument types. Each use of old entry argument i becomes a use of new argument i + 2, of the same type. The old entry block is gone. |
| SignatureRewrite.SignatureTerminator | backends/gpu/lib/pass/pass.cc:278-281 | The terminator of the last block is a new return whose only operand is the new chain argument 0. |
| SignatureRewrite.SignatureAsWrittenBlocks | backends/gpu/lib/pass/pass.cc:271-281 | With the return created at the end of the new entry block, a one-block function ends in the return where its terminator stood. With more blocks, the entry block keeps all of its operations and gains the return after them, and the last block loses its terminator. |
| SignatureRewrite.SignatureAsWrittenSplit | backends/gpu/lib/pass/pass.cc:271-281 | For a function whose entry and last block differ, the code as written appends the return to the entry block's operations and drops the last block's terminator. |
| SignatureRewrite.SignatureAsWrittenTwoBlocks | backends/gpu/lib/pass/pass.cc:271-281 | On a well-formed function whose body is an entry block with one operation and a block holding the terminator, the code as written leaves entry [op, return] and an empty last block. |
| SignatureRewrite.SignatureOnce | backends/gpu/lib/pass/pass.cc:256-257 | The rewritten function keeps its shape but now has a result, so a second application fails with "Expected no result". |
| SignatureRewrite.SignatureInPlace | backends/gpu/lib/pass/pass.cc:254-284 | The in-place type update, block creation, merge and return replacement succeed exactly when the rewrite does, and leave its result. |
| WaitOpRewrite.GatherOk | backends/gpu/lib/pass/pass.cc:312-327 | The operand loop succeeds exactly when every operand is an event or a chain-and-stream cast. Otherwise it fails with "expected event or cast to token". |
| WaitOpRewrite.GatherValue | backends/gpu/lib/pass/pass.cc:314-325 | A successful operand loop collects the events in order and the casts in order. It continues from the chain and stream of the last cast, or from the function's arguments without one. |
| WaitOpRewrite.WaitFailures | backends/gpu/lib/pass/pass.cc:289-329 | The rewrite fails exactly in these cases, checked in this order, and otherwise succeeds: the enclosing function does not take a chain and a stream first; its terminator's operand 0 is not a chain; some operand is neither an event nor a cast; more than one operand is a cast. |
| WaitOpRewrite.WaitLowers | backends/gpu/lib/pass/pass.cc:307-372 | A successful rewrite lowers the event operands, in order, starting from the chain and stream of the single cast, or of the function's arguments without one. |
| WaitOpRewrite.WaitsThreaded | backends/gpu/lib/pass/pass.cc:349-353 | One StreamWait per event, in event order, on the target stream. The first consumes the incoming chain and each later one consumes the chain of the wait before it. |
| WaitOpRewrite.EmittedPlain | backends/gpu/lib/pass/pass.cc:349-353 | Outside the async case, exactly one StreamWait per event operand is emitted, in operand order, threading the chain. The final chain is that of the last wait, or the incoming chain when there are no events. |
| WaitOpRewrite.EmittedInAsync | backends/gpu/lib/pass/pass.cc:333-353 | An async wait inside an async region emits, in order: a new chain and the stream's context; only without event operands, an event created on it and recorded on the old stream; a new stream; then waits on the events, or one wait on the recorded event. It ends with the last wait's chain and the new stream. |
| WaitOpRewrite.EmittedWaitCount | backends/gpu/lib/pass/pass.cc:340-353 | The number of StreamWaits emitted is the number of event operands. An async wait inside an async region without event operands emits exactly one. |
| WaitOpRewrite.LowerPlain | backends/gpu/lib/pass/pass.cc:360-372 | For a wait without result, the emitted operations stand where the wait was. Operand 0 of the function terminator becomes the final chain. The wait and the cast are erased; every other operation is unchanged. |
| WaitOpRewrite.LowerAsync | backends/gpu/lib/pass/pass.cc:355-359 | For an async wait, the emitted operations and then a token cast of the final chain and stream stand where the wait was. Every use of the wait's token uses the new cast. The erased cast is gone; nothing else changes. |
| WaitOpRewrite.EmitLowering | backends/gpu/lib/pass/pass.cc:331-353 | The in-place emission inserts exactly the operations the lowering specifies before the wait, and returns the final chain and stream. |
| WaitOpRewrite.EmitWaits | backends/gpu/lib/pass/pass.cc:349-353 | The in-place loop inserts one StreamWait per event before the wait, threading the chain, and returns the last chain. |
| WaitOpRewrite.WaitInPlace | backends/gpu/lib/pass/pass.cc:286-375 | The in-place checks, operand loop, emission and replacement or erasure succeed exactly when the rewrite does. On failure they return its error and leave the arena as it was; on success they leave its result. |
| YieldOpRewrite.FirstCast | backends/gpu/lib/pass/pass.cc:380-382 | The index found is the first operand, from the start index on, that is a chain-and-stream cast. No operand is one when none is found. |
| YieldOpRewrite.YieldFails | backends/gpu/lib/pass/pass.cc:380-400 | The rewrite fails with "no cast to token operand" exactly when no operand is a chain-and-stream cast. |
| YieldOpRewrite.YieldConverts | backends/gpu/lib/pass/pass.cc:380-398 | A successful rewrite converts the first cast operand only. |
| YieldOpRewrite.YieldEffect | backends/gpu/lib/pass/pass.cc:384-395 | Converting operand k creates the stream context, an event and its record on the cast's stream against the cast's chain, right before the yield. Operand k becomes the event and every other operand is unchanged. The cast is erased and every other operation is unchanged. |
| YieldOpRewrite.YieldInPlace | backends/gpu/lib/pass/pass.cc:377-402 | The in-place loop succeeds exactly when the rewrite does. On failure it leaves the arena as it was; on success it leaves the rewrite's result. |
| AsyncOpConversion.GetStream | backends/gpu/lib/pass/pass.cc:42-46 | A stream is returned exactly when the parent is an async.execute, and it is argument 1 of the body. |
| AsyncOpConversion.GetChain | backends/gpu/lib/pass/pass.cc:47-51 | A chain is returned exactly when the parent is an async.execute, and it is operand 0 of the terminator of the body's last block. |
| AsyncOpConversion.EnvelopeNeedsExec | backends/gpu/include/tfrt/gpu/pass/pass.h:46-50 | The envelope fails with a missing chain and stream exactly when the operation is not directly inside an async.execute. Its result then does not depend on the lowering, which is not consulted. |
| AsyncOpConversion.EnvelopeInputs | backends/gpu/include/tfrt/gpu/pass/pass.h:47-53 | The lowering is consulted only on the chain returned by the body's terminator and on body argument 1. The envelope fails, with the arena untouched, exactly when the lowering fails. |
| AsyncOpConversion.SetChainThreads | backends/gpu/lib/pass/pass.cc:52-57 | After SetChain the body terminator's operands are exactly the output chain and nothing else changes. The next lowering in the body starts from that chain, on the same stream. |
| AsyncOpConversion.EnvelopeInPlace | backends/gpu/include/tfrt/gpu/pass/pass.h:43-56 | The in-place envelope succeeds exactly when the envelope does. On failure it leaves the arena as it was; on success it leaves the envelope's result. |
| TfMean.CheckValid | backends/cpu/lib/ops/tf/cpu_ops.cc:110-117 | The index check passes exactly when every reduction index lies in [0, rank) and none repeats. |
| TfMean.CheckOutOfRange | backends/cpu/lib/ops/tf/cpu_ops.cc:110-114 | The check fails with the out-of-range error exactly when some index is out of range while every index before it is in range and new. |
| TfMean.CheckPrefix | backends/cpu/lib/ops/tf/cpu_ops.cc:110-117 | Once the check failed on a prefix of the indices, it fails the same way on all of them: the first failure wins. |
| TfMean.KeptAtPositions | backends/cpu/lib/ops/tf/cpu_ops.cc:121-126 | The kept dimensions are the dimension sizes at the positions not reduced, in increasing order of position. |
| TfMean.CountIndices | backends/cpu/lib/ops/tf/cpu_ops.cc:110-118 | Valid reduction indices mark exactly as many positions below the rank as there are indices. |
| TfMean.MeanOutputShape | backends/cpu/lib/ops/tf/cpu_ops.cc:119-128 | On success the output has the input's element type. Its rank is the input rank minus the number of indices, and its dimensions are the input dimensions at the positions not reduced, in order. |
| TfMean.MeanNoIndices | backends/cpu/lib/ops/tf/cpu_ops.cc:105-128 | With no reduction indices the output metadata is the input's element type and shape. |
| TfMean.TfMeanOutputMd | backends/cpu/lib/ops/tf/cpu_ops.cc:105-129 | The two loops, over a flag array per dimension, return exactly the metadata the index check and the kept dimensions define, including which error is met first. |

## Findings

| source | as written | input that shows it | evidently intended | confidence | as-written member | corrected member |
|---|---|---|---|---|---|---|
| backends/gpu/lib/pass/pass.cc:274-281 | `createBlock` leaves the insertion point at the end of the new entry block, so the new return is created there rather than at the terminator it replaces | a function whose body has two blocks: the entry ends up with its own operations followed by the return, and the last block has no terminator | the new return replaces the last block's terminator in place | medium, not executed (depends on `createBlock` moving the insertion point and `replaceOpWithNewOp` building at it) | SignatureRewrite.SignatureAsWrittenTwoBlocks | SignatureRewrite.SignatureTerminator |

`SignatureRewrite.SignatureAsWritten` models the code as written. `SignatureRewrite.Signature`, which the rest of the model uses, builds the return where the old terminator stood. `SignatureRewrite.SignatureTerminator` proves that the last block then ends in the new return.

## Left out

- MLIR's pattern driver and the `ConversionPatternRewriter` rollback are out of scope. A failing pattern returns no arena. The erasures a conversion pattern schedules happen at its end (the casts erased in the wait operand loop go last), and a rolled-back failure leaves nothing.
- The `TypeConverter` and the `populate*` registration functions (`pass.cc:404-438`) are out of scope, except the function legality predicate (`Ir.FuncLegal`). The set of legal operations that `WrapInAsyncExec` consults is a parameter.
- FoldMemrefViewPattern (`pass.cc:208-221`) is not modelled: it only matches memref views of GPU buffers, with no effect on chains or streams.
- The runtime meaning of chains, streams and events (device ordering, host synchronisation) is not modelled. Only the emitted operation sequences are.
- The op-specific lowering of the envelope is a function parameter (`AsyncOpConversion.Lowering`), since it is defined per operation elsewhere.
- The builder of `async.execute` is not part of this model. Its result is assumed: a body block with chain and stream arguments, ending in a return of argument 0, and one token result.
- WrapFunctions.WrapFunctionInPlace: walks the block list taken before the walk starts. This is equivalent to MLIR's post-order walk, because rewriting a block changes only that block and creates bodies that the walk does not visit.
- WrapFunctions.WrapFunctionInPlace: does not model the skip that the walk returns for async.execute bodies. In a post-order walk that skip does not prune anything.
- Nesting depth: walks and ancestor searches are bounded by the number of operations, which no well-formed nesting exceeds.
- AsyncOpConversion.SetChain: when the output chain has no enclosing region with a terminator, the model leaves the arena as it is. The source would dereference a null terminator there.
- Match-failure messages are enum values (`Ir.MatchFailure`, `TfMean.MeanError`), not strings.
- Preservation of `Ir.WellFormed` is proved only where a later lemma needs it: id validity for the wrap and signature rewrites, and the signature rewrite's shape. It is not proved for every rewrite.
- TfMean.TfMeanOutputMd: reduction indices are unbounded integers and dimension sizes are integers. The 32-bit index elements and `ssize_t` sizes of the source cannot overflow here, since indices are only compared with the rank. Element types are opaque codes.
- The numeric kernels and registration in `cpu_ops.cc` are out of scope.
- WrapFunctions.WrapFunctionRoundTrip: requires that the walk visits no block twice. MLIR guarantees this because each block belongs to exactly one region. The arena does not encode that, and the lemma does not derive it.
