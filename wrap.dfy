/**
 * WrapInAsyncExecPattern: inside a function, every maximal run of legal
 * operations that is followed by an illegal operation is moved into a new
 * tfrt_gpu_conversion.async.execute placed where the run began.  Blocks
 * whose parent is such an async.execute are skipped.
 */
module WrapInAsyncExec {
  import opened Wrappers
  import opened Ir
  import opened Edits
  import opened WrapRuns
  import opened Rewriting

  /**
   * The rewrite of one run: an async.execute is created at index `pos` of
   * block `b`, and the `n` operations that followed it are spliced to the
   * front of its body, before the body's terminator.
   */
  function WrapRunAt(g: Graph, b: BlockId, pos: nat, n: nat): (r: Graph)
    requires b in g.blocks && b < g.nextBlock && pos + n <= |g.blocks[b].ops|
    ensures b in r.blocks
    ensures r.blocks[b].ops == g.blocks[b].ops[..pos] + [g.nextOp] + g.blocks[b].ops[pos + n..]
    ensures r.nextOp == g.nextOp + 2 && r.nextBlock == g.nextBlock + 1
    ensures r.ops.Keys == g.ops.Keys + {g.nextOp, g.nextOp + 1}
    ensures r.blocks.Keys == g.blocks.Keys + {g.nextBlock}
  {
    var s := g.blocks[b].ops;
    var a := g.nextOp;
    var body := g.nextBlock;
    var run := s[pos..pos + n];
    g.(ops := Reparent(g.ops[a := Op(AsyncExecute, [], [TokenT], [body], b)][a + 1 := Op(Return, [Arg(body, 0)], [], [], body)], run, body),
       blocks := g.blocks[b := g.blocks[b].(ops := s[..pos] + [a] + s[pos + n..])][body := Block(a, [ChainT, StreamT], run + [a + 1])],
       nextOp := a + 2,
       nextBlock := body + 1)
  }

  /** Creating the async.execute at `pos` and splicing the `n` operations after it into its body is WrapRunAt. */
  lemma {:induction false} WrapRunAtIs(g: Graph, b: BlockId, pos: nat, n: nat)
    requires b in g.blocks && b < g.nextBlock && pos + n <= |g.blocks[b].ops|
    ensures WrapRunAt(g, b, pos, n)
         == SpliceToFront(CreateExecAt(g, b, pos).0, b, pos + 1, n, CreateExecAt(g, b, pos).2)
  {
    CreateSpliceOps(g, b, pos, n);
    CreateSpliceBlocks(g, b, pos, n);
    SameGraph(WrapRunAt(g, b, pos, n), SpliceToFront(CreateExecAt(g, b, pos).0, b, pos + 1, n, CreateExecAt(g, b, pos).2));
  }

  lemma {:induction false} SameGraph(x: Graph, y: Graph)
    requires x.ops == y.ops && x.blocks == y.blocks && x.nextOp == y.nextOp && x.nextBlock == y.nextBlock
    ensures x == y
  {
  }

  lemma {:induction false} CreateSpliceOps(g: Graph, b: BlockId, pos: nat, n: nat)
    requires b in g.blocks && b < g.nextBlock && pos + n <= |g.blocks[b].ops|
    ensures WrapRunAt(g, b, pos, n).ops
         == SpliceToFront(CreateExecAt(g, b, pos).0, b, pos + 1, n, CreateExecAt(g, b, pos).2).ops
  {
    var s := g.blocks[b].ops;
    var c := CreateExecAt(g, b, pos);
    CreateExecParts(g, b, pos);
    SpliceOps(c.0, b, pos + 1, n, c.2);
    WrapRunAtOpsIs(g, b, pos, n);
    assert c.0.blocks[b].ops[pos + 1..pos + 1 + n] == s[pos..pos + n];
  }

  lemma {:induction false} WrapRunAtOpsIs(g: Graph, b: BlockId, pos: nat, n: nat)
    requires b in g.blocks && b < g.nextBlock && pos + n <= |g.blocks[b].ops|
    ensures WrapRunAt(g, b, pos, n).ops
         == Reparent(g.ops[g.nextOp := Op(AsyncExecute, [], [TokenT], [g.nextBlock], b)][g.nextOp + 1 := Op(Return, [Arg(g.nextBlock, 0)], [], [], g.nextBlock)],
                     g.blocks[b].ops[pos..pos + n], g.nextBlock)
  {
  }

  lemma {:induction false} CreateExecParts(g: Graph, b: BlockId, pos: nat)
    requires b in g.blocks && b < g.nextBlock && pos <= |g.blocks[b].ops|
    ensures CreateExecAt(g, b, pos).0.ops
         == g.ops[g.nextOp := Op(AsyncExecute, [], [TokenT], [g.nextBlock], b)][g.nextOp + 1 := Op(Return, [Arg(g.nextBlock, 0)], [], [], g.nextBlock)]
    ensures CreateExecAt(g, b, pos).0.blocks[b].ops == g.blocks[b].ops[..pos] + [g.nextOp] + g.blocks[b].ops[pos..]
  {
  }

  lemma {:induction false} SpliceOps(h: Graph, b: BlockId, i: nat, n: nat, dst: BlockId)
    requires b in h.blocks && dst in h.blocks && b != dst && i + n <= |h.blocks[b].ops|
    ensures SpliceToFront(h, b, i, n, dst).ops == Reparent(h.ops, h.blocks[b].ops[i..i + n], dst)
  {
  }

  lemma {:induction false} CreateSpliceBlocks(g: Graph, b: BlockId, pos: nat, n: nat)
    requires b in g.blocks && b < g.nextBlock && pos + n <= |g.blocks[b].ops|
    ensures WrapRunAt(g, b, pos, n).blocks
         == SpliceToFront(CreateExecAt(g, b, pos).0, b, pos + 1, n, CreateExecAt(g, b, pos).2).blocks
  {
    var s := g.blocks[b].ops;
    var a := g.nextOp;
    var body := g.nextBlock;
    var run := s[pos..pos + n];
    var s1 := s[..pos] + [a] + s[pos..];
    var y := Block(a, [ChainT, StreamT], [a + 1]);
    assert CreateExecAt(g, b, pos).0.blocks == g.blocks[b := g.blocks[b].(ops := s1)][body := y];
    assert s1[pos + 1..pos + 1 + n] == run;
    assert s1[..pos + 1] + s1[pos + 1 + n..] == s[..pos] + [a] + s[pos + n..];
    SwapUpdates(g.blocks, b, body, g.blocks[b].(ops := s1), y,
                g.blocks[b].(ops := s[..pos] + [a] + s[pos + n..]), y.(ops := run + [a + 1]));
  }

  /** Two updates of two distinct keys, then two more of the same keys, are the last two. */
  lemma {:induction false} SwapUpdates(m: map<BlockId, Block>, k1: BlockId, k2: BlockId, x1: Block, y1: Block, x2: Block, y2: Block)
    requires k1 != k2
    ensures m[k1 := x1][k2 := y1][k1 := x2][k2 := y2] == m[k1 := x2][k2 := y2]
  {
  }

  /** The number of groups among `slots`. */
  function Groups(slots: seq<Slot>): nat {
    if slots == [] then 0
    else Groups(slots[..|slots| - 1]) + (if slots[|slots| - 1].Group? then 1 else 0)
  }

  /**
   * The operations of the rewritten block, slot by slot: a kept operation
   * stays, the group with `k` groups before it becomes the async.execute
   * numbered base + 2 * k.
   */
  function Ids(slots: seq<Slot>, base: OpId): (r: seq<OpId>)
    ensures |r| == |slots|
  {
    if slots == [] then []
    else
      var front := slots[..|slots| - 1];
      Ids(front, base) + [match slots[|slots| - 1] case Keep(o) => o case Group(_) => base + 2 * Groups(front)]
  }

  /** The body block of each group's async.execute, numbered like Ids. */
  function Bodies(slots: seq<Slot>, base: BlockId): (r: seq<BlockId>)
    ensures |r| == |slots|
  {
    if slots == [] then []
    else
      var front := slots[..|slots| - 1];
      Bodies(front, base) + [base + Groups(front)]
  }

  /** An edit that only moves `moved` into block `dst` and leaves the other blocks alone keeps an existing wrapper. */
  lemma {:induction false} KeepWrapper(g1: Graph, r: Graph, a: OpId, body: BlockId, b: BlockId, run: seq<OpId>, moved: seq<OpId>, dst: BlockId)
    requires IsWrapper(g1, a, body, b, run)
    requires forall o :: o in g1.ops ==> o in r.ops && r.ops[o] == if o in moved then g1.ops[o].(parent := dst) else g1.ops[o]
    requires forall c :: c in g1.blocks && c != b ==> c in r.blocks && r.blocks[c] == g1.blocks[c]
    requires a !in moved && a + 1 !in moved && body != b
    ensures IsWrapper(r, a, body, b, run)
  {
  }

  lemma {:induction false} BodiesRange(slots: seq<Slot>, base: BlockId, j: nat)
    requires j < |slots|
    ensures base <= Bodies(slots, base)[j] < base + Groups(slots) + (if slots[j].Keep? then 1 else 0)
    decreases |slots|
  {
    var front := slots[..|slots| - 1];
    if j < |front| {
      BodiesRange(front, base, j);
      assert Bodies(slots, base)[j] == Bodies(front, base)[j];
      assert slots[j] == front[j];
    }
  }

  /** The async.execute of a group has a fresh id, used before the ids of later groups. */
  lemma {:induction false} IdsGroupRange(slots: seq<Slot>, base: OpId, j: nat)
    requires j < |slots| && slots[j].Group?
    ensures base <= Ids(slots, base)[j] && Ids(slots, base)[j] + 2 <= base + 2 * Groups(slots)
    decreases |slots|
  {
    var front := slots[..|slots| - 1];
    if j < |front| {
      IdsGroupRange(front, base, j);
      assert Ids(slots, base)[j] == Ids(front, base)[j];
    }
  }

  /** `slots` describe a prefix of `s`. */
  predicate Covers(s: seq<OpId>, slots: seq<Slot>) {
    |Flatten(slots)| <= |s| && s[..|Flatten(slots)|] == Flatten(slots)
  }

  lemma {:induction false} CoversFront(s: seq<OpId>, slots: seq<Slot>)
    requires slots != [] && Covers(s, slots)
    ensures Covers(s, slots[..|slots| - 1])
    ensures Flatten(slots) == Flatten(slots[..|slots| - 1]) + Flatten([slots[|slots| - 1]])
  {
    var front := slots[..|slots| - 1];
    assert slots == front + [slots[|slots| - 1]];
    FlattenAppend(front, [slots[|slots| - 1]]);
    assert s[..|Flatten(front)|] == s[..|Flatten(slots)|][..|Flatten(front)|];
  }

  /**
   * Block `b` after the rewrite of `slots`, applied slot by slot from the
   * front as the rewrite's loop does.  When the slots describe the block
   * (Covers), every run lies where the rewrite expects it
   * (MaterializeShape); the guard only keeps the function total.
   */
  function Materialize(g: Graph, b: BlockId, slots: seq<Slot>): Graph
    decreases |slots|
  {
    if slots == [] then g
    else
      var g1 := Materialize(g, b, slots[..|slots| - 1]);
      match slots[|slots| - 1]
      case Keep(_) => g1
      case Group(run) =>
        if b in g1.blocks && b < g1.nextBlock && |slots| - 1 + |run| <= |g1.blocks[b].ops|
        then WrapRunAt(g1, b, |slots| - 1, |run|)
        else g1
  }

  /**
   * The rewritten block lists every kept operation in place and, for each
   * group, one new async.execute; two fresh ids are used per group.
   */
  lemma {:induction false} MaterializeShape(g: Graph, b: BlockId, slots: seq<Slot>)
    requires b in g.blocks && b < g.nextBlock && Covers(g.blocks[b].ops, slots)
    ensures b in Materialize(g, b, slots).blocks && b < Materialize(g, b, slots).nextBlock
    ensures Materialize(g, b, slots).blocks[b].ops == Ids(slots, g.nextOp) + g.blocks[b].ops[|Flatten(slots)|..]
    ensures Materialize(g, b, slots).nextOp == g.nextOp + 2 * Groups(slots)
    ensures Materialize(g, b, slots).nextBlock == g.nextBlock + Groups(slots)
    decreases |slots|
  {
    if slots != [] {
      var front := slots[..|slots| - 1];
      var s := g.blocks[b].ops;
      CoversFront(s, slots);
      MaterializeShape(g, b, front);
      var g1 := Materialize(g, b, front);
      if slots[|slots| - 1].Keep? {
        KeepStep(s, slots, g.nextOp);
      } else {
        GroupShape(g, b, slots, g1);
      }
    }
  }

  lemma {:induction false} GroupShape(g: Graph, b: BlockId, slots: seq<Slot>, g1: Graph)
    requires b in g.blocks && slots != [] && slots[|slots| - 1].Group? && Covers(g.blocks[b].ops, slots)
    requires |Flatten(slots[..|slots| - 1])| <= |g.blocks[b].ops|
    requires g1 == Materialize(g, b, slots[..|slots| - 1])
    requires b in g1.blocks && b < g1.nextBlock
    requires g1.blocks[b].ops == Ids(slots[..|slots| - 1], g.nextOp) + g.blocks[b].ops[|Flatten(slots[..|slots| - 1])|..]
    requires g1.nextOp == g.nextOp + 2 * Groups(slots[..|slots| - 1])
    requires g1.nextBlock == g.nextBlock + Groups(slots[..|slots| - 1])
    ensures b in Materialize(g, b, slots).blocks && b < Materialize(g, b, slots).nextBlock
    ensures Materialize(g, b, slots).blocks[b].ops == Ids(slots, g.nextOp) + g.blocks[b].ops[|Flatten(slots)|..]
    ensures Materialize(g, b, slots).nextOp == g.nextOp + 2 * Groups(slots)
    ensures Materialize(g, b, slots).nextBlock == g.nextBlock + Groups(slots)
  {
    GroupStep(g.blocks[b].ops, slots, g.nextOp, g1.blocks[b].ops);
    var run := slots[|slots| - 1].run;
    var r := WrapRunAt(g1, b, |slots| - 1, |run|);
    assert Materialize(g, b, slots) == r;
  }

  /** The block list after one more kept operation, as Materialize's contract states it. */
  lemma {:induction false} KeepStep(s: seq<OpId>, slots: seq<Slot>, base: OpId)
    requires slots != [] && slots[|slots| - 1].Keep? && Covers(s, slots)
    ensures |Flatten(slots[..|slots| - 1])| < |s|
    ensures Ids(slots, base) + s[|Flatten(slots)|..]
         == Ids(slots[..|slots| - 1], base) + s[|Flatten(slots[..|slots| - 1])|..]
    ensures Groups(slots) == Groups(slots[..|slots| - 1])
  {
    var front := slots[..|slots| - 1];
    var o := slots[|slots| - 1].op;
    assert slots == front + [Keep(o)];
    assert Ids(slots, base) == Ids(front, base) + [o];
    FlattenAppend(front, [Keep(o)]);
    assert Flatten([Keep(o)]) == [o];
    var f := |Flatten(front)|;
    assert s[f] == Flatten(slots)[f] == o;
    assert s[f..] == [o] + s[f + 1..];
  }

  /** The block list after one more group, as Materialize's contract states it. */
  lemma {:induction false} GroupStep(s: seq<OpId>, slots: seq<Slot>, base: OpId, cur: seq<OpId>)
    requires slots != [] && slots[|slots| - 1].Group? && Covers(s, slots)
    requires |Flatten(slots[..|slots| - 1])| <= |s|
    requires cur == Ids(slots[..|slots| - 1], base) + s[|Flatten(slots[..|slots| - 1])|..]
    ensures |slots| - 1 + |slots[|slots| - 1].run| <= |cur|
    ensures cur[..|slots| - 1] + [base + 2 * Groups(slots[..|slots| - 1])] + cur[|slots| - 1 + |slots[|slots| - 1].run|..]
         == Ids(slots, base) + s[|Flatten(slots)|..]
    ensures Groups(slots) == Groups(slots[..|slots| - 1]) + 1
  {
    var front := slots[..|slots| - 1];
    var run := slots[|slots| - 1].run;
    LastGroup(slots, base);
    SpliceIds(Ids(front, base), s, |Flatten(front)|, |run|, base + 2 * Groups(front), cur);
  }

  /** The ids, groups and operations of slots ending in a group, from those of the slots before it. */
  lemma {:induction false} LastGroup(slots: seq<Slot>, base: OpId)
    requires slots != [] && slots[|slots| - 1].Group?
    ensures Ids(slots, base) == Ids(slots[..|slots| - 1], base) + [base + 2 * Groups(slots[..|slots| - 1])]
    ensures Groups(slots) == Groups(slots[..|slots| - 1]) + 1
    ensures |Flatten(slots)| == |Flatten(slots[..|slots| - 1])| + |slots[|slots| - 1].run|
  {
    var front := slots[..|slots| - 1];
    var run := slots[|slots| - 1].run;
    assert slots == front + [Group(run)];
    FlattenAppend(front, [Group(run)]);
    assert Flatten([Group(run)]) == run;
  }

  /** Replacing the `n` operations after the ids `ids` by `x`. */
  lemma {:induction false} SpliceIds(ids: seq<OpId>, s: seq<OpId>, f: nat, n: nat, x: OpId, cur: seq<OpId>)
    requires f + n <= |s| && cur == ids + s[f..]
    ensures |ids| + n <= |cur|
    ensures cur[..|ids|] + [x] + cur[|ids| + n..] == ids + [x] + s[f + n..]
  {
    assert cur[..|ids|] == ids;
    assert cur[|ids| + n..] == s[f + n..];
  }

  /**
   * `a` is an async.execute placed in block `b`, with no operands and one
   * token result, whose body has arguments (chain, stream) and holds `run`
   * followed by a terminator at `a + 1` returning the chain argument.
   */
  ghost predicate IsWrapper(g: Graph, a: OpId, body: BlockId, b: BlockId, run: seq<OpId>) {
    a in g.ops && g.ops[a] == Op(AsyncExecute, [], [TokenT], [body], b)
    && a + 1 in g.ops && g.ops[a + 1] == Op(Return, [Arg(body, 0)], [], [], body)
    && body in g.blocks && g.blocks[body] == Block(a, [ChainT, StreamT], run + [a + 1])
  }

  /** Every operation listed in block `b` has an id below the next free one. */
  ghost predicate ListedBelow(g: Graph, b: BlockId)
    requires b in g.blocks
  {
    forall o :: o in g.blocks[b].ops ==> o < g.nextOp
  }

  /** One wrapped run: the new async.execute, and nothing else changes but the block of the moved operations. */
  lemma {:induction false} WrapRunAtFacts(g: Graph, b: BlockId, pos: nat, run: seq<OpId>)
    requires Valid(g) && b in g.blocks && pos + |run| <= |g.blocks[b].ops|
    requires run == g.blocks[b].ops[pos..pos + |run|]
    requires forall o :: o in run ==> o < g.nextOp
    ensures IsWrapper(WrapRunAt(g, b, pos, |run|), g.nextOp, g.nextBlock, b, run)
    ensures forall c :: c in g.blocks && c != b ==>
      c in WrapRunAt(g, b, pos, |run|).blocks && WrapRunAt(g, b, pos, |run|).blocks[c] == g.blocks[c]
    ensures forall o :: o in g.ops ==>
      o in WrapRunAt(g, b, pos, |run|).ops
      && WrapRunAt(g, b, pos, |run|).ops[o] == if o in run then g.ops[o].(parent := g.nextBlock) else g.ops[o]
  {
    var a := g.nextOp;
    var body := g.nextBlock;
    WrapRunAtBlocks(g, b, pos, run);
    WrapRunAtOps(g, b, pos, run);
    assert a !in run && a + 1 !in run;
  }

  /** The blocks after one wrapped run: block `b` lists the new async.execute instead of the run, whose body lists the run. */
  lemma {:induction false} WrapRunAtBlocks(g: Graph, b: BlockId, pos: nat, run: seq<OpId>)
    requires Valid(g) && b in g.blocks && pos + |run| <= |g.blocks[b].ops|
    requires run == g.blocks[b].ops[pos..pos + |run|]
    ensures WrapRunAt(g, b, pos, |run|).blocks
         == g.blocks[b := g.blocks[b].(ops := g.blocks[b].ops[..pos] + [g.nextOp] + g.blocks[b].ops[pos + |run|..])]
                    [g.nextBlock := Block(g.nextOp, [ChainT, StreamT], run + [g.nextOp + 1])]
  {
  }

  /** The operations after one wrapped run: the new async.execute and its terminator, and the run moved into its body. */
  lemma {:induction false} WrapRunAtOps(g: Graph, b: BlockId, pos: nat, run: seq<OpId>)
    requires Valid(g) && b in g.blocks && pos + |run| <= |g.blocks[b].ops|
    requires run == g.blocks[b].ops[pos..pos + |run|]
    requires forall o :: o in run ==> o < g.nextOp
    ensures var r := WrapRunAt(g, b, pos, |run|).ops;
      && g.nextOp in r && r[g.nextOp] == Op(AsyncExecute, [], [TokenT], [g.nextBlock], b)
      && g.nextOp + 1 in r && r[g.nextOp + 1] == Op(Return, [Arg(g.nextBlock, 0)], [], [], g.nextBlock)
      && forall o :: o in g.ops ==> o in r && r[o] == if o in run then g.ops[o].(parent := g.nextBlock) else g.ops[o]
  {
    assert g.nextOp !in run && g.nextOp + 1 !in run;
  }

  /** Materialize keeps ids below the next free ones, and only adds fresh ones. */
  lemma {:induction false} MaterializeValid(g: Graph, b: BlockId, slots: seq<Slot>)
    requires Valid(g)
    ensures Valid(Materialize(g, b, slots))
    ensures Materialize(g, b, slots).nextOp >= g.nextOp && Materialize(g, b, slots).nextBlock >= g.nextBlock
    ensures forall o :: o in Materialize(g, b, slots).ops ==> o in g.ops || o >= g.nextOp
    ensures forall c :: c in Materialize(g, b, slots).blocks ==> c in g.blocks || c >= g.nextBlock
    ensures forall c :: c in g.blocks ==> c in Materialize(g, b, slots).blocks
    ensures forall o :: o in g.ops ==> o in Materialize(g, b, slots).ops
    decreases |slots|
  {
    if slots != [] {
      MaterializeValid(g, b, slots[..|slots| - 1]);
    }
  }

  /**
   * What one wrapped run leaves alone: every other existing block, the
   * owner and arguments of block `b`, and all of an existing operation but
   * the block it sits in.
   */
  ghost predicate KeepsOutside(g: Graph, b: BlockId, r: Graph)
    requires b in g.blocks
  {
    && (forall c :: c in g.blocks && c != b ==> c in r.blocks && r.blocks[c] == g.blocks[c])
    && b in r.blocks && r.blocks[b].parent == g.blocks[b].parent && r.blocks[b].args == g.blocks[b].args
    && (forall o :: o in g.ops ==> o in r.ops && r.ops[o] == g.ops[o].(parent := r.ops[o].parent))
  }

  lemma {:induction false} WrapRunAtKeeps(g: Graph, b: BlockId, pos: nat, n: nat)
    requires Valid(g) && b in g.blocks && pos + n <= |g.blocks[b].ops|
    ensures KeepsOutside(g, b, WrapRunAt(g, b, pos, n))
  {
  }

  lemma {:induction false} MaterializeKeeps(g: Graph, b: BlockId, slots: seq<Slot>)
    requires Valid(g) && b in g.blocks
    ensures KeepsOutside(g, b, Materialize(g, b, slots))
    decreases |slots|
  {
    if slots != [] {
      var front := slots[..|slots| - 1];
      MaterializeKeeps(g, b, front);
      MaterializeValid(g, b, front);
      var g1 := Materialize(g, b, front);
      if slots[|slots| - 1].Group? && b < g1.nextBlock && |front| + |slots[|slots| - 1].run| <= |g1.blocks[b].ops| {
        WrapRunAtKeeps(g1, b, |front|, |slots[|slots| - 1].run|);
      }
    }
  }

  /** The rewrite of a block keeps the graph valid and changes nothing outside the block and its operations' placement. */
  lemma {:induction false} WrapBlockKeeps(g: Graph, b: BlockId, legal: set<OpId>)
    requires Valid(g) && b in g.blocks
    requires WrapBlock(g, b, legal).Success?
    ensures Valid(WrapBlock(g, b, legal).value) && KeepsOutside(g, b, WrapBlock(g, b, legal).value)
    ensures WrapBlock(g, b, legal).value.nextOp >= g.nextOp && WrapBlock(g, b, legal).value.nextBlock >= g.nextBlock
  {
    MaterializeKeeps(g, b, Grouped(g.blocks[b].ops, legal));
    MaterializeValid(g, b, Grouped(g.blocks[b].ops, legal));
  }

  /**
   * `r` is block `b` of `g` rewritten by `slots`: the group with `k` groups
   * before it is the async.execute numbered g.nextOp + 2 * k, with body
   * number g.nextBlock + k, holding its run; every other block is
   * unchanged; every existing operation keeps its kind, operands, results
   * and region, and those not listed in `b` keep their block too.
   */
  ghost predicate RewroteBlock(g: Graph, b: BlockId, slots: seq<Slot>, r: Graph)
    requires b in g.blocks
  {
    (forall j {:trigger Ids(slots, g.nextOp)[j]} :: 0 <= j < |slots| && slots[j].Group? ==>
       IsWrapper(r, Ids(slots, g.nextOp)[j], Bodies(slots, g.nextBlock)[j], b, slots[j].run))
    && (forall c :: c in g.blocks && c != b ==> c in r.blocks && r.blocks[c] == g.blocks[c])
    && (forall o :: o in g.ops ==> o in r.ops && r.ops[o] == g.ops[o].(parent := r.ops[o].parent))
    && (forall o :: o in g.ops && o !in g.blocks[b].ops ==> r.ops[o] == g.ops[o])
  }

  lemma {:induction false} MaterializeFacts(g: Graph, b: BlockId, slots: seq<Slot>)
    requires Valid(g) && b in g.blocks && Covers(g.blocks[b].ops, slots) && ListedBelow(g, b)
    ensures RewroteBlock(g, b, slots, Materialize(g, b, slots))
    decreases |slots|
  {
    if slots != [] {
      var front := slots[..|slots| - 1];
      CoversFront(g.blocks[b].ops, slots);
      MaterializeFacts(g, b, front);
      if slots[|slots| - 1].Group? {
        MaterializeShape(g, b, front);
        MaterializeValid(g, b, front);
        var g1 := Materialize(g, b, front);
        GroupFacts(g, b, slots, g1);
        assert Materialize(g, b, slots) == WrapRunAt(g1, b, |front|, |slots[|slots| - 1].run|);
      } else {
        KeepFacts(g, b, slots, Materialize(g, b, front));
        assert Materialize(g, b, slots) == Materialize(g, b, front);
      }
    }
  }

  lemma {:induction false} KeepFacts(g: Graph, b: BlockId, slots: seq<Slot>, g1: Graph)
    requires b in g.blocks && slots != [] && slots[|slots| - 1].Keep?
    requires RewroteBlock(g, b, slots[..|slots| - 1], g1)
    ensures RewroteBlock(g, b, slots, g1)
  {
    var front := slots[..|slots| - 1];
    forall j | 0 <= j < |slots| && slots[j].Group?
      ensures j < |front| && slots[j] == front[j]
      ensures Ids(slots, g.nextOp)[j] == Ids(front, g.nextOp)[j] && Bodies(slots, g.nextBlock)[j] == Bodies(front, g.nextBlock)[j]
    {
    }
  }

  lemma {:induction false} GroupFacts(g: Graph, b: BlockId, slots: seq<Slot>, g1: Graph)
    requires Valid(g) && b in g.blocks && ListedBelow(g, b)
    requires slots != [] && slots[|slots| - 1].Group? && Covers(g.blocks[b].ops, slots)
    requires |Flatten(slots[..|slots| - 1])| <= |g.blocks[b].ops|
    requires Valid(g1) && b in g1.blocks && g1.nextOp >= g.nextOp && g1.nextBlock >= g.nextBlock
    requires g1.blocks[b].ops == Ids(slots[..|slots| - 1], g.nextOp) + g.blocks[b].ops[|Flatten(slots[..|slots| - 1])|..]
    requires g1.nextOp == g.nextOp + 2 * Groups(slots[..|slots| - 1])
    requires g1.nextBlock == g.nextBlock + Groups(slots[..|slots| - 1])
    requires RewroteBlock(g, b, slots[..|slots| - 1], g1)
    ensures |slots| - 1 + |slots[|slots| - 1].run| <= |g1.blocks[b].ops|
    ensures RewroteBlock(g, b, slots, WrapRunAt(g1, b, |slots| - 1, |slots[|slots| - 1].run|))
  {
    var front := slots[..|slots| - 1];
    var run := slots[|slots| - 1].run;
    RunAtFront(g.blocks[b].ops, slots, g.nextOp, g1.blocks[b].ops);
    forall o | o in run
      ensures o < g1.nextOp
    {
      assert o in g.blocks[b].ops;
    }
    WrapRunAtFacts(g1, b, |front|, run);
    GroupFactsStep(g, b, slots, run, g1, WrapRunAt(g1, b, |front|, |run|));
  }

  /** In the partly rewritten block, the run of the next group starts right after the slots before it. */
  lemma {:induction false} RunAtFront(s: seq<OpId>, slots: seq<Slot>, base: OpId, cur: seq<OpId>)
    requires slots != [] && slots[|slots| - 1].Group? && Covers(s, slots)
    requires |Flatten(slots[..|slots| - 1])| <= |s|
    requires cur == Ids(slots[..|slots| - 1], base) + s[|Flatten(slots[..|slots| - 1])|..]
    ensures |slots| - 1 + |slots[|slots| - 1].run| <= |cur|
    ensures slots[|slots| - 1].run == cur[|slots| - 1..|slots| - 1 + |slots[|slots| - 1].run|]
    ensures forall o :: o in slots[|slots| - 1].run ==> o in s
  {
    FlattenLast(slots);
    RunInside(s, Flatten(slots[..|slots| - 1]), slots[|slots| - 1].run, Ids(slots[..|slots| - 1], base), cur);
  }

  lemma {:induction false} RunInside(s: seq<OpId>, f: seq<OpId>, run: seq<OpId>, ids: seq<OpId>, cur: seq<OpId>)
    requires |f| + |run| <= |s| && s[..|f| + |run|] == f + run && cur == ids + s[|f|..]
    ensures |ids| + |run| <= |cur| && run == cur[|ids|..|ids| + |run|]
    ensures forall o :: o in run ==> o in s
  {
    assert s[|f|..|f| + |run|] == run by {
      assert (f + run)[|f|..] == run;
    }
    assert cur[|ids|..|ids| + |run|] == s[|f|..|f| + |run|];
  }

  lemma {:induction false} GroupFactsStep(g: Graph, b: BlockId, slots: seq<Slot>, run: seq<OpId>, g1: Graph, r: Graph)
    requires Valid(g) && b in g.blocks && slots != [] && slots[|slots| - 1] == Group(run)
    requires g1.nextOp == g.nextOp + 2 * Groups(slots[..|slots| - 1])
    requires g1.nextBlock == g.nextBlock + Groups(slots[..|slots| - 1])
    requires RewroteBlock(g, b, slots[..|slots| - 1], g1)
    requires forall o :: o in run ==> o in g.blocks[b].ops && o < g.nextOp
    requires IsWrapper(r, g1.nextOp, g1.nextBlock, b, run)
    requires forall c :: c in g1.blocks && c != b ==> c in r.blocks && r.blocks[c] == g1.blocks[c]
    requires forall o :: o in g1.ops ==>
      o in r.ops && r.ops[o] == if o in run then g1.ops[o].(parent := g1.nextBlock) else g1.ops[o]
    ensures RewroteBlock(g, b, slots, r)
  {
    var front := slots[..|slots| - 1];
    assert Ids(slots, g.nextOp)[|front|] == g1.nextOp;
    assert Bodies(slots, g.nextBlock)[|front|] == g1.nextBlock;
    forall j | 0 <= j < |slots| && slots[j].Group?
      ensures IsWrapper(r, Ids(slots, g.nextOp)[j], Bodies(slots, g.nextBlock)[j], b, slots[j].run)
    {
      if j < |front| {
        assert slots[j] == front[j];
        var a := Ids(front, g.nextOp)[j];
        var body := Bodies(front, g.nextBlock)[j];
        assert Ids(slots, g.nextOp)[j] == a && Bodies(slots, g.nextBlock)[j] == body;
        assert IsWrapper(g1, a, body, b, front[j].run);
        IdsGroupRange(front, g.nextOp, j);
        BodiesRange(front, g.nextBlock, j);
        KeepWrapper(g1, r, a, body, b, front[j].run, run, g1.nextBlock);
      }
    }
    forall c | c in g.blocks && c != b
      ensures c in r.blocks && r.blocks[c] == g.blocks[c]
    {
    }
    forall o | o in g.ops
      ensures o in r.ops && r.ops[o] == g.ops[o].(parent := r.ops[o].parent)
    {
    }
    forall o | o in g.ops && o !in g.blocks[b].ops
      ensures r.ops[o] == g.ops[o]
    {
      assert o !in run;
    }
  }

  /**
   * matchAndRewriteBlock: block `b` rewritten run by run; it fails, leaving
   * the block alone, when no run was wrapped.
   */
  function WrapBlock(g: Graph, b: BlockId, legal: set<OpId>): Result<Graph, MatchFailure>
    requires b in g.blocks
  {
    var slots := Grouped(g.blocks[b].ops, legal);
    if HasGroup(slots) then Success(Materialize(g, b, slots)) else Failure(NoLegalRun)
  }

  /** The rewrite of a block succeeds exactly when some legal operation is directly followed by an illegal one. */
  lemma {:induction false} WrapBlockApplies(g: Graph, b: BlockId, legal: set<OpId>)
    requires b in g.blocks
    ensures WrapBlock(g, b, legal).Success?
        <==> HasStep(g.blocks[b].ops, legal)
  {
    GroupedChanges(g.blocks[b].ops, legal);
  }

  /** The operations of one slot after the rewrite is undone. */
  function SlotOps(slot: Slot): seq<OpId> {
    match slot
    case Keep(o) => [o]
    case Group(run) => run
  }

  /**
   * Undoing the wrapping of operation `o`: an async.execute created by the
   * rewrite (id at least `base`) gives back the operations of its body
   * without the terminator; any other operation stands for itself.
   */
  function Unwrapped(g: Graph, o: OpId, base: OpId): seq<OpId> {
    if o >= base && o in g.ops && g.ops[o].kind == AsyncExecute && |g.ops[o].regions| == 1
       && g.ops[o].regions[0] in g.blocks && g.blocks[g.ops[o].regions[0]].ops != []
    then
      var body := g.blocks[g.ops[o].regions[0]].ops;
      body[..|body| - 1]
    else [o]
  }

  function Inline(g: Graph, os: seq<OpId>, base: OpId): seq<OpId> {
    if os == [] then [] else Inline(g, os[..|os| - 1], base) + Unwrapped(g, os[|os| - 1], base)
  }

  lemma {:induction false} InlineSlots(g: Graph, os: seq<OpId>, slots: seq<Slot>, base: OpId)
    requires |os| == |slots|
    requires forall j :: 0 <= j < |os| ==> Unwrapped(g, os[j], base) == SlotOps(slots[j])
    ensures Inline(g, os, base) == Flatten(slots)
    decreases |os|
  {
    if os != [] {
      var n := |os| - 1;
      UnwrappedFront(g, os, slots, base, os[..n], slots[..n]);
      InlineSlots(g, os[..n], slots[..n], base);
      InlineLast(g, os, base);
      FlattenLast(slots);
    }
  }

  lemma {:induction false} UnwrappedFront(g: Graph, os: seq<OpId>, slots: seq<Slot>, base: OpId, fos: seq<OpId>, fslots: seq<Slot>)
    requires |os| == |slots| && os != [] && fos == os[..|os| - 1] && fslots == slots[..|os| - 1]
    requires forall j :: 0 <= j < |os| ==> Unwrapped(g, os[j], base) == SlotOps(slots[j])
    ensures |fos| == |fslots| && forall j :: 0 <= j < |fos| ==> Unwrapped(g, fos[j], base) == SlotOps(fslots[j])
  {
    forall j | 0 <= j < |fos|
      ensures Unwrapped(g, fos[j], base) == SlotOps(fslots[j])
    {
      assert fos[j] == os[j] && fslots[j] == slots[j];
    }
  }

  lemma {:induction false} InlineLast(g: Graph, os: seq<OpId>, base: OpId)
    requires os != []
    ensures Inline(g, os, base) == Inline(g, os[..|os| - 1], base) + Unwrapped(g, os[|os| - 1], base)
  {
  }

  lemma {:induction false} FlattenLast(slots: seq<Slot>)
    requires slots != []
    ensures Flatten(slots) == Flatten(slots[..|slots| - 1]) + SlotOps(slots[|slots| - 1])
  {
    var n := |slots| - 1;
    assert slots == slots[..n] + [slots[n]];
    FlattenAppend(slots[..n], [slots[n]]);
    assert Flatten([slots[n]]) == SlotOps(slots[n]);
  }

  /**
   * What the rewrite of a block does: the block now lists, slot by slot,
   * the kept operations and one new async.execute per group; each group is
   * a maximal run of legal operations followed by an illegal one, and legal
   * operations are kept in place only in the trailing run; the groups and
   * kept operations, in order, are the original block; nothing else changes
   * but the block of the moved operations.
   */
  lemma {:induction false} WrapBlockSpec(g: Graph, b: BlockId, legal: set<OpId>)
    requires Valid(g) && b in g.blocks && ListedBelow(g, b)
    requires WrapBlock(g, b, legal).Success?
    ensures var slots := Grouped(g.blocks[b].ops, legal);
      var r := WrapBlock(g, b, legal).value;
      && Flatten(slots) == g.blocks[b].ops
      && GroupsMaximal(slots, legal) && LegalKeptOnlyAtEnd(slots, legal)
      && b in r.blocks && r.blocks[b].ops == Ids(slots, g.nextOp)
      && RewroteBlock(g, b, slots, r)
      && Valid(r)
  {
    var s := g.blocks[b].ops;
    var slots := Grouped(s, legal);
    FlattenGrouped(s, legal);
    GroupedShape(s, legal);
    MaterializeShape(g, b, slots);
    MaterializeFacts(g, b, slots);
    MaterializeValid(g, b, slots);
  }

  /** Undoing every new async.execute of the rewritten block gives back the original block. */
  lemma {:induction false} WrapBlockRoundTrip(g: Graph, b: BlockId, legal: set<OpId>)
    requires Valid(g) && b in g.blocks && ListedBelow(g, b)
    requires WrapBlock(g, b, legal).Success?
    ensures b in WrapBlock(g, b, legal).value.blocks
    ensures Inline(WrapBlock(g, b, legal).value, WrapBlock(g, b, legal).value.blocks[b].ops, g.nextOp) == g.blocks[b].ops
  {
    var s := g.blocks[b].ops;
    var slots := Grouped(s, legal);
    var r := WrapBlock(g, b, legal).value;
    WrapBlockSpec(g, b, legal);
    var ids := Ids(slots, g.nextOp);
    forall j | 0 <= j < |ids|
      ensures Unwrapped(r, ids[j], g.nextOp) == SlotOps(slots[j])
    {
      if slots[j].Group? {
        IdsGroupRange(slots, g.nextOp, j);
      } else {
        KeptId(slots, g.nextOp, j);
        assert ids[j] in Flatten(slots) by { FlattenHas(slots, j); }
      }
    }
    InlineSlots(r, ids, slots, g.nextOp);
  }

  /** A kept operation keeps its own id in the rewritten block. */
  lemma {:induction false} KeptId(slots: seq<Slot>, base: OpId, j: nat)
    requires j < |slots| && slots[j].Keep?
    ensures Ids(slots, base)[j] == slots[j].op
    decreases |slots|
  {
    var front := slots[..|slots| - 1];
    if j < |front| {
      KeptId(front, base, j);
      assert Ids(slots, base)[j] == Ids(front, base)[j];
    }
  }

  lemma {:induction false} FlattenHas(slots: seq<Slot>, j: nat)
    requires j < |slots|
    ensures forall o :: o in SlotOps(slots[j]) ==> o in Flatten(slots)
    decreases |slots|
  {
    if j > 0 {
      FlattenHas(slots[1..], j - 1);
      assert slots[1..][j - 1] == slots[j];
    }
  }

  lemma {:induction false} GroupedStepIllegal(s: seq<OpId>, legal: set<OpId>, d: nat, i: nat)
    requires d <= i < |s| && (d == 0 || s[d - 1] !in legal) && s[i] !in legal
    requires forall k :: d <= k < i ==> s[k] in legal
    ensures Grouped(s[..i + 1], legal)
         == Grouped(s[..d], legal) + (if d < i then [Group(s[d..i]), Keep(s[i])] else [Keep(s[i])])
  {
    PrefixSlices(s, legal, d, i);
    GroupedSplit(s[..i + 1], legal, d);
    ClosedRunGroups(s, legal, d, i);
  }

  lemma {:induction false} PrefixSlices(s: seq<OpId>, legal: set<OpId>, d: nat, i: nat)
    requires d <= i < |s| && (d == 0 || s[d - 1] !in legal)
    ensures s[..i + 1][..d] == s[..d] && s[..i + 1][d..] == s[d..i + 1]
    ensures d == 0 || s[..i + 1][d - 1] !in legal
  {
  }

  /** The run `s[d..i]` closed by the illegal `s[i]` groups into the run and `s[i]`. */
  lemma {:induction false} ClosedRunGroups(s: seq<OpId>, legal: set<OpId>, d: nat, i: nat)
    requires d <= i < |s| && s[i] !in legal
    requires forall k :: d <= k < i ==> s[k] in legal
    ensures Grouped(s[d..i + 1], legal) == if d < i then [Group(s[d..i]), Keep(s[i])] else [Keep(s[i])]
  {
    var r := s[d..i + 1];
    RunSlices(s, legal, d, i, r);
    GroupedClosedRun(r, legal);
  }

  lemma {:induction false} RunSlices(s: seq<OpId>, legal: set<OpId>, d: nat, i: nat, r: seq<OpId>)
    requires d <= i < |s| && s[i] !in legal && r == s[d..i + 1]
    requires forall k :: d <= k < i ==> s[k] in legal
    ensures |r| == i - d + 1 && r[i - d] == s[i] && r[..i - d] == s[d..i] && r[0] == s[d]
    ensures forall j :: 0 <= j < |r| - 1 ==> r[j] in legal
  {
    forall j | 0 <= j < |r| - 1
      ensures r[j] in legal
    {
      assert r[j] == s[d + j];
    }
  }

  lemma {:induction false} GroupedEnd(s: seq<OpId>, legal: set<OpId>, d: nat)
    requires d <= |s| && (d == 0 || s[d - 1] !in legal)
    requires forall k :: d <= k < |s| ==> s[k] in legal
    ensures Grouped(s, legal) == Grouped(s[..d], legal) + KeepAll(s[d..])
  {
    GroupedSplit(s, legal, d);
    GroupedAllLegal(s[d..], legal);
  }

  /** The wraps of `slots`, in order: the group at slot `j` with run `run` is wrapped at position `j`, `|run|` operations long. */
  function Wraps(slots: seq<Slot>): seq<(nat, nat)> {
    if slots == [] then []
    else
      var front := slots[..|slots| - 1];
      Wraps(front) + match slots[|slots| - 1] case Keep(_) => [] case Group(run) => [(|front|, |run|)]
  }

  /** One wrap `(pos, n)` applied to block `b` when it fits the block; the guard only keeps the function total. */
  function WrapStep(g: Graph, b: BlockId, w: (nat, nat)): Graph {
    if b in g.blocks && b < g.nextBlock && w.0 + w.1 <= |g.blocks[b].ops| then WrapRunAt(g, b, w.0, w.1) else g
  }

  /** The wraps `ws` applied to block `b` one after the other, from the front. */
  function Apply(g: Graph, b: BlockId, ws: seq<(nat, nat)>): Graph
    decreases |ws|
  {
    if ws == [] then g else Apply(WrapStep(g, b, ws[0]), b, ws[1..])
  }

  lemma {:induction false} ApplyFront(g: Graph, b: BlockId, w: (nat, nat), rest: seq<(nat, nat)>)
    ensures Apply(g, b, [w] + rest) == Apply(WrapStep(g, b, w), b, rest)
  {
    assert ([w] + rest)[1..] == rest;
  }

  lemma {:induction false} ApplySnoc(g: Graph, b: BlockId, ws: seq<(nat, nat)>, w: (nat, nat))
    ensures Apply(g, b, ws + [w]) == WrapStep(Apply(g, b, ws), b, w)
    decreases |ws|
  {
    if ws == [] {
      assert ws + [w] == [w] + [];
      ApplyFront(g, b, w, []);
    } else {
      assert ws + [w] == [ws[0]] + (ws[1..] + [w]);
      ApplyFront(g, b, ws[0], ws[1..] + [w]);
      ApplySnoc(WrapStep(g, b, ws[0]), b, ws[1..], w);
      assert ws == [ws[0]] + ws[1..];
      ApplyFront(g, b, ws[0], ws[1..]);
    }
  }

  /** Rewriting slot by slot from the back is applying the wraps of the slots from the front. */
  lemma {:induction false} MaterializeApply(g: Graph, b: BlockId, slots: seq<Slot>)
    ensures Materialize(g, b, slots) == Apply(g, b, Wraps(slots))
    decreases |slots|
  {
    if slots != [] {
      var front := slots[..|slots| - 1];
      MaterializeApply(g, b, front);
      match slots[|slots| - 1]
      case Keep(_) =>
        assert Wraps(slots) == Wraps(front) + [] == Wraps(front);
        assert Materialize(g, b, slots) == Materialize(g, b, front);
      case Group(run) =>
        assert Wraps(slots) == Wraps(front) + [(|front|, |run|)];
        assert Materialize(g, b, slots) == WrapStep(Materialize(g, b, front), b, (|front|, |run|));
        ApplySnoc(g, b, Wraps(front), (|front|, |run|));
    }
  }

  /** There is a wrap exactly when there is a group. */
  lemma {:induction false} WrapsEmpty(slots: seq<Slot>)
    ensures Wraps(slots) == [] <==> !HasGroup(slots)
    decreases |slots|
  {
    if slots != [] {
      var front := slots[..|slots| - 1];
      WrapsEmpty(front);
      assert slots == front + [slots[|slots| - 1]];
      HasGroupAppend(front, [slots[|slots| - 1]]);
      assert HasGroup([slots[|slots| - 1]]) <==> slots[|slots| - 1].Group?;
    }
  }

  lemma {:induction false} WrapsKeep(front: seq<Slot>, x: OpId)
    ensures Wraps(front + [Keep(x)]) == Wraps(front)
  {
    assert (front + [Keep(x)])[..|front|] == front;
    assert Wraps(front) + [] == Wraps(front);
  }

  lemma {:induction false} WrapsClose(front: seq<Slot>, run: seq<OpId>, x: OpId)
    ensures Wraps(front + [Group(run), Keep(x)]) == Wraps(front) + [(|front|, |run|)]
  {
    assert front + [Group(run), Keep(x)] == (front + [Group(run)]) + [Keep(x)];
    WrapsKeep(front + [Group(run)], x);
    assert (front + [Group(run)])[..|front|] == front;
  }

  lemma {:induction false} WrapsKeepAll(front: seq<Slot>, t: seq<OpId>)
    ensures Wraps(front + KeepAll(t)) == Wraps(front)
    decreases |t|
  {
    if t != [] {
      var n := |t| - 1;
      assert front + KeepAll(t) == (front + KeepAll(t[..n])) + [Keep(t[n])];
      WrapsKeep(front + KeepAll(t[..n]), t[n]);
      WrapsKeepAll(front, t[..n]);
    } else {
      assert front + KeepAll(t) == front;
    }
  }

  /**
   * The block loop of matchAndRewriteBlock as a function of its state: the
   * wraps it performs from there on.  `s` lists the block as it was on
   * entry, `i` is the next operation to visit, `begin` the index in `s`
   * where the current legal run began (None between runs) and `pos` the
   * position in the block of `s[begin]` (of `s[i]` between runs).
   */
  function ScanWraps(s: seq<OpId>, legal: set<OpId>, i: nat, begin: Option<nat>, pos: nat): seq<(nat, nat)>
    requires i <= |s| && (begin.Some? ==> begin.value <= i)
    decreases |s| - i
  {
    if i == |s| then []
    else if s[i] in legal then ScanWraps(s, legal, i + 1, if begin.None? then Some(i) else begin, pos)
    else if begin.None? then ScanWraps(s, legal, i + 1, None, pos + 1)
    else [(pos, i - begin.value)] + ScanWraps(s, legal, i + 1, None, pos + 2)
  }

  /**
   * From any state the loop reaches, with the prefix `s[..d]` already
   * grouped and `s[d..i]` a pending legal run, the wraps still to come
   * complete those of the prefix to those of the grouping of the whole block.
   */
  lemma {:induction false} ScanGrouped(s: seq<OpId>, legal: set<OpId>, d: nat, i: nat, begin: Option<nat>, pos: nat)
    requires d <= i <= |s| && (d == 0 || s[d - 1] !in legal)
    requires forall k :: d <= k < i ==> s[k] in legal
    requires begin == if d < i then Some(d) else None
    requires pos == |Grouped(s[..d], legal)|
    ensures Wraps(Grouped(s[..d], legal)) + ScanWraps(s, legal, i, begin, pos) == Wraps(Grouped(s, legal))
    decreases |s| - i, 1
  {
    if i == |s| {
      ScanWrapsEnd(s, legal, begin, pos);
      ScanAtEnd(s, legal, d);
      JoinEmpty(Wraps(Grouped(s[..d], legal)), ScanWraps(s, legal, i, begin, pos));
    } else if s[i] in legal {
      ScanLegal(s, legal, d, i, pos);
    } else if begin.None? {
      ScanKeep(s, legal, i, pos);
    } else {
      ScanClose(s, legal, d, i, pos);
    }
  }

  /** A legal operation opens or extends the pending run. */
  lemma {:induction false} ScanLegal(s: seq<OpId>, legal: set<OpId>, d: nat, i: nat, pos: nat)
    requires d <= i < |s| && (d == 0 || s[d - 1] !in legal) && s[i] in legal
    requires forall k :: d <= k < i ==> s[k] in legal
    requires pos == |Grouped(s[..d], legal)|
    ensures Wraps(Grouped(s[..d], legal)) + ScanWraps(s, legal, i, if d < i then Some(d) else None, pos) == Wraps(Grouped(s, legal))
    decreases |s| - i, 0
  {
    ScanWrapsLegal(s, legal, d, i, pos);
    ScanGrouped(s, legal, d, i + 1, Some(d), pos);
  }

  /** An illegal operation outside a run is passed over. */
  lemma {:induction false} ScanKeep(s: seq<OpId>, legal: set<OpId>, i: nat, pos: nat)
    requires i < |s| && (i == 0 || s[i - 1] !in legal) && s[i] !in legal
    requires pos == |Grouped(s[..i], legal)|
    ensures Wraps(Grouped(s[..i], legal)) + ScanWraps(s, legal, i, None, pos) == Wraps(Grouped(s, legal))
    decreases |s| - i, 0
  {
    ScanAtKeep(s, legal, i);
    ScanGrouped(s, legal, i + 1, i + 1, None, pos + 1);
    ScanWrapsKeep(s, legal, i, pos);
  }

  /** An illegal operation closing the run `s[d..i]` is the next wrap. */
  lemma {:induction false} ScanClose(s: seq<OpId>, legal: set<OpId>, d: nat, i: nat, pos: nat)
    requires d < i < |s| && (d == 0 || s[d - 1] !in legal) && s[i] !in legal
    requires forall k :: d <= k < i ==> s[k] in legal
    requires pos == |Grouped(s[..d], legal)|
    ensures Wraps(Grouped(s[..d], legal)) + ScanWraps(s, legal, i, Some(d), pos) == Wraps(Grouped(s, legal))
    decreases |s| - i, 0
  {
    ScanAtClose(s, legal, d, i);
    ScanGrouped(s, legal, i + 1, i + 1, None, pos + 2);
    ScanWrapsClose(s, legal, d, i, pos);
    JoinWraps(Wraps(Grouped(s[..d], legal)), (pos, i - d), ScanWraps(s, legal, i + 1, None, pos + 2),
              Wraps(Grouped(s[..i + 1], legal)), Wraps(Grouped(s, legal)));
  }

  /** The loop stops at the end of the block. */
  lemma {:induction false} ScanWrapsEnd(s: seq<OpId>, legal: set<OpId>, begin: Option<nat>, pos: nat)
    requires begin.Some? ==> begin.value <= |s|
    ensures ScanWraps(s, legal, |s|, begin, pos) == []
  {
  }

  /** A legal operation wraps nothing yet. */
  lemma {:induction false} ScanWrapsLegal(s: seq<OpId>, legal: set<OpId>, d: nat, i: nat, pos: nat)
    requires d <= i < |s| && s[i] in legal
    ensures ScanWraps(s, legal, i, if d < i then Some(d) else None, pos) == ScanWraps(s, legal, i + 1, Some(d), pos)
  {
  }

  /** An illegal operation outside a run wraps nothing. */
  lemma {:induction false} ScanWrapsKeep(s: seq<OpId>, legal: set<OpId>, i: nat, pos: nat)
    requires i < |s| && s[i] !in legal
    ensures ScanWraps(s, legal, i, None, pos) == ScanWraps(s, legal, i + 1, None, pos + 1)
  {
  }

  /** An illegal operation closing a run wraps it. */
  lemma {:induction false} ScanWrapsClose(s: seq<OpId>, legal: set<OpId>, d: nat, i: nat, pos: nat)
    requires d <= i < |s| && s[i] !in legal
    ensures ScanWraps(s, legal, i, Some(d), pos) == [(pos, i - d)] + ScanWraps(s, legal, i + 1, None, pos + 2)
  {
  }

  lemma {:induction false} JoinEmpty(x: seq<(nat, nat)>, y: seq<(nat, nat)>)
    requires y == []
    ensures x + y == x
  {
  }

  lemma {:induction false} JoinWraps(x: seq<(nat, nat)>, w: (nat, nat), y: seq<(nat, nat)>, p: seq<(nat, nat)>, z: seq<(nat, nat)>)
    requires p == x + [w] && p + y == z
    ensures x + ([w] + y) == z
  {
    assert x + ([w] + y) == (x + [w]) + y;
  }

  /** At the end of the block the pending legal run stays where it is: no wrap. */
  lemma {:induction false} ScanAtEnd(s: seq<OpId>, legal: set<OpId>, d: nat)
    requires d <= |s| && (d == 0 || s[d - 1] !in legal)
    requires forall k :: d <= k < |s| ==> s[k] in legal
    ensures Wraps(Grouped(s[..d], legal)) == Wraps(Grouped(s, legal))
  {
    GroupedEnd(s, legal, d);
    WrapsKeepAll(Grouped(s[..d], legal), s[d..]);
  }

  /** An illegal operation outside a run is kept where it is: no wrap. */
  lemma {:induction false} ScanAtKeep(s: seq<OpId>, legal: set<OpId>, i: nat)
    requires i < |s| && (i == 0 || s[i - 1] !in legal) && s[i] !in legal
    ensures Wraps(Grouped(s[..i + 1], legal)) == Wraps(Grouped(s[..i], legal))
    ensures |Grouped(s[..i + 1], legal)| == |Grouped(s[..i], legal)| + 1
  {
    GroupedStepIllegal(s, legal, i, i);
    WrapsKeep(Grouped(s[..i], legal), s[i]);
  }

  /** An illegal operation closing the legal run `s[d..i]`: one wrap, at the slot of the run. */
  lemma {:induction false} ScanAtClose(s: seq<OpId>, legal: set<OpId>, d: nat, i: nat)
    requires d < i < |s| && (d == 0 || s[d - 1] !in legal) && s[i] !in legal
    requires forall k :: d <= k < i ==> s[k] in legal
    ensures Wraps(Grouped(s[..i + 1], legal)) == Wraps(Grouped(s[..d], legal)) + [(|Grouped(s[..d], legal)|, i - d)]
    ensures |Grouped(s[..i + 1], legal)| == |Grouped(s[..d], legal)| + 2
  {
    GroupedStepIllegal(s, legal, d, i);
    WrapsClose(Grouped(s[..d], legal), s[d..i], s[i]);
  }

  /** Closing the run `s[d..i]` at position `pos` is the next wrap, applied first. */
  lemma {:induction false} WrapAdvance(cur: Graph, b: BlockId, s: seq<OpId>, legal: set<OpId>, i: nat, d: nat, pos: nat)
    requires d <= i < |s| && s[i] !in legal
    requires b in cur.blocks && b < cur.nextBlock && |cur.blocks[b].ops| == pos + |s| - d
    ensures Apply(cur, b, ScanWraps(s, legal, i, Some(d), pos))
         == Apply(WrapRunAt(cur, b, pos, i - d), b, ScanWraps(s, legal, i + 1, None, pos + 2))
  {
    var w := (pos, i - d);
    var rest := ScanWraps(s, legal, i + 1, None, pos + 2);
    ScanWrapsClose(s, legal, d, i, pos);
    ApplyJoin(cur, b, ScanWraps(s, legal, i, Some(d), pos), w, rest, WrapRunAt(cur, b, pos, i - d));
  }

  lemma {:induction false} ApplyJoin(g: Graph, b: BlockId, ws: seq<(nat, nat)>, w: (nat, nat), rest: seq<(nat, nat)>, h: Graph)
    requires ws == [w] + rest && h == WrapStep(g, b, w)
    ensures Apply(g, b, ws) == Apply(h, b, rest)
  {
    ApplyFront(g, b, w, rest);
  }

  /**
   * The invariant of the block loop at operation `i` of the snapshot `s`:
   * the arena `g` followed by the wraps still to come is the arena `g0`
   * followed by all the wraps `ws`, and `ok` records whether one was done.
   */
  ghost predicate ScanState(g: Graph, g0: Graph, b: BlockId, s: seq<OpId>, legal: set<OpId>, i: nat, begin: Option<nat>, pos: nat,
                            ok: bool, ws: seq<(nat, nat)>) {
    && i <= |s| && (begin.Some? ==> begin.value < i)
    && b in g.blocks && b < g.nextBlock
    && |g.blocks[b].ops| == pos + |s| - (if begin.Some? then begin.value else i)
    && Apply(g, b, ScanWraps(s, legal, i, begin, pos)) == Apply(g0, b, ws)
    && if ok then ws != [] else ScanWraps(s, legal, i, begin, pos) == ws
  }

  /** A legal operation opens or extends the pending run. */
  lemma {:induction false} ScanLegalStep(g: Graph, g0: Graph, b: BlockId, s: seq<OpId>, legal: set<OpId>, i: nat, begin: Option<nat>,
                                     pos: nat, ok: bool, ws: seq<(nat, nat)>)
    requires ScanState(g, g0, b, s, legal, i, begin, pos, ok, ws) && i < |s| && s[i] in legal
    ensures ScanState(g, g0, b, s, legal, i + 1, if begin.None? then Some(i) else begin, pos, ok, ws)
  {
    var d := if begin.None? then i else begin.value;
    ScanWrapsLegal(s, legal, d, i, pos);
    assert begin == if d < i then Some(d) else None;
  }

  /** An illegal operation outside a run is kept and moves the position on. */
  lemma {:induction false} ScanKeepStep(g: Graph, g0: Graph, b: BlockId, s: seq<OpId>, legal: set<OpId>, i: nat,
                                    pos: nat, ok: bool, ws: seq<(nat, nat)>)
    requires ScanState(g, g0, b, s, legal, i, None, pos, ok, ws) && i < |s| && s[i] !in legal
    ensures ScanState(g, g0, b, s, legal, i + 1, None, pos + 1, ok, ws)
  {
    ScanWrapsKeep(s, legal, i, pos);
  }

  /** Closing the run `s[d..i]` keeps the invariant of the block loop, with a wrap done. */
  lemma {:induction false} ScanCloseStep(cur: Graph, g0: Graph, b: BlockId, s: seq<OpId>, legal: set<OpId>, i: nat, d: nat, pos: nat,
                                     ok: bool, ws: seq<(nat, nat)>)
    requires ScanState(cur, g0, b, s, legal, i, Some(d), pos, ok, ws) && i < |s| && s[i] !in legal
    ensures pos + (i - d) <= |cur.blocks[b].ops|
    ensures ScanState(WrapRunAt(cur, b, pos, i - d), g0, b, s, legal, i + 1, None, pos + 2, true, ws)
  {
    ScanWrapsClose(s, legal, d, i, pos);
    WrapAdvance(cur, b, s, legal, i, d, pos);
  }

  /** At the end of the block the arena is `g0` with every wrap applied. */
  lemma {:induction false} ScanEnd(g: Graph, g0: Graph, b: BlockId, s: seq<OpId>, legal: set<OpId>, begin: Option<nat>, pos: nat,
                                   ok: bool, ws: seq<(nat, nat)>)
    requires ScanState(g, g0, b, s, legal, |s|, begin, pos, ok, ws)
    ensures g == Apply(g0, b, ws) && (ok <==> ws != [])
  {
  }

  /** The loop from the start of the block performs the wraps of WrapBlock, and some exactly when WrapBlock succeeds. */
  lemma {:induction false} ScanIsWrapBlock(g: Graph, b: BlockId, legal: set<OpId>)
    requires b in g.blocks
    ensures var ws := ScanWraps(g.blocks[b].ops, legal, 0, None, 0);
            (ws != []) == WrapBlock(g, b, legal).Success?
            && Apply(g, b, ws) == if ws != [] then WrapBlock(g, b, legal).value else g
  {
    var s := g.blocks[b].ops;
    var slots := Grouped(s, legal);
    assert s[..0] == [];
    ScanGrouped(s, legal, 0, 0, None, 0);
    assert ScanWraps(s, legal, 0, None, 0) == Wraps(slots) by {
      assert Wraps(Grouped(s[..0], legal)) == [];
    }
    WrapsEmpty(slots);
    MaterializeApply(g, b, slots);
  }

  /** Creates the async.execute at index `pos` of block `b` and splices the `n` operations after it into its body. */
  method WrapRun(rw: Rewriter, b: BlockId, pos: nat, n: nat)
    requires b in rw.blocks && b < rw.nextBlock && pos + n <= |rw.blocks[b].ops|
    modifies rw
    ensures rw.G() == WrapRunAt(old(rw.G()), b, pos, n)
  {
    WrapRunAtIs(rw.G(), b, pos, n);
    var exec, body := rw.CreateExecAt(b, pos);
    rw.SpliceToFront(b, pos + 1, n, body);
  }

  /** One iteration of the block loop, at operation `i` of the snapshot `s`. */
  method BlockLoopStep(rw: Rewriter, ghost g0: Graph, b: BlockId, s: seq<OpId>, legal: set<OpId>, i: nat, begin: Option<nat>, pos: nat,
                ok: bool, ghost ws: seq<(nat, nat)>) returns (begin': Option<nat>, pos': nat, ok': bool)
    requires ScanState(rw.G(), g0, b, s, legal, i, begin, pos, ok, ws) && i < |s|
    modifies rw
    ensures ScanState(rw.G(), g0, b, s, legal, i + 1, begin', pos', ok', ws)
  {
    if s[i] in legal {
      ScanLegalStep(rw.G(), g0, b, s, legal, i, begin, pos, ok, ws);
      return if begin.None? then Some(i) else begin, pos, ok;
    }
    if begin.None? {
      ScanKeepStep(rw.G(), g0, b, s, legal, i, pos, ok, ws);
      return None, pos + 1, ok;
    }
    ScanCloseStep(rw.G(), g0, b, s, legal, i, begin.value, pos, ok, ws);
    WrapRun(rw, b, pos, i - begin.value);
    return None, pos + 2, true;
  }

  /**
   * matchAndRewriteBlock: it walks the operations of the block as they were
   * on entry, remembers where the current legal run began, and at the first
   * illegal operation after a run creates an async.execute there and splices
   * the run into its body.
   */
  method WrapBlockInPlace(rw: Rewriter, b: BlockId, legal: set<OpId>) returns (ok: bool)
    requires Valid(rw.G()) && b in rw.blocks
    modifies rw
    ensures ok == WrapBlock(old(rw.G()), b, legal).Success?
    ensures rw.G() == if ok then WrapBlock(old(rw.G()), b, legal).value else old(rw.G())
  {
    ghost var g0 := rw.G();
    var s := rw.blocks[b].ops;
    ghost var ws := ScanWraps(s, legal, 0, None, 0);
    ok := false;
    var legalBegin: Option<nat> := None;
    var pos := 0;
    for i := 0 to |s|
      invariant ScanState(rw.G(), g0, b, s, legal, i, legalBegin, pos, ok, ws)
    {
      legalBegin, pos, ok := BlockLoopStep(rw, g0, b, s, legal, i, legalBegin, pos, ok, ws);
    }
    ScanEnd(rw.G(), g0, b, s, legal, legalBegin, pos, ok, ws);
    ScanIsWrapBlock(g0, b, legal);
  }
}
