/**
 * WaitOpRewritePattern: a gpu.wait inside a function taking a chain and a
 * stream and returning a chain becomes explicit stream synchronisation.
 * Its operands must be events, plus at most one token cast from a chain and
 * a stream, which then supplies the chain and stream to continue from (the
 * function's own chain and stream arguments otherwise).  An async wait
 * inside an async.execute first moves to a new chain and a new stream
 * created on the context of the old one, synchronised with the old stream
 * by a recorded event when there is no event operand; then the stream waits
 * on every event in turn, each wait consuming the chain the previous one
 * produced.  An async wait becomes a cast of the final chain and stream to a
 * token; a plain wait hands the final chain to the function's terminator
 * and disappears.
 */
module WaitOpRewrite {
  import opened Wrappers
  import opened Ir
  import opened Edits
  import opened Rewriting

  /** getParentOfType<FuncOp> finds a function whose first two inputs are a chain and a stream. */
  predicate InChainStreamFunc(g: Graph, w: OpId) {
    var f := EnclosingFunc(g, w);
    && f.Some?
    && var k := g.ops[f.value].kind;
    |k.inputs| >= 2 && k.inputs[0] == ChainT && k.inputs[1] == StreamT
  }

  /** The last block of the body of `f` ends in an operation whose operand 0 is a chain. */
  predicate ReturnsChain(g: Graph, f: OpId) {
    var t := RegionTerminator(g, f);
    t.Some? && t.value in g.ops && g.ops[t.value].operands != [] && HasType(g, g.ops[t.value].operands[0], ChainT)
  }

  /** An operand the rewrite accepts: an event, or a token cast from a chain and a stream. */
  predicate EventOrCast(g: Graph, v: Value) {
    HasType(g, v, EventT) || DefiningCast(g, v).Some?
  }

  /** The event operands among `vs`, in order. */
  function Events(g: Graph, vs: seq<Value>): (r: seq<Value>)
    ensures |r| <= |vs|
  {
    if vs == [] then []
    else (if HasType(g, vs[0], EventT) then [vs[0]] else []) + Events(g, vs[1..])
  }

  /** The casts defining the operands among `vs` that are not events, in order. */
  function Casts(g: Graph, vs: seq<Value>): (r: seq<OpId>)
    ensures forall c :: c in r ==> IsChainStreamCast(g, c)
  {
    if vs == [] then []
    else
      (if !HasType(g, vs[0], EventT) && DefiningCast(g, vs[0]).Some? then [DefiningCast(g, vs[0]).value] else [])
      + Casts(g, vs[1..])
  }

  /**
   * What the loop over the operands gathers: the events to wait on, the
   * chain and the stream to continue from, and the casts it asked the
   * rewriter to erase.
   */
  datatype Gathered = Gathered(events: seq<Value>, chain: Value, stream: Value, casts: seq<OpId>)

  /**
   * The loop over the operands `vs`, from operand `i` on: an event is
   * collected, a cast of a chain and a stream takes over chain and stream
   * and is scheduled for erasure, anything else fails the match.
   */
  function Gather(g: Graph, vs: seq<Value>, i: nat, acc: Gathered): Result<Gathered, MatchFailure>
    requires i <= |vs|
    decreases |vs| - i
  {
    if i == |vs| then Success(acc)
    else if HasType(g, vs[i], EventT) then Gather(g, vs, i + 1, acc.(events := acc.events + [vs[i]]))
    else match DefiningCast(g, vs[i])
      case Some(c) =>
        Gather(g, vs, i + 1, acc.(chain := g.ops[c].operands[0], stream := g.ops[c].operands[1], casts := acc.casts + [c]))
      case None => Failure(ExpectedEventOrCast)
  }

  /**
   * The operations an async wait inside an async.execute starts with,
   * numbered from `n`: a new chain, the context of `stream`, when there is
   * no event an event created on that context and recorded on `stream`
   * against the new chain, and a new stream on the context.
   */
  function Prelude(n: OpId, b: BlockId, stream: Value, noEvents: bool): seq<Op> {
    [Op(NewChain, [], [ChainT], [], b), Op(StreamGetContext, [stream], [ContextT], [], b)]
    + (if noEvents then
         [Op(EventCreate, [Res(n + 1, 0)], [EventT], [], b),
          Op(EventRecord, [Res(n + 2, 0), stream, Res(n, 0)], [ChainT], [], b)]
       else [])
    + [Op(StreamCreate, [Res(n + 1, 0)], [StreamT], [], b)]
  }

  /** The events, chain and stream once the prelude numbered from `n` was emitted. */
  function AfterPrelude(n: OpId, gat: Gathered): Gathered {
    if gat.events == [] then gat.(events := [Res(n + 2, 0)], chain := Res(n + 3, 0), stream := Res(n + 4, 0))
    else gat.(chain := Res(n, 0), stream := Res(n + 2, 0))
  }

  /** The chain after the waits on `evs` numbered from `n`, starting from `chain`. */
  function ChainAfter(n: OpId, evs: seq<Value>, chain: Value): Value {
    if evs == [] then chain else Res(n + |evs| - 1, 0)
  }

  /** The loop creating one StreamWait per event, numbered from `n`, threading the chain. */
  function Waits(n: OpId, b: BlockId, stream: Value, evs: seq<Value>, chain: Value): (r: seq<Op>)
    decreases |evs|
  {
    if evs == [] then []
    else
      var e := evs[..|evs| - 1];
      Waits(n, b, stream, e, chain) + [Op(StreamWait, [stream, Last(evs), ChainAfter(n, e, chain)], [ChainT], [], b)]
  }

  /**
   * Everything the rewrite creates before the wait, numbered from `n`, with
   * the final chain and stream.
   */
  function Emitted(n: OpId, b: BlockId, inAsync: bool, gat: Gathered): (Gathered, seq<Op>) {
    var pre := if inAsync then Prelude(n, b, gat.stream, gat.events == []) else [];
    var st := if inAsync then AfterPrelude(n, gat) else gat;
    var m := n + |pre|;
    (st.(chain := ChainAfter(m, st.events, st.chain)), pre + Waits(m, b, st.stream, st.events, st.chain))
  }

  /**
   * The emitted operations `os` go right before wait `w`, operand 0 of
   * terminator `t` becomes `chain` and `w` is erased.
   */
  function PlainStep(g: Graph, w: OpId, t: OpId, chain: Value, os: seq<Op>): Graph
    requires Valid(g) && Placed(g, w) && t in g.ops && g.ops[t].operands != []
  {
    var g2 := InsertSeq(g, w, os);
    assert g2.ops[t] == g.ops[t];
    Erase(SetOperand(g2, t, 0, chain), w)
  }

  /** The emitted operations `os` go right before wait `w`, which is then replaced by `cast`. */
  function AsyncStep(g: Graph, w: OpId, cast: Op, os: seq<Op>): Graph
    requires Valid(g) && Placed(g, w)
  {
    var g2 := InsertSeq(g, w, os);
    assert g2.ops[w] == g.ops[w];
    ReplaceOp(g2, w, cast).0
  }

  /**
   * The edits of a successful match: the emitted operations go right before
   * wait `w`; an async wait is replaced by a cast of the final chain and
   * stream to a token, a plain one sets operand 0 of terminator `t` to the
   * final chain and is erased; the casts erased in the loop go last, as the
   * conversion rewriter performs erasures once the pattern is done.
   */
  function Lower(g: Graph, w: OpId, t: OpId, gat: Gathered): Graph
    requires Valid(g) && Placed(g, w) && t in g.ops && g.ops[t].operands != []
  {
    var (fin, os) := Plan(g, w, gat);
    var g3 := if g.ops[w].results != [] then AsyncStep(g, w, TokenCast(g, w, fin), os)
              else PlainStep(g, w, t, fin.chain, os);
    EraseAll(g3, gat.casts)
  }

  /**
   * What the rewrite of wait `w` emits from the next free id on, in its
   * block, with the final chain and stream; the prelude only for an async
   * wait inside an async.execute.
   */
  function Plan(g: Graph, w: OpId, gat: Gathered): (Gathered, seq<Op>)
    requires w in g.ops
  {
    Emitted(g.nextOp, g.ops[w].parent, g.ops[w].results != [] && InsideAsyncRegion(g, w), gat)
  }

  /** The cast of the final chain and stream to a token that replaces an async wait `w`. */
  function TokenCast(g: Graph, w: OpId, fin: Gathered): Op
    requires w in g.ops
  {
    Op(Cast, [fin.chain, fin.stream], [TokenT], [], g.ops[w].parent)
  }

  /** The chain and stream the operand loop starts from: the first two arguments of the function. */
  function Start(g: Graph, f: OpId): Gathered
    requires f in g.ops && g.ops[f].regions != []
  {
    Gathered([], Arg(g.ops[f].regions[0], 0), Arg(g.ops[f].regions[0], 1), [])
  }

  /** The rewrite of gpu.wait `w`; a failure leaves the graph as it was. */
  function Wait(g: Graph, w: OpId): Result<Graph, MatchFailure>
    requires Valid(g) && Placed(g, w)
  {
    if !InChainStreamFunc(g, w) then Failure(NotInChainStreamFunc)
    else
      var f := EnclosingFunc(g, w).value;
      if !ReturnsChain(g, f) then Failure(NotInFuncReturningChain)
      else
        var vs := g.ops[w].operands;
        match Gather(g, vs, 0, Start(g, f))
        case Failure(e) => Failure(e)
        case Success(gat) =>
          if |gat.events| + 1 < |vs| then Failure(MoreThanOneToken)
          else Success(Lower(g, w, RegionTerminator(g, f).value, gat))
  }

  /** The chain and stream of the last of the casts `cs`; `chain` and `stream` when there is none. */
  function TakeLast(g: Graph, chain: Value, stream: Value, cs: seq<OpId>): (Value, Value)
    requires forall c :: c in cs ==> IsChainStreamCast(g, c)
  {
    if cs == [] then (chain, stream)
    else
      var c := cs[|cs| - 1];
      assert c in cs;
      assert IsChainStreamCast(g, c);
      (g.ops[c].operands[0], g.ops[c].operands[1])
  }

  /** The operand loop succeeds exactly when every remaining operand is an event or a cast. */
  lemma {:induction false} GatherOk(g: Graph, vs: seq<Value>, i: nat, acc: Gathered)
    requires i <= |vs|
    ensures Gather(g, vs, i, acc).Success? <==> forall j :: i <= j < |vs| ==> EventOrCast(g, vs[j])
    ensures Gather(g, vs, i, acc).Failure? ==> Gather(g, vs, i, acc).error == ExpectedEventOrCast
    decreases |vs| - i
  {
    if i < |vs| {
      var v := vs[i];
      if HasType(g, v, EventT) {
        GatherOk(g, vs, i + 1, acc.(events := acc.events + [v]));
      } else if DefiningCast(g, v).Some? {
        var c := DefiningCast(g, v).value;
        GatherOk(g, vs, i + 1, acc.(chain := g.ops[c].operands[0], stream := g.ops[c].operands[1], casts := acc.casts + [c]));
      }
    }
  }

  /**
   * A successful operand loop adds the events in order and the casts in
   * order, and continues from the chain and stream of the last cast.
   */
  lemma {:induction false} GatherValue(g: Graph, vs: seq<Value>, i: nat, acc: Gathered)
    requires i <= |vs| && Gather(g, vs, i, acc).Success?
    ensures Gather(g, vs, i, acc).value
      == Gathered(acc.events + Events(g, vs[i..]), TakeLast(g, acc.chain, acc.stream, Casts(g, vs[i..])).0,
                  TakeLast(g, acc.chain, acc.stream, Casts(g, vs[i..])).1, acc.casts + Casts(g, vs[i..]))
    decreases |vs| - i, 1
  {
    if i == |vs| {
      assert vs[i..] == [];
    } else if HasType(g, vs[i], EventT) {
      GatherEvent(g, vs, i, acc);
    } else {
      GatherCast(g, vs, i, acc);
    }
  }

  lemma {:induction false} GatherEvent(g: Graph, vs: seq<Value>, i: nat, acc: Gathered)
    requires i < |vs| && HasType(g, vs[i], EventT) && Gather(g, vs, i, acc).Success?
    ensures Gather(g, vs, i, acc).value
      == Gathered(acc.events + Events(g, vs[i..]), TakeLast(g, acc.chain, acc.stream, Casts(g, vs[i..])).0,
                  TakeLast(g, acc.chain, acc.stream, Casts(g, vs[i..])).1, acc.casts + Casts(g, vs[i..]))
    decreases |vs| - i, 0
  {
    var acc1 := acc.(events := acc.events + [vs[i]]);
    GatherValue(g, vs, i + 1, acc1);
    SplitHead(g, vs, i);
    ConcatAssoc(acc.events, [vs[i]], Events(g, vs[i + 1..]));
  }

  lemma {:induction false} GatherCast(g: Graph, vs: seq<Value>, i: nat, acc: Gathered)
    requires i < |vs| && !HasType(g, vs[i], EventT) && Gather(g, vs, i, acc).Success?
    ensures Gather(g, vs, i, acc).value
      == Gathered(acc.events + Events(g, vs[i..]), TakeLast(g, acc.chain, acc.stream, Casts(g, vs[i..])).0,
                  TakeLast(g, acc.chain, acc.stream, Casts(g, vs[i..])).1, acc.casts + Casts(g, vs[i..]))
    decreases |vs| - i, 0
  {
    var c := DefiningCast(g, vs[i]).value;
    var acc1 := acc.(chain := g.ops[c].operands[0], stream := g.ops[c].operands[1], casts := acc.casts + [c]);
    GatherValue(g, vs, i + 1, acc1);
    SplitHead(g, vs, i);
    ConcatAssoc(acc.casts, [c], Casts(g, vs[i + 1..]));
    TakeLastCons(g, acc.chain, acc.stream, c, Casts(g, vs[i + 1..]));
  }

  /** The events and casts among the operands from `i` on: those of operand `i`, then those after it. */
  lemma {:induction false} SplitHead(g: Graph, vs: seq<Value>, i: nat)
    requires i < |vs|
    ensures Events(g, vs[i..]) == (if HasType(g, vs[i], EventT) then [vs[i]] else []) + Events(g, vs[i + 1..])
    ensures Casts(g, vs[i..])
         == (if !HasType(g, vs[i], EventT) && DefiningCast(g, vs[i]).Some? then [DefiningCast(g, vs[i]).value] else [])
            + Casts(g, vs[i + 1..])
  {
    assert vs[i..][1..] == vs[i + 1..];
  }

  lemma {:induction false} ConcatAssoc<T>(a: seq<T>, b: seq<T>, c: seq<T>)
    ensures a + b + c == a + (b + c)
  {
  }

  /** A later cast overrides the chain and stream of an earlier one. */
  lemma {:induction false} TakeLastCons(g: Graph, chain: Value, stream: Value, c: OpId, rest: seq<OpId>)
    requires IsChainStreamCast(g, c) && forall d :: d in rest ==> IsChainStreamCast(g, d)
    ensures TakeLast(g, g.ops[c].operands[0], g.ops[c].operands[1], rest) == TakeLast(g, chain, stream, [c] + rest)
  {
    if rest != [] {
      assert ([c] + rest)[|rest|] == rest[|rest| - 1];
    }
  }

  /** When every operand is an event or a cast, each is counted exactly once. */
  lemma {:induction false} SplitCount(g: Graph, vs: seq<Value>)
    requires forall j :: 0 <= j < |vs| ==> EventOrCast(g, vs[j])
    ensures |Events(g, vs)| + |Casts(g, vs)| == |vs|
  {
    if vs != [] {
      assert forall j :: 0 <= j < |vs| - 1 ==> vs[1..][j] == vs[j + 1];
      SplitCount(g, vs[1..]);
      assert EventOrCast(g, vs[0]);
    }
  }

  /** The operand loop started from the function's arguments, run to the end. */
  function Gathering(g: Graph, w: OpId, f: OpId): Result<Gathered, MatchFailure>
    requires w in g.ops && f in g.ops && g.ops[f].regions != []
  {
    Gather(g, g.ops[w].operands, 0, Start(g, f))
  }

  /** Every operand of `w` is an event or a token cast from a chain and a stream. */
  predicate AllEventOrCast(g: Graph, w: OpId)
    requires w in g.ops
  {
    forall j :: 0 <= j < |g.ops[w].operands| ==> EventOrCast(g, g.ops[w].operands[j])
  }

  /**
   * The rewrite fails, leaving the graph as it was, when the enclosing
   * function does not take a chain and a stream first, when it does not
   * return a chain, when an operand is neither an event nor a cast, or when
   * more than one operand is a cast, checked in this order; otherwise it
   * succeeds.
   */
  lemma {:induction false} WaitFailures(g: Graph, w: OpId)
    requires Valid(g) && Placed(g, w)
    ensures Wait(g, w) == Failure(NotInChainStreamFunc) <==> !InChainStreamFunc(g, w)
    ensures Wait(g, w) == Failure(NotInFuncReturningChain)
      <==> InChainStreamFunc(g, w) && !ReturnsChain(g, EnclosingFunc(g, w).value)
    ensures Wait(g, w) == Failure(ExpectedEventOrCast)
      <==> InChainStreamFunc(g, w) && ReturnsChain(g, EnclosingFunc(g, w).value) && !AllEventOrCast(g, w)
    ensures Wait(g, w) == Failure(MoreThanOneToken)
      <==> InChainStreamFunc(g, w) && ReturnsChain(g, EnclosingFunc(g, w).value) && AllEventOrCast(g, w)
           && |Casts(g, g.ops[w].operands)| > 1
    ensures Wait(g, w).Success?
      <==> InChainStreamFunc(g, w) && ReturnsChain(g, EnclosingFunc(g, w).value) && AllEventOrCast(g, w)
           && |Casts(g, g.ops[w].operands)| <= 1
  {
    if InChainStreamFunc(g, w) && ReturnsChain(g, EnclosingFunc(g, w).value) {
      var f := EnclosingFunc(g, w).value;
      var vs := g.ops[w].operands;
      GatherOk(g, vs, 0, Start(g, f));
      assert vs[0..] == vs;
      if AllEventOrCast(g, w) {
        SplitCount(g, vs);
        GatherValue(g, vs, 0, Start(g, f));
        var gat := Gather(g, vs, 0, Start(g, f)).value;
        assert |gat.events| == |Events(g, vs)| && |gat.casts| == |Casts(g, vs)|;
        assert Wait(g, w) == if |gat.events| + 1 < |vs| then Failure(MoreThanOneToken)
                             else Success(Lower(g, w, RegionTerminator(g, f).value, gat));
      } else {
        assert Wait(g, w) == Failure(ExpectedEventOrCast);
      }
    }
  }

  /**
   * The waits on `evs` numbered from `n`: one StreamWait per event, in the
   * order of the events, on `stream`, the first consuming `chain` and each
   * later one the chain produced by the wait created just before it.
   */
  lemma {:induction false} WaitsThreaded(n: OpId, b: BlockId, stream: Value, evs: seq<Value>, chain: Value)
    ensures |Waits(n, b, stream, evs, chain)| == |evs|
    ensures forall j :: 0 <= j < |evs| ==>
      Waits(n, b, stream, evs, chain)[j]
        == Op(StreamWait, [stream, evs[j], if j == 0 then chain else Res(n + j - 1, 0)], [ChainT], [], b)
    decreases |evs|
  {
    if evs != [] {
      var m := |evs| - 1;
      var e := evs[..m];
      WaitsThreaded(n, b, stream, e, chain);
      forall j | 0 <= j < m
        ensures evs[j] == e[j]
      {
      }
    }
  }

  /**
   * A plain wait, or one outside an async.execute, creates exactly one
   * StreamWait per event operand, in operand order, on the stream it
   * continues from, threading the chain from one to the next; the final
   * chain is the one the last wait produced.
   */
  lemma {:induction false} EmittedPlain(n: OpId, b: BlockId, gat: Gathered)
    ensures |Emitted(n, b, false, gat).1| == |gat.events|
    ensures forall j :: 0 <= j < |gat.events| ==>
      Emitted(n, b, false, gat).1[j]
        == Op(StreamWait, [gat.stream, gat.events[j], if j == 0 then gat.chain else Res(n + j - 1, 0)], [ChainT], [], b)
    ensures Emitted(n, b, false, gat).0.stream == gat.stream
    ensures Emitted(n, b, false, gat).0.chain == if gat.events == [] then gat.chain else Res(n + |gat.events| - 1, 0)
  {
    WaitsThreaded(n, b, gat.stream, gat.events, gat.chain);
    assert [] + Waits(n, b, gat.stream, gat.events, gat.chain) == Waits(n, b, gat.stream, gat.events, gat.chain);
  }

  /**
   * `e` is what an async wait inside an async.execute emits from id `n` on,
   * given what the operand loop gathered: first a new chain and the context
   * of the stream it continues from; only when there is no event operand,
   * an event created on that context and recorded on that stream against
   * the new chain; then a new stream on the context, which waits once on
   * each event operand, or once on the recorded event, threading the chain;
   * it ends with the chain of the last wait and the new stream.
   */
  ghost predicate InAsyncShape(n: OpId, b: BlockId, gat: Gathered, e: (Gathered, seq<Op>)) {
    var os := e.1;
    && |os| >= 3
    && os[0] == Op(NewChain, [], [ChainT], [], b)
    && os[1] == Op(StreamGetContext, [gat.stream], [ContextT], [], b)
    && (gat.events == [] ==>
          && |os| == 6
          && os[2] == Op(EventCreate, [Res(n + 1, 0)], [EventT], [], b)
          && os[3] == Op(EventRecord, [Res(n + 2, 0), gat.stream, Res(n, 0)], [ChainT], [], b)
          && os[4] == Op(StreamCreate, [Res(n + 1, 0)], [StreamT], [], b)
          && os[5] == Op(StreamWait, [Res(n + 4, 0), Res(n + 2, 0), Res(n + 3, 0)], [ChainT], [], b)
          && e.0.stream == Res(n + 4, 0))
    && (gat.events != [] ==>
          && |os| == 3 + |gat.events|
          && os[2] == Op(StreamCreate, [Res(n + 1, 0)], [StreamT], [], b)
          && (forall j :: 0 <= j < |gat.events| ==>
                os[3 + j] == Op(StreamWait, [Res(n + 2, 0), gat.events[j], if j == 0 then Res(n, 0) else Res(n + 2 + j, 0)],
                                [ChainT], [], b))
          && e.0.stream == Res(n + 2, 0))
    && e.0.chain == Res(n + |os| - 1, 0)
  }

  /** What an async wait inside an async.execute emits. */
  lemma {:induction false} EmittedInAsync(n: OpId, b: BlockId, gat: Gathered)
    ensures InAsyncShape(n, b, gat, Emitted(n, b, true, gat))
  {
    if gat.events == [] {
      EmittedNoEvents(n, b, gat);
    } else {
      EmittedEvents(n, b, gat);
    }
  }

  /** Without event operands: the prelude records an event, and the new stream waits once, on it. */
  lemma {:induction false} EmittedNoEvents(n: OpId, b: BlockId, gat: Gathered)
    requires gat.events == []
    ensures InAsyncShape(n, b, gat, Emitted(n, b, true, gat))
  {
    var pre := Prelude(n, b, gat.stream, true);
    var ws := Waits(n + 5, b, Res(n + 4, 0), [Res(n + 2, 0)], Res(n + 3, 0));
    assert [Res(n + 2, 0)][..0] == [];
    assert Waits(n + 5, b, Res(n + 4, 0), [], Res(n + 3, 0)) == [];
    assert ws == [] + [Op(StreamWait, [Res(n + 4, 0), Res(n + 2, 0), Res(n + 3, 0)], [ChainT], [], b)];
    assert Emitted(n, b, true, gat).1 == pre + ws;
  }

  /** With event operands: the new stream waits on each, threading the chain from the new one. */
  lemma {:induction false} EmittedEvents(n: OpId, b: BlockId, gat: Gathered)
    requires gat.events != []
    ensures InAsyncShape(n, b, gat, Emitted(n, b, true, gat))
  {
    var pre := Prelude(n, b, gat.stream, false);
    var ws := Waits(n + 3, b, Res(n + 2, 0), gat.events, Res(n, 0));
    var e := Emitted(n, b, true, gat);
    assert e.1 == pre + ws;
    assert e.0.stream == Res(n + 2, 0) && e.0.chain == Res(n + 3 + |gat.events| - 1, 0);
    assert |pre| == 3;
    WaitsThreaded(n + 3, b, Res(n + 2, 0), gat.events, Res(n, 0));
    EventsShape(n, b, gat, e, pre, ws);
  }

  lemma {:induction false} EventsShape(n: OpId, b: BlockId, gat: Gathered, e: (Gathered, seq<Op>), pre: seq<Op>, ws: seq<Op>)
    requires gat.events != [] && pre == Prelude(n, b, gat.stream, false) && e.1 == pre + ws
    requires e.0.stream == Res(n + 2, 0) && e.0.chain == Res(n + 3 + |gat.events| - 1, 0)
    requires |ws| == |gat.events|
    requires forall j :: 0 <= j < |gat.events| ==>
      ws[j] == Op(StreamWait, [Res(n + 2, 0), gat.events[j], if j == 0 then Res(n, 0) else Res(n + 3 + j - 1, 0)], [ChainT], [], b)
    ensures InAsyncShape(n, b, gat, e)
  {
    PreludeThen(pre, ws);
    forall j | 0 <= j < |gat.events|
      ensures e.1[3 + j]
           == Op(StreamWait, [Res(n + 2, 0), gat.events[j], if j == 0 then Res(n, 0) else Res(n + 2 + j, 0)], [ChainT], [], b)
    {
      assert e.1[3 + j] == ws[j];
    }
  }

  lemma {:induction false} PreludeThen(pre: seq<Op>, ws: seq<Op>)
    ensures forall j :: 0 <= j < |ws| ==> (pre + ws)[|pre| + j] == ws[j]
    ensures forall j :: 0 <= j < |pre| ==> (pre + ws)[j] == pre[j]
  {
  }

  /** The number of operations of kind `k` among `os`. */
  function CountKind(os: seq<Op>, k: OpKind): nat {
    if os == [] then 0 else (if os[0].kind == k then 1 else 0) + CountKind(os[1..], k)
  }

  lemma {:induction false} CountKindAppend(a: seq<Op>, c: seq<Op>, k: OpKind)
    ensures CountKind(a + c, k) == CountKind(a, k) + CountKind(c, k)
    decreases |a|
  {
    if a != [] {
      assert (a + c)[1..] == a[1..] + c;
      CountKindAppend(a[1..], c, k);
    } else {
      assert a + c == c;
    }
  }

  lemma {:induction false} WaitsCount(n: OpId, b: BlockId, stream: Value, evs: seq<Value>, chain: Value)
    ensures CountKind(Waits(n, b, stream, evs, chain), StreamWait) == |evs|
    decreases |evs|
  {
    if evs != [] {
      var e := evs[..|evs| - 1];
      WaitsCount(n, b, stream, e, chain);
      var w := Op(StreamWait, [stream, Last(evs), ChainAfter(n, e, chain)], [ChainT], [], b);
      CountKindAppend(Waits(n, b, stream, e, chain), [w], StreamWait);
    }
  }

  /**
   * The rewrite creates exactly one StreamWait per event operand, or a
   * single one, on the recorded event, for an async wait without event
   * operands inside an async.execute.
   */
  lemma {:induction false} EmittedWaitCount(n: OpId, b: BlockId, inAsync: bool, gat: Gathered)
    ensures CountKind(Emitted(n, b, inAsync, gat).1, StreamWait)
      == if inAsync && gat.events == [] then 1 else |gat.events|
  {
    var pre := if inAsync then Prelude(n, b, gat.stream, gat.events == []) else [];
    var st := if inAsync then AfterPrelude(n, gat) else gat;
    var m := n + |pre|;
    var ws := Waits(m, b, st.stream, st.events, st.chain);
    assert Emitted(n, b, inAsync, gat).1 == pre + ws;
    WaitsCount(m, b, st.stream, st.events, st.chain);
    CountKindAppend(pre, ws, StreamWait);
    CountKindNone(pre, StreamWait);
    assert |st.events| == if inAsync && gat.events == [] then 1 else |gat.events|;
  }

  lemma {:induction false} CountKindNone(os: seq<Op>, k: OpKind)
    requires forall j :: 0 <= j < |os| ==> os[j].kind != k
    ensures CountKind(os, k) == 0
  {
    if os != [] {
      assert forall j :: 0 <= j < |os| - 1 ==> os[1..][j] == os[j + 1];
      CountKindNone(os[1..], k);
    }
  }
  /** The blocks once `m` new operations took the place of `w` in its block. */
  function Spliced(g: Graph, w: OpId, m: nat): map<BlockId, Block>
    requires Placed(g, w) && w in g.blocks[g.ops[w].parent].ops
  {
    var b := g.ops[w].parent;
    var s := g.blocks[b].ops;
    var i := IndexOf(s, w);
    g.blocks[b := g.blocks[b].(ops := s[..i] + Ids(g.nextOp, m) + s[i + 1..])]
  }

  /**
   * `rs` holds the operations of `a` but those in `gone`, with operand 0 of
   * `t` set to `chain`, and the operations `os` numbered from `n` in block
   * `b`.
   */
  ghost predicate PlainOps(a: map<OpId, Op>, n: OpId, b: BlockId, gone: set<OpId>, t: OpId, chain: Value, os: seq<Op>, rs: map<OpId, Op>) {
    && (forall o :: o in rs <==> (o in a && o !in gone) || n <= o < n + |os|)
    && (forall j :: 0 <= j < |os| ==> n + j in rs && rs[n + j] == os[j].(parent := b))
    && (forall o :: o in a && o !in gone && o != t ==> o in rs && rs[o] == a[o])
    && (t in a && t !in gone && a[t].operands != [] ==> t in rs && rs[t] == a[t].(operands := a[t].operands[0 := chain]))
  }

  /**
   * `rs` holds the operations of `a` but those in `gone`, and `os` then
   * `cast` numbered from `n` in block `b`, with every use of the first result
   * of `w` redirected to `cast`.
   */
  ghost predicate AsyncOps(a: map<OpId, Op>, n: OpId, b: BlockId, gone: set<OpId>, w: OpId, cast: Op, os: seq<Op>, rs: map<OpId, Op>) {
    && (forall o :: o in rs <==> (o in a && o !in gone) || n <= o <= n + |os|)
    && (forall j :: 0 <= j < |os| ==>
          n + j in rs && rs[n + j] == os[j].(parent := b, operands := Subst(os[j].operands, Res(w, 0), Res(n + |os|, 0))))
    && n + |os| in rs
    && rs[n + |os|] == cast.(parent := b, operands := Subst(cast.operands, Res(w, 0), Res(n + |os|, 0)))
    && (forall o :: o in a && o !in gone ==> o in rs && rs[o] == a[o].(operands := Subst(a[o].operands, Res(w, 0), Res(n + |os|, 0))))
  }

  /** Erasing old operations `xs` after the plain step. */
  lemma {:induction false} PlainOpsErased(a: map<OpId, Op>, n: OpId, b: BlockId, gone: set<OpId>, t: OpId, chain: Value, os: seq<Op>,
                       rs: map<OpId, Op>, xs: set<OpId>)
    requires PlainOps(a, n, b, gone, t, chain, os, rs)
    requires forall x :: x in xs ==> x < n
    ensures PlainOps(a, n, b, gone + xs, t, chain, os, rs - xs)
  {
  }

  /** Erasing old operations `xs` after the async step. */
  lemma {:induction false} AsyncOpsErased(a: map<OpId, Op>, n: OpId, b: BlockId, gone: set<OpId>, w: OpId, cast: Op, os: seq<Op>,
                       rs: map<OpId, Op>, xs: set<OpId>)
    requires AsyncOps(a, n, b, gone, w, cast, os, rs)
    requires forall x :: x in xs ==> x < n
    ensures AsyncOps(a, n, b, gone + xs, w, cast, os, rs - xs)
  {
  }

  /**
   * The plain step: the operations `os` exist under the ids from the next
   * free one on, in the block of `w`, which lists them where `w` was; `w`
   * is gone, operand 0 of `t` is `chain`, and nothing else changed.
   */
  lemma {:induction false} PlainStepEffect(g: Graph, w: OpId, t: OpId, chain: Value, os: seq<Op>)
    requires WellFormed(g) && Placed(g, w) && t in g.ops && g.ops[t].operands != []
    ensures PlainOps(g.ops, g.nextOp, g.ops[w].parent, {w}, t, chain, os, PlainStep(g, w, t, chain, os).ops)
    ensures PlainStep(g, w, t, chain, os).blocks == Spliced(g, w, |os|)
  {
    ListedOnce(g, w);
    PlainStepOps(g, w, t, chain, os);
    PlainStepBlocks(g, w, t, chain, os);
    PlainMap(g.ops, g.nextOp, g.ops[w].parent, w, t, chain, os, PlainStep(g, w, t, chain, os).ops);
  }

  /** The operations `rs`, built from those of `a` as the plain step builds them. */
  lemma {:induction false} PlainMap(a: map<OpId, Op>, n: OpId, b: BlockId, w: OpId, t: OpId, chain: Value, os: seq<Op>, rs: map<OpId, Op>)
    requires (forall o :: o in a ==> o < n) && w in a && t in a && a[t].operands != []
    requires rs == (a + Numbered(os, n, b))[t := a[t].(operands := a[t].operands[0 := chain])] - {w}
    ensures PlainOps(a, n, b, {w}, t, chain, os, rs)
  {
  }

  lemma {:induction false} PlainStepOps(g: Graph, w: OpId, t: OpId, chain: Value, os: seq<Op>)
    requires Valid(g) && Placed(g, w) && t in g.ops && g.ops[t].operands != []
    ensures PlainStep(g, w, t, chain, os).ops
      == (g.ops + Numbered(os, g.nextOp, g.ops[w].parent))[t := g.ops[t].(operands := g.ops[t].operands[0 := chain])] - {w}
  {
    var g2 := InsertSeq(g, w, os);
    assert g2.ops == g.ops + Numbered(os, g.nextOp, g.ops[w].parent);
    assert g2.ops[t] == g.ops[t];
    var g2s := SetOperand(g2, t, 0, chain);
    assert g2s.ops == g2.ops[t := g.ops[t].(operands := g.ops[t].operands[0 := chain])];
    assert PlainStep(g, w, t, chain, os) == Erase(g2s, w);
  }

  lemma {:induction false} PlainStepBlocks(g: Graph, w: OpId, t: OpId, chain: Value, os: seq<Op>)
    requires Valid(g) && Placed(g, w) && t in g.ops && g.ops[t].operands != []
    requires var s := g.blocks[g.ops[w].parent].ops;
      IndexOf(s, w) < |s| && w !in s[IndexOf(s, w) + 1..]
    ensures PlainStep(g, w, t, chain, os).blocks == Spliced(g, w, |os|)
  {
    var g2 := InsertSeq(g, w, os);
    assert g2.ops[t] == g.ops[t] && g2.ops[w] == g.ops[w];
    var g2s := SetOperand(g2, t, 0, chain);
    assert g2s.ops[w].parent == g.ops[w].parent;
    assert PlainStep(g, w, t, chain, os) == Erase(g2s, w);
    EraseInserted(g, w, |os|, g2s);
  }

  /** Erasing `w` once `k` operations were created right before it. */
  lemma {:induction false} EraseInserted(g: Graph, w: OpId, k: nat, h: Graph)
    requires w < g.nextOp && Placed(g, w)
    requires var s := g.blocks[g.ops[w].parent].ops;
      IndexOf(s, w) < |s| && w !in s[IndexOf(s, w) + 1..]
    requires h.blocks == InsertedBlocks(g, w, k) && w in h.ops && h.ops[w].parent == g.ops[w].parent
    ensures Erase(h, w).blocks == Spliced(g, w, k)
  {
    var b := g.ops[w].parent;
    var s := g.blocks[b].ops;
    var i := IndexOf(s, w);
    var s2 := s[..i] + Ids(g.nextOp, k) + s[i..];
    var s3 := s[..i] + Ids(g.nextOp, k) + s[i + 1..];
    assert h.blocks == g.blocks[b := g.blocks[b].(ops := s2)];
    assert Erase(h, w).blocks == h.blocks[b := h.blocks[b].(ops := Without(s2, w))];
    IndexOfFirst(s, w);
    WithoutAt(s, i, g.nextOp, k, w);
    UpdateTwice(g.blocks, b, s2, s3);
  }

  /**
   * The async step: the operations `os` exist under the ids from the next
   * free one on and `cast` right after them, in the block of `w`, which
   * lists them where `w` was; `w` is gone and every use of its token now
   * uses the cast.
   */
  lemma {:induction false} AsyncStepEffect(g: Graph, w: OpId, cast: Op, os: seq<Op>)
    requires WellFormed(g) && Placed(g, w) && g.ops[w].results != []
    ensures AsyncOps(g.ops, g.nextOp, g.ops[w].parent, {w}, w, cast, os, AsyncStep(g, w, cast, os).ops)
    ensures AsyncStep(g, w, cast, os).blocks == Spliced(g, w, |os| + 1)
  {
    AsyncStepOps(g, w, cast, os);
    ListedOnce(g, w);
    AsyncStepBlocks(g, w, cast, os);
  }

  lemma {:induction false} AsyncStepOps(g: Graph, w: OpId, cast: Op, os: seq<Op>)
    requires Valid(g) && Placed(g, w) && g.ops[w].results != []
    ensures AsyncOps(g.ops, g.nextOp, g.ops[w].parent, {w}, w, cast, os, AsyncStep(g, w, cast, os).ops)
  {
    var n := g.nextOp;
    var b := g.ops[w].parent;
    var rs := AsyncStep(g, w, cast, os).ops;
    var m, h := AsyncStepMaps(g, w, cast, os, n, b, rs);
    AsyncMap(g.ops, m, h, rs, w, cast, os, n, b);
  }

  /** The operations of the async step, before and after the uses of `w` are redirected. */
  lemma {:induction false} AsyncStepMaps(g: Graph, w: OpId, cast: Op, os: seq<Op>, n: OpId, b: BlockId, rs: map<OpId, Op>)
    returns (m: map<OpId, Op>, h: map<OpId, Op>)
    requires Valid(g) && Placed(g, w) && g.ops[w].results != []
    requires n == g.nextOp && b == g.ops[w].parent && rs == AsyncStep(g, w, cast, os).ops
    ensures forall o :: o in m <==> o in g.ops || n <= o <= n + |os|
    ensures forall j :: 0 <= j < |os| ==> m[n + j] == os[j].(parent := b)
    ensures m[n + |os|] == cast.(parent := b)
    ensures forall o :: o in g.ops ==> m[o] == g.ops[o]
    ensures forall o :: o in h <==> o in m
    ensures forall o :: o in m ==> h[o] == m[o].(operands := Subst(m[o].operands, Res(w, 0), Res(n + |os|, 0)))
    ensures rs == h - {w}
  {
    var g2 := InsertSeq(g, w, os);
    assert g2.ops[w] == g.ops[w];
    InsertSeqStep(g, w, os, cast);
    var g4 := InsertSeq(g, w, os + [cast]);
    assert InsertBefore(g2, w, cast).0 == g4;
    assert g4.ops == g.ops + Numbered(os + [cast], n, b);
    NumberedSnoc(os, cast, n, b);
    UpdateUnion(g.ops, Numbered(os, n, b), n + |os|, cast.(parent := b));
    m := g4.ops;
    InsertedOps(g.ops, os, cast, n, b, m);
    assert g2.nextOp == n + |os|;
    var r := ReplaceOp(g2, w, cast).0;
    assert AsyncStep(g, w, cast, os) == r;
    ReplaceOpSteps(g2, w, cast, g4);
    h := ReplaceUses(g4, Res(w, 0), Res(g2.nextOp, 0)).ops;
  }

  /**
   * The operations `rs`: those of `a` and the operations `m` adds, `os`
   * then `cast` numbered from `n`, with every use of the first result of
   * `w` redirected to `cast`, and `w` removed.
   */
  lemma {:induction false} AsyncMap(a: map<OpId, Op>, m: map<OpId, Op>, h: map<OpId, Op>, rs: map<OpId, Op>, w: OpId, cast: Op, os: seq<Op>, n: OpId, b: BlockId)
    requires w in a && forall o :: o in a ==> o < n
    requires forall o :: o in m <==> o in a || n <= o <= n + |os|
    requires forall j :: 0 <= j < |os| ==> m[n + j] == os[j].(parent := b)
    requires m[n + |os|] == cast.(parent := b)
    requires forall o :: o in a ==> m[o] == a[o]
    requires forall o :: o in h <==> o in m
    requires forall o :: o in m ==> h[o] == m[o].(operands := Subst(m[o].operands, Res(w, 0), Res(n + |os|, 0)))
    requires rs == h - {w}
    ensures AsyncOps(a, n, b, {w}, w, cast, os, rs)
  {
  }

  /** The operations `os` and `cast` numbered from `n` on, joined to `a`. */
  lemma {:induction false} InsertedOps(a: map<OpId, Op>, os: seq<Op>, cast: Op, n: OpId, b: BlockId, m: map<OpId, Op>)
    requires forall o :: o in a ==> o < n
    requires m == (a + Numbered(os, n, b))[n + |os| := cast.(parent := b)]
    ensures forall o :: o in m <==> o in a || n <= o <= n + |os|
    ensures forall j :: 0 <= j < |os| ==> m[n + j] == os[j].(parent := b)
    ensures m[n + |os|] == cast.(parent := b)
    ensures forall o :: o in a ==> m[o] == a[o]
  {
    var nu := Numbered(os, n, b);
    forall j | 0 <= j < |os|
      ensures m[n + j] == os[j].(parent := b)
    {
      assert n + j in nu;
    }
  }

  lemma {:induction false} AsyncStepBlocks(g: Graph, w: OpId, cast: Op, os: seq<Op>)
    requires Valid(g) && Placed(g, w)
    requires var s := g.blocks[g.ops[w].parent].ops;
      IndexOf(s, w) < |s| && w !in s[IndexOf(s, w) + 1..]
    ensures AsyncStep(g, w, cast, os).blocks == Spliced(g, w, |os| + 1)
  {
    var g2 := InsertSeq(g, w, os);
    assert g2.ops[w] == g.ops[w];
    InsertSeqStep(g, w, os, cast);
    var g4 := InsertSeq(g, w, os + [cast]);
    assert InsertBefore(g2, w, cast).0 == g4;
    assert g4.ops[w] == g.ops[w];
    var h := if |g2.ops[w].results| > 0 then ReplaceUses(g4, Res(w, 0), Res(g2.nextOp, 0)) else g4;
    assert h.blocks == g4.blocks && w in h.ops && h.ops[w].parent == g.ops[w].parent;
    assert AsyncStep(g, w, cast, os) == Erase(h, w);
    EraseInserted(g, w, |os| + 1, h);
  }


  /** An old operation listed nowhere in a block is listed nowhere once `m` new ones took the place of another one. */
  lemma {:induction false} NotInSplice(s: seq<OpId>, i: nat, n: OpId, m: nat, x: OpId)
    requires i < |s| && x !in s && x < n
    ensures x !in s[..i] + Ids(n, m) + s[i + 1..]
  {
    PrefixMembers(s, i);
    SliceMembers(s, i + 1);
    assert x !in Ids(n, m) by {
      forall j | 0 <= j < m
        ensures Ids(n, m)[j] != x
      {
      }
    }
  }

  /**
   * After a step that took the place of `w` in its block, the old
   * operations `casts` are still placed in their own blocks and listed in no
   * other, so erasing them removes them from every block.
   */
  lemma {:induction false} CastsErasable(g: Graph, w: OpId, m: nat, casts: seq<OpId>, h: Graph)
    requires WellFormed(g) && Placed(g, w)
    requires forall c :: c in casts ==> c in g.ops
    requires h.blocks == Spliced(g, w, m)
    requires forall c :: c in casts ==> c in h.ops && h.ops[c].parent == g.ops[c].parent
    ensures forall x :: x in casts ==> Placed(h, x)
    ensures forall x, q :: x in casts && x in h.ops && q in h.blocks && q != h.ops[x].parent ==> x !in h.blocks[q].ops
  {
    var b := g.ops[w].parent;
    var s := g.blocks[b].ops;
    var i := IndexOf(s, w);
    ListedOnce(g, w);
    forall x, q | x in casts && x in h.ops && q in h.blocks && q != h.ops[x].parent
      ensures x !in h.blocks[q].ops
    {
      NotListedElsewhere(g, x, q);
      if q == b {
        NotInSplice(s, i, g.nextOp, m, x);
      }
    }
  }

  /**
   * A plain wait lowered with at most one cast: the emitted operations
   * exist under the next free ids in the block of `w`, which lists them
   * where `w` was; `w` and the cast are gone from the arena and from every
   * block; operand 0 of terminator `t` is the final chain; every other
   * operation is unchanged.
   */
  lemma {:induction false} LowerPlain(g: Graph, w: OpId, t: OpId, gat: Gathered)
    requires WellFormed(g) && Placed(g, w) && g.ops[w].kind == OpKind.Wait && g.ops[w].results == []
    requires t in g.ops && g.ops[t].operands != []
    requires |gat.casts| <= 1 && forall c :: c in gat.casts ==> IsChainStreamCast(g, c)
    ensures PlainOps(g.ops, g.nextOp, g.ops[w].parent, {w} + (set c | c in gat.casts), t,
                     Plan(g, w, gat).0.chain, Plan(g, w, gat).1, Lower(g, w, t, gat).ops)
    ensures Lower(g, w, t, gat).blocks == Removed(Spliced(g, w, |Plan(g, w, gat).1|), gat.casts)
  {
    var n := g.nextOp;
    var b := g.ops[w].parent;
    var os := Plan(g, w, gat).1;
    var chain := Plan(g, w, gat).0.chain;
    var g3 := PlainStep(g, w, t, chain, os);
    PlainStepEffect(g, w, t, chain, os);
    forall c | c in gat.casts
      ensures c in g.ops && c != w && c < n
      ensures c in g3.ops && g3.ops[c].parent == g.ops[c].parent
    {
      assert IsChainStreamCast(g, c);
    }
    CastsErasable(g, w, |os|, gat.casts, g3);
    EraseAtMostOne(g3, gat.casts);
    assert Lower(g, w, t, gat).ops == EraseAll(g3, gat.casts).ops;
    assert Lower(g, w, t, gat).blocks == EraseAll(g3, gat.casts).blocks;
    PlainOpsErased(g.ops, n, b, {w}, t, chain, os, g3.ops, set c | c in gat.casts);
  }

  /**
   * An async wait lowered with at most one cast: the emitted operations and
   * then the token cast of the final chain and stream exist under the next
   * free ids in the block of `w`, which lists them where `w` was; `w` and the
   * erased cast are gone from the arena and from every block; every use of
   * the token of `w` now uses the new cast; nothing else changed.
   */
  lemma {:induction false} LowerAsync(g: Graph, w: OpId, t: OpId, gat: Gathered)
    requires WellFormed(g) && Placed(g, w) && g.ops[w].kind == OpKind.Wait && g.ops[w].results != []
    requires t in g.ops && g.ops[t].operands != []
    requires |gat.casts| <= 1 && forall c :: c in gat.casts ==> IsChainStreamCast(g, c)
    ensures AsyncOps(g.ops, g.nextOp, g.ops[w].parent, {w} + (set c | c in gat.casts), w,
                     TokenCast(g, w, Plan(g, w, gat).0), Plan(g, w, gat).1, Lower(g, w, t, gat).ops)
    ensures Lower(g, w, t, gat).blocks == Removed(Spliced(g, w, |Plan(g, w, gat).1| + 1), gat.casts)
  {
    var n := g.nextOp;
    var b := g.ops[w].parent;
    var os := Plan(g, w, gat).1;
    var cast := TokenCast(g, w, Plan(g, w, gat).0);
    var g3 := AsyncStep(g, w, cast, os);
    AsyncStepEffect(g, w, cast, os);
    forall c | c in gat.casts
      ensures c in g.ops && c != w && c < n
      ensures c in g3.ops && g3.ops[c].parent == g.ops[c].parent
    {
      assert IsChainStreamCast(g, c);
    }
    CastsErasable(g, w, |os| + 1, gat.casts, g3);
    EraseAtMostOne(g3, gat.casts);
    assert Lower(g, w, t, gat).ops == EraseAll(g3, gat.casts).ops;
    assert Lower(g, w, t, gat).blocks == EraseAll(g3, gat.casts).blocks;
    AsyncOpsErased(g.ops, n, b, {w}, w, cast, os, g3.ops, set c | c in gat.casts);
  }

  /**
   * A successful rewrite is the lowering of what the operand loop gathered:
   * the event operands in order, at most one cast, and the chain and stream
   * of that cast, or the function's chain and stream arguments without one.
   */
  lemma {:induction false} WaitLowers(g: Graph, w: OpId)
    requires Valid(g) && Placed(g, w) && Wait(g, w).Success?
    ensures var f := EnclosingFunc(g, w).value;
      var vs := g.ops[w].operands;
      var st := Start(g, f);
      && f in g.ops && g.ops[f].regions != []
      && ReturnsChain(g, f)
      && |Casts(g, vs)| <= 1
      && Wait(g, w).value
         == Lower(g, w, RegionTerminator(g, f).value,
                  Gathered(Events(g, vs), TakeLast(g, st.chain, st.stream, Casts(g, vs)).0,
                           TakeLast(g, st.chain, st.stream, Casts(g, vs)).1, Casts(g, vs)))
  {
    var f := EnclosingFunc(g, w).value;
    var vs := g.ops[w].operands;
    WaitFailures(g, w);
    GatherValue(g, vs, 0, Start(g, f));
    assert vs[0..] == vs;
    assert [] + Events(g, vs) == Events(g, vs) && [] + Casts(g, vs) == Casts(g, vs);
  }

  /** Creates `op` right before `w`, after the operations `sofar` created there from graph `g` on. */
  method Emit(rw: Rewriter, w: OpId, ghost g: Graph, ghost sofar: seq<Op>, op: Op) returns (id: OpId)
    requires Valid(g) && Placed(g, w) && rw.G() == InsertSeq(g, w, sofar)
    modifies rw
    ensures rw.G() == InsertSeq(g, w, sofar + [op]) && id == g.nextOp + |sofar|
  {
    InsertSeqStep(g, w, sofar, op);
    id := rw.InsertBefore(w, op);
  }

  /**
   * Emits, right before `w`, the prelude of an async wait inside an
   * async.execute when `inAsync` holds, then one StreamWait per event,
   * threading the chain; returns the final chain and stream.
   */
  method EmitLowering(rw: Rewriter, w: OpId, inAsync: bool, gat: Gathered) returns (fin: Gathered)
    requires Valid(rw.G()) && Placed(rw.G(), w)
    modifies rw
    ensures rw.G() == InsertSeq(old(rw.G()), w, Emitted(old(rw.nextOp), old(rw.ops[w].parent), inAsync, gat).1)
    ensures fin == Emitted(old(rw.nextOp), old(rw.ops[w].parent), inAsync, gat).0
  {
    ghost var g := rw.G();
    var n := rw.nextOp;
    var b := rw.ops[w].parent;
    var pre: seq<Op> := [];
    var st := gat;
    if inAsync {
      pre := Prelude(n, b, gat.stream, gat.events == []);
      st := AfterPrelude(n, gat);
    }
    rw.InsertAll(w, pre);
    var chain := EmitWaits(rw, w, g, pre, b, st.stream, st.events, st.chain);
    fin := st.(chain := chain);
  }

  /**
   * Emits one StreamWait per event of `evs` right before `w`, after the
   * operations `pre`, on `stream`, each consuming the chain the previous one
   * produced, from `chain0` on; returns the final chain.
   */
  method EmitWaits(rw: Rewriter, w: OpId, ghost g: Graph, ghost pre: seq<Op>, b: BlockId, stream: Value, evs: seq<Value>, chain0: Value)
    returns (chain: Value)
    requires Valid(g) && Placed(g, w) && rw.G() == InsertSeq(g, w, pre)
    modifies rw
    ensures rw.G() == InsertSeq(g, w, pre + Waits(g.nextOp + |pre|, b, stream, evs, chain0))
    ensures chain == ChainAfter(g.nextOp + |pre|, evs, chain0)
  {
    ghost var m := g.nextOp + |pre|;
    ghost var sofar := pre;
    chain := chain0;
    var k := 0;
    assert evs[..0] == [];
    while k < |evs|
      invariant k <= |evs|
      invariant sofar == pre + Waits(m, b, stream, evs[..k], chain0)
      invariant rw.G() == InsertSeq(g, w, sofar)
      invariant chain == ChainAfter(m, evs[..k], chain0)
    {
      var op := Op(StreamWait, [stream, evs[k], chain], [ChainT], [], b);
      WaitStep(m, b, stream, evs, k, chain0, pre, sofar, chain);
      var id := Emit(rw, w, g, sofar, op);
      sofar := sofar + [op];
      chain := Res(id, 0);
      k := k + 1;
    }
    assert evs[..k] == evs;
    assert sofar == pre + Waits(g.nextOp + |pre|, b, stream, evs, chain0);
  }

  /** The loop of EmitWaits emits one more wait, on event `k`, after `pre` and the waits before it. */
  lemma {:induction false} WaitStep(m: OpId, b: BlockId, stream: Value, evs: seq<Value>, k: nat, chain0: Value,
                                    pre: seq<Op>, sofar: seq<Op>, chain: Value)
    requires k < |evs| && sofar == pre + Waits(m, b, stream, evs[..k], chain0) && chain == ChainAfter(m, evs[..k], chain0)
    ensures |sofar| == |pre| + k
    ensures sofar + [Op(StreamWait, [stream, evs[k], chain], [ChainT], [], b)] == pre + Waits(m, b, stream, evs[..k + 1], chain0)
    ensures ChainAfter(m, evs[..k + 1], chain0) == Res(m + k, 0)
  {
    WaitsSnoc(m, b, stream, evs, k, chain0);
    ConcatAssoc(pre, Waits(m, b, stream, evs[..k], chain0), [Op(StreamWait, [stream, evs[k], chain], [ChainT], [], b)]);
  }

  /** One more wait, on event `k`, consuming the chain the waits on the events before it produced. */
  lemma {:induction false} WaitsSnoc(m: OpId, b: BlockId, stream: Value, evs: seq<Value>, k: nat, chain0: Value)
    requires k < |evs|
    ensures |Waits(m, b, stream, evs[..k], chain0)| == k
    ensures Waits(m, b, stream, evs[..k + 1], chain0)
      == Waits(m, b, stream, evs[..k], chain0) + [Op(StreamWait, [stream, evs[k], ChainAfter(m, evs[..k], chain0)], [ChainT], [], b)]
    ensures ChainAfter(m, evs[..k + 1], chain0) == Res(m + k, 0)
  {
    WaitsThreaded(m, b, stream, evs[..k], chain0);
    assert evs[..k + 1][..k] == evs[..k];
  }

  /** Erases the operations `xs` in turn. */
  method EraseEach(rw: Rewriter, xs: seq<OpId>)
    modifies rw
    ensures rw.G() == EraseAll(old(rw.G()), xs)
  {
    var k := 0;
    while k < |xs|
      invariant k <= |xs|
      invariant EraseAll(rw.G(), xs[k..]) == EraseAll(old(rw.G()), xs)
    {
      assert xs[k..][0] == xs[k] && xs[k..][1..] == xs[k + 1..];
      rw.Erase(xs[k]);
      k := k + 1;
    }
  }

  /**
   * WaitOpRewritePattern::matchAndRewrite on the rewriter's arena: the
   * checks, the operand loop, the emitted operations, and the replacement
   * or erasure of the wait; the casts met in the loop are erased last.
   */
  method WaitInPlace(rw: Rewriter, w: OpId) returns (res: Result<(), MatchFailure>)
    requires Valid(rw.G()) && Placed(rw.G(), w)
    modifies rw
    ensures res.Success? == Wait(old(rw.G()), w).Success?
    ensures res.Failure? ==> res.error == Wait(old(rw.G()), w).error && rw.G() == old(rw.G())
    ensures res.Success? ==> rw.G() == Wait(old(rw.G()), w).value
  {
    var g := rw.G();
    if !InChainStreamFunc(g, w) {
      return Failure(NotInChainStreamFunc);
    }
    var f := EnclosingFunc(g, w).value;
    if !ReturnsChain(g, f) {
      return Failure(NotInFuncReturningChain);
    }
    var t := RegionTerminator(g, f).value;
    var vs := g.ops[w].operands;
    var gat := Start(g, f);
    var i := 0;
    while i < |vs|
      invariant i <= |vs|
      invariant Gather(g, vs, i, gat) == Gather(g, vs, 0, Start(g, f))
    {
      var v := vs[i];
      if HasType(g, v, EventT) {
        gat := gat.(events := gat.events + [v]);
      } else {
        var cast := DefiningCast(g, v);
        if cast.None? {
          return Failure(ExpectedEventOrCast);
        }
        var c := cast.value;
        gat := gat.(chain := g.ops[c].operands[0], stream := g.ops[c].operands[1], casts := gat.casts + [c]);
      }
      i := i + 1;
    }
    if |gat.events| + 1 < |vs| {
      return Failure(MoreThanOneToken);
    }
    var fin := EmitLowering(rw, w, g.ops[w].results != [] && InsideAsyncRegion(g, w), gat);
    ghost var g2 := rw.G();
    assert g2 == InsertSeq(g, w, Plan(g, w, gat).1);
    assert g2.ops[w] == g.ops[w] && g2.ops[t] == g.ops[t];
    if g.ops[w].results != [] {
      var _ := rw.ReplaceOp(w, Op(Cast, [fin.chain, fin.stream], [TokenT], [], g.ops[w].parent));
    } else {
      rw.SetOperand(t, 0, fin.chain);
      rw.Erase(w);
    }
    EraseEach(rw, gat.casts);
    return Success(());
  }
}
