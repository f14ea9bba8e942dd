/**
 * The metadata function of tf.Mean on the CPU: it checks the reduction
 * indices against the rank of the input and computes the shape of the
 * result, which keeps the dimensions that are not reduced, in order, and
 * the element type of the input.
 */
module TfMean {
  import opened Wrappers

  /** An element type, by its code. */
  type DType = nat

  /** The metadata of a tensor: its element type and its dimension sizes. */
  datatype TensorMetadata = TensorMetadata(dtype: DType, dims: seq<int>)

  /** Why the reduction indices were rejected. */
  datatype MeanError =
    | IndexOutOfRange  // some index lies outside [0, rank)
    | IndexRepeated    // some index is given twice

  /**
   * The first failure the loop over the reduction indices `idx` meets,
   * checking each index in turn: out of [0, rank) first, then already seen.
   */
  function Check(rank: nat, idx: seq<int>): Option<MeanError>
    decreases |idx|
  {
    if idx == [] then None
    else
      var init := idx[..|idx| - 1];
      var x := idx[|idx| - 1];
      match Check(rank, init)
      case Some(e) => Some(e)
      case None =>
        if x < 0 || x >= rank then Some(IndexOutOfRange)
        else if x in init then Some(IndexRepeated)
        else None
  }

  /** The dimensions of `dims` whose position is not in `reduced`, in order. */
  function Kept(dims: seq<int>, reduced: set<int>): seq<int>
    decreases |dims|
  {
    if dims == [] then []
    else
      var n := |dims| - 1;
      Kept(dims[..n], reduced) + (if n in reduced then [] else [dims[n]])
  }

  /** The metadata TfMeanOutputMd computes for an input of type `dtype` and shape `dims`. */
  function MeanOutput(dtype: DType, dims: seq<int>, idx: seq<int>): Result<TensorMetadata, MeanError> {
    match Check(|dims|, idx)
    case Some(e) => Failure(e)
    case None => Success(TensorMetadata(dtype, Kept(dims, set x | x in idx)))
  }

  /** Every reduction index lies in [0, rank) and none occurs twice. */
  predicate ValidIndices(rank: nat, idx: seq<int>) {
    (forall j :: 0 <= j < |idx| ==> 0 <= idx[j] < rank)
    && (forall j, l :: 0 <= j < l < |idx| ==> idx[j] != idx[l])
  }

  /** The check passes exactly when every index is in range and none repeats. */
  lemma {:induction false} CheckValid(rank: nat, idx: seq<int>)
    ensures Check(rank, idx) == None <==> ValidIndices(rank, idx)
    decreases |idx|
  {
    if idx != [] {
      var n := |idx| - 1;
      var init := idx[..n];
      CheckValid(rank, init);
      if ValidIndices(rank, idx) {
        assert ValidIndices(rank, init);
        assert idx[n] !in init by {
          forall j | 0 <= j < n
            ensures init[j] != idx[n]
          {
          }
        }
      } else if Check(rank, init) == None {
        if idx[n] in init {
          var j :| 0 <= j < n && init[j] == idx[n];
          assert idx[j] == idx[n];
        }
      }
    }
  }

  /**
   * The check fails on an index out of range exactly when some index is out
   * of range while every index before it is in range and new.
   */
  lemma {:induction false} CheckOutOfRange(rank: nat, idx: seq<int>)
    ensures Check(rank, idx) == Some(IndexOutOfRange)
      <==> exists j :: 0 <= j < |idx| && !(0 <= idx[j] < rank) && ValidIndices(rank, idx[..j])
  {
    OutOfRangeWitness(rank, idx);
    if exists j :: 0 <= j < |idx| && !(0 <= idx[j] < rank) && ValidIndices(rank, idx[..j]) {
      var j :| 0 <= j < |idx| && !(0 <= idx[j] < rank) && ValidIndices(rank, idx[..j]);
      OutOfRangeAt(rank, idx, j);
    }
  }

  /** An index out of range behind valid ones makes the check fail on it. */
  lemma {:induction false} OutOfRangeAt(rank: nat, idx: seq<int>, j: nat)
    requires j < |idx| && !(0 <= idx[j] < rank) && ValidIndices(rank, idx[..j])
    ensures Check(rank, idx) == Some(IndexOutOfRange)
  {
    CheckValid(rank, idx[..j]);
    var p := idx[..j + 1];
    assert p[..j] == idx[..j] && p[j] == idx[j];
    CheckPrefix(rank, idx, j + 1);
  }

  /** A failure on an index out of range is due to the first index that is out of range or repeated. */
  lemma {:induction false} OutOfRangeWitness(rank: nat, idx: seq<int>)
    ensures Check(rank, idx) == Some(IndexOutOfRange)
      ==> exists j :: 0 <= j < |idx| && !(0 <= idx[j] < rank) && ValidIndices(rank, idx[..j])
    decreases |idx|
  {
    if idx != [] && Check(rank, idx) == Some(IndexOutOfRange) {
      var n := |idx| - 1;
      var init := idx[..n];
      if Check(rank, init) == Some(IndexOutOfRange) {
        OutOfRangeWitness(rank, init);
        var j :| 0 <= j < |init| && !(0 <= init[j] < rank) && ValidIndices(rank, init[..j]);
        assert init[..j] == idx[..j] && idx[j] == init[j];
      } else {
        CheckValid(rank, init);
        assert idx[..n] == init;
      }
    }
  }

  /** Once the check failed on a prefix of the indices, it fails the same way on all of them. */
  lemma {:induction false} CheckPrefix(rank: nat, idx: seq<int>, k: nat)
    requires k <= |idx| && Check(rank, idx[..k]).Some?
    ensures Check(rank, idx) == Check(rank, idx[..k])
    decreases |idx| - k
  {
    if k < |idx| {
      var p := idx[..k + 1];
      assert p[..k] == idx[..k];
      assert Check(rank, p) == Check(rank, idx[..k]);
      CheckPrefix(rank, idx, k + 1);
    } else {
      assert idx[..k] == idx;
    }
  }

  /** The strictly increasing positions below `n` that are not in `reduced`. */
  function Positions(n: nat, reduced: set<int>): (r: seq<nat>)
    ensures forall p :: p in r <==> 0 <= p < n && p !in reduced
    ensures forall j, l :: 0 <= j < l < |r| ==> r[j] < r[l]
    decreases n
  {
    if n == 0 then []
    else
      var r0 := Positions(n - 1, reduced);
      assert forall j :: 0 <= j < |r0| ==> r0[j] in r0;
      r0 + (if n - 1 in reduced then [] else [n - 1])
  }

  /**
   * The kept dimensions are exactly the dimensions at the positions that are
   * not reduced, taken in increasing order.
   */
  lemma {:induction false} KeptAtPositions(dims: seq<int>, reduced: set<int>)
    ensures |Kept(dims, reduced)| == |Positions(|dims|, reduced)|
    ensures forall j :: 0 <= j < |Kept(dims, reduced)| ==>
      Positions(|dims|, reduced)[j] < |dims| && Kept(dims, reduced)[j] == dims[Positions(|dims|, reduced)[j]]
    decreases |dims|
  {
    if dims != [] {
      var n := |dims| - 1;
      KeptAtPositions(dims[..n], reduced);
      var ps := Positions(n, reduced);
      forall j | 0 <= j < |ps|
        ensures ps[j] < n && dims[..n][ps[j]] == dims[ps[j]]
      {
        assert ps[j] in ps;
      }
    }
  }

  /** The number of positions below `n` in `s`. */
  function CountBelow(n: nat, s: set<int>): nat {
    if n == 0 then 0 else CountBelow(n - 1, s) + (if n - 1 in s then 1 else 0)
  }

  lemma {:induction false} CountAdd(n: nat, s: set<int>, x: int)
    requires 0 <= x < n && x !in s
    ensures CountBelow(n, s + {x}) == CountBelow(n, s) + 1
    decreases n
  {
    if x < n - 1 {
      CountAdd(n - 1, s, x);
    } else {
      CountSame(n - 1, s, x);
    }
  }

  lemma {:induction false} CountSame(n: nat, s: set<int>, x: int)
    requires n <= x
    ensures CountBelow(n, s + {x}) == CountBelow(n, s)
    decreases n
  {
    if n > 0 {
      CountSame(n - 1, s, x);
    }
  }

  /** Valid reduction indices name exactly as many positions below the rank as there are indices. */
  lemma {:induction false} CountIndices(rank: nat, idx: seq<int>)
    requires ValidIndices(rank, idx)
    ensures CountBelow(rank, set x | x in idx) == |idx|
    decreases |idx|
  {
    if idx == [] {
      assert (set x | x in idx) == {};
      CountNone(rank);
    } else {
      var n := |idx| - 1;
      var init := idx[..n];
      assert ValidIndices(rank, init);
      CountIndices(rank, init);
      assert (set x | x in idx) == (set x | x in init) + {idx[n]};
      assert idx[n] !in (set x | x in init) by {
        forall j | 0 <= j < n
          ensures init[j] != idx[n]
        {
        }
      }
      CountAdd(rank, (set x | x in init), idx[n]);
    }
  }

  lemma {:induction false} CountNone(n: nat)
    ensures CountBelow(n, {}) == 0
  {
    if n > 0 {
      CountNone(n - 1);
    }
  }

  /** The kept and the reduced positions below the rank account for every dimension. */
  lemma {:induction false} KeptCount(dims: seq<int>, reduced: set<int>)
    ensures |Kept(dims, reduced)| + CountBelow(|dims|, reduced) == |dims|
    decreases |dims|
  {
    if dims != [] {
      KeptCount(dims[..|dims| - 1], reduced);
    }
  }

  /**
   * On success the output has the element type of the input, its rank is
   * the input rank less the number of reduction indices, and its dimensions
   * are the input dimensions at the positions not reduced, in order.
   */
  lemma {:induction false} MeanOutputShape(dtype: DType, dims: seq<int>, idx: seq<int>)
    requires MeanOutput(dtype, dims, idx).Success?
    ensures MeanOutput(dtype, dims, idx).value.dtype == dtype
    ensures |MeanOutput(dtype, dims, idx).value.dims| == |dims| - |idx|
    ensures var ps := Positions(|dims|, set x | x in idx);
      && |MeanOutput(dtype, dims, idx).value.dims| == |ps|
      && forall j :: 0 <= j < |ps| ==> ps[j] < |dims| && MeanOutput(dtype, dims, idx).value.dims[j] == dims[ps[j]]
  {
    CheckValid(|dims|, idx);
    KeptCount(dims, set x | x in idx);
    CountIndices(|dims|, idx);
    KeptAtPositions(dims, set x | x in idx);
  }

  /** Without reduction indices the output shape is the input shape. */
  lemma {:induction false} MeanNoIndices(dtype: DType, dims: seq<int>)
    ensures MeanOutput(dtype, dims, []) == Success(TensorMetadata(dtype, dims))
  {
    assert (set x: int | x in []) == {};
    KeptAll(dims);
  }

  lemma {:induction false} KeptAll(dims: seq<int>)
    ensures Kept(dims, {}) == dims
    decreases |dims|
  {
    if dims != [] {
      KeptAll(dims[..|dims| - 1]);
    }
  }

  /**
   * TfMeanOutputMd: the first loop marks each reduction index in a flag per
   * input dimension, failing on an index out of range or already marked; the
   * second loop collects the sizes of the dimensions left unmarked.
   */
  method TfMeanOutputMd(dtype: DType, dims: seq<int>, indices: seq<int>) returns (r: Result<TensorMetadata, MeanError>)
    ensures r == MeanOutput(dtype, dims, indices)
  {
    var rank := |dims|;
    var reduced := new bool[rank](_ => false);
    var k := 0;
    while k < |indices|
      invariant k <= |indices|
      invariant Check(rank, indices[..k]) == None
      invariant forall p :: 0 <= p < rank ==> reduced[p] == (p in indices[..k])
    {
      var index := indices[k];
      assert indices[..k + 1][..k] == indices[..k];
      if index < 0 || index >= rank {
        CheckPrefix(rank, indices, k + 1);
        return Failure(IndexOutOfRange);
      }
      if reduced[index] {
        CheckPrefix(rank, indices, k + 1);
        return Failure(IndexRepeated);
      }
      reduced[index] := true;
      k := k + 1;
    }
    assert indices[..k] == indices;
    ghost var marked := set x | x in indices;
    var out: seq<int> := [];
    var i := 0;
    while i < rank
      invariant i <= rank
      invariant out == Kept(dims[..i], marked)
    {
      assert dims[..i + 1][..i] == dims[..i];
      if !reduced[i] {
        out := out + [dims[i]];
      }
      i := i + 1;
    }
    assert dims[..i] == dims;
    return Success(TensorMetadata(dtype, out));
  }
}
