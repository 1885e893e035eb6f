/** Order-preserving layouts: how a list built by appending parts of at most
    one element each relates back to those parts. */
module Order {

  /** Each of the first |idx| output elements is the single element of part idx[j]. */
  predicate Maps<T(==)>(idx: seq<nat>, out: seq<T>, parts: seq<seq<T>>)
  {
    && |idx| == |out|
    && forall j :: 0 <= j < |idx| ==> idx[j] < |parts| && parts[idx[j]] == [out[j]]
  }

  predicate Increasing(idx: seq<nat>)
  {
    forall j, k :: 0 <= j < k < |idx| ==> idx[j] < idx[k]
  }

  /** Every non-empty part is mapped to. */
  predicate Covers<T>(idx: seq<nat>, parts: seq<seq<T>>)
  {
    forall p :: 0 <= p < |parts| && parts[p] != [] ==> p in idx
  }

  /** `idx` maps each output element to the position of the part that produced
      it: positions strictly increase, and every non-empty part has one. */
  predicate InOrder<T(==)>(idx: seq<nat>, out: seq<T>, parts: seq<seq<T>>)
  {
    Maps(idx, out, parts) && Increasing(idx) && Covers(idx, parts)
  }

  /** An empty part leaves the output and the mapping as they were. */
  lemma StepEmpty<T>(init: seq<seq<T>>, out: seq<T>, prev: seq<nat>)
    requires InOrder(prev, out, init)
    ensures InOrder(prev, out, init + [[]])
  {
    var parts := init + [[]];
    forall j | 0 <= j < |prev|
      ensures prev[j] < |parts| && parts[prev[j]] == [out[j]]
    {
      assert parts[prev[j]] == init[prev[j]];
    }
    forall p | 0 <= p < |parts| && parts[p] != []
      ensures p in prev
    {
      assert parts[p] == init[p];
    }
  }

  lemma MapsStepSingle<T>(init: seq<seq<T>>, out: seq<T>, x: T, prev: seq<nat>)
    requires Maps(prev, out, init)
    ensures Maps(prev + [|init|], out + [x], init + [[x]])
  {
    var parts := init + [[x]];
    var idx := prev + [|init|];
    forall j | 0 <= j < |idx|
      ensures idx[j] < |parts| && parts[idx[j]] == [(out + [x])[j]]
    {
      if j < |prev| {
        assert idx[j] == prev[j] && parts[prev[j]] == init[prev[j]];
      }
    }
  }

  lemma IncreasingStep(prev: seq<nat>, n: nat)
    requires Increasing(prev)
    requires forall j :: 0 <= j < |prev| ==> prev[j] < n
    ensures Increasing(prev + [n])
  {
    var idx := prev + [n];
    forall j, k | 0 <= j < k < |idx|
      ensures idx[j] < idx[k]
    {
      if k < |prev| {
        assert idx[j] == prev[j] && idx[k] == prev[k];
      } else {
        assert idx[j] == prev[j] && idx[k] == n;
      }
    }
  }

  lemma CoversStepSingle<T>(init: seq<seq<T>>, x: T, prev: seq<nat>)
    requires Covers(prev, init)
    ensures Covers(prev + [|init|], init + [[x]])
  {
    var parts := init + [[x]];
    var idx := prev + [|init|];
    forall p | 0 <= p < |parts| && parts[p] != []
      ensures p in idx
    {
      if p < |init| {
        assert parts[p] == init[p];
        assert p in prev;
      } else {
        assert idx[|prev|] == p;
      }
    }
  }

  /** A one-element part extends the output by its element and maps that
      element to the new part. */
  lemma StepSingle<T>(init: seq<seq<T>>, out: seq<T>, x: T, prev: seq<nat>)
    requires InOrder(prev, out, init)
    ensures InOrder(prev + [|init|], out + [x], init + [[x]])
  {
    MapsStepSingle(init, out, x, prev);
    IncreasingStep(prev, |init|);
    CoversStepSingle(init, x, prev);
  }

  /** The positions of the non-empty parts, in increasing order. */
  function NonEmptyPositions<T>(parts: seq<seq<T>>): (idx: seq<nat>)
    decreases |parts|
  {
    if parts == [] then []
    else
      var prev := NonEmptyPositions(parts[..|parts| - 1]);
      if |parts[|parts| - 1]| == 0 then prev else prev + [|parts| - 1]
  }
}
