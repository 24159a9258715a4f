/** numpy arrays of pixel values, as far as the cubemap scripts look at them: a shape,
    the shape checks both readers make, and the two axis transpositions between
    height-width-channel (HWC) and channel-height-width (CHW) layouts. */
module NdArrays {
  import opened Outcomes

  /** One uint8 sample. */
  type Byte = b: int | 0 <= b < 256

  /** An n-dimensional array: its shape and the sample stored at each index tuple.
      Only the indices within the shape are meaningful. */
  datatype NdArray = NdArray(shape: seq<nat>, at: seq<nat> -> Byte)

  predicate InBounds(shape: seq<nat>, idx: seq<nat>) {
    |idx| == |shape| && forall k :: 0 <= k < |idx| ==> idx[k] < shape[k]
  }

  /** Two arrays are the same when they have the same shape and agree on every index. */
  ghost predicate SameArray(a: NdArray, b: NdArray) {
    a.shape == b.shape && forall idx | InBounds(a.shape, idx) :: a.at(idx) == b.at(idx)
  }

  /** The two asserts of the readers, in order: `len(img.shape) == 3`, then
      `img.shape[-1] == 3`. None when both hold, otherwise the error raised. */
  function HwcCheck(a: NdArray): (r: Option<Error>)
    ensures r.None? <==> |a.shape| == 3 && a.shape[2] == 3
    ensures |a.shape| != 3 ==> r == Some(AssertionError("input must be dim=3"))
  {
    if |a.shape| != 3 then Some(AssertionError("input must be dim=3"))
    else if a.shape[|a.shape| - 1] != 3 then Some(AssertionError("input must be HWC"))
    else None
  }

  /** `np.transpose(a, (2, 0, 1))`: HWC to CHW. */
  function ToChw(a: NdArray): (r: NdArray)
    requires |a.shape| == 3
    ensures r.shape == [a.shape[2], a.shape[0], a.shape[1]]
    ensures forall c: nat, h: nat, w: nat :: r.at([c, h, w]) == a.at([h, w, c])
  {
    NdArray([a.shape[2], a.shape[0], a.shape[1]],
            idx => if |idx| == 3 then a.at([idx[1], idx[2], idx[0]]) else 0)
  }

  /** `np.transpose(a, (1, 2, 0))`: CHW to HWC. */
  function ToHwc(a: NdArray): (r: NdArray)
    requires |a.shape| == 3
    ensures r.shape == [a.shape[1], a.shape[2], a.shape[0]]
    ensures forall h: nat, w: nat, c: nat :: r.at([h, w, c]) == a.at([c, h, w])
  {
    NdArray([a.shape[1], a.shape[2], a.shape[0]],
            idx => if |idx| == 3 then a.at([idx[2], idx[0], idx[1]]) else 0)
  }

  /** Going to CHW and back to HWC gives the original array. */
  lemma ChwThenHwc(a: NdArray)
    requires |a.shape| == 3
    ensures SameArray(ToHwc(ToChw(a)), a)
  {
    var b := ToHwc(ToChw(a));
    forall idx | InBounds(a.shape, idx)
      ensures b.at(idx) == a.at(idx)
    {
      assert idx == [idx[0], idx[1], idx[2]];
    }
  }

  /** Going to HWC and back to CHW gives the original array. */
  lemma HwcThenChw(a: NdArray)
    requires |a.shape| == 3
    ensures SameArray(ToChw(ToHwc(a)), a)
  {
    var b := ToChw(ToHwc(a));
    forall idx | InBounds(a.shape, idx)
      ensures b.at(idx) == a.at(idx)
    {
      assert idx == [idx[0], idx[1], idx[2]];
    }
  }
}
