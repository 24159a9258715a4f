/** The arithmetic of the LiDAR-to-photograph projection script: quantised coordinates
    are scaled, moved to the camera, rotated into the camera frame, culled to the
    forward view pyramid, divided by depth and rescaled to pixel coordinates.
    Reals stand for numpy's float64; cos/sin of a rotation angle are passed in as a
    pair on the unit circle, and the Euclidean norm of a vector is passed in as a value. */
module ImageProjection {
  import opened Outcomes

  /** A row of three reals: a point (x, y, z), a colour (r, g, b) or a per-axis triple. */
  datatype Vec3 = Vec3(x: real, y: real, z: real) {
    /** Component 0, 1 or 2. */
    function At(k: nat): real
      requires k < 3
    {
      if k == 0 then x else if k == 1 then y else z
    }

    function SqNorm(): real {
      x * x + y * y + z * z
    }
  }

  // ---------------------------------------------------------------------------
  // Coordinate scaling

  /** The quantisation recorded in a LAS header: coordinate = raw * scale + offset. */
  datatype Header = Header(scale: Vec3, offset: Vec3)

  /** The lookup `{'X': 0, 'Y': 1, 'Z': 2}[flag]`; None stands for the KeyError. */
  function AxisIndex(flag: string): (r: Option<nat>)
    ensures r.Some? <==> flag == "X" || flag == "Y" || flag == "Z"
    ensures r.Some? ==> r.value < 3 && ["X", "Y", "Z"][r.value] == flag
  {
    if flag == "X" then Some(0)
    else if flag == "Y" then Some(1)
    else if flag == "Z" then Some(2)
    else None
  }

  /** `scale_points`: one coordinate channel, scaled by the header entry of its axis;
      any flag other than 'X', 'Y', 'Z' is a KeyError. */
  function ScalePoints(data: seq<int>, flag: string, header: Header): (r: Result<seq<real>>)
    ensures r.Failure? <==> AxisIndex(flag).None?
    ensures r.Failure? ==> r.error == KeyError
    ensures r.Success? ==>
      var k := AxisIndex(flag).value;
      && |r.value| == |data|
      && forall i :: 0 <= i < |data| ==>
           r.value[i] == data[i] as real * header.scale.At(k) + header.offset.At(k)
  {
    match AxisIndex(flag)
    case None => Failure(KeyError)
    case Some(k) =>
      Success(seq(|data|, i requires 0 <= i < |data| =>
                  data[i] as real * header.scale.At(k) + header.offset.At(k)))
  }

  lemma UnscaleValue(raw: real, scale: real, offset: real)
    requires scale != 0.0
    ensures ((raw * scale + offset) - offset) / scale == raw
  {
    assert (raw * scale + offset) - offset == raw * scale;
  }

  /** Undoing the scaling, `(coordinate - offset) / scale`, recovers every raw value
      whenever the scale of the axis is non-zero. */
  lemma UnscaleRecoversRaw(data: seq<int>, flag: string, header: Header)
    requires ScalePoints(data, flag, header).Success?
    ensures var k := AxisIndex(flag).value;
      header.scale.At(k) != 0.0 ==>
        forall i :: 0 <= i < |data| ==>
          (ScalePoints(data, flag, header).value[i] - header.offset.At(k)) / header.scale.At(k)
          == data[i] as real
  {
    var k := AxisIndex(flag).value;
    if header.scale.At(k) != 0.0 {
      forall i | 0 <= i < |data|
        ensures (ScalePoints(data, flag, header).value[i] - header.offset.At(k)) / header.scale.At(k)
                == data[i] as real
      {
        UnscaleValue(data[i] as real, header.scale.At(k), header.offset.At(k));
      }
    }
  }

  // ---------------------------------------------------------------------------
  // Unit vectors

  /** `v / n`, component-wise; multiplying back by n restores v. */
  function DivideBy(v: seq<real>, n: real): (r: seq<real>)
    requires n != 0.0
    ensures |r| == |v|
    ensures forall i :: 0 <= i < |v| ==> r[i] * n == v[i]
  {
    seq(|v|, i requires 0 <= i < |v| => v[i] / n)
  }

  /** `to_unit`, given the value `norm` that `np.linalg.norm(v)` returns: the sentinel
      `False` (None) exactly when the norm is 0, otherwise the vector divided by the norm,
      which scaled back by the norm is v again. */
  function ToUnit(v: seq<real>, norm: real): (r: Option<seq<real>>)
    requires norm >= 0.0
    ensures r.None? <==> norm == 0.0
    ensures r.Some? ==> |r.value| == |v|
    ensures r.Some? ==> forall i :: 0 <= i < |v| ==> r.value[i] * norm == v[i]
  {
    if norm == 0.0 then None else Some(DivideBy(v, norm))
  }

  // ---------------------------------------------------------------------------
  // Axis rotations

  /** cos and sin of a rotation angle. */
  datatype CosSin = CosSin(cos: real, sin: real)

  /** A rotation angle, given by its cosine and sine, which lie on the unit circle. */
  type Angle = t: CosSin | t.cos * t.cos + t.sin * t.sin == 1.0 witness CosSin(1.0, 0.0)

  /** The negated angle: cos(-deg) == cos(deg), sin(-deg) == -sin(deg). */
  function Negated(a: Angle): (r: Angle)
    ensures r.cos == a.cos && r.sin == -a.sin
  {
    CosSin(a.cos, -a.sin)
  }

  /** The 2-D rotation (u, v) -> (u c - v s, u s + v c) keeps u*u + v*v. */
  lemma PlaneRotationNorm(u: real, v: real, a: Angle)
    ensures (u * a.cos - v * a.sin) * (u * a.cos - v * a.sin)
          + (u * a.sin + v * a.cos) * (u * a.sin + v * a.cos) == u * u + v * v
  {
    var c, s := a.cos, a.sin;
    calc {
      (u * c - v * s) * (u * c - v * s) + (u * s + v * c) * (u * s + v * c);
      u * u * (c * c + s * s) + v * v * (c * c + s * s);
      u * u + v * v;
    }
  }

  /** Rotating by the negated angle undoes the 2-D rotation. */
  lemma PlaneRotationInverse(u: real, v: real, a: Angle)
    ensures (u * a.cos - v * a.sin) * a.cos + (u * a.sin + v * a.cos) * a.sin == u
    ensures (u * a.sin + v * a.cos) * a.cos - (u * a.cos - v * a.sin) * a.sin == v
  {
    var c, s := a.cos, a.sin;
    calc {
      (u * c - v * s) * c + (u * s + v * c) * s;
      u * (c * c + s * s);
      u;
    }
    calc {
      (u * s + v * c) * c - (u * c - v * s) * s;
      v * (c * c + s * s);
      v;
    }
  }

  /** Rotation of one point about the z axis (coordinates_rotation_z's formulas). */
  function RotateZ(p: Vec3, a: Angle): (q: Vec3)
    ensures q.z == p.z
    ensures q.SqNorm() == p.SqNorm()
  {
    PlaneRotationNorm(p.x, p.y, a);
    Vec3(p.x * a.cos - p.y * a.sin, p.x * a.sin + p.y * a.cos, p.z)
  }

  /** Rotation of one point about the y axis (coordinates_rotation_y's formulas). */
  function RotateY(p: Vec3, a: Angle): (q: Vec3)
    ensures q.y == p.y
    ensures q.SqNorm() == p.SqNorm()
  {
    PlaneRotationNorm(p.z, p.x, a);
    Vec3(p.x * a.cos + p.z * a.sin, p.y, p.z * a.cos - p.x * a.sin)
  }

  /** Rotation of one point about the x axis (coordinates_rotation_x's formulas). */
  function RotateX(p: Vec3, a: Angle): (q: Vec3)
    ensures q.x == p.x
    ensures q.SqNorm() == p.SqNorm()
  {
    PlaneRotationNorm(p.y, p.z, a);
    Vec3(p.x, p.y * a.cos - p.z * a.sin, p.y * a.sin + p.z * a.cos)
  }

  lemma RotateZInverse(p: Vec3, a: Angle)
    ensures RotateZ(RotateZ(p, a), Negated(a)) == p
  {
    PlaneRotationInverse(p.x, p.y, a);
  }

  lemma RotateYInverse(p: Vec3, a: Angle)
    ensures RotateY(RotateY(p, a), Negated(a)) == p
  {
    PlaneRotationInverse(p.z, p.x, a);
  }

  lemma RotateXInverse(p: Vec3, a: Angle)
    ensures RotateX(RotateX(p, a), Negated(a)) == p
  {
    PlaneRotationInverse(p.y, p.z, a);
  }

  /** `coordinates_rotation_z` over a whole cloud: z and every point's distance from
      the origin are kept, and the order of the points is kept. */
  function RotationZ(data: seq<Vec3>, a: Angle): (r: seq<Vec3>)
    ensures |r| == |data|
    ensures forall i :: 0 <= i < |data| ==> r[i].z == data[i].z && r[i].SqNorm() == data[i].SqNorm()
  {
    seq(|data|, i requires 0 <= i < |data| => RotateZ(data[i], a))
  }

  /** `coordinates_rotation_y` over a whole cloud: y and the norms are kept. */
  function RotationY(data: seq<Vec3>, a: Angle): (r: seq<Vec3>)
    ensures |r| == |data|
    ensures forall i :: 0 <= i < |data| ==> r[i].y == data[i].y && r[i].SqNorm() == data[i].SqNorm()
  {
    seq(|data|, i requires 0 <= i < |data| => RotateY(data[i], a))
  }

  /** `coordinates_rotation_x` over a whole cloud: x and the norms are kept. */
  function RotationX(data: seq<Vec3>, a: Angle): (r: seq<Vec3>)
    ensures |r| == |data|
    ensures forall i :: 0 <= i < |data| ==> r[i].x == data[i].x && r[i].SqNorm() == data[i].SqNorm()
  {
    seq(|data|, i requires 0 <= i < |data| => RotateX(data[i], a))
  }

  /** Rotating a cloud by an angle and then by its negation restores it, about each axis. */
  lemma RotationsInvertible(data: seq<Vec3>, a: Angle)
    ensures RotationZ(RotationZ(data, a), Negated(a)) == data
    ensures RotationY(RotationY(data, a), Negated(a)) == data
    ensures RotationX(RotationX(data, a), Negated(a)) == data
  {
    forall i | 0 <= i < |data|
      ensures RotationZ(RotationZ(data, a), Negated(a))[i] == data[i]
      ensures RotationY(RotationY(data, a), Negated(a))[i] == data[i]
      ensures RotationX(RotationX(data, a), Negated(a))[i] == data[i]
    {
      RotateZInverse(data[i], a);
      RotateYInverse(data[i], a);
      RotateXInverse(data[i], a);
    }
  }

  // ---------------------------------------------------------------------------
  // View-frustum culling

  /** The four strict inequalities of `discard_v2`: the point lies strictly inside the
      square pyramid |y| < x, |z| < x in front of the camera. */
  predicate InFrustum(p: Vec3)
    ensures InFrustum(p) <==> p.x > 0.0 && -p.x < p.y < p.x && -p.x < p.z < p.x
  {
    p.x - p.y > 0.0 && p.x + p.y > 0.0 && p.x - p.z > 0.0 && p.x + p.z > 0.0
  }

  predicate StrictlyIncreasing(idx: seq<nat>) {
    forall j, k :: 0 <= j < k < |idx| ==> idx[j] < idx[k]
  }

  /** The indices `i >= from` of the points in the frustum, in increasing order. */
  function KeptFrom(data: seq<Vec3>, from: nat): (idx: seq<nat>)
    requires from <= |data|
    ensures StrictlyIncreasing(idx)
    ensures forall k :: 0 <= k < |idx| ==> from <= idx[k] < |data| && InFrustum(data[idx[k]])
    ensures forall i :: from <= i < |data| && InFrustum(data[i]) ==> i in idx
    decreases |data| - from
  {
    if from == |data| then []
    else if InFrustum(data[from]) then [from] + KeptFrom(data, from + 1)
    else KeptFrom(data, from + 1)
  }

  /** The list comprehension of `discard_v2`: the indices of the points in the frustum. */
  function KeptIndices(data: seq<Vec3>): (idx: seq<nat>)
    ensures StrictlyIncreasing(idx)
    ensures forall k :: 0 <= k < |idx| ==> idx[k] < |data| && InFrustum(data[idx[k]])
    ensures forall i :: 0 <= i < |data| ==> (InFrustum(data[i]) <==> i in idx)
  {
    KeptFrom(data, 0)
  }

  /** numpy's `rows[idx, :]`: the rows at the listed indices, or an IndexError when an
      index is past the end. */
  function Gather<T>(rows: seq<T>, idx: seq<nat>): (r: Result<seq<T>>)
    ensures r.Success? <==> forall k :: 0 <= k < |idx| ==> idx[k] < |rows|
    ensures r.Failure? ==> r.error == IndexError
    ensures r.Success? ==> |r.value| == |idx| && forall k :: 0 <= k < |idx| ==> r.value[k] == rows[idx[k]]
  {
    if forall k :: 0 <= k < |idx| ==> idx[k] < |rows| then
      Success(seq(|idx|, k requires 0 <= k < |idx| => rows[idx[k]]))
    else
      Failure(IndexError)
  }

  /** What `discard_v2` returns: the surviving points, their colours and their indices. */
  datatype Culled = Culled(points: seq<Vec3>, colours: seq<Vec3>, idx: seq<nat>)

  /** `discard_v2`: keeps exactly the points strictly inside the frustum, in order, with
      the colour rows at the same indices; fails only when the colour array is too short
      for one of the kept indices. */
  function Discard(data: seq<Vec3>, rgb: seq<Vec3>): (r: Result<Culled>)
    ensures r.Success? <==> forall k :: 0 <= k < |KeptIndices(data)| ==> KeptIndices(data)[k] < |rgb|
    ensures |rgb| >= |data| ==> r.Success?
    ensures r.Failure? ==> r.error == IndexError
    ensures r.Success? ==>
      var c := r.value;
      && c.idx == KeptIndices(data)
      && |c.points| == |c.idx| && |c.colours| == |c.idx|
      && forall k :: 0 <= k < |c.idx| ==>
           && c.points[k] == data[c.idx[k]] && c.colours[k] == rgb[c.idx[k]]
           && InFrustum(c.points[k]) && c.points[k].x > 0.0
  {
    var idx := KeptIndices(data);
    var points := Gather(data, idx).value;
    var colours :- Gather(rgb, idx);
    Success(Culled(points, colours, idx))
  }

  // ---------------------------------------------------------------------------
  // Min-max rescaling and the pixel projection

  function SeqMin(a: seq<real>): (m: real)
    requires |a| > 0
    ensures m in a && forall i :: 0 <= i < |a| ==> m <= a[i]
  {
    if |a| == 1 then a[0]
    else
      var t := SeqMin(a[1..]);
      assert forall i :: 1 <= i < |a| ==> a[i] == a[1..][i - 1];
      if a[0] <= t then a[0] else t
  }

  function SeqMax(a: seq<real>): (m: real)
    requires |a| > 0
    ensures m in a && forall i :: 0 <= i < |a| ==> a[i] <= m
  {
    if |a| == 1 then a[0]
    else
      var t := SeqMax(a[1..]);
      assert forall i :: 1 <= i < |a| ==> a[i] == a[1..][i - 1];
      if a[0] >= t then a[0] else t
  }

  /** `array - min(array)` */
  function Shifted(a: seq<real>): (r: seq<real>)
    requires |a| > 0
    ensures |r| == |a|
  {
    seq(|a|, i requires 0 <= i < |a| => a[i] - SeqMin(a))
  }

  /** The largest shifted value is the spread between the largest and smallest value. */
  lemma ShiftedMax(a: seq<real>)
    requires |a| > 0
    ensures SeqMax(Shifted(a)) == SeqMax(a) - SeqMin(a)
  {
    var s := Shifted(a);
    var j :| 0 <= j < |s| && s[j] == SeqMax(s);
    var k :| 0 <= k < |a| && a[k] == SeqMax(a);
    assert s[j] == a[j] - SeqMin(a) <= SeqMax(a) - SeqMin(a);
    assert s[k] == SeqMax(a) - SeqMin(a) <= SeqMax(s);
  }

  /** One value of `shifted / max(shifted) * range`, for a value x, the minimum lo and
      the largest shifted value spread. */
  function Normalised(x: real, lo: real, spread: real, range: nat): (r: real)
    requires spread != 0.0
    ensures r * spread == (x - lo) * range as real
  {
    (x - lo) / spread * range as real
  }

  lemma NormalisedBounds(x: real, lo: real, spread: real, range: nat)
    requires spread > 0.0 && lo <= x <= lo + spread
    ensures 0.0 <= Normalised(x, lo, spread, range) <= range as real
  {
    var f := (x - lo) / spread;
    assert 0.0 <= f <= 1.0;
    var R := range as real;
    assert R - f * R == (1.0 - f) * R;
  }

  lemma NormalisedEnds(lo: real, spread: real, range: nat)
    requires spread > 0.0
    ensures Normalised(lo, lo, spread, range) == 0.0
    ensures Normalised(lo + spread, lo, spread, range) == range as real
  {
  }

  lemma NormalisedMonotone(x: real, y: real, lo: real, spread: real, range: nat)
    requires spread > 0.0 && x <= y
    ensures Normalised(x, lo, spread, range) <= Normalised(y, lo, spread, range)
    ensures range > 0 && x < y ==> Normalised(x, lo, spread, range) < Normalised(y, lo, spread, range)
  {
    var R := range as real;
    var fx, fy := (x - lo) / spread, (y - lo) / spread;
    assert fy - fx == (y - x) / spread;
    assert fy - fx >= 0.0;
    assert (fy - fx) * R >= 0.0;
    assert fy * R - fx * R == (fy - fx) * R;
    if range > 0 && x < y {
      assert fy - fx > 0.0;
      assert (fy - fx) * R > 0.0;
    }
  }

  /** `scale_image`: shift so that the minimum is 0 and stretch so that the maximum is
      `range`. `min()` of an empty array raises; an array of equal values has a zero
      spread to divide by. */
  function ScaleImage(a: seq<real>, range: nat): (r: Result<seq<real>>)
    ensures a == [] ==> r == Failure(ValueError("min() arg is an empty sequence"))
    ensures a != [] ==> (r.Failure? <==> SeqMax(a) == SeqMin(a))
    ensures a != [] && r.Failure? ==> r.error == ZeroDivision
    ensures r.Success? ==> |r.value| == |a|
  {
    if a == [] then Failure(ValueError("min() arg is an empty sequence"))
    else
      var lo := SeqMin(a);
      var top := SeqMax(Shifted(a));
      ShiftedMax(a);
      if top == 0.0 then Failure(ZeroDivision)
      else Success(seq(|a|, i requires 0 <= i < |a| => Normalised(a[i], lo, top, range)))
  }

  /** Each rescaled value is the position of the input value between the minimum and
      the maximum, times `range`. */
  lemma ScaleImageValue(a: seq<real>, range: nat, i: nat)
    requires ScaleImage(a, range).Success? && i < |a|
    ensures SeqMax(a) > SeqMin(a)
    ensures ScaleImage(a, range).value[i] == Normalised(a[i], SeqMin(a), SeqMax(a) - SeqMin(a), range)
  {
    ShiftedMax(a);
  }

  /** Every rescaled value lies in [0, range]. */
  lemma ScaleImageBounds(a: seq<real>, range: nat)
    requires ScaleImage(a, range).Success?
    ensures forall i :: 0 <= i < |a| ==> 0.0 <= ScaleImage(a, range).value[i] <= range as real
  {
    forall i | 0 <= i < |a|
      ensures 0.0 <= ScaleImage(a, range).value[i] <= range as real
    {
      ScaleImageValue(a, range, i);
      NormalisedBounds(a[i], SeqMin(a), SeqMax(a) - SeqMin(a), range);
    }
  }

  /** The minimum goes to 0 and the maximum goes to `range`, at one index. */
  lemma ScaleImageEndpointsAt(a: seq<real>, range: nat, i: nat)
    requires ScaleImage(a, range).Success? && i < |a|
    ensures a[i] == SeqMin(a) ==> ScaleImage(a, range).value[i] == 0.0
    ensures a[i] == SeqMax(a) ==> ScaleImage(a, range).value[i] == range as real
  {
    var lo, spread := SeqMin(a), SeqMax(a) - SeqMin(a);
    ScaleImageValue(a, range, i);
    NormalisedEnds(lo, spread, range);
    assert lo + spread == SeqMax(a);
  }

  /** The minimum goes to 0 and the maximum goes to `range`. */
  lemma ScaleImageEndpoints(a: seq<real>, range: nat)
    requires ScaleImage(a, range).Success?
    ensures forall i :: 0 <= i < |a| && a[i] == SeqMin(a) ==> ScaleImage(a, range).value[i] == 0.0
    ensures forall i :: 0 <= i < |a| && a[i] == SeqMax(a) ==> ScaleImage(a, range).value[i] == range as real
  {
    forall i | 0 <= i < |a| {
      ScaleImageEndpointsAt(a, range, i);
    }
  }

  /** Rescaling keeps the order of the values, strictly so when `range` is positive. */
  lemma ScaleImageMonotone(a: seq<real>, range: nat)
    requires ScaleImage(a, range).Success?
    ensures forall i, j :: 0 <= i < |a| && 0 <= j < |a| && a[i] <= a[j] ==>
              ScaleImage(a, range).value[i] <= ScaleImage(a, range).value[j]
    ensures range > 0 ==> forall i, j :: 0 <= i < |a| && 0 <= j < |a| && a[i] < a[j] ==>
              ScaleImage(a, range).value[i] < ScaleImage(a, range).value[j]
  {
    forall i, j | 0 <= i < |a| && 0 <= j < |a| && a[i] <= a[j]
      ensures ScaleImage(a, range).value[i] <= ScaleImage(a, range).value[j]
      ensures range > 0 && a[i] < a[j] ==> ScaleImage(a, range).value[i] < ScaleImage(a, range).value[j]
    {
      ScaleImageValue(a, range, i);
      ScaleImageValue(a, range, j);
      NormalisedMonotone(a[i], a[j], SeqMin(a), SeqMax(a) - SeqMin(a), range);
    }
  }

  /** `height - values`: the vertical flip into image rows (row 0 at the top). */
  function FlipVertical(values: seq<real>, height: nat): (r: seq<real>)
    ensures |r| == |values|
  {
    seq(|values|, i requires 0 <= i < |values| => height as real - values[i])
  }

  /** The flipped vertical coordinate `height - scale_image(y, height)` lies in
      [0, height], and it reverses the order of y. */
  lemma FlippedRows(y: seq<real>, height: nat)
    requires ScaleImage(y, height).Success?
    ensures var v := FlipVertical(ScaleImage(y, height).value, height);
      && (forall i :: 0 <= i < |y| ==> 0.0 <= v[i] <= height as real)
      && (forall i, j :: 0 <= i < |y| && 0 <= j < |y| && y[i] <= y[j] ==> v[j] <= v[i])
      && (height > 0 ==> forall i, j :: 0 <= i < |y| && 0 <= j < |y| && y[i] < y[j] ==> v[j] < v[i])
  {
    ScaleImageBounds(y, height);
    ScaleImageMonotone(y, height);
  }

  function Negate(a: seq<real>): (r: seq<real>)
    ensures |r| == |a| && forall i :: 0 <= i < |a| ==> r[i] == -a[i]
  {
    seq(|a|, i requires 0 <= i < |a| => -a[i])
  }

  /** Negating an array swaps and negates its extremes, so `-x_image` is constant exactly
      when `x_image` is. */
  lemma NegateExtremes(a: seq<real>)
    ensures |a| > 0 ==> SeqMin(Negate(a)) == -SeqMax(a) && SeqMax(Negate(a)) == -SeqMin(a)
  {
    if a == [] { return; }
    var n := Negate(a);
    var lo, hi := SeqMin(n), SeqMax(n);
    var i :| 0 <= i < |a| && a[i] == SeqMax(a);
    var j :| 0 <= j < |a| && a[j] == SeqMin(a);
    var p :| 0 <= p < |n| && n[p] == lo;
    var q :| 0 <= q < |n| && n[q] == hi;
    assert lo <= n[i] && -SeqMax(a) <= n[p];
    assert n[j] <= hi && n[q] <= -SeqMin(a);
  }

  /** Both rescalings of the projection succeed exactly when there is a point and neither
      tangent array is constant. */
  lemma RescalingsSucceed(h: seq<real>, w: seq<real>, shape0: nat, shape1: nat)
    requires |h| == |w|
    ensures ScaleImage(Negate(h), shape0).Success? && ScaleImage(w, shape1).Success? <==>
      h != [] && SeqMin(h) != SeqMax(h) && SeqMin(w) != SeqMax(w)
  {
    NegateExtremes(h);
  }

  /** Pixel coordinates of the surviving points: `x_image_scale` and `y_image_scale`. */
  datatype Pixels = Pixels(u: seq<real>, v: seq<real>)

  /** `vals` runs against `keys`: a larger key never gets a larger value and, when
      `strict`, a strictly larger key gets a strictly smaller value. */
  predicate Reverses(keys: seq<real>, vals: seq<real>, strict: bool)
    requires |keys| == |vals|
  {
    forall j, k :: 0 <= j < |keys| && 0 <= k < |keys| && keys[j] <= keys[k] ==>
      vals[k] <= vals[j] && (strict && keys[j] < keys[k] ==> vals[k] < vals[j])
  }

  /** `x_image = moved_y / moved_x`: the horizontal tangent of each point's direction. */
  function HorizontalRatios(c: seq<Vec3>): (r: seq<real>)
    requires forall k :: 0 <= k < |c| ==> c[k].x > 0.0
    ensures |r| == |c| && forall k :: 0 <= k < |c| ==> r[k] * c[k].x == c[k].y
  {
    seq(|c|, k requires 0 <= k < |c| => c[k].y / c[k].x)
  }

  /** `y_image = moved_z / moved_x`: the vertical tangent of each point's direction. */
  function VerticalRatios(c: seq<Vec3>): (r: seq<real>)
    requires forall k :: 0 <= k < |c| ==> c[k].x > 0.0
    ensures |r| == |c| && forall k :: 0 <= k < |c| ==> r[k] * c[k].x == c[k].z
  {
    seq(|c|, k requires 0 <= k < |c| => c[k].z / c[k].x)
  }

  /** The column coordinates `scale_image(-x_image, range)` lie in [0, range] and run
      against `x_image`. */
  lemma ColumnsReverse(h: seq<real>, range: nat)
    requires ScaleImage(Negate(h), range).Success?
    ensures var u := ScaleImage(Negate(h), range).value;
      && |u| == |h|
      && (forall k :: 0 <= k < |h| ==> 0.0 <= u[k] <= range as real)
      && Reverses(h, u, range > 0)
  {
    ScaleImageBounds(Negate(h), range);
    ScaleImageMonotone(Negate(h), range);
  }

  /** The row coordinates `height - scale_image(y_image, height)` lie in [0, height] and
      run against `y_image`. */
  lemma RowsReverse(w: seq<real>, height: nat)
    requires ScaleImage(w, height).Success?
    ensures var v := FlipVertical(ScaleImage(w, height).value, height);
      && |v| == |w|
      && (forall k :: 0 <= k < |w| ==> 0.0 <= v[k] <= height as real)
      && Reverses(w, v, height > 0)
  {
    FlippedRows(w, height);
  }

  /** The pinhole projection and rescaling: `-x_image` is rescaled to `img.shape[0]`,
      and `y_image` is rescaled to `img.shape[1]` and flipped. Both pixel coordinates lie
      inside the image, the column runs against the point's `y/x` (points further left
      come first) and the row against its `z/x` (higher points come first); an empty
      cloud fails in `min()`. */
  function ProjectToImage(c: seq<Vec3>, shape0: nat, shape1: nat): (r: Result<Pixels>)
    requires forall k :: 0 <= k < |c| ==> c[k].x > 0.0
    ensures c == [] ==> r.Failure? && r.error.ValueError?
    ensures r.Success? <==>
      && c != []
      && SeqMin(HorizontalRatios(c)) != SeqMax(HorizontalRatios(c))
      && SeqMin(VerticalRatios(c)) != SeqMax(VerticalRatios(c))
    ensures r.Success? ==> |r.value.u| == |c| && |r.value.v| == |c|
    ensures r.Success? ==>
      && (forall k :: 0 <= k < |c| ==> 0.0 <= r.value.u[k] <= shape0 as real)
      && (forall k :: 0 <= k < |c| ==> 0.0 <= r.value.v[k] <= shape1 as real)
    ensures r.Success? ==>
      && Reverses(HorizontalRatios(c), r.value.u, shape0 > 0)
      && Reverses(VerticalRatios(c), r.value.v, shape1 > 0)
  {
    RescalingsSucceed(HorizontalRatios(c), VerticalRatios(c), shape0, shape1);
    var u :- ScaleImage(Negate(HorizontalRatios(c)), shape0);
    var yScaled :- ScaleImage(VerticalRatios(c), shape1);
    ColumnsReverse(HorizontalRatios(c), shape0);
    RowsReverse(VerticalRatios(c), shape1);
    Success(Pixels(u, FlipVertical(yScaled, shape1)))
  }

  /** An array holding only two distinct values is rescaled onto the two ends. */
  lemma ScaleTwoLevels(a: seq<real>, lo: real, hi: real, range: nat)
    requires |a| > 0 && lo < hi && lo in a && hi in a
    requires forall i :: 0 <= i < |a| ==> a[i] == lo || a[i] == hi
    ensures ScaleImage(a, range).Success?
    ensures forall i :: 0 <= i < |a| ==>
      ScaleImage(a, range).value[i] == if a[i] == lo then 0.0 else range as real
  {
    assert SeqMin(a) == lo && SeqMax(a) == hi;
    ScaleImageEndpoints(a, range);
  }

  /** Four points forming a pyramid symmetric about the forward axis. */
  const Pyramid: seq<Vec3> :=
    [Vec3(2.0, 1.0, 1.0), Vec3(2.0, -1.0, 1.0), Vec3(2.0, 1.0, -1.0), Vec3(2.0, -1.0, -1.0)]

  lemma PyramidColumns()
    ensures forall k :: 0 <= k < |Pyramid| ==> Pyramid[k].x > 0.0
    ensures ScaleImage(Negate(HorizontalRatios(Pyramid)), 1000) == Success([0.0, 1000.0, 0.0, 1000.0])
  {
    var nx := Negate(HorizontalRatios(Pyramid));
    assert nx == [-0.5, 0.5, -0.5, 0.5];
    assert nx[0] == -0.5 && nx[1] == 0.5;
    ScaleTwoLevels(nx, -0.5, 0.5, 1000);
    var u := ScaleImage(nx, 1000).value;
    assert u[0] == 0.0 && u[1] == 1000.0 && u[2] == 0.0 && u[3] == 1000.0;
    assert u == [0.0, 1000.0, 0.0, 1000.0];
  }

  lemma PyramidRows()
    ensures forall k :: 0 <= k < |Pyramid| ==> Pyramid[k].x > 0.0
    ensures ScaleImage(VerticalRatios(Pyramid), 1000) == Success([1000.0, 1000.0, 0.0, 0.0])
    ensures FlipVertical([1000.0, 1000.0, 0.0, 0.0], 1000) == [0.0, 0.0, 1000.0, 1000.0]
  {
    var ny := VerticalRatios(Pyramid);
    assert ny == [0.5, 0.5, -0.5, -0.5];
    assert ny[0] == 0.5 && ny[2] == -0.5;
    ScaleTwoLevels(ny, -0.5, 0.5, 1000);
    var w := ScaleImage(ny, 1000).value;
    assert w[0] == 1000.0 && w[1] == 1000.0 && w[2] == 0.0 && w[3] == 0.0;
    assert w == [1000.0, 1000.0, 0.0, 0.0];
    var flipped := FlipVertical(w, 1000);
    assert flipped[0] == 0.0 && flipped[1] == 0.0 && flipped[2] == 1000.0 && flipped[3] == 1000.0;
    assert flipped == [0.0, 0.0, 1000.0, 1000.0];
  }

  /** The pyramid lands on the four corners of a 1000 x 1000 image, symmetric about its
      centre: the points to the left (y > 0) go to column 0, the points above (z > 0) go to
      row 0. */
  lemma SymmetricPyramid()
    ensures ProjectToImage(Pyramid, 1000, 1000)
         == Success(Pixels([0.0, 1000.0, 0.0, 1000.0], [0.0, 0.0, 1000.0, 1000.0]))
  {
    PyramidColumns();
    PyramidRows();
  }

  // ---------------------------------------------------------------------------
  // The script's pipeline, from scaled coordinates to pixel coordinates

  /** `np.vstack((xs, ys, zs)).transpose()`: one row per point; channels of unequal
      length cannot be stacked. */
  function Stack3(xs: seq<real>, ys: seq<real>, zs: seq<real>): (r: Result<seq<Vec3>>)
    ensures r.Success? <==> |xs| == |ys| == |zs|
    ensures r.Failure? ==> r.error.ValueError?
    ensures r.Success? ==>
      && |r.value| == |xs|
      && forall i :: 0 <= i < |xs| ==> r.value[i].x == xs[i] && r.value[i].y == ys[i] && r.value[i].z == zs[i]
  {
    if |xs| == |ys| == |zs| then
      Success(seq(|xs|, i requires 0 <= i < |xs| => Vec3(xs[i], ys[i], zs[i])))
    else
      Failure(ValueError("all the input array dimensions must match"))
  }

  /** `coordinates - camera_position`: every point relative to the camera. */
  function Translate(data: seq<Vec3>, origin: Vec3): (r: seq<Vec3>)
    ensures |r| == |data|
    ensures forall i :: 0 <= i < |data| ==>
      && r[i].x + origin.x == data[i].x && r[i].y + origin.y == data[i].y && r[i].z + origin.z == data[i].z
  {
    seq(|data|, i requires 0 <= i < |data| =>
        Vec3(data[i].x - origin.x, data[i].y - origin.y, data[i].z - origin.z))
  }

  /** `moved_y_data`: the cloud moved to the camera, rotated about z by `degZ` and then
      about y by `degY`, the two angles `angle_between` derives from the view direction. The roll rotation (`moved_x_data`) is computed
      by the script but never used afterwards, so it has no part here. Every point keeps
      its distance from the camera. */
  function CameraFrame(coords: seq<Vec3>, camera: Vec3, degZ: Angle, degY: Angle): (r: seq<Vec3>)
    ensures |r| == |coords|
    ensures forall i :: 0 <= i < |coords| ==> r[i].SqNorm() == Translate(coords, camera)[i].SqNorm()
  {
    RotationY(RotationZ(Translate(coords, camera), degZ), degY)
  }

  /** The points that survive the culling, in their original order (`c_v2`). */
  function KeptPoints(frame: seq<Vec3>): (r: seq<Vec3>)
    ensures |r| == |KeptIndices(frame)|
    ensures forall k :: 0 <= k < |r| ==> r[k] == frame[KeptIndices(frame)[k]] && r[k].x > 0.0
  {
    var idx := KeptIndices(frame);
    seq(|idx|, k requires 0 <= k < |idx| => frame[idx[k]])
  }

  /** What the script plots: pixel coordinates and the colour of each plotted point. */
  datatype Projection = Projection(pixels: Pixels, colours: seq<Vec3>)

  /** Lines 157-183 of the script once the angles are known: culling of the camera-frame
      cloud, then projection. The result has one pixel and one colour per point in the view
      pyramid, each colour the one of that point, every pixel inside the image, and the
      pixels ordered against the kept points' tangents `y/x` and `z/x`. With
      a colour per point, the only failures are an empty view (`min()` of an empty array)
      and a degenerate one (a zero spread to divide by); an empty view always fails. */
  function ProjectCloud(coords: seq<Vec3>, rgb: seq<Vec3>, camera: Vec3, degZ: Angle, degY: Angle,
                        shape0: nat, shape1: nat): (r: Result<Projection>)
    ensures var idx := KeptIndices(CameraFrame(coords, camera, degZ, degY));
      r.Success? ==>
        && |r.value.pixels.u| == |idx| && |r.value.pixels.v| == |idx| && |r.value.colours| == |idx|
        && (forall k :: 0 <= k < |idx| ==> idx[k] < |rgb| && r.value.colours[k] == rgb[idx[k]])
        && (forall k :: 0 <= k < |idx| ==> 0.0 <= r.value.pixels.u[k] <= shape0 as real)
        && (forall k :: 0 <= k < |idx| ==> 0.0 <= r.value.pixels.v[k] <= shape1 as real)
    ensures var kept := KeptPoints(CameraFrame(coords, camera, degZ, degY));
      r.Success? ==>
        && Reverses(HorizontalRatios(kept), r.value.pixels.u, shape0 > 0)
        && Reverses(VerticalRatios(kept), r.value.pixels.v, shape1 > 0)
    ensures |rgb| >= |coords| ==>
      var kept := KeptPoints(CameraFrame(coords, camera, degZ, degY));
      (r.Success? <==>
        && kept != []
        && SeqMin(HorizontalRatios(kept)) != SeqMax(HorizontalRatios(kept))
        && SeqMin(VerticalRatios(kept)) != SeqMax(VerticalRatios(kept)))
    ensures |rgb| >= |coords| && r.Failure? ==> r.error.ValueError? || r.error == ZeroDivision
    ensures |rgb| >= |coords| && KeptIndices(CameraFrame(coords, camera, degZ, degY)) == [] ==>
      r.Failure? && r.error.ValueError?
  {
    var frame := CameraFrame(coords, camera, degZ, degY);
    var culled :- Discard(frame, rgb);
    assert culled.points == KeptPoints(frame);
    var pixels :- ProjectToImage(culled.points, shape0, shape1);
    Success(Projection(pixels, culled.colours))
  }
}
