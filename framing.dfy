/** The viewer's geometry helpers: the axis-aligned bounding box three.js
    computes for a mesh (`Box3.setFromObject`), the normalisation of the
    mesh transform (`centerAndScaleModel`) and the camera framing
    (`fitCameraToObject`). */
module Framing {
  import opened JsNumbers

  datatype Point = Point(x: real, y: real, z: real)

  /** A `Box3`: empty (no points), finite, or spoiled by a non-finite
      coordinate. */
  datatype Box = EmptyBox | FiniteBox(lo: Point, hi: Point) | NonFiniteBox

  /** A mesh's uniform transform: world point = scale * local point + position. */
  datatype Transform = Transform(position: Vec3, scale: Num)

  const Identity := Transform(Origin, Finite(1.0))

  function ToPoint(v: Vec3): Point
    requires FiniteVec(v)
  {
    Point(v.x.value, v.y.value, v.z.value)
  }

  function Min(a: real, b: real): real {
    if a <= b then a else b
  }

  function Max(a: real, b: real): real {
    if a <= b then b else a
  }

  function MinP(p: Point, q: Point): Point {
    Point(Min(p.x, q.x), Min(p.y, q.y), Min(p.z, q.z))
  }

  function MaxP(p: Point, q: Point): Point {
    Point(Max(p.x, q.x), Max(p.y, q.y), Max(p.z, q.z))
  }

  predicate Within(p: Point, lo: Point, hi: Point) {
    lo.x <= p.x <= hi.x && lo.y <= p.y <= hi.y && lo.z <= p.z <= hi.z
  }

  /** Vertex `i` of a flat position buffer. */
  function VertexAt(ps: seq<Num>, i: nat): Vec3
    requires 3 * i + 3 <= |ps|
  {
    Vec3(ps[3 * i], ps[3 * i + 1], ps[3 * i + 2])
  }

  /** The last vertex of a flat position buffer. */
  function LastVertex(ps: seq<Num>): Vec3
    requires 3 <= |ps|
  {
    Vec3(ps[|ps| - 3], ps[|ps| - 2], ps[|ps| - 1])
  }

  /** `Box3.expandByPoint`. */
  function Include(b: Box, v: Vec3): Box {
    if !FiniteVec(v) then NonFiniteBox
    else match b
      case NonFiniteBox => NonFiniteBox
      case EmptyBox => FiniteBox(ToPoint(v), ToPoint(v))
      case FiniteBox(lo, hi) => FiniteBox(MinP(lo, ToPoint(v)), MaxP(hi, ToPoint(v)))
  }

  /** A finite box has its lower corner below its upper corner. */
  predicate Ordered(b: Box) {
    b.FiniteBox? ==> b.lo.x <= b.hi.x && b.lo.y <= b.hi.y && b.lo.z <= b.hi.z
  }

  /** The local bounding box of a position buffer. */
  function BoxOf(ps: seq<Num>): (b: Box)
    requires |ps| % 3 == 0
    ensures b.EmptyBox? <==> ps == []
    ensures Ordered(b)
    decreases |ps|
  {
    if ps == [] then EmptyBox
    else Include(BoxOf(ps[..|ps| - 3]), LastVertex(ps))
  }

  function Affine(p: Point, s: real, t: Point): Point {
    Point(s * p.x + t.x, s * p.y + t.y, s * p.z + t.z)
  }

  /** `Box3.applyMatrix4` for a uniform transform: the local box's corners
      mapped to world space. */
  function WorldBox(local: Box, t: Transform): Box {
    match local
    case EmptyBox => EmptyBox
    case NonFiniteBox => NonFiniteBox
    case FiniteBox(lo, hi) =>
      if !t.scale.Finite? || !FiniteVec(t.position) then NonFiniteBox
      else
        var s, p := t.scale.value, ToPoint(t.position);
        if s >= 0.0 then FiniteBox(Affine(lo, s, p), Affine(hi, s, p))
        else FiniteBox(Affine(hi, s, p), Affine(lo, s, p))
  }

  function ToVec(p: Point): Vec3 {
    Vec3(Finite(p.x), Finite(p.y), Finite(p.z))
  }

  function MidPoint(lo: Point, hi: Point): Point {
    Point((lo.x + hi.x) / 2.0, (lo.y + hi.y) / 2.0, (lo.z + hi.z) / 2.0)
  }

  function Extent(lo: Point, hi: Point): Point {
    Point(hi.x - lo.x, hi.y - lo.y, hi.z - lo.z)
  }

  /** `getCenter`: the origin for an empty box. */
  function Center(b: Box): Vec3 {
    match b
    case EmptyBox => Origin
    case NonFiniteBox => Vec3(NonFinite, NonFinite, NonFinite)
    case FiniteBox(lo, hi) => ToVec(MidPoint(lo, hi))
  }

  /** `getSize`: zero for an empty box. */
  function Size(b: Box): Vec3 {
    match b
    case EmptyBox => Origin
    case NonFiniteBox => Vec3(NonFinite, NonFinite, NonFinite)
    case FiniteBox(lo, hi) => ToVec(Extent(lo, hi))
  }

  function MaxDim(b: Box): Num {
    var s := Size(b);
    Max3(s.x, s.y, s.z)
  }

  /** `centerAndScaleModel` as written: the position is moved by minus the
      centre, then the scale is multiplied by `4 / maxDim`. */
  function NormalizeAsWritten(t: Transform, world: Box): Transform {
    Transform(VSub(t.position, Center(world)), Mul(t.scale, Factor(world)))
  }

  /** The scale factor `4 / maxDim`. */
  function Factor(world: Box): Num {
    Div(Finite(4.0), MaxDim(world))
  }

  /** The normalisation the viewer means: the centred offset is scaled
      together with the mesh, and a zero-extent mesh is only centred. */
  function Normalize(t: Transform, world: Box): Transform {
    var m := MaxDim(world);
    var offset := VSub(t.position, Center(world));
    if m == Finite(0.0) then Transform(offset, t.scale)
    else Transform(VScale(offset, Factor(world)), Mul(t.scale, Factor(world)))
  }

  datatype Camera = Camera(position: Vec3, aspect: Num, near: Num, far: Num)

  /** The camera together with the orbit controls' target. */
  datatype View = View(camera: Camera, target: Vec3)

  /** `maxSize / (2 tan(fov / 2)) * 1.4`. */
  function FitDistance(maxSize: Num, tanHalfFov: real): Num {
    Mul(Div(maxSize, Finite(2.0 * tanHalfFov)), Finite(1.4))
  }

  /** `fitCameraToObject` once camera and controls exist: keep the viewing
      direction, look at the box centre from the fitted distance, and
      derive the clip planes from the box alone. */
  function Fit(view: View, world: Box, tanHalfFov: real, normalize: Vec3 -> Vec3): View {
    var maxSize := MaxDim(world);
    var distance := FitDistance(maxSize, tanHalfFov);
    var direction := normalize(VSub(view.camera.position, view.target));
    var center := Center(world);
    View(Camera(VAdd(center, VScale(direction, distance)), view.camera.aspect,
                Div(maxSize, Finite(100.0)), Mul(maxSize, Finite(100.0))),
         center)
  }


  // ------------------------------------------------------ bounding box

  lemma VertexAtPrefix(ps: seq<Num>, i: nat)
    requires 3 * i + 6 <= |ps|
    ensures VertexAt(ps[..|ps| - 3], i) == VertexAt(ps, i)
  {
  }

  lemma LastVertexAt(ps: seq<Num>, i: nat)
    requires 3 * i + 3 == |ps|
    ensures VertexAt(ps, i) == LastVertex(ps)
  {
  }

  /** Every vertex lies inside the box, and the box is finite only when
      every vertex is. */
  lemma {:induction false} BoxContainsVertices(ps: seq<Num>)
    requires |ps| % 3 == 0
    ensures BoxOf(ps).FiniteBox? ==>
              forall i: nat :: 3 * i + 3 <= |ps| ==>
                FiniteVec(VertexAt(ps, i)) && Within(ToPoint(VertexAt(ps, i)), BoxOf(ps).lo, BoxOf(ps).hi)
    decreases |ps|
  {
    if ps != [] && BoxOf(ps).FiniteBox? {
      BoxContainsVertices(ps[..|ps| - 3]);
      forall i: nat | 3 * i + 3 <= |ps|
        ensures FiniteVec(VertexAt(ps, i)) && Within(ToPoint(VertexAt(ps, i)), BoxOf(ps).lo, BoxOf(ps).hi)
      {
        if 3 * i + 6 <= |ps| {
          VertexAtPrefix(ps, i);
        } else {
          LastVertexAt(ps, i);
        }
      }
    }
  }

  /** The box is spoiled exactly when some vertex has a non-finite
      coordinate. */
  lemma {:induction false} BoxNonFiniteIff(ps: seq<Num>)
    requires |ps| % 3 == 0
    ensures BoxOf(ps).NonFiniteBox? <==> exists i: nat :: 3 * i + 3 <= |ps| && !FiniteVec(VertexAt(ps, i))
    decreases |ps|
  {
    if ps != [] {
      var front := ps[..|ps| - 3];
      BoxNonFiniteIff(front);
      if BoxOf(front).NonFiniteBox? {
        var i: nat :| 3 * i + 3 <= |front| && !FiniteVec(VertexAt(front, i));
        VertexAtPrefix(ps, i);
      } else if !FiniteVec(LastVertex(ps)) {
        LastVertexAt(ps, (|ps| - 3) / 3);
      } else if exists i: nat :: 3 * i + 3 <= |ps| && !FiniteVec(VertexAt(ps, i)) {
        var i: nat :| 3 * i + 3 <= |ps| && !FiniteVec(VertexAt(ps, i));
        if 3 * i + 6 <= |ps| {
          VertexAtPrefix(ps, i);
        } else {
          LastVertexAt(ps, i);
        }
      }
    }
  }

  /** Each lower bound of the box is a coordinate of some vertex. */
  lemma {:induction false} BoxLowAttained(ps: seq<Num>)
    requires |ps| % 3 == 0
    ensures BoxOf(ps).FiniteBox? ==>
              (exists i: nat :: 3 * i + 3 <= |ps| && VertexAt(ps, i).x == Finite(BoxOf(ps).lo.x))
              && (exists i: nat :: 3 * i + 3 <= |ps| && VertexAt(ps, i).y == Finite(BoxOf(ps).lo.y))
              && (exists i: nat :: 3 * i + 3 <= |ps| && VertexAt(ps, i).z == Finite(BoxOf(ps).lo.z))
    decreases |ps|
  {
    if ps != [] && BoxOf(ps).FiniteBox? {
      var front := ps[..|ps| - 3];
      var last: nat := (|ps| - 3) / 3;
      LastVertexAt(ps, last);
      var v := LastVertex(ps);
      var lo := BoxOf(ps).lo;
      if front != [] {
        BoxLowAttained(front);
        var flo := BoxOf(front).lo;
        assert lo == MinP(flo, ToPoint(v));
        if lo.x != v.x.value {
          var i: nat :| 3 * i + 3 <= |front| && VertexAt(front, i).x == Finite(flo.x);
          VertexAtPrefix(ps, i);
        }
        if lo.y != v.y.value {
          var i: nat :| 3 * i + 3 <= |front| && VertexAt(front, i).y == Finite(flo.y);
          VertexAtPrefix(ps, i);
        }
        if lo.z != v.z.value {
          var i: nat :| 3 * i + 3 <= |front| && VertexAt(front, i).z == Finite(flo.z);
          VertexAtPrefix(ps, i);
        }
      }
    }
  }

  /** Each upper bound of the box is a coordinate of some vertex. */
  lemma {:induction false} BoxHighAttained(ps: seq<Num>)
    requires |ps| % 3 == 0
    ensures BoxOf(ps).FiniteBox? ==>
              (exists i: nat :: 3 * i + 3 <= |ps| && VertexAt(ps, i).x == Finite(BoxOf(ps).hi.x))
              && (exists i: nat :: 3 * i + 3 <= |ps| && VertexAt(ps, i).y == Finite(BoxOf(ps).hi.y))
              && (exists i: nat :: 3 * i + 3 <= |ps| && VertexAt(ps, i).z == Finite(BoxOf(ps).hi.z))
    decreases |ps|
  {
    if ps != [] && BoxOf(ps).FiniteBox? {
      var front := ps[..|ps| - 3];
      var last: nat := (|ps| - 3) / 3;
      LastVertexAt(ps, last);
      var v := LastVertex(ps);
      var hi := BoxOf(ps).hi;
      if front != [] {
        BoxHighAttained(front);
        var fhi := BoxOf(front).hi;
        assert hi == MaxP(fhi, ToPoint(v));
        if hi.x != v.x.value {
          var i: nat :| 3 * i + 3 <= |front| && VertexAt(front, i).x == Finite(fhi.x);
          VertexAtPrefix(ps, i);
        }
        if hi.y != v.y.value {
          var i: nat :| 3 * i + 3 <= |front| && VertexAt(front, i).y == Finite(fhi.y);
          VertexAtPrefix(ps, i);
        }
        if hi.z != v.z.value {
          var i: nat :| 3 * i + 3 <= |front| && VertexAt(front, i).z == Finite(fhi.z);
          VertexAtPrefix(ps, i);
        }
      }
    }
  }

  // ---------------------------------------------------- normalisation

  /** `c` negated on each axis: the offset `position.sub(center)` gives a
      mesh at the origin. */
  function Negated(c: Point): Point {
    Point(0.0 - c.x, 0.0 - c.y, 0.0 - c.z)
  }

  /** `(p - c) * k` on each axis. */
  function Rescale(p: Point, c: Point, k: real): Point {
    Point((p.x - c.x) * k, (p.y - c.y) * k, (p.z - c.z) * k)
  }

  function Stretch(p: Point, k: real): Point {
    Point(k * p.x, k * p.y, k * p.z)
  }

  lemma PositiveQuotient(a: real, m: real, k: real)
    requires a > 0.0 && m > 0.0 && k * m == a
    ensures k > 0.0
  {
  }

  /** The scale factor of a box of non-zero extent is positive. */
  lemma FactorPositive(w: Box)
    requires w.FiniteBox? && Ordered(w) && MaxDim(w) != Finite(0.0)
    ensures MaxDim(w).Finite? && MaxDim(w).value > 0.0
    ensures Factor(w).Finite? && Factor(w).value > 0.0 && Factor(w).value * MaxDim(w).value == 4.0
  {
    PositiveQuotient(4.0, MaxDim(w).value, Factor(w).value);
  }

  /** A fresh mesh sits where its geometry is. */
  lemma WorldBoxOfIdentity(b: Box)
    ensures WorldBox(b, Identity) == b
  {
    if b.FiniteBox? {
      assert Affine(b.lo, 1.0, Point(0.0, 0.0, 0.0)) == b.lo;
      assert Affine(b.hi, 1.0, Point(0.0, 0.0, 0.0)) == b.hi;
    }
  }

  /** A finite box under a finite transform with non-negative scale. */
  lemma WorldBoxOfFinite(local: Box, t: Transform)
    requires local.FiniteBox? && t.scale.Finite? && t.scale.value >= 0.0 && FiniteVec(t.position)
    ensures WorldBox(local, t) == FiniteBox(Affine(local.lo, t.scale.value, ToPoint(t.position)),
                                            Affine(local.hi, t.scale.value, ToPoint(t.position)))
  {
  }

  lemma AxisExtent(l: real, h: real, s: real, p: real, e: real)
    requires e == h - l
    ensures (s * h + p) - (s * l + p) == s * e
  {
  }

  /** A uniform scale multiplies every side; the translation does not
      change them. */
  lemma ExtentOfAffine(lo: Point, hi: Point, s: real, p: Point)
    ensures Extent(Affine(lo, s, p), Affine(hi, s, p)) == Stretch(Extent(lo, hi), s)
  {
    var e, f := Extent(Affine(lo, s, p), Affine(hi, s, p)), Stretch(Extent(lo, hi), s);
    AxisExtent(lo.x, hi.x, s, p.x, Extent(lo, hi).x);
    AxisExtent(lo.y, hi.y, s, p.y, Extent(lo, hi).y);
    AxisExtent(lo.z, hi.z, s, p.z, Extent(lo, hi).z);
    assert e.x == f.x;
    assert e.y == f.y;
    assert e.z == f.z;
  }

  lemma AxisMidPoint(l: real, h: real, s: real, p: real, m: real)
    requires m == (l + h) / 2.0
    ensures ((s * l + p) + (s * h + p)) / 2.0 == s * m + p
  {
  }

  lemma MidPointOfAffineX(lo: Point, hi: Point, s: real, p: Point)
    ensures MidPoint(Affine(lo, s, p), Affine(hi, s, p)).x == Affine(MidPoint(lo, hi), s, p).x
  {
    AxisMidPoint(lo.x, hi.x, s, p.x, MidPoint(lo, hi).x);
  }

  lemma MidPointOfAffineY(lo: Point, hi: Point, s: real, p: Point)
    ensures MidPoint(Affine(lo, s, p), Affine(hi, s, p)).y == Affine(MidPoint(lo, hi), s, p).y
  {
    AxisMidPoint(lo.y, hi.y, s, p.y, MidPoint(lo, hi).y);
  }

  lemma MidPointOfAffineZ(lo: Point, hi: Point, s: real, p: Point)
    ensures MidPoint(Affine(lo, s, p), Affine(hi, s, p)).z == Affine(MidPoint(lo, hi), s, p).z
  {
    AxisMidPoint(lo.z, hi.z, s, p.z, MidPoint(lo, hi).z);
  }

  /** The centre moves with the corners. */
  lemma MidPointOfAffine(lo: Point, hi: Point, s: real, p: Point)
    ensures MidPoint(Affine(lo, s, p), Affine(hi, s, p)) == Affine(MidPoint(lo, hi), s, p)
  {
    MidPointOfAffineX(lo, hi, s, p);
    MidPointOfAffineY(lo, hi, s, p);
    MidPointOfAffineZ(lo, hi, s, p);
  }

  lemma AxisCentred(c: real, k: real)
    ensures (1.0 * k) * c + (0.0 - c) * k == 0.0
  {
  }

  /** Scaling a point by `k` about the origin, after moving it by its own
      negation scaled by `k`, gives the origin. */
  lemma RescaledCentre(c: Point, k: real)
    ensures Affine(c, 1.0 * k, Rescale(Point(0.0, 0.0, 0.0), c, k)) == Point(0.0, 0.0, 0.0)
  {
    var a := Affine(c, 1.0 * k, Rescale(Point(0.0, 0.0, 0.0), c, k));
    AxisCentred(c.x, k);
    AxisCentred(c.y, k);
    AxisCentred(c.z, k);
    assert a.x == 0.0;
    assert a.y == 0.0;
    assert a.z == 0.0;
  }

  lemma AxisOffCentre(c: real, k: real)
    ensures (1.0 * k) * c + (0.0 - c) == (k - 1.0) * c
  {
  }

  /** Scaling a point by `k` after moving it by its negation leaves it at
      `(k - 1)` times itself. */
  lemma NegatedCentre(c: Point, k: real)
    ensures Affine(c, 1.0 * k, Negated(c)) == Stretch(c, k - 1.0)
  {
    var a, b := Affine(c, 1.0 * k, Negated(c)), Stretch(c, k - 1.0);
    AxisOffCentre(c.x, k);
    AxisOffCentre(c.y, k);
    AxisOffCentre(c.z, k);
    assert a.x == b.x;
    assert a.y == b.y;
    assert a.z == b.z;
  }

  lemma MaxScaled(a: real, b: real, c: real, k: real)
    requires k > 0.0
    ensures Max3(Finite(k * a), Finite(k * b), Finite(k * c)) == Finite(k * Max3(Finite(a), Finite(b), Finite(c)).value)
  {
    if a <= b {
      assert k * a <= k * b;
    } else {
      assert k * b <= k * a;
    }
    if a <= c {
      assert k * a <= k * c;
    } else {
      assert k * c <= k * a;
    }
    if b <= c {
      assert k * b <= k * c;
    } else {
      assert k * c <= k * b;
    }
  }

  lemma StretchedSides(w: Box, k: real)
    requires w.FiniteBox? && k > 0.0
    ensures var v := ToVec(Stretch(Extent(w.lo, w.hi), k));
            Max3(v.x, v.y, v.z) == Finite(k * MaxDim(w).value)
  {
    MaxScaled(Extent(w.lo, w.hi).x, Extent(w.lo, w.hi).y, Extent(w.lo, w.hi).z, k);
  }

  /** Stretching every side by the factor `4 / maxDim` makes the largest
      side 4. */
  lemma NormalizedMaxDim(w: Box, after: Box)
    requires w.FiniteBox? && Ordered(w) && MaxDim(w) != Finite(0.0)
    requires Size(after) == ToVec(Stretch(Extent(w.lo, w.hi), 1.0 * Factor(w).value))
    ensures MaxDim(after) == Finite(4.0)
  {
    FactorPositive(w);
    StretchedSides(w, 1.0 * Factor(w).value);
  }

  /** The corrected normalisation of a fresh mesh, in real numbers. */
  lemma NormalizeOfFresh(w: Box)
    requires w.FiniteBox? && Ordered(w) && MaxDim(w) != Finite(0.0)
    ensures Factor(w).Finite? && Factor(w).value > 0.0
    ensures Normalize(Identity, w)
            == Transform(ToVec(Rescale(Point(0.0, 0.0, 0.0), MidPoint(w.lo, w.hi), Factor(w).value)),
                         Finite(1.0 * Factor(w).value))
  {
    FactorPositive(w);
  }

  /** After the corrected normalisation a fresh mesh of non-zero extent is
      centred on the origin and its largest side is 4. */
  lemma NormalizedBoxIsCentred(local: Box)
    requires local.FiniteBox? && Ordered(local) && MaxDim(local) != Finite(0.0)
    ensures var after := WorldBox(local, Normalize(Identity, WorldBox(local, Identity)));
            after.FiniteBox? && Center(after) == Origin && MaxDim(after) == Finite(4.0)
  {
    WorldBoxOfIdentity(local);
    NormalizeOfFresh(local);
    var p2 := Rescale(Point(0.0, 0.0, 0.0), MidPoint(local.lo, local.hi), Factor(local).value);
    var t2 := Transform(ToVec(p2), Finite(1.0 * Factor(local).value));
    assert ToPoint(t2.position) == p2;
    WorldBoxOfFinite(local, t2);
    MidPointOfAffine(local.lo, local.hi, 1.0 * Factor(local).value, p2);
    RescaledCentre(MidPoint(local.lo, local.hi), Factor(local).value);
    ExtentOfAffine(local.lo, local.hi, 1.0 * Factor(local).value, p2);
    NormalizedMaxDim(local, WorldBox(local, t2));
  }

  /** A fresh mesh of zero extent (all vertices at one point) is only moved
      to the origin; its scale is kept. */
  lemma NormalizeDegenerate(local: Box)
    requires local.FiniteBox? && Ordered(local) && MaxDim(local) == Finite(0.0)
    ensures var after := WorldBox(local, Normalize(Identity, WorldBox(local, Identity)));
            after.FiniteBox? && Center(after) == Origin && Size(after) == Size(local)
  {
    WorldBoxOfIdentity(local);
    var p2 := Negated(MidPoint(local.lo, local.hi));
    var t2 := Transform(ToVec(p2), Finite(1.0));
    assert Normalize(Identity, local) == t2;
    assert ToPoint(t2.position) == p2;
    WorldBoxOfFinite(local, t2);
    MidPointOfAffine(local.lo, local.hi, 1.0, p2);
    NegatedCentre(MidPoint(local.lo, local.hi), 1.0);
    ExtentOfAffine(local.lo, local.hi, 1.0, p2);
    assert Stretch(Extent(local.lo, local.hi), 1.0) == Extent(local.lo, local.hi);
  }

  /** The normalisation as written, on a fresh mesh of non-zero extent:
      the largest side does become 4, but the centre ends at `(k - 1) c`
      for the original centre `c` and the factor `k = 4 / maxDim`, which is
      the origin only when `k = 1` or `c` is the origin. */
  lemma AsWrittenOffCentre(local: Box)
    requires local.FiniteBox? && Ordered(local) && MaxDim(local) != Finite(0.0)
    ensures var after := WorldBox(local, NormalizeAsWritten(Identity, WorldBox(local, Identity)));
            after.FiniteBox? && MaxDim(after) == Finite(4.0)
            && Center(after) == ToVec(Stretch(MidPoint(local.lo, local.hi), Factor(local).value - 1.0))
  {
    WorldBoxOfIdentity(local);
    FactorPositive(local);
    var p2 := Negated(MidPoint(local.lo, local.hi));
    var t2 := Transform(ToVec(p2), Finite(1.0 * Factor(local).value));
    assert NormalizeAsWritten(Identity, local) == t2;
    assert ToPoint(t2.position) == p2;
    WorldBoxOfFinite(local, t2);
    MidPointOfAffine(local.lo, local.hi, 1.0 * Factor(local).value, p2);
    NegatedCentre(MidPoint(local.lo, local.hi), Factor(local).value);
    ExtentOfAffine(local.lo, local.hi, 1.0 * Factor(local).value, p2);
    NormalizedMaxDim(local, WorldBox(local, t2));
  }

  /** One triangle (10,10,10), (12,10,10), (10,12,12): its box is 10..12 on
      every axis, so the factor is 2 and the mesh as written ends centred
      at (11, 11, 11), not at the origin. */
  lemma AsWrittenCounterexample()
    ensures var local := BoxOf([Finite(10.0), Finite(10.0), Finite(10.0),
                                Finite(12.0), Finite(10.0), Finite(10.0),
                                Finite(10.0), Finite(12.0), Finite(12.0)]);
            var after := WorldBox(local, NormalizeAsWritten(Identity, WorldBox(local, Identity)));
            Center(after) == ToVec(Point(11.0, 11.0, 11.0)) && Center(after) != Origin
  {
    var ps := [Finite(10.0), Finite(10.0), Finite(10.0),
               Finite(12.0), Finite(10.0), Finite(10.0),
               Finite(10.0), Finite(12.0), Finite(12.0)];
    assert ps[..6][..3] == ps[..3];
    assert BoxOf(ps[..3]) == FiniteBox(Point(10.0, 10.0, 10.0), Point(10.0, 10.0, 10.0));
    assert BoxOf(ps[..6]) == FiniteBox(Point(10.0, 10.0, 10.0), Point(12.0, 10.0, 10.0));
    var local := BoxOf(ps);
    assert local == FiniteBox(Point(10.0, 10.0, 10.0), Point(12.0, 12.0, 12.0));
    assert MaxDim(local) == Finite(2.0);
    assert Factor(local) == Finite(2.0);
    AsWrittenOffCentre(local);
    assert Stretch(MidPoint(local.lo, local.hi), 2.0 - 1.0) == Point(11.0, 11.0, 11.0);
  }

  /** A mesh whose vertices all coincide has `maxDim = 0`; as written its
      scale becomes `4 / 0`, and its world box is no longer finite. */
  lemma AsWrittenDegenerate(local: Box)
    requires local.FiniteBox? && Ordered(local) && MaxDim(local) == Finite(0.0)
    ensures var t := NormalizeAsWritten(Identity, WorldBox(local, Identity));
            t.scale == NonFinite && WorldBox(local, t).NonFiniteBox?
  {
    WorldBoxOfIdentity(local);
  }

  // ---------------------------------------------------------- framing

  /** Every side of an ordered box is non-negative. */
  lemma MaxDimNonNegative(b: Box)
    requires Ordered(b)
    ensures MaxDim(b).Finite? ==> MaxDim(b).value >= 0.0
  {
  }

  /** The fitted distance is proportional to the size: `1.4 * maxSize`
      over `2 tan(fov / 2)`. */
  lemma FitDistanceProportional(m: real, tanHalfFov: real)
    requires tanHalfFov > 0.0
    ensures FitDistance(Finite(m), tanHalfFov).Finite?
    ensures FitDistance(Finite(m), tanHalfFov).value * (2.0 * tanHalfFov) == 1.4 * m
  {
    var q := Div(Finite(m), Finite(2.0 * tanHalfFov)).value;
    assert q * (2.0 * tanHalfFov) == m;
    assert (q * 1.4) * (2.0 * tanHalfFov) == 1.4 * (q * (2.0 * tanHalfFov));
  }

  /** A larger model is framed from farther away. */
  lemma FitDistanceMonotone(m1: real, m2: real, tanHalfFov: real)
    requires tanHalfFov > 0.0 && m1 <= m2
    ensures FitDistance(Finite(m1), tanHalfFov).value <= FitDistance(Finite(m2), tanHalfFov).value
  {
    FitDistanceProportional(m1, tanHalfFov);
    FitDistanceProportional(m2, tanHalfFov);
  }

  /** Squared Euclidean length of a finite vector. */
  function SquaredLength(v: Vec3): real
    requires FiniteVec(v)
  {
    v.x.value * v.x.value + v.y.value * v.y.value + v.z.value * v.z.value
  }

  /** When `normalize` behaves as `Vector3.normalize` on the old offset `d`
      (it scales `d` by some positive `lam` to unit length), the framed view
      looks at the box centre, and the camera stays on the ray from the
      target through its old position, at exactly the fitted distance. */
  lemma FitKeepsDirection(view: View, world: Box, tanHalfFov: real, normalize: Vec3 -> Vec3, lam: real)
    requires FiniteVec(Center(world))
    requires FiniteVec(VScale(normalize(VSub(view.camera.position, view.target)),
                              FitDistance(MaxDim(world), tanHalfFov)))
    requires lam > 0.0
    requires normalize(VSub(view.camera.position, view.target))
             == VScale(VSub(view.camera.position, view.target), Finite(lam))
    requires FiniteVec(normalize(VSub(view.camera.position, view.target)))
    requires SquaredLength(normalize(VSub(view.camera.position, view.target))) == 1.0
    ensures var fitted := Fit(view, world, tanHalfFov, normalize);
            var dist := FitDistance(MaxDim(world), tanHalfFov);
            fitted.target == Center(world)
            && dist.Finite?
            && VSub(fitted.camera.position, fitted.target)
               == VScale(VSub(view.camera.position, view.target), Finite(lam * dist.value))
            && FiniteVec(VSub(fitted.camera.position, fitted.target))
            && SquaredLength(VSub(fitted.camera.position, fitted.target)) == dist.value * dist.value
            && fitted.camera.aspect == view.camera.aspect
  {
    var d := VSub(view.camera.position, view.target);
    var dist := FitDistance(MaxDim(world), tanHalfFov);
    FitOffset(view, world, tanHalfFov, normalize);
    ScaleTwice(d, lam, dist.value);
    ScaledSquaredLength(normalize(d), dist.value);
  }

  /** The fitted camera sits at the normalised old offset times the fit
      distance from the box centre. */
  lemma FitOffset(view: View, world: Box, tanHalfFov: real, normalize: Vec3 -> Vec3)
    requires FiniteVec(Center(world))
    requires FiniteVec(VScale(normalize(VSub(view.camera.position, view.target)),
                              FitDistance(MaxDim(world), tanHalfFov)))
    ensures var fitted := Fit(view, world, tanHalfFov, normalize);
            fitted.target == Center(world)
            && VSub(fitted.camera.position, fitted.target)
               == VScale(normalize(VSub(view.camera.position, view.target)), FitDistance(MaxDim(world), tanHalfFov))
            && fitted.camera.aspect == view.camera.aspect
  {
  }

  lemma ScaleTwice(d: Vec3, a: real, b: real)
    requires FiniteVec(d)
    ensures VScale(VScale(d, Finite(a)), Finite(b)) == VScale(d, Finite(a * b))
  {
    assert (d.x.value * a) * b == d.x.value * (a * b);
    assert (d.y.value * a) * b == d.y.value * (a * b);
    assert (d.z.value * a) * b == d.z.value * (a * b);
  }

  lemma ScaledSquaredLength(n: Vec3, k: real)
    requires FiniteVec(n)
    ensures FiniteVec(VScale(n, Finite(k)))
    ensures SquaredLength(VScale(n, Finite(k))) == k * k * SquaredLength(n)
  {
    var a, b, c := n.x.value, n.y.value, n.z.value;
    assert (a * k) * (a * k) == k * k * (a * a);
    assert (b * k) * (b * k) == k * k * (b * b);
    assert (c * k) * (c * k) == k * k * (c * c);
  }

  /** The clip planes are `maxSize / 100` and `maxSize * 100`: for a box of
      finite size the near plane is in front of the far one exactly when
      the box has a non-zero side, and then `far = 10000 * near`. */
  lemma FitClipPlanes(view: View, world: Box, tanHalfFov: real, normalize: Vec3 -> Vec3)
    requires Ordered(world) && MaxDim(world).Finite?
    ensures var c := Fit(view, world, tanHalfFov, normalize).camera;
            c.near.Finite? && c.far.Finite?
            && c.near.value * 100.0 == MaxDim(world).value
            && (c.near.value < c.far.value <==> MaxDim(world).value > 0.0)
            && c.far.value == 10000.0 * c.near.value
  {
    MaxDimNonNegative(world);
  }

  /** A fresh mesh of non-zero extent, normalised and then framed: the view
      targets the origin, and the clip planes are 0.04 and 400. */
  lemma NormalizedThenFitted(local: Box, view: View, tanHalfFov: real, normalize: Vec3 -> Vec3)
    requires local.FiniteBox? && Ordered(local) && MaxDim(local) != Finite(0.0)
    ensures var after := WorldBox(local, Normalize(Identity, WorldBox(local, Identity)));
            var fitted := Fit(view, after, tanHalfFov, normalize);
            fitted.target == Origin && fitted.camera.near == Finite(0.04) && fitted.camera.far == Finite(400.0)
  {
    NormalizedBoxIsCentred(local);
  }
}
