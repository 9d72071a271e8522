/** JavaScript numbers as the viewer uses them: a finite value, or one of the
    non-finite values (NaN, Infinity, -Infinity), which are not told apart. */
module JsNumbers {

  datatype Num = Finite(value: real) | NonFinite

  function Add(a: Num, b: Num): (r: Num)
    ensures r.Finite? <==> a.Finite? && b.Finite?
    ensures r.Finite? ==> r.value == a.value + b.value
  {
    if a.Finite? && b.Finite? then Finite(a.value + b.value) else NonFinite
  }

  function Sub(a: Num, b: Num): (r: Num)
    ensures r.Finite? <==> a.Finite? && b.Finite?
    ensures r.Finite? ==> r.value == a.value - b.value
  {
    if a.Finite? && b.Finite? then Finite(a.value - b.value) else NonFinite
  }

  function Mul(a: Num, b: Num): (r: Num)
    ensures r.Finite? <==> a.Finite? && b.Finite?
    ensures r.Finite? ==> r.value == a.value * b.value
  {
    if a.Finite? && b.Finite? then Finite(a.value * b.value) else NonFinite
  }

  /** Division; a zero divisor gives Infinity or NaN. */
  function Div(a: Num, b: Num): (r: Num)
    ensures r.Finite? <==> a.Finite? && b.Finite? && b.value != 0.0
    ensures r.Finite? ==> r.value * b.value == a.value
  {
    if a.Finite? && b.Finite? && b.value != 0.0 then Finite(a.value / b.value) else NonFinite
  }

  /** `Math.max` of three numbers. */
  function Max3(a: Num, b: Num, c: Num): (r: Num)
    ensures r.Finite? <==> a.Finite? && b.Finite? && c.Finite?
    ensures r.Finite? ==> a.value <= r.value && b.value <= r.value && c.value <= r.value
    ensures r.Finite? ==> r == a || r == b || r == c
  {
    if a.Finite? && b.Finite? && c.Finite? then
      Finite(if a.value >= b.value && a.value >= c.value then a.value
             else if b.value >= c.value then b.value else c.value)
    else NonFinite
  }

  datatype Vec3 = Vec3(x: Num, y: Num, z: Num)

  const Origin := Vec3(Finite(0.0), Finite(0.0), Finite(0.0))

  predicate FiniteVec(v: Vec3) {
    v.x.Finite? && v.y.Finite? && v.z.Finite?
  }

  function VAdd(a: Vec3, b: Vec3): Vec3 {
    Vec3(Add(a.x, b.x), Add(a.y, b.y), Add(a.z, b.z))
  }

  function VSub(a: Vec3, b: Vec3): Vec3 {
    Vec3(Sub(a.x, b.x), Sub(a.y, b.y), Sub(a.z, b.z))
  }

  function VScale(a: Vec3, k: Num): Vec3 {
    Vec3(Mul(a.x, k), Mul(a.y, k), Mul(a.z, k))
  }

  /** `subVectors` then `add` gives back the minuend. */
  lemma SubThenAdd(a: Vec3, b: Vec3)
    requires FiniteVec(a) && FiniteVec(b)
    ensures VAdd(b, VSub(a, b)) == a
  {
  }
}
