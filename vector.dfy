/** Three-component vectors over exact reals: the part of the rendering
    library's Vector3 that the particle engine relies on. */
module Vector {

  datatype Vec3 = Vec3(x: real, y: real, z: real)

  function Add(a: Vec3, b: Vec3): Vec3 {
    Vec3(a.x + b.x, a.y + b.y, a.z + b.z)
  }

  /** `multiplyScalar` */
  function Scale(a: Vec3, k: real): Vec3 {
    Vec3(a.x * k, a.y * k, a.z * k)
  }

  function Dot(a: Vec3, b: Vec3): real {
    a.x * b.x + a.y * b.y + a.z * b.z
  }

  function Abs(r: real): real {
    if r < 0.0 then -r else r
  }

  /** `len` is the Euclidean length of `v`, i.e. the non-negative square
      root of v.v; the model carries lengths alongside vectors instead of
      taking square roots. */
  predicate IsLength(v: Vec3, len: real) {
    len >= 0.0 && len * len == Dot(v, v)
  }

  /** `v.clone().multiplyScalar(k).length()` is |k| times the length of v. */
  lemma ScaledLength(v: Vec3, len: real, k: real)
    requires IsLength(v, len)
    ensures IsLength(Scale(v, k), Abs(k) * len)
  {
    var w := Scale(v, k);
    calc {
      Dot(w, w);
      (v.x * k) * (v.x * k) + (v.y * k) * (v.y * k) + (v.z * k) * (v.z * k);
      { assert (v.x * k) * (v.x * k) == (v.x * v.x) * (k * k);
        assert (v.y * k) * (v.y * k) == (v.y * v.y) * (k * k);
        assert (v.z * k) * (v.z * k) == (v.z * v.z) * (k * k); }
      Dot(v, v) * (k * k);
      (len * len) * (k * k);
      { assert Abs(k) * Abs(k) == k * k; }
      (Abs(k) * len) * (Abs(k) * len);
    }
    assert Abs(k) >= 0.0;
  }

  /** `normalize()`: dividing a vector of length `len > 0` by `len` gives a
      vector of length 1. */
  lemma NormalizedLength(v: Vec3, len: real)
    requires IsLength(v, len) && len > 0.0
    ensures IsLength(Scale(v, 1.0 / len), 1.0)
  {
    ScaledLength(v, len, 1.0 / len);
    assert Abs(1.0 / len) * len == 1.0;
  }
}
