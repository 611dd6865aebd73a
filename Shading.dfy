/** Mirror reflection and the Phong term of one point light (mirrorReflect,
    computePhongLighting). */
module Shading {
  import opened Geometry
  import opened Scenes

  /** The reflection of L about N: (2 N.L) N - L. */
  function MirrorReflect(L: Vec3, N: Vec3): Vec3 {
    Sub(Scale(2.0 * Dot(N, L), N), L)
  }

  /** Expansion of |k N - L|^2. */
  lemma ScaledDifferenceSquare(k: real, N: Vec3, L: Vec3)
    ensures var w := Sub(Scale(k, N), L);
            Dot(w, w) == k * k * Dot(N, N) - 2.0 * k * Dot(N, L) + Dot(L, L)
  {
  }

  /** For a unit N the reflection keeps the length of L and its dot product with N,
      and reflecting twice gives L back. */
  lemma ReflectProperties(L: Vec3, N: Vec3)
    requires Dot(N, N) == 1.0
    ensures var R := MirrorReflect(L, N);
            && Dot(R, R) == Dot(L, L)
            && Dot(R, N) == Dot(L, N)
            && Dot(N, R) == Dot(N, L)
            && MirrorReflect(R, N) == L
  {
    var k := 2.0 * Dot(N, L);
    var R := MirrorReflect(L, N);
    ScaledDifferenceSquare(k, N, L);
    assert k * k * Dot(N, N) == k * k;
    assert k * k == 2.0 * k * Dot(N, L);
    assert Dot(R, N) == k * Dot(N, N) - Dot(L, N);
    assert Dot(N, R) == Dot(R, N);
    assert 2.0 * Dot(N, R) == k;
  }

  /** max(x, 0), the clamp of the source's two dot products. */
  function ClampNonNegative(x: real): (r: real)
    ensures r >= 0.0 && r >= x
    ensures r == x || r == 0.0
  {
    if x < 0.0 then 0.0 else x
  }

  /** I_source * (k_d * max(N.L, 0) + k_r * max(R.V, 0)^n) with R the reflection of L. */
  function Phong(num: Numerics, L: Vec3, N: Vec3, V: Vec3, mat: Material, light: PointLight): Color {
    var R := MirrorReflect(L, N);
    var nDotL := ClampNonNegative(Dot(N, L));
    var rDotV := ClampNonNegative(Dot(R, V));
    var spec := num.pow(rDotV, mat.n);
    CMul(light.I_source, CAdd(CScale(mat.k_d, nDotL), CScale(mat.k_r, spec)))
  }

  lemma NonNegativeScale(c: Color, k: real)
    requires NonNegative(c) && k >= 0.0
    ensures NonNegative(CScale(c, k))
  {
  }

  lemma NonNegativeMul(c: Color, d: Color)
    requires NonNegative(c) && NonNegative(d)
    ensures NonNegative(CMul(c, d))
  {
  }

  /** With non-negative light, diffuse and specular colours and a power that keeps
      non-negative bases non-negative, the Phong term is non-negative. */
  lemma PhongNonNegative(num: Numerics, L: Vec3, N: Vec3, V: Vec3, mat: Material, light: PointLight)
    requires PowLaw(num)
    requires NonNegative(light.I_source) && NonNegative(mat.k_d) && NonNegative(mat.k_r)
    ensures NonNegative(Phong(num, L, N, V, mat, light))
  {
    var R := MirrorReflect(L, N);
    var nDotL := ClampNonNegative(Dot(N, L));
    var rDotV := ClampNonNegative(Dot(R, V));
    var spec := num.pow(rDotV, mat.n);
    assert spec >= 0.0;
    NonNegativeScale(mat.k_d, nDotL);
    NonNegativeScale(mat.k_r, spec);
    NonNegativeMul(light.I_source, CAdd(CScale(mat.k_d, nDotL), CScale(mat.k_r, spec)));
  }
}
