/** The recursive trace engine (Raytrace::TraceRay): nearest-hit scan, per-light
    shadow scan and Phong term, ambient term and bounded mirror reflection. */
module Raytrace {
  import opened Geometry
  import opened Scenes
  import opened Shading
  import Spheres

  /** DEFAULT_TMIN, 10e-6: the bias against shadow acne. */
  const DefaultTMin: real := 0.00001

  /** DEFAULT_TMAX, DBL_MAX = (2^53 - 1) * 2^971. */
  const DefaultTMax: real := 179769313486231570814527423731704356798070567525844996598917476803157260780028538760589558632766878171540458953514382464234321326889464182768467546703537516986049910576551282076245490090389328944075868508455133942304583236903222948165808559332123348274797826204144723168738177180919299881250404026184124858368.0

  /** Everything the engine calls but does not define: the numeric primitives, the
      surfaces' virtual hit and shadowHit, and the shadow-ray bound computed from
      the unnormalised direction to the light. */
  datatype Env = Env(
    num: Numerics,
    hit: (Surface, Ray, real, real) -> Option<HitRecord>,
    shadowHit: (Surface, Ray, real, real) -> bool,
    shadowTMax: Vec3 -> real)

  /** Each surface's hit stores that surface's own material in the record. */
  ghost predicate KeepsMaterial(env: Env) {
    forall s, r, lo, hi {:trigger env.hit(s, r, lo, hi)} ::
      env.hit(s, r, lo, hi).Some? ==> env.hit(s, r, lo, hi).value.mat == s.Material()
  }

  /** The primary ray with its direction normalised. */
  function UnitRay(env: Env, ray: Ray): Ray {
    Ray(ray.origin, env.num.unit(ray.direction))
  }

  /** The state of the nearest-hit scan: hasHitSomething, nearest_t, nearestHitRec. */
  datatype NearestHit = NearestHit(hasHitSomething: bool, nearest_t: real, rec: HitRecord)

  /** The default-constructed record, never read when nothing was hit. */
  const NoRecord := HitRecord(0.0, Zero, Zero, 0)

  /** The scan state after the surfaces in the given order: a reported hit replaces
      the kept one only when its t is strictly smaller. */
  function ScanNearest(env: Env, surfaces: seq<Surface>, ray: Ray): NearestHit
    decreases |surfaces|
  {
    if surfaces == [] then NearestHit(false, DefaultTMax, NoRecord)
    else
      var prev := ScanNearest(env, surfaces[..|surfaces| - 1], ray);
      var h := env.hit(surfaces[|surfaces| - 1], ray, DefaultTMin, DefaultTMax);
      if h.Some? && h.value.t < prev.nearest_t then NearestHit(true, h.value.t, h.value) else prev
  }

  /** A surface whose reported hit can be kept: it hits, below the initial nearest_t. */
  predicate Candidate(env: Env, s: Surface, ray: Ray) {
    var h := env.hit(s, ray, DefaultTMin, DefaultTMax);
    h.Some? && h.value.t < DefaultTMax
  }

  /** Surface j's record is the first one with the smallest t among all candidates. */
  ghost predicate FirstNearest(env: Env, surfaces: seq<Surface>, ray: Ray, j: int, rec: HitRecord) {
    && 0 <= j < |surfaces|
    && env.hit(surfaces[j], ray, DefaultTMin, DefaultTMax) == Some(rec)
    && rec.t < DefaultTMax
    && (forall k :: 0 <= k < |surfaces| && Candidate(env, surfaces[k], ray) ==>
          rec.t <= env.hit(surfaces[k], ray, DefaultTMin, DefaultTMax).value.t)
    && (forall k :: 0 <= k < j && Candidate(env, surfaces[k], ray) ==>
          rec.t < env.hit(surfaces[k], ray, DefaultTMin, DefaultTMax).value.t)
  }

  /** The scan finds a hit exactly when some surface is a candidate; the kept record
      is then the earliest surface's among those with minimal t. */
  lemma {:induction false} NearestIsFirstMinimum(env: Env, surfaces: seq<Surface>, ray: Ray)
    ensures var n := ScanNearest(env, surfaces, ray);
            && (n.hasHitSomething <==> exists k :: 0 <= k < |surfaces| && Candidate(env, surfaces[k], ray))
            && (!n.hasHitSomething ==> n.nearest_t == DefaultTMax)
            && (n.hasHitSomething ==> n.nearest_t == n.rec.t)
            && (n.hasHitSomething ==> exists j :: FirstNearest(env, surfaces, ray, j, n.rec))
    decreases |surfaces|
  {
    if surfaces != [] {
      var m := |surfaces| - 1;
      var init := surfaces[..m];
      NearestIsFirstMinimum(env, init, ray);
      var prev := ScanNearest(env, init, ray);
      var h := env.hit(surfaces[m], ray, DefaultTMin, DefaultTMax);
      assert forall k :: 0 <= k < m ==> init[k] == surfaces[k];
      if h.Some? && h.value.t < prev.nearest_t {
        assert Candidate(env, surfaces[m], ray);
        assert FirstNearest(env, surfaces, ray, m, h.value) by {
          if prev.hasHitSomething {
            var j :| FirstNearest(env, init, ray, j, prev.rec);
          } else {
            assert forall k :: 0 <= k < m ==> !Candidate(env, init[k], ray);
          }
        }
      } else if prev.hasHitSomething {
        var j :| FirstNearest(env, init, ray, j, prev.rec);
        assert FirstNearest(env, surfaces, ray, j, prev.rec);
      } else {
        assert !Candidate(env, surfaces[m], ray);
        assert forall k :: 0 <= k < m ==> !Candidate(env, init[k], ray);
      }
    }
  }

  /** The state of the lighting loop: the accumulated colour and the view vector,
      which the shadowed loop normalises in place each time a light is unoccluded. */
  datatype Lit = Lit(color: Color, V: Vec3)

  /** Some surface reports a shadow hit on the ray from p along L within (DefaultTMin, tmax). */
  predicate Occluded(env: Env, surfaces: seq<Surface>, p: Vec3, L: Vec3, tmax: real) {
    exists k :: 0 <= k < |surfaces| && env.shadowHit(surfaces[k], Ray(p, L), DefaultTMin, tmax)
  }

  /** The direction to the light in the shadowed loop: the source normalises L twice. */
  function ShadowLightDir(env: Env, light: PointLight, p: Vec3): Vec3 {
    env.num.unit(env.num.unit(Sub(light.position, p)))
  }

  /** The shadowed lighting loop over the lights in order. */
  function ShadowedLighting(env: Env, surfaces: seq<Surface>, mat: Material, p: Vec3, N: Vec3, V: Vec3,
                            lights: seq<PointLight>): Lit
    decreases |lights|
  {
    if lights == [] then Lit(Black, V)
    else
      var prev := ShadowedLighting(env, surfaces, mat, p, N, V, lights[..|lights| - 1]);
      var light := lights[|lights| - 1];
      var tmax := env.shadowTMax(Sub(light.position, p));
      var L := ShadowLightDir(env, light, p);
      if Occluded(env, surfaces, p, L, tmax) then prev
      else
        var V' := env.num.unit(prev.V);
        Lit(CAdd(prev.color, Phong(env.num, L, N, V', mat, light)), V')
  }

  /** The unshadowed lighting loop: every light's Phong term, in order. */
  function PlainLighting(num: Numerics, mat: Material, p: Vec3, N: Vec3, V: Vec3, lights: seq<PointLight>): Color
    decreases |lights|
  {
    if lights == [] then Black
    else
      var light := lights[|lights| - 1];
      var L := num.unit(Sub(light.position, p));
      CAdd(PlainLighting(num, mat, p, N, V, lights[..|lights| - 1]), Phong(num, L, N, V, mat, light))
  }

  /** The direct lighting at a hit, with or without shadows. */
  function DirectLighting(env: Env, scene: Scene, rec: HitRecord, N: Vec3, V: Vec3, hasShadow: bool): Lit
    requires rec.mat < |scene.materials|
  {
    var mat := scene.materials[rec.mat];
    if hasShadow then ShadowedLighting(env, scene.surfaces, mat, rec.p, N, V, scene.ptLights)
    else Lit(PlainLighting(env.num, mat, rec.p, N, V, scene.ptLights), V)
  }

  /** The colour TraceRay returns for a ray. */
  function Trace(env: Env, scene: Scene, ray: Ray, reflectLevels: int, hasShadow: bool): Color
    requires KeepsMaterial(env) && WellFormed(scene) && reflectLevels >= 0
    decreases reflectLevels
  {
    var uRay := UnitRay(env, ray);
    var near := ScanNearest(env, scene.surfaces, uRay);
    if !near.hasHitSomething then scene.backgroundColor
    else
      var rec := near.rec;
      var mat := HitMaterial(env, scene, uRay);
      assert rec.mat < |scene.materials| by { HitMaterialInTable(env, scene, uRay); }
      var N := env.num.unit(rec.normal);
      var V := Neg(uRay.direction);
      var lit := DirectLighting(env, scene, rec, N, V, hasShadow);
      var local := CAdd(lit.color, CMul(mat.k_a, scene.I_a));
      if reflectLevels != 0 then
        var reflected := MirrorReflect(lit.V, N);
        var bounce := Trace(env, scene, Ray(rec.p, env.num.unit(reflected)), reflectLevels - 1, hasShadow);
        CAdd(local, CMul(bounce, mat.k_rg))
      else local
  }

  /** The material of the kept record. */
  function HitMaterial(env: Env, scene: Scene, ray: Ray): Material
    requires KeepsMaterial(env) && WellFormed(scene)
    requires ScanNearest(env, scene.surfaces, ray).hasHitSomething
  {
    HitMaterialInTable(env, scene, ray);
    scene.materials[ScanNearest(env, scene.surfaces, ray).rec.mat]
  }

  /** The kept record's material index lies in the material table. */
  lemma HitMaterialInTable(env: Env, scene: Scene, ray: Ray)
    requires KeepsMaterial(env) && WellFormed(scene)
    requires ScanNearest(env, scene.surfaces, ray).hasHitSomething
    ensures ScanNearest(env, scene.surfaces, ray).rec.mat < |scene.materials|
  {
    NearestIsFirstMinimum(env, scene.surfaces, ray);
    var n := ScanNearest(env, scene.surfaces, ray);
    var j :| FirstNearest(env, scene.surfaces, ray, j, n.rec);
    assert env.hit(scene.surfaces[j], ray, DefaultTMin, DefaultTMax).value.mat == scene.surfaces[j].Material();
  }

  /** Raytrace::TraceRay. The nearest-hit scan, the lighting loops (the shadowed one
      with its occluder scan that stops at the first shadow hit), the ambient term and
      the reflected ray follow the source statement by statement. The ghost depth is
      the number of nested reflected rays traced. */
  method TraceRay(env: Env, scene: Scene, ray: Ray, reflectLevels: int, hasShadow: bool)
    returns (result: Color, ghost depth: nat)
    requires KeepsMaterial(env) && WellFormed(scene) && reflectLevels >= 0
    ensures result == Trace(env, scene, ray, reflectLevels, hasShadow)
    ensures depth <= reflectLevels
    decreases reflectLevels
  {
    var uRay := UnitRay(env, ray);

    var hasHitSomething := false;
    var nearest_t := DefaultTMax;
    var nearestHitRec := NoRecord;
    var i := 0;
    while i < scene.numSurfaces
      invariant 0 <= i <= scene.numSurfaces
      invariant NearestHit(hasHitSomething, nearest_t, nearestHitRec) == ScanNearest(env, scene.surfaces[..i], uRay)
    {
      var tempHitRec := env.hit(scene.surfaces[i], uRay, DefaultTMin, DefaultTMax);
      assert scene.surfaces[..i + 1][..i] == scene.surfaces[..i];
      if tempHitRec.Some? && tempHitRec.value.t < nearest_t {
        hasHitSomething := true;
        nearest_t := tempHitRec.value.t;
        nearestHitRec := tempHitRec.value;
      }
      i := i + 1;
    }
    assert scene.surfaces[..i] == scene.surfaces;

    if !hasHitSomething {
      return scene.backgroundColor, 0;
    }

    HitMaterialInTable(env, scene, uRay);
    var mat := scene.materials[nearestHitRec.mat];
    var N := env.num.unit(nearestHitRec.normal);
    var V := Neg(uRay.direction);
    ghost var V0 := V;
    var p := nearestHitRec.p;

    result := Black;
    var lights := scene.ptLights;
    if hasShadow {
      var j := 0;
      while j < |lights|
        invariant 0 <= j <= |lights|
        invariant Lit(result, V) == ShadowedLighting(env, scene.surfaces, mat, p, N, V0, lights[..j])
      {
        assert lights[..j + 1][..j] == lights[..j];
        var hitChecker := false;
        var L := Sub(lights[j].position, p);
        var tmax := env.shadowTMax(L);
        L := env.num.unit(L);
        L := env.num.unit(L);
        var k := 0;
        while k < scene.numSurfaces
          invariant 0 <= k <= scene.numSurfaces
          invariant !hitChecker
          invariant forall m :: 0 <= m < k ==> !env.shadowHit(scene.surfaces[m], Ray(p, L), DefaultTMin, tmax)
        {
          hitChecker := env.shadowHit(scene.surfaces[k], Ray(p, L), DefaultTMin, tmax);
          if hitChecker {
            break;
          }
          k := k + 1;
        }
        assert hitChecker == Occluded(env, scene.surfaces, p, L, tmax);
        if !hitChecker {
          V := env.num.unit(V);
          result := CAdd(result, Phong(env.num, L, N, V, mat, lights[j]));
        }
        j := j + 1;
      }
      assert lights[..j] == lights;
    } else {
      var j := 0;
      while j < |lights|
        invariant 0 <= j <= |lights|
        invariant result == PlainLighting(env.num, mat, p, N, V, lights[..j])
      {
        assert lights[..j + 1][..j] == lights[..j];
        var L := Sub(lights[j].position, p);
        L := env.num.unit(L);
        result := CAdd(result, Phong(env.num, L, N, V, mat, lights[j]));
        j := j + 1;
      }
      assert lights[..j] == lights;
    }

    result := CAdd(result, CMul(mat.k_a, scene.I_a));

    depth := 0;
    if reflectLevels != 0 {
      var reflected := MirrorReflect(V, N);
      var bounce, d := TraceRay(env, scene, Ray(p, env.num.unit(reflected)), reflectLevels - 1, hasShadow);
      result := CAdd(result, CMul(bounce, mat.k_rg));
      depth := d + 1;
    }
  }

  /** When no surface reports a usable hit, the result is exactly the background
      colour, with no light, ambient or reflected contribution. */
  lemma NoHitGivesBackground(env: Env, scene: Scene, ray: Ray, reflectLevels: int, hasShadow: bool)
    requires KeepsMaterial(env) && WellFormed(scene) && reflectLevels >= 0
    requires forall k :: 0 <= k < |scene.surfaces| ==> !Candidate(env, scene.surfaces[k], UnitRay(env, ray))
    ensures Trace(env, scene, ray, reflectLevels, hasShadow) == scene.backgroundColor
  {
    NearestIsFirstMinimum(env, scene.surfaces, UnitRay(env, ray));
  }

  /** A hit material whose k_rg is zero contributes no reflection: any number of
      reflection levels gives the result of zero levels. */
  lemma NonReflectiveIgnoresLevels(env: Env, scene: Scene, ray: Ray, reflectLevels: int, hasShadow: bool)
    requires KeepsMaterial(env) && WellFormed(scene) && reflectLevels >= 0
    requires ScanNearest(env, scene.surfaces, UnitRay(env, ray)).hasHitSomething
    requires HitMaterial(env, scene, UnitRay(env, ray)).k_rg == Black
    ensures Trace(env, scene, ray, reflectLevels, hasShadow) == Trace(env, scene, ray, 0, hasShadow)
  {
  }

  /** Two materials that differ at most in k_rg. */
  predicate SameButReflection(m1: Material, m2: Material) {
    m1.k_d == m2.k_d && m1.k_a == m2.k_a && m1.k_r == m2.k_r && m1.n == m2.n
  }

  lemma {:induction false} ShadowedIgnoresReflection(env: Env, surfaces: seq<Surface>, m1: Material, m2: Material,
                                                     p: Vec3, N: Vec3, V: Vec3, lights: seq<PointLight>)
    requires SameButReflection(m1, m2)
    ensures ShadowedLighting(env, surfaces, m1, p, N, V, lights) == ShadowedLighting(env, surfaces, m2, p, N, V, lights)
    decreases |lights|
  {
    if lights != [] {
      ShadowedIgnoresReflection(env, surfaces, m1, m2, p, N, V, lights[..|lights| - 1]);
    }
  }

  lemma {:induction false} PlainIgnoresReflection(num: Numerics, m1: Material, m2: Material,
                                                  p: Vec3, N: Vec3, V: Vec3, lights: seq<PointLight>)
    requires SameButReflection(m1, m2)
    ensures PlainLighting(num, m1, p, N, V, lights) == PlainLighting(num, m2, p, N, V, lights)
    decreases |lights|
  {
    if lights != [] {
      PlainIgnoresReflection(num, m1, m2, p, N, V, lights[..|lights| - 1]);
    }
  }

  /** With zero reflection levels the result does not depend on any material's k_rg. */
  lemma LevelZeroIgnoresReflectivity(env: Env, s1: Scene, s2: Scene, ray: Ray, hasShadow: bool)
    requires KeepsMaterial(env) && WellFormed(s1) && WellFormed(s2)
    requires s1.backgroundColor == s2.backgroundColor && s1.I_a == s2.I_a
    requires s1.ptLights == s2.ptLights && s1.surfaces == s2.surfaces && s1.numSurfaces == s2.numSurfaces
    requires |s1.materials| == |s2.materials|
    requires forall i :: 0 <= i < |s1.materials| ==> SameButReflection(s1.materials[i], s2.materials[i])
    ensures Trace(env, s1, ray, 0, hasShadow) == Trace(env, s2, ray, 0, hasShadow)
  {
    var uRay := UnitRay(env, ray);
    var near := ScanNearest(env, s1.surfaces, uRay);
    if near.hasHitSomething {
      HitMaterialInTable(env, s1, uRay);
      var rec := near.rec;
      var m1, m2 := s1.materials[rec.mat], s2.materials[rec.mat];
      var N := env.num.unit(rec.normal);
      var V := Neg(uRay.direction);
      ShadowedIgnoresReflection(env, s1.surfaces, m1, m2, rec.p, N, V, s1.ptLights);
      PlainIgnoresReflection(env.num, m1, m2, rec.p, N, V, s1.ptLights);
    }
  }

  /** Without occluders the shadowed loop adds every light's Phong term, like the
      unshadowed loop, and leaves the (unit) view vector as it was. */
  lemma {:induction false} UnoccludedShadowedIsPlain(env: Env, surfaces: seq<Surface>, mat: Material,
                                                     p: Vec3, N: Vec3, V: Vec3, lights: seq<PointLight>)
    requires UnitLaws(env.num) && env.num.unit(V) == V
    requires forall j :: 0 <= j < |lights| ==>
               !Occluded(env, surfaces, p, ShadowLightDir(env, lights[j], p), env.shadowTMax(Sub(lights[j].position, p)))
    ensures ShadowedLighting(env, surfaces, mat, p, N, V, lights) == Lit(PlainLighting(env.num, mat, p, N, V, lights), V)
    decreases |lights|
  {
    if lights != [] {
      var init := lights[..|lights| - 1];
      assert forall j :: 0 <= j < |init| ==> init[j] == lights[j];
      UnoccludedShadowedIsPlain(env, surfaces, mat, p, N, V, init);
      var light := lights[|lights| - 1];
      var L0 := Sub(light.position, p);
      assert env.num.unit(env.num.unit(L0)) == env.num.unit(L0);
    }
  }

  /** When no surface ever reports a shadow hit, tracing with shadows gives the
      same colour as tracing without, at every reflection depth. */
  lemma {:induction false} ShadowsInvisibleWithoutOccluders(env: Env, scene: Scene, ray: Ray, reflectLevels: int)
    requires KeepsMaterial(env) && WellFormed(scene) && reflectLevels >= 0 && UnitLaws(env.num)
    requires forall s, r, lo, hi :: !env.shadowHit(s, r, lo, hi)
    ensures Trace(env, scene, ray, reflectLevels, true) == Trace(env, scene, ray, reflectLevels, false)
    decreases reflectLevels
  {
    var uRay := UnitRay(env, ray);
    var near := ScanNearest(env, scene.surfaces, uRay);
    if near.hasHitSomething {
      HitMaterialInTable(env, scene, uRay);
      var rec := near.rec;
      var mat := scene.materials[rec.mat];
      var N := env.num.unit(rec.normal);
      var V := Neg(uRay.direction);
      assert env.num.unit(V) == Neg(env.num.unit(env.num.unit(ray.direction)));
      UnoccludedShadowedIsPlain(env, scene.surfaces, mat, rec.p, N, V, scene.ptLights);
      if reflectLevels != 0 {
        var reflected := MirrorReflect(V, N);
        ShadowsInvisibleWithoutOccluders(env, scene, Ray(rec.p, env.num.unit(reflected)), reflectLevels - 1);
      }
    }
  }

  /** When every light is occluded the shadowed loop adds nothing. */
  lemma {:induction false} OccludedLightsAddNothing(env: Env, surfaces: seq<Surface>, mat: Material,
                                                    p: Vec3, N: Vec3, V: Vec3, lights: seq<PointLight>)
    requires forall j :: 0 <= j < |lights| ==>
               Occluded(env, surfaces, p, ShadowLightDir(env, lights[j], p), env.shadowTMax(Sub(lights[j].position, p)))
    ensures ShadowedLighting(env, surfaces, mat, p, N, V, lights) == Lit(Black, V)
    decreases |lights|
  {
    if lights != [] {
      var init := lights[..|lights| - 1];
      assert forall j :: 0 <= j < |init| ==> init[j] == lights[j];
      OccludedLightsAddNothing(env, surfaces, mat, p, N, V, init);
    }
  }

  /** Light i's shadow ray from p is blocked: some surface reports a shadow hit on it. */
  predicate Blocked(env: Env, surfaces: seq<Surface>, p: Vec3, light: PointLight) {
    Occluded(env, surfaces, p, ShadowLightDir(env, light, p), env.shadowTMax(Sub(light.position, p)))
  }

  /** The lights whose shadow rays from p are not blocked, in their original order. */
  function Unoccluded(env: Env, surfaces: seq<Surface>, p: Vec3, lights: seq<PointLight>): (r: seq<PointLight>)
    ensures forall l :: l in r <==> l in lights && !Blocked(env, surfaces, p, l)
    decreases |lights|
  {
    if lights == [] then []
    else
      var init := lights[..|lights| - 1];
      var light := lights[|lights| - 1];
      assert lights == init + [light];
      var u := Unoccluded(env, surfaces, p, init);
      if Blocked(env, surfaces, p, light) then u else u + [light]
  }

  /** The shadowed loop adds exactly the Phong terms of the unblocked lights, each
      once and in order, and skips every blocked light; a unit view vector is left
      as it was. */
  lemma {:induction false} ShadowedIsPlainOverUnoccluded(env: Env, surfaces: seq<Surface>, mat: Material,
                                                         p: Vec3, N: Vec3, V: Vec3, lights: seq<PointLight>)
    requires UnitLaws(env.num) && env.num.unit(V) == V
    ensures ShadowedLighting(env, surfaces, mat, p, N, V, lights) ==
            Lit(PlainLighting(env.num, mat, p, N, V, Unoccluded(env, surfaces, p, lights)), V)
    decreases |lights|
  {
    if lights != [] {
      var init := lights[..|lights| - 1];
      var light := lights[|lights| - 1];
      ShadowedIsPlainOverUnoccluded(env, surfaces, mat, p, N, V, init);
      var u := Unoccluded(env, surfaces, p, init);
      if !Blocked(env, surfaces, p, light) {
        assert (u + [light])[..|u|] == u;
        var L0 := Sub(light.position, p);
        assert env.num.unit(env.num.unit(L0)) == env.num.unit(L0);
      }
    }
  }

  /** The record the nearest-hit scan keeps for a ray. */
  function NearestRecord(env: Env, scene: Scene, ray: Ray): HitRecord {
    ScanNearest(env, scene.surfaces, UnitRay(env, ray)).rec
  }

  /** With shadows on, if every light's shadow ray from the hit point is blocked, no
      light contributes: the hit receives its material's ambient term k_a * I_a, plus,
      when levels remain, the k_rg-weighted colour of the mirror ray about the
      unchanged view vector. */
  lemma AllBlockedGivesAmbientOnly(env: Env, scene: Scene, ray: Ray, reflectLevels: int)
    requires KeepsMaterial(env) && WellFormed(scene) && reflectLevels >= 0
    requires ScanNearest(env, scene.surfaces, UnitRay(env, ray)).hasHitSomething
    requires forall i :: 0 <= i < |scene.ptLights| ==>
               Blocked(env, scene.surfaces, NearestRecord(env, scene, ray).p, scene.ptLights[i])
    ensures var uRay := UnitRay(env, ray);
            var rec := NearestRecord(env, scene, ray);
            var mat := HitMaterial(env, scene, uRay);
            var ambient := CAdd(Black, CMul(mat.k_a, scene.I_a));
            var mirror := MirrorReflect(Neg(uRay.direction), env.num.unit(rec.normal));
            Trace(env, scene, ray, reflectLevels, true) ==
              if reflectLevels == 0 then ambient
              else CAdd(ambient, CMul(Trace(env, scene, Ray(rec.p, env.num.unit(mirror)), reflectLevels - 1, true), mat.k_rg))
  {
    var uRay := UnitRay(env, ray);
    var rec := NearestRecord(env, scene, ray);
    var lights := scene.ptLights;
    assert forall i :: 0 <= i < |lights| ==>
      Occluded(env, scene.surfaces, rec.p, ShadowLightDir(env, lights[i], rec.p), env.shadowTMax(Sub(lights[i].position, rec.p)));
    OccludedLightsAddNothing(env, scene.surfaces, HitMaterial(env, scene, uRay), rec.p,
                             env.num.unit(rec.normal), Neg(uRay.direction), lights);
  }

  /** Each light is accounted for exactly once: the unshadowed sum over two groups of
      lights is the sum of the two groups' sums. */
  lemma {:induction false} PlainLightingSplits(num: Numerics, mat: Material, p: Vec3, N: Vec3, V: Vec3,
                                               front: seq<PointLight>, back: seq<PointLight>)
    ensures PlainLighting(num, mat, p, N, V, front + back) ==
            CAdd(PlainLighting(num, mat, p, N, V, front), PlainLighting(num, mat, p, N, V, back))
    decreases |back|
  {
    if back == [] {
      assert front + back == front;
    } else {
      var all := front + back;
      var initBack := back[..|back| - 1];
      assert all[..|all| - 1] == front + initBack;
      assert all[|all| - 1] == back[|back| - 1];
      PlainLightingSplits(num, mat, p, N, V, front, initBack);
    }
  }

  /** The record Sphere::hit fills in, as a value: the parameter HitT finds, the
      point there, the normalised outward normal and the sphere's material. */
  function SphereRecord(num: Numerics, s: Spheres.Sphere, r: Ray, lo: real, hi: real): Option<HitRecord>
    requires Dot(r.direction, r.direction) > 0.0
  {
    match Spheres.HitT(num, s, r, lo, hi)
    case None => None
    case Some(t) =>
      var p := PointAt(r, t);
      Some(HitRecord(t, p, num.unit(Sub(p, s.center)), s.mat))
  }

  /** The engine's oracles answer for spheres as Sphere::hit and Sphere::shadowHit do. */
  ghost predicate SpheresAsModelled(env: Env) {
    forall s: Spheres.Sphere, r: Ray, lo: real, hi: real {:trigger env.hit(SphereSurface(s), r, lo, hi)} ::
      Dot(r.direction, r.direction) > 0.0 ==>
        env.hit(SphereSurface(s), r, lo, hi) == SphereRecord(env.num, s, r, lo, hi) &&
        env.shadowHit(SphereSurface(s), r, lo, hi) == Spheres.ShadowHit(env.num, s, r, lo, hi)
  }

  /** Oracles built from the sphere model meet what the engine relies on for a
      sphere: the record keeps the sphere's material, its t lies in the interval, and
      the shadow test agrees with the hit test. */
  lemma SphereOracleConsistent(env: Env, s: Spheres.Sphere, r: Ray, lo: real, hi: real)
    requires SpheresAsModelled(env) && Dot(r.direction, r.direction) > 0.0
    ensures env.hit(SphereSurface(s), r, lo, hi).Some? ==>
              env.hit(SphereSurface(s), r, lo, hi).value.mat == SphereSurface(s).Material() &&
              lo <= env.hit(SphereSurface(s), r, lo, hi).value.t <= hi
    ensures env.shadowHit(SphereSurface(s), r, lo, hi) <==> env.hit(SphereSurface(s), r, lo, hi).Some?
  {
    assert env.hit(SphereSurface(s), r, lo, hi) == SphereRecord(env.num, s, r, lo, hi);
  }
}
