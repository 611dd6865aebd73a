/** The scene data model: materials, point lights, surfaces and the scene aggregate. */
module Scenes {
  import opened Geometry
  import opened Spheres

  /** Material: diffuse, ambient, specular and global-reflection coefficients, and
      the specular exponent n. */
  datatype Material = Material(k_d: Color, k_a: Color, k_r: Color, k_rg: Color, n: real)

  datatype PointLight = PointLight(I_source: Color, position: Vec3)

  /** The three surface variants; each refers to its material by an index into the
      scene's material table (the source keeps a pointer into that table). */
  datatype Surface =
    | SphereSurface(sphere: Sphere)
    | Plane(a: real, b: real, c: real, d: real, mat: nat)
    | Triangle(v1: Vec3, v2: Vec3, v3: Vec3, mat: nat)
  {
    function Material(): nat {
      match this
      case SphereSurface(s) => s.mat
      case Plane(_, _, _, _, m) => m
      case Triangle(_, _, _, m) => m
    }
  }

  /** The value of a SurfaceHitRecord: parameter, point, normal and material index. */
  datatype HitRecord = HitRecord(t: real, p: Vec3, normal: Vec3, mat: nat)

  /** The Scene aggregate, keeping the source's separate surface counter. */
  datatype Scene = Scene(
    backgroundColor: Color,
    I_a: Color,
    materials: seq<Material>,
    ptLights: seq<PointLight>,
    surfaces: seq<Surface>,
    numSurfaces: int)

  /** The counter matches the surface table, and every surface's material index lies
      inside the material table. */
  ghost predicate WellFormed(scene: Scene) {
    && scene.numSurfaces == |scene.surfaces|
    && forall i :: 0 <= i < |scene.surfaces| ==> scene.surfaces[i].Material() < |scene.materials|
  }
}
