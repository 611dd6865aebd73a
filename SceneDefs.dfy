/** The two scenes of the program: scene 1 written out in full, and scene 2, whose
    room is written out and whose teddy bear and teapot come from mesh files. */
module SceneDefs {
  import opened Geometry
  import opened Spheres
  import opened Scenes
  import opened Mesh

  /** A colour divided by a scalar (Color / float). */
  function CDiv(c: Color, k: real): Color
    requires k != 0.0
  {
    Color(c.r / k, c.g / k, c.b / k)
  }

  const Grey8 := Color(0.8, 0.8, 0.8)
  const White := Color(1.0, 1.0, 1.0)

  /** Every material of a table takes its ambient colour from material 0's diffuse
      colour: both scenes assign k_a = material[0].k_d to every material. */
  predicate SharedAmbient(materials: seq<Material>) {
    |materials| > 0 && forall i :: 0 <= i < |materials| ==> materials[i].k_a == materials[0].k_d
  }

  function Materials1(): seq<Material> {
    var k_a := Color(0.8, 0.4, 0.4);
    [ Material(Color(0.8, 0.4, 0.4), k_a, CDiv(Grey8, 1.5), CDiv(Grey8, 3.0), 64.0),            // light red
      Material(Color(0.4, 0.8, 0.4), k_a, CDiv(Grey8, 1.5), CDiv(Grey8, 3.0), 64.0),            // light green
      Material(CScale(Color(0.4, 0.4, 0.8), 0.9), k_a, CDiv(Grey8, 1.5), CDiv(Grey8, 2.5), 64.0), // light blue
      Material(Color(0.6, 0.6, 0.2), k_a, CDiv(Grey8, 1.5), CDiv(Grey8, 3.0), 64.0),            // yellow
      Material(Color(0.6, 0.6, 0.6), k_a, Color(0.6, 0.6, 0.6), CDiv(Grey8, 3.0), 128.0) ]      // grey
  }

  function Surfaces1(): seq<Surface> {
    [ Plane(0.0, 1.0, 0.0, 0.0, 2),                                  // horizontal plane
      Plane(1.0, 0.0, 0.0, 0.0, 4),                                  // left vertical plane
      Plane(0.0, 0.0, 1.0, 0.0, 4),                                  // right vertical plane
      SphereSurface(Sphere(Vec3(40.0, 20.0, 42.0), 22.0, 0)),        // big sphere
      SphereSurface(Sphere(Vec3(75.0, 10.0, 40.0), 12.0, 1)),        // small sphere
      // the cube, two triangles per face: +y, +x, -x, +z, -z
      Triangle(Vec3(50.0, 20.0, 90.0), Vec3(50.0, 20.0, 70.0), Vec3(30.0, 20.0, 70.0), 3),
      Triangle(Vec3(50.0, 20.0, 90.0), Vec3(30.0, 20.0, 70.0), Vec3(30.0, 20.0, 90.0), 3),
      Triangle(Vec3(50.0, 0.0, 70.0), Vec3(50.0, 20.0, 70.0), Vec3(50.0, 20.0, 90.0), 3),
      Triangle(Vec3(50.0, 0.0, 70.0), Vec3(50.0, 20.0, 90.0), Vec3(50.0, 0.0, 90.0), 3),
      Triangle(Vec3(30.0, 0.0, 90.0), Vec3(30.0, 20.0, 90.0), Vec3(30.0, 20.0, 70.0), 3),
      Triangle(Vec3(30.0, 0.0, 90.0), Vec3(30.0, 20.0, 70.0), Vec3(30.0, 0.0, 70.0), 3),
      Triangle(Vec3(50.0, 0.0, 90.0), Vec3(50.0, 20.0, 90.0), Vec3(30.0, 20.0, 90.0), 3),
      Triangle(Vec3(50.0, 0.0, 90.0), Vec3(30.0, 20.0, 90.0), Vec3(30.0, 0.0, 90.0), 3),
      Triangle(Vec3(30.0, 0.0, 70.0), Vec3(30.0, 20.0, 70.0), Vec3(50.0, 20.0, 70.0), 3),
      Triangle(Vec3(30.0, 0.0, 70.0), Vec3(50.0, 20.0, 70.0), Vec3(50.0, 0.0, 70.0), 3) ]
  }

  /** Scene 1: five materials, two point lights and fifteen surfaces whose material
      numbers all lie inside the material table. */
  function DefineScene1(): (scene: Scene)
    ensures |scene.materials| == 5 && |scene.ptLights| == 2
    ensures scene.numSurfaces == |scene.surfaces| == 15
    ensures WellFormed(scene)
    ensures SharedAmbient(scene.materials)
  {
    Scene(Color(0.2, 0.3, 0.5), CScale(White, 0.25), Materials1(),
          [PointLight(CScale(White, 0.6), Vec3(100.0, 120.0, 10.0)),
           PointLight(CScale(White, 0.6), Vec3(5.0, 80.0, 60.0))],
          Surfaces1(), 15)
  }

  function Materials2(): seq<Material> {
    var k_a := Color(0.8, 0.4, 0.4);
    [ Material(Color(0.8, 0.4, 0.4), k_a, CDiv(Grey8, 1.5), CDiv(Grey8, 3.0), 64.0),             // light red
      Material(Color(0.4, 0.8, 0.4), k_a, CDiv(Grey8, 1.5), CDiv(Grey8, 3.0), 64.0),             // light green
      Material(CScale(Color(0.4, 0.4, 0.8), 0.9), k_a, CDiv(Grey8, 1.5), CDiv(Grey8, 2.5), 64.0),  // light blue
      Material(Color(0.6, 0.6, 0.2), k_a, CDiv(Grey8, 1.5), CDiv(Grey8, 3.0), 64.0),             // yellow
      Material(Color(0.3, 0.3, 0.6), k_a, Color(0.3, 0.3, 0.6), CDiv(Color(0.3, 0.3, 0.7), 3.0), 10.0),  // grey
      Material(Color(0.9, 0.9, 0.9), k_a, Color(0.9, 0.9, 0.9), CDiv(Color(0.9, 0.9, 0.9), 3.0), 10.0),  // white-ish
      Material(Color(0.1, 0.1, 0.1), k_a, Color(0.1, 0.1, 0.1), CDiv(Color(0.1, 0.1, 0.1), 3.0), 10.0),  // black-ish
      Material(Color(1.0, 0.4, 0.7), k_a, Color(1.0, 0.4, 0.7), CDiv(Color(1.0, 0.4, 0.7), 3.0), 120.0), // pink
      Material(Color(0.6, 0.6, 0.2), k_a, CDiv(Grey8, 1.5), CDiv(Grey8, 3.0), 128.0) ]           // dull yellow
  }

  /** The nineteen surfaces of scene 2's room, written before the meshes. */
  function Room2(): seq<Surface> {
    [ Plane(0.0, 1.0, 0.0, 0.0, 2),                                  // horizontal plane
      Plane(1.0, 0.0, 0.0, 10.0, 4),                                 // left vertical plane
      Plane(0.0, 0.0, 1.0, 0.0, 4),                                  // right vertical plane
      // the cube
      Triangle(Vec3(50.0, 20.0, 80.0), Vec3(50.0, 20.0, 60.0), Vec3(30.0, 20.0, 60.0), 1),
      Triangle(Vec3(50.0, 20.0, 80.0), Vec3(30.0, 20.0, 60.0), Vec3(30.0, 20.0, 80.0), 1),
      Triangle(Vec3(50.0, 0.0, 60.0), Vec3(50.0, 20.0, 60.0), Vec3(50.0, 20.0, 80.0), 1),
      Triangle(Vec3(50.0, 0.0, 60.0), Vec3(50.0, 20.0, 80.0), Vec3(50.0, 0.0, 80.0), 1),
      Triangle(Vec3(30.0, 0.0, 80.0), Vec3(30.0, 20.0, 80.0), Vec3(30.0, 20.0, 60.0), 1),
      Triangle(Vec3(30.0, 0.0, 80.0), Vec3(30.0, 20.0, 60.0), Vec3(30.0, 0.0, 60.0), 1),
      Triangle(Vec3(50.0, 0.0, 80.0), Vec3(50.0, 20.0, 80.0), Vec3(30.0, 20.0, 80.0), 3),
      Triangle(Vec3(50.0, 0.0, 80.0), Vec3(30.0, 20.0, 80.0), Vec3(30.0, 0.0, 80.0), 1),
      Triangle(Vec3(30.0, 0.0, 60.0), Vec3(30.0, 20.0, 60.0), Vec3(50.0, 20.0, 60.0), 1),
      Triangle(Vec3(30.0, 0.0, 60.0), Vec3(50.0, 20.0, 60.0), Vec3(50.0, 0.0, 60.0), 1),
      // the teddy bear's eyes
      SphereSurface(Sphere(Vec3(27.5, 30.0, 15.0), 1.0, 6)),
      SphereSurface(Sphere(Vec3(32.5, 30.0, 15.0), 1.0, 6)),
      // hovering spheres
      SphereSurface(Sphere(Vec3(20.0, 35.0, 70.0), 3.0, 0)),
      SphereSurface(Sphere(Vec3(60.0, 35.0, 70.0), 3.0, 7)),
      SphereSurface(Sphere(Vec3(40.0, 35.0, 50.0), 3.0, 2)),
      SphereSurface(Sphere(Vec3(40.0, 35.0, 90.0), 3.0, 3)) ]
  }

  const RoomSize: nat := 19
  const TeddyMaterial: nat := 8
  const TeapotMaterial: nat := 5

  /** Where a mesh is put in the scene: each vertex is scaled, then translated. */
  datatype Placement = Placement(scale: real, offset: Vec3)

  /** The teddy bear is translated by (30, 20, 6). */
  const TeddyPlacement := Placement(1.0, Vec3(30.0, 20.0, 6.0))
  /** The teapot is scaled by 4 and translated by (40, 21, 70). */
  const TeapotPlacement := Placement(4.0, Vec3(40.0, 21.0, 70.0))

  function Place(pl: Placement, v: Vertex): Vec3 {
    Vec3(pl.scale * v.x + pl.offset.x, pl.scale * v.y + pl.offset.y, pl.scale * v.z + pl.offset.z)
  }

  /** The triangle of face f: its three 1-based vertex numbers looked up in the
      mesh's vertex list, each vertex placed in the scene. */
  function FaceTriangle(mesh: Parsed, f: Face, pl: Placement, mat: nat): Surface
    requires 1 <= f.v1 <= |mesh.vertexes| && 1 <= f.v2 <= |mesh.vertexes| && 1 <= f.v3 <= |mesh.vertexes|
  {
    Triangle(Place(pl, mesh.vertexes[f.v1 - 1]), Place(pl, mesh.vertexes[f.v2 - 1]),
             Place(pl, mesh.vertexes[f.v3 - 1]), mat)
  }

  /** The layout of scene 2's surface table: the room in slots 0..18, then one
      triangle per teddy-bear face, then one per teapot face, in face order. */
  ghost predicate Scene2Layout(surfaces: seq<Surface>, teddy: Parsed, teapot: Parsed)
    requires FacesInRange(teddy) && FacesInRange(teapot)
  {
    && |surfaces| == RoomSize + |teddy.faces| + |teapot.faces|
    && surfaces[..RoomSize] == Room2()
    && (forall i :: 0 <= i < |teddy.faces| ==>
          surfaces[RoomSize + i] == FaceTriangle(teddy, teddy.faces[i], TeddyPlacement, TeddyMaterial))
    && (forall i :: 0 <= i < |teapot.faces| ==>
          surfaces[RoomSize + |teddy.faces| + i] == FaceTriangle(teapot, teapot.faces[i], TeapotPlacement, TeapotMaterial))
  }

  /** The surface-table fill of scene 2: the table is allocated for the room plus one
      triangle per mesh face, the room is written, then the two offset loops write the
      teddy bear's and the teapot's triangles, each write counted. Every write is in
      bounds, and the count ends equal to the allocated length. */
  method FillSurfaces(teddy: Obj, teaPot: Obj) returns (surfacep: array<Surface>, numSurfaces: int)
    requires FacesInRange(Parsed(teddy.vertexes, teddy.faces)) && FacesInRange(Parsed(teaPot.vertexes, teaPot.faces))
    ensures fresh(surfacep)
    ensures numSurfaces == surfacep.Length
    ensures Scene2Layout(surfacep[..], Parsed(teddy.vertexes, teddy.faces), Parsed(teaPot.vertexes, teaPot.faces))
  {
    ghost var teddyMesh, teapotMesh := Parsed(teddy.vertexes, teddy.faces), Parsed(teaPot.vertexes, teaPot.faces);
    numSurfaces := 19;
    surfacep := new Surface[|teddy.faces| + |teaPot.faces| + numSurfaces];
    var room := Room2();
    forall k | 0 <= k < 19 {
      surfacep[k] := room[k];
    }

    var i := 0;
    while i < |teddy.faces|
      modifies surfacep
      invariant 0 <= i <= |teddy.faces|
      invariant numSurfaces == RoomSize + i
      invariant surfacep[..RoomSize] == room
      invariant forall k :: 0 <= k < i ==>
                  surfacep[RoomSize + k] == FaceTriangle(teddyMesh, teddyMesh.faces[k], TeddyPlacement, TeddyMaterial)
    {
      var v1 := teddy.vertexes[teddy.faces[i].v1 - 1];
      var v2 := teddy.vertexes[teddy.faces[i].v2 - 1];
      var v3 := teddy.vertexes[teddy.faces[i].v3 - 1];
      surfacep[i + 19] := Triangle(Vec3(v1.x + 30.0, v1.y + 20.0, v1.z + 6.0),
                                   Vec3(v2.x + 30.0, v2.y + 20.0, v2.z + 6.0),
                                   Vec3(v3.x + 30.0, v3.y + 20.0, v3.z + 6.0), 8);
      numSurfaces := numSurfaces + 1;
      i := i + 1;
    }

    i := 0;
    while i < |teaPot.faces|
      modifies surfacep
      invariant 0 <= i <= |teaPot.faces|
      invariant numSurfaces == RoomSize + |teddy.faces| + i
      invariant surfacep[..RoomSize] == room
      invariant forall k :: 0 <= k < |teddy.faces| ==>
                  surfacep[RoomSize + k] == FaceTriangle(teddyMesh, teddyMesh.faces[k], TeddyPlacement, TeddyMaterial)
      invariant forall k :: 0 <= k < i ==>
                  surfacep[RoomSize + |teddy.faces| + k] ==
                  FaceTriangle(teapotMesh, teapotMesh.faces[k], TeapotPlacement, TeapotMaterial)
    {
      var v1 := teaPot.vertexes[teaPot.faces[i].v1 - 1];
      var v2 := teaPot.vertexes[teaPot.faces[i].v2 - 1];
      var v3 := teaPot.vertexes[teaPot.faces[i].v3 - 1];
      surfacep[i + 19 + |teddy.faces|] := Triangle(Vec3(4.0 * v1.x + 40.0, 4.0 * v1.y + 21.0, 4.0 * v1.z + 70.0),
                                                   Vec3(4.0 * v2.x + 40.0, 4.0 * v2.y + 21.0, 4.0 * v2.z + 70.0),
                                                   Vec3(4.0 * v3.x + 40.0, 4.0 * v3.y + 21.0, 4.0 * v3.z + 70.0), 5);
      numSurfaces := numSurfaces + 1;
      i := i + 1;
    }
    assert surfacep[..][..RoomSize] == surfacep[..RoomSize];
  }

  /** Every surface of a table with scene 2's layout uses a material of its
      nine-entry table. */
  lemma LayoutMaterialsInTable(surfaces: seq<Surface>, teddy: Parsed, teapot: Parsed)
    requires FacesInRange(teddy) && FacesInRange(teapot)
    requires Scene2Layout(surfaces, teddy, teapot)
    ensures forall k :: 0 <= k < |surfaces| ==> surfaces[k].Material() < |Materials2()|
  {
    var room := Room2();
    assert |Materials2()| == 9;
    assert forall k :: 0 <= k < RoomSize ==> room[k].Material() < 9;
    forall k | 0 <= k < |surfaces|
      ensures surfaces[k].Material() < |Materials2()|
    {
      if k < RoomSize {
        assert surfaces[k] == room[k];
      } else if k < RoomSize + |teddy.faces| {
        var i := k - RoomSize;
        assert surfaces[RoomSize + i] == FaceTriangle(teddy, teddy.faces[i], TeddyPlacement, TeddyMaterial);
      } else {
        var i := k - RoomSize - |teddy.faces|;
        assert surfaces[RoomSize + |teddy.faces| + i] == FaceTriangle(teapot, teapot.faces[i], TeapotPlacement, TeapotMaterial);
      }
    }
  }

  /** Scene 2: both mesh files are read into fresh mesh objects, then the nine
      materials, two lights and the surface table with scene 2's layout. */
  method DefineScene2(teddyFile: Option<seq<Token>>, teapotFile: Option<seq<Token>>) returns (scene: Scene)
    requires FacesInRange(Load(teddyFile)) && FacesInRange(Load(teapotFile))
    ensures Scene2Layout(scene.surfaces, Load(teddyFile), Load(teapotFile))
    ensures scene.numSurfaces == |scene.surfaces|
    ensures |scene.materials| == 9 && |scene.ptLights| == 2
    ensures WellFormed(scene)
    ensures SharedAmbient(scene.materials)
  {
    var teddy := new Obj();
    var teaPot := new Obj();
    teddy.ReadFile(teddyFile);
    teaPot.ReadFile(teapotFile);
    assert Parsed(teddy.vertexes, teddy.faces) == Load(teddyFile);
    assert Parsed(teaPot.vertexes, teaPot.faces) == Load(teapotFile);

    var materials := Materials2();
    var lights := [PointLight(CScale(White, 0.6), Vec3(100.0, 120.0, 30.0)),
                   PointLight(CScale(White, 0.6), Vec3(15.0, 80.0, 60.0))];
    var surfacep, numSurfaces := FillSurfaces(teddy, teaPot);
    scene := Scene(Color(0.5, 0.5, 0.9), CScale(Color(0.5, 0.5, 1.0), 0.25), materials, lights,
                   surfacep[..], numSurfaces);
    LayoutMaterialsInTable(scene.surfaces, Load(teddyFile), Load(teapotFile));
  }
}
