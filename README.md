# A verified model of a Whitted-style ray tracer's core

This project models the core of a small C++ ray tracer. The Dafny files verify together and cover four parts:

- **Sphere intersection** (`Spheres.dfy`).
  - The quadratic for the ray's parameter and its discriminant.
  - The tie-break that picks one root.
  - A range check on the chosen root only.
  - `hit` filling the caller's hit record in place.
  - `shadowHit`, the same decision without a record.
- **The trace engine** (`Shading.dfy` for the reflection and Phong terms, `Raytrace.dfy` for the tracing).
  - A nearest-hit scan over the surfaces, where the earliest surface wins ties.
  - The background colour returned when nothing is hit.
  - A per-light shadow scan that stops at the first occluder.
  - The ambient term.
  - Reflection, with recursion bounded by the reflection level.
- **Mesh reading** (`Mesh.dfy`): `Obj::readfile`, modelled over an already tokenised file.
- **Scene assembly** (`SceneDefs.dfy`) for scene 1 and scene 2. Scene 2's surface table holds the room, then one triangle per teddy-bear face, then one per teapot face, with a separate counter of surfaces written.

Numbers are Dafny `real`s. Three numeric primitives are left uninterpreted, as fields of `Geometry.Numerics`:

- the square root;
- vector normalisation (`makeUnitVector`);
- `powf`.

Each proof assumes only the laws it needs. These are `SqrtLaw` (a non-negative square root), `UnitLaws` (normalising is idempotent and commutes with negation) and `PowLaw` (a non-negative base gives a non-negative power).

Planes and triangles have no bodies in this model. In the trace engine every surface is reached through two oracles held in `Raytrace.Env`. One is `hit`, which gives an optional hit record, and the other is `shadowHit`. They are required only to keep the surface's material (`KeepsMaterial`).

Each imperative routine of the C++ is an imperative Dafny method, proved equal to a specification function, and most properties are proved about that function:

| method | specification function |
|---|---|
| `TraceRay` | `Trace` |
| `ReadFile` | `Parse` |
| `Hit` | `HitT` |

Two routines have no separate specification function. `FillSurfaces` is specified directly by the layout predicate `Scene2Layout`. `DefineScene1` is a function with its own contract.

## Model

| member | source | states |
|---|---|---|
| Spheres.ShadowHit | Sphere.cpp:59-95 | Written with shadowHit's own branches, it returns true exactly when hit's decision (`HitT`, Sphere.cpp:9-55) reports a hit for the same ray and interval. |
| Spheres.Hit | Sphere.cpp:9-55 | Returns true exactly when `HitT` finds a parameter. On a hit the record holds that t, the point origin + t·direction, the normalised vector from the centre to that point, and the sphere's material. On a miss the record is untouched. |
| Spheres.RootFacts | Sphere.cpp:22-37 | With a > 0 and d >= 0, both computed roots solve a·t² + b·t + c = 0. t2 <= t1, strictly when d > 0. Both equal −b/(2a) when d = 0. No other t is a root. |
| Spheres.OnSphere | Sphere.cpp:17-24 | The quadratic at t equals the squared distance from the centre to the point at t, minus the squared radius. |
| Spheres.MissesWhenDiscriminantNegative | Sphere.cpp:51-53 | A negative discriminant gives no hit. |
| Spheres.TangentHit | Sphere.cpp:28-34 | For d = 0 the candidate is −b/(2a). It is a hit exactly when tmin <= t <= tmax. |
| Spheres.OrderedRootChoice | Sphere.cpp:38-45 | When t2 < t1, the chosen root is t2 if t2 > 0, else t1 if t1 > 0 and t2 < 0, else there is none (the case t2 = 0 included). A hit happens exactly when the chosen root lies in [tmin, tmax]. |
| Spheres.RootChoice | Sphere.cpp:35-50 | The same root choice for every ray with d > 0, given a non-negative square root. |
| Spheres.HitIsNearestPositiveRoot | Sphere.cpp:28-50 | A reported t lies in [tmin, tmax], solves the quadratic and lies on the sphere. When d > 0 it is positive and no positive root is smaller. |
| Spheres.NoFallbackToOtherRoot | Sphere.cpp:38-45 | Unit sphere, ray from (−2,0,0) along +x, interval [2,4]. The chosen root 1 is out of range and the other root 3 is in range, yet there is no hit. |
| Spheres.ZeroRootRejected | Sphere.cpp:38-44 | Unit sphere, ray from (−1,0,0) along +x, interval [0,10]. The roots are 0 and 2, and there is no hit: neither branch accepts t2 = 0. |
| Shading.ReflectProperties | Raytrace.cpp:27-38 | For a unit N the reflection has L's length and L's dot product with N, and reflecting it again gives L. |
| Shading.ClampNonNegative | Raytrace.cpp:53-57 | The clamped factor is non-negative, at least the input, and equal either to the input or to 0. |
| Shading.PhongNonNegative | Raytrace.cpp:48-61 | With non-negative light, diffuse and specular colours, and a power that keeps non-negative bases non-negative, the Phong term is non-negative in every channel. |
| Raytrace.NearestIsFirstMinimum | Raytrace.cpp:81-96 | The scan reports a hit iff some surface reports a hit with t < DBL_MAX. With no hit, nearest_t stays DBL_MAX. With a hit, the kept record is the first surface whose t is minimal over all hitting surfaces: every earlier hitting surface has a strictly larger t. |
| Raytrace.TraceRay | Raytrace.cpp:71-165 | The imperative method returns exactly `Trace`, the specification. This covers the scan loop, the shadow loop whose occluder scan breaks at the first shadowHit, the unshadowed loop, the ambient term and the recursion. The recursion depth is at most reflectLevels. |
| Raytrace.HitMaterialInTable | Raytrace.cpp:131-159 | In a well-formed scene the kept record's material index lies in the material table. |
| Raytrace.NoHitGivesBackground | Raytrace.cpp:98 | When no surface reports a usable hit, the traced colour is exactly the background colour. |
| Raytrace.NonReflectiveIgnoresLevels | Raytrace.cpp:157-160 | When the hit material's k_rg is zero, any number of reflection levels gives the colour of zero levels. |
| Raytrace.LevelZeroIgnoresReflectivity | Raytrace.cpp:157-160 | With reflectLevels = 0, two scenes that differ only in their materials' k_rg trace to the same colour. |
| Raytrace.ShadowedIgnoresReflection | Raytrace.cpp:118-134 | The shadowed lighting sum does not depend on the material's k_rg. |
| Raytrace.PlainIgnoresReflection | Raytrace.cpp:135-141 | The unshadowed lighting sum does not depend on the material's k_rg. |
| Raytrace.UnoccludedShadowedIsPlain | Raytrace.cpp:118-141 | When no light is occluded and V is a unit vector, the shadowed loop adds every light's Phong term, like the unshadowed loop, and leaves V as it was. |
| Raytrace.ShadowsInvisibleWithoutOccluders | Raytrace.cpp:118-160 | Given idempotent normalisation that commutes with negation, when no surface ever reports a shadow hit, tracing with shadows gives the same colour as tracing without, at every reflection depth. |
| Raytrace.OccludedLightsAddNothing | Raytrace.cpp:124-132 | When every light is occluded, the shadowed loop adds nothing. |
| Raytrace.AllBlockedGivesAmbientOnly | Raytrace.cpp:118-160 | With shadows on, when every light's shadow ray from the kept hit point is blocked by some surface, at any reflection level the hit gets the ambient term k_a·I_a of its material and nothing from any light. When levels remain it also gets the k_rg-weighted colour traced along the mirror of the unchanged view vector. |
| Raytrace.Unoccluded | Raytrace.cpp:118-134 | The filtered list holds a light exactly when the light is in the input list and its shadow ray from p is not blocked. |
| Raytrace.ShadowedIsPlainOverUnoccluded | Raytrace.cpp:118-141 | For a unit V, the shadowed loop gives the unshadowed sum over exactly the unblocked lights, in their order. Every blocked light is skipped, and V is left as it was. |
| Raytrace.SphereOracleConsistent | Sphere.cpp:9-95 | When the engine's oracles answer for spheres with the sphere model, a sphere's hit record keeps the sphere's material, its t lies in the interval, and shadowHit reports true exactly when hit does. |
| Raytrace.PlainLightingSplits | Raytrace.cpp:135-141 | The unshadowed sum over two groups of lights is the sum of the groups' sums, so each light is counted exactly once. |
| Mesh.LeadingReads | Main.cpp:78 | Counts successful field reads, each decided by the helper `Mesh.Reads` (the extraction-success rule of Main.cpp:78 and 85): all the counted tokens read, and the next token, if any remains within the three, does not. |
| Mesh.ReadVertex | Main.cpp:77-78 | Reads three doubles. The record holds the fields read and 0 from the first failure on. Success means all three reads succeeded. |
| Mesh.ReadFace | Main.cpp:84-85 | The same for three unsigned indices. |
| Mesh.Obj.ReadFile | Main.cpp:65-92 | A file that cannot be opened changes nothing. Otherwise the vertex and face lists gain exactly the file's parsed contents, appended after their previous contents. |
| Mesh.LeadingReadsStable | Main.cpp:78 | Reading stops at the first token that does not read. Nothing after it affects the result. |
| Mesh.FailedReadEndsParse | Main.cpp:71-89 | A record whose read fails on a token of the input ends the parse. Any further input is ignored. |
| Mesh.ParseEncode | Main.cpp:71-91 | Reading written lines in front of any input yields each vertex and face of the lines once, in order. Other tokens are skipped. Then comes what that input yields. |
| Mesh.RoundTrip | Main.cpp:71-91 | Reading written lines gives back exactly their vertices and faces. |
| SceneDefs.DefineScene1 | Main.cpp:189-299 | Scene 1 has five materials, two lights and fifteen surfaces, and the counter equals the table size. Every material index is below 5. Every material's ambient colour is material 0's diffuse colour. |
| SceneDefs.FillSurfaces | Main.cpp:409-474 | Every write is inside the table of size faces(teddy) + faces(teapot) + 19. The counter ends equal to that size. The table holds the room in slots 0..18, then teddy face i at 19 + i, then teapot face i at 19 + faces(teddy) + i. Each face's 1-based vertex numbers are looked up as vertexes[v − 1]. Teddy vertices are translated by (30,20,6); teapot vertices are scaled by 4 and translated by (40,21,70). The helpers `SceneDefs.FaceTriangle` and `SceneDefs.Place` build each triangle (Main.cpp:454-458 and 467-471). |
| SceneDefs.LayoutMaterialsInTable | Main.cpp:327-471 | Every surface in scene 2's layout uses a material index below 9. |
| SceneDefs.DefineScene2 | Main.cpp:305-484 | Scene 2 reads both mesh files, then has nine materials, two lights, and a surface table with the layout above. It is well formed: the counter equals the table size and every material index is in range. |
| Spheres.HitT | Sphere.cpp:9-55 | Transcribes hit's branches: the tangent case, the two-root tie-break and the range check on the chosen root. It has no contract of its own; Spheres.Hit, Spheres.ShadowHit and the root lemmas above state its properties. |
| Shading.MirrorReflect | Raytrace.cpp:35-38 | Transcribes mirrorReflect as 2(N·L)N − L. It has no contract of its own; Shading.ReflectProperties states its properties. |
| Shading.Phong | Raytrace.cpp:48-61 | Transcribes one light's diffuse and specular term. It has no contract of its own; Shading.PhongNonNegative states its sign. |
| Raytrace.ScanNearest | Raytrace.cpp:81-96 | Transcribes the nearest-hit scan with its strict comparison. It has no contract of its own; Raytrace.NearestIsFirstMinimum states its meaning. |
| Raytrace.ShadowedLighting | Raytrace.cpp:118-134 | Transcribes the shadowed light loop, including the view-vector normalisation. The helper `Raytrace.ShadowLightDir` is the double normalisation of the light direction at Raytrace.cpp:121-123. It has no contract of its own; Raytrace.ShadowedIsPlainOverUnoccluded and the lemmas above state its properties. |
| Raytrace.PlainLighting | Raytrace.cpp:135-141 | Transcribes the unshadowed light loop. It has no contract of its own; Raytrace.PlainLightingSplits states its properties. |
| Raytrace.Trace | Raytrace.cpp:71-165 | The specification of TraceRay as a recursive function. It has no contract of its own; Raytrace.TraceRay and the Raytrace lemmas above state its properties. |
| Mesh.Parse | Main.cpp:71-91 | The specification of readfile's loop over a token sequence. The helper `Mesh.Keyword` is the first-character switch of Main.cpp:73. It has no contract of its own; Mesh.Obj.ReadFile, Mesh.ParseEncode and Mesh.RoundTrip state its properties. |
| SceneDefs.Materials1 | Main.cpp:197-233 | Transcribes scene 1's five materials. It has no contract of its own; SceneDefs.DefineScene1 states its properties. |
| SceneDefs.Surfaces1 | Main.cpp:250-287 | Transcribes scene 1's fifteen surfaces. It has no contract of its own; SceneDefs.DefineScene1 states its properties. |
| SceneDefs.Materials2 | Main.cpp:327-392 | Transcribes scene 2's nine materials. It has no contract of its own; SceneDefs.LayoutMaterialsInTable and SceneDefs.DefineScene2 state its properties. |
| SceneDefs.Room2 | Main.cpp:414-448 | Transcribes scene 2's nineteen room surfaces. It has no contract of its own; SceneDefs.FillSurfaces and SceneDefs.LayoutMaterialsInTable state its properties. |

## Left out

- The IEEE float and double semantics are not modelled. Scalars are exact reals. The `(float)` casts and `powf` in the Phong term are an uninterpreted `pow`. The float colour literals of both scenes are the exact decimals they are written as.
- DBL_MAX is kept as its exact value. No rounding, overflow or NaN behaviour is modelled.
- Spheres.HitT, Spheres.ShadowHit and Spheres.Hit require a nonzero ray direction. For a zero direction the C++ divides 0 by 0. The resulting NaN fails both comparisons of the range check, so hit reports a hit at a NaN parameter. This model does not represent NaN.
- The contract a caller would expect is "the smallest positive root in the interval", but the code checks the interval only on the root it chose and never falls back to the other root. The model follows the code. Spheres.NoFallbackToOtherRoot and Spheres.ZeroRootRejected exhibit the difference.
- The normalisation of the view vector inside the shadowed loop (`V.makeUnitVector()`, which also changes V) is modelled by threading V through the lighting sum. The exact shadow-ray bound `Tmax` is left as an uninterpreted function of the vector to the light, because the operands of the division in Raytrace.cpp:122 are indeterminately sequenced. Only the divisor, `L.makeUnitVector().length()`, normalises L in place. The dividend `L.length()` only reads L, and C++ does not fix whether that read happens before or after the divisor changes L.
- Planes and triangles are only oracles in the trace engine. Their intersection code is not part of this model.
- The ifstream mechanics of readfile are not modelled. The file is a sequence of tokens, each either a word or a number. A token starting with 'v' or 'f' that is followed by a token which only starts like a number (such as `1.5abc`) is not represented.
- Mesh.ReadFace accepts only integral numbers in [0, 2^32) as indices. The C++ unsigned extraction also accepts a negative number and wraps it, and it reads the integral prefix of a decimal such as `1.5`. Neither is modelled. A Number token has no spelling, so an index written `3.0` or `1e2` is read whole here. In the C++ such an index keeps only its integral prefix. In first or second position the next field read then fails on the rest ('.0', 'e2'), which ends the parse. In third position the rest is read as the next token, matches no keyword and is skipped, and reading carries on. The model refuses a fractional index such as `1.5` in any position, so it ends the parse there and loses the rest of the file, where the C++ keeps the prefix of a third index and reads on.
- Mesh.ReadVertex and Mesh.ReadFace store 0 in every field from the first failed read on. The C++ behaves differently in several cases. It sets a field to 0 when its token is not a number. It leaves the field untouched, and so indeterminate in the uninitialised `vertex v;` / `face f;` (Main.cpp:77, 84), when the input has ended. It stores UINT_MAX for an index above the unsigned range. It leaves the later fields untouched. The model stores 0 in all of these.
- SceneDefs.FillSurfaces and SceneDefs.DefineScene2 require every face to name vertices 1..|vertexes| in its mesh. The C++ does not check this, and an out-of-range face reads outside the vertex vector (undefined behaviour).
- `RenderImage`, `main`, the camera, the image buffer and the output file are not part of this model. They are I/O and orchestration.
- The mesh files' names are not modelled. The two files' contents are parameters of DefineScene2, with None for a file that cannot be opened.
- The image size that DefineScene1 and DefineScene2 pass to the camera is not modelled.
- Obj::draw is only declared (Main.cpp:61). It has no body in the files modelled here, so it is not modelled.
- Raytrace.TraceRay: requires reflectLevels >= 0. The C++ recurses while `reflectLevels != 0` (Raytrace.cpp:157), so a negative level would recurse without bound; that non-terminating case is not modelled.
