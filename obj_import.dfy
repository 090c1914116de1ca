/** The per-shape steps of importing a parsed OBJ file: rebuilding one
    interleaved vertex list from the flat arrays, picking the shape's
    material id, and building the shape's material with its fallback order. */
module ObjImport {
  import opened Core
  import opened ObjLoader
  import opened Materials

  // ----- Vertex rebuild -----

  /** Number of whole positions in the flat array (trailing floats are dropped). */
  function VertexCount(m: MeshData): nat
  {
    |m.positions| / 3
  }

  /** The bounds that the checked `.at()` reads of normals and texture
      coordinates need; past them the rebuild throws `std::out_of_range`. */
  predicate WellFormedMesh(m: MeshData)
  {
    |m.normals| >= 3 * VertexCount(m) &&
    (|m.texcoords| > 0 ==> |m.texcoords| >= 2 * VertexCount(m))
  }

  /** The V flip from the OBJ texture origin (bottom left) to the device's (top left). */
  function FlipV(t: real): real
  {
    1.0 - t
  }

  function InterleavedVertex(m: MeshData, v: nat): Vertex
    requires WellFormedMesh(m) && v < VertexCount(m)
  {
    Vertex(
      Vec3(m.positions[3 * v], m.positions[3 * v + 1], m.positions[3 * v + 2]),
      if |m.texcoords| > 0 then Vec2(m.texcoords[2 * v], FlipV(m.texcoords[2 * v + 1]))
      else Vec2(0.0, 0.0),
      Vec3(m.normals[3 * v], m.normals[3 * v + 1], m.normals[3 * v + 2]))
  }

  /** The vertex list a mesh node is built from: one vertex per whole position. */
  function Interleaved(m: MeshData): (vs: seq<Vertex>)
    requires WellFormedMesh(m)
    ensures |vs| == |m.positions| / 3
  {
    seq(VertexCount(m), v requires 0 <= v < VertexCount(m) => InterleavedVertex(m, v))
  }

  /** The counting loop that pushes one vertex per position triple. */
  method InterleaveVertices(m: MeshData) returns (vertices: seq<Vertex>)
    requires WellFormedMesh(m)
    ensures vertices == Interleaved(m)
  {
    vertices := [];
    var v := 0;
    while v < |m.positions| / 3
      invariant 0 <= v <= VertexCount(m)
      invariant |vertices| == v
      invariant forall k :: 0 <= k < v ==> vertices[k] == InterleavedVertex(m, k)
    {
      vertices := vertices + [InterleavedVertex(m, v)];
      v := v + 1;
    }
  }

  // ----- The inverse of the rebuild: flattening the vertices again -----

  function Flatten3(ps: seq<Vec3>): (r: seq<real>)
    ensures |r| == 3 * |ps|
  {
    if |ps| == 0 then []
    else
      var p := ps[|ps| - 1];
      Flatten3(ps[..|ps| - 1]) + [p.x, p.y, p.z]
  }

  function Flatten2(ts: seq<Vec2>): (r: seq<real>)
    ensures |r| == 2 * |ts|
  {
    if |ts| == 0 then []
    else
      var t := ts[|ts| - 1];
      Flatten2(ts[..|ts| - 1]) + [t.u, t.v]
  }

  function PositionsOf(vs: seq<Vertex>): (ps: seq<Vec3>)
    ensures |ps| == |vs|
  {
    seq(|vs|, i requires 0 <= i < |vs| => vs[i].position)
  }

  function NormalsOf(vs: seq<Vertex>): (ns: seq<Vec3>)
    ensures |ns| == |vs|
  {
    seq(|vs|, i requires 0 <= i < |vs| => vs[i].normal)
  }

  /** The texture coordinates with the V flip undone. */
  function UnflippedTexCoordsOf(vs: seq<Vertex>): (ts: seq<Vec2>)
    ensures |ts| == |vs|
  {
    seq(|vs|, i requires 0 <= i < |vs| => Vec2(vs[i].texCoord.u, FlipV(vs[i].texCoord.v)))
  }

  /** Triples read off a flat array at stride 3 flatten back to that array's prefix. */
  lemma {:induction false} Flatten3Inverts(ps: seq<Vec3>, f: seq<real>)
    requires 3 * |ps| <= |f|
    requires forall v :: 0 <= v < |ps| ==> ps[v] == Vec3(f[3 * v], f[3 * v + 1], f[3 * v + 2])
    ensures Flatten3(ps) == f[..3 * |ps|]
  {
    if |ps| > 0 {
      var n := |ps|;
      Flatten3Inverts(ps[..n - 1], f);
      assert f[..3 * n] == f[..3 * (n - 1)] + [f[3 * n - 3], f[3 * n - 2], f[3 * n - 1]];
    }
  }

  /** Pairs read off a flat array at stride 2 flatten back to that array's prefix. */
  lemma {:induction false} Flatten2Inverts(ts: seq<Vec2>, f: seq<real>)
    requires 2 * |ts| <= |f|
    requires forall v :: 0 <= v < |ts| ==> ts[v] == Vec2(f[2 * v], f[2 * v + 1])
    ensures Flatten2(ts) == f[..2 * |ts|]
  {
    if |ts| > 0 {
      var n := |ts|;
      Flatten2Inverts(ts[..n - 1], f);
      assert f[..2 * n] == f[..2 * (n - 1)] + [f[2 * n - 2], f[2 * n - 1]];
    }
  }

  /** The rebuild keeps every whole position, in order. */
  lemma PositionsRecovered(m: MeshData)
    requires WellFormedMesh(m)
    ensures Flatten3(PositionsOf(Interleaved(m))) == m.positions[..3 * VertexCount(m)]
  {
    Flatten3Inverts(PositionsOf(Interleaved(m)), m.positions);
  }

  /** The rebuild keeps the normal of every vertex, in order. */
  lemma NormalsRecovered(m: MeshData)
    requires WellFormedMesh(m)
    ensures Flatten3(NormalsOf(Interleaved(m))) == m.normals[..3 * VertexCount(m)]
  {
    Flatten3Inverts(NormalsOf(Interleaved(m)), m.normals);
  }

  /** When the shape has texture coordinates, undoing the V flip gives them
      back, in order. */
  lemma TexCoordsRecovered(m: MeshData)
    requires WellFormedMesh(m) && |m.texcoords| > 0
    ensures Flatten2(UnflippedTexCoordsOf(Interleaved(m))) == m.texcoords[..2 * VertexCount(m)]
  {
    Flatten2Inverts(UnflippedTexCoordsOf(Interleaved(m)), m.texcoords);
  }

  /** When the shape has no texture coordinates, every vertex gets (0, 0). */
  lemma TexCoordsDefaultToZero(m: MeshData)
    requires WellFormedMesh(m) && |m.texcoords| == 0
    ensures forall v :: 0 <= v < |Interleaved(m)| ==> Interleaved(m)[v].texCoord == Vec2(0.0, 0.0)
  {
  }

  // ----- Material id scan -----

  /** The first non-negative material id of a shape, or -1 if it has none. */
  function FirstNonNegative(ids: seq<int>): (r: int)
    ensures r == -1 <==> forall i :: 0 <= i < |ids| ==> ids[i] < 0
    ensures r != -1 ==> exists k :: 0 <= k < |ids| && ids[k] == r >= 0 &&
                                    forall j :: 0 <= j < k ==> ids[j] < 0
  {
    if |ids| == 0 then -1
    else if ids[0] >= 0 then ids[0]
    else
      var r := FirstNonNegative(ids[1..]);
      assert forall i :: 1 <= i < |ids| ==> ids[i] == ids[1..][i - 1];
      assert r != -1 ==> exists k :: 0 <= k < |ids| - 1 && ids[1..][k] == r >= 0 &&
                                     forall j :: 0 <= j < k ==> ids[1..][j] < 0;
      assert r != -1 ==> exists k :: 1 <= k < |ids| && ids[k] == r >= 0 &&
                                     forall j :: 0 <= j < k ==> ids[j] < 0;
      r
  }

  /** Once a non-negative id is found, what follows it is never consulted. */
  lemma {:induction false} FirstNonNegativeIgnoresSuffix(a: seq<int>, b: seq<int>)
    requires FirstNonNegative(a) != -1
    ensures FirstNonNegative(a + b) == FirstNonNegative(a)
  {
    if a[0] < 0 {
      assert (a + b)[1..] == a[1..] + b;
      FirstNonNegativeIgnoresSuffix(a[1..], b);
    }
  }

  /** The tie-break of mixed material ids: the first non-negative one wins. */
  lemma TieBreakExample()
    ensures FirstNonNegative([-1, -1, 3, 7, -1]) == 3
  {
  }

  /** The guarded scan `for (i = 0; mid == -1 && i < size; i++)`. */
  method ResolveMaterialId(ids: seq<int>) returns (mid: int)
    ensures mid == FirstNonNegative(ids)
  {
    mid := -1;
    var i := 0;
    while mid == -1 && i < |ids|
      invariant 0 <= i <= |ids|
      invariant mid == -1 ==> FirstNonNegative(ids[i..]) == FirstNonNegative(ids)
      invariant mid != -1 ==> mid == FirstNonNegative(ids)
    {
      assert ids[i..][1..] == ids[i + 1..];
      mid := if ids[i] >= 0 then ids[i] else mid;
      i := i + 1;
    }
  }

  // ----- Material with fallback order -----

  /** The neutral diffuse texture every imported material starts with. */
  const WhiteTexture: string := "white.png"

  /** The material a shape resolved to `mid` must get: the program it was
      created with; the registered diffuse texture of material `mid` if
      there is one, the name is non-empty and registration succeeds, and
      otherwise whatever registering "white.png" returned; the diffuse and
      specular colours of material `mid` exactly when `mid` is non-negative. */
  ghost predicate ResolvedMaterial(mat: Material, program: Program, mid: int,
                                   materials: seq<MaterialRecord>,
                                   register: string -> Option<Texture>)
    requires mid < |materials|
  {
    mat.program == program &&
    (if mid >= 0 && materials[mid].diffuseTexname != "" && register(materials[mid].diffuseTexname).Some?
     then mat.diffuseTexture == Some(register(materials[mid].diffuseTexname))
     else mat.diffuseTexture == Some(register(WhiteTexture))) &&
    (mid >= 0 ==> mat.diffuseColor == Some(materials[mid].diffuse) &&
                  mat.specularColor == Some(materials[mid].specular)) &&
    (mid < 0 ==> mat.diffuseColor.None? && mat.specularColor.None?)
  }

  /** Builds a shape's material through the setter sequence of the import. */
  method MakeMaterial(program: Program, mid: int, materials: seq<MaterialRecord>,
                      register: string -> Option<Texture>) returns (mat: Material)
    requires mid < |materials|
    ensures ResolvedMaterial(mat, program, mid, materials, register)
  {
    mat := NewMaterial(program);
    mat := mat.(diffuseTexture := Some(register(WhiteTexture)));
    if mid >= 0 {
      var material := materials[mid];
      if material.diffuseTexname != "" {
        var tex := register(material.diffuseTexname);
        if tex.Some? {
          mat := mat.(diffuseTexture := Some(tex));
        }
      }
      mat := mat.(diffuseColor := Some(material.diffuse));
      mat := mat.(specularColor := Some(material.specular));
    }
  }

  /** ResolvedMaterial leaves no freedom: it fixes every field. */
  lemma ResolvedMaterialUnique(m1: Material, m2: Material, program: Program, mid: int,
                               materials: seq<MaterialRecord>,
                               register: string -> Option<Texture>)
    requires mid < |materials|
    requires ResolvedMaterial(m1, program, mid, materials, register)
    requires ResolvedMaterial(m2, program, mid, materials, register)
    ensures m1 == m2
  {
  }
}
