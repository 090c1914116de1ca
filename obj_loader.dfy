/** The records produced by the OBJ/MTL parser (`tinyobj`). The parser itself
    is outside the model; these are the inputs of the import step. */
module ObjLoader {
  import opened Core

  /** `material_t`: one entry of the parsed material table. The fixed
      three-float arrays are triples. */
  datatype MaterialRecord = MaterialRecord(
    name: string,
    ambient: Vec3,
    diffuse: Vec3,
    specular: Vec3,
    transmittance: Vec3,
    emission: Vec3,
    shininess: real,
    ior: real,          // index of refraction
    dissolve: real,     // 1 == opaque; 0 == fully transparent
    illum: int,         // illumination model
    ambientTexname: string,
    diffuseTexname: string,
    specularTexname: string,
    normalTexname: string,
    bumpTexname: string,
    unknownParameter: map<string, string>)

  /** `mesh_t`: flat arrays, three floats per position and normal, two per
      texture coordinate, and the per-face material ids. */
  datatype MeshData = MeshData(
    positions: seq<real>,
    normals: seq<real>,
    texcoords: seq<real>,
    tangents: seq<real>,
    binormals: seq<real>,
    indices: seq<uint32>,
    materialIds: seq<int>)

  /** `shape_t`: a named mesh. */
  datatype Shape = Shape(name: string, mesh: MeshData)
}
