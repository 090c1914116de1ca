/** Value types shared by the scene graph: the glm vectors and matrix the
    engine passes around, the interleaved vertex record, and opaque handles
    for objects owned by the graphics context (textures, shader programs,
    cameras). Floating-point values are modelled as reals. */
module Core {

  datatype Option<T> = None | Some(value: T)

  /** Unsigned 32-bit integer, as `uint32_t`. */
  newtype uint32 = x: int | 0 <= x < 0x1_0000_0000

  /** `glm::vec2`, used for texture coordinates (u, v). */
  datatype Vec2 = Vec2(u: real, v: real)

  /** `glm::vec3`, used for positions, normals and RGB colours. */
  datatype Vec3 = Vec3(x: real, y: real, z: real)

  /** `glm::mat4`, row by row. */
  type Mat4 = m: seq<seq<real>> | |m| == 4 && forall i :: 0 <= i < |m| ==> |m[i]| == 4
    witness [[0.0, 0.0, 0.0, 0.0], [0.0, 0.0, 0.0, 0.0], [0.0, 0.0, 0.0, 0.0], [0.0, 0.0, 0.0, 0.0]]

  /** `glm::mat4(1.0f)`: the identity, the default accumulated transform of a render call. */
  const Identity4: Mat4 :=
    [[1.0, 0.0, 0.0, 0.0], [0.0, 1.0, 0.0, 0.0], [0.0, 0.0, 1.0, 0.0], [0.0, 0.0, 0.0, 1.0]]

  /** One vertex of a mesh as uploaded to the GPU: position, texture coordinate, normal. */
  datatype Vertex = Vertex(position: Vec3, texCoord: Vec2, normal: Vec3)

  /** A texture resident in the active context's texture manager. */
  datatype Texture = Texture(id: nat)

  /** A linked shader program owned by the graphics context. */
  datatype Program = Program(id: nat)

  /** A camera; only its identity matters to the graph. */
  datatype Camera = Camera(id: nat)
}
