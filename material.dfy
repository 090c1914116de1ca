/** The material bound to a drawable node: a shader program plus the
    parameters the import step sets on it. */
module Materials {
  import opened Core

  /** A parameter left at `None` keeps whatever default the material starts
      with; the import step only ever overwrites parameters. */
  datatype Material = Material(
    program: Program,
    diffuseTexture: Option<Option<Texture>>,
    diffuseColor: Option<Vec3>,
    specularColor: Option<Vec3>)

  /** A fresh material bound to `program`, no parameter set yet. */
  function NewMaterial(program: Program): Material
  {
    Material(program, None, None, None)
  }
}
