/** The scene manager: owns the scene root, renders the whole tree when a
    camera is set, and lowers a parsed OBJ file into graph nodes. */
module SceneManagement {
  import opened Core
  import opened ObjLoader
  import opened Materials
  import opened SceneGraph
  import opened ObjImport

  /** The root render call `drawAll` issues: which node, seen from which
      camera, under which accumulated transform. */
  datatype RenderCall = RenderCall(node: SceneNode, camera: Camera, current: Mat4)

  /** What the import step needs of a shape: the checked reads of normals
      and texture coordinates stay in range, and the unchecked
      `materials[mid]` read stays in range. */
  predicate Importable(s: Shape, materials: seq<MaterialRecord>)
  {
    WellFormedMesh(s.mesh) && FirstNonNegative(s.mesh.materialIds) < |materials|
  }

  /** `n` is the mesh node imported from shape `s` under `objNode`. */
  ghost predicate ImportedMesh(n: SceneNode, objNode: SceneNode, s: Shape,
                               materials: seq<MaterialRecord>, program: Program,
                               register: string -> Option<Texture>)
    requires Importable(s, materials)
    reads n
  {
    n.parent == objNode &&
    n.name == s.name &&
    n.kind == Mesh(Interleaved(s.mesh), s.mesh.indices) &&
    n.children == [] &&
    n.visible &&
    n.material.Some? &&
    ResolvedMaterial(n.material.value, program, FirstNonNegative(s.mesh.materialIds),
                     materials, register)
  }

  class SceneManager {
    /** `m_rootNode` */
    const root: SceneNode
    /** `m_camera`, possibly null. */
    var camera: Option<Camera>
    /** `m_program`: the default shader program every imported material uses. */
    const program: Program

    /** Starts with an empty group node as root and no camera. */
    constructor (program: Program)
      ensures fresh(root)
      ensures root.kind == Group && root.parent == null && root.children == []
      ensures camera == None && this.program == program
    {
      root := new SceneNode(null, "", Group);
      camera := None;
      this.program := program;
    }

    /** Renders the tree from the root, under the identity transform, only
        when a camera is set; without one it does nothing. */
    method DrawAll() returns (call: Option<RenderCall>)
      ensures call.Some? <==> camera.Some?
      ensures call.Some? ==> call.value.node == root && call.value.camera == camera.value &&
                             call.value.current == Identity4
    {
      if camera.Some? {
        call := Some(RenderCall(root, camera.value, Identity4));
      } else {
        call := None;
      }
    }

    /** Lowers the parsed `shapes` and `materials` of `filename` into the
        graph: one new group node named `filename` appended under `node`,
        holding one mesh node per shape in shape order. */
    method LoadObjScene(node: SceneNode, filename: string, shapes: seq<Shape>,
                        materials: seq<MaterialRecord>,
                        register: string -> Option<Texture>)
      returns (objNode: SceneNode)
      requires forall i :: 0 <= i < |shapes| ==> Importable(shapes[i], materials)
      modifies node`children
      ensures fresh(objNode)
      ensures node.children == old(node.children) + [objNode]
      ensures objNode.parent == node && objNode.name == filename && objNode.kind == Group
      ensures objNode.material == None && objNode.visible
      ensures |objNode.children| == |shapes|
      ensures forall i :: 0 <= i < |shapes| ==>
                fresh(objNode.children[i]) &&
                ImportedMesh(objNode.children[i], objNode, shapes[i], materials, program, register)
      ensures forall i, j :: 0 <= i < j < |shapes| ==> objNode.children[i] != objNode.children[j]
    {
      objNode := new SceneNode(node, "", Group);
      objNode.SetName(filename);
      node.AddChild(objNode);
      var i := 0;
      while i < |shapes|
        invariant 0 <= i <= |shapes|
        invariant fresh(objNode)
        invariant node.children == old(node.children) + [objNode]
        invariant objNode.parent == node && objNode.name == filename && objNode.kind == Group
        invariant objNode.material == None && objNode.visible
        invariant |objNode.children| == i
        invariant forall k :: 0 <= k < i ==>
                    fresh(objNode.children[k]) &&
                    ImportedMesh(objNode.children[k], objNode, shapes[k], materials, program, register)
        invariant forall k, j :: 0 <= k < j < i ==> objNode.children[k] != objNode.children[j]
      {
        var newNode := AttachMeshNode(objNode, shapes[i], materials, register);
        assert newNode == objNode.children[i];
        i := i + 1;
      }
    }

    /** One iteration of the import loop: builds the mesh node and material
        of `shape` and appends the node under `objNode`. */
    method AttachMeshNode(objNode: SceneNode, shape: Shape, materials: seq<MaterialRecord>,
                          register: string -> Option<Texture>)
      returns (newNode: SceneNode)
      requires Importable(shape, materials)
      modifies objNode`children
      ensures fresh(newNode)
      ensures objNode.children == old(objNode.children) + [newNode]
      ensures ImportedMesh(newNode, objNode, shape, materials, program, register)
    {
      var vertices := InterleaveVertices(shape.mesh);
      newNode := new SceneNode(objNode, shape.name, Mesh(vertices, shape.mesh.indices));
      var mid := ResolveMaterialId(shape.mesh.materialIds);
      var mat := MakeMaterial(program, mid, materials, register);
      newNode.SetMaterial(Some(mat));
      objNode.AddChild(newNode);
    }

    /** Appends one new unnamed group node under `node` and returns it. */
    method AddEmptySceneNode(node: SceneNode) returns (n: SceneNode)
      modifies node`children
      ensures fresh(n)
      ensures node.children == old(node.children) + [n]
      ensures n.parent == node && n.kind == Group && n.name == "" && n.children == []
      ensures n.material == None && n.visible
    {
      n := new SceneNode(node, "", Group);
      node.AddChild(n);
    }
  }

  /** A one-triangle file without texture coordinates, whose single material
      is red with no texture: one import root named after the file, one
      mesh node of three vertices with texture coordinate (0, 0) and three
      indices, and a material with the red diffuse colour and the neutral
      texture. */
  method SingleTriangleImport() returns (sm: SceneManager, objNode: SceneNode)
    ensures sm.root.children == [objNode]
    ensures objNode.kind == Group && objNode.name == "triangle.obj" && |objNode.children| == 1
    ensures objNode.children[0].kind.Mesh?
    ensures |objNode.children[0].kind.vertices| == 3 && |objNode.children[0].kind.indices| == 3
    ensures forall v :: 0 <= v < 3 ==> objNode.children[0].kind.vertices[v].texCoord == Vec2(0.0, 0.0)
    ensures objNode.children[0].material.Some?
    ensures objNode.children[0].material.value.diffuseColor == Some(Vec3(1.0, 0.0, 0.0))
    ensures objNode.children[0].material.value.diffuseTexture == Some(Some(Texture(0)))
  {
    sm := new SceneManager(Program(0));
    var mesh := MeshData(
      [0.0, 0.0, 0.0, 1.0, 0.0, 0.0, 0.0, 1.0, 0.0],
      [0.0, 0.0, 1.0, 0.0, 0.0, 1.0, 0.0, 0.0, 1.0],
      [], [], [], [0, 1, 2], [0]);
    var red := MaterialRecord("red", Vec3(0.0, 0.0, 0.0), Vec3(1.0, 0.0, 0.0),
                              Vec3(0.5, 0.5, 0.5), Vec3(0.0, 0.0, 0.0), Vec3(0.0, 0.0, 0.0),
                              1.0, 1.0, 1.0, 2, "", "", "", "", "", map[]);
    var register := (name: string) => if name == WhiteTexture then Some(Texture(0)) else None;
    assert FirstNonNegative([0]) == 0;
    objNode := sm.LoadObjScene(sm.root, "triangle.obj", [Shape("triangle", mesh)], [red], register);
  }
}
