# R3D scene graph: node tree and OBJ import, in Dafny

This project models the scene-graph core of the R3D renderer:

- `SceneNode`: a tree node with a name, a visibility flag, an optional material, an ordered list of owned children and a back-reference to its parent. It is modelled as the class `SceneGraph.SceneNode`. The two node variants of the engine are the `const kind` field. `Group` stands for `EmptySceneNode`, and `Mesh(vertices, indices)` stands for `MeshSceneNode`.
- `SceneManager`: it owns the root node and renders from it when a camera is set. It also lowers a parsed OBJ file into graph nodes. It is modelled as the class `SceneManagement.SceneManager`.
- The per-shape steps of the import are in module `ObjImport`:
  - the interleaved vertex rebuild, with its V flip and its zero texture-coordinate default;
  - the first-non-negative material-id scan;
  - the material fallback order: "white.png", then the registered diffuse texture, then the diffuse and specular colours.
  Each step is a method with its loop as in the source. It is proved against a specification function or predicate, and lemmas prove what those promise.
- The parser's records (`material_t`, `mesh_t`, `shape_t`) are the datatypes of module `ObjLoader`. They are the inputs of the import.

Files: `core.dfy` (vectors, matrix, vertex, handles), `obj_loader.dfy`, `material.dfy`, `scene_node.dfy`, `obj_import.dfy`, `scene_manager.dfy`.

External services are parameters:
- the texture manager's `registerColorTexture2D` is a function `string -> Option<Texture>`;
- the shader program is a handle given to the manager's constructor;
- the render call `drawAll` issues is returned as a value.

What the code does at its edges:
- The code sets the diffuse and specular colours only when a material id was resolved, that is when `mid >= 0` (SceneManager.cpp:140-151).
- The parser's error string is never read (SceneManager.cpp:114). Whatever shapes the parser returns are imported, error or not, and the import root is created and attached either way (SceneManager.cpp:119-121).
- `addChild` checks nothing (SceneNode.hpp:67-71). A node can end up under two parents, twice under one parent, or under itself. The model shows each of these outcomes rather than forbidding them.

## Model

| member | source | states |
|---|---|---|
| SceneGraph.SceneNode.constructor | include/r3d/Scene/SceneNode.hpp:33-34 | a new node stores the given parent, name and kind, and starts with no children, no material and visible |
| SceneGraph.SceneNode.SetName | include/r3d/Scene/SceneNode.hpp:41-48 | after setting a name, GetName returns it; the frame lets no other field change |
| SceneGraph.SceneNode.SetMaterial | include/r3d/Scene/SceneNode.hpp:50-54 | after setting a material, GetMaterial returns it; the frame lets no other field change |
| SceneGraph.SceneNode.SetVisible | include/r3d/Scene/SceneNode.hpp:63-64 | only this node's own flag changes; the children and their flags are untouched |
| SceneGraph.SceneNode.OnAnimate | include/r3d/Scene/SceneNode.hpp:56-61 | the base animation hook leaves the node unchanged |
| SceneGraph.SceneNode.AddChild | include/r3d/Scene/SceneNode.hpp:67-71 | the new child list is the old one followed by the child; the child's parent is this node; if every child pointed back here before, every child still does |
| SceneGraph.AddChildTwiceDuplicates | include/r3d/Scene/SceneNode.hpp:67-71 | with no duplicate check, adding one child twice lists it twice |
| SceneGraph.AddChildReparentBreaksLinks | include/r3d/Scene/SceneNode.hpp:67-71 | with no parent check, a node added under a second parent stays in the first parent's list, and its back-reference names only the second parent |
| SceneGraph.AddChildSelfMakesCycle | include/r3d/Scene/SceneNode.hpp:67-71 | with no cycle check, a node can become its own child and parent |
| SceneGraph.ChildListKeepsInsertionOrder | include/r3d/Scene/SceneNode.hpp:67-78 | GetChildList returns the children in the order they were added, each pointing back to the parent |
| ObjImport.Interleaved | source/Manager/SceneManager.cpp:125 | a shape yields floor of the position count divided by 3 vertices |
| ObjImport.InterleaveVertices | source/Manager/SceneManager.cpp:124-130 | the counting loop produces exactly the interleaved vertex list: vertex v has position and normal v and texture coordinate v, V flipped, or (0, 0) |
| ObjImport.PositionsRecovered | source/Manager/SceneManager.cpp:127 | flattening the vertex positions gives back every whole position triple, in order |
| ObjImport.NormalsRecovered | source/Manager/SceneManager.cpp:129 | flattening the vertex normals gives back the first 3 times vertex-count normal values, in order |
| ObjImport.TexCoordsRecovered | source/Manager/SceneManager.cpp:128 | when texture coordinates exist, undoing the V flip and flattening gives back the first 2 times vertex-count values, in order |
| ObjImport.TexCoordsDefaultToZero | source/Manager/SceneManager.cpp:128 | without texture coordinates every vertex gets (0, 0) |
| ObjImport.FirstNonNegative | source/Manager/SceneManager.cpp:135-137 | the resolved id is -1 exactly when every id is negative; otherwise it is the id at the first non-negative position |
| ObjImport.FirstNonNegativeIgnoresSuffix | source/Manager/SceneManager.cpp:136 | once a non-negative id is found, the ids after it are never consulted |
| ObjImport.TieBreakExample | source/Manager/SceneManager.cpp:135-137 | the ids [-1, -1, 3, 7, -1] resolve to 3, not 7 |
| ObjImport.ResolveMaterialId | source/Manager/SceneManager.cpp:135-137 | the guarded scan loop returns the first non-negative id, or -1 |
| ObjImport.MakeMaterial | source/Manager/SceneManager.cpp:133-151 | the material has the default program; its diffuse texture is the registered texture of material mid only when mid >= 0, the name is non-empty and registration succeeds, and otherwise the result of registering "white.png"; its diffuse and specular colours come from material mid exactly when mid >= 0 |
| ObjImport.ResolvedMaterialUnique | source/Manager/SceneManager.cpp:139-151 | the fallback rules fix every field of the material, so the import's material is determined |
| SceneManagement.SceneManager.constructor | source/Manager/SceneManager.cpp:98-102 | the root starts as a fresh group node with no parent and no children; no camera is set |
| SceneManagement.SceneManager.DrawAll | source/Manager/SceneManager.cpp:104-108 | a render call is issued exactly when a camera is set, and it is for the root, with that camera and the identity transform |
| SceneManagement.SceneManager.LoadObjScene | source/Manager/SceneManager.cpp:110-157 | exactly one fresh group node, named after the file, is appended to the given node's children and returned; it holds one fresh mesh node per shape, in shape order, all distinct; each mesh node carries the shape's name, its interleaved vertices and indices, and the material the fallback rules fix |
| SceneManagement.SceneManager.AttachMeshNode | source/Manager/SceneManager.cpp:124-154 | one iteration of the import loop appends exactly one fresh mesh node under the import root, carrying the shape's name, its interleaved vertices and indices, and the material the fallback rules fix |
| SceneManagement.SceneManager.AddEmptySceneNode | source/Manager/SceneManager.cpp:159-166 | exactly one fresh, unnamed, childless, visible group node without a material is appended to the given node's children and returned |
| SceneManagement.SingleTriangleImport | source/Manager/SceneManager.cpp:110-157 | a one-triangle file without texture coordinates, with one red untextured material, imports as one group root named after the file, one mesh node of 3 vertices at (0, 0) with 3 indices, red diffuse colour and the neutral texture |

## Left out

- The GLSL sources and `MakeShaderProgram` (SceneManager.cpp:12-94) are GPU compile and link calls. The manager's constructor takes the resulting program handle as a parameter.
- The engine, the context window (`getCurrentContext`) and the renderer handle are not modelled. The texture manager is reduced to its registration function. Its cache state is not modelled.
- `render` is pure virtual. Its overrides in `MeshSceneNode` and `EmptySceneNode` are not part of this model. DrawAll returns the one root render call it makes instead of performing the traversal.
- `removeChild` is only declared, and its definition is not part of this model.
- `getTransformation`, `m_relative`, `m_cw` and `m_isFreezed` are not modelled. The `Transformation` type is not part of this model, and no shown code reads the other two.
- The OBJ parser `LoadObj` and its `base` path parameter are not modelled. LoadObjScene takes the parsed shapes and materials directly.
- The GPU buffer upload in the `MeshSceneNode` constructor is not modelled. A mesh node keeps its vertex and index lists as data.
- SceneGraph.SceneNode.constructor: the constructor body (SceneNode.cpp) is not part of this model. The model assumes it stores the parent and the name, starts visible and leaves the material null. `EmptySceneNode` is assumed to pass an empty name.
- SceneGraph.SceneNode.AddChild: a null child is excluded by the non-null parameter type. The source pushes the null pointer and then dereferences it (SceneNode.hpp:69-70), which is undefined behaviour.
- SceneManagement.SceneManager.LoadObjScene and SceneManagement.SceneManager.AddEmptySceneNode: a null `node` is excluded by the non-null parameter type. The source dereferences it (SceneManager.cpp:121, 164), which is undefined behaviour.
- SceneManagement.SceneManager.LoadObjScene: the checked `.at()` reads of normals and texture coordinates are preconditions (`WellFormedMesh`). The exception they throw, which leaves a partly built import under `node`, is not modelled. The unchecked `materials[mid]` read is a precondition as well.
- Materials are values, not shared handles. Each import builds a fresh material and binds it to one node, so no aliasing is observable in this core. `Material.hpp` is not part of this model. The two `setDiffuse` overloads are taken to write the texture and the colour separately. A parameter that is never set stays `None`, which stands for the material's own default.
- Floats are reals, with no IEEE rounding. The V flip `1 - t` undoes exactly over the reals, so TexCoordsRecovered holds exactly. In single precision it holds only approximately.
- The 32-bit widths of the loop counter and of `mid` are not modelled. They could only overflow on inputs of more than 2^31 elements.
