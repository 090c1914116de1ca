/** The scene-graph element. A node has a name, a visibility flag, an
    optional material, an ordered list of owned children and a non-owning
    back-reference to its parent. Group nodes carry no geometry; mesh nodes
    carry the vertex and index lists handed to the GPU at construction. */
module SceneGraph {
  import opened Core
  import opened Materials

  /** The two node variants of the engine: `EmptySceneNode` and `MeshSceneNode`. */
  datatype NodeKind = Group | Mesh(vertices: seq<Vertex>, indices: seq<uint32>)

  class SceneNode {
    /** `m_parent`: non-owning back-reference, written by the parent's AddChild. */
    var parent: SceneNode?
    /** `m_children`: owned children in insertion (paint) order. */
    var children: seq<SceneNode>
    /** `m_name` */
    var name: string
    /** `m_material`: a shared material handle, possibly null. */
    var material: Option<Material>
    /** `m_isVisible`: hides this node's own drawing, not its children's. */
    var visible: bool
    /** Which variant this node is, with the geometry of a mesh node. */
    const kind: NodeKind

    constructor (parent: SceneNode?, name: string, kind: NodeKind)
      ensures this.parent == parent && this.name == name && this.kind == kind
      ensures children == [] && material == None && visible
    {
      this.parent := parent;
      this.name := name;
      this.kind := kind;
      children := [];
      material := None;
      visible := true;
    }

    function GetName(): string
      reads this
    {
      name
    }

    /** Renames the node; every other field keeps its value. */
    method SetName(newName: string)
      modifies this`name
      ensures GetName() == newName
    {
      name := newName;
    }

    function GetMaterial(): Option<Material>
      reads this
    {
      material
    }

    /** Binds a material handle; every other field keeps its value. */
    method SetMaterial(m: Option<Material>)
      modifies this`material
      ensures GetMaterial() == m
    {
      material := m;
    }

    /** Shows or hides this node alone: the children and their flags are
        not touched. */
    method SetVisible(value: bool)
      modifies this`visible
      ensures visible == value
      ensures forall c :: c in children ==> c == this || c.visible == old(c.visible)
    {
      visible := value;
    }

    /** The per-frame animation hook; the base node does nothing. */
    method OnAnimate(timeMs: uint32)
      ensures unchanged(this)
    {
    }

    /** A copy of the children, in insertion order. */
    function GetChildList(): seq<SceneNode>
      reads this
    {
      children
    }

    /** Every child points back to this node. */
    ghost predicate ChildrenLinked()
      reads this, children
    {
      forall c :: c in children ==> c.parent == this
    }

    /** Appends `newChild` to the children and points its back-reference here.
        Nothing is checked: the child may already be a child of this or of
        another node, or be this node itself. */
    method AddChild(newChild: SceneNode)
      modifies this`children, newChild`parent
      ensures children == old(children) + [newChild]
      ensures newChild.parent == this
      ensures old(ChildrenLinked()) ==> ChildrenLinked()
    {
      children := children + [newChild];
      newChild.parent := this;
    }
  }

  /** Attaching one node twice to the same parent lists it twice. */
  method AddChildTwiceDuplicates() returns (p: SceneNode, c: SceneNode)
    ensures p.children == [c, c] && c.parent == p
  {
    p := new SceneNode(null, "p", Group);
    c := new SceneNode(null, "c", Group);
    p.AddChild(c);
    p.AddChild(c);
  }

  /** Attaching a node under a second parent leaves it in the first parent's
      children while its back-reference names only the second: the first
      parent's links are broken and the graph is no longer a tree. */
  method AddChildReparentBreaksLinks() returns (p1: SceneNode, p2: SceneNode, c: SceneNode)
    ensures p1 != p2
    ensures c in p1.children && c in p2.children && c.parent == p2
    ensures !p1.ChildrenLinked() && p2.ChildrenLinked()
  {
    p1 := new SceneNode(null, "p1", Group);
    p2 := new SceneNode(null, "p2", Group);
    c := new SceneNode(null, "c", Group);
    p1.AddChild(c);
    p2.AddChild(c);
  }

  /** A node may be attached under itself, which makes a cycle. */
  method AddChildSelfMakesCycle() returns (n: SceneNode)
    ensures n in n.children && n.parent == n
  {
    n := new SceneNode(null, "n", Group);
    n.AddChild(n);
  }

  /** Children come back from GetChildList in the order they were added. */
  method ChildListKeepsInsertionOrder() returns (p: SceneNode, a: SceneNode, b: SceneNode)
    ensures p.GetChildList() == [a, b] && a != b
    ensures a.parent == p && b.parent == p && p.ChildrenLinked()
  {
    p := new SceneNode(null, "p", Group);
    a := new SceneNode(null, "a", Group);
    b := new SceneNode(null, "b", Group);
    p.AddChild(a);
    p.AddChild(b);
  }
}
