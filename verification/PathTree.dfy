/** src/path_tree.c: the AVL tree over record indices, updated in place. Each method is proved
    to act on the shape of the tree as the function of the same name in `Avl`. */
module PathTree {
  import opened Common
  import opened Avl

  class PathTreeNode {
    var recordIndex: nat
    var height: nat
    var left: PathTreeNode?
    var right: PathTreeNode?

    constructor (recordIndex: nat)
      ensures this.recordIndex == recordIndex && height == 1
      ensures left == null && right == null
    {
      this.recordIndex := recordIndex;
      height := 1;
      left, right := null, null;
    }
  }

  /** Which node sits where. Separation of the nodes is a property of this value alone, so that
      only `LaidOut` and `Shape` read the heap. */
  datatype Layout = Empty | At(node: PathTreeNode, left: Layout, right: Layout)

  ghost function Nodes(g: Layout): set<PathTreeNode> {
    match g
    case Empty => {}
    case At(n, l, r) => {n} + Nodes(l) + Nodes(r)
  }

  ghost predicate Separate(g: Layout) {
    g.At? ==>
      && g.node !in Nodes(g.left) && g.node !in Nodes(g.right)
      && Nodes(g.left) !! Nodes(g.right)
      && Separate(g.left) && Separate(g.right)
  }

  /** The pointers from `n` follow the layout. */
  ghost predicate LaidOut(n: PathTreeNode?, g: Layout)
    reads Nodes(g)
  {
    match g
    case Empty => n == null
    case At(m, l, r) => n == m && LaidOut(m.left, l) && LaidOut(m.right, r)
  }

  ghost function Shape(g: Layout): Tree
    reads Nodes(g)
  {
    match g
    case Empty => Leaf
    case At(m, l, r) => Branch(Shape(l), m.recordIndex, m.height, Shape(r))
  }

  function HeightField(n: PathTreeNode?): nat
    reads n
  {
    if n == null then 0 else n.height
  }

  /** What the first node of a layout says about the pointer to it. */
  lemma Root(n: PathTreeNode?, g: Layout)
    requires LaidOut(n, g)
    ensures n == null <==> g.Empty?
    ensures n != null ==> n == g.node && n in Nodes(g)
    ensures HeightField(n) == NodeHeight(Shape(g))
  {
  }

  /** Five parts that share no node can be put together in either way. */
  ghost predicate Apart(x: PathTreeNode, y: PathTreeNode, a: Layout, b: Layout, c: Layout) {
    && x != y
    && x !in Nodes(a) && x !in Nodes(b) && x !in Nodes(c)
    && y !in Nodes(a) && y !in Nodes(b) && y !in Nodes(c)
    && Nodes(a) !! Nodes(b) && Nodes(a) !! Nodes(c) && Nodes(b) !! Nodes(c)
    && Separate(a) && Separate(b) && Separate(c)
  }

  lemma LeftLeaning(x: PathTreeNode, y: PathTreeNode, a: Layout, b: Layout, c: Layout)
    ensures Separate(At(y, At(x, a, b), c)) <==> Apart(x, y, a, b, c)
    ensures Nodes(At(y, At(x, a, b), c)) == {x, y} + Nodes(a) + Nodes(b) + Nodes(c)
  {
    assert Nodes(At(x, a, b)) == {x} + Nodes(a) + Nodes(b);
  }

  lemma RightLeaning(x: PathTreeNode, y: PathTreeNode, a: Layout, b: Layout, c: Layout)
    ensures Separate(At(x, a, At(y, b, c))) <==> Apart(x, y, a, b, c)
    ensures Nodes(At(x, a, At(y, b, c))) == {x, y} + Nodes(a) + Nodes(b) + Nodes(c)
  {
    assert Nodes(At(y, b, c)) == {y} + Nodes(b) + Nodes(c);
  }

  /** Sets both children of `node` and brings its height up to date: the step that all
      restructuring is made of. */
  method Relink(node: PathTreeNode, l: PathTreeNode?, r: PathTreeNode?, ghost lg: Layout, ghost rg: Layout)
    requires LaidOut(l, lg) && LaidOut(r, rg)
    requires node !in Nodes(lg) && node !in Nodes(rg)
    modifies node
    ensures LaidOut(node, At(node, lg, rg))
    ensures Shape(At(node, lg, rg)) == Join(old(Shape(lg)), old(node.recordIndex), old(Shape(rg)))
  {
    Root(l, lg);
    Root(r, rg);
    node.left := l;
    node.right := r;
    node.height := 1 + MaxNat(HeightField(l), HeightField(r));
    assert LaidOut(l, lg) && LaidOut(r, rg);
  }

  method RotateRightAt(node: PathTreeNode, ghost g: Layout) returns (root: PathTreeNode, ghost g': Layout)
    requires g.At? && g.left.At? && Separate(g) && LaidOut(node, g)
    modifies node, node.left
    ensures Separate(g') && Nodes(g') == Nodes(g) && LaidOut(root, g')
    ensures old(Shape(g)).Branch? && old(Shape(g)).left.Branch?
    ensures Shape(g') == RotateRight(old(Shape(g)))
  {
    ghost var a, b, c := g.left.left, g.left.right, g.right;
    root := node.left;
    assert g == At(node, At(root, a, b), c);
    LeftLeaning(root, node, a, b, c);
    RightLeaning(root, node, a, b, c);
    assert allocated(Nodes(a));
    assert LaidOut(root.left, a) && LaidOut(root.right, b) && LaidOut(node.right, c);
    Relink(node, root.right, node.right, b, c);
    assert LaidOut(root.left, a);
    Relink(root, root.left, node, a, At(node, b, c));
    g' := At(root, a, At(node, b, c));
  }

  method RotateLeftAt(node: PathTreeNode, ghost g: Layout) returns (root: PathTreeNode, ghost g': Layout)
    requires g.At? && g.right.At? && Separate(g) && LaidOut(node, g)
    modifies node, node.right
    ensures Separate(g') && Nodes(g') == Nodes(g) && LaidOut(root, g')
    ensures old(Shape(g)).Branch? && old(Shape(g)).right.Branch?
    ensures Shape(g') == RotateLeft(old(Shape(g)))
  {
    ghost var a, b, c := g.left, g.right.left, g.right.right;
    root := node.right;
    assert g == At(node, a, At(root, b, c));
    RightLeaning(node, root, a, b, c);
    LeftLeaning(node, root, a, b, c);
    assert allocated(Nodes(c));
    assert LaidOut(node.left, a) && LaidOut(root.left, b) && LaidOut(root.right, c);
    Relink(node, node.left, root.left, a, b);
    assert LaidOut(root.right, c);
    Relink(root, node, root.right, At(node, a, b), c);
    g' := At(root, At(node, a, b), c);
  }

  /** The first half of a double rotation: a left child leaning right is rotated left. */
  method StraightenLeft(node: PathTreeNode, ghost l: Layout, ghost r: Layout) returns (ghost x: Layout)
    requires Separate(At(node, l, r)) && LaidOut(node, At(node, l, r)) && NodeHeight(Shape(l)) > 1
    modifies node, Nodes(l)
    ensures Nodes(x) == Nodes(l) && Separate(x) && LaidOut(node, At(node, x, r))
    ensures Shape(r) == old(Shape(r)) && node.recordIndex == old(node.recordIndex)
    ensures Shape(x) == var t := old(Shape(l));
                        if NodeHeight(t.left) < NodeHeight(t.right) then RotateLeft(t) else t
  {
    assert allocated(Nodes(r));
    Root(node.left, l);
    Root(node.left.left, l.left);
    Root(node.left.right, l.right);
    x := l;
    if HeightField(node.left.left) < HeightField(node.left.right) {
      var left;
      left, x := RotateLeftAt(node.left, l);
      Relink(node, left, node.right, x, r);
    }
  }

  method LowerLeftAt(node: PathTreeNode, ghost l: Layout, ghost r: Layout)
    returns (root: PathTreeNode, ghost g: Layout)
    requires Separate(At(node, l, r)) && LaidOut(node, At(node, l, r)) && NodeHeight(Shape(l)) > 1
    modifies Nodes(At(node, l, r))
    ensures Separate(g) && Nodes(g) == Nodes(At(node, l, r)) && LaidOut(root, g)
    ensures Shape(g) == LowerLeft(old(Shape(l)), old(node.recordIndex), old(Shape(r)))
  {
    ghost var x := StraightenLeft(node, l, r);
    root, g := RotateRightAt(node, At(node, x, r));
  }

  /** The first half of a double rotation: a right child leaning left is rotated right. */
  method StraightenRight(node: PathTreeNode, ghost l: Layout, ghost r: Layout) returns (ghost x: Layout)
    requires Separate(At(node, l, r)) && LaidOut(node, At(node, l, r)) && NodeHeight(Shape(r)) > 1
    modifies node, Nodes(r)
    ensures Nodes(x) == Nodes(r) && Separate(x) && LaidOut(node, At(node, l, x))
    ensures Shape(l) == old(Shape(l)) && node.recordIndex == old(node.recordIndex)
    ensures Shape(x) == var t := old(Shape(r));
                        if NodeHeight(t.right) < NodeHeight(t.left) then RotateRight(t) else t
  {
    assert allocated(Nodes(l));
    Root(node.right, r);
    Root(node.right.right, r.right);
    Root(node.right.left, r.left);
    x := r;
    if HeightField(node.right.right) < HeightField(node.right.left) {
      var right;
      right, x := RotateRightAt(node.right, r);
      Relink(node, node.left, right, l, x);
    }
  }

  method LowerRightAt(node: PathTreeNode, ghost l: Layout, ghost r: Layout)
    returns (root: PathTreeNode, ghost g: Layout)
    requires Separate(At(node, l, r)) && LaidOut(node, At(node, l, r)) && NodeHeight(Shape(r)) > 1
    modifies Nodes(At(node, l, r))
    ensures Separate(g) && Nodes(g) == Nodes(At(node, l, r)) && LaidOut(root, g)
    ensures Shape(g) == LowerRight(old(Shape(l)), old(node.recordIndex), old(Shape(r)))
  {
    ghost var x := StraightenRight(node, l, r);
    root, g := RotateLeftAt(node, At(node, l, x));
  }

  method RebalanceAt(node: PathTreeNode, ghost l: Layout, ghost r: Layout)
    returns (root: PathTreeNode, ghost g: Layout)
    requires Separate(At(node, l, r)) && LaidOut(node, At(node, l, r))
    modifies Nodes(At(node, l, r))
    ensures Separate(g) && Nodes(g) == Nodes(At(node, l, r)) && LaidOut(root, g)
    ensures Shape(g) == Rebalance(Branch(old(Shape(l)), old(node.recordIndex), 0, old(Shape(r))))
  {
    assert allocated(Nodes(l)) && allocated(Nodes(r));
    Root(node.left, l);
    Root(node.right, r);
    Relink(node, node.left, node.right, l, r);
    assert Shape(l) == old(Shape(l)) && Shape(r) == old(Shape(r));
    if HeightField(node.left) > HeightField(node.right) + 1 {
      root, g := LowerLeftAt(node, l, r);
    } else if HeightField(node.right) > HeightField(node.left) + 1 {
      root, g := LowerRightAt(node, l, r);
    } else {
      root, g := node, At(node, l, r);
    }
  }

  /** Hangs a changed subtree back where it was. */
  method SetChildren(node: PathTreeNode, l: PathTreeNode?, r: PathTreeNode?, ghost lg: Layout, ghost rg: Layout)
    requires LaidOut(l, lg) && LaidOut(r, rg)
    requires node !in Nodes(lg) && node !in Nodes(rg)
    modifies node`left, node`right
    ensures LaidOut(node, At(node, lg, rg))
    ensures Shape(At(node, lg, rg)) == Branch(old(Shape(lg)), node.recordIndex, node.height, old(Shape(rg)))
    ensures Shape(lg) == old(Shape(lg)) && Shape(rg) == old(Shape(rg))
  {
    node.left, node.right := l, r;
    assert LaidOut(l, lg) && LaidOut(r, rg);
  }

  /** `insert_node`. `allocOk` says whether the one `calloc` of a new node would succeed. The
      slot `*root` of the C code is the parameter `root` on entry and the result `top` on exit. */
  method InsertNode(root: PathTreeNode?, records: array<ChangeRecord>, k: nat, allocOk: bool, ghost g: Layout)
    returns (rc: Errno, top: PathTreeNode?, ghost g': Layout)
    requires Separate(g) && LaidOut(root, g)
    requires k < records.Length && Within(Shape(g), records.Length)
    modifies Nodes(g)
    ensures Separate(g') && LaidOut(top, g')
    ensures fresh(Nodes(g') - Nodes(g))
    ensures rc == if allocOk || Meets(records[..], old(Shape(g)), k) then OK else ENOMEM
    ensures Shape(g') == if rc == OK then Insert(records[..], old(Shape(g)), k) else old(Shape(g))
    decreases g
  {
    hide Rebalance, StrCmp;
    Root(root, g);
    if root == null {
      if !allocOk {
        return ENOMEM, root, g;
      }
      top := new PathTreeNode(k);
      return OK, top, At(top, Empty, Empty);
    }
    ghost var l, r := g.left, g.right;
    assert allocated(Nodes(l)) && allocated(Nodes(r));
    top := root;
    var cmp := StrCmp(records[k].path, records[root.recordIndex].path);
    if cmp < 0 {
      var left;
      rc, left, l := InsertNode(root.left, records, k, allocOk, l);
      SetChildren(root, left, root.right, l, r);
    } else if cmp > 0 {
      var right;
      rc, right, r := InsertNode(root.right, records, k, allocOk, r);
      SetChildren(root, root.left, right, l, r);
    } else {
      root.recordIndex := k;
      return OK, root, g;
    }
    if rc != OK {
      g' := At(root, l, r);
    } else {
      RebalanceIgnoresHeight(Shape(l), root.recordIndex, root.height, Shape(r));
      top, g' := RebalanceAt(root, l, r);
    }
  }

  /** `path_tree_inorder`. */
  method Inorder(root: PathTreeNode?, visitor: nat -> Errno, ghost g: Layout) returns (rc: Errno, visited: seq<nat>)
    requires LaidOut(root, g)
    ensures (rc, visited) == Visit(InOrder(Shape(g)), visitor)
    decreases g
  {
    Root(root, g);
    if root == null {
      return OK, [];
    }
    assert allocated(Nodes(g.left)) && allocated(Nodes(g.right));
    ghost var l, i, r := InOrder(Shape(g.left)), root.recordIndex, InOrder(Shape(g.right));
    VisitAround(l, i, r, visitor);
    rc, visited := Inorder(root.left, visitor, g.left);
    if rc != OK {
      return;
    }
    rc := visitor(root.recordIndex);
    visited := visited + [root.recordIndex];
    if rc != OK {
      return;
    }
    assert LaidOut(root.right, g.right);
    var rest;
    rc, rest := Inorder(root.right, visitor, g.right);
    visited := visited + rest;
  }
}
