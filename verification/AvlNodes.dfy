/** The in-place AVL operations of the WordFM finite map, on node objects.
    Each method carries as ghost argument the tree value its nodes represent and
    is proved to turn it into the result of the corresponding function of AvlTree. */
module AvlNodes {
  import opened AvlTree

  class AvlNode<K, V> {
    var key: K
    var val: V
    var left: AvlNode?<K, V>
    var right: AvlNode?<K, V>
    var balance: int

    constructor (k: K, v: V)
      ensures key == k && val == v && left == null && right == null && balance == 0
    {
      key, val, left, right, balance := k, v, null, null, 0;
    }
  }

  type NodeTree<K, V> = Tree<AvlNode<K, V>, K, V>

  datatype MaybeWord<V> = Absent | Present(w: V)

  ghost function Nodes<K, V>(t: NodeTree<K, V>): set<AvlNode<K, V>> {
    match t
    case Leaf => {}
    case Node(l, e, _, r) => Nodes(l) + {e.node} + Nodes(r)
  }

  /** The nodes reachable from root are exactly the tree t, without sharing. */
  ghost predicate IsTree<K, V>(root: AvlNode?<K, V>, t: NodeTree<K, V>)
    reads Nodes(t)
    decreases t
  {
    match t
    case Leaf => root == null
    case Node(l, e, b, r) =>
      && root == e.node
      && e.node.key == e.key && e.node.val == e.val && e.node.balance == b
      && e.node !in Nodes(l) && e.node !in Nodes(r) && Nodes(l) !! Nodes(r)
      && IsTree(e.node.left, l) && IsTree(e.node.right, r)
  }

  // ---------------------------------------------------------------- swings

  method AvlSwl<K, V>(root: AvlNode<K, V>, ghost t: NodeTree<K, V>) returns (root': AvlNode<K, V>)
    requires IsTree(root, t) && t.right.Node?
    modifies root`right, t.right.entry.node`left
    ensures IsTree(root', SwingLeft(t)) && Nodes(SwingLeft(t)) == Nodes(t)
  {
    var b := root.right;
    root' := b;
    root.right := b.left;
    b.left := root;
  }

  method AvlSwr<K, V>(root: AvlNode<K, V>, ghost t: NodeTree<K, V>) returns (root': AvlNode<K, V>)
    requires IsTree(root, t) && t.left.Node?
    modifies root`left, t.left.entry.node`right
    ensures IsTree(root', SwingRight(t)) && Nodes(SwingRight(t)) == Nodes(t)
  {
    var b := root.left;
    root' := b;
    root.left := b.right;
    b.right := root;
  }

  method AvlNasty<K, V>(root: AvlNode<K, V>, ghost t: NodeTree<K, V>)
    requires IsTree(root, t) && t.left.Node? && t.right.Node? && -1 <= t.balance <= 1
    modifies root`balance, t.left.entry.node`balance, t.right.entry.node`balance
    ensures IsTree(root, Nasty(t)) && Nodes(Nasty(t)) == Nodes(t)
  {
    match root.balance {
      case -1 =>
        root.left.balance := 0;
        root.right.balance := 1;
      case 1 =>
        root.left.balance := -1;
        root.right.balance := 0;
      case 0 =>
        root.left.balance := 0;
        root.right.balance := 0;
    }
    root.balance := 0;
  }

  /** A swing followed by the two balance assignments that go with it. */
  method AvlSwlSet<K, V>(root: AvlNode<K, V>, b: int, lb: int, ghost t: NodeTree<K, V>) returns (root': AvlNode<K, V>)
    requires IsTree(root, t) && t.right.Node?
    modifies Nodes(t)`left, Nodes(t)`right, Nodes(t)`balance
    ensures var u := SwingLeft(t);
            var u' := u.(balance := b, left := u.left.(balance := lb));
            IsTree(root', u') && Nodes(u') == Nodes(t)
  {
    root' := AvlSwl(root, t);
    root'.balance := b;
    root'.left.balance := lb;
  }

  method AvlSwrSet<K, V>(root: AvlNode<K, V>, b: int, rb: int, ghost t: NodeTree<K, V>) returns (root': AvlNode<K, V>)
    requires IsTree(root, t) && t.left.Node?
    modifies Nodes(t)`left, Nodes(t)`right, Nodes(t)`balance
    ensures var u := SwingRight(t);
            var u' := u.(balance := b, right := u.right.(balance := rb));
            IsTree(root', u') && Nodes(u') == Nodes(t)
  {
    root' := AvlSwr(root, t);
    root'.balance := b;
    root'.right.balance := rb;
  }

  /** The left child swung left, the root swung right, the balances redone. */
  method AvlDoubleSwr<K, V>(root: AvlNode<K, V>, ghost t: NodeTree<K, V>) returns (root': AvlNode<K, V>)
    requires IsTree(root, t) && t.left.Node? && t.left.right.Node? && -1 <= t.left.right.balance <= 1
    modifies Nodes(t)`left, Nodes(t)`right, Nodes(t)`balance
    ensures var u := Nasty(SwingRight(t.(left := SwingLeft(t.left))));
            IsTree(root', u) && Nodes(u) == Nodes(t)
  {
    assert allocated(Nodes(t));
    assert t.left.entry.node in Nodes(t.left) && t.left.right.entry.node in Nodes(t.left);
    root.left := AvlSwl(root.left, t.left);
    ghost var t1 := t.(left := SwingLeft(t.left));
    assert IsTree(root, t1);
    root' := AvlSwr(root, t1);
    AvlNasty(root', SwingRight(t1));
  }

  method AvlDoubleSwl<K, V>(root: AvlNode<K, V>, ghost t: NodeTree<K, V>) returns (root': AvlNode<K, V>)
    requires IsTree(root, t) && t.right.Node? && t.right.left.Node? && -1 <= t.right.left.balance <= 1
    modifies Nodes(t)`left, Nodes(t)`right, Nodes(t)`balance
    ensures var u := Nasty(SwingLeft(t.(right := SwingRight(t.right))));
            IsTree(root', u) && Nodes(u) == Nodes(t)
  {
    assert allocated(Nodes(t));
    assert t.right.entry.node in Nodes(t.right) && t.right.left.entry.node in Nodes(t.right);
    root.right := AvlSwr(root.right, t.right);
    ghost var t1 := t.(right := SwingRight(t.right));
    assert IsTree(root, t1);
    root' := AvlSwl(root, t1);
    AvlNasty(root', SwingLeft(t1));
  }

  // -------------------------------------------------------------- insertion

  /** The steps of an insertion after the left subtree has grown in place. */
  method AvlGrewLeft<K, V>(root: AvlNode<K, V>, ghost t: NodeTree<K, V>)
    returns (root': AvlNode<K, V>, grew: bool)
    requires IsTree(root, t) && Balanced(t.left) && Balanced(t.right) && -1 <= t.balance <= 1
    requires GrownShape(t.left) && t.balance == Height(t.right) - (Height(t.left) - 1)
    modifies Nodes(t)`left, Nodes(t)`right, Nodes(t)`balance
    ensures IsTree(root', GrewLeft(t).0) && Nodes(GrewLeft(t).0) == Nodes(t) && grew == GrewLeft(t).1
  {
    root' := root;
    var b := root.balance;
    root.balance := b - 1;
    ghost var t1 := t.(balance := b - 1);
    assert IsTree(root, t1);
    if b == 1 {
      return root, false;
    } else if b == 0 {
      return root, true;
    }
    if root.left.balance < 0 {
      root' := AvlSwrSet(root, 0, 0, t1);
    } else {
      root' := AvlDoubleSwr(root, t1);
    }
    grew := false;
  }

  method AvlGrewRight<K, V>(root: AvlNode<K, V>, ghost t: NodeTree<K, V>)
    returns (root': AvlNode<K, V>, grew: bool)
    requires IsTree(root, t) && Balanced(t.left) && Balanced(t.right) && -1 <= t.balance <= 1
    requires GrownShape(t.right) && t.balance == Height(t.right) - 1 - Height(t.left)
    modifies Nodes(t)`left, Nodes(t)`right, Nodes(t)`balance
    ensures IsTree(root', GrewRight(t).0) && Nodes(GrewRight(t).0) == Nodes(t) && grew == GrewRight(t).1
  {
    root' := root;
    var b := root.balance;
    root.balance := b + 1;
    ghost var t1 := t.(balance := b + 1);
    assert IsTree(root, t1);
    if b == -1 {
      return root, false;
    } else if b == 0 {
      return root, true;
    }
    if root.right.balance > 0 {
      root' := AvlSwlSet(root, 0, 0, t1);
    } else {
      root' := AvlDoubleSwl(root, t1);
    }
    grew := false;
  }

  /** The root's own fields. */
  ghost predicate Holds<K, V>(root: AvlNode<K, V>, e: Entry<AvlNode<K, V>, K, V>, b: int)
    reads root
  {
    root == e.node && root.key == e.key && root.val == e.val && root.balance == b
  }

  /** What an insertion does with the root once the left subtree is l.0.  A subtree
      that grew is not stored: it kept its root, so root.left already points to it. */
  method AvlExtendLeft<K, V>(root: AvlNode<K, V>, left_subtree: AvlNode?<K, V>, grown: bool,
                             ghost t: NodeTree<K, V>, ghost l: (NodeTree<K, V>, bool))
    returns (root': AvlNode<K, V>, grew: bool)
    requires t.Node? && Balanced(t) && Balanced(l.0) && Height(l.0) == Height(t.left) + if l.1 then 1 else 0
    requires grown == l.1 && (grown ==> GrownShape(l.0) && root.left == left_subtree)
    requires Holds(root, t.entry, t.balance) && IsTree(left_subtree, l.0) && IsTree(root.right, t.right)
    requires root !in Nodes(l.0) && root !in Nodes(t.right) && Nodes(l.0) !! Nodes(t.right)
    modifies Nodes(t.(left := l.0))`left, Nodes(t.(left := l.0))`right, Nodes(t.(left := l.0))`balance
    ensures var u := ExtendLeft(t, l);
            IsTree(root', u.0) && grew == u.1 && Nodes(u.0) == {root} + Nodes(l.0) + Nodes(t.right)
  {
    hide GrewLeft;
    ghost var t1 := t.(left := l.0);
    if grown {
      root', grew := AvlGrewLeft(root, t1);
    } else {
      root.left := left_subtree;
      assert IsTree(root, t1);
      root', grew := root, false;
    }
  }

  method AvlExtendRight<K, V>(root: AvlNode<K, V>, right_subtree: AvlNode?<K, V>, grown: bool,
                              ghost t: NodeTree<K, V>, ghost r: (NodeTree<K, V>, bool))
    returns (root': AvlNode<K, V>, grew: bool)
    requires t.Node? && Balanced(t) && Balanced(r.0) && Height(r.0) == Height(t.right) + if r.1 then 1 else 0
    requires grown == r.1 && (grown ==> GrownShape(r.0) && root.right == right_subtree)
    requires Holds(root, t.entry, t.balance) && IsTree(root.left, t.left) && IsTree(right_subtree, r.0)
    requires root !in Nodes(t.left) && root !in Nodes(r.0) && Nodes(t.left) !! Nodes(r.0)
    modifies Nodes(t.(right := r.0))`left, Nodes(t.(right := r.0))`right, Nodes(t.(right := r.0))`balance
    ensures var u := ExtendRight(t, r);
            IsTree(root', u.0) && grew == u.1 && Nodes(u.0) == {root} + Nodes(t.left) + Nodes(r.0)
  {
    hide GrewRight;
    ghost var t1 := t.(right := r.0);
    if grown {
      root', grew := AvlGrewRight(root, t1);
    } else {
      root.right := right_subtree;
      assert IsTree(root, t1);
      root', grew := root, false;
    }
  }

  lemma InsertIntoLeaf<K, V>(t: NodeTree<K, V>, u: (NodeTree<K, V>, bool), e: Entry<AvlNode<K, V>, K, V>, cmp: (K,
          K) -> int)
    requires t.Leaf? && u == Insert(t, e, cmp)
    ensures u == (Node(Leaf, e, 0, Leaf), true) && Nodes(u.0) == {e.node} && !Found(t, e.key, cmp)
  {
  }

  method AvlInsertLeft<K, V>(root: AvlNode<K, V>, a: AvlNode<K, V>, cmp: (K, K) -> int, ghost t: NodeTree<K, V>)
    returns (root': AvlNode<K, V>, oldV: MaybeWord<V>, grew: bool)
    requires IsTree(root, t) && Balanced(t) && a !in Nodes(t)
    requires IsTree(a, Node(Leaf, Entry(a, a.key, a.val), 0, Leaf))
    modifies Nodes(t), a`left, a`right, a`balance
    ensures var l := Insert(t.left, Entry(a, a.key, a.val), cmp);
            var u := ExtendLeft(t, l);
            IsTree(root', u.0) && grew == u.1
            && Nodes(u.0) == Nodes(t) + Nodes(l.0) && Nodes(l.0) == Nodes(t.left) + if Found(t.left, a.key, cmp)
              then {} else {a}
    ensures oldV == if Found(t.left, a.key, cmp) then Present(At(t.left, a.key, cmp).val) else Absent
    decreases t, 0
  {
    hide ExtendLeft, Insert, Found, At, Height;
    assert allocated(Nodes(t));
    ghost var l := Insert(t.left, Entry(a, a.key, a.val), cmp);
    if root.left != null {
      var left_subtree;
      left_subtree, oldV, grew := AvlInsertWrk(root.left, a, cmp, t.left);
      root', grew := AvlExtendLeft(root, left_subtree, grew, t, l);
    } else {
      InsertIntoLeaf(t.left, l, Entry(a, a.key, a.val), cmp);
      oldV := Absent;
      root.left := a;
      root', grew := AvlExtendLeft(root, a, true, t, l);
    }
  }

  method AvlInsertRight<K, V>(root: AvlNode<K, V>, a: AvlNode<K, V>, cmp: (K, K) -> int, ghost t: NodeTree<K, V>)
    returns (root': AvlNode<K, V>, oldV: MaybeWord<V>, grew: bool)
    requires IsTree(root, t) && Balanced(t) && a !in Nodes(t)
    requires IsTree(a, Node(Leaf, Entry(a, a.key, a.val), 0, Leaf))
    modifies Nodes(t), a`left, a`right, a`balance
    ensures var r := Insert(t.right, Entry(a, a.key, a.val), cmp);
            var u := ExtendRight(t, r);
            IsTree(root', u.0) && grew == u.1
            && Nodes(u.0) == Nodes(t) + Nodes(r.0) && Nodes(r.0) == Nodes(t.right) + if Found(t.right, a.key, cmp)
              then {} else {a}
    ensures oldV == if Found(t.right, a.key, cmp) then Present(At(t.right, a.key, cmp).val) else Absent
    decreases t, 0
  {
    hide ExtendRight, Insert, Found, At, Height;
    assert allocated(Nodes(t));
    ghost var r := Insert(t.right, Entry(a, a.key, a.val), cmp);
    if root.right != null {
      var right_subtree;
      right_subtree, oldV, grew := AvlInsertWrk(root.right, a, cmp, t.right);
      root', grew := AvlExtendRight(root, right_subtree, grew, t, r);
    } else {
      InsertIntoLeaf(t.right, r, Entry(a, a.key, a.val), cmp);
      oldV := Absent;
      root.right := a;
      root', grew := AvlExtendRight(root, a, true, t, r);
    }
  }

  method AvlInsertWrk<K, V>(root: AvlNode?<K, V>, a: AvlNode<K, V>, cmp: (K, K) -> int, ghost t: NodeTree<K, V>)
    returns (root': AvlNode<K, V>, oldV: MaybeWord<V>, grew: bool)
    requires IsTree(root, t) && Balanced(t) && a !in Nodes(t)
    modifies Nodes(t), a`left, a`right, a`balance
    ensures var u := Insert(t, Entry(a, a.key, a.val), cmp);
            IsTree(root', u.0) && grew == u.1
            && Nodes(u.0) == Nodes(t) + if Found(t, a.key, cmp) then {} else {a}
    ensures oldV == if Found(t, a.key, cmp) then Present(At(t, a.key, cmp).val) else Absent
    decreases t, 1
  {
    hide ExtendLeft, ExtendRight, Height;
    assert allocated(Nodes(t));
    a.left := null;
    a.right := null;
    a.balance := 0;
    oldV := Absent;
    assert IsTree(root, t);
    if root == null {
      return a, Absent, true;
    }
    var cmpres := cmp(root.key, a.key);
    if cmpres > 0 {
      root', oldV, grew := AvlInsertLeft(root, a, cmp, t);
    } else if cmpres < 0 {
      root', oldV, grew := AvlInsertRight(root, a, cmp, t);
    } else {
      oldV := Present(root.val);
      root.val := a.val;
      root', grew := root, false;
    }
  }

  // --------------------------------------------------------------- deletion

  /** The steps of a deletion after the left subtree has lost one level. */
  method AvlShrankLeft<K, V>(root: AvlNode<K, V>, ghost t: NodeTree<K, V>)
    returns (root': AvlNode<K, V>, ch: bool)
    requires IsTree(root, t) && Balanced(t.left) && Balanced(t.right) && -1 <= t.balance <= 1
    requires t.balance == Height(t.right) - (Height(t.left) + 1)
    modifies Nodes(t)`left, Nodes(t)`right, Nodes(t)`balance
    ensures IsTree(root', ShrankLeft(t).0) && Nodes(ShrankLeft(t).0) == Nodes(t) && ch == ShrankLeft(t).1
  {
    var b := root.balance;
    root.balance := b + 1;
    ghost var t1 := t.(balance := b + 1);
    assert IsTree(root, t1);
    if b == -1 {
      return root, true;
    } else if b == 0 {
      return root, false;
    }
    assert Balanced(t.right) && t.right.Node?;
    if root.right.balance == 0 {
      root' := AvlSwlSet(root, -1, 1, t1);
      ch := false;
    } else if root.right.balance == 1 {
      root' := AvlSwlSet(root, 0, 0, t1);
      ch := true;
    } else {
      assert Balanced(t.right.left) && t.right.left.Node?;
      root' := AvlDoubleSwl(root, t1);
      ch := true;
    }
  }

  /** The steps of a deletion after the right subtree has lost one level. */
  method AvlShrankRight<K, V>(root: AvlNode<K, V>, ghost t: NodeTree<K, V>)
    returns (root': AvlNode<K, V>, ch: bool)
    requires IsTree(root, t) && Balanced(t.left) && Balanced(t.right) && -1 <= t.balance <= 1
    requires t.balance == Height(t.right) + 1 - Height(t.left)
    modifies Nodes(t)`left, Nodes(t)`right, Nodes(t)`balance
    ensures IsTree(root', ShrankRight(t).0) && Nodes(ShrankRight(t).0) == Nodes(t) && ch == ShrankRight(t).1
  {
    var b := root.balance;
    root.balance := b - 1;
    ghost var t1 := t.(balance := b - 1);
    assert IsTree(root, t1);
    if b == 1 {
      return root, true;
    } else if b == 0 {
      return root, false;
    }
    assert Balanced(t.left) && t.left.Node?;
    if root.left.balance == 0 {
      root' := AvlSwrSet(root, 1, -1, t1);
      ch := false;
    } else if root.left.balance == -1 {
      root' := AvlSwrSet(root, 0, 0, t1);
      ch := true;
    } else {
      assert Balanced(t.left.right) && t.left.right.Node?;
      root' := AvlDoubleSwr(root, t1);
      ch := true;
    }
  }

  /** What a deletion does with the root once the left subtree is l.0. */
  method AvlReplaceLeft<K, V>(root: AvlNode<K, V>, left_subtree: AvlNode?<K, V>, shrunk: bool,
                              ghost t: NodeTree<K, V>, ghost l: (NodeTree<K, V>, bool))
    returns (root': AvlNode<K, V>, ch: bool)
    requires t.Node? && Balanced(t) && Balanced(l.0) && Height(t.left) == Height(l.0) + if l.1 then 1 else 0
    requires shrunk == l.1 && Holds(root, t.entry, t.balance)
    requires IsTree(left_subtree, l.0) && IsTree(root.right, t.right)
    requires root !in Nodes(l.0) && root !in Nodes(t.right) && Nodes(l.0) !! Nodes(t.right)
    modifies Nodes(t.(left := l.0))`left, Nodes(t.(left := l.0))`right, Nodes(t.(left := l.0))`balance
    ensures var u := ReplaceLeft(t, l);
            IsTree(root', u.0) && ch == u.1 && Nodes(u.0) == {root} + Nodes(l.0) + Nodes(t.right)
  {
    hide ShrankLeft;
    ghost var t1 := t.(left := l.0);
    root.left := left_subtree;
    assert IsTree(root, t1);
    if shrunk {
      root', ch := AvlShrankLeft(root, t1);
    } else {
      root', ch := root, false;
    }
  }

  /** What a deletion does with the root once the right subtree is r.0. */
  method AvlReplaceRight<K, V>(root: AvlNode<K, V>, right_subtree: AvlNode?<K, V>, shrunk: bool,
                              ghost t: NodeTree<K, V>, ghost r: (NodeTree<K, V>, bool))
    returns (root': AvlNode<K, V>, ch: bool)
    requires t.Node? && Balanced(t) && Balanced(r.0) && Height(t.right) == Height(r.0) + if r.1 then 1 else 0
    requires shrunk == r.1 && Holds(root, t.entry, t.balance)
    requires IsTree(right_subtree, r.0) && IsTree(root.left, t.left)
    requires root !in Nodes(r.0) && root !in Nodes(t.left) && Nodes(r.0) !! Nodes(t.left)
    modifies Nodes(t.(right := r.0))`left, Nodes(t.(right := r.0))`right, Nodes(t.(right := r.0))`balance
    ensures var u := ReplaceRight(t, r);
            IsTree(root', u.0) && ch == u.1 && Nodes(u.0) == {root} + Nodes(r.0) + Nodes(t.left)
  {
    hide ShrankRight;
    ghost var t1 := t.(right := r.0);
    root.right := right_subtree;
    assert IsTree(root, t1);
    if shrunk {
      root', ch := AvlShrankRight(root, t1);
    } else {
      root', ch := root, false;
    }
  }

  lemma {:induction false} AtInNodes<K, V>(t: NodeTree<K, V>, k: K, cmp: (K, K) -> int)
    requires Found(t, k, cmp)
    ensures At(t, k, cmp).node in Nodes(t)
    ensures t.left.Node? && cmp(t.entry.key, k) > 0 ==> At(t, k, cmp).node in Nodes(t.left)
    ensures t.right.Node? && cmp(t.entry.key, k) < 0 ==> At(t, k, cmp).node in Nodes(t.right)
  {
    if cmp(t.entry.key, k) > 0 {
      AtInNodes(t.left, k, cmp);
    } else if cmp(t.entry.key, k) < 0 {
      AtInNodes(t.right, k, cmp);
    }
  }

  /** Remove the node a, found in the tree by its key.  Returns whether the height shrank. */
  method AvlRemoveWrk<K(!new), V>(root: AvlNode<K, V>, a: AvlNode<K, V>, cmp: (K, K) -> int, ghost t: NodeTree<K, V>)
    returns (root': AvlNode?<K, V>, ch: bool)
    requires IsTree(root, t) && Avl(t, cmp)
    requires Found(t, a.key, cmp) && At(t, a.key, cmp).node == a
    modifies Nodes(t)`left, Nodes(t)`right, Nodes(t)`balance
    ensures var u := Remove(t, a.key, cmp);
            IsTree(root', u.0) && ch == u.1 && Nodes(u.0) == Nodes(t) - {a}
    decreases t, if cmp(t.entry.key, a.key) == 0 then 2 else 0
  {
    hide TotalOrder, Ordered, ReplaceLeft, ReplaceRight, RemoveRoot, Height;
    assert allocated(Nodes(t));
    AvlParts(t, cmp);
    AtInNodes(t, a.key, cmp);
    var cmpres := cmp(root.key, a.key);
    if cmpres > 0 {
      var left_subtree: AvlNode?<K, V> := root.left;
      assert left_subtree != null;
      left_subtree, ch := AvlRemoveWrk(left_subtree, a, cmp, t.left);
      root', ch := AvlReplaceLeft(root, left_subtree, ch, t, Remove(t.left, a.key, cmp));
    } else if cmpres < 0 {
      var right_subtree: AvlNode?<K, V> := root.right;
      assert right_subtree != null;
      right_subtree, ch := AvlRemoveWrk(right_subtree, a, cmp, t.right);
      root', ch := AvlReplaceRight(root, right_subtree, ch, t, Remove(t.right, a.key, cmp));
    } else {
      assert root == a;
      root', ch := AvlRemoveRootWrk(root, cmp, t);
    }
  }

  method RightmostNode<K, V>(root: AvlNode<K, V>, ghost t: NodeTree<K, V>) returns (a: AvlNode<K, V>)
    requires IsTree(root, t)
    ensures a == Last(t).node && a.key == Last(t).key && a.val == Last(t).val
    ensures a in Nodes(t)
  {
    a := root;
    ghost var s := t;
    while a.right != null
      invariant IsTree(a, s) && Last(s) == Last(t) && Nodes(s) <= Nodes(t)
      decreases s
    {
      a := a.right;
      s := s.right;
    }
  }

  method LeftmostNode<K, V>(root: AvlNode<K, V>, ghost t: NodeTree<K, V>) returns (a: AvlNode<K, V>)
    requires IsTree(root, t)
    ensures a == First(t).node && a.key == First(t).key && a.val == First(t).val
    ensures a in Nodes(t)
  {
    a := root;
    ghost var s := t;
    while a.left != null
      invariant IsTree(a, s) && First(s) == First(t) && Nodes(s) <= Nodes(t)
      decreases s
    {
      a := a.left;
      s := s.left;
    }
  }

  /** The node a, outside the tree, takes the place of the root. */
  method AvlTakePlace<K, V>(root: AvlNode<K, V>, a: AvlNode<K, V>, ghost t: NodeTree<K, V>)
    requires IsTree(root, t) && a !in Nodes(t)
    modifies a`left, a`right, a`balance
    ensures var u := t.(entry := Entry(a, a.key, a.val));
            IsTree(a, u) && Nodes(u) == Nodes(t) - {root} + {a}
  {
    assert allocated(Nodes(t));
    a.left := root.left;
    a.right := root.right;
    a.balance := root.balance;
  }

  /** Remove the root.  Its in-order neighbour on the chosen side is removed from the
      same tree by key, then takes over the root's place; that removal cannot rotate the root. */
  method AvlRemoveRootWrk<K(!new), V>(root: AvlNode<K, V>, cmp: (K, K) -> int, ghost t: NodeTree<K, V>)
    returns (root': AvlNode?<K, V>, ch: bool)
    requires IsTree(root, t) && Avl(t, cmp)
    modifies Nodes(t)`left, Nodes(t)`right, Nodes(t)`balance
    ensures var u := RemoveRoot(t);
            IsTree(root', u.0) && ch == u.1 && Nodes(u.0) == Nodes(t) - {root}
    decreases t, 1
  {
    hide TotalOrder, Ordered, Remove, Balanced, Height;
    assert allocated(Nodes(t));
    assert Balanced(t);
    if root.left == null {
      if root.right == null {
        return null, true;
      }
      return root.right, true;
    }
    if root.right == null {
      return root.left, true;
    }
    var a: AvlNode<K, V>;
    if root.balance < 0 {
      a := RightmostNode(root.left, t.left);
    } else {
      a := LeftmostNode(root.right, t.right);
    }
    RemoveNeighbour(t, cmp);
    var same: AvlNode?<K, V>;
    same, ch := AvlRemoveWrk(root, a, cmp, t);
    assert same == root;
    AvlTakePlace(same, a, Remove(t, a.key, cmp).0);
    root' := a;
    if a.balance != 0 {
      ch := false;
    }
  }

  // ---------------------------------------------------------- search, size

  method AvlFindNode<K, V>(root: AvlNode?<K, V>, k: K, cmp: (K, K) -> int, ghost root': NodeTree<K, V>)
    returns (node: AvlNode?<K, V>)
    requires IsTree(root, root')
    ensures node == null <==> !Found(root', k, cmp)
    ensures node != null ==> node in Nodes(root') && node == At(root', k, cmp).node
                             && node.key == At(root', k, cmp).key && node.val == At(root', k, cmp).val
  {
    var t := root;
    ghost var s := root';
    while true
      invariant IsTree(t, s) && Nodes(s) <= Nodes(root')
      invariant Found(s, k, cmp) <==> Found(root', k, cmp)
      invariant Found(s, k, cmp) ==> At(s, k, cmp) == At(root', k, cmp)
      decreases s
    {
      if t == null {
        return null;
      }
      var cmpres := cmp(t.key, k);
      if cmpres > 0 {
        t := t.left;
        s := s.left;
      } else if cmpres < 0 {
        t := t.right;
        s := s.right;
      } else {
        return t;
      }
    }
  }

  method SizeAvlNonNull<K, V>(nd: AvlNode<K, V>, ghost t: NodeTree<K, V>) returns (n: nat)
    requires IsTree(nd, t)
    ensures n == |Contents(t)|
    decreases t
  {
    assert allocated(Nodes(t));
    ContentsNode(t);
    var l, r := 0, 0;
    if nd.left != null {
      l := SizeAvlNonNull(nd.left, t.left);
    }
    if nd.right != null {
      r := SizeAvlNonNull(nd.right, t.right);
    }
    n := 1 + l + r;
  }
}
