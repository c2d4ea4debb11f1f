/** The WordFM finite map object: an AVL tree of nodes, a comparison function,
    and an iterator whose stack lives in two fixed arrays of the map itself. */
module WordFMs {
  import opened AvlTree
  import opened AvlNodes
  import opened AvlMap
  import opened AvlIter

  /** The cells in use of the two iterator arrays hold the stack s over nodes of all. */
  ghost predicate Stacked<K, V>(nodes: seq<AvlNode?<K, V>>, nums: seq<int>,
                                s: Stack<AvlNode<K, V>, K, V>, all: set<AvlNode<K, V>>)
    reads all
    decreases s
  {
    match s
    case Empty => nodes == [] && nums == []
    case Push(t, num, below) =>
      var n := |nodes| - 1;
      && 0 <= n && |nums| == n + 1 && nums[n] == num
      && Nodes(t) <= all && IsTree(nodes[n], t)
      && Stacked(nodes[..n], nums[..n], below, all)
  }

  class WordFM<K(!new), V> {
    var root: AvlNode?<K, V>
    const kCmp: (K, K) -> int
    const nodeStack: array<AvlNode?<K, V>>
    const numStack: array<int>
    var stackTop: int
    ghost var tree: NodeTree<K, V>
    ghost var stack: Stack<AvlNode<K, V>, K, V>

    ghost function Repr(): set<object>
      reads `tree
    {
      {this, nodeStack, numStack} + Nodes(tree)
    }

    /** The map proper is intact, whatever its iterator is doing. */
    ghost predicate Sound()
      reads `root, `tree, Nodes(tree)
    {
      && IsTree(root, tree) && Avl(tree, kCmp)
      && nodeStack.Length == WFM_STKMAX && numStack.Length == WFM_STKMAX
    }

    ghost predicate Valid()
      reads this, Nodes(tree)
    {
      Sound() && 0 <= stackTop <= WFM_STKMAX
    }

    /** The abstract value. */
    ghost function Map(): map<K, V>
      reads `tree
    {
      Bindings(tree)
    }

    /** A traversal is under way or exhausted. */
    ghost predicate Started()
      reads this, nodeStack, numStack, Nodes(tree)
    {
      && Valid() && StackOk(stack)
      && Stacked(nodeStack[..stackTop], numStack[..stackTop], stack, Nodes(tree))
    }

    /** And its stack has room to the end. */
    ghost predicate Iterating()
      reads this, nodeStack, numStack, Nodes(tree)
    {
      Started() && Fits(stack, WFM_STKMAX)
    }

    constructor (kCmp: (K, K) -> int)
      requires TotalOrder(kCmp)
      ensures Valid() && Map() == map[] && stackTop == 0 && tree == Leaf
      ensures this.kCmp == kCmp && fresh(Repr())
    {
      this.kCmp := kCmp;
      root := null;
      stackTop := 0;
      nodeStack := new AvlNode?<K, V>[WFM_STKMAX](_ => null);
      numStack := new int[WFM_STKMAX](_ => 0);
      tree := Leaf;
      stack := Empty;
    }

    method AddToFM(k: K, v: V)
      requires Valid()
      modifies this`root, this`tree, Nodes(tree)
      ensures Valid() && Map() == old(Map())[k := v]
      ensures fresh(Nodes(tree) - old(Nodes(tree)))
    {
      hide TotalOrder, Ordered, Balanced, Height, Contents, Bindings, Insert, Remove, Found, At;
      assert allocated(Nodes(tree));
      var node := new AvlNode(k, v);
      ghost var e := Entry(node, k, v);
      InsertCorrect(tree, e, kCmp);
      var newRoot, oldV, grew := AvlInsertWrk(root, node, kCmp, tree);
      root := newRoot;
      tree := Insert(tree, e, kCmp).0;
    }

    /** Delete key, returning the value it was bound to. */
    method DelFromFM(key: K) returns (found: bool, oldV: MaybeWord<V>)
      requires Valid()
      modifies this`root, this`tree, Nodes(tree)`left, Nodes(tree)`right, Nodes(tree)`balance
      ensures Valid() && Map() == old(Map()) - {key} && Nodes(tree) <= old(Nodes(tree))
      ensures found <==> key in old(Map())
      ensures oldV == if found then Present(old(Map())[key]) else Absent
    {
      hide TotalOrder, Ordered, Balanced, Height, Contents, Bindings, Insert, Remove, Found, At;
      assert allocated(Nodes(tree));
      SearchCorrect(tree, key, kCmp);
      var node := AvlFindNode(root, key, kCmp, tree);
      if node != null {
        RemoveCorrect(tree, key, kCmp);
        var newRoot, ch := AvlRemoveWrk(root, node, kCmp, tree);
        root := newRoot;
        tree := Remove(tree, key, kCmp).0;
        return true, Present(node.val);
      } else {
        return false, Absent;
      }
    }

    method LookupFM(key: K) returns (v: MaybeWord<V>)
      requires Valid()
      ensures v == if key in Map() then Present(Map()[key]) else Absent
    {
      SearchCorrect(tree, key, kCmp);
      var node := AvlFindNode(root, key, kCmp, tree);
      if node != null {
        return Present(node.val);
      } else {
        return Absent;
      }
    }

    method SizeFM() returns (n: nat)
      requires Valid()
      ensures n == |Map()|
    {
      OneEntryPerKey(Contents(tree), kCmp);
      if root != null {
        n := SizeAvlNonNull(root, tree);
      } else {
        n := 0;
      }
    }
 
    // ------------------------------------------------------------- iterator

    /** The entries the traversal under way has yet to deliver. */
    ghost function Remaining(): seq<Entry<AvlNode<K, V>, K, V>>
      reads `stack
    {
      Pending(stack)
    }

    method StackClear()
      requires Valid()
      modifies this`stackTop, nodeStack, numStack
      ensures Valid() && stackTop == 0
    {
      assert allocated(Nodes(tree));
      for i := 0 to WFM_STKMAX
        invariant Valid()
      {
        nodeStack[i] := null;
        numStack[i] := 0;
      }
      stackTop := 0;
    }

    method StackPush(n: AvlNode<K, V>, i: int)
      requires Valid() && stackTop < WFM_STKMAX && 1 <= i <= 3
      modifies this`stackTop, nodeStack, numStack
      ensures Valid() && stackTop == old(stackTop) + 1
      ensures nodeStack[..stackTop] == old(nodeStack[..stackTop]) + [n]
      ensures numStack[..stackTop] == old(numStack[..stackTop]) + [i]
    {
      nodeStack[stackTop] := n;
      numStack[stackTop] := i;
      stackTop := stackTop + 1;
    }

    method StackPop() returns (ok: bool, n: AvlNode?<K, V>, i: int)
      requires Valid()
      modifies this`stackTop, nodeStack, numStack
      ensures Valid() && (ok <==> old(stackTop) > 0)
      ensures ok ==> stackTop == old(stackTop) - 1
                     && nodeStack[..stackTop] == old(nodeStack[..stackTop - 1]) && n == old(nodeStack[stackTop - 1])
                     && numStack[..stackTop] == old(numStack[..stackTop - 1]) && i == old(numStack[stackTop - 1])
      ensures !ok ==> stackTop == 0
    {
      if stackTop > 0 {
        stackTop := stackTop - 1;
        n := nodeStack[stackTop];
        i := numStack[stackTop];
        nodeStack[stackTop] := null;
        numStack[stackTop] := 0;
        ok := true;
      } else {
        ok, n, i := false, null, 0;
      }
    }

    /** Push a node under its tree value. */
    method PushFrame(n: AvlNode<K, V>, i: int, ghost t: NodeTree<K, V>)
      requires Started() && IsTree(n, t) && Nodes(t) <= Nodes(tree) && 1 <= i <= 3
      requires Depth(stack) < WFM_STKMAX
      modifies this`stackTop, this`stack, nodeStack, numStack
      ensures Started() && stack == Push(t, i, old(stack))
    {
      assert allocated(Nodes(tree));
      StackedDepth(nodeStack[..stackTop], numStack[..stackTop], stack, Nodes(tree));
      ghost var nodes, nums := nodeStack[..stackTop], numStack[..stackTop];
      StackPush(n, i);
      stack := Push(t, i, stack);
      assert nodeStack[..stackTop][..stackTop - 1] == nodes;
      assert numStack[..stackTop][..stackTop - 1] == nums;
    }

    /** Pop a node together with its tree value. */
    method PopFrame() returns (ok: bool, n: AvlNode?<K, V>, i: int)
      requires Iterating()
      modifies this`stackTop, this`stack, nodeStack, numStack
      ensures Iterating() && (ok <==> old(stack).Push?)
      ensures ok ==> stack == old(stack).below && i == old(stack).num
                     && IsTree(n, old(stack).t) && Nodes(old(stack).t) <= Nodes(tree)
      ensures !ok ==> stack == Empty && stackTop == 0
    {
      assert allocated(Nodes(tree));
      ghost var nodes, nums, s := nodeStack[..stackTop], numStack[..stackTop], stack;
      StackedDepth(nodes, nums, s, Nodes(tree));
      ok, n, i := StackPop();
      if ok {
        assert nodeStack[..stackTop] == nodes[..stackTop] && numStack[..stackTop] == nums[..stackTop];
        stack := s.below;
      }
    }

    /** The traversal starts before all entries; its stack has room to the end exactly if the
        tree is not too deep. */
    method InitIterFM()
      requires Valid()
      modifies this`stackTop, this`stack, nodeStack, numStack
      ensures Started() && Remaining() == Contents(tree)
      ensures Iterating() <==> LeftDepth(tree) <= WFM_STKMAX
    {
      assert allocated(Nodes(tree));
      StackClear();
      stack := Empty;
      if tree.Node? { assert Pending(Push(tree, 1, Empty)) == Contents(tree); }
      assert Fits(Start(tree, Empty), WFM_STKMAX) <==> LeftDepth(tree) <= WFM_STKMAX by { StartFits(tree, WFM_STKMAX); }
      if root != null {
        PushFrame(root, 1, tree);
      }
      assert stack == Start(tree, Empty);
    }

    /** The next key and value in order; Absent, with the stack empty, when there is none. */
    method NextIterFM() returns (kv: MaybeWord<(K, V)>)
      requires Iterating()
      modifies this`stackTop, this`stack, nodeStack, numStack
      ensures Iterating()
      ensures var r := old(Remaining());
              if r == [] then kv == Absent && stackTop == 0 && Remaining() == []
              else kv == Present((r[0].key, r[0].val)) && Remaining() == r[1..]
    {
      assert allocated(Nodes(tree));
      while true
        invariant Iterating() && Remaining() == old(Remaining())
        decreases Visits(stack)
      {
        ghost var s := stack;
        var ok, n, i := PopFrame();
        if !ok {
          return Absent;
        }
        StepDelivers(s);
        StepVisits(s);
        StepFits(s, WFM_STKMAX);
        if i == 1 {
          PushFrame(n, 2, s.t);
          if n.left != null {
            PushFrame(n.left, 1, s.t.left);
          }
          assert stack == Step(s);
        } else if i == 2 {
          PushFrame(n, 3, s.t);
          return Present((n.key, n.val));
        } else {
          if n.right != null {
            PushFrame(n.right, 1, s.t.right);
          }
          assert stack == Step(s);
        }
      }
    }
  }

  lemma {:induction false} StackedDepth<K, V>(nodes: seq<AvlNode?<K, V>>, nums: seq<int>,
                                              s: Stack<AvlNode<K, V>, K, V>, all: set<AvlNode<K, V>>)
    requires Stacked(nodes, nums, s, all)
    ensures |nodes| == |nums| == Depth(s)
  {
    if s.Push? { StackedDepth(nodes[..|nodes| - 1], nums[..|nums| - 1], s.below, all); }
  }
}
