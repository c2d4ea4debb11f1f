/** In-order traversal with an explicit stack, as WordFM's iterator does it, and how
    deep that stack gets: exactly the left depth of the tree, which for a balanced
    tree is bounded through the Fibonacci-like minimum size of a given height. */
module AvlIter {
  import opened AvlTree

  /** The iterator's stack: nodes, each with which of its three visits comes next. */
  datatype Stack<N, K, V> = Empty | Push(t: Tree<N, K, V>, num: int, below: Stack<N, K, V>)

  ghost predicate StackOk<N, K, V>(s: Stack<N, K, V>) {
    s.Push? ==> s.t.Node? && 1 <= s.num <= 3 && StackOk(s.below)
  }

  ghost function Depth<N, K, V>(s: Stack<N, K, V>): nat {
    if s.Empty? then 0 else 1 + Depth(s.below)
  }

  /** The entries a traversal with stack s has yet to deliver, in order. */
  ghost function Pending<N, K, V>(s: Stack<N, K, V>): seq<Entry<N, K, V>> {
    match s
    case Empty => []
    case Push(t, num, below) =>
      if num == 1 || t.Leaf? then Onto(t, Pending(below))
      else if num == 2 then [t.entry] + Onto(t.right, Pending(below))
      else Onto(t.right, Pending(below))
  }

  ghost function Start<N, K, V>(t: Tree<N, K, V>, below: Stack<N, K, V>): Stack<N, K, V> {
    if t.Node? then Push(t, 1, below) else below
  }

  /** The stack after its top has been popped and served. */
  ghost function Step<N, K, V>(s: Stack<N, K, V>): Stack<N, K, V>
    requires StackOk(s) && s.Push?
  {
    if s.num == 1 then Start(s.t.left, Push(s.t, 2, s.below))
    else if s.num == 2 then Push(s.t, 3, s.below)
    else Start(s.t.right, s.below)
  }

  lemma StartPends<N, K, V>(t: Tree<N, K, V>, below: Stack<N, K, V>)
    ensures Pending(Start(t, below)) == Onto(t, Pending(below))
  {
  }

  /** A visit delivers the next pending entry if it is a second visit, nothing otherwise. */
  lemma StepDelivers<N, K, V>(s: Stack<N, K, V>)
    requires StackOk(s) && s.Push?
    ensures StackOk(Step(s))
    ensures Pending(s) == (if s.num == 2 then [s.t.entry] else []) + Pending(Step(s))
  {
    if s.num == 1 {
      StartPends(s.t.left, Push(s.t, 2, s.below));
    } else if s.num == 3 {
      StartPends(s.t.right, s.below);
    }
  }

  // ------------------------------------------------------------ visit count

  ghost function TreeVisits<N, K, V>(t: Tree<N, K, V>): nat {
    match t
    case Leaf => 0
    case Node(l, _, _, r) => 3 + TreeVisits(l) + TreeVisits(r)
  }

  ghost function Visits<N, K, V>(s: Stack<N, K, V>): nat
    requires StackOk(s)
  {
    match s
    case Empty => 0
    case Push(t, num, below) => (if num == 1 then TreeVisits(t) else 4 - num + TreeVisits(t.right)) + Visits(below)
  }

  /** Every step uses up one visit. */
  lemma StepVisits<N, K, V>(s: Stack<N, K, V>)
    requires StackOk(s) && s.Push?
    ensures StackOk(Step(s)) && Visits(Step(s)) == Visits(s) - 1
  {
    var second := Push(s.t, 2, s.below);
    assert Visits(Start(s.t.left, second)) == TreeVisits(s.t.left) + Visits(second);
    assert Visits(Start(s.t.right, s.below)) == TreeVisits(s.t.right) + Visits(s.below);
  }

  // ------------------------------------------------------------ stack depth

  /** One more than the largest number of left turns on a path to a node. */
  ghost function LeftDepth<N, K, V>(t: Tree<N, K, V>): (d: nat)
    ensures d <= Height(t) && (d == 0 <==> t.Leaf?)
  {
    match t
    case Leaf => 0
    case Node(l, _, _, r) => if LeftDepth(l) + 1 < LeftDepth(r) then LeftDepth(r) else LeftDepth(l) + 1
  }

  /** The traversal never needs more than max stack cells from here on. */
  ghost predicate Fits<N, K, V>(s: Stack<N, K, V>, max: nat)
    requires StackOk(s)
  {
    match s
    case Empty => true
    case Push(t, num, below) =>
      && Fits(below, max) && Depth(s) <= max
      && Depth(below) + LeftDepth(if num == 1 then t else t.right) <= max
  }

  lemma StepFits<N, K, V>(s: Stack<N, K, V>, max: nat)
    requires StackOk(s) && s.Push? && Fits(s, max)
    ensures StackOk(Step(s)) && Fits(Step(s), max)
  {
  }

  lemma StartFits<N, K, V>(t: Tree<N, K, V>, max: nat)
    requires max > 0
    ensures Fits(Start(t, Empty), max) <==> LeftDepth(t) <= max
  {
    var none: Stack<N, K, V> := Empty;
    assert Fits(none, max) && Depth(none) == 0;
    if t.Node? { assert Depth(Push(t, 1, none)) == 1; }
  }

  ghost function Run<N, K, V>(s: Stack<N, K, V>, n: nat): (u: Stack<N, K, V>)
    requires StackOk(s)
    ensures StackOk(u)
    decreases n
  {
    if n == 0 || s.Empty? then s else Run(Step(s), n - 1)
  }

  lemma {:induction false} RunFits<N, K, V>(s: Stack<N, K, V>, n: nat, max: nat)
    requires StackOk(s) && Fits(s, max)
    ensures Depth(Run(s, n)) <= max
    decreases n
  {
    if n > 0 && s.Push? {
      StepFits(s, max);
      RunFits(Step(s), n - 1, max);
    }
  }

  lemma {:induction false} RunTwice<N, K, V>(s: Stack<N, K, V>, m: nat, n: nat)
    requires StackOk(s)
    ensures Run(s, m + n) == Run(Run(s, m), n)
    decreases m
  {
    if m > 0 && s.Push? { RunTwice(Step(s), m - 1, n); }
  }

  /** A subtree on top of the stack is traversed completely, leaving what was below it. */
  lemma {:induction false} RunSubtree<N, K, V>(t: Tree<N, K, V>, below: Stack<N, K, V>)
    requires StackOk(below)
    ensures Run(Start(t, below), TreeVisits(t)) == below
    decreases t, 1
  {
    if t.Node? {
      RunSubtree(t.right, below);
      RunToRight(t, below, TreeVisits(t.right));
      assert TreeVisits(t) == 1 + (TreeVisits(t.left) + (2 + TreeVisits(t.right)));
    }
  }

  lemma GoLeft<N, K, V>(t: Tree<N, K, V>, below: Stack<N, K, V>, n: nat)
    requires StackOk(below) && t.Node?
    ensures Run(Start(t, below), 1 + n) == Run(Start(t.left, Push(t, 2, below)), n)
  {
  }

  lemma GoRight<N, K, V>(t: Tree<N, K, V>, below: Stack<N, K, V>, n: nat)
    requires StackOk(below) && t.Node?
    ensures Run(Push(t, 2, below), 2 + n) == Run(Start(t.right, below), n)
  {
    assert Run(Push(t, 2, below), 2 + n) == Run(Push(t, 3, below), 1 + n);
  }

  /** When the left subtree is done, the right one is started. */
  lemma {:induction false} RunToRight<N, K, V>(t: Tree<N, K, V>, below: Stack<N, K, V>, n: nat)
    requires StackOk(below) && t.Node?
    ensures Run(Start(t, below), 1 + (TreeVisits(t.left) + (2 + n))) == Run(Start(t.right, below), n)
    decreases t, 0
  {
    hide Run;
    var l, second := TreeVisits(t.left), Push(t, 2, below);
    GoLeft(t, below, l + (2 + n));
    RunSubtree(t.left, second);
    RunTwice(Start(t.left, second), l, 2 + n);
    GoRight(t, below, n);
  }

  /** The traversal of t does reach a stack that is LeftDepth(t) deep. */
  lemma {:induction false} RunReaches<N, K, V>(t: Tree<N, K, V>, below: Stack<N, K, V>) returns (n: nat)
    requires StackOk(below)
    ensures Depth(Run(Start(t, below), n)) == Depth(below) + LeftDepth(t)
    decreases t
  {
    var second := Push(t, 2, below);
    if t.Leaf? || LeftDepth(t) == 1 {
      n := 0;
    } else if LeftDepth(t) == LeftDepth(t.left) + 1 {
      n := RunReaches(t.left, second);
      GoLeft(t, below, n);
      n := 1 + n;
    } else {
      n := RunReaches(t.right, below);
      RunToRight(t, below, n);
      n := 1 + (TreeVisits(t.left) + (2 + n));
    }
  }

  /** A stack of max cells suffices for the whole traversal of t exactly when LeftDepth(t) <= max. */
  lemma StackSuffices<N, K, V>(t: Tree<N, K, V>, max: nat)
    ensures (forall n: nat :: Depth(Run(Start(t, Empty), n)) <= max) <==> LeftDepth(t) <= max
  {
    if LeftDepth(t) <= max {
      forall n: nat ensures Depth(Run(Start(t, Empty), n)) <= max { RunFits(Start(t, Empty), n, max); }
    } else {
      var n := RunReaches(t, Empty);
      assert Depth(Run(Start(t, Empty), n)) > max;
    }
  }

  // ------------------------------------------------- how many nodes are safe

  /** The fewest entries a balanced tree of height h can hold. */
  function MinSize(h: nat): nat {
    if h == 0 then 0 else if h == 1 then 1 else MinSize(h - 1) + MinSize(h - 2) + 1
  }

  lemma {:induction false} MinSizeMonotone(g: nat, h: nat)
    requires g <= h
    ensures MinSize(g) <= MinSize(h)
    decreases h
  {
    if g < h { MinSizeMonotone(g, h - 1); }
  }

  lemma {:induction false} AtLeastMinSize<N, K, V>(t: Tree<N, K, V>)
    requires Balanced(t)
    ensures MinSize(Height(t)) <= |Contents(t)|
  {
    if t.Node? {
      AtLeastMinSize(t.left);
      AtLeastMinSize(t.right);
      ContentsNode(t);
      var l, r, h := Height(t.left), Height(t.right), Height(t);
      if h >= 2 {
        MinSizeMonotone(h - 2, l);
        MinSizeMonotone(h - 2, r);
      }
    }
  }

  /** The iterator's stack size in the source. */
  const WFM_STKMAX := 32

  lemma MinSize33()
    ensures MinSize(WFM_STKMAX + 1) == 9227464
  {
    assert MinSize(8) == 54 && MinSize(9) == 88;
    assert MinSize(16) == 2583 && MinSize(17) == 4180;
    assert MinSize(24) == 121392 && MinSize(25) == 196417;
    assert MinSize(32) == 5702886;
  }

  /** Fewer than 9,227,464 entries: the iterator's stack cannot overflow. */
  lemma SmallMapsFit<N, K, V>(t: Tree<N, K, V>)
    requires Balanced(t) && |Contents(t)| < 9227464
    ensures LeftDepth(t) <= WFM_STKMAX
  {
    AtLeastMinSize(t);
    MinSize33();
    if Height(t) > WFM_STKMAX { MinSizeMonotone(WFM_STKMAX + 1, Height(t)); }
  }

  /** The smallest balanced tree of height h, leaning left, with keys from, from + 1, ... */
  ghost function LeftLeaning(h: nat, from: int): Tree<int, int, int> {
    if h == 0 then Leaf
    else if h == 1 then Node(Leaf, Entry(from, from, 0), 0, Leaf)
    else
      var mid := from + MinSize(h - 1);
      Node(LeftLeaning(h - 1, from), Entry(mid, mid, 0), -1, LeftLeaning(h - 2, mid + 1))
  }

  lemma {:induction false} LeftLeaningShape(h: nat, from: int)
    ensures var t := LeftLeaning(h, from);
            Balanced(t) && Height(t) == h && LeftDepth(t) == h
  {
    if h >= 2 {
      LeftLeaningShape(h - 1, from);
      LeftLeaningShape(h - 2, from + MinSize(h - 1) + 1);
    }
  }

  lemma {:induction false} LeftLeaningKeys(h: nat, from: int)
    ensures var s := Contents(LeftLeaning(h, from));
            |s| == MinSize(h) && forall i :: 0 <= i < |s| ==> s[i].key == from + i
  {
    hide Onto, Height, Balanced, LeftDepth;
    var t := LeftLeaning(h, from);
    if h > 0 {
      ContentsNode(t);
      if h == 1 {
        LeftLeaningKeys(0, from);
      } else {
        var m := MinSize(h - 1);
        LeftLeaningKeys(h - 1, from);
        LeftLeaningKeys(h - 2, from + m + 1);
        Consecutive(Contents(t.left), t.entry, Contents(t.right), from);
      }
    } else {
      EmptyContents(t);
    }
  }

  lemma EmptyContents<N, K, V>(t: Tree<N, K, V>)
    requires t.Leaf?
    ensures Contents(t) == []
  {
  }

  lemma Consecutive(l: seq<Entry<int, int, int>>, e: Entry<int, int, int>, r: seq<Entry<int, int, int>>, from: int)
    requires forall i :: 0 <= i < |l| ==> l[i].key == from + i
    requires e.key == from + |l|
    requires forall i :: 0 <= i < |r| ==> r[i].key == from + |l| + 1 + i
    ensures forall i :: 0 <= i < |l + [e] + r| ==> (l + [e] + r)[i].key == from + i
  {
  }

  function CompareInts(a: int, b: int): int {
    if a < b then -1 else if a > b then 1 else 0
  }

  /** The bound is exact: some valid map with 9,227,464 entries overflows the stack. */
  lemma OverflowAt9227464() returns (t: Tree<int, int, int>, n: nat)
    ensures Avl(t, CompareInts) && |Contents(t)| == 9227464
    ensures Depth(Run(Start(t, Empty), n)) > WFM_STKMAX
  {
    hide LeftLeaning, Contents, MinSize, Height, Balanced, LeftDepth, Run;
    var h := WFM_STKMAX + 1;
    t := LeftLeaning(h, 0);
    LeftLeaningShape(h, 0);
    LeftLeaningKeys(h, 0);
    MinSize33();
    n := RunReaches(t, Empty);
  }
}
