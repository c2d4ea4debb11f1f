/** Cachegrind profiles on the heap: count vectors owned by line maps, line maps owned
    by the file map, and the merge that keeps two such structures apart. */
module CacheProf {
  import opened AvlTree
  import opened AvlNodes
  import opened AvlMap
  import opened AvlIter
  import opened WordFMs
  import opened Profile

  // ------------------------------------------------------------------- keys

  function CompareUWord(a: UWord, b: UWord): int {
    if a < b then -1 else if a > b then 1 else 0
  }

  /** Line numbers are ordered by size. */
  lemma UWordOrder()
    ensures TotalOrder(CompareUWord)
    ensures forall a: UWord, b: UWord :: CompareUWord(a, b) < 0 <==> a < b
  {
  }

  /** strcmp on strings as sequences of characters, the terminator ordered first. */
  function Strcmp(s: string, t: string): int {
    if s == [] && t == [] then 0
    else if s == [] then -1
    else if t == [] then 1
    else if s[0] != t[0] then s[0] as int - t[0] as int
    else Strcmp(s[1..], t[1..])
  }

  function CompareFileFn(a: FileFn, b: FileFn): int {
    var r := Strcmp(a.fi, b.fi);
    if r == 0 then Strcmp(a.fn, b.fn) else r
  }

  lemma {:induction false} StrcmpEqual(s: string, t: string)
    ensures Strcmp(s, t) == 0 <==> s == t
    ensures Strcmp(s, t) < 0 <==> Strcmp(t, s) > 0
  {
    if s != [] && t != [] && s[0] == t[0] {
      StrcmpEqual(s[1..], t[1..]);
      assert s == [s[0]] + s[1..] && t == [t[0]] + t[1..];
    }
  }

  lemma {:induction false} StrcmpTransitive(s: string, t: string, u: string)
    requires Strcmp(s, t) < 0 && Strcmp(t, u) < 0
    ensures Strcmp(s, u) < 0
  {
    if s != [] && t != [] && u != [] && s[0] == t[0] == u[0] {
      StrcmpTransitive(s[1..], t[1..], u[1..]);
    }
  }

  predicate Differ(s: string, t: string, i: nat) {
    i < |s| && i < |t| && s[..i] == t[..i] && s[i] < t[i]
  }

  /** s comes first: it is a proper beginning of t, or has the smaller character where they first
      differ. */
  predicate ComesBefore(s: string, t: string) {
    (|s| < |t| && s == t[..|s|]) || (exists i: nat :: i < |s| && Differ(s, t, i))
  }

  lemma DifferCons(x: char, s: string, t: string, i: nat)
    ensures Differ([x] + s, [x] + t, i + 1) <==> Differ(s, t, i)
  {
    if i < |s| && i < |t| {
      assert ([x] + s)[..i + 1] == [x] + s[..i] && ([x] + t)[..i + 1] == [x] + t[..i];
      assert ([x] + s)[..i + 1][1..] == s[..i] && ([x] + t)[..i + 1][1..] == t[..i];
    }
  }

  lemma BeforeCons(x: char, s: string, t: string)
    ensures ComesBefore([x] + s, [x] + t) <==> ComesBefore(s, t)
  {
    hide Differ;
    var u, v := [x] + s, [x] + t;
    if |s| < |t| {
      assert v[..|u|] == [x] + t[..|s|] && v[..|u|][1..] == t[..|s|] && u[1..] == s;
    }
    assert !Differ(u, v, 0) by { SameFirst(x, s, t); }
    forall i: nat
      ensures Differ(u, v, i + 1) <==> Differ(s, t, i)
    {
      DifferCons(x, s, t, i);
    }
    if i: nat :| i < |u| && Differ(u, v, i) { assert Differ(s, t, i - 1); }
    if i: nat :| i < |s| && Differ(s, t, i) { assert Differ(u, v, i + 1); }
  }

  lemma SameFirst(x: char, s: string, t: string)
    ensures !Differ([x] + s, [x] + t, 0)
  {
  }

  lemma {:induction false} StrcmpIs(s: string, t: string)
    ensures Strcmp(s, t) < 0 <==> ComesBefore(s, t)
  {
    if s == [] || t == [] {
    } else if s[0] == t[0] {
      hide ComesBefore;
      StrcmpIs(s[1..], t[1..]);
      BeforeCons(s[0], s[1..], t[1..]);
      assert s == [s[0]] + s[1..] && t == [t[0]] + t[1..];
    } else {
      FirstDiffers(s, t);
    }
  }

  lemma FirstDiffers(s: string, t: string)
    requires s != [] && t != [] && s[0] != t[0]
    ensures ComesBefore(s, t) <==> s[0] < t[0]
  {
    assert s[..0] == t[..0];
    assert Differ(s, t, 0) <==> s[0] < t[0];
    if ComesBefore(s, t) && !Differ(s, t, 0) { SameStart(s, t); }
  }

  lemma SameStart(s: string, t: string)
    requires s != [] && t != [] && ComesBefore(s, t) && !Differ(s, t, 0)
    ensures s[0] == t[0]
  {
    if i: nat :| i < |s| && Differ(s, t, i) { assert s[..i][0] == t[..i][0]; }
  }

  /** Files are ordered by name, and functions of a file by theirs. */
  lemma FileFnOrderIs(a: FileFn, b: FileFn)
    ensures CompareFileFn(a, b) < 0 <==> ComesBefore(a.fi, b.fi) || (a.fi == b.fi && ComesBefore(a.fn, b.fn))
  {
    hide Strcmp, ComesBefore;
    StrcmpEqual(a.fi, b.fi);
    StrcmpIs(a.fi, b.fi);
    StrcmpIs(a.fn, b.fn);
    if a.fi == b.fi { BeforeNotSelf(a.fi); }
  }

  lemma BeforeNotSelf(s: string)
    ensures !ComesBefore(s, s)
  {
  }

  lemma FileFnOrder()
    ensures TotalOrder(CompareFileFn)
  {
    forall a, b: FileFn
      ensures CompareFileFn(a, b) == 0 <==> a == b
      ensures CompareFileFn(a, b) < 0 <==> CompareFileFn(b, a) > 0
    {
      StrcmpEqual(a.fi, b.fi);
      StrcmpEqual(b.fi, a.fi);
      StrcmpEqual(a.fn, b.fn);
    }
    forall a, b, c: FileFn | CompareFileFn(a, b) < 0 && CompareFileFn(b, c) < 0
      ensures CompareFileFn(a, c) < 0
    {
      StrcmpEqual(a.fi, b.fi);
      StrcmpEqual(b.fi, c.fi);
      if a.fi == b.fi {
        if b.fi == c.fi { StrcmpTransitive(a.fn, b.fn, c.fn); }
      } else if b.fi != c.fi {
        StrcmpTransitive(a.fi, b.fi, c.fi);
      }
    }
  }

  // ---------------------------------------------------------- count vectors

  class Counts {
    const n_counts: nat
    const counts: array<ULong>

    ghost predicate Valid() {
      counts.Length == n_counts
    }

    constructor (v: seq<ULong>)
      ensures Valid() && n_counts == |v| && counts[..] == v
      ensures fresh(counts)
    {
      n_counts := |v|;
      counts := new ULong[|v|](i requires 0 <= i < |v| => v[i]);
    }

    constructor Zeroed(n: nat)
      ensures Valid() && n_counts == n && counts[..] == seq(n, _ => 0)
      ensures fresh(counts)
    {
      n_counts := n;
      counts := new ULong[n](_ => 0);
    }
  }

  method DopyCounts(cts: Counts) returns (nyu: Counts)
    requires cts.Valid()
    ensures nyu.Valid() && nyu.n_counts == cts.n_counts && nyu.counts[..] == cts.counts[..]
    ensures fresh(nyu) && fresh(nyu.counts)
  {
    nyu := new Counts(cts.counts[..]);
  }

  /** Add counts2 into counts1 column by column; refused if their lengths differ. */
  method AddCountsInto(counts1: Counts, counts2: Counts) returns (ok: bool)
    requires counts1.Valid() && counts2.Valid()
    modifies counts1.counts
    ensures ok <==> counts1.n_counts == counts2.n_counts
    ensures ok ==> counts1.counts[..] == AddVec(old(counts1.counts[..]), old(counts2.counts[..]))
    ensures !ok ==> counts1.counts[..] == old(counts1.counts[..])
  {
    if counts1.n_counts != counts2.n_counts {
      return false;
    }
    for i := 0 to counts1.n_counts
      invariant forall j :: 0 <= j < i ==> counts1.counts[j] == AddULong(old(counts1.counts[j]), old(counts2.counts[j]))
      invariant forall j :: i <= j < counts1.n_counts ==> counts1.counts[j] == old(counts1.counts[j])
      invariant counts1.counts != counts2.counts ==> counts2.counts[..] == old(counts2.counts[..])
    {
      counts1.counts[i] := AddULong(counts1.counts[i], counts2.counts[i]);
    }
    ok := true;
  }

  // --------------------------------------------------------------- line maps

  type InnerMap = WordFM<UWord, Counts>

  /** The vectors a line map owns. */
  ghost function ArraysOf(t: map<UWord, Counts>): set<array<ULong>> {
    set l | l in t :: t[l].counts
  }

  ghost function LinesIn(t: map<UWord, Counts>): Lines
    reads ArraysOf(t)
  {
    map l | l in t :: t[l].counts[..]
  }

  /** Every line has its own vector of length n. */
  ghost predicate OwnVectors(t: map<UWord, Counts>, n: nat) {
    && (forall l :: l in t ==> t[l].Valid() && t[l].n_counts == n)
    && (forall l, j :: l in t && j in t && l != j ==> t[l].counts != t[j].counts)
  }

  lemma OwnOneMore(t: map<UWord, Counts>, l: UWord, cts: Counts, n: nat)
    requires OwnVectors(t, n) && l !in t && cts.Valid() && cts.n_counts == n && cts.counts !in ArraysOf(t)
    ensures OwnVectors(t[l := cts], n) && ArraysOf(t[l := cts]) == ArraysOf(t) + {cts.counts}
    ensures LinesIn(t[l := cts]) == LinesIn(t)[l := cts.counts[..]]
  {
    var u := t[l := cts];
    assert forall j :: j in t ==> t[j].counts in ArraysOf(t) && u[j] == t[j];
    assert u[l].counts in ArraysOf(u) && forall j :: j in t ==> u[j].counts in ArraysOf(u);
  }

  ghost function Arrays(m: InnerMap): set<array<ULong>>
    reads m`tree
  {
    ArraysOf(m.Map())
  }

  ghost function InnerRepr(m: InnerMap): set<object>
    reads m`tree
  {
    m.Repr() + Arrays(m)
  }

  /** An intact line map whose lines own pairwise different vectors of length n. */
  ghost predicate InnerSound(m: InnerMap, n: nat)
    reads m`root, m`tree, Nodes(m.tree)
  {
    m.Sound() && m.kCmp == CompareUWord && OwnVectors(m.Map(), n) && Arrays(m) !! {m.numStack as object}
  }

  ghost predicate InnerOk(m: InnerMap, n: nat)
    reads m, Nodes(m.tree)
  {
    InnerSound(m, n) && m.Valid()
  }

  ghost function LinesOf(m: InnerMap): Lines
    reads m`tree, Arrays(m)
  {
    LinesIn(m.Map())
  }

  /** Record the counts under a line that is new to the map. */
  method AddLineCounts(m: InnerMap, lnno: UWord, cts: Counts)
    requires InnerOk(m, cts.n_counts) && cts.Valid() && lnno !in m.Map()
    requires cts.counts !in InnerRepr(m)
    modifies m`root, m`tree, Nodes(m.tree)
    ensures InnerOk(m, cts.n_counts)
    ensures LinesOf(m) == old(LinesOf(m))[lnno := cts.counts[..]]
    ensures Arrays(m) == old(Arrays(m)) + {cts.counts} && fresh(Nodes(m.tree) - old(Nodes(m.tree)))
  {
    hide Avl, IsTree, Bindings, OwnVectors, ArraysOf, LinesIn;
    assert allocated(Nodes(m.tree)) && allocated(m.Map()) && allocated(Arrays(m));
    ghost var before := m.Map();
    m.AddToFM(lnno, cts);
    OwnOneMore(before, lnno, cts, cts.n_counts);
  }

  /** Add the counts to those of a line the map has. */
  method MergeLineCounts(m: InnerMap, ghost lnno: UWord, diVal: Counts, cts: Counts)
    requires InnerOk(m, cts.n_counts) && cts.Valid() && lnno in m.Map() && diVal == m.Map()[lnno]
    requires cts.counts != diVal.counts
    modifies diVal.counts
    ensures unchanged(m) && InnerOk(m, cts.n_counts)
    ensures LinesOf(m) == old(LinesOf(m))[lnno := AddVec(old(LinesOf(m))[lnno], cts.counts[..])]
  {
    hide Avl, IsTree, Bindings, AddVec;
    assert allocated(Nodes(m.tree)) && allocated(m.Map());
    var ok := AddCountsInto(diVal, cts);
  }

  /** Give lnno the counts: merged into its vector if it has one, else newCounts itself. */
  method AddCountsToMap(m: InnerMap, lnno: UWord, newCounts: Counts) returns (merged: bool)
    requires InnerOk(m, newCounts.n_counts) && newCounts.Valid()
    requires newCounts.counts !in InnerRepr(m)
    modifies InnerRepr(m)
    ensures InnerOk(m, newCounts.n_counts)
    ensures LinesOf(m) == AddLine(old(LinesOf(m)), lnno, newCounts.counts[..], newCounts.n_counts)
    ensures forall o :: o in InnerRepr(m) ==> o in old(InnerRepr(m)) || fresh(o) || (!merged && o == newCounts.counts)
    ensures m.stackTop == old(m.stackTop) && (merged <==> lnno in old(m.Map()))
  {
    hide Avl, IsTree, Bindings, AddVec;
    assert allocated(Nodes(m.tree)) && allocated(m.Map());
    var oldCounts := m.LookupFM(lnno);
    if oldCounts.Present? {
      MergeLineCounts(m, lnno, oldCounts.w, newCounts);
      merged := true;
      assert Nodes(m.tree) == old(Nodes(m.tree));
    } else {
      label L:
      AddLineCounts(m, lnno, newCounts);
      assert forall o :: o in Nodes(m.tree) ==> o in old(Nodes(m.tree)) || fresh@L(o);
      merged := false;
    }
  }

  // -------------------------------------------------------------- deep copy

  /** Same keys and balances in the same places. */
  ghost predicate SameShape(t: NodeTree<UWord, Counts>, u: NodeTree<UWord, Counts>) {
    match t
    case Leaf => u.Leaf?
    case Node(l, e, b, r) =>
      u.Node? && u.entry.key == e.key && u.balance == b && SameShape(l, u.left) && SameShape(r, u.right)
  }

  lemma {:induction false} SameShapeKeys(t: NodeTree<UWord, Counts>, u: NodeTree<UWord, Counts>)
    requires SameShape(t, u)
    ensures Height(u) == Height(t) && (Balanced(t) ==> Balanced(u))
    ensures |Contents(u)| == |Contents(t)|
    ensures forall i :: 0 <= i < |Contents(t)| ==> Contents(u)[i].key == Contents(t)[i].key
  {
    if t.Node? {
      SameShapeKeys(t.left, u.left);
      SameShapeKeys(t.right, u.right);
      ContentsNode(t);
      ContentsNode(u);
      SameKeysJoined(Contents(t.left), t.entry, Contents(t.right), Contents(u.left), u.entry, Contents(u.right));
    }
  }

  lemma SameKeysJoined<N, K, V>(a: seq<Entry<N, K, V>>, e: Entry<N, K, V>, b: seq<Entry<N, K, V>>,
                                c: seq<Entry<N, K, V>>, f: Entry<N, K, V>, d: seq<Entry<N, K, V>>)
    requires |a| == |c| && |b| == |d| && e.key == f.key
    requires forall i :: 0 <= i < |a| ==> a[i].key == c[i].key
    requires forall i :: 0 <= i < |b| ==> b[i].key == d[i].key
    ensures forall i :: 0 <= i < |a + [e] + b| ==> (a + [e] + b)[i].key == (c + [f] + d)[i].key
  {
  }

  lemma BindingsNode<N, K, V>(t: Tree<N, K, V>)
    requires t.Node?
    ensures Bindings(t) == Bindings(t.left) + map[t.entry.key := t.entry.val] + Bindings(t.right)
  {
    ContentsNode(t);
    MapOfAppend(Contents(t.left) + [t.entry], Contents(t.right));
    MapOfAppend(Contents(t.left), [t.entry]);
    MapOfOne(t.entry);
  }

  lemma OwnJoined(a: map<UWord, Counts>, k: UWord, v: Counts, b: map<UWord, Counts>, n: nat)
    requires OwnVectors(a, n) && OwnVectors(b, n) && v.Valid() && v.n_counts == n
    requires v.counts !in ArraysOf(a) && v.counts !in ArraysOf(b) && ArraysOf(a) !! ArraysOf(b)
    ensures OwnVectors(a + map[k := v] + b, n)
    ensures ArraysOf(a + map[k := v] + b) <= ArraysOf(a) + {v.counts} + ArraysOf(b)
  {
    assert forall l :: l in a ==> a[l].counts in ArraysOf(a);
    assert forall l :: l in b ==> b[l].counts in ArraysOf(b);
  }

  lemma LinesJoined(a: map<UWord, Counts>, k: UWord, v: Counts, b: map<UWord, Counts>)
    ensures LinesIn(a + map[k := v] + b) == LinesIn(a) + map[k := v.counts[..]] + LinesIn(b)
  {
  }

  ghost predicate ValsOk(t: NodeTree<UWord, Counts>, n: nat) {
    t.Node? ==> t.entry.val.Valid() && t.entry.val.n_counts == n && ValsOk(t.left, n) && ValsOk(t.right, n)
  }

  lemma EmptyCopy(t: NodeTree<UWord, Counts>, n: nat)
    requires t.Leaf?
    ensures OwnVectors(Bindings(t), n) && ArraysOf(Bindings(t)) == {}
  {
  }

  lemma NodeCopied(t: NodeTree<UWord, Counts>, u: NodeTree<UWord, Counts>, n: nat)
    requires t.Node? && u.Node? && t.entry.key == u.entry.key
    requires OwnVectors(Bindings(u.left), n) && OwnVectors(Bindings(u.right), n)
    requires u.entry.val.Valid() && u.entry.val.n_counts == n
    requires u.entry.val.counts !in ArraysOf(Bindings(u.left)) && u.entry.val.counts !in ArraysOf(Bindings(u.right))
    requires ArraysOf(Bindings(u.left)) !! ArraysOf(Bindings(u.right))
    requires LinesIn(Bindings(u.left)) == LinesIn(Bindings(t.left))
             && LinesIn(Bindings(u.right)) == LinesIn(Bindings(t.right))
    requires u.entry.val.counts[..] == t.entry.val.counts[..]
    ensures OwnVectors(Bindings(u), n) && LinesIn(Bindings(u)) == LinesIn(Bindings(t))
    ensures ArraysOf(Bindings(u)) <= ArraysOf(Bindings(u.left)) + {u.entry.val.counts} + ArraysOf(Bindings(u.right))
  {
    hide Bindings, OwnVectors, ArraysOf, LinesIn;
    BindingsNode(t);
    BindingsNode(u);
    OwnJoined(Bindings(u.left), u.entry.key, u.entry.val, Bindings(u.right), n);
    LinesJoined(Bindings(u.left), u.entry.key, u.entry.val, Bindings(u.right));
    LinesJoined(Bindings(t.left), t.entry.key, t.entry.val, Bindings(t.right));
  }

  /** A copy of one node and of its vector, without its subtrees. */
  method CopyNode(nd: AvlNode<UWord, Counts>) returns (nyu: AvlNode<UWord, Counts>)
    requires nd.val.Valid()
    ensures fresh(nyu) && fresh(nyu.val) && fresh(nyu.val.counts)
    ensures nyu.key == nd.key && nyu.balance == nd.balance
    ensures nyu.val.Valid() && nyu.val.n_counts == nd.val.n_counts && nyu.val.counts[..] == nd.val.counts[..]
  {
    var v := DopyCounts(nd.val);
    nyu := new AvlNode(nd.key, v);
    nyu.balance := nd.balance;
  }

  /** Hang the copied subtrees below the copied node. */
  method AttachCopies(node: AvlNode<UWord, Counts>, left: AvlNode?<UWord, Counts>, right: AvlNode?<UWord, Counts>,
          n: nat,
                      ghost t: NodeTree<UWord, Counts>, ghost u: NodeTree<UWord, Counts>)
    requires t.Node? && u.Node? && Holds(node, u.entry, u.balance) && IsTree(left, u.left) && IsTree(right, u.right)
    requires node !in Nodes(u.left) && node !in Nodes(u.right) && Nodes(u.left) !! Nodes(u.right)
    requires t.entry.key == u.entry.key && u.entry.val.Valid() && u.entry.val.n_counts == n
    requires OwnVectors(Bindings(u.left), n) && OwnVectors(Bindings(u.right), n)
    requires u.entry.val.counts !in ArraysOf(Bindings(u.left)) && u.entry.val.counts !in ArraysOf(Bindings(u.right))
    requires ArraysOf(Bindings(u.left)) !! ArraysOf(Bindings(u.right))
    requires LinesIn(Bindings(u.left)) == LinesIn(Bindings(t.left))
             && LinesIn(Bindings(u.right)) == LinesIn(Bindings(t.right))
    requires u.entry.val.counts[..] == t.entry.val.counts[..]
    modifies node`left, node`right
    ensures IsTree(node, u) && OwnVectors(Bindings(u), n) && LinesIn(Bindings(u)) == LinesIn(Bindings(t))
    ensures ArraysOf(Bindings(u)) <= ArraysOf(Bindings(u.left)) + {u.entry.val.counts} + ArraysOf(Bindings(u.right))
  {
    hide Bindings, OwnVectors, ArraysOf, LinesIn;
    assert allocated(ArraysOf(Bindings(t.left))) && allocated(ArraysOf(Bindings(t.right)));
    assert allocated(ArraysOf(Bindings(u.left))) && allocated(ArraysOf(Bindings(u.right)));
    node.left := left;
    node.right := right;
    assert IsTree(node, u);
    NodeCopied(t, u, n);
  }

  /** A copy of the tree and of every vector in it. */
  method AvlDopy(nd: AvlNode?<UWord, Counts>, n: nat, ghost t: NodeTree<UWord, Counts>)
    returns (nyu: AvlNode?<UWord, Counts>, ghost u: NodeTree<UWord, Counts>)
    requires IsTree(nd, t) && ValsOk(t, n)
    ensures IsTree(nyu, u) && SameShape(t, u) && OwnVectors(Bindings(u), n)
    ensures fresh(Nodes(u)) && fresh(ArraysOf(Bindings(u)))
    ensures LinesIn(Bindings(u)) == LinesIn(Bindings(t))
    decreases t
  {
    hide Bindings, OwnVectors, ArraysOf, LinesIn;
    if nd == null {
      EmptyCopy(t, n);
      return null, Leaf;
    }
    assert allocated(ArraysOf(Bindings(t.left))) && allocated(ArraysOf(Bindings(t.right))) && allocated(Nodes(t));
    var node := CopyNode(nd);
    var left, l := AvlDopy(nd.left, n, t.left);
    assert allocated(Nodes(l)) && allocated(ArraysOf(Bindings(l)));
    var right, r := AvlDopy(nd.right, n, t.right);
    nyu := node;
    u := Node(l, Entry(node, nd.key, node.val), nd.balance, r);
    AttachCopies(node, left, right, n, t, u);
  }

  lemma {:induction false} ValsFromContents(t: NodeTree<UWord, Counts>, n: nat)
    requires forall e :: e in Contents(t) ==> e.val.Valid() && e.val.n_counts == n
    ensures ValsOk(t, n)
  {
    if t.Node? {
      ContentsNode(t);
      ValsFromContents(t.left, n);
      ValsFromContents(t.right, n);
    }
  }

  lemma InnerVals(m: InnerMap, n: nat)
    requires InnerOk(m, n)
    ensures ValsOk(m.tree, n)
  {
    forall e | e in Contents(m.tree) ensures e.val.Valid() && e.val.n_counts == n {
      var i :| 0 <= i < |Contents(m.tree)| && Contents(m.tree)[i] == e;
      EntryIsBinding(Contents(m.tree), i, m.kCmp);
    }
    ValsFromContents(m.tree, n);
  }

  lemma SameShapeAvl(t: NodeTree<UWord, Counts>, u: NodeTree<UWord, Counts>, cmp: (UWord, UWord) -> int)
    requires SameShape(t, u) && Avl(t, cmp)
    ensures Avl(u, cmp)
  {
    SameShapeKeys(t, u);
  }

  /** A line map that shares neither nodes nor vectors with m.  Not while m is iterated on. */
  method DopyInnerMap(m: InnerMap, n: nat) returns (nyu: InnerMap)
    requires InnerOk(m, n) && m.stackTop == 0
    modifies m`stackTop, m.nodeStack, m.numStack
    ensures InnerOk(nyu, n) && nyu.stackTop == 0 && fresh(InnerRepr(nyu))
    ensures LinesOf(nyu) == old(LinesOf(m)) && SameShape(m.tree, nyu.tree)
    ensures InnerOk(m, n) && m.stackTop == 0 && LinesOf(m) == old(LinesOf(m))
  {
    hide Avl, IsTree, TotalOrder, OwnVectors, LinesIn, ArraysOf, Bindings, SameShape, CompareUWord, Nodes,
         Contents, ValsOk;
    assert allocated(Nodes(m.tree)) && allocated(Arrays(m));
    InnerVals(m, n);
    assert TotalOrder(CompareUWord) by { UWordOrder(); }
    nyu := new WordFM(CompareUWord);
    m.StackClear();
    ghost var u;
    nyu.root, u := AvlDopy(m.root, n, m.tree);
    nyu.tree := u;
    SameShapeAvl(m.tree, u, CompareUWord);
  }

  // ------------------------------------------------------------------- merge

  /** Whatever m owns now and did not own before has been allocated since. */
  twostate predicate GrownFresh(m: InnerMap)
    reads m`tree
  {
    forall o :: o in InnerRepr(m) ==> o in old(InnerRepr(m)) || fresh(o)
  }

  /** Merge one line of the source: a copy of its counts if the line is new, else a sum. */
  method MergeLine(doVal: InnerMap, siKey: UWord, siVal: Counts)
    requires InnerOk(doVal, siVal.n_counts) && siVal.Valid() && siVal.counts !in InnerRepr(doVal)
    modifies InnerRepr(doVal)
    ensures InnerOk(doVal, siVal.n_counts) && doVal.stackTop == old(doVal.stackTop)
    ensures LinesOf(doVal) == AddLine(old(LinesOf(doVal)), siKey, siVal.counts[..], siVal.n_counts)
    ensures GrownFresh(doVal)
  {
    hide Avl, IsTree, Bindings, AddVec, LinesIn, ArraysOf, OwnVectors;
    assert allocated(Nodes(doVal.tree)) && allocated(doVal.Map()) && allocated(Arrays(doVal));
    var diVal := doVal.LookupFM(siKey);
    KnownLine(doVal.Map(), siKey, siVal.n_counts);
    if diVal == Absent {
      var c_siVal := DopyCounts(siVal);
      label L:
      AddLineCounts(doVal, siKey, c_siVal);
      assert forall o :: o in Nodes(doVal.tree) ==> o in old(Nodes(doVal.tree)) || fresh@L(o);
    } else {
      MergeLineCounts(doVal, siKey, diVal.w, siVal);
      assert InnerRepr(doVal) == old(InnerRepr(doVal));
    }
  }

  lemma KnownLine(t: map<UWord, Counts>, l: UWord, n: nat)
    requires OwnVectors(t, n)
    ensures l in t ==> t[l].counts in ArraysOf(t) && t[l].Valid() && t[l].n_counts == n && l in LinesIn(t)
                       && LinesIn(t)[l] == t[l].counts[..]
    ensures l !in t ==> l !in LinesIn(t)
    ensures LinesOk(LinesIn(t), n)
  {
  }

  /** The entry at position i adds its binding to the map of those before it. */
  lemma NextEntry<N, K(!new), V>(s: seq<Entry<N, K, V>>, i: nat, cmp: (K, K) -> int)
    requires TotalOrder(cmp) && Ascending(s, cmp) && i < |s|
    ensures MapOf(s[..i + 1]) == MapOf(s[..i])[s[i].key := s[i].val] && s[i].key !in MapOf(s[..i])
    ensures s[i].key in MapOf(s) && MapOf(s)[s[i].key] == s[i].val
  {
    assert s[..i + 1][..i] == s[..i];
    EntryIsBinding(s, i, cmp);
    MapOfKeys(s[..i]);
    forall e | e in s[..i] ensures e.key != s[i].key {
      var j :| 0 <= j < i && s[j] == e;
      assert cmp(s[j].key, s[i].key) < 0;
    }
  }

  /** The lines of the first i entries of a line map. */
  ghost function Prefix(m: InnerMap, i: nat): map<UWord, Counts>
    requires i <= |Contents(m.tree)|
    reads m`tree
  {
    MapOf(Contents(m.tree)[..i])
  }

  lemma PrefixStep(m: InnerMap, i: nat, base: Lines, n: nat)
    requires InnerOk(m, n) && LinesOk(base, n) && i < |Contents(m.tree)|
    ensures var e := Contents(m.tree)[i];
            && e.key in m.Map() && m.Map()[e.key] == e.val && e.val.Valid() && e.val.n_counts == n
              && e.val.counts in Arrays(m)
            && LinesOk(LinesIn(Prefix(m, i)), n) && LinesOk(LinesIn(Prefix(m, i + 1)), n)
            && MergeLines(base, LinesIn(Prefix(m, i + 1)), n)
               == AddLine(MergeLines(base, LinesIn(Prefix(m, i)), n), e.key, e.val.counts[..], n)
  {
    hide MergeLines, AddLine, LinesIn, MapOf, Ascending, TotalOrder;
    var e := Contents(m.tree)[i];
    NextEntry(Contents(m.tree), i, m.kCmp);
    KnownLine(m.Map(), e.key, n);
    PrefixOk(m, i, n);
    PrefixOk(m, i + 1, n);
    LinesInUpdate(Prefix(m, i), e.key, e.val);
    MergeLinesStep(base, LinesIn(Prefix(m, i)), e.key, e.val.counts[..], n);
  }

  lemma LinesInUpdate(t: map<UWord, Counts>, l: UWord, cts: Counts)
    requires l !in t
    ensures LinesIn(t[l := cts]) == LinesIn(t)[l := cts.counts[..]] && l !in LinesIn(t)
  {
  }

  lemma PrefixOk(m: InnerMap, i: nat, n: nat)
    requires InnerOk(m, n) && i <= |Contents(m.tree)|
    ensures LinesOk(LinesIn(Prefix(m, i)), n)
    ensures ArraysOf(Prefix(m, i)) <= Arrays(m)
  {
    PrefixBindings(Contents(m.tree), i, m.kCmp);
  }

  lemma PrefixBindings<N, K(!new), V>(s: seq<Entry<N, K, V>>, i: nat, cmp: (K, K) -> int)
    requires TotalOrder(cmp) && Ascending(s, cmp) && i <= |s|
    ensures forall k :: k in MapOf(s[..i]) ==> k in MapOf(s) && MapOf(s[..i])[k] == MapOf(s)[k]
  {
    hide MapOf, Ascending, TotalOrder;
    MapOfKeys(s[..i]);
    PrefixAscending(s, i, cmp);
    forall k | k in MapOf(s[..i]) ensures k in MapOf(s) && MapOf(s[..i])[k] == MapOf(s)[k] {
      var e :| e in s[..i] && e.key == k;
      var j :| 0 <= j < i && s[..i][j] == e;
      EntryIsBinding(s, j, cmp);
      EntryIsBinding(s[..i], j, cmp);
    }
  }

  lemma PrefixAscending<N, K, V>(s: seq<Entry<N, K, V>>, i: nat, cmp: (K, K) -> int)
    requires Ascending(s, cmp) && i <= |s|
    ensures Ascending(s[..i], cmp)
  {
  }

  /** base with the first i lines of m merged in. */
  ghost function MergedPrefix(base: Lines, m: InnerMap, i: nat, n: nat): Lines
    requires InnerOk(m, n) && i <= |Contents(m.tree)| && LinesOk(base, n)
    reads m, Nodes(m.tree), Arrays(m), ArraysOf(Prefix(m, i))
  {
    PrefixOk(m, i, n);
    MergeLines(base, LinesIn(Prefix(m, i)), n)
  }

  lemma MergedEnds(base: Lines, m: InnerMap, n: nat)
    requires InnerOk(m, n) && LinesOk(base, n)
    ensures MergedPrefix(base, m, 0, n) == base
    ensures LinesOk(LinesOf(m), n)
    ensures MergedPrefix(base, m, |Contents(m.tree)|, n) == MergeLines(base, LinesOf(m), n)
  {
    var s := Contents(m.tree);
    assert s[..0] == [] && s[..|s|] == s;
    KnownLine(m.Map(), 0, n);
    MergeNothing(base, map[], n);
    assert LinesIn(Prefix(m, 0)) == map[];
  }

  /** Merge line number i of soVal. */
  method MergeNext(doVal: InnerMap, soVal: InnerMap, siKey: UWord, siVal: Counts, n: nat, ghost base: Lines,
          ghost i: nat)
    requires InnerOk(doVal, n) && InnerOk(soVal, n) && InnerRepr(doVal) !! InnerRepr(soVal)
    requires i < |Contents(soVal.tree)| && siKey == Contents(soVal.tree)[i].key && siVal == Contents(soVal.tree)[i].val
    requires LinesOk(base, n) && LinesOf(doVal) == MergedPrefix(base, soVal, i, n)
    modifies InnerRepr(doVal)
    ensures InnerOk(doVal, n) && doVal.stackTop == old(doVal.stackTop)
    ensures unchanged(soVal) && InnerOk(soVal, n) && LinesOf(soVal) == old(LinesOf(soVal))
    ensures LinesOf(doVal) == MergedPrefix(base, soVal, i + 1, n)
    ensures GrownFresh(doVal)
    ensures InnerRepr(doVal) !! InnerRepr(soVal)
  {
    hide Avl, IsTree, Bindings, MergeLines, LinesIn, ArraysOf, OwnVectors, MapOf, AddLine;
    assert allocated(Nodes(soVal.tree)) && allocated(Arrays(soVal));
    PrefixStep(soVal, i, base, n);
    PrefixOk(soVal, i + 1, n);
    MergeLine(doVal, siKey, siVal);
  }

  /** The first i lines of soVal have been merged into doVal, whose lines were base. */
  ghost predicate Merging(doVal: InnerMap, soVal: InnerMap, base: Lines, i: nat, n: nat)
    reads doVal, Nodes(doVal.tree), Arrays(doVal)
    reads soVal, Nodes(soVal.tree), soVal.nodeStack, soVal.numStack, Arrays(soVal)
  {
    && InnerOk(doVal, n) && InnerOk(soVal, n) && InnerRepr(doVal) !! InnerRepr(soVal) && soVal.Iterating()
    && i <= |Contents(soVal.tree)| && soVal.Remaining() == Contents(soVal.tree)[i..]
    && LinesOk(base, n) && ArraysOf(Prefix(soVal, i)) <= Arrays(soVal)
    && LinesOf(doVal) == MergedPrefix(base, soVal, i, n)
  }

  /** One round of the inner loop. */
  method MergeRound(doVal: InnerMap, soVal: InnerMap, n: nat, ghost base: Lines, ghost i: nat) returns (more: bool)
    requires Merging(doVal, soVal, base, i, n)
    modifies InnerRepr(doVal), soVal`stackTop, soVal`stack, soVal.nodeStack, soVal.numStack
    ensures Merging(doVal, soVal, base, if more then i + 1 else i, n)
    ensures !more ==> i == |Contents(soVal.tree)| && soVal.stackTop == 0
    ensures doVal.stackTop == old(doVal.stackTop) && soVal.tree == old(soVal.tree)
            && LinesOf(soVal) == old(LinesOf(soVal))
    ensures GrownFresh(doVal)
  {
    hide Stacked, Fits, StackOk, Pending, Avl, IsTree, Bindings, MergeLines, LinesIn, ArraysOf, OwnVectors, MapOf,
         LinesOf, Prefix;
    assert allocated(Nodes(doVal.tree)) && allocated(Arrays(doVal)) && allocated(Nodes(soVal.tree))
      && allocated(Arrays(soVal));
    var kv := soVal.NextIterFM();
    if kv == Absent {
      return false;
    }
    MergeNext(doVal, soVal, kv.w.0, kv.w.1, n, base, i);
    PrefixOk(soVal, i + 1, n);
    more := true;
  }

  /** Merge every line of soVal into doVal; soVal keeps its contents and shares nothing with doVal. */
  method MergeInner(doVal: InnerMap, soVal: InnerMap, n: nat)
    requires InnerOk(doVal, n) && InnerOk(soVal, n) && InnerRepr(doVal) !! InnerRepr(soVal)
    requires LeftDepth(soVal.tree) <= WFM_STKMAX && LinesOk(LinesOf(doVal), n) && LinesOk(LinesOf(soVal), n)
    modifies InnerRepr(doVal), soVal`stackTop, soVal`stack, soVal.nodeStack, soVal.numStack
    ensures InnerOk(doVal, n) && doVal.stackTop == old(doVal.stackTop)
    ensures LinesOf(doVal) == MergeLines(old(LinesOf(doVal)), old(LinesOf(soVal)), n)
    ensures GrownFresh(doVal)
    ensures InnerOk(soVal, n) && soVal.stackTop == 0 && LinesOf(soVal) == old(LinesOf(soVal))
            && soVal.tree == old(soVal.tree)
  {
    hide Avl, IsTree, Bindings, MergeLines, LinesIn, ArraysOf, OwnVectors, MapOf, LinesOf, Prefix;
    assert allocated(Nodes(doVal.tree)) && allocated(Arrays(doVal)) && allocated(Nodes(soVal.tree))
      && allocated(Arrays(soVal));
    ghost var s, base, i := Contents(soVal.tree), LinesOf(doVal), 0;
    soVal.InitIterFM();
    MergedEnds(base, soVal, n);
    PrefixOk(soVal, 0, n);
    assert Merging(doVal, soVal, base, 0, n);
    MergeRounds(doVal, soVal, n, base);
    MergedEnds(base, soVal, n);
  }

  method MergeRounds(doVal: InnerMap, soVal: InnerMap, n: nat, ghost base: Lines)
    requires Merging(doVal, soVal, base, 0, n)
    modifies InnerRepr(doVal), soVal`stackTop, soVal`stack, soVal.nodeStack, soVal.numStack
    ensures Merging(doVal, soVal, base, |Contents(soVal.tree)|, n)
    ensures soVal.stackTop == 0
    ensures doVal.stackTop == old(doVal.stackTop) && soVal.tree == old(soVal.tree)
            && LinesOf(soVal) == old(LinesOf(soVal))
    ensures GrownFresh(doVal)
  {
    hide Contents, LinesOf, InnerOk, WordFM.Iterating, MergedPrefix;
    ghost var i := 0;
    var more := true;
    while more
      invariant i <= |Contents(soVal.tree)| && Merging(doVal, soVal, base, i, n)
      invariant !more ==> i == |Contents(soVal.tree)| && soVal.stackTop == 0
      invariant doVal.stackTop == old(doVal.stackTop) && soVal.tree == old(soVal.tree)
                && LinesOf(soVal) == old(LinesOf(soVal))
      invariant GrownFresh(doVal)
      decreases |Contents(soVal.tree)| - i, more
    {
      more := MergeRound(doVal, soVal, n, base, i);
      if more { i := i + 1; }
    }
  }

  // --------------------------------------------------------------- file maps

  type OuterMap = WordFM<FileFn, InnerMap>

  ghost function Inners(t: map<FileFn, InnerMap>): set<InnerMap> {
    set k | k in t :: t[k]
  }

  ghost function InnersRepr(t: map<FileFn, InnerMap>): set<object>
    reads Inners(t)`tree
  {
    set k, o | k in t && o in InnerRepr(t[k]) :: o
  }

  ghost function InnerNodes(t: map<FileFn, InnerMap>): set<object>
    reads Inners(t)`tree
  {
    set k, o | k in t && o in Nodes(t[k].tree) :: o
  }

  ghost function InnerArrays(t: map<FileFn, InnerMap>): set<object>
    reads Inners(t)`tree
  {
    set k, o | k in t && o in Arrays(t[k]) :: o
  }

  lemma InnersWithin(t: map<FileFn, InnerMap>)
    ensures Inners(t) <= InnersRepr(t) && InnerNodes(t) <= InnersRepr(t) && InnerArrays(t) <= InnersRepr(t)
  {
    forall k | k in t ensures t[k] in InnersRepr(t) {
      assert t[k] in InnerRepr(t[k]);
    }
    forall o | o in InnerNodes(t) ensures o in InnersRepr(t) {
      var k :| k in t && o in Nodes(t[k].tree);
      assert o in InnerRepr(t[k]);
    }
    forall o | o in InnerArrays(t) ensures o in InnersRepr(t) {
      var k :| k in t && o in Arrays(t[k]);
      assert o in InnerRepr(t[k]);
    }
  }

  /** The line maps are intact and pairwise apart. */
  ghost predicate OwnInners(t: map<FileFn, InnerMap>, n: nat)
    reads Inners(t)`root, Inners(t)`tree, InnerNodes(t)
  {
    && (forall k :: k in t ==> InnerSound(t[k], n))
    && (forall j, k :: j in t && k in t && j != k ==> InnerRepr(t[j]) !! InnerRepr(t[k]))
  }

  /** No traversal of any of the line maps is under way. */
  ghost predicate Idle(t: map<FileFn, InnerMap>)
    reads Inners(t)`stackTop
  {
    forall k :: k in t ==> t[k].stackTop == 0
  }

  ghost function TableIn(t: map<FileFn, InnerMap>): Table
    reads Inners(t)`tree, InnerArrays(t)
  {
    map k | k in t :: LinesOf(t[k])
  }

  ghost function OuterRepr(m: OuterMap): set<object>
    reads m`tree, Inners(m.Map())`tree
  {
    m.Repr() + InnersRepr(m.Map())
  }

  /** A valid file map whose line maps are pairwise apart and apart from the map itself. */
  ghost predicate OuterOk(m: OuterMap, n: nat)
    reads m, Nodes(m.tree), Inners(m.Map()), InnerNodes(m.Map())
  {
    m.Valid() && m.kCmp == CompareFileFn && OwnInners(m.Map(), n) && Idle(m.Map()) && m.Repr() !! InnersRepr(m.Map())
  }

  ghost function TableOf(m: OuterMap): Table
    reads m`tree, Inners(m.Map())`tree, InnerArrays(m.Map())
  {
    TableIn(m.Map())
  }

  lemma OneInner(t: map<FileFn, InnerMap>, k: FileFn, n: nat)
    requires OwnInners(t, n)
    ensures k in t ==> InnerSound(t[k], n) && (Idle(t) ==> InnerOk(t[k], n)) && InnerRepr(t[k]) <= InnersRepr(t)
                       && k in TableIn(t) && TableIn(t)[k] == LinesOf(t[k])
    ensures k !in t ==> k !in TableIn(t)
    ensures TableOk(TableIn(t), n)
  {
    forall j | j in t ensures LinesOk(LinesOf(t[j]), n) {
      KnownLine(t[j].Map(), 0, n);
    }
  }

  lemma PutInner(t: map<FileFn, InnerMap>, k: FileFn, c: InnerMap, n: nat)
    requires OwnInners(t, n) && k !in t && InnerSound(c, n) && InnerRepr(c) !! InnersRepr(t)
    ensures OwnInners(t[k := c], n) && InnersRepr(t[k := c]) == InnersRepr(t) + InnerRepr(c)
    ensures TableIn(t[k := c]) == TableIn(t)[k := LinesOf(c)]
    ensures Idle(t) && c.stackTop == 0 ==> Idle(t[k := c])
  {
    hide InnerRepr, InnerSound, LinesOf;
    var u := t[k := c];
    assert forall j :: j in t ==> u[j] == t[j] && InnerRepr(t[j]) <= InnersRepr(t);
    assert u[k] == c;
    forall o ensures o in InnersRepr(u) <==> o in InnersRepr(t) || o in InnerRepr(c) {
      if o in InnersRepr(t) {
        var j :| j in t && o in InnerRepr(t[j]);
        assert u[j] == t[j];
      }
      if o in InnerRepr(c) { assert o in InnerRepr(u[k]); }
    }
  }

  lemma Overwrite<K, V>(m: map<K, V>, k: K, v: V, w: V)
    ensures m[k := v][k := w] == m[k := w]
  {
  }

  /** The line maps of all files but one, seen apart from that one. */
  lemma TakeInner(t: map<FileFn, InnerMap>, k: FileFn, n: nat)
    requires OwnInners(t, n) && k in t
    ensures var u := t - {k};
            && OwnInners(u, n) && InnersRepr(u) !! InnerRepr(t[k]) && u[k := t[k]] == t && k !in u
            && InnersRepr(t) == InnersRepr(u) + InnerRepr(t[k])
            && TableIn(t) == TableIn(u)[k := LinesOf(t[k])] && (Idle(t) ==> Idle(u))
            && TableOk(TableIn(t), n) && LinesOk(LinesOf(t[k]), n)
  {
    hide InnerRepr, LinesOf;
    var u := t - {k};
    assert u[k := t[k]] == t;
    OneInner(t, k, n);
    SomeInners(t, u, n);
    forall o | o in InnersRepr(u) ensures o !in InnerRepr(t[k]) {
      var j :| j in u && o in InnerRepr(u[j]);
      assert InnerRepr(t[j]) !! InnerRepr(t[k]);
    }
    PutInner(u, k, t[k], n);
  }

  lemma SomeInners(t: map<FileFn, InnerMap>, u: map<FileFn, InnerMap>, n: nat)
    requires OwnInners(t, n) && forall k :: k in u ==> k in t && u[k] == t[k]
    ensures OwnInners(u, n) && TableOk(TableIn(u), n)
  {
    hide InnerSound, InnerRepr, LinesOf;
    OneInner(u, FileFn("", ""), n);
  }

  twostate predicate OuterGrownFresh(m: OuterMap)
    reads m`tree, Inners(m.Map())`tree
  {
    forall o :: o in OuterRepr(m) ==> o in old(OuterRepr(m)) || fresh(o)
  }

  /** Bind a line map of its own to a new file. */
  method AddFile(m: OuterMap, k: FileFn, c: InnerMap, n: nat)
    requires OuterOk(m, n) && k !in m.Map()
    requires InnerOk(c, n) && c.stackTop == 0 && InnerRepr(c) !! OuterRepr(m)
    modifies m`root, m`tree, Nodes(m.tree)
    ensures OuterOk(m, n) && m.Map() == old(m.Map())[k := c]
    ensures forall o :: o in OuterRepr(m) ==> o in old(OuterRepr(m)) || o in InnerRepr(c) || fresh(o)
    ensures TableOf(m) == old(TableOf(m))[k := old(LinesOf(c))]
  {
    hide Avl, IsTree, Bindings, LinesIn, ArraysOf, OwnVectors, InnerSound, OwnInners, InnersRepr, LinesOf, TableIn;
    assert allocated(Nodes(m.tree)) && allocated(m.Map()) && allocated(InnersRepr(m.Map()));
    assert allocated(Nodes(c.tree)) && allocated(Arrays(c));
    ghost var t := m.Map();
    InnersWithin(t);
    m.AddToFM(k, c);
    PutInner(t, k, c, n);
    assert InnersRepr(t) == old(InnersRepr(t));
  }

  /** A file of the source that the destination does not know: a deep copy is added. */
  method MergeNewFile(dst: OuterMap, soKey: FileFn, soVal: InnerMap, n: nat)
    requires OuterOk(dst, n) && soKey !in dst.Map()
    requires InnerOk(soVal, n) && soVal.stackTop == 0 && InnerRepr(soVal) !! OuterRepr(dst)
    modifies dst`root, dst`tree, Nodes(dst.tree), soVal`stackTop, soVal.nodeStack, soVal.numStack
    ensures OuterOk(dst, n) && OuterGrownFresh(dst)
    ensures TableOf(dst) == old(TableOf(dst))[soKey := LinesOf(soVal)]
    ensures InnerOk(soVal, n) && soVal.stackTop == 0 && soVal.tree == old(soVal.tree)
            && LinesOf(soVal) == old(LinesOf(soVal))
  {
    hide Avl, IsTree, Bindings, LinesIn, ArraysOf, OwnVectors, InnerOk, OwnInners, InnersRepr, LinesOf, TableIn;
    assert allocated(Nodes(dst.tree)) && allocated(dst.Map()) && allocated(InnersRepr(dst.Map()));
    assert allocated(Nodes(soVal.tree)) && allocated(Arrays(soVal));
    InnersWithin(dst.Map());
    var c_soVal := DopyInnerMap(soVal, n);
    assert OuterOk(dst, n) && OuterRepr(dst) == old(OuterRepr(dst)) && TableOf(dst) == old(TableOf(dst));
    hide OuterOk, OuterRepr, TableOf;
    AddFile(dst, soKey, c_soVal, n);
  }

  lemma OuterRebuilt(m: OuterMap, k: FileFn, u: map<FileFn, InnerMap>, c: InnerMap, n: nat)
    requires m.Valid() && m.kCmp == CompareFileFn && m.Map() == u[k := c] && k !in u
    requires OwnInners(u, n) && Idle(u) && InnerSound(c, n) && c.stackTop == 0 && InnersRepr(u) !! InnerRepr(c)
    requires m.Repr() !! InnersRepr(u) && m.Repr() !! InnerRepr(c)
    ensures OuterOk(m, n) && TableOf(m) == TableIn(u)[k := LinesOf(c)]
    ensures InnersRepr(m.Map()) == InnersRepr(u) + InnerRepr(c)
  {
    hide OwnInners, InnersRepr, InnerRepr, TableIn, LinesOf, InnerSound, WordFM.Repr;
    PutInner(u, k, c, n);
  }

  /** MergeInner into a line map of outer: outer itself and its other line maps u are not touched. */
  method MergeInnerApart(doVal: InnerMap, soVal: InnerMap, n: nat, ghost outer: OuterMap, ghost u: map<FileFn,
          InnerMap>)
    requires InnerOk(doVal, n) && InnerOk(soVal, n) && InnerRepr(doVal) !! InnerRepr(soVal)
    requires LeftDepth(soVal.tree) <= WFM_STKMAX && LinesOk(LinesOf(doVal), n) && LinesOk(LinesOf(soVal), n)
    requires OwnInners(u, n) && Idle(u) && InnersRepr(u) !! InnerRepr(doVal) && InnersRepr(u) !! InnerRepr(soVal)
    requires outer.Valid() && outer.Repr() !! InnerRepr(doVal) && outer.Repr() !! InnerRepr(soVal)
    modifies InnerRepr(doVal), soVal`stackTop, soVal`stack, soVal.nodeStack, soVal.numStack
    ensures InnerOk(doVal, n) && doVal.stackTop == old(doVal.stackTop)
    ensures LinesOf(doVal) == MergeLines(old(LinesOf(doVal)), old(LinesOf(soVal)), n)
    ensures GrownFresh(doVal)
    ensures InnerOk(soVal, n) && soVal.stackTop == 0 && LinesOf(soVal) == old(LinesOf(soVal))
            && soVal.tree == old(soVal.tree)
    ensures OwnInners(u, n) && Idle(u) && TableIn(u) == old(TableIn(u)) && InnersRepr(u) == old(InnersRepr(u))
    ensures InnersRepr(u) !! InnerRepr(doVal)
    ensures unchanged(outer) && outer.Valid() && outer.Repr() !! InnerRepr(doVal)
  {
    hide Avl, IsTree, Bindings, LinesIn, ArraysOf, OwnVectors, LinesOf, MergeLines, OwnInners, TableIn, InnersRepr,
         InnerSound, Contents;
    InnersWithin(u);
    assert allocated(u) && allocated(InnersRepr(u)) && allocated(outer.Repr());
    MergeInner(doVal, soVal, n);
  }

  /** A file of the source that the destination knows: the two line maps are merged. */
  method MergeKnownFile(dst: OuterMap, ghost soKey: FileFn, doVal: InnerMap, soVal: InnerMap, n: nat)
    requires OuterOk(dst, n) && soKey in dst.Map() && doVal == dst.Map()[soKey]
    requires InnerOk(soVal, n) && soVal.stackTop == 0 && InnerRepr(soVal) !! OuterRepr(dst)
    requires LeftDepth(soVal.tree) <= WFM_STKMAX
    modifies InnerRepr(doVal), soVal`stackTop, soVal`stack, soVal.nodeStack, soVal.numStack
    ensures OuterOk(dst, n) && OuterGrownFresh(dst)
    ensures LinesOk(old(LinesOf(doVal)), n) && LinesOk(LinesOf(soVal), n)
    ensures TableOf(dst) == old(TableOf(dst))[soKey := MergeLines(old(LinesOf(doVal)), LinesOf(soVal), n)]
    ensures InnerOk(soVal, n) && soVal.stackTop == 0 && soVal.tree == old(soVal.tree)
            && LinesOf(soVal) == old(LinesOf(soVal))
  {
    hide LinesOf, MergeLines, LeftDepth, OwnInners, TableIn, InnersRepr, InnerSound, InnerRepr, WordFM.Repr,
         WordFM.Sound, Bindings;
    ghost var u, lines := dst.Map() - {soKey}, LinesOf(doVal);
    OneInner(dst.Map(), soKey, n);
    TakeInner(dst.Map(), soKey, n);
    InnerLinesOk(soVal, n);
    MergeInnerApart(doVal, soVal, n, dst, u);
    OuterRebuilt(dst, soKey, u, doVal, n);
    Overwrite(TableIn(u), soKey, lines, LinesOf(doVal));
  }

  lemma InnerLinesOk(m: InnerMap, n: nat)
    requires InnerOk(m, n)
    ensures LinesOk(LinesOf(m), n)
  {
    KnownLine(m.Map(), 0, n);
  }

  /** Merge one file of the source into the destination. */
  method MergeOneFile(dst: OuterMap, soKey: FileFn, soVal: InnerMap, n: nat)
    requires OuterOk(dst, n)
    requires InnerOk(soVal, n) && soVal.stackTop == 0 && InnerRepr(soVal) !! OuterRepr(dst)
    requires LeftDepth(soVal.tree) <= WFM_STKMAX
    modifies OuterRepr(dst), soVal`stackTop, soVal`stack, soVal.nodeStack, soVal.numStack
    ensures OuterOk(dst, n) && OuterGrownFresh(dst)
    ensures LinesOk(LinesOf(soVal), n) && TableOk(old(TableOf(dst)), n)
    ensures TableOf(dst) == old(TableOf(dst))[soKey := if soKey in old(TableOf(dst))
                                                       then MergeLines(old(TableOf(dst))[soKey], LinesOf(soVal), n)
                                                       else LinesOf(soVal)]
    ensures InnerOk(soVal, n) && soVal.stackTop == 0 && soVal.tree == old(soVal.tree)
            && LinesOf(soVal) == old(LinesOf(soVal))
  {
    hide Avl, IsTree, Bindings, LinesIn, ArraysOf, OwnVectors, MergeLines, LeftDepth, OwnInners, InnerOk, InnersRepr,
         TableIn;
    assert allocated(Nodes(dst.tree)) && allocated(dst.Map()) && allocated(InnersRepr(dst.Map()));
    assert allocated(Nodes(soVal.tree)) && allocated(Arrays(soVal));
    InnersWithin(dst.Map());
    OneInner(dst.Map(), soKey, n);
    InnerLinesOk(soVal, n);
    var doVal := dst.LookupFM(soKey);
    if doVal == Absent {
      MergeNewFile(dst, soKey, soVal, n);
    } else {
      MergeKnownFile(dst, soKey, doVal.w, soVal, n);
    }
  }

  /** The files of the first i entries of a file map. */
  ghost function FilesBefore(m: OuterMap, i: nat): set<FileFn>
    requires i <= |Contents(m.tree)|
    reads m`tree
  {
    MapOf(Contents(m.tree)[..i]).Keys
  }

  ghost function Only(table: Table, keys: set<FileFn>): Table {
    map k | k in table && k in keys :: table[k]
  }

  lemma OnlyNoneOrAll(table: Table)
    ensures Only(table, {}) == map[] && Only(table, table.Keys) == table
  {
    assert Only(table, {}).Keys == {};
  }

  /** base with those entries of table merged in whose keys are among keys. */
  ghost function MergedUpTo(base: Table, table: Table, keys: set<FileFn>, n: nat): Table
    requires TableOk(base, n) && TableOk(table, n)
  {
    MergeTables(base, Only(table, keys), n)
  }

  lemma MergedUpToEnds(base: Table, m: OuterMap, n: nat)
    requires OuterOk(m, n) && TableOk(base, n)
    ensures TableOk(TableOf(m), n)
    ensures MergedUpTo(base, TableOf(m), FilesBefore(m, 0), n) == base
    ensures MergedUpTo(base, TableOf(m), FilesBefore(m, |Contents(m.tree)|), n) == MergeTables(base, TableOf(m), n)
  {
    hide OwnInners, MergeTables, MergeLines, LinesOf, Onto;
    var s, t := Contents(m.tree), TableOf(m);
    assert s[..0] == [] && s[..|s|] == s;
    OneInner(m.Map(), FileFn("", ""), n);
    MergeNothing(map[], base, n);
    OnlyNoneOrAll(t);
    assert FilesBefore(m, 0) == {} && FilesBefore(m, |s|) == t.Keys;
  }

  lemma MergedUpToStep(base: Table, m: OuterMap, i: nat, n: nat)
    requires OuterOk(m, n) && TableOk(base, n) && i < |Contents(m.tree)|
    ensures var e, t := Contents(m.tree)[i], TableOf(m);
            && TableOk(t, n) && e.key in m.Map() && m.Map()[e.key] == e.val && e.key in t
            && var before := MergedUpTo(base, t, FilesBefore(m, i), n);
            && (e.key in before <==> e.key in base) && (e.key in base ==> before[e.key] == base[e.key])
            && MergedUpTo(base, t, FilesBefore(m, i + 1), n)
               == before[e.key := if e.key in base then MergeLines(base[e.key], t[e.key], n) else t[e.key]]
  {
    hide MergeLines, MergeTables, InnerOk, LinesOf, OwnInners, TotalOrder, Ascending, MapOf;
    var e, t := Contents(m.tree)[i], TableOf(m);
    NextEntry(Contents(m.tree), i, m.kCmp);
    OneInner(m.Map(), e.key, n);
    var before := Only(t, FilesBefore(m, i));
    assert Only(t, FilesBefore(m, i + 1)) == before[e.key := t[e.key]];
    MergeTablesStep(base, before, e.key, t[e.key], n);
  }

  /** Traversals of all the line maps fit the iterator stack. */
  ghost predicate Shallow(t: map<FileFn, InnerMap>)
    reads Inners(t)`tree
  {
    forall k :: k in t ==> LeftDepth(t[k].tree) <= WFM_STKMAX
  }

  /** MergeOneFile on one of the line maps t: they keep what they hold. */
  method MergeFileApart(dst: OuterMap, soKey: FileFn, soVal: InnerMap, n: nat, ghost t: map<FileFn, InnerMap>)
    requires OuterOk(dst, n) && OwnInners(t, n) && Idle(t) && OuterRepr(dst) !! InnersRepr(t)
    requires soKey in t && soVal == t[soKey] && LeftDepth(soVal.tree) <= WFM_STKMAX
    modifies OuterRepr(dst), soVal`stackTop, soVal`stack, soVal.nodeStack, soVal.numStack
    ensures OuterOk(dst, n) && OuterGrownFresh(dst)
    ensures OwnInners(t, n) && Idle(t) && TableIn(t) == old(TableIn(t)) && InnersRepr(t) == old(InnersRepr(t))
    ensures Shallow(t) == old(Shallow(t))
    ensures LinesOk(LinesOf(soVal), n) && TableOk(old(TableOf(dst)), n) && LinesOf(soVal) == old(LinesOf(soVal))
    ensures TableOf(dst) == old(TableOf(dst))[soKey := if soKey in old(TableOf(dst))
                                                       then MergeLines(old(TableOf(dst))[soKey], LinesOf(soVal), n)
                                                       else LinesOf(soVal)]
  {
    hide Avl, IsTree, Bindings, LinesIn, ArraysOf, OwnVectors, LinesOf, MergeLines, OwnInners, TableIn, InnersRepr,
         InnerSound,
         Contents, LeftDepth, OuterRepr, TableOf, Shallow;
    OneInner(t, soKey, n);
    InnersWithin(t);
    assert allocated(t) && allocated(InnersRepr(t));
    MergeOneFile(dst, soKey, soVal, n);
  }

  /** MergeOneFile on a line map of src: src keeps what it holds and stays apart from dst. */
  method MergeFileOf(dst: OuterMap, src: OuterMap, soKey: FileFn, soVal: InnerMap, n: nat)
    requires OuterOk(dst, n) && OuterOk(src, n) && OuterRepr(dst) !! OuterRepr(src)
    requires soKey in src.Map() && soVal == src.Map()[soKey] && LeftDepth(soVal.tree) <= WFM_STKMAX
    modifies OuterRepr(dst), soVal`stackTop, soVal`stack, soVal.nodeStack, soVal.numStack
    ensures OuterOk(dst, n) && OuterOk(src, n) && OuterRepr(dst) !! OuterRepr(src) && OuterGrownFresh(dst)
    ensures unchanged(src) && TableOf(src) == old(TableOf(src)) && OuterRepr(src) == old(OuterRepr(src))
    ensures Shallow(src.Map()) == old(Shallow(src.Map())) && src.Iterating() == old(src.Iterating())
    ensures LinesOk(LinesOf(soVal), n) && TableOk(old(TableOf(dst)), n) && LinesOf(soVal) == old(LinesOf(soVal))
    ensures TableOf(dst) == old(TableOf(dst))[soKey := if soKey in old(TableOf(dst))
                                                       then MergeLines(old(TableOf(dst))[soKey], LinesOf(soVal), n)
                                                       else LinesOf(soVal)]
  {
    hide Avl, IsTree, Bindings, LinesIn, ArraysOf, OwnVectors, LinesOf, MergeLines, OwnInners, TableIn, InnersRepr,
         InnerSound,
         Contents, LeftDepth, Idle, Shallow;
    ghost var t := src.Map();
    OneInner(t, soKey, n);
    InnersWithin(t);
    assert allocated(Nodes(src.tree)) && allocated(OuterRepr(src));
    MergeFileApart(dst, soKey, soVal, n, t);
  }

  /** Merge file number i of src. */
  method MergeNextFile(dst: OuterMap, src: OuterMap, soKey: FileFn, soVal: InnerMap, n: nat, ghost base: Table,
          ghost i: nat)
    requires OuterOk(dst, n) && OuterOk(src, n) && OuterRepr(dst) !! OuterRepr(src) && Shallow(src.Map())
    requires i < |Contents(src.tree)| && soKey == Contents(src.tree)[i].key && soVal == Contents(src.tree)[i].val
    requires TableOk(base, n) && TableOk(TableOf(src), n)
    requires TableOf(dst) == MergedUpTo(base, TableOf(src), FilesBefore(src, i), n)
    modifies OuterRepr(dst), soVal`stackTop, soVal`stack, soVal.nodeStack, soVal.numStack
    ensures OuterOk(dst, n) && OuterOk(src, n) && OuterRepr(dst) !! OuterRepr(src) && OuterGrownFresh(dst)
    ensures unchanged(src) && TableOf(src) == old(TableOf(src)) && OuterRepr(src) == old(OuterRepr(src))
            && Shallow(src.Map())
    ensures TableOf(dst) == MergedUpTo(base, TableOf(src), FilesBefore(src, i + 1), n)
    ensures src.Iterating() == old(src.Iterating())
  {
    hide Avl, IsTree, Bindings, MergeLines, OwnInners, Contents, LeftDepth, OuterOk, OuterRepr, MergedUpTo, TableIn,
         LinesOf;
    MergedUpToStep(base, src, i, n);
    LinesInTable(src, soKey, n);
    MergeFileOf(dst, src, soKey, soVal, n);
  }

  lemma LinesInTable(m: OuterMap, k: FileFn, n: nat)
    requires OuterOk(m, n) && k in m.Map()
    ensures k in TableOf(m) && TableOf(m)[k] == LinesOf(m.Map()[k])
  {
  }

  lemma EntryInner(m: OuterMap, i: nat, n: nat)
    requires OuterOk(m, n) && i < |Contents(m.tree)|
    ensures InnerRepr(Contents(m.tree)[i].val) <= OuterRepr(m)
  {
    NextEntry(Contents(m.tree), i, m.kCmp);
    OneInner(m.Map(), Contents(m.tree)[i].key, n);
  }

  /** The first i files of src have been merged into dst, whose table was base. */
  ghost predicate MergedFiles(dst: OuterMap, src: OuterMap, base: Table, i: nat, n: nat)
    reads dst, Nodes(dst.tree), Inners(dst.Map()), InnerNodes(dst.Map()), InnerArrays(dst.Map())
    reads src, Nodes(src.tree), Inners(src.Map()), InnerNodes(src.Map()), InnerArrays(src.Map())
  {
    && OuterOk(dst, n) && OuterOk(src, n) && OuterRepr(dst) !! OuterRepr(src) && Shallow(src.Map())
    && i <= |Contents(src.tree)| && TableOk(base, n) && TableOk(TableOf(src), n)
    && TableOf(dst) == MergedUpTo(base, TableOf(src), FilesBefore(src, i), n)
  }

  /** Take the next file from the source's iterator. */
  method NextFile(dst: OuterMap, src: OuterMap, n: nat, ghost base: Table, ghost i: nat)
    returns (kv: MaybeWord<(FileFn, InnerMap)>)
    requires MergedFiles(dst, src, base, i, n) && src.Iterating() && src.Remaining() == Contents(src.tree)[i..]
    modifies src`stackTop, src`stack, src.nodeStack, src.numStack
    ensures MergedFiles(dst, src, base, i, n) && src.Iterating()
    ensures TableOf(src) == old(TableOf(src)) && OuterRepr(src) == old(OuterRepr(src))
            && OuterRepr(dst) == old(OuterRepr(dst))
    ensures if i == |Contents(src.tree)| then kv == Absent && src.stackTop == 0 && src.Remaining() == []
            else kv == Present((Contents(src.tree)[i].key, Contents(src.tree)[i].val))
                 && src.Remaining() == Contents(src.tree)[i + 1..]
  {
    hide Stacked, Fits, StackOk, Pending, Avl, IsTree, Bindings, OwnInners, TableIn, InnersRepr, Contents,
         MergedUpTo, Shallow;
    ghost var t := src.Map();
    InnersWithin(t);
    InnersWithin(dst.Map());
    assert allocated(OuterRepr(dst)) && allocated(OuterRepr(src));
    kv := src.NextIterFM();
  }

  /** One round of the outer loop; False when the source is exhausted. */
  method MergeFilesRound(dst: OuterMap, src: OuterMap, n: nat, ghost base: Table, ghost i: nat) returns (more: bool)
    requires MergedFiles(dst, src, base, i, n) && src.Iterating() && src.Remaining() == Contents(src.tree)[i..]
    modifies OuterRepr(dst), OuterRepr(src)
    ensures more <==> i < |Contents(src.tree)|
    ensures MergedFiles(dst, src, base, if more then i + 1 else i, n) && src.Iterating()
    ensures src.Remaining() == Contents(src.tree)[if more then i + 1 else i..]
    ensures !more ==> src.stackTop == 0
    ensures src.tree == old(src.tree) && TableOf(src) == old(TableOf(src)) && OuterRepr(src) == old(OuterRepr(src))
    ensures OuterGrownFresh(dst)
  {
    hide Avl, IsTree, Bindings, OwnInners, TableIn, InnersRepr, Contents, MergedUpTo, Shallow, InnerSound;
    var kv := NextFile(dst, src, n, base, i);
    if kv == Absent {
      return false;
    }
    EntryInner(src, i, n);
    hide WordFM.Iterating, OuterOk;
    MergeNextFile(dst, src, kv.w.0, kv.w.1, n, base, i);
    more := true;
  }

  /** Start the traversal of the source. */
  method FirstFile(dst: OuterMap, src: OuterMap, n: nat)
    requires OuterOk(dst, n) && OuterOk(src, n) && OuterRepr(dst) !! OuterRepr(src)
    requires LeftDepth(src.tree) <= WFM_STKMAX && Shallow(src.Map())
    modifies src`stackTop, src`stack, src.nodeStack, src.numStack
    ensures OuterOk(dst, n) && OuterOk(src, n) && OuterRepr(dst) == old(OuterRepr(dst))
            && OuterRepr(src) == old(OuterRepr(src))
    ensures Shallow(src.Map()) && src.Iterating() && src.Remaining() == Contents(src.tree)
    ensures TableOf(dst) == old(TableOf(dst)) && TableOf(src) == old(TableOf(src)) && src.tree == old(src.tree)
  {
    hide Avl, IsTree, Bindings, OwnInners, TableIn, InnersRepr, Contents, Shallow;
    InnersWithin(src.Map());
    InnersWithin(dst.Map());
    assert allocated(OuterRepr(dst)) && allocated(OuterRepr(src));
    src.InitIterFM();
  }

  /** Merge every file of src into dst. */
  method MergeOuter(dst: OuterMap, src: OuterMap, n: nat)
    requires OuterOk(dst, n) && OuterOk(src, n) && OuterRepr(dst) !! OuterRepr(src)
    requires LeftDepth(src.tree) <= WFM_STKMAX && Shallow(src.Map())
    modifies OuterRepr(dst), OuterRepr(src)
    ensures OuterOk(dst, n) && OuterOk(src, n) && OuterRepr(dst) !! OuterRepr(src)
    ensures TableOk(old(TableOf(dst)), n) && TableOk(TableOf(src), n)
    ensures TableOf(dst) == MergeTables(old(TableOf(dst)), TableOf(src), n)
    ensures TableOf(src) == old(TableOf(src)) && OuterRepr(src) == old(OuterRepr(src)) && src.stackTop == 0
    ensures OuterGrownFresh(dst)
  {
    hide OwnInners, TableIn, InnersRepr, Contents, MergedUpTo, Shallow, MergeTables, LeftDepth, TableOf,
         WordFM.Iterating;
    ghost var base := TableOf(dst);
    FirstFile(dst, src, n);
    TableIsOk(dst, n);
    MergedUpToEnds(base, src, n);
    MergeFilesLoop(dst, src, n, base);
    MergedUpToEnds(base, src, n);
  }

  lemma TableIsOk(m: OuterMap, n: nat)
    requires OuterOk(m, n)
    ensures TableOk(TableOf(m), n)
  {
    OneInner(m.Map(), FileFn("", ""), n);
  }

  method MergeFilesLoop(dst: OuterMap, src: OuterMap, n: nat, ghost base: Table)
    requires MergedFiles(dst, src, base, 0, n) && src.Iterating() && src.Remaining() == Contents(src.tree)
    modifies OuterRepr(dst), OuterRepr(src)
    ensures MergedFiles(dst, src, base, |Contents(src.tree)|, n) && src.stackTop == 0
    ensures src.tree == old(src.tree) && TableOf(src) == old(TableOf(src)) && OuterRepr(src) == old(OuterRepr(src))
    ensures OuterGrownFresh(dst)
  {
    hide OuterOk, TableOf, MergedFiles, Contents, WordFM.Iterating, WordFM.Remaining, OuterRepr;
    ghost var i := 0;
    var more := true;
    while more
      invariant i <= |Contents(src.tree)| && MergedFiles(dst, src, base, i, n) && src.Iterating()
      invariant src.Remaining() == Contents(src.tree)[i..] && src.tree == old(src.tree)
      invariant !more ==> i == |Contents(src.tree)| && src.stackTop == 0
      invariant TableOf(src) == old(TableOf(src)) && OuterRepr(src) == old(OuterRepr(src)) && OuterGrownFresh(dst)
      decreases |Contents(src.tree)| - i, more
    {
      more := MergeFilesRound(dst, src, n, base, i);
      if more { i := i + 1; }
    }
  }

  // ------------------------------------------------------------------ profiles

  /** AddCountsToMap on a line map of outer: outer itself and its other line maps u are not touched. */
  method AddCountsApart(m: InnerMap, lnno: UWord, newCounts: Counts, ghost outer: OuterMap, ghost u: map<FileFn,
          InnerMap>)
    returns (merged: bool)
    requires InnerOk(m, newCounts.n_counts) && newCounts.Valid() && newCounts.counts !in InnerRepr(m)
    requires OwnInners(u, newCounts.n_counts) && Idle(u) && InnersRepr(u) !! InnerRepr(m)
             && newCounts.counts !in InnersRepr(u)
    requires outer.Valid() && outer.Repr() !! InnerRepr(m) && newCounts.counts !in outer.Repr()
    modifies InnerRepr(m)
    ensures InnerOk(m, newCounts.n_counts) && m.stackTop == old(m.stackTop)
    ensures LinesOf(m) == AddLine(old(LinesOf(m)), lnno, newCounts.counts[..], newCounts.n_counts)
    ensures newCounts.counts[..] == old(newCounts.counts[..])
    ensures forall o :: o in InnerRepr(m) ==> o in old(InnerRepr(m)) || fresh(o) || (!merged && o == newCounts.counts)
    ensures OwnInners(u, newCounts.n_counts) && Idle(u) && TableIn(u) == old(TableIn(u))
            && InnersRepr(u) == old(InnersRepr(u))
    ensures InnersRepr(u) !! InnerRepr(m)
    ensures unchanged(outer) && outer.Valid() && outer.Repr() !! InnerRepr(m)
  {
    hide Avl, IsTree, Bindings, LinesIn, ArraysOf, OwnVectors, LinesOf, AddLine, OwnInners, TableIn, InnersRepr,
         InnerSound, Contents;
    InnersWithin(u);
    assert allocated(u) && allocated(InnersRepr(u)) && allocated(outer.Repr());
    merged := AddCountsToMap(m, lnno, newCounts);
  }

  /** Add counts to a line of a file the map knows. */
  method AddCountsToFile(m: OuterMap, ghost k: FileFn, countsMap: InnerMap, lnno: UWord, newCounts: Counts)
    returns (merged: bool)
    requires OuterOk(m, newCounts.n_counts) && k in m.Map() && countsMap == m.Map()[k]
    requires newCounts.Valid() && newCounts.counts !in OuterRepr(m)
    modifies InnerRepr(countsMap)
    ensures OuterOk(m, newCounts.n_counts) && unchanged(m)
    ensures forall o :: o in OuterRepr(m) ==> o in old(OuterRepr(m)) || fresh(o) || (!merged && o == newCounts.counts)
    ensures TableOk(old(TableOf(m)), newCounts.n_counts) && newCounts.counts[..] == old(newCounts.counts[..])
    ensures TableOf(m) == AddCounts(old(TableOf(m)), k, lnno, newCounts.counts[..], newCounts.n_counts)
  {
    var n := newCounts.n_counts;
    hide LinesOf, AddLine, OwnInners, TableIn, InnersRepr, InnerSound, InnerRepr, WordFM.Repr, WordFM.Sound, Bindings;
    ghost var u, lines := m.Map() - {k}, LinesOf(countsMap);
    OneInner(m.Map(), k, n);
    TakeInner(m.Map(), k, n);
    merged := AddCountsApart(countsMap, lnno, newCounts, m, u);
    OuterRebuilt(m, k, u, countsMap, n);
    Overwrite(TableIn(u), k, lines, LinesOf(countsMap));
  }

  /** A parsed profile: header lines, the file map, and the running column sums. */
  class CacheProfFile {
    const desc_lines: seq<string>
    const cmd_line: string
    const events_line: string
    const n_events: nat
    const outerMap: OuterMap
    const summary: Counts

    ghost function Repr(): set<object>
      reads outerMap`tree, Inners(outerMap.Map())`tree
    {
      {summary.counts} + OuterRepr(outerMap)
    }

    ghost function Table(): Table
      reads outerMap`tree, Inners(outerMap.Map())`tree, InnerArrays(outerMap.Map())
    {
      TableOf(outerMap)
    }

    ghost predicate Valid()
      reads outerMap, Nodes(outerMap.tree), Inners(outerMap.Map()), InnerNodes(outerMap.Map()),
        InnerArrays(outerMap.Map()), summary.counts
    {
      && OuterOk(outerMap, n_events)
      && summary.Valid() && summary.n_counts == n_events && summary.counts !in OuterRepr(outerMap)
      && n_events == EventCount(events_line)
      && Summarizes(summary.counts[..], Table())
    }

    constructor (desc_lines: seq<string>, cmd_line: string, events_line: string)
      ensures Valid() && fresh(Repr())
      ensures Table() == map[] && summary.counts[..] == seq(n_events, _ => 0)
      ensures this.desc_lines == desc_lines && this.cmd_line == cmd_line && this.events_line == events_line
    {
      this.desc_lines := desc_lines;
      this.cmd_line := cmd_line;
      this.events_line := events_line;
      n_events := EventCount(events_line);
      FileFnOrder();
      summary := new Counts.Zeroed(EventCount(events_line));
      outerMap := new WordFM(CompareFileFn);
      new;
      assert TableIn(outerMap.Map()) == map[];
      forall c | 0 <= c < n_events ensures Same(0, TableSum(map[], c)) { EmptySum(c); }
    }
  }

  /** Find the line map of a file, making an empty one if the file is new. */
  method LineMapOf(m: OuterMap, topKey: FileFn, n: nat) returns (countsMap: InnerMap)
    requires OuterOk(m, n)
    modifies m`root, m`tree, Nodes(m.tree)
    ensures OuterOk(m, n) && topKey in m.Map() && countsMap == m.Map()[topKey] && OuterGrownFresh(m)
    ensures TableOf(m)
            == old(TableOf(m))[topKey := if topKey in old(TableOf(m)) then old(TableOf(m))[topKey] else map[]]
    ensures m.stackTop == old(m.stackTop)
  {
    hide LinesOf, OwnInners, InnersRepr, InnerSound, Bindings, Avl, IsTree, TableIn;
    OneInner(m.Map(), topKey, n);
    InnersWithin(m.Map());
    assert allocated(OuterRepr(m)) && allocated(InnersRepr(m.Map()));
    var found := m.LookupFM(topKey);
    if found.Present? {
      countsMap := found.w;
    } else {
      UWordOrder();
      countsMap := new WordFM(CompareUWord);
      EmptyInner(countsMap, n);
      AddFile(m, topKey, countsMap, n);
    }
  }

  lemma EmptyInner(m: InnerMap, n: nat)
    requires m.Valid() && m.kCmp == CompareUWord && m.tree == Leaf
    ensures InnerOk(m, n) && LinesOf(m) == map[] && Arrays(m) == {}
  {
    assert m.Map() == map[];
  }

  /** Account for counts in the file map. */
  method AddCountsToTable(m: OuterMap, topKey: FileFn, lnno: UWord, newCounts: Counts)
    requires OuterOk(m, newCounts.n_counts) && newCounts.Valid() && newCounts.counts !in OuterRepr(m)
    modifies OuterRepr(m)
    ensures OuterOk(m, newCounts.n_counts) && m.stackTop == old(m.stackTop)
    ensures TableOk(old(TableOf(m)), newCounts.n_counts) && newCounts.counts[..] == old(newCounts.counts[..])
    ensures TableOf(m) == AddCounts(old(TableOf(m)), topKey, lnno, newCounts.counts[..], newCounts.n_counts)
    ensures forall o :: o in OuterRepr(m) ==> o in old(OuterRepr(m)) || fresh(o) || o == newCounts.counts
  {
    hide TableOf, OuterOk, InnerRepr, InnersRepr, AddLine, LinesOf;
    TableIsOk(m, newCounts.n_counts);
    var countsMap := LineMapOf(m, topKey, newCounts.n_counts);
    KnownInner(m, topKey, newCounts.n_counts);
    ghost var table := TableOf(m);
    var merged := AddCountsToFile(m, topKey, countsMap, lnno, newCounts);
    Overwrite(old(TableOf(m)), topKey, table[topKey], TableOf(m)[topKey]);
  }

  lemma KnownInner(m: OuterMap, k: FileFn, n: nat)
    requires OuterOk(m, n) && k in m.Map()
    ensures InnerRepr(m.Map()[k]) <= OuterRepr(m)
  {
    OneInner(m.Map(), k, n);
  }

  lemma OuterWithin(m: OuterMap)
    ensures Inners(m.Map()) <= OuterRepr(m) && InnerNodes(m.Map()) <= OuterRepr(m)
            && InnerArrays(m.Map()) <= OuterRepr(m)
    ensures m in OuterRepr(m) && Nodes(m.tree) <= OuterRepr(m)
    ensures m.nodeStack in OuterRepr(m) && m.numStack in OuterRepr(m)
  {
    InnersWithin(m.Map());
  }

  /** Account for one parsed counts line: to its file and line, and to the running sums.
      Refused, with nothing changed, if it has the wrong number of counts. */
  method HandleCounts(cpf: CacheProfFile, fi: string, fn: string, lnno: UWord, newCounts: Counts) returns (ok: bool)
    requires cpf.Valid() && newCounts.Valid() && newCounts.counts !in cpf.Repr()
    modifies cpf.Repr()
    ensures ok <==> newCounts.n_counts == cpf.n_events
    ensures cpf.Valid()
    ensures TableOk(old(cpf.Table()), cpf.n_events)
    ensures ok ==> cpf.Table()
                   == AddCounts(old(cpf.Table()), FileFn(fi, fn), lnno, old(newCounts.counts[..]), cpf.n_events)
                   && cpf.summary.counts[..] == AddVec(old(cpf.summary.counts[..]), old(newCounts.counts[..]))
    ensures !ok ==> cpf.Table() == old(cpf.Table()) && cpf.summary.counts[..] == old(cpf.summary.counts[..])
    ensures forall o :: o in cpf.Repr() ==> o in old(cpf.Repr()) || fresh(o) || o == newCounts.counts
  {
    hide OuterRepr, TableOf, OuterOk, Same, AddVec, AddCounts;
    var m := cpf.outerMap;
    TableIsOk(m, cpf.n_events);
    if newCounts.n_counts != cpf.n_events {
      return false;
    }
    assert allocated(OuterRepr(m));
    ghost var table, sums := TableOf(m), cpf.summary.counts[..];
    AddCountsToTable(m, FileFn(fi, fn), lnno, newCounts);
    OuterWithin(m);
    assert allocated(OuterRepr(m)) && cpf.summary.counts !in OuterRepr(m);
    AddCountsSummary(sums, table, FileFn(fi, fn), lnno, newCounts.counts[..], cpf.n_events);
    ok := AddCountsInto(cpf.summary, newCounts);
  }

  /** Merge the profile src into dst.  Refused, with nothing changed, unless both list the same events. */
  method MergeCacheProfInfo(dst: CacheProfFile, src: CacheProfFile) returns (ok: bool)
    requires dst.Valid() && src.Valid() && dst.Repr() !! src.Repr()
    requires LeftDepth(src.outerMap.tree) <= WFM_STKMAX && Shallow(src.outerMap.Map())
    modifies dst.Repr(), OuterRepr(src.outerMap)
    ensures ok <==> dst.events_line == src.events_line
    ensures dst.Valid() && src.Valid() && dst.Repr() !! src.Repr() && src.Repr() == old(src.Repr())
    ensures src.Table() == old(src.Table()) && src.summary.counts[..] == old(src.summary.counts[..])
    ensures ok ==> dst.n_events == src.n_events
                   && TableOk(old(dst.Table()), dst.n_events) && TableOk(src.Table(), dst.n_events)
                   && dst.Table() == MergeTables(old(dst.Table()), src.Table(), dst.n_events)
                   && dst.summary.counts[..] == AddVec(old(dst.summary.counts[..]), src.summary.counts[..])
    ensures !ok ==> dst.Table() == old(dst.Table()) && dst.summary.counts[..] == old(dst.summary.counts[..])
    ensures forall o :: o in dst.Repr() ==> o in old(dst.Repr()) || fresh(o)
  {
    hide OuterRepr, TableOf, OuterOk, Same, AddVec, MergeTables, LeftDepth, Shallow, Summarizes, TableOk, EventCount,
         WordFM.Map, Nodes;
    if dst.events_line != src.events_line {
      return false;
    }
    var d, s, n := dst.outerMap, src.outerMap, dst.n_events;
    OuterWithin(d);
    OuterWithin(s);
    assert allocated(OuterRepr(d)) && allocated(OuterRepr(s));
    ghost var dt, st, dv, sv := TableOf(d), TableOf(s), dst.summary.counts[..], src.summary.counts[..];
    MergeOuter(d, s, n);
    OuterWithin(d);
    OuterWithin(s);
    assert allocated(OuterRepr(d)) && dst.summary.counts !in OuterRepr(d) && src.summary.counts !in OuterRepr(d);
    MergeSummary(dv, dt, sv, st, n);
    ok := AddCountsInto(dst.summary, src.summary);
  }
}
