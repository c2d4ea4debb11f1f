/** What AVL trees mean: the finite map a valid tree stands for, and what search,
    insertion and deletion do to that map, to the order and to the balances. */
module AvlMap {
  import opened AvlTree

  /** The map listed by a sequence of entries; later entries win. */
  ghost function MapOf<N, K, V>(s: seq<Entry<N, K, V>>): map<K, V> {
    if s == [] then map[] else MapOf(s[..|s| - 1])[s[|s| - 1].key := s[|s| - 1].val]
  }

  ghost function Bindings<N, K, V>(t: Tree<N, K, V>): map<K, V> {
    MapOf(Contents(t))
  }

  lemma {:induction false} MapOfAppend<N, K, V>(a: seq<Entry<N, K, V>>, b: seq<Entry<N, K, V>>)
    ensures MapOf(a + b) == MapOf(a) + MapOf(b)
  {
    if b == [] {
      assert a + b == a;
    } else {
      var m := |b| - 1;
      assert (a + b)[..|a + b| - 1] == a + b[..m];
      MapOfAppend(a, b[..m]);
    }
  }

  lemma MapOfOne<N, K, V>(e: Entry<N, K, V>)
    ensures MapOf([e]) == map[e.key := e.val]
  {
    assert [e][..0] == [];
  }

  lemma {:induction false} MapOfKeys<N, K, V>(s: seq<Entry<N, K, V>>)
    ensures forall k :: k in MapOf(s) <==> exists e :: e in s && e.key == k
  {
    if s != [] {
      var m := |s| - 1;
      MapOfKeys(s[..m]);
      assert s == s[..m] + [s[m]];
    }
  }

  lemma {:induction false} BeforeAfterAppend<N, K, V>(t: Tree<N, K, V>, k: K, cmp: (K, K) -> int, rest: seq<Entry<N,
          K, V>>)
    ensures Before(t, k, cmp, rest) == Before(t, k, cmp, []) + rest
    ensures After(t, k, cmp, rest) == After(t, k, cmp, []) + rest
  {
    hide Onto;
    match t
    case Leaf =>
    case Node(l, e, _, r) =>
      if cmp(e.key, k) > 0 {
        BeforeAfterAppend(l, k, cmp, rest);
        BeforeAfterAppend(l, k, cmp, [e] + Onto(r, rest));
        BeforeAfterAppend(l, k, cmp, [e] + Onto(r, []));
        OntoIsAppend(r, rest);
        OntoIsAppend(r, []);
      } else if cmp(e.key, k) < 0 {
        BeforeAfterAppend(r, k, cmp, rest);
        OntoIsAppend(l, [e] + Before(r, k, cmp, rest));
        OntoIsAppend(l, [e] + Before(r, k, cmp, []));
      } else {
        OntoIsAppend(l, rest);
        OntoIsAppend(r, rest);
        OntoIsAppend(l, []);
        OntoIsAppend(r, []);
      }
  }

  lemma CutNode<N, K, V>(t: Tree<N, K, V>, k: K, cmp: (K, K) -> int)
    requires t.Node?
    ensures var (l, e, r) := (t.left, t.entry, t.right);
            if cmp(e.key, k) > 0 then Before(t, k, cmp, []) == Before(l, k, cmp, [])
                                      && After(t, k, cmp, []) == After(l, k, cmp, []) + ([e] + Contents(r))
            else if cmp(e.key, k) < 0 then Before(t, k, cmp, []) == Contents(l) + ([e] + Before(r, k, cmp, []))
                                           && After(t, k, cmp, []) == After(r, k, cmp, [])
            else Before(t, k, cmp, []) == Contents(l) && After(t, k, cmp, []) == Contents(r)
  {
    hide Onto;
    BeforeAfterAppend(t.left, k, cmp, [t.entry] + Contents(t.right));
    OntoIsAppend(t.left, [t.entry] + Before(t.right, k, cmp, []));
    OntoIsAppend(t.left, []);
    OntoIsAppend(t.right, []);
  }

  /** A search cuts the contents of an ordered tree exactly at the key. */
  lemma {:induction false} SearchSplits<N, K(!new), V>(t: Tree<N, K, V>, k: K, cmp: (K, K) -> int)
    requires TotalOrder(cmp) && Ordered(t, cmp)
    ensures Contents(t) == Before(t, k, cmp, []) + (if Found(t, k, cmp) then [At(t, k, cmp)] else [])
            + After(t, k, cmp, [])
    ensures forall e :: e in Before(t, k, cmp, []) ==> cmp(e.key, k) < 0
    ensures forall e :: e in After(t, k, cmp, []) ==> cmp(k, e.key) < 0
    ensures Found(t, k, cmp) ==> At(t, k, cmp).key == k
  {
    match t
    case Leaf =>
    case Node(l, e, _, r) =>
      SearchSplitsNode(t, k, cmp);
  }

  lemma {:induction false} SearchSplitsNode<N, K(!new), V>(t: Tree<N, K, V>, k: K, cmp: (K, K) -> int)
    requires t.Node? && TotalOrder(cmp) && Ordered(t, cmp)
    ensures Contents(t) == Before(t, k, cmp, []) + (if Found(t, k, cmp) then [At(t, k, cmp)] else [])
            + After(t, k, cmp, [])
    ensures forall e :: e in Before(t, k, cmp, []) ==> cmp(e.key, k) < 0
    ensures forall e :: e in After(t, k, cmp, []) ==> cmp(k, e.key) < 0
    ensures Found(t, k, cmp) ==> At(t, k, cmp).key == k
    decreases t, 0
  {
    hide Contents, Ordered, Before, After, TotalOrder;
    CutNode(t, k, cmp);
    OrderedParts(t, cmp);
    ContentsNode(t);
    if cmp(t.entry.key, k) > 0 {
      SearchSplits(t.left, k, cmp);
      AllAbove(Contents(t.right), k, t.entry.key, cmp);
    } else if cmp(t.entry.key, k) < 0 {
      SearchSplits(t.right, k, cmp);
      AllBelow(Contents(t.left), t.entry.key, k, cmp);
    } else {
      assert t.entry.key == k by { SameKey(t.entry.key, k, cmp); }
    }
  }

  lemma AllAbove<N, K(!new), V>(s: seq<Entry<N, K, V>>, k: K, m: K, cmp: (K, K) -> int)
    requires TotalOrder(cmp) && cmp(m, k) > 0 && forall e :: e in s ==> cmp(m, e.key) < 0
    ensures cmp(k, m) < 0 && forall e :: e in s ==> cmp(k, e.key) < 0
  {
  }

  lemma AllBelow<N, K(!new), V>(s: seq<Entry<N, K, V>>, m: K, k: K, cmp: (K, K) -> int)
    requires TotalOrder(cmp) && cmp(m, k) < 0 && forall e :: e in s ==> cmp(e.key, m) < 0
    ensures forall e :: e in s ==> cmp(e.key, k) < 0
  {
  }

  lemma SameKey<K(!new)>(a: K, b: K, cmp: (K, K) -> int)
    requires TotalOrder(cmp) && cmp(a, b) == 0
    ensures a == b
  {
  }

  /** The two sides of the cut, with or without an entry for k between them. */
  lemma CutOrder<N, K(!new), V>(b: seq<Entry<N, K, V>>, m: seq<Entry<N, K, V>>, a: seq<Entry<N, K, V>>,
                                n: seq<Entry<N, K, V>>, k: K, cmp: (K, K) -> int)
    requires TotalOrder(cmp) && Ascending(b + m + a, cmp)
    requires forall e :: e in b ==> cmp(e.key, k) < 0
    requires forall e :: e in a ==> cmp(k, e.key) < 0
    requires n == [] || (|n| == 1 && n[0].key == k)
    ensures Ascending(b + n + a, cmp)
  {
    var s, u := b + m + a, b + n + a;
    forall i, j | 0 <= i < j < |u| ensures cmp(u[i].key, u[j].key) < 0 {
      var i' := if i < |b| then i else i - |n| + |m|;
      var j' := if j < |b| then j else j - |n| + |m|;
      if i < |b| || i >= |b| + |n| { assert i >= |b| ==> u[i] in a; }
      if j < |b| { assert s[i] == u[i] && s[j] == u[j]; }
      else if j < |b| + |n| { assert u[i] in b; }
      else if i < |b| { assert u[i] in b && u[j] in a && s[i] == u[i] && s[j'] == u[j]; }
      else if i < |b| + |n| { assert u[j] in a; }
      else { assert s[i'] == u[i] && s[j'] == u[j]; }
    }
  }

  lemma CutMap<N, K(!new), V>(b: seq<Entry<N, K, V>>, m: seq<Entry<N, K, V>>, a: seq<Entry<N, K, V>>, k: K, cmp: (K,
          K) -> int)
    requires TotalOrder(cmp)
    requires forall e :: e in b ==> cmp(e.key, k) < 0
    requires forall e :: e in a ==> cmp(k, e.key) < 0
    requires m == [] || (|m| == 1 && m[0].key == k)
    ensures k !in MapOf(b) && k !in MapOf(a)
    ensures MapOf(b + m + a) == MapOf(b) + (if m == [] then map[] else map[k := m[0].val]) + MapOf(a)
  {
    MapOfKeys(b);
    MapOfKeys(a);
    MapOfAppend(b + m, a);
    MapOfAppend(b, m);
    if m != [] {
      assert m == [m[0]];
      MapOfOne(m[0]);
    }
  }

  lemma MapWithout<K, V>(x: map<K, V>, y: map<K, V>, k: K, v: V)
    requires k !in x && k !in y
    ensures (x + map[k := v] + y) - {k} == x + map[] + y
  {
  }

  /** A search finds k exactly when the map binds it, and stops at its binding. */
  lemma SearchCorrect<N, K(!new), V>(t: Tree<N, K, V>, k: K, cmp: (K, K) -> int)
    requires TotalOrder(cmp) && Ordered(t, cmp)
    ensures Found(t, k, cmp) <==> k in Bindings(t)
    ensures Found(t, k, cmp) ==> At(t, k, cmp).key == k && At(t, k, cmp).val == Bindings(t)[k]
  {
    SearchSplits(t, k, cmp);
    CutMap(Before(t, k, cmp, []), if Found(t, k, cmp) then [At(t, k, cmp)] else [], After(t, k, cmp, []), k, cmp);
  }

  lemma {:induction false} StoredIs<N, K(!new), V>(t: Tree<N, K, V>, a: Entry<N, K, V>, cmp: (K, K) -> int)
    requires TotalOrder(cmp)
    ensures Stored(t, a, cmp) == if Found(t, a.key, cmp) then At(t, a.key, cmp).(val := a.val) else a
    ensures Stored(t, a, cmp).key == a.key
  {
    match t
    case Leaf =>
    case Node(l, e, _, r) =>
      StoredIs(l, a, cmp);
      StoredIs(r, a, cmp);
  }

  /** Insertion: a valid tree for the updated map, and the result says whether the height grew. */
  lemma InsertCorrect<N, K(!new), V>(t: Tree<N, K, V>, a: Entry<N, K, V>, cmp: (K, K) -> int)
    requires Avl(t, cmp)
    ensures var (u, grew) := Insert(t, a, cmp);
            && Avl(u, cmp)
            && Bindings(u) == Bindings(t)[a.key := a.val]
            && (grew <==> Height(u) == Height(t) + 1) && (!grew <==> Height(u) == Height(t))
            && |Contents(u)| == |Contents(t)| + if a.key in Bindings(t) then 0 else 1
  {
    hide TotalOrder, Ascending, Insert, Stored, Found, At, Onto, Before, After, MapOf, Balanced, Height;
    var k := a.key;
    var b, c := Before(t, k, cmp, []), After(t, k, cmp, []);
    var m := if Found(t, k, cmp) then [At(t, k, cmp)] else [];
    var e := Stored(t, a, cmp);
    var u := Insert(t, a, cmp).0;
    SearchSplits(t, k, cmp);
    SearchCorrect(t, k, cmp);
    StoredIs(t, a, cmp);
    InsertContents(t, a, cmp, []);
    BeforeAfterAppend(t, k, cmp, [e] + c);
    assert Contents(u) == b + [e] + c;
    CutOrder(b, m, c, [e], k, cmp);
    CutMap(b, m, c, k, cmp);
    CutMap(b, [e], c, k, cmp);
  }

  /** Deletion: a valid tree for the map without k, and the result says whether the height shrank. */
  lemma RemoveCorrect<N, K(!new), V>(t: Tree<N, K, V>, k: K, cmp: (K, K) -> int)
    requires Avl(t, cmp) && k in Bindings(t)
    ensures Found(t, k, cmp)
    ensures var (u, shrank) := Remove(t, k, cmp);
            && Avl(u, cmp)
            && Bindings(u) == Bindings(t) - {k}
            && (shrank <==> Height(t) == Height(u) + 1) && (!shrank <==> Height(u) == Height(t))
            && |Contents(u)| == |Contents(t)| - 1
  {
    hide TotalOrder, Ascending, Remove, Found, At, Onto, Before, After, MapOf, Balanced, Height;
    SearchCorrect(t, k, cmp);
    SearchSplits(t, k, cmp);
    var b, c := Before(t, k, cmp, []), After(t, k, cmp, []);
    var u := Remove(t, k, cmp).0;
    RemoveContents(t, k, cmp, []);
    BeforeAfterAppend(t, k, cmp, c);
    assert Contents(u) == b + [] + c;
    CutOrder(b, [At(t, k, cmp)], c, [], k, cmp);
    CutMap(b, [At(t, k, cmp)], c, k, cmp);
    CutMap(b, [], c, k, cmp);
    MapWithout(MapOf(b), MapOf(c), k, At(t, k, cmp).val);
  }

  lemma {:induction false} OneEntryPerDistinctKey<N, K, V>(s: seq<Entry<N, K, V>>)
    requires forall i, j :: 0 <= i < j < |s| ==> s[i].key != s[j].key
    ensures |MapOf(s)| == |s|
  {
    if s != [] {
      var m := |s| - 1;
      OneEntryPerDistinctKey(s[..m]);
      MapOfKeys(s[..m]);
      assert s[m].key !in MapOf(s[..m]);
    }
  }

  /** An ordered sequence of entries has one entry per key of its map ... */
  lemma OneEntryPerKey<N, K(!new), V>(s: seq<Entry<N, K, V>>, cmp: (K, K) -> int)
    requires TotalOrder(cmp) && Ascending(s, cmp)
    ensures |MapOf(s)| == |s|
  {
    forall i, j | 0 <= i < j < |s| ensures s[i].key != s[j].key {
      assert cmp(s[i].key, s[j].key) < 0;
    }
    OneEntryPerDistinctKey(s);
  }

  /** ... and it is the binding of that key. */
  lemma {:induction false} EntryIsBinding<N, K(!new), V>(s: seq<Entry<N, K, V>>, i: nat, cmp: (K, K) -> int)
    requires TotalOrder(cmp) && Ascending(s, cmp) && i < |s|
    ensures s[i].key in MapOf(s) && MapOf(s)[s[i].key] == s[i].val
  {
    var m := |s| - 1;
    if i < m {
      EntryIsBinding(s[..m], i, cmp);
      assert cmp(s[i].key, s[m].key) < 0 && s[..m][i] == s[i];
    }
  }

  // ------------------------------------------------------------------- runs

  datatype Op<N, K, V> = Add(e: Entry<N, K, V>) | Del(k: K)

  /** One call on the tree: deleting an absent key changes nothing. */
  ghost function StepTree<N, K(!new), V>(t: Tree<N, K, V>, op: Op<N, K, V>, cmp: (K, K) -> int): (u: Tree<N, K, V>)
    requires Avl(t, cmp)
    ensures Avl(u, cmp)
  {
    match op
    case Add(e) =>
      InsertCorrect(t, e, cmp);
      Insert(t, e, cmp).0
    case Del(k) =>
      SearchCorrect(t, k, cmp);
      if Found(t, k, cmp) then RemoveCorrect(t, k, cmp); Remove(t, k, cmp).0 else t
  }

  ghost function RunTree<N, K(!new), V>(ops: seq<Op<N, K, V>>, cmp: (K, K) -> int): (u: Tree<N, K, V>)
    requires TotalOrder(cmp)
    ensures Avl(u, cmp)
  {
    if ops == [] then Leaf else StepTree(RunTree(ops[..|ops| - 1], cmp), ops[|ops| - 1], cmp)
  }

  ghost function RunMap<N, K, V>(ops: seq<Op<N, K, V>>): map<K, V> {
    if ops == [] then map[] else
    var m := RunMap(ops[..|ops| - 1]);
    match ops[|ops| - 1]
    case Add(e) => m[e.key := e.val]
    case Del(k) => m - {k}
  }

  /** After any run of insertions and deletions the tree is a valid one for the finite map
      they describe; searches answer from that map and the tree has one entry per key. */
  lemma {:induction false} RunIsFiniteMap<N, K(!new), V>(ops: seq<Op<N, K, V>>, k: K, cmp: (K, K) -> int)
    requires TotalOrder(cmp)
    ensures var (t, m) := (RunTree(ops, cmp), RunMap(ops));
            && Avl(t, cmp) && Bindings(t) == m && |Contents(t)| == |m|
            && (Found(t, k, cmp) <==> k in m) && (k in m ==> At(t, k, cmp).val == m[k])
  {
    hide TotalOrder, Ascending, Insert, Remove, Found, At, Contents, Bindings, Balanced, Height;
    var t := RunTree(ops, cmp);
    if ops != [] {
      var before := ops[..|ops| - 1];
      RunIsFiniteMap(before, k, cmp);
      var s, op := RunTree(before, cmp), ops[|ops| - 1];
      if op.Add? {
        InsertCorrect(s, op.e, cmp);
      } else {
        SearchCorrect(s, op.k, cmp);
        if Found(s, op.k, cmp) { RemoveCorrect(s, op.k, cmp); }
          else { assert RunMap(before) - {op.k} == RunMap(before); }
      }
    } else {
      EmptyTree<N, K, V>();
    }
    SearchCorrect(t, k, cmp);
    OneEntryPerKey(Contents(t), cmp);
    BindingsAreContents(t);
  }

  lemma EmptyTree<N, K, V>()
    ensures Bindings<N, K, V>(Leaf) == map[]
  {
  }

  lemma BindingsAreContents<N, K, V>(t: Tree<N, K, V>)
    ensures Bindings(t) == MapOf(Contents(t))
  {
  }
}
