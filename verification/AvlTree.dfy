/** The AVL tree of the WordFM finite map, as a value.
    An entry records, beside key and value, the identity of the node object that
    holds them, so that the in-place operations of module AvlNodes can be
    specified exactly: which node ends up where. */
module AvlTree {

  ghost predicate TotalOrder<K(!new)>(cmp: (K, K) -> int) {
    && (forall x, y :: cmp(x, y) == 0 <==> x == y)
    && (forall x, y :: cmp(x, y) < 0 <==> cmp(y, x) > 0)
    && (forall x, y, z :: cmp(x, y) < 0 && cmp(y, z) < 0 ==> cmp(x, z) < 0)
  }

  datatype Entry<N, K, V> = Entry(node: N, key: K, val: V)

  datatype Tree<N, K, V> =
    | Leaf
    | Node(left: Tree<N, K, V>, entry: Entry<N, K, V>, balance: int, right: Tree<N, K, V>)

  ghost function Height<N, K, V>(t: Tree<N, K, V>): nat {
    match t
    case Leaf => 0
    case Node(l, _, _, r) => 1 + if Height(l) < Height(r) then Height(r) else Height(l)
  }

  /** Every stored balance is the height difference it claims to be, and small. */
  ghost predicate Balanced<N, K, V>(t: Tree<N, K, V>) {
    match t
    case Leaf => true
    case Node(l, _, b, r) =>
      Balanced(l) && Balanced(r) && b == Height(r) - Height(l) && -1 <= b <= 1
  }

  /** The entries of t from left to right, followed by rest.  Building the sequence
      this way makes a rotation leave it unchanged by definition. */
  ghost function Onto<N, K, V>(t: Tree<N, K, V>, rest: seq<Entry<N, K, V>>): seq<Entry<N, K, V>> {
    match t
    case Leaf => rest
    case Node(l, e, _, r) => Onto(l, [e] + Onto(r, rest))
  }

  ghost function Contents<N, K, V>(t: Tree<N, K, V>): seq<Entry<N, K, V>> {
    Onto(t, [])
  }

  // ---------------------------------------------------------------- swings

  ghost function SwingLeft<N, K, V>(t: Tree<N, K, V>): Tree<N, K, V>
    requires t.Node? && t.right.Node?
  {
    t.right.(left := t.(right := t.right.left))
  }

  ghost function SwingRight<N, K, V>(t: Tree<N, K, V>): Tree<N, K, V>
    requires t.Node? && t.left.Node?
  {
    t.left.(right := t.(left := t.left.right))
  }

  /** Balances after a double swing, from the balance of the new root. */
  ghost function Nasty<N, K, V>(t: Tree<N, K, V>): Tree<N, K, V>
    requires t.Node? && t.left.Node? && t.right.Node?
  {
    t.(left := t.left.(balance := if t.balance == 1 then -1 else 0),
       right := t.right.(balance := if t.balance == -1 then 1 else 0),
       balance := 0)
  }

  /** Left child swung left, then the root swung right: the grandchild becomes the root. */
  ghost function DoubleSwingRight<N, K, V>(t: Tree<N, K, V>): (u: Tree<N, K, V>)
    requires t.Node? && Balanced(t.left) && Balanced(t.right)
    requires Height(t.left) == Height(t.right) + 2 && t.left.balance == 1
    ensures Balanced(u) && Height(u) == Height(t.left)
  {
    var a, mid, d := t.left.left, t.left.right, t.right;
    var u := Nasty(SwingRight(t.(left := SwingLeft(t.left))));
    assert u.left == Node(a, t.left.entry, if mid.balance == 1 then -1 else 0, mid.left);
    assert u.right == Node(mid.right, t.entry, if mid.balance == -1 then 1 else 0, d);
    assert Balanced(mid) && Height(mid) == Height(d) + 1;
    assert Balanced(u.left) && Balanced(u.right);
    u
  }

  ghost function DoubleSwingLeft<N, K, V>(t: Tree<N, K, V>): (u: Tree<N, K, V>)
    requires t.Node? && Balanced(t.left) && Balanced(t.right)
    requires Height(t.right) == Height(t.left) + 2 && t.right.balance == -1
    ensures Balanced(u) && Height(u) == Height(t.right)
  {
    var a, mid, d := t.left, t.right.left, t.right.right;
    var u := Nasty(SwingLeft(t.(right := SwingRight(t.right))));
    assert u.left == Node(a, t.entry, if mid.balance == 1 then -1 else 0, mid.left);
    assert u.right == Node(mid.right, t.right.entry, if mid.balance == -1 then 1 else 0, d);
    assert Balanced(mid) && Height(mid) == Height(a) + 1;
    assert Balanced(u.left) && Balanced(u.right);
    u
  }

  // ------------------------------------------------- rebalancing, one level

  /** An insertion result that grew: a single new node, or a root that leans. */
  ghost predicate GrownShape<N, K, V>(t: Tree<N, K, V>) {
    t.Node? && (Height(t) == 1 || t.balance != 0)
  }

  /** The left subtree of a balanced tree has been replaced by one that is one higher. */
  ghost function GrewLeft<N, K, V>(t: Tree<N, K, V>): (r: (Tree<N, K, V>, bool))
    requires t.Node? && Balanced(t.left) && Balanced(t.right) && -1 <= t.balance <= 1
    requires GrownShape(t.left) && t.balance == Height(t.right) - (Height(t.left) - 1)
    ensures Balanced(r.0)
    ensures r.1 <==> t.balance == 0
    ensures r.1 ==> GrownShape(r.0) && Height(r.0) == 1 + Height(t.left) && r.0.entry == t.entry
    ensures !r.1 ==> Height(r.0) == 1 + if t.balance == 1 then Height(t.right) else Height(t.right) + 1
  {
    if t.balance == 1 then (t.(balance := 0), false)
    else if t.balance == 0 then (t.(balance := -1), true)
    else if t.left.balance < 0 then
      var u := SwingRight(t);
      (u.(balance := 0, right := u.right.(balance := 0)), false)
    else
      (DoubleSwingRight(t), false)
  }

  ghost function GrewRight<N, K, V>(t: Tree<N, K, V>): (r: (Tree<N, K, V>, bool))
    requires t.Node? && Balanced(t.left) && Balanced(t.right) && -1 <= t.balance <= 1
    requires GrownShape(t.right) && t.balance == Height(t.right) - 1 - Height(t.left)
    ensures Balanced(r.0)
    ensures r.1 <==> t.balance == 0
    ensures r.1 ==> GrownShape(r.0) && Height(r.0) == 1 + Height(t.right) && r.0.entry == t.entry
    ensures !r.1 ==> Height(r.0) == 1 + if t.balance == -1 then Height(t.left) else Height(t.left) + 1
  {
    if t.balance == -1 then (t.(balance := 0), false)
    else if t.balance == 0 then (t.(balance := 1), true)
    else if t.right.balance > 0 then
      var u := SwingLeft(t);
      (u.(balance := 0, left := u.left.(balance := 0)), false)
    else
      (DoubleSwingLeft(t), false)
  }

  /** The left subtree of a balanced tree has been replaced by one that is one lower. */
  ghost function ShrankLeft<N, K, V>(t: Tree<N, K, V>): (r: (Tree<N, K, V>, bool))
    requires t.Node? && Balanced(t.left) && Balanced(t.right) && -1 <= t.balance <= 1
    requires t.balance == Height(t.right) - (Height(t.left) + 1)
    ensures Balanced(r.0)
    ensures var before := 1 + if t.balance == 1 then Height(t.right) else Height(t.left) + 1;
            Height(r.0) == if r.1 then before - 1 else before
  {
    if t.balance <= 0 then (t.(balance := t.balance + 1), t.balance == -1)
    else if t.right.balance == 0 then
      var u := SwingLeft(t);
      (u.(balance := -1, left := u.left.(balance := 1)), false)
    else if t.right.balance == 1 then
      var u := SwingLeft(t);
      (u.(balance := 0, left := u.left.(balance := 0)), true)
    else
      (DoubleSwingLeft(t), true)
  }

  ghost function ShrankRight<N, K, V>(t: Tree<N, K, V>): (r: (Tree<N, K, V>, bool))
    requires t.Node? && Balanced(t.left) && Balanced(t.right) && -1 <= t.balance <= 1
    requires t.balance == Height(t.right) + 1 - Height(t.left)
    ensures Balanced(r.0)
    ensures var before := 1 + if t.balance == -1 then Height(t.left) else Height(t.right) + 1;
            Height(r.0) == if r.1 then before - 1 else before
  {
    if t.balance >= 0 then (t.(balance := t.balance - 1), t.balance == 1)
    else if t.left.balance == 0 then
      var u := SwingRight(t);
      (u.(balance := 1, right := u.right.(balance := -1)), false)
    else if t.left.balance == -1 then
      var u := SwingRight(t);
      (u.(balance := 0, right := u.right.(balance := 0)), true)
    else
      (DoubleSwingRight(t), true)
  }

  lemma SwingContents<N, K, V>(t: Tree<N, K, V>, rest: seq<Entry<N, K, V>>)
    requires t.Node?
    ensures t.left.Node? ==> Onto(SwingRight(t), rest) == Onto(t, rest)
    ensures t.right.Node? ==> Onto(SwingLeft(t), rest) == Onto(t, rest)
  {
    if t.left.Node? {
      assert Onto(SwingRight(t).right, rest) == Onto(t.left.right, [t.entry] + Onto(t.right, rest));
    }
    if t.right.Node? {
      assert Onto(SwingLeft(t).left, [t.right.entry] + Onto(t.right.right, rest))
          == Onto(t.left, [t.entry] + Onto(t.right.left, [t.right.entry] + Onto(t.right.right, rest)));
    }
  }

  lemma DoubleSwingContents<N, K, V>(t: Tree<N, K, V>, rest: seq<Entry<N, K, V>>)
    requires t.Node?
    ensures t.left.Node? && t.left.right.Node? ==>
              Onto(Nasty(SwingRight(t.(left := SwingLeft(t.left)))), rest) == Onto(t, rest)
    ensures t.right.Node? && t.right.left.Node? ==>
              Onto(Nasty(SwingLeft(t.(right := SwingRight(t.right)))), rest) == Onto(t, rest)
  {
    if t.left.Node? && t.left.right.Node? {
      var u := t.(left := SwingLeft(t.left));
      SwingContents(t.left, [t.entry] + Onto(t.right, rest));
      SwingContents(u, rest);
      NastyContents(SwingRight(u), rest);
    }
    if t.right.Node? && t.right.left.Node? {
      var u := t.(right := SwingRight(t.right));
      SwingContents(t.right, rest);
      SwingContents(u, rest);
      NastyContents(SwingLeft(u), rest);
    }
  }

  lemma NastyContents<N, K, V>(t: Tree<N, K, V>, rest: seq<Entry<N, K, V>>)
    requires t.Node? && t.left.Node? && t.right.Node?
    ensures Onto(Nasty(t), rest) == Onto(t, rest)
  {
    var u := Nasty(t);
    assert Onto(u.right, rest) == Onto(t.right, rest);
    assert Onto(u.left, [t.entry] + Onto(t.right, rest)) == Onto(t.left, [t.entry] + Onto(t.right, rest));
  }

  lemma GrewContents<N, K, V>(t: Tree<N, K, V>, rest: seq<Entry<N, K, V>>)
    requires t.Node? && Balanced(t.left) && Balanced(t.right) && -1 <= t.balance <= 1
    ensures GrownShape(t.left) && t.balance == Height(t.right) - (Height(t.left) - 1) ==>
              Onto(GrewLeft(t).0, rest) == Onto(t, rest)
    ensures GrownShape(t.right) && t.balance == Height(t.right) - 1 - Height(t.left) ==>
              Onto(GrewRight(t).0, rest) == Onto(t, rest)
  {
    SwingContents(t, rest);
    DoubleSwingContents(t, rest);
  }

  lemma ShrankLeftContents<N, K, V>(t: Tree<N, K, V>, rest: seq<Entry<N, K, V>>)
    requires t.Node? && Balanced(t.left) && Balanced(t.right) && -1 <= t.balance <= 1
    requires t.balance == Height(t.right) - (Height(t.left) + 1)
    ensures Onto(ShrankLeft(t).0, rest) == Onto(t, rest)
  {
    if t.balance == 1 {
      if t.right.balance == -1 { DoubleSwingContents(t, rest); } else { SwingContents(t, rest); }
    }
  }

  lemma ShrankRightContents<N, K, V>(t: Tree<N, K, V>, rest: seq<Entry<N, K, V>>)
    requires t.Node? && Balanced(t.left) && Balanced(t.right) && -1 <= t.balance <= 1
    requires t.balance == Height(t.right) + 1 - Height(t.left)
    ensures Onto(ShrankRight(t).0, rest) == Onto(t, rest)
  {
    if t.balance == -1 {
      if t.left.balance == 1 { DoubleSwingContents(t, rest); } else { SwingContents(t, rest); }
    }
  }

  lemma ReplaceContents<N, K, V>(t: Tree<N, K, V>, u: (Tree<N, K, V>, bool), rest: seq<Entry<N, K, V>>)
    requires t.Node? && Balanced(t) && Balanced(u.0)
    ensures Height(t.left) == Height(u.0) + (if u.1 then 1 else 0) ==>
              Onto(ReplaceLeft(t, u).0, rest) == Onto(u.0, [t.entry] + Onto(t.right, rest))
    ensures Height(t.right) == Height(u.0) + (if u.1 then 1 else 0) ==>
              Onto(ReplaceRight(t, u).0, rest) == Onto(t.left, [t.entry] + Onto(u.0, rest))
  {
    if u.1 && Height(t.left) == Height(u.0) + 1 { ShrankLeftContents(t.(left := u.0), rest); }
    if u.1 && Height(t.right) == Height(u.0) + 1 { ShrankRightContents(t.(right := u.0), rest); }
  }

  // ----------------------------------------------------------------- search

  ghost predicate Found<N, K, V>(t: Tree<N, K, V>, k: K, cmp: (K, K) -> int) {
    match t
    case Leaf => false
    case Node(l, e, _, r) =>
      if cmp(e.key, k) > 0 then Found(l, k, cmp)
      else if cmp(e.key, k) < 0 then Found(r, k, cmp)
      else true
  }

  /** The entry at which the search for k stops. */
  ghost function At<N, K, V>(t: Tree<N, K, V>, k: K, cmp: (K, K) -> int): Entry<N, K, V>
    requires Found(t, k, cmp)
  {
    if cmp(t.entry.key, k) > 0 then At(t.left, k, cmp)
    else if cmp(t.entry.key, k) < 0 then At(t.right, k, cmp)
    else t.entry
  }

  /** The entries the search for k passes on its left, followed by rest ... */
  ghost function Before<N, K, V>(t: Tree<N, K, V>, k: K, cmp: (K, K) -> int, rest: seq<Entry<N, K, V>>): seq<Entry<N,
          K, V>> {
    match t
    case Leaf => rest
    case Node(l, e, _, r) =>
      if cmp(e.key, k) > 0 then Before(l, k, cmp, rest)
      else if cmp(e.key, k) < 0 then Onto(l, [e] + Before(r, k, cmp, rest))
      else Onto(l, rest)
  }

  /** ... and those it passes on its right, followed by rest. */
  ghost function After<N, K, V>(t: Tree<N, K, V>, k: K, cmp: (K, K) -> int, rest: seq<Entry<N, K, V>>): seq<Entry<N,
          K, V>> {
    match t
    case Leaf => rest
    case Node(l, e, _, r) =>
      if cmp(e.key, k) > 0 then After(l, k, cmp, [e] + Onto(r, rest))
      else if cmp(e.key, k) < 0 then After(r, k, cmp, rest)
      else Onto(r, rest)
  }

  // -------------------------------------------------------------- insertion

  /** t with its left subtree replaced by l.0, which is higher by one exactly when l.1. */
  ghost function ExtendLeft<N, K, V>(t: Tree<N, K, V>, l: (Tree<N, K, V>, bool)): (r: (Tree<N, K, V>, bool))
    requires t.Node? && Balanced(t) && Balanced(l.0) && Height(l.0) == Height(t.left) + if l.1 then 1 else 0
    requires l.1 ==> GrownShape(l.0)
    ensures Balanced(r.0) && r.0.Node? && Height(r.0) == Height(t) + if r.1 then 1 else 0
    ensures r.1 ==> GrownShape(r.0) && r.0.entry == t.entry
  {
    if l.1 then GrewLeft(t.(left := l.0)) else (t.(left := l.0), false)
  }

  ghost function ExtendRight<N, K, V>(t: Tree<N, K, V>, r: (Tree<N, K, V>, bool)): (u: (Tree<N, K, V>, bool))
    requires t.Node? && Balanced(t) && Balanced(r.0) && Height(r.0) == Height(t.right) + if r.1 then 1 else 0
    requires r.1 ==> GrownShape(r.0)
    ensures Balanced(u.0) && u.0.Node? && Height(u.0) == Height(t) + if u.1 then 1 else 0
    ensures u.1 ==> GrownShape(u.0) && u.0.entry == t.entry
  {
    if r.1 then GrewRight(t.(right := r.0)) else (t.(right := r.0), false)
  }

  ghost function Insert<N, K, V>(t: Tree<N, K, V>, a: Entry<N, K, V>, cmp: (K, K) -> int): (r: (Tree<N, K, V>, bool))
    requires Balanced(t)
    ensures Balanced(r.0) && r.0.Node?
    ensures Height(r.0) == if r.1 then Height(t) + 1 else Height(t)
    ensures r.1 ==> GrownShape(r.0)
    ensures r.1 && t.Node? ==> r.0.entry == t.entry
  {
    match t
    case Leaf => (Node(Leaf, a, 0, Leaf), true)
    case Node(l, e, _, r) =>
      if cmp(e.key, a.key) > 0 then ExtendLeft(t, Insert(l, a, cmp))
      else if cmp(e.key, a.key) < 0 then ExtendRight(t, Insert(r, a, cmp))
      else (t.(entry := e.(val := a.val)), false)
  }

  /** The entry an insertion leaves in place: a itself, or the one found with a's value. */
  ghost function Stored<N, K, V>(t: Tree<N, K, V>, a: Entry<N, K, V>, cmp: (K, K) -> int): Entry<N, K, V> {
    match t
    case Leaf => a
    case Node(l, e, _, r) =>
      if cmp(e.key, a.key) > 0 then Stored(l, a, cmp)
      else if cmp(e.key, a.key) < 0 then Stored(r, a, cmp)
      else e.(val := a.val)
  }

  lemma {:induction false} InsertContents<N, K, V>(t: Tree<N, K, V>, a: Entry<N, K, V>, cmp: (K, K) -> int,
          rest: seq<Entry<N, K, V>>)
    requires Balanced(t)
    ensures Onto(Insert(t, a, cmp).0, rest) ==
            Before(t, a.key, cmp, [Stored(t, a, cmp)] + After(t, a.key, cmp, rest))
  {
    match t
    case Leaf =>
    case Node(l, e, _, r) =>
      if cmp(e.key, a.key) > 0 {
        InsertContents(l, a, cmp, [e] + Onto(r, rest));
        GrewContents(t.(left := Insert(l, a, cmp).0), rest);
      } else if cmp(e.key, a.key) < 0 {
        InsertContents(r, a, cmp, rest);
        GrewContents(t.(right := Insert(r, a, cmp).0), rest);
      }
  }

  // --------------------------------------------------------------- deletion

  ghost function First<N, K, V>(t: Tree<N, K, V>): Entry<N, K, V>
    requires t.Node?
  {
    if t.left.Leaf? then t.entry else First(t.left)
  }

  ghost function Last<N, K, V>(t: Tree<N, K, V>): Entry<N, K, V>
    requires t.Node?
  {
    if t.right.Leaf? then t.entry else Last(t.right)
  }

  /** t with its left subtree replaced by l.0, which is lower by one exactly when l.1. */
  ghost function ReplaceLeft<N, K, V>(t: Tree<N, K, V>, l: (Tree<N, K, V>, bool)): (r: (Tree<N, K, V>, bool))
    requires t.Node? && Balanced(t) && Balanced(l.0) && Height(t.left) == Height(l.0) + if l.1 then 1 else 0
    ensures Balanced(r.0) && Height(t) == Height(r.0) + if r.1 then 1 else 0
    ensures t.balance <= 0 ==> r.0.Node? && r.0.left == l.0 && r.0.entry == t.entry && r.0.right == t.right
  {
    if l.1 then ShrankLeft(t.(left := l.0)) else (t.(left := l.0), false)
  }

  ghost function ReplaceRight<N, K, V>(t: Tree<N, K, V>, r: (Tree<N, K, V>, bool)): (u: (Tree<N, K, V>, bool))
    requires t.Node? && Balanced(t) && Balanced(r.0) && Height(t.right) == Height(r.0) + if r.1 then 1 else 0
    ensures Balanced(u.0) && Height(t) == Height(u.0) + if u.1 then 1 else 0
    ensures t.balance >= 0 ==> u.0.Node? && u.0.left == t.left && u.0.entry == t.entry && u.0.right == r.0
  {
    if r.1 then ShrankRight(t.(right := r.0)) else (t.(right := r.0), false)
  }

  ghost function RemoveFirst<N, K, V>(t: Tree<N, K, V>): (r: (Tree<N, K, V>, bool))
    requires t.Node? && Balanced(t)
    ensures Balanced(r.0) && Height(t) == Height(r.0) + if r.1 then 1 else 0
  {
    if t.left.Leaf? then (t.right, true) else ReplaceLeft(t, RemoveFirst(t.left))
  }

  ghost function RemoveLast<N, K, V>(t: Tree<N, K, V>): (r: (Tree<N, K, V>, bool))
    requires t.Node? && Balanced(t)
    ensures Balanced(r.0) && Height(t) == Height(r.0) + if r.1 then 1 else 0
  {
    if t.right.Leaf? then (t.left, true) else ReplaceRight(t, RemoveLast(t.right))
  }

  /** Without its root entry: a neighbour from the higher side takes the root's place. */
  ghost function RemoveRoot<N, K, V>(t: Tree<N, K, V>): (r: (Tree<N, K, V>, bool))
    requires t.Node? && Balanced(t)
    ensures Balanced(r.0) && Height(t) == Height(r.0) + if r.1 then 1 else 0
  {
    if t.left.Leaf? then (t.right, true)
    else if t.right.Leaf? then (t.left, true)
    else if t.balance < 0 then
      var (u, shrank) := ReplaceLeft(t, RemoveLast(t.left));
      (u.(entry := Last(t.left)), shrank)
    else
      var (u, shrank) := ReplaceRight(t, RemoveFirst(t.right));
      (u.(entry := First(t.right)), shrank)
  }

  ghost function Remove<N, K, V>(t: Tree<N, K, V>, k: K, cmp: (K, K) -> int): (r: (Tree<N, K, V>, bool))
    requires Balanced(t) && Found(t, k, cmp)
    ensures Balanced(r.0) && Height(t) == Height(r.0) + if r.1 then 1 else 0
  {
    if cmp(t.entry.key, k) > 0 then ReplaceLeft(t, Remove(t.left, k, cmp))
    else if cmp(t.entry.key, k) < 0 then ReplaceRight(t, Remove(t.right, k, cmp))
    else RemoveRoot(t)
  }

  lemma {:induction false} RemoveFirstContents<N, K, V>(t: Tree<N, K, V>, rest: seq<Entry<N, K, V>>)
    requires t.Node? && Balanced(t)
    ensures Onto(t, rest) == [First(t)] + Onto(RemoveFirst(t).0, rest)
  {
    if t.left.Node? {
      RemoveFirstContents(t.left, [t.entry] + Onto(t.right, rest));
      ReplaceContents(t, RemoveFirst(t.left), rest);
    }
  }

  lemma {:induction false} RemoveLastContents<N, K, V>(t: Tree<N, K, V>, rest: seq<Entry<N, K, V>>)
    requires t.Node? && Balanced(t)
    ensures Onto(t, rest) == Onto(RemoveLast(t).0, [Last(t)] + rest)
  {
    if t.right.Node? {
      RemoveLastContents(t.right, rest);
      ReplaceContents(t, RemoveLast(t.right), [Last(t)] + rest);
    }
  }

  lemma RemoveRootContents<N, K, V>(t: Tree<N, K, V>, rest: seq<Entry<N, K, V>>)
    requires t.Node? && Balanced(t)
    ensures Onto(RemoveRoot(t).0, rest) == Onto(t.left, Onto(t.right, rest))
  {
    if t.left.Node? && t.right.Node? {
      RemoveLastContents(t.left, Onto(t.right, rest));
      RemoveFirstContents(t.right, rest);
    }
  }

  lemma {:induction false} RemoveContents<N, K, V>(t: Tree<N, K, V>, k: K, cmp: (K, K) -> int, rest: seq<Entry<N, K,
          V>>)
    requires Balanced(t) && Found(t, k, cmp)
    ensures Onto(Remove(t, k, cmp).0, rest) == Before(t, k, cmp, After(t, k, cmp, rest))
  {
    if cmp(t.entry.key, k) > 0 {
      RemoveContents(t.left, k, cmp, [t.entry] + Onto(t.right, rest));
      ReplaceContents(t, Remove(t.left, k, cmp), rest);
    } else if cmp(t.entry.key, k) < 0 {
      RemoveContents(t.right, k, cmp, rest);
      ReplaceContents(t, Remove(t.right, k, cmp), rest);
    } else {
      RemoveRootContents(t, rest);
    }
  }

  // ------------------------------------------------------------------ order

  /** Strictly ascending keys. */
  ghost predicate Ascending<N, K, V>(s: seq<Entry<N, K, V>>, cmp: (K, K) -> int) {
    forall i, j :: 0 <= i < j < |s| ==> cmp(s[i].key, s[j].key) < 0
  }

  ghost predicate Ordered<N, K, V>(t: Tree<N, K, V>, cmp: (K, K) -> int) {
    Ascending(Contents(t), cmp)
  }

  /** A valid AVL search tree. */
  ghost predicate Avl<N, K(!new), V>(t: Tree<N, K, V>, cmp: (K, K) -> int) {
    TotalOrder(cmp) && Balanced(t) && Ordered(t, cmp)
  }

  lemma {:induction false} OntoIsAppend<N, K, V>(t: Tree<N, K, V>, rest: seq<Entry<N, K, V>>)
    ensures Onto(t, rest) == Contents(t) + rest
  {
    match t
    case Leaf =>
    case Node(l, e, _, r) =>
      OntoIsAppend(r, rest);
      OntoIsAppend(l, [e] + Onto(r, rest));
      OntoIsAppend(l, [e] + Contents(r));
      assert [e] + Onto(r, rest) == [e] + Contents(r) + rest;
  }

  lemma ContentsNode<N, K, V>(t: Tree<N, K, V>)
    requires t.Node?
    ensures Contents(t) == Contents(t.left) + [t.entry] + Contents(t.right)
  {
    OntoIsAppend(t.left, [t.entry] + Contents(t.right));
  }

  lemma OrderedParts<N, K, V>(t: Tree<N, K, V>, cmp: (K, K) -> int)
    requires t.Node? && Ordered(t, cmp)
    ensures Ordered(t.left, cmp) && Ordered(t.right, cmp)
    ensures forall e :: e in Contents(t.left) ==> cmp(e.key, t.entry.key) < 0
    ensures forall e :: e in Contents(t.right) ==> cmp(t.entry.key, e.key) < 0
  {
    ContentsNode(t);
    var s, m := Contents(t), |Contents(t.left)|;
    assert Contents(t.left) == s[..m] && s[m] == t.entry && Contents(t.right) == s[m + 1..];
  }

  lemma AvlParts<N, K(!new), V>(t: Tree<N, K, V>, cmp: (K, K) -> int)
    requires t.Node? && Avl(t, cmp)
    ensures Avl(t.left, cmp) && Avl(t.right, cmp)
  {
    OrderedParts(t, cmp);
  }

  lemma {:induction false} FirstLastIn<N, K, V>(t: Tree<N, K, V>)
    requires t.Node?
    ensures First(t) in Contents(t) && Last(t) in Contents(t)
  {
    ContentsNode(t);
    if t.left.Node? { FirstLastIn(t.left); }
    if t.right.Node? { FirstLastIn(t.right); }
  }

  /** Removing by its key the last entry of an ordered tree strips the tree from the right. */
  lemma {:induction false} RemoveByLastKey<N, K(!new), V>(t: Tree<N, K, V>, cmp: (K, K) -> int)
    requires t.Node? && Balanced(t) && Ordered(t, cmp) && TotalOrder(cmp)
    ensures var k := Last(t).key;
            Found(t, k, cmp) && At(t, k, cmp) == Last(t) && Remove(t, k, cmp) == RemoveLast(t)
  {
    if t.right.Node? {
      OrderedParts(t, cmp);
      FirstLastIn(t.right);
      RemoveByLastKey(t.right, cmp);
    }
  }

  lemma {:induction false} RemoveByFirstKey<N, K(!new), V>(t: Tree<N, K, V>, cmp: (K, K) -> int)
    requires t.Node? && Balanced(t) && Ordered(t, cmp) && TotalOrder(cmp)
    ensures var k := First(t).key;
            Found(t, k, cmp) && At(t, k, cmp) == First(t) && Remove(t, k, cmp) == RemoveFirst(t)
  {
    if t.left.Node? {
      OrderedParts(t, cmp);
      FirstLastIn(t.left);
      RemoveByFirstKey(t.left, cmp);
    }
  }

  /** Removing from an ordered tree, by key, the neighbour that will take the root's
      place: the search leaves the root and ends at that neighbour, and the root stays. */
  lemma RemoveNeighbour<N, K(!new), V>(t: Tree<N, K, V>, cmp: (K, K) -> int)
    requires t.Node? && t.left.Node? && t.right.Node? && Avl(t, cmp)
    ensures var e := if t.balance < 0 then Last(t.left) else First(t.right);
            && cmp(t.entry.key, e.key) != 0 && Found(t, e.key, cmp) && At(t, e.key, cmp) == e
            && Remove(t, e.key, cmp).0.Node?
            && RemoveRoot(t).0 == Remove(t, e.key, cmp).0.(entry := e)
            && RemoveRoot(t).1 == Remove(t, e.key, cmp).1
            && Remove(t, e.key, cmp).0.entry == t.entry
            && (Remove(t, e.key, cmp).1 ==> Remove(t, e.key, cmp).0.balance == 0)
  {
    OrderedParts(t, cmp);
    if t.balance < 0 {
      FirstLastIn(t.left);
      RemoveByLastKey(t.left, cmp);
    } else {
      FirstLastIn(t.right);
      RemoveByFirstKey(t.right, cmp);
    }
  }
}
