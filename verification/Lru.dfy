/** One set of a set-associative cache with least-recently-used replacement: the
    move-to-front array, and what it holds after any sequence of references. */
module Lru {

  /** Position of the first t in s, or |s|. */
  function Position<T(==,!new)>(s: seq<T>, t: T): (i: nat)
    ensures i <= |s| && (i < |s| ==> s[i] == t) && forall j :: 0 <= j < i ==> s[j] != t
    ensures i < |s| <==> t in s
  {
    if s == [] then 0
    else if s[0] == t then 0
    else
      assert t in s <==> t in s[1..];
      1 + Position(s[1..], t)
  }

  /** The last position a reference to t moves: where t is, or the end of the set. */
  function Reach<T(==,!new)>(s: seq<T>, t: T): (k: nat)
    requires s != []
    ensures k < |s|
  {
    if t in s then Position(s, t) else |s| - 1
  }

  /** x in front, and the entries before position k moved down one over the one at k. */
  function Shuffle<T>(s: seq<T>, k: nat, x: T): (u: seq<T>)
    requires k < |s|
    ensures |u| == |s|
  {
    [x] + s[..k] + s[k + 1..]
  }

  lemma ShuffleAt<T>(s: seq<T>, k: nat, x: T, j: nat)
    requires k < |s| && j < |s|
    ensures Shuffle(s, k, x)[j] == if j == 0 then x else if j <= k then s[j - 1] else s[j]
  {
  }

  /** A reference to t: t becomes the most recent, those before its old place move down one. */
  function Touch<T(==,!new)>(s: seq<T>, t: T): (u: seq<T>)
    requires s != []
    ensures |u| == |s|
  {
    Shuffle(s, Reach(s, t), t)
  }

  /** The set after the references h. */
  function Run<T(==,!new)>(s: seq<T>, h: seq<T>): (u: seq<T>)
    requires s != []
    ensures |u| == |s|
  {
    if h == [] then s else Touch(Run(s, h[..|h| - 1]), h[|h| - 1])
  }

  function Without<T(==,!new)>(r: seq<T>, t: T): (u: seq<T>)
    ensures t !in u && forall x :: x in u <==> x in r && x != t
  {
    if r == [] then [] else
    assert forall x :: x in r <==> x == r[0] || x in r[1..];
    if r[0] == t then Without(r[1..], t) else [r[0]] + Without(r[1..], t)
  }

  /** The distinct tags of h, most recently used first. */
  function Recent<T(==,!new)>(h: seq<T>): (r: seq<T>)
    ensures forall x :: x in r <==> x in h
  {
    if h == [] then [] else
    var m := |h| - 1;
    assert forall x :: x in h <==> x in h[..m] || x == h[m];
    [h[m]] + Without(Recent(h[..m]), h[m])
  }

  /** The first n of r, filled up with z. */
  function Window<T(!new)>(r: seq<T>, n: nat, z: T): (w: seq<T>)
    ensures |w| == n
    ensures forall i :: 0 <= i < n ==> w[i] == if i < |r| then r[i] else z
  {
    seq(n, i requires 0 <= i < n => if i < |r| then r[i] else z)
  }

  ghost predicate Distinct<T(!new)>(r: seq<T>) {
    forall i, j :: 0 <= i < j < |r| ==> r[i] != r[j]
  }

  lemma {:induction false} WithoutAbsent<T(!new)>(r: seq<T>, t: T)
    requires t !in r
    ensures Without(r, t) == r
  {
    if r != [] { WithoutAbsent(r[1..], t); }
  }

  lemma {:induction false} WithoutAppend<T(!new)>(a: seq<T>, b: seq<T>, t: T)
    ensures Without(a + b, t) == Without(a, t) + Without(b, t)
  {
    if a == [] {
      assert a + b == b;
    } else {
      assert (a + b)[1..] == a[1..] + b;
      WithoutAppend(a[1..], b, t);
    }
  }

  lemma WithoutOne<T(!new)>(before: seq<T>, t: T, after: seq<T>)
    requires t !in before && t !in after
    ensures Without(before + ([t] + after), t) == before + after
  {
    WithoutAppend(before, [t] + after, t);
    WithoutAbsent(before, t);
    WithoutAbsent(after, t);
    assert ([t] + after)[1..] == after;
  }

  lemma WithoutPosition<T(!new)>(r: seq<T>, t: T)
    requires Distinct(r)
    ensures Without(r, t) == if t in r then r[..Position(r, t)] + r[Position(r, t) + 1..] else r
  {
    hide Without, Position;
    if t !in r {
      WithoutAbsent(r, t);
    } else {
      var p := Position(r, t);
      assert r == r[..p] + ([t] + r[p + 1..]);
      forall j | p < j < |r| ensures r[j] != t {}
      WithoutOne(r[..p], t, r[p + 1..]);
    }
  }

  lemma WithoutDistinct<T(!new)>(r: seq<T>, t: T)
    requires Distinct(r)
    ensures Distinct(Without(r, t))
  {
    hide Without, Position;
    WithoutPosition(r, t);
  }

  lemma {:induction false} RecentDistinct<T(!new)>(h: seq<T>)
    ensures Distinct(Recent(h))
  {
    if h != [] {
      RecentDistinct(h[..|h| - 1]);
      WithoutDistinct(Recent(h[..|h| - 1]), h[|h| - 1]);
    }
  }

  lemma PositionIs<T(!new)>(s: seq<T>, t: T, p: nat)
    requires p < |s| && s[p] == t && forall j :: 0 <= j < p ==> s[j] != t
    ensures Position(s, t) == p
  {
  }

  lemma TouchAt<T(!new)>(s: seq<T>, t: T, j: nat)
    requires j < |s|
    ensures Touch(s, t)[j] == if j == 0 then t else if j <= Reach(s, t) then s[j - 1] else s[j]
  {
  }

  lemma TouchIs<T(!new)>(w: seq<T>, t: T, k: nat, v: seq<T>)
    requires k < |w| == |v| && k == Reach(w, t)
    requires forall j {:trigger v[j]} :: 0 <= j < |w| ==> v[j] == if j == 0 then t else if j <= k then w[j - 1]
             else w[j]
    ensures Touch(w, t) == v
  {
    forall j | 0 <= j < |w| ensures Touch(w, t)[j] == v[j] { TouchAt(w, t, j); }
  }

  lemma WindowMisses<T(!new)>(r: seq<T>, t: T, n: nat, z: T)
    requires z in r && !(Position(r, t) < |r| && Position(r, t) < n)
    ensures t !in Window(r, n, z)
  {
    hide Position, Window;
    var w := Window(r, n, z);
    forall j | 0 <= j < n ensures w[j] != t {
      assert w[j] == if j < |r| then r[j] else z;
    }
  }

  lemma FrontAt<T(!new)>(r: seq<T>, t: T, j: nat)
    requires Distinct(r)
    ensures var v := [t] + Without(r, t);
            && |v| == (if t in r then |r| else |r| + 1)
            && (j < |v| ==> v[j] == if j == 0 then t else if j <= Position(r, t) then r[j - 1] else r[j])
  {
    hide Without, Distinct, Position;
    WithoutPosition(r, t);
    if t in r { assert |[t] + (r[..Position(r, t)] + r[Position(r, t) + 1..])| == |r|; }
  }

  /** One reference on a window of the recency list. */
  lemma TouchWindow<T(!new)>(r: seq<T>, t: T, n: nat, z: T)
    requires n > 0 && Distinct(r) && z in r
    ensures Touch(Window(r, n, z), t) == Window([t] + Without(r, t), n, z)
    ensures t in Window(r, n, z) <==> Position(r, t) < |r| && Position(r, t) < n
  {
    hide Touch, Position, Without, Distinct, Window;
    var w, p, v := Window(r, n, z), Position(r, t), [t] + Without(r, t);
    var k := if p < |r| && p < n then p else n - 1;
    if p < |r| && p < n { PositionIs(w, t, p); } else { WindowMisses(r, t, n, z); }
    assert k == Reach(w, t);
    var u := Window(v, n, z);
    forall j {:trigger u[j]} | 0 <= j < |w|
      ensures u[j] == if j == 0 then t else if j <= k then w[j - 1] else w[j]
    {
      FrontAt(r, t, j);
    }
    TouchIs(w, t, k, u);
  }

  /** After any references to a set first filled with z, the set holds the tags most recently
      used, newest first, where the fill counts as one earlier reference to z. */
  lemma {:induction false} RunIsRecent<T(!new)>(h: seq<T>, n: nat, z: T)
    requires n > 0
    ensures Run(Window([], n, z), h) == Window(Recent([z] + h), n, z)
  {
    var r := Recent([z] + h);
    if h == [] {
      assert [z] + h == [z] && Recent([z]) == [z];
    } else {
      var before, t := h[..|h| - 1], h[|h| - 1];
      RunIsRecent(before, n, z);
      RecentDistinct([z] + before);
      assert ([z] + h)[..|h|] == [z] + before;
      assert z in [z] + before;
      TouchWindow(Recent([z] + before), t, n, z);
    }
  }

  /** The tags referenced since the last reference to t. */
  function Since<T(==,!new)>(h: seq<T>, t: T): (s: set<T>) {
    if h == [] || h[|h| - 1] == t then {} else Since(h[..|h| - 1], t) + {h[|h| - 1]}
  }

  /** The tags that stand before t in r. */
  ghost function Ahead<T(!new)>(r: seq<T>, t: T): (s: set<T>)
    ensures forall x :: x in s ==> x in r
  {
    if r == [] || r[0] == t then {} else {r[0]} + Ahead(r[1..], t)
  }

  lemma {:induction false} AheadWithout<T(!new)>(r: seq<T>, x: T, t: T)
    requires x != t
    ensures Ahead(Without(r, x), t) == Ahead(r, t) - {x}
  {
    if r != [] {
      AheadWithout(r[1..], x, t);
      assert ([r[0]] + Without(r[1..], x))[1..] == Without(r[1..], x);
    }
  }

  lemma {:induction false} AheadCount<T(!new)>(r: seq<T>, t: T)
    requires Distinct(r) && t in r
    ensures |Ahead(r, t)| == Position(r, t)
  {
    if r[0] != t {
      AheadCount(r[1..], t);
      assert r[0] !in Ahead(r[1..], t);
    }
  }

  lemma {:induction false} SinceIsAhead<T(!new)>(h: seq<T>, t: T)
    requires t in h
    ensures Since(h, t) == Ahead(Recent(h), t)
  {
    hide Without;
    var m := |h| - 1;
    var x, before := h[m], h[..m];
    if x != t {
      assert t in before by { assert before[Position(h, t)] == t; }
      SinceIsAhead(before, t);
      AheadWithout(Recent(before), x, t);
      assert ([x] + Without(Recent(before), x))[1..] == Without(Recent(before), x);
    }
  }

  /** A reference hits exactly when fewer than n other tags were referenced since the tag's
      last use, the fill counting as one earlier use of z. */
  lemma HitIffFewSince<T(!new)>(h: seq<T>, t: T, n: nat, z: T)
    requires n > 0
    ensures t in Run(Window([], n, z), h) <==> t in [z] + h && |Since([z] + h, t)| < n
  {
    RunIsRecent(h, n, z);
    RecentDistinct([z] + h);
    assert z in [z] + h;
    TouchWindow(Recent([z] + h), t, n, z);
    if t in [z] + h {
      SinceIsAhead([z] + h, t);
      AheadCount(Recent([z] + h), t);
    }
  }

  /** The first ways of a set behave as a set with just those ways. */
  lemma TouchPrefix<T(!new)>(s: seq<T>, t: T, n: nat)
    requires 0 < n <= |s|
    ensures Touch(s[..n], t) == Touch(s, t)[..n]
    ensures t in s[..n] ==> t in s
  {
    hide Touch, Position;
    var p := Position(s, t);
    if p < n {
      PositionIs(s[..n], t, p);
    } else {
      forall j | 0 <= j < n ensures s[..n][j] != t {}
    }
    forall j | 0 <= j < n ensures Touch(s[..n], t)[j] == Touch(s, t)[j] {
      TouchAt(s[..n], t, j);
      TouchAt(s, t, j);
    }
  }

  /** Is t in the set after the references h? */
  ghost predicate Resident<T(!new)>(h: seq<T>, t: T, n: nat, z: T)
    requires n > 0
  {
    t in Run(Window([], n, z), h)
  }

  /** The position in h of the reference that last brought t in; 0 if none did. */
  ghost function Installed<T(!new)>(h: seq<T>, t: T, n: nat, z: T): (i: nat)
    requires n > 0
    ensures i <= |h| && (h != [] ==> i < |h|)
  {
    if h == [] then 0 else
    var m := |h| - 1;
    if h[m] == t && !Resident(h[..m], t, n, z) then m else Installed(h[..m], t, n, z)
  }

  /** A hit in the window is at the tag's place in the recency list; a miss reaches the end. */
  lemma WhereReached<T(!new)>(r: seq<T>, t: T, n: nat, z: T, k: nat)
    requires n > 0 && Distinct(r) && z in r && k == Reach(Window(r, n, z), t)
    ensures t in Window(r, n, z) ==> k < |r| && r[k] == t && k == Position(r, t)
    ensures t !in Window(r, n, z) ==> k == n - 1 && (t in r ==> n <= Position(r, t) < |r|)
  {
    TouchWindow(r, t, n, z);
    if t in Window(r, n, z) { PositionIs(Window(r, n, z), t, Position(r, t)); }
  }
}
