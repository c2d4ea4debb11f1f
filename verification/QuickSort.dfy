/** The quicksort behind profile dumps: the algorithm as a function of the array contents,
    when its result is sorted, and the in-place code that computes it. */
module QuickSort {

  type Compare<!T> = (T, T) -> int

  /** Comparing an element with itself gives 0: all that termination needs. */
  ghost predicate Reflexive<T(!new)>(cmp: Compare<T>) {
    forall x :: cmp(x, x) == 0
  }

  /** A consistent comparison, possibly with ties. */
  ghost predicate Preorder<T(!new)>(cmp: Compare<T>) {
    && Reflexive(cmp)
    && (forall x, y :: cmp(x, y) < 0 <==> cmp(y, x) > 0)
    && (forall x, y, z :: cmp(x, y) <= 0 && cmp(y, z) <= 0 ==> cmp(x, z) <= 0)
  }

  predicate InRange<T>(x: seq<T>, a: int, n: int) {
    0 <= a && 0 <= n && a + n <= |x|
  }

  function Swapped<T>(x: seq<T>, i: int, j: int): (y: seq<T>)
    requires 0 <= i < |x| && 0 <= j < |x|
    ensures |y| == |x|
    ensures y[i] == x[j] && y[j] == x[i] && forall k :: 0 <= k < |x| && k != i && k != j ==> y[k] == x[k]
  {
    x[i := x[j]][j := x[i]]
  }

  /** y is x with the elements of the range a .. a+n-1 rearranged. */
  ghost predicate Rearranged<T>(x: seq<T>, y: seq<T>, a: int, n: int)
    requires InRange(x, a, n)
  {
    |y| == |x| && multiset(y[a..a + n]) == multiset(x[a..a + n])
    && forall i :: 0 <= i < |x| && !(a <= i < a + n) ==> y[i] == x[i]
  }

  lemma RearrangedSwap<T>(x: seq<T>, a: int, n: int, i: int, j: int)
    requires InRange(x, a, n) && a <= i < a + n && a <= j < a + n
    ensures Rearranged(x, Swapped(x, i, j), a, n)
  {
    assert Swapped(x, i, j)[a..a + n] == Swapped(x[a..a + n], i - a, j - a);
    assert multiset(Swapped(x[a..a + n], i - a, j - a)) == multiset(x[a..a + n]);
  }

  lemma RearrangedRefl<T>(x: seq<T>, a: int, n: int)
    requires InRange(x, a, n)
    ensures Rearranged(x, x, a, n)
  {
  }

  lemma RearrangedTrans<T>(x: seq<T>, y: seq<T>, z: seq<T>, a: int, n: int)
    requires InRange(x, a, n) && Rearranged(x, y, a, n) && Rearranged(y, z, a, n)
    ensures Rearranged(x, z, a, n)
  {
  }

  /** Rearranging a part rearranges the whole. */
  lemma RearrangedPart<T>(x: seq<T>, y: seq<T>, a: int, n: int, b: int, m: int)
    requires InRange(x, a, n) && a <= b && 0 <= m && b + m <= a + n && Rearranged(x, y, b, m)
    ensures Rearranged(x, y, a, n)
  {
    assert x[a..a + n] == x[a..b] + x[b..b + m] + x[b + m..a + n];
    assert y[a..a + n] == y[a..b] + y[b..b + m] + y[b + m..a + n];
    assert y[a..b] == x[a..b] && y[b + m..a + n] == x[b + m..a + n];
  }

  // ---------------------------------------------------------- insertion sort

  function SiftDown<T>(x: seq<T>, a: int, pl: int, cmp: Compare<T>): (y: seq<T>)
    requires 0 <= a <= pl < |x|
    ensures |y| == |x|
    decreases pl
  {
    if pl > a && cmp(x[pl - 1], x[pl]) > 0 then SiftDown(Swapped(x, pl, pl - 1), a, pl - 1, cmp) else x
  }

  function InsertionSort<T>(x: seq<T>, a: int, pm: int, end: int, cmp: Compare<T>): (y: seq<T>)
    requires 0 <= a <= pm && end <= |x|
    ensures |y| == |x|
    decreases end - pm
  {
    if pm < end then InsertionSort(SiftDown(x, a, pm, cmp), a, pm + 1, end, cmp) else x
  }

  // --------------------------------------------------------------- partition

  function Med3<T>(x: seq<T>, a: int, b: int, c: int, cmp: Compare<T>): (m: int)
    requires 0 <= a < |x| && 0 <= b < |x| && 0 <= c < |x|
    ensures m == a || m == b || m == c
  {
    if cmp(x[a], x[b]) < 0 then (if cmp(x[b], x[c]) < 0 then b else if cmp(x[a], x[c]) < 0 then c else a)
    else (if cmp(x[b], x[c]) > 0 then b else if cmp(x[a], x[c]) > 0 then c else a)
  }

  /** The position of the pivot: the middle, a median of three, or of three such medians. */
  function PivotAt<T>(x: seq<T>, a: int, n: int, cmp: Compare<T>): (m: int)
    requires InRange(x, a, n) && n >= 7
    ensures a <= m < a + n
  {
    var pm := a + n / 2;
    if n == 7 then pm
    else if n <= 40 then Med3(x, a, pm, a + (n - 1), cmp)
    else
      var s := n / 8;
      Med3(x, Med3(x, a, a + s, a + 2 * s, cmp), Med3(x, pm - s, pm, pm + s, cmp),
           Med3(x, a + (n - 1) - 2 * s, a + (n - 1) - s, a + (n - 1), cmp), cmp)
  }

  /** Position m holds the median of the elements at a, b and c. */
  ghost predicate MedianAt<T(!new)>(x: seq<T>, m: int, a: int, b: int, c: int, cmp: Compare<T>)
    requires 0 <= a < |x| && 0 <= b < |x| && 0 <= c < |x|
  {
    || (m == a && (Between(x[b], x[a], x[c], cmp) || Between(x[c], x[a], x[b], cmp)))
    || (m == b && (Between(x[a], x[b], x[c], cmp) || Between(x[c], x[b], x[a], cmp)))
    || (m == c && (Between(x[a], x[c], x[b], cmp) || Between(x[b], x[c], x[a], cmp)))
  }

  ghost predicate Between<T(!new)>(lo: T, v: T, hi: T, cmp: Compare<T>) {
    cmp(lo, v) <= 0 && cmp(v, hi) <= 0
  }

  lemma Med3IsMedian<T(!new)>(x: seq<T>, a: int, b: int, c: int, cmp: Compare<T>)
    requires 0 <= a < |x| && 0 <= b < |x| && 0 <= c < |x| && Preorder(cmp)
    ensures MedianAt(x, Med3(x, a, b, c, cmp), a, b, c, cmp)
  {
    var u, v, w := x[a], x[b], x[c];
    assert cmp(u, v) < 0 <==> cmp(v, u) > 0;
    assert cmp(v, w) < 0 <==> cmp(w, v) > 0;
    assert cmp(u, w) < 0 <==> cmp(w, u) > 0;
    assert cmp(v, u) < 0 <==> cmp(u, v) > 0;
    assert cmp(w, v) < 0 <==> cmp(v, w) > 0;
    assert cmp(w, u) < 0 <==> cmp(u, w) > 0;
  }

  /** Which of several medians it is: the last of the three if it ties with the second only, else the
      first, unless that ties with the second only and the third is less. */
  lemma Med3Ties<T(!new)>(x: seq<T>, a: int, b: int, c: int, cmp: Compare<T>)
    requires 0 <= a < |x| && 0 <= b < |x| && 0 <= c < |x| && Preorder(cmp)
    ensures cmp(x[b], x[c]) == 0 && cmp(x[a], x[b]) != 0 ==> Med3(x, a, b, c, cmp) == c
    ensures cmp(x[a], x[c]) == 0 ==> Med3(x, a, b, c, cmp) == a
    ensures cmp(x[a], x[b]) == 0 && cmp(x[a], x[c]) != 0
            ==> Med3(x, a, b, c, cmp) == if cmp(x[c], x[a]) < 0 then b else a
  {
    var u, v, w := x[a], x[b], x[c];
    assert cmp(u, v) < 0 <==> cmp(v, u) > 0;
    assert cmp(v, w) < 0 <==> cmp(w, v) > 0;
    assert cmp(u, w) < 0 <==> cmp(w, u) > 0;
    assert cmp(v, u) < 0 <==> cmp(u, v) > 0;
    assert cmp(w, v) < 0 <==> cmp(v, w) > 0;
    assert cmp(w, u) < 0 <==> cmp(u, w) > 0;
  }

  /** The pivot of seven elements is the middle one; of up to forty the median of the first, the
      middle and the last. */
  lemma PivotOfFew<T(!new)>(x: seq<T>, a: int, n: int, cmp: Compare<T>)
    requires InRange(x, a, n) && 7 <= n <= 40 && Preorder(cmp)
    ensures n == 7 ==> PivotAt(x, a, n, cmp) == a + 3
    ensures n > 7 ==> MedianAt(x, PivotAt(x, a, n, cmp), a, a + n / 2, a + n - 1, cmp)
  {
    hide Med3, Preorder, MedianAt;
    Med3IsMedian(x, a, a + n / 2, a + (n - 1), cmp);
  }

  lemma ThreeMedians<T(!new)>(x: seq<T>, a: int, m: int, h: int, s: int, cmp: Compare<T>)
    returns (i: int, j: int, k: int)
    requires 0 <= a && 0 <= s && a + 2 * s <= m - s && m + s <= h - 2 * s && h < |x| && Preorder(cmp)
    ensures a <= i <= h && a <= j <= h && a <= k <= h
    ensures i == Med3(x, a, a + s, a + 2 * s, cmp) && j == Med3(x, m - s, m, m + s, cmp)
            && k == Med3(x, h - 2 * s, h - s, h, cmp)
    ensures MedianAt(x, i, a, a + s, a + 2 * s, cmp) && MedianAt(x, j, m - s, m, m + s, cmp)
            && MedianAt(x, k, h - 2 * s, h - s, h, cmp) && MedianAt(x, Med3(x, i, j, k, cmp), i, j, k, cmp)
  {
    hide Med3, Preorder, MedianAt;
    i, j, k := Med3(x, a, a + s, a + 2 * s, cmp), Med3(x, m - s, m, m + s, cmp), Med3(x, h - 2 * s, h - s, h, cmp);
    Med3IsMedian(x, a, a + s, a + 2 * s, cmp);
    Med3IsMedian(x, m - s, m, m + s, cmp);
    Med3IsMedian(x, h - 2 * s, h - s, h, cmp);
    Med3IsMedian(x, i, j, k, cmp);
  }

  /** Of more it is the median of medians i, j and k: of three elements at the start, three around the
      middle and three at the end, an eighth of the range apart. */
  lemma PivotOfMany<T(!new)>(x: seq<T>, a: int, n: int, cmp: Compare<T>) returns (i: int, j: int, k: int)
    requires InRange(x, a, n) && n > 40 && Preorder(cmp)
    ensures a <= i < a + n && a <= j < a + n && a <= k < a + n
    ensures var (s, m, h) := (n / 8, a + n / 2, a + n - 1);
            && MedianAt(x, i, a, a + s, a + 2 * s, cmp) && MedianAt(x, j, m - s, m, m + s, cmp)
            && MedianAt(x, k, h - 2 * s, h - s, h, cmp)
            && MedianAt(x, PivotAt(x, a, n, cmp), i, j, k, cmp)
  {
    hide Med3, Preorder, MedianAt;
    i, j, k := ThreeMedians(x, a, a + n / 2, a + (n - 1), n / 8, cmp);
  }

  /** Equal to the pivot up to pa, less up to pb, unknown up to pc, greater up to pd, equal. */
  datatype Parts<T> = Parts(x: seq<T>, pa: int, pb: int, pc: int, pd: int)

  ghost predicate PartsOk<T>(p: Parts<T>, a: int, n: int) {
    InRange(p.x, a, n) && a <= p.pa <= p.pb <= p.pc + 1 && p.pc <= p.pd < a + n
  }

  /** The scan from below stops at an element above the pivot, moving equal ones to the start. */
  function ScanUp<T>(p: Parts<T>, a: int, n: int, v: T, cmp: Compare<T>): (q: Parts<T>)
    requires PartsOk(p, a, n)
    ensures PartsOk(q, a, n) && |q.x| == |p.x| && q.pc == p.pc && q.pd == p.pd && p.pb <= q.pb
    ensures q.pb <= q.pc ==> cmp(q.x[q.pb], v) > 0
    decreases p.pc - p.pb
  {
    if p.pb <= p.pc && cmp(p.x[p.pb], v) <= 0 then
      if cmp(p.x[p.pb], v) == 0
        then ScanUp(p.(x := Swapped(p.x, p.pa, p.pb), pa := p.pa + 1, pb := p.pb + 1), a, n, v, cmp)
      else ScanUp(p.(pb := p.pb + 1), a, n, v, cmp)
    else p
  }

  /** The scan from above stops at an element below the pivot, moving equal ones to the end. */
  function ScanDown<T>(p: Parts<T>, a: int, n: int, v: T, cmp: Compare<T>): (q: Parts<T>)
    requires PartsOk(p, a, n)
    ensures PartsOk(q, a, n) && |q.x| == |p.x| && q.pa == p.pa && q.pb == p.pb && q.pc <= p.pc
    ensures q.pb <= q.pc ==> cmp(q.x[q.pc], v) < 0
    ensures p.pb <= q.pc ==> q.x[p.pb] == p.x[p.pb]
    decreases p.pc - p.pb
  {
    if p.pb <= p.pc && cmp(p.x[p.pc], v) >= 0 then
      if cmp(p.x[p.pc], v) == 0
        then ScanDown(p.(x := Swapped(p.x, p.pc, p.pd), pd := p.pd - 1, pc := p.pc - 1), a, n, v, cmp)
      else ScanDown(p.(pc := p.pc - 1), a, n, v, cmp)
    else p
  }

  function Partition<T>(p: Parts<T>, a: int, n: int, v: T, cmp: Compare<T>): (q: Parts<T>)
    requires PartsOk(p, a, n)
    ensures PartsOk(q, a, n) && |q.x| == |p.x| && q.pb == q.pc + 1
    decreases p.pc - p.pb
  {
    var q := ScanDown(ScanUp(p, a, n, v, cmp), a, n, v, cmp);
    if q.pb > q.pc then q else
    Partition(q.(x := Swapped(q.x, q.pb, q.pc), pb := q.pb + 1, pc := q.pc - 1), a, n, v, cmp)
  }

  /** Swap s elements from i on with those from j on, one after the other. */
  function Exchange<T>(x: seq<T>, i: int, j: int, s: int): (y: seq<T>)
    requires 0 <= s && 0 <= i && 0 <= j && i + s <= |x| && j + s <= |x|
    ensures |y| == |x|
    decreases s
  {
    if s == 0 then x else Swapped(Exchange(x, i, j, s - 1), i + (s - 1), j + (s - 1))
  }

  // ------------------------------------------------- what partitioning achieves

  ghost predicate Side<T(!new)>(x: seq<T>, lo: int, hi: int, v: T, sign: int, cmp: Compare<T>)
    requires 0 <= lo && hi <= |x|
  {
    forall i :: lo <= i < hi ==> if sign < 0 then cmp(x[i], v) < 0 else if sign > 0 then cmp(x[i], v) > 0
      else cmp(x[i], v) == 0
  }

  ghost predicate Sorting<T(!new)>(p: Parts<T>, x: seq<T>, a: int, n: int, v: T, cmp: Compare<T>) {
    && PartsOk(p, a, n) && InRange(x, a, n) && Rearranged(x, p.x, a, n)
    && Side(p.x, a, p.pa, v, 0, cmp) && Side(p.x, p.pa, p.pb, v, -1, cmp)
    && Side(p.x, p.pc + 1, p.pd + 1, v, 1, cmp) && Side(p.x, p.pd + 1, a + n, v, 0, cmp)
  }

  lemma RearrangedMore<T>(x: seq<T>, y: seq<T>, a: int, n: int, i: int, j: int)
    requires InRange(x, a, n) && Rearranged(x, y, a, n) && a <= i < a + n && a <= j < a + n
    ensures Rearranged(x, Swapped(y, i, j), a, n)
  {
    RearrangedSwap(y, a, n, i, j);
  }

  lemma EqualUp<T(!new)>(p: Parts<T>, x: seq<T>, a: int, n: int, v: T, cmp: Compare<T>)
    requires Sorting(p, x, a, n, v, cmp) && p.pb <= p.pc && cmp(p.x[p.pb], v) == 0
    ensures Sorting(p.(x := Swapped(p.x, p.pa, p.pb), pa := p.pa + 1, pb := p.pb + 1), x, a, n, v, cmp)
  {
    hide Rearranged;
    RearrangedMore(x, p.x, a, n, p.pa, p.pb);
  }

  lemma LessUp<T(!new)>(p: Parts<T>, x: seq<T>, a: int, n: int, v: T, cmp: Compare<T>)
    requires Sorting(p, x, a, n, v, cmp) && p.pb <= p.pc && cmp(p.x[p.pb], v) < 0
    ensures Sorting(p.(pb := p.pb + 1), x, a, n, v, cmp)
  {
    hide Rearranged;
  }

  lemma {:induction false} ScanUpSorts<T(!new)>(p: Parts<T>, x: seq<T>, a: int, n: int, v: T, cmp: Compare<T>)
    requires Sorting(p, x, a, n, v, cmp)
    ensures Sorting(ScanUp(p, a, n, v, cmp), x, a, n, v, cmp)
    decreases p.pc - p.pb
  {
    hide Rearranged, Swapped, Side;
    if p.pb <= p.pc && cmp(p.x[p.pb], v) <= 0 {
      if cmp(p.x[p.pb], v) == 0 {
        EqualUp(p, x, a, n, v, cmp);
        ScanUpSorts(p.(x := Swapped(p.x, p.pa, p.pb), pa := p.pa + 1, pb := p.pb + 1), x, a, n, v, cmp);
      } else {
        LessUp(p, x, a, n, v, cmp);
        ScanUpSorts(p.(pb := p.pb + 1), x, a, n, v, cmp);
      }
    }
  }

  lemma {:induction false} ScanDownSorts<T(!new)>(p: Parts<T>, x: seq<T>, a: int, n: int, v: T, cmp: Compare<T>)
    requires Sorting(p, x, a, n, v, cmp)
    ensures Sorting(ScanDown(p, a, n, v, cmp), x, a, n, v, cmp)
    decreases p.pc - p.pb
  {
    hide Rearranged, Swapped;
    if p.pb <= p.pc && cmp(p.x[p.pc], v) >= 0 {
      if cmp(p.x[p.pc], v) == 0 {
        RearrangedMore(x, p.x, a, n, p.pc, p.pd);
        ScanDownSorts(p.(x := Swapped(p.x, p.pc, p.pd), pd := p.pd - 1, pc := p.pc - 1), x, a, n, v, cmp);
      } else {
        ScanDownSorts(p.(pc := p.pc - 1), x, a, n, v, cmp);
      }
    }
  }

  lemma {:induction false} PartitionSorts<T(!new)>(p: Parts<T>, x: seq<T>, a: int, n: int, v: T, cmp: Compare<T>)
    requires Sorting(p, x, a, n, v, cmp)
    ensures Sorting(Partition(p, a, n, v, cmp), x, a, n, v, cmp)
    decreases p.pc - p.pb
  {
    hide Rearranged, Swapped, ScanUp, ScanDown;
    var r := ScanUp(p, a, n, v, cmp);
    var q := ScanDown(r, a, n, v, cmp);
    ScanUpSorts(p, x, a, n, v, cmp);
    ScanDownSorts(r, x, a, n, v, cmp);
    if q.pb <= q.pc {
      RearrangedMore(x, q.x, a, n, q.pb, q.pc);
      PartitionSorts(q.(x := Swapped(q.x, q.pb, q.pc), pb := q.pb + 1, pc := q.pc - 1), x, a, n, v, cmp);
    }
  }

  // --------------------------------------------------------------- the sort

  function Start<T>(x: seq<T>, a: int, n: int): Parts<T> {
    Parts(x, a, a, a + (n - 1), a + (n - 1))
  }

  /** The parts after partitioning around the pivot. */
  function Parted<T>(x: seq<T>, a: int, n: int, cmp: Compare<T>): (q: Parts<T>)
    requires InRange(x, a, n) && n >= 7
    ensures PartsOk(q, a, n) && |q.x| == |x| && q.pb == q.pc + 1
  {
    Partition(Start(x, a, n), a, n, x[PivotAt(x, a, n, cmp)], cmp)
  }

  /** The elements equal to the pivot put between the others. */
  function Exchanged<T>(q: Parts<T>, a: int, n: int): (y: seq<T>)
    requires PartsOk(q, a, n) && q.pb == q.pc + 1
    ensures |y| == |q.x|
  {
    var s1, s2 := q.pa - a, a + n - 1 - q.pd;
    Exchange(Exchange(q.x, a, q.pb - s1, s1), q.pc + 1, a + n - s2, s2)
  }

  lemma PartedSorts<T(!new)>(x: seq<T>, a: int, n: int, cmp: Compare<T>)
    requires InRange(x, a, n) && n >= 7
    ensures Sorting(Parted(x, a, n, cmp), x, a, n, x[PivotAt(x, a, n, cmp)], cmp)
  {
    hide Partition;
    RearrangedRefl(x, a, n);
    PartitionSorts(Start(x, a, n), x, a, n, x[PivotAt(x, a, n, cmp)], cmp);
  }

  /** The pivot itself is neither less nor greater, so both parts are shorter. */
  lemma PartsShrink<T(!new)>(x: seq<T>, a: int, n: int, cmp: Compare<T>)
    requires InRange(x, a, n) && n >= 7 && Reflexive(cmp)
    ensures var q := Parted(x, a, n, cmp); (q.pb - q.pa) + (q.pd - q.pc) < n
  {
    hide Parted;
    PartedSorts(x, a, n, cmp);
    var q, v := Parted(x, a, n, cmp), x[PivotAt(x, a, n, cmp)];
    assert v == x[a..a + n][PivotAt(x, a, n, cmp) - a];
    assert v in multiset(q.x[a..a + n]);
    var i :| 0 <= i < n && q.x[a..a + n][i] == v;
    assert q.x[a + i] == v && cmp(v, v) == 0;
  }

  /** Sort the range a .. a+n-1 of x. */
  function QSort<T(!new)>(x: seq<T>, a: int, n: int, cmp: Compare<T>): (y: seq<T>)
    requires InRange(x, a, n) && Reflexive(cmp)
    ensures |y| == |x|
    decreases n
  {
    if n < 7 then InsertionSort(x, a, a + 1, a + n, cmp) else
    PartsShrink(x, a, n, cmp);
    var q := Parted(x, a, n, cmp);
    var m1, m2 := q.pb - q.pa, q.pd - q.pc;
    var y := Exchanged(q, a, n);
    var z := if m1 > 1 then QSort(y, a, m1, cmp) else y;
    if m2 > 1 then QSort(z, a + n - m2, m2, cmp) else z
  }

  // -------------------------------------------------------------- permutation

  lemma {:induction false} SiftDownRearranges<T>(x: seq<T>, a: int, pl: int, end: int, cmp: Compare<T>)
    requires 0 <= a <= pl < end <= |x|
    ensures Rearranged(x, SiftDown(x, a, pl, cmp), a, end - a)
    decreases pl
  {
    hide Rearranged, Swapped;
    if pl > a && cmp(x[pl - 1], x[pl]) > 0 {
      RearrangedSwap(x, a, end - a, pl, pl - 1);
      SiftDownRearranges(Swapped(x, pl, pl - 1), a, pl - 1, end, cmp);
      RearrangedTrans(x, Swapped(x, pl, pl - 1), SiftDown(x, a, pl, cmp), a, end - a);
    } else {
      RearrangedRefl(x, a, end - a);
    }
  }

  lemma {:induction false} InsertionSortRearranges<T>(x: seq<T>, a: int, pm: int, end: int, cmp: Compare<T>)
    requires 0 <= a <= pm && end <= |x| && a <= end
    ensures Rearranged(x, InsertionSort(x, a, pm, end, cmp), a, end - a)
    decreases end - pm
  {
    hide Rearranged, SiftDown;
    if pm < end {
      SiftDownRearranges(x, a, pm, end, cmp);
      InsertionSortRearranges(SiftDown(x, a, pm, cmp), a, pm + 1, end, cmp);
      RearrangedTrans(x, SiftDown(x, a, pm, cmp), InsertionSort(x, a, pm, end, cmp), a, end - a);
    } else {
      RearrangedRefl(x, a, end - a);
    }
  }

  lemma {:induction false} ExchangeRearranges<T>(x: seq<T>, i: int, j: int, s: int, a: int, n: int)
    requires InRange(x, a, n) && 0 <= s && a <= i && a <= j && i + s <= a + n && j + s <= a + n
    ensures Rearranged(x, Exchange(x, i, j, s), a, n)
    decreases s
  {
    hide Rearranged, Swapped;
    if s == 0 {
      RearrangedRefl(x, a, n);
    } else {
      ExchangeRearranges(x, i, j, s - 1, a, n);
      RearrangedMore(x, Exchange(x, i, j, s - 1), a, n, i + (s - 1), j + (s - 1));
    }
  }

  lemma ExchangedRearranges<T(!new)>(x: seq<T>, a: int, n: int, cmp: Compare<T>)
    requires InRange(x, a, n) && n >= 7
    ensures Rearranged(x, Exchanged(Parted(x, a, n, cmp), a, n), a, n)
  {
    hide Rearranged, Parted, Exchange;
    PartedSorts(x, a, n, cmp);
    var q := Parted(x, a, n, cmp);
    var s1, s2 := q.pa - a, a + n - 1 - q.pd;
    ExchangeRearranges(q.x, a, q.pb - s1, s1, a, n);
    var y := Exchange(q.x, a, q.pb - s1, s1);
    ExchangeRearranges(y, q.pc + 1, a + n - s2, s2, a, n);
    RearrangedTrans(x, q.x, y, a, n);
    RearrangedTrans(x, y, Exchange(y, q.pc + 1, a + n - s2, s2), a, n);
  }

  /** y rearranges x; the next call rearranges a part of it. */
  lemma ThenPart<T>(x: seq<T>, y: seq<T>, z: seq<T>, a: int, n: int, b: int, m: int)
    requires InRange(x, a, n) && Rearranged(x, y, a, n) && |y| == |x|
    requires a <= b && 0 <= m && b + m <= a + n && Rearranged(y, z, b, m)
    ensures Rearranged(x, z, a, n) && |z| == |x|
  {
    hide Rearranged;
    RearrangedPart(y, z, a, n, b, m);
    RearrangedTrans(x, y, z, a, n);
    SameLength(x, z, a, n);
  }

  lemma SameLength<T>(x: seq<T>, y: seq<T>, a: int, n: int)
    requires InRange(x, a, n) && Rearranged(x, y, a, n)
    ensures |y| == |x|
  {
  }

  /** For any comparison that finds elements equal to themselves the sort ends, permutes the
      range, and touches nothing else. */
  lemma {:induction false} QSortRearranges<T(!new)>(x: seq<T>, a: int, n: int, cmp: Compare<T>)
    requires InRange(x, a, n) && Reflexive(cmp)
    ensures Rearranged(x, QSort(x, a, n, cmp), a, n)
    decreases n
  {
    hide Rearranged, Parted, Exchanged, Reflexive, InsertionSort;
    if n < 7 {
      InsertionSortRearranges(x, a, a + 1, a + n, cmp);
    } else {
      PartsShrink(x, a, n, cmp);
      ExchangedRearranges(x, a, n, cmp);
      var q := Parted(x, a, n, cmp);
      var m1, m2 := q.pb - q.pa, q.pd - q.pc;
      var y := Exchanged(q, a, n);
      var z := if m1 > 1 then QSort(y, a, m1, cmp) else y;
      if m1 > 1 {
        QSortRearranges(y, a, m1, cmp);
        ThenPart(x, y, z, a, n, a, m1);
      }
      if m2 > 1 {
        QSortRearranges(z, a + n - m2, m2, cmp);
        ThenPart(x, z, QSort(z, a + n - m2, m2, cmp), a, n, a + n - m2, m2);
      }
    }
  }

  // ---------------------------------------------------------------- locality

  /** The same in the range. */
  ghost predicate Agree<T>(x: seq<T>, y: seq<T>, a: int, n: int) {
    InRange(x, a, n) && |y| == |x| && forall i :: a <= i < a + n ==> x[i] == y[i]
  }

  lemma SwappedAgree<T>(x: seq<T>, y: seq<T>, a: int, n: int, i: int, j: int)
    requires Agree(x, y, a, n) && a <= i < a + n && a <= j < a + n
    ensures Agree(Swapped(x, i, j), Swapped(y, i, j), a, n)
  {
  }

  lemma {:induction false} SiftDownAgree<T>(x: seq<T>, y: seq<T>, a: int, pl: int, n: int, cmp: Compare<T>)
    requires Agree(x, y, a, n) && a <= pl < a + n
    ensures Agree(SiftDown(x, a, pl, cmp), SiftDown(y, a, pl, cmp), a, n)
    decreases pl
  {
    hide Swapped;
    if pl > a && cmp(x[pl - 1], x[pl]) > 0 {
      SwappedAgree(x, y, a, n, pl, pl - 1);
      SiftDownAgree(Swapped(x, pl, pl - 1), Swapped(y, pl, pl - 1), a, pl - 1, n, cmp);
    }
  }

  lemma {:induction false} InsertionSortAgree<T>(x: seq<T>, y: seq<T>, a: int, pm: int, n: int, cmp: Compare<T>)
    requires Agree(x, y, a, n) && a <= pm
    ensures Agree(InsertionSort(x, a, pm, a + n, cmp), InsertionSort(y, a, pm, a + n, cmp), a, n)
    decreases a + n - pm
  {
    hide SiftDown;
    if pm < a + n {
      SiftDownAgree(x, y, a, pm, n, cmp);
      InsertionSortAgree(SiftDown(x, a, pm, cmp), SiftDown(y, a, pm, cmp), a, pm + 1, n, cmp);
    }
  }

  ghost predicate PartsAgree<T>(p: Parts<T>, q: Parts<T>, a: int, n: int) {
    PartsOk(p, a, n) && PartsOk(q, a, n) && q == p.(x := q.x) && Agree(p.x, q.x, a, n)
  }

  lemma {:induction false} ScanUpAgree<T>(p: Parts<T>, q: Parts<T>, a: int, n: int, v: T, cmp: Compare<T>)
    requires PartsAgree(p, q, a, n)
    ensures PartsAgree(ScanUp(p, a, n, v, cmp), ScanUp(q, a, n, v, cmp), a, n)
    decreases p.pc - p.pb
  {
    hide Swapped;
    if p.pb <= p.pc && cmp(p.x[p.pb], v) <= 0 {
      if cmp(p.x[p.pb], v) == 0 {
        SwappedAgree(p.x, q.x, a, n, p.pa, p.pb);
        ScanUpAgree(p.(x := Swapped(p.x, p.pa, p.pb), pa := p.pa + 1, pb := p.pb + 1),
                    q.(x := Swapped(q.x, q.pa, q.pb), pa := q.pa + 1, pb := q.pb + 1), a, n, v, cmp);
      } else {
        ScanUpAgree(p.(pb := p.pb + 1), q.(pb := q.pb + 1), a, n, v, cmp);
      }
    }
  }

  lemma {:induction false} ScanDownAgree<T>(p: Parts<T>, q: Parts<T>, a: int, n: int, v: T, cmp: Compare<T>)
    requires PartsAgree(p, q, a, n)
    ensures PartsAgree(ScanDown(p, a, n, v, cmp), ScanDown(q, a, n, v, cmp), a, n)
    decreases p.pc - p.pb
  {
    hide Swapped;
    if p.pb <= p.pc && cmp(p.x[p.pc], v) >= 0 {
      if cmp(p.x[p.pc], v) == 0 {
        SwappedAgree(p.x, q.x, a, n, p.pc, p.pd);
        ScanDownAgree(p.(x := Swapped(p.x, p.pc, p.pd), pd := p.pd - 1, pc := p.pc - 1),
                      q.(x := Swapped(q.x, q.pc, q.pd), pd := q.pd - 1, pc := q.pc - 1), a, n, v, cmp);
      } else {
        ScanDownAgree(p.(pc := p.pc - 1), q.(pc := q.pc - 1), a, n, v, cmp);
      }
    }
  }

  lemma {:induction false} PartitionAgree<T>(p: Parts<T>, q: Parts<T>, a: int, n: int, v: T, cmp: Compare<T>)
    requires PartsAgree(p, q, a, n)
    ensures PartsAgree(Partition(p, a, n, v, cmp), Partition(q, a, n, v, cmp), a, n)
    decreases p.pc - p.pb
  {
    hide Swapped, ScanUp, ScanDown;
    var p1, q1 := ScanUp(p, a, n, v, cmp), ScanUp(q, a, n, v, cmp);
    ScanUpAgree(p, q, a, n, v, cmp);
    ScanDownAgree(p1, q1, a, n, v, cmp);
    var p2, q2 := ScanDown(p1, a, n, v, cmp), ScanDown(q1, a, n, v, cmp);
    if p2.pb <= p2.pc {
      SwappedAgree(p2.x, q2.x, a, n, p2.pb, p2.pc);
      PartitionAgree(p2.(x := Swapped(p2.x, p2.pb, p2.pc), pb := p2.pb + 1, pc := p2.pc - 1),
                     q2.(x := Swapped(q2.x, q2.pb, q2.pc), pb := q2.pb + 1, pc := q2.pc - 1), a, n, v, cmp);
    }
  }

  lemma {:induction false} ExchangeAgree<T>(x: seq<T>, y: seq<T>, i: int, j: int, s: int, a: int, n: int)
    requires Agree(x, y, a, n) && 0 <= s && a <= i && a <= j && i + s <= a + n && j + s <= a + n
    ensures Agree(Exchange(x, i, j, s), Exchange(y, i, j, s), a, n)
    decreases s
  {
    hide Swapped;
    if s > 0 {
      ExchangeAgree(x, y, i, j, s - 1, a, n);
      SwappedAgree(Exchange(x, i, j, s - 1), Exchange(y, i, j, s - 1), a, n, i + (s - 1), j + (s - 1));
    }
  }

  lemma PivotAgree<T>(x: seq<T>, y: seq<T>, a: int, n: int, cmp: Compare<T>)
    requires Agree(x, y, a, n) && n >= 7
    ensures PivotAt(x, a, n, cmp) == PivotAt(y, a, n, cmp)
  {
    hide Med3, Agree;
    AgreeRange(x, y, a, n);
    var pm := a + n / 2;
    if 7 < n <= 40 {
      Med3Agree(x, y, a, n, a, pm, a + (n - 1), cmp);
    } else if n > 40 {
      var s := n / 8;
      var e := a + (n - 1);
      Med3Agree(x, y, a, n, a, a + s, a + 2 * s, cmp);
      Med3Agree(x, y, a, n, pm - s, pm, pm + s, cmp);
      Med3Agree(x, y, a, n, e - 2 * s, e - s, e, cmp);
      Med3Agree(x, y, a, n, Med3(x, a, a + s, a + 2 * s, cmp), Med3(x, pm - s, pm, pm + s, cmp),
        Med3(x, e - 2 * s, e - s, e, cmp), cmp);
    }
  }

  lemma Med3Agree<T>(x: seq<T>, y: seq<T>, a: int, n: int, i: int, j: int, k: int, cmp: Compare<T>)
    requires Agree(x, y, a, n) && a <= i < a + n && a <= j < a + n && a <= k < a + n
    ensures Med3(x, i, j, k, cmp) == Med3(y, i, j, k, cmp)
  {
  }

  /** One round of the sort up to the exchanges depends on nothing outside the range. */
  lemma RoundAgree<T(!new)>(x: seq<T>, y: seq<T>, a: int, n: int, cmp: Compare<T>)
    requires Agree(x, y, a, n) && n >= 7
    ensures PartsAgree(Parted(x, a, n, cmp), Parted(y, a, n, cmp), a, n)
    ensures Agree(Exchanged(Parted(x, a, n, cmp), a, n), Exchanged(Parted(y, a, n, cmp), a, n), a, n)
  {
    hide Partition, Exchange, PivotAt;
    PivotAgree(x, y, a, n, cmp);
    PartitionAgree(Start(x, a, n), Start(y, a, n), a, n, x[PivotAt(x, a, n, cmp)], cmp);
    var p, q := Parted(x, a, n, cmp), Parted(y, a, n, cmp);
    var s1, s2 := p.pa - a, a + n - 1 - p.pd;
    ExchangeAgree(p.x, q.x, a, p.pb - s1, s1, a, n);
    ExchangeAgree(Exchange(p.x, a, p.pb - s1, s1), Exchange(q.x, a, q.pb - s1, s1), p.pc + 1, a + n - s2, s2, a, n);
  }

  lemma PartAgrees<T>(x: seq<T>, y: seq<T>, a: int, n: int, b: int, m: int)
    requires Agree(x, y, a, n) && a <= b && 0 <= m && b + m <= a + n
    ensures Agree(x, y, b, m)
  {
  }

  lemma WholeAgrees<T>(x: seq<T>, y: seq<T>, u: seq<T>, w: seq<T>, a: int, n: int, b: int, m: int)
    requires Agree(x, y, a, n) && a <= b && 0 <= m && b + m <= a + n && Agree(u, w, b, m)
    requires Rearranged(x, u, b, m) && Rearranged(y, w, b, m)
    ensures Agree(u, w, a, n)
  {
  }

  /** Sorting a range depends on nothing outside it. */
  lemma {:induction false} QSortAgree<T(!new)>(x: seq<T>, y: seq<T>, a: int, n: int, cmp: Compare<T>)
    requires Agree(x, y, a, n) && Reflexive(cmp)
    ensures Agree(QSort(x, a, n, cmp), QSort(y, a, n, cmp), a, n)
    decreases n
  {
    hide Agree, Rearranged, Parted, Exchanged, Reflexive, InsertionSort;
    assert InRange(x, a, n) && InRange(y, a, n) by { AgreeRange(x, y, a, n); }
    if n < 7 {
      InsertionSortAgree(x, y, a, a + 1, n, cmp);
    } else {
      PartsShrink(x, a, n, cmp);
      PartsShrink(y, a, n, cmp);
      RoundAgree(x, y, a, n, cmp);
      var q := Parted(x, a, n, cmp);
      var m1, m2, b := q.pb - q.pa, q.pd - q.pc, a + n - (q.pd - q.pc);
      var u, v := Exchanged(q, a, n), Exchanged(Parted(y, a, n, cmp), a, n);
      var u1, v1 := u, v;
      if m1 > 1 {
        u1, v1 := QSort(u, a, m1, cmp), QSort(v, a, m1, cmp);
        PartAgrees(u, v, a, n, a, m1);
        QSortAgree(u, v, a, m1, cmp);
        QSortRearranges(u, a, m1, cmp);
        QSortRearranges(v, a, m1, cmp);
        WholeAgrees(u, v, u1, v1, a, n, a, m1);
      }
      if m2 > 1 {
        PartAgrees(u1, v1, a, n, b, m2);
        QSortAgree(u1, v1, b, m2, cmp);
        QSortRearranges(u1, b, m2, cmp);
        QSortRearranges(v1, b, m2, cmp);
        WholeAgrees(u1, v1, QSort(u1, b, m2, cmp), QSort(v1, b, m2, cmp), a, n, b, m2);
      }
    }
  }

  lemma AgreeRange<T>(x: seq<T>, y: seq<T>, a: int, n: int)
    requires Agree(x, y, a, n)
    ensures InRange(x, a, n) && InRange(y, a, n) && |y| == |x|
  {
  }

  // ------------------------------------------------------------------- order

  ghost predicate Sorted<T(!new)>(x: seq<T>, a: int, n: int, cmp: Compare<T>)
    requires InRange(x, a, n)
  {
    forall i, j :: a <= i < j < a + n ==> cmp(x[i], x[j]) <= 0
  }

  /** Sorted but for the element at pl, which may belong further down. */
  ghost predicate SortedBut<T(!new)>(x: seq<T>, a: int, end: int, pl: int, cmp: Compare<T>)
    requires 0 <= a && end <= |x|
  {
    forall i, j :: a <= i < j < end && j != pl ==> cmp(x[i], x[j]) <= 0
  }

  lemma SiftStep<T(!new)>(x: seq<T>, a: int, pl: int, end: int, cmp: Compare<T>)
    requires 0 <= a < pl < end <= |x| && Preorder(cmp) && SortedBut(x, a, end, pl, cmp) && cmp(x[pl - 1], x[pl]) > 0
    ensures SortedBut(Swapped(x, pl, pl - 1), a, end, pl - 1, cmp)
  {
    var y := Swapped(x, pl, pl - 1);
    forall i, j | a <= i < j < end && j != pl - 1
      ensures cmp(y[i], y[j]) <= 0
    {
      assert cmp(x[pl], x[pl - 1]) <= 0;
      if j == pl {
        if i < pl - 1 { assert cmp(x[i], x[pl - 1]) <= 0; }
      } else if j > pl {
        assert cmp(x[pl - 1], x[j]) <= 0 && cmp(x[pl], x[j]) <= 0;
      }
    }
  }

  lemma SiftStop<T(!new)>(x: seq<T>, a: int, pl: int, end: int, cmp: Compare<T>)
    requires 0 <= a <= pl < end <= |x| && Preorder(cmp) && SortedBut(x, a, end, pl, cmp)
    requires pl > a ==> cmp(x[pl - 1], x[pl]) <= 0
    ensures Sorted(x, a, end - a, cmp)
  {
    forall i | a <= i < pl
      ensures cmp(x[i], x[pl]) <= 0
    {
      if i < pl - 1 { assert cmp(x[i], x[pl - 1]) <= 0; }
    }
  }

  lemma {:induction false} SiftDownSorts<T(!new)>(x: seq<T>, a: int, pl: int, end: int, cmp: Compare<T>)
    requires 0 <= a <= pl < end <= |x| && Preorder(cmp) && SortedBut(x, a, end, pl, cmp)
    ensures Sorted(SiftDown(x, a, pl, cmp), a, end - a, cmp)
    decreases pl
  {
    hide Preorder, SortedBut, Sorted, Swapped;
    if pl > a && cmp(x[pl - 1], x[pl]) > 0 {
      SiftStep(x, a, pl, end, cmp);
      SiftDownSorts(Swapped(x, pl, pl - 1), a, pl - 1, end, cmp);
    } else {
      SiftStop(x, a, pl, end, cmp);
    }
  }

  lemma {:induction false} InsertionSortSorts<T(!new)>(x: seq<T>, a: int, pm: int, end: int, cmp: Compare<T>)
    requires 0 <= a < pm && end <= |x| && a <= end && pm <= |x| && Preorder(cmp) && Sorted(x, a, pm - a, cmp)
    ensures Sorted(InsertionSort(x, a, pm, end, cmp), a, end - a, cmp)
    decreases end - pm
  {
    hide SiftDown, Preorder;
    if pm < end {
      SiftDownSorts(x, a, pm, pm + 1, cmp);
      InsertionSortSorts(SiftDown(x, a, pm, cmp), a, pm + 1, end, cmp);
    }
  }

  lemma SideRearranged<T(!new)>(x: seq<T>, y: seq<T>, a: int, n: int, v: T, sign: int, cmp: Compare<T>)
    requires InRange(x, a, n) && Rearranged(x, y, a, n) && Side(x, a, a + n, v, sign, cmp)
    ensures Side(y, a, a + n, v, sign, cmp)
  {
    var s, t := x[a..a + n], y[a..a + n];
    forall i | a <= i < a + n
      ensures if sign < 0 then cmp(y[i], v) < 0 else if sign > 0 then cmp(y[i], v) > 0 else cmp(y[i], v) == 0
    {
      assert t[i - a] in multiset(s);
      var j :| 0 <= j < n && s[j] == t[i - a];
      assert x[a + j] == y[i];
    }
  }

  // --------------------------------------------------------------- exchanges

  /** The equal block at the start and the less block behind it change places, if the equal
      one is not the longer one, or there is no other. */
  lemma {:induction false} LowerExchange<T(!new)>(x: seq<T>, a: int, s: int, m: int, k: int, v: T, cmp: Compare<T>)
    requires 0 <= a && 0 <= k <= s && 0 <= m && a + s + m <= |x| && (s <= m || m == 0)
    requires Side(x, a, a + s, v, 0, cmp) && Side(x, a + s, a + s + m, v, -1, cmp)
    ensures var y := Exchange(x, a, a + m, k);
            && (forall i :: 0 <= i < |x| && !(a <= i < a + s + m) ==> y[i] == x[i])
            && if m == 0 then Side(y, a, a + s, v, 0, cmp)
               else Side(y, a, a + k, v, -1, cmp) && Side(y, a + k, a + s, v, 0, cmp)
                    && Side(y, a + s, a + m, v, -1, cmp)
                    && Side(y, a + m, a + m + k, v, 0, cmp) && Side(y, a + m + k, a + m + s, v, -1, cmp)
    decreases k
  {
    hide Swapped;
    if k > 0 { LowerExchange(x, a, s, m, k - 1, v, cmp); }
  }

  /** The greater block and the equal block behind it change places, whatever their lengths. */
  lemma {:induction false} UpperExchange<T(!new)>(x: seq<T>, c: int, m: int, s: int, k: int, v: T, cmp: Compare<T>)
    requires 0 <= c && 0 <= k <= s && 0 <= m && c + m + s <= |x|
    requires Side(x, c, c + m, v, 1, cmp) && Side(x, c + m, c + m + s, v, 0, cmp)
    ensures var y := Exchange(x, c, c + m, k);
            && (forall i :: 0 <= i < |x| && !(c <= i < c + m + s) ==> y[i] == x[i])
            && Side(y, c, c + k, v, 0, cmp) && Side(y, c + k, c + k + m, v, 1, cmp)
              && Side(y, c + k + m, c + m + s, v, 0, cmp)
    decreases k
  {
    hide Swapped;
    if k > 0 { UpperExchange(x, c, m, s, k - 1, v, cmp); }
  }

  /** Swapping forward brings every element of the second block to its place in the first. */
  lemma {:induction false} ExchangeBrings<T>(x: seq<T>, i: int, j: int, s: int, r: int)
    requires 0 <= i < j && 0 <= s && j + s <= |x|
    ensures 0 <= r < s ==> Exchange(x, i, j, s)[i + r] == x[j + r]
    ensures s <= r && j + r < |x| ==> Exchange(x, i, j, s)[j + r] == x[j + r]
    decreases s
  {
    hide Swapped;
    if s > 0 {
      ExchangeBrings(x, i, j, s - 1, r);
      ExchangeBrings(x, i, j, s - 1, s - 1);
    }
  }

  // ------------------------------------------------------- when it is sorted

  /** In the partitioning of the range, and in those of its two parts, the elements equal to the
      pivot that were moved to the start are no more than the lesser ones, or there are no lesser
      ones. */
  ghost predicate BlocksFit<T(!new)>(x: seq<T>, a: int, n: int, cmp: Compare<T>)
    requires InRange(x, a, n) && Reflexive(cmp)
    decreases n
  {
    n < 7 ||
    (PartsShrink(x, a, n, cmp);
     var q := Parted(x, a, n, cmp);
     var m1, m2 := q.pb - q.pa, q.pd - q.pc;
     var y := Exchanged(q, a, n);
     && (q.pa - a <= m1 || m1 == 0)
     && (m1 > 1 ==> BlocksFit(y, a, m1, cmp))
     && (m2 > 1 ==> BlocksFit(y, a + n - m2, m2, cmp)))
  }

  /** Lesser, equal and greater elements in this order. */
  ghost predicate Layered<T(!new)>(x: seq<T>, a: int, n: int, m1: int, m2: int, v: T, cmp: Compare<T>)
    requires InRange(x, a, n) && 0 <= m1 && 0 <= m2 && m1 + m2 <= n
  {
    Side(x, a, a + m1, v, -1, cmp) && Side(x, a + m1, a + n - m2, v, 0, cmp) && Side(x, a + n - m2, a + n, v, 1, cmp)
  }

  lemma ExchangedLayered<T(!new)>(x: seq<T>, a: int, n: int, cmp: Compare<T>)
    requires InRange(x, a, n) && n >= 7 && Reflexive(cmp)
    ensures var q := Parted(x, a, n, cmp);
            var m1, m2 := q.pb - q.pa, q.pd - q.pc;
            m1 + m2 < n
              && (q.pa - a <= m1 || m1 == 0
                ==> Layered(Exchanged(q, a, n), a, n, m1, m2, x[PivotAt(x, a, n, cmp)], cmp))
  {
    hide Rearranged, Parted, Exchange, Side, Reflexive;
    PartedSorts(x, a, n, cmp);
    PartsShrink(x, a, n, cmp);
    var q, v := Parted(x, a, n, cmp), x[PivotAt(x, a, n, cmp)];
    var m1, m2, s1, s2 := q.pb - q.pa, q.pd - q.pc, q.pa - a, a + n - 1 - q.pd;
    if s1 <= m1 || m1 == 0 {
      LowerExchange(q.x, a, s1, m1, s1, v, cmp);
      var y := Exchange(q.x, a, q.pb - s1, s1);
      AfterLower(q.x, y, a, s1, m1, n, v, cmp);
      SameSide(q.x, y, q.pc + 1, q.pd + 1, v, 1, cmp);
      SameSide(q.x, y, q.pd + 1, a + n, v, 0, cmp);
      UpperExchange(y, q.pc + 1, m2, s2, s2, v, cmp);
      AfterUpper(y, Exchange(y, q.pc + 1, a + n - s2, s2), a, n, m1, m2, s2, q.pc + 1, v, cmp);
    }
  }

  lemma SameSide<T(!new)>(x: seq<T>, y: seq<T>, lo: int, hi: int, v: T, sign: int, cmp: Compare<T>)
    requires 0 <= lo && hi <= |x| == |y| && Side(x, lo, hi, v, sign, cmp) && forall i :: lo <= i < hi ==> y[i] == x[i]
    ensures Side(y, lo, hi, v, sign, cmp)
  {
  }

  lemma AfterLower<T(!new)>(x: seq<T>, y: seq<T>, a: int, s: int, m: int, n: int, v: T, cmp: Compare<T>)
    requires 0 <= a && 0 <= s && 0 <= m && a + s + m <= |y|
    requires if m == 0 then Side(y, a, a + s, v, 0, cmp)
             else Side(y, a, a + s, v, -1, cmp) && Side(y, a + s, a + m, v, -1, cmp)
                  && Side(y, a + m, a + m + s, v, 0, cmp)
    ensures Side(y, a, a + m, v, -1, cmp) && Side(y, a + m, a + m + s, v, 0, cmp)
  {
  }

  lemma AfterUpper<T(!new)>(y: seq<T>, z: seq<T>, a: int, n: int, m1: int, m2: int, s2: int, c: int, v: T,
          cmp: Compare<T>)
    requires InRange(y, a, n) && |z| == |y| && 0 <= m1 && 0 <= m2 && 0 <= s2 && a + m1 <= c && c + m2 + s2 == a + n
    requires Side(y, a, a + m1, v, -1, cmp) && Side(y, a + m1, c, v, 0, cmp)
    requires forall i :: 0 <= i < c ==> z[i] == y[i]
    requires Side(z, c, c + s2, v, 0, cmp) && Side(z, c + s2, c + s2 + m2, v, 1, cmp)
    ensures Layered(z, a, n, m1, m2, v, cmp)
  {
  }

  /** Layers that are sorted make a sorted range. */
  lemma LayersSorted<T(!new)>(x: seq<T>, a: int, n: int, m1: int, m2: int, v: T, cmp: Compare<T>)
    requires InRange(x, a, n) && 0 <= m1 && 0 <= m2 && m1 + m2 <= n && Preorder(cmp) && Layered(x, a, n, m1, m2, v, cmp)
    ensures Sorted(x, a, n, cmp) <==> Sorted(x, a, m1, cmp) && Sorted(x, a + n - m2, m2, cmp)
  {
    if Sorted(x, a, m1, cmp) && Sorted(x, a + n - m2, m2, cmp) {
      forall i, j | a <= i < j < a + n ensures cmp(x[i], x[j]) <= 0 {
        if i >= a + n - m2 {
        } else if j < a + m1 {
        } else {
          ThroughPivot(x[i], x[j], v, cmp);
        }
      }
    }
  }

  lemma ThroughPivot<T(!new)>(x: T, y: T, v: T, cmp: Compare<T>)
    requires Preorder(cmp)
    ensures cmp(x, v) <= 0 && cmp(y, v) >= 0 ==> cmp(x, y) <= 0
    ensures cmp(x, v) == 0 && cmp(y, v) < 0 ==> cmp(x, y) > 0
  {
  }

  lemma SortedSame<T(!new)>(x: seq<T>, y: seq<T>, a: int, n: int, cmp: Compare<T>)
    requires InRange(x, a, n) && |y| == |x| && forall i :: a <= i < a + n ==> y[i] == x[i]
    ensures Sorted(x, a, n, cmp) <==> Sorted(y, a, n, cmp)
  {
    forall i | a <= i < a + n ensures y[i] == x[i] { }
  }

  lemma LayeredRearranged<T(!new)>(x: seq<T>, y: seq<T>, a: int, n: int, m1: int, m2: int, v: T, low: bool,
          cmp: Compare<T>)
    requires InRange(x, a, n) && 0 <= m1 && 0 <= m2 && m1 + m2 <= n && Layered(x, a, n, m1, m2, v, cmp)
    requires if low then Rearranged(x, y, a, m1) else Rearranged(x, y, a + n - m2, m2)
    ensures Layered(y, a, n, m1, m2, v, cmp)
  {
    hide Side, Rearranged;
    if low {
      RearrangedOutside(x, y, a, m1);
      SideRearranged(x, y, a, m1, v, -1, cmp);
      SameSide(x, y, a + m1, a + n - m2, v, 0, cmp);
      SameSide(x, y, a + n - m2, a + n, v, 1, cmp);
    } else {
      RearrangedOutside(x, y, a + n - m2, m2);
      SideRearranged(x, y, a + n - m2, m2, v, 1, cmp);
      SameSide(x, y, a, a + m1, v, -1, cmp);
      SameSide(x, y, a + m1, a + n - m2, v, 0, cmp);
    }
  }

  lemma RearrangedOutside<T>(x: seq<T>, y: seq<T>, a: int, n: int)
    requires InRange(x, a, n) && Rearranged(x, y, a, n)
    ensures |y| == |x| && forall i :: 0 <= i < |x| && !(a <= i < a + n) ==> y[i] == x[i]
  {
  }

  lemma RearrangedHolds<T(!new)>(x: seq<T>, y: seq<T>, a: int, n: int, i: int) returns (p: int)
    requires InRange(x, a, n) && Rearranged(x, y, a, n) && a <= i < a + n
    ensures a <= p < a + n && y[p] == x[i]
  {
    var s, t := x[a..a + n], y[a..a + n];
    assert s[i - a] in multiset(t);
    var j :| 0 <= j < n && t[j] == s[i - a];
    p := a + j;
  }

  /** Where the blocks do not fit, an element equal to the pivot ends up before a lesser one. */
  lemma UnfitExchange<T(!new)>(x: seq<T>, a: int, n: int, cmp: Compare<T>)
    requires InRange(x, a, n) && n >= 7 && Reflexive(cmp)
    ensures var q, v := Parted(x, a, n, cmp), x[PivotAt(x, a, n, cmp)];
            var s1, m1, m2 := q.pa - a, q.pb - q.pa, q.pd - q.pc;
            s1 > m1 >= 1 ==>
              && cmp(Exchanged(q, a, n)[a], v) == 0 && cmp(Exchanged(q, a, n)[a + s1 - 1], v) < 0
              && a + m1 <= a + s1 - 1 < a + n - m2
  {
    hide Rearranged, Parted, Exchange, Reflexive;
    PartedSorts(x, a, n, cmp);
    PartsShrink(x, a, n, cmp);
    var q, v := Parted(x, a, n, cmp), x[PivotAt(x, a, n, cmp)];
    var s1, m1, s2 := q.pa - a, q.pb - q.pa, a + n - 1 - q.pd;
    if s1 > m1 >= 1 {
      ExchangeBrings(q.x, a, a + m1, s1, 0);
      ExchangeBrings(q.x, a, a + m1, s1, s1 - 1);
      var y := Exchange(q.x, a, a + m1, s1);
      ExchangeKeeps(y, q.pc + 1, a + n - s2, s2, a);
      ExchangeKeeps(y, q.pc + 1, a + n - s2, s2, a + s1 - 1);
    }
  }

  /** The exchanges leave lesser, equal and greater elements in this order exactly if the elements
      equal to the pivot at the start are no more than the lesser ones, or there are none of these. */
  lemma LayeredIffFits<T(!new)>(x: seq<T>, a: int, n: int, cmp: Compare<T>)
    requires InRange(x, a, n) && n >= 7 && Reflexive(cmp)
    ensures var q := Parted(x, a, n, cmp);
            var m1, m2 := q.pb - q.pa, q.pd - q.pc;
            m1 + m2 < n
              && (Layered(Exchanged(q, a, n), a, n, m1, m2, x[PivotAt(x, a, n, cmp)], cmp) <==>
                q.pa - a <= m1 || m1 == 0)
  {
    hide Parted, Exchanged, Reflexive, PivotAt;
    ExchangedLayered(x, a, n, cmp);
    UnfitExchange(x, a, n, cmp);
  }

  lemma {:induction false} ExchangeKeeps<T>(x: seq<T>, i: int, j: int, s: int, k: int)
    requires 0 <= k < i <= j && 0 <= s && j + s <= |x|
    ensures Exchange(x, i, j, s)[k] == x[k]
    decreases s
  {
    hide Swapped;
    if s > 0 { ExchangeKeeps(x, i, j, s - 1, k); }
  }

  lemma UnfitUnsorted<T(!new)>(x: seq<T>, a: int, n: int, cmp: Compare<T>)
    requires InRange(x, a, n) && n >= 7 && Preorder(cmp)
    requires var q := Parted(x, a, n, cmp); q.pa - a > q.pb - q.pa >= 1
    ensures !Sorted(QSort(x, a, n, cmp), a, n, cmp)
  {
    hide Rearranged, Parted, Exchanged, Preorder, PivotAt, QSort, Middle, BlocksFit;
    Consistent(cmp);
    UnfitExchange(x, a, n, cmp);
    QSortMiddle(x, a, n, cmp);
    var (y, z, m1, m2) := Middle(x, a, n, cmp);
    var s1, v := Parted(x, a, n, cmp).pa - a, x[PivotAt(x, a, n, cmp)];
    var w := QSort(x, a, n, cmp);
    var p := a;
    if m1 > 1 {
      QSortRearranges(y, a, m1, cmp);
      p := RearrangedHolds(y, z, a, m1, a);
      RearrangedOutside(y, z, a, m1);
    }
    if m2 > 1 {
      QSortRearranges(z, a + n - m2, m2, cmp);
      RearrangedOutside(z, w, a + n - m2, m2);
    }
    ThroughPivot(w[p], w[a + s1 - 1], v, cmp);
  }

  lemma Consistent<T(!new)>(cmp: Compare<T>)
    requires Preorder(cmp)
    ensures Reflexive(cmp)
  {
  }

  /** Sorting the outer two of three layers sorts the range. */
  lemma SortLayers<T(!new)>(y: seq<T>, z: seq<T>, w: seq<T>, a: int, n: int, m1: int, m2: int, v: T, cmp: Compare<T>)
    requires InRange(y, a, n) && 0 <= m1 && 0 <= m2 && m1 + m2 <= n && Preorder(cmp) && Layered(y, a, n, m1, m2, v, cmp)
    requires if m1 > 1 then Rearranged(y, z, a, m1) else z == y
    requires if m2 > 1 then |z| == |y| && Rearranged(z, w, a + n - m2, m2) else w == z
    ensures |z| == |w| == |y|
    ensures Sorted(w, a, n, cmp) <==> (m1 > 1 ==> Sorted(z, a, m1, cmp)) && (m2 > 1 ==> Sorted(w, a + n - m2, m2, cmp))
  {
    hide Rearranged, Preorder, Layered, Sorted;
    if m1 > 1 {
      RearrangedOutside(y, z, a, m1);
      LayeredRearranged(y, z, a, n, m1, m2, v, true, cmp);
    } else {
      OneSorted(z, a, m1, cmp);
    }
    if m2 > 1 {
      RearrangedOutside(z, w, a + n - m2, m2);
      LayeredRearranged(z, w, a, n, m1, m2, v, false, cmp);
    } else {
      OneSorted(w, a + n - m2, m2, cmp);
    }
    SortedSame(z, w, a, m1, cmp);
    LayersSorted(w, a, n, m1, m2, v, cmp);
  }

  /** The parts of one round of the sort: after the exchanges, after the first call. */
  ghost function Middle<T(!new)>(x: seq<T>, a: int, n: int, cmp: Compare<T>): (r: (seq<T>, seq<T>, int, int))
    requires InRange(x, a, n) && Reflexive(cmp) && n >= 7
    ensures |r.0| == |r.1| == |x| && 0 <= r.2 && 0 <= r.3 && r.2 + r.3 < n
  {
    PartsShrink(x, a, n, cmp);
    var q := Parted(x, a, n, cmp);
    var m1, m2 := q.pb - q.pa, q.pd - q.pc;
    var y := Exchanged(q, a, n);
    (y, if m1 > 1 then QSort(y, a, m1, cmp) else y, m1, m2)
  }

  lemma QSortMiddle<T(!new)>(x: seq<T>, a: int, n: int, cmp: Compare<T>)
    requires InRange(x, a, n) && Reflexive(cmp) && n >= 7
    ensures var (y, z, m1, m2) := Middle(x, a, n, cmp);
            && z == (if m1 > 1 then QSort(y, a, m1, cmp) else y)
            && QSort(x, a, n, cmp) == (if m2 > 1 then QSort(z, a + n - m2, m2, cmp) else z)
            && m1 == Parted(x, a, n, cmp).pb - Parted(x, a, n, cmp).pa
              && m2 == Parted(x, a, n, cmp).pd - Parted(x, a, n, cmp).pc
            && y == Exchanged(Parted(x, a, n, cmp), a, n)
            && (BlocksFit(x, a, n, cmp) <==> (Parted(x, a, n, cmp).pa - a <= m1 || m1 == 0)
                                             && (m1 > 1 ==> BlocksFit(y, a, m1, cmp))
                                             && (m2 > 1 ==> BlocksFit(y, a + n - m2, m2, cmp)))
  {
    hide Parted, Exchanged;
    PartsShrink(x, a, n, cmp);
  }

  lemma SmallSorted<T(!new)>(x: seq<T>, a: int, n: int, cmp: Compare<T>)
    requires InRange(x, a, n) && Preorder(cmp) && n < 7
    ensures Reflexive(cmp) && Sorted(QSort(x, a, n, cmp), a, n, cmp) && BlocksFit(x, a, n, cmp)
  {
    hide InsertionSort, Preorder, Sorted;
    Consistent(cmp);
    if n > 0 {
      OneSorted(x, a, 1, cmp);
      InsertionSortSorts(x, a, a + 1, a + n, cmp);
    } else {
      OneSorted(QSort(x, a, n, cmp), a, n, cmp);
    }
  }

  /** One round: if the two calls sort their ranges exactly when blocks fit there, so does this. */
  lemma RoundSorted<T(!new)>(x: seq<T>, a: int, n: int, cmp: Compare<T>)
    requires InRange(x, a, n) && Preorder(cmp) && Reflexive(cmp) && n >= 7
    requires var (y, z, m1, m2) := Middle(x, a, n, cmp);
             && (m1 > 1 ==> (Sorted(QSort(y, a, m1, cmp), a, m1, cmp) <==> BlocksFit(y, a, m1, cmp)))
             && (m2 > 1 ==> (Sorted(QSort(y, a + n - m2, m2, cmp), a + n - m2, m2, cmp)
                            <==> BlocksFit(y, a + n - m2, m2, cmp)))
    ensures Sorted(QSort(x, a, n, cmp), a, n, cmp) <==> BlocksFit(x, a, n, cmp)
  {
    hide Rearranged, Parted, Exchanged, Preorder, PivotAt, Layered, Sorted, Reflexive, QSort, BlocksFit, Middle;
    QSortMiddle(x, a, n, cmp);
    var (y, z, m1, m2) := Middle(x, a, n, cmp);
    if Parted(x, a, n, cmp).pa - a > m1 >= 1 {
      UnfitUnsorted(x, a, n, cmp);
    } else {
      ExchangedLayered(x, a, n, cmp);
      if m1 > 1 { QSortRearranges(y, a, m1, cmp); }
      if m2 > 1 {
        QSortRearranges(z, a + n - m2, m2, cmp);
        UpperAlike(y, z, a, n, m1, m2, cmp);
      }
      SortLayers(y, z, QSort(x, a, n, cmp), a, n, m1, m2, x[PivotAt(x, a, n, cmp)], cmp);
    }
  }

  /** Sorting the lower part first makes no difference to the upper one. */
  lemma UpperAlike<T(!new)>(y: seq<T>, z: seq<T>, a: int, n: int, m1: int, m2: int, cmp: Compare<T>)
    requires InRange(y, a, n) && Reflexive(cmp) && 0 <= m1 && 0 <= m2 && m1 + m2 < n
    requires z == if m1 > 1 then QSort(y, a, m1, cmp) else y
    ensures Sorted(QSort(z, a + n - m2, m2, cmp), a + n - m2, m2, cmp)
            <==> Sorted(QSort(y, a + n - m2, m2, cmp), a + n - m2, m2, cmp)
  {
    hide Rearranged, QSort, Reflexive, Sorted;
    if m1 > 1 {
      QSortRearranges(y, a, m1, cmp);
      RearrangedOutside(y, z, a, m1);
    }
    QSortAgree(y, z, a + n - m2, m2, cmp);
    SortedSame(QSort(y, a + n - m2, m2, cmp), QSort(z, a + n - m2, m2, cmp), a + n - m2, m2, cmp);
  }

  /** The result is sorted exactly when the blocks fit in every partitioning. */
  lemma {:induction false} SortedIffFits<T(!new)>(x: seq<T>, a: int, n: int, cmp: Compare<T>)
    requires InRange(x, a, n) && Preorder(cmp)
    ensures Reflexive(cmp)
    ensures Sorted(QSort(x, a, n, cmp), a, n, cmp) <==> BlocksFit(x, a, n, cmp)
    decreases n
  {
    hide Preorder, Sorted, Reflexive, QSort, BlocksFit, Middle;
    Consistent(cmp);
    if n < 7 {
      SmallSorted(x, a, n, cmp);
    } else {
      var (y, z, m1, m2) := Middle(x, a, n, cmp);
      if m1 > 1 { SortedIffFits(y, a, m1, cmp); }
      if m2 > 1 { SortedIffFits(y, a + n - m2, m2, cmp); }
      RoundSorted(x, a, n, cmp);
    }
  }

  lemma OneSorted<T(!new)>(x: seq<T>, a: int, n: int, cmp: Compare<T>)
    requires InRange(x, a, n) && n <= 1
    ensures Sorted(x, a, n, cmp)
  {
  }

  // ----------------------------------------------------------------- no ties

  ghost predicate NoTies<T(!new)>(x: seq<T>, a: int, n: int, cmp: Compare<T>)
    requires InRange(x, a, n)
  {
    forall i, j :: a <= i < j < a + n ==> cmp(x[i], x[j]) != 0
  }

  lemma TwicePositions<T(!new)>(s: seq<T>, u: T) returns (p: int, q: int)
    requires multiset(s)[u] >= 2
    ensures 0 <= p < q < |s| && s[p] == u && s[q] == u
  {
    assert u in multiset(s);
    var i :| 0 <= i < |s| && s[i] == u;
    assert s == s[..i] + [u] + s[i + 1..];
    assert multiset(s)[u] == multiset(s[..i])[u] + 1 + multiset(s[i + 1..])[u];
    if u in multiset(s[..i]) {
      p :| 0 <= p < i && s[..i][p] == u;
      q := i;
    } else {
      assert u in multiset(s[i + 1..]);
      var k :| 0 <= k < |s| - i - 1 && s[i + 1..][k] == u;
      p, q := i, i + 1 + k;
    }
  }

  lemma TwiceCounted<T(!new)>(s: seq<T>, i: int, j: int)
    requires 0 <= i < j < |s| && s[i] == s[j]
    ensures multiset(s)[s[i]] >= 2
  {
    assert s == s[..i] + [s[i]] + s[i + 1..j] + [s[j]] + s[j + 1..];
  }

  lemma NoTiesRearranged<T(!new)>(x: seq<T>, y: seq<T>, a: int, n: int, cmp: Compare<T>)
    requires InRange(x, a, n) && Rearranged(x, y, a, n) && NoTies(x, a, n, cmp) && Preorder(cmp)
    ensures NoTies(y, a, n, cmp)
  {
    var s, t := x[a..a + n], y[a..a + n];
    forall i, j | a <= i < j < a + n ensures cmp(y[i], y[j]) != 0 {
      var u, w := t[i - a], t[j - a];
      if u == w {
        TwiceCounted(t, i - a, j - a);
        var p, q := TwicePositions(s, u);
      } else {
        assert u in multiset(s) && w in multiset(s);
        var p :| 0 <= p < n && s[p] == u;
        var q :| 0 <= q < n && s[q] == w;
        assert p < q ==> cmp(x[a + p], x[a + q]) != 0;
        assert q < p ==> cmp(x[a + q], x[a + p]) != 0;
      }
    }
  }

  lemma EqualThroughPivot<T(!new)>(u: T, w: T, v: T, cmp: Compare<T>)
    requires Preorder(cmp) && cmp(u, v) == 0 && cmp(w, v) == 0
    ensures cmp(u, w) == 0
  {
    assert cmp(v, w) <= 0 && cmp(v, u) <= 0;
  }

  /** Without ties the blocks always fit ... */
  lemma {:induction false} NoTiesFit<T(!new)>(x: seq<T>, a: int, n: int, cmp: Compare<T>)
    requires InRange(x, a, n) && Preorder(cmp) && NoTies(x, a, n, cmp)
    ensures Reflexive(cmp) && BlocksFit(x, a, n, cmp)
    decreases n
  {
    hide Preorder, Reflexive, QSort, BlocksFit, Middle, Parted, Exchanged, Rearranged, PivotAt;
    Consistent(cmp);
    if n < 7 {
      SmallSorted(x, a, n, cmp);
    } else {
      QSortMiddle(x, a, n, cmp);
      PartedSorts(x, a, n, cmp);
      var q, v := Parted(x, a, n, cmp), x[PivotAt(x, a, n, cmp)];
      NoTiesRearranged(x, q.x, a, n, cmp);
      if q.pa - a >= 2 { EqualThroughPivot(q.x[a], q.x[a + 1], v, cmp); }
      var (y, z, m1, m2) := Middle(x, a, n, cmp);
      ExchangedRearranges(x, a, n, cmp);
      NoTiesRearranged(x, y, a, n, cmp);
      if m1 > 1 { NoTiesFit(y, a, m1, cmp); }
      if m2 > 1 { NoTiesFit(y, a + n - m2, m2, cmp); }
    }
  }

  /** ... so the result is sorted. */
  lemma NoTiesSorted<T(!new)>(x: seq<T>, a: int, n: int, cmp: Compare<T>)
    requires InRange(x, a, n) && Preorder(cmp) && NoTies(x, a, n, cmp)
    ensures Reflexive(cmp) && Sorted(QSort(x, a, n, cmp), a, n, cmp)
  {
    NoTiesFit(x, a, n, cmp);
    SortedIffFits(x, a, n, cmp);
  }

  /** With ties it may not be: of seven elements that are equal but for one lesser, the fifth, that
      one ends up next to last. */
  lemma TiesUnsorted<T(!new)>(x: seq<T>, cmp: Compare<T>)
    requires Preorder(cmp) && |x| == 7 && cmp(x[4], x[3]) < 0 && forall i ::
             0 <= i < 7 && i != 4 ==> cmp(x[i], x[3]) == 0
    ensures Reflexive(cmp) && !Sorted(QSort(x, 0, 7, cmp), 0, 7, cmp)
  {
    hide Sorted, QSort, Parted;
    Consistent(cmp);
    PartedTies(x, cmp);
    UnfitUnsorted(x, 0, 7, cmp);
  }

  lemma PartedTies<T(!new)>(x: seq<T>, cmp: Compare<T>)
    requires |x| == 7 && cmp(x[4], x[3]) < 0 && forall i :: 0 <= i < 7 && i != 4 ==> cmp(x[i], x[3]) == 0
    ensures Parted(x, 0, 7, cmp) == Parts([x[0], x[1], x[2], x[3], x[5], x[6], x[4]], 6, 7, 6, 6)
  {
    hide ScanUp;
    var p7 := Parts([x[0], x[1], x[2], x[3], x[5], x[6], x[4]], 6, 7, 6, 6);
    FourEqual(x, cmp);
    LastThree(x, cmp);
    assert ScanDown(p7, 0, 7, x[3], cmp) == p7;
  }

  lemma FourEqual<T(!new)>(x: seq<T>, cmp: Compare<T>)
    requires |x| == 7 && forall i :: 0 <= i < 4 ==> cmp(x[i], x[3]) == 0
    ensures ScanUp(Parts(x, 0, 0, 6, 6), 0, 7, x[3], cmp) == ScanUp(Parts(x, 4, 4, 6, 6), 0, 7, x[3], cmp)
  {
    assert Swapped(x, 0, 0) == x && Swapped(x, 1, 1) == x && Swapped(x, 2, 2) == x && Swapped(x, 3, 3) == x;
    assert ScanUp(Parts(x, 0, 0, 6, 6), 0, 7, x[3], cmp) == ScanUp(Parts(x, 1, 1, 6, 6), 0, 7, x[3], cmp);
    assert ScanUp(Parts(x, 1, 1, 6, 6), 0, 7, x[3], cmp) == ScanUp(Parts(x, 2, 2, 6, 6), 0, 7, x[3], cmp);
    assert ScanUp(Parts(x, 2, 2, 6, 6), 0, 7, x[3], cmp) == ScanUp(Parts(x, 3, 3, 6, 6), 0, 7, x[3], cmp);
  }

  lemma LastThree<T(!new)>(x: seq<T>, cmp: Compare<T>)
    requires |x| == 7 && cmp(x[4], x[3]) < 0 && cmp(x[5], x[3]) == 0 && cmp(x[6], x[3]) == 0
    ensures ScanUp(Parts(x, 4, 4, 6, 6), 0, 7, x[3], cmp)
            == Parts([x[0], x[1], x[2], x[3], x[5], x[6], x[4]], 6, 7, 6, 6)
  {
    var p4, p5 := Parts(x, 4, 4, 6, 6), Parts(x, 4, 5, 6, 6);
    assert ScanUp(p4, 0, 7, x[3], cmp) == ScanUp(p5, 0, 7, x[3], cmp);
    var p6 := Parts([x[0], x[1], x[2], x[3], x[5], x[4], x[6]], 5, 6, 6, 6);
    assert Swapped(p5.x, 4, 5) == p6.x;
    assert ScanUp(p5, 0, 7, x[3], cmp) == ScanUp(p6, 0, 7, x[3], cmp);
    var p7 := Parts([x[0], x[1], x[2], x[3], x[5], x[6], x[4]], 6, 7, 6, 6);
    assert Swapped(p6.x, 5, 6) == p7.x;
    assert ScanUp(p6, 0, 7, x[3], cmp) == p7;
  }

  // ---------------------------------------------------------------- in place

  method Swap<T>(arr: array<T>, i: int, j: int)
    requires 0 <= i < arr.Length && 0 <= j < arr.Length
    modifies arr
    ensures arr[..] == Swapped(old(arr[..]), i, j)
  {
    arr[i], arr[j] := arr[j], arr[i];
  }

  method InsertionSortInPlace<T>(arr: array<T>, a: int, n: int, cmp: Compare<T>)
    requires 0 <= a && 0 <= n && a + n <= arr.Length
    modifies arr
    ensures arr[..] == InsertionSort(old(arr[..]), a, a + 1, a + n, cmp)
  {
    hide Swapped;
    var pm := a + 1;
    while pm < a + n
      invariant a < pm
      invariant InsertionSort(arr[..], a, pm, a + n, cmp) == InsertionSort(old(arr[..]), a, a + 1, a + n, cmp)
    {
      var pl := pm;
      ghost var x := arr[..];
      while pl > a && cmp(arr[pl - 1], arr[pl]) > 0
        invariant a <= pl <= pm && SiftDown(arr[..], a, pl, cmp) == SiftDown(x, a, pm, cmp)
        decreases pl
      {
        Swap(arr, pl, pl - 1);
        pl := pl - 1;
      }
      pm := pm + 1;
    }
  }

  method MedianOf3<T>(arr: array<T>, a: int, b: int, c: int, cmp: Compare<T>) returns (m: int)
    requires 0 <= a < arr.Length && 0 <= b < arr.Length && 0 <= c < arr.Length
    ensures m == Med3(arr[..], a, b, c, cmp)
  {
    if cmp(arr[a], arr[b]) < 0 {
      m := if cmp(arr[b], arr[c]) < 0 then b else if cmp(arr[a], arr[c]) < 0 then c else a;
    } else {
      m := if cmp(arr[b], arr[c]) > 0 then b else if cmp(arr[a], arr[c]) > 0 then c else a;
    }
  }

  method ChoosePivot<T>(arr: array<T>, a: int, n: int, cmp: Compare<T>) returns (pm: int)
    requires 0 <= a && a + n <= arr.Length && n >= 7
    ensures pm == PivotAt(arr[..], a, n, cmp)
  {
    hide Med3;
    pm := a + n / 2;
    if n > 7 {
      var pl, pn := a, a + (n - 1);
      if n > 40 {
        var s := n / 8;
        pl := MedianOf3(arr, pl, pl + s, pl + 2 * s, cmp);
        pm := MedianOf3(arr, pm - s, pm, pm + s, cmp);
        pn := MedianOf3(arr, pn - 2 * s, pn - s, pn, cmp);
      }
      pm := MedianOf3(arr, pl, pm, pn, cmp);
    }
  }

  method ScanUpInPlace<T>(arr: array<T>, a: int, n: int, v: T, cmp: Compare<T>, pa0: int, pb0: int, pc: int,
          ghost pd: int)
    returns (pa: int, pb: int)
    requires PartsOk(Parts(arr[..], pa0, pb0, pc, pd), a, n)
    modifies arr
    ensures Parts(arr[..], pa, pb, pc, pd) == ScanUp(Parts(old(arr[..]), pa0, pb0, pc, pd), a, n, v, cmp)
  {
    hide Swapped;
    pa, pb := pa0, pb0;
    ghost var p := Parts(arr[..], pa, pb, pc, pd);
    while pb <= pc && cmp(arr[pb], v) <= 0
      invariant PartsOk(Parts(arr[..], pa, pb, pc, pd), a, n)
      invariant ScanUp(Parts(arr[..], pa, pb, pc, pd), a, n, v, cmp) == ScanUp(p, a, n, v, cmp)
    {
      if cmp(arr[pb], v) == 0 {
        Swap(arr, pa, pb);
        pa := pa + 1;
      }
      pb := pb + 1;
    }
  }

  method ScanDownInPlace<T>(arr: array<T>, a: int, n: int, v: T, cmp: Compare<T>, ghost pa: int, pb: int, pc0: int,
          pd0: int)
    returns (pc: int, pd: int)
    requires PartsOk(Parts(arr[..], pa, pb, pc0, pd0), a, n)
    modifies arr
    ensures Parts(arr[..], pa, pb, pc, pd) == ScanDown(Parts(old(arr[..]), pa, pb, pc0, pd0), a, n, v, cmp)
  {
    hide Swapped;
    pc, pd := pc0, pd0;
    ghost var p := Parts(arr[..], pa, pb, pc, pd);
    while pb <= pc && cmp(arr[pc], v) >= 0
      invariant PartsOk(Parts(arr[..], pa, pb, pc, pd), a, n)
      invariant ScanDown(Parts(arr[..], pa, pb, pc, pd), a, n, v, cmp) == ScanDown(p, a, n, v, cmp)
    {
      if cmp(arr[pc], v) == 0 {
        Swap(arr, pc, pd);
        pd := pd - 1;
      }
      pc := pc - 1;
    }
  }

  method PartitionInPlace<T>(arr: array<T>, a: int, n: int, v: T, cmp: Compare<T>)
    returns (pa: int, pb: int, pc: int, pd: int)
    requires 0 <= a && a + n <= arr.Length && n >= 1
    modifies arr
    ensures Parts(arr[..], pa, pb, pc, pd) == Partition(Start(old(arr[..]), a, n), a, n, v, cmp)
  {
    hide Swapped, ScanUp, ScanDown;
    pa, pb, pc, pd := a, a, a + (n - 1), a + (n - 1);
    ghost var start := Start(arr[..], a, n);
    while true
      invariant PartsOk(Parts(arr[..], pa, pb, pc, pd), a, n)
      invariant Partition(Parts(arr[..], pa, pb, pc, pd), a, n, v, cmp) == Partition(start, a, n, v, cmp)
      decreases pc - pb
    {
      ghost var p := Parts(arr[..], pa, pb, pc, pd);
      pa, pb := ScanUpInPlace(arr, a, n, v, cmp, pa, pb, pc, pd);
      pc, pd := ScanDownInPlace(arr, a, n, v, cmp, pa, pb, pc, pd);
      if pb > pc { break; }
      Swap(arr, pb, pc);
      pb := pb + 1;
      pc := pc - 1;
    }
  }

  method ExchangeInPlace<T>(arr: array<T>, i: int, j: int, s: int)
    requires 0 <= s && 0 <= i && 0 <= j && i + s <= arr.Length && j + s <= arr.Length
    modifies arr
    ensures arr[..] == Exchange(old(arr[..]), i, j, s)
  {
    hide Swapped;
    for r := 0 to s
      invariant arr[..] == Exchange(old(arr[..]), i, j, r)
    {
      Swap(arr, i + r, j + r);
    }
  }

  /** Put the elements equal to the pivot between the others. */
  method ExchangeBlocks<T>(arr: array<T>, a: int, n: int, pa: int, pb: int, pc: int, pd: int)
    requires PartsOk(Parts(arr[..], pa, pb, pc, pd), a, n) && pb == pc + 1
    modifies arr
    ensures arr[..] == Exchanged(Parts(old(arr[..]), pa, pb, pc, pd), a, n)
  {
    hide Exchange;
    var s := pa - a;
    if s > 0 { ExchangeInPlace(arr, a, pb - s, s); } else { NoExchange(arr[..], a, pb - s); }
    s := a + n - 1 - pd;
    if s > 0 { ExchangeInPlace(arr, pc + 1, a + n - s, s); } else { NoExchange(arr[..], pc + 1, a + n - s); }
  }

  /** The sort itself, in place. */
  method QuickSortInPlace<T(!new)>(arr: array<T>, a: int, n: int, cmp: Compare<T>)
    requires 0 <= a && 0 <= n && a + n <= arr.Length && Reflexive(cmp)
    modifies arr
    ensures arr[..] == QSort(old(arr[..]), a, n, cmp)
    decreases n
  {
    hide Reflexive, PivotAt, Partition, Exchanged, InsertionSort;
    if n < 7 {
      InsertionSortInPlace(arr, a, n, cmp);
      return;
    }
    PartsShrink(arr[..], a, n, cmp);
    var pm := ChoosePivot(arr, a, n, cmp);
    var pa, pb, pc, pd := PartitionInPlace(arr, a, n, arr[pm], cmp);
    ExchangeBlocks(arr, a, n, pa, pb, pc, pd);
    var s := pb - pa;
    if s > 1 { QuickSortInPlace(arr, a, s, cmp); }
    s := pd - pc;
    if s > 1 { QuickSortInPlace(arr, a + n - s, s, cmp); }
  }

  lemma NoExchange<T>(x: seq<T>, i: int, j: int)
    requires 0 <= i <= |x| && 0 <= j <= |x|
    ensures Exchange(x, i, j, 0) == x
  {
  }
}
