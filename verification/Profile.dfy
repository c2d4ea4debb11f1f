/** The value a Cachegrind profile stands for: for every (file, function) and line a
    vector of 64-bit event counts, and what merging does to it and to its column sums. */
module Profile {

  const TWO64: int := 0x1_0000_0000_0000_0000

  type ULong = x: int | 0 <= x < TWO64

  datatype FileFn = FileFn(fi: string, fn: string)

  type Vec = seq<ULong>
  type UWord = ULong
  type Lines = map<UWord, Vec>
  type Table = map<FileFn, Lines>

  function AddULong(a: ULong, b: ULong): ULong {
    (a + b) % TWO64
  }

  function AddVec(a: Vec, b: Vec): (c: Vec)
    requires |a| == |b|
    ensures |c| == |a| && forall i :: 0 <= i < |c| ==> c[i] == AddULong(a[i], b[i])
  {
    seq(|a|, i requires 0 <= i < |a| => AddULong(a[i], b[i]))
  }

  ghost predicate LinesOk(t: Lines, n: nat) {
    forall l :: l in t ==> |t[l]| == n
  }

  ghost predicate TableOk(t: Table, n: nat) {
    forall k :: k in t ==> LinesOk(t[k], n)
  }

  /** One line's counts added to a line map: merged if the line is known, else recorded. */
  function AddLine(t: Lines, l: UWord, v: Vec, n: nat): (u: Lines)
    requires LinesOk(t, n) && |v| == n
    ensures LinesOk(u, n)
  {
    t[l := if l in t then AddVec(t[l], v) else v]
  }

  function AddCounts(t: Table, k: FileFn, l: UWord, v: Vec, n: nat): (u: Table)
    requires TableOk(t, n) && |v| == n
    ensures TableOk(u, n)
  {
    t[k := AddLine(if k in t then t[k] else map[], l, v, n)]
  }

  /** Pointwise sum over the union of the lines. */
  function MergeLines(a: Lines, b: Lines, n: nat): (u: Lines)
    requires LinesOk(a, n) && LinesOk(b, n)
    ensures LinesOk(u, n)
  {
    map l | l in a.Keys + b.Keys ::
      if l in a && l in b then AddVec(a[l], b[l]) else if l in a then a[l] else b[l]
  }

  /** Pointwise sum over the union of the (file, function) keys and their lines. */
  function MergeTables(a: Table, b: Table, n: nat): (u: Table)
    requires TableOk(a, n) && TableOk(b, n)
    ensures TableOk(u, n)
  {
    map k | k in a.Keys + b.Keys ::
      if k in a && k in b then MergeLines(a[k], b[k], n) else if k in a then a[k] else b[k]
  }

  predicate IsAlpha(c: char) {
    'a' <= c <= 'z' || 'A' <= c <= 'Z'
  }

  /** Space-letter transitions from position i on. */
  function CountNames(line: string, i: nat): nat
    requires i <= |line|
    decreases |line| - i
  {
    if i + 1 >= |line| then 0
    else (if line[i] == ' ' && IsAlpha(line[i + 1]) then 1 else 0) + CountNames(line, i + 1)
  }

  /** The number of events an "events:" line names. */
  function EventCount(line: string): nat {
    if |line| <= 6 then 0 else CountNames(line, 6)
  }

  /** A letter follows a space at position i. */
  predicate NameBegins(line: string, i: nat) {
    i + 1 < |line| && line[i] == ' ' && ('a' <= line[i + 1] <= 'z' || 'A' <= line[i + 1] <= 'Z')
  }

  function NamesAt(line: string, from: nat): (s: set<nat>) {
    set i: nat | from <= i < |line| && NameBegins(line, i)
  }

  lemma {:induction false} CountIsSize(line: string, i: nat)
    requires i <= |line|
    ensures CountNames(line, i) == |NamesAt(line, i)|
    decreases |line| - i
  {
    if i + 1 >= |line| {
      assert NamesAt(line, i) == {};
    } else {
      CountIsSize(line, i + 1);
      var rest := NamesAt(line, i + 1);
      if line[i] == ' ' && IsAlpha(line[i + 1]) {
        assert NamesAt(line, i) == rest + {i} && i !in rest;
      } else {
        assert NamesAt(line, i) == rest;
      }
    }
  }

  /** The number of events is the number of places in the line, from position 6 on, where a letter
      follows a space. */
  lemma EventCountIs(line: string)
    ensures EventCount(line) == |set i: nat | 6 <= i < |line| && NameBegins(line, i)|
  {
    if |line| > 6 {
      CountIsSize(line, 6);
    } else {
      assert NamesAt(line, 6) == {};
    }
  }

  /** A name begins with a letter and has no space. */
  predicate IsName(name: string) {
    name != "" && ('a' <= name[0] <= 'z' || 'A' <= name[0] <= 'Z') && ' ' !in name
  }

  function Spaced(names: seq<string>): string {
    if names == [] then "" else " " + names[0] + Spaced(names[1..])
  }

  lemma {:induction false} NoNames(before: string, name: string, rest: string)
    requires ' ' !in name && (rest == "" || rest[0] == ' ')
    ensures CountNames(before + name + rest, |before|) == CountNames(before + name + rest, |before + name|)
    decreases |name|
  {
    var line := before + name + rest;
    if name == "" {
      assert line == before + rest && before + name == before;
    } else {
      assert line[|before|] == name[0] && name[0] in name;
      NoNames(before + [name[0]], name[1..], rest);
      assert before + [name[0]] + name[1..] == before + name;
      if |before| + 1 >= |line| { assert CountNames(line, |before + name|) == 0; }
    }
  }

  lemma {:induction false} CountSpaced(before: string, names: seq<string>)
    requires forall i :: 0 <= i < |names| ==> IsName(names[i])
    ensures CountNames(before + Spaced(names), |before|) == |names|
    decreases |names|
  {
    hide CountNames;
    var line := before + Spaced(names);
    if names == [] {
      assert CountNames(line, |before|) == 0 by { CountEnd(line, |before|); }
    } else {
      var name, rest := names[0], Spaced(names[1..]);
      assert IsName(name);
      assert line == before + " " + name + rest;
      assert line[|before|] == ' ' && line[|before| + 1] == name[0];
      CountHere(line, |before|);
      assert rest == "" || rest[0] == ' ';
      NoNames(before + " ", name, rest);
      CountSpaced(before + " " + name, names[1..]);
    }
  }

  lemma CountEnd(line: string, i: nat)
    requires i <= |line| <= i + 1
    ensures CountNames(line, i) == 0
  {
  }

  lemma CountHere(line: string, i: nat)
    requires i + 1 < |line| && line[i] == ' ' && IsAlpha(line[i + 1])
    ensures CountNames(line, i) == 1 + CountNames(line, i + 1)
  {
  }

  /** So an events line that lists k names, each after one space, has k events. */
  lemma EventsOfNames(names: seq<string>)
    requires forall i :: 0 <= i < |names| ==> IsName(names[i])
    ensures EventCount("events:" + Spaced(names)) == |names|
  {
    var line := "events:" + Spaced(names);
    assert line[6] == ':' && |line| >= 7;
    CountSpaced("events:", names);
    if |line| > 7 { CountColon(line); } else { assert CountNames(line, 6) == 0; assert CountNames(line, 7) == 0; }
  }

  lemma CountColon(line: string)
    requires |line| > 7 && line[6] == ':'
    ensures CountNames(line, 6) == CountNames(line, 7)
  {
  }

  // ------------------------------------------------------------------ counts

  /** What a table holds for event c of a line, if anything. */
  function CountAt(t: Table, k: FileFn, l: UWord, c: nat): int {
    if k in t && l in t[k] && c < |t[k][l]| then t[k][l][c] else 0
  }

  predicate HasLine(t: Table, k: FileFn, l: UWord) {
    k in t && l in t[k]
  }

  /** Counter by counter, merging is addition modulo 2^64, of lines that either profile has. */
  lemma MergedCounts(a: Table, b: Table, n: nat, k: FileFn, l: UWord, c: nat)
    requires TableOk(a, n) && TableOk(b, n) && c < n
    ensures var m := MergeTables(a, b, n);
            && (HasLine(m, k, l) <==> HasLine(a, k, l) || HasLine(b, k, l))
            && CountAt(m, k, l, c) == (CountAt(a, k, l, c) + CountAt(b, k, l, c)) % 18446744073709551616
  {
  }

  /** And a counts line adds its counts to those of its line, and changes no other. */
  lemma AddedCounts(t: Table, k: FileFn, l: UWord, v: Vec, n: nat, k1: FileFn, l1: UWord, c: nat)
    requires TableOk(t, n) && |v| == n && c < n
    ensures var u := AddCounts(t, k, l, v, n);
            && (HasLine(u, k1, l1) <==> HasLine(t, k1, l1) || (k1 == k && l1 == l))
            && CountAt(u, k1, l1, c)
               == (CountAt(t, k1, l1, c) + if k1 == k && l1 == l then v[c] else 0) % 18446744073709551616
  {
  }

  // ------------------------------------------------------------ column sums

  ghost function SumMap<K>(m: map<K, int>): int
    decreases |m|
  {
    if m == map[] then 0 else
      var k :| k in m;
      m[k] + SumMap(m - {k})
  }

  lemma {:induction false} SumPick<K>(m: map<K, int>, k: K)
    requires k in m
    ensures SumMap(m) == m[k] + SumMap(m - {k})
    decreases |m|
  {
    var j :| j in m && SumMap(m) == m[j] + SumMap(m - {j});
    if j != k {
      SumPick(m - {j}, k);
      SumPick(m - {k}, j);
      assert m - {j} - {k} == m - {k} - {j};
    }
  }

  lemma SumUpdate<K>(m: map<K, int>, k: K, x: int)
    ensures SumMap(m[k := x]) == SumMap(m) - (if k in m then m[k] else 0) + x
  {
    SumPick(m[k := x], k);
    if k in m {
      SumPick(m, k);
      assert m[k := x] - {k} == m - {k};
    } else {
      assert m[k := x] - {k} == m;
    }
  }

  function Col(v: Vec, c: nat): int {
    if c < |v| then v[c] else 0
  }

  ghost function LinesCol(t: Lines, c: nat): map<UWord, int> {
    map l | l in t :: Col(t[l], c)
  }

  ghost function LinesSum(t: Lines, c: nat): int {
    SumMap(LinesCol(t, c))
  }

  ghost function TableCol(t: Table, c: nat): map<FileFn, int> {
    map k | k in t :: LinesSum(t[k], c)
  }

  ghost function TableSum(t: Table, c: nat): int {
    SumMap(TableCol(t, c))
  }

  lemma LinesSumUpdate(t: Lines, l: UWord, v: Vec, c: nat)
    ensures LinesSum(t[l := v], c) == LinesSum(t, c) - (if l in t then Col(t[l], c) else 0) + Col(v, c)
  {
    assert LinesCol(t[l := v], c) == LinesCol(t, c)[l := Col(v, c)];
    SumUpdate(LinesCol(t, c), l, Col(v, c));
  }

  lemma TableSumUpdate(t: Table, k: FileFn, u: Lines, c: nat)
    ensures TableSum(t[k := u], c) == TableSum(t, c) - (if k in t then LinesSum(t[k], c) else 0) + LinesSum(u, c)
  {
    assert TableCol(t[k := u], c) == TableCol(t, c)[k := LinesSum(u, c)];
    SumUpdate(TableCol(t, c), k, LinesSum(u, c));
  }

  /** Equal as 64-bit counters. */
  ghost predicate Same(a: int, b: int) {
    a % TWO64 == b % TWO64
  }

  lemma SameShift(a: int, b: int, d: int)
    requires Same(a, b)
    ensures Same(a + d, b + d)
  {
  }

  lemma SameAdd(a: int, b: int, d: int, e: int)
    requires Same(a, b) && Same(d, e)
    ensures Same(a + d, b + e)
  {
    SameShift(a, b, d);
    SameShift(d, e, b);
  }

  lemma SameColumns(a: Vec, b: Vec, c: nat)
    requires |a| == |b|
    ensures Same(Col(AddVec(a, b), c), Col(a, c) + Col(b, c))
  {
  }

  lemma AddLineSum(t: Lines, l: UWord, v: Vec, n: nat, c: nat)
    requires LinesOk(t, n) && |v| == n
    ensures Same(LinesSum(AddLine(t, l, v, n), c), LinesSum(t, c) + Col(v, c))
  {
    hide Same, Col, AddVec, LinesSum;
    LinesSumUpdate(t, l, AddLine(t, l, v, n)[l], c);
    if l in t {
      SameColumns(t[l], v, c);
      SameShiftBack(Col(AddVec(t[l], v), c), Col(t[l], c) + Col(v, c), LinesSum(t, c) - Col(t[l], c));
    } else {
      SameRefl(LinesSum(t, c) + Col(v, c));
    }
  }

  lemma SameRefl(a: int)
    ensures Same(a, a)
  {
  }

  lemma SameShiftBack(a: int, b: int, d: int)
    requires Same(a, b)
    ensures Same(d + a, d + b)
  {
    SameShift(a, b, d);
  }

  lemma AddCountsSum(t: Table, k: FileFn, l: UWord, v: Vec, n: nat, c: nat)
    requires TableOk(t, n) && |v| == n
    ensures Same(TableSum(AddCounts(t, k, l, v, n), c), TableSum(t, c) + Col(v, c))
  {
    hide Same, Col, AddLine, LinesSum, TableSum;
    var before := if k in t then t[k] else map[];
    var d := TableSum(t, c) - LinesSum(before, c);
    EmptySum(c);
    AddLineSum(before, l, v, n, c);
    TableSumUpdate(t, k, AddLine(before, l, v, n), c);
    SameShiftBack(LinesSum(AddLine(before, l, v, n), c), LinesSum(before, c) + Col(v, c), d);
  }

  lemma EmptySum(c: nat)
    ensures LinesSum(map[], c) == 0 && TableSum(map[], c) == 0
  {
    assert LinesCol(map[], c) == map[] && TableCol(map[], c) == map[];
  }

  /** One more line in the merged-in map adds that line's count to the sum. */
  lemma MergeLinesSumStep(a: Lines, b: Lines, l: UWord, v: Vec, n: nat, c: nat)
    requires LinesOk(a, n) && LinesOk(b, n) && l !in b && |v| == n
    requires Same(LinesSum(MergeLines(a, b, n), c), LinesSum(a, c) + LinesSum(b, c))
    ensures LinesOk(b[l := v], n)
    ensures Same(LinesSum(MergeLines(a, b[l := v], n), c), LinesSum(a, c) + LinesSum(b[l := v], c))
  {
    hide Same, Col, AddLine, LinesSum, MergeLines;
    MergeLinesStep(a, b, l, v, n);
    LinesSumUpdate(b, l, v, c);
    AddLineSum(MergeLines(a, b, n), l, v, n, c);
    SameShift2(LinesSum(MergeLines(a, b[l := v], n), c), LinesSum(MergeLines(a, b, n), c),
               LinesSum(a, c) + LinesSum(b, c), Col(v, c));
  }

  lemma MergeNothing(a: Lines, t: Table, n: nat)
    requires LinesOk(a, n) && TableOk(t, n)
    ensures MergeLines(a, map[], n) == a && MergeTables(t, map[], n) == t
  {
  }

  lemma {:induction false} MergeLinesSum(a: Lines, b: Lines, n: nat, c: nat)
    requires LinesOk(a, n) && LinesOk(b, n)
    ensures Same(LinesSum(MergeLines(a, b, n), c), LinesSum(a, c) + LinesSum(b, c))
    decreases |b|
  {
    hide Same, LinesSum, MergeLines;
    if b == map[] {
      MergeNothing(a, map[], n);
      EmptySum(c);
      SameRefl(LinesSum(a, c));
    } else {
      var l :| l in b;
      TakeOut(b, l);
      MergeLinesSum(a, b - {l}, n, c);
      MergeLinesSumStep(a, b - {l}, l, b[l], n, c);
    }
  }

  lemma TakeOut<K, V>(b: map<K, V>, k: K)
    requires k in b
    ensures var b' := b - {k};
            b'[k := b[k]] == b && k !in b' && |b'| < |b| && b'.Keys <= b.Keys
            && forall j :: j in b' ==> b'[j] == b[j]
  {
    var b' := b - {k};
    assert b'.Keys == b.Keys - {k};
  }

  lemma SameShift2(x: int, y: int, z: int, d: int)
    requires Same(x, y + d) && Same(y, z)
    ensures Same(x, z + d)
  {
    SameShift(y, z, d);
  }

  /** Merging one more line is adding it. */
  lemma MergeLinesStep(a: Lines, b: Lines, l: UWord, v: Vec, n: nat)
    requires LinesOk(a, n) && LinesOk(b, n) && |v| == n && l !in b
    ensures LinesOk(b[l := v], n) && MergeLines(a, b[l := v], n) == AddLine(MergeLines(a, b, n), l, v, n)
  {
  }

  lemma MergeTablesAt(a: Table, b: Table, k: FileFn, n: nat)
    requires TableOk(a, n) && TableOk(b, n)
    ensures var m := MergeTables(a, b, n);
            && (k in m <==> k in a || k in b)
            && (k in a ==> m[k] == if k in b then MergeLines(a[k], b[k], n) else a[k])
            && (k in b && k !in a ==> m[k] == b[k])
  {
    hide MergeLines;
  }

  lemma MergeTablesStep(a: Table, b: Table, k: FileFn, t: Lines, n: nat)
    requires TableOk(a, n) && TableOk(b, n) && LinesOk(t, n) && k !in b
    ensures TableOk(b[k := t], n)
    ensures MergeTables(a, b[k := t], n) == MergeTables(a, b, n)[k := if k in a then MergeLines(a[k], t, n) else t]
    ensures k in MergeTables(a, b, n) <==> k in a
    ensures k in a ==> MergeTables(a, b, n)[k] == a[k]
  {
    hide MergeTables, MergeLines, LinesOk;
    var c := b[k := t];
    MergeTablesAt(a, b, k, n);
    var m, u := MergeTables(a, c, n), MergeTables(a, b, n)[k := if k in a then MergeLines(a[k], t, n) else t];
    forall j: FileFn
      ensures (j in m <==> j in u) && (j in m ==> m[j] == u[j])
    {
      MergeTablesAt(a, b, j, n);
      MergeTablesAt(a, c, j, n);
    }
  }

  lemma MergeTablesSumStep(a: Table, b: Table, k: FileFn, t: Lines, n: nat, c: nat)
    requires TableOk(a, n) && TableOk(b, n) && k !in b && LinesOk(t, n)
    requires Same(TableSum(MergeTables(a, b, n), c), TableSum(a, c) + TableSum(b, c))
    ensures TableOk(b[k := t], n)
    ensures Same(TableSum(MergeTables(a, b[k := t], n), c), TableSum(a, c) + TableSum(b[k := t], c))
  {
    hide Same, LinesSum, TableSum, MergeTables, MergeLines;
    var m := MergeTables(a, b, n);
    var u := if k in a then MergeLines(a[k], t, n) else t;
    MergeTablesStep(a, b, k, t, n);
    TableSumUpdate(b, k, t, c);
    TableSumUpdate(m, k, u, c);
    if k in a {
      MergeLinesSum(a[k], t, n, c);
      SameShiftBack(LinesSum(u, c), LinesSum(a[k], c) + LinesSum(t, c), TableSum(m, c) - LinesSum(a[k], c));
    } else {
      SameRefl(TableSum(m, c) + LinesSum(t, c));
    }
    SameShift2(TableSum(MergeTables(a, b[k := t], n), c), TableSum(m, c), TableSum(a, c) + TableSum(b, c),
      LinesSum(t, c));
  }

  /** Merging adds up the column sums, as 64-bit counters. */
  lemma {:induction false} MergeTablesSum(a: Table, b: Table, n: nat, c: nat)
    requires TableOk(a, n) && TableOk(b, n)
    ensures Same(TableSum(MergeTables(a, b, n), c), TableSum(a, c) + TableSum(b, c))
    decreases |b|
  {
    hide Same, TableSum, MergeTables;
    if b == map[] {
      MergeNothing(map[], a, n);
      EmptySum(c);
      SameRefl(TableSum(a, c));
    } else {
      var k :| k in b;
      TakeOut(b, k);
      MergeTablesSum(a, b - {k}, n, c);
      MergeTablesSumStep(a, b - {k}, k, b[k], n, c);
    }
  }

  /** The cross-check a profile file carries: its summary is its column sums. */
  ghost predicate Summarizes(s: Vec, t: Table) {
    forall c :: 0 <= c < |s| ==> Same(s[c], TableSum(t, c))
  }

  lemma SummaryIsExact(s: Vec, t: Table)
    requires Summarizes(s, t)
    ensures forall c :: 0 <= c < |s| ==> s[c] == TableSum(t, c) % TWO64
  {
  }

  lemma AddCountsSummary(s: Vec, t: Table, k: FileFn, l: UWord, v: Vec, n: nat)
    requires TableOk(t, n) && |v| == n && |s| == n && Summarizes(s, t)
    ensures Summarizes(AddVec(s, v), AddCounts(t, k, l, v, n))
  {
    hide AddCounts, TableSum, Same, AddVec;
    var u := AddCounts(t, k, l, v, n);
    forall c | 0 <= c < n ensures Same(AddVec(s, v)[c], TableSum(u, c)) {
      AddCountsSum(t, k, l, v, n, c);
      SummaryColumn(s, v, TableSum(t, c), Col(v, c), TableSum(u, c), c);
    }
  }

  lemma SummaryColumn(s: Vec, v: Vec, x: int, y: int, z: int, c: nat)
    requires |s| == |v| && c < |s| && Same(s[c], x) && Same(v[c], y) && Same(z, x + y)
    ensures Same(AddVec(s, v)[c], z)
  {
    SameAdd(s[c], x, v[c], y);
  }

  lemma MergeSummary(s: Vec, a: Table, r: Vec, b: Table, n: nat)
    requires TableOk(a, n) && TableOk(b, n) && |s| == n && |r| == n
    requires Summarizes(s, a) && Summarizes(r, b)
    ensures Summarizes(AddVec(s, r), MergeTables(a, b, n))
  {
    hide MergeTables, TableSum, Same, AddVec;
    var u := MergeTables(a, b, n);
    forall c | 0 <= c < n ensures Same(AddVec(s, r)[c], TableSum(u, c)) {
      MergeTablesSum(a, b, n, c);
      SummaryColumn(s, r, TableSum(a, c), TableSum(b, c), TableSum(u, c), c);
    }
  }

  lemma MergeLinesCommutes(a: Lines, b: Lines, n: nat)
    requires LinesOk(a, n) && LinesOk(b, n)
    ensures MergeLines(a, b, n) == MergeLines(b, a, n)
  {
    forall l | l in a && l in b ensures AddVec(a[l], b[l]) == AddVec(b[l], a[l]) { }
  }

  /** Merging does not depend on the order of the two files ... */
  lemma MergeCommutes(a: Table, b: Table, n: nat)
    requires TableOk(a, n) && TableOk(b, n)
    ensures MergeTables(a, b, n) == MergeTables(b, a, n)
  {
    hide MergeLines;
    forall k | k in a && k in b ensures MergeLines(a[k], b[k], n) == MergeLines(b[k], a[k], n) {
      MergeLinesCommutes(a[k], b[k], n);
    }
  }

  lemma AddVecAssociates(a: Vec, b: Vec, d: Vec)
    requires |a| == |b| == |d|
    ensures AddVec(AddVec(a, b), d) == AddVec(a, AddVec(b, d))
  {
    hide AddULong;
    forall i | 0 <= i < |a|
      ensures AddULong(AddULong(a[i], b[i]), d[i]) == AddULong(a[i], AddULong(b[i], d[i]))
    {
      AddULongAssociates(a[i], b[i], d[i]);
    }
  }

  lemma AddULongAssociates(x: ULong, y: ULong, z: ULong)
    ensures AddULong(AddULong(x, y), z) == AddULong(x, AddULong(y, z))
  {
  }

  lemma MergeLinesAssociates(a: Lines, b: Lines, d: Lines, n: nat)
    requires LinesOk(a, n) && LinesOk(b, n) && LinesOk(d, n)
    ensures MergeLines(MergeLines(a, b, n), d, n) == MergeLines(a, MergeLines(b, d, n), n)
  {
    hide AddVec;
    forall l | l in a && l in b && l in d
      ensures AddVec(AddVec(a[l], b[l]), d[l]) == AddVec(a[l], AddVec(b[l], d[l]))
    {
      AddVecAssociates(a[l], b[l], d[l]);
    }
  }

  /** ... nor on how three are grouped. */
  lemma MergeAssociates(a: Table, b: Table, d: Table, n: nat)
    requires TableOk(a, n) && TableOk(b, n) && TableOk(d, n)
    ensures MergeTables(MergeTables(a, b, n), d, n) == MergeTables(a, MergeTables(b, d, n), n)
  {
    hide MergeLines;
    forall k | k in a && k in b && k in d
      ensures MergeLines(MergeLines(a[k], b[k], n), d[k], n) == MergeLines(a[k], MergeLines(b[k], d[k], n), n)
    {
      MergeLinesAssociates(a[k], b[k], d[k], n);
    }
  }

  /** No file is recorded without a line: such a file would not survive printing. */
  ghost predicate NoEmptyFile(t: Table) {
    forall k :: k in t ==> t[k] != map[]
  }

  lemma AddCountsNoEmptyFile(t: Table, k: FileFn, l: UWord, v: Vec, n: nat)
    requires TableOk(t, n) && |v| == n && NoEmptyFile(t)
    ensures NoEmptyFile(AddCounts(t, k, l, v, n))
  {
    assert l in AddCounts(t, k, l, v, n)[k];
  }

  lemma MergeNoEmptyFile(a: Table, b: Table, n: nat)
    requires TableOk(a, n) && TableOk(b, n) && NoEmptyFile(a) && NoEmptyFile(b)
    ensures NoEmptyFile(MergeTables(a, b, n))
  {
    hide AddVec;
    var m := MergeTables(a, b, n);
    forall k | k in m ensures m[k] != map[] {
      if k in a && k in b {
        var l :| l in a[k];
        assert l in m[k];
      }
    }
  }
}
