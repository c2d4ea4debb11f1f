/** The merging program as a whole: several profiles are read and merged one after the other into
    the first. */
module CgMerge {
  import opened AvlTree
  import opened AvlNodes
  import opened AvlMap
  import opened AvlIter
  import opened WordFMs
  import opened Profile
  import opened CacheProf
  import opened ProfText
  import opened ProfFile

  // ------------------------------------------------------------- many tables

  ghost predicate AllTablesOk(ts: seq<Table>, n: nat) {
    forall i :: 0 <= i < |ts| ==> TableOk(ts[i], n)
  }

  /** Merging tables one after the other. */
  ghost function FoldTables(ts: seq<Table>, n: nat): (t: Table)
    requires AllTablesOk(ts, n)
    ensures TableOk(t, n)
  {
    if ts == [] then map[] else MergeTables(FoldTables(ts[..|ts| - 1], n), ts[|ts| - 1], n)
  }

  lemma MergeIntoNone(t: Table, n: nat)
    requires TableOk(t, n)
    ensures MergeTables(map[], t, n) == t
  {
  }

  function Without<T>(s: seq<T>, i: nat): (r: seq<T>)
    requires i < |s|
    ensures |r| == |s| - 1
  {
    s[..i] + s[i + 1..]
  }

  /** Any of the tables may as well be merged last. */
  lemma {:induction false} MoveToEnd(ts: seq<Table>, i: nat, n: nat)
    requires AllTablesOk(ts, n) && i < |ts|
    ensures AllTablesOk(Without(ts, i), n)
    ensures FoldTables(ts, n) == MergeTables(FoldTables(Without(ts, i), n), ts[i], n)
  {
    hide MergeTables, TableOk;
    var m := |ts| - 1;
    var w := Without(ts, i);
    if i == m {
      assert w == ts[..m];
    } else {
      assert w[..m - 1] == Without(ts[..m], i) && w[m - 1] == ts[m];
      MoveToEnd(ts[..m], i, n);
      var f := FoldTables(Without(ts[..m], i), n);
      MergeAssociates(f, ts[i], ts[m], n);
      MergeCommutes(ts[i], ts[m], n);
      MergeAssociates(f, ts[m], ts[i], n);
    }
  }

  lemma PutBack<T>(s: seq<T>, i: nat)
    requires i < |s|
    ensures multiset(s) == multiset(Without(s, i)) + multiset{s[i]}
  {
    assert s == s[..i] + [s[i]] + s[i + 1..];
  }

  lemma AmongThem<T>(s: seq<T>, t: seq<T>) returns (i: nat)
    requires s != [] && multiset(s) == multiset(t)
    ensures i < |t| && t[i] == s[|s| - 1] && multiset(Without(t, i)) == multiset(s[..|s| - 1])
  {
    hide Without;
    var m := |s| - 1;
    PutBack(s, m);
    assert Without(s, m) == s[..m] by { WithoutLast(s); }
    assert s[m] in multiset(t);
    i :| 0 <= i < |t| && t[i] == s[m];
    PutBack(t, i);
    assert multiset(Without(t, i)) == multiset(t) - multiset{s[m]};
    assert multiset(Without(s, m)) == multiset(s) - multiset{s[m]};
  }

  lemma WithoutLast<T>(s: seq<T>)
    requires s != []
    ensures Without(s, |s| - 1) == s[..|s| - 1]
  {
  }

  /** The order of the tables makes no difference. */
  lemma {:induction false} FoldInAnyOrder(ts: seq<Table>, us: seq<Table>, n: nat)
    requires AllTablesOk(ts, n) && AllTablesOk(us, n) && multiset(ts) == multiset(us)
    ensures FoldTables(ts, n) == FoldTables(us, n)
    decreases |ts|
  {
    hide MergeTables, TableOk;
    if ts == [] {
      assert |us| == |multiset(us)| == 0;
    } else {
      var m := |ts| - 1;
      var i := AmongThem(ts, us);
      MoveToEnd(us, i, n);
      FoldInAnyOrder(ts[..m], Without(us, i), n);
    }
  }

  // -------------------------------------------------------------- many files

  /** What the program comes to: a file is refused, there is none, or the merged profile. */
  datatype Outcome = Refused | NoFile | Merged(p: Parsed)

  ghost predicate ParsedOk(p: Parsed) {
    |p.summary| == EventCount(p.events) && TableOk(p.table, |p.summary|) && Summarizes(p.summary, p.table)
  }

  /** The files as they parse. */
  ghost predicate AllOk(ps: seq<Option<Parsed>>) {
    forall i :: 0 <= i < |ps| && ps[i].Some? ==> ParsedOk(ps[i].value)
  }

  /** The next file, after what came of those before. */
  function MergeOne(before: Outcome, p: Option<Parsed>): (r: Outcome)
    requires (before.Merged? ==> ParsedOk(before.p)) && (p.Some? ==> ParsedOk(p.value))
    ensures r.Merged? ==> ParsedOk(r.p)
  {
    match before
    case Refused => Refused
    case NoFile => if p.None? then Refused else Merged(p.value)
    case Merged(q) =>
      if p.None? || p.value.events != q.events then Refused else
      MergeSummary(q.summary, q.table, p.value.summary, p.value.table, |q.summary|);
      Merged(q.(table := MergeTables(q.table, p.value.table, |q.summary|),
        summary := AddVec(q.summary, p.value.summary)))
  }

  function MergeAll(ps: seq<Option<Parsed>>): (r: Outcome)
    requires AllOk(ps)
    ensures r.Merged? ==> ParsedOk(r.p)
  {
    if ps == [] then NoFile else MergeOne(MergeAll(ps[..|ps| - 1]), ps[|ps| - 1])
  }

  /** All files parse, with the same events. */
  ghost predicate Mergeable(ps: seq<Option<Parsed>>) {
    && (forall i :: 0 <= i < |ps| ==> ps[i].Some?)
    && (forall i :: 0 <= i < |ps| ==> ps[i].value.events == ps[0].value.events)
  }

  function TablesOf(ps: seq<Option<Parsed>>): (ts: seq<Table>)
    requires forall i :: 0 <= i < |ps| ==> ps[i].Some?
    ensures |ts| == |ps| && forall i :: 0 <= i < |ts| ==> ts[i] == ps[i].value.table
  {
    seq(|ps|, i requires 0 <= i < |ps| => ps[i].value.table)
  }

  lemma TablesOk(ps: seq<Option<Parsed>>)
    requires AllOk(ps) && Mergeable(ps) && ps != []
    ensures AllTablesOk(TablesOf(ps), EventCount(ps[0].value.events))
  {
    hide TableOk, EventCount, Summarizes;
    forall i | 0 <= i < |ps|
      ensures TableOk(ps[i].value.table, EventCount(ps[0].value.events))
    {
      assert ParsedOk(ps[i].value);
    }
  }

  /** Files are merged exactly if all parse and name the same events; then the result has the
      header of the first and the tables of all, merged one after the other. */
  lemma {:induction false} MergedIs(ps: seq<Option<Parsed>>)
    requires AllOk(ps) && ps != []
    ensures MergeAll(ps).Merged? <==> Mergeable(ps)
    ensures !MergeAll(ps).NoFile?
    ensures Mergeable(ps) ==>
              var (q, f) := (MergeAll(ps).p, ps[0].value);
              && q.desc == f.desc && q.cmd == f.cmd && q.events == f.events
              && AllTablesOk(TablesOf(ps), EventCount(f.events))
                && q.table == FoldTables(TablesOf(ps), EventCount(f.events))
  {
    hide MergeTables, TableOk, EventCount, Summarizes, AddVec, Mergeable, TablesOf;
    if Mergeable(ps) { TablesOk(ps); }
    if |ps| == 1 {
      OneFile(ps);
    } else {
      MergedIs(ps[..|ps| - 1]);
      OneFileMore(ps);
    }
  }

  lemma OneFile(ps: seq<Option<Parsed>>)
    requires AllOk(ps) && |ps| == 1
    ensures Mergeable(ps) <==> ps[0].Some?
    ensures MergeAll(ps) == if ps[0].Some? then Merged(ps[0].value) else Refused
    ensures ps[0].Some? ==> var n := EventCount(ps[0].value.events);
                            AllTablesOk(TablesOf(ps), n) && FoldTables(TablesOf(ps), n) == ps[0].value.table
  {
    hide MergeTables, EventCount, Summarizes;
    assert MergeAll(ps[..0]) == NoFile;
    if ps[0].Some? {
      var ts := TablesOf(ps);
      assert ts[..0] == [] && ParsedOk(ps[0].value);
      MergeIntoNone(ts[0], EventCount(ps[0].value.events));
    }
  }

  lemma OneFileMore(ps: seq<Option<Parsed>>)
    requires |ps| > 1
    ensures var m := |ps| - 1;
            && ps[..m][0] == ps[0]
            && (Mergeable(ps) <==> Mergeable(ps[..m]) && ps[m].Some? && ps[m].value.events == ps[0].value.events)
            && (Mergeable(ps) ==> TablesOf(ps)[..m] == TablesOf(ps[..m]) && TablesOf(ps)[m] == ps[m].value.table)
  {
    var m := |ps| - 1;
    assert forall i :: 0 <= i < m ==> ps[..m][i] == ps[i];
  }

  /** The order in which files are given makes no difference to the merged counts and summary,
      only to the header lines. */
  lemma AnyOrder(ps: seq<Option<Parsed>>, qs: seq<Option<Parsed>>)
    requires AllOk(ps) && AllOk(qs) && multiset(ps) == multiset(qs)
    ensures MergeAll(ps).Merged? <==> MergeAll(qs).Merged?
    ensures MergeAll(ps).Merged? ==>
              var (p, q) := (MergeAll(ps).p, MergeAll(qs).p);
              p.table == q.table && p.summary == q.summary && p.events == q.events
  {
    hide MergeTables, TableOk, EventCount, Summarizes, AddVec, MergeAll;
    assert |ps| == |multiset(ps)| == |multiset(qs)| == |qs|;
    if ps != [] {
      MergedIs(ps);
      MergedIs(qs);
      if Mergeable(qs) { MergeableInAnyOrder(qs, ps); }
      if Mergeable(ps) {
        MergeableInAnyOrder(ps, qs);
        SameTables(ps, qs);
        FoldInAnyOrder(TablesOf(ps), TablesOf(qs), EventCount(ps[0].value.events));
        OneSummary(MergeAll(ps).p.summary, MergeAll(qs).p.summary, MergeAll(ps).p.table);
      }
    } else {
      assert MergeAll(ps) == NoFile by { NoFiles(); }
      assert MergeAll(qs) == NoFile by { NoFiles(); }
    }
  }

  lemma NoFiles()
    ensures MergeAll([]) == NoFile
  {
  }

  lemma MergeableInAnyOrder(ps: seq<Option<Parsed>>, qs: seq<Option<Parsed>>)
    requires multiset(ps) == multiset(qs) && ps != [] && qs != [] && Mergeable(ps)
    ensures Mergeable(qs) && qs[0].value.events == ps[0].value.events
  {
    forall i | 0 <= i < |qs|
      ensures qs[i].Some? && qs[i].value.events == ps[0].value.events
    {
      assert qs[i] in multiset(ps);
      var j :| 0 <= j < |ps| && ps[j] == qs[i];
    }
  }

  lemma {:induction false} SameTables(ps: seq<Option<Parsed>>, qs: seq<Option<Parsed>>)
    requires multiset(ps) == multiset(qs) && Mergeable(ps) && Mergeable(qs)
    ensures multiset(TablesOf(ps)) == multiset(TablesOf(qs))
    decreases |ps|
  {
    hide Without, Mergeable;
    if ps == [] {
      assert |qs| == |multiset(qs)| == 0;
      NoTables(ps);
      NoTables(qs);
    } else {
      var m := |ps| - 1;
      var i := AmongThem(ps, qs);
      OneLess(ps, m);
      OneLess(qs, i);
      AllParse(ps);
      AllParse(qs);
      WithoutLast(ps);
      SameTables(ps[..m], Without(qs, i));
      PutBack(TablesOf(ps), m);
      PutBack(TablesOf(qs), i);
    }
  }

  lemma AllParse(ps: seq<Option<Parsed>>)
    requires Mergeable(ps)
    ensures forall i :: 0 <= i < |ps| ==> ps[i].Some?
  {
  }

  lemma OneLess(ps: seq<Option<Parsed>>, i: nat)
    requires Mergeable(ps) && i < |ps|
    ensures Mergeable(Without(ps, i)) && TablesOf(Without(ps, i)) == Without(TablesOf(ps), i)
  {
    var w := Without(ps, i);
    assert forall j :: 0 <= j < |w| ==> w[j] == if j < i then ps[j] else ps[j + 1];
    assert forall j :: 0 <= j < |w| ==> w[j].Some? && w[j].value.events == ps[0].value.events;
  }

  lemma NoTables(ps: seq<Option<Parsed>>)
    requires ps == []
    ensures Mergeable(ps) && TablesOf(ps) == []
  {
  }

  /** A summary is determined by the table it summarizes. */
  lemma OneSummary(s: Vec, r: Vec, t: Table)
    requires |s| == |r| && Summarizes(s, t) && Summarizes(r, t)
    ensures s == r
  {
    SummaryIsExact(s, t);
    SummaryIsExact(r, t);
  }

  // ------------------------------------------------------- small files are safe

  /** At most c files, and at most c lines in each. */
  ghost predicate FewEntries(t: Table, c: nat) {
    |t| <= c && forall k :: k in t ==> |t[k]| <= c
  }

  lemma OneMoreKey<K, V>(t: map<K, V>, k: K, v: V)
    ensures |t[k := v]| <= |t| + 1
  {
    assert t[k := v].Keys == t.Keys + {k};
    assert |t[k := v].Keys| == |t[k := v]| && |t.Keys| == |t|;
  }

  lemma CountSmall(t: Table, k: FileFn, l: UWord, v: Vec, n: nat, c: nat)
    requires TableOk(t, n) && |v| == n && FewEntries(t, c)
    ensures FewEntries(AddCounts(t, k, l, v, n), c + 1)
  {
    hide AddVec, TableOk;
    var u := AddCounts(t, k, l, v, n);
    var line := if k in t then t[k] else map[];
    OneMoreKey(t, k, u[k]);
    OneMoreKey(line, l, u[k][l]);
    assert |u[k]| <= c + 1;
  }

  lemma {:induction false} BodySmall(ls: seq<string>, st: State, n: nat, c: nat)
    requires StateOk(st, n) && FewEntries(st.table, c)
    ensures var b := Body(ls, st, n); b.Some? ==> FewEntries(b.value.0.table, c + |ls|)
    decreases |ls|
  {
    hide StateOk, FewEntries, ReadLine, AddCounts, Count;
    if ls != [] {
      if ls[0] != "" && IsDigit(ls[0][0]) {
        var r := ReadLine(ls[0]);
        if r.Some? && |r.value.1| == n {
          var st1 := Count(st, r.value.0, r.value.1, n);
          CountIs(st, r.value.0, r.value.1, n, c);
          BodySmall(ls[1..], st1, n, c + 1);
        }
      } else if "fn=" <= ls[0] {
        var st1 := st.(fn := ls[0][3..]);
        SameState(st, st1, n);
        BodySmall(ls[1..], st1, n, c);
        SmallMore(ls[1..], st1, n, c, c + |ls|);
      } else if "fl=" <= ls[0] {
        var st1 := st.(fl := ls[0][3..]);
        SameState(st, st1, n);
        BodySmall(ls[1..], st1, n, c);
        SmallMore(ls[1..], st1, n, c, c + |ls|);
      } else {
        SmallGrows(st.table, c, c + |ls|);
      }
    }
  }

  lemma SameState(st: State, u: State, n: nat)
    requires StateOk(st, n) && u.table == st.table && u.summary == st.summary
    ensures StateOk(u, n)
  {
  }

  lemma CountIs(st: State, l: UWord, v: Vec, n: nat, c: nat)
    requires StateOk(st, n) && |v| == n && FewEntries(st.table, c)
    ensures FewEntries(Count(st, l, v, n).table, c + 1)
  {
    hide AddCounts, FewEntries;
    CountSmall(st.table, FileFn(st.fl, st.fn), l, v, n, c);
  }

  lemma SmallGrows(t: Table, c: nat, d: nat)
    requires FewEntries(t, c) && c <= d
    ensures FewEntries(t, d)
  {
  }

  lemma SmallMore(ls: seq<string>, st: State, n: nat, c: nat, d: nat)
    requires StateOk(st, n) && c + |ls| <= d
    requires var b := Body(ls, st, n); b.Some? ==> FewEntries(b.value.0.table, c + |ls|)
    ensures var b := Body(ls, st, n); b.Some? ==> FewEntries(b.value.0.table, d)
  {
    hide FewEntries, StateOk;
    var b := Body(ls, st, n);
    if b.Some? { SmallGrows(b.value.0.table, c + |ls|, d); }
  }

  /** A file has no more entries than lines. */
  lemma ParsedSmall(ls: seq<string>)
    requires Parse(ls).Some?
    ensures FewEntries(Parse(ls).value.table, |ls|)
  {
    hide Body, ReadSummary, EventCount, ProfText.Start, StateOk, FewEntries;
    var d := DescLines(ls);
    var n := EventCount(ls[d + 1]);
    StartSmall(n);
    BodySmall(ls[d + 2..], ProfText.Start(n), n, 0);
    SmallGrows(Parse(ls).value.table, |ls[d + 2..]|, |ls|);
  }

  lemma StartSmall(n: nat)
    ensures FewEntries(ProfText.Start(n).table, 0)
  {
  }

  /** Maps with fewer than 9,227,464 entries can be traversed. */
  lemma SmallFits(cpf: CacheProfFile)
    requires cpf.Valid() && FewEntries(cpf.Table(), 9227463)
    ensures LeftDepth(cpf.outerMap.tree) <= WFM_STKMAX && Shallow(cpf.outerMap.Map())
  {
    hide Summarizes, InnerRepr, FewEntries, Balanced;
    var m := cpf.outerMap.Map();
    SmallParts(cpf.Table(), m);
    assert |m| == |cpf.Table()|;
    TreeFits(cpf.outerMap.tree, cpf.outerMap.kCmp);
    forall k | k in m
      ensures LeftDepth(m[k].tree) <= WFM_STKMAX
    {
      OneInner(m, k, cpf.n_events);
      assert cpf.Table()[k].Keys == m[k].Map().Keys;
      assert |cpf.Table()[k].Keys| == |cpf.Table()[k]| && |m[k].Map().Keys| == |m[k].Map()|;
      TreeFits(m[k].tree, m[k].kCmp);
    }
  }

  lemma SmallParts<V>(t: Table, m: map<FileFn, V>)
    requires FewEntries(t, 9227463) && t.Keys == m.Keys
    ensures |m| <= 9227463 && forall k :: k in m ==> |t[k]| <= 9227463
    ensures |m| == |t|
  {
    assert |m.Keys| == |m| && |t.Keys| == |t|;
  }

  lemma TreeFits<N, K(!new), V>(t: Tree<N, K, V>, cmp: (K, K) -> int)
    requires Avl(t, cmp) && |Bindings(t)| <= 9227463
    ensures LeftDepth(t) <= WFM_STKMAX
  {
    OneEntryPerKey(Contents(t), cmp);
    SmallMapsFit(t);
  }

  // --------------------------------------------------------- merging in stages

  function ParseAll(files: seq<seq<string>>): (ps: seq<Option<Parsed>>)
    ensures |ps| == |files| && AllOk(ps) && forall i :: 0 <= i < |ps| ==> ps[i] == Parse(files[i])
  {
    hide Parse, AllOk;
    var ps := seq(|files|, i requires 0 <= i < |files| => Parse(files[i]));
    EachOk(ps, files);
    ps
  }

  lemma EachOk(ps: seq<Option<Parsed>>, files: seq<seq<string>>)
    requires |ps| == |files| && forall i :: 0 <= i < |ps| ==> ps[i] == Parse(files[i])
    ensures AllOk(ps)
  {
    hide Parse, ParsedOk;
    forall i | 0 <= i < |ps| && ps[i].Some?
      ensures ParsedOk(ps[i].value)
    {
      ParsedIsOk(files[i]);
    }
  }

  lemma ParsedIsOk(file: seq<string>)
    requires Parse(file).Some?
    ensures ParsedOk(Parse(file).value)
  {
    hide Parse;
    ParsedIsPrintable(file);
  }

  lemma ParseNext(files: seq<seq<string>>, i: nat)
    requires i < |files|
    ensures MergeAll(ParseAll(files[..i + 1])) == MergeOne(MergeAll(ParseAll(files[..i])), Parse(files[i]))
  {
    hide Parse, MergeOne, AllOk;
    var ps := ParseAll(files[..i + 1]);
    assert ps[..i] == ParseAll(files[..i]) by {
      forall j | 0 <= j < i
        ensures ps[j] == Parse(files[j])
      {
        assert files[..i + 1][j] == files[j];
      }
      assert forall j :: 0 <= j < i ==> ParseAll(files[..i])[j] == Parse(files[..i][j]);
    }
  }

  lemma {:induction false} RefusedForGood(files: seq<seq<string>>, i: nat)
    requires i <= |files| && MergeAll(ParseAll(files[..i])).Refused?
    ensures MergeAll(ParseAll(files)).Refused?
    decreases |files| - i
  {
    hide Parse, ParseAll, MergeAll;
    if i == |files| {
      assert files[..i] == files;
    } else {
      ParseNext(files, i);
      RefusedForGood(files, i + 1);
    }
  }

  /** A profile as printing needs it: a header the parser accepts, and no file without lines. */
  ghost predicate Printable(p: Parsed) {
    ParsedOk(p) && HeaderOk(p.desc, p.cmd, p.events) && NoEmptyFile(p.table)
  }

  lemma ParsedPrintable(file: seq<string>)
    requires Parse(file).Some?
    ensures Printable(Parse(file).value)
  {
    hide Parse, HeaderOk, NoEmptyFile;
    ParsedIsPrintable(file);
  }

  lemma MergedOnePrintable(before: Outcome, p: Option<Parsed>)
    requires before.Merged? ==> Printable(before.p)
    requires p.Some? ==> Printable(p.value)
    ensures (before.Merged? ==> ParsedOk(before.p)) && (p.Some? ==> ParsedOk(p.value))
    ensures MergeOne(before, p).Merged? ==> Printable(MergeOne(before, p).p)
  {
    hide HeaderOk, NoEmptyFile, MergeTables, TableOk, Summarizes, EventCount, AddVec;
    if before.Merged? && p.Some? && p.value.events == before.p.events {
      MergeNoEmptyFile(before.p.table, p.value.table, |before.p.summary|);
    }
  }

  /** Merging parsed files gives a profile that can be printed. */
  lemma {:induction false} MergedPrintable(files: seq<seq<string>>)
    ensures var r := MergeAll(ParseAll(files)); r.Merged? ==> Printable(r.p)
  {
    hide Parse, ParseAll, MergeAll, MergeOne, Printable;
    if files == [] {
      assert ParseAll([]) == [];
      NoFiles();
    } else {
      var m := |files| - 1;
      MergedPrintable(files[..m]);
      assert files[..m + 1] == files;
      ParseNext(files, m);
      if Parse(files[m]).Some? { ParsedPrintable(files[m]); }
      MergedOnePrintable(MergeAll(ParseAll(files[..m])), Parse(files[m]));
    }
  }

  /** Line numbers and counts print without a sign. */
  ghost predicate SmallTable(t: Table) {
    forall k, l :: k in t && l in t[k] ==> l < TWO63 && Small(t[k][l])
  }

  /** The profile reads back as it is printed: it names an event, and no line number, count or sum
      reaches 2^63. */
  ghost predicate Rereads(p: Parsed) {
    EventCount(p.events) >= 1 && SmallTable(p.table) && Small(p.summary)
  }

  ghost predicate SmallLineMap(t: Lines) {
    forall l :: l in t ==> l < TWO63 && Small(t[l])
  }

  lemma {:induction false} NewLine(ls: seq<(UWord, Vec)>, l: UWord)
    requires forall i :: 0 <= i < |ls| ==> ls[i].0 != l
    ensures l !in LinesFrom(ls)
    decreases |ls|
  {
    if ls != [] { NewLine(ls[..|ls| - 1], l); }
  }

  lemma {:induction false} NewFile(fs: seq<FileEntry>, k: FileFn)
    requires forall i :: 0 <= i < |fs| ==> fs[i].k != k
    ensures k !in TableFrom(fs)
    decreases |fs|
  {
    hide LinesFrom;
    if fs != [] { NewFile(fs[..|fs| - 1], k); }
  }

  lemma OneLineMore(t: Lines, l: UWord, v: Vec)
    requires l !in t
    ensures SmallLineMap(t[l := v]) <==> SmallLineMap(t) && l < TWO63 && Small(v)
  {
    hide Small;
    var u := t[l := v];
    assert l in u && u[l] == v && forall j :: j in t ==> j in u && u[j] == t[j];
  }

  lemma OneFileInTable(t: Table, k: FileFn, lines: Lines)
    requires k !in t
    ensures SmallTable(t[k := lines]) <==> SmallTable(t) && SmallLineMap(lines)
  {
    hide Small;
    var u := t[k := lines];
    assert k in u && u[k] == lines && forall j :: j in t ==> j in u && u[j] == t[j];
  }

  lemma {:induction false} ListedLines(ls: seq<(UWord, Vec)>)
    requires DistinctLines(ls)
    ensures SmallLines(ls) <==> SmallLineMap(LinesFrom(ls))
    decreases |ls|
  {
    hide Small, SmallLineMap;
    if ls == [] {
      NoLines();
    } else {
      var m := |ls| - 1;
      ListedLines(ls[..m]);
      NewLine(ls[..m], ls[m].0);
      OneLineMore(LinesFrom(ls[..m]), ls[m].0, ls[m].1);
      assert ls == ls[..m] + [ls[m]];
    }
  }

  lemma NoLines()
    ensures SmallLineMap(map[]) && SmallTable(map[])
  {
  }

  /** Whether a listing prints signs is a matter of the table listed. */
  lemma {:induction false} ListedFiles(fs: seq<FileEntry>, n: nat)
    requires FilesOk(fs, n)
    ensures SmallFiles(fs) <==> SmallTable(TableFrom(fs))
    decreases |fs|
  {
    hide Small, SmallLines, SmallLineMap, SmallTable, DistinctLines, WellSized, LinesFrom;
    if fs == [] {
      NoLines();
    } else {
      var m := |fs| - 1;
      ListedFiles(fs[..m], n);
      ListedLines(fs[m].lines);
      NewFile(fs[..m], fs[m].k);
      OneFileInTable(TableFrom(fs[..m]), fs[m].k, LinesFrom(fs[m].lines));
      assert fs == fs[..m] + [fs[m]];
    }
  }

  /** The text of a profile, with its files and lines in the order of the listing fs. */
  function TextOfProfile(p: Parsed, fs: seq<FileEntry>): seq<string> {
    Show(p.desc, p.cmd, p.events, fs, p.summary)
  }

  /** What comes of reading a printed profile. */
  lemma Reread(p: Parsed, fs: seq<FileEntry>)
    requires Printable(p) && FilesOk(fs, EventCount(p.events)) && TableFrom(fs) == p.table
    ensures Parse(TextOfProfile(p, fs)) == if Rereads(p) then Some(p) else None
  {
    hide Parse, Show, FilesOk, TableFrom, EventCount, Summarizes, SmallTable, SmallFiles, Small;
    ListedFiles(fs, EventCount(p.events));
    ParseShow(p.desc, p.cmd, p.events, fs, p.summary);
  }

  lemma ParseJoined(a: seq<seq<string>>, b: seq<seq<string>>)
    ensures ParseAll(a + b) == ParseAll(a) + ParseAll(b)
  {
    hide Parse, AllOk;
  }

  lemma OneFileRead(file: seq<string>)
    ensures MergeAll(ParseAll([file])) == if Parse(file).Some? then Merged(Parse(file).value) else Refused
  {
    hide Parse, MergeAll;
    OneFile(ParseAll([file]));
  }

  /** Beginnings that come to the same may be continued the same way. */
  lemma {:induction false} SameContinued(a: seq<seq<string>>, c: seq<seq<string>>, b: seq<seq<string>>)
    requires MergeAll(ParseAll(a)) == MergeAll(ParseAll(c))
    ensures MergeAll(ParseAll(a + b)) == MergeAll(ParseAll(c + b))
    decreases |b|
  {
    hide Parse, ParseAll, MergeAll, MergeOne;
    if b == [] {
      assert a + b == a && c + b == c;
    } else {
      var m := |b| - 1;
      SameContinued(a, c, b[..m]);
      assert (a + b)[..|a| + m] == a + b[..m] && (c + b)[..|c| + m] == c + b[..m];
      assert (a + b)[..|a| + m + 1] == a + b && (c + b)[..|c| + m + 1] == c + b;
      ParseNext(a + b, |a| + m);
      ParseNext(c + b, |c| + m);
    }
  }

  /** Merging in stages: the files a are merged and the result is printed, and then merged with the
      files b.  That comes to the same as merging all at once exactly if the intermediate profile
      reads back, or merging all at once is refused too; if it does not read back, the second stage
      is refused. */
  lemma InStages(a: seq<seq<string>>, b: seq<seq<string>>, fs: seq<FileEntry>)
    requires MergeAll(ParseAll(a)).Merged?
    requires var p := MergeAll(ParseAll(a)).p; FilesOk(fs, EventCount(p.events)) && TableFrom(fs) == p.table
    ensures var p := MergeAll(ParseAll(a)).p;
            var staged, atOnce := MergeAll(ParseAll([TextOfProfile(p, fs)] + b)), MergeAll(ParseAll(a + b));
            && Parse(TextOfProfile(p, fs)) == (if Rereads(p) then Some(p) else None)
            && staged == (if Rereads(p) then atOnce else Refused)
            && (staged == atOnce <==> Rereads(p) || atOnce.Refused?)
  {
    hide Parse, ParseAll, MergeAll, TextOfProfile, FilesOk, TableFrom, Rereads, EventCount;
    var p := MergeAll(ParseAll(a)).p;
    var text := TextOfProfile(p, fs);
    MergedPrintable(a);
    Reread(p, fs);
    OneFileRead(text);
    if Rereads(p) {
      SameContinued(a, [text], b);
    } else {
      assert ([text] + b)[..1] == [text];
      RefusedForGood([text] + b, 1);
    }
  }

  /** A profile of one count, on line 1 of an unnamed function. */
  function OneCount(c: ULong): Parsed {
    Parsed(["desc: I1"], "cmd: a", "events: Ir", map[FileFn("f", "g") := map[1 := [c]]], [c])
  }

  function OneListed(c: ULong): seq<FileEntry> {
    [FileEntry(FileFn("f", "g"), [(1, [c])])]
  }

  lemma OneEvent()
    ensures EventCount("events: Ir") == 1
  {
    var l := "events: Ir";
    assert l[6] == ':' && l[7] == ' ' && l[8] == 'I' && l[9] == 'r' && |l| == 10;
    assert CountNames(l, 9) == 0;
    assert CountNames(l, 8) == 0;
    assert CountNames(l, 7) == 1;
  }

  lemma OneCountPrintable(c: ULong)
    ensures EventCount(OneCount(c).events) == 1 && Printable(OneCount(c))
    ensures FilesOk(OneListed(c), 1) && TableFrom(OneListed(c)) == OneCount(c).table
    ensures Rereads(OneCount(c)) <==> c < TWO63
  {
    hide CountNames;
    OneEvent();
    var p := OneCount(c);
    var k := FileFn("f", "g");
    var ls: seq<(UWord, Vec)> := [(1, [c])];
    assert ls[..0] == [] && LinesFrom(ls) == map[1 := [c]];
    assert OneListed(c)[..0] == [];
    assert Summarizes(p.summary, p.table) by {
      EmptySummary(1);
      AddCountsSummary([0], map[], k, 1, [c], 1);
      assert AddVec([0], [c]) == [c];
      assert AddCounts(map[], k, 1, [c], 1) == p.table;
    }
    assert p.table[k][1] == [c] && p.summary[0] == c;
  }

  /** Counts of 2^63 - 1 and 1 in two files: merged with a third at once they make a profile, but
      merged in stages they do not, as the sum of the first two is printed with a sign. */
  lemma StagedOverflow() returns (f: seq<string>, g: seq<string>, fs: seq<FileEntry>)
    ensures var p := MergeAll(ParseAll([f, g]));
            && p.Merged? && FilesOk(fs, EventCount(p.p.events)) && TableFrom(fs) == p.p.table
            && MergeAll(ParseAll([f, g] + [g])).Merged?
            && MergeAll(ParseAll([TextOfProfile(p.p, fs)] + [g])) == Refused
  {
    hide Parse, ParseAll, MergeAll, TextOfProfile, Printable, FilesOk, TableFrom, Rereads, Summarizes, EventCount,
         OneCount;
    f := TextOfProfile(OneCount(TWO63 - 1), OneListed(TWO63 - 1));
    g := TextOfProfile(OneCount(1), OneListed(1));
    fs := OneListed(TWO63);
    OneCountPrintable(TWO63 - 1);
    OneCountPrintable(1);
    OneCountPrintable(TWO63);
    Reread(OneCount(TWO63 - 1), OneListed(TWO63 - 1));
    Reread(OneCount(1), OneListed(1));
    OneFileRead(f);
    assert [f, g][..1] == [f] && [f, g][..2] == [f, g];
    ParseNext([f, g], 1);
    CountsAdd(TWO63 - 1, 1);
    assert ([f, g] + [g])[..2] == [f, g] && ([f, g] + [g])[..3] == [f, g] + [g];
    ParseNext([f, g] + [g], 2);
    CountsAdd(TWO63, 1);
    InStages([f, g], [g], fs);
  }

  lemma CountsAdd(c: ULong, d: ULong)
    requires c + d < TWO64
    ensures ParsedOk(OneCount(c)) && ParsedOk(OneCount(d))
    ensures MergeOne(Merged(OneCount(c)), Some(OneCount(d))) == Merged(OneCount(c + d))
  {
    hide EventCount, Summarizes;
    OneCountPrintable(c);
    OneCountPrintable(d);
    var k := FileFn("f", "g");
    assert AddVec([c], [d]) == [c + d];
    assert MergeTables(OneCount(c).table, OneCount(d).table, 1) == OneCount(c + d).table by {
      assert MergeLines(map[1 := [c]], map[1 := [d]], 1) == map[1 := [c + d]];
    }
  }

  // ---------------------------------------------------------------- the program

  lemma ValidIsOk(cpf: CacheProfFile)
    requires cpf.Valid()
    ensures ParsedOk(ValueOf(cpf)) && |ValueOf(cpf).summary| == cpf.n_events
  {
    hide InnerRepr, LinesOf, Summarizes, TableOk;
    OneInner(cpf.outerMap.Map(), FileFn("", ""), cpf.n_events);
  }

  /** Merge a profile with few entries into another. */
  method MergeInto(cpf: CacheProfFile, cpfTmp: CacheProfFile) returns (ok: bool)
    requires cpf.Valid() && cpfTmp.Valid() && cpf.Repr() !! cpfTmp.Repr() && FewEntries(cpfTmp.Table(), 9227463)
    modifies cpf.Repr(), cpfTmp.Repr()
    ensures ParsedOk(old(ValueOf(cpf))) && ParsedOk(old(ValueOf(cpfTmp)))
    ensures var r := MergeOne(Merged(old(ValueOf(cpf))), Some(old(ValueOf(cpfTmp))));
            (ok <==> r.Merged?) && (ok ==> cpf.Valid() && ValueOf(cpf) == r.p)
    ensures forall o :: o in cpf.Repr() ==> o in old(cpf.Repr()) || fresh(o)
  {
    hide FewEntries, ParsedOk, MergeOne, CacheProfFile.Valid, CacheProfFile.Table, CacheProfFile.Repr, Shallow,
         LeftDepth,
         OuterRepr, Inners, InnerNodes, InnerArrays, Nodes, MergeTables, AddVec;
    ValidIsOk(cpf);
    ValidIsOk(cpfTmp);
    SmallFits(cpfTmp);
    ReadsWithin(cpfTmp);
    ok := MergeCacheProfInfo(cpf, cpfTmp);
    MergedOne(old(ValueOf(cpf)), old(ValueOf(cpfTmp)));
  }

  /** Parse a file and merge it into the profile. */
  method MergeNext(cpf: CacheProfFile, file: seq<string>) returns (ok: bool)
    requires cpf.Valid() && |file| < 9227464
    modifies cpf.Repr()
    ensures ParsedOk(old(ValueOf(cpf))) && (Parse(file).Some? ==> ParsedOk(Parse(file).value))
    ensures var r := MergeOne(Merged(old(ValueOf(cpf))), Parse(file));
            (ok <==> r.Merged?) && (ok ==> cpf.Valid() && ValueOf(cpf) == r.p)
    ensures forall o :: o in cpf.Repr() ==> o in old(cpf.Repr()) || fresh(o)
  {
    hide Parse, FewEntries, ParsedOk, MergeOne, CacheProfFile.Valid, CacheProfFile.Table, CacheProfFile.Repr, OuterRepr,
         Inners, InnerNodes, InnerArrays, Nodes;
    ValidIsOk(cpf);
    if Parse(file).Some? { ParsedIsOk(file); }
    ReadsWithin(cpf);
    assert allocated(cpf.Repr());
    var cpfTmp := ParseCacheProfFile(file);
    if cpfTmp == null {
      NothingMerged(old(ValueOf(cpf)));
      return false;
    }
    ParsedSmall(file);
    SmallGrows(cpfTmp.Table(), |file|, 9227463);
    ok := MergeInto(cpf, cpfTmp);
  }

  lemma NothingMerged(q: Parsed)
    requires ParsedOk(q)
    ensures MergeOne(Merged(q), None) == Refused
  {
  }

  /** All that a profile's state depends on. */
  lemma ReadsWithin(cpf: CacheProfFile)
    ensures var m := cpf.outerMap;
            && m in cpf.Repr() && Nodes(m.tree) <= cpf.Repr() && Inners(m.Map()) <= cpf.Repr()
            && InnerNodes(m.Map()) <= cpf.Repr() && InnerArrays(m.Map()) <= cpf.Repr()
            && OuterRepr(m) <= cpf.Repr() && cpf.summary.counts in cpf.Repr()
  {
    hide OuterRepr;
    OuterWithin(cpf.outerMap);
  }

  lemma MergedOne(q: Parsed, p: Parsed)
    requires ParsedOk(q) && ParsedOk(p)
    ensures var r := MergeOne(Merged(q), Some(p));
            && (r.Merged? <==> p.events == q.events)
            && (r.Merged? ==> && |q.summary| == |p.summary| && TableOk(q.table, |q.summary|)
                              && TableOk(p.table, |q.summary|)
                              && r.p == q.(table := MergeTables(q.table, p.table, |q.summary|),
                                summary := AddVec(q.summary, p.summary)))
  {
    hide MergeTables, AddVec, TableOk, EventCount, Summarizes;
  }

  /** Parse the files one after the other and merge each into the first. */
  method MergeFiles(files: seq<seq<string>>) returns (ok: bool, cpf: CacheProfFile?)
    requires forall i :: 0 <= i < |files| ==> |files[i]| < 9227464
    ensures match MergeAll(ParseAll(files))
            case Refused => !ok
            case NoFile => ok && cpf == null
            case Merged(p) => ok && cpf != null && cpf.Valid() && fresh(cpf.Repr()) && ValueOf(cpf) == p
  {
    hide Parse, OuterRepr, OuterOk, TableOf, Summarizes, MergeTables, AddVec, TableOk, Shallow, LeftDepth, ParsedOk;
    ok, cpf := true, null;
    var i := 0;
    assert files[..0] == [];
    while i < |files|
      invariant i <= |files| && ok
      invariant match MergeAll(ParseAll(files[..i]))
                case Refused => false
                case NoFile => cpf == null
                case Merged(p) => cpf != null && cpf.Valid() && fresh(cpf.Repr()) && ValueOf(cpf) == p
    {
      ParseNext(files, i);
      if cpf == null {
        cpf := ParseCacheProfFile(files[i]);
        ok := cpf != null;
      } else {
        ok := MergeNext(cpf, files[i]);
      }
      i := i + 1;
      if !ok {
        RefusedForGood(files, i);
        return false, null;
      }
    }
    assert files[..|files|] == files;
  }
}
