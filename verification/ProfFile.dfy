/** Reading and writing profiles: the parser and the printer, as loops over lines and
    over the maps' iterators, proved against the text form. */
module ProfFile {
  import opened AvlTree
  import opened AvlNodes
  import opened AvlMap
  import opened AvlIter
  import opened WordFMs
  import opened Profile
  import opened CacheProf
  import opened ProfText

  // ---------------------------------------------------------------- parsing

  method PassSpaces(s: string, pos: nat) returns (ptr: nat)
    requires pos <= |s|
    ensures pos <= ptr <= |s| && s[ptr..] == SkipSpaces(s[pos..])
  {
    ptr := pos;
    while ptr < |s| && IsSpace(s[ptr])
      invariant pos <= ptr <= |s| && SkipSpaces(s[ptr..]) == SkipSpaces(s[pos..])
    {
      assert s[ptr..][1..] == s[ptr + 1..];
      ptr := ptr + 1;
    }
  }

  method PassDigits(s: string, start: nat) returns (res: ULong, ptr: nat)
    requires start < |s| && IsDigit(s[start])
    ensures start < ptr <= |s| && Digits(s[start..], 0) == (res, s[ptr..])
  {
    res, ptr := 0, start;
    while ptr < |s| && IsDigit(s[ptr])
      invariant start <= ptr <= |s| && Digits(s[ptr..], res) == Digits(s[start..], 0)
      invariant ptr == start ==> ptr < |s| && IsDigit(s[ptr])
    {
      assert s[ptr..][1..] == s[ptr + 1..];
      res := (res * 10 + DigitValue(s[ptr])) % TWO64;
      ptr := ptr + 1;
    }
  }

  /** Read one number at position pos; on failure the position is past the spaces. */
  method ParseULong(s: string, pos: nat) returns (ok: bool, res: ULong, ptr: nat)
    requires pos <= |s|
    ensures pos <= ptr <= |s| && (ok ==> pos < ptr)
    ensures var t := SkipSpaces(s[pos..]);
            if t == "" || !IsDigit(t[0]) then !ok && s[ptr..] == t
            else ok && Digits(t, 0) == (res, s[ptr..])
  {
    hide SkipSpaces, Digits;
    res := 0;
    ptr := PassSpaces(s, pos);
    if ptr == |s| || !IsDigit(s[ptr]) {
      return false, res, ptr;
    }
    res, ptr := PassDigits(s, ptr);
    ok := true;
  }

  lemma NumbersStep(s: string)
    ensures var t := SkipSpaces(s);
            Numbers(s) == if t == "" || !IsDigit(t[0]) then ([], t)
              else ([Digits(t, 0).0] + Numbers(Digits(t, 0).1).0, Numbers(Digits(t, 0).1).1)
  {
  }

  /** All numbers of a line; refused on garbage, or with too few numbers. */
  method SplitUpCountsLine(str: string, wantLine: bool) returns (counts: Counts?, lnno: UWord)
    ensures counts != null ==> counts.Valid() && fresh(counts) && fresh(counts.counts)
    ensures wantLine ==> match ReadLine(str)
                         case None => counts == null
                         case Some((l, v)) => counts != null && lnno == l && counts.counts[..] == v
    ensures !wantLine ==> match ReadSummary(str)
                          case None => counts == null
                          case Some(v) => counts != null && counts.counts[..] == v
  {
    hide Numbers, Digits, SkipSpaces;
    var tmpC: seq<ULong> := [];
    var ptr, more := 0, true;
    lnno := 0;
    assert str[0..] == str && tmpC + Numbers(str).0 == Numbers(str).0;
    while more
      invariant ptr <= |str|
      invariant Numbers(str) == if more then (tmpC + Numbers(str[ptr..]).0, Numbers(str[ptr..]).1)
                else (tmpC, str[ptr..])
      decreases |str| - ptr, more
    {
      NumbersStep(str[ptr..]);
      var ok, n, next := ParseULong(str, ptr);
      ghost var now := Numbers(str[ptr..]);
      if ok {
        assert tmpC + now.0 == tmpC + [n] + Numbers(str[next..]).0;
        tmpC := tmpC + [n];
      } else {
        assert tmpC + now.0 == tmpC;
      }
      more, ptr := ok, next;
    }
    if ptr < |str| || |tmpC| < (if wantLine then 2 else 1) {
      return null, lnno;
    }
    if wantLine {
      lnno := tmpC[0];
      counts := new Counts(tmpC[1..]);
    } else {
      counts := new Counts(tmpC);
    }
  }

  // --------------------------------------------------------------- printing

  /** out is what was printed before and then the lines ls. */
  ghost predicate LinesPrinted(before: seq<string>, out: seq<string>, ls: seq<(UWord, Vec)>) {
    forall rest :: before + ShowLines(ls, rest) == out + rest
  }

  lemma LinePrinted(before: seq<string>, out: seq<string>, ls: seq<(UWord, Vec)>, l: UWord, v: Vec)
    requires LinesPrinted(before, out, ls)
    ensures LinesPrinted(before, out + [ShowLine(l, v)], ls + [(l, v)])
  {
    hide ShowLine;
    var more := ls + [(l, v)];
    assert more[..|ls|] == ls;
    forall rest ensures before + ShowLines(more, rest) == out + [ShowLine(l, v)] + rest {
      assert out + [ShowLine(l, v)] + rest == out + ([ShowLine(l, v)] + rest);
    }
  }

  /** ls holds the first i lines of m, as many counts each. */
  ghost predicate ListsLines(m: InnerMap, ls: seq<(UWord, Vec)>, i: nat, n: nat)
    requires i <= |Contents(m.tree)|
    reads m`tree, ArraysOf(Prefix(m, i))
  {
    && |ls| == i && WellSized(ls, n) && LinesFrom(ls) == LinesIn(Prefix(m, i))
    && (forall j :: 0 <= j < i ==> ls[j].0 == Contents(m.tree)[j].key)
  }

  lemma ListedLine(m: InnerMap, ls: seq<(UWord, Vec)>, i: nat, n: nat)
    requires InnerOk(m, n) && i < |Contents(m.tree)| && ListsLines(m, ls, i, n)
    ensures var e := Contents(m.tree)[i];
            e.val.Valid() && e.val.n_counts == n && ListsLines(m, ls + [(e.key, e.val.counts[..])], i + 1, n)
  {
    hide MapOf, Ascending, TotalOrder;
    var e := Contents(m.tree)[i];
    var more := ls + [(e.key, e.val.counts[..])];
    NextEntry(Contents(m.tree), i, m.kCmp);
    KnownLine(m.Map(), e.key, n);
    assert more[..i] == ls;
    assert LinesIn(Prefix(m, i + 1)) == LinesIn(Prefix(m, i))[e.key := e.val.counts[..]];
  }

  ghost predicate AscendingLines(ls: seq<(UWord, Vec)>) {
    forall i, j :: 0 <= i < j < |ls| ==> ls[i].0 < ls[j].0
  }

  lemma LinesAscend(m: InnerMap, ls: seq<(UWord, Vec)>)
    requires m.Valid() && m.kCmp == CompareUWord && |ls| == |Contents(m.tree)|
    requires forall j :: 0 <= j < |ls| ==> ls[j].0 == Contents(m.tree)[j].key
    ensures AscendingLines(ls)
  {
    var s := Contents(m.tree);
    UWordOrder();
    assert forall i, j :: 0 <= i < j < |s| ==> CompareUWord(s[i].key, s[j].key) < 0;
  }

  lemma AllListed(m: InnerMap, ls: seq<(UWord, Vec)>, n: nat)
    requires InnerOk(m, n) && ListsLines(m, ls, |Contents(m.tree)|, n)
    ensures LinesFrom(ls) == LinesOf(m) && DistinctLines(ls) && WellSized(ls, n) && AscendingLines(ls)
  {
    hide DistinctLines, AscendingLines, WellSized;
    var s := Contents(m.tree);
    assert s[..|s|] == s;
    LinesAscend(m, ls);
    AscendingDistinct(ls);
  }

  lemma AscendingDistinct(ls: seq<(UWord, Vec)>)
    requires AscendingLines(ls)
    ensures DistinctLines(ls)
  {
  }

  lemma NoneListed(m: InnerMap, n: nat)
    ensures ListsLines(m, [], 0, n)
  {
    assert LinesIn(Prefix(m, 0)) == map[];
  }

  /** A traversal that has listed the first i lines. */
  ghost predicate Listing(m: InnerMap, ls: seq<(UWord, Vec)>, i: nat, n: nat)
    reads m, Nodes(m.tree), m.nodeStack, m.numStack, Arrays(m)
  {
    && InnerOk(m, n) && m.Iterating() && i <= |Contents(m.tree)| && m.Remaining() == Contents(m.tree)[i..]
    && ArraysOf(Prefix(m, i)) <= Arrays(m) && ListsLines(m, ls, i, n)
  }

  method ShowNextLine(m: InnerMap, n: nat, out: seq<string>, ghost ls: seq<(UWord, Vec)>, ghost i: nat)
    returns (more: bool, now: seq<string>, ghost listed: seq<(UWord, Vec)>)
    requires Listing(m, ls, i, n)
    modifies m`stackTop, m`stack, m.nodeStack, m.numStack
    ensures Listing(m, listed, if more then i + 1 else i, n) && m.tree == old(m.tree) && LinesOf(m) == old(LinesOf(m))
    ensures !more ==> i == |Contents(m.tree)| && m.stackTop == 0 && now == out && listed == ls
    ensures forall before :: LinesPrinted(before, out, ls) ==> LinesPrinted(before, now, listed)
  {
    hide Avl, IsTree, Bindings, LinesIn, ArraysOf, OwnVectors, MapOf, LinesOf, Prefix, LinesPrinted, ShowLine,
         ListsLines;
    assert allocated(Nodes(m.tree)) && allocated(Arrays(m));
    var kv := m.NextIterFM();
    assert ListsLines(m, ls, i, n);
    if kv == Absent {
      return false, out, ls;
    }
    ListedLine(m, ls, i, n);
    PrefixOk(m, i + 1, n);
    now := out + [ShowLine(kv.w.0, kv.w.1.counts[..])];
    listed := ls + [(kv.w.0, kv.w.1.counts[..])];
    forall before | LinesPrinted(before, out, ls) ensures LinesPrinted(before, now, listed) {
      LinePrinted(before, out, ls, kv.w.0, kv.w.1.counts[..]);
    }
    more := true;
  }

  /** Print the lines of one file in ascending order. */
  method ShowInner(m: InnerMap, n: nat, before: seq<string>) returns (out: seq<string>, ghost ls: seq<(UWord, Vec)>)
    requires InnerOk(m, n) && LeftDepth(m.tree) <= WFM_STKMAX
    modifies m`stackTop, m`stack, m.nodeStack, m.numStack
    ensures InnerOk(m, n) && m.stackTop == 0 && m.tree == old(m.tree) && LinesOf(m) == old(LinesOf(m))
    ensures LinesFrom(ls) == LinesOf(m) && DistinctLines(ls) && WellSized(ls, n) && LinesPrinted(before, out, ls)
    ensures AscendingLines(ls)
  {
    hide LinesOf, InnerOk, WordFM.Iterating, LinesPrinted, Prefix, ListsLines, Contents;
    assert allocated(Nodes(m.tree)) && allocated(Arrays(m));
    out, ls := StartInner(m, n, before);
    ghost var i := 0;
    var more := true;
    while more
      invariant i <= |Contents(m.tree)| && Listing(m, ls, i, n)
      invariant !more ==> i == |Contents(m.tree)| && m.stackTop == 0
      invariant m.tree == old(m.tree) && LinesOf(m) == old(LinesOf(m)) && LinesPrinted(before, out, ls)
      decreases |Contents(m.tree)| - i, more
    {
      more, out, ls := ShowNextLine(m, n, out, ls, i);
      if more { i := i + 1; }
    }
    AllListed(m, ls, n);
  }

  method StartInner(m: InnerMap, n: nat, before: seq<string>) returns (out: seq<string>, ghost ls: seq<(UWord, Vec)>)
    requires InnerOk(m, n) && LeftDepth(m.tree) <= WFM_STKMAX
    modifies m`stackTop, m`stack, m.nodeStack, m.numStack
    ensures Listing(m, ls, 0, n) && m.tree == old(m.tree) && LinesOf(m) == old(LinesOf(m))
    ensures out == before && LinesPrinted(before, out, ls)
  {
    hide Avl, IsTree, Bindings, LinesIn, ArraysOf, OwnVectors, MapOf, LinesOf, Prefix, ListsLines;
    assert allocated(Nodes(m.tree)) && allocated(Arrays(m));
    m.InitIterFM();
    NoneListed(m, n);
    PrefixOk(m, 0, n);
    out, ls := before, [];
  }

  /** out is what was printed before and then the files fs. */
  ghost predicate FilesPrinted(before: seq<string>, out: seq<string>, fs: seq<FileEntry>) {
    forall rest :: before + ShowFiles(fs, rest) == out + rest
  }

  lemma FilePrinted(before: seq<string>, out: seq<string>, fs: seq<FileEntry>, f: FileEntry, now: seq<string>)
    requires FilesPrinted(before, out, fs)
    requires LinesPrinted(out + ["fl=" + f.k.fi, "fn=" + f.k.fn], now, f.lines)
    ensures FilesPrinted(before, now, fs + [f])
  {
    var more := fs + [f];
    var names := ["fl=" + f.k.fi, "fn=" + f.k.fn];
    assert more[..|fs|] == fs;
    forall rest ensures before + ShowFiles(more, rest) == now + rest {
      assert out + (names + ShowLines(f.lines, rest)) == (out + names) + ShowLines(f.lines, rest);
    }
  }

  /** f lists the lines the table has for its key. */
  ghost predicate ListsFile(f: FileEntry, t: Table, n: nat) {
    && f.k in t && LinesFrom(f.lines) == t[f.k] && DistinctLines(f.lines) && WellSized(f.lines, n)
    && AscendingLines(f.lines)
  }

  /** Print one of the line maps t; they keep what they hold. */
  method ShowFileApart(soKey: FileFn, soVal: InnerMap, n: nat, out: seq<string>, ghost t: map<FileFn, InnerMap>)
    returns (now: seq<string>, ghost f: FileEntry)
    requires OwnInners(t, n) && Idle(t)
    requires soKey in t && soVal == t[soKey] && LeftDepth(soVal.tree) <= WFM_STKMAX
    modifies soVal`stackTop, soVal`stack, soVal.nodeStack, soVal.numStack
    ensures OwnInners(t, n) && Idle(t) && TableIn(t) == old(TableIn(t)) && InnersRepr(t) == old(InnersRepr(t))
    ensures Shallow(t) == old(Shallow(t))
    ensures f.k == soKey && ListsFile(f, TableIn(t), n)
    ensures LinesPrinted(out + ["fl=" + soKey.fi, "fn=" + soKey.fn], now, f.lines)
  {
    hide Avl, IsTree, Bindings, LinesIn, ArraysOf, OwnVectors, LinesOf, OwnInners, InnersRepr, InnerSound,
         Contents, LeftDepth, Shallow, LinesPrinted, TableIn;
    OneInner(t, soKey, n);
    InnersWithin(t);
    assert allocated(t) && allocated(InnersRepr(t));
    ghost var ls;
    now, ls := ShowInner(soVal, n, out + ["fl=" + soKey.fi, "fn=" + soKey.fn]);
    OneInner(t, soKey, n);
    f := FileEntry(soKey, ls);
  }

  /** Print one file of m; m keeps what it holds. */
  method ShowFileOf(m: OuterMap, soKey: FileFn, soVal: InnerMap, n: nat, out: seq<string>)
    returns (now: seq<string>, ghost f: FileEntry)
    requires OuterOk(m, n) && soKey in m.Map() && soVal == m.Map()[soKey] && LeftDepth(soVal.tree) <= WFM_STKMAX
    modifies soVal`stackTop, soVal`stack, soVal.nodeStack, soVal.numStack
    ensures OuterOk(m, n) && unchanged(m) && TableOf(m) == old(TableOf(m)) && OuterRepr(m) == old(OuterRepr(m))
    ensures Shallow(m.Map()) == old(Shallow(m.Map())) && m.Iterating() == old(m.Iterating())
    ensures f.k == soKey && ListsFile(f, TableOf(m), n)
    ensures LinesPrinted(out + ["fl=" + soKey.fi, "fn=" + soKey.fn], now, f.lines)
  {
    hide Avl, IsTree, Bindings, LinesIn, ArraysOf, OwnVectors, LinesOf, OwnInners, TableIn, InnersRepr, InnerSound,
         Contents, LeftDepth, Idle, Shallow, LinesPrinted, ListsFile;
    ghost var t := m.Map();
    OneInner(t, soKey, n);
    InnersWithin(t);
    assert allocated(Nodes(m.tree)) && allocated(OuterRepr(m));
    now, f := ShowFileApart(soKey, soVal, n, out, t);
  }

  /** fs lists the first i files of m. */
  ghost predicate ListsFiles(m: OuterMap, fs: seq<FileEntry>, i: nat, n: nat)
    requires i <= |Contents(m.tree)|
    reads m`tree, Inners(m.Map())`tree, InnerArrays(m.Map())
  {
    && |fs| == i && (forall j :: 0 <= j < i ==> ListsFile(fs[j], TableOf(m), n))
    && (forall j :: 0 <= j < i ==> fs[j].k == Contents(m.tree)[j].key)
    && TableFrom(fs) == Only(TableOf(m), FilesBefore(m, i))
  }

  lemma ListedFile(m: OuterMap, fs: seq<FileEntry>, f: FileEntry, i: nat, n: nat)
    requires OuterOk(m, n) && i < |Contents(m.tree)| && ListsFiles(m, fs, i, n)
    requires f.k == Contents(m.tree)[i].key && ListsFile(f, TableOf(m), n)
    ensures ListsFiles(m, fs + [f], i + 1, n)
  {
    hide OwnInners, LinesOf, MapOf, Ascending, TotalOrder, LinesFrom;
    NextEntry(Contents(m.tree), i, m.kCmp);
    var more, t := fs + [f], TableOf(m);
    assert more[..i] == fs;
    assert Only(t, FilesBefore(m, i + 1)) == Only(t, FilesBefore(m, i))[f.k := t[f.k]];
  }

  /** Files by name, functions of a file by name, and the lines of each by number. */
  ghost predicate AscendingFiles(fs: seq<FileEntry>) {
    && (forall i, j :: 0 <= i < j < |fs| ==> NameBefore(fs[i].k, fs[j].k))
    && (forall i :: 0 <= i < |fs| ==> AscendingLines(fs[i].lines))
  }

  predicate NameBefore(a: FileFn, b: FileFn) {
    ComesBefore(a.fi, b.fi) || (a.fi == b.fi && ComesBefore(a.fn, b.fn))
  }

  lemma OrderedFiles(m: OuterMap, fs: seq<FileEntry>, n: nat)
    requires OuterOk(m, n) && ListsFiles(m, fs, |Contents(m.tree)|, n)
    ensures AscendingFiles(fs)
  {
    hide OwnInners, TableOf, AscendingLines, NameBefore, ListsFile, InnerSound, FilesBefore, Only;
    KeysAscend(m);
    forall i, j | 0 <= i < j < |fs|
      ensures NameBefore(fs[i].k, fs[j].k)
    {
      FilesInOrder(fs[i].k, fs[j].k);
    }
    forall i | 0 <= i < |fs|
      ensures AscendingLines(fs[i].lines)
    {
      assert ListsFile(fs[i], TableOf(m), n);
      ListedAscends(fs[i], TableOf(m), n);
    }
  }

  lemma KeysAscend(m: OuterMap)
    requires m.Valid() && m.kCmp == CompareFileFn
    ensures var s := Contents(m.tree); forall i, j :: 0 <= i < j < |s| ==> CompareFileFn(s[i].key, s[j].key) < 0
  {
  }

  lemma ListedAscends(f: FileEntry, t: Table, n: nat)
    requires ListsFile(f, t, n)
    ensures AscendingLines(f.lines)
  {
  }

  lemma FilesInOrder(a: FileFn, b: FileFn)
    ensures NameBefore(a, b) <==> CompareFileFn(a, b) < 0
  {
    FileFnOrderIs(a, b);
  }

  lemma DistinctFiles(m: OuterMap, fs: seq<FileEntry>)
    requires m.Valid() && |fs| == |Contents(m.tree)| && forall i :: 0 <= i < |fs| ==> fs[i].k == Contents(m.tree)[i].key
    ensures forall i, j :: 0 <= i < j < |fs| ==> fs[i].k != fs[j].k
  {
    var s := Contents(m.tree);
    assert forall i, j :: 0 <= i < j < |s| ==> m.kCmp(s[i].key, s[j].key) < 0;
  }

  lemma AllFilesListed(m: OuterMap, fs: seq<FileEntry>, n: nat)
    requires OuterOk(m, n) && ListsFiles(m, fs, |Contents(m.tree)|, n)
    ensures TableFrom(fs) == TableOf(m)
    ensures NoEmptyFile(TableOf(m)) ==> FilesOk(fs, n)
  {
    hide OwnInners, LinesOf, LinesFrom, DistinctLines, WellSized, WordFM.Valid;
    var s := Contents(m.tree);
    assert s[..|s|] == s;
    OnlyNoneOrAll(TableOf(m));
    assert FilesBefore(m, |s|) == TableOf(m).Keys;
    DistinctFiles(m, fs);
    forall i | 0 <= i < |fs| && NoEmptyFile(TableOf(m)) ensures fs[i].lines != [] {
      assert ListsFile(fs[i], TableOf(m), n);
      NoLinesNoMap(fs[i].lines);
    }
  }

  lemma NoLinesNoMap(ls: seq<(UWord, Vec)>)
    ensures ls == [] ==> LinesFrom(ls) == map[]
  {
  }

  lemma NoFileListed(m: OuterMap, n: nat)
    requires OuterOk(m, n)
    ensures ListsFiles(m, [], 0, n)
  {
    hide OwnInners, LinesOf;
    assert Contents(m.tree)[..0] == [];
    OnlyNoneOrAll(TableOf(m));
    assert FilesBefore(m, 0) == {};
  }

  /** A traversal of the file map that has listed the first i files. */
  ghost predicate ListingFiles(m: OuterMap, fs: seq<FileEntry>, i: nat, n: nat)
    reads m, Nodes(m.tree), Inners(m.Map()), InnerNodes(m.Map()), InnerArrays(m.Map())
  {
    OuterOk(m, n) && Shallow(m.Map()) && i <= |Contents(m.tree)| && ListsFiles(m, fs, i, n)
  }

  method NextFileToShow(m: OuterMap, n: nat, ghost fs: seq<FileEntry>, ghost i: nat)
    returns (kv: MaybeWord<(FileFn, InnerMap)>)
    requires ListingFiles(m, fs, i, n) && m.Iterating() && m.Remaining() == Contents(m.tree)[i..]
    modifies m`stackTop, m`stack, m.nodeStack, m.numStack
    ensures ListingFiles(m, fs, i, n) && m.Iterating()
    ensures m.tree == old(m.tree) && TableOf(m) == old(TableOf(m)) && OuterRepr(m) == old(OuterRepr(m))
    ensures if i == |Contents(m.tree)| then kv == Absent && m.stackTop == 0 && m.Remaining() == []
            else kv == Present((Contents(m.tree)[i].key, Contents(m.tree)[i].val))
                 && m.Remaining() == Contents(m.tree)[i + 1..]
  {
    hide Avl, IsTree, Bindings, OwnInners, TableIn, InnersRepr, Contents, Shallow, ListsFiles;
    InnersWithin(m.Map());
    assert allocated(OuterRepr(m));
    kv := m.NextIterFM();
  }

  method ShowNextFile(m: OuterMap, n: nat, before: seq<string>, out: seq<string>, ghost fs: seq<FileEntry>,
          ghost i: nat)
    returns (more: bool, now: seq<string>, ghost listed: seq<FileEntry>)
    requires ListingFiles(m, fs, i, n) && m.Iterating() && m.Remaining() == Contents(m.tree)[i..]
    requires FilesPrinted(before, out, fs)
    modifies OuterRepr(m)
    ensures more <==> i < |Contents(m.tree)|
    ensures ListingFiles(m, listed, if more then i + 1 else i, n) && m.Iterating()
    ensures m.Remaining() == Contents(m.tree)[if more then i + 1 else i..]
    ensures !more ==> m.stackTop == 0
    ensures m.tree == old(m.tree) && TableOf(m) == old(TableOf(m)) && OuterRepr(m) == old(OuterRepr(m))
    ensures FilesPrinted(before, now, listed)
  {
    hide Avl, IsTree, Bindings, OwnInners, TableIn, InnersRepr, Contents, Shallow, InnerSound, FilesPrinted,
         LinesPrinted;
    var kv := NextFileToShow(m, n, fs, i);
    if kv == Absent {
      return false, out, fs;
    }
    EntryInner(m, i, n);
    ShownFileFits(m, i, n);
    hide WordFM.Iterating, OuterOk, ListsFiles;
    ghost var f;
    now, f := ShowFileOf(m, kv.w.0, kv.w.1, n, out);
    FilePrinted(before, out, fs, f, now);
    assert ListsFiles(m, fs, i, n);
    ListedFile(m, fs, f, i, n);
    listed := fs + [f];
    more := true;
  }

  lemma ShownFileFits(m: OuterMap, i: nat, n: nat)
    requires OuterOk(m, n) && Shallow(m.Map()) && i < |Contents(m.tree)|
    ensures var e := Contents(m.tree)[i]; e.key in m.Map() && m.Map()[e.key] == e.val
                                          && LeftDepth(e.val.tree) <= WFM_STKMAX
  {
    NextEntry(Contents(m.tree), i, m.kCmp);
  }

  method StartFiles(m: OuterMap, n: nat)
    requires OuterOk(m, n) && LeftDepth(m.tree) <= WFM_STKMAX && Shallow(m.Map())
    modifies m`stackTop, m`stack, m.nodeStack, m.numStack
    ensures ListingFiles(m, [], 0, n) && m.Iterating() && m.Remaining() == Contents(m.tree)
    ensures m.tree == old(m.tree) && TableOf(m) == old(TableOf(m)) && OuterRepr(m) == old(OuterRepr(m))
  {
    hide Avl, IsTree, Bindings, OwnInners, TableIn, InnersRepr, Contents, Shallow, ListsFiles;
    InnersWithin(m.Map());
    assert allocated(OuterRepr(m));
    NoFileListed(m, n);
    m.InitIterFM();
    NoFileListed(m, n);
  }

  /** Print all files in ascending order of their names. */
  method ShowOuter(m: OuterMap, n: nat, before: seq<string>) returns (out: seq<string>, ghost fs: seq<FileEntry>)
    requires OuterOk(m, n) && LeftDepth(m.tree) <= WFM_STKMAX && Shallow(m.Map())
    modifies OuterRepr(m)
    ensures OuterOk(m, n) && m.stackTop == 0 && m.tree == old(m.tree) && TableOf(m) == old(TableOf(m))
    ensures OuterRepr(m) == old(OuterRepr(m))
    ensures TableFrom(fs) == TableOf(m) && FilesPrinted(before, out, fs) && AscendingFiles(fs)
    ensures NoEmptyFile(TableOf(m)) ==> FilesOk(fs, n)
  {
    hide OuterOk, TableOf, Contents, WordFM.Iterating, WordFM.Remaining, OuterRepr, Shallow, FilesPrinted,
         ListsFiles, NoEmptyFile, LeftDepth;
    OuterWithin(m);
    StartFiles(m, n);
    out, fs := before, [];
    NothingPrinted(before);
    ghost var i := 0;
    var more := true;
    while more
      invariant i <= |Contents(m.tree)| && ListingFiles(m, fs, i, n) && m.Iterating()
      invariant m.Remaining() == Contents(m.tree)[i..] && m.tree == old(m.tree)
      invariant !more ==> i == |Contents(m.tree)| && m.stackTop == 0
      invariant TableOf(m) == old(TableOf(m)) && OuterRepr(m) == old(OuterRepr(m)) && FilesPrinted(before, out, fs)
      decreases |Contents(m.tree)| - i, more
    {
      more, out, fs := ShowNextFile(m, n, before, out, fs, i);
      if more { i := i + 1; }
    }
    AllFilesListed(m, fs, n);
    OrderedFiles(m, fs, n);
  }

  lemma NothingPrinted(before: seq<string>)
    ensures FilesPrinted(before, before, [])
  {
  }

  /** Print a profile; the profile is not changed. */
  method ShowCacheProfFile(cpf: CacheProfFile) returns (out: seq<string>, ghost fs: seq<FileEntry>)
    requires cpf.Valid() && LeftDepth(cpf.outerMap.tree) <= WFM_STKMAX && Shallow(cpf.outerMap.Map())
    modifies OuterRepr(cpf.outerMap)
    ensures cpf.Valid() && cpf.Table() == old(cpf.Table()) && cpf.summary.counts[..] == old(cpf.summary.counts[..])
    ensures cpf.Repr() == old(cpf.Repr())
    ensures out == Show(cpf.desc_lines, cpf.cmd_line, cpf.events_line, fs, cpf.summary.counts[..])
    ensures TableFrom(fs) == cpf.Table() && (NoEmptyFile(cpf.Table()) ==> FilesOk(fs, cpf.n_events))
    ensures AscendingFiles(fs)
  {
    hide OuterOk, TableOf, OuterRepr, Shallow, FilesPrinted, NoEmptyFile, LeftDepth, Summarizes, FilesOk, TableFrom,
         ShowFiles, AscendingFiles;
    var m := cpf.outerMap;
    OuterWithin(m);
    assert allocated(OuterRepr(m));
    out, fs := ShowOuter(m, cpf.n_events, cpf.desc_lines + [cpf.cmd_line, cpf.events_line]);
    OuterWithin(m);
    out := out + [ShowSummary(cpf.summary.counts[..])];
    PrintedFiles(cpf.desc_lines + [cpf.cmd_line, cpf.events_line], out[..|out| - 1], fs,
      [ShowSummary(cpf.summary.counts[..])]);
  }

  lemma PrintedFiles(before: seq<string>, out: seq<string>, fs: seq<FileEntry>, rest: seq<string>)
    requires FilesPrinted(before, out, fs)
    ensures before + ShowFiles(fs, rest) == out + rest
  {
  }

  // ------------------------------------------------------------------ files

  /** What a parsed profile on the heap stands for. */
  ghost function ValueOf(cpf: CacheProfFile): Parsed
    reads cpf.outerMap`tree, Inners(cpf.outerMap.Map())`tree, InnerArrays(cpf.outerMap.Map()), cpf.summary.counts
  {
    Parsed(cpf.desc_lines, cpf.cmd_line, cpf.events_line, cpf.Table(), cpf.summary.counts[..])
  }

  /** Read a counts line into the profile. */
  method ReadCounts(cpf: CacheProfFile, fl: string, fn: string, line: string) returns (ok: bool)
    requires cpf.Valid()
    modifies cpf.Repr()
    ensures cpf.Valid() && StateOk(State(old(cpf.Table()), old(cpf.summary.counts[..]), fl, fn), cpf.n_events)
    ensures forall o :: o in cpf.Repr() ==> o in old(cpf.Repr()) || fresh(o)
    ensures match ReadLine(line)
            case None => !ok
            case Some((l, v)) =>
              (ok <==> |v| == cpf.n_events)
              && (ok ==> State(cpf.Table(), cpf.summary.counts[..], fl, fn)
                         == Count(State(old(cpf.Table()), old(cpf.summary.counts[..]), fl, fn), l, v, cpf.n_events))
  {
    hide OuterRepr, OuterOk, TableOf, ReadLine, AddVec, AddCounts, Summarizes;
    OuterWithin(cpf.outerMap);
    assert allocated(OuterRepr(cpf.outerMap));
    ProfileState(cpf, fl, fn);
    var newCounts, lnno := SplitUpCountsLine(line, true);
    if newCounts == null {
      return false;
    }
    ok := HandleCounts(cpf, fl, fn, lnno, newCounts);
  }

  lemma ProfileState(cpf: CacheProfFile, fl: string, fn: string)
    requires cpf.Valid()
    ensures StateOk(State(cpf.Table(), cpf.summary.counts[..], fl, fn), cpf.n_events)
    ensures cpf.n_events == EventCount(cpf.events_line)
  {
    hide OuterOk, Summarizes;
    TableIsOk(cpf.outerMap, cpf.n_events);
  }

  ghost function StateOf(cpf: CacheProfFile, fl: string, fn: string): State
    reads cpf.outerMap`tree, Inners(cpf.outerMap.Map())`tree, InnerArrays(cpf.outerMap.Map()), cpf.summary.counts
  {
    State(cpf.Table(), cpf.summary.counts[..], fl, fn)
  }

  lemma BodyStep(ls: seq<string>, i: nat, st: State, n: nat)
    requires StateOk(st, n) && i < |ls|
    ensures StateOk(st.(fn := if 3 <= |ls[i]| then ls[i][3..] else ""), n)
            && StateOk(st.(fl := if 3 <= |ls[i]| then ls[i][3..] else ""), n)
    ensures Body(ls[i..], st, n) ==
            if ls[i] != "" && IsDigit(ls[i][0]) then
              var c := ReadLine(ls[i]);
              if c.None? || |c.value.1| != n then None else Body(ls[i + 1..], Count(st, c.value.0, c.value.1, n), n)
            else if "fn=" <= ls[i] then Body(ls[i + 1..], st.(fn := ls[i][3..]), n)
            else if "fl=" <= ls[i] then Body(ls[i + 1..], st.(fl := ls[i][3..]), n)
            else if "summary: " <= ls[i] then Some((st, ls[i..]))
            else None
  {
    hide StateOk, Count, ReadLine;
    NamedOk(st, if 3 <= |ls[i]| then ls[i][3..] else "", st.fn, n);
    NamedOk(st, st.fl, if 3 <= |ls[i]| then ls[i][3..] else "", n);
    assert ls[i..][1..] == ls[i + 1..];
  }

  /** The main data: counts lines under the current names, up to the summary line. */
  method ReadBody(cpf: CacheProfFile, lines: seq<string>, start: nat) returns (ok: bool, end: nat)
    requires cpf.Valid() && start <= |lines|
    modifies cpf.Repr()
    ensures cpf.Valid() && StateOk(old(StateOf(cpf, "???", "???")), cpf.n_events)
    ensures forall o :: o in cpf.Repr() ==> o in old(cpf.Repr()) || fresh(o)
    ensures var b := Body(lines[start..], old(StateOf(cpf, "???", "???")), cpf.n_events);
            if ok then end < |lines| && b.Some? && b.value.1 == lines[end..]
                       && b.value.0.table == cpf.Table() && b.value.0.summary == cpf.summary.counts[..]
            else b.None?
  {
    hide StateOk, CacheProfFile.Valid, CacheProfFile.Table, CacheProfFile.Repr, Count, ReadLine, Body;
    var curr_fl, curr_fn := "???", "???";
    ghost var n := cpf.n_events;
    ghost var whole := old(StateOf(cpf, "???", "???"));
    ProfileState(cpf, curr_fl, curr_fn);
    end := start;
    while end < |lines|
      invariant start <= end <= |lines| && cpf.Valid() && StateOk(whole, n)
                && StateOk(StateOf(cpf, curr_fl, curr_fn), n)
      invariant forall o :: o in cpf.Repr() ==> o in old(cpf.Repr()) || fresh(o)
      invariant Body(lines[end..], StateOf(cpf, curr_fl, curr_fn), n) == Body(lines[start..], whole, n)
    {
      var line := lines[end];
      BodyStep(lines, end, StateOf(cpf, curr_fl, curr_fn), n);
      if line != "" && IsDigit(line[0]) {
        var good := ReadCounts(cpf, curr_fl, curr_fn, line);
        ProfileState(cpf, curr_fl, curr_fn);
        if !good { return false, end; }
      } else if "fn=" <= line {
        curr_fn := line[3..];
      } else if "fl=" <= line {
        curr_fl := line[3..];
      } else if "summary: " <= line {
        return true, end;
      } else {
        return false, end;
      }
      end := end + 1;
    }
    ok := false;
    assert Body([], whole, n).None? by { BodyOfNothing(whole, n); }
    BodyOfNothing(StateOf(cpf, curr_fl, curr_fn), n);
    assert lines[end..] == [];
  }

  lemma BodyOfNothing(st: State, n: nat)
    requires StateOk(st, n)
    ensures Body([], st, n).None?
  {
  }

  /** Does the stated summary agree with the running sums? */
  method CheckSummary(summary: Counts, line: string) returns (ok: bool)
    requires summary.Valid()
    ensures ok <==> ReadSummary(line) == Some(summary.counts[..])
  {
    hide ReadSummary;
    assert allocated(summary.counts);
    var summaryRead, _ := SplitUpCountsLine(line, false);
    if summaryRead == null || summaryRead.n_counts != summary.n_counts {
      return false;
    }
    for c := 0 to summaryRead.n_counts
      invariant summaryRead.counts[..c] == summary.counts[..c]
    {
      if summaryRead.counts[c] != summary.counts[c] {
        assert summaryRead.counts[..][c] != summary.counts[..][c];
        return false;
      }
    }
    assert summaryRead.counts[..] == summary.counts[..];
    ok := true;
  }

  /** The number of description lines at the start. */
  method CountDescLines(lines: seq<string>) returns (i: nat)
    ensures i == DescLines(lines)
  {
    i := 0;
    assert lines[0..] == lines;
    while i < |lines| && "desc: " <= lines[i]
      invariant i <= |lines| && DescLines(lines) == i + DescLines(lines[i..])
    {
      assert lines[i..][1..] == lines[i + 1..];
      i := i + 1;
    }
  }

  /** Parse a whole file; null where the parser stops with an error. */
  method ParseCacheProfFile(lines: seq<string>) returns (cpf: CacheProfFile?)
    ensures cpf == null <==> Parse(lines).None?
    ensures cpf != null ==> cpf.Valid() && fresh(cpf.Repr()) && Some(ValueOf(cpf)) == Parse(lines)
  {
    hide StateOk, OuterRepr, OuterOk, TableOf, Body, ReadSummary, Summarizes, DescLines;
    var i := CountDescLines(lines);
    if i == 0 || |lines| < i + 2 || !("cmd: " <= lines[i]) || !("events: " <= lines[i + 1]) {
      return null;
    }
    cpf := new CacheProfFile(lines[..i], lines[i], lines[i + 1]);
    ProfileState(cpf, "???", "???");
    var ok, end := ReadBody(cpf, lines, i + 2);
    if !ok || end + 1 < |lines| {
      return null;
    }
    OuterWithin(cpf.outerMap);
    assert allocated(OuterRepr(cpf.outerMap));
    ok := CheckSummary(cpf.summary, lines[end][8..]);
    if !ok {
      return null;
    }
  }
}
