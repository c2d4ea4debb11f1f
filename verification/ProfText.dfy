/** The text form of a profile: numbers, counts lines, and whole files, as printed and as parsed. */
module ProfText {
  import opened Profile

  datatype Option<T> = None | Some(value: T)

  // ---------------------------------------------------------------- numbers

  predicate IsSpace(c: char) {
    c == ' ' || '\t' <= c <= '\r'
  }

  predicate IsDigit(c: char) {
    '0' <= c <= '9'
  }

  function DigitOf(d: int): (c: char)
    requires 0 <= d < 10
    ensures IsDigit(c)
  {
    ('0' as int + d) as char
  }

  function DigitValue(c: char): int
    requires IsDigit(c)
  {
    c as int - '0' as int
  }

  /** Decimal digits, most significant first. */
  function Dec(n: nat): (s: string)
    ensures s != "" && IsDigit(s[0])
  {
    if n < 10 then [DigitOf(n)] else Dec(n / 10) + [DigitOf(n % 10)]
  }

  const TWO63: int := 0x8000_0000_0000_0000

  /** What %ld and %lld make of a 64-bit word. */
  function Shown(v: ULong): (s: string)
    ensures s != ""
  {
    if v < TWO63 then Dec(v) else "-" + Dec(TWO64 - v)
  }

  function SkipSpaces(s: string): (r: string)
    ensures |r| <= |s|
  {
    if s != "" && IsSpace(s[0]) then SkipSpaces(s[1..]) else s
  }

  /** The value of the digits at the start of s on top of acc, modulo 2^64, and what follows them. */
  function Digits(s: string, acc: ULong): (r: (ULong, string))
    ensures |r.1| <= |s|
    ensures s != "" && IsDigit(s[0]) ==> |r.1| < |s|
  {
    if s != "" && IsDigit(s[0]) then Digits(s[1..], (acc * 10 + DigitValue(s[0])) % TWO64) else (acc, s)
  }

  /** The numbers at the start of s, and what is left when no further number follows. */
  function Numbers(s: string): (r: (seq<ULong>, string))
    decreases |s|
  {
    var t := SkipSpaces(s);
    if t == "" || !IsDigit(t[0]) then ([], t)
    else
      var d := Digits(t, 0);
      var more := Numbers(d.1);
      ([d.0] + more.0, more.1)
  }

  lemma OneDigit(d: int, rest: string, acc: ULong)
    requires 0 <= d < 10
    ensures Digits([DigitOf(d)] + rest, acc) == Digits(rest, (acc * 10 + d) % TWO64)
  {
    assert ([DigitOf(d)] + rest)[1..] == rest;
  }

  lemma DecSplit(n: nat, rest: string)
    requires n >= 10
    ensures Dec(n) + rest == Dec(n / 10) + ([DigitOf(n % 10)] + rest)
  {
  }

  /** Digits that do not run into further digits read back as the number they show. */
  lemma {:induction false} DigitsOfDec(n: nat, rest: string)
    requires n < TWO64
    ensures Digits(Dec(n) + rest, 0) == Digits(rest, n)
  {
    hide Digits;
    if n < 10 {
      OneDigit(n, rest, 0);
    } else {
      hide Dec;
      DigitsOfDec(n / 10, [DigitOf(n % 10)] + rest);
      OneDigit(n % 10, rest, n / 10);
      DecSplit(n, rest);
    }
  }

  predicate NoDigitFirst(s: string) {
    s == "" || !IsDigit(s[0])
  }

  lemma NumbersOfDec(n: nat, rest: string)
    requires n < TWO64 && NoDigitFirst(rest)
    ensures Numbers(Dec(n) + rest) == ([n] + Numbers(rest).0, Numbers(rest).1)
  {
    DigitsOfDec(n, rest);
    assert (Dec(n) + rest)[0] == Dec(n)[0];
  }

  lemma NumbersAfterSpace(s: string)
    ensures Numbers(" " + s) == Numbers(s)
  {
    assert (" " + s)[1..] == s;
  }

  // ------------------------------------------------------------------ lines

  function ShowCounts(v: Vec): string {
    if v == [] then "" else Shown(v[0]) + " " + ShowCounts(v[1..])
  }

  function ShowLine(l: ULong, v: Vec): string {
    Shown(l) + "   " + ShowCounts(v)
  }

  function ShowSummaryTail(v: Vec): string {
    if v == [] then "" else " " + Shown(v[0]) + ShowSummaryTail(v[1..])
  }

  function ShowSummary(v: Vec): string {
    "summary:" + ShowSummaryTail(v)
  }

  predicate Small(v: Vec) {
    forall i :: 0 <= i < |v| ==> v[i] < TWO63
  }

  /** No number is read past a minus sign. */
  lemma NumbersOfMinus(v: ULong, rest: string)
    requires v >= TWO63
    ensures Numbers(Shown(v) + rest).1 != ""
  {
    assert (Shown(v) + rest)[0] == '-';
  }

  /** A count, and what reads back after it. */
  lemma NumbersOfShown(x: ULong, rest: string, v: Vec)
    requires NoDigitFirst(rest) && (Small(v) ==> Numbers(rest) == (v, "")) && (!Small(v) ==> Numbers(rest).1 != "")
    ensures Small([x] + v) ==> Numbers(Shown(x) + rest) == ([x] + v, "")
    ensures !Small([x] + v) ==> Numbers(Shown(x) + rest).1 != ""
  {
    hide Numbers, Dec;
    if x < TWO63 {
      NumbersOfDec(x, rest);
      assert Small([x] + v) <==> Small(v) by {
        if Small([x] + v) { assert forall i :: 0 <= i < |v| ==> v[i] == ([x] + v)[i + 1]; }
      }
    } else {
      NumbersOfMinus(x, rest);
      assert ([x] + v)[0] == x;
    }
  }

  /** A counts list reads back exactly when every count prints without a sign. */
  lemma {:induction false} NumbersOfCounts(v: Vec)
    ensures Small(v) ==> Numbers(ShowCounts(v)) == (v, "")
    ensures !Small(v) ==> Numbers(ShowCounts(v)).1 != ""
  {
    hide Shown, Small;
    if v != [] {
      NumbersOfCounts(v[1..]);
      NumbersAfterSpace(ShowCounts(v[1..]));
      assert ShowCounts(v) == Shown(v[0]) + (" " + ShowCounts(v[1..]));
      assert v == [v[0]] + v[1..];
      NumbersOfShown(v[0], " " + ShowCounts(v[1..]), v[1..]);
    } else {
      assert Small(v) by { EmptySmall(); }
    }
  }

  lemma EmptySmall()
    ensures Small([])
  {
  }

  lemma {:induction false} NumbersOfTail(v: Vec)
    ensures NoDigitFirst(ShowSummaryTail(v))
    ensures Small(v) ==> Numbers(ShowSummaryTail(v)) == (v, "")
    ensures !Small(v) ==> Numbers(ShowSummaryTail(v)).1 != ""
  {
    hide Shown, Small;
    if v != [] {
      NumbersOfTail(v[1..]);
      assert ShowSummaryTail(v) == " " + (Shown(v[0]) + ShowSummaryTail(v[1..]));
      NumbersAfterSpace(Shown(v[0]) + ShowSummaryTail(v[1..]));
      assert v == [v[0]] + v[1..];
      NumbersOfShown(v[0], ShowSummaryTail(v[1..]), v[1..]);
    } else {
      EmptySmall();
    }
  }

  /** A counts line: a line number, then at least one count, then nothing else. */
  function ReadLine(s: string): Option<(ULong, Vec)> {
    var (ns, rest) := Numbers(s);
    if rest != "" || |ns| < 2 then None else Some((ns[0], ns[1..]))
  }

  lemma ReadShownLine(l: ULong, v: Vec)
    ensures ReadLine(ShowLine(l, v)) == if l < TWO63 && Small(v) && |v| >= 1 then Some((l, v)) else None
    ensures ShowLine(l, v) != "" && (IsDigit(ShowLine(l, v)[0]) <==> l < TWO63)
    ensures l >= TWO63 ==> ShowLine(l, v)[0] == '-'
  {
    var c := ShowCounts(v);
    assert ShowLine(l, v) == Shown(l) + (" " + (" " + (" " + c)));
    NumbersAfterSpace(c);
    NumbersAfterSpace(" " + c);
    NumbersAfterSpace(" " + (" " + c));
    NumbersOfCounts(v);
    if l < TWO63 { NumbersOfDec(l, " " + (" " + (" " + c))); }
  }

  /** The summary line after "summary:": at least one count, then nothing else. */
  function ReadSummary(s: string): Option<Vec> {
    var (ns, rest) := Numbers(s);
    if rest != "" || |ns| < 1 then None else Some(ns)
  }

  // ---------------------------------------------------------------- parsing

  /** What the parser has so far: the map, the running sums, and the current names. */
  datatype State = State(table: Table, summary: Vec, fl: string, fn: string)

  ghost predicate StateOk(st: State, n: nat) {
    TableOk(st.table, n) && |st.summary| == n && Summarizes(st.summary, st.table)
  }

  /** Account for one counts line under the current names. */
  function Count(st: State, l: UWord, v: Vec, n: nat): (u: State)
    requires StateOk(st, n) && |v| == n
    ensures StateOk(u, n) && u.fl == st.fl && u.fn == st.fn
  {
    AddCountsSummary(st.summary, st.table, FileFn(st.fl, st.fn), l, v, n);
    State(AddCounts(st.table, FileFn(st.fl, st.fn), l, v, n), AddVec(st.summary, v), st.fl, st.fn)
  }

  /** The main data, up to and excluding the summary line. */
  function Body(ls: seq<string>, st: State, n: nat): (r: Option<(State, seq<string>)>)
    requires StateOk(st, n)
    ensures r.Some? ==> StateOk(r.value.0, n) && r.value.1 != [] && "summary: " <= r.value.1[0]
  {
    if ls == [] then None
    else if ls[0] != "" && IsDigit(ls[0][0]) then
      var c := ReadLine(ls[0]);
      if c.None? || |c.value.1| != n then None else Body(ls[1..], Count(st, c.value.0, c.value.1, n), n)
    else if "fn=" <= ls[0] then Body(ls[1..], st.(fn := ls[0][3..]), n)
    else if "fl=" <= ls[0] then Body(ls[1..], st.(fl := ls[0][3..]), n)
    else if "summary: " <= ls[0] then Some((st, ls))
    else None
  }

  /** The number of "desc: " lines at the start. */
  function DescLines(ls: seq<string>): (d: nat)
    ensures d <= |ls|
  {
    if ls != [] && "desc: " <= ls[0] then 1 + DescLines(ls[1..]) else 0
  }

  function Start(n: nat): (st: State)
    ensures StateOk(st, n)
  {
    EmptySummary(n);
    State(map[], seq(n, _ => 0), "???", "???")
  }

  lemma EmptySummary(n: nat)
    ensures Summarizes(seq(n, _ => 0), map[])
  {
    forall c | 0 <= c < n ensures Same(0, TableSum(map[], c)) { EmptySum(c); }
  }

  datatype Parsed = Parsed(desc: seq<string>, cmd: string, events: string, table: Table, summary: Vec)

  /** A whole file.  No value where the parser reports an error. */
  function Parse(ls: seq<string>): Option<Parsed> {
    var d := DescLines(ls);
    if d == 0 || |ls| < d + 2 || !("cmd: " <= ls[d]) || !("events: " <= ls[d + 1]) then None else
    var n := EventCount(ls[d + 1]);
    var b := Body(ls[d + 2..], Start(n), n);
    if b.None? || |b.value.1| != 1 then None else
    var (st, rest) := b.value;
    if ReadSummary(rest[0][8..]) != Some(st.summary) then None
    else Some(Parsed(ls[..d], ls[d], ls[d + 1], st.table, st.summary))
  }

  /** A file of description lines only, at least one, is refused here: in the code there is then no
      line left to compare with the command line's prefix, and it compares anyway. */
  lemma {:induction false} OnlyDescLines(ls: seq<string>)
    ensures DescLines(ls) == |ls| <==> forall i :: 0 <= i < |ls| ==> "desc: " <= ls[i]
    ensures DescLines(ls) == |ls| ==> Parse(ls) == None
  {
    if ls != [] && "desc: " <= ls[0] {
      OnlyDescLines(ls[1..]);
      assert forall i :: 0 < i < |ls| ==> ls[i] == ls[1..][i - 1];
      if DescLines(ls) != |ls| {
        var i :| 0 <= i < |ls| - 1 && !("desc: " <= ls[1..][i]);
        assert !("desc: " <= ls[i + 1]);
      }
    }
  }

  // --------------------------------------------------------------- printing

  /** One file's lines in printing order. */
  datatype FileEntry = FileEntry(k: FileFn, lines: seq<(UWord, Vec)>)

  function ShowLines(ls: seq<(UWord, Vec)>, rest: seq<string>): seq<string>
    decreases |ls|
  {
    if ls == [] then rest else
    var m := |ls| - 1;
    ShowLines(ls[..m], [ShowLine(ls[m].0, ls[m].1)] + rest)
  }

  function ShowFile(f: FileEntry, rest: seq<string>): seq<string> {
    ["fl=" + f.k.fi, "fn=" + f.k.fn] + ShowLines(f.lines, rest)
  }

  function ShowFiles(fs: seq<FileEntry>, rest: seq<string>): seq<string>
    decreases |fs|
  {
    if fs == [] then rest else
    var m := |fs| - 1;
    ShowFiles(fs[..m], ShowFile(fs[m], rest))
  }

  /** The lines of a printed profile. */
  function Show(desc: seq<string>, cmd: string, events: string, fs: seq<FileEntry>, summary: Vec): seq<string> {
    desc + [cmd, events] + ShowFiles(fs, [ShowSummary(summary)])
  }

  /** The line map a list of lines stands for. */
  function LinesFrom(ls: seq<(UWord, Vec)>): (t: Lines)
    decreases |ls|
  {
    if ls == [] then map[] else
    var m := |ls| - 1;
    LinesFrom(ls[..m])[ls[m].0 := ls[m].1]
  }

  /** The file map a list of files stands for. */
  function TableFrom(fs: seq<FileEntry>): (t: Table)
    decreases |fs|
  {
    if fs == [] then map[] else
    var m := |fs| - 1;
    TableFrom(fs[..m])[fs[m].k := LinesFrom(fs[m].lines)]
  }

  // ------------------------------------------------------------- round trip

  ghost predicate WellSized(ls: seq<(UWord, Vec)>, n: nat) {
    forall i :: 0 <= i < |ls| ==> |ls[i].1| == n
  }

  ghost predicate SmallLines(ls: seq<(UWord, Vec)>) {
    forall i :: 0 <= i < |ls| ==> ls[i].0 < TWO63 && Small(ls[i].1)
  }

  ghost predicate DistinctLines(ls: seq<(UWord, Vec)>) {
    forall i, j :: 0 <= i < j < |ls| ==> ls[i].0 != ls[j].0
  }

  /** A list of files as a profile's maps give it: no key twice, no file without a line. */
  ghost predicate FilesOk(fs: seq<FileEntry>, n: nat) {
    && (forall i :: 0 <= i < |fs| ==> fs[i].lines != [] && WellSized(fs[i].lines, n) && DistinctLines(fs[i].lines))
    && (forall i, j :: 0 <= i < j < |fs| ==> fs[i].k != fs[j].k)
  }

  ghost predicate SmallFiles(fs: seq<FileEntry>) {
    forall i :: 0 <= i < |fs| ==> SmallLines(fs[i].lines)
  }

  ghost function AfterLines(st: State, ls: seq<(UWord, Vec)>, n: nat): (u: State)
    requires StateOk(st, n) && WellSized(ls, n)
    ensures StateOk(u, n) && u.fl == st.fl && u.fn == st.fn
    decreases |ls|
  {
    if ls == [] then st else
    var m := |ls| - 1;
    Count(AfterLines(st, ls[..m], n), ls[m].0, ls[m].1, n)
  }

  /** Printed lines are read back as their numbers exactly when no number prints with a sign. */
  lemma {:induction false} BodyOfLines(ls: seq<(UWord, Vec)>, rest: seq<string>, st: State, n: nat)
    requires StateOk(st, n) && WellSized(ls, n)
    ensures Body(ShowLines(ls, rest), st, n)
            == if ls == [] || (n >= 1 && SmallLines(ls)) then Body(rest, AfterLines(st, ls, n), n) else None
    decreases |ls|
  {
    hide Count, StateOk, Small, ShowLine, ReadLine, AddCounts, Summarizes;
    if ls != [] {
      var m := |ls| - 1;
      var (l, v) := ls[m];
      var line, before := ShowLine(l, v), ls[..m];
      assert WellSized(before, n);
      BodyOfLines(before, [line] + rest, st, n);
      ReadShownLine(l, v);
      assert ([line] + rest)[1..] == rest;
      assert ls == before + [ls[m]];
      assert SmallLines(ls) <==> SmallLines(before) && l < TWO63 && Small(v);
    }
  }

  /** Reading distinct lines under a name that is new adds exactly their map under that name. */
  lemma {:induction false} AfterLinesTable(st: State, ls: seq<(UWord, Vec)>, n: nat)
    requires StateOk(st, n) && WellSized(ls, n) && DistinctLines(ls) && FileFn(st.fl, st.fn) !in st.table
    ensures forall l :: l in LinesFrom(ls) ==> exists i :: 0 <= i < |ls| && ls[i].0 == l
    ensures AfterLines(st, ls, n).table
            == if ls == [] then st.table else st.table[FileFn(st.fl, st.fn) := LinesFrom(ls)]
    decreases |ls|
  {
    hide StateOk, AddVec, Summarizes;
    if ls != [] {
      var m := |ls| - 1;
      var (l, v) := ls[m];
      var before := ls[..m];
      AfterLinesTable(st, before, n);
      assert l !in LinesFrom(before);
      assert forall j :: j in LinesFrom(before) ==> exists i :: 0 <= i < |ls| && ls[i].0 == j;
      assert ls[m].0 == l;
    }
  }

  /** The state once the two name lines of a file are read. */
  function Named(st: State, k: FileFn): State {
    st.(fl := k.fi, fn := k.fn)
  }

  lemma NamedOk(st: State, fl: string, fn: string, n: nat)
    requires StateOk(st, n)
    ensures StateOk(st.(fl := fl), n) && StateOk(st.(fl := fl, fn := fn), n)
  {
  }

  ghost function AfterFiles(fs: seq<FileEntry>, n: nat): (u: State)
    requires FilesOk(fs, n)
    ensures StateOk(u, n)
    decreases |fs|
  {
    if fs == [] then Start(n) else
    var m := |fs| - 1;
    var st := AfterFiles(fs[..m], n);
    AfterLines(Named(st, fs[m].k), fs[m].lines, n)
  }

  lemma {:induction false} AfterFilesTable(fs: seq<FileEntry>, n: nat)
    requires FilesOk(fs, n)
    ensures forall k :: k in TableFrom(fs) ==> exists i :: 0 <= i < |fs| && fs[i].k == k
    ensures AfterFiles(fs, n).table == TableFrom(fs)
    decreases |fs|
  {
    hide StateOk, AfterLines, LinesFrom, WellSized;
    if fs != [] {
      var m := |fs| - 1;
      var before := fs[..m];
      AfterFilesTable(before, n);
      assert fs[m].k !in TableFrom(before);
      assert forall j :: j in TableFrom(before) ==> exists i :: 0 <= i < |fs| && fs[i].k == j;
      assert fs[m].k == fs[m].k;
      NamedOk(AfterFiles(before, n), fs[m].k.fi, fs[m].k.fn, n);
      AfterLinesTable(Named(AfterFiles(before, n), fs[m].k), fs[m].lines, n);
    }
  }

  lemma BodyOfFl(fl: string, rest: seq<string>, st: State, n: nat)
    requires StateOk(st, n)
    ensures StateOk(st.(fl := fl), n) && Body(["fl=" + fl] + rest, st, n) == Body(rest, st.(fl := fl), n)
  {
    hide StateOk, Count, ReadLine;
    NamedOk(st, fl, st.fn, n);
    assert ("fl=" + fl)[3..] == fl && ("fl=" + fl)[1] == 'l';
    assert (["fl=" + fl] + rest)[1..] == rest;
  }

  lemma BodyOfFn(fn: string, rest: seq<string>, st: State, n: nat)
    requires StateOk(st, n)
    ensures StateOk(st.(fn := fn), n) && Body(["fn=" + fn] + rest, st, n) == Body(rest, st.(fn := fn), n)
  {
    hide StateOk, Count, ReadLine;
    NamedOk(st, st.fl, fn, n);
    assert ("fn=" + fn)[3..] == fn;
    assert (["fn=" + fn] + rest)[1..] == rest;
  }

  lemma BodyOfNames(k: FileFn, rest: seq<string>, st: State, n: nat)
    requires StateOk(st, n)
    ensures StateOk(Named(st, k), n)
    ensures Body(["fl=" + k.fi, "fn=" + k.fn] + rest, st, n) == Body(rest, Named(st, k), n)
  {
    hide StateOk, Body;
    BodyOfFl(k.fi, ["fn=" + k.fn] + rest, st, n);
    BodyOfFn(k.fn, rest, st.(fl := k.fi), n);
    assert ["fl=" + k.fi, "fn=" + k.fn] + rest == ["fl=" + k.fi] + (["fn=" + k.fn] + rest);
  }

  lemma {:induction false} BodyOfFiles(fs: seq<FileEntry>, rest: seq<string>, n: nat)
    requires FilesOk(fs, n)
    ensures Body(ShowFiles(fs, rest), Start(n), n)
            == if fs == [] || (n >= 1 && SmallFiles(fs)) then Body(rest, AfterFiles(fs, n), n) else None
    decreases |fs|
  {
    hide StateOk, AfterLines, Body, WellSized, DistinctLines, SmallLines, ShowLines, Start;
    if fs != [] {
      var m := |fs| - 1;
      var before := fs[..m];
      var st := AfterFiles(before, n);
      BodyOfFiles(before, ShowFile(fs[m], rest), n);
      BodyOfNames(fs[m].k, ShowLines(fs[m].lines, rest), st, n);
      BodyOfLines(fs[m].lines, rest, Named(st, fs[m].k), n);
      assert fs == before + [fs[m]];
      assert SmallFiles(fs) <==> SmallFiles(before) && SmallLines(fs[m].lines);
    }
  }

  lemma SummaryLine(s: Vec)
    ensures ShowSummary(s)[8..] == ShowSummaryTail(s) && ShowSummary(s)[0] == 's'
    ensures "summary: " <= ShowSummary(s) <==> s != []
  {
    var line := ShowSummary(s);
    assert line[8..] == ShowSummaryTail(s);
    if s != [] {
      assert line == "summary: " + (Shown(s[0]) + ShowSummaryTail(s[1..]));
    }
  }

  lemma BodyOfSummary(s: Vec, st: State, n: nat)
    requires StateOk(st, n) && |s| == n
    ensures Body([ShowSummary(s)], st, n) == if n >= 1 then Some((st, [ShowSummary(s)])) else None
    ensures n >= 1 ==> ReadSummary(ShowSummary(s)[8..]) == if Small(s) then Some(s) else None
  {
    hide StateOk, Count, ReadLine, Numbers, ShowSummary, ShowSummaryTail;
    NumbersOfTail(s);
    SummaryLine(s);
  }

  lemma SummaryUnique(s: Vec, r: Vec, t: Table)
    requires Summarizes(s, t) && Summarizes(r, t) && |s| == |r|
    ensures s == r
  {
    SummaryIsExact(s, t);
    SummaryIsExact(r, t);
  }

  lemma {:induction false} DescLinesOf(desc: seq<string>, rest: seq<string>)
    requires forall i :: 0 <= i < |desc| ==> "desc: " <= desc[i]
    requires rest != [] ==> !("desc: " <= rest[0])
    ensures DescLines(desc + rest) == |desc|
  {
    if desc == [] {
      assert desc + rest == rest;
    } else {
      DescLinesOf(desc[1..], rest);
      assert (desc + rest)[1..] == desc[1..] + rest;
    }
  }

  /** Header lines as the parser accepts them. */
  ghost predicate HeaderOk(desc: seq<string>, cmd: string, events: string) {
    && desc != [] && (forall i :: 0 <= i < |desc| ==> "desc: " <= desc[i])
    && "cmd: " <= cmd && "events: " <= events
  }

  /** Parsing what was printed gives the profile back, exactly when it has an event and
      no number in it, the sums included, reaches 2^63; else the parser reports an error. */
  lemma ParseShow(desc: seq<string>, cmd: string, events: string, fs: seq<FileEntry>, summary: Vec)
    requires HeaderOk(desc, cmd, events) && FilesOk(fs, EventCount(events))
    requires |summary| == EventCount(events) && Summarizes(summary, TableFrom(fs))
    ensures Parse(Show(desc, cmd, events, fs, summary))
            == if EventCount(events) >= 1 && SmallFiles(fs) && Small(summary)
               then Some(Parsed(desc, cmd, events, TableFrom(fs), summary)) else None
  {
    hide Body, StateOk, Small, FilesOk, ReadSummary, ShowSummary, ShowFiles, Summarizes, EventCount, TableFrom,
         AfterFiles;
    var n, d := EventCount(events), |desc|;
    var main := ShowFiles(fs, [ShowSummary(summary)]);
    var ls := Show(desc, cmd, events, fs, summary);
    assert cmd[0] == 'c';
    DescLinesOf(desc, [cmd, events] + main);
    assert ls == desc + ([cmd, events] + main);
    assert ls[..d] == desc && ls[d] == cmd && ls[d + 1] == events && ls[d + 2..] == main;
    BodyOfFiles(fs, [ShowSummary(summary)], n);
    var st := AfterFiles(fs, n);
    BodyOfSummary(summary, st, n);
    AfterFilesTable(fs, n);
    assert st.summary == summary by { StateSummary(st, summary, n); }
  }

  lemma StateSummary(st: State, summary: Vec, n: nat)
    requires StateOk(st, n) && |summary| == n && Summarizes(summary, st.table)
    ensures st.summary == summary
  {
    SummaryUnique(st.summary, summary, st.table);
  }

  // ------------------------------------------------------------------- text

  /** The text up to the first newline, and what follows that newline. */
  function TakeLine(text: string): (r: (string, string))
    ensures |r.0| <= |text| && |r.1| <= |text| && (text != "" ==> |r.1| < |text|)
  {
    if text == "" then ("", "")
    else if text[0] == '\n' then ("", text[1..])
    else
      var (line, rest) := TakeLine(text[1..]);
      ([text[0]] + line, rest)
  }

  /** The lines a reader sees: a last line need not end in a newline. */
  function LinesOfText(text: string): seq<string>
    decreases |text|
  {
    if text == "" then [] else
    var (line, rest) := TakeLine(text);
    [line] + LinesOfText(rest)
  }

  function TextOf(ls: seq<string>): string {
    if ls == [] then "" else ls[0] + "\n" + TextOf(ls[1..])
  }

  predicate OneLine(s: string) {
    forall i :: 0 <= i < |s| ==> s[i] != '\n'
  }

  lemma {:induction false} TakeLineOf(line: string, rest: string)
    requires OneLine(line)
    ensures TakeLine(line + ("\n" + rest)) == (line, rest)
  {
    var text := line + ("\n" + rest);
    if line == "" {
      assert text == "\n" + rest && text[1..] == rest;
    } else {
      TakeLineOf(line[1..], rest);
      assert text[1..] == line[1..] + ("\n" + rest);
      assert line == [line[0]] + line[1..];
    }
  }

  lemma {:induction false} LinesOfTextOf(ls: seq<string>)
    requires forall i :: 0 <= i < |ls| ==> OneLine(ls[i])
    ensures LinesOfText(TextOf(ls)) == ls
  {
    if ls != [] {
      TakeLineOf(ls[0], TextOf(ls[1..]));
      assert ls[0] + "\n" + TextOf(ls[1..]) == ls[0] + ("\n" + TextOf(ls[1..]));
      LinesOfTextOf(ls[1..]);
    }
  }

  lemma {:induction false} DecIsOneLine(n: nat)
    ensures OneLine(Dec(n))
  {
    if n >= 10 { DecIsOneLine(n / 10); }
  }

  lemma ShownIsOneLine(v: ULong)
    ensures OneLine(Shown(v))
  {
    if v < TWO63 { DecIsOneLine(v); } else { DecIsOneLine(TWO64 - v); }
  }

  lemma {:induction false} CountsAreOneLine(v: Vec)
    ensures OneLine(ShowCounts(v)) && OneLine(ShowSummaryTail(v))
  {
    if v != [] {
      ShownIsOneLine(v[0]);
      CountsAreOneLine(v[1..]);
    }
  }

  ghost predicate AllOneLine(ls: seq<string>) {
    forall i :: 0 <= i < |ls| ==> OneLine(ls[i])
  }

  lemma {:induction false} LinesAreOneLine(ls: seq<(UWord, Vec)>, rest: seq<string>)
    requires AllOneLine(rest)
    ensures AllOneLine(ShowLines(ls, rest))
    decreases |ls|
  {
    if ls != [] {
      var m := |ls| - 1;
      ShownIsOneLine(ls[m].0);
      CountsAreOneLine(ls[m].1);
      LinesAreOneLine(ls[..m], [ShowLine(ls[m].0, ls[m].1)] + rest);
    }
  }

  lemma {:induction false} FilesAreOneLine(fs: seq<FileEntry>, rest: seq<string>)
    requires AllOneLine(rest)
    requires forall i :: 0 <= i < |fs| ==> OneLine(fs[i].k.fi) && OneLine(fs[i].k.fn)
    ensures AllOneLine(ShowFiles(fs, rest))
    decreases |fs|
  {
    if fs != [] {
      var m := |fs| - 1;
      LinesAreOneLine(fs[m].lines, rest);
      FilesAreOneLine(fs[..m], ShowFile(fs[m], rest));
    }
  }

  /** The round trip on the text itself: names and header lines must not contain a newline. */
  lemma ParseShowText(desc: seq<string>, cmd: string, events: string, fs: seq<FileEntry>, summary: Vec)
    requires HeaderOk(desc, cmd, events) && FilesOk(fs, EventCount(events))
    requires |summary| == EventCount(events) && Summarizes(summary, TableFrom(fs))
    requires AllOneLine(desc + [cmd, events])
    requires forall i :: 0 <= i < |fs| ==> OneLine(fs[i].k.fi) && OneLine(fs[i].k.fn)
    ensures Parse(LinesOfText(TextOf(Show(desc, cmd, events, fs, summary))))
            == if EventCount(events) >= 1 && SmallFiles(fs) && Small(summary)
               then Some(Parsed(desc, cmd, events, TableFrom(fs), summary)) else None
  {
    hide Parse, Summarizes, FilesOk, EventCount, TableFrom, LinesOfText, TextOf, OneLine, ShowFiles;
    assert OneLine(ShowSummary(summary)) by { CountsAreOneLine(summary); SummaryIsOneLine(summary); }
    FilesAreOneLine(fs, [ShowSummary(summary)]);
    var main := ShowFiles(fs, [ShowSummary(summary)]);
    assert AllOneLine(desc + [cmd, events] + main);
    LinesOfTextOf(Show(desc, cmd, events, fs, summary));
    ParseShow(desc, cmd, events, fs, summary);
  }

  lemma SummaryIsOneLine(v: Vec)
    ensures OneLine(ShowSummary(v))
  {
    CountsAreOneLine(v);
  }

  // ---------------------------------------------- what every parse establishes

  lemma {:induction false} BodyKeepsNoEmptyFile(ls: seq<string>, st: State, n: nat)
    requires StateOk(st, n) && NoEmptyFile(st.table)
    ensures Body(ls, st, n).Some? ==> NoEmptyFile(Body(ls, st, n).value.0.table)
  {
    hide StateOk, NoEmptyFile, AddCounts;
    if ls != [] {
      var c := ReadLine(ls[0]);
      NamedOk(st, ls[0][if 3 <= |ls[0]| then 3 else 0..], st.fn, n);
      NamedOk(st, st.fl, ls[0][if 3 <= |ls[0]| then 3 else 0..], n);
      if ls[0] != "" && IsDigit(ls[0][0]) {
        if c.Some? && |c.value.1| == n {
          assert TableOk(st.table, n) by { TableOfState(st, n); }
          AddCountsNoEmptyFile(st.table, FileFn(st.fl, st.fn), c.value.0, c.value.1, n);
          BodyKeepsNoEmptyFile(ls[1..], Count(st, c.value.0, c.value.1, n), n);
        }
      } else if "fn=" <= ls[0] {
        BodyKeepsNoEmptyFile(ls[1..], st.(fn := ls[0][3..]), n);
      } else if "fl=" <= ls[0] {
        BodyKeepsNoEmptyFile(ls[1..], st.(fl := ls[0][3..]), n);
      }
    }
  }

  lemma TableOfState(st: State, n: nat)
    requires StateOk(st, n)
    ensures TableOk(st.table, n)
  {
  }

  lemma {:induction false} DescLinesAre(ls: seq<string>)
    ensures forall i :: 0 <= i < DescLines(ls) ==> "desc: " <= ls[i]
  {
    if ls != [] && "desc: " <= ls[0] {
      DescLinesAre(ls[1..]);
      forall i | 0 <= i < DescLines(ls) ensures "desc: " <= ls[i] {
        if i > 0 { assert ls[i] == ls[1..][i - 1]; }
      }
    }
  }

  /** Every parsed profile is one that printing and parsing keeps: header lines of the
      right form, no file without lines, and the summary equal to the column sums. */
  lemma ParsedIsPrintable(ls: seq<string>)
    requires Parse(ls).Some?
    ensures var p := Parse(ls).value;
            && HeaderOk(p.desc, p.cmd, p.events) && NoEmptyFile(p.table)
            && |p.summary| == EventCount(p.events) && TableOk(p.table, EventCount(p.events))
            && Summarizes(p.summary, p.table)
  {
    hide Body, ReadSummary, EventCount, Start;
    var d := DescLines(ls);
    DescLinesAre(ls);
    assert "desc: " <= ls[..d][0];
    var n := EventCount(ls[d + 1]);
    assert NoEmptyFile(Start(n).table) by { StartIsEmpty(n); }
    BodyKeepsNoEmptyFile(ls[d + 2..], Start(n), n);
  }

  lemma StartIsEmpty(n: nat)
    ensures Start(n).table == map[]
  {
  }
}
