/** What a profile file means: which files the parser accepts, and that the counts it ends up with
    are, line by line, the sums of the counts lines of the file. */
module ProfSums {
  import opened Profile
  import opened ProfText

  // ---------------------------------------------------------------- numbers

  /** The number that decimal digits show. */
  function Value(d: string): (v: nat)
    requires forall i :: 0 <= i < |d| ==> '0' <= d[i] <= '9'
  {
    if d == "" then 0 else Value(d[..|d| - 1]) * 10 + (d[|d| - 1] as int - 48)
  }

  /** White space, then digits. */
  datatype Word = Word(space: string, digits: string)

  predicate Blank(s: string) {
    forall i :: 0 <= i < |s| ==> s[i] == ' ' || 9 <= s[i] as int <= 13
  }

  predicate AllDigits(s: string) {
    forall i :: 0 <= i < |s| ==> '0' <= s[i] <= '9'
  }

  /** Words one after the other; white space keeps digits apart. */
  predicate WordsOk(ws: seq<Word>) {
    forall i :: 0 <= i < |ws| ==>
      Blank(ws[i].space) && AllDigits(ws[i].digits) && ws[i].digits != "" && (i > 0 ==> ws[i].space != "")
  }

  function Written(ws: seq<Word>): string {
    if ws == [] then "" else ws[0].space + ws[0].digits + Written(ws[1..])
  }

  function Values(ws: seq<Word>): (v: seq<ULong>)
    requires WordsOk(ws)
    ensures |v| == |ws| && forall i :: 0 <= i < |ws| ==> v[i] == Value(ws[i].digits) % 18446744073709551616
  {
    seq(|ws|, i requires 0 <= i < |ws| => Value(ws[i].digits) % 18446744073709551616)
  }

  /** What follows the last number: white space, and then anything but white space or a digit. */
  predicate Ends(space: string, rest: string) {
    Blank(space) && (rest == "" || (!IsSpace(rest[0]) && !IsDigit(rest[0])))
  }

  lemma {:induction false} SkipBlank(s: string, t: string)
    requires Blank(s) && (t == "" || !IsSpace(t[0]))
    ensures SkipSpaces(s + t) == t
  {
    if s == "" {
      assert s + t == t;
    } else {
      assert (s + t)[1..] == s[1..] + t;
      SkipBlank(s[1..], t);
    }
  }

  lemma {:induction false} DigitsValue(a: string, d: string, rest: string)
    requires AllDigits(a + d) && NoDigitFirst(rest)
    ensures AllDigits(a) && Digits(d + rest, Value(a) % 18446744073709551616)
                            == (Value(a + d) % 18446744073709551616, rest)
    decreases |d|
  {
    assert forall i :: 0 <= i < |a| ==> (a + d)[i] == a[i];
    if d == "" {
      assert d + rest == rest && a + d == a;
    } else {
      assert (a + d)[|a|] == d[0];
      assert (a + [d[0]])[..|a|] == a && a + [d[0]] + d[1..] == a + d;
      assert (d + rest)[1..] == d[1..] + rest;
      DigitsValue(a + [d[0]], d[1..], rest);
      OneMore(Value(a), DigitValue(d[0]));
    }
  }

  lemma OneMore(x: nat, y: nat)
    ensures (x % 18446744073709551616 * 10 + y) % 18446744073709551616 == (x * 10 + y) % 18446744073709551616
  {
  }

  lemma WordsTail(ws: seq<Word>)
    requires WordsOk(ws) && ws != []
    ensures WordsOk(ws[1..]) && (ws[1..] != [] ==> ws[1].space != "")
    ensures Values(ws) == [Value(ws[0].digits) % 18446744073709551616] + Values(ws[1..])
  {
  }

  lemma WrittenFirst(ws: seq<Word>, space: string, rest: string)
    requires WordsOk(ws) && (ws != [] ==> ws[0].space != "") && Ends(space, rest)
    ensures NoDigitFirst(Written(ws) + (space + rest))
  {
    var t := Written(ws) + (space + rest);
    if ws != [] {
      assert t[0] == ws[0].space[0];
    } else if space != "" {
      assert t[0] == space[0];
    } else {
      assert t == rest;
    }
  }

  lemma NumbersStep(space: string, digits: string, more: string)
    requires Blank(space) && AllDigits(digits) && digits != "" && NoDigitFirst(more)
    ensures Numbers(space + (digits + more))
            == ([Value(digits) % 18446744073709551616] + Numbers(more).0, Numbers(more).1)
  {
    hide Digits, Value;
    assert (digits + more)[0] == digits[0];
    SkipBlank(space, digits + more);
    assert "" + digits == digits && Value("") == 0 by { NoValue(); }
    DigitsValue("", digits, more);
  }

  lemma NoValue()
    ensures Value("") == 0
  {
  }

  lemma NumbersEnd(space: string, rest: string)
    requires Ends(space, rest)
    ensures Numbers(space + rest) == ([], rest)
  {
    SkipBlank(space, rest);
  }

  /** The numbers of a line are those its digits show, modulo 2^64. */
  lemma {:induction false} NumbersOfWords(ws: seq<Word>, space: string, rest: string)
    requires WordsOk(ws) && Ends(space, rest)
    ensures Numbers(Written(ws) + (space + rest)) == (Values(ws), rest)
    decreases |ws|
  {
    hide Numbers, Value, Ends, NoDigitFirst;
    var line := Written(ws) + (space + rest);
    if ws == [] {
      NumbersEnd(space, rest);
      assert line == space + rest;
    } else {
      var w := ws[0];
      WordsTail(ws);
      var more := Written(ws[1..]) + (space + rest);
      assert line == w.space + (w.digits + more);
      WrittenFirst(ws[1..], space, rest);
      NumbersStep(w.space, w.digits, more);
      NumbersOfWords(ws[1..], space, rest);
    }
  }

  /** Numbers below 2^63 are printed as such, larger ones with a sign as what is missing to 2^64. */
  lemma ShownIs(v: ULong)
    ensures v < 9223372036854775808 ==> Shown(v) == Dec(v)
    ensures v >= 9223372036854775808 ==> Shown(v) == "-" + Dec(18446744073709551616 - v)
    ensures Dec(1234567890) == "1234567890"
  {
    assert Dec(1) == "1" && Dec(12) == "12" && Dec(123) == "123" && Dec(1234) == "1234" && Dec(12345) == "12345";
    assert Dec(123456) == "123456" && Dec(1234567) == "1234567" && Dec(12345678) == "12345678";
    assert Dec(123456789) == "123456789";
  }

  /** A printed profile with one line, in full. */
  lemma PrintedExample()
    ensures Show(["desc: x"], "cmd: a", "events: Ir Dr", [FileEntry(FileFn("f", "g"), [(7, [1, 23])])], [1, 23])
            == ["desc: x", "cmd: a", "events: Ir Dr", "fl=f", "fn=g", "7   1 23 ", "summary: 1 23"]
  {
    var v: Vec := [1, 23];
    assert Dec(1) == "1" && Dec(2) == "2" && Dec(7) == "7" && Dec(23) == "23";
    assert v[1..] == [23] && v[1..][1..] == [];
    assert ShowCounts(v[1..]) == "23 " && ShowCounts(v) == "1 23 ";
    assert ShowSummaryTail(v[1..]) == " 23" && ShowSummaryTail(v) == " 1 23";
    var ls: seq<(UWord, Vec)> := [(7, v)];
    var last := ["summary: 1 23"];
    assert ShowSummary(v) == last[0];
    assert ShowLine(7, v) == "7   1 23 ";
    OneLine(7, v, last);
    var f := FileEntry(FileFn("f", "g"), ls);
    assert "fl=" + "f" == "fl=f" && "fn=" + "g" == "fn=g";
    assert ShowFile(f, last) == ["fl=f", "fn=g", "7   1 23 ", "summary: 1 23"];
    OneFile(f, last);
  }

  lemma OneLine(l: UWord, v: Vec, rest: seq<string>)
    ensures ShowLines([(l, v)], rest) == [ShowLine(l, v)] + rest
  {
    assert [(l, v)][..0] == [];
  }

  lemma OneFile(f: FileEntry, rest: seq<string>)
    ensures ShowFiles([f], rest) == ShowFile(f, rest)
  {
    assert [f][..0] == [];
  }

  // ------------------------------------------------------------- the main part

  predicate IsCounts(line: string) {
    line != "" && '0' <= line[0] <= '9'
  }

  /** A line before the summary: a line number with n counts, or a name. */
  predicate IsMain(line: string, n: nat) {
    if IsCounts(line) then var c := ReadLine(line); c.Some? && |c.value.1| == n
    else "fl=" <= line || "fn=" <= line
  }

  predicate AllMain(ls: seq<string>, n: nat) {
    forall i :: 0 <= i < |ls| ==> IsMain(ls[i], n)
  }

  /** The name given by the last line that begins with mark. */
  function NameAfter(ls: seq<string>, mark: string, none: string): string {
    if ls == [] then none
    else if mark <= ls[|ls| - 1] then ls[|ls| - 1][|mark|..]
    else NameAfter(ls[..|ls| - 1], mark, none)
  }

  /** Line i holds counts of source line l of this file and function. */
  predicate CountsOf(ls: seq<string>, i: nat, k: FileFn, l: UWord)
    requires i < |ls|
  {
    && IsCounts(ls[i]) && ReadLine(ls[i]).Some? && ReadLine(ls[i]).value.0 == l
    && k == FileFn(NameAfter(ls[..i], "fl=", "???"), NameAfter(ls[..i], "fn=", "???"))
  }

  function CountIn(line: string, c: nat): nat {
    var r := ReadLine(line);
    if IsCounts(line) && r.Some? && c < |r.value.1| then r.value.1[c] else 0
  }

  /** The sum of counter c over the lines that hold counts of that source line. */
  function SumOf(ls: seq<string>, k: FileFn, l: UWord, c: nat): nat {
    if ls == [] then 0 else
    var m := |ls| - 1;
    SumOf(ls[..m], k, l, c) + if CountsOf(ls, m, k, l) then CountIn(ls[m], c) else 0
  }

  /** The sum of counter c over all lines. */
  function SumOfAll(ls: seq<string>, c: nat): nat {
    if ls == [] then 0 else SumOfAll(ls[..|ls| - 1], c) + CountIn(ls[|ls| - 1], c)
  }

  /** The parser's state after main lines. */
  ghost function After(ls: seq<string>, n: nat): (st: State)
    requires AllMain(ls, n)
    ensures StateOk(st, n)
  {
    if ls == [] then Start(n) else
    var m := |ls| - 1;
    var st := After(ls[..m], n);
    assert IsMain(ls[m], n);
    if IsCounts(ls[m]) then Count(st, ReadLine(ls[m]).value.0, ReadLine(ls[m]).value.1, n)
    else if "fn=" <= ls[m] then st.(fn := ls[m][3..]) else st.(fl := ls[m][3..])
  }

  lemma MarksDiffer(line: string)
    ensures "fl=" <= line ==> !("fn=" <= line) && !IsCounts(line)
    ensures "fn=" <= line ==> !("fl=" <= line) && !IsCounts(line)
    ensures "summary: " <= line ==> !("fl=" <= line) && !("fn=" <= line) && !IsCounts(line)
  {
    if "fl=" <= line { assert line[0] == 'f' && line[1] == 'l'; }
    if "fn=" <= line { assert line[0] == 'f' && line[1] == 'n'; }
    if "summary: " <= line { assert line[0] == 's'; }
  }

  lemma {:induction false} NamesAfter(ls: seq<string>, n: nat)
    requires AllMain(ls, n)
    ensures After(ls, n).fl == NameAfter(ls, "fl=", "???") && After(ls, n).fn == NameAfter(ls, "fn=", "???")
  {
    hide StateOk;
    if ls != [] {
      NamesAfter(ls[..|ls| - 1], n);
      assert IsMain(ls[|ls| - 1], n);
      MarksDiffer(ls[|ls| - 1]);
    }
  }

  lemma CountsNext(ls: seq<string>, k: FileFn, l: UWord)
    requires ls != []
    ensures var m := |ls| - 1;
            (exists i :: 0 <= i < |ls| && CountsOf(ls, i, k, l))
            <==> (exists i :: 0 <= i < m && CountsOf(ls[..m], i, k, l)) || CountsOf(ls, m, k, l)
  {
    var m := |ls| - 1;
    forall i | 0 <= i < m
      ensures CountsOf(ls, i, k, l) <==> CountsOf(ls[..m], i, k, l)
    {
      assert ls[..m][..i] == ls[..i];
    }
  }

  lemma StateTable(st: State, n: nat)
    requires StateOk(st, n)
    ensures TableOk(st.table, n) && |st.summary| == n
  {
  }

  /** One line more. */
  lemma AfterNext(ls: seq<string>, n: nat)
    requires ls != [] && AllMain(ls, n)
    ensures var (m, r) := (|ls| - 1, ReadLine(ls[|ls| - 1]));
            var (st, u) := (After(ls[..m], n), After(ls, n));
            && IsMain(ls[m], n)
            && (if IsCounts(ls[m]) then r.Some? && |r.value.1| == n && u == Count(st, r.value.0, r.value.1, n)
                else u.table == st.table && u.summary == st.summary)
  {
    hide StateOk, ReadLine, Count;
    assert IsMain(ls[|ls| - 1], n);
  }

  lemma CountIs(st: State, i: UWord, v: Vec, n: nat, c: nat)
    requires StateOk(st, n) && |v| == n && c < n
    ensures TableOk(st.table, n) && |st.summary| == n == |Count(st, i, v, n).summary|
    ensures Count(st, i, v, n).table == AddCounts(st.table, FileFn(st.fl, st.fn), i, v, n)
    ensures Count(st, i, v, n).summary[c] == (st.summary[c] as int + v[c] as int) % 18446744073709551616
  {
    hide Summarizes, TableOk;
  }

  /** After main lines every counter is the sum of what the lines say of it. */
  lemma {:induction false} CountsAfter(ls: seq<string>, n: nat, k: FileFn, l: UWord, c: nat)
    requires AllMain(ls, n) && c < n
    ensures HasLine(After(ls, n).table, k, l) <==> exists i :: 0 <= i < |ls| && CountsOf(ls, i, k, l)
    ensures CountAt(After(ls, n).table, k, l, c) == SumOf(ls, k, l, c) % 18446744073709551616
  {
    hide StateOk, After, Count, AddCounts, ReadLine, NameAfter, IsCounts, CountAt, HasLine, TableOk;
    if ls == [] {
      StartIs(n, k, l, c);
    } else {
      var m := |ls| - 1;
      var st := After(ls[..m], n);
      CountsAfter(ls[..m], n, k, l, c);
      NamesAfter(ls[..m], n);
      CountsNext(ls, k, l);
      AfterNext(ls, n);
      if IsCounts(ls[m]) {
        var (i, v) := ReadLine(ls[m]).value;
        CountIs(st, i, v, n, c);
        AddedCounts(st.table, FileFn(st.fl, st.fn), i, v, n, k, l, c);
      }
    }
  }

  lemma {:induction false} SummaryAfter(ls: seq<string>, n: nat, c: nat)
    requires AllMain(ls, n) && c < n
    ensures |After(ls, n).summary| == n && After(ls, n).summary[c] == SumOfAll(ls, c) % 18446744073709551616
  {
    hide StateOk, After, Count, ReadLine, IsCounts;
    StateTable(After(ls, n), n);
    if ls == [] {
      StartIs(n, FileFn("", ""), 0, c);
    } else {
      var m := |ls| - 1;
      SummaryAfter(ls[..m], n, c);
      AfterNext(ls, n);
      if IsCounts(ls[m]) {
        var (i, v) := ReadLine(ls[m]).value;
        CountIs(After(ls[..m], n), i, v, n, c);
      }
    }
  }

  lemma StartIs(n: nat, k: FileFn, l: UWord, c: nat)
    requires c < n
    ensures After([], n).table == map[] && After([], n).summary[c] == 0
    ensures CountAt(After([], n).table, k, l, c) == 0 && !HasLine(After([], n).table, k, l)
  {
  }

  lemma BodyNext(ls: seq<string>, st: State, n: nat)
    requires StateOk(st, n) && ls != [] && IsMain(ls[0], n)
    ensures var next := if IsCounts(ls[0]) then Count(st, ReadLine(ls[0]).value.0, ReadLine(ls[0]).value.1, n)
                        else if "fn=" <= ls[0] then st.(fn := ls[0][3..]) else st.(fl := ls[0][3..]);
            StateOk(next, n) && Body(ls, st, n) == Body(ls[1..], next, n)
  {
    hide StateOk, Count, ReadLine;
    NamedOk(st, st.fl, ls[0], n);
    if !IsCounts(ls[0]) {
      NamedOk(st, st.fl, ls[0][3..], n);
      NamedOk(st, ls[0][3..], st.fn, n);
    }
  }

  lemma {:induction false} BodyAfter(main: seq<string>, rest: seq<string>, n: nat)
    requires AllMain(main, n)
    ensures Body(main + rest, Start(n), n) == Body(rest, After(main, n), n)
    decreases |main|
  {
    hide StateOk, Body, Count, ReadLine, Start;
    if main == [] {
      assert main + rest == rest;
    } else {
      var m := |main| - 1;
      assert IsMain(main[m], n);
      BodyAfter(main[..m], [main[m]] + rest, n);
      assert main[..m] + ([main[m]] + rest) == main + rest;
      BodyNext([main[m]] + rest, After(main[..m], n), n);
      assert ([main[m]] + rest)[1..] == rest;
    }
  }

  /** How many main lines there are at the start. */
  function MainLines(ls: seq<string>, n: nat): (k: nat)
    ensures k <= |ls| && AllMain(ls[..k], n) && (k < |ls| ==> !IsMain(ls[k], n))
  {
    if ls == [] || !IsMain(ls[0], n) then 0 else
    var k := MainLines(ls[1..], n);
    assert ls[..1 + k] == [ls[0]] + ls[1..][..k];
    1 + k
  }

  lemma BodyEnds(ls: seq<string>, st: State, n: nat)
    requires StateOk(st, n) && (ls != [] ==> !IsMain(ls[0], n))
    ensures Body(ls, st, n) == if ls != [] && "summary: " <= ls[0] then Some((st, ls)) else None
  {
    hide StateOk, Count, ReadLine;
    if ls != [] { MarksDiffer(ls[0]); }
  }

  /** The main part as a whole. */
  lemma BodyIs(ls: seq<string>, n: nat)
    ensures var k := MainLines(ls, n);
            Body(ls, Start(n), n)
            == if k < |ls| && "summary: " <= ls[k] then Some((After(ls[..k], n), ls[k..])) else None
  {
    hide StateOk, Body, Start, After;
    var k := MainLines(ls, n);
    BodyAfter(ls[..k], ls[k..], n);
    assert ls[..k] + ls[k..] == ls;
    BodyEnds(ls[k..], After(ls[..k], n), n);
  }

  // ------------------------------------------------------------------ the file

  /** The shape of a file: d description lines, the command, the events, lines of names and
      counts, and a summary. */
  predicate Shaped(ls: seq<string>, d: nat) {
    && 0 < d && d + 2 < |ls| && (forall i :: 0 <= i < d ==> "desc: " <= ls[i])
    && "cmd: " <= ls[d] && "events: " <= ls[d + 1] && "summary: " <= ls[|ls| - 1]
    && AllMain(ls[d + 2..|ls| - 1], EventCount(ls[d + 1]))
  }

  /** The summary line says the sums of all counts. */
  predicate SummaryRight(ls: seq<string>, d: nat)
    requires d + 2 < |ls| && "summary: " <= ls[|ls| - 1]
  {
    var (main, r) := (ls[d + 2..|ls| - 1], ReadSummary(ls[|ls| - 1][8..]));
    && r.Some? && |r.value| == EventCount(ls[d + 1])
    && forall c :: 0 <= c < |r.value| ==> r.value[c] == SumOfAll(main, c) % 18446744073709551616
  }

  lemma DescAre(ls: seq<string>, d: nat)
    requires d < |ls| && (forall i :: 0 <= i < d ==> "desc: " <= ls[i]) && "cmd: " <= ls[d]
    ensures DescLines(ls) == d
  {
    assert ls[d][0] == 'c';
    DescLinesOf(ls[..d], ls[d..]);
    assert ls[..d] + ls[d..] == ls;
  }

  lemma MainAre(ls: seq<string>, n: nat)
    requires ls != [] && AllMain(ls[..|ls| - 1], n) && "summary: " <= ls[|ls| - 1]
    ensures MainLines(ls, n) == |ls| - 1
  {
    MarksDiffer(ls[|ls| - 1]);
    var k := MainLines(ls, n);
  }

  lemma DescFound(ls: seq<string>)
    ensures forall i :: 0 <= i < DescLines(ls) ==> "desc: " <= ls[i]
  {
    if ls != [] && "desc: " <= ls[0] { DescFound(ls[1..]); }
  }

  /** A file is accepted exactly if it has this shape and its summary line is right. */
  lemma Accepted(ls: seq<string>)
    ensures Parse(ls).Some? <==> exists d: nat :: Shaped(ls, d) && SummaryRight(ls, d)
  {
    hide Body, After, AllMain, Start, ReadSummary, StateOk, EventCount;
    if Parse(ls).Some? {
      var d := DescLines(ls);
      var n := EventCount(ls[d + 1]);
      DescFound(ls);
      BodyIs(ls[d + 2..], n);
      var k := MainLines(ls[d + 2..], n);
      assert k == |ls| - d - 3;
      assert ls[d + 2..][..k] == ls[d + 2..|ls| - 1] && ls[d + 2..][k] == ls[|ls| - 1];
      assert Shaped(ls, d);
      SummaryIs(ls, d);
    }
    if d: nat :| Shaped(ls, d) && SummaryRight(ls, d) {
      AcceptedAt(ls, d);
    }
  }

  lemma SummaryIs(ls: seq<string>, d: nat)
    requires Shaped(ls, d)
    ensures var (n, main) := (EventCount(ls[d + 1]), ls[d + 2..|ls| - 1]);
            SummaryRight(ls, d) <==> ReadSummary(ls[|ls| - 1][8..]) == Some(After(main, n).summary)
  {
    hide After, AllMain, ReadSummary, StateOk, EventCount, SumOfAll;
    var n, main := EventCount(ls[d + 1]), ls[d + 2..|ls| - 1];
    var s, r := After(main, n).summary, ReadSummary(ls[|ls| - 1][8..]);
    StateTable(After(main, n), n);
    forall c | 0 <= c < n
      ensures s[c] == SumOfAll(main, c) % 18446744073709551616
    {
      SummaryAfter(main, n, c);
    }
    if SummaryRight(ls, d) { assert r.value == s; }
  }

  /** And then its counters are the sums over its lines: what is known of a source line is what the
      counts lines under its file and function say, and nothing is known of others. */
  lemma AcceptedAt(ls: seq<string>, d: nat)
    requires Shaped(ls, d)
    ensures Parse(ls).Some? <==> SummaryRight(ls, d)
    ensures Parse(ls).Some? ==>
              var (p, main, n) := (Parse(ls).value, ls[d + 2..|ls| - 1], EventCount(ls[d + 1]));
              && p.desc == ls[..d] && p.cmd == ls[d] && p.events == ls[d + 1] && p.table == After(main, n).table
  {
    hide Body, After, AllMain, Start, ReadSummary, StateOk, EventCount, SummaryRight;
    var n, main := EventCount(ls[d + 1]), ls[d + 2..|ls| - 1];
    DescAre(ls, d);
    var tail := ls[d + 2..];
    assert tail[..|tail| - 1] == main && tail[|tail| - 1] == ls[|ls| - 1];
    MainAre(tail, n);
    BodyIs(tail, n);
    SummaryIs(ls, d);
  }

  /** The counters of an accepted file. */
  lemma ParsedCounts(ls: seq<string>, d: nat, k: FileFn, l: UWord, c: nat)
    requires Shaped(ls, d) && SummaryRight(ls, d) && c < EventCount(ls[d + 1])
    ensures Parse(ls).Some?
    ensures var (p, main) := (Parse(ls).value, ls[d + 2..|ls| - 1]);
            && p.desc == ls[..d] && p.cmd == ls[d] && p.events == ls[d + 1]
            && (HasLine(p.table, k, l) <==> exists i :: 0 <= i < |main| && CountsOf(main, i, k, l))
            && CountAt(p.table, k, l, c) == SumOf(main, k, l, c) % 18446744073709551616
  {
    hide Parse, After, AllMain, StateOk, EventCount, SummaryRight, CountsOf, HasLine, CountAt, SumOf, SumOfAll;
    AcceptedAt(ls, d);
    CountsAfter(ls[d + 2..|ls| - 1], EventCount(ls[d + 1]), k, l, c);
  }
}
