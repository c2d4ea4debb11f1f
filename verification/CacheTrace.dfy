/** Whole caches on traces of addresses, for the write-back simulator and the one with use
    statistics: each set is a run over the references that its lines got. */
module CacheTrace {
  import opened Arith
  import opened CacheAccess
  import opened CacheSim
  import opened Lru
  import opened WriteBack
  import M = UseMask
  import U = CacheUse

  // -------------------------------------------------------------- write-back

  datatype Traced = Traced(write: bool, a: UWord, size: nat)

  ghost predicate TraceOk(refs: seq<Traced>, lineSize: nat) {
    forall i :: 0 <= i < |refs| ==> Fits(refs[i].a, refs[i].size, lineSize)
  }

  /** The geometry of a cache, as the write-back simulator takes it. */
  ghost predicate WbOk(sets: nat, assoc: nat, lineSize: nat) {
    assoc > 0 && WayOk(sets, lineSize) && lineSize % 2 == 0
  }

  /** An empty cache after the accesses of a trace. */
  ghost function RunTraceWb(refs: seq<Traced>, sets: nat, assoc: nat, lineSize: nat): (c: Sets)
    requires WbOk(sets, assoc, lineSize) && TraceOk(refs, lineSize)
    ensures CacheAccess.CacheOk(c, assoc, lineSize) && |c| == sets
  {
    if refs == [] then Empty(sets, assoc) else
    var m := |refs| - 1;
    var ps := Seen(refs[m].a, refs[m].size, lineSize, sets);
    LinesWb(RunTraceWb(refs[..m], sets, assoc, lineSize), refs[m].write, ps, assoc, lineSize).0
  }

  /** The references that the lines of set i get from the lookups ps. */
  ghost function RefsIn(write: bool, ps: seq<Piece>, i: nat, sets: nat, lineSize: nat): (h: seq<Reference>)
    requires WayOk(sets, lineSize) && lineSize % 2 == 0
    ensures EvenTags(h)
  {
    if ps == [] then [] else
    TagIsEven(ps[0].line, sets, lineSize);
    (if SetNo(Block(ps[0].line, lineSize), sets) == i then [Reference(TagOf(ps[0].line, sets, lineSize), write)]
      else [])
    + RefsIn(write, ps[1..], i, sets, lineSize)
  }

  /** The references that the lines of set i get from a trace. */
  ghost function RefsOf(refs: seq<Traced>, i: nat, sets: nat, lineSize: nat): (h: seq<Reference>)
    requires WayOk(sets, lineSize) && lineSize % 2 == 0 && TraceOk(refs, lineSize)
    ensures EvenTags(h)
  {
    if refs == [] then [] else
    var m := |refs| - 1;
    RefsOf(refs[..m], i, sets, lineSize)
    + RefsIn(refs[m].write, Seen(refs[m].a, refs[m].size, lineSize, sets), i, sets, lineSize)
  }

  lemma RunWbNext(h: seq<Reference>, r: Reference, n: nat)
    requires n > 0 && EvenTags(h) && r.tag % 2 == 0
    ensures EvenTags(h + [r]) && RunWb(h + [r], n) == TouchWb(RunWb(h, n), r.tag, r.write).0
  {
    assert (h + [r])[..|h|] == h;
  }

  lemma {:induction false} LinesRunSet(c: Sets, write: bool, ps: seq<Piece>, i: nat, h: seq<Reference>, assoc: nat,
                                       lineSize: nat)
    requires CacheAccess.CacheOk(c, assoc, lineSize) && i < |c| && EvenTags(h) && c[i] == RunWb(h, assoc)
    ensures LinesWb(c, write, ps, assoc, lineSize).0[i] == RunWb(h + RefsIn(write, ps, i, |c|, lineSize), assoc)
    decreases |ps|
  {
    hide TouchWb, TagOf, RunWb, Block, SetNo;
    if ps == [] {
      assert h + [] == h;
    } else {
      var c1 := PieceWb(c, write, ps[0], assoc, lineSize).0;
      var rest := RefsIn(write, ps[1..], i, |c|, lineSize);
      TagIsEven(ps[0].line, |c|, lineSize);
      if SetNo(Block(ps[0].line, lineSize), |c|) == i {
        TagOfLine(ps[0].line, |c|, lineSize);
        var r := Reference(TagOf(ps[0].line, |c|, lineSize), write);
        RunWbNext(h, r, assoc);
        LinesRunSet(c1, write, ps[1..], i, h + [r], assoc, lineSize);
        assert h + [r] + rest == h + ([r] + rest);
      } else {
        LinesRunSet(c1, write, ps[1..], i, h, assoc, lineSize);
        assert [] + rest == rest;
      }
    }
  }

  lemma {:induction false} TraceRunSet(refs: seq<Traced>, i: nat, sets: nat, assoc: nat, lineSize: nat)
    requires WbOk(sets, assoc, lineSize) && TraceOk(refs, lineSize) && i < sets
    ensures RunTraceWb(refs, sets, assoc, lineSize)[i] == RunWb(RefsOf(refs, i, sets, lineSize), assoc)
  {
    hide LinesWb, RefsIn, CacheAccess.CacheOk, WayOk, Fits;
    if refs != [] {
      var m := |refs| - 1;
      TraceRunSet(refs[..m], i, sets, assoc, lineSize);
      var ps := Seen(refs[m].a, refs[m].size, lineSize, sets);
      LinesRunSet(RunTraceWb(refs[..m], sets, assoc, lineSize), refs[m].write, ps, i,
        RefsOf(refs[..m], i, sets, lineSize), assoc, lineSize);
    }
  }

  /** After any trace on an empty cache, way j of set i holds the set's tag number j by recent
      use, and is dirty exactly when that tag was written since it was brought in. */
  lemma CacheDirtyIffWritten(refs: seq<Traced>, i: nat, j: nat, sets: nat, assoc: nat, lineSize: nat)
    requires WbOk(sets, assoc, lineSize) && TraceOk(refs, lineSize) && i < sets && j < assoc
    ensures var h := RefsOf(refs, i, sets, lineSize);
            var (way, r) := (RunTraceWb(refs, sets, assoc, lineSize)[i][j], Recent<UWord>([0] + WriteBack.Tags(h)));
            && Clean(way) == (if j < |r| then r[j] else 0)
            && (Dirty(way) <==> j < |r| && Written(h, r[j], assoc))
  {
    hide RunTraceWb, RefsOf, RunWb, Written, Clean, Dirty, Recent, WayOk, Fits;
    var h := RefsOf(refs, i, sets, lineSize);
    TraceRunSet(refs, i, sets, assoc, lineSize);
    RunWbIsPlain(h, assoc);
    DirtyIffWritten(h, assoc, j);
    var s := RunWb(h, assoc);
    assert Clean(s[j]) == CleanAll(s)[j];
  }

  /** The next line looked up gives a dirty miss exactly when it takes the place of a line that
      was written since it was brought in. */
  lemma CacheMissDirtyIff(refs: seq<Traced>, p: Piece, write: bool, sets: nat, assoc: nat, lineSize: nat)
    requires WbOk(sets, assoc, lineSize) && TraceOk(refs, lineSize)
    ensures var h := RefsOf(refs, SetNo(Block(p.line, lineSize), sets), sets, lineSize);
            var (r, t) := (Recent<UWord>([0] + WriteBack.Tags(h)), TagOf(p.line, sets, lineSize));
            var res := PieceWb(RunTraceWb(refs, sets, assoc, lineSize), write, p, assoc, lineSize).1;
            && 0 <= t < TWO32
            && (res == Hit <==> Resident<UWord>(WriteBack.Tags(h), t, assoc, 0))
            && (res == MissDirty <==> !Resident<UWord>(WriteBack.Tags(h), t, assoc, 0) && assoc <= |r|
                                      && Written(h, r[assoc - 1], assoc))
  {
    hide RunTraceWb, RefsOf, RunWb, Written, Recent, Resident, TouchWb, Fits, TagOf;
    var i := SetNo(Block(p.line, lineSize), sets);
    var h := RefsOf(refs, i, sets, lineSize);
    TagIsEven(p.line, sets, lineSize);
    TagOfLine(p.line, sets, lineSize);
    TraceRunSet(refs, i, sets, assoc, lineSize);
    MissDirtyIffWritten(h, TagOf(p.line, sets, lineSize), write, assoc);
  }

  /** The line of p is in a set with the references h. */
  ghost predicate HitsWb(h: seq<Reference>, p: Piece, sets: nat, assoc: nat, lineSize: nat)
    requires WbOk(sets, assoc, lineSize)
  {
    TagIsEven(p.line, sets, lineSize);
    TagOfLine(p.line, sets, lineSize);
    Resident<UWord>(WriteBack.Tags(h), TagOf(p.line, sets, lineSize), assoc, 0)
  }

  /** It is not, and the line that makes room for it was written since it was brought in. */
  ghost predicate DirtyMiss(h: seq<Reference>, p: Piece, sets: nat, assoc: nat, lineSize: nat)
    requires WbOk(sets, assoc, lineSize)
  {
    var r := Recent<UWord>([0] + WriteBack.Tags(h));
    !HitsWb(h, p, sets, assoc, lineSize) && assoc <= |r| && Written(h, r[assoc - 1], assoc)
  }

  lemma LookupWb(c: Sets, h: seq<Reference>, p: Piece, write: bool, assoc: nat, lineSize: nat)
    requires CacheAccess.CacheOk(c, assoc, lineSize) && EvenTags(h)
    requires c[SetNo(Block(p.line, lineSize), |c|)] == RunWb(h, assoc)
    ensures WbOk(|c|, assoc, lineSize)
    ensures var res := PieceWb(c, write, p, assoc, lineSize).1;
            && (res == Hit <==> HitsWb(h, p, |c|, assoc, lineSize))
            && (res == MissDirty <==> DirtyMiss(h, p, |c|, assoc, lineSize))
  {
    hide RunWb, Written, Recent, Resident, TouchWb, TagOf;
    TagIsEven(p.line, |c|, lineSize);
    TagOfLine(p.line, |c|, lineSize);
    MissDirtyIffWritten(h, TagOf(p.line, |c|, lineSize), write, assoc);
  }

  /** The answer to a whole access after any trace: a dirty miss exactly if one of its lookups is,
      and a hit exactly if all of them are, the second one being after the first. */
  lemma AccessWbIs(refs: seq<Traced>, x: Traced, sets: nat, assoc: nat, lineSize: nat)
    requires WbOk(sets, assoc, lineSize) && TraceOk(refs, lineSize) && Fits(x.a, x.size, lineSize)
    ensures var (c, ps) := (RunTraceWb(refs, sets, assoc, lineSize), Seen(x.a, x.size, lineSize, sets));
            var r := LinesWb(c, x.write, ps, assoc, lineSize).1;
            var i1 := SetNo(Block(ps[0].line, lineSize), sets);
            var h1 := RefsOf(refs, i1, sets, lineSize);
            && (|ps| == 1 ==>
                  && (r == MissDirty <==> DirtyMiss(h1, ps[0], sets, assoc, lineSize))
                  && (r == Hit <==> HitsWb(h1, ps[0], sets, assoc, lineSize)))
            && (|ps| == 2 ==>
                  var i2 := SetNo(Block(ps[1].line, lineSize), sets);
                  var h2 := RefsOf(refs, i2, sets, lineSize) + RefsIn(x.write, [ps[0]], i2, sets, lineSize);
                  && (r == MissDirty <==> || DirtyMiss(h1, ps[0], sets, assoc, lineSize)
                                          || DirtyMiss(h2, ps[1], sets, assoc, lineSize))
                  && (r == Hit <==> && HitsWb(h1, ps[0], sets, assoc, lineSize)
                                    && HitsWb(h2, ps[1], sets, assoc, lineSize)))
  {
    hide PieceWb, CacheAccess.CacheOk, Fits, RunTraceWb, LinesWb, DirtyMiss, HitsWb, RefsOf, RefsIn, RunWb,
         EvenTags;
    var c, ps := RunTraceWb(refs, sets, assoc, lineSize), Seen(x.a, x.size, lineSize, sets);
    var i1 := SetNo(Block(ps[0].line, lineSize), sets);
    OneOrTwoWb(c, x.write, ps, assoc, lineSize);
    TraceRunSet(refs, i1, sets, assoc, lineSize);
    LookupWb(c, RefsOf(refs, i1, sets, lineSize), ps[0], x.write, assoc, lineSize);
    if |ps| == 2 {
      var i2 := SetNo(Block(ps[1].line, lineSize), sets);
      TraceRunSet(refs, i2, sets, assoc, lineSize);
      var c1 := PieceWb(c, x.write, ps[0], assoc, lineSize).0;
      var h := RefsOf(refs, i2, sets, lineSize);
      LinesRunSet(c, x.write, [ps[0]], i2, h, assoc, lineSize);
      OneOrTwoWb(c, x.write, [ps[0]], assoc, lineSize);
      BothEven(h, RefsIn(x.write, [ps[0]], i2, sets, lineSize));
      LookupWb(c1, h + RefsIn(x.write, [ps[0]], i2, sets, lineSize), ps[1], x.write, assoc, lineSize);
    }
  }

  lemma BothEven(h: seq<Reference>, more: seq<Reference>)
    requires EvenTags(h) && EvenTags(more)
    ensures EvenTags(h + more)
  {
  }

  // ---------------------------------------------------------- use statistics

  ghost predicate AccessesOk(refs: seq<Access>, lineSize: nat) {
    forall i :: 0 <= i < |refs| ==> Fits(refs[i].a, refs[i].size, lineSize)
  }

  /** The geometry of a level: a tag has room for the slots of a set. */
  ghost predicate LevelFits(sets: nat, assoc: nat, lineSize: nat) {
    WayOk(sets, lineSize) && 0 < assoc <= sets * lineSize <= 0x1_0000_0000_0000_0000
  }

  /** And of a first level, where parts of lines are told apart. */
  ghost predicate L1Ok(sets: nat, assoc: nat, lineSize: nat) {
    LevelFits(sets, assoc, lineSize) && M.LineSizeOk(lineSize)
  }

  /** A cleared level. */
  ghost function ClearedSets(sets: nat, assoc: nat, lineSize: nat): (c: seq<U.UseSet>)
    requires LevelFits(sets, assoc, lineSize)
    ensures UsesOk(c, lineSize) && |c| == sets
  {
    U.ClearedOk(assoc, sets * lineSize);
    seq(sets, _ => U.Cleared(assoc))
  }

  /** Both levels after the accesses of a trace, the first level being cleared before. */
  ghost function RunTraceUse(refs: seq<Access>, sets: nat, assoc: nat, ll: seq<U.UseSet>, lineSize: nat,
                             llSize: nat): (v: Levels)
    requires L1Ok(sets, assoc, lineSize) && AccessesOk(refs, lineSize) && UsesOk(ll, llSize)
    ensures UsesOk(v.l1, lineSize) && UsesOk(v.ll, llSize) && |v.l1| == sets
  {
    hide WayOk, M.LineSizeOk, UsesOk, PartOk, Fits, LinesUse;
    if refs == [] then Levels(ClearedSets(sets, assoc, lineSize), ll) else
    var m := |refs| - 1;
    SeenArePieces(refs[m].a, refs[m].size, lineSize, sets);
    LinesUse(RunTraceUse(refs[..m], sets, assoc, ll, lineSize, llSize),
      Seen(refs[m].a, refs[m].size, lineSize, sets), lineSize, llSize).0
  }

  ghost predicate PartsOk(ps: seq<Piece>, lineSize: nat) {
    forall i :: 0 <= i < |ps| ==> PartOk(ps[i], lineSize)
  }

  /** The references that the lines of set i get from the lookups ps. */
  ghost function UsesIn(ps: seq<Piece>, i: nat, sets: nat, lineSize: nat): (h: seq<U.UseRef>)
    requires WayOk(sets, lineSize) && M.LineSizeOk(lineSize) && PartsOk(ps, lineSize)
    ensures U.TagsOk(h, sets * lineSize)
  {
    if ps == [] then [] else
    UseTag(ps[0].line, sets, lineSize);
    (if SetNo(Block(ps[0].line, lineSize), sets) == i
     then [U.UseRef(TagOf(ps[0].line, sets, lineSize), M.RangeMask(ps[0].from, ps[0].to, lineSize), ps[0].line)]
       else [])
    + UsesIn(ps[1..], i, sets, lineSize)
  }

  /** The references that the lines of set i get from a trace. */
  ghost function UsesOf(refs: seq<Access>, i: nat, sets: nat, lineSize: nat): (h: seq<U.UseRef>)
    requires WayOk(sets, lineSize) && M.LineSizeOk(lineSize) && AccessesOk(refs, lineSize)
    ensures U.TagsOk(h, sets * lineSize)
  {
    if refs == [] then [] else
    var m := |refs| - 1;
    SeenArePieces(refs[m].a, refs[m].size, lineSize, sets);
    UsesOf(refs[..m], i, sets, lineSize) + UsesIn(Seen(refs[m].a, refs[m].size, lineSize, sets), i, sets, lineSize)
  }

  lemma RunUseNext(h: seq<U.UseRef>, r: U.UseRef, n: nat, span: nat)
    requires 0 < n <= span <= 0x1_0000_0000_0000_0000 && U.TagsOk(h, span) && U.IsTag(r.tag, span)
    ensures U.TagsOk(h + [r], span) && U.RunUse(h + [r], n, span) == U.TouchUse(U.RunUse(h, n, span), r, span)
  {
    hide U.IsTag, U.TouchUse;
    assert (h + [r])[..|h|] == h;
  }

  lemma PieceFirst(v: Levels, p: Piece, lineSize: nat, llSize: nat)
    requires UsesOk(v.l1, lineSize) && UsesOk(v.ll, llSize) && M.LineSizeOk(lineSize) && PartOk(p, lineSize)
    ensures PieceUse(v, p, lineSize, llSize).0.l1 == PieceL1(v.l1, p, lineSize).0
  {
    hide PieceL1, LineLL;
  }

  /** Set i of a first level is a run over h. */
  ghost predicate RunsSet(c: seq<U.UseSet>, i: nat, h: seq<U.UseRef>, assoc: nat, lineSize: nat) {
    && L1Ok(|c|, assoc, lineSize) && UsesOk(c, lineSize) && i < |c| && U.TagsOk(h, |c| * lineSize)
    && c[i] == U.RunUse(h, assoc, |c| * lineSize)
  }

  lemma RunsOk(c: seq<U.UseSet>, i: nat, h: seq<U.UseRef>, assoc: nat, lineSize: nat)
    requires RunsSet(c, i, h, assoc, lineSize)
    ensures WayOk(|c|, lineSize) && M.LineSizeOk(lineSize) && UsesOk(c, lineSize)
  {
  }

  lemma PieceRunsSet(c: seq<U.UseSet>, p: Piece, i: nat, h: seq<U.UseRef>, assoc: nat, lineSize: nat)
    requires RunsSet(c, i, h, assoc, lineSize) && PartOk(p, lineSize)
    ensures RunsSet(PieceL1(c, p, lineSize).0, i, h + UsesIn([p], i, |c|, lineSize), assoc, lineSize)
  {
    hide U.TouchUse, TagOf, U.RunUse, Block, SetNo, UsesOk, U.IsTag, M.RangeMask, M.LineSizeOk;
    var n := |c|;
    UseTag(p.line, n, lineSize);
    assert [p][1..] == [] && UsesIn([], i, n, lineSize) == [];
    if SetNo(Block(p.line, lineSize), n) == i {
      var r := U.UseRef(TagOf(p.line, n, lineSize), M.RangeMask(p.from, p.to, lineSize), p.line);
      assert UsesIn([p], i, n, lineSize) == [r];
      RunUseNext(h, r, assoc, n * lineSize);
    } else {
      assert h + UsesIn([p], i, n, lineSize) == h;
    }
  }

  lemma UsesInFirst(ps: seq<Piece>, i: nat, sets: nat, lineSize: nat)
    requires WayOk(sets, lineSize) && M.LineSizeOk(lineSize) && PartsOk(ps, lineSize) && ps != []
    ensures UsesIn(ps, i, sets, lineSize) == UsesIn([ps[0]], i, sets, lineSize) + UsesIn(ps[1..], i, sets, lineSize)
  {
    hide TagOf, Block, SetNo, PartOk, U.IsTag, M.RangeMask, M.LineSizeOk;
    assert [ps[0]][1..] == [] && UsesIn([], i, sets, lineSize) == [];
  }

  lemma {:induction false} LinesUseSet(v: Levels, ps: seq<Piece>, i: nat, h: seq<U.UseRef>, assoc: nat, lineSize: nat,
                                       llSize: nat)
    requires RunsSet(v.l1, i, h, assoc, lineSize) && UsesOk(v.ll, llSize) && PartsOk(ps, lineSize)
    ensures RunsSet(LinesUse(v, ps, lineSize, llSize).0.l1, i, h + UsesIn(ps, i, |v.l1|, lineSize), assoc, lineSize)
    decreases |ps|
  {
    hide PieceUse, PieceL1, UsesOk, PartOk, U.TagsOk, RunsSet, WayOk, M.LineSizeOk;
    RunsOk(v.l1, i, h, assoc, lineSize);
    if ps == [] {
      assert h + [] == h;
    } else {
      var w := PieceUse(v, ps[0], lineSize, llSize).0;
      PieceFirst(v, ps[0], lineSize, llSize);
      PieceRunsSet(v.l1, ps[0], i, h, assoc, lineSize);
      UsesInFirst(ps, i, |v.l1|, lineSize);
      var first, rest := UsesIn([ps[0]], i, |v.l1|, lineSize), UsesIn(ps[1..], i, |v.l1|, lineSize);
      LinesUseSet(w, ps[1..], i, h + first, assoc, lineSize, llSize);
      assert h + first + rest == h + (first + rest);
    }
  }

  lemma {:induction false} TraceUseSet(refs: seq<Access>, i: nat, sets: nat, assoc: nat, ll: seq<U.UseSet>,
                                       lineSize: nat, llSize: nat)
    requires L1Ok(sets, assoc, lineSize) && AccessesOk(refs, lineSize) && UsesOk(ll, llSize) && i < sets
    ensures RunsSet(RunTraceUse(refs, sets, assoc, ll, lineSize, llSize).l1, i, UsesOf(refs, i, sets, lineSize), assoc,
                    lineSize)
  {
    hide LinesUse, UsesIn, UsesOk, WayOk, Fits, U.TouchUse, M.LineSizeOk, U.Cleared;
    if refs != [] {
      var m := |refs| - 1;
      TraceUseSet(refs[..m], i, sets, assoc, ll, lineSize, llSize);
      SeenArePieces(refs[m].a, refs[m].size, lineSize, sets);
      LinesUseSet(RunTraceUse(refs[..m], sets, assoc, ll, lineSize, llSize),
        Seen(refs[m].a, refs[m].size, lineSize, sets), i, UsesOf(refs[..m], i, sets, lineSize), assoc, lineSize,
          llSize);
    }
  }

  /** After any trace on a cleared first level, whatever the last level holds, the slot of way j
      of set i records the uses of that way's line since it was brought in. */
  lemma CacheRecordsUses(refs: seq<Access>, i: nat, j: nat, sets: nat, assoc: nat, ll: seq<U.UseSet>, lineSize: nat,
                         llSize: nat)
    requires L1Ok(sets, assoc, lineSize) && AccessesOk(refs, lineSize) && UsesOk(ll, llSize) && i < sets && j < assoc
    ensures var (u, span) := (RunTraceUse(refs, sets, assoc, ll, lineSize, llSize).l1[i], sets * lineSize);
            && U.SetOk(u, span) && |u.ways| == assoc
            && U.WayRecorded(UsesOf(refs, i, sets, lineSize), assoc, u, span, j)
  {
    hide RunTraceUse, UsesOf, U.WayRecorded, U.SetOk, WayOk, Fits, M.LineSizeOk;
    TraceUseSet(refs, i, sets, assoc, ll, lineSize, llSize);
    U.SlotsRecordUses(UsesOf(refs, i, sets, lineSize), assoc, sets * lineSize, j);
  }

  // ------------------------------------------------------------------- answers

  datatype Geometry = Geometry(sets: nat, assoc: nat, line: nat, llSets: nat, llAssoc: nat, llLine: nat)

  ghost predicate GeometryOk(g: Geometry) {
    L1Ok(g.sets, g.assoc, g.line) && LevelFits(g.llSets, g.llAssoc, g.llLine)
  }

  /** Both levels, cleared before, after the lookups qs. */
  ghost function RunPieces(qs: seq<Piece>, g: Geometry): (v: Levels)
    requires GeometryOk(g) && PartsOk(qs, g.line)
    ensures UsesOk(v.l1, g.line) && UsesOk(v.ll, g.llLine) && |v.l1| == g.sets && |v.ll| == g.llSets
  {
    hide WayOk, M.LineSizeOk, UsesOk, PartOk, PieceUse;
    if qs == [] then Levels(ClearedSets(g.sets, g.assoc, g.line), ClearedSets(g.llSets, g.llAssoc, g.llLine))
    else PieceUse(RunPieces(qs[..|qs| - 1], g), qs[|qs| - 1], g.line, g.llLine).0
  }

  /** The line of p is in the first level: its tag is resident in its set after qs. */
  ghost predicate InL1(qs: seq<Piece>, p: Piece, g: Geometry)
    requires GeometryOk(g) && PartsOk(qs, g.line)
  {
    hide M.LineSizeOk, PartOk;
    UseTag(p.line, g.sets, g.line);
    var h := UsesIn(qs, p.line / g.line % g.sets, g.sets, g.line);
    Resident<UWord>(U.Tags(h), TagOf(p.line, g.sets, g.line), g.assoc, 0)
  }

  /** The lines that the last level is asked for: those not in the first level, but not line 0. */
  ghost function MissedLines(qs: seq<Piece>, g: Geometry): seq<UWord>
    requires GeometryOk(g) && PartsOk(qs, g.line)
  {
    if qs == [] then [] else
    var m := |qs| - 1;
    MissedLines(qs[..m], g) + if qs[m].line != 0 && !InL1(qs[..m], qs[m], g) then [qs[m].line] else []
  }

  /** The references that set j of a last level gets. */
  ghost function LinesOfSet(ls: seq<UWord>, j: nat, sets: nat, lineSize: nat): (h: seq<U.UseRef>)
    requires WayOk(sets, lineSize)
    ensures U.TagsOk(h, sets * lineSize)
  {
    if ls == [] then [] else
    var (m, l) := (|ls| - 1, ls[|ls| - 1]);
    UseTag(l, sets, lineSize);
    LinesOfSet(ls[..m], j, sets, lineSize)
    + if l / lineSize % sets == j then [U.UseRef(TagOf(l, sets, lineSize), 0, l)] else []
  }

  /** The line l is in the last level, after it was asked for the lines ls. */
  ghost predicate InLL(ls: seq<UWord>, l: UWord, g: Geometry)
    requires GeometryOk(g)
  {
    UseTag(l, g.llSets, g.llLine);
    var h := LinesOfSet(ls, l / g.llLine % g.llSets, g.llSets, g.llLine);
    Resident<UWord>(U.Tags(h), TagOf(l, g.llSets, g.llLine), g.llAssoc, 0)
  }

  lemma {:induction false} UsesInLast(qs: seq<Piece>, p: Piece, i: nat, sets: nat, lineSize: nat)
    requires WayOk(sets, lineSize) && M.LineSizeOk(lineSize) && PartsOk(qs, lineSize) && PartOk(p, lineSize)
    ensures PartsOk(qs + [p], lineSize)
    ensures UsesIn(qs + [p], i, sets, lineSize) == UsesIn(qs, i, sets, lineSize) + UsesIn([p], i, sets, lineSize)
    decreases |qs|
  {
    hide WayOk, M.LineSizeOk, PartOk, UsesIn;
    if qs == [] {
      assert qs + [p] == [p] && UsesIn(qs, i, sets, lineSize) == [] by { NoUses(i, sets, lineSize); }
    } else {
      UsesInLast(qs[1..], p, i, sets, lineSize);
      UsesInFirst(qs, i, sets, lineSize);
      UsesInFirst(qs + [p], i, sets, lineSize);
      assert (qs + [p])[1..] == qs[1..] + [p];
    }
  }

  lemma NoUses(i: nat, sets: nat, lineSize: nat)
    requires WayOk(sets, lineSize) && M.LineSizeOk(lineSize)
    ensures UsesIn([], i, sets, lineSize) == []
  {
  }

  lemma {:induction false} L1Runs(qs: seq<Piece>, i: nat, g: Geometry)
    requires GeometryOk(g) && PartsOk(qs, g.line) && i < g.sets
    ensures RunsSet(RunPieces(qs, g).l1, i, UsesIn(qs, i, g.sets, g.line), g.assoc, g.line)
  {
    hide WayOk, M.LineSizeOk, PartOk, UsesIn, UsesOk, U.TagsOk, PieceUse, PieceL1, U.RunUse;
    if qs == [] {
      NoUses(i, g.sets, g.line);
      ClearedRuns(i, g);
    } else {
      hide RunsSet;
      var m := |qs| - 1;
      var v := RunPieces(qs[..m], g);
      L1Runs(qs[..m], i, g);
      PieceFirst(v, qs[m], g.line, g.llLine);
      PieceRunsSet(v.l1, qs[m], i, UsesIn(qs[..m], i, g.sets, g.line), g.assoc, g.line);
      UsesInLast(qs[..m], qs[m], i, g.sets, g.line);
      assert qs[..m] + [qs[m]] == qs;
    }
  }

  lemma ClearedRuns(i: nat, g: Geometry)
    requires GeometryOk(g) && i < g.sets
    ensures RunsSet(RunPieces([], g).l1, i, [], g.assoc, g.line)
  {
    hide U.Cleared, M.LineSizeOk, UsesOk;
  }

  /** Whether a lookup hits the first level. */
  lemma HitsL1(qs: seq<Piece>, p: Piece, g: Geometry)
    requires GeometryOk(g) && PartsOk(qs, g.line) && PartOk(p, g.line)
    ensures PieceL1(RunPieces(qs, g).l1, p, g.line).1 <==> InL1(qs, p, g)
  {
    hide RunPieces, UsesIn, U.TagParts, Run, Window, Recent, TagOf, U.TouchUse, M.RangeMask, M.LineSizeOk, U.RunUse;
    var i, c := SetNo(Block(p.line, g.line), g.sets), RunPieces(qs, g).l1;
    L1Runs(qs, i, g);
    UseTag(p.line, g.sets, g.line);
    U.RunUseIsPlain(UsesIn(qs, i, g.sets, g.line), g.assoc, g.sets * g.line);
  }

  lemma RunLLNext(h: seq<U.UseRef>, r: U.UseRef, n: nat, span: nat)
    requires 0 < n <= span <= 0x1_0000_0000_0000_0000 && U.TagsOk(h, span) && U.IsTag(r.tag, span)
    ensures U.TagsOk(h + [r], span) && U.RunLL(h + [r], n, span) == U.TouchLL(U.RunLL(h, n, span), r, span)
  {
    hide U.IsTag, U.TouchLL;
    assert (h + [r])[..|h|] == h;
  }

  /** Set j of a last level is a run over h. */
  ghost predicate RunsLL(c: seq<U.UseSet>, j: nat, h: seq<U.UseRef>, assoc: nat, lineSize: nat) {
    && LevelFits(|c|, assoc, lineSize) && UsesOk(c, lineSize) && j < |c| && U.TagsOk(h, |c| * lineSize)
    && c[j] == U.RunLL(h, assoc, |c| * lineSize)
  }

  lemma LineRunsLL(c: seq<U.UseSet>, l: UWord, j: nat, ls: seq<UWord>, assoc: nat, lineSize: nat)
    requires WayOk(|c|, lineSize) && RunsLL(c, j, LinesOfSet(ls, j, |c|, lineSize), assoc, lineSize)
    ensures RunsLL(LineLL(c, l, lineSize).0, j, LinesOfSet(ls + [l], j, |c|, lineSize), assoc, lineSize)
  {
    hide U.TouchLL, TagOf, U.RunLL, UsesOk, U.IsTag;
    var n := |c|;
    UseTag(l, n, lineSize);
    assert (ls + [l])[..|ls|] == ls;
    var h := LinesOfSet(ls, j, n, lineSize);
    if l / lineSize % n == j {
      RunLLNext(h, U.UseRef(TagOf(l, n, lineSize), 0, l), assoc, n * lineSize);
    } else {
      assert h + [] == h;
    }
  }

  lemma PieceSecond(v: Levels, p: Piece, lineSize: nat, llSize: nat)
    requires UsesOk(v.l1, lineSize) && UsesOk(v.ll, llSize) && M.LineSizeOk(lineSize) && PartOk(p, lineSize)
    ensures var (w, hit) := (PieceUse(v, p, lineSize, llSize), PieceL1(v.l1, p, lineSize).1);
            if hit then w.0.ll == v.ll && w.1 == L1_Hit
            else if p.line == 0 then w.0.ll == v.ll && w.1 == LL_Hit
            else w.0.ll == LineLL(v.ll, p.line, llSize).0
                 && w.1 == if LineLL(v.ll, p.line, llSize).1 then LL_Hit else MemAccess
  {
    hide PieceL1, LineLL;
  }

  lemma {:induction false} LLRuns(qs: seq<Piece>, j: nat, g: Geometry)
    requires GeometryOk(g) && PartsOk(qs, g.line) && j < g.llSets
    ensures WayOk(g.llSets, g.llLine)
    ensures RunsLL(RunPieces(qs, g).ll, j, LinesOfSet(MissedLines(qs, g), j, g.llSets, g.llLine), g.llAssoc, g.llLine)
  {
    hide M.LineSizeOk, PartOk, UsesOk, U.TagsOk, PieceUse, PieceL1, LineLL, U.RunLL, InL1;
    if qs == [] {
      ClearedRunsLL(j, g);
    } else {
      hide RunsLL, LinesOfSet, WayOk;
      var m := |qs| - 1;
      var v := RunPieces(qs[..m], g);
      LLRuns(qs[..m], j, g);
      HitsL1(qs[..m], qs[m], g);
      PieceSecond(v, qs[m], g.line, g.llLine);
      var ls := MissedLines(qs[..m], g);
      if qs[m].line != 0 && !InL1(qs[..m], qs[m], g) {
        LineRunsLL(v.ll, qs[m].line, j, ls, g.llAssoc, g.llLine);
      } else {
        assert ls + [] == ls;
      }
    }
  }

  lemma ClearedRunsLL(j: nat, g: Geometry)
    requires GeometryOk(g) && j < g.llSets
    ensures RunsLL(RunPieces([], g).ll, j, [], g.llAssoc, g.llLine)
  {
    hide U.Cleared, M.LineSizeOk, UsesOk;
  }

  lemma HitsLL(qs: seq<Piece>, l: UWord, g: Geometry)
    requires GeometryOk(g) && PartsOk(qs, g.line)
    ensures LineLL(RunPieces(qs, g).ll, l, g.llLine).1 <==> InLL(MissedLines(qs, g), l, g)
  {
    hide RunPieces, MissedLines, LinesOfSet, U.TagParts, Run, Window, Recent, TagOf, U.TouchLL, M.LineSizeOk, U.RunLL,
         U.RunUse;
    var j := SetNo(Block(l, g.llLine), g.llSets);
    var h := LinesOfSet(MissedLines(qs, g), j, g.llSets, g.llLine);
    LLRuns(qs, j, g);
    UseTag(l, g.llSets, g.llLine);
    U.RunLLIsRunUse(h, g.llAssoc, g.llSets * g.llLine);
    U.RunUseIsPlain(h, g.llAssoc, g.llSets * g.llLine);
  }

  /** The answer to a lookup, after any lookups from cleared levels: a first-level hit exactly if its
      line is in the first level; else a last-level hit exactly if it is the line at address 0 or is
      in the last level, which has seen what missed in the first; else an access to memory. */
  lemma AnswerIs(qs: seq<Piece>, p: Piece, g: Geometry)
    requires GeometryOk(g) && PartsOk(qs, g.line) && PartOk(p, g.line)
    ensures PieceUse(RunPieces(qs, g), p, g.line, g.llLine).1
            == if InL1(qs, p, g) then L1_Hit
               else if p.line == 0 || InLL(MissedLines(qs, g), p.line, g) then LL_Hit
               else MemAccess
  {
    hide RunPieces, MissedLines, PieceUse, PieceL1, LineLL, InL1, InLL, PartOk, M.LineSizeOk, WayOk, UsesOk;
    HitsL1(qs, p, g);
    HitsLL(qs, p.line, g);
    PieceSecond(RunPieces(qs, g), p, g.line, g.llLine);
  }

  /** The lookups of a trace of accesses. */
  ghost function PiecesOf(refs: seq<Access>, g: Geometry): (qs: seq<Piece>)
    requires GeometryOk(g) && AccessesOk(refs, g.line)
    ensures PartsOk(qs, g.line)
  {
    hide PartOk, M.LineSizeOk, Fits;
    if refs == [] then [] else
    var m := |refs| - 1;
    SeenArePieces(refs[m].a, refs[m].size, g.line, g.sets);
    PiecesOf(refs[..m], g) + Seen(refs[m].a, refs[m].size, g.line, g.sets)
  }

  lemma RunTwo(qs: seq<Piece>, ps: seq<Piece>, g: Geometry)
    requires GeometryOk(g) && PartsOk(qs, g.line) && PartsOk(ps, g.line) && 1 <= |ps| <= 2
    ensures PartsOk(qs + ps, g.line)
            && RunPieces(qs + ps, g) == LinesUse(RunPieces(qs, g), ps, g.line, g.llLine).0
  {
    hide PieceUse, PartOk, M.LineSizeOk, WayOk, UsesOk;
    OneOrTwoUse(RunPieces(qs, g), ps, g.line, g.llLine);
    RunOne(qs, ps[0], g);
    if |ps| == 2 {
      RunOne(qs + [ps[0]], ps[1], g);
      assert qs + [ps[0]] + [ps[1]] == qs + ps;
    } else {
      assert [ps[0]] == ps;
    }
  }

  lemma RunOne(qs: seq<Piece>, p: Piece, g: Geometry)
    requires GeometryOk(g) && PartsOk(qs, g.line) && PartOk(p, g.line)
    ensures PartsOk(qs + [p], g.line)
            && RunPieces(qs + [p], g) == PieceUse(RunPieces(qs, g), p, g.line, g.llLine).0
  {
    hide PieceUse, PartOk, M.LineSizeOk, WayOk, UsesOk;
    assert (qs + [p])[..|qs|] == qs;
  }

  lemma {:induction false} TraceIsPieces(refs: seq<Access>, g: Geometry)
    requires GeometryOk(g) && AccessesOk(refs, g.line)
    ensures RunTraceUse(refs, g.sets, g.assoc, ClearedSets(g.llSets, g.llAssoc, g.llLine), g.line, g.llLine)
            == RunPieces(PiecesOf(refs, g), g)
  {
    hide PartOk, M.LineSizeOk, WayOk, UsesOk, Fits, LinesUse, PieceUse;
    if refs != [] {
      var m := |refs| - 1;
      TraceIsPieces(refs[..m], g);
      SeenArePieces(refs[m].a, refs[m].size, g.line, g.sets);
      RunTwo(PiecesOf(refs[..m], g), Seen(refs[m].a, refs[m].size, g.line, g.sets), g);
    }
  }

  /** An access to memory for the lookup p after qs. */
  ghost predicate ToMemory(qs: seq<Piece>, p: Piece, g: Geometry)
    requires GeometryOk(g) && PartsOk(qs, g.line)
  {
    !InL1(qs, p, g) && p.line != 0 && !InLL(MissedLines(qs, g), p.line, g)
  }

  /** The answer to a whole access after any trace from cleared levels: it is an access to memory
      exactly if one of its lookups is, and a first-level hit exactly if all of them are. */
  lemma AccessAnswerIs(refs: seq<Access>, x: Access, g: Geometry)
    requires GeometryOk(g) && AccessesOk(refs, g.line) && Fits(x.a, x.size, g.line)
    ensures var v := RunTraceUse(refs, g.sets, g.assoc, ClearedSets(g.llSets, g.llAssoc, g.llLine), g.line, g.llLine);
            var (qs, ps) := (PiecesOf(refs, g), Seen(x.a, x.size, g.line, g.sets));
            && 1 <= |ps| <= 2 && PartsOk(ps, g.line) && PartsOk(qs + [ps[0]], g.line)
            && var r := LinesUse(v, ps, g.line, g.llLine).1;
               && (r == MemAccess <==> ToMemory(qs, ps[0], g) || (|ps| == 2 && ToMemory(qs + [ps[0]], ps[1], g)))
               && (r == L1_Hit <==> InL1(qs, ps[0], g) && (|ps| == 2 ==> InL1(qs + [ps[0]], ps[1], g)))
  {
    hide PartOk, M.LineSizeOk, WayOk, UsesOk, Fits, LinesUse, PieceUse, RunTraceUse, InL1, InLL, MissedLines, RunPieces;
    var qs, ps := PiecesOf(refs, g), Seen(x.a, x.size, g.line, g.sets);
    SeenArePieces(x.a, x.size, g.line, g.sets);
    TraceIsPieces(refs, g);
    OneOrTwoUse(RunPieces(qs, g), ps, g.line, g.llLine);
    AnswerIs(qs, ps[0], g);
    RunOne(qs, ps[0], g);
    if |ps| == 2 { AnswerIs(qs + [ps[0]], ps[1], g); }
  }
}
