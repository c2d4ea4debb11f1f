/** The set-associative cache simulator: tags in one array, sets as slices of it,
    accesses that may straddle two lines, and the two-level lookups built on them. */
module CacheSim {
  import opened Lru
  import opened Arith

  type UWord = x: int | 0 <= x < 0x1_0000_0000_0000_0000

  type Sets = seq<seq<UWord>>

  ghost predicate SetsOk(c: Sets, assoc: nat) {
    |c| > 0 && assoc > 0 && forall i :: 0 <= i < |c| ==> |c[i]| == assoc
  }

  /** An empty cache: every tag is 0. */
  function Empty(sets: nat, assoc: nat): (c: Sets) {
    seq(sets, _ => Window<UWord>([], assoc, 0))
  }

  function SetNo(b: UWord, sets: nat): (i: nat)
    requires sets > 0
    ensures i < sets
  {
    b % sets
  }

  /** A reference to one memory block; the block number is the tag. */
  function RefBlock(c: Sets, b: UWord, ghost assoc: nat): (d: Sets)
    requires SetsOk(c, assoc)
    ensures SetsOk(d, assoc) && |d| == |c|
  {
    var i := SetNo(b, |c|);
    c[i := Touch(c[i], b)]
  }

  predicate MissBlock(c: Sets, b: UWord)
    requires |c| > 0
  {
    b !in c[SetNo(b, |c|)]
  }

  function Block(a: UWord, lineSize: nat): (b: UWord)
    requires lineSize > 0
  {
    a / lineSize
  }

  /** An access as the simulator takes it: not wrapping around, at most two lines. */
  ghost predicate Fits(a: UWord, size: nat, lineSize: nat) {
    0 < size <= lineSize && a + size - 1 < 0x1_0000_0000_0000_0000
  }

  lemma AtMostTwoLines(a: UWord, size: nat, lineSize: nat)
    requires Fits(a, size, lineSize)
    ensures Block(a, lineSize) <= Block(a + size - 1, lineSize) <= Block(a, lineSize) + 1
  {
    var q, r := a / lineSize, a % lineSize;
    assert a == q * lineSize + r;
    Quotient(a + size - 1, lineSize, if r + size - 1 < lineSize then q
      else q + 1, if r + size - 1 < lineSize then r + size - 1 else r + size - 1 - lineSize);
  }

  /** An access: both its lines are referenced, and it misses if one of them does. */
  function Ref(c: Sets, a: UWord, size: nat, lineSize: nat, ghost assoc: nat): (r: (Sets, bool))
    requires SetsOk(c, assoc) && Fits(a, size, lineSize)
    ensures SetsOk(r.0, assoc) && |r.0| == |c|
  {
    var b1, b2 := Block(a, lineSize), Block(a + size - 1, lineSize);
    var c1 := RefBlock(c, b1, assoc);
    if b1 == b2 then (c1, MissBlock(c, b1))
    else (RefBlock(c1, b2, assoc), MissBlock(c, b1) || MissBlock(c1, b2))
  }

  lemma SetBounds(i: nat, sets: nat, assoc: nat)
    requires i < sets
    ensures i * assoc + assoc <= sets * assoc
  {
    assert (i + 1) * assoc <= sets * assoc;
  }

  /** Set number i of a tag array. */
  function SetIn<T>(tags: seq<T>, i: nat, sets: nat, assoc: nat): (s: seq<T>)
    requires i < sets && |tags| == sets * assoc
    ensures |s| == assoc
  {
    SetBounds(i, sets, assoc);
    tags[i * assoc..i * assoc + assoc]
  }

  /** Writing one element of one set leaves the other sets alone. */
  lemma SetInUpdated<T>(t: seq<T>, no: nat, slot: nat, v: T, i: nat, sets: nat, assoc: nat)
    requires no < sets && i < sets && slot < assoc && |t| == sets * assoc
    ensures no * assoc + slot < |t|
    ensures SetIn(t[no * assoc + slot := v], i, sets, assoc) == if i == no then SetIn(t, i, sets, assoc)[slot := v]
            else SetIn(t, i, sets, assoc)
  {
    SetBounds(no, sets, assoc);
    SetBounds(i, sets, assoc);
    if i < no { SetBounds(i, no, assoc); } else if no < i { SetBounds(no, i, assoc); }
  }

  function SetsIn(tags: seq<UWord>, sets: nat, assoc: nat): (c: Sets)
    requires sets > 0 && assoc > 0 && |tags| == sets * assoc
    ensures SetsOk(c, assoc) && |c| == sets
  {
    seq(sets, i requires 0 <= i < sets => SetIn(tags, i, sets, assoc))
  }

  /** u is t with the first k tags of the set at base moved down and tag put in front. */
  ghost predicate Moved(t: seq<UWord>, u: seq<UWord>, base: nat, k: nat, tag: UWord) {
    |t| == |u| && forall j {:trigger u[j]} :: 0 <= j < |t| ==> u[j] == if j == base then tag
      else if base < j <= base + k then t[j - 1] else t[j]
  }

  lemma MovedSlice(t: seq<UWord>, u: seq<UWord>, base: nat, assoc: nat, k: nat, tag: UWord)
    requires k < assoc && base + assoc <= |t| && Moved(t, u, base, k, tag)
    ensures u[base..base + assoc] == Shuffle(t[base..base + assoc], k, tag)
  {
    hide Shuffle;
    var s, v := t[base..base + assoc], u[base..base + assoc];
    forall j | 0 <= j < assoc ensures v[j] == Shuffle(s, k, tag)[j] {
      ShuffleAt(s, k, tag, j);
      assert v[j] == u[base + j];
    }
  }

  lemma OtherSlice(t: seq<UWord>, u: seq<UWord>, base: nat, k: nat, tag: UWord, lo: nat, hi: nat)
    requires Moved(t, u, base, k, tag) && lo <= hi <= |t| && (hi <= base || base + k < lo)
    ensures u[lo..hi] == t[lo..hi]
  {
  }

  lemma MovedSet(t: seq<UWord>, u: seq<UWord>, sets: nat, assoc: nat, no: nat, k: nat, tag: UWord)
    requires |t| == sets * assoc && no < sets && k < assoc
    requires Moved(t, u, no * assoc, k, tag)
    ensures SetIn(u, no, sets, assoc) == Shuffle(SetIn(t, no, sets, assoc), k, tag)
  {
    SetBounds(no, sets, assoc);
    MovedSlice(t, u, no * assoc, assoc, k, tag);
  }

  lemma OtherSet(t: seq<UWord>, u: seq<UWord>, sets: nat, assoc: nat, no: nat, k: nat, tag: UWord, i: nat)
    requires |t| == sets * assoc && no < sets && i < sets && i != no && k < assoc
    requires Moved(t, u, no * assoc, k, tag)
    ensures SetIn(u, i, sets, assoc) == SetIn(t, i, sets, assoc)
  {
    hide Moved;
    SetBounds(i, sets, assoc);
    if i < no { SetBounds(i, no, assoc); } else { SetBounds(no, i, assoc); }
    assert |u| == |t| by { MovedLength(t, u, no * assoc, k, tag); }
    OtherSlice(t, u, no * assoc, k, tag, i * assoc, i * assoc + assoc);
  }

  /** Moving the first tags of one set down and putting tag in front shuffles that set only. */
  lemma TouchedSets(t: seq<UWord>, u: seq<UWord>, sets: nat, assoc: nat, no: nat, k: nat, tag: UWord)
    requires |t| == sets * assoc && no < sets && k < assoc
    requires Moved(t, u, no * assoc, k, tag)
    ensures SetsIn(u, sets, assoc) == SetsIn(t, sets, assoc)[no := Shuffle(SetIn(t, no, sets, assoc), k, tag)]
  {
    hide Shuffle, Moved, SetIn;
    MovedSet(t, u, sets, assoc, no, k, tag);
    assert |u| == |t| by { MovedLength(t, u, no * assoc, k, tag); }
    forall i | 0 <= i < sets && i != no ensures SetIn(u, i, sets, assoc) == SetIn(t, i, sets, assoc) {
      OtherSet(t, u, sets, assoc, no, k, tag, i);
    }
  }

  lemma MovedLength(t: seq<UWord>, u: seq<UWord>, base: nat, k: nat, tag: UWord)
    requires Moved(t, u, base, k, tag)
    ensures |u| == |t|
  {
  }

  /** Move the first k tags of the set at base down one place. */
  method ShuffleDown(tags: array<UWord>, base: nat, k: nat)
    requires base + k < tags.Length
    modifies tags
    ensures forall j :: 0 <= j < tags.Length ==> tags[j] == if base < j <= base + k then old(tags[j - 1])
            else old(tags[j])
  {
    var j := k;
    while j > 0
      invariant 0 <= j <= k
      invariant forall i :: 0 <= i < tags.Length ==> tags[i] == if base + j < i <= base + k then old(tags[i - 1])
                else old(tags[i])
    {
      tags[base + j] := tags[base + j - 1];
      j := j - 1;
    }
  }

  class CacheT2 {
    const assoc: nat
    const sets: nat
    const line_size: nat
    const tags: array<UWord>

    ghost predicate Valid() {
      assoc > 0 && sets > 0 && line_size > 0 && tags.Length == sets * assoc
    }

    ghost function Sets(): (c: Sets)
      requires Valid()
      reads tags
      ensures SetsOk(c, assoc) && |c| == sets
    {
      SetsIn(tags[..], sets, assoc)
    }

    constructor (sets: nat, assoc: nat, line_size: nat)
      requires sets > 0 && assoc > 0 && line_size > 0
      ensures Valid() && this.sets == sets && this.assoc == assoc && this.line_size == line_size && fresh(tags)
      ensures Sets() == Empty(sets, assoc)
    {
      this.sets := sets;
      this.assoc := assoc;
      this.line_size := line_size;
      tags := new UWord[sets * assoc](_ => 0);
      new;
      forall i | 0 <= i < sets ensures SetIn(tags[..], i, sets, assoc)
        == Window<UWord>([], assoc, 0) { SetBounds(i, sets, assoc); }
    }

    /** A reference to a tag within one set; the result says whether it missed. */
    method SetrefIsMiss(set_no: nat, tag: UWord) returns (miss: bool)
      requires Valid() && set_no < sets
      modifies tags
      ensures Sets() == old(Sets())[set_no := Touch(old(Sets())[set_no], tag)]
      ensures miss <==> tag !in old(Sets())[set_no]
    {
      hide SetsOk;
      SetBounds(set_no, sets, assoc);
      var base := set_no * assoc;
      ghost var t := tags[..];
      ghost var s := SetIn(t, set_no, sets, assoc);
      if tag == tags[base] {
        PositionIs(s, tag, 0);
        TouchedSets(t, tags[..], sets, assoc, set_no, 0, tag);
        return false;
      }
      var i := 1;
      while i < assoc
        invariant 1 <= i <= assoc && forall j :: 0 <= j < i ==> s[j] != tag
      {
        if tag == tags[base + i] {
          PositionIs(s, tag, i);
          ShuffleDown(tags, base, i);
          tags[base] := tag;
          TouchedSets(t, tags[..], sets, assoc, set_no, i, tag);
          return false;
        }
        i := i + 1;
      }
      ShuffleDown(tags, base, assoc - 1);
      tags[base] := tag;
      TouchedSets(t, tags[..], sets, assoc, set_no, assoc - 1, tag);
      miss := true;
    }

    /** An access of size bytes at address a; always references every line it touches. */
    method RefIsMiss(a: UWord, size: nat) returns (miss: bool)
      requires Valid() && Fits(a, size, line_size)
      modifies tags
      ensures (Sets(), miss) == Ref(old(Sets()), a, size, line_size, assoc)
    {
      hide Touch;
      AtMostTwoLines(a, size, line_size);
      var block1, block2 := Block(a, line_size), Block(a + size - 1, line_size);
      var set1 := SetNo(block1, sets);
      if block1 == block2 {
        miss := SetrefIsMiss(set1, block1);
      } else {
        assert block1 + 1 == block2;
        var set2 := SetNo(block2, sets);
        var miss1 := SetrefIsMiss(set1, block1);
        if miss1 {
          var _ := SetrefIsMiss(set2, block2);
          return true;
        }
        miss := SetrefIsMiss(set2, block2);
      }
    }
  }

  // ------------------------------------------------------------ whole traces

  /** The cache after references to the blocks bs. */
  function RunBlocks(c: Sets, bs: seq<UWord>, ghost assoc: nat): (d: Sets)
    requires SetsOk(c, assoc)
    ensures SetsOk(d, assoc) && |d| == |c|
  {
    if bs == [] then c else RefBlock(RunBlocks(c, bs[..|bs| - 1], assoc), bs[|bs| - 1], assoc)
  }

  /** The blocks of bs that belong to set i. */
  function OfSet(bs: seq<UWord>, i: nat, sets: nat): seq<UWord>
    requires i < sets
  {
    if bs == [] then [] else
    OfSet(bs[..|bs| - 1], i, sets) + if SetNo(bs[|bs| - 1], sets) == i then [bs[|bs| - 1]] else []
  }

  /** After any trace on an empty cache each set holds the blocks of its own most recently
      used, newest first, the zero fill counting as one earlier use of block 0. */
  lemma {:induction false} CacheIsRecent(bs: seq<UWord>, i: nat, sets: nat, assoc: nat)
    requires i < sets && assoc > 0
    ensures RunBlocks(Empty(sets, assoc), bs, assoc)[i] == Window(Recent<UWord>([0] + OfSet(bs, i, sets)), assoc, 0)
  {
    hide Touch, Window, Recent;
    RunIsRecent<UWord>(OfSet(bs, i, sets), assoc, 0);
    CacheSetIsRun(bs, i, sets, assoc);
  }

  lemma {:induction false} CacheSetIsRun(bs: seq<UWord>, i: nat, sets: nat, assoc: nat)
    requires i < sets && assoc > 0
    ensures RunBlocks(Empty(sets, assoc), bs, assoc)[i] == Run(Window<UWord>([], assoc, 0), OfSet(bs, i, sets))
  {
    hide Touch, Window;
    if bs != [] {
      CacheSetIsRun(bs[..|bs| - 1], i, sets, assoc);
      var h := OfSet(bs[..|bs| - 1], i, sets);
      if SetNo(bs[|bs| - 1], sets) == i {
        assert OfSet(bs, i, sets) == h + [bs[|bs| - 1]];
        assert (h + [bs[|bs| - 1]])[..|h|] == h;
      } else {
        assert OfSet(bs, i, sets) == h;
      }
    }
  }

  /** A block hits exactly when it was used before and fewer than assoc other blocks of its
      set were used since. */
  lemma CacheHitIffFewSince(bs: seq<UWord>, b: UWord, sets: nat, assoc: nat)
    requires sets > 0 && assoc > 0
    ensures var h: seq<UWord> := [0] + OfSet(bs, SetNo(b, sets), sets);
            !MissBlock(RunBlocks(Empty(sets, assoc), bs, assoc), b) <==> b in h && |Since(h, b)| < assoc
  {
    hide Touch, Window, Since;
    var i := SetNo(b, sets);
    CacheSetIsRun(bs, i, sets, assoc);
    HitIffFewSince<UWord>(OfSet(bs, i, sets), b, assoc, 0);
  }

  /** An empty cache after references to the blocks bs. */
  function AfterBlocks(bs: seq<UWord>, sets: nat, assoc: nat): (c: Sets)
    requires sets > 0 && assoc > 0
    ensures SetsOk(c, assoc) && |c| == sets
  {
    RunBlocks(Empty(sets, assoc), bs, assoc)
  }

  /** Block b has been used, and fewer than assoc other blocks of its set since. */
  predicate UsedLately(bs: seq<UWord>, b: UWord, sets: nat, assoc: nat)
    requires sets > 0
  {
    var h: seq<UWord> := [0] + OfSet(bs, b % sets, sets);
    b in h && |Since(h, b)| < assoc
  }

  /** An access misses exactly when one of its lines has not been used lately; of the second one, if
      there are two, after the use of the first. */
  lemma AccessMissIff(bs: seq<UWord>, a: UWord, size: nat, lineSize: nat, sets: nat, assoc: nat)
    requires sets > 0 && assoc > 0 && Fits(a, size, lineSize)
    ensures var (b1, b2) := (a / lineSize, (a + size - 1) / lineSize);
            Ref(AfterBlocks(bs, sets, assoc), a, size, lineSize, assoc).1
            <==> || !UsedLately(bs, b1, sets, assoc)
                 || (b2 != b1 && !UsedLately(bs + [b1], b2, sets, assoc))
  {
    hide Touch, Window, Since, OfSet, SetsOk, RunBlocks;
    var b1, b2 := Block(a, lineSize), Block(a + size - 1, lineSize);
    var c := AfterBlocks(bs, sets, assoc);
    LatelyIsHit(bs, b1, sets, assoc);
    LatelyIsHit(bs + [b1], b2, sets, assoc);
    AfterNext(bs, b1, sets, assoc);
  }

  lemma AfterNext(bs: seq<UWord>, b: UWord, sets: nat, assoc: nat)
    requires sets > 0 && assoc > 0
    ensures AfterBlocks(bs + [b], sets, assoc) == RefBlock(AfterBlocks(bs, sets, assoc), b, assoc)
  {
    assert (bs + [b])[..|bs|] == bs;
  }

  lemma LatelyIsHit(bs: seq<UWord>, b: UWord, sets: nat, assoc: nat)
    requires sets > 0 && assoc > 0
    ensures MissBlock(AfterBlocks(bs, sets, assoc), b) <==> !UsedLately(bs, b, sets, assoc)
  {
    hide Touch, Window, Since, OfSet;
    CacheHitIffFewSince(bs, b, sets, assoc);
  }

  // --------------------------------------------------------------- inclusion

  /** Every set of c is the first ways of the same set of d. */
  ghost predicate Included(c: Sets, d: Sets, assoc: nat, more: nat) {
    SetsOk(c, assoc) && SetsOk(d, more) && |c| == |d| && assoc <= more
    && forall i :: 0 <= i < |c| ==> c[i] == d[i][..assoc]
  }

  lemma IncludedBlock(c: Sets, d: Sets, b: UWord, assoc: nat, more: nat)
    requires Included(c, d, assoc, more)
    ensures Included(RefBlock(c, b, assoc), RefBlock(d, b, more), assoc, more)
    ensures MissBlock(d, b) ==> MissBlock(c, b)
  {
    TouchPrefix(d[SetNo(b, |d|)], b, assoc);
  }

  datatype Access = Access(a: UWord, size: nat)

  /** The cache after the accesses, and how many of them missed. */
  ghost function RunRefs(c: Sets, refs: seq<Access>, lineSize: nat, assoc: nat): (r: (Sets, nat))
    requires SetsOk(c, assoc) && forall i :: 0 <= i < |refs| ==> Fits(refs[i].a, refs[i].size, lineSize)
    ensures SetsOk(r.0, assoc) && |r.0| == |c|
  {
    if refs == [] then (c, 0) else
    var m := |refs| - 1;
    var (d, misses) := RunRefs(c, refs[..m], lineSize, assoc);
    var (e, miss) := Ref(d, refs[m].a, refs[m].size, lineSize, assoc);
    (e, misses + if miss then 1 else 0)
  }

  /** The accesses that miss. */
  ghost function MissesAt(c: Sets, refs: seq<Access>, lineSize: nat, assoc: nat): set<nat>
    requires SetsOk(c, assoc) && forall i :: 0 <= i < |refs| ==> Fits(refs[i].a, refs[i].size, lineSize)
  {
    set i: nat | i < |refs| && Ref(RunRefs(c, refs[..i], lineSize, assoc).0, refs[i].a, refs[i].size, lineSize, assoc).1
  }

  lemma MissesNext(c: Sets, refs: seq<Access>, lineSize: nat, assoc: nat)
    requires SetsOk(c, assoc) && forall i :: 0 <= i < |refs| ==> Fits(refs[i].a, refs[i].size, lineSize)
    requires refs != []
    ensures var (m, before) := (|refs| - 1, MissesAt(c, refs[..|refs| - 1], lineSize, assoc));
            var miss := Ref(RunRefs(c, refs[..m], lineSize, assoc).0, refs[m].a, refs[m].size, lineSize, assoc).1;
            m !in before && MissesAt(c, refs, lineSize, assoc) == if miss then before + {m} else before
  {
    hide Ref, SetsOk, Fits, RunRefs;
    var m := |refs| - 1;
    forall i: nat | i < m
      ensures refs[..m][..i] == refs[..i]
    {
    }
  }

  lemma {:induction false} MissesCounted(c: Sets, refs: seq<Access>, lineSize: nat, assoc: nat)
    requires SetsOk(c, assoc) && forall i :: 0 <= i < |refs| ==> Fits(refs[i].a, refs[i].size, lineSize)
    ensures RunRefs(c, refs, lineSize, assoc).1 == |MissesAt(c, refs, lineSize, assoc)|
  {
    hide Ref, SetsOk, Fits, MissesAt;
    if refs == [] {
      assert MissesAt(c, refs, lineSize, assoc) == {} by { NoMisses(c, lineSize, assoc); }
    } else {
      MissesNext(c, refs, lineSize, assoc);
      MissesCounted(c, refs[..|refs| - 1], lineSize, assoc);
    }
  }

  lemma NoMisses(c: Sets, lineSize: nat, assoc: nat)
    requires SetsOk(c, assoc)
    ensures MissesAt(c, [], lineSize, assoc) == {}
  {
  }

  /** With equal sets and line size, a cache of lower associativity holds at every moment the
      first ways of one of higher associativity, so raising associativity never adds misses. */
  lemma {:induction false} StackInclusion(c: Sets, d: Sets, refs: seq<Access>, lineSize: nat, assoc: nat, more: nat)
    requires Included(c, d, assoc, more)
    requires forall i :: 0 <= i < |refs| ==> Fits(refs[i].a, refs[i].size, lineSize)
    ensures Included(RunRefs(c, refs, lineSize, assoc).0, RunRefs(d, refs, lineSize, more).0, assoc, more)
    ensures RunRefs(d, refs, lineSize, more).1 <= RunRefs(c, refs, lineSize, assoc).1
  {
    hide Included, RefBlock, MissBlock;
    IncludedOk(c, d, assoc, more);
    if refs != [] {
      var m := |refs| - 1;
      StackInclusion(c, d, refs[..m], lineSize, assoc, more);
      var x, y := RunRefs(c, refs[..m], lineSize, assoc).0, RunRefs(d, refs[..m], lineSize, more).0;
      IncludedOk(x, y, assoc, more);
      var b1, b2 := Block(refs[m].a, lineSize), Block(refs[m].a + refs[m].size - 1, lineSize);
      IncludedBlock(x, y, b1, assoc, more);
      IncludedBlock(RefBlock(x, b1, assoc), RefBlock(y, b1, more), b2, assoc, more);
    }
  }

  lemma IncludedOk(c: Sets, d: Sets, assoc: nat, more: nat)
    requires Included(c, d, assoc, more)
    ensures SetsOk(c, assoc) && SetsOk(d, more) && |c| == |d|
  {
  }

  /** The blocks of a trace: two for an access that straddles. */
  function BlocksOf(refs: seq<Access>, lineSize: nat): seq<UWord>
    requires forall i :: 0 <= i < |refs| ==> Fits(refs[i].a, refs[i].size, lineSize)
  {
    if refs == [] then [] else
    var m := |refs| - 1;
    assert Fits(refs[m].a, refs[m].size, lineSize);
    var b1, b2 := Block(refs[m].a, lineSize), Block(refs[m].a + refs[m].size - 1, lineSize);
    BlocksOf(refs[..m], lineSize) + if b1 == b2 then [b1] else [b1, b2]
  }

  lemma {:induction false} RefsAreBlocks(c: Sets, refs: seq<Access>, lineSize: nat, assoc: nat)
    requires SetsOk(c, assoc) && forall i :: 0 <= i < |refs| ==> Fits(refs[i].a, refs[i].size, lineSize)
    ensures RunRefs(c, refs, lineSize, assoc).0 == RunBlocks(c, BlocksOf(refs, lineSize), assoc)
  {
    hide RefBlock, MissBlock;
    if refs != [] {
      var m := |refs| - 1;
      RefsAreBlocks(c, refs[..m], lineSize, assoc);
      var bs, b1, b2 := BlocksOf(refs[..m], lineSize), Block(refs[m].a, lineSize),
        Block(refs[m].a + refs[m].size - 1, lineSize);
      assert (bs + [b1])[..|bs|] == bs;
      assert (bs + [b1, b2])[..|bs| + 1] == bs + [b1];
    }
  }

  // -------------------------------------------------------- the two-level model

  /** A cache with its geometry. */
  datatype Cache = Cache(sets: Sets, assoc: nat, lineSize: nat)

  ghost predicate CacheOk(c: Cache) {
    SetsOk(c.sets, c.assoc) && c.lineSize > 0
  }

  function Look(c: Cache, a: UWord, size: nat): (r: (Cache, bool))
    requires CacheOk(c) && Fits(a, size, c.lineSize)
    ensures CacheOk(r.0) && SameGeometry(r.0, c)
  {
    var (s, miss) := Ref(c.sets, a, size, c.lineSize, c.assoc);
    (c.(sets := s), miss)
  }

  ghost predicate SameGeometry(c: Cache, d: Cache) {
    c.assoc == d.assoc && c.lineSize == d.lineSize && |c.sets| == |d.sets|
  }

  /** What a lookup does: the new caches, and whether it missed in L1 and in LL. */
  datatype Result = Result(l1: Cache, ll: Cache, m1: bool, mL: bool)

  /** Look in L1, and only on a miss in LL. */
  function DoRef(l1: Cache, ll: Cache, a: UWord, size: nat): (r: Result)
    requires CacheOk(l1) && CacheOk(ll) && Fits(a, size, l1.lineSize) && Fits(a, size, ll.lineSize)
    ensures CacheOk(r.l1) && CacheOk(r.ll) && SameGeometry(r.l1, l1) && SameGeometry(r.ll, ll)
  {
    var (x, miss1) := Look(l1, a, size);
    if !miss1 then Result(x, ll, false, false) else
    var (y, missL) := Look(ll, a, size);
    Result(x, y, true, missL)
  }

  /** The special case that references one block of L1's line size in both caches. */
  function DoRefNoX(l1: Cache, ll: Cache, a: UWord): (r: Result)
    requires CacheOk(l1) && CacheOk(ll)
    ensures CacheOk(r.l1) && CacheOk(r.ll) && SameGeometry(r.l1, l1) && SameGeometry(r.ll, ll)
  {
    var block := Block(a, l1.lineSize);
    var x := l1.(sets := RefBlock(l1.sets, block, l1.assoc));
    if !MissBlock(l1.sets, block) then Result(x, ll, false, false) else
    Result(x, ll.(sets := RefBlock(ll.sets, block, ll.assoc)), true, MissBlock(ll.sets, block))
  }

  /** The instrumentation-time test for that special case. */
  predicate IsIrNoX(l1LineSize: nat, llLineSize: nat, a: UWord, size: nat)
    requires l1LineSize > 0 && size > 0 && a + size - 1 < 0x1_0000_0000_0000_0000
  {
    l1LineSize == llLineSize && Block(a, l1LineSize) == Block(a + size - 1, l1LineSize)
  }

  /** Where the test holds the special case does exactly what the general one does. */
  lemma NoXIsGen(l1: Cache, ll: Cache, a: UWord, size: nat)
    requires CacheOk(l1) && CacheOk(ll) && Fits(a, size, l1.lineSize) && Fits(a, size, ll.lineSize)
    ensures IsIrNoX(l1.lineSize, ll.lineSize, a, size) ==> DoRefNoX(l1, ll, a) == DoRef(l1, ll, a, size)
  {
    hide RefBlock, MissBlock, SetsOk;
  }

  ghost function ValueOf(c: CacheT2): (v: Cache)
    requires c.Valid()
    reads c.tags
    ensures CacheOk(v)
  {
    Cache(c.Sets(), c.assoc, c.line_size)
  }

  /** The three caches of the simulator. */
  class Simulator {
    const I1: CacheT2
    const D1: CacheT2
    const LL: CacheT2

    ghost predicate Valid() {
      I1.Valid() && D1.Valid() && LL.Valid() && I1.tags != LL.tags && D1.tags != LL.tags && I1.tags != D1.tags
    }

    constructor (I1: CacheT2, D1: CacheT2, LL: CacheT2)
      requires I1.Valid() && D1.Valid() && LL.Valid() && I1.tags != LL.tags && D1.tags != LL.tags && I1.tags != D1.tags
      ensures Valid() && this.I1 == I1 && this.D1 == D1 && this.LL == LL
    {
      this.I1 := I1;
      this.D1 := D1;
      this.LL := LL;
    }

    method I1DorefGen(a: UWord, size: nat) returns (m1: bool, mL: bool)
      requires Valid() && Fits(a, size, I1.line_size) && Fits(a, size, LL.line_size)
      modifies I1.tags, LL.tags
      ensures Result(ValueOf(I1), ValueOf(LL), m1, mL) == DoRef(old(ValueOf(I1)), old(ValueOf(LL)), a, size)
    {
      hide Ref;
      mL := false;
      m1 := I1.RefIsMiss(a, size);
      if m1 { mL := LL.RefIsMiss(a, size); }
    }

    method I1DorefNoX(a: UWord, size: nat) returns (m1: bool, mL: bool)
      requires Valid() && Fits(a, size, I1.line_size) && Fits(a, size, LL.line_size)
               && IsIrNoX(I1.line_size, LL.line_size, a, size)
      modifies I1.tags, LL.tags
      ensures Result(ValueOf(I1), ValueOf(LL), m1, mL) == DoRef(old(ValueOf(I1)), old(ValueOf(LL)), a, size)
    {
      hide Touch, Ref, SetsIn;
      NoXIsGen(ValueOf(I1), ValueOf(LL), a, size);
      var block := Block(a, I1.line_size);
      mL := false;
      m1 := I1.SetrefIsMiss(SetNo(block, I1.sets), block);
      if m1 { mL := LL.SetrefIsMiss(SetNo(block, LL.sets), block); }
    }

    method D1Doref(a: UWord, size: nat) returns (m1: bool, mL: bool)
      requires Valid() && Fits(a, size, D1.line_size) && Fits(a, size, LL.line_size)
      modifies D1.tags, LL.tags
      ensures Result(ValueOf(D1), ValueOf(LL), m1, mL) == DoRef(old(ValueOf(D1)), old(ValueOf(LL)), a, size)
    {
      hide Ref;
      mL := false;
      m1 := D1.RefIsMiss(a, size);
      if m1 { mL := LL.RefIsMiss(a, size); }
    }
  }
}
