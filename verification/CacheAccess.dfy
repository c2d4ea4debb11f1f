/** Accesses by address, as the write-back simulator and the one with use statistics take
    them: the lines, sets, tags and granules of an access that may straddle two lines. */
module CacheAccess {
  import opened Lru
  import opened Arith
  import opened CacheSim
  import opened WriteBack
  import U = CacheUse
  import M = UseMask

  /** The bytes from .. to of the line at some address. */
  datatype Piece = Piece(line: UWord, from: nat, to: nat)

  function LineOf(a: UWord, lineSize: nat): (l: UWord)
    requires lineSize > 0
  {
    LineFits(a, lineSize);
    Block(a, lineSize) * lineSize
  }

  lemma LineFits(a: UWord, lineSize: nat)
    requires lineSize > 0
    ensures 0 <= a / lineSize * lineSize <= a && a == a / lineSize * lineSize + a % lineSize
  {
    if a / lineSize > 0 { PositiveMultiple(a / lineSize, lineSize); }
  }

  /** An access, line by line. */
  function Pieces(a: UWord, size: nat, lineSize: nat): seq<Piece>
    requires Fits(a, size, lineSize)
  {
    var z := a + size - 1;
    if Block(a, lineSize) == Block(z, lineSize) then [Piece(LineOf(a, lineSize), a % lineSize, z % lineSize)]
    else [Piece(LineOf(a, lineSize), a % lineSize, lineSize - 1), Piece(LineOf(z, lineSize), 0, z % lineSize)]
  }

  ghost predicate PieceOk(p: Piece, lineSize: nat) {
    lineSize > 0 && p.line % lineSize == 0 && p.from <= p.to < lineSize && p.line + p.to < 0x1_0000_0000_0000_0000
  }

  /** What a lookup needs of a piece; its ends may be crossed. */
  ghost predicate PartOk(p: Piece, lineSize: nat) {
    lineSize > 0 && p.line % lineSize == 0 && p.from < lineSize && p.to < lineSize
  }

  ghost predicate Covers(p: Piece, x: nat) {
    p.line + p.from <= x <= p.line + p.to
  }

  /** The pieces of an access are parts of lines ... */
  lemma PiecesOk(a: UWord, size: nat, lineSize: nat)
    requires Fits(a, size, lineSize)
    ensures forall i :: 0 <= i < |Pieces(a, size, lineSize)| ==> PieceOk(Pieces(a, size, lineSize)[i], lineSize)
  {
    var z := a + size - 1;
    LineFits(a, lineSize);
    LineFits(z, lineSize);
    AtMostTwoLines(a, size, lineSize);
    Quotient(LineOf(a, lineSize), lineSize, Block(a, lineSize), 0);
    Quotient(LineOf(z, lineSize), lineSize, Block(z, lineSize), 0);
    if Block(z, lineSize) == Block(a, lineSize) + 1 {
      assert LineOf(z, lineSize) == LineOf(a, lineSize) + lineSize;
    }
  }

  /** ... and together exactly its bytes. */
  lemma PiecesAreBytes(a: UWord, size: nat, lineSize: nat, x: nat)
    requires Fits(a, size, lineSize)
    ensures a <= x < a + size <==> exists i :: 0 <= i < |Pieces(a, size, lineSize)|
                                               && Covers(Pieces(a, size, lineSize)[i], x)
  {
    var z, ps := a + size - 1, Pieces(a, size, lineSize);
    LineFits(a, lineSize);
    LineFits(z, lineSize);
    AtMostTwoLines(a, size, lineSize);
    if Block(z, lineSize) == Block(a, lineSize) + 1 {
      assert LineOf(z, lineSize) == LineOf(a, lineSize) + lineSize;
      assert Covers(ps[1], x) <==> LineOf(z, lineSize) <= x <= z;
    }
    assert Covers(ps[0], x) <==> a <= x <= ps[0].line + ps[0].to;
  }

  /** The sets of both ends are compared, not the lines.  With several sets that is the same,
      and the second set is the next one, so an access is never refused; a cache of one set
      takes a straddling access for one within a line. */
  lemma SetsTellLines(a: UWord, size: nat, lineSize: nat, sets: nat)
    requires Fits(a, size, lineSize) && sets > 0
    ensures var (b1, b2) := (Block(a, lineSize), Block(a + size - 1, lineSize));
            && (SetNo(b1, sets) == SetNo(b2, sets) <==> b1 == b2 || sets == 1)
            && (b1 != b2 ==> SetNo(b2, sets) == (SetNo(b1, sets) + 1) % sets)
  {
    AtMostTwoLines(a, size, lineSize);
    var b1, b2 := Block(a, lineSize), Block(a + size - 1, lineSize);
    if b2 == b1 + 1 {
      var u, w := b1 / sets, b1 % sets;
      assert b1 == u * sets + w;
      if w + 1 < sets {
        Quotient(b2, sets, u, w + 1);
        Quotient(w + 1, sets, 0, w + 1);
      } else {
        assert (u + 1) * sets == u * sets + sets;
        Quotient(b2, sets, u + 1, 0);
        Quotient(w + 1, sets, 1, 0);
      }
    }
  }

  /** What is looked up for an access: one line if both ends have the same set. */
  function Seen(a: UWord, size: nat, lineSize: nat, sets: nat): (ps: seq<Piece>)
    requires Fits(a, size, lineSize) && sets > 0
    ensures 1 <= |ps| <= 2
  {
    var z := a + size - 1;
    if SetNo(Block(a, lineSize), sets) == SetNo(Block(z, lineSize), sets)
    then [Piece(LineOf(a, lineSize), a % lineSize, z % lineSize)]
    else [Piece(LineOf(a, lineSize), a % lineSize, lineSize - 1), Piece(LineOf(z, lineSize), 0, z % lineSize)]
  }

  /** So exactly the pieces of the access are looked up, unless it straddles in a cache of one set. */
  lemma SeenArePieces(a: UWord, size: nat, lineSize: nat, sets: nat)
    requires Fits(a, size, lineSize) && sets > 0
    ensures Seen(a, size, lineSize, sets) == Pieces(a, size, lineSize) <==> sets > 1 || |Pieces(a, size, lineSize)| == 1
    ensures forall i :: 0 <= i < |Seen(a, size, lineSize, sets)| ==> PartOk(Seen(a, size, lineSize, sets)[i], lineSize)
  {
    PiecesOk(a, size, lineSize);
    SetsTellLines(a, size, lineSize, sets);
    LineFits(a, lineSize);
    LineFits(a + size - 1, lineSize);
    Quotient(LineOf(a, lineSize), lineSize, Block(a, lineSize), 0);
  }

  lemma OneSetStraddle()
    ensures var (a, size, lineSize) := (62, 4, 64);
            SetNo(Block(a, lineSize), 1) == SetNo(Block(a + size - 1, lineSize), 1) && |Pieces(a, size, lineSize)| == 2
  {
  }

  /** The size of a way divides 2^32, as for powers of two. */
  ghost predicate WayOk(sets: nat, lineSize: nat) {
    sets > 0 && lineSize > 0 && sets * lineSize > 0 && TWO32 % (sets * lineSize) == 0
  }

  lemma TagForm(x: UWord, m: nat, v: nat, sets: nat, lineSize: nat)
    requires WayOk(sets, lineSize) && v < sets * lineSize && x == m * (sets * lineSize) + v
    ensures var q := TWO32 / (sets * lineSize);
            q > 0 && TagOf(x, sets, lineSize) == m % q * (sets * lineSize) <= TWO32 - sets * lineSize
  {
    var span := sets * lineSize;
    var q := TWO32 / span;
    assert TWO32 == q * span;
    if q <= 0 { Multiple(q, span); }
    var h, u := m / q, m % q;
    assert m == h * q + u;
    Plus(h * q, u, span);
    Times(h, q, span);
    Plus(u, 1, span);
    if u + 1 < q { PositiveMultiple(q - u - 1, span); }
    Plus(u + 1, q - u - 1, span);
    Quotient(x, TWO32, h, u * span + v);
    Quotient(u * span + v, span, u, v);
  }

  /** All addresses of a line have one tag, and it leaves room for flags and slot numbers. */
  lemma TagOfLine(a: UWord, sets: nat, lineSize: nat)
    requires WayOk(sets, lineSize)
    ensures TagOf(a, sets, lineSize) == TagOf(LineOf(a, lineSize), sets, lineSize)
    ensures 0 <= TagOf(a, sets, lineSize) <= TWO32 - sets * lineSize
            && TagOf(a, sets, lineSize) % (sets * lineSize) == 0
    ensures Block(LineOf(a, lineSize), lineSize) == Block(a, lineSize)
  {
    var span := sets * lineSize;
    var m, v := a / span, a % span;
    LineFits(a, span);
    TwoDigits(a, sets, lineSize);
    LineFits(v, lineSize);
    LineFits(a, lineSize);
    var w := v / lineSize;
    assert LineOf(a, lineSize) == m * span + w * lineSize by {
      Plus(m * sets, w, lineSize);
      Times(m, sets, lineSize);
    }
    TagForm(a, m, v, sets, lineSize);
    TagForm(LineOf(a, lineSize), m, w * lineSize, sets, lineSize);
    var q := TWO32 / span;
    if m % q > 0 { PositiveMultiple(m % q, span); }
    Quotient(m % q * span, span, m % q, 0);
    Quotient(LineOf(a, lineSize), lineSize, Block(a, lineSize), 0);
  }

  // -------------------------------------------------------------- write-back

  lemma EvenTimes(x: int, h: int)
    ensures x * (2 * h) == 2 * (x * h)
  {
  }

  lemma TagIsEven(a: UWord, sets: nat, lineSize: nat)
    requires WayOk(sets, lineSize) && lineSize % 2 == 0
    ensures 0 <= TagOf(a, sets, lineSize) && TagOf(a, sets, lineSize) % 2 == 0
  {
    hide TagOf;
    TagOfLine(a, sets, lineSize);
    var span, h := sets * lineSize, lineSize / 2;
    assert lineSize == 2 * h;
    var k := TagOf(a, sets, lineSize) / span;
    EvenTimes(sets, h);
    EvenTimes(k, sets * h);
    assert TagOf(a, sets, lineSize) == k * span;
  }

  ghost predicate CacheOk(c: Sets, assoc: nat, lineSize: nat) {
    SetsOk(c, assoc) && WayOk(|c|, lineSize) && lineSize % 2 == 0
  }

  /** A reference to the line of a piece. */
  ghost function PieceWb(c: Sets, write: bool, p: Piece, assoc: nat, lineSize: nat): (r: (Sets, CacheResult))
    requires CacheOk(c, assoc, lineSize)
    ensures CacheOk(r.0, assoc, lineSize) && |r.0| == |c|
  {
    TagIsEven(p.line, |c|, lineSize);
    var i := SetNo(Block(p.line, lineSize), |c|);
    var (s, res) := TouchWb(c[i], TagOf(p.line, |c|, lineSize), write);
    (c[i := s], res)
  }

  /** The worse of two results: a dirty miss if one of them is, else a miss if one is. */
  function Worse(x: CacheResult, y: CacheResult): CacheResult {
    if x == MissDirty || y == MissDirty then MissDirty else if x == Miss || y == Miss then Miss else Hit
  }

  ghost function LinesWb(c: Sets, write: bool, ps: seq<Piece>, assoc: nat, lineSize: nat): (r: (Sets, CacheResult))
    requires CacheOk(c, assoc, lineSize)
    ensures CacheOk(r.0, assoc, lineSize) && |r.0| == |c|
    decreases |ps|
  {
    if ps == [] then (c, Hit) else
    var (c1, r1) := PieceWb(c, write, ps[0], assoc, lineSize);
    var (c2, r2) := LinesWb(c1, write, ps[1..], assoc, lineSize);
    (c2, Worse(r1, r2))
  }

  lemma OneOrTwoWb(c: Sets, write: bool, ps: seq<Piece>, assoc: nat, lineSize: nat)
    requires CacheOk(c, assoc, lineSize) && 1 <= |ps| <= 2
    ensures var (c1, r1) := PieceWb(c, write, ps[0], assoc, lineSize);
            LinesWb(c, write, ps, assoc, lineSize)
            == if |ps| == 1 then (c1, r1) else
               var (c2, r2) := PieceWb(c1, write, ps[1], assoc, lineSize);
               (c2, Worse(r1, r2))
  {
    hide PieceWb, CacheOk;
    var (c1, r1) := PieceWb(c, write, ps[0], assoc, lineSize);
    if |ps| == 1 {
      assert ps[1..] == [] && LinesWb(c1, write, [], assoc, lineSize) == (c1, Hit);
    } else {
      var (c2, r2) := PieceWb(c1, write, ps[1], assoc, lineSize);
      assert ps[1..] == [ps[1]] && ps[1..][1..] == [] && LinesWb(c2, write, [], assoc, lineSize) == (c2, Hit);
    }
  }

  /** The reference to one line of an access, at one of its addresses. */
  method PieceInPlace(c: CacheT2, write: bool, a: UWord, ghost p: Piece) returns (res: CacheResult)
    requires c.Valid() && CacheOk(c.Sets(), c.assoc, c.line_size) && p.line == LineOf(a, c.line_size)
    modifies c.tags
    ensures (c.Sets(), res) == PieceWb(old(c.Sets()), write, p, c.assoc, c.line_size)
  {
    hide TouchWb, TagOf;
    TagOfLine(a, c.sets, c.line_size);
    TagIsEven(a, c.sets, c.line_size);
    res := SetrefWb(c, write, SetNo(Block(a, c.line_size), c.sets), TagOf(a, c.sets, c.line_size));
  }

  /** A write-back access: the lines looked up for it are referenced, in order. */
  method RefWb(c: CacheT2, write: bool, a: UWord, size: nat) returns (res: CacheResult)
    requires c.Valid() && CacheOk(c.Sets(), c.assoc, c.line_size) && Fits(a, size, c.line_size)
    modifies c.tags
    ensures (c.Sets(), res) == LinesWb(old(c.Sets()), write, Seen(a, size, c.line_size, c.sets), c.assoc, c.line_size)
  {
    hide PieceWb, LinesWb, CacheT2.Sets, CacheOk;
    var ls, z: UWord := c.line_size, a + size - 1;
    var set1, set2 := SetNo(Block(a, ls), c.sets), SetNo(Block(z, ls), c.sets);
    SetsTellLines(a, size, ls, c.sets);
    ghost var ps, s := Seen(a, size, ls, c.sets), c.Sets();
    OneOrTwoWb(s, write, ps, c.assoc, ls);
    res := PieceInPlace(c, write, a, ps[0]);
    if set1 == set2 { return; }
    assert (set1 + 1) % c.sets == set2;
    var res2 := PieceInPlace(c, write, z, ps[1]);
    res := if res == MissDirty || res2 == MissDirty then MissDirty else if res == Miss || res2 == Miss then Miss
      else Hit;
  }

  // ---------------------------------------------------------- use statistics

  datatype ModelResult = L1_Hit | LL_Hit | MemAccess

  /** The sets of the two levels. */
  datatype Levels = Levels(l1: seq<U.UseSet>, ll: seq<U.UseSet>)

  ghost predicate UsesOk(c: seq<U.UseSet>, lineSize: nat) {
    WayOk(|c|, lineSize) && forall i :: 0 <= i < |c| ==> U.SetOk(c[i], |c| * lineSize)
  }

  lemma UseTag(a: UWord, sets: nat, lineSize: nat)
    requires WayOk(sets, lineSize)
    ensures 0 <= TagOf(a, sets, lineSize) < TWO32 && U.IsTag(TagOf(a, sets, lineSize), sets * lineSize)
  {
    TagOfLine(a, sets, lineSize);
  }

  lemma Replaced(c: seq<U.UseSet>, i: nat, u: U.UseSet, lineSize: nat)
    requires UsesOk(c, lineSize) && i < |c| && U.SetOk(u, |c| * lineSize)
    ensures UsesOk(c[i := u], lineSize)
  {
    hide U.SetOk;
  }

  /** A reference to the line of a piece, in the first level: it is a use of the bytes of the
      piece.  Also says whether it hit. */
  ghost function PieceL1(c: seq<U.UseSet>, p: Piece, lineSize: nat): (r: (seq<U.UseSet>, bool))
    requires UsesOk(c, lineSize) && M.LineSizeOk(lineSize) && PartOk(p, lineSize)
    ensures UsesOk(r.0, lineSize) && |r.0| == |c|
  {
    var (n, span) := (|c|, |c| * lineSize);
    UseTag(p.line, n, lineSize);
    var (i, t) := (SetNo(Block(p.line, lineSize), n), TagOf(p.line, n, lineSize));
    var r := U.UseRef(t, M.RangeMask(p.from, p.to, lineSize), p.line);
    U.TouchUseOk(c[i], r, span);
    Replaced(c, i, U.TouchUse(c[i], r, span), lineSize);
    (c[i := U.TouchUse(c[i], r, span)], t in U.TagParts(c[i].ways, span))
  }

  /** The same in the last level, which counts no use. */
  ghost function LineLL(c: seq<U.UseSet>, l: UWord, lineSize: nat): (r: (seq<U.UseSet>, bool))
    requires UsesOk(c, lineSize)
    ensures UsesOk(r.0, lineSize) && |r.0| == |c|
  {
    var (n, span) := (|c|, |c| * lineSize);
    UseTag(l, n, lineSize);
    var (i, t) := (SetNo(Block(l, lineSize), n), TagOf(l, n, lineSize));
    var r := U.UseRef(t, 0, l);
    U.TouchLLOk(c[i], r, span);
    Replaced(c, i, U.TouchLL(c[i], r, span), lineSize);
    (c[i := U.TouchLL(c[i], r, span)], t in U.TagParts(c[i].ways, span))
  }

  /** On a miss in the first level the last level is asked, but not for the line at address 0. */
  ghost function PieceUse(v: Levels, p: Piece, lineSize: nat, llSize: nat): (r: (Levels, ModelResult))
    requires UsesOk(v.l1, lineSize) && UsesOk(v.ll, llSize) && M.LineSizeOk(lineSize) && PartOk(p, lineSize)
    ensures UsesOk(r.0.l1, lineSize) && UsesOk(r.0.ll, llSize) && |r.0.l1| == |v.l1| && |r.0.ll| == |v.ll|
  {
    var (l1, hit) := PieceL1(v.l1, p, lineSize);
    if hit then (Levels(l1, v.ll), L1_Hit)
    else if p.line == 0 then (Levels(l1, v.ll), LL_Hit)
    else
      var (ll, hitLL) := LineLL(v.ll, p.line, llSize);
      (Levels(l1, ll), if hitLL then LL_Hit else MemAccess)
  }

  /** The farther of two results. */
  function Farther(x: ModelResult, y: ModelResult): ModelResult {
    if x == MemAccess || y == MemAccess then MemAccess else if x == LL_Hit || y == LL_Hit then LL_Hit else L1_Hit
  }

  ghost function LinesUse(v: Levels, ps: seq<Piece>, lineSize: nat, llSize: nat): (r: (Levels, ModelResult))
    requires UsesOk(v.l1, lineSize) && UsesOk(v.ll, llSize) && M.LineSizeOk(lineSize)
    requires forall i :: 0 <= i < |ps| ==> PartOk(ps[i], lineSize)
    ensures UsesOk(r.0.l1, lineSize) && UsesOk(r.0.ll, llSize) && |r.0.l1| == |v.l1|
    decreases |ps|
  {
    if ps == [] then (v, L1_Hit) else
    var (v1, r1) := PieceUse(v, ps[0], lineSize, llSize);
    var (v2, r2) := LinesUse(v1, ps[1..], lineSize, llSize);
    (v2, Farther(r1, r2))
  }

  lemma OneOrTwoUse(v: Levels, ps: seq<Piece>, lineSize: nat, llSize: nat)
    requires UsesOk(v.l1, lineSize) && UsesOk(v.ll, llSize) && M.LineSizeOk(lineSize)
    requires 1 <= |ps| <= 2 && forall i :: 0 <= i < |ps| ==> PartOk(ps[i], lineSize)
    ensures var (v1, r1) := PieceUse(v, ps[0], lineSize, llSize);
            LinesUse(v, ps, lineSize, llSize)
            == if |ps| == 1 then (v1, r1) else
               var (v2, r2) := PieceUse(v1, ps[1], lineSize, llSize);
               (v2, Farther(r1, r2))
  {
    hide PieceUse, UsesOk, PartOk;
    var (v1, r1) := PieceUse(v, ps[0], lineSize, llSize);
    if |ps| == 1 {
      assert ps[1..] == [] && LinesUse(v1, [], lineSize, llSize) == (v1, L1_Hit);
    } else {
      var (v2, r2) := PieceUse(v1, ps[1], lineSize, llSize);
      assert ps[1..] == [ps[1]] && ps[1..][1..] == [] && LinesUse(v2, [], lineSize, llSize) == (v2, L1_Hit);
    }
  }

  /** The two mask tables of a cache, as they are built when it is set up. */
  ghost predicate MasksOk(start: seq<bv32>, end: seq<bv32>, lineSize: nat) {
    M.LineSizeOk(lineSize) && |start| == |end| == lineSize
    && forall i :: 0 <= i < lineSize ==>
         M.LastBit(i, lineSize) < 32 && start[i] == M.From(M.FirstBit(i, lineSize))
           && end[i] == M.Upto(31 - M.LastBit(i, lineSize))
  }

  /** Looking up both ends gives the mask of the bytes between; the ends of a line need no
      look-up. */
  lemma MaskOfBytes(start: seq<bv32>, end: seq<bv32>, lineSize: nat, i: nat, j: nat)
    requires MasksOk(start, end, lineSize) && i < lineSize && j < lineSize
    ensures M.And(start[i], end[j]) == M.RangeMask(i, j, lineSize)
    ensures start[i] == M.RangeMask(i, lineSize - 1, lineSize) && end[j] == M.RangeMask(0, j, lineSize)
  {
    hide M.And, M.From, M.Upto, M.FirstBit, M.LastBit, M.LineSizeOk;
    EndBits(lineSize);
    M.AndCommutes(start[i], 0xFFFFFFFF);
    M.AndOnes(start[i]);
    M.AndOnes(end[j]);
  }

  /** The ends of a line mask nothing out. */
  lemma EndBits(lineSize: nat)
    requires M.LineSizeOk(lineSize)
    ensures M.FirstBit(0, lineSize) == 0 && M.LastBit(lineSize - 1, lineSize) == 31
    ensures M.From(0) == 0xFFFFFFFF && M.Upto(0) == 0xFFFFFFFF
  {
    hide M.Without, M.One;
    if lineSize >= 32 { Quotient(lineSize - 1, lineSize / 32, 31, lineSize / 32 - 1); }
  }

  ghost function UseSets(c: U.UseCache): (s: seq<U.UseSet>)
    requires c.Valid()
    reads c.tags, c.use, c.memlines
    ensures |s| == c.sets && forall i :: 0 <= i < c.sets ==> s[i] == c.SetAt(i)
  {
    seq(c.sets, i requires 0 <= i < c.sets && c.Valid() reads c.tags, c.use, c.memlines => c.SetAt(i))
  }

  ghost predicate LevelOk(c: U.UseCache, lineSize: nat)
    reads c.tags, c.use, c.memlines
  {
    c.Valid() && c.span == c.sets * lineSize && WayOk(c.sets, lineSize)
  }

  lemma LevelIsOk(c: U.UseCache, lineSize: nat)
    requires LevelOk(c, lineSize)
    ensures UsesOk(UseSets(c), lineSize) && c.Valid()
  {
    hide U.SetOk;
  }

  /** A line of the first level is referenced, at one of its addresses. */
  method AccessL1(c: U.UseCache, lineSize: nat, mask: bv32, a: UWord, ghost p: Piece) returns (hit: bool)
    requires LevelOk(c, lineSize) && M.LineSizeOk(lineSize) && PartOk(p, lineSize) && p.line == LineOf(a, lineSize)
    requires mask == M.RangeMask(p.from, p.to, lineSize)
    modifies c.tags, c.use, c.memlines
    ensures LevelOk(c, lineSize) && UsesOk(old(UseSets(c)), lineSize)
    ensures (UseSets(c), hit) == PieceL1(old(UseSets(c)), p, lineSize)
  {
    hide TagOf, U.TouchUse, U.IsTag, U.SetOk, U.TagParts, WayOk, U.UseCache.SetAt, M.RangeMask, M.LineSizeOk;
    LevelIsOk(c, lineSize);
    ghost var s := UseSets(c);
    TagOfLine(a, c.sets, lineSize);
    UseTag(a, c.sets, lineSize);
    var evicted;
    hit, evicted := c.AccessLine(SetNo(Block(a, lineSize), c.sets), TagOf(a, c.sets, lineSize), mask,
      LineOf(a, lineSize));
    ghost var i, r := SetNo(Block(p.line, lineSize), c.sets), U.UseRef(TagOf(p.line, c.sets, lineSize), mask, p.line);
    assert c.SetAt(i) == U.TouchUse(s[i], r, c.span);
    assert UseSets(c) == s[i := U.TouchUse(s[i], r, c.span)];
  }

  /** A line of the last level is referenced. */
  method AccessLast(c: U.UseCache, lineSize: nat, l: UWord) returns (hit: bool)
    requires LevelOk(c, lineSize)
    modifies c.tags, c.use, c.memlines
    ensures LevelOk(c, lineSize) && UsesOk(old(UseSets(c)), lineSize)
    ensures (UseSets(c), hit) == LineLL(old(UseSets(c)), l, lineSize)
  {
    hide TagOf, U.TouchLL, U.IsTag, U.SetOk, U.TagParts, WayOk, U.UseCache.SetAt;
    LevelIsOk(c, lineSize);
    ghost var s := UseSets(c);
    UseTag(l, c.sets, lineSize);
    var evicted;
    hit, evicted := c.AccessLL(SetNo(Block(l, lineSize), c.sets), TagOf(l, c.sets, lineSize), l);
    ghost var i, r := SetNo(Block(l, lineSize), c.sets), U.UseRef(TagOf(l, c.sets, lineSize), 0, l);
    assert c.SetAt(i) == U.TouchLL(s[i], r, c.span);
    assert UseSets(c) == s[i := U.TouchLL(s[i], r, c.span)];
  }

  ghost predicate CachesOk(l1: U.UseCache, ll: U.UseCache, lineSize: nat, llSize: nat)
    reads l1.tags, l1.use, l1.memlines, ll.tags, ll.use, ll.memlines
  {
    && LevelOk(l1, lineSize) && LevelOk(ll, llSize) && M.LineSizeOk(lineSize)
    && l1.tags != ll.tags && l1.use != ll.use && l1.memlines != ll.memlines && l1.tags != ll.memlines
      && l1.memlines != ll.tags
  }

  ghost function LevelsOf(l1: U.UseCache, ll: U.UseCache): Levels
    requires l1.Valid() && ll.Valid()
    reads l1.tags, l1.use, l1.memlines, ll.tags, ll.use, ll.memlines
  {
    Levels(UseSets(l1), UseSets(ll))
  }

  /** The reference to one line of an access, at one of its addresses. */
  method AccessPiece(l1: U.UseCache, ll: U.UseCache, lineSize: nat, llSize: nat, mask: bv32, a: UWord, ghost p: Piece)
    returns (r: ModelResult)
    requires CachesOk(l1, ll, lineSize, llSize) && PartOk(p, lineSize) && p.line == LineOf(a, lineSize)
             && mask == M.RangeMask(p.from, p.to, lineSize)
    modifies l1.tags, l1.use, l1.memlines, ll.tags, ll.use, ll.memlines
    ensures CachesOk(l1, ll, lineSize, llSize) && l1.Valid() && ll.Valid()
    ensures UsesOk(old(LevelsOf(l1, ll)).l1, lineSize) && UsesOk(old(LevelsOf(l1, ll)).ll, llSize)
    ensures (LevelsOf(l1, ll), r) == PieceUse(old(LevelsOf(l1, ll)), p, lineSize, llSize)
  {
    hide M.RangeMask, M.LineSizeOk, LevelOk, UseSets, UsesOk, U.UseCache.Valid, PieceL1, LineLL;
    LevelIsOk(l1, lineSize);
    LevelIsOk(ll, llSize);
    ghost var v := LevelsOf(l1, ll);
    var hit := AccessL1(l1, lineSize, mask, a, p);
    LevelIsOk(l1, lineSize);
    assert UseSets(ll) == v.ll;
    var memline := LineOf(a, lineSize);
    if hit { return L1_Hit; }
    if memline == 0 { return LL_Hit; }
    var hitLL := AccessLast(ll, llSize, memline);
    LevelIsOk(ll, llSize);
    r := if hitLL then LL_Hit else MemAccess;
  }

  lemma CachesAre(l1: U.UseCache, ll: U.UseCache, lineSize: nat, llSize: nat)
    requires CachesOk(l1, ll, lineSize, llSize)
    ensures l1.Valid() && ll.Valid() && l1.sets > 0 && M.LineSizeOk(lineSize) && UsesOk(LevelsOf(l1, ll).l1, lineSize)
            && UsesOk(LevelsOf(l1, ll).ll, llSize)
  {
    LevelIsOk(l1, lineSize);
    LevelIsOk(ll, llSize);
  }

  /** An access with use statistics: the lines looked up for it are referenced, in order, and the
      slot of each records exactly the granules of the bytes of the access in that line. */
  method DoRead(l1: U.UseCache, ll: U.UseCache, start: array<bv32>, end: array<bv32>, lineSize: nat, llSize: nat,
          a: UWord, size: nat)
    returns (r: ModelResult)
    requires CachesOk(l1, ll, lineSize, llSize) && Fits(a, size, lineSize)
    requires start.Length == end.Length == lineSize && MasksOk(start[..], end[..], lineSize)
    modifies l1.tags, l1.use, l1.memlines, ll.tags, ll.use, ll.memlines
    ensures CachesOk(l1, ll, lineSize, llSize)
    ensures forall i :: 0 <= i < |Seen(a, size, lineSize, l1.sets)|
                        ==> PartOk(Seen(a, size, lineSize, l1.sets)[i], lineSize)
    ensures UsesOk(old(LevelsOf(l1, ll)).l1, lineSize) && UsesOk(old(LevelsOf(l1, ll)).ll, llSize)
    ensures (LevelsOf(l1, ll), r) == LinesUse(old(LevelsOf(l1, ll)), Seen(a, size, lineSize, l1.sets), lineSize, llSize)
  {
    hide PieceUse, LinesUse, UsesOk, CachesOk, LevelsOf, M.RangeMask, MasksOk, M.And, PartOk, U.UseCache.Valid,
         Pieces;
    CachesAre(l1, ll, lineSize, llSize);
    ghost var v := LevelsOf(l1, ll);
    var z: UWord := a + size - 1;
    var i, j := a % lineSize, z % lineSize;
    var set1, set2 := SetNo(Block(a, lineSize), l1.sets), SetNo(Block(z, lineSize), l1.sets);
    SetsTellLines(a, size, lineSize, l1.sets);
    SeenArePieces(a, size, lineSize, l1.sets);
    ghost var ps := Seen(a, size, lineSize, l1.sets);
    MaskOfBytes(start[..], end[..], lineSize, i, j);
    if set1 == set2 {
      r := AccessPiece(l1, ll, lineSize, llSize, M.And(start[i], end[j]), a, ps[0]);
      OneOrTwoUse(v, ps, lineSize, llSize);
      return;
    }
    assert (set1 + 1) % l1.sets == set2;
    var endMask := end[j];
    var miss1 := AccessPiece(l1, ll, lineSize, llSize, start[i], a, ps[0]);
    OneOrTwoUse(v, ps, lineSize, llSize);
    var miss2 := AccessPiece(l1, ll, lineSize, llSize, endMask, z, ps[1]);
    if miss2 == L1_Hit { return miss1; }
    r := if miss1 == MemAccess || miss2 == MemAccess then MemAccess else LL_Hit;
  }
}
