/** The order in which block records are sorted for a profile dump: by function, recursion level,
    callers and address. */
module DumpOrder {
  import opened QuickSort

  /** Where the records of a function, its file and its object lie, counted in records. */
  datatype FnNode = FnNode(obj: int, file: int, fn: int)

  /** A block in a context: the functions of the context from the executing one, the recursion
      level, the address within the block's own object, and that object. */
  datatype Record = Record(fns: seq<FnNode>, rec: int, offset: int, obj: int)

  type Block = b: Record | b.fns != [] witness Record([FnNode(0, 0, 0)], 0, 0, 0)

  datatype Maybe<T> = None | Some(value: T)

  /** A difference cut to a 32-bit int. */
  function Int32(d: int): (r: int)
    ensures -0x8000_0000 <= r < 0x8000_0000 && (r - d) % 0x1_0000_0000 == 0
  {
    var m := d % 0x1_0000_0000;
    if m >= 0x8000_0000 then m - 0x1_0000_0000 else m
  }

  /** Compare callers from position off on, up to the end of the shorter context. */
  function CompareCallers(f: seq<FnNode>, g: seq<FnNode>, off: nat): Maybe<int>
    decreases |f| - off
  {
    if off >= |f| || off >= |g| then None
    else if f[off].obj != g[off].obj then Some(Int32(f[off].obj - g[off].obj))
    else if f[off].fn != g[off].fn then Some(Int32(f[off].fn - g[off].fn))
    else CompareCallers(f, g, off + 1)
  }

  function MyCmp(x: Block, y: Block): int {
    var f, g := x.fns[0], y.fns[0];
    if f.obj != g.obj then Int32(f.obj - g.obj)
    else if f.file != g.file then Int32(f.file - g.file)
    else if f.fn != g.fn then Int32(f.fn - g.fn)
    else if x.rec != y.rec then Int32(x.rec - y.rec)
    else
      match CompareCallers(x.fns, y.fns, 1)
      case Some(c) => c
      case None => if |x.fns| > |y.fns| then 1 else if |x.fns| < |y.fns| then -1 else Int32(x.offset - y.offset)
  }

  lemma {:induction false} SameCallers(f: seq<FnNode>, off: nat)
    ensures CompareCallers(f, f, off) == None
    decreases |f| - off
  {
    if off < |f| { SameCallers(f, off + 1); }
  }

  /** So the sort ends, and permutes. */
  lemma MyCmpReflexive()
    ensures Reflexive(MyCmp)
  {
    forall x: Block
      ensures MyCmp(x, x) == 0
    {
      SameCallers(x.fns, 1);
    }
  }

  // ----------------------------------------------------------------- the keys

  /** What is compared of callers, with a mark at the end. */
  function Callers(f: seq<FnNode>, off: nat): seq<int>
    decreases |f| - off
  {
    if off >= |f| then [-1] else [f[off].obj, f[off].fn] + Callers(f, off + 1)
  }

  /** All that is compared, in order. */
  function Keys(b: Block): seq<int> {
    [b.fns[0].obj, b.fns[0].file, b.fns[0].fn, b.rec] + (Callers(b.fns, 1) + [b.offset])
  }

  /** How far s comes after t in lexical order: the first difference; a mark comes just before all
      else. */
  function Lex(s: seq<int>, t: seq<int>): int {
    if s == [] || t == [] then |s| - |t|
    else if s[0] == t[0] then Lex(s[1..], t[1..])
    else if s[0] < 0 then -1
    else if t[0] < 0 then 1
    else s[0] - t[0]
  }

  /** Everything compared is a number below n. */
  ghost predicate Below(b: Record, n: int) {
    && 0 <= b.rec < n && 0 <= b.offset < n
    && forall i :: 0 <= i < |b.fns| ==> 0 <= b.fns[i].obj < n && 0 <= b.fns[i].file < n && 0 <= b.fns[i].fn < n
  }

  predicate SameSign(a: int, b: int) {
    (a < 0 <==> b < 0) && (a > 0 <==> b > 0)
  }

  lemma LexCons(x: int, s: seq<int>, y: int, t: seq<int>)
    ensures Lex([x] + s, [y] + t) == if x == y then Lex(s, t) else if x < 0 then -1 else if y < 0 then 1 else x - y
  {
    assert ([x] + s)[1..] == s && ([y] + t)[1..] == t;
  }

  lemma SmallCut(d: int)
    ensures -0x8000_0000 <= d < 0x8000_0000 ==> Int32(d) == d
  {
  }

  /** Below 2^32 a cut difference has the right sign exactly if it need not be cut. */
  lemma CutSign(d: int)
    ensures -0x1_0000_0000 < d < 0x1_0000_0000 ==> (SameSign(Int32(d), d) <==> -0x8000_0000 <= d < 0x8000_0000)
    ensures SameSign(Int32(d), d) <==> var m := d % 0x1_0000_0000;
                                       d == 0 || (d > 0 && 0 < m < 0x8000_0000) || (d < 0 && m >= 0x8000_0000)
  {
  }

  lemma {:induction false} CallersLex(x: Block, y: Block, n: int, off: nat)
    requires off <= |x.fns| && off <= |y.fns| && Below(x, n) && Below(y, n) && n > 1
    ensures -n < Lex(Callers(x.fns, off) + [x.offset], Callers(y.fns, off) + [y.offset]) < n
    ensures var (c, l) := (CompareCallers(x.fns, y.fns, off),
                           Lex(Callers(x.fns, off) + [x.offset], Callers(y.fns, off) + [y.offset]));
            Int32(l) == if c.Some? then c.value else if |x.fns| > |y.fns| then 1 else if |x.fns| < |y.fns| then -1
                        else Int32(x.offset - y.offset)
    decreases |x.fns| - off
  {
    hide Int32, Lex;
    SmallCut(1);
    SmallCut(-1);
    var s, t := Callers(x.fns, off) + [x.offset], Callers(y.fns, off) + [y.offset];
    if off < |x.fns| && off < |y.fns| {
      var f, g := x.fns[off], y.fns[off];
      var s1, t1 := Callers(x.fns, off + 1) + [x.offset], Callers(y.fns, off + 1) + [y.offset];
      assert s == [f.obj] + ([f.fn] + s1) && t == [g.obj] + ([g.fn] + t1);
      LexCons(f.obj, [f.fn] + s1, g.obj, [g.fn] + t1);
      LexCons(f.fn, s1, g.fn, t1);
      if f.obj == g.obj && f.fn == g.fn { CallersLex(x, y, n, off + 1); }
    } else {
      LexEnds(x, y, n, off, s, t);
    }
  }

  /** One of the contexts has no more callers. */
  lemma LexEnds(x: Block, y: Block, n: int, off: nat, s: seq<int>, t: seq<int>)
    requires off <= |x.fns| && off <= |y.fns| && (off == |x.fns| || off == |y.fns|) && Below(x, n) && Below(y, n)
    requires s == Callers(x.fns, off) + [x.offset] && t == Callers(y.fns, off) + [y.offset]
    ensures Lex(s, t) == if |x.fns| > |y.fns| then 1 else if |x.fns| < |y.fns| then -1 else x.offset - y.offset
  {
    if off == |x.fns| == |y.fns| {
      LexCons(-1, [x.offset], -1, [y.offset]);
      LexCons(x.offset, [], y.offset, []);
      assert [x.offset] + [] == [x.offset] && [y.offset] + [] == [y.offset];
      assert Lex([], []) == 0;
    }
  }

  /** The comparison is the first difference of the keys, cut to 32 bits. */
  lemma MyCmpIsCut(x: Block, y: Block, n: int)
    requires Below(x, n) && Below(y, n) && n > 1
    ensures MyCmp(x, y) == Int32(Lex(Keys(x), Keys(y))) && -n < Lex(Keys(x), Keys(y)) < n
  {
    hide Int32, Callers, Lex, CompareCallers;
    var f, g := x.fns[0], y.fns[0];
    var s, t := Callers(x.fns, 1) + [x.offset], Callers(y.fns, 1) + [y.offset];
    LexCons(x.rec, s, y.rec, t);
    LexCons(f.fn, [x.rec] + s, g.fn, [y.rec] + t);
    LexCons(f.file, [f.fn] + ([x.rec] + s), g.file, [g.fn] + ([y.rec] + t));
    LexCons(f.obj, [f.file] + ([f.fn] + ([x.rec] + s)), g.obj, [g.file] + ([g.fn] + ([y.rec] + t)));
    assert Keys(x) == [f.obj] + ([f.file] + ([f.fn] + ([x.rec] + s)));
    assert Keys(y) == [g.obj] + ([g.file] + ([g.fn] + ([y.rec] + t)));
    CallersLex(x, y, n, 1);
  }

  /** Two records compare as their keys do if and only if cutting the first difference to 32 bits
      keeps its sign. */
  lemma MyCmpKeepsSign(x: Block, y: Block, n: int)
    requires Below(x, n) && Below(y, n) && n > 1
    ensures var d := Lex(Keys(x), Keys(y));
            var m := d % 0x1_0000_0000;
            SameSign(MyCmp(x, y), d)
            <==> d == 0 || (d > 0 && 0 < m < 0x8000_0000) || (d < 0 && m >= 0x8000_0000)
  {
    hide Int32, Lex, Keys, MyCmp;
    MyCmpIsCut(x, y, n);
    CutSign(Lex(Keys(x), Keys(y)));
  }

  /** For records with numbers below 2^32 two records compare as their keys do if and only if the
      first difference lies from -2^31 up to, but not including, 2^31. */
  lemma MyCmpIsLexIff(x: Block, y: Block)
    requires Below(x, 0x1_0000_0000) && Below(y, 0x1_0000_0000)
    ensures var d := Lex(Keys(x), Keys(y));
            SameSign(MyCmp(x, y), d) <==> -0x8000_0000 <= d < 0x8000_0000
  {
    hide Int32, Lex, Keys, MyCmp;
    MyCmpIsCut(x, y, 0x1_0000_0000);
    CutSign(Lex(Keys(x), Keys(y)));
  }

  // -------------------------------------------------------------- close records

  ghost function Witness(): (b: Record)
    ensures b.fns != [] && Below(b, 0x8000_0000)
  {
    Record([FnNode(0, 0, 0)], 0, 0, 0)
  }

  type NearBlock = b: Record | b.fns != [] && Below(b, 0x8000_0000) ghost witness Witness()

  function NearCmp(x: NearBlock, y: NearBlock): int {
    MyCmp(x, y)
  }

  ghost predicate FromMark(s: seq<int>) {
    forall i :: 0 <= i < |s| ==> s[i] >= -1
  }

  lemma {:induction false} CallersFromMark(b: Block, n: int, off: nat)
    requires Below(b, n)
    ensures FromMark(Callers(b.fns, off))
    decreases |b.fns| - off
  {
    if off < |b.fns| { CallersFromMark(b, n, off + 1); }
  }

  lemma KeysFromMark(b: Block, n: int)
    requires Below(b, n)
    ensures FromMark(Keys(b))
  {
    hide Callers;
    CallersFromMark(b, n, 1);
  }

  lemma {:induction false} LexTurns(s: seq<int>, t: seq<int>)
    requires FromMark(s) && FromMark(t)
    ensures Lex(s, t) == -Lex(t, s)
  {
    if s != [] && t != [] && s[0] == t[0] { LexTurns(s[1..], t[1..]); }
  }

  lemma {:induction false} LexTransitive(s: seq<int>, t: seq<int>, u: seq<int>)
    requires FromMark(s) && FromMark(t) && FromMark(u) && Lex(s, t) <= 0 && Lex(t, u) <= 0
    ensures Lex(s, u) <= 0
  {
    if s != [] && t != [] && u != [] && s[0] == t[0] == u[0] { LexTransitive(s[1..], t[1..], u[1..]); }
  }

  lemma NearIsLex(x: NearBlock, y: NearBlock)
    ensures NearCmp(x, y) == Lex(Keys(x), Keys(y))
  {
    hide Int32, Lex, Keys, MyCmp;
    MyCmpIsCut(x, y, 0x8000_0000);
    SmallCut(Lex(Keys(x), Keys(y)));
  }

  /** Records whose numbers are all below 2^31 are ordered consistently, by their keys. */
  lemma NearInOrder()
    ensures Preorder(NearCmp)
  {
    hide MyCmp, Keys, Lex, FromMark;
    forall x: NearBlock
      ensures NearCmp(x, x) == 0
    {
      MyCmpReflexive();
      assert MyCmp(x, x) == 0;
    }
    forall x: NearBlock, y: NearBlock
      ensures NearCmp(x, y) < 0 <==> NearCmp(y, x) > 0
    {
      NearIsLex(x, y);
      NearIsLex(y, x);
      KeysFromMark(x, 0x8000_0000);
      KeysFromMark(y, 0x8000_0000);
      LexTurns(Keys(x), Keys(y));
    }
    forall x: NearBlock, y: NearBlock, z: NearBlock | NearCmp(x, y) <= 0 && NearCmp(y, z) <= 0
      ensures NearCmp(x, z) <= 0
    {
      NearTransitive(x, y, z);
    }
  }

  lemma NearTransitive(x: NearBlock, y: NearBlock, z: NearBlock)
    requires NearCmp(x, y) <= 0 && NearCmp(y, z) <= 0
    ensures NearCmp(x, z) <= 0
  {
    hide MyCmp, Keys, Lex, FromMark;
    NearIsLex(x, y);
    NearIsLex(y, z);
    NearIsLex(x, z);
    KeysFromMark(x, 0x8000_0000);
    KeysFromMark(y, 0x8000_0000);
    KeysFromMark(z, 0x8000_0000);
    LexTransitive(Keys(x), Keys(y), Keys(z));
  }

  // ------------------------------------------------------------ distant records

  lemma SameButOffset(f: seq<FnNode>, rec: int, a: int, b: int, obj: int)
    requires f != []
    ensures MyCmp(Record(f, rec, a, obj), Record(f, rec, b, obj)) == Int32(a - b)
  {
    SameCallers(f, 1);
  }

  /** Three records in the order of their addresses. */
  predicate ByAddress(x: Block, y: Block, z: Block) {
    && MyCmp(x, y) < 0 && MyCmp(y, z) < 0 && MyCmp(x, z) < 0
    && MyCmp(y, x) > 0 && MyCmp(z, y) > 0 && MyCmp(z, x) > 0
  }

  /** The comparison orders these three somehow: turning it around turns its sign, and there is no
      way round in a circle. */
  predicate Consistent(x: Block, y: Block, z: Block) {
    && (forall u, v :: u in {x, y, z} && v in {x, y, z} ==> (MyCmp(u, v) < 0 <==> MyCmp(v, u) > 0))
    && (forall u, v, w :: u in {x, y, z} && v in {x, y, z} && w in {x, y, z} && MyCmp(u, v) <= 0 && MyCmp(v, w) <= 0
          ==> MyCmp(u, w) <= 0)
  }

  /** Of records that agree but for their addresses a < b < c, below 2^32, the order is that of the
      addresses exactly if the outer two differ by less than 2^31; and there is an order at all
      exactly if they do, or an inner difference exceeds 2^31. */
  lemma ThreeAddresses(f: seq<FnNode>, rec: int, obj: int, a: int, b: int, c: int)
    requires f != [] && 0 <= a < b < c < 0x1_0000_0000
    ensures var (x, y, z) := (Record(f, rec, a, obj), Record(f, rec, b, obj), Record(f, rec, c, obj));
            && (ByAddress(x, y, z) <==> c - a < 0x8000_0000)
            && (Consistent(x, y, z) <==> c - a < 0x8000_0000 || b - a > 0x8000_0000 || c - b > 0x8000_0000)
  {
    hide MyCmp, Int32;
    var x: Block, y: Block, z: Block := Record(f, rec, a, obj), Record(f, rec, b, obj), Record(f, rec, c, obj);
    SameButOffset(f, rec, a, b, obj);
    SameButOffset(f, rec, b, c, obj);
    SameButOffset(f, rec, a, c, obj);
    SameButOffset(f, rec, b, a, obj);
    SameButOffset(f, rec, c, b, obj);
    SameButOffset(f, rec, c, a, obj);
    SameButOffset(f, rec, a, a, obj);
    SameButOffset(f, rec, b, b, obj);
    SameButOffset(f, rec, c, c, obj);
    Cut32(b - a);
    Cut32(c - b);
    Cut32(c - a);
    SmallCut(0);
    ThreeSigns(x, y, z, b - a, c - b);
  }

  lemma Cut32(d: int)
    requires 0 < d < 0x1_0000_0000
    ensures Int32(-d) == if d <= 0x8000_0000 then -d else 0x1_0000_0000 - d
    ensures Int32(d) == if d < 0x8000_0000 then d else d - 0x1_0000_0000
  {
  }

  lemma ThreeSigns(x: Block, y: Block, z: Block, p: int, q: int)
    requires 0 < p && 0 < q && p + q < 0x1_0000_0000
    requires MyCmp(x, x) == MyCmp(y, y) == MyCmp(z, z) == 0
    requires (MyCmp(x, y) < 0 <==> p <= 0x8000_0000) && (MyCmp(y, x) > 0 <==> p < 0x8000_0000) && MyCmp(x, y) != 0
    requires (MyCmp(y, z) < 0 <==> q <= 0x8000_0000) && (MyCmp(z, y) > 0 <==> q < 0x8000_0000) && MyCmp(y, z) != 0
    requires (MyCmp(x, z) < 0 <==> p + q <= 0x8000_0000) && (MyCmp(z, x) > 0 <==> p + q < 0x8000_0000)
    requires MyCmp(x, z) != 0 && MyCmp(y, x) != 0 && MyCmp(z, y) != 0 && MyCmp(z, x) != 0
    ensures ByAddress(x, y, z) <==> p + q < 0x8000_0000
    ensures Consistent(x, y, z) <==> p + q < 0x8000_0000 || p > 0x8000_0000 || q > 0x8000_0000
  {
    hide MyCmp;
  }

  /** So the comparison is no order of all records: three addresses in a circle. */
  lemma FarOutOfOrder()
    ensures !Preorder(MyCmp)
  {
    hide MyCmp;
    var f := [FnNode(0, 0, 0)];
    ThreeAddresses(f, 0, 0, 0, 0x6000_0000, 0xC000_0000);
    var x: Block, y: Block, z: Block := Record(f, 0, 0, 0), Record(f, 0, 0x6000_0000, 0), Record(f, 0, 0xC000_0000, 0);
    assert !Consistent(x, y, z);
  }

  /** A block of one object, running in the context of a function of another. */
  function In(f: FnNode, offset: int, obj: int): Block {
    Record([f], 0, offset, obj)
  }

  /** Blocks at one address in different objects tie, if they run in the same context, as functions
      of one group do; and with such ties the records of a dump may end up out of order. */
  lemma TiedBlocksUnsorted() returns (x: seq<NearBlock>)
    ensures |x| == 7 && (forall i, j :: 0 <= i < j < 7 ==> x[i] != x[j]) && NearCmp(x[0], x[1]) == 0
    ensures Reflexive(NearCmp) && !Sorted(QSort(x, 0, 7, NearCmp), 0, 7, NearCmp)
  {
    hide Preorder, Reflexive, Sorted, QSort;
    var f := FnNode(0, 0, 0);
    x := [In(f, 64, 0), In(f, 64, 1), In(f, 64, 2), In(f, 64, 3), In(f, 32, 4), In(f, 64, 5), In(f, 64, 6)];
    NearInOrder();
    TiesUnsorted(x, NearCmp);
  }
}
