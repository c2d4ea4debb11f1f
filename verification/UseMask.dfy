/** The masks of touched granules.  A mask has 32 bits; a line of at least 32 bytes has one
    bit for each 32nd part of it, a line of 16 bytes two bits for each byte. */
module UseMask {
  import opened Arith

  // -------------------------------------------------------------- word algebra

  function And(x: bv32, y: bv32): bv32 { x & y }

  function Or(x: bv32, y: bv32): bv32 { x | y }

  function Without(x: bv32, y: bv32): bv32 { x & !y }

  function Double(x: bv32): bv32 { x << 1 }

  function Half(x: bv32): bv32 { x >> 1 }

  lemma AndCommutes(x: bv32, y: bv32)
    ensures And(x, y) == And(y, x)
  {
  }

  lemma AndZero(x: bv32)
    ensures And(x, 0) == 0 && And(0, x) == 0 && And(x, x) == x
  {
  }

  lemma AndOnes(x: bv32)
    ensures And(0xFFFFFFFF, x) == x
  {
  }

  lemma AndAnd(x: bv32, y: bv32, m: bv32)
    ensures And(And(x, y), m) == And(And(x, m), And(y, m))
  {
  }

  lemma AndOr(x: bv32, y: bv32, m: bv32)
    ensures And(Or(x, y), m) == Or(And(x, m), And(y, m))
  {
  }

  lemma OrZero(x: bv32, y: bv32)
    ensures Or(x, y) == 0 <==> x == 0 && y == 0
  {
  }

  lemma AndWithoutOther(x: bv32, y: bv32, m: bv32)
    requires And(y, m) == 0
    ensures And(Without(x, y), m) == And(x, m)
  {
  }

  lemma AndWithoutSame(x: bv32, m: bv32)
    ensures And(Without(x, m), m) == 0
  {
  }

  lemma AndDoubles(x: bv32, y: bv32)
    ensures And(Double(x), Double(y)) == Double(And(x, y))
  {
  }

  lemma AndDouble(x: bv32, y: bv32)
    ensures And(x, Double(y)) == Double(And(Half(x), y))
  {
  }

  lemma OneAndDouble(y: bv32)
    ensures And(1, Double(y)) == 0
  {
  }

  lemma LowBit(x: bv32)
    ensures And(x, 1) == 0 || And(x, 1) == 1
  {
  }

  lemma DoubleZero()
    ensures Double(0) == 0
  {
  }

  // ------------------------------------------------------------------- bits

  /** The word with only bit b set. */
  function One(b: nat): bv32 {
    if b == 0 then 1 else Double(One(b - 1))
  }

  predicate Bit(x: bv32, b: nat) {
    And(x, One(b)) != 0
  }

  /** The number of set bits below bit n. */
  function Ones(x: bv32, n: nat): (c: nat)
    ensures c <= n
  {
    if n == 0 then 0 else Ones(x, n - 1) + if Bit(x, n - 1) then 1 else 0
  }

  lemma {:induction false} OneBit(x: bv32, b: nat)
    ensures And(x, One(b)) == 0 || And(x, One(b)) == One(b)
    decreases b
  {
    hide And, Or, Without, Double, Half;
    if b == 0 {
      LowBit(x);
    } else {
      OneBit(Half(x), b - 1);
      AndDouble(x, One(b - 1));
      DoubleZero();
    }
  }

  lemma {:induction false} DifferentBits(b: nat, c: nat)
    requires b < c
    ensures And(One(b), One(c)) == 0 && And(One(c), One(b)) == 0
  {
    hide And, Or, Without, Double, Half;
    AndCommutes(One(b), One(c));
    if b == 0 {
      OneAndDouble(One(c - 1));
    } else {
      DifferentBits(b - 1, c - 1);
      AndDoubles(One(b - 1), One(c - 1));
      DoubleZero();
    }
  }

  lemma AndBits(x: bv32, y: bv32, b: nat)
    ensures Bit(And(x, y), b) <==> Bit(x, b) && Bit(y, b)
  {
    hide And, Or, Without, Double, Half, One;
    OneBit(x, b);
    OneBit(y, b);
    AndAnd(x, y, One(b));
    AndZero(One(b));
    AndZero(0);
  }

  lemma OrBits(x: bv32, y: bv32, b: nat)
    ensures Bit(Or(x, y), b) <==> Bit(x, b) || Bit(y, b)
  {
    hide And, Or, Without, Double, Half, One;
    AndOr(x, y, One(b));
    OrZero(And(x, One(b)), And(y, One(b)));
  }

  /** Clearing one bit. */
  lemma ClearBit(x: bv32, c: nat, b: nat)
    ensures Bit(Without(x, One(c)), b) <==> Bit(x, b) && b != c
  {
    hide And, Or, Without, Double, Half, One;
    if b == c {
      AndWithoutSame(x, One(b));
    } else {
      if b < c { DifferentBits(b, c); } else { DifferentBits(c, b); }
      AndWithoutOther(x, One(c), One(b));
    }
  }

  lemma Increment6(i: bv6)
    requires i < 63
    ensures (i + 1) as int == i as int + 1
  {
  }

  lemma DoubleShift(i: bv6)
    requires i < 32
    ensures Double(1 << i) == 1 << (i + 1) && (1 as bv32) << i != 0
  {
  }

  lemma {:induction false} OneIsShift(b: nat) returns (i: bv6)
    requires b < 32
    ensures i < 32 && i as int == b && One(b) == 1 << i && One(b) != 0
  {
    hide Double;
    if b == 0 {
      i := 0;
    } else {
      var j := OneIsShift(b - 1);
      Increment6(j);
      i := j + 1;
      DoubleShift(j);
      if i < 32 { DoubleShift(i); }
    }
  }

  // ------------------------------------------------------------ counting bits

  function Fold(c: bv32, s: bv6, b: bv32): bv32
    requires s < 32
  {
    ((c >> s) & b) + (c & b)
  }

  /** The field of c that starts at bit at. */
  function Field(c: bv32, at: bv6, width: bv32): bv32
    requires at < 32
  {
    (c >> at) & width
  }

  function Sum(x: bv32, y: bv32): bv32 { x + y }

  lemma Fields2(x: bv32, i: bv6)
    requires i < 32 && i & 1 == 0
    ensures Field(Fold(x, 1, 0x55555555), i, 0x3) == Sum(Field(x, i, 0x1), Field(x, i + 1, 0x1))
    ensures Field(x, i, 0x1) <= 1 && Field(x, i + 1, 0x1) <= 1
  {
  }

  lemma Fields4(x: bv32, i: bv6)
    requires i < 32 && i & 3 == 0
    ensures Field(Fold(x, 2, 0x33333333), i, 0xF) == Sum(Field(x, i, 0x3), Field(x, i + 2, 0x3))
  {
  }

  lemma Fields8(x: bv32, i: bv6)
    requires i < 32 && i & 7 == 0
    ensures Field(Fold(x, 4, 0x0F0F0F0F), i, 0xFF) == Sum(Field(x, i, 0xF), Field(x, i + 4, 0xF))
  {
  }

  lemma Fields16(x: bv32, i: bv6)
    requires i < 32 && i & 15 == 0
    ensures Field(Fold(x, 8, 0x00FF00FF), i, 0xFFFF) == Sum(Field(x, i, 0xFF), Field(x, i + 8, 0xFF))
  {
  }

  lemma Fields32(x: bv32)
    ensures Fold(x, 16, 0x0000FFFF) == Sum(Field(x, 0, 0xFFFF), Field(x, 16, 0xFFFF))
  {
  }

  lemma Increment(b: bv32)
    requires b < 32
    ensures (b + 1) as int == b as int + 1
  {
  }

  lemma {:induction false} SmallSum(a: bv32, b: bv32)
    requires a <= 16 && b <= 16
    ensures Sum(a, b) as int == a as int + b as int
    decreases b as int
  {
    if b != 0 {
      Increment(b - 1);
      SmallSum(a, b - 1);
      Increment(a + (b - 1));
      assert a + b == a + (b - 1) + 1;
    }
  }

  lemma SumBound(a: bv32, b: bv32, h: bv32)
    requires h <= 16 && a <= h && b <= h
    ensures Sum(a, b) <= h + h
  {
  }

  /** The value of one bit, as a number. */
  function At(x: bv32, b: bv6): int
    requires b < 32
  {
    Field(x, b, 0x1) as int
  }

  lemma Count2(x: bv32, i: bv6)
    requires i < 32 && i & 1 == 0
    ensures i + 1 < 32
    ensures var f := Field(Fold(x, 1, 0x55555555), i, 0x3);
            f <= 2 && f as int == At(x, i) + At(x, i + 1)
  {
    EvenBelow(i);
    hide Fold, Field, Sum;
    Fields2(x, i);
    SmallSum(Field(x, i, 0x1), Field(x, i + 1, 0x1));
    SumBound(Field(x, i, 0x1), Field(x, i + 1, 0x1), 1);
  }

  lemma EvenBelow(i: bv6)
    requires i < 32 && i & 1 == 0
    ensures i + 1 < 32
  {
  }

  lemma Count4(x: bv32, i: bv6)
    requires i == 0 || i == 4 || i == 8 || i == 12 || i == 16 || i == 20 || i == 24 || i == 28
    ensures var f := Field(Fold(Fold(x, 1, 0x55555555), 2, 0x33333333), i, 0xF);
            f <= 4 && f as int == At(x, i) + At(x, i + 1) + At(x, i + 2) + At(x, i + 3)
  {
    hide Fold, Field, Sum, At;
    Count2(x, i);
    Count2(x, i + 2);
    var c := Fold(x, 1, 0x55555555);
    Fields4(c, i);
    SmallSum(Field(c, i, 0x3), Field(c, i + 2, 0x3));
    SumBound(Field(c, i, 0x3), Field(c, i + 2, 0x3), 2);
  }

  lemma Count8(x: bv32, i: bv6)
    requires i == 0 || i == 8 || i == 16 || i == 24
    ensures var f := Field(Fold(Fold(Fold(x, 1, 0x55555555), 2, 0x33333333), 4, 0x0F0F0F0F), i, 0xFF);
            f <= 8 && f as int == At(x, i) + At(x, i + 1) + At(x, i + 2) + At(x, i + 3)
                                  + At(x, i + 4) + At(x, i + 5) + At(x, i + 6) + At(x, i + 7)
  {
    hide Fold, Field, Sum, At;
    Count4(x, i);
    Count4(x, i + 4);
    var c := Fold(Fold(x, 1, 0x55555555), 2, 0x33333333);
    Fields8(c, i);
    SmallSum(Field(c, i, 0xF), Field(c, i + 4, 0xF));
    SumBound(Field(c, i, 0xF), Field(c, i + 4, 0xF), 4);
  }

  /** The sum of eight bits from i on. */
  function At8(x: bv32, i: bv6): int
    requires i <= 24
  {
    At(x, i) + At(x, i + 1) + At(x, i + 2) + At(x, i + 3) + At(x, i + 4) + At(x, i + 5) + At(x, i + 6) + At(x, i + 7)
  }

  lemma Count16(x: bv32, i: bv6)
    requires i == 0 || i == 16
    ensures var f := Field(Fold(Fold(Fold(Fold(x, 1, 0x55555555), 2, 0x33333333), 4, 0x0F0F0F0F), 8, 0x00FF00FF), i,
            0xFFFF);
            f <= 16 && f as int == At8(x, i) + At8(x, i + 8)
  {
    hide Fold, Field, Sum, At;
    Count8(x, i);
    Count8(x, i + 8);
    var c := Fold(Fold(Fold(x, 1, 0x55555555), 2, 0x33333333), 4, 0x0F0F0F0F);
    Fields16(c, i);
    SmallSum(Field(c, i, 0xFF), Field(c, i + 8, 0xFF));
    SumBound(Field(c, i, 0xFF), Field(c, i + 8, 0xFF), 8);
  }

  lemma AtIsBit(x: bv32, b: bv6, one: bv32)
    requires b < 32 && one == 1 << b
    ensures At(x, b) == if And(x, one) != 0 then 1 else 0
  {
    FieldIsBit(x, b, one);
  }

  lemma FieldIsBit(x: bv32, b: bv6, one: bv32)
    requires b < 32 && one == 1 << b
    ensures Field(x, b, 0x1) == if And(x, one) != 0 then 1 else 0
  {
  }

  lemma OnesStep(x: bv32, i: bv6, n: nat)
    requires i < 32 && One(n) == 1 << i
    ensures Ones(x, n + 1) == Ones(x, n) + At(x, i) && One(n + 1) == 1 << (i + 1)
  {
    hide And, At, Double;
    AtIsBit(x, i, One(n));
    DoubleShift(i);
  }

  lemma OnesEight(x: bv32, i: bv6, n: nat)
    requires i <= 24 && One(n) == 1 << i
    ensures Ones(x, n + 8) == Ones(x, n) + At8(x, i) && One(n + 8) == 1 << (i + 8)
  {
    hide At, Ones, One;
    OnesStep(x, i, n);
    OnesStep(x, i + 1, n + 1);
    OnesStep(x, i + 2, n + 2);
    OnesStep(x, i + 3, n + 3);
    OnesStep(x, i + 4, n + 4);
    OnesStep(x, i + 5, n + 5);
    OnesStep(x, i + 6, n + 6);
    OnesStep(x, i + 7, n + 7);
  }

  /** The logarithmic bit count of the source, with its five rounds. */
  method CountBits(bits: bv32) returns (c: bv32)
    ensures c as int == Ones(bits, 32)
  {
    hide Fold, Field, Sum, At;
    c := bits;
    c := Fold(c, 1, 0x55555555);
    c := Fold(c, 2, 0x33333333);
    c := Fold(c, 4, 0x0F0F0F0F);
    c := Fold(c, 8, 0x00FF00FF);
    ghost var d := c;
    c := Fold(c, 16, 0x0000FFFF);
    Count16(bits, 0);
    Count16(bits, 16);
    Fields32(d);
    SmallSum(Field(d, 0, 0xFFFF), Field(d, 16, 0xFFFF));
    OnesEight(bits, 0, 0);
    OnesEight(bits, 8, 8);
    OnesEight(bits, 16, 16);
    OnesEight(bits, 24, 24);
  }

  // ------------------------------------------------------------- line masks

  /** Line sizes the simulator accepts: powers of two from 16 on. */
  predicate LineSizeOk(lineSize: nat) {
    lineSize == 16 || (lineSize >= 32 && lineSize % 32 == 0)
  }

  /** The bits that stand for byte i of a line. */
  function FirstBit(i: nat, lineSize: nat): (b: nat)
    requires LineSizeOk(lineSize)
  {
    if lineSize < 32 then i * 2 else i / (lineSize / 32)
  }

  function LastBit(i: nat, lineSize: nat): (b: nat)
    requires LineSizeOk(lineSize)
  {
    if lineSize < 32 then i * 2 + 1 else i / (lineSize / 32)
  }

  /** All bits from k on. */
  function From(k: nat): bv32 {
    if k == 0 then 0xFFFFFFFF else Without(From(k - 1), One(k - 1))
  }

  /** All bits but the k highest. */
  function Upto(k: nat): bv32
    requires k <= 32
  {
    if k == 0 then 0xFFFFFFFF else Without(Upto(k - 1), One(32 - k))
  }

  lemma AllBits(b: nat)
    requires b < 32
    ensures Bit(0xFFFFFFFF, b)
  {
    hide And;
    var i := OneIsShift(b);
    AndOnes(One(b));
  }

  lemma {:induction false} FromBits(k: nat, b: nat)
    requires b < 32
    ensures Bit(From(k), b) <==> k <= b
  {
    hide And, Without, One, Bit;
    if k == 0 {
      AllBits(b);
    } else {
      FromBits(k - 1, b);
      ClearBit(From(k - 1), k - 1, b);
    }
  }

  lemma {:induction false} UptoBits(k: nat, b: nat)
    requires b < 32 && k <= 32
    ensures Bit(Upto(k), b) <==> b < 32 - k
  {
    hide And, Without, One, Bit;
    if k == 0 {
      AllBits(b);
    } else {
      UptoBits(k - 1, b);
      ClearBit(Upto(k - 1), 32 - k, b);
    }
  }

  lemma WithoutBoth(x: bv32, a: bv32, b: bv32)
    ensures Without(x, Or(a, b)) == Without(Without(x, a), b)
    ensures Or(a, b) == Or(b, a)
  {
  }

  lemma ShiftedPair(a: bv32, b: bv32)
    ensures Or(a, b) << 2 == Or(Double(Double(a)), Double(Double(b)))
    ensures Or(a, b) >> 2 == Or(Half(Half(a)), Half(Half(b)))
  {
  }

  lemma HalfOne(b: nat)
    requires b + 1 < 32
    ensures Half(One(b + 1)) == One(b)
  {
    hide Half;
    var i := OneIsShift(b + 1);
    var j := OneIsShift(b);
    HalfShift(j);
  }

  lemma HalfShift(i: bv6)
    requires i < 31
    ensures Half(Double((1 as bv32) << i)) == 1 << i
  {
  }

  /** The masks of a line of 16 bytes: two bits for each byte. */
  method ShortLineMasks(line_size: nat) returns (start: array<bv32>, end: array<bv32>)
    requires line_size == 16
    ensures start.Length == end.Length == line_size && fresh(start) && fresh(end) && start != end
    ensures forall i :: 0 <= i < line_size ==> start[i] == From(FirstBit(i, line_size))
                                               && end[i] == Upto(31 - LastBit(i, line_size))
  {
    hide Half, Double, Or, Without, From, Upto, One;
    start, end := new bv32[line_size], new bv32[line_size];
    var start_val, end_val: bv32 := 0xFFFFFFFF, 0xFFFFFFFF;
    var start_mask, end_mask: bv32 := 3, 0xC0000000;
    assert From(0) == start_val && Upto(0) == end_val && start_mask == Or(One(0), One(1))
      && end_mask == Or(One(30), One(31)) by {
      FirstPair();
    }
    var i := 0;
    while i < line_size
      invariant 0 <= i <= line_size
      invariant start_val == From(2 * i) && end_val == Upto(2 * i)
      invariant i < line_size ==> start_mask == Or(One(2 * i), One(2 * i + 1))
                                  && end_mask == Or(One(30 - 2 * i), One(31 - 2 * i))
      invariant forall j :: 0 <= j < i ==> start[j] == From(2 * j) && end[line_size - j - 1] == Upto(2 * j)
    {
      start[i] := start_val;
      start_val := Without(start_val, start_mask);
      end[line_size - i - 1] := end_val;
      end_val := Without(end_val, end_mask);
      PairCleared(i);
      if i < 15 { PairShifted(i); }
      start_mask, end_mask := start_mask << 2, end_mask >> 2;
      i := i + 1;
    }
    forall j | 0 <= j < line_size ensures end[j] == Upto(31 - LastBit(j, line_size)) {
      assert end[line_size - (line_size - j - 1) - 1] == Upto(2 * (line_size - j - 1));
    }
  }

  lemma FirstPair()
    ensures From(0) == 0xFFFFFFFF && Upto(0) == 0xFFFFFFFF && Or(One(0), One(1)) == 3
            && Or(One(30), One(31)) == 0xC0000000
  {
    var i := OneIsShift(30);
    var j := OneIsShift(31);
    assert i == 30 && j == 31;
  }

  lemma PairCleared(i: nat)
    requires i < 16
    ensures Without(From(2 * i), Or(One(2 * i), One(2 * i + 1))) == From(2 * i + 2)
    ensures Without(Upto(2 * i), Or(One(30 - 2 * i), One(31 - 2 * i))) == Upto(2 * i + 2)
  {
    hide Half, Double, Or, Without, One;
    WithoutBoth(From(2 * i), One(2 * i), One(2 * i + 1));
    WithoutBoth(Upto(2 * i), One(31 - 2 * i), One(30 - 2 * i));
    WithoutBoth(0, One(30 - 2 * i), One(31 - 2 * i));
    assert From(2 * i + 1) == Without(From(2 * i), One(2 * i));
    assert Upto(2 * i + 1) == Without(Upto(2 * i), One(31 - 2 * i));
  }

  lemma PairShifted(i: nat)
    requires i < 15
    ensures Or(One(2 * i), One(2 * i + 1)) << 2 == Or(One(2 * i + 2), One(2 * i + 3))
    ensures Or(One(30 - 2 * i), One(31 - 2 * i)) >> 2 == Or(One(28 - 2 * i), One(29 - 2 * i))
  {
    hide Half, Double, Or, Without;
    ShiftedPair(One(2 * i), One(2 * i + 1));
    ShiftedPair(One(30 - 2 * i), One(31 - 2 * i));
    HalfOne(29 - 2 * i);
    HalfOne(28 - 2 * i);
    HalfOne(30 - 2 * i);
  }

  /** The masks of a longer line: one bit for each 32nd part of it. */
  method LongLineMasks(line_size: nat) returns (start: array<bv32>, end: array<bv32>)
    requires LineSizeOk(line_size) && line_size >= 32
    ensures start.Length == end.Length == line_size && fresh(start) && fresh(end) && start != end
    ensures forall i :: 0 <= i < line_size ==> LastBit(i, line_size) < 32
    ensures forall i :: 0 <= i < line_size ==> start[i] == From(FirstBit(i, line_size))
                                               && end[i] == Upto(31 - LastBit(i, line_size))
  {
    hide Half, Double, Without, From, Upto, One;
    start, end := new bv32[line_size], new bv32[line_size];
    var start_val, end_val: bv32 := 0xFFFFFFFF, 0xFFFFFFFF;
    var start_mask, end_mask: bv32 := 1, 0x80000000;
    var bytes_per_bit := line_size / 32;
    assert From(0) == start_val && Upto(0) == end_val && start_mask == One(0)
      && end_mask == One(31) by { FirstSingle(); }
    ghost var k := 0;
    var i := 0;
    while i < line_size
      invariant 0 <= i <= line_size && k == i / bytes_per_bit <= 32
      invariant start_val == From(k) && end_val == Upto(k)
      invariant k < 32 ==> start_mask == One(k) && end_mask == One(31 - k)
      invariant forall j :: 0 <= j < i ==> j / bytes_per_bit < 32
      invariant forall j :: 0 <= j < i ==> start[j] == From(j / bytes_per_bit)
                                           && end[line_size - j - 1] == Upto(j / bytes_per_bit)
    {
      PartOfByte(i, bytes_per_bit);
      start[i] := start_val;
      end[line_size - i - 1] := end_val;
      NextPart(i, bytes_per_bit);
      if (i + 1) % bytes_per_bit == 0 {
        start_val := Without(start_val, start_mask);
        end_val := Without(end_val, end_mask);
        SingleCleared(k);
        start_mask, end_mask := Double(start_mask), Half(end_mask);
        k := k + 1;
      }
      i := i + 1;
    }
    forall j | 0 <= j < line_size
      ensures LastBit(j, line_size) < 32 && end[j] == Upto(31 - LastBit(j, line_size))
    {
      var o := line_size - j - 1;
      PartOfByte(j, bytes_per_bit);
      assert end[line_size - o - 1] == Upto(o / bytes_per_bit);
    }
  }

  lemma FirstSingle()
    ensures From(0) == 0xFFFFFFFF && Upto(0) == 0xFFFFFFFF && One(0) == 1 && One(31) == 0x80000000
  {
    var j := OneIsShift(31);
    assert j == 31;
  }

  lemma SingleCleared(k: nat)
    requires k < 32
    ensures Without(From(k), One(k)) == From(k + 1) && Without(Upto(k), One(31 - k)) == Upto(k + 1)
    ensures Double(One(k)) == One(k + 1) && (k < 31 ==> Half(One(31 - k)) == One(30 - k))
  {
    hide Half, Double, Without;
    if k < 31 { HalfOne(30 - k); }
  }

  /** The part a byte lies in, counted from either end of the line. */
  lemma PartOfByte(i: nat, bytesPerBit: nat)
    requires bytesPerBit > 0 && i < 32 * bytesPerBit
    ensures i / bytesPerBit < 32
    ensures (32 * bytesPerBit - i - 1) / bytesPerBit == 31 - i / bytesPerBit
  {
    var q, r := i / bytesPerBit, i % bytesPerBit;
    assert i == q * bytesPerBit + r;
    assert q * bytesPerBit == (q - 32) * bytesPerBit + 32 * bytesPerBit;
    Multiple(q - 32, bytesPerBit);
    assert (31 - q) * bytesPerBit == 31 * bytesPerBit - q * bytesPerBit;
    Quotient(32 * bytesPerBit - i - 1, bytesPerBit, 31 - q, bytesPerBit - 1 - r);
  }

  lemma NextPart(i: nat, d: nat)
    requires d > 0
    ensures (i + 1) / d == i / d + if (i + 1) % d == 0 then 1 else 0
  {
    var q, r := i / d, i % d;
    assert i == q * d + r;
    if r + 1 < d {
      Quotient(i + 1, d, q, r + 1);
    } else {
      assert (q + 1) * d == q * d + d;
      Quotient(i + 1, d, q + 1, 0);
    }
  }

  // ------------------------------------------------------- what a mask means

  lemma BitsOfByte(i: nat, lineSize: nat)
    requires LineSizeOk(lineSize) && i < lineSize
    ensures FirstBit(i, lineSize) <= LastBit(i, lineSize) < 32
  {
    if lineSize >= 32 { PartOfByte(i, lineSize / 32); }
  }

  /** The mask of an access to bytes i .. j of a line. */
  function RangeMask(i: nat, j: nat, lineSize: nat): bv32
    requires LineSizeOk(lineSize) && i < lineSize && j < lineSize
  {
    BitsOfByte(j, lineSize);
    And(From(FirstBit(i, lineSize)), Upto(31 - LastBit(j, lineSize)))
  }

  /** Bit b stands for byte x. */
  predicate StandsFor(b: nat, x: nat, lineSize: nat)
    requires LineSizeOk(lineSize)
  {
    FirstBit(x, lineSize) <= b <= LastBit(x, lineSize)
  }

  /** The mask of an access has exactly the bits that stand for one of its bytes. */
  lemma RangeMaskBits(i: nat, j: nat, lineSize: nat, b: nat)
    requires LineSizeOk(lineSize) && i <= j < lineSize && b < 32
    ensures Bit(RangeMask(i, j, lineSize), b) <==> exists x :: i <= x <= j && StandsFor(b, x, lineSize)
  {
    hide And, Bit, From, Upto;
    BitsOfByte(j, lineSize);
    AndBits(From(FirstBit(i, lineSize)), Upto(31 - LastBit(j, lineSize)), b);
    FromBits(FirstBit(i, lineSize), b);
    UptoBits(31 - LastBit(j, lineSize), b);
    if FirstBit(i, lineSize) <= b <= LastBit(j, lineSize) {
      var x := ByteOfBit(i, j, lineSize, b);
    }
    forall x | i <= x <= j && StandsFor(b, x, lineSize) ensures FirstBit(i, lineSize) <= b <= LastBit(j, lineSize) {
      if lineSize >= 32 {
        Monotone(i, x, lineSize / 32);
        Monotone(x, j, lineSize / 32);
      }
    }
  }

  lemma Monotone(x: nat, y: nat, d: nat)
    requires d > 0 && x <= y
    ensures x / d <= y / d
  {
    var p, q := x / d, y / d;
    assert x == p * d + x % d && y == q * d + y % d;
    if p > q {
      assert p * d == (p - q) * d + q * d;
      Multiple(p - q, d);
    }
  }

  lemma ByteOfBit(i: nat, j: nat, lineSize: nat, b: nat) returns (x: nat)
    requires LineSizeOk(lineSize) && i <= j < lineSize && FirstBit(i, lineSize) <= b <= LastBit(j, lineSize)
    ensures i <= x <= j && StandsFor(b, x, lineSize)
  {
    if lineSize < 32 {
      x := b / 2;
    } else {
      var d := lineSize / 32;
      if b == i / d {
        x := i;
      } else {
        x := b * d;
        Quotient(x, d, b, 0);
        assert i == i / d * d + i % d && j == j / d * d + j % d;
        assert b * d == (b - i / d) * d + i / d * d;
        Multiple(b - i / d, d);
        assert j / d * d == (j / d - b) * d + b * d;
        Multiple(j / d - b, d);
      }
    }
  }

  // --------------------------------------------------------- the spatial loss

  /** Has an access touched the part of the line that byte x lies in? */
  predicate Touched(mask: bv32, x: nat, lineSize: nat)
    requires LineSizeOk(lineSize)
  {
    Bit(mask, FirstBit(x, lineSize))
  }

  /** The bits of a byte are set together. */
  ghost predicate WholeBytes(mask: bv32, lineSize: nat)
    requires LineSizeOk(lineSize)
  {
    forall x :: 0 <= x < lineSize ==> (Bit(mask, FirstBit(x, lineSize)) <==> Bit(mask, LastBit(x, lineSize)))
  }

  lemma RangeIsWhole(i: nat, j: nat, lineSize: nat)
    requires LineSizeOk(lineSize) && i <= j < lineSize
    ensures WholeBytes(RangeMask(i, j, lineSize), lineSize)
  {
    hide And, Bit, From, Upto;
    forall x | 0 <= x < lineSize
      ensures Bit(RangeMask(i, j, lineSize), FirstBit(x, lineSize))
              <==> Bit(RangeMask(i, j, lineSize), LastBit(x, lineSize))
    {
      BitsOfByte(x, lineSize);
      BitsOfByte(j, lineSize);
      var f, u := From(FirstBit(i, lineSize)), Upto(31 - LastBit(j, lineSize));
      AndBits(f, u, FirstBit(x, lineSize));
      AndBits(f, u, LastBit(x, lineSize));
      FromBits(FirstBit(i, lineSize), FirstBit(x, lineSize));
      FromBits(FirstBit(i, lineSize), LastBit(x, lineSize));
      UptoBits(31 - LastBit(j, lineSize), FirstBit(x, lineSize));
      UptoBits(31 - LastBit(j, lineSize), LastBit(x, lineSize));
    }
  }

  lemma OrIsWhole(a: bv32, b: bv32, lineSize: nat)
    requires LineSizeOk(lineSize) && WholeBytes(a, lineSize) && WholeBytes(b, lineSize)
    ensures WholeBytes(Or(a, b), lineSize)
  {
    hide Or, Bit;
    forall x | 0 <= x < lineSize
      ensures Bit(Or(a, b), FirstBit(x, lineSize)) <==> Bit(Or(a, b), LastBit(x, lineSize))
    {
      OrBits(a, b, FirstBit(x, lineSize));
      OrBits(a, b, LastBit(x, lineSize));
    }
  }

  lemma ZeroIsWhole(lineSize: nat)
    requires LineSizeOk(lineSize)
    ensures WholeBytes(0, lineSize)
  {
    hide And;
    forall b: nat ensures !Bit(0, b) { AndZero(One(b)); }
  }

  /** The bytes below n in untouched parts. */
  function UntouchedBytes(mask: bv32, lineSize: nat, n: nat): (u: nat)
    requires LineSizeOk(lineSize)
  {
    if n == 0 then 0 else UntouchedBytes(mask, lineSize, n - 1) + if Touched(mask, n - 1, lineSize) then 0 else 1
  }

  ghost function Untouched(mask: bv32, lineSize: nat, n: nat): set<nat>
    requires LineSizeOk(lineSize)
  {
    set x: nat | x < n && !Touched(mask, x, lineSize)
  }

  lemma {:induction false} UntouchedCount(mask: bv32, lineSize: nat, n: nat)
    requires LineSizeOk(lineSize)
    ensures |Untouched(mask, lineSize, n)| == UntouchedBytes(mask, lineSize, n)
  {
    hide Touched;
    if n > 0 {
      UntouchedCount(mask, lineSize, n - 1);
      var u, v := Untouched(mask, lineSize, n), Untouched(mask, lineSize, n - 1);
      if Touched(mask, n - 1, lineSize) { assert u == v; } else { assert u == v + {n - 1}; }
    }
  }

  lemma {:induction false} ShortLoss(mask: bv32, n: nat)
    requires n <= 16 && WholeBytes(mask, 16)
    ensures 2 * UntouchedBytes(mask, 16, n) == 2 * n - Ones(mask, 2 * n)
  {
    hide Bit;
    if n > 0 {
      ShortLoss(mask, n - 1);
      assert Bit(mask, FirstBit(n - 1, 16)) <==> Bit(mask, LastBit(n - 1, 16));
      assert Ones(mask, 2 * n - 1) == Ones(mask, 2 * n - 2) + if Bit(mask, 2 * n - 2) then 1 else 0;
    }
  }

  lemma {:induction false} LongLossPart(mask: bv32, lineSize: nat, g: nat, r: nat)
    requires LineSizeOk(lineSize) && lineSize >= 32 && r <= lineSize / 32
    ensures var d := lineSize / 32;
            UntouchedBytes(mask, lineSize, g * d + r) == UntouchedBytes(mask, lineSize, g * d) + if Bit(mask, g)
              then 0 else r
  {
    hide Bit;
    if r > 0 {
      var d := lineSize / 32;
      LongLossPart(mask, lineSize, g, r - 1);
      Quotient(g * d + r - 1, d, g, r - 1);
    }
  }

  lemma {:induction false} LongLoss(mask: bv32, lineSize: nat, g: nat)
    requires LineSizeOk(lineSize) && lineSize >= 32
    ensures UntouchedBytes(mask, lineSize, g * (lineSize / 32)) == (g - Ones(mask, g)) * (lineSize / 32)
  {
    hide Bit, LineSizeOk;
    if g > 0 {
      var d := lineSize / 32;
      LongLoss(mask, lineSize, g - 1);
      LongLossPart(mask, lineSize, g - 1, d);
      OneMoreTimes(g - 1, d);
      OneMoreTimes(g - 1 - Ones(mask, g - 1), d);
    }
  }

  lemma OneMoreTimes(x: int, d: int)
    ensures x * d + d == (x + 1) * d
  {
  }

  lemma LossInBytes(mask: bv32, lineSize: nat, c: nat)
    requires LineSizeOk(lineSize) && WholeBytes(mask, lineSize) && c == Ones(mask, 32)
    ensures (32 - c) * lineSize / 32 == |Untouched(mask, lineSize, lineSize)|
  {
    hide Bit, Untouched, Ones, WholeBytes;
    UntouchedCount(mask, lineSize, lineSize);
    if lineSize < 32 {
      ShortLoss(mask, 16);
    } else {
      var d := lineSize / 32;
      LongLoss(mask, lineSize, 32);
      ThirtyTwoTimes(32 - c, d);
    }
  }

  lemma ThirtyTwoTimes(x: int, d: int)
    ensures x * (32 * d) / 32 == x * d
  {
    assert x * (32 * d) == 32 * (x * d);
  }

  /** The loss charged when a line with this mask is evicted: the bytes in parts that no
      access touched. */
  method SpatialLoss(mask: bv32, line_size: nat) returns (loss: nat)
    requires LineSizeOk(line_size) && WholeBytes(mask, line_size)
    ensures loss == |Untouched(mask, line_size, line_size)|
  {
    hide *;
    var c := CountBits(mask);
    LossInBytes(mask, line_size, c as int);
    loss := (32 - c as int) * line_size / 32;
  }
}
