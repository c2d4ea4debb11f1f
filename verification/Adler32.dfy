/** The Adler-32 checksum of the debug-info server: 32-bit sums reduced once per block,
    against the definition in section 8.2 of RFC 1950. */
module Adler32 {

  const BASE: int := 65521
  const NMAX: int := 5552

  type UInt = x: int | 0 <= x < 0x1_0000_0000
  type Byte = x: int | 0 <= x < 256

  // --------------------------------------------------------------- reference

  /** The two sums of the definition, each reduced after every byte. */
  function Sums(s1: int, s2: int, b: seq<Byte>): (r: (int, int)) {
    if b == [] then (s1, s2) else
    var (t1, t2) := Sums(s1, s2, b[..|b| - 1]);
    var u1 := (t1 + b[|b| - 1]) % BASE;
    (u1, (t2 + u1) % BASE)
  }

  predicate Valid(adler: UInt) {
    adler % 65536 < BASE && adler / 65536 < BASE
  }

  function Joined(s1: int, s2: int): (adler: UInt)
    requires 0 <= s1 < 65536 && 0 <= s2 < 65536
    ensures adler % 65536 == s1 && adler / 65536 == s2
  {
    s1 + s2 * 65536
  }

  lemma {:induction false} SumsReduced(s1: int, s2: int, b: seq<Byte>)
    requires 0 <= s1 < BASE && 0 <= s2 < BASE
    ensures 0 <= Sums(s1, s2, b).0 < BASE && 0 <= Sums(s1, s2, b).1 < BASE
  {
    if b != [] { SumsReduced(s1, s2, b[..|b| - 1]); }
  }

  /** The checksum adler updated with the bytes b. */
  function Update(adler: UInt, b: seq<Byte>): (r: UInt)
    requires Valid(adler)
    ensures Valid(r)
  {
    SumsReduced(adler % 65536, adler / 65536, b);
    var (s1, s2) := Sums(adler % 65536, adler / 65536, b);
    Joined(s1, s2)
  }

  lemma {:induction false} SumsAppend(s1: int, s2: int, b: seq<Byte>, c: seq<Byte>)
    ensures Sums(s1, s2, b + c) == Sums(Sums(s1, s2, b).0, Sums(s1, s2, b).1, c)
  {
    if c == [] {
      assert b + c == b;
    } else {
      SumsAppend(s1, s2, b, c[..|c| - 1]);
      assert (b + c)[..|b + c| - 1] == b + c[..|c| - 1];
    }
  }

  /** Checksumming in two calls is checksumming the concatenation. */
  lemma UpdateAppend(adler: UInt, b: seq<Byte>, c: seq<Byte>)
    requires Valid(adler)
    ensures Update(Update(adler, b), c) == Update(adler, b + c)
  {
    SumsReduced(adler % 65536, adler / 65536, b);
    SumsAppend(adler % 65536, adler / 65536, b, c);
  }

  // ------------------------------------------------------------ deferred sums

  /** The same sums without any reduction. */
  function Plain(s1: int, s2: int, b: seq<Byte>): (r: (int, int)) {
    if b == [] then (s1, s2) else
    var (t1, t2) := Plain(s1, s2, b[..|b| - 1]);
    (t1 + b[|b| - 1], t2 + t1 + b[|b| - 1])
  }

  lemma ModAdd(x: int, y: int)
    ensures (x % BASE + y) % BASE == (x + y) % BASE
    ensures (y + x % BASE) % BASE == (x + y) % BASE
  {
  }

  /** Reducing at the end is reducing all along. */
  lemma {:induction false} PlainIsSums(s1: int, s2: int, b: seq<Byte>)
    requires 0 <= s1 < BASE && 0 <= s2 < BASE
    ensures Sums(s1, s2, b) == (Plain(s1, s2, b).0 % BASE, Plain(s1, s2, b).1 % BASE)
  {
    if b != [] {
      var m := |b| - 1;
      PlainIsSums(s1, s2, b[..m]);
      var (t1, t2) := Plain(s1, s2, b[..m]);
      ModAdd(t1, b[m]);
      ModAdd(t2, (t1 + b[m]) % BASE);
      ModAdd(t1 + b[m], t2);
    }
  }

  /** The sum of the bytes ... */
  function ByteSum(b: seq<Byte>): int {
    if b == [] then 0 else ByteSum(b[..|b| - 1]) + b[|b| - 1]
  }

  /** ... and that of byte i taken n - i times. */
  function WeightedSum(b: seq<Byte>, n: int): int {
    if b == [] then 0 else WeightedSum(b[..|b| - 1], n) + (n - (|b| - 1)) * b[|b| - 1]
  }

  lemma {:induction false} WeightedMore(b: seq<Byte>, n: int)
    ensures WeightedSum(b, n + 1) == WeightedSum(b, n) + ByteSum(b)
  {
    if b != [] {
      var m := |b| - 1;
      WeightedMore(b[..m], n);
      assert (n + 1 - m) * b[m] == (n - m) * b[m] + b[m];
    }
  }

  lemma {:induction false} PlainIsWeighted(s1: int, s2: int, b: seq<Byte>)
    ensures Plain(s1, s2, b) == (s1 + ByteSum(b), s2 + |b| * s1 + WeightedSum(b, |b|))
  {
    if b != [] {
      var m := |b| - 1;
      PlainIsWeighted(s1, s2, b[..m]);
      WeightedMore(b[..m], m);
      assert |b| * s1 == m * s1 + s1;
    }
  }

  /** The checksum in closed form: for n bytes its low half is s1 + b[0] + .. + b[n-1], and its high
      half s2 + n * s1 + n * b[0] + (n-1) * b[1] + .. + b[n-1], modulo the largest prime below 2^16. */
  lemma ClosedForm(adler: UInt, b: seq<Byte>)
    requires adler % 65536 < 65521 && adler / 65536 < 65521
    ensures Valid(adler)
    ensures var (s1, s2) := (adler % 65536, adler / 65536);
            && Update(adler, b) % 65536 == (s1 + ByteSum(b)) % 65521
            && Update(adler, b) / 65536 == (s2 + |b| * s1 + WeightedSum(b, |b|)) % 65521
  {
    PlainIsSums(adler % 65536, adler / 65536, b);
    PlainIsWeighted(adler % 65536, adler / 65536, b);
  }

  lemma {:induction false} PlainAppend(s1: int, s2: int, b: seq<Byte>, c: seq<Byte>)
    ensures Plain(s1, s2, b + c) == Plain(Plain(s1, s2, b).0, Plain(s1, s2, b).1, c)
  {
    if c == [] {
      assert b + c == b;
    } else {
      PlainAppend(s1, s2, b, c[..|c| - 1]);
      assert (b + c)[..|b + c| - 1] == b + c[..|c| - 1];
    }
  }

  /** 1 + 2 + .. + n. */
  function Triangle(n: nat): (t: nat) {
    if n == 0 then 0 else Triangle(n - 1) + n
  }

  lemma {:induction false} TriangleIs(n: nat)
    ensures 2 * Triangle(n) == n * (n + 1)
  {
    if n > 0 {
      TriangleIs(n - 1);
      assert n * (n + 1) == (n - 1) * n + 2 * n;
    }
  }

  /** How large the unreduced sums of n bytes can get from 16-bit starts. */
  function Bound(n: nat): int {
    65535 * (n + 1) + 255 * Triangle(n)
  }

  lemma {:induction false} BoundGrows(m: nat, n: nat)
    requires m <= n
    ensures Bound(m) <= Bound(n)
    decreases n - m
  {
    if m < n { BoundGrows(m + 1, n); }
  }

  lemma BoundFits(n: nat)
    requires n <= NMAX
    ensures Bound(n) < 0x1_0000_0000
  {
    BoundGrows(n, NMAX);
    TriangleIs(NMAX);
  }

  lemma {:induction false} PlainBounded(s1: int, s2: int, b: seq<Byte>)
    requires 0 <= s1 < 65536 && 0 <= s2 < 65536
    ensures 0 <= Plain(s1, s2, b).0 <= 65535 + 255 * |b|
    ensures 0 <= Plain(s1, s2, b).1 <= Bound(|b|)
  {
    if b != [] { PlainBounded(s1, s2, b[..|b| - 1]); }
  }

  /** The sums of a block of at most NMAX bytes fit 32 bits, whatever the bytes and the start. */
  lemma BlockFits(s1: int, s2: int, b: seq<Byte>)
    requires 0 <= s1 < 65536 && 0 <= s2 < 65536 && |b| <= NMAX
    ensures 0 <= Plain(s1, s2, b).0 < 0x1_0000_0000 && 0 <= Plain(s1, s2, b).1 < 0x1_0000_0000
  {
    PlainBounded(s1, s2, b);
    BoundFits(|b|);
  }

  function Full(n: nat): (b: seq<Byte>)
    ensures |b| == n
  {
    if n == 0 then [] else Full(n - 1) + [255]
  }

  lemma {:induction false} PlainOfFull(n: nat)
    ensures Plain(BASE - 1, BASE - 1, Full(n)) == (BASE - 1 + 255 * n, (n + 1) * (BASE - 1) + 255 * Triangle(n))
  {
    if n > 0 {
      PlainOfFull(n - 1);
      assert Full(n)[..n - 1] == Full(n - 1);
    }
  }

  /** One byte more can overflow: NMAX + 1 bytes of 255 do, from the largest reduced start. */
  lemma NmaxIsTight()
    ensures Plain(BASE - 1, BASE - 1, Full(NMAX + 1)).1 >= 0x1_0000_0000
  {
    PlainOfFull(NMAX + 1);
    TriangleIs(NMAX + 1);
  }

  // ---------------------------------------------------------------- reduction

  function Less(a: int, m: int): (r: int) {
    if a >= m * BASE then a - m * BASE else a
  }

  lemma LessKeeps(a: int, m: int)
    ensures 0 <= a < 2 * m * BASE ==> 0 <= Less(a, m) < m * BASE
    ensures Less(a, m) % BASE == a % BASE
  {
    assert (a - m * BASE) % BASE == a % BASE;
  }

  /** Exact reduction of any 32-bit value by conditional subtractions. */
  method Mod(a: UInt) returns (r: int)
    ensures r == a % BASE
  {
    hide Less;
    r := a;
    LessKeeps(r, 65536); r := Less(r, 65536);
    LessKeeps(r, 32768); r := Less(r, 32768);
    LessKeeps(r, 16384); r := Less(r, 16384);
    LessKeeps(r, 8192); r := Less(r, 8192);
    LessKeeps(r, 4096); r := Less(r, 4096);
    LessKeeps(r, 2048); r := Less(r, 2048);
    LessKeeps(r, 1024); r := Less(r, 1024);
    LessKeeps(r, 512); r := Less(r, 512);
    LessKeeps(r, 256); r := Less(r, 256);
    LessKeeps(r, 128); r := Less(r, 128);
    LessKeeps(r, 64); r := Less(r, 64);
    LessKeeps(r, 32); r := Less(r, 32);
    LessKeeps(r, 16); r := Less(r, 16);
    LessKeeps(r, 8); r := Less(r, 8);
    LessKeeps(r, 4); r := Less(r, 4);
    LessKeeps(r, 2); r := Less(r, 2);
    LessKeeps(r, 1); r := Less(r, 1);
  }

  /** The short reduction is exact exactly below 32 times the base. */
  method Mod4(a: UInt) returns (r: int)
    ensures r == a % BASE <==> a < 32 * BASE
  {
    r := a;
    LessKeeps(r, 16); r := Less(r, 16);
    LessKeeps(r, 8); r := Less(r, 8);
    LessKeeps(r, 4); r := Less(r, 4);
    LessKeeps(r, 2); r := Less(r, 2);
    LessKeeps(r, 1); r := Less(r, 1);
    assert a >= 32 * BASE ==> r >= BASE;
  }

  // ------------------------------------------------------------------ the code

  /** Sums with room for k more bytes. */
  predicate Room(adler: int, sum2: int, k: nat) {
    adler >= 0 && sum2 >= 0 && adler + 255 * k < 0x1_0000_0000
    && sum2 + k * adler + 255 * (k * (k + 1) / 2) < 0x1_0000_0000
  }

  method Do1(adler: UInt, sum2: UInt, buf: array<Byte>, i: nat) returns (a: UInt, s: UInt)
    requires i < buf.Length && Room(adler, sum2, 1)
    ensures (a, s) == Plain(adler, sum2, buf[i..i + 1]) && a <= adler + 255 && s <= sum2 + adler + 255
  {
    assert buf[i..i + 1] == [buf[i]] && [buf[i]][..0] == [];
    a := adler + buf[i];
    s := sum2 + a;
  }

  lemma PlainTwo(adler: int, sum2: int, b: seq<Byte>, c: seq<Byte>, d: seq<Byte>)
    requires d == b + c
    ensures Plain(adler, sum2, d) == Plain(Plain(adler, sum2, b).0, Plain(adler, sum2, b).1, c)
  {
    PlainAppend(adler, sum2, b, c);
  }

  method Do2(adler: UInt, sum2: UInt, buf: array<Byte>, i: nat) returns (a: UInt, s: UInt)
    requires i + 2 <= buf.Length && Room(adler, sum2, 2)
    ensures (a, s) == Plain(adler, sum2, buf[i..i + 2]) && a <= adler + 2 * 255 && s <= sum2 + 2 * adler + 255 * 3
  {
    a, s := Do1(adler, sum2, buf, i);
    a, s := Do1(a, s, buf, i + 1);
    PlainTwo(adler, sum2, buf[i..i + 1], buf[i + 1..i + 2], buf[i..i + 2]);
  }

  method Do4(adler: UInt, sum2: UInt, buf: array<Byte>, i: nat) returns (a: UInt, s: UInt)
    requires i + 4 <= buf.Length && Room(adler, sum2, 4)
    ensures (a, s) == Plain(adler, sum2, buf[i..i + 4]) && a <= adler + 4 * 255 && s <= sum2 + 4 * adler + 255 * 10
  {
    a, s := Do2(adler, sum2, buf, i);
    a, s := Do2(a, s, buf, i + 2);
    PlainTwo(adler, sum2, buf[i..i + 2], buf[i + 2..i + 4], buf[i..i + 4]);
  }

  method Do8(adler: UInt, sum2: UInt, buf: array<Byte>, i: nat) returns (a: UInt, s: UInt)
    requires i + 8 <= buf.Length && Room(adler, sum2, 8)
    ensures (a, s) == Plain(adler, sum2, buf[i..i + 8]) && a <= adler + 8 * 255 && s <= sum2 + 8 * adler + 255 * 36
  {
    a, s := Do4(adler, sum2, buf, i);
    a, s := Do4(a, s, buf, i + 4);
    PlainTwo(adler, sum2, buf[i..i + 4], buf[i + 4..i + 8], buf[i..i + 8]);
  }

  method Do16(adler: UInt, sum2: UInt, buf: array<Byte>, i: nat) returns (a: UInt, s: UInt)
    requires i + 16 <= buf.Length && Room(adler, sum2, 16)
    ensures (a, s) == Plain(adler, sum2, buf[i..i + 16])
  {
    a, s := Do8(adler, sum2, buf, i);
    a, s := Do8(a, s, buf, i + 8);
    PlainTwo(adler, sum2, buf[i..i + 8], buf[i + 8..i + 16], buf[i..i + 16]);
  }

  /** Inside a block there is always room for the next k bytes. */
  lemma BlockRoom(s1: int, s2: int, b: seq<Byte>, k: nat)
    requires 0 <= s1 < 65536 && 0 <= s2 < 65536 && |b| + k <= NMAX && (k == 1 || k == 16)
    ensures Room(Plain(s1, s2, b).0, Plain(s1, s2, b).1, k)
  {
    PlainBounded(s1, s2, b);
    BoundFits(|b| + k);
    BoundSplit(|b|, k);
  }

  lemma {:induction false} BoundSplit(n: nat, k: nat)
    ensures Bound(n + k) == Bound(n) + k * (65535 + 255 * n) + 255 * Triangle(k)
    ensures 2 * Triangle(k) == k * (k + 1)
  {
    TriangleIs(k);
    if k > 0 {
      BoundSplit(n, k - 1);
      var c := 65535 + 255 * n;
      assert k * c == (k - 1) * c + c;
    }
  }

  /** Sum the bytes from .. from+len-1 of at most one block, sixteen at a time and then singly. */
  method SumBlock(adler: UInt, sum2: UInt, buf: array<Byte>, from: nat, len: nat) returns (a: UInt, s: UInt)
    requires from + len <= buf.Length && len <= NMAX && adler < 65536 && sum2 < 65536
    ensures (a, s) == Plain(adler, sum2, buf[from..from + len])
  {
    hide Plain, Room;
    a, s := adler, sum2;
    var i, n := from, len;
    assert buf[from..from] == [];
    PlainEmpty(adler, sum2);
    while n >= 16
      invariant 0 <= n <= len && i == from + len - n && (a, s) == Plain(adler, sum2, buf[from..i])
    {
      BlockRoom(adler, sum2, buf[from..i], 16);
      a, s := Do16(a, s, buf, i);
      PlainTwo(adler, sum2, buf[from..i], buf[i..i + 16], buf[from..i + 16]);
      n := n - 16;
      i := i + 16;
    }
    while n > 0
      invariant 0 <= n <= len && i == from + len - n && (a, s) == Plain(adler, sum2, buf[from..i])
    {
      BlockRoom(adler, sum2, buf[from..i], 1);
      a, s := Do1(a, s, buf, i);
      PlainTwo(adler, sum2, buf[from..i], buf[i..i + 1], buf[from..i + 1]);
      n := n - 1;
      i := i + 1;
    }
  }

  lemma PlainEmpty(s1: int, s2: int)
    ensures Plain(s1, s2, []) == (s1, s2)
  {
  }

  /** A single byte needs no division. */
  lemma OneByte(s1: int, s2: int, b: Byte)
    requires 0 <= s1 < BASE && 0 <= s2 < BASE
    ensures Sums(s1, s2, [b]) == (Less(s1 + b, 1), Less(s2 + Less(s1 + b, 1), 1))
  {
    assert [b][..0] == [];
  }

  /** Update a running checksum with len bytes of buf, or give the initial value if there is
      no buffer.  No sum overflows 32 bits, even from a start value that is not a checksum. */
  method Adler32(adler0: UInt, buf: array?<Byte>, from: nat, len: nat) returns (r: UInt)
    requires buf == null ==> len != 1
    requires buf != null ==> from + len <= buf.Length
    ensures buf == null ==> r == 1
    ensures buf != null && Valid(adler0) ==> r == Update(adler0, buf[from..from + len])
  {
    hide Plain, Room, Bound, Sums;
    var sum2 := adler0 / 65536;
    var adler := adler0 % 65536;
    ghost var s1, s2 := adler, sum2;
    if len == 1 {
      adler := Less(adler + buf[from], 1);
      sum2 := Less(sum2 + adler, 1);
      assert buf[from..from + 1] == [buf[from]];
      if Valid(adler0) { OneByte(s1, s2, buf[from]); }
      return Joined(adler, sum2);
    }
    if buf == null {
      return 1;
    }
    if len < 16 {
      adler, sum2 := ShortSums(adler, sum2, buf, from, len);
      return Joined(adler, sum2);
    }
    var i, n := from, len;
    assert buf[from..from] == [];
    SumsEmpty(s1, s2);
    while n >= NMAX
      invariant 0 <= n <= len && i == from + len - n && 0 <= adler < 65536 && 0 <= sum2 < 65536
      invariant Valid(adler0) ==> (adler, sum2) == Sums(s1, s2, buf[from..i])
      invariant n < len ==> adler < BASE && sum2 < BASE
    {
      adler, sum2 := Reduced(adler, sum2, buf, from, i, NMAX, s1, s2, Valid(adler0));
      n := n - NMAX;
      i := i + NMAX;
    }
    if n > 0 {
      adler, sum2 := Reduced(adler, sum2, buf, from, i, n, s1, s2, Valid(adler0));
      assert i + n == from + len;
    }
    r := Joined(adler, sum2);
  }

  lemma SumsEmpty(s1: int, s2: int)
    ensures Sums(s1, s2, []) == (s1, s2)
  {
  }

  /** One block and its reduction. */
  method Reduced(adler: UInt, sum2: UInt, buf: array<Byte>, ghost from: nat, i: nat, len: nat, ghost s1: int,
          ghost s2: int, ghost valid: bool)
    returns (a: UInt, s: UInt)
    requires adler < 65536 && sum2 < 65536 && from <= i && i + len <= buf.Length && len <= NMAX
    requires valid ==> 0 <= s1 < BASE && 0 <= s2 < BASE && (adler, sum2) == Sums(s1, s2, buf[from..i])
    ensures a < BASE && s < BASE
    ensures valid ==> (a, s) == Sums(s1, s2, buf[from..i + len])
  {
    hide Plain, Room, Bound, Sums;
    a, s := SumBlock(adler, sum2, buf, i, len);
    if valid {
      SumsReduced(s1, s2, buf[from..i]);
      PlainIsSums(adler, sum2, buf[i..i + len]);
      assert buf[from..i + len] == buf[from..i] + buf[i..i + len];
      SumsAppend(s1, s2, buf[from..i], buf[i..i + len]);
    }
    a := Mod(a);
    s := Mod(s);
  }

  /** Fewer than sixteen bytes: one subtraction and the short reduction suffice. */
  method ShortSums(adler: UInt, sum2: UInt, buf: array<Byte>, from: nat, len: nat) returns (a: UInt, s: UInt)
    requires adler < 65536 && sum2 < 65536 && len < 16 && from + len <= buf.Length
    ensures a < 65536 && s < 65536
    ensures adler < BASE && sum2 < BASE ==> (a, s) == Sums(adler, sum2, buf[from..from + len])
  {
    hide Plain, Room, Sums;
    a, s := adler, sum2;
    assert buf[from..from] == [];
    PlainEmpty(adler, sum2);
    for i := 0 to len
      invariant (a, s) == Plain(adler, sum2, buf[from..from + i])
      invariant a <= 65535 + 255 * i && s <= 65535 + i * (65535 + 255 * 15)
    {
      PlainTwo(adler, sum2, buf[from..from + i], buf[from + i..from + i + 1], buf[from..from + i + 1]);
      PlainOne(a, s, buf[from + i]);
      assert buf[from + i..from + i + 1] == [buf[from + i]];
      a := a + buf[from + i];
      s := s + a;
    }
    if adler < BASE && sum2 < BASE { PlainIsSums(adler, sum2, buf[from..from + len]); }
    a := Less(a, 1);
    s := Mod4(s);
  }

  lemma PlainOne(s1: int, s2: int, b: Byte)
    ensures Plain(s1, s2, [b]) == (s1 + b, s2 + s1 + b)
  {
    assert [b][..0] == [];
  }

  /** The checksum of a frame, folding in the four length bytes and then the data, is that of
      the two written one after the other. */
  method FrameChecksum(lenBytes: array<Byte>, data: array<Byte>) returns (adler: UInt)
    requires lenBytes.Length == 8
    ensures adler == Update(1, lenBytes[4..8] + data[..])
  {
    hide Sums;
    adler := Adler32(0, null, 0, 0);
    adler := Adler32(adler, lenBytes, 4, 4);
    if data.Length > 0 {
      adler := Adler32(adler, data, 0, data.Length);
      assert data[0..0 + data.Length] == data[..];
    } else {
      assert data[..] == [];
      SumsEmpty(adler % 65536, adler / 65536);
    }
    UpdateAppend(1, lenBytes[4..8], data[..]);
  }
}
