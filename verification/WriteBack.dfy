/** The write-back simulator: bit 0 of a tag says that its line was written since it was
    installed.  Erasing that bit gives the plain simulator. */
module WriteBack {
  import opened Lru
  import opened CacheSim
  import opened Arith

  datatype CacheResult = Hit | Miss | MissDirty

  /** A reference within a set: the tag, with bit 0 clear, and whether it is a write. */
  datatype Reference = Reference(tag: UWord, write: bool)

  type EvenTag = x: UWord | x % 2 == 0

  function Clean(x: UWord): (t: EvenTag) {
    x - x % 2
  }

  predicate Dirty(x: UWord) {
    x % 2 == 1
  }

  function Marked(t: EvenTag, dirty: bool): (x: UWord)
    ensures Clean(x) == t && (Dirty(x) <==> dirty)
  {
    if dirty then t + 1 else t
  }

  function CleanAll(s: seq<UWord>): (c: seq<UWord>)
    ensures |c| == |s| && forall i :: 0 <= i < |s| ==> c[i] == Clean(s[i])
  {
    seq(|s|, i requires 0 <= i < |s| => Clean(s[i]))
  }

  /** A write-back reference: the line moves to the front and gets dirty on a write. */
  function TouchWb(s: seq<UWord>, tag: EvenTag, write: bool): (r: (seq<UWord>, CacheResult))
    requires s != []
    ensures |r.0| == |s|
  {
    var c := CleanAll(s);
    var k := Reach(c, tag);
    if tag in c then (Shuffle(s, k, Marked(tag, write || Dirty(s[k]))), Hit)
    else (Shuffle(s, k, Marked(tag, write)), if Dirty(s[k]) then MissDirty else Miss)
  }

  /** Without the dirty bits, a write-back reference is a plain one. */
  lemma ErasedIsPlain(s: seq<UWord>, tag: EvenTag, write: bool)
    requires s != []
    ensures CleanAll(TouchWb(s, tag, write).0) == Touch(CleanAll(s), tag)
    ensures TouchWb(s, tag, write).1 == Hit <==> tag in CleanAll(s)
  {
  }

  // ---------------------------------------------------------------- methods

  lemma HitAt(s: seq<UWord>, tag: EvenTag, write: bool, i: nat)
    requires i < |s| && Clean(s[i]) == tag && forall j :: 0 <= j < i ==> Clean(s[j]) != tag
    ensures TouchWb(s, tag, write) == (Shuffle(s, i, Marked(tag, write || Dirty(s[i]))), Hit)
  {
    PositionIs(CleanAll(s), tag, i);
  }

  lemma MissIn(s: seq<UWord>, tag: EvenTag, write: bool)
    requires s != [] && forall j :: 0 <= j < |s| ==> Clean(s[j]) != tag
    ensures TouchWb(s, tag, write)
            == (Shuffle(s, |s| - 1, Marked(tag, write)), if Dirty(s[|s| - 1]) then MissDirty else Miss)
  {
  }

  /** A write-back reference, in place. */
  method SetrefWb(c: CacheT2, write: bool, set_no: nat, tag: EvenTag) returns (res: CacheResult)
    requires c.Valid() && set_no < c.sets
    modifies c.tags
    ensures var (s, r) := TouchWb(old(c.Sets())[set_no], tag, write);
            c.Sets() == old(c.Sets())[set_no := s] && res == r
  {
    hide Shuffle, Clean, Dirty, Marked, TouchWb, SetsIn;
    var assoc, tags := c.assoc, c.tags;
    SetBounds(set_no, c.sets, assoc);
    var base := set_no * assoc;
    ghost var t := tags[..];
    ghost var s := SetIn(t, set_no, c.sets, assoc);
    assert c.Sets()[set_no] == s by { SetOfSets(t, set_no, c.sets, assoc); }
    if tag == Clean(tags[base]) {
      HitAt(s, tag, write, 0);
      tags[base] := Marked(tag, write || Dirty(tags[base]));
      TouchedSets(t, tags[..], c.sets, assoc, set_no, 0, tags[base]);
      return Hit;
    }
    var i := 1;
    while i < assoc
      invariant 1 <= i <= assoc && forall j :: 0 <= j < i ==> Clean(s[j]) != tag
    {
      if tag == Clean(tags[base + i]) {
        HitAt(s, tag, write, i);
        var tmp_tag := Marked(tag, write || Dirty(tags[base + i]));
        ShuffleDown(tags, base, i);
        tags[base] := tmp_tag;
        TouchedSets(t, tags[..], c.sets, assoc, set_no, i, tmp_tag);
        return Hit;
      }
      i := i + 1;
    }
    MissIn(s, tag, write);
    var tmp_tag := tags[base + assoc - 1];
    assert tmp_tag == s[assoc - 1];
    ShuffleDown(tags, base, assoc - 1);
    tags[base] := Marked(tag, write);
    TouchedSets(t, tags[..], c.sets, assoc, set_no, assoc - 1, tags[base]);
    res := if Dirty(tmp_tag) then MissDirty else Miss;
  }

  lemma SetOfSets(t: seq<UWord>, i: nat, sets: nat, assoc: nat)
    requires assoc > 0 && i < sets && |t| == sets * assoc
    ensures SetsIn(t, sets, assoc)[i] == SetIn(t, i, sets, assoc)
  {
  }

  // ------------------------------------------------------------- whole runs

  function Tags(h: seq<Reference>): (t: seq<UWord>)
    ensures |t| == |h| && forall i :: 0 <= i < |h| ==> t[i] == h[i].tag
  {
    seq(|h|, i requires 0 <= i < |h| => h[i].tag)
  }

  ghost predicate EvenTags(h: seq<Reference>) {
    forall i :: 0 <= i < |h| ==> h[i].tag % 2 == 0
  }

  ghost function RunWb(h: seq<Reference>, n: nat): (s: seq<UWord>)
    requires n > 0 && EvenTags(h)
    ensures |s| == n
  {
    if h == [] then Window<UWord>([], n, 0) else
    TouchWb(RunWb(h[..|h| - 1], n), h[|h| - 1].tag, h[|h| - 1].write).0
  }

  /** t was written since it was last brought in. */
  ghost predicate Written(h: seq<Reference>, t: UWord, n: nat)
    requires n > 0
  {
    exists i :: Installed<UWord>(Tags(h), t, n, 0) <= i < |h| && h[i] == Reference(t, true)
  }

  lemma WrittenStep(h: seq<Reference>, x: UWord, n: nat)
    requires n > 0 && h != []
    ensures var m := |h| - 1;
            Written(h, x, n) <==> if h[m].tag != x then Written(h[..m], x, n)
                                  else h[m].write || (Resident<UWord>(Tags(h[..m]), x, n, 0) && Written(h[..m], x, n))
  {
    hide Resident;
    var m := |h| - 1;
    var before := h[..m];
    assert Tags(h)[..m] == Tags(before);
    if Written(before, x, n) && (h[m].tag != x || Resident<UWord>(Tags(before), x, n, 0)) {
      var i :| Installed<UWord>(Tags(before), x, n, 0) <= i < m && before[i] == Reference(x, true);
      assert h[i] == Reference(x, true);
    }
    if Written(h, x, n) {
      var i :| Installed<UWord>(Tags(h), x, n, 0) <= i <= m && h[i] == Reference(x, true);
      if i < m { assert before[i] == Reference(x, true); }
    }
  }

  lemma {:induction false} RunWbIsPlain(h: seq<Reference>, n: nat)
    requires n > 0 && EvenTags(h)
    ensures CleanAll(RunWb(h, n)) == Run(Window<UWord>([], n, 0), Tags(h)) == Window(Recent<UWord>([0] + Tags(h)), n, 0)
  {
    hide TouchWb, Touch, Window, Recent;
    RunIsRecent<UWord>(Tags(h), n, 0);
    if h == [] {
      assert CleanAll(Window<UWord>([], n, 0)) == Window<UWord>([], n, 0) by { CleanWindow(n); }
    } else {
      var m := |h| - 1;
      RunWbIsPlain(h[..m], n);
      assert Tags(h)[..m] == Tags(h[..m]);
      ErasedIsPlain(RunWb(h[..m], n), h[m].tag, h[m].write);
    }
  }

  lemma CleanWindow(n: nat)
    ensures CleanAll(Window<UWord>([], n, 0)) == Window<UWord>([], n, 0)
  {
  }

  lemma TouchWbAt(s: seq<UWord>, tag: EvenTag, write: bool, j: nat)
    requires j < |s|
    ensures var (c, k) := (CleanAll(s), Reach(CleanAll(s), tag));
            TouchWb(s, tag, write).0[j] == if j == 0 then Marked(tag, write || (tag in c && Dirty(s[k])))
                                           else if j <= k then s[j - 1] else s[j]
  {
  }

  /** After any references each way of the set is dirty exactly when it holds one of the tags
      most recently used and that tag was written since it was brought in. */
  lemma {:induction false} DirtyIffWritten(h: seq<Reference>, n: nat, j: nat)
    requires j < n && EvenTags(h)
    ensures var r := Recent<UWord>([0] + Tags(h));
            Dirty(RunWb(h, n)[j]) <==> j < |r| && Written(h, r[j], n)
  {
    hide TouchWb, Touch, Window, Recent, Written, Dirty, CleanAll, Reach, Run;
    if h == [] {
      InitiallyClean(n, j);
    } else {
      var m := |h| - 1;
      var before, t, w := h[..m], h[m].tag, h[m].write;
      var s := RunWb(before, n);
      var r, q := Recent<UWord>([0] + Tags(before)), Recent<UWord>([0] + Tags(h));
      RunWbIsPlain(before, n);
      RunWbIsPlain(h, n);
      TouchWbAt(s, t, w, j);
      RecentStep(h);
      RecentDistinct<UWord>([0] + Tags(before));
      WithoutPosition(r, t);
      var k := Reach(CleanAll(s), t);
      WhereReached<UWord>(r, t, n, 0, k);
      if j == 0 {
        WrittenStep(h, t, n);
        if t in CleanAll(s) { DirtyIffWritten(before, n, k); }
      } else {
        var i := if j <= k then j - 1 else j;
        DirtyIffWritten(before, n, i);
        if j < |q| { WrittenStep(h, q[j], n); }
      }
    }
  }

  lemma InitiallyClean(n: nat, j: nat)
    requires j < n
    ensures var r := Recent<UWord>([0] + Tags([])); !Dirty(RunWb([], n)[j]) && r == [0] && !Written([], 0, n)
  {
    assert [0] + Tags([]) == [0];
  }

  lemma RecentStep(h: seq<Reference>)
    requires h != []
    ensures var m := |h| - 1; Recent<UWord>([0] + Tags(h)) == [h[m].tag]
                              + Without(Recent<UWord>([0] + Tags(h[..m])), h[m].tag)
  {
    var m := |h| - 1;
    assert ([0] + Tags(h))[..|h|] == [0] + Tags(h[..m]);
  }

  lemma ResultIs(s: seq<UWord>, tag: EvenTag, write: bool)
    requires s != []
    ensures var res := TouchWb(s, tag, write).1;
            && (res == Hit <==> tag in CleanAll(s)) && (res == MissDirty <==> tag !in CleanAll(s) && Dirty(s[|s| - 1]))
  {
    hide Shuffle, Marked, CleanAll, Dirty;
  }

  /** The result of a reference: a hit as in the plain simulator; a miss is dirty exactly
      when it evicts a line that was written since it was brought in. */
  lemma MissDirtyIffWritten(h: seq<Reference>, tag: EvenTag, write: bool, n: nat)
    requires n > 0 && EvenTags(h)
    ensures var (r, res) := (Recent<UWord>([0] + Tags(h)), TouchWb(RunWb(h, n), tag, write).1);
            && (res == Hit <==> Resident<UWord>(Tags(h), tag, n, 0))
            && (res == MissDirty <==> !Resident<UWord>(Tags(h), tag, n, 0) && n <= |r| && Written(h, r[n - 1], n))
  {
    hide Recent, Written, Window, TouchWb, CleanAll, Dirty, RunWb;
    RunWbIsPlain(h, n);
    ResultIs(RunWb(h, n), tag, write);
    DirtyIffWritten(h, n, n - 1);
  }

  // ---------------------------------------------------------- tags of addresses

  const TWO32: int := 0x1_0000_0000

  /** The tag of an address: its line and set bits cleared, with a mask of 32 bits. */
  function TagOf(a: UWord, sets: nat, lineSize: nat): int
    requires sets * lineSize > 0
  {
    a % TWO32 - (a % TWO32) % (sets * lineSize)
  }

  lemma Times(x: int, y: int, z: int)
    ensures x * (y * z) == (x * y) * z
  {
  }

  lemma Plus(x: int, y: int, z: int)
    ensures (x + y) * z == x * z + y * z
  {
  }

  /** Dividing by the line size, in terms of the division by the size of a way. */
  lemma TwoDigits(x: nat, sets: nat, lineSize: nat)
    requires sets > 0 && lineSize > 0 && sets * lineSize > 0
    ensures var (u, w) := (x / (sets * lineSize), x % (sets * lineSize) / lineSize);
            w < sets && x / lineSize == u * sets + w
  {
    var span := sets * lineSize;
    var u, v := x / span, x % span;
    var w, r := v / lineSize, v % lineSize;
    assert x == u * span + v && v == w * lineSize + r;
    if w >= sets {
      Plus(w - sets, sets, lineSize);
      if w > sets { PositiveMultiple(w - sets, lineSize); }
    }
    Times(u, sets, lineSize);
    Plus(u * sets, w, lineSize);
    Quotient(x, lineSize, u * sets + w, r);
  }

  lemma Decompose(a: UWord, sets: nat, lineSize: nat, q: nat) returns (u: nat, w: nat)
    requires sets > 0 && lineSize > 0 && sets * lineSize * q == TWO32
    ensures sets * lineSize > 0 && w < sets
    ensures (a % TWO32) / lineSize == u * sets + w
    ensures SetNo(Block(a, lineSize), sets) == w && TagOf(a, sets, lineSize) == u * (sets * lineSize)
  {
    PositiveMultiple(sets, lineSize);
    var span, lo, h := sets * lineSize, a % TWO32, a / TWO32;
    u := lo / span;
    var v := lo % span;
    TwoDigits(lo, sets, lineSize);
    w := v / lineSize;
    assert a == (h * q + u) * span + v by {
      Times(h, q, span);
      Plus(h * q, u, span);
      assert q * span == TWO32 && lo == u * span + v;
    }
    Quotient(a, span, h * q + u, v);
    TwoDigits(a, sets, lineSize);
    Quotient(a / lineSize, sets, h * q + u, w);
    assert u * span == lo - v;
  }

  /** Two addresses share set and tag exactly when their low 32 bits lie on the same line; so
      below 2^32 set and tag identify the line. */
  lemma SameSetAndTag(a: UWord, b: UWord, sets: nat, lineSize: nat, q: nat)
    requires sets > 0 && lineSize > 0 && sets * lineSize * q == TWO32
    ensures sets * lineSize > 0
    ensures SetNo(Block(a, lineSize), sets) == SetNo(Block(b, lineSize), sets)
            && TagOf(a, sets, lineSize) == TagOf(b, sets, lineSize)
            <==> (a % TWO32) / lineSize == (b % TWO32) / lineSize
  {
    var u, w := Decompose(a, sets, lineSize, q);
    var x, y := Decompose(b, sets, lineSize, q);
    Quotient(u * sets + w, sets, u, w);
    Quotient(x * sets + y, sets, x, y);
    var span := sets * lineSize;
    Quotient(u * span, span, u, 0);
    Quotient(x * span, span, x, 0);
  }

  /** Above that, lines 2^32 bytes apart are taken for each other. */
  lemma LinesAliasAbove4G()
    ensures var (a, b, sets, lineSize) := (0x40, 0x1_0000_0040, 2, 64);
            && Block(a, lineSize) != Block(b, lineSize)
            && SetNo(Block(a, lineSize), sets) == SetNo(Block(b, lineSize), sets)
            && TagOf(a, sets, lineSize) == TagOf(b, sets, lineSize)
  {
    SameSetAndTag(0x40, 0x1_0000_0040, 2, 64, 0x200_0000);
  }
}
