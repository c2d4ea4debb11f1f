/** The simulator with use statistics: the low bits of a tag point to a slot that records
    how the line was used, and the slot travels with its line until the line is evicted. */
module CacheUse {
  import opened Lru
  import opened CacheSim
  import opened Arith
  import M = UseMask

  const TWO32: int := 0x1_0000_0000

  datatype LineUse = LineUse(count: int, mask: bv32)

  /** One reference to a line: its tag, the granules it touches, and the line's address. */
  datatype UseRef = UseRef(tag: UWord, mask: bv32, memline: UWord)

  /** One set: its ways (tag plus slot number), and the record in every slot. */
  datatype UseSet = UseSet(ways: seq<UWord>, use: seq<LineUse>, memlines: seq<UWord>)

  /** One more use, touching the granules of mask; the counter is a 32-bit word. */
  function Used(u: LineUse, mask: bv32): LineUse {
    LineUse((u.count + 1) % TWO32, M.Or(u.mask, mask))
  }

  function TagPart(x: UWord, span: nat): (t: UWord)
    requires span > 0
    ensures t <= x
  {
    PartsOf(x, span);
    x - x % span
  }

  function SlotPart(x: UWord, span: nat): (i: nat)
    requires span > 0
    ensures i < span
  {
    x % span
  }

  lemma PartsOf(x: UWord, span: nat)
    requires span > 0
    ensures 0 <= x % span <= x && (x - x % span) % span == 0
  {
    assert x == x / span * span + x % span;
    if x / span > 0 { PositiveMultiple(x / span, span); }
    Quotient(x - x % span, span, x / span, 0);
  }

  lemma Joined(t: UWord, i: nat, span: nat)
    requires span > 0 && t % span == 0 && i < span && t + i < 0x1_0000_0000_0000_0000
    ensures TagPart(t + i, span) == t && SlotPart(t + i, span) == i
  {
    assert t == t / span * span;
    Quotient(t + i, span, t / span, i);
  }

  /** A tag leaves room for the slot number in its low bits. */
  ghost predicate IsTag(t: UWord, span: nat)
    requires span > 0
  {
    t % span == 0 && t + span <= 0x1_0000_0000_0000_0000
  }

  function TagParts(ways: seq<UWord>, span: nat): (t: seq<UWord>)
    requires span > 0
    ensures |t| == |ways| && forall i :: 0 <= i < |ways| ==> t[i] == TagPart(ways[i], span)
  {
    seq(|ways|, i requires 0 <= i < |ways| => TagPart(ways[i], span))
  }

  function SlotParts(ways: seq<UWord>, span: nat): (t: seq<nat>)
    requires span > 0
    ensures |t| == |ways| && forall i :: 0 <= i < |ways| ==> t[i] == SlotPart(ways[i], span)
  {
    seq(|ways|, i requires 0 <= i < |ways| => SlotPart(ways[i], span))
  }

  /** The slots 0 .. n-1. */
  function Slots(n: nat): (s: seq<nat>) {
    seq(n, i requires 0 <= i < n => i)
  }

  ghost predicate SetOk(u: UseSet, span: nat) {
    && 0 < |u.ways| == |u.use| == |u.memlines| && |u.ways| <= span
    && multiset(SlotParts(u.ways, span)) == multiset(Slots(|u.ways|))
  }

  /** The slots of the ways are pairwise different and within the set. */
  lemma OwnSlots(u: UseSet, span: nat)
    requires SetOk(u, span)
    ensures forall i :: 0 <= i < |u.ways| ==> SlotPart(u.ways[i], span) < |u.ways|
    ensures forall i, j :: 0 <= i < j < |u.ways| ==> SlotPart(u.ways[i], span) != SlotPart(u.ways[j], span)
  {
    var s, n := SlotParts(u.ways, span), |u.ways|;
    forall i | 0 <= i < n ensures s[i] < n {
      assert s[i] in multiset(s);
      assert s[i] in Slots(n);
    }
    forall i, j | 0 <= i < j < n && s[i] == s[j] ensures false {
      assert s == s[..i] + [s[i]] + s[i + 1..j] + [s[j]] + s[j + 1..];
      assert multiset(s)[s[i]] >= 2;
      SlotsOnce(n, s[i]);
    }
  }

  lemma {:induction false} SlotsOnce(n: nat, x: nat)
    ensures multiset(Slots(n))[x] <= 1
    ensures multiset(Slots(n))[x] == if x < n then 1 else 0
  {
    if n > 0 {
      SlotsOnce(n - 1, x);
      assert Slots(n) == Slots(n - 1) + [n - 1];
    }
  }

  /** A reference: the line's own slot counts it on a hit; on a miss the evicted line's slot
      is taken over and starts afresh. */
  function TouchUse(u: UseSet, r: UseRef, span: nat): (v: UseSet)
    requires SetOk(u, span) && IsTag(r.tag, span)
  {
    var c := TagParts(u.ways, span);
    var k := Reach(c, r.tag);
    var slot := SlotPart(u.ways[k], span);
    OwnSlots(u, span);
    if r.tag in c then
      UseSet(Shuffle<UWord>(u.ways, k, u.ways[k]),
             u.use[slot := Used(u.use[slot], r.mask)], u.memlines)
    else
      UseSet(Shuffle<UWord>(u.ways, k, r.tag + slot), u.use[slot := Used(UNUSED, r.mask)],
        u.memlines[slot := r.memline])
  }

  lemma {:induction false} ShuffledMultiset<T(!new)>(s: seq<T>, k: nat)
    requires k < |s|
    ensures multiset(Shuffle(s, k, s[k])) == multiset(s)
  {
    assert s == s[..k] + [s[k]] + s[k + 1..];
  }

  /** What a reference keeps and does: slots stay a permutation, and without the slot bits
      it is the plain reference. */
  lemma TouchUseOk(u: UseSet, r: UseRef, span: nat)
    requires SetOk(u, span) && IsTag(r.tag, span)
    ensures var (v, k) := (TouchUse(u, r, span), Reach(TagParts(u.ways, span), r.tag));
            && SetOk(v, span) && |v.ways| == |u.ways|
            && TagParts(v.ways, span) == Touch(TagParts(u.ways, span), r.tag)
            && SlotParts(v.ways, span) == Shuffle(SlotParts(u.ways, span), k, SlotParts(u.ways, span)[k])
  {
    hide TagPart, SlotPart, IsTag, Reach, TagParts, SlotParts, Shuffle, Slots;
    var c := TagParts(u.ways, span);
    var k := Reach(c, r.tag);
    var slot := SlotPart(u.ways[k], span);
    OwnSlots(u, span);
    var v := TouchUse(u, r, span);
    var front := if r.tag in c then u.ways[k] else r.tag + slot;
    assert TagPart(front, span) == r.tag && SlotPart(front, span) == slot by { FrontParts(u, r, span); }
    assert v.ways == Shuffle<UWord>(u.ways, k, front);
    ShuffledParts(u.ways, k, front, span);
    ShuffledMultiset(SlotParts(u.ways, span), k);
  }

  lemma FrontParts(u: UseSet, r: UseRef, span: nat)
    requires SetOk(u, span) && IsTag(r.tag, span)
    ensures var c := TagParts(u.ways, span);
            var k := Reach(c, r.tag);
            var slot := SlotPart(u.ways[k], span);
            if r.tag in c then TagPart(u.ways[k], span) == r.tag
            else r.tag + slot < 0x1_0000_0000_0000_0000 && TagPart(r.tag + slot, span) == r.tag
                 && SlotPart(r.tag + slot, span) == slot
  {
    hide TagPart, SlotPart;
    var c := TagParts(u.ways, span);
    Joined(r.tag, SlotPart(u.ways[Reach(c, r.tag)], span), span);
  }

  lemma ShuffledParts(ways: seq<UWord>, k: nat, front: UWord, span: nat)
    requires span > 0 && k < |ways|
    ensures TagParts(Shuffle(ways, k, front), span) == Shuffle(TagParts(ways, span), k, TagPart(front, span))
    ensures SlotParts(Shuffle(ways, k, front), span) == Shuffle(SlotParts(ways, span), k, SlotPart(front, span))
  {
    hide TagPart, SlotPart;
  }

  /** The record of the line in way j. */
  function UseOf(u: UseSet, span: nat, j: nat): LineUse
    requires SetOk(u, span) && j < |u.ways|
  {
    OwnSlots(u, span);
    u.use[SlotPart(u.ways[j], span)]
  }

  /** The address recorded for the line in way j. */
  function MemlineOf(u: UseSet, span: nat, j: nat): UWord
    requires SetOk(u, span) && j < |u.ways|
  {
    OwnSlots(u, span);
    u.memlines[SlotPart(u.ways[j], span)]
  }

  /** Where the way at position j of the set came from when way k moved to the front. */
  function CameFrom(k: nat, j: nat): nat {
    if j == 0 then k else if j <= k then j - 1 else j
  }

  /** The records travel with their lines; only the referenced line's record changes. */
  lemma TouchUseAt(u: UseSet, r: UseRef, span: nat, j: nat)
    requires SetOk(u, span) && IsTag(r.tag, span) && j < |u.ways|
    ensures var (v, k) := (TouchUse(u, r, span), Reach(TagParts(u.ways, span), r.tag));
            var i := CameFrom(k, j);
            && SetOk(v, span) && |v.ways| == |u.ways|
            && if j > 0 then UseOf(v, span, j) == UseOf(u, span, i) && MemlineOf(v, span, j) == MemlineOf(u, span, i)
               else if r.tag in TagParts(u.ways, span)
               then UseOf(v, span, j) == Used(UseOf(u, span, i), r.mask)
                    && MemlineOf(v, span, j) == MemlineOf(u, span, i)
               else UseOf(v, span, j) == Used(UNUSED, r.mask) && MemlineOf(v, span, j) == r.memline
  {
    hide SlotPart, TagPart, Used, Reach, Touch, IsTag;
    TouchUseOk(u, r, span);
    OwnSlots(u, span);
    var v, k := TouchUse(u, r, span), Reach(TagParts(u.ways, span), r.tag);
    ShuffleAt(SlotParts(u.ways, span), k, SlotParts(u.ways, span)[k], j);
    assert SlotPart(v.ways[j], span) == SlotPart(u.ways[CameFrom(k, j)], span);
  }

  // ------------------------------------------------------------- whole runs

  const UNUSED := LineUse(0, 0)

  function Tags(h: seq<UseRef>): (t: seq<UWord>)
    ensures |t| == |h| && forall i :: 0 <= i < |h| ==> t[i] == h[i].tag
  {
    seq(|h|, i requires 0 <= i < |h| => h[i].tag)
  }

  ghost predicate TagsOk(h: seq<UseRef>, span: nat)
    requires span > 0
  {
    forall i :: 0 <= i < |h| ==> IsTag(h[i].tag, span)
  }

  /** A cleared set: tag 0 in every way, way i pointing to slot i. */
  function Cleared(n: nat): (u: UseSet)
    requires n <= 0x1_0000_0000_0000_0000
  {
    UseSet(seq(n, i requires 0 <= i < n => i), seq(n, _ => UNUSED), seq(n, _ => 0))
  }

  lemma ClearedOk(n: nat, span: nat)
    requires 0 < n <= span <= 0x1_0000_0000_0000_0000
    ensures SetOk(Cleared(n), span) && |Cleared(n).ways| == n
    ensures TagParts(Cleared(n).ways, span) == Window<UWord>([], n, 0) && SlotParts(Cleared(n).ways, span) == Slots(n)
  {
    forall i | 0 <= i < n ensures TagPart(i, span) == 0 && SlotPart(i, span) == i { Joined(0, i, span); }
    assert SlotParts(Cleared(n).ways, span) == Slots(n);
  }

  ghost function RunUse(h: seq<UseRef>, n: nat, span: nat): (u: UseSet)
    requires 0 < n <= span <= 0x1_0000_0000_0000_0000 && TagsOk(h, span)
    ensures SetOk(u, span) && |u.ways| == n
  {
    if h == [] then ClearedOk(n, span); Cleared(n) else
    var m := |h| - 1;
    TouchUseOk(RunUse(h[..m], n, span), h[m], span);
    TouchUse(RunUse(h[..m], n, span), h[m], span)
  }

  /** Erasing the slot bits gives the plain simulator on the same tags. */
  lemma {:induction false} RunUseIsPlain(h: seq<UseRef>, n: nat, span: nat)
    requires 0 < n <= span <= 0x1_0000_0000_0000_0000 && TagsOk(h, span)
    ensures var t := TagParts(RunUse(h, n, span).ways, span);
            t == Run(Window<UWord>([], n, 0), Tags(h)) == Window(Recent<UWord>([0] + Tags(h)), n, 0)
  {
    hide TouchUse, Touch, Window, Recent, TagParts, SetOk;
    RunIsRecent<UWord>(Tags(h), n, 0);
    if h == [] {
      ClearedOk(n, span);
    } else {
      var m := |h| - 1;
      RunUseIsPlain(h[..m], n, span);
      assert Tags(h)[..m] == Tags(h[..m]);
      TouchUseOk(RunUse(h[..m], n, span), h[m], span);
    }
  }

  /** How the references to t from position i of h on used it: their number, modulo 2^32, and
      the granules they touched. */
  function UsesFrom(h: seq<UseRef>, t: UWord, i: nat): LineUse {
    if |h| <= i then UNUSED else
    var m := |h| - 1;
    var before := UsesFrom(h[..m], t, i);
    if h[m].tag == t then Used(before, h[m].mask) else before
  }

  /** Reference i of h brought t in. */
  ghost predicate BroughtIn(h: seq<UseRef>, t: UWord, i: nat, n: nat)
    requires n > 0
  {
    i < |h| && h[i].tag == t && !Resident<UWord>(Tags(h[..i]), t, n, 0)
  }

  /** What the record of one way must say: the uses of its line since that was brought in,
      and the address of the line the reference that brought it in was for. */
  ghost predicate Recorded(h: seq<UseRef>, t: UWord, n: nat, use: LineUse, memline: UWord)
    requires n > 0
  {
    var i := Installed<UWord>(Tags(h), t, n, 0);
    use == UsesFrom(h, t, i) && (BroughtIn(h, t, i, n) ==> memline == h[i].memline)
  }

  /** A reference to another tag leaves the record as it must be. */
  lemma RecordedOther(h: seq<UseRef>, t: UWord, n: nat, use: LineUse, memline: UWord)
    requires n > 0 && h != [] && h[|h| - 1].tag != t && Recorded(h[..|h| - 1], t, n, use, memline)
    ensures Recorded(h, t, n, use, memline)
  {
    hide Resident;
    var m := |h| - 1;
    assert Tags(h)[..m] == Tags(h[..m]);
    var i := Installed<UWord>(Tags(h), t, n, 0);
    assert i < m ==> h[..m][..i] == h[..i];
    UsesAfter(h, t, i);
  }

  lemma UsesAfter(h: seq<UseRef>, t: UWord, i: nat)
    requires h != [] && h[|h| - 1].tag != t
    ensures UsesFrom(h, t, i) == UsesFrom(h[..|h| - 1], t, i)
  {
  }

  /** A hit adds to the record. */
  lemma RecordedHit(h: seq<UseRef>, n: nat, use: LineUse, memline: UWord)
    requires n > 0 && h != [] && Recorded(h[..|h| - 1], h[|h| - 1].tag, n, use, memline)
    requires Resident<UWord>(Tags(h[..|h| - 1]), h[|h| - 1].tag, n, 0)
    ensures Recorded(h, h[|h| - 1].tag, n, Used(use, h[|h| - 1].mask), memline)
  {
    hide Resident, UsesFrom, Used;
    var m, t := |h| - 1, h[|h| - 1].tag;
    var before := h[..m];
    assert Tags(h)[..m] == Tags(before);
    var i := Installed<UWord>(Tags(h), t, n, 0);
    assert i == Installed<UWord>(Tags(before), t, n, 0) && i <= m;
    UsesHit(h, i);
    if BroughtIn(h, t, i, n) {
      assert i < m;
      assert before[..i] == h[..i];
      assert BroughtIn(before, t, i, n);
    }
  }

  lemma UsesHit(h: seq<UseRef>, i: nat)
    requires h != [] && i < |h|
    ensures var before := UsesFrom(h[..|h| - 1], h[|h| - 1].tag, i);
            UsesFrom(h, h[|h| - 1].tag, i) == Used(before, h[|h| - 1].mask)
  {
    hide Used;
  }

  /** A miss starts it afresh. */
  lemma RecordedMiss(h: seq<UseRef>, n: nat)
    requires n > 0 && h != [] && !Resident<UWord>(Tags(h[..|h| - 1]), h[|h| - 1].tag, n, 0)
    ensures Recorded(h, h[|h| - 1].tag, n, Used(UNUSED, h[|h| - 1].mask), h[|h| - 1].memline)
  {
    hide Resident;
    var m := |h| - 1;
    assert Tags(h)[..m] == Tags(h[..m]);
    assert UsesFrom(h[..m], h[m].tag, m) == UNUSED;
  }

  /** The record in the slot of way j. */
  ghost predicate WayRecorded(h: seq<UseRef>, n: nat, u: UseSet, span: nat, j: nat)
    requires SetOk(u, span) && j < |u.ways| == n
  {
    var r := Recent<UWord>([0] + Tags(h));
    if j < |r| then Recorded(h, r[j], n, UseOf(u, span, j), MemlineOf(u, span, j)) else UseOf(u, span, j) == UNUSED
  }

  lemma RecentStep(h: seq<UseRef>)
    requires h != []
    ensures var m := |h| - 1; Recent<UWord>([0] + Tags(h)) == [h[m].tag]
                              + Without(Recent<UWord>([0] + Tags(h[..m])), h[m].tag)
  {
    var m := |h| - 1;
    assert ([0] + Tags(h))[..|h|] == [0] + Tags(h[..m]);
  }

  /** Where each of the tags most recently used stood before the last reference. */
  lemma RecencyStep(h: seq<UseRef>, n: nat, k: nat, j: nat)
    requires h != [] && j < n
    requires k == Reach(Window<UWord>(Recent<UWord>([0] + Tags(h[..|h| - 1])), n, 0), h[|h| - 1].tag)
    ensures var (t, w) := (h[|h| - 1].tag, Window<UWord>(Recent<UWord>([0] + Tags(h[..|h| - 1])), n, 0));
            var (r, q, i) := (Recent<UWord>([0] + Tags(h[..|h| - 1])), Recent<UWord>([0] + Tags(h)), CameFrom(k, j));
            && i < n && q != [] && q[0] == t && (t in w ==> k < |r| && r[k] == t)
            && (j > 0 ==> (j < |q| <==> i < |r|) && (j < |q| ==> q[j] == r[i] && q[j] != t))
  {
    hide Recent, Window, Position, Reach;
    var t, r := h[|h| - 1].tag, Recent<UWord>([0] + Tags(h[..|h| - 1]));
    RecentStep(h);
    RecentDistinct<UWord>([0] + Tags(h[..|h| - 1]));
    WithoutPosition(r, t);
    WhereReached<UWord>(r, t, n, 0, k);
  }

  /** After any references the slot of each way holding one of the tags most recently used
      records exactly that line's uses since it was brought in; other slots are unused. */
  lemma {:induction false} SlotsRecordUses(h: seq<UseRef>, n: nat, span: nat, j: nat)
    requires j < n <= span <= 0x1_0000_0000_0000_0000 && TagsOk(h, span)
    ensures WayRecorded(h, n, RunUse(h, n, span), span, j)
  {
    hide Recorded, UseOf, MemlineOf, Recent, Window, Position, IsTag, SetOk, Used, Touch, Reach, TouchUse;
    if h == [] {
      ClearedRecorded(n, span, j);
    } else {
      var m := |h| - 1;
      var before, t := h[..m], h[m].tag;
      var u := RunUse(before, n, span);
      var r, q := Recent<UWord>([0] + Tags(before)), Recent<UWord>([0] + Tags(h));
      RunUseIsPlain(before, n, span);
      var k := Reach(TagParts(u.ways, span), t);
      RecencyStep(h, n, k, j);
      TouchUseAt(u, h[m], span, j);
      var i := CameFrom(k, j);
      SlotsRecordUses(before, n, span, i);
      if j > 0 {
        if j < |q| { RecordedOther(h, q[j], n, UseOf(u, span, i), MemlineOf(u, span, i)); }
      } else if t in TagParts(u.ways, span) {
        RecordedHit(h, n, UseOf(u, span, i), MemlineOf(u, span, i));
      } else {
        RecordedMiss(h, n);
      }
    }
  }

  lemma ClearedRecorded(n: nat, span: nat, j: nat)
    requires j < n <= span <= 0x1_0000_0000_0000_0000
    ensures SetOk(RunUse([], n, span), span) && WayRecorded([], n, RunUse([], n, span), span, j)
  {
    ClearedOk(n, span);
    assert [0] + Tags([]) == [0];
    assert Recent<UWord>([0]) == [0];
  }

  // ------------------------------------------------------- what a line's record says

  /** The references to t from position i on. */
  function UsesAt(h: seq<UseRef>, t: UWord, i: nat): set<nat> {
    set k: nat | i <= k < |h| && h[k].tag == t
  }

  lemma UsesAtNext(h: seq<UseRef>, t: UWord, i: nat)
    requires i < |h|
    ensures var m := |h| - 1;
            |UsesAt(h, t, i)| == |UsesAt(h[..m], t, i)| + if h[m].tag == t then 1 else 0
  {
    var m := |h| - 1;
    assert UsesAt(h, t, i) == UsesAt(h[..m], t, i) + (if h[m].tag == t then {m} else {});
  }

  /** A line's record counts its uses, as a 32-bit word. */
  lemma {:induction false} UsesCounted(h: seq<UseRef>, t: UWord, i: nat)
    ensures UsesFrom(h, t, i).count == |UsesAt(h, t, i)| % 4294967296
  {
    hide M.Or;
    if |h| <= i {
      assert UsesAt(h, t, i) == {};
    } else {
      hide UsesAt;
      UsesCounted(h[..|h| - 1], t, i);
      UsesAtNext(h, t, i);
    }
  }

  /** A line's mask holds the granules of every use. */
  lemma {:induction false} UsesMaskBits(h: seq<UseRef>, t: UWord, i: nat, b: nat)
    ensures M.Bit(UsesFrom(h, t, i).mask, b) <==> exists k :: i <= k < |h| && h[k].tag == t && M.Bit(h[k].mask, b)
  {
    hide M.Bit, M.Or;
    if |h| <= i {
      NoBit(b);
    } else {
      var m := |h| - 1;
      UsesMaskBits(h[..m], t, i, b);
      M.OrBits(UsesFrom(h[..m], t, i).mask, h[m].mask, b);
      if M.Bit(UsesFrom(h, t, i).mask, b) {
        if h[m].tag != t || !M.Bit(h[m].mask, b) {
          var k :| i <= k < m && h[..m][k].tag == t && M.Bit(h[..m][k].mask, b);
          assert h[k] == h[..m][k];
        }
      }
      forall k | i <= k < |h| && h[k].tag == t && M.Bit(h[k].mask, b) ensures M.Bit(UsesFrom(h, t, i).mask, b) {
        if k < m { assert h[..m][k] == h[k]; }
      }
    }
  }

  lemma NoBit(b: nat)
    ensures !M.Bit(0, b)
  {
    M.AndZero(M.One(b));
  }

  /** Reference k touches the bytes ranges[k].0 .. ranges[k].1 of its line. */
  ghost predicate Ranged(h: seq<UseRef>, ranges: seq<(nat, nat)>, lineSize: nat) {
    && M.LineSizeOk(lineSize) && |ranges| == |h|
    && forall k :: 0 <= k < |h| ==> ranges[k].0 <= ranges[k].1 < lineSize
                                    && h[k].mask == M.RangeMask(ranges[k].0, ranges[k].1, lineSize)
  }

  /** Reference k is to t and touches the part of the line that byte x lies in. */
  ghost predicate Touches(h: seq<UseRef>, ranges: seq<(nat, nat)>, t: UWord, x: nat, lineSize: nat, k: nat)
    requires Ranged(h, ranges, lineSize) && k < |h|
  {
    h[k].tag == t && exists y :: ranges[k].0 <= y <= ranges[k].1 && M.FirstBit(y, lineSize) == M.FirstBit(x, lineSize)
  }

  lemma TouchesIsBit(h: seq<UseRef>, ranges: seq<(nat, nat)>, t: UWord, x: nat, lineSize: nat, k: nat)
    requires Ranged(h, ranges, lineSize) && k < |h| && x < lineSize
    ensures Touches(h, ranges, t, x, lineSize, k) <==> h[k].tag == t && M.Bit(h[k].mask, M.FirstBit(x, lineSize))
  {
    hide M.Bit, M.RangeMask;
    M.BitsOfByte(x, lineSize);
    var (i, j) := ranges[k];
    var b := M.FirstBit(x, lineSize);
    M.RangeMaskBits(i, j, lineSize, b);
    forall y | i <= y <= j ensures M.StandsFor(b, y, lineSize) <==> M.FirstBit(y, lineSize) == b {
    }
    if M.Bit(h[k].mask, b) {
      var y :| i <= y <= j && M.StandsFor(b, y, lineSize);
      assert M.FirstBit(y, lineSize) == b;
    }
    if y :| i <= y <= j && M.FirstBit(y, lineSize) == b {
      assert M.StandsFor(b, y, lineSize);
    }
  }

  lemma {:induction false} UsesMaskWhole(h: seq<UseRef>, ranges: seq<(nat, nat)>, t: UWord, i: nat, lineSize: nat)
    requires Ranged(h, ranges, lineSize)
    ensures M.LineSizeOk(lineSize) && M.WholeBytes(UsesFrom(h, t, i).mask, lineSize)
  {
    hide M.WholeBytes, M.RangeMask, M.Or;
    M.ZeroIsWhole(lineSize);
    if |h| > i {
      var m := |h| - 1;
      UsesMaskWhole(h[..m], ranges[..m], t, i, lineSize);
      M.RangeIsWhole(ranges[m].0, ranges[m].1, lineSize);
      M.OrIsWhole(UsesFrom(h[..m], t, i).mask, h[m].mask, lineSize);
    }
  }

  /** The loss charged for a line is the number of its bytes that lie in parts no reference
      touched since the line was brought in. */
  lemma LossIsUntouched(h: seq<UseRef>, ranges: seq<(nat, nat)>, t: UWord, i: nat, lineSize: nat)
    requires Ranged(h, ranges, lineSize)
    ensures var mask := UsesFrom(h, t, i).mask;
            && M.WholeBytes(mask, lineSize)
            && (32 - M.Ones(mask, 32)) * lineSize / 32 == |M.Untouched(mask, lineSize, lineSize)|
            && forall x: nat :: x in M.Untouched(mask, lineSize, lineSize)
                           <==> x < lineSize && forall k :: i <= k < |h| ==> !Touches(h, ranges, t, x, lineSize, k)
  {
    hide Touches, Ranged, UsesFrom, M.WholeBytes;
    var mask := UsesFrom(h, t, i).mask;
    UsesMaskWhole(h, ranges, t, i, lineSize);
    M.LossInBytes(mask, lineSize, M.Ones(mask, 32));
    forall x: nat | x < lineSize
      ensures M.Touched(mask, x, lineSize) <==> exists k :: i <= k < |h| && Touches(h, ranges, t, x, lineSize, k)
    {
      UsesMaskBits(h, t, i, M.FirstBit(x, lineSize));
      forall k | i <= k < |h|
        ensures Touches(h, ranges, t, x, lineSize, k) <==> h[k].tag == t && M.Bit(h[k].mask, M.FirstBit(x, lineSize))
      {
        TouchesIsBit(h, ranges, t, x, lineSize, k);
      }
    }
  }

  // ---------------------------------------------------------------- in place

  /** Set number i of the three arrays. */
  function UseSetIn(tags: seq<UWord>, use: seq<LineUse>, memlines: seq<UWord>, i: nat, sets: nat,
          assoc: nat): (u: UseSet)
    requires i < sets && |tags| == |use| == |memlines| == sets * assoc
  {
    UseSet(SetIn(tags, i, sets, assoc), SetIn(use, i, sets, assoc), SetIn(memlines, i, sets, assoc))
  }

  /** A reference to a set, put together from the pieces that are written. */
  lemma TouchedUse(u: UseSet, r: UseRef, span: nat, k: nat, slot: nat, hit: bool, use: LineUse, memline: UWord)
    requires SetOk(u, span) && IsTag(r.tag, span) && k == Reach(TagParts(u.ways, span), r.tag)
    requires slot == SlotPart(u.ways[k], span) < |u.ways| && (hit <==> r.tag in TagParts(u.ways, span))
             && r.tag + slot < 0x1_0000_0000_0000_0000
    requires use == Used(if hit then u.use[slot] else UNUSED, r.mask) && memline == if hit then u.memlines[slot]
             else r.memline
    ensures TouchUse(u, r, span)
            == UseSet(Shuffle<UWord>(u.ways, k, if hit then u.ways[k] else r.tag + slot), u.use[slot := use],
              u.memlines[slot := memline])
    ensures SetOk(TouchUse(u, r, span), span)
    ensures !hit ==> UseOf(u, span, |u.ways| - 1) == u.use[slot]
  {
    hide Shuffle, TagPart, SlotPart, IsTag, Used;
    TouchUseOk(u, r, span);
    var v := TouchUse(u, r, span);
    if hit {
      assert u.memlines[slot := u.memlines[slot]] == u.memlines;
      assert v.ways == Shuffle<UWord>(u.ways, k, u.ways[k]);
      assert v.use == u.use[slot := use];
    } else {
      assert v.ways == Shuffle<UWord>(u.ways, k, r.tag + slot);
      assert v.use == u.use[slot := use] && v.memlines == u.memlines[slot := memline];
    }
  }

  lemma SlotOfSet<T>(t: seq<T>, no: nat, slot: nat, sets: nat, assoc: nat)
    requires no < sets && slot < assoc && |t| == sets * assoc
    ensures no * assoc + slot < |t| && SetIn(t, no, sets, assoc)[slot] == t[no * assoc + slot]
  {
    SetBounds(no, sets, assoc);
  }

  /** The arrays after a reference to set no. */
  lemma AccessedSets(t: seq<UWord>, u: seq<UWord>, uses: seq<LineUse>, lines: seq<UWord>, use: LineUse, line: UWord,
                     sets: nat, assoc: nat, no: nat, k: nat, slot: nat, front: UWord, i: nat)
    requires 0 < assoc && |t| == |uses| == |lines| == sets * assoc && no < sets && i < sets && k < assoc && slot < assoc
    requires Moved(t, u, no * assoc, k, front)
    ensures |u| == |t| && no * assoc + slot < |t|
    ensures var (v, idx) := (UseSetIn(t, uses, lines, i, sets, assoc), no * assoc + slot);
            UseSetIn(u, uses[idx := use], lines[idx := line], i, sets, assoc)
            == if i == no then UseSet(Shuffle<UWord>(v.ways, k, front), v.use[slot := use], v.memlines[slot := line])
              else v
  {
    hide Shuffle, SetIn, Moved;
    WaysOf(t, u, sets, assoc, no, k, front);
    SetInUpdated(uses, no, slot, use, i, sets, assoc);
    SetInUpdated(lines, no, slot, line, i, sets, assoc);
  }

  lemma ClearedSet(t: seq<UWord>, uses: seq<LineUse>, lines: seq<UWord>, sets: nat, assoc: nat, span: nat, i: nat)
    requires i < sets && 0 < assoc <= span <= 0x1_0000_0000_0000_0000 && |t| == |uses| == |lines| == sets * assoc
    requires forall j :: 0 <= j < |t| ==> t[j] == j % assoc && uses[j] == UNUSED && lines[j] == 0
    ensures UseSetIn(t, uses, lines, i, sets, assoc) == Cleared(assoc) && SetOk(Cleared(assoc), span)
  {
    ClearedOk(assoc, span);
    SetBounds(i, sets, assoc);
    var s := SetIn(t, i, sets, assoc);
    forall j | 0 <= j < assoc ensures s[j] == j { Quotient(i * assoc + j, assoc, i, j); }
  }

  /** A cache with use records: tags, and one record and one line address for each slot. */
  class UseCache {
    const assoc: nat
    const sets: nat
    const span: nat
    const tags: array<UWord>
    const use: array<LineUse>
    const memlines: array<UWord>

    ghost predicate Shaped() {
      && 0 < assoc <= span <= 0x1_0000_0000_0000_0000 && sets > 0
      && tags.Length == use.Length == memlines.Length == sets * assoc
      && tags != memlines
    }

    ghost function SetAt(i: nat): (u: UseSet)
      requires Shaped() && i < sets
      reads tags, use, memlines
    {
      UseSetIn(tags[..], use[..], memlines[..], i, sets, assoc)
    }

    ghost predicate Valid()
      reads tags, use, memlines
    {
      Shaped() && forall i :: 0 <= i < sets ==> SetOk(SetAt(i), span)
    }

    constructor (sets: nat, assoc: nat, span: nat)
      requires sets > 0 && 0 < assoc <= span <= 0x1_0000_0000_0000_0000
      ensures Valid() && this.sets == sets && this.assoc == assoc && this.span == span
      ensures fresh(tags) && fresh(use) && fresh(memlines)
      ensures forall i :: 0 <= i < sets ==> SetAt(i) == Cleared(assoc)
    {
      hide UseSetIn, SetOk;
      this.sets := sets;
      this.assoc := assoc;
      this.span := span;
      tags := new UWord[sets * assoc](i requires 0 <= i => i % assoc);
      use := new LineUse[sets * assoc](_ => UNUSED);
      memlines := new UWord[sets * assoc](_ => 0);
      new;
      forall i | 0 <= i < sets ensures SetAt(i) == Cleared(assoc) && SetOk(SetAt(i), span) {
        ClearedSet(tags[..], use[..], memlines[..], sets, assoc, span, i);
      }
    }

    /** A reference to a line: its slot counts the use; on a miss the slot of the evicted line
        is taken over, and what it recorded is returned. */
    method AccessLine(set_no: nat, tag: UWord, mask: bv32, memline: UWord) returns (hit: bool, evicted: LineUse)
      requires Valid() && set_no < sets && IsTag(tag, span)
      modifies tags, use, memlines
      ensures Valid()
      ensures forall i :: 0 <= i < sets ==>
                SetAt(i) == if i == set_no then TouchUse(old(SetAt(i)), UseRef(tag, mask, memline), span)
                  else old(SetAt(i))
      ensures hit <==> tag in TagParts(old(SetAt(set_no)).ways, span)
      ensures !hit ==> evicted == UseOf(old(SetAt(set_no)), span, assoc - 1)
    {
      hide Shuffle, TagPart, SlotPart, IsTag, SetIn, Moved, Used, SetOk, Reach, TouchUse, TagParts, UseOf;
      ghost var t, uses, lines := tags[..], use[..], memlines[..];
      ghost var u := SetAt(set_no);
      ghost var r := UseRef(tag, mask, memline);
      OwnSlots(u, span);
      SetSizes(u, span);
      ghost var k;
      var slot;
      hit, slot, k := TouchWays(tags, sets, assoc, span, set_no, tag);
      SlotOfSet(uses, set_no, slot, sets, assoc);
      SlotOfSet(lines, set_no, slot, sets, assoc);
      var idx := set_no * assoc + slot;
      evicted := use[idx];
      if hit {
        use[idx] := Used(use[idx], mask);
      } else {
        use[idx] := Used(UNUSED, mask);
        memlines[idx] := memline;
      }
      assert use[..] == uses[idx := use[idx]] && memlines[..] == lines[idx := memlines[idx]];
      TouchedUse(u, r, span, k, slot, hit, use[idx], memlines[idx]);
      forall i | 0 <= i < sets
        ensures SetAt(i) == (if i == set_no then TouchUse(u, r, span) else old(SetAt(i))) && SetOk(SetAt(i), span)
      {
        AccessedSets(t, tags[..], uses, lines, use[idx], memlines[idx], sets, assoc, set_no, k, slot,
                     if hit then u.ways[k] else tag + slot, i);
      }
    }

    /** A reference to a line of the last level. */
    method AccessLL(set_no: nat, tag: UWord, memline: UWord) returns (hit: bool, evicted: LineUse)
      requires Valid() && set_no < sets && IsTag(tag, span)
      modifies tags, use, memlines
      ensures Valid()
      ensures forall i :: 0 <= i < sets ==>
                SetAt(i) == if i == set_no then TouchLL(old(SetAt(i)), UseRef(tag, 0, memline), span) else old(SetAt(i))
      ensures hit <==> tag in TagParts(old(SetAt(set_no)).ways, span)
      ensures !hit ==> evicted == UseOf(old(SetAt(set_no)), span, assoc - 1)
    {
      hide Shuffle, TagPart, SlotPart, IsTag, SetIn, Moved, Used, SetOk, Reach, TouchLL, TagParts, UseOf;
      ghost var t, uses, lines := tags[..], use[..], memlines[..];
      ghost var u := SetAt(set_no);
      ghost var r := UseRef(tag, 0, memline);
      OwnSlots(u, span);
      SetSizes(u, span);
      ghost var k;
      var slot;
      hit, slot, k := TouchWays(tags, sets, assoc, span, set_no, tag);
      SlotOfSet(uses, set_no, slot, sets, assoc);
      SlotOfSet(lines, set_no, slot, sets, assoc);
      var idx := set_no * assoc + slot;
      evicted := use[idx];
      if !hit {
        use[idx] := UNUSED;
        memlines[idx] := memline;
      }
      assert use[..] == uses[idx := use[idx]] && memlines[..] == lines[idx := memlines[idx]];
      TouchedLL(u, r, span, k, slot, hit, use[idx], memlines[idx]);
      forall i | 0 <= i < sets
        ensures SetAt(i) == (if i == set_no then TouchLL(u, r, span) else old(SetAt(i))) && SetOk(SetAt(i), span)
      {
        AccessedSets(t, tags[..], uses, lines, use[idx], memlines[idx], sets, assoc, set_no, k, slot,
                     if hit then u.ways[k] else tag + slot, i);
      }
    }
  }

  lemma TouchedLL(u: UseSet, r: UseRef, span: nat, k: nat, slot: nat, hit: bool, use: LineUse, memline: UWord)
    requires SetOk(u, span) && IsTag(r.tag, span) && k == Reach(TagParts(u.ways, span), r.tag)
    requires slot == SlotPart(u.ways[k], span) < |u.ways| && (hit <==> r.tag in TagParts(u.ways, span))
             && r.tag + slot < 0x1_0000_0000_0000_0000
    requires use == (if hit then u.use[slot] else UNUSED) && memline == if hit then u.memlines[slot] else r.memline
    ensures TouchLL(u, r, span)
            == UseSet(Shuffle<UWord>(u.ways, k, if hit then u.ways[k] else r.tag + slot), u.use[slot := use],
              u.memlines[slot := memline])
    ensures SetOk(TouchLL(u, r, span), span)
    ensures !hit ==> UseOf(u, span, |u.ways| - 1) == u.use[slot]
  {
    hide Shuffle, TagPart, SlotPart, IsTag, Used, TouchUse;
    TouchLLOk(u, r, span);
    TouchedUse(u, r, span, k, slot, hit, Used(if hit then u.use[slot] else UNUSED, r.mask), memline);
    assert u.use[slot := u.use[slot]] == u.use;
  }

  /** What is charged to the code that loaded a line when the line is evicted: nothing if it
      was never used. */
  method ChargeEvicted(evicted: LineUse, line_size: nat) returns (acCost: nat, spLoss: nat)
    requires M.LineSizeOk(line_size) && M.WholeBytes(evicted.mask, line_size) && 0 <= evicted.count < TWO32
    ensures if evicted.count == 0 then acCost == 0 && spLoss == 0
            else acCost * evicted.count <= 1000 < (acCost + 1) * evicted.count
                 && spLoss == |M.Untouched(evicted.mask, line_size, line_size)|
  {
    hide M.WholeBytes, M.Untouched;
    acCost, spLoss := 0, 0;
    if evicted.count > 0 {
      acCost := 1000 / evicted.count;
      spLoss := M.SpatialLoss(evicted.mask, line_size);
      DivisionBounds(1000, evicted.count);
    }
  }

  lemma DivisionBounds(x: nat, d: nat)
    requires d > 0
    ensures x / d * d <= x < (x / d + 1) * d
  {
    assert x == x / d * d + x % d;
  }

  // --------------------------------------------------------------- last level

  /** A reference to the last level: hits count nothing there, a miss clears the slot. */
  function TouchLL(u: UseSet, r: UseRef, span: nat): (v: UseSet)
    requires SetOk(u, span) && IsTag(r.tag, span)
  {
    var c := TagParts(u.ways, span);
    OwnSlots(u, span);
    var v := TouchUse(u, r, span);
    UseSet(v.ways, if r.tag in c then u.use else u.use[SlotPart(u.ways[Reach(c, r.tag)], span) := UNUSED], v.memlines)
  }

  lemma TouchLLOk(u: UseSet, r: UseRef, span: nat)
    requires SetOk(u, span) && IsTag(r.tag, span)
    ensures SetOk(TouchLL(u, r, span), span) && |TouchLL(u, r, span).ways| == |u.ways|
  {
    hide Shuffle, TagPart, SlotPart, IsTag, Used, TouchUse, Reach;
    TouchUseOk(u, r, span);
    OwnSlots(u, span);
    SameWaysOk(TouchUse(u, r, span), TouchLL(u, r, span), span);
  }

  lemma SameWaysOk(u: UseSet, v: UseSet, span: nat)
    requires SetOk(u, span) && v.ways == u.ways && v.memlines == u.memlines && |v.use| == |u.use|
    ensures SetOk(v, span)
  {
  }

  ghost function RunLL(h: seq<UseRef>, n: nat, span: nat): (u: UseSet)
    requires 0 < n <= span <= 0x1_0000_0000_0000_0000 && TagsOk(h, span)
    ensures SetOk(u, span) && |u.ways| == n
  {
    if h == [] then ClearedOk(n, span); Cleared(n) else
    var m := |h| - 1;
    TouchLLOk(RunLL(h[..m], n, span), h[m], span);
    TouchLL(RunLL(h[..m], n, span), h[m], span)
  }

  lemma SameWays(u: UseSet, w: UseSet, r: UseRef, span: nat)
    requires SetOk(u, span) && SetOk(w, span) && IsTag(r.tag, span) && u.ways == w.ways && u.memlines == w.memlines
    ensures var (x, y) := (TouchLL(u, r, span), TouchUse(w, r, span)); x.ways == y.ways && x.memlines == y.memlines
  {
    hide Shuffle, TagPart, SlotPart, IsTag, Used, Reach, SetOk;
    OwnSlots(u, span);
    OwnSlots(w, span);
    SetSizes(u, span);
    SetSizes(w, span);
  }

  /** So in every run the last level keeps tags, slots and line addresses as the first does. */
  lemma {:induction false} RunLLIsRunUse(h: seq<UseRef>, n: nat, span: nat)
    requires 0 < n <= span <= 0x1_0000_0000_0000_0000 && TagsOk(h, span)
    ensures RunLL(h, n, span).ways == RunUse(h, n, span).ways
            && RunLL(h, n, span).memlines == RunUse(h, n, span).memlines
  {
    hide TouchUse, TouchLL, IsTag, SetOk;
    if h != [] {
      var m := |h| - 1;
      RunLLIsRunUse(h[..m], n, span);
      SameWays(RunLL(h[..m], n, span), RunUse(h[..m], n, span), h[m], span);
    }
  }

  lemma SetSizes(u: UseSet, span: nat)
    requires SetOk(u, span)
    ensures 0 < |u.ways| == |u.use| == |u.memlines|
  {
  }

  lemma WaysHit(u: seq<UWord>, tag: UWord, span: nat, i: nat)
    requires span > 0 && i < |u| && TagPart(u[i], span) == tag && forall j :: 0 <= j < i ==> TagPart(u[j], span) != tag
    ensures tag in TagParts(u, span) && Reach(TagParts(u, span), tag) == i
  {
    hide TagPart;
    PositionIs(TagParts(u, span), tag, i);
  }

  lemma WaysMiss(u: seq<UWord>, tag: UWord, span: nat)
    requires span > 0 && u != [] && forall j :: 0 <= j < |u| ==> TagPart(u[j], span) != tag
    ensures tag !in TagParts(u, span) && Reach(TagParts(u, span), tag) == |u| - 1
  {
    hide TagPart;
  }

  /** Look a tag up in its set, move its way to the front, or on a miss install it in the
      last way's place under that way's slot. */
  method TouchWays(tags: array<UWord>, sets: nat, assoc: nat, span: nat, set_no: nat, tag: UWord)
    returns (hit: bool, slot: nat, ghost k: nat)
    requires 0 < assoc && span > 0 && tags.Length == sets * assoc && set_no < sets && IsTag(tag, span)
    modifies tags
    ensures var u := SetIn(old(tags[..]), set_no, sets, assoc);
            && k == Reach(TagParts(u, span), tag) && (hit <==> tag in TagParts(u, span)) && slot == SlotPart(u[k], span)
            && k < assoc && tag + slot < 0x1_0000_0000_0000_0000
            && Moved(old(tags[..]), tags[..], set_no * assoc, k, if hit then u[k] else tag + slot)
  {
    hide TagPart, SlotPart, IsTag, Reach, TagParts;
    SetBounds(set_no, sets, assoc);
    var base := set_no * assoc;
    ghost var u := SetIn(tags[..], set_no, sets, assoc);
    var i := 0;
    while i < assoc
      invariant 0 <= i <= assoc && forall j :: 0 <= j < i ==> TagPart(u[j], span) != tag
    {
      if tag == TagPart(tags[base + i], span) {
        WaysHit(u, tag, span, i);
        var tmp_tag := tags[base + i];
        ShuffleDown(tags, base, i);
        tags[base] := tmp_tag;
        FrontFits(tag, SlotPart(tmp_tag, span), span);
        return true, SlotPart(tmp_tag, span), i;
      }
      i := i + 1;
    }
    WaysMiss(u, tag, span);
    slot := SlotPart(tags[base + assoc - 1], span);
    FrontFits(tag, slot, span);
    ShuffleDown(tags, base, assoc - 1);
    tags[base] := tag + slot;
    hit, k := false, assoc - 1;
  }

  lemma FrontFits(tag: UWord, slot: nat, span: nat)
    requires span > 0 && IsTag(tag, span) && slot < span
    ensures tag + slot < 0x1_0000_0000_0000_0000
  {
  }

  lemma WaysOf(t: seq<UWord>, u: seq<UWord>, sets: nat, assoc: nat, no: nat, k: nat, tag: UWord)
    requires assoc > 0 && |t| == sets * assoc && no < sets && k < assoc && Moved(t, u, no * assoc, k, tag)
    ensures |u| == |t|
    ensures forall i :: 0 <= i < sets ==> SetIn(u, i, sets, assoc) == if i == no
            then Shuffle(SetIn(t, no, sets, assoc), k, tag) else SetIn(t, i, sets, assoc)
  {
    hide Shuffle, SetIn, Moved;
    MovedLength(t, u, no * assoc, k, tag);
    MovedSet(t, u, sets, assoc, no, k, tag);
    forall i | 0 <= i < sets && i != no ensures SetIn(u, i, sets, assoc) == SetIn(t, i, sets, assoc) {
      OtherSet(t, u, sets, assoc, no, k, tag, i);
    }
  }
}
