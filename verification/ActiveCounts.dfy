/** What the activation counts are: in every run, the calls on the stack that count, and the function
    each level began in.  With it goes that contexts are those of the function stack. */
module ActiveCounts {
  import opened BlockEntry
  import opened ShadowStack
  import T = Threads

  // ------------------------------------------------- contexts and the function stack

  /** Each call saved the context of the function stack it goes back to. */
  ghost predicate FramesFit(frames: seq<Frame>, bottom: nat, fns: seq<Slot>)
    decreases |frames|
  {
    if |frames| <= bottom then true else
    var (m, f) := (|frames| - 1, frames[|frames| - 1]);
    if f.jcc.None? then FramesFit(frames[..m], bottom, fns)
    else
      && f.saved.Some? && f.saved.value.fnSp < |fns|
      && GetCxt(fns[..f.saved.value.fnSp + 1]) == Some(f.saved.value.cxt)
      && FramesFit(frames[..m], bottom, fns[..f.saved.value.fnSp + 1])
  }

  ghost predicate LevelFits(s: Shadow) {
    s.fns != [] && s.cxt == GetCxt(s.fns) && FramesFit(s.frames, s.bottom, s.fns)
  }

  /** The last block ran in the current context. */
  predicate BlockFits(s: Shadow) {
    s.bbcc.Some? ==> s.cxt == Some(s.bbcc.value.cxt)
  }

  /** The context of every level is that of its function stack, and its last block ran in it. */
  ghost predicate Fits(s: Shadow)
    requires Inv(s)
    decreases |s.below|, 1
  {
    LevelFits(s) && BlockFits(s) && LowerFit(s)
  }

  ghost predicate LowerFit(s: Shadow)
    requires Inv(s)
    decreases |s.below|, 0
  {
    s.below != [] ==> (InvShape(s); Fits(Interrupted(s)))
  }

  // -------------------------------------------------------------- what is counted

  /** How many levels began in function f. */
  function Begun(fns: seq<Slot>, f: nat): nat {
    if |fns| < 2 then 0 else
    var m := |fns| - 1;
    Begun(fns[..m], f) + if fns[m].Of? && fns[m].fn.id == f && fns[m - 1].Marker? then 1 else 0
  }

  /** The activation count of f is, as a 32-bit word, the number of calls of f on the stack that count
      and of levels that began in f. */
  predicate Counted(s: Shadow, f: nat, skipDirect: bool) {
    f < |s.active| ==> s.active[f] == (Activations(s.frames, f, skipDirect) + Begun(s.fns, f)) % 4294967296
  }

  // ------------------------------------------------------------------------ levels

  lemma {:induction false} FitsActive(s: Shadow, a: seq<UInt>)
    requires Inv(s) && |a| == |s.active| && Fits(s)
    ensures Inv(s.(active := a)) && Fits(s.(active := a))
    decreases |s.below|
  {
    hide Inv, FramesFit, GetCxt, Base;
    InvActive(s, a);
    if s.below != [] {
      InvShape(s);
      InvShape(s.(active := a));
      FitsActive(Interrupted(s), a);
      assert Interrupted(s.(active := a)) == Interrupted(s).(active := a);
    }
  }

  lemma LowerSame(s: Shadow, t: Shadow)
    requires Inv(s) && Inv(t) && SameBelow(s, t) && LowerFit(s)
    ensures LowerFit(t)
  {
    hide Inv, LevelFits, SameBelow, Fits;
    SameShape(s, t);
    if s.below != [] {
      InvShape(s);
      InvShape(t);
      FitsActive(Interrupted(s), t.active);
      SameShape(s, t);
      InterruptedSame(s, t);
    }
  }

  lemma {:induction false} FramesFitMore(frames: seq<Frame>, bottom: nat, fns: seq<Slot>, more: seq<Slot>)
    requires FramesFit(frames, bottom, fns) && fns <= more
    ensures FramesFit(frames, bottom, more)
    decreases |frames|
  {
    hide GetCxt;
    if |frames| > bottom {
      var m, f := |frames| - 1, frames[|frames| - 1];
      if f.jcc.None? {
        FramesFitMore(frames[..m], bottom, fns, more);
      } else {
        assert more[..f.saved.value.fnSp + 1] == fns[..f.saved.value.fnSp + 1];
      }
    }
  }

  /** Functions above the first one of a level began no level. */
  lemma {:induction false} BegunCut(fns: seq<Slot>, k: nat, f: nat)
    requires 0 < k <= |fns| && forall i :: k - 1 <= i < |fns| - 1 ==> fns[i].Of?
    ensures Begun(fns, f) == Begun(fns[..k], f)
    decreases |fns|
  {
    if k < |fns| {
      var m := |fns| - 1;
      BegunCut(fns[..m], k, f);
      assert fns[..m][..k] == fns[..k];
    } else {
      assert fns[..k] == fns;
    }
  }

  lemma BegunNext(fns: seq<Slot>, x: Slot, f: nat)
    requires fns != []
    ensures Begun(fns + [x], f)
            == Begun(fns, f) + if x.Of? && x.fn.id == f && fns[|fns| - 1].Marker? then 1 else 0
  {
    assert (fns + [x])[..|fns|] == fns;
  }

  // ------------------------------------------------------------------- leaving calls

  lemma PopEntryFits(s: Shadow, f: nat, skipDirect: bool)
    requires Inv(s) && s.bottom < |s.frames| && LevelFits(s) && LowerFit(s) && Counted(s, f, skipDirect)
    ensures FrameOk(s.frames[|s.frames| - 1], s.fns, |s.active|)
    ensures var t := PopEntry(s, skipDirect); Inv(t) && LevelFits(t) && LowerFit(t) && Counted(t, f, skipDirect)
  {
    hide Inv, FrameOk, LevelFits, LowerFit, SameBelow, Counted, PopEntry;
    PopEntryKeeps(s, skipDirect);
    LowerSame(s, PopEntry(s, skipDirect));
    PopEntryLevel(s, f, skipDirect);
  }

  /** Counts stay right if they change as the calls do. */
  lemma TalliesCount(s: Shadow, t: Shadow, f: nat, skipDirect: bool)
    requires Counted(s, f, skipDirect) && Tallies(s, t, f, skipDirect) && Begun(t.fns, f) == Begun(s.fns, f)
    ensures Counted(t, f, skipDirect)
  {
    hide Activations, Begun;
    if f < |s.active| {
      SameCount(s.active[f], t.active[f], Activations(s.frames, f, skipDirect), Activations(t.frames, f, skipDirect),
        Begun(s.fns, f));
    }
  }

  lemma SameCount(x: UInt, y: UInt, a: int, b: int, c: int)
    requires x == (a + c) % 4294967296 && (y as int - x as int) % 4294967296 == (b - a) % 4294967296
    ensures y == (b + c) % 4294967296
  {
  }

  lemma PopEntryLevel(s: Shadow, f: nat, skipDirect: bool)
    requires Inv(s) && s.bottom < |s.frames| && FrameOk(s.frames[|s.frames| - 1], s.fns, |s.active|)
    requires LevelFits(s) && Counted(s, f, skipDirect)
    ensures var t := PopEntry(s, skipDirect); LevelFits(t) && Counted(t, f, skipDirect)
  {
    hide Inv, FramesOk, Descending, GetCxt, Activations, Activates, Base, Begun, FrameOk, Counts, Counted, Tallies;
    PopTallies(s, f, skipDirect);
    PopEntryCut(s, f);
    TalliesCount(s, PopEntry(s, skipDirect), f, skipDirect);
  }

  lemma PopEntryCut(s: Shadow, f: nat)
    requires Inv(s) && s.bottom < |s.frames|
    ensures var x := s.frames[|s.frames| - 1];
            x.jcc.Some? ==> && x.saved.Some? && x.saved.value.fnSp < |s.fns|
                            && Begun(s.fns[..x.saved.value.fnSp + 1], f) == Begun(s.fns, f)
  {
    hide Inv, FramesOk, Descending, Begun, Base;
    InvShape(s);
    LastCall(s.frames, s.bottom, Base(s.fns), |s.fns| - 1, |s.active|);
    var x := s.frames[|s.frames| - 1];
    if x.jcc.Some? { BegunCut(s.fns, x.saved.value.fnSp + 1, f); }
  }

  lemma CxtIsTop(fns: seq<Slot>)
    requires fns != []
    ensures fns[|fns| - 1].Of? <==> GetCxt(fns).Some?
    ensures GetCxt(fns).Some? ==> GetCxt(fns).value.fns != [] && GetCxt(fns).value.fns[0] == fns[|fns| - 1].fn
  {
  }

  lemma PostSignalFits(s: Shadow, f: nat, skipDirect: bool)
    requires Inv(s) && s.below != [] && |s.frames| == s.bottom && LevelFits(s) && LowerFit(s)
             && Counted(s, f, skipDirect)
    ensures var t := PostSignal(s); Inv(t) && Fits(t) && Counted(t, f, skipDirect)
  {
    hide FramesOk, Descending, GetCxt, Activations, FramesFit, Base, Fits, Inv, FnsOk;
    InvShape(s);
    var t := PostSignal(s);
    FitsActive(Interrupted(s), t.active);
    CxtIsTop(s.fns);
    PostBegun(s, f);
    assert s.frames[..s.bottom] == s.frames;
  }

  lemma PostBegun(s: Shadow, f: nat)
    requires Inv(s) && s.below != [] && |s.frames| == s.bottom
    ensures s.fns != [] && s.fns[0] == Marker && Base(s.fns) > 1
    ensures Begun(s.fns, f) == Begun(s.fns[..Base(s.fns) - 1], f)
                               + if s.fns[|s.fns| - 1].Of? && s.fns[|s.fns| - 1].fn.id == f then 1 else 0
  {
    hide Inv, Base, Descending;
    InvShape(s);
    var b := Base(s.fns);
    assert s.frames[s.bottom..] == [];
    var low := s.fns[..b - 1];
    BegunNext(low, Marker, f);
    if |s.fns| == b {
      assert low + [Marker] == s.fns;
    } else {
      assert low + [Marker] + [s.fns[b]] == s.fns;
      BegunNext(low + [Marker], s.fns[b], f);
    }
  }

  /** What entering a block needs in between: as Fits, but for the last block. */
  ghost predicate Good(s: Shadow, f: nat, skipDirect: bool)
    requires Inv(s)
  {
    LevelFits(s) && LowerFit(s) && Counted(s, f, skipDirect)
  }

  lemma PopFits(s: Shadow, f: nat, skipDirect: bool)
    requires Inv(s) && s.frames != [] && Good(s, f, skipDirect)
    ensures var r := Pop(s, skipDirect); r.Done? ==> Good(r.value, f, skipDirect)
  {
    hide Inv, LevelFits, LowerFit, Counted, PopEntry, PostSignal, FrameOk, BlockFits;
    PopsEntry(s);
    if AtBottom(s) {
      PostSignalFits(s, f, skipDirect);
      var u := PostSignal(s);
      PopsEntry(u);
      if !AtBottom(u) { PopEntryFits(u, f, skipDirect); }
    } else {
      PopEntryFits(s, f, skipDirect);
    }
  }

  lemma {:induction false} UnwindFits(s: Shadow, sp: UWord, minpops: int, f: nat, skipDirect: bool)
    requires Inv(s) && Good(s, f, skipDirect)
    ensures var r := Unwind(s, sp, minpops, skipDirect); r.Done? ==> Good(r.value.0, f, skipDirect)
    decreases |s.frames|
  {
    hide Inv, Good, Pop;
    if s.frames != [] {
      PopFits(s, f, skipDirect);
      var u := Pop(s, skipDirect);
      if u.Done? { UnwindFits(u.value, sp, minpops - 1, f, skipDirect); }
    }
  }

  lemma {:induction false} PopDownFits(s: Shadow, f: nat, skipDirect: bool)
    requires Inv(s) && Good(s, f, skipDirect)
    ensures Good(PopDown(s, skipDirect), f, skipDirect)
    decreases |s.frames|
  {
    hide Inv, LevelFits, LowerFit, Counted, PopEntry, PopDown, FrameOk;
    PopsEntry(s);
    if |s.frames| == s.bottom {
      PopDownEnd(s, skipDirect);
    } else {
      PopDownStep(s, skipDirect);
      PopEntryFits(s, f, skipDirect);
      PopDownFits(PopEntry(s, skipDirect), f, skipDirect);
    }
  }

  // ------------------------------------------------------------------------ signals

  /** A signal begins a level with nothing counted. */
  lemma SignalFits(s: Shadow, sig: int, collectAtStart: bool, f: nat, skipDirect: bool)
    requires Inv(s) && sig > 0 && Fits(s) && Counted(s, f, skipDirect)
    ensures var t := PreSignal(s, sig, collectAtStart); Fits(t) && Counted(t, f, skipDirect)
  {
    hide Inv, FramesOk, Activations, Begun;
    PopsEntry(s);
    BegunNext(s.fns, Marker, f);
  }

  /** The end of a handler takes back what is counted of its level. */
  lemma EndFits(s: Shadow, sig: int, f: nat, skipDirect: bool)
    requires Inv(s) && Fits(s) && Counted(s, f, skipDirect)
    ensures var r := EndSignal(s, sig, skipDirect); r.Done? ==> Fits(r.value) && Counted(r.value, f, skipDirect)
  {
    hide Inv, LevelFits, LowerFit, Counted, PostSignal, PopDown, BlockFits;
    if s.below != [] && sig == s.sig {
      PopDownFits(s, f, skipDirect);
      SameShape(s, PopDown(s, skipDirect));
      PostSignalFits(PopDown(s, skipDirect), f, skipDirect);
    }
  }

  // ------------------------------------------------------------------ entering functions

  lemma PushCxtFits(u: Shadow, fn: Fn, f: nat, skipDirect: bool)
    requires Inv(u) && u.saved == None && u.fns != [] && fn.id < |u.active|
    requires LevelFits(u) && Counted(u, f, skipDirect)
    ensures var w := PushCxt(u, fn); LevelFits(w) && Counted(w, f, skipDirect) && w.frames == u.frames
  {
    hide Inv, Activations, Begun, GetCxt, FramesFit, SavedFrom;
    FramesFitMore(u.frames, u.bottom, u.fns, PushCxt(u, fn).fns);
    BegunNext(u.fns, Of(fn), f);
  }

  /** The block's own function is f, whose recursion levels are kept apart; then the code makes it
      active once if it finds that it is not. */
  predicate KeptApart(s: Shadow, f: nat) {
    && s.fns != [] && s.fns[|s.fns| - 1].Of?
    && s.fns[|s.fns| - 1].fn.id == f && s.fns[|s.fns| - 1].fn.recursions > 1
  }

  lemma LevelledFits(w: Shadow, counted: bool, f: nat, skipDirect: bool)
    requires w.fns != [] && w.fns[|w.fns| - 1].Of? && w.fns[|w.fns| - 1].fn.id < |w.active|
    requires Counted(w, f, skipDirect)
    ensures Counted(Levelled(w, counted).0, f, skipDirect) || KeptApart(w, f)
  {
    hide Activations, Begun;
  }

  lemma PushFits(x: Shadow, bb: Bb, level: nat, p: Pending, passed: nat, ret: UWord, f: nat, skipDirect: bool)
    requires CanEnter(x, p) && Counted(x, f, skipDirect)
    ensures var next := Bbcc(bb, x.cxt.value, level);
            var y := if p.NoCall? then x
                     else if p.skip then PushSkipped(x, x.bbcc.value, p.sp, ret)
                     else PushCall(x, ArcFrom(x, x.bbcc.value, passed, next), p.sp, ret, skipDirect);
            Counted(y, f, skipDirect)
  {
    hide Activations, Begun, PushSkipped, PushCall, Tallies, Counted;
    if p.Pending? {
      if p.skip {
        SkippedTallies(x, x.bbcc.value, p.sp, ret, f, skipDirect);
        TalliesCount(x, PushSkipped(x, x.bbcc.value, p.sp, ret), f, skipDirect);
      } else {
        var j := ArcFrom(x, x.bbcc.value, passed, Bbcc(bb, x.cxt.value, level));
        PushTallies(x, j, p.sp, ret, f, skipDirect);
        TalliesCount(x, PushCall(x, j, p.sp, ret, skipDirect), f, skipDirect);
      }
    }
  }

  lemma PushedCounts(w: Shadow, bb: Bb, p: Pending, passed: nat, ret: UWord, f: nat, skipDirect: bool)
    requires CanEnter(w, p) && Counted(w, f, skipDirect)
    ensures Counted(Pushed(w, bb, p, passed, ret, skipDirect), f, skipDirect) || KeptApart(w, f)
  {
    hide Activations, Begun, PushSkipped, PushCall, ArcFrom, Levelled, Counts;
    var counted := p.Pending? && !p.skip && (!skipDirect || FnOf(w.bbcc.value) != w.cxt.value.fns[0]);
    LevelledFits(w, counted, f, skipDirect);
    var (x, level) := Levelled(w, counted);
    if !KeptApart(w, f) { PushFits(x, bb, level, p, passed, ret, f, skipDirect); }
  }

  /** The call pushed saves the context it was made in. */
  lemma PushedLevel(u: Shadow, w: Shadow, bb: Bb, p: Pending, passed: nat, ret: UWord, skipDirect: bool)
    requires CanEnter(w, p) && LevelFits(u) && LevelFits(w) && u.fns <= w.fns
    requires w.frames == u.frames && w.bottom == u.bottom <= |u.frames|
    requires p.Pending? && !p.skip ==> u.cxt.Some? && w.saved == Some(Saved(u.cxt.value, |u.fns| - 1))
    ensures var v := Pushed(w, bb, p, passed, ret, skipDirect); LevelFits(v) && BlockFits(v)
  {
    hide GetCxt, ArcFrom;
    var v := Pushed(w, bb, p, passed, ret, skipDirect);
    if p.Pending? {
      assert w.fns[..|u.fns|] == u.fns;
    }
  }

  lemma EnteredFits(u: Shadow, e: Arrival, p: Pending, passed: nat, ret: UWord, f: nat, skipDirect: bool)
    requires Inv(u) && ArrivalOk(u, e) && PendingOk(u, p) && Good(u, f, skipDirect)
    ensures var r := Entered(u, e, p, passed, ret, skipDirect);
            r.Done? ==> && LevelFits(r.value) && BlockFits(r.value) && LowerFit(r.value)
                        && (Counted(r.value, f, skipDirect) || KeptApart(r.value, f))
  {
    hide Inv, LevelOk, Entering, SameBelow, LevelFits, LowerFit, Counted, Pushed, PushCxt, GetCxt;
    PopsEntry(u);
    var called := p.Pending? && !p.skip;
    InContextEnters(u, e.bb.fn, called);
    var r := InContext(u, e.bb.fn, called);
    if r.Done? {
      var w := r.value;
      EnterReady(u, w, p);
      PushedKeeps(u, w, e.bb, p, passed, ret, skipDirect);
      var v := Pushed(w, e.bb, p, passed, ret, skipDirect);
      LowerSame(u, v);
      if w != u { PushCxtFits(u, e.bb.fn, f, skipDirect); }
      PushedCounts(w, e.bb, p, passed, ret, f, skipDirect);
      PushedLevel(u, w, e.bb, p, passed, ret, skipDirect);
    }
  }

  // -------------------------------------------------------------- returns without a call

  /** The function returned to takes the place of the one left. */
  lemma ForcedActive(s: Shadow, fn: Fn)
    requires |s.fns| >= 2 && s.fns[|s.fns| - 2] == Marker && s.saved == None && fn.id < |s.active|
    ensures var r := Forced(s, fn);
            r.Done? ==> r.value.active == s.active[fn.id := Up(s.active[fn.id])] && r.value.bottom == s.bottom
  {
    assert s.fns[..|s.fns| - 1][|s.fns| - 2] == Marker;
  }

  /** So there is one activation more of it, and one less of that. */
  lemma Replaced(x: seq<UInt>, caller: nat, last: nat, f: nat, a: nat, b: nat)
    requires caller < |x| && last < |x| && f < |x| && x[f] == (a + b + if f == last then 1 else 0) % 4294967296
    ensures var y := x[caller := Up(x[caller])]; var z := y[last := Down(y[last])];
            z[f] == (a + b + if f == caller then 1 else 0) % 4294967296
  {
  }

  lemma ReplacedCounts(s: Shadow, e: Arrival, f: nat, skipDirect: bool)
    requires Inv(s) && ArrivalOk(s, e) && s.bbcc.Some? && Underflows(s) && LevelFits(s) && BlockFits(s)
    requires Counted(s, f, skipDirect)
    ensures |s.fns| >= 2 && s.fns[|s.fns| - 2] == Marker && s.saved == None
    ensures BbccOk(s.bbcc, |s.active|)
    ensures var (r, l) := (Forced(s, e.bb.fn), FnOf(s.bbcc.value));
            r.Done? ==> |r.value.active| == |s.active| && r.value.frames == s.frames
                        && Counted(r.value.(active := r.value.active[l.id := Down(r.value.active[l.id])]), f,
                          skipDirect)
  {
    hide Inv, Activations, Begun, GetCxt, FramesFit, Underflows, Forced, Up, Down;
    UnderflowReady(s, e);
    ForcedIs(s, e.bb.fn);
    ForcedActive(s, e.bb.fn);
    CxtIsTop(s.fns);
    ReplacedBegun(s.fns, e.bb.fn, f);
    var l := FnOf(s.bbcc.value);
    if f < |s.active| {
      Replaced(s.active, e.bb.fn.id, l.id, f, Activations(s.frames, f, skipDirect), Begun(s.fns[..|s.fns| - 1], f));
    }
  }

  lemma ReplacedBegun(fns: seq<Slot>, fn: Fn, f: nat)
    requires |fns| >= 2 && fns[|fns| - 2] == Marker && fns[|fns| - 1].Of?
    ensures Begun(fns, f) == Begun(fns[..|fns| - 1], f) + if fns[|fns| - 1].fn.id == f then 1 else 0
    ensures Begun(fns[..|fns| - 1] + [Of(fn)], f) == Begun(fns[..|fns| - 1], f) + if fn.id == f then 1 else 0
  {
    var cut := fns[..|fns| - 1];
    BegunNext(cut, Of(fn), f);
  }

  /** The call made up changes no count: it is left again. */
  lemma MadeUpCounts(s: Shadow, source: Bbcc, last: Bbcc, ret: UWord, f: nat, skipDirect: bool)
    requires s.saved == None && s.cxt.Some? && s.fns != [] && s.fns[|s.fns| - 1].Of?
    requires BbccOk(Some(last), |s.active|) && BbccOk(Some(source), |s.active|)
    requires var l := FnOf(last); Counted(s.(active := s.active[l.id := Down(s.active[l.id])]), f, skipDirect)
    ensures var u := MadeUp(s, source, last, ret, skipDirect);
            && u.frames != [] && FrameOk(u.frames[|u.frames| - 1], u.fns, |u.active|)
            && u.frames[|u.frames| - 1].sp == 18446744073709551615
            && var r := PopEntry(u, skipDirect);
               && r.fns == s.fns && r.cxt == s.cxt && r.frames == s.frames && r.bottom == s.bottom
               && Counted(r, f, skipDirect)
  {
    hide Activations, Begun, GetCxt, PushCall, PopEntry, Tallies, Up, Down;
    var l := FnOf(last);
    var s1 := s.(active := s.active[l.id := Down(s.active[l.id])], nonskipped := None);
    var w := PushCxt(s1, l);
    var u := MadeUp(s, source, last, ret, skipDirect);
    assert u == PushCall(w, Jcc(source, 0, last), MAX_SP, ret, skipDirect);
    PushTallies(w, Jcc(source, 0, last), MAX_SP, ret, f, skipDirect);
    PopTallies(u, f, skipDirect);
    var r := PopEntry(u, skipDirect);
    TalliesTwice(w, u, r, f, skipDirect);
    assert u.frames[..|s.frames|] == s.frames;
    assert r.fns == s.fns;
    MadeUpEnters(s1, l, f, skipDirect);
    assert Begun(r.fns, f) == Begun(s1.fns, f);
    TalliesSame(s1, w, r, f, skipDirect);
  }

  lemma MadeUpEnters(s: Shadow, fn: Fn, f: nat, skipDirect: bool)
    requires s.saved == None && s.fns != [] && fn.id < |s.active| && s.fns[|s.fns| - 1].Of?
    ensures PushCxt(s, fn).active == s.active
  {
  }

  lemma TalliesSame(s: Shadow, w: Shadow, r: Shadow, f: nat, skipDirect: bool)
    requires Counted(s, f, skipDirect) && w.active == s.active && w.frames == s.frames == r.frames && r.fns == s.fns
    requires Tallies(w, r, f, skipDirect)
    ensures Counted(r, f, skipDirect)
  {
    hide Activations, Begun;
  }

  ghost predicate HasArc(frames: seq<Frame>, bottom: nat) {
    exists i :: bottom <= i < |frames| && frames[i].jcc.Some?
  }

  /** A return leaves the function its level began in for another one, and calls of that level stay: it
      called itself, or its group. */
  ghost predicate LeavesFirst(s: Shadow, e: Arrival) {
    && ReturnUnderflows(s, e) && HasArc(s.frames, s.bottom)
    && s.fns != [] && s.fns[|s.fns| - 1] != Of(e.bb.fn)
  }

  lemma {:induction false} NoArcFits(frames: seq<Frame>, bottom: nat, fns: seq<Slot>)
    requires !HasArc(frames, bottom)
    ensures FramesFit(frames, bottom, fns)
    decreases |frames|
  {
    if |frames| > bottom {
      assert frames[|frames| - 1].jcc.None?;
      NoArcFits(frames[..|frames| - 1], bottom, fns);
    }
  }

  lemma {:induction false} ArcFits(frames: seq<Frame>, bottom: nat, fns: seq<Slot>, more: seq<Slot>, base: nat, n: nat)
    requires FramesFit(frames, bottom, fns) && FramesFit(frames, bottom, more) && HasArc(frames, bottom)
    requires FramesOk(frames[bottom..], base, base, n)
    ensures base < |fns| && base < |more| && GetCxt(fns[..base + 1]) == GetCxt(more[..base + 1])
    decreases |frames|
  {
    hide GetCxt, FramesOk;
    var m := |frames| - 1;
    LastCall(frames, bottom, base, base, n);
    if frames[m].jcc.None? {
      var i :| bottom <= i < |frames| && frames[i].jcc.Some?;
      assert frames[..m][i].jcc.Some?;
      ArcFits(frames[..m], bottom, fns, more, base, n);
    }
  }

  /** A return out of the function a level began in. */
  lemma UnderflowFits(s: Shadow, e: Arrival, ret: UWord, f: nat, skipDirect: bool)
    requires Inv(s) && ArrivalOk(s, e) && s.bbcc.Some? && Underflows(s)
    requires HasArc(s.frames, s.bottom) ==> s.fns != [] && s.fns[|s.fns| - 1] == Of(e.bb.fn)
    requires Fits(s) && Counted(s, f, skipDirect)
    ensures var r := Underflowed(s, e, ret, skipDirect); r.Done? ==> Good(r.value, f, skipDirect)
  {
    hide Inv, LevelOk, Underflows, MadeUp, PopEntry, Forced, Counted, LowerFit, GetCxt, FrameOk, SameBelow, Activations,
         Begun, PushCxt, PushCall;
    UnderflowReady(s, e);
    UnderflowKeeps(s, e, ret, skipDirect);
    ReplacedCounts(s, e, f, skipDirect);
    ForcedIs(s, e.bb.fn);
    var r := Underflowed(s, e, ret, skipDirect);
    if r.Done? {
      var x := Forced(s, e.bb.fn).value;
      ForcedActive(s, e.bb.fn);
      MadeUpCounts(x, e.source, s.bbcc.value, ret, f, skipDirect);
      LowerSame(s, r.value);
      if HasArc(s.frames, s.bottom) {
        assert x.fns == s.fns;
      } else {
        NoArcFits(s.frames, s.bottom, x.fns);
      }
    }
  }

  // -------------------------------------------------------------------- whole entries

  lemma ConvertedFits(s: Shadow, e: Arrival, t: Taken, f: nat, skipDirect: bool)
    requires Inv(s) && Good(s, f, skipDirect)
    ensures var r := Converted(s, e, t, skipDirect); r.Done? ==> Good(r.value.0, f, skipDirect)
    ensures t.kind == Return ==> !LeavesByJump(s, e, t)
  {
    hide Inv, LevelOk, Pop, LevelFits, Counted, LowerFit, SameBelow;
    if LeavesByJump(s, e, t) {
      PopsEntry(s);
      TopCall(s);
      var top := s.frames[|s.frames| - 1];
      if top.jcc.Some? {
        WithBbcc(s, top.jcc.value.from, 0);
        var x := s.(bbcc := Some(top.jcc.value.from));
        LowerSame(s, x);
        OtherBlock(s, x, f, skipDirect);
        PopFits(x, f, skipDirect);
      }
    }
  }

  lemma OtherBlock(s: Shadow, x: Shadow, f: nat, skipDirect: bool)
    requires x == s.(bbcc := x.bbcc) && LevelFits(s) && Counted(s, f, skipDirect)
    ensures LevelFits(x) && Counted(x, f, skipDirect)
  {
  }

  lemma UnwoundFits(s: Shadow, e: Arrival, t: Taken, emulated: bool, sp: UWord, ret: UWord, f: nat, skipDirect: bool)
    requires Inv(s) && ArrivalOk(s, e) && (t.kind == Return || t.kind == CallJump ==> s.bbcc.Some?)
    requires Good(s, f, skipDirect)
    requires t.kind == Return && Underflows(s)
             ==> Fits(s) && (HasArc(s.frames, s.bottom) ==> s.fns != [] && s.fns[|s.fns| - 1] == Of(e.bb.fn))
    ensures var r := Unwound(s, e, t, emulated, sp, ret, skipDirect); r.Done? ==> Good(r.value.0, f, skipDirect)
  {
    hide Inv, LevelOk, PendingOk, ArrivalOk, Underflows, Pop, LevelFits, LowerFit, Counted, Unwind, Underflowed;
    if t.kind == Return {
      if Underflows(s) { UnderflowFits(s, e, ret, f, skipDirect); } else { UnwindFits(s, sp, t.pops, f, skipDirect); }
    } else {
      UnwindFits(s, sp, 0, f, skipDirect);
    }
  }

  /** Entering a block keeps every activation count what it should be, and every context that of its
      function stack, unless a return leaves the function its level began in while calls of that level
      stay. */
  lemma SetupCounts(s: Shadow, e: Arrival, ret: UWord, f: nat, skipDirect: bool)
    requires Inv(s) && ArrivalOk(s, e) && Fits(s) && Counted(s, f, skipDirect) && !LeavesFirst(s, e)
    ensures var r := Setup(s, e, ret, skipDirect);
            r.Done? ==> Fits(r.value) && (Counted(r.value, f, skipDirect) || KeptApart(r.value, f))
  {
    hide Inv, LevelOk, PendingOk, Converted, Unwound, Entered, TakenAs, LevelFits, LowerFit, Counted, ArrivalOk,
         BecomesCall,
         BlockFits, LeavesByJump;
    var t := TakenAs(s, e);
    var emulated := BecomesCall(s.bbcc, e, t);
    ConvertedFits(s, e, t, f, skipDirect);
    ConvertedFails(s, e, skipDirect);
    var c := Converted(s, e, t, skipDirect);
    if c.Done? {
      ConvertedGoesOn(s, e, t, skipDirect);
      var (s1, sp, passed) := c.value;
      ArrivalStays(s, s1, e);
      PopsEntry(s);
      assert t.kind == Return ==> s1 == s && !emulated;
      var t1 := if emulated then t.(kind := CallJump) else t;
      assert t1.kind == Return || t1.kind == CallJump ==> s1.bbcc.Some? by { EmulatedFrom(s, e); }
      UnwoundFits(s1, e, t1, emulated, sp, ret, f, skipDirect);
      var u := Unwound(s1, e, t1, emulated, sp, ret, skipDirect);
      if u.Done? {
        ArrivalStays(s, u.value.0, e);
        EnteredFits(u.value.0, e, u.value.1, passed, ret, f, skipDirect);
      }
    }
  }

  lemma EmulatedFrom(s: Shadow, e: Arrival)
    ensures BecomesCall(s.bbcc, e, TakenAs(s, e)) ==> s.bbcc.Some?
  {
    hide TakenAs;
  }

  /** What the made-up call of an underflow leaves of functions and calls. */
  lemma UnderflowLeaves(s: Shadow, e: Arrival, ret: UWord, skipDirect: bool)
    requires Inv(s) && ArrivalOk(s, e) && s.bbcc.Some? && Underflows(s) && LevelFits(s) && BlockFits(s)
    ensures var r := Underflowed(s, e, ret, skipDirect);
            r.Done? ==> && r.value.fns == s.fns[..|s.fns| - 1] + [Of(e.bb.fn)] && r.value.frames == s.frames
                        && r.value.cxt.Some?
  {
    hide Inv, LevelOk, Underflows, MadeUp, PopEntry, Forced, GetCxt, FrameOk, SameBelow, Activations, Begun, PushCxt,
         PushCall;
    UnderflowReady(s, e);
    UnderflowKeeps(s, e, ret, skipDirect);
    ForcedIs(s, e.bb.fn);
    var r := Underflowed(s, e, ret, skipDirect);
    if r.Done? {
      var x := Forced(s, e.bb.fn).value;
      ReplacedCounts(s, e, |s.active|, skipDirect);
      MadeUpCounts(x, e.source, s.bbcc.value, ret, |s.active|, skipDirect);
    }
  }

  lemma SetupUnderflows(s: Shadow, e: Arrival, ret: UWord, skipDirect: bool)
    requires Inv(s) && ArrivalOk(s, e) && Fits(s) && ReturnUnderflows(s, e)
    ensures var r := Setup(s, e, ret, skipDirect);
            r.Done? ==> s.fns != [] && r.value.frames == s.frames && r.value.bottom == s.bottom
                        && r.value.fns == s.fns[..|s.fns| - 1] + [Of(e.bb.fn)]
  {
    hide Inv, LevelOk, PendingOk, Converted, Entered, TakenAs, LevelFits, LowerFit, ArrivalOk, BecomesCall, Underflows,
         BlockFits, LeavesByJump, Underflowed, Returned, SameBelow, GetCxt;
    var t := TakenAs(s, e);
    ConvertedFails(s, e, skipDirect);
    PopsEntry(s);
    UnderflowLeaves(s, e, ret, skipDirect);
    var u := Underflowed(s, e, ret, skipDirect);
    if u.Done? {
      ReturnedBottom(s, u.value);
      ArrivalStays(s, u.value, e);
      NoCallOk(u.value);
      EnteredIs(u.value, e, NoCall, s.jmps, ret, skipDirect);
      var v := Entered(u.value, e, NoCall, s.jmps, ret, skipDirect);
      if v.Done? { SameShape(u.value, v.value); }
    }
  }

  lemma ReturnedBottom(s: Shadow, u: Shadow)
    requires Returned(s, u)
    ensures u.bottom == s.bottom && |u.active| == |s.active| && Inv(u)
  {
    hide Inv;
  }

  lemma OtherFirst(frames: seq<Frame>, bottom: nat, fns: seq<Slot>, more: seq<Slot>, n: nat)
    requires fns != [] && |more| == |fns| && fns[|fns| - 1].Of? && more[|fns| - 1].Of?
    requires fns[|fns| - 1] != more[|fns| - 1]
    requires FramesFit(frames, bottom, fns) && HasArc(frames, bottom)
    requires FramesOk(frames[bottom..], |fns| - 1, |fns| - 1, n)
    ensures !FramesFit(frames, bottom, more)
  {
    hide GetCxt, HasArc, FramesOk, FramesFit;
    assert more[..|fns|] == more && fns[..|fns|] == fns;
    CxtIsTop(fns);
    CxtIsTop(more);
    if FramesFit(frames, bottom, more) {
      ArcFits(frames, bottom, fns, more, |fns| - 1, n);
    }
  }

  /** And then contexts no longer fit: entering a block keeps the context of every level that of its
      function stack exactly if no return leaves the first function of the level for another one while
      calls of it stay. */
  lemma SetupFits(s: Shadow, e: Arrival, ret: UWord, skipDirect: bool)
    requires Inv(s) && ArrivalOk(s, e) && Fits(s)
    ensures var r := Setup(s, e, ret, skipDirect); r.Done? ==> (Fits(r.value) <==> !LeavesFirst(s, e))
  {
    hide Inv, LowerFit, Setup, Underflows, GetCxt, Base, Descending, FramesOk, FramesFit, HasArc, TakenAs;
    var r := Setup(s, e, ret, skipDirect);
    if r.Done? && LeavesFirst(s, e) {
      SetupUnderflows(s, e, ret, skipDirect);
      PopsEntry(s);
      UnderflowDepth(s);
      InvShape(s);
      OtherFirst(s.frames, s.bottom, s.fns, r.value.fns, |s.active|);
    } else if !LeavesFirst(s, e) {
      SetupCounts(s, e, ret, |s.active|, skipDirect);
    }
  }

  /** The recursion level a block is entered at is one less than the activation count of its function
      is then, up to the last level, provided that counts do not wrap around. */
  lemma LevelIsActivations(w: Shadow, bb: Bb, p: Pending, passed: nat, ret: UWord, skipDirect: bool)
    requires CanEnter(w, p) && w.cxt.value.fns[0] == w.fns[|w.fns| - 1].fn
    requires w.nonskipped.Some? && w.bbcc.Some? ==> w.nonskipped.value.cxt == w.bbcc.value.cxt
    requires w.active[w.fns[|w.fns| - 1].fn.id] < 4294967295
    ensures var (fn, v) := (w.fns[|w.fns| - 1].fn, Pushed(w, bb, p, passed, ret, skipDirect));
            var n := v.active[fn.id];
            && (fn.recursions <= 1 ==> v.bbcc.value.level == 0)
            && (fn.recursions > 1 ==> 0 < n && v.bbcc.value.level + 1 == if n < fn.recursions then n else fn.recursions)
  {
  }

  // --------------------------------------------------------------------------- runs

  /** No return leaves the first function of a level for another one while calls of it stay. */
  ghost predicate Returns(acts: seq<T.Act>, n: nat, nFns: nat, collectAtStart: bool, skipDirect: bool) {
    forall i :: 0 <= i < |acts| && acts[i].Enter? ==>
      var th := T.Alone(acts[..i], n, nFns, collectAtStart, skipDirect);
      th.Some? ==> !LeavesFirst(th.value.stack, acts[i].e)
  }

  /** The recursion levels of f are not kept apart. */
  ghost predicate OneLevel(acts: seq<T.Act>, f: nat, n: nat, nFns: nat, collectAtStart: bool, skipDirect: bool) {
    forall i :: 0 <= i <= |acts| ==>
      var th := T.Alone(acts[..i], n, nFns, collectAtStart, skipDirect);
      th.Some? ==> !KeptApart(th.value.stack, f)
  }

  lemma FreshFits(nFns: nat, collectAtStart: bool, f: nat, skipDirect: bool)
    ensures Fits(Fresh(nFns, collectAtStart)) && Counted(Fresh(nFns, collectAtStart), f, skipDirect)
  {
  }

  lemma RanFits(s: Shadow, jmps: nat, f: nat, skipDirect: bool)
    requires Inv(s) && Fits(s)
    ensures Inv(s.(jmps := jmps)) && Fits(s.(jmps := jmps))
    ensures Counted(s, f, skipDirect) ==> Counted(s.(jmps := jmps), f, skipDirect)
  {
    hide Inv, SameBelow, GetCxt, LowerFit;
    T.WithJmps(s, jmps);
    LowerSame(s, s.(jmps := jmps));
  }

  lemma SetupKeeps(s: Shadow, e: Arrival, ret: UWord, f: nat, skipDirect: bool)
    requires Inv(s) && ArrivalOk(s, e) && Fits(s) && !LeavesFirst(s, e)
    ensures var r := Setup(s, e, ret, skipDirect);
            r.Done? ==> && Fits(r.value)
                        && (Counted(s, f, skipDirect) && !KeptApart(r.value, f) ==> Counted(r.value, f, skipDirect))
  {
    hide Inv, Setup, Fits, Counted, KeptApart, LeavesFirst, ArrivalOk;
    SetupFits(s, e, ret, skipDirect);
    if Counted(s, f, skipDirect) { SetupCounts(s, e, ret, f, skipDirect); }
  }

  lemma EndKeeps(s: Shadow, sig: int, f: nat, skipDirect: bool)
    requires Inv(s) && Fits(s)
    ensures var r := EndSignal(s, sig, skipDirect);
            r.Done? ==> Fits(r.value) && (Counted(s, f, skipDirect) ==> Counted(r.value, f, skipDirect))
  {
    hide Inv, Fits, Counted, EndSignal;
    EndFits(s, sig, |s.active|, skipDirect) by { NoSuch(s, skipDirect); }
    if Counted(s, f, skipDirect) { EndFits(s, sig, f, skipDirect); }
  }

  lemma NoSuch(s: Shadow, skipDirect: bool)
    ensures Counted(s, |s.active|, skipDirect)
  {
  }

  lemma SignalKeeps(s: Shadow, sig: int, collectAtStart: bool, f: nat, skipDirect: bool)
    requires Inv(s) && sig > 0 && Fits(s)
    ensures var t := PreSignal(s, sig, collectAtStart);
            Fits(t) && (Counted(s, f, skipDirect) ==> Counted(t, f, skipDirect))
  {
    hide Inv, Fits, Counted, PreSignal;
    NoSuch(s, skipDirect);
    SignalFits(s, sig, collectAtStart, |s.active|, skipDirect);
    if Counted(s, f, skipDirect) { SignalFits(s, sig, collectAtStart, f, skipDirect); }
  }

  lemma StepFits(th: T.Thread, act: T.Act, n: nat, collectAtStart: bool, f: nat, skipDirect: bool)
    requires T.ThreadOk(th, n) && Inv(th.stack) && Fits(th.stack)
    requires act.Enter? ==> !LeavesFirst(th.stack, act.e)
    ensures var u := T.Step(th, act, n, collectAtStart, skipDirect);
            u.Some? ==> && Inv(u.value.stack) && Fits(u.value.stack)
                        && (Counted(th.stack, f, skipDirect) && !KeptApart(u.value.stack, f)
                            ==> Counted(u.value.stack, f, skipDirect))
  {
    hide Inv, Fits, Counted, KeptApart, Setup, LeavesFirst, T.CostsOk, PreSignal, EndSignal, PopDown, PostSignal;
    var u := T.Step(th, act, n, collectAtStart, skipDirect);
    if u.Some? {
      match act
      case Enter(e, ret) => SetupKeeps(th.stack, e, ret, f, skipDirect);
      case Ran(jmps, _) => RanFits(th.stack, jmps, f, skipDirect);
      case Signal(sig) => SignalKeeps(th.stack, sig, collectAtStart, f, skipDirect);
      case End(sig) =>
        EndKeeps(th.stack, sig, f, skipDirect);
        T.EndedStack(th, sig, n, skipDirect);
    }
  }

  lemma Before(acts: seq<T.Act>, f: nat, n: nat, nFns: nat, collectAtStart: bool, skipDirect: bool)
    requires acts != [] && Returns(acts, n, nFns, collectAtStart, skipDirect)
    ensures var m := |acts| - 1;
            && Returns(acts[..m], n, nFns, collectAtStart, skipDirect)
            && (OneLevel(acts, f, n, nFns, collectAtStart, skipDirect)
                ==> OneLevel(acts[..m], f, n, nFns, collectAtStart, skipDirect))
  {
    hide LeavesFirst, KeptApart, T.Alone;
    var m := |acts| - 1;
    forall i | 0 <= i <= m
      ensures acts[..m][..i] == acts[..i]
    {
    }
  }

  /** In every run of a thread, however signals nest, in which returns are such: each context is that of
      its function stack, and the activation count of a function is the number of its calls on the stack
      that count and of levels that began in it. */
  lemma {:induction false} RunCounts(acts: seq<T.Act>, f: nat, n: nat, nFns: nat, collectAtStart: bool,
          skipDirect: bool)
    requires Returns(acts, n, nFns, collectAtStart, skipDirect)
    ensures var th := T.Alone(acts, n, nFns, collectAtStart, skipDirect);
            th.Some? ==> && Inv(th.value.stack) && Fits(th.value.stack)
                         && (OneLevel(acts, f, n, nFns, collectAtStart, skipDirect)
                             ==> Counted(th.value.stack, f, skipDirect))
  {
    hide Inv, Fits, T.ThreadOk, T.Step, Counted, KeptApart, LeavesFirst;
    if acts == [] {
      FreshFits(nFns, collectAtStart, f, skipDirect);
    } else {
      var m := |acts| - 1;
      Before(acts, f, n, nFns, collectAtStart, skipDirect);
      RunCounts(acts[..m], f, n, nFns, collectAtStart, skipDirect);
      var before := T.Alone(acts[..m], n, nFns, collectAtStart, skipDirect);
      if before.Some? {
        T.ThreadStack(before.value, n);
        StepFits(before.value, acts[m], n, collectAtStart, f, skipDirect);
        assert acts[..|acts|] == acts;
      }
    }
  }
}
