/** What entering a block does to calls and contexts, from the stack pointers and return addresses
    recorded: when a call is pushed and what is recorded of it, and what a return goes back to. */
module BlockEntry {
  import opened ShadowStack

  // ------------------------------------------------------------- kinds of entry

  /** A return that leaves calls: there are none, or the stack pointer is above that of the innermost
      one, or at it and one of the calls there is to return to this block. */
  ghost predicate RealReturn(s: Shadow, e: Arrival) {
    && e.kind == Return && s.bbcc.Some?
    && (s.frames == []
        || e.sp > s.frames[|s.frames| - 1].sp
        || (e.sp == s.frames[|s.frames| - 1].sp
            && exists c: nat :: c <= |s.frames| && ReturnsOver(s.frames, e.sp, e.bb.addr, c)))
  }

  /** A call: by a call instruction, or by a jump to the entry of a function or out of the section or
      object of the last block, or by a return that leaves no call. */
  ghost predicate IsCall(s: Shadow, e: Arrival) {
    && s.bbcc.Some? && !RealReturn(s, e)
    && (e.kind == CallJump || JumpsLikeCall(s.bbcc.value.bb, e))
  }

  predicate JumpsLikeCall(last: Bb, e: Arrival) {
    e.kind == Return || e.bb.isEntry || last.sect != e.bb.sect || last.obj != e.bb.obj
  }

  /** A call by a jump first leaves the innermost call if the function of the last block is left so. */
  ghost predicate LeavesCall(s: Shadow, e: Arrival) {
    && IsCall(s, e) && e.kind != CallJump && s.bbcc.value.bb.fn.popOnJump
    && s.frames != [] && s.frames[|s.frames| - 1].jcc.Some?
  }

  lemma TakenIs(s: Shadow, e: Arrival)
    ensures var t := TakenAs(s, e);
            && (t.kind == Return <==> RealReturn(s, e))
            && (t.kind == CallJump <==> s.bbcc.Some? && e.kind == CallJump)
            && (BecomesCall(s.bbcc, e, t) <==> IsCall(s, e) && e.kind != CallJump)
            && (JumpPops(s, e) <==> LeavesCall(s, e))
  {
    if s.bbcc.Some? && e.kind == Return && s.frames != [] {
      var c := PopCount(s.frames, e.sp, e.bb.addr);
      PopCountIs(s.frames, e.sp, e.bb.addr);
      if e.sp == s.frames[|s.frames| - 1].sp && c > 0 { assert ReturnsOver(s.frames, e.sp, e.bb.addr, c); }
    }
  }

  lemma CallIsCall(s: Shadow, e: Arrival)
    ensures IsCall(s, e) ==> s.bbcc.Some? && !RealReturn(s, e)
    ensures s.bbcc.Some? && e.kind == CallJump ==> IsCall(s, e)
    ensures LeavesCall(s, e) ==> && IsCall(s, e) && e.kind != CallJump && s.bbcc.Some? && s.frames != []
                                 && s.frames[|s.frames| - 1].jcc.Some?
  {
  }

  /** The state that goes on when the last block is left by such a jump. */
  lemma ConvertedIs(s: Shadow, e: Arrival, skipDirect: bool)
    requires Inv(s)
    ensures var c := Converted(s, e, TakenAs(s, e), skipDirect);
            c.Done? ==>
              var m := |s.frames| - 1;
              if LeavesCall(s, e) then
                && c.value.1 == s.frames[m].sp && c.value.2 == s.frames[m].jcc.value.jmp
                && c.value.0.frames == s.frames[..m] && c.value.0.nonskipped == s.frames[m].nonskipped
                && (m >= s.bottom ==>
                      && c.value.0.bbcc == Some(s.frames[m].jcc.value.from)
                      && s.frames[m].saved.Some? && s.frames[m].saved.value.fnSp < |s.fns|
                      && c.value.0.cxt == Some(s.frames[m].saved.value.cxt)
                      && c.value.0.fns == s.fns[..s.frames[m].saved.value.fnSp + 1])
              else c.value == (s, e.sp, s.jmps)
  {
    hide Inv, TakenAs, BecomesCall, RealReturn, IsCall, LevelOk, Pop;
    TakenIs(s, e);
    ConvertedFails(s, e, skipDirect);
    CallIsCall(s, e);
    if LeavesCall(s, e) {
      TopCall(s);
      PopsEntry(s);
      var m := |s.frames| - 1;
      var x := s.(bbcc := Some(s.frames[m].jcc.value.from));
      WithBbcc(s, s.frames[m].jcc.value.from, 0);
      PopIs(x, skipDirect);
    }
  }

  lemma PopInLevel(s: Shadow, skipDirect: bool)
    requires Inv(s) && s.bottom < |s.frames|
    ensures FrameOk(s.frames[|s.frames| - 1], s.fns, |s.active|) && Pop(s, skipDirect) == Done(PopEntry(s, skipDirect))
  {
    hide Inv, LevelOk;
    PopsEntry(s);
    BottomMeans(s);
    PopEntryKeeps(s, skipDirect);
  }

  lemma PoppedEntry(s: Shadow, skipDirect: bool)
    requires s.frames != [] && FrameOk(s.frames[|s.frames| - 1], s.fns, |s.active|)
    ensures var (t, f) := (PopEntry(s, skipDirect), s.frames[|s.frames| - 1]);
            && t.nonskipped == f.nonskipped && t.bbcc == s.bbcc
            && (f.jcc.Some? ==> && f.saved.Some? && f.saved.value.fnSp < |s.fns| && t.cxt == Some(f.saved.value.cxt)
                                && t.fns == s.fns[..f.saved.value.fnSp + 1])
            && (f.jcc.None? ==> t.cxt == s.cxt && t.fns == s.fns)
  {
    hide ArcOk, Counts;
  }

  lemma PopIs(s: Shadow, skipDirect: bool)
    requires Inv(s) && s.frames != []
    ensures var (r, m) := (Pop(s, skipDirect), |s.frames| - 1);
            r.Done? ==> && r.value.frames == s.frames[..m] && r.value.nonskipped == s.frames[m].nonskipped
                        && (m >= s.bottom ==> r.value.bbcc == s.bbcc)
                        && (m >= s.bottom && s.frames[m].jcc.Some? ==>
                              && s.frames[m].saved.Some? && s.frames[m].saved.value.fnSp < |s.fns|
                              && r.value.cxt == Some(s.frames[m].saved.value.cxt)
                              && r.value.fns == s.fns[..s.frames[m].saved.value.fnSp + 1])
  {
    hide Inv, LevelOk, FrameOk, PopEntry, Pop, AtBottom;
    PopsEntry(s);
    BottomMeans(s);
    if AtBottom(s) {
      PopAtBottom(s, skipDirect);
    } else {
      PopInLevel(s, skipDirect);
      PoppedEntry(s, skipDirect);
    }
  }

  lemma PopAtBottom(s: Shadow, skipDirect: bool)
    requires Inv(s) && s.frames != [] && AtBottom(s)
    ensures |s.frames| == s.bottom
    ensures var (r, m) := (Pop(s, skipDirect), |s.frames| - 1);
            r.Done? ==> r.value.frames == s.frames[..m] && r.value.nonskipped == s.frames[m].nonskipped
  {
    hide Inv, LevelOk, FrameOk, PopEntry;
    PopsEntry(s);
    var u := PostSignal(s);
    PopsEntry(u);
    if !AtBottom(u) { PopEntryKeeps(u, skipDirect); }
  }

  // ------------------------------------------------------------------ the call

  /** The context of the block: as it is, or with its function entered. */
  ghost predicate InOwnContext(u: Shadow, v: Shadow, fn: Fn, called: bool)
    requires u.fns != []
  {
    var top := u.fns[|u.fns| - 1];
    if (!called && u.cxt.Some?) || (top.Of? && (top.fn == fn || (fn.group > 0 && top.fn.group == fn.group)))
    then v.fns == u.fns && v.cxt == u.cxt
    else v.fns == u.fns + [Of(fn)] && v.cxt == GetCxt(u.fns + [Of(fn)])
  }

  /** The record of a call that is pushed in state u, as v has it on top. */
  ghost predicate Recorded(u: Shadow, v: Shadow, sp: UWord, ret: UWord, skip: bool, passed: nat)
    requires u.bbcc.Some? && v.bbcc.Some? && u.fns != []
  {
    && v.frames != []
    && var f := v.frames[|v.frames| - 1];
       && f.sp == sp && f.retAddr == ret && f.nonskipped == u.nonskipped
       && (skip ==> f.jcc == None)
       && (!skip ==> f.jcc == Some(if u.nonskipped.Some? then Jcc(u.nonskipped.value, u.nonskipped.value.bb.cjmps,
                                                                  v.bbcc.value)
                                   else Jcc(u.bbcc.value, passed, v.bbcc.value)))
       && (!skip && u.cxt.Some? ==> f.saved == Some(Saved(u.cxt.value, |u.fns| - 1)))
       && v.nonskipped == (if !skip then None else if u.nonskipped.Some? then u.nonskipped else u.bbcc)
       && Collects(u, v, !skip)
  }

  /** Collection is toggled exactly if a call that is not skipped makes a function active for which it
      is to be toggled, and that was not active. */
  predicate Collects(u: Shadow, v: Shadow, called: bool) {
    && v.cxt.Some? && v.cxt.value.fns != [] && v.cxt.value.fns[0].id < |v.active|
    && var fn := v.cxt.value.fns[0];
       v.collect == if called && fn.toggles && v.active[fn.id] == 1 then !u.collect else u.collect
  }

  lemma PushedCollects(w: Shadow, bb: Bb, p: Pending, passed: nat, ret: UWord, skipDirect: bool)
    requires CanEnter(w, p)
    ensures Collects(w, Pushed(w, bb, p, passed, ret, skipDirect), p.Pending? && !p.skip)
  {
  }

  lemma EnteredIs(u: Shadow, e: Arrival, p: Pending, passed: nat, ret: UWord, skipDirect: bool)
    requires Inv(u) && ArrivalOk(u, e) && PendingOk(u, p)
    ensures u.fns != []
    ensures var r := Entered(u, e, p, passed, ret, skipDirect);
            r.Done? ==> && r.value.bbcc.Some? && r.value.bbcc.value.bb == e.bb && r.value.cxt.Some?
                        && r.value.bbcc.value.cxt == r.value.cxt.value && r.value.jmps == 0
                        && InOwnContext(u, r.value, e.bb.fn, p.Pending? && !p.skip)
                        && (p.NoCall? ==> r.value.frames == u.frames && r.value.nonskipped == u.nonskipped
                                          && r.value.collect == u.collect)
                        && (p.Pending? ==> && |r.value.frames| == |u.frames| + 1
                                           && r.value.frames[..|u.frames|] == u.frames
                                           && u.bbcc.Some? && Recorded(u, r.value, p.sp, ret, p.skip, passed))
  {
    hide Inv, LevelOk, Entering, SameBelow, GetCxt, Pushed;
    PopsEntry(u);
    var called := p.Pending? && !p.skip;
    InContextEnters(u, e.bb.fn, called);
    var w := InContext(u, e.bb.fn, called);
    if w.Done? {
      EnterReady(u, w.value, p);
      PushedKeeps(u, w.value, e.bb, p, passed, ret, skipDirect);
      PushedCollects(w.value, e.bb, p, passed, ret, skipDirect);
      assert Entered(u, e, p, passed, ret, skipDirect) == Done(Pushed(w.value, e.bb, p, passed, ret, skipDirect));
    }
  }

  lemma UnwoundIs(s: Shadow, e: Arrival, t: Taken, emulated: bool, sp: UWord, ret: UWord, skipDirect: bool)
    requires Inv(s) && ArrivalOk(s, e) && (t.kind == Return || t.kind == CallJump ==> s.bbcc.Some?)
    ensures var (r, k) := (Unwound(s, e, t, emulated, sp, ret, skipDirect), Kept(s.frames, sp, 0));
            r.Done? ==>
              var (u, p) := r.value;
              && (p.Pending? <==> t.kind == CallJump && k == |s.frames|)
              && (p.Pending? ==> && u == s && p.skip == e.bb.fn.skip
                                 && p.sp == if emulated && s.frames != [] then s.frames[|s.frames| - 1].sp else sp)
              && (t.kind != Return && k == |s.frames| ==> u == s)
  {
    hide Inv, LevelOk, PendingOk, ArrivalOk, Pop, Underflows, SharedBottom, LevelsLeft, SameBelow;
    if t.kind != Return {
      UnwindIs(s, sp, 0, skipDirect);
      UnwindNothing(s, sp, skipDirect);
    }
  }

  lemma UnwindNothing(s: Shadow, sp: UWord, skipDirect: bool)
    requires Inv(s)
    ensures Kept(s.frames, sp, 0) == |s.frames| ==> Unwind(s, sp, 0, skipDirect) == Done((s, 0))
  {
    hide Inv, Pop;
  }

  /** The calls of s that are there when the stack pointer is looked at, and that stack pointer. */
  ghost function Before(s: Shadow, e: Arrival): (r: (seq<Frame>, UWord))
  {
    if LeavesCall(s, e) then (s.frames[..|s.frames| - 1], s.frames[|s.frames| - 1].sp) else (s.frames, e.sp)
  }

  /** The state a call is pushed in: with the innermost call left, perhaps. */
  ghost predicate PushedFrom(s: Shadow, u: Shadow, e: Arrival) {
    if LeavesCall(s, e) then
      var top := s.frames[|s.frames| - 1];
      && u.frames == s.frames[..|s.frames| - 1] && u.nonskipped == top.nonskipped
      && (|u.frames| >= s.bottom ==>
            && u.bbcc == Some(top.jcc.value.from) && top.saved.Some? && u.cxt == Some(top.saved.value.cxt)
            && top.saved.value.fnSp < |s.fns| && u.fns == s.fns[..top.saved.value.fnSp + 1])
    else u == s
  }

  /** Entering a block pushes a call exactly if it is a call and nothing lies below its stack pointer.
      Recorded are: the stack pointer, for calls by jumps that of the call they are made in; the return
      address; the arc, out of skipped code from the last block that was not skipped, and none if the
      function is skipped; and the context left.  The block goes on in the context of its function. */
  lemma SetupCalls(s: Shadow, e: Arrival, ret: UWord, skipDirect: bool)
    requires Inv(s) && ArrivalOk(s, e)
    ensures var r := Setup(s, e, ret, skipDirect);
            r.Done? ==>
              var (frames, sp) := Before(s, e);
              var pushes := IsCall(s, e) && Kept(frames, sp, 0) == |frames|;
              && r.value.bbcc.Some? && r.value.bbcc.value.bb == e.bb && r.value.jmps == 0 && r.value.cxt.Some?
              && r.value.bbcc.value.cxt == r.value.cxt.value
              && |r.value.frames| == KeptBy(s, e) + (if pushes then 1 else 0)
              && (pushes ==>
                    exists u: Shadow :: && PushedFrom(s, u, e) && u.fns != [] && u.bbcc.Some?
                         && Recorded(u, r.value, if e.kind != CallJump && frames != [] then frames[|frames| - 1].sp
                                     else sp, ret, e.bb.fn.skip,
                                     if LeavesCall(s, e) then s.frames[|s.frames| - 1].jcc.value.jmp else s.jmps)
                         && InOwnContext(u, r.value, e.bb.fn, !e.bb.fn.skip))
  {
    hide Inv, LevelOk, PendingOk, Converted, Unwound, Entered, TakenAs, RealReturn, IsCall, LeavesCall, BecomesCall,
         ArrivalOk, Kept, Recorded, InOwnContext, GetCxt, JumpPops, SameBelow, AtLevel, LevelsLeft, SharedBottom, Left;
    var t := TakenAs(s, e);
    TakenIs(s, e);
    var emulated := BecomesCall(s.bbcc, e, t);
    var c := Converted(s, e, t, skipDirect);
    ConvertedIs(s, e, skipDirect);
    EmulatedCall(s, e, t);
    CallIsCall(s, e);
    PopsEntry(s);
    if c.Done? {
      ConvertedGoesOn(s, e, t, skipDirect);
      var (s1, sp, passed) := c.value;
      ArrivalStays(s, s1, e);
      var t1 := if emulated then t.(kind := CallJump) else t;
      var w := Unwound(s1, e, t1, emulated, sp, ret, skipDirect);
      UnwoundIs(s1, e, t1, emulated, sp, ret, skipDirect);
      if w.Done? {
        ArrivalStays(s, w.value.0, e);
        EnteredIs(w.value.0, e, w.value.1, passed, ret, skipDirect);
        UnwoundLeaves(s1, e, t1, emulated, sp, ret, skipDirect);
        LeftFrames(s1, w.value.0, if t1.kind == Return && Underflows(s1) then |s1.frames|
                                  else Kept(s1.frames, sp, if t1.kind == Return then t1.pops else 0));
        UnwoundFrames(s, e, s1, t1, emulated, sp, w.value.0);
        assert s1.frames == Before(s, e).0 && sp == Before(s, e).1;
        if w.value.1.Pending? { assert PushedFrom(s, s1, e); }
      }
    }
  }

  lemma LeftFrames(s: Shadow, u: Shadow, k: nat)
    requires k <= |s.frames| && Left(s, u, k)
    ensures u.frames == s.frames[..k]
  {
  }

  lemma UnwoundFrames(s: Shadow, e: Arrival, s1: Shadow, t: Taken, emulated: bool, sp: UWord, u: Shadow)
    requires (s1.frames, sp) == Before(s, e) && (!LeavesCall(s, e) ==> s1 == s)
    requires emulated == BecomesCall(s.bbcc, e, TakenAs(s, e))
             && t == if emulated then TakenAs(s, e).(kind := CallJump) else TakenAs(s, e)
    requires var k := if t.kind == Return && Underflows(s1) then |s1.frames|
                      else Kept(s1.frames, sp, if t.kind == Return then t.pops else 0);
             u.frames == s1.frames[..k]
    ensures |u.frames| == KeptBy(s, e)
  {
    hide Kept, RealReturn, IsCall, TakenAs, BecomesCall;
    TakenIs(s, e);
    EmulatedCall(s, e, TakenAs(s, e));
    CallIsCall(s, e);
  }

  // ---------------------------------------------------------------- the return

  /** The outermost of the calls from k on that has an arc. */
  predicate OutermostArc(frames: seq<Frame>, k: nat, j: nat) {
    k <= j < |frames| && frames[j].jcc.Some? && forall i :: k <= i < j ==> frames[i].jcc.None?
  }

  predicate NoArcs(frames: seq<Frame>, k: nat) {
    forall i :: k <= i < |frames| ==> frames[i].jcc.None?
  }

  /** v has the first k calls of s, and the context, the function stack and the skipping there were
      before the outermost call that is gone, which is call j if that has an arc. */
  ghost predicate Restores(s: Shadow, v: Shadow, k: nat, j: nat)
    requires k <= |s.frames|
  {
    && v.frames == s.frames[..k]
    && v.nonskipped == (if k < |s.frames| then s.frames[k].nonskipped else s.nonskipped)
    && (NoArcs(s.frames, k) ==> v.cxt == s.cxt && v.fns == s.fns)
    && (OutermostArc(s.frames, k, j) ==>
          && s.frames[j].saved.Some? && s.frames[j].saved.value.fnSp < |s.fns|
          && v.cxt == Some(s.frames[j].saved.value.cxt)
          && v.fns == s.fns[..s.frames[j].saved.value.fnSp + 1])
  }

  lemma RestoresStep(s: Shadow, v: Shadow, k: nat, j: nat, skipDirect: bool)
    requires k < |s.frames| && FrameOk(s.frames[|s.frames| - 1], s.fns, |s.active|)
    requires Restores(PopEntry(s, skipDirect), v, k, j)
    ensures Restores(s, v, k, j)
  {
    hide FrameOk;
    var m, u := |s.frames| - 1, PopEntry(s, skipDirect);
    PoppedEntry(s, skipDirect);
    assert u.frames == s.frames[..m] && s.frames[..m][..k] == s.frames[..k];
    if OutermostArc(s.frames, k, j) {
      if j < m {
        assert OutermostArc(u.frames, k, j);
        assert u.fns[..s.frames[j].saved.value.fnSp + 1] == s.fns[..s.frames[j].saved.value.fnSp + 1];
      } else {
        assert NoArcs(u.frames, k);
      }
    }
  }

  /** Unwinding within a level goes back to the context, the function stack and the skipping there
      were before the outermost call that is left. */
  lemma {:induction false} UnwindRestores(s: Shadow, sp: UWord, minpops: int, skipDirect: bool, j: nat)
    requires Inv(s) && Kept(s.frames, sp, minpops) >= s.bottom
    ensures var r := Unwind(s, sp, minpops, skipDirect);
            r.Done? && Restores(s, r.value.0, Kept(s.frames, sp, minpops), j)
    decreases |s.frames|
  {
    hide Inv, LevelOk, SameBelow, Pop, PopEntry, FrameOk, Restores;
    var k := Kept(s.frames, sp, minpops);
    PopsEntry(s);
    if k < |s.frames| {
      PopInLevel(s, skipDirect);
      PopLevels(s, skipDirect);
      PopEntryKeeps(s, skipDirect);
      BottomMeans(s);
      UnwindRestores(PopEntry(s, skipDirect), sp, minpops - 1, skipDirect, j);
      RestoresStep(s, Unwind(PopEntry(s, skipDirect), sp, minpops - 1, skipDirect).value.0, k, j, skipDirect);
    } else {
      RestoresNothing(s, j);
      KeptAll(s, sp, minpops, skipDirect);
    }
  }

  lemma RestoresNothing(s: Shadow, j: nat)
    ensures Restores(s, s, |s.frames|, j)
  {
  }

  lemma KeptAll(s: Shadow, sp: UWord, minpops: int, skipDirect: bool)
    requires Inv(s) && Kept(s.frames, sp, minpops) == |s.frames|
    ensures Unwind(s, sp, minpops, skipDirect) == Done((s, 0))
  {
    hide Inv, Pop;
  }

  /** A return that leaves calls of its own level, and does not leave the only function there is, goes
      back to the context its outermost call was made in. */
  lemma SetupReturns(s: Shadow, e: Arrival, ret: UWord, skipDirect: bool, j: nat)
    requires Inv(s) && ArrivalOk(s, e) && RealReturn(s, e) && !Underflows(s) && KeptBy(s, e) >= s.bottom
    ensures var r := Setup(s, e, ret, skipDirect);
            r.Done? && s.cxt.Some? ==>
              Restores(s, r.value, KeptBy(s, e), j)
  {
    hide Inv, LevelOk, PendingOk, Converted, Entered, TakenAs, RealReturn, BecomesCall, ArrivalOk, Kept,
         GetCxt, JumpPops, Underflows, Unwind, LeavesCall;
    var t := TakenAs(s, e);
    TakenIs(s, e);
    ConvertedIs(s, e, skipDirect);
    ConvertedFails(s, e, skipDirect);
    CallIsCall(s, e);
    var k := KeptBy(s, e);
    assert k == Kept(s.frames, e.sp, t.pops);
    UnwindRestores(s, e.sp, t.pops, skipDirect, j);
    var u := Unwind(s, e.sp, t.pops, skipDirect).value.0;
    ArrivalStays(s, u, e);
    NoCallOk(u);
    EnteredIs(u, e, NoCall, s.jmps, ret, skipDirect);
  }

  lemma NoCallOk(u: Shadow)
    ensures PendingOk(u, NoCall)
  {
  }

  // --------------------------------------------------------- activation counts

  /** A call that counts as an activation of function f: direct recursion may be set not to. */
  predicate Activates(x: Frame, f: nat, skipDirect: bool) {
    && x.jcc.Some? && x.jcc.value.from.cxt.fns != [] && x.jcc.value.to.cxt.fns != []
    && x.jcc.value.to.cxt.fns[0].id == f
    && (!skipDirect || x.jcc.value.from.cxt.fns[0] != x.jcc.value.to.cxt.fns[0])
  }

  function Activations(frames: seq<Frame>, f: nat, skipDirect: bool): nat {
    if frames == [] then 0 else
    var m := |frames| - 1;
    Activations(frames[..m], f, skipDirect) + if Activates(frames[m], f, skipDirect) then 1 else 0
  }

  /** The activation count of a function has changed by as much as the number of its calls that
      count, as a 32-bit word. */
  ghost predicate Tallies(s: Shadow, t: Shadow, f: nat, skipDirect: bool) {
    && |t.active| == |s.active|
    && (f < |s.active| ==>
          (t.active[f] as int - s.active[f] as int) % 4294967296
          == (Activations(t.frames, f, skipDirect) - Activations(s.frames, f, skipDirect)) % 4294967296)
  }

  lemma PushTallies(s: Shadow, j: Jcc, sp: UWord, ret: UWord, f: nat, skipDirect: bool)
    requires ArcOk(j, |s.active|) && s.saved.Some? && (s.nonskipped.Some? ==> s.nonskipped.value == j.from)
    ensures Tallies(s, PushCall(s, j, sp, ret, skipDirect), f, skipDirect)
  {
    var t := PushCall(s, j, sp, ret, skipDirect);
    assert t.frames[..|s.frames|] == s.frames;
  }

  lemma SkippedTallies(s: Shadow, from: Bbcc, sp: UWord, ret: UWord, f: nat, skipDirect: bool)
    ensures Tallies(s, PushSkipped(s, from, sp, ret), f, skipDirect)
  {
    var t := PushSkipped(s, from, sp, ret);
    assert t.frames[..|s.frames|] == s.frames;
  }

  lemma PopTallies(s: Shadow, f: nat, skipDirect: bool)
    requires s.frames != [] && FrameOk(s.frames[|s.frames| - 1], s.fns, |s.active|)
    ensures Tallies(s, PopEntry(s, skipDirect), f, skipDirect)
  {
  }

  lemma TalliesTwice(s: Shadow, t: Shadow, u: Shadow, f: nat, skipDirect: bool)
    requires Tallies(s, t, f, skipDirect) && Tallies(t, u, f, skipDirect)
    ensures Tallies(s, u, f, skipDirect)
  {
    hide Activations;
    if f < |s.active| {
      AddMod(t.active[f] as int - s.active[f] as int, u.active[f] as int - t.active[f] as int,
        Activations(t.frames, f, skipDirect) - Activations(s.frames, f, skipDirect),
        Activations(u.frames, f, skipDirect) - Activations(t.frames, f, skipDirect));
    }
  }

  lemma AddMod(a: int, b: int, c: int, d: int)
    requires a % 4294967296 == c % 4294967296 && b % 4294967296 == d % 4294967296
    ensures (a + b) % 4294967296 == (c + d) % 4294967296
  {
  }

  /** However many calls of its level unwinding removes, each function's activation count goes down by
      the number of its calls among them that count. */
  lemma {:induction false} UnwindTallies(s: Shadow, sp: UWord, minpops: int, f: nat, skipDirect: bool)
    requires Inv(s) && Kept(s.frames, sp, minpops) >= s.bottom
    ensures var r := Unwind(s, sp, minpops, skipDirect); r.Done? && Tallies(s, r.value.0, f, skipDirect)
    decreases |s.frames|
  {
    hide Inv, LevelOk, SameBelow, Pop, Tallies;
    var k := Kept(s.frames, sp, minpops);
    UnwindIs(s, sp, minpops, skipDirect);
    NoneLeft(s, k);
    PopsEntry(s);
    if k < |s.frames| {
      BottomMeans(s);
      PopEntryKeeps(s, skipDirect);
      PopLevels(s, skipDirect);
      PopInLevel(s, skipDirect);
      var u := PopEntry(s, skipDirect);
      PopTallies(s, f, skipDirect);
      UnwindTallies(u, sp, minpops - 1, f, skipDirect);
      TalliesTwice(s, u, Unwind(u, sp, minpops - 1, skipDirect).value.0, f, skipDirect);
    } else {
      TalliesSelf(s, f, skipDirect);
    }
  }

  lemma TalliesSelf(s: Shadow, f: nat, skipDirect: bool)
    ensures Tallies(s, s, f, skipDirect)
  {
  }
}
