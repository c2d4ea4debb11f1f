/** The shadow call stack in place: growing arrays of call entries and of functions, and the
    code that runs when a block is entered. */
module CallStack {
  import opened ShadowStack

  /** An entry of the call stack array; the context is saved in it before the call is pushed. */
  datatype Entry = Entry(jcc: Maybe<Jcc>, sp: UWord, retAddr: UWord, nonskipped: Maybe<Bbcc>, cxt: Maybe<Cxt>,
          fnSp: nat)

  const BLANK := Entry(None, 0, 0, None, None, 0)

  function SavedIn(e: Entry): Maybe<Saved> {
    if e.cxt.Some? then Some(Saved(e.cxt.value, e.fnSp)) else None
  }

  function FrameFrom(e: Entry): Frame {
    Frame(e.jcc, e.sp, e.retAddr, e.nonskipped, SavedIn(e))
  }

  function FramesFrom(es: seq<Entry>): (fs: seq<Frame>)
    ensures |fs| == |es| && forall i :: 0 <= i < |es| ==> fs[i] == FrameFrom(es[i])
  {
    seq(|es|, i requires 0 <= i < |es| => FrameFrom(es[i]))
  }

  class CallStack {
    var entry: array<Entry>
    var sp: nat
    var fn: array<Slot>
    var top: nat
    const active: array<UInt>

    // the current execution state, and those interrupted by signals
    var cxt: Maybe<Cxt>
    var collect: bool
    var jmps_passed: nat
    var bbcc: Maybe<Bbcc>
    var nonskipped: Maybe<Bbcc>
    var sig: int
    var call_stack_bottom: nat
    var states: seq<Exec>

    const skipDirect: bool

    ghost predicate Valid()
      reads this
    {
      sp < entry.Length && top < fn.Length
    }

    ghost function Value(): (s: Shadow)
      requires Valid()
      reads this, entry, fn, active
      ensures s.fns != [] && |s.active| == active.Length && |s.frames| == sp
    {
      Shadow(FramesFrom(entry[..sp]), SavedIn(entry[sp]), fn[..top + 1], active[..], cxt, collect, jmps_passed, bbcc,
        nonskipped,
             sig, call_stack_bottom, states)
    }

    ghost function Repr(): set<object>
      reads this
    {
      {this, entry, fn, active}
    }

    constructor (nFns: nat, collectAtStart: bool, skipDirect: bool)
      ensures Valid() && fresh(Repr()) && this.skipDirect == skipDirect
      ensures Value() == Fresh(nFns, collectAtStart)
    {
      entry := new Entry[500](_ => BLANK);
      sp := 0;
      fn := new Slot[10](_ => Marker);
      top := 0;
      active := new UInt[nFns](_ => 0);
      cxt, collect, jmps_passed, bbcc, nonskipped := None, collectAtStart, 0, None, None;
      sig, call_stack_bottom, states := 0, 0, [];
      this.skipDirect := skipDirect;
      new;
      assert fn[..1] == [Marker] && active[..] == seq(nFns, _ => 0);
    }

    /** Make room for entry i, doubling the array as often as needed.  No room is made exactly if
        i is the old size doubled some times; in all its uses i is at most the old size. */
    method EnsureStackSize(i: nat)
      requires Valid()
      modifies this`entry
      ensures Valid() && Value() == old(Value()) && (entry == old(entry) || fresh(entry))
      ensures i >= entry.Length <==> exists j: nat :: Doubled(old(entry.Length), j, i)
    {
      if i < entry.Length {
        NotDoubled(entry.Length, i);
        return;
      }
      var old_entry := entry;
      var size := NewSize(i);
      var bigger := new Entry[size](_ => BLANK);
      for k := 0 to old_entry.Length
        invariant entry == old_entry && forall j :: 0 <= j < k ==> bigger[j] == old_entry[j]
      {
        bigger[k] := old_entry[k];
      }
      assert bigger[..sp] == entry[..sp] && bigger[sp] == entry[sp];
      entry := bigger;
    }

    method NewSize(i: nat) returns (size: nat)
      requires Valid() && i >= entry.Length
      ensures size >= 2 * entry.Length && size >= i
      ensures i == size <==> exists j: nat :: Doubled(entry.Length, j, i)
    {
      size := entry.Length * 2;
      ghost var k := 1;
      while i > size
        invariant k >= 1 && size == Grown(entry.Length, k) >= 2 * entry.Length
        invariant k > 1 ==> i > Grown(entry.Length, k - 1)
        decreases i - size
      {
        size := size * 2;
        k := k + 1;
      }
      OnlyDoubled(entry.Length, k, i);
    }

    /** Save the context in the entry the coming call will use. */
    method SaveContext()
      requires Valid()
      modifies entry
      ensures Valid() && Value() == old(Value()).(saved := SavedFrom(old(Value())))
    {
      ghost var s := Value();
      entry[sp] := entry[sp].(cxt := cxt, fnSp := top);
      assert FramesFrom(entry[..sp]) == s.frames;
    }

    /** Change the activation count of a function. */
    method SetActive(id: nat, c: UInt)
      requires Valid() && id < |Value().active|
      modifies active
      ensures Valid() && Value() == old(Value()).(active := old(Value()).active[id := c])
    {
      ghost var s := Value();
      active[id] := c;
      assert active[..] == s.active[id := c];
    }

    /** Make room for one more function. */
    method EnsureFnRoom()
      requires Valid()
      modifies this`fn
      ensures Valid() && top + 1 < fn.Length && Value() == old(Value()) && (fn == old(fn) || fresh(fn))
    {
      if top == fn.Length - 1 {
        GrowFnStack();
      }
    }

    method PushSlot(f: Fn)
      requires Valid() && top + 1 < fn.Length
      modifies this`top, fn
      ensures Valid() && Value() == old(Value()).(fns := old(Value()).fns + [Of(f)])
    {
      ghost var fns := fn[..top + 1];
      top := top + 1;
      fn[top] := Of(f);
      assert fn[..top + 1] == fns + [Of(f)];
    }

    /** Put a function on top of the function stack. */
    method PushFunction(f: Fn)
      requires Valid() && f.id < active.Length
      modifies this`fn, this`top, this`cxt, fn, active
      ensures Valid() && (fn == old(fn) || fresh(fn))
      ensures var s := old(Value());
              Value() == s.(active := if s.fns[|s.fns| - 1].Marker? then s.active[f.id := Up(s.active[f.id])]
                else s.active,
                            fns := s.fns + [Of(f)], cxt := GetCxt(s.fns + [Of(f)]))
    {
      hide GetCxt, FramesFrom, SavedIn;
      EnsureFnRoom();
      if fn[top].Marker? {
        SetActive(f.id, Up(active[f.id]));
      }
      PushSlot(f);
      cxt := GetCxt(fn[..top + 1]);
    }

    /** Enter a function: save the context for the coming call, then change it.  The group of a
        separator cannot be looked up. */
    method PushContext(f: Fn) returns (r: Outcome<()>)
      requires Valid() && Value().saved == None && f.id < |Value().active|
      modifies this, entry, fn, active
      ensures Valid() && entry == old(entry) && (fn == old(fn) || fresh(fn))
      ensures SameKind(r, EnterFn(old(Value()), f)) && (r.Done? ==> Value() == PushCxt(old(Value()), f))
    {
      hide GetCxt, FramesFrom;
      SaveContext();
      SameTopIs(fn[..top + 1], f);
      if fn[top] == Of(f) {
        return Done(());
      }
      if f.group > 0 {
        if fn[top] == Marker {
          return NullFunction;
        }
        if fn[top].fn.group == f.group {
          return Done(());
        }
      }
      PushFunction(f);
      r := Done(());
    }

    method GrowFnStack()
      requires Valid()
      modifies this`fn
      ensures Valid() && fn.Length == 2 * old(fn.Length) && fresh(fn) && fn[..top + 1] == old(fn[..top + 1])
    {
      var old_fn := fn;
      var bigger := new Slot[2 * old_fn.Length](_ => Marker);
      for k := 0 to old_fn.Length
        invariant fn == old_fn && forall j :: 0 <= j < k ==> bigger[j] == old_fn[j]
      {
        bigger[k] := old_fn[k];
      }
      assert bigger[..top + 1] == old_fn[..top + 1];
      fn := bigger;
    }

    /** Fill the entry of the coming call and make it part of the stack. */
    method Fill(jcc: Maybe<Jcc>, callSp: UWord, ret: UWord)
      requires Valid()
      modifies this`entry, this`sp, entry
      ensures Valid() && (entry == old(entry) || fresh(entry))
      ensures var s := old(Value());
              Value() == s.(frames := s.frames + [Frame(jcc, callSp, ret, s.nonskipped, s.saved)], saved := None)
    {
      hide CallStack.Value, FramesFrom, SavedIn;
      Fields();
      NotDoubled(entry.Length, sp + 1);
      EnsureStackSize(sp + 1);
      Fields();
      WriteEntry(jcc, callSp, ret);
    }

    method WriteEntry(jcc: Maybe<Jcc>, callSp: UWord, ret: UWord)
      requires Valid() && sp + 1 < entry.Length
      modifies this`sp, entry
      ensures Valid()
      ensures var s := old(Value());
              Value() == s.(frames := s.frames + [Frame(jcc, callSp, ret, s.nonskipped, s.saved)], saved := None)
    {
      ghost var s := Value();
      ghost var es := entry[..sp];
      entry[sp] := Entry(jcc, callSp, ret, nonskipped, entry[sp].cxt, entry[sp].fnSp);
      assert entry[..sp] == es && entry[..sp + 1] == es + [entry[sp]];
      sp := sp + 1;
      entry[sp] := entry[sp].(cxt := None);
      assert entry[..sp] == es + [entry[sp - 1]];
      assert FramesFrom(entry[..sp]) == s.frames + [Frame(jcc, callSp, ret, s.nonskipped, s.saved)];
    }

    method ActiveCount(id: nat) returns (c: UInt)
      requires Valid() && id < |Value().active|
      ensures c == Value().active[id]
    {
      c := active[id];
    }

    method ToggleCollect()
      requires Valid()
      modifies this`collect
      ensures Valid() && Value() == old(Value()).(collect := !old(Value()).collect)
    {
      collect := !collect;
    }

    method SetNonskipped(b: Maybe<Bbcc>)
      requires Valid()
      modifies this`nonskipped
      ensures Valid() && Value() == old(Value()).(nonskipped := b)
    {
      nonskipped := b;
    }

    /** Push a call that is not skipped. */
    method PushCallStack(j: Jcc, callSp: UWord, ret: UWord)
      requires Valid() && ArcOk(j, |Value().active|) && Value().saved.Some?
      requires Value().nonskipped.Some? ==> Value().nonskipped.value == j.from
      modifies this, entry, active
      ensures Valid() && (entry == old(entry) || fresh(entry)) && fn == old(fn)
      ensures Value() == PushCall(old(Value()), j, callSp, ret, skipDirect)
    {
      hide CallStack.Value, CallStack.Valid;
      var id := FnOf(j.to).id;
      if Counts(j, skipDirect) {
        var count := ActiveCount(id);
        SetActive(id, Up(count));
      }
      var depth := ActiveCount(id);
      if depth == 1 && FnOf(j.to).toggles {
        ToggleCollect();
      }
      Fill(Some(j), callSp, ret);
      SetNonskipped(None);
    }

    /** Push a call to a skipped function. */
    method PushSkippedCall(from: Bbcc, callSp: UWord, ret: UWord)
      requires Valid()
      modifies this, entry
      ensures Valid() && (entry == old(entry) || fresh(entry)) && fn == old(fn)
      ensures Value() == PushSkipped(old(Value()), from, callSp, ret)
    {
      hide FramesFrom, SavedIn;
      Fill(None, callSp, ret);
      if nonskipped == None {
        nonskipped := Some(from);
      }
    }

    /** Take the innermost entry off the stack. */
    method Drop()
      requires Valid() && sp > 0
      modifies this`sp, entry
      ensures Valid() && Value() == old(Value()).(frames := old(Value()).frames[..old(sp) - 1], saved := None)
    {
      ghost var s := Value();
      entry[sp - 1] := entry[sp - 1].(cxt := None);
      sp := sp - 1;
      assert FramesFrom(entry[..sp]) == s.frames[..sp];
    }

    /** Go back to a saved context. */
    method RestoreContext(c: Maybe<Cxt>, fnSp: nat)
      requires Valid() && fnSp <= top
      modifies this`cxt, this`top
      ensures Valid() && Value() == old(Value()).(cxt := c, fns := old(Value()).fns[..fnSp + 1])
    {
      assert fn[..top + 1][..fnSp + 1] == fn[..fnSp + 1];
      cxt := c;
      top := fnSp;
    }

    /** Take off the innermost entry, of the current level, and restore its context. */
    method PopCurrent()
      requires Valid() && Value().frames != []
               && FrameOk(Value().frames[|Value().frames| - 1], Value().fns, |Value().active|)
      modifies this, entry, active
      ensures Valid() && entry == old(entry) && fn == old(fn)
      ensures Value() == PopEntry(old(Value()), skipDirect)
    {
      hide CallStack.Value;
      Fields();
      var lower_entry := entry[sp - 1];
      Drop();
      SetNonskipped(lower_entry.nonskipped);
      if lower_entry.jcc.Some? {
        PopArc(lower_entry.jcc.value, lower_entry.cxt, lower_entry.fnSp);
      }
    }

    /** Leave the function called, and go back to the context of the call. */
    method PopArc(j: Jcc, c: Maybe<Cxt>, fnSp: nat)
      requires Valid() && ArcOk(j, |Value().active|) && fnSp < |Value().fns|
      modifies this`cxt, this`top, this`collect, active
      ensures Valid()
      ensures var s := old(Value());
              var id := FnOf(j.to).id;
              var a := if Counts(j, skipDirect) then s.active[id := Down(s.active[id])] else s.active;
              Value() == s.(cxt := c, fns := s.fns[..fnSp + 1], active := a,
                            collect := if a[id] == 0 && FnOf(j.to).toggles then !s.collect else s.collect)
    {
      hide CallStack.Value, CallStack.Valid;
      Fields();
      var id := FnOf(j.to).id;
      if Counts(j, skipDirect) {
        var count := ActiveCount(id);
        SetActive(id, Down(count));
      }
      RestoreContext(c, fnSp);
      var depth := ActiveCount(id);
      if depth == 0 && FnOf(j.to).toggles {
        ToggleCollect();
      }
    }

    /** Does the innermost call lie below the stack pointer, or at it while minpops lasts? */
    method MustPop(newSp: UWord, minpops: int) returns (pop: bool)
      requires Valid()
      ensures var f := Value().frames;
              pop <==> f != [] && (f[|f| - 1].sp < newSp || (f[|f| - 1].sp == newSp && minpops > 0))
    {
      pop := sp > 0 && (entry[sp - 1].sp < newSp || (entry[sp - 1].sp == newSp && minpops > 0));
    }

    /** The function of a handler is left: its count goes down, and it and the separator below it
        come off the function stack. */
    method LeaveHandlerFn()
      requires Valid() && (cxt.Some? ==> cxt.value.fns != [] && cxt.value.fns[0].id < active.Length)
      requires top > 0 && fn[top] != Marker ==> fn[top - 1] == Marker
      modifies this`top, active
      ensures Valid()
      ensures var s := old(Value());
              Value() == s.(fns := WithoutMarker(s.fns),
                            active := if cxt.Some?
                              then var id := cxt.value.fns[0].id; s.active[id := Down(s.active[id])] else s.active)
    {
      ghost var s := Value();
      if cxt.Some? {
        var id := cxt.value.fns[0].id;
        SetActive(id, Down(active[id]));
      }
      if top > 0 {
        if fn[top] != Marker {
          top := top - 1;
          assert fn[top] == Marker;
        }
        if top > 0 {
          top := top - 1;
        }
      }
      assert fn[..top + 1] == WithoutMarker(s.fns);
    }

    /** Go on with the state a handler interrupted. */
    method RestoreState()
      requires Valid() && states != []
      modifies `cxt, `collect, `jmps_passed, `bbcc, `nonskipped, `sig, `call_stack_bottom, `states
      ensures Valid()
      ensures var (s, m) := (old(Value()), |old(states)| - 1);
              var x := s.below[m];
              Value() == Shadow(s.frames, s.saved, s.fns, s.active, x.cxt, x.collect, x.jmps, x.bbcc, x.nonskipped,
                x.sig, x.bottom, s.below[..m])
    {
      hide FramesFrom, SavedIn;
      var es := states[|states| - 1];
      states := states[..|states| - 1];
      sig, call_stack_bottom := es.sig, es.bottom;
      cxt, collect, jmps_passed, bbcc, nonskipped := es.cxt, es.collect, es.jmps, es.bbcc, es.nonskipped;
    }

    /** A handler with no calls left ends. */
    method PostSignal()
      requires Valid() && Inv(Value()) && states != [] && sp == call_stack_bottom
      modifies this, active
      ensures Valid() && entry == old(entry) && fn == old(fn)
      ensures old(Value()).below != [] && |old(Value()).frames| == old(Value()).bottom
      ensures Value() == ShadowStack.PostSignal(old(Value()))
    {
      hide Inv, FramesFrom;
      ghost var t := ShadowStack.PostSignal(Value());
      LeaveHandlerFn();
      RestoreState();
    }

    /** Pop the innermost call.  If the handler running has no call left, it ends first. */
    method PopCallStack() returns (r: Outcome<()>)
      requires Valid() && Inv(Value()) && Value().frames != []
      modifies this, entry, active
      ensures Valid() && entry == old(entry) && fn == old(fn)
      ensures SameKind(r, Pop(old(Value()), skipDirect))
              && (r.Done? ==> Value() == Pop(old(Value()), skipDirect).value && Inv(Value()))
    {
      hide Inv, PopEntry, FrameOk, CallStack.Value;
      Fields();
      PopsEntry(Value());
      if sig > 0 {
        if sp == call_stack_bottom {
          PostSignal();
          Fields();
          PopsEntry(Value());
          if sig > 0 && sp == call_stack_bottom {
            return Tangled;
          }
        }
      }
      PopEntryKeeps(Value(), skipDirect);
      PopCurrent();
      r := Done(());
    }

    /** Pop calls below the stack pointer, and at it as long as minpops lasts. */
    method UnwindCallStack(newSp: UWord, minpops0: int) returns (r: Outcome<nat>)
      requires Valid() && Inv(Value())
      modifies this, entry, active
      ensures Valid() && entry == old(entry) && fn == old(fn)
      ensures var u := Unwind(old(Value()), newSp, minpops0, skipDirect);
              SameKind(r, u) && (r.Done? ==> (Value(), r.value) == u.value)
    {
      hide Inv, Pop, FrameOk, CallStack.Value, CallStack.Valid;
      var unwind_count := 0;
      var minpops := minpops0;
      ghost var s := Value();
      var pop := MustPop(newSp, minpops);
      while pop
        invariant Valid() && Inv(Value()) && entry == old(entry) && fn == old(fn)
        invariant pop <==> Value().frames != [] && Gone(Value().frames[|Value().frames| - 1], newSp, minpops)
        invariant var (u, v) := (Unwind(s, newSp, minpops0, skipDirect), Unwind(Value(), newSp, minpops, skipDirect));
                  SameKind(u, v) && (v.Done? ==> u.value == (v.value.0, unwind_count + v.value.1))
        decreases |Value().frames|
      {
        minpops := minpops - 1;
        unwind_count := unwind_count + 1;
        var popped := PopCallStack();
        if popped.Tangled? {
          return Tangled;
        }
        pop := MustPop(newSp, minpops);
      }
      r := Done(unwind_count);
    }

    // --------------------------------------------------------- entering a block

    /** How many calls a return leaves: look down through those at the same stack pointer. */
    method CountPops(newSp: UWord, addr: UWord) returns (popcount: int)
      requires Valid() && sp > 0
      ensures popcount == PopCount(Value().frames, newSp, addr)
    {
      ghost var frames := Value().frames;
      popcount := 1;
      var csp_up := sp - 1;
      if newSp < entry[csp_up].sp {
        return 0;
      }
      if entry[csp_up].sp == newSp {
        assert frames[..sp] == frames;
        while true
          invariant csp_up < sp && popcount >= 1
          invariant MatchingReturn(frames[..csp_up + 1], newSp, addr, popcount)
                    == MatchingReturn(frames, newSp, addr, 1)
          decreases csp_up
        {
          assert frames[..csp_up + 1][..csp_up] == frames[..csp_up];
          if entry[csp_up].retAddr == addr {
            return popcount;
          }
          if csp_up > 0 && entry[csp_up - 1].sp == newSp {
            csp_up := csp_up - 1;
            popcount := popcount + 1;
            continue;
          }
          return 0;
        }
      }
    }

    /** The jump as it is taken. */
    method TakeJump(e: Arrival) returns (t: Taken)
      requires Valid()
      ensures t == TakenAs(Value(), e)
    {
      hide PopCount;
      var jmpkind := if bbcc == None then FallThrough else e.kind;
      var popcount_on_return := 1;
      if jmpkind == Return && sp > 0 {
        popcount_on_return := CountPops(e.sp, e.bb.addr);
        if popcount_on_return == 0 {
          return Taken(Jump, 0, true);
        }
      }
      t := Taken(jmpkind, popcount_on_return, false);
    }

    /** Leave a function that is left by jumping out of it. */
    method ConvertJump(e: Arrival, t: Taken) returns (r: Outcome<(UWord, nat)>)
      requires Valid() && Inv(Value()) && t == TakenAs(Value(), e)
      modifies this, entry, active
      ensures Valid() && entry == old(entry) && fn == old(fn)
      ensures var c := Converted(old(Value()), e, t, skipDirect);
              SameKind(r, c) && (r.Done? ==> (Value(), r.value.0, r.value.1) == c.value)
    {
      hide Inv, Pop, FrameOk, TakenAs;
      ghost var s := Value();
      if BecomesCall(bbcc, e, t) {
        if bbcc.value.bb.fn.popOnJump && sp > 0 {
          var top_ce := entry[sp - 1];
          assert s.frames[sp - 1] == FrameFrom(top_ce);
          if top_ce.jcc.Some? {
            JumpSource(s);
            bbcc := Some(top_ce.jcc.value.from);
            assert Value() == s.(bbcc := bbcc);
            var popped := PopCallStack();
            return if popped.Tangled? then Tangled else Done((top_ce.sp, top_ce.jcc.value.jmp));
          }
          if nonskipped == None {
            return AssertionFails;
          }
        }
      }
      r := Done((e.sp, jmps_passed));
    }

    /** Take the top function off the function stack, to force a new context. */
    method LeaveLastFn()
      requires Valid() && top > 0
      modifies this`top, this`cxt
      ensures Valid() && Value() == old(Value()).(fns := old(Value()).fns[..old(top)], cxt := None)
    {
      assert fn[..top + 1][..top] == fn[..top];
      top := top - 1;
      cxt := None;
    }

    method SetBlock(b: Bbcc)
      requires Valid()
      modifies this`bbcc, this`jmps_passed
      ensures Valid() && Value() == old(Value()).(bbcc := Some(b), jmps := 0)
    {
      bbcc := Some(b);
      jmps_passed := 0;
    }

    /** The fields behind the value. */
    lemma Fields()
      requires Valid()
      ensures var s := Value();
              && s.bbcc == bbcc && s.nonskipped == nonskipped && s.cxt == cxt && s.jmps == jmps_passed && s.sig == sig
              && s.bottom == call_stack_bottom && s.below == states && |s.frames| == sp && |s.active| == active.Length
      ensures |Value().fns| == top + 1 && Value().fns[top] == fn[top]
              && (top > 0 ==> Value().fns[top - 1] == fn[top - 1])
      ensures sp > 0 ==> Value().frames[sp - 1] == FrameFrom(entry[sp - 1])
    {
    }

    /** Force a new context in place of the only function there is. */
    method ForceContext(f: Fn) returns (r: Outcome<()>)
      requires Valid() && |Value().fns| >= 2 && Value().saved == None && f.id < |Value().active|
      modifies this, entry, fn, active
      ensures Valid() && entry == old(entry) && (fn == old(fn) || fresh(fn))
      ensures SameKind(r, Forced(old(Value()), f)) && (r.Done? ==> Value() == Forced(old(Value()), f).value)
    {
      hide PushCxt, GetCxt, CallStack.Value, CallStack.Valid;
      Fields();
      LeaveLastFn();
      r := PushContext(f);
    }

    /** Make up a call that was not seen, to return from it. */
    method HandleUnderflow(e: Arrival, ret: UWord) returns (r: Outcome<()>)
      requires Valid() && Value().bbcc.Some? && |Value().fns| >= 2 && Value().fns[|Value().fns| - 2] == Marker
               && Value().saved == None
      requires e.bb.fn.id < |Value().active| && BbccOk(Value().bbcc, |Value().active|)
               && BbccOk(Some(e.source), |Value().active|)
      modifies this, entry, fn, active
      ensures Valid() && (entry == old(entry) || fresh(entry)) && (fn == old(fn) || fresh(fn))
      ensures var u := Underflow(old(Value()), e, ret, skipDirect);
              SameKind(r, u) && (r.Done? ==> Value() == u.value)
    {
      hide MadeUp, PushCxt, GetCxt, Forced, EnterFn, CallStack.Value, CallStack.Valid;
      Fields();
      ForcedIs(Value(), e.bb.fn);
      var last := bbcc.value;
      r := ForceContext(e.bb.fn);
      if r.NullFunction? {
        return;
      }
      MakeUpCall(e.source, last, ret);
    }

    /** Go back to the context of the last block by a call from source. */
    method MakeUpCall(source: Bbcc, last: Bbcc, ret: UWord)
      requires Valid() && Value().saved == None && Value().cxt.Some? && Value().fns[|Value().fns| - 1].Of?
      requires BbccOk(Some(last), |Value().active|) && BbccOk(Some(source), |Value().active|)
      modifies this, entry, fn, active
      ensures Valid() && (entry == old(entry) || fresh(entry)) && (fn == old(fn) || fresh(fn))
      ensures Value() == MadeUp(old(Value()), source, last, ret, skipDirect)
    {
      hide PushCxt, PushCall, GetCxt, CallStack.Value, CallStack.Valid;
      var f := FnOf(last);
      var count := ActiveCount(f.id);
      SetActive(f.id, Down(count));
      SetNonskipped(None);
      var _ := PushContext(f);
      PushCallStack(Jcc(source, 0, last), MAX_SP, ret);
    }

    /** A return out of the only function there is. */
    method ReturnUnderflow(e: Arrival, ret: UWord) returns (r: Outcome<()>)
      requires Valid() && Inv(Value()) && ArrivalOk(Value(), e) && Value().bbcc.Some? && Underflows(Value())
      modifies this, entry, fn, active
      ensures Valid() && (entry == old(entry) || fresh(entry)) && (fn == old(fn) || fresh(fn))
      ensures var u := Underflowed(old(Value()), e, ret, skipDirect);
              SameKind(r, u) && (r.Done? ==> Value() == u.value)
    {
      hide Inv, Underflow, Underflows, PopEntry, CallStack.Value, CallStack.Valid;
      ghost var s := Value();
      UnderflowReady(s, e);
      UnderflowKeeps(s, e, ret, skipDirect);
      r := HandleUnderflow(e, ret);
      if r.Done? {
        PopCurrent();
      }
    }

    /** Bring the stack in line with the stack pointer. */
    method UnwindFor(e: Arrival, t: Taken, emulated: bool, newSp: UWord, ret: UWord) returns (r: Outcome<Pending>)
      requires Valid() && Inv(Value()) && ArrivalOk(Value(), e)
      requires t.kind == Return || t.kind == CallJump ==> Value().bbcc.Some?
      modifies this, entry, fn, active
      ensures Valid() && (entry == old(entry) || fresh(entry)) && (fn == old(fn) || fresh(fn))
      ensures var u := Unwound(old(Value()), e, t, emulated, newSp, ret, skipDirect);
              SameKind(r, u) && (r.Done? ==> (Value(), r.value) == u.value)
    {
      hide Inv, Pop, Underflowed, Unwind, ArrivalOk, CallStack.Value;
      Fields();
      if t.kind == Return {
        if sp == 0 || (top > 0 && fn[top - 1] == Marker) {
          var left := ReturnUnderflow(e, ret);
          return if left.Done? then Done(NoCall) else NullFunction;
        } else {
          var count := UnwindCallStack(newSp, t.pops);
          return if count.Done? then Done(NoCall) else Tangled;
        }
      }
      var unwind_count := UnwindCallStack(newSp, 0);
      if unwind_count.Tangled? {
        return Tangled;
      }
      if t.kind != CallJump || unwind_count.value > 0 {
        return Done(NoCall);
      }
      Fields();
      r := Done(Pending(if emulated && sp > 0 then entry[sp - 1].sp else newSp, e.bb.fn.skip));
    }

    /** The context of the block. */
    method EnterContext(f: Fn, called: bool) returns (r: Outcome<()>)
      requires Valid() && Value().saved == None && f.id < |Value().active|
      modifies this, entry, fn, active
      ensures Valid() && entry == old(entry) && (fn == old(fn) || fresh(fn))
      ensures var w := InContext(old(Value()), f, called);
              SameKind(r, w) && (r.Done? ==> Value() == w.value)
    {
      hide PushCxt, GetCxt, CallStack.Value, CallStack.Valid;
      Fields();
      r := Done(());
      if called || cxt == None {
        r := PushContext(f);
      }
    }

    /** The recursion level of the block. */
    method FindLevel(counted: bool) returns (idx: nat)
      requires Valid() && Value().fns[|Value().fns| - 1].Of? && Value().fns[|Value().fns| - 1].fn.id < |Value().active|
      modifies active
      ensures Valid() && (Value(), idx) == Levelled(old(Value()), counted)
    {
      hide CallStack.Value;
      Fields();
      var f := fn[top].fn;
      if f.recursions <= 1 {
        return 0;
      }
      var level := ActiveCount(f.id);
      if counted {
        level := Up(level);
      }
      if level > f.recursions {
        level := f.recursions;
      }
      if level == 0 {
        level := 1;
        SetActive(f.id, 1);
      }
      idx := level - 1;
    }

    /** Push the call of the block, if it has one, and go on in it. */
    method PushBlock(bb: Bb, p: Pending, passed: nat, ret: UWord)
      requires Valid() && CanEnter(Value(), p)
      modifies this, entry, active
      ensures Valid() && (entry == old(entry) || fresh(entry)) && fn == old(fn)
      ensures Value() == Pushed(old(Value()), bb, p, passed, ret, skipDirect)
    {
      hide PushCall, PushSkipped, Levelled, CallStack.Value, CallStack.Valid;
      Fields();
      var called := p.Pending? && !p.skip;
      var last, inCxt, skipped := bbcc, cxt.value, nonskipped;
      var level := FindLevel(called && (!skipDirect || FnOf(last.value) != inCxt.fns[0]));
      var next := Bbcc(bb, inCxt, level);
      if p.Pending? {
        if p.skip {
          PushSkippedCall(last.value, p.sp, ret);
        } else {
          var j := if skipped.Some? then Jcc(skipped.value, skipped.value.bb.cjmps, next)
            else Jcc(last.value, passed, next);
          PushCallStack(j, p.sp, ret);
        }
      }
      SetBlock(next);
    }

    /** Enter the context of the block, and push its call. */
    method EnterBlock(e: Arrival, p: Pending, passed: nat, ret: UWord) returns (r: Outcome<()>)
      requires Valid() && Inv(Value()) && ArrivalOk(Value(), e) && PendingOk(Value(), p)
      modifies this, entry, fn, active
      ensures Valid() && (entry == old(entry) || fresh(entry)) && (fn == old(fn) || fresh(fn))
      ensures var v := Entered(old(Value()), e, p, passed, ret, skipDirect);
              SameKind(r, v) && (r.Done? ==> Value() == v.value)
    {
      hide Inv, InContext, Pushed, CallStack.Value, CallStack.Valid, CanEnter, PendingOk;
      ghost var u := Value();
      PopsEntry(u);
      var called := p.Pending? && !p.skip;
      if called { PendingCxt(u, p); }
      InContextEnters(u, e.bb.fn, called);
      r := EnterContext(e.bb.fn, called);
      if r.Done? {
        EnterReady(u, Value(), p);
        PushBlock(e.bb, p, passed, ret);
      }
    }

    /** The code run when a block is entered, as far as it concerns the call stack. */
    method SetupBbcc(e: Arrival, ret: UWord) returns (r: Outcome<()>)
      requires Valid() && Inv(Value()) && ArrivalOk(Value(), e)
      modifies this, entry, fn, active
      ensures Valid() && (entry == old(entry) || fresh(entry)) && (fn == old(fn) || fresh(fn))
      ensures var v := Setup(old(Value()), e, ret, skipDirect);
              SameKind(r, v) && (r.Done? ==> Value() == v.value && Inv(Value()))
    {
      hide Inv, CallStack.Value, CallStack.Valid, Entered, Unwound, Converted, PendingOk, TakenAs, BecomesCall;
      ghost var s := Value();
      var t := TakeJump(e);
      Fields();
      var emulated := BecomesCall(bbcc, e, t);
      EmulatedCall(s, e, t);
      ConvertedGoesOn(s, e, t, skipDirect);
      var c := ConvertJump(e, t);
      if !c.Done? {
        return c.PropagateFailure();
      }
      if emulated {
        t := t.(kind := CallJump);
      }
      var p := UnwindFor(e, t, emulated, c.value.0, ret);
      if !p.Done? {
        return p.PropagateFailure();
      }
      r := EnterBlock(e, p.value, c.value.1, ret);
    }
  }

  lemma JumpSource(s: Shadow)
    requires Inv(s) && s.frames != [] && s.frames[|s.frames| - 1].jcc.Some? && s.bbcc.Some?
    ensures Inv(s.(bbcc := Some(s.frames[|s.frames| - 1].jcc.value.from)))
  {
    hide Inv, FramesOk;
    PopsEntry(s);
    TopCall(s);
    WithBbcc(s, s.frames[|s.frames| - 1].jcc.value.from, 0);
  }

  lemma PendingCxt(u: Shadow, p: Pending)
    requires Inv(u) && PendingOk(u, p) && p.Pending?
    ensures u.cxt.Some?
  {
    hide Inv;
    PopsEntry(u);
  }

  /** A size doubled k times. */
  function Grown(size: nat, k: nat): (p: nat)
    ensures size > 0 ==> p > 0
  {
    if k == 0 then size else 2 * Grown(size, k - 1)
  }

  /** i is size doubled j times, at least once. */
  predicate Doubled(size: nat, j: nat, i: nat) {
    j > 0 && i == Grown(size, j)
  }

  lemma {:induction false} GrownGrows(size: nat, j: nat, k: nat)
    requires j < k && size > 0
    ensures 2 * Grown(size, j) <= Grown(size, k)
    decreases k
  {
    if j < k - 1 { GrownGrows(size, j, k - 1); }
  }

  /** The first doubling that reaches i is the only one that can be i. */
  lemma OnlyDoubled(size: nat, k: nat, i: nat)
    requires size > 0 && k >= 1 && i <= Grown(size, k) && (k > 1 ==> i > Grown(size, k - 1))
    ensures i == Grown(size, k) <==> exists j: nat :: Doubled(size, j, i)
  {
    if i == Grown(size, k) { assert Doubled(size, k, i); }
    forall j: nat | Doubled(size, j, i)
      ensures i == Grown(size, k)
    {
      if j < k - 1 { GrownGrows(size, j, k - 1); }
      if j > k { GrownGrows(size, k, j); }
    }
  }

  lemma NotDoubled(size: nat, i: nat)
    requires i <= size && size > 0
    ensures forall j: nat :: !Doubled(size, j, i)
  {
    forall j: nat | j > 0
      ensures i < Grown(size, j)
    {
      GrownGrows(size, 0, j);
    }
  }

  lemma SameTopIs(fns: seq<Slot>, f: Fn)
    requires fns != []
    ensures SameTop(fns, f) <==> fns[|fns| - 1].Of?
                                 && (fns[|fns| - 1].fn == f || (f.group > 0 && fns[|fns| - 1].fn.group == f.group))
  {
  }
}
