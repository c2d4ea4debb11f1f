/** The shadow call stack as a value: contexts, calls and returns, unwinding by stack pointer,
    and the levels that signal handlers add, as the block-entry code uses them. */
module ShadowStack {

  type UWord = x: int | 0 <= x < 0x1_0000_0000_0000_0000
  type UInt = x: int | 0 <= x < 0x1_0000_0000

  datatype Maybe<T> = None | Some(value: T)

  /** What becomes of a computation of the profiler: a value, or one of the ways it goes wrong.
      An assertion fails, the group of a missing function is looked up, or a call is popped that
      belongs to a level below the one the pop goes on with. */
  datatype Outcome<T> = Done(value: T) | AssertionFails | NullFunction | Tangled {
    /** The same failure where another value was due. */
    function PropagateFailure<U>(): (r: Outcome<U>)
      requires !Done?
      ensures !r.Done?
    {
      match this
      case AssertionFails => AssertionFails
      case NullFunction => NullFunction
      case Tangled => Tangled
    }
  }

  predicate SameKind<T, U>(a: Outcome<T>, b: Outcome<U>) {
    (a.Done? <==> b.Done?) && (a.AssertionFails? <==> b.AssertionFails?) && (a.NullFunction? <==> b.NullFunction?)
  }

  /** A function: its group (0 if none), how many callers and how many recursion levels its
      contexts keep apart, whether entering it toggles collection, and whether calls to it are
      skipped or left by jumps. */
  datatype Fn = Fn(id: nat, group: int, callers: int, recursions: int, toggles: bool, skip: bool, popOnJump: bool)

  /** A block of code: its address and function, whether it begins the function, section and
      object it lies in, and its number of conditional jumps. */
  datatype Bb = Bb(addr: UWord, fn: Fn, isEntry: bool, sect: int, obj: int, cjmps: nat)

  /** An entry of the function stack: a function, or the separator below a signal handler. */
  datatype Slot = Marker | Of(fn: Fn)

  /** A context: the executing function and some of its callers. */
  datatype Cxt = Cxt(fns: seq<Fn>)

  /** A block in a context, at a recursion level. */
  datatype Bbcc = Bbcc(bb: Bb, cxt: Cxt, level: nat)

  datatype Jcc = Jcc(from: Bbcc, jmp: nat, to: Bbcc)

  /** The context a call was made in, and the top of the function stack then. */
  datatype Saved = Saved(cxt: Cxt, fnSp: nat)

  /** A call on the stack; without an arc if the callee is skipped. */
  datatype Frame = Frame(jcc: Maybe<Jcc>, sp: UWord, retAddr: UWord, nonskipped: Maybe<Bbcc>, saved: Maybe<Saved>)

  /** An execution state: context, collection, conditional jumps passed, last block, skipping,
      the signal handled (0 for none), and the height of the call stack it began at. */
  datatype Exec = Exec(cxt: Maybe<Cxt>, collect: bool, jmps: nat, bbcc: Maybe<Bbcc>, nonskipped: Maybe<Bbcc>,
          sig: int, bottom: nat)

  /** Active calls, the context saved for the next one, functions from the bottom, activation
      counts of functions, the parts of the current execution state, and the interrupted ones
      from the outermost. */
  datatype Shadow = Shadow(frames: seq<Frame>, saved: Maybe<Saved>, fns: seq<Slot>, active: seq<UInt>,
                           cxt: Maybe<Cxt>, collect: bool, jmps: nat, bbcc: Maybe<Bbcc>, nonskipped: Maybe<Bbcc>,
                           sig: int, bottom: nat, below: seq<Exec>)

  /** The current execution state, as it is put aside when a signal interrupts it. */
  function TopExec(s: Shadow): Exec {
    Exec(s.cxt, s.collect, s.jmps, s.bbcc, s.nonskipped, s.sig, s.bottom)
  }

  function Up(c: UInt): UInt {
    (c + 1) % 0x1_0000_0000
  }

  function Down(c: UInt): UInt {
    (c - 1) % 0x1_0000_0000
  }

  // ---------------------------------------------------------------- contexts

  /** The functions from the top down to the next separator, at most size of them. */
  function TopFns(fns: seq<Slot>, size: nat): (c: seq<Fn>)
    ensures size > 0 && fns != [] && fns[|fns| - 1].Of? ==> c != [] && c[0] == fns[|fns| - 1].fn
  {
    if size == 0 || fns == [] || fns[|fns| - 1].Marker? then []
    else [fns[|fns| - 1].fn] + TopFns(fns[..|fns| - 1], size - 1)
  }

  /** How many functions a context takes; the sum is an unsigned 32-bit word, so of the negative
      numbers of callers only -1 gives one that is not positive. */
  function CxtSize(fn: Fn): (n: nat)
    ensures n > 0
  {
    var size := (fn.callers + 1) % 0x1_0000_0000;
    if size <= 0 then 1 - size else size
  }

  /** The context of a function stack: none on top of a separator. */
  function GetCxt(fns: seq<Slot>): (c: Maybe<Cxt>)
    requires fns != []
    ensures c.Some? <==> fns[|fns| - 1].Of?
    ensures c.Some? ==> c.value.fns != [] && c.value.fns[0] == fns[|fns| - 1].fn
  {
    var top := fns[|fns| - 1];
    if top.Marker? then None else Some(Cxt(TopFns(fns, CxtSize(top.fn))))
  }

  lemma {:induction false} TopFnsAre(fns: seq<Slot>, size: nat, d: nat)
    requires d <= |fns| && (forall i :: |fns| - d <= i < |fns| ==> fns[i].Of?)
    requires d == |fns| || fns[|fns| - 1 - d].Marker?
    ensures var c := TopFns(fns, size);
            && |c| == (if size < d then size else d)
            && forall i :: 0 <= i < |c| ==> c[i] == fns[|fns| - 1 - i].fn
  {
    if size > 0 && d > 0 { TopFnsAre(fns[..|fns| - 1], size - 1, d - 1); }
  }

  /** A context holds the functions above the last separator, from the top down: as many as there
      are, but the top function and at most its wanted number of callers.  That number is a 32-bit
      word; -1 is taken for 0, and other negative ones for their value modulo 2^32. */
  lemma ContextHolds(fns: seq<Slot>, d: nat)
    requires 0 < d <= |fns| && (forall i :: |fns| - d <= i < |fns| ==> fns[i].Of?)
    requires d == |fns| || fns[|fns| - 1 - d].Marker?
    requires -0x8000_0000 <= fns[|fns| - 1].fn.callers < 0x8000_0000
    ensures GetCxt(fns).Some?
    ensures var (c, callers) := (GetCxt(fns).value.fns, fns[|fns| - 1].fn.callers);
            && (callers >= 0 ==> |c| == if callers + 1 < d then callers + 1 else d)
            && (callers == -1 ==> |c| == 1)
            && (callers < -1 ==> |c| == if callers + 1 + 4294967296 < d then callers + 1 + 4294967296 else d)
            && forall i :: 0 <= i < |c| ==> c[i] == fns[|fns| - 1 - i].fn
  {
    var fn := fns[|fns| - 1].fn;
    TopFnsAre(fns, CxtSize(fn), d);
  }

  /** Entering a function does not open a new context if it is, or is grouped with, the top. */
  predicate SameTop(fns: seq<Slot>, fn: Fn)
    requires fns != []
  {
    var top := fns[|fns| - 1];
    top.Of? && (top.fn == fn || (fn.group > 0 && top.fn.group == fn.group))
  }

  /** What is saved on entering a function; nothing if there is no context yet. */
  function SavedFrom(s: Shadow): Maybe<Saved>
    requires s.fns != []
  {
    if s.cxt.Some? then Some(Saved(s.cxt.value, |s.fns| - 1)) else None
  }

  /** Change the context by entering a function, the top of the function stack being known; the
      old context is saved for the coming call. */
  function PushCxt(s: Shadow, fn: Fn): (t: Shadow)
    requires s.saved == None && s.fns != [] && fn.id < |s.active|
    ensures t.frames == s.frames && t.saved == SavedFrom(s) && |t.active| == |s.active|
    ensures t.nonskipped == s.nonskipped && t.bbcc == s.bbcc && t.collect == s.collect && t.jmps == s.jmps
    ensures t.sig == s.sig && t.bottom == s.bottom && t.below == s.below
    ensures s.fns <= t.fns && |t.fns| <= |s.fns| + 1 && (s.fns[|s.fns| - 1].Marker? ==> t.cxt.Some?)
            && (s.cxt.Some? ==> t.cxt.Some?)
    ensures t.fns[|t.fns| - 1].Of?
    ensures SameTop(s.fns, fn) ==> t.fns == s.fns && t.cxt == s.cxt
    ensures !SameTop(s.fns, fn) ==> t.fns == s.fns + [Of(fn)] && t.cxt == GetCxt(t.fns)
  {
    var s1 := s.(saved := SavedFrom(s));
    if SameTop(s.fns, fn) then s1 else
    var first := s.fns[|s.fns| - 1].Marker?;
    var fns := s.fns + [Of(fn)];
    s1.(active := if first then s.active[fn.id := Up(s.active[fn.id])] else s.active, fns := fns, cxt := GetCxt(fns))
  }

  /** Entering a function of a group looks up the group of the top, which a separator has not. */
  function EnterFn(s: Shadow, fn: Fn): (r: Outcome<Shadow>)
    requires s.saved == None && s.fns != [] && fn.id < |s.active|
    ensures r == NullFunction || r == Done(PushCxt(s, fn))
    ensures r == NullFunction <==> fn.group > 0 && s.fns[|s.fns| - 1].Marker?
  {
    if fn.group > 0 && s.fns[|s.fns| - 1].Marker? then NullFunction else Done(PushCxt(s, fn))
  }

  // ------------------------------------------------------------------- calls

  function FnOf(b: Bbcc): Fn
    requires b.cxt.fns != []
  {
    b.cxt.fns[0]
  }

  ghost predicate ArcOk(j: Jcc, n: nat) {
    j.from.cxt.fns != [] && j.to.cxt.fns != [] && FnOf(j.to).id < n
  }

  /** Direct recursion may be set not to count. */
  predicate Counts(j: Jcc, skipDirect: bool)
    requires j.from.cxt.fns != [] && j.to.cxt.fns != []
  {
    !skipDirect || FnOf(j.from) != FnOf(j.to)
  }

  /** Push a call that is not skipped; the context must have been saved. */
  function PushCall(s: Shadow, j: Jcc, sp: UWord, ret: UWord, skipDirect: bool): (t: Shadow)
    requires ArcOk(j, |s.active|) && s.saved.Some?
    requires s.nonskipped.Some? ==> s.nonskipped.value == j.from
    ensures |t.active| == |s.active| && t.saved == None
            && t.frames == s.frames + [Frame(Some(j), sp, ret, s.nonskipped, s.saved)]
    ensures t.fns == s.fns && t.cxt == s.cxt && t.bbcc == s.bbcc && t.nonskipped == None && t.jmps == s.jmps
    ensures t.sig == s.sig && t.bottom == s.bottom && t.below == s.below
  {
    var fn := FnOf(j.to);
    var active := if Counts(j, skipDirect) then s.active[fn.id := Up(s.active[fn.id])] else s.active;
    s.(frames := s.frames + [Frame(Some(j), sp, ret, s.nonskipped, s.saved)], saved := None, nonskipped := None,
       active := active, collect := if active[fn.id] == 1 && fn.toggles then !s.collect else s.collect)
  }

  /** Push a call to a skipped function. */
  function PushSkipped(s: Shadow, from: Bbcc, sp: UWord, ret: UWord): (t: Shadow)
    ensures |t.active| == |s.active| && t.saved == None
            && t.frames == s.frames + [Frame(None, sp, ret, s.nonskipped, s.saved)]
    ensures t.fns == s.fns && t.cxt == s.cxt && t.bbcc == s.bbcc && t.nonskipped.Some? && t.jmps == s.jmps
    ensures t.sig == s.sig && t.bottom == s.bottom && t.below == s.below
  {
    s.(frames := s.frames + [Frame(None, sp, ret, s.nonskipped, s.saved)], saved := None,
       nonskipped := if s.nonskipped.None? then Some(from) else s.nonskipped)
  }

  /** A frame can be popped: its arc and the function stack it saved are still there. */
  ghost predicate FrameOk(f: Frame, fns: seq<Slot>, n: nat) {
    f.jcc.Some? ==> ArcOk(f.jcc.value, n) && f.saved.Some? && f.saved.value.fnSp < |fns|
  }

  /** Pop the innermost call, which belongs to the current level. */
  function PopEntry(s: Shadow, skipDirect: bool): (t: Shadow)
    requires s.frames != [] && FrameOk(s.frames[|s.frames| - 1], s.fns, |s.active|)
    ensures t.frames == s.frames[..|s.frames| - 1] && t.saved == None && |t.active| == |s.active| && t.bbcc == s.bbcc
    ensures t.nonskipped == s.frames[|s.frames| - 1].nonskipped && t.jmps == s.jmps
    ensures t.sig == s.sig && t.bottom == s.bottom && t.below == s.below
    ensures var f := s.frames[|s.frames| - 1];
            if f.jcc.Some? then t.cxt == Some(f.saved.value.cxt) && t.fns == s.fns[..f.saved.value.fnSp + 1]
              else t.cxt == s.cxt && t.fns == s.fns
  {
    var f := s.frames[|s.frames| - 1];
    var s1 := s.(frames := s.frames[..|s.frames| - 1], saved := None, nonskipped := f.nonskipped);
    if f.jcc.None? then s1 else
    var j := f.jcc.value;
    var fn := FnOf(j.to);
    var active := if Counts(j, skipDirect) then s.active[fn.id := Down(s.active[fn.id])] else s.active;
    s1.(cxt := Some(f.saved.value.cxt), fns := s.fns[..f.saved.value.fnSp + 1], active := active,
        collect := if active[fn.id] == 0 && fn.toggles then !s.collect else s.collect)
  }

  // --------------------------------------------------------- balanced sequences

  /** Properly nested calls and returns. */
  datatype Word = Nothing | Calls(fn: Fn, j: Jcc, sp: UWord, ret: UWord, inner: Word, after: Word)

  /** What the code asserts before a call that is not skipped. */
  predicate CallOk(s: Shadow, fn: Fn, j: Jcc) {
    && s.fns != [] && s.saved == None && s.cxt.Some? && fn.id < |s.active|
    && (fn.group > 0 ==> s.fns[|s.fns| - 1].Of?)
    && j.from.cxt.fns != [] && j.to.cxt.fns != [] && FnOf(j.to).id < |s.active|
    && (s.nonskipped.Some? ==> s.nonskipped.value == j.from)
  }

  /** A call: the context changes, then the call is pushed. */
  function Call(s: Shadow, fn: Fn, j: Jcc, sp: UWord, ret: UWord, skipDirect: bool): (t: Shadow)
    requires CallOk(s, fn, j)
    ensures t.fns != [] && |t.active| == |s.active|
  {
    PushCall(PushCxt(s, fn), j, sp, ret, skipDirect)
  }

  /** The innermost call belongs to the current level, and can be popped. */
  predicate CanPop(s: Shadow) {
    && s.bottom < |s.frames|
    && var f := s.frames[|s.frames| - 1];
       f.jcc.Some? ==> f.jcc.value.from.cxt.fns != [] && f.jcc.value.to.cxt.fns != []
                       && FnOf(f.jcc.value.to).id < |s.active| && f.saved.Some? && f.saved.value.fnSp < |s.fns|
  }

  /** Equal but for whether costs are collected. */
  predicate Alike(s: Shadow, t: Shadow) {
    t == s.(collect := t.collect)
  }

  lemma AlikeSelf(s: Shadow)
    ensures Alike(s, s)
  {
  }

  lemma AlikeShape(s: Shadow, t: Shadow)
    requires Alike(s, t)
    ensures t.fns == s.fns && t.frames == s.frames && t.bottom == s.bottom
  {
  }

  lemma AlikeTwice(s: Shadow, t: Shadow, u: Shadow)
    requires Alike(s, t) && Alike(t, u)
    ensures Alike(s, u)
  {
  }

  lemma UpDown(c: UInt)
    ensures Down(Up(c)) == c && (Up(c) == 1 <==> c == 0)
  {
  }

  /** A call and its return flip collection: the callee toggles it, the call does not count,
      and the callee is active at most once. */
  predicate Flips(s: Shadow, j: Jcc, skipDirect: bool)
    requires j.from.cxt.fns != [] && j.to.cxt.fns != [] && FnOf(j.to).id < |s.active|
  {
    FnOf(j.to).toggles && !Counts(j, skipDirect) && s.active[FnOf(j.to).id] <= 1
  }

  /** What a call leaves, on top of a function. */
  lemma CallLeaves(s: Shadow, fn: Fn, j: Jcc, sp: UWord, ret: UWord, skipDirect: bool)
    requires CallOk(s, fn, j) && s.fns[|s.fns| - 1].Of?
    ensures var (t, id) := (Call(s, fn, j, sp, ret, skipDirect), FnOf(j.to).id);
            && t == s.(frames := s.frames
              + [Frame(Some(j), sp, ret, s.nonskipped, Some(Saved(s.cxt.value, |s.fns| - 1)))],
                       nonskipped := None, active := t.active, collect := t.collect, fns := t.fns, cxt := t.cxt)
            && s.fns <= t.fns
              && t.active == (if Counts(j, skipDirect) then s.active[id := Up(s.active[id])] else s.active)
            && t.collect == (if t.active[id] == 1 && FnOf(j.to).toggles then !s.collect else s.collect)
  {
    hide Up, GetCxt, SameTop;
  }

  /** A call, anything alike to what it left, and the return. */
  lemma PairRestores(s: Shadow, m: Shadow, fn: Fn, j: Jcc, sp: UWord, ret: UWord, skipDirect: bool)
    requires CallOk(s, fn, j) && s.fns[|s.fns| - 1].Of? && s.bottom <= |s.frames|
    requires Alike(Call(s, fn, j, sp, ret, skipDirect), m)
    ensures CanPop(m) && m.frames != [] && FrameOk(m.frames[|m.frames| - 1], m.fns, |m.active|)
            && Alike(s, PopEntry(m, skipDirect))
    ensures var flipped := m.collect != Call(s, fn, j, sp, ret, skipDirect).collect;
            (PopEntry(m, skipDirect).collect != s.collect) == (flipped != Flips(s, j, skipDirect))
  {
    hide Up, Down, Call;
    CallLeaves(s, fn, j, sp, ret, skipDirect);
    var id := FnOf(j.to).id;
    assert m.fns[..|s.fns|] == s.fns && m.frames[..|s.frames|] == s.frames;
    UpDown(s.active[id]);
    assert s.active[id := Up(s.active[id])][id := s.active[id]] == s.active;
  }

  /** Running a nested sequence: the state reached, and how many calls in it flip collection; no
      value where an assertion of the code would fail. */
  function RunWord(w: Word, s: Shadow, skipDirect: bool): (r: Maybe<(Shadow, nat)>)
    requires s.fns != []
    ensures r.Some? ==> r.value.0.fns != []
    decreases w
  {
    match w
    case Nothing => Some((s, 0))
    case Calls(fn, j, sp, ret, inner, after) =>
      if !CallOk(s, fn, j) then None else
      var m := RunWord(inner, Call(s, fn, j, sp, ret, skipDirect), skipDirect);
      if m.None? || !CanPop(m.value.0) then None else
      var r := RunWord(after, PopEntry(m.value.0, skipDirect), skipDirect);
      if r.None? then None else
      Some((r.value.0, (if Flips(s, j, skipDirect) then 1 else 0) + m.value.1 + r.value.1))
  }

  lemma Parity(x: bool, a: nat, b: nat)
    ensures ((if x then 1 else 0) + a + b) % 2 == 0 <==> ((x != (a % 2 != 0)) == (b % 2 != 0))
  {
  }

  lemma RunNothing(s: Shadow, skipDirect: bool)
    requires s.fns != []
    ensures RunWord(Nothing, s, skipDirect) == Some((s, 0))
  {
  }

  lemma RunCalls(w: Word, s: Shadow, skipDirect: bool)
    requires s.fns != [] && w.Calls?
    ensures RunWord(w, s, skipDirect).Some? ==>
              && CallOk(s, w.fn, w.j)
              && var m := RunWord(w.inner, Call(s, w.fn, w.j, w.sp, w.ret, skipDirect), skipDirect);
                 && m.Some? && CanPop(m.value.0)
                 && var r := RunWord(w.after, PopEntry(m.value.0, skipDirect), skipDirect);
                    && r.Some? && RunWord(w, s, skipDirect).value.0 == r.value.0
                    && RunWord(w, s, skipDirect).value.1
                       == (if Flips(s, w.j, skipDirect) then 1 else 0) + m.value.1 + r.value.1
  {
  }

  /** A nested sequence restores calls, context, function stack, skipping and counts; and it
      restores collection exactly if the number of calls that flip it is even. */
  lemma {:induction false} WordRestores(w: Word, s: Shadow, skipDirect: bool)
    requires s.fns != [] && s.fns[|s.fns| - 1].Of? && s.bottom <= |s.frames|
    ensures var r := RunWord(w, s, skipDirect);
            r.Some? ==> Alike(s, r.value.0) && (r.value.0.collect == s.collect <==> r.value.1 % 2 == 0)
    decreases w
  {
    hide Call, PopEntry, CallOk, CanPop, Flips, FrameOk, Alike, RunWord;
    if w.Nothing? {
      RunNothing(s, skipDirect);
      AlikeSelf(s);
    } else if RunWord(w, s, skipDirect).Some? {
      RunCalls(w, s, skipDirect);
      var t := Call(s, w.fn, w.j, w.sp, w.ret, skipDirect);
      CallTop(s, w.fn, w.j, w.sp, w.ret, skipDirect);
      WordRestores(w.inner, t, skipDirect);
      var m := RunWord(w.inner, t, skipDirect).value;
      PairRestores(s, m.0, w.fn, w.j, w.sp, w.ret, skipDirect);
      var u := PopEntry(m.0, skipDirect);
      AlikeShape(s, u);
      WordRestores(w.after, u, skipDirect);
      var r := RunWord(w.after, u, skipDirect).value;
      AlikeTwice(s, u, r.0);
      Parity(Flips(s, w.j, skipDirect), m.1, r.1);
    }
  }

  lemma CallTop(s: Shadow, fn: Fn, j: Jcc, sp: UWord, ret: UWord, skipDirect: bool)
    requires CallOk(s, fn, j) && s.fns[|s.fns| - 1].Of? && s.bottom <= |s.frames|
    ensures var t := Call(s, fn, j, sp, ret, skipDirect); t.fns != [] && t.fns[|t.fns| - 1].Of?
                                                          && t.bottom <= |t.frames|
    ensures FnOf(j.to).id < |s.active| && j.from.cxt.fns != [] && j.to.cxt.fns != []
  {
  }

  /** When every call counts, none flips collection. */
  lemma {:induction false} NothingFlips(w: Word, s: Shadow)
    requires s.fns != []
    ensures RunWord(w, s, false).Some? ==> RunWord(w, s, false).value.1 == 0
    decreases w
  {
    hide Call, PopEntry;
    match w
    case Nothing =>
    case Calls(fn, j, sp, ret, inner, after) =>
      if CallOk(s, fn, j) {
        var t := Call(s, fn, j, sp, ret, false);
        NothingFlips(inner, t);
        var m := RunWord(inner, t, false);
        if m.Some? && CanPop(m.value.0) { NothingFlips(after, PopEntry(m.value.0, false)); }
      }
  }

  /** With direct recursion not counted, a function that toggles collection and calls itself
      returns with collection flipped. */
  lemma RecursionFlips() returns (s: Shadow, w: Word)
    ensures s.fns != [] && s.collect && RunWord(w, s, true) == Some((s.(collect := false), 1))
  {
    var f := Fn(0, 0, 0, 1, true, false, false);
    var b := Bbcc(Bb(0, f, true, 0, 0, 0), Cxt([f]), 0);
    s := Shadow([], None, [Marker, Of(f)], [1], Some(Cxt([f])), true, 0, Some(b), None, 0, 0, []);
    w := Calls(f, Jcc(b, 0, b), 0, 0, Nothing, Nothing);
    FlipOnce(s, f, Jcc(b, 0, b));
  }

  lemma FlipOnce(s: Shadow, f: Fn, j: Jcc)
    requires s.fns != [] && CallOk(s, f, j) && s.fns[|s.fns| - 1].Of? && s.bottom <= |s.frames| && Flips(s, j, true)
    ensures RunWord(Calls(f, j, 0, 0, Nothing, Nothing), s, true) == Some((s.(collect := !s.collect), 1))
  {
    hide Call, PopEntry, CallOk, CanPop, Flips, FrameOk;
    var t := Call(s, f, j, 0, 0, true);
    PairRestores(s, t, f, j, 0, 0, true);
    AlikeShape(s, PopEntry(t, true));
    assert RunWord(Nothing, t, true) == Some((t, 0));
    assert RunWord(Nothing, PopEntry(t, true), true) == Some((PopEntry(t, true), 0));
  }

  // ------------------------------------------------------------------ levels

  /** Recorded stack pointers do not increase from the outermost call inward. */
  ghost predicate Descending(frames: seq<Frame>) {
    forall i, j :: 0 <= i < j < |frames| ==> frames[i].sp >= frames[j].sp
  }

  ghost predicate CxtOk(c: Maybe<Cxt>, n: nat) {
    c.Some? ==> c.value.fns != [] && c.value.fns[0].id < n
  }

  predicate BbccOk(b: Maybe<Bbcc>, n: nat) {
    b.Some? ==> b.value.cxt.fns != [] && b.value.cxt.fns[0].id < n
  }

  /** Where the functions of the current level begin: above the last separator. */
  function Base(fns: seq<Slot>): (b: nat)
    requires fns != [] && fns[0] == Marker
    ensures 0 < b <= |fns| && fns[b - 1] == Marker && forall i :: b <= i < |fns| ==> fns[i].Of?
    decreases |fns|
  {
    if fns[|fns| - 1] == Marker then |fns| else Base(fns[..|fns| - 1])
  }

  lemma BaseIs(fns: seq<Slot>, b: nat)
    requires 0 < b <= |fns| && fns[0] == Marker && fns[b - 1] == Marker && forall i :: b <= i < |fns| ==> fns[i].Of?
    ensures Base(fns) == b
  {
  }

  /** The calls can be popped one after the other from a function stack with that top; the
      outermost one with an arc saved a function stack that ends at base. */
  ghost predicate FramesOk(frames: seq<Frame>, base: nat, top: nat, n: nat) {
    if frames == [] then top <= base else
    var f := frames[|frames| - 1];
    && BbccOk(f.nonskipped, n) && (f.saved.Some? ==> CxtOk(Some(f.saved.value.cxt), n))
    && if f.jcc.None? then FramesOk(frames[..|frames| - 1], base, top, n) else
       && ArcOk(f.jcc.value, n) && BbccOk(Some(f.jcc.value.from), n) && f.saved.Some?
         && base <= f.saved.value.fnSp <= top
       && FramesOk(frames[..|frames| - 1], base, f.saved.value.fnSp, n)
  }

  ghost predicate FnsOk(fns: seq<Slot>, base: nat, n: nat) {
    && 0 < base <= |fns| && fns[0] == Marker && fns[base - 1] == Marker
    && forall i :: base <= i < |fns| ==> fns[i].Of? && fns[i].fn.id < n
  }

  /** What holds of the current level whenever a block is entered. */
  ghost predicate LevelOk(s: Shadow, base: nat) {
    var n := |s.active|;
    && s.saved == None && FnsOk(s.fns, base, n)
    && s.bottom <= |s.frames| && FramesOk(s.frames[s.bottom..], base, |s.fns| - 1, n)
      && Descending(s.frames[s.bottom..])
    && CxtOk(s.cxt, n) && BbccOk(s.nonskipped, n) && BbccOk(s.bbcc, n)
    && (s.cxt.Some? <==> |s.fns| > base) && (s.bbcc.Some? ==> s.cxt.Some?) && (|s.frames| > s.bottom ==> s.bbcc.Some?)
  }

  /** The level a handler interrupts, as it goes on once the handler is left. */
  function Interrupted(s: Shadow): (t: Shadow)
    requires s.below != [] && s.bottom <= |s.frames| && s.fns != [] && s.fns[0] == Marker
    ensures |t.below| == |s.below| - 1 && t.active == s.active
  {
    var m := |s.below| - 1;
    var x := s.below[m];
    Shadow(s.frames[..s.bottom], None, s.fns[..Base(s.fns) - 1], s.active, x.cxt, x.collect, x.jmps, x.bbcc,
      x.nonskipped,
           x.sig, x.bottom, s.below[..m])
  }

  /** What holds of all levels whenever a block is entered. */
  ghost predicate Inv(s: Shadow)
    decreases |s.below|
  {
    && s.fns != [] && s.fns[0] == Marker && LevelOk(s, Base(s.fns))
    && if s.below == [] then s.sig == 0 && s.bottom == 0 && Base(s.fns) == 1
       else s.sig > 0 && Base(s.fns) > 1 && Inv(Interrupted(s))
  }

  /** The levels below the current one are the same, but for activation counts. */
  ghost predicate SameBelow(s: Shadow, t: Shadow) {
    && t.below == s.below && t.sig == s.sig && t.bottom == s.bottom && |t.active| == |s.active|
    && s.bottom <= |s.frames| && s.bottom <= |t.frames| && t.frames[..s.bottom] == s.frames[..s.bottom]
    && s.fns != [] && s.fns[0] == Marker && t.fns != [] && t.fns[0] == Marker
    && Base(t.fns) == Base(s.fns) && t.fns[..Base(s.fns)] == s.fns[..Base(s.fns)]
  }

  lemma InterruptedSame(s: Shadow, t: Shadow)
    requires SameBelow(s, t) && s.below != []
    ensures Interrupted(t) == Interrupted(s).(active := t.active)
  {
    var b := Base(s.fns);
    assert t.fns[..b][..b - 1] == t.fns[..b - 1] && s.fns[..b][..b - 1] == s.fns[..b - 1];
  }

  lemma {:induction false} InvActive(s: Shadow, a: seq<UInt>)
    requires Inv(s) && |a| == |s.active|
    ensures Inv(s.(active := a))
    decreases |s.below|
  {
    hide FramesOk, Descending, Base, FnsOk;
    if s.below != [] {
      InvActive(Interrupted(s), a);
      assert Interrupted(s.(active := a)) == Interrupted(s).(active := a);
    }
  }

  /** An operation of the current level that leaves it in order leaves all levels so. */
  lemma KeepsInv(s: Shadow, t: Shadow)
    requires Inv(s) && SameBelow(s, t) && LevelOk(t, Base(t.fns))
    ensures Inv(t)
  {
    hide LevelOk, Base;
    if s.below != [] {
      InterruptedSame(s, t);
      InvActive(Interrupted(s), t.active);
    }
  }

  lemma SameBelowSelf(s: Shadow)
    requires Inv(s)
    ensures SameBelow(s, s)
  {
    hide FramesOk, Descending, FnsOk;
  }

  lemma SameBelowTwice(s: Shadow, t: Shadow, u: Shadow)
    requires SameBelow(s, t) && SameBelow(t, u)
    ensures SameBelow(s, u)
  {
    hide Base;
  }

  // ------------------------------------------------------------------- pops

  lemma LastCall(frames: seq<Frame>, bottom: nat, base: nat, top: nat, n: nat)
    requires bottom < |frames| && FramesOk(frames[bottom..], base, top, n)
    ensures var f := frames[|frames| - 1];
            && BbccOk(f.nonskipped, n)
            && (f.jcc.Some? ==> && ArcOk(f.jcc.value, n) && BbccOk(Some(f.jcc.value.from), n) && f.saved.Some?
                                && base <= f.saved.value.fnSp <= top && CxtOk(Some(f.saved.value.cxt), n))
            && FramesOk(frames[..|frames| - 1][bottom..], base, if f.jcc.Some? then f.saved.value.fnSp else top, n)
  {
    var s := frames[bottom..];
    assert s[|s| - 1] == frames[|frames| - 1];
    assert s[..|s| - 1] == frames[..|frames| - 1][bottom..];
  }

  lemma DescendingPart(frames: seq<Frame>, bottom: nat)
    requires bottom < |frames| && Descending(frames[bottom..])
    ensures Descending(frames[..|frames| - 1][bottom..])
  {
    var m := |frames| - 1;
    assert frames[..m][bottom..] == frames[bottom..][..m - bottom];
  }

  lemma PopLevel(s: Shadow, base: nat, skipDirect: bool)
    requires LevelOk(s, base) && s.bottom < |s.frames|
    ensures s.frames != [] && FrameOk(s.frames[|s.frames| - 1], s.fns, |s.active|)
    ensures var t := PopEntry(s, skipDirect);
            && LevelOk(t, base) && base <= |t.fns| && t.fns[..base] == s.fns[..base]
              && t.frames[..s.bottom] == s.frames[..s.bottom]
            && (s.cxt.Some? ==> t.cxt.Some?)
  {
    hide FramesOk, Descending;
    LastCall(s.frames, s.bottom, base, |s.fns| - 1, |s.active|);
    DescendingPart(s.frames, s.bottom);
  }

  /** Whatever keeps to its level keeps the levels below. */
  lemma LevelKeepsInv(s: Shadow, t: Shadow)
    requires Inv(s) && LevelOk(t, Base(s.fns))
    requires t.below == s.below && t.sig == s.sig && t.bottom == s.bottom && |t.active| == |s.active|
    requires s.bottom <= |s.frames| && t.frames[..s.bottom] == s.frames[..s.bottom]
    requires Base(s.fns) <= |t.fns| && t.fns[..Base(s.fns)] == s.fns[..Base(s.fns)]
    ensures Inv(t) && SameBelow(s, t)
  {
    hide FramesOk, Descending, Inv;
    InvShape(s);
    BaseIs(t.fns, Base(s.fns));
    KeepsInv(s, t);
  }

  lemma InvShape(s: Shadow)
    requires Inv(s)
    ensures s.fns != [] && s.fns[0] == Marker && LevelOk(s, Base(s.fns)) && s.bottom <= |s.frames| && s.saved == None
    ensures if s.below == [] then s.sig == 0 && s.bottom == 0 && Base(s.fns) == 1
            else s.sig > 0 && Base(s.fns) > 1 && Inv(Interrupted(s))
  {
    hide FramesOk, Descending, FnsOk;
  }

  lemma PopEntryKeeps(s: Shadow, skipDirect: bool)
    requires Inv(s) && s.bottom < |s.frames|
    ensures s.frames != [] && FrameOk(s.frames[|s.frames| - 1], s.fns, |s.active|)
    ensures Inv(PopEntry(s, skipDirect)) && SameBelow(s, PopEntry(s, skipDirect))
            && (s.cxt.Some? ==> PopEntry(s, skipDirect).cxt.Some?)
  {
    hide Inv, LevelOk, FrameOk, Base, SameBelow;
    InvShape(s);
    PopLevel(s, Base(s.fns), skipDirect);
    LevelKeepsInv(s, PopEntry(s, skipDirect));
  }

  /** Take the handler's function, if any, and the separator off the function stack. */
  function WithoutMarker(fns: seq<Slot>): seq<Slot>
    requires fns != []
  {
    if |fns| == 1 then fns else
    var f := if fns[|fns| - 1].Of? then fns[..|fns| - 1] else fns;
    if |f| > 1 then f[..|f| - 1] else f
  }

  /** At most one function is left above the separator, which is what the code asserts; taking
      both off gives the function stack the handler found. */
  lemma PostFns(fns: seq<Slot>, base: nat)
    requires 1 < base <= |fns| <= base + 1 && fns[0] == Marker && fns[base - 1] == Marker
    requires forall i :: base <= i < |fns| ==> fns[i].Of?
    ensures WithoutMarker(fns) == fns[..base - 1]
    ensures fns[|fns| - 1].Of? ==> fns[|fns| - 2] == Marker
  {
  }

  /** A handler ends with its calls gone: its function is left, and the interrupted state goes on. */
  function PostSignal(s: Shadow): (t: Shadow)
    requires Inv(s) && s.below != [] && |s.frames| == s.bottom
    ensures t == Interrupted(s).(active := t.active) && |t.active| == |s.active| && Inv(t) && t.frames == s.frames
    ensures s.fns != [] && (s.fns[|s.fns| - 1].Of? ==> |s.fns| > 1 && s.fns[|s.fns| - 2] == Marker)
    ensures s.cxt.Some? ==> s.cxt.value.fns != [] && s.cxt.value.fns[0].id < |s.active|
  {
    var active := if s.cxt.Some? then
                    assert CxtOk(s.cxt, |s.active|);
                    var id := s.cxt.value.fns[0].id;
                    s.active[id := Down(s.active[id])]
                  else s.active;
    var m := |s.below| - 1;
    var x := s.below[m];
    assert s.frames[s.bottom..] == [] && s.frames[..s.bottom] == s.frames;
    PostFns(s.fns, Base(s.fns));
    InvActive(Interrupted(s), active);
    Shadow(s.frames, s.saved, WithoutMarker(s.fns), active, x.cxt, x.collect, x.jmps, x.bbcc, x.nonskipped, x.sig,
      x.bottom, s.below[..m])
  }

  /** All calls of the current handler are gone. */
  predicate AtBottom(s: Shadow) {
    s.sig > 0 && |s.frames| == s.bottom
  }

  /** Pop the innermost call.  With no call of the current handler left, the handler ends first,
      and the call is one of the level it interrupted, unless that is a handler without calls. */
  function Pop(s: Shadow, skipDirect: bool): (r: Outcome<Shadow>)
    requires Inv(s) && s.frames != []
    ensures r.Done? || r.Tangled?
    ensures r.Done? ==> Inv(r.value) && r.value.frames == s.frames[..|s.frames| - 1] && |r.value.active| == |s.active|
  {
    hide Inv, LevelOk;
    PopsEntry(s);
    if AtBottom(s) then
      var u := PostSignal(s);
      PopsEntry(u);
      if AtBottom(u) then Tangled else
      PopEntryKeeps(u, skipDirect);
      Done(PopEntry(u, skipDirect))
    else
      PopEntryKeeps(s, skipDirect);
      Done(PopEntry(s, skipDirect))
  }

  lemma PopsEntry(s: Shadow)
    requires Inv(s)
    ensures s.bottom <= |s.frames| && (s.sig > 0 <==> s.below != [])
    ensures s.frames != [] && !AtBottom(s) ==> s.bottom < |s.frames|
    ensures s.bottom < |s.frames| ==> s.bbcc.Some?
    ensures s.bbcc.Some? ==> s.cxt.Some?
    ensures BbccOk(s.bbcc, |s.active|) && BbccOk(s.nonskipped, |s.active|) && s.saved == None
    ensures s.fns != [] && s.fns[0] == Marker && (s.cxt.Some? <==> s.fns[|s.fns| - 1].Of?)
  {
    hide FramesOk, Descending;
    InvShape(s);
  }

  /** A call of the current level is popped and the levels below stay; or the handler ends. */
  lemma PopLevels(s: Shadow, skipDirect: bool)
    requires Inv(s) && s.frames != []
    ensures var (r, m) := (Pop(s, skipDirect), |s.below| - 1);
            if !AtBottom(s) then r.Done? && SameBelow(s, r.value) && r.value.bbcc == s.bbcc
                 && r.value.below == s.below && r.value.sig == s.sig && r.value.bottom == s.bottom
            else s.below != [] && (r.Tangled? <==> s.below[m].sig > 0 && s.below[m].bottom == s.bottom)
                 && (r.Done? ==> r.value.below == s.below[..m] && r.value.sig == s.below[m].sig
                                 && r.value.bottom == s.below[m].bottom)
    ensures Pop(s, skipDirect).Done? && (s.bbcc.Some? || AtBottom(s)) ==>
            Pop(s, skipDirect).value.bbcc.Some? && Pop(s, skipDirect).value.cxt.Some?
  {
    hide Inv, LevelOk, SameBelow, FrameOk;
    PopsEntry(s);
    if AtBottom(s) {
      var u := PostSignal(s);
      PopsEntry(u);
      if !AtBottom(u) { PopEntryKeeps(u, skipDirect); }
    } else {
      PopEntryKeeps(s, skipDirect);
    }
  }

  // --------------------------------------------------------------- unwinding

  /** Pop calls below the stack pointer, and calls at it as long as minpops lasts. */
  function Unwind(s: Shadow, sp: UWord, minpops: int, skipDirect: bool): (r: Outcome<(Shadow, nat)>)
    requires Inv(s)
    ensures r.Done? || r.Tangled?
    ensures r.Done? ==> Inv(r.value.0) && |r.value.0.active| == |s.active|
    decreases |s.frames|
  {
    hide Inv, LevelOk, Pop;
    if s.frames == [] then Done((s, 0)) else
    var top := s.frames[|s.frames| - 1];
    if top.sp < sp || (top.sp == sp && minpops > 0) then
      var u := Pop(s, skipDirect);
      if u.Tangled? then Tangled else
      var r := Unwind(u.value, sp, minpops - 1, skipDirect);
      if r.Tangled? then Tangled else Done((r.value.0, r.value.1 + 1))
    else Done((s, 0))
  }

  /** How many calls unwinding keeps. */
  function Kept(frames: seq<Frame>, sp: UWord, minpops: int): (k: nat)
    ensures k <= |frames|
  {
    if frames == [] then 0 else
    var top := frames[|frames| - 1];
    if top.sp < sp || (top.sp == sp && minpops > 0) then Kept(frames[..|frames| - 1], sp, minpops - 1) else |frames|
  }

  /** Two nested handlers began at one height above k. */
  predicate SharedBottom(below: seq<Exec>, bottom: nat, k: nat) {
    below != [] && bottom > k
    && var x := below[|below| - 1];
       (x.sig > 0 && x.bottom == bottom) || SharedBottom(below[..|below| - 1], x.bottom, k)
  }

  /** The levels that began at most at height k, and the one above them. */
  function LevelsLeft(below: seq<Exec>, bottom: nat, k: nat): (l: seq<Exec>)
    ensures |l| <= |below| && (below != [] && bottom > k ==> |l| < |below|)
  {
    if below == [] || bottom <= k then below else LevelsLeft(below[..|below| - 1], below[|below| - 1].bottom, k)
  }

  /** The level u has reached by leaving levels of s: that of s, or an interrupted one. */
  predicate AtLevel(s: Shadow, u: Shadow) {
    && u.below <= s.below
    && if |u.below| == |s.below| then u.sig == s.sig && u.bottom == s.bottom
       else u.sig == s.below[|u.below|].sig && u.bottom == s.below[|u.below|].bottom
  }

  lemma AtLevelTwice(s: Shadow, t: Shadow, u: Shadow)
    requires AtLevel(s, t) && AtLevel(t, u)
    ensures AtLevel(s, u)
  {
  }

  lemma SameLevel(s: Shadow, u: Shadow)
    requires SameBelow(s, u)
    ensures AtLevel(s, u)
  {
  }

  /** Unwinding removes the calls its test says, one after the other, and ends the handlers that
      began above; it goes wrong exactly if it ends two handlers that began at one height. */
  lemma {:induction false} UnwindIs(s: Shadow, sp: UWord, minpops: int, skipDirect: bool)
    requires Inv(s)
    ensures var (r, k) := (Unwind(s, sp, minpops, skipDirect), Kept(s.frames, sp, minpops));
            && (r.Tangled? <==> SharedBottom(s.below, s.bottom, k))
            && (r.Done? ==> && r.value.0.frames == s.frames[..k] && r.value.1 == |s.frames| - k
                            && r.value.0.below == LevelsLeft(s.below, s.bottom, k)
                            && (k >= s.bottom ==> SameBelow(s, r.value.0) && r.value.0.bbcc == s.bbcc)
                            && (s.bbcc.Some? || k < s.bottom ==> r.value.0.bbcc.Some? && r.value.0.cxt.Some?))
    decreases |s.frames|
  {
    hide Inv, Pop, SameBelow, AtBottom;
    PopsEntry(s);
    SameBelowSelf(s);
    assert s.frames[..|s.frames|] == s.frames;
    if s.frames != [] {
      var m := |s.frames| - 1;
      if s.frames[m].sp < sp || (s.frames[m].sp == sp && minpops > 0) {
        PopLevels(s, skipDirect);
        assert AtBottom(s) <==> s.sig > 0 && |s.frames| == s.bottom by { BottomMeans(s); }
        var k := Kept(s.frames, sp, minpops);
        if Pop(s, skipDirect).Done? {
          var u := Pop(s, skipDirect).value;
          UnwindIs(u, sp, minpops - 1, skipDirect);
          assert s.frames[..m][..k] == s.frames[..k];
          var r := Unwind(u, sp, minpops - 1, skipDirect);
          if r.Done? && k >= s.bottom { SameBelowTwice(s, u, r.value.0); }
        }
      }
    }
  }

  lemma PopLevelIs(s: Shadow, skipDirect: bool)
    requires Inv(s) && s.frames != []
    ensures Pop(s, skipDirect).Done? ==> AtLevel(s, Pop(s, skipDirect).value)
  {
    hide Inv, Pop, SameBelow;
    PopsEntry(s);
    BottomMeans(s);
    PopLevels(s, skipDirect);
  }

  lemma {:induction false} UnwindLevel(s: Shadow, sp: UWord, minpops: int, skipDirect: bool)
    requires Inv(s)
    ensures var r := Unwind(s, sp, minpops, skipDirect); r.Done? ==> AtLevel(s, r.value.0)
    decreases |s.frames|
  {
    hide Inv, Pop, AtLevel;
    AtOwnLevel(s);
    if s.frames != [] && Gone(s.frames[|s.frames| - 1], sp, minpops) {
      PopLevelIs(s, skipDirect);
      var u := Pop(s, skipDirect);
      if u.Done? {
        UnwindLevel(u.value, sp, minpops - 1, skipDirect);
        var r := Unwind(u.value, sp, minpops - 1, skipDirect);
        if r.Done? { AtLevelTwice(s, u.value, r.value.0); }
      }
    }
  }

  lemma AtOwnLevel(s: Shadow)
    ensures AtLevel(s, s)
  {
  }

  lemma BottomMeans(s: Shadow)
    ensures AtBottom(s) <==> s.sig > 0 && |s.frames| == s.bottom
  {
  }

  /** The calls kept from a height on lie at or above the stack pointer, the others at or below
      it, and below it if calls at it are to stay. */
  lemma {:induction false} KeptSplits(frames: seq<Frame>, sp: UWord, minpops: int, b: nat)
    requires b <= |frames| && Descending(frames[b..])
    ensures forall i :: b <= i < |frames| && Kept(frames, sp, minpops) <= i ==> frames[i].sp <= sp
    ensures forall i :: b <= i < Kept(frames, sp, minpops) ==> frames[i].sp >= sp
    ensures minpops <= 0 ==> forall i :: b <= i < |frames| && Kept(frames, sp, minpops) <= i ==> frames[i].sp < sp
  {
    hide Descending;
    if b < |frames| {
      var m := |frames| - 1;
      DescendingPart(frames, b);
      LastIsLeast(frames, b);
      KeptSplits(frames[..m], sp, minpops - 1, b);
      assert forall i :: b <= i < m ==> frames[..m][i] == frames[i];
    }
  }

  lemma LastIsLeast(frames: seq<Frame>, b: nat)
    requires b < |frames| && Descending(frames[b..])
    ensures forall i :: b <= i < |frames| ==> frames[i].sp >= frames[|frames| - 1].sp
  {
    forall i | b <= i < |frames|
      ensures frames[i].sp >= frames[|frames| - 1].sp
    {
      assert frames[i] == frames[b..][i - b] && frames[|frames| - 1] == frames[b..][|frames| - 1 - b];
    }
  }

  /** Unwinding to a stack pointer removes, of the calls of the current level, exactly those
      recorded below it. */
  lemma UnwindExact(s: Shadow, sp: UWord, skipDirect: bool)
    requires Inv(s)
    ensures var (r, k) := (Unwind(s, sp, 0, skipDirect), Kept(s.frames, sp, 0));
            && (r.Done? ==> r.value.0.frames == s.frames[..k] && r.value.1 == |s.frames| - k)
            && (k >= s.bottom ==> r.Done?)
            && s.bottom <= |s.frames| && forall i :: s.bottom <= i < |s.frames| ==> (i < k <==> s.frames[i].sp >= sp)
  {
    hide Unwind, Kept, FramesOk, Descending, FnsOk, Base;
    InvShape(s);
    UnwindIs(s, sp, 0, skipDirect);
    KeptSplits(s.frames, sp, 0, s.bottom);
  }

  /** Unwinding pops this call when it comes to it. */
  predicate Gone(f: Frame, sp: UWord, minpops: int) {
    f.sp < sp || (f.sp == sp && minpops > 0)
  }

  /** Unwinding stays above height b: either there is nothing below, or the call just below, or
      the one just above, is kept when unwinding comes to it. */
  predicate StaysAt(frames: seq<Frame>, b: nat, sp: UWord, minpops: int)
    requires b <= |frames|
  {
    || b == 0 || !Gone(frames[b - 1], sp, minpops - (|frames| - b))
    || (b < |frames| && !Gone(frames[b], sp, minpops - (|frames| - 1 - b)))
  }

  lemma {:induction false} KeptAbove(frames: seq<Frame>, sp: UWord, b: nat, minpops: int)
    requires b <= |frames| && Descending(frames[b..])
    ensures Kept(frames, sp, minpops) >= b <==> StaysAt(frames, b, sp, minpops)
  {
    if b < |frames| {
      DescendingPart(frames, b);
      LastIsLeast(frames, b);
      KeptAbove(frames[..|frames| - 1], sp, b, minpops - 1);
    }
  }

  /** Stack pointers of the current level do not increase inward, and unwinding to a stack pointer
      that stays in the level removes exactly its calls recorded below it. */
  ghost predicate UnwindsExactly(s: Shadow, sp: UWord, skipDirect: bool)
    requires Inv(s)
  {
    && s.bottom <= |s.frames| && Descending(s.frames[s.bottom..])
    && (StaysAt(s.frames, s.bottom, sp, 0) ==>
          var r := Unwind(s, sp, 0, skipDirect);
          r.Done? && s.bottom <= |r.value.0.frames| <= |s.frames| && r.value.0.frames == s.frames[..|r.value.0.frames|]
          && forall i :: s.bottom <= i < |s.frames| ==> (i < |r.value.0.frames| <==> s.frames[i].sp >= sp))
  }

  lemma InvUnwindsExactly(s: Shadow, sp: UWord, skipDirect: bool)
    requires Inv(s)
    ensures UnwindsExactly(s, sp, skipDirect)
  {
    hide Inv, FramesOk, FnsOk, Base, Unwind, StaysAt, Kept, Descending;
    InvShape(s);
    UnwindExact(s, sp, skipDirect);
    KeptAbove(s.frames, sp, s.bottom, 0);
  }

  // ----------------------------------------------------------- entering a block

  datatype JumpKind = FallThrough | Jump | CallJump | Return

  /** A block is entered: the stack pointer, and how the last block was left.  source is the
      block a return out of the topmost known function is taken to come back from. */
  datatype Arrival = Arrival(bb: Bb, sp: UWord, kind: JumpKind, source: Bbcc)

  ghost predicate ArrivalOk(s: Shadow, e: Arrival) {
    e.bb.fn.id < |s.active| && BbccOk(Some(e.source), |s.active|)
  }

  /** How many calls a return leaves; none if it does not match a call. */
  function PopCount(frames: seq<Frame>, sp: UWord, addr: UWord): (c: int)
    requires frames != []
    ensures c >= 0
  {
    var top := frames[|frames| - 1];
    if sp < top.sp then 0
    else if top.sp == sp then MatchingReturn(frames, sp, addr, 1)
    else 1
  }

  /** Look down through the calls at the same stack pointer for the return address. */
  function MatchingReturn(frames: seq<Frame>, sp: UWord, addr: UWord, count: int): (c: int)
    requires frames != [] && count >= 1
    ensures c >= 0
    decreases |frames|
  {
    if frames[|frames| - 1].retAddr == addr then count
    else
      var rest := frames[..|frames| - 1];
      if rest != [] && rest[|rest| - 1].sp == sp then MatchingReturn(rest, sp, addr, count + 1) else 0
  }

  /** The innermost c calls are at the stack pointer sp, and of these only the outermost is to return
      to addr. */
  predicate ReturnsOver(frames: seq<Frame>, sp: UWord, addr: UWord, c: nat) {
    && 0 < c <= |frames| && frames[|frames| - c].retAddr == addr
    && (forall i :: |frames| - c <= i < |frames| ==> frames[i].sp == sp)
    && (forall i :: |frames| - c < i < |frames| ==> frames[i].retAddr != addr)
  }

  lemma {:induction false} MatchingIs(frames: seq<Frame>, sp: UWord, addr: UWord, count: int, c: nat)
    requires frames != [] && count >= 1 && frames[|frames| - 1].sp == sp
    ensures MatchingReturn(frames, sp, addr, count) == 0 || MatchingReturn(frames, sp, addr, count) >= count
    ensures ReturnsOver(frames, sp, addr, c) <==> c > 0 && MatchingReturn(frames, sp, addr, count) == count + c - 1
  {
    var top, rest := frames[|frames| - 1], frames[..|frames| - 1];
    if top.retAddr == addr {
      if c > 1 && c <= |frames| { assert frames[|frames| - 1].retAddr == addr; }
    } else {
      if rest != [] && rest[|rest| - 1].sp == sp {
        if c > 0 {
          MatchingIs(rest, sp, addr, count + 1, c - 1);
          if c > 1 && c <= |frames| { OverRest(frames, sp, addr, c); }
        } else {
          MatchingIs(rest, sp, addr, count + 1, 0);
        }
      }
    }
  }

  lemma OverRest(frames: seq<Frame>, sp: UWord, addr: UWord, c: nat)
    requires 1 < c <= |frames| && frames[|frames| - 1].sp == sp && frames[|frames| - 1].retAddr != addr
    ensures ReturnsOver(frames, sp, addr, c) <==> ReturnsOver(frames[..|frames| - 1], sp, addr, c - 1)
  {
    var rest := frames[..|frames| - 1];
    assert |rest| - (c - 1) == |frames| - c;
    assert forall i :: 0 <= i < |rest| ==> rest[i] == frames[i];
  }

  /** How many calls a return leaves: one if the stack pointer is above that of the innermost call;
      none if it is below; and at the same stack pointer the least number of calls at it of which the
      outermost is to return to addr, or none if there is no such call. */
  lemma PopCountIs(frames: seq<Frame>, sp: UWord, addr: UWord)
    requires frames != []
    ensures var (c, top) := (PopCount(frames, sp, addr), frames[|frames| - 1]);
            && (sp > top.sp ==> c == 1) && (sp < top.sp ==> c == 0)
            && (sp == top.sp ==> forall k: nat :: ReturnsOver(frames, sp, addr, k) <==> k > 0 && c == k)
  {
    if sp == frames[|frames| - 1].sp {
      forall k: nat
        ensures ReturnsOver(frames, sp, addr, k) <==> k > 0 && PopCount(frames, sp, addr) == k
      {
        MatchingIs(frames, sp, addr, 1, k);
      }
    }
  }

  /** The jump as it is taken: a return that matches no call is a jump. */
  datatype Taken = Taken(kind: JumpKind, pops: int, withoutCall: bool)

  function TakenAs(s: Shadow, e: Arrival): (t: Taken)
    ensures t.kind == Return || t.kind == CallJump ==> s.bbcc.Some?
  {
    var kind := if s.bbcc.None? then FallThrough else e.kind;
    if kind == Return && s.frames != [] then
      var c := PopCount(s.frames, e.sp, e.bb.addr);
      if c == 0 then Taken(Jump, 0, true) else Taken(Return, c, false)
    else Taken(kind, 1, false)
  }

  /** A jump between functions, sections or objects is taken as a call. */
  predicate BecomesCall(last: Maybe<Bbcc>, e: Arrival, t: Taken) {
    && t.kind != Return && t.kind != CallJump && last.Some?
    && (t.withoutCall || e.bb.isEntry || last.value.bb.sect != e.bb.sect || last.value.bb.obj != e.bb.obj)
  }

  /** The last block is left by a jump out of a function that such jumps leave. */
  predicate LeavesByJump(s: Shadow, e: Arrival, t: Taken) {
    BecomesCall(s.bbcc, e, t) && s.bbcc.value.bb.fn.popOnJump && s.frames != []
  }

  lemma {:induction false} TopCall(s: Shadow)
    requires Inv(s) && s.frames != []
    ensures var f := s.frames[|s.frames| - 1];
            && BbccOk(f.nonskipped, |s.active|)
            && (f.jcc.Some? ==> ArcOk(f.jcc.value, |s.active|) && BbccOk(Some(f.jcc.value.from), |s.active|))
    decreases |s.below|
  {
    hide FramesOk, Descending, FnsOk, Base;
    InvShape(s);
    if s.bottom < |s.frames| {
      LastCall(s.frames, s.bottom, Base(s.fns), |s.fns| - 1, |s.active|);
    } else {
      assert s.frames[..s.bottom] == s.frames;
      TopCall(Interrupted(s));
    }
  }

  lemma WithBbcc(s: Shadow, b: Bbcc, jmps: nat)
    requires Inv(s) && BbccOk(Some(b), |s.active|) && s.cxt.Some?
    ensures Inv(s.(bbcc := Some(b))) && SameBelow(s, s.(bbcc := Some(b)))
    ensures Inv(s.(bbcc := Some(b), jmps := jmps)) && SameBelow(s, s.(bbcc := Some(b), jmps := jmps))
  {
    hide FramesOk, Descending, FnsOk, Base, Inv, SameBelow;
    InvShape(s);
    LevelKeepsInv(s, s.(bbcc := Some(b)));
    LevelKeepsInv(s, s.(bbcc := Some(b), jmps := jmps));
  }

  /** The state, stack pointer and jump number to go on with: a jump out of a function marked so
      first leaves that function, as its caller would.  If the call left is one of a skipped
      function, something must be skipped. */
  function Converted(s: Shadow, e: Arrival, t: Taken, skipDirect: bool): (r: Outcome<(Shadow, UWord, nat)>)
    requires Inv(s)
    ensures r.Done? ==> Inv(r.value.0) && |r.value.0.active| == |s.active|
    ensures !LeavesByJump(s, e, t) ==> r == Done((s, e.sp, s.jmps))
    ensures !r.NullFunction?
  {
    hide Inv, LevelOk, Pop;
    if LeavesByJump(s, e, t) then
      PopsEntry(s);
      TopCall(s);
      var top := s.frames[|s.frames| - 1];
      if top.jcc.Some? then
        WithBbcc(s, top.jcc.value.from, 0);
        var u := Pop(s.(bbcc := Some(top.jcc.value.from)), skipDirect);
        if u.Tangled? then Tangled else Done((u.value, top.sp, top.jcc.value.jmp))
      else if s.nonskipped.None? then AssertionFails
      else Done((s, e.sp, s.jmps))
    else Done((s, e.sp, s.jmps))
  }

  /** The return leaves the topmost function known: there is no call for it. */
  predicate Underflows(s: Shadow) {
    s.frames == [] || (|s.fns| >= 2 && s.fns[|s.fns| - 2] == Marker)
  }

  const MAX_SP: UWord := 0xFFFF_FFFF_FFFF_FFFF

  /** Then the current level has one function, so taking it off leaves the separator. */
  lemma UnderflowDepth(s: Shadow)
    requires Inv(s) && s.bbcc.Some? && Underflows(s)
    ensures |s.fns| == Base(s.fns) + 1 && s.fns[|s.fns| - 2] == Marker && s.saved == None
  {
    hide Descending;
    InvShape(s);
    if s.frames == [] { assert s.frames[s.bottom..] == []; }
  }

  /** Force a new context in place of the only function there is. */
  function Forced(s: Shadow, f: Fn): Outcome<Shadow>
    requires |s.fns| >= 2 && s.saved == None && f.id < |s.active|
  {
    EnterFn(s.(fns := s.fns[..|s.fns| - 1], cxt := None), f)
  }

  /** Back to the context of the block last, by a call from source. */
  function MadeUp(s: Shadow, source: Bbcc, last: Bbcc, ret: UWord, skipDirect: bool): (t: Shadow)
    requires s.saved == None && s.cxt.Some? && s.fns != [] && s.fns[|s.fns| - 1].Of?
    requires BbccOk(Some(last), |s.active|) && BbccOk(Some(source), |s.active|)
    ensures t.frames == s.frames + [Frame(Some(Jcc(source, 0, last)), MAX_SP, ret, None, SavedFrom(s))]
    ensures s.fns <= t.fns && |t.fns| <= |s.fns| + 1 && |t.active| == |s.active| && t.bbcc == s.bbcc && t.saved == None
    ensures t.sig == s.sig && t.bottom == s.bottom && t.below == s.below && t.jmps == s.jmps
  {
    var f := FnOf(last);
    var s1 := s.(active := s.active[f.id := Down(s.active[f.id])], nonskipped := None);
    PushCall(PushCxt(s1, f), Jcc(source, 0, last), MAX_SP, ret, skipDirect)
  }

  /** The call made up can be popped, which gives a state in order with the calls of s. */
  ghost predicate Returnable(s: Shadow, t: Shadow, skipDirect: bool) {
    && s.bottom < |t.frames| && t.bottom == s.bottom && t.sig == s.sig
    && FrameOk(t.frames[|t.frames| - 1], t.fns, |t.active|)
    && Returned(s, PopEntry(t, skipDirect))
  }

  /** Back in order, with the same calls. */
  ghost predicate Returned(s: Shadow, u: Shadow) {
    Inv(u) && SameBelow(s, u) && u.frames == s.frames && u.bbcc == s.bbcc && u.cxt.Some?
  }

  /** Make up the missing call from the function returned to. */
  function Underflow(s: Shadow, e: Arrival, ret: UWord, skipDirect: bool): (r: Outcome<Shadow>)
    requires s.bbcc.Some? && |s.fns| >= 2 && s.fns[|s.fns| - 2] == Marker && s.saved == None
    requires e.bb.fn.id < |s.active| && BbccOk(s.bbcc, |s.active|) && BbccOk(Some(e.source), |s.active|)
    ensures r == NullFunction || r.Done?
    ensures r == NullFunction <==> e.bb.fn.group > 0
  {
    var f := Forced(s, e.bb.fn);
    if f.NullFunction? then NullFunction
    else Done(MadeUp(f.value, e.source, s.bbcc.value, ret, skipDirect))
  }

  lemma UnderflowReady(s: Shadow, e: Arrival)
    requires Inv(s) && ArrivalOk(s, e) && s.bbcc.Some? && Underflows(s)
    ensures |s.fns| >= 2 && s.fns[|s.fns| - 2] == Marker && s.saved == None
    ensures e.bb.fn.id < |s.active| && BbccOk(s.bbcc, |s.active|) && BbccOk(Some(e.source), |s.active|)
  {
    hide Inv, Underflows;
    UnderflowDepth(s);
    PopsEntry(s);
  }

  lemma ForcedIs(s: Shadow, fn: Fn)
    requires |s.fns| >= 2 && s.fns[|s.fns| - 2] == Marker && s.saved == None && fn.id < |s.active|
    ensures var r := Forced(s, fn); (r == NullFunction || r.Done?) && (r == NullFunction <==> fn.group > 0)
    ensures var r := Forced(s, fn);
            r.Done? ==> && r.value.fns == s.fns[..|s.fns| - 1] + [Of(fn)] && r.value.cxt == GetCxt(r.value.fns)
                        && r.value.cxt.Some? && r.value.saved == None
                        && r.value.frames == s.frames && |r.value.active| == |s.active| && r.value.bbcc == s.bbcc
                        && r.value.sig == s.sig && r.value.bottom == s.bottom && r.value.below == s.below
  {
    hide GetCxt;
    var f := s.fns[..|s.fns| - 1];
    assert f[|f| - 1] == Marker;
    TopCxt(f + [Of(fn)]);
  }

  lemma UnderflowKeeps(s: Shadow, e: Arrival, ret: UWord, skipDirect: bool)
    requires Inv(s) && ArrivalOk(s, e) && s.bbcc.Some? && Underflows(s)
    requires |s.fns| >= 2 && s.fns[|s.fns| - 2] == Marker && s.saved == None && BbccOk(s.bbcc, |s.active|)
    ensures var r := Underflow(s, e, ret, skipDirect); r.Done? ==> Returnable(s, r.value, skipDirect)
  {
    hide Inv, FramesOk, Descending, Base, Counts, CxtOk, Underflows, GetCxt, PushCxt, PushCall, SavedFrom,
         Returnable, LevelOk;
    UnderflowDepth(s);
    InvShape(s);
    ForcedIs(s, e.bb.fn);
    var r := Underflow(s, e, ret, skipDirect);
    if r.Done? {
      UnderflowLevel(s, Forced(s, e.bb.fn).value, e, r.value, skipDirect);
    }
  }

  lemma UnderflowLevel(s: Shadow, f: Shadow, e: Arrival, t: Shadow, skipDirect: bool)
    requires Inv(s) && |s.fns| == Base(s.fns) + 1 && LevelOk(s, Base(s.fns)) && e.bb.fn.id < |s.active|
    requires f.fns == s.fns[..|s.fns| - 1] + [Of(e.bb.fn)] && f.cxt == GetCxt(f.fns) && f.cxt.Some?
             && |f.active| == |s.active| == |t.active|
    requires f.frames == s.frames && t.bbcc == s.bbcc && t.sig == s.sig && t.bottom == s.bottom && t.below == s.below
             && f.fns <= t.fns
    requires |t.frames| == |f.frames| + 1 && t.frames[..|f.frames|] == f.frames && s.bbcc.Some?
    requires var l := t.frames[|f.frames|];
             l.jcc.Some? && ArcOk(l.jcc.value, |s.active|) && l.nonskipped.None? && l.saved == SavedFrom(f)
    ensures Returnable(s, t, skipDirect)
  {
    hide Inv, FramesOk, Descending, Base, Counts, FnOf;
    var u := PopEntry(t, skipDirect);
    var b := |s.fns| - 1;
    assert u.fns == f.fns && u.frames == s.frames;
    assert u.fns[..b] == s.fns[..b];
    LevelKeepsInv(s, u);
  }

  /** Return out of the only function there is. */
  function Underflowed(s: Shadow, e: Arrival, ret: UWord, skipDirect: bool): (r: Outcome<Shadow>)
    requires Inv(s) && ArrivalOk(s, e) && s.bbcc.Some? && Underflows(s)
    ensures r == NullFunction || r.Done?
    ensures r == NullFunction <==> e.bb.fn.group > 0
    ensures r.Done? ==> Returned(s, r.value)
  {
    hide Inv, LevelOk;
    UnderflowReady(s, e);
    UnderflowKeeps(s, e, ret, skipDirect);
    var u := Underflow(s, e, ret, skipDirect);
    if u.NullFunction? then NullFunction else Done(PopEntry(u.value, skipDirect))
  }

  /** The call of a block that is called, after what its stack pointer left has been unwound. */
  datatype Pending = NoCall | Pending(sp: UWord, skip: bool)

  ghost predicate PendingOk(u: Shadow, p: Pending) {
    p.Pending? ==> u.bbcc.Some? && (u.frames != [] ==> u.frames[|u.frames| - 1].sp >= p.sp)
  }

  /** A return leaves calls, or the only function there is. */
  function ReturnUnwound(s: Shadow, e: Arrival, pops: int, sp: UWord, ret: UWord,
          skipDirect: bool): (r: Outcome<Shadow>)
    requires Inv(s) && ArrivalOk(s, e) && s.bbcc.Some?
    ensures r.Done? ==> Inv(r.value) && |r.value.active| == |s.active|
    ensures !r.AssertionFails?
  {
    hide Inv, LevelOk, Underflows;
    if Underflows(s) then
      Underflowed(s, e, ret, skipDirect)
    else
      var r := Unwind(s, sp, pops, skipDirect);
      if r.Tangled? then Tangled else Done(r.value.0)
  }

  /** If nothing lies below the stack pointer, the innermost call is at or above it. */
  lemma NothingUnwound(s: Shadow, sp: UWord, skipDirect: bool)
    requires Inv(s)
    ensures var r := Unwind(s, sp, 0, skipDirect);
            r.Done? && r.value.1 == 0 ==> r.value.0 == s && (s.frames != [] ==> s.frames[|s.frames| - 1].sp >= sp)
  {
    hide Inv, Pop;
  }

  /** Other jumps leave what the stack pointer left; a call is to be pushed if that is nothing. */
  function CallUnwound(s: Shadow, sp: UWord, called: bool, emulated: bool, skip: bool,
          skipDirect: bool): (r: Outcome<(Shadow, Pending)>)
    requires Inv(s) && (called ==> s.bbcc.Some?)
    ensures r.Done? ==> Inv(r.value.0) && |r.value.0.active| == |s.active| && PendingOk(r.value.0, r.value.1)
    ensures r.Done? || r.Tangled?
  {
    hide Inv, LevelOk;
    NothingUnwound(s, sp, skipDirect);
    var r := Unwind(s, sp, 0, skipDirect);
    if r.Tangled? then Tangled else
    var (u, count) := r.value;
    if !called || count > 0 then Done((u, NoCall))
    else Done((u, Pending(if emulated && u.frames != [] then u.frames[|u.frames| - 1].sp else sp, skip)))
  }

  /** Bring the stack in line with the stack pointer. */
  function Unwound(s: Shadow, e: Arrival, t: Taken, emulated: bool, sp: UWord, ret: UWord,
          skipDirect: bool): (r: Outcome<(Shadow, Pending)>)
    requires Inv(s) && ArrivalOk(s, e) && (t.kind == Return || t.kind == CallJump ==> s.bbcc.Some?)
    ensures r.Done? ==> Inv(r.value.0) && |r.value.0.active| == |s.active| && PendingOk(r.value.0, r.value.1)
    ensures !r.AssertionFails?
  {
    hide Inv, LevelOk, PendingOk, ArrivalOk;
    if t.kind == Return then
      var r := ReturnUnwound(s, e, t.pops, sp, ret, skipDirect);
      if r.Done? then Done((r.value, NoCall)) else if r.Tangled? then Tangled else NullFunction
    else
      CallUnwound(s, sp, t.kind == CallJump, emulated, e.bb.fn.skip, skipDirect)
  }

  // ------------------------------------------------------ the context of the block

  /** With the separator on top no call of the level has an arc. */
  lemma {:induction false} FramesAtBottom(frames: seq<Frame>, base: nat, top: nat, n: nat)
    requires FramesOk(frames, base, top, n) && top < base
    ensures FramesOk(frames, base, base, n)
  {
    if frames != [] { FramesAtBottom(frames[..|frames| - 1], base, top, n); }
  }

  /** The context of the block, in a new one if it is called or there is none. */
  function InContext(u: Shadow, fn: Fn, called: bool): (r: Outcome<Shadow>)
    requires u.saved == None && u.fns != [] && fn.id < |u.active|
    ensures r == NullFunction || r == Done(if called || u.cxt.None? then PushCxt(u, fn) else u)
    ensures r == NullFunction <==> (called || u.cxt.None?) && fn.group > 0 && u.fns[|u.fns| - 1].Marker?
  {
    if called || u.cxt.None? then EnterFn(u, fn) else Done(u)
  }

  /** The level of the block, with the context of the coming call saved or not. */
  ghost predicate Entering(u: Shadow, w: Shadow, called: bool)
    requires u.fns != [] && u.fns[0] == Marker && u.bottom <= |u.frames|
  {
    var (n, b) := (|u.active|, Base(u.fns));
    && w.frames == u.frames && w.below == u.below && w.sig == u.sig && w.bottom == u.bottom && |w.active| == n
    && w.nonskipped == u.nonskipped && w.bbcc == u.bbcc && FnsOk(w.fns, b, n) && b < |w.fns| && |u.fns| <= |w.fns|
    && w.fns[..b] == u.fns[..b] && w.cxt.Some? && CxtOk(w.cxt, n)
    && FramesOk(w.frames[w.bottom..], b, if called then |u.fns| - 1 else |w.fns| - 1, n)
    && w.saved == if called then SavedFrom(u) else None
  }

  lemma PushCxtEnters(u: Shadow, fn: Fn, called: bool)
    requires Inv(u) && fn.id < |u.active| && u.fns != [] && u.fns[0] == Marker && u.saved == None
             && u.bottom <= |u.frames|
    requires if called then u.cxt.Some? else u.cxt.None?
    ensures Entering(u, PushCxt(u, fn), called)
  {
    hide Inv, Descending, Base, GetCxt, SavedFrom, FramesOk, PushCxt, SameTop, FnsOk;
    InvShape(u);
    var w := PushCxt(u, fn);
    var b := Base(u.fns);
    FnsMore(u.fns, w.fns, fn, b, |u.active|);
    if u.cxt.None? {
      FramesAtBottom(u.frames[u.bottom..], b, |u.fns| - 1, |u.active|);
      SavedNone(u);
    }
    assert w.fns[..b] == u.fns[..b];
    if SameTop(u.fns, fn) { SameTopOf(u.fns, fn); } else { TopCxt(w.fns); }
  }

  lemma FnsMore(fns: seq<Slot>, more: seq<Slot>, fn: Fn, b: nat, n: nat)
    requires FnsOk(fns, b, n) && fn.id < n && (more == fns || more == fns + [Of(fn)])
    ensures FnsOk(more, b, n) && b <= |fns|
  {
  }

  lemma SameTopOf(fns: seq<Slot>, fn: Fn)
    requires fns != [] && SameTop(fns, fn)
    ensures fns[|fns| - 1].Of?
  {
  }

  lemma SavedNone(u: Shadow)
    requires u.cxt.None? && u.fns != []
    ensures SavedFrom(u) == None
  {
  }

  lemma TopCxt(fns: seq<Slot>)
    requires fns != [] && fns[|fns| - 1].Of?
    ensures var c := GetCxt(fns); c.Some? && c.value.fns != [] && c.value.fns[0] == fns[|fns| - 1].fn
  {
  }

  lemma InContextEnters(u: Shadow, fn: Fn, called: bool)
    requires Inv(u) && fn.id < |u.active| && u.fns != [] && u.fns[0] == Marker && u.saved == None
             && u.bottom <= |u.frames|
    requires called ==> u.cxt.Some?
    ensures var r := InContext(u, fn, called); r.Done? ==> Entering(u, r.value, called)
    ensures u.fns[|u.fns| - 1].Marker? <==> u.cxt.None?
  {
    hide Inv, Descending, Base, FramesOk, PushCxt;
    InvShape(u);
    PopsEntry(u);
    if called || u.cxt.None? { PushCxtEnters(u, fn, called); }
  }

  /** The recursion level of a block: how often the top function is active, with the coming call
      if that is counted, up to the number of levels kept apart.  A function found inactive, as
      it can be just after profiling is switched on, is made active once. */
  function Levelled(w: Shadow, counted: bool): (r: (Shadow, nat))
    requires w.fns != [] && w.fns[|w.fns| - 1].Of? && w.fns[|w.fns| - 1].fn.id < |w.active|
    ensures r.0 == w.(active := r.0.active) && |r.0.active| == |w.active|
  {
    var top := w.fns[|w.fns| - 1].fn;
    if top.recursions <= 1 then (w, 0) else
    var c := if counted then Up(w.active[top.id]) else w.active[top.id];
    var level := if c > top.recursions then top.recursions else c;
    if level == 0 then (w.(active := w.active[top.id := 1]), 0) else (w, level - 1)
  }

  /** Levels stay apart up to the last one, which takes all deeper recursion: the level is one
      less than the activations counted, within its bounds. */
  lemma LevelledIs(w: Shadow, counted: bool)
    requires w.fns != [] && w.fns[|w.fns| - 1].Of? && w.fns[|w.fns| - 1].fn.id < |w.active|
    ensures var (top, r) := (w.fns[|w.fns| - 1].fn, Levelled(w, counted));
            var c := (w.active[top.id] as int + if counted then 1 else 0) % 0x1_0000_0000;
            && (top.recursions > 1 ==> r.1 < top.recursions)
            && (top.recursions > 1 && 0 < c <= top.recursions ==> r == (w, c - 1))
            && (top.recursions > 1 && c > top.recursions ==> r == (w, top.recursions - 1))
            && (r.0 != w ==> c == 0 && r.1 == 0 && r.0.active[top.id] == 1)
  {
  }

  /** The arc of a call: out of skipped code it comes from the last block that was not. */
  function ArcFrom(w: Shadow, last: Bbcc, passed: nat, next: Bbcc): (j: Jcc)
    ensures w.nonskipped.Some? ==> j.from == w.nonskipped.value
    ensures j.to == next && (j.from == last || Some(j.from) == w.nonskipped)
  {
    if w.nonskipped.Some? then Jcc(w.nonskipped.value, w.nonskipped.value.bb.cjmps, next) else Jcc(last, passed, next)
  }

  /** What pushing the call of a block needs. */
  predicate CanEnter(w: Shadow, p: Pending) {
    && w.fns != [] && w.fns[|w.fns| - 1].Of? && w.fns[|w.fns| - 1].fn.id < |w.active|
    && w.cxt.Some? && w.cxt.value.fns != [] && w.cxt.value.fns[0].id < |w.active|
    && (p.Pending? ==> w.bbcc.Some? && w.bbcc.value.cxt.fns != [])
    && (w.nonskipped.Some? ==> w.nonskipped.value.cxt.fns != [])
    && (p.Pending? && !p.skip ==> w.saved.Some?)
  }

  /** Push the call of a block, if it has one, and go on in the block. */
  function Pushed(w: Shadow, bb: Bb, p: Pending, passed: nat, ret: UWord, skipDirect: bool): (v: Shadow)
    requires CanEnter(w, p)
    ensures v.bbcc.Some? && v.bbcc.value == Bbcc(bb, w.cxt.value, v.bbcc.value.level) && v.jmps == 0
            && v.cxt == w.cxt && v.fns == w.fns
    ensures v.sig == w.sig && v.bottom == w.bottom && v.below == w.below && |v.active| == |w.active|
    ensures p.NoCall? ==> v.frames == w.frames && v.saved == w.saved && v.nonskipped == w.nonskipped
    ensures p.Pending? ==>
              && v.saved == None && |v.frames| == |w.frames| + 1 && v.frames[..|w.frames|] == w.frames
              && var f := v.frames[|w.frames|];
                 && f.sp == p.sp && f.retAddr == ret && f.nonskipped == w.nonskipped && f.saved == w.saved
                 && (if p.skip then f.jcc.None? else f.jcc == Some(ArcFrom(w, w.bbcc.value, passed, v.bbcc.value)))
                 && v.nonskipped == if !p.skip then None else if w.nonskipped.Some? then w.nonskipped else w.bbcc
  {
    var called := p.Pending? && !p.skip;
    var (x, level) := Levelled(w, called && (!skipDirect || FnOf(w.bbcc.value) != w.cxt.value.fns[0]));
    var next := Bbcc(bb, w.cxt.value, level);
    var y := if p.NoCall? then x
             else if p.skip then PushSkipped(x, w.bbcc.value, p.sp, ret)
             else PushCall(x, ArcFrom(x, w.bbcc.value, passed, next), p.sp, ret, skipDirect);
    y.(bbcc := Some(next), jmps := 0)
  }

  lemma DescendingMore(frames: seq<Frame>, more: seq<Frame>, bottom: nat)
    requires bottom <= |frames| && |more| == |frames| + 1 && more[..|frames|] == frames && Descending(frames[bottom..])
    requires frames != [] ==> frames[|frames| - 1].sp >= more[|frames|].sp
    ensures Descending(more[bottom..])
  {
    var d := more[bottom..];
    forall i, j | 0 <= i < j < |d|
      ensures d[i].sp >= d[j].sp
    {
      assert d[i] == more[..|frames|][bottom + i] == frames[bottom..][i];
      if j < |d| - 1 {
        assert d[j] == more[..|frames|][bottom + j] == frames[bottom..][j];
      } else {
        assert frames[bottom..][i].sp >= frames[bottom..][|frames| - 1 - bottom].sp;
      }
    }
  }

  lemma FramesMore(frames: seq<Frame>, more: seq<Frame>, bottom: nat, base: nat, top: nat, n: nat)
    requires bottom <= |frames| && |more| == |frames| + 1 && more[..|frames|] == frames
    requires var f := more[|frames|];
             && BbccOk(f.nonskipped, n) && (f.saved.Some? ==> CxtOk(Some(f.saved.value.cxt), n))
             && if f.jcc.None? then FramesOk(frames[bottom..], base, top, n) else
                && ArcOk(f.jcc.value, n) && BbccOk(Some(f.jcc.value.from), n) && f.saved.Some?
                  && base <= f.saved.value.fnSp <= top
                && FramesOk(frames[bottom..], base, f.saved.value.fnSp, n)
    ensures FramesOk(more[bottom..], base, top, n)
  {
    var d := more[bottom..];
    assert d[|d| - 1] == more[|frames|];
    assert d[..|d| - 1] == frames[bottom..];
  }

  lemma EnterReady(u: Shadow, w: Shadow, p: Pending)
    requires Inv(u) && PendingOk(u, p) && u.fns != [] && u.fns[0] == Marker && u.bottom <= |u.frames|
    requires Entering(u, w, p.Pending? && !p.skip)
    ensures CanEnter(w, p)
  {
    hide Inv, Descending, Base, FramesOk;
    PopsEntry(u);
  }

  lemma PushedFrames(u: Shadow, w: Shadow, v: Shadow, p: Pending, b: nat)
    requires LevelOk(u, b) && u.bottom <= |u.frames| && |u.active| == |w.active| && w.bottom == u.bottom
             && w.frames == u.frames && w.bbcc == u.bbcc && w.nonskipped == u.nonskipped
    requires p.Pending? && u.bbcc.Some? && (u.frames != [] ==> u.frames[|u.frames| - 1].sp >= p.sp)
    requires u.fns != [] && |u.fns| <= |w.fns|
    requires FramesOk(w.frames[w.bottom..], b, if p.skip then |w.fns| - 1 else |u.fns| - 1, |u.active|)
    requires w.saved == if p.skip then None else SavedFrom(u)
    requires |v.frames| == |u.frames| + 1 && v.frames[..|u.frames|] == u.frames && v.bbcc.Some?
             && BbccOk(v.bbcc, |u.active|) && v.fns == w.fns
    requires var f := v.frames[|u.frames|];
             && f.sp == p.sp && f.nonskipped == w.nonskipped && f.saved == w.saved
             && if p.skip then f.jcc.None?
               else exists passed :: f.jcc == Some(ArcFrom(w, w.bbcc.value, passed, v.bbcc.value))
    ensures FramesOk(v.frames[u.bottom..], b, |v.fns| - 1, |u.active|) && Descending(v.frames[u.bottom..])
  {
    hide Descending, Base, FramesOk;
    DescendingMore(u.frames, v.frames, u.bottom);
    FramesMore(u.frames, v.frames, u.bottom, b, |v.fns| - 1, |u.active|);
  }

  lemma PushedKeeps(u: Shadow, w: Shadow, bb: Bb, p: Pending, passed: nat, ret: UWord, skipDirect: bool)
    requires Inv(u) && PendingOk(u, p) && u.fns != [] && u.fns[0] == Marker && u.bottom <= |u.frames|
    requires Entering(u, w, p.Pending? && !p.skip) && CanEnter(w, p)
    ensures var v := Pushed(w, bb, p, passed, ret, skipDirect); Inv(v) && SameBelow(u, v)
  {
    hide Inv, Descending, Base, FramesOk, SameBelow, Pushed, ArcFrom;
    InvShape(u);
    var v := Pushed(w, bb, p, passed, ret, skipDirect);
    if p.Pending? {
      PushedFrames(u, w, v, p, Base(u.fns));
    }
    assert v.frames[..u.bottom] == u.frames[..u.bottom];
    LevelKeepsInv(u, v);
  }

  /** Enter the context of the block, and push its call. */
  function Entered(u: Shadow, e: Arrival, p: Pending, passed: nat, ret: UWord, skipDirect: bool): (r: Outcome<Shadow>)
    requires Inv(u) && ArrivalOk(u, e) && PendingOk(u, p)
    ensures r == NullFunction || r.Done?
    ensures r == NullFunction <==> e.bb.fn.group > 0 && u.cxt.None?
    ensures r.Done? ==> Inv(r.value) && SameBelow(u, r.value) && r.value.bbcc.Some? && r.value.jmps == 0
    ensures r.Done? ==> if p.NoCall? then r.value.frames == u.frames else
              |r.value.frames| == |u.frames| + 1 && r.value.frames[..|u.frames|] == u.frames
                && r.value.frames[|u.frames|].sp == p.sp
  {
    hide Inv, LevelOk, Entering, SameBelow;
    PopsEntry(u);
    var called := p.Pending? && !p.skip;
    InContextEnters(u, e.bb.fn, called);
    var w := InContext(u, e.bb.fn, called);
    if w.NullFunction? then NullFunction else
    EnterReady(u, w.value, p);
    PushedKeeps(u, w.value, e.bb, p, passed, ret, skipDirect);
    Done(Pushed(w.value, e.bb, p, passed, ret, skipDirect))
  }

  /** Entering a block, as a whole: the state in it, or what goes wrong. */
  function Setup(s: Shadow, e: Arrival, ret: UWord, skipDirect: bool): (r: Outcome<Shadow>)
    requires Inv(s) && ArrivalOk(s, e)
    ensures r.Done? ==> Inv(r.value) && r.value.bbcc.Some? && |r.value.active| == |s.active|
  {
    hide Inv, LevelOk, PendingOk, Converted, Unwound, Entered, TakenAs;
    var t := TakenAs(s, e);
    var emulated := BecomesCall(s.bbcc, e, t);
    var c := Converted(s, e, t, skipDirect);
    if c.AssertionFails? then AssertionFails else if c.Tangled? then Tangled else
    ConvertedGoesOn(s, e, t, skipDirect);
    var (s1, sp, passed) := c.value;
    var u := Unwound(s1, e, if emulated then t.(kind := CallJump) else t, emulated, sp, ret, skipDirect);
    if u.NullFunction? then NullFunction else if u.Tangled? then Tangled else
    Entered(u.value.0, e, u.value.1, passed, ret, skipDirect)
  }

  lemma ConvertedGoesOn(s: Shadow, e: Arrival, t: Taken, skipDirect: bool)
    requires Inv(s)
    ensures var c := Converted(s, e, t, skipDirect); c.Done? && s.bbcc.Some? ==> c.value.0.bbcc.Some?
  {
    hide Inv, FramesOk, Pop;
    if LeavesByJump(s, e, t) {
      PopsEntry(s);
      TopCall(s);
      var top := s.frames[|s.frames| - 1];
      if top.jcc.Some? {
        WithBbcc(s, top.jcc.value.from, 0);
        PopLevels(s.(bbcc := Some(top.jcc.value.from)), skipDirect);
      }
    }
  }

  // ------------------------------------------------------ what entering a block does

  /** A function left by jumps is left while the call on top is one of a skipped function, and
      nothing is skipped. */
  predicate JumpFails(s: Shadow, e: Arrival) {
    LeavesByJump(s, e, TakenAs(s, e)) && s.frames[|s.frames| - 1].jcc.None? && s.nonskipped.None?
  }

  /** The innermost call is left by a jump. */
  predicate JumpPops(s: Shadow, e: Arrival) {
    LeavesByJump(s, e, TakenAs(s, e)) && s.frames[|s.frames| - 1].jcc.Some?
  }

  predicate ReturnUnderflows(s: Shadow, e: Arrival) {
    TakenAs(s, e).kind == Return && Underflows(s)
  }

  /** How many of the calls stay. */
  function KeptBy(s: Shadow, e: Arrival): (k: nat)
    ensures k <= |s.frames|
  {
    if JumpPops(s, e) then
      var m := |s.frames| - 1;
      Kept(s.frames[..m], s.frames[m].sp, 0)
    else if ReturnUnderflows(s, e) then |s.frames|
    else Kept(s.frames, e.sp, if TakenAs(s, e).kind == Return then TakenAs(s, e).pops else 0)
  }

  /** What unwinding to height k leaves of the levels. */
  ghost predicate Left(s: Shadow, u: Shadow, k: nat)
    requires k <= |s.frames|
  {
    && u.frames == s.frames[..k] && u.below == LevelsLeft(s.below, s.bottom, k) && AtLevel(s, u)
    && (k >= s.bottom ==> SameBelow(s, u)) && u.cxt.Some? == (s.cxt.Some? || k < s.bottom)
  }

  lemma UnwindLeaves(s: Shadow, sp: UWord, minpops: int, skipDirect: bool)
    requires Inv(s)
    ensures var (r, k) := (Unwind(s, sp, minpops, skipDirect), Kept(s.frames, sp, minpops));
            && (r.Tangled? <==> SharedBottom(s.below, s.bottom, k))
            && (r.Done? ==> Left(s, r.value.0, k))
  {
    hide Inv, SameBelow, SharedBottom, LevelsLeft, Pop, AtLevel;
    UnwindIs(s, sp, minpops, skipDirect);
    UnwindLevel(s, sp, minpops, skipDirect);
    PopsEntry(s);
  }

  lemma JumpLeaves(s: Shadow, e: Arrival, skipDirect: bool)
    requires Inv(s) && JumpPops(s, e)
    ensures var (c, k) := (Converted(s, e, TakenAs(s, e), skipDirect), KeptBy(s, e));
            && (c.Tangled? ==> SharedBottom(s.below, s.bottom, k))
            && (c.Done? ==> && Jumped(s, c.value.0) && c.value.1 == s.frames[|s.frames| - 1].sp
                            && c.value.0.frames == s.frames[..|s.frames| - 1]
                            && (SharedBottom(c.value.0.below, c.value.0.bottom, k)
                              <==> SharedBottom(s.below, s.bottom, k)))
            && !c.AssertionFails?
  {
    hide Inv, Pop, Descending, FramesOk, Base, SameBelow, AtBottom, TakenAs, AtLevel, Jumped;
    PopsEntry(s);
    TopCall(s);
    var m := |s.frames| - 1;
    var x := s.(bbcc := Some(s.frames[m].jcc.value.from));
    WithBbcc(s, x.bbcc.value, 0);
    PopLevels(x, skipDirect);
    BottomMeans(x);
    var c := Pop(x, skipDirect);
    if c.Done? { JumpedTo(s, x, c.value, skipDirect); }
  }

  /** The innermost call of s is gone, and with it perhaps the handler running. */
  ghost predicate Jumped(s: Shadow, c: Shadow) {
    && s.frames != [] && c.frames == s.frames[..|s.frames| - 1] && AtLevel(s, c)
    && s.cxt.Some?
      && (forall k: nat :: k < |s.frames| ==> LevelsLeft(c.below, c.bottom, k) == LevelsLeft(s.below, s.bottom, k))
    && (if |s.frames| > s.bottom then c.bottom == s.bottom && SameBelow(s, c) && c.cxt.Some? else c.cxt.Some?)
  }

  lemma JumpedTo(s: Shadow, x: Shadow, c: Shadow, skipDirect: bool)
    requires Inv(s) && Inv(x) && s.frames != [] && x == s.(bbcc := x.bbcc) && x.bbcc.Some? && SameBelow(s, x)
             && Pop(x, skipDirect) == Done(c)
    ensures Jumped(s, c)
  {
    hide Inv, Pop, Base, SameBelow, AtBottom, AtLevel;
    SameLevel(s, x);
    PopLevels(x, skipDirect);
    BottomMeans(x);
    PopsEntry(x);
    PopLevelIs(x, skipDirect);
    AtLevelTwice(s, x, c);
    if |s.frames| > s.bottom { SameBelowTwice(s, x, c); }
  }

  lemma LeftJumped(s: Shadow, c: Shadow, u: Shadow, k: nat)
    requires Jumped(s, c) && k <= |c.frames| && Left(c, u, k)
    ensures k <= |s.frames| && Left(s, u, k)
  {
    hide SameBelow, AtLevel, LevelsLeft;
    AtLevelTwice(s, c, u);
    assert s.frames[..|s.frames| - 1][..k] == s.frames[..k];
    if k >= s.bottom { SameBelowTwice(s, c, u); }
  }

  lemma UnwoundLeaves(s: Shadow, e: Arrival, t: Taken, emulated: bool, sp: UWord, ret: UWord, skipDirect: bool)
    requires Inv(s) && ArrivalOk(s, e) && (t.kind == Return || t.kind == CallJump ==> s.bbcc.Some?)
    ensures var (r, under) := (Unwound(s, e, t, emulated, sp, ret, skipDirect), t.kind == Return && Underflows(s));
            var k := if under then |s.frames| else Kept(s.frames, sp, if t.kind == Return then t.pops else 0);
            && (r.Tangled? <==> SharedBottom(s.below, s.bottom, k))
            && (r.NullFunction? <==> under && e.bb.fn.group > 0)
            && (r.Done? ==> Left(s, r.value.0, k))
  {
    hide Inv, FramesOk, Descending, Base, SameBelow, SharedBottom, LevelsLeft, Underflows, Pop, Kept, Unwind;
    PopsEntry(s);
    if t.kind == Return && Underflows(s) {
      NoneLeft(s, |s.frames|);
      assert s.frames[..|s.frames|] == s.frames;
    } else {
      UnwindLeaves(s, sp, if t.kind == Return then t.pops else 0, skipDirect);
    }
  }

  lemma NoneLeft(s: Shadow, k: nat)
    requires s.bottom <= k
    ensures !SharedBottom(s.below, s.bottom, k) && LevelsLeft(s.below, s.bottom, k) == s.below
  {
  }

  lemma EnteredLeaves(s: Shadow, u: Shadow, v: Shadow, k: nat)
    requires k <= |s.frames| && Left(s, u, k) && SameBelow(u, v) && |u.frames| <= |v.frames|
             && v.frames[..|u.frames|] == u.frames
    ensures v.frames[..k] == s.frames[..k] && v.below == LevelsLeft(s.below, s.bottom, k)
            && (k >= s.bottom ==> SameBelow(s, v))
    ensures AtLevel(s, v)
  {
    hide Base, LevelsLeft;
    SameLevel(u, v);
    AtLevelTwice(s, u, v);
  }

  /** What entering a block does to the calls and levels, and exactly when it goes wrong. */
  lemma SetupIs(s: Shadow, e: Arrival, ret: UWord, skipDirect: bool)
    requires Inv(s) && ArrivalOk(s, e)
    ensures var (r, k) := (Setup(s, e, ret, skipDirect), KeptBy(s, e));
            && (r.AssertionFails? <==> JumpFails(s, e))
            && (r.Tangled? <==> !JumpFails(s, e) && SharedBottom(s.below, s.bottom, k))
            && (r.NullFunction? <==> && !JumpFails(s, e) && !SharedBottom(s.below, s.bottom, k) && e.bb.fn.group > 0
                                     && (ReturnUnderflows(s, e) || (s.cxt.None? && k >= s.bottom)))
            && (r.Done? ==> && k <= |r.value.frames| <= k + 1 && r.value.frames[..k] == s.frames[..k]
                            && r.value.below == LevelsLeft(s.below, s.bottom, k) && AtLevel(s, r.value)
                            && (k >= s.bottom ==> SameBelow(s, r.value)))
  {
    hide Inv, FramesOk, SameBelow, SharedBottom, LevelsLeft, Underflows, Kept, Converted, Unwound, Entered,
         BecomesCall, TakenAs, Left, ArrivalOk, PendingOk, AtLevel, Jumped;
    var t := TakenAs(s, e);
    var emulated := BecomesCall(s.bbcc, e, t);
    var c := Converted(s, e, t, skipDirect);
    ConvertedFails(s, e, skipDirect);
    if JumpPops(s, e) { JumpLeaves(s, e, skipDirect); }
    if c.Done? {
      ConvertedGoesOn(s, e, t, skipDirect);
      ArrivalStays(s, c.value.0, e);
      EmulatedCall(s, e, t);
      var t1 := if emulated then t.(kind := CallJump) else t;
      UnwoundLeaves(c.value.0, e, t1, emulated, c.value.1, ret, skipDirect);
      var w := Unwound(c.value.0, e, t1, emulated, c.value.1, ret, skipDirect);
      if w.Done? {
        ArrivalStays(s, w.value.0, e);
        if JumpPops(s, e) { LeftJumped(s, c.value.0, w.value.0, KeptBy(s, e)); }
        EntersAt(s, w.value.0, w.value.1, e, c.value.2, ret, KeptBy(s, e), skipDirect);
      }
    }
  }

  lemma EmulatedCall(s: Shadow, e: Arrival, t: Taken)
    ensures BecomesCall(s.bbcc, e, t) ==> s.bbcc.Some? && t.kind != Return
  {
  }

  lemma EntersAt(s: Shadow, u: Shadow, p: Pending, e: Arrival, passed: nat, ret: UWord, k: nat, skipDirect: bool)
    requires Inv(u) && ArrivalOk(u, e) && PendingOk(u, p) && k <= |s.frames| && Left(s, u, k)
    ensures var r := Entered(u, e, p, passed, ret, skipDirect);
            && (r == NullFunction || r.Done?)
            && (r == NullFunction <==> e.bb.fn.group > 0 && s.cxt.None? && k >= s.bottom)
            && (r.Done? ==> && k <= |r.value.frames| <= k + 1 && r.value.frames[..k] == s.frames[..k]
                            && r.value.below == LevelsLeft(s.below, s.bottom, k) && AtLevel(s, r.value)
                            && (k >= s.bottom ==> SameBelow(s, r.value)))
  {
    hide Inv, Entered, SameBelow, LevelsLeft, ArrivalOk, PendingOk, AtLevel;
    var r := Entered(u, e, p, passed, ret, skipDirect);
    if r.Done? { EnteredLeaves(s, u, r.value, k); }
  }

  lemma ArrivalStays(s: Shadow, u: Shadow, e: Arrival)
    requires ArrivalOk(s, e) && |u.active| == |s.active|
    ensures ArrivalOk(u, e)
  {
  }

  lemma ConvertedFails(s: Shadow, e: Arrival, skipDirect: bool)
    requires Inv(s)
    ensures var (c, t) := (Converted(s, e, TakenAs(s, e), skipDirect), TakenAs(s, e));
            && (c.AssertionFails? <==> JumpFails(s, e)) && (c.Tangled? ==> JumpPops(s, e))
            && (!JumpPops(s, e) && !JumpFails(s, e) ==> c == Done((s, e.sp, s.jmps)))
            && (LeavesByJump(s, e, t) ==> t.kind != Return) && (t.kind == Return ==> !BecomesCall(s.bbcc, e, t))
  {
    hide Inv, Pop, TakenAs;
  }

  /** The block entered belongs to the current level, by comparing stack pointers: of the calls
      just below and just above where the level began, one is kept. */
  predicate Stays(s: Shadow, e: Arrival)
    requires s.bottom <= |s.frames|
  {
    if JumpPops(s, e) then
      var m := |s.frames| - 1;
      s.bottom <= m && StaysAt(s.frames[..m], s.bottom, s.frames[m].sp, 0)
    else
      || ReturnUnderflows(s, e)
      || StaysAt(s.frames, s.bottom, e.sp, if TakenAs(s, e).kind == Return then TakenAs(s, e).pops else 0)
  }

  lemma StaysKeeps(s: Shadow, e: Arrival)
    requires Inv(s) && s.bottom <= |s.frames|
    ensures Stays(s, e) <==> KeptBy(s, e) >= s.bottom
  {
    hide Inv, FramesOk, Base, TakenAs, StaysAt, Kept, Descending, BecomesCall, ReturnUnderflows, FnsOk;
    InvShape(s);
    if JumpPops(s, e) {
      var m := |s.frames| - 1;
      if s.bottom <= m {
        DescendingPart(s.frames, s.bottom);
        KeptAbove(s.frames[..m], s.frames[m].sp, s.bottom, 0);
      }
    } else {
      KeptAbove(s.frames, e.sp, s.bottom, if TakenAs(s, e).kind == Return then TakenAs(s, e).pops else 0);
    }
  }

  /** Entering a block keeps the levels below exactly if it stays in its own; if not, some
      handlers are gone. */
  lemma SetupStays(s: Shadow, e: Arrival, ret: UWord, skipDirect: bool)
    requires Inv(s) && ArrivalOk(s, e)
    ensures s.bottom <= |s.frames|
    ensures var r := Setup(s, e, ret, skipDirect);
            && (Stays(s, e) ==> !r.Tangled?)
            && (r.Done? ==> (Stays(s, e) <==> SameBelow(s, r.value)) && (!Stays(s, e) ==> |r.value.below| < |s.below|))
  {
    hide Inv, FramesOk, Base, Setup, Stays, Descending, JumpFails;
    InvShape(s);
    SetupIs(s, e, ret, skipDirect);
    StaysKeeps(s, e);
  }

  // ------------------------------------------------------------------ handlers

  /** A signal interrupts the current level. */
  function PreSignal(s: Shadow, sig: int, collectAtStart: bool): (t: Shadow)
    requires Inv(s) && sig > 0
    ensures Inv(t) && t.sig == sig && t.below != [] && t.bottom <= |t.frames| && t.fns != [] && t.fns[0] == Marker
    ensures Interrupted(t) == s
  {
    var t := Shadow(s.frames, None, s.fns + [Marker], s.active, None, collectAtStart, 0, None, None, sig, |s.frames|,
                    s.below + [TopExec(s)]);
    PreLevel(s, t);
    t
  }

  lemma PreLevel(s: Shadow, t: Shadow)
    requires Inv(s) && t.sig > 0
    requires t == Shadow(s.frames, None, s.fns + [Marker], s.active, None, t.collect, 0, None, None, t.sig, |s.frames|,
                         s.below + [TopExec(s)])
    ensures s.fns != [] && s.fns[0] == Marker && Interrupted(t) == s && Inv(t)
  {
    hide Base, Descending, FramesOk, LevelOk;
    InvShape(s);
    BaseIs(t.fns, |t.fns|);
    assert Interrupted(t) == s by {
      assert t.fns[..|s.fns|] == s.fns && t.frames[..|s.frames|] == s.frames;
      assert t.below[..|s.below|] == s.below;
    }
    NewLevel(t);
  }

  lemma NewLevel(t: Shadow)
    requires |t.fns| > 1 && t.fns[0] == Marker && t.fns[|t.fns| - 1] == Marker && t.bottom == |t.frames|
    requires t.saved.None? && t.cxt.None? && t.bbcc.None? && t.nonskipped.None?
    ensures LevelOk(t, |t.fns|)
  {
    assert t.frames[t.bottom..] == [];
  }

  /** Pop the calls of the current level. */
  function PopDown(s: Shadow, skipDirect: bool): (t: Shadow)
    requires Inv(s)
    ensures Inv(t) && SameBelow(s, t) && |t.frames| == s.bottom
    decreases |s.frames|
  {
    hide Inv, LevelOk, SameBelow, FrameOk;
    PopsEntry(s);
    SameBelowSelf(s);
    if |s.frames| == s.bottom then s
    else
      PopEntryKeeps(s, skipDirect);
      var u := PopEntry(s, skipDirect);
      SameBelowTwice(s, u, PopDown(u, skipDirect));
      PopDown(u, skipDirect)
  }

  lemma PopDownStep(s: Shadow, skipDirect: bool)
    requires Inv(s) && s.bottom < |s.frames|
    ensures FrameOk(s.frames[|s.frames| - 1], s.fns, |s.active|)
    ensures var u := PopEntry(s, skipDirect);
            Inv(u) && u.bottom == s.bottom && s.bottom <= |u.frames| && PopDown(s, skipDirect) == PopDown(u, skipDirect)
  {
    hide Inv, SameBelow, FrameOk, PopEntry;
    PopEntryKeeps(s, skipDirect);
    PopsEntry(PopEntry(s, skipDirect));
  }

  lemma PopDownEnd(s: Shadow, skipDirect: bool)
    requires Inv(s) && s.bottom == |s.frames|
    ensures PopDown(s, skipDirect) == s
  {
    hide Inv;
  }

  /** A handler of this signal is said to have ended, which must be the one running. */
  function EndSignal(s: Shadow, sig: int, skipDirect: bool): (r: Outcome<Shadow>)
    requires Inv(s)
    ensures r == AssertionFails <==> s.below == [] || sig != s.sig
    ensures r.Done? || r.AssertionFails?
    ensures r.Done? ==> Inv(r.value) && |r.value.active| == |s.active|
  {
    hide Inv, LevelOk;
    if s.below == [] || sig != s.sig then AssertionFails
    else Done(PostSignal(PopDown(s, skipDirect)))
  }

  /** Whatever a handler does that stays in its level, its end restores what its signal
      interrupted, but for activation counts. */
  lemma HandlerRestores(s: Shadow, m: Shadow, sig: int, collectAtStart: bool, skipDirect: bool)
    requires Inv(s) && sig > 0 && Inv(m) && SameBelow(PreSignal(s, sig, collectAtStart), m)
    ensures var r := EndSignal(m, sig, skipDirect);
            r.Done? && r.value == s.(active := r.value.active) && |r.value.active| == |s.active|
  {
    hide Inv, SameBelow;
    var p := PreSignal(s, sig, collectAtStart);
    var d := PopDown(m, skipDirect);
    SameBelowTwice(p, m, d);
    InterruptedSame(p, d);
    SameShape(p, m);
    SameShape(m, d);
  }

  lemma SameShape(s: Shadow, t: Shadow)
    requires SameBelow(s, t)
    ensures t.below == s.below && t.sig == s.sig && t.bottom == s.bottom && |t.active| == |s.active|
  {
  }

  // --------------------------------------------------------------- failing runs

  /** The state before the first block. */
  function Fresh(nFns: nat, collectAtStart: bool): (s: Shadow)
    ensures Inv(s) && |s.active| == nFns && s.below == []
  {
    var s := Shadow([], None, [Marker], seq(nFns, _ => 0), None, collectAtStart, 0, None, None, 0, 0, []);
    assert s.frames[0..] == [];
    s
  }

  /** The first block of a thread or handler opens a context. */
  lemma SetupFirst(s: Shadow, e: Arrival, ret: UWord, skipDirect: bool)
    requires Inv(s) && ArrivalOk(s, e) && s.cxt.None? && s.bbcc.None?
             && (s.frames == [] || s.frames[|s.frames| - 1].sp >= e.sp)
    requires s.fns != [] && s.fns[|s.fns| - 1].Marker? && s.saved == None && e.bb.fn.group <= 0
             && e.bb.fn.recursions <= 1
    ensures var w := PushCxt(s, e.bb.fn);
            w.cxt.Some? && Setup(s, e, ret, skipDirect) == Done(w.(bbcc := Some(Bbcc(e.bb, w.cxt.value, 0)), jmps := 0))
  {
    hide Inv, GetCxt, PushCxt, TakenAs, Unwound, Converted, Entered, BecomesCall, ArrivalOk;
    FirstTaken(s, e);
    ConvertedNone(s, e, skipDirect);
    UnwoundFirst(s, e, ret, skipDirect);
    EnteredFirst(s, e, ret, skipDirect);
  }

  lemma UnwoundFirst(s: Shadow, e: Arrival, ret: UWord, skipDirect: bool)
    requires Inv(s) && ArrivalOk(s, e) && (s.frames == [] || s.frames[|s.frames| - 1].sp >= e.sp)
    ensures Unwound(s, e, Taken(FallThrough, 1, false), false, e.sp, ret, skipDirect) == Done((s, NoCall))
  {
    hide Inv, Unwind, ArrivalOk;
    UnwindNone(s, e.sp, skipDirect);
  }

  lemma EnteredFirst(s: Shadow, e: Arrival, ret: UWord, skipDirect: bool)
    requires Inv(s) && ArrivalOk(s, e) && s.cxt.None?
    requires s.fns != [] && s.fns[|s.fns| - 1].Marker? && s.saved == None && e.bb.fn.group <= 0
             && e.bb.fn.recursions <= 1
    ensures var w := PushCxt(s, e.bb.fn);
            w.cxt.Some? && Entered(s, e, NoCall, s.jmps, ret, skipDirect)
                           == Done(w.(bbcc := Some(Bbcc(e.bb, w.cxt.value, 0)), jmps := 0))
  {
    hide Inv, GetCxt, PushCxt;
  }

  lemma FirstTaken(s: Shadow, e: Arrival)
    requires s.bbcc.None?
    ensures TakenAs(s, e) == Taken(FallThrough, 1, false) && !BecomesCall(s.bbcc, e, TakenAs(s, e))
  {
  }

  lemma ConvertedNone(s: Shadow, e: Arrival, skipDirect: bool)
    requires Inv(s) && s.bbcc.None?
    ensures Converted(s, e, TakenAs(s, e), skipDirect) == Done((s, e.sp, s.jmps))
  {
    hide Inv, TakenAs;
  }

  lemma UnwindNone(s: Shadow, sp: UWord, skipDirect: bool)
    requires Inv(s) && (s.frames == [] || s.frames[|s.frames| - 1].sp >= sp)
    ensures Unwind(s, sp, 0, skipDirect) == Done((s, 0))
  {
    hide Inv, Pop;
  }

  /** A call to a skipped function, with nothing to unwind. */
  lemma SetupSkipped(s: Shadow, e: Arrival, ret: UWord, skipDirect: bool)
    requires Inv(s) && ArrivalOk(s, e) && s.cxt.Some? && s.bbcc.Some? && s.frames == []
    requires e.kind == CallJump && e.bb.fn.skip && s.fns != [] && s.fns[|s.fns| - 1].Of?
    ensures var r := Setup(s, e, ret, skipDirect);
            r.Done? && r.value.fns == s.fns && r.value.frames == [Frame(None, e.sp, ret, s.nonskipped, s.saved)]
  {
    hide Inv, Levelled;
    PopsEntry(s);
  }

  /** A return that leaves the only function there is. */
  lemma SetupUnderflowed(s: Shadow, e: Arrival, ret: UWord, skipDirect: bool)
    requires Inv(s) && ArrivalOk(s, e) && s.bbcc.Some? && s.frames != [] && s.frames[|s.frames| - 1].sp < e.sp
    requires e.kind == Return && Underflows(s) && e.bb.fn.group <= 0
    ensures var r := Setup(s, e, ret, skipDirect);
            r.Done? && r.value.frames == s.frames && r.value.nonskipped.None? && r.value.bbcc.Some?
              && r.value.bbcc.value.bb == e.bb
  {
    hide Inv, Levelled, Underflows, PushCxt, PushCall, InContext, Forced;
    PopsEntry(s);
    assert TakenAs(s, e) == Taken(Return, 1, false);
    UnderflowReady(s, e);
    UnderflowKeeps(s, e, ret, skipDirect);
  }

  /** An assertion of the code fails outside signal handlers: fall into F, which is left by jumps;
      call G, which is skipped, at stack pointer 100; return with the stack pointer at 108; jump
      to the beginning of H. */
  lemma SkippedLeft(ret: UWord, skipDirect: bool) returns (e1: Arrival, e2: Arrival, e3: Arrival, e4: Arrival)
    ensures var s := Fresh(3, true);
            && ArrivalOk(s, e1) && var r1 := Setup(s, e1, ret, skipDirect);
            && r1.Done? && ArrivalOk(r1.value, e2) && var r2 := Setup(r1.value, e2, ret, skipDirect);
            && r2.Done? && ArrivalOk(r2.value, e3) && var r3 := Setup(r2.value, e3, ret, skipDirect);
            && r3.Done? && ArrivalOk(r3.value, e4) && Setup(r3.value, e4, ret, skipDirect) == AssertionFails
  {
    hide Inv, Setup;
    var f, g, h := Fn(0, 0, 0, 1, false, false, true), Fn(1, 0, 0, 1, false, true, false),
      Fn(2, 0, 0, 1, false, false, false);
    var source := Bbcc(Bb(7, f, false, 0, 0, 0), Cxt([f]), 0);
    e1 := Arrival(Bb(8, f, true, 0, 0, 0), 104, FallThrough, source);
    e2 := Arrival(Bb(32, g, true, 0, 0, 0), 100, CallJump, source);
    e3 := Arrival(Bb(16, f, false, 0, 0, 0), 108, Return, source);
    e4 := Arrival(Bb(64, h, true, 0, 0, 0), 108, Jump, source);
    var s := Fresh(3, true);
    SetupFirst(s, e1, ret, skipDirect);
    var s1 := Setup(s, e1, ret, skipDirect).value;
    PopsEntry(s1);
    SetupSkipped(s1, e2, ret, skipDirect);
    var s2 := Setup(s1, e2, ret, skipDirect).value;
    assert s2.fns == [Marker, Of(f)];
    SetupUnderflowed(s2, e3, ret, skipDirect);
    var s3 := Setup(s2, e3, ret, skipDirect).value;
    assert JumpFails(s3, e4);
    SetupIs(s3, e4, ret, skipDirect);
  }

  /** A thread that begins with a function of a group looks up the group of a missing function. */
  lemma FirstGrouped(e: Arrival, ret: UWord, nFns: nat, skipDirect: bool)
    requires e.bb.fn.group > 0 && ArrivalOk(Fresh(nFns, true), e)
    ensures Setup(Fresh(nFns, true), e, ret, skipDirect) == NullFunction
  {
    hide Inv, Setup;
    var s := Fresh(nFns, true);
    assert TakenAs(s, e).kind == FallThrough;
    NoneLeft(s, KeptBy(s, e));
    SetupIs(s, e, ret, skipDirect);
  }

  /** The levels with the one that a signal interrupts last. */
  function Levels(s: Shadow): (l: seq<Exec>)
    ensures l != [] && l[|l| - 1] == TopExec(s)
  {
    s.below + [TopExec(s)]
  }

  /** The first block of a handler stays in it exactly if the innermost call interrupted is not
      below its stack pointer.  If it is, as for a handler on a stack above, the handler is taken to
      have ended at its very beginning, perhaps with others below it.  Then its real end is refused
      exactly if the level reached is the thread's own or handles another signal. */
  lemma FirstBlockStays(s: Shadow, sig: int, e: Arrival, ret: UWord, collectAtStart: bool, skipDirect: bool)
    requires Inv(s) && sig > 0 && ArrivalOk(s, e)
    ensures var p := PreSignal(s, sig, collectAtStart); ArrivalOk(p, e)
    ensures Stays(PreSignal(s, sig, collectAtStart), e) <==> s.frames == [] || s.frames[|s.frames| - 1].sp >= e.sp
    ensures !Stays(PreSignal(s, sig, collectAtStart), e) ==>
              var r := Setup(PreSignal(s, sig, collectAtStart), e, ret, skipDirect);
              var k := Kept(s.frames, e.sp, 0);
              var l := LevelsLeft(Levels(s), |s.frames|, k);
              && (r.Tangled? <==> SharedBottom(Levels(s), |s.frames|, k))
              && (!r.Tangled? ==>
                    && r.Done? && r.value.below == l && |l| < |Levels(s)|
                    && (EndSignal(r.value, sig, skipDirect) == AssertionFails <==>
                      l == [] || Levels(s)[|l|].sig != sig))
  {
    hide Inv, Setup, SharedBottom, LevelsLeft, Kept;
    var p := PreSignal(s, sig, collectAtStart);
    assert p.frames == s.frames && p.below == Levels(s) && p.bottom == |s.frames|;
    assert TakenAs(p, e) == Taken(FallThrough, 1, false);
    SetupIs(p, e, ret, skipDirect);
    StaysKeeps(p, e);
    assert KeptBy(p, e) == Kept(s.frames, e.sp, 0);
  }

  /** A signal of the thread's own level: the real end of such a handler is always refused. */
  lemma FirstBlockOfMain(s: Shadow, sig: int, e: Arrival, ret: UWord, collectAtStart: bool, skipDirect: bool)
    requires Inv(s) && sig > 0 && ArrivalOk(s, e) && s.below == [] && !Stays(PreSignal(s, sig, collectAtStart), e)
    ensures var r := Setup(PreSignal(s, sig, collectAtStart), e, ret, skipDirect);
            r.Done? && r.value.below == [] && EndSignal(r.value, sig, skipDirect) == AssertionFails
  {
    hide Inv, Setup, Kept;
    InvShape(s);
    FirstBlockStays(s, sig, e, ret, collectAtStart, skipDirect);
  }

  /** Once the handler is left, what is unwound is what would have been without it. */
  lemma UnwindThrough(s: Shadow, sig: int, sp: UWord, collectAtStart: bool, skipDirect: bool)
    requires Inv(s) && sig > 0 && s.frames != [] && s.frames[|s.frames| - 1].sp < sp && !AtBottom(s)
    ensures Unwind(PreSignal(s, sig, collectAtStart), sp, 0, skipDirect) == Unwind(s, sp, 0, skipDirect)
  {
    hide Inv, Pop;
    PopThrough(s, sig, collectAtStart, skipDirect);
  }

  lemma PopThrough(s: Shadow, sig: int, collectAtStart: bool, skipDirect: bool)
    requires Inv(s) && sig > 0 && s.frames != [] && !AtBottom(s)
    ensures PreSignal(s, sig, collectAtStart).frames == s.frames
    ensures Pop(PreSignal(s, sig, collectAtStart), skipDirect) == Pop(s, skipDirect)
  {
    hide Inv, PopEntry, FrameOk;
    var p := PreSignal(s, sig, collectAtStart);
    assert PostSignal(p) == s by {
      assert p.cxt.None?;
      assert PostSignal(p).active == s.active;
    }
  }

  /** The first block of a level is entered in the level that unwinding reaches. */
  lemma FirstUnwound(p: Shadow, e: Arrival, ret: UWord, skipDirect: bool)
    requires Inv(p) && ArrivalOk(p, e) && p.bbcc.None?
    ensures var (r, w) := (Setup(p, e, ret, skipDirect), Unwind(p, e.sp, 0, skipDirect));
            r.Done? ==> w.Done? && SameBelow(w.value.0, r.value)
  {
    hide Inv, TakenAs, Unwind, Converted, Entered, BecomesCall, ArrivalOk, SameBelow, ReturnUnwound;
    FirstTaken(p, e);
    ConvertedNone(p, e, skipDirect);
  }

  lemma NestedLevels(s: Shadow, k: nat)
    requires s.bottom <= k < |s.frames|
    ensures !SharedBottom(Levels(s), |s.frames|, k) && LevelsLeft(Levels(s), |s.frames|, k) == s.below
    ensures !AtBottom(s)
  {
    assert Levels(s)[..|s.below|] == s.below;
  }

  /** The end of a handler restores what its signal interrupted, whichever handler it is. */
  lemma EndRestores(s: Shadow, t: Shadow, sig: int, skipDirect: bool)
    requires Inv(s) && Inv(t) && SameBelow(s, t) && s.below != [] && s.sig == sig
    ensures s.bottom <= |s.frames| && s.fns != [] && s.fns[0] == Marker
    ensures var v := EndSignal(t, sig, skipDirect); v.Done? && v.value == Interrupted(s).(active := v.value.active)
  {
    hide Inv, SameBelow;
    PopsEntry(s);
    SameShape(s, t);
    var d := PopDown(t, skipDirect);
    SameShape(t, d);
    SameBelowTwice(s, t, d);
    InterruptedSame(s, d);
  }

  /** A handler on a stack above, of the signal that the interrupted level handles: it is left at its
      first block, which goes on in the interrupted handler; so its real end ends that handler, and
      restores what that one had interrupted. */
  lemma NestedEnds(s: Shadow, sig: int, e: Arrival, ret: UWord, collectAtStart: bool, skipDirect: bool)
    requires Inv(s) && sig > 0 && ArrivalOk(s, e) && s.below != [] && s.sig == sig
    requires !Stays(PreSignal(s, sig, collectAtStart), e) && s.bottom <= Kept(s.frames, e.sp, 0)
    ensures s.bottom <= |s.frames| && s.fns != [] && s.fns[0] == Marker
    ensures var r := Setup(PreSignal(s, sig, collectAtStart), e, ret, skipDirect);
            && r.Done? && SameBelow(s, r.value)
            && var v := EndSignal(r.value, sig, skipDirect);
               v.Done? && v.value == Interrupted(s).(active := v.value.active)
  {
    hide Inv, Setup, SharedBottom, LevelsLeft, SameBelow, EndSignal, PreSignal, Stays, ArrivalOk;
    FirstBlockStays(s, sig, e, ret, collectAtStart, skipDirect);
    NestedLevels(s, Kept(s.frames, e.sp, 0));
    var p := PreSignal(s, sig, collectAtStart);
    var r := Setup(p, e, ret, skipDirect).value;
    NoBlockYet(s, sig, collectAtStart);
    FirstUnwound(p, e, ret, skipDirect);
    UnwindThrough(s, sig, e.sp, collectAtStart, skipDirect);
    UnwindIs(s, e.sp, 0, skipDirect);
    SameBelowTwice(s, Unwind(s, e.sp, 0, skipDirect).value.0, r);
    EndRestores(s, r, sig, skipDirect);
  }

  lemma NoBlockYet(s: Shadow, sig: int, collectAtStart: bool)
    requires Inv(s) && sig > 0
    ensures PreSignal(s, sig, collectAtStart).bbcc.None?
  {
    hide Inv;
  }

  /** A call that is not skipped, with nothing to unwind. */
  lemma SetupCalled(s: Shadow, e: Arrival, ret: UWord, skipDirect: bool)
    requires Inv(s) && ArrivalOk(s, e) && s.cxt.Some? && s.bbcc.Some? && e.kind == CallJump
    requires s.frames == [] || s.frames[|s.frames| - 1].sp >= e.sp
    ensures var r := Setup(s, e, ret, skipDirect);
            && r.Done? && SameBelow(s, r.value) && |r.value.frames| == |s.frames| + 1
            && r.value.frames[..|s.frames|] == s.frames && r.value.frames[|s.frames|].sp == e.sp
  {
    hide Inv, Entered, SameBelow, Unwind, PopCount, MatchingReturn;
    PopsEntry(s);
    UnwindNone(s, e.sp, skipDirect);
  }

  /** So it goes for a handler on a stack of its own above that of the thread. */
  lemma AlternateStack(ret: UWord, sig: int, skipDirect: bool) returns (e1: Arrival, e2: Arrival, e3: Arrival)
    requires sig > 0
    ensures var s := Fresh(1, true);
            && ArrivalOk(s, e1) && var r1 := Setup(s, e1, ret, skipDirect);
            && r1.Done? && ArrivalOk(r1.value, e2) && var r2 := Setup(r1.value, e2, ret, skipDirect);
            && r2.Done? && var p := PreSignal(r2.value, sig, true);
            && ArrivalOk(p, e3) && var r3 := Setup(p, e3, ret, skipDirect);
            && r3.Done? && EndSignal(r3.value, sig, skipDirect) == AssertionFails
  {
    hide Inv, Setup;
    var f := Fn(0, 0, 0, 1, false, false, false);
    var source := Bbcc(Bb(7, f, false, 0, 0, 0), Cxt([f]), 0);
    e1 := Arrival(Bb(8, f, true, 0, 0, 0), 104, FallThrough, source);
    e2 := Arrival(Bb(32, f, true, 0, 0, 0), 100, CallJump, source);
    e3 := Arrival(Bb(64, f, true, 0, 0, 0), 1000, FallThrough, source);
    var s := Fresh(1, true);
    SetupFirst(s, e1, ret, skipDirect);
    var s1 := Setup(s, e1, ret, skipDirect).value;
    PopsEntry(s1);
    SetupCalled(s1, e2, ret, skipDirect);
    var s2 := Setup(s1, e2, ret, skipDirect).value;
    SetupIs(s1, e2, ret, skipDirect);
    StillMain(s1, s2, e2, ret, skipDirect);
    FirstBlockOfMain(s2, sig, e3, ret, true, skipDirect);
  }

  /** A handler in a handler of the same signal, on a stack above: entering its first block, and the
      end of it, are taken for the ends of both. */
  lemma NestedStack(ret: UWord, sig: int, skipDirect: bool) returns (s: Shadow, e: Arrival)
    requires sig > 0
    ensures Inv(s) && ArrivalOk(s, e) && |s.below| == 1 && s.sig == sig
    ensures var r := Setup(PreSignal(s, sig, true), e, ret, skipDirect);
            && r.Done? && |r.value.below| == 1
            && var v := EndSignal(r.value, sig, skipDirect); v.Done? && v.value.below == []
  {
    hide Inv, Setup, PreSignal, SameBelow;
    var f := Fn(0, 0, 0, 1, false, false, false);
    var source := Bbcc(Bb(7, f, false, 0, 0, 0), Cxt([f]), 0);
    var e1 := Arrival(Bb(8, f, true, 0, 0, 0), 104, FallThrough, source);
    var e2 := Arrival(Bb(32, f, true, 0, 0, 0), 80, CallJump, source);
    e := Arrival(Bb(64, f, true, 0, 0, 0), 1000, FallThrough, source);
    var p := PreSignal(Fresh(1, true), sig, true);
    PreShape(Fresh(1, true), sig, true);
    SetupFirst(p, e1, ret, skipDirect);
    var s1 := Setup(p, e1, ret, skipDirect).value;
    PopsEntry(s1);
    SetupCalled(s1, e2, ret, skipDirect);
    s := Setup(s1, e2, ret, skipDirect).value;
    SameShape(s1, s);
    FirstBlockStays(s, sig, e, ret, true, skipDirect);
    NestedEnds(s, sig, e, ret, true, skipDirect);
    SameShape(s, Setup(PreSignal(s, sig, true), e, ret, skipDirect).value);
  }

  lemma PreShape(s: Shadow, sig: int, collectAtStart: bool)
    requires Inv(s) && sig > 0
    ensures var p := PreSignal(s, sig, collectAtStart);
            && p.frames == s.frames && p.cxt.None? && p.bbcc.None? && p.fns == s.fns + [Marker] && p.saved == None
            && p.below == s.below + [TopExec(s)] && p.active == s.active && p.bottom == |s.frames|
  {
    hide Inv;
  }

  lemma StillMain(s: Shadow, t: Shadow, e: Arrival, ret: UWord, skipDirect: bool)
    requires Inv(s) && ArrivalOk(s, e) && Setup(s, e, ret, skipDirect) == Done(t) && s.below == []
    ensures t.below == []
  {
    hide Inv, Setup;
    SetupIs(s, e, ret, skipDirect);
  }
}
