/** Threads and signal handlers as values: a thread's shadow stack with the costs of its levels,
    runs of blocks and signals in one thread, and runs in which threads interleave. */
module Threads {
  import opened ShadowStack
  import P = Profile
  import K = Costs

  type Vec = P.Vec

  /** Only this many execution states nest: the thread's own and nine handlers. */
  const MAX_SIGHANDLERS := 10
  const NSIG := 64

  /** A thread: its shadow stack, a cost vector for each level from the outermost, and the costs
      of finished handlers. */
  datatype Thread = Thread(stack: Shadow, costs: seq<Vec>, sigCost: Vec)

  ghost predicate ThreadOk(th: Thread, n: nat) {
    && Inv(th.stack) && |th.costs| == |th.stack.below| + 1 <= MAX_SIGHANDLERS && CostsOk(th.costs, n)
      && |th.sigCost| == n
  }

  ghost predicate CostsOk(costs: seq<Vec>, n: nat) {
    forall i :: 0 <= i < |costs| ==> |costs[i]| == n
  }

  /** The state a level starts in. */
  function FreshExec(collectAtStart: bool, sig: int, bottom: nat): Exec {
    Exec(None, collectAtStart, 0, None, None, sig, bottom)
  }

  /** A thread when it is first seen. */
  function NewThread(n: nat, nFns: nat, collectAtStart: bool): (th: Thread)
    ensures ThreadOk(th, n)
  {
    Thread(Fresh(nFns, collectAtStart), [K.ZeroVec(n)], K.ZeroVec(n))
  }

  /** A signal interrupts the thread. */
  function Pre(th: Thread, sig: int, collectAtStart: bool): (u: Thread)
    requires ThreadOk(th, |th.sigCost|) && sig > 0
  {
    hide Inv;
    th.(stack := PreSignal(th.stack, sig, collectAtStart), costs := th.costs + [K.ZeroVec(|th.sigCost|)])
  }

  /** The costs of finished handlers once the levels from k on have ended, the innermost first. */
  function Summed(costs: seq<Vec>, sigCost: Vec, k: nat): (v: Vec)
    requires CostsOk(costs, |sigCost|)
    ensures |v| == |sigCost|
    decreases |costs|
  {
    if |costs| <= k then sigCost else
    var m := |costs| - 1;
    Summed(costs[..m], P.AddVec(sigCost, costs[m]), k)
  }

  /** sum holds the costs of handlers once the levels above k have ended. */
  ghost predicate Added(th: Thread, sum: Vec, k: nat) {
    CostsOk(th.costs, |th.sigCost|) && sum == Summed(th.costs, th.sigCost, k + 1)
  }

  lemma NoneAdded(th: Thread)
    requires CostsOk(th.costs, |th.sigCost|) && |th.costs| == |th.stack.below| + 1
    ensures Added(th, th.sigCost, |th.stack.below|)
  {
  }

  lemma AddedOne(th: Thread, sum: Vec, k: nat)
    requires Added(th, sum, k) && 0 < k < |th.costs| && |sum| == |th.sigCost| && |th.costs[k]| == |sum|
    ensures Added(th, P.AddVec(sum, th.costs[k]), k - 1)
  {
    hide P.AddVec;
    SummedStep(th.costs, th.sigCost, k);
  }

  lemma VectorLength(th: Thread, k: nat, n: nat)
    requires CostsOk(th.costs, n) && k < |th.costs|
    ensures |th.costs[k]| == n
  {
  }

  lemma {:induction false} SummedStep(costs: seq<Vec>, sigCost: Vec, k: nat)
    requires CostsOk(costs, |sigCost|) && k < |costs|
    ensures Summed(costs, sigCost, k) == P.AddVec(Summed(costs, sigCost, k + 1), costs[k])
    decreases |costs|
  {
    hide P.AddVec;
    var m := |costs| - 1;
    if k < m { SummedStep(costs[..m], P.AddVec(sigCost, costs[m]), k); }
  }

  /** The thread with a new stack, which may have lost levels. */
  function WithStack(th: Thread, s: Shadow, ghost n: nat): (u: Thread)
    requires ThreadOk(th, n) && Inv(s) && |s.below| <= |th.stack.below|
    ensures ThreadOk(u, n) && u.stack == s && u.costs == th.costs[..|s.below| + 1]
  {
    Thread(s, th.costs[..|s.below| + 1], Summed(th.costs, th.sigCost, |s.below| + 1))
  }

  lemma CostLength(th: Thread, n: nat)
    requires ThreadOk(th, n)
    ensures |th.sigCost| == n
  {
  }

  lemma ThreadStack(th: Thread, n: nat)
    requires ThreadOk(th, n)
    ensures Inv(th.stack) && |th.costs| == |th.stack.below| + 1 && CostsOk(th.costs, n) && |th.sigCost| == n
    ensures th.stack.below == [] <==> th.stack.sig == 0
  {
    hide FramesOk, Descending, FnsOk;
  }

  /** The thread once its handler has ended. */
  function Ended(th: Thread, ghost n: nat, skipDirect: bool): (u: Thread)
    requires ThreadOk(th, n) && th.stack.below != []
    ensures ThreadOk(u, n)
  {
    hide Inv, SameBelow;
    SameShape(th.stack, PopDown(th.stack, skipDirect));
    WithStack(th, PostSignal(PopDown(th.stack, skipDirect)), n)
  }

  // ------------------------------------------------------------------- steps

  /** A block is entered; it runs, passing conditional jumps and costing something; a signal is
      delivered; or the end of a handler is reported. */
  datatype Act = Enter(e: Arrival, ret: UWord) | Ran(jmps: nat, spent: Vec) | Signal(sig: int) | End(sig: int)

  ghost predicate ActOk(th: Thread, act: Act) {
    match act
    case Enter(e, _) => ArrivalOk(th.stack, e)
    case Ran(_, spent) => |spent| == |th.sigCost|
    case Signal(_) => true
    case End(_) => true
  }

  ghost predicate SignalOk(th: Thread, sig: int) {
    0 < sig <= NSIG && |th.stack.below| + 1 < MAX_SIGHANDLERS
  }

  /** What becomes of a thread. */
  ghost function Acted(th: Thread, act: Act, n: nat, collectAtStart: bool, skipDirect: bool): (r: Outcome<Thread>)
    requires ThreadOk(th, n) && ActOk(th, act)
    ensures r.Done? ==> ThreadOk(r.value, n) && |r.value.stack.active| == |th.stack.active|
  {
    hide Inv, Setup, CostsOk;
    match act
    case Enter(e, ret) =>
      Shrinks(th.stack, e, ret, skipDirect);
      var r := Setup(th.stack, e, ret, skipDirect);
      if r.Done? then Done(WithStack(th, r.value, n)) else r.PropagateFailure()
    case Ran(jmps, spent) =>
      Done(AfterRun(th, jmps, spent, n))
    case Signal(sig) =>
      if SignalOk(th, sig) then
        PreOk(th, sig, n, collectAtStart);
        Done(Pre(th, sig, collectAtStart))
      else AssertionFails
    case End(sig) =>
      if th.stack.below == [] || sig != th.stack.sig then AssertionFails else Done(Ended(th, n, skipDirect))
  }

  ghost function AfterRun(th: Thread, jmps: nat, spent: Vec, n: nat): (u: Thread)
    requires ThreadOk(th, n) && |spent| == n
    ensures ThreadOk(u, n)
  {
    hide Inv;
    var m := |th.costs| - 1;
    WithJmps(th.stack, jmps);
    th.(stack := th.stack.(jmps := jmps), costs := th.costs[m := P.AddVec(th.costs[m], spent)])
  }

  lemma WithJmps(s: Shadow, jmps: nat)
    requires Inv(s)
    ensures Inv(s.(jmps := jmps)) && SameBelow(s, s.(jmps := jmps))
  {
    hide FramesOk, Descending, FnsOk, Base, SameBelow, Inv;
    InvShape(s);
    LevelKeepsInv(s, s.(jmps := jmps));
  }

  lemma PreOk(th: Thread, sig: int, n: nat, collectAtStart: bool)
    requires ThreadOk(th, n) && SignalOk(th, sig)
    ensures ThreadOk(Pre(th, sig, collectAtStart), n)
            && |Pre(th, sig, collectAtStart).stack.active| == |th.stack.active|
    ensures |Pre(th, sig, collectAtStart).stack.below| == |th.stack.below| + 1
  {
    hide Inv, K.ZeroVec;
  }

  lemma PreIs(th: Thread, sig: int, n: nat, collectAtStart: bool)
    requires ThreadOk(th, n) && sig > 0
    ensures |th.sigCost| == n && Inv(th.stack)
    ensures var u := Pre(th, sig, collectAtStart);
            && u.stack.below == th.stack.below + [TopExec(th.stack)] && u.costs == th.costs + [K.ZeroVec(n)]
              && u.sigCost == th.sigCost
            && TopExec(u.stack) == FreshExec(collectAtStart, sig, |th.stack.frames|)
            && u.stack.frames == th.stack.frames && u.stack.saved == None && u.stack.fns == th.stack.fns + [Marker]
              && u.stack.active == th.stack.active
  {
    hide Inv, K.ZeroVec;
  }

  lemma Shrinks(s: Shadow, e: Arrival, ret: UWord, skipDirect: bool)
    requires Inv(s) && ArrivalOk(s, e)
    ensures var r := Setup(s, e, ret, skipDirect); r.Done? ==> |r.value.below| <= |s.below|
  {
    hide Inv, Setup;
    SetupIs(s, e, ret, skipDirect);
  }

  lemma EndedStack(th: Thread, sig: int, n: nat, skipDirect: bool)
    requires ThreadOk(th, n) && th.stack.below != [] && sig == th.stack.sig
    ensures EndSignal(th.stack, sig, skipDirect) == Done(Ended(th, n, skipDirect).stack)
    ensures Ended(th, n, skipDirect) == WithStack(th, Ended(th, n, skipDirect).stack, n)
    ensures |Ended(th, n, skipDirect).stack.below| == |th.stack.below| - 1
            && |Ended(th, n, skipDirect).stack.active| == |th.stack.active|
  {
    hide Inv, SameBelow;
    SameShape(th.stack, PopDown(th.stack, skipDirect));
  }

  /** Taking a step; no value if the input is not what the code needs, or something goes wrong. */
  ghost function Step(th: Thread, act: Act, n: nat, collectAtStart: bool, skipDirect: bool): (r: Maybe<Thread>)
    requires ThreadOk(th, n)
    ensures r.Some? ==> ThreadOk(r.value, n) && |r.value.stack.active| == |th.stack.active|
  {
    hide Inv, Acted;
    if !ActOk(th, act) then None else
    var u := Acted(th, act, n, collectAtStart, skipDirect);
    if u.Done? then Some(u.value) else None
  }

  /** A signal is accepted if its number is from 1 to 64 and at most eight handlers are running; the
      end of a handler is if it is that of the handler running. */
  lemma SignalsAccepted(th: Thread, sig: int, n: nat, collectAtStart: bool, skipDirect: bool)
    requires ThreadOk(th, n)
    ensures Acted(th, Signal(sig), n, collectAtStart, skipDirect) == AssertionFails
            <==> sig < 1 || sig > 64 || |th.stack.below| > 8
    ensures Acted(th, End(sig), n, collectAtStart, skipDirect) == AssertionFails
            <==> th.stack.below == [] || sig != th.stack.sig
  {
    hide Inv, Setup, CostsOk;
    if SignalOk(th, sig) { PreOk(th, sig, n, collectAtStart); }
  }

  // ---------------------------------------------------------------- handlers

  /** What happens in one thread: blocks and what they cost, and handlers with what happens in
      them. */
  datatype Doing = Nothing | Enters(e: Arrival, ret: UWord, rest: Doing) | Runs(jmps: nat, spent: Vec, rest: Doing)
                 | Handler(sig: int, inner: Doing, rest: Doing)

  /** The thread afterwards. */
  ghost function Do(d: Doing, th: Thread, n: nat, collectAtStart: bool, skipDirect: bool): (r: Maybe<Thread>)
    requires ThreadOk(th, n)
    ensures r.Some? ==> ThreadOk(r.value, n)
    decreases d
  {
    hide ThreadOk, Step;
    match d
    case Nothing => Some(th)
    case Enters(e, ret, rest) =>
      var u := Step(th, Enter(e, ret), n, collectAtStart, skipDirect);
      if u.None? then None else Do(rest, u.value, n, collectAtStart, skipDirect)
    case Runs(jmps, spent, rest) =>
      var u := Step(th, Ran(jmps, spent), n, collectAtStart, skipDirect);
      if u.None? then None else Do(rest, u.value, n, collectAtStart, skipDirect)
    case Handler(sig, inner, rest) =>
      var u := Step(th, Signal(sig), n, collectAtStart, skipDirect);
      if u.None? then None else
      var m := Do(inner, u.value, n, collectAtStart, skipDirect);
      if m.None? then None else
      var v := Step(m.value, End(sig), n, collectAtStart, skipDirect);
      if v.None? then None else Do(rest, v.value, n, collectAtStart, skipDirect)
  }

  ghost predicate StaysIn(th: Thread, e: Arrival) {
    th.stack.bottom <= |th.stack.frames| && Stays(th.stack, e)
  }

  /** Every block entered stays in its level. */
  ghost predicate AllStay(d: Doing, th: Thread, n: nat, collectAtStart: bool, skipDirect: bool)
    requires ThreadOk(th, n)
    decreases d
  {
    hide ThreadOk, Step;
    match d
    case Nothing => true
    case Enters(e, ret, rest) =>
      && StaysIn(th, e)
      && var u := Step(th, Enter(e, ret), n, collectAtStart, skipDirect);
         u.Some? ==> AllStay(rest, u.value, n, collectAtStart, skipDirect)
    case Runs(jmps, spent, rest) =>
      var u := Step(th, Ran(jmps, spent), n, collectAtStart, skipDirect);
      u.Some? ==> AllStay(rest, u.value, n, collectAtStart, skipDirect)
    case Handler(sig, inner, rest) =>
      var u := Step(th, Signal(sig), n, collectAtStart, skipDirect);
      u.Some? ==>
        && AllStay(inner, u.value, n, collectAtStart, skipDirect)
        && var m := Do(inner, u.value, n, collectAtStart, skipDirect);
           m.Some? ==>
             var v := Step(m.value, End(sig), n, collectAtStart, skipDirect);
             v.Some? ==> AllStay(rest, v.value, n, collectAtStart, skipDirect)
  }

  /** The levels below, and what they have cost, are as before, but for activation counts. */
  ghost predicate Within(th: Thread, u: Thread) {
    && SameBelow(th.stack, u.stack) && |th.costs| == |u.costs| == |th.stack.below| + 1 && |u.sigCost| == |th.sigCost|
    && u.costs[..|th.stack.below|] == th.costs[..|th.stack.below|]
  }

  lemma WithinTwice(th: Thread, u: Thread, v: Thread)
    requires Within(th, u) && Within(u, v)
    ensures Within(th, v)
  {
    hide SameBelow;
    SameBelowTwice(th.stack, u.stack, v.stack);
    SameShape(th.stack, u.stack);
  }

  lemma WithinSelf(th: Thread, n: nat)
    requires ThreadOk(th, n)
    ensures Within(th, th)
  {
    hide Inv, SameBelow;
    SameBelowSelf(th.stack);
  }

  lemma EnterWithin(th: Thread, e: Arrival, ret: UWord, n: nat, collectAtStart: bool, skipDirect: bool)
    requires ThreadOk(th, n) && StaysIn(th, e)
    ensures var u := Step(th, Enter(e, ret), n, collectAtStart, skipDirect); u.Some? ==> Within(th, u.value)
  {
    hide Inv, SameBelow, Setup, Stays;
    if ArrivalOk(th.stack, e) {
      SetupStays(th.stack, e, ret, skipDirect);
      var r := Setup(th.stack, e, ret, skipDirect);
      if r.Done? {
        SameShape(th.stack, r.value);
        var m := |th.stack.below|;
        assert th.costs[..m + 1][..m] == th.costs[..m];
      }
    }
  }

  lemma RunWithin(th: Thread, jmps: nat, spent: Vec, n: nat, collectAtStart: bool, skipDirect: bool)
    requires ThreadOk(th, n)
    ensures var u := Step(th, Ran(jmps, spent), n, collectAtStart, skipDirect); u.Some? ==> Within(th, u.value)
  {
    hide Inv, SameBelow;
    WithJmps(th.stack, jmps);
  }

  /** Whatever happens in a handler that stays in it, its end is the end of that handler, and
      restores the thread its signal interrupted: stacks, context, blocks and costs are as they
      were; only activation counts have changed, and the costs of the handler are added to those
      of finished ones. */
  lemma HandlerReturns(th: Thread, m: Thread, sig: int, n: nat, collectAtStart: bool, skipDirect: bool)
    requires ThreadOk(th, n) && SignalOk(th, sig) && ThreadOk(m, n) && Within(Pre(th, sig, collectAtStart), m)
    ensures var r := Acted(m, End(sig), n, collectAtStart, skipDirect);
            && r.Done? && |r.value.stack.active| == |th.stack.active|
            && r.value == th.(stack := th.stack.(active := r.value.stack.active),
              sigCost := P.AddVec(m.sigCost, m.costs[|m.costs| - 1]))
  {
    hide Inv, SameBelow, P.AddVec, K.ZeroVec, EndSignal, PreSignal, Ended;
    var p := Pre(th, sig, collectAtStart);
    PreOk(th, sig, n, collectAtStart);
    SameShape(p.stack, m.stack);
    HandlerRestores(th.stack, m.stack, sig, collectAtStart, skipDirect);
    EndedStack(m, sig, n, skipDirect);
    var k := |th.costs|;
    assert m.costs[..k] == p.costs[..k] == th.costs;
    SummedOnce(m.costs, m.sigCost);
  }

  lemma SummedOnce(costs: seq<Vec>, sigCost: Vec)
    requires CostsOk(costs, |sigCost|) && costs != []
    ensures Summed(costs, sigCost, |costs| - 1) == P.AddVec(sigCost, costs[|costs| - 1])
  {
  }

  lemma ActiveWithin(th: Thread, u: Thread, n: nat)
    requires ThreadOk(th, n) && |u.sigCost| == n && |u.stack.active| == |th.stack.active|
    requires u == th.(stack := th.stack.(active := u.stack.active), sigCost := u.sigCost)
    ensures Within(th, u)
  {
    hide FramesOk, Descending, FnsOk;
  }

  /** In a run in which every block entered stays in its level, however handlers nest, the levels
      below stay as they were, and the end of every handler is that of the handler running. */
  lemma {:induction false} DoWithin(d: Doing, th: Thread, n: nat, collectAtStart: bool, skipDirect: bool)
    requires ThreadOk(th, n) && AllStay(d, th, n, collectAtStart, skipDirect)
    ensures var r := Do(d, th, n, collectAtStart, skipDirect); r.Some? ==> Within(th, r.value)
    decreases d, 0
  {
    hide ThreadOk, Step, Within, StaysIn;
    match d
    case Nothing =>
      WithinSelf(th, n);
    case Enters(e, ret, rest) =>
      EnterWithin(th, e, ret, n, collectAtStart, skipDirect);
      var u := Step(th, Enter(e, ret), n, collectAtStart, skipDirect);
      if u.Some? { ThenWithin(rest, th, u.value, n, collectAtStart, skipDirect); }
    case Runs(jmps, spent, rest) =>
      RunWithin(th, jmps, spent, n, collectAtStart, skipDirect);
      var u := Step(th, Ran(jmps, spent), n, collectAtStart, skipDirect);
      if u.Some? { ThenWithin(rest, th, u.value, n, collectAtStart, skipDirect); }
    case Handler(sig, inner, rest) =>
      var u := Step(th, Signal(sig), n, collectAtStart, skipDirect);
      if u.Some? {
        DoWithin(inner, u.value, n, collectAtStart, skipDirect);
        var m := Do(inner, u.value, n, collectAtStart, skipDirect);
        if m.Some? {
          HandlerWithin(th, m.value, sig, n, collectAtStart, skipDirect);
          var v := Step(m.value, End(sig), n, collectAtStart, skipDirect);
          if v.Some? { ThenWithin(rest, th, v.value, n, collectAtStart, skipDirect); }
        }
      }
  }

  lemma ThenWithin(rest: Doing, th: Thread, u: Thread, n: nat, collectAtStart: bool, skipDirect: bool)
    requires ThreadOk(u, n) && Within(th, u) && AllStay(rest, u, n, collectAtStart, skipDirect)
    ensures var r := Do(rest, u, n, collectAtStart, skipDirect); r.Some? ==> Within(th, r.value)
    decreases rest, 1
  {
    hide ThreadOk, Within, AllStay, Do;
    DoWithin(rest, u, n, collectAtStart, skipDirect);
    var r := Do(rest, u, n, collectAtStart, skipDirect);
    if r.Some? { WithinTwice(th, u, r.value); }
  }

  lemma HandlerWithin(th: Thread, m: Thread, sig: int, n: nat, collectAtStart: bool, skipDirect: bool)
    requires ThreadOk(th, n) && ThreadOk(m, n)
    requires var u := Step(th, Signal(sig), n, collectAtStart, skipDirect); u.Some? && Within(u.value, m)
    ensures var v := Step(m, End(sig), n, collectAtStart, skipDirect); v.Some? && Within(th, v.value)
  {
    hide ThreadOk, Within, Pre, Acted;
    SignalIs(th, sig, n, collectAtStart, skipDirect);
    HandlerReturns(th, m, sig, n, collectAtStart, skipDirect);
    var v := Acted(m, End(sig), n, collectAtStart, skipDirect);
    assert |v.value.sigCost| == n by { CostLength(v.value, n); }
    ActiveWithin(th, v.value, n);
  }

  lemma SignalIs(th: Thread, sig: int, n: nat, collectAtStart: bool, skipDirect: bool)
    requires ThreadOk(th, n) && Step(th, Signal(sig), n, collectAtStart, skipDirect).Some?
    ensures SignalOk(th, sig) && Inv(th.stack) && |th.sigCost| == n && ThreadOk(Pre(th, sig, collectAtStart), n)
    ensures Step(th, Signal(sig), n, collectAtStart, skipDirect) == Some(Pre(th, sig, collectAtStart))
  {
    hide Inv;
    PreOk(th, sig, n, collectAtStart);
  }

  // -------------------------------------------------------------------- runs

  /** A thread acting alone, from its first step. */
  ghost function Alone(acts: seq<Act>, n: nat, nFns: nat, collectAtStart: bool, skipDirect: bool): (r: Maybe<Thread>)
    ensures r.Some? ==> ThreadOk(r.value, n) && |r.value.stack.active| == nFns
  {
    hide ThreadOk, Step;
    if acts == [] then Some(NewThread(n, nFns, collectAtStart)) else
    var before := Alone(acts[..|acts| - 1], n, nFns, collectAtStart, skipDirect);
    if before.None? then None else Step(before.value, acts[|acts| - 1], n, collectAtStart, skipDirect)
  }

  /** In every run, with whatever signals, the recorded stack pointers of a level do not increase
      inward, so unwinding to a stack pointer that stays in the level removes exactly the calls
      recorded below it. */
  lemma RunUnwindsExactly(acts: seq<Act>, n: nat, nFns: nat, sp: UWord, collectAtStart: bool, skipDirect: bool)
    ensures var r := Alone(acts, n, nFns, collectAtStart, skipDirect);
            r.Some? ==> UnwindsExactly(r.value.stack, sp, skipDirect)
  {
    hide Inv, UnwindsExactly;
    var r := Alone(acts, n, nFns, collectAtStart, skipDirect);
    if r.Some? { InvUnwindsExactly(r.value.stack, sp, skipDirect); }
  }

  /** All a thread has cost: its levels, and the handlers that have ended. */
  ghost function Total(th: Thread): (v: Vec)
    requires CostsOk(th.costs, |th.sigCost|)
  {
    Summed(th.costs, th.sigCost, 0)
  }

  /** What its steps have cost. */
  ghost function Spent(acts: seq<Act>, n: nat): (v: Vec)
    requires forall i :: 0 <= i < |acts| && acts[i].Ran? ==> |acts[i].spent| == n
    ensures |v| == n
  {
    if acts == [] then K.ZeroVec(n) else
    var m := |acts| - 1;
    var before := Spent(acts[..m], n);
    if acts[m].Ran? then P.AddVec(before, acts[m].spent) else before
  }

  lemma {:induction false} SummedMore(costs: seq<Vec>, sigCost: Vec, d: Vec)
    requires CostsOk(costs, |sigCost|) && |d| == |sigCost|
    ensures Summed(costs, P.AddVec(sigCost, d), 0) == P.AddVec(Summed(costs, sigCost, 0), d)
    decreases |costs|
  {
    hide P.AddVec;
    if costs != [] {
      var m := |costs| - 1;
      K.VecMove(sigCost, costs[m], d);
      SummedMore(costs[..m], P.AddVec(sigCost, costs[m]), d);
    }
  }

  lemma {:induction false} SummedInParts(costs: seq<Vec>, sigCost: Vec, k: nat)
    requires CostsOk(costs, |sigCost|) && k <= |costs|
    ensures Summed(costs[..k], Summed(costs, sigCost, k), 0) == Summed(costs, sigCost, 0)
    decreases |costs|
  {
    hide P.AddVec;
    if k == |costs| {
      assert costs[..k] == costs;
    } else {
      var m := |costs| - 1;
      assert costs[..m][..k] == costs[..k];
      SummedInParts(costs[..m], P.AddVec(sigCost, costs[m]), k);
    }
  }

  lemma TotalOfRun(th: Thread, jmps: nat, spent: Vec, n: nat)
    requires ThreadOk(th, n) && |spent| == n
    ensures Total(AfterRun(th, jmps, spent, n)) == P.AddVec(Total(th), spent)
  {
    hide Inv, P.AddVec;
    var m := |th.costs| - 1;
    var u := AfterRun(th, jmps, spent, n);
    assert u.costs[..m] == th.costs[..m];
    K.VecMove(th.sigCost, th.costs[m], spent);
    SummedMore(th.costs[..m], P.AddVec(th.sigCost, th.costs[m]), spent);
  }

  lemma TotalOfPre(th: Thread, sig: int, n: nat, collectAtStart: bool)
    requires ThreadOk(th, n) && sig > 0
    ensures CostsOk(Pre(th, sig, collectAtStart).costs, n) && Total(Pre(th, sig, collectAtStart)) == Total(th)
  {
    hide Inv, P.AddVec;
    var u := Pre(th, sig, collectAtStart);
    assert u.costs[..|th.costs|] == th.costs;
    K.VecZero(th.sigCost);
  }

  lemma StepTotal(th: Thread, act: Act, n: nat, collectAtStart: bool, skipDirect: bool)
    requires ThreadOk(th, n)
    ensures var r := Step(th, act, n, collectAtStart, skipDirect);
            r.Some? ==> ActOk(th, act) && Total(r.value) == if act.Ran? then P.AddVec(Total(th), act.spent)
              else Total(th)
  {
    hide Inv, P.AddVec, AfterRun, Pre, Total, Summed, Setup, Ended;
    if ActOk(th, act) {
      match act
      case Enter(e, ret) =>
        Shrinks(th.stack, e, ret, skipDirect);
        var r := Setup(th.stack, e, ret, skipDirect);
        if r.Done? { StackTotal(th, r.value, n); }
      case Ran(jmps, spent) => TotalOfRun(th, jmps, spent, n);
      case Signal(sig) => if SignalOk(th, sig) { TotalOfPre(th, sig, n, collectAtStart); }
      case End(sig) =>
        if th.stack.below != [] && sig == th.stack.sig {
          EndedStack(th, sig, n, skipDirect);
          StackTotal(th, Ended(th, n, skipDirect).stack, n);
        }
    }
  }

  lemma StackTotal(th: Thread, s: Shadow, n: nat)
    requires ThreadOk(th, n) && Inv(s) && |s.below| <= |th.stack.below|
    ensures CostsOk(WithStack(th, s, n).costs, n) && Total(WithStack(th, s, n)) == Total(th)
  {
    hide Inv;
    SummedInParts(th.costs, th.sigCost, |s.below| + 1);
  }

  /** No cost is lost: in every run, what a thread's levels and its finished handlers have cost is
      what its blocks have spent, also when blocks leave handlers without their end. */
  lemma {:induction false} NoCostLost(acts: seq<Act>, n: nat, nFns: nat, collectAtStart: bool, skipDirect: bool)
    ensures var r := Alone(acts, n, nFns, collectAtStart, skipDirect);
            r.Some? ==> && (forall i :: 0 <= i < |acts| && acts[i].Ran? ==> |acts[i].spent| == n)
                        && CostsOk(r.value.costs, |r.value.sigCost|) && Total(r.value) == Spent(acts, n)
  {
    hide Inv, Step, Total, P.AddVec;
    if acts == [] {
      FreshTotal(n, nFns, collectAtStart);
    } else {
      var m := |acts| - 1;
      NoCostLost(acts[..m], n, nFns, collectAtStart, skipDirect);
      var b := Alone(acts[..m], n, nFns, collectAtStart, skipDirect);
      if b.Some? {
        StepTotal(b.value, acts[m], n, collectAtStart, skipDirect);
        if Step(b.value, acts[m], n, collectAtStart, skipDirect).Some? {
          forall i | 0 <= i < |acts| && acts[i].Ran?
            ensures |acts[i].spent| == n
          {
            if i < m { assert acts[i] == acts[..m][i]; }
          }
        }
      }
    }
  }

  lemma FreshTotal(n: nat, nFns: nat, collectAtStart: bool)
    ensures CostsOk(NewThread(n, nFns, collectAtStart).costs, n)
            && Total(NewThread(n, nFns, collectAtStart)) == K.ZeroVec(n)
  {
    hide Inv;
    K.VecZero(K.ZeroVec(n));
    assert Summed([], K.ZeroVec(n), 0) == K.ZeroVec(n);
  }

  // -------------------------------------------------------------- interleaving

  ghost predicate AllOk(threads: map<nat, Thread>, n: nat) {
    forall t :: t in threads ==> ThreadOk(threads[t], n)
  }

  /** A thread as it was left, or new. */
  ghost function Seen(threads: map<nat, Thread>, t: nat, n: nat, nFns: nat, collectAtStart: bool): (th: Thread)
    requires AllOk(threads, n)
    ensures ThreadOk(th, n)
  {
    hide ThreadOk;
    if t in threads then threads[t] else NewThread(n, nFns, collectAtStart)
  }

  lemma MoreOk(threads: map<nat, Thread>, t: nat, th: Thread, n: nat)
    requires AllOk(threads, n) && ThreadOk(th, n)
    ensures AllOk(threads[t := th], n)
  {
    hide ThreadOk;
  }

  /** All threads together: step i is taken by thread who[i]. */
  ghost function Together(who: seq<nat>, acts: seq<Act>, n: nat, nFns: nat, collectAtStart: bool,
          skipDirect: bool): (r: Maybe<map<nat, Thread>>)
    requires |who| == |acts|
    ensures r.Some? ==> AllOk(r.value, n)
  {
    hide ThreadOk, Step, AllOk, Seen;
    if acts == [] then
      assert AllOk(map[], n) by { NoneOk(n); }
      Some(map[])
    else
      var m := |acts| - 1;
      var before := Together(who[..m], acts[..m], n, nFns, collectAtStart, skipDirect);
      if before.None? then None else
      var r := Step(Seen(before.value, who[m], n, nFns, collectAtStart), acts[m], n, collectAtStart, skipDirect);
      if r.None? then None else
      MoreOk(before.value, who[m], r.value, n);
      Some(before.value[who[m] := r.value])
  }

  lemma NoneOk(n: nat)
    ensures AllOk(map[], n)
  {
  }

  /** The steps thread t takes. */
  function StepsOf(who: seq<nat>, acts: seq<Act>, t: nat): seq<Act>
    requires |who| == |acts|
  {
    if acts == [] then [] else
    var m := |acts| - 1;
    StepsOf(who[..m], acts[..m], t) + if who[m] == t then [acts[m]] else []
  }

  lemma {:induction false} TogetherPrefix(who: seq<nat>, acts: seq<Act>, i: nat, n: nat, nFns: nat,
          collectAtStart: bool, skipDirect: bool)
    requires i <= |who| == |acts| && Together(who, acts, n, nFns, collectAtStart, skipDirect).Some?
    ensures Together(who[..i], acts[..i], n, nFns, collectAtStart, skipDirect).Some?
  {
    hide ThreadOk, Step;
    if i == |acts| {
      assert who[..i] == who && acts[..i] == acts;
    } else {
      var m := |acts| - 1;
      TogetherPrefix(who[..m], acts[..m], i, n, nFns, collectAtStart, skipDirect);
      assert who[..m][..i] == who[..i] && acts[..m][..i] == acts[..i];
    }
  }

  /** However threads interleave, each is as if it had taken its steps alone. */
  lemma {:induction false} EachAsIfAlone(who: seq<nat>, acts: seq<Act>, t: nat, n: nat, nFns: nat,
          collectAtStart: bool, skipDirect: bool)
    requires |who| == |acts|
    ensures var r := Together(who, acts, n, nFns, collectAtStart, skipDirect);
            r.Some? ==> Alone(StepsOf(who, acts, t), n, nFns, collectAtStart, skipDirect)
                        == Some(Seen(r.value, t, n, nFns, collectAtStart))
  {
    hide Step, NewThread, ThreadOk, AllOk;
    if acts != [] {
      var m := |acts| - 1;
      EachAsIfAlone(who[..m], acts[..m], t, n, nFns, collectAtStart, skipDirect);
      var h := StepsOf(who[..m], acts[..m], t);
      if who[m] == t {
        assert StepsOf(who, acts, t) == h + [acts[m]];
        assert (h + [acts[m]])[..|h|] == h;
      } else {
        assert StepsOf(who, acts, t) == h;
      }
    }
  }
}
