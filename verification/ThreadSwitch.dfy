/** The profiler's globals: one live execution state, call stack and function stack, saved
    and loaded field by field when threads switch and when signals come and go. */
module ThreadSwitch {
  import opened ShadowStack
  import opened Threads
  import P = Profile
  import K = Costs

  type Counters = array<P.ULong>

  /** A saved execution state; its cost vector is the one the simulators add to. */
  class ExecState {
    var cxt: Maybe<Cxt>
    var collect: bool
    var jmps_passed: nat
    var bbcc: Maybe<Bbcc>
    var nonskipped: Maybe<Bbcc>
    var sig: int
    var call_stack_bottom: nat
    const cost: Counters

    constructor (n: nat, sigNum: int, collectAtStart: bool)
      ensures Value() == FreshExec(collectAtStart, sigNum, 0) && fresh(cost) && cost[..] == K.ZeroVec(n)
    {
      cxt, collect, jmps_passed, bbcc, nonskipped := None, collectAtStart, 0, None, None;
      sig, call_stack_bottom := sigNum, 0;
      cost := new P.ULong[n](_ => 0);
      new;
      assert cost[..] == K.ZeroVec(n);
    }

    /** A handler starts at this height of the call stack, with no costs. */
    method StartAt(bottom: nat)
      modifies `call_stack_bottom, cost
      ensures call_stack_bottom == bottom && cost[..] == K.ZeroVec(cost.Length)
    {
      K.ZeroCost(cost);
      call_stack_bottom := bottom;
    }

    ghost function Value(): Exec
      reads this
    {
      Exec(cxt, collect, jmps_passed, bbcc, nonskipped, sig, call_stack_bottom)
    }
  }

  datatype ExecStack = ExecStack(sp: nat, entry: seq<ExecState?>)
  datatype CallsOf = CallsOf(frames: seq<Frame>, saved: Maybe<Saved>)

  /** What a thread leaves behind while others run. */
  class ThreadInfo {
    var states: ExecStack
    var calls: CallsOf
    var fns: seq<Slot>
    var fn_active: seq<UInt>
    const sighandler_cost: Counters

    constructor (n: nat, nFns: nat, collectAtStart: bool)
      ensures states.sp == 0 && |states.entry| == MAX_SIGHANDLERS
      ensures states.entry[0] != null && fresh(states.entry[0]) && fresh(states.entry[0].cost)
      ensures forall i :: 1 <= i < MAX_SIGHANDLERS ==> states.entry[i] == null
      ensures states.entry[0].Value() == FreshExec(collectAtStart, 0, 0) && states.entry[0].cost[..] == K.ZeroVec(n)
      ensures calls == CallsOf([], None) && fns == [Marker] && fn_active == seq(nFns, _ => 0)
      ensures fresh(sighandler_cost) && sighandler_cost[..] == K.ZeroVec(n) && sighandler_cost != states.entry[0].cost
    {
      var main := new ExecState(n, 0, collectAtStart);
      states := ExecStack(0, seq(MAX_SIGHANDLERS, i => if i == 0 then main else null));
      calls, fns, fn_active := CallsOf([], None), [Marker], seq(nFns, _ => 0);
      sighandler_cost := new P.ULong[n](_ => 0);
      new;
      assert sighandler_cost[..] == K.ZeroVec(n);
    }
  }

  /** Whose an object is: a thread's execution state by level, its cost vector, the vector of
      handler costs, or the record. */
  datatype Role = State(level: nat) | Cost(level: nat) | HandlerCost | Record
  type Owners = map<object, (nat, Role)>

  ghost predicate OwnsState(owners: Owners, tid: nat, level: nat, es: ExecState, n: nat) {
    && es in owners && owners[es] == (tid, State(level))
    && es.cost in owners && owners[es.cost] == (tid, Cost(level)) && es.cost.Length == n
  }

  ghost predicate OwnsRecord(owners: Owners, tid: nat, ti: ThreadInfo, n: nat) {
    && ti in owners && owners[ti] == (tid, Record)
    && ti.sighandler_cost in owners && owners[ti.sighandler_cost] == (tid, HandlerCost)
      && ti.sighandler_cost.Length == n
  }

  ghost function Mine(owners: Owners, tid: nat): set<object> {
    set o | o in owners && owners[o].0 == tid
  }

  /** A stack of execution states holds the interrupted states and all cost vectors. */
  ghost predicate HasStates(owners: Owners, tid: nat, s: ExecStack, below: seq<Exec>, costs: seq<Vec>, n: nat)
    reads Mine(owners, tid)
  {
    && |s.entry| == MAX_SIGHANDLERS && s.sp < MAX_SIGHANDLERS && |below| == s.sp && |costs| == s.sp + 1
    && (forall i :: 0 <= i <= s.sp ==> s.entry[i] != null)
    && (forall i :: 0 <= i < |s.entry| && s.entry[i] != null ==> OwnsState(owners, tid, i, s.entry[i], n))
    && (forall i :: 0 <= i < s.sp ==> s.entry[i].Value() == below[i])
    && (forall i :: 0 <= i <= s.sp ==> s.entry[i].cost[..] == costs[i])
  }

  /** The record of a thread that is not running holds all of it. */
  ghost predicate Holds(owners: Owners, tid: nat, ti: ThreadInfo, th: Thread, n: nat)
    reads Mine(owners, tid)
  {
    && OwnsRecord(owners, tid, ti, n) && ti.sighandler_cost[..] == th.sigCost
    && HasStates(owners, tid, ti.states, th.stack.below, th.costs, n)
      && ti.states.entry[ti.states.sp].Value() == TopExec(th.stack)
    && ti.calls == CallsOf(th.stack.frames, th.stack.saved) && ti.fns == th.stack.fns && ti.fn_active == th.stack.active
  }

  lemma HoldsMore(owners: Owners, more: Owners, tid: nat, ti: ThreadInfo, th: Thread, n: nat)
    requires Holds(owners, tid, ti, th, n) && Extends(more, owners)
    ensures Holds(more, tid, ti, th, n)
  {
  }

  lemma NewHolds(owners: Owners, tid: nat, ti: ThreadInfo, n: nat, nFns: nat, collectAtStart: bool)
    requires OwnsRecord(owners, tid, ti, n) && ti.states.sp == 0 && |ti.states.entry| == MAX_SIGHANDLERS
    requires ti.states.entry[0] != null && OwnsState(owners, tid, 0, ti.states.entry[0], n)
    requires forall i :: 1 <= i < MAX_SIGHANDLERS ==> ti.states.entry[i] == null
    requires ti.states.entry[0].Value() == FreshExec(collectAtStart, 0, 0)
             && ti.states.entry[0].cost[..] == K.ZeroVec(n)
    requires ti.calls == CallsOf([], None) && ti.fns == [Marker] && ti.fn_active == seq(nFns, _ => 0)
    requires ti.sighandler_cost[..] == K.ZeroVec(n)
    ensures Holds(owners, tid, ti, NewThread(n, nFns, collectAtStart), n)
  {
  }

  lemma OneMore(owners: Owners, tid: nat, s: ExecStack, below: seq<Exec>, top: Exec, costs: seq<Vec>, n: nat)
    requires 0 < s.sp < |s.entry| && HasStates(owners, tid, ExecStack(s.sp - 1, s.entry), below, costs, n)
    requires s.entry[s.sp] != null && OwnsState(owners, tid, s.sp, s.entry[s.sp], n)
    requires s.entry[s.sp].cost[..] == K.ZeroVec(n) && s.entry[s.sp - 1].Value() == top
    ensures HasStates(owners, tid, s, below + [top], costs + [K.ZeroVec(n)], n)
  {
  }

  ghost predicate Extends(more: Owners, owners: Owners) {
    forall o :: o in owners ==> o in more && more[o] == owners[o]
  }

  ghost function NotMine(owners: Owners, tid: nat): set<object> {
    set o | o in owners && owners[o].0 != tid
  }

  /** Every thread but cur is in its record; a thread not seen yet has none. */
  ghost predicate Others(owners: Owners, thread: seq<ThreadInfo?>, log: seq<Thread>, cur: nat, n: nat, unseen: Thread)
    requires |thread| == |log|
    reads NotMine(owners, cur)
  {
    forall t :: 0 < t < |thread| && t != cur ==>
      if thread[t] == null then log[t] == unseen else Holds(owners, t, thread[t], log[t], n)
  }

  lemma OthersMore(owners: Owners, more: Owners, thread: seq<ThreadInfo?>, log: seq<Thread>, to: seq<Thread>,
          cur: nat, n: nat, unseen: Thread)
    requires |thread| == |log| == |to| && Others(owners, thread, log, cur, n, unseen) && Extends(more, owners)
    requires forall t :: 0 < t < |log| && t != cur ==> to[t] == log[t]
    ensures Others(more, thread, to, cur, n, unseen)
  {
    forall t | 0 < t < |thread| && t != cur && thread[t] != null
      ensures Holds(more, t, thread[t], to[t], n)
    {
      HoldsMore(owners, more, t, thread[t], log[t], n);
    }
  }

  class Profiler {
    const n: nat
    const nFns: nat
    const collectAtStart: bool
    const skipDirect: bool

    var current_tid: nat
    var thread: seq<ThreadInfo?>

    // the current execution state
    var cxt: Maybe<Cxt>
    var collect: bool
    var jmps_passed: nat
    var bbcc: Maybe<Bbcc>
    var nonskipped: Maybe<Bbcc>
    var sig: int
    var cost: array?<P.ULong>

    // the current stack of execution states, call stack, function stack and activation counts
    var states: ExecStack
    var calls: CallsOf
    var fns: seq<Slot>
    var fn_active: seq<UInt>

    /** What every thread is, whether running or not. */
    ghost var log: seq<Thread>
    ghost var owners: Owners

    function Unseen(): Thread {
      NewThread(n, nFns, collectAtStart)
    }

    /** The shadow stack in the live fields. */
    function Live(below: seq<Exec>, bottom: nat): Shadow
      reads `cxt, `collect, `jmps_passed, `bbcc, `nonskipped, `sig, `calls, `fns, `fn_active
    {
      Shadow(calls.frames, calls.saved, fns, fn_active, cxt, collect, jmps_passed, bbcc, nonskipped, sig, bottom, below)
    }

    /** The live fields, with the record's handler costs, are this thread. */
    ghost predicate Lives(tid: nat, ti: ThreadInfo, th: Thread)
      reads `cxt, `collect, `jmps_passed, `bbcc, `nonskipped, `sig, `cost, `states, `calls, `fns, `fn_active,
        `owners, Mine(owners, tid)
    {
      && OwnsRecord(owners, tid, ti, n) && ti.sighandler_cost[..] == th.sigCost
      && HasStates(owners, tid, states, th.stack.below, th.costs, n)
      && var es := states.entry[states.sp];
      && cost == es.cost && es.sig == sig
      && Live(th.stack.below, es.call_stack_bottom) == th.stack
    }

    /** Every thread is as the log says, if cur is the one running (0 for none). */
    ghost predicate Shows(cur: nat)
      reads `cxt, `collect, `jmps_passed, `bbcc, `nonskipped, `sig, `cost, `states, `calls, `fns, `fn_active
      reads `thread, `log, `owners, owners.Keys
    {
      && this !in owners && cur < |thread| == |log|
      && (forall t :: 0 < t < |thread| ==> ThreadOk(log[t], n))
      && Others(owners, thread, log, cur, n, Unseen())
      && (cur != 0 ==> thread[cur] != null && Lives(cur, thread[cur], log[cur]))
    }

    ghost predicate Valid()
      reads this, owners.Keys
    {
      Shows(current_tid)
    }

    constructor (n: nat, nFns: nat, collectAtStart: bool, skipDirect: bool, nThreads: nat)
      requires nThreads > 0
      ensures Valid() && current_tid == 0 && |thread| == nThreads && owners == map[]
      ensures this.n == n && this.nFns == nFns && this.collectAtStart == collectAtStart && this.skipDirect == skipDirect
      ensures |log| == nThreads && forall t :: 0 < t < nThreads ==> log[t] == Unseen()
    {
      this.n, this.nFns, this.collectAtStart, this.skipDirect := n, nFns, collectAtStart, skipDirect;
      current_tid, thread := 0, seq(nThreads, _ => null);
      cxt, collect, jmps_passed, bbcc, nonskipped, sig, cost := None, collectAtStart, 0, None, None, 0, null;
      states, calls, fns, fn_active := ExecStack(0, []), CallsOf([], None), [], [];
      log := seq(nThreads, _ => NewThread(n, nFns, collectAtStart));
      owners := map[];
    }

    lemma Running()
      requires Valid() && current_tid != 0
      ensures thread[current_tid] != null && OwnsRecord(owners, current_tid, thread[current_tid], n)
      ensures states.sp < |states.entry| && states.entry[states.sp] != null
      ensures OwnsState(owners, current_tid, states.sp, states.entry[states.sp], n)
              && cost == states.entry[states.sp].cost
      ensures allocated(owners) && allocated(NotMine(owners, current_tid)) && allocated(thread)
    {
    }

    /** The current state goes to the top of the stack of execution states. */
    method ExecStateSave()
      requires Valid() && current_tid != 0
      modifies states.entry[states.sp]
      ensures Valid() && states.entry[states.sp].Value() == TopExec(log[current_tid].stack)
    {
      hide ThreadOk, Others;
      Running();
      var es := states.entry[states.sp];
      es.cxt, es.collect, es.jmps_passed, es.bbcc, es.nonskipped := cxt, collect, jmps_passed, bbcc, nonskipped;
      assert es.cost == cost && es.sig == sig;
    }

    /** The top of the stack of execution states becomes the current state. */
    method ExecStateRestore()
      requires states.sp < |states.entry| && states.entry[states.sp] != null
      modifies `cxt, `collect, `jmps_passed, `bbcc, `nonskipped, `cost, `sig
      ensures Exec(cxt, collect, jmps_passed, bbcc, nonskipped, sig, states.entry[states.sp].call_stack_bottom)
              == states.entry[states.sp].Value()
      ensures cost == states.entry[states.sp].cost
    {
      var es := states.entry[states.sp];
      cxt, collect, jmps_passed, bbcc, nonskipped := es.cxt, es.collect, es.jmps_passed, es.bbcc, es.nonskipped;
      cost, sig := es.cost, es.sig;
    }

    /** Leave the current thread: its record holds all of it. */
    method SaveThread()
      requires Valid() && current_tid != 0
      modifies thread[current_tid], states.entry[states.sp]
      ensures Shows(0)
    {
      Running();
      ExecStateSave();
      CopyCurrent();
    }

    method CopyCurrent()
      requires Valid() && current_tid != 0 && states.entry[states.sp].Value() == TopExec(log[current_tid].stack)
      modifies thread[current_tid]
      ensures Shows(0)
    {
      hide ThreadOk;
      Running();
      var t := thread[current_tid];
      t.states, t.calls, t.fns, t.fn_active := states, calls, fns, fn_active;
      assert Others(owners, thread, log, current_tid, n, Unseen());
      assert Holds(owners, current_tid, t, log[current_tid], n);
    }

    /** A thread seen for the first time gets a record. */
    method NewRecord(tid: nat)
      requires Shows(0) && 0 < tid < |thread| && thread[tid] == null
      modifies `thread, `owners
      ensures Shows(0) && |thread| == old(|thread|) && thread[tid] != null
      ensures forall o :: o in owners ==> o in old(owners) || fresh(o)
    {
      hide ThreadOk, Holds;
      var ti := new ThreadInfo(n, nFns, collectAtStart);
      thread := thread[tid := ti];
      var es := ti.states.entry[0];
      owners := owners[ti := (tid, Record)][ti.sighandler_cost := (tid, HandlerCost)]
                [es := (tid, State(0))][es.cost := (tid, Cost(0))];
      NewHolds(owners, tid, ti, n, nFns, collectAtStart);
      assert old(allocated(NotMine(owners, 0)));
      OthersMore(old(owners), owners, old(thread), log, log, 0, n, Unseen());
    }

    method SetStacks(t: ThreadInfo)
      modifies `states, `calls, `fns, `fn_active
      ensures states == t.states && calls == t.calls && fns == t.fns && fn_active == t.fn_active
    {
      states, calls, fns, fn_active := t.states, t.calls, t.fns, t.fn_active;
    }

    /** Enter a thread: the globals take over what its record holds. */
    method LoadThread(tid: nat)
      requires Shows(0) && 0 < tid < |thread| && thread[tid] != null
      modifies `cxt, `collect, `jmps_passed, `bbcc, `nonskipped, `cost, `sig, `states, `calls, `fns, `fn_active
      ensures Shows(tid)
    {
      hide ThreadOk;
      var t := thread[tid];
      assert Holds(owners, tid, t, log[tid], n);
      assert Others(owners, thread, log, tid, n, Unseen());
      SetStacks(t);
      ExecStateRestore();
    }

    /** Switching threads changes no thread. */
    method SwitchThread(tid: nat)
      requires Valid() && tid < |thread|
      modifies this, owners.Keys
      ensures Valid() && current_tid == tid && log == old(log) && |thread| == old(|thread|)
      ensures tid == 0 || old(thread[tid]) != null ==> thread == old(thread)
      ensures forall o :: o in owners ==> o in old(owners) || fresh(o)
    {
      hide Others, HasStates, ThreadOk, NewThread, Profiler.Lives;
      if tid == current_tid { return; }
      if current_tid != 0 {
        Running();
        SaveThread();
      }
      current_tid := tid;
      if tid != 0 {
        if thread[tid] == null { NewRecord(tid); }
        LoadThread(tid);
      }
    }

    /** The running thread has become u. */
    ghost method Become(u: Thread)
      requires this !in owners && 0 < current_tid < |thread| == |log| && thread[current_tid] != null
      requires (forall t :: 0 < t < |thread| ==> ThreadOk(log[t], n))
               && Others(owners, thread, log, current_tid, n, Unseen())
      requires ThreadOk(u, n) && Lives(current_tid, thread[current_tid], u)
      modifies `log
      ensures Valid() && log == old(log)[current_tid := u]
    {
      hide ThreadOk, Others, HasStates, OwnsRecord;
      assert allocated(owners) && allocated(NotMine(owners, current_tid)) && allocated(thread)
        && allocated(Mine(owners, current_tid));
      ghost var logged := log;
      log := log[current_tid := u];
      OthersMore(owners, owners, thread, logged, log, current_tid, n, Unseen());
    }

    /** A free execution state for a handler, at the next level: a new one, or one an earlier
        handler used. */
    method PushExecState(sigNum: int) returns (es: ExecState)
      requires Valid() && current_tid != 0 && 0 < sigNum <= NSIG && states.sp + 1 < MAX_SIGHANDLERS
      modifies `states, `owners
      modifies if |states.entry| <= states.sp + 1 || states.entry[states.sp + 1] == null then {}
        else {states.entry[states.sp + 1]}
      ensures |states.entry| == MAX_SIGHANDLERS == |old(states.entry)|
              && states.sp == old(states.sp) + 1 < MAX_SIGHANDLERS
      ensures states.entry == old(states.entry)[states.sp := es]
      ensures es.sig == sigNum && Pushed(es)
      ensures Extends(owners, old(owners)) && forall o :: o in owners ==> o in old(owners) || fresh(o)
      ensures (old(es in owners) && old(es.cost in owners)) || (fresh(es) && fresh(es.cost))
      ensures HasStates(owners, current_tid, ExecStack(states.sp - 1, states.entry), log[current_tid].stack.below,
              log[current_tid].costs, n)
      ensures states.entry[states.sp - 1].Value() == old(states.entry[states.sp].Value())
    {
      hide ThreadOk, Others;
      Running();
      var top := states.sp + 1;
      var e := states.entry[top];
      if e == null {
        es := new ExecState(n, sigNum, collectAtStart);
        owners := owners[es := (current_tid, State(top))][es.cost := (current_tid, Cost(top))];
        states := ExecStack(top, states.entry[top := es]);
        OthersMore(old(owners), owners, thread, log, log, current_tid, n, Unseen());
      } else {
        es := e;
        es.sig := sigNum;
        states := ExecStack(top, states.entry);
      }
    }

    /** The globals for a handler: a spontaneous call. */
    method InitCurrent(es: ExecState)
      modifies `cxt, `collect, `jmps_passed, `bbcc, `nonskipped, `cost, `sig, `calls, `fns
      ensures cxt == None && collect == collectAtStart && jmps_passed == 0 && bbcc == None && nonskipped == None
      ensures cost == es.cost && sig == es.sig && calls == old(calls).(saved := None) && fns == old(fns) + [Marker]
    {
      cost := es.cost;
      cxt, collect, jmps_passed, bbcc, nonskipped := None, collectAtStart, 0, None, None;
      sig := es.sig;
      calls, fns := calls.(saved := None), fns + [Marker];
    }

    /** The state of a handler, ready: its costs are zero and it starts at the current call. */
    method PushHandlerState(sigNum: int) returns (es: ExecState)
      requires Valid() && current_tid != 0 && SignalOk(log[current_tid], sigNum)
               && states.entry[states.sp].Value() == TopExec(log[current_tid].stack)
      modifies `states, `owners, owners.Keys
      ensures Pushed(es) && es.sig == sigNum && es.call_stack_bottom == |calls.frames|
      ensures HasStates(owners, current_tid, states,
              log[current_tid].stack.below + [TopExec(log[current_tid].stack)],
                log[current_tid].costs + [K.ZeroVec(n)], n)
      ensures Extends(owners, old(owners)) && forall o :: o in owners ==> o in old(owners) || fresh(o)
    {
      hide Others, ThreadOk, OwnsRecord;
      Running();
      es := PushExecState(sigNum);
      StartHandler(es);
    }

    /** The current thread has one more level, of which nothing is known yet. */
    ghost predicate Pushed(es: ExecState)
      reads this, owners.Keys
    {
      && 0 < current_tid < |thread| == |log| && thread[current_tid] != null && 0 < states.sp < |states.entry|
        && states.entry[states.sp] == es
      && OwnsState(owners, current_tid, states.sp, es, n) && OwnsRecord(owners, current_tid, thread[current_tid], n)
      && thread[current_tid].sighandler_cost[..] == log[current_tid].sigCost
      && Others(owners, thread, log, current_tid, n, Unseen())
    }

    method StartHandler(es: ExecState)
      requires Pushed(es)
      requires HasStates(owners, current_tid, ExecStack(states.sp - 1, states.entry), log[current_tid].stack.below,
               log[current_tid].costs, n)
      requires states.entry[states.sp - 1].Value() == TopExec(log[current_tid].stack)
      modifies es`call_stack_bottom, es.cost
      ensures Pushed(es) && es.call_stack_bottom == |calls.frames|
      ensures HasStates(owners, current_tid, states,
              log[current_tid].stack.below + [TopExec(log[current_tid].stack)],
                log[current_tid].costs + [K.ZeroVec(n)], n)
    {
      hide Others;
      assert allocated(owners) && allocated(NotMine(owners, current_tid)) && allocated(thread);
      es.StartAt(|calls.frames|);
      OneMore(owners, current_tid, states, log[current_tid].stack.below, TopExec(log[current_tid].stack),
        log[current_tid].costs, n);
    }

    /** Make room for a handler above the state it interrupts. */
    method EnterHandler(sigNum: int)
      requires Valid() && current_tid != 0 && SignalOk(log[current_tid], sigNum)
               && states.entry[states.sp].Value() == TopExec(log[current_tid].stack)
      modifies this, owners.Keys
      ensures Valid() && current_tid == old(current_tid) && |thread| == old(|thread|)
      ensures log == old(log)[current_tid := Pre(old(log[current_tid]), sigNum, collectAtStart)]
      ensures forall o :: o in owners ==> o in old(owners) || fresh(o)
    {
      hide Others, HasStates, ThreadOk, OwnsRecord, Pre, Inv, K.ZeroVec;
      CostLength(log[current_tid], n);
      PreOk(log[current_tid], sigNum, n, collectAtStart);
      PreIs(log[current_tid], sigNum, n, collectAtStart);
      ghost var u := Pre(log[current_tid], sigNum, collectAtStart);
      var es := PushHandlerState(sigNum);
      assert allocated(owners) && allocated(NotMine(owners, current_tid)) && allocated(thread);
      assert HasStates(owners, current_tid, states, u.stack.below, u.costs, n);
      assert allocated(states) && allocated(Mine(owners, current_tid)) && allocated(u.stack.below)
        && allocated(u.costs);
      InitCurrent(es);
      Become(u);
    }

    /** A signal is delivered to a thread; its number, and how deep handlers nest, are asserted. */
    method PreSignal(tid: nat, sigNum: int) returns (r: Outcome<()>)
      requires Valid() && 0 < tid < |thread|
      modifies this, owners.Keys
      ensures Valid() && current_tid == tid && |thread| == old(|thread|)
      ensures r == if SignalOk(old(log[tid]), sigNum) then Done(()) else AssertionFails
      ensures log == if r.Done? then old(log)[tid := Pre(old(log[tid]), sigNum, collectAtStart)] else old(log)
      ensures forall o :: o in owners ==> o in old(owners) || fresh(o)
    {
      hide Others, ThreadOk, OwnsRecord, Pre;
      SwitchThread(tid);
      SaveCurrent();
      Nesting();
      if !(0 < sigNum <= NSIG && states.sp + 1 < MAX_SIGHANDLERS) {
        return AssertionFails;
      }
      EnterHandler(sigNum);
      r := Done(());
    }

    lemma Nesting()
      requires Valid() && current_tid != 0
      ensures |log[current_tid].stack.below| == states.sp
    {
    }

    method SaveCurrent()
      requires Valid() && current_tid != 0
      modifies owners.Keys
      ensures Valid() && states.sp < |states.entry| && states.entry[states.sp] != null
              && states.entry[states.sp] in owners
      ensures states.entry[states.sp].Value() == TopExec(log[current_tid].stack)
    {
      Running();
      ExecStateSave();
    }

    /** Pop the innermost call, of the current level. */
    method PopCall(ghost below: seq<Exec>, ghost bottom: nat)
      requires calls.frames != [] && FrameOk(calls.frames[|calls.frames| - 1], fns, |fn_active|)
      modifies `calls, `fns, `cxt, `nonskipped, `fn_active, `collect
      ensures Live(below, bottom) == PopEntry(old(Live(below, bottom)), skipDirect)
    {
      hide Up, Down;
      var lower_entry := calls.frames[|calls.frames| - 1];
      nonskipped := lower_entry.nonskipped;
      if lower_entry.jcc.Some? {
        var jcc := lower_entry.jcc.value;
        var f := FnOf(jcc.to);
        if Counts(jcc, skipDirect) {
          fn_active := fn_active[f.id := Down(fn_active[f.id])];
        }
        cxt, fns := Some(lower_entry.saved.value.cxt), fns[..lower_entry.saved.value.fnSp + 1];
        if fn_active[f.id] == 0 && f.toggles {
          collect := !collect;
        }
      }
      calls := CallsOf(calls.frames[..|calls.frames| - 1], None);
    }

    /** Unwind the calls of a handler. */
    method UnwindHandler(bottom: nat, ghost below: seq<Exec>)
      requires Inv(Live(below, bottom))
      modifies `calls, `fns, `cxt, `nonskipped, `fn_active, `collect
      ensures Live(below, bottom) == PopDown(old(Live(below, bottom)), skipDirect)
    {
      hide Inv, PopEntry, FrameOk, PopDown;
      ghost var s := Live(below, bottom);
      PopsEntry(s);
      while |calls.frames| > bottom
        invariant bottom <= |calls.frames| && Inv(Live(below, bottom))
        invariant PopDown(Live(below, bottom), skipDirect) == PopDown(s, skipDirect)
        decreases |calls.frames|
      {
        PopDownStep(Live(below, bottom), skipDirect);
        PopCall(below, bottom);
      }
      PopDownEnd(Live(below, bottom), skipDirect);
    }

    /** Take the handler's function and the separator off. */
    method PopHandlerFns()
      requires fns != [] && (cxt.Some? ==> cxt.value.fns != [] && cxt.value.fns[0].id < |fn_active|)
      requires |fns| > 1 && fns[|fns| - 1].Of? ==> fns[|fns| - 2] == Marker
      modifies `fns, `fn_active
      ensures fns == WithoutMarker(old(fns))
      ensures fn_active == if cxt.Some?
              then var f := cxt.value.fns[0].id; old(fn_active)[f := Down(old(fn_active)[f])] else old(fn_active)
    {
      if cxt.Some? {
        var f := cxt.value.fns[0].id;
        fn_active := fn_active[f := Down(fn_active[f])];
      }
      if |fns| > 1 {
        if fns[|fns| - 1] != Marker {
          fns := fns[..|fns| - 1];
          assert fns[|fns| - 1] == Marker;
        }
        if |fns| > 1 {
          fns := fns[..|fns| - 1];
        }
      }
    }

    /** The states from the top down to level i hold part of the thread, the costs of those above
        being summed up already. */
    ghost predicate Unwinding(th: Thread)
      reads `thread, `log, `states, `owners, owners.Keys, `current_tid
    {
      && this !in owners && 0 < current_tid < |thread| == |log| && thread[current_tid] != null
      && Others(owners, thread, log, current_tid, n, Unseen())
        && OwnsRecord(owners, current_tid, thread[current_tid], n)
      && |th.costs| == |th.stack.below| + 1 && CostsOk(th.costs, n) && |th.sigCost| == n
      && states.sp <= |th.stack.below|
      && HasStates(owners, current_tid, states, th.stack.below[..states.sp], th.costs[..states.sp + 1], n)
      && Added(th, thread[current_tid].sighandler_cost[..], states.sp)
    }

    /** The level running is left: its costs are summed up, and its execution state is free. */
    method PopHandlerState(ghost th: Thread)
      requires Unwinding(th) && states.sp > 0
      modifies `states, owners.Keys
      ensures Unwinding(th) && states.sp == old(states.sp) - 1 && states.entry == old(states.entry)
      ensures states.sp < |states.entry| && states.entry[states.sp] != null
              && states.entry[states.sp].Value() == th.stack.below[states.sp]
      ensures states.entry[states.sp] in owners
    {
      hide Others, NewThread, Added, CostsOk, Inv;
      assert |th.costs[states.sp]| == n by { VectorLength(th, states.sp, n); }
      var es := states.entry[states.sp];
      assert allocated(owners) && allocated(NotMine(owners, current_tid)) && allocated(thread);
      ghost var sum, added, k := thread[current_tid].sighandler_cost[..], es.cost[..], states.sp;
      var _ := K.AddAndZeroCost(thread[current_tid].sighandler_cost, es.cost);
      es.sig := -1;
      states := states.(sp := states.sp - 1);
      AddedOne(th, sum, k);
      assert th.stack.below[..k][..k - 1] == th.stack.below[..k - 1] && th.costs[..k + 1][..k] == th.costs[..k];
    }

    /** Sum up the costs of handlers until level k runs. */
    method LeaveLevels(k: nat, ghost th: Thread)
      requires Unwinding(th) && k <= states.sp
      modifies `states, owners.Keys
      ensures Unwinding(th) && states.sp == k && states.entry == old(states.entry)
      ensures k < |states.entry| && states.entry[k] != null
      ensures k < old(states.sp) ==> states.entry[k].Value() == th.stack.below[k]
      ensures k == old(states.sp) ==> unchanged(owners.Keys)
    {
      hide Others, NewThread, HasStates, OwnsRecord, Added, CostsOk;
      while states.sp > k
        invariant Unwinding(th) && k <= states.sp <= old(states.sp) && states.entry == old(states.entry)
        invariant states.sp < old(states.sp) ==> states.sp < |states.entry| && states.entry[states.sp] != null
                                                 && states.entry[states.sp].Value() == th.stack.below[states.sp]
        invariant states.sp == old(states.sp) ==> unchanged(owners.Keys)
        decreases states.sp
      {
        PopHandlerState(th);
      }
      TopState(th);
    }

    lemma TopState(th: Thread)
      requires Unwinding(th)
      ensures states.sp < |states.entry| && states.entry[states.sp] != null
    {
    }

    /** The running thread can leave levels. */
    lemma CanUnwind()
      requires Valid() && current_tid != 0
      ensures this !in owners && 0 < current_tid < |thread| == |log| && thread[current_tid] != null
      ensures Unwinding(log[current_tid]) && states.sp == |log[current_tid].stack.below|
              && cost == states.entry[states.sp].cost
      ensures Live(log[current_tid].stack.below, states.entry[states.sp].call_stack_bottom) == log[current_tid].stack
      ensures states.entry[states.sp].sig == sig
      ensures forall t :: 0 < t < |thread| && t < |log| ==> ThreadOk(log[t], n)
    {
      hide Inv, Others, OwnsRecord;
      var th := log[current_tid];
      assert th.stack.below[..states.sp] == th.stack.below && th.costs[..states.sp + 1] == th.costs;
      NoneAdded(th);
    }

    /** What the thread is once levels above the running one have been left. */
    lemma Becomes(th: Thread, u: Shadow)
      requires Unwinding(th) && ThreadOk(th, n) && Inv(u) && states.sp == |u.below| && u.below <= th.stack.below
      requires states.sp < |states.entry| && states.entry[states.sp] != null
               && states.entry[states.sp].sig == sig == u.sig
      requires cost == states.entry[states.sp].cost && Live(u.below, states.entry[states.sp].call_stack_bottom) == u
      ensures Lives(current_tid, thread[current_tid], WithStack(th, u, n)) && ThreadOk(WithStack(th, u, n), n)
    {
      hide Inv, Others, HasStates, OwnsRecord, Summed;
      assert th.stack.below[..states.sp] == u.below;
    }

    lemma UnwindingFrame(th: Thread)
      requires Unwinding(th)
      ensures this !in owners && 0 < current_tid < |thread| == |log| && thread[current_tid] != null
      ensures Others(owners, thread, log, current_tid, n, Unseen())
    {
    }

    /** The running thread has left levels, and goes on. */
    ghost method GoOn(th: Thread, u: Shadow)
      requires Unwinding(th) && ThreadOk(th, n) && Inv(u) && states.sp == |u.below| && u.below <= th.stack.below
      requires forall t :: 0 < t < |thread| && t < |log| ==> ThreadOk(log[t], n)
      requires states.sp < |states.entry| && states.entry[states.sp] != null
               && states.entry[states.sp].sig == sig == u.sig
      requires cost == states.entry[states.sp].cost && Live(u.below, states.entry[states.sp].call_stack_bottom) == u
      modifies `log
      ensures Valid() && log == old(log)[current_tid := WithStack(th, u, n)]
    {
      hide ThreadOk, Inv, WithStack, Others, Profiler.Unwinding, Profiler.Lives, Profiler.Live;
      UnwindingFrame(th);
      Becomes(th, u);
      Become(WithStack(th, u, n));
    }

    /** Unwind a handler and take its function off. */
    method UnwindStacks(ghost th: Thread)
      requires Inv(th.stack) && th.stack.below != [] && states.sp < |states.entry| && states.entry[states.sp] != null
      requires Live(th.stack.below, states.entry[states.sp].call_stack_bottom) == th.stack
      modifies `calls, `fns, `cxt, `nonskipped, `fn_active, `collect
      ensures var (d, m) := (PopDown(th.stack, skipDirect), |th.stack.below| - 1);
              && d.below == th.stack.below && |d.frames| == d.bottom
              && var u := ShadowStack.PostSignal(d);
                 && calls == CallsOf(u.frames, u.saved) && fns == u.fns && fn_active == u.active
                 && TopExec(u) == th.stack.below[m] && u.below == th.stack.below[..m]
    {
      hide Inv, PopDown, SameBelow;
      ghost var below := th.stack.below;
      ghost var d := PopDown(th.stack, skipDirect);
      UnwindHandler(states.entry[states.sp].call_stack_bottom, below);
      SameShape(th.stack, d);
      ghost var u := ShadowStack.PostSignal(d);
      PopHandlerFns();
    }

    /** The handler of the current thread ends. */
    method LeaveHandler()
      requires Valid() && current_tid != 0 && log[current_tid].stack.below != []
      modifies this, owners.Keys
      ensures Valid() && current_tid == old(current_tid) && thread == old(thread) && owners == old(owners)
      ensures log == old(log)[current_tid := Ended(old(log[current_tid]), n, skipDirect)]
    {
      hide Others, ThreadOk, HasStates, OwnsRecord, Inv, PopDown, WithStack, ShadowStack.PostSignal;
      hide Profiler.Unwinding, Profiler.Shows, Profiler.Valid;
      Running();
      CanUnwind();
      ghost var th := log[current_tid];
      assert ThreadOk(th, n);
      ThreadStack(th, n);
      UnwindStacks(th);
      ContinueInterrupted(th, ShadowStack.PostSignal(PopDown(th.stack, skipDirect)));
    }

    /** Sum up the costs of the handler, and go on with the state it interrupted. */
    method ContinueInterrupted(ghost th: Thread, ghost u: Shadow)
      requires Unwinding(th) && states.sp == |th.stack.below| > 0 && ThreadOk(th, n) && Inv(u)
      requires forall t :: 0 < t < |thread| && t < |log| ==> ThreadOk(log[t], n)
      requires var m := |th.stack.below| - 1;
               && calls == CallsOf(u.frames, u.saved) && fns == u.fns && fn_active == u.active
               && TopExec(u) == th.stack.below[m] && u.below == th.stack.below[..m]
      modifies this, owners.Keys
      ensures Valid() && current_tid == old(current_tid) && thread == old(thread) && owners == old(owners)
      ensures log == old(log)[current_tid := WithStack(th, u, n)]
    {
      hide Others, ThreadOk, HasStates, OwnsRecord, Inv, WithStack, Profiler.Unwinding, Profiler.Shows, Profiler.Valid;
      UnwindingFrame(th);
      PopHandlerState(th);
      ExecStateRestore();
      GoOn(th, u);
    }

    /** A handler of a thread is said to have ended; its signal must be the one handled. */
    method PostSignal(tid: nat, sigNum: int) returns (r: Outcome<()>)
      requires Valid() && 0 < tid < |thread|
      modifies this, owners.Keys
      ensures Valid() && current_tid == tid && |thread| == old(|thread|)
      ensures r == if old(log[tid].stack.below) != [] && sigNum == old(log[tid].stack.sig) then Done(())
              else AssertionFails
      ensures log == if r.Done? then old(log)[tid := Ended(old(log[tid]), n, skipDirect)] else old(log)
      ensures forall o :: o in owners ==> o in old(owners) || fresh(o)
    {
      hide Others, HasStates, ThreadOk, OwnsRecord, Inv, Ended;
      SwitchThread(tid);
      Nesting();
      if sigNum != sig || states.sp == 0 {
        return AssertionFails;
      }
      LeaveHandler();
      r := Done(());
    }

    /** Before a call is popped in a handler: at the bottom of the handler, it ends first. */
    method RunPostSignalOnCallStackBottom()
      requires Valid() && current_tid != 0 && sig > 0
      modifies this, owners.Keys
      ensures Valid() && current_tid == old(current_tid)
      ensures var th := old(log[current_tid]);
              && th.stack.below != []
              && log == if AtBottom(th.stack) then old(log)[current_tid := Ended(th, n, skipDirect)] else old(log)
    {
      hide Others, HasStates, ThreadOk, OwnsRecord, Inv, Ended;
      Running();
      ThreadStack(log[current_tid], n);
      if |calls.frames| == states.entry[states.sp].call_stack_bottom {
        var _ := PostSignal(current_tid, sig);
      }
    }

    /** The interrupted states, from the outermost. */
    method SavedStates() returns (below: seq<Exec>)
      requires Valid() && current_tid != 0
      ensures below == log[current_tid].stack.below
    {
      hide Others, ThreadOk, OwnsRecord;
      below := [];
      for i := 0 to states.sp
        invariant |below| == i && forall j :: 0 <= j < i ==> below[j] == log[current_tid].stack.below[j]
      {
        var es := states.entry[i];
        below := below
          + [Exec(es.cxt, es.collect, es.jmps_passed, es.bbcc, es.nonskipped, es.sig, es.call_stack_bottom)];
      }
    }

    /** Take over a shadow stack, and the cost vector of its level. */
    method SetCurrent(u: Shadow)
      requires states.sp < |states.entry| && states.entry[states.sp] != null
      modifies `cxt, `collect, `jmps_passed, `bbcc, `nonskipped, `sig, `cost, `calls, `fns, `fn_active
      ensures Live(u.below, u.bottom) == u && cost == states.entry[states.sp].cost
    {
      cxt, collect, jmps_passed, bbcc, nonskipped, sig := u.cxt, u.collect, u.jmps, u.bbcc, u.nonskipped, u.sig;
      cost := states.entry[states.sp].cost;
      calls, fns, fn_active := CallsOf(u.frames, u.saved), u.fns, u.active;
    }

    /** A block is entered in the running thread.  Its stacks become what entering the block makes of
        them; of handlers left on the way the costs are summed up. */
    method EnterBlock(e: Arrival, ret: UWord) returns (r: Outcome<()>)
      requires Valid() && current_tid != 0 && ArrivalOk(log[current_tid].stack, e) && Inv(log[current_tid].stack)
      modifies this, owners.Keys
      ensures Valid() && current_tid == old(current_tid) && thread == old(thread) && owners == old(owners)
      ensures var v := Setup(old(log[current_tid].stack), e, ret, skipDirect);
              && SameKind(r, v)
              && (r.Done? ==> |v.value.below| <= |old(log[current_tid]).stack.below|
                              && log == old(log)[current_tid := WithStack(old(log[current_tid]), v.value, n)])
              && (!r.Done? ==> log == old(log))
    {
      hide Others, ThreadOk, HasStates, OwnsRecord, Inv, Setup, WithStack, ArrivalOk, AtLevel, Profiler.Unwinding,
           Profiler.Shows;
      Running();
      CanUnwind();
      ghost var th := log[current_tid];
      ThreadStack(th, n);
      var below := SavedStates();
      var s := Shadow(calls.frames, calls.saved, fns, fn_active, cxt, collect, jmps_passed, bbcc, nonskipped,
                      sig, states.entry[states.sp].call_stack_bottom, below);
      var v := Setup(s, e, ret, skipDirect);
      if !v.Done? {
        return v.PropagateFailure();
      }
      SetupIs(s, e, ret, skipDirect);
      TakeStack(v.value, th);
      r := Done(());
    }

    /** The stacks become u; what levels left have cost is summed up. */
    method TakeStack(u: Shadow, ghost th: Thread)
      requires Unwinding(th) && states.sp == |th.stack.below| && states.entry[states.sp].sig == sig
      requires Live(th.stack.below, states.entry[states.sp].call_stack_bottom) == th.stack
      requires ThreadOk(th, n) && Inv(u) && AtLevel(th.stack, u)
      requires forall t :: 0 < t < |thread| && t < |log| ==> ThreadOk(log[t], n)
      modifies this, owners.Keys
      ensures Valid() && current_tid == old(current_tid) && thread == old(thread) && owners == old(owners)
      ensures log == old(log)[current_tid := WithStack(th, u, n)]
    {
      hide Others, ThreadOk, HasStates, OwnsRecord, Inv, WithStack, Profiler.Unwinding, Profiler.Shows, Profiler.Valid;
      UnwindingFrame(th);
      LeaveLevels(|u.below|, th);
      SetCurrent(u);
      GoOn(th, u);
    }

    /** The block just entered runs in the current thread: it passes conditional jumps, and the
        simulators add to the current cost vector. */
    method RunBlock(jmps: nat, spent: seq<P.ULong>)
      requires Valid() && current_tid != 0 && |spent| == n
      modifies this, owners.Keys
      ensures Valid() && current_tid == old(current_tid) && thread == old(thread) && owners == old(owners)
      ensures ThreadOk(old(log[current_tid]), n)
      ensures log == old(log)[current_tid := AfterRun(old(log[current_tid]), jmps, spent, n)]
    {
      hide Others, ThreadOk, Inv, P.AddVec, NewThread;
      Running();
      ghost var th := log[current_tid];
      ThreadStack(th, n);
      assert allocated(owners) && allocated(NotMine(owners, current_tid)) && allocated(thread);
      AddCosts(states.entry[states.sp].cost, spent);
      jmps_passed := jmps;
      Become(AfterRun(th, jmps, spent, n));
    }

    /** One step of thread t. */
    method Step(t: nat, act: Act) returns (r: Outcome<()>)
      requires Valid() && 0 < t < |thread| && ThreadOk(log[t], n) && ActOk(log[t], act)
      modifies this, owners.Keys
      ensures Valid() && |thread| == old(|thread|)
      ensures var a := Acted(old(log[t]), act, n, collectAtStart, skipDirect);
              SameKind(r, a) && log == if r.Done? then old(log)[t := a.value] else old(log)
      ensures forall o :: o in owners ==> o in old(owners) || fresh(o)
    {
      hide Others, HasStates, OwnsRecord, Inv, Setup, WithStack, Ended, Pre, AfterRun;
      match act
      case Enter(e, ret) =>
        SwitchThread(t);
        r := EnterBlock(e, ret);
      case Ran(jmps, spent) =>
        SwitchThread(t);
        RunBlock(jmps, spent);
        r := Done(());
      case Signal(sig) =>
        r := PreSignal(t, sig);
      case End(sig) =>
        r := PostSignal(t, sig);
    }

    /** The threads are as after these steps. */
    ghost predicate Played(who: seq<nat>, acts: seq<Act>)
      requires |who| == |acts|
      reads `thread, `log
    {
      var r := Together(who, acts, n, nFns, collectAtStart, skipDirect);
      r.Some? && |log| == |thread|
      && forall t :: 0 < t < |thread| ==> log[t] == Seen(r.value, t, n, nFns, collectAtStart)
    }

    /** The step after some. */
    method PlayNext(ghost who: seq<nat>, ghost acts: seq<Act>, ghost done: seq<nat>, ghost before: seq<Act>,
            t: nat, act: Act)
      requires Valid() && |done| == |before| && Played(done, before) && who == done + [t] && acts == before + [act]
      requires 0 < t < |thread| && Together(who, acts, n, nFns, collectAtStart, skipDirect).Some?
      modifies this, owners.Keys
      ensures Valid() && |thread| == old(|thread|) && Played(who, acts)
      ensures forall o :: o in owners ==> o in old(owners) || fresh(o)
    {
      hide Others, HasStates, ThreadOk, OwnsRecord, ActOk, Acted, NewThread, Profiler.Lives;
      assert who[..|done|] == done && acts[..|done|] == before;
      var _ := Step(t, act);
    }

    /** Any interleaving of threads, on the globals they share: each thread ends up exactly as
        if it had taken its steps alone. */
    method Play(who: seq<nat>, acts: seq<Act>)
      requires Valid() && |who| == |acts| && (forall i :: 0 <= i < |who| ==> 0 < who[i] < |thread|)
      requires forall t :: 0 < t < |thread| ==> log[t] == Unseen()
      requires Together(who, acts, n, nFns, collectAtStart, skipDirect).Some?
      modifies this, owners.Keys
      ensures Valid() && |thread| == old(|thread|)
      ensures forall t :: 0 < t < |thread|
                          ==> Alone(StepsOf(who, acts, t), n, nFns, collectAtStart, skipDirect) == Some(log[t])
    {
      hide Profiler.Played, Profiler.Shows, Together, Alone, StepsOf, NewThread;
      assert |thread| == |log| by { SameLength(); }
      NothingPlayed();
      for i := 0 to |who|
        invariant Valid() && |thread| == old(|thread|) && Played(who[..i], acts[..i])
        invariant forall o :: o in owners ==> o in old(owners) || fresh(o)
      {
        TogetherPrefix(who, acts, i + 1, n, nFns, collectAtStart, skipDirect);
        PlayNext(who[..i + 1], acts[..i + 1], who[..i], acts[..i], who[i], acts[i]);
      }
      assert who[..|who|] == who && acts[..|who|] == acts;
      PlayedAlone(who, acts);
    }

    lemma SameLength()
      requires Valid()
      ensures |thread| == |log|
    {
    }

    lemma NothingPlayed()
      requires |thread| == |log| && forall t :: 0 < t < |thread| ==> log[t] == Unseen()
      ensures Played([], [])
    {
      hide NewThread, ThreadOk;
    }

    lemma PlayedAlone(who: seq<nat>, acts: seq<Act>)
      requires |who| == |acts| && Played(who, acts)
      ensures |thread| == |log|
      ensures forall t :: 0 < t < |thread|
                          ==> Alone(StepsOf(who, acts, t), n, nFns, collectAtStart, skipDirect) == Some(log[t])
    {
      hide Together, Alone, StepsOf, NewThread, ThreadOk, Seen;
      forall t | 0 < t < |thread|
        ensures Alone(StepsOf(who, acts, t), n, nFns, collectAtStart, skipDirect) == Some(log[t])
      {
        EachAsIfAlone(who, acts, t, n, nFns, collectAtStart, skipDirect);
      }
    }

    /** Visit every thread that has a record; none changes, and the current one stays. */
    method ForallThreads() returns (visited: seq<nat>)
      requires Valid()
      modifies this, owners.Keys
      ensures Valid() && current_tid == old(current_tid) && log == old(log) && thread == old(thread)
      ensures forall t :: t in visited <==> 0 < t < |thread| && old(thread[t]) != null
      ensures forall i, j :: 0 <= i < j < |visited| ==> visited[i] < visited[j]
    {
      hide Others, HasStates, ThreadOk, OwnsRecord;
      var orig := current_tid;
      visited := [];
      for t := 1 to |thread|
        invariant Valid() && log == old(log) && thread == old(thread)
        invariant forall o :: o in owners ==> o in old(owners) || fresh(o)
        invariant forall u :: u in visited <==> 0 < u < t && thread[u] != null
        invariant forall i :: 0 <= i < |visited| ==> visited[i] < t
        invariant forall i, j :: 0 <= i < j < |visited| ==> visited[i] < visited[j]
      {
        if thread[t] == null { continue; }
        SwitchThread(t);
        visited := visited + [t];
      }
      SwitchThread(orig);
    }
  }

  /** Add costs to a vector. */
  method AddCosts(cost: Counters, spent: Vec)
    requires cost.Length == |spent|
    modifies cost
    ensures cost[..] == P.AddVec(old(cost[..]), spent)
  {
    for i := 0 to cost.Length
      invariant forall j :: 0 <= j < i ==> cost[j] == P.AddULong(old(cost[j]), spent[j])
      invariant forall j :: i <= j < cost.Length ==> cost[j] == old(cost[j])
    {
      cost[i] := P.AddULong(cost[i], spent[i]);
    }
  }
}
