/** The instrumenter: events wait in a buffer, adjacent ones share a helper call, and the
    buffer is flushed at barriers and when it is full. */
module EventQueue {
  import opened CacheSim
  import opened EventStream

  // ------------------------------------------------------------ helper calls

  datatype Event =
    | IrNoX(inode: InstrInfo)
    | IrGen(inode: InstrInfo)
    | Dr(inode: InstrInfo, ea: Atom, szB: nat)
    | Dw(inode: InstrInfo, ea: Atom, szB: nat)
    | Dm(inode: InstrInfo, ea: Atom, szB: nat)
    | Bc(inode: InstrInfo, taken: Taken)
    | Bi(inode: InstrInfo, dst: Atom)

  datatype Helper =
    | Log1Ir(n: InstrInfo)
    | Log2Ir(n: InstrInfo, n2: InstrInfo)
    | Log3Ir(n: InstrInfo, n2: InstrInfo, n3: InstrInfo)
    | Log1IrGen0D(n: InstrInfo)
    | Log1IrNoX0D(n: InstrInfo)
    | Log2IrNoX0D(n: InstrInfo, n2: InstrInfo)
    | Log3IrNoX0D(n: InstrInfo, n2: InstrInfo, n3: InstrInfo)
    | Log1IrNoX1Dr(n: InstrInfo, ea: Atom, szB: nat)
    | Log1IrNoX1Dw(n: InstrInfo, ea: Atom, szB: nat)
    | Log0Ir1Dr(n: InstrInfo, ea: Atom, szB: nat)
    | Log0Ir1Dw(n: InstrInfo, ea: Atom, szB: nat)
    | LogCondBranch(n: InstrInfo, taken: Taken)
    | LogIndBranch(n: InstrInfo, dst: Atom)

  /** Statements of the instrumented block. */
  datatype OutStmt = Original(st: Stmt) | Dirtied(call: Helper) | GuardedDirty(call: Helper, guard: Atom)
    | Widen(taken: Taken)

  /** What a buffered event stands for; a modify counts as a read. */
  function RefOf(e: Event): Ref {
    match e
    case IrNoX(n) => I(n)
    case IrGen(n) => I(n)
    case Dr(n, ea, sz) => R(n, ea, sz)
    case Dm(n, ea, sz) => R(n, ea, sz)
    case Dw(n, ea, sz) => W(n, ea, sz)
    case Bc(n, t) => C(n, t)
    case Bi(n, dst) => B(n, dst)
  }

  /** The events a helper logs, in order. */
  function Flat(c: Helper): seq<Ref> {
    match c
    case Log1Ir(n) => [I(n)]
    case Log2Ir(n, n2) => [I(n), I(n2)]
    case Log3Ir(n, n2, n3) => [I(n), I(n2), I(n3)]
    case Log1IrGen0D(n) => [I(n)]
    case Log1IrNoX0D(n) => [I(n)]
    case Log2IrNoX0D(n, n2) => [I(n), I(n2)]
    case Log3IrNoX0D(n, n2, n3) => [I(n), I(n2), I(n3)]
    case Log1IrNoX1Dr(n, ea, sz) => [I(n), R(n, ea, sz)]
    case Log1IrNoX1Dw(n, ea, sz) => [I(n), W(n, ea, sz)]
    case Log0Ir1Dr(n, ea, sz) => [R(n, ea, sz)]
    case Log0Ir1Dw(n, ea, sz) => [W(n, ea, sz)]
    case LogCondBranch(n, t) => [C(n, t)]
    case LogIndBranch(n, dst) => [B(n, dst)]
  }

  function Unguarded(s: seq<Ref>): (u: seq<Logged>)
    ensures |u| == |s| && forall i :: 0 <= i < |s| ==> u[i] == Always(s[i])
  {
    seq(|s|, i requires 0 <= i < |s| => Always(s[i]))
  }

  function Guarded(s: seq<Ref>, g: Atom): (u: seq<Logged>)
    ensures |u| == |s| && forall i :: 0 <= i < |s| ==> u[i] == If(s[i], g)
  {
    seq(|s|, i requires 0 <= i < |s| => If(s[i], g))
  }

  function LoggedBy(o: OutStmt): seq<Logged> {
    match o
    case Original(_) => []
    case Dirtied(c) => Unguarded(Flat(c))
    case GuardedDirty(c, g) => Guarded(Flat(c), g)
    case Widen(_) => []
  }

  /** What the instrumented code logs. */
  function Emitted(out: seq<OutStmt>): seq<Logged> {
    if out == [] then [] else Emitted(out[..|out| - 1]) + LoggedBy(out[|out| - 1])
  }

  /** What the buffer holds. */
  function Pending(q: seq<Event>): (s: seq<Logged>)
    ensures |s| == |q|
  {
    if q == [] then [] else Pending(q[..|q| - 1]) + [Always(RefOf(q[|q| - 1]))]
  }

  /** The original statements in the instrumented code. */
  function Originals(out: seq<OutStmt>): seq<Stmt> {
    if out == [] then [] else
    Originals(out[..|out| - 1]) + if out[|out| - 1].Original? then [out[|out| - 1].st] else []
  }

  /** An instruction's bytes do not wrap around. */
  ghost predicate InstrOk(n: InstrInfo, cfg: Config) {
    cfg.i1Line > 0 && n.len > 0 && n.addr + n.len - 1 < 0x1_0000_0000_0000_0000
  }

  ghost predicate NoX(n: InstrInfo, cfg: Config) {
    InstrOk(n, cfg) && IsIrNoX(cfg.i1Line, cfg.llLine, n.addr, n.len)
  }

  /** The special instruction-read helpers are used only where they equal the general one,
      and the helpers for runs without caches only in such runs. */
  ghost predicate HelperOk(c: Helper, cfg: Config) {
    match c
    case Log1Ir(_) => !cfg.cacheSim
    case Log2Ir(_, _) => !cfg.cacheSim
    case Log3Ir(_, _, _) => !cfg.cacheSim
    case Log1IrGen0D(_) => cfg.cacheSim
    case Log1IrNoX0D(n) => cfg.cacheSim && NoX(n, cfg)
    case Log2IrNoX0D(n, n2) => cfg.cacheSim && NoX(n, cfg) && NoX(n2, cfg)
    case Log3IrNoX0D(n, n2, n3) => cfg.cacheSim && NoX(n, cfg) && NoX(n2, cfg) && NoX(n3, cfg)
    case Log1IrNoX1Dr(n, _, _) => cfg.cacheSim && NoX(n, cfg)
    case Log1IrNoX1Dw(n, _, _) => cfg.cacheSim && NoX(n, cfg)
    case Log0Ir1Dr(_, _, _) => cfg.cacheSim
    case Log0Ir1Dw(_, _, _) => cfg.cacheSim
    case _ => true
  }

  ghost predicate OutOk(out: seq<OutStmt>, cfg: Config) {
    forall i :: 0 <= i < |out| ==>
      (out[i].Dirtied? ==> HelperOk(out[i].call, cfg))
      && (out[i].GuardedDirty? ==> HelperOk(out[i].call, cfg) && |Flat(out[i].call)| == 1)
  }

  ghost predicate EventOk(e: Event, cfg: Config) {
    match e
    case IrNoX(n) => NoX(n, cfg)
    case IrGen(_) => true
    case Dr(_, _, _) => cfg.cacheSim
    case Dw(_, _, _) => cfg.cacheSim
    case Dm(_, _, _) => cfg.cacheSim
    case _ => true
  }

  predicate IsIr(e: Event) {
    e.IrNoX? || e.IrGen?
  }

  /** Each buffered event but an instruction read belongs to the instruction of the event
      before it. */
  ghost predicate QueueOk(q: seq<Event>, cfg: Config) {
    && (forall i :: 0 <= i < |q| ==> EventOk(q[i], cfg))
    && (forall i :: 0 < i < |q| ==> IsIr(q[i]) || q[i].inode == q[i - 1].inode)
  }

  // ----------------------------------------------------- facts about the streams

  lemma PendingNext(q: seq<Event>, i: nat)
    requires i < |q|
    ensures Pending(q[..i + 1]) == Pending(q[..i]) + [Always(RefOf(q[i]))]
  {
    assert q[..i + 1][..i] == q[..i];
  }

  lemma EmittedNext(out: seq<OutStmt>, o: OutStmt)
    ensures Emitted(out + [o]) == Emitted(out) + LoggedBy(o)
    ensures Originals(out + [o]) == Originals(out) + if o.Original? then [o.st] else []
  {
    assert (out + [o])[..|out|] == out;
  }

  lemma CanonNext(items: seq<Item>, it: Item)
    ensures Canon(items + [it]) == Canon(items) + if Folds(items + [it]) then [] else LoggedOf(it)
  {
    assert (items + [it])[..|items|] == items;
  }

  /** b is a with instrumentation added at its end. */
  ghost predicate Grown(a: seq<OutStmt>, b: seq<OutStmt>) {
    a <= b && Originals(b) == Originals(a) && forall p :: |a| <= p < |b| ==> !b[p].Original?
  }

  /** One more helper call. */
  lemma Appended(a: seq<OutStmt>, out: seq<OutStmt>, o: OutStmt, cfg: Config)
    requires Grown(a, out) && OutOk(out, cfg) && !o.Original?
    requires (o.Dirtied? || o.GuardedDirty?) ==> HelperOk(o.call, cfg)
    requires o.GuardedDirty? ==> |Flat(o.call)| == 1
    ensures Grown(a, out + [o]) && OutOk(out + [o], cfg) && Emitted(out + [o]) == Emitted(out) + LoggedBy(o)
  {
    hide HelperOk, Flat;
    EmittedNext(out, o);
  }

  lemma GrownTwice(a: seq<OutStmt>, b: seq<OutStmt>, c: seq<OutStmt>)
    requires Grown(a, b) && Grown(b, c)
    ensures Grown(a, c)
  {
  }

  // -------------------------------------------------------------- the state

  class CgState {
    const cfg: Config
    const events: array<Event>
    var events_used: int
    var sbOut: seq<OutStmt>

    ghost predicate Valid()
      reads this, events
    {
      && 0 <= events_used <= events.Length && events.Length > 0
      && QueueOk(events[..events_used], cfg) && OutOk(sbOut, cfg)
    }

    ghost function Queue(): seq<Event>
      requires Valid()
      reads this, events
    {
      events[..events_used]
    }

    /** What has been logged so far: in the code, and still in the buffer. */
    ghost function Logged(): seq<Logged>
      requires Valid()
      reads this, events
    {
      Emitted(sbOut) + Pending(Queue())
    }

    /** The last buffered event, if any, belongs to n. */
    ghost predicate Owned(n: InstrInfo)
      requires Valid()
      reads this, events
    {
      events_used > 0 ==> events[events_used - 1].inode == n
    }

    /** The state agrees with the items posted so far: the same stream, and the buffer ends
        in an unfolded read exactly when the items end in that read. */
    ghost predicate Tracks(items: seq<Item>)
      requires Valid()
      reads this, events
    {
      && Logged() == Canon(items)
      && (events_used > 0 && events[events_used - 1].Dr? <==>
          items != [] && items[|items| - 1].E? && items[|items| - 1].ref.R?)
      && (events_used > 0 && events[events_used - 1].Dr? ==> items[|items| - 1].ref == RefOf(events[events_used - 1]))
    }

    constructor (cfg: Config, capacity: nat)
      requires capacity > 0
      ensures Valid() && events_used == 0 && sbOut == [] && this.cfg == cfg && events.Length == capacity
              && fresh(events)
    {
      this.cfg := cfg;
      events := new Event[capacity](_ => IrGen(InstrInfo(0, 0, 0, 0)));
      events_used := 0;
      sbOut := [];
    }

    /** The helper for the events at position i, and how many of them it covers. */
    method PickHelper(i: nat) returns (call: Helper, k: nat)
      requires Valid() && i < events_used
      ensures 1 <= k <= 3 && i + k <= events_used && HelperOk(call, cfg)
      ensures |Flat(call)| == k && forall j :: 0 <= j < k ==> Flat(call)[j] == RefOf(events[i + j])
    {
      hide QueueOk, OutOk, NoX, IsIr;
      ghost var q := events[..events_used];
      var ev := events[i];
      QueueAt(q, i, cfg);
      match ev
      case IrNoX(n) =>
        if i + 1 < events_used {
          QueueAt(q, i + 1, cfg);
          var ev2 := events[i + 1];
          if ev2.Dr? || ev2.Dm? {
            assert ev2.inode == n;
            return Log1IrNoX1Dr(n, ev2.ea, ev2.szB), 2;
          } else if ev2.Dw? {
            assert ev2.inode == n;
            return Log1IrNoX1Dw(n, ev2.ea, ev2.szB), 2;
          } else if i + 2 < events_used && ev2.IrNoX? && events[i + 2].IrNoX? {
            QueueAt(q, i + 2, cfg);
            var n3 := events[i + 2].inode;
            return if cfg.cacheSim then Log3IrNoX0D(n, ev2.inode, n3) else Log3Ir(n, ev2.inode, n3), 3;
          } else if ev2.IrNoX? {
            return if cfg.cacheSim then Log2IrNoX0D(n, ev2.inode) else Log2Ir(n, ev2.inode), 2;
          }
        }
        return if cfg.cacheSim then Log1IrNoX0D(n) else Log1Ir(n), 1;
      case IrGen(n) =>
        return if cfg.cacheSim then Log1IrGen0D(n) else Log1Ir(n), 1;
      case Dr(n, ea, sz) =>
        return Log0Ir1Dr(n, ea, sz), 1;
      case Dm(n, ea, sz) =>
        return Log0Ir1Dr(n, ea, sz), 1;
      case Dw(n, ea, sz) =>
        return Log0Ir1Dw(n, ea, sz), 1;
      case Bc(n, taken) =>
        return LogCondBranch(n, taken), 1;
      case Bi(n, dst) =>
        return LogIndBranch(n, dst), 1;
    }

    /** Generate code for everything in the buffer, and empty it. */
    method FlushEvents()
      requires Valid()
      modifies this`events_used, this`sbOut
      ensures Valid() && events_used == 0 && Logged() == old(Logged()) && Grown(old(sbOut), sbOut)
    {
      hide Emitted, Grown, OutOk, QueueOk, HelperOk, Flat, Originals;
      var i := 0;
      ghost var q := Queue();
      assert q[..0] == [];
      NothingGrown(sbOut);
      while i < events_used
        invariant 0 <= i <= events_used && events_used == old(events_used) && Valid() && Queue() == q
        invariant Emitted(sbOut) == old(Emitted(sbOut)) + Pending(q[..i]) && Grown(old(sbOut), sbOut)
      {
        var call, k := PickHelper(i);
        HelperPending(q, i, call, k);
        Appended(old(sbOut), sbOut, Dirtied(call), cfg);
        sbOut := sbOut + [Dirtied(call)];
        i := i + k;
      }
      assert q[..i] == q;
      events_used := 0;
      EmptyQueue(cfg);
    }

    /** Flushing is what a barrier asks for. */
    method Barrier(ghost items: seq<Item>)
      requires Valid() && Tracks(items)
      modifies this`events_used, this`sbOut
      ensures Valid() && events_used == 0 && Tracks(items + [EventStream.Barrier]) && Grown(old(sbOut), sbOut)
    {
      hide Emitted, Pending, Grown, OutOk, QueueOk, Canon;
      FlushEvents();
      CanonNext(items, EventStream.Barrier);
    }

    /** Put an event at the end of the buffer, making room first if there is none. */
    method PutEvent(e: Event)
      requires Valid() && EventOk(e, cfg) && (IsIr(e) || Owned(e.inode))
      modifies this`events_used, this`sbOut, events
      ensures Valid() && Grown(old(sbOut), sbOut)
      ensures events_used > 0 && events[events_used - 1] == e && Logged() == old(Logged()) + [Always(RefOf(e))]
    {
      hide Emitted, Pending, Grown, OutOk, QueueOk, EventOk, Originals;
      NothingGrown(sbOut);
      if events_used == events.Length {
        FlushEvents();
      }
      ghost var q := Queue();
      events[events_used] := e;
      events_used := events_used + 1;
      assert events[..events_used] == q + [e];
      QueueGrows(q, e, cfg);
      PendingNext(q + [e], |q|);
      assert (q + [e])[..|q|] == q && (q + [e])[..|q| + 1] == q + [e];
    }

    method AddEventIr(inode: InstrInfo, ghost items: seq<Item>)
      requires Valid() && Tracks(items) && InstrOk(inode, cfg)
      modifies this`events_used, this`sbOut, events
      ensures Valid() && Grown(old(sbOut), sbOut) && Owned(inode) && Tracks(items + [E(I(inode))])
    {
      hide Emitted, Pending, Grown, OutOk, QueueOk, Canon;
      CanonNext(items, E(I(inode)));
      if IsIrNoX(cfg.i1Line, cfg.llLine, inode.addr, inode.len) {
        PutEvent(IrNoX(inode));
      } else {
        PutEvent(IrGen(inode));
      }
    }

    method AddEventDr(inode: InstrInfo, datasize: nat, ea: Atom, ghost items: seq<Item>)
      requires Valid() && Tracks(items) && Owned(inode) && 1 <= datasize <= cfg.minLine
      modifies this`events_used, this`sbOut, events
      ensures Valid() && Grown(old(sbOut), sbOut) && Owned(inode) && Tracks(items + Data(R(inode, ea, datasize), cfg))
    {
      hide Emitted, Pending, Grown, OutOk, QueueOk, Canon;
      NothingGrown(sbOut);
      if !cfg.cacheSim {
        assert items + [] == items;
        return;
      }
      CanonNext(items, E(R(inode, ea, datasize)));
      PutEvent(Dr(inode, ea, datasize));
    }

    /** A write folds into the read before it, if that is of the same place by the same
        instruction. */
    method AddEventDw(inode: InstrInfo, datasize: nat, ea: Atom, ghost items: seq<Item>)
      requires Valid() && Tracks(items) && Owned(inode) && 1 <= datasize <= cfg.minLine
      modifies this`events_used, this`sbOut, events
      ensures Valid() && Grown(old(sbOut), sbOut) && Owned(inode) && Tracks(items + Data(W(inode, ea, datasize), cfg))
    {
      hide Emitted, Pending, Grown, OutOk, QueueOk, Canon;
      NothingGrown(sbOut);
      if !cfg.cacheSim {
        assert items + [] == items;
        return;
      }
      CanonNext(items, E(W(inode, ea, datasize)));
      if events_used > 0 {
        var lastEvt := events[events_used - 1];
        if lastEvt.Dr? && lastEvt.szB == datasize && lastEvt.inode == inode && lastEvt.ea == ea {
          ModifyLast(lastEvt);
          return;
        }
      }
      PutEvent(Dw(inode, ea, datasize));
    }

    /** Turn the read at the end of the buffer into a modify. */
    method ModifyLast(lastEvt: Event)
      requires Valid() && events_used > 0 && events[events_used - 1] == lastEvt && lastEvt.Dr?
      modifies events
      ensures Valid() && events_used > 0 && events[events_used - 1] == Dm(lastEvt.inode, lastEvt.ea, lastEvt.szB)
      ensures Logged() == old(Logged())
    {
      hide Emitted, OutOk;
      ghost var q := Queue();
      ghost var m := events_used - 1;
      var e := Dm(lastEvt.inode, lastEvt.ea, lastEvt.szB);
      events[events_used - 1] := e;
      assert Queue() == q[..m] + [e];
      QueueModified(q, e, cfg);
    }

    /** An access under a guard is emitted at once, behind everything in the buffer. */
    method AddEventDGuarded(inode: InstrInfo, datasize: nat, ea: Atom, guard: Atom, isWrite: bool,
            ghost items: seq<Item>)
      requires Valid() && Tracks(items) && Owned(inode) && 1 <= datasize <= cfg.minLine
      modifies this`events_used, this`sbOut
      ensures Valid() && Grown(old(sbOut), sbOut) && Owned(inode)
      ensures Tracks(items + if cfg.cacheSim
              then [G(if isWrite then W(inode, ea, datasize) else R(inode, ea, datasize), guard)] else [])
    {
      hide Emitted, Pending, Grown, OutOk, QueueOk, Canon, Originals;
      NothingGrown(sbOut);
      if !cfg.cacheSim {
        assert items + [] == items;
        return;
      }
      ghost var g := G(if isWrite then W(inode, ea, datasize) else R(inode, ea, datasize), guard);
      CanonNext(items, g);
      FlushEvents();
      var o := GuardedDirty(if isWrite then Log0Ir1Dw(inode, ea, datasize) else Log0Ir1Dr(inode, ea, datasize), guard);
      Appended(old(sbOut), sbOut, o, cfg);
      assert LoggedBy(o) == LoggedOf(g);
      EmptyQueue(cfg);
      sbOut := sbOut + [o];
    }

    method AddEventBc(inode: InstrInfo, taken: Taken, ghost items: seq<Item>)
      requires Valid() && Tracks(items) && Owned(inode)
      modifies this`events_used, this`sbOut, events
      ensures Valid() && Grown(old(sbOut), sbOut) && Owned(inode)
      ensures Tracks(items + if cfg.branchSim then [E(C(inode, taken))] else [])
    {
      hide Emitted, Pending, Grown, OutOk, QueueOk, Canon;
      NothingGrown(sbOut);
      if !cfg.branchSim {
        assert items + [] == items;
        return;
      }
      CanonNext(items, E(C(inode, taken)));
      PutEvent(Bc(inode, taken));
    }

    method AddEventBi(inode: InstrInfo, whereTo: Atom, ghost items: seq<Item>)
      requires Valid() && Tracks(items) && Owned(inode)
      modifies this`events_used, this`sbOut, events
      ensures Valid() && Grown(old(sbOut), sbOut) && Owned(inode)
      ensures Tracks(items + if cfg.branchSim then [E(B(inode, whereTo))] else [])
    {
      hide Emitted, Pending, Grown, OutOk, QueueOk, Canon;
      NothingGrown(sbOut);
      if !cfg.branchSim {
        assert items + [] == items;
        return;
      }
      CanonNext(items, E(B(inode, whereTo)));
      PutEvent(Bi(inode, whereTo));
    }

    /** Add an instrumentation statement that logs nothing. */
    method Emit(o: OutStmt, ghost items: seq<Item>)
      requires Valid() && Tracks(items) && o.Widen?
      modifies this`sbOut
      ensures Valid() && Tracks(items) && Grown(old(sbOut), sbOut) && (forall n :: Owned(n) == old(Owned(n)))
    {
      hide Emitted, Pending, Grown, OutOk, QueueOk, Canon;
      NothingGrown(sbOut);
      Appended(sbOut, sbOut, o, cfg);
      sbOut := sbOut + [o];
      assert old(Emitted(sbOut)) + [] == old(Emitted(sbOut));
    }

    /** A read and then a write of the same place. */
    method AddReadAndWrite(inode: InstrInfo, datasize: nat, ea: Atom, read: bool, write: bool, ghost items: seq<Item>)
      requires Valid() && Tracks(items) && Owned(inode) && 1 <= datasize <= cfg.minLine
      modifies this`events_used, this`sbOut, events
      ensures Valid() && Grown(old(sbOut), sbOut) && Owned(inode)
      ensures Tracks(items + ((if read then Data(R(inode, ea, datasize), cfg) else [])
                              + (if write then Data(W(inode, ea, datasize), cfg) else [])))
    {
      hide Tracks, Grown, QueueOk, OutOk;
      ghost var r := if read then Data(R(inode, ea, datasize), cfg) else [];
      ghost var w := if write then Data(W(inode, ea, datasize), cfg) else [];
      assert items + [] == items;
      NothingGrown(sbOut);
      if read { AddEventDr(inode, datasize, ea, items); }
      ghost var mid := sbOut;
      NothingGrown(mid);
      assert (items + r) + [] == items + r;
      if write { AddEventDw(inode, datasize, ea, items + r); }
      assert (items + r) + w == items + (r + w);
      GrownTwice(old(sbOut), mid, sbOut);
    }

    /** The side exit: pass its guard to the predictor if it is a branch, then flush, as the
        code behind it may never be reached. */
    method AddExit(n: InstrInfo, guard: Atom, dst: UWord, jk: JumpKind, ghost items: seq<Item>)
      requires Valid() && Tracks(items) && Owned(n)
      modifies this`events_used, this`sbOut, events
      ensures Valid() && Grown(old(sbOut), sbOut) && Owned(n) && events_used == 0
      ensures Tracks(items + Posted(Exit(guard, dst, jk), n, cfg))
    {
      hide Tracks, Grown, QueueOk, OutOk;
      var taken := Taken(guard, dst == (n.addr + n.len) % 0x1_0000_0000_0000_0000);
      ghost var c := if jk != Other && cfg.branchSim then [E(C(n, taken))] else [];
      NothingGrown(sbOut);
      assert items + [] == items;
      if jk != Other {
        Emit(Widen(taken), items);
        ghost var mid := sbOut;
        AddEventBc(n, taken, items);
        GrownTwice(old(sbOut), mid, sbOut);
      }
      ghost var mid := sbOut;
      Barrier(items + c);
      GrownTwice(old(sbOut), mid, sbOut);
      assert (items + c) + [EventStream.Barrier] == items + (c + [EventStream.Barrier]);
    }

    /** Post what one statement posts. */
    method Process(st: Stmt, n: InstrInfo, ghost items: seq<Item>)
      requires Valid() && Tracks(items) && StmtOk(st, cfg)
      requires if st.IMark? then InstrOk(n, cfg) else Owned(n)
      modifies this`events_used, this`sbOut, events
      ensures Valid() && Tracks(items + Posted(st, n, cfg)) && Grown(old(sbOut), sbOut) && Owned(n)
      ensures st.Exit? ==> events_used == 0
    {
      hide Tracks, Grown, QueueOk, OutOk;
      match st
      case Plain =>
        assert items + [] == items;
        NothingGrown(sbOut);
      case IMark(_, _) =>
        AddEventIr(n, items);
      case Load(a, size) =>
        AddEventDr(n, size, a, items);
      case Store(a, size) =>
        AddEventDw(n, size, a, items);
      case LoadG(a, size, g) =>
        AddEventDGuarded(n, size, a, g, false, items);
      case StoreG(a, size, g) =>
        AddEventDGuarded(n, size, a, g, true, items);
      case Dirty(fx, a, size) =>
        if fx == NoFx {
          assert items + Posted(st, n, cfg) == items;
          NothingGrown(sbOut);
        } else {
          AddReadAndWrite(n, Capped(size, cfg), a, fx == ReadFx || fx == ModifyFx, fx == WriteFx
            || fx == ModifyFx, items);
        }
      case CAS(a, size) =>
        AddReadAndWrite(n, Capped(size, cfg), a, true, true, items);
      case LoadLinked(a, size) =>
        AddEventDr(n, size, a, items);
        ghost var mid := sbOut;
        Barrier(items + Data(R(n, a, size), cfg));
        GrownTwice(old(sbOut), mid, sbOut);
        assert (items + Data(R(n, a, size), cfg)) + [EventStream.Barrier] == items + Posted(st, n, cfg);
      case StoreConditional(a, size) =>
        AddEventDw(n, size, a, items);
      case Exit(g, dst, jk) =>
        AddExit(n, g, dst, jk, items);
    }

    /** Deal with a branch to an unknown destination at the end of the block, and flush. */
    method Finish(e: Ending, n: InstrInfo, ghost items: seq<Item>)
      requires Valid() && Tracks(items) && Owned(n)
      modifies this`events_used, this`sbOut, events
      ensures Valid() && events_used == 0 && Tracks(items + Ended(e, n, cfg)) && Grown(old(sbOut), sbOut)
    {
      hide Tracks, Grown, QueueOk, OutOk;
      ghost var b := if (e.jk == Boring || e.jk == Call) && e.next.Tmp? && cfg.branchSim then [E(B(n, e.next))] else [];
      NothingGrown(sbOut);
      assert items + [] == items;
      if e.jk == Boring || e.jk == Call {
        if e.next.Tmp? { AddEventBi(n, e.next, items); }
      }
      ghost var mid := sbOut;
      Barrier(items + b);
      GrownTwice(old(sbOut), mid, sbOut);
      assert (items + b) + [EventStream.Barrier] == items + (b + [EventStream.Barrier]);
    }
  }

  /** What the instrumenter asserts of the code it is given. */
  ghost predicate StmtOk(st: Stmt, cfg: Config) {
    match st
    case IMark(addr, len) => cfg.i1Line > 0 && 0 < InstrSize(len, cfg)
      && addr + InstrSize(len, cfg) - 1 < 0x1_0000_0000_0000_0000
    case Load(_, size) => 1 <= size <= cfg.minLine
    case Store(_, size) => 1 <= size <= cfg.minLine
    case LoadG(_, size, _) => 1 <= size <= cfg.minLine
    case StoreG(_, size, _) => 1 <= size <= cfg.minLine
    case Dirty(fx, _, size) => fx != NoFx ==> 1 <= Capped(size, cfg)
    case CAS(_, size) => 1 <= Capped(size, cfg)
    case LoadLinked(_, size) => 1 <= size <= cfg.minLine
    case StoreConditional(_, size) => 1 <= size <= cfg.minLine
    case _ => true
  }

  lemma QueueGrows(q: seq<Event>, e: Event, cfg: Config)
    requires QueueOk(q, cfg) && EventOk(e, cfg) && (IsIr(e) || (q != [] ==> q[|q| - 1].inode == e.inode))
    ensures QueueOk(q + [e], cfg)
  {
    hide EventOk;
  }

  lemma QueueModified(q: seq<Event>, e: Event, cfg: Config)
    requires q != [] && q[|q| - 1].Dr? && e == Dm(q[|q| - 1].inode, q[|q| - 1].ea, q[|q| - 1].szB) && QueueOk(q, cfg)
    ensures QueueOk(q[..|q| - 1] + [e], cfg) && Pending(q[..|q| - 1] + [e]) == Pending(q)
  {
    var m := |q| - 1;
    var u := q[..m] + [e];
    assert u[..m] == q[..m];
    assert EventOk(q[m], cfg);
  }

  lemma QueueAt(q: seq<Event>, i: nat, cfg: Config)
    requires QueueOk(q, cfg) && i < |q|
    ensures EventOk(q[i], cfg) && (i > 0 && !q[i].IrNoX? && !q[i].IrGen? ==> q[i].inode == q[i - 1].inode)
  {
  }

  lemma EmptyQueue(cfg: Config)
    ensures QueueOk([], cfg) && Pending([]) == []
  {
  }

  lemma NothingGrown(a: seq<OutStmt>)
    ensures Grown(a, a)
  {
  }

  lemma HelperPending(q: seq<Event>, i: nat, call: Helper, k: nat)
    requires 1 <= k <= 3 && i + k <= |q| && |Flat(call)| == k
    requires forall j :: 0 <= j < k ==> Flat(call)[j] == RefOf(q[i + j])
    ensures Pending(q[..i + k]) == Pending(q[..i]) + LoggedBy(Dirtied(call))
  {
    hide Flat, Pending, RefOf;
    var f, p := Flat(call), Pending(q[..i]);
    PendingNext(q, i);
    assert f[0] == RefOf(q[i + 0]);
    if k == 1 {
      assert Unguarded(f) == [Always(f[0])];
    } else {
      PendingNext(q, i + 1);
      assert f[1] == RefOf(q[i + 1]);
      if k == 2 {
        assert Unguarded(f) == [Always(f[0])] + [Always(f[1])];
      } else {
        PendingNext(q, i + 2);
        assert f[2] == RefOf(q[i + 2]);
        assert Unguarded(f) == [Always(f[0])] + [Always(f[1])] + [Always(f[2])];
      }
    }
  }

  // -------------------------------------------------------------- whole blocks

  /** The statements from position start on begin with an instruction. */
  ghost predicate Begins(sbIn: seq<Stmt>, start: nat) {
    start < |sbIn| && sbIn[start].IMark? && forall i :: 0 <= i < start ==> !sbIn[i].IMark?
  }

  /** What statements start .. k-1 post. */
  ghost function ItemsTo(sbIn: seq<Stmt>, start: nat, k: nat, cfg: Config): seq<Item>
    requires Begins(sbIn, start) && k <= |sbIn|
  {
    if k <= start then [] else Items(sbIn[start..k], cfg)
  }

  function InfoOf(st: Stmt, no: nat, cfg: Config): InstrInfo
    requires st.IMark?
  {
    InstrInfo(no, st.addr, InstrSize(st.len, cfg), cfg.lineCC(st.addr))
  }

  lemma ItemsNext(sbIn: seq<Stmt>, start: nat, k: nat, cfg: Config)
    requires Begins(sbIn, start) && start <= k < |sbIn|
    ensures Marks(sbIn[start..k + 1]) > 0
    ensures ItemsTo(sbIn, start, k + 1, cfg) == ItemsTo(sbIn, start, k, cfg)
            + Posted(sbIn[k], Current(sbIn[start..k + 1], cfg), cfg)
    ensures Marks(sbIn[start..k + 1]) == Marks(sbIn[start..k]) + if sbIn[k].IMark? then 1 else 0
    ensures k > start && !sbIn[k].IMark? ==> Marks(sbIn[start..k]) > 0
                                             && Current(sbIn[start..k + 1], cfg) == Current(sbIn[start..k], cfg)
    ensures sbIn[k].IMark? ==> Current(sbIn[start..k + 1], cfg) == InfoOf(sbIn[k], Marks(sbIn[start..k]), cfg)
  {
    hide Posted;
    var s := sbIn[start..k + 1];
    assert s[..|s| - 1] == sbIn[start..k] && s[|s| - 1] == sbIn[k] && s[0] == sbIn[start];
    MarksFromFirst(s);
    if k > start {
      assert sbIn[start..k][0] == sbIn[start];
      MarksFromFirst(sbIn[start..k]);
    }
  }

  lemma {:induction false} MarksGrow(s: seq<Stmt>, k: nat)
    requires k <= |s|
    ensures Marks(s[..k]) <= Marks(s)
  {
    if k < |s| {
      MarksGrow(s[..|s| - 1], k);
      assert s[..|s| - 1][..k] == s[..k];
    } else {
      assert s[..k] == s;
    }
  }

  /** Before every exit exactly the events of all statements up to and including it, and of
      none behind it, have been logged. */
  ghost predicate ExitsLogged(out: seq<OutStmt>, sbIn: seq<Stmt>, start: nat, cfg: Config)
    requires Begins(sbIn, start)
  {
    forall p :: 0 <= p < |out| && out[p].Original? && out[p].st.Exit? ==>
      var k := |Originals(out[..p])|;
      k < |sbIn| && sbIn[k] == out[p].st && Emitted(out[..p]) == Canon(ItemsTo(sbIn, start, k + 1, cfg))
  }

  lemma ExitsKept(a: seq<OutStmt>, b: seq<OutStmt>, sbIn: seq<Stmt>, start: nat, cfg: Config)
    requires Begins(sbIn, start) && ExitsLogged(a, sbIn, start, cfg) && Grown(a, b)
    ensures ExitsLogged(b, sbIn, start, cfg)
  {
    hide Emitted, Canon, ItemsTo, Originals;
    forall p | 0 <= p < |b| && b[p].Original? && b[p].st.Exit?
      ensures var k := |Originals(b[..p])|;
              k < |sbIn| && sbIn[k] == b[p].st && Emitted(b[..p]) == Canon(ItemsTo(sbIn, start, k + 1, cfg))
    {
      assert p < |a| && a[p] == b[p];
      assert b[..p] == a[..p];
    }
  }

  lemma CopiedParts(a: seq<OutStmt>, sbIn: seq<Stmt>, k: nat)
    requires k < |sbIn| && Originals(a) == sbIn[..k]
    ensures Originals(a + [Original(sbIn[k])]) == sbIn[..k + 1] && Emitted(a + [Original(sbIn[k])]) == Emitted(a)
  {
    hide Emitted, Originals;
    EmittedNext(a, Original(sbIn[k]));
    assert sbIn[..k] + [sbIn[k]] == sbIn[..k + 1];
  }

  /** Copying an original statement; before an exit everything must be logged. */
  lemma Copied(a: seq<OutStmt>, sbIn: seq<Stmt>, start: nat, k: nat, cfg: Config)
    requires Begins(sbIn, start) && ExitsLogged(a, sbIn, start, cfg) && k < |sbIn| && Originals(a) == sbIn[..k]
    requires sbIn[k].Exit? ==> Emitted(a) == Canon(ItemsTo(sbIn, start, k + 1, cfg))
    ensures var b := a + [Original(sbIn[k])];
            ExitsLogged(b, sbIn, start, cfg) && Originals(b) == sbIn[..k + 1] && Emitted(b) == Emitted(a)
            && (OutOk(a, cfg) ==> OutOk(b, cfg))
  {
    hide Canon, ItemsTo, HelperOk, Emitted, Originals;
    var b := a + [Original(sbIn[k])];
    CopiedParts(a, sbIn, k);
    forall p | 0 <= p < |b| && b[p].Original? && b[p].st.Exit?
      ensures var j := |Originals(b[..p])|;
              j < |sbIn| && sbIn[j] == b[p].st && Emitted(b[..p]) == Canon(ItemsTo(sbIn, start, j + 1, cfg))
    {
      if p < |a| {
        assert b[..p] == a[..p] && a[p] == b[p];
      } else {
        assert b[..p] == a;
      }
    }
  }

  /** The state while the block is traversed, with k statements done. */
  ghost predicate Traversing(cgs: CgState, sbIn: seq<Stmt>, start: nat, k: nat)
    reads cgs, cgs.events
  {
    && cgs.Valid() && Begins(sbIn, start) && start <= k <= |sbIn|
    && cgs.Tracks(ItemsTo(sbIn, start, k, cgs.cfg))
    && Originals(cgs.sbOut) == sbIn[..k] && ExitsLogged(cgs.sbOut, sbIn, start, cgs.cfg)
    && (k > start ==> Marks(sbIn[start..k]) > 0 && cgs.Owned(Current(sbIn[start..k], cgs.cfg)))
    && (k == start ==> cgs.events_used == 0)
  }

  /** One round of the traversal. */
  method Traverse(cgs: CgState, sbIn: seq<Stmt>, ghost start: nat, k: nat, n: InstrInfo)
    requires Traversing(cgs, sbIn, start, k) && k < |sbIn| && StmtOk(sbIn[k], cgs.cfg)
    requires Marks(sbIn[start..k + 1]) > 0 && n == Current(sbIn[start..k + 1], cgs.cfg)
    modifies cgs`events_used, cgs`sbOut, cgs.events
    ensures Traversing(cgs, sbIn, start, k + 1)
  {
    hide Emitted, Pending, Grown, OutOk, QueueOk, Canon, ExitsLogged, Posted, Items, ItemsTo, Originals, Marks,
         Current, CgState.Tracks;
    ItemsNext(sbIn, start, k, cgs.cfg);
    ghost var items := ItemsTo(sbIn, start, k, cgs.cfg);
    cgs.Process(sbIn[k], n, items);
    ghost var out := cgs.sbOut;
    GrownOriginals(old(cgs.sbOut), out);
    ExitsKept(old(cgs.sbOut), out, sbIn, start, cgs.cfg);
    if sbIn[k].Exit? { TracksFlushed(cgs, ItemsTo(sbIn, start, k + 1, cgs.cfg)); }
    Copied(out, sbIn, start, k, cgs.cfg);
    CopyStmt(cgs, sbIn[k], ItemsTo(sbIn, start, k + 1, cgs.cfg), n);
  }

  lemma GrownOriginals(a: seq<OutStmt>, b: seq<OutStmt>)
    requires Grown(a, b)
    ensures Originals(b) == Originals(a)
  {
  }

  /** With the buffer empty, the code itself logs the stream. */
  lemma TracksFlushed(cgs: CgState, items: seq<Item>)
    requires cgs.Valid() && cgs.Tracks(items) && cgs.events_used == 0
    ensures Emitted(cgs.sbOut) == Canon(items)
  {
    EmptyQueue(cgs.cfg);
    assert cgs.Queue() == [];
  }

  method CopyStmt(cgs: CgState, st: Stmt, ghost items: seq<Item>, ghost n: InstrInfo)
    requires cgs.Valid() && cgs.Tracks(items) && cgs.Owned(n) && OutOk(cgs.sbOut + [Original(st)], cgs.cfg)
    modifies cgs`sbOut
    ensures cgs.Valid() && cgs.Tracks(items) && cgs.Owned(n) && cgs.sbOut == old(cgs.sbOut) + [Original(st)]
  {
    hide Emitted, Pending, Canon, OutOk, QueueOk;
    EmittedNext(cgs.sbOut, Original(st));
    assert old(Emitted(cgs.sbOut)) + [] == old(Emitted(cgs.sbOut));
    cgs.sbOut := cgs.sbOut + [Original(st)];
  }

  /** The number of instructions of a block. */
  method CountInstrs(sbIn: seq<Stmt>) returns (n_instrs: nat)
    ensures n_instrs == Marks(sbIn)
  {
    n_instrs := 0;
    for i := 0 to |sbIn|
      invariant n_instrs == Marks(sbIn[..i])
    {
      assert sbIn[..i + 1][..i] == sbIn[..i];
      if sbIn[i].IMark? { n_instrs := n_instrs + 1; }
    }
    assert sbIn[..|sbIn|] == sbIn;
  }

  /** Verbatim copies log nothing. */
  lemma {:induction false} Verbatim(out: seq<OutStmt>, stmts: seq<Stmt>)
    requires |out| <= |stmts| && forall p :: 0 <= p < |out| ==> out[p] == Original(stmts[p])
    ensures Originals(out) == stmts[..|out|] && Emitted(out) == []
  {
    if out != [] {
      Verbatim(out[..|out| - 1], stmts);
      assert stmts[..|out| - 1] + [stmts[|out| - 1]] == stmts[..|out|];
    }
  }

  /** Copy what precedes the first instruction. */
  method CopyPreamble(cgs: CgState, sbIn: seq<Stmt>) returns (start: nat)
    requires cgs.Valid() && cgs.events_used == 0 && cgs.sbOut == [] && Marks(sbIn) > 0
    modifies cgs`sbOut
    ensures Traversing(cgs, sbIn, start, start) && Marks(sbIn[start..]) == Marks(sbIn)
  {
    hide Originals, Emitted, QueueOk, HelperOk;
    start := 0;
    while start < |sbIn| && !sbIn[start].IMark?
      invariant start <= |sbIn| && (forall i :: 0 <= i < start ==> !sbIn[i].IMark?)
      invariant cgs.Valid() && cgs.events_used == 0
      invariant |cgs.sbOut| == start && forall p :: 0 <= p < start ==> cgs.sbOut[p] == Original(sbIn[p])
    {
      cgs.sbOut := cgs.sbOut + [Original(sbIn[start])];
      start := start + 1;
    }
    MarksSkip(sbIn, start);
    forall p | 0 <= p <= start ensures Originals(cgs.sbOut[..p]) == sbIn[..p] && Emitted(cgs.sbOut[..p]) == [] {
      Verbatim(cgs.sbOut[..p], sbIn);
    }
    assert cgs.sbOut[..start] == cgs.sbOut;
    assert sbIn[start..start] == [] && cgs.Queue() == [];
  }

  lemma {:induction false} MarksSkip(s: seq<Stmt>, start: nat)
    requires start <= |s| && forall i :: 0 <= i < start ==> !s[i].IMark?
    ensures Marks(s[start..]) == Marks(s)
  {
    if start < |s| {
      var m := |s| - 1;
      MarksSkip(s[..m], start);
      assert s[start..][..|s| - start - 1] == s[..m][start..];
    } else {
      NoMarks(s);
    }
  }

  lemma {:induction false} NoMarks(s: seq<Stmt>)
    requires forall i :: 0 <= i < |s| ==> !s[i].IMark?
    ensures Marks(s) == 0
  {
    if s != [] { NoMarks(s[..|s| - 1]); }
  }

  /** Instrument a block.  Whatever the capacity of the buffer, the code logs the canonical
      stream, keeps the original statements in order, and has logged exactly the events up to
      each exit before that exit; and each instruction has its own record. */
  method CgInstrument(cfg: Config, capacity: nat, sbIn: seq<Stmt>, ending: Ending)
    returns (sbOut: seq<OutStmt>, sbInfo: array<InstrInfo>, ghost start: nat)
    requires capacity > 0 && Marks(sbIn) > 0 && forall i :: 0 <= i < |sbIn| ==> StmtOk(sbIn[i], cfg)
    ensures Begins(sbIn, start) && Marks(sbIn[start..]) > 0
    ensures Emitted(sbOut) == Canon(Items(sbIn[start..], cfg) + Ended(ending, Current(sbIn[start..], cfg), cfg))
    ensures Originals(sbOut) == sbIn && ExitsLogged(sbOut, sbIn, start, cfg) && OutOk(sbOut, cfg)
    ensures sbInfo.Length == Marks(sbIn)
    ensures forall k :: start <= k < |sbIn| && sbIn[k].IMark? ==>
              Marks(sbIn[start..k]) < sbInfo.Length
                && sbInfo[Marks(sbIn[start..k])] == InfoOf(sbIn[k], Marks(sbIn[start..k]), cfg)
  {
    hide Emitted, Originals, Canon, OutOk, ExitsLogged, Marks, Current, Items, CgState.Tracks, CgState.Valid;
    var cgs := new CgState(cfg, capacity);
    TracksNothing(cgs);
    var n_instrs := CountInstrs(sbIn);
    sbInfo := new InstrInfo[n_instrs](_ => InstrInfo(0, 0, 0, 0));
    var i := CopyPreamble(cgs, sbIn);
    start := i;
    var sbInfo_i := 0;
    var curr_inode := InstrInfo(0, 0, 0, 0);
    assert sbIn[start..start] == [] && Marks(sbIn[start..start]) == 0 by { NoMarks([]); }
    while i < |sbIn|
      invariant start <= i <= |sbIn| && Traversing(cgs, sbIn, start, i) && sbInfo_i == Marks(sbIn[start..i])
      invariant i > start ==> curr_inode == Current(sbIn[start..i], cfg)
      invariant sbInfo_i <= sbInfo.Length
      invariant forall k :: start <= k < i && sbIn[k].IMark? ==>
              Marks(sbIn[start..k]) < sbInfo_i
                && sbInfo[Marks(sbIn[start..k])] == InfoOf(sbIn[k], Marks(sbIn[start..k]), cfg)
      invariant cgs.cfg == cfg && fresh(cgs) && fresh(cgs.events)
    {
      ItemsNext(sbIn, start, i, cfg);
      MarksGrow(sbIn[start..], i + 1 - start);
      assert sbIn[start..][..i + 1 - start] == sbIn[start..i + 1];
      if sbIn[i].IMark? {
        curr_inode := InfoOf(sbIn[i], sbInfo_i, cfg);
        sbInfo[sbInfo_i] := curr_inode;
        sbInfo_i := sbInfo_i + 1;
      }
      Traverse(cgs, sbIn, start, i, curr_inode);
      i := i + 1;
    }
    assert sbIn[start..|sbIn|] == sbIn[start..] && sbIn[..|sbIn|] == sbIn;
    ghost var out := cgs.sbOut;
    cgs.Finish(ending, curr_inode, ItemsTo(sbIn, start, |sbIn|, cfg));
    TracksFlushed(cgs, ItemsTo(sbIn, start, |sbIn|, cfg) + Ended(ending, curr_inode, cfg));
    ExitsKept(out, cgs.sbOut, sbIn, start, cfg);
    GrownOriginals(out, cgs.sbOut);
    sbOut := cgs.sbOut;
    OutOfState(cgs);
  }

  lemma OutOfState(cgs: CgState)
    requires cgs.Valid()
    ensures OutOk(cgs.sbOut, cgs.cfg)
  {
  }

  lemma TracksNothing(cgs: CgState)
    requires cgs.Valid() && cgs.events_used == 0 && cgs.sbOut == []
    ensures cgs.Tracks([])
  {
    assert cgs.Queue() == [];
  }

  // ------------------------------------------------------------------ meaning

  /** An instruction read through the special case. */
  function LogNoX(m: Machine, n: InstrInfo, env: Env, cfg: Config): (u: Machine)
    requires MachineOk(m, cfg)
    ensures MachineOk(u, cfg)
  {
    Instr(m, n.parent, DoRefNoX(m.i1, m.ll, n.addr))
  }

  ghost predicate FlatFits(c: Helper, env: Env, cfg: Config) {
    forall i :: 0 <= i < |Flat(c)| ==> RefFits(Flat(c)[i], env, cfg)
  }

  /** What a helper does, as its body is written. */
  function RunHelper(m: Machine, c: Helper, env: Env, cfg: Config): (u: Machine)
    requires MachineOk(m, cfg) && HelperOk(c, cfg) && FlatFits(c, env, cfg)
    ensures MachineOk(u, cfg)
  {
    assert forall i :: 0 <= i < |Flat(c)| ==> RefFits(Flat(c)[i], env, cfg);
    var f := Flat(c);
    match c
    case Log1Ir(n) => Log(m, f[0], env, cfg)
    case Log2Ir(n, n2) => Log(Log(m, f[0], env, cfg), f[1], env, cfg)
    case Log3Ir(n, n2, n3) => Log(Log(Log(m, f[0], env, cfg), f[1], env, cfg), f[2], env, cfg)
    case Log1IrGen0D(n) => Log(m, f[0], env, cfg)
    case Log1IrNoX0D(n) => LogNoX(m, n, env, cfg)
    case Log2IrNoX0D(n, n2) => LogNoX(LogNoX(m, n, env, cfg), n2, env, cfg)
    case Log3IrNoX0D(n, n2, n3) => LogNoX(LogNoX(LogNoX(m, n, env, cfg), n2, env, cfg), n3, env, cfg)
    case Log1IrNoX1Dr(n, ea, sz) => Log(LogNoX(m, n, env, cfg), f[1], env, cfg)
    case Log1IrNoX1Dw(n, ea, sz) => Log(LogNoX(m, n, env, cfg), f[1], env, cfg)
    case Log0Ir1Dr(n, ea, sz) => Log(m, f[0], env, cfg)
    case Log0Ir1Dw(n, ea, sz) => Log(m, f[0], env, cfg)
    case LogCondBranch(n, t) => Log(m, f[0], env, cfg)
    case LogIndBranch(n, dst) => Log(m, f[0], env, cfg)
  }

  /** Where the instrumenter chose it, the special case logs what the general one does. */
  lemma NoXLogs(m: Machine, n: InstrInfo, env: Env, cfg: Config)
    requires MachineOk(m, cfg) && cfg.cacheSim && NoX(n, cfg) && RefFits(I(n), env, cfg)
    ensures LogNoX(m, n, env, cfg) == Log(m, I(n), env, cfg)
  {
    hide DoRef, DoRefNoX;
    NoXIsGen(m.i1, m.ll, n.addr, n.len);
  }

  lemma LogOne(m: Machine, s: seq<Ref>, r: Ref, env: Env, cfg: Config)
    requires MachineOk(m, cfg) && AllFit(Unguarded(s), env, cfg) && RefFits(r, env, cfg)
    ensures AllFit(Unguarded(s + [r]), env, cfg)
    ensures LogAll(m, Unguarded(s + [r]), env, cfg) == Log(LogAll(m, Unguarded(s), env, cfg), r, env, cfg)
  {
    hide Log, RefFits, MachineOk;
    var u := Unguarded(s + [r]);
    assert u[..|s|] == Unguarded(s) && u[|s|] == Always(r);
  }

  /** Up to three events logged one after the other. */
  lemma LogFlat(m: Machine, f: seq<Ref>, env: Env, cfg: Config)
    requires MachineOk(m, cfg) && 1 <= |f| <= 3 && forall i :: 0 <= i < |f| ==> RefFits(f[i], env, cfg)
    ensures AllFit(Unguarded(f), env, cfg)
    ensures LogAll(m, Unguarded(f), env, cfg)
            == var m1 := Log(m, f[0], env, cfg);
               if |f| == 1 then m1 else
               var m2 := Log(m1, f[1], env, cfg);
               if |f| == 2 then m2 else Log(m2, f[2], env, cfg)
  {
    hide Log, RefFits, MachineOk, LogAll;
    assert Unguarded([]) == [] && LogAll(m, [], env, cfg) == m by { LogNone(m, env, cfg); }
    LogOne(m, [], f[0], env, cfg);
    assert [] + [f[0]] == f[..1];
    if |f| > 1 {
      LogOne(m, f[..1], f[1], env, cfg);
      assert f[..1] + [f[1]] == f[..2];
    }
    if |f| > 2 {
      LogOne(m, f[..2], f[2], env, cfg);
      assert f[..2] + [f[2]] == f[..3];
    }
    assert f[..|f|] == f;
  }

  lemma LogNone(m: Machine, env: Env, cfg: Config)
    requires MachineOk(m, cfg)
    ensures LogAll(m, [], env, cfg) == m
  {
  }

  /** A helper logs its events one after the other. */
  lemma HelperLogsFlat(m: Machine, c: Helper, env: Env, cfg: Config)
    requires MachineOk(m, cfg) && HelperOk(c, cfg) && FlatFits(c, env, cfg)
    ensures AllFit(Unguarded(Flat(c)), env, cfg)
    ensures RunHelper(m, c, env, cfg) == LogAll(m, Unguarded(Flat(c)), env, cfg)
  {
    hide Log, RefFits, MachineOk, LogNoX, NoX, LogAll, AllFit, Unguarded;
    var f := Flat(c);
    assert forall i :: 0 <= i < |f| ==> RefFits(f[i], env, cfg);
    LogFlat(m, f, env, cfg);
    match c
    case Log1IrNoX0D(n) => NoXLogs(m, n, env, cfg);
    case Log2IrNoX0D(n, n2) =>
      NoXLogs(m, n, env, cfg);
      NoXLogs(LogNoX(m, n, env, cfg), n2, env, cfg);
    case Log3IrNoX0D(n, n2, n3) =>
      NoXLogs(m, n, env, cfg);
      NoXLogs(LogNoX(m, n, env, cfg), n2, env, cfg);
      NoXLogs(LogNoX(LogNoX(m, n, env, cfg), n2, env, cfg), n3, env, cfg);
    case Log1IrNoX1Dr(n, _, _) => NoXLogs(m, n, env, cfg);
    case Log1IrNoX1Dw(n, _, _) => NoXLogs(m, n, env, cfg);
    case _ =>
  }

  ghost predicate OutFits(out: seq<OutStmt>, env: Env, cfg: Config) {
    forall i :: 0 <= i < |out| && (out[i].Dirtied? || out[i].GuardedDirty?) ==> FlatFits(out[i].call, env, cfg)
  }

  /** Running the instrumented code: each helper call in turn, guarded ones if their guard is
      true; the original statements do not touch the simulation. */
  function RunOut(m: Machine, out: seq<OutStmt>, env: Env, cfg: Config): (u: Machine)
    requires MachineOk(m, cfg) && OutOk(out, cfg) && OutFits(out, env, cfg)
    ensures MachineOk(u, cfg)
  {
    if out == [] then m else
    var before := RunOut(m, out[..|out| - 1], env, cfg);
    match out[|out| - 1]
    case Dirtied(c) => RunHelper(before, c, env, cfg)
    case GuardedDirty(c, g) => if env(g) == 0 then before else RunHelper(before, c, env, cfg)
    case _ => before
  }

  lemma OneLogged(m: Machine, o: OutStmt, env: Env, cfg: Config)
    requires MachineOk(m, cfg) && OutOk([o], cfg) && OutFits([o], env, cfg)
    ensures AllFit(LoggedBy(o), env, cfg)
    ensures RunOut(m, [o], env, cfg) == LogAll(m, LoggedBy(o), env, cfg)
  {
    hide Log, RefFits, MachineOk, LogNoX, NoX, RunHelper, HelperOk, FlatFits;
    assert [o][..0] == [] && [o][0] == o;
    match o
    case Dirtied(c) => HelperLogsFlat(m, c, env, cfg);
    case GuardedDirty(c, g) =>
      HelperLogsFlat(m, c, env, cfg);
      GuardedOne(m, Flat(c)[0], g, env, cfg);
      assert Guarded(Flat(c), g) == [If(Flat(c)[0], g)] && Unguarded(Flat(c)) == [Always(Flat(c)[0])];
    case _ =>
  }

  lemma GuardedOne(m: Machine, r: Ref, g: Atom, env: Env, cfg: Config)
    requires MachineOk(m, cfg) && AllFit([Always(r)], env, cfg)
    ensures AllFit([If(r, g)], env, cfg)
    ensures LogAll(m, [If(r, g)], env, cfg) == if env(g) == 0 then m else LogAll(m, [Always(r)], env, cfg)
  {
    hide Log, RefFits, MachineOk;
    assert [Always(r)][0].ref == r && [If(r, g)][..0] == [] && [Always(r)][..0] == [];
  }

  /** Running the code is logging what it emits, one event at a time. */
  lemma {:induction false} RunLogsEmitted(m: Machine, out: seq<OutStmt>, env: Env, cfg: Config)
    requires MachineOk(m, cfg) && OutOk(out, cfg) && OutFits(out, env, cfg)
    ensures AllFit(Emitted(out), env, cfg)
    ensures RunOut(m, out, env, cfg) == LogAll(m, Emitted(out), env, cfg)
  {
    hide Log, RefFits, MachineOk, RunHelper, HelperOk, FlatFits, LoggedBy;
    if out != [] {
      var before, o := out[..|out| - 1], out[|out| - 1];
      RunLogsEmitted(m, before, env, cfg);
      var u := RunOut(m, before, env, cfg);
      assert [o][..0] == [] && RunOut(u, [], env, cfg) == u;
      OneLogged(u, o, env, cfg);
      assert AllFit(Emitted(before) + LoggedBy(o), env, cfg) by { FitAppend(Emitted(before), LoggedBy(o), env, cfg); }
      LogAppend(m, Emitted(before), LoggedBy(o), env, cfg);
    }
  }

  lemma FitAppend(s: seq<Logged>, t: seq<Logged>, env: Env, cfg: Config)
    requires AllFit(s, env, cfg) && AllFit(t, env, cfg)
    ensures AllFit(s + t, env, cfg)
  {
    hide RefFits;
    var u := s + t;
    forall i | 0 <= i < |u| ensures RefFits(u[i].ref, env, cfg) {
      if i < |s| { assert u[i] == s[i]; } else { assert u[i] == t[i - |s|]; }
    }
  }

  lemma PrefixOk(out: seq<OutStmt>, p: nat, env: Env, cfg: Config)
    requires OutOk(out, cfg) && OutFits(out, env, cfg) && p <= |out|
    ensures OutOk(out[..p], cfg) && OutFits(out[..p], env, cfg)
  {
    hide HelperOk, FlatFits;
  }

  /** The code up to an exit leaves caches, counters and predictor as logging the canonical
      stream of everything up to that exit one event at a time would. */
  lemma ExitMeaning(m: Machine, out: seq<OutStmt>, p: nat, k: nat, sbIn: seq<Stmt>, start: nat, env: Env, cfg: Config)
    requires MachineOk(m, cfg) && Begins(sbIn, start) && ExitsLogged(out, sbIn, start, cfg)
    requires p < |out| && out[p].Original? && out[p].st.Exit? && k == |Originals(out[..p])|
    requires OutOk(out[..p], cfg) && OutFits(out[..p], env, cfg)
    ensures k < |sbIn| && sbIn[k] == out[p].st
    ensures AllFit(Canon(ItemsTo(sbIn, start, k + 1, cfg)), env, cfg)
    ensures RunOut(m, out[..p], env, cfg) == LogAll(m, Canon(ItemsTo(sbIn, start, k + 1, cfg)), env, cfg)
  {
    hide HelperOk, FlatFits, MachineOk, Emitted, Originals, Canon, ItemsTo, RefFits, RunOut, LogAll;
    RunLogsEmitted(m, out[..p], env, cfg);
  }
}
