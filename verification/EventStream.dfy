/** The events an instrumented block must log: what each statement posts, which writes fold
    into the read before them, and what logging an event does to caches and counters. */
module EventStream {
  import opened CacheSim

  // ---------------------------------------------------------------- the code

  datatype Atom = Const(value: UWord) | Tmp(id: nat)

  /** What a jump is for; only these three count as branches of the guest. */
  datatype JumpKind = Boring | Call | Ret | Other

  datatype Effect = NoFx | ReadFx | WriteFx | ModifyFx

  /** Statements as the instrumenter sees them; sizes in bytes. */
  datatype Stmt =
    | Plain
    | IMark(addr: UWord, len: nat)
    | Load(addr0: Atom, size: nat)
    | Store(addr0: Atom, size: nat)
    | LoadG(addr0: Atom, size: nat, guard: Atom)
    | StoreG(addr0: Atom, size: nat, guard: Atom)
    | Dirty(fx: Effect, addr0: Atom, size: nat)
    | CAS(addr0: Atom, size: nat)
    | LoadLinked(addr0: Atom, size: nat)
    | StoreConditional(addr0: Atom, size: nat)
    | Exit(guard: Atom, dst: UWord, jk: JumpKind)

  /** How a block ends: the jump kind, and a target that is not a known address. */
  datatype Ending = Ending(jk: JumpKind, next: Atom)

  datatype InstrInfo = InstrInfo(no: nat, addr: UWord, len: nat, parent: nat)

  /** The value passed for a conditional branch: the exit's guard, inverted if the optimiser
      had inverted the exit. */
  datatype Taken = Taken(guard: Atom, inverted: bool)

  datatype Config = Config(cacheSim: bool, branchSim: bool, i1Line: nat, d1Line: nat, llLine: nat,
                           minLine: nat, minInstr: nat, lineCC: UWord -> nat)

  // -------------------------------------------------------------- the events

  /** One thing to be logged. */
  datatype Ref =
    | I(inode: InstrInfo)
    | R(inode: InstrInfo, ea: Atom, szB: nat)
    | W(inode: InstrInfo, ea: Atom, szB: nat)
    | C(inode: InstrInfo, taken: Taken)
    | B(inode: InstrInfo, dst: Atom)

  /** What a statement posts: an event, an event under a guard, or a barrier that events do
      not cross. */
  datatype Item = E(ref: Ref) | G(guarded: Ref, guard: Atom) | Barrier

  /** An event to log, or to log if the guard is true. */
  datatype Logged = Always(ref: Ref) | If(ref: Ref, guard: Atom)

  function InstrSize(len: nat, cfg: Config): nat {
    if len == 0 then cfg.minInstr else len
  }

  function Capped(size: nat, cfg: Config): nat {
    if size > cfg.minLine then cfg.minLine else size
  }

  /** The number of instructions among the statements. */
  function Marks(stmts: seq<Stmt>): nat {
    if stmts == [] then 0 else Marks(stmts[..|stmts| - 1]) + if stmts[|stmts| - 1].IMark? then 1 else 0
  }

  /** The instruction the end of stmts belongs to. */
  function Current(stmts: seq<Stmt>, cfg: Config): (n: InstrInfo)
    requires Marks(stmts) > 0
    ensures n.no == Marks(stmts) - 1
  {
    var m := |stmts| - 1;
    if stmts[m].IMark? then
      InstrInfo(Marks(stmts) - 1, stmts[m].addr, InstrSize(stmts[m].len, cfg), cfg.lineCC(stmts[m].addr))
    else Current(stmts[..m], cfg)
  }

  function Data(r: Ref, cfg: Config): seq<Item> {
    if cfg.cacheSim then [E(r)] else []
  }

  /** What the statement st posts for the instruction n. */
  function Posted(st: Stmt, n: InstrInfo, cfg: Config): seq<Item> {
    match st
    case Plain => []
    case IMark(_, _) => [E(I(n))]
    case Load(a, size) => Data(R(n, a, size), cfg)
    case Store(a, size) => Data(W(n, a, size), cfg)
    case LoadG(a, size, g) => if cfg.cacheSim then [G(R(n, a, size), g)] else []
    case StoreG(a, size, g) => if cfg.cacheSim then [G(W(n, a, size), g)] else []
    case Dirty(fx, a, size) =>
      (if fx == ReadFx || fx == ModifyFx then Data(R(n, a, Capped(size, cfg)), cfg) else [])
      + (if fx == WriteFx || fx == ModifyFx then Data(W(n, a, Capped(size, cfg)), cfg) else [])
    case CAS(a, size) => Data(R(n, a, Capped(size, cfg)), cfg) + Data(W(n, a, Capped(size, cfg)), cfg)
    case LoadLinked(a, size) => Data(R(n, a, size), cfg) + [Barrier]
    case StoreConditional(a, size) => Data(W(n, a, size), cfg)
    case Exit(g, dst, jk) =>
      (if jk != Other && cfg.branchSim then [E(C(n, Taken(g, dst == (n.addr + n.len) % 0x1_0000_0000_0000_0000)))]
        else []) + [Barrier]
  }

  /** Everything the statements post, in order. */
  function Items(stmts: seq<Stmt>, cfg: Config): seq<Item>
    requires stmts != [] && stmts[0].IMark?
  {
    var m := |stmts| - 1;
    MarksFromFirst(stmts);
    (if m == 0 then [] else Items(stmts[..m], cfg)) + Posted(stmts[m], Current(stmts, cfg), cfg)
  }

  lemma {:induction false} MarksFromFirst(stmts: seq<Stmt>)
    requires stmts != [] && stmts[0].IMark?
    ensures Marks(stmts) > 0
  {
    if |stmts| > 1 { MarksFromFirst(stmts[..|stmts| - 1]); }
  }

  function Ended(e: Ending, n: InstrInfo, cfg: Config): seq<Item> {
    (if (e.jk == Boring || e.jk == Call) && e.next.Tmp? && cfg.branchSim then [E(B(n, e.next))] else []) + [Barrier]
  }

  /** A write right after a read of the same instruction, address and size. */
  predicate Folds(items: seq<Item>) {
    var m := |items| - 1;
    && m > 0 && items[m].E? && items[m].ref.W?
    && items[m - 1] == E(R(items[m].ref.inode, items[m].ref.ea, items[m].ref.szB))
  }

  function LoggedOf(it: Item): seq<Logged> {
    match it
    case E(r) => [Always(r)]
    case G(r, g) => [If(r, g)]
    case Barrier => []
  }

  /** The canonical stream: what is posted, less the writes that fold into a read. */
  function Canon(items: seq<Item>): seq<Logged> {
    if items == [] then [] else
    Canon(items[..|items| - 1]) + if Folds(items) then [] else LoggedOf(items[|items| - 1])
  }

  // ---------------------------------------------------------------- meaning

  datatype CC = CC(a: nat, m1: nat, mL: nat)

  datatype LineCC = LineCC(ir: CC, dr: CC, dw: CC, bc: nat, bi: nat)

  /** One consultation of the branch predictor. */
  datatype Prediction = Cond(addr: UWord, taken: UWord) | Ind(addr: UWord, dst: UWord)

  /** Caches, counters of each source line, and the consultations of the predictor so far. */
  datatype Machine = Machine(i1: Cache, d1: Cache, ll: Cache, lines: map<nat, LineCC>, predictions: seq<Prediction>)

  /** The values temporaries have while the block runs. */
  type Env = Atom -> UWord

  const ZERO := LineCC(CC(0, 0, 0), CC(0, 0, 0), CC(0, 0, 0), 0, 0)

  function Line(m: Machine, p: nat): LineCC {
    if p in m.lines then m.lines[p] else ZERO
  }

  function Bumped(c: CC, m1: bool, mL: bool): CC {
    CC(c.a + 1, c.m1 + (if m1 then 1 else 0), c.mL + if mL then 1 else 0)
  }

  ghost predicate MachineOk(m: Machine, cfg: Config) {
    && CacheOk(m.i1) && CacheOk(m.d1) && CacheOk(m.ll)
    && m.i1.lineSize == cfg.i1Line && m.d1.lineSize == cfg.d1Line && m.ll.lineSize == cfg.llLine
  }

  /** The access fits the simulated lines. */
  ghost predicate RefFits(r: Ref, env: Env, cfg: Config) {
    cfg.cacheSim ==>
      match r
      case I(n) => Fits(n.addr, n.len, cfg.i1Line) && Fits(n.addr, n.len, cfg.llLine)
      case R(_, ea, sz) => Fits(env(ea), sz, cfg.d1Line) && Fits(env(ea), sz, cfg.llLine)
      case W(_, ea, sz) => Fits(env(ea), sz, cfg.d1Line) && Fits(env(ea), sz, cfg.llLine)
      case _ => true
  }

  function TakenValue(t: Taken, env: Env): UWord {
    if t.inverted then (if env(t.guard) == 0 then 1 else 0) else (if env(t.guard) == 0 then 0 else 1)
  }

  function Instr(m: Machine, p: nat, x: Result): Machine {
    m.(i1 := x.l1, ll := x.ll, lines := m.lines[p := Line(m, p).(ir := Bumped(Line(m, p).ir, x.m1, x.mL))])
  }

  /** Logging one event: a general lookup, counted on the event's source line. */
  function Log(m: Machine, r: Ref, env: Env, cfg: Config): (u: Machine)
    requires MachineOk(m, cfg) && RefFits(r, env, cfg)
    ensures MachineOk(u, cfg)
  {
    var p := r.inode.parent;
    var line := Line(m, p);
    match r
    case I(n) =>
      if !cfg.cacheSim then m.(lines := m.lines[p := line.(ir := Bumped(line.ir, false, false))]) else
      Instr(m, p, DoRef(m.i1, m.ll, n.addr, n.len))
    case R(n, ea, sz) =>
      if !cfg.cacheSim then m else
      var x := DoRef(m.d1, m.ll, env(ea), sz);
      m.(d1 := x.l1, ll := x.ll, lines := m.lines[p := line.(dr := Bumped(line.dr, x.m1, x.mL))])
    case W(n, ea, sz) =>
      if !cfg.cacheSim then m else
      var x := DoRef(m.d1, m.ll, env(ea), sz);
      m.(d1 := x.l1, ll := x.ll, lines := m.lines[p := line.(dw := Bumped(line.dw, x.m1, x.mL))])
    case C(n, t) =>
      m.(lines := m.lines[p := line.(bc := line.bc + 1)],
        predictions := m.predictions + [Cond(n.addr, TakenValue(t, env))])
    case B(n, dst) =>
      m.(lines := m.lines[p := line.(bi := line.bi + 1)], predictions := m.predictions + [Ind(n.addr, env(dst))])
  }

  ghost predicate AllFit(s: seq<Logged>, env: Env, cfg: Config) {
    forall i :: 0 <= i < |s| ==> RefFits(s[i].ref, env, cfg)
  }

  /** Logging a stream one event at a time. */
  function LogAll(m: Machine, s: seq<Logged>, env: Env, cfg: Config): (u: Machine)
    requires MachineOk(m, cfg) && AllFit(s, env, cfg)
    ensures MachineOk(u, cfg)
  {
    if s == [] then m else
    var before := LogAll(m, s[..|s| - 1], env, cfg);
    var e := s[|s| - 1];
    if e.If? && env(e.guard) == 0 then before else Log(before, e.ref, env, cfg)
  }

  lemma {:induction false} LogAppend(m: Machine, s: seq<Logged>, t: seq<Logged>, env: Env, cfg: Config)
    requires MachineOk(m, cfg) && AllFit(s + t, env, cfg)
    ensures AllFit(s, env, cfg) && AllFit(t, env, cfg)
    ensures LogAll(m, s + t, env, cfg) == LogAll(LogAll(m, s, env, cfg), t, env, cfg)
  {
    hide Log, RefFits, MachineOk;
    assert forall i :: 0 <= i < |s| ==> (s + t)[i] == s[i];
    assert forall i :: 0 <= i < |t| ==> (s + t)[|s| + i] == t[i];
    if t == [] {
      assert s + t == s;
    } else {
      var u := t[..|t| - 1];
      assert (s + t)[..|s + t| - 1] == s + u;
      LogAppend(m, s, u, env, cfg);
    }
  }
}
