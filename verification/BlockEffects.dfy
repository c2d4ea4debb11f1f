/** What a block does, statement by statement, and that this is what its instrumentation logs: each
    fetch, read, write and branch with its source line, address and size, in order. */
module BlockEffects {
  import opened CacheSim
  import opened EventStream
  import opened EventCounts
  import EventQueue

  datatype Option<T> = None | Some(value: T)

  datatype Effect =
    | Fetched(line: nat, a: UWord, size: nat)
    | DidRead(line: nat, a: UWord, size: nat)
    | DidWrite(line: nat, a: UWord, size: nat)
    | Branched(line: nat, at: UWord, taken: bool)
    | WentTo(line: nat, at: UWord, dst: UWord)

  /** What an event says has happened. */
  function EffectOf(r: EventStream.Ref, env: Env): Effect {
    match r
    case I(n) => Fetched(n.parent, n.addr, n.len)
    case R(n, ea, sz) => DidRead(n.parent, env(ea), sz)
    case W(n, ea, sz) => DidWrite(n.parent, env(ea), sz)
    case C(n, t) => Branched(n.parent, n.addr, (env(t.guard) != 0) != t.inverted)
    case B(n, dst) => WentTo(n.parent, n.addr, env(dst))
  }

  function Effects(s: seq<Logged>, env: Env): seq<Effect> {
    if s == [] then [] else
    var n := |s| - 1;
    Effects(s[..n], env) + if Happens(s[n], env) then [EffectOf(s[n].ref, env)] else []
  }

  // --------------------------------------------------------------- statements

  /** The instruction that is executing: its source line, address, and length in bytes; an
      instruction that could not be decoded is given the least length. */
  datatype Instruction = Instruction(line: nat, addr: UWord, len: nat)

  function Executing(stmts: seq<Stmt>, cfg: Config): Option<Instruction> {
    if stmts == [] then None else
    var st := stmts[|stmts| - 1];
    if st.IMark? then Some(Instruction(cfg.lineCC(st.addr), st.addr, if st.len > 0 then st.len else cfg.minInstr))
    else Executing(stmts[..|stmts| - 1], cfg)
  }

  function Least(x: nat, y: nat): nat {
    if x < y then x else y
  }

  /** The place just read, if a write there by the same instruction would make it a modification. */
  function JustRead(stmts: seq<Stmt>, cfg: Config): Option<(Atom, nat)> {
    if stmts == [] then None else
    var st := stmts[|stmts| - 1];
    if st.Plain? || (st.Dirty? && st.fx == NoFx) then JustRead(stmts[..|stmts| - 1], cfg) else JustOne(st, cfg)
  }

  /** The place a statement ends in reading. */
  function JustOne(st: Stmt, cfg: Config): Option<(Atom, nat)> {
    match st
    case Load(a, size) => Some((a, size))
    case Dirty(fx, a, size) => if fx == ReadFx then Some((a, Least(size, cfg.minLine))) else None
    case _ => None
  }

  /** What a statement of the instruction i does; guards that are false undo an access, a modification
      is one read, and an access of a helper or a swap counts for at most a line.  An exit is a branch
      if it is a jump, call or return of the program, and it is taken if its guard is true, or false
      where it leads to the next instruction. */
  function Does(st: Stmt, i: Instruction, just: Option<(Atom, nat)>, env: Env, cfg: Config): seq<Effect> {
    match st
    case Plain => []
    case IMark(_, _) => [Fetched(i.line, i.addr, i.len)]
    case Load(a, size) => if cfg.cacheSim then [DidRead(i.line, env(a), size)] else []
    case Store(a, size) =>
      if cfg.cacheSim && just != Some((a, size)) then [DidWrite(i.line, env(a), size)] else []
    case LoadG(a, size, g) => if cfg.cacheSim && env(g) != 0 then [DidRead(i.line, env(a), size)] else []
    case StoreG(a, size, g) => if cfg.cacheSim && env(g) != 0 then [DidWrite(i.line, env(a), size)] else []
    case Dirty(fx, a, size) =>
      var n := Least(size, cfg.minLine);
      if !cfg.cacheSim || fx == NoFx then []
      else if fx == ReadFx || fx == ModifyFx then [DidRead(i.line, env(a), n)]
      else if just != Some((a, n)) then [DidWrite(i.line, env(a), n)] else []
    case CAS(a, size) => if cfg.cacheSim then [DidRead(i.line, env(a), Least(size, cfg.minLine))] else []
    case LoadLinked(a, size) => if cfg.cacheSim then [DidRead(i.line, env(a), size)] else []
    case StoreConditional(a, size) =>
      if cfg.cacheSim && just != Some((a, size)) then [DidWrite(i.line, env(a), size)] else []
    case Exit(g, dst, jk) =>
      if cfg.branchSim && (jk == Boring || jk == Call || jk == Ret)
      then [Branched(i.line, i.addr, if dst == (i.addr + i.len) % 18446744073709551616 then env(g) == 0
        else env(g) != 0)]
      else []
  }

  /** What a block does, one statement after the other. */
  function BlockDoes(stmts: seq<Stmt>, env: Env, cfg: Config): seq<Effect> {
    if stmts == [] then [] else
    var m := |stmts| - 1;
    var i := Executing(stmts, cfg);
    BlockDoes(stmts[..m], env, cfg)
    + if i.Some? then Does(stmts[m], i.value, JustRead(stmts[..m], cfg), env, cfg) else []
  }

  /** At its end it may go to an address that is not known before. */
  function EndDoes(e: Ending, i: Instruction, env: Env, cfg: Config): seq<Effect> {
    if cfg.branchSim && (e.jk == Boring || e.jk == Call) && e.next.Tmp? then [WentTo(i.line, i.addr, env(e.next))]
    else []
  }

  // ------------------------------------------------------------------- proofs

  lemma EffectsNext(s: seq<Logged>, e: Logged, env: Env)
    ensures Effects(s + [e], env) == Effects(s, env) + if Happens(e, env) then [EffectOf(e.ref, env)] else []
  {
    assert (s + [e])[..|s|] == s;
  }

  lemma CanonOne(items: seq<Item>, it: Item, env: Env)
    ensures Effects(Canon(items + [it]), env)
            == Effects(Canon(items), env)
               + if it.Barrier? || Folds(items + [it]) then []
                 else if it.E? then [EffectOf(it.ref, env)]
                 else if env(it.guard) != 0 then [EffectOf(it.guarded, env)] else []
  {
    hide EffectOf, Folds;
    assert (items + [it])[..|items|] == items;
    if it.E? {
      EffectsNext(Canon(items), Always(it.ref), env);
    } else if it.G? {
      EffectsNext(Canon(items), If(it.guarded, it.guard), env);
    }
    assert Canon(items) + [] == Canon(items);
  }

  lemma {:induction false} ExecutingIs(stmts: seq<Stmt>, cfg: Config)
    requires stmts != [] && stmts[0].IMark?
    ensures Marks(stmts) > 0 && Executing(stmts, cfg).Some?
    ensures var (n, i) := (Current(stmts, cfg), Executing(stmts, cfg).value);
            i == Instruction(n.parent, n.addr, n.len)
  {
    MarksFromFirst(stmts);
    if !stmts[|stmts| - 1].IMark? { ExecutingIs(stmts[..|stmts| - 1], cfg); }
  }

  /** The items end in the read that a write could fold into. */
  ghost predicate EndsInRead(items: seq<Item>, n: InstrInfo, just: Option<(Atom, nat)>) {
    forall a, size :: (items != [] && items[|items| - 1] == E(R(n, a, size))) <==> just == Some((a, size))
  }

  lemma FoldsIs(items: seq<Item>, n: InstrInfo, a: Atom, size: nat, just: Option<(Atom, nat)>)
    requires EndsInRead(items, n, just)
    ensures Folds(items + [E(W(n, a, size))]) <==> just == Some((a, size))
  {
  }

  lemma NoFold(items: seq<Item>, it: Item)
    requires it.E? ==> !it.ref.W?
    ensures !Folds(items + [it])
  {
  }

  /** One statement: it does what it posts, and leaves the read it ends in. */
  lemma StatementDoes(items: seq<Item>, st: Stmt, n: InstrInfo, just: Option<(Atom, nat)>, env: Env, cfg: Config)
    requires !st.IMark? && (cfg.cacheSim ==> EndsInRead(items, n, just))
    ensures Effects(Canon(items + Posted(st, n, cfg)), env)
            == Effects(Canon(items), env) + Does(st, Instruction(n.parent, n.addr, n.len), just, env, cfg)
  {
    hide Effects, Canon, Folds, EndsInRead;
    var i := Instruction(n.parent, n.addr, n.len);
    var none: seq<Effect> := [];
    assert items + [] == items && Effects(Canon(items), env) + none == Effects(Canon(items), env);
    match st
    case Plain =>
    case Load(a, size) =>
      if cfg.cacheSim { ReadDoes(items, n, a, size, env); }
    case Store(a, size) =>
      if cfg.cacheSim { WriteDoes(items, n, a, size, just, env); }
    case LoadG(a, size, g) =>
      if cfg.cacheSim { GuardDoes(items, R(n, a, size), g, env); }
    case StoreG(a, size, g) =>
      if cfg.cacheSim { GuardDoes(items, W(n, a, size), g, env); }
    case Dirty(fx, a, size) =>
      if cfg.cacheSim {
        DirtyDoes(items, fx, a, size, n, just, env, cfg);
      } else {
        assert Posted(st, n, cfg) == [];
      }
    case CAS(a, size) =>
      if cfg.cacheSim {
        ModifyDoes(items, n, a, Capped(size, cfg), env);
      } else {
        assert Posted(st, n, cfg) == [];
      }
    case LoadLinked(a, size) =>
      if cfg.cacheSim {
        ReadDoes(items, n, a, size, env);
        BarrierDoes(items + [E(R(n, a, size))], env);
        assert items + ([E(R(n, a, size))] + [Barrier]) == items + [E(R(n, a, size))] + [Barrier];
      } else {
        BarrierDoes(items, env);
        assert Posted(st, n, cfg) == [Barrier];
      }
    case StoreConditional(a, size) =>
      if cfg.cacheSim { WriteDoes(items, n, a, size, just, env); }
    case Exit(g, dst, jk) => ExitDoes(items, g, dst, jk, n, env, cfg);
  }

  lemma ReadDoes(items: seq<Item>, n: InstrInfo, a: Atom, size: nat, env: Env)
    ensures Effects(Canon(items + [E(R(n, a, size))]), env)
            == Effects(Canon(items), env) + [DidRead(n.parent, env(a), size)]
  {
    NoFold(items, E(R(n, a, size)));
    CanonOne(items, E(R(n, a, size)), env);
  }

  lemma WriteDoes(items: seq<Item>, n: InstrInfo, a: Atom, size: nat, just: Option<(Atom, nat)>, env: Env)
    requires EndsInRead(items, n, just)
    ensures Effects(Canon(items + [E(W(n, a, size))]), env)
            == Effects(Canon(items), env) + if just != Some((a, size)) then [DidWrite(n.parent, env(a), size)] else []
  {
    FoldsIs(items, n, a, size, just);
    CanonOne(items, E(W(n, a, size)), env);
  }

  lemma GuardDoes(items: seq<Item>, r: EventStream.Ref, g: Atom, env: Env)
    ensures Effects(Canon(items + [G(r, g)]), env)
            == Effects(Canon(items), env) + if env(g) != 0 then [EffectOf(r, env)] else []
  {
    NoFold(items, G(r, g));
    CanonOne(items, G(r, g), env);
  }

  lemma BarrierDoes(items: seq<Item>, env: Env)
    ensures Effects(Canon(items + [Barrier]), env) == Effects(Canon(items), env)
  {
    CanonOne(items, Barrier, env);
    assert Effects(Canon(items), env) + [] == Effects(Canon(items), env);
  }

  lemma ModifyDoes(items: seq<Item>, n: InstrInfo, a: Atom, size: nat, env: Env)
    ensures Effects(Canon(items + ([E(R(n, a, size))] + [E(W(n, a, size))])), env)
            == Effects(Canon(items), env) + [DidRead(n.parent, env(a), size)]
  {
    var read := items + [E(R(n, a, size))];
    ReadDoes(items, n, a, size, env);
    assert read[|read| - 1] == E(R(n, a, size));
    WriteDoes(read, n, a, size, Some((a, size)), env);
    assert items + ([E(R(n, a, size))] + [E(W(n, a, size))]) == read + [E(W(n, a, size))];
    assert Effects(Canon(read), env) + [] == Effects(Canon(read), env);
  }

  lemma DirtyDoes(items: seq<Item>, fx: EventStream.Effect, a: Atom, size: nat, n: InstrInfo, just: Option<(Atom, nat)>,
                  env: Env, cfg: Config)
    requires cfg.cacheSim && EndsInRead(items, n, just)
    ensures Effects(Canon(items + Posted(Dirty(fx, a, size), n, cfg)), env)
            == Effects(Canon(items), env)
               + Does(Dirty(fx, a, size), Instruction(n.parent, n.addr, n.len), just, env, cfg)
  {
    hide Effects, Canon, EndsInRead;
    var c := Capped(size, cfg);
    var none: seq<Effect> := [];
    assert items + [] == items && Effects(Canon(items), env) + none == Effects(Canon(items), env);
    match fx
    case NoFx => assert Posted(Dirty(fx, a, size), n, cfg) == [];
    case ReadFx =>
      ReadDoes(items, n, a, c, env);
      assert Posted(Dirty(fx, a, size), n, cfg) == [E(R(n, a, c))];
    case WriteFx =>
      WriteDoes(items, n, a, c, just, env);
      assert Posted(Dirty(fx, a, size), n, cfg) == [E(W(n, a, c))];
    case ModifyFx =>
      ModifyDoes(items, n, a, c, env);
      assert Posted(Dirty(fx, a, size), n, cfg) == [E(R(n, a, c))] + [E(W(n, a, c))];
  }

  lemma ExitDoes(items: seq<Item>, g: Atom, dst: UWord, jk: JumpKind, n: InstrInfo, env: Env, cfg: Config)
    ensures Effects(Canon(items + Posted(Exit(g, dst, jk), n, cfg)), env)
            == Effects(Canon(items), env)
               + Does(Exit(g, dst, jk), Instruction(n.parent, n.addr, n.len), None, env, cfg)
  {
    hide Effects, Canon;
    var next := (n.addr + n.len) % 0x1_0000_0000_0000_0000;
    var c := E(C(n, Taken(g, dst == next)));
    var none: seq<Effect> := [];
    assert Effects(Canon(items), env) + none == Effects(Canon(items), env);
    if jk != Other && cfg.branchSim {
      NoFold(items, c);
      CanonOne(items, c, env);
      BarrierDoes(items + [c], env);
      assert items + ([c] + [Barrier]) == items + [c] + [Barrier];
      assert Posted(Exit(g, dst, jk), n, cfg) == [c] + [Barrier];
    } else {
      BarrierDoes(items, env);
      assert Posted(Exit(g, dst, jk), n, cfg) == [Barrier];
    }
  }

  lemma EndIs(items: seq<Item>, it: Item, n: InstrInfo, just: Option<(Atom, nat)>)
    requires forall a, size :: it == E(R(n, a, size)) <==> just == Some((a, size))
    ensures EndsInRead(items + [it], n, just)
  {
  }

  function LastOf(st: Stmt, n: InstrInfo, cfg: Config): Option<Item> {
    var ps := Posted(st, n, cfg);
    if ps == [] then None else Some(ps[|ps| - 1])
  }

  lemma LastPosted(st: Stmt, n: InstrInfo, cfg: Config)
    requires !st.IMark? && cfg.cacheSim && !st.Plain? && !(st.Dirty? && st.fx == NoFx)
    ensures var (last, just) := (LastOf(st, n, cfg), JustOne(st, cfg));
            && last.Some?
            && (just.None? ==> forall a, size :: last.value != E(R(n, a, size)))
            && (just.Some? ==> last.value == E(R(n, just.value.0, just.value.1)))
  {
    match st
    case Load(a, size) =>
    case Store(a, size) =>
    case LoadG(a, size, g) =>
    case StoreG(a, size, g) =>
    case Dirty(fx, a, size) =>
    case CAS(a, size) =>
    case LoadLinked(a, size) =>
    case StoreConditional(a, size) =>
    case Exit(g, dst, jk) =>
  }

  /** What a statement posts, if anything, ends in a read exactly where it has just read. */
  lemma PostedEnds(items: seq<Item>, st: Stmt, n: InstrInfo, cfg: Config)
    requires !st.IMark? && cfg.cacheSim && !st.Plain? && !(st.Dirty? && st.fx == NoFx)
    ensures EndsInRead(items + Posted(st, n, cfg), n, JustOne(st, cfg))
  {
    hide EndsInRead, Posted, JustOne;
    var ps := Posted(st, n, cfg);
    LastPosted(st, n, cfg);
    EndIs(items + ps[..|ps| - 1], ps[|ps| - 1], n, JustOne(st, cfg));
    assert items + ps[..|ps| - 1] + [ps[|ps| - 1]] == items + ps;
  }

  lemma PostsNothing(st: Stmt, n: InstrInfo, cfg: Config)
    requires st.Plain? || (st.Dirty? && st.fx == NoFx)
    ensures Posted(st, n, cfg) == []
  {
  }

  lemma ItemsLast(stmts: seq<Stmt>, cfg: Config)
    requires stmts != [] && stmts[0].IMark?
    ensures var m := |stmts| - 1;
            && Marks(stmts) > 0
            && Items(stmts, cfg)
               == (if m == 0 then [] else Items(stmts[..m], cfg)) + Posted(stmts[m], Current(stmts, cfg), cfg)
            && (!stmts[m].IMark? ==> m > 0 && Marks(stmts[..m]) > 0 && Current(stmts, cfg) == Current(stmts[..m], cfg))
  {
    hide Posted;
    MarksFromFirst(stmts);
    if |stmts| > 1 { MarksFromFirst(stmts[..|stmts| - 1]); }
  }

  lemma {:induction false} ItemsEnd(stmts: seq<Stmt>, cfg: Config)
    requires stmts != [] && stmts[0].IMark? && cfg.cacheSim
    ensures Marks(stmts) > 0 && EndsInRead(Items(stmts, cfg), Current(stmts, cfg), JustRead(stmts, cfg))
  {
    hide EndsInRead, JustOne, Posted, Items, Current, Marks;
    ItemsLast(stmts, cfg);
    var m := |stmts| - 1;
    var st, n := stmts[m], Current(stmts, cfg);
    var before := if m == 0 then [] else Items(stmts[..m], cfg);
    if st.IMark? {
      FetchEnds(before, st, n, cfg);
    } else {
      assert stmts[..m][0] == stmts[0];
      ItemsEnd(stmts[..m], cfg);
      if st.Plain? || (st.Dirty? && st.fx == NoFx) {
        PostsNothing(st, n, cfg);
        assert before + [] == before;
      } else {
        PostedEnds(before, st, n, cfg);
      }
    }
  }

  lemma FetchEnds(items: seq<Item>, st: Stmt, n: InstrInfo, cfg: Config)
    requires st.IMark?
    ensures EndsInRead(items + Posted(st, n, cfg), n, JustOne(st, cfg))
  {
    EndIs(items, E(I(n)), n, None);
  }

  /** What the statements of a block post is, less the writes that fold, what they do. */
  lemma {:induction false} ItemsDo(stmts: seq<Stmt>, env: Env, cfg: Config)
    requires stmts != [] && stmts[0].IMark?
    ensures Effects(Canon(Items(stmts, cfg)), env) == BlockDoes(stmts, env, cfg)
  {
    hide Effects, Canon, Posted, Does, EndsInRead, JustRead;
    MarksFromFirst(stmts);
    ExecutingIs(stmts, cfg);
    var m := |stmts| - 1;
    var st, n := stmts[m], Current(stmts, cfg);
    var before := if m == 0 then [] else Items(stmts[..m], cfg);
    assert Effects(Canon([]), env) == [] by { NothingDone(env); }
    if m > 0 {
      assert stmts[..m][0] == stmts[0];
      ItemsDo(stmts[..m], env, cfg);
    } else {
      assert stmts[..0] == [];
    }
    if st.IMark? {
      FetchDoes(before, st, n, JustRead(stmts[..m], cfg), env, cfg);
    } else {
      if cfg.cacheSim { ItemsEnd(stmts[..m], cfg); }
      assert m > 0 && n == Current(stmts[..m], cfg);
      StatementDoes(before, st, n, JustRead(stmts[..m], cfg), env, cfg);
    }
  }

  lemma NothingDone(env: Env)
    ensures Effects(Canon([]), env) == []
  {
  }

  lemma FetchDoes(items: seq<Item>, st: Stmt, n: InstrInfo, just: Option<(Atom, nat)>, env: Env, cfg: Config)
    requires st.IMark?
    ensures Effects(Canon(items + Posted(st, n, cfg)), env)
            == Effects(Canon(items), env) + Does(st, Instruction(n.parent, n.addr, n.len), just, env, cfg)
  {
    NoFold(items, E(I(n)));
    CanonOne(items, E(I(n)), env);
  }

  /** A whole block, from its first instruction to its end, logs exactly what it does. */
  lemma BlockLogsWhatItDoes(stmts: seq<Stmt>, e: Ending, env: Env, cfg: Config)
    requires stmts != [] && stmts[0].IMark?
    ensures Marks(stmts) > 0 && Executing(stmts, cfg).Some?
    ensures Effects(Canon(Items(stmts, cfg) + Ended(e, Current(stmts, cfg), cfg)), env)
            == BlockDoes(stmts, env, cfg) + EndDoes(e, Executing(stmts, cfg).value, env, cfg)
  {
    hide Effects, Canon, Items, BlockDoes;
    MarksFromFirst(stmts);
    ExecutingIs(stmts, cfg);
    ItemsDo(stmts, env, cfg);
    var items, n := Items(stmts, cfg), Current(stmts, cfg);
    if (e.jk == Boring || e.jk == Call) && e.next.Tmp? && cfg.branchSim {
      var b := E(B(n, e.next));
      NoFold(items, b);
      CanonOne(items, b, env);
      BarrierDoes(items + [b], env);
      assert items + ([b] + [Barrier]) == items + [b] + [Barrier];
    } else {
      BarrierDoes(items, env);
      assert items + ([] + [Barrier]) == items + [Barrier];
      assert BlockDoes(stmts, env, cfg) + [] == BlockDoes(stmts, env, cfg);
    }
  }

  // ---------------------------------------------------------- counts of effects

  predicate OfKind(e: Effect, k: Kind) {
    match k
    case Fetch => e.Fetched?
    case Read => e.DidRead?
    case Write => e.DidWrite?
    case CondBranch => e.Branched?
    case IndBranch => e.WentTo?
  }

  function CountOf(es: seq<Effect>, p: nat, k: Kind): nat {
    if es == [] then 0 else
    CountOf(es[..|es| - 1], p, k) + if es[|es| - 1].line == p && OfKind(es[|es| - 1], k) then 1 else 0
  }

  /** The events of a kind and line are as many as its effects, so the counters that logging raises
      count what the block does. */
  lemma {:induction false} EventsAreEffects(s: seq<Logged>, p: nat, k: Kind, env: Env)
    ensures |Events(s, p, k, env)| == CountOf(Effects(s, env), p, k)
  {
    if s == [] {
      assert Events(s, p, k, env) == {};
    } else {
      var n := |s| - 1;
      EventsAreEffects(s[..n], p, k, env);
      OneMoreEvent(s, p, k, env);
      if Happens(s[n], env) {
        CountNext(Effects(s[..n], env), EffectOf(s[n].ref, env), p, k);
      } else {
        assert Effects(s[..n], env) + [] == Effects(s[..n], env);
      }
    }
  }

  lemma OneMoreEvent(s: seq<Logged>, p: nat, k: Kind, env: Env)
    requires s != []
    ensures var e := s[|s| - 1];
            |Events(s, p, k, env)| == |Events(s[..|s| - 1], p, k, env)|
              + if Happens(e, env) && EffectOf(e.ref, env).line == p && OfKind(EffectOf(e.ref, env), k) then 1 else 0
  {
    hide Events;
    EventsNext(s, p, k, env);
  }

  lemma CountNext(es: seq<Effect>, e: Effect, p: nat, k: Kind)
    ensures CountOf(es + [e], p, k) == CountOf(es, p, k) + if e.line == p && OfKind(e, k) then 1 else 0
  {
    assert (es + [e])[..|es|] == es;
  }

  /** So logging a block adds to the counters of every source line what the block has done on it: its
      fetches, reads, writes and branches. */
  lemma BlockCounts(m: Machine, stmts: seq<Stmt>, e: Ending, p: nat, env: Env, cfg: Config)
    requires MachineOk(m, cfg) && stmts != [] && stmts[0].IMark? && Marks(stmts) > 0
    requires AllFit(Canon(Items(stmts, cfg) + Ended(e, Current(stmts, cfg), cfg)), env, cfg)
    ensures Executing(stmts, cfg).Some?
    ensures var s := Canon(Items(stmts, cfg) + Ended(e, Current(stmts, cfg), cfg));
            var (x, y) := (Line(m, p), Line(LogAll(m, s, env, cfg), p));
            var es := BlockDoes(stmts, env, cfg) + EndDoes(e, Executing(stmts, cfg).value, env, cfg);
            && y.ir.a == x.ir.a + CountOf(es, p, Fetch)
            && y.bc == x.bc + CountOf(es, p, CondBranch) && y.bi == x.bi + CountOf(es, p, IndBranch)
            && (cfg.cacheSim ==> y.dr.a == x.dr.a + CountOf(es, p, Read) && y.dw.a == x.dw.a + CountOf(es, p, Write))
            && (!cfg.cacheSim ==> y.dr == x.dr && y.dw == x.dw)
  {
    hide Canon, Items, Ended, Line, LogAll, MachineOk, AllFit, BlockDoes, EndDoes, Executing, Effects, Events, CountOf,
         Misses;
    var s := Canon(Items(stmts, cfg) + Ended(e, Current(stmts, cfg), cfg));
    BlockLogsWhatItDoes(stmts, e, env, cfg);
    CountersRise(m, s, p, env, cfg);
    forall k: Kind
      ensures |Events(s, p, k, env)| == CountOf(Effects(s, env), p, k)
    {
      EventsAreEffects(s, p, k, env);
    }
    if !cfg.cacheSim { NoMisses(m, s, p, env, cfg); }
  }

  lemma NoMisses(m: Machine, s: seq<Logged>, p: nat, env: Env, cfg: Config)
    requires MachineOk(m, cfg) && AllFit(s, env, cfg) && !cfg.cacheSim
    ensures forall k: Kind, last: bool :: |Misses(m, s, p, k, last, env, cfg)| == 0
  {
  }

  /** And so does running the code made of the block, whatever the size of the event buffer was. */
  lemma BlockRuns(m: Machine, out: seq<EventQueue.OutStmt>, stmts: seq<Stmt>, e: Ending, p: nat, env: Env, cfg: Config)
    requires MachineOk(m, cfg) && stmts != [] && stmts[0].IMark? && Marks(stmts) > 0
    requires EventQueue.OutOk(out, cfg) && EventQueue.OutFits(out, env, cfg)
    requires EventQueue.Emitted(out) == Canon(Items(stmts, cfg) + Ended(e, Current(stmts, cfg), cfg))
    ensures Executing(stmts, cfg).Some?
    ensures var (x, y) := (Line(m, p), Line(EventQueue.RunOut(m, out, env, cfg), p));
            var es := BlockDoes(stmts, env, cfg) + EndDoes(e, Executing(stmts, cfg).value, env, cfg);
            && y.ir.a == x.ir.a + CountOf(es, p, Fetch)
            && y.bc == x.bc + CountOf(es, p, CondBranch) && y.bi == x.bi + CountOf(es, p, IndBranch)
            && (cfg.cacheSim ==> y.dr.a == x.dr.a + CountOf(es, p, Read) && y.dw.a == x.dw.a + CountOf(es, p, Write))
            && (!cfg.cacheSim ==> y.dr == x.dr && y.dw == x.dw)
  {
    hide Canon, Items, Ended, Line, LogAll, MachineOk, AllFit, BlockDoes, EndDoes, Executing, CountOf,
         EventQueue.OutOk, EventQueue.OutFits, EventQueue.Emitted, EventQueue.RunOut;
    EventQueue.RunLogsEmitted(m, out, env, cfg);
    BlockCounts(m, stmts, e, p, env, cfg);
  }
}
